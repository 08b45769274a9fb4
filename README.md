# Jobs GraphQL tool: the query validation gate

The Jobs assistant turns a question about job listings into a GraphQL query
and runs it against a Jobs API through one tool, `GraphQLTool.execute_query`.
Before anything goes over the network, that method checks the query string.
It runs three checks in a fixed order, and the first one that fails decides
the outcome:

1. the raw string has as many `{` as `}`; otherwise it is refused with
   "Unbalanced braces";
2. the string, stripped of surrounding whitespace, is non-empty and at least
   10 characters long; otherwise it is refused with "Query is empty or too
   short";
3. the raw string contains none of `< > ! @ # $ % ^ & *`; otherwise it is
   refused with "Contains invalid characters".

A query that passes all three is put, unchanged, as the `query` field of a
JSON body and POSTed to the tool's endpoint.

The project models this gate and the request it leads to:

- `pystr.dfy`, module `PyStr`: the Python string built-ins the gate uses.
  These are `str.count` for one character (`Count`), `str.strip()` with no
  argument (`Strip`, built from `StripLeading` and `StripTrailing`) and
  `any(c in s for c in chars)` (`ContainsAnyOf`). Each function only
  computes. Lemmas beside it state what it computes:
  - the count is the character's multiplicity;
  - stripping leaves the inner piece framed by whitespace;
  - the `any` test means some listed character occurs in the string.
  The padding lemmas say how each behaves when whitespace is added around a
  string.
- `agent.dfy`, module `Agent`: the gate (`Validate`), the tool
  (`GraphQLTool`, holding only its endpoint) and `ExecuteQuery`.
  `ExecuteQuery` either refuses the query with a reason or produces the POST
  request it would send. The three conditions are also defined as
  predicates. `BracesBalanced` compares multiset counts and `HasInvalidChar`
  scans the positions; neither uses the gate's code. `LongEnough` looks at
  the stripped length and so calls the same `Strip` the gate calls; what
  `Strip` returns is pinned down independently by `PyStr.StripSpec`, which
  describes it as the piece of the query framed by whitespace on both sides
  and neither starting nor ending with whitespace. The lemmas tie the gate's
  verdicts to these conditions.

Whitespace: `str.strip()` drops the characters for which Python's
`str.isspace` holds. `PyStr.IsSpace` lists them: the ASCII controls 9-13 and
28-31, the space, U+0085, U+00A0, U+1680, U+2000-U+200A, U+2028, U+2029,
U+202F, U+205F and U+3000. This is the set for the Unicode database of
current Python releases. A Python built on a different Unicode version may
differ, so the list is an approximation tied to that version.

The endpoint is a field of the `GraphQLTool` value. `ExecuteQuery` only reads
it and returns a new `Step`, so a call cannot change the tool. The model
therefore shows that validation is total and has no side effects on the tool.

## Model

| member | source | states |
|---|---|---|
| `PyStr.IsSpace` | agent.py:30 | no ensures of its own: the whitespace set of `str.strip()`, used by the strip lemmas below |
| `PyStr.Count` | agent.py:26 | no ensures of its own; characterised by `PyStr.CountIsMultiplicity` |
| `PyStr.ContainsAnyOf` | agent.py:35 | no ensures of its own; characterised by `PyStr.ContainsAnyOfSpec` and `PyStr.ContainsAnyOfScan` |
| `PyStr.StripLeading` | agent.py:30 | no ensures of its own; characterised by `PyStr.StripLeadingSpec` |
| `PyStr.StripTrailing` | agent.py:30 | no ensures of its own; characterised by `PyStr.StripTrailingSpec` |
| `PyStr.Strip` | agent.py:30 | no ensures of its own; characterised by `PyStr.StripSpec` and `PyStr.StripEmptyIffAllSpace` |
| `Agent.Validate` | agent.py:26-37 | no ensures of its own; characterised by `Agent.ValidateMeetsSpec` |
| `Agent.ExecuteQuery` | agent.py:22-48 | no ensures of its own; characterised by `Agent.ExecuteQuerySpec` and `Agent.PaddedQuerySentUnstripped` |
| `PyStr.CountIsMultiplicity` | agent.py:26 | `query.count(c)` is the number of occurrences of `c` in the query, i.e. its multiplicity in the multiset of the query's characters |
| `PyStr.ContainsAnyOfSpec` | agent.py:35 | `any(c in query for c in chars)` holds exactly when some character of `chars` occurs in the query |
| `PyStr.ContainsAnyOfScan` | agent.py:35 | the same test holds exactly when some position of the query holds a character of `chars` |
| `PyStr.StripLeadingSpec` | agent.py:30 | dropping leading whitespace leaves a suffix that is empty or starts with a non-space, and everything dropped was whitespace |
| `PyStr.StripTrailingSpec` | agent.py:30 | dropping trailing whitespace leaves a prefix that is empty or ends with a non-space, and everything dropped was whitespace |
| `PyStr.StripSpec` | agent.py:30 | `query.strip()` is a contiguous piece of the query, preceded and followed only by whitespace, that is empty or neither starts nor ends with whitespace |
| `PyStr.StripEmptyIffAllSpace` | agent.py:30 | `not query.strip()` holds exactly when the query is all whitespace (the empty string included) |
| `PyStr.StripIdempotent` | agent.py:30 | stripping an already stripped string changes nothing |
| `PyStr.StripLeadingPadding` | agent.py:30 | whitespace put before a string is removed by the leading strip |
| `PyStr.StripTrailingPadding` | agent.py:30 | whitespace put after a string is removed by the trailing strip |
| `PyStr.StripLeadingAppend` | agent.py:30 | once the leading strip reaches a non-space, everything after it is kept |
| `PyStr.StripIgnoresPadding` | agent.py:30 | surrounding a query with whitespace leaves `query.strip()` unchanged |
| `PyStr.CountIgnoresPadding` | agent.py:26 | surrounding a query with whitespace does not change the count of a non-space character |
| `PyStr.ContainsAnyOfIgnoresPadding` | agent.py:35 | surrounding a query with whitespace does not change whether it holds one of a set of non-space characters |
| `Agent.ValidateMeetsSpec` | agent.py:26-37 | first failure wins: unbalanced braces iff the `{` and `}` counts differ; too short iff balanced and the stripped query is under 10 characters; invalid characters iff balanced, long enough and some position holds one of `<>!@#$%^&*`; accepted iff all three conditions hold |
| `Agent.ExecuteQuerySpec` | agent.py:22-48 | each failing check refuses the query with its own reason and nothing is sent; a query passing all three is POSTed to the tool's endpoint with JSON headers and a body whose only field `query` is the query exactly as given |
| `Agent.BraceCountsIgnorePadding` | agent.py:26 | surrounding whitespace changes neither the `{` count nor the `}` count |
| `Agent.InvalidScanIgnoresPadding` | agent.py:35 | surrounding whitespace does not change the scan for `<>!@#$%^&*`, since none of them is whitespace |
| `Agent.ValidateIgnoresPadding` | agent.py:26-37 | adding or removing leading or trailing whitespace never changes the verdict |
| `Agent.PaddedQuerySentUnstripped` | agent.py:26-45 | a padded query is refused exactly as the bare one is; if the bare one is sent, the padded one is sent too, with its padding kept in the `query` field |
| `Agent.ShortQueryRefused` | agent.py:30-32 | `{jobs}` balances its braces but is refused as too short |
| `Agent.ShortWithAtRefusedAsShort` | agent.py:30-37 | `{@id}` is refused as too short, not for its `@`, because the length check comes first |
| `Agent.UnbalancedShortWithAt` | agent.py:26-37 | `{{@id}` is refused for unbalanced braces, although it is also short and holds `@` |
| `Agent.BoundaryQueryAccepted` | agent.py:30-45 | `{jobs{id}}`, exactly 10 characters, is long enough and is sent unchanged |
| `Agent.DirectiveRefused` | agent.py:35-37 | `{id @skip}`, balanced and 10 characters long, is refused for its `@`: the character scan refuses a directive however it is written |

## Left out

- The HTTP POST, `raise_for_status` and `response.json()` (agent.py:47-55) are network I/O. `ExecuteQuery` stops at the request it would send (`Step.Send`). Transport failures, non-2xx statuses and malformed JSON responses are not modelled.
- Logging (agent.py:23, 27, 31, 36, 51, 54) only records what happens and changes nothing, so it is not modelled.
- Loading the configuration (`load_dotenv`, `os.getenv("GRAPHQL_API_URL")`) and the module-level `graphql_tool` instance (agent.py:11, 16, 57) are left out. The endpoint is a plain field of `GraphQLTool`. The case where the variable is unset and the URL is `None` is not modelled.
- `create_agent` (agent.py:59-135) sets up the language-model client, the prompt and the agent framework, all through foreign libraries, so it is left out.
- `process_query` (agent.py:137-140) is async glue around the agent framework and is left out. This includes its use of the input key `"inputbat"` where the prompt template expects `"input"`.
- `PyStr.IsSpace` lists the whitespace of one Unicode database version (see above). It is not derived from the Unicode tables.
- Strings are sequences of Unicode scalar values. A Python string can also hold lone surrogate code points, which this model cannot represent. The gate treats them as ordinary non-space characters.
- The `ValueError` messages are modelled as the three `Rejection` values, not as text.

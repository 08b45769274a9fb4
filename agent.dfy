/**
  The query validation gate of the Jobs GraphQL tool (`GraphQLTool` in
  agent.py). Before a candidate GraphQL query is sent to the Jobs API it
  must pass three syntactic checks, tried in a fixed order, the first
  failure deciding the outcome:
  1. as many `{` as `}` in the raw string,
  2. the stripped string is non-empty and at least ten characters long,
  3. the raw string holds none of `< > ! @ # $ % ^ & *`.
  An accepted query is placed, unchanged, in the `{"query": ...}` body of
  an HTTP POST to the tool's endpoint; the POST itself is an abstract step.
 */
module Agent {
  import opened PyStr

  /** Why a query was refused; one per distinct `ValueError` message. */
  datatype Rejection = UnbalancedBraces | TooShortOrEmpty | InvalidCharacters

  datatype Verdict = Accepted | Rejected(reason: Rejection)

  /** Shortest stripped query the gate lets through. */
  const MinQueryLength: nat := 10

  /** The characters the gate refuses anywhere in a query. */
  const InvalidChars: string := "<>!@#$%^&*"

  // The three conditions, stated independently of how the gate computes them.

  /** Opening and closing braces occur equally often. */
  ghost predicate BracesBalanced(q: string) {
    multiset(q)['{'] == multiset(q)['}']
  }

  /** What is left after stripping is long enough (hence non-empty). */
  ghost predicate LongEnough(q: string) {
    |Strip(q)| >= MinQueryLength
  }

  /** Some position of the query holds a refused character. */
  ghost predicate HasInvalidChar(q: string) {
    exists k :: 0 <= k < |q| && q[k] in InvalidChars
  }

  /** The gate: brace count, then stripped length, then character scan;
      the first check that fails names the rejection. */
  function Validate(query: string): Verdict
  {
    if Count(query, '{') != Count(query, '}') then Rejected(UnbalancedBraces)
    else if Strip(query) == [] || |Strip(query)| < MinQueryLength then Rejected(TooShortOrEmpty)
    else if ContainsAnyOf(query, InvalidChars) then Rejected(InvalidCharacters)
    else Accepted
  }

  /** The gate's verdicts, each characterised by the three conditions: a
      query is refused for unbalanced braces whatever else is wrong with it,
      for its length only when the braces balance, for its characters only
      when both earlier checks pass, and accepted exactly when all hold. */
  lemma ValidateMeetsSpec(query: string)
    ensures Validate(query) == Rejected(UnbalancedBraces) <==> !BracesBalanced(query)
    ensures Validate(query) == Rejected(TooShortOrEmpty) <==>
              BracesBalanced(query) && !LongEnough(query)
    ensures Validate(query) == Rejected(InvalidCharacters) <==>
              BracesBalanced(query) && LongEnough(query) && HasInvalidChar(query)
    ensures Validate(query) == Accepted <==>
              BracesBalanced(query) && LongEnough(query) && !HasInvalidChar(query)
  {
    CountIsMultiplicity(query, '{');
    CountIsMultiplicity(query, '}');
    ContainsAnyOfScan(query, InvalidChars);
  }

  /** The tool holds its endpoint, set once when it is built and only read. */
  datatype GraphQLTool = GraphQLTool(apiUrl: string)

  /** An HTTP POST with a JSON body holding string fields. */
  datatype Request = Post(url: string, headers: map<string, string>, payload: map<string, string>)

  /** What `execute_query` does with a query: refuse it with a reason, or
      hand a request to the transport. */
  datatype Step = Refused(reason: Rejection) | Send(request: Request)

  /** The headers of every request the tool sends. */
  const JsonHeaders: map<string, string> := map["Content-Type" := "application/json"]

  /** `execute_query` up to the POST: validate, then build the request. */
  function ExecuteQuery(tool: GraphQLTool, query: string): Step
  {
    match Validate(query)
    case Rejected(reason) => Refused(reason)
    case Accepted => Send(Post(tool.apiUrl, JsonHeaders, map["query" := query]))
  }

  /** What `execute_query` does with each query: a query failing a check is
      refused with that check's reason and nothing is sent; a query passing
      all three is sent to the tool's endpoint, as the one `query` field of a
      JSON body, character for character as it was given. */
  lemma ExecuteQuerySpec(tool: GraphQLTool, query: string)
    ensures !BracesBalanced(query) ==>
              ExecuteQuery(tool, query) == Refused(UnbalancedBraces)
    ensures BracesBalanced(query) && !LongEnough(query) ==>
              ExecuteQuery(tool, query) == Refused(TooShortOrEmpty)
    ensures BracesBalanced(query) && LongEnough(query) && HasInvalidChar(query) ==>
              ExecuteQuery(tool, query) == Refused(InvalidCharacters)
    ensures BracesBalanced(query) && LongEnough(query) && !HasInvalidChar(query) ==>
              ExecuteQuery(tool, query) == Send(Post(tool.apiUrl, JsonHeaders, map["query" := query]))
  {
    ValidateMeetsSpec(query);
  }

  /** Padding a query with whitespace changes neither brace count. */
  lemma BraceCountsIgnorePadding(p: string, q: string, t: string)
    requires AllSpace(p) && AllSpace(t)
    ensures Count(p + q + t, '{') == Count(q, '{')
    ensures Count(p + q + t, '}') == Count(q, '}')
  {
    CountIgnoresPadding(p, q, t, '{');
    CountIgnoresPadding(p, q, t, '}');
  }

  /** Padding a query with whitespace does not change the character scan,
      since no refused character is whitespace. */
  lemma InvalidScanIgnoresPadding(p: string, q: string, t: string)
    requires AllSpace(p) && AllSpace(t)
    ensures ContainsAnyOf(p + q + t, InvalidChars) == ContainsAnyOf(q, InvalidChars)
  {
    assert forall i :: 0 <= i < |InvalidChars| ==> !IsSpace(InvalidChars[i]);
    ContainsAnyOfIgnoresPadding(p, q, t, InvalidChars);
  }

  /** Whitespace around a query never changes the verdict: the brace count
      and the character scan see only whitespace added, and the length check
      sees the stripped string, which is unchanged. (The request still
      carries the padded text, not the stripped one.) */
  lemma {:induction false} ValidateIgnoresPadding(p: string, q: string, t: string)
    requires AllSpace(p) && AllSpace(t)
    ensures Validate(p + q + t) == Validate(q)
  {
    StripIgnoresPadding(p, q, t);
    BraceCountsIgnorePadding(p, q, t);
    InvalidScanIgnoresPadding(p, q, t);
  }

  /** At the tool's surface: padding never turns a refused query into a
      sent one or changes its reason, and a query that is sent goes out with
      its padding, not stripped. */
  lemma PaddedQuerySentUnstripped(tool: GraphQLTool, p: string, q: string, t: string)
    requires AllSpace(p) && AllSpace(t)
    ensures ExecuteQuery(tool, q).Refused? ==> ExecuteQuery(tool, p + q + t) == ExecuteQuery(tool, q)
    ensures ExecuteQuery(tool, q).Send? ==>
              ExecuteQuery(tool, p + q + t) == Send(Post(tool.apiUrl, JsonHeaders, map["query" := p + q + t]))
  {
    ValidateIgnoresPadding(p, q, t);
  }

  /** `{jobs}` balances but is six characters long: refused as too short. */
  lemma ShortQueryRefused(tool: GraphQLTool)
    ensures ExecuteQuery(tool, "{jobs}") == Refused(TooShortOrEmpty)
  {
    assert Count("{jobs}", '{') == 1 && Count("{jobs}", '}') == 1;
    assert Strip("{jobs}") == "{jobs}";
  }

  /** A short string with `@` reports the length, not the character. */
  lemma ShortWithAtRefusedAsShort(tool: GraphQLTool)
    ensures ExecuteQuery(tool, "{@id}") == Refused(TooShortOrEmpty)
  {
  }

  /** An unbalanced string reports the braces, though it is also short and
      holds a refused character. */
  lemma UnbalancedShortWithAt(tool: GraphQLTool)
    ensures ExecuteQuery(tool, "{{@id}") == Refused(UnbalancedBraces)
  {
  }

  /** `{jobs{id}}` has two braces of each kind. */
  lemma BoundaryQueryBraces()
    ensures Count("{jobs{id}}", '{') == 2 && Count("{jobs{id}}", '}') == 2
  {
  }

  /** `{jobs{id}}` has nothing to strip and no refused character. */
  lemma BoundaryQueryClean()
    ensures Strip("{jobs{id}}") == "{jobs{id}}"
    ensures !ContainsAnyOf("{jobs{id}}", InvalidChars)
  {
    ContainsAnyOfSpec("{jobs{id}}", InvalidChars);
  }

  /** Exactly ten characters is long enough: the query is sent unchanged. */
  lemma BoundaryQueryAccepted(tool: GraphQLTool)
    ensures ExecuteQuery(tool, "{jobs{id}}")
            == Send(Post(tool.apiUrl, JsonHeaders, map["query" := "{jobs{id}}"]))
  {
    BoundaryQueryBraces();
    BoundaryQueryClean();
  }

  /** `{id @skip}` balances its one pair of braces. */
  lemma DirectiveQueryBraces()
    ensures Count("{id @skip}", '{') == 1 && Count("{id @skip}", '}') == 1
  {
  }

  /** `{id @skip}` has nothing to strip and holds an `@`. */
  lemma DirectiveQueryShape()
    ensures Strip("{id @skip}") == "{id @skip}"
    ensures ContainsAnyOf("{id @skip}", InvalidChars)
  {
  }

  /** A query using a directive is refused for its `@`, though it is
      balanced and ten characters long: the scan looks at characters, not at
      GraphQL syntax. */
  lemma DirectiveRefused(tool: GraphQLTool)
    ensures ExecuteQuery(tool, "{id @skip}") == Refused(InvalidCharacters)
  {
    DirectiveQueryBraces();
    DirectiveQueryShape();
  }
}

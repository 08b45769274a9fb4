/**
  The three Python string built-ins the query validation gate relies on,
  written out over `seq<char>`:
  - `s.count(c)` for a one-character argument,
  - `s.strip()` with no argument (drop leading and trailing whitespace),
  - `any(c in s for c in chars)`.
  The functions only compute; what they compute is stated by the lemmas
  after each of them.
 */
module PyStr {

  /** The characters Python's `str.isspace` (and therefore `str.strip()`)
      treats as whitespace: the ASCII controls 9-13 and 28-31, the space,
      and the Unicode spaces and separators NEL, NBSP, OGHAM SPACE MARK,
      EN QUAD..HAIR SPACE, LINE/PARAGRAPH SEPARATOR, NARROW NBSP,
      MEDIUM MATHEMATICAL SPACE and IDEOGRAPHIC SPACE. */
  predicate IsSpace(c: char) {
    || ('\t' <= c <= '\r')
    || ('\U{1C}' <= c <= '\U{1F}')
    || c == ' '
    || c == '\U{85}'
    || c == '\U{A0}'
    || c == '\U{1680}'
    || ('\U{2000}' <= c <= '\U{200A}')
    || c == '\U{2028}'
    || c == '\U{2029}'
    || c == '\U{202F}'
    || c == '\U{205F}'
    || c == '\U{3000}'
  }

  /** Every character of `s` is whitespace (the empty string included). */
  predicate AllSpace(s: string) {
    forall i :: 0 <= i < |s| ==> IsSpace(s[i])
  }

  // ---------------------------------------------------------------- count

  /** `s.count(c)` for a one-character `c`. */
  function Count(s: string, c: char): nat
  {
    if |s| == 0 then 0
    else (if s[0] == c then 1 else 0) + Count(s[1..], c)
  }

  /** `s.count(c)` is the number of times `c` occurs in `s`. */
  lemma {:induction false} CountIsMultiplicity(s: string, c: char)
    ensures Count(s, c) == multiset(s)[c]
  {
    if s != [] {
      assert s == [s[0]] + s[1..];
      CountIsMultiplicity(s[1..], c);
    }
  }

  // ------------------------------------------------------------------ any

  /** `any(c in s for c in chars)`, tried character by character. */
  function ContainsAnyOf(s: string, chars: string): bool
  {
    if |chars| == 0 then false
    else chars[0] in s || ContainsAnyOf(s, chars[1..])
  }

  /** The generator is true exactly when some character of `chars` occurs
      in `s`. */
  lemma {:induction false} ContainsAnyOfSpec(s: string, chars: string)
    ensures ContainsAnyOf(s, chars) <==> exists i :: 0 <= i < |chars| && chars[i] in s
  {
    if chars != [] {
      ContainsAnyOfSpec(s, chars[1..]);
      assert forall i :: 0 < i < |chars| ==> chars[i] == chars[1..][i - 1];
    }
  }

  /** The same test read as a scan of `s`: some position of `s` holds a
      character of `chars`. */
  lemma ContainsAnyOfScan(s: string, chars: string)
    ensures ContainsAnyOf(s, chars) <==> exists k :: 0 <= k < |s| && s[k] in chars
  {
    ContainsAnyOfSpec(s, chars);
    if ContainsAnyOf(s, chars) {
      var i :| 0 <= i < |chars| && chars[i] in s;
      var k :| 0 <= k < |s| && s[k] == chars[i];
    }
  }

  // ---------------------------------------------------------------- strip

  /** Leading half of `s.strip()`: drop whitespace from the front. */
  function StripLeading(s: string): string
  {
    if |s| > 0 && IsSpace(s[0]) then StripLeading(s[1..]) else s
  }

  /** Trailing half of `s.strip()`: drop whitespace from the back. */
  function StripTrailing(s: string): string
  {
    if |s| > 0 && IsSpace(s[|s| - 1]) then StripTrailing(s[..|s| - 1]) else s
  }

  /** `s.strip()`: drop whitespace from both ends. */
  function Strip(s: string): string
  {
    StripTrailing(StripLeading(s))
  }

  /** Dropping from the front leaves a suffix of `s` that does not start
      with whitespace, and everything dropped was whitespace. */
  lemma {:induction false} StripLeadingSpec(s: string)
    ensures var r := StripLeading(s);
      && |r| <= |s| && r == s[|s| - |r|..]
      && AllSpace(s[..|s| - |r|])
      && (r == [] || !IsSpace(r[0]))
  {
    if s != [] && IsSpace(s[0]) {
      StripLeadingSpec(s[1..]);
      var r := StripLeading(s);
      assert s[..|s| - |r|] == [s[0]] + s[1..][..|s| - 1 - |r|];
    }
  }

  /** Dropping from the back leaves a prefix of `s` that does not end with
      whitespace, and everything dropped was whitespace. */
  lemma {:induction false} StripTrailingSpec(s: string)
    ensures var r := StripTrailing(s);
      && |r| <= |s| && r == s[..|r|]
      && AllSpace(s[|r|..])
      && (r == [] || !IsSpace(r[|r| - 1]))
  {
    if s != [] && IsSpace(s[|s| - 1]) {
      var t := s[..|s| - 1];
      StripTrailingSpec(t);
      var r := StripTrailing(s);
      assert s[|r|..] == t[|r|..] + [s[|s| - 1]];
    }
  }

  /** `s.strip()` leaves a piece of `s` that neither starts nor ends with
      whitespace and is preceded and followed in `s` only by whitespace. */
  lemma StripSpec(s: string)
    ensures |StripLeading(s)| <= |s|
    ensures var r, n := Strip(s), |s| - |StripLeading(s)|;
      && n + |r| <= |s|
      && r == s[n..n + |r|]
      && AllSpace(s[..n]) && AllSpace(s[n + |r|..])
      && (r == [] || (!IsSpace(r[0]) && !IsSpace(r[|r| - 1])))
  {
    var lead := StripLeading(s);
    StripLeadingSpec(s);
    StripTrailingSpec(lead);
    var r := StripTrailing(lead);
    var n := |s| - |lead|;
    assert r != [] ==> r[0] == lead[0];
    assert s[n + |r|..] == lead[|r|..];
  }

  /** `s.strip()` is empty exactly when `s` is all whitespace. */
  lemma StripEmptyIffAllSpace(s: string)
    ensures Strip(s) == [] <==> AllSpace(s)
  {
    var lead := StripLeading(s);
    StripLeadingSpec(s);
    StripTrailingSpec(lead);
    assert s == s[..|s| - |lead|] + lead;
  }

  lemma {:induction false} StripLeadingPadding(p: string, x: string)
    requires AllSpace(p)
    ensures StripLeading(p + x) == StripLeading(x)
  {
    if p != [] {
      assert (p + x)[1..] == p[1..] + x;
      StripLeadingPadding(p[1..], x);
    } else {
      assert p + x == x;
    }
  }

  lemma {:induction false} StripTrailingPadding(x: string, t: string)
    requires AllSpace(t)
    ensures StripTrailing(x + t) == StripTrailing(x)
  {
    if t != [] {
      var n := |x + t|;
      assert (x + t)[n - 1] == t[|t| - 1];
      assert (x + t)[..n - 1] == x + t[..|t| - 1];
      StripTrailingPadding(x, t[..|t| - 1]);
    } else {
      assert x + t == x;
    }
  }

  /** Once the front of `x` is reached, whatever follows `x` is kept. */
  lemma {:induction false} StripLeadingAppend(x: string, t: string)
    requires StripLeading(x) != []
    ensures StripLeading(x + t) == StripLeading(x) + t
  {
    if IsSpace(x[0]) {
      assert (x + t)[1..] == x[1..] + t;
      StripLeadingAppend(x[1..], t);
    }
  }

  /** Surrounding `q` with whitespace does not change `q.strip()`. */
  lemma {:induction false} StripIgnoresPadding(p: string, q: string, t: string)
    requires AllSpace(p) && AllSpace(t)
    ensures Strip(p + q + t) == Strip(q)
  {
    assert p + q + t == p + (q + t);
    StripLeadingPadding(p, q + t);
    if StripLeading(q) == [] {
      StripLeadingSpec(q);
      assert AllSpace(q + t);
      StripLeadingPadding(q + t, []);
      assert q + t + [] == q + t;
    } else {
      StripLeadingAppend(q, t);
      StripTrailingPadding(StripLeading(q), t);
    }
  }

  /** Stripping twice is stripping once. */
  lemma StripIdempotent(s: string)
    ensures Strip(Strip(s)) == Strip(s)
  {
    StripSpec(s);
    var r := Strip(s);
    assert StripLeading(r) == r;
    assert StripTrailing(r) == r;
  }

  // ------------------------------------------------ padding and the checks

  /** Whitespace around `q` adds no occurrence of a non-space character. */
  lemma CountIgnoresPadding(p: string, q: string, t: string, c: char)
    requires AllSpace(p) && AllSpace(t) && !IsSpace(c)
    ensures Count(p + q + t, c) == Count(q, c)
  {
    CountIsMultiplicity(p + q + t, c);
    CountIsMultiplicity(q, c);
    assert c !in p && c !in t;
    assert multiset(p + q + t) == multiset(p) + multiset(q) + multiset(t);
  }

  /** Whitespace around `q` does not change whether it holds one of `chars`,
      as long as `chars` has no whitespace in it. */
  lemma ContainsAnyOfIgnoresPadding(p: string, q: string, t: string, chars: string)
    requires AllSpace(p) && AllSpace(t)
    requires forall i :: 0 <= i < |chars| ==> !IsSpace(chars[i])
    ensures ContainsAnyOf(p + q + t, chars) == ContainsAnyOf(q, chars)
  {
    ContainsAnyOfSpec(p + q + t, chars);
    ContainsAnyOfSpec(q, chars);
    forall i | 0 <= i < |chars|
      ensures chars[i] in p + q + t <==> chars[i] in q
    {
      assert chars[i] !in p && chars[i] !in t;
    }
  }
}

/**
 * The postcode helpers of the front end (src/App.jsx): `getPostcodeArea`
 * (lines 9-15), the whole-string postcode check on the marketplace search box
 * (line 697) and the word-bounded postcode search in a chat message (line 542).
 * Each regular expression is written out as a scanner or predicate over
 * characters; the greedy choices of the regex engine are made explicit.
 */
module Postcode {
  import opened Wrappers
  import opened Text

  /** The text `getPostcodeArea` matches: upper-cased, with every `\s` removed. */
  function Normalize(s: string): (r: string)
    ensures |r| <= |s|
    ensures forall i :: 0 <= i < |r| ==> !IsSpace(r[i]) && !IsLower(r[i])
  {
    StripSpaces(Upper(s))
  }

  /**
   * Greedy `p{0,limit}` at index `from`: how many characters from `from` on,
   * at most `limit`, satisfy `p`.
   */
  function Span(s: string, from: nat, limit: nat, p: char -> bool): (n: nat)
    requires from <= |s|
    ensures n <= limit && from + n <= |s|
    ensures forall k :: from <= k < from + n ==> p(s[k])
    ensures n < limit && from + n < |s| ==> !p(s[from + n])
    decreases limit
  {
    if limit == 0 || from == |s| || !p(s[from]) then 0
    else 1 + Span(s, from + 1, limit - 1, p)
  }

  /** `t` is `a` letters, then `d` digits, then at most one more letter. */
  predicate Shaped(t: string, a: nat, d: nat) {
    && a + d <= |t| <= a + d + 1
    && (forall k :: 0 <= k < a ==> IsUpper(t[k]))
    && (forall k :: a <= k < a + d ==> IsDigit(t[k]))
    && (forall k :: a + d <= k < |t| ==> IsUpper(t[k]))
  }

  /** `t` is a whole outward code `[A-Z]{1,2}\d{1,2}[A-Z]?`. */
  predicate OutwardShape(t: string) {
    Shaped(t, 1, 1) || Shaped(t, 1, 2) || Shaped(t, 2, 1) || Shaped(t, 2, 2)
  }

  /** The match of `/^([A-Z]{1,2}\d{1,2}[A-Z]?)/` on `s`, or "" when there is none. */
  function OutwardPrefix(s: string): (r: string)
    ensures r == "" || (StartsWith(s, r) && OutwardShape(r))
  {
    var a := Span(s, 0, 2, IsUpper);
    if a == 0 then ""
    else
      var d := Span(s, a, 2, IsDigit);
      if d == 0 then ""
      else
        var e := Span(s, a + d, 1, IsUpper);
        var r := s[..a + d + e];
        assert Shaped(r, a, d);
        r
  }

  /**
   * The greedy match is the longest prefix of `s` that is an outward code;
   * with no such prefix it is "".
   */
  lemma OutwardPrefixLongest(s: string, k: nat)
    requires k <= |s| && OutwardShape(s[..k])
    ensures |OutwardPrefix(s)| >= k
  {
    var t := s[..k];
    var a := Span(s, 0, 2, IsUpper);
    assert t[0] == s[0] && t[1] == s[1];
    assert a >= 1;
    assert Shaped(t, a, 1) || Shaped(t, a, 2);
    var d := Span(s, a, 2, IsDigit);
    assert t[a] == s[a];
    assert d >= 1;
    if Shaped(t, a, 2) {
      assert t[a + 1] == s[a + 1];
    }
    var e := Span(s, a + d, 1, IsUpper);
    if k == a + d + 1 {
      assert t[a + d] == s[a + d];
    }
  }

  /** `getPostcodeArea` (src/App.jsx:9-15). */
  function PostcodeArea(postcode: string): (r: string)
    ensures postcode == "" ==> r == ""
    ensures StartsWith(Normalize(postcode), r)
    ensures r == "" || OutwardShape(r)
  {
    if postcode == "" then "" else OutwardPrefix(Normalize(postcode))
  }

  /** The area is the longest outward code the normalised postcode starts with. */
  lemma AreaIsLongestOutward(postcode: string, k: nat)
    requires postcode != "" && k <= |Normalize(postcode)|
    requires OutwardShape(Normalize(postcode)[..k])
    ensures |PostcodeArea(postcode)| >= k
  {
    OutwardPrefixLongest(Normalize(postcode), k);
  }

  /** A non-empty area is two to five characters long. */
  lemma AreaLength(postcode: string)
    requires PostcodeArea(postcode) != ""
    ensures 2 <= |PostcodeArea(postcode)| <= 5
  {
  }

  /** Postcodes that differ only in letter case and whitespace have the same area. */
  lemma AreaOfNormalized(p: string, q: string)
    requires Normalize(p) == Normalize(q)
    ensures PostcodeArea(p) == PostcodeArea(q)
  {
    assert Span("", 0, 2, IsUpper) == 0;
  }

  /** Normalising leaves a string without whitespace and lower-case letters as it is. */
  lemma NormalizeNoop(s: string)
    requires forall i :: 0 <= i < |s| ==> !IsSpace(s[i]) && !IsLower(s[i])
    ensures Normalize(s) == s
  {
    assert Upper(s) == s;
    StripSpacesNoop(s);
  }

  /** An area is its own area. */
  lemma AreaIdempotent(postcode: string)
    ensures PostcodeArea(PostcodeArea(postcode)) == PostcodeArea(postcode)
  {
    var r := PostcodeArea(postcode);
    if r != "" {
      var n := Normalize(postcode);
      assert r == n[..|r|];
      NormalizeNoop(r);
      assert r[..|r|] == r;
      OutwardPrefixLongest(r, |r|);
    }
  }

  /** The inward code `\d[A-Z]{2}`. */
  predicate InwardShape(t: string) {
    |t| == 3 && IsDigit(t[0]) && IsUpper(t[1]) && IsUpper(t[2])
  }

  /**
   * `/^[A-Z]{1,2}\d{1,2}[A-Z]?\s?\d[A-Z]{2}$/i` (src/App.jsx:697). The `i`
   * flag is upper-casing before matching.
   */
  predicate IsFullPostcode(s: string) {
    FullShape(Upper(s))
  }

  /**
   * The pattern without the flag, read from the right: an inward code, one
   * optional whitespace character, and an outward code before it.
   */
  predicate FullShape(u: string) {
    && |u| >= 5
    && InwardShape(u[|u| - 3..])
    && (OutwardShape(u[..|u| - 3]) || (IsSpace(u[|u| - 4]) && OutwardShape(u[..|u| - 4])))
  }

  /**
   * One way the same pattern matches all of `u` left to right: `a` letters,
   * `d` digits, `e` optional letters, `w` optional whitespace, an inward code.
   */
  predicate PatternParse(u: string, a: nat, d: nat, e: nat, w: nat) {
    && 1 <= a <= 2 && 1 <= d <= 2 && e <= 1 && w <= 1
    && |u| == a + d + e + w + 3
    && Shaped(u[..a + d + e], a, d)
    && (w == 1 ==> IsSpace(u[a + d + e]))
    && InwardShape(u[a + d + e + w..])
  }

  /** The regex's own reading: some choice of the optional parts matches. */
  predicate PatternMatches(u: string) {
    exists a: nat, d: nat, e: nat, w: nat | a <= 2 && d <= 2 && e <= 1 && w <= 1 ::
      PatternParse(u, a, d, e, w)
  }

  lemma ShapeGivesParse(u: string, w: nat)
    requires w <= 1 && |u| >= 5 + w - 1 && |u| >= 3 + w && InwardShape(u[|u| - 3..])
    requires w == 1 ==> IsSpace(u[|u| - 4])
    requires OutwardShape(u[..|u| - 3 - w])
    ensures PatternMatches(u)
  {
    var o := u[..|u| - 3 - w];
    var a: nat := if Shaped(o, 1, 1) || Shaped(o, 1, 2) then 1 else 2;
    var d: nat := if Shaped(o, a, 1) then 1 else 2;
    var e: nat := |o| - a - d;
    assert u[..a + d + e] == o;
    assert u[a + d + e + w..] == u[|u| - 3..];
    assert PatternParse(u, a, d, e, w);
  }

  lemma ParseGivesShape(u: string, a: nat, d: nat, e: nat, w: nat)
    requires PatternParse(u, a, d, e, w)
    ensures FullShape(u)
  {
    assert u[..|u| - 3 - w] == u[..a + d + e];
    assert u[a + d + e + w..] == u[|u| - 3..];
    assert Shaped(u[..|u| - 3 - w], a, d);
  }

  /** The right-to-left recogniser accepts exactly the strings the pattern matches. */
  lemma FullPostcodeMatchesPattern(s: string)
    ensures IsFullPostcode(s) <==> PatternMatches(Upper(s))
  {
    var u := Upper(s);
    if FullShape(u) {
      ShapeGivesParse(u, if OutwardShape(u[..|u| - 3]) then 0 else 1);
    }
    if PatternMatches(u) {
      var a: nat, d: nat, e: nat, w: nat :| a <= 2 && d <= 2 && e <= 1 && w <= 1 && PatternParse(u, a, d, e, w);
      ParseGivesShape(u, a, d, e, w);
    }
  }

  /** A whole postcode is 5 to 9 characters long. */
  lemma FullPostcodeLength(s: string)
    requires IsFullPostcode(s)
    ensures 5 <= |s| <= 9
  {
  }

  lemma OutwardHasNoSpace(o: string)
    requires OutwardShape(o)
    ensures forall i :: 0 <= i < |o| ==> !IsSpace(o[i]) && !IsLower(o[i])
  {
  }

  /** A prefix without whitespace survives `StripSpaces`. */
  lemma StripKeepsPrefix(u: string, m: nat)
    requires m <= |u|
    requires forall i :: 0 <= i < m ==> !IsSpace(u[i])
    ensures |StripSpaces(u)| >= m && StripSpaces(u)[..m] == u[..m]
  {
    assert u == u[..m] + u[m..];
    StripSpacesAppend(u[..m], u[m..]);
    StripSpacesNoop(u[..m]);
  }

  /** A postcode the search box accepts has a non-empty area. */
  lemma FullPostcodeHasArea(s: string)
    requires IsFullPostcode(s)
    ensures PostcodeArea(s) != ""
  {
    var u := Upper(s);
    var m := if OutwardShape(u[..|u| - 3]) then |u| - 3 else |u| - 4;
    OutwardHasNoSpace(u[..m]);
    StripKeepsPrefix(u, m);
    assert Normalize(s)[..m] == u[..m];
    AreaIsLongestOutward(s, m);
  }

  /** The marketplace search box (src/App.jsx:697-699) replaces the global postcode only with a whole postcode. */
  function PostcodeAfterSearchInput(value: string, current: string): (r: string)
    ensures PatternMatches(Upper(value)) ==> r == value
    ensures !PatternMatches(Upper(value)) ==> r == current
    ensures r != current ==> 5 <= |r| <= 9 && PostcodeArea(r) != ""
  {
    FullPostcodeMatchesPattern(value);
    if IsFullPostcode(value) then
      FullPostcodeLength(value);
      FullPostcodeHasArea(value);
      value
    else current
  }

  /** Regex `\w` at index `k`; outside the string there is none. */
  predicate WordAt(s: string, k: int) {
    0 <= k < |s| && IsWordChar(s[k])
  }

  /** Regex `\b` before index `k`. */
  predicate Boundary(s: string, k: int) {
    WordAt(s, k - 1) != WordAt(s, k)
  }

  /** `s[i..i + n]` matches `/\b([A-Z]{1,2}\d{1,2}[A-Z]?\s?\d[A-Z]{2})\b/i` (src/App.jsx:542). */
  predicate MatchAt(s: string, i: int, n: int) {
    0 <= i && 0 <= n && i + n <= |s| && IsFullPostcode(s[i..i + n]) && Boundary(s, i) && Boundary(s, i + n)
  }

  /** The regex of src/App.jsx:542 as a relation on (start, length) over `s`. */
  function Matches(s: string): (int, int) -> bool {
    (i, n) => MatchAt(s, i, n)
  }

  /** Every match lies inside a string of length `size`, and is 1 to `bound` characters long. */
  ghost predicate Bounded(matches: (int, int) -> bool, size: nat, bound: nat) {
    forall j, l :: matches(j, l) ==> 0 <= j && 0 < l <= bound && j + l <= size
  }

  /** A postcode match is 5 to 9 characters long and inside the message. */
  lemma MatchesBounded(s: string)
    ensures Bounded(Matches(s), |s|, 9)
  {
    forall j, l | MatchAt(s, j, l) ensures 0 < l <= 9 {
      FullPostcodeLength(s[j..j + l]);
    }
  }

  /** The longest match at index `i` of at most `n` characters, or 0. */
  function LongestMatchAt(matches: (int, int) -> bool, i: int, n: nat): (m: nat)
    ensures m <= n
    ensures m == 0 || matches(i, m)
    ensures forall l :: m < l <= n ==> !matches(i, l)
    decreases n
  {
    if n == 0 then 0 else if matches(i, n) then n else LongestMatchAt(matches, i, n - 1)
  }

  /**
   * The leftmost match at or after index `i`, as (start, length); at that
   * start, the longest one, which is the one the regex's greedy choices give.
   */
  function FindFrom(matches: (int, int) -> bool, size: nat, bound: nat, i: nat): (r: Option<(nat, nat)>)
    requires i <= size && Bounded(matches, size, bound)
    ensures r.None? ==> forall j, l :: i <= j ==> !matches(j, l)
    ensures r.Some? ==> i <= r.value.0 && matches(r.value.0, r.value.1)
    ensures r.Some? ==> forall j, l :: i <= j < r.value.0 ==> !matches(j, l)
    ensures r.Some? ==> forall l :: r.value.1 < l ==> !matches(r.value.0, l)
    decreases size - i
  {
    var n := if size - i < bound then size - i else bound;
    var m := LongestMatchAt(matches, i, n);
    if m > 0 then Some((i, m))
    else if i == size then None
    else FindFrom(matches, size, bound, i + 1)
  }

  /**
   * `message[i..i + n]` is the match the regex returns: no match starts
   * before `i`, and none at `i` is longer.
   */
  ghost predicate FirstMatch(message: string, i: int, n: int) {
    && MatchAt(message, i, n)
    && (forall j, l :: 0 <= j < i ==> !MatchAt(message, j, l))
    && (forall l :: n < l ==> !MatchAt(message, i, l))
  }

  /** The search from the start of the message finds the regex's match, if there is one. */
  lemma FindFromStartIsFirst(message: string)
    requires Bounded(Matches(message), |message|, 9)
    ensures FindFrom(Matches(message), |message|, 9, 0).None? ==> forall j, l :: !MatchAt(message, j, l)
    ensures FindFrom(Matches(message), |message|, 9, 0).Some? ==>
              var r := FindFrom(Matches(message), |message|, 9, 0).value;
              FirstMatch(message, r.0, r.1)
  {
    var f := Matches(message);
    assert forall j, l :: f(j, l) == MatchAt(message, j, l);
  }

  /** The first match is a postcode written inside the message, and the one the regex returns. */
  lemma FirstMatchIsPostcode(message: string, i: int, n: int)
    requires FirstMatch(message, i, n)
    ensures 0 <= i && i + n <= |message|
    ensures exists j, l :: MatchAt(message, j, l)
    ensures IsFullPostcode(message[i..i + n]) && Contains(message, message[i..i + n])
    ensures var p := message[i..i + n];
      exists k :: FirstMatch(message, k, |p|) && OccursAt(message, p, k)
  {
    var p := message[i..i + n];
    assert OccursAt(message, p, i);
    assert |p| == n && message[i..i + |p|] == p;
  }

  /** `message.match(...)` at src/App.jsx:542: the first postcode written in a chat message. */
  function ExtractPostcode(message: string): (r: Option<string>)
    ensures r.Some? <==> exists j, l :: MatchAt(message, j, l)
    ensures r.Some? ==> IsFullPostcode(r.value) && Contains(message, r.value)
    ensures r.Some? ==> exists i :: FirstMatch(message, i, |r.value|) && OccursAt(message, r.value, i)
  {
    MatchesBounded(message);
    FindFromStartIsFirst(message);
    match FindFrom(Matches(message), |message|, 9, 0)
    case None => None
    case Some((i, n)) =>
      FirstMatchIsPostcode(message, i, n);
      Some(message[i..i + n])
  }

  /** A message that is a whole postcode yields itself. */
  lemma WholeMessageIsExtracted(message: string)
    requires IsFullPostcode(message)
    ensures ExtractPostcode(message) == Some(message)
  {
    var u := Upper(message);
    assert IsUpper(u[0]) && IsUpper(u[|u| - 1]);
    assert message[0..|message|] == message;
    assert MatchAt(message, 0, |message|);
    FullPostcodeLength(message);
    MatchesBounded(message);
    assert Matches(message)(0, |message|);
    assert LongestMatchAt(Matches(message), 0, |message|) == |message|;
    assert FindFrom(Matches(message), |message|, 9, 0) == Some((0, |message|));
  }

  /**
   * The postcode after a chat message is sent (src/App.jsx:542-545, 553):
   * the one the message mentions, else the current one.
   */
  function PostcodeAfterChat(message: string, current: string): (r: string)
    ensures r == current || (IsFullPostcode(r) && Contains(message, r))
    ensures (forall j, l :: !MatchAt(message, j, l)) ==> r == current
    ensures (exists j, l :: MatchAt(message, j, l)) ==>
              exists i :: FirstMatch(message, i, |r|) && OccursAt(message, r, i)
  {
    match ExtractPostcode(message)
    case Some(p) => p
    case None => current
  }
}

/**
 The three ECMAScript string operations the upload path relies on, with their
 JavaScript semantics: `String.prototype.trim`, `lastIndexOf` of a single
 character, and `substring` (which clamps its arguments into range and swaps
 them when the start lies past the end).
 */
module JsString {

  /** The characters `trim` removes: ECMAScript WhiteSpace (tab, vertical tab,
      form feed, the byte order mark and every space separator) and
      LineTerminator (line feed, carriage return, U+2028, U+2029). */
  predicate IsWhitespace(c: char) {
    || c == '\t' || c == '\U{000B}' || c == '\U{000C}' || c == ' '
    || c == '\U{00A0}' || c == '\U{FEFF}' || c == '\U{1680}'
    || ('\U{2000}' <= c <= '\U{200A}')
    || c == '\U{202F}' || c == '\U{205F}' || c == '\U{3000}'
    || c == '\n' || c == '\r' || c == '\U{2028}' || c == '\U{2029}'
  }

  predicate AllWhitespace(s: string) {
    forall i :: 0 <= i < |s| ==> IsWhitespace(s[i])
  }

  /** `r` is `s` with the whitespace run `s[..k]` cut from the front and the
      whitespace run after `r` cut from the back. */
  ghost predicate TrimmedAt(s: string, r: string, k: nat) {
    && k + |r| <= |s|
    && r == s[k..k + |r|]
    && AllWhitespace(s[..k])
    && AllWhitespace(s[k + |r|..])
  }

  /** Neither end of `s` is whitespace: `trim` has nothing left to remove. */
  predicate HasNoEdgeWhitespace(s: string) {
    s == [] || (!IsWhitespace(s[0]) && !IsWhitespace(s[|s| - 1]))
  }

  /** `trimStart`: `s` without its leading whitespace. Where the cut falls
      is stated by `TrimStartCutsWhitespace`. */
  function TrimStart(s: string): (r: string)
    ensures |r| <= |s|
    ensures r == [] || !IsWhitespace(r[0])
  {
    if s == [] || !IsWhitespace(s[0]) then s else TrimStart(s[1..])
  }

  /** `TrimStart` removes a whitespace prefix and keeps the rest. */
  lemma {:induction false} TrimStartCutsWhitespace(s: string)
    ensures var r := TrimStart(s);
      && r == s[|s| - |r|..]
      && AllWhitespace(s[..|s| - |r|])
  {
    if s != [] && IsWhitespace(s[0]) {
      TrimStartCutsWhitespace(s[1..]);
      var r := TrimStart(s);
      assert s[..|s| - |r|] == [s[0]] + s[1..][..|s| - 1 - |r|];
    }
  }

  /** `trimEnd`: `s` without its trailing whitespace. Where the cut falls is
      stated by `TrimEndCutsWhitespace`. */
  function TrimEnd(s: string): (r: string)
    ensures |r| <= |s|
    ensures r == [] || !IsWhitespace(r[|r| - 1])
  {
    if s == [] || !IsWhitespace(s[|s| - 1]) then s else TrimEnd(s[..|s| - 1])
  }

  /** `TrimEnd` removes a whitespace suffix and keeps the rest. */
  lemma {:induction false} TrimEndCutsWhitespace(s: string)
    ensures var r := TrimEnd(s);
      && r == s[..|r|]
      && AllWhitespace(s[|r|..])
  {
    if s != [] && IsWhitespace(s[|s| - 1]) {
      TrimEndCutsWhitespace(s[..|s| - 1]);
      var r := TrimEnd(s);
      assert s[|r|..] == s[..|s| - 1][|r|..] + [s[|s| - 1]];
    }
  }

  /** `String.prototype.trim`: the longest slice of `s` that neither starts
      nor ends with whitespace, obtained by cutting whitespace only (see
      `TrimCutsWhitespace`). */
  function Trim(s: string): (r: string)
    ensures |r| <= |s|
    ensures HasNoEdgeWhitespace(r)
  {
    var t := TrimStart(s);
    TrimEndCutsWhitespace(t);
    TrimEnd(t)
  }

  /** `Trim(s)` is the slice of `s` at `TrimOffset(s)`, with only whitespace
      around it. */
  lemma TrimCutsWhitespace(s: string)
    ensures TrimmedAt(s, Trim(s), TrimOffset(s))
  {
    var t := TrimStart(s);
    var r := Trim(s);
    var k := |s| - |t|;
    TrimStartCutsWhitespace(s);
    TrimEndCutsWhitespace(t);
    assert r == s[k..k + |r|];
    assert s[k + |r|..] == t[|r|..];
  }

  /** A string of whitespace only trims to the empty string. */
  lemma BlankTrimsToEmpty(s: string)
    requires AllWhitespace(s)
    ensures Trim(s) == ""
  {
    TrimCutsWhitespace(s);
  }

  /** The number of whitespace characters `trim` removes from the front. */
  function TrimOffset(s: string): (k: nat)
    ensures k + |Trim(s)| <= |s|
  {
    TrimCutsLength(s);
    |s| - |TrimStart(s)|
  }

  lemma TrimCutsLength(s: string)
    ensures |Trim(s)| <= |TrimStart(s)| <= |s|
  {
  }

  /** A string without whitespace at either end is its own trim. */
  lemma {:induction false} TrimFixesEdgeFreeStrings(s: string)
    requires HasNoEdgeWhitespace(s)
    ensures Trim(s) == s
  {
    assert TrimStart(s) == s;
    assert TrimEnd(s) == s;
  }

  /** Trimming twice is trimming once. */
  lemma TrimIdempotent(s: string)
    ensures Trim(Trim(s)) == Trim(s)
  {
    TrimFixesEdgeFreeStrings(Trim(s));
  }

  /** A non-whitespace character occurs in `s` exactly when it occurs in `Trim(s)`. */
  lemma TrimKeepsNonWhitespace(s: string, c: char)
    requires !IsWhitespace(c)
    ensures c in s <==> c in Trim(s)
  {
    var r := Trim(s);
    var k := TrimOffset(s);
    TrimCutsWhitespace(s);
    if c in r {
      var j :| 0 <= j < |r| && r[j] == c;
      assert s[k + j] == c;
    }
    if c in s {
      var i :| 0 <= i < |s| && s[i] == c;
      if k <= i < k + |r| {
        assert r[i - k] == c;
      }
    }
  }

  /** Without leading whitespace, the trim of `s` is a prefix of `s` followed
      only by whitespace. */
  lemma TrimWithoutLeadingWhitespace(s: string)
    requires s == [] || !IsWhitespace(s[0])
    ensures Trim(s) == s[..|Trim(s)|]
    ensures AllWhitespace(s[|Trim(s)|..])
  {
    assert TrimStart(s) == s;
    TrimEndCutsWhitespace(s);
  }

  /** The position of the last `c` among the first `n` characters of `s`,
      or -1 when there is none; the scan goes backwards from `n - 1`.
      `LastIndexBeforeSkips` states that nothing after it is a `c`. */
  function LastIndexBefore(s: string, c: char, n: nat): (i: int)
    requires n <= |s|
    ensures -1 <= i < n
    ensures i >= 0 ==> s[i] == c
    decreases n
  {
    if n == 0 then -1
    else if s[n - 1] == c then n - 1
    else LastIndexBefore(s, c, n - 1)
  }

  /** No `c` lies after the position the backward scan returns. */
  lemma {:induction false} LastIndexBeforeSkips(s: string, c: char, n: nat, j: nat)
    requires n <= |s|
    requires LastIndexBefore(s, c, n) < j < n
    ensures s[j] != c
    decreases n
  {
    if s[n - 1] != c && j < n - 1 {
      LastIndexBeforeSkips(s, c, n - 1, j);
    }
  }

  /** A scan that finds nothing has passed over no `c`. */
  lemma {:induction false} LastIndexBeforeNone(s: string, c: char, n: nat)
    requires n <= |s|
    ensures LastIndexBefore(s, c, n) == -1 ==> forall j :: 0 <= j < n ==> s[j] != c
    decreases n
  {
    if n > 0 && s[n - 1] != c {
      LastIndexBeforeNone(s, c, n - 1);
    }
  }

  /** `lastIndexOf(c)`: the position of the last `c` in `s`, or -1 when `s`
      holds none (`LastIndexOfIsLast` states that no `c` follows it). */
  function LastIndexOf(s: string, c: char): (i: int)
    ensures -1 <= i < |s|
    ensures i >= 0 ==> s[i] == c
    ensures i == -1 <==> c !in s
  {
    LastIndexBeforeNone(s, c, |s|);
    LastIndexBefore(s, c, |s|)
  }

  /** No `c` follows the last one. */
  lemma LastIndexOfIsLast(s: string, c: char)
    requires c in s
    ensures c !in s[LastIndexOf(s, c) + 1..]
  {
    var i := LastIndexOf(s, c);
    var tail := s[i + 1..];
    forall j | 0 <= j < |tail|
      ensures tail[j] != c
    {
      assert tail[j] == s[i + 1 + j];
      LastIndexBeforeSkips(s, c, |s|, i + 1 + j);
    }
  }

  /** Characters after the first `n` do not affect the backward scan. */
  lemma {:induction false} LastIndexBeforePrefix(s: string, t: string, c: char, n: nat)
    requires n <= |s| && n <= |t|
    requires forall j :: 0 <= j < n ==> s[j] == t[j]
    ensures LastIndexBefore(s, c, n) == LastIndexBefore(t, c, n)
    decreases n
  {
    if n > 0 {
      LastIndexBeforePrefix(s, t, c, n - 1);
    }
  }

  /** The backward scan passes over a stretch without `c`. */
  lemma {:induction false} SkipSuffix(u: string, c: char, m: nat, n: nat)
    requires m <= n <= |u|
    requires forall j :: m <= j < n ==> u[j] != c
    ensures LastIndexBefore(u, c, n) == LastIndexBefore(u, c, m)
    decreases n
  {
    if n > m {
      SkipSuffix(u, c, m, n - 1);
    }
  }

  /** Appending characters other than `c` does not move the last `c`. */
  lemma {:induction false} LastIndexOfIgnoresSuffix(s: string, t: string, c: char)
    requires c !in t
    ensures LastIndexOf(s + t, c) == LastIndexOf(s, c)
  {
    var u := s + t;
    forall j | |s| <= j < |u|
      ensures u[j] != c
    {
      assert u[j] == t[j - |s|];
    }
    SkipSuffix(u, c, |s|, |u|);
    LastIndexBeforePrefix(u, s, c, |s|);
  }

  /** The index `substring` uses for an argument `x` on a string of length `len`. */
  function ClampIndex(x: int, len: nat): (r: nat)
    ensures r <= len
  {
    if x < 0 then 0 else if x > len then len else x
  }

  /** `s.substring(start, end)`. */
  function Substring(s: string, start: int, end: int): (r: string)
    ensures |r| <= |s|
    ensures 0 <= start <= end <= |s| ==> r == s[start..end]
    ensures 0 <= end <= start <= |s| ==> r == s[end..start]
    ensures start <= 0 && end <= 0 ==> r == []
    ensures start >= |s| && end >= |s| ==> r == []
  {
    var a := ClampIndex(start, |s|);
    var b := ClampIndex(end, |s|);
    if a <= b then s[a..b] else s[b..a]
  }

  /** The order of `substring`'s arguments does not matter. */
  lemma SubstringSymmetric(s: string, start: int, end: int)
    ensures Substring(s, start, end) == Substring(s, end, start)
  {
  }
}

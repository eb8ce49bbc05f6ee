/**
  * The Python `str` operations the server code relies on, over Dafny strings
  * (sequences of Unicode scalar values): `in`, `find`, `rfind`, `replace`,
  * `strip`, `split`, `startswith`, `lower` and the decimal rendering of an int.
  */
module PyStr {

  /** `pat` occurs in `s` starting at index `i`. */
  predicate OccursAt(s: string, pat: string, i: nat)
  {
    i + |pat| <= |s| && s[i..i + |pat|] == pat
  }

  /** Python's `pat in s`. */
  predicate Contains(s: string, pat: string)
  {
    exists i: nat | i <= |s| :: OccursAt(s, pat, i)
  }

  /** First occurrence of `pat` at or after `k`, or -1. */
  function FindFrom(s: string, pat: string, k: nat): (r: int)
    decreases |s| - k + 1
    ensures r == -1 || (k <= r && OccursAt(s, pat, r))
    ensures r == -1 ==> forall j: nat :: k <= j ==> !OccursAt(s, pat, j)
    ensures r >= 0 ==> forall j: nat :: k <= j < r ==> !OccursAt(s, pat, j)
  {
    if k + |pat| > |s| then -1
    else if s[k..k + |pat|] == pat then k
    else FindFrom(s, pat, k + 1)
  }

  /** Python's `s.find(pat)`: the lowest index of `pat` in `s`, or -1. */
  function Find(s: string, pat: string): (r: int)
    ensures r >= 0 <==> Contains(s, pat)
    ensures r >= 0 ==> OccursAt(s, pat, r) && forall j: nat :: j < r ==> !OccursAt(s, pat, j)
    ensures r < 0 ==> r == -1
  {
    FindFrom(s, pat, 0)
  }

  /** Python's `s.rfind(c)` for a single character: the highest index of `c`, or -1. */
  function RFind(s: string, c: char): (r: int)
    ensures -1 <= r < |s|
    ensures r >= 0 ==> s[r] == c && forall j :: r < j < |s| ==> s[j] != c
    ensures r == -1 <==> c !in s
  {
    if s == [] then -1
    else if s[|s| - 1] == c then |s| - 1
    else RFind(s[..|s| - 1], c)
  }

  /** Python's `s.startswith(p)`. */
  predicate StartsWith(s: string, p: string)
  {
    |p| <= |s| && s[..|p|] == p
  }

  /** Python's `s.replace(pat, repl, 1)`: only the first occurrence is replaced. */
  function ReplaceFirst(s: string, pat: string, repl: string): (r: string)
    ensures !Contains(s, pat) ==> r == s
    ensures Contains(s, pat) ==> Contains(r, repl)
    ensures Contains(s, pat) ==> |r| == |s| - |pat| + |repl|
  {
    var i := Find(s, pat);
    if i < 0 then s
    else
      assert OccursAt(s[..i] + repl + s[i + |pat|..], repl, i);
      s[..i] + repl + s[i + |pat|..]
  }

  /** Python's `s.replace(pat, repl)` for a non-empty `pat`: every occurrence, left to right. */
  function ReplaceAll(s: string, pat: string, repl: string): (r: string)
    requires |pat| > 0
    decreases |s|
    ensures !Contains(s, pat) ==> r == s
    ensures Contains(s, pat) ==> Contains(r, repl)
  {
    var i := Find(s, pat);
    if i < 0 then s
    else
      var rest := ReplaceAll(s[i + |pat|..], pat, repl);
      assert OccursAt(s[..i] + repl + rest, repl, i);
      s[..i] + repl + rest
  }

  /** No character of `a` occurs in `b`. */
  predicate NoCommonChar(a: string, b: string)
  {
    forall k, m :: 0 <= k < |a| && 0 <= m < |b| ==> a[k] != b[m]
  }

  /** Replacing every occurrence leaves none behind when the replacement shares no character
      with the pattern: nothing before the first occurrence matched, and the rest has none
      left by induction. */
  lemma {:induction false} ReplaceAllRemoves(s: string, pat: string, repl: string)
    requires |pat| > 0 && |repl| > 0
    requires NoCommonChar(repl, pat)
    ensures !Contains(ReplaceAll(s, pat, repl), pat)
    decreases |s|
  {
    var i := Find(s, pat);
    if i >= 0 {
      var rest := ReplaceAll(s[i + |pat|..], pat, repl);
      ReplaceAllRemoves(s[i + |pat|..], pat, repl);
      BeforeFirstFree(s, pat);
      JoinedFree(s[..i], repl, rest, pat);
    }
  }

  /** Nothing before the first occurrence of `pat` contains it. */
  lemma BeforeFirstFree(s: string, pat: string)
    requires |pat| > 0 && Find(s, pat) >= 0
    ensures !Contains(s[..Find(s, pat)], pat)
  {
    var i := Find(s, pat);
    forall j: nat | j <= i
      ensures !OccursAt(s[..i], pat, j)
    {
      if j + |pat| <= i {
        assert s[j..j + |pat|] == s[..i][j..j + |pat|];
        assert !OccursAt(s, pat, j);
      }
    }
  }

  /** A pattern found in neither part, and sharing no character with the non-empty text
      between them, is not found in the joined text. */
  lemma JoinedFree(a: string, repl: string, b: string, pat: string)
    requires |pat| > 0 && |repl| > 0
    requires NoCommonChar(repl, pat)
    requires !Contains(a, pat) && !Contains(b, pat)
    ensures !Contains(a + repl + b, pat)
  {
    forall j: nat | j <= |a + repl + b|
      ensures !OccursAt(a + repl + b, pat, j)
    {
      JoinedFreeAt(a, repl, b, pat, j);
    }
  }

  lemma JoinedFreeAt(a: string, repl: string, b: string, pat: string, j: nat)
    requires |pat| > 0 && |repl| > 0
    requires NoCommonChar(repl, pat)
    requires !Contains(a, pat) && !Contains(b, pat)
    ensures !OccursAt(a + repl + b, pat, j)
  {
    var r := a + repl + b;
    if j + |pat| > |r| {
    } else if j + |pat| <= |a| {
      assert a[j..j + |pat|] == r[j..j + |pat|];
      assert !OccursAt(a, pat, j);
    } else if j >= |a| + |repl| {
      var k := j - |a| - |repl|;
      assert b[k..k + |pat|] == r[j..j + |pat|];
      assert !OccursAt(b, pat, k);
    } else {
      var m := if j < |a| then |a| else j;
      assert r[m] == repl[m - |a|] != pat[m - j];
      assert r[j..j + |pat|][m - j] == r[m];
    }
  }

  /** `s.replace("", repl)`: `repl` before every character and at the end. */
  function Interleave(s: string, repl: string): (r: string)
    ensures StartsWith(r, repl)
  {
    if s == [] then repl else repl + [s[0]] + Interleave(s[1..], repl)
  }

  /** Python's `s.replace(pat, repl)` for any pattern. */
  function Replace(s: string, pat: string, repl: string): (r: string)
    ensures !Contains(s, pat) ==> r == s
    ensures Contains(s, pat) ==> Contains(r, repl)
  {
    if pat == [] then
      assert OccursAt(s, pat, 0);
      assert OccursAt(Interleave(s, repl), repl, 0);
      Interleave(s, repl)
    else ReplaceAll(s, pat, repl)
  }

  /** The characters Python's `str.isspace` accepts, which `strip()` removes. */
  const Whitespace: set<char> :=
    {'\t', '\n', '\U{000B}', '\U{000C}', '\r', '\U{001C}', '\U{001D}', '\U{001E}', '\U{001F}', ' ',
     '\U{0085}', '\U{00A0}', '\U{1680}', '\U{2000}', '\U{2001}', '\U{2002}', '\U{2003}', '\U{2004}',
     '\U{2005}', '\U{2006}', '\U{2007}', '\U{2008}', '\U{2009}', '\U{200A}', '\U{2028}', '\U{2029}',
     '\U{202F}', '\U{205F}', '\U{3000}'}

  /** Python's `s.lstrip(cs)`: drops the leading characters that are in `cs`. */
  function LStrip(s: string, cs: set<char>): (r: string)
    ensures |r| <= |s| && r == s[|s| - |r|..]
    ensures r == [] || r[0] !in cs
    ensures forall i :: 0 <= i < |s| - |r| ==> s[i] in cs
  {
    if |s| > 0 && s[0] in cs then LStrip(s[1..], cs) else s
  }

  /** Python's `s.rstrip(cs)`: drops the trailing characters that are in `cs`. */
  function RStrip(s: string, cs: set<char>): (r: string)
    ensures |r| <= |s| && r == s[..|r|]
    ensures r == [] || r[|r| - 1] !in cs
    ensures forall i :: |r| <= i < |s| ==> s[i] in cs
  {
    if |s| > 0 && s[|s| - 1] in cs then RStrip(s[..|s| - 1], cs) else s
  }

  /** Python's `s.strip(cs)`: the longest middle slice that neither starts nor ends in `cs`. */
  function StripChars(s: string, cs: set<char>): (r: string)
    ensures |r| <= |s|
    ensures r == [] || (r[0] !in cs && r[|r| - 1] !in cs)
  {
    RStrip(LStrip(s, cs), cs)
  }

  /** Python's `s.strip()`. */
  function Strip(s: string): string
  {
    StripChars(s, Whitespace)
  }

  /** Index of the first `c` in `s`; `c` must occur. */
  function IndexOf(s: string, c: char): (i: nat)
    requires c in s
    ensures i < |s| && s[i] == c && c !in s[..i]
  {
    if s[0] == c then 0 else IndexOf(s[1..], c) + 1
  }

  /** Python's `s.split(sep)` for a one-character separator. */
  function Split(s: string, sep: char): (parts: seq<string>)
    decreases |s|
    ensures |parts| >= 1
    ensures forall k :: 0 <= k < |parts| ==> sep !in parts[k]
  {
    if sep !in s then [s]
    else
      var i := IndexOf(s, sep);
      [s[..i]] + Split(s[i + 1..], sep)
  }

  /** Python's `sep.join(parts)`: the partner of `Split`. */
  function Join(parts: seq<string>, sep: char): string
    decreases |parts|
  {
    if |parts| <= 1 then (if parts == [] then "" else parts[0])
    else parts[0] + [sep] + Join(parts[1..], sep)
  }

  /** Splitting and joining again gives back the text: no character is lost or added. */
  lemma {:induction false} JoinSplit(s: string, sep: char)
    ensures Join(Split(s, sep), sep) == s
    decreases |s|
  {
    if sep in s {
      var i := IndexOf(s, sep);
      JoinSplit(s[i + 1..], sep);
      assert s == s[..i] + [sep] + s[i + 1..];
    }
  }

  /** Python's `str.lower()` on the characters whose case matters here: ASCII and basic Cyrillic. */
  function LowerChar(c: char): char
  {
    if 'A' <= c <= 'Z' then (c as int + 32) as char
    else if '\U{0410}' <= c <= '\U{042F}' then (c as int + 32) as char
    else if '\U{0400}' <= c <= '\U{040F}' then (c as int + 80) as char
    else c
  }

  function Lower(s: string): (r: string)
    ensures |r| == |s|
  {
    seq(|s|, i requires 0 <= i < |s| => LowerChar(s[i]))
  }

  /** A CJK Unified Ideograph, U+4E00..U+9FFF. */
  predicate IsCjk(c: char)
  {
    '\U{4E00}' <= c <= '\U{9FFF}'
  }

  /** `''.join(c for c in s if '一' <= c <= '鿿')`. */
  function CjkChars(s: string): (r: string)
    ensures |r| <= |s|
    ensures forall k :: 0 <= k < |r| ==> IsCjk(r[k])
  {
    if s == [] then ""
    else CjkChars(s[..|s| - 1]) + (if IsCjk(s[|s| - 1]) then [s[|s| - 1]] else "")
  }

  /** Python's `str(n)` for a natural number. */
  function NatToString(n: nat): (r: string)
    ensures |r| >= 1
    ensures forall k :: 0 <= k < |r| ==> '0' <= r[k] <= '9'
  {
    var d := ['0', '1', '2', '3', '4', '5', '6', '7', '8', '9'][n % 10];
    if n < 10 then [d] else NatToString(n / 10) + [d]
  }
}

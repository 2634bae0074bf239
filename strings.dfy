/**
 * The string operations the handshake code relies on: .NET's String.Trim (which
 * removes the characters Char.IsWhiteSpace accepts), the leftmost match of a
 * literal, and the ".*" of a .NET regular expression, which runs to the end of
 * the line because "." matches every character except '\n'.
 */
module Strings {
  import opened Wire

  /** Char.IsWhiteSpace: the Unicode space, line and paragraph separators, U+0009-U+000D and U+0085. */
  predicate IsWhiteSpace(c: char)
  {
    var k := c as int;
    (9 <= k <= 13) || k == 32 || k == 0x85 || k == 0xA0 || k == 0x1680
    || (0x2000 <= k <= 0x200A) || k == 0x2028 || k == 0x2029 || k == 0x202F
    || k == 0x205F || k == 0x3000
  }

  predicate AllWhiteSpace(s: string)
  {
    forall i :: 0 <= i < |s| ==> IsWhiteSpace(s[i])
  }

  /** String.TrimStart(): the suffix left once the leading white space is gone. */
  function TrimStart(s: string): (r: string)
    ensures |r| <= |s| && r == s[|s| - |r|..]
    ensures AllWhiteSpace(s[..|s| - |r|])
    ensures |r| > 0 ==> !IsWhiteSpace(r[0])
  {
    if |s| > 0 && IsWhiteSpace(s[0]) then
      var r := TrimStart(s[1..]);
      assert s[1..][..|s| - 1 - |r|] == s[1..|s| - |r|];
      r
    else s
  }

  /** String.TrimEnd(): the prefix left once the trailing white space is gone. */
  function TrimEnd(s: string): (r: string)
    ensures |r| <= |s| && r == s[..|r|]
    ensures AllWhiteSpace(s[|r|..])
    ensures |r| > 0 ==> !IsWhiteSpace(r[|r| - 1])
  {
    if |s| > 0 && IsWhiteSpace(s[|s| - 1]) then
      var r := TrimEnd(s[..|s| - 1]);
      assert s[..|s| - 1][|r|..] + [s[|s| - 1]] == s[|r|..];
      r
    else s
  }

  /** String.Trim(): white space removed from both ends; nothing is left only when the string is all white space. */
  function Trim(s: string): (r: string)
    ensures |r| > 0 ==> !IsWhiteSpace(r[0]) && !IsWhiteSpace(r[|r| - 1])
    ensures r == "" <==> AllWhiteSpace(s)
  {
    var t := TrimStart(s);
    var r := TrimEnd(t);
    TrimBothEnds(s, t, r);
    r
  }

  lemma TrimBothEnds(s: string, t: string, r: string)
    requires t == TrimStart(s) && r == TrimEnd(t)
    ensures r == "" <==> AllWhiteSpace(s)
  {
    if r == "" {
      TrimmedToNothing(s, t);
    } else {
      assert s[|s| - |t|] == t[0] == r[0];
    }
  }

  lemma TrimmedToNothing(s: string, t: string)
    requires t == TrimStart(s) && TrimEnd(t) == ""
    ensures AllWhiteSpace(s)
  {
    assert t[0..] == t;
    AllWhiteSpaceJoin(s[..|s| - |t|], t);
    assert s[..|s| - |t|] + t == s;
  }

  lemma AllWhiteSpaceJoin(a: string, b: string)
    requires AllWhiteSpace(a) && AllWhiteSpace(b)
    ensures AllWhiteSpace(a + b)
  {
    forall i | 0 <= i < |a + b|
      ensures IsWhiteSpace((a + b)[i])
    {
      if i < |a| {
        assert (a + b)[i] == a[i];
      } else {
        assert (a + b)[i] == b[i - |a|];
      }
    }
  }

  /** white space, then `core`, then white space, trims to `core` when `core` has no white space at either end. */
  lemma {:induction false} TrimSurrounded(lead: string, core: string, trail: string)
    requires AllWhiteSpace(lead) && AllWhiteSpace(trail)
    requires |core| > 0 && !IsWhiteSpace(core[0]) && !IsWhiteSpace(core[|core| - 1])
    ensures Trim(lead + core + trail) == core
  {
    TrimStartPast(lead, core + trail);
    assert lead + core + trail == lead + (core + trail);
    TrimEndPast(core, trail);
  }

  lemma {:induction false} TrimStartPast(lead: string, rest: string)
    requires AllWhiteSpace(lead)
    requires |rest| > 0 && !IsWhiteSpace(rest[0])
    ensures TrimStart(lead + rest) == rest
  {
    if |lead| > 0 {
      assert (lead + rest)[1..] == lead[1..] + rest;
      TrimStartPast(lead[1..], rest);
    }
  }

  lemma {:induction false} TrimEndPast(rest: string, trail: string)
    requires AllWhiteSpace(trail)
    requires |rest| > 0 && !IsWhiteSpace(rest[|rest| - 1])
    ensures TrimEnd(rest + trail) == rest
  {
    if |trail| > 0 {
      assert (rest + trail)[..|rest + trail| - 1] == rest + trail[..|trail| - 1];
      TrimEndPast(rest, trail[..|trail| - 1]);
    }
  }

  /** `pat` appears in s starting at index i. */
  predicate OccursAt(s: string, pat: string, i: nat)
  {
    i + |pat| <= |s| && s[i..i + |pat|] == pat
  }

  /** The leftmost index at or after `from` where `pat` appears, as a regular-expression scan finds it. */
  function FindFrom(s: string, pat: string, from: nat): (r: Option<nat>)
    requires from <= |s|
    ensures r.Some? ==> from <= r.value && OccursAt(s, pat, r.value)
    ensures r.Some? ==> forall j :: from <= j < r.value ==> !OccursAt(s, pat, j)
    ensures r.None? ==> forall j :: from <= j ==> !OccursAt(s, pat, j)
    decreases |s| - from
  {
    if OccursAt(s, pat, from) then Some(from)
    else if from + |pat| >= |s| then None
    else FindFrom(s, pat, from + 1)
  }

  /** What ".*" matches from index `from`: everything up to, not including, the next '\n'. */
  function RestOfLine(s: string, from: nat): (r: string)
    requires from <= |s|
    ensures from + |r| <= |s| && r == s[from..from + |r|]
    ensures '\n' !in r
    ensures from + |r| == |s| || s[from + |r|] == '\n'
    decreases |s| - from
  {
    if from == |s| || s[from] == '\n' then ""
    else
      var tail := RestOfLine(s, from + 1);
      assert s[from..from + 1 + |tail|] == [s[from]] + tail;
      [s[from]] + tail
  }

  /** A line that ends at a '\n' or at the end of the text is read whole. */
  lemma {:induction false} RestOfLineIs(pre: string, line: string, post: string)
    requires '\n' !in line
    requires post == "" || post[0] == '\n'
    ensures RestOfLine(pre + line + post, |pre|) == line
  {
    var s := pre + line + post;
    assert s[|pre|..|pre| + |line|] == line;
  }
}

/** The parts of Python's str the text algorithms use: whitespace, strip, split, find. */
module Texts {

  /** str.isspace for one character. */
  predicate IsSpace(c: char) {
    var n := c as int;
    || 9 <= n <= 13 || 28 <= n <= 32 || n == 0x85 || n == 0xA0 || n == 0x1680 || 0x2000 <= n <= 0x200A
    || n == 0x2028 || n == 0x2029 || n == 0x202F || n == 0x205F || n == 0x3000
  }

  /** The control characters that separate lines and fields, and Unicode's spaces and separators. */
  lemma SpacesExactly(c: char)
    ensures IsSpace(c) <==>
      || c in "\t\n\U{B}\U{C}\r\U{1C}\U{1D}\U{1E}\U{1F} \U{85}\U{A0}\U{1680}"
      || c in "\U{2000}\U{2001}\U{2002}\U{2003}\U{2004}\U{2005}\U{2006}\U{2007}\U{2008}\U{2009}\U{200A}"
      || c in "\U{2028}\U{2029}\U{202F}\U{205F}\U{3000}"
  {
  }

  /** First position from i on that is not whitespace. */
  function SkipSpace(s: string, i: nat): (a: nat)
    requires i <= |s|
    ensures i <= a <= |s|
    ensures forall k :: i <= k < a ==> IsSpace(s[k])
    ensures a < |s| ==> !IsSpace(s[a])
    decreases |s| - i
  {
    if i == |s| || !IsSpace(s[i]) then i else SkipSpace(s, i + 1)
  }

  /** First position from i on that is whitespace. */
  function WordEnd(s: string, i: nat): (b: nat)
    requires i <= |s|
    ensures i <= b <= |s|
    ensures forall k :: i <= k < b ==> !IsSpace(s[k])
    ensures b < |s| ==> IsSpace(s[b])
    decreases |s| - i
  {
    if i == |s| || IsSpace(s[i]) then i else WordEnd(s, i + 1)
  }

  /** str.split() of s[i..]. */
  function Split(s: string, i: nat): seq<string>
    requires i <= |s|
    decreases |s| - i
  {
    var a := SkipSpace(s, i);
    if a == |s| then [] else [s[a..WordEnd(s, a)]] + Split(s, WordEnd(s, a))
  }

  function TrimEnd(s: string): (r: string)
    ensures |r| <= |s| && r == s[..|r|]
    ensures r != "" ==> !IsSpace(r[|r| - 1])
    ensures forall k :: |r| <= k < |s| ==> IsSpace(s[k])
  {
    if s != "" && IsSpace(s[|s| - 1]) then TrimEnd(s[..|s| - 1]) else s
  }

  /** str.strip(). */
  function Strip(s: string): string { TrimEnd(s[SkipSpace(s, 0)..]) }

  /** No whitespace at either end. */
  predicate Trimmed(s: string) { s != "" ==> !IsSpace(s[0]) && !IsSpace(s[|s| - 1]) }

  /** The characters that are no whitespace, in order. */
  function NonSpace(s: string): string {
    if s == "" then "" else NonSpace(s[..|s| - 1]) + if IsSpace(s[|s| - 1]) then "" else [s[|s| - 1]]
  }

  lemma {:induction false} NonSpaceAdds(a: string, b: string)
    ensures NonSpace(a + b) == NonSpace(a) + NonSpace(b)
  {
    if b == "" {
      assert a + b == a;
    } else {
      NonSpaceAdds(a, b[..|b| - 1]);
      assert (a + b)[..|a + b| - 1] == a + b[..|b| - 1];
    }
  }

  lemma {:induction false} AllSpace(s: string)
    requires forall k :: 0 <= k < |s| ==> IsSpace(s[k])
    ensures NonSpace(s) == ""
  {
    if s != "" {
      AllSpace(s[..|s| - 1]);
    }
  }

  /** A stretch without whitespace is kept whole. */
  lemma {:induction false} NoSpace(s: string)
    requires forall k :: 0 <= k < |s| ==> !IsSpace(s[k])
    ensures NonSpace(s) == s
  {
    if s != "" {
      NoSpace(s[..|s| - 1]);
    }
  }

  lemma NonSpaceSkips(s: string, i: nat, a: nat)
    requires i <= a <= |s| && forall k :: i <= k < a ==> IsSpace(s[k])
    ensures NonSpace(s[i..]) == NonSpace(s[a..])
  {
    assert s[i..] == s[i..a] + s[a..];
    NonSpaceAdds(s[i..a], s[a..]);
    AllSpace(s[i..a]);
  }

  lemma NonSpaceTakes(s: string, a: nat, b: nat)
    requires a <= b <= |s| && forall k :: a <= k < b ==> !IsSpace(s[k])
    ensures NonSpace(s[a..]) == s[a..b] + NonSpace(s[b..])
  {
    assert s[a..] == s[a..b] + s[b..];
    NonSpaceAdds(s[a..b], s[b..]);
    NoSpace(s[a..b]);
  }

  lemma {:induction false} NonSpaceDropsEnd(s: string, n: nat)
    requires n <= |s| && forall k :: n <= k < |s| ==> IsSpace(s[k])
    ensures NonSpace(s) == NonSpace(s[..n])
  {
    if n < |s| {
      NonSpaceDropsEnd(s[..|s| - 1], n);
      assert s[..|s| - 1][..n] == s[..n];
    } else {
      assert s[..n] == s;
    }
  }

  lemma StripKeepsText(s: string)
    ensures NonSpace(Strip(s)) == NonSpace(s)
  {
    var a := SkipSpace(s, 0);
    NonSpaceSkips(s, 0, a);
    assert s[0..] == s;
    NonSpaceDropsEnd(s[a..], |TrimEnd(s[a..])|);
  }

  /** What strip returns is the text between the whitespace at its two ends. */
  lemma StripExactly(s: string)
    ensures exists a, b :: 0 <= a <= b <= |s| && Strip(s) == s[a..b] && Trimmed(s[a..b])
                           && (forall k :: 0 <= k < a || b <= k < |s| ==> IsSpace(s[k]))
  {
    var a := SkipSpace(s, 0);
    var rest := s[a..];
    var b := a + |TrimEnd(rest)|;
    StripIsTrimmed(s);
    assert Strip(s) == s[a..b];
    forall k | b <= k < |s|
      ensures IsSpace(s[k])
    {
      assert s[k] == rest[k - a];
    }
  }

  lemma TrimEndKeepsFirst(s: string)
    ensures s != "" && !IsSpace(s[0]) ==> TrimEnd(s) != "" && TrimEnd(s)[0] == s[0]
    ensures s != "" && !IsSpace(s[|s| - 1]) ==> TrimEnd(s) == s
  {
  }

  lemma StripIsTrimmed(s: string)
    ensures Trimmed(Strip(s)) && |Strip(s)| <= |s|
    ensures s != "" && !IsSpace(s[0]) ==> Strip(s) != ""
    ensures s != "" && !IsSpace(s[|s| - 1]) ==> Strip(s) != ""
  {
    var rest := s[SkipSpace(s, 0)..];
    TrimEndKeepsFirst(rest);
  }

  /** t stands in s at position i. */
  predicate OccursAt(s: string, t: string, i: int) { 0 <= i <= |s| && t <= s[i..] }

  /** str.find(t, from), -1 if there is none. */
  function Find(s: string, t: string, from: nat): (r: int)
    ensures r == -1 || (from <= r && OccursAt(s, t, r))
    ensures forall i :: from <= i && (r == -1 || i < r) ==> !OccursAt(s, t, i)
    decreases |s| - from
  {
    if from > |s| - |t| then -1 else if OccursAt(s, t, from) then from else Find(s, t, from + 1)
  }
}

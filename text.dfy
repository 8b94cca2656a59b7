/**
  Trimming of leading and trailing white space, as Foundation's
  `trimmingCharacters(in: .whitespacesAndNewlines)` does it on Unicode scalars.
 */
module Text {

  /** The characters of `whitespacesAndNewlines`: the Unicode separators
      (categories Zs, Zl, Zp), the tab, line feed, vertical tab, form feed and carriage return
      (U+0009 to U+000D) and NEL. */
  predicate IsWhitespace(c: char) {
    c == '\t' || ('\n' <= c <= '\r') || c == ' ' || c == '\U{85}' || c == '\U{A0}' ||
    c == '\U{1680}' || ('\U{2000}' <= c <= '\U{200A}') || c == '\U{2028}' || c == '\U{2029}' ||
    c == '\U{202F}' || c == '\U{205F}' || c == '\U{3000}'
  }

  predicate AllWhitespace(s: string) {
    forall i :: 0 <= i < |s| ==> IsWhitespace(s[i])
  }

  /** Joining two runs of white space gives a run of white space. */
  lemma AllWhitespaceConcat(a: string, b: string)
    requires AllWhitespace(a) && AllWhitespace(b)
    ensures AllWhitespace(a + b)
  {
    forall i | 0 <= i < |a + b|
      ensures IsWhitespace((a + b)[i])
    {
      if i >= |a| {
        assert (a + b)[i] == b[i - |a|];
      }
    }
  }

  /** `s` without its leading white space: a suffix of `s` that starts with a
      non-white character, everything before it being white. */
  function TrimStart(s: string): (r: string)
    ensures |r| <= |s| && r == s[|s| - |r|..]
    ensures AllWhitespace(s[..|s| - |r|])
    ensures r == [] || !IsWhitespace(r[0])
  {
    if s != [] && IsWhitespace(s[0]) then
      var r := TrimStart(s[1..]);
      assert s[..|s| - |r|] == [s[0]] + s[1..][..|s| - 1 - |r|];
      AllWhitespaceConcat([s[0]], s[1..][..|s| - 1 - |r|]);
      r
    else
      s
  }

  /** `s` without its trailing white space: a prefix of `s` that ends with a
      non-white character, everything after it being white. */
  function TrimEnd(s: string): (r: string)
    ensures |r| <= |s| && r == s[..|r|]
    ensures AllWhitespace(s[|r|..])
    ensures r == [] || !IsWhitespace(r[|r| - 1])
  {
    if s != [] && IsWhitespace(s[|s| - 1]) then
      var r := TrimEnd(s[..|s| - 1]);
      assert s[|r|..] == s[..|s| - 1][|r|..] + [s[|s| - 1]];
      AllWhitespaceConcat(s[..|s| - 1][|r|..], [s[|s| - 1]]);
      r
    else
      s
  }

  /** Number of white characters `Trim` removes from the front of `s`. */
  function LeadingWhitespace(s: string): nat {
    |s| - |TrimStart(s)|
  }

  /** `s` without white space at either end. The result is empty exactly when
      `s` is all white space; otherwise it starts and ends with a non-white
      character. */
  function Trim(s: string): (r: string)
    ensures |r| <= |s|
    ensures r == [] <==> AllWhitespace(s)
    ensures r != [] ==> !IsWhitespace(r[0]) && !IsWhitespace(r[|r| - 1])
  {
    var front := TrimStart(s);
    var r := TrimEnd(front);
    assert r != [] ==> r[0] == front[0];
    assert r == [] ==> AllWhitespace(s) by {
      if r == [] {
        forall i | 0 <= i < |s|
          ensures IsWhitespace(s[i])
        {
          assert s[i] == s[..|s| - |front|][i];
        }
      }
    }
    r
  }

  /** `Trim` cuts a contiguous slice out of `s`, removing only white space
      on either side of it. */
  lemma TrimIsSlice(s: string)
    ensures LeadingWhitespace(s) + |Trim(s)| <= |s|
    ensures Trim(s) == s[LeadingWhitespace(s)..LeadingWhitespace(s) + |Trim(s)|]
    ensures AllWhitespace(s[..LeadingWhitespace(s)])
    ensures AllWhitespace(s[LeadingWhitespace(s) + |Trim(s)|..])
  {
    var k := LeadingWhitespace(s);
    var front := TrimStart(s);
    assert k == |s| - |front|;
    var r := TrimEnd(front);
    assert Trim(s) == r;
    SliceOfSuffix(s, k, |r|);
  }

  /** Slicing a suffix is slicing the whole sequence further along. */
  lemma SliceOfSuffix<T>(s: seq<T>, k: nat, m: nat)
    requires k + m <= |s|
    ensures s[k..][..m] == s[k..k + m]
    ensures s[k..][m..] == s[k + m..]
  {
  }

  /** A string that is already trimmed is left alone. */
  lemma TrimIdempotent(s: string)
    ensures Trim(Trim(s)) == Trim(s)
  {
    var r := Trim(s);
    if r != [] {
      assert !IsWhitespace(r[0]) && !IsWhitespace(r[|r| - 1]);
      TrimStartKeeps(r);
      TrimEndKeeps(r);
      assert Trim(r) == TrimEnd(TrimStart(r));
    }
  }

  /** Nothing to remove at the front: `TrimStart` is the identity. */
  lemma TrimStartKeeps(r: string)
    requires r == [] || !IsWhitespace(r[0])
    ensures TrimStart(r) == r
  {
  }

  /** Nothing to remove at the back: `TrimEnd` is the identity. */
  lemma TrimEndKeeps(r: string)
    requires r == [] || !IsWhitespace(r[|r| - 1])
    ensures TrimEnd(r) == r
  {
  }
}

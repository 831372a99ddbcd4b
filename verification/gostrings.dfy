/**
 * The parts of Go's `strings` package the scanner relies on: `TrimSpace`,
 * `Split` on a one-character separator and `Contains`, plus the blank-string
 * test the command line applies to the host name.
 */
module GoStrings {

  /** White space as Go's `unicode.IsSpace` classifies it. */
  predicate IsSpace(c: char) {
    || c == '\t' || c == '\n' || c == '\U{000B}' || c == '\U{000C}' || c == '\r' || c == ' '
    || c == '\U{0085}' || c == '\U{00A0}' || c == '\U{1680}'
    || ('\U{2000}' <= c <= '\U{200A}')
    || c == '\U{2028}' || c == '\U{2029}' || c == '\U{202F}' || c == '\U{205F}' || c == '\U{3000}'
  }

  predicate AllSpace(s: string) {
    forall i :: 0 <= i < |s| ==> IsSpace(s[i])
  }

  /** `r` sits at offset `i` of `s` and everything around it is white space. */
  ghost predicate PaddedAt(s: string, r: string, i: int) {
    && 0 <= i <= |s| - |r|
    && s[i..i + |r|] == r
    && AllSpace(s[..i])
    && AllSpace(s[i + |r|..])
  }

  function TrimLeft(s: string): (r: string)
    ensures |r| <= |s| && r == s[|s| - |r|..]
    ensures |r| > 0 ==> !IsSpace(r[0])
    ensures AllSpace(s[..|s| - |r|])
    decreases |s|
  {
    if |s| > 0 && IsSpace(s[0]) then TrimLeft(s[1..]) else s
  }

  function TrimRight(s: string): (r: string)
    ensures |r| <= |s| && r == s[..|r|]
    ensures |r| > 0 ==> !IsSpace(r[|r| - 1])
    ensures AllSpace(s[|r|..])
    decreases |s|
  {
    if |s| > 0 && IsSpace(s[|s| - 1]) then TrimRight(s[..|s| - 1]) else s
  }

  /** Go's `strings.TrimSpace`: drop leading and trailing white space. */
  function TrimSpace(s: string): (r: string)
    ensures |r| > 0 ==> !IsSpace(r[0]) && !IsSpace(r[|r| - 1])
    ensures exists i :: PaddedAt(s, r, i)
  {
    var l := TrimLeft(s);
    var r := TrimRight(l);
    assert PaddedAt(s, r, |s| - |l|) by {
      assert s[|s| - |l|..][..|r|] == s[|s| - |l|..|s| - |l| + |r|];
      assert s[|s| - |l| + |r|..] == l[|r|..];
    }
    r
  }

  /** A character that is not white space lies inside the core of any padding. */
  lemma NonSpaceInside(s: string, r: string, i: int, k: int)
    requires PaddedAt(s, r, i) && 0 <= k < |s| && !IsSpace(s[k])
    ensures i <= k < i + |r|
  {
  }

  /** A text has at most one core whose ends are not white space. */
  lemma PaddedCoreUnique(s: string, r: string, i: int, t: string, j: int)
    requires PaddedAt(s, r, i) && PaddedAt(s, t, j)
    requires |r| > 0 ==> !IsSpace(r[0]) && !IsSpace(r[|r| - 1])
    requires |t| > 0 ==> !IsSpace(t[0]) && !IsSpace(t[|t| - 1])
    ensures r == t
  {
    if |t| > 0 {
      // Each core's ends lie inside the other core.
      NonSpaceInside(s, r, i, j);
      NonSpaceInside(s, r, i, j + |t| - 1);
      NonSpaceInside(s, t, j, i);
      NonSpaceInside(s, t, j, i + |r| - 1);
      assert i == j && |r| == |t|;
    } else if |r| > 0 {
      NonSpaceInside(s, t, j, i);
    }
  }

  /** `TrimSpace` finds the one core whose ends are not white space. */
  lemma TrimSpaceFindsCore(s: string, t: string, j: int)
    requires PaddedAt(s, t, j)
    requires |t| > 0 ==> !IsSpace(t[0]) && !IsSpace(t[|t| - 1])
    ensures TrimSpace(s) == t
  {
    var r := TrimSpace(s);
    var i :| PaddedAt(s, r, i);
    PaddedCoreUnique(s, r, i, t, j);
  }

  /** Trimming removes exactly the white space around a core that neither starts nor ends with white space. */
  lemma TrimSpacePadded(w1: string, t: string, w2: string)
    requires AllSpace(w1) && AllSpace(w2)
    requires |t| > 0 ==> !IsSpace(t[0]) && !IsSpace(t[|t| - 1])
    ensures TrimSpace(w1 + t + w2) == t
  {
    var s := w1 + t + w2;
    var j := |w1|;
    assert s[..j] == w1 && s[j..j + |t|] == t && s[j + |t|..] == w2;
    TrimSpaceFindsCore(s, t, j);
  }

  /** The blank-string test applied to the host name: nothing but white space. */
  predicate IsBlank(s: string) {
    TrimSpace(s) == ""
  }

  lemma IsBlankIffAllSpace(s: string)
    ensures IsBlank(s) <==> AllSpace(s)
  {
    if AllSpace(s) {
      TrimSpacePadded(s, "", "");
      assert s + "" + "" == s;
    } else {
      var r := TrimSpace(s);
      var i :| PaddedAt(s, r, i);
    }
  }

  function CountChar(s: string, c: char): (n: nat)
    ensures n <= |s|
  {
    if |s| == 0 then 0 else (if s[0] == c then 1 else 0) + CountChar(s[1..], c)
  }

  lemma CountCharAppend(a: string, b: string, c: char)
    ensures CountChar(a + b, c) == CountChar(a, c) + CountChar(b, c)
  {
    if |a| > 0 {
      assert (a + b)[1..] == a[1..] + b;
      CountCharAppend(a[1..], b, c);
    } else {
      assert a + b == b;
    }
  }

  /** The inverse of `Split`: the parts glued back together with the separator between them. */
  function Join(parts: seq<string>, sep: char): string
    requires |parts| > 0
  {
    if |parts| == 1 then parts[0] else parts[0] + [sep] + Join(parts[1..], sep)
  }

  lemma JoinPrepend(parts: seq<string>, c: char, sep: char)
    requires |parts| > 0
    ensures Join([[c] + parts[0]] + parts[1..], sep) == [c] + Join(parts, sep)
  {
    var q := [[c] + parts[0]] + parts[1..];
    assert q[1..] == parts[1..];
  }

  /** Go's `strings.Split(s, string(sep))`: the maximal separator-free pieces between separators. */
  function Split(s: string, sep: char): (parts: seq<string>)
    ensures |parts| > 0
    ensures forall i :: 0 <= i < |parts| ==> sep !in parts[i]
    ensures Join(parts, sep) == s
    decreases |s|
  {
    if |s| == 0 then [""]
    else
      var rest := Split(s[1..], sep);
      if s[0] == sep then
        var parts := [""] + rest;
        assert parts[1..] == rest;
        assert s == [sep] + s[1..];
        parts
      else
        JoinPrepend(rest, s[0], sep);
        assert s == [s[0]] + s[1..];
        [[s[0]] + rest[0]] + rest[1..]
  }

  lemma {:induction false} SplitLength(s: string, sep: char)
    ensures |Split(s, sep)| == CountChar(s, sep) + 1
    decreases |s|
  {
    if |s| > 0 {
      SplitLength(s[1..], sep);
    }
  }

  lemma {:induction false} SplitPieceFree(p: string, sep: char)
    requires sep !in p
    ensures Split(p, sep) == [p]
    decreases |p|
  {
    if |p| > 0 {
      SplitPieceFree(p[1..], sep);
      assert [p[0]] + p[1..] == p;
    }
  }

  lemma {:induction false} SplitPieceThenSep(p: string, t: string, sep: char)
    requires sep !in p
    ensures Split(p + [sep] + t, sep) == [p] + Split(t, sep)
    decreases |p|
  {
    var s := p + [sep] + t;
    if |p| == 0 {
      assert s[1..] == t;
    } else {
      assert s[1..] == p[1..] + [sep] + t;
      SplitPieceThenSep(p[1..], t, sep);
      assert [p[0]] + p[1..] == p;
    }
  }

  /** Splitting undoes joining, as long as no part contains the separator. */
  lemma {:induction false} SplitJoin(parts: seq<string>, sep: char)
    requires |parts| > 0
    requires forall i :: 0 <= i < |parts| ==> sep !in parts[i]
    ensures Split(Join(parts, sep), sep) == parts
    decreases |parts|
  {
    if |parts| == 1 {
      SplitPieceFree(parts[0], sep);
    } else {
      SplitJoin(parts[1..], sep);
      SplitPieceThenSep(parts[0], Join(parts[1..], sep), sep);
      assert [parts[0]] + parts[1..] == parts;
    }
  }

  /** `sub` occurs in `s` starting at index `i`. */
  ghost predicate OccursAt(s: string, sub: string, i: int) {
    0 <= i && i + |sub| <= |s| && s[i..i + |sub|] == sub
  }

  /** Go's `strings.Contains`. */
  function Contains(s: string, sub: string): (b: bool)
    ensures b <==> exists i :: OccursAt(s, sub, i)
    decreases |s|
  {
    if |sub| > |s| then false
    else if s[..|sub|] == sub then
      assert OccursAt(s, sub, 0);
      true
    else
      OccursShift(s, sub);
      Contains(s[1..], sub)
  }

  /** An occurrence that is not at the front of `s` is an occurrence in its tail. */
  lemma OccursShift(s: string, sub: string)
    requires |sub| <= |s| && s[..|sub|] != sub
    ensures (exists i :: OccursAt(s, sub, i)) <==> (exists i :: OccursAt(s[1..], sub, i))
  {
    if exists i :: OccursAt(s, sub, i) {
      var i :| OccursAt(s, sub, i);
      assert s[1..][i - 1..i - 1 + |sub|] == s[i..i + |sub|];
      assert OccursAt(s[1..], sub, i - 1);
    }
    if exists i :: OccursAt(s[1..], sub, i) {
      var i :| OccursAt(s[1..], sub, i);
      assert s[1..][i..i + |sub|] == s[i + 1..i + 1 + |sub|];
      assert OccursAt(s, sub, i + 1);
    }
  }
}

/** Facts about concatenations of abstract strings. Stated over parameters, so
    that a proof about a concrete name uses them without unfolding how each
    part of the name is formatted. */
module Strings {

  /** In `pre + x + post`, `x` occupies the positions after `pre`. */
  lemma PieceAt(pre: string, x: string, post: string)
    ensures var s := pre + x + post;
            |s| == |pre| + |x| + |post| && s[..|pre|] == pre
            && s[|pre|..|pre| + |x|] == x && s[|pre| + |x|..] == post
  {
    var s := pre + x + post;
    assert s[..|pre| + |x|] == pre + x;
  }

  lemma Regroup3(a: string, b: string, c: string)
    ensures a + b + c == a + (b + c)
  {
  }

  lemma Regroup5(a: string, b: string, c: string, d: string, e: string)
    ensures a + b + c + d + e == a + b + (c + d + e)
    ensures a + b + c + d + e == a + (b + c + d + e)
  {
  }

  /** A slice inside the last piece of a concatenation is a slice of that piece. */
  lemma SliceOfLast(x: string, e: string, i: nat, j: nat)
    requires i <= j <= |e|
    ensures (x + e)[|x| + i..|x| + j] == e[i..j]
  {
  }

  /** The last four characters of `x + e`, and the two before its last, when
      `e` has at least four. */
  lemma EndSlices(s: string, x: string, e: string)
    requires s == x + e && |e| >= 4
    ensures |s| >= 4 && s[|s| - 4..] == e[|e| - 4..] && s[|s| - 3..|s| - 1] == e[|e| - 3..|e| - 1]
  {
    SliceOfLast(x, e, |e| - 3, |e| - 1);
  }

  /** Dropping the last piece of a concatenation leaves the slices before it unchanged. */
  lemma SliceOfInit(x: string, y: string, i: nat, j: nat)
    requires i <= j <= |x|
    ensures (x + y)[i..j] == x[i..j]
  {
  }

  /** The pieces of `a + b + c + d + e + f + g + h`, each at its offset. */
  lemma Pieces8(a: string, b: string, c: string, d: string, e: string, f: string, g: string, h: string)
    ensures var s := a + b + c + d + e + f + g + h;
            var o1 := |a|; var o2 := o1 + |b|; var o3 := o2 + |c|; var o4 := o3 + |d|;
            var o5 := o4 + |e|; var o6 := o5 + |f|; var o7 := o6 + |g|;
            |s| == o7 + |h| && s[..o1] == a && s[o1..o2] == b && s[o2..o3] == c && s[o3..o4] == d
            && s[o4..o5] == e && s[o5..o6] == f && s[o6..o7] == g && s[o7..] == h
  {
    var s7 := a + b + c + d + e + f + g;
    var s6 := a + b + c + d + e + f;
    var s5 := a + b + c + d + e;
    var s4 := a + b + c + d;
    var s3 := a + b + c;
    var s2 := a + b;
    var o1 := |a|; var o2 := o1 + |b|; var o3 := o2 + |c|; var o4 := o3 + |d|;
    var o5 := o4 + |e|; var o6 := o5 + |f|; var o7 := o6 + |g|;
    SliceOfInit(s7, h, 0, o1); SliceOfInit(s6, g, 0, o1); SliceOfInit(s5, f, 0, o1);
    SliceOfInit(s4, e, 0, o1); SliceOfInit(s3, d, 0, o1); SliceOfInit(s2, c, 0, o1);
    SliceOfInit(s7, h, o1, o2); SliceOfInit(s6, g, o1, o2); SliceOfInit(s5, f, o1, o2);
    SliceOfInit(s4, e, o1, o2); SliceOfInit(s3, d, o1, o2);
    SliceOfInit(s7, h, o2, o3); SliceOfInit(s6, g, o2, o3); SliceOfInit(s5, f, o2, o3);
    SliceOfInit(s4, e, o2, o3);
    SliceOfInit(s7, h, o3, o4); SliceOfInit(s6, g, o3, o4); SliceOfInit(s5, f, o3, o4);
    SliceOfInit(s7, h, o4, o5); SliceOfInit(s6, g, o4, o5);
    SliceOfInit(s7, h, o5, o6);
  }

  /** Two strings of the template `a + r + m + s + b + r + e` that agree, with
      stamps `s` of one length, agree in `r` and in `s`. */
  lemma SameTemplate(a: string, r1: string, s1: string, r2: string, s2: string, m: string, b: string, e: string)
    requires a + r1 + m + s1 + b + r1 + e == a + r2 + m + s2 + b + r2 + e
    requires |s1| == |s2|
    ensures r1 == r2 && s1 == s2
  {
    Pieces8(a, r1, m, s1, b, r1, e, "");
    Pieces8(a, r2, m, s2, b, r2, e, "");
    var u := a + r1 + m + s1 + b + r1 + e;
    assert u + "" == u;
    assert |r1| == |r2|;
  }
}

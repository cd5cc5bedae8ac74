/** Bytes, the dump directory seen as a map from path to contents, and facts about path suffixes. */
module Files {

  /** One octet, as Go's `byte`. */
  type Byte = b: int | 0 <= b < 256

  type Bytes = seq<Byte>

  /** The file system as far as this program sees it: path to file contents. */
  type Disk = map<string, Bytes>

  /** Two strings that end in different characters are different, whatever precedes the ending. */
  lemma DifferentLastChar(a: string, x: string, b: string, y: string)
    requires |x| > 0 && |y| > 0
    requires x[|x| - 1] != y[|y| - 1]
    ensures a + x != b + y
  {
    var u, v := a + x, b + y;
    assert u[|u| - 1] == x[|x| - 1];
    assert v[|v| - 1] == y[|y| - 1];
  }

  /** Appending the same prefix and suffix is injective in what lies between. */
  lemma {:induction false} FrameCancel(p: string, a: string, b: string, s: string)
    ensures p + a + s == p + b + s <==> a == b
  {
    if p + a + s == p + b + s {
      var u, v := p + a + s, p + b + s;
      assert |a| == |b|;
      assert forall i :: 0 <= i < |a| ==> a[i] == u[|p| + i] == v[|p| + i] == b[i];
    }
  }
}

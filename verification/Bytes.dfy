/** Bytes, frames and the index arithmetic shared by the components. */
module Bytes {

  type byte = x: int | 0 <= x < 256

  type Frame = seq<byte>

  datatype Option<T> = None | Some(value: T)

  const TWO_TO_THE_31 := 0x8000_0000
  const TWO_TO_THE_32 := 0x1_0000_0000

  const ETH_HDRLEN := 14
  const IP4_HDRLEN := 20
  const ETHIP4 := IP4_HDRLEN + ETH_HDRLEN

  /** xs can be obtained from ys by leaving elements out, without reordering or repeating any. */
  ghost predicate Subsequence<T(!new)>(xs: seq<T>, ys: seq<T>) {
    exists at: seq<nat> :: EmbedsAt(xs, ys, at)
  }

  /** at[k] says which element of ys the k-th element of xs is. */
  ghost predicate EmbedsAt<T(!new)>(xs: seq<T>, ys: seq<T>, at: seq<nat>) {
    && |at| == |xs|
    && Ascending(at)
    && (forall k :: 0 <= k < |xs| ==> at[k] < |ys| && xs[k] == ys[at[k]])
  }

  predicate Ascending(at: seq<nat>) {
    forall j, k :: 0 <= j < k < |at| ==> at[j] < at[k]
  }

  lemma SubsequenceTransitive<T(!new)>(xs: seq<T>, ys: seq<T>, zs: seq<T>)
    requires Subsequence(xs, ys) && Subsequence(ys, zs)
    ensures Subsequence(xs, zs)
  {
    var f: seq<nat> :| EmbedsAt(xs, ys, f);
    var g: seq<nat> :| EmbedsAt(ys, zs, g);
    var h: seq<nat> := seq(|f|, k requires 0 <= k < |f| => g[f[k]]);
    assert EmbedsAt(xs, zs, h);
  }

  lemma SubsequenceSkip<T(!new)>(xs: seq<T>, ys: seq<T>, y: T)
    requires Subsequence(xs, ys)
    ensures Subsequence(xs, [y] + ys)
  {
    var f: seq<nat> :| EmbedsAt(xs, ys, f);
    assert EmbedsAt(xs, [y] + ys, seq(|f|, k requires 0 <= k < |f| => f[k] + 1));
  }

  lemma SubsequenceTake<T(!new)>(xs: seq<T>, ys: seq<T>, y: T)
    requires Subsequence(xs, ys)
    ensures Subsequence([y] + xs, [y] + ys)
  {
    var f: seq<nat> :| EmbedsAt(xs, ys, f);
    var g: seq<nat> := [0] + seq(|f|, k requires 0 <= k < |f| => f[k] + 1);
    assert EmbedsAt([y] + xs, [y] + ys, g);
  }

  lemma SubsequenceOfSome<T(!new)>(xs: seq<T>, ys: seq<T>)
    requires xs != [] && Subsequence(xs, ys)
    ensures ys != []
  {
    var f: seq<nat> :| EmbedsAt(xs, ys, f);
    assert f[0] < |ys|;
  }

  lemma SubsequenceHead<T(!new)>(xs: seq<T>, y: T, ys: seq<T>)
    requires xs != [] && Subsequence(xs, [y] + ys)
    ensures Subsequence(xs, ys) || (xs[0] == y && Subsequence(xs[1..], ys))
  {
    var f: seq<nat> :| EmbedsAt(xs, [y] + ys, f);
    if f[0] == 0 {
      assert EmbedsAt(xs[1..], ys, seq(|f| - 1, k requires 0 <= k < |f| - 1 => f[k + 1] - 1));
    } else {
      assert EmbedsAt(xs, ys, seq(|f|, k requires 0 <= k < |f| => f[k] - 1));
    }
  }
}

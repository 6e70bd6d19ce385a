/** The two element-writing algorithms the vector's constructors use:
    std::fill_n (write one value into the first n slots of a buffer) and
    std::copy (write a range, in order, into the front of a buffer). */
module Algorithms {

  /** The sequence of n copies of v: what fill_n leaves in the slots it writes. */
  function Repeat<T>(v: T, n: nat): (r: seq<T>)
    ensures |r| == n
    ensures forall i :: 0 <= i < n ==> r[i] == v
  {
    if n == 0 then [] else Repeat(v, n - 1) + [v]
  }

  /** fill_n(a, n, v): slots [0, n) of a become v, one by one in index order;
      slots from n on are not touched. */
  method FillN<T>(a: array<T>, n: nat, v: T)
    requires n <= a.Length
    modifies a
    ensures a[..n] == Repeat(v, n)
    ensures a[n..] == old(a[n..])
  {
    var i := 0;
    while i < n
      invariant i <= n
      invariant forall k :: 0 <= k < i ==> a[k] == v
      invariant forall k :: i <= k < a.Length ==> a[k] == old(a[k])
    {
      a[i] := v;
      i := i + 1;
    }
    assert a[..n] == Repeat(v, n);
  }

  /** copy(src.begin(), src.end(), dst): the elements of src are written to
      dst[0], dst[1], ... in order; slots from |src| on are not touched. */
  method CopyN<T>(src: seq<T>, dst: array<T>)
    requires |src| <= dst.Length
    modifies dst
    ensures dst[..|src|] == src
    ensures dst[|src|..] == old(dst[|src|..])
  {
    var i := 0;
    while i < |src|
      invariant i <= |src|
      invariant forall k :: 0 <= k < i ==> dst[k] == src[k]
      invariant forall k :: i <= k < dst.Length ==> dst[k] == old(dst[k])
    {
      dst[i] := src[i];
      i := i + 1;
    }
  }
}

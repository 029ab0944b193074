// Tensors as a shape and a value per coordinate, with the row-major meaning of the torch
// calls that scattering and gathering use.

module Tensors {
  import opened MeshArithmetic

  datatype Tensor = Tensor(shape: seq<nat>, at: seq<nat> -> real)

  /** Equal shapes and equal values at every coordinate. */
  ghost predicate Same(t: Tensor, u: Tensor) {
    t.shape == u.shape && forall c | InBounds(c, t.shape) :: t.at(c) == u.at(c)
  }

  function Shifted(c: seq<nat>, d: nat, lo: nat): (r: seq<nat>)
    requires d < |c|
    ensures |r| == |c|
  {
    c[d := c[d] + lo]
  }

  /** len cells of dimension d, starting at lo. */
  function Slice(t: Tensor, d: nat, lo: nat, len: nat): Tensor
    requires d < |t.shape|
  {
    Tensor(t.shape[d := len], (c: seq<nat>) => if d < |c| then t.at(Shifted(c, d, lo)) else 0.0)
  }

  function PrefixSum(sizes: seq<nat>, k: nat): nat
    requires k <= |sizes|
  {
    if k == 0 then 0 else PrefixSum(sizes, k - 1) + sizes[k - 1]
  }

  function Split(t: Tensor, sizes: seq<nat>, d: nat): (r: seq<Tensor>)
    requires d < |t.shape|
    ensures |r| == |sizes|
    ensures forall k | 0 <= k < |r| :: r[k] == Slice(t, d, PrefixSum(sizes, k), sizes[k])
  {
    seq(|sizes|, k requires 0 <= k < |sizes| => Slice(t, d, PrefixSum(sizes, k), sizes[k]))
  }

  function Append(a: Tensor, b: Tensor, d: nat): Tensor {
    if d < |a.shape| && d < |b.shape| then
      Tensor(a.shape[d := a.shape[d] + b.shape[d]],
             (c: seq<nat>) =>
               if d < |c| && c[d] >= a.shape[d] then b.at(c[d := c[d] - a.shape[d]]) else a.at(c))
    else a
  }

  function Concat(ts: seq<Tensor>, d: nat): Tensor
    requires |ts| > 0
  {
    if |ts| == 1 then ts[0] else Append(Concat(ts[..|ts| - 1], d), ts[|ts| - 1], d)
  }

  /** How far the first n tensors reach in dimension d. */
  function Width(ts: seq<Tensor>, d: nat, n: nat): nat
    requires n <= |ts| && forall t | t in ts :: d < |t.shape|
  {
    if n == 0 then 0 else Width(ts, d, n - 1) + ts[n - 1].shape[d]
  }

  lemma {:induction false} WidthGrows(ts: seq<Tensor>, d: nat, i: nat, n: nat)
    requires i <= n <= |ts| && forall t | t in ts :: d < |t.shape|
    ensures Width(ts, d, i) <= Width(ts, d, n)
    decreases n
  {
    if i < n {
      WidthGrows(ts, d, i, n - 1);
    }
  }

  lemma {:induction false} ConcatShape(ts: seq<Tensor>, d: nat, n: nat)
    requires 0 < n <= |ts| && forall t | t in ts :: d < |t.shape|
    ensures Concat(ts[..n], d).shape == ts[0].shape[d := Width(ts, d, n)]
  {
    if n == 1 {
      assert Width(ts, d, 0) == 0;
    } else {
      assert ts[..n][..n - 1] == ts[..n - 1];
      ConcatShape(ts, d, n - 1);
    }
  }

  /** In a concatenation the i-th tensor comes behind all tensors before it. */
  lemma {:induction false} ConcatValue(ts: seq<Tensor>, d: nat, n: nat, i: nat, c: seq<nat>)
    requires i < n <= |ts| && (forall t | t in ts :: d < |t.shape|) && InBounds(c, ts[i].shape)
    ensures Concat(ts[..n], d).at(c[d := c[d] + Width(ts, d, i)]) == ts[i].at(c)
    decreases n
  {
    var w := Width(ts, d, i);
    var e: seq<nat> := c[d := c[d] + w];
    if n == 1 {
      assert e == c;
    } else {
      assert ts[..n][..n - 1] == ts[..n - 1];
      ConcatShape(ts, d, n - 1);
      AppendValue(Concat(ts[..n - 1], d), ts[n - 1], d, e);
      if i == n - 1 {
        assert e[d := e[d] - w] == c;
      } else {
        ConcatValue(ts, d, n - 1, i, c);
        WidthGrows(ts, d, i + 1, n - 1);
      }
    }
  }

  lemma AppendValue(a: Tensor, b: Tensor, d: nat, e: seq<nat>)
    requires d < |a.shape| && d < |b.shape| && d < |e|
    ensures Append(a, b, d).at(e) == if e[d] >= a.shape[d] then b.at(e[d := e[d] - a.shape[d]]) else a.at(e)
  {
  }

  function Zeros(shape: seq<nat>): Tensor {
    Tensor(shape, (c: seq<nat>) => 0.0)
  }

  function Add(a: Tensor, b: Tensor): Tensor {
    Tensor(a.shape, (c: seq<nat>) => a.at(c) + b.at(c))
  }

  function AddAll(ts: seq<Tensor>): Tensor
    requires |ts| > 0
  {
    if |ts| == 1 then ts[0] else Add(AddAll(ts[..|ts| - 1]), ts[|ts| - 1])
  }

  // ---------------------------------------------------------------- parts of a tensor

  function Plus(lo: seq<nat>, c: seq<nat>): (r: seq<nat>)
    ensures |lo| == |c| ==> |r| == |c| && forall i | 0 <= i < |c| :: r[i] == lo[i] + c[i]
  {
    if |lo| == |c| then seq<nat>(|c|, i requires 0 <= i < |c| => lo[i] + c[i]) else []
  }

  /** t is the block of whole that starts at lo and has the given size, or zeros of that size. */
  ghost predicate IsPart(t: Tensor, whole: Tensor, zero: bool, lo: seq<nat>, size: seq<nat>) {
    && t.shape == size
    && |lo| == |size| == |whole.shape|
    && forall c | InBounds(c, size) :: t.at(c) == if zero then 0.0 else whole.at(Plus(lo, c))
  }

  lemma SlicePart(t: Tensor, whole: Tensor, zero: bool, lo: seq<nat>, size: seq<nat>, d: nat, a: nat, len: nat)
    requires IsPart(t, whole, zero, lo, size) && d < |size| && a + len <= size[d]
    ensures IsPart(Slice(t, d, a, len), whole, zero, lo[d := lo[d] + a], size[d := len])
  {
    forall c | InBounds(c, size[d := len])
      ensures Slice(t, d, a, len).at(c) == if zero then 0.0 else whole.at(Plus(lo[d := lo[d] + a], c))
    {
      var s := Shifted(c, d, a);
      assert InBounds(s, size) by {
        forall i | 0 <= i < |size| ensures s[i] < size[i] {
          assert c[i] < size[d := len][i];
        }
      }
      assert Plus(lo, s) == Plus(lo[d := lo[d] + a], c);
    }
  }

  lemma AppendPart(a: Tensor, b: Tensor, whole: Tensor, zero: bool, lo: seq<nat>, size: seq<nat>, d: nat, more: nat)
    requires d < |size|
    requires IsPart(a, whole, zero, lo, size)
    requires IsPart(b, whole, zero, lo[d := lo[d] + size[d]], size[d := more])
    ensures IsPart(Append(a, b, d), whole, zero, lo, size[d := size[d] + more])
  {
    var both: seq<nat> := size[d := size[d] + more];
    var t := Append(a, b, d);
    forall c | InBounds(c, both)
      ensures t.at(c) == if zero then 0.0 else whole.at(Plus(lo, c))
    {
      if c[d] >= size[d] {
        var s: seq<nat> := c[d := c[d] - size[d]];
        assert InBounds(s, size[d := more]) by {
          forall i | 0 <= i < |size| ensures s[i] < size[d := more][i] {
            assert c[i] < both[i];
          }
        }
        assert Plus(lo[d := lo[d] + size[d]], s) == Plus(lo, c);
      } else {
        assert InBounds(c, size) by {
          forall i | 0 <= i < |size| ensures c[i] < size[i] {
            assert c[i] < both[i];
          }
        }
      }
    }
  }

  lemma ZeroPart(t: Tensor, whole: Tensor, zero: bool, lo: seq<nat>, size: seq<nat>)
    requires IsPart(t, whole, zero, lo, size)
    ensures IsPart(Zeros(t.shape), whole, true, lo, size)
  {
  }

  lemma WholePart(whole: Tensor, lo: seq<nat>)
    requires |lo| == |whole.shape| && forall i | 0 <= i < |lo| :: lo[i] == 0
    ensures IsPart(whole, whole, false, lo, whole.shape)
    ensures forall t :: IsPart(t, whole, false, lo, whole.shape) ==> Same(t, whole)
  {
    forall c | InBounds(c, whole.shape) ensures Plus(lo, c) == c {
    }
  }
}

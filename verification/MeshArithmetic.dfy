// Mixed-radix arithmetic over shapes: the row-major numbering of the cells of a
// mesh and the strides that the Stride class computes it with.

module MeshArithmetic {

  /** Number of cells of a shape; the empty shape has one cell. */
  function Prod(s: seq<nat>): nat {
    if |s| == 0 then 1 else Prod(s[..|s| - 1]) * s[|s| - 1]
  }

  predicate Positive(s: seq<nat>) {
    forall i | 0 <= i < |s| :: s[i] > 0
  }

  predicate InBounds(c: seq<nat>, s: seq<nat>) {
    |c| == |s| && forall i | 0 <= i < |s| :: c[i] < s[i]
  }

  /** The row-major number of a coordinate, defined from the innermost axis outwards. */
  function Index(s: seq<nat>, c: seq<nat>): nat
    requires |c| == |s|
  {
    if |s| == 0 then 0
    else Index(s[..|s| - 1], c[..|s| - 1]) * s[|s| - 1] + c[|s| - 1]
  }

  /** The coordinate with a given row-major number. */
  function Coord(s: seq<nat>, i: nat): (c: seq<nat>)
    requires Positive(s)
    ensures |c| == |s|
  {
    if |s| == 0 then []
    else Coord(s[..|s| - 1], i / s[|s| - 1]) + [i % s[|s| - 1]]
  }

  // ---------------------------------------------------------------- arithmetic

  lemma MulMono(a: nat, q: nat, b: nat)
    ensures a <= q ==> a * b <= q * b
  {
  }

  lemma MulAssoc(a: nat, b: nat, c: nat)
    ensures (a * b) * c == a * (b * c)
  {
  }

  lemma MulComm(a: nat, b: nat)
    ensures a * b == b * a
  {
  }

  lemma FoldFactor(a: nat, p: nat, b: nat, m: nat)
    ensures (a * p + b) * m == a * (p * m) + b * m
  {
  }

  lemma DivRem(x: nat, b: nat)
    requires b > 0
    ensures x == (x / b) * b + x % b
  {
  }

  lemma DivBound(i: nat, a: nat, b: nat)
    requires b > 0 && i < a * b
    ensures i / b < a
  {
    var q := i / b;
    DivRem(i, b);
    MulMono(a, q, b);
  }

  lemma MulBound(q: nat, r: nat, a: nat, b: nat)
    requires q < a && r < b
    ensures q * b + r < a * b
  {
    assert (q + 1) * b <= a * b;
  }

  lemma DivModUnique(q: nat, r: nat, b: nat)
    requires r < b
    ensures (q * b + r) / b == q && (q * b + r) % b == r
  {
    var x := q * b + r;
    var k := x / b;
    assert k * b <= x < (k + 1) * b;
    MulMono(k + 1, q, b);
    MulMono(q + 1, k, b);
    assert k == q;
  }

  lemma ProdPositive(s: seq<nat>)
    requires Positive(s)
    ensures Prod(s) > 0
  {
    if |s| > 0 {
      ProdPositive(s[..|s| - 1]);
    }
  }

  lemma {:induction false} ProdConcat(a: seq<nat>, b: seq<nat>)
    ensures Prod(a + b) == Prod(a) * Prod(b)
  {
    if |b| == 0 {
      assert a + b == a;
    } else {
      var m := |b| - 1;
      ProdConcat(a, b[..m]);
      assert (a + b)[..|a| + m] == a + b[..m];
      calc {
        Prod(a + b);
        Prod(a + b[..m]) * b[m];
        (Prod(a) * Prod(b[..m])) * b[m];
        Prod(a) * (Prod(b[..m]) * b[m]);
      }
    }
  }

  lemma ProdFront(s: seq<nat>)
    requires |s| > 0
    ensures Prod(s) == s[0] * Prod(s[1..])
  {
    assert s == s[..1] + s[1..];
    ProdConcat(s[..1], s[1..]);
    assert Prod(s[..1]) == Prod(s[..0]) * s[0] == s[0];
  }

  lemma {:induction false} IndexConcat(a: seq<nat>, b: seq<nat>, c: seq<nat>, e: seq<nat>)
    requires |a| == |c| && |b| == |e|
    ensures Index(a + b, c + e) == Index(a, c) * Prod(b) + Index(b, e)
  {
    if |b| == 0 {
      assert a + b == a && c + e == c;
    } else {
      var m := |b| - 1;
      var A, P, B := Index(a, c), Prod(b[..m]), Index(b[..m], e[..m]);
      IndexConcat(a, b[..m], c, e[..m]);
      assert (a + b)[..|a| + m] == a + b[..m] && (c + e)[..|a| + m] == c + e[..m];
      FoldFactor(A, P, B, b[m]);
    }
  }

  lemma IndexFront(s: seq<nat>, c: seq<nat>)
    requires |c| == |s| > 0
    ensures Index(s, c) == c[0] * Prod(s[1..]) + Index(s[1..], c[1..])
  {
    assert s == s[..1] + s[1..] && c == c[..1] + c[1..];
    IndexConcat(s[..1], s[1..], c[..1], c[1..]);
    assert Index(s[..1], c[..1]) == Index(s[..0], c[..0]) * s[0] + c[0] == c[0];
  }

  // ---------------------------------------------------------------- bijection

  /** Every number below the cell count is the number of exactly the coordinate it decodes to. */
  lemma {:induction false} IndexOfCoord(s: seq<nat>, i: nat)
    requires Positive(s) && i < Prod(s)
    ensures InBounds(Coord(s, i), s)
    ensures Index(s, Coord(s, i)) == i
  {
    if |s| > 0 {
      var m := s[|s| - 1];
      DivBound(i, Prod(s[..|s| - 1]), m);
      DivRem(i, m);
      IndexOfCoord(s[..|s| - 1], i / m);
      assert Coord(s, i)[..|s| - 1] == Coord(s[..|s| - 1], i / m);
    }
  }

  /** Every in-bounds coordinate is numbered below the cell count and decodes back to itself. */
  lemma {:induction false} CoordOfIndex(s: seq<nat>, c: seq<nat>)
    requires InBounds(c, s)
    ensures Positive(s)
    ensures Index(s, c) < Prod(s)
    ensures Coord(s, Index(s, c)) == c
  {
    assert Positive(s) by {
      forall i | 0 <= i < |s| ensures s[i] > 0 { assert c[i] < s[i]; }
    }
    if |s| > 0 {
      var n := |s| - 1;
      CoordOfIndex(s[..n], c[..n]);
      var q := Index(s[..n], c[..n]);
      MulBound(q, c[n], Prod(s[..n]), s[n]);
      DivModUnique(q, c[n], s[n]);
      assert c == c[..n] + [c[n]];
    }
  }

  // ---------------------------------------------------------------- strides

  /** The row-major strides of a shape: each axis steps over the cells of all later axes. */
  function RowMajorStrides(s: seq<nat>): (r: seq<nat>)
    ensures |r| == |s|
    ensures forall i | 0 <= i < |s| :: r[i] == Prod(s[i + 1..])
  {
    seq(|s|, i requires 0 <= i < |s| => Prod(s[i + 1..]))
  }

  function Dot(c: seq<nat>, strides: seq<nat>): nat
    requires |c| == |strides|
  {
    if |c| == 0 then 0 else c[0] * strides[0] + Dot(c[1..], strides[1..])
  }

  /** The remainder chain of ComputeCoordinate. */
  function Peel(i: nat, strides: seq<nat>): (c: seq<nat>)
    requires Positive(strides)
    ensures |c| == |strides|
  {
    if |strides| == 0 then [] else [i / strides[0]] + Peel(i % strides[0], strides[1..])
  }

  lemma StridesTail(s: seq<nat>)
    requires |s| > 0
    ensures RowMajorStrides(s)[0] == Prod(s[1..])
    ensures RowMajorStrides(s)[1..] == RowMajorStrides(s[1..])
  {
    forall i | 0 <= i < |s| - 1
      ensures RowMajorStrides(s)[1..][i] == RowMajorStrides(s[1..])[i]
    {
      assert s[1..][i + 1..] == s[i + 2..];
    }
  }

  lemma StridesPositive(s: seq<nat>)
    requires Positive(s)
    ensures Positive(RowMajorStrides(s))
  {
    forall i | 0 <= i < |s| ensures RowMajorStrides(s)[i] > 0 {
      ProdPositive(s[i + 1..]);
    }
  }

  /** On row-major strides the dot product is the row-major number. */
  lemma {:induction false} DotIsIndex(s: seq<nat>, c: seq<nat>)
    requires |c| == |s|
    ensures Dot(c, RowMajorStrides(s)) == Index(s, c)
  {
    if |s| > 0 {
      StridesTail(s);
      DotIsIndex(s[1..], c[1..]);
      IndexFront(s, c);
    }
  }

  /** On row-major strides the remainder chain decodes every number below the cell count. */
  lemma {:induction false} PeelIsCoord(s: seq<nat>, i: nat)
    requires Positive(s) && i < Prod(s)
    ensures Positive(RowMajorStrides(s))
    ensures Peel(i, RowMajorStrides(s)) == Coord(s, i)
  {
    StridesPositive(s);
    PeelDecodes(s, i);
    CoordOfIndex(s, Peel(i, RowMajorStrides(s)));
  }

  lemma {:induction false} PeelDecodes(s: seq<nat>, i: nat)
    requires Positive(s) && Positive(RowMajorStrides(s)) && i < Prod(s)
    ensures InBounds(Peel(i, RowMajorStrides(s)), s)
    ensures Index(s, Peel(i, RowMajorStrides(s))) == i
  {
    if |s| > 0 {
      var st, P := RowMajorStrides(s), Prod(s[1..]);
      StridesTail(s);
      FirstDigit(s, i);
      var q, tail := i / P, Peel(i % P, st[1..]);
      PeelDecodes(s[1..], i % P);
      assert Peel(i, st) == [q] + tail;
      IndexFront(s, [q] + tail);
      assert ([q] + tail)[1..] == tail;
    }
  }

  lemma FirstDigit(s: seq<nat>, i: nat)
    requires |s| > 0 && Positive(s) && i < Prod(s)
    ensures Prod(s[1..]) > 0
    ensures i / Prod(s[1..]) < s[0]
    ensures i == (i / Prod(s[1..])) * Prod(s[1..]) + i % Prod(s[1..])
  {
    ProdFront(s);
    ProdPositive(s[1..]);
    DivBound(i, s[0], Prod(s[1..]));
    DivRem(i, Prod(s[1..]));
  }

  class Stride {
    var mStride: seq<nat>

    constructor FromShape(shape: seq<nat>)
      ensures mStride == RowMajorStrides(shape)
    {
      mStride := seq(|shape|, _ => 0);
      new;
      var count, i := 1, |shape|;
      while i > 0
        invariant 0 <= i <= |shape| == |mStride|
        invariant count == Prod(shape[i..])
        invariant forall k | i <= k < |shape| :: mStride[k] == Prod(shape[k + 1..])
      {
        i := i - 1;
        mStride := mStride[i := count];
        ProdFront(shape[i..]);
        assert shape[i..][1..] == shape[i + 1..];
        count := count * shape[i];
      }
      assert mStride == RowMajorStrides(shape);
    }

    method ComputeIndex(coordinate: seq<nat>) returns (result: nat)
      requires |coordinate| == |mStride|
      ensures result == Dot(coordinate, mStride)
    {
      result := 0;
      for i := 0 to |coordinate|
        invariant result + Dot(coordinate[i..], mStride[i..]) == Dot(coordinate, mStride)
      {
        assert coordinate[i..][1..] == coordinate[i + 1..] && mStride[i..][1..] == mStride[i + 1..];
        result := result + coordinate[i] * mStride[i];
      }
    }

    method ComputeCoordinate(index: nat) returns (result: seq<nat>)
      requires Positive(mStride)
      ensures result == Peel(index, mStride)
    {
      result := [];
      var rest := index;
      for i := 0 to |mStride|
        invariant |result| == i
        invariant result + Peel(rest, mStride[i..]) == Peel(index, mStride)
      {
        assert mStride[i..][1..] == mStride[i + 1..];
        result := result + [rest / mStride[i]];
        rest := rest % mStride[i];
      }
    }
  }
}

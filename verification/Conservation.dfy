// Counting arguments over a whole mesh: no tensor element is lost or invented by a
// distribution, and projecting positions on selected axes hits every value equally often.

module Conservation {
  import opened MeshArithmetic
  import opened DistributedSpec

  /** Product of the mesh axes that do not shard: how often every element is replicated. */
  function Copies(ms: seq<nat>, pl: seq<Placement>): nat
    requires |ms| == |pl|
  {
    if |ms| == 0 then 1
    else
      var n := |ms| - 1;
      Copies(ms[..n], pl[..n]) * (if pl[n].Shard? then 1 else ms[n])
  }

  // ---------------------------------------------------------------- finite sums

  lemma {:induction false} SumSame(f: nat -> nat, g: nat -> nat, n: nat)
    requires forall i: nat | i < n :: f(i) == g(i)
    ensures Sum(f, n) == Sum(g, n)
  {
    if n > 0 {
      SumSame(f, g, n - 1);
    }
  }

  lemma {:induction false} SumScaled(f: nat -> nat, g: nat -> nat, a: nat, n: nat)
    requires forall i: nat | i < n :: g(i) == f(i) * a
    ensures Sum(g, n) == Sum(f, n) * a
  {
    if n > 0 {
      SumScaled(f, g, a, n - 1);
    }
  }

  lemma SumConstant(f: nat -> nat, a: nat, n: nat)
    requires forall i: nat | i < n :: f(i) == a
    ensures Sum(f, n) == a * n
  {
    if n > 0 {
      SumConstant(f, a, n - 1);
    }
  }

  /** Cell r of block q when cells are grouped in blocks of m. */
  function Cell(q: nat, m: nat, r: nat): nat {
    q * m + r
  }

  function Block(f: nat -> nat, q: nat, m: nat): nat -> nat {
    (r: nat) => f(Cell(q, m, r))
  }

  /** The sums of the blocks of m cells. */
  function Grouped(f: nat -> nat, m: nat): nat -> nat {
    (q: nat) => Sum(Block(f, q, m), m)
  }

  lemma {:induction false} SumExtend(f: nat -> nat, q: nat, m: nat, n: nat)
    ensures Sum(f, Cell(q, m, n)) == Sum(f, Cell(q, m, 0)) + Sum(Block(f, q, m), n)
  {
    if n > 0 {
      SumExtend(f, q, m, n - 1);
    }
  }

  /** A sum over a * m cells is the sum of the a block sums. */
  lemma {:induction false} SumBlocks(f: nat -> nat, a: nat, m: nat)
    ensures Sum(f, Cell(a, m, 0)) == Sum(Grouped(f, m), a)
  {
    if a > 0 {
      SumBlocks(f, a - 1, m);
      SumExtend(f, a - 1, m, m);
      assert Cell(a - 1, m, m) == Cell(a, m, 0);
    }
  }

  // ---------------------------------------------------------------- products with one varying factor

  /** Product of all factors but the one at d. */
  function Others(v: seq<nat>, d: nat): nat
    requires d < |v|
  {
    Prod(v[..d]) * Prod(v[d + 1..])
  }

  lemma ProdAt(v: seq<nat>, d: nat, a: nat)
    requires d < |v|
    ensures Prod(v[d := a]) == a * Others(v, d)
  {
    var left, right := v[..d], v[d + 1..];
    assert v[d := a] == left + ([a] + right);
    ProdConcat(left, [a] + right);
    ProdFront([a] + right);
    assert ([a] + right)[1..] == right;
  }

  lemma SumOfProducts(v: seq<nat>, d: nat, g: nat -> nat, h: nat -> nat, m: nat)
    requires d < |v|
    requires forall r: nat | r < m :: h(r) == Prod(v[d := g(r)])
    ensures Sum(h, m) == Prod(v[d := Sum(g, m)])
  {
    var rest := Others(v, d);
    forall r: nat | r < m ensures h(r) == g(r) * rest {
      ProdAt(v, d, g(r));
    }
    SumScaled(g, h, rest, m);
    ProdAt(v, d, Sum(g, m));
  }

  // ---------------------------------------------------------------- weights that depend on chunk numbers

  /** Product over the tensor dimensions of a weight of the chunk number. */
  function Weights(ms: seq<nat>, pl: seq<Placement>, w: seq<nat -> nat>, c: seq<nat>): (r: seq<nat>)
    requires |ms| == |pl| == |c|
    ensures |r| == |w|
    ensures forall d | 0 <= d < |w| :: r[d] == w[d](Chunk(ms, pl, d, c))
  {
    seq<nat>(|w|, d requires 0 <= d < |w| => w[d](Chunk(ms, pl, d, c)))
  }

  function Totals(ms: seq<nat>, pl: seq<Placement>, w: seq<nat -> nat>): (r: seq<nat>)
    requires |ms| == |pl|
    ensures |r| == |w|
    ensures forall d | 0 <= d < |w| :: r[d] == Sum(w[d], NumShards(ms, pl, d))
  {
    seq<nat>(|w|, d requires 0 <= d < |w| => Sum(w[d], NumShards(ms, pl, d)))
  }

  function WeightOf(ms: seq<nat>, pl: seq<Placement>, w: seq<nat -> nat>): nat -> nat
    requires |ms| == |pl| && Positive(ms)
  {
    (p: nat) => Prod(Weights(ms, pl, w, Coord(ms, p)))
  }

  /** Summing a product of chunk weights over all devices factors into one sum per tensor dimension. */
  lemma {:induction false} WeightsFactor(ms: seq<nat>, pl: seq<Placement>, w: seq<nat -> nat>)
    requires |ms| == |pl| && Positive(ms) && DimsBelow(pl, |w|)
    ensures Sum(WeightOf(ms, pl, w), Prod(ms)) == Prod(Totals(ms, pl, w)) * Copies(ms, pl)
  {
    if |ms| == 0 {
      var g := WeightOf(ms, pl, w);
      assert Sum(g, 1) == Sum(g, 0) + g(0);
      forall d | 0 <= d < |w|
        ensures Weights(ms, pl, w, Coord(ms, 0))[d] == Totals(ms, pl, w)[d]
      {
        assert Sum(w[d], 1) == Sum(w[d], 0) + w[d](0);
      }
      assert Weights(ms, pl, w, Coord(ms, 0)) == Totals(ms, pl, w);
    } else {
      var n := |ms| - 1;
      var ms', pl', m := ms[..n], pl[..n], ms[n];
      SumBlocks(WeightOf(ms, pl, w), Prod(ms'), m);
      assert Prod(ms) == Cell(Prod(ms'), m, 0);
      if pl[n].Shard? {
        var d := pl[n].dim;
        var w' := w[d := Grouped(w[d], m)];
        WeightsFactor(ms', pl', w');
        SumSameBelow(ms, pl, w, w');
        ShardedTotals(ms, pl, w, w');
      } else {
        WeightsFactor(ms', pl', w);
        ReplicatedSum(ms, pl, w);
        assert Totals(ms, pl, w) == Totals(ms', pl', w);
        MulAssoc(Prod(Totals(ms', pl', w)), Copies(ms', pl'), m);
      }
    }
  }

  lemma ReplicatedSum(ms: seq<nat>, pl: seq<Placement>, w: seq<nat -> nat>)
    requires |ms| == |pl| > 0 && Positive(ms) && !pl[|ms| - 1].Shard?
    ensures var n := |ms| - 1;
            Sum(Grouped(WeightOf(ms, pl, w), ms[n]), Prod(ms[..n])) ==
            Sum(WeightOf(ms[..n], pl[..n], w), Prod(ms[..n])) * ms[n]
  {
    var n := |ms| - 1;
    var ms', pl', m := ms[..n], pl[..n], ms[n];
    var g, g' := WeightOf(ms, pl, w), WeightOf(ms', pl', w);
    forall q: nat | q < Prod(ms') ensures Grouped(g, m)(q) == g'(q) * m {
      forall r: nat | r < m ensures Block(g, q, m)(r) == g'(q) {
        CoordStep(ms, q, r);
        WeightsStep(ms, pl, w, Coord(ms', q), r);
      }
      SumConstant(Block(g, q, m), g'(q), m);
    }
    SumScaled(g', Grouped(g, m), m, Prod(ms'));
  }

  lemma CoordStep(ms: seq<nat>, q: nat, r: nat)
    requires |ms| > 0 && Positive(ms) && r < ms[|ms| - 1]
    ensures Coord(ms, Cell(q, ms[|ms| - 1], r)) == Coord(ms[..|ms| - 1], q) + [r]
  {
    DivModUnique(q, r, ms[|ms| - 1]);
  }

  lemma WeightsStep(ms: seq<nat>, pl: seq<Placement>, w: seq<nat -> nat>, c: seq<nat>, r: nat)
    requires |ms| == |pl| == |c| + 1
    ensures !pl[|c|].Shard? ==> Weights(ms, pl, w, c + [r]) == Weights(ms[..|c|], pl[..|c|], w, c)
    ensures pl[|c|].Shard? && 0 <= pl[|c|].dim < |w| ==>
        var d := pl[|c|].dim;
        Weights(ms, pl, w, c + [r]) ==
        Weights(ms[..|c|], pl[..|c|], w, c)[d := w[d](Cell(Chunk(ms[..|c|], pl[..|c|], d, c), ms[|c|], r))]
  {
    assert (c + [r])[..|c|] == c;
    forall d | 0 <= d < |w|
      ensures Weights(ms, pl, w, c + [r])[d] ==
          var k := Chunk(ms[..|c|], pl[..|c|], d, c);
          w[d](if pl[|c|].IsShard(d) then Cell(k, ms[|c|], r) else k)
    {
    }
  }

  lemma SumSameBelow(ms: seq<nat>, pl: seq<Placement>, w: seq<nat -> nat>, w': seq<nat -> nat>)
    requires |ms| == |pl| > 0 && Positive(ms) && DimsBelow(pl, |w|) && pl[|ms| - 1].Shard?
    requires w' == w[pl[|ms| - 1].dim := Grouped(w[pl[|ms| - 1].dim], ms[|ms| - 1])]
    ensures var n := |ms| - 1;
            Sum(Grouped(WeightOf(ms, pl, w), ms[n]), Prod(ms[..n])) ==
            Sum(WeightOf(ms[..n], pl[..n], w'), Prod(ms[..n]))
  {
    var n := |ms| - 1;
    var ms', pl', m, d := ms[..n], pl[..n], ms[n], pl[n].dim;
    var g, g' := WeightOf(ms, pl, w), WeightOf(ms', pl', w');
    forall q: nat | q < Prod(ms') ensures Grouped(g, m)(q) == g'(q) {
      var c := Coord(ms', q);
      var v, inner := Weights(ms', pl', w, c), Block(w[d], Chunk(ms', pl', d, c), m);
      forall r: nat | r < m ensures Block(g, q, m)(r) == Prod(v[d := inner(r)]) {
        CoordStep(ms, q, r);
        WeightsStep(ms, pl, w, c, r);
      }
      SumOfProducts(v, d, inner, Block(g, q, m), m);
      assert v[d := Sum(inner, m)] == Weights(ms', pl', w', c);
    }
    SumSame(Grouped(g, m), g', Prod(ms'));
  }

  lemma ShardedTotals(ms: seq<nat>, pl: seq<Placement>, w: seq<nat -> nat>, w': seq<nat -> nat>)
    requires |ms| == |pl| > 0 && DimsBelow(pl, |w|) && pl[|ms| - 1].Shard?
    requires w' == w[pl[|ms| - 1].dim := Grouped(w[pl[|ms| - 1].dim], ms[|ms| - 1])]
    ensures Totals(ms, pl, w) == Totals(ms[..|ms| - 1], pl[..|ms| - 1], w')
  {
    var n := |ms| - 1;
    var d := pl[n].dim;
    var k := NumShards(ms[..n], pl[..n], d);
    SumBlocks(w[d], k, ms[n]);
    assert NumShards(ms, pl, d) == Cell(k, ms[n], 0);
  }

  // ---------------------------------------------------------------- main results

  function LocalCount(shape: seq<nat>, ms: seq<nat>, pl: seq<Placement>): nat -> nat
    requires |ms| == |pl| && Positive(ms)
  {
    (p: nat) => Prod(LocalShape(shape, ms, pl, Coord(ms, p)))
  }

  /**
   * Conservation, for even and uneven splits alike: the element counts of all devices add up to the
   * element count of the tensor times the number of copies the non-sharding axes make.
   */
  lemma ElementsConserved(shape: seq<nat>, ms: seq<nat>, pl: seq<Placement>)
    requires |ms| == |pl| && Positive(ms) && DimsExist(shape, pl)
    ensures Sum(LocalCount(shape, ms, pl), Prod(ms)) == Prod(shape) * Copies(ms, pl)
  {
    AllNumShardsPositive(ms, pl);
    var w: seq<nat -> nat> := seq(|shape|, d requires 0 <= d < |shape| => ChunkSizes(shape[d], NumShards(ms, pl, d)));
    forall p: nat | p < Prod(ms)
      ensures LocalCount(shape, ms, pl)(p) == WeightOf(ms, pl, w)(p)
    {
      assert LocalShape(shape, ms, pl, Coord(ms, p)) == Weights(ms, pl, w, Coord(ms, p));
    }
    SumSame(LocalCount(shape, ms, pl), WeightOf(ms, pl, w), Prod(ms));
    WeightsFactor(ms, pl, w);
    forall d | 0 <= d < |shape| ensures Totals(ms, pl, w)[d] == shape[d] {
      var n := NumShards(ms, pl, d);
      ShardSizesSum(w[d], shape[d], n, n);
      ShardsTile(shape[d], n);
    }
    assert Totals(ms, pl, w) == shape;
  }

  function ChunkSizes(size: nat, num: nat): nat -> nat
    requires num > 0
  {
    (k: nat) => ShardSize(size, num, k)
  }

  /** The placements that shard tensor dimension 0 on exactly the selected axes. */
  function Selecting(n: nat, sel: set<nat>): (pl: seq<Placement>)
    ensures |pl| == n
  {
    seq(n, i requires 0 <= i < n => if i in sel then Shard(0, -1) else Replicate)
  }

  /** The value IndexInSelectedDims computes for position p from row-major strides. */
  function Projection(ms: seq<nat>, sel: set<nat>, p: nat): nat
    requires Positive(ms)
  {
    StridesPositive(ms);
    KeepLength(Peel(p, RowMajorStrides(ms)), ms, sel);
    Dot(Keep(Peel(p, RowMajorStrides(ms)), sel), RowMajorStrides(Keep(ms, sel)))
  }

  function Hits(ms: seq<nat>, sel: set<nat>, v: nat): nat -> nat
    requires Positive(ms)
  {
    (p: nat) => if Projection(ms, sel, p) == v then 1 else 0
  }

  function Is(v: nat): nat -> nat {
    (k: nat) => if k == v then 1 else 0
  }

  /**
   * Projecting the positions of a mesh on selected axes reaches exactly the values below the product of
   * the selected sizes, each from the same number of positions: the product of the other sizes.
   */
  lemma ProjectionIsUniform(ms: seq<nat>, sel: set<nat>, v: nat)
    requires Positive(ms)
    ensures Sum(Hits(ms, sel, v), Prod(ms)) ==
        if v < Prod(Keep(ms, sel)) then Copies(ms, Selecting(|ms|, sel)) else 0
  {
    var pl := Selecting(|ms|, sel);
    forall p: nat | p < Prod(ms)
      ensures Hits(ms, sel, v)(p) == WeightOf(ms, pl, [Is(v)])(p)
    {
      HitIsWeight(ms, sel, v, p);
    }
    SumSame(Hits(ms, sel, v), WeightOf(ms, pl, [Is(v)]), Prod(ms));
    WeightsFactor(ms, pl, [Is(v)]);
    SelectedTotal(ms, sel, v);
  }

  lemma HitIsWeight(ms: seq<nat>, sel: set<nat>, v: nat, p: nat)
    requires Positive(ms) && p < Prod(ms)
    ensures Hits(ms, sel, v)(p) == WeightOf(ms, Selecting(|ms|, sel), [Is(v)])(p)
  {
    var pl, c := Selecting(|ms|, sel), Coord(ms, p);
    ProjectionChunk(ms, sel, p);
    ProdSingle(Is(v)(Chunk(ms, pl, 0, c)));
    assert Weights(ms, pl, [Is(v)], c) == [Is(v)(Chunk(ms, pl, 0, c))];
  }

  lemma SelectedTotal(ms: seq<nat>, sel: set<nat>, v: nat)
    requires Positive(ms)
    ensures Prod(Totals(ms, Selecting(|ms|, sel), [Is(v)])) == if v < Prod(Keep(ms, sel)) then 1 else 0
  {
    var pl := Selecting(|ms|, sel);
    ProjectionIsChunk(ms, pl, 0, ms, sel);
    var n := NumShards(ms, pl, 0);
    SumIs(v, n);
    ProdSingle(Sum(Is(v), n));
    assert Totals(ms, pl, [Is(v)]) == [Sum(Is(v), n)];
  }

  lemma ProjectionChunk(ms: seq<nat>, sel: set<nat>, p: nat)
    requires Positive(ms) && p < Prod(ms)
    ensures Projection(ms, sel, p) == Chunk(ms, Selecting(|ms|, sel), 0, Coord(ms, p))
  {
    PeelIsCoord(ms, p);
    ProjectionIsChunk(ms, Selecting(|ms|, sel), 0, Coord(ms, p), sel);
    DotIsIndex(Keep(ms, sel), Keep(Coord(ms, p), sel));
  }

  lemma ProdSingle(a: nat)
    ensures Prod([a]) == a
  {
    assert [a][..0] == [];
  }

  lemma SumIs(v: nat, n: nat)
    ensures Sum(Is(v), n) == if v < n then 1 else 0
  {
  }
}

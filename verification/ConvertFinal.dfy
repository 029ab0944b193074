/** What the devices hold at the end of a conversion, whatever they held on the way. If no axis moves from one
  * tensor dimension to another, a wrong step is never made good; if some do, wrong steps may cancel. */
module ConvertFinal {
  import opened MeshArithmetic
  import opened DistributedSpec
  import opened NestedSplit
  import opened ConvertOrder
  import opened ConvertLayout
  import opened Conversions
  import opened ConvertReplicate

  /** Axes are gathered and scattered, but none goes from one dimension to another. */
  predicate NoMoves(src: seq<Placement>, dst: seq<Placement>) {
    |src| == |dst| && forall i :: 0 <= i < |src| ==> src[i] == dst[i] || src[i].Replicate? || dst[i].Replicate?
  }

  /** The placements once everything is scattered and nothing gathered yet. */
  function Widest(src: seq<Placement>, dst: seq<Placement>): (r: seq<Placement>)
    requires |src| == |dst|
    ensures |r| == |src|
  {
    seq(|src|, i requires 0 <= i < |src| && |src| == |dst| => if src[i].Replicate? then dst[i] else src[i])
  }

  /** A conversion without moves, of sizes that are cut evenly. */
  ghost predicate EvenConversion(layout: Layout, shape: seq<nat>, ms: seq<nat>, src: seq<Placement>, dst: seq<Placement>,
                                 order: seq<nat>)
  {
    && |src| == |dst| == |ms| && NoMoves(src, dst) && OrderRight(src, dst, order)
    && Accepted(shape, ms, Widest(src, dst)) && EvenSplit(shape, ms, Widest(src, dst))
    && Canonical(layout, shape, ms, src)
  }

  lemma WidestOnTheWay(src: seq<Placement>, dst: seq<Placement>, order: seq<nat>, k: nat)
    requires NoMoves(src, dst) && k <= |order| && forall p :: 0 <= p < |order| ==> order[p] < |src|
    ensures Thinned(PlacementsAfter(src, dst, order, k), Widest(src, dst))
  {
    forall j | 0 <= j < |src|
      ensures PlacementsAfter(src, dst, order, k)[j] in {Widest(src, dst)[j], Replicate}
    {
      OldOrNew(src, dst, order, k, j);
    }
  }

  lemma AlwaysAccepted(layout: Layout, shape: seq<nat>, ms: seq<nat>, src: seq<Placement>, dst: seq<Placement>, order: seq<nat>)
    requires EvenConversion(layout, shape, ms, src, dst, order)
    ensures AcceptedOnTheWay(shape, ms, src, dst, order)
    ensures forall k: nat :: k <= |order| ==> EvenSplit(shape, ms, PlacementsAfter(src, dst, order, k))
  {
    forall k: nat | k <= |order|
      ensures Accepted(shape, ms, PlacementsAfter(src, dst, order, k))
      ensures EvenSplit(shape, ms, PlacementsAfter(src, dst, order, k))
    {
      WidestOnTheWay(src, dst, order, k);
      ThinnedAccepted(shape, ms, PlacementsAfter(src, dst, order, k), Widest(src, dst));
      ThinnedEven(shape, ms, PlacementsAfter(src, dst, order, k), Widest(src, dst));
    }
  }

  // ---------------------------------------------------------------- counting chunks

  /** Whatever cuts dimension `d` in `pl` does so in `ql`. */
  predicate CutsLess(pl: seq<Placement>, ql: seq<Placement>, d: int) {
    |pl| == |ql| && forall j :: 0 <= j < |pl| && pl[j].IsShard(d) ==> ql[j].IsShard(d)
  }

  lemma {:induction false} FewerShards(ms: seq<nat>, pl: seq<Placement>, ql: seq<Placement>, d: int)
    requires |ms| == |pl| && Positive(ms) && CutsLess(pl, ql, d)
    ensures NumShards(ms, pl, d) <= NumShards(ms, ql, d)
  {
    if |ms| > 0 {
      var n := |ms| - 1;
      FewerShards(ms[..n], pl[..n], ql[..n], d);
      if ql[n].IsShard(d) {
        var a, b := NumShards(ms[..n], pl[..n], d), NumShards(ms[..n], ql[..n], d);
        MulMono(a, b, ms[n]);
        MulMono(1, ms[n], a);
      }
    }
  }

  lemma {:induction false} LessShards(ms: seq<nat>, pl: seq<Placement>, ql: seq<Placement>, d: int, j: nat)
    requires |ms| == |pl| && Positive(ms) && CutsLess(pl, ql, d)
    requires j < |ms| && ms[j] >= 2 && ql[j].IsShard(d) && !pl[j].IsShard(d)
    ensures NumShards(ms, pl, d) < NumShards(ms, ql, d)
  {
    var n := |ms| - 1;
    var a, b := NumShards(ms[..n], pl[..n], d), NumShards(ms[..n], ql[..n], d);
    var x, y := if pl[n].IsShard(d) then ms[n] else 1, if ql[n].IsShard(d) then ms[n] else 1;
    assert NumShards(ms, pl, d) == a * x && NumShards(ms, ql, d) == b * y;
    if j < n {
      LessShards(ms[..n], pl[..n], ql[..n], d, j);
      TimesLess(a, b, x, y);
    } else {
      FewerShards(ms[..n], pl[..n], ql[..n], d);
      NumShardsPositive(ms[..n], ql[..n], d);
      TimesMore(a, b, y);
    }
  }

  lemma TimesMore(a: nat, b: nat, m: nat)
    requires a <= b && b > 0 && m >= 2
    ensures a * 1 < b * m
  {
    MulMono(2, m, b);
  }

  lemma TimesLess(a: nat, b: nat, k: nat, m: nat)
    requires a < b && 0 < k <= m
    ensures a * k < b * m
  {
    MulMono(a + 1, b, k);
    MulMono(k, m, b);
  }

  /** The axes up to `i` only. */
  function Front(pl: seq<Placement>, i: nat): (r: seq<Placement>)
    ensures |r| == |pl|
  {
    seq(|pl|, j requires 0 <= j < |pl| => if j <= i then pl[j] else Replicate)
  }

  lemma FrontShards(ms: seq<nat>, pl: seq<Placement>, d: int, i: nat)
    requires |ms| == |pl| && i < |ms|
    ensures NumShards(ms, pl, d) == NumShards(ms, Front(pl, i), d) * NumShards(ms[i + 1..], pl[i + 1..], d)
  {
    AtAxis(ms, pl, d, ms, i);
    AtAxis(ms, Front(pl, i), d, ms, i);
    NothingLater(ms, Front(pl, i), d, ms, i);
    assert Front(pl, i)[..i] == pl[..i];
  }

  lemma SameQuotient(size: nat, a: nat, b: nat)
    requires size > 0 && a > 0 && b > 0 && size % a == 0 && size % b == 0 && size / a == size / b
    ensures a == b
  {
    var l := size / a;
    DivRem(size, a);
    DivRem(size, b);
    assert l > 0;
    MulMono(a + 1, b, l);
    MulMono(b + 1, a, l);
  }

  /** Where the chunk starts that is `w` chunks on, when there are `w` times `p` of them. */
  lemma EvenStart(size: nat, p: nat, w: nat)
    requires p > 0 && w > 0 && p * w > 0 && size % (p * w) == 0
    ensures size % p == 0 && ShardOffset(size, p * w, w) == size / p
  {
    var l := size / (p * w);
    DivRem(size, p * w);
    assert l * (p * w) == (w * l) * p;
    DivModUnique(w * l, 0, p);
  }

  // ---------------------------------------------------------------- the first index a device holds

  /** The step along another axis leaves the first index of a device that is first on that axis. */
  lemma HeadStays(layout: Layout, ms: seq<nat>, j: nat, p: Placement, q: Placement, e: seq<nat>, d: nat)
    requires j < |e| == |ms| && e[j] == 0 && ms[j] > 0 && (p.Replicate? || q.Replicate?) && |layout(e, d)| > 0
    ensures |Converted(layout, ms, j, p, q)(e, d)| > 0 && Converted(layout, ms, j, p, q)(e, d)[0] == layout(e, d)[0]
  {
    if p.IsShard(d) && q.Replicate? {
      assert e[j := 0] == e;
      assert Pieces(layout, e, j, d, 1) == layout(e, d);
      PiecesPrefix(layout, e, j, d, 1, ms[j]);
    } else if p.Replicate? && q.IsShard(d) {
      var l := |layout(e, d)|;
      ZeroOffset(l, ms[j]);
      NextOffset(l, ms[j], 0);
      FirstNotEmpty(l, ms[j]);
      PieceBound(l, 0, ms[j]);
    }
  }

  lemma NextLayout(layout: Layout, ms: seq<nat>, src: seq<Placement>, dst: seq<Placement>, order: seq<nat>, k: nat)
    requires |src| == |dst| && k < |order| && OrderRight(src, dst, order)
    ensures LayoutAfter(layout, ms, src, dst, order, k + 1) ==
      Converted(LayoutAfter(layout, ms, src, dst, order, k), ms, order[k], src[order[k]], dst[order[k]])
  {
    StepIsAxis(src, dst, order, k);
  }

  lemma {:induction false} HeadKept(layout: Layout, ms: seq<nat>, src: seq<Placement>, dst: seq<Placement>, order: seq<nat>,
                                    i: nat, d: nat, from: nat, k: nat)
    requires |src| == |dst| == |ms| && Positive(ms) && NoMoves(src, dst) && OrderRight(src, dst, order) && i < |ms|
    requires from <= k <= |order| && forall p :: from <= p < k ==> order[p] != i
    requires |LayoutAfter(layout, ms, src, dst, order, from)(Unit(|ms|, i), d)| > 0
    ensures |LayoutAfter(layout, ms, src, dst, order, k)(Unit(|ms|, i), d)| > 0
    ensures LayoutAfter(layout, ms, src, dst, order, k)(Unit(|ms|, i), d)[0] ==
      LayoutAfter(layout, ms, src, dst, order, from)(Unit(|ms|, i), d)[0]
    decreases k
  {
    if from < k {
      HeadKept(layout, ms, src, dst, order, i, d, from, k - 1);
      var j, e := order[k - 1], Unit(|ms|, i);
      NextLayout(layout, ms, src, dst, order, k - 1);
      assert order[k - 1] != i && e[j] == 0;
      HeadStays(LayoutAfter(layout, ms, src, dst, order, k - 1), ms, j, src[j], dst[j], e, d);
    }
  }

  /** An axis that keeps cutting dimension `d`: what its second device starts with at the end. */
  lemma HeadOfKept(layout: Layout, shape: seq<nat>, ms: seq<nat>, src: seq<Placement>, dst: seq<Placement>, order: seq<nat>,
                   i: nat, d: nat)
    requires EvenConversion(layout, shape, ms, src, dst, order) && i < |ms| && d < |shape|
    requires src[i] == dst[i] && src[i].IsShard(d)
    ensures ms[i] >= 2 && NumShards(ms, Front(src, i), d) > 0 && shape[d] % NumShards(ms, Front(src, i), d) == 0
    ensures var held := LayoutAfter(layout, ms, src, dst, order, |order|)(Unit(|ms|, i), d);
      |held| > 0 && held[0] == shape[d] / NumShards(ms, Front(src, i), d)
  {
    AlwaysAccepted(layout, shape, ms, src, dst, order);
    assert Accepted(shape, ms, PlacementsAfter(src, dst, order, 0)) && EvenSplit(shape, ms, PlacementsAfter(src, dst, order, 0));
    SecondStarts(layout, shape, ms, src, i, d);
    forall p | 0 <= p < |order|
      ensures order[p] != i
    {
      assert Occurs(order, order[p]);
    }
    HeadKept(layout, ms, src, dst, order, i, d, 0, |order|);
  }

  /** In a canonical layout, what the second device along an axis starts with. */
  lemma SecondStarts(layout: Layout, shape: seq<nat>, ms: seq<nat>, pl: seq<Placement>, i: nat, d: nat)
    requires Accepted(shape, ms, pl) && EvenSplit(shape, ms, pl) && i < |ms| && d < |shape| && pl[i].IsShard(d)
    requires CanonicalAlong(layout, shape, ms, pl, d)
    ensures ms[i] >= 2 && NumShards(ms, Front(pl, i), d) > 0 && shape[d] % NumShards(ms, Front(pl, i), d) == 0
    ensures |layout(Unit(|ms|, i), d)| > 0 && layout(Unit(|ms|, i), d)[0] == shape[d] / NumShards(ms, Front(pl, i), d)
  {
    var n, w := NumShards(ms, pl, d), NumShards(ms[i + 1..], pl[i + 1..], d);
    AcceptedSize(shape, ms, pl, i);
    UnitInBounds(ms, i);
    UnitChunk(ms, pl, d, Unit(|ms|, i), i);
    FrontShards(ms, pl, d, i);
    NumShardsPositive(ms, pl, d);
    NumShardsPositive(ms[i + 1..], pl[i + 1..], d);
    NumShardsPositive(ms, Front(pl, i), d);
    EvenStart(shape[d], NumShards(ms, Front(pl, i), d), w);
    WidthInside(ms, pl, i, d);
    ShardSizesFair(shape[d], n, w, w);
    assert HoldsChunk(layout(Unit(|ms|, i), d), shape[d], ms, pl, d, Unit(|ms|, i));
  }

  /** Before its own step, an axis that is going to be scattered is preceded by scatters only. */
  lemma ScattersBefore(src: seq<Placement>, dst: seq<Placement>, order: seq<nat>, k: nat, p: nat)
    requires NoMoves(src, dst) && OrderRight(src, dst, order) && ShardOrReplicate(Widest(src, dst))
    requires p < k < |order| && src[order[k]].Replicate?
    ensures src[order[p]].Replicate? && dst[order[p]].Shard? && order[p] < order[k]
  {
    assert Occurs(order, order[p]) && Precedes(src, dst, order[p], order[k]);
    var w := Widest(src, dst)[order[p]];
    assert w.Shard? || w.Replicate?;
  }

  /** Until its own step comes, its second device holds what the first one holds. */
  lemma {:induction false} HeldBefore(layout: Layout, shape: seq<nat>, ms: seq<nat>, src: seq<Placement>, dst: seq<Placement>,
                                      order: seq<nat>, k: nat, d: nat, p: nat)
    requires EvenConversion(layout, shape, ms, src, dst, order) && p <= k < |order| && d < |shape|
    requires src[order[k]].Replicate? && ms[order[k]] >= 2
    ensures NumShards(ms, PlacementsAfter(src, dst, order, p), d) > 0
    ensures LayoutAfter(layout, ms, src, dst, order, p)(Unit(|ms|, order[k]), d) ==
      Interval(0, ShardSize(shape[d], NumShards(ms, PlacementsAfter(src, dst, order, p), d), 0))
    decreases p
  {
    var e := Unit(|ms|, order[k]);
    NumShardsPositive(ms, PlacementsAfter(src, dst, order, p), d);
    UnitInBounds(ms, order[k]);
    if p == 0 {
      UnitChunk(ms, src, d, e, order[k]);
      ZeroOffset(shape[d], NumShards(ms, src, d));
      assert CanonicalAlong(layout, shape, ms, src, d);
      assert HoldsChunk(layout(e, d), shape[d], ms, src, d, e);
    } else {
      HeldBefore(layout, shape, ms, src, dst, order, k, d, p - 1);
      ScattersBefore(src, dst, order, k, p - 1);
      StepIsAxis(src, dst, order, p - 1);
      ScatterFirst(LayoutAfter(layout, ms, src, dst, order, p - 1), shape, ms, PlacementsAfter(src, dst, order, p - 1),
                   order[p - 1], dst[order[p - 1]], d, e);
    }
  }

  /** A scatter along another axis, for a device that is first on that axis. */
  lemma ScatterFirst(layout: Layout, shape: seq<nat>, ms: seq<nat>, pl: seq<Placement>, j: nat, q: Placement, d: nat, e: seq<nat>)
    requires |ms| == |pl| == |e| && Positive(ms) && j < |ms| && d < |shape| && e[j] == 0
    requires pl[j].Replicate? && q.Shard? && (q.IsShard(d) ==> ms[j] >= 2)
    requires NumShards(ms, pl, d) > 0 && layout(e, d) == Interval(0, ShardSize(shape[d], NumShards(ms, pl, d), 0))
    ensures NumShards(ms, pl[j := q], d) > 0
    ensures Converted(layout, ms, j, pl[j], q)(e, d) == Interval(0, ShardSize(shape[d], NumShards(ms, pl[j := q], d), 0))
  {
    var n := NumShards(ms, pl, d);
    NumShardsPositive(ms, pl[j := q], d);
    if q.IsShard(d) {
      MoreShards(ms, pl, j, q, d);
      var l := ShardSize(shape[d], n, 0);
      PieceOfInterval(0, l, ms[j], 0);
      ZeroOffset(l, ms[j]);
      FirstPiece(shape[d], n, ms[j]);
    } else {
      OtherDimension([], shape[d], ms, pl, j, q, d, e);
    }
  }

  /** An axis that comes to cut dimension `d`: what its second device starts with at the end. */
  lemma HeadOfSpread(layout: Layout, shape: seq<nat>, ms: seq<nat>, src: seq<Placement>, dst: seq<Placement>, order: seq<nat>,
                     k: nat, d: nat)
    requires EvenConversion(layout, shape, ms, src, dst, order) && k < |order| && d < |shape|
    requires src[order[k]].Replicate? && dst[order[k]].IsShard(d)
    ensures var n := NumShards(ms, PlacementsAfter(src, dst, order, k + 1), d);
      n > 0 && shape[d] % n == 0 && shape[d] > 0
    ensures var held := LayoutAfter(layout, ms, src, dst, order, |order|)(Unit(|ms|, order[k]), d);
      |held| > 0 && held[0] == shape[d] / NumShards(ms, PlacementsAfter(src, dst, order, k + 1), d)
  {
    var i := order[k];
    AlwaysAccepted(layout, shape, ms, src, dst, order);
    StepIsAxis(src, dst, order, k);
    AcceptedSize(shape, ms, PlacementsAfter(src, dst, order, k + 1), i);
    HeldBefore(layout, shape, ms, src, dst, order, k, d, k);
    ScatterSecond(LayoutAfter(layout, ms, src, dst, order, k), shape, ms, PlacementsAfter(src, dst, order, k), i, dst[i], d);
    forall p | k + 1 <= p < |order|
      ensures order[p] != i
    {
      assert Precedes(src, dst, order[k], order[p]);
    }
    HeadKept(layout, ms, src, dst, order, i, d, k + 1, |order|);
  }

  /** The scatter along its own axis: the second device's piece starts where the first one's ends. */
  lemma ScatterSecond(layout: Layout, shape: seq<nat>, ms: seq<nat>, pl: seq<Placement>, i: nat, q: Placement, d: nat)
    requires |ms| == |pl| && Positive(ms) && i < |ms| && d < |shape| && ms[i] >= 2
    requires pl[i].Replicate? && q.IsShard(d)
    requires NumShards(ms, pl, d) > 0
    requires layout(Unit(|ms|, i), d) == Interval(0, ShardSize(shape[d], NumShards(ms, pl, d), 0))
    requires NumShards(ms, pl[i := q], d) > 0 && shape[d] % NumShards(ms, pl[i := q], d) == 0
    requires shape[d] >= NumShards(ms, pl[i := q], d)
    ensures var held := Converted(layout, ms, i, pl[i], q)(Unit(|ms|, i), d);
      |held| > 0 && held[0] == shape[d] / NumShards(ms, pl[i := q], d)
  {
    var n := NumShards(ms, pl, d);
    var l := ShardSize(shape[d], n, 0);
    MoreShards(ms, pl, i, q, d);
    PieceOfInterval(0, l, ms[i], 1);
    ZeroOffset(l, ms[i]);
    NextOffset(l, ms[i], 0);
    FirstPiece(shape[d], n, ms[i]);
    SecondPieceEven(shape[d], n, ms[i]);
  }

  lemma SecondPieceEven(size: nat, n: nat, m: nat)
    requires n > 0 && m >= 2 && n * m > 0 && size % (n * m) == 0 && size >= n * m
    ensures ShardSize(ShardSize(size, n, 0), m, 1) > 0
    ensures ShardSize(size, n * m, 0) == size / (n * m)
  {
    var l := size / (n * m);
    DivRem(size, n * m);
    assert l * (n * m) == (l * m) * n;
    DivModUnique(l * m, 0, n);
    DivModUnique(l, 0, m);
    assert l > 0;
  }

  // ---------------------------------------------------------------- a canonical end

  /** If the end is canonical, a scattered axis has no axis behind it, and no axis that was gathered, that cut
    * its dimension at the start. */
  lemma SpreadAlone(layout: Layout, shape: seq<nat>, ms: seq<nat>, src: seq<Placement>, dst: seq<Placement>, order: seq<nat>,
                    k: nat, d: nat, x: nat)
    requires EvenConversion(layout, shape, ms, src, dst, order) && k < |order| && d < |shape| && x < |src|
    requires src[order[k]].Replicate? && dst[order[k]].IsShard(d)
    requires src[x].IsShard(d) && (x > order[k] || dst[x].Replicate?)
    ensures !Canonical(LayoutAfter(layout, ms, src, dst, order, |order|), shape, ms, dst)
  {
    var i, pl := order[k], PlacementsAfter(src, dst, order, k + 1);
    var final := LayoutAfter(layout, ms, src, dst, order, |order|);
    HeadOfSpread(layout, shape, ms, src, dst, order, k, d);
    AlwaysAccepted(layout, shape, ms, src, dst, order);
    EndsAt(src, dst, order);
    assert Widest(src, dst)[x] == src[x];
    StillThere(src, dst, order, k, x);
    AllBefore(src, dst, order, k, d);
    LessShards(ms, Front(dst, i), pl, d, x);
    if CanonicalAlong(final, shape, ms, dst, d) {
      SecondStarts(final, shape, ms, dst, i, d);
      SameQuotient(shape[d], NumShards(ms, Front(dst, i), d), NumShards(ms, pl, d));
    }
  }

  /** Right after an axis is scattered, the axes behind it and those yet to be gathered are as in the source. */
  lemma StillThere(src: seq<Placement>, dst: seq<Placement>, order: seq<nat>, k: nat, x: nat)
    requires NoMoves(src, dst) && OrderRight(src, dst, order) && ShardOrReplicate(Widest(src, dst))
    requires k < |order| && x < |src| && src[order[k]].Replicate? && src[x].Shard?
    ensures PlacementsAfter(src, dst, order, k + 1)[x] == src[x]
  {
    BeforeStep(src, dst, order, k + 1, x);
    if Occurs(order[..k + 1], x) {
      var p :| 0 <= p < k + 1 && order[..k + 1][p] == x;
      if p < k {
        ScattersBefore(src, dst, order, k, p);
      }
    }
  }

  /** Right after an axis is scattered, every axis up to it that cuts the dimension in the end does so already. */
  lemma AllBefore(src: seq<Placement>, dst: seq<Placement>, order: seq<nat>, k: nat, d: nat)
    requires NoMoves(src, dst) && OrderRight(src, dst, order) && k < |order| && src[order[k]].Replicate?
    ensures CutsLess(Front(dst, order[k]), PlacementsAfter(src, dst, order, k + 1), d)
  {
    HigherLater(src, dst, order, k);
    EarlierOccur(order, k + 1);
    forall j: nat | j < |src| && Front(dst, order[k])[j].IsShard(d)
      ensures PlacementsAfter(src, dst, order, k + 1)[j].IsShard(d)
    {
      BeforeStep(src, dst, order, k + 1, j);
      if src[j] != dst[j] {
        assert Occurs(order, j);
        var p :| 0 <= p < |order| && order[p] == j;
        assert p < k + 1;
      }
    }
  }

  lemma HigherLater(src: seq<Placement>, dst: seq<Placement>, order: seq<nat>, k: nat)
    requires |src| == |dst| && OrderRight(src, dst, order) && k < |order| && src[order[k]].Replicate?
    ensures forall p :: k < p < |order| ==> IsGather(src[order[p]], dst[order[p]]) || order[p] > order[k]
  {
    forall p | k < p < |order|
      ensures IsGather(src[order[p]], dst[order[p]]) || order[p] > order[k]
    {
      assert Precedes(src, dst, order[k], order[p]);
    }
  }

  /** If the end is canonical, a gathered axis has no axis left behind it that cuts its dimension. */
  lemma GatherAlone(layout: Layout, shape: seq<nat>, ms: seq<nat>, src: seq<Placement>, dst: seq<Placement>, order: seq<nat>,
                    i: nat, j: nat, d: nat)
    requires EvenConversion(layout, shape, ms, src, dst, order) && i < j < |src| && d < |shape|
    requires src[i].IsShard(d) && dst[i].Replicate? && src[j] == dst[j] && dst[j].IsShard(d)
    requires forall k: nat :: k < |order| && src[order[k]].Replicate? && dst[order[k]].IsShard(d) ==> order[k] > j
    ensures !Canonical(LayoutAfter(layout, ms, src, dst, order, |order|), shape, ms, dst)
  {
    var final := LayoutAfter(layout, ms, src, dst, order, |order|);
    HeadOfKept(layout, shape, ms, src, dst, order, j, d);
    AlwaysAccepted(layout, shape, ms, src, dst, order);
    EndsAt(src, dst, order);
    assert Widest(src, dst)[i] == src[i] && Widest(src, dst)[j] == src[j];
    AcceptedSize(shape, ms, Widest(src, dst), j);
    NumShardsPositive(ms, Widest(src, dst), d);
    NoneSpread(src, dst, order, j, d);
    LessShards(ms, Front(dst, j), Front(src, j), d, i);
    if CanonicalAlong(final, shape, ms, dst, d) {
      SecondStarts(final, shape, ms, dst, j, d);
      SameQuotient(shape[d], NumShards(ms, Front(dst, j), d), NumShards(ms, Front(src, j), d));
    }
  }

  lemma NoneSpread(src: seq<Placement>, dst: seq<Placement>, order: seq<nat>, j: nat, d: nat)
    requires NoMoves(src, dst) && OrderRight(src, dst, order) && j < |src|
    requires forall k: nat :: k < |order| && src[order[k]].Replicate? && dst[order[k]].IsShard(d) ==> order[k] > j
    ensures CutsLess(Front(dst, j), Front(src, j), d)
  {
    forall x: nat | x < |src| && Front(dst, j)[x].IsShard(d)
      ensures Front(src, j)[x].IsShard(d)
    {
      if src[x] != dst[x] {
        assert Occurs(order, x);
        var k: nat :| k < |order| && order[k] == x;
      }
    }
  }

  /** One unsafe axis spoils the end. */
  lemma UnsafeSpoils(layout: Layout, shape: seq<nat>, ms: seq<nat>, src: seq<Placement>, dst: seq<Placement>, order: seq<nat>,
                     i: nat)
    requires EvenConversion(layout, shape, ms, src, dst, order) && i < |src| && src[i] != dst[i] && !SafeAxis(src, dst, i)
    ensures !Canonical(LayoutAfter(layout, ms, src, dst, order, |order|), shape, ms, dst)
  {
    assert Occurs(order, i);
    var k: nat :| k < |order| && order[k] == i;
    var w := Widest(src, dst)[i];
    assert w.Shard? && 0 <= w.dim < |shape|;
    var d: nat := w.dim;
    if src[i].Replicate? {
      var x: nat :| i < x < |src| && src[x].IsShard(d);
      SpreadAlone(layout, shape, ms, src, dst, order, k, d, x);
    } else {
      var j: nat :| i < j < |dst| && dst[j].IsShard(d);
      assert Occurs(order, j) <==> src[j] != dst[j];
      if x: nat :| x < |order| && src[order[x]].Replicate? && dst[order[x]].IsShard(d) {
        SpreadAlone(layout, shape, ms, src, dst, order, x, d, i);
      } else {
        GatherAlone(layout, shape, ms, src, dst, order, i, j, d);
      }
    }
  }

  /** Even sizes fit every step. */
  lemma EvenFits(layout: Layout, shape: seq<nat>, ms: seq<nat>, src: seq<Placement>, dst: seq<Placement>, order: seq<nat>)
    requires EvenConversion(layout, shape, ms, src, dst, order) && AcceptedOnTheWay(shape, ms, src, dst, order)
    ensures FitsOnTheWay(shape, ms, src, dst, order)
  {
    AlwaysAccepted(layout, shape, ms, src, dst, order);
    forall k: nat | k < |order|
      ensures FitsAt(shape, ms, src, dst, order, k)
    {
      StepOnTheWay(shape, ms, src, dst, order, k);
      assert PlacementsAfter(src, dst, order, k + 1) == PlacementsAfter(src, dst, order, k)[order[k] := dst[order[k]]];
      EvenStep(shape, ms, PlacementsAfter(src, dst, order, k), order[k], dst[order[k]]);
    }
  }

  lemma EvenStep(shape: seq<nat>, ms: seq<nat>, pl: seq<Placement>, i: nat, q: Placement)
    requires IsStep(shape, ms, pl, i, q) && EvenSplit(shape, ms, pl) && EvenSplit(shape, ms, pl[i := q])
    ensures StepFits(shape, ms, pl, i, q)
  {
    assert pl[i := q][i] == q;
    if pl[i].Shard? {
      var d := pl[i].dim;
      assert pl[i := Replicate][i := pl[i]] == pl;
      MoreShards(ms, pl[i := Replicate], i, pl[i], d);
      assert shape[d] % NumShards(ms, pl, d) == 0;
    }
    if q.Shard? {
      assert !pl[i].IsShard(q.dim);
      MoreShards(ms, pl, i, q, q.dim);
      assert shape[q.dim] % NumShards(ms, pl[i := q], q.dim) == 0;
    }
  }

  /** Without moves, and for even sizes, the end of a conversion is canonical if and only if source and
    * destination meet the condition: no wrong step is ever made good. */
  lemma FinalExactly(layout: Layout, shape: seq<nat>, ms: seq<nat>, src: seq<Placement>, dst: seq<Placement>, order: seq<nat>)
    requires EvenConversion(layout, shape, ms, src, dst, order)
    ensures Canonical(LayoutAfter(layout, ms, src, dst, order, |order|), shape, ms, dst) <==> SafeConversion(src, dst)
  {
    if SafeConversion(src, dst) {
      AlwaysAccepted(layout, shape, ms, src, dst, order);
      EvenFits(layout, shape, ms, src, dst, order);
      ConversionExactly(layout, shape, ms, src, dst, order);
      EndsAt(src, dst, order);
    } else {
      var i: nat :| i < |src| && src[i] != dst[i] && !SafeAxis(src, dst, i);
      UnsafeSpoils(layout, shape, ms, src, dst, order, i);
    }
  }

  // ---------------------------------------------------------------- with moves

  lemma ThreeAxes(ms: seq<nat>, pl: seq<Placement>, d: int, c: seq<nat>)
    requires |ms| == |pl| == |c| == 3
    ensures NumShards(ms, pl, d) == ((if pl[0].IsShard(d) then ms[0] else 1) * (if pl[1].IsShard(d) then ms[1] else 1))
      * if pl[2].IsShard(d) then ms[2] else 1
    ensures var q := if pl[0].IsShard(d) then c[0] else 0;
      var r := if pl[1].IsShard(d) then q * ms[1] + c[1] else q;
      Chunk(ms, pl, d, c) == if pl[2].IsShard(d) then r * ms[2] + c[2] else r
  {
    TwoAxes(ms[0], ms[1], pl[0], pl[1], d, c[0], c[1]);
    assert ms[..2] == [ms[0], ms[1]] && pl[..2] == [pl[0], pl[1]] && c[..2] == [c[0], c[1]];
  }

  /** The axes of the example: the first one moves from dimension 0 to dimension 1, then the second one comes
    * to cut dimension 0, and the third one cuts it throughout. */
  predicate Example(shape: seq<nat>, ms: seq<nat>, src: seq<Placement>, dst: seq<Placement>, order: seq<nat>) {
    && shape == [4, 2] && ms == [2, 2, 2] && order == [0, 1]
    && src == [Shard(0, -1), Replicate, Shard(0, -1)] && dst == [Shard(1, -1), Shard(0, -1), Shard(0, -1)]
  }

  lemma ExamplePlacements(src: seq<Placement>, dst: seq<Placement>, order: seq<nat>)
    requires order == [0, 1]
    requires src == [Shard(0, -1), Replicate, Shard(0, -1)] && dst == [Shard(1, -1), Shard(0, -1), Shard(0, -1)]
    ensures PlacementsAfter(src, dst, order, 1) == [Shard(1, -1), Replicate, Shard(0, -1)]
    ensures PlacementsAfter(src, dst, order, 2) == dst
  {
    assert order[0] == 0 && order[1] == 1;
    assert PlacementsAfter(src, dst, order, 1) == src[0 := dst[0]] == [Shard(1, -1), Replicate, Shard(0, -1)];
    assert PlacementsAfter(src, dst, order, 2) == PlacementsAfter(src, dst, order, 1)[1 := dst[1]] == dst;
  }

  lemma ExampleAllowed(shape: seq<nat>, ms: seq<nat>, src: seq<Placement>, dst: seq<Placement>, order: seq<nat>)
    requires Example(shape, ms, src, dst, order)
    ensures OrderRight(src, dst, order) && AcceptedOnTheWay(shape, ms, src, dst, order) && !SafeConversion(src, dst)
  {
    assert order[0] == 0 && order[1] == 1;
    assert !SafeAxis(src, dst, 0) by { assert src[2].IsShard(0); }
    ExamplePlacements(src, dst, order);
    ExampleAccepted(shape, ms, src);
    ExampleAccepted(shape, ms, PlacementsAfter(src, dst, order, 1));
    ExampleAccepted(shape, ms, dst);
  }

  lemma ExampleAccepted(shape: seq<nat>, ms: seq<nat>, pl: seq<Placement>)
    requires shape == [4, 2] && ms == [2, 2, 2] && |pl| == 3
    requires pl[0] in {Shard(0, -1), Shard(1, -1)} && pl[1] in {Replicate, Shard(0, -1)} && pl[2] == Shard(0, -1)
    requires pl[0] == Shard(0, -1) ==> pl[1] == Replicate
    ensures Accepted(shape, ms, pl)
  {
    ThreeAxes(ms, pl, 0, [0, 0, 0]);
    ThreeAxes(ms, pl, 1, [0, 0, 0]);
  }

  /** What each device holds after the first step, and at the end. */
  lemma ExampleSteps(shape: seq<nat>, ms: seq<nat>, src: seq<Placement>, dst: seq<Placement>, order: seq<nat>, layout: Layout,
                     c: seq<nat>)
    requires Example(shape, ms, src, dst, order) && layout == OwnChunks(shape, ms, src) && InBounds(c, ms)
    ensures LayoutAfter(layout, ms, src, dst, order, 1)(c, 0) == [c[2], 2 + c[2]]
    ensures LayoutAfter(layout, ms, src, dst, order, 2)(c, 0) == [2 * c[1] + c[2]]
    ensures LayoutAfter(layout, ms, src, dst, order, 2)(c, 1) == [c[0]]
  {
    assert order[0] == 0 && order[1] == 1;
    ExampleAllowed(shape, ms, src, dst, order);
    NextLayout(layout, ms, src, dst, order, 0);
    NextLayout(layout, ms, src, dst, order, 1);
    ExampleStart(shape, ms, src, layout, c);
    ExampleStart(shape, ms, src, layout, c[0 := 0]);
    ExampleStart(shape, ms, src, layout, c[0 := 1]);
    ExampleExchange(layout, ms, c);
    ExampleScatter(LayoutAfter(layout, ms, src, dst, order, 1), ms, c);
  }

  lemma ExampleExchange(layout: Layout, ms: seq<nat>, c: seq<nat>)
    requires ms == [2, 2, 2] && InBounds(c, ms)
    requires layout(c[0 := 0], 0) == [c[2]] && layout(c[0 := 1], 0) == [2 + c[2]] && layout(c[0 := 0], 1) == [0, 1]
    ensures Exchanged(layout, ms, 0, 0, 1)(c, 0) == [c[2], 2 + c[2]] && Exchanged(layout, ms, 0, 0, 1)(c, 1) == [c[0]]
  {
    assert ReceivedParts(layout, ms, 0, 0, 1, c, 1) == [c[2]];
    assert ReceivedParts(layout, ms, 0, 0, 1, c, 2) == [c[2], 2 + c[2]];
    assert Exchanged(layout, ms, 0, 0, 1)(c, 1) == SplitPiece([0, 1], c[0], 2);
  }

  lemma ExampleScatter(once: Layout, ms: seq<nat>, c: seq<nat>)
    requires ms == [2, 2, 2] && InBounds(c, ms) && once(c, 0) == [c[2], 2 + c[2]]
    ensures Scattered(once, ms, 1, 0)(c, 0) == [2 * c[1] + c[2]] && Scattered(once, ms, 1, 0)(c, 1) == once(c, 1)
  {
    assert Scattered(once, ms, 1, 0)(c, 0) == SplitPiece([c[2], 2 + c[2]], c[1], 2);
  }

  lemma ExampleStart(shape: seq<nat>, ms: seq<nat>, src: seq<Placement>, layout: Layout, c: seq<nat>)
    requires shape == [4, 2] && ms == [2, 2, 2] && src == [Shard(0, -1), Replicate, Shard(0, -1)]
    requires layout == OwnChunks(shape, ms, src) && InBounds(c, ms)
    ensures layout(c, 0) == [2 * c[0] + c[2]] && layout(c, 1) == [0, 1]
  {
    ThreeAxes(ms, src, 0, c);
    ThreeAxes(ms, src, 1, c);
  }

  lemma ExampleWanted(shape: seq<nat>, ms: seq<nat>, dst: seq<Placement>, c: seq<nat>)
    requires shape == [4, 2] && ms == [2, 2, 2] && dst == [Shard(1, -1), Shard(0, -1), Shard(0, -1)] && InBounds(c, ms)
    ensures HoldsChunk([2 * c[1] + c[2]], 4, ms, dst, 0, c) && HoldsChunk([c[0]], 2, ms, dst, 1, c)
  {
    ThreeAxes(ms, dst, 0, c);
    ThreeAxes(ms, dst, 1, c);
  }

  /** With moves wrong steps may cancel: the conversion is not safe and the layout after its first step is
    * wrong, and yet the layout at the end is canonical. */
  lemma MovesMayCancel(shape: seq<nat>, ms: seq<nat>, src: seq<Placement>, dst: seq<Placement>, order: seq<nat>, layout: Layout)
    requires Example(shape, ms, src, dst, order) && layout == OwnChunks(shape, ms, src)
    ensures OrderRight(src, dst, order) && AcceptedOnTheWay(shape, ms, src, dst, order)
    ensures Canonical(layout, shape, ms, src) && !SafeConversion(src, dst)
    ensures !Canonical(LayoutAfter(layout, ms, src, dst, order, 1), shape, ms, PlacementsAfter(src, dst, order, 1))
    ensures Canonical(LayoutAfter(layout, ms, src, dst, order, 2), shape, ms, dst)
  {
    ExampleAllowed(shape, ms, src, dst, order);
    ExamplePlacements(src, dst, order);
    OwnChunksCanonical(shape, ms, src);
    FirstStepWrong(shape, ms, src, dst, order, layout);
    forall d: nat, c | d < |shape| && InBounds(c, ms)
      ensures HoldsChunk(LayoutAfter(layout, ms, src, dst, order, 2)(c, d), shape[d], ms, dst, d, c)
    {
      ExampleSteps(shape, ms, src, dst, order, layout, c);
      ExampleWanted(shape, ms, dst, c);
    }
  }

  lemma FirstStepWrong(shape: seq<nat>, ms: seq<nat>, src: seq<Placement>, dst: seq<Placement>, order: seq<nat>, layout: Layout)
    requires Example(shape, ms, src, dst, order) && layout == OwnChunks(shape, ms, src)
    ensures !Canonical(LayoutAfter(layout, ms, src, dst, order, 1), shape, ms, PlacementsAfter(src, dst, order, 1))
  {
    var c := [0, 0, 0];
    ExamplePlacements(src, dst, order);
    ExampleSteps(shape, ms, src, dst, order, layout, c);
    MiddleWanted(shape, ms, PlacementsAfter(src, dst, order, 1), c);
    assert [0, 1][1] != [0, 2][1];
    NotCanonicalAt(LayoutAfter(layout, ms, src, dst, order, 1), shape, ms, PlacementsAfter(src, dst, order, 1), c, 0);
  }

  lemma MiddleWanted(shape: seq<nat>, ms: seq<nat>, pl: seq<Placement>, c: seq<nat>)
    requires shape == [4, 2] && ms == [2, 2, 2] && pl == [Shard(1, -1), Replicate, Shard(0, -1)] && c == [0, 0, 0]
    ensures OwnChunks(shape, ms, pl)(c, 0) == [0, 1]
  {
    ThreeAxes(ms, pl, 0, c);
  }
}

/** Converting to all-Replicate and from all-Replicate, which is what the conversion order is meant for: when
  * every step of the way is canonical, and two conversions for which it is not. */
module ConvertReplicate {
  import opened MeshArithmetic
  import opened DistributedSpec
  import opened NestedSplit
  import opened ConvertOrder
  import opened ConvertLayout
  import opened Conversions

  predicate AllReplicate(pl: seq<Placement>) {
    forall i :: 0 <= i < |pl| ==> pl[i].Replicate?
  }

  predicate ShardOrReplicate(pl: seq<Placement>) {
    forall i :: 0 <= i < |pl| ==> pl[i].Shard? || pl[i].Replicate?
  }

  // ---------------------------------------------------------------- fewer axes

  /** `pl` shards no more than `ql` does: some of its axes are replicated instead. */
  predicate Thinned(pl: seq<Placement>, ql: seq<Placement>) {
    |pl| == |ql| && forall i :: 0 <= i < |pl| ==> pl[i] == ql[i] || pl[i].Replicate?
  }

  /** Fewer axes cut a dimension into a divisor of the number of chunks. */
  lemma {:induction false} ThinnedDivides(ms: seq<nat>, pl: seq<Placement>, ql: seq<Placement>, d: int) returns (k: nat)
    requires |ms| == |pl| && Positive(ms) && Thinned(pl, ql)
    ensures NumShards(ms, ql, d) == NumShards(ms, pl, d) * k && k > 0
  {
    if |ms| == 0 {
      return 1;
    }
    var n := |ms| - 1;
    k := ThinnedDivides(ms[..n], pl[..n], ql[..n], d);
    if ql[n].IsShard(d) {
      if pl[n].IsShard(d) {
        Reorder(NumShards(ms[..n], pl[..n], d), k, ms[n]);
      } else {
        MulAssoc(NumShards(ms[..n], pl[..n], d), k, ms[n]);
        MulMono(1, k, ms[n]);
        k := k * ms[n];
      }
    }
  }

  lemma ThinnedAccepted(shape: seq<nat>, ms: seq<nat>, pl: seq<Placement>, ql: seq<Placement>)
    requires Thinned(pl, ql) && Accepted(shape, ms, ql)
    ensures Accepted(shape, ms, pl)
  {
    forall d | d in ShardedDims(pl)
      ensures shape[d] >= NumShards(ms, pl, d)
    {
      var i :| 0 <= i < |pl| && pl[i].Shard? && pl[i].dim == d;
      AcceptedSize(shape, ms, ql, i);
      var k := ThinnedDivides(ms, pl, ql, d);
      MulMono(1, k, NumShards(ms, pl, d));
    }
  }

  /** Cut evenly by all axes, a shape is cut evenly by some of them. */
  lemma ThinnedEven(shape: seq<nat>, ms: seq<nat>, pl: seq<Placement>, ql: seq<Placement>)
    requires |ms| == |pl| == |ql| && Positive(ms) && Thinned(pl, ql) && EvenSplit(shape, ms, ql)
    ensures EvenSplit(shape, ms, pl)
  {
    forall d: nat | d < |shape|
      ensures NumShards(ms, pl, d) > 0 && shape[d] % NumShards(ms, pl, d) == 0
    {
      NumShardsPositive(ms, pl, d);
      var k := ThinnedDivides(ms, pl, ql, d);
      FactorDivides(shape[d], NumShards(ms, pl, d), k);
    }
  }

  lemma FactorDivides(size: nat, n: nat, k: nat)
    requires n > 0 && k > 0 && n * k > 0 && size % (n * k) == 0
    ensures size % n == 0
  {
    var l := size / (n * k);
    DivRem(size, n * k);
    assert l * (n * k) == (l * k) * n;
    DivModUnique(l * k, 0, n);
  }

  // ---------------------------------------------------------------- the steps

  lemma {:induction false} OldOrNew(src: seq<Placement>, dst: seq<Placement>, order: seq<nat>, k: nat, j: nat)
    requires |src| == |dst| && k <= |order| && j < |src| && forall p :: 0 <= p < |order| ==> order[p] < |src|
    ensures PlacementsAfter(src, dst, order, k)[j] in {src[j], dst[j]}
  {
    if k > 0 {
      OldOrNew(src, dst, order, k - 1, j);
    }
  }

  /** On the way to or from all-Replicate, never more axes shard than at the other end. */
  lemma ThinnedOnTheWay(src: seq<Placement>, dst: seq<Placement>, order: seq<nat>, k: nat, full: seq<Placement>)
    requires |src| == |dst| && k <= |order| && forall p :: 0 <= p < |order| ==> order[p] < |src|
    requires (full == src && AllReplicate(dst)) || (full == dst && AllReplicate(src))
    ensures Thinned(PlacementsAfter(src, dst, order, k), full)
  {
    forall j | 0 <= j < |full|
      ensures PlacementsAfter(src, dst, order, k)[j] == full[j] || PlacementsAfter(src, dst, order, k)[j].Replicate?
    {
      OldOrNew(src, dst, order, k, j);
    }
  }

  lemma AcceptedFromEnd(shape: seq<nat>, ms: seq<nat>, src: seq<Placement>, dst: seq<Placement>, order: seq<nat>,
                        full: seq<Placement>)
    requires |src| == |dst| == |ms| && forall p :: 0 <= p < |order| ==> order[p] < |src|
    requires (full == src && AllReplicate(dst)) || (full == dst && AllReplicate(src))
    requires Accepted(shape, ms, full)
    ensures AcceptedOnTheWay(shape, ms, src, dst, order)
  {
    forall k: nat | k <= |order|
      ensures Accepted(shape, ms, PlacementsAfter(src, dst, order, k))
    {
      ThinnedOnTheWay(src, dst, order, k, full);
      ThinnedAccepted(shape, ms, PlacementsAfter(src, dst, order, k), full);
    }
  }

  /** Any sharding can be gathered to all-Replicate, and all-Replicate scattered to any sharding, as far as the
    * order of the axes goes. */
  lemma ReplicateIsSafe(src: seq<Placement>, dst: seq<Placement>)
    requires |src| == |dst| && (AllReplicate(src) || AllReplicate(dst))
    ensures SafeConversion(src, dst)
  {
  }

  /** One end shards as `full` does, the other replicates everything. */
  predicate Ends(src: seq<Placement>, dst: seq<Placement>, full: seq<Placement>) {
    |src| == |dst| && ShardOrReplicate(full) && ((full == src && AllReplicate(dst)) || (full == dst && AllReplicate(src)))
  }

  /** At every step the axes in front of it are as at the end that shards, and none behind it shards. */
  lemma FrontAtStep(src: seq<Placement>, dst: seq<Placement>, order: seq<nat>, k: nat, full: seq<Placement>)
    requires Ends(src, dst, full) && k < |order| && OrderRight(src, dst, order)
    ensures full[order[k]].Shard? && {src[order[k]], dst[order[k]]} == {full[order[k]], Replicate}
    ensures var pl := PlacementsAfter(src, dst, order, k);
      pl[..order[k]] == full[..order[k]] && forall j :: order[k] < j < |pl| ==> pl[j].Replicate?
  {
    var i, pl := order[k], PlacementsAfter(src, dst, order, k);
    AxesBehind(src, dst, order, k, i);
    forall j | i < j < |src|
      ensures pl[j].Replicate?
    {
      AxesBehind(src, dst, order, k, j);
    }
    forall j | 0 <= j < i
      ensures pl[j] == full[j]
    {
      AxesBefore(src, dst, order, k, j, full);
    }
  }

  lemma AxesBefore(src: seq<Placement>, dst: seq<Placement>, order: seq<nat>, k: nat, j: nat, full: seq<Placement>)
    requires Ends(src, dst, full) && k < |order| && OrderRight(src, dst, order) && j < order[k]
    ensures PlacementsAfter(src, dst, order, k)[j] == full[j]
  {
    BeforeStep(src, dst, order, k, j);
    EarlierOccur(order, k);
    assert Occurs(order, order[k]);
    if Occurs(order[..k], j) {
      var p :| 0 <= p < k && order[..k][p] == j;
      assert order[p] == j && Occurs(order, j) && Precedes(src, dst, order[p], order[k]);
    } else if src[j] != dst[j] {
      assert Occurs(order, j);
      var p :| 0 <= p < |order| && order[p] == j;
      assert Precedes(src, dst, order[k], order[p]);
    }
  }

  lemma EarlierOccur(order: seq<nat>, k: nat)
    requires k <= |order|
    ensures forall p :: 0 <= p < k ==> Occurs(order[..k], order[p])
  {
    forall p | 0 <= p < k
      ensures Occurs(order[..k], order[p])
    {
      assert order[..k][p] == order[p];
    }
  }

  /** So the number of chunks a step starts or ends with is that of the axes in front. */
  lemma ShardsAtStep(ms: seq<nat>, pl: seq<Placement>, i: nat, d: int, full: seq<Placement>)
    requires |ms| == |pl| == |full| && i < |pl| && pl[..i] == full[..i] && !pl[i].IsShard(d)
    requires forall j :: i < j < |pl| ==> pl[j].Replicate?
    ensures NumShards(ms, pl, d) == NumShards(ms[..i], full[..i], d)
  {
    AtAxis(ms, pl, d, ms, i);
    NothingLater(ms, pl, d, ms, i);
  }

  /** Every axis that cuts a dimension further does so with the one-shot sizes. */
  predicate PrefixFits(shape: seq<nat>, ms: seq<nat>, pl: seq<Placement>)
    requires |ms| == |pl| && Plain(shape, ms, pl)
  {
    forall i: nat :: i < |pl| ==> FitsBehind(shape, ms, pl, i)
  }

  predicate FitsBehind(shape: seq<nat>, ms: seq<nat>, pl: seq<Placement>, i: nat)
    requires |ms| == |pl| && Plain(shape, ms, pl) && i < |pl|
  {
    pl[i].Shard? ==> CutAgrees(shape[pl[i].dim], NumShards(ms[..i], pl[..i], pl[i].dim), ms[i])
  }

  lemma FitsAtStep(shape: seq<nat>, ms: seq<nat>, src: seq<Placement>, dst: seq<Placement>, order: seq<nat>, k: nat,
                   full: seq<Placement>)
    requires |src| == |ms| && Ends(src, dst, full) && k < |order| && OrderRight(src, dst, order)
    requires Accepted(shape, ms, full) && AcceptedOnTheWay(shape, ms, src, dst, order)
    ensures FitsAt(shape, ms, src, dst, order, k) <==> FitsBehind(shape, ms, full, order[k])
  {
    var i, pl := order[k], PlacementsAfter(src, dst, order, k);
    FrontAtStep(src, dst, order, k, full);
    StepIsAxis(src, dst, order, k);
    ShardsAtStep(ms, pl[i := Replicate], i, full[i].dim, full);
    assert pl[i] == Replicate ==> pl[i := Replicate] == pl;
  }

  /** Along the whole way, the sizes fit if and only if they do at the end that shards. */
  lemma FitsAtEnds(shape: seq<nat>, ms: seq<nat>, src: seq<Placement>, dst: seq<Placement>, order: seq<nat>,
                   full: seq<Placement>)
    requires |src| == |ms| && Ends(src, dst, full) && OrderRight(src, dst, order)
    requires Accepted(shape, ms, full) && AcceptedOnTheWay(shape, ms, src, dst, order)
    ensures FitsOnTheWay(shape, ms, src, dst, order) <==> PrefixFits(shape, ms, full)
  {
    forall k: nat | k < |order|
      ensures FitsAt(shape, ms, src, dst, order, k) <==> FitsBehind(shape, ms, full, order[k])
    {
      FitsAtStep(shape, ms, src, dst, order, k, full);
    }
    forall i: nat | i < |full| && full[i].Shard?
      ensures exists k: nat :: k < |order| && order[k] == i
    {
      assert Occurs(order, i);
    }
    if FitsOnTheWay(shape, ms, src, dst, order) {
      forall i: nat | i < |full|
        ensures FitsBehind(shape, ms, full, i)
      {
        if full[i].Shard? {
          var k: nat :| k < |order| && order[k] == i;
          assert FitsAt(shape, ms, src, dst, order, k);
        }
      }
    }
  }

  // ---------------------------------------------------------------- both ways, exactly

  /** Gathering any accepted sharding to all-Replicate: every step of the way is canonical if and only if every
    * axis cuts its dimension with the one-shot sizes. */
  lemma ToReplicateExactly(layout: Layout, shape: seq<nat>, ms: seq<nat>, src: seq<Placement>, dst: seq<Placement>,
                           order: seq<nat>)
    requires Accepted(shape, ms, src) && |src| == |dst| && AllReplicate(dst)
    requires OrderRight(src, dst, order) && Canonical(layout, shape, ms, src)
    ensures AcceptedOnTheWay(shape, ms, src, dst, order)
    ensures AllCanonical(layout, shape, ms, src, dst, order, |order|) <==> PrefixFits(shape, ms, src)
  {
    AcceptedFromEnd(shape, ms, src, dst, order, src);
    ReplicateIsSafe(src, dst);
    FitsAtEnds(shape, ms, src, dst, order, src);
    ConversionExactly(layout, shape, ms, src, dst, order);
  }

  /** Scattering all-Replicate to any accepted sharding: the same condition, on the destination. */
  lemma FromReplicateExactly(layout: Layout, shape: seq<nat>, ms: seq<nat>, src: seq<Placement>, dst: seq<Placement>,
                             order: seq<nat>)
    requires Accepted(shape, ms, dst) && |src| == |dst| && AllReplicate(src)
    requires OrderRight(src, dst, order) && Canonical(layout, shape, ms, src)
    ensures AcceptedOnTheWay(shape, ms, src, dst, order)
    ensures AllCanonical(layout, shape, ms, src, dst, order, |order|) <==> PrefixFits(shape, ms, dst)
  {
    AcceptedFromEnd(shape, ms, src, dst, order, dst);
    ReplicateIsSafe(src, dst);
    FitsAtEnds(shape, ms, src, dst, order, dst);
    ConversionExactly(layout, shape, ms, src, dst, order);
  }

  /** Even sizes meet the condition, and so do any sizes if no dimension is sharded by two axes. */
  lemma PrefixFitsWhen(shape: seq<nat>, ms: seq<nat>, pl: seq<Placement>)
    requires Accepted(shape, ms, pl) && (EvenSplit(shape, ms, pl) || ShardedOnce(pl))
    ensures PrefixFits(shape, ms, pl)
  {
    forall i: nat | i < |pl| && pl[i].Shard?
      ensures FitsBehind(shape, ms, pl, i)
    {
      if ShardedOnce(pl) {
        FirstAxis(ms, pl, i);
      } else {
        EvenBehind(shape, ms, pl, i);
      }
    }
  }

  lemma FirstAxis(ms: seq<nat>, pl: seq<Placement>, i: nat)
    requires |ms| == |pl| && i < |pl| && pl[i].Shard? && ShardedOnce(pl)
    ensures NumShards(ms[..i], pl[..i], pl[i].dim) == 1
  {
    assert AxesOf(pl[..i], pl[i].dim) == {};
    Unsharded(ms[..i], pl[..i], pl[i].dim, ms[..i]);
  }

  lemma EvenBehind(shape: seq<nat>, ms: seq<nat>, pl: seq<Placement>, i: nat)
    requires Accepted(shape, ms, pl) && EvenSplit(shape, ms, pl) && i < |pl| && pl[i].Shard?
    ensures FitsBehind(shape, ms, pl, i)
  {
    var d := pl[i].dim;
    AtAxis(ms, pl, d, ms, i);
    var n, w := NumShards(ms[..i], pl[..i], d), NumShards(ms[i + 1..], pl[i + 1..], d);
    NumShardsPositive(ms[..i], pl[..i], d);
    NumShardsPositive(ms[i + 1..], pl[i + 1..], d);
    MulMono(1, n, ms[i]);
    FactorDivides(shape[d], n * ms[i], w);
  }

  /** There and back: from any accepted sharding whose sizes fit to all-Replicate and back to the sharding,
    * every layout on the way is canonical, and every device ends with what it had. */
  lemma ReplicateRoundTrip(layout: Layout, shape: seq<nat>, ms: seq<nat>, pl: seq<Placement>, all: seq<Placement>,
                           there: seq<nat>, back: seq<nat>)
    requires Accepted(shape, ms, pl) && PrefixFits(shape, ms, pl) && Canonical(layout, shape, ms, pl)
    requires |all| == |pl| && AllReplicate(all) && OrderRight(pl, all, there) && OrderRight(all, pl, back)
    ensures AllCanonical(layout, shape, ms, pl, all, there, |there|)
    ensures var gathered := LayoutAfter(layout, ms, pl, all, there, |there|);
      && AllCanonical(gathered, shape, ms, all, pl, back, |back|)
      && forall c, d: nat :: InBounds(c, ms) && d < |shape| ==> LayoutAfter(gathered, ms, all, pl, back, |back|)(c, d) == layout(c, d)
  {
    var gathered := LayoutAfter(layout, ms, pl, all, there, |there|);
    ToReplicateExactly(layout, shape, ms, pl, all, there);
    EndsAt(pl, all, there);
    assert Canonical(gathered, shape, ms, all);
    FromReplicateExactly(gathered, shape, ms, all, pl, back);
    EndsAt(all, pl, back);
    SameCanonical(LayoutAfter(gathered, ms, all, pl, back, |back|), layout, shape, ms, pl);
  }

  lemma EndsAt(src: seq<Placement>, dst: seq<Placement>, order: seq<nat>)
    requires |src| == |dst| && OrderRight(src, dst, order)
    ensures PlacementsAfter(src, dst, order, |order|) == dst
  {
    assert order[..|order|] == order;
    forall j | 0 <= j < |src|
      ensures PlacementsAfter(src, dst, order, |order|)[j] == dst[j]
    {
      BeforeStep(src, dst, order, |order|, j);
      assert Occurs(order, j) <==> src[j] != dst[j];
    }
  }

  /** There is one canonical layout. */
  lemma SameCanonical(a: Layout, b: Layout, shape: seq<nat>, ms: seq<nat>, pl: seq<Placement>)
    requires |ms| == |pl| && Positive(ms) && Canonical(a, shape, ms, pl) && Canonical(b, shape, ms, pl)
    ensures forall c, d: nat :: InBounds(c, ms) && d < |shape| ==> a(c, d) == b(c, d)
  {
    forall c, d: nat | InBounds(c, ms) && d < |shape|
      ensures a(c, d) == b(c, d)
    {
      assert CanonicalAlong(a, shape, ms, pl, d) && CanonicalAlong(b, shape, ms, pl, d);
      assert HoldsChunk(a(c, d), shape[d], ms, pl, d, c) && HoldsChunk(b(c, d), shape[d], ms, pl, d, c);
    }
  }

  // ---------------------------------------------------------------- conversions that go wrong

  /** The canonical layout itself. */
  function OwnChunks(shape: seq<nat>, ms: seq<nat>, pl: seq<Placement>): (r: Layout)
    requires |ms| == |pl| && Positive(ms)
  {
    (c: seq<nat>, d: nat) =>
      if d < |shape| && |c| == |ms| then
        NumShardsPositive(ms, pl, d);
        Interval(ShardOffset(shape[d], NumShards(ms, pl, d), Chunk(ms, pl, d, c)),
                 ShardSize(shape[d], NumShards(ms, pl, d), Chunk(ms, pl, d, c)))
      else []
  }

  lemma OwnChunksCanonical(shape: seq<nat>, ms: seq<nat>, pl: seq<Placement>)
    requires |ms| == |pl| && Positive(ms)
    ensures Canonical(OwnChunks(shape, ms, pl), shape, ms, pl)
  {
  }

  lemma TwoAxes(m: nat, n: nat, p: Placement, q: Placement, d: int, a: nat, b: nat)
    ensures NumShards([m, n], [p, q], d) == (if p.IsShard(d) then m else 1) * if q.IsShard(d) then n else 1
    ensures Chunk([m, n], [p, q], d, [a, b]) ==
      if q.IsShard(d) then (if p.IsShard(d) then a else 0) * n + b else if p.IsShard(d) then a else 0
  {
    assert [m, n][..1] == [m] && [p, q][..1] == [p] && [a, b][..1] == [a];
    assert [m][..0] == [] && [p][..0] == [] && [a][..0] == [];
    assert NumShards([m], [p], d) == (if p.IsShard(d) then m else 1);
    assert Chunk([m], [p], d, [a]) == (if p.IsShard(d) then a else 0);
  }

  lemma NotCanonicalAt(layout: Layout, shape: seq<nat>, ms: seq<nat>, pl: seq<Placement>, c: seq<nat>, d: nat)
    requires |ms| == |pl| && Positive(ms) && InBounds(c, ms) && d < |shape|
    requires layout(c, d) != OwnChunks(shape, ms, pl)(c, d)
    ensures !Canonical(layout, shape, ms, pl)
  {
    if Canonical(layout, shape, ms, pl) {
      OwnChunksCanonical(shape, ms, pl);
      SameCanonical(layout, OwnChunks(shape, ms, pl), shape, ms, pl);
    }
  }

  /** Moving the sharding of one dimension of size 4 from the first axis of a 2 by 2 mesh to the second: the
    * conversion order is followed and every placement is accepted, and yet the first device ends with the
    * indices 0 and 2, where its placement says 0 and 1. */
  lemma NotAlwaysSafe(shape: seq<nat>, ms: seq<nat>, src: seq<Placement>, dst: seq<Placement>, order: seq<nat>, layout: Layout)
    requires shape == [4] && ms == [2, 2] && order == [1, 0]
    requires src == [Shard(0, -1), Replicate] && dst == [Replicate, Shard(0, -1)] && layout == OwnChunks(shape, ms, src)
    ensures OrderRight(src, dst, order) && AcceptedOnTheWay(shape, ms, src, dst, order)
    ensures Canonical(layout, shape, ms, src)
    ensures !SafeConversion(src, dst) && !AllCanonical(layout, shape, ms, src, dst, order, |order|)
    ensures LayoutAfter(layout, ms, src, dst, order, |order|)([0, 0], 0) == [0, 2] != [0, 1] == OwnChunks(shape, ms, dst)([0, 0], 0)
    ensures !Canonical(LayoutAfter(layout, ms, src, dst, order, |order|), shape, ms, dst)
  {
    OwnChunksCanonical(shape, ms, src);
    AxisMoved(shape, ms, src, dst, order);
    EndsWrong(layout);
    FirstOfSecondAxis();
    WrongEnd(layout, shape, ms, src, dst, order, [0, 0], 0);
  }

  lemma WrongEnd(layout: Layout, shape: seq<nat>, ms: seq<nat>, src: seq<Placement>, dst: seq<Placement>, order: seq<nat>,
                 c: seq<nat>, d: nat)
    requires |ms| == |src| == |dst| && Positive(ms) && OrderRight(src, dst, order) && InBounds(c, ms) && d < |shape|
    requires LayoutAfter(layout, ms, src, dst, order, |order|)(c, d) != OwnChunks(shape, ms, dst)(c, d)
    ensures !Canonical(LayoutAfter(layout, ms, src, dst, order, |order|), shape, ms, dst)
    ensures !AllCanonical(layout, shape, ms, src, dst, order, |order|)
  {
    EndsAt(src, dst, order);
    NotCanonicalAt(LayoutAfter(layout, ms, src, dst, order, |order|), shape, ms, dst, c, d);
  }

  lemma FirstOfSecondAxis()
    ensures OwnChunks([4], [2, 2], [Replicate, Shard(0, -1)])([0, 0], 0) == [0, 1]
  {
    TwoAxes(2, 2, Replicate, Shard(0, -1), 0, 0, 0);
  }

  lemma AxisMoved(shape: seq<nat>, ms: seq<nat>, src: seq<Placement>, dst: seq<Placement>, order: seq<nat>)
    requires shape == [4] && ms == [2, 2] && order == [1, 0]
    requires src == [Shard(0, -1), Replicate] && dst == [Replicate, Shard(0, -1)]
    ensures OrderRight(src, dst, order) && AcceptedOnTheWay(shape, ms, src, dst, order) && !SafeConversion(src, dst)
  {
    assert order[0] == 1 && order[1] == 0;
    assert !SafeAxis(src, dst, 0) by { assert dst[1].IsShard(0); }
    MoveAccepted(shape, ms, src);
    MoveAccepted(shape, ms, dst);
    MoveAccepted(shape, ms, [Shard(0, -1), Shard(0, -1)]);
    assert PlacementsAfter(src, dst, order, 1) == [Shard(0, -1), Shard(0, -1)];
    assert PlacementsAfter(src, dst, order, 2) == dst;
  }

  lemma MoveAccepted(shape: seq<nat>, ms: seq<nat>, pl: seq<Placement>)
    requires shape == [4] && ms == [2, 2] && |pl| == 2
    requires forall i :: 0 <= i < 2 ==> pl[i] in {Replicate, Shard(0, -1)}
    ensures Accepted(shape, ms, pl)
  {
    assert pl == [pl[0], pl[1]];
    TwoAxes(2, 2, pl[0], pl[1], 0, 0, 0);
  }

  lemma EndsWrong(layout: Layout)
    requires layout == OwnChunks([4], [2, 2], [Shard(0, -1), Replicate])
    ensures LayoutAfter(layout, [2, 2], [Shard(0, -1), Replicate], [Replicate, Shard(0, -1)], [1, 0], 2)([0, 0], 0) == [0, 2]
  {
    var ms, src, dst := [2, 2], [Shard(0, -1), Replicate], [Replicate, Shard(0, -1)];
    var once := LayoutAfter(layout, ms, src, dst, [1, 0], 1);
    assert PlacementsAfter(src, dst, [1, 0], 1) == [Shard(0, -1), Shard(0, -1)];
    forall a: nat | a < 2
      ensures once([a, 0], 0) == [2 * a]
    {
      TwoAxes(2, 2, Shard(0, -1), Replicate, 0, a, 0);
      assert layout([a, 0], 0) == [2 * a, 2 * a + 1];
      assert once([a, 0], 0) == SplitPiece([2 * a, 2 * a + 1], 0, 2);
    }
    assert [0, 0][0 := 0] == [0, 0] && [0, 0][0 := 1] == [1, 0];
    assert Pieces(once, [0, 0], 0, 0, 1) == [0];
    assert Pieces(once, [0, 0], 0, 0, 2) == [0, 2];
  }

  /** 6 over 2 by 2: gathered step by step to all-Replicate, the placements are accepted, but after the first
    * step the layout is not that of its placement. */
  lemma UnevenIsNotCanonical(shape: seq<nat>, ms: seq<nat>, src: seq<Placement>, dst: seq<Placement>, order: seq<nat>,
                             layout: Layout)
    requires shape == [6] && ms == [2, 2] && order == [1, 0]
    requires src == [Shard(0, -1), Shard(0, -1)] && dst == [Replicate, Replicate] && layout == OwnChunks(shape, ms, src)
    ensures OrderRight(src, dst, order) && AcceptedOnTheWay(shape, ms, src, dst, order)
    ensures Canonical(layout, shape, ms, src) && !AllCanonical(layout, shape, ms, src, dst, order, |order|)
  {
    OwnChunksCanonical(shape, ms, src);
    assert order[0] == 1 && order[1] == 0;
    TwoAxes(2, 2, Shard(0, -1), Shard(0, -1), 0, 0, 0);
    assert ms[..1] == [2] && src[..1] == [Shard(0, -1)];
    assert ms[..1][..0] == [] && src[..1][..0] == [];
    assert NumShards(ms[..1], src[..1], 0) == 2;
    assert !FitsBehind(shape, ms, src, 1);
    ToReplicateExactly(layout, shape, ms, src, dst, order);
  }
}

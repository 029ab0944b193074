/** What the devices hold while placements are converted one mesh axis at a time, in the conversion order. */
module Conversions {
  import opened MeshArithmetic
  import opened DistributedSpec
  import opened ConvertOrder
  import opened ConvertLayout

  /** The placements after the first `k` steps. */
  function PlacementsAfter(src: seq<Placement>, dst: seq<Placement>, order: seq<nat>, k: nat): (r: seq<Placement>)
    requires |src| == |dst| && k <= |order| && forall p :: 0 <= p < |order| ==> order[p] < |src|
    ensures |r| == |src|
  {
    if k == 0 then src else PlacementsAfter(src, dst, order, k - 1)[order[k - 1] := dst[order[k - 1]]]
  }

  /** The layout after the first `k` steps. */
  function LayoutAfter(layout: Layout, ms: seq<nat>, src: seq<Placement>, dst: seq<Placement>, order: seq<nat>, k: nat): (r: Layout)
    requires |src| == |dst| && k <= |order| && forall p :: 0 <= p < |order| ==> order[p] < |src|
  {
    if k == 0 then layout
    else
      var i := order[k - 1];
      Converted(LayoutAfter(layout, ms, src, dst, order, k - 1), ms, i, PlacementsAfter(src, dst, order, k - 1)[i], dst[i])
  }

  /** Every placement met on the way passes the validity check. */
  predicate AcceptedOnTheWay(shape: seq<nat>, ms: seq<nat>, src: seq<Placement>, dst: seq<Placement>, order: seq<nat>)
    requires |src| == |dst| == |ms| && forall p :: 0 <= p < |order| ==> order[p] < |src|
  {
    forall k: nat :: k <= |order| ==> Accepted(shape, ms, PlacementsAfter(src, dst, order, k))
  }

  /** The sizes fit the `k`-th step. */
  ghost predicate FitsAt(shape: seq<nat>, ms: seq<nat>, src: seq<Placement>, dst: seq<Placement>, order: seq<nat>, k: nat)
    requires |src| == |dst| == |ms| && (forall p :: 0 <= p < |order| ==> order[p] < |src|) && k < |order|
    requires AcceptedOnTheWay(shape, ms, src, dst, order)
  {
    assert PlacementsAfter(src, dst, order, k + 1) == PlacementsAfter(src, dst, order, k)[order[k] := dst[order[k]]];
    StepFits(shape, ms, PlacementsAfter(src, dst, order, k), order[k], dst[order[k]])
  }

  ghost predicate FitsOnTheWay(shape: seq<nat>, ms: seq<nat>, src: seq<Placement>, dst: seq<Placement>, order: seq<nat>)
    requires |src| == |dst| == |ms| && forall p :: 0 <= p < |order| ==> order[p] < |src|
    requires AcceptedOnTheWay(shape, ms, src, dst, order)
  {
    forall k: nat :: k < |order| ==> FitsAt(shape, ms, src, dst, order, k)
  }

  /** The condition on source and destination alone: an axis that is gathered has no later axis left that
    * shards its dimension in the destination; an axis that is scattered, or moved from one dimension to
    * another, has no later axis that shards a dimension involved in the source. */
  predicate SafeConversion(src: seq<Placement>, dst: seq<Placement>)
    requires |src| == |dst|
  {
    forall i: nat :: i < |src| && src[i] != dst[i] ==> SafeAxis(src, dst, i)
  }

  predicate SafeAxis(src: seq<Placement>, dst: seq<Placement>, i: nat)
    requires |src| == |dst| && i < |src|
  {
    if IsGather(src[i], dst[i]) then NoLater(dst, i, src[i].dim)
    else (src[i].Shard? ==> NoLater(src, i, src[i].dim)) && (dst[i].Shard? ==> NoLater(src, i, dst[i].dim))
  }

  /** When the `k`-th step comes, its own axis is untouched, and the axes behind it are all as in the
    * destination if it gathers, all as in the source if not. */
  lemma {:induction false} BeforeStep(src: seq<Placement>, dst: seq<Placement>, order: seq<nat>, k: nat, j: nat)
    requires |src| == |dst| && k <= |order| && j < |src| && OrderRight(src, dst, order)
    ensures PlacementsAfter(src, dst, order, k)[j] == if Occurs(order[..k], j) then dst[j] else src[j]
  {
    if k > 0 {
      BeforeStep(src, dst, order, k - 1, j);
      assert order[..k] == order[..k - 1] + [order[k - 1]];
      OccursSnoc(order[..k - 1], order[k - 1]);
    }
  }

  lemma AxesBehind(src: seq<Placement>, dst: seq<Placement>, order: seq<nat>, k: nat, j: nat)
    requires |src| == |dst| && k < |order| && OrderRight(src, dst, order) && order[k] <= j < |src|
    ensures src[order[k]] != dst[order[k]]
    ensures PlacementsAfter(src, dst, order, k)[j] ==
      if j > order[k] && IsGather(src[order[k]], dst[order[k]]) then dst[j] else src[j]
  {
    var i := order[k];
    assert Occurs(order, i);
    BeforeStep(src, dst, order, k, j);
    if Occurs(order[..k], j) {
      var p :| 0 <= p < k && order[..k][p] == j;
      assert order[p] == j && Precedes(src, dst, order[p], order[k]);
    }
    if j > i && IsGather(src[i], dst[i]) && src[j] != dst[j] {
      GatheredBefore(src, dst, order, k, j);
    }
  }

  /** Gathers go back to front: the axes behind have been converted already. */
  lemma GatheredBefore(src: seq<Placement>, dst: seq<Placement>, order: seq<nat>, k: nat, j: nat)
    requires |src| == |dst| && k < |order| && OrderRight(src, dst, order) && order[k] < j < |src|
    requires IsGather(src[order[k]], dst[order[k]]) && src[j] != dst[j]
    ensures Occurs(order[..k], j)
  {
    assert Occurs(order, j);
    var p :| 0 <= p < |order| && order[p] == j;
    LowerAfter(src, dst, order, k);
    assert order[..k][p] == j;
  }

  lemma LowerAfter(src: seq<Placement>, dst: seq<Placement>, order: seq<nat>, k: nat)
    requires |src| == |dst| && k < |order| && OrderRight(src, dst, order) && IsGather(src[order[k]], dst[order[k]])
    ensures forall q :: k < q < |order| ==> order[q] < order[k]
  {
    forall q | k < q < |order|
      ensures order[q] < order[k]
    {
      assert Precedes(src, dst, order[k], order[q]);
    }
  }

  /** So the step is safe exactly when its axis is. */
  lemma StepIsAxis(src: seq<Placement>, dst: seq<Placement>, order: seq<nat>, k: nat)
    requires |src| == |dst| && k < |order| && OrderRight(src, dst, order)
    ensures PlacementsAfter(src, dst, order, k)[order[k]] == src[order[k]] != dst[order[k]]
    ensures StepSafe(PlacementsAfter(src, dst, order, k), order[k], dst[order[k]]) <==> SafeAxis(src, dst, order[k])
  {
    var i, pl := order[k], PlacementsAfter(src, dst, order, k);
    AxesBehind(src, dst, order, k, i);
    forall j | i < j < |src|
      ensures pl[j] == if IsGather(src[i], dst[i]) then dst[j] else src[j]
    {
      AxesBehind(src, dst, order, k, j);
    }
    forall d
      ensures NoLater(pl, i, d) <==> NoLater(if IsGather(src[i], dst[i]) then dst else src, i, d)
    {
      SameLater(pl, if IsGather(src[i], dst[i]) then dst else src, i, d);
    }
  }

  lemma SameLater(a: seq<Placement>, b: seq<Placement>, i: nat, d: int)
    requires |a| == |b| && forall j :: i < j < |a| ==> a[j] == b[j]
    ensures NoLater(a, i, d) <==> NoLater(b, i, d)
  {
  }

  lemma StepOnTheWay(shape: seq<nat>, ms: seq<nat>, src: seq<Placement>, dst: seq<Placement>, order: seq<nat>, k: nat)
    requires |src| == |dst| == |ms| && OrderRight(src, dst, order)
    requires AcceptedOnTheWay(shape, ms, src, dst, order) && k < |order|
    ensures IsStep(shape, ms, PlacementsAfter(src, dst, order, k), order[k], dst[order[k]])
  {
    StepIsAxis(src, dst, order, k);
    assert PlacementsAfter(src, dst, order, k + 1) == PlacementsAfter(src, dst, order, k)[order[k] := dst[order[k]]];
  }

  /** Every intermediate layout is the canonical one of its placements. */
  ghost predicate AllCanonical(layout: Layout, shape: seq<nat>, ms: seq<nat>, src: seq<Placement>, dst: seq<Placement>,
                               order: seq<nat>, n: nat)
    requires |src| == |dst| == |ms| && Positive(ms) && n <= |order| && forall p :: 0 <= p < |order| ==> order[p] < |src|
  {
    forall k: nat :: k <= n ==>
      Canonical(LayoutAfter(layout, ms, src, dst, order, k), shape, ms, PlacementsAfter(src, dst, order, k))
  }

  lemma OneMoreCanonical(layout: Layout, shape: seq<nat>, ms: seq<nat>, src: seq<Placement>, dst: seq<Placement>,
                         order: seq<nat>, k: nat)
    requires |src| == |dst| == |ms| && Positive(ms) && k < |order| && forall p :: 0 <= p < |order| ==> order[p] < |src|
    ensures AllCanonical(layout, shape, ms, src, dst, order, k + 1) <==>
      && AllCanonical(layout, shape, ms, src, dst, order, k)
      && Canonical(LayoutAfter(layout, ms, src, dst, order, k + 1), shape, ms, PlacementsAfter(src, dst, order, k + 1))
  {
  }

  /** The `k`-th step is right. */
  ghost predicate StepRight(shape: seq<nat>, ms: seq<nat>, src: seq<Placement>, dst: seq<Placement>, order: seq<nat>, k: nat)
    requires |src| == |dst| == |ms| && (forall p :: 0 <= p < |order| ==> order[p] < |src|) && k < |order|
    requires AcceptedOnTheWay(shape, ms, src, dst, order)
  {
    SafeAxis(src, dst, order[k]) && FitsAt(shape, ms, src, dst, order, k)
  }

  ghost predicate AllRight(shape: seq<nat>, ms: seq<nat>, src: seq<Placement>, dst: seq<Placement>, order: seq<nat>, n: nat)
    requires |src| == |dst| == |ms| && (forall p :: 0 <= p < |order| ==> order[p] < |src|) && n <= |order|
    requires AcceptedOnTheWay(shape, ms, src, dst, order)
  {
    forall k: nat :: k < n ==> StepRight(shape, ms, src, dst, order, k)
  }

  lemma OneMoreRight(shape: seq<nat>, ms: seq<nat>, src: seq<Placement>, dst: seq<Placement>, order: seq<nat>, k: nat)
    requires |src| == |dst| == |ms| && (forall p :: 0 <= p < |order| ==> order[p] < |src|) && k < |order|
    requires AcceptedOnTheWay(shape, ms, src, dst, order)
    ensures AllRight(shape, ms, src, dst, order, k + 1) <==>
      AllRight(shape, ms, src, dst, order, k) && StepRight(shape, ms, src, dst, order, k)
  {
  }

  lemma OnlyStartCanonical(layout: Layout, shape: seq<nat>, ms: seq<nat>, src: seq<Placement>, dst: seq<Placement>,
                           order: seq<nat>)
    requires |src| == |dst| == |ms| && Positive(ms) && forall p :: 0 <= p < |order| ==> order[p] < |src|
    requires Canonical(layout, shape, ms, src)
    ensures AllCanonical(layout, shape, ms, src, dst, order, 0)
  {
  }

  lemma {:induction false} CanonicalUpTo(layout: Layout, shape: seq<nat>, ms: seq<nat>, src: seq<Placement>,
                                         dst: seq<Placement>, order: seq<nat>, n: nat)
    requires |src| == |dst| == |ms| && Positive(ms) && OrderRight(src, dst, order)
    requires AcceptedOnTheWay(shape, ms, src, dst, order) && Canonical(layout, shape, ms, src) && n <= |order|
    ensures AllCanonical(layout, shape, ms, src, dst, order, n) <==> AllRight(shape, ms, src, dst, order, n)
  {
    if n == 0 {
      OnlyStartCanonical(layout, shape, ms, src, dst, order);
    } else {
      var k := n - 1;
      CanonicalUpTo(layout, shape, ms, src, dst, order, k);
      OneMoreCanonical(layout, shape, ms, src, dst, order, k);
      OneMoreRight(shape, ms, src, dst, order, k);
      if AllCanonical(layout, shape, ms, src, dst, order, k) {
        LastCanonical(layout, shape, ms, src, dst, order, k);
        NextCanonical(layout, shape, ms, src, dst, order, k);
      }
    }
  }

  lemma LastCanonical(layout: Layout, shape: seq<nat>, ms: seq<nat>, src: seq<Placement>, dst: seq<Placement>,
                      order: seq<nat>, n: nat)
    requires |src| == |dst| == |ms| && Positive(ms) && n <= |order| && forall p :: 0 <= p < |order| ==> order[p] < |src|
    requires AllCanonical(layout, shape, ms, src, dst, order, n)
    ensures Canonical(LayoutAfter(layout, ms, src, dst, order, n), shape, ms, PlacementsAfter(src, dst, order, n))
  {
  }

  lemma NextCanonical(layout: Layout, shape: seq<nat>, ms: seq<nat>, src: seq<Placement>, dst: seq<Placement>,
                      order: seq<nat>, k: nat)
    requires |src| == |dst| == |ms| && Positive(ms) && k < |order| && OrderRight(src, dst, order)
    requires AcceptedOnTheWay(shape, ms, src, dst, order)
    requires Canonical(LayoutAfter(layout, ms, src, dst, order, k), shape, ms, PlacementsAfter(src, dst, order, k))
    ensures Canonical(LayoutAfter(layout, ms, src, dst, order, k + 1), shape, ms, PlacementsAfter(src, dst, order, k + 1)) <==>
      StepRight(shape, ms, src, dst, order, k)
  {
    StepOnTheWay(shape, ms, src, dst, order, k);
    StepIsAxis(src, dst, order, k);
    StepExactly(LayoutAfter(layout, ms, src, dst, order, k), shape, ms, PlacementsAfter(src, dst, order, k), order[k],
                dst[order[k]]);
  }

  /** Following the conversion order from a canonical layout, for any sizes the validity check lets through:
    * every step of the way lands on the canonical layout of its placements if and only if source and
    * destination meet the condition and the sizes fit each step. */
  lemma ConversionExactly(layout: Layout, shape: seq<nat>, ms: seq<nat>, src: seq<Placement>, dst: seq<Placement>,
                          order: seq<nat>)
    requires |src| == |dst| == |ms| && Positive(ms) && OrderRight(src, dst, order)
    requires AcceptedOnTheWay(shape, ms, src, dst, order) && Canonical(layout, shape, ms, src)
    ensures AllCanonical(layout, shape, ms, src, dst, order, |order|) <==>
      SafeConversion(src, dst) && FitsOnTheWay(shape, ms, src, dst, order)
  {
    CanonicalUpTo(layout, shape, ms, src, dst, order, |order|);
    if AllRight(shape, ms, src, dst, order, |order|) {
      forall i: nat | i < |src| && src[i] != dst[i]
        ensures SafeAxis(src, dst, i)
      {
        assert Occurs(order, i);
        var k: nat :| k < |order| && order[k] == i;
        assert StepRight(shape, ms, src, dst, order, k);
      }
      assert forall k: nat :: k < |order| && StepRight(shape, ms, src, dst, order, k) ==> FitsAt(shape, ms, src, dst, order, k);
    }
    if SafeConversion(src, dst) && FitsOnTheWay(shape, ms, src, dst, order) {
      forall k: nat | k < |order|
        ensures StepRight(shape, ms, src, dst, order, k)
      {
        assert Occurs(order, order[k]);
        assert FitsAt(shape, ms, src, dst, order, k);
      }
    }
  }
}

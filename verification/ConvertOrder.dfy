/** Converting placements one mesh axis at a time: in which order. */
module ConvertOrder {
  import opened DistributedSpec

  // ---------------------------------------------------------------- the order

  predicate IsGather(src: Placement, dst: Placement) {
    src.Shard? && dst.Replicate?
  }

  predicate Occurs(order: seq<nat>, i: nat) {
    exists p :: 0 <= p < |order| && order[p] == i
  }

  /** Each differing axis once; those that are not gathered first, front to back, then those that are,
    * back to front. This leaves one order only. */
  ghost predicate OrderRight(src: seq<Placement>, dst: seq<Placement>, order: seq<nat>)
    requires |src| == |dst|
  {
    && (forall p :: 0 <= p < |order| ==> order[p] < |src|)
    && (forall i: nat :: i < |src| ==> (Occurs(order, i) <==> src[i] != dst[i]))
    && forall p, q :: 0 <= p < q < |order| ==> Precedes(src, dst, order[p], order[q])
  }

  predicate Precedes(src: seq<Placement>, dst: seq<Placement>, i: nat, j: nat)
    requires |src| == |dst| && i < |src| && j < |src|
  {
    if IsGather(src[i], dst[i]) then IsGather(src[j], dst[j]) && j < i
    else IsGather(src[j], dst[j]) || i < j
  }

  method GetDiffDims(src: seq<Placement>, dst: seq<Placement>) returns (result: seq<nat>)
    requires |src| == |dst|
    ensures forall p :: 0 <= p < |result| ==> result[p] < |src| && src[result[p]] != dst[result[p]]
    ensures forall i: nat :: i < |src| && src[i] != dst[i] ==> Occurs(result, i)
    ensures forall p, q :: 0 <= p < q < |result| ==> result[p] < result[q]
  {
    result := [];
    for i := 0 to |src|
      invariant forall p :: 0 <= p < |result| ==> result[p] < i && src[result[p]] != dst[result[p]]
      invariant forall j: nat :: j < i && src[j] != dst[j] ==> Occurs(result, j)
      invariant forall p, q :: 0 <= p < q < |result| ==> result[p] < result[q]
    {
      if src[i] != dst[i] {
        OccursSnoc(result, i);
        result := result + [i];
      }
    }
  }

  lemma OccursSnoc(s: seq<nat>, x: nat)
    ensures forall i: nat :: Occurs(s + [x], i) <==> Occurs(s, i) || i == x
  {
    forall i: nat
      ensures Occurs(s + [x], i) <==> Occurs(s, i) || i == x
    {
      if Occurs(s, i) {
        var p :| 0 <= p < |s| && s[p] == i;
        assert (s + [x])[p] == i;
      }
      assert (s + [x])[|s|] == x;
    }
  }

  /** What the loop has collected of the first `n` axes. */
  ghost predicate Sorted(src: seq<Placement>, dst: seq<Placement>, list: seq<nat>, gathers: bool, n: nat)
    requires |src| == |dst| && n <= |src|
  {
    && (forall p :: 0 <= p < |list| ==> list[p] < n)
    && (forall i: nat :: i < n ==> (Occurs(list, i) <==> src[i] != dst[i] && IsGather(src[i], dst[i]) == gathers))
    && (forall p, q :: 0 <= p < q < |list| ==> list[p] < list[q])
  }

  lemma SortedNext(src: seq<Placement>, dst: seq<Placement>, list: seq<nat>, gathers: bool, n: nat, next: seq<nat>)
    requires |src| == |dst| && n < |src| && Sorted(src, dst, list, gathers, n)
    requires next == list + if src[n] != dst[n] && IsGather(src[n], dst[n]) == gathers then [n] else []
    ensures Sorted(src, dst, next, gathers, n + 1)
  {
    OccursSnoc(list, n);
    if next == list + [n] {
    } else {
      assert next == list;
      assert !Occurs(list, n);
    }
  }

  function Reversed(s: seq<nat>): (r: seq<nat>)
    ensures |r| == |s| && forall p :: 0 <= p < |s| ==> r[p] == s[|s| - 1 - p]
  {
    seq(|s|, p requires 0 <= p < |s| => s[|s| - 1 - p])
  }

  lemma OrderOf(src: seq<Placement>, dst: seq<Placement>, forward: seq<nat>, b2f: seq<nat>)
    requires |src| == |dst|
    requires Sorted(src, dst, forward, false, |src|) && Sorted(src, dst, b2f, true, |src|)
    ensures OrderRight(src, dst, forward + Reversed(b2f))
  {
    var order := forward + Reversed(b2f);
    forall i: nat | i < |src|
      ensures Occurs(order, i) <==> Occurs(forward, i) || Occurs(b2f, i)
    {
      if Occurs(forward, i) {
        var p :| 0 <= p < |forward| && forward[p] == i;
        assert order[p] == i;
      }
      if Occurs(b2f, i) {
        var p :| 0 <= p < |b2f| && b2f[p] == i;
        assert order[|forward| + (|b2f| - 1 - p)] == i;
      }
      if Occurs(order, i) {
        var p :| 0 <= p < |order| && order[p] == i;
        assert p < |forward| ==> forward[p] == i;
        assert p >= |forward| ==> b2f[|b2f| - 1 - (p - |forward|)] == i;
      }
    }
    forall p, q | 0 <= p < q < |order|
      ensures Precedes(src, dst, order[p], order[q])
    {
      KindOf(src, dst, forward, b2f, p);
      KindOf(src, dst, forward, b2f, q);
    }
  }

  lemma KindOf(src: seq<Placement>, dst: seq<Placement>, forward: seq<nat>, b2f: seq<nat>, p: nat)
    requires |src| == |dst| && p < |forward| + |b2f|
    requires Sorted(src, dst, forward, false, |src|) && Sorted(src, dst, b2f, true, |src|)
    ensures var i := (forward + Reversed(b2f))[p]; i < |src| && (IsGather(src[i], dst[i]) <==> p >= |forward|)
  {
    var i := (forward + Reversed(b2f))[p];
    if p < |forward| {
      assert forward[p] == i && Occurs(forward, i);
    } else {
      assert b2f[|b2f| - 1 - (p - |forward|)] == i && Occurs(b2f, i);
    }
  }

  method GetConvertOrder(src: seq<Placement>, dst: seq<Placement>) returns (result: seq<nat>)
    requires |src| == |dst|
    ensures OrderRight(src, dst, result)
  {
    var b2f: seq<nat> := [];
    result := [];
    for i := 0 to |src|
      invariant Sorted(src, dst, result, false, i) && Sorted(src, dst, b2f, true, i)
    {
      ghost var r, b := result, b2f;
      if src[i].Shard? && dst[i].Replicate? {
        b2f := b2f + [i];
      } else if src[i] != dst[i] {
        result := result + [i];
      }
      SortedNext(src, dst, r, false, i, result);
      SortedNext(src, dst, b, true, i, b2f);
    }
    OrderOf(src, dst, result, b2f);
    result := result + Reversed(b2f);
  }
}

/** What the devices hold before and after placements are converted along one mesh axis. A layout says, for
  * every device coordinate and every tensor dimension, which global indices the device holds, in order. */
module ConvertLayout {
  import opened MeshArithmetic
  import opened DistributedSpec
  import opened NestedSplit

  type Layout = (seq<nat>, nat) -> seq<nat>

  function Interval(start: nat, n: nat): (r: seq<nat>) {
    seq<nat>(n, k requires 0 <= k => start + k)
  }

  // ---------------------------------------------------------------- one step

  /** The pieces of the devices that differ along axis `i` only, in order. */
  function Pieces(layout: Layout, c: seq<nat>, i: nat, d: nat, n: nat): (r: seq<nat>)
    requires i < |c|
  {
    if n == 0 then [] else Pieces(layout, c, i, d, n - 1) + layout(c[i := n - 1], d)
  }

  /** All-gather along axis `i`: concatenation along tensor dimension `d`. */
  function Gathered(layout: Layout, ms: seq<nat>, i: nat, d: nat): (r: Layout) {
    (c: seq<nat>, x: nat) => if x == d && i < |c| && i < |ms| then Pieces(layout, c, i, d, ms[i]) else layout(c, x)
  }

  /** The k-th of the pieces that a split into `m` gives. */
  function SplitPiece(s: seq<nat>, k: nat, m: nat): (r: seq<nat>) {
    if k < m then
      PieceBound(|s|, k, m);
      s[ShardOffset(|s|, m, k)..ShardOffset(|s|, m, k + 1)]
    else []
  }

  lemma PieceBound(n: nat, k: nat, m: nat)
    requires k < m
    ensures ShardOffset(n, m, k) <= ShardOffset(n, m, k + 1) <= n
  {
    NextOffset(n, m, k);
    MulMono(k + 1, m, n / m);
    WholeOffset(n, m);
  }

  /** Each device keeps its own piece along axis `i` of tensor dimension `d`. */
  function Scattered(layout: Layout, ms: seq<nat>, i: nat, d: nat): (r: Layout) {
    (c: seq<nat>, x: nat) => if x == d && i < |c| && i < |ms| then SplitPiece(layout(c, x), c[i], ms[i]) else layout(c, x)
  }

  /** What the device at `c` is sent by the one with number `k` along axis `i`: of dimension `e` the piece
    * with its own number, of the other dimensions everything. */
  function Received(layout: Layout, ms: seq<nat>, i: nat, e: nat, c: seq<nat>, k: nat): (r: nat -> seq<nat>)
    requires i < |c| && i < |ms|
  {
    (x: nat) => if x == e then SplitPiece(layout(c[i := k], x), c[i], ms[i]) else layout(c[i := k], x)
  }

  /** All-to-all along axis `i`: what is received, concatenated along dimension `d`. In the other dimensions
    * a concatenation is as its first part. */
  function Exchanged(layout: Layout, ms: seq<nat>, i: nat, d: nat, e: nat): (r: Layout) {
    (c: seq<nat>, x: nat) =>
      if !(i < |c| && i < |ms|) then layout(c, x)
      else if x == d then ReceivedParts(layout, ms, i, d, e, c, ms[i])
      else Received(layout, ms, i, e, c, 0)(x)
  }

  function ReceivedParts(layout: Layout, ms: seq<nat>, i: nat, d: nat, e: nat, c: seq<nat>, n: nat): (r: seq<nat>)
    requires i < |c| && i < |ms|
  {
    if n == 0 then [] else ReceivedParts(layout, ms, i, d, e, c, n - 1) + Received(layout, ms, i, e, c, n - 1)(d)
  }

  /** One conversion along axis `i`: all-gather, scatter, or all-to-all. */
  function Converted(layout: Layout, ms: seq<nat>, i: nat, src: Placement, dst: Placement): (r: Layout) {
    match (src, dst)
    case (Shard(d, _), Replicate) => if d >= 0 then Gathered(layout, ms, i, d) else layout
    case (Replicate, Shard(e, _)) => if e >= 0 then Scattered(layout, ms, i, e) else layout
    case (Shard(d, _), Shard(e, _)) => if d >= 0 && e >= 0 then Exchanged(layout, ms, i, d, e) else layout
    case _ => layout
  }

  // ---------------------------------------------------------------- canonical layouts

  /** The device at `c` holds its own chunk of dimension `d`. */
  ghost predicate HoldsChunk(held: seq<nat>, size: nat, ms: seq<nat>, pl: seq<Placement>, d: nat, c: seq<nat>)
    requires |ms| == |pl| == |c| && Positive(ms)
  {
    NumShardsPositive(ms, pl, d);
    var n, k := NumShards(ms, pl, d), Chunk(ms, pl, d, c);
    held == Interval(ShardOffset(size, n, k), ShardSize(size, n, k))
  }

  ghost predicate CanonicalAlong(layout: Layout, shape: seq<nat>, ms: seq<nat>, pl: seq<Placement>, d: nat)
    requires |ms| == |pl| && Positive(ms) && d < |shape|
  {
    forall c :: InBounds(c, ms) ==> HoldsChunk(layout(c, d), shape[d], ms, pl, d, c)
  }

  ghost predicate Canonical(layout: Layout, shape: seq<nat>, ms: seq<nat>, pl: seq<Placement>)
    requires |ms| == |pl| && Positive(ms)
  {
    forall d: nat :: d < |shape| ==> CanonicalAlong(layout, shape, ms, pl, d)
  }

  /** Plain shardings, as the conversion leaves them after normalising: dimensions exist, and no axis of
    * size one is sharded. */
  predicate Plain(shape: seq<nat>, ms: seq<nat>, pl: seq<Placement>)
    requires |ms| == |pl|
  {
    forall i :: 0 <= i < |pl| ==>
      pl[i].Replicate? || (pl[i].Shard? && pl[i].subSplit == -1 && 0 <= pl[i].dim < |shape| && ms[i] >= 2)
  }

  /** Plain placements that pass the validity check, as every placement on the way has to. */
  predicate Accepted(shape: seq<nat>, ms: seq<nat>, pl: seq<Placement>) {
    |ms| == |pl| && Positive(ms) && Plain(shape, ms, pl) && DimsExist(shape, pl) && ShapeValid(shape, ms, pl)
  }

  /** These are the placements that the validity check lets through on a mesh of several usable devices, among
    * those that only shard and replicate. */
  lemma AcceptedMeansValid(shape: seq<nat>, mesh: DeviceMesh, pl: seq<Placement>, totalGpuCount: int)
    requires mesh.Valid() && |mesh.data| >= 2 && |pl| == |mesh.shape| && DeviceIdsValid(mesh, totalGpuCount)
    requires forall i :: 0 <= i < |pl| ==> pl[i].Replicate? || (pl[i].Shard? && pl[i].subSplit == -1)
    ensures Accepted(shape, mesh.shape, pl) <==> SpecValid(shape, mesh, pl, totalGpuCount)
  {
    assert |shape| > 0 ==> shape[0] != -100;
    assert |mesh.shape| == 0 ==> Prod(mesh.shape) == 1;
    ValidMeans(shape, mesh, pl, totalGpuCount);
    if Plain(shape, mesh.shape, pl) {
      ShapeValidMeans(shape, mesh.shape, pl);
    }
  }

  lemma AcceptedSize(shape: seq<nat>, ms: seq<nat>, pl: seq<Placement>, i: nat)
    requires Accepted(shape, ms, pl) && i < |pl| && pl[i].Shard?
    ensures 0 <= pl[i].dim < |shape| && shape[pl[i].dim] >= NumShards(ms, pl, pl[i].dim)
  {
    assert pl[i].dim in ShardedDims(pl);
  }

  /** Axis `i` is the last one to shard dimension `d`, if it does. */
  predicate NoLater(pl: seq<Placement>, i: nat, d: int) {
    forall j :: i < j < |pl| ==> !pl[j].IsShard(d)
  }

  // ---------------------------------------------------------------- chunk numbers around one axis

  lemma {:induction false} ChunkConcat(ms: seq<nat>, pl: seq<Placement>, d: int, c: seq<nat>,
                                       ns: seq<nat>, ql: seq<Placement>, e: seq<nat>)
    requires |ms| == |pl| == |c| && |ns| == |ql| == |e|
    ensures NumShards(ms + ns, pl + ql, d) == NumShards(ms, pl, d) * NumShards(ns, ql, d)
    ensures Chunk(ms + ns, pl + ql, d, c + e) == Chunk(ms, pl, d, c) * NumShards(ns, ql, d) + Chunk(ns, ql, d, e)
  {
    if |ns| == 0 {
      assert ms + ns == ms && pl + ql == pl && c + e == c;
    } else {
      var n := |ns| - 1;
      assert (ms + ns)[..|ms| + n] == ms + ns[..n] && (pl + ql)[..|ms| + n] == pl + ql[..n] && (c + e)[..|ms| + n] == c + e[..n];
      ChunkConcat(ms, pl, d, c, ns[..n], ql[..n], e[..n]);
      if ql[n].IsShard(d) {
        FoldFactor(Chunk(ms, pl, d, c), NumShards(ns[..n], ql[..n], d), Chunk(ns[..n], ql[..n], d, e[..n]), ns[n]);
        MulAssoc(NumShards(ms, pl, d), NumShards(ns[..n], ql[..n], d), ns[n]);
      }
    }
  }

  /** The chunk number and the number of chunks, seen from axis `i`: `front` is the chunk number of the axes
    * before it, `width` and `rest` those of the axes behind it. */
  lemma AtAxis(ms: seq<nat>, pl: seq<Placement>, d: int, c: seq<nat>, i: nat)
    requires |ms| == |pl| == |c| && i < |ms|
    ensures var front, width, rest := Chunk(ms[..i], pl[..i], d, c[..i]), NumShards(ms[i + 1..], pl[i + 1..], d),
                                      Chunk(ms[i + 1..], pl[i + 1..], d, c[i + 1..]);
      && Chunk(ms, pl, d, c) == (if pl[i].IsShard(d) then front * ms[i] + c[i] else front) * width + rest
      && NumShards(ms, pl, d) == (NumShards(ms[..i], pl[..i], d) * if pl[i].IsShard(d) then ms[i] else 1) * width
  {
    assert ms == ms[..i + 1] + ms[i + 1..] && pl == pl[..i + 1] + pl[i + 1..] && c == c[..i + 1] + c[i + 1..];
    ChunkConcat(ms[..i + 1], pl[..i + 1], d, c[..i + 1], ms[i + 1..], pl[i + 1..], c[i + 1..]);
    UpToAxis(ms, pl, d, c, i);
  }

  lemma UpToAxis(ms: seq<nat>, pl: seq<Placement>, d: int, c: seq<nat>, i: nat)
    requires |ms| == |pl| == |c| && i < |ms|
    ensures NumShards(ms[..i + 1], pl[..i + 1], d) == NumShards(ms[..i], pl[..i], d) * if pl[i].IsShard(d) then ms[i] else 1
    ensures Chunk(ms[..i + 1], pl[..i + 1], d, c[..i + 1]) ==
      if pl[i].IsShard(d) then Chunk(ms[..i], pl[..i], d, c[..i]) * ms[i] + c[i] else Chunk(ms[..i], pl[..i], d, c[..i])
  {
    assert ms[..i + 1][..i] == ms[..i] && pl[..i + 1][..i] == pl[..i] && c[..i + 1][..i] == c[..i];
  }

  lemma NothingLater(ms: seq<nat>, pl: seq<Placement>, d: int, c: seq<nat>, i: nat)
    requires |ms| == |pl| == |c| && i < |ms| && NoLater(pl, i, d)
    ensures NumShards(ms[i + 1..], pl[i + 1..], d) == 1 && Chunk(ms[i + 1..], pl[i + 1..], d, c[i + 1..]) == 0
  {
    assert AxesOf(pl[i + 1..], d) == {};
    Unsharded(ms[i + 1..], pl[i + 1..], d, c[i + 1..]);
  }

  lemma {:induction false} SomethingLater(ms: seq<nat>, pl: seq<Placement>, d: int)
    requires |ms| == |pl| && Positive(ms)
    requires exists j :: 0 <= j < |pl| && pl[j].IsShard(d) && ms[j] >= 2
    ensures NumShards(ms, pl, d) >= 2
  {
    var n := |ms| - 1;
    NumShardsPositive(ms[..n], pl[..n], d);
    if pl[n].IsShard(d) && ms[n] >= 2 {
      MulMono(1, NumShards(ms[..n], pl[..n], d), ms[n]);
    } else {
      var j :| 0 <= j < |pl| && pl[j].IsShard(d) && ms[j] >= 2;
      assert pl[..n][j].IsShard(d) && ms[..n][j] >= 2;
      SomethingLater(ms[..n], pl[..n], d);
      if pl[n].IsShard(d) {
        MulMono(1, ms[n], NumShards(ms[..n], pl[..n], d));
      }
    }
  }

  // ---------------------------------------------------------------- one step, one dimension

  lemma IntervalConcat(a: nat, n: nat, k: nat)
    ensures Interval(a, n) + Interval(a + n, k) == Interval(a, n + k)
  {
  }

  lemma IntervalsDiffer(a: nat, n: nat, b: nat, k: nat)
    requires n != k || (n > 0 && a != b)
    ensures Interval(a, n) != Interval(b, k)
  {
    assert |Interval(a, n)| == n && |Interval(b, k)| == k;
    assert n > 0 ==> Interval(a, n)[0] == a;
    assert k > 0 ==> Interval(b, k)[0] == b;
  }

  lemma InBoundsAt(c: seq<nat>, ms: seq<nat>, i: nat, k: nat)
    requires InBounds(c, ms) && i < |ms| && k < ms[i]
    ensures InBounds(c[i := k], ms)
    ensures c[i := k][..i] == c[..i] && c[i := k][i + 1..] == c[i + 1..]
  {
  }

  /** Cutting along a last axis refines the chunks of the axes before it. */
  lemma LastAxis(ms: seq<nat>, pl: seq<Placement>, d: nat, c: seq<nat>, i: nat, q: Placement)
    requires |ms| == |pl| == |c| && i < |ms| && !pl[i].IsShard(d) && q.IsShard(d) && NoLater(pl, i, d)
    ensures NumShards(ms, pl[i := q], d) == NumShards(ms, pl, d) * ms[i]
    ensures Chunk(ms, pl[i := q], d, c) == Chunk(ms, pl, d, c) * ms[i] + c[i]
    ensures Chunk(ms, pl, d, c) == Chunk(ms[..i], pl[..i], d, c[..i])
    ensures NumShards(ms, pl, d) == NumShards(ms[..i], pl[..i], d)
  {
    var ql := pl[i := q];
    AtAxis(ms, pl, d, c, i);
    AtAxis(ms, ql, d, c, i);
    NothingLater(ms, pl, d, c, i);
    assert ql[..i] == pl[..i] && ql[i + 1..] == pl[i + 1..];
  }

  /** Every chunk number belongs to some device. */
  lemma {:induction false} Holder(ms: seq<nat>, pl: seq<Placement>, d: int, q: nat) returns (c: seq<nat>)
    requires |ms| == |pl| && Positive(ms) && q < NumShards(ms, pl, d)
    ensures InBounds(c, ms) && Chunk(ms, pl, d, c) == q
  {
    if |ms| == 0 {
      return [];
    }
    var n := |ms| - 1;
    if pl[n].IsShard(d) {
      DivBound(q, NumShards(ms[..n], pl[..n], d), ms[n]);
      DivRem(q, ms[n]);
      var front := Holder(ms[..n], pl[..n], d, q / ms[n]);
      c := front + [q % ms[n]];
      assert c[..n] == front;
    } else {
      var front := Holder(ms[..n], pl[..n], d, q);
      c := front + [0];
      assert c[..n] == front;
    }
  }

  /** The group of chunks that the devices along axis `i` through `c` hold: `n` chunks in all, theirs from
    * number `a` on. */
  ghost predicate Group(ms: seq<nat>, pl: seq<Placement>, i: nat, d: nat, c: seq<nat>, n: nat, a: nat) {
    && |ms| == |pl| && Positive(ms) && i < |ms| && pl[i].IsShard(d) && NoLater(pl, i, d) && InBounds(c, ms)
    && n == NumShards(ms, pl, d) == NumShards(ms, pl[i := Replicate], d) * ms[i]
    && a == Chunk(ms, pl[i := Replicate], d, c) * ms[i]
    && a + ms[i] <= n
  }

  lemma GroupOf(ms: seq<nat>, pl: seq<Placement>, i: nat, d: nat, c: seq<nat>) returns (n: nat, a: nat)
    requires |ms| == |pl| && Positive(ms) && i < |ms| && pl[i].IsShard(d) && NoLater(pl, i, d) && InBounds(c, ms)
    ensures Group(ms, pl, i, d, c, n, a)
    ensures a + ms[i] == (Chunk(ms, pl[i := Replicate], d, c) + 1) * ms[i]
  {
    var ql := pl[i := Replicate];
    assert ql[i := pl[i]] == pl;
    LastAxis(ms, ql, d, c, i, pl[i]);
    ChunkBound(ms, ql, d, c);
    n, a := NumShards(ms, pl, d), Chunk(ms, ql, d, c) * ms[i];
    NextMultiple(Chunk(ms, ql, d, c), NumShards(ms, ql, d), ms[i]);
  }

  lemma NextMultiple(q: nat, n: nat, m: nat)
    requires q < n
    ensures q * m + m == (q + 1) * m <= n * m
  {
    MulMono(q + 1, n, m);
  }

  /** What the neighbours of `c` along axis `i` hold, when nothing behind the axis cuts the dimension. */
  lemma Neighbour(layout: Layout, shape: seq<nat>, ms: seq<nat>, pl: seq<Placement>, i: nat, d: nat, c: seq<nat>, k: nat,
                  n: nat, a: nat)
    requires Group(ms, pl, i, d, c, n, a) && n > 0 && d < |shape|
    requires CanonicalAlong(layout, shape, ms, pl, d) && k < ms[i]
    ensures layout(c[i := k], d) == Interval(ShardOffset(shape[d], n, a + k), ShardSize(shape[d], n, a + k))
  {
    var ql := pl[i := Replicate];
    assert ql[i := pl[i]] == pl;
    InBoundsAt(c, ms, i, k);
    LastAxis(ms, ql, d, c, i, pl[i]);
    LastAxis(ms, ql, d, c[i := k], i, pl[i]);
    assert HoldsChunk(layout(c[i := k], d), shape[d], ms, pl, d, c[i := k]);
  }

  /** Chunks from `a` up to `b` in a row. */
  function Chunks(size: nat, n: nat, a: nat, b: nat): (r: seq<nat>)
    requires n > 0
  {
    if ShardOffset(size, n, a) <= ShardOffset(size, n, b)
    then Interval(ShardOffset(size, n, a), ShardOffset(size, n, b) - ShardOffset(size, n, a)) else []
  }

  lemma {:induction false} NextChunk(size: nat, n: nat, a: nat, b: nat)
    requires a <= b < n
    ensures ShardOffset(size, n, a) <= ShardOffset(size, n, b)
    ensures Chunks(size, n, a, b + 1) == Chunks(size, n, a, b) + Interval(ShardOffset(size, n, b), ShardSize(size, n, b))
    decreases b
  {
    if a < b {
      NextChunk(size, n, a, b - 1);
      NextOffset(size, n, b - 1);
    }
    NextOffset(size, n, b);
    IntervalConcat(ShardOffset(size, n, a), ShardOffset(size, n, b) - ShardOffset(size, n, a), ShardSize(size, n, b));
  }

  lemma {:induction false} PiecesAre(layout: Layout, shape: seq<nat>, ms: seq<nat>, pl: seq<Placement>, i: nat, d: nat,
                                     c: seq<nat>, k: nat, n: nat, a: nat)
    requires Group(ms, pl, i, d, c, n, a) && n > 0 && d < |shape|
    requires CanonicalAlong(layout, shape, ms, pl, d) && k <= ms[i]
    ensures Pieces(layout, c, i, d, k) == Chunks(shape[d], n, a, a + k)
  {
    if k > 0 {
      PiecesAre(layout, shape, ms, pl, i, d, c, k - 1, n, a);
      Neighbour(layout, shape, ms, pl, i, d, c, k - 1, n, a);
      NextChunk(shape[d], n, a, a + (k - 1));
    }
  }

  /** What a device holds after gathering the last axis that cuts a dimension: the chunks of a whole group. */
  lemma GatherAt(layout: Layout, shape: seq<nat>, ms: seq<nat>, pl: seq<Placement>, i: nat, d: nat, c: seq<nat>)
    requires |ms| == |pl| && Positive(ms) && d < |shape| && i < |ms| && pl[i].IsShard(d) && NoLater(pl, i, d)
    requires CanonicalAlong(layout, shape, ms, pl, d) && InBounds(c, ms)
    ensures NumShards(ms, pl, d) == NumShards(ms, pl[i := Replicate], d) * ms[i] > 0
    ensures var q := Chunk(ms, pl[i := Replicate], d, c);
      Gathered(layout, ms, i, d)(c, d) == Chunks(shape[d], NumShards(ms, pl, d), q * ms[i], (q + 1) * ms[i])
  {
    var n, a := GroupOf(ms, pl, i, d, c);
    NumShardsPositive(ms, pl, d);
    PiecesAre(layout, shape, ms, pl, i, d, c, ms[i], n, a);
  }

  /** Gathering the last axis that cuts a dimension gives the canonical layout without that axis if and only
    * if the sizes of the coarser split are sums of those of the finer one. */
  lemma GatherLast(layout: Layout, shape: seq<nat>, ms: seq<nat>, pl: seq<Placement>, i: nat, d: nat)
    requires |ms| == |pl| && Positive(ms) && d < |shape| && i < |ms| && pl[i].IsShard(d) && NoLater(pl, i, d)
    requires ms[i] >= 2 && shape[d] >= NumShards(ms, pl, d) && CanonicalAlong(layout, shape, ms, pl, d)
    ensures CanonicalAlong(Gathered(layout, ms, i, d), shape, ms, pl[i := Replicate], d) <==>
      CutAgrees(shape[d], NumShards(ms, pl[i := Replicate], d), ms[i])
  {
    var ql := pl[i := Replicate];
    NumShardsPositive(ms, ql, d);
    if CutAgrees(shape[d], NumShards(ms, ql, d), ms[i]) {
      forall c | InBounds(c, ms)
        ensures HoldsChunk(Gathered(layout, ms, i, d)(c, d), shape[d], ms, ql, d, c)
      {
        GatherAt(layout, shape, ms, pl, i, d, c);
        GroupIsChunk(shape[d], ms, ql, i, d, c);
      }
    } else {
      GatherUneven(layout, shape, ms, pl, i, d);
    }
  }

  lemma GroupIsChunk(size: nat, ms: seq<nat>, ql: seq<Placement>, i: nat, d: nat, c: seq<nat>)
    requires |ms| == |ql| && i < |ms| && InBounds(c, ms) && Positive(ms) && ms[i] >= 2
    requires CutAgrees(size, NumShards(ms, ql, d), ms[i])
    ensures NumShards(ms, ql, d) > 0 && NumShards(ms, ql, d) * ms[i] > 0
    ensures var n, q := NumShards(ms, ql, d), Chunk(ms, ql, d, c);
      Chunks(size, n * ms[i], q * ms[i], (q + 1) * ms[i]) == Interval(ShardOffset(size, n, q), ShardSize(size, n, q))
  {
    var n, q := NumShards(ms, ql, d), Chunk(ms, ql, d, c);
    NumShardsPositive(ms, ql, d);
    ChunkBound(ms, ql, d, c);
    GroupStart(size, n, ms[i], q);
    GroupStart(size, n, ms[i], q + 1);
    NextOffset(size, n, q);
  }

  lemma GatherUneven(layout: Layout, shape: seq<nat>, ms: seq<nat>, pl: seq<Placement>, i: nat, d: nat)
    requires |ms| == |pl| && Positive(ms) && d < |shape| && i < |ms| && pl[i].IsShard(d) && NoLater(pl, i, d)
    requires ms[i] >= 2 && shape[d] >= NumShards(ms, pl, d) && CanonicalAlong(layout, shape, ms, pl, d)
    requires !CutAgrees(shape[d], NumShards(ms, pl[i := Replicate], d), ms[i])
    ensures !CanonicalAlong(Gathered(layout, ms, i, d), shape, ms, pl[i := Replicate], d)
  {
    var ql := pl[i := Replicate];
    var n := NumShards(ms, ql, d);
    NumShardsPositive(ms, ql, d);
    assert ql[i := pl[i]] == pl;
    MoreShards(ms, ql, i, pl[i], d);
    var q, start, l := WrongGroup(shape[d], n, ms[i]);
    var c := Holder(ms, ql, d, q);
    GatherAt(layout, shape, ms, pl, i, d, c);
    NotChunk(Gathered(layout, ms, i, d)(c, d), shape[d], ms, ql, d, c, n, q, start, l);
  }

  /** A group whose chunks are not the chunk of the coarser split. */
  lemma WrongGroup(size: nat, outer: nat, inner: nat) returns (q: nat, start: nat, l: nat)
    requires outer >= 1 && inner >= 2 && !CutAgrees(size, outer, inner) && size >= outer * inner
    ensures outer * inner > 0 && q < outer && start == ShardOffset(size, outer, q) && l == ShardSize(size, outer, q)
    ensures Chunks(size, outer * inner, q * inner, (q + 1) * inner) != Interval(start, l)
  {
    q := GroupStartDiffers(size, outer, inner);
    CoarseNotEmpty(size, outer, inner, q);
    start, l := ShardOffset(size, outer, q), ShardSize(size, outer, q);
    NotTheChunks(size, outer * inner, q * inner, (q + 1) * inner, start, l);
  }

  lemma CoarseNotEmpty(size: nat, n: nat, m: nat, q: nat)
    requires n > 0 && m > 0 && size >= n * m && q < n
    ensures ShardSize(size, n, q) > 0
  {
    MulMono(1, m, n);
    MulComm(m, n);
    ShardSizesFair(size, n, q, q);
  }

  lemma NotChunk(held: seq<nat>, size: nat, ms: seq<nat>, pl: seq<Placement>, d: nat, c: seq<nat>, n: nat, q: nat,
                 start: nat, l: nat)
    requires |ms| == |pl| == |c| && Positive(ms) && NumShards(ms, pl, d) == n > 0 && Chunk(ms, pl, d, c) == q
    requires start == ShardOffset(size, n, q) && l == ShardSize(size, n, q) && held != Interval(start, l)
    ensures !HoldsChunk(held, size, ms, pl, d, c)
  {
  }

  lemma NotTheChunks(size: nat, n: nat, a: nat, b: nat, start: nat, l: nat)
    requires n > 0 && l > 0 && ShardOffset(size, n, a) != start
    ensures Chunks(size, n, a, b) != Interval(start, l)
  {
    var s, t := ShardOffset(size, n, a), ShardOffset(size, n, b);
    if s <= t {
      IntervalsDiffer(start, l, s, t - s);
    } else {
      assert |Interval(start, l)| == l;
    }
  }

  lemma PieceOfInterval(start: nat, l: nat, m: nat, k: nat)
    requires k < m
    ensures SplitPiece(Interval(start, l), k, m) == Interval(start + ShardOffset(l, m, k), ShardSize(l, m, k))
  {
    PieceBound(l, k, m);
    NextOffset(l, m, k);
  }

  /** What a device holds after scattering: a piece of its chunk. */
  lemma ScatterAt(layout: Layout, shape: seq<nat>, ms: seq<nat>, pl: seq<Placement>, i: nat, d: nat, c: seq<nat>, n: nat, q: nat,
                  l: nat)
    requires |ms| == |pl| && Positive(ms) && d < |shape| && i < |ms|
    requires CanonicalAlong(layout, shape, ms, pl, d) && InBounds(c, ms)
    requires n == NumShards(ms, pl, d) > 0 && q == Chunk(ms, pl, d, c) && l == ShardSize(shape[d], n, q)
    ensures Scattered(layout, ms, i, d)(c, d) ==
      Interval(ShardOffset(shape[d], n, q) + ShardOffset(l, ms[i], c[i]), ShardSize(l, ms[i], c[i]))
  {
    assert HoldsChunk(layout(c, d), shape[d], ms, pl, d, c);
    PieceOfInterval(ShardOffset(shape[d], n, q), l, ms[i], c[i]);
  }

  /** Which piece the device at `c` should have, and which it gets. */
  lemma PieceNumbers(size: nat, ms: seq<nat>, pl: seq<Placement>, i: nat, d: nat, c: seq<nat>)
    requires |ms| == |pl| && InBounds(c, ms) && Positive(ms) && i < |ms| && !pl[i].IsShard(d) && NoLater(pl, i, d)
    requires ms[i] >= 2 && CutAgrees(size, NumShards(ms, pl, d), ms[i])
    ensures NumShards(ms, pl, d) > 0 && NumShards(ms, pl[i := Shard(d, -1)], d) > 0
    ensures var n, q, m, k := NumShards(ms, pl, d), Chunk(ms, pl, d, c),
                              NumShards(ms, pl[i := Shard(d, -1)], d), Chunk(ms, pl[i := Shard(d, -1)], d, c);
      && ShardOffset(size, n, q) + ShardOffset(ShardSize(size, n, q), ms[i], c[i]) == ShardOffset(size, m, k)
      && ShardSize(ShardSize(size, n, q), ms[i], c[i]) == ShardSize(size, m, k)
  {
    var n, q := NumShards(ms, pl, d), Chunk(ms, pl, d, c);
    NumShardsPositive(ms, pl, d);
    LastAxis(ms, pl, d, c, i, Shard(d, -1));
    ChunkBound(ms, pl, d, c);
    NestedOffsets(size, n, ms[i], q, c[i]);
    CutMeansChunks(size, n, ms[i]);
    assert ChunkAgrees(size, n, ms[i], q, c[i]);
  }

  /** Scattering behind the last axis that cuts a dimension gives the canonical layout with the new axis if
    * and only if the two-stage split has the one-shot sizes. */
  lemma ScatterLast(layout: Layout, shape: seq<nat>, ms: seq<nat>, pl: seq<Placement>, i: nat, d: nat)
    requires |ms| == |pl| && Positive(ms) && d < |shape| && i < |ms| && !pl[i].IsShard(d) && NoLater(pl, i, d)
    requires ms[i] >= 2 && CanonicalAlong(layout, shape, ms, pl, d)
    ensures CanonicalAlong(Scattered(layout, ms, i, d), shape, ms, pl[i := Shard(d, -1)], d) <==>
      CutAgrees(shape[d], NumShards(ms, pl, d), ms[i])
  {
    if CutAgrees(shape[d], NumShards(ms, pl, d), ms[i]) {
      forall c | InBounds(c, ms)
        ensures HoldsChunk(Scattered(layout, ms, i, d)(c, d), shape[d], ms, pl[i := Shard(d, -1)], d, c)
      {
        PieceRight(layout, shape, ms, pl, i, d, c);
      }
    } else {
      NumShardsPositive(ms, pl, d);
      var a, b := WrongPiece(shape[d], NumShards(ms, pl, d), ms[i]);
      ScatterUneven(layout, shape, ms, pl, i, d, a, b);
    }
  }

  lemma PieceRight(layout: Layout, shape: seq<nat>, ms: seq<nat>, pl: seq<Placement>, i: nat, d: nat, c: seq<nat>)
    requires |ms| == |pl| && Positive(ms) && d < |shape| && i < |ms| && !pl[i].IsShard(d) && NoLater(pl, i, d)
    requires ms[i] >= 2 && CanonicalAlong(layout, shape, ms, pl, d) && InBounds(c, ms)
    requires CutAgrees(shape[d], NumShards(ms, pl, d), ms[i])
    ensures HoldsChunk(Scattered(layout, ms, i, d)(c, d), shape[d], ms, pl[i := Shard(d, -1)], d, c)
  {
    var n, q := NumShards(ms, pl, d), Chunk(ms, pl, d, c);
    PieceNumbers(shape[d], ms, pl, i, d, c);
    ScatterAt(layout, shape, ms, pl, i, d, c, n, q, ShardSize(shape[d], n, q));
  }

  lemma WrongPiece(size: nat, outer: nat, inner: nat) returns (a: nat, b: nat)
    requires outer > 0 && inner >= 2 && !CutAgrees(size, outer, inner)
    ensures outer * inner > 0 && a < outer && b < inner && !ChunkAgrees(size, outer, inner, a, b)
  {
    CutMeansChunks(size, outer, inner);
    a, b :| a < outer && b < inner && !ChunkAgrees(size, outer, inner, a, b);
  }

  /** The device that should have piece `b` of chunk `a`. */
  lemma PieceHolder(ms: seq<nat>, pl: seq<Placement>, i: nat, d: nat, a: nat, b: nat) returns (c: seq<nat>)
    requires |ms| == |pl| && Positive(ms) && i < |ms| && !pl[i].IsShard(d) && NoLater(pl, i, d)
    requires a < NumShards(ms, pl, d) && b < ms[i]
    ensures InBounds(c, ms) && Chunk(ms, pl, d, c) == a && c[i] == b
    ensures NumShards(ms, pl[i := Shard(d, -1)], d) == NumShards(ms, pl, d) * ms[i]
    ensures Chunk(ms, pl[i := Shard(d, -1)], d, c) == a * ms[i] + b
  {
    LastAxis(ms, pl, d, ms, i, Shard(d, -1));
    MulBound(a, b, NumShards(ms, pl, d), ms[i]);
    c := Holder(ms, pl[i := Shard(d, -1)], d, a * ms[i] + b);
    LastAxis(ms, pl, d, c, i, Shard(d, -1));
    DivModUnique(a, b, ms[i]);
    DivModUnique(Chunk(ms, pl, d, c), c[i], ms[i]);
  }

  lemma ScatterUneven(layout: Layout, shape: seq<nat>, ms: seq<nat>, pl: seq<Placement>, i: nat, d: nat, a: nat, b: nat)
    requires |ms| == |pl| && Positive(ms) && d < |shape| && i < |ms| && !pl[i].IsShard(d) && NoLater(pl, i, d)
    requires CanonicalAlong(layout, shape, ms, pl, d)
    requires NumShards(ms, pl, d) > 0 && NumShards(ms, pl, d) * ms[i] > 0 && a < NumShards(ms, pl, d) && b < ms[i]
    requires !ChunkAgrees(shape[d], NumShards(ms, pl, d), ms[i], a, b)
    ensures !CanonicalAlong(Scattered(layout, ms, i, d), shape, ms, pl[i := Shard(d, -1)], d)
  {
    var ql, n := pl[i := Shard(d, -1)], NumShards(ms, pl, d);
    var c := PieceHolder(ms, pl, i, d, a, b);
    var l := ShardSize(shape[d], n, a);
    ScatterAt(layout, shape, ms, pl, i, d, c, n, a, l);
    var got, want := ShardSize(l, ms[i], b), ShardSize(shape[d], n * ms[i], a * ms[i] + b);
    NotChunkSize(Scattered(layout, ms, i, d)(c, d), shape[d], ms, ql, d, c, n * ms[i], a * ms[i] + b, want);
  }

  lemma NotChunkSize(held: seq<nat>, size: nat, ms: seq<nat>, pl: seq<Placement>, d: nat, c: seq<nat>, n: nat, q: nat,
                     l: nat)
    requires |ms| == |pl| == |c| && Positive(ms) && NumShards(ms, pl, d) == n > 0 && Chunk(ms, pl, d, c) == q
    requires l == ShardSize(size, n, q) && |held| != l
    ensures !HoldsChunk(held, size, ms, pl, d, c)
  {
  }

  /** A dimension that neither the old nor the new placement of axis `i` cuts stays as it is. */
  lemma OtherDimension(held: seq<nat>, size: nat, ms: seq<nat>, pl: seq<Placement>, i: nat, q: Placement, x: nat, c: seq<nat>)
    requires |ms| == |pl| == |c| && Positive(ms) && i < |ms| && !pl[i].IsShard(x) && !q.IsShard(x)
    ensures HoldsChunk(held, size, ms, pl, x, c) <==> HoldsChunk(held, size, ms, pl[i := q], x, c)
    ensures NumShards(ms, pl, x) == NumShards(ms, pl[i := q], x)
  {
    var ql := pl[i := q];
    AtAxis(ms, pl, x, c, i);
    AtAxis(ms, ql, x, c, i);
    assert ql[..i] == pl[..i] && ql[i + 1..] == pl[i + 1..];
  }

  // ---------------------------------------------------------------- when a step goes wrong

  function Zeros(n: nat): (r: seq<nat>) {
    seq<nat>(n, _ => 0)
  }

  lemma {:induction false} ChunkOfZeros(ms: seq<nat>, pl: seq<Placement>, d: int, c: seq<nat>)
    requires |ms| == |pl| == |c| && forall i :: 0 <= i < |c| ==> c[i] == 0
    ensures Chunk(ms, pl, d, c) == 0
  {
    if |ms| > 0 {
      ChunkOfZeros(ms[..|ms| - 1], pl[..|ms| - 1], d, c[..|ms| - 1]);
    }
  }

  /** A device that differs from the first one along axis `i` only: its chunk is as far on as the axes
    * behind cut the dimension. */
  lemma UnitChunk(ms: seq<nat>, pl: seq<Placement>, d: int, e: seq<nat>, i: nat)
    requires |ms| == |pl| == |e| && i < |ms| && forall j :: 0 <= j < |e| && j != i ==> e[j] == 0
    ensures Chunk(ms, pl, d, e) == if pl[i].IsShard(d) then e[i] * NumShards(ms[i + 1..], pl[i + 1..], d) else 0
  {
    ChunkOfZeros(ms[..i], pl[..i], d, e[..i]);
    ChunkOfZeros(ms[i + 1..], pl[i + 1..], d, e[i + 1..]);
    AtAxis(ms, pl, d, e, i);
    FrontIsZero(ms[i], e[i], NumShards(ms[i + 1..], pl[i + 1..], d));
  }

  lemma FrontIsZero(m: nat, k: nat, w: nat)
    ensures (0 * m + k) * w + 0 == k * w && 0 * w + 0 == 0
  {
  }

  function Unit(n: nat, i: nat): (r: seq<nat>)
    requires i < n
  {
    Zeros(n)[i := 1]
  }

  lemma UnitInBounds(ms: seq<nat>, i: nat)
    requires Positive(ms) && i < |ms| && ms[i] >= 2
    ensures InBounds(Zeros(|ms|), ms) && InBounds(Unit(|ms|, i), ms)
  {
  }

  /** Some axis behind `i` cuts dimension `d` too. */
  predicate CutLater(ms: seq<nat>, pl: seq<Placement>, i: nat, d: int)
    requires |ms| == |pl|
  {
    exists j :: i < j < |pl| && pl[j].IsShard(d) && ms[j] >= 2
  }

  lemma WidthOfLater(ms: seq<nat>, pl: seq<Placement>, i: nat, d: int)
    requires |ms| == |pl| && Positive(ms) && i < |ms| && CutLater(ms, pl, i, d)
    ensures NumShards(ms[i + 1..], pl[i + 1..], d) >= 2
  {
    var j :| i < j < |pl| && pl[j].IsShard(d) && ms[j] >= 2;
    assert pl[i + 1..][j - i - 1].IsShard(d) && ms[i + 1..][j - i - 1] >= 2;
    SomethingLater(ms[i + 1..], pl[i + 1..], d);
  }

  lemma {:induction false} PiecesPrefix(layout: Layout, c: seq<nat>, i: nat, d: nat, k: nat, n: nat)
    requires i < |c| && k <= n
    ensures Pieces(layout, c, i, d, k) <= Pieces(layout, c, i, d, n)
  {
    if k < n {
      PiecesPrefix(layout, c, i, d, k, n - 1);
    }
  }

  /** Without empty chunks, later ones start later. */
  lemma OffsetGrows(size: nat, n: nat, j: nat, k: nat)
    requires n > 0 && size >= n && j < k
    ensures ShardOffset(size, n, j) < ShardOffset(size, n, k)
  {
    DivRem(size, n);
    assert size / n >= 1;
    MulMono(j + 1, k, size / n);
  }

  /** Gathering an axis in front of another one that cuts the same dimension interleaves the chunks. */
  lemma GatherBreaks(layout: Layout, shape: seq<nat>, ms: seq<nat>, pl: seq<Placement>, i: nat, d: nat)
    requires |ms| == |pl| && Positive(ms) && d < |shape| && i < |ms| && pl[i].IsShard(d) && ms[i] >= 2
    requires CutLater(ms, pl, i, d) && shape[d] >= NumShards(ms, pl, d)
    requires CanonicalAlong(layout, shape, ms, pl, d)
    ensures !CanonicalAlong(Gathered(layout, ms, i, d), shape, ms, pl[i := Replicate], d)
  {
    var c := Zeros(|ms|);
    NumShardsPositive(ms, pl, d);
    var n, w := NumShards(ms, pl, d), NumShards(ms[i + 1..], pl[i + 1..], d);
    WidthOfLater(ms, pl, i, d);
    FirstPieces(layout, shape, ms, pl, i, d);
    ShardSizesFair(shape[d], n, 0, 0);
    WidthInside(ms, pl, i, d);
    ShardSizesFair(shape[d], n, w, w);
    ZeroOffset(shape[d], n);
    NextOffset(shape[d], n, 0);
    OffsetGrows(shape[d], n, 1, w);
    SecondPiece(layout, c, i, d, ms[i], ShardSize(shape[d], n, 0), ShardOffset(shape[d], n, w), ShardSize(shape[d], n, w));
    NotFirstChunk(Gathered(layout, ms, i, d)(c, d), shape[d], ms, pl[i := Replicate], d, ShardSize(shape[d], n, 0));
    UnitInBounds(ms, i);
  }

  /** The chunk that differs from the first along axis `i` only is one of the chunks. */
  lemma WidthInside(ms: seq<nat>, pl: seq<Placement>, i: nat, d: nat)
    requires |ms| == |pl| && Positive(ms) && i < |ms| && pl[i].IsShard(d) && ms[i] >= 2
    ensures NumShards(ms[i + 1..], pl[i + 1..], d) < NumShards(ms, pl, d)
  {
    UnitInBounds(ms, i);
    UnitChunk(ms, pl, d, Unit(|ms|, i), i);
    ChunkBound(ms, pl, d, Unit(|ms|, i));
  }

  lemma FirstPieces(layout: Layout, shape: seq<nat>, ms: seq<nat>, pl: seq<Placement>, i: nat, d: nat)
    requires |ms| == |pl| && Positive(ms) && d < |shape| && i < |ms| && pl[i].IsShard(d) && ms[i] >= 2
    requires CanonicalAlong(layout, shape, ms, pl, d)
    ensures NumShards(ms, pl, d) > 0
    ensures var c, n, w := Zeros(|ms|), NumShards(ms, pl, d), NumShards(ms[i + 1..], pl[i + 1..], d);
      && layout(c[i := 0], d) == Interval(0, ShardSize(shape[d], n, 0))
      && layout(c[i := 1], d) == Interval(ShardOffset(shape[d], n, w), ShardSize(shape[d], n, w))
  {
    NumShardsPositive(ms, pl, d);
    UnitInBounds(ms, i);
    UnitChunk(ms, pl, d, Zeros(|ms|), i);
    UnitChunk(ms, pl, d, Unit(|ms|, i), i);
    ZeroOffset(shape[d], NumShards(ms, pl, d));
    assert Zeros(|ms|)[i := 0] == Zeros(|ms|);
    assert HoldsChunk(layout(Zeros(|ms|), d), shape[d], ms, pl, d, Zeros(|ms|));
    assert HoldsChunk(layout(Unit(|ms|, i), d), shape[d], ms, pl, d, Unit(|ms|, i));
  }

  /** The first device's chunk is an initial interval. */
  lemma NotFirstChunk(held: seq<nat>, size: nat, ms: seq<nat>, pl: seq<Placement>, d: nat, k: nat)
    requires |ms| == |pl| && Positive(ms) && k < |held| && held[k] != k
    ensures !HoldsChunk(held, size, ms, pl, d, Zeros(|ms|))
  {
    ChunkOfZeros(ms, pl, d, Zeros(|ms|));
    NumShardsPositive(ms, pl, d);
    ZeroOffset(size, NumShards(ms, pl, d));
    var l := ShardSize(size, NumShards(ms, pl, d), 0);
    assert k < l ==> Interval(0, l)[k] == k;
  }

  /** Where the second piece starts, and with what. */
  lemma SecondPiece(layout: Layout, c: seq<nat>, i: nat, d: nat, m: nat, l: nat, start: nat, k: nat)
    requires i < |c| && m >= 2 && k > 0
    requires layout(c[i := 0], d) == Interval(0, l) && layout(c[i := 1], d) == Interval(start, k)
    ensures |Pieces(layout, c, i, d, m)| > l && Pieces(layout, c, i, d, m)[l] == start
  {
    PiecesPrefix(layout, c, i, d, 2, m);
    assert Pieces(layout, c, i, d, 1) == Interval(0, l);
    assert Pieces(layout, c, i, d, 2) == Interval(0, l) + Interval(start, k);
  }

  /** Scattering in front of an axis that already cuts the dimension gives some device the wrong chunk. */
  lemma ScatterBreaks(layout: Layout, shape: seq<nat>, ms: seq<nat>, pl: seq<Placement>, i: nat, d: nat)
    requires |ms| == |pl| && Positive(ms) && d < |shape| && i < |ms| && !pl[i].IsShard(d) && ms[i] >= 2
    requires CutLater(ms, pl, i, d) && shape[d] >= NumShards(ms, pl[i := Shard(d, -1)], d)
    requires CanonicalAlong(layout, shape, ms, pl, d)
    ensures !CanonicalAlong(Scattered(layout, ms, i, d), shape, ms, pl[i := Shard(d, -1)], d)
  {
    var ql, e := pl[i := Shard(d, -1)], Unit(|ms|, i);
    NumShardsPositive(ms, pl, d);
    NumShardsPositive(ms, ql, d);
    assert ql[i + 1..] == pl[i + 1..] && ql[..i] == pl[..i];
    WidthOfLater(ms, pl, i, d);
    UnitInBounds(ms, i);
    UnitChunk(ms, pl, d, e, i);
    UnitChunk(ms, ql, d, e, i);
    MoreShards(ms, pl, i, Shard(d, -1), d);
    var n, w, l := NumShards(ms, ql, d), NumShards(ms[i + 1..], pl[i + 1..], d), ShardSize(shape[d], NumShards(ms, pl, d), 0);
    ScatterAt(layout, shape, ms, pl, i, d, e, NumShards(ms, pl, d), 0, l);
    SecondOfFirst(shape[d], NumShards(ms, pl, d), ms[i]);
    OffsetGrows(shape[d], n, 1, w);
    WidthInside(ms, ql, i, d);
    ShardSizesFair(shape[d], n, w, w);
    IntervalsDiffer(ShardOffset(shape[d], n, w), ShardSize(shape[d], n, w), ShardOffset(l, ms[i], 1), ShardSize(l, ms[i], 1));
    assert !HoldsChunk(Scattered(layout, ms, i, d)(e, d), shape[d], ms, ql, d, e);
  }

  /** A new axis multiplies the number of chunks. */
  lemma MoreShards(ms: seq<nat>, pl: seq<Placement>, i: nat, q: Placement, d: nat)
    requires |ms| == |pl| && i < |ms| && !pl[i].IsShard(d) && q.IsShard(d)
    ensures NumShards(ms, pl[i := q], d) == NumShards(ms, pl, d) * ms[i]
  {
    var ql := pl[i := q];
    AtAxis(ms, pl, d, ms, i);
    AtAxis(ms, ql, d, ms, i);
    assert ql[..i] == pl[..i] && ql[i + 1..] == pl[i + 1..];
    Reorder(NumShards(ms[..i], pl[..i], d), ms[i], NumShards(ms[i + 1..], pl[i + 1..], d));
  }

  lemma Reorder(f: nat, m: nat, w: nat)
    ensures (f * m) * w == (f * w) * m
  {
  }

  /** The first piece of the first chunk is as large as the first chunk of the finer split. */
  lemma SecondOfFirst(size: nat, outer: nat, inner: nat)
    requires outer > 0 && inner > 1
    ensures outer * inner > 0
    ensures ShardOffset(size, outer, 0) == 0
    ensures ShardOffset(ShardSize(size, outer, 0), inner, 1) == ShardOffset(size, outer * inner, 1)
  {
    MulMono(1, outer, inner);
    ZeroOffset(size, outer);
    ZeroOffset(size, outer * inner);
    NextOffset(size, outer * inner, 0);
    ZeroOffset(ShardSize(size, outer, 0), inner);
    NextOffset(ShardSize(size, outer, 0), inner, 0);
    FirstPiece(size, outer, inner);
  }

  lemma FirstPiece(size: nat, outer: nat, inner: nat)
    requires outer > 0 && inner > 1 && outer * inner > 0
    ensures ShardSize(ShardSize(size, outer, 0), inner, 0) == ShardSize(size, outer * inner, 0)
  {
    AgreementByRemainder(size, outer, inner, 0, 0);
    FirstNotEmpty(size % (outer * inner), outer);
    assert ChunkAgrees(size, outer, inner, 0, 0);
  }

  lemma FirstNotEmpty(r: nat, outer: nat)
    requires outer > 0
    ensures 0 < ShardSize(r, outer, 0) <==> 0 < r
  {
    DivRem(r, outer);
  }

  // ---------------------------------------------------------------- one step, exactly

  /** The order of the axes is right for the step: the axis is the last one to cut the dimension it gathers,
    * and the last one to cut the dimension it scatters. */
  predicate StepSafe(pl: seq<Placement>, i: nat, q: Placement)
    requires i < |pl|
  {
    && (pl[i].Shard? ==> NoLater(pl, i, pl[i].dim))
    && (q.Shard? ==> NoLater(pl, i, q.dim))
  }

  /** The sizes are right for the step: what it gathers or scatters was, or will be, cut in two stages with
    * the one-shot sizes. */
  predicate StepFits(shape: seq<nat>, ms: seq<nat>, pl: seq<Placement>, i: nat, q: Placement)
    requires |ms| == |pl| && i < |pl| && Plain(shape, ms, pl) && Plain(shape, ms, pl[i := q])
  {
    assert pl[i := q][i] == q;
    && (pl[i].Shard? ==> CutAgrees(shape[pl[i].dim], NumShards(ms, pl[i := Replicate], pl[i].dim), ms[i]))
    && (q.Shard? ==> CutAgrees(shape[q.dim], NumShards(ms, pl, q.dim), ms[i]))
  }

  /** A step the conversion may be asked for: both placements pass the validity check. */
  predicate IsStep(shape: seq<nat>, ms: seq<nat>, pl: seq<Placement>, i: nat, q: Placement) {
    Accepted(shape, ms, pl) && i < |pl| && pl[i] != q && Accepted(shape, ms, pl[i := q])
  }

  lemma LaterCuts(shape: seq<nat>, ms: seq<nat>, pl: seq<Placement>, i: nat, d: int)
    requires |ms| == |pl| && Plain(shape, ms, pl)
    ensures NoLater(pl, i, d) <==> !CutLater(ms, pl, i, d)
  {
  }

  lemma SameAlong(a: Layout, b: Layout, shape: seq<nat>, ms: seq<nat>, pl: seq<Placement>, d: nat)
    requires |ms| == |pl| && Positive(ms) && d < |shape|
    requires forall c :: InBounds(c, ms) ==> a(c, d) == b(c, d)
    ensures CanonicalAlong(a, shape, ms, pl, d) <==> CanonicalAlong(b, shape, ms, pl, d)
  {
    if CanonicalAlong(a, shape, ms, pl, d) {
      forall c | InBounds(c, ms)
        ensures HoldsChunk(b(c, d), shape[d], ms, pl, d, c)
      {
        assert HoldsChunk(a(c, d), shape[d], ms, pl, d, c);
      }
    }
    if CanonicalAlong(b, shape, ms, pl, d) {
      forall c | InBounds(c, ms)
        ensures HoldsChunk(a(c, d), shape[d], ms, pl, d, c)
      {
        assert HoldsChunk(b(c, d), shape[d], ms, pl, d, c);
      }
    }
  }

  lemma OtherAlong(layout: Layout, shape: seq<nat>, ms: seq<nat>, pl: seq<Placement>, i: nat, q: Placement, x: nat)
    requires |ms| == |pl| && Positive(ms) && x < |shape| && i < |ms| && !pl[i].IsShard(x) && !q.IsShard(x)
    ensures CanonicalAlong(layout, shape, ms, pl, x) <==> CanonicalAlong(layout, shape, ms, pl[i := q], x)
  {
    forall c | InBounds(c, ms)
      ensures HoldsChunk(layout(c, x), shape[x], ms, pl, x, c) <==> HoldsChunk(layout(c, x), shape[x], ms, pl[i := q], x, c)
    {
      OtherDimension(layout(c, x), shape[x], ms, pl, i, q, x, c);
    }
  }

  /** In a dimension that axis `i` does not cut, neighbours along it hold the same. */
  lemma NeighboursAgree(layout: Layout, shape: seq<nat>, ms: seq<nat>, pl: seq<Placement>, i: nat, x: nat, c: seq<nat>, k: nat)
    requires |ms| == |pl| && Positive(ms) && x < |shape| && i < |ms| && !pl[i].IsShard(x)
    requires CanonicalAlong(layout, shape, ms, pl, x) && InBounds(c, ms) && k < ms[i]
    ensures layout(c[i := k], x) == layout(c, x)
  {
    InBoundsAt(c, ms, i, k);
    AtAxis(ms, pl, x, c, i);
    AtAxis(ms, pl, x, c[i := k], i);
    assert HoldsChunk(layout(c, x), shape[x], ms, pl, x, c);
    assert HoldsChunk(layout(c[i := k], x), shape[x], ms, pl, x, c[i := k]);
  }

  lemma {:induction false} PartsArePieces(layout: Layout, ms: seq<nat>, i: nat, d: nat, e: nat, c: seq<nat>, n: nat)
    requires i < |c| && i < |ms| && d != e
    ensures ReceivedParts(layout, ms, i, d, e, c, n) == Pieces(layout, c, i, d, n)
  {
    if n > 0 {
      PartsArePieces(layout, ms, i, d, e, c, n - 1);
    }
  }

  /** From a canonical layout, an all-to-all does to the old dimension what a gather does, to the new one
    * what a scatter does, and leaves the others. */
  lemma ExchangeAt(layout: Layout, shape: seq<nat>, ms: seq<nat>, pl: seq<Placement>, i: nat, e: nat, x: nat, c: seq<nat>)
    requires |ms| == |pl| && Positive(ms) && x < |shape| && i < |ms| && InBounds(c, ms)
    requires pl[i].Shard? && 0 <= pl[i].dim != e && CanonicalAlong(layout, shape, ms, pl, x)
    ensures Exchanged(layout, ms, i, pl[i].dim, e)(c, x) ==
      if x == pl[i].dim then Gathered(layout, ms, i, x)(c, x) else if x == e then Scattered(layout, ms, i, x)(c, x) else layout(c, x)
  {
    if x == pl[i].dim {
      PartsArePieces(layout, ms, i, x, e, c, ms[i]);
    } else {
      NeighboursAgree(layout, shape, ms, pl, i, x, c, 0);
    }
  }

  /** Dimension by dimension, what one step does to a canonical layout. */
  lemma ConvertedAlong(layout: Layout, shape: seq<nat>, ms: seq<nat>, pl: seq<Placement>, i: nat, q: Placement, x: nat)
    requires IsStep(shape, ms, pl, i, q) && Canonical(layout, shape, ms, pl) && x < |shape|
    ensures forall c :: InBounds(c, ms) ==>
      Converted(layout, ms, i, pl[i], q)(c, x) ==
        (if pl[i].IsShard(x) then Gathered(layout, ms, i, x)(c, x)
         else if q.IsShard(x) then Scattered(layout, ms, i, x)(c, x) else layout(c, x))
  {
    assert pl[i := q][i] == q;
    assert CanonicalAlong(layout, shape, ms, pl, x);
    if pl[i].Shard? && q.Shard? {
      forall c | InBounds(c, ms)
        ensures Converted(layout, ms, i, pl[i], q)(c, x) == Exchanged(layout, ms, i, pl[i].dim, q.dim)(c, x) ==
          if pl[i].IsShard(x) then Gathered(layout, ms, i, x)(c, x)
          else if q.IsShard(x) then Scattered(layout, ms, i, x)(c, x) else layout(c, x)
      {
        ExchangeAt(layout, shape, ms, pl, i, q.dim, x, c);
      }
    }
  }

  lemma GatheredExactly(layout: Layout, shape: seq<nat>, ms: seq<nat>, pl: seq<Placement>, i: nat, q: Placement)
    requires IsStep(shape, ms, pl, i, q) && Canonical(layout, shape, ms, pl) && pl[i].Shard?
    ensures 0 <= pl[i].dim < |shape|
    ensures CanonicalAlong(Converted(layout, ms, i, pl[i], q), shape, ms, pl[i := q], pl[i].dim) <==>
      NoLater(pl, i, pl[i].dim) && CutAgrees(shape[pl[i].dim], NumShards(ms, pl[i := Replicate], pl[i].dim), ms[i])
  {
    var d := pl[i].dim;
    assert pl[i := q][i] == q;
    assert !q.IsShard(d);
    AcceptedSize(shape, ms, pl, i);
    assert CanonicalAlong(layout, shape, ms, pl, d);
    LaterCuts(shape, ms, pl, i, d);
    if NoLater(pl, i, d) {
      GatherLast(layout, shape, ms, pl, i, d);
    } else {
      GatherBreaks(layout, shape, ms, pl, i, d);
    }
    assert pl[i := Replicate][i := q] == pl[i := q];
    OtherAlong(Gathered(layout, ms, i, d), shape, ms, pl[i := Replicate], i, q, d);
    ConvertedAlong(layout, shape, ms, pl, i, q, d);
    SameAlong(Converted(layout, ms, i, pl[i], q), Gathered(layout, ms, i, d), shape, ms, pl[i := q], d);
  }

  lemma ScatteredExactly(layout: Layout, shape: seq<nat>, ms: seq<nat>, pl: seq<Placement>, i: nat, q: Placement)
    requires IsStep(shape, ms, pl, i, q) && Canonical(layout, shape, ms, pl) && q.Shard?
    ensures 0 <= q.dim < |shape|
    ensures CanonicalAlong(Converted(layout, ms, i, pl[i], q), shape, ms, pl[i := q], q.dim) <==>
      NoLater(pl, i, q.dim) && CutAgrees(shape[q.dim], NumShards(ms, pl, q.dim), ms[i])
  {
    assert pl[i := q][i] == q;
    var e := q.dim;
    assert q == Shard(e, -1) && !pl[i].IsShard(e);
    AcceptedSize(shape, ms, pl[i := q], i);
    assert CanonicalAlong(layout, shape, ms, pl, e);
    LaterCuts(shape, ms, pl, i, e);
    if NoLater(pl, i, e) {
      ScatterLast(layout, shape, ms, pl, i, e);
    } else {
      ScatterBreaks(layout, shape, ms, pl, i, e);
    }
    ConvertedAlong(layout, shape, ms, pl, i, q, e);
    SameAlong(Converted(layout, ms, i, pl[i], q), Scattered(layout, ms, i, e), shape, ms, pl[i := q], e);
  }

  /** From a canonical layout, one step lands on the canonical layout of the new placements exactly when the
    * axes are in the right order for it and the sizes fit. */
  lemma StepExactly(layout: Layout, shape: seq<nat>, ms: seq<nat>, pl: seq<Placement>, i: nat, q: Placement)
    requires IsStep(shape, ms, pl, i, q) && Canonical(layout, shape, ms, pl)
    ensures Canonical(Converted(layout, ms, i, pl[i], q), shape, ms, pl[i := q]) <==>
      StepSafe(pl, i, q) && StepFits(shape, ms, pl, i, q)
  {
    var next, ql := Converted(layout, ms, i, pl[i], q), pl[i := q];
    assert ql[i] == q;
    if pl[i].Shard? {
      GatheredExactly(layout, shape, ms, pl, i, q);
    }
    if q.Shard? {
      ScatteredExactly(layout, shape, ms, pl, i, q);
    }
    forall x: nat | x < |shape| && !pl[i].IsShard(x) && !q.IsShard(x)
      ensures CanonicalAlong(next, shape, ms, ql, x)
    {
      assert CanonicalAlong(layout, shape, ms, pl, x);
      OtherAlong(layout, shape, ms, pl, i, q, x);
      ConvertedAlong(layout, shape, ms, pl, i, q, x);
      SameAlong(next, layout, shape, ms, ql, x);
    }
  }
}

// Cutting a tensor into the pieces of a distribution and putting the pieces together again.
// The scatter works on the merged mesh, the gather on the mesh as given.

module ScatterGather {
  import opened MeshArithmetic
  import opened DistributedSpec
  import opened Tensors

  predicate Summed(p: Placement) {
    !p.Replicate? && !p.Shard?
  }

  predicate PlainBelow(pl: seq<Placement>, n: nat) {
    forall i | 0 <= i < |pl| && pl[i].Shard? :: 0 <= pl[i].dim < n && pl[i].subSplit == -1
  }

  function ShardSizes(size: nat, num: nat): (r: seq<nat>)
    requires num > 0
    ensures |r| == num
    ensures forall k: nat | k < num :: r[k] == ShardSize(size, num, k)
  {
    seq<nat>(num, k requires 0 <= k < num => ShardSize(size, num, k))
  }

  /** The first position along a summed axis gets the tensor, the others get zeros. */
  function FirstOrZeros(t: Tensor, i: int): (r: Tensor)
    ensures r.shape == t.shape
  {
    if i == 0 then t else Zeros(t.shape)
  }

  /** What the positions along one mesh axis of size m get of t. */
  function Pieces(t: Tensor, m: nat, p: Placement): (r: seq<Tensor>)
    requires m > 0
    requires p.Shard? ==> 0 <= p.dim < |t.shape|
    ensures |r| == m
    ensures forall i | 0 <= i < m :: |r[i].shape| == |t.shape|
  {
    match p
    case Replicate => seq(m, i => t)
    case Shard(d, _) => Split(t, ShardSizes(t.shape[d], m), d)
    case _ => seq(m, i => FirstOrZeros(t, i))
  }

  /** The piece at coordinate c after cutting along the mesh axes from k on, outermost first. */
  function ScatterAt(t: Tensor, ms: seq<nat>, pl: seq<Placement>, c: seq<nat>, k: nat): Tensor
    requires |ms| == |pl| && InBounds(c, ms) && k <= |ms| && PlainBelow(pl, |t.shape|)
    decreases |ms| - k
  {
    if k == |ms| then t
    else
      assert c[k] < ms[k];
      ScatterAt(Pieces(t, ms[k], pl[k])[c[k]], ms, pl, c, k + 1)
  }

  /** Reassembling the pieces whose coordinates extend prefix. */
  function GatherFrom(leaf: seq<nat> -> Tensor, ms: seq<nat>, pl: seq<Placement>, prefix: seq<nat>): Tensor
    requires |prefix| <= |ms| == |pl| && Positive(ms)
    requires PlainDims(pl)
    decreases |ms| - |prefix|
  {
    var k := |prefix|;
    if k == |ms| then leaf(prefix)
    else if pl[k].Replicate? then GatherFrom(leaf, ms, pl, prefix + [0])
    else
      var ts := seq(ms[k], i requires 0 <= i < ms[k] => GatherFrom(leaf, ms, pl, prefix + [i]));
      if pl[k].Shard? then Concat(ts, pl[k].dim) else AddAll(ts)
  }

  // ---------------------------------------------------------------- where a piece lies

  /** Along some summed axis the device is not the first one, so it holds zeros. */
  predicate Zeroed(pl: seq<Placement>, c: seq<nat>)
    requires |pl| == |c|
  {
    exists i | 0 <= i < |pl| :: Summed(pl[i]) && c[i] != 0
  }

  function Origin(shape: seq<nat>, ms: seq<nat>, pl: seq<Placement>, c: seq<nat>): (r: seq<nat>)
    requires |ms| == |pl| == |c| && Positive(ms)
    ensures |r| == |shape|
  {
    AllNumShardsPositive(ms, pl);
    seq<nat>(|shape|, d requires 0 <= d < |shape| =>
      ShardOffset(shape[d], NumShards(ms, pl, d), Chunk(ms, pl, d, c)))
  }

  ghost predicate IsPiece(t: Tensor, whole: Tensor, ms: seq<nat>, pl: seq<Placement>, c: seq<nat>)
    requires |ms| == |pl| == |c| && Positive(ms)
  {
    IsPart(t, whole, Zeroed(pl, c), Origin(whole.shape, ms, pl, c), LocalShape(whole.shape, ms, pl, c))
  }

  // ---------------------------------------------------------------- scattering

  lemma ZeroedStep(pl: seq<Placement>, c: seq<nat>, p: Placement, i: nat)
    requires |pl| == |c|
    ensures Zeroed(pl + [p], c + [i]) == (Zeroed(pl, c) || (Summed(p) && i != 0))
  {
    if Zeroed(pl, c) {
      var j :| 0 <= j < |pl| && Summed(pl[j]) && c[j] != 0;
      assert Summed((pl + [p])[j]) && (c + [i])[j] != 0;
    }
    if Summed(p) && i != 0 {
      assert Summed((pl + [p])[|pl|]) && (c + [i])[|pl|] != 0;
    }
  }

  lemma PrefixSumIsOffset(size: nat, num: nat, k: nat)
    requires num > 0 && k <= num
    ensures PrefixSum(ShardSizes(size, num), k) == ShardOffset(size, num, k)
  {
    ShardsTile(size, num);
    if k > 0 {
      PrefixSumIsOffset(size, num, k - 1);
      assert ShardOffset(size, num, k - 1 + 1) == ShardOffset(size, num, k - 1) + ShardSize(size, num, k - 1);
    }
  }

  lemma ExtendChunk(ms: seq<nat>, pl: seq<Placement>, c: seq<nat>, m: nat, p: Placement, i: nat, d: int)
    requires |ms| == |pl| == |c|
    ensures NumShards(ms + [m], pl + [p], d) == NumShards(ms, pl, d) * if p.IsShard(d) then m else 1
    ensures Chunk(ms + [m], pl + [p], d, c + [i]) ==
        if p.IsShard(d) then Chunk(ms, pl, d, c) * m + i else Chunk(ms, pl, d, c)
  {
    var n := |ms|;
    assert (ms + [m])[..n] == ms && (pl + [p])[..n] == pl && (c + [i])[..n] == c;
  }

  lemma SameExtent(shape: seq<nat>, ms: seq<nat>, pl: seq<Placement>, c: seq<nat>, m: nat, p: Placement, i: nat)
    requires |ms| == |pl| == |c| && Positive(ms) && i < m && !p.Shard?
    ensures Positive(ms + [m])
    ensures Origin(shape, ms + [m], pl + [p], c + [i]) == Origin(shape, ms, pl, c)
    ensures LocalShape(shape, ms + [m], pl + [p], c + [i]) == LocalShape(shape, ms, pl, c)
  {
    forall d | 0 <= d < |shape|
      ensures Origin(shape, ms + [m], pl + [p], c + [i])[d] == Origin(shape, ms, pl, c)[d]
      ensures LocalShape(shape, ms + [m], pl + [p], c + [i])[d] == LocalShape(shape, ms, pl, c)[d]
    {
      ExtendChunk(ms, pl, c, m, p, i, d);
    }
  }

  /** Cutting a dimension for the first time. */
  lemma CutExtent(shape: seq<nat>, ms: seq<nat>, pl: seq<Placement>, c: seq<nat>, m: nat, p: Placement, i: nat)
    requires |ms| == |pl| == |c| && Positive(ms) && i < m
    requires p.Shard? && 0 <= p.dim < |shape| && AxesOf(pl, p.dim) == {}
    ensures Positive(ms + [m])
    ensures Origin(shape, ms, pl, c)[p.dim] == 0 && LocalShape(shape, ms, pl, c)[p.dim] == shape[p.dim]
    ensures Origin(shape, ms + [m], pl + [p], c + [i]) ==
            Origin(shape, ms, pl, c)[p.dim := ShardOffset(shape[p.dim], m, i)]
    ensures LocalShape(shape, ms + [m], pl + [p], c + [i]) ==
            LocalShape(shape, ms, pl, c)[p.dim := ShardSize(shape[p.dim], m, i)]
  {
    Unsharded(ms, pl, p.dim, c);
    forall d | 0 <= d < |shape|
      ensures Origin(shape, ms + [m], pl + [p], c + [i])[d] ==
              if d == p.dim then ShardOffset(shape[d], m, i) else Origin(shape, ms, pl, c)[d]
      ensures LocalShape(shape, ms + [m], pl + [p], c + [i])[d] ==
              if d == p.dim then ShardSize(shape[d], m, i) else LocalShape(shape, ms, pl, c)[d]
    {
      ExtendChunk(ms, pl, c, m, p, i, d);
    }
  }

  lemma PartIsPiece(t: Tensor, whole: Tensor, zero: bool, lo: seq<nat>, size: seq<nat>,
                    ms: seq<nat>, pl: seq<Placement>, c: seq<nat>)
    requires IsPart(t, whole, zero, lo, size) && |ms| == |pl| == |c| && Positive(ms)
    requires zero == Zeroed(pl, c) && lo == Origin(whole.shape, ms, pl, c) && size == LocalShape(whole.shape, ms, pl, c)
    ensures IsPiece(t, whole, ms, pl, c)
  {
  }

  lemma PieceIsSlice(t: Tensor, m: nat, p: Placement, i: nat)
    requires p.Shard? && 0 <= p.dim < |t.shape| && i < m
    ensures Pieces(t, m, p)[i] == Slice(t, p.dim, ShardOffset(t.shape[p.dim], m, i), ShardSize(t.shape[p.dim], m, i))
  {
    PrefixSumIsOffset(t.shape[p.dim], m, i);
  }

  /** Where the i-th piece along a newly cut dimension starts and how long it is. */
  lemma CutPiece(t: Tensor, whole: Tensor, ms: seq<nat>, pl: seq<Placement>, c: seq<nat>, m: nat, p: Placement, i: nat)
    returns (a: nat, len: nat)
    requires |ms| == |pl| == |c| && Positive(ms) && i < m && t.shape == LocalShape(whole.shape, ms, pl, c)
    requires p.Shard? && 0 <= p.dim < |whole.shape| && AxesOf(pl, p.dim) == {}
    ensures Positive(ms + [m])
    ensures Origin(whole.shape, ms, pl, c)[p.dim] == 0
    ensures a + len <= LocalShape(whole.shape, ms, pl, c)[p.dim]
    ensures Origin(whole.shape, ms + [m], pl + [p], c + [i]) == Origin(whole.shape, ms, pl, c)[p.dim := a]
    ensures LocalShape(whole.shape, ms + [m], pl + [p], c + [i]) == LocalShape(whole.shape, ms, pl, c)[p.dim := len]
    ensures Pieces(t, m, p)[i] == Slice(t, p.dim, a, len)
  {
    var n := whole.shape[p.dim];
    CutExtent(whole.shape, ms, pl, c, m, p, i);
    OffsetsFit(n, m, i);
    PieceIsSlice(t, m, p, i);
    a, len := ShardOffset(n, m, i), ShardSize(n, m, i);
  }

  lemma PieceIsPart(t: Tensor, whole: Tensor, zero: bool, lo: seq<nat>, size: seq<nat>, d: nat, a: nat, len: nat)
    requires IsPart(t, whole, zero, lo, size) && d < |size| && lo[d] == 0 && a + len <= size[d]
    ensures IsPart(Slice(t, d, a, len), whole, zero, lo[d := a], size[d := len])
  {
    SlicePart(t, whole, zero, lo, size, d, a, len);
    FromZero(lo, d, a);
  }

  lemma ScatterShard(t: Tensor, whole: Tensor, ms: seq<nat>, pl: seq<Placement>, c: seq<nat>, m: nat, p: Placement, i: nat)
    requires |ms| == |pl| == |c| && Positive(ms) && i < m
    requires IsPiece(t, whole, ms, pl, c)
    requires p.Shard? && 0 <= p.dim < |whole.shape| && AxesOf(pl, p.dim) == {}
    ensures Positive(ms + [m]) && IsPiece(Pieces(t, m, p)[i], whole, ms + [m], pl + [p], c + [i])
  {
    var a, len := CutPiece(t, whole, ms, pl, c, m, p, i);
    ZeroedStep(pl, c, p, i);
    PieceIsPart(t, whole, Zeroed(pl, c), Origin(whole.shape, ms, pl, c), LocalShape(whole.shape, ms, pl, c), p.dim, a, len);
  }

  lemma FromZero(lo: seq<nat>, d: nat, x: nat)
    requires d < |lo| && lo[d] == 0
    ensures lo[d := lo[d] + x] == lo[d := x]
  {
  }

  lemma ScatterOther(t: Tensor, whole: Tensor, ms: seq<nat>, pl: seq<Placement>, c: seq<nat>, m: nat, p: Placement, i: nat)
    requires |ms| == |pl| == |c| && Positive(ms) && i < m
    requires IsPiece(t, whole, ms, pl, c) && !p.Shard?
    ensures Positive(ms + [m]) && IsPiece(Pieces(t, m, p)[i], whole, ms + [m], pl + [p], c + [i])
  {
    var lo, size := Origin(whole.shape, ms, pl, c), LocalShape(whole.shape, ms, pl, c);
    SameExtent(whole.shape, ms, pl, c, m, p, i);
    ZeroPart(t, whole, Zeroed(pl, c), lo, size);
    ZeroedStep(pl, c, p, i);
    PartIsPiece(Pieces(t, m, p)[i], whole, Zeroed(pl, c) || (Summed(p) && i != 0), lo, size, ms + [m], pl + [p], c + [i]);
  }

  /** One level of cutting: each piece of a piece is a piece for one more mesh axis. */
  lemma ScatterStep(t: Tensor, whole: Tensor, ms: seq<nat>, pl: seq<Placement>, c: seq<nat>,
                    m: nat, p: Placement, i: nat)
    requires |ms| == |pl| == |c| && Positive(ms) && i < m
    requires IsPiece(t, whole, ms, pl, c)
    requires p.Shard? ==> 0 <= p.dim < |whole.shape| && AxesOf(pl, p.dim) == {}
    ensures Positive(ms + [m]) && IsPiece(Pieces(t, m, p)[i], whole, ms + [m], pl + [p], c + [i])
  {
    if p.Shard? {
      ScatterShard(t, whole, ms, pl, c, m, p, i);
    } else {
      ScatterOther(t, whole, ms, pl, c, m, p, i);
    }
  }

  lemma OffsetsFit(size: nat, num: nat, k: nat)
    requires k < num
    ensures ShardOffset(size, num, k) + ShardSize(size, num, k) <= size
  {
    ShardsTile(size, num);
    OffsetMonotone(size, num, k + 1, num);
  }

  lemma OffsetMonotone(size: nat, num: nat, j: nat, k: nat)
    requires num > 0 && j <= k
    ensures ShardOffset(size, num, j) <= ShardOffset(size, num, k)
  {
    MulMono(j, k, size / num);
  }

  lemma {:induction false} ScatterPieces(t: Tensor, whole: Tensor, ms: seq<nat>, pl: seq<Placement>, c: seq<nat>, k: nat)
    requires |ms| == |pl| && Positive(ms) && InBounds(c, ms) && k <= |ms|
    requires PlainBelow(pl, |whole.shape|) && ShardedOnce(pl) && |t.shape| == |whole.shape|
    requires IsPiece(t, whole, ms[..k], pl[..k], c[..k])
    ensures IsPiece(ScatterAt(t, ms, pl, c, k), whole, ms, pl, c)
    decreases |ms| - k
  {
    if k == |ms| {
      assert ms[..k] == ms && pl[..k] == pl && c[..k] == c;
    } else {
      NextAxis(ms, pl, c, k);
      ScatterStep(t, whole, ms[..k], pl[..k], c[..k], ms[k], pl[k], c[k]);
      ScatterPieces(Pieces(t, ms[k], pl[k])[c[k]], whole, ms, pl, c, k + 1);
    }
  }

  lemma NextAxis(ms: seq<nat>, pl: seq<Placement>, c: seq<nat>, k: nat)
    requires |ms| == |pl| == |c| && k < |ms| && ShardedOnce(pl)
    ensures ms[..k] + [ms[k]] == ms[..k + 1] && pl[..k] + [pl[k]] == pl[..k + 1] && c[..k] + [c[k]] == c[..k + 1]
    ensures pl[k].Shard? ==> AxesOf(pl[..k], pl[k].dim) == {}
  {
    if pl[k].Shard? {
      forall i: nat | i < k
        ensures i !in AxesOf(pl[..k], pl[k].dim)
      {
        assert pl[..k][i] == pl[i];
      }
    }
  }

  /** On axes that shard every dimension at most once, scattering hands out exactly the canonical pieces. */
  lemma ScatterIsCanonical(whole: Tensor, ms: seq<nat>, pl: seq<Placement>, c: seq<nat>)
    requires |ms| == |pl| && Positive(ms) && InBounds(c, ms)
    requires PlainBelow(pl, |whole.shape|) && ShardedOnce(pl)
    ensures IsPiece(ScatterAt(whole, ms, pl, c, 0), whole, ms, pl, c)
  {
    var lo := Origin(whole.shape, [], [], []);
    assert LocalShape(whole.shape, [], [], []) == whole.shape;
    WholePart(whole, lo);
    ScatterPieces(whole, whole, ms, pl, c, 0);
  }

  // ---------------------------------------------------------------- gathering

  /** Into how many chunks the axes from k on cut tensor dimension d. */
  function InnerShards(ms: seq<nat>, pl: seq<Placement>, d: int, k: nat): nat
    requires |ms| == |pl| && k <= |ms|
    decreases |ms| - k
  {
    if k == |ms| then 1 else (if pl[k].IsShard(d) then ms[k] else 1) * InnerShards(ms, pl, d, k + 1)
  }

  lemma {:induction false} NumShardsSplits(ms: seq<nat>, pl: seq<Placement>, d: int, k: nat)
    requires |ms| == |pl| && k <= |ms|
    ensures NumShards(ms[..k], pl[..k], d) * InnerShards(ms, pl, d, k) == NumShards(ms, pl, d)
    decreases |ms| - k
  {
    if k == |ms| {
      assert ms[..k] == ms && pl[..k] == pl;
    } else {
      NumShardsSplits(ms, pl, d, k + 1);
      assert ms[..k + 1][..k] == ms[..k] && pl[..k + 1][..k] == pl[..k];
      var a, f, b := NumShards(ms[..k], pl[..k], d), if pl[k].IsShard(d) then ms[k] else 1, InnerShards(ms, pl, d, k + 1);
      MulAssoc(a, f, b);
    }
  }

  /** Cells of dimension d before the chunks that belong to the given prefix of a coordinate. */
  function HullStart(n: nat, ms: seq<nat>, pl: seq<Placement>, d: int, prefix: seq<nat>): nat
    requires |prefix| <= |ms| == |pl| && Positive(ms)
  {
    NumShardsPositive(ms, pl, d);
    var k := |prefix|;
    ShardOffset(n, NumShards(ms, pl, d), Chunk(ms[..k], pl[..k], d, prefix) * InnerShards(ms, pl, d, k))
  }

  function HullEnd(n: nat, ms: seq<nat>, pl: seq<Placement>, d: int, prefix: seq<nat>): (e: nat)
    requires |prefix| <= |ms| == |pl| && Positive(ms)
    ensures e >= HullStart(n, ms, pl, d, prefix)
  {
    NumShardsPositive(ms, pl, d);
    var k := |prefix|;
    var b, w := Chunk(ms[..k], pl[..k], d, prefix), InnerShards(ms, pl, d, k);
    MulMono(b, b + 1, w);
    OffsetMonotone(n, NumShards(ms, pl, d), b * w, (b + 1) * w);
    ShardOffset(n, NumShards(ms, pl, d), (b + 1) * w)
  }

  function HullLo(shape: seq<nat>, ms: seq<nat>, pl: seq<Placement>, prefix: seq<nat>): (r: seq<nat>)
    requires |prefix| <= |ms| == |pl| && Positive(ms)
    ensures |r| == |shape|
    ensures forall d | 0 <= d < |shape| :: r[d] == HullStart(shape[d], ms, pl, d, prefix)
  {
    seq<nat>(|shape|, d requires 0 <= d < |shape| => HullStart(shape[d], ms, pl, d, prefix))
  }

  function HullSize(shape: seq<nat>, ms: seq<nat>, pl: seq<Placement>, prefix: seq<nat>): (r: seq<nat>)
    requires |prefix| <= |ms| == |pl| && Positive(ms)
    ensures |r| == |shape|
    ensures forall d | 0 <= d < |shape| ::
        r[d] == HullEnd(shape[d], ms, pl, d, prefix) - HullStart(shape[d], ms, pl, d, prefix)
  {
    seq<nat>(|shape|, d requires 0 <= d < |shape| =>
      HullEnd(shape[d], ms, pl, d, prefix) - HullStart(shape[d], ms, pl, d, prefix))
  }

  /** t is the block of whole that all pieces whose coordinates extend prefix cover. */
  ghost predicate IsHull(t: Tensor, whole: Tensor, ms: seq<nat>, pl: seq<Placement>, prefix: seq<nat>)
    requires |prefix| <= |ms| == |pl| && Positive(ms)
  {
    IsPart(t, whole, false, HullLo(whole.shape, ms, pl, prefix), HullSize(whole.shape, ms, pl, prefix))
  }

  /** Going one axis deeper leaves a dimension alone unless that axis shards it; then it cuts the hull into consecutive parts. */
  lemma HullStep(n: nat, ms: seq<nat>, pl: seq<Placement>, d: int, prefix: seq<nat>, i: nat)
    requires |prefix| < |ms| == |pl| && Positive(ms)
    ensures !pl[|prefix|].IsShard(d) ==>
        && HullStart(n, ms, pl, d, prefix + [i]) == HullStart(n, ms, pl, d, prefix)
        && HullEnd(n, ms, pl, d, prefix + [i]) == HullEnd(n, ms, pl, d, prefix)
    ensures pl[|prefix|].IsShard(d) ==>
        && HullEnd(n, ms, pl, d, prefix + [i]) == HullStart(n, ms, pl, d, prefix + [i + 1])
        && HullStart(n, ms, pl, d, prefix + [0]) == HullStart(n, ms, pl, d, prefix)
        && HullStart(n, ms, pl, d, prefix + [ms[|prefix|]]) == HullEnd(n, ms, pl, d, prefix)
  {
    var k := |prefix|;
    assert ms[..k + 1] == ms[..k] + [ms[k]] && pl[..k + 1] == pl[..k] + [pl[k]];
    ExtendChunk(ms[..k], pl[..k], prefix, ms[k], pl[k], i, d);
    ExtendChunk(ms[..k], pl[..k], prefix, ms[k], pl[k], i + 1, d);
    ExtendChunk(ms[..k], pl[..k], prefix, ms[k], pl[k], 0, d);
    ExtendChunk(ms[..k], pl[..k], prefix, ms[k], pl[k], ms[k], d);
    if pl[k].IsShard(d) {
      var b, m, w := Chunk(ms[..k], pl[..k], d, prefix), ms[k], InnerShards(ms, pl, d, k + 1);
      MulAssoc(b, m, w);
      MulAssoc(b + 1, m, w);
      assert b * m + m == (b + 1) * m;
    }
  }

  /** Consecutive parts along d: the i-th runs from cuts[i] to cuts[i + 1]. */
  ghost predicate PartsAlong(ts: seq<Tensor>, whole: Tensor, d: nat, cuts: seq<nat>, lo: seq<nat>, size: seq<nat>) {
    && |cuts| == |ts| + 1 && d < |lo| == |size|
    && forall i: nat | i < |ts| :: PartAlong(ts[i], whole, d, cuts[i], cuts[i + 1], lo, size)
  }

  ghost predicate PartAlong(t: Tensor, whole: Tensor, d: nat, from: nat, to: nat, lo: seq<nat>, size: seq<nat>)
    requires d < |lo| == |size|
  {
    from <= to && IsPart(t, whole, false, lo[d := from], size[d := to - from])
  }

  /** Joining consecutive parts along d gives the part that spans them. */
  lemma {:induction false} ConcatParts(ts: seq<Tensor>, whole: Tensor, d: nat, cuts: seq<nat>,
                                       lo: seq<nat>, size: seq<nat>, j: nat)
    requires PartsAlong(ts, whole, d, cuts, lo, size) && 0 < j <= |ts|
    ensures PartAlong(Concat(ts[..j], d), whole, d, cuts[0], cuts[j], lo, size)
  {
    assert PartAlong(ts[j - 1], whole, d, cuts[j - 1], cuts[j], lo, size);
    if j == 1 {
      assert ts[..1] == [ts[0]];
    } else {
      ConcatParts(ts, whole, d, cuts, lo, size, j - 1);
      assert ts[..j][..j - 1] == ts[..j - 1];
      AppendAlong(Concat(ts[..j - 1], d), ts[j - 1], whole, d, cuts[0], cuts[j - 1], cuts[j], lo, size);
    }
  }

  lemma AppendAlong(a: Tensor, b: Tensor, whole: Tensor, d: nat, from: nat, mid: nat, to: nat,
                    lo: seq<nat>, size: seq<nat>)
    requires d < |lo| == |size|
    requires PartAlong(a, whole, d, from, mid, lo, size) && PartAlong(b, whole, d, mid, to, lo, size)
    ensures PartAlong(Append(a, b, d), whole, d, from, to, lo, size)
  {
    var lo0: seq<nat>, size0: seq<nat> := lo[d := from], size[d := mid - from];
    assert lo0[d := lo0[d] + size0[d]] == lo[d := mid];
    assert size0[d := to - mid] == size[d := to - mid];
    AppendPart(a, b, whole, false, lo0, size0, d, to - mid);
    assert size0[d := size0[d] + (to - mid)] == size[d := to - from];
  }

  // ---------------------------------------------------------------- what gathering computes

  predicate PlainDims(pl: seq<Placement>) {
    forall i | 0 <= i < |pl| && pl[i].Shard? :: pl[i].dim >= 0
  }

  /** Along a replicated axis the first position is taken. */
  lemma GatherFirst(leaf: seq<nat> -> Tensor, ms: seq<nat>, pl: seq<Placement>, prefix: seq<nat>)
    requires |prefix| < |ms| == |pl| && Positive(ms) && PlainDims(pl) && pl[|prefix|].Replicate?
    ensures GatherFrom(leaf, ms, pl, prefix) == GatherFrom(leaf, ms, pl, prefix + [0])
  {
  }

  /** What the positions along the next axis have gathered. */
  function Gathered(leaf: seq<nat> -> Tensor, ms: seq<nat>, pl: seq<Placement>, prefix: seq<nat>): nat -> Tensor
    requires |prefix| < |ms| == |pl| && Positive(ms) && PlainDims(pl)
  {
    (i: nat) => GatherFrom(leaf, ms, pl, prefix + [i])
  }

  /** The sum of the first n tensors at coordinate c. */
  function PositionSum(gathered: nat -> Tensor, c: seq<nat>, n: nat): real {
    if n == 0 then 0.0 else PositionSum(gathered, c, n - 1) + gathered(n - 1).at(c)
  }

  /** How far the first n tensors reach in dimension d. */
  function PositionWidth(gathered: nat -> Tensor, d: nat, n: nat): nat {
    if n == 0 then 0 else PositionWidth(gathered, d, n - 1) + if d < |gathered(n - 1).shape| then gathered(n - 1).shape[d] else 0
  }

  /** Along a summed axis, whatever the pieces hold: at every coordinate the sum over all positions. */
  lemma GatherSums(leaf: seq<nat> -> Tensor, ms: seq<nat>, pl: seq<Placement>, prefix: seq<nat>)
    requires |prefix| < |ms| == |pl| && Positive(ms) && PlainDims(pl) && Summed(pl[|prefix|])
    ensures var gathered, t := Gathered(leaf, ms, pl, prefix), GatherFrom(leaf, ms, pl, prefix);
      t.shape == gathered(0).shape && forall c :: t.at(c) == PositionSum(gathered, c, ms[|prefix|])
  {
    var m, gathered := ms[|prefix|], Gathered(leaf, ms, pl, prefix);
    var ts := seq(m, i requires 0 <= i < m => GatherFrom(leaf, ms, pl, prefix + [i]));
    var all := seq<Tensor>(m, i requires 0 <= i < m => gathered(i));
    assert ts == all && all[..m] == all;
    forall c
      ensures GatherFrom(leaf, ms, pl, prefix).at(c) == PositionSum(gathered, c, m)
    {
      SumValue(all, gathered, c, m);
    }
    SumShape(all, m);
  }

  lemma {:induction false} SumShape(ts: seq<Tensor>, j: nat)
    requires 0 < j <= |ts|
    ensures AddAll(ts[..j]).shape == ts[0].shape
  {
    if j > 1 {
      assert ts[..j][..j - 1] == ts[..j - 1];
      SumShape(ts, j - 1);
    }
  }

  lemma {:induction false} SumValue(ts: seq<Tensor>, gathered: nat -> Tensor, c: seq<nat>, j: nat)
    requires 0 < j <= |ts| && forall i: nat | i < |ts| :: ts[i] == gathered(i)
    ensures AddAll(ts[..j]).at(c) == PositionSum(gathered, c, j)
  {
    if j == 1 {
      assert PositionSum(gathered, c, 0) == 0.0;
    } else {
      assert ts[..j][..j - 1] == ts[..j - 1];
      SumValue(ts, gathered, c, j - 1);
    }
  }

  /** Along a sharded axis, whatever the pieces hold: position i comes behind all positions before it. */
  lemma GatherJoins(leaf: seq<nat> -> Tensor, ms: seq<nat>, pl: seq<Placement>, prefix: seq<nat>, gathered: nat -> Tensor,
                    d: nat, m: nat, i: nat, c: seq<nat>)
    requires |prefix| < |ms| == |pl| && Positive(ms) && PlainDims(pl)
    requires pl[|prefix|].IsShard(d) && m == ms[|prefix|] && gathered == Gathered(leaf, ms, pl, prefix)
    requires forall j: nat | j < m :: d < |gathered(j).shape|
    requires i < m && InBounds(c, gathered(i).shape)
    ensures GatherFrom(leaf, ms, pl, prefix).shape == gathered(0).shape[d := PositionWidth(gathered, d, m)]
    ensures GatherFrom(leaf, ms, pl, prefix).at(c[d := c[d] + PositionWidth(gathered, d, i)]) == gathered(i).at(c)
  {
    var ts := GatherInOrder(leaf, ms, pl, prefix);
    JoinedInOrder(ts, gathered, GatherFrom(leaf, ms, pl, prefix), d, m, i, c);
  }

  lemma JoinedInOrder(ts: seq<Tensor>, gathered: nat -> Tensor, t: Tensor, d: nat, m: nat, i: nat, c: seq<nat>)
    requires |ts| == m && i < m && t == Concat(ts, d) && forall j: nat | j < m :: ts[j] == gathered(j)
    requires forall j: nat | j < m :: d < |gathered(j).shape|
    requires InBounds(c, gathered(i).shape)
    ensures t.shape == gathered(0).shape[d := PositionWidth(gathered, d, m)]
    ensures t.at(c[d := c[d] + PositionWidth(gathered, d, i)]) == gathered(i).at(c)
  {
    forall j: nat | j < m
      ensures ts[j] == gathered(j) && d < |ts[j].shape|
    {
      assert d < |gathered(j).shape|;
    }
    JoinedAt(ts, gathered, d, i, c);
  }

  lemma GatherInOrder(leaf: seq<nat> -> Tensor, ms: seq<nat>, pl: seq<Placement>, prefix: seq<nat>) returns (ts: seq<Tensor>)
    requires |prefix| < |ms| == |pl| && Positive(ms) && PlainDims(pl) && pl[|prefix|].Shard?
    ensures |ts| == ms[|prefix|] && forall i: nat | i < |ts| :: ts[i] == Gathered(leaf, ms, pl, prefix)(i)
    ensures GatherFrom(leaf, ms, pl, prefix) == Concat(ts, pl[|prefix|].dim)
  {
    var m, gathered := ms[|prefix|], Gathered(leaf, ms, pl, prefix);
    ts := seq(m, i requires 0 <= i < m => GatherFrom(leaf, ms, pl, prefix + [i]));
    forall i: nat | i < m
      ensures ts[i] == gathered(i)
    {
    }
  }

  lemma JoinedAt(ts: seq<Tensor>, gathered: nat -> Tensor, d: nat, i: nat, c: seq<nat>)
    requires i < |ts| && forall j: nat | j < |ts| :: ts[j] == gathered(j) && d < |ts[j].shape|
    requires InBounds(c, gathered(i).shape)
    ensures Concat(ts, d).shape == gathered(0).shape[d := PositionWidth(gathered, d, |ts|)]
    ensures Concat(ts, d).at(c[d := c[d] + PositionWidth(gathered, d, i)]) == gathered(i).at(c)
  {
    assert ts[..|ts|] == ts;
    SameWidth(ts, gathered, d, i);
    SameWidth(ts, gathered, d, |ts|);
    ConcatShape(ts, d, |ts|);
    ConcatValue(ts, d, |ts|, i, c);
  }

  lemma {:induction false} SameWidth(ts: seq<Tensor>, gathered: nat -> Tensor, d: nat, n: nat)
    requires n <= |ts| && forall i: nat | i < |ts| :: ts[i] == gathered(i) && d < |ts[i].shape|
    ensures PositionWidth(gathered, d, n) == Width(ts, d, n)
  {
    if n > 0 {
      SameWidth(ts, gathered, d, n - 1);
    }
  }

  // ---------------------------------------------------------------- partial tensors that add up

  /** The coordinates on the summed axes, in order. */
  function SummedOf(pl: seq<Placement>, c: seq<nat>): (r: seq<nat>)
    requires |pl| == |c|
    ensures |r| <= |c|
  {
    if |c| == 0 then []
    else
      var n := |c| - 1;
      SummedOf(pl[..n], c[..n]) + if Summed(pl[n]) then [c[n]] else []
  }

  /** The sum of the partial tensors whose numbers on the summed axes, of the given sizes, extend u. */
  function SumParts(part: seq<nat> -> Tensor, sizes: seq<nat>, u: seq<nat>, x: seq<nat>): real
    decreases if |u| < |sizes| then |sizes| - |u| else 0, 1, 0
  {
    if |u| >= |sizes| then part(u).at(x) else SumPositions(part, sizes, u, x, sizes[|u|])
  }

  function SumPositions(part: seq<nat> -> Tensor, sizes: seq<nat>, u: seq<nat>, x: seq<nat>, n: nat): real
    requires |u| < |sizes|
    decreases |sizes| - |u|, 0, n
  {
    if n == 0 then 0.0
    else
      assert |u + [n - 1]| == |u| + 1;
      SumPositions(part, sizes, u, x, n - 1) + SumParts(part, sizes, u + [n - 1], x)
  }

  function PartialSum(part: seq<nat> -> Tensor, shape: seq<nat>, sizes: seq<nat>, u: seq<nat>): Tensor {
    Tensor(shape, (x: seq<nat>) => SumParts(part, sizes, u, x))
  }

  /** Every device holds its block of the partial tensor that its coordinates on the summed axes number. */
  ghost predicate HoldsParts(leaf: seq<nat> -> Tensor, part: seq<nat> -> Tensor, shape: seq<nat>, ms: seq<nat>, pl: seq<Placement>)
    requires |ms| == |pl| && Positive(ms)
  {
    && (forall u :: part(u).shape == shape)
    && forall c | InBounds(c, ms) :: IsPart(leaf(c), part(SummedOf(pl, c)), false, Origin(shape, ms, pl, c), LocalShape(shape, ms, pl, c))
  }

  lemma SummedNext(pl: seq<Placement>, c: seq<nat>, p: Placement, i: nat)
    requires |pl| == |c|
    ensures SummedOf(pl + [p], c + [i]) == SummedOf(pl, c) + if Summed(p) then [i] else []
  {
    assert (pl + [p])[..|c|] == pl && (c + [i])[..|c|] == c;
  }

  /** On the next axis, if it is summed, the numbers have the size of that axis. */
  lemma {:induction false} SummedSizes(ms: seq<nat>, pl: seq<Placement>, c: seq<nat>, k: nat)
    requires |ms| == |pl| && k == |c| <= |ms|
    ensures |SummedOf(pl[..k], c)| <= |SummedOf(pl, ms)|
    ensures k == |ms| ==> |SummedOf(pl[..k], c)| == |SummedOf(pl, ms)|
    ensures k < |ms| && Summed(pl[k]) ==>
      |SummedOf(pl[..k], c)| < |SummedOf(pl, ms)| && SummedOf(pl, ms)[|SummedOf(pl[..k], c)|] == ms[k]
    decreases |ms|
  {
    var n := |ms| - 1;
    if k == |ms| {
      assert pl[..k] == pl;
      SameCount(pl, c, ms);
    } else {
      SummedSizes(ms[..n], pl[..n], c, k);
      assert pl[..n][..k] == pl[..k];
      if k == n {
        SameCount(pl[..n], c, ms[..n]);
      }
    }
  }

  lemma {:induction false} SameCount(pl: seq<Placement>, c: seq<nat>, e: seq<nat>)
    requires |pl| == |c| == |e|
    ensures |SummedOf(pl, c)| == |SummedOf(pl, e)|
  {
    if |c| > 0 {
      SameCount(pl[..|c| - 1], c[..|c| - 1], e[..|c| - 1]);
    }
  }

  /** Gathering the extensions of a prefix yields the block they cover of the sum of the partial tensors that
    * belong to them. */
  lemma {:induction false} GatherHull(leaf: seq<nat> -> Tensor, part: seq<nat> -> Tensor, shape: seq<nat>, ms: seq<nat>,
                                      pl: seq<Placement>, prefix: seq<nat>)
    requires |prefix| <= |ms| == |pl| && Positive(ms) && PlainBelow(pl, |shape|)
    requires InBounds(prefix, ms[..|prefix|]) && HoldsParts(leaf, part, shape, ms, pl)
    ensures IsHull(GatherFrom(leaf, ms, pl, prefix),
                   PartialSum(part, shape, SummedOf(pl, ms), SummedOf(pl[..|prefix|], prefix)), ms, pl, prefix)
    decreases |ms| - |prefix|
  {
    var k, sizes, u := |prefix|, SummedOf(pl, ms), SummedOf(pl[..|prefix|], prefix);
    SummedSizes(ms, pl, prefix, k);
    if k == |ms| {
      assert ms[..k] == ms && pl[..k] == pl;
      LeafHull(leaf(prefix), PartialSum(part, shape, sizes, u), part(u), ms, pl, prefix);
    } else {
      assert ms[..k + 1] == ms[..k] + [ms[k]] && pl[..k + 1] == pl[..k] + [pl[k]];
      forall i: nat | i < ms[k]
        ensures IsHull(GatherFrom(leaf, ms, pl, prefix + [i]),
                       PartialSum(part, shape, sizes, u + if Summed(pl[k]) then [i] else []), ms, pl, prefix + [i])
      {
        GatherHull(leaf, part, shape, ms, pl, prefix + [i]);
        SummedNext(pl[..k], prefix, pl[k], i);
      }
      if pl[k].Replicate? {
        assert u + [] == u;
        ReplicateHull(GatherFrom(leaf, ms, pl, prefix + [0]), PartialSum(part, shape, sizes, u), ms, pl, prefix);
      } else if pl[k].Shard? {
        assert u + [] == u;
        ShardHull(seq(ms[k], i requires 0 <= i < ms[k] => GatherFrom(leaf, ms, pl, prefix + [i])),
                  PartialSum(part, shape, sizes, u), ms, pl, prefix);
      } else {
        SummedHull(leaf, part, shape, ms, pl, prefix, sizes, u);
      }
    }
  }

  lemma LeafHull(t: Tensor, whole: Tensor, part: Tensor, ms: seq<nat>, pl: seq<Placement>, c: seq<nat>)
    requires |ms| == |pl| && Positive(ms) && InBounds(c, ms)
    requires part.shape == whole.shape && forall x :: whole.at(x) == part.at(x)
    requires IsPart(t, part, false, Origin(whole.shape, ms, pl, c), LocalShape(whole.shape, ms, pl, c))
    ensures IsHull(t, whole, ms, pl, c)
  {
    assert ms[..|c|] == ms && pl[..|c|] == pl;
    forall d | 0 <= d < |whole.shape|
      ensures HullLo(whole.shape, ms, pl, c)[d] == Origin(whole.shape, ms, pl, c)[d]
      ensures HullSize(whole.shape, ms, pl, c)[d] == LocalShape(whole.shape, ms, pl, c)[d]
    {
      ChunkBound(ms, pl, d, c);
      ShardsTile(whole.shape[d], NumShards(ms, pl, d));
    }
    assert HullLo(whole.shape, ms, pl, c) == Origin(whole.shape, ms, pl, c);
    assert HullSize(whole.shape, ms, pl, c) == LocalShape(whole.shape, ms, pl, c);
  }

  lemma SameHull(shape: seq<nat>, ms: seq<nat>, pl: seq<Placement>, prefix: seq<nat>, i: nat)
    requires |prefix| < |ms| == |pl| && Positive(ms) && !pl[|prefix|].Shard?
    ensures HullLo(shape, ms, pl, prefix + [i]) == HullLo(shape, ms, pl, prefix)
    ensures HullSize(shape, ms, pl, prefix + [i]) == HullSize(shape, ms, pl, prefix)
  {
    forall d | 0 <= d < |shape|
      ensures HullLo(shape, ms, pl, prefix + [i])[d] == HullLo(shape, ms, pl, prefix)[d]
      ensures HullSize(shape, ms, pl, prefix + [i])[d] == HullSize(shape, ms, pl, prefix)[d]
    {
      HullStep(shape[d], ms, pl, d, prefix, i);
    }
  }

  lemma ReplicateHull(t: Tensor, whole: Tensor, ms: seq<nat>, pl: seq<Placement>, prefix: seq<nat>)
    requires |prefix| < |ms| == |pl| && Positive(ms) && pl[|prefix|].Replicate?
    requires IsHull(t, whole, ms, pl, prefix + [0])
    ensures IsHull(t, whole, ms, pl, prefix)
  {
    SameHull(whole.shape, ms, pl, prefix, 0);
  }

  lemma SummedHull(leaf: seq<nat> -> Tensor, part: seq<nat> -> Tensor, shape: seq<nat>, ms: seq<nat>, pl: seq<Placement>,
                   prefix: seq<nat>, sizes: seq<nat>, u: seq<nat>)
    requires |prefix| < |ms| == |pl| && Positive(ms) && PlainDims(pl) && Summed(pl[|prefix|])
    requires |u| < |sizes| && sizes[|u|] == ms[|prefix|]
    requires forall i: nat | i < ms[|prefix|] ::
      IsHull(GatherFrom(leaf, ms, pl, prefix + [i]), PartialSum(part, shape, sizes, u + [i]), ms, pl, prefix + [i])
    ensures IsHull(GatherFrom(leaf, ms, pl, prefix), PartialSum(part, shape, sizes, u), ms, pl, prefix)
  {
    var m, lo, size := ms[|prefix|], HullLo(shape, ms, pl, prefix), HullSize(shape, ms, pl, prefix);
    var gathered := Gathered(leaf, ms, pl, prefix);
    GatherSums(leaf, ms, pl, prefix);
    forall i: nat | i < m
      ensures IsPart(gathered(i), PartialSum(part, shape, sizes, u + [i]), false, lo, size)
    {
      SameHull(shape, ms, pl, prefix, i);
      assert IsHull(GatherFrom(leaf, ms, pl, prefix + [i]), PartialSum(part, shape, sizes, u + [i]), ms, pl, prefix + [i]);
    }
    SumOfParts(GatherFrom(leaf, ms, pl, prefix), gathered, part, shape, sizes, u, lo, size, m);
  }

  /** A sum of blocks of partial tensors is the block of their sum. */
  lemma SumOfParts(t: Tensor, gathered: nat -> Tensor, part: seq<nat> -> Tensor, shape: seq<nat>, sizes: seq<nat>, u: seq<nat>,
                   lo: seq<nat>, size: seq<nat>, m: nat)
    requires |u| < |sizes| && sizes[|u|] == m > 0
    requires forall i: nat | i < m :: IsPart(gathered(i), PartialSum(part, shape, sizes, u + [i]), false, lo, size)
    requires t.shape == gathered(0).shape && forall c :: t.at(c) == PositionSum(gathered, c, m)
    ensures IsPart(t, PartialSum(part, shape, sizes, u), false, lo, size)
  {
    assert IsPart(gathered(0), PartialSum(part, shape, sizes, u + [0]), false, lo, size);
    forall c | InBounds(c, size)
      ensures t.at(c) == PartialSum(part, shape, sizes, u).at(Plus(lo, c))
    {
      forall i: nat | i < m
        ensures gathered(i).at(c) == SumParts(part, sizes, u + [i], Plus(lo, c))
      {
        assert IsPart(gathered(i), PartialSum(part, shape, sizes, u + [i]), false, lo, size);
      }
      SumsAgree(gathered, part, sizes, u, Plus(lo, c), c, m);
    }
  }

  lemma {:induction false} SumsAgree(gathered: nat -> Tensor, part: seq<nat> -> Tensor, sizes: seq<nat>, u: seq<nat>, x: seq<nat>,
                                     c: seq<nat>, n: nat)
    requires |u| < |sizes| && forall i: nat | i < n :: gathered(i).at(c) == SumParts(part, sizes, u + [i], x)
    ensures PositionSum(gathered, c, n) == SumPositions(part, sizes, u, x, n)
  {
    if n > 0 {
      SumsAgree(gathered, part, sizes, u, x, c, n - 1);
      assert gathered(n - 1).at(c) == SumParts(part, sizes, u + [n - 1], x);
    }
  }

  /** Where the blocks of the positions along the next axis start, and where the last one ends. */
  function Cuts(shape: seq<nat>, ms: seq<nat>, pl: seq<Placement>, prefix: seq<nat>): (r: seq<nat>)
    requires |prefix| < |ms| == |pl| && Positive(ms)
    requires pl[|prefix|].Shard? && 0 <= pl[|prefix|].dim < |shape|
    ensures |r| == ms[|prefix|] + 1
  {
    var d := pl[|prefix|].dim;
    seq<nat>(ms[|prefix|] + 1, i requires 0 <= i => HullStart(shape[d], ms, pl, d, prefix + [i]))
  }

  lemma CutsSpan(shape: seq<nat>, ms: seq<nat>, pl: seq<Placement>, prefix: seq<nat>)
    requires |prefix| < |ms| == |pl| && Positive(ms)
    requires pl[|prefix|].Shard? && 0 <= pl[|prefix|].dim < |shape|
    ensures var d, cuts, lo, size := pl[|prefix|].dim, Cuts(shape, ms, pl, prefix),
                                     HullLo(shape, ms, pl, prefix), HullSize(shape, ms, pl, prefix);
      && cuts[0] <= cuts[|cuts| - 1]
      && lo[d := cuts[0]] == lo && size[d := cuts[|cuts| - 1] - cuts[0]] == size
  {
    var d := pl[|prefix|].dim;
    HullStep(shape[d], ms, pl, d, prefix, 0);
  }

  lemma ShardParts(ts: seq<Tensor>, whole: Tensor, ms: seq<nat>, pl: seq<Placement>, prefix: seq<nat>)
    requires |prefix| < |ms| == |pl| && Positive(ms) && PlainBelow(pl, |whole.shape|)
    requires pl[|prefix|].Shard? && |ts| == ms[|prefix|]
    requires forall i | 0 <= i < |ts| :: IsHull(ts[i], whole, ms, pl, prefix + [i])
    ensures PartsAlong(ts, whole, pl[|prefix|].dim, Cuts(whole.shape, ms, pl, prefix),
                       HullLo(whole.shape, ms, pl, prefix), HullSize(whole.shape, ms, pl, prefix))
  {
    var cuts := Cuts(whole.shape, ms, pl, prefix);
    forall i: nat | i < |ts|
      ensures PartAlong(ts[i], whole, pl[|prefix|].dim, cuts[i], cuts[i + 1],
                        HullLo(whole.shape, ms, pl, prefix), HullSize(whole.shape, ms, pl, prefix))
    {
      CutPart(ts[i], whole, ms, pl, prefix, i);
    }
  }

  lemma ShardHull(ts: seq<Tensor>, whole: Tensor, ms: seq<nat>, pl: seq<Placement>, prefix: seq<nat>)
    requires |prefix| < |ms| == |pl| && Positive(ms) && PlainBelow(pl, |whole.shape|)
    requires pl[|prefix|].Shard? && |ts| == ms[|prefix|]
    requires forall i | 0 <= i < |ts| :: IsHull(ts[i], whole, ms, pl, prefix + [i])
    ensures |ts| > 0 && IsHull(Concat(ts, pl[|prefix|].dim), whole, ms, pl, prefix)
  {
    var d := pl[|prefix|].dim;
    ShardParts(ts, whole, ms, pl, prefix);
    ConcatParts(ts, whole, d, Cuts(whole.shape, ms, pl, prefix),
                HullLo(whole.shape, ms, pl, prefix), HullSize(whole.shape, ms, pl, prefix), |ts|);
    assert ts[..|ts|] == ts;
    AlongIsHull(Concat(ts, d), whole, ms, pl, prefix);
  }

  lemma AlongIsHull(t: Tensor, whole: Tensor, ms: seq<nat>, pl: seq<Placement>, prefix: seq<nat>)
    requires |prefix| < |ms| == |pl| && Positive(ms)
    requires pl[|prefix|].Shard? && 0 <= pl[|prefix|].dim < |whole.shape|
    requires var cuts := Cuts(whole.shape, ms, pl, prefix);
      PartAlong(t, whole, pl[|prefix|].dim, cuts[0], cuts[|cuts| - 1],
                HullLo(whole.shape, ms, pl, prefix), HullSize(whole.shape, ms, pl, prefix))
    ensures IsHull(t, whole, ms, pl, prefix)
  {
    CutsSpan(whole.shape, ms, pl, prefix);
  }

  lemma CutPart(t: Tensor, whole: Tensor, ms: seq<nat>, pl: seq<Placement>, prefix: seq<nat>, i: nat)
    requires |prefix| < |ms| == |pl| && Positive(ms) && i < ms[|prefix|]
    requires pl[|prefix|].Shard? && 0 <= pl[|prefix|].dim < |whole.shape|
    requires IsHull(t, whole, ms, pl, prefix + [i])
    ensures var d, cuts := pl[|prefix|].dim, Cuts(whole.shape, ms, pl, prefix);
      && cuts[i] <= cuts[i + 1]
      && IsPart(t, whole, false, HullLo(whole.shape, ms, pl, prefix)[d := cuts[i]],
                HullSize(whole.shape, ms, pl, prefix)[d := cuts[i + 1] - cuts[i]])
  {
    HullCut(whole.shape, ms, pl, prefix, i);
  }

  lemma HullCut(shape: seq<nat>, ms: seq<nat>, pl: seq<Placement>, prefix: seq<nat>, i: nat)
    requires |prefix| < |ms| == |pl| && Positive(ms)
    requires pl[|prefix|].Shard? && 0 <= pl[|prefix|].dim < |shape|
    ensures var d := pl[|prefix|].dim;
            var a, b := HullStart(shape[d], ms, pl, d, prefix + [i]), HullStart(shape[d], ms, pl, d, prefix + [i + 1]);
            && a <= b
            && HullLo(shape, ms, pl, prefix + [i]) == HullLo(shape, ms, pl, prefix)[d := a]
            && HullSize(shape, ms, pl, prefix + [i]) == HullSize(shape, ms, pl, prefix)[d := b - a]
  {
    forall e | 0 <= e < |shape|
      ensures !pl[|prefix|].IsShard(e) ==>
          && HullStart(shape[e], ms, pl, e, prefix + [i]) == HullStart(shape[e], ms, pl, e, prefix)
          && HullEnd(shape[e], ms, pl, e, prefix + [i]) == HullEnd(shape[e], ms, pl, e, prefix)
    {
      HullStep(shape[e], ms, pl, e, prefix, i);
    }
    HullStep(shape[pl[|prefix|].dim], ms, pl, pl[|prefix|].dim, prefix, i);
  }

  /** Pieces of partial tensors that add up to a tensor along the summed axes, all of them possibly nonzero and
    * however many axes shard a dimension, gather to that tensor. */
  lemma GatherAddsUp(leaf: seq<nat> -> Tensor, part: seq<nat> -> Tensor, whole: Tensor, ms: seq<nat>, pl: seq<Placement>)
    requires |ms| == |pl| && Positive(ms) && PlainBelow(pl, |whole.shape|)
    requires HoldsParts(leaf, part, whole.shape, ms, pl)
    requires forall x | InBounds(x, whole.shape) :: SumParts(part, SummedOf(pl, ms), [], x) == whole.at(x)
    ensures Same(GatherFrom(leaf, ms, pl, []), whole)
  {
    var total := PartialSum(part, whole.shape, SummedOf(pl, ms), []);
    GatherHull(leaf, part, whole.shape, ms, pl, []);
    assert SummedOf(pl[..0], []) == [];
    var lo, size := HullLo(whole.shape, ms, pl, []), HullSize(whole.shape, ms, pl, []);
    forall d | 0 <= d < |whole.shape|
      ensures lo[d] == 0 && size[d] == whole.shape[d]
    {
      WholeHull(whole.shape[d], ms, pl, d);
    }
    assert size == whole.shape;
    WholePart(total, lo);
  }

  predicate AllZero(u: seq<nat>) {
    forall i | 0 <= i < |u| :: u[i] == 0
  }

  lemma AllZeroNext(u: seq<nat>, x: nat)
    ensures AllZero(u + [x]) <==> AllZero(u) && x == 0
  {
    assert (u + [x])[|u|] == x;
    assert forall i | 0 <= i < |u| :: (u + [x])[i] == u[i];
  }

  /** Everything on the first position of every summed axis, zeros elsewhere. */
  function FirstPart(whole: Tensor): (r: seq<nat> -> Tensor) {
    (u: seq<nat>) => if AllZero(u) then whole else Zeros(whole.shape)
  }

  lemma {:induction false} OnlyFirstCounts(whole: Tensor, sizes: seq<nat>, u: seq<nat>, x: seq<nat>)
    requires |u| <= |sizes| && Positive(sizes)
    ensures SumParts(FirstPart(whole), sizes, u, x) == if AllZero(u) then whole.at(x) else 0.0
    decreases |sizes| - |u|, 1, 0
  {
    if |u| < |sizes| {
      FirstPositionCounts(whole, sizes, u, x, sizes[|u|]);
    }
  }

  lemma {:induction false} FirstPositionCounts(whole: Tensor, sizes: seq<nat>, u: seq<nat>, x: seq<nat>, n: nat)
    requires |u| < |sizes| && Positive(sizes)
    ensures SumPositions(FirstPart(whole), sizes, u, x, n) ==
      if n > 0 && AllZero(u) then whole.at(x) else 0.0
    decreases |sizes| - |u|, 0, n
  {
    if n > 0 {
      FirstPositionCounts(whole, sizes, u, x, n - 1);
      OnlyFirstCounts(whole, sizes, u + [n - 1], x);
      AllZeroNext(u, n - 1);
    }
  }

  lemma {:induction false} SummedZero(pl: seq<Placement>, c: seq<nat>)
    requires |pl| == |c|
    ensures AllZero(SummedOf(pl, c)) <==> !Zeroed(pl, c)
  {
    if |c| > 0 {
      var n := |c| - 1;
      SummedZero(pl[..n], c[..n]);
      ZeroedStep(pl[..n], c[..n], pl[n], c[n]);
      assert pl[..n] + [pl[n]] == pl && c[..n] + [c[n]] == c;
      var front := SummedOf(pl[..n], c[..n]);
      AllZeroNext(front, c[n]);
      assert front + [] == front;
    }
  }

  lemma {:induction false} SummedPositive(pl: seq<Placement>, ms: seq<nat>)
    requires |pl| == |ms| && Positive(ms)
    ensures Positive(SummedOf(pl, ms))
  {
    if |ms| > 0 {
      SummedPositive(pl[..|ms| - 1], ms[..|ms| - 1]);
    }
  }

  /** Gathering canonical pieces, however many axes shard a dimension, restores the tensor. */
  lemma GatherRestores(leaf: seq<nat> -> Tensor, whole: Tensor, ms: seq<nat>, pl: seq<Placement>)
    requires |ms| == |pl| && Positive(ms) && PlainBelow(pl, |whole.shape|)
    requires forall c | InBounds(c, ms) :: IsPiece(leaf(c), whole, ms, pl, c)
    ensures Same(GatherFrom(leaf, ms, pl, []), whole)
  {
    forall c | InBounds(c, ms)
      ensures IsPart(leaf(c), FirstPart(whole)(SummedOf(pl, c)), false, Origin(whole.shape, ms, pl, c),
                     LocalShape(whole.shape, ms, pl, c))
    {
      SummedZero(pl, c);
      assert IsPiece(leaf(c), whole, ms, pl, c);
    }
    SummedPositive(pl, ms);
    forall x | InBounds(x, whole.shape)
      ensures SumParts(FirstPart(whole), SummedOf(pl, ms), [], x) == whole.at(x)
    {
      OnlyFirstCounts(whole, SummedOf(pl, ms), [], x);
    }
    GatherAddsUp(leaf, FirstPart(whole), whole, ms, pl);
  }

  lemma WholeHull(n: nat, ms: seq<nat>, pl: seq<Placement>, d: int)
    requires |ms| == |pl| && Positive(ms)
    ensures HullStart(n, ms, pl, d, []) == 0 && HullEnd(n, ms, pl, d, []) == n
  {
    NumShardsSplits(ms, pl, d, 0);
    NumShardsPositive(ms, pl, d);
    assert NumShards(ms[..0], pl[..0], d) == 1;
    ShardsTile(n, NumShards(ms, pl, d));
  }
}

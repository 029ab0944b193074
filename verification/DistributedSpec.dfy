// How a tensor is cut over a device mesh: shard sizes, chunk numbers, local shapes
// and the validity check of a distributed specification.

module DistributedSpec {
  import opened MeshArithmetic

  datatype DeviceKind = Cpu | Gpu

  datatype Placement =
    | Replicate
    | Partial
    | Shard(dim: int, subSplit: int)
    | Optional
  {
    predicate IsShard(d: int) {
      Shard? && dim == d
    }

    predicate HasSubSplit() {
      Shard? && subSplit != -1
    }
  }

  /** A mesh of distinct device ids, stored row-major. */
  datatype DeviceMesh = DeviceMesh(kind: DeviceKind, shape: seq<nat>, data: seq<int>) {
    ghost predicate Valid() {
      && Positive(shape)
      && |data| == Prod(shape)
      && forall i, j | 0 <= i < j < |data| :: data[i] != data[j]
    }

    function DeviceIdSet(): set<int> {
      set id | id in data
    }
  }

  datatype ShardInfo = ShardInfo(shardDim: int, shardSize: nat, meshDims: set<nat>)

  // ---------------------------------------------------------------- reference definitions

  function AxesOf(pl: seq<Placement>, d: int): set<nat> {
    set i: nat | i < |pl| && pl[i].IsShard(d)
  }

  function ShardedDims(pl: seq<Placement>): set<int> {
    set i | 0 <= i < |pl| && pl[i].Shard? :: pl[i].dim
  }

  /** Into how many chunks tensor dimension d is cut. */
  function NumShards(ms: seq<nat>, pl: seq<Placement>, d: int): nat
    requires |ms| == |pl|
  {
    if |ms| == 0 then 1
    else
      var n := |ms| - 1;
      NumShards(ms[..n], pl[..n], d) * (if pl[n].IsShard(d) then ms[n] else 1)
  }

  /** Which chunk of tensor dimension d the device at mesh coordinate c holds. */
  function Chunk(ms: seq<nat>, pl: seq<Placement>, d: int, c: seq<nat>): nat
    requires |ms| == |pl| == |c|
  {
    if |ms| == 0 then 0
    else
      var n := |ms| - 1;
      var q := Chunk(ms[..n], pl[..n], d, c[..n]);
      if pl[n].IsShard(d) then q * ms[n] + c[n] else q
  }

  /** Size of chunk k when size cells are cut into num chunks; the first chunks take the remainder. */
  function ShardSize(size: nat, num: nat, k: nat): nat
    requires num > 0
  {
    size / num + if k < size % num then 1 else 0
  }

  function LocalShape(shape: seq<nat>, ms: seq<nat>, pl: seq<Placement>, c: seq<nat>): (r: seq<nat>)
    requires |ms| == |pl| == |c| && Positive(ms)
    ensures |r| == |shape|
  {
    seq(|shape|, d requires 0 <= d < |shape| =>
      NumShardsPositive(ms, pl, d);
      ShardSize(shape[d], NumShards(ms, pl, d), Chunk(ms, pl, d, c)))
  }

  predicate DimsBelow(pl: seq<Placement>, n: nat) {
    forall i | 0 <= i < |pl| && pl[i].Shard? :: 0 <= pl[i].dim < n
  }

  /** Every sharded tensor dimension exists. */
  predicate DimsExist(shape: seq<int>, pl: seq<Placement>) {
    DimsBelow(pl, |shape|)
  }

  /** No tensor dimension is sharded by two axes. */
  predicate ShardedOnce(pl: seq<Placement>) {
    forall i, j | 0 <= i < j < |pl| && pl[i].Shard? && pl[j].Shard? :: pl[i].dim != pl[j].dim
  }

  ghost predicate EvenSplit(shape: seq<nat>, ms: seq<nat>, pl: seq<Placement>)
    requires |ms| == |pl| && Positive(ms)
  {
    forall d | 0 <= d < |shape| :: NumShards(ms, pl, d) > 0 && shape[d] % NumShards(ms, pl, d) == 0
  }

  // ---------------------------------------------------------------- basic facts

  lemma {:induction false} NumShardsPositive(ms: seq<nat>, pl: seq<Placement>, d: int)
    requires |ms| == |pl| && Positive(ms)
    ensures NumShards(ms, pl, d) > 0
  {
    if |ms| > 0 {
      NumShardsPositive(ms[..|ms| - 1], pl[..|ms| - 1], d);
    }
  }

  lemma {:induction false} ChunkBound(ms: seq<nat>, pl: seq<Placement>, d: int, c: seq<nat>)
    requires |ms| == |pl| && InBounds(c, ms)
    ensures Chunk(ms, pl, d, c) < NumShards(ms, pl, d)
  {
    if |ms| > 0 {
      var n := |ms| - 1;
      ChunkBound(ms[..n], pl[..n], d, c[..n]);
      MulBound(Chunk(ms[..n], pl[..n], d, c[..n]), c[n], NumShards(ms[..n], pl[..n], d), ms[n]);
    }
  }

  lemma {:induction false} Unsharded(ms: seq<nat>, pl: seq<Placement>, d: int, c: seq<nat>)
    requires |ms| == |pl| == |c|
    requires AxesOf(pl, d) == {}
    ensures NumShards(ms, pl, d) == 1 && Chunk(ms, pl, d, c) == 0
  {
    if |ms| > 0 {
      var n := |ms| - 1;
      assert n !in AxesOf(pl, d);
      assert forall i: nat | i < n :: i !in AxesOf(pl, d);
      assert AxesOf(pl[..n], d) == {};
      Unsharded(ms[..n], pl[..n], d, c[..n]);
    }
  }

  lemma AxesOfEmpty(pl: seq<Placement>, d: int)
    ensures AxesOf(pl, d) == {} <==> d !in ShardedDims(pl)
  {
    if d in ShardedDims(pl) {
      var i :| 0 <= i < |pl| && pl[i].Shard? && pl[i].dim == d;
      assert i in AxesOf(pl, d);
    }
    forall i | i in AxesOf(pl, d) ensures d in ShardedDims(pl) {
      assert pl[i].dim == d;
    }
  }

  // ---------------------------------------------------------------- shard sizes

  function Sum(f: nat -> nat, n: nat): nat {
    if n == 0 then 0 else Sum(f, n - 1) + f(n - 1)
  }

  /** Cells held by the first k chunks. */
  function ShardOffset(size: nat, num: nat, k: nat): nat
    requires num > 0
  {
    k * (size / num) + if k < size % num then k else size % num
  }

  /** The chunks tile the dimension: offsets advance by the chunk sizes and end at the whole size. */
  lemma ShardsTile(size: nat, num: nat)
    requires num > 0
    ensures ShardOffset(size, num, 0) == 0
    ensures forall k: nat | k < num :: ShardOffset(size, num, k + 1) == ShardOffset(size, num, k) + ShardSize(size, num, k)
    ensures ShardOffset(size, num, num) == size
  {
    forall k: nat | k < num
      ensures ShardOffset(size, num, k + 1) == ShardOffset(size, num, k) + ShardSize(size, num, k)
    {
      assert (k + 1) * (size / num) == k * (size / num) + size / num;
    }
    assert num * (size / num) + size % num == size;
  }

  /** Shards of one dimension differ by at most one cell, never grow with the rank, and are not empty. */
  lemma ShardSizesFair(size: nat, num: nat, j: nat, k: nat)
    requires 0 < num && j <= k < num
    ensures ShardSize(size, num, k) <= ShardSize(size, num, j) <= ShardSize(size, num, k) + 1
    ensures size >= num ==> ShardSize(size, num, k) >= 1
    ensures size % num == 0 ==> ShardSize(size, num, k) == size / num
  {
    assert size == num * (size / num) + size % num;
  }

  lemma {:induction false} ShardSizesSum(f: nat -> nat, size: nat, num: nat, k: nat)
    requires num > 0 && k <= num
    requires forall i: nat | i < num :: f(i) == ShardSize(size, num, i)
    ensures Sum(f, k) == ShardOffset(size, num, k)
  {
    ShardsTile(size, num);
    if k > 0 {
      ShardSizesSum(f, size, num, k - 1);
      assert ShardOffset(size, num, k - 1 + 1) == ShardOffset(size, num, k - 1) + ShardSize(size, num, k - 1);
    }
  }

  method GetShardSizeForAllRank(shapeSize: nat, numShard: nat) returns (result: seq<nat>)
    requires numShard > 0
    ensures |result| == numShard
    ensures forall k: nat | k < numShard :: result[k] == ShardSize(shapeSize, numShard, k)
  {
    result := seq(numShard, _ => shapeSize / numShard);
    if shapeSize % numShard == 0 {
      return;
    }
    for i := 0 to shapeSize % numShard
      invariant |result| == numShard
      invariant forall k: nat | k < numShard :: result[k] == shapeSize / numShard + if k < i then 1 else 0
    {
      result := result[i := result[i] + 1];
    }
  }

  // ---------------------------------------------------------------- shard infos

  method GetShardInfo(ms: seq<nat>, pl: seq<Placement>) returns (infos: map<int, ShardInfo>)
    requires |ms| == |pl|
    ensures infos.Keys == ShardedDims(pl)
    ensures forall d | d in infos :: infos[d] == ShardInfo(d, NumShards(ms, pl, d), AxesOf(pl, d))
  {
    infos := map[];
    for i := 0 to |ms|
      invariant infos.Keys == ShardedDims(pl[..i])
      invariant forall d | d in infos ::
          infos[d] == ShardInfo(d, NumShards(ms[..i], pl[..i], d), AxesOf(pl[..i], d))
    {
      ShardInfoStep(ms, pl, i);
      if pl[i].Shard? {
        var d := pl[i].dim;
        if d !in infos {
          infos := infos[d := ShardInfo(d, ms[i], {i})];
        } else {
          var info := infos[d];
          infos := infos[d := info.(shardSize := info.shardSize * ms[i], meshDims := info.meshDims + {i})];
        }
      }
    }
    assert ms[..|ms|] == ms && pl[..|ms|] == pl;
  }

  lemma ShardInfoStep(ms: seq<nat>, pl: seq<Placement>, i: nat)
    requires |ms| == |pl| && i < |ms|
    ensures ShardedDims(pl[..i + 1]) == ShardedDims(pl[..i]) + if pl[i].Shard? then {pl[i].dim} else {}
    ensures forall d ::
        NumShards(ms[..i + 1], pl[..i + 1], d) == NumShards(ms[..i], pl[..i], d) * if pl[i].IsShard(d) then ms[i] else 1
    ensures forall d :: AxesOf(pl[..i + 1], d) == AxesOf(pl[..i], d) + if pl[i].IsShard(d) then {i} else {}
    ensures forall d | d !in ShardedDims(pl[..i]) :: NumShards(ms[..i], pl[..i], d) == 1 && AxesOf(pl[..i], d) == {}
  {
    assert ms[..i + 1][..i] == ms[..i] && pl[..i + 1][..i] == pl[..i];
    forall d | d !in ShardedDims(pl[..i])
      ensures NumShards(ms[..i], pl[..i], d) == 1 && AxesOf(pl[..i], d) == {}
    {
      AxesOfEmpty(pl[..i], d);
      Unsharded(ms[..i], pl[..i], d, ms[..i]);
    }
    var a, b := ShardedDims(pl[..i + 1]), ShardedDims(pl[..i]) + if pl[i].Shard? then {pl[i].dim} else {};
    forall d | d in b ensures d in a {
      if d in ShardedDims(pl[..i]) {
        var j :| 0 <= j < i && pl[..i][j].Shard? && pl[..i][j].dim == d;
        assert pl[..i + 1][j].dim == d;
      } else {
        assert pl[..i + 1][i].dim == d;
      }
    }
    forall d | d in a ensures d in b {
      var j :| 0 <= j < i + 1 && pl[..i + 1][j].Shard? && pl[..i + 1][j].dim == d;
      if j < i {
        assert pl[..i][j].dim == d;
      }
    }
  }

  // ---------------------------------------------------------------- projection on mesh axes

  function Keep(s: seq<nat>, sel: set<nat>): seq<nat> {
    if |s| == 0 then []
    else
      var n := |s| - 1;
      Keep(s[..n], sel) + if n in sel then [s[n]] else []
  }

  lemma KeepLength(s: seq<nat>, t: seq<nat>, sel: set<nat>)
    requires |s| == |t|
    ensures |Keep(s, sel)| == |Keep(t, sel)|
  {
    if |s| > 0 {
      KeepLength(s[..|s| - 1], t[..|s| - 1], sel);
    }
  }

  method KeepSelectedDim(s: seq<nat>, sel: set<nat>) returns (result: seq<nat>)
    ensures result == Keep(s, sel)
  {
    result := [];
    for i := 0 to |s|
      invariant result == Keep(s[..i], sel)
    {
      assert s[..i + 1][..i] == s[..i];
      if i in sel {
        result := result + [s[i]];
      }
    }
    assert s[..|s|] == s;
  }

  method IndexInSelectedDims(index: nat, stride: Stride, sel: set<nat>, selectedStride: Stride) returns (r: nat)
    requires Positive(stride.mStride)
    requires |Keep(stride.mStride, sel)| == |selectedStride.mStride|
    ensures |Keep(Peel(index, stride.mStride), sel)| == |selectedStride.mStride|
    ensures r == Dot(Keep(Peel(index, stride.mStride), sel), selectedStride.mStride)
  {
    var coordinate := stride.ComputeCoordinate(index);
    var selected := KeepSelectedDim(coordinate, sel);
    KeepLength(coordinate, stride.mStride, sel);
    r := selectedStride.ComputeIndex(selected);
  }

  /** Projecting a coordinate on the axes that shard d numbers the chunk of d, and there are NumShards of them. */
  lemma {:induction false} ProjectionIsChunk(ms: seq<nat>, pl: seq<Placement>, d: int, c: seq<nat>, sel: set<nat>)
    requires |ms| == |pl| == |c|
    requires forall i: nat | i < |pl| :: i in sel <==> pl[i].IsShard(d)
    ensures |Keep(c, sel)| == |Keep(ms, sel)|
    ensures Prod(Keep(ms, sel)) == NumShards(ms, pl, d)
    ensures Index(Keep(ms, sel), Keep(c, sel)) == Chunk(ms, pl, d, c)
  {
    KeepLength(c, ms, sel);
    if |ms| > 0 {
      var n := |ms| - 1;
      ProjectionIsChunk(ms[..n], pl[..n], d, c[..n], sel);
      var k, e := Keep(ms[..n], sel), Keep(c[..n], sel);
      if n in sel {
        assert (k + [ms[n]])[..|k|] == k && (e + [c[n]])[..|k|] == e;
      } else {
        assert k + [] == k && e + [] == e;
      }
    }
  }

  // ---------------------------------------------------------------- local shapes

  method ComputeLocalShape(shape: seq<nat>, mesh: DeviceMesh, pl: seq<Placement>) returns (result: map<int, seq<nat>>)
    requires mesh.Valid() && |pl| == |mesh.shape| && DimsExist(shape, pl)
    ensures EvenSplit(shape, mesh.shape, pl) ==>
        forall p: nat | p < |mesh.data| :: result == map[0 := LocalShape(shape, mesh.shape, pl, Coord(mesh.shape, p))]
    ensures !EvenSplit(shape, mesh.shape, pl) ==>
        && result.Keys == mesh.DeviceIdSet()
        && forall p: nat | p < |mesh.data| ::
             result[mesh.data[p]] == LocalShape(shape, mesh.shape, pl, Coord(mesh.shape, p))
  {
    var ms := mesh.shape;
    var evenSplit, evenShape := true, shape;
    var infos := GetShardInfo(ms, pl);
    var todo := infos.Keys;
    AllNumShardsPositive(ms, pl);
    DimsInRange(shape, pl);
    while todo != {}
      invariant todo <= infos.Keys
      invariant |evenShape| == |shape|
      invariant evenSplit == forall d | d in infos.Keys - todo :: shape[d] % NumShards(ms, pl, d) == 0
      invariant forall d | 0 <= d < |shape| ::
          evenShape[d] == if d in infos.Keys - todo && shape[d] % NumShards(ms, pl, d) == 0
                          then shape[d] / NumShards(ms, pl, d) else shape[d]
    {
      var d :| d in todo;
      todo := todo - {d};
      var n := infos[d].shardSize;
      if shape[d] % n != 0 {
        evenSplit := false;
      } else {
        evenShape := evenShape[d := shape[d] / n];
      }
    }
    EvenSplitSharded(shape, ms, pl);
    if evenSplit {
      forall p: nat | p < |mesh.data|
        ensures evenShape == LocalShape(shape, ms, pl, Coord(ms, p))
      {
        EvenLocalShape(shape, ms, pl, Coord(ms, p), evenShape);
      }
      return map[0 := evenShape];
    }
    result := ComputeUnevenLocalShape(shape, mesh, pl, infos, evenShape);
  }

  lemma AllNumShardsPositive(ms: seq<nat>, pl: seq<Placement>)
    requires |ms| == |pl| && Positive(ms)
    ensures forall d :: NumShards(ms, pl, d) > 0
  {
    forall d ensures NumShards(ms, pl, d) > 0 { NumShardsPositive(ms, pl, d); }
  }

  lemma DimsInRange(shape: seq<nat>, pl: seq<Placement>)
    requires DimsExist(shape, pl)
    ensures forall d | d in ShardedDims(pl) :: 0 <= d < |shape|
  {
  }

  /** Dimensions that no axis shards are trivially even. */
  lemma EvenSplitSharded(shape: seq<nat>, ms: seq<nat>, pl: seq<Placement>)
    requires |ms| == |pl| && Positive(ms) && DimsExist(shape, pl)
    requires forall d :: NumShards(ms, pl, d) > 0
    ensures EvenSplit(shape, ms, pl) <==> forall d | d in ShardedDims(pl) :: shape[d] % NumShards(ms, pl, d) == 0
  {
    forall d | d !in ShardedDims(pl) ensures NumShards(ms, pl, d) == 1 {
      AxesOfEmpty(pl, d);
      Unsharded(ms, pl, d, ms);
    }
  }

  lemma EvenLocalShape(shape: seq<nat>, ms: seq<nat>, pl: seq<Placement>, c: seq<nat>, local: seq<nat>)
    requires |ms| == |pl| == |c| && Positive(ms)
    requires EvenSplit(shape, ms, pl)
    requires |local| == |shape|
    requires forall d | 0 <= d < |shape| :: NumShards(ms, pl, d) > 0
    requires forall d | 0 <= d < |shape| ::
        local[d] == if d in ShardedDims(pl) then shape[d] / NumShards(ms, pl, d) else shape[d]
    ensures local == LocalShape(shape, ms, pl, c)
  {
    forall d | 0 <= d < |shape|
      ensures local[d] == LocalShape(shape, ms, pl, c)[d]
    {
      if d !in ShardedDims(pl) {
        AxesOfEmpty(pl, d);
        Unsharded(ms, pl, d, c);
      }
    }
  }

  /** The shape at coordinate c when only the tensor dimensions in done have their uneven sizes filled in. */
  ghost predicate Filled(local: seq<nat>, shape: seq<nat>, ms: seq<nat>, pl: seq<Placement>, c: seq<nat>,
                         base: seq<nat>, done: set<int>)
    requires |ms| == |pl| == |c| && Positive(ms) && |base| == |shape|
  {
    && |local| == |shape|
    && forall d | 0 <= d < |shape| :: local[d] == if d in done then LocalShape(shape, ms, pl, c)[d] else base[d]
  }

  method ComputeUnevenLocalShape(shape: seq<nat>, mesh: DeviceMesh, pl: seq<Placement>, infos: map<int, ShardInfo>,
                                 evenShape: seq<nat>)
    returns (result: map<int, seq<nat>>)
    requires mesh.Valid() && |pl| == |mesh.shape| && DimsExist(shape, pl) && |evenShape| == |shape|
    requires infos.Keys == ShardedDims(pl)
    requires forall d | d in infos :: infos[d] == ShardInfo(d, NumShards(mesh.shape, pl, d), AxesOf(pl, d))
    requires forall d :: NumShards(mesh.shape, pl, d) > 0
    requires forall d | 0 <= d < |shape| ::
        evenShape[d] == if d in infos && shape[d] % NumShards(mesh.shape, pl, d) == 0
                        then shape[d] / NumShards(mesh.shape, pl, d) else shape[d]
    ensures result.Keys == mesh.DeviceIdSet()
    ensures forall p: nat | p < |mesh.data| ::
        result[mesh.data[p]] == LocalShape(shape, mesh.shape, pl, Coord(mesh.shape, p))
  {
    var ms, data := mesh.shape, mesh.data;
    result := map id | id in mesh.DeviceIdSet() :: evenShape;
    var meshStride := new Stride.FromShape(ms);
    StridesPositive(ms);
    DimsInRange(shape, pl);
    var todo, done := infos.Keys, {};
    while todo != {}
      invariant todo <= infos.Keys && done == infos.Keys - todo
      invariant result.Keys == mesh.DeviceIdSet()
      invariant meshStride.mStride == RowMajorStrides(ms)
      invariant forall p: nat | p < |data| :: Filled(result[data[p]], shape, ms, pl, Coord(ms, p), evenShape, done)
    {
      var d :| d in todo;
      var n := infos[d].shardSize;
      if shape[d] % n != 0 {
        assert FilledUpTo(result, shape, mesh, pl, evenShape, done, d, 0);
        result := FillDimension(shape, mesh, pl, infos[d], meshStride, evenShape, done, result);
      } else {
        forall p: nat | p < |data|
          ensures Filled(result[data[p]], shape, ms, pl, Coord(ms, p), evenShape, done + {d})
        {
        }
      }
      todo, done := todo - {d}, done + {d};
    }
    forall p: nat | p < |data|
      ensures result[data[p]] == LocalShape(shape, ms, pl, Coord(ms, p))
    {
      FilledAll(result[data[p]], shape, ms, pl, Coord(ms, p), evenShape);
    }
  }

  lemma FilledAll(local: seq<nat>, shape: seq<nat>, ms: seq<nat>, pl: seq<Placement>, c: seq<nat>, base: seq<nat>)
    requires |ms| == |pl| == |c| && Positive(ms) && |base| == |shape|
    requires Filled(local, shape, ms, pl, c, base, ShardedDims(pl))
    requires forall d | 0 <= d < |shape| && d !in ShardedDims(pl) :: base[d] == shape[d]
    ensures local == LocalShape(shape, ms, pl, c)
  {
    forall d | 0 <= d < |shape| && d !in ShardedDims(pl)
      ensures LocalShape(shape, ms, pl, c)[d] == shape[d]
    {
      AxesOfEmpty(pl, d);
      Unsharded(ms, pl, d, c);
    }
  }

  /** The first idx devices have dimension d filled in besides done, the others only done. */
  ghost predicate FilledUpTo(m: map<int, seq<nat>>, shape: seq<nat>, mesh: DeviceMesh, pl: seq<Placement>,
                             base: seq<nat>, done: set<int>, d: int, idx: nat)
    requires mesh.Valid() && |pl| == |mesh.shape| && |base| == |shape|
  {
    && m.Keys == mesh.DeviceIdSet()
    && forall p: nat | p < |mesh.data| ::
         Filled(m[mesh.data[p]], shape, mesh.shape, pl, Coord(mesh.shape, p), base, if p < idx then done + {d} else done)
  }

  lemma FillStep(m: map<int, seq<nat>>, shape: seq<nat>, mesh: DeviceMesh, pl: seq<Placement>,
                 base: seq<nat>, done: set<int>, d: int, idx: nat, filled: seq<nat>)
    requires mesh.Valid() && |pl| == |mesh.shape| && |base| == |shape|
    requires 0 <= d < |shape| && idx < |mesh.data|
    requires FilledUpTo(m, shape, mesh, pl, base, done, d, idx)
    requires mesh.data[idx] in m && |m[mesh.data[idx]]| == |shape|
    requires filled == m[mesh.data[idx]][d := LocalShape(shape, mesh.shape, pl, Coord(mesh.shape, idx))[d]]
    ensures FilledUpTo(m[mesh.data[idx] := filled], shape, mesh, pl, base, done, d, idx + 1)
  {
    var id := mesh.data[idx];
    assert id in mesh.DeviceIdSet();
    FilledNext(m[id], shape, mesh.shape, pl, Coord(mesh.shape, idx), base, done, d, filled);
    forall p: nat | p < |mesh.data|
      ensures Filled(m[id := filled][mesh.data[p]], shape, mesh.shape, pl, Coord(mesh.shape, p), base,
                     if p < idx + 1 then done + {d} else done)
    {
      assert p != idx ==> mesh.data[p] != id;
      assert Filled(m[mesh.data[p]], shape, mesh.shape, pl, Coord(mesh.shape, p), base, if p < idx then done + {d} else done);
    }
  }

  lemma FilledNext(local: seq<nat>, shape: seq<nat>, ms: seq<nat>, pl: seq<Placement>, c: seq<nat>, base: seq<nat>,
                   done: set<int>, d: int, filled: seq<nat>)
    requires |ms| == |pl| == |c| && Positive(ms) && |base| == |shape| && 0 <= d < |shape|
    requires Filled(local, shape, ms, pl, c, base, done) && filled == local[d := LocalShape(shape, ms, pl, c)[d]]
    ensures Filled(filled, shape, ms, pl, c, base, done + {d})
  {
  }

  method FillDimension(shape: seq<nat>, mesh: DeviceMesh, pl: seq<Placement>, info: ShardInfo, meshStride: Stride,
                       ghost base: seq<nat>, ghost done: set<int>, before: map<int, seq<nat>>)
    returns (result: map<int, seq<nat>>)
    requires mesh.Valid() && |pl| == |mesh.shape| && |base| == |shape|
    requires 0 <= info.shardDim < |shape|
    requires info.shardSize == NumShards(mesh.shape, pl, info.shardDim) > 0
    requires info.meshDims == AxesOf(pl, info.shardDim)
    requires meshStride.mStride == RowMajorStrides(mesh.shape) && Positive(meshStride.mStride)
    requires FilledUpTo(before, shape, mesh, pl, base, done, info.shardDim, 0)
    ensures FilledUpTo(result, shape, mesh, pl, base, done, info.shardDim, |mesh.data|)
  {
    var ms, d := mesh.shape, info.shardDim;
    var kept := KeepSelectedDim(ms, info.meshDims);
    KeepLength(ms, meshStride.mStride, info.meshDims);
    var selectedStride := new Stride.FromShape(kept);
    var splitSize := GetShardSizeForAllRank(shape[d], info.shardSize);
    result := before;
    for idx := 0 to |mesh.data|
      invariant selectedStride.mStride == RowMajorStrides(kept)
      invariant FilledUpTo(result, shape, mesh, pl, base, done, d, idx)
    {
      var k := IndexInSelectedDims(idx, meshStride, info.meshDims, selectedStride);
      SelectedIndexIsChunk(ms, pl, d, idx);
      var id := mesh.data[idx];
      assert id in mesh.DeviceIdSet();
      var filled: seq<nat> := result[id][d := splitSize[k]];
      FillStep(result, shape, mesh, pl, base, done, d, idx, filled);
      result := result[id := filled];
    }
  }

  /** What the strides of the selected axes compute is the chunk number. */
  lemma SelectedIndexIsChunk(ms: seq<nat>, pl: seq<Placement>, d: int, p: nat)
    requires |ms| == |pl| && Positive(ms) && p < Prod(ms)
    ensures Positive(RowMajorStrides(ms))
    ensures var kept := Keep(ms, AxesOf(pl, d));
            var coordinate := Keep(Peel(p, RowMajorStrides(ms)), AxesOf(pl, d));
            && |coordinate| == |kept|
            && Dot(coordinate, RowMajorStrides(kept)) == Chunk(ms, pl, d, Coord(ms, p)) < NumShards(ms, pl, d)
  {
    PeelIsCoord(ms, p);
    var c := Coord(ms, p);
    IndexOfCoord(ms, p);
    ProjectionIsChunk(ms, pl, d, c, AxesOf(pl, d));
    DotIsIndex(Keep(ms, AxesOf(pl, d)), Keep(c, AxesOf(pl, d)));
    ChunkBound(ms, pl, d, c);
  }

  // ---------------------------------------------------------------- validity of a specification

  predicate IsNullTensorShape(shape: seq<int>) {
    shape == [-100]
  }

  predicate AxisValid(shape: seq<int>, ms: seq<nat>, p: Placement, i: nat)
    requires i < |ms|
  {
    p.Shard? ==> 0 <= p.dim < |shape| && ms[i] >= 2 && p.subSplit >= -1
  }

  predicate ShapeValid(shape: seq<int>, ms: seq<nat>, pl: seq<Placement>)
    requires |ms| == |pl| && DimsExist(shape, pl)
  {
    forall d | d in ShardedDims(pl) :: shape[d] >= NumShards(ms, pl, d)
  }

  predicate DeviceIdsValid(mesh: DeviceMesh, totalGpuCount: int) {
    mesh.kind == Cpu || forall id | id in mesh.data :: id < totalGpuCount
  }

  predicate AxesValid(shape: seq<int>, mesh: DeviceMesh, pl: seq<Placement>, totalGpuCount: int) {
    && |pl| > 0
    && DeviceIdsValid(mesh, totalGpuCount)
    && |mesh.shape| == |pl|
    && (|mesh.data| == 1 ==> pl[0].Replicate?)
    && forall i | 0 <= i < |pl| :: AxisValid(shape, mesh.shape, pl[i], i)
  }

  predicate SpecValid(shape: seq<int>, mesh: DeviceMesh, pl: seq<Placement>, totalGpuCount: int) {
    || IsNullTensorShape(shape)
    || (AxesValid(shape, mesh, pl, totalGpuCount) && ShapeValid(shape, mesh.shape, pl))
  }

  /** The tests, one by one. */
  lemma ValidMeans(shape: seq<int>, mesh: DeviceMesh, pl: seq<Placement>, totalGpuCount: int)
    ensures SpecValid(shape, mesh, pl, totalGpuCount) <==>
      || shape == [-100]
      || (&& |pl| > 0 && |mesh.shape| == |pl| && (|mesh.data| == 1 ==> pl[0].Replicate?)
          && (mesh.kind == Cpu || forall p :: 0 <= p < |mesh.data| ==> mesh.data[p] < totalGpuCount)
          && (forall i :: 0 <= i < |pl| && pl[i].Shard? ==>
                0 <= pl[i].dim < |shape| && mesh.shape[i] >= 2 && pl[i].subSplit >= -1)
          && (forall i :: 0 <= i < |pl| && pl[i].Shard? ==> shape[pl[i].dim] >= NumShards(mesh.shape, pl, pl[i].dim)))
  {
    assert DeviceIdsValid(mesh, totalGpuCount) <==>
      mesh.kind == Cpu || forall p :: 0 <= p < |mesh.data| ==> mesh.data[p] < totalGpuCount by {
      assert forall p :: 0 <= p < |mesh.data| ==> mesh.data[p] in mesh.data;
    }
    if |mesh.shape| == |pl| {
      assert (forall i :: 0 <= i < |pl| ==> AxisValid(shape, mesh.shape, pl[i], i)) <==>
        forall i :: 0 <= i < |pl| && pl[i].Shard? ==> 0 <= pl[i].dim < |shape| && mesh.shape[i] >= 2 && pl[i].subSplit >= -1;
      if forall i :: 0 <= i < |pl| ==> AxisValid(shape, mesh.shape, pl[i], i) {
        assert DimsExist(shape, pl);
        ShapeValidMeans(shape, mesh.shape, pl);
      }
    }
  }

  lemma ShapeValidMeans(shape: seq<int>, ms: seq<nat>, pl: seq<Placement>)
    requires |ms| == |pl| && DimsExist(shape, pl)
    ensures ShapeValid(shape, ms, pl) <==>
      forall i :: 0 <= i < |pl| && pl[i].Shard? ==> shape[pl[i].dim] >= NumShards(ms, pl, pl[i].dim)
  {
    forall i | 0 <= i < |pl| && pl[i].Shard?
      ensures pl[i].dim in ShardedDims(pl)
    {
    }
  }

  method CheckShapeValid(shape: seq<int>, ms: seq<nat>, pl: seq<Placement>) returns (ok: bool)
    requires |ms| == |pl| && DimsExist(shape, pl)
    ensures ok == ShapeValid(shape, ms, pl)
    ensures ok <==> forall i :: 0 <= i < |pl| && pl[i].Shard? ==> shape[pl[i].dim] >= NumShards(ms, pl, pl[i].dim)
  {
    ShapeValidMeans(shape, ms, pl);
    var infos := GetShardInfo(ms, pl);
    var todo := infos.Keys;
    while todo != {}
      invariant todo <= infos.Keys
      invariant forall d | d in infos.Keys - todo :: shape[d] >= NumShards(ms, pl, d)
    {
      var d :| d in todo;
      if shape[d] < infos[d].shardSize {
        return false;
      }
      todo := todo - {d};
    }
    return true;
  }

  method CheckDeviceIdValid(mesh: DeviceMesh, totalGpuCount: int) returns (ok: bool)
    ensures ok == DeviceIdsValid(mesh, totalGpuCount)
    ensures ok <==> mesh.kind == Cpu || forall p :: 0 <= p < |mesh.data| ==> mesh.data[p] < totalGpuCount
  {
    if mesh.kind == Cpu {
      return true;
    }
    for i := 0 to |mesh.data|
      invariant forall j | 0 <= j < i :: mesh.data[j] < totalGpuCount
    {
      if mesh.data[i] >= totalGpuCount {
        assert mesh.data[i] in mesh.data;
        return false;
      }
    }
    return true;
  }

  method CheckValid(shape: seq<int>, mesh: DeviceMesh, pl: seq<Placement>, totalGpuCount: int) returns (ok: bool)
    requires mesh.Valid()
    ensures ok == SpecValid(shape, mesh, pl, totalGpuCount)
    ensures ok <==>
      || shape == [-100]
      || (&& |pl| > 0 && |mesh.shape| == |pl| && (|mesh.data| == 1 ==> pl[0].Replicate?)
          && (mesh.kind == Cpu || forall p :: 0 <= p < |mesh.data| ==> mesh.data[p] < totalGpuCount)
          && (forall i :: 0 <= i < |pl| && pl[i].Shard? ==>
                0 <= pl[i].dim < |shape| && mesh.shape[i] >= 2 && pl[i].subSplit >= -1)
          && (forall i :: 0 <= i < |pl| && pl[i].Shard? ==> shape[pl[i].dim] >= NumShards(mesh.shape, pl, pl[i].dim)))
  {
    ValidMeans(shape, mesh, pl, totalGpuCount);
    if IsNullTensorShape(shape) {
      return true;
    }
    if |pl| <= 0 {
      return false;
    }
    var idsValid := CheckDeviceIdValid(mesh, totalGpuCount);
    if !idsValid {
      return false;
    }
    if |mesh.shape| != |pl| {
      return false;
    }
    if |mesh.data| == 1 && !pl[0].Replicate? {
      return false;
    }
    DistinctCount(mesh.data);
    if |mesh.DeviceIdSet()| != |mesh.data| {
      return false;
    }
    for i := 0 to |pl|
      invariant forall j | 0 <= j < i :: AxisValid(shape, mesh.shape, pl[j], j)
    {
      if pl[i].Shard? {
        if pl[i].dim < 0 {
          return false;
        }
        if pl[i].dim >= |shape| {
          return false;
        }
        if mesh.shape[i] < 2 {
          return false;
        }
        if pl[i].subSplit != -1 && pl[i].subSplit < 0 {
          return false;
        }
      }
    }
    assert DimsExist(shape, pl) by {
      forall i | 0 <= i < |pl| && pl[i].Shard? ensures 0 <= pl[i].dim < |shape| {
        assert AxisValid(shape, mesh.shape, pl[i], i);
      }
    }
    ok := CheckShapeValid(shape, mesh.shape, pl);
  }

  /** A mesh has as many device ids as cells, so the duplicate test never refuses one. */
  lemma DistinctCount(data: seq<int>)
    requires forall i, j | 0 <= i < j < |data| :: data[i] != data[j]
    ensures |set id | id in data| == |data|
  {
    if |data| > 0 {
      var n := |data| - 1;
      DistinctCount(data[..n]);
      assert (set id | id in data) == (set id | id in data[..n]) + {data[n]};
      assert data[n] !in data[..n];
    }
  }

  /**
   * What CheckValid accepts is safe to compute with: the asserts of the splitting code hold, no device
   * gets an empty shard, and along every dimension later chunks are never larger and at most one cell smaller.
   */
  lemma CheckValidSufficient(shape: seq<nat>, mesh: DeviceMesh, pl: seq<Placement>, totalGpuCount: int,
                             d: nat, c: seq<nat>, e: seq<nat>)
    requires mesh.Valid() && Positive(shape)
    requires SpecValid(shape, mesh, pl, totalGpuCount)
    requires d < |shape| && InBounds(c, mesh.shape) && InBounds(e, mesh.shape)
    ensures |pl| == |mesh.shape| && DimsExist(shape, pl)
    ensures 0 < NumShards(mesh.shape, pl, d) <= shape[d]
    ensures Chunk(mesh.shape, pl, d, c) < NumShards(mesh.shape, pl, d)
    ensures LocalShape(shape, mesh.shape, pl, c)[d] >= 1
    ensures Chunk(mesh.shape, pl, d, c) <= Chunk(mesh.shape, pl, d, e) ==>
        LocalShape(shape, mesh.shape, pl, e)[d] <= LocalShape(shape, mesh.shape, pl, c)[d]
          <= LocalShape(shape, mesh.shape, pl, e)[d] + 1
  {
    var ms := mesh.shape;
    assert |shape| == 1 ==> shape[0] >= 0;
    assert forall i | 0 <= i < |pl| :: AxisValid(shape, ms, pl[i], i);
    NumShardsPositive(ms, pl, d);
    AxesOfEmpty(pl, d);
    if d !in ShardedDims(pl) {
      Unsharded(ms, pl, d, c);
    }
    ChunkBound(ms, pl, d, c);
    ChunkBound(ms, pl, d, e);
    var n, k, l := NumShards(ms, pl, d), Chunk(ms, pl, d, c), Chunk(ms, pl, d, e);
    ShardSizesFair(shape[d], n, k, k);
    if k <= l {
      ShardSizesFair(shape[d], n, k, l);
    }
  }
}

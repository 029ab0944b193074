/** Scattering a tensor over a mesh and gathering it again: the pieces are cut on the merged mesh, put
  * together on the mesh as given, and the tensor comes back. */
module ScatterRoundTrip {
  import opened MeshArithmetic
  import opened DistributedSpec
  import opened MergeShardDims
  import opened Tensors
  import opened ScatterGather

  // ---------------------------------------------------------------- the merged mesh

  lemma OneAxisIndex(m: nat, k: nat)
    ensures Index([m], [k]) == k
  {
    assert [m][..0] == [] && [k][..0] == [];
  }

  /** A summed axis stays an axis of its own when others are merged, with its coordinate. */
  lemma SummedAxisKept(ms: seq<nat>, pl: seq<Placement>, c: seq<nat>, k: nat)
    requires |ms| == |pl| == |c| && k < |Leaders(pl, |pl|)| && Summed(pl[Leaders(pl, |pl|)[k]])
    ensures |GroupCoord(ms, Groups(pl, |pl|), c)| == |Leaders(pl, |pl|)|
    ensures GroupCoord(ms, Groups(pl, |pl|), c)[k] == c[Leaders(pl, |pl|)[k]]
  {
    LeadersFacts(pl, |pl|);
    var i := Leaders(pl, |pl|)[k];
    assert Select(ms, [i]) == [ms[i]] && Select(c, [i]) == [c[i]];
    OneAxisIndex(ms[i], c[i]);
  }

  lemma ZeroedKept(ms: seq<nat>, pl: seq<Placement>, c: seq<nat>)
    requires |ms| == |pl| == |c|
    ensures |GroupCoord(ms, Groups(pl, |pl|), c)| == |MergedPlacements(pl)|
    ensures Zeroed(MergedPlacements(pl), GroupCoord(ms, Groups(pl, |pl|), c)) == Zeroed(pl, c)
  {
    LeadersFacts(pl, |pl|);
    var ql, e := MergedPlacements(pl), GroupCoord(ms, Groups(pl, |pl|), c);
    if Zeroed(pl, c) {
      var i :| 0 <= i < |pl| && Summed(pl[i]) && c[i] != 0;
      var k := LeaderIndex(pl, |pl|, i);
      SummedAxisKept(ms, pl, c, k);
      assert Summed(ql[k]) && e[k] != 0;
    }
    if Zeroed(ql, e) {
      var k :| 0 <= k < |ql| && Summed(ql[k]) && e[k] != 0;
      SummedAxisKept(ms, pl, c, k);
      assert Summed(pl[Leaders(pl, |pl|)[k]]) && c[Leaders(pl, |pl|)[k]] != 0;
    }
  }

  lemma SamePiece(t: Tensor, whole: Tensor, ms: seq<nat>, pl: seq<Placement>, c: seq<nat>,
                  ns: seq<nat>, ql: seq<Placement>, e: seq<nat>)
    requires |ms| == |pl| == |c| && Positive(ms) && |ns| == |ql| == |e| && Positive(ns)
    requires IsPiece(t, whole, ns, ql, e) && Zeroed(ql, e) == Zeroed(pl, c)
    requires forall d :: NumShards(ns, ql, d) == NumShards(ms, pl, d)
    requires forall d :: Chunk(ns, ql, d, e) == Chunk(ms, pl, d, c)
    ensures IsPiece(t, whole, ms, pl, c)
  {
    assert Origin(whole.shape, ns, ql, e) == Origin(whole.shape, ms, pl, c);
    assert LocalShape(whole.shape, ns, ql, e) == LocalShape(whole.shape, ms, pl, c);
  }

  /** The placements left after merging: plain ones, each dimension sharded at most once. */
  lemma MergedIsOnce(mesh: DeviceMesh, pl: seq<Placement>, n: nat)
    requires mesh.Valid() && |pl| == |mesh.shape| && PlainBelow(pl, n)
    ensures ShardedOnce(Merged(mesh, pl).1) && PlainBelow(Merged(mesh, pl).1, n)
  {
    MergeIsIdempotent(mesh, pl);
    var ql := Merged(mesh, pl).1;
    forall i, j | 0 <= i < j < |ql| && ql[i].Shard? && ql[j].Shard?
      ensures ql[i].dim != ql[j].dim
    {
      assert ql[i].IsShard(ql[i].dim);
    }
  }

  /** Scattering on the merged mesh gives the device at coordinate `c` of the mesh as given exactly the block
    * that its placements assign to it; in particular a piece of its local shape. */
  lemma ScatterOnMerged(whole: Tensor, mesh: DeviceMesh, pl: seq<Placement>, c: seq<nat>)
    requires mesh.Valid() && |pl| == |mesh.shape| && InBounds(c, mesh.shape) && PlainBelow(pl, |whole.shape|)
    ensures var (mesh', pl') := Merged(mesh, pl);
      var c' := MergedCoord(mesh.shape, pl, c);
      && |pl'| == |mesh'.shape| && InBounds(c', mesh'.shape) && PlainBelow(pl', |whole.shape|)
      && IsPiece(ScatterAt(whole, mesh'.shape, pl', c', 0), whole, mesh.shape, pl, c)
      && ScatterAt(whole, mesh'.shape, pl', c', 0).shape == LocalShape(whole.shape, mesh.shape, pl, c)
  {
    var (mesh', pl') := Merged(mesh, pl);
    var c' := MergedCoord(mesh.shape, pl, c);
    MergeKeepsDistribution(whole.shape, mesh, pl, c);
    MergedIsOnce(mesh, pl, |whole.shape|);
    ScatterIsCanonical(whole, mesh'.shape, pl', c');
    if NeedsMerge(pl) {
      ZeroedKept(mesh.shape, pl, c);
    }
    SamePiece(ScatterAt(whole, mesh'.shape, pl', c', 0), whole, mesh.shape, pl, c, mesh'.shape, pl', c');
  }

  // ---------------------------------------------------------------- scattering

  /** The device at coordinate `c`. */
  function IdAt(mesh: DeviceMesh, c: seq<nat>): (r: int)
    requires |mesh.data| == Prod(mesh.shape) && InBounds(c, mesh.shape)
  {
    CoordOfIndex(mesh.shape, c);
    mesh.data[Index(mesh.shape, c)]
  }

  lemma IdsDiffer(mesh: DeviceMesh, c: seq<nat>, e: seq<nat>)
    requires mesh.Valid() && InBounds(c, mesh.shape) && InBounds(e, mesh.shape) && IdAt(mesh, c) == IdAt(mesh, e)
    ensures c == e
  {
    CoordOfIndex(mesh.shape, c);
    CoordOfIndex(mesh.shape, e);
    assert Index(mesh.shape, c) == Index(mesh.shape, e);
  }

  predicate Extends(c: seq<nat>, prefix: seq<nat>, ms: seq<nat>) {
    InBounds(c, ms) && prefix <= c
  }

  /** The entries of all devices whose coordinates extend the prefix, cut out of `t`. */
  ghost predicate EntriesBelow(result: map<int, Tensor>, t: Tensor, mesh: DeviceMesh, pl: seq<Placement>, prefix: seq<nat>)
    requires mesh.Valid() && |pl| == |mesh.shape| && |prefix| <= |pl| && PlainBelow(pl, |t.shape|)
  {
    forall c :: Extends(c, prefix, mesh.shape) ==> EntryAt(result, t, mesh, pl, |prefix|, c)
  }

  ghost predicate EntryAt(result: map<int, Tensor>, t: Tensor, mesh: DeviceMesh, pl: seq<Placement>, k: nat, c: seq<nat>)
    requires mesh.Valid() && |pl| == |mesh.shape| && k <= |pl| && PlainBelow(pl, |t.shape|) && InBounds(c, mesh.shape)
  {
    IdAt(mesh, c) in result && result[IdAt(mesh, c)] == ScatterAt(t, mesh.shape, pl, c, k)
  }

  /** No device whose coordinates extend the prefix has an entry yet. */
  ghost predicate NoneBelow(result: map<int, Tensor>, mesh: DeviceMesh, prefix: seq<nat>)
    requires mesh.Valid()
  {
    forall c :: Extends(c, prefix, mesh.shape) ==> IdAt(mesh, c) !in result
  }

  /** `later` has the entries of `earlier`, and otherwise only devices below the prefix. */
  ghost predicate AddsBelow(earlier: map<int, Tensor>, later: map<int, Tensor>, mesh: DeviceMesh, prefix: seq<nat>)
    requires mesh.Valid()
  {
    && (forall id :: id in earlier ==> id in later && later[id] == earlier[id])
    && (forall id :: id in later && id !in earlier ==> exists c :: Extends(c, prefix, mesh.shape) && IdAt(mesh, c) == id)
  }

  lemma ExtendsNext(c: seq<nat>, prefix: seq<nat>, ms: seq<nat>)
    requires Extends(c, prefix, ms) && |prefix| < |ms|
    ensures c[|prefix|] < ms[|prefix|] && Extends(c, prefix + [c[|prefix|]], ms)
  {
  }

  lemma ExtendsLess(c: seq<nat>, prefix: seq<nat>, i: nat, ms: seq<nat>)
    requires Extends(c, prefix + [i], ms)
    ensures Extends(c, prefix, ms) && c[|prefix|] == i
  {
    assert (prefix + [i])[..|prefix|] == prefix && (prefix + [i])[|prefix|] == i;
  }

  /** Entries below position `i` of an axis leave those below position `j` alone. */
  lemma OthersStay(earlier: map<int, Tensor>, later: map<int, Tensor>, mesh: DeviceMesh, prefix: seq<nat>, i: nat, j: nat)
    requires mesh.Valid() && i != j && AddsBelow(earlier, later, mesh, prefix + [i])
    requires NoneBelow(earlier, mesh, prefix + [j])
    ensures NoneBelow(later, mesh, prefix + [j])
  {
    forall c | Extends(c, prefix + [j], mesh.shape)
      ensures IdAt(mesh, c) !in later
    {
      if IdAt(mesh, c) in later {
        var e :| Extends(e, prefix + [i], mesh.shape) && IdAt(mesh, e) == IdAt(mesh, c);
        IdsDiffer(mesh, c, e);
        ExtendsLess(c, prefix, j, mesh.shape);
        ExtendsLess(c, prefix, i, mesh.shape);
        assert false;
      }
    }
  }

  /** What the positions along one mesh axis get. */
  method MakePieces(t: Tensor, m: nat, p: Placement) returns (ts: seq<Tensor>)
    requires m > 0 && (p.Shard? ==> 0 <= p.dim < |t.shape|)
    ensures ts == Pieces(t, m, p)
  {
    if p.Replicate? {
      ts := seq(m, i => t);
    } else if p.Shard? {
      var splitSize := GetShardSizeForAllRank(t.shape[p.dim], m);
      assert splitSize == ShardSizes(t.shape[p.dim], m);
      ts := Split(t, splitSize, p.dim);
    } else {
      ts := seq(m, i => Zeros(t.shape));
      ts := ts[0 := t];
      assert ts == seq(m, i => FirstOrZeros(t, i));
    }
  }

  lemma AddsNext(a: map<int, Tensor>, b: map<int, Tensor>, c: map<int, Tensor>, mesh: DeviceMesh, prefix: seq<nat>, i: nat)
    requires mesh.Valid() && AddsBelow(a, b, mesh, prefix) && AddsBelow(b, c, mesh, prefix + [i])
    ensures AddsBelow(a, c, mesh, prefix)
  {
    forall id | id in c && id !in a
      ensures exists e :: Extends(e, prefix, mesh.shape) && IdAt(mesh, e) == id
    {
      if id !in b {
        var e :| Extends(e, prefix + [i], mesh.shape) && IdAt(mesh, e) == id;
        ExtendsLess(e, prefix, i, mesh.shape);
      }
    }
  }

  lemma EntriesStay(a: map<int, Tensor>, b: map<int, Tensor>, t: Tensor, mesh: DeviceMesh, pl: seq<Placement>,
                    prefix: seq<nat>, other: seq<nat>)
    requires mesh.Valid() && |pl| == |mesh.shape| && |prefix| <= |pl| && PlainBelow(pl, |t.shape|)
    requires EntriesBelow(a, t, mesh, pl, prefix) && AddsBelow(a, b, mesh, other)
    ensures EntriesBelow(b, t, mesh, pl, prefix)
  {
    forall c | Extends(c, prefix, mesh.shape)
      ensures EntryAt(b, t, mesh, pl, |prefix|, c)
    {
      assert EntryAt(a, t, mesh, pl, |prefix|, c);
    }
  }

  /** Midway through one axis: the first `i` positions are done, the others untouched. */
  ghost predicate Midway(start: map<int, Tensor>, now: map<int, Tensor>, ts: seq<Tensor>, mesh: DeviceMesh,
                         pl: seq<Placement>, prefix: seq<nat>, i: nat)
    requires mesh.Valid() && |pl| == |mesh.shape| && |prefix| < |pl|
    requires forall j :: 0 <= j < |ts| ==> PlainBelow(pl, |ts[j].shape|)
  {
    && AddsBelow(start, now, mesh, prefix)
    && (forall j: nat :: j < i && j < |ts| ==> EntriesBelow(now, ts[j], mesh, pl, prefix + [j]))
    && (forall j: nat :: i <= j < |ts| ==> NoneBelow(now, mesh, prefix + [j]))
  }

  lemma MidwayStart(start: map<int, Tensor>, ts: seq<Tensor>, mesh: DeviceMesh, pl: seq<Placement>, prefix: seq<nat>)
    requires mesh.Valid() && |pl| == |mesh.shape| && |prefix| < |pl| && NoneBelow(start, mesh, prefix)
    requires forall j :: 0 <= j < |ts| ==> PlainBelow(pl, |ts[j].shape|)
    ensures Midway(start, start, ts, mesh, pl, prefix, 0)
  {
    forall j: nat, c | j < |ts| && Extends(c, prefix + [j], mesh.shape)
      ensures IdAt(mesh, c) !in start
    {
      ExtendsLess(c, prefix, j, mesh.shape);
    }
  }

  lemma MidwayNext(start: map<int, Tensor>, now: map<int, Tensor>, next: map<int, Tensor>, ts: seq<Tensor>, mesh: DeviceMesh,
                   pl: seq<Placement>, prefix: seq<nat>, i: nat)
    requires mesh.Valid() && |pl| == |mesh.shape| && |prefix| < |pl| && i < |ts|
    requires forall j :: 0 <= j < |ts| ==> PlainBelow(pl, |ts[j].shape|)
    requires Midway(start, now, ts, mesh, pl, prefix, i)
    requires AddsBelow(now, next, mesh, prefix + [i]) && EntriesBelow(next, ts[i], mesh, pl, prefix + [i])
    ensures Midway(start, next, ts, mesh, pl, prefix, i + 1)
  {
    AddsNext(start, now, next, mesh, prefix, i);
    forall j: nat | j < i
      ensures EntriesBelow(next, ts[j], mesh, pl, prefix + [j])
    {
      EntriesStay(now, next, ts[j], mesh, pl, prefix + [j], prefix + [i]);
    }
    forall j: nat | i < j < |ts|
      ensures NoneBelow(next, mesh, prefix + [j])
    {
      OthersStay(now, next, mesh, prefix, i, j);
    }
  }

  lemma MidwayEnd(start: map<int, Tensor>, now: map<int, Tensor>, t: Tensor, mesh: DeviceMesh, pl: seq<Placement>, prefix: seq<nat>)
    requires mesh.Valid() && |pl| == |mesh.shape| && |prefix| < |pl| && PlainBelow(pl, |t.shape|)
    requires mesh.shape[|prefix|] > 0
    requires Midway(start, now, Pieces(t, mesh.shape[|prefix|], pl[|prefix|]), mesh, pl, prefix, mesh.shape[|prefix|])
    ensures EntriesBelow(now, t, mesh, pl, prefix)
  {
    forall c | Extends(c, prefix, mesh.shape)
      ensures EntryAt(now, t, mesh, pl, |prefix|, c)
    {
      ExtendsNext(c, prefix, mesh.shape);
      PieceEntry(now, t, mesh, pl, prefix, c);
    }
  }

  lemma PieceEntry(now: map<int, Tensor>, t: Tensor, mesh: DeviceMesh, pl: seq<Placement>, prefix: seq<nat>, c: seq<nat>)
    requires mesh.Valid() && |pl| == |mesh.shape| && |prefix| < |pl| && PlainBelow(pl, |t.shape|)
    requires Extends(c, prefix, mesh.shape) && c[|prefix|] < mesh.shape[|prefix|]
    requires Extends(c, prefix + [c[|prefix|]], mesh.shape)
    requires EntriesBelow(now, Pieces(t, mesh.shape[|prefix|], pl[|prefix|])[c[|prefix|]], mesh, pl, prefix + [c[|prefix|]])
    ensures EntryAt(now, t, mesh, pl, |prefix|, c)
  {
    var piece := Pieces(t, mesh.shape[|prefix|], pl[|prefix|])[c[|prefix|]];
    assert EntryAt(now, piece, mesh, pl, |prefix| + 1, c);
    assert ScatterAt(t, mesh.shape, pl, c, |prefix|) == ScatterAt(piece, mesh.shape, pl, c, |prefix| + 1);
  }

  lemma NextPrefix(ms: seq<nat>, prefix: seq<nat>, i: nat)
    requires |prefix| < |ms| && InBounds(prefix, ms[..|prefix|]) && i < ms[|prefix|]
    ensures |prefix + [i]| == |prefix| + 1 && InBounds(prefix + [i], ms[..|prefix| + 1])
  {
    assert ms[..|prefix| + 1] == ms[..|prefix|] + [ms[|prefix|]];
  }

  /** All coordinates are fixed: the entry of one device. */
  lemma LeafEntry(start: map<int, Tensor>, t: Tensor, mesh: DeviceMesh, pl: seq<Placement>, c: seq<nat>)
    requires mesh.Valid() && |pl| == |mesh.shape| == |c| && PlainBelow(pl, |t.shape|)
    requires InBounds(c, mesh.shape[..|c|]) && NoneBelow(start, mesh, c)
    ensures InBounds(c, mesh.shape) && IdAt(mesh, c) !in start
    ensures AddsBelow(start, start[IdAt(mesh, c) := t], mesh, c)
    ensures EntriesBelow(start[IdAt(mesh, c) := t], t, mesh, pl, c)
  {
    assert mesh.shape[..|c|] == mesh.shape;
    assert Extends(c, c, mesh.shape);
    forall e | Extends(e, c, mesh.shape)
      ensures EntryAt(start[IdAt(mesh, c) := t], t, mesh, pl, |c|, e)
    {
      assert e == c;
    }
  }

  /** The entries made on the merged mesh are the blocks of the mesh as given. */
  lemma EntryOnMerged(result: map<int, Tensor>, t: Tensor, mesh: DeviceMesh, pl: seq<Placement>, merged: DeviceMesh,
                      ql: seq<Placement>, c: seq<nat>)
    requires mesh.Valid() && |pl| == |mesh.shape| && PlainBelow(pl, |t.shape|) && InBounds(c, mesh.shape)
    requires (merged, ql) == Merged(mesh, pl) && merged.Valid() && |ql| == |merged.shape| && PlainBelow(ql, |t.shape|)
    requires EntriesBelow(result, t, merged, ql, [])
    ensures IdAt(mesh, c) in result && IsPiece(result[IdAt(mesh, c)], t, mesh.shape, pl, c)
    ensures result[IdAt(mesh, c)].shape == LocalShape(t.shape, mesh.shape, pl, c)
  {
    MergeKeepsDistribution(t.shape, mesh, pl, c);
    ScatterOnMerged(t, mesh, pl, c);
    var c' := MergedCoord(mesh.shape, pl, c);
    assert Extends(c', [], merged.shape);
    assert EntryAt(result, t, merged, ql, 0, c');
    assert IdAt(merged, c') == IdAt(mesh, c);
  }

  class DistributedScather {
    var mDeviceMesh: DeviceMesh
    var mPlacementSeq: seq<Placement>
    var mResult: map<int, Tensor>

    /** Every device of the mesh as given gets the block its placements assign to it, of its local shape. */
    constructor (mesh: DeviceMesh, pl: seq<Placement>, t: Tensor)
      requires mesh.Valid() && |pl| == |mesh.shape| && PlainBelow(pl, |t.shape|)
      ensures (mDeviceMesh, mPlacementSeq) == Merged(mesh, pl)
      ensures forall c :: InBounds(c, mesh.shape) ==>
        && IdAt(mesh, c) in mResult
        && IsPiece(mResult[IdAt(mesh, c)], t, mesh.shape, pl, c)
        && mResult[IdAt(mesh, c)].shape == LocalShape(t.shape, mesh.shape, pl, c)
    {
      mDeviceMesh, mPlacementSeq, mResult := mesh, pl, map[];
      new;
      mDeviceMesh, mPlacementSeq := MergeSameShardDim(mesh, pl);
      MergeKeepsDevices(mesh, pl);
      MergedIsOnce(mesh, pl, |t.shape|);
      ScatherImp(t, []);
      forall c | InBounds(c, mesh.shape)
        ensures IdAt(mesh, c) in mResult
        ensures IsPiece(mResult[IdAt(mesh, c)], t, mesh.shape, pl, c)
        ensures mResult[IdAt(mesh, c)].shape == LocalShape(t.shape, mesh.shape, pl, c)
      {
        EntryOnMerged(mResult, t, mesh, pl, mDeviceMesh, mPlacementSeq, c);
      }
    }

    /** Cuts along one axis and goes on with each piece; `prefix` are the coordinates fixed so far. */
    method ScatherImp(t: Tensor, prefix: seq<nat>)
      requires mDeviceMesh.Valid() && |mPlacementSeq| == |mDeviceMesh.shape| && |prefix| <= |mPlacementSeq|
      requires PlainBelow(mPlacementSeq, |t.shape|) && InBounds(prefix, mDeviceMesh.shape[..|prefix|])
      requires NoneBelow(mResult, mDeviceMesh, prefix)
      modifies this`mResult
      ensures AddsBelow(old(mResult), mResult, mDeviceMesh, prefix)
      ensures EntriesBelow(mResult, t, mDeviceMesh, mPlacementSeq, prefix)
      decreases |mPlacementSeq| - |prefix|
    {
      ghost var start := mResult;
      var index := |prefix|;
      if index == |mPlacementSeq| {
        LeafEntry(start, t, mDeviceMesh, mPlacementSeq, prefix);
        var globalDeviceId := IdAt(mDeviceMesh, prefix);
        mResult := mResult[globalDeviceId := t];
        return;
      }
      var numOfTensor := mDeviceMesh.shape[index];
      var tensors := MakePieces(t, numOfTensor, mPlacementSeq[index]);
      MidwayStart(start, tensors, mDeviceMesh, mPlacementSeq, prefix);
      for i := 0 to numOfTensor
        invariant Midway(start, mResult, tensors, mDeviceMesh, mPlacementSeq, prefix, i)
      {
        ghost var now := mResult;
        NextPrefix(mDeviceMesh.shape, prefix, i);
        ScatherImp(tensors[i], prefix + [i]);
        MidwayNext(start, now, mResult, tensors, mDeviceMesh, mPlacementSeq, prefix, i);
      }
      MidwayEnd(start, mResult, t, mDeviceMesh, mPlacementSeq, prefix);
    }
  }

  // ---------------------------------------------------------------- gathering

  /** The piece of the device at a coordinate. */
  function PieceOf(torchMap: map<int, Tensor>, mesh: DeviceMesh): (r: seq<nat> -> Tensor)
    requires |mesh.data| == Prod(mesh.shape)
  {
    (c: seq<nat>) => if InBounds(c, mesh.shape) && IdAt(mesh, c) in torchMap then torchMap[IdAt(mesh, c)] else Zeros([])
  }

  predicate Complete(torchMap: map<int, Tensor>, mesh: DeviceMesh) {
    forall id :: id in mesh.data ==> id in torchMap
  }

  class DistributeGather {
    const mDeviceMesh: DeviceMesh
    const mPlacementSeq: seq<Placement>
    const mTorchMap: map<int, Tensor>

    constructor (mesh: DeviceMesh, pl: seq<Placement>, torchMap: map<int, Tensor>)
      ensures mDeviceMesh == mesh && mPlacementSeq == pl && mTorchMap == torchMap
    {
      mDeviceMesh, mPlacementSeq, mTorchMap := mesh, pl, torchMap;
    }

    ghost predicate Valid() {
      && mDeviceMesh.Valid() && |mPlacementSeq| == |mDeviceMesh.shape|
      && Complete(mTorchMap, mDeviceMesh)
      && PlainDims(mPlacementSeq)
    }

    method Get() returns (t: Tensor)
      requires Valid()
      ensures t == GatherFrom(PieceOf(mTorchMap, mDeviceMesh), mDeviceMesh.shape, mPlacementSeq, [])
    {
      t := GatherImp([]);
    }

    /** Gathers along one axis what the further axes have gathered; `prefix` are the coordinates fixed so far. */
    method GatherImp(prefix: seq<nat>) returns (t: Tensor)
      requires Valid() && |prefix| <= |mPlacementSeq| && InBounds(prefix, mDeviceMesh.shape[..|prefix|])
      ensures t == GatherFrom(PieceOf(mTorchMap, mDeviceMesh), mDeviceMesh.shape, mPlacementSeq, prefix)
      decreases |mPlacementSeq| - |prefix|, 1
    {
      var index := |prefix|;
      if index == |mPlacementSeq| {
        assert mDeviceMesh.shape[..index] == mDeviceMesh.shape;
        CoordOfIndex(mDeviceMesh.shape, prefix);
        assert IdAt(mDeviceMesh, prefix) in mDeviceMesh.data;
        return mTorchMap[IdAt(mDeviceMesh, prefix)];
      }
      if mPlacementSeq[index].Replicate? {
        NextPrefix(mDeviceMesh.shape, prefix, 0);
        t := GatherImp(prefix + [0]);
        return;
      }
      var gatherTensor := GatherAxis(prefix);
      GatherIsParts(PieceOf(mTorchMap, mDeviceMesh), mDeviceMesh.shape, mPlacementSeq, prefix);
      if mPlacementSeq[index].Shard? {
        t := Concat(gatherTensor, mPlacementSeq[index].dim);
      } else {
        t := SumUp(gatherTensor);
      }
    }

    method GatherAxis(prefix: seq<nat>) returns (gatherTensor: seq<Tensor>)
      requires Valid() && |prefix| < |mPlacementSeq| && InBounds(prefix, mDeviceMesh.shape[..|prefix|])
      ensures gatherTensor == PartsUpTo(PieceOf(mTorchMap, mDeviceMesh), mDeviceMesh.shape, mPlacementSeq, prefix,
                                        mDeviceMesh.shape[|prefix|])
      decreases |mPlacementSeq| - |prefix|, 0
    {
      gatherTensor := [];
      for i := 0 to mDeviceMesh.shape[|prefix|]
        invariant gatherTensor == PartsUpTo(PieceOf(mTorchMap, mDeviceMesh), mDeviceMesh.shape, mPlacementSeq, prefix, i)
      {
        NextPrefix(mDeviceMesh.shape, prefix, i);
        var part := GatherImp(prefix + [i]);
        NextPart(PieceOf(mTorchMap, mDeviceMesh), mDeviceMesh.shape, mPlacementSeq, prefix, i);
        gatherTensor := gatherTensor + [part];
      }
    }
  }

  /** What the first `n` positions along the next axis have gathered. */
  function PartsUpTo(leaf: seq<nat> -> Tensor, ms: seq<nat>, pl: seq<Placement>, prefix: seq<nat>, n: nat): (r: seq<Tensor>)
    requires |prefix| < |ms| == |pl| && Positive(ms)
    requires PlainDims(pl)
  {
    if n == 0 then [] else PartsUpTo(leaf, ms, pl, prefix, n - 1) + [GatherFrom(leaf, ms, pl, prefix + [n - 1])]
  }

  lemma NextPart(leaf: seq<nat> -> Tensor, ms: seq<nat>, pl: seq<Placement>, prefix: seq<nat>, i: nat)
    requires |prefix| < |ms| == |pl| && Positive(ms) && PlainDims(pl)
    ensures PartsUpTo(leaf, ms, pl, prefix, i + 1) == PartsUpTo(leaf, ms, pl, prefix, i) + [GatherFrom(leaf, ms, pl, prefix + [i])]
  {
  }

  lemma {:induction false} PartsAre(leaf: seq<nat> -> Tensor, ms: seq<nat>, pl: seq<Placement>, prefix: seq<nat>, n: nat)
    requires |prefix| < |ms| == |pl| && Positive(ms)
    requires PlainDims(pl)
    ensures PartsUpTo(leaf, ms, pl, prefix, n) == seq(n, i requires 0 <= i < n => GatherFrom(leaf, ms, pl, prefix + [i]))
  {
    if n > 0 {
      PartsAre(leaf, ms, pl, prefix, n - 1);
    }
  }

  lemma GatherIsParts(leaf: seq<nat> -> Tensor, ms: seq<nat>, pl: seq<Placement>, prefix: seq<nat>)
    requires |prefix| < |ms| == |pl| && Positive(ms) && !pl[|prefix|].Replicate?
    requires PlainDims(pl)
    ensures var ts := PartsUpTo(leaf, ms, pl, prefix, ms[|prefix|]);
      && |ts| > 0
      && GatherFrom(leaf, ms, pl, prefix) == if pl[|prefix|].Shard? then Concat(ts, pl[|prefix|].dim) else AddAll(ts)
  {
    PartsAre(leaf, ms, pl, prefix, ms[|prefix|]);
  }

  method SumUp(ts: seq<Tensor>) returns (t: Tensor)
    requires |ts| > 0
    ensures t == AddAll(ts)
  {
    t := ts[0];
    assert ts[..1] == [ts[0]];
    for i := 1 to |ts|
      invariant t == AddAll(ts[..i])
    {
      assert ts[..i + 1][..i] == ts[..i];
      t := Add(t, ts[i]);
    }
    assert ts[..|ts|] == ts;
  }

  /** What a device of a complete map holds. */
  lemma PieceIs(torchMap: map<int, Tensor>, mesh: DeviceMesh, c: seq<nat>)
    requires mesh.Valid() && InBounds(c, mesh.shape) && Complete(torchMap, mesh)
    ensures IdAt(mesh, c) in torchMap && PieceOf(torchMap, mesh)(c) == torchMap[IdAt(mesh, c)]
  {
    CoordOfIndex(mesh.shape, c);
    assert IdAt(mesh, c) in mesh.data;
  }

  lemma CompleteByCoord(torchMap: map<int, Tensor>, mesh: DeviceMesh)
    requires mesh.Valid() && forall c :: InBounds(c, mesh.shape) ==> IdAt(mesh, c) in torchMap
    ensures Complete(torchMap, mesh)
  {
    forall id | id in mesh.data
      ensures id in torchMap
    {
      var p :| 0 <= p < |mesh.data| && mesh.data[p] == id;
      IndexOfCoord(mesh.shape, p);
      assert IdAt(mesh, Coord(mesh.shape, p)) == id;
    }
  }

  /** If every device holds the block its placements assign to it, gathering restores the tensor. */
  lemma GatherOfPieces(whole: Tensor, mesh: DeviceMesh, pl: seq<Placement>, torchMap: map<int, Tensor>)
    requires mesh.Valid() && |pl| == |mesh.shape| && PlainBelow(pl, |whole.shape|)
    requires forall c :: InBounds(c, mesh.shape) ==>
      IdAt(mesh, c) in torchMap && IsPiece(torchMap[IdAt(mesh, c)], whole, mesh.shape, pl, c)
    ensures Complete(torchMap, mesh)
    ensures Same(GatherFrom(PieceOf(torchMap, mesh), mesh.shape, pl, []), whole)
  {
    CompleteByCoord(torchMap, mesh);
    var leaf := PieceOf(torchMap, mesh);
    forall c | InBounds(c, mesh.shape)
      ensures IsPiece(leaf(c), whole, mesh.shape, pl, c)
    {
      PieceIs(torchMap, mesh, c);
    }
    GatherRestores(leaf, whole, mesh.shape, pl);
  }

  /** Partial sums: if every device holds its block of the partial tensor that its positions on the summed axes
    * number, and these tensors add up to `whole`, gathering gives `whole`. */
  method GatherPartials(mesh: DeviceMesh, pl: seq<Placement>, torchMap: map<int, Tensor>, ghost part: seq<nat> -> Tensor,
                        ghost whole: Tensor) returns (r: Tensor)
    requires mesh.Valid() && |pl| == |mesh.shape| && PlainBelow(pl, |whole.shape|) && Complete(torchMap, mesh)
    requires HoldsParts(PieceOf(torchMap, mesh), part, whole.shape, mesh.shape, pl)
    requires forall x | InBounds(x, whole.shape) :: SumParts(part, SummedOf(pl, mesh.shape), [], x) == whole.at(x)
    ensures Same(r, whole)
  {
    var gather := new DistributeGather(mesh, pl, torchMap);
    r := gather.Get();
    GatherAddsUp(PieceOf(torchMap, mesh), part, whole, mesh.shape, pl);
  }

  /** Scattering a tensor over any mesh with any plain placements, cut evenly or not, and gathering the
    * pieces gives the tensor back. */
  method ScatterThenGather(t: Tensor, mesh: DeviceMesh, pl: seq<Placement>) returns (r: Tensor)
    requires mesh.Valid() && |pl| == |mesh.shape| && PlainBelow(pl, |t.shape|)
    ensures Same(r, t)
  {
    var scather := new DistributedScather(mesh, pl, t);
    GatherOfPieces(t, mesh, pl, scather.mResult);
    var gather := new DistributeGather(mesh, pl, scather.mResult);
    r := gather.Get();
  }
}

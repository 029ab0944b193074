/** The metadata of an operand and its cache of local shapes. */
module OperandCache {
  import opened MeshArithmetic
  import opened DistributedSpec

  /** The metadata fits together: what the local-shape computation demands. */
  ghost predicate Consistent(shape: seq<nat>, mesh: DeviceMesh, pl: seq<Placement>) {
    mesh.Valid() && |pl| == |mesh.shape| && DimsExist(shape, pl)
  }

  /** What the device at position `p` of the mesh holds. */
  ghost function ShapeAt(shape: seq<nat>, mesh: DeviceMesh, pl: seq<Placement>, p: nat): (r: seq<nat>)
    requires Consistent(shape, mesh, pl) && p < |mesh.data|
  {
    LocalShape(shape, mesh.shape, pl, Coord(mesh.shape, p))
  }

  /** A filled cache: one entry that holds for every device, or at least two entries, one per device. */
  ghost predicate IsFilled(cache: map<int, seq<nat>>, shape: seq<nat>, mesh: DeviceMesh, pl: seq<Placement>)
    requires Consistent(shape, mesh, pl)
  {
    if |mesh.data| > 1 && !EvenSplit(shape, mesh.shape, pl) then
      && |cache| > 1
      && cache.Keys == mesh.DeviceIdSet()
      && forall p: nat :: p < |mesh.data| ==> cache[mesh.data[p]] == ShapeAt(shape, mesh, pl, p)
    else
      && cache.Keys == {0}
      && forall p: nat :: p < |mesh.data| ==> cache[0] == ShapeAt(shape, mesh, pl, p)
  }

  lemma {:induction false} ProdOneIsOnes(s: seq<nat>)
    requires Positive(s) && Prod(s) == 1
    ensures forall i :: 0 <= i < |s| ==> s[i] == 1
  {
    if |s| > 0 {
      var n := |s| - 1;
      ProdPositive(s[..n]);
      FactorsOfOne(Prod(s[..n]), s[n]);
      ProdOneIsOnes(s[..n]);
    }
  }

  lemma FactorsOfOne(a: nat, b: nat)
    requires a * b == 1
    ensures a == 1 && b == 1
  {
    assert a != 0 && b != 0;
    assert a >= 2 ==> a * b >= 2 * b;
  }

  lemma {:induction false} OneShardOnOnes(ms: seq<nat>, pl: seq<Placement>, d: int)
    requires |ms| == |pl| && forall i :: 0 <= i < |ms| ==> ms[i] == 1
    ensures NumShards(ms, pl, d) == 1
  {
    if |ms| > 0 {
      OneShardOnOnes(ms[..|ms| - 1], pl[..|ms| - 1], d);
    }
  }

  /** On a mesh of one device nothing is cut, whatever the placements say. */
  lemma SingleDevice(shape: seq<nat>, mesh: DeviceMesh, pl: seq<Placement>)
    requires Consistent(shape, mesh, pl) && |mesh.data| == 1
    ensures ShapeAt(shape, mesh, pl, 0) == shape
  {
    ProdOneIsOnes(mesh.shape);
    var c := Coord(mesh.shape, 0);
    IndexOfCoord(mesh.shape, 0);
    forall k | 0 <= k < |shape|
      ensures LocalShape(shape, mesh.shape, pl, c)[k] == shape[k]
    {
      OneShardOnOnes(mesh.shape, pl, k);
      ChunkBound(mesh.shape, pl, k, c);
    }
  }

  class Operand {
    var mShape: seq<nat>
    var mStride: seq<nat>
    var mDeviceMesh: DeviceMesh
    var mPlacementSeq: seq<Placement>
    var mAllLocalShape: map<int, seq<nat>>

    /** An empty cache, or one filled for the metadata there is now. */
    ghost predicate Valid()
      reads this
    {
      mAllLocalShape != map[] ==>
        && Consistent(mShape, mDeviceMesh, mPlacementSeq)
        && IsFilled(mAllLocalShape, mShape, mDeviceMesh, mPlacementSeq)
    }

    constructor (shape: seq<nat>, mesh: DeviceMesh, pl: seq<Placement>)
      ensures Valid() && mAllLocalShape == map[]
      ensures mShape == shape && mStride == RowMajorStrides(shape) && mDeviceMesh == mesh && mPlacementSeq == pl
    {
      mShape, mStride, mDeviceMesh, mPlacementSeq := shape, RowMajorStrides(shape), mesh, pl;
      mAllLocalShape := map[];
    }

    /** An empty stride stands for the row-major one. */
    method SetShapeAndStride(shape: seq<nat>, stride: seq<nat>)
      modifies this
      ensures Valid() && mAllLocalShape == map[] && mShape == shape
      ensures mStride == if stride == [] then RowMajorStrides(shape) else stride
      ensures mDeviceMesh == old(mDeviceMesh) && mPlacementSeq == old(mPlacementSeq)
    {
      mShape := shape;
      mStride := if |stride| == 0 then RowMajorStrides(shape) else stride;
      mAllLocalShape := map[];
    }

    method MetaDataSameAs(other: Operand)
      modifies this
      ensures Valid() && mAllLocalShape == map[]
      ensures mShape == old(other.mShape) && mStride == old(other.mStride)
      ensures mDeviceMesh == old(other.mDeviceMesh) && mPlacementSeq == old(other.mPlacementSeq)
    {
      mShape, mStride, mDeviceMesh, mPlacementSeq := other.mShape, other.mStride, other.mDeviceMesh, other.mPlacementSeq;
      mAllLocalShape := map[];
    }

    method SetDeviceMeshAndPlacementSeq(mesh: DeviceMesh, pl: seq<Placement>)
      modifies this
      ensures Valid() && mAllLocalShape == map[] && mDeviceMesh == mesh && mPlacementSeq == pl
      ensures mShape == old(mShape) && mStride == old(mStride)
    {
      mDeviceMesh, mPlacementSeq := mesh, pl;
      mAllLocalShape := map[];
    }

    /** Fills the cache if it is empty. */
    method ComputeLocalShapes()
      requires Valid() && Consistent(mShape, mDeviceMesh, mPlacementSeq)
      modifies this`mAllLocalShape
      ensures Valid() && mAllLocalShape != map[]
      ensures old(mAllLocalShape) != map[] ==> mAllLocalShape == old(mAllLocalShape)
    {
      if |mAllLocalShape| == 0 {
        if |mDeviceMesh.data| > 1 {
          mAllLocalShape := DistributedSpec.ComputeLocalShape(mShape, mDeviceMesh, mPlacementSeq);
          FilledByComputation(mAllLocalShape, mShape, mDeviceMesh, mPlacementSeq);
        } else {
          mAllLocalShape := map[0 := mShape];
          ProdPositive(mDeviceMesh.shape);
          SingleDevice(mShape, mDeviceMesh, mPlacementSeq);
        }
      }
    }

    /** The local shape of a device of the mesh is what a fresh computation for its position gives, whatever
      * was set or queried before. Off the mesh the source only answers when one entry serves all. */
    method GetLocalShape(globalDeviceId: int) returns (r: seq<nat>)
      requires Valid() && Consistent(mShape, mDeviceMesh, mPlacementSeq)
      requires |mDeviceMesh.data| > 1 && !EvenSplit(mShape, mDeviceMesh.shape, mPlacementSeq) ==>
        globalDeviceId in mDeviceMesh.DeviceIdSet()
      modifies this`mAllLocalShape
      ensures Valid()
      ensures forall p: nat :: p < |mDeviceMesh.data| && mDeviceMesh.data[p] == globalDeviceId ==>
        r == ShapeAt(mShape, mDeviceMesh, mPlacementSeq, p)
      ensures globalDeviceId !in mDeviceMesh.DeviceIdSet() ==>
        forall p: nat :: p < |mDeviceMesh.data| ==> r == ShapeAt(mShape, mDeviceMesh, mPlacementSeq, p)
    {
      ComputeLocalShapes();
      if |mAllLocalShape| == 1 {
        var key :| key in mAllLocalShape;
        assert mAllLocalShape.Keys == {key};
        r := mAllLocalShape[key];
      } else {
        r := mAllLocalShape[globalDeviceId];
      }
    }

    /** True exactly when one shape serves all devices. */
    method IsLocalShapeEvenSplit() returns (even: bool)
      requires Valid() && Consistent(mShape, mDeviceMesh, mPlacementSeq)
      modifies this`mAllLocalShape
      ensures Valid()
      ensures even <==> |mDeviceMesh.data| <= 1 || EvenSplit(mShape, mDeviceMesh.shape, mPlacementSeq)
    {
      ComputeLocalShapes();
      even := |mAllLocalShape| == 1;
    }
  }

  lemma FilledByComputation(cache: map<int, seq<nat>>, shape: seq<nat>, mesh: DeviceMesh, pl: seq<Placement>)
    requires Consistent(shape, mesh, pl) && |mesh.data| > 1
    requires EvenSplit(shape, mesh.shape, pl) ==>
      forall p: nat :: p < |mesh.data| ==> cache == map[0 := ShapeAt(shape, mesh, pl, p)]
    requires !EvenSplit(shape, mesh.shape, pl) ==>
      && cache.Keys == mesh.DeviceIdSet()
      && forall p: nat :: p < |mesh.data| ==> cache[mesh.data[p]] == ShapeAt(shape, mesh, pl, p)
    ensures IsFilled(cache, shape, mesh, pl) && cache != map[]
  {
    if EvenSplit(shape, mesh.shape, pl) {
      assert cache == map[0 := ShapeAt(shape, mesh, pl, 0)];
    } else {
      DistinctCount(mesh.data);
      assert |cache| == |cache.Keys| == |mesh.data|;
    }
  }
}

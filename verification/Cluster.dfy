/** The nodes of a cluster, the devices each of them runs, and the kernels of one operator over all nodes. */
module Cluster {
  import opened DistributedSpec
  import opened Operators

  datatype NodeInfo = NodeInfo(isMain: bool, rank: int, gpuCount: nat)

  datatype DevicePair = DevicePair(globalDevice: Device, localDevice: Device)

  /** What one node is given to run. */
  datatype NodeDevices = NodeDevices(pairs: seq<DevicePair>, supportCpu: bool) {
    /** The node runs kernels of this stream key. */
    predicate Supports(key: Device) {
      (exists i :: 0 <= i < |pairs| && pairs[i].globalDevice == key) || (supportCpu && key.kind == Cpu)
    }

    /** No global device is listed twice, and none is a CPU. */
    predicate Valid() {
      && (forall i :: 0 <= i < |pairs| ==> pairs[i].globalDevice.kind == Gpu && pairs[i].localDevice.kind == Gpu)
      && forall i, j :: 0 <= i < j < |pairs| ==> pairs[i].globalDevice != pairs[j].globalDevice
    }
  }

  function TotalGpus(nodes: seq<NodeInfo>): (r: nat) {
    if nodes == [] then 0 else TotalGpus(nodes[..|nodes| - 1]) + nodes[|nodes| - 1].gpuCount
  }

  function PairFor(first: nat, sameDevice: bool, gpuIdx: nat): (r: DevicePair) {
    DevicePair(Device(Gpu, first + gpuIdx), Device(Gpu, if sameDevice then 0 else gpuIdx))
  }

  /** The devices of node `i`: its GPUs get the global ids that follow those of the nodes before it. */
  function DevicesOf(nodes: seq<NodeInfo>, sameDevice: bool, i: nat): (r: NodeDevices)
    requires i < |nodes|
  {
    var first := TotalGpus(nodes[..i]);
    NodeDevices(seq<DevicePair>(nodes[i].gpuCount, g requires 0 <= g => PairFor(first, sameDevice, g)), i == 0)
  }

  lemma {:induction false} TotalMonotone(nodes: seq<NodeInfo>, i: nat, j: nat)
    requires i <= j <= |nodes|
    ensures TotalGpus(nodes[..i]) <= TotalGpus(nodes[..j])
    decreases j - i
  {
    if i < j {
      TotalMonotone(nodes, i, j - 1);
      TotalSnoc(nodes, j - 1);
    }
  }

  lemma TotalSnoc(nodes: seq<NodeInfo>, i: nat)
    requires i < |nodes|
    ensures TotalGpus(nodes[..i + 1]) == TotalGpus(nodes[..i]) + nodes[i].gpuCount
  {
    assert nodes[..i + 1][..i] == nodes[..i];
  }

  /** A node supports exactly its own range of global GPU ids, and CPUs if it is the first. */
  lemma SupportsRange(nodes: seq<NodeInfo>, sameDevice: bool, i: nat, key: Device)
    requires i < |nodes|
    ensures DevicesOf(nodes, sameDevice, i).Supports(key) <==>
      if key.kind == Cpu then i == 0 else TotalGpus(nodes[..i]) <= key.id < TotalGpus(nodes[..i + 1])
  {
    var node := DevicesOf(nodes, sameDevice, i);
    var first := TotalGpus(nodes[..i]);
    TotalSnoc(nodes, i);
    if key.kind == Gpu && first <= key.id < first + nodes[i].gpuCount {
      assert node.pairs[key.id - first].globalDevice == key;
    }
  }

  /** A supported GPU's own number on its node: its global number less the GPUs of the nodes before, or always 0 if
    * all tensors share one device. So the local numbers of a node are 0 up to its GPU count, once each. */
  lemma LocalNumbers(nodes: seq<NodeInfo>, sameDevice: bool, i: nat, device: Device, local: Device)
    requires i < |nodes|
    ensures DevicePair(device, local) in DevicesOf(nodes, sameDevice, i).pairs <==>
      && device.kind == Gpu && TotalGpus(nodes[..i]) <= device.id < TotalGpus(nodes[..i]) + nodes[i].gpuCount
      && local == Device(Gpu, if sameDevice then 0 else device.id - TotalGpus(nodes[..i]))
  {
    var node, first := DevicesOf(nodes, sameDevice, i), TotalGpus(nodes[..i]);
    if device.kind == Gpu && first <= device.id < first + nodes[i].gpuCount {
      assert node.pairs[device.id - first].globalDevice == device;
    }
  }

  /** The node that a stream key belongs to, given that some node supports it. */
  function OwnerOf(nodes: seq<NodeInfo>, key: Device): (i: nat)
    requires nodes != [] && (key.kind == Gpu ==> 0 <= key.id < TotalGpus(nodes))
    ensures i < |nodes|
  {
    if key.kind == Cpu || |nodes| == 1 then 0
    else if key.id >= TotalGpus(nodes[..|nodes| - 1]) then |nodes| - 1
    else OwnerOf(nodes[..|nodes| - 1], key)
  }

  lemma {:induction false} OwnerRange(nodes: seq<NodeInfo>, key: Device)
    requires nodes != [] && key.kind == Gpu && 0 <= key.id < TotalGpus(nodes)
    ensures TotalGpus(nodes[..OwnerOf(nodes, key)]) <= key.id < TotalGpus(nodes[..OwnerOf(nodes, key) + 1])
  {
    var n := |nodes| - 1;
    assert nodes[..n + 1] == nodes;
    if n == 0 {
      assert nodes[..0] == [];
    } else if key.id < TotalGpus(nodes[..n]) {
      OwnerRange(nodes[..n], key);
      var i := OwnerOf(nodes[..n], key);
      assert nodes[..n][..i] == nodes[..i] && nodes[..n][..i + 1] == nodes[..i + 1];
    }
  }

  /** The global GPU ids of all nodes together are 0 up to the total, each on exactly one node; CPUs belong
    * to the first node. */
  lemma ExactlyOneNode(nodes: seq<NodeInfo>, sameDevice: bool, key: Device)
    requires nodes != [] && (key.kind == Gpu ==> 0 <= key.id < TotalGpus(nodes))
    ensures forall i :: 0 <= i < |nodes| ==> (DevicesOf(nodes, sameDevice, i).Supports(key) <==> i == OwnerOf(nodes, key))
  {
    forall i: nat | i < |nodes|
      ensures DevicesOf(nodes, sameDevice, i).Supports(key) <==> i == OwnerOf(nodes, key)
    {
      SupportsRange(nodes, sameDevice, i, key);
      if key.kind == Gpu {
        InOwnRangeOnly(nodes, key, i);
      }
    }
  }

  lemma InOwnRangeOnly(nodes: seq<NodeInfo>, key: Device, i: nat)
    requires nodes != [] && key.kind == Gpu && 0 <= key.id < TotalGpus(nodes) && i < |nodes|
    ensures TotalGpus(nodes[..i]) <= key.id < TotalGpus(nodes[..i + 1]) <==> i == OwnerOf(nodes, key)
  {
    OwnerRange(nodes, key);
    var o := OwnerOf(nodes, key);
    if i < o {
      TotalMonotone(nodes, i + 1, o);
    } else if o < i {
      TotalMonotone(nodes, o + 1, i);
    }
  }

  lemma NoNode(nodes: seq<NodeInfo>, sameDevice: bool, key: Device)
    requires key.kind == Gpu && !(0 <= key.id < TotalGpus(nodes))
    ensures forall i :: 0 <= i < |nodes| ==> !DevicesOf(nodes, sameDevice, i).Supports(key)
  {
    forall i | 0 <= i < |nodes|
      ensures !DevicesOf(nodes, sameDevice, i).Supports(key)
    {
      SupportsRange(nodes, sameDevice, i, key);
      TotalMonotone(nodes, i + 1, |nodes|);
      assert nodes[..|nodes|] == nodes;
    }
  }

  /** The stream keys a node creates kernels for. */
  function SupportedKeys(node: NodeDevices, keys: set<Device>): (r: set<Device>) {
    set k | k in keys && node.Supports(k)
  }

  /** Kernels created on the first `n` nodes. */
  function KernelsOnNodes(nodes: seq<NodeInfo>, sameDevice: bool, keys: set<Device>, n: nat): (r: nat)
    requires n <= |nodes|
  {
    if n == 0 then 0
    else KernelsOnNodes(nodes, sameDevice, keys, n - 1) + |SupportedKeys(DevicesOf(nodes, sameDevice, n - 1), keys)|
  }

  /** The running maximum of the GPU ids among the keys, -1 if there are none. */
  ghost predicate IsMaxGpuId(keys: set<Device>, m: int) {
    && -1 <= m
    && (forall k :: k in keys && k.kind == Gpu ==> k.id <= m)
    && (m != -1 ==> exists k :: k in keys && k.kind == Gpu && k.id == m)
  }

  /** Some node supports each key, and no other does. */
  ghost predicate OneNodeEach(nodes: seq<NodeInfo>, sameDevice: bool, keys: set<Device>) {
    forall k :: k in keys ==> OnOneNode(nodes, sameDevice, k)
  }

  ghost predicate OnOneNode(nodes: seq<NodeInfo>, sameDevice: bool, key: Device) {
    exists i: nat :: i < |nodes| && OnlyOn(nodes, sameDevice, key, i)
  }

  ghost predicate OnlyOn(nodes: seq<NodeInfo>, sameDevice: bool, key: Device, i: nat) {
    forall j :: 0 <= j < |nodes| ==> (DevicesOf(nodes, sameDevice, j).Supports(key) <==> j == i)
  }

  /** What the support check looks at: no GPU id reaches the cluster's total. */
  predicate PassesCheck(nodes: seq<NodeInfo>, keys: set<Device>) {
    forall k :: k in keys && k.kind == Gpu ==> k.id < TotalGpus(nodes)
  }

  predicate InRange(nodes: seq<NodeInfo>, keys: set<Device>) {
    forall k :: k in keys && k.kind == Gpu ==> 0 <= k.id < TotalGpus(nodes)
  }

  /** The keys that belong to the first `n` nodes. */
  function OwnedBelow(nodes: seq<NodeInfo>, keys: set<Device>, n: nat): (r: set<Device>)
    requires nodes != [] && InRange(nodes, keys)
  {
    set k | k in keys && OwnerOf(nodes, k) < n
  }

  lemma NextNode(nodes: seq<NodeInfo>, sameDevice: bool, keys: set<Device>, i: nat)
    requires i < |nodes| && InRange(nodes, keys)
    ensures OwnedBelow(nodes, keys, i + 1) == OwnedBelow(nodes, keys, i) + SupportedKeys(DevicesOf(nodes, sameDevice, i), keys)
    ensures OwnedBelow(nodes, keys, i) !! SupportedKeys(DevicesOf(nodes, sameDevice, i), keys)
  {
    var node := DevicesOf(nodes, sameDevice, i);
    forall k | k in keys
      ensures node.Supports(k) <==> OwnerOf(nodes, k) == i
    {
      ExactlyOneNode(nodes, sameDevice, k);
    }
  }

  lemma {:induction false} KernelsSoFar(nodes: seq<NodeInfo>, sameDevice: bool, keys: set<Device>, n: nat)
    requires nodes != [] && n <= |nodes| && InRange(nodes, keys)
    ensures KernelsOnNodes(nodes, sameDevice, keys, n) == |OwnedBelow(nodes, keys, n)|
  {
    if n == 0 {
      assert OwnedBelow(nodes, keys, 0) == {};
    } else {
      KernelsSoFar(nodes, sameDevice, keys, n - 1);
      NextNode(nodes, sameDevice, keys, n - 1);
    }
  }

  /** An operator that passes the support check (its largest GPU id is below the cluster's total) has each
    * of its stream keys on exactly one node if and only if none of its GPU ids is negative; then the
    * kernels created over all nodes number its stream keys. */
  lemma KernelPlacementIsPartition(nodes: seq<NodeInfo>, sameDevice: bool, keys: set<Device>, maxGpuId: int)
    requires nodes != [] && IsMaxGpuId(keys, maxGpuId) && maxGpuId < TotalGpus(nodes)
    ensures PassesCheck(nodes, keys)
    ensures OneNodeEach(nodes, sameDevice, keys) <==> forall k :: k in keys && k.kind == Gpu ==> 0 <= k.id
    ensures OneNodeEach(nodes, sameDevice, keys) ==> KernelsOnNodes(nodes, sameDevice, keys, |nodes|) == |keys|
  {
    if forall k :: k in keys && k.kind == Gpu ==> 0 <= k.id {
      forall k | k in keys
        ensures OnOneNode(nodes, sameDevice, k)
      {
        ExactlyOneNode(nodes, sameDevice, k);
        assert OnlyOn(nodes, sameDevice, k, OwnerOf(nodes, k));
      }
      KernelsSoFar(nodes, sameDevice, keys, |nodes|);
      assert OwnedBelow(nodes, keys, |nodes|) == keys;
    } else {
      var k :| k in keys && k.kind == Gpu && k.id < 0;
      NoNode(nodes, sameDevice, k);
      forall i: nat | i < |nodes|
        ensures !OnlyOn(nodes, sameDevice, k, i)
      {
        assert !DevicesOf(nodes, sameDevice, i).Supports(k);
      }
    }
  }

  /** A set of keys can be placed, each on exactly one node, if and only if it passes the check and has no negative
    * GPU id. */
  lemma PlaceableExactly(nodes: seq<NodeInfo>, sameDevice: bool, keys: set<Device>)
    requires nodes != []
    ensures OneNodeEach(nodes, sameDevice, keys) <==>
      PassesCheck(nodes, keys) && forall k :: k in keys && k.kind == Gpu ==> 0 <= k.id
  {
    forall k | k in keys
      ensures OnOneNode(nodes, sameDevice, k) <==> (k.kind == Gpu ==> 0 <= k.id < TotalGpus(nodes))
    {
      if k.kind == Gpu && !(0 <= k.id < TotalGpus(nodes)) {
        NoNode(nodes, sameDevice, k);
        forall i: nat | i < |nodes|
          ensures !OnlyOn(nodes, sameDevice, k, i)
        {
          assert !DevicesOf(nodes, sameDevice, i).Supports(k);
        }
      } else {
        ExactlyOneNode(nodes, sameDevice, k);
        assert OnlyOn(nodes, sameDevice, k, OwnerOf(nodes, k));
      }
    }
    if OneNodeEach(nodes, sameDevice, keys) {
      forall k | k in keys && k.kind == Gpu
        ensures 0 <= k.id < TotalGpus(nodes)
      {
        assert OnOneNode(nodes, sameDevice, k);
      }
    }
  }

  /** The device ids of a mesh pass mesh validation against the cluster's total if and only if its devices pass the
    * support check: validation refuses exactly the meshes of which some operator could not be run. */
  lemma ValidMeshPasses(nodes: seq<NodeInfo>, mesh: DeviceMesh)
    ensures DeviceIdsValid(mesh, TotalGpus(nodes)) <==> PassesCheck(nodes, set id | id in mesh.data :: Device(mesh.kind, id))
  {
    var keys := set id | id in mesh.data :: Device(mesh.kind, id);
    forall id | id in mesh.data
      ensures Device(mesh.kind, id) in keys
    {
    }
  }

  /** One node with one GPU, and an operator on GPU -1: the running maximum stays where it starts, at -1, so the
    * operator passes the check, but no node creates a kernel for its key. */
  lemma NegativeIdPasses(nodes: seq<NodeInfo>, sameDevice: bool, keys: set<Device>)
    requires nodes == [NodeInfo(true, 0, 1)] && keys == {Device(Gpu, -1)}
    ensures IsMaxGpuId(keys, -1) && PassesCheck(nodes, keys)
    ensures !OneNodeEach(nodes, sameDevice, keys)
    ensures KernelsOnNodes(nodes, sameDevice, keys, |nodes|) == 0 != |keys|
  {
    var key := Device(Gpu, -1);
    assert nodes[..0] == [];
    assert TotalGpus(nodes) == 1;
    KernelPlacementIsPartition(nodes, sameDevice, keys, -1);
    NoNode(nodes, sameDevice, key);
    assert SupportedKeys(DevicesOf(nodes, sameDevice, 0), keys) == {};
  }

  /** An operator that fails the support check has a key that no node supports. */
  lemma RejectedIsUnplaceable(nodes: seq<NodeInfo>, sameDevice: bool, keys: set<Device>, maxGpuId: int)
    requires IsMaxGpuId(keys, maxGpuId) && maxGpuId >= TotalGpus(nodes)
    ensures exists k :: k in keys && forall i :: 0 <= i < |nodes| ==> !DevicesOf(nodes, sameDevice, i).Supports(k)
  {
    var k :| k in keys && k.kind == Gpu && k.id == maxGpuId;
    NoNode(nodes, sameDevice, k);
  }

  // ---------------------------------------------------------------- the classes

  class RunnerSupportedDevices {
    const mSupportCpu: bool
    const mDevices: seq<DevicePair>
    var mGlobalToLocalMap: map<Device, nat>

    ghost predicate Valid()
      reads this
    {
      && NodeDevices(mDevices, mSupportCpu).Valid()
      && (forall i :: 0 <= i < |mDevices| ==> mDevices[i].globalDevice in mGlobalToLocalMap)
      && forall d :: d in mGlobalToLocalMap ==>
           mGlobalToLocalMap[d] < |mDevices| && mDevices[mGlobalToLocalMap[d]].globalDevice == d
    }

    constructor (node: NodeDevices)
      requires node.Valid()
      ensures Valid() && NodeDevices(mDevices, mSupportCpu) == node
    {
      mSupportCpu := node.supportCpu;
      mDevices := node.pairs;
      mGlobalToLocalMap := map[];
      new;
      for i := 0 to |mDevices|
        invariant forall j :: 0 <= j < i ==> mDevices[j].globalDevice in mGlobalToLocalMap
        invariant forall d :: d in mGlobalToLocalMap ==>
          mGlobalToLocalMap[d] < i && mDevices[mGlobalToLocalMap[d]].globalDevice == d
      {
        mGlobalToLocalMap := mGlobalToLocalMap[mDevices[i].globalDevice := i];
      }
    }

    /** The stream keys of the set that this node runs. */
    method GetSupported(keys: set<Device>) returns (result: set<Device>)
      requires Valid()
      ensures result == SupportedKeys(NodeDevices(mDevices, mSupportCpu), keys)
    {
      result := {};
      var todo := keys;
      ghost var seen: set<Device> := {};
      while todo != {}
        invariant todo + seen == keys
        invariant result == SupportedKeys(NodeDevices(mDevices, mSupportCpu), seen)
        decreases |todo|
      {
        var key := AnyOf(todo);
        if key in mGlobalToLocalMap || (mSupportCpu && key.kind == Cpu) {
          result := result + {key};
        }
        todo, seen := todo - {key}, seen + {key};
      }
      assert seen == keys;
    }

    /** The local device of a supported one. */
    method GlobalToLocal(device: Device) returns (r: Device)
      requires Valid() && NodeDevices(mDevices, mSupportCpu).Supports(device)
      ensures device.kind == Cpu ==> r == Device(Cpu, 0)
      ensures device.kind == Gpu ==> DevicePair(device, r) in mDevices
      ensures device.kind == Gpu ==> exists i :: 0 <= i < |mDevices| && mDevices[i] == DevicePair(device, r)
    {
      if device.kind == Cpu {
        return Device(Cpu, 0);
      }
      r := mDevices[mGlobalToLocalMap[device]].localDevice;
      assert mDevices[mGlobalToLocalMap[device]] == DevicePair(device, r);
    }
  }

  /** The devices an operand lives on. */
  function DevicesOn(x: Operand): (r: set<Device>) {
    set id | id in x.ids :: Device(x.kind, id)
  }

  function DevicesOnAll(xs: seq<Operand>): (r: set<Device>) {
    if xs == [] then {} else DevicesOnAll(xs[..|xs| - 1]) + DevicesOn(xs[|xs| - 1])
  }

  /** All outputs live on the same devices: an assertion of the source. */
  predicate SameMesh(outputs: seq<Operand>) {
    forall i, j :: 0 <= i < j < |outputs| ==> outputs[i].kind == outputs[j].kind && outputs[i].ids == outputs[j].ids
  }

  /** The stream keys of an ordinary operator: every device of an input or of the outputs. */
  function KeysOf(inputs: seq<Operand>, outputs: seq<Operand>): (r: set<Device>) {
    DevicesOnAll(inputs) + if outputs == [] then {} else DevicesOn(outputs[0])
  }

  /** A device is a key exactly if some input, or the first output, lives on it. */
  lemma KeysExactly(inputs: seq<Operand>, outputs: seq<Operand>, key: Device)
    ensures key in KeysOf(inputs, outputs) <==>
      || (exists x :: x in inputs && x.kind == key.kind && key.id in x.ids)
      || (outputs != [] && outputs[0].kind == key.kind && key.id in outputs[0].ids)
  {
    OnSome(inputs, key);
    assert outputs != [] && key in DevicesOn(outputs[0]) ==> key.id in outputs[0].ids && key.kind == outputs[0].kind;
    if outputs != [] && outputs[0].kind == key.kind && key.id in outputs[0].ids {
      assert key == Device(outputs[0].kind, key.id);
    }
  }

  lemma {:induction false} OnSome(xs: seq<Operand>, key: Device)
    ensures key in DevicesOnAll(xs) <==> exists x :: x in xs && x.kind == key.kind && key.id in x.ids
  {
    if xs != [] {
      var front, last := xs[..|xs| - 1], xs[|xs| - 1];
      OnSome(front, key);
      assert xs == front + [last];
      if last.kind == key.kind && key.id in last.ids {
        assert key == Device(last.kind, key.id);
        assert last in xs;
      }
    }
  }

  /** So the keys cover every device of every output, whatever the number of outputs. */
  lemma KeysCoverOutputs(inputs: seq<Operand>, outputs: seq<Operand>, x: Operand, id: int)
    requires SameMesh(outputs) && x in outputs && id in x.ids
    ensures Device(x.kind, id) in KeysOf(inputs, outputs)
  {
    var i :| 0 <= i < |outputs| && outputs[i] == x;
    assert Device(x.kind, id) in DevicesOn(outputs[0]);
  }

  class OperatorAssignInfo {
    var mMaxGpuId: int
    var mStreamKeySet: set<Device>

    ghost predicate Valid()
      reads this
    {
      IsMaxGpuId(mStreamKeySet, mMaxGpuId)
    }

    constructor ()
      ensures Valid() && mStreamKeySet == {}
    {
      mMaxGpuId := -1;
      mStreamKeySet := {};
    }

    method Insert(key: Device)
      requires Valid()
      modifies this
      ensures Valid() && mStreamKeySet == old(mStreamKeySet) + {key}
    {
      ghost var keys, m := mStreamKeySet, mMaxGpuId;
      mStreamKeySet := mStreamKeySet + {key};
      if key.kind == Gpu && key.id > mMaxGpuId {
        mMaxGpuId := key.id;
      }
      assert mMaxGpuId == m && m != -1 ==> exists k :: k in keys && k.kind == Gpu && k.id == m;
    }

    /** Inserts every device of one operand. */
    method InsertDevices(x: Operand)
      requires Valid()
      modifies this
      ensures Valid() && mStreamKeySet == old(mStreamKeySet) + DevicesOn(x)
    {
      var todo: set<int> := x.ids;
      ghost var seen: set<int> := {};
      ghost var keys := mStreamKeySet;
      while todo != {}
        invariant todo + seen == x.ids && Valid()
        invariant mStreamKeySet == keys + DevicesOn(x.(ids := seen))
        decreases |todo|
      {
        var id := AnyOf(todo);
        Insert(Device(x.kind, id));
        todo, seen := todo - {id}, seen + {id};
      }
      assert x.(ids := seen) == x;
    }

    method InferOperatorAssignInfo(inputs: seq<Operand>, outputs: seq<Operand>)
      requires Valid() && mStreamKeySet == {} && SameMesh(outputs)
      modifies this
      ensures Valid() && mStreamKeySet == KeysOf(inputs, outputs)
      ensures forall key :: key in mStreamKeySet <==>
        || (exists x :: x in inputs && x.kind == key.kind && key.id in x.ids)
        || (outputs != [] && outputs[0].kind == key.kind && key.id in outputs[0].ids)
    {
      for i := 0 to |inputs|
        invariant Valid() && mStreamKeySet == DevicesOnAll(inputs[..i])
      {
        assert inputs[..i + 1][..i] == inputs[..i];
        InsertDevices(inputs[i]);
      }
      assert inputs[..|inputs|] == inputs;
      if |outputs| > 0 {
        InsertDevices(outputs[0]);
      }
      forall key
        ensures key in mStreamKeySet <==>
          || (exists x :: x in inputs && x.kind == key.kind && key.id in x.ids)
          || (outputs != [] && outputs[0].kind == key.kind && key.id in outputs[0].ids)
      {
        KeysExactly(inputs, outputs, key);
      }
    }
  }

  class ClusterInfo {
    var mTotalGpuCount: nat
    var mNodeInfoVec: seq<NodeInfo>
    const mDTensorInSameDevice: bool

    ghost predicate Valid()
      reads this
    {
      && mNodeInfoVec != []
      && mTotalGpuCount == TotalGpus(mNodeInfoVec)
      && forall i :: 0 <= i < |mNodeInfoVec| ==> mNodeInfoVec[i].rank == i && (mNodeInfoVec[i].isMain <==> i == 0)
    }

    /** A cluster of the main node alone. With all tensors on one device, a machine that has any GPU
      * pretends to have as many as configured. */
    constructor (cudaDeviceCount: nat, sameDevice: bool, configuredGpus: nat)
      requires sameDevice && cudaDeviceCount > 0 ==> configuredGpus > 0
      ensures Valid() && mDTensorInSameDevice == sameDevice
      ensures mNodeInfoVec == [NodeInfo(true, 0, if sameDevice && cudaDeviceCount > 0 then configuredGpus else cudaDeviceCount)]
    {
      var gpuCount := if sameDevice && cudaDeviceCount > 0 then configuredGpus else cudaDeviceCount;
      mDTensorInSameDevice := sameDevice;
      mNodeInfoVec := [NodeInfo(true, 0, gpuCount)];
      mTotalGpuCount := gpuCount;
      assert [NodeInfo(true, 0, gpuCount)][..0] == [];
    }

    method PushBack(node: NodeInfo)
      requires Valid() && node.rank == |mNodeInfoVec| && !node.isMain
      modifies this
      ensures Valid() && mNodeInfoVec == old(mNodeInfoVec) + [node]
    {
      ghost var nodes := mNodeInfoVec;
      mNodeInfoVec := mNodeInfoVec + [node];
      mTotalGpuCount := mTotalGpuCount + node.gpuCount;
      assert mNodeInfoVec[..|nodes|] == nodes;
    }

    /** Hands out the global GPU ids with one running counter. */
    method GetRunnerSupportedDevicesForNode() returns (result: seq<NodeDevices>)
      requires Valid()
      ensures |result| == |mNodeInfoVec|
      ensures forall i :: 0 <= i < |result| ==>
        result[i] == DevicesOf(mNodeInfoVec, mDTensorInSameDevice, i) && result[i].Valid()
      ensures forall i :: 0 <= i < |result| ==> (result[i].supportCpu <==> i == 0) && |result[i].pairs| == mNodeInfoVec[i].gpuCount
      ensures forall i, g :: 0 <= i < |result| && 0 <= g < |result[i].pairs| ==>
        && result[i].pairs[g].globalDevice == Device(Gpu, TotalGpus(mNodeInfoVec[..i]) + g)
        && result[i].pairs[g].localDevice == Device(Gpu, if mDTensorInSameDevice then 0 else g)
    {
      result := [];
      var counter := 0;
      for i := 0 to |mNodeInfoVec|
        invariant |result| == i && counter == TotalGpus(mNodeInfoVec[..i])
        invariant forall j :: 0 <= j < i ==> result[j] == DevicesOf(mNodeInfoVec, mDTensorInSameDevice, j)
      {
        ghost var first := counter;
        TotalSnoc(mNodeInfoVec, i);
        var pairs: seq<DevicePair> := [];
        for gpuIdx := 0 to mNodeInfoVec[i].gpuCount
          invariant counter == first + gpuIdx && |pairs| == gpuIdx
          invariant forall g :: 0 <= g < gpuIdx ==> pairs[g] == PairFor(first, mDTensorInSameDevice, g)
        {
          var localId := if mDTensorInSameDevice then 0 else gpuIdx;
          pairs := pairs + [DevicePair(Device(Gpu, counter), Device(Gpu, localId))];
          counter := counter + 1;
        }
        var supportCpu := i == 0;
        assert NodeDevices(pairs, supportCpu) == DevicesOf(mNodeInfoVec, mDTensorInSameDevice, i);
        result := result + [NodeDevices(pairs, supportCpu)];
      }
    }

    /** The check made before an operator is sent: false where the source throws. */
    method CheckSupport(info: OperatorAssignInfo) returns (ok: bool)
      requires Valid() && info.Valid()
      ensures ok <==> PassesCheck(mNodeInfoVec, info.mStreamKeySet)
      ensures ok <==> forall k :: k in info.mStreamKeySet && k.kind == Gpu ==> k.id < TotalGpus(mNodeInfoVec)
    {
      ok := !(info.mMaxGpuId >= mTotalGpuCount);
    }
  }

  datatype WorkerClient = WorkerClient(address: string, gpuCount: nat)

  /** One request sent to a worker when a graph is created. */
  datatype GraphRequest = GraphRequest(client: WorkerClient, graphId: nat, devices: NodeDevices)

  class MainNode {
    const mClusterInfo: ClusterInfo
    var mWorkerNodeClients: seq<WorkerClient>
    var mGraphIdSet: set<nat>

    /** Worker client i stands for node i + 1. */
    ghost predicate Valid()
      reads this, mClusterInfo
    {
      && mClusterInfo.Valid()
      && |mClusterInfo.mNodeInfoVec| == |mWorkerNodeClients| + 1
      && forall i :: 0 <= i < |mWorkerNodeClients| ==>
           mClusterInfo.mNodeInfoVec[i + 1] == NodeInfo(false, i + 1, mWorkerNodeClients[i].gpuCount)
    }

    constructor (cudaDeviceCount: nat, sameDevice: bool, configuredGpus: nat)
      requires sameDevice && cudaDeviceCount > 0 ==> configuredGpus > 0
      ensures Valid() && fresh(mClusterInfo) && mWorkerNodeClients == [] && mGraphIdSet == {}
    {
      mClusterInfo := new ClusterInfo(cudaDeviceCount, sameDevice, configuredGpus);
      mWorkerNodeClients := [];
      mGraphIdSet := {};
    }

    /** False where the source throws: no worker may join in same-device mode. */
    method AddWorkerNode(address: string, gpuCount: nat) returns (ok: bool)
      requires Valid() && mGraphIdSet == {}
      modifies this, mClusterInfo
      ensures Valid() && mGraphIdSet == {} && (ok <==> !mClusterInfo.mDTensorInSameDevice)
      ensures mWorkerNodeClients == old(mWorkerNodeClients) + if ok then [WorkerClient(address, gpuCount)] else []
      ensures !ok ==> mClusterInfo.mNodeInfoVec == old(mClusterInfo.mNodeInfoVec)
    {
      if mClusterInfo.mDTensorInSameDevice {
        return false;
      }
      mWorkerNodeClients := mWorkerNodeClients + [WorkerClient(address, gpuCount)];
      AddNodeImp(gpuCount);
      ok := true;
    }

    method AddNodeImp(gpuCount: nat)
      requires mClusterInfo.Valid()
      modifies mClusterInfo
      ensures mClusterInfo.Valid()
      ensures mClusterInfo.mNodeInfoVec ==
        old(mClusterInfo.mNodeInfoVec) + [NodeInfo(false, |old(mClusterInfo.mNodeInfoVec)|, gpuCount)]
    {
      mClusterInfo.PushBack(NodeInfo(false, |mClusterInfo.mNodeInfoVec|, gpuCount));
    }

    /** Every worker is sent the devices of its own node. */
    method CreateGraph(graphId: nat, supportedDevicesForNodes: seq<NodeDevices>) returns (requests: seq<GraphRequest>)
      requires Valid() && graphId !in mGraphIdSet
      requires |supportedDevicesForNodes| == |mClusterInfo.mNodeInfoVec|
      modifies this
      ensures Valid() && mGraphIdSet == old(mGraphIdSet) + {graphId} && mWorkerNodeClients == old(mWorkerNodeClients)
      ensures |requests| == |mWorkerNodeClients|
      ensures forall i :: 0 <= i < |requests| ==>
        requests[i] == GraphRequest(mWorkerNodeClients[i], graphId, supportedDevicesForNodes[i + 1])
    {
      mGraphIdSet := mGraphIdSet + {graphId};
      requests := [];
      for i := 0 to |mWorkerNodeClients|
        invariant |requests| == i
        invariant forall j :: 0 <= j < i ==>
          requests[j] == GraphRequest(mWorkerNodeClients[j], graphId, supportedDevicesForNodes[j + 1])
      {
        requests := requests + [GraphRequest(mWorkerNodeClients[i], graphId, supportedDevicesForNodes[i + 1])];
      }
    }
  }
}

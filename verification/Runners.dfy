/** The runner of one node: blobs keyed by operand address, one first-in-first-out stream per device. */
module Runners {
  import opened Wrappers
  import opened Operators

  /** The identity of one blob cell: cells made for one operand share a serial number. */
  datatype Blob = Blob(serial: nat, id: int)

  type DeviceBlobs = map<int, Blob>

  datatype Kernel = Kernel(op: Operator, device: Device, inputs: seq<Option<Blob>>, outputs: seq<Option<Blob>>)

  /** `supported`: the devices of this node. `streams`: everything launched so far, per device. */
  datatype Runner = Runner(supported: set<Device>, blobs: map<nat, DeviceBlobs>, serial: nat,
                           streams: map<Device, seq<Kernel>>)

  function NewBlobs(serial: nat, ids: set<int>): (r: DeviceBlobs)
    ensures r.Keys == ids
  {
    map id | id in ids :: Blob(serial, id)
  }

  lemma NewBlobsSnoc(serial: nat, ids: set<int>, id: int)
    ensures NewBlobs(serial, ids + {id}) == NewBlobs(serial, ids)[id := Blob(serial, id)]
  {
  }

  /** The blob map once the listed operands have got their cells. */
  function AddOutputs(blobs: map<nat, DeviceBlobs>, serial: nat, outputs: seq<Operand>): (r: map<nat, DeviceBlobs>)
    ensures forall a :: a in blobs ==> a in r
    ensures Present(r, outputs)
  {
    if outputs == [] then blobs
    else
      var n := |outputs| - 1;
      assert outputs == outputs[..n] + [outputs[n]];
      AddOutputs(blobs, serial, outputs[..n])[outputs[n].addr := NewBlobs(serial + n, outputs[n].ids)]
  }

  lemma {:induction false} OutputKeys(blobs: map<nat, DeviceBlobs>, serial: nat, outputs: seq<Operand>)
    ensures AddOutputs(blobs, serial, outputs).Keys == blobs.Keys + Addrs(outputs)
  {
    if outputs != [] {
      var n := |outputs| - 1;
      OutputKeys(blobs, serial, outputs[..n]);
      assert outputs == outputs[..n] + [outputs[n]];
      assert Addrs(outputs) == Addrs(outputs[..n]) + {outputs[n].addr};
    }
  }

  lemma OutputSnoc(blobs: map<nat, DeviceBlobs>, serial: nat, outputs: seq<Operand>, x: Operand)
    ensures AddOutputs(blobs, serial, outputs + [x]) ==
            AddOutputs(blobs, serial, outputs)[x.addr := NewBlobs(serial + |outputs|, x.ids)]
  {
    assert (outputs + [x])[..|outputs|] == outputs;
  }

  lemma OutputFresh(blobs: map<nat, DeviceBlobs>, serial: nat, outputs: seq<Operand>, i: nat)
    requires DistinctAddrs(outputs) && i < |outputs| && Absent(blobs, outputs)
    ensures outputs[i].addr !in AddOutputs(blobs, serial, outputs[..i])
    ensures outputs[i].addr !in Addrs(outputs[..i])
  {
    OutputKeys(blobs, serial, outputs[..i]);
    assert outputs[i] in outputs;
  }

  /** Operand `x` has a cell for device `d`, if it lives there at all. */
  predicate CanCapture(blobs: map<nat, DeviceBlobs>, x: Operand, d: Device) {
    x.addr in blobs && (x.Contains(d) ==> d.id in blobs[x.addr])
  }

  /** The cell a kernel on device `d` captures for operand `x`, if any. */
  function Capture(blobs: map<nat, DeviceBlobs>, x: Operand, skipNull: bool, d: Device): (r: Option<Blob>) {
    if (skipNull && x.isNull) || !x.Contains(d) then None
    else if CanCapture(blobs, x, d) then Some(blobs[x.addr][d.id])
    else None
  }

  predicate CanCaptureAll(blobs: map<nat, DeviceBlobs>, xs: seq<Operand>, d: Device) {
    forall x :: x in xs ==> CanCapture(blobs, x, d)
  }

  function CaptureAll(blobs: map<nat, DeviceBlobs>, xs: seq<Operand>, skipNull: bool, d: Device): (r: seq<Option<Blob>>) {
    seq(|xs|, i requires 0 <= i < |xs| => Capture(blobs, xs[i], skipNull, d))
  }

  predicate Present(blobs: map<nat, DeviceBlobs>, xs: seq<Operand>) {
    forall x :: x in xs ==> x.addr in blobs
  }

  predicate Absent(blobs: map<nat, DeviceBlobs>, xs: seq<Operand>) {
    forall x :: x in xs ==> x.addr !in blobs
  }

  /** The assertions met while the kernels of `op` are created: every input has cells, for the devices
    * it lives on, and no output has cells yet. */
  predicate CanCreate(blobs: map<nat, DeviceBlobs>, op: Operator) {
    && op.keys != {}
    && Present(blobs, op.inputs)
    && (forall d :: d in op.keys ==> CanCaptureAll(blobs, op.inputs, d))
    && Absent(blobs, op.outputs)
    && DistinctAddrs(op.outputs)
  }

  /** Freshly added operands have a cell on each of their devices, numbered by their position. */
  lemma {:induction false} NewOutput(blobs: map<nat, DeviceBlobs>, serial: nat, outputs: seq<Operand>, i: nat)
    requires DistinctAddrs(outputs) && i < |outputs|
    ensures outputs[i].addr in AddOutputs(blobs, serial, outputs)
    ensures AddOutputs(blobs, serial, outputs)[outputs[i].addr] == NewBlobs(serial + i, outputs[i].ids)
  {
    var n := |outputs| - 1;
    if i < n {
      NewOutput(blobs, serial, outputs[..n], i);
    }
  }

  lemma {:induction false} OldOutput(blobs: map<nat, DeviceBlobs>, serial: nat, outputs: seq<Operand>, a: nat)
    requires a in blobs && a !in Addrs(outputs)
    ensures AddOutputs(blobs, serial, outputs)[a] == blobs[a]
  {
    if outputs != [] {
      var n := |outputs| - 1;
      assert outputs[n] in outputs;
      assert Addrs(outputs[..n]) <= Addrs(outputs);
      OldOutput(blobs, serial, outputs[..n], a);
    }
  }

  lemma OutputsCapture(blobs: map<nat, DeviceBlobs>, serial: nat, outputs: seq<Operand>, d: Device)
    requires DistinctAddrs(outputs)
    ensures CanCaptureAll(AddOutputs(blobs, serial, outputs), outputs, d)
  {
    forall x | x in outputs
      ensures CanCapture(AddOutputs(blobs, serial, outputs), x, d)
    {
      var i :| 0 <= i < |outputs| && outputs[i] == x;
      NewOutput(blobs, serial, outputs, i);
    }
  }

  /** The kernel of `op` on device `d`. */
  function KernelFor(blobs: map<nat, DeviceBlobs>, serial: nat, op: Operator, d: Device): (r: Kernel) {
    Kernel(op, d, CaptureAll(blobs, op.inputs, true, d),
           CaptureAll(AddOutputs(blobs, serial, op.outputs), op.outputs, false, d))
  }

  function Launched(streams: map<Device, seq<Kernel>>, d: Device): (r: seq<Kernel>) {
    if d in streams then streams[d] else []
  }

  function Launch(streams: map<Device, seq<Kernel>>, kernel: Kernel): (r: map<Device, seq<Kernel>>) {
    streams[kernel.device := Launched(streams, kernel.device) + [kernel]]
  }

  /** Every supported device of `op` gets its kernel at the end of its stream. */
  function LaunchOperator(r: Runner, op: Operator): (streams: map<Device, seq<Kernel>>)
  {
    map d | d in r.streams.Keys + op.keys * r.supported ::
      if d in op.keys * r.supported
      then Launched(r.streams, d) + [KernelFor(r.blobs, r.serial, op, d)]
      else r.streams[d]
  }

  /** The runner once `op` is created and its kernels are launched; none if an assertion fails. */
  function Create(r: Runner, op: Operator): (next: Option<Runner>)
  {
    if CanCreate(r.blobs, op) then
      Some(r.(blobs := AddOutputs(r.blobs, r.serial, op.outputs),
              serial := r.serial + |op.outputs|,
              streams := LaunchOperator(r, op)))
    else None
  }

  /** The runner once the cells of one address are dropped; none if there are none to drop. */
  function Delete(r: Runner, a: nat): (next: Option<Runner>) {
    if a in r.blobs then Some(r.(blobs := r.blobs - {a})) else None
  }

  function CreateAll(r: Runner, ops: seq<Operator>): (next: Option<Runner>) {
    if ops == [] then Some(r)
    else
      match CreateAll(r, ops[..|ops| - 1])
      case None => None
      case Some(s) => Create(s, ops[|ops| - 1])
  }

  function DeleteAll(r: Runner, addrs: seq<nat>): (next: Option<Runner>) {
    if addrs == [] then Some(r)
    else
      match DeleteAll(r, addrs[..|addrs| - 1])
      case None => None
      case Some(s) => Delete(s, addrs[|addrs| - 1])
  }

  /** What one batch does: all creations, then all deletions. */
  function ExecuteBatch(r: Runner, ops: seq<Operator>, addrs: seq<nat>): (next: Option<Runner>) {
    match CreateAll(r, ops)
    case None => None
    case Some(s) => DeleteAll(s, addrs)
  }

  /** The kernels of a list that go to device `d`. */
  function For(kernels: seq<Kernel>, d: Device): (r: seq<Kernel>) {
    if kernels == [] then []
    else
      var rest := For(kernels[..|kernels| - 1], d);
      if kernels[|kernels| - 1].device == d then rest + [kernels[|kernels| - 1]] else rest
  }

  function Targets(kernels: seq<Kernel>): (r: set<Device>) {
    set k | k in kernels :: k.device
  }

  /** The streams once the listed kernels are launched, one after the other. */
  function LaunchAll(streams: map<Device, seq<Kernel>>, kernels: seq<Kernel>): (r: map<Device, seq<Kernel>>) {
    if kernels == [] then streams
    else Launch(LaunchAll(streams, kernels[..|kernels| - 1]), kernels[|kernels| - 1])
  }

  lemma {:induction false} ForElsewhere(kernels: seq<Kernel>, d: Device)
    requires d !in Targets(kernels)
    ensures For(kernels, d) == []
  {
    if kernels != [] {
      assert kernels[|kernels| - 1] in kernels;
      assert Targets(kernels[..|kernels| - 1]) <= Targets(kernels);
      ForElsewhere(kernels[..|kernels| - 1], d);
    }
  }

  lemma {:induction false} LaunchAllConcat(streams: map<Device, seq<Kernel>>, a: seq<Kernel>, b: seq<Kernel>)
    ensures LaunchAll(streams, a + b) == LaunchAll(LaunchAll(streams, a), b)
  {
    if b == [] {
      assert a + b == a;
    } else {
      assert (a + b)[..|a + b| - 1] == a + b[..|b| - 1];
      LaunchAllConcat(streams, a, b[..|b| - 1]);
    }
  }

  lemma {:induction false} LaunchAllAt(streams: map<Device, seq<Kernel>>, kernels: seq<Kernel>, d: Device)
    ensures Launched(LaunchAll(streams, kernels), d) == Launched(streams, d) + For(kernels, d)
    ensures d in LaunchAll(streams, kernels) <==> d in streams || d in Targets(kernels)
  {
    if kernels != [] {
      var n := |kernels| - 1;
      LaunchAllAt(streams, kernels[..n], d);
      assert Targets(kernels) == Targets(kernels[..n]) + {kernels[n].device} by {
        assert kernels == kernels[..n] + [kernels[n]];
      }
    }
  }

  /** A new cell for every device of an operand, device after device. */
  method NewBlobsOn(serial: nat, ids: set<int>) returns (cells: DeviceBlobs)
    ensures cells == NewBlobs(serial, ids)
  {
    cells := map[];
    var todo: set<int> := ids;
    ghost var made: set<int> := {};
    while todo != {}
      invariant todo !! made && todo + made == ids
      invariant cells == NewBlobs(serial, made)
      decreases |todo|
    {
      var id := AnyOf(todo);
      NewBlobsSnoc(serial, made, id);
      cells := cells[id := Blob(serial, id)];
      todo, made := todo - {id}, made + {id};
    }
    assert made == ids;
  }

  class KernelStreamManager {
    var mStreamMap: map<Device, seq<Kernel>>

    constructor ()
      ensures mStreamMap == map[]
    {
      mStreamMap := map[];
    }

    method GetStream(device: Device)
      modifies this
      ensures mStreamMap == old(mStreamMap)[device := Launched(old(mStreamMap), device)]
    {
      if device !in mStreamMap {
        mStreamMap := mStreamMap[device := []];
      }
    }

    method LaunchKernel(kernel: Kernel)
      requires kernel.device in mStreamMap
      modifies this
      ensures mStreamMap == Launch(old(mStreamMap), kernel)
    {
      mStreamMap := mStreamMap[kernel.device := mStreamMap[kernel.device] + [kernel]];
    }
  }

  /** The stream map once the given devices have streams. */
  function Opened(streams: map<Device, seq<Kernel>>, devices: set<Device>): (r: map<Device, seq<Kernel>>) {
    map d | d in streams.Keys + devices :: Launched(streams, d)
  }

  /** The maps handed to a kernel constructor for a list of operands. */
  function CellsAt(blobs: map<nat, DeviceBlobs>, xs: seq<Operand>): (r: seq<DeviceBlobs>)
    requires Present(blobs, xs)
  {
    seq(|xs|, i requires 0 <= i < |xs| => blobs[xs[i].addr])
  }

  lemma CellsAtSnoc(blobs: map<nat, DeviceBlobs>, xs: seq<Operand>, x: Operand, cells: DeviceBlobs)
    requires Present(blobs, xs) && x.addr !in Addrs(xs)
    ensures CellsAt(blobs[x.addr := cells], xs + [x]) == CellsAt(blobs, xs) + [cells]
  {
  }

  /** One of the two loops of the kernel constructor: what a kernel on `device` captures. */
  method CaptureBlobs(ghost blobs: map<nat, DeviceBlobs>, xs: seq<Operand>, cells: seq<DeviceBlobs>,
                      skipNull: bool, device: Device) returns (result: seq<Option<Blob>>)
    requires CanCaptureAll(blobs, xs, device) && Present(blobs, xs) && cells == CellsAt(blobs, xs)
    ensures result == CaptureAll(blobs, xs, skipNull, device)
  {
    result := [];
    for i := 0 to |xs|
      invariant result == CaptureAll(blobs, xs, skipNull, device)[..i]
    {
      var x := xs[i];
      assert x in xs;
      if (skipNull && x.isNull) || !x.Contains(device) {
        result := result + [None];
      } else {
        result := result + [Some(cells[i][device.id])];
      }
    }
  }

  /** The constructor of a kernel. */
  method NewKernel(op: Operator, ghost r: Runner, inputs: seq<DeviceBlobs>, outputs: seq<DeviceBlobs>, device: Device)
    returns (k: Kernel)
    requires CanCreate(r.blobs, op) && device in op.keys
    requires inputs == CellsAt(r.blobs, op.inputs)
    requires outputs == CellsAt(AddOutputs(r.blobs, r.serial, op.outputs), op.outputs)
    ensures k == KernelFor(r.blobs, r.serial, op, device)
  {
    var ins := CaptureBlobs(r.blobs, op.inputs, inputs, true, device);
    OutputsCapture(r.blobs, r.serial, op.outputs, device);
    var outs := CaptureBlobs(AddOutputs(r.blobs, r.serial, op.outputs), op.outputs, outputs, false, device);
    k := Kernel(op, device, ins, outs);
  }

  /** The kernels made so far: one for each device that is not left to do. */
  ghost predicate KernelsExcept(kernels: seq<Kernel>, r: Runner, op: Operator, todo: set<Device>) {
    && Targets(kernels) == op.keys * r.supported - todo
    && forall d :: d in Targets(kernels) ==> For(kernels, d) == [KernelFor(r.blobs, r.serial, op, d)]
  }

  lemma OneMoreKernel(kernels: seq<Kernel>, r: Runner, op: Operator, todo: set<Device>, d: Device)
    requires d in todo && todo <= op.keys * r.supported
    requires KernelsExcept(kernels, r, op, todo)
    ensures KernelsExcept(kernels + [KernelFor(r.blobs, r.serial, op, d)], r, op, todo - {d})
  {
    var k := KernelFor(r.blobs, r.serial, op, d);
    assert (kernels + [k])[..|kernels|] == kernels;
    assert Targets(kernels + [k]) == Targets(kernels) + {d};
    ForElsewhere(kernels, d);
  }

  lemma OpenedOnceMore(streams: map<Device, seq<Kernel>>, devices: set<Device>, d: Device)
    ensures Opened(streams, devices + {d}) == Opened(streams, devices)[d := Launched(Opened(streams, devices), d)]
  {
  }

  lemma KernelsOfLaunched(kernels: seq<Kernel>, r: Runner, op: Operator)
    requires KernelsExcept(kernels, r, op, {})
    ensures LaunchAll(r.streams, kernels) == LaunchOperator(r, op)
  {
    forall d
      ensures d in LaunchAll(r.streams, kernels) <==> d in LaunchOperator(r, op)
      ensures d in LaunchOperator(r, op) ==> LaunchAll(r.streams, kernels)[d] == LaunchOperator(r, op)[d]
    {
      LaunchAllAt(r.streams, kernels, d);
      if d !in Targets(kernels) {
        ForElsewhere(kernels, d);
      }
    }
  }

  lemma {:induction false} LaunchOpened(streams: map<Device, seq<Kernel>>, devices: set<Device>, kernels: seq<Kernel>)
    ensures LaunchAll(Opened(streams, devices), kernels) == Opened(LaunchAll(streams, kernels), devices)
  {
    if kernels != [] {
      LaunchOpened(streams, devices, kernels[..|kernels| - 1]);
    }
  }

  lemma OpenedOwn(streams: map<Device, seq<Kernel>>, kernels: seq<Kernel>)
    ensures LaunchAll(Opened(streams, Targets(kernels)), kernels) == LaunchAll(streams, kernels)
  {
    LaunchOpened(streams, Targets(kernels), kernels);
    forall d | d in Targets(kernels)
      ensures d in LaunchAll(streams, kernels)
    {
      LaunchAllAt(streams, kernels, d);
    }
  }

  lemma OpenedTwice(streams: map<Device, seq<Kernel>>, a: set<Device>, b: set<Device>)
    ensures Opened(Opened(streams, a), b) == Opened(streams, a + b)
  {
  }

  lemma {:induction false} CreateAllPrefix(r: Runner, ops: seq<Operator>, i: nat)
    requires CreateAll(r, ops).Some? && i < |ops|
    ensures CreateAll(r, ops[..i]).Some? && CanCreate(CreateAll(r, ops[..i]).value.blobs, ops[i])
    ensures CreateAll(r, ops[..i + 1]) == Create(CreateAll(r, ops[..i]).value, ops[i])
  {
    assert ops[..i + 1][..i] == ops[..i];
    var n := |ops| - 1;
    if i == n {
      assert ops[..i + 1] == ops;
    } else {
      CreateAllPrefix(r, ops[..n], i);
      assert ops[..n][..i] == ops[..i] && ops[..n][..i + 1] == ops[..i + 1];
    }
  }

  lemma {:induction false} DeleteAllPrefix(r: Runner, addrs: seq<nat>, i: nat)
    requires DeleteAll(r, addrs).Some? && i < |addrs|
    ensures DeleteAll(r, addrs[..i]).Some? && addrs[i] in DeleteAll(r, addrs[..i]).value.blobs
    ensures DeleteAll(r, addrs[..i + 1]) == Delete(DeleteAll(r, addrs[..i]).value, addrs[i])
  {
    assert addrs[..i + 1][..i] == addrs[..i];
    var n := |addrs| - 1;
    if i == n {
      assert addrs[..i + 1] == addrs;
    } else {
      DeleteAllPrefix(r, addrs[..n], i);
      assert addrs[..n][..i] == addrs[..i] && addrs[..n][..i + 1] == addrs[..i + 1];
    }
  }

  /** Midway through a batch that started in `r`: `view` has the cells of all operators so far, while
    * their kernels, `kernels`, are made but not launched. */
  ghost predicate Collected(r: Runner, ops: seq<Operator>, view: Runner, kernels: seq<Kernel>) {
    && view.streams == Opened(r.streams, Targets(kernels))
    && CreateAll(r, ops) == Some(view.(streams := LaunchAll(r.streams, kernels)))
  }

  lemma NoneCollected(r: Runner, ops: seq<Operator>)
    ensures Collected(r, ops[..0], r, [])
  {
    assert Opened(r.streams, {}) == r.streams;
  }

  lemma NextOperator(r: Runner, ops: seq<Operator>, i: nat, view: Runner, kernels: seq<Kernel>)
    requires CreateAll(r, ops).Some? && i < |ops| && Collected(r, ops[..i], view, kernels)
    ensures CanCreate(view.blobs, ops[i])
  {
    CreateAllPrefix(r, ops, i);
  }

  lemma SameKernels(kernels: seq<Kernel>, r: Runner, s: Runner, op: Operator)
    requires s == r.(streams := s.streams)
    requires KernelsExcept(kernels, r, op, {})
    ensures KernelsExcept(kernels, s, op, {})
  {
  }

  lemma MoreKernels(streams: map<Device, seq<Kernel>>, kernels: seq<Kernel>, before: Runner, op: Operator,
                    more: seq<Kernel>)
    requires before.streams == LaunchAll(streams, kernels)
    requires KernelsExcept(more, before, op, {})
    ensures LaunchAll(streams, kernels + more) == LaunchOperator(before, op)
    ensures Opened(Opened(streams, Targets(kernels)), Targets(more)) == Opened(streams, Targets(kernels + more))
  {
    KernelsOfLaunched(more, before, op);
    LaunchAllConcat(streams, kernels, more);
    OpenedTwice(streams, Targets(kernels), Targets(more));
    assert Targets(kernels + more) == Targets(kernels) + Targets(more);
  }

  lemma CreateInto(before: Runner, op: Operator, view: Runner, next: Runner, streams: map<Device, seq<Kernel>>)
    requires CanCreate(before.blobs, op) && streams == LaunchOperator(before, op)
    requires view == before.(streams := view.streams)
    requires next == Runner(view.supported, AddOutputs(view.blobs, view.serial, op.outputs),
                            view.serial + |op.outputs|, next.streams)
    ensures Create(before, op) == Some(next.(streams := streams))
  {
  }

  lemma OneMoreCollected(r: Runner, ops: seq<Operator>, i: nat, view: Runner, kernels: seq<Kernel>,
                         more: seq<Kernel>, next: Runner)
    requires CreateAll(r, ops).Some? && i < |ops| && Collected(r, ops[..i], view, kernels)
    requires KernelsExcept(more, view, ops[i], {})
    requires next == Runner(view.supported, AddOutputs(view.blobs, view.serial, ops[i].outputs),
                            view.serial + |ops[i].outputs|, Opened(view.streams, Targets(more)))
    ensures Collected(r, ops[..i + 1], next, kernels + more)
  {
    var before := view.(streams := LaunchAll(r.streams, kernels));
    CreateAllPrefix(r, ops, i);
    SameKernels(more, view, before, ops[i]);
    MoreKernels(r.streams, kernels, before, ops[i], more);
    CreateInto(before, ops[i], view, next, LaunchAll(r.streams, kernels + more));
  }

  /** Midway through the devices of `op`: every device that is not left to do has its kernel and its stream. */
  ghost predicate Underway(streams: map<Device, seq<Kernel>>, now: map<Device, seq<Kernel>>, kernels: seq<Kernel>,
                           r: Runner, op: Operator, todo: set<Device>)
  {
    && todo <= op.keys * r.supported
    && KernelsExcept(kernels, r, op, todo)
    && now == Opened(streams, Targets(kernels))
  }

  lemma NoDevice(streams: map<Device, seq<Kernel>>, r: Runner, op: Operator)
    ensures Underway(streams, streams, [], r, op, op.keys * r.supported)
  {
    assert Opened(streams, {}) == streams;
  }

  lemma NextDevice(streams: map<Device, seq<Kernel>>, now: map<Device, seq<Kernel>>, kernels: seq<Kernel>,
                   r: Runner, op: Operator, todo: set<Device>, d: Device)
    requires Underway(streams, now, kernels, r, op, todo) && d in todo
    ensures Underway(streams, now[d := Launched(now, d)], kernels + [KernelFor(r.blobs, r.serial, op, d)], r, op, todo - {d})
  {
    var k := KernelFor(r.blobs, r.serial, op, d);
    OneMoreKernel(kernels, r, op, todo, d);
    OpenedOnceMore(streams, Targets(kernels), d);
    assert Targets(kernels + [k]) == Targets(kernels) + {d};
  }

  class NaiveRunner {
    const mSupportedDevices: set<Device>
    var mOperandToBlobs: map<nat, DeviceBlobs>
    var mSerial: nat
    const mStreamManager: KernelStreamManager

    constructor (supportedDevices: set<Device>)
      ensures View() == Runner(supportedDevices, map[], 0, map[])
      ensures fresh(mStreamManager)
    {
      mSupportedDevices := supportedDevices;
      mOperandToBlobs := map[];
      mSerial := 0;
      mStreamManager := new KernelStreamManager();
    }

    ghost function View(): (r: Runner)
      reads this, mStreamManager
    {
      Runner(mSupportedDevices, mOperandToBlobs, mSerial, mStreamManager.mStreamMap)
    }

    /** Makes the cells of one output operand, device after device. */
    method NewOperandBlobs(x: Operand)
      requires x.addr !in mOperandToBlobs
      modifies this`mOperandToBlobs, this`mSerial
      ensures mOperandToBlobs == old(mOperandToBlobs)[x.addr := NewBlobs(old(mSerial), x.ids)]
      ensures mSerial == old(mSerial) + 1
    {
      var cells := NewBlobsOn(mSerial, x.ids);
      mOperandToBlobs := mOperandToBlobs[x.addr := cells];
      mSerial := mSerial + 1;
    }

    method CreateKernelForOperator(op: Operator) returns (result: seq<Kernel>)
      requires CanCreate(mOperandToBlobs, op)
      modifies this`mOperandToBlobs, this`mSerial, mStreamManager
      ensures mOperandToBlobs == AddOutputs(old(mOperandToBlobs), old(mSerial), op.outputs)
      ensures mSerial == old(mSerial) + |op.outputs|
      ensures KernelsExcept(result, old(View()), op, {})
      ensures mStreamManager.mStreamMap == Opened(old(mStreamManager.mStreamMap), Targets(result))
    {
      ghost var r := View();
      var inputs := InputBlobs(op.inputs);
      var outputs := OutputBlobs(op.outputs);
      result := CreateOnDevices(op, r, inputs, outputs);
    }

    method InputBlobs(xs: seq<Operand>) returns (inputs: seq<DeviceBlobs>)
      requires Present(mOperandToBlobs, xs)
      ensures inputs == CellsAt(mOperandToBlobs, xs)
    {
      inputs := [];
      for i := 0 to |xs|
        invariant inputs == CellsAt(mOperandToBlobs, xs)[..i]
      {
        inputs := inputs + [mOperandToBlobs[xs[i].addr]];
      }
    }

    method OutputBlobs(xs: seq<Operand>) returns (outputs: seq<DeviceBlobs>)
      requires DistinctAddrs(xs) && Absent(mOperandToBlobs, xs)
      modifies this`mOperandToBlobs, this`mSerial
      ensures mOperandToBlobs == AddOutputs(old(mOperandToBlobs), old(mSerial), xs)
      ensures outputs == CellsAt(mOperandToBlobs, xs)
      ensures mSerial == old(mSerial) + |xs|
    {
      outputs := [];
      ghost var blobs, serial := mOperandToBlobs, mSerial;
      for i := 0 to |xs|
        invariant mOperandToBlobs == AddOutputs(blobs, serial, xs[..i]) && mSerial == serial + i
        invariant Present(mOperandToBlobs, xs[..i])
        invariant outputs == CellsAt(mOperandToBlobs, xs[..i])
      {
        assert xs[..i + 1] == xs[..i] + [xs[i]];
        OutputFresh(blobs, serial, xs, i);
        OutputSnoc(blobs, serial, xs[..i], xs[i]);
        CellsAtSnoc(mOperandToBlobs, xs[..i], xs[i], NewBlobs(mSerial, xs[i].ids));
        NewOperandBlobs(xs[i]);
        outputs := outputs + [mOperandToBlobs[xs[i].addr]];
      }
      assert xs[..|xs|] == xs;
    }

    /** One kernel, and if need be one stream, for every supported stream key of `op`. */
    method CreateOnDevices(op: Operator, ghost r: Runner, inputs: seq<DeviceBlobs>, outputs: seq<DeviceBlobs>)
      returns (result: seq<Kernel>)
      requires CanCreate(r.blobs, op) && r.supported == mSupportedDevices
      requires inputs == CellsAt(r.blobs, op.inputs)
      requires outputs == CellsAt(AddOutputs(r.blobs, r.serial, op.outputs), op.outputs)
      modifies mStreamManager
      ensures KernelsExcept(result, r, op, {})
      ensures mStreamManager.mStreamMap == Opened(old(mStreamManager.mStreamMap), Targets(result))
    {
      result := [];
      ghost var streams := mStreamManager.mStreamMap;
      var todo: set<Device> := op.keys * mSupportedDevices;
      NoDevice(streams, r, op);
      while todo != {}
        invariant Underway(streams, mStreamManager.mStreamMap, result, r, op, todo)
        decreases |todo|
      {
        var streamKey := AnyOf(todo);
        NextDevice(streams, mStreamManager.mStreamMap, result, r, op, todo, streamKey);
        mStreamManager.GetStream(streamKey);
        var kernel := NewKernel(op, r, inputs, outputs, streamKey);
        result := result + [kernel];
        todo := todo - {streamKey};
      }
    }

    method DeleteOperand(operand: nat)
      requires operand in mOperandToBlobs
      modifies this`mOperandToBlobs
      ensures Delete(old(View()), operand) == Some(View())
    {
      mOperandToBlobs := mOperandToBlobs - {operand};
    }

    /** Creates the kernels of every operator, then drops the operands, then launches the kernels. */
    method Execute(ops: seq<Operator>, noHoldOperands: seq<nat>)
      requires |ops| + |noHoldOperands| > 0
      requires ExecuteBatch(View(), ops, noHoldOperands).Some?
      modifies this, mStreamManager
      ensures ExecuteBatch(old(View()), ops, noHoldOperands) == Some(View())
    {
      ghost var r := View();
      ghost var created := CreateAll(r, ops).value;
      var kernels := CreateKernels(ops);
      DeleteOperands(created, noHoldOperands);
      LaunchKernels(r, kernels);
    }

    /** The first loop of `Execute`. */
    method CreateKernels(ops: seq<Operator>) returns (kernels: seq<Kernel>)
      requires CreateAll(View(), ops).Some?
      modifies this`mOperandToBlobs, this`mSerial, mStreamManager
      ensures Collected(old(View()), ops, View(), kernels)
    {
      ghost var r := View();
      kernels := [];
      NoneCollected(r, ops);
      for i := 0 to |ops|
        invariant Collected(r, ops[..i], View(), kernels)
      {
        ghost var view := View();
        NextOperator(r, ops, i, view, kernels);
        var tmpKernels := CreateKernelForOperator(ops[i]);
        OneMoreCollected(r, ops, i, view, kernels, tmpKernels, View());
        kernels := kernels + tmpKernels;
      }
      assert ops[..|ops|] == ops;
    }

    /** The second loop of `Execute`. */
    method DeleteOperands(ghost r: Runner, noHoldOperands: seq<nat>)
      requires r.blobs == mOperandToBlobs && DeleteAll(r, noHoldOperands).Some?
      modifies this`mOperandToBlobs
      ensures DeleteAll(r, noHoldOperands) == Some(r.(blobs := mOperandToBlobs))
    {
      for i := 0 to |noHoldOperands|
        invariant DeleteAll(r, noHoldOperands[..i]) == Some(r.(blobs := mOperandToBlobs))
      {
        DeleteAllPrefix(r, noHoldOperands, i);
        DeleteOperand(noHoldOperands[i]);
      }
      assert noHoldOperands[..|noHoldOperands|] == noHoldOperands;
    }

    /** The last loop of `Execute`. */
    method LaunchKernels(ghost r: Runner, kernels: seq<Kernel>)
      requires mStreamManager.mStreamMap == Opened(r.streams, Targets(kernels))
      modifies mStreamManager
      ensures mStreamManager.mStreamMap == LaunchAll(r.streams, kernels)
    {
      ghost var start := mStreamManager.mStreamMap;
      for i := 0 to |kernels|
        invariant mStreamManager.mStreamMap == LaunchAll(start, kernels[..i])
      {
        LaunchAllAt(start, kernels[..i], kernels[i].device);
        assert kernels[i].device in Targets(kernels);
        assert kernels[..i + 1][..i] == kernels[..i];
        mStreamManager.LaunchKernel(kernels[i]);
      }
      assert kernels[..|kernels|] == kernels;
      OpenedOwn(r.streams, kernels);
    }
  }
}

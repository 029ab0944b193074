/** Kernels on their streams: what a stream may rely on when the other streams run at any speed. */
module Streams {
  import opened DistributedSpec
  import opened Wrappers
  import opened Operators
  import opened Runners
  import opened Batching
  import opened Pipeline

  /** The cells a kernel reads, and the ones it writes. */
  function Reads(k: Kernel): (r: set<Blob>) {
    set o | o in k.inputs && o.Some? :: o.value
  }

  function Writes(k: Kernel): (r: set<Blob>) {
    set o | o in k.outputs && o.Some? :: o.value
  }

  function AllWrites(kernels: seq<Kernel>): (r: set<Blob>) {
    if kernels == [] then {} else AllWrites(kernels[..|kernels| - 1]) + Writes(kernels[|kernels| - 1])
  }

  predicate DistinctOutputs(k: Kernel) {
    forall i, j :: 0 <= i < j < |k.outputs| && k.outputs[i].Some? ==> k.outputs[i] != k.outputs[j]
  }

  /** A kernel only reads cells written before it on its own stream, and only writes new ones. */
  predicate Fits(written: set<Blob>, k: Kernel) {
    Reads(k) <= written && Writes(k) !! written && DistinctOutputs(k)
  }

  predicate Orderly(kernels: seq<Kernel>) {
    if kernels == [] then true
    else
      var front := kernels[..|kernels| - 1];
      Orderly(front) && Fits(AllWrites(front), kernels[|kernels| - 1])
  }

  ghost predicate AllOrderly(streams: map<Device, seq<Kernel>>) {
    forall d :: Orderly(Launched(streams, d))
  }

  /** The stream keys of `op` cover every device its outputs live on. */
  predicate Assigned(op: Operator) {
    forall x, id :: x in op.outputs && id in x.ids ==> Device(x.kind, id) in op.keys
  }

  predicate AllAssigned(msgs: seq<Message>) {
    forall m :: m in msgs && m.AddOperator? ==> Assigned(m.op)
  }

  /** `kinds[s]` is the kind of device that cells with serial number `s` live on: a cell is written on
    * one stream only. */
  ghost predicate Owned(kinds: seq<DeviceKind>, streams: map<Device, seq<Kernel>>) {
    forall d, b :: b in AllWrites(Launched(streams, d)) ==> OwnedBy(kinds, b, d)
  }

  predicate OwnedBy(kinds: seq<DeviceKind>, b: Blob, d: Device) {
    b.serial < |kinds| && Device(kinds[b.serial], b.id) == d
  }

  /** For every operand that is there, each of its supported devices has the write of its cell on its stream. */
  ghost predicate Written(present: map<nat, Operand>, r: Runner) {
    forall a, d :: a in present && d in r.supported && present[a].Contains(d) ==> WrittenAt(r, a, d)
  }

  predicate WrittenAt(r: Runner, a: nat, d: Device) {
    a in r.blobs && d.id in r.blobs[a] && r.blobs[a][d.id] in AllWrites(Launched(r.streams, d))
  }

  function KindsOf(xs: seq<Operand>): (r: seq<DeviceKind>) {
    seq(|xs|, i requires 0 <= i < |xs| => xs[i].kind)
  }

  lemma AllWritesSnoc(kernels: seq<Kernel>, k: Kernel)
    ensures AllWrites(kernels + [k]) == AllWrites(kernels) + Writes(k)
    ensures Orderly(kernels + [k]) <==> Orderly(kernels) && Fits(AllWrites(kernels), k)
  {
    assert (kernels + [k])[..|kernels|] == kernels;
  }

  /** What the kernel of `op` on device `d` writes. */
  lemma KernelOutputs(r: Runner, op: Operator, d: Device)
    requires DistinctAddrs(op.outputs)
    ensures var k := KernelFor(r.blobs, r.serial, op, d);
      && |k.outputs| == |op.outputs|
      && forall i :: 0 <= i < |op.outputs| ==>
           k.outputs[i] == if op.outputs[i].Contains(d) then Some(Blob(r.serial + i, d.id)) else None
  {
    forall i | 0 <= i < |op.outputs|
      ensures KernelFor(r.blobs, r.serial, op, d).outputs[i] ==
              if op.outputs[i].Contains(d) then Some(Blob(r.serial + i, d.id)) else None
    {
      NewOutput(r.blobs, r.serial, op.outputs, i);
    }
  }

  lemma WritesOfNew(r: Runner, op: Operator, d: Device)
    requires DistinctAddrs(op.outputs)
    ensures DistinctOutputs(KernelFor(r.blobs, r.serial, op, d))
    ensures forall b :: b in Writes(KernelFor(r.blobs, r.serial, op, d)) ==>
      && r.serial <= b.serial < r.serial + |op.outputs|
      && op.outputs[b.serial - r.serial].kind == d.kind && b.id == d.id
  {
    KernelOutputs(r, op, d);
    var k := KernelFor(r.blobs, r.serial, op, d);
    forall b | b in Writes(k)
      ensures r.serial <= b.serial < r.serial + |op.outputs|
      ensures op.outputs[b.serial - r.serial].kind == d.kind && b.id == d.id
    {
      var i :| 0 <= i < |k.outputs| && k.outputs[i] == Some(b);
    }
  }

  /** A kernel reads what is there, and that is written on its stream. */
  lemma ReadsOfNew(present: map<nat, Operand>, r: Runner, op: Operator, d: Device)
    requires Written(present, r) && InputsPresent(present, op.inputs) && d in r.supported
    ensures Reads(KernelFor(r.blobs, r.serial, op, d)) <= AllWrites(Launched(r.streams, d))
  {
    var k := KernelFor(r.blobs, r.serial, op, d);
    forall b | b in Reads(k)
      ensures b in AllWrites(Launched(r.streams, d))
    {
      var i :| 0 <= i < |k.inputs| && k.inputs[i] == Some(b);
      var x := op.inputs[i];
      assert x in op.inputs && WrittenAt(r, x.addr, d);
    }
  }

  lemma LaunchedNext(r: Runner, op: Operator, d: Device)
    ensures Launched(LaunchOperator(r, op), d) ==
      Launched(r.streams, d) + if d in op.keys && d in r.supported then [KernelFor(r.blobs, r.serial, op, d)] else []
  {
  }

  /** A new kernel fits behind its stream. */
  lemma NewKernelFits(kinds: seq<DeviceKind>, present: map<nat, Operand>, r: Runner, op: Operator, d: Device)
    requires Owned(kinds, r.streams) && |kinds| == r.serial && Written(present, r)
    requires InputsPresent(present, op.inputs) && DistinctAddrs(op.outputs) && d in r.supported
    ensures Fits(AllWrites(Launched(r.streams, d)), KernelFor(r.blobs, r.serial, op, d))
  {
    WritesOfNew(r, op, d);
    ReadsOfNew(present, r, op, d);
    forall b | b in AllWrites(Launched(r.streams, d))
      ensures b !in Writes(KernelFor(r.blobs, r.serial, op, d))
    {
      assert OwnedBy(kinds, b, d);
    }
  }

  lemma OrderlyNext(kinds: seq<DeviceKind>, present: map<nat, Operand>, r: Runner, op: Operator)
    requires Owned(kinds, r.streams) && |kinds| == r.serial && Written(present, r)
    requires InputsPresent(present, op.inputs) && DistinctAddrs(op.outputs) && AllOrderly(r.streams)
    ensures AllOrderly(LaunchOperator(r, op))
  {
    forall d
      ensures Orderly(Launched(LaunchOperator(r, op), d))
    {
      LaunchedNext(r, op, d);
      assert Orderly(Launched(r.streams, d));
      if d in op.keys && d in r.supported {
        NewKernelFits(kinds, present, r, op, d);
        AllWritesSnoc(Launched(r.streams, d), KernelFor(r.blobs, r.serial, op, d));
      }
    }
  }

  lemma OwnedNew(kinds: seq<DeviceKind>, r: Runner, op: Operator, d: Device, b: Blob)
    requires |kinds| == r.serial && DistinctAddrs(op.outputs) && b in Writes(KernelFor(r.blobs, r.serial, op, d))
    ensures OwnedBy(kinds + KindsOf(op.outputs), b, d)
  {
    WritesOfNew(r, op, d);
    assert (kinds + KindsOf(op.outputs))[b.serial] == op.outputs[b.serial - r.serial].kind;
  }

  lemma WritesNext(r: Runner, op: Operator, d: Device)
    ensures AllWrites(Launched(LaunchOperator(r, op), d)) == AllWrites(Launched(r.streams, d)) +
      if d in op.keys && d in r.supported then Writes(KernelFor(r.blobs, r.serial, op, d)) else {}
  {
    LaunchedNext(r, op, d);
    AllWritesSnoc(Launched(r.streams, d), KernelFor(r.blobs, r.serial, op, d));
  }

  lemma OwnedNext(kinds: seq<DeviceKind>, r: Runner, op: Operator)
    requires Owned(kinds, r.streams) && |kinds| == r.serial && DistinctAddrs(op.outputs)
    ensures Owned(kinds + KindsOf(op.outputs), LaunchOperator(r, op))
  {
    forall d, b | b in AllWrites(Launched(LaunchOperator(r, op), d))
      ensures OwnedBy(kinds + KindsOf(op.outputs), b, d)
    {
      WritesNext(r, op, d);
      if b in AllWrites(Launched(r.streams, d)) {
        assert OwnedBy(kinds, b, d);
      } else {
        OwnedNew(kinds, r, op, d, b);
      }
    }
  }

  lemma WrittenNext(present: map<nat, Operand>, r: Runner, op: Operator)
    requires Written(present, r) && TrackOne(present, AddOperator(op)).Some? && Assigned(op)
    requires Create(r, op).Some?
    ensures Written(AddPresent(present, op.outputs), Create(r, op).value)
  {
    var s := Create(r, op).value;
    PresentKeys(present, op.outputs);
    forall a, d | a in AddPresent(present, op.outputs) && d in s.supported && AddPresent(present, op.outputs)[a].Contains(d)
      ensures WrittenAt(s, a, d)
    {
      PresentAt(present, op.outputs, a);
      if a in Addrs(op.outputs) {
        var i :| 0 <= i < |op.outputs| && op.outputs[i].addr == a;
        NewOutputWritten(r, op, i, d);
      } else {
        assert WrittenAt(r, a, d);
        OldOutputWritten(r, op, a, d);
      }
    }
  }

  lemma OldOutputWritten(r: Runner, op: Operator, a: nat, d: Device)
    requires Create(r, op).Some? && WrittenAt(r, a, d) && a !in Addrs(op.outputs)
    ensures WrittenAt(Create(r, op).value, a, d)
  {
    WritesNext(r, op, d);
    OldOutput(r.blobs, r.serial, op.outputs, a);
  }

  lemma NewWrite(r: Runner, op: Operator, i: nat, d: Device)
    requires DistinctAddrs(op.outputs) && i < |op.outputs| && op.outputs[i].Contains(d)
    ensures Blob(r.serial + i, d.id) in Writes(KernelFor(r.blobs, r.serial, op, d))
  {
    KernelOutputs(r, op, d);
    var k := KernelFor(r.blobs, r.serial, op, d);
    assert k.outputs[i] in k.outputs;
  }

  lemma NewOutputWritten(r: Runner, op: Operator, i: nat, d: Device)
    requires Create(r, op).Some? && Assigned(op) && i < |op.outputs| && op.outputs[i].Contains(d) && d in r.supported
    ensures WrittenAt(Create(r, op).value, op.outputs[i].addr, d)
  {
    assert op.outputs[i] in op.outputs && Device(op.outputs[i].kind, d.id) == d;
    WritesNext(r, op, d);
    NewWrite(r, op, i, d);
    NewOutput(r.blobs, r.serial, op.outputs, i);
  }

  /** The kinds of all cells made while the messages are handled. */
  function Kinds(msgs: seq<Message>): (r: seq<DeviceKind>) {
    if msgs == [] then []
    else
      var m := msgs[|msgs| - 1];
      Kinds(msgs[..|msgs| - 1]) + (if m.AddOperator? then KindsOf(m.op.outputs) else [])
  }

  /** Every stream is orderly on its own, no two streams write the same cell, and what is there is written. */
  ghost predicate StreamsRight(kinds: seq<DeviceKind>, present: map<nat, Operand>, r: Runner) {
    && |kinds| == r.serial
    && AllOrderly(r.streams)
    && Owned(kinds, r.streams)
    && Written(present, r)
  }

  lemma StreamsCreate(kinds: seq<DeviceKind>, present: map<nat, Operand>, r: Runner, op: Operator)
    requires StreamsRight(kinds, present, r) && Create(r, op).Some?
    requires TrackOne(present, AddOperator(op)).Some? && Assigned(op)
    ensures StreamsRight(kinds + KindsOf(op.outputs), AddPresent(present, op.outputs), Create(r, op).value)
  {
    OrderlyNext(kinds, present, r, op);
    OwnedNext(kinds, r, op);
    WrittenNext(present, r, op);
  }

  lemma StreamsOne(kinds: seq<DeviceKind>, present: map<nat, Operand>, r: Runner, m: Message)
    requires StreamsRight(kinds, present, r) && Handle(r, m).Some? && TrackOne(present, m).Some?
    requires m.AddOperator? ==> Assigned(m.op)
    ensures StreamsRight(kinds + (if m.AddOperator? then KindsOf(m.op.outputs) else []),
                         TrackOne(present, m).value, Handle(r, m).value)
  {
    match m {
      case AddOperator(op) => StreamsCreate(kinds, present, r, op);
      case NoHold(a) =>
        WrittenLess(present, r, a);
        assert kinds + [] == kinds;
      case SetOperandName(_, _) => assert kinds + [] == kinds;
    }
  }

  lemma NoStreams(supported: set<Device>)
    ensures StreamsRight([], map[], EmptyRunner(supported))
  {
  }

  /** The streams of a runner that was told of well-formed messages. */
  lemma {:induction false} StreamsOrderly(supported: set<Device>, msgs: seq<Message>)
    requires Track(map[], msgs).Some? && AllAssigned(msgs)
    ensures Replay(EmptyRunner(supported), msgs).Some?
    ensures StreamsRight(Kinds(msgs), Track(map[], msgs).value, Replay(EmptyRunner(supported), msgs).value)
  {
    TrackReplay(map[], EmptyRunner(supported), msgs);
    if msgs == [] {
      NoStreams(supported);
    } else {
      var front, m := msgs[..|msgs| - 1], msgs[|msgs| - 1];
      assert msgs == front + [m];
      assert m in msgs;
      assert AllAssigned(front);
      StreamsOrderly(supported, front);
      StreamsOne(Kinds(front), Track(map[], front).value, Replay(EmptyRunner(supported), front).value, m);
    }
  }

  lemma WrittenLess(present: map<nat, Operand>, r: Runner, a: nat)
    requires Written(present, r)
    ensures Written(present - {a}, r.(blobs := r.blobs - {a}))
  {
    var s := r.(blobs := r.blobs - {a});
    forall c, d | c in present - {a} && d in s.supported && (present - {a})[c].Contains(d)
      ensures WrittenAt(s, c, d)
    {
      assert WrittenAt(r, c, d);
    }
  }
}

/** The whole pipeline against a plain interpreter of the program: operators in the order they were sent,
  * each device computing its own part. */
module ProgramMeaning {
  import opened Wrappers
  import opened Operators
  import opened Runners
  import opened Batching
  import opened GraphExecutor
  import opened Pipeline
  import opened PipelineSafety
  import opened Sending
  import opened Streams
  import opened StreamRuns

  /** The tensors of each operand that is there, by operand address and device. */
  type Tensors<V> = map<nat, map<Device, V>>

  /** The devices of this node that an operand lives on. */
  function DevicesHere(supported: set<Device>, x: Operand): (r: set<Device>) {
    set d | d in supported && x.Contains(d)
  }

  /** What a device reads for one input: nothing for a null tensor or an operand that lives elsewhere. */
  function InputOf<V>(tensors: Tensors<V>, x: Operand, d: Device): (r: Option<V>) {
    if x.isNull || !x.Contains(d) then None
    else if x.addr in tensors && d in tensors[x.addr] then Some(tensors[x.addr][d])
    else None
  }

  function InputsOf<V>(tensors: Tensors<V>, op: Operator, d: Device): (r: seq<Option<V>>) {
    seq(|op.inputs|, i requires 0 <= i < |op.inputs| => InputOf(tensors, op.inputs[i], d))
  }

  /** The first `n` outputs of `op`, each computed on each of its devices from what `before` holds. */
  function WithOutputs<V>(compute: Compute<V>, supported: set<Device>, before: Tensors<V>, op: Operator, n: nat): (r: Tensors<V>)
    requires n <= |op.outputs|
  {
    if n == 0 then before
    else
      var x := op.outputs[n - 1];
      WithOutputs(compute, supported, before, op, n - 1)[x.addr :=
        map d | d in DevicesHere(supported, x) :: compute(op, d, InputsOf(before, op, d), n - 1)]
  }

  /** The interpreter: one message after the other. */
  function Meaning<V>(compute: Compute<V>, supported: set<Device>, msgs: seq<Message>): (r: Tensors<V>) {
    if msgs == [] then map[]
    else
      var before := Meaning(compute, supported, msgs[..|msgs| - 1]);
      match msgs[|msgs| - 1]
      case AddOperator(op) => WithOutputs(compute, supported, before, op, |op.outputs|)
      case NoHold(a) => before - {a}
      case SetOperandName(_, _) => before
  }

  lemma {:induction false} OutputMeaning<V>(compute: Compute<V>, supported: set<Device>, before: Tensors<V>, op: Operator,
                                            n: nat, i: nat)
    requires i < n <= |op.outputs| && DistinctAddrs(op.outputs)
    ensures op.outputs[i].addr in WithOutputs(compute, supported, before, op, n)
    ensures WithOutputs(compute, supported, before, op, n)[op.outputs[i].addr] ==
      map d | d in DevicesHere(supported, op.outputs[i]) :: compute(op, d, InputsOf(before, op, d), i)
  {
    if i < n - 1 {
      OutputMeaning(compute, supported, before, op, n - 1, i);
    }
  }

  lemma {:induction false} OtherMeaning<V>(compute: Compute<V>, supported: set<Device>, before: Tensors<V>, op: Operator,
                                           n: nat, a: nat)
    requires n <= |op.outputs| && a !in Addrs(op.outputs)
    ensures a in WithOutputs(compute, supported, before, op, n) <==> a in before
    ensures a in before ==> WithOutputs(compute, supported, before, op, n)[a] == before[a]
  {
    if n > 0 {
      assert op.outputs[n - 1] in op.outputs;
      OtherMeaning(compute, supported, before, op, n - 1, a);
    }
  }

  // ---------------------------------------------------------------- one kernel

  /** After a kernel ran, each of its output cells holds what it computed for that output. */
  lemma {:induction false} OutputSet<V>(compute: Compute<V>, heap: Heap<V>, k: Kernel, ins: seq<Option<V>>, n: nat, i: nat)
    requires i < n <= |k.outputs| && DistinctOutputs(k) && k.outputs[i].Some?
    ensures k.outputs[i].value in SetOutputs(compute, heap, k, ins, n)
    ensures SetOutputs(compute, heap, k, ins, n)[k.outputs[i].value] == compute(k.op, k.device, ins, i)
  {
    if i < n - 1 {
      OutputSet(compute, heap, k, ins, n - 1, i);
      assert k.outputs[i] != k.outputs[n - 1];
    }
  }

  /** The cell of operand `a` on device `d`, in the cells of that device's own stream, holds its meaning. */
  ghost predicate CellMeans<V>(compute: Compute<V>, r: Runner, tensors: Tensors<V>, a: nat, d: Device) {
    && a in r.blobs && d.id in r.blobs[a] && a in tensors && d in tensors[a]
    && RunList(compute, Launched(r.streams, d)).Some?
    && r.blobs[a][d.id] in RunList(compute, Launched(r.streams, d)).value
    && RunList(compute, Launched(r.streams, d)).value[r.blobs[a][d.id]] == tensors[a][d]
  }

  ghost predicate CellsMean<V>(compute: Compute<V>, present: map<nat, Operand>, r: Runner, tensors: Tensors<V>) {
    && tensors.Keys == present.Keys
    && forall a, d :: a in present && d in r.supported && present[a].Contains(d) ==> CellMeans(compute, r, tensors, a, d)
  }

  lemma SameInputs<V>(compute: Compute<V>, present: map<nat, Operand>, r: Runner, tensors: Tensors<V>, op: Operator, d: Device)
    requires CellsMean(compute, present, r, tensors) && InputsPresent(present, op.inputs) && d in r.supported
    requires RunList(compute, Launched(r.streams, d)).Some?
    ensures InputTensors(RunList(compute, Launched(r.streams, d)).value, KernelFor(r.blobs, r.serial, op, d)) ==
      InputsOf(tensors, op, d)
  {
    var k, h := KernelFor(r.blobs, r.serial, op, d), RunList(compute, Launched(r.streams, d)).value;
    forall i | 0 <= i < |op.inputs|
      ensures InputTensors(h, k)[i] == InputOf(tensors, op.inputs[i], d)
    {
      assert op.inputs[i] in op.inputs;
      if op.inputs[i].Contains(d) {
        assert CellMeans(compute, r, tensors, op.inputs[i].addr, d);
      }
    }
  }

  lemma RunListSnoc<V>(compute: Compute<V>, kernels: seq<Kernel>, k: Kernel)
    requires RunList(compute, kernels).Some?
    ensures RunList(compute, kernels + [k]) == RunKernel(compute, RunList(compute, kernels).value, k)
  {
    assert (kernels + [k])[..|kernels|] == kernels;
  }

  /** Creating `op` changes the stream of `d` by at most its own kernel there, which fits behind the others. */
  lemma NextStream<V>(compute: Compute<V>, r: Runner, next: Runner, op: Operator, d: Device)
    requires AllOrderly(r.streams) && AllOrderly(next.streams) && Create(r, op) == Some(next)
    ensures RunList(compute, Launched(r.streams, d)).Some? && RunList(compute, Launched(next.streams, d)).Some?
    ensures d in op.keys && d in r.supported ==>
      var h, k := RunList(compute, Launched(r.streams, d)).value, KernelFor(r.blobs, r.serial, op, d);
      Fits(h.Keys, k) && RunList(compute, Launched(next.streams, d)) == RunKernel(compute, h, k)
    ensures !(d in op.keys && d in r.supported) ==> Launched(next.streams, d) == Launched(r.streams, d)
  {
    assert Orderly(Launched(r.streams, d)) && Orderly(Launched(next.streams, d));
    OrderlyRuns(compute, Launched(r.streams, d));
    OrderlyRuns(compute, Launched(next.streams, d));
    LaunchedNext(r, op, d);
    if d in op.keys && d in r.supported {
      AllWritesSnoc(Launched(r.streams, d), KernelFor(r.blobs, r.serial, op, d));
      RunListSnoc(compute, Launched(r.streams, d), KernelFor(r.blobs, r.serial, op, d));
    }
  }

  lemma OldCellMeans<V>(compute: Compute<V>, r: Runner, next: Runner, tensors: Tensors<V>, op: Operator, a: nat, d: Device)
    requires AllOrderly(r.streams) && AllOrderly(next.streams) && Create(r, op) == Some(next)
    requires CellMeans(compute, r, tensors, a, d) && a !in Addrs(op.outputs)
    ensures CellMeans(compute, next, WithOutputs(compute, r.supported, tensors, op, |op.outputs|), a, d)
  {
    OldOutput(r.blobs, r.serial, op.outputs, a);
    OtherMeaning(compute, r.supported, tensors, op, |op.outputs|, a);
    NextStream(compute, r, next, op, d);
    if d in op.keys && d in r.supported {
      var h, k := RunList(compute, Launched(r.streams, d)).value, KernelFor(r.blobs, r.serial, op, d);
      SetOthers(compute, h, k, InputTensors(h, k), |k.outputs|, r.blobs[a][d.id]);
    }
  }

  lemma NewCellMeans<V>(compute: Compute<V>, present: map<nat, Operand>, r: Runner, next: Runner, tensors: Tensors<V>,
                        op: Operator, i: nat, d: Device)
    requires AllOrderly(r.streams) && AllOrderly(next.streams) && Create(r, op) == Some(next)
    requires CellsMean(compute, present, r, tensors) && InputsPresent(present, op.inputs) && Assigned(op)
    requires i < |op.outputs| && op.outputs[i].Contains(d) && d in r.supported
    ensures CellMeans(compute, next, WithOutputs(compute, r.supported, tensors, op, |op.outputs|), op.outputs[i].addr, d)
  {
    assert op.outputs[i] in op.outputs && Device(op.outputs[i].kind, d.id) == d;
    NextStream(compute, r, next, op, d);
    var h, k := RunList(compute, Launched(r.streams, d)).value, KernelFor(r.blobs, r.serial, op, d);
    SameInputs(compute, present, r, tensors, op, d);
    KernelOutputs(r, op, d);
    OutputSet(compute, h, k, InputTensors(h, k), |k.outputs|, i);
    NewOutput(r.blobs, r.serial, op.outputs, i);
    OutputMeaning(compute, r.supported, tensors, op, |op.outputs|, i);
  }

  lemma {:induction false} MeaningKeys<V>(compute: Compute<V>, supported: set<Device>, before: Tensors<V>, op: Operator, n: nat)
    requires n <= |op.outputs|
    ensures WithOutputs(compute, supported, before, op, n).Keys == before.Keys + Addrs(op.outputs[..n])
  {
    if n > 0 {
      MeaningKeys(compute, supported, before, op, n - 1);
      assert op.outputs[..n] == op.outputs[..n - 1] + [op.outputs[n - 1]];
      assert Addrs(op.outputs[..n]) == Addrs(op.outputs[..n - 1]) + {op.outputs[n - 1].addr};
    }
  }

  lemma MeansCreate<V>(compute: Compute<V>, present: map<nat, Operand>, r: Runner, next: Runner, tensors: Tensors<V>, op: Operator)
    requires AllOrderly(r.streams) && AllOrderly(next.streams) && Create(r, op) == Some(next) && Assigned(op)
    requires CellsMean(compute, present, r, tensors) && TrackOne(present, AddOperator(op)).Some?
    ensures CellsMean(compute, AddPresent(present, op.outputs), next,
                      WithOutputs(compute, r.supported, tensors, op, |op.outputs|))
  {
    PresentKeys(present, op.outputs);
    MeaningKeys(compute, r.supported, tensors, op, |op.outputs|);
    assert op.outputs[..|op.outputs|] == op.outputs;
    forall a, d | a in AddPresent(present, op.outputs) && d in next.supported && AddPresent(present, op.outputs)[a].Contains(d)
      ensures CellMeans(compute, next, WithOutputs(compute, r.supported, tensors, op, |op.outputs|), a, d)
    {
      PresentAt(present, op.outputs, a);
      if a in Addrs(op.outputs) {
        var i :| 0 <= i < |op.outputs| && op.outputs[i].addr == a;
        NewCellMeans(compute, present, r, next, tensors, op, i, d);
      } else {
        OldCellMeans(compute, r, next, tensors, op, a, d);
      }
    }
  }

  lemma MeansDelete<V>(compute: Compute<V>, present: map<nat, Operand>, r: Runner, tensors: Tensors<V>, a: nat)
    requires CellsMean(compute, present, r, tensors)
    ensures CellsMean(compute, present - {a}, r.(blobs := r.blobs - {a}), tensors - {a})
  {
    var s := r.(blobs := r.blobs - {a});
    forall c, d | c in present - {a} && d in s.supported && (present - {a})[c].Contains(d)
      ensures CellMeans(compute, s, tensors - {a}, c, d)
    {
      assert CellMeans(compute, r, tensors, c, d);
    }
  }

  /** A runner told of the messages one at a time: running each stream on its own gives every operand that is
    * there, on each of its devices, the tensor the interpreter gives it. */
  lemma {:induction false} ReplayMeans<V>(compute: Compute<V>, supported: set<Device>, msgs: seq<Message>)
    requires Track(map[], msgs).Some? && AllAssigned(msgs)
    ensures Replay(EmptyRunner(supported), msgs).Some?
    ensures CellsMean(compute, Track(map[], msgs).value, Replay(EmptyRunner(supported), msgs).value,
                      Meaning(compute, supported, msgs))
  {
    StreamsOrderly(supported, msgs);
    SupportedKept(EmptyRunner(supported), msgs);
    if msgs != [] {
      var front, m := msgs[..|msgs| - 1], msgs[|msgs| - 1];
      assert msgs == front + [m] && m in msgs;
      assert AllAssigned(front);
      ReplayMeans(compute, supported, front);
      StreamsOrderly(supported, front);
      SupportedKept(EmptyRunner(supported), front);
      var present, r := Track(map[], front).value, Replay(EmptyRunner(supported), front).value;
      match m {
        case AddOperator(op) =>
          MeansCreate(compute, present, r, Replay(EmptyRunner(supported), msgs).value, Meaning(compute, supported, front), op);
        case NoHold(a) => MeansDelete(compute, present, r, Meaning(compute, supported, front), a);
        case SetOperandName(_, _) =>
      }
    }
  }

  /** The interpreter has an operand's tensors for exactly its devices on this node. */
  lemma {:induction false} MeaningDevices<V>(compute: Compute<V>, supported: set<Device>, msgs: seq<Message>)
    requires Track(map[], msgs).Some?
    ensures Meaning(compute, supported, msgs).Keys == Track(map[], msgs).value.Keys
    ensures forall a :: a in Track(map[], msgs).value ==>
      a in Meaning(compute, supported, msgs) &&
      Meaning(compute, supported, msgs)[a].Keys == DevicesHere(supported, Track(map[], msgs).value[a])
  {
    if msgs != [] {
      var front, m := msgs[..|msgs| - 1], msgs[|msgs| - 1];
      MeaningDevices(compute, supported, front);
      if m.AddOperator? {
        DevicesNext(compute, supported, Track(map[], front).value, Meaning(compute, supported, front), m.op);
      }
    }
  }

  lemma DevicesNext<V>(compute: Compute<V>, supported: set<Device>, present: map<nat, Operand>, tensors: Tensors<V>, op: Operator)
    requires DistinctAddrs(op.outputs) && tensors.Keys == present.Keys
    requires forall a :: a in present ==> a in tensors && tensors[a].Keys == DevicesHere(supported, present[a])
    ensures WithOutputs(compute, supported, tensors, op, |op.outputs|).Keys == AddPresent(present, op.outputs).Keys
    ensures forall a :: a in AddPresent(present, op.outputs) ==>
      a in WithOutputs(compute, supported, tensors, op, |op.outputs|) &&
      WithOutputs(compute, supported, tensors, op, |op.outputs|)[a].Keys ==
        DevicesHere(supported, AddPresent(present, op.outputs)[a])
  {
    MeaningKeys(compute, supported, tensors, op, |op.outputs|);
    PresentKeys(present, op.outputs);
    assert op.outputs[..|op.outputs|] == op.outputs;
    forall a | a in AddPresent(present, op.outputs)
      ensures a in WithOutputs(compute, supported, tensors, op, |op.outputs|)
      ensures WithOutputs(compute, supported, tensors, op, |op.outputs|)[a].Keys ==
        DevicesHere(supported, AddPresent(present, op.outputs)[a])
    {
      PresentAt(present, op.outputs, a);
      if a in Addrs(op.outputs) {
        var i :| 0 <= i < |op.outputs| && op.outputs[i].addr == a;
        OutputMeaning(compute, supported, tensors, op, |op.outputs|, i);
      } else {
        OtherMeaning(compute, supported, tensors, op, |op.outputs|, a);
      }
    }
  }

  /** What the interpreter does with an operator: output `i` on device `d` is computed from what the inputs hold
    * there; every other operand keeps its tensors. */
  lemma MeaningOfSend<V>(compute: Compute<V>, supported: set<Device>, msgs: seq<Message>, op: Operator, i: nat, d: Device,
                         args: seq<Option<V>>, a: nat)
    requires DistinctAddrs(op.outputs) && i < |op.outputs| && d in supported
    requires op.outputs[i].kind == d.kind && d.id in op.outputs[i].ids
    requires |args| == |op.inputs|
    requires var before := Meaning(compute, supported, msgs);
      forall j :: 0 <= j < |args| ==>
        var x := op.inputs[j];
        if !x.isNull && x.kind == d.kind && d.id in x.ids
        then x.addr in before && d in before[x.addr] && args[j] == Some(before[x.addr][d])
        else args[j] == None
    ensures var before, after := Meaning(compute, supported, msgs), Meaning(compute, supported, msgs + [AddOperator(op)]);
      && op.outputs[i].addr in after && d in after[op.outputs[i].addr]
      && after[op.outputs[i].addr][d] == compute(op, d, args, i)
      && ((forall x :: x in op.outputs ==> x.addr != a) ==> (a in after <==> a in before) && (a in before ==> after[a] == before[a]))
  {
    var before := Meaning(compute, supported, msgs);
    assert (msgs + [AddOperator(op)])[..|msgs|] == msgs;
    assert InputsOf(before, op, d) == args;
    OutputMeaning(compute, supported, before, op, |op.outputs|, i);
    if forall x :: x in op.outputs ==> x.addr != a {
      OtherMeaning(compute, supported, before, op, |op.outputs|, a);
    }
  }

  /** The events of the pipeline among all events. */
  function PipeEvents(evs: seq<WholeEvent>): (r: seq<Event>) {
    if evs == [] then []
    else PipeEvents(evs[..|evs| - 1]) + if evs[|evs| - 1].Pipe? then [evs[|evs| - 1].ev] else []
  }

  lemma {:induction false} PipeRuns<V>(compute: Compute<V>, supported: set<Device>, evs: seq<WholeEvent>)
    requires WholeCanHappen(compute, WholeInit(supported), evs) && WholeRun(compute, WholeInit(supported), evs).Some?
    ensures CanHappen(Init(supported), PipeEvents(evs))
    ensures Run(Init(supported), PipeEvents(evs)) == Some(WholeRun(compute, WholeInit(supported), evs).value.sys)
  {
    if evs != [] {
      var front, ev := evs[..|evs| - 1], evs[|evs| - 1];
      PipeRuns(compute, supported, front);
      if ev.Pipe? {
        RunSnoc(Init(supported), PipeEvents(front), ev.ev);
      } else {
        assert PipeEvents(front) + [] == PipeEvents(front);
      }
    }
  }

  /** The tensor of operand `a` on device `d` is set, and is what the interpreter computes from the messages. */
  ghost predicate TensorRight<V>(compute: Compute<V>, supported: set<Device>, msgs: seq<Message>, w: Whole<V>, a: nat, d: Device) {
    var r := w.sys.exec.runner;
    && a in r.blobs && d.id in r.blobs[a] && r.blobs[a][d.id] in w.heap
    && a in Meaning(compute, supported, msgs) && d in Meaning(compute, supported, msgs)[a]
    && w.heap[r.blobs[a][d.id]] == Meaning(compute, supported, msgs)[a][d]
  }

  ghost predicate AllTensorsRight<V>(compute: Compute<V>, supported: set<Device>, msgs: seq<Message>, w: Whole<V>) {
    && w.sys.exec.runner.blobs.Keys == Meaning(compute, supported, msgs).Keys
    && forall a, d :: a in Meaning(compute, supported, msgs) && d in Meaning(compute, supported, msgs)[a] ==>
         TensorRight(compute, supported, msgs, w, a, d)
  }

  /** End to end: in every interleaving of the API thread, the executor thread, its batches and the stream
    * threads. What the finished batches consist of is a first part of what the API thread's events send, in the
    * order they were sent. And once the launched kernels have run, the runner has exactly the operands that
    * interpreting these messages leaves, and each of them holds on each of its devices the tensor that the
    * interpreter gives it. */
  lemma PipelineComputesMeaning<V>(compute: Compute<V>, supported: set<Device>, evs: seq<WholeEvent>)
    requires WholeCanHappen(compute, WholeInit(supported), evs)
    ensures WholeRun(compute, WholeInit(supported), evs).Some?
    ensures var w, sent := WholeRun(compute, WholeInit(supported), evs).value, Sent(PipeEvents(evs));
      && w.sys.log + w.sys.batch + w.sys.queue == sent
      && Track(map[], sent).Some?
      && (AllRan(w) ==> AllTensorsRight(compute, supported, sent[..|w.sys.log|], w))
  {
    NoKernelFails(compute, supported, evs);
    PipeRuns(compute, supported, evs);
    HistoryIsSent(supported, PipeEvents(evs));
    SameSupported(supported, PipeEvents(evs));
    var w, sent := WholeRun(compute, WholeInit(supported), evs).value, Sent(PipeEvents(evs));
    assert sent[..|w.sys.log|] == w.sys.log;
    if AllRan(w) {
      LogMeans(compute, supported, evs);
    }
  }

  lemma LogMeans<V>(compute: Compute<V>, supported: set<Device>, evs: seq<WholeEvent>)
    requires WholeCanHappen(compute, WholeInit(supported), evs) && WholeRun(compute, WholeInit(supported), evs).Some?
    requires WholeRun(compute, WholeInit(supported), evs).value.sys.exec.runner.supported == supported
    requires AllRan(WholeRun(compute, WholeInit(supported), evs).value)
    ensures var w := WholeRun(compute, WholeInit(supported), evs).value; AllTensorsRight(compute, supported, w.sys.log, w)
  {
    NoKernelFails(compute, supported, evs);
    Confluence(compute, supported, evs);
    var w := WholeRun(compute, WholeInit(supported), evs).value;
    var r, log := w.sys.exec.runner, w.sys.log;
    forall m | m in log && m.AddOperator?
      ensures Assigned(m.op)
    {
      assert m in History(w.sys);
    }
    ReplayMeans(compute, supported, log);
    TrackReplay(map[], EmptyRunner(supported), log);
    MeaningDevices(compute, supported, log);
    forall a, d | a in Meaning(compute, supported, log) && d in Meaning(compute, supported, log)[a]
      ensures TensorRight(compute, supported, log, w, a, d)
    {
      assert CellMeans(compute, r, Meaning(compute, supported, log), a, d);
      assert ProgramOrderResult(compute, w, d);
    }
  }
}

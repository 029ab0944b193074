/** Running the streams: write-once cells, one thread per stream, any interleaving. */
module StreamRuns {
  import opened Wrappers
  import opened Operators
  import opened Runners
  import opened Batching
  import opened GraphExecutor
  import opened Pipeline
  import opened PipelineSafety
  import opened Streams

  /** What an operator computes on one device: the tensor of its i-th output from its input tensors. */
  type Compute<!V> = (Operator, Device, seq<Option<V>>, nat) -> V

  /** The cells that are set. */
  type Heap<V> = map<Blob, V>

  function InputTensors<V>(heap: Heap<V>, k: Kernel): (r: seq<Option<V>>) {
    seq(|k.inputs|, i requires 0 <= i < |k.inputs| =>
      if k.inputs[i].Some? && k.inputs[i].value in heap then Some(heap[k.inputs[i].value]) else None)
  }

  /** The cells after the first `n` outputs of `k` are set. */
  function SetOutputs<V>(compute: Compute<V>, heap: Heap<V>, k: Kernel, ins: seq<Option<V>>, n: nat): (r: Heap<V>)
    requires n <= |k.outputs|
  {
    if n == 0 then heap
    else
      var rest := SetOutputs(compute, heap, k, ins, n - 1);
      if k.outputs[n - 1].None? then rest else rest[k.outputs[n - 1].value := compute(k.op, k.device, ins, n - 1)]
  }

  /** One run of a kernel; none if it finds an input cell empty or an output cell set. */
  function RunKernel<V>(compute: Compute<V>, heap: Heap<V>, k: Kernel): (r: Option<Heap<V>>) {
    if Fits(heap.Keys, k) then Some(SetOutputs(compute, heap, k, InputTensors(heap, k), |k.outputs|)) else None
  }

  /** The reference: the kernels of a list, in order, on cells of their own. */
  function RunList<V>(compute: Compute<V>, kernels: seq<Kernel>): (r: Option<Heap<V>>) {
    if kernels == [] then Some(map[])
    else
      match RunList(compute, kernels[..|kernels| - 1])
      case None => None
      case Some(h) => RunKernel(compute, h, kernels[|kernels| - 1])
  }

  lemma {:induction false} SetKeys<V>(compute: Compute<V>, heap: Heap<V>, k: Kernel, ins: seq<Option<V>>, n: nat)
    requires n <= |k.outputs|
    ensures SetOutputs(compute, heap, k, ins, n).Keys == heap.Keys + set o | o in k.outputs[..n] && o.Some? :: o.value
  {
    if n > 0 {
      SetKeys(compute, heap, k, ins, n - 1);
      assert k.outputs[..n] == k.outputs[..n - 1] + [k.outputs[n - 1]];
    }
  }

  lemma RunKeys<V>(compute: Compute<V>, heap: Heap<V>, k: Kernel)
    requires Fits(heap.Keys, k)
    ensures RunKernel(compute, heap, k).value.Keys == heap.Keys + Writes(k)
  {
    SetKeys(compute, heap, k, InputTensors(heap, k), |k.outputs|);
    assert k.outputs[..|k.outputs|] == k.outputs;
  }

  /** Each output cell is still empty when its turn comes. */
  lemma OutputStillEmpty<V>(compute: Compute<V>, heap: Heap<V>, k: Kernel, ins: seq<Option<V>>, n: nat)
    requires Fits(heap.Keys, k) && n < |k.outputs| && k.outputs[n].Some?
    ensures k.outputs[n].value !in SetOutputs(compute, heap, k, ins, n)
  {
    SetKeys(compute, heap, k, ins, n);
    assert k.outputs[n].value in Writes(k);
    forall i | 0 <= i < n && k.outputs[i].Some?
      ensures k.outputs[i] != k.outputs[n]
    {
    }
  }

  /** The write-once cells. */
  class Blobs<V> {
    var mTensors: Heap<V>

    constructor ()
      ensures mTensors == map[]
    {
      mTensors := map[];
    }

    method SetTensor(b: Blob, tensor: V)
      requires b !in mTensors
      modifies this
      ensures mTensors == old(mTensors)[b := tensor]
    {
      mTensors := mTensors[b := tensor];
    }

    method GetTensor(b: Blob) returns (tensor: V)
      requires b in mTensors
      ensures tensor == mTensors[b]
    {
      tensor := mTensors[b];
    }

    /** Runs one kernel: reads all inputs, computes, sets the outputs one after the other. */
    method Run(compute: Compute<V>, k: Kernel)
      requires Fits(mTensors.Keys, k)
      modifies this
      ensures RunKernel(compute, old(mTensors), k) == Some(mTensors)
    {
      ghost var heap := mTensors;
      var inputs: seq<Option<V>> := [];
      for i := 0 to |k.inputs|
        invariant mTensors == heap
        invariant inputs == InputTensors(heap, k)[..i]
      {
        if k.inputs[i].None? {
          inputs := inputs + [None];
        } else {
          assert k.inputs[i].value in Reads(k);
          var tensor := GetTensor(k.inputs[i].value);
          inputs := inputs + [Some(tensor)];
        }
      }
      assert inputs == InputTensors(heap, k);
      for i := 0 to |k.outputs|
        invariant mTensors == SetOutputs(compute, heap, k, inputs, i)
      {
        if k.outputs[i].Some? {
          OutputStillEmpty(compute, heap, k, inputs, i);
          SetTensor(k.outputs[i].value, compute(k.op, k.device, inputs, i));
        }
      }
    }
  }

  /** An orderly stream run on its own never fails and sets exactly what its kernels write. */
  lemma {:induction false} OrderlyRuns<V>(compute: Compute<V>, kernels: seq<Kernel>)
    requires Orderly(kernels)
    ensures RunList(compute, kernels).Some? && RunList(compute, kernels).value.Keys == AllWrites(kernels)
  {
    if kernels != [] {
      var front := kernels[..|kernels| - 1];
      OrderlyRuns(compute, front);
      RunKeys(compute, RunList(compute, front).value, kernels[|kernels| - 1]);
    }
  }

  lemma {:induction false} OrderlyPrefix(kernels: seq<Kernel>, n: nat)
    requires Orderly(kernels) && n <= |kernels|
    ensures Orderly(kernels[..n]) && AllWrites(kernels[..n]) <= AllWrites(kernels)
    ensures n < |kernels| ==> Fits(AllWrites(kernels[..n]), kernels[n])
    decreases |kernels|
  {
    if n < |kernels| {
      var front := kernels[..|kernels| - 1];
      OrderlyPrefix(front, n);
      assert front[..n] == kernels[..n];
    } else {
      assert kernels[..n] == kernels;
    }
  }

  /** `part` is contained in `whole`. */
  ghost predicate Within<V>(part: Heap<V>, whole: Heap<V>) {
    forall b :: b in part ==> b in whole && whole[b] == part[b]
  }

  lemma {:induction false} SetWithin<V>(compute: Compute<V>, part: Heap<V>, whole: Heap<V>, k: Kernel, ins: seq<Option<V>>, n: nat)
    requires n <= |k.outputs| && Within(part, whole)
    ensures Within(SetOutputs(compute, part, k, ins, n), SetOutputs(compute, whole, k, ins, n))
  {
    if n > 0 {
      SetWithin(compute, part, whole, k, ins, n - 1);
    }
  }

  /** A kernel sees and does the same on its own stream's cells and on all cells. */
  lemma RunWithin<V>(compute: Compute<V>, part: Heap<V>, whole: Heap<V>, k: Kernel)
    requires Within(part, whole) && Fits(part.Keys, k) && Fits(whole.Keys, k)
    ensures Within(RunKernel(compute, part, k).value, RunKernel(compute, whole, k).value)
  {
    forall i | 0 <= i < |k.inputs|
      ensures InputTensors(part, k)[i] == InputTensors(whole, k)[i]
    {
      if k.inputs[i].Some? {
        assert k.inputs[i].value in Reads(k);
      }
    }
    assert InputTensors(part, k) == InputTensors(whole, k);
    SetWithin(compute, part, whole, k, InputTensors(part, k), |k.outputs|);
  }

  lemma {:induction false} SetOthers<V>(compute: Compute<V>, heap: Heap<V>, k: Kernel, ins: seq<Option<V>>, n: nat, b: Blob)
    requires n <= |k.outputs| && b in heap && b !in Writes(k)
    ensures b in SetOutputs(compute, heap, k, ins, n) && SetOutputs(compute, heap, k, ins, n)[b] == heap[b]
  {
    if n > 0 {
      SetOthers(compute, heap, k, ins, n - 1, b);
      assert k.outputs[n - 1].Some? ==> k.outputs[n - 1].value in Writes(k);
    }
  }

  lemma RunKeepsOthers<V>(compute: Compute<V>, part: Heap<V>, whole: Heap<V>, k: Kernel)
    requires Within(part, whole) && Fits(whole.Keys, k)
    ensures Within(part, RunKernel(compute, whole, k).value)
  {
    forall b | b in part
      ensures b in RunKernel(compute, whole, k).value && RunKernel(compute, whole, k).value[b] == part[b]
    {
      SetOthers(compute, whole, k, InputTensors(whole, k), |k.outputs|, b);
    }
  }

  // The pipeline together with its stream threads.

  datatype Whole<V> = Whole(sys: System, ran: map<Device, nat>, heap: Heap<V>)

  /** A step of the pipeline, or the thread of one stream running its next kernel. */
  datatype WholeEvent = Pipe(ev: Event) | RunNext(d: Device)

  function Ran(ran: map<Device, nat>, d: Device): (r: nat) {
    if d in ran then ran[d] else 0
  }

  function Queue<V>(w: Whole<V>, d: Device): (r: seq<Kernel>) {
    Launched(w.sys.exec.runner.streams, d)
  }

  function WholeInit<V>(supported: set<Device>): (w: Whole<V>) {
    Whole(Init(supported), map[], map[])
  }

  predicate WholeEnabled<V>(w: Whole<V>, ev: WholeEvent) {
    match ev
    case Pipe(e) => Enabled(w.sys, e) && (e.Send? ==> Assigned(e.op))
    case RunNext(d) => Ran(w.ran, d) < |Queue(w, d)|
  }

  function WholeStep<V>(compute: Compute<V>, w: Whole<V>, ev: WholeEvent): (next: Option<Whole<V>>)
    requires WholeEnabled(w, ev)
  {
    match ev
    case Pipe(e) =>
      (match Step(w.sys, e)
       case None => None
       case Some(s) => Some(w.(sys := s)))
    case RunNext(d) =>
      (match RunKernel(compute, w.heap, Queue(w, d)[Ran(w.ran, d)])
       case None => None
       case Some(h) => Some(w.(heap := h, ran := w.ran[d := Ran(w.ran, d) + 1])))
  }

  /** The cells of stream `d` are those of running its first kernels in program order. */
  ghost predicate StreamRight<V>(compute: Compute<V>, kernels: seq<Kernel>, n: nat, heap: Heap<V>) {
    && n <= |kernels|
    && RunList(compute, kernels[..n]).Some?
    && Within(RunList(compute, kernels[..n]).value, heap)
  }

  ghost predicate WrittenSoFar<V>(w: Whole<V>, b: Blob, d: Device) {
    Ran(w.ran, d) <= |Queue(w, d)| && b in AllWrites(Queue(w, d)[..Ran(w.ran, d)])
  }

  ghost predicate HeapRight<V>(compute: Compute<V>, w: Whole<V>) {
    && (forall d :: StreamRight(compute, Queue(w, d), Ran(w.ran, d), w.heap))
    && (forall b :: b in w.heap ==> exists d :: WrittenSoFar(w, b, d))
  }

  ghost predicate WholeInv<V>(compute: Compute<V>, w: Whole<V>) {
    && Inv(w.sys)
    && AllAssigned(History(w.sys))
    && HeapRight(compute, w)
  }

  lemma LogOrderly<V>(compute: Compute<V>, w: Whole<V>)
    requires WholeInv(compute, w)
    ensures AllOrderly(w.sys.exec.runner.streams) && Owned(Kinds(w.sys.log), w.sys.exec.runner.streams)
  {
    var s := w.sys;
    forall m | m in s.log && m.AddOperator?
      ensures Assigned(m.op)
    {
      assert m in History(s);
    }
    StreamsOrderly(s.exec.runner.supported, s.log);
  }

  /** The next kernel of a stream finds its inputs set and its outputs empty. */
  lemma NextFits<V>(compute: Compute<V>, w: Whole<V>, d: Device)
    requires WholeInv(compute, w) && Ran(w.ran, d) < |Queue(w, d)|
    ensures var k := Queue(w, d)[Ran(w.ran, d)];
      && Fits(w.heap.Keys, k)
      && Fits(AllWrites(Queue(w, d)[..Ran(w.ran, d)]), k)
      && RunList(compute, Queue(w, d)[..Ran(w.ran, d)]).Some?
      && RunList(compute, Queue(w, d)[..Ran(w.ran, d)]).value.Keys == AllWrites(Queue(w, d)[..Ran(w.ran, d)])
  {
    LogOrderly(compute, w);
    var ks, n := Queue(w, d), Ran(w.ran, d);
    var k := ks[n];
    assert Orderly(ks);
    OrderlyPrefix(ks, n);
    OrderlyRuns(compute, ks[..n]);
    assert StreamRight(compute, ks, n, w.heap);
    forall b | b in w.heap
      ensures b !in Writes(k)
    {
      var e :| WrittenSoFar(w, b, e);
      if e != d {
        assert Orderly(Queue(w, e));
        OrderlyPrefix(Queue(w, e), Ran(w.ran, e));
        assert OwnedBy(Kinds(w.sys.log), b, e);
        WriteInAll(ks, n);
        assert b in Writes(k) ==> OwnedBy(Kinds(w.sys.log), b, d);
      }
    }
  }

  lemma WriteInAll(kernels: seq<Kernel>, n: nat)
    requires n < |kernels| && Orderly(kernels)
    ensures Writes(kernels[n]) <= AllWrites(kernels)
  {
    OrderlyPrefix(kernels, n + 1);
    assert kernels[..n + 1][..n] == kernels[..n];
  }

  lemma RunNextRight<V>(compute: Compute<V>, w: Whole<V>, d: Device, e: Device, h: Heap<V>)
    requires WholeInv(compute, w) && Ran(w.ran, d) < |Queue(w, d)|
    requires RunKernel(compute, w.heap, Queue(w, d)[Ran(w.ran, d)]) == Some(h)
    ensures StreamRight(compute, Queue(w, e), Ran(w.ran[d := Ran(w.ran, d) + 1], e), h)
  {
    var ks, n := Queue(w, d), Ran(w.ran, d);
    NextFits(compute, w, d);
    assert StreamRight(compute, Queue(w, e), Ran(w.ran, e), w.heap);
    var own := RunList(compute, Queue(w, e)[..Ran(w.ran, e)]).value;
    if e == d {
      RunWithin(compute, own, w.heap, ks[n]);
      assert ks[..n + 1][..n] == ks[..n];
    } else {
      RunKeepsOthers(compute, own, w.heap, ks[n]);
    }
  }

  /** Whatever is set after the next kernel of `d` has been written so far. */
  lemma RunNextCovers<V>(w: Whole<V>, v: Whole<V>, d: Device, b: Blob)
    requires v.sys == w.sys && v.ran == w.ran[d := Ran(w.ran, d) + 1]
    requires forall c :: c in w.heap ==> exists e :: WrittenSoFar(w, c, e)
    requires Ran(w.ran, d) < |Queue(w, d)|
    requires b in w.heap || b in Writes(Queue(w, d)[Ran(w.ran, d)])
    ensures exists e :: WrittenSoFar(v, b, e)
  {
    var ks, n := Queue(w, d), Ran(w.ran, d);
    assert ks[..n + 1][..n] == ks[..n];
    if b in w.heap {
      var e :| WrittenSoFar(w, b, e);
      assert WrittenSoFar(v, b, e);
    } else {
      assert WrittenSoFar(v, b, d);
    }
  }

  lemma RunNextHeap<V>(compute: Compute<V>, w: Whole<V>, d: Device, h: Heap<V>)
    requires WholeInv(compute, w) && Ran(w.ran, d) < |Queue(w, d)|
    requires RunKernel(compute, w.heap, Queue(w, d)[Ran(w.ran, d)]) == Some(h)
    ensures HeapRight(compute, w.(heap := h, ran := w.ran[d := Ran(w.ran, d) + 1]))
  {
    var v := w.(heap := h, ran := w.ran[d := Ran(w.ran, d) + 1]);
    forall e
      ensures StreamRight(compute, Queue(v, e), Ran(v.ran, e), v.heap)
    {
      RunNextRight(compute, w, d, e, h);
    }
    RunKeys(compute, w.heap, Queue(w, d)[Ran(w.ran, d)]);
    forall b | b in v.heap
      ensures exists e :: WrittenSoFar(v, b, e)
    {
      RunNextCovers(w, v, d, b);
    }
  }

  lemma RunNextSafe<V>(compute: Compute<V>, w: Whole<V>, d: Device)
    requires WholeInv(compute, w) && WholeEnabled(w, RunNext(d))
    ensures WholeStep(compute, w, RunNext(d)).Some? && WholeInv(compute, WholeStep(compute, w, RunNext(d)).value)
  {
    NextFits(compute, w, d);
    RunNextHeap(compute, w, d, RunKernel(compute, w.heap, Queue(w, d)[Ran(w.ran, d)]).value);
  }

  lemma {:induction false} ReplayExtends(r: Runner, msgs: seq<Message>, d: Device)
    requires Replay(r, msgs).Some?
    ensures Launched(r.streams, d) <= Launched(Replay(r, msgs).value.streams, d)
  {
    if msgs != [] {
      ReplayExtends(r, msgs[..|msgs| - 1], d);
    }
  }

  /** A step of the pipeline only makes streams longer. */
  lemma PipeExtends(s: System, ev: Event, d: Device)
    requires Inv(s) && Enabled(s, ev) && Step(s, ev).Some?
    ensures Launched(s.exec.runner.streams, d) <= Launched(Step(s, ev).value.exec.runner.streams, d)
  {
    if ev.ExecuteBatch? {
      ExecuteRefines(s);
      ReplayConcat(EmptyRunner(s.exec.runner.supported), s.log, s.batch);
      ReplayExtends(s.exec.runner, s.batch, d);
    } else {
      OnlyExecuteTouchesRunner(s, ev);
    }
  }

  /** The messages a step of the pipeline adds. */
  lemma PipeAssigned(s: System, ev: Event)
    requires Enabled(s, ev) && Step(s, ev).Some? && AllAssigned(History(s)) && (ev.Send? ==> Assigned(ev.op))
    ensures AllAssigned(History(Step(s, ev).value))
  {
    var t := Step(s, ev).value;
    forall m | m in History(t) && m.AddOperator?
      ensures Assigned(m.op)
    {
      assert m in History(s) || (ev.Send? && m == AddOperator(ev.op));
    }
  }

  lemma PipeSafe<V>(compute: Compute<V>, w: Whole<V>, ev: Event)
    requires WholeInv(compute, w) && WholeEnabled(w, Pipe(ev))
    ensures WholeStep(compute, w, Pipe(ev)).Some? && WholeInv(compute, WholeStep(compute, w, Pipe(ev)).value)
  {
    StepSafe(w.sys, ev);
    PipeAssigned(w.sys, ev);
    var v := w.(sys := Step(w.sys, ev).value);
    HeapStays(compute, w, v, ev);
  }

  lemma HeapStays<V>(compute: Compute<V>, w: Whole<V>, v: Whole<V>, ev: Event)
    requires WholeInv(compute, w) && Enabled(w.sys, ev) && Step(w.sys, ev).Some? && v == w.(sys := Step(w.sys, ev).value)
    ensures HeapRight(compute, v)
  {
    forall d
      ensures Queue(w, d) <= Queue(v, d)
      ensures StreamRight(compute, Queue(v, d), Ran(v.ran, d), v.heap)
    {
      PipeExtends(w.sys, ev, d);
      assert StreamRight(compute, Queue(w, d), Ran(w.ran, d), w.heap);
      assert Queue(v, d)[..Ran(v.ran, d)] == Queue(w, d)[..Ran(w.ran, d)];
    }
    forall b | b in v.heap
      ensures exists d :: WrittenSoFar(v, b, d)
    {
      var d :| WrittenSoFar(w, b, d);
      assert Queue(v, d)[..Ran(v.ran, d)] == Queue(w, d)[..Ran(w.ran, d)];
      assert WrittenSoFar(v, b, d);
    }
  }

  function WholeRun<V>(compute: Compute<V>, w: Whole<V>, evs: seq<WholeEvent>): (r: Option<Whole<V>>) {
    if evs == [] then Some(w)
    else
      match WholeRun(compute, w, evs[..|evs| - 1])
      case None => None
      case Some(v) => if WholeEnabled(v, evs[|evs| - 1]) then WholeStep(compute, v, evs[|evs| - 1]) else None
  }

  /** Every event can happen where it does, as long as no assertion has failed before. */
  predicate WholeCanHappen<V>(compute: Compute<V>, w: Whole<V>, evs: seq<WholeEvent>) {
    if evs == [] then true
    else
      && WholeCanHappen(compute, w, evs[..|evs| - 1])
      && match WholeRun(compute, w, evs[..|evs| - 1])
         case None => true
         case Some(v) => WholeEnabled(v, evs[|evs| - 1])
  }

  lemma WholeInitInv<V>(compute: Compute<V>, supported: set<Device>)
    ensures WholeInv(compute, WholeInit(supported))
  {
    InitInv(supported);
    var w: Whole<V> := WholeInit(supported);
    forall d
      ensures StreamRight(compute, Queue(w, d), Ran(w.ran, d), w.heap)
    {
      assert Queue(w, d)[..0] == [];
    }
  }

  /** In no interleaving of the pipeline and the stream threads does any assertion fail: no kernel finds
    * an empty input cell and no cell is set twice. */
  lemma {:induction false} NoKernelFails<V>(compute: Compute<V>, supported: set<Device>, evs: seq<WholeEvent>)
    requires WholeCanHappen(compute, WholeInit(supported), evs)
    ensures WholeRun(compute, WholeInit(supported), evs).Some?
    ensures WholeInv(compute, WholeRun(compute, WholeInit(supported), evs).value)
  {
    if evs == [] {
      WholeInitInv(compute, supported);
    } else {
      NoKernelFails(compute, supported, evs[..|evs| - 1]);
      var w := WholeRun(compute, WholeInit(supported), evs[..|evs| - 1]).value;
      match evs[|evs| - 1] {
        case Pipe(ev) => PipeSafe(compute, w, ev);
        case RunNext(d) => RunNextSafe(compute, w, d);
      }
    }
  }

  /** Every kernel launched so far has run. */
  ghost predicate AllRan<V>(w: Whole<V>) {
    forall d :: Ran(w.ran, d) == |Queue(w, d)|
  }

  /** What `d` is left with is exactly its program-order result. */
  ghost predicate ProgramOrderResult<V>(compute: Compute<V>, w: Whole<V>, d: Device) {
    && RunList(compute, Queue(w, d)).Some?
    && RunList(compute, Queue(w, d)).value.Keys == AllWrites(Queue(w, d))
    && Within(RunList(compute, Queue(w, d)).value, w.heap)
  }

  /** However the streams were interleaved, once all have run every device has its program-order result,
    * and nothing else is set. */
  lemma Confluence<V>(compute: Compute<V>, supported: set<Device>, evs: seq<WholeEvent>)
    requires WholeCanHappen(compute, WholeInit(supported), evs)
    ensures WholeRun(compute, WholeInit(supported), evs).Some?
    ensures var w := WholeRun(compute, WholeInit(supported), evs).value;
      AllRan(w) ==>
        && (forall d :: ProgramOrderResult(compute, w, d))
        && (forall b :: b in w.heap ==> exists d :: b in AllWrites(Queue(w, d)))
  {
    NoKernelFails(compute, supported, evs);
    var w := WholeRun(compute, WholeInit(supported), evs).value;
    LogOrderly(compute, w);
    if AllRan(w) {
      forall d
        ensures ProgramOrderResult(compute, w, d)
      {
        assert Orderly(Queue(w, d));
        OrderlyRuns(compute, Queue(w, d));
        assert StreamRight(compute, Queue(w, d), Ran(w.ran, d), w.heap);
        assert Queue(w, d)[..Ran(w.ran, d)] == Queue(w, d);
      }
      forall b | b in w.heap
        ensures exists d :: b in AllWrites(Queue(w, d))
      {
        var d :| WrittenSoFar(w, b, d);
        assert Queue(w, d)[..Ran(w.ran, d)] == Queue(w, d);
      }
    }
  }

  /** Two runs that launched the same kernels per stream and ran them all set the same tensors. */
  lemma AnyOrderSameTensors<V>(compute: Compute<V>, supported: set<Device>, evs1: seq<WholeEvent>, evs2: seq<WholeEvent>)
    requires WholeCanHappen(compute, WholeInit(supported), evs1) && WholeCanHappen(compute, WholeInit(supported), evs2)
    ensures WholeRun(compute, WholeInit(supported), evs1).Some? && WholeRun(compute, WholeInit(supported), evs2).Some?
    ensures var w1, w2 := WholeRun(compute, WholeInit(supported), evs1).value, WholeRun(compute, WholeInit(supported), evs2).value;
      AllRan(w1) && AllRan(w2) && w1.sys.exec.runner.streams == w2.sys.exec.runner.streams ==> w1.heap == w2.heap
  {
    Confluence(compute, supported, evs1);
    Confluence(compute, supported, evs2);
    var w1, w2 := WholeRun(compute, WholeInit(supported), evs1).value, WholeRun(compute, WholeInit(supported), evs2).value;
    if AllRan(w1) && AllRan(w2) && w1.sys.exec.runner.streams == w2.sys.exec.runner.streams {
      SameResults(compute, w1, w2);
      SameResults(compute, w2, w1);
    }
  }

  lemma SameResults<V>(compute: Compute<V>, w1: Whole<V>, w2: Whole<V>)
    requires w1.sys.exec.runner.streams == w2.sys.exec.runner.streams
    requires forall d :: ProgramOrderResult(compute, w1, d)
    requires forall d :: ProgramOrderResult(compute, w2, d)
    requires forall b :: b in w1.heap ==> exists d :: b in AllWrites(Queue(w1, d))
    ensures Within(w1.heap, w2.heap)
  {
    forall b | b in w1.heap
      ensures b in w2.heap && w2.heap[b] == w1.heap[b]
    {
      var d :| b in AllWrites(Queue(w1, d));
      assert ProgramOrderResult(compute, w1, d) && ProgramOrderResult(compute, w2, d);
      assert b in RunList(compute, Queue(w1, d)).value;
    }
  }
}

/** Nothing sent is left undone: whatever state the pipeline is in, the executor thread and the stream threads by
  * themselves get everything executed. */
module Delivery {
  import opened Wrappers
  import opened Operators
  import opened Runners
  import opened Batching
  import opened GraphExecutor
  import opened Pipeline
  import opened PipelineSafety
  import opened Sending
  import opened Streams
  import opened StreamRuns
  import opened ProgramMeaning

  /** Going on from a state; none if some event cannot happen or an assertion fails. */
  function GoOn<V>(compute: Compute<V>, w: Whole<V>, more: seq<WholeEvent>): (r: Option<Whole<V>>)
    decreases |more|
  {
    if more == [] then Some(w)
    else if !WholeEnabled(w, more[0]) then None
    else
      match WholeStep(compute, w, more[0])
      case None => None
      case Some(v) => GoOn(compute, v, more[1..])
  }

  /** A step of the executor thread or of a stream thread. */
  predicate IsOwn(ev: WholeEvent) {
    ev.RunNext? || IsExecutorEvent(ev.ev)
  }

  lemma {:induction false} GoOnConcat<V>(compute: Compute<V>, w: Whole<V>, a: seq<WholeEvent>, v: Whole<V>, b: seq<WholeEvent>)
    requires GoOn(compute, w, a) == Some(v)
    ensures GoOn(compute, w, a + b) == GoOn(compute, v, b)
    decreases |a|
  {
    if a == [] {
      assert a + b == b;
    } else {
      assert (a + b)[0] == a[0] && (a + b)[1..] == a[1..] + b;
      GoOnConcat(compute, WholeStep(compute, w, a[0]).value, a[1..], v, b);
    }
  }

  /** Nothing queued, nothing collected, nothing to let go of. */
  predicate Done(s: System) {
    Quiet(s) && s.batch == []
  }

  /** The executor thread's next step. */
  lemma NextOwn<V>(compute: Compute<V>, w: Whole<V>) returns (ev: Event, v: Whole<V>)
    requires WholeInv(compute, w) && !Done(w.sys)
    ensures IsExecutorEvent(ev) && WholeEnabled(w, Pipe(ev)) && WholeStep(compute, w, Pipe(ev)) == Some(v)
    ensures WholeInv(compute, v)
    ensures Work(v.sys) < Work(w.sys) || (Work(v.sys) == Work(w.sys) && |v.sys.batch| < |w.sys.batch|)
  {
    var s := w.sys;
    ev := if s.exec.releasing != [] then Release else if s.queue != [] then ReceiveOne else Event.ExecuteBatch;
    PipeSafe(compute, w, ev);
    v := WholeStep(compute, w, Pipe(ev)).value;
    if !Quiet(s) {
      ExecutorProgress(s, ev);
    } else {
      ExecuteRefines(s);
      OpsOfBatch(s.exec, s.batch, s.queue);
    }
  }

  lemma {:induction false} ExecutorFinishes<V>(compute: Compute<V>, w: Whole<V>) returns (more: seq<WholeEvent>, v: Whole<V>)
    requires WholeInv(compute, w)
    ensures forall ev :: ev in more ==> IsOwn(ev)
    ensures GoOn(compute, w, more) == Some(v) && WholeInv(compute, v) && Done(v.sys)
    decreases Work(w.sys), |w.sys.batch|
  {
    if Done(w.sys) {
      return [], w;
    }
    var ev, next := NextOwn(compute, w);
    var rest;
    rest, v := ExecutorFinishes(compute, next);
    more := [Pipe(ev)] + rest;
    assert more[1..] == rest;
  }

  /** The thread of one stream runs all that is launched on it. */
  lemma {:induction false} StreamFinishes<V>(compute: Compute<V>, w: Whole<V>, d: Device) returns (more: seq<WholeEvent>, v: Whole<V>)
    requires WholeInv(compute, w)
    ensures forall ev :: ev in more ==> IsOwn(ev)
    ensures GoOn(compute, w, more) == Some(v) && WholeInv(compute, v) && v.sys == w.sys
    ensures Ran(v.ran, d) == |Queue(v, d)| && forall e :: e != d ==> Ran(v.ran, e) == Ran(w.ran, e)
    decreases |Queue(w, d)| - Ran(w.ran, d)
  {
    assert StreamRight(compute, Queue(w, d), Ran(w.ran, d), w.heap);
    if Ran(w.ran, d) == |Queue(w, d)| {
      return [], w;
    }
    RunNextSafe(compute, w, d);
    var next := WholeStep(compute, w, RunNext(d)).value;
    var rest;
    rest, v := StreamFinishes(compute, next, d);
    more := [RunNext(d)] + rest;
    assert more[1..] == rest;
  }

  lemma {:induction false} StreamsFinish<V>(compute: Compute<V>, w: Whole<V>, todo: set<Device>) returns (more: seq<WholeEvent>, v: Whole<V>)
    requires WholeInv(compute, w) && forall d :: d !in todo ==> Ran(w.ran, d) == |Queue(w, d)|
    ensures forall ev :: ev in more ==> IsOwn(ev)
    ensures GoOn(compute, w, more) == Some(v) && WholeInv(compute, v) && v.sys == w.sys && AllRan(v)
    decreases todo
  {
    if todo == {} {
      return [], w;
    }
    var d :| d in todo;
    var first, next := StreamFinishes(compute, w, d);
    var rest;
    rest, v := StreamsFinish(compute, next, todo - {d});
    GoOnConcat(compute, w, first, next, rest);
    more := first + rest;
  }

  lemma OthersHaveNothing<V>(compute: Compute<V>, w: Whole<V>, d: Device)
    requires WholeInv(compute, w) && d !in w.sys.exec.runner.streams
    ensures Ran(w.ran, d) == |Queue(w, d)|
  {
    assert StreamRight(compute, Queue(w, d), Ran(w.ran, d), w.heap);
  }

  /** The events can happen, and lead from one state to the other. */
  ghost predicate Leads<V>(compute: Compute<V>, start: Whole<V>, evs: seq<WholeEvent>, w: Whole<V>) {
    WholeCanHappen(compute, start, evs) && WholeRun(compute, start, evs) == Some(w)
  }

  lemma OneMore<V>(compute: Compute<V>, start: Whole<V>, evs: seq<WholeEvent>, w: Whole<V>, ev: WholeEvent, next: Whole<V>)
    requires Leads(compute, start, evs, w) && WholeEnabled(w, ev) && WholeStep(compute, w, ev) == Some(next)
    ensures Leads(compute, start, evs + [ev], next)
  {
    assert (evs + [ev])[..|evs|] == evs;
  }

  lemma FirstStep<V>(compute: Compute<V>, w: Whole<V>, more: seq<WholeEvent>, v: Whole<V>)
    returns (ev: WholeEvent, rest: seq<WholeEvent>, next: Whole<V>)
    requires more != [] && GoOn(compute, w, more) == Some(v)
    ensures more == [ev] + rest && WholeEnabled(w, ev) && WholeStep(compute, w, ev) == Some(next)
    ensures GoOn(compute, next, rest) == Some(v)
  {
    ev, rest, next := more[0], more[1..], WholeStep(compute, w, more[0]).value;
  }

  lemma Regrouped(evs: seq<WholeEvent>, ev: WholeEvent, rest: seq<WholeEvent>)
    ensures evs + ([ev] + rest) == (evs + [ev]) + rest && evs + [] == evs
  {
  }

  /** A run that goes on is a run. */
  lemma {:induction false} RunGoesOn<V>(compute: Compute<V>, start: Whole<V>, evs: seq<WholeEvent>, w: Whole<V>,
                                        more: seq<WholeEvent>, v: Whole<V>)
    requires Leads(compute, start, evs, w) && GoOn(compute, w, more) == Some(v)
    ensures Leads(compute, start, evs + more, v)
    decreases |more|
  {
    if more == [] {
      assert evs + more == evs;
    } else {
      var ev, rest, next := FirstStep(compute, w, more, v);
      OneMore(compute, start, evs, w, ev, next);
      RunGoesOn(compute, start, evs + [ev], next, rest, v);
      Regrouped(evs, ev, rest);
    }
  }

  lemma OwnSendsNothing(evs: seq<WholeEvent>, ev: WholeEvent)
    requires IsOwn(ev)
    ensures Sent(PipeEvents(evs + [ev])) == Sent(PipeEvents(evs))
  {
    assert (evs + [ev])[..|evs|] == evs;
    if ev.Pipe? {
      SentSnoc(PipeEvents(evs), ev.ev);
    } else {
      assert PipeEvents(evs) + [] == PipeEvents(evs);
    }
  }

  lemma SentSnoc(evs: seq<Event>, ev: Event)
    requires IsExecutorEvent(ev)
    ensures Sent(evs + [ev]) == Sent(evs)
  {
    assert (evs + [ev])[..|evs|] == evs;
    assert Sent(evs) + [] == Sent(evs);
  }

  lemma {:induction false} NothingMoreSent(evs: seq<WholeEvent>, more: seq<WholeEvent>)
    requires forall ev :: ev in more ==> IsOwn(ev)
    ensures Sent(PipeEvents(evs + more)) == Sent(PipeEvents(evs))
    decreases |more|
  {
    if more == [] {
      assert evs + more == evs;
    } else {
      assert evs + more == (evs + [more[0]]) + more[1..];
      OwnSendsNothing(evs, more[0]);
      NothingMoreSent(evs + [more[0]], more[1..]);
    }
  }

  /** Everything that was sent is delivered: from any state of any run, steps of the executor thread and of the
    * stream threads alone lead to a state in which nothing is queued or launched any more, and in which the runner
    * has exactly the operands that interpreting all that was sent leaves, with the interpreter's tensors. */
  lemma EverythingSentIsComputed<V>(compute: Compute<V>, supported: set<Device>, evs: seq<WholeEvent>)
    returns (more: seq<WholeEvent>, v: Whole<V>)
    requires WholeCanHappen(compute, WholeInit(supported), evs)
    ensures forall ev :: ev in more ==> IsOwn(ev)
    ensures WholeCanHappen(compute, WholeInit(supported), evs + more)
    ensures WholeRun(compute, WholeInit(supported), evs + more) == Some(v)
    ensures v.sys.queue == [] && v.sys.batch == [] && AllRan(v)
    ensures AllTensorsRight(compute, supported, Sent(PipeEvents(evs)), v)
  {
    NoKernelFails(compute, supported, evs);
    var w := WholeRun(compute, WholeInit(supported), evs).value;
    var first, next := ExecutorFinishes(compute, w);
    forall d | d !in next.sys.exec.runner.streams
      ensures Ran(next.ran, d) == |Queue(next, d)|
    {
      OthersHaveNothing(compute, next, d);
    }
    var rest;
    rest, v := StreamsFinish(compute, next, next.sys.exec.runner.streams.Keys);
    GoOnConcat(compute, w, first, next, rest);
    more := first + rest;
    RunGoesOn(compute, WholeInit(supported), evs, w, more, v);
    NothingMoreSent(evs, more);
    PipelineComputesMeaning(compute, supported, evs + more);
    var sent := Sent(PipeEvents(evs));
    assert v.sys.log + [] + [] == v.sys.log;
    assert sent[..|v.sys.log|] == sent;
  }
}

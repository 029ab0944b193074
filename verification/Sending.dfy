/** What the API thread sends, told from its own events alone, and that this is what reaches the executor. */
module Sending {
  import opened Sequences
  import opened Wrappers
  import opened Operators
  import opened Runners
  import opened GraphExecutor
  import opened GraphConstructor
  import opened Pipeline
  import opened PipelineSafety

  /** The outputs of the operator sent last that have not been given a tensor yet. */
  function Unwrapped(evs: seq<Event>): (r: seq<Operand>) {
    if evs == [] then []
    else
      var before := Unwrapped(evs[..|evs| - 1]);
      match evs[|evs| - 1]
      case Send(op) => op.outputs
      case Wrap => if before == [] then [] else before[1..]
      case _ => before
  }

  /** The tensors made and not destroyed, by operand. */
  function Alive(evs: seq<Event>): (r: multiset<Operand>) {
    if evs == [] then multiset{}
    else
      var front := evs[..|evs| - 1];
      match evs[|evs| - 1]
      case Wrap => if Unwrapped(front) == [] then Alive(front) else Alive(front) + multiset{Unwrapped(front)[0]}
      case Retain(x) => Alive(front) + multiset{x}
      case Drop(x) => Alive(front) - multiset{x}
      case _ => Alive(front)
  }

  /** The messages of one event, given the tensors alive before it: each operator as it is sent, each rename, and a
    * no-hold message when the last tensor of an operand is destroyed. */
  function SentBy(alive: multiset<Operand>, ev: Event): (r: seq<Message>) {
    match ev
    case Send(op) => [AddOperator(op)]
    case Rename(x, name) => [SetOperandName(x.addr, name)]
    case Drop(x) => if alive[x] == 1 then [NoHold(x.addr)] else []
    case _ => []
  }

  function Sent(evs: seq<Event>): (r: seq<Message>) {
    if evs == [] then []
    else Sent(evs[..|evs| - 1]) + SentBy(Alive(evs[..|evs| - 1]), evs[|evs| - 1])
  }

  lemma Regroup(a: seq<Message>, b: seq<Message>, c: seq<Message>, d: seq<Message>)
    ensures a + b + (c + d) == (a + b + c) + d
    ensures (a + b) + [] + c == a + b + c
    ensures |c| > 0 ==> a + (b + [c[0]]) + c[1..] == a + b + c
    ensures (a + b + c) + [] == a + b + c
  {
  }

  /** A step of the API thread sends what its event says. */
  lemma ApiSends(s: System, ev: Event)
    requires Inv(s) && Enabled(s, ev) && Step(s, ev).Some? && !IsExecutorEvent(ev)
    ensures History(Step(s, ev).value) == History(s) + SentBy(s.tensors, ev)
  {
    Regroup(s.log, s.batch, s.queue, SentBy(s.tensors, ev));
    if ev.Drop? {
      assert s.caches[ev.x.addr] == s.tensors[ev.x];
    }
  }

  /** A step of the executor thread only moves messages on. */
  lemma ExecutorMoves(s: System, ev: Event)
    requires Enabled(s, ev) && Step(s, ev).Some? && IsExecutorEvent(ev)
    ensures History(Step(s, ev).value) == History(s) + SentBy(s.tensors, ev)
  {
    Regroup(s.log, s.batch, s.queue, []);
  }

  lemma StepTensors(s: System, ev: Event)
    requires Enabled(s, ev) && Step(s, ev).Some?
    ensures Step(s, ev).value.pending ==
      match ev case Send(op) => op.outputs case Wrap => s.pending[1..] case _ => s.pending
    ensures Step(s, ev).value.tensors ==
      match ev
      case Wrap => s.tensors + multiset{s.pending[0]}
      case Retain(x) => s.tensors + multiset{x}
      case Drop(x) => s.tensors - multiset{x}
      case _ => s.tensors
  {
  }

  /** In every run: everything that was ever put into the queue, whether executed, in the current batch or still
    * queued, is exactly what the API thread's events say, in their order, and the live tensors are those the
    * events made and did not destroy. */
  lemma {:induction false} HistoryIsSent(supported: set<Device>, evs: seq<Event>)
    requires CanHappen(Init(supported), evs)
    ensures Run(Init(supported), evs).Some?
    ensures var s := Run(Init(supported), evs).value;
      && s.log + s.batch + s.queue == Sent(evs)
      && s.tensors == Alive(evs) && s.pending == Unwrapped(evs)
  {
    InitInv(supported);
    RunKeepsInv(Init(supported), evs);
    if evs != [] {
      var front, ev := evs[..|evs| - 1], evs[|evs| - 1];
      HistoryIsSent(supported, front);
      RunKeepsInv(Init(supported), front);
      var s := Run(Init(supported), front).value;
      if IsExecutorEvent(ev) {
        ExecutorMoves(s, ev);
      } else {
        ApiSends(s, ev);
      }
      StepTensors(s, ev);
    }
  }

  /** The operators among the events, in order. */
  function OperatorsSent(evs: seq<Event>): (r: seq<Operator>) {
    if evs == [] then []
    else OperatorsSent(evs[..|evs| - 1]) + if evs[|evs| - 1].Send? then [evs[|evs| - 1].op] else []
  }

  /** So the operators that reach the executor are those that were sent, as they were sent and in that order. */
  lemma OperatorsArrive(supported: set<Device>, evs: seq<Event>)
    requires CanHappen(Init(supported), evs)
    ensures Run(Init(supported), evs).Some?
    ensures var s := Run(Init(supported), evs).value; Ops(s.log + s.batch + s.queue) == OperatorsSent(evs)
  {
    HistoryIsSent(supported, evs);
    SentOperators(evs);
  }

  lemma {:induction false} SentOperators(evs: seq<Event>)
    ensures Ops(Sent(evs)) == OperatorsSent(evs)
  {
    if evs != [] {
      var front, ev := evs[..|evs| - 1], evs[|evs| - 1];
      SentOperators(front);
      if |Sent(evs)| > |Sent(front)| {
        var m := Sent(evs)[|Sent(front)|];
        assert Sent(evs) == Sent(front) + [m];
        SnocMessage(Sent(front), m);
      } else {
        assert Sent(evs) == Sent(front);
      }
    }
  }
}

/** The message queue between the API thread and the executor thread, and its shutdown. */
module MessageQueue {
  import opened Wrappers

  /** What is queued: a message, or the null that shutdown sends. */
  datatype Item = Msg(id: nat) | Null

  /** How far the API thread is with shutting down: it raises the executor's flag, then the queue's, then
    * sends the null. */
  datatype Producer = Running | ExecutorFlagged | QueueFlagged | NullSent

  /** Where the executor thread is. `count`: messages handled in this call of `ProcessMessages`;
    * `got`: whether a dequeue succeeded (the item is then the last one taken). */
  datatype Consumer =
    | Head(count: nat)
    | Waiting
    | Check(count: nat, got: bool)
    | Process(count: nat)
    | Returned
    | Executing
    | Terminated

  /** `log`: everything ever enqueued; `taken`: how much of it was dequeued; `executed`: how many of the
    * processed messages a batch execution has covered. */
  datatype State = State(producer: Producer, consumer: Consumer, log: seq<Item>, taken: nat, processed: seq<Item>, executed: nat) {
    predicate ExecutorFlag() { !producer.Running? }
    predicate QueueFlag() { producer.QueueFlagged? || producer.NullSent? }
  }

  datatype Event =
    | Push(id: nat)
    | FlagExecutor
    | FlagQueue
    | SendNull
    | Try           // loop head: leaves when the batch is full, otherwise tries to dequeue
    | WaitDequeue   // blocks until something is queued
    | CheckFlag     // looks at the queue's flag
    | Handle        // processes the message in hand
    | Leave         // back in the main loop: looks at the executor's flag
    | Execute       // executes the batch

  const INIT: State := State(Running, Head(0), [], 0, [], 0)

  predicate Enabled(s: State, ev: Event) {
    match ev
    case Push(_) => s.producer.Running?
    case FlagExecutor => s.producer.Running?
    case FlagQueue => s.producer.ExecutorFlagged?
    case SendNull => s.producer.QueueFlagged?
    case Try => s.consumer.Head?
    case WaitDequeue => s.consumer.Waiting? && s.taken < |s.log|
    case CheckFlag => s.consumer.Check?
    case Handle => s.consumer.Process?
    case Leave => s.consumer.Returned?
    case Execute => s.consumer.Executing?
  }

  /** One step, for batches of at most `size` messages; none if the assertion that a message in hand is
    * not null fails. */
  function Step(size: nat, s: State, ev: Event): (next: Option<State>)
    requires Enabled(s, ev)
  {
    match ev
    case Push(id) => Some(s.(log := s.log + [Msg(id)]))
    case FlagExecutor => Some(s.(producer := ExecutorFlagged))
    case FlagQueue => Some(s.(producer := QueueFlagged))
    case SendNull => Some(s.(producer := NullSent, log := s.log + [Null]))
    case Try =>
      if s.consumer.count >= size then Some(s.(consumer := Returned))
      else if s.taken < |s.log| then Some(s.(consumer := Check(s.consumer.count, true), taken := s.taken + 1))
      else if s.consumer.count == 0 then Some(s.(consumer := Waiting))
      else Some(s.(consumer := Check(s.consumer.count, false)))
    case WaitDequeue => Some(s.(consumer := Check(0, true), taken := s.taken + 1))
    case CheckFlag =>
      if s.QueueFlag() || !s.consumer.got then Some(s.(consumer := Returned))
      else Some(s.(consumer := Process(s.consumer.count)))
    case Handle =>
      if s.taken == 0 || s.taken > |s.log| || s.log[s.taken - 1].Null? then None
      else Some(s.(consumer := Head(s.consumer.count + 1), processed := s.processed + [s.log[s.taken - 1]]))
    case Leave => Some(s.(consumer := if s.ExecutorFlag() then Terminated else Executing))
    case Execute => Some(s.(consumer := Head(0), executed := |s.processed|))
  }

  /** The one item that was dequeued but not yet processed or discarded. */
  function InHand(c: Consumer): (r: nat) {
    if (c.Check? && c.got) || c.Process? then 1 else 0
  }

  /** Only shutdown sends a null, and nothing comes after it. */
  ghost predicate LogRight(s: State) {
    && s.taken <= |s.log|
    && (s.producer.NullSent? ==> |s.log| > 0 && s.log[|s.log| - 1].Null?)
    && forall i :: 0 <= i < |s.log| - (if s.producer.NullSent? then 1 else 0) ==> s.log[i].Msg?
  }

  /** Until shutdown, and at any rate for a message about to be processed, all that was dequeued before
    * was processed. */
  ghost predicate ProcessedRight(s: State) {
    && s.taken <= |s.log|
    && s.processed <= s.log[..s.taken]
    && (InHand(s.consumer) == 1 ==> s.taken > 0)
    && (!s.QueueFlag() || s.consumer.Process? ==> |s.processed| + InHand(s.consumer) == s.taken)
    && (s.consumer.Process? ==> s.log[s.taken - 1].Msg?)
  }

  /** The null stays in the queue until the executor thread is on its way out. */
  ghost predicate NullAhead(s: State) {
    s.producer.NullSent? && (s.consumer.Head? || s.consumer.Waiting? || s.consumer.Process? || s.consumer.Executing?) ==>
      s.taken < |s.log|
  }

  /** Where `count` is kept it numbers what was processed since the last execution, and it stays within the batch
    * size; the executor thread only blocks with everything executed. */
  ghost predicate BatchRight(size: nat, s: State) {
    && s.executed <= |s.processed| <= s.executed + size
    && match s.consumer
       case Head(count) => |s.processed| == s.executed + count
       case Check(count, got) => |s.processed| == s.executed + count && (got ==> count < size)
       case Process(count) => |s.processed| == s.executed + count && count < size
       case Waiting => |s.processed| == s.executed
       case _ => true
  }

  ghost predicate Inv(size: nat, s: State)
  {
    LogRight(s) && ProcessedRight(s) && NullAhead(s) && BatchRight(size, s)
  }

  lemma TakeOne(log: seq<Item>, taken: nat)
    requires taken < |log|
    ensures log[..taken + 1] == log[..taken] + [log[taken]]
  {
  }

  /** What the producer does only makes the log longer. */
  lemma ProducerKeepsInv(size: nat, s: State, ev: Event)
    requires size > 0 && Inv(size, s) && Enabled(s, ev) && !IsConsumerEvent(ev)
    ensures Step(size, s, ev).Some? && Inv(size, Step(size, s, ev).value)
  {
    match ev {
      case Push(id) => assert (s.log + [Msg(id)])[..s.taken] == s.log[..s.taken];
      case SendNull => assert (s.log + [Null])[..s.taken] == s.log[..s.taken];
      case _ =>
    }
  }

  lemma DequeueKeepsInv(size: nat, s: State, ev: Event)
    requires size > 0 && Inv(size, s) && Enabled(s, ev) && (ev.Try? || ev.WaitDequeue?)
    ensures Step(size, s, ev).Some? && Inv(size, Step(size, s, ev).value)
  {
    if s.taken < |s.log| {
      TakeOne(s.log, s.taken);
    }
  }

  lemma HandleKeepsInv(size: nat, s: State)
    requires size > 0 && Inv(size, s) && Enabled(s, Handle)
    ensures Step(size, s, Handle).Some? && Inv(size, Step(size, s, Handle).value)
  {
    TakeOne(s.log, s.taken - 1);
    assert s.processed == s.log[..s.taken - 1];
  }

  lemma StepKeepsInv(size: nat, s: State, ev: Event)
    requires size > 0 && Inv(size, s) && Enabled(s, ev)
    ensures Step(size, s, ev).Some? && Inv(size, Step(size, s, ev).value)
  {
    match ev {
      case Try => DequeueKeepsInv(size, s, ev);
      case WaitDequeue => DequeueKeepsInv(size, s, ev);
      case Handle => HandleKeepsInv(size, s);
      case CheckFlag =>
      case Leave =>
      case Execute =>
      case _ => ProducerKeepsInv(size, s, ev);
    }
  }

  function Run(size: nat, evs: seq<Event>): (r: Option<State>) {
    if evs == [] then Some(INIT)
    else
      match Run(size, evs[..|evs| - 1])
      case None => None
      case Some(s) => if Enabled(s, evs[|evs| - 1]) then Step(size, s, evs[|evs| - 1]) else None
  }

  predicate CanHappen(size: nat, evs: seq<Event>) {
    if evs == [] then true
    else
      && CanHappen(size, evs[..|evs| - 1])
      && match Run(size, evs[..|evs| - 1])
         case None => true
         case Some(s) => Enabled(s, evs[|evs| - 1])
  }

  lemma {:induction false} RunKeepsInv(size: nat, evs: seq<Event>)
    requires size > 0 && CanHappen(size, evs)
    ensures Run(size, evs).Some? && Inv(size, Run(size, evs).value)
  {
    if evs != [] {
      RunKeepsInv(size, evs[..|evs| - 1]);
      StepKeepsInv(size, Run(size, evs[..|evs| - 1]).value, evs[|evs| - 1]);
    }
  }

  /** In every interleaving: no null is processed, and what is processed is a prefix of what was pushed. */
  lemma ProcessedIsPrefix(size: nat, evs: seq<Event>)
    requires size > 0 && CanHappen(size, evs)
    ensures Run(size, evs).Some?
    ensures var s := Run(size, evs).value;
      s.processed <= s.log && forall i :: 0 <= i < |s.processed| ==> s.processed[i].Msg?
  {
    RunKeepsInv(size, evs);
    ProcessedAreMessages(size, evs);
  }

  lemma {:induction false} ProcessedAreMessages(size: nat, evs: seq<Event>)
    requires size > 0 && CanHappen(size, evs)
    ensures Run(size, evs).Some? && forall i :: 0 <= i < |Run(size, evs).value.processed| ==> Run(size, evs).value.processed[i].Msg?
  {
    RunKeepsInv(size, evs);
    if evs != [] {
      ProcessedAreMessages(size, evs[..|evs| - 1]);
      RunKeepsInv(size, evs[..|evs| - 1]);
    }
  }

  /** How many steps the executor thread has left once shutdown has been requested. */
  function StepsLeft(c: Consumer): (r: nat) {
    match c
    case Terminated => 0
    case Returned => 1
    case Check(_, _) => 2
    case Waiting => 3
    case Head(_) => 4
    case Process(_) => 5
    case Executing => 5
  }

  predicate IsConsumerEvent(ev: Event) {
    ev.Try? || ev.WaitDequeue? || ev.CheckFlag? || ev.Handle? || ev.Leave? || ev.Execute?
  }

  /** After shutdown is requested the executor thread is never stuck before it has terminated, in
    * particular not on an empty queue, and each of its steps brings it closer to the end. */
  lemma ShutdownTerminates(size: nat, evs: seq<Event>)
    requires size > 0 && CanHappen(size, evs)
    ensures Run(size, evs).Some?
    ensures var s := Run(size, evs).value;
      s.producer.NullSent? ==>
        && (s.consumer.Waiting? ==> s.taken < |s.log|)
        && (!s.consumer.Terminated? ==> exists ev :: IsConsumerEvent(ev) && Enabled(s, ev))
        && (forall ev :: IsConsumerEvent(ev) && Enabled(s, ev) ==>
              Step(size, s, ev).Some? && StepsLeft(Step(size, s, ev).value.consumer) < StepsLeft(s.consumer))
  {
    RunKeepsInv(size, evs);
    var s := Run(size, evs).value;
    if s.producer.NullSent? {
      forall ev | IsConsumerEvent(ev) && Enabled(s, ev)
        ensures Step(size, s, ev).Some? && StepsLeft(Step(size, s, ev).value.consumer) < StepsLeft(s.consumer)
      {
        StepKeepsInv(size, s, ev);
      }
      if !s.consumer.Terminated? {
        var ev := NextStep(size, s);
        assert IsConsumerEvent(ev) && Enabled(s, ev);
      }
    }
  }

  /** The executor thread's next step once shutdown has been requested. */
  lemma NextStep(size: nat, s: State) returns (ev: Event)
    requires Inv(size, s) && s.producer.NullSent? && !s.consumer.Terminated?
    ensures IsConsumerEvent(ev) && Enabled(s, ev)
  {
    match s.consumer {
      case Head(_) => ev := Try;
      case Waiting => ev := WaitDequeue;
      case Check(_, _) => ev := CheckFlag;
      case Process(_) => ev := Handle;
      case Returned => ev := Leave;
      case Executing => ev := Execute;
    }
  }

  // ---------------------------------------------------------------- before shutdown

  /** What the executor thread has left to do before it blocks with nothing queued. */
  function Left(s: State): (r: nat) {
    8 * (if s.taken < |s.log| then |s.log| - s.taken else 0) +
    match s.consumer
    case Waiting => 0
    case Head(count) => if count == 0 then 1 else 5
    case Executing => 2
    case Returned => 3
    case Check(_, got) => if got then 7 else 4
    case Process(_) => 6
    case Terminated => 0
  }

  /** Until shutdown the executor thread has a step unless it waits for a message and none is queued, and each
    * of its steps leaves it less to do. */
  lemma EveryStepCounts(size: nat, s: State, ev: Event)
    requires size > 0 && Inv(size, s) && s.producer.Running? && !s.consumer.Terminated?
    requires IsConsumerEvent(ev) && Enabled(s, ev)
    ensures Step(size, s, ev).Some? && Left(Step(size, s, ev).value) < Left(s)
    ensures Step(size, s, ev).value.producer.Running? && Step(size, s, ev).value.log == s.log
    ensures !Step(size, s, ev).value.consumer.Terminated?
  {
    StepKeepsInv(size, s, ev);
  }

  lemma NextBeforeShutdown(size: nat, s: State) returns (ev: Event)
    requires Inv(size, s) && !s.consumer.Terminated? && !(s.consumer.Waiting? && s.taken == |s.log|)
    ensures IsConsumerEvent(ev) && Enabled(s, ev)
  {
    match s.consumer {
      case Head(_) => ev := Try;
      case Waiting => ev := WaitDequeue;
      case Check(_, _) => ev := CheckFlag;
      case Process(_) => ev := Handle;
      case Returned => ev := Leave;
      case Executing => ev := Execute;
    }
  }

  /** Going on from a state; none if some event cannot happen or an assertion fails. */
  function GoOn(size: nat, s: State, more: seq<Event>): (r: Option<State>)
    decreases |more|
  {
    if more == [] then Some(s)
    else if !Enabled(s, more[0]) then None
    else
      match Step(size, s, more[0])
      case None => None
      case Some(t) => GoOn(size, t, more[1..])
  }

  lemma {:induction false} WorksItOff(size: nat, s: State) returns (more: seq<Event>, t: State)
    requires size > 0 && Inv(size, s) && s.producer.Running? && !s.consumer.Terminated?
    ensures forall ev :: ev in more ==> IsConsumerEvent(ev)
    ensures GoOn(size, s, more) == Some(t)
    ensures t.processed == t.log == s.log && t.executed == |t.log|
    decreases Left(s)
  {
    if s.consumer.Waiting? && s.taken == |s.log| {
      assert s.log[..|s.log|] == s.log;
      return [], s;
    }
    var ev := NextBeforeShutdown(size, s);
    EveryStepCounts(size, s, ev);
    StepKeepsInv(size, s, ev);
    var rest;
    rest, t := WorksItOff(size, Step(size, s, ev).value);
    more := [ev] + rest;
    assert more[1..] == rest;
  }

  /** No message is left behind: from any state of any run before shutdown, the executor thread's own steps, with
    * no further push, lead to a state in which everything pushed so far has been processed, in order, and
    * executed. */
  lemma EverythingIsExecuted(size: nat, evs: seq<Event>) returns (more: seq<Event>, t: State)
    requires size > 0 && CanHappen(size, evs) && Run(size, evs).Some? && Run(size, evs).value.producer.Running?
    ensures forall ev :: ev in more ==> IsConsumerEvent(ev)
    ensures GoOn(size, Run(size, evs).value, more) == Some(t)
    ensures t.processed == t.log == Run(size, evs).value.log && t.executed == |t.log|
  {
    RunKeepsInv(size, evs);
    NotTerminated(size, evs);
    more, t := WorksItOff(size, Run(size, evs).value);
  }

  /** The executor thread ends only after shutdown was begun. */
  lemma {:induction false} NotTerminated(size: nat, evs: seq<Event>)
    requires size > 0 && CanHappen(size, evs) && Run(size, evs).Some? && Run(size, evs).value.producer.Running?
    ensures !Run(size, evs).value.consumer.Terminated?
  {
    if evs != [] {
      var front := evs[..|evs| - 1];
      RunKeepsInv(size, front);
      NotTerminated(size, front);
    }
  }

  /** Messages that were processed but not executed yet never wait for another push: the executor thread blocks
    * only with all of them executed, and a batch never exceeds the batch size. */
  lemma NeverBlocksInMidBatch(size: nat, evs: seq<Event>)
    requires size > 0 && CanHappen(size, evs)
    ensures Run(size, evs).Some?
    ensures var s := Run(size, evs).value;
      && s.executed <= |s.processed| <= s.executed + size
      && (s.consumer.Waiting? ==> s.executed == |s.processed|)
  {
    RunKeepsInv(size, evs);
  }
}

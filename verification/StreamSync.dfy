/** Waiting for a stream: any number of callers of `Sync`, one stream thread, a mutex, a condition variable
  * with spurious wake-ups, and a queue of kernels and markers. */
module StreamSync {
  import opened Wrappers

  datatype Item = Kernel(id: nat) | Marker

  /** Where a caller of `Sync` is. `start` is the length of the launch history when the call began, `mark`
    * the position of the caller's own marker in it. */
  datatype Caller =
    | Idle
    | WantLock1(start: nat)               // wants the mutex, marker not sent
    | Holds1(start: nat)                  // has it, is about to look at the flag
    | Asleep1(start: nat)                 // waits on the condition variable
    | FlagSet(start: nat)                 // has it, has raised the flag
    | Holds2(start: nat, mark: nat)       // has it, marker sent, is about to look at the flag
    | Asleep2(start: nat, mark: nat)
    | WantLock2(start: nat, mark: nat)
  {
    predicate HasLock() { Holds1? || FlagSet? || Holds2? }
    predicate Sleeps() { Asleep1? || Asleep2? }
    predicate Marked() { Holds2? || Asleep2? || WantLock2? }
  }

  /** Where the stream thread is: about to dequeue, with an item in hand, past the assertion on a marker,
    * holding the mutex to lower the flag, or about to notify. */
  datatype Worker = Waiting | Took | Checked | Locked | Notifying

  datatype Owner = Nobody | OfCaller(c: nat) | OfWorker

  /** `log`: everything ever enqueued. `handled`: how much of it the stream thread is done with. */
  datatype State = State(callers: map<nat, Caller>, worker: Worker, lock: Owner, sync: bool, log: seq<Item>, handled: nat) {
    function At(c: nat): (r: Caller) {
      if c in callers then callers[c] else Idle
    }

    function With(c: nat, pc: Caller): (r: State) {
      this.(callers := callers[c := pc])
    }
  }

  datatype Event =
    | Launch(k: nat)      // a kernel is enqueued
    | Call(c: nat)
    | Acquire(c: nat)     // a caller gets the mutex
    | Test1(c: nat)       // looks at the flag before sending: sleeps, or raises the flag
    | SendMarker(c: nat)
    | Test2(c: nat)       // looks at the flag after sending: sleeps, or returns
    | Wake(c: nat)        // spurious wake-up
    | Take                // the stream thread dequeues
    | RunItem             // ... runs a kernel
    | CheckFlag           // ... asserts, on a marker, that the flag is up
    | LockWorker          // ... gets the mutex
    | Lower               // ... lowers the flag and releases the mutex
    | NotifyAll

  const INIT: State := State(map[], Waiting, Nobody, false, [], 0)

  predicate Enabled(s: State, ev: Event) {
    match ev
    case Launch(_) => true
    case Call(c) => s.At(c).Idle?
    case Acquire(c) => s.lock == Nobody && (s.At(c).WantLock1? || s.At(c).WantLock2?)
    case Test1(c) => s.At(c).Holds1?
    case SendMarker(c) => s.At(c).FlagSet?
    case Test2(c) => s.At(c).Holds2?
    case Wake(c) => s.At(c).Sleeps()
    case Take => s.worker == Waiting && s.handled < |s.log|
    case RunItem => s.worker == Took && s.handled < |s.log| && s.log[s.handled].Kernel?
    case CheckFlag => s.worker == Took && s.handled < |s.log| && s.log[s.handled].Marker?
    case LockWorker => s.worker == Checked && s.lock == Nobody
    case Lower => s.worker == Locked
    case NotifyAll => s.worker == Notifying
  }

  function Woken(pc: Caller): (r: Caller) {
    match pc
    case Asleep1(start) => WantLock1(start)
    case Asleep2(start, mark) => WantLock2(start, mark)
    case _ => pc
  }

  /** One step; none if an assertion fails. */
  function Step(s: State, ev: Event): (next: Option<State>)
    requires Enabled(s, ev)
  {
    match ev
    case Launch(k) => Some(s.(log := s.log + [Kernel(k)]))
    case Call(c) => Some(s.With(c, WantLock1(|s.log|)))
    case Acquire(c) =>
      Some(s.With(c, if s.At(c).WantLock1? then Holds1(s.At(c).start) else Holds2(s.At(c).start, s.At(c).mark)).(lock := OfCaller(c)))
    case Test1(c) =>
      if s.sync then Some(s.With(c, Asleep1(s.At(c).start)).(lock := Nobody))
      else Some(s.With(c, FlagSet(s.At(c).start)).(sync := true))
    case SendMarker(c) => Some(s.With(c, Holds2(s.At(c).start, |s.log|)).(log := s.log + [Marker]))
    case Test2(c) =>
      if s.sync then Some(s.With(c, Asleep2(s.At(c).start, s.At(c).mark)).(lock := Nobody))
      else Some(s.With(c, Idle).(lock := Nobody))
    case Wake(c) => Some(s.With(c, Woken(s.At(c))))
    case Take => Some(s.(worker := Took))
    case CheckFlag => if s.sync then Some(s.(worker := Checked)) else None
    case RunItem => Some(s.(worker := Waiting, handled := s.handled + 1))
    case LockWorker => Some(s.(worker := Locked, lock := OfWorker))
    case Lower => Some(s.(worker := Notifying, lock := Nobody, sync := false, handled := s.handled + 1))
    case NotifyAll => Some(s.(worker := Waiting, callers := map c | c in s.callers :: Woken(s.callers[c])))
  }

  /** Markers among the items. */
  function Markers(items: seq<Item>): (r: nat) {
    if items == [] then 0 else Markers(items[1..]) + (if items[0].Marker? then 1 else 0)
  }

  /** Markers the stream thread is not done with, and the one that the caller who has just raised the flag
    * is about to send. */
  function Outstanding(s: State): (r: nat)
    requires s.handled <= |s.log|
  {
    Markers(s.log[s.handled..]) + (if s.lock.OfCaller? && s.At(s.lock.c).FlagSet? then 1 else 0)
  }

  ghost predicate CallerRight(s: State, c: nat) {
    var pc := s.At(c);
    && (pc.HasLock() <==> s.lock == OfCaller(c))
    && (pc.Sleeps() ==> s.sync || s.worker == Notifying)
    && (pc.Marked() ==> pc.start <= pc.mark < |s.log| && s.log[pc.mark].Marker?)
    && (!pc.Idle? ==> pc.start <= |s.log|)
  }

  ghost predicate WorkerRight(s: State) {
    && s.handled <= |s.log|
    && (s.worker == Took ==> s.handled < |s.log|)
    && (s.worker == Checked || s.worker == Locked ==> s.handled < |s.log| && s.log[s.handled].Marker?)
    && (s.worker == Locked <==> s.lock == OfWorker)
  }

  /** Every outstanding marker stands for the raised flag, and the other way round. */
  ghost predicate Inv(s: State) {
    && WorkerRight(s)
    && Outstanding(s) == (if s.sync then 1 else 0)
    && forall c :: CallerRight(s, c)
  }

  lemma {:induction false} MarkersConcat(a: seq<Item>, b: seq<Item>)
    ensures Markers(a + b) == Markers(a) + Markers(b)
  {
    if a == [] {
      assert a + b == b;
    } else {
      assert (a + b)[1..] == a[1..] + b;
      MarkersConcat(a[1..], b);
    }
  }

  lemma MarkersSnoc(log: seq<Item>, handled: nat, x: Item)
    requires handled <= |log|
    ensures Markers((log + [x])[handled..]) == Markers(log[handled..]) + (if x.Marker? then 1 else 0)
  {
    assert (log + [x])[handled..] == log[handled..] + [x];
    MarkersConcat(log[handled..], [x]);
    assert [x][1..] == [];
  }

  lemma MarkersTake(log: seq<Item>, handled: nat)
    requires handled < |log|
    ensures Markers(log[handled..]) == Markers(log[handled + 1..]) + (if log[handled].Marker? then 1 else 0)
  {
    assert log[handled..][1..] == log[handled + 1..];
  }

  /** A marker at or behind `handled` counts as outstanding. */
  lemma {:induction false} MarkerAhead(log: seq<Item>, handled: nat, mark: nat)
    requires handled <= mark < |log| && log[mark].Marker?
    ensures Markers(log[handled..]) >= 1
    decreases mark - handled
  {
    MarkersTake(log, handled);
    if handled < mark {
      MarkerAhead(log, handled + 1, mark);
    }
  }

  lemma CallersStay(s: State, t: State)
    requires forall c :: CallerRight(s, c)
    requires t.callers == s.callers && s.log <= t.log
    requires forall c :: t.lock == OfCaller(c) <==> s.lock == OfCaller(c)
    requires s.sync || s.worker == Notifying ==> t.sync || t.worker == Notifying
    ensures forall c :: CallerRight(t, c)
  {
    forall c
      ensures CallerRight(t, c)
    {
      assert CallerRight(s, c);
    }
  }

  lemma CallerMoves(s: State, t: State, c: nat, pc: Caller)
    requires forall d :: CallerRight(s, d)
    requires t == s.With(c, pc).(lock := t.lock, sync := t.sync, log := t.log)
    requires s.log <= t.log && (s.sync ==> t.sync)
    requires forall d :: d != c ==> (t.lock == OfCaller(d) <==> s.lock == OfCaller(d))
    requires CallerRight(t, c)
    ensures forall d :: CallerRight(t, d)
  {
    forall d
      ensures CallerRight(t, d)
    {
      assert CallerRight(s, d);
      assert d != c ==> t.At(d) == s.At(d);
    }
  }

  lemma WorkerStep(s: State, ev: Event)
    requires Inv(s) && Enabled(s, ev)
    requires ev.Launch? || ev.Take? || ev.RunItem? || ev.CheckFlag? || ev.LockWorker? || ev.Lower?
    ensures Step(s, ev).Some? && Inv(Step(s, ev).value)
  {
    if s.handled < |s.log| {
      MarkersTake(s.log, s.handled);
    }
    match ev {
      case Launch(k) => MarkersSnoc(s.log, s.handled, Kernel(k));
      case _ =>
    }
    CallersStay(s, Step(s, ev).value);
  }

  lemma NotifyStep(s: State)
    requires Inv(s) && s.worker == Notifying
    ensures Inv(Step(s, NotifyAll).value)
  {
    var t := Step(s, NotifyAll).value;
    forall c
      ensures CallerRight(t, c) && t.At(c) == Woken(s.At(c))
    {
      assert CallerRight(s, c);
    }
  }

  lemma CallerStep(s: State, ev: Event, c: nat)
    requires Inv(s) && Enabled(s, ev)
    requires ev == Call(c) || ev == Acquire(c) || ev == Test1(c) || ev == SendMarker(c) || ev == Test2(c) || ev == Wake(c)
    ensures Step(s, ev).Some? && Inv(Step(s, ev).value)
  {
    assert CallerRight(s, c);
    var t := Step(s, ev).value;
    if ev.SendMarker? {
      MarkersSnoc(s.log, s.handled, Marker);
    }
    if s.lock.OfCaller? {
      assert CallerRight(s, s.lock.c);
    }
    CallerMoves(s, t, c, t.At(c));
  }

  lemma StepKeepsInv(s: State, ev: Event)
    requires Inv(s) && Enabled(s, ev)
    ensures Step(s, ev).Some? && Inv(Step(s, ev).value)
  {
    match ev {
      case Call(c) => CallerStep(s, ev, c);
      case Acquire(c) => CallerStep(s, ev, c);
      case Test1(c) => CallerStep(s, ev, c);
      case SendMarker(c) => CallerStep(s, ev, c);
      case Test2(c) => CallerStep(s, ev, c);
      case Wake(c) => CallerStep(s, ev, c);
      case NotifyAll => NotifyStep(s);
      case _ => WorkerStep(s, ev);
    }
  }

  function Run(evs: seq<Event>): (r: Option<State>) {
    if evs == [] then Some(INIT)
    else
      match Run(evs[..|evs| - 1])
      case None => None
      case Some(s) => if Enabled(s, evs[|evs| - 1]) then Step(s, evs[|evs| - 1]) else None
  }

  predicate CanHappen(evs: seq<Event>) {
    if evs == [] then true
    else
      && CanHappen(evs[..|evs| - 1])
      && match Run(evs[..|evs| - 1])
         case None => true
         case Some(s) => Enabled(s, evs[|evs| - 1])
  }

  /** In every interleaving the stream thread's assertion holds, and the markers that are queued, in hand or
    * about to be queued always number exactly what the flag says. */
  lemma {:induction false} FlagCountsMarkers(evs: seq<Event>)
    requires CanHappen(evs)
    ensures Run(evs).Some? && Inv(Run(evs).value)
    ensures Outstanding(Run(evs).value) == if Run(evs).value.sync then 1 else 0
  {
    if evs != [] {
      FlagCountsMarkers(evs[..|evs| - 1]);
      StepKeepsInv(Run(evs[..|evs| - 1]).value, evs[|evs| - 1]);
    }
  }

  /** Whatever the step that makes a call of `Sync` return: the caller has sent its marker, and the stream thread is
    * done with it and with everything that was launched before the call began. */
  lemma ReturnMeansDone(evs: seq<Event>, ev: Event, c: nat)
    requires CanHappen(evs + [ev])
    ensures Run(evs).Some? && Run(evs + [ev]).Some?
    ensures var s, t := Run(evs).value, Run(evs + [ev]).value;
      !s.At(c).Idle? && t.At(c).Idle? ==> s.At(c).Marked() && s.At(c).start <= s.At(c).mark < t.handled <= |t.log|
  {
    assert (evs + [ev])[..|evs|] == evs;
    FlagCountsMarkers(evs);
    FlagCountsMarkers(evs + [ev]);
    var s := Run(evs).value;
    assert CallerRight(s, c);
    if !s.At(c).Idle? && Step(s, ev).value.At(c).Idle? {
      OnlyTestReturns(s, ev, c);
      if s.handled <= s.At(c).mark {
        MarkerAhead(s.log, s.handled, s.At(c).mark);
        assert false;
      }
    }
  }

  lemma OnlyTestReturns(s: State, ev: Event, c: nat)
    requires Enabled(s, ev) && Step(s, ev).Some? && !s.At(c).Idle? && Step(s, ev).value.At(c).Idle?
    ensures s.At(c).Holds2? && !s.sync && Step(s, ev).value.handled == s.handled && Step(s, ev).value.log == s.log
  {
  }

  /** Inside a call the caller remembers how long the log was when the call began. */
  lemma {:induction false} StartKept(before: seq<Event>, c: nat, middle: seq<Event>)
    requires CanHappen(before + [Call(c)] + middle) && Call(c) !in middle
    ensures Run(before).Some? && Run(before + [Call(c)] + middle).Some?
    ensures var pc := Run(before + [Call(c)] + middle).value.At(c); pc.Idle? || pc.start == |Run(before).value.log|
  {
    FlagCountsMarkers(before + [Call(c)] + middle);
    if middle == [] {
      assert before + [Call(c)] + middle == before + [Call(c)];
      assert (before + [Call(c)])[..|before|] == before;
    } else {
      var front, last := middle[..|middle| - 1], middle[|middle| - 1];
      var evs := before + [Call(c)] + front;
      assert before + [Call(c)] + middle == evs + [last];
      assert (evs + [last])[..|evs|] == evs;
      assert last in middle;
      StartKept(before, c, front);
      StartStays(Run(evs).value, last, c);
    }
  }

  lemma StartStays(s: State, ev: Event, c: nat)
    requires Enabled(s, ev) && Step(s, ev).Some? && ev != Call(c)
    ensures var pc := Step(s, ev).value.At(c); pc.Idle? || (!s.At(c).Idle? && pc.start == s.At(c).start)
  {
  }

  /** Told by the events alone: when a call returns, by whatever step, the stream thread is done with everything that
    * was in the queue when the call was made, and with the caller's marker behind it. */
  lemma SyncCoversEarlierLaunches(before: seq<Event>, c: nat, middle: seq<Event>, ev: Event)
    requires CanHappen(before + [Call(c)] + middle + [ev]) && Call(c) !in middle
    ensures Run(before).Some? && Run(before + [Call(c)] + middle).Some? && Run(before + [Call(c)] + middle + [ev]).Some?
    ensures var s, t := Run(before + [Call(c)] + middle).value, Run(before + [Call(c)] + middle + [ev]).value;
      !s.At(c).Idle? && t.At(c).Idle? ==> t.handled > |Run(before).value.log|
  {
    var evs := before + [Call(c)] + middle;
    assert (evs + [ev])[..|evs|] == evs;
    StartKept(before, c, middle);
    ReturnMeansDone(evs, ev, c);
  }

  /** Steps that go on by themselves: neither a new launch, nor a new call, nor a spurious wake-up. */
  predicate OwnStep(ev: Event) {
    !ev.Launch? && !ev.Call? && !ev.Wake?
  }

  /** No wake-up is lost: while any caller is inside `Sync`, some thread can go on by itself. */
  lemma NoDeadlock(evs: seq<Event>, c: nat)
    requires CanHappen(evs) && Run(evs).Some? && !Run(evs).value.At(c).Idle?
    ensures exists ev :: OwnStep(ev) && Enabled(Run(evs).value, ev)
  {
    FlagCountsMarkers(evs);
    var s := Run(evs).value;
    var ev := NextStep(s, c);
    assert OwnStep(ev) && Enabled(s, ev);
  }

  /** A step that can happen next. */
  lemma NextStep(s: State, c: nat) returns (ev: Event)
    requires Inv(s) && !s.At(c).Idle?
    ensures OwnStep(ev) && Enabled(s, ev)
  {
    assert CallerRight(s, c);
    if s.lock.OfCaller? {
      var d := s.lock.c;
      assert CallerRight(s, d);
      return if s.At(d).Holds1? then Test1(d) else if s.At(d).FlagSet? then SendMarker(d) else Test2(d);
    }
    if s.worker == Locked {
      return Lower;
    }
    if s.worker == Notifying {
      return NotifyAll;
    }
    if s.worker == Took {
      return if s.log[s.handled].Kernel? then RunItem else CheckFlag;
    }
    if s.worker == Checked {
      return LockWorker;
    }
    if s.At(c).Sleeps() {
      assert Markers(s.log[s.handled..]) == 1;
      return Take;
    }
    return Acquire(c);
  }

  // ---------------------------------------------------------------- every call returns

  /** Callers that have not raised the flag yet, that have raised it and not sent their marker, that want the mutex,
    * and that have it and are about to look at the flag. */
  function Unflagged(s: State): (r: set<nat>) {
    set c | c in s.callers && (s.callers[c].WantLock1? || s.callers[c].Holds1? || s.callers[c].Asleep1?)
  }

  function Flagging(s: State): (r: set<nat>) {
    set c | c in s.callers && s.callers[c].FlagSet?
  }

  function Wanting(s: State): (r: set<nat>) {
    set c | c in s.callers && (s.callers[c].WantLock1? || s.callers[c].WantLock2?)
  }

  function Looking(s: State): (r: set<nat>) {
    set c | c in s.callers && (s.callers[c].Holds1? || s.callers[c].Holds2?)
  }

  function ItemsLeft(s: State): (r: nat) {
    if s.handled < |s.log| then |s.log| - s.handled else 0
  }

  function WorkerLeft(w: Worker): (r: nat) {
    match w
    case Notifying => 4
    case Waiting => 3
    case Took => 2
    case Checked => 1
    case Locked => 0
  }

  function CallersLeft(s: State): (r: nat) {
    2 * |Wanting(s)| + |Looking(s)|
  }

  /** Less is left to do: fewer callers have yet to raise the flag; or as many, but fewer markers are about to be
    * sent; or as many, but fewer items are queued; and so on. */
  ghost predicate LessLeft(t: State, s: State) {
    || |Unflagged(t)| < |Unflagged(s)|
    || (|Unflagged(t)| == |Unflagged(s)| && (
          || |Flagging(t)| < |Flagging(s)|
          || (|Flagging(t)| == |Flagging(s)| && (
                || ItemsLeft(t) < ItemsLeft(s)
                || (ItemsLeft(t) == ItemsLeft(s) && (
                      || WorkerLeft(t.worker) < WorkerLeft(s.worker)
                      || (t.worker == s.worker && CallersLeft(t) < CallersLeft(s))))))))
  }

  lemma WorkerCounts(s: State, ev: Event)
    requires Inv(s) && Enabled(s, ev)
    requires ev.Take? || ev.RunItem? || ev.CheckFlag? || ev.LockWorker? || ev.Lower? || ev.NotifyAll?
    ensures Step(s, ev).Some? && LessLeft(Step(s, ev).value, s)
  {
    StepKeepsInv(s, ev);
    var t := Step(s, ev).value;
    assert Unflagged(t) == Unflagged(s) && Flagging(t) == Flagging(s);
  }

  lemma AcquireCounts(s: State, c: nat)
    requires Inv(s) && Enabled(s, Acquire(c))
    ensures LessLeft(Step(s, Acquire(c)).value, s)
  {
    var t := Step(s, Acquire(c)).value;
    assert Unflagged(t) == Unflagged(s) && Flagging(t) == Flagging(s);
    assert Wanting(t) == Wanting(s) - {c} && c in Wanting(s);
    assert Looking(t) == Looking(s) + {c} && c !in Looking(s);
  }

  /** Looking at the flag, the caller raises it ... */
  lemma RaiseCounts(s: State, c: nat)
    requires Inv(s) && Enabled(s, Test1(c)) && !s.sync
    ensures LessLeft(Step(s, Test1(c)).value, s)
  {
    var t := Step(s, Test1(c)).value;
    assert c in Unflagged(s) && Unflagged(t) == Unflagged(s) - {c};
  }

  /** ... or sleeps, or returns. */
  lemma TestCounts(s: State, ev: Event, c: nat)
    requires Inv(s) && Enabled(s, ev) && (ev == Test1(c) || ev == Test2(c)) && (ev.Test1? ==> s.sync)
    ensures LessLeft(Step(s, ev).value, s)
  {
    var t := Step(s, ev).value;
    assert c in Looking(s) && Looking(t) == Looking(s) - {c};
    assert Wanting(t) == Wanting(s);
    assert Unflagged(t) == Unflagged(s);
    assert Flagging(t) == Flagging(s);
  }

  lemma SendCounts(s: State, c: nat)
    requires Inv(s) && Enabled(s, SendMarker(c))
    ensures LessLeft(Step(s, SendMarker(c)).value, s)
  {
    var t := Step(s, SendMarker(c)).value;
    assert Unflagged(t) == Unflagged(s);
    assert c in Flagging(s) && Flagging(t) == Flagging(s) - {c};
  }

  /** Without new launches, new calls and spurious wake-ups, whichever thread goes on, less is left to do. */
  lemma EveryStepCounts(s: State, ev: Event)
    requires Inv(s) && Enabled(s, ev) && OwnStep(ev)
    ensures Step(s, ev).Some? && Inv(Step(s, ev).value) && LessLeft(Step(s, ev).value, s)
  {
    StepKeepsInv(s, ev);
    match ev {
      case Acquire(c) => AcquireCounts(s, c);
      case Test1(c) =>
        if s.sync {
          TestCounts(s, ev, c);
        } else {
          RaiseCounts(s, c);
        }
      case SendMarker(c) => SendCounts(s, c);
      case Test2(c) => TestCounts(s, ev, c);
      case _ => WorkerCounts(s, ev);
    }
  }

  /** Going on from a state; none if some event cannot happen or an assertion fails. */
  function GoOn(s: State, more: seq<Event>): (r: Option<State>)
    decreases |more|
  {
    if more == [] then Some(s)
    else if !Enabled(s, more[0]) then None
    else
      match Step(s, more[0])
      case None => None
      case Some(t) => GoOn(t, more[1..])
  }

  lemma {:induction false} CallsFinish(s: State) returns (more: seq<Event>, t: State)
    requires Inv(s)
    ensures forall ev :: ev in more ==> OwnStep(ev)
    ensures GoOn(s, more) == Some(t) && forall c :: t.At(c).Idle?
    decreases |Unflagged(s)|, |Flagging(s)|, ItemsLeft(s), WorkerLeft(s.worker), CallersLeft(s)
  {
    if forall c :: s.At(c).Idle? {
      return [], s;
    }
    var c :| !s.At(c).Idle?;
    var ev := NextStep(s, c);
    EveryStepCounts(s, ev);
    var rest;
    rest, t := CallsFinish(Step(s, ev).value);
    more := [ev] + rest;
    assert more[1..] == rest;
  }

  /** From any state of any run, if nothing more is launched and nobody else calls, every caller returns. */
  lemma EveryCallReturns(evs: seq<Event>) returns (more: seq<Event>, t: State)
    requires CanHappen(evs)
    ensures Run(evs).Some?
    ensures forall ev :: ev in more ==> OwnStep(ev)
    ensures GoOn(Run(evs).value, more) == Some(t) && forall c :: t.At(c).Idle?
  {
    FlagCountsMarkers(evs);
    more, t := CallsFinish(Run(evs).value);
  }
}

/** The eager execution pipeline as a state machine: the API thread counts references and sends messages,
  * the executor thread receives them, executes batches and lets operands go, and an allocator may hand
  * out any address that neither the logical graph nor an operator on its way still holds. */
module Pipeline {
  import opened Sequences
  import opened Wrappers
  import opened Operators
  import opened Runners
  import opened Batching
  import opened GraphExecutor
  import opened GraphConstructor

  /** `tensors`: the live API tensors, by operand. `pending`: outputs of the operator just sent that
    * have no API tensor yet. `queue`: messages not received yet. `exec`: the executor thread.
    * The last two fields are history: messages of finished batches, and of the current one. */
  datatype System = System(tensors: multiset<Operand>, pending: seq<Operand>, caches: Caches,
                           queue: seq<Message>, exec: Executor, log: seq<Message>, batch: seq<Message>)

  datatype Event =
    | Send(op: Operator)                      // the API thread sends an operator
    | Wrap                                    // ... makes the API tensor of one of its outputs
    | Retain(x: Operand)                      // ... makes another API tensor of an operand
    | Drop(x: Operand)                        // ... destroys an API tensor
    | Rename(x: Operand, name: string)
    | ReceiveOne                              // the executor thread takes a message
    | ExecuteBatch                            // ... executes what it has collected
    | Release                                 // ... lets go of one operand

  function EmptyRunner(supported: set<Device>): (r: Runner) {
    Runner(supported, map[], 0, map[])
  }

  function Init(supported: set<Device>): (s: System) {
    System(multiset{}, [], map[], [], Executor(map[], {}, [], [], [], EmptyRunner(supported)), [], [])
  }

  /** Addresses of the outputs of all operators among the messages. */
  function OutSet(msgs: seq<Message>): (r: set<nat>) {
    if msgs == [] then {}
    else
      var m := msgs[|msgs| - 1];
      OutSet(msgs[..|msgs| - 1]) + (if m.AddOperator? then Addrs(m.op.outputs) else {})
  }

  /** The addresses an allocator must not hand out: those of operands that the logical graph or an
    * operator in the queue points to. */
  function Held(s: System): (r: set<nat>) {
    s.exec.operands + OutSet(s.queue)
  }

  /** The operators' own addresses, in order. */
  function OpPtrs(msgs: seq<Message>): (r: seq<nat>)
    ensures |r| == |Ops(msgs)|
  {
    if msgs == [] then []
    else
      var m := msgs[|msgs| - 1];
      if m.AddOperator? then OpPtrs(msgs[..|msgs| - 1]) + [m.op.addr] else OpPtrs(msgs[..|msgs| - 1])
  }

  predicate AllLive(tensors: multiset<Operand>, xs: seq<Operand>) {
    forall x :: x in xs ==> x in tensors
  }

  /** What the environment guarantees of an event: the API thread only uses tensors it has, it finishes
    * one operator before the next, and new objects do not lie where held ones do. */
  predicate Enabled(s: System, ev: Event) {
    match ev
    case Send(op) =>
      && s.pending == []
      && AllLive(s.tensors, op.inputs)
      && op.keys != {}
      && DistinctAddrs(op.outputs) && Addrs(op.outputs) !! Held(s)
      && op.addr !in s.exec.opMap && op.addr !in OpPtrs(s.queue)
    case Wrap => s.pending != []
    case Retain(x) => x in s.tensors
    case Drop(x) => x in s.tensors
    case Rename(x, _) => x in s.tensors
    case ReceiveOne => s.exec.releasing == [] && s.queue != []
    case ExecuteBatch => s.exec.releasing == []
    case Release => s.exec.releasing != []
  }

  /** One step. No result: an assertion of the program fails. */
  function Step(s: System, ev: Event): (next: Option<System>)
    requires Enabled(s, ev)
  {
    match ev
    case Send(op) =>
      (match InitCaches(s.caches, op.outputs)
       case None => None
       case Some(c) => Some(s.(caches := c, queue := s.queue + [AddOperator(op)], pending := op.outputs)))
    case Wrap =>
      (match Increase(s.caches, s.pending[0].addr)
       case None => None
       case Some(c) => Some(s.(caches := c, tensors := s.tensors + multiset{s.pending[0]}, pending := s.pending[1..])))
    case Retain(x) =>
      (match Increase(s.caches, x.addr)
       case None => None
       case Some(c) => Some(s.(caches := c, tensors := s.tensors + multiset{x})))
    case Drop(x) =>
      (match Decrease(s.caches, x.addr)
       case None => None
       case Some(c) => Some(s.(caches := c, tensors := s.tensors - multiset{x},
                               queue := s.queue + DecreaseMessages(s.caches, x.addr))))
    case Rename(x, name) =>
      if x.addr in s.caches then Some(s.(queue := s.queue + [SetOperandName(x.addr, name)])) else None
    case ReceiveOne =>
      (match Receive(s.exec, s.queue[0])
       case None => None
       case Some(e) => Some(s.(exec := e, queue := s.queue[1..], batch := s.batch + [s.queue[0]])))
    case ExecuteBatch =>
      (match StartExecute(s.exec)
       case None => None
       case Some(e) => Some(s.(exec := e, log := s.log + s.batch, batch := [])))
    case Release =>
      (match ReleaseOne(s.exec)
       case None => None
       case Some(e) => Some(s.(exec := e)))
  }

  // Sequential well-formedness of a list of messages.

  predicate InputsPresent(present: map<nat, Operand>, xs: seq<Operand>) {
    forall x :: x in xs ==> x.addr in present && present[x.addr] == x
  }

  function AddPresent(present: map<nat, Operand>, xs: seq<Operand>): (r: map<nat, Operand>) {
    if xs == [] then present
    else AddPresent(present, xs[..|xs| - 1])[xs[|xs| - 1].addr := xs[|xs| - 1]]
  }

  /** The operands that are there once a message is handled; none if it cannot be handled properly. */
  function TrackOne(present: map<nat, Operand>, m: Message): (r: Option<map<nat, Operand>>) {
    match m
    case AddOperator(op) =>
      if op.keys != {} && InputsPresent(present, op.inputs) && DistinctAddrs(op.outputs) && Addrs(op.outputs) !! present.Keys
      then Some(AddPresent(present, op.outputs)) else None
    case NoHold(a) => if a in present then Some(present - {a}) else None
    case SetOperandName(a, _) => if a in present then Some(present) else None
  }

  function Track(present: map<nat, Operand>, msgs: seq<Message>): (r: Option<map<nat, Operand>>) {
    if msgs == [] then Some(present)
    else
      match Track(present, msgs[..|msgs| - 1])
      case None => None
      case Some(p) => TrackOne(p, msgs[|msgs| - 1])
  }

  /** No operator's outputs lie in `used` or at an output of an earlier operator. */
  predicate FreshOutputs(used: set<nat>, msgs: seq<Message>) {
    if msgs == [] then true
    else
      var front, m := msgs[..|msgs| - 1], msgs[|msgs| - 1];
      FreshOutputs(used, front) && (m.AddOperator? ==> Addrs(m.op.outputs) !! used + OutSet(front))
  }

  lemma {:induction false} TrackConcat(present: map<nat, Operand>, a: seq<Message>, b: seq<Message>)
    ensures Track(present, a + b) == match Track(present, a) case None => None case Some(p) => Track(p, b)
  {
    if b == [] {
      assert a + b == a;
    } else {
      assert (a + b)[..|a + b| - 1] == a + b[..|b| - 1];
      TrackConcat(present, a, b[..|b| - 1]);
    }
  }

  lemma {:induction false} PresentKeys(present: map<nat, Operand>, xs: seq<Operand>)
    ensures AddPresent(present, xs).Keys == present.Keys + Addrs(xs)
  {
    if xs != [] {
      PresentKeys(present, xs[..|xs| - 1]);
      assert xs == xs[..|xs| - 1] + [xs[|xs| - 1]];
      assert Addrs(xs) == Addrs(xs[..|xs| - 1]) + {xs[|xs| - 1].addr};
    }
  }

  lemma {:induction false} PresentAt(present: map<nat, Operand>, xs: seq<Operand>, a: nat)
    requires DistinctAddrs(xs)
    ensures forall x :: x in xs && x.addr == a ==> a in AddPresent(present, xs) && AddPresent(present, xs)[a] == x
    ensures a in present && a !in Addrs(xs) ==> a in AddPresent(present, xs) && AddPresent(present, xs)[a] == present[a]
  {
    if xs != [] {
      var n := |xs| - 1;
      PresentAt(present, xs[..n], a);
      assert xs == xs[..n] + [xs[n]];
      assert Addrs(xs) == Addrs(xs[..n]) + {xs[n].addr};
      assert forall x :: x in xs[..n] ==> x.addr != xs[n].addr;
    }
  }

  lemma OutSetSnoc(msgs: seq<Message>, m: Message)
    ensures OutSet(msgs + [m]) == OutSet(msgs) + (if m.AddOperator? then Addrs(m.op.outputs) else {})
  {
    assert (msgs + [m])[..|msgs|] == msgs;
  }

  /** A well-formed batch over `present`: what is there afterwards, and what it drops. */
  lemma {:induction false} TrackBatch(present: map<nat, Operand>, batch: seq<Message>)
    requires Track(present, batch).Some? && FreshOutputs(present.Keys, batch)
    ensures Elements(NoHolds(batch)) <= present.Keys + OutSet(batch)
    ensures Track(present, batch).value.Keys == present.Keys + OutSet(batch) - Elements(NoHolds(batch))
    ensures NoRepeats(NoHolds(batch))
    ensures NoReuse(batch)
  {
    if batch == [] {
      assert Elements([]) == {};
    } else {
      var front, m := batch[..|batch| - 1], batch[|batch| - 1];
      assert batch == front + [m];
      TrackBatch(present, front);
      SnocMessage(front, m);
      NoReuseSnoc(front, m);
      var p := Track(present, front).value;
      match m {
        case AddOperator(op) => PresentKeys(p, op.outputs);
        case NoHold(a) => assert Elements(NoHolds(front) + [a]) == Elements(NoHolds(front)) + {a};
        case SetOperandName(_, _) =>
      }
    }
  }

  /** The runner has cells for exactly the operands that are there, for exactly their devices. */
  ghost predicate CellsMatch(present: map<nat, Operand>, blobs: map<nat, DeviceBlobs>) {
    && blobs.Keys == present.Keys
    && forall a :: a in present ==> blobs[a].Keys == present[a].ids
  }

  lemma CreateMatches(present: map<nat, Operand>, r: Runner, op: Operator)
    requires CellsMatch(present, r.blobs) && TrackOne(present, AddOperator(op)).Some?
    ensures CanCreate(r.blobs, op)
    ensures CellsMatch(AddPresent(present, op.outputs), AddOutputs(r.blobs, r.serial, op.outputs))
  {
    forall x | x in op.outputs
      ensures x.addr !in r.blobs
    {
      assert x.addr in Addrs(op.outputs);
    }
    forall d | d in op.keys
      ensures CanCaptureAll(r.blobs, op.inputs, d)
    {
      forall x | x in op.inputs
        ensures CanCapture(r.blobs, x, d)
      {
      }
    }
    OutputKeys(r.blobs, r.serial, op.outputs);
    PresentKeys(present, op.outputs);
    forall a | a in AddPresent(present, op.outputs)
      ensures AddOutputs(r.blobs, r.serial, op.outputs)[a].Keys == AddPresent(present, op.outputs)[a].ids
    {
      PresentAt(present, op.outputs, a);
      if a in Addrs(op.outputs) {
        var i :| 0 <= i < |op.outputs| && op.outputs[i].addr == a;
        NewOutput(r.blobs, r.serial, op.outputs, i);
      } else {
        OldOutput(r.blobs, r.serial, op.outputs, a);
      }
    }
  }

  /** A runner that is told of well-formed messages one at a time never trips an assertion. */
  lemma {:induction false} TrackReplay(present: map<nat, Operand>, r: Runner, msgs: seq<Message>)
    requires CellsMatch(present, r.blobs) && Track(present, msgs).Some?
    ensures Replay(r, msgs).Some? && CellsMatch(Track(present, msgs).value, Replay(r, msgs).value.blobs)
  {
    if msgs != [] {
      var front, m := msgs[..|msgs| - 1], msgs[|msgs| - 1];
      TrackReplay(present, r, front);
      if m.AddOperator? {
        CreateMatches(Track(present, front).value, Replay(r, front).value, m.op);
      }
    }
  }

  // The invariant.

  function History(s: System): (r: seq<Message>) {
    s.log + s.batch + s.queue
  }

  /** The operands an API tensor, or the API thread itself, still stands for. */
  ghost function Now(s: System): (r: map<nat, Operand>)
    requires Track(map[], History(s)).Some?
  {
    Track(map[], History(s)).value
  }

  /** An entry for every operand that is there, with the number of its live API tensors. */
  ghost predicate Counted(tensors: multiset<Operand>, caches: Caches, present: map<nat, Operand>) {
    && caches.Keys == present.Keys
    && (forall a :: a in present ==> present[a].addr == a)
    && (forall a :: a in caches ==> caches[a] == tensors[present[a]])
  }

  ghost predicate TensorsPresent(tensors: multiset<Operand>, present: map<nat, Operand>) {
    forall x :: x in tensors ==> x.addr in present && present[x.addr] == x
  }

  /** A count of zero is only seen while the API thread is still making the tensors of an operator it
    * has just sent. */
  ghost predicate PendingRight(tensors: multiset<Operand>, pending: seq<Operand>, caches: Caches, present: map<nat, Operand>) {
    && InputsPresent(present, pending)
    && DistinctAddrs(pending)
    && (forall x :: x in pending ==> x !in tensors)
    && (forall a :: a in caches && caches[a] == 0 ==> a in Addrs(pending))
  }

  ghost predicate CountsRight(tensors: multiset<Operand>, pending: seq<Operand>, caches: Caches, present: map<nat, Operand>) {
    && Counted(tensors, caches, present)
    && TensorsPresent(tensors, present)
    && PendingRight(tensors, pending, caches, present)
  }

  /** The logical graph holds what the finished batches left, what is being released, and the outputs of
    * the current batch; nothing in the current batch or in the queue was created where one of these lies. */
  ghost predicate GraphHolds(done: map<nat, Operand>, operands: set<nat>, releasing: seq<nat>, batch: seq<Message>,
                             queue: seq<Message>)
  {
    && operands == done.Keys + Elements(releasing) + OutSet(batch)
    && Elements(releasing) !! done.Keys
    && NoRepeats(releasing)
    && (releasing != [] ==> batch == [])
    && FreshOutputs(done.Keys + Elements(releasing), batch)
    && FreshOutputs(operands, queue)
  }

  /** The executor's three collections are those of the current batch. */
  ghost predicate BatchCollected(e: Executor, batch: seq<Message>, queue: seq<Message>) {
    && e.newNoHold == NoHolds(batch)
    && e.newOps == OpPtrs(batch)
    && e.opMap.Keys == Elements(e.newOps)
    && (forall i :: 0 <= i < |e.newOps| ==> e.newOps[i] in e.opMap && e.opMap[e.newOps[i]] == Ops(batch)[i])
    && NoRepeats(OpPtrs(batch) + OpPtrs(queue))
  }

  ghost predicate Inv(s: System) {
    && Track(map[], History(s)).Some?
    && Track(map[], s.log).Some?
    && CountsRight(s.tensors, s.pending, s.caches, Now(s))
    && GraphHolds(Track(map[], s.log).value, s.exec.operands, s.exec.releasing, s.batch, s.queue)
    && BatchCollected(s.exec, s.batch, s.queue)
    && Replay(EmptyRunner(s.exec.runner.supported), s.log) == Some(s.exec.runner)
  }

  lemma InitInv(supported: set<Device>)
    ensures Inv(Init(supported))
  {
  }

  lemma {:induction false} TrackBound(present: map<nat, Operand>, msgs: seq<Message>)
    requires Track(present, msgs).Some?
    ensures Track(present, msgs).value.Keys <= present.Keys + OutSet(msgs)
  {
    if msgs != [] {
      var front, m := msgs[..|msgs| - 1], msgs[|msgs| - 1];
      TrackBound(present, front);
      if m.AddOperator? {
        PresentKeys(Track(present, front).value, m.op.outputs);
      }
    }
  }

  /** Whatever the API thread still counts is held by the logical graph or on its way to it. */
  lemma CountedIsHeld(s: System)
    requires Inv(s)
    ensures s.caches.Keys <= Held(s)
  {
    TrackConcat(map[], s.log + s.batch, s.queue);
    TrackConcat(map[], s.log, s.batch);
    TrackBound(Track(map[], s.log).value, s.batch);
    TrackBound(Track(map[], s.log + s.batch).value, s.queue);
  }

  lemma FreshSnoc(used: set<nat>, msgs: seq<Message>, m: Message)
    ensures FreshOutputs(used, msgs + [m]) <==>
      FreshOutputs(used, msgs) && (m.AddOperator? ==> Addrs(m.op.outputs) !! used + OutSet(msgs))
  {
    assert (msgs + [m])[..|msgs|] == msgs;
  }

  lemma {:induction false} FreshHead(used: set<nat>, m: Message, rest: seq<Message>)
    requires FreshOutputs(used, [m] + rest)
    ensures OutSet([m] + rest) == OutSet([m]) + OutSet(rest)
    ensures OutSet([m]) !! used
    ensures FreshOutputs(used + OutSet([m]), rest)
  {
    if rest == [] {
      OutSetSnoc([], m);
      FreshSnoc(used, [], m);
      assert [] + [m] == [m] && [m] + rest == [m];
    } else {
      var front, last := rest[..|rest| - 1], rest[|rest| - 1];
      assert rest == front + [last] && [m] + rest == ([m] + front) + [last];
      FreshSnoc(used, [m] + front, last);
      FreshHead(used, m, front);
      FreshSnoc(used + OutSet([m]), front, last);
      OutSetSnoc([m] + front, last);
      OutSetSnoc(front, last);
    }
  }

  lemma {:induction false} FreshLess(used: set<nat>, fewer: set<nat>, msgs: seq<Message>)
    requires FreshOutputs(used, msgs) && fewer <= used
    ensures FreshOutputs(fewer, msgs)
  {
    if msgs != [] {
      FreshLess(used, fewer, msgs[..|msgs| - 1]);
    }
  }

  lemma OpPtrsSnoc(msgs: seq<Message>, m: Message)
    ensures OpPtrs(msgs + [m]) == if m.AddOperator? then OpPtrs(msgs) + [m.op.addr] else OpPtrs(msgs)
  {
    assert (msgs + [m])[..|msgs|] == msgs;
  }

  lemma {:induction false} OpPtrsHead(m: Message, rest: seq<Message>)
    ensures OpPtrs([m] + rest) == (if m.AddOperator? then [m.op.addr] else []) + OpPtrs(rest)
  {
    if rest == [] {
      assert [m] + rest == [] + [m];
      OpPtrsSnoc([], m);
    } else {
      var front, last := rest[..|rest| - 1], rest[|rest| - 1];
      assert rest == front + [last];
      assert [m] + rest == ([m] + front) + [last];
      OpPtrsHead(m, front);
      OpPtrsSnoc(front, last);
      OpPtrsSnoc([m] + front, last);
      PrependedOnce(if m.AddOperator? then [m.op.addr] else [], OpPtrs(front), if last.AddOperator? then [last.op.addr] else []);
    }
  }

  lemma PrependedOnce(a: seq<nat>, b: seq<nat>, c: seq<nat>)
    ensures (a + b) + c == a + (b + c)
    ensures c == [] ==> b + c == b && (a + b) + c == a + b
  {
  }
}

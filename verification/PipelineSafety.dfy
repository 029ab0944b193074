/** No assertion of the pipeline ever fails, whatever the interleaving and whatever the allocator does. */
module PipelineSafety {
  import opened Sequences
  import opened Wrappers
  import opened Operators
  import opened Runners
  import opened Batching
  import opened GraphExecutor
  import opened GraphConstructor
  import opened Pipeline

  lemma PushTracked(s: System, m: Message)
    requires Track(map[], History(s)).Some?
    ensures Track(map[], History(s.(queue := s.queue + [m]))) == TrackOne(Now(s), m)
  {
    assert s.log + s.batch + (s.queue + [m]) == History(s) + [m];
    assert (History(s) + [m])[..|History(s)|] == History(s);
  }

  lemma PushCollected(e: Executor, batch: seq<Message>, queue: seq<Message>, m: Message)
    requires BatchCollected(e, batch, queue)
    requires m.AddOperator? ==> m.op.addr !in e.opMap && m.op.addr !in OpPtrs(queue)
    ensures BatchCollected(e, batch, queue + [m])
  {
    OpPtrsSnoc(queue, m);
    if m.AddOperator? {
      var all := OpPtrs(batch) + OpPtrs(queue);
      assert OpPtrs(batch) + (OpPtrs(queue) + [m.op.addr]) == all + [m.op.addr];
      assert m.op.addr !in Elements(OpPtrs(batch));
      assert m.op.addr !in all;
    }
  }

  /** One more message in the queue. */
  lemma Push(s: System, m: Message)
    requires Inv(s)
    requires TrackOne(Now(s), m).Some?
    requires m.AddOperator? ==>
      && Addrs(m.op.outputs) !! Held(s)
      && m.op.addr !in s.exec.opMap && m.op.addr !in OpPtrs(s.queue)
    ensures Track(map[], History(s.(queue := s.queue + [m]))) == TrackOne(Now(s), m)
    ensures GraphHolds(Track(map[], s.log).value, s.exec.operands, s.exec.releasing, s.batch, s.queue + [m])
    ensures BatchCollected(s.exec, s.batch, s.queue + [m])
  {
    PushTracked(s, m);
    PushCollected(s.exec, s.batch, s.queue, m);
    FreshSnoc(s.exec.operands, s.queue, m);
  }

  lemma AddedOrOld(present: map<nat, Operand>, outputs: seq<Operand>)
    requires DistinctAddrs(outputs) && Addrs(outputs) !! present.Keys
    ensures AddPresent(present, outputs).Keys == present.Keys + Addrs(outputs)
    ensures InputsPresent(AddPresent(present, outputs), outputs)
    ensures forall a :: a in present ==> AddPresent(present, outputs)[a] == present[a]
  {
    PresentKeys(present, outputs);
    forall a
      ensures forall x :: x in outputs && x.addr == a ==> AddPresent(present, outputs)[a] == x
      ensures a in present ==> AddPresent(present, outputs)[a] == present[a]
    {
      PresentAt(present, outputs, a);
    }
  }

  lemma CountedSend(tensors: multiset<Operand>, caches: Caches, present: map<nat, Operand>, outputs: seq<Operand>)
    requires Counted(tensors, caches, present) && TensorsPresent(tensors, present)
    requires DistinctAddrs(outputs) && Addrs(outputs) !! present.Keys
    ensures Counted(tensors, WithZeros(caches, Addrs(outputs)), AddPresent(present, outputs))
  {
    var later := AddPresent(present, outputs);
    AddedOrOld(present, outputs);
    forall a | a in later && a !in present
      ensures later[a].addr == a && tensors[later[a]] == 0
    {
      assert a in Addrs(outputs);
    }
  }

  lemma CountsSend(tensors: multiset<Operand>, caches: Caches, present: map<nat, Operand>, outputs: seq<Operand>)
    requires CountsRight(tensors, [], caches, present)
    requires DistinctAddrs(outputs) && Addrs(outputs) !! present.Keys
    ensures CountsRight(tensors, outputs, WithZeros(caches, Addrs(outputs)), AddPresent(present, outputs))
  {
    CountedSend(tensors, caches, present, outputs);
    AddedOrOld(present, outputs);
    forall x | x in outputs
      ensures x !in tensors
    {
      assert x.addr in Addrs(outputs);
    }
  }

  lemma ConsMembers(x: Operand, rest: seq<Operand>)
    ensures x in [x] + rest
    ensures forall y :: y in rest ==> y in [x] + rest
    ensures forall y :: y in [x] + rest ==> y == x || y in rest
  {
  }

  lemma ConsAddrs(x: Operand, rest: seq<Operand>)
    ensures Addrs([x] + rest) == {x.addr} + Addrs(rest)
  {
    ConsMembers(x, rest);
  }

  lemma ConsDistinct(x: Operand, rest: seq<Operand>)
    requires DistinctAddrs([x] + rest)
    ensures DistinctAddrs(rest) && x.addr !in Addrs(rest)
  {
    var all := [x] + rest;
    forall i | 0 <= i < |rest|
      ensures rest[i] == all[i + 1] && all[0].addr != all[i + 1].addr
    {
    }
    forall i, j | 0 <= i < j < |rest|
      ensures rest[i].addr != rest[j].addr
    {
      assert all[i + 1].addr != all[j + 1].addr;
    }
  }

  lemma PendingTail(present: map<nat, Operand>, x: Operand, rest: seq<Operand>)
    requires InputsPresent(present, [x] + rest) && DistinctAddrs([x] + rest)
    ensures x.addr in present && present[x.addr] == x
    ensures InputsPresent(present, rest) && DistinctAddrs(rest)
    ensures Addrs([x] + rest) == {x.addr} + Addrs(rest)
    ensures x.addr !in Addrs(rest)
  {
    ConsMembers(x, rest);
    ConsAddrs(x, rest);
    ConsDistinct(x, rest);
  }

  lemma CountsWrap(tensors: multiset<Operand>, x: Operand, rest: seq<Operand>, caches: Caches, present: map<nat, Operand>)
    requires CountsRight(tensors, [x] + rest, caches, present)
    ensures Increase(caches, x.addr).Some?
    ensures CountsRight(tensors + multiset{x}, rest, Increase(caches, x.addr).value, present)
  {
    PendingTail(present, x, rest);
    forall y | y in rest
      ensures y !in tensors + multiset{x}
    {
      assert y in [x] + rest;
      assert y.addr in Addrs(rest);
    }
  }

  lemma CountsRetain(tensors: multiset<Operand>, pending: seq<Operand>, caches: Caches, present: map<nat, Operand>,
                     x: Operand)
    requires CountsRight(tensors, pending, caches, present) && x in tensors
    ensures Increase(caches, x.addr).Some?
    ensures CountsRight(tensors + multiset{x}, pending, Increase(caches, x.addr).value, present)
  {
    assert x !in pending;
  }

  lemma CountsLess(tensors: multiset<Operand>, pending: seq<Operand>, caches: Caches, present: map<nat, Operand>, x: Operand)
    requires CountsRight(tensors, pending, caches, present) && x in tensors && caches[x.addr] > 1
    ensures Decrease(caches, x.addr).Some?
    ensures CountsRight(tensors - multiset{x}, pending, Decrease(caches, x.addr).value, present)
  {
    assert x !in pending;
  }

  lemma CountsLast(tensors: multiset<Operand>, pending: seq<Operand>, caches: Caches, present: map<nat, Operand>, x: Operand)
    requires CountsRight(tensors, pending, caches, present) && x in tensors && caches[x.addr] == 1
    ensures Decrease(caches, x.addr) == Some(caches - {x.addr})
    ensures CountsRight(tensors - multiset{x}, pending, caches - {x.addr}, present - {x.addr})
  {
    forall y | y in pending
      ensures y.addr != x.addr
    {
    }
    forall y | y in tensors - multiset{x}
      ensures y.addr != x.addr
    {
      assert y in tensors;
    }
  }

  lemma SendSafe(s: System, op: Operator)
    requires Inv(s) && Enabled(s, Send(op))
    ensures Step(s, Send(op)).Some? && Inv(Step(s, Send(op)).value)
  {
    CountedIsHeld(s);
    assert InputsPresent(Now(s), op.inputs);
    CountsSend(s.tensors, s.caches, Now(s), op.outputs);
    Push(s, AddOperator(op));
  }

  lemma WrapSafe(s: System)
    requires Inv(s) && Enabled(s, Wrap)
    ensures Step(s, Wrap).Some? && Inv(Step(s, Wrap).value)
  {
    assert s.pending == [s.pending[0]] + s.pending[1..];
    CountsWrap(s.tensors, s.pending[0], s.pending[1..], s.caches, Now(s));
  }

  lemma RetainSafe(s: System, x: Operand)
    requires Inv(s) && Enabled(s, Retain(x))
    ensures Step(s, Retain(x)).Some? && Inv(Step(s, Retain(x)).value)
  {
    CountsRetain(s.tensors, s.pending, s.caches, Now(s), x);
  }

  lemma DropLast(s: System, x: Operand)
    requires Inv(s) && x in s.tensors && s.caches[x.addr] == 1
    ensures Inv(s.(caches := s.caches - {x.addr}, tensors := s.tensors - multiset{x}, queue := s.queue + [NoHold(x.addr)]))
  {
    CountsLast(s.tensors, s.pending, s.caches, Now(s), x);
    Push(s, NoHold(x.addr));
  }

  lemma DropSafe(s: System, x: Operand)
    requires Inv(s) && Enabled(s, Drop(x))
    ensures Step(s, Drop(x)).Some? && Inv(Step(s, Drop(x)).value)
  {
    if s.caches[x.addr] == 1 {
      DropLast(s, x);
    } else {
      CountsLess(s.tensors, s.pending, s.caches, Now(s), x);
      assert s.queue + [] == s.queue;
    }
  }

  lemma RenameSafe(s: System, x: Operand, name: string)
    requires Inv(s) && Enabled(s, Rename(x, name))
    ensures Step(s, Rename(x, name)).Some? && Inv(Step(s, Rename(x, name)).value)
  {
    Push(s, SetOperandName(x.addr, name));
  }

  /** What the current batch has left of the operands, and that it is well formed. */
  lemma BatchTracked(s: System)
    requires Inv(s) && s.exec.releasing == []
    ensures Track(map[], s.log + s.batch).Some?
    ensures Track(Track(map[], s.log).value, s.batch) == Track(map[], s.log + s.batch)
    ensures FreshOutputs(Track(map[], s.log).value.Keys, s.batch)
    ensures s.exec.operands == Track(map[], s.log).value.Keys + OutSet(s.batch)
  {
    TrackConcat(map[], s.log + s.batch, s.queue);
    TrackConcat(map[], s.log, s.batch);
    assert Elements([]) == {};
    FreshLess(Track(map[], s.log).value.Keys + Elements([]), Track(map[], s.log).value.Keys, s.batch);
  }

  lemma HoldsReceive(done: map<nat, Operand>, operands: set<nat>, batch: seq<Message>, m: Message, rest: seq<Message>)
    requires GraphHolds(done, operands, [], batch, [m] + rest)
    ensures OutSet([m]) !! operands
    ensures GraphHolds(done, operands + OutSet([m]), [], batch + [m], rest)
  {
    FreshHead(operands, m, rest);
    OutSetSnoc([], m);
    assert [] + [m] == [m];
    OutSetSnoc(batch, m);
    FreshSnoc(done.Keys + Elements([]), batch, m);
    assert Elements([]) == {};
  }

  lemma ReceiveKeeps(s: System, m: Message, rest: seq<Message>)
    requires Inv(s) && s.exec.releasing == [] && s.queue == [m] + rest
    ensures Receive(s.exec, m).Some?
    ensures GraphHolds(Track(map[], s.log).value, Receive(s.exec, m).value.operands, [], s.batch + [m], rest)
    ensures BatchCollected(Receive(s.exec, m).value, s.batch + [m], rest)
  {
    BatchTracked(s);
    TrackHead(map[], s.log + s.batch, m, rest);
    TrackBound(Track(map[], s.log).value, s.batch);
    HoldsReceive(Track(map[], s.log).value, s.exec.operands, s.batch, m, rest);
    OutSetOne(m);
    ReceiveCollects(s.exec, s.batch, m, rest);
  }

  lemma OutSetOne(m: Message)
    ensures OutSet([m]) == if m.AddOperator? then Addrs(m.op.outputs) else {}
  {
    assert [] + [m] == [m];
    OutSetSnoc([], m);
  }

  /** The first message of the queue can be handled next. */
  lemma TrackHead(present: map<nat, Operand>, before: seq<Message>, m: Message, rest: seq<Message>)
    requires Track(present, before + ([m] + rest)).Some?
    ensures Track(present, before).Some? && TrackOne(Track(present, before).value, m).Some?
  {
    TrackConcat(present, before, [m] + rest);
    TrackConcat(Track(present, before).value, [m], rest);
    assert [m][..0] == [];
  }

  lemma {:induction false} DistinctMiddle(a: seq<nat>, p: nat, b: seq<nat>)
    requires NoRepeats(a + ([p] + b))
    ensures NoRepeats((a + [p]) + b) && p !in Elements(a)
  {
    var all := a + ([p] + b);
    assert (a + [p]) + b == all;
    forall i | 0 <= i < |a|
      ensures a[i] != p
    {
      assert all[i] == a[i] && all[|a|] == p;
    }
  }

  /** The executor's collections with one more operator. */
  lemma CollectedSnoc(e: Executor, batch: seq<Message>, op: Operator)
    requires e.newOps == OpPtrs(batch) && e.opMap.Keys == Elements(e.newOps) && op.addr !in e.opMap
    requires forall i :: 0 <= i < |e.newOps| ==> e.newOps[i] in e.opMap && e.opMap[e.newOps[i]] == Ops(batch)[i]
    ensures e.opMap[op.addr := op].Keys == Elements(e.newOps + [op.addr])
    ensures forall i :: 0 <= i < |e.newOps| + 1 ==>
      var p := (e.newOps + [op.addr])[i];
      p in e.opMap[op.addr := op] && e.opMap[op.addr := op][p] == (Ops(batch) + [op])[i]
  {
    assert Elements(e.newOps + [op.addr]) == Elements(e.newOps) + {op.addr};
  }

  lemma CollectOperator(e: Executor, batch: seq<Message>, op: Operator, rest: seq<Message>)
    requires BatchCollected(e, batch, [AddOperator(op)] + rest)
    ensures op.addr !in e.opMap
    ensures BatchCollected(e.(opMap := e.opMap[op.addr := op], newOps := e.newOps + [op.addr]), batch + [AddOperator(op)], rest)
  {
    var m := AddOperator(op);
    OpPtrsHead(m, rest);
    DistinctMiddle(OpPtrs(batch), op.addr, OpPtrs(rest));
    SnocMessage(batch, m);
    OpPtrsSnoc(batch, m);
    CollectedSnoc(e, batch, op);
  }

  lemma ReceiveCollects(e: Executor, batch: seq<Message>, m: Message, rest: seq<Message>)
    requires BatchCollected(e, batch, [m] + rest)
    requires m.AddOperator? ==> DistinctAddrs(m.op.outputs) && Addrs(m.op.outputs) !! e.operands
    requires m.SetOperandName? ==> m.operand in e.operands
    ensures Receive(e, m).Some? && BatchCollected(Receive(e, m).value, batch + [m], rest)
  {
    if m.AddOperator? {
      CollectOperator(e, batch, m.op, rest);
    } else {
      SnocMessage(batch, m);
      OpPtrsSnoc(batch, m);
      OpPtrsHead(m, rest);
      assert OpPtrs(batch) + OpPtrs([m] + rest) == OpPtrs(batch + [m]) + OpPtrs(rest);
    }
  }

  /** The messages only moved on, and the runner did not change. */
  lemma MovedOn(s: System, t: System)
    requires Inv(s) && History(t) == History(s)
    requires t == s.(exec := t.exec, queue := t.queue, batch := t.batch)
    requires GraphHolds(Track(map[], s.log).value, t.exec.operands, t.exec.releasing, t.batch, t.queue)
    requires BatchCollected(t.exec, t.batch, t.queue) && t.exec.runner == s.exec.runner
    ensures Inv(t)
  {
  }

  lemma HistoryMoves(log: seq<Message>, batch: seq<Message>, m: Message, rest: seq<Message>)
    ensures log + (batch + [m]) + rest == log + batch + ([m] + rest)
  {
  }

  lemma StepReceive(s: System, m: Message, rest: seq<Message>)
    requires Enabled(s, ReceiveOne) && s.queue == [m] + rest && Receive(s.exec, m).Some?
    ensures Step(s, ReceiveOne) == Some(s.(exec := Receive(s.exec, m).value, queue := rest, batch := s.batch + [m]))
  {
    assert s.queue[0] == m && s.queue[1..] == rest;
  }

  lemma ReceiveSafe(s: System)
    requires Inv(s) && Enabled(s, ReceiveOne)
    ensures Step(s, ReceiveOne).Some? && Inv(Step(s, ReceiveOne).value)
  {
    var m, rest := s.queue[0], s.queue[1..];
    assert s.queue == [m] + rest;
    ReceiveKeeps(s, m, rest);
    HistoryMoves(s.log, s.batch, m, rest);
    ReceiveRest(s.exec, m);
    StepReceive(s, m, rest);
    MovedOn(s, s.(exec := Receive(s.exec, m).value, queue := rest, batch := s.batch + [m]));
  }

  lemma ReceiveRest(e: Executor, m: Message)
    requires Receive(e, m).Some?
    ensures Receive(e, m).value.runner == e.runner && Receive(e, m).value.releasing == e.releasing
  {
  }

  lemma OpsOfBatch(e: Executor, batch: seq<Message>, queue: seq<Message>)
    requires BatchCollected(e, batch, queue)
    ensures NoRepeats(e.newOps) && AllIn(e.opMap, e.newOps)
    ensures OpsAt(e.opMap, e.newOps) == Ops(batch)
    ensures e.opMap - Elements(e.newOps) == map[]
    ensures NoRepeats(OpPtrs(queue))
  {
    var all := OpPtrs(batch) + OpPtrs(queue);
    assert forall i :: 0 <= i < |OpPtrs(batch)| ==> all[i] == OpPtrs(batch)[i];
    assert forall i :: 0 <= i < |OpPtrs(queue)| ==> all[|OpPtrs(batch)| + i] == OpPtrs(queue)[i];
  }

  /** Executing a batch trips no assertion, and the runner ends where handling the messages one at a time
    * would have brought it. */
  lemma ExecuteRefines(s: System)
    requires Inv(s) && s.exec.releasing == []
    ensures StartExecute(s.exec).Some?
    ensures Replay(EmptyRunner(s.exec.runner.supported), s.log + s.batch) == Some(StartExecute(s.exec).value.runner)
    ensures StartExecute(s.exec).value == Executor(map[], s.exec.operands, [], [], NoHolds(s.batch),
                                                   StartExecute(s.exec).value.runner)
  {
    var r0 := EmptyRunner(s.exec.runner.supported);
    BatchTracked(s);
    TrackReplay(map[], r0, s.log + s.batch);
    ReplayConcat(r0, s.log, s.batch);
    TrackBatch(Track(map[], s.log).value, s.batch);
    BatchingUnobservable(s.exec.runner, s.batch);
    OpsOfBatch(s.exec, s.batch, s.queue);
    if s.exec.newOps == [] && s.exec.newNoHold == [] {
      assert Ops(s.batch) == [];
      assert s.exec.opMap == map[];
    }
  }

  lemma {:induction false} SupportedKept(r: Runner, msgs: seq<Message>)
    requires Replay(r, msgs).Some?
    ensures Replay(r, msgs).value.supported == r.supported
  {
    if msgs != [] {
      SupportedKept(r, msgs[..|msgs| - 1]);
    }
  }

  lemma ExecuteHolds(s: System)
    requires Inv(s) && s.exec.releasing == []
    ensures Track(map[], s.log + s.batch).Some?
    ensures GraphHolds(Track(map[], s.log + s.batch).value, s.exec.operands, NoHolds(s.batch), [], s.queue)
  {
    BatchTracked(s);
    var after := Track(map[], s.log + s.batch).value;
    TrackBatch(Track(map[], s.log).value, s.batch);
    assert OutSet([]) == {};
    assert s.exec.operands == after.Keys + Elements(NoHolds(s.batch)) + {};
  }

  lemma ExecuteSafe(s: System)
    requires Inv(s) && Enabled(s, Event.ExecuteBatch)
    ensures Step(s, Event.ExecuteBatch).Some? && Inv(Step(s, Event.ExecuteBatch).value)
  {
    ExecuteRefines(s);
    SupportedKept(EmptyRunner(s.exec.runner.supported), s.log + s.batch);
    ExecuteHolds(s);
    OpsOfBatch(s.exec, s.batch, s.queue);
    assert s.log + s.batch + [] + s.queue == History(s);
    assert OpPtrs([]) + OpPtrs(s.queue) == OpPtrs(s.queue);
  }

  lemma ReleaseSafe(s: System)
    requires Inv(s) && Enabled(s, Release)
    ensures Step(s, Release).Some? && Inv(Step(s, Release).value)
  {
    var a, rest := s.exec.releasing[0], s.exec.releasing[1..];
    assert s.exec.releasing == [a] + rest;
    assert Elements(s.exec.releasing) == Elements(rest) + {a};
    var done := Track(map[], s.log).value;
    FreshLess(s.exec.operands, s.exec.operands - {a}, s.queue);
    FreshLess(done.Keys + Elements(s.exec.releasing), done.Keys + Elements(rest), s.batch);
    var t := s.(exec := s.exec.(operands := s.exec.operands - {a}, releasing := rest));
    MovedOn(s, t);
    assert Step(s, Release) == Some(t);
  }

  /** Every step that can happen trips no assertion and keeps the invariant. */
  lemma StepSafe(s: System, ev: Event)
    requires Inv(s) && Enabled(s, ev)
    ensures Step(s, ev).Some? && Inv(Step(s, ev).value)
  {
    match ev {
      case Send(op) => SendSafe(s, op);
      case Wrap => WrapSafe(s);
      case Retain(x) => RetainSafe(s, x);
      case Drop(x) => DropSafe(s, x);
      case Rename(x, name) => RenameSafe(s, x, name);
      case ReceiveOne => ReceiveSafe(s);
      case ExecuteBatch => ExecuteSafe(s);
      case Release => ReleaseSafe(s);
    }
  }

  // Whole runs.

  function Run(s: System, evs: seq<Event>): (r: Option<System>) {
    if evs == [] then Some(s)
    else
      match Run(s, evs[..|evs| - 1])
      case None => None
      case Some(t) => if Enabled(t, evs[|evs| - 1]) then Step(t, evs[|evs| - 1]) else None
  }

  /** Every event of the run can happen where it does, as long as no assertion has failed before. */
  predicate CanHappen(s: System, evs: seq<Event>) {
    if evs == [] then true
    else
      && CanHappen(s, evs[..|evs| - 1])
      && match Run(s, evs[..|evs| - 1])
         case None => true
         case Some(t) => Enabled(t, evs[|evs| - 1])
  }

  lemma {:induction false} RunKeepsInv(s: System, evs: seq<Event>)
    requires Inv(s) && CanHappen(s, evs)
    ensures Run(s, evs).Some? && Inv(Run(s, evs).value)
  {
    if evs != [] {
      RunKeepsInv(s, evs[..|evs| - 1]);
      StepSafe(Run(s, evs[..|evs| - 1]).value, evs[|evs| - 1]);
    }
  }

  /** Whatever happens, in whatever order: no assertion fails, and the runner is always where handling the
    * messages of the finished batches one at a time would have brought it. */
  lemma NoAssertionFails(supported: set<Device>, evs: seq<Event>)
    requires CanHappen(Init(supported), evs)
    ensures Run(Init(supported), evs).Some?
    ensures var s := Run(Init(supported), evs).value;
      Replay(EmptyRunner(supported), s.log) == Some(s.exec.runner)
  {
    InitInv(supported);
    RunKeepsInv(Init(supported), evs);
    SameSupported(supported, evs);
  }

  lemma {:induction false} SameSupported(supported: set<Device>, evs: seq<Event>)
    requires CanHappen(Init(supported), evs)
    ensures Run(Init(supported), evs).Some? && Run(Init(supported), evs).value.exec.runner.supported == supported
  {
    InitInv(supported);
    RunKeepsInv(Init(supported), evs);
    if evs != [] {
      SameSupported(supported, evs[..|evs| - 1]);
      RunKeepsInv(Init(supported), evs[..|evs| - 1]);
      StepSupported(Run(Init(supported), evs[..|evs| - 1]).value, evs[|evs| - 1]);
    }
  }

  lemma StepSupported(s: System, ev: Event)
    requires Inv(s) && Enabled(s, ev) && Step(s, ev).Some?
    ensures Step(s, ev).value.exec.runner.supported == s.exec.runner.supported
  {
    if ev.ExecuteBatch? {
      ExecuteRefines(s);
      SupportedKept(EmptyRunner(s.exec.runner.supported), s.log + s.batch);
    } else {
      OnlyExecuteTouchesRunner(s, ev);
    }
  }

  lemma OnlyExecuteTouchesRunner(s: System, ev: Event)
    requires Enabled(s, ev) && !ev.ExecuteBatch? && Step(s, ev).Some?
    ensures Step(s, ev).value.exec.runner == s.exec.runner
  {
  }

  /** How many of the messages create, and how many drop, an operand at address `a`. */
  function Created(msgs: seq<Message>, a: nat): (r: nat) {
    if msgs == [] then 0
    else
      var m := msgs[|msgs| - 1];
      Created(msgs[..|msgs| - 1], a) + (if m.AddOperator? && a in Addrs(m.op.outputs) then 1 else 0)
  }

  function Dropped(msgs: seq<Message>, a: nat): (r: nat) {
    if msgs == [] then 0
    else Dropped(msgs[..|msgs| - 1], a) + (if msgs[|msgs| - 1] == NoHold(a) then 1 else 0)
  }

  lemma {:induction false} DroppedOnce(msgs: seq<Message>, a: nat)
    requires Track(map[], msgs).Some?
    ensures Created(msgs, a) == Dropped(msgs, a) + (if a in Track(map[], msgs).value then 1 else 0)
  {
    if msgs != [] {
      var front, m := msgs[..|msgs| - 1], msgs[|msgs| - 1];
      DroppedOnce(front, a);
      if m.AddOperator? {
        PresentKeys(Track(map[], front).value, m.op.outputs);
      }
    }
  }

  /** Over everything sent so far, each creation at an address has had its one no-hold message, except the
    * last creation while its operand is still counted. */
  lemma OneNoHoldPerOperand(supported: set<Device>, evs: seq<Event>, a: nat)
    requires CanHappen(Init(supported), evs)
    ensures Run(Init(supported), evs).Some?
    ensures var s := Run(Init(supported), evs).value;
      Created(History(s), a) == Dropped(History(s), a) + (if a in s.caches then 1 else 0)
  {
    InitInv(supported);
    RunKeepsInv(Init(supported), evs);
    DroppedOnce(History(Run(Init(supported), evs).value), a);
  }

  /** Every live tensor at address `a` is of operand `x`, and there are `n` of them. */
  ghost predicate LiveTensorsAt(tensors: multiset<Operand>, a: nat, x: Operand, n: nat) {
    x.addr == a && tensors[x] == n && forall y :: y in tensors && y.addr == a ==> y == x
  }

  /** In every reachable state: an operand with live tensors is counted, and its count is their number; a count
    * is the number of all live tensors at its address, which are of one operand; and a count is zero exactly
    * while its operand waits for its first tensor. */
  lemma CountIsLiveTensors(supported: set<Device>, evs: seq<Event>)
    requires CanHappen(Init(supported), evs)
    ensures Run(Init(supported), evs).Some?
    ensures var s := Run(Init(supported), evs).value;
      && (forall x :: x in s.tensors ==> x.addr in s.caches && s.caches[x.addr] == s.tensors[x])
      && (forall x, y :: x in s.tensors && y in s.tensors && x.addr == y.addr ==> x == y)
      && (forall a :: a in s.caches ==> exists x :: LiveTensorsAt(s.tensors, a, x, s.caches[a]))
      && (forall a :: a in s.caches ==> (s.caches[a] == 0 <==> a in Addrs(s.pending)))
  {
    InitInv(supported);
    RunKeepsInv(Init(supported), evs);
    var s := Run(Init(supported), evs).value;
    forall a | a in s.caches
      ensures LiveTensorsAt(s.tensors, a, Now(s)[a], s.caches[a])
      ensures s.caches[a] == 0 <==> a in Addrs(s.pending)
    {
      if a in Addrs(s.pending) {
        var x :| x in s.pending && x.addr == a;
        assert Now(s)[a] == x;
      }
    }
  }

  // Draining.

  predicate Quiet(s: System) {
    s.queue == [] && s.exec.newOps == [] && s.exec.newNoHold == [] && s.exec.releasing == []
  }

  /** Once the API thread has dropped every tensor and the executor has nothing left to do, all the maps
    * are empty. */
  lemma QuietIsEmpty(s: System)
    requires Inv(s) && s.tensors == multiset{} && s.pending == [] && Quiet(s)
    ensures s.caches == map[] && s.exec.opMap == map[] && s.exec.operands == {} && s.exec.runner.blobs == map[]
  {
    forall a
      ensures a !in s.caches
    {
      assert Addrs(s.pending) == {};
      assert a in s.caches ==> s.tensors[Now(s)[a]] == 0;
    }
    var done := Track(map[], s.log).value;
    BatchTracked(s);
    TrackBatch(done, s.batch);
    assert s.log + s.batch + s.queue == s.log + s.batch;
    OpsOfBatch(s.exec, s.batch, s.queue);
    NoOps(s.batch);
    TrackReplay(map[], EmptyRunner(s.exec.runner.supported), s.log);
    assert Elements([]) == {};
    assert s.exec.operands == {};
  }

  lemma {:induction false} NoOps(msgs: seq<Message>)
    requires Ops(msgs) == []
    ensures OutSet(msgs) == {}
  {
    if msgs != [] {
      NoOps(msgs[..|msgs| - 1]);
    }
  }

  /** What the executor thread has yet to do. */
  function Work(s: System): (r: nat) {
    3 * |s.queue| + |s.exec.newOps| + 2 * |s.exec.newNoHold| + |s.exec.releasing|
  }

  predicate IsExecutorEvent(ev: Event) {
    ev.ReceiveOne? || ev.ExecuteBatch? || ev.Release?
  }

  /** A step of the executor thread that does something leaves less to do. */
  lemma ExecutorProgress(s: System, ev: Event)
    requires Inv(s) && Enabled(s, ev) && IsExecutorEvent(ev) && !Quiet(s)
    requires ev.ExecuteBatch? ==> s.exec.newOps != [] || s.exec.newNoHold != []
    ensures Step(s, ev).Some? && Work(Step(s, ev).value) < Work(s)
    ensures Step(s, ev).value.tensors == s.tensors && Step(s, ev).value.pending == s.pending
  {
    StepSafe(s, ev);
    WorkLess(s, ev);
  }

  lemma WorkLess(s: System, ev: Event)
    requires Enabled(s, ev) && IsExecutorEvent(ev) && Step(s, ev).Some?
    requires ev.ExecuteBatch? ==> s.exec.newOps != [] || s.exec.newNoHold != []
    ensures Work(Step(s, ev).value) < Work(s)
    ensures Step(s, ev).value.tensors == s.tensors && Step(s, ev).value.pending == s.pending
  {
  }

  /** From any reachable state in which every tensor is dropped, the executor thread on its own empties
    * all the maps. */
  lemma {:induction false} DrainsToEmpty(s: System) returns (evs: seq<Event>, t: System)
    requires Inv(s) && s.tensors == multiset{} && s.pending == []
    ensures forall ev :: ev in evs ==> IsExecutorEvent(ev)
    ensures CanHappen(s, evs) && Run(s, evs) == Some(t) && Quiet(t)
    ensures t.caches == map[] && t.exec.opMap == map[] && t.exec.operands == {} && t.exec.runner.blobs == map[]
    decreases Work(s)
  {
    if Quiet(s) {
      QuietIsEmpty(s);
      return [], s;
    }
    var ev := if s.exec.releasing != [] then Release else if s.queue != [] then ReceiveOne else Event.ExecuteBatch;
    StepSafe(s, ev);
    ExecutorProgress(s, ev);
    var next := Step(s, ev).value;
    var rest;
    rest, t := DrainsToEmpty(next);
    RunCons(s, ev, next, rest);
    evs := [ev] + rest;
  }

  lemma RunSnoc(s: System, front: seq<Event>, last: Event)
    ensures Run(s, front + [last]) == match Run(s, front)
                                      case None => None
                                      case Some(t) => if Enabled(t, last) then Step(t, last) else None
    ensures CanHappen(s, front + [last]) == (CanHappen(s, front) && (Run(s, front).Some? ==> Enabled(Run(s, front).value, last)))
  {
    assert (front + [last])[..|front|] == front;
  }

  lemma {:induction false} RunCons(s: System, ev: Event, t: System, rest: seq<Event>)
    requires Enabled(s, ev) && Step(s, ev) == Some(t) && CanHappen(t, rest)
    ensures CanHappen(s, [ev] + rest) && Run(s, [ev] + rest) == Run(t, rest)
  {
    if rest == [] {
      assert [ev] + rest == [] + [ev];
      RunSnoc(s, [], ev);
    } else {
      var front, last := rest[..|rest| - 1], rest[|rest| - 1];
      RunCons(s, ev, t, front);
      assert rest == front + [last] && [ev] + rest == ([ev] + front) + [last];
      RunSnoc(s, [ev] + front, last);
      RunSnoc(t, front, last);
    }
  }
}

/** Handling messages in batches (all operators first, then all deletions) against handling them one
  * at a time. */
module Batching {
  import opened Sequences
  import opened Wrappers
  import opened Operators
  import opened Runners

  function Handle(r: Runner, m: Message): (next: Option<Runner>) {
    match m
    case AddOperator(op) => Create(r, op)
    case NoHold(a) => Delete(r, a)
    case SetOperandName(_, _) => Some(r)
  }

  /** The reference: every message is handled to the end before the next one. */
  function Replay(r: Runner, msgs: seq<Message>): (next: Option<Runner>) {
    if msgs == [] then Some(r)
    else
      match Replay(r, msgs[..|msgs| - 1])
      case None => None
      case Some(s) => Handle(s, msgs[|msgs| - 1])
  }

  /** No operator of the batch is given an address that the same batch reported as dropped before. */
  predicate NoReuse(msgs: seq<Message>) {
    forall i, j :: 0 <= i < j < |msgs| && msgs[i].NoHold? && msgs[j].AddOperator? ==>
      msgs[i].operand !in Addrs(msgs[j].op.outputs)
  }

  /** What the executor does with one batch. A batch of renames alone never reaches the runner. */
  function RunBatch(r: Runner, batch: seq<Message>): (next: Option<Runner>) {
    ExecuteBatch(r, Ops(batch), NoHolds(batch))
  }

  function RunBatches(r: Runner, batches: seq<seq<Message>>): (next: Option<Runner>) {
    if batches == [] then Some(r)
    else
      match RunBatches(r, batches[..|batches| - 1])
      case None => None
      case Some(s) => RunBatch(s, batches[|batches| - 1])
  }

  lemma {:induction false} DeleteAllIs(r: Runner, addrs: seq<nat>)
    requires DeleteAll(r, addrs).Some?
    ensures Elements(addrs) <= r.blobs.Keys
    ensures DeleteAll(r, addrs).value == r.(blobs := r.blobs - Elements(addrs))
  {
    if addrs != [] {
      var n := |addrs| - 1;
      DeleteAllIs(r, addrs[..n]);
      LastElement(addrs);
      RemoveTwice(r.blobs, Elements(addrs[..n]), addrs[n]);
    } else {
      assert Elements([]) == {} && r.blobs - {} == r.blobs;
    }
  }

  lemma LastElement(addrs: seq<nat>)
    requires addrs != []
    ensures Elements(addrs) == Elements(addrs[..|addrs| - 1]) + {addrs[|addrs| - 1]}
  {
    assert addrs == addrs[..|addrs| - 1] + [addrs[|addrs| - 1]];
  }

  lemma RemoveTwice(blobs: map<nat, DeviceBlobs>, gone: set<nat>, a: nat)
    ensures (blobs - gone) - {a} == blobs - (gone + {a})
  {
  }

  lemma {:induction false} DeleteAllMonotone(r: Runner, s: Runner, addrs: seq<nat>)
    requires DeleteAll(r, addrs).Some? && r.blobs.Keys <= s.blobs.Keys
    ensures DeleteAll(s, addrs).Some?
  {
    if addrs != [] {
      var n := |addrs| - 1;
      DeleteAllMonotone(r, s, addrs[..n]);
      DeleteAllIs(r, addrs[..n]);
      DeleteAllIs(s, addrs[..n]);
    }
  }

  lemma {:induction false} OutputsWithout(blobs: map<nat, DeviceBlobs>, gone: set<nat>, serial: nat, xs: seq<Operand>)
    requires Addrs(xs) !! gone
    ensures AddOutputs(blobs - gone, serial, xs) == AddOutputs(blobs, serial, xs) - gone
  {
    if xs != [] {
      var n := |xs| - 1;
      assert xs[n] in xs;
      assert Addrs(xs[..n]) <= Addrs(xs);
      OutputsWithout(blobs, gone, serial, xs[..n]);
    }
  }

  /** Dropping addresses that `op` does not touch does not change what its kernels capture. */
  lemma SameKernelFor(blobs: map<nat, DeviceBlobs>, gone: set<nat>, serial: nat, op: Operator, d: Device)
    requires Present(blobs - gone, op.inputs) && Addrs(op.outputs) !! gone
    ensures KernelFor(blobs - gone, serial, op, d) == KernelFor(blobs, serial, op, d)
  {
    OutputsWithout(blobs, gone, serial, op.outputs);
    SameCapture(blobs, gone, op.inputs, true, d);
    OutputKeys(blobs, serial, op.outputs);
    SameCapture(AddOutputs(blobs, serial, op.outputs), gone, op.outputs, false, d);
  }

  lemma SameCapture(blobs: map<nat, DeviceBlobs>, gone: set<nat>, xs: seq<Operand>, skipNull: bool, d: Device)
    requires Present(blobs - gone, xs)
    ensures CaptureAll(blobs - gone, xs, skipNull, d) == CaptureAll(blobs, xs, skipNull, d)
  {
    forall i | 0 <= i < |xs|
      ensures Capture(blobs - gone, xs[i], skipNull, d) == Capture(blobs, xs[i], skipNull, d)
    {
      assert xs[i] in xs;
    }
  }

  lemma SameLaunch(r: Runner, gone: set<nat>, op: Operator)
    requires Present(r.blobs - gone, op.inputs) && Addrs(op.outputs) !! gone
    ensures LaunchOperator(r.(blobs := r.blobs - gone), op) == LaunchOperator(r, op)
  {
    var s := r.(blobs := r.blobs - gone);
    forall d | d in LaunchOperator(r, op)
      ensures LaunchOperator(s, op)[d] == LaunchOperator(r, op)[d]
    {
      SameKernelFor(r.blobs, gone, r.serial, op, d);
    }
  }

  lemma SameCanCreate(blobs: map<nat, DeviceBlobs>, gone: set<nat>, op: Operator)
    requires CanCreate(blobs - gone, op) && gone <= blobs.Keys
    ensures CanCreate(blobs, op) <==> Addrs(op.outputs) !! gone
  {
    forall d | d in op.keys
      ensures CanCaptureAll(blobs, op.inputs, d)
    {
      assert CanCaptureAll(blobs - gone, op.inputs, d);
    }
    if Addrs(op.outputs) !! gone {
      forall x | x in op.outputs
        ensures x.addr !in blobs
      {
        assert x.addr in Addrs(op.outputs);
      }
    } else {
      var a :| a in Addrs(op.outputs) && a in gone;
      assert !Absent(blobs, op.outputs);
    }
  }

  /** Creating before or after unrelated deletions is the same. */
  lemma CreateCommutes(r: Runner, gone: set<nat>, op: Operator)
    requires CanCreate(r.blobs - gone, op) && gone <= r.blobs.Keys && Addrs(op.outputs) !! gone
    ensures CanCreate(r.blobs, op)
    ensures Create(r.(blobs := r.blobs - gone), op) ==
            Some(Create(r, op).value.(blobs := Create(r, op).value.blobs - gone))
  {
    SameCanCreate(r.blobs, gone, op);
    SameLaunch(r, gone, op);
    OutputsWithout(r.blobs, gone, r.serial, op.outputs);
  }

  lemma {:induction false} NoHoldsMember(msgs: seq<Message>, a: nat)
    ensures a in NoHolds(msgs) <==> NoHold(a) in msgs
  {
    if msgs != [] {
      NoHoldsMember(msgs[..|msgs| - 1], a);
      assert msgs == msgs[..|msgs| - 1] + [msgs[|msgs| - 1]];
    }
  }

  lemma NoReuseSnoc(b: seq<Message>, m: Message)
    ensures NoReuse(b + [m]) <==>
      NoReuse(b) && (m.AddOperator? ==> Addrs(m.op.outputs) !! Elements(NoHolds(b)))
  {
    var msgs := b + [m];
    assert forall i :: 0 <= i < |b| ==> msgs[i] == b[i];
    if m.AddOperator? {
      forall a
        ensures a in Elements(NoHolds(b)) <==> NoHold(a) in b
      {
        NoHoldsMember(b, a);
      }
      if NoReuse(b) && !(Addrs(m.op.outputs) !! Elements(NoHolds(b))) {
        var a :| a in Addrs(m.op.outputs) && a in Elements(NoHolds(b));
        var i :| 0 <= i < |b| && b[i] == NoHold(a);
        assert msgs[i].NoHold? && msgs[|b|].AddOperator?;
      }
      if NoReuse(msgs) {
        forall i, j | 0 <= i < j < |b| && b[i].NoHold? && b[j].AddOperator?
          ensures b[i].operand !in Addrs(b[j].op.outputs)
        {
          assert msgs[i] == b[i] && msgs[j] == b[j];
        }
      }
    }
  }

  /** One more operator behind a batch whose creations and deletions went well. */
  lemma OneMoreCreate(t: Runner, dels: seq<nat>, op: Operator)
    requires DeleteAll(t, dels).Some? && Create(DeleteAll(t, dels).value, op).Some?
    ensures Addrs(op.outputs) !! Elements(dels) ==>
      Create(t, op).Some? && DeleteAll(Create(t, op).value, dels) == Create(DeleteAll(t, dels).value, op)
    ensures !(Addrs(op.outputs) !! Elements(dels)) ==> Create(t, op).None?
  {
    DeleteAllIs(t, dels);
    SameCanCreate(t.blobs, Elements(dels), op);
    if Addrs(op.outputs) !! Elements(dels) {
      CreateCommutes(t, Elements(dels), op);
      var u := Create(t, op).value;
      OutputKeys(t.blobs, t.serial, op.outputs);
      DeleteAllMonotone(t, u, dels);
      DeleteAllIs(u, dels);
    }
  }

  /** A batch whose messages can be handled one at a time either gives the same runner, or, exactly when
    * an operator reuses an address dropped earlier in the batch, trips an assertion on creation. */
  lemma {:induction false} BatchingUnobservable(r: Runner, batch: seq<Message>)
    requires Replay(r, batch).Some?
    ensures NoReuse(batch) ==> RunBatch(r, batch) == Replay(r, batch)
    ensures NoReuse(batch) ==> CreateAll(r, Ops(batch)).Some?
    ensures !NoReuse(batch) ==> CreateAll(r, Ops(batch)).None? && RunBatch(r, batch).None?
  {
    if batch != [] {
      var b, m := batch[..|batch| - 1], batch[|batch| - 1];
      assert batch == b + [m];
      SnocMessage(b, m);
      NoReuseSnoc(b, m);
      BatchingUnobservable(r, b);
      if NoReuse(b) {
        var t := CreateAll(r, Ops(b)).value;
        match m {
          case AddOperator(op) =>
            assert (Ops(b) + [op])[..|Ops(b)|] == Ops(b);
            OneMoreCreate(t, NoHolds(b), op);
          case NoHold(a) =>
            assert (NoHolds(b) + [a])[..|NoHolds(b)|] == NoHolds(b);
          case SetOperandName(_, _) =>
        }
      } else {
        match m {
          case AddOperator(op) =>
            assert (Ops(b) + [op])[..|Ops(b)|] == Ops(b);
          case _ =>
        }
      }
    }
  }

  lemma {:induction false} ReplayConcat(r: Runner, a: seq<Message>, b: seq<Message>)
    ensures Replay(r, a + b) == match Replay(r, a) case None => None case Some(s) => Replay(s, b)
  {
    if b == [] {
      assert a + b == a;
    } else {
      assert (a + b)[..|a + b| - 1] == a + b[..|b| - 1];
      ReplayConcat(r, a, b[..|b| - 1]);
    }
  }

  predicate NoReuseInAny(batches: seq<seq<Message>>) {
    forall b :: b in batches ==> NoReuse(b)
  }

  lemma NoReuseInAnySnoc(batches: seq<seq<Message>>, b: seq<Message>)
    ensures NoReuseInAny(batches + [b]) <==> NoReuseInAny(batches) && NoReuse(b)
  {
    if NoReuseInAny(batches + [b]) {
      forall c | c in batches
        ensures NoReuse(c)
      {
        assert c in batches + [b];
      }
      assert b in batches + [b];
    }
  }

  /** However a run of messages is cut into batches, the runner ends up the same. */
  lemma {:induction false} AnyBatching(r: Runner, batches: seq<seq<Message>>)
    requires Replay(r, Flatten(batches)).Some?
    ensures NoReuseInAny(batches) <==> RunBatches(r, batches).Some?
    ensures NoReuseInAny(batches) ==> RunBatches(r, batches) == Replay(r, Flatten(batches))
  {
    if batches != [] {
      var front, last := batches[..|batches| - 1], batches[|batches| - 1];
      assert batches == front + [last];
      NoReuseInAnySnoc(front, last);
      ReplayConcat(r, Flatten(front), last);
      AnyBatching(r, front);
      if NoReuseInAny(front) {
        BatchingUnobservable(Replay(r, Flatten(front)).value, last);
      }
    }
  }
}

/** The API thread's side: reference counts of the API tensors, and the messages they give rise to. */
module GraphConstructor {
  import opened Wrappers
  import opened Operators

  /** Counts of live API tensors, by operand address. */
  type Caches = map<nat, nat>

  function WithZeros(caches: Caches, addrs: set<nat>): (r: Caches) {
    map a | a in caches.Keys + addrs :: if a in caches then caches[a] else 0
  }

  lemma OneMoreZero(caches: Caches, addrs: set<nat>, a: nat)
    requires a !in caches
    ensures WithZeros(caches, addrs + {a}) == WithZeros(caches, addrs)[a := 0]
  {
  }

  /** Every output of a new operator gets an entry, at zero; none if an entry is already there. */
  function InitCaches(caches: Caches, outputs: seq<Operand>): (r: Option<Caches>) {
    if DistinctAddrs(outputs) && Addrs(outputs) !! caches.Keys then
      Some(WithZeros(caches, Addrs(outputs)))
    else None
  }

  function Increase(caches: Caches, a: nat): (r: Option<Caches>) {
    if a in caches then Some(caches[a := caches[a] + 1]) else None
  }

  /** One tensor less. The last one takes the entry with it. */
  function Decrease(caches: Caches, a: nat): (r: Option<Caches>) {
    if a !in caches || caches[a] == 0 then None
    else if caches[a] == 1 then Some(caches - {a})
    else Some(caches[a := caches[a] - 1])
  }

  /** The messages sent along with `Decrease`. */
  function DecreaseMessages(caches: Caches, a: nat): (r: seq<Message>) {
    if a in caches && caches[a] == 1 then [NoHold(a)] else []
  }

  class GraphConstructor {
    var mOperandCaches: Caches
    /** Everything pushed to the message queue so far. */
    var mEGEMessageQueue: seq<Message>

    constructor ()
      ensures mOperandCaches == map[] && mEGEMessageQueue == []
    {
      mOperandCaches, mEGEMessageQueue := map[], [];
    }

    method SendOperatorToExecutor(op: Operator)
      requires InitCaches(mOperandCaches, op.outputs).Some?
      modifies this
      ensures InitCaches(old(mOperandCaches), op.outputs) == Some(mOperandCaches)
      ensures mEGEMessageQueue == old(mEGEMessageQueue) + [AddOperator(op)]
    {
      ghost var caches := mOperandCaches;
      assert WithZeros(caches, {}) == caches;
      for i := 0 to |op.outputs|
        invariant mOperandCaches == WithZeros(caches, Addrs(op.outputs[..i]))
        invariant mEGEMessageQueue == old(mEGEMessageQueue)
      {
        var x := op.outputs[i];
        assert x in op.outputs && x.addr in Addrs(op.outputs);
        assert Addrs(op.outputs[..i + 1]) == Addrs(op.outputs[..i]) + {x.addr} by {
          assert op.outputs[..i + 1] == op.outputs[..i] + [x];
        }
        OneMoreZero(caches, Addrs(op.outputs[..i]), x.addr);
        InitOperandCache(x.addr);
      }
      assert op.outputs[..|op.outputs|] == op.outputs;
      mEGEMessageQueue := mEGEMessageQueue + [AddOperator(op)];
    }

    method InitOperandCache(a: nat)
      requires a !in mOperandCaches
      modifies this`mOperandCaches
      ensures mOperandCaches == old(mOperandCaches)[a := 0]
    {
      mOperandCaches := mOperandCaches[a := 0];
    }

    method ApiTensorRefCountIncrease(a: nat)
      requires a in mOperandCaches
      modifies this`mOperandCaches
      ensures Increase(old(mOperandCaches), a) == Some(mOperandCaches)
    {
      mOperandCaches := mOperandCaches[a := mOperandCaches[a] + 1];
    }

    method ApiTensorRefCountDecrease(a: nat)
      requires a in mOperandCaches && mOperandCaches[a] >= 1
      modifies this
      ensures Decrease(old(mOperandCaches), a) == Some(mOperandCaches)
      ensures mEGEMessageQueue == old(mEGEMessageQueue) + DecreaseMessages(old(mOperandCaches), a)
    {
      if mOperandCaches[a] == 1 {
        mOperandCaches := mOperandCaches - {a};
        mEGEMessageQueue := mEGEMessageQueue + [NoHold(a)];
      } else {
        mOperandCaches := mOperandCaches[a := mOperandCaches[a] - 1];
      }
    }
  }
}

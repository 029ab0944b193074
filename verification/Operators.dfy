/** Operands, operators and the messages about them that travel from the API thread to the executor. */
module Operators {
  import opened DistributedSpec

  /** One device of the cluster. Every operator modelled here runs on the compute stream of its
    * devices, so a device also stands for its stream key. */
  datatype Device = Device(kind: DeviceKind, id: int)

  /** An operand as the runner sees it: `addr` is the pointer value used as a key, `kind` and `ids`
    * are its device mesh, `isNull` says that its shape is the null tensor shape. */
  datatype Operand = Operand(addr: nat, kind: DeviceKind, ids: set<int>, isNull: bool) {
    predicate Contains(d: Device) {
      d.kind == kind && d.id in ids
    }
  }

  /** An operator: `addr` is its own pointer value, `keys` the stream keys it was assigned to. */
  datatype Operator = Operator(addr: nat, inputs: seq<Operand>, outputs: seq<Operand>, keys: set<Device>)

  datatype Message =
    | AddOperator(op: Operator)
    | NoHold(operand: nat)
    | SetOperandName(operand: nat, name: string)

  /** The next element of an unordered container: any of them. */
  method AnyOf<T(==)>(s: set<T>) returns (x: T)
    requires s != {}
    ensures x in s
  {
    x :| x in s;
  }

  function Addrs(operands: seq<Operand>): (r: set<nat>) {
    set x | x in operands :: x.addr
  }

  /** No two operands of the list share an address. */
  predicate DistinctAddrs(operands: seq<Operand>) {
    forall i, j :: 0 <= i < j < |operands| ==> operands[i].addr != operands[j].addr
  }

  /** The operators of a list of messages, in order. */
  function Ops(msgs: seq<Message>): (r: seq<Operator>) {
    if msgs == [] then []
    else
      var m := msgs[|msgs| - 1];
      if m.AddOperator? then Ops(msgs[..|msgs| - 1]) + [m.op] else Ops(msgs[..|msgs| - 1])
  }

  /** The addresses reported as no longer held, in order. */
  function NoHolds(msgs: seq<Message>): (r: seq<nat>) {
    if msgs == [] then []
    else
      var m := msgs[|msgs| - 1];
      if m.NoHold? then NoHolds(msgs[..|msgs| - 1]) + [m.operand] else NoHolds(msgs[..|msgs| - 1])
  }

  lemma SnocMessage(msgs: seq<Message>, m: Message)
    ensures (msgs + [m])[..|msgs|] == msgs
    ensures Ops(msgs + [m]) == if m.AddOperator? then Ops(msgs) + [m.op] else Ops(msgs)
    ensures NoHolds(msgs + [m]) == if m.NoHold? then NoHolds(msgs) + [m.operand] else NoHolds(msgs)
  {
    assert (msgs + [m])[..|msgs|] == msgs;
  }
}

/** The executor thread: the logical graph, the batch being collected, and the hand-over to the runner. */
module GraphExecutor {
  import opened Sequences
  import opened Wrappers
  import opened Operators
  import opened Runners
  import opened Batching

  /** `opMap` and `operands` are the two maps of the logical graph (of the operand map only its keys
    * matter). `newOps` and `newNoHold` are what the current batch has collected. `releasing` lists the
    * operands the logical graph has yet to let go of at the end of a batch. */
  datatype Executor = Executor(opMap: map<nat, Operator>, operands: set<nat>, newOps: seq<nat>, newNoHold: seq<nat>,
                               releasing: seq<nat>, runner: Runner)

  predicate CanAdd(opMap: map<nat, Operator>, operands: set<nat>, op: Operator) {
    DistinctAddrs(op.outputs) && Addrs(op.outputs) !! operands && op.addr !in opMap
  }

  /** Handles one message. No result: an assertion of the executor or of the logical graph fails. */
  function Receive(e: Executor, m: Message): (next: Option<Executor>) {
    match m
    case AddOperator(op) =>
      if CanAdd(e.opMap, e.operands, op) then
        Some(e.(opMap := e.opMap[op.addr := op], operands := e.operands + Addrs(op.outputs), newOps := e.newOps + [op.addr]))
      else None
    case NoHold(a) => Some(e.(newNoHold := e.newNoHold + [a]))
    case SetOperandName(a, _) => if a in e.operands then Some(e) else None
  }

  predicate AllIn(opMap: map<nat, Operator>, ptrs: seq<nat>) {
    forall p :: p in ptrs ==> p in opMap
  }

  function OpsAt(opMap: map<nat, Operator>, ptrs: seq<nat>): (r: seq<Operator>)
    requires AllIn(opMap, ptrs)
  {
    seq(|ptrs|, i requires 0 <= i < |ptrs| => opMap[ptrs[i]])
  }

  /** Executes the batch, up to the point where the logical graph starts to let go of operands. */
  function StartExecute(e: Executor): (next: Option<Executor>) {
    if e.newOps == [] && e.newNoHold == [] then Some(e)
    else if !NoRepeats(e.newOps) || !AllIn(e.opMap, e.newOps) then None
    else
      match ExecuteBatch(e.runner, OpsAt(e.opMap, e.newOps), e.newNoHold)
      case None => None
      case Some(r) =>
        Some(e.(opMap := e.opMap - Elements(e.newOps), newOps := [], newNoHold := [], releasing := e.newNoHold, runner := r))
  }

  /** The logical graph lets go of one operand. */
  function ReleaseOne(e: Executor): (next: Option<Executor>)
    requires e.releasing != []
  {
    if e.releasing[0] in e.operands
    then Some(e.(operands := e.operands - {e.releasing[0]}, releasing := e.releasing[1..]))
    else None
  }

  function ReleaseAll(e: Executor): (next: Option<Executor>)
    decreases |e.releasing|
  {
    if e.releasing == [] then Some(e)
    else
      match ReleaseOne(e)
      case None => None
      case Some(f) => ReleaseAll(f)
  }

  class LogicalGraph {
    var mOperatorMap: map<nat, Operator>
    var mOperandMap: map<nat, Operand>

    constructor ()
      ensures mOperatorMap == map[] && mOperandMap == map[]
    {
      mOperatorMap, mOperandMap := map[], map[];
    }

    method AddOperator(op: Operator)
      requires op.addr !in mOperatorMap
      modifies this`mOperatorMap
      ensures mOperatorMap == old(mOperatorMap)[op.addr := op]
    {
      mOperatorMap := mOperatorMap[op.addr := op];
    }

    method AddOperand(x: Operand)
      requires x.addr !in mOperandMap
      modifies this`mOperandMap
      ensures mOperandMap == old(mOperandMap)[x.addr := x]
    {
      mOperandMap := mOperandMap[x.addr := x];
    }

    method DeleteOperator(p: nat)
      requires p in mOperatorMap
      modifies this`mOperatorMap
      ensures mOperatorMap == old(mOperatorMap) - {p}
    {
      mOperatorMap := mOperatorMap - {p};
    }

    method DeleteOperand(a: nat)
      requires a in mOperandMap
      modifies this`mOperandMap
      ensures mOperandMap == old(mOperandMap) - {a}
    {
      mOperandMap := mOperandMap - {a};
    }
  }

  class EagerGraphExecutor {
    var mNewAddOperatorSequence: seq<nat>
    var mNewAddNoHoldOperand: seq<nat>
    const mLogicalGraph: LogicalGraph
    const mNodeRunner: NaiveRunner

    constructor (supportedDevices: set<Device>)
      ensures View() == Executor(map[], {}, [], [], [], Runner(supportedDevices, map[], 0, map[]))
      ensures fresh(mLogicalGraph) && fresh(mNodeRunner) && fresh(mNodeRunner.mStreamManager)
    {
      mNewAddOperatorSequence, mNewAddNoHoldOperand := [], [];
      mLogicalGraph := new LogicalGraph();
      mNodeRunner := new NaiveRunner(supportedDevices);
    }

    /** The state between two messages: nothing is being released. */
    ghost function View(): (e: Executor)
      reads this, mLogicalGraph, mNodeRunner, mNodeRunner.mStreamManager
    {
      Executor(mLogicalGraph.mOperatorMap, mLogicalGraph.mOperandMap.Keys, mNewAddOperatorSequence,
               mNewAddNoHoldOperand, [], mNodeRunner.View())
    }

    method AddOperator(op: Operator)
      requires Receive(View(), Message.AddOperator(op)).Some?
      modifies this`mNewAddOperatorSequence, mLogicalGraph
      ensures Receive(old(View()), Message.AddOperator(op)) == Some(View())
    {
      ghost var operands := mLogicalGraph.mOperandMap.Keys;
      for i := 0 to |op.outputs|
        invariant mLogicalGraph.mOperatorMap == old(mLogicalGraph.mOperatorMap)
        invariant mNewAddOperatorSequence == old(mNewAddOperatorSequence)
        invariant mLogicalGraph.mOperandMap.Keys == operands + Addrs(op.outputs[..i])
      {
        assert op.outputs[i] in op.outputs;
        assert op.outputs[..i + 1] == op.outputs[..i] + [op.outputs[i]];
        mLogicalGraph.AddOperand(op.outputs[i]);
      }
      assert op.outputs[..|op.outputs|] == op.outputs;
      mNewAddOperatorSequence := mNewAddOperatorSequence + [op.addr];
      mLogicalGraph.AddOperator(op);
    }

    method AddApiTensorNoHoldOperand(a: nat)
      modifies this`mNewAddNoHoldOperand
      ensures Receive(old(View()), NoHold(a)) == Some(View())
    {
      mNewAddNoHoldOperand := mNewAddNoHoldOperand + [a];
    }

    /** Executes the collected batch and clears it. */
    method ExecuteOperatorsAndNoHoldOperands()
      requires StartExecute(View()).Some? && ReleaseAll(StartExecute(View()).value).Some?
      modifies this, mLogicalGraph, mNodeRunner, mNodeRunner.mStreamManager
      ensures ReleaseAll(StartExecute(old(View())).value) == Some(View())
    {
      if |mNewAddOperatorSequence| + |mNewAddNoHoldOperand| == 0 {
        return;
      }
      ghost var e := View();
      var noHoldOperands := mNewAddNoHoldOperand;
      var ops := TakeOperators();
      mNodeRunner.Execute(ops, noHoldOperands);
      mNewAddOperatorSequence, mNewAddNoHoldOperand := [], [];
      ReleaseOperands(StartExecute(e).value, noHoldOperands);
    }

    /** Moves the operators of the batch out of the logical graph. */
    method TakeOperators() returns (ops: seq<Operator>)
      requires NoRepeats(mNewAddOperatorSequence) && AllIn(mLogicalGraph.mOperatorMap, mNewAddOperatorSequence)
      modifies mLogicalGraph`mOperatorMap
      ensures ops == OpsAt(old(mLogicalGraph.mOperatorMap), mNewAddOperatorSequence)
      ensures mLogicalGraph.mOperatorMap == old(mLogicalGraph.mOperatorMap) - Elements(mNewAddOperatorSequence)
    {
      ops := [];
      var seqs := mNewAddOperatorSequence;
      for i := 0 to |seqs|
        invariant ops == OpsAt(old(mLogicalGraph.mOperatorMap), seqs)[..i]
        invariant mLogicalGraph.mOperatorMap == old(mLogicalGraph.mOperatorMap) - Elements(seqs[..i])
      {
        assert seqs[i] in seqs;
        assert seqs[..i + 1] == seqs[..i] + [seqs[i]];
        assert Elements(seqs[..i + 1]) == Elements(seqs[..i]) + {seqs[i]};
        ops := ops + [mLogicalGraph.mOperatorMap[seqs[i]]];
        mLogicalGraph.DeleteOperator(seqs[i]);
      }
      assert seqs[..|seqs|] == seqs;
    }

    /** Lets the logical graph let go of the operands, one after the other. */
    method ReleaseOperands(ghost e: Executor, noHoldOperands: seq<nat>)
      requires e == View().(releasing := noHoldOperands) && ReleaseAll(e).Some?
      modifies mLogicalGraph`mOperandMap
      ensures ReleaseAll(e) == Some(View())
    {
      for i := 0 to |noHoldOperands|
        invariant ReleaseAll(View().(releasing := noHoldOperands[i..])) == ReleaseAll(e)
      {
        ghost var now := View().(releasing := noHoldOperands[i..]);
        assert ReleaseOne(now).Some?;
        mLogicalGraph.DeleteOperand(noHoldOperands[i]);
        assert ReleaseOne(now) == Some(View().(releasing := noHoldOperands[i + 1..]));
      }
    }
  }
}

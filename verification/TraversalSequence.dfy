/** The order in which a batch of operators is executed: a list with an index from operators to list nodes. */
module TraversalSequence {
  import opened Sequences
  import opened Wrappers

  function PositionOf(nodes: seq<nat>, node: nat): (i: nat)
    requires node in nodes
    ensures i < |nodes| && nodes[i] == node
  {
    if nodes[0] == node then 0 else PositionOf(nodes[1..], node) + 1
  }

  /** The operators of the nodes, in order. */
  function OpsOf(nodes: seq<nat>, value: map<nat, nat>): (r: seq<nat>)
    requires forall n :: n in nodes ==> n in value
  {
    seq(|nodes|, i requires 0 <= i < |nodes| && nodes[i] in value => value[nodes[i]])
  }

  /** Each operator is led to the one node that holds it, and back. */
  ghost predicate Inverse(value: map<nat, nat>, index: map<nat, nat>) {
    && (forall n :: n in value ==> value[n] in index && index[value[n]] == n)
    && (forall op :: op in index ==> index[op] in value && value[index[op]] == op)
  }

  ghost predicate SameMembers(nodes: seq<nat>, value: map<nat, nat>) {
    forall n :: n in nodes <==> n in value
  }

  lemma InsertedMembers(nodes: seq<nat>, at: nat, node: nat)
    requires at <= |nodes| && node !in nodes && NoRepeats(nodes)
    ensures NoRepeats(nodes[..at] + [node] + nodes[at..])
    ensures forall n :: n in nodes[..at] + [node] + nodes[at..] <==> n == node || n in nodes
  {
    assert nodes == nodes[..at] + nodes[at..];
  }

  lemma ErasedMembers(nodes: seq<nat>, at: nat)
    requires at < |nodes| && NoRepeats(nodes)
    ensures NoRepeats(nodes[..at] + nodes[at + 1..])
    ensures forall n :: n in nodes[..at] + nodes[at + 1..] <==> n != nodes[at] && n in nodes
  {
    assert nodes == nodes[..at] + [nodes[at]] + nodes[at + 1..];
  }

  lemma InsertedOps(nodes: seq<nat>, value: map<nat, nat>, at: nat, node: nat, op: nat)
    requires at <= |nodes| && node !in nodes && NoRepeats(nodes) && SameMembers(nodes, value)
    ensures SameMembers(nodes[..at] + [node] + nodes[at..], value[node := op])
    ensures OpsOf(nodes[..at] + [node] + nodes[at..], value[node := op]) ==
            OpsOf(nodes, value)[..at] + [op] + OpsOf(nodes, value)[at..]
  {
    InsertedMembers(nodes, at, node);
  }

  lemma ErasedOps(nodes: seq<nat>, value: map<nat, nat>, at: nat)
    requires at < |nodes| && NoRepeats(nodes) && SameMembers(nodes, value)
    ensures SameMembers(nodes[..at] + nodes[at + 1..], value - {nodes[at]})
    ensures OpsOf(nodes[..at] + nodes[at + 1..], value - {nodes[at]}) ==
            OpsOf(nodes, value)[..at] + OpsOf(nodes, value)[at + 1..]
  {
    ErasedMembers(nodes, at);
  }

  lemma InsertedInverse(value: map<nat, nat>, index: map<nat, nat>, node: nat, op: nat)
    requires Inverse(value, index) && node !in value && op !in index
    ensures Inverse(value[node := op], index[op := node])
  {
  }

  lemma ErasedInverse(value: map<nat, nat>, index: map<nat, nat>, node: nat)
    requires Inverse(value, index) && node in value
    ensures Inverse(value - {node}, index - {value[node]})
  {
  }

  /** The index covers exactly the operators in the list, and they are all different. */
  lemma IndexedOps(nodes: seq<nat>, value: map<nat, nat>, index: map<nat, nat>)
    requires NoRepeats(nodes) && SameMembers(nodes, value) && Inverse(value, index)
    ensures NoRepeats(OpsOf(nodes, value))
    ensures forall op :: op in index <==> op in OpsOf(nodes, value)
  {
    var ops := OpsOf(nodes, value);
    forall i, j | 0 <= i < j < |ops|
      ensures ops[i] != ops[j]
    {
      assert index[ops[i]] == nodes[i] && index[ops[j]] == nodes[j];
    }
    forall op | op in index
      ensures op in ops
    {
      var i := PositionOf(nodes, index[op]);
      assert ops[i] == op;
    }
  }

  /** `mNodes` are the list's nodes in order, `mValue` the operator in each node, `mNodeMap` the index. */
  class GraphTraversalSequence {
    var mNodes: seq<nat>
    var mValue: map<nat, nat>
    var mNodeMap: map<nat, nat>
    var mFresh: nat

    /** Index and list agree. */
    ghost predicate Valid()
      reads this
    {
      && NoRepeats(mNodes)
      && SameMembers(mNodes, mValue)
      && Inverse(mValue, mNodeMap)
      && forall n :: n in mValue ==> n < mFresh
    }

    /** The operators in order. */
    ghost function Contents(): (r: seq<nat>)
      reads this
      requires Valid()
    {
      OpsOf(mNodes, mValue)
    }

    constructor ()
      ensures Valid() && Contents() == [] && mNodeMap == map[]
    {
      mNodes, mValue, mNodeMap, mFresh := [], map[], map[], 0;
    }

    method Clear()
      modifies this
      ensures Valid() && Contents() == [] && mNodes == [] && mNodeMap == map[]
    {
      mNodes, mValue, mNodeMap, mFresh := [], map[], map[], 0;
    }

    /** Inserts behind the node `pos`, or at the end if there is no such node. */
    method InsertAfter(pos: Option<nat>, op: nat) returns (node: nat)
      requires Valid() && op !in mNodeMap && (pos.Some? ==> pos.value in mNodes)
      modifies this
      ensures Valid() && node == old(mFresh) && node !in old(mNodes) && mNodeMap == old(mNodeMap)[op := node]
      ensures var at := if pos.None? then |old(mNodes)| else PositionOf(old(mNodes), pos.value) + 1;
        && mNodes == old(mNodes)[..at] + [node] + old(mNodes)[at..]
        && Contents() == old(Contents())[..at] + [op] + old(Contents())[at..]
    {
      var at := if pos.None? then |mNodes| else PositionOf(mNodes, pos.value) + 1;
      node := InsertAt(at, op);
    }

    method InsertAt(at: nat, op: nat) returns (node: nat)
      requires Valid() && op !in mNodeMap && at <= |mNodes|
      modifies this
      ensures Valid() && node == old(mFresh) && node !in old(mNodes) && mNodeMap == old(mNodeMap)[op := node]
      ensures mNodes == old(mNodes)[..at] + [node] + old(mNodes)[at..]
      ensures Contents() == old(Contents())[..at] + [op] + old(Contents())[at..]
    {
      node := mFresh;
      InsertedMembers(mNodes, at, node);
      InsertedOps(mNodes, mValue, at, node, op);
      InsertedInverse(mValue, mNodeMap, node, op);
      mFresh, mNodes := mFresh + 1, mNodes[..at] + [node] + mNodes[at..];
      mValue, mNodeMap := mValue[node := op], mNodeMap[op := node];
    }

    /** Removes a node together with its index entry. */
    method Erase(pos: nat)
      requires Valid() && pos in mNodes
      modifies this
      ensures Valid() && mNodeMap == old(mNodeMap) - {old(mValue)[pos]}
      ensures var at := PositionOf(old(mNodes), pos);
        && mNodes == old(mNodes)[..at] + old(mNodes)[at + 1..]
        && Contents() == old(Contents())[..at] + old(Contents())[at + 1..]
    {
      EraseAt(PositionOf(mNodes, pos));
    }

    method EraseAt(at: nat)
      requires Valid() && at < |mNodes|
      modifies this
      ensures Valid() && mNodeMap == old(mNodeMap) - {old(mValue)[old(mNodes)[at]]}
      ensures mNodes == old(mNodes)[..at] + old(mNodes)[at + 1..]
      ensures Contents() == old(Contents())[..at] + old(Contents())[at + 1..]
    {
      var pos := mNodes[at];
      ErasedMembers(mNodes, at);
      ErasedOps(mNodes, mValue, at);
      ErasedInverse(mValue, mNodeMap, pos);
      mNodes := mNodes[..at] + mNodes[at + 1..];
      mValue, mNodeMap := mValue - {pos}, mNodeMap - {mValue[pos]};
    }

    /** The body of the loop of `FromVec`: inserts behind the last node. */
    method InsertAfterLast(last: Option<nat>, op: nat) returns (node: nat)
      requires Valid() && op !in Contents()
      requires if mNodes == [] then last == None else last == Some(mNodes[|mNodes| - 1])
      modifies this
      ensures Valid() && mNodes == old(mNodes) + [node] && Contents() == old(Contents()) + [op]
    {
      IndexedOps(mNodes, mValue, mNodeMap);
      LastPosition(mNodes);
      AtTheEnd(mNodes, mFresh);
      AtTheEnd(Contents(), op);
      node := InsertAfter(last, op);
    }

    method FromVec(ops: seq<nat>)
      requires NoRepeats(ops)
      modifies this
      ensures Valid() && Contents() == ops
    {
      Clear();
      var lastIter: Option<nat> := None;
      for i := 0 to |ops|
        invariant Valid() && Contents() == ops[..i]
        invariant if mNodes == [] then lastIter == None else lastIter == Some(mNodes[|mNodes| - 1])
      {
        assert ops[i] !in ops[..i];
        var node := InsertAfterLast(lastIter, ops[i]);
        assert ops[..i + 1] == ops[..i] + [ops[i]];
        lastIter := Some(node);
      }
    }

    method ToVec() returns (ops: seq<nat>)
      requires Valid()
      ensures ops == Contents() && NoRepeats(ops)
    {
      ops := [];
      for i := 0 to |mNodes|
        invariant ops == OpsOf(mNodes, mValue)[..i]
      {
        ops := ops + [mValue[mNodes[i]]];
      }
      IndexedOps(mNodes, mValue, mNodeMap);
    }
  }

  lemma AtTheEnd(s: seq<nat>, x: nat)
    ensures s[..|s|] + [x] + s[|s|..] == s + [x]
  {
  }

  lemma LastPosition(nodes: seq<nat>)
    requires NoRepeats(nodes)
    ensures |nodes| > 0 ==> PositionOf(nodes, nodes[|nodes| - 1]) == |nodes| - 1
  {
  }
}

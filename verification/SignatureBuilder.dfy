/** Building placement signatures: every subset of the optional inputs may be absent, and all-Replicate is
  * always accepted. */
module SignatureBuilder {
  import opened Sequences
  import opened Wrappers
  import opened DistributedSpec
  import opened PlacementSignatures

  // ---------------------------------------------------------------- subsets of the optional inputs

  /** The recursion of the source: first without the element at `idx`, then with it. */
  function Combinations(indexes: seq<nat>, prefix: seq<nat>, idx: nat): (r: seq<seq<nat>>)
    decreases |indexes| - idx
  {
    if idx >= |indexes| then [prefix]
    else Combinations(indexes, prefix, idx + 1) + Combinations(indexes, prefix + [indexes[idx]], idx + 1)
  }

  function Pow2(n: nat): (r: nat) {
    if n == 0 then 1 else 2 * Pow2(n - 1)
  }

  lemma {:induction false} CombinationCount(indexes: seq<nat>, prefix: seq<nat>, idx: nat)
    requires idx <= |indexes|
    ensures |Combinations(indexes, prefix, idx)| == Pow2(|indexes| - idx)
    decreases |indexes| - idx
  {
    if idx < |indexes| {
      CombinationCount(indexes, prefix, idx + 1);
      CombinationCount(indexes, prefix + [indexes[idx]], idx + 1);
    }
  }

  lemma ElemsSnoc(s: seq<nat>, x: nat)
    ensures Elements(s + [x]) == Elements(s) + {x}
  {
  }

  lemma ElemsTail(s: seq<nat>, i: nat)
    requires i < |s|
    ensures Elements(s[i..]) == {s[i]} + Elements(s[i + 1..])
  {
    assert s[i..] == [s[i]] + s[i + 1..];
  }

  /** What is in a combination: the prefix, and otherwise only later elements. */
  lemma {:induction false} CombinationBound(indexes: seq<nat>, prefix: seq<nat>, idx: nat, v: seq<nat>)
    requires idx <= |indexes| && v in Combinations(indexes, prefix, idx)
    ensures Elements(prefix) <= Elements(v) <= Elements(prefix) + Elements(indexes[idx..])
    decreases |indexes| - idx
  {
    if idx < |indexes| {
      ElemsTail(indexes, idx);
      ElemsSnoc(prefix, indexes[idx]);
      if v in Combinations(indexes, prefix, idx + 1) {
        CombinationBound(indexes, prefix, idx + 1, v);
      } else {
        CombinationBound(indexes, prefix + [indexes[idx]], idx + 1, v);
      }
    }
  }

  /** Every subset of the later elements is chosen somewhere. */
  lemma {:induction false} EverySubset(indexes: seq<nat>, prefix: seq<nat>, idx: nat, chosen: set<nat>) returns (v: seq<nat>)
    requires idx <= |indexes| && chosen <= Elements(indexes[idx..])
    ensures v in Combinations(indexes, prefix, idx) && Elements(v) == Elements(prefix) + chosen
    decreases |indexes| - idx
  {
    if idx == |indexes| {
      v := prefix;
    } else {
      ElemsTail(indexes, idx);
      if indexes[idx] in chosen {
        ElemsSnoc(prefix, indexes[idx]);
        v := EverySubset(indexes, prefix + [indexes[idx]], idx + 1, chosen * Elements(indexes[idx + 1..]));
      } else {
        v := EverySubset(indexes, prefix, idx + 1, chosen);
      }
    }
  }

  /** Different positions hold different subsets. */
  lemma {:induction false} DistinctSubsets(indexes: seq<nat>, prefix: seq<nat>, idx: nat, i: nat, j: nat)
    requires NoRepeats(indexes) && idx <= |indexes| && Elements(prefix) !! Elements(indexes[idx..])
    requires i < j < |Combinations(indexes, prefix, idx)|
    ensures Elements(Combinations(indexes, prefix, idx)[i]) != Elements(Combinations(indexes, prefix, idx)[j])
    decreases |indexes| - idx
  {
    var x := indexes[idx];
    var without, with := Combinations(indexes, prefix, idx + 1), Combinations(indexes, prefix + [x], idx + 1);
    ElemsTail(indexes, idx);
    ElemsSnoc(prefix, x);
    assert x !in Elements(indexes[idx + 1..]);
    if j < |without| {
      DistinctSubsets(indexes, prefix, idx + 1, i, j);
    } else if i >= |without| {
      DistinctSubsets(indexes, prefix + [x], idx + 1, i - |without|, j - |without|);
    } else {
      assert without[i] in without && with[j - |without|] in with;
      CombinationBound(indexes, prefix, idx + 1, without[i]);
      CombinationBound(indexes, prefix + [x], idx + 1, with[j - |without|]);
      assert x !in Elements(without[i]) && x in Elements(with[j - |without|]);
    }
  }

  // ---------------------------------------------------------------- declared signatures

  /** The inputs with those at the listed positions absent. */
  function Absent(inputs: seq<Placement>, positions: seq<nat>): (r: seq<Placement>)
    requires Below(positions, |inputs|)
    ensures |r| == |inputs|
  {
    if positions == [] then inputs
    else
      var n := |positions| - 1;
      Absent(inputs, positions[..n])[positions[n] := Placement.Optional]
  }

  lemma {:induction false} AbsentAt(inputs: seq<Placement>, positions: seq<nat>, i: nat)
    requires Below(positions, |inputs|) && i < |inputs|
    ensures Absent(inputs, positions)[i] == if i in Elements(positions) then Placement.Optional else inputs[i]
  {
    if positions != [] {
      var n := |positions| - 1;
      assert positions == positions[..n] + [positions[n]];
      AbsentAt(inputs, positions[..n], i);
    }
  }

  predicate AllBelow(combinations: seq<seq<nat>>, n: nat) {
    forall v :: v in combinations ==> Below(v, n)
  }

  lemma CombinationsBelow(indexes: seq<nat>, n: nat)
    requires Below(indexes, n)
    ensures AllBelow(Combinations(indexes, [], 0), n)
  {
    forall v | v in Combinations(indexes, [], 0)
      ensures Below(v, n)
    {
      CombinationBound(indexes, [], 0, v);
      assert indexes[0..] == indexes;
      forall i | 0 <= i < |v|
        ensures v[i] < n
      {
        assert v[i] in Elements(v);
      }
    }
  }

  /** The signatures that one declaration stands for. */
  function Expansion(inputs: seq<Placement>, optionals: seq<nat>, outputs: seq<Placement>): (r: seq<Pair>)
    requires Below(optionals, |inputs|)
  {
    CombinationsBelow(optionals, |inputs|);
    var all := Combinations(optionals, [], 0);
    seq(|all|, i requires 0 <= i < |all| && AllBelow(all, |inputs|) => Pair(Absent(inputs, all[i]), outputs))
  }

  lemma ExpansionSizes(inputs: seq<Placement>, optionals: seq<nat>, outputs: seq<Placement>)
    requires Below(optionals, |inputs|)
    ensures forall p :: p in Expansion(inputs, optionals, outputs) ==> |p.inputs| == |inputs| && p.outputs == outputs
  {
    CombinationsBelow(optionals, |inputs|);
  }

  /** The declaration with any optional inputs absent, said position by position. */
  predicate IsVariant(inputs: seq<Placement>, optionals: seq<nat>, x: seq<Placement>) {
    && |x| == |inputs|
    && forall i :: 0 <= i < |x| ==> x[i] == inputs[i] || (i in optionals && x[i] == Placement.Optional)
  }

  /** A declaration stands for exactly its variants. */
  lemma ExpansionIsVariants(inputs: seq<Placement>, optionals: seq<nat>, outputs: seq<Placement>, x: seq<Placement>)
    requires Below(optionals, |inputs|)
    ensures Pair(x, outputs) in Expansion(inputs, optionals, outputs) <==> IsVariant(inputs, optionals, x)
  {
    var all := Combinations(optionals, [], 0);
    CombinationsBelow(optionals, |inputs|);
    assert optionals[0..] == optionals;
    if Pair(x, outputs) in Expansion(inputs, optionals, outputs) {
      var k :| 0 <= k < |all| && Expansion(inputs, optionals, outputs)[k] == Pair(x, outputs);
      assert all[k] in all;
      CombinationBound(optionals, [], 0, all[k]);
      forall i | 0 <= i < |x|
        ensures x[i] == inputs[i] || (i in optionals && x[i] == Placement.Optional)
      {
        AbsentAt(inputs, all[k], i);
      }
    }
    if IsVariant(inputs, optionals, x) {
      var chosen := set i: nat | i < |x| && i in optionals && x[i] == Placement.Optional;
      var v := EverySubset(optionals, [], 0, chosen);
      VariantIsAbsent(inputs, optionals, x, v);
      var k :| 0 <= k < |all| && all[k] == v;
      assert Expansion(inputs, optionals, outputs)[k] == Pair(x, outputs);
    }
  }

  lemma VariantIsAbsent(inputs: seq<Placement>, optionals: seq<nat>, x: seq<Placement>, v: seq<nat>)
    requires Below(optionals, |inputs|) && Below(v, |inputs|) && IsVariant(inputs, optionals, x)
    requires Elements(v) == set i: nat | i < |x| && i in optionals && x[i] == Placement.Optional
    ensures Absent(inputs, v) == x
  {
    forall i | 0 <= i < |x|
      ensures Absent(inputs, v)[i] == x[i]
    {
      AbsentAt(inputs, v, i);
    }
  }

  /** It stands for two to the power of its optional inputs, all different if none of them was declared
    * absent to begin with. */
  lemma ExpansionCount(inputs: seq<Placement>, optionals: seq<nat>, outputs: seq<Placement>)
    requires Below(optionals, |inputs|) && NoRepeats(optionals)
    ensures |Expansion(inputs, optionals, outputs)| == Pow2(|optionals|)
    ensures (forall o :: o in optionals ==> inputs[o] != Placement.Optional) ==>
      forall i, j :: 0 <= i < j < |Expansion(inputs, optionals, outputs)| ==>
        Expansion(inputs, optionals, outputs)[i] != Expansion(inputs, optionals, outputs)[j]
  {
    CombinationCount(optionals, [], 0);
    if forall o :: o in optionals ==> inputs[o] != Placement.Optional {
      forall i, j | 0 <= i < j < |Expansion(inputs, optionals, outputs)|
        ensures Expansion(inputs, optionals, outputs)[i] != Expansion(inputs, optionals, outputs)[j]
      {
        ExpansionDistinct(inputs, optionals, outputs, i, j);
      }
    }
  }

  lemma ExpansionDistinct(inputs: seq<Placement>, optionals: seq<nat>, outputs: seq<Placement>, i: nat, j: nat)
    requires Below(optionals, |inputs|) && NoRepeats(optionals)
    requires forall o :: o in optionals ==> inputs[o] != Placement.Optional
    requires i < j < |Expansion(inputs, optionals, outputs)|
    ensures Expansion(inputs, optionals, outputs)[i] != Expansion(inputs, optionals, outputs)[j]
  {
    var all := Combinations(optionals, [], 0);
    CombinationsBelow(optionals, |inputs|);
    DistinctSubsets(optionals, [], 0, i, j);
    assert all[i] in all && all[j] in all;
    CombinationBound(optionals, [], 0, all[i]);
    CombinationBound(optionals, [], 0, all[j]);
    var o :| o in Elements(all[i]) + Elements(all[j]) && (o in Elements(all[i]) <==> o !in Elements(all[j]));
    assert o in optionals;
    AbsentAt(inputs, all[i], o);
    AbsentAt(inputs, all[j], o);
  }

  // ---------------------------------------------------------------- all-Replicate

  function AllReplicate(n: nat): (r: seq<Placement>)
    ensures |r| == n && forall i :: 0 <= i < n ==> r[i].Replicate?
  {
    seq(n, _ => Replicate)
  }

  /** If the later pairs all give the same outputs and one of them agrees, those outputs are the match. */
  lemma {:induction false} LastGroupWins(pairs: seq<Pair>, group: seq<Pair>, inputs: seq<Placement>, outputs: seq<Placement>)
    requires forall p :: p in group ==> p.outputs == outputs
    requires exists p :: p in group && SameErased(p.inputs, inputs)
    ensures LastMatch(pairs + group, inputs) == Some(outputs)
  {
    var front, last := group[..|group| - 1], group[|group| - 1];
    assert group == front + [last];
    assert (pairs + group)[..|pairs + group| - 1] == pairs + front;
    assert last in group;
    if !SameErased(last.inputs, inputs) {
      LastGroupWins(pairs, front, inputs, outputs);
    }
  }

  /** Whatever was declared: inputs that are all Replicate, some optional ones possibly absent, match and
    * give all-Replicate outputs. */
  lemma ReplicateAlwaysMatches(pairs: seq<Pair>, n: nat, m: nat, optionals: seq<nat>, inputs: seq<Placement>)
    requires Below(optionals, n) && IsVariant(AllReplicate(n), optionals, inputs)
    ensures LastMatch(pairs + Expansion(AllReplicate(n), optionals, AllReplicate(m)), inputs) == Some(AllReplicate(m))
  {
    var group := Expansion(AllReplicate(n), optionals, AllReplicate(m));
    ExpansionIsVariants(AllReplicate(n), optionals, AllReplicate(m), inputs);
    assert SameErased(Pair(inputs, AllReplicate(m)).inputs, inputs);
    LastGroupWins(pairs, group, inputs, AllReplicate(m));
  }

  lemma {:induction false} ReplicateTakesNoSubSplit(inputs: seq<Placement>, m: nat)
    ensures KeepSubSplit(inputs, AllReplicate(m)) == AllReplicate(m)
  {
    if inputs != [] {
      ReplicateTakesNoSubSplit(inputs[1..], m);
    }
  }

  /** The same along one axis of a match. */
  lemma ReplicateAlwaysMatchesAlong(pairs: seq<Pair>, n: nat, m: nat, optionals: seq<nat>, inputs: seq<seq<Placement>>,
                                    keep: bool, axis: nat)
    requires Below(optionals, n) && forall k :: 0 <= k < |inputs| ==> axis < |inputs[k]|
    requires IsVariant(AllReplicate(n), optionals, AxisInputs(inputs, axis))
    ensures AxisOutputs(pairs + Expansion(AllReplicate(n), optionals, AllReplicate(m)), inputs, keep, axis) ==
            Some(AllReplicate(m))
  {
    ReplicateAlwaysMatches(pairs, n, m, optionals, AxisInputs(inputs, axis));
    ReplicateTakesNoSubSplit(AxisInputs(inputs, axis), m);
  }

  /** ... and nothing declared earlier is lost, unless the last group overrides it. */
  lemma {:induction false} EarlierStays(pairs: seq<Pair>, group: seq<Pair>, inputs: seq<Placement>)
    requires forall p :: p in group ==> !SameErased(p.inputs, inputs)
    ensures LastMatch(pairs + group, inputs) == LastMatch(pairs, inputs)
  {
    if group == [] {
      assert pairs + group == pairs;
    } else {
      var front, last := group[..|group| - 1], group[|group| - 1];
      assert group == front + [last];
      assert last in group;
      assert (pairs + group)[..|pairs + group| - 1] == pairs + front;
      EarlierStays(pairs, front, inputs);
    }
  }

  /** The positions below `n` that were declared optional in some signature, in order. */
  function OptionalPositions(all: set<nat>, n: nat): (r: seq<nat>)
    ensures forall x :: x in r <==> x in all && x < n
    ensures Below(r, n) && NoRepeats(r)
  {
    if n == 0 then []
    else OptionalPositions(all, n - 1) + if n - 1 in all then [n - 1] else []
  }

  class Builder {
    const mInputSize: nat
    const mOutputSize: nat
    var mAllOptionalIndexs: set<nat>
    var mPlacementSignaturePair: seq<Pair>
    var mCurrentOptionalIndexs: seq<nat>
    var mCurrentInputSignature: seq<Placement>
    var mCurrentOutputSignature: seq<Placement>

    ghost predicate Valid()
      reads this
    {
      && |mCurrentOptionalIndexs| <= |mCurrentInputSignature|
      && Below(mCurrentOptionalIndexs, |mCurrentInputSignature|)
      && NoRepeats(mCurrentOptionalIndexs)
      && forall p :: p in mPlacementSignaturePair ==> |p.inputs| == mInputSize && |p.outputs| == mOutputSize
    }

    constructor (inputSize: nat, outputSize: nat)
      ensures Valid() && mInputSize == inputSize && mOutputSize == outputSize
      ensures mAllOptionalIndexs == {} && mPlacementSignaturePair == []
      ensures mCurrentOptionalIndexs == [] && mCurrentInputSignature == [] && mCurrentOutputSignature == []
    {
      mInputSize, mOutputSize := inputSize, outputSize;
      mAllOptionalIndexs, mPlacementSignaturePair := {}, [];
      mCurrentOptionalIndexs, mCurrentInputSignature, mCurrentOutputSignature := [], [], [];
    }

    method AddInput(p: Placement)
      requires Valid()
      modifies this`mCurrentInputSignature
      ensures Valid() && mCurrentInputSignature == old(mCurrentInputSignature) + [p]
    {
      mCurrentInputSignature := mCurrentInputSignature + [p];
    }

    method AddOptionalInput(p: Placement)
      requires Valid()
      modifies this`mCurrentInputSignature, this`mCurrentOptionalIndexs
      ensures Valid() && mCurrentInputSignature == old(mCurrentInputSignature) + [p]
      ensures mCurrentOptionalIndexs == old(mCurrentOptionalIndexs) + [|old(mCurrentInputSignature)|]
    {
      mCurrentOptionalIndexs := mCurrentOptionalIndexs + [|mCurrentInputSignature|];
      mCurrentInputSignature := mCurrentInputSignature + [p];
    }

    method AddOutput(p: Placement)
      requires Valid()
      modifies this`mCurrentOutputSignature
      ensures Valid() && mCurrentOutputSignature == old(mCurrentOutputSignature) + [p]
    {
      mCurrentOutputSignature := mCurrentOutputSignature + [p];
    }

    /** Turns the current declaration into signatures and starts a new one. */
    method Build()
      requires Valid() && |mCurrentInputSignature| == mInputSize && |mCurrentOutputSignature| == mOutputSize
      modifies this
      ensures Valid()
      ensures mPlacementSignaturePair == old(mPlacementSignaturePair) +
        Expansion(old(mCurrentInputSignature), old(mCurrentOptionalIndexs), old(mCurrentOutputSignature))
      ensures mAllOptionalIndexs == old(mAllOptionalIndexs) + Elements(old(mCurrentOptionalIndexs))
      ensures mCurrentOptionalIndexs == [] && mCurrentInputSignature == [] && mCurrentOutputSignature == []
    {
      mAllOptionalIndexs := mAllOptionalIndexs + Elements(mCurrentOptionalIndexs);
      var pairs := Expand(mCurrentInputSignature, mCurrentOptionalIndexs, mCurrentOutputSignature);
      ExpansionSizes(mCurrentInputSignature, mCurrentOptionalIndexs, mCurrentOutputSignature);
      mPlacementSignaturePair := mPlacementSignaturePair + pairs;
      mCurrentOptionalIndexs, mCurrentInputSignature, mCurrentOutputSignature := [], [], [];
    }

    /** Adds the same for all-Replicate and makes the key map. */
    method Finish() returns (signature: PlacementSignature)
      requires Valid() && mInputSize < 8
      requires mCurrentInputSignature == [] && mCurrentOutputSignature == []
      requires forall p :: p in mPlacementSignaturePair ==> HaveKeys(p.inputs)
      modifies this
      ensures fresh(signature) && signature.Valid()
      ensures signature.mInputSize == mInputSize && signature.mOutputSize == mOutputSize
      ensures signature.mAllSignature == old(mPlacementSignaturePair) +
        Expansion(AllReplicate(mInputSize), OptionalPositions(old(mAllOptionalIndexs), mInputSize), AllReplicate(mOutputSize))
    {
      ghost var optionals := OptionalPositions(mAllOptionalIndexs, mInputSize);
      AddReplicates();
      Build();
      ExpansionHasKeys(AllReplicate(mInputSize), optionals, AllReplicate(mOutputSize));
      signature := Generate();
    }

    /** Declares all-Replicate, with every input optional that was optional anywhere. */
    method AddReplicates()
      requires Valid() && mCurrentInputSignature == [] && mCurrentOutputSignature == []
      modifies this`mCurrentOptionalIndexs, this`mCurrentInputSignature, this`mCurrentOutputSignature
      ensures Valid()
      ensures mCurrentInputSignature == AllReplicate(mInputSize) && mCurrentOutputSignature == AllReplicate(mOutputSize)
      ensures mCurrentOptionalIndexs == OptionalPositions(mAllOptionalIndexs, mInputSize)
    {
      for i := 0 to mInputSize
        invariant Valid() && mCurrentInputSignature == AllReplicate(i)
        invariant mCurrentOptionalIndexs == OptionalPositions(mAllOptionalIndexs, i)
        invariant mCurrentOutputSignature == []
      {
        if i in mAllOptionalIndexs {
          AddOptionalInput(Replicate);
        } else {
          AddInput(Replicate);
        }
      }
      for i := 0 to mOutputSize
        invariant Valid() && mCurrentInputSignature == AllReplicate(mInputSize)
        invariant mCurrentOptionalIndexs == OptionalPositions(mAllOptionalIndexs, mInputSize)
        invariant mCurrentOutputSignature == AllReplicate(i)
      {
        AddOutput(Replicate);
      }
    }

    method Generate() returns (signature: PlacementSignature)
      requires Valid() && mInputSize < 8
      requires forall p :: p in mPlacementSignaturePair ==> HaveKeys(p.inputs)
      ensures fresh(signature) && signature.Valid()
      ensures signature.mInputSize == mInputSize && signature.mOutputSize == mOutputSize
      ensures signature.mAllSignature == mPlacementSignaturePair
    {
      signature := new PlacementSignature(mInputSize, mOutputSize);
      var all := mPlacementSignaturePair;
      for i := 0 to |all|
        invariant signature.Valid() && fresh(signature)
        invariant signature.mInputSize == mInputSize && signature.mOutputSize == mOutputSize
        invariant signature.mAllSignature == all[..i]
      {
        assert all[i] in all;
        signature.AddPlacementSignaturePair(all[i]);
      }
    }
  }

  lemma ExpansionHasKeys(inputs: seq<Placement>, optionals: seq<nat>, outputs: seq<Placement>)
    requires Below(optionals, |inputs|) && HaveKeys(inputs)
    ensures forall p :: p in Expansion(inputs, optionals, outputs) ==> HaveKeys(p.inputs)
  {
    forall p | p in Expansion(inputs, optionals, outputs)
      ensures HaveKeys(p.inputs)
    {
      ExpansionIsVariants(inputs, optionals, outputs, p.inputs);
      forall q | q in p.inputs
        ensures HasKey(q)
      {
        var i :| 0 <= i < |p.inputs| && p.inputs[i] == q;
        assert inputs[i] in inputs;
      }
    }
  }

  /** The recursive collection of all combinations into a shared list. */
  method CollectCombinations(indexes: seq<nat>, prefix: seq<nat>, idx: nat, result: seq<seq<nat>>) returns (r: seq<seq<nat>>)
    ensures r == result + Combinations(indexes, prefix, idx)
    decreases |indexes| - idx
  {
    if idx >= |indexes| {
      return result + [prefix];
    }
    r := CollectCombinations(indexes, prefix, idx + 1, result);
    r := CollectCombinations(indexes, prefix + [indexes[idx]], idx + 1, r);
  }

  /** Makes the chosen inputs absent, one after the other. */
  method MakeAbsent(inputs: seq<Placement>, positions: seq<nat>) returns (current: seq<Placement>)
    requires Below(positions, |inputs|)
    ensures current == Absent(inputs, positions)
  {
    current := inputs;
    for j := 0 to |positions|
      invariant current == Absent(inputs, positions[..j])
    {
      assert positions[..j + 1][..j] == positions[..j];
      current := current[positions[j] := Placement.Optional];
    }
    assert positions[..|positions|] == positions;
  }

  /** One signature per combination. */
  method Expand(inputs: seq<Placement>, optionals: seq<nat>, outputs: seq<Placement>) returns (pairs: seq<Pair>)
    requires Below(optionals, |inputs|)
    ensures pairs == Expansion(inputs, optionals, outputs)
  {
    CombinationsBelow(optionals, |inputs|);
    pairs := [];
    if |optionals| == 0 {
      return [Pair(inputs, outputs)];
    }
    var all := CollectCombinations(optionals, [], 0, []);
    for i := 0 to |all|
      invariant pairs == Expansion(inputs, optionals, outputs)[..i]
    {
      assert all[i] in all;
      var current := MakeAbsent(inputs, all[i]);
      pairs := pairs + [Pair(current, outputs)];
    }
  }
}

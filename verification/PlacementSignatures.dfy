/** Which placements an operator accepts: declared signatures with optional inputs, found by a packed key. */
module PlacementSignatures {
  import opened Wrappers
  import opened MeshArithmetic
  import opened DistributedSpec

  datatype Pair = Pair(inputs: seq<Placement>, outputs: seq<Placement>)

  // ---------------------------------------------------------------- the key

  /** The placements that have a key: an assertion of the source. */
  predicate HasKey(p: Placement) {
    p.Shard? ==> 0 <= p.dim <= 15
  }

  predicate HaveKeys(ps: seq<Placement>) {
    forall p :: p in ps ==> HasKey(p)
  }

  /** One byte: a flag per kind of placement in the low bits, the shard index in the high ones (all ones
    * where there is no index). */
  function ToHashKey(p: Placement): (r: nat)
    requires HasKey(p)
    ensures r < 256
    ensures r % 16 == (if p.Replicate? then 1 else 0) + (if p.Partial? then 2 else 0) + (if p.Shard? then 4 else 0)
    ensures r / 16 == if p.Shard? then p.dim else 15
  {
    match p
    case Replicate => 1 + 15 * 16
    case Partial => 2 + 15 * 16
    case Shard(d, _) => 4 + d * 16
    case Optional => 15 * 16
  }

  /** The same placement without its sub-split coordinates. */
  function Erase(p: Placement): (r: Placement) {
    if p.Shard? then Shard(p.dim, -1) else p
  }

  predicate SameErased(a: seq<Placement>, b: seq<Placement>) {
    |a| == |b| && forall i :: 0 <= i < |a| ==> Erase(a[i]) == Erase(b[i])
  }

  function HashKey(ps: seq<Placement>): (r: nat)
    requires HaveKeys(ps)
  {
    if ps == [] then 0
    else HashKey(ps[..|ps| - 1]) * 256 + ToHashKey(ps[|ps| - 1])
  }

  function Pow256(n: nat): (r: nat)
    ensures r > 0
  {
    if n == 0 then 1 else 256 * Pow256(n - 1)
  }

  /** Seven bytes stay within 64 bits, so the shifting of the source loses nothing. */
  lemma {:induction false} HashKeyFits(ps: seq<Placement>)
    requires HaveKeys(ps)
    ensures HashKey(ps) < Pow256(|ps|)
    ensures |ps| < 8 ==> HashKey(ps) < 0x1_0000_0000_0000_0000
  {
    if ps != [] {
      HashKeyFits(ps[..|ps| - 1]);
    }
    if |ps| < 8 {
      PowSmall(|ps|);
    }
  }

  /** The key holds one byte for each placement, the last one in the lowest. */
  lemma {:induction false} KeyBytes(ps: seq<Placement>, k: nat)
    requires HaveKeys(ps) && k < |ps|
    ensures (HashKey(ps) / Pow256(|ps| - 1 - k)) % 256 == ToHashKey(ps[k])
  {
    var n := |ps| - 1;
    var rest, last := HashKey(ps[..n]), ToHashKey(ps[n]);
    if k < n {
      KeyBytes(ps[..n], k);
      DropByte(rest, last, Pow256(n - 1 - k));
      assert Pow256(n - k) == 256 * Pow256(n - 1 - k);
    } else {
      assert Pow256(0) == 1;
      assert (rest * 256 + last) % 256 == last;
    }
  }

  /** Dividing by a higher power of 256 drops the lowest byte. */
  lemma DropByte(rest: nat, last: nat, p: nat)
    requires last < 256 && p > 0
    ensures (rest * 256 + last) / (256 * p) == rest / p
  {
    var q, r := rest / p, rest % p;
    DivRem(rest, p);
    assert rest * 256 + last == q * (256 * p) + (r * 256 + last);
    assert r * 256 + last < 256 * p;
    DivModUnique(q, r * 256 + last, 256 * p);
  }

  lemma PowSmall(n: nat)
    requires n < 8
    ensures Pow256(n) <= 0x1_0000_0000_0000_0000
  {
    assert Pow256(1) == 256 && Pow256(2) == 0x1_0000 && Pow256(3) == 0x100_0000 && Pow256(4) == 0x1_0000_0000;
    assert Pow256(5) == 256 * Pow256(4) && Pow256(6) == 256 * Pow256(5) && Pow256(7) == 256 * Pow256(6);
  }

  /** The same kind of placement, and if it shards, of the same dimension: sub-split coordinates are ignored. */
  lemma ByteInjective(p: Placement, q: Placement)
    requires HasKey(p) && HasKey(q)
    ensures ToHashKey(p) == ToHashKey(q) <==> (if p.Shard? && q.Shard? then p.dim == q.dim else p == q)
    ensures Erase(p) == Erase(q) <==> (if p.Shard? && q.Shard? then p.dim == q.dim else p == q)
  {
  }

  /** Two signatures of the same number of inputs have the same key exactly when they agree up to
    * sub-split coordinates. */
  lemma {:induction false} HashKeyInjective(a: seq<Placement>, b: seq<Placement>)
    requires HaveKeys(a) && HaveKeys(b) && |a| == |b|
    ensures HashKey(a) == HashKey(b) <==> SameErased(a, b)
    ensures SameErased(a, b) <==> forall k :: 0 <= k < |a| ==> if a[k].Shard? && b[k].Shard? then a[k].dim == b[k].dim else a[k] == b[k]
  {
    if a != [] {
      var n := |a| - 1;
      HashKeyInjective(a[..n], b[..n]);
      ByteInjective(a[n], b[n]);
      assert SameErased(a, b) <==> SameErased(a[..n], b[..n]) && Erase(a[n]) == Erase(b[n]);
    }
  }

  // ---------------------------------------------------------------- matching

  /** The reference: of the declared signatures, the outputs of the last one that agrees. */
  function LastMatch(pairs: seq<Pair>, inputs: seq<Placement>): (r: Option<seq<Placement>>) {
    if pairs == [] then None
    else
      var last := pairs[|pairs| - 1];
      if SameErased(last.inputs, inputs) then Some(last.outputs) else LastMatch(pairs[..|pairs| - 1], inputs)
  }

  /** What the key map holds once the pairs are added one after the other. */
  function MapOf(pairs: seq<Pair>): (r: map<nat, seq<Placement>>)
    requires forall p :: p in pairs ==> HaveKeys(p.inputs)
  {
    if pairs == [] then map[]
    else
      var last := pairs[|pairs| - 1];
      MapOf(pairs[..|pairs| - 1])[HashKey(last.inputs) := last.outputs]
  }

  predicate PairsRight(pairs: seq<Pair>, inputSize: nat, outputSize: nat) {
    forall p :: p in pairs ==> HaveKeys(p.inputs) && |p.inputs| == inputSize && |p.outputs| == outputSize
  }

  /** Looking up the key finds what the scan finds. */
  lemma {:induction false} LookupIsScan(pairs: seq<Pair>, inputSize: nat, outputSize: nat, inputs: seq<Placement>)
    requires PairsRight(pairs, inputSize, outputSize) && HaveKeys(inputs) && |inputs| == inputSize
    ensures HashKey(inputs) in MapOf(pairs) <==> LastMatch(pairs, inputs).Some?
    ensures HashKey(inputs) in MapOf(pairs) ==> LastMatch(pairs, inputs) == Some(MapOf(pairs)[HashKey(inputs)])
    ensures LastMatch(pairs, inputs).Some? ==> |LastMatch(pairs, inputs).value| == outputSize
  {
    if pairs != [] {
      var last := pairs[|pairs| - 1];
      assert last in pairs;
      LookupIsScan(pairs[..|pairs| - 1], inputSize, outputSize, inputs);
      HashKeyInjective(last.inputs, inputs);
    }
  }

  /** The scan finds something exactly when some declared signature agrees. */
  lemma {:induction false} ScanFinds(pairs: seq<Pair>, inputs: seq<Placement>)
    ensures LastMatch(pairs, inputs).Some? <==> exists p :: p in pairs && SameErased(p.inputs, inputs)
    ensures LastMatch(pairs, inputs).Some? ==>
      exists p :: p in pairs && SameErased(p.inputs, inputs) && p.outputs == LastMatch(pairs, inputs).value
  {
    if pairs != [] {
      var front, last := pairs[..|pairs| - 1], pairs[|pairs| - 1];
      ScanFinds(front, inputs);
      assert pairs == front + [last];
      assert last in pairs;
    }
  }

  /** The placements of all inputs along one mesh axis. */
  function AxisInputs(inputs: seq<seq<Placement>>, axis: nat): (r: seq<Placement>)
    requires forall k :: 0 <= k < |inputs| ==> axis < |inputs[k]|
  {
    seq(|inputs|, k requires 0 <= k < |inputs| => inputs[k][axis])
  }

  /** The first input with sub-split coordinates passes them on to every sharded output. */
  function KeepSubSplit(inputs: seq<Placement>, outputs: seq<Placement>): (r: seq<Placement>)
    ensures |r| == |outputs|
  {
    if inputs == [] then outputs
    else if inputs[0].HasSubSplit() then
      seq(|outputs|, j requires 0 <= j < |outputs| =>
        if outputs[j].Shard? then Shard(outputs[j].dim, inputs[0].subSplit) else outputs[j])
    else KeepSubSplit(inputs[1..], outputs)
  }

  /** The `p`-th declared signature agrees with the inputs along this axis, and no later one does. */
  ghost predicate LastAgreeing(pairs: seq<Pair>, inputs: seq<seq<Placement>>, axis: nat, p: nat)
    requires forall k :: 0 <= k < |inputs| ==> axis < |inputs[k]|
  {
    && p < |pairs| && Agrees(pairs[p].inputs, inputs, axis)
    && forall q :: p < q < |pairs| ==> !Agrees(pairs[q].inputs, inputs, axis)
  }

  predicate Agrees(declared: seq<Placement>, inputs: seq<seq<Placement>>, axis: nat)
    requires forall k :: 0 <= k < |inputs| ==> axis < |inputs[k]|
  {
    && |declared| == |inputs|
    && forall k :: 0 <= k < |inputs| ==>
         var a, b := declared[k], inputs[k][axis];
         if a.Shard? && b.Shard? then a.dim == b.dim else a == b
  }

  /** No input has sub-split coordinates. */
  predicate NoneSplit(inputs: seq<Placement>) {
    forall k :: 0 <= k < |inputs| ==> !(inputs[k].Shard? && inputs[k].subSplit != -1)
  }

  /** The `f`-th input is the first with sub-split coordinates. */
  predicate FirstSplit(inputs: seq<Placement>, f: nat) {
    f < |inputs| && inputs[f].Shard? && inputs[f].subSplit != -1 && NoneSplit(inputs[..f])
  }

  /** Every sharded placement keeps its dimension and gets the coordinates; the others stay. */
  predicate GivenSubSplit(declared: seq<Placement>, subSplit: int, result: seq<Placement>) {
    && |result| == |declared|
    && forall j :: 0 <= j < |declared| ==>
         result[j] == if declared[j].Shard? then Shard(declared[j].dim, subSplit) else declared[j]
  }

  /** What the scan finds is the last agreeing signature. */
  lemma {:induction false} ScanIsLast(pairs: seq<Pair>, inputs: seq<seq<Placement>>, axis: nat)
    requires forall k :: 0 <= k < |inputs| ==> axis < |inputs[k]|
    ensures LastMatch(pairs, AxisInputs(inputs, axis)).Some? <==> SomeAgrees(pairs, inputs, axis)
    ensures forall p: nat :: LastAgreeing(pairs, inputs, axis, p) ==>
      LastMatch(pairs, AxisInputs(inputs, axis)) == Some(pairs[p].outputs)
  {
    if pairs != [] {
      var n := |pairs| - 1;
      ScanIsLast(pairs[..n], inputs, axis);
      SameIsAgreeing(pairs[n].inputs, inputs, axis);
      if Agrees(pairs[n].inputs, inputs, axis) {
        assert LastAgreeing(pairs, inputs, axis, n);
      } else {
        forall p: nat
          ensures LastAgreeing(pairs, inputs, axis, p) <==> LastAgreeing(pairs[..n], inputs, axis, p)
        {
          LastOfFront(pairs, inputs, axis, p);
        }
      }
    }
  }

  lemma SameIsAgreeing(declared: seq<Placement>, inputs: seq<seq<Placement>>, axis: nat)
    requires forall k :: 0 <= k < |inputs| ==> axis < |inputs[k]|
    ensures SameErased(declared, AxisInputs(inputs, axis)) <==> Agrees(declared, inputs, axis)
  {
  }

  lemma LastOfFront(pairs: seq<Pair>, inputs: seq<seq<Placement>>, axis: nat, p: nat)
    requires forall k :: 0 <= k < |inputs| ==> axis < |inputs[k]|
    requires pairs != [] && !Agrees(pairs[|pairs| - 1].inputs, inputs, axis)
    ensures LastAgreeing(pairs, inputs, axis, p) <==> LastAgreeing(pairs[..|pairs| - 1], inputs, axis, p)
  {
    var n := |pairs| - 1;
    if LastAgreeing(pairs[..n], inputs, axis, p) {
      assert pairs[..n][p] == pairs[p];
      forall q | p < q < |pairs|
        ensures !Agrees(pairs[q].inputs, inputs, axis)
      {
        assert q < n ==> pairs[..n][q] == pairs[q];
      }
    }
    if LastAgreeing(pairs, inputs, axis, p) {
      assert p != n;
      assert pairs[..n][p] == pairs[p];
      forall q | p < q < n
        ensures !Agrees(pairs[..n][q].inputs, inputs, axis)
      {
        assert pairs[..n][q] == pairs[q];
      }
    }
  }

  /** Some declared signature agrees along this axis. */
  ghost predicate AxisMatches(pairs: seq<Pair>, inputs: seq<seq<Placement>>, axis: nat)
    requires forall k :: 0 <= k < |inputs| ==> axis < |inputs[k]|
  {
    exists p :: p in pairs && SameErased(p.inputs, AxisInputs(inputs, axis))
  }

  /** Without sub-split coordinates among the inputs, outputs stay as declared; otherwise the first input that has
    * some passes them on to every sharded output. */
  lemma {:induction false} PassedOn(inputs: seq<Placement>, outputs: seq<Placement>)
    ensures NoneSplit(inputs) ==> KeepSubSplit(inputs, outputs) == outputs
    ensures forall f: nat :: FirstSplit(inputs, f) ==> GivenSubSplit(outputs, inputs[f].subSplit, KeepSubSplit(inputs, outputs))
    ensures NoneSplit(inputs) || exists f: nat :: FirstSplit(inputs, f)
  {
    if inputs != [] {
      var rest := inputs[1..];
      PassedOn(rest, outputs);
      assert NoneSplit(inputs) <==> !inputs[0].HasSubSplit() && NoneSplit(rest) by {
        assert forall k :: 0 <= k < |rest| ==> rest[k] == inputs[k + 1];
      }
      assert FirstSplit(inputs, 0) <==> inputs[0].HasSubSplit();
      forall f: nat | f < |rest|
        ensures FirstSplit(inputs, f + 1) <==> !inputs[0].HasSubSplit() && FirstSplit(rest, f)
      {
        FirstOfRest(inputs, f);
      }
      forall f: nat | FirstSplit(inputs, f)
        ensures GivenSubSplit(outputs, inputs[f].subSplit, KeepSubSplit(inputs, outputs))
      {
        if f > 0 {
          assert FirstSplit(rest, f - 1) && rest[f - 1] == inputs[f];
        }
      }
      if f: nat :| FirstSplit(rest, f) {
        assert FirstSplit(inputs, if inputs[0].HasSubSplit() then 0 else f + 1);
      }
    }
  }

  lemma FirstOfRest(inputs: seq<Placement>, f: nat)
    requires f < |inputs| - 1
    ensures FirstSplit(inputs, f + 1) <==> !inputs[0].HasSubSplit() && FirstSplit(inputs[1..], f)
  {
    var a, b := inputs[..f + 1], inputs[1..][..f];
    assert a == [inputs[0]] + b;
    assert NoneSplit(a) <==> !inputs[0].HasSubSplit() && NoneSplit(b) by {
      assert forall k :: 0 <= k < |b| ==> b[k] == a[k + 1];
    }
  }

  /** What one mesh axis gives the outputs, if it matches. */
  function AxisOutputs(pairs: seq<Pair>, inputs: seq<seq<Placement>>, keep: bool, axis: nat): (r: Option<seq<Placement>>)
    requires forall k :: 0 <= k < |inputs| ==> axis < |inputs[k]|
  {
    match LastMatch(pairs, AxisInputs(inputs, axis))
    case None => None
    case Some(o) => Some(if keep then KeepSubSplit(AxisInputs(inputs, axis), o) else o)
  }

  class PlacementSignature {
    const mInputSize: nat
    const mOutputSize: nat
    var mAllSignature: seq<Pair>
    var mSignatureMap: map<nat, seq<Placement>>

    ghost predicate Valid()
      reads this
    {
      && mInputSize < 8
      && PairsRight(mAllSignature, mInputSize, mOutputSize)
      && mSignatureMap == MapOf(mAllSignature)
    }

    constructor (inputSize: nat, outputSize: nat)
      requires inputSize < 8
      ensures Valid() && mAllSignature == [] && mInputSize == inputSize && mOutputSize == outputSize
    {
      mInputSize, mOutputSize := inputSize, outputSize;
      mAllSignature, mSignatureMap := [], map[];
    }

    method GetHashKey(inputs: seq<Placement>) returns (result: nat)
      requires |inputs| < 8 && HaveKeys(inputs)
      ensures result == HashKey(inputs)
    {
      result := 0;
      for i := 0 to |inputs|
        invariant result == HashKey(inputs[..i])
      {
        assert inputs[..i + 1][..i] == inputs[..i];
        result := result * 256 + ToHashKey(inputs[i]);
      }
      assert inputs[..|inputs|] == inputs;
    }

    method AddPlacementSignaturePair(pair: Pair)
      requires Valid() && |pair.inputs| == mInputSize && |pair.outputs| == mOutputSize && HaveKeys(pair.inputs)
      modifies this
      ensures Valid() && mAllSignature == old(mAllSignature) + [pair]
    {
      var key := GetHashKey(pair.inputs);
      mSignatureMap := mSignatureMap[key := pair.outputs];
      ghost var pairs := mAllSignature;
      mAllSignature := mAllSignature + [pair];
      assert mAllSignature[..|pairs|] == pairs;
    }

    /** Looks up every mesh axis. It matches exactly when each axis has a declared signature, and then each
      * output gets, along each axis, what the last declared signature that agrees says. */
    method Match(inputs: seq<seq<Placement>>, keepSubSplit: bool) returns (ok: bool, outputs: seq<seq<Placement>>)
      requires Valid() && |inputs| == mInputSize > 0 && mOutputSize > 0
      requires forall k :: 0 <= k < |inputs| ==> |inputs[0]| <= |inputs[k]| && HaveKeys(inputs[k])
      ensures ok <==> forall i :: 0 <= i < |inputs[0]| ==> AxisMatches(mAllSignature, inputs, i)
      ensures ok ==> |outputs| == (if inputs[0] == [] then 0 else mOutputSize)
      ensures ok ==> forall j :: 0 <= j < |outputs| ==> |outputs[j]| == |inputs[0]|
      ensures ok ==> forall i :: 0 <= i < |inputs[0]| ==> RightAlong(mAllSignature, inputs, keepSubSplit, outputs, i)
      ensures ok <==> forall i :: 0 <= i < |inputs[0]| ==> SomeAgrees(mAllSignature, inputs, i)
      ensures ok ==> forall i :: 0 <= i < |inputs[0]| ==> AsDeclared(mAllSignature, inputs, keepSubSplit, outputs, i)
    {
      forall i | 0 <= i < |inputs[0]|
        ensures AxisMatches(mAllSignature, inputs, i) <==> SomeAgrees(mAllSignature, inputs, i)
      {
        MatchesIsLast(mAllSignature, inputs, i);
      }
      ok, outputs := true, [];
      var result: seq<seq<Placement>> := [];
      for i := 0 to |inputs[0]|
        invariant |result| == (if i == 0 then 0 else mOutputSize)
        invariant Collected(mAllSignature, inputs, keepSubSplit, result, i)
        invariant forall k :: 0 <= k < i ==> AxisMatches(mAllSignature, inputs, k)
      {
        var found, copyOutput := MatchAxis(inputs, i, keepSubSplit);
        if !found {
          return false, [];
        }
        ghost var before := result;
        result := SetOutputPlacementSignature(result, i, copyOutput);
        CollectedNext(mAllSignature, inputs, keepSubSplit, before, i, copyOutput, result);
      }
      outputs := result;
      forall i | 0 <= i < |inputs[0]|
        ensures AsDeclared(mAllSignature, inputs, keepSubSplit, outputs, i)
      {
        RightIsDeclared(mAllSignature, inputs, keepSubSplit, outputs, i);
      }
    }

    /** The lookup along one mesh axis. */
    method MatchAxis(inputs: seq<seq<Placement>>, axis: nat, keepSubSplit: bool)
      returns (found: bool, copyOutput: seq<Placement>)
      requires Valid() && |inputs| == mInputSize > 0
      requires forall k :: 0 <= k < |inputs| ==> axis < |inputs[k]| && HaveKeys(inputs[k])
      ensures found <==> AxisMatches(mAllSignature, inputs, axis)
      ensures found ==> AxisOutputs(mAllSignature, inputs, keepSubSplit, axis) == Some(copyOutput) && |copyOutput| == mOutputSize
    {
      var axisInputs := AxisInputs(inputs, axis);
      AxisHasKeys(inputs, axis);
      var key := GetHashKey(axisInputs);
      LookupIsScan(mAllSignature, mInputSize, mOutputSize, axisInputs);
      ScanFinds(mAllSignature, axisInputs);
      if key !in mSignatureMap {
        return false, [];
      }
      found, copyOutput := true, mSignatureMap[key];
      if keepSubSplit {
        copyOutput := CopySubSplit(axisInputs, copyOutput);
      }
    }
  }

  /** Along this axis every output has what the declared signatures say. */
  predicate RightAlong(pairs: seq<Pair>, inputs: seq<seq<Placement>>, keep: bool, result: seq<seq<Placement>>, axis: nat)
    requires forall k :: 0 <= k < |inputs| ==> axis < |inputs[k]|
    requires forall j :: 0 <= j < |result| ==> axis < |result[j]|
  {
    var o := AxisOutputs(pairs, inputs, keep, axis);
    o.Some? && |o.value| == |result| && forall j :: 0 <= j < |result| ==> result[j][axis] == o.value[j]
  }

  lemma MatchesIsLast(pairs: seq<Pair>, inputs: seq<seq<Placement>>, axis: nat)
    requires forall k :: 0 <= k < |inputs| ==> axis < |inputs[k]|
    ensures AxisMatches(pairs, inputs, axis) <==> SomeAgrees(pairs, inputs, axis)
  {
    ScanIsLast(pairs, inputs, axis);
    ScanFinds(pairs, AxisInputs(inputs, axis));
  }

  ghost predicate SomeAgrees(pairs: seq<Pair>, inputs: seq<seq<Placement>>, axis: nat)
    requires forall k :: 0 <= k < |inputs| ==> axis < |inputs[k]|
  {
    exists p: nat :: LastAgreeing(pairs, inputs, axis, p)
  }

  /** The placements of all outputs along one mesh axis. */
  function AxisResult(result: seq<seq<Placement>>, axis: nat): (r: seq<Placement>)
    requires forall j :: 0 <= j < |result| ==> axis < |result[j]|
    ensures |r| == |result| && forall j :: 0 <= j < |r| ==> r[j] == result[j][axis]
  {
    seq(|result|, j requires 0 <= j < |result| => result[j][axis])
  }

  /** Along this axis the outputs are as the last agreeing signature declares them, with the sub-split coordinates
    * of the first input that has some if these are kept. */
  ghost predicate AsDeclared(pairs: seq<Pair>, inputs: seq<seq<Placement>>, keep: bool, result: seq<seq<Placement>>, axis: nat)
    requires forall k :: 0 <= k < |inputs| ==> axis < |inputs[k]|
    requires forall j :: 0 <= j < |result| ==> axis < |result[j]|
  {
    var ins, outs := AxisInputs(inputs, axis), AxisResult(result, axis);
    forall p: nat :: LastAgreeing(pairs, inputs, axis, p) ==>
      && (!keep || NoneSplit(ins) ==> outs == pairs[p].outputs)
      && (keep ==> forall f: nat :: FirstSplit(ins, f) ==> GivenSubSplit(pairs[p].outputs, ins[f].subSplit, outs))
  }

  lemma RightIsDeclared(pairs: seq<Pair>, inputs: seq<seq<Placement>>, keep: bool, result: seq<seq<Placement>>, axis: nat)
    requires forall k :: 0 <= k < |inputs| ==> axis < |inputs[k]|
    requires forall j :: 0 <= j < |result| ==> axis < |result[j]|
    requires RightAlong(pairs, inputs, keep, result, axis)
    ensures AsDeclared(pairs, inputs, keep, result, axis)
  {
    ScanIsLast(pairs, inputs, axis);
    forall p: nat | LastAgreeing(pairs, inputs, axis, p)
      ensures AxisResult(result, axis) ==
        if keep then KeepSubSplit(AxisInputs(inputs, axis), pairs[p].outputs) else pairs[p].outputs
    {
      PassedOn(AxisInputs(inputs, axis), pairs[p].outputs);
      assert AxisResult(result, axis) == AxisOutputs(pairs, inputs, keep, axis).value;
    }
    forall p: nat | LastAgreeing(pairs, inputs, axis, p)
    {
      PassedOn(AxisInputs(inputs, axis), pairs[p].outputs);
    }
  }

  /** The outputs along the first `n` axes are in place. */
  ghost predicate Collected(pairs: seq<Pair>, inputs: seq<seq<Placement>>, keep: bool, result: seq<seq<Placement>>, n: nat)
    requires forall k :: 0 <= k < |inputs| ==> n <= |inputs[k]|
  {
    && (forall j :: 0 <= j < |result| ==> |result[j]| == n)
    && forall i :: 0 <= i < n ==> RightAlong(pairs, inputs, keep, result, i)
  }

  lemma CollectedNext(pairs: seq<Pair>, inputs: seq<seq<Placement>>, keep: bool, result: seq<seq<Placement>>, n: nat,
                      signature: seq<Placement>, next: seq<seq<Placement>>)
    requires forall k :: 0 <= k < |inputs| ==> n < |inputs[k]|
    requires Collected(pairs, inputs, keep, result, n)
    requires AxisOutputs(pairs, inputs, keep, n) == Some(signature)
    requires |next| == |signature| && |result| == (if n == 0 then 0 else |signature|)
    requires forall j :: 0 <= j < |next| ==> next[j] == (if n == 0 then [] else result[j]) + [signature[j]]
    ensures Collected(pairs, inputs, keep, next, n + 1)
  {
    forall i | 0 <= i < n
      ensures RightAlong(pairs, inputs, keep, next, i)
    {
      assert RightAlong(pairs, inputs, keep, result, i);
    }
  }

  lemma AxisHasKeys(inputs: seq<seq<Placement>>, axis: nat)
    requires forall k :: 0 <= k < |inputs| ==> axis < |inputs[k]| && HaveKeys(inputs[k])
    ensures HaveKeys(AxisInputs(inputs, axis))
  {
    forall p | p in AxisInputs(inputs, axis)
      ensures HasKey(p)
    {
      var k :| 0 <= k < |inputs| && AxisInputs(inputs, axis)[k] == p;
      assert p in inputs[k];
    }
  }

  /** The loop over inputs and outputs that passes sub-split coordinates on. */
  method CopySubSplit(inputs: seq<Placement>, outputs: seq<Placement>) returns (result: seq<Placement>)
    ensures result == KeepSubSplit(inputs, outputs)
    ensures NoneSplit(inputs) ==> result == outputs
    ensures forall f: nat :: FirstSplit(inputs, f) ==> GivenSubSplit(outputs, inputs[f].subSplit, result)
  {
    PassedOn(inputs, outputs);
    result := outputs;
    assert inputs[0..] == inputs;
    for i := 0 to |inputs|
      invariant result == outputs && KeepSubSplit(inputs[i..], outputs) == KeepSubSplit(inputs, outputs)
    {
      assert inputs[i..][0] == inputs[i] && inputs[i..][1..] == inputs[i + 1..];
      if inputs[i].HasSubSplit() {
        ghost var all := KeepSubSplit(inputs[i..], outputs);
        for j := 0 to |outputs|
          invariant |result| == |outputs|
          invariant forall k :: 0 <= k < j ==> result[k] == all[k]
          invariant forall k :: j <= k < |outputs| ==> result[k] == outputs[k]
        {
          if result[j].Shard? {
            result := result[j := Shard(result[j].dim, inputs[i].subSplit)];
          }
        }
        assert result == all;
        return;
      }
    }
  }

  /** Appends one axis to every output; the first axis makes the outputs. */
  method SetOutputPlacementSignature(outputs: seq<seq<Placement>>, axis: nat, signature: seq<Placement>)
    returns (result: seq<seq<Placement>>)
    requires |signature| > 0
    requires |outputs| == (if axis == 0 then 0 else |signature|)
    requires forall j :: 0 <= j < |outputs| ==> |outputs[j]| == axis
    ensures |result| == |signature|
    ensures forall j :: 0 <= j < |result| ==>
      result[j] == (if axis == 0 then [] else outputs[j]) + [signature[j]]
  {
    result := if |outputs| != |signature| then seq(|signature|, j => []) else outputs;
    for i := 0 to |signature|
      invariant |result| == |signature|
      invariant forall j :: 0 <= j < i ==> result[j] == (if axis == 0 then [] else outputs[j]) + [signature[j]]
      invariant forall j :: i <= j < |signature| ==> result[j] == if axis == 0 then [] else outputs[j]
    {
      result := result[i := result[i] + [signature[i]]];
    }
  }
}

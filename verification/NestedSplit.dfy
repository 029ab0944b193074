// Splitting in two stages, as converting one mesh axis after another does, against the
// one-shot split that local shapes are computed from.

module NestedSplit {
  import opened MeshArithmetic
  import opened DistributedSpec

  /** Chunk b of chunk a is as large as the one-shot chunk it stands for. */
  predicate ChunkAgrees(size: nat, outer: nat, inner: nat, a: nat, b: nat)
    requires outer > 0 && inner > 0 && outer * inner > 0
  {
    ShardSize(ShardSize(size, outer, a), inner, b) == ShardSize(size, outer * inner, a * inner + b)
  }

  /** Two stages agree with one exactly when the remainder of the one-shot split is 0, 1 or one short of a full round. */
  lemma NestedSplitAgreesIff(size: nat, outer: nat, inner: nat)
    requires outer >= 2 && inner >= 2 && outer * inner > 0
    ensures (forall a: nat, b: nat | a < outer && b < inner :: ChunkAgrees(size, outer, inner, a, b)) <==>
        size % (outer * inner) in {0, 1, outer * inner - 1}
  {
    var r := size % (outer * inner);
    if r in {0, 1, outer * inner - 1} {
      forall a: nat, b: nat | a < outer && b < inner
        ensures ChunkAgrees(size, outer, inner, a, b)
      {
        AgreementByRemainder(size, outer, inner, a, b);
        AgreeingRemainder(outer, inner, r, a, b);
      }
    } else {
      var a, b := DisagreeingRemainder(outer, inner, r);
      AgreementByRemainder(size, outer, inner, a, b);
      assert !ChunkAgrees(size, outer, inner, a, b);
    }
  }

  /** Only the remainder decides whether a chunk agrees. */
  lemma AgreementByRemainder(size: nat, outer: nat, inner: nat, a: nat, b: nat)
    requires outer > 0 && inner > 0 && outer * inner > 0 && a < outer && b < inner
    ensures ChunkAgrees(size, outer, inner, a, b) <==>
        (b < ShardSize(size % (outer * inner), outer, a) <==> a * inner + b < size % (outer * inner))
  {
    InnerSize(size, outer, inner, outer * inner, a, b);
  }

  lemma OuterSize(size: nat, outer: nat, inner: nat, n: nat)
    requires outer > 0 && inner > 0 && n == outer * inner > 0
    ensures size / outer == (size / n) * inner + size % n / outer
    ensures size % outer == size % n % outer
  {
    var q, r := size / n, size % n;
    DivRem(size, n);
    DivRem(r, outer);
    FoldFactor(q, inner, r / outer, outer);
    assert inner * outer == n;
    DivModUnique(q * inner + r / outer, r % outer, outer);
  }

  lemma OuterRemainder(r: nat, outer: nat, inner: nat, a: nat)
    requires outer > 0 && r < outer * inner
    ensures ShardSize(r, outer, a) <= inner
  {
    DivRem(r, outer);
    MulMono(inner, r / outer, outer);
    assert inner * outer == outer * inner;
  }

  lemma InnerSize(size: nat, outer: nat, inner: nat, n: nat, a: nat, b: nat)
    requires outer > 0 && inner > 0 && n == outer * inner > 0 && b < inner
    ensures ShardSize(ShardSize(size, outer, a), inner, b) ==
        size / n + if b < ShardSize(size % n, outer, a) then 1 else 0
  {
    var q, t := size / n, ShardSize(size % n, outer, a);
    OuterSize(size, outer, inner, n);
    OuterRemainder(size % n, outer, inner, a);
    assert ShardSize(size, outer, a) == q * inner + t;
    SplitRounds(q, t, inner, b);
  }

  lemma SplitRounds(q: nat, t: nat, inner: nat, b: nat)
    requires inner > 0 && t <= inner && b < inner
    ensures ShardSize(q * inner + t, inner, b) == q + if b < t then 1 else 0
  {
    if t < inner {
      DivModUnique(q, t, inner);
    } else {
      DivModUnique(q + 1, 0, inner);
    }
  }

  lemma SmallRemainder(outer: nat, inner: nat, r: nat, a: nat, b: nat)
    requires outer >= 2 && inner >= 2 && r <= 1
    ensures b < ShardSize(r, outer, a) <==> a * inner + b < r
  {
    DivModUnique(0, r, outer);
    MulMono(1, a, inner);
    assert a == 0 ==> a * inner == 0;
  }

  lemma AgreeingRemainder(outer: nat, inner: nat, r: nat, a: nat, b: nat)
    requires outer >= 2 && inner >= 2 && a < outer && b < inner
    requires r in {0, 1, outer * inner - 1}
    ensures b < ShardSize(r, outer, a) <==> a * inner + b < r
  {
    if r <= 1 {
      SmallRemainder(outer, inner, r, a, b);
    } else {
      AllButOne(outer, inner, a, b);
    }
  }

  lemma AllButOne(outer: nat, inner: nat, a: nat, b: nat)
    requires outer >= 2 && inner >= 2 && a < outer && b < inner
    ensures outer * inner > 0
    ensures b < ShardSize(outer * inner - 1, outer, a) <==> a * inner + b < outer * inner - 1
  {
    var r := outer * inner - 1;
    assert r == (inner - 1) * outer + (outer - 1) >= 0;
    DivModUnique(inner - 1, outer - 1, outer);
    assert a == outer - 1 ==> a * inner + inner == outer * inner;
    assert a < outer - 1 ==> a * inner + 2 * inner <= outer * inner by {
      MulMono(a + 2, outer, inner);
    }
  }

  /** The first chunk of several is smaller than the whole. */
  lemma FirstIsLess(r: nat, outer: nat)
    requires outer >= 2 && r > 1
    ensures ShardSize(r, outer, 0) < r
  {
    DivRem(r, outer);
    MulMono(2, outer, r / outer);
  }

  /** For every other remainder some chunk comes out with a different size. */
  lemma DisagreeingRemainder(outer: nat, inner: nat, r: nat) returns (a: nat, b: nat)
    requires outer >= 2 && inner >= 2 && 1 < r < outer * inner - 1
    ensures a < outer && b < inner
    ensures b < ShardSize(r, outer, a) <==> a * inner + b >= r
  {
    FirstIsLess(r, outer);
    OuterRemainder(r, outer, inner, 0);
    if ShardSize(r, outer, 0) < inner {
      a, b := 0, ShardSize(r, outer, 0);
    } else {
      a, b := outer - 1, inner - 2;
      LastRow(outer, inner);
      assert ShardSize(r, outer, 0) <= r / outer + 1 && r / outer <= ShardSize(r, outer, a);
    }
  }

  lemma LastRow(outer: nat, inner: nat)
    requires outer > 0
    ensures (outer - 1) * inner + inner == outer * inner
  {
  }

  /** The example: 6 over 4 is [2, 2, 1, 1], but 6 over 2 is [3, 3], and 3 over 2 is [2, 1]. */
  lemma SixOverTwoByTwo()
    ensures ShardSize(6, 4, 0) == ShardSize(6, 4, 1) == 2 && ShardSize(6, 4, 2) == ShardSize(6, 4, 3) == 1
    ensures forall a: nat | a < 2 :: ShardSize(ShardSize(6, 2, a), 2, 0) == 2 && ShardSize(ShardSize(6, 2, a), 2, 1) == 1
    ensures !ChunkAgrees(6, 2, 2, 0, 1) && !ChunkAgrees(6, 2, 2, 1, 0)
  {
    forall a: nat | a < 2
      ensures ShardSize(6, 2, a) == 3
    {
    }
  }

  // ---------------------------------------------------------------- where the chunks start

  /** When a dimension that is cut into `outer` chunks can be cut further, `inner` pieces a chunk, with the
    * one-shot result. */
  predicate CutAgrees(size: nat, outer: nat, inner: nat) {
    outer <= 1 || (outer * inner > 0 && size % (outer * inner) in {0, 1, outer * inner - 1})
  }

  lemma CutMeansChunks(size: nat, outer: nat, inner: nat)
    requires outer >= 1 && inner >= 2
    ensures outer * inner > 0
    ensures CutAgrees(size, outer, inner) <==> forall a: nat, b: nat | a < outer && b < inner :: ChunkAgrees(size, outer, inner, a, b)
  {
    MulMono(1, outer, inner);
    if outer == 1 {
      forall a: nat, b: nat | a < outer && b < inner
        ensures ChunkAgrees(size, outer, inner, a, b)
      {
        assert ShardSize(size, 1, a) == size;
      }
    } else {
      NestedSplitAgreesIff(size, outer, inner);
    }
  }

  /** Then the pieces also start where the one-shot chunks do. */
  lemma {:induction false} NestedOffsets(size: nat, outer: nat, inner: nat, a: nat, b: nat)
    requires outer >= 1 && inner >= 2 && CutAgrees(size, outer, inner) && a < outer && b <= inner
    ensures outer * inner > 0
    ensures ShardOffset(size, outer, a) + ShardOffset(ShardSize(size, outer, a), inner, b) ==
      ShardOffset(size, outer * inner, a * inner + b)
    decreases a, b
  {
    var n := outer * inner;
    CutMeansChunks(size, outer, inner);
    if b > 0 {
      NestedOffsets(size, outer, inner, a, b - 1);
      MulBound(a, b - 1, outer, inner);
      PieceDone(size, outer, inner, a, b - 1, n);
    } else if a > 0 {
      NestedOffsets(size, outer, inner, a - 1, inner);
      GroupDone(size, outer, inner, a);
    } else {
      ZeroOffset(size, outer);
      ZeroOffset(ShardSize(size, outer, 0), inner);
      ZeroOffset(size, n);
      assert 0 * inner + 0 == 0;
    }
  }

  /** A piece that agrees moves both starts on by the same. */
  lemma PieceDone(size: nat, outer: nat, inner: nat, a: nat, b: nat, n: nat)
    requires outer > 0 && inner > 0 && n == outer * inner > 0 && b < inner && a * inner + b < n
    requires ChunkAgrees(size, outer, inner, a, b)
    ensures ShardOffset(ShardSize(size, outer, a), inner, b + 1) - ShardOffset(ShardSize(size, outer, a), inner, b) ==
      ShardOffset(size, n, a * inner + b + 1) - ShardOffset(size, n, a * inner + b)
  {
    NextOffset(ShardSize(size, outer, a), inner, b);
    NextOffset(size, n, a * inner + b);
  }

  /** A group begins where the one before it is complete. */
  lemma GroupDone(size: nat, outer: nat, inner: nat, a: nat)
    requires outer >= 1 && inner >= 1 && 0 < a < outer
    ensures ShardOffset(size, outer, a) + ShardOffset(ShardSize(size, outer, a), inner, 0) ==
      ShardOffset(size, outer, a - 1) + ShardOffset(ShardSize(size, outer, a - 1), inner, inner)
    ensures a * inner + 0 == (a - 1) * inner + inner
  {
    NextOffset(size, outer, a - 1);
    WholeOffset(ShardSize(size, outer, a - 1), inner);
    ZeroOffset(ShardSize(size, outer, a), inner);
  }

  lemma ZeroOffset(size: nat, num: nat)
    requires num > 0
    ensures ShardOffset(size, num, 0) == 0
  {
    ShardsTile(size, num);
  }

  lemma WholeOffset(size: nat, num: nat)
    requires num > 0
    ensures ShardOffset(size, num, num) == size
  {
    ShardsTile(size, num);
  }

  lemma NextOffset(size: nat, num: nat, k: nat)
    requires k < num
    ensures ShardOffset(size, num, k + 1) == ShardOffset(size, num, k) + ShardSize(size, num, k)
  {
    ShardsTile(size, num);
  }

  lemma GroupStart(size: nat, outer: nat, inner: nat, a: nat)
    requires outer >= 1 && inner >= 2 && CutAgrees(size, outer, inner) && a <= outer
    ensures outer * inner > 0
    ensures ShardOffset(size, outer * inner, a * inner) == ShardOffset(size, outer, a)
  {
    if a < outer {
      NestedOffsets(size, outer, inner, a, 0);
      ShardsTile(ShardSize(size, outer, a), inner);
    } else {
      MulMono(1, outer, inner);
      ShardsTile(size, outer);
      ShardsTile(size, outer * inner);
    }
  }

  /** Only the remainder decides where a group of chunks starts. */
  lemma StartByRemainder(size: nat, outer: nat, inner: nat, a: nat)
    requires outer > 0 && inner > 0 && outer * inner > 0 && a < outer
    ensures var r := size % (outer * inner);
      ShardOffset(size, outer * inner, a * inner) == ShardOffset(size, outer, a) <==>
        (if a * inner < r then a * inner else r) == ShardOffset(r, outer, a)
  {
    var n := outer * inner;
    var q, r := size / n, size % n;
    OuterSize(size, outer, inner, n);
    assert a * (q * inner + r / outer) == (a * inner) * q + a * (r / outer);
  }

  /** For the other remainders some group of chunks starts elsewhere. */
  lemma GroupStartDiffers(size: nat, outer: nat, inner: nat) returns (a: nat)
    requires outer >= 2 && inner >= 2 && !CutAgrees(size, outer, inner)
    ensures outer * inner > 0 && a < outer
    ensures ShardOffset(size, outer * inner, a * inner) != ShardOffset(size, outer, a)
  {
    MulMono(2, outer, inner);
    var r := size % (outer * inner);
    FirstIsLess(r, outer);
    OuterRemainder(r, outer, inner, 0);
    NextOffset(r, outer, 0);
    NextOffset(r, outer, outer - 1);
    ShardsTile(r, outer);
    LastRow(outer, inner);
    a := if ShardSize(r, outer, 0) < inner then 1 else outer - 1;
    StartByRemainder(size, outer, inner, a);
    if ShardSize(r, outer, 0) >= inner {
      LastGroup(outer, inner, r);
    }
  }

  lemma LastGroup(outer: nat, inner: nat, r: nat)
    requires outer >= 2 && inner >= 2 && 1 < r < outer * inner - 1 && ShardSize(r, outer, 0) >= inner
    ensures ShardSize(r, outer, outer - 1) == inner - 1 && r - (inner - 1) != (outer - 1) * inner
  {
    LastRow(outer, inner);
    MulComm(outer, inner);
    DivBound(r, inner, outer);
  }
}

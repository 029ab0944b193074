// Merging the mesh axes that shard the same tensor dimension into one axis, and why the
// merged specification describes the same distribution.

module MergeShardDims {
  import opened Sequences
  import opened MeshArithmetic
  import opened DistributedSpec

  // ---------------------------------------------------------------- lists of axes

  /** The members of sel below n in ascending order. */
  function Ascending(sel: set<nat>, n: nat): (r: seq<nat>)
    ensures Below(r, n)
  {
    if n == 0 then [] else Ascending(sel, n - 1) + if n - 1 in sel then [n - 1] else []
  }

  lemma AscendingSorted(sel: set<nat>, n: nat)
    ensures forall i, j | 0 <= i < j < |Ascending(sel, n)| :: Ascending(sel, n)[i] < Ascending(sel, n)[j]
  {
  }

  lemma AscendingMembers(sel: set<nat>, n: nat, x: nat)
    ensures x in Ascending(sel, n) <==> x < n && x in sel
  {
  }

  function Select(s: seq<nat>, axes: seq<nat>): (r: seq<nat>)
    requires Below(axes, |s|)
    ensures |r| == |axes|
    ensures forall i | 0 <= i < |axes| :: r[i] == s[axes[i]]
  {
    seq<nat>(|axes|, i requires 0 <= i < |axes| => s[axes[i]])
  }

  predicate AxesBelow(groups: seq<seq<nat>>, n: nat) {
    forall k | 0 <= k < |groups| :: Below(groups[k], n)
  }

  lemma FlattenAppend(groups: seq<seq<nat>>, g: seq<nat>)
    ensures Flatten(groups + [g]) == Flatten(groups) + g
  {
    assert (groups + [g])[..|groups|] == groups;
  }

  lemma {:induction false} FlattenMembers(groups: seq<seq<nat>>, x: nat)
    ensures x in Flatten(groups) <==> exists k :: 0 <= k < |groups| && x in groups[k]
  {
    if |groups| > 0 {
      var n := |groups| - 1;
      FlattenMembers(groups[..n], x);
      if x in Flatten(groups[..n]) {
        var k :| 0 <= k < n && x in groups[..n][k];
        assert x in groups[k];
      }
      if k :| 0 <= k < |groups| && x in groups[k] {
        assert k < n ==> x in groups[..n][k];
      }
    }
  }

  lemma FlattenBelow(groups: seq<seq<nat>>, n: nat)
    requires AxesBelow(groups, n)
    ensures Below(Flatten(groups), n)
  {
  }

  /** Size of every group: the product of its axes. */
  function GroupShape(ms: seq<nat>, groups: seq<seq<nat>>): (r: seq<nat>)
    requires AxesBelow(groups, |ms|)
    ensures |r| == |groups|
    ensures forall k | 0 <= k < |groups| :: r[k] == Prod(Select(ms, groups[k]))
  {
    seq<nat>(|groups|, k requires 0 <= k < |groups| => Prod(Select(ms, groups[k])))
  }

  /** Coordinate of a cell on the grouped axes: its row-major number inside every group. */
  function GroupCoord(ms: seq<nat>, groups: seq<seq<nat>>, c: seq<nat>): (r: seq<nat>)
    requires AxesBelow(groups, |ms|) && |c| == |ms|
    ensures |r| == |groups|
    ensures forall k | 0 <= k < |groups| :: r[k] == Index(Select(ms, groups[k]), Select(c, groups[k]))
  {
    seq<nat>(|groups|, k requires 0 <= k < |groups| => Index(Select(ms, groups[k]), Select(c, groups[k])))
  }

  /** Grouping adjacent axes does not move any cell: the flat order of axes and the groups number it alike. */
  lemma {:induction false} GroupingKeepsNumber(ms: seq<nat>, groups: seq<seq<nat>>, c: seq<nat>)
    requires AxesBelow(groups, |ms|) && |c| == |ms|
    ensures Below(Flatten(groups), |ms|)
    ensures Prod(Select(ms, Flatten(groups))) == Prod(GroupShape(ms, groups))
    ensures Index(Select(ms, Flatten(groups)), Select(c, Flatten(groups))) ==
            Index(GroupShape(ms, groups), GroupCoord(ms, groups, c))
  {
    FlattenBelow(groups, |ms|);
    if |groups| > 0 {
      var n := |groups| - 1;
      var front, last := groups[..n], groups[n];
      GroupingKeepsNumber(ms, front, c);
      var f := Flatten(front);
      SelectConcat(ms, f, last);
      SelectConcat(c, f, last);
      ProdConcat(Select(ms, f), Select(ms, last));
      IndexConcat(Select(ms, f), Select(ms, last), Select(c, f), Select(c, last));
      assert GroupShape(ms, groups)[..n] == GroupShape(ms, front);
      assert GroupCoord(ms, groups, c)[..n] == GroupCoord(ms, front, c);
    }
  }

  lemma SelectConcat(s: seq<nat>, a: seq<nat>, b: seq<nat>)
    requires Below(a, |s|) && Below(b, |s|)
    ensures Below(a + b, |s|)
    ensures Select(s, a + b) == Select(s, a) + Select(s, b)
  {
  }

  lemma SelectInBounds(ms: seq<nat>, c: seq<nat>, axes: seq<nat>)
    requires InBounds(c, ms) && Below(axes, |ms|)
    ensures InBounds(Select(c, axes), Select(ms, axes))
  {
  }

  lemma GroupCoordInBounds(ms: seq<nat>, groups: seq<seq<nat>>, c: seq<nat>)
    requires AxesBelow(groups, |ms|) && InBounds(c, ms)
    ensures InBounds(GroupCoord(ms, groups, c), GroupShape(ms, groups))
  {
    forall k | 0 <= k < |groups|
      ensures GroupCoord(ms, groups, c)[k] < GroupShape(ms, groups)[k]
    {
      SelectInBounds(ms, c, groups[k]);
      CoordOfIndex(Select(ms, groups[k]), Select(c, groups[k]));
    }
  }

  lemma {:induction false} SelectIsKeep(s: seq<nat>, sel: set<nat>, n: nat)
    requires n <= |s|
    ensures Select(s, Ascending(sel, n)) == Keep(s[..n], sel)
  {
    if n > 0 {
      SelectIsKeep(s, sel, n - 1);
      assert s[..n][..n - 1] == s[..n - 1];
    }
  }

  // ---------------------------------------------------------------- the groups of a placement sequence

  /** Axis i starts a group unless an earlier axis shards the same tensor dimension. */
  predicate Leads(pl: seq<Placement>, i: nat)
    requires i < |pl|
  {
    pl[i].Shard? ==> forall j | 0 <= j < i :: !pl[j].IsShard(pl[i].dim)
  }

  function GroupOf(pl: seq<Placement>, i: nat): (r: seq<nat>)
    requires i < |pl|
    ensures Below(r, |pl|)
  {
    if pl[i].Shard? then Ascending(AxesOf(pl, pl[i].dim), |pl|) else [i]
  }

  lemma GroupMembers(pl: seq<Placement>, i: nat, x: nat)
    requires i < |pl|
    ensures x in GroupOf(pl, i) <==> if pl[i].Shard? then x < |pl| && pl[x].IsShard(pl[i].dim) else x == i
  {
    if pl[i].Shard? {
      AscendingMembers(AxesOf(pl, pl[i].dim), |pl|, x);
    }
  }

  /** The axes below i that start a group. */
  function Leaders(pl: seq<Placement>, i: nat): (r: seq<nat>)
    requires i <= |pl|
    ensures Below(r, |pl|)
  {
    if i == 0 then []
    else if Leads(pl, i - 1) then Leaders(pl, i - 1) + [i - 1]
    else Leaders(pl, i - 1)
  }

  /** The groups started by the first i axes, in the order of their first axis. */
  function Groups(pl: seq<Placement>, i: nat): (r: seq<seq<nat>>)
    requires i <= |pl|
    ensures AxesBelow(r, |pl|)
  {
    if i == 0 then []
    else if Leads(pl, i - 1) then Groups(pl, i - 1) + [GroupOf(pl, i - 1)]
    else Groups(pl, i - 1)
  }

  lemma LeadersFacts(pl: seq<Placement>, i: nat)
    requires i <= |pl|
    ensures forall k | 0 <= k < |Leaders(pl, i)| :: Leaders(pl, i)[k] < i && Leads(pl, Leaders(pl, i)[k])
    ensures forall k, l | 0 <= k < l < |Leaders(pl, i)| :: Leaders(pl, i)[k] < Leaders(pl, i)[l]
    ensures |Groups(pl, i)| == |Leaders(pl, i)|
    ensures forall k | 0 <= k < |Leaders(pl, i)| :: Groups(pl, i)[k] == GroupOf(pl, Leaders(pl, i)[k])
  {
  }

  predicate IsUsed(pl: seq<Placement>, i: nat, x: nat)
    requires i <= |pl| && x < |pl|
  {
    x < i || (pl[x].Shard? && exists j :: 0 <= j < i && pl[j].IsShard(pl[x].dim))
  }

  /** The axes that belong to a group started before i. */
  function Used(pl: seq<Placement>, i: nat): set<nat>
    requires i <= |pl|
  {
    set x: nat | x < |pl| && IsUsed(pl, i, x)
  }

  /** Taking axis i either adds its whole, so far untouched, group or nothing. */
  lemma UsedStep(pl: seq<Placement>, i: nat)
    requires i < |pl|
    ensures i in Used(pl, i) <==> !Leads(pl, i)
    ensures Leads(pl, i) ==> Elements(GroupOf(pl, i)) !! Used(pl, i)
    ensures Used(pl, i + 1) == if Leads(pl, i) then Used(pl, i) + Elements(GroupOf(pl, i)) else Used(pl, i)
  {
    forall x: nat ensures x in Elements(GroupOf(pl, i)) <==>
                          if pl[i].Shard? then x < |pl| && pl[x].IsShard(pl[i].dim) else x == i {
      GroupMembers(pl, i, x);
    }
  }

  lemma ElementsConcat(a: seq<nat>, b: seq<nat>)
    ensures Elements(a + b) == Elements(a) + Elements(b)
  {
  }

  lemma {:induction false} UsedIsFlat(pl: seq<Placement>, i: nat)
    requires i <= |pl|
    ensures Used(pl, i) == Elements(Flatten(Groups(pl, i)))
  {
    if i == 0 {
      NothingUsed(pl);
    } else {
      UsedIsFlat(pl, i - 1);
      UsedFlatStep(pl, i - 1);
    }
  }

  lemma UsedFlatStep(pl: seq<Placement>, i: nat)
    requires i < |pl|
    requires Used(pl, i) == Elements(Flatten(Groups(pl, i)))
    ensures Used(pl, i + 1) == Elements(Flatten(Groups(pl, i + 1)))
  {
    UsedStep(pl, i);
    FlattenStep(pl, i);
    ElementsConcat(Flatten(Groups(pl, i)), GroupOf(pl, i));
  }

  lemma FlattenStep(pl: seq<Placement>, i: nat)
    requires i < |pl|
    ensures Flatten(Groups(pl, i + 1)) == if Leads(pl, i) then Flatten(Groups(pl, i)) + GroupOf(pl, i) else Flatten(Groups(pl, i))
  {
    FlattenAppend(Groups(pl, i), GroupOf(pl, i));
  }

  // ---------------------------------------------------------------- cell count

  lemma {:induction false} KeepUnion(s: seq<nat>, a: set<nat>, b: set<nat>)
    requires a !! b
    ensures Prod(Keep(s, a + b)) == Prod(Keep(s, a)) * Prod(Keep(s, b))
  {
    if |s| > 0 {
      var n := |s| - 1;
      KeepUnion(s[..n], a, b);
      KeepStep(s, a);
      KeepStep(s, b);
      KeepStep(s, a + b);
      Regroup(Prod(Keep(s[..n], a)), Prod(Keep(s[..n], b)), s[n]);
    }
  }

  lemma Regroup(p: nat, q: nat, m: nat)
    ensures (p * q) * m == (p * m) * q == p * (q * m)
  {
  }

  lemma KeepStep(s: seq<nat>, a: set<nat>)
    requires |s| > 0
    ensures var k := Prod(Keep(s[..|s| - 1], a));
            Prod(Keep(s, a)) == if |s| - 1 in a then k * s[|s| - 1] else k
  {
    var k := Keep(s[..|s| - 1], a);
    assert (k + [s[|s| - 1]])[..|k|] == k;
    assert k + [] == k;
  }

  lemma {:induction false} KeepAll(s: seq<nat>, a: set<nat>)
    requires forall x: nat | x < |s| :: x in a
    ensures Keep(s, a) == s
  {
    if |s| > 0 {
      KeepAll(s[..|s| - 1], a);
    }
  }

  lemma GroupProduct(ms: seq<nat>, pl: seq<Placement>, i: nat)
    requires |ms| == |pl| && i < |pl|
    ensures Prod(Select(ms, GroupOf(pl, i))) == Prod(Keep(ms, Elements(GroupOf(pl, i))))
  {
    var sel := if pl[i].Shard? then AxesOf(pl, pl[i].dim) else {i};
    AscendingSingle(i, |ms|);
    assert GroupOf(pl, i) == Ascending(sel, |ms|);
    SelectIsKeep(ms, sel, |ms|);
    assert ms[..|ms|] == ms;
    forall x: nat ensures x in Elements(GroupOf(pl, i)) <==> x in sel {
      GroupMembers(pl, i, x);
    }
    assert Elements(GroupOf(pl, i)) == sel;
  }

  lemma AscendingSingle(i: nat, n: nat)
    ensures Ascending({i}, n) == if i < n then [i] else []
  {
  }

  ghost predicate CellCountAt(ms: seq<nat>, pl: seq<Placement>, i: nat)
    requires |ms| == |pl| && i <= |pl|
  {
    Prod(GroupShape(ms, Groups(pl, i))) == Prod(Keep(ms, Used(pl, i)))
  }

  lemma {:induction false} CellCountKept(ms: seq<nat>, pl: seq<Placement>, i: nat)
    requires |ms| == |pl| && i <= |pl|
    ensures CellCountAt(ms, pl, i)
  {
    if i == 0 {
      CellCountNone(ms, pl);
    } else {
      CellCountKept(ms, pl, i - 1);
      CellCountStep(ms, pl, i - 1);
    }
  }

  lemma CellCountNone(ms: seq<nat>, pl: seq<Placement>)
    requires |ms| == |pl|
    ensures CellCountAt(ms, pl, 0)
  {
    NothingUsed(pl);
    KeepNone(ms);
    assert GroupShape(ms, Groups(pl, 0)) == [];
  }

  lemma NothingUsed(pl: seq<Placement>)
    ensures Used(pl, 0) == {}
  {
  }

  lemma CellCountStep(ms: seq<nat>, pl: seq<Placement>, i: nat)
    requires |ms| == |pl| && i < |pl|
    requires CellCountAt(ms, pl, i)
    ensures CellCountAt(ms, pl, i + 1)
  {
    UsedStep(pl, i);
    if Leads(pl, i) {
      var g := GroupOf(pl, i);
      assert Groups(pl, i + 1) == Groups(pl, i) + [g];
      KeepUnion(ms, Used(pl, i), Elements(g));
      GroupProduct(ms, pl, i);
      GroupShapeAppend(ms, Groups(pl, i), g);
    }
  }

  lemma GroupShapeAppend(ms: seq<nat>, groups: seq<seq<nat>>, g: seq<nat>)
    requires AxesBelow(groups, |ms|) && Below(g, |ms|)
    ensures AxesBelow(groups + [g], |ms|)
    ensures GroupShape(ms, groups + [g]) == GroupShape(ms, groups) + [Prod(Select(ms, g))]
    ensures Prod(GroupShape(ms, groups + [g])) == Prod(GroupShape(ms, groups)) * Prod(Select(ms, g))
  {
    var r := GroupShape(ms, groups + [g]);
    assert r[..|groups|] == GroupShape(ms, groups);
  }

  lemma KeepNone(s: seq<nat>)
    ensures Keep(s, {}) == []
  {
  }

  // ---------------------------------------------------------------- permuting the axes of the mesh

  function Find(perm: seq<nat>, i: nat): (k: nat)
    requires i in perm
    ensures k < |perm| && perm[k] == i
  {
    if perm[|perm| - 1] == i then |perm| - 1 else Find(perm[..|perm| - 1], i)
  }

  predicate Covers(perm: seq<nat>, n: nat) {
    Below(perm, n) && forall i: nat | i < n :: i in perm
  }

  /** The coordinate whose axes, taken in the order of perm, are pc. */
  function Unselect(n: nat, perm: seq<nat>, pc: seq<nat>): (c: seq<nat>)
    requires Covers(perm, n) && |pc| == |perm|
    ensures |c| == n
    ensures forall i: nat | i < n :: c[i] == pc[Find(perm, i)]
  {
    seq<nat>(n, i requires 0 <= i < n => pc[Find(perm, i)])
  }

  lemma UnselectInBounds(ms: seq<nat>, perm: seq<nat>, pc: seq<nat>)
    requires Covers(perm, |ms|) && InBounds(pc, Select(ms, perm))
    ensures InBounds(Unselect(|ms|, perm, pc), ms)
  {
  }

  /** Row-major contents after permuting the axes, as torch's permute followed by reshape stores them. */
  function Permuted(ms: seq<nat>, data: seq<int>, perm: seq<nat>): (r: seq<int>)
    requires Positive(ms) && |data| == Prod(ms) && Covers(perm, |ms|)
    ensures |r| == Prod(Select(ms, perm))
  {
    seq(Prod(Select(ms, perm)), k requires 0 <= k < Prod(Select(ms, perm)) =>
      var pc := Coord(Select(ms, perm), k);
      IndexOfCoord(Select(ms, perm), k);
      UnselectInBounds(ms, perm, pc);
      CoordOfIndex(ms, Unselect(|ms|, perm, pc));
      data[Index(ms, Unselect(|ms|, perm, pc))])
  }

  /** Permuting moves the cell at c to the place its permuted coordinate names. */
  lemma PermutedAt(ms: seq<nat>, data: seq<int>, perm: seq<nat>, c: seq<nat>)
    requires Positive(ms) && |data| == Prod(ms) && Covers(perm, |ms|) && InBounds(c, ms)
    ensures Index(Select(ms, perm), Select(c, perm)) < Prod(Select(ms, perm))
    ensures Index(ms, c) < |data|
    ensures Permuted(ms, data, perm)[Index(Select(ms, perm), Select(c, perm))] == data[Index(ms, c)]
  {
    SelectInBounds(ms, c, perm);
    CoordOfIndex(Select(ms, perm), Select(c, perm));
    CoordOfIndex(ms, c);
    assert Unselect(|ms|, perm, Select(c, perm)) == c;
  }

  // ---------------------------------------------------------------- the merged specification

  predicate NeedsMerge(pl: seq<Placement>) {
    exists i | 0 <= i < |pl| :: !Leads(pl, i)
  }

  function Perm(pl: seq<Placement>): (r: seq<nat>)
    ensures Covers(r, |pl|)
  {
    PermCovers(pl);
    Flatten(Groups(pl, |pl|))
  }

  lemma PermCovers(pl: seq<Placement>)
    ensures Covers(Flatten(Groups(pl, |pl|)), |pl|)
  {
    FlattenBelow(Groups(pl, |pl|), |pl|);
    UsedIsFlat(pl, |pl|);
    forall x: nat | x < |pl| ensures x in Flatten(Groups(pl, |pl|)) {
      assert x in Used(pl, |pl|);
    }
  }

  function SelectPlacements(pl: seq<Placement>, axes: seq<nat>): (r: seq<Placement>)
    requires Below(axes, |pl|)
    ensures |r| == |axes|
    ensures forall k | 0 <= k < |r| :: r[k] == pl[axes[k]]
  {
    seq(|axes|, k requires 0 <= k < |axes| => pl[axes[k]])
  }

  function MergedPlacements(pl: seq<Placement>): seq<Placement> {
    SelectPlacements(pl, Leaders(pl, |pl|))
  }

  function Merged(mesh: DeviceMesh, pl: seq<Placement>): (DeviceMesh, seq<Placement>)
    requires mesh.Valid() && |pl| == |mesh.shape|
  {
    if !NeedsMerge(pl) then (mesh, pl)
    else
      (DeviceMesh(mesh.kind, GroupShape(mesh.shape, Groups(pl, |pl|)), Permuted(mesh.shape, mesh.data, Perm(pl))),
       MergedPlacements(pl))
  }

  /** Where the device at coordinate c is found in the merged mesh. */
  function MergedCoord(ms: seq<nat>, pl: seq<Placement>, c: seq<nat>): seq<nat>
    requires |ms| == |pl| == |c|
  {
    if NeedsMerge(pl) then GroupCoord(ms, Groups(pl, |pl|), c) else c
  }

  // ---------------------------------------------------------------- the computation

  lemma AscendingCount(sel: set<nat>, n: nat)
    requires forall x | x in sel :: x < n
    ensures |Ascending(sel, n)| == |sel|
  {
    if n == 0 {
      assert sel == {};
    } else {
      var rest := sel - {n - 1};
      AscendingCount(rest, n - 1);
      AscendingSame(sel, rest, n - 1);
    }
  }

  lemma AscendingSame(a: set<nat>, b: set<nat>, n: nat)
    requires forall x | x < n :: x in a <==> x in b
    ensures Ascending(a, n) == Ascending(b, n)
  {
  }

  /** The listed axes of a sharded dimension begin with the axis that leads the group. */
  lemma GroupHead(pl: seq<Placement>, d: int)
    requires AxesOf(pl, d) != {}
    ensures var g := Ascending(AxesOf(pl, d), |pl|);
            && |g| == |AxesOf(pl, d)| > 0
            && forall i: nat | i < |pl| && pl[i].IsShard(d) :: Leads(pl, i) <==> i == g[0]
  {
    var sel := AxesOf(pl, d);
    var g := Ascending(sel, |pl|);
    AscendingCount(sel, |pl|);
    AscendingSorted(sel, |pl|);
    AscendingMembers(sel, |pl|, g[0]);
    assert g[0] in g;
    forall i: nat | i < |pl| && pl[i].IsShard(d) ensures Leads(pl, i) <==> i == g[0] {
      AscendingMembers(sel, |pl|, i);
      forall j | 0 <= j < g[0] ensures !pl[j].IsShard(d) {
        AscendingMembers(sel, |pl|, j);
      }
    }
  }

  /** Axis i leads a group of several axes. */
  predicate LeadsMany(pl: seq<Placement>, i: nat)
    requires i < |pl|
  {
    pl[i].Shard? && Leads(pl, i) && |GroupOf(pl, i)| > 1
  }

  method GroupsToMerge(pl: seq<Placement>, infos: map<int, ShardInfo>) returns (groups: map<nat, seq<nat>>)
    requires infos.Keys == ShardedDims(pl)
    requires forall d | d in infos :: infos[d].meshDims == AxesOf(pl, d)
    ensures forall i | i in groups :: i < |pl|
    ensures forall i: nat | i < |pl| :: i in groups <==> LeadsMany(pl, i)
    ensures forall i: nat | i in groups :: groups[i] == GroupOf(pl, i)
  {
    groups := map[];
    var todo := infos.Keys;
    while todo != {}
      invariant todo <= infos.Keys
      invariant forall i | i in groups :: i < |pl|
      invariant forall i: nat | i < |pl| :: i in groups <==> LeadsMany(pl, i) && pl[i].dim !in todo
      invariant forall i: nat | i in groups :: groups[i] == GroupOf(pl, i)
    {
      var d :| d in todo;
      todo := todo - {d};
      AxesOfEmpty(pl, d);
      GroupHead(pl, d);
      if |infos[d].meshDims| > 1 {
        var axes := Ascending(infos[d].meshDims, |pl|);
        AscendingMembers(infos[d].meshDims, |pl|, axes[0]);
        groups := groups[axes[0] := axes];
      }
    }
    forall i: nat | i < |pl| && pl[i].Shard? ensures pl[i].dim in infos {
    }
  }

  lemma FollowerHasLeader(pl: seq<Placement>, i: nat) returns (f: nat)
    requires i < |pl| && !Leads(pl, i)
    ensures f < |pl| && LeadsMany(pl, f)
  {
    var d := pl[i].dim;
    assert i in AxesOf(pl, d);
    f := FirstAxis(pl, d);
    GroupMembers(pl, f, i);
    GroupMembers(pl, f, f);
  }

  lemma LeaderHasFollower(pl: seq<Placement>, i: nat) returns (f: nat)
    requires i < |pl| && LeadsMany(pl, i)
    ensures f < |pl| && !Leads(pl, f)
  {
    var d := pl[i].dim;
    assert i in AxesOf(pl, d);
    f := GroupOf(pl, i)[1];
    GroupMembers(pl, i, f);
    AscendingSorted(AxesOf(pl, d), |pl|);
    GroupHead(pl, d);
  }

  lemma NeedsMergeIff(pl: seq<Placement>)
    ensures NeedsMerge(pl) <==> exists i: nat :: i < |pl| && LeadsMany(pl, i)
  {
    if i :| 0 <= i < |pl| && !Leads(pl, i) {
      var f := FollowerHasLeader(pl, i);
    }
    if i: nat :| i < |pl| && LeadsMany(pl, i) {
      var f := LeaderHasFollower(pl, i);
    }
  }

  lemma MergeStep(ms: seq<nat>, pl: seq<Placement>, i: nat)
    requires |ms| == |pl| && i < |pl|
    ensures Leads(pl, i) ==>
        && Flatten(Groups(pl, i + 1)) == Flatten(Groups(pl, i)) + GroupOf(pl, i)
        && GroupShape(ms, Groups(pl, i + 1)) == GroupShape(ms, Groups(pl, i)) + [Prod(Select(ms, GroupOf(pl, i)))]
        && SelectPlacements(pl, Leaders(pl, i + 1)) == SelectPlacements(pl, Leaders(pl, i)) + [pl[i]]
    ensures !Leads(pl, i) ==> Groups(pl, i + 1) == Groups(pl, i) && Leaders(pl, i + 1) == Leaders(pl, i)
  {
    if Leads(pl, i) {
      var groups, g := Groups(pl, i), GroupOf(pl, i);
      assert Groups(pl, i + 1) == groups + [g] && Leaders(pl, i + 1) == Leaders(pl, i) + [i];
      FlattenAppend(groups, g);
      GroupShapeAppend(ms, groups, g);
    }
  }

  method MergeSameShardDim(mesh: DeviceMesh, pl: seq<Placement>) returns (mesh': DeviceMesh, pl': seq<Placement>)
    requires mesh.Valid() && |pl| == |mesh.shape|
    ensures (mesh', pl') == Merged(mesh, pl)
  {
    var infos := GetShardInfo(mesh.shape, pl);
    var needMerge := GroupsToMerge(pl, infos);
    NeedsMergeIff(pl);
    if |needMerge| == 0 {
      return mesh, pl;
    }
    var newShape, permuteDim, newPlacements := CollectGroups(mesh.shape, pl, needMerge);
    PermCovers(pl);
    mesh' := DeviceMesh(mesh.kind, newShape, Permuted(mesh.shape, mesh.data, permuteDim));
    pl' := newPlacements;
  }

  method CollectGroups(ms: seq<nat>, pl: seq<Placement>, needMerge: map<nat, seq<nat>>)
    returns (newShape: seq<nat>, permuteDim: seq<nat>, newPlacements: seq<Placement>)
    requires |ms| == |pl|
    requires forall i: nat | i < |pl| :: i in needMerge <==> LeadsMany(pl, i)
    requires forall i: nat | i < |pl| && i in needMerge :: needMerge[i] == GroupOf(pl, i)
    ensures newShape == GroupShape(ms, Groups(pl, |pl|))
    ensures permuteDim == Flatten(Groups(pl, |pl|))
    ensures newPlacements == MergedPlacements(pl)
  {
    newShape, permuteDim, newPlacements := [], [], [];
    var used: set<nat> := {};
    for i := 0 to |pl|
      invariant used == Used(pl, i)
      invariant permuteDim == Flatten(Groups(pl, i))
      invariant newShape == GroupShape(ms, Groups(pl, i))
      invariant newPlacements == SelectPlacements(pl, Leaders(pl, i))
    {
      UsedStep(pl, i);
      MergeStep(ms, pl, i);
      if i !in used {
        LeaderGroup(pl, i);
        var group := if i in needMerge then needMerge[i] else [i];
        var size := TakeAxes(ms, group);
        permuteDim := permuteDim + group;
        used := used + Elements(group);
        newShape := newShape + [size];
        newPlacements := newPlacements + [pl[i]];
      }
    }
  }

  /** The cells of a merged axis: the running product over its group. */
  method TakeAxes(ms: seq<nat>, group: seq<nat>) returns (size: nat)
    requires Below(group, |ms|)
    ensures size == Prod(Select(ms, group))
  {
    size := 1;
    for k := 0 to |group|
      invariant size == Prod(Select(ms, group)[..k])
    {
      assert Select(ms, group)[..k + 1][..k] == Select(ms, group)[..k];
      size := size * ms[group[k]];
    }
    assert Select(ms, group)[..|group|] == Select(ms, group);
  }

  /** An axis that leads no larger group is a group of its own. */
  lemma LeaderGroup(pl: seq<Placement>, i: nat)
    requires i < |pl| && Leads(pl, i)
    ensures !LeadsMany(pl, i) ==> GroupOf(pl, i) == [i]
  {
    GroupMembers(pl, i, i);
  }

  // ---------------------------------------------------------------- chunks do not change

  /** When a single axis shards d, the chunk number is the coordinate on that axis. */
  lemma {:induction false} SingleAxis(ms: seq<nat>, pl: seq<Placement>, d: int, c: seq<nat>, k: nat)
    requires |ms| == |pl| == |c| && k < |pl|
    requires forall i | 0 <= i < |pl| :: pl[i].IsShard(d) <==> i == k
    ensures NumShards(ms, pl, d) == ms[k] && Chunk(ms, pl, d, c) == c[k]
  {
    var n := |ms| - 1;
    if k < n {
      SingleAxis(ms[..n], pl[..n], d, c[..n], k);
    } else {
      assert AxesOf(pl[..n], d) == {} by {
        assert forall i: nat | i < n :: !pl[..n][i].IsShard(d);
      }
      Unsharded(ms[..n], pl[..n], d, c[..n]);
    }
  }

  lemma FirstAxis(pl: seq<Placement>, d: int) returns (f: nat)
    requires AxesOf(pl, d) != {}
    ensures f < |pl| && pl[f].IsShard(d) && Leads(pl, f)
  {
    var w :| w in AxesOf(pl, d);
    f := 0;
    while !pl[f].IsShard(d)
      invariant f <= w && forall j | 0 <= j < f :: !pl[j].IsShard(d)
      decreases w - f
    {
      f := f + 1;
    }
  }

  lemma LeaderOfDim(pl: seq<Placement>, d: int) returns (k: nat)
    requires AxesOf(pl, d) != {}
    ensures k < |Leaders(pl, |pl|)| == |Groups(pl, |pl|)|
    ensures Groups(pl, |pl|)[k] == Ascending(AxesOf(pl, d), |pl|)
    ensures forall i | 0 <= i < |MergedPlacements(pl)| :: MergedPlacements(pl)[i].IsShard(d) <==> i == k
  {
    var f := FirstAxis(pl, d);
    k := LeaderIndex(pl, |pl|, f);
    LeadersFacts(pl, |pl|);
    var l := Leaders(pl, |pl|);
    forall i | 0 <= i < |l| && MergedPlacements(pl)[i].IsShard(d) ensures i == k {
      assert Leads(pl, l[i]);
      assert Leads(pl, l[k]);
    }
  }

  lemma LeaderIndex(pl: seq<Placement>, i: nat, f: nat) returns (k: nat)
    requires f < i <= |pl| && Leads(pl, f)
    ensures k < |Leaders(pl, i)| && Leaders(pl, i)[k] == f
  {
    if f == i - 1 {
      k := |Leaders(pl, i)| - 1;
    } else {
      k := LeaderIndex(pl, i - 1, f);
    }
  }

  lemma MergedUnsharded(pl: seq<Placement>, d: int)
    requires AxesOf(pl, d) == {}
    ensures AxesOf(MergedPlacements(pl), d) == {}
  {
    LeadersFacts(pl, |pl|);
    forall k: nat | k < |MergedPlacements(pl)| ensures !MergedPlacements(pl)[k].IsShard(d) {
      assert Leaders(pl, |pl|)[k] !in AxesOf(pl, d);
    }
  }

  /** The merged axes cut every tensor dimension into the same chunks and give every device the same one. */
  lemma ChunksKept(ms: seq<nat>, pl: seq<Placement>, d: int, c: seq<nat>)
    requires |ms| == |pl| == |c|
    ensures var groups := Groups(pl, |pl|);
            && |MergedPlacements(pl)| == |groups|
            && NumShards(GroupShape(ms, groups), MergedPlacements(pl), d) == NumShards(ms, pl, d)
            && Chunk(GroupShape(ms, groups), MergedPlacements(pl), d, GroupCoord(ms, groups, c)) == Chunk(ms, pl, d, c)
  {
    LeadersFacts(pl, |pl|);
    var groups := Groups(pl, |pl|);
    var ms', pl', c' := GroupShape(ms, groups), MergedPlacements(pl), GroupCoord(ms, groups, c);
    if AxesOf(pl, d) == {} {
      MergedUnsharded(pl, d);
      Unsharded(ms, pl, d, c);
      Unsharded(ms', pl', d, c');
    } else {
      var k := LeaderOfDim(pl, d);
      SingleAxis(ms', pl', d, c', k);
      GroupIsChunk(ms, pl, d, c);
    }
  }

  lemma GroupIsChunk(ms: seq<nat>, pl: seq<Placement>, d: int, c: seq<nat>)
    requires |ms| == |pl| == |c|
    ensures var g := Ascending(AxesOf(pl, d), |pl|);
            && Prod(Select(ms, g)) == NumShards(ms, pl, d)
            && Index(Select(ms, g), Select(c, g)) == Chunk(ms, pl, d, c)
  {
    assert ms[..|pl|] == ms && c[..|pl|] == c;
    SelectIsKeep(ms, AxesOf(pl, d), |pl|);
    SelectIsKeep(c, AxesOf(pl, d), |pl|);
    ProjectionIsChunk(ms, pl, d, c, AxesOf(pl, d));
  }

  // ---------------------------------------------------------------- main results

  /**
   * Merging preserves meaning: the device at coordinate c is found at its merged coordinate, and there
   * it holds the same chunk of every tensor dimension, hence the same local shape, as before.
   */
  lemma MergeKeepsDistribution(shape: seq<nat>, mesh: DeviceMesh, pl: seq<Placement>, c: seq<nat>)
    requires mesh.Valid() && |pl| == |mesh.shape| && InBounds(c, mesh.shape)
    ensures var (mesh', pl') := Merged(mesh, pl);
            var c' := MergedCoord(mesh.shape, pl, c);
            && |pl'| == |mesh'.shape| && Positive(mesh'.shape)
            && InBounds(c', mesh'.shape)
            && Index(mesh.shape, c) < |mesh.data| && Index(mesh'.shape, c') < |mesh'.data| == |mesh.data|
            && mesh'.data[Index(mesh'.shape, c')] == mesh.data[Index(mesh.shape, c)]
            && (forall d :: NumShards(mesh'.shape, pl', d) == NumShards(mesh.shape, pl, d))
            && (forall d :: Chunk(mesh'.shape, pl', d, c') == Chunk(mesh.shape, pl, d, c))
            && LocalShape(shape, mesh'.shape, pl', c') == LocalShape(shape, mesh.shape, pl, c)
  {
    var ms := mesh.shape;
    CoordOfIndex(ms, c);
    if NeedsMerge(pl) {
      MergedCell(mesh, pl, c);
      forall d
        ensures NumShards(GroupShape(ms, Groups(pl, |pl|)), MergedPlacements(pl), d) == NumShards(ms, pl, d)
        ensures Chunk(GroupShape(ms, Groups(pl, |pl|)), MergedPlacements(pl), d, GroupCoord(ms, Groups(pl, |pl|), c))
                == Chunk(ms, pl, d, c)
      {
        ChunksKept(ms, pl, d, c);
      }
    }
  }

  lemma MergedCell(mesh: DeviceMesh, pl: seq<Placement>, c: seq<nat>)
    requires mesh.Valid() && |pl| == |mesh.shape| && InBounds(c, mesh.shape) && NeedsMerge(pl)
    ensures var (mesh', pl') := Merged(mesh, pl);
            var c' := MergedCoord(mesh.shape, pl, c);
            && |pl'| == |mesh'.shape| && Positive(mesh'.shape)
            && InBounds(c', mesh'.shape)
            && Index(mesh.shape, c) < |mesh.data| && Index(mesh'.shape, c') < |mesh'.data| == |mesh.data|
            && mesh'.data[Index(mesh'.shape, c')] == mesh.data[Index(mesh.shape, c)]
  {
    var ms, groups := mesh.shape, Groups(pl, |pl|);
    LeadersFacts(pl, |pl|);
    CoordOfIndex(ms, c);
    GroupCoordInBounds(ms, groups, c);
    CoordOfIndex(GroupShape(ms, groups), GroupCoord(ms, groups, c));
    GroupingKeepsNumber(ms, groups, c);
    PermutedAt(ms, mesh.data, Perm(pl), c);
    MergedCellCount(ms, pl, c);
  }

  lemma MergedCellCount(ms: seq<nat>, pl: seq<Placement>, c: seq<nat>)
    requires |ms| == |pl| == |c|
    ensures Prod(GroupShape(ms, Groups(pl, |pl|))) == Prod(ms)
    ensures Prod(Select(ms, Perm(pl))) == Prod(ms)
  {
    CellCountKept(ms, pl, |pl|);
    KeepAll(ms, Used(pl, |pl|));
    GroupingKeepsNumber(ms, Groups(pl, |pl|), c);
  }

  /** The merged mesh is again a mesh of distinct device ids, and the same ones. */
  lemma MergeKeepsDevices(mesh: DeviceMesh, pl: seq<Placement>)
    requires mesh.Valid() && |pl| == |mesh.shape|
    ensures Merged(mesh, pl).0.Valid()
    ensures Merged(mesh, pl).0.DeviceIdSet() == mesh.DeviceIdSet()
    ensures Merged(mesh, pl).0.kind == mesh.kind
    ensures |Merged(mesh, pl).1| == |Merged(mesh, pl).0.shape|
  {
    if NeedsMerge(pl) {
      var mesh' := Merged(mesh, pl).0;
      ProdPositive(mesh.shape);
      var c0 := Coord(mesh.shape, 0);
      IndexOfCoord(mesh.shape, 0);
      MergedCell(mesh, pl, c0);
      MergedCellCount(mesh.shape, pl, c0);
      forall p | 0 <= p < |mesh.data| ensures mesh.data[p] in mesh'.data {
        IndexOfCoord(mesh.shape, p);
        MergedCell(mesh, pl, Coord(mesh.shape, p));
      }
      SameElementsDistinct(mesh.data, mesh'.data);
    }
  }

  lemma SetSize(s: seq<int>)
    ensures |set x | x in s| <= |s|
  {
    if |s| > 0 {
      var n := |s| - 1;
      SetSize(s[..n]);
      assert (set x | x in s) == (set x | x in s[..n]) + {s[n]};
    }
  }

  /** A rearrangement that keeps all elements of a duplicate-free sequence and its length is duplicate-free. */
  lemma SameElementsDistinct(a: seq<int>, b: seq<int>)
    requires forall i, j | 0 <= i < j < |a| :: a[i] != a[j]
    requires |a| == |b| && forall i | 0 <= i < |a| :: a[i] in b
    ensures forall i, j | 0 <= i < j < |b| :: b[i] != b[j]
    ensures (set x | x in b) == (set x | x in a)
  {
    var A, B := set x | x in a, set x | x in b;
    DistinctCount(a);
    SetSize(b);
    assert A <= B;
    SubsetSameSize(A, B);
    forall i, j | 0 <= i < j < |b| ensures b[i] != b[j] {
      if b[i] == b[j] {
        var c := b[..j] + b[j + 1..];
        SetSize(c);
        assert B <= set x | x in c by {
          forall x | x in b ensures x in c {
            var k :| 0 <= k < |b| && b[k] == x;
            assert k < j ==> c[k] == x;
            assert k > j ==> c[k - 1] == x;
            assert k == j ==> c[i] == x;
          }
        }
        SubsetSize(B, set x | x in c);
      }
    }
  }

  lemma SubsetSize(a: set<int>, b: set<int>)
    requires a <= b
    ensures |a| <= |b|
  {
    assert b == a + (b - a);
  }

  lemma SubsetSameSize(a: set<int>, b: set<int>)
    requires a <= b && |b| <= |a|
    ensures a == b
  {
    assert b == a + (b - a);
  }

  /** For a device id: the chunk it holds before and after merging, whatever positions it has. */
  lemma MergeKeepsDeviceChunk(mesh: DeviceMesh, pl: seq<Placement>, p: nat, p': nat, d: int)
    requires mesh.Valid() && |pl| == |mesh.shape| && p < |mesh.data|
    requires p' < |Merged(mesh, pl).0.data| && Merged(mesh, pl).0.data[p'] == mesh.data[p]
    ensures var (mesh', pl') := Merged(mesh, pl);
            && Positive(mesh'.shape) && |pl'| == |mesh'.shape|
            && Chunk(mesh'.shape, pl', d, Coord(mesh'.shape, p')) == Chunk(mesh.shape, pl, d, Coord(mesh.shape, p))
  {
    var c := Coord(mesh.shape, p);
    var (mesh', pl') := Merged(mesh, pl);
    IndexOfCoord(mesh.shape, p);
    MergeKeepsDevices(mesh, pl);
    MergeKeepsDistribution([], mesh, pl, c);
    var c' := MergedCoord(mesh.shape, pl, c);
    assert Index(mesh'.shape, c') == p';
    CoordOfIndex(mesh'.shape, c');
  }

  /** After merging at most one axis shards each tensor dimension, so merging again changes nothing. */
  lemma MergeIsIdempotent(mesh: DeviceMesh, pl: seq<Placement>)
    requires mesh.Valid() && |pl| == |mesh.shape|
    ensures var (mesh', pl') := Merged(mesh, pl);
            && mesh'.Valid() && |pl'| == |mesh'.shape|
            && (forall d, i, j | 0 <= i < |pl'| && 0 <= j < |pl'| && pl'[i].IsShard(d) && pl'[j].IsShard(d) :: i == j)
            && Merged(mesh', pl') == (mesh', pl')
  {
    MergeKeepsDevices(mesh, pl);
    var (mesh', pl') := Merged(mesh, pl);
    forall d, i, j | 0 <= i < |pl'| && 0 <= j < |pl'| && pl'[i].IsShard(d) && pl'[j].IsShard(d)
      ensures i == j
    {
      if NeedsMerge(pl) {
        LeadersFacts(pl, |pl|);
        assert Leads(pl, Leaders(pl, |pl|)[i]) && Leads(pl, Leaders(pl, |pl|)[j]);
      } else {
        assert Leads(pl, i) && Leads(pl, j);
      }
    }
    assert !NeedsMerge(pl');
  }

  /** Which axes remain, and in which order: those before which no other axis shards the same dimension, in their old
    * order; each keeps its placement and has the size of all the axes that shard its dimension. */
  lemma MergedAxes(mesh: DeviceMesh, pl: seq<Placement>) returns (first: seq<nat>)
    requires mesh.Valid() && |pl| == |mesh.shape|
    ensures forall k, l | 0 <= k < l < |first| :: first[k] < first[l]
    ensures forall i: nat :: i in first <==>
      i < |pl| && (pl[i].Shard? ==> forall j | 0 <= j < i :: !(pl[j].Shard? && pl[j].dim == pl[i].dim))
    ensures |Merged(mesh, pl).1| == |Merged(mesh, pl).0.shape| == |first|
    ensures forall k | 0 <= k < |first| :: first[k] < |pl| && Merged(mesh, pl).1[k] == pl[first[k]]
    ensures forall k | 0 <= k < |first| :: Merged(mesh, pl).0.shape[k] == SizeOfAll(mesh.shape, pl, first[k])
  {
    first := Leaders(pl, |pl|);
    LeadersFacts(pl, |pl|);
    forall i: nat
      ensures i in first <==> i < |pl| && Leads(pl, i)
    {
      if i < |pl| && Leads(pl, i) {
        var k := LeaderIndex(pl, |pl|, i);
      }
    }
    if NeedsMerge(pl) {
      forall k | 0 <= k < |first|
        ensures Prod(Select(mesh.shape, GroupOf(pl, first[k]))) == SizeOfAll(mesh.shape, pl, first[k])
      {
        GroupSize(mesh.shape, pl, first[k]);
      }
    } else {
      AllLead(pl, |pl|);
      SizesWithout(mesh.shape, pl);
    }
  }

  /** The product of all axes that shard the same dimension as axis `i`. */
  function SizeOfAll(ms: seq<nat>, pl: seq<Placement>, i: nat): (r: nat)
    requires |ms| == |pl| && i < |pl|
  {
    if pl[i].Shard? then NumShards(ms, pl, pl[i].dim) else ms[i]
  }

  lemma SizesWithout(ms: seq<nat>, pl: seq<Placement>)
    requires |ms| == |pl| && forall j: nat | j < |pl| :: Leads(pl, j)
    ensures forall k: nat | k < |pl| :: SizeOfAll(ms, pl, k) == ms[k]
  {
    forall k: nat | k < |pl| && pl[k].Shard?
      ensures NumShards(ms, pl, pl[k].dim) == ms[k]
    {
      assert forall j: nat | j < |pl| :: pl[j].IsShard(pl[k].dim) ==> Leads(pl, j) && Leads(pl, k);
      SingleAxis(ms, pl, pl[k].dim, ms, k);
    }
  }

  lemma GroupSize(ms: seq<nat>, pl: seq<Placement>, i: nat)
    requires |ms| == |pl| && i < |pl|
    ensures Prod(Select(ms, GroupOf(pl, i))) == SizeOfAll(ms, pl, i)
  {
    if pl[i].Shard? {
      GroupIsChunk(ms, pl, pl[i].dim, ms);
    } else {
      assert Select(ms, [i]) == [ms[i]];
      assert [ms[i]][..0] == [];
    }
  }

  lemma {:induction false} AllLead(pl: seq<Placement>, i: nat)
    requires i <= |pl| && forall j: nat | j < i :: Leads(pl, j)
    ensures |Leaders(pl, i)| == i && forall j: nat | j < i :: Leaders(pl, i)[j] == j
  {
    if i > 0 {
      AllLead(pl, i - 1);
    }
  }
}

/** Grouping a run's turn records into phases (`coalesce_into_phases` in
    `docs.rs`). A turn record keeps the fields that grouping and phases read. */
module Phases {
  import opened Common

  datatype Turn = Turn(turn: nat, title: string, kind: string, files: seq<string>, commit: Option<string>)

  type Group = seq<Turn>

  datatype Phase = Phase(index: nat, title: string, startTurn: nat, endTurn: nat, commit: Option<string>, files: set<string>, turns: Group)

  const MAX_PHASES: nat := 8

  // --------------------------------------------------------- joining a turn

  function FilesOf(group: Group): set<string> {
    set t, f | t in group && f in t.files :: f
  }

  function Shared(files: seq<string>, known: set<string>): nat {
    if files == [] then 0
    else Shared(files[..|files| - 1], known) + (if files[|files| - 1] in known then 1 else 0)
  }

  /** Length of the run of turns of one tool kind that ends a group. */
  function KindRun(group: Group, kind: string): nat {
    if group == [] || group[|group| - 1].kind != kind then 0 else 1 + KindRun(group[..|group| - 1], kind)
  }

  /** More than half of the turn's files are the group's, or the turn continues
      a run of one or two turns of its kind. */
  predicate Joins(group: Group, turn: Turn) {
    || 2 * Shared(turn.files, FilesOf(group)) > |turn.files|
    || 0 < KindRun(group, turn.kind) < 3
  }

  /** A turn joins on a strict majority of its files, or as the second or third of
      its kind in a row; half of the files, a first or a fourth do not do. */
  lemma JoinsIff(group: Group, turn: Turn)
    ensures Joins(group, turn) <==>
      || |turn.files| - Shared(turn.files, FilesOf(group)) < Shared(turn.files, FilesOf(group))
      || KindRun(group, turn.kind) == 1 || KindRun(group, turn.kind) == 2
  {
  }

  /** `KindRun` is the length of the longest ending of one kind. */
  lemma {:induction false} KindRunIs(group: Group, kind: string)
    ensures var n := KindRun(group, kind);
      && n <= |group|
      && (forall k | |group| - n <= k < |group| :: group[k].kind == kind)
      && (n < |group| ==> group[|group| - n - 1].kind != kind)
  {
    if group != [] {
      KindRunIs(group[..|group| - 1], kind);
    }
  }

  /** `Shared` counts positions, so a file listed twice counts twice. */
  lemma {:induction false} SharedCounts(files: seq<string>, known: set<string>)
    ensures Shared(files, known) == |set i | 0 <= i < |files| && files[i] in known|
    ensures Shared(files, known) <= |files|
  {
    if files != [] {
      var n := |files| - 1;
      SharedCounts(files[..n], known);
      var earlier := set i | 0 <= i < |files[..n]| && files[..n][i] in known;
      var all := set i | 0 <= i < |files| && files[i] in known;
      assert all == if files[n] in known then earlier + {n} else earlier;
    }
  }

  /** A phase's commit is that of its first turn with one. */
  lemma {:induction false} FirstCommitIs(group: Group)
    ensures FirstCommit(group).None? ==> forall k | 0 <= k < |group| :: group[k].commit.None?
    ensures FirstCommit(group).Some? ==> exists k ::
      0 <= k < |group| && group[k].commit == FirstCommit(group) && forall j | 0 <= j < k :: group[j].commit.None?
  {
    if group != [] && group[0].commit.None? {
      FirstCommitIs(group[1..]);
      if FirstCommit(group).Some? {
        var k :| 0 <= k < |group[1..]| && group[1..][k].commit == FirstCommit(group)
          && forall j | 0 <= j < k :: group[1..][j].commit.None?;
        assert group[k + 1] == group[1..][k];
        assert forall j | 0 <= j < k + 1 :: j > 0 ==> group[j] == group[1..][j - 1];
      }
    }
  }

  // ------------------------------------------------------------- partitions

  function Flatten(groups: seq<Group>): Group {
    if groups == [] then [] else groups[0] + Flatten(groups[1..])
  }

  /** A partition into non-empty groups in which every turn joins the part of
      its group before it, and no group's first turn joins the whole group
      before. */
  ghost predicate Greedy(groups: seq<Group>) {
    && (forall g | 0 <= g < |groups| :: groups[g] != [] && forall k | 1 <= k < |groups[g]| :: Joins(groups[g][..k], groups[g][k]))
    && (forall g | 1 <= g < |groups| :: !Joins(groups[g - 1], groups[g][0]))
  }

  function PairSize(groups: seq<Group>, i: nat): nat
    requires i + 1 < |groups|
  {
    |groups[i]| + |groups[i + 1]|
  }

  ghost predicate FirstSmallest(groups: seq<Group>, i: nat) {
    && i + 1 < |groups|
    && (forall j | 0 <= j < |groups| - 1 :: PairSize(groups, i) <= PairSize(groups, j))
    && (forall j | 0 <= j < i :: PairSize(groups, i) < PairSize(groups, j))
  }

  function MergeAt(groups: seq<Group>, i: nat): (r: seq<Group>)
    requires i + 1 < |groups|
    ensures |r| == |groups| - 1
  {
    groups[..i] + [groups[i] + groups[i + 1]] + groups[i + 2..]
  }

  /** `to` comes from `from` by merging first-smallest neighbours until at most
      eight groups are left. */
  ghost predicate Settles(from: seq<Group>, to: seq<Group>)
    decreases |from|
  {
    if |from| <= MAX_PHASES then to == from
    else exists i :: FirstSmallest(from, i) && Settles(MergeAt(from, i), to)
  }

  function PhaseOf(index: nat, group: Group): Phase
    requires group != []
  {
    Phase(index, group[0].title, group[0].turn, group[|group| - 1].turn, FirstCommit(group), FilesOf(group), group)
  }

  function FirstCommit(group: Group): Option<string> {
    if group == [] then None
    else if group[0].commit.Some? then group[0].commit
    else FirstCommit(group[1..])
  }

  ghost predicate PhasesOf(groups: seq<Group>, phases: seq<Phase>) {
    && |phases| == |groups|
    && forall i | 0 <= i < |groups| :: groups[i] != [] && phases[i] == PhaseOf(i + 1, groups[i])
  }

  /** `smallest_neighbor_index`. */
  method SmallestNeighbor(groups: seq<Group>) returns (index: nat)
    requires |groups| >= 2
    ensures FirstSmallest(groups, index) && index + 1 < |groups|
    ensures forall j | 0 <= j < |groups| - 1 :: |groups[index]| + |groups[index + 1]| <= |groups[j]| + |groups[j + 1]|
    ensures forall j | 0 <= j < index :: |groups[index]| + |groups[index + 1]| < |groups[j]| + |groups[j + 1]|
  {
    index := 0;
    for i := 1 to |groups| - 1
      invariant 0 <= index < i
      invariant forall j | 0 <= j < i :: PairSize(groups, index) <= PairSize(groups, j)
      invariant forall j | 0 <= j < index :: PairSize(groups, index) < PairSize(groups, j)
    {
      if PairSize(groups, i) < PairSize(groups, index) {
        index := i;
      }
    }
    assert forall j | 0 <= j < |groups| - 1 :: |groups[j]| + |groups[j + 1]| == PairSize(groups, j);
  }

  /** The first loop of `coalesce_into_phases`: the greedy partition. */
  method FirstPass(records: seq<Turn>) returns (groups: seq<Group>)
    requires records != []
    ensures groups != [] && Greedy(groups) && Flatten(groups) == records
  {
    hide Greedy, Joins, Flatten;
    groups := [];
    var current := [records[0]];
    GreedyStart(records[0]);
    assert groups + [current] == [[records[0]]] && records[..1] == current;
    for i := 1 to |records|
      invariant current != [] && Greedy(groups + [current]) && Flatten(groups) + current == records[..i]
    {
      var turn := records[i];
      assert records[..i + 1] == Flatten(groups) + current + [turn];
      if Joins(current, turn) {
        GreedyExtend(groups, current, turn);
        current := current + [turn];
      } else {
        FlattenSnoc(groups, current);
        GreedyCut(groups, current, turn);
        groups := groups + [current];
        current := [turn];
      }
    }
    FlattenSnoc(groups, current);
    groups := groups + [current];
    assert records[..|records|] == records;
  }

  /** Its second loop: merging first-smallest neighbours in place. */
  method Settle(first: seq<Group>) returns (groups: seq<Group>)
    ensures Settles(first, groups)
  {
    groups := first;
    while |groups| > MAX_PHASES
      invariant forall to | Settles(groups, to) :: Settles(first, to)
      decreases |groups|
    {
      var index := SmallestNeighbor(groups);
      ghost var merged := MergeAt(groups, index);
      assert forall to | Settles(merged, to) :: Settles(groups, to);
      var next := groups[index + 1];
      groups := groups[..index + 1] + groups[index + 2..];
      groups := groups[index := groups[index] + next];
      assert groups == merged;
    }
  }

  /** `coalesce_into_phases`. The first pass yields the one greedy partition of
      the records; the second settles it. */
  method Coalesce(records: seq<Turn>) returns (phases: seq<Phase>, ghost first: seq<Group>, ghost last: seq<Group>)
    ensures records == [] ==> phases == []
    ensures Greedy(first) && Flatten(first) == records
    ensures Settles(first, last) && PhasesOf(last, phases)
    ensures Flatten(Turns(phases)) == records
    ensures records != [] ==> 1 <= |phases| <= 8
    ensures forall i | 0 <= i < |phases| :: Describes(phases[i], i + 1, last[i])
    ensures Increasing(records) ==> forall i, j | 0 <= i < j < |phases| :: phases[i].endTurn < phases[j].startTurn
  {
    if records == [] {
      return [], [], [];
    }
    var groups := FirstPass(records);
    first := groups;
    GreedyNonEmpty(first);
    groups := Settle(groups);
    last := groups;
    SettlesFacts(first, last);
    phases := [];
    for i := 0 to |groups|
      invariant |phases| == i && forall j | 0 <= j < i :: phases[j] == PhaseOf(j + 1, groups[j])
    {
      phases := phases + [PhaseOf(i + 1, groups[i])];
    }
    assert Turns(phases) == last;
    forall i | 0 <= i < |phases|
      ensures Describes(phases[i], i + 1, last[i])
    {
      PhaseDescribes(i + 1, last[i]);
    }
    if Increasing(records) {
      RangesAreDisjoint(last, phases);
    }
  }

  /** What a phase says of the turns it groups. */
  ghost predicate Describes(phase: Phase, index: nat, group: Group) {
    && |group| > 0 && phase.turns == group && phase.index == index
    && phase.title == group[0].title && phase.startTurn == group[0].turn && phase.endTurn == group[|group| - 1].turn
    && (forall f :: f in phase.files <==> exists k :: 0 <= k < |group| && f in group[k].files)
    && (phase.commit.None? ==> forall k | 0 <= k < |group| :: group[k].commit.None?)
    && (phase.commit.Some? ==>
          exists k :: 0 <= k < |group| && group[k].commit == phase.commit && forall j | 0 <= j < k :: group[j].commit.None?)
  }

  lemma PhaseDescribes(index: nat, group: Group)
    requires group != []
    ensures Describes(PhaseOf(index, group), index, group)
  {
    FirstCommitIs(group);
    hide FirstCommit;
    forall f
      ensures f in FilesOf(group) <==> exists k :: 0 <= k < |group| && f in group[k].files
    {
      if k :| 0 <= k < |group| && f in group[k].files {
        assert group[k] in group;
      }
    }
  }

  function Turns(phases: seq<Phase>): seq<Group> {
    seq(|phases|, i requires 0 <= i < |phases| => phases[i].turns)
  }

  // ------------------------------------------------------------ step lemmas

  lemma {:induction false} FlattenSnoc(groups: seq<Group>, group: Group)
    ensures Flatten(groups + [group]) == Flatten(groups) + group
  {
    if groups != [] {
      FlattenSnoc(groups[1..], group);
      assert (groups + [group])[1..] == groups[1..] + [group];
    }
  }

  lemma GreedyNonEmpty(groups: seq<Group>)
    requires Greedy(groups)
    ensures forall g | 0 <= g < |groups| :: groups[g] != []
  {
  }

  lemma GreedyStart(turn: Turn)
    ensures Greedy([[turn]]) && Flatten([]) == []
  {
  }

  lemma GreedyExtend(groups: seq<Group>, current: Group, turn: Turn)
    requires current != [] && Greedy(groups + [current]) && Joins(current, turn)
    ensures Greedy(groups + [current + [turn]])
  {
    var before, after := groups + [current], groups + [current + [turn]];
    forall g | 0 <= g < |after|
      ensures after[g] != [] && forall k | 1 <= k < |after[g]| :: Joins(after[g][..k], after[g][k])
    {
      if g < |groups| {
        assert after[g] == before[g];
      } else {
        forall k | 1 <= k < |current| + 1
          ensures Joins((current + [turn])[..k], (current + [turn])[k])
        {
          if k < |current| {
            assert (current + [turn])[..k] == before[g][..k];
            assert Joins(before[g][..k], before[g][k]);
          } else {
            assert (current + [turn])[..k] == current;
          }
        }
      }
    }
    forall g | 1 <= g < |after|
      ensures !Joins(after[g - 1], after[g][0])
    {
      assert after[g - 1] == before[g - 1] && after[g][0] == before[g][0];
    }
  }

  lemma GreedyCut(groups: seq<Group>, current: Group, turn: Turn)
    requires current != [] && Greedy(groups + [current]) && !Joins(current, turn)
    ensures Greedy(groups + [current] + [[turn]])
  {
    var before, after := groups + [current], groups + [current] + [[turn]];
    assert forall g | 0 <= g < |before| :: after[g] == before[g];
  }

  // --------------------------------------------------------------- theorems

  /** A sequence of records has only one greedy partition. */
  lemma {:induction false} GreedyUnique(one: seq<Group>, two: seq<Group>)
    requires Greedy(one) && Greedy(two) && Flatten(one) == Flatten(two)
    ensures one == two
    decreases |one|
  {
    if one != [] {
      FirstGroup(one);
    }
    if two != [] {
      FirstGroup(two);
    }
    if one != [] && two != [] {
      var flat := Flatten(one);
      var n, m := |one[0]|, |two[0]|;
      assert n == m;
      assert Flatten(one[1..]) == flat[n..] == Flatten(two[1..]);
      GreedyTail(one);
      GreedyTail(two);
      GreedyUnique(one[1..], two[1..]);
      assert one == [one[0]] + one[1..];
      assert two == [two[0]] + two[1..];
    }
  }

  lemma GreedyTail(groups: seq<Group>)
    requires Greedy(groups) && groups != []
    ensures Greedy(groups[1..])
  {
    var tail := groups[1..];
    assert forall g | 0 <= g < |tail| :: tail[g] == groups[g + 1];
    forall g | 1 <= g < |tail|
      ensures !Joins(tail[g - 1], tail[g][0])
    {
      assert tail[g - 1] == groups[g] && tail[g] == groups[g + 1];
      assert !Joins(groups[g + 1 - 1], groups[g + 1][0]);
    }
  }

  /** The first group is the shortest prefix that the next turn does not join. */
  lemma FirstGroup(groups: seq<Group>)
    requires Greedy(groups) && groups != []
    ensures var flat, n := Flatten(groups), |groups[0]|;
      && 1 <= n <= |flat| && groups[0] == flat[..n]
      && (forall k | 1 <= k < n :: Joins(flat[..k], flat[k]))
      && (n < |flat| ==> !Joins(flat[..n], flat[n]))
  {
    hide Joins;
    var flat, n := Flatten(groups), |groups[0]|;
    forall k | 1 <= k < n
      ensures Joins(flat[..k], flat[k])
    {
      assert flat[..k] == groups[0][..k];
    }
    if |groups| == 1 {
      assert Flatten(groups[1..]) == [];
    } else {
      assert groups[1] == groups[1..][0];
      assert Flatten(groups[1..]) == groups[1] + Flatten(groups[1..][1..]);
      assert groups[1] != [] && flat[n] == groups[1][0];
      assert !Joins(groups[1 - 1], groups[1][0]);
    }
  }

  lemma {:induction false} FlattenJoin(p: seq<Group>, q: seq<Group>)
    ensures Flatten(p + q) == Flatten(p) + Flatten(q)
  {
    if p == [] {
      assert p + q == q;
    } else {
      FlattenJoin(p[1..], q);
      assert (p + q)[1..] == p[1..] + q;
    }
  }

  lemma MergeKeeps(groups: seq<Group>, i: nat)
    requires i + 1 < |groups|
    ensures Flatten(MergeAt(groups, i)) == Flatten(groups)
  {
    hide Flatten;
    FlattenAround(groups[..i], [groups[i], groups[i + 1]], groups[i + 2..]);
    FlattenAround(groups[..i], [groups[i] + groups[i + 1]], groups[i + 2..]);
    FlattenPair(groups[i], groups[i + 1]);
    AroundPair(groups, i);
  }

  lemma MergeNonEmpty(groups: seq<Group>, i: nat)
    requires i + 1 < |groups| && forall g | 0 <= g < |groups| :: groups[g] != []
    ensures forall g | 0 <= g < |groups| - 1 :: MergeAt(groups, i)[g] != []
  {
  }

  lemma AroundPair(groups: seq<Group>, i: nat)
    requires i + 1 < |groups|
    ensures groups == groups[..i] + [groups[i], groups[i + 1]] + groups[i + 2..]
  {
  }

  lemma FlattenAround(left: seq<Group>, middle: seq<Group>, right: seq<Group>)
    ensures Flatten(left + middle + right) == Flatten(left) + Flatten(middle) + Flatten(right)
  {
    hide Flatten;
    FlattenJoin(left + middle, right);
    FlattenJoin(left, middle);
  }

  lemma FlattenPair(one: Group, two: Group)
    ensures Flatten([one, two]) == Flatten([one + two])
  {
    assert [one, two][1..] == [two] && [two][1..] == [];
  }

  /** The positions at which groups begin. */
  ghost predicate Begins(groups: seq<Group>, at: nat) {
    exists g :: BeginsAt(groups, g, at)
  }

  ghost predicate BeginsAt(groups: seq<Group>, g: int, at: nat) {
    0 <= g < |groups| && |Flatten(groups[..g])| == at
  }

  lemma MergeBegins(groups: seq<Group>, i: nat, at: nat)
    requires i + 1 < |groups| && Begins(MergeAt(groups, i), at)
    ensures Begins(groups, at)
  {
    var merged := MergeAt(groups, i);
    var g :| BeginsAt(merged, g, at);
    if g <= i {
      assert merged[..g] == groups[..g];
      assert BeginsAt(groups, g, at);
    } else {
      var upper := groups[..g + 1];
      assert merged[..g] == MergeAt(upper, i);
      MergeKeeps(upper, i);
      assert BeginsAt(groups, g + 1, at);
    }
  }

  /** Settling keeps the records in order, leaves the smaller of eight and the
      number of groups, none empty, and never cuts where the first pass did not. */
  lemma {:induction false} SettlesFacts(from: seq<Group>, to: seq<Group>)
    requires Settles(from, to) && forall g | 0 <= g < |from| :: from[g] != []
    ensures Flatten(to) == Flatten(from)
    ensures |to| == if |from| <= MAX_PHASES then |from| else MAX_PHASES
    ensures forall g | 0 <= g < |to| :: to[g] != []
    ensures forall at | Begins(to, at) :: Begins(from, at)
    decreases |from|
  {
    if |from| > MAX_PHASES {
      var i :| FirstSmallest(from, i) && Settles(MergeAt(from, i), to);
      hide Flatten, Begins, MergeAt, FirstSmallest;
      MergeKeeps(from, i);
      MergeNonEmpty(from, i);
      SettlesFacts(MergeAt(from, i), to);
      forall at | Begins(to, at)
        ensures Begins(from, at)
      {
        MergeBegins(from, i, at);
      }
    }
  }

  /** Settling is a function: the first smallest pair is unique. */
  lemma {:induction false} SettlesUnique(from: seq<Group>, one: seq<Group>, two: seq<Group>)
    requires Settles(from, one) && Settles(from, two)
    ensures one == two
    decreases |from|
  {
    if |from| > MAX_PHASES {
      var i :| FirstSmallest(from, i) && Settles(MergeAt(from, i), one);
      var j :| FirstSmallest(from, j) && Settles(MergeAt(from, j), two);
      assert i == j;
      SettlesUnique(MergeAt(from, i), one, two);
    }
  }

  ghost predicate Increasing(records: seq<Turn>) {
    forall i, j | 0 <= i < j < |records| :: records[i].turn < records[j].turn
  }

  lemma {:induction false} FlattenAt(groups: seq<Group>, g: nat, k: nat)
    requires g < |groups| && k < |groups[g]|
    ensures |Flatten(groups[..g])| + |groups[g]| <= |Flatten(groups)|
    ensures Flatten(groups)[|Flatten(groups[..g])| + k] == groups[g][k]
  {
    assert groups == groups[..g] + ([groups[g]] + groups[g + 1..]);
    FlattenJoin(groups[..g], [groups[g]] + groups[g + 1..]);
    FlattenJoin([groups[g]], groups[g + 1..]);
    assert Flatten([groups[g]]) == groups[g] + Flatten([]);
  }

  lemma FlattenOrder(groups: seq<Group>, g: nat, h: nat)
    requires g < h <= |groups|
    ensures |Flatten(groups[..g])| + |groups[g]| <= |Flatten(groups[..h])|
  {
    if groups[g] == [] {
      FlattenJoin(groups[..g], groups[g..h]);
      assert groups[..h] == groups[..g] + groups[g..h];
    } else {
      FlattenAt(groups[..h], g, 0);
      assert groups[..h][..g] == groups[..g];
    }
  }

  /** With increasing turn numbers the phases of any partition have ordered,
      disjoint ranges that hold exactly their own turns. */
  lemma RangesAreDisjoint(groups: seq<Group>, phases: seq<Phase>)
    requires PhasesOf(groups, phases) && Increasing(Flatten(groups))
    ensures forall i | 0 <= i < |phases| :: phases[i].startTurn <= phases[i].endTurn
    ensures forall i, j | 0 <= i < j < |phases| :: phases[i].endTurn < phases[j].startTurn
    ensures forall i, k | 0 <= i < |phases| && 0 <= k < |phases[i].turns| ::
      phases[i].startTurn <= phases[i].turns[k].turn <= phases[i].endTurn
  {
    hide Flatten, Increasing;
    forall i, k, l | 0 <= i < |groups| && 0 <= k < l < |groups[i]|
      ensures groups[i][k].turn < groups[i][l].turn
    {
      WithinGroup(groups, i, k, l);
    }
    forall i, j | 0 <= i < j < |groups|
      ensures groups[i][|groups[i]| - 1].turn < groups[j][0].turn
    {
      AcrossGroups(groups, i, j);
    }
  }

  lemma WithinGroup(groups: seq<Group>, i: nat, k: nat, l: nat)
    requires i < |groups| && k < l < |groups[i]| && Increasing(Flatten(groups))
    ensures groups[i][k].turn < groups[i][l].turn
  {
    hide Flatten;
    FlattenAt(groups, i, k);
    FlattenAt(groups, i, l);
  }

  lemma AcrossGroups(groups: seq<Group>, i: nat, j: nat)
    requires i < j < |groups| && groups[i] != [] && groups[j] != [] && Increasing(Flatten(groups))
    ensures groups[i][|groups[i]| - 1].turn < groups[j][0].turn
  {
    hide Flatten;
    FlattenAt(groups, i, |groups[i]| - 1);
    FlattenAt(groups, j, 0);
    FlattenOrder(groups, i, j);
  }
}

/** Copying a tree with directory pruning (`copy_tree_with_filter` in
    `artifacts.rs`). Trees are relative to their own root `[]`. */
module PrunedCopy {
  import opened Files
  import PathPolicy

  datatype Outcome = Copied | DestinationNotDirectory | SourceNotDirectory | UnsupportedEntry

  // --------------------------------------------------- what a copy amounts to

  ghost predicate KeptAllTheWay(keep: Path -> bool, p: Path) {
    forall above: Path | above <= p && above != [] :: keep(above)
  }

  /** What the pruned walk visits: a rejected directory hides its contents. */
  ghost function Pruned(tree: Tree, keep: Path -> bool): Tree {
    map p | p in tree && p != [] && KeptAllTheWay(keep, p) :: tree[p]
  }

  /** The inventory filtered path by path. */
  ghost function Filtered(tree: Tree, keep: Path -> bool): Tree {
    map p | p in tree && p != [] && keep(p) :: tree[p]
  }

  /** `copied` laid over `below`: a copied node replaces what was there, and a
      copied file or link also removes a whole hierarchy of that name. */
  ghost function Overlay(below: Tree, copied: Tree): Tree {
    map p | p in copied.Keys + below.Keys && (p in copied || Uncovered(p, copied)) :: if p in copied then copied[p] else below[p]
  }

  ghost predicate Uncovered(p: Path, copied: Tree) {
    forall above | above in copied && above <= p :: copied[above] == Directory
  }

  /** A tree, a lone root that is not a directory, or nothing at all. */
  ghost predicate Hierarchy(tree: Tree) {
    WellFormed(tree) || tree.Keys == {[]} || tree == map[]
  }

  // --------------------------------------------------------------- the walk

  /** `copy_tree_with_filter`. */
  method CopyTree(from: Tree, to: Tree, keep: Path -> bool) returns (outcome: Outcome, dest: Tree)
    requires Hierarchy(from) && Hierarchy(to)
    ensures outcome == DestinationNotDirectory <==> [] in to && to[[]] != Directory
    ensures outcome == DestinationNotDirectory ==> dest == to
    ensures outcome == SourceNotDirectory <==> !([] in to && to[[]] != Directory) && [] in from && from[[]] != Directory
    ensures outcome == SourceNotDirectory ==> dest == to[[] := Directory]
    ensures outcome == UnsupportedEntry <==> !([] in to && to[[]] != Directory) && HasSpecial(Pruned(from, keep))
    ensures outcome == Copied ==> dest == Overlay(to[[] := Directory], Pruned(from, keep))
    ensures outcome == UnsupportedEntry ==> exists done: Tree :: PartOf(done, from, keep) && dest == Overlay(to[[] := Directory], done)
  {
    dest := to;
    if [] in to && to[[]] != Directory {
      outcome := DestinationNotDirectory;
      return;
    }
    dest := dest[[] := Directory];
    if [] !in from {
      outcome := Copied;
      assert from == map[] && Pruned(from, keep) == map[];
      assert Overlay(dest, map[]) == dest;
    } else if from[[]] != Directory {
      outcome := SourceNotDirectory;
    } else {
      outcome, dest := CopyEntries(from, dest, keep);
    }
  }

  ghost predicate HasSpecial(tree: Tree) {
    exists p :: p in tree && tree[p] == Special
  }

  /** Some of what is to be copied, every directory before its entries, and no
      special file. */
  ghost predicate PartOf(done: Tree, from: Tree, keep: Path -> bool) {
    forall p | p in done :: p in Pruned(from, keep) && done[p] == from[p] && done[p] != Special && Reached(done, p)
  }

  /** Entries found but not yet visited lead to everything still to be copied. */
  ghost predicate Covers(from: Tree, keep: Path -> bool, frontier: set<Path>, done: Tree) {
    forall p | p in Pruned(from, keep) :: p in done || exists q | q in frontier :: q <= p
  }

  ghost predicate Progress(from: Tree, keep: Path -> bool, frontier: set<Path>, done: Tree) {
    && (forall p | p in done :: p in Pruned(from, keep) && done[p] == from[p])
    && (forall p | p in frontier :: p in from && p != [] && p !in done && Reached(done, p))
    && (forall p | p in done :: Reached(done, p))
    && Covers(from, keep, frontier, done)
  }

  ghost predicate Reached(done: Tree, p: Path) {
    Parent(p) == [] || IsDirectory(done, Parent(p))
  }

  function Children(tree: Tree, at: Path): set<Path> {
    set p | p in tree && p != [] && Parent(p) == at
  }

  /** The walk, for every order in which it may present siblings: a directory's
      entries come after the directory, and a rejected entry is not entered. */
  method CopyEntries(from: Tree, to: Tree, keep: Path -> bool) returns (outcome: Outcome, dest: Tree)
    requires WellFormed(from) && WellFormed(to)
    ensures outcome == Copied || outcome == UnsupportedEntry
    ensures outcome == UnsupportedEntry <==> HasSpecial(Pruned(from, keep))
    ensures outcome == Copied ==> dest == Overlay(to, Pruned(from, keep))
    ensures outcome == UnsupportedEntry ==> exists done: Tree :: PartOf(done, from, keep) && dest == Overlay(to, done)
  {
    hide *;
    dest := to;
    var frontier := Children(from, []);
    ghost var done: Tree := map[];
    Begin(from, keep, to);
    while frontier != {}
      invariant Inv(from, to, keep, frontier, done, dest)
      decreases |from.Keys - done.Keys|, |frontier|
    {
      var entry :| entry in frontier;
      ghost var found, copied := frontier, done;
      frontier := frontier - {entry};
      if keep(entry) {
        Visit(from, to, keep, found, copied, dest, entry);
        if from[entry] == Special {
          SoFar(from, to, keep, found, copied, dest);
          outcome := UnsupportedEntry;
          return;
        }
        if from[entry] == Directory {
          dest := dest[entry := Directory];
          frontier := frontier + Children(from, entry);
        } else {
          dest := Without(dest, entry)[entry := from[entry]];
        }
        done := done[entry := from[entry]];
      } else {
        Skip(from, to, keep, found, copied, dest, entry);
      }
    }
    Finish(from, to, keep, done, dest);
    outcome := Copied;
  }

  ghost predicate Inv(from: Tree, to: Tree, keep: Path -> bool, frontier: set<Path>, done: Tree, dest: Tree) {
    && Progress(from, keep, frontier, done)
    && dest == Overlay(to, done)
    && forall p | p in done :: done[p] != Special
  }

  // ------------------------------------------------------------ step lemmas

  lemma Shrinks(from: Tree, done: Tree, entry: Path)
    requires entry in from && entry !in done
    ensures |from.Keys - done[entry := from[entry]].Keys| < |from.Keys - done.Keys|
  {
    assert from.Keys - done.Keys == (from.Keys - done[entry := from[entry]].Keys) + {entry};
  }

  lemma Begin(from: Tree, keep: Path -> bool, to: Tree)
    requires WellFormed(from)
    ensures Inv(from, to, keep, Children(from, []), map[], to)
  {
    hide WellFormed, Overlay, Covers, Pruned, Parent;
    OverlayNothing(to);
    BeginCovers(from, keep);
  }

  lemma BeginCovers(from: Tree, keep: Path -> bool)
    requires WellFormed(from)
    ensures Covers(from, keep, Children(from, []), map[])
  {
    hide WellFormed, KeptAllTheWay, Children;
    forall p | p in Pruned(from, keep)
      ensures exists q | q in Children(from, []) :: q <= p
    {
      FirstStep(from, [], p);
      assert p[..1] in Children(from, []) && p[..1] <= p;
    }
  }

  lemma OverlayNothing(to: Tree)
    ensures Overlay(to, map[]) == to
  {
  }

  /** Below a node, the next location on the way to `p` is one of its children. */
  lemma FirstStep(from: Tree, at: Path, p: Path)
    requires WellFormed(from) && p in from && at < p
    ensures IsDirectory(from, at) && p[..|at| + 1] in Children(from, at) && p[..|at| + 1] <= p
  {
    hide WellFormed;
    var next := p[..|at| + 1];
    assert p[..|at|] == at;
    PrefixesPresent(from, p, |at|);
    if |next| < |p| {
      PrefixesPresent(from, p, |next|);
    } else {
      assert next == p;
    }
    assert Parent(next) == at;
  }

  /** What was copied has nothing below a location that was not. */
  lemma {:induction false} NothingBelow(done: Tree, entry: Path, p: Path)
    requires forall q | q in done :: Reached(done, q)
    requires entry != [] && entry !in done && entry <= p
    ensures p !in done
    decreases |p|
  {
    if p in done && p != entry {
      assert entry <= Parent(p);
      assert Reached(done, p);
      NothingBelow(done, entry, Parent(p));
    }
  }

  lemma KeptStep(keep: Path -> bool, p: Path)
    requires p != [] && keep(p) && (Parent(p) == [] || KeptAllTheWay(keep, Parent(p)))
    ensures KeptAllTheWay(keep, p)
  {
    forall above: Path | above <= p && above != []
      ensures keep(above)
    {
      assert above == p || above <= Parent(p);
    }
  }

  /** Visiting an entry whose parent was copied. */
  lemma VisitKeeps(from: Tree, keep: Path -> bool, frontier: set<Path>, done: Tree, entry: Path)
    requires Progress(from, keep, frontier, done) && entry in frontier && keep(entry)
    ensures entry in from && entry !in done && entry != [] && entry in Pruned(from, keep) && Pruned(from, keep)[entry] == from[entry]
    ensures forall p | p in done :: !(entry <= p)
  {
    hide Parent, Covers;
    KeptStep(keep, entry);
    forall p | entry <= p
      ensures p !in done
    {
      NothingBelow(done, entry, p);
    }
  }

  lemma VisitProgress(from: Tree, keep: Path -> bool, frontier: set<Path>, done: Tree, entry: Path)
    requires WellFormed(from) && Progress(from, keep, frontier, done) && entry in frontier && keep(entry)
    ensures entry in from
    ensures var found := frontier - {entry} + if from[entry] == Directory then Children(from, entry) else {};
      Progress(from, keep, found, done[entry := from[entry]])
  {
    hide WellFormed, Parent, Covers, Pruned;
    VisitKeeps(from, keep, frontier, done, entry);
    VisitCovers(from, keep, frontier, done, entry);
    var added := done[entry := from[entry]];
    forall p | Reached(done, p)
      ensures Reached(added, p)
    {
    }
  }

  lemma Visit(from: Tree, to: Tree, keep: Path -> bool, frontier: set<Path>, done: Tree, dest: Tree, entry: Path)
    requires WellFormed(from) && Inv(from, to, keep, frontier, done, dest) && entry in frontier && keep(entry)
    ensures entry in from
    ensures from[entry] == Special ==> HasSpecial(Pruned(from, keep))
    ensures from[entry] == Directory ==>
      Inv(from, to, keep, frontier - {entry} + Children(from, entry), done[entry := Directory], dest[entry := Directory])
    ensures from[entry] != Directory && from[entry] != Special ==>
      Inv(from, to, keep, frontier - {entry}, done[entry := from[entry]], Without(dest, entry)[entry := from[entry]])
    ensures |from.Keys - done[entry := from[entry]].Keys| < |from.Keys - done.Keys|
  {
    hide WellFormed, Overlay, Progress, Pruned, Children, Without;
    VisitKeeps(from, keep, frontier, done, entry);
    VisitProgress(from, keep, frontier, done, entry);
    Shrinks(from, done, entry);
    var found := frontier - {entry};
    if from[entry] == Directory {
      OverlayDirectory(to, done, entry);
      AddedInv(from, to, keep, found + Children(from, entry), done, entry, Overlay(to, done)[entry := Directory]);
    } else if from[entry] != Special {
      OverlayLeaf(to, done, entry, from[entry]);
      assert found + {} == found;
      AddedInv(from, to, keep, found, done, entry, Without(Overlay(to, done), entry)[entry := from[entry]]);
    }
  }

  lemma AddedInv(from: Tree, to: Tree, keep: Path -> bool, found: set<Path>, done: Tree, entry: Path, dest: Tree)
    requires entry in from && from[entry] != Special && forall p | p in done :: done[p] != Special
    requires Progress(from, keep, found, done[entry := from[entry]]) && dest == Overlay(to, done[entry := from[entry]])
    ensures Inv(from, to, keep, found, done[entry := from[entry]], dest)
  {
    hide Overlay, Progress;
  }

  lemma SoFar(from: Tree, to: Tree, keep: Path -> bool, frontier: set<Path>, done: Tree, dest: Tree)
    requires Inv(from, to, keep, frontier, done, dest)
    ensures PartOf(done, from, keep) && dest == Overlay(to, done)
  {
    hide Overlay, Covers, Reached, Pruned;
  }

  lemma VisitCovers(from: Tree, keep: Path -> bool, frontier: set<Path>, done: Tree, entry: Path)
    requires WellFormed(from) && Covers(from, keep, frontier, done) && entry in frontier && entry in from
    ensures var found := frontier - {entry} + if from[entry] == Directory then Children(from, entry) else {};
      Covers(from, keep, found, done[entry := from[entry]])
  {
    hide WellFormed, Children;
    var found := frontier - {entry} + if from[entry] == Directory then Children(from, entry) else {};
    forall p | p in Pruned(from, keep) && p !in done && p != entry
      ensures exists q | q in found :: q <= p
    {
      var q :| q in frontier && q <= p;
      if q == entry {
        FirstStep(from, entry, p);
        assert p[..|entry| + 1] in found;
      } else {
        assert q in found;
      }
    }
  }

  lemma Skip(from: Tree, to: Tree, keep: Path -> bool, frontier: set<Path>, done: Tree, dest: Tree, entry: Path)
    requires Inv(from, to, keep, frontier, done, dest) && entry in frontier && !keep(entry)
    ensures Inv(from, to, keep, frontier - {entry}, done, dest) && |frontier - {entry}| < |frontier|
  {
    hide Overlay, Reached, Covers, Pruned;
    SkipCovers(from, keep, frontier, done, entry);
  }

  lemma SkipCovers(from: Tree, keep: Path -> bool, frontier: set<Path>, done: Tree, entry: Path)
    requires Covers(from, keep, frontier, done) && !keep(entry) && entry != []
    ensures Covers(from, keep, frontier - {entry}, done)
  {
    forall p | p in Pruned(from, keep) && p !in done
      ensures exists q | q in frontier - {entry} :: q <= p
    {
      var q :| q in frontier && q <= p;
      assert q in frontier - {entry};
    }
  }

  lemma Finish(from: Tree, to: Tree, keep: Path -> bool, done: Tree, dest: Tree)
    requires Inv(from, to, keep, {}, done, dest)
    ensures dest == Overlay(to, Pruned(from, keep)) && !HasSpecial(Pruned(from, keep))
  {
    hide Overlay;
    assert done == Pruned(from, keep);
  }

  lemma UncoveredAdded(p: Path, done: Tree, entry: Path, node: Node)
    requires entry !in done
    ensures Uncovered(p, done[entry := node]) <==> Uncovered(p, done) && (entry <= p ==> node == Directory)
  {
    var added := done[entry := node];
    forall above | above in done && above <= p && Uncovered(p, added)
      ensures done[above] == Directory
    {
      assert above in added && added[above] == done[above];
    }
    forall above | above in added && above <= p && Uncovered(p, done) && (entry <= p ==> node == Directory)
      ensures added[above] == Directory
    {
      assert above == entry || above in done;
    }
    assert entry in added && added[entry] == node;
  }

  lemma OverlayDirectory(below: Tree, done: Tree, entry: Path)
    requires entry !in done
    ensures Overlay(below, done)[entry := Directory] == Overlay(below, done[entry := Directory])
  {
    hide Uncovered;
    forall p: Path
      ensures Uncovered(p, done) <==> Uncovered(p, done[entry := Directory])
    {
      UncoveredAdded(p, done, entry, Directory);
    }
  }

  lemma OverlayLeaf(below: Tree, done: Tree, entry: Path, node: Node)
    requires node != Directory && entry !in done && forall p | p in done :: !(entry <= p)
    ensures Without(Overlay(below, done), entry)[entry := node] == Overlay(below, done[entry := node])
  {
    hide Uncovered;
    var added := done[entry := node];
    var cleared, laid := Without(Overlay(below, done), entry), Overlay(below, added);
    forall p: Path | p != entry
      ensures p in cleared <==> p in laid
      ensures p in cleared ==> cleared[p] == laid[p]
    {
      UncoveredAdded(p, done, entry, node);
      assert p in laid <==> p in done || (p in below && Uncovered(p, added));
      assert p in cleared <==> (p in done || (p in below && Uncovered(p, done))) && !(entry <= p);
    }
    assert entry in laid && laid[entry] == node;
  }

  // --------------------------------------------------------------- theorems

  /** Pruning is filtering path by path exactly when every kept path has only
      kept directories above it. */
  lemma PrunedIffFiltered(tree: Tree, keep: Path -> bool)
    ensures Pruned(tree, keep) == Filtered(tree, keep)
      <==> forall p | p in tree && p != [] && keep(p) :: KeptAllTheWay(keep, p)
  {
    forall p: Path | p != [] && KeptAllTheWay(keep, p)
      ensures keep(p)
    {
      assert p <= p;
    }
    if Pruned(tree, keep) == Filtered(tree, keep) {
      forall p | p in tree && p != [] && keep(p)
        ensures KeptAllTheWay(keep, p)
      {
        assert p in Filtered(tree, keep);
      }
    }
  }

  /** The four workspace policies are such filters, on every tree. */
  lemma PolicyCopiesFilter(tree: Tree)
    ensures var keep := (p: Path) => PathPolicy.IsDeliverable(PathPolicy.Plain(p)); Pruned(tree, keep) == Filtered(tree, keep)
    ensures var keep := (p: Path) => PathPolicy.IsPromotable(PathPolicy.Plain(p)); Pruned(tree, keep) == Filtered(tree, keep)
    ensures var keep := (p: Path) => PathPolicy.IsRecoverable(PathPolicy.Plain(p)); Pruned(tree, keep) == Filtered(tree, keep)
    ensures var keep := (p: Path) => PathPolicy.IsCheckpointable(PathPolicy.Plain(p)); Pruned(tree, keep) == Filtered(tree, keep)
  {
    hide PathPolicy.IsDeliverable, PathPolicy.IsPromotable, PathPolicy.IsRecoverable, PathPolicy.IsCheckpointable;
    hide Pruned, Filtered;
    forall p: Path, q: Path | q <= p
      ensures PathPolicy.IsDeliverable(PathPolicy.Plain(p)) ==> PathPolicy.IsDeliverable(PathPolicy.Plain(q))
      ensures PathPolicy.IsPromotable(PathPolicy.Plain(p)) ==> PathPolicy.IsPromotable(PathPolicy.Plain(q))
      ensures PathPolicy.IsRecoverable(PathPolicy.Plain(p)) ==> PathPolicy.IsRecoverable(PathPolicy.Plain(q))
      ensures PathPolicy.IsCheckpointable(PathPolicy.Plain(p)) ==> PathPolicy.IsCheckpointable(PathPolicy.Plain(q))
    {
      assert PathPolicy.Plain(p) == PathPolicy.Plain(q) + PathPolicy.Plain(p[|q|..]);
      PathPolicy.AncestorsAccepted(PathPolicy.Plain(q), PathPolicy.Plain(p[|q|..]));
    }
    PrunedIffFiltered(tree, (p: Path) => PathPolicy.IsDeliverable(PathPolicy.Plain(p)));
    PrunedIffFiltered(tree, (p: Path) => PathPolicy.IsPromotable(PathPolicy.Plain(p)));
    PrunedIffFiltered(tree, (p: Path) => PathPolicy.IsRecoverable(PathPolicy.Plain(p)));
    PrunedIffFiltered(tree, (p: Path) => PathPolicy.IsCheckpointable(PathPolicy.Plain(p)));
  }

  /** Into an empty destination a copy is its inventory and nothing else. */
  lemma CopyIntoEmpty(from: Tree, keep: Path -> bool)
    ensures Overlay(map[[] := Directory], Pruned(from, keep)) == Pruned(from, keep)[[] := Directory]
  {
    hide KeptAllTheWay;
  }

  /** A copy laid over any tree leaves a tree. */
  lemma CopyLeavesTree(below: Tree, from: Tree, keep: Path -> bool)
    requires WellFormed(below) && WellFormed(from)
    ensures WellFormed(Overlay(below, Pruned(from, keep)))
  {
    hide Parent;
    var copied := Pruned(from, keep);
    var laid := Overlay(below, copied);
    forall p: Path | p in laid && p != []
      ensures IsDirectory(laid, Parent(p))
    {
      if p !in copied {
        UncoveredParent(p, copied);
      } else {
        assert Parent(p) in copied || Parent(p) == [];
      }
    }
  }

  lemma UncoveredParent(p: Path, copied: Tree)
    requires Uncovered(p, copied)
    ensures Uncovered(Parent(p), copied)
    ensures Parent(p) in copied ==> copied[Parent(p)] == Directory
  {
  }
}

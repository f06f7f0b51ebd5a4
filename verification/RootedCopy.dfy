/** Copying one artifact beneath a trusted root (`copy_artifact_path_beneath` in
    `artifacts.rs`): ancestors are created one component at a time and never
    followed through a link, and then the leaf is copied. */
module RootedCopy {
  import opened Common
  import opened Files
  import opened LeafCopy

  // ------------------------------------------------- what a copy amounts to

  /** The result of a copy, in closed form: no loop, and no re-reading of the
      tree between its steps. */
  ghost function Copy(tree: Tree, links: nat, source: seq<string>, target: seq<string>, root: seq<string>): (Outcome, Tree) {
    var from := Resolve(tree, root, links);
    if !from.Found? || from.at !in tree then (Refused(RootUnreadable), tree)
    else if tree[from.at] != Directory then (Refused(RootNotDirectory), tree)
    else if !(root <= target) then (Refused(OutsideRoot), tree)
    else if target == root then (Refused(NotALeaf), tree)
    else CopyAt(tree, links, source, root, from.at, target[|root|..])
  }

  ghost function CopyAt(tree: Tree, links: nat, source: seq<string>, root: seq<string>, base: Path, relative: Path): (Outcome, Tree) {
    var leaf := base + relative;
    if exists i | 0 <= i < |relative| :: !Normal(relative[i]) then (Refused(UnsafeComponent), tree)
    else if Obstructed(tree, base, relative) then (Refused(AncestorNotDirectory), tree)
    else if IsDirectory(tree, leaf) && !Empty(tree, leaf) then (Refused(TargetNotEmpty), tree)
    else Place(Grown(tree, base, relative), links, source, root, leaf)
  }

  /** Puts the source node at `leaf`. The leaf is cleared first, so a source or
      a root whose own path goes through the leaf is lost with it. */
  ghost function Place(tree: Tree, links: nat, source: seq<string>, root: seq<string>, leaf: Path): (Outcome, Tree) {
    match Lstat(tree, source, links)
    case Present(node) =>
      if !Copyable(node) then (Refused(SourceUnsupported), tree)
      else if leaf in Resolve(tree, source, links).via + Goes(tree, root, links) then (Refused(Lost), tree - {leaf})
      else (Copied, tree[leaf := node])
    case _ => (Refused(SourceUnreadable), tree)
  }

  // --------------------------------------------------- the code, step by step

  /** The loop of `copy_artifact_path_beneath`: it refuses a component that
      is not a directory, with nothing created, and otherwise creates exactly
      what `Grown` adds. */
  method EnsureAncestors(files: FileTree, root: seq<string>, relative: Path, ghost base: Path) returns (ok: bool)
    requires WellFormed(files.nodes) && Finds(Resolve(files.nodes, root, files.links), base) && IsDirectory(files.nodes, base)
    requires relative != [] && forall i | 0 <= i < |relative| :: Normal(relative[i])
    modifies files
    ensures ok <==> !Obstructed(old(files.nodes), base, relative)
    ensures files.nodes == if ok then Grown(old(files.nodes), base, relative) else old(files.nodes)
    ensures ok ==> forall j | 1 <= j < |relative| :: IsDirectory(files.nodes, base + relative[..j])
  {
    hide Follow, Grown, Between, Resolve, Lstat, WellFormed, IsDirectory, Obstructed, Normal, Parent;
    GrownStart(files.nodes, base, relative);
    var directory := root;
    for k := 1 to |relative|
      invariant directory == root + relative[..k - 1]
      invariant files.nodes == Grown(old(files.nodes), base, relative[..k])
      invariant forall j | 1 <= j < k :: IsDirectory(files.nodes, base + relative[..j])
    {
      directory := directory + [relative[k - 1]];
      assert directory == root + relative[..k];
      ChildResolves(old(files.nodes), files.links, root, base, relative, k);
      ok := files.EnsureDirectoryComponent(directory);
      GrownStep(old(files.nodes), base, relative, k);
      if !ok {
        Obstacle(old(files.nodes), base, relative, k);
        return false;
      }
      OneMore(Grown(old(files.nodes), base, relative[..k]), files.nodes, base, relative, k);
    }
    assert relative[..|relative|] == relative;
    NoObstacle(old(files.nodes), base, relative);
    ok := true;
  }

  /** `copy_artifact_path_beneath`: the whole call is `Copy`. */
  method CopyBeneath(files: FileTree, source: seq<string>, target: seq<string>, root: seq<string>) returns (outcome: Outcome)
    requires WellFormed(files.nodes)
    modifies files
    ensures (outcome, files.nodes) == Copy(old(files.nodes), files.links, source, target, root)
  {
    hide Follow, Grown, Between, Place, LeafEffect;
    match Lstat(files.nodes, root, files.links) {
      case Present(node) =>
        if node != Directory {
          return Refused(RootNotDirectory);
        }
      case _ =>
        return Refused(RootUnreadable);
    }
    if !(root <= target) {
      return Refused(OutsideRoot);
    }
    var relative := target[|root|..];
    if relative == [] {
      assert target == root;
      return Refused(NotALeaf);
    }
    if exists i | 0 <= i < |relative| :: !Normal(relative[i]) {
      return Refused(UnsafeComponent);
    }
    ghost var base := Resolve(files.nodes, root, files.links).at;
    var ok := EnsureAncestors(files, root, relative, base);
    if !ok {
      return Refused(AncestorNotDirectory);
    }
    TargetResolves(old(files.nodes), files.links, root, base, relative);
    assert root + relative == target;
    LeafEffectIsPlaced(old(files.nodes), files.links, source, root, base, relative);
    outcome := files.CopyLeaf(source, target);
  }

  // ------------------------------------------------------------ step lemmas

  lemma ChildResolves(tree: Tree, links: nat, root: seq<string>, base: Path, relative: Path, k: nat)
    requires Finds(Resolve(tree, root, links), base) && IsDirectory(tree, base)
    requires 1 <= k <= |relative| && forall i | 0 <= i < |relative| :: Normal(relative[i])
    requires forall j | 1 <= j < k :: IsDirectory(Grown(tree, base, relative[..k]), base + relative[..j])
    ensures Resolve(Grown(tree, base, relative[..k]), root, links) == Resolve(tree, root, links)
    ensures Finds(Resolve(Grown(tree, base, relative[..k]), root + relative[..k], links), base + relative[..k])
    ensures IsDirectory(Grown(tree, base, relative[..k]), Parent(base + relative[..k]))
  {
    hide Follow;
    var grown := Grown(tree, base, relative[..k]);
    FollowAgrees(tree, grown, [], root, links);
    forall j | 1 <= j < k
      ensures IsDirectory(grown, base + relative[..k][..j])
    {
      assert relative[..k][..j] == relative[..j];
    }
    FollowExtended(grown, [], root, relative[..k], links);
    assert Parent(base + relative[..k]) == base + relative[..k - 1];
    assert base + relative[..0] == base;
  }

  lemma OneMore(before: Tree, after: Tree, base: Path, relative: Path, k: nat)
    requires 1 <= k <= |relative| && forall j | 1 <= j < k :: IsDirectory(before, base + relative[..j])
    requires var p := base + relative[..k]; if p in before then before[p] == Directory && after == before else after == before[p := Directory]
    ensures forall j | 1 <= j < k + 1 :: IsDirectory(after, base + relative[..j])
  {
  }

  lemma GrownStep(tree: Tree, base: Path, relative: Path, k: nat)
    requires 1 <= k < |relative|
    ensures var grown, p := Grown(tree, base, relative[..k]), base + relative[..k];
      Grown(tree, base, relative[..k + 1]) == if p in grown then grown else grown[p := Directory]
  {
    var shorter, longer := relative[..k], relative[..k + 1];
    assert forall j | 1 <= j < k :: shorter[..j] == relative[..j];
    assert forall j | 1 <= j < k + 1 :: longer[..j] == relative[..j];
    forall p
      ensures p in Between(base, longer) <==> p in Between(base, shorter) || p == base + relative[..k]
    {
      if p in Between(base, longer) {
        var j :| 1 <= j < k + 1 && p == base + longer[..j];
        assert j < k ==> p == base + shorter[..j];
      }
      if p in Between(base, shorter) {
        var j :| 1 <= j < k && p == base + shorter[..j];
        assert p == base + longer[..j];
      }
      assert longer[..k] == relative[..k];
    }
  }

  lemma GrownStart(tree: Tree, base: Path, relative: Path)
    requires relative != []
    ensures Grown(tree, base, relative[..1]) == tree
  {
  }

  lemma Obstacle(tree: Tree, base: Path, relative: Path, k: nat)
    requires WellFormed(tree) && 1 <= k < |relative|
    requires var grown, p := Grown(tree, base, relative[..k]), base + relative[..k]; p in grown && grown[p] != Directory
    ensures Obstructed(tree, base, relative)
    ensures Grown(tree, base, relative[..k]) == tree
  {
    hide Between, WellFormed;
    var p := base + relative[..k];
    BetweenIff(base, relative, p);
    assert p < base + relative;
    NothingGrown(tree, base, relative[..k]);
  }

  lemma NoObstacle(tree: Tree, base: Path, relative: Path)
    requires forall j | 1 <= j < |relative| :: IsDirectory(Grown(tree, base, relative), base + relative[..j])
    ensures !Obstructed(tree, base, relative)
  {
  }

  lemma TargetResolves(tree: Tree, links: nat, root: seq<string>, base: Path, relative: Path)
    requires Finds(Resolve(tree, root, links), base) && IsDirectory(tree, base)
    requires relative != [] && forall i | 0 <= i < |relative| :: Normal(relative[i])
    requires forall j | 1 <= j < |relative| :: IsDirectory(Grown(tree, base, relative), base + relative[..j])
    ensures Resolve(Grown(tree, base, relative), root, links) == Resolve(tree, root, links)
    ensures Finds(Resolve(Grown(tree, base, relative), root + relative, links), base + relative)
    ensures IsDirectory(Grown(tree, base, relative), Parent(base + relative)) && IsDirectory(Grown(tree, base, relative), base)
  {
    hide Follow, Resolve, Between;
    assert relative[..|relative|] == relative;
    ChildResolves(tree, links, root, base, relative, |relative|);
  }

  lemma ParentResolves(tree: Tree, links: nat, root: seq<string>, base: Path, relative: Path)
    requires Finds(Resolve(tree, root, links), base) && IsDirectory(tree, base)
    requires relative != [] && forall i | 0 <= i < |relative| :: Normal(relative[i])
    requires forall j | 1 <= j < |relative| :: IsDirectory(tree, base + relative[..j])
    ensures Lstat(tree, root + relative[..|relative| - 1], links) == Present(Directory)
  {
    hide Follow;
    var above := relative[..|relative| - 1];
    assert forall k | 1 <= k < |above| :: above[..k] == relative[..k];
    FollowExtended(tree, [], root, above, links);
    assert base + relative[..0] == base;
  }

  lemma LeafEffectIsPlaced(tree: Tree, links: nat, source: seq<string>, root: seq<string>, base: Path, relative: Path)
    requires WellFormed(tree) && Finds(Resolve(tree, root, links), base) && IsDirectory(tree, base)
    requires relative != [] && forall i | 0 <= i < |relative| :: Normal(relative[i])
    requires !Obstructed(tree, base, relative)
    requires forall j | 1 <= j < |relative| :: IsDirectory(Grown(tree, base, relative), base + relative[..j])
    ensures WellFormed(Grown(tree, base, relative))
    ensures LeafEffect(Grown(tree, base, relative), links, source, root + relative)
         == CopyAt(tree, links, source, root, base, relative)
  {
    hide Follow, Between, Resolve, Lstat, Place, WellFormed, Empty, LeafEffect, Grown;
    var grown, leaf := Grown(tree, base, relative), base + relative;
    GrownWellFormed(tree, base, relative);
    TargetResolves(tree, links, root, base, relative);
    GrownAgrees(tree, base, relative);
    if leaf in tree {
      NothingGrown(tree, base, relative);
    }
    LeafEffectIsPlace(grown, links, source, root, base, relative);
  }

  /** In a directory that is there, re-reading the cleared tree finds the source
      and the target again exactly when neither path goes through the leaf. */
  lemma LeafEffectIsPlace(tree: Tree, links: nat, source: seq<string>, root: seq<string>, base: Path, relative: Path)
    requires WellFormed(tree) && Finds(Resolve(tree, root, links), base) && IsDirectory(tree, base) && relative != []
    requires forall i | 0 <= i < |relative| :: Normal(relative[i])
    requires forall j | 1 <= j < |relative| :: IsDirectory(tree, base + relative[..j])
    ensures LeafEffect(tree, links, source, root + relative) ==
      if IsDirectory(tree, base + relative) && !Empty(tree, base + relative) then (Refused(TargetNotEmpty), tree)
      else Place(tree, links, source, root, base + relative)
  {
    hide Follow, WellFormed, Empty, EnsureTarget, Open, ReadAgain, Cleared, Deepest, DeepestAt;
    var target, leaf := root + relative, base + relative;
    var parent := root + relative[..|relative| - 1];
    ParentResolves(tree, links, root, base, relative);
    FollowExtended(tree, [], root, relative, links);
    assert Parent(target) == parent;
    EnsurePresent(tree, links, parent);
    if !TargetInUse(tree, links, target) {
      WholeParent(tree, links, target, leaf);
      ClearedLeaf(tree, leaf);
      if Lstat(tree, source, links).Present? && Copyable(Lstat(tree, source, links).node) {
        TargetAgain(tree, links, root, base, relative);
        SourceAgain(tree, links, source, leaf);
        var node := Lstat(tree, source, links).node;
        assert (tree - {leaf})[leaf := node] == tree[leaf := node];
      }
    }
  }

  lemma SourceAgain(tree: Tree, links: nat, source: seq<string>, leaf: Path)
    requires WellFormed(tree) && Lstat(tree, source, links).Present? && Copyable(Lstat(tree, source, links).node)
    ensures var node := Lstat(tree, source, links).node;
      ReadAgain(tree - {leaf}, links, node, source) ==
        if leaf in Resolve(tree, source, links).via then None else Some(node)
  {
    hide Follow, ReadAgain;
    SourceKept(tree, tree, links, source, [], leaf, Lstat(tree, source, links).node);
  }

  // --------------------------------------------------------------- theorems

  /** Where a copy puts its leaf. */
  ghost function Leaf(tree: Tree, links: nat, target: seq<string>, root: seq<string>): Path
    requires Resolve(tree, root, links).Found? && root <= target
  {
    Resolve(tree, root, links).at + target[|root|..]
  }

  /** Every copy, on every well-formed tree. Success: the leaf holds the source
      node, every other node is as it was, and only directories strictly between
      root and leaf are new. Refusal: the tree is as it was, but for the three
      late refusals; an unusable source leaves the created directories, and a
      lost one has cleared the leaf. */
  lemma CopyFacts(tree: Tree, links: nat, source: seq<string>, target: seq<string>, root: seq<string>)
    requires WellFormed(tree)
    ensures var (outcome, after) := Copy(tree, links, source, target, root);
      && WellFormed(after)
      && (outcome.Copied? ==>
        && Resolve(tree, root, links).Found? && root < target
        && var leaf := Leaf(tree, links, target, root);
          && leaf in after && Copyable(after[leaf])
          && (Lstat(tree, source, links).Present? ==> Lstat(tree, source, links).node == after[leaf])
          && Lstat(Grown(tree, Resolve(tree, root, links).at, target[|root|..]), source, links) == Present(after[leaf])
          && (forall p | p in tree && p != leaf :: p in after && after[p] == tree[p])
          && (forall p | p in after && p !in tree && p != leaf :: after[p] == Directory && Resolve(tree, root, links).at < p < leaf))
      && (outcome.Refused? && outcome.why !in {SourceUnreadable, SourceUnsupported, Lost} ==> after == tree)
      && (outcome.Refused? && outcome.why in {SourceUnreadable, SourceUnsupported} ==>
        && Resolve(tree, root, links).Found? && root < target
        && after == Grown(tree, Resolve(tree, root, links).at, target[|root|..])
        && (after == tree <==> forall p | p in Between(Resolve(tree, root, links).at, target[|root|..]) :: p in tree))
      && (outcome == Refused(Lost) ==>
        && Resolve(tree, root, links).Found? && root < target
        && Leaf(tree, links, target, root) in tree && after == tree - {Leaf(tree, links, target, root)})
  {
    hide Follow, Between, WellFormed, Empty, Place, Grown;
    var from := Resolve(tree, root, links);
    if from.Found? && IsDirectory(tree, from.at) && root < target {
      var relative := target[|root|..];
      assert relative != [];
      if (forall i | 0 <= i < |relative| :: Normal(relative[i])) && !Obstructed(tree, from.at, relative)
         && !(IsDirectory(tree, from.at + relative) && !Empty(tree, from.at + relative)) {
        GrownWellFormed(tree, from.at, relative);
        GrownSameIff(tree, from.at, relative);
        PlaceFacts(tree, links, source, root, relative);
      }
    }
  }

  lemma GrownEmpty(tree: Tree, base: Path, relative: Path)
    requires WellFormed(tree) && relative != [] && (IsDirectory(tree, base + relative) ==> Empty(tree, base + relative))
    ensures var grown, leaf := Grown(tree, base, relative), base + relative; IsDirectory(grown, leaf) ==> Empty(grown, leaf)
  {
    hide Grown, WellFormed, Empty;
    GrownAgrees(tree, base, relative);
    if base + relative in tree {
      NothingGrown(tree, base, relative);
    }
  }

  lemma PlaceFacts(tree: Tree, links: nat, source: seq<string>, root: seq<string>, relative: Path)
    requires WellFormed(tree) && relative != []
    requires var from := Resolve(tree, root, links); from.Found? && IsDirectory(tree, from.at)
    requires var from := Resolve(tree, root, links);
      && !Obstructed(tree, from.at, relative)
      && WellFormed(Grown(tree, from.at, relative))
      && IsDirectory(Grown(tree, from.at, relative), Parent(from.at + relative))
      && (IsDirectory(tree, from.at + relative) ==> Empty(tree, from.at + relative))
    ensures var base := Resolve(tree, root, links).at;
      var grown, leaf := Grown(tree, base, relative), base + relative;
      var (outcome, after) := Place(grown, links, source, root, leaf);
      && WellFormed(after)
      && (outcome.Copied? ==>
          && leaf in after && Copyable(after[leaf])
          && (Lstat(tree, source, links).Present? ==> Lstat(tree, source, links).node == after[leaf])
          && Lstat(grown, source, links) == Present(after[leaf])
          && (forall p | p in tree && p != leaf :: p in after && after[p] == tree[p])
          && (forall p | p in after && p !in tree && p != leaf :: after[p] == Directory && base < p < leaf))
      && (outcome.Refused? ==> outcome.why in {SourceUnreadable, SourceUnsupported, Lost})
      && (outcome.Refused? && outcome.why in {SourceUnreadable, SourceUnsupported} ==> after == grown)
      && (outcome == Refused(Lost) ==> leaf in tree && after == tree - {leaf})
  {
    hide Follow, Between, WellFormed, Empty, Grown;
    var base := Resolve(tree, root, links).at;
    var grown, leaf := Grown(tree, base, relative), base + relative;
    GrownAgrees(tree, base, relative);
    GrownEmpty(tree, base, relative);
    FollowAgrees(tree, grown, [], root, links);
    if Lstat(grown, source, links).Present? {
      LeafKeepsWellFormed(grown, leaf, Lstat(grown, source, links).node);
      FollowExists(grown, [], source, links);
      FollowExists(grown, [], root, links);
      if Lstat(tree, source, links).Present? {
        FollowAgrees(tree, grown, [], source, links);
      }
      if leaf in tree {
        NothingGrown(tree, base, relative);
      }
    }
  }

  /** On paths that go through no link and no `..`, an otherwise acceptable copy
      succeeds exactly when source and target differ; copying a leaf onto itself
      refuses and has deleted it. */
  lemma CopiesUnlessSame(tree: Tree, links: nat, source: seq<string>, target: seq<string>, root: seq<string>)
    requires WellFormed(tree) && Plain(source) && Plain(target) && root < target
    requires source in tree && Copyable(tree[source]) && IsDirectory(tree, root)
    requires forall k | |root| < k < |target| :: target[..k] in tree ==> tree[target[..k]] == Directory
    requires IsDirectory(tree, target) ==> Empty(tree, target)
    ensures var (outcome, after) := Copy(tree, links, source, target, root);
      && (outcome.Copied? <==> source != target)
      && (source == target ==> outcome == Refused(Lost) && after == tree - {target})
  {
    hide Follow, Between, Empty, Grown;
    var relative := target[|root|..];
    assert root + relative == target;
    PlainResolves(tree, links, root);
    PlainResolves(tree, links, source);
    var grown := Grown(tree, root, relative);
    GrownAgrees(tree, root, relative);
    FollowAgrees(tree, grown, [], root, links);
    FollowAgrees(tree, grown, [], source, links);
    forall p | p in Between(root, relative)
      ensures p in tree ==> tree[p] == Directory
    {
      BetweenIff(root, relative, p);
      assert p == target[..|p|];
    }
    if source == target {
      FollowPassesAncestors(grown, [], source, links, source);
      NothingGrown(tree, root, relative);
    } else if target < source {
      ChildOf(tree, source, target);
    }
  }
}

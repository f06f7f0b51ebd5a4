/** Copying one artifact leaf (`copy_artifact_path` in `artifacts.rs`): the
    target's directory is made, in place of a file or link if need be, the
    target is cleared, and the source node is put in its place. */
module LeafCopy {
  import opened Common
  import opened Files

  datatype Refusal =
    | RootUnreadable | RootNotDirectory | OutsideRoot | NotALeaf | UnsafeComponent
    | AncestorNotDirectory | TargetNotEmpty | SourceUnreadable | SourceUnsupported
    | ParentNotMade | Lost

  datatype Outcome = Copied | Refused(why: Refusal)

  predicate Copyable(node: Node) {
    node.File? || node.Link?
  }

  predicate Finds(walk: Walk, at: Path) {
    walk.Found? && walk.at == at
  }

  predicate Plain(path: seq<string>) {
    forall i | 0 <= i < |path| :: Normal(path[i])
  }

  /** The nodes a path goes through, if it leads anywhere. */
  function Goes(tree: Tree, path: seq<string>, links: nat): set<Path> {
    var walk := Resolve(tree, path, links);
    if walk.Found? then walk.via else {}
  }

  // ---------------------------------------------------- growing directories

  /** The directories strictly between `base` and `base + relative`. */
  function Between(base: Path, relative: Path): set<Path> {
    set k | 1 <= k < |relative| :: base + relative[..k]
  }

  predicate Obstructed(tree: Tree, base: Path, relative: Path) {
    exists p | p in Between(base, relative) :: p in tree && tree[p] != Directory
  }

  /** The tree once every missing directory between the two exists. */
  function Grown(tree: Tree, base: Path, relative: Path): Tree {
    map p | p in tree.Keys + Between(base, relative) :: if p in tree then tree[p] else Directory
  }

  lemma BetweenIff(base: Path, relative: Path, p: Path)
    ensures p in Between(base, relative) <==> base < p < base + relative
  {
    if p in Between(base, relative) {
      var k :| 1 <= k < |relative| && p == base + relative[..k];
      assert p == (base + relative)[..|p|];
    }
    if base < p < base + relative {
      assert p == base + relative[..|p| - |base|];
    }
  }

  lemma GrownAgrees(tree: Tree, base: Path, relative: Path)
    ensures forall p | p in tree :: p in Grown(tree, base, relative) && Grown(tree, base, relative)[p] == tree[p]
    ensures forall p | p in Grown(tree, base, relative) && p !in tree ::
      Grown(tree, base, relative)[p] == Directory && base < p < base + relative
  {
    hide Between;
    forall p | p in Grown(tree, base, relative) && p !in tree
      ensures base < p < base + relative
    {
      BetweenIff(base, relative, p);
    }
  }

  /** A node found below `base` has every node above it: nothing is created. */
  lemma NothingGrown(tree: Tree, base: Path, relative: Path)
    requires WellFormed(tree) && base + relative in tree
    ensures Grown(tree, base, relative) == tree
  {
    hide Between, WellFormed;
    forall p | p in Between(base, relative)
      ensures p in tree
    {
      BetweenIff(base, relative, p);
      PrefixesPresent(tree, base + relative, |p|);
      assert p == (base + relative)[..|p|];
    }
  }

  /** Nothing is created exactly when nothing between is missing. */
  lemma GrownSameIff(tree: Tree, base: Path, relative: Path)
    ensures Grown(tree, base, relative) == tree <==> forall p | p in Between(base, relative) :: p in tree
  {
    hide Between;
    if Grown(tree, base, relative) == tree {
      forall p | p in Between(base, relative)
        ensures p in tree
      {
        assert p in Grown(tree, base, relative);
      }
    }
  }

  lemma GrownWellFormed(tree: Tree, base: Path, relative: Path)
    requires WellFormed(tree) && IsDirectory(tree, base) && !Obstructed(tree, base, relative)
    ensures WellFormed(Grown(tree, base, relative))
    ensures relative != [] ==> IsDirectory(Grown(tree, base, relative), Parent(base + relative))
  {
    hide Between, Grown, Obstructed, Parent;
    var grown := Grown(tree, base, relative);
    GrownAgrees(tree, base, relative);
    forall p: Path | p != [] && (p in grown || (p == base + relative && relative != []))
      ensures IsDirectory(grown, Parent(p))
    {
      if p !in tree {
        assert p == Parent(p) + [p[|p| - 1]];
        GrownDirectory(tree, base, relative, Parent(p));
      }
    }
    if relative != [] {
      assert base + relative != [] && IsDirectory(grown, Parent(base + relative));
    }
  }

  lemma GrownDirectory(tree: Tree, base: Path, relative: Path, p: Path)
    requires IsDirectory(tree, base) && !Obstructed(tree, base, relative) && base <= p < base + relative
    ensures IsDirectory(Grown(tree, base, relative), p)
  {
    hide Between;
    BetweenIff(base, relative, p);
    assert base < p || p == base;
  }

  /** Taking the leaf away, or replacing it, where it has no children. */
  lemma LeafKeepsWellFormed(tree: Tree, leaf: Path, node: Node)
    requires WellFormed(tree) && leaf != [] && IsDirectory(tree, Parent(leaf))
    requires IsDirectory(tree, leaf) ==> Empty(tree, leaf)
    ensures WellFormed(tree - {leaf}) && WellFormed(tree[leaf := node])
  {
    hide Parent;
    forall p: Path | p in tree && p != []
      ensures IsDirectory(tree, Parent(p)) && Parent(p) != leaf
    {
      assert p == Parent(p) + [p[|p| - 1]];
    }
  }

  lemma PlainResolves(tree: Tree, links: nat, path: seq<string>)
    requires WellFormed(tree) && Plain(path) && path in tree
    ensures Finds(Resolve(tree, path, links), path)
    ensures forall q | q in Resolve(tree, path, links).via :: q <= path
  {
    hide Follow, WellFormed;
    forall k | 1 <= k < |path|
      ensures IsDirectory(tree, [] + path[..k])
    {
      PrefixesPresent(tree, path, k);
      assert [] + path[..k] == path[..k];
    }
    FollowDown(tree, [], path, links);
    assert [] + path == path;
  }

  lemma ChildOf(tree: Tree, below: Path, above: Path)
    requires WellFormed(tree) && below in tree && above < below
    ensures IsDirectory(tree, above) && !Empty(tree, above)
  {
    assert below[..|above|] == above;
    PrefixesPresent(tree, below, |above|);
    var child := below[..|above| + 1];
    if |child| < |below| {
      PrefixesPresent(tree, below, |child|);
    } else {
      assert child == below;
    }
    assert Parent(child) == above && child != above && child != [];
    assert child in tree;
  }

  // ------------------------------------- what making a directory amounts to

  /** The length of the longest prefix of a path that is there. */
  ghost function Deepest(tree: Tree, links: nat, path: seq<string>): (k: nat)
    ensures k <= |path|
    ensures k > 0 ==> Lstat(tree, path[..k], links).Present?
    ensures forall j | k < j <= |path| :: !Lstat(tree, path[..j], links).Present?
    decreases |path|
  {
    ParentPrefixes(path);
    if path == [] || Lstat(tree, path, links).Present? then |path| else Deepest(tree, links, Parent(path))
  }

  lemma ParentPrefixes(path: seq<string>)
    ensures path[..|path|] == path
    ensures forall j | 0 <= j < |path| :: Parent(path)[..j] == path[..j]
  {
  }

  /** Where that prefix leads. */
  ghost function DeepestAt(tree: Tree, links: nat, path: seq<string>): (at: Path)
    requires WellFormed(tree)
    ensures at in tree && Finds(Resolve(tree, path[..Deepest(tree, links, path)], links), at)
  {
    var k := Deepest(tree, links, path);
    assert k == 0 ==> path[..k] == [];
    Resolve(tree, path[..k], links).at
  }

  ghost function PlainPart(names: seq<string>): (r: seq<string>)
    ensures r <= names && Plain(r)
  {
    if Plain(names) then names else PlainPart(Parent(names))
  }

  /** The tree once `base + names` and all between are directories. */
  function Laid(tree: Tree, base: Path, names: seq<string>): Tree {
    Grown(tree, base, names + [""])
  }

  /** Making a directory of `path`, in closed form: the longest prefix that is
      there becomes a directory, if the path still leads to it once what it
      names is gone, and the rest is laid out below it, up to a name that is not plain. */
  ghost function EnsureTarget(tree: Tree, links: nat, path: seq<string>): (bool, Tree)
    requires WellFormed(tree)
  {
    var k, at := Deepest(tree, links, path), DeepestAt(tree, links, path);
    if Lstat(tree, path, links) == Unresolvable then (false, tree)
    else if tree[at] == Directory || Finds(Resolve(tree - {at}, path[..k], links), at) then
      (Plain(path[k..]), Laid(tree[at := Directory], at, PlainPart(path[k..])))
    else (false, tree - {at})
  }

  // ------------------------------------------ what a leaf copy amounts to

  function Cleared(tree: Tree, leaf: Path): Tree {
    if leaf in tree then Without(tree, leaf) else tree
  }

  /** What is read from the source once the target is cleared: a file's content
      as opening it gives it then, with the mode seen before, or a link's text. */
  function ReadAgain(tree: Tree, links: nat, node: Node, source: seq<string>): Option<Node> {
    match node
    case File(_, mode) =>
      (match Open(tree, [], source, links)
       case Some(File(content, _)) => Some(File(content, mode))
       case _ => None)
    case Link(_) =>
      (match Lstat(tree, source, links)
       case Present(Link(parts)) => Some(Link(parts))
       case _ => None)
    case _ => None
  }

  /** Clearing the target, reading the source again and writing it. */
  function Put(tree: Tree, links: nat, node: Node, source: seq<string>, target: seq<string>, leaf: Path): (Outcome, Tree) {
    var cleared := Cleared(tree, leaf);
    var read := ReadAgain(cleared, links, node, source);
    if read.Some? && Finds(Resolve(cleared, target, links), leaf) then (Copied, cleared[leaf := read.value])
    else (Refused(Lost), cleared)
  }

  /** Where a leaf copy puts its node: the target's last names below the longest
      part of its directory that is there. */
  ghost function LeafAt(tree: Tree, links: nat, target: seq<string>): Path
    requires WellFormed(tree) && target != []
  {
    DeepestAt(tree, links, Parent(target)) + target[Deepest(tree, links, Parent(target))..]
  }

  predicate TargetInUse(tree: Tree, links: nat, target: seq<string>) {
    Lstat(tree, target, links) == Present(Directory) && !Empty(tree, Resolve(tree, target, links).at)
  }

  ghost function LeafEffect(tree: Tree, links: nat, source: seq<string>, target: seq<string>): (Outcome, Tree)
    requires WellFormed(tree) && target != []
  {
    if TargetInUse(tree, links, target) then (Refused(TargetNotEmpty), tree)
    else match Lstat(tree, source, links)
      case Present(node) =>
        if !Copyable(node) then (Refused(SourceUnsupported), tree)
        else
          var (made, ready) := EnsureTarget(tree, links, Parent(target));
          if !made then (Refused(ParentNotMade), ready)
          else Put(ready, links, node, source, target, LeafAt(tree, links, target))
      case _ => (Refused(SourceUnreadable), tree)
  }

  // --------------------------------------------------- the code, step by step

  class FileTree {
    var nodes: Tree
    const links: nat

    constructor (nodes: Tree, links: nat)
      ensures this.nodes == nodes && this.links == links
    {
      this.nodes := nodes;
      this.links := links;
    }

    /** `ensure_directory_component_beneath`. */
    method EnsureDirectoryComponent(path: seq<string>) returns (ok: bool)
      modifies this
      ensures var walk := Resolve(old(nodes), path, links);
        if walk.Found? && walk.at in old(nodes) then ok == (old(nodes)[walk.at] == Directory) && nodes == old(nodes)
        else if walk.Found? && IsDirectory(old(nodes), Parent(walk.at)) then ok && nodes == old(nodes)[walk.at := Directory]
        else !ok && nodes == old(nodes)
    {
      match Lstat(nodes, path, links)
      case Present(node) =>
        ok := node == Directory;
      case Absent =>
        ok := CreateDirectory(path);
      case _ =>
        ok := false;
    }

    /** `fs::create_dir`. */
    method CreateDirectory(path: seq<string>) returns (ok: bool)
      modifies this
      ensures var walk := Resolve(old(nodes), path, links);
        && ok == (walk.Found? && walk.at !in old(nodes) && IsDirectory(old(nodes), Parent(walk.at)))
        && nodes == if ok then old(nodes)[walk.at := Directory] else old(nodes)
    {
      match Resolve(nodes, path, links)
      case Found(at, _) =>
        ok := at !in nodes && IsDirectory(nodes, Parent(at));
        if ok {
          nodes := nodes[at := Directory];
        }
      case _ =>
        ok := false;
    }

    /** `ensure_directory_target`: makes a directory of `path`, in place of a
        file or link of that name and below as many new ones as it takes. */
    method EnsureDirectoryTarget(path: seq<string>) returns (ok: bool)
      requires WellFormed(nodes)
      modifies this
      ensures (ok, nodes) == EnsureTarget(old(nodes), links, path)
      decreases |path|
    {
      hide Follow, EnsureTarget, Deepest, DeepestAt;
      var status := Lstat(nodes, path, links);
      EnsurePresent(nodes, links, path);
      if status == Present(Directory) {
        return true;
      }
      if status == Unresolvable {
        return false;
      }
      if status.Present? {
        nodes := nodes - {Resolve(nodes, path, links).at};
        ok := CreateDirectory(path);
      } else {
        var made := EnsureDirectoryTarget(Parent(path));
        EnsureStep(old(nodes), links, path);
        if !made {
          return false;
        }
        ok := CreateDirectory(path);
      }
    }

    /** `copy_artifact_path`. */
    method CopyLeaf(source: seq<string>, target: seq<string>) returns (outcome: Outcome)
      requires WellFormed(nodes) && target != [] && Normal(target[|target| - 1])
      modifies this
      ensures (outcome, nodes) == LeafEffect(old(nodes), links, source, target)
    {
      hide Follow, EnsureTarget, Open, Without;
      if TargetInUse(nodes, links, target) {
        return Refused(TargetNotEmpty);
      }
      match Lstat(nodes, source, links)
      case Present(node) =>
        if !Copyable(node) {
          return Refused(SourceUnsupported);
        }
        var made := EnsureDirectoryTarget(Parent(target));
        if !made {
          return Refused(ParentNotMade);
        }
        LeafFound(old(nodes), links, target);
        var leaf := Resolve(nodes, target, links).at;
        if Lstat(nodes, target, links).Present? {
          nodes := Without(nodes, leaf);
        }
        var read := ReadAgain(nodes, links, node, source);
        if read.None? || !Finds(Resolve(nodes, target, links), leaf) {
          return Refused(Lost);
        }
        nodes := nodes[leaf := read.value];
        outcome := Copied;
      case _ =>
        outcome := Refused(SourceUnreadable);
    }
  }

  // ------------------------------------------------------------ step lemmas

  lemma LaidNothing(tree: Tree, base: Path)
    ensures Laid(tree, base, []) == tree
  {
    assert Between(base, [] + [""]) == {};
  }

  lemma LaidOneMore(tree: Tree, base: Path, names: seq<string>, name: string)
    ensures var laid, p := Laid(tree, base, names), base + (names + [name]);
      Laid(tree, base, names + [name]) == if p in laid then laid else laid[p := Directory]
  {
    hide Between;
    forall p
      ensures p in Between(base, names + [name] + [""]) <==> p in Between(base, names + [""]) || p == base + (names + [name])
    {
      BetweenIff(base, names + [name] + [""], p);
      BetweenIff(base, names + [""], p);
      PrefixOfLonger(base, names, name, p);
    }
  }

  lemma PrefixOfLonger(base: Path, names: seq<string>, name: string, p: Path)
    ensures base < p < base + (names + [name] + [""]) <==> base < p < base + (names + [""]) || p == base + (names + [name])
  {
    var long := base + (names + [name] + [""]);
    assert long[..|long| - 1] == base + (names + [name]);
    assert long[..|long| - 2] == base + names == (base + (names + [""]))[..|base + names|];
    if p < long {
      assert p == long[..|p|];
    }
    if p < base + (names + [""]) {
      assert p == (base + (names + [""]))[..|p|] == (base + names)[..|p|] == long[..|p|];
    }
  }

  /** A plain name in an existing directory is found there. */
  lemma ChildFound(tree: Tree, links: nat, path: seq<string>)
    requires path != [] && Normal(path[|path| - 1]) && Lstat(tree, Parent(path), links) == Present(Directory)
    ensures Finds(Resolve(tree, path, links), Resolve(tree, Parent(path), links).at + [path[|path| - 1]])
  {
    hide Follow;
    FollowExtended(tree, [], Parent(path), [path[|path| - 1]], links);
  }

  /** What making a directory does when the whole path is there or fails. */
  lemma EnsurePresent(tree: Tree, links: nat, path: seq<string>)
    requires WellFormed(tree)
    ensures var status := Lstat(tree, path, links);
      && (!status.Present? ==> path != [])
      && (status == Present(Directory) ==> EnsureTarget(tree, links, path) == (true, tree))
      && (status == Unresolvable ==> EnsureTarget(tree, links, path) == (false, tree))
      && (status.Present? && status.node != Directory ==>
            var at := Resolve(tree, path, links).at;
            var cleared := tree - {at};
            var walk := Resolve(cleared, path, links);
            && at != [] && IsDirectory(cleared, Parent(at))
            && (walk == Missing || Finds(walk, at))
            && EnsureTarget(tree, links, path) == if Finds(walk, at) then (true, cleared[at := Directory]) else (false, cleared))
  {
    assert Lstat(tree, [], links) == Present(Directory);
    hide Follow, Laid;
    var status := Lstat(tree, path, links);
    if status.Present? {
      var at := Resolve(tree, path, links).at;
      assert path[..|path|] == path && path[|path|..] == [];
      LaidNothing(tree[at := Directory], at);
      assert tree[at] == Directory ==> tree[at := Directory] == tree;
      if status.node != Directory {
        FollowPassesAncestors(tree, [], path, links, at);
        FollowBroken(tree, at, [], path, links);
        assert (tree - {at})[at := Directory] == tree[at := Directory];
      }
    }
  }

  /** Nothing is there yet below the longest prefix that is. */
  lemma NewBelow(tree: Tree, links: nat, path: seq<string>)
    requires WellFormed(tree) && Deepest(tree, links, path) < |path|
    ensures var k, at := Deepest(tree, links, path), DeepestAt(tree, links, path);
      && (tree[at] == Directory ==> Normal(path[k]))
      && (Normal(path[k]) ==> forall q | at + [path[k]] <= q :: q !in tree)
  {
    hide Follow, WellFormed;
    var k, at := Deepest(tree, links, path), DeepestAt(tree, links, path);
    var longer := path[..k + 1];
    assert Parent(longer) == path[..k] && longer == path[..k] + [path[k]];
    if tree[at] == Directory && !Normal(path[k]) {
      FollowAside(tree, [], path[..k], path[k], links);
      ParentThere(tree, at);
    }
    if Normal(path[k]) {
      var next := at + [path[k]];
      if tree[at] == Directory {
        ChildFound(tree, links, longer);
        assert next !in tree;
      }
      forall q | next <= q
        ensures q !in tree
      {
        NothingUnder(tree, at, next, q);
      }
    }
  }

  lemma NothingUnder(tree: Tree, at: Path, next: Path, q: Path)
    requires WellFormed(tree) && at == Parent(next) && next != [] && next <= q
    requires IsDirectory(tree, at) ==> next !in tree
    ensures q !in tree
  {
    assert q[..|at|] == at && q[..|next|] == next;
    assert |q| == |next| ==> q == next;
    if q in tree {
      PrefixesPresent(tree, q, |at|);
      if |q| > |next| {
        PrefixesPresent(tree, q, |next|);
      }
    }
  }

  lemma ParentThere(tree: Tree, at: Path)
    requires WellFormed(tree) && at in tree
    ensures Parent(at) in tree
  {
  }

  /** The plain names after the prefix, laid out, are where the path leads. */
  lemma LaidResolves(tree: Tree, links: nat, path: seq<string>, names: seq<string>)
    requires WellFormed(tree)
    requires var k, at := Deepest(tree, links, path), DeepestAt(tree, links, path);
      && names <= path[k..] && Plain(names)
      && (tree[at] == Directory || Finds(Resolve(tree - {at}, path[..k], links), at))
    ensures var k, at := Deepest(tree, links, path), DeepestAt(tree, links, path);
      var laid := Laid(tree[at := Directory], at, names);
      && WellFormed(laid)
      && Finds(Resolve(laid, path[..k] + names, links), at + names) && IsDirectory(laid, at + names)
      && (forall p | p in tree && p != at :: p in laid && laid[p] == tree[p])
      && IsDirectory(laid, at)
      && (forall p | p in laid && p !in tree :: laid[p] == Directory && at < p <= at + names)
      && (forall p | at < p <= at + names :: p !in tree && p in laid)
  {
    hide Follow, Between, Grown, WellFormed, Deepest, DeepestAt;
    var k, at := Deepest(tree, links, path), DeepestAt(tree, links, path);
    var base := tree[at := Directory];
    BaseResolves(tree, links, path);
    var long := names + [""];
    GrownAgrees(base, at, long);
    forall p | p in Laid(base, at, names) && p !in base
      ensures at < p <= at + names
    {
      PrefixOfPadded(at, names, p);
    }
    if names != [] {
      NewBelow(tree, links, path);
      assert names[0] == path[k];
    }
    forall p | at < p <= at + names
      ensures p !in tree && IsDirectory(Laid(base, at, names), p)
    {
      PrefixOfPadded(at, names, p);
      assert at + [names[0]] <= p;
      GrownBetween(base, at, long, p);
    }
    assert !Obstructed(base, at, long) by {
      NotObstructed(base, at, names);
    }
    GrownWellFormed(base, at, long);
    var laid := Laid(base, at, names);
    FollowAgrees(base, laid, [], path[..k], links);
    forall j | 1 <= j < |names|
      ensures IsDirectory(laid, at + names[..j])
    {
      assert at < at + names[..j] <= at + names;
    }
    FollowExtended(laid, [], path[..k], names, links);
    assert names == [] ==> at + names == at;
  }

  lemma PrefixOfPadded(at: Path, names: seq<string>, p: Path)
    ensures at < p < at + (names + [""]) <==> at < p <= at + names
  {
    var long := at + (names + [""]);
    assert long[..|long| - 1] == at + names;
    if p < long {
      assert p == long[..|p|] == (at + names)[..|p|];
    }
    if p <= at + names {
      assert p == (at + names)[..|p|] == long[..|p|];
    }
  }

  lemma GrownBetween(tree: Tree, base: Path, relative: Path, p: Path)
    requires base < p < base + relative && p !in tree
    ensures IsDirectory(Grown(tree, base, relative), p)
  {
    hide Between;
    BetweenIff(base, relative, p);
  }

  lemma NotObstructed(tree: Tree, at: Path, names: seq<string>)
    requires forall p | at < p <= at + names :: p !in tree
    ensures !Obstructed(tree, at, names + [""])
  {
    hide Between;
    forall p | p in Between(at, names + [""])
      ensures p !in tree
    {
      BetweenIff(at, names + [""], p);
      PrefixOfPadded(at, names, p);
    }
  }

  /** The prefix still leads to its node once that is a directory. */
  lemma BaseResolves(tree: Tree, links: nat, path: seq<string>)
    requires WellFormed(tree)
    requires var k, at := Deepest(tree, links, path), DeepestAt(tree, links, path);
      tree[at] == Directory || Finds(Resolve(tree - {at}, path[..k], links), at)
    ensures var k, at := Deepest(tree, links, path), DeepestAt(tree, links, path);
      WellFormed(tree[at := Directory]) && Finds(Resolve(tree[at := Directory], path[..k], links), at)
  {
    hide Follow, Deepest, DeepestAt;
    var k, at := Deepest(tree, links, path), DeepestAt(tree, links, path);
    if tree[at] == Directory {
      assert tree[at := Directory] == tree;
    } else {
      LeafKeepsWellFormed(tree, at, Directory);
      FollowAgrees(tree - {at}, tree[at := Directory], [], path[..k], links);
    }
  }

  /** One component more: what the recursive call left, and the last step. */
  lemma EnsureStep(tree: Tree, links: nat, path: seq<string>)
    requires WellFormed(tree) && path != []
    requires Lstat(tree, path, links) in {Absent, ThroughLeaf}
    ensures var (made, before) := EnsureTarget(tree, links, Parent(path));
      var walk := Resolve(before, path, links);
      && (!made ==> EnsureTarget(tree, links, path) == (false, before))
      && (made && Normal(path[|path| - 1]) ==>
            && walk.Found? && walk.at !in before && IsDirectory(before, Parent(walk.at))
            && EnsureTarget(tree, links, path) == (true, before[walk.at := Directory]))
      && (made && !Normal(path[|path| - 1]) ==>
            walk.Found? && walk.at in before && EnsureTarget(tree, links, path) == (false, before))
  {
    hide Follow, WellFormed, Laid, EnsureTarget, Deepest, DeepestAt, Plain, PlainPart, Normal, Resolve;
    var parent, name := Parent(path), path[|path| - 1];
    var k, at := Deepest(tree, links, path), DeepestAt(tree, links, path);
    SameDeepest(tree, links, path);
    var names := parent[k..];
    PlainLonger(names, name);
    EnsureUnfolds(tree, links, path);
    EnsureUnfolds(tree, links, parent);
    var (made, before) := EnsureTarget(tree, links, parent);
    if made {
      LaidResolves(tree, links, parent, names);
      LastStep(tree, links, path, before);
      if Normal(name) {
        LaidOneMore(tree[at := Directory], at, names, name);
        LeafPath(at, names, name);
      }
    }
  }

  lemma LeafPath(at: Path, names: seq<string>, name: string)
    ensures at + (names + [name]) == at + names + [name] && Parent(at + names + [name]) == at + names
  {
  }

  lemma SameDeepest(tree: Tree, links: nat, path: seq<string>)
    requires WellFormed(tree) && path != [] && Lstat(tree, path, links) in {Absent, ThroughLeaf}
    ensures var parent, name, k := Parent(path), path[|path| - 1], Deepest(tree, links, path);
      && k < |path| && Deepest(tree, links, parent) == k
      && DeepestAt(tree, links, parent) == DeepestAt(tree, links, path)
      && parent[..k] == path[..k] && path[k..] == parent[k..] + [name] && parent[..k] + parent[k..] == parent
      && Lstat(tree, parent, links) != Unresolvable
  {
    hide Follow, WellFormed, Resolve;
    var parent, name, k := Parent(path), path[|path| - 1], Deepest(tree, links, path);
    assert Deepest(tree, links, parent) == k;
    ParentSlices(path, k);
    ParentResolvable(tree, links, path);
  }

  lemma ParentSlices(path: seq<string>, k: nat)
    requires k < |path|
    ensures var parent, name := Parent(path), path[|path| - 1];
      parent[..k] == path[..k] && path[k..] == parent[k..] + [name] && parent[..k] + parent[k..] == parent
  {
  }

  lemma ParentResolvable(tree: Tree, links: nat, path: seq<string>)
    requires path != [] && Lstat(tree, path, links) != Unresolvable
    ensures Lstat(tree, Parent(path), links) != Unresolvable
  {
    hide Follow;
    var parent, name := Parent(path), path[|path| - 1];
    assert parent + [name] == path;
    if Lstat(tree, parent, links) == Unresolvable {
      FollowFails(tree, [], parent, [name], links);
    }
  }

  lemma EnsureUnfolds(tree: Tree, links: nat, path: seq<string>)
    requires WellFormed(tree) && Lstat(tree, path, links) != Unresolvable
    ensures var k, at := Deepest(tree, links, path), DeepestAt(tree, links, path);
      EnsureTarget(tree, links, path) ==
        if tree[at] == Directory || Finds(Resolve(tree - {at}, path[..k], links), at)
        then (Plain(path[k..]), Laid(tree[at := Directory], at, PlainPart(path[k..])))
        else (false, tree - {at})
  {
    hide Follow, Deepest, DeepestAt, Laid;
  }

  lemma LastStep(tree: Tree, links: nat, path: seq<string>, before: Tree)
    requires WellFormed(tree) && path != []
    requires Lstat(tree, path, links) in {Absent, ThroughLeaf}
    requires var k, at := Deepest(tree, links, path), DeepestAt(tree, links, path);
      var names := Parent(path)[k..];
      && k < |path| && Plain(names) && before == Laid(tree[at := Directory], at, names)
      && WellFormed(before) && Finds(Resolve(before, Parent(path), links), at + names) && IsDirectory(before, at + names)
    ensures var k, at := Deepest(tree, links, path), DeepestAt(tree, links, path);
      var names, name := Parent(path)[k..], path[|path| - 1];
      var walk := Resolve(before, path, links);
      && (Normal(name) ==> Finds(walk, at + names + [name]) && walk.at !in before)
      && (!Normal(name) ==> walk.Found? && walk.at in before)
  {
    hide Follow, WellFormed, Laid, Deepest, DeepestAt;
    var k, at := Deepest(tree, links, path), DeepestAt(tree, links, path);
    var parent, name := Parent(path), path[|path| - 1];
    var names := parent[k..];
    SameDeepest(tree, links, path);
    if Normal(name) {
      ChildFound(before, links, path);
      NewBelow(tree, links, path);
      NewLeafAt(tree, at, path, k);
    } else {
      FollowAside(before, [], parent, name, links);
      assert parent + [name] == path;
      ParentThere(before, at + names);
    }
  }

  lemma PlainLonger(names: seq<string>, name: string)
    ensures Plain(names + [name]) <==> Plain(names) && Normal(name)
    ensures Plain(names) ==> PlainPart(names) == names
    ensures PlainPart(names + [name]) == if Plain(names) && Normal(name) then names + [name] else PlainPart(names)
  {
    assert Parent(names + [name]) == names;
    assert (names + [name])[..|names|] == names;
    if Plain(names + [name]) {
      assert forall i | 0 <= i < |names| :: (names + [name])[i] == names[i];
    }
  }

  lemma NewLeafAt(tree: Tree, at: Path, path: seq<string>, k: nat)
    requires k < |path| && forall q | at + [path[k]] <= q :: q !in tree
    ensures at + Parent(path)[k..] + [path[|path| - 1]] !in Laid(tree[at := Directory], at, Parent(path)[k..])
  {
    hide Laid;
    var names, name := Parent(path)[k..], path[|path| - 1];
    assert names + [name] == path[k..];
    LeafPath(at, names, name);
    NewLeaf(tree[at := Directory], at, names, name);
  }

  lemma NewLeaf(tree: Tree, at: Path, names: seq<string>, name: string)
    requires forall q | at + [(names + [name])[0]] <= q :: q !in tree
    ensures at + (names + [name]) !in Laid(tree, at, names)
  {
    hide Between;
    var leaf := at + (names + [name]);
    assert leaf[..|at| + 1] == at + [(names + [name])[0]];
    BetweenIff(at, names + [""], leaf);
  }

  /** Once its directory is made, the target leads to the leaf. */
  lemma LeafFound(tree: Tree, links: nat, target: seq<string>)
    requires WellFormed(tree) && target != [] && Normal(target[|target| - 1])
    requires EnsureTarget(tree, links, Parent(target)).0
    ensures var ready := EnsureTarget(tree, links, Parent(target)).1;
      && Finds(Resolve(ready, target, links), LeafAt(tree, links, target))
      && IsDirectory(ready, Parent(LeafAt(tree, links, target)))
  {
    hide Follow, Laid, Deepest, DeepestAt;
    var parent := Parent(target);
    var k, at := Deepest(tree, links, parent), DeepestAt(tree, links, parent);
    LaidResolves(tree, links, parent, parent[k..]);
    assert parent[..k] + parent[k..] == parent;
    var ready := EnsureTarget(tree, links, parent).1;
    ChildFound(ready, links, target);
    assert target[k..] == parent[k..] + [target[|target| - 1]];
    assert LeafAt(tree, links, target) == at + parent[k..] + [target[|target| - 1]];
  }

  // --------------------------------------------------------------- theorems

  /** Making a directory, on every well-formed tree. On success the path leads to
      a directory: the names after the longest part that was there, below where
      that part leads. Nothing changes exactly when the path led to a directory
      already; otherwise the one node at the end of that part gives way, all
      other nodes stay, and only directories below it are new. */
  lemma EnsureTargetFacts(tree: Tree, links: nat, path: seq<string>)
    requires WellFormed(tree)
    ensures var (ok, after) := EnsureTarget(tree, links, path);
      var k, at := Deepest(tree, links, path), DeepestAt(tree, links, path);
      && WellFormed(after)
      && (ok ==> Finds(Resolve(after, path, links), at + path[k..]) && IsDirectory(after, at + path[k..]) && IsDirectory(after, at))
      && (ok && after == tree <==> Lstat(tree, path, links) == Present(Directory))
      && (forall p | p in tree && p != at :: p in after && after[p] == tree[p])
      && (at in after ==> after[at] == tree[at] || after[at] == Directory)
      && (at !in after ==> !ok && after == tree - {at} && tree[at].Link?)
      && (forall p | p in after && p !in tree :: after[p] == Directory && at < p <= at + path[k..])
  {
    hide Follow, Laid, WellFormed, Deepest, DeepestAt, EnsureTarget, Plain, Resolve;
    EnsureLands(tree, links, path);
    EnsureNodes(tree, links, path);
  }

  lemma EnsureLands(tree: Tree, links: nat, path: seq<string>)
    requires WellFormed(tree)
    ensures var (ok, after) := EnsureTarget(tree, links, path);
      var k, at := Deepest(tree, links, path), DeepestAt(tree, links, path);
      && (ok ==> Finds(Resolve(after, path, links), at + path[k..]) && IsDirectory(after, at + path[k..]) && IsDirectory(after, at))
      && (ok && after == tree <==> Lstat(tree, path, links) == Present(Directory))
  {
    hide Follow, Laid, WellFormed, Deepest, DeepestAt, EnsureTarget, Plain;
    var k, at := Deepest(tree, links, path), DeepestAt(tree, links, path);
    EnsurePresent(tree, links, path);
    if EnsureTarget(tree, links, path).0 {
      EnsureUnfolds(tree, links, path);
      LaidResolves(tree, links, path, path[k..]);
      assert path[..k] + path[k..] == path;
    }
  }

  lemma EnsureNodes(tree: Tree, links: nat, path: seq<string>)
    requires WellFormed(tree)
    ensures var (ok, after) := EnsureTarget(tree, links, path);
      var k, at := Deepest(tree, links, path), DeepestAt(tree, links, path);
      && WellFormed(after)
      && (forall p | p in tree && p != at :: p in after && after[p] == tree[p])
      && (at in after ==> after[at] == tree[at] || after[at] == Directory)
      && (at !in after ==> !ok && after == tree - {at} && tree[at].Link?)
      && (forall p | p in after && p !in tree :: after[p] == Directory && at < p <= at + path[k..])
  {
    hide Follow, Laid, WellFormed, Deepest, DeepestAt, EnsureTarget, Plain;
    var k, at := Deepest(tree, links, path), DeepestAt(tree, links, path);
    if Lstat(tree, path, links) == Unresolvable {
      EnsurePresent(tree, links, path);
    } else {
      EnsureUnfolds(tree, links, path);
      if tree[at] == Directory || Finds(Resolve(tree - {at}, path[..k], links), at) {
        var names := PlainPart(path[k..]);
        LaidResolves(tree, links, path, names);
        PrefixBelow(at, names, path[k..]);
      } else {
        LostIsLink(tree, links, path);
      }
    }
  }

  lemma PrefixBelow(at: Path, names: seq<string>, all: seq<string>)
    requires names <= all
    ensures at + names <= at + all
  {
  }

  /** Only a link can stand in the way of its own path. */
  lemma LostIsLink(tree: Tree, links: nat, path: seq<string>)
    requires WellFormed(tree)
    requires var k, at := Deepest(tree, links, path), DeepestAt(tree, links, path);
      tree[at] != Directory && !Finds(Resolve(tree - {at}, path[..k], links), at)
    ensures var at := DeepestAt(tree, links, path);
      tree[at].Link? && WellFormed(tree - {at})
  {
    hide Follow;
    var k, at := Deepest(tree, links, path), DeepestAt(tree, links, path);
    LeafKeepsWellFormed(tree, at, Directory);
    if !tree[at].Link? {
      FollowOnce(tree, at, [], path[..k], links);
    }
  }

  /** The longest part that is there leads to itself exactly when no link stands
      above its end. */
  lemma DeepestIsItself(tree: Tree, links: nat, path: seq<string>)
    requires WellFormed(tree) && Plain(path)
    ensures var k := Deepest(tree, links, path);
      DeepestAt(tree, links, path) == path[..k] <==> forall j | 0 <= j < k :: IsDirectory(tree, path[..j])
  {
    hide Follow, WellFormed, Deepest;
    var k, at := Deepest(tree, links, path), DeepestAt(tree, links, path);
    var there := path[..k];
    assert forall j | 0 <= j < k :: there[..j] == path[..j];
    if at == there {
      forall j | 0 <= j < k
        ensures IsDirectory(tree, path[..j])
      {
        PrefixesPresent(tree, there, j);
      }
    }
    if forall j | 0 <= j < k :: IsDirectory(tree, path[..j]) {
      assert forall j | 1 <= j < |there| :: [] + there[..j] == path[..j];
      FollowDown(tree, [], there, links);
      assert [] + there == there;
    }
  }

  /** The comment on the code promises that a link is replaced and not followed.
      It holds exactly when no link stands above the end of the longest part of
      the path that is there: then, and only then, the directory made is at the
      path itself. */
  lemma StaysIffNoLinkAbove(tree: Tree, links: nat, path: seq<string>)
    requires WellFormed(tree) && Plain(path) && EnsureTarget(tree, links, path).0
    ensures var after, k := EnsureTarget(tree, links, path).1, Deepest(tree, links, path);
      Finds(Resolve(after, path, links), path) <==> forall j | 0 <= j < k :: IsDirectory(tree, path[..j])
  {
    hide Follow, WellFormed, Deepest, DeepestAt, EnsureTarget;
    var k, at := Deepest(tree, links, path), DeepestAt(tree, links, path);
    EnsureTargetFacts(tree, links, path);
    DeepestIsItself(tree, links, path);
    assert path[..k] + path[k..] == path;
    if at + path[k..] == path {
      assert |at| == k && path[..k] == (at + path[k..])[..k] == at;
    }
  }

  /** A link that is followed: the directory behind it already has the name. */
  lemma LinkIsFollowed(link: string, behind: string, name: string) returns (tree: Tree)
    requires Normal(link) && Normal(behind) && Normal(name) && link != behind
    ensures WellFormed(tree) && [link] in tree && tree[[link]].Link?
    ensures forall links: nat | links > 0 ::
      && EnsureTarget(tree, links, [link, name]) == (true, tree)
      && Finds(Resolve(tree, [link, name], links), [behind, name])
  {
    hide WellFormed, EnsureTarget, Parent;
    tree := TwoLevels(link, Link([behind]), behind, name, Directory);
    assert [link][0] == link && [behind][0] == behind;
    forall links: nat | links > 0
      ensures EnsureTarget(tree, links, [link, name]) == (true, tree)
      ensures Finds(Resolve(tree, [link, name], links), [behind, name])
    {
      LinkLeads(tree, link, behind, name, links);
      EnsurePresent(tree, links, [link, name]);
    }
  }

  lemma AddNode(tree: Tree, p: Path, node: Node)
    requires WellFormed(tree) && p != [] && IsDirectory(tree, Parent(p)) && p !in tree
    ensures WellFormed(tree[p := node])
  {
    hide WellFormed;
    LeafKeepsWellFormed(tree, p, node);
  }

  lemma Parents(first: string, second: string)
    ensures Parent([first]) == [] && Parent([first, second]) == [first]
  {
  }

  /** A node beside a directory that holds another. */
  lemma TwoLevels(first: string, node: Node, dir: string, name: string, inner: Node) returns (tree: Tree)
    requires first != dir
    ensures WellFormed(tree) && tree == map[[] := Directory][[first] := node][[dir] := Directory][[dir, name] := inner]
  {
    tree := map[[] := Directory];
    assert WellFormed(tree);
    hide WellFormed, Parent;
    Parents(first, name);
    Parents(dir, name);
    AddNode(tree, [first], node);
    tree := tree[[first] := node];
    assert [first][0] != [dir][0];
    AddNode(tree, [dir], Directory);
    tree := tree[[dir] := Directory];
    AddNode(tree, [dir, name], inner);
    tree := tree[[dir, name] := inner];
  }

  lemma LinkLeads(tree: Tree, link: string, behind: string, name: string, links: nat)
    requires Normal(link) && Normal(behind) && Normal(name) && links > 0
    requires [link] in tree && tree[[link]] == Link([behind]) && IsDirectory(tree, [behind]) && [behind, name] in tree
    ensures Finds(Resolve(tree, [link, name], links), [behind, name])
  {
    assert [link, name][1..] == [name] && [behind, name][1..] == [name];
    assert [] + [link] == [link] && [] + [behind] == [behind] && [behind] + [name] == [behind, name];
    assert Follow(tree, [behind], [name], links - 1).at == [behind, name];
    assert Follow(tree, [], [behind, name], links - 1).at == [behind, name];
  }

  /** Reading a source again gives the node seen before, if the path still leads
      to it, and nothing, if the path leads nowhere. */
  lemma ReadAgainIs(tree: Tree, links: nat, node: Node, source: seq<string>)
    requires Copyable(node)
    ensures Lstat(tree, source, links) == Present(node) ==> ReadAgain(tree, links, node, source) == Some(node)
    ensures Lstat(tree, source, links) == Absent ==> ReadAgain(tree, links, node, source) == None
  {
    hide Follow, Open;
    OpenAgrees(tree, [], source, links);
  }

  lemma ClearedLeaf(tree: Tree, leaf: Path)
    requires WellFormed(tree) && (IsDirectory(tree, leaf) ==> Empty(tree, leaf))
    ensures Cleared(tree, leaf) == tree - {leaf}
  {
    hide WellFormed, Empty;
    forall p | p in tree && leaf <= p
      ensures p == leaf
    {
      if leaf != p {
        ChildOf(tree, p, leaf);
      }
    }
    assert leaf !in tree ==> tree - {leaf} == tree;
    assert leaf in tree ==> Without(tree, leaf) == tree - {leaf};
  }

  /** Once its directory is made, the leaf is the empty directory, file or link
      that was there before, or nothing. */
  lemma LeafIsFree(tree: Tree, links: nat, target: seq<string>)
    requires WellFormed(tree) && target != [] && Normal(target[|target| - 1])
    requires EnsureTarget(tree, links, Parent(target)).0 && !TargetInUse(tree, links, target)
    ensures var ready, leaf := EnsureTarget(tree, links, Parent(target)).1, LeafAt(tree, links, target);
      && WellFormed(ready)
      && (IsDirectory(ready, leaf) ==> Empty(ready, leaf))
      && (leaf in ready ==> ready == tree)
  {
    hide Follow, WellFormed, Deepest, DeepestAt, EnsureTarget, Empty;
    EnsureTargetFacts(tree, links, Parent(target));
    EnsurePresent(tree, links, Parent(target));
    LeafFound(tree, links, target);
    if Lstat(tree, Parent(target), links) != Present(Directory) {
      LeafIsNew(tree, links, target);
    }
  }

  lemma LeafIsNew(tree: Tree, links: nat, target: seq<string>)
    requires WellFormed(tree) && target != [] && Normal(target[|target| - 1])
    requires EnsureTarget(tree, links, Parent(target)).0 && Lstat(tree, Parent(target), links) != Present(Directory)
    ensures LeafAt(tree, links, target) !in EnsureTarget(tree, links, Parent(target)).1
  {
    hide Follow, WellFormed, Deepest, DeepestAt, EnsureTarget;
    var parent := Parent(target);
    var k, at, leaf := Deepest(tree, links, parent), DeepestAt(tree, links, parent), LeafAt(tree, links, target);
    EnsureTargetFacts(tree, links, parent);
    LeafBelow(tree, links, target);
    assert target[k..][0] == target[k] && at + [target[k]] <= leaf;
    if k < |parent| {
      NewBelow(tree, links, parent);
      assert parent[k] == target[k];
      PlainNames(tree, links, parent);
    } else {
      assert parent[..k] == parent;
      NothingUnder(tree, at, at + [target[k]], leaf);
    }
  }

  lemma PlainNames(tree: Tree, links: nat, path: seq<string>)
    requires WellFormed(tree) && EnsureTarget(tree, links, path).0 && Deepest(tree, links, path) < |path|
    ensures Normal(path[Deepest(tree, links, path)])
  {
    hide Follow, WellFormed, Deepest, DeepestAt, Laid, PlainPart;
    var names := path[Deepest(tree, links, path)..];
    assert names[0] == path[Deepest(tree, links, path)];
  }

  /** A leaf was put in place below `at`, and nothing else happened. */
  ghost predicate Placed(tree: Tree, after: Tree, at: Path, leaf: Path) {
    && leaf in after && Copyable(after[leaf])
    && IsDirectory(after, at)
    && (forall p | p in tree && p != leaf && p != at :: p in after && after[p] == tree[p])
    && (forall p | p in after && p !in tree && p != leaf :: after[p] == Directory && at < p < leaf)
  }

  /** Every leaf copy, on every well-formed tree. Success: the leaf holds what the
      source held when it was read, which is the node seen first unless the
      source path went through the node that gave way; all other nodes are as
      they were, that one is a directory, and only directories down to the leaf
      are new. The first three refusals leave the tree unchanged, the fourth what
      making the directory left, and the last that without the leaf. */
  lemma LeafCopyFacts(tree: Tree, links: nat, source: seq<string>, target: seq<string>)
    requires WellFormed(tree) && target != [] && Normal(target[|target| - 1])
    ensures var (outcome, after) := LeafEffect(tree, links, source, target);
      var at, leaf := DeepestAt(tree, links, Parent(target)), LeafAt(tree, links, target);
      && (outcome.Copied? ==>
            && Placed(tree, after, at, leaf)
            && (tree[at] == Directory || at !in Goes(tree, source, links) ==>
                  Lstat(tree, source, links) == Present(after[leaf])))
      && (outcome.Refused? && outcome.why in {TargetNotEmpty, SourceUnreadable, SourceUnsupported} ==> after == tree)
      && (outcome == Refused(ParentNotMade) ==> after == EnsureTarget(tree, links, Parent(target)).1)
      && (outcome == Refused(Lost) ==> after == EnsureTarget(tree, links, Parent(target)).1 - {leaf})
  {
    hide Follow, WellFormed, Deepest, DeepestAt, EnsureTarget, Empty, Resolve, Put, Lstat;
    hide TargetInUse, LeafAt, Placed;
    var status := Lstat(tree, source, links);
    if !TargetInUse(tree, links, target) && status.Present? && Copyable(status.node)
       && EnsureTarget(tree, links, Parent(target)).0 {
      PutFacts(tree, links, source, target, Lstat(tree, source, links).node);
    }
  }

  /** The last part of a leaf copy, once the target's directory is made. */
  lemma PutFacts(tree: Tree, links: nat, source: seq<string>, target: seq<string>, node: Node)
    requires WellFormed(tree) && target != [] && Normal(target[|target| - 1])
    requires !TargetInUse(tree, links, target) && EnsureTarget(tree, links, Parent(target)).0
    requires Lstat(tree, source, links) == Present(node) && Copyable(node)
    ensures var ready, leaf := EnsureTarget(tree, links, Parent(target)).1, LeafAt(tree, links, target);
      var (outcome, after) := Put(ready, links, node, source, target, leaf);
      var at := DeepestAt(tree, links, Parent(target));
      && (outcome == Refused(Lost) ==> after == ready - {leaf})
      && (outcome.Refused? ==> outcome == Refused(Lost))
      && (outcome.Copied? ==>
            && Placed(tree, after, at, leaf)
            && (tree[at] == Directory || at !in Goes(tree, source, links) ==> after[leaf] == node))
  {
    hide Follow, WellFormed, Deepest, DeepestAt, EnsureTarget, Empty, Open, ReadAgain, Cleared;
    var parent := Parent(target);
    var k, at := Deepest(tree, links, parent), DeepestAt(tree, links, parent);
    var ready, leaf := EnsureTarget(tree, links, parent).1, LeafAt(tree, links, target);
    EnsureTargetFacts(tree, links, parent);
    LeafIsFree(tree, links, target);
    ClearedLeaf(ready, leaf);
    LeafBelow(tree, links, target);
    TopIsDirectory(tree);
    var read := ReadAgain(ready - {leaf}, links, node, source);
    if read.Some? {
      CopyableRead(ready - {leaf}, links, node, source);
      NodesAfter(tree, ready, at, at + parent[k..], leaf, read.value);
      if tree[at] == Directory || at !in Goes(tree, source, links) {
        SourceKept(tree, ready, links, source, at, leaf, node);
      }
    }
  }

  lemma NodesAfter(tree: Tree, ready: Tree, at: Path, end: Path, leaf: Path, node: Node)
    requires at <= end < leaf && IsDirectory(ready, at)
    requires forall p | p in tree && p != at :: p in ready && ready[p] == tree[p]
    requires forall p | p in ready && p !in tree :: ready[p] == Directory && at < p <= end
    ensures var after := (ready - {leaf})[leaf := node];
      && leaf in after && after[leaf] == node && IsDirectory(after, at)
      && (forall p | p in tree && p != leaf && p != at :: p in after && after[p] == tree[p])
      && (forall p | p in after && p !in tree && p != leaf :: after[p] == Directory && at < p < leaf)
  {
  }

  lemma TopIsDirectory(tree: Tree)
    requires WellFormed(tree)
    ensures IsDirectory(tree, [])
  {
  }

  lemma CopyableRead(tree: Tree, links: nat, node: Node, source: seq<string>)
    ensures var read := ReadAgain(tree, links, node, source); read.Some? ==> Copyable(read.value)
  {
    hide Open, Lstat;
  }

  lemma LeafBelow(tree: Tree, links: nat, target: seq<string>)
    requires WellFormed(tree) && target != []
    ensures var k, at := Deepest(tree, links, Parent(target)), DeepestAt(tree, links, Parent(target));
      at < LeafAt(tree, links, target) && at + Parent(target)[k..] < LeafAt(tree, links, target)
  {
    hide Deepest, DeepestAt, WellFormed;
    var k := Deepest(tree, links, Parent(target));
    assert target[k..] == Parent(target)[k..] + [target[|target| - 1]];
  }

  /** A source whose path avoids the node that gave way is read as it was, or not
      at all. */
  lemma SourceKept(tree: Tree, ready: Tree, links: nat, source: seq<string>, at: Path, leaf: Path, node: Node)
    requires Lstat(tree, source, links) == Present(node) && Copyable(node)
    requires forall p | p in tree && p != at :: p in ready && ready[p] == tree[p]
    requires IsDirectory(tree, []) && at in ready
    requires (at in tree && tree[at] == ready[at]) || at !in Resolve(tree, source, links).via
    ensures Lstat(ready, source, links) == Present(node) && Resolve(ready, source, links) == Resolve(tree, source, links)
    ensures leaf !in Resolve(tree, source, links).via ==> ReadAgain(ready - {leaf}, links, node, source) == Some(node)
    ensures leaf in Resolve(tree, source, links).via ==> ReadAgain(ready - {leaf}, links, node, source) == None
  {
    hide Follow, Open, ReadAgain;
    var from := Resolve(tree, source, links);
    FollowAgrees(tree, ready, [], source, links);
    FollowPassesAncestors(tree, [], source, links, from.at);
    ReadAgainIs(ready - {leaf}, links, node, source);
    if leaf in from.via {
      FollowBroken(ready, leaf, [], source, links);
    } else {
      FollowAgrees(ready, ready - {leaf}, [], source, links);
    }
  }

  /** A path below a directory is found again without its leaf exactly when the
      way to the directory avoids the leaf. */
  lemma TargetAgain(tree: Tree, links: nat, root: seq<string>, base: Path, relative: Path)
    requires Finds(Resolve(tree, root, links), base) && IsDirectory(tree, base) && relative != []
    requires forall i | 0 <= i < |relative| :: Normal(relative[i])
    requires forall j | 1 <= j < |relative| :: IsDirectory(tree, base + relative[..j])
    ensures Finds(Resolve(tree - {base + relative}, root + relative, links), base + relative)
      <==> base + relative !in Goes(tree, root, links)
  {
    hide Follow;
    var leaf := base + relative;
    var cleared := tree - {leaf};
    if leaf in Goes(tree, root, links) {
      FollowBroken(tree, leaf, [], root, links);
      FollowFails(cleared, [], root, relative, links);
    } else {
      FollowAgrees(tree, cleared, [], root, links);
      FollowExtended(cleared, [], root, relative, links);
    }
  }

  /** The node at the end of the target's present directory gives way, and the
      source is reached through it. */
  ghost predicate ReachedThrough(tree: Tree, links: nat, source: seq<string>, target: seq<string>)
    requires WellFormed(tree) && target != []
  {
    var at := DeepestAt(tree, links, Parent(target));
    tree[at] != Directory && at in Goes(tree, source, links)
  }

  /** What stands in the way of no copy yet: the target is free, the source can be
      copied, and the target's directory can be made. */
  ghost predicate Usable(tree: Tree, links: nat, source: seq<string>, target: seq<string>)
    requires WellFormed(tree) && target != []
  {
    && !TargetInUse(tree, links, target)
    && Lstat(tree, source, links).Present? && Copyable(Lstat(tree, source, links).node)
    && EnsureTarget(tree, links, Parent(target)).0
  }

  /** When a leaf copy succeeds and what it then copies, on every tree with links.
      A source not reached through the node that gives way is copied exactly when
      neither its path nor the way to the target's directory goes through the
      leaf, and is lost otherwise. A source reached through it is looked up again
      through the new directory: exactly when something of its kind is found
      there, that is copied. */
  lemma LeafCopiedIff(tree: Tree, links: nat, source: seq<string>, target: seq<string>)
    requires WellFormed(tree) && target != [] && Normal(target[|target| - 1])
    ensures var (outcome, after) := LeafEffect(tree, links, source, target);
      var ready, leaf := EnsureTarget(tree, links, Parent(target)).1, LeafAt(tree, links, target);
      && (outcome.Copied? ==> Usable(tree, links, source, target) && leaf in after)
      && (Usable(tree, links, source, target) ==>
            var node := Lstat(tree, source, links).node;
            && (!outcome.Copied? ==> outcome == Refused(Lost) && after == ready - {leaf})
            && if ReachedThrough(tree, links, source, target) then
                 && (outcome.Copied? <==> ReadAgain(ready, links, node, source).Some?)
                 && (outcome.Copied? ==> ReadAgain(ready, links, node, source) == Some(after[leaf]))
               else
                 && (outcome.Copied? <==> leaf !in Goes(tree, source, links) && leaf !in Goes(ready, Parent(target), links))
                 && (outcome.Copied? ==> after[leaf] == node))
  {
    hide Follow, WellFormed, Deepest, DeepestAt, EnsureTarget, TargetInUse, ReadAgain, Put, LeafAt, Goes;
    if Usable(tree, links, source, target) {
      if ReachedThrough(tree, links, source, target) {
        PutThroughGivenWay(tree, links, source, target);
      } else {
        PutOtherwise(tree, links, source, target);
      }
    }
  }

  lemma PutThroughGivenWay(tree: Tree, links: nat, source: seq<string>, target: seq<string>)
    requires WellFormed(tree) && target != [] && Normal(target[|target| - 1])
    requires Usable(tree, links, source, target) && ReachedThrough(tree, links, source, target)
    ensures var ready, leaf := EnsureTarget(tree, links, Parent(target)).1, LeafAt(tree, links, target);
      var node := Lstat(tree, source, links).node;
      var read := ReadAgain(ready, links, node, source);
      Put(ready, links, node, source, target, leaf)
        == if read.Some? then (Copied, ready[leaf := read.value]) else (Refused(Lost), ready - {leaf})
  {
    hide Follow, WellFormed, Deepest, DeepestAt, EnsureTarget, TargetInUse, ReadAgain, LeafAt;
    var ready, leaf := EnsureTarget(tree, links, Parent(target)).1, LeafAt(tree, links, target);
    GivenWay(tree, links, Parent(target));
    LeafIsNew(tree, links, target);
    LeafFound(tree, links, target);
    assert ready - {leaf} == ready;
  }

  /** Only a directory is made without anything giving way. */
  lemma GivenWay(tree: Tree, links: nat, path: seq<string>)
    requires WellFormed(tree) && tree[DeepestAt(tree, links, path)] != Directory
    ensures Lstat(tree, path, links) != Present(Directory)
  {
    hide Follow;
    assert path[..|path|] == path;
  }

  lemma PutOtherwise(tree: Tree, links: nat, source: seq<string>, target: seq<string>)
    requires WellFormed(tree) && target != [] && Normal(target[|target| - 1])
    requires Usable(tree, links, source, target) && !ReachedThrough(tree, links, source, target)
    ensures var ready, leaf := EnsureTarget(tree, links, Parent(target)).1, LeafAt(tree, links, target);
      var node := Lstat(tree, source, links).node;
      Put(ready, links, node, source, target, leaf) ==
        if leaf !in Goes(tree, source, links) && leaf !in Goes(ready, Parent(target), links)
        then (Copied, (ready - {leaf})[leaf := node]) else (Refused(Lost), ready - {leaf})
  {
    hide Follow, WellFormed, Deepest, DeepestAt, EnsureTarget, Empty, Open, ReadAgain, Cleared;
    var parent, name := Parent(target), target[|target| - 1];
    var k, at := Deepest(tree, links, parent), DeepestAt(tree, links, parent);
    var ready, leaf := EnsureTarget(tree, links, parent).1, LeafAt(tree, links, target);
    EnsureTargetFacts(tree, links, parent);
    LeafIsFree(tree, links, target);
    ClearedLeaf(ready, leaf);
    TopIsDirectory(tree);
    SourceKept(tree, ready, links, source, at, leaf, Lstat(tree, source, links).node);
    assert target[k..] == parent[k..] + [name] && leaf == at + parent[k..] + [name] && parent + [name] == target;
    TargetAgain(ready, links, parent, at + parent[k..], [name]);
  }

  /** A leaf copy that succeeds with other content: the source is reached through
      a link and back up, the link gives way to the target's directory, and the
      same path then leads to another file. Such a tree is returned, for any
      names and contents. */
  lemma OtherContentCopied(link: string, dir: string, inner: string, name: string, leafName: string,
                           wanted: Node, other: Node, links: nat) returns (tree: Tree)
    requires Normal(link) && Normal(dir) && Normal(inner) && Normal(name) && Normal(leafName) && links > 0
    requires link != dir && link != name && dir != name && inner != name && wanted.File? && other.File?
    ensures WellFormed(tree)
    ensures Lstat(tree, [link, "..", name], links) == Present(wanted)
    ensures var (outcome, after) := LeafEffect(tree, links, [link, "..", name], [link, leafName]);
      outcome.Copied? && [link, leafName] in after && after[[link, leafName]] == File(other.content, wanted.mode)
  {
    hide WellFormed, LeafEffect, Lstat, Parent;
    tree := TwoLevels(link, Link([dir, inner]), dir, inner, Directory);
    Parents(dir, name);
    Parents(name, name);
    assert [name][0] == name && [dir][0] == dir && [link][0] == link && [dir, inner][1] == inner && [dir, name][1] == name;
    AddNode(tree, [dir, name], wanted);
    tree := tree[[dir, name] := wanted];
    AddNode(tree, [name], other);
    tree := tree[[name] := other];
    OtherContent(tree, link, dir, inner, name, leafName, links);
  }

  lemma OtherContent(tree: Tree, link: string, dir: string, inner: string, name: string, leafName: string, links: nat)
    requires Normal(link) && Normal(dir) && Normal(inner) && Normal(name) && Normal(leafName) && links > 0 && link != name
    requires WellFormed(tree) && [link] in tree && tree[[link]] == Link([dir, inner])
    requires IsDirectory(tree, [dir]) && IsDirectory(tree, [dir, inner]) && [dir, inner, leafName] !in tree
    requires [dir, name] in tree && tree[[dir, name]].File? && [name] in tree && tree[[name]].File?
    ensures Lstat(tree, [link, "..", name], links) == Present(tree[[dir, name]])
    ensures var (outcome, after) := LeafEffect(tree, links, [link, "..", name], [link, leafName]);
      outcome.Copied? && [link, leafName] in after
      && after[[link, leafName]] == File(tree[[name]].content, tree[[dir, name]].mode)
  {
    hide WellFormed, EnsureTarget, LeafEffect, Deepest, DeepestAt, Follow, Open;
    var source, target := [link, "..", name], [link, leafName];
    assert Parent(target) == [link];
    ThroughLink(tree, link, dir, inner, name, links);
    ThroughLinkToNothing(tree, link, dir, inner, leafName, links);
    LinkGivesWay(tree, link, links);
    UpFromDirectory(tree[[link] := Directory], link, name, links);
    LeafCopiedIff(tree, links, source, target);
    LeafBelowLink(tree, link, leafName, links);
  }

  lemma ThroughLink(tree: Tree, link: string, dir: string, inner: string, name: string, links: nat)
    requires Normal(link) && Normal(dir) && Normal(inner) && Normal(name) && links > 0
    requires [link] in tree && tree[[link]] == Link([dir, inner])
    requires IsDirectory(tree, [dir]) && IsDirectory(tree, [dir, inner])
    ensures Finds(Resolve(tree, [link, "..", name], links), [dir, name]) && [link] in Goes(tree, [link, "..", name], links)
  {
    var rest := ["..", name];
    assert [link, "..", name][1..] == rest && rest[1..] == [name];
    assert [] + [link] == [link] && [] + [dir] == [dir] && [dir] + [inner] == [dir, inner] && [dir] + [name] == [dir, name];
    var expanded := [dir, inner] + rest;
    assert expanded[1..] == [inner] + rest && expanded[1..][1..] == rest;
    assert Parent([dir, inner]) == [dir];
    assert Follow(tree, [dir], [name], links - 1).at == [dir, name];
    assert Follow(tree, [dir, inner], rest, links - 1).at == [dir, name];
    assert Follow(tree, [dir], [inner] + rest, links - 1).at == [dir, name];
    assert Follow(tree, [], expanded, links - 1).at == [dir, name];
  }

  lemma ThroughLinkToNothing(tree: Tree, link: string, dir: string, inner: string, leafName: string, links: nat)
    requires Normal(link) && Normal(dir) && Normal(inner) && Normal(leafName) && links > 0
    requires [link] in tree && tree[[link]] == Link([dir, inner])
    requires IsDirectory(tree, [dir]) && IsDirectory(tree, [dir, inner]) && [dir, inner, leafName] !in tree
    ensures Lstat(tree, [link, leafName], links) == Absent
  {
    assert [link, leafName][1..] == [leafName];
    assert [] + [link] == [link] && [] + [dir] == [dir] && [dir] + [inner] == [dir, inner];
    var expanded := [dir, inner] + [leafName];
    assert expanded[1..] == [inner, leafName] && expanded[1..][1..] == [leafName];
    assert [dir, inner] + [leafName] == [dir, inner, leafName];
    assert Follow(tree, [dir, inner], [leafName], links - 1).at == [dir, inner, leafName];
    assert Follow(tree, [dir], [inner, leafName], links - 1).at == [dir, inner, leafName];
    assert Follow(tree, [], expanded, links - 1).at == [dir, inner, leafName];
  }

  lemma LinkGivesWay(tree: Tree, link: string, links: nat)
    requires WellFormed(tree) && Normal(link) && [link] in tree && tree[[link]].Link?
    ensures EnsureTarget(tree, links, [link]) == (true, tree[[link] := Directory])
    ensures Deepest(tree, links, [link]) == 1 && DeepestAt(tree, links, [link]) == [link]
  {
    hide WellFormed, EnsureTarget;
    assert [] + [link] == [link] && [link][..1] == [link];
    EnsurePresent(tree, links, [link]);
    assert (tree - {[link]})[[link] := Directory] == tree[[link] := Directory];
  }

  lemma UpFromDirectory(tree: Tree, link: string, name: string, links: nat)
    requires Normal(link) && Normal(name) && IsDirectory(tree, [link]) && [name] in tree && tree[[name]].File?
    ensures Open(tree, [], [link, "..", name], links) == Some(tree[[name]])
  {
    assert [link, "..", name][1..] == ["..", name] && ["..", name][1..] == [name] && [name][1..] == [];
    assert [] + [link] == [link] && [] + [name] == [name] && Parent([link]) == [];
    assert Open(tree, [], [name], links) == Some(tree[[name]]);
    assert Open(tree, [link], ["..", name], links) == Some(tree[[name]]);
  }

  lemma LeafBelowLink(tree: Tree, link: string, leafName: string, links: nat)
    requires WellFormed(tree) && Normal(link) && [link] in tree && tree[[link]].Link?
    ensures LeafAt(tree, links, [link, leafName]) == [link, leafName]
  {
    hide WellFormed;
    LinkGivesWay(tree, link, links);
    assert Parent([link, leafName]) == [link] && [link, leafName][1..] == [leafName];
  }

  /** On plain paths with no link above the part of the target's directory that
      is there, an otherwise acceptable copy succeeds exactly when the source is
      neither the target nor above it; otherwise the source is destroyed. */
  lemma LeafCopiesUnlessAbove(tree: Tree, links: nat, source: seq<string>, target: seq<string>)
    requires WellFormed(tree) && Plain(source) && Plain(target) && target != []
    requires source in tree && Copyable(tree[source]) && !TargetInUse(tree, links, target)
    requires Lstat(tree, Parent(target), links) != Unresolvable
    requires forall j | 0 <= j < Deepest(tree, links, Parent(target)) :: IsDirectory(tree, target[..j])
    ensures var (outcome, after) := LeafEffect(tree, links, source, target);
      && (outcome.Copied? <==> !(source <= target))
      && (outcome.Copied? ==> target in after && after[target] == tree[source])
      && (source <= target ==> outcome == Refused(Lost) && (source in after ==> after[source] == Directory))
  {
    hide Follow, WellFormed, Deepest, DeepestAt, EnsureTarget, Empty, Open, ReadAgain, Cleared;
    var node := tree[source];
    PlainResolves(tree, links, source);
    ReadyAtTarget(tree, links, target);
    PutFacts(tree, links, source, target, node);
    var ready := EnsureTarget(tree, links, Parent(target)).1;
    LeafIsFree(tree, links, target);
    ClearedLeaf(ready, target);
    if source <= target {
      SourceGone(tree, links, source, target);
    } else {
      SourceStays(tree, links, source, target);
      assert target in LeafEffect(tree, links, source, target).1;
    }
  }

  /** With no link above it, the target's directory is made at its own path. */
  lemma ReadyAtTarget(tree: Tree, links: nat, target: seq<string>)
    requires WellFormed(tree) && Plain(target) && target != []
    requires Lstat(tree, Parent(target), links) != Unresolvable
    requires forall j | 0 <= j < Deepest(tree, links, Parent(target)) :: IsDirectory(tree, target[..j])
    ensures var (made, ready) := EnsureTarget(tree, links, Parent(target));
      && made && WellFormed(ready) && LeafAt(tree, links, target) == target
      && DeepestAt(tree, links, Parent(target)) == target[..Deepest(tree, links, Parent(target))]
      && IsDirectory(ready, Parent(target))
      && Finds(Resolve(ready - {target}, target, links), target)
  {
    hide Follow, WellFormed, Deepest, DeepestAt, EnsureTarget;
    var parent := Parent(target);
    var k, at := Deepest(tree, links, parent), DeepestAt(tree, links, parent);
    assert parent[..k] == target[..k] && forall j | 0 <= j < k :: parent[..j] == target[..j];
    DeepestIsItself(tree, links, parent);
    MadeAtItself(tree, links, parent);
    EnsureTargetFacts(tree, links, parent);
    assert at + parent[k..] == parent && at + target[k..] == target;
    FoundWhenCleared(EnsureTarget(tree, links, parent).1, links, target);
  }

  lemma MadeAtItself(tree: Tree, links: nat, path: seq<string>)
    requires WellFormed(tree) && Plain(path) && Lstat(tree, path, links) != Unresolvable
    requires forall j | 0 <= j < Deepest(tree, links, path) :: IsDirectory(tree, path[..j])
    ensures EnsureTarget(tree, links, path).0
  {
    hide Follow, WellFormed, Deepest, DeepestAt, EnsureTarget, Laid;
    var k, at := Deepest(tree, links, path), DeepestAt(tree, links, path);
    DeepestIsItself(tree, links, path);
    EnsureUnfolds(tree, links, path);
    if tree[at] != Directory {
      assert forall j | 1 <= j < k :: [] + at[..j] == path[..j];
      FollowDown(tree - {at}, [], at, links);
      assert [] + at == at;
    }
  }

  lemma FoundWhenCleared(tree: Tree, links: nat, target: seq<string>)
    requires WellFormed(tree) && Plain(target) && target != [] && IsDirectory(tree, Parent(target))
    ensures Finds(Resolve(tree - {target}, target, links), target)
  {
    hide Follow, WellFormed;
    var parent := Parent(target);
    forall j | 1 <= j < |target|
      ensures IsDirectory(tree - {target}, [] + target[..j])
    {
      assert [] + target[..j] == target[..j] == parent[..j];
      if j < |parent| {
        PrefixesPresent(tree, parent, j);
      } else {
        assert parent[..j] == parent;
      }
    }
    FollowDown(tree - {target}, [], target, links);
    assert [] + target == target;
  }

  /** A source at or above the target is not there to be read again. */
  lemma SourceGone(tree: Tree, links: nat, source: seq<string>, target: seq<string>)
    requires WellFormed(tree) && Plain(source) && Plain(target) && target != []
    requires source in tree && Copyable(tree[source]) && !TargetInUse(tree, links, target) && source <= target
    requires Lstat(tree, Parent(target), links) != Unresolvable
    requires forall j | 0 <= j < Deepest(tree, links, Parent(target)) :: IsDirectory(tree, target[..j])
    ensures var ready := EnsureTarget(tree, links, Parent(target)).1;
      && ReadAgain(ready - {target}, links, tree[source], source) == None
      && (source in ready - {target} ==> ready[source] == Directory)
  {
    hide Follow, WellFormed, Deepest, DeepestAt, EnsureTarget, Empty, Open;
    var parent := Parent(target);
    var k, at := Deepest(tree, links, parent), DeepestAt(tree, links, parent);
    var ready := EnsureTarget(tree, links, parent).1;
    PlainResolves(tree, links, source);
    ReadyAtTarget(tree, links, target);
    EnsureTargetFacts(tree, links, parent);
    TopIsDirectory(tree);
    var cleared := ready - {target};
    if source == target {
      PrefixesPresent(tree, source, k);
      SourceKept(tree, ready, links, source, at, target, tree[source]);
      FollowPassesAncestors(tree, [], source, links, source);
    } else {
      assert source == target[..|source|] == parent[..|source|];
      assert source == at;
      forall j | 1 <= j < |source|
        ensures IsDirectory(cleared, [] + source[..j])
      {
        assert [] + source[..j] == source[..j] == parent[..j];
        PrefixesPresent(ready, parent, j);
      }
      FollowDown(cleared, [], source, links);
      assert [] + source == source;
      OpenAgrees(cleared, [], source, links);
    }
  }

  /** Any other source is read again as it was. */
  lemma SourceStays(tree: Tree, links: nat, source: seq<string>, target: seq<string>)
    requires WellFormed(tree) && Plain(source) && Plain(target) && target != []
    requires source in tree && Copyable(tree[source]) && !TargetInUse(tree, links, target) && !(source <= target)
    requires Lstat(tree, Parent(target), links) != Unresolvable
    requires forall j | 0 <= j < Deepest(tree, links, Parent(target)) :: IsDirectory(tree, target[..j])
    ensures var ready := EnsureTarget(tree, links, Parent(target)).1;
      ReadAgain(ready - {target}, links, tree[source], source) == Some(tree[source])
  {
    hide Follow, WellFormed, Deepest, DeepestAt, EnsureTarget, Empty, Open, ReadAgain;
    var parent := Parent(target);
    var k, at := Deepest(tree, links, parent), DeepestAt(tree, links, parent);
    var ready := EnsureTarget(tree, links, parent).1;
    PlainResolves(tree, links, source);
    ReadyAtTarget(tree, links, target);
    EnsureTargetFacts(tree, links, parent);
    TopIsDirectory(tree);
    if at < source {
      PrefixesPresent(tree, source, |at|);
      assert source[..|at|] == at;
    }
    if target < source {
      ChildOf(tree, source, target);
      PlainResolves(tree, links, target);
    }
    SourceKept(tree, ready, links, source, at, target, tree[source]);
  }

  /** The ordinary case: into an existing directory, under a name that is free, a
      file or a link is copied as it is and nothing else changes; a directory or a
      special file is refused. */
  lemma OrdinaryLeafCopy(tree: Tree, links: nat, source: seq<string>, target: seq<string>)
    requires WellFormed(tree) && Plain(source) && Plain(target) && target != []
    requires source in tree && target !in tree && IsDirectory(tree, Parent(target))
    ensures LeafEffect(tree, links, source, target) ==
      if tree[source].File? || tree[source].Link? then (Copied, tree[target := tree[source]]) else (Refused(SourceUnsupported), tree)
  {
    hide Follow, WellFormed, Deepest, DeepestAt, EnsureTarget, Empty;
    var parent := Parent(target);
    PlainResolves(tree, links, source);
    PlainResolves(tree, links, parent);
    ChildFound(tree, links, target);
    EnsurePresent(tree, links, parent);
    WholeParent(tree, links, target, target);
    if Copyable(tree[source]) {
      NothingReached(tree, links, source, target);
      LeafCopiedIff(tree, links, source, target);
      LeafCopyFacts(tree, links, source, target);
      OnlyLeafNew(tree, LeafEffect(tree, links, source, target).1, parent, target);
    }
  }

  lemma WholeParent(tree: Tree, links: nat, target: seq<string>, leaf: Path)
    requires WellFormed(tree) && target != [] && Normal(target[|target| - 1])
    requires Lstat(tree, Parent(target), links) == Present(Directory) && Finds(Resolve(tree, target, links), leaf)
    ensures LeafAt(tree, links, target) == leaf
    ensures DeepestAt(tree, links, Parent(target)) == Resolve(tree, Parent(target), links).at
  {
    hide Follow;
    var parent := Parent(target);
    ChildFound(tree, links, target);
    assert Deepest(tree, links, parent) == |parent| && parent[..|parent|] == parent;
    assert target[|parent|..] == [target[|target| - 1]];
  }

  lemma NothingReached(tree: Tree, links: nat, source: seq<string>, target: seq<string>)
    requires WellFormed(tree) && Plain(source) && Plain(target) && target != []
    requires source in tree && target !in tree && IsDirectory(tree, Parent(target))
    ensures target !in Goes(tree, source, links) && target !in Goes(tree, Parent(target), links)
  {
    hide Follow, WellFormed;
    PlainResolves(tree, links, source);
    PlainResolves(tree, links, Parent(target));
    FollowExists(tree, [], source, links);
  }

  lemma OnlyLeafNew(tree: Tree, after: Tree, at: Path, leaf: Path)
    requires Placed(tree, after, at, leaf) && IsDirectory(tree, at) && leaf !in tree && at == Parent(leaf) && leaf != []
    ensures after == tree[leaf := after[leaf]]
  {
    forall p | p in after && p != leaf
      ensures p in tree
    {
      NoneBetween(at, p, leaf);
    }
    assert at != leaf;
  }

  lemma NoneBetween(at: Path, p: Path, leaf: Path)
    requires leaf != [] && at == Parent(leaf)
    ensures !(at < p < leaf)
  {
    assert |leaf| == |at| + 1;
  }
}

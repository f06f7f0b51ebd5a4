/** A file tree with directories, regular files, symbolic links and special
    files, and the path resolution that system calls perform on it. */
module Files {
  import opened Common

  /** A location in the tree; `[]` is the top. Callers' paths, `seq<string>`, are
      lists of the components that Rust's `components()` yields, so an inner `.`
      or a doubled slash does not show in them. */
  type Path = seq<string>

  /** `Link` keeps the link text split at every slash, so an absolute link
      starts with an empty part. */
  datatype Node = Directory | File(content: string, mode: nat) | Link(parts: seq<string>) | Special

  type Tree = map<Path, Node>

  predicate IsDirectory(tree: Tree, at: Path) {
    at in tree && tree[at] == Directory
  }

  function Parent(at: Path): (r: Path)
    ensures r <= at
    ensures at != [] ==> at == r + [at[|at| - 1]]
  {
    if at == [] then [] else at[..|at| - 1]
  }

  /** Every node but the top lies in a directory. */
  ghost predicate WellFormed(tree: Tree) {
    && IsDirectory(tree, [])
    && forall p {:trigger Parent(p)} | p in tree :: IsDirectory(tree, Parent(p)) || p == []
  }

  /** Every location above a node is a directory. */
  lemma {:induction false} PrefixesPresent(tree: Tree, p: Path, k: nat)
    requires WellFormed(tree) && p in tree && k < |p|
    ensures IsDirectory(tree, p[..k])
    decreases |p|
  {
    assert Parent(p) == p[..|p| - 1];
    if k < |p| - 1 {
      PrefixesPresent(tree, Parent(p), k);
      assert Parent(p)[..k] == p[..k];
    }
  }

  predicate Empty(tree: Tree, at: Path) {
    forall p {:trigger Parent(p)} | p in tree :: p == [] || p == at || Parent(p) != at
  }

  /** Where a path leads without following its last component, and the nodes
      inspected or named on the way. */
  datatype Walk = Found(at: Path, via: set<Path>) | Missing | NotADirectory | TooManyLinks {
    function Through(p: Path): Walk {
      if Found? then Found(at, via + {p}) else this
    }
  }

  function Follow(tree: Tree, at: Path, rest: seq<string>, links: nat): Walk
    decreases links, |rest|
  {
    if rest == [] then Found(at, {})
    else if rest[0] == "" || rest[0] == "." then Follow(tree, at, rest[1..], links)
    else if rest[0] == ".." then Follow(tree, Parent(at), rest[1..], links)
    else
      var next := at + [rest[0]];
      if |rest| == 1 then Found(next, {next})
      else if next !in tree then Missing
      else match tree[next] {
        case Directory => Follow(tree, next, rest[1..], links).Through(next)
        case Link(parts) =>
          if links == 0 then TooManyLinks
          else Follow(tree, if parts != [] && parts[0] == "" then [] else at, parts + rest[1..], links - 1).Through(next)
        case _ => NotADirectory
      }
  }

  /** Resolution from the top. */
  function Resolve(tree: Tree, path: seq<string>, links: nat): Walk {
    Follow(tree, [], path, links)
  }

  datatype Status = Present(node: Node) | Absent | ThroughLeaf | Unresolvable

  /** `fs::symlink_metadata`. */
  function Lstat(tree: Tree, path: seq<string>, links: nat): Status {
    match Resolve(tree, path, links)
    case Found(at, _) => if at in tree then Present(tree[at]) else Absent
    case Missing => Absent
    case NotADirectory => ThroughLeaf
    case TooManyLinks => Unresolvable
  }

  predicate Normal(part: string) {
    part != "" && part != "." && part != ".."
  }

  // ------------------------------------------------------- resolution facts

  /** A descent through real directories stays where it is named. */
  lemma {:induction false} FollowDown(tree: Tree, at: Path, more: seq<string>, links: nat)
    requires forall i | 0 <= i < |more| :: Normal(more[i])
    requires forall k | 1 <= k < |more| :: IsDirectory(tree, at + more[..k])
    ensures Follow(tree, at, more, links).Found? && Follow(tree, at, more, links).at == at + more
    ensures forall q | q in Follow(tree, at, more, links).via :: q <= at + more
    decreases |more|
  {
    if |more| == 0 {
      assert at + more == at;
    } else if |more| == 1 {
      assert more == [more[0]];
    } else {
      var next := at + [more[0]];
      assert more[..1] == [more[0]];
      assert IsDirectory(tree, at + more[..1]);
      forall k | 1 <= k < |more[1..]|
        ensures IsDirectory(tree, next + more[1..][..k])
      {
        assert at + more[..k + 1] == next + more[1..][..k];
      }
      FollowDown(tree, next, more[1..], links);
      assert next + more[1..] == at + more;
    }
  }

  /** Extending a path that leads to a directory: the rest is looked up there. */
  lemma {:induction false} FollowExtended(tree: Tree, at: Path, rest: seq<string>, more: seq<string>, links: nat)
    requires Follow(tree, at, rest, links).Found? && IsDirectory(tree, Follow(tree, at, rest, links).at)
    requires forall i | 0 <= i < |more| :: Normal(more[i])
    requires forall k | 1 <= k < |more| :: IsDirectory(tree, Follow(tree, at, rest, links).at + more[..k])
    ensures Follow(tree, at, rest + more, links).Found?
    ensures Follow(tree, at, rest + more, links).at == Follow(tree, at, rest, links).at + more
    decreases links, |rest|
  {
    if more == [] {
      assert rest + more == rest;
    } else if rest == [] {
      assert rest + more == more;
      FollowDown(tree, at, more, links);
    } else {
      assert (rest + more)[0] == rest[0] && (rest + more)[1..] == rest[1..] + more;
      if rest[0] == "" || rest[0] == "." {
        FollowExtended(tree, at, rest[1..], more, links);
      } else if rest[0] == ".." {
        FollowExtended(tree, Parent(at), rest[1..], more, links);
      } else {
        var next := at + [rest[0]];
        if |rest| == 1 {
          assert rest[1..] + more == more;
          FollowDown(tree, next, more, links);
        } else if tree[next] == Directory {
          FollowExtended(tree, next, rest[1..], more, links);
        } else {
          var parts := tree[next].parts;
          assert parts + (rest[1..] + more) == (parts + rest[1..]) + more;
          FollowExtended(tree, if parts != [] && parts[0] == "" then [] else at, parts + rest[1..], more, links - 1);
        }
      }
    }
  }

  /** Resolution depends only on the existing nodes it went through. */
  lemma {:induction false} FollowAgrees(tree: Tree, other: Tree, at: Path, rest: seq<string>, links: nat)
    requires Follow(tree, at, rest, links).Found?
    requires forall q | q in Follow(tree, at, rest, links).via && q in tree :: q in other && other[q] == tree[q]
    ensures Follow(other, at, rest, links) == Follow(tree, at, rest, links)
    decreases links, |rest|
  {
    if rest != [] {
      if rest[0] == "" || rest[0] == "." {
        FollowAgrees(tree, other, at, rest[1..], links);
      } else if rest[0] == ".." {
        FollowAgrees(tree, other, Parent(at), rest[1..], links);
      } else if |rest| > 1 {
        var next := at + [rest[0]];
        if tree[next] == Directory {
          FollowAgrees(tree, other, next, rest[1..], links);
        } else {
          var parts := tree[next].parts;
          FollowAgrees(tree, other, if parts != [] && parts[0] == "" then [] else at, parts + rest[1..], links - 1);
        }
      }
    }
  }

  /** Removing a node that a resolution went through breaks that resolution. */
  lemma {:induction false} FollowBroken(tree: Tree, gone: Path, at: Path, rest: seq<string>, links: nat)
    requires Follow(tree, at, rest, links).Found? && gone in Follow(tree, at, rest, links).via
    ensures var walk := Follow(tree - {gone}, at, rest, links);
      || walk == Missing
      || (walk.Found? && walk.at == gone && Follow(tree, at, rest, links).at == gone)
    decreases links, |rest|
  {
    if rest[0] == "" || rest[0] == "." {
      FollowBroken(tree, gone, at, rest[1..], links);
    } else if rest[0] == ".." {
      FollowBroken(tree, gone, Parent(at), rest[1..], links);
    } else if |rest| > 1 && at + [rest[0]] != gone {
      var next := at + [rest[0]];
      if tree[next] == Directory {
        FollowBroken(tree, gone, next, rest[1..], links);
      } else {
        var parts := tree[next].parts;
        FollowBroken(tree, gone, if parts != [] && parts[0] == "" then [] else at, parts + rest[1..], links - 1);
      }
    }
  }

  /** A file is only ever the end of a resolution, so taking it away does not
      change where the path leads. */
  lemma {:induction false} FollowOnce(tree: Tree, gone: Path, at: Path, rest: seq<string>, links: nat)
    requires Follow(tree, at, rest, links).Found?
    requires gone in tree ==> !tree[gone].Directory? && !tree[gone].Link?
    ensures Follow(tree - {gone}, at, rest, links) == Follow(tree, at, rest, links)
    decreases links, |rest|
  {
    if rest != [] {
      if rest[0] == "" || rest[0] == "." {
        FollowOnce(tree, gone, at, rest[1..], links);
      } else if rest[0] == ".." {
        FollowOnce(tree, gone, Parent(at), rest[1..], links);
      } else if |rest| > 1 {
        var next := at + [rest[0]];
        if tree[next] == Directory {
          FollowOnce(tree, gone, next, rest[1..], links);
        } else {
          var parts := tree[next].parts;
          FollowOnce(tree, gone, if parts != [] && parts[0] == "" then [] else at, parts + rest[1..], links - 1);
        }
      }
    }
  }

  /** Everything a resolution went through exists, but for what it finds. */
  lemma {:induction false} FollowExists(tree: Tree, at: Path, rest: seq<string>, links: nat)
    requires Follow(tree, at, rest, links).Found?
    ensures forall q | q in Follow(tree, at, rest, links).via :: q in tree || q == Follow(tree, at, rest, links).at
    decreases links, |rest|
  {
    if rest != [] {
      if rest[0] == "" || rest[0] == "." {
        FollowExists(tree, at, rest[1..], links);
      } else if rest[0] == ".." {
        FollowExists(tree, Parent(at), rest[1..], links);
      } else if |rest| > 1 {
        var next := at + [rest[0]];
        if tree[next] == Directory {
          FollowExists(tree, next, rest[1..], links);
        } else {
          var parts := tree[next].parts;
          FollowExists(tree, if parts != [] && parts[0] == "" then [] else at, parts + rest[1..], links - 1);
        }
      }
    }
  }

  /** A path that cannot be resolved fails in the same way however it goes on. */
  lemma {:induction false} FollowFails(tree: Tree, at: Path, rest: seq<string>, more: seq<string>, links: nat)
    requires !Follow(tree, at, rest, links).Found?
    ensures Follow(tree, at, rest + more, links) == Follow(tree, at, rest, links)
    decreases links, |rest|
  {
    assert (rest + more)[0] == rest[0] && (rest + more)[1..] == rest[1..] + more;
    if rest[0] == "" || rest[0] == "." {
      FollowFails(tree, at, rest[1..], more, links);
    } else if rest[0] == ".." {
      FollowFails(tree, Parent(at), rest[1..], more, links);
    } else {
      var next := at + [rest[0]];
      if next in tree {
        if tree[next] == Directory {
          FollowFails(tree, next, rest[1..], more, links);
        } else if tree[next].Link? && links > 0 {
          var parts := tree[next].parts;
          assert parts + (rest[1..] + more) == (parts + rest[1..]) + more;
          FollowFails(tree, if parts != [] && parts[0] == "" then [] else at, parts + rest[1..], more, links - 1);
        }
      }
    }
  }

  /** A step that is no plain name stays at a directory or leads up from it. */
  lemma {:induction false} FollowAside(tree: Tree, at: Path, rest: seq<string>, step: string, links: nat)
    requires Follow(tree, at, rest, links).Found? && IsDirectory(tree, Follow(tree, at, rest, links).at) && !Normal(step)
    ensures var end := Follow(tree, at, rest, links).at; var walk := Follow(tree, at, rest + [step], links);
      walk.Found? && walk.at == if step == ".." then Parent(end) else end
    decreases links, |rest|
  {
    var longer := rest + [step];
    if rest == [] {
      assert longer[1..] == [];
    } else {
      assert longer[0] == rest[0] && longer[1..] == rest[1..] + [step];
      if rest[0] == "" || rest[0] == "." {
        FollowAside(tree, at, rest[1..], step, links);
      } else if rest[0] == ".." {
        FollowAside(tree, Parent(at), rest[1..], step, links);
      } else {
        var next := at + [rest[0]];
        if |rest| == 1 {
          assert longer[1..] == [step] && longer[1..][1..] == [];
          assert Follow(tree, next, [step], links) == Found(if step == ".." then Parent(next) else next, {});
        } else if tree[next] == Directory {
          FollowAside(tree, next, rest[1..], step, links);
        } else {
          var parts := tree[next].parts;
          assert parts + (rest[1..] + [step]) == (parts + rest[1..]) + [step];
          FollowAside(tree, if parts != [] && parts[0] == "" then [] else at, parts + rest[1..], step, links - 1);
        }
      }
    }
  }

  /** A resolution goes through every location above the one it finds. */
  lemma {:induction false} FollowPassesAncestors(tree: Tree, at: Path, rest: seq<string>, links: nat, above: Path)
    requires Follow(tree, at, rest, links).Found? && above <= Follow(tree, at, rest, links).at
    ensures above <= at || above in Follow(tree, at, rest, links).via
    decreases links, |rest|
  {
    if rest != [] {
      if rest[0] == "" || rest[0] == "." {
        FollowPassesAncestors(tree, at, rest[1..], links, above);
      } else if rest[0] == ".." {
        FollowPassesAncestors(tree, Parent(at), rest[1..], links, above);
      } else {
        var next := at + [rest[0]];
        assert above <= next ==> above <= at || above == next;
        if |rest| > 1 {
          if tree[next] == Directory {
            FollowPassesAncestors(tree, next, rest[1..], links, above);
          } else {
            var parts := tree[next].parts;
            FollowPassesAncestors(tree, if parts != [] && parts[0] == "" then [] else at, parts + rest[1..], links - 1, above);
            assert above <= [] ==> above <= at;
          }
        }
      }
    }
  }

  // ---------------------------------------------------------------- opening

  /** The node that opening a path gives: a last link is followed as well. */
  function Open(tree: Tree, at: Path, rest: seq<string>, links: nat): Option<Node>
    decreases links, |rest|
  {
    if rest == [] then if at in tree then Some(tree[at]) else None
    else if rest[0] == "" || rest[0] == "." then Open(tree, at, rest[1..], links)
    else if rest[0] == ".." then Open(tree, Parent(at), rest[1..], links)
    else
      var next := at + [rest[0]];
      if next !in tree then None
      else match tree[next] {
        case Directory => Open(tree, next, rest[1..], links)
        case Link(parts) =>
          if links == 0 then None
          else Open(tree, if parts != [] && parts[0] == "" then [] else at, parts + rest[1..], links - 1)
        case node => if |rest| == 1 then Some(node) else None
      }
  }

  /** Opening gives what a path leads to, unless that is a link, and nothing
      where the path leads to nothing. */
  lemma {:induction false} OpenAgrees(tree: Tree, at: Path, rest: seq<string>, links: nat)
    ensures var walk := Follow(tree, at, rest, links);
      && (walk.Found? && walk.at in tree && !tree[walk.at].Link? ==> Open(tree, at, rest, links) == Some(tree[walk.at]))
      && (walk == Missing || (walk.Found? && walk.at !in tree) ==> Open(tree, at, rest, links) == None)
    decreases links, |rest|
  {
    if rest != [] {
      if rest[0] == "" || rest[0] == "." {
        OpenAgrees(tree, at, rest[1..], links);
      } else if rest[0] == ".." {
        OpenAgrees(tree, Parent(at), rest[1..], links);
      } else {
        var next := at + [rest[0]];
        if |rest| > 1 && next in tree {
          if tree[next] == Directory {
            OpenAgrees(tree, next, rest[1..], links);
          } else if tree[next].Link? && links > 0 {
            var parts := tree[next].parts;
            OpenAgrees(tree, if parts != [] && parts[0] == "" then [] else at, parts + rest[1..], links - 1);
          }
        }
      }
    }
  }

  // --------------------------------------------------------------- removing

  /** The tree without a node and all it holds. */
  function Without(tree: Tree, at: Path): Tree {
    map p | p in tree && !(at <= p) :: tree[p]
  }
}

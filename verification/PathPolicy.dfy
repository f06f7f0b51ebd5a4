/** Classification of workspace paths (`artifact_policy.rs`). */
module PathPolicy {
  import opened Common

  /** `Other` stands for every component that is not a plain name: a root, a
      prefix, `.` or `..`. */
  datatype Component = Normal(name: string) | Other

  type Path = seq<Component>

  datatype Class = Deliverable | LifecycleMetadata | EvidenceOnly | RuntimeOnly {
    function Rank(): nat {
      match this case Deliverable => 0 case LifecycleMetadata => 1 case EvidenceOnly => 2 case RuntimeOnly => 3
    }
    function Max(other: Class): Class {
      if Rank() < other.Rank() then other else this
    }
  }

  const DISPOSABLE: set<string> := {"target", "node_modules", ".build", ".next"}
  const EVIDENCE: set<string> := {".specstory"}
  const LIFECYCLE: string := ".deadreckon"
  const GIT: string := ".git"

  predicate Named(component: Component, names: set<string>) {
    component.Normal? && component.name in names
  }

  predicate Mentions(path: Path, names: set<string>) {
    exists i | 0 <= i < |path| :: Named(path[i], names)
  }

  function Classify(path: Path): Class {
    if Mentions(path, DISPOSABLE + {GIT}) then RuntimeOnly
    else if Mentions(path, EVIDENCE) then EvidenceOnly
    else if Mentions(path, {LIFECYCLE}) then LifecycleMetadata
    else Deliverable
  }

  /** `classify_workspace_path`: one pass with two flags and an early return. */
  method ClassifyPath(path: Path) returns (class_: Class)
    ensures class_ == Classify(path)
  {
    var evidenceOnly, lifecycleMetadata := false, false;
    for i := 0 to |path|
      invariant !Mentions(path[..i], DISPOSABLE + {GIT})
      invariant evidenceOnly == Mentions(path[..i], EVIDENCE)
      invariant lifecycleMetadata == Mentions(path[..i], {LIFECYCLE})
    {
      MentionsNext(path, i, DISPOSABLE + {GIT});
      MentionsNext(path, i, EVIDENCE);
      MentionsNext(path, i, {LIFECYCLE});
      match path[i]
      case Other =>
      case Normal(name) =>
        if name == GIT || name in DISPOSABLE {
          return RuntimeOnly;
        }
        if name == LIFECYCLE {
          lifecycleMetadata := true;
        }
        if name in EVIDENCE {
          evidenceOnly := true;
        }
    }
    assert path[..|path|] == path;
    class_ := if evidenceOnly then EvidenceOnly else if lifecycleMetadata then LifecycleMetadata else Deliverable;
  }

  lemma MentionsNext(path: Path, i: nat, names: set<string>)
    requires i < |path|
    ensures Mentions(path[..i + 1], names) <==> Mentions(path[..i], names) || Named(path[i], names)
    ensures Named(path[i], names) ==> Mentions(path, names)
  {
    assert path[..i + 1] == path[..i] + [path[i]];
    MentionsJoin(path[..i], [path[i]], names);
    assert Named(path[i], names) ==> Named([path[i]][0], names);
  }

  lemma MentionsJoin(p: Path, q: Path, names: set<string>)
    ensures Mentions(p + q, names) <==> Mentions(p, names) || Mentions(q, names)
  {
    if Mentions(p, names) {
      var i :| 0 <= i < |p| && Named(p[i], names);
      assert Named((p + q)[i], names);
    }
    if Mentions(q, names) {
      var i :| 0 <= i < |q| && Named(q[i], names);
      assert Named((p + q)[|p| + i], names);
    }
  }

  /** `runtime_output_root`: the plain names up to the first disposable one. */
  method RuntimeOutputRoot(path: Path) returns (root: Option<seq<string>>)
    ensures root.None? <==> !Mentions(path, DISPOSABLE)
    ensures root.Some? ==> exists k | 0 <= k < |path| ::
      && Named(path[k], DISPOSABLE) && !Mentions(path[..k], DISPOSABLE)
      && root.value == Names(path[..k]) + [path[k].name]
  {
    var names := [];
    for i := 0 to |path|
      invariant names == Names(path[..i]) && !Mentions(path[..i], DISPOSABLE)
    {
      MentionsNext(path, i, DISPOSABLE);
      assert path[..i + 1][..i] == path[..i];
      match path[i]
      case Other =>
      case Normal(name) =>
        names := names + [name];
        if name in DISPOSABLE {
          return Some(names);
        }
    }
    assert path[..|path|] == path;
    root := None;
  }

  function Names(path: Path): seq<string> {
    if path == [] then []
    else var init := Names(path[..|path| - 1]);
      match path[|path| - 1] case Normal(name) => init + [name] case Other => init
  }

  // ------------------------------------------------------------- predicates

  predicate IsDeliverable(path: Path) {
    Classify(path) == Deliverable
  }

  predicate IsRecoverable(path: Path) {
    !Mentions(path, DISPOSABLE)
  }

  predicate IsCheckpointable(path: Path) {
    !Mentions(path, {LIFECYCLE}) && Classify(path) in {Deliverable, EvidenceOnly}
  }

  predicate IsPromotable(path: Path) {
    match Classify(path)
    case Deliverable => true
    case LifecycleMetadata => path != [] && Named(path[0], {LIFECYCLE})
    case _ => false
  }

  // --------------------------------------------------------------- theorems

  /** The class of a joined path is the larger of its parts' classes. */
  lemma ClassOfJoin(p: Path, q: Path)
    ensures Classify(p + q) == Classify(p).Max(Classify(q))
  {
    hide Mentions;
    MentionsJoin(p, q, DISPOSABLE + {GIT});
    MentionsJoin(p, q, EVIDENCE);
    MentionsJoin(p, q, {LIFECYCLE});
  }

  /** Every acceptance predicate holds of the ancestors of what it accepts. */
  lemma AncestorsAccepted(p: Path, q: Path)
    ensures IsDeliverable(p + q) ==> IsDeliverable(p)
    ensures IsRecoverable(p + q) ==> IsRecoverable(p)
    ensures IsCheckpointable(p + q) ==> IsCheckpointable(p)
    ensures IsPromotable(p + q) ==> IsPromotable(p)
  {
    hide Mentions, Classify;
    ClassOfJoin(p, q);
    MentionsJoin(p, q, DISPOSABLE);
    MentionsJoin(p, q, {LIFECYCLE});
    if p == [] {
      assert Classify(p) == Deliverable by {
        EmptyPath();
      }
    } else {
      assert (p + q)[0] == p[0];
      FirstMentioned(p, {LIFECYCLE});
    }
    LifecycleClass(p);
  }

  lemma EmptyPath()
    ensures Classify([]) == Deliverable
  {
  }

  lemma FirstMentioned(p: Path, names: set<string>)
    requires p != []
    ensures Named(p[0], names) ==> Mentions(p, names)
  {
  }

  lemma LifecycleClass(p: Path)
    ensures Mentions(p, {LIFECYCLE}) ==> Classify(p) != Deliverable
    ensures Classify(p) == LifecycleMetadata ==> Mentions(p, {LIFECYCLE})
  {
  }

  ghost predicate HasName(path: Path, name: string) {
    exists i :: 0 <= i < |path| && path[i] == Normal(name)
  }

  /** The four classes by the names themselves. */
  lemma ClassByNames(path: Path)
    ensures Classify(path) == RuntimeOnly <==>
      HasName(path, ".git") || HasName(path, "target") || HasName(path, "node_modules") || HasName(path, ".build") || HasName(path, ".next")
    ensures Classify(path) == EvidenceOnly <==> Classify(path) != RuntimeOnly && HasName(path, ".specstory")
    ensures Classify(path) == LifecycleMetadata <==>
      Classify(path) != RuntimeOnly && Classify(path) != EvidenceOnly && HasName(path, ".deadreckon")
  {
    hide Mentions, HasName;
    MentionsIff(path, DISPOSABLE + {GIT});
    MentionsIff(path, EVIDENCE);
    MentionsIff(path, {LIFECYCLE});
    assert DISPOSABLE + {GIT} == {".git", "target", "node_modules", ".build", ".next"};
  }

  lemma MentionsIff(path: Path, names: set<string>)
    ensures Mentions(path, names) <==> exists name | name in names :: HasName(path, name)
  {
    if Mentions(path, names) {
      var i :| 0 <= i < |path| && Named(path[i], names);
      assert HasName(path, path[i].name);
    }
    if name :| name in names && HasName(path, name) {
      var i :| 0 <= i < |path| && path[i] == Normal(name);
      assert Named(path[i], names);
    }
  }

  /** What may be recovered, checkpointed and promoted, by the names themselves. */
  lemma PoliciesByNames(path: Path)
    ensures IsRecoverable(path) <==>
      !HasName(path, "target") && !HasName(path, "node_modules") && !HasName(path, ".build") && !HasName(path, ".next")
    ensures IsCheckpointable(path) <==> IsRecoverable(path) && !HasName(path, ".git") && !HasName(path, ".deadreckon")
    ensures IsPromotable(path) <==>
      && IsRecoverable(path) && !HasName(path, ".git") && !HasName(path, ".specstory")
      && (HasName(path, ".deadreckon") ==> path[0] == Normal(".deadreckon"))
  {
    ClassByNames(path);
    MentionsIff(path, DISPOSABLE);
    MentionsIff(path, {LIFECYCLE});
    if path != [] && path[0] == Normal(".deadreckon") {
      assert HasName(path, ".deadreckon");
    }
    hide Mentions, HasName, Classify;
  }

  // --------------------------------------------------------- Git pathspecs

  const ANY: string := "**"

  /** Git's `glob` pathspec matching, one pattern component at a time: a leading
      or inner `**` stands for any number of directories, a trailing one for
      everything inside; the other components here hold no wildcard. */
  predicate GlobMatches(pattern: seq<string>, path: seq<string>) {
    if pattern == [] then path == []
    else if pattern[0] != ANY then path != [] && path[0] == pattern[0] && GlobMatches(pattern[1..], path[1..])
    else if |pattern| == 1 then path != []
    else exists k | 0 <= k <= |path| :: GlobMatches(pattern[1..], path[k..])
  }

  const GUARDED: set<string> := EVIDENCE + {LIFECYCLE} + DISPOSABLE

  /** Two negative pathspecs for each guarded name: the entry and its contents. */
  const EXCLUDES: set<seq<string>> :=
    (set name | name in GUARDED :: [ANY, name]) + (set name | name in GUARDED :: [ANY, name, ANY])

  predicate Excluded(path: seq<string>) {
    exists pattern | pattern in EXCLUDES :: GlobMatches(pattern, path)
  }

  function Plain(path: seq<string>): (r: Path)
    ensures |r| == |path|
  {
    seq(|path|, i requires 0 <= i < |path| => Normal(path[i]))
  }

  lemma EntryMatches(name: string, path: seq<string>)
    requires name != ANY
    ensures GlobMatches([ANY, name], path) <==> path != [] && path[|path| - 1] == name
  {
    var last := [ANY, name][1..];
    assert last == [name] && last[1..] == [];
    forall k | 0 <= k <= |path|
      ensures GlobMatches(last, path[k..]) <==> k == |path| - 1 && path[k] == name
    {
      if k < |path| {
        assert path[k..][0] == path[k] && path[k..][1..] == path[k + 1..];
        assert GlobMatches(last[1..], path[k..][1..]) <==> path[k + 1..] == [];
      }
    }
    if path != [] && path[|path| - 1] == name {
      assert GlobMatches(last, path[|path| - 1..]);
    }
  }

  lemma ContentsMatch(name: string, path: seq<string>)
    requires name != ANY
    ensures GlobMatches([ANY, name, ANY], path) <==> exists k | 0 <= k < |path| - 1 :: path[k] == name
  {
    var rest := [ANY, name, ANY][1..];
    assert rest == [name, ANY] && rest[1..] == [ANY];
    forall k | 0 <= k <= |path|
      ensures GlobMatches(rest, path[k..]) <==> k < |path| - 1 && path[k] == name
    {
      if k < |path| {
        assert path[k..][0] == path[k] && path[k..][1..] == path[k + 1..];
        assert GlobMatches(rest[1..], path[k..][1..]) <==> path[k + 1..] != [];
      }
    }
    if k :| 0 <= k < |path| - 1 && path[k] == name {
      assert GlobMatches(rest, path[k..]);
    }
  }

  lemma ExcludedIff(path: seq<string>)
    ensures Excluded(path) <==> exists k | 0 <= k < |path| :: path[k] in GUARDED
  {
    hide GlobMatches, GUARDED;
    assert ANY !in GUARDED by { AnyIsNoName(); }
    if pattern :| pattern in EXCLUDES && GlobMatches(pattern, path) {
      if name :| name in GUARDED && pattern == [ANY, name] {
        EntryMatches(name, path);
      } else {
        var name :| name in GUARDED && pattern == [ANY, name, ANY];
        ContentsMatch(name, path);
      }
    }
    if k :| 0 <= k < |path| && path[k] in GUARDED {
      EntryMatches(path[k], path);
      ContentsMatch(path[k], path);
      assert [ANY, path[k]] in EXCLUDES && [ANY, path[k], ANY] in EXCLUDES;
    }
  }

  lemma AnyIsNoName()
    ensures ANY !in GUARDED
  {
    assert |ANY| == 2 && |".git"| == 4;
  }

  /** The pathspecs and the `.git` rule together exclude exactly what is not
      deliverable; so on paths without `.git` the pathspecs alone do. */
  lemma PathspecsAgree(path: seq<string>)
    ensures !IsDeliverable(Plain(path)) <==> Excluded(path) || GIT in path
    ensures GIT !in path ==> (Excluded(path) <==> !IsDeliverable(Plain(path)))
  {
    hide GlobMatches, Excluded;
    ExcludedIff(path);
    var p := Plain(path);
    assert Mentions(p, DISPOSABLE + {GIT}) || Mentions(p, EVIDENCE) || Mentions(p, {LIFECYCLE})
      <==> exists k | 0 <= k < |path| :: path[k] in GUARDED + {GIT} by {
      if k :| 0 <= k < |path| && path[k] in GUARDED + {GIT} {
        assert p[k] == Normal(path[k]);
      }
    }
  }
}

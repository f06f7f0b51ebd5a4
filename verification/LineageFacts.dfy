/** What an accepted parent-repair lineage guarantees about all its rounds at
    once, and why the archive behind one active intent is unique. */
module LineageFacts {
  import opened Common
  import opened Lineage

  datatype Round = Round(intent: Intent, manifest: Manifest, candidate: Candidate, files: RoundFiles)

  /** Round `k` of the lineage whose newest round is `active`, as found on disk. */
  function RoundAt(cx: Context, disk: Disk, active: Active, k: nat): Option<Round> {
    if k == active.intent.round then
      Some(Round(active.intent, active.manifest, active.candidate, active.files))
    else
      match ReadRound(disk, k)
      case Err(_) => None
      case Ok(files) =>
        match (cx.decodeIntent(files.intent), cx.decodeManifest(files.manifest), cx.decodeCandidate(files.candidate))
        case (Some(intent), Some(manifest), Some(candidate)) => Some(Round(intent, manifest, candidate, files))
        case _ => None
  }

  predicate RoundOk(cx: Context, active: Active, round: Round) {
    && CheckIntent(cx, active.job, active.history, round.intent,
                   round.files.intent, round.files.marker, round.files.judgment).Ok?
    && CheckAttempt(cx, active.job, active.history, round.intent, round.files.intent,
                    round.manifest, round.files.manifest, round.candidate, round.files.candidate, None).Ok?
  }

  /** `newer` names `older` by its chain digest and continues where it ended. */
  predicate Follows(cx: Context, newer: Round, older: Round, olderRound: nat) {
    && newer.intent.previousRound == Some(ChainDigest(cx.sha, older.files))
    && Linked(newer.intent, older.intent, older.candidate, olderRound)
  }

  /** Rounds 1 to `top`: all present, all but the top one checked here, each linked to the next. */
  ghost predicate Unbroken(cx: Context, disk: Disk, active: Active, top: nat) {
    && (forall k | 1 <= k <= top :: RoundAt(cx, disk, active, k).Some?)
    && (forall k | 1 <= k < top :: RoundOk(cx, active, RoundAt(cx, disk, active, k).value))
    && (forall k | 1 <= k < top ::
          Follows(cx, RoundAt(cx, disk, active, k + 1).value, RoundAt(cx, disk, active, k).value, k))
  }

  /** The declarative form of acceptance: no walk, only quantified facts. */
  ghost predicate WholeLineage(cx: Context, disk: Disk, active: Active) {
    && 1 <= active.intent.round
    && Unbroken(cx, disk, active, active.intent.round)
    && StartsFromMerged(RoundAt(cx, disk, active, 1).value.intent)
  }

  lemma ArchivedStep(cx: Context, disk: Disk, active: Active, newer: Intent, k: nat)
    requires k != active.intent.round
    ensures CheckArchived(cx, active.job, active.history, disk, newer, k).Ok? <==>
      var older := RoundAt(cx, disk, active, k);
      && older.Some?
      && RoundOk(cx, active, older.value)
      && newer.previousRound == Some(ChainDigest(cx.sha, older.value.files))
      && Linked(newer, older.value.intent, older.value.candidate, k)
    ensures CheckArchived(cx, active.job, active.history, disk, newer, k).Ok? ==>
      CheckArchived(cx, active.job, active.history, disk, newer, k).value
      == RoundAt(cx, disk, active, k).value.intent
  {
    hide ReadRound, CheckIntent, CheckAttempt, ChainDigest, Linked;
  }

  lemma {:induction false} WalkIff(cx: Context, disk: Disk, active: Active, top: nat)
    requires 1 <= top <= active.intent.round
    requires RoundAt(cx, disk, active, top).Some?
    ensures Walk(cx, active.job, active.history, disk, RoundAt(cx, disk, active, top).value.intent, top).Ok?
      <==> Unbroken(cx, disk, active, top) && StartsFromMerged(RoundAt(cx, disk, active, 1).value.intent)
    decreases top
  {
    hide RoundAt, RoundOk, CheckArchived, Linked, ChainDigest, StartsFromMerged;
    if top > 1 {
      var newer := RoundAt(cx, disk, active, top).value;
      var older := RoundAt(cx, disk, active, top - 1);
      ArchivedStep(cx, disk, active, newer.intent, top - 1);
      if older.Some? {
        WalkIff(cx, disk, active, top - 1);
        UnbrokenStep(cx, disk, active, top);
      } else {
        assert !Unbroken(cx, disk, active, top);
      }
    }
  }

  lemma UnbrokenStep(cx: Context, disk: Disk, active: Active, top: nat)
    requires 1 < top
    requires RoundAt(cx, disk, active, top).Some? && RoundAt(cx, disk, active, top - 1).Some?
    ensures Unbroken(cx, disk, active, top) <==>
      && Unbroken(cx, disk, active, top - 1)
      && RoundOk(cx, active, RoundAt(cx, disk, active, top - 1).value)
      && Follows(cx, RoundAt(cx, disk, active, top).value, RoundAt(cx, disk, active, top - 1).value, top - 1)
  {
    hide RoundAt, RoundOk, Follows;
    if Unbroken(cx, disk, active, top) {
      assert Follows(cx, RoundAt(cx, disk, active, top - 1 + 1).value, RoundAt(cx, disk, active, top - 1).value, top - 1);
    }
  }

  function ActiveRound(cx: Context, disk: Disk): Result<Active, Refusal> {
    var intent :- ReadRequired(disk, ActiveIntent);
    var manifest :- ReadRequired(disk, ActiveManifest);
    var candidate :- ReadRequired(disk, ActiveCandidate);
    CheckActive(cx, disk, intent, manifest, candidate)
  }

  /** What one accepted round says about itself. */
  lemma RoundFacts(cx: Context, active: Active, round: Round)
    requires RoundOk(cx, active, round)
    ensures round.intent.afterAttempt < round.manifest.attempt <= active.job.Limit()
    ensures 0 < round.intent.round < round.manifest.attempt
    ensures round.intent.round < active.job.Limit()
    ensures round.intent.afterEpoch <= round.manifest.epoch
    ensures round.candidate.attempt == round.manifest.attempt
    ensures round.candidate.epoch == round.manifest.epoch
    ensures round.intent.reviseMarker == cx.sha(round.files.marker)
    ensures round.intent.reviseJudgment == cx.sha(round.files.judgment)
    ensures exists i ::
      0 <= i < |active.history| && IsStart(active.history[i], round.manifest.epoch, round.manifest.attempt)
  {
    hide BackedByRevision, IsLaunch, IsRevision, IsStart;
    var event :| event in active.history && IsStart(event, round.manifest.epoch, round.manifest.attempt);
    var i :| 0 <= i < |active.history| && active.history[i] == event;
  }

  lemma ExpectedTree(cx: Context, job: Job, history: seq<JobEvent>, intent: Intent, files: RoundFiles,
                     manifest: Manifest, candidate: Candidate, tree: string)
    ensures CheckAttempt(cx, job, history, intent, files.intent, manifest, files.manifest,
                         candidate, files.candidate, Some(tree)).Ok?
      <==> (candidate.resultTree == tree
            && CheckAttempt(cx, job, history, intent, files.intent, manifest, files.manifest,
                            candidate, files.candidate, None).Ok?)
  {
    hide AttemptShapeOk;
  }

  /** What the checks before the walk establish about the newest round. */
  lemma ActiveFacts(cx: Context, disk: Disk)
    requires ActiveRound(cx, disk).Ok?
    ensures var active := ActiveRound(cx, disk).value;
      && active.intent.round >= 1
      && RoundOk(cx, active, Round(active.intent, active.manifest, active.candidate, active.files))
      && active.manifest.attempt == AttemptCount(active.history)
      && Ok(active.candidate.resultTree) == cx.resultTree
      && Ok(active.intent.mergedTree) == cx.mergedTree(active.intent.mergedRunId)
      && ActiveIntent in disk && disk[ActiveIntent] == Regular(active.files.intent)
      && cx.decodeIntent(active.files.intent) == Some(active.intent)
  {
    hide AttemptCount, CheckIntent, CheckAttempt;
    var active := ActiveRound(cx, disk).value;
    ExpectedTree(cx, active.job, active.history, active.intent, active.files, active.manifest, active.candidate,
                 cx.resultTree.value);
    RoundFacts(cx, active, Round(active.intent, active.manifest, active.candidate, active.files));
  }

  ghost predicate Accepted(cx: Context, disk: Disk) {
    Validate(cx, disk).Ok? && Validate(cx, disk).value.Some?
  }

  /** Acceptance by the walk is exactly the declarative statement: the active
      trio is present and passes its own checks, every earlier round is
      present, passes its checks and is named by its successor, and the first
      round starts from the merged result. */
  lemma AcceptedIffWhole(cx: Context, disk: Disk)
    ensures Accepted(cx, disk) <==>
      ActiveRound(cx, disk).Ok? && WholeLineage(cx, disk, ActiveRound(cx, disk).value)
  {
    hide RoundOk, CheckActive, Walk, Unbroken, StartsFromMerged;
    var active := ActiveRound(cx, disk);
    if active.Ok? {
      ActiveFacts(cx, disk);
      WalkIff(cx, disk, active.value, active.value.intent.round);
    }
  }

  /** The rounds of an accepted lineage, oldest first. */
  ghost function Rounds(cx: Context, disk: Disk): (rounds: seq<Round>)
    requires Accepted(cx, disk)
    ensures ActiveRound(cx, disk).Ok?
    ensures |rounds| == ActiveRound(cx, disk).value.intent.round >= 1
    ensures forall i | 0 <= i < |rounds| ::
      RoundAt(cx, disk, ActiveRound(cx, disk).value, i + 1) == Some(rounds[i])
  {
    hide Accepted, RoundAt, RoundOk, Follows, ActiveRound, StartsFromMerged;
    AcceptedIffWhole(cx, disk);
    var active := ActiveRound(cx, disk).value;
    seq(active.intent.round, i requires 0 <= i < active.intent.round => RoundAt(cx, disk, active, i + 1).value)
  }

  /** Local consequences: every round passes its checks and follows the one before it. */
  lemma RoundsLinked(cx: Context, disk: Disk)
    requires Accepted(cx, disk)
    ensures var active, rounds := ActiveRound(cx, disk).value, Rounds(cx, disk);
      && (forall i | 0 <= i < |rounds| :: RoundOk(cx, active, rounds[i]))
      && (forall i | 0 <= i < |rounds| - 1 :: Follows(cx, rounds[i + 1], rounds[i], i + 1))
      && StartsFromMerged(rounds[0].intent)
      && rounds[|rounds| - 1] == Round(active.intent, active.manifest, active.candidate, active.files)
  {
    hide Accepted, RoundOk, ActiveRound, StartsFromMerged, ReadRound, Rounds, Follows;
    AcceptedIffWhole(cx, disk);
    ActiveFacts(cx, disk);
    var active, rounds := ActiveRound(cx, disk).value, Rounds(cx, disk);
    assert RoundAt(cx, disk, active, 0 + 1) == Some(rounds[0]);
    assert RoundAt(cx, disk, active, |rounds| - 1 + 1) == Some(rounds[|rounds| - 1]);
    forall i | 0 <= i < |rounds| - 1
      ensures Follows(cx, rounds[i + 1], rounds[i], i + 1) && RoundOk(cx, active, rounds[i])
    {
      assert RoundAt(cx, disk, active, i + 1) == Some(rounds[i]);
      assert RoundAt(cx, disk, active, i + 1 + 1) == Some(rounds[i + 1]);
    }
  }

  /** Any two rounds, however far apart, are ordered the same way. */
  lemma {:induction false} RoundsOrdered(cx: Context, disk: Disk, i: nat, j: nat)
    requires Accepted(cx, disk)
    requires i < j < |Rounds(cx, disk)|
    ensures var rounds := Rounds(cx, disk);
      && rounds[i].manifest.attempt < rounds[j].manifest.attempt
      && rounds[i].manifest.epoch <= rounds[j].manifest.epoch
      && rounds[i].intent.mergedRunId == rounds[j].intent.mergedRunId
      && rounds[i].intent.mergedTree == rounds[j].intent.mergedTree
    decreases j
  {
    hide Accepted, RoundOk, RoundAt, ActiveRound, Rounds, ChainDigest;
    RoundsLinked(cx, disk);
    var active, rounds := ActiveRound(cx, disk).value, Rounds(cx, disk);
    assert Follows(cx, rounds[j - 1 + 1], rounds[j - 1], j - 1 + 1);
    RoundFacts(cx, active, rounds[j - 1]);
    RoundFacts(cx, active, rounds[j]);
    if i < j - 1 {
      RoundsOrdered(cx, disk, i, j - 1);
    }
  }

  /** The global facts behind an accepted lineage of n rounds: attempts
      strictly increase and round k ran at attempt k + 1 or later, lease
      epochs never decrease, n stays below the Job's attempt limit, the newest
      attempt is the Job's current one, the trees form one path from the
      merged tree to the current result, and the history holds n pairwise
      different attempt starts, whose positions the lemma returns. */
  lemma AcceptedLineageFacts(cx: Context, disk: Disk) returns (starts: seq<nat>)
    requires Accepted(cx, disk)
    ensures var active, rounds := ActiveRound(cx, disk).value, Rounds(cx, disk);
      var n := |rounds|;
      && (forall i, j | 0 <= i < j < n ::
            && rounds[i].manifest.attempt < rounds[j].manifest.attempt
            && rounds[i].manifest.epoch <= rounds[j].manifest.epoch
            && rounds[i].intent.mergedRunId == rounds[j].intent.mergedRunId)
      && (forall i | 0 <= i < n :: i + 2 <= rounds[i].manifest.attempt <= active.job.Limit())
      && n <= active.job.Limit() - 1
      && rounds[n - 1].manifest.attempt == AttemptCount(active.history)
      && Ok(rounds[0].intent.preRepairTree) == cx.mergedTree(rounds[n - 1].intent.mergedRunId)
      && (forall i | 0 <= i < n - 1 :: rounds[i + 1].intent.preRepairTree == rounds[i].candidate.resultTree)
      && Ok(rounds[n - 1].candidate.resultTree) == cx.resultTree
      && |starts| == n
      && (forall i | 0 <= i < n ::
            && starts[i] < |active.history|
            && IsStart(active.history[starts[i]], rounds[i].manifest.epoch, rounds[i].manifest.attempt))
      && (forall i, j | 0 <= i < j < n :: starts[i] != starts[j])
  {
    hide Accepted, RoundOk, RoundAt, ActiveRound, Rounds, ChainDigest, AttemptCount, IsStart;
    RoundsLinked(cx, disk);
    ActiveFacts(cx, disk);
    var active, rounds := ActiveRound(cx, disk).value, Rounds(cx, disk);
    var n := |rounds|;
    forall i, j | 0 <= i < j < n
      ensures rounds[i].manifest.attempt < rounds[j].manifest.attempt
      ensures rounds[i].manifest.epoch <= rounds[j].manifest.epoch
      ensures rounds[i].intent.mergedRunId == rounds[j].intent.mergedRunId
      ensures rounds[i].intent.mergedTree == rounds[j].intent.mergedTree
    {
      RoundsOrdered(cx, disk, i, j);
    }
    forall i | 0 <= i < n ensures i + 2 <= rounds[i].manifest.attempt <= active.job.Limit() {
      RoundFacts(cx, active, rounds[i]);
      RoundNumber(cx, disk, i);
    }
    RoundFacts(cx, active, rounds[n - 1]);
    starts := StartPositions(cx, active, rounds);
  }

  lemma RoundNumber(cx: Context, disk: Disk, i: nat)
    requires Accepted(cx, disk)
    requires i < |Rounds(cx, disk)|
    ensures Rounds(cx, disk)[i].intent.round == i + 1
  {
    hide Accepted, RoundOk, RoundAt, ActiveRound, Rounds, ChainDigest;
    RoundsLinked(cx, disk);
    var rounds := Rounds(cx, disk);
    if i < |rounds| - 1 {
      assert Follows(cx, rounds[i + 1], rounds[i], i + 1);
    }
  }

  lemma {:induction false} StartPositions(cx: Context, active: Active, rounds: seq<Round>) returns (starts: seq<nat>)
    requires forall i | 0 <= i < |rounds| :: RoundOk(cx, active, rounds[i])
    requires forall i, j | 0 <= i < j < |rounds| :: rounds[i].manifest.attempt < rounds[j].manifest.attempt
    ensures |starts| == |rounds|
    ensures forall i | 0 <= i < |rounds| ::
      && starts[i] < |active.history|
      && IsStart(active.history[starts[i]], rounds[i].manifest.epoch, rounds[i].manifest.attempt)
    ensures forall i, j | 0 <= i < j < |rounds| :: starts[i] != starts[j]
  {
    hide RoundOk;
    if rounds == [] {
      return [];
    }
    var front, last := rounds[..|rounds| - 1], rounds[|rounds| - 1];
    var earlier := StartPositions(cx, active, front);
    RoundFacts(cx, active, last);
    var at: nat :| at < |active.history|
      && IsStart(active.history[at], last.manifest.epoch, last.manifest.attempt);
    starts := earlier + [at];
    forall i | 0 <= i < |earlier| ensures starts[i] != at {
      assert front[i] == rounds[i];
    }
  }

  // --------------------------------------------------------- uniqueness

  /** The chain text is a framing: equal texts have equal digests in every slot. */
  lemma ChainTextBinds(sha: string -> string, a: RoundFiles, b: RoundFiles)
    requires DigestShaped(sha)
    requires ChainText(sha, a) == ChainText(sha, b)
    ensures sha(a.intent) == sha(b.intent)
    ensures sha(a.manifest) == sha(b.manifest)
    ensures sha(a.candidate) == sha(b.candidate)
    ensures sha(a.marker) == sha(b.marker)
    ensures sha(a.judgment) == sha(b.judgment)
  {
    forall x ensures |sha(x)| == 71 {
      assert IsSha256Digest(sha(x));
    }
    var head := (f: RoundFiles) => "intent.json=" + sha(f.intent) + "\n";
    var second := (f: RoundFiles) => "final-attempt.json=" + sha(f.manifest) + "\n";
    var third := (f: RoundFiles) => "candidate.json=" + sha(f.candidate) + "\n";
    var fourth := (f: RoundFiles) => "pre-repair-marker.json=" + sha(f.marker) + "\n";
    var fifth := (f: RoundFiles) => "revise-judgment.json=" + sha(f.judgment) + "\n";
    SplitEqual(head(a) + second(a) + third(a) + fourth(a), fifth(a), head(b) + second(b) + third(b) + fourth(b), fifth(b));
    SplitEqual(head(a) + second(a) + third(a), fourth(a), head(b) + second(b) + third(b), fourth(b));
    SplitEqual(head(a) + second(a), third(a), head(b) + second(b), third(b));
    SplitEqual(head(a), second(a), head(b), second(b));
    LineBinds("intent.json=", sha(a.intent), sha(b.intent));
    LineBinds("final-attempt.json=", sha(a.manifest), sha(b.manifest));
    LineBinds("candidate.json=", sha(a.candidate), sha(b.candidate));
    LineBinds("pre-repair-marker.json=", sha(a.marker), sha(b.marker));
    LineBinds("revise-judgment.json=", sha(a.judgment), sha(b.judgment));
  }

  lemma SplitEqual(a: string, x: string, b: string, y: string)
    requires a + x == b + y && |x| == |y|
    ensures a == b && x == y
  {
    assert a == (a + x)[..|a|] && b == (b + y)[..|b|];
    assert x == (a + x)[|a|..] && y == (b + y)[|b|..];
  }

  lemma LineBinds(name: string, x: string, y: string)
    requires name + x + "\n" == name + y + "\n"
    ensures x == y
  {
    SplitEqual(name + x, "\n", name + y, "\n");
    assert x == (name + x)[|name|..] && y == (name + y)[|name|..];
  }

  function FirstDifference(a: RoundFiles, b: RoundFiles): Option<(string, string)> {
    if a.intent != b.intent then Some((a.intent, b.intent))
    else if a.manifest != b.manifest then Some((a.manifest, b.manifest))
    else if a.candidate != b.candidate then Some((a.candidate, b.candidate))
    else if a.marker != b.marker then Some((a.marker, b.marker))
    else if a.judgment != b.judgment then Some((a.judgment, b.judgment))
    else None
  }

  /** Equal chain digests mean equal files, or a collision is in hand. */
  lemma SameDigestSameFiles(sha: string -> string, a: RoundFiles, b: RoundFiles)
    returns (collision: Option<(string, string)>)
    requires DigestShaped(sha)
    requires ChainDigest(sha, a) == ChainDigest(sha, b)
    ensures collision.None? ==> a == b
    ensures collision.Some? ==> Collides(sha, collision.value)
  {
    hide ChainText;
    if ChainText(sha, a) != ChainText(sha, b) {
      return Some((ChainText(sha, a), ChainText(sha, b)));
    }
    ChainTextBinds(sha, a, b);
    return FirstDifference(a, b);
  }

  /** Hash-chain uniqueness.  Take two accepted lineages, in whatever worlds,
      that share SHA-256, the intent decoder and the active intent bytes.
      Either every earlier round is identical in all five files, and the
      active round in its marker and judgment, or the lemma returns two
      different inputs with one digest. */
  lemma ArchiveUnique(cx: Context, disk: Disk, cx': Context, disk': Disk)
    returns (collision: Option<(string, string)>)
    requires Accepted(cx, disk) && Accepted(cx', disk')
    requires cx.sha == cx'.sha && cx.decodeIntent == cx'.decodeIntent && DigestShaped(cx.sha)
    requires ActiveIntent in disk && ActiveIntent in disk' && disk[ActiveIntent] == disk'[ActiveIntent]
    ensures collision.None? ==>
      var rounds, rounds' := Rounds(cx, disk), Rounds(cx', disk');
      && |rounds| == |rounds'|
      && (forall i | 0 <= i < |rounds| - 1 :: rounds[i].files == rounds'[i].files)
      && rounds[|rounds| - 1].files.marker == rounds'[|rounds| - 1].files.marker
      && rounds[|rounds| - 1].files.judgment == rounds'[|rounds| - 1].files.judgment
    ensures collision.Some? ==> Collides(cx.sha, collision.value)
  {
    hide Accepted, RoundOk, RoundAt, ActiveRound, Rounds, Follows, StartsFromMerged, IsSha256Digest;
    RoundsLinked(cx, disk);
    RoundsLinked(cx', disk');
    ActiveFacts(cx, disk);
    ActiveFacts(cx', disk');
    var rounds, rounds' := Rounds(cx, disk), Rounds(cx', disk');
    var n := |rounds|;
    RoundFacts(cx, ActiveRound(cx, disk).value, rounds[n - 1]);
    RoundFacts(cx', ActiveRound(cx', disk').value, rounds'[n - 1]);
    if rounds[n - 1].files.marker != rounds'[n - 1].files.marker {
      return Some((rounds[n - 1].files.marker, rounds'[n - 1].files.marker));
    }
    if rounds[n - 1].files.judgment != rounds'[n - 1].files.judgment {
      return Some((rounds[n - 1].files.judgment, rounds'[n - 1].files.judgment));
    }
    collision := EarlierRoundsUnique(cx, disk, cx', disk', n - 1);
  }

  /** Induction from the newest round down: the intent of round `top` fixes
      the files of the round before it, and so that round's intent. */
  lemma {:induction false} EarlierRoundsUnique(cx: Context, disk: Disk, cx': Context, disk': Disk, top: nat)
    returns (collision: Option<(string, string)>)
    requires Accepted(cx, disk) && Accepted(cx', disk')
    requires cx.sha == cx'.sha && cx.decodeIntent == cx'.decodeIntent && DigestShaped(cx.sha)
    requires top < |Rounds(cx, disk)| == |Rounds(cx', disk')|
    requires Rounds(cx, disk)[top].intent == Rounds(cx', disk')[top].intent
    ensures collision.None? ==> forall i | 0 <= i < top :: Rounds(cx, disk)[i].files == Rounds(cx', disk')[i].files
    ensures collision.Some? ==> Collides(cx.sha, collision.value)
  {
    hide Accepted, RoundOk, ActiveRound, Rounds, ReadRound, Linked, ChainDigest, StartsFromMerged, IsSha256Digest;
    if top == 0 {
      return None;
    }
    RoundsLinked(cx, disk);
    RoundsLinked(cx', disk');
    var rounds, rounds' := Rounds(cx, disk), Rounds(cx', disk');
    assert Follows(cx, rounds[top - 1 + 1], rounds[top - 1], top - 1 + 1);
    assert Follows(cx', rounds'[top - 1 + 1], rounds'[top - 1], top - 1 + 1);
    collision := SameDigestSameFiles(cx.sha, rounds[top - 1].files, rounds'[top - 1].files);
    if collision.None? {
      assert RoundAt(cx, disk, ActiveRound(cx, disk).value, top - 1 + 1) == Some(rounds[top - 1]);
      assert RoundAt(cx', disk', ActiveRound(cx', disk').value, top - 1 + 1) == Some(rounds'[top - 1]);
      collision := EarlierRoundsUnique(cx, disk, cx', disk', top - 1);
    }
  }
}

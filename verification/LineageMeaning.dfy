/** Acceptance of a parent-repair lineage written out: what the files of every
    round say, who asked for the repair, what the Job history shows, and how the
    rounds follow each other. Stated without the validator's own checks, and
    proved to be exactly what it accepts. */
module LineageMeaning {
  import opened Common
  import opened Lineage
  import opened LineageFacts

  const U32_LIMIT: nat := 0x1_0000_0000

  // ------------------------------------------------------------- one round

  /** All three documents of a round are about this Job, one merged result and
      one repair. */
  ghost predicate OfThisJob(cx: Context, job: Job, r: Round) {
    && r.intent.schemaVersion == 1 && r.manifest.schemaVersion == 1 && r.candidate.schemaVersion == 1
    && cx.runId == r.intent.jobId && cx.runId == r.manifest.jobId && cx.runId == r.candidate.jobId
    && cx.runId == r.candidate.runId
    && (job.shape == Graph || job.shape == LegacyCampaign)
    && r.intent.shape == job.shape && r.manifest.shape == job.shape
    && r.manifest.round == r.intent.round && r.candidate.round == r.intent.round
    && |r.intent.mergedRunId| > 0 && r.manifest.mergedRunId == r.intent.mergedRunId
    && r.manifest.mergedTree == r.intent.mergedTree && r.manifest.preRepairTree == r.intent.preRepairTree
  }

  /** Attempts and epochs stay within the Job's limit and behind the request. */
  ghost predicate Bounded(job: Job, r: Round) {
    var limit := if job.maxAttempts == 0 then 1 else job.maxAttempts;
    && 1 <= r.intent.round && r.intent.round + 1 <= limit
    && 1 <= r.intent.afterAttempt && r.intent.afterAttempt + 1 <= limit
    && r.intent.afterAttempt + 1 <= r.manifest.attempt && r.intent.round + 1 <= r.manifest.attempt
    && r.manifest.attempt <= limit
    && 1 <= r.intent.afterEpoch && r.intent.afterEpoch <= r.manifest.epoch
    && r.candidate.attempt == r.manifest.attempt && r.candidate.epoch == r.manifest.epoch
    && r.candidate.launchId == r.manifest.launchId
  }

  /** The digests a round carries are those of its own files. */
  ghost predicate Digested(cx: Context, r: Round) {
    && r.manifest.intentSha == cx.sha(r.files.intent) && r.candidate.intentSha == cx.sha(r.files.intent)
    && r.candidate.manifestSha == cx.sha(r.files.manifest)
    && r.intent.reviseMarker == cx.sha(r.files.marker) && r.intent.reviseJudgment == cx.sha(r.files.judgment)
    && IsSha256Digest(r.intent.mergedTree) && IsSha256Digest(r.intent.preRepairTree)
    && IsSha256Digest(r.intent.reviseMarker) && IsSha256Digest(r.intent.reviseJudgment)
    && IsSha256Digest(r.intent.reviseInput)
    && IsSha256Digest(r.manifest.baselineTree) && IsSha256Digest(r.candidate.resultTree)
    && cx.isUuid(r.intent.afterLaunch) && cx.isUuid(r.manifest.launchId)
    && |r.files.candidate| > 0
  }

  /** The repair was asked for: a contained native pass of this run, and a
      judgment of this run that says revise, with the intent's input and feedback. */
  ghost predicate AskedFor(cx: Context, r: Round) {
    exists marker: Marker, judgment: Judgment ::
      && cx.decodeMarker(r.files.marker) == Some(marker) && cx.decodeJudgment(r.files.judgment) == Some(judgment)
      && marker.runId == cx.runId && marker.status == "pass" && marker.nativeProof && marker.contained
      && marker.backend != "none"
      && judgment.jobId == cx.runId && judgment.runId == cx.runId && judgment.decision.Revise?
      && judgment.inputSha == r.intent.reviseInput && cx.feedback(judgment) == r.intent.feedback
  }

  ghost predicate SaysNumber(event: JobEvent, key: Key, n: nat) {
    n < U32_LIMIT && key in event.detail && event.detail[key] == Number(n)
  }

  ghost predicate SaysText(event: JobEvent, key: Key, text: string) {
    key in event.detail && event.detail[key] == Text(text)
  }

  /** The Job history shows the launch the repair was requested after, the revise
      decision naming this intent, and the attempt with its launch. */
  ghost predicate Witnessed(cx: Context, history: seq<JobEvent>, r: Round) {
    && (exists e | e in history :: e.kind.ChildLinked? && e.epoch == r.intent.afterEpoch
          && SaysNumber(e, AttemptKey, r.intent.afterAttempt) && SaysText(e, LaunchKey, r.intent.afterLaunch))
    && (exists e | e in history :: e.kind.SemanticJudgeRevise? && e.epoch == r.intent.afterEpoch
          && SaysNumber(e, RoundKey, r.intent.round) && SaysText(e, IntentKey, cx.sha(r.files.intent))
          && SaysText(e, JudgmentKey, cx.sha(r.files.judgment)) && SaysText(e, MergedRunKey, r.intent.mergedRunId))
    && (exists e | e in history :: e.kind.AttemptStarted? && e.epoch == r.manifest.epoch
          && SaysNumber(e, AttemptKey, r.manifest.attempt))
    && (exists e | e in history :: e.kind.ChildLinked? && e.epoch == r.manifest.epoch
          && SaysNumber(e, AttemptKey, r.manifest.attempt) && SaysText(e, LaunchKey, r.manifest.launchId))
  }

  ghost predicate Genuine(cx: Context, job: Job, history: seq<JobEvent>, r: Round) {
    OfThisJob(cx, job, r) && Bounded(job, r) && Digested(cx, r) && AskedFor(cx, r) && Witnessed(cx, history, r)
  }

  // ------------------------------------------------------------ all rounds

  /** A round continues where the one before ended, and names its five files. */
  ghost predicate Continues(cx: Context, newer: Round, older: Round) {
    && newer.intent.previousRound == Some(cx.sha(
         "intent.json=" + cx.sha(older.files.intent) + "\n"
         + ("final-attempt.json=" + cx.sha(older.files.manifest) + "\n")
         + ("candidate.json=" + cx.sha(older.files.candidate) + "\n")
         + ("pre-repair-marker.json=" + cx.sha(older.files.marker) + "\n")
         + ("revise-judgment.json=" + cx.sha(older.files.judgment) + "\n")))
    && older.intent.mergedRunId == newer.intent.mergedRunId && older.intent.mergedTree == newer.intent.mergedTree
    && newer.intent.afterAttempt == older.candidate.attempt && newer.intent.afterLaunch == older.candidate.launchId
    && newer.intent.afterEpoch == older.candidate.epoch && newer.intent.preRepairTree == older.candidate.resultTree
  }

  ghost predicate Holds(disk: Disk, path: Path, bytes: string) {
    path in disk && disk[path] == Regular(bytes)
  }

  ghost predicate Decoded(cx: Context, r: Round) {
    && cx.decodeIntent(r.files.intent) == Some(r.intent)
    && cx.decodeManifest(r.files.manifest) == Some(r.manifest)
    && cx.decodeCandidate(r.files.candidate) == Some(r.candidate)
  }

  ghost predicate ArchivedOnDisk(disk: Disk, k: nat, files: RoundFiles) {
    && Holds(disk, Archived(k, IntentFile), files.intent) && Holds(disk, Archived(k, ManifestFile), files.manifest)
    && Holds(disk, Archived(k, CandidateFile), files.candidate)
    && Holds(disk, Archived(k, MarkerFile), files.marker) && Holds(disk, Archived(k, JudgmentFile), files.judgment)
  }

  ghost predicate ActiveOnDisk(disk: Disk, k: nat, files: RoundFiles) {
    && Holds(disk, ActiveIntent, files.intent) && Holds(disk, ActiveManifest, files.manifest)
    && Holds(disk, ActiveCandidate, files.candidate)
    && Holds(disk, Archived(k, MarkerFile), files.marker) && Holds(disk, Archived(k, JudgmentFile), files.judgment)
  }

  /** The whole lineage, oldest round first. */
  ghost predicate GenuineLineage(cx: Context, disk: Disk, job: Job, history: seq<JobEvent>, rounds: seq<Round>) {
    var n := |rounds|;
    && n >= 1 && cx.job == Ok(job) && cx.history == Ok(history) && cx.reduction.Ok?
    && (forall i | 0 <= i < n :: rounds[i].intent.round == i + 1 && Decoded(cx, rounds[i]) && Genuine(cx, job, history, rounds[i]))
    && (forall i | 0 <= i < n - 1 :: ArchivedOnDisk(disk, i + 1, rounds[i].files))
    && (forall i | 0 <= i < n - 1 :: Continues(cx, rounds[i + 1], rounds[i]))
    && ActiveOnDisk(disk, n, rounds[n - 1].files)
    && rounds[0].intent.previousRound == None && rounds[0].intent.preRepairTree == rounds[0].intent.mergedTree
    && cx.resultTree == Ok(rounds[n - 1].candidate.resultTree)
    && cx.mergedTree(rounds[n - 1].intent.mergedRunId) == Ok(rounds[n - 1].intent.mergedTree)
    && rounds[n - 1].manifest.attempt == AttemptCount(history)
  }

  // ------------------------------------------------------------ the proofs

  lemma IntentIff(cx: Context, job: Job, history: seq<JobEvent>, r: Round)
    ensures CheckIntent(cx, job, history, r.intent, r.files.intent, r.files.marker, r.files.judgment).Ok? <==>
      && IntentShapeOk(cx, job, r.intent)
      && r.intent.reviseMarker == cx.sha(r.files.marker) && r.intent.reviseJudgment == cx.sha(r.files.judgment)
      && AskedFor(cx, r)
      && (exists e | e in history :: IsLaunch(e, r.intent.afterEpoch, r.intent.afterAttempt, r.intent.afterLaunch))
      && (exists e | e in history :: IsRevision(e, r.intent, cx.sha(r.files.intent)))
  {
    hide IntentShapeOk, IsLaunch, IsRevision;
  }

  lemma EventsIff(e: JobEvent, epoch: nat, attempt: nat, launchId: string)
    ensures IsLaunch(e, epoch, attempt, launchId) <==>
      e.kind.ChildLinked? && e.epoch == epoch && SaysNumber(e, AttemptKey, attempt) && SaysText(e, LaunchKey, launchId)
    ensures IsStart(e, epoch, attempt) <==> e.kind.AttemptStarted? && e.epoch == epoch && SaysNumber(e, AttemptKey, attempt)
  {
  }

  lemma RevisionIff(e: JobEvent, intent: Intent, intentSha: string)
    ensures IsRevision(e, intent, intentSha) <==>
      && e.kind.SemanticJudgeRevise? && e.epoch == intent.afterEpoch
      && SaysNumber(e, RoundKey, intent.round) && SaysText(e, IntentKey, intentSha)
      && SaysText(e, JudgmentKey, intent.reviseJudgment) && SaysText(e, MergedRunKey, intent.mergedRunId)
  {
  }

  lemma WitnessedIff(cx: Context, history: seq<JobEvent>, r: Round)
    requires r.intent.reviseJudgment == cx.sha(r.files.judgment)
    ensures Witnessed(cx, history, r) <==>
      && (exists e | e in history :: IsLaunch(e, r.intent.afterEpoch, r.intent.afterAttempt, r.intent.afterLaunch))
      && (exists e | e in history :: IsRevision(e, r.intent, cx.sha(r.files.intent)))
      && (exists e | e in history :: IsStart(e, r.manifest.epoch, r.manifest.attempt))
      && (exists e | e in history :: IsLaunch(e, r.manifest.epoch, r.manifest.attempt, r.manifest.launchId))
  {
    hide IsLaunch, IsRevision, IsStart, SaysNumber, SaysText;
    forall e | e in history
      ensures IsLaunch(e, r.intent.afterEpoch, r.intent.afterAttempt, r.intent.afterLaunch) <==>
        e.kind.ChildLinked? && e.epoch == r.intent.afterEpoch
        && SaysNumber(e, AttemptKey, r.intent.afterAttempt) && SaysText(e, LaunchKey, r.intent.afterLaunch)
      ensures IsLaunch(e, r.manifest.epoch, r.manifest.attempt, r.manifest.launchId) <==>
        e.kind.ChildLinked? && e.epoch == r.manifest.epoch
        && SaysNumber(e, AttemptKey, r.manifest.attempt) && SaysText(e, LaunchKey, r.manifest.launchId)
      ensures IsStart(e, r.manifest.epoch, r.manifest.attempt) <==>
        e.kind.AttemptStarted? && e.epoch == r.manifest.epoch && SaysNumber(e, AttemptKey, r.manifest.attempt)
    {
      EventsIff(e, r.intent.afterEpoch, r.intent.afterAttempt, r.intent.afterLaunch);
      EventsIff(e, r.manifest.epoch, r.manifest.attempt, r.manifest.launchId);
    }
    forall e | e in history
      ensures IsRevision(e, r.intent, cx.sha(r.files.intent)) <==>
        && e.kind.SemanticJudgeRevise? && e.epoch == r.intent.afterEpoch
        && SaysNumber(e, RoundKey, r.intent.round) && SaysText(e, IntentKey, cx.sha(r.files.intent))
        && SaysText(e, JudgmentKey, cx.sha(r.files.judgment)) && SaysText(e, MergedRunKey, r.intent.mergedRunId)
    {
      RevisionIff(e, r.intent, cx.sha(r.files.intent));
    }
  }

  lemma ShapesIff(cx: Context, job: Job, r: Round)
    requires r.intent.reviseMarker == cx.sha(r.files.marker) && r.intent.reviseJudgment == cx.sha(r.files.judgment)
    ensures IntentShapeOk(cx, job, r.intent)
            && AttemptShapeOk(cx, job, r.intent, r.files.intent, r.manifest, r.files.manifest, r.candidate, r.files.candidate)
      <==> OfThisJob(cx, job, r) && Bounded(job, r) && Digested(cx, r)
  {
    hide IsSha256Digest;
  }

  /** One round passes the validator's checks exactly when it is genuine. */
  lemma RoundOkIff(cx: Context, active: Active, r: Round)
    ensures RoundOk(cx, active, r) <==> Genuine(cx, active.job, active.history, r)
  {
    hide IntentShapeOk, AttemptShapeOk, CheckIntent, IsLaunch, IsRevision, IsStart, OfThisJob, Bounded, AskedFor, Witnessed,
         IsSha256Digest;
    IntentIff(cx, active.job, active.history, r);
    if r.intent.reviseMarker == cx.sha(r.files.marker) && r.intent.reviseJudgment == cx.sha(r.files.judgment) {
      WitnessedIff(cx, active.history, r);
      ShapesIff(cx, active.job, r);
    }
  }

  lemma ReadRoundIff(disk: Disk, k: nat, files: RoundFiles)
    ensures ReadRound(disk, k) == Ok(files) <==> ArchivedOnDisk(disk, k, files)
  {
  }

  lemma ArchivedRoundIff(cx: Context, disk: Disk, active: Active, k: nat, r: Round)
    requires k != active.intent.round
    ensures RoundAt(cx, disk, active, k) == Some(r) <==> ArchivedOnDisk(disk, k, r.files) && Decoded(cx, r)
  {
    hide ReadRound, ArchivedOnDisk;
    ReadRoundIff(disk, k, r.files);
    if ReadRound(disk, k).Ok? {
      ReadRoundIff(disk, k, ReadRound(disk, k).value);
    }
  }

  lemma FollowsIff(cx: Context, newer: Round, older: Round)
    ensures Follows(cx, newer, older, older.intent.round) <==> Continues(cx, newer, older)
  {
  }

  /** The checks before the walk, written out. */
  lemma ActiveIff(cx: Context, disk: Disk, active: Active)
    ensures ActiveRound(cx, disk) == Ok(active) <==>
      var r := Round(active.intent, active.manifest, active.candidate, active.files);
      && cx.job == Ok(active.job) && cx.history == Ok(active.history) && cx.reduction.Ok?
      && ActiveOnDisk(disk, r.intent.round, r.files) && Decoded(cx, r)
      && RoundOk(cx, active, r)
      && cx.resultTree == Ok(r.candidate.resultTree)
      && cx.mergedTree(r.intent.mergedRunId) == Ok(r.intent.mergedTree)
      && r.manifest.attempt == AttemptCount(active.history)
  {
    hide AttemptCount, CheckIntent, CheckAttempt;
    if cx.resultTree.Ok? {
      ExpectedTree(cx, active.job, active.history, active.intent, active.files, active.manifest, active.candidate,
                   cx.resultTree.value);
    }
  }

  /** Whatever the validator accepts is a genuine lineage, and what it hands on are
      the bytes of the active manifest and candidate. */
  lemma AcceptedIsGenuine(cx: Context, disk: Disk)
    requires Accepted(cx, disk)
    ensures ActiveRound(cx, disk).Ok?
    ensures var active, rounds := ActiveRound(cx, disk).value, Rounds(cx, disk);
      && GenuineLineage(cx, disk, active.job, active.history, rounds)
      && Validate(cx, disk) == Ok(Some(ValidatedRepair(rounds[|rounds| - 1].files.manifest, rounds[|rounds| - 1].files.candidate)))
  {
    hide Accepted, RoundOk, RoundAt, ActiveRound, Rounds, Follows, Continues, Genuine, AttemptCount, Decoded, ArchivedOnDisk,
         ActiveOnDisk, Validate;
    RoundsLinked(cx, disk);
    var active, rounds := ActiveRound(cx, disk).value, Rounds(cx, disk);
    var n := |rounds|;
    ActiveIff(cx, disk, active);
    HandsOn(cx, disk);
    forall i | 0 <= i < n
      ensures rounds[i].intent.round == i + 1 && Decoded(cx, rounds[i]) && Genuine(cx, active.job, active.history, rounds[i])
      ensures i < n - 1 ==> ArchivedOnDisk(disk, i + 1, rounds[i].files)
    {
      RoundNumber(cx, disk, i);
      RoundOkIff(cx, active, rounds[i]);
      assert RoundAt(cx, disk, active, i + 1) == Some(rounds[i]);
      if i < n - 1 {
        ArchivedRoundIff(cx, disk, active, i + 1, rounds[i]);
      }
    }
    forall i | 0 <= i < n - 1
      ensures Continues(cx, rounds[i + 1], rounds[i])
    {
      FollowsIff(cx, rounds[i + 1], rounds[i]);
    }
  }

  lemma HandsOn(cx: Context, disk: Disk)
    requires Accepted(cx, disk)
    ensures ActiveRound(cx, disk).Ok?
    ensures var files := ActiveRound(cx, disk).value.files;
      Validate(cx, disk) == Ok(Some(ValidatedRepair(files.manifest, files.candidate)))
  {
    hide CheckIntent, CheckAttempt, Walk, AttemptCount;
  }

  /** Every genuine lineage is accepted. */
  lemma GenuineIsAccepted(cx: Context, disk: Disk, job: Job, history: seq<JobEvent>, rounds: seq<Round>)
    requires GenuineLineage(cx, disk, job, history, rounds)
    ensures Accepted(cx, disk)
  {
    hide Accepted, RoundOk, RoundAt, ActiveRound, Follows, Continues, Genuine, AttemptCount, Decoded, ArchivedOnDisk,
         ActiveOnDisk;
    var n := |rounds|;
    var last := rounds[n - 1];
    var active := Active(job, history, last.intent, last.manifest, last.candidate, last.files);
    forall k | 1 <= k <= n
      ensures RoundAt(cx, disk, active, k) == Some(rounds[k - 1]) && RoundOk(cx, active, rounds[k - 1])
    {
      RoundOkIff(cx, active, rounds[k - 1]);
      if k < n {
        assert ArchivedOnDisk(disk, k - 1 + 1, rounds[k - 1].files);
        ArchivedRoundIff(cx, disk, active, k, rounds[k - 1]);
      } else {
        NewestIsActive(cx, disk, active);
      }
    }
    ActiveIff(cx, disk, active);
    forall k | 1 <= k < n
      ensures Follows(cx, RoundAt(cx, disk, active, k + 1).value, RoundAt(cx, disk, active, k).value, k)
    {
      assert Continues(cx, rounds[k - 1 + 1], rounds[k - 1]);
      FollowsIff(cx, rounds[k], rounds[k - 1]);
    }
    assert Unbroken(cx, disk, active, n);
    assert StartsFromMerged(RoundAt(cx, disk, active, 1).value.intent);
    assert Round(active.intent, active.manifest, active.candidate, active.files) == rounds[n - 1];
    assert rounds[n - 1].intent.round == n && RoundAt(cx, disk, active, n) == Some(rounds[n - 1]);
    AcceptedIffWhole(cx, disk);
  }

  lemma NewestIsActive(cx: Context, disk: Disk, active: Active)
    ensures RoundAt(cx, disk, active, active.intent.round)
      == Some(Round(active.intent, active.manifest, active.candidate, active.files))
  {
  }

  /** There is nothing to validate exactly when none of the three active files is
      there; some of them without the others are refused. */
  lemma TrioIff(cx: Context, disk: Disk)
    ensures Validate(cx, disk) == Ok(None) <==> ActiveIntent !in disk && ActiveManifest !in disk && ActiveCandidate !in disk
    ensures (forall p | p in {ActiveIntent, ActiveManifest, ActiveCandidate} && p in disk :: disk[p].Regular?)
            && (exists p | p in {ActiveIntent, ActiveManifest, ActiveCandidate} :: p in disk)
            && (exists p | p in {ActiveIntent, ActiveManifest, ActiveCandidate} :: p !in disk)
      ==> Validate(cx, disk) == Err(Incomplete)
  {
    hide CheckActive, Walk;
  }

  ghost function Starts(history: seq<JobEvent>): set<int> {
    set i | 0 <= i < |history| && FirstStart(history, i)
  }

  /** The attempt count is the number of different attempt starts, as far as 32
      bits go. */
  lemma {:induction false} AttemptCountIs(history: seq<JobEvent>)
    ensures AttemptCount(history) == if |Starts(history)| < U32_LIMIT then |Starts(history)| else U32_LIMIT - 1
  {
    if history != [] {
      AttemptCountIs(history[..|history| - 1]);
      StartsOneMore(history);
      hide Starts;
    }
  }

  lemma StartsOneMore(history: seq<JobEvent>)
    requires history != []
    ensures var n := |history| - 1; |Starts(history)| == |Starts(history[..n])| + (if FirstStart(history, n) then 1 else 0)
  {
    var n := |history| - 1;
    assert forall i | 0 <= i < n :: FirstStart(history[..n], i) <==> FirstStart(history, i);
    assert Starts(history) == if FirstStart(history, n) then Starts(history[..n]) + {n} else Starts(history[..n]);
  }

  /** An attempt start that repeats no earlier row. */
  ghost predicate FirstStart(history: seq<JobEvent>, i: nat)
    requires i < |history|
  {
    history[i].kind.AttemptStarted? && forall j | 0 <= j < i :: history[j].id != history[i].id
  }
}

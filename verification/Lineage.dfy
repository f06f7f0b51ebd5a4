/** The parent-repair lineage validator of `completion.rs`: archived repair
    rounds are walked from the newest to the oldest, every round is checked
    against the Job history, and adjacent rounds are linked by a digest over
    five files. */
module Lineage {
  import opened Common

  /** One constructor per refusal of the validator; `Unavailable` stands for a
      Job record, history, run or tree that cannot be loaded. */
  datatype Refusal =
    | NotRegular | MissingFile | Unparsable | Incomplete | Unavailable
    | MalformedIntent | MarkerChanged | JudgmentChanged | NoReviseDecision | NoReviseEvent
    | CandidateMismatch | NoAttemptEvent | NotCurrentAttempt | MergedTreeChanged
    | ChainBroken | LineageBroken | WrongStart

  datatype JobShape = Graph | LegacyCampaign | OtherShape

  datatype Decision = Achieved | Revise | Uncertain

  datatype Job = Job(shape: JobShape, maxAttempts: nat) {
    function Limit(): nat {
      if maxAttempts > 1 then maxAttempts else 1
    }
  }

  datatype Intent = Intent(
    schemaVersion: nat,
    jobId: string,
    shape: JobShape,
    round: nat,
    mergedRunId: string,
    mergedTree: string,
    preRepairTree: string,
    reviseMarker: string,
    reviseJudgment: string,
    reviseInput: string,
    afterAttempt: nat,
    afterLaunch: string,
    afterEpoch: nat,
    feedback: string,
    previousRound: Option<string>)

  datatype Manifest = Manifest(
    schemaVersion: nat,
    jobId: string,
    shape: JobShape,
    round: nat,
    mergedRunId: string,
    mergedTree: string,
    preRepairTree: string,
    intentSha: string,
    attempt: nat,
    launchId: string,
    epoch: nat,
    baselineTree: string)

  datatype Candidate = Candidate(
    schemaVersion: nat,
    jobId: string,
    runId: string,
    round: nat,
    attempt: nat,
    launchId: string,
    epoch: nat,
    intentSha: string,
    manifestSha: string,
    resultTree: string)

  datatype Marker = Marker(
    runId: string, status: string, nativeProof: bool, contained: bool, backend: string)

  datatype Judgment = Judgment(
    jobId: string, runId: string, decision: Decision, summary: string,
    missing: seq<string>, inputSha: string)

  datatype EventKind = AttemptStarted | ChildLinked | SemanticJudgeRevise | OtherKind

  /** The detail keys of a Job event that the validator reads. */
  datatype Key = AttemptKey | LaunchKey | RoundKey | IntentKey | JudgmentKey | MergedRunKey

  datatype Detail = Number(n: nat) | Text(s: string) | OtherDetail

  datatype JobEvent = JobEvent(id: string, kind: EventKind, epoch: nat, detail: map<Key, Detail>) {
    /** A detail that is an unsigned number and fits 32 bits. */
    function DetailU32(key: Key): Option<nat> {
      if key in detail && detail[key].Number? && detail[key].n < 0x1_0000_0000
      then Some(detail[key].n) else None
    }

    function DetailText(key: Key): Option<string> {
      if key in detail && detail[key].Text? then Some(detail[key].s) else None
    }
  }

  /** The number of attempts a reduced history counts, saturating at 32 bits.  A
      row that repeats an event is skipped; that rows with one id are the same
      row is part of the reduction. */
  function AttemptCount(history: seq<JobEvent>): nat {
    if history == [] then 0
    else
      var earlier, last := history[..|history| - 1], history[|history| - 1];
      var before := AttemptCount(earlier);
      if exists e | e in earlier :: e.id == last.id then before
      else if last.kind == AttemptStarted && before < 0xFFFF_FFFF then before + 1
      else before
  }

  // ------------------------------------------------------------------ files

  datatype RoundFile = IntentFile | ManifestFile | CandidateFile | MarkerFile | JudgmentFile

  datatype Path = ActiveIntent | ActiveManifest | ActiveCandidate | Archived(round: nat, file: RoundFile)

  /** `Irregular` is a symbolic link, a directory or a special file. */
  datatype Node = Regular(bytes: string) | Irregular

  type Disk = map<Path, Node>

  /** The bytes of the five files of one round. */
  datatype RoundFiles = RoundFiles(
    intent: string, manifest: string, candidate: string, marker: string, judgment: string)

  /** What the validator reads besides the round files.  `sha` is SHA-256 in
      its text form; the decoders are serde's; `mergedTree` loads the run a
      merged run id names and hashes its deliverable tree; `feedback` formats
      the text a revise judgment asks for. */
  datatype Context = Context(
    runId: string,
    sha: string -> string,
    isUuid: string -> bool,
    decodeIntent: string -> Option<Intent>,
    decodeManifest: string -> Option<Manifest>,
    decodeCandidate: string -> Option<Candidate>,
    decodeMarker: string -> Option<Marker>,
    decodeJudgment: string -> Option<Judgment>,
    feedback: Judgment -> string,
    job: Result<Job, Refusal>,
    history: Result<seq<JobEvent>, Refusal>,
    reduction: Result<(), Refusal>,
    resultTree: Result<string, Refusal>,
    mergedTree: string -> Result<string, Refusal>)

  datatype ValidatedRepair = ValidatedRepair(manifest: string, candidate: string)

  function ReadOptional(disk: Disk, path: Path): Result<Option<string>, Refusal> {
    if path !in disk then Ok(None)
    else match disk[path]
      case Regular(bytes) => Ok(Some(bytes))
      case Irregular => Err(NotRegular)
  }

  function ReadRequired(disk: Disk, path: Path): Result<string, Refusal> {
    var bytes :- ReadOptional(disk, path);
    if bytes.Some? then Ok(bytes.value) else Err(MissingFile)
  }

  function ReadRound(disk: Disk, round: nat): Result<RoundFiles, Refusal> {
    var intent :- ReadRequired(disk, Archived(round, IntentFile));
    var manifest :- ReadRequired(disk, Archived(round, ManifestFile));
    var candidate :- ReadRequired(disk, Archived(round, CandidateFile));
    var marker :- ReadRequired(disk, Archived(round, MarkerFile));
    var judgment :- ReadRequired(disk, Archived(round, JudgmentFile));
    Ok(RoundFiles(intent, manifest, candidate, marker, judgment))
  }

  function Parse<T>(decoded: Option<T>): Result<T, Refusal> {
    if decoded.Some? then Ok(decoded.value) else Err(Unparsable)
  }

  /** The text whose digest links a round to its successor. */
  function ChainText(sha: string -> string, files: RoundFiles): string {
    "intent.json=" + sha(files.intent) + "\n"
    + ("final-attempt.json=" + sha(files.manifest) + "\n")
    + ("candidate.json=" + sha(files.candidate) + "\n")
    + ("pre-repair-marker.json=" + sha(files.marker) + "\n")
    + ("revise-judgment.json=" + sha(files.judgment) + "\n")
  }

  function ChainDigest(sha: string -> string, files: RoundFiles): string {
    sha(ChainText(sha, files))
  }

  // ----------------------------------------------------------- local checks

  predicate IntentShapeOk(cx: Context, job: Job, intent: Intent) {
    && intent.schemaVersion == 1
    && intent.jobId == cx.runId
    && intent.shape == job.shape
    && (intent.shape == Graph || intent.shape == LegacyCampaign)
    && 0 < intent.round < job.Limit()
    && intent.mergedRunId != ""
    && IsSha256Digest(intent.mergedTree)
    && IsSha256Digest(intent.preRepairTree)
    && IsSha256Digest(intent.reviseMarker)
    && IsSha256Digest(intent.reviseJudgment)
    && IsSha256Digest(intent.reviseInput)
    && 0 < intent.afterAttempt < job.Limit()
    && 0 < intent.afterEpoch
    && cx.isUuid(intent.afterLaunch)
  }

  predicate BackedByRevision(cx: Context, intent: Intent, marker: Marker, judgment: Judgment) {
    && marker.runId == cx.runId
    && marker.status == "pass"
    && marker.nativeProof
    && marker.contained
    && marker.backend != "none"
    && judgment.jobId == cx.runId
    && judgment.runId == cx.runId
    && judgment.decision == Revise
    && judgment.inputSha == intent.reviseInput
    && cx.feedback(judgment) == intent.feedback
  }

  predicate IsLaunch(event: JobEvent, epoch: nat, attempt: nat, launchId: string) {
    && event.kind == ChildLinked
    && event.epoch == epoch
    && event.DetailU32(AttemptKey) == Some(attempt)
    && event.DetailText(LaunchKey) == Some(launchId)
  }

  predicate IsRevision(event: JobEvent, intent: Intent, intentSha: string) {
    && event.kind == SemanticJudgeRevise
    && event.epoch == intent.afterEpoch
    && event.DetailU32(RoundKey) == Some(intent.round)
    && event.DetailText(IntentKey) == Some(intentSha)
    && event.DetailText(JudgmentKey) == Some(intent.reviseJudgment)
    && event.DetailText(MergedRunKey) == Some(intent.mergedRunId)
  }

  predicate IsStart(event: JobEvent, epoch: nat, attempt: nat) {
    && event.kind == AttemptStarted
    && event.epoch == epoch
    && event.DetailU32(AttemptKey) == Some(attempt)
  }

  function CheckIntent(cx: Context, job: Job, history: seq<JobEvent>, intent: Intent,
                       intentBytes: string, markerBytes: string, judgmentBytes: string): Result<(), Refusal> {
    var _ :- Require(IntentShapeOk(cx, job, intent), MalformedIntent);
    var _ :- Require(intent.reviseMarker == cx.sha(markerBytes), MarkerChanged);
    var _ :- Require(intent.reviseJudgment == cx.sha(judgmentBytes), JudgmentChanged);
    var marker :- Parse(cx.decodeMarker(markerBytes));
    var judgment :- Parse(cx.decodeJudgment(judgmentBytes));
    var _ :- Require(BackedByRevision(cx, intent, marker, judgment), NoReviseDecision);
    Require(
      && (exists e | e in history :: IsLaunch(e, intent.afterEpoch, intent.afterAttempt, intent.afterLaunch))
      && (exists e | e in history :: IsRevision(e, intent, cx.sha(intentBytes))),
      NoReviseEvent)
  }

  predicate AttemptShapeOk(cx: Context, job: Job, intent: Intent, intentBytes: string,
                           manifest: Manifest, manifestBytes: string,
                           candidate: Candidate, candidateBytes: string) {
    && manifest.schemaVersion == 1
    && candidate.schemaVersion == 1
    && manifest.jobId == cx.runId
    && candidate.jobId == cx.runId
    && candidate.runId == cx.runId
    && manifest.shape == job.shape
    && manifest.shape == intent.shape
    && manifest.round == intent.round
    && candidate.round == intent.round
    && manifest.mergedRunId == intent.mergedRunId
    && manifest.mergedTree == intent.mergedTree
    && manifest.preRepairTree == intent.preRepairTree
    && manifest.intentSha == cx.sha(intentBytes)
    && candidate.intentSha == cx.sha(intentBytes)
    && candidate.manifestSha == cx.sha(manifestBytes)
    && candidate.attempt == manifest.attempt
    && candidate.launchId == manifest.launchId
    && candidate.epoch == manifest.epoch
    && manifest.attempt > intent.afterAttempt
    && manifest.attempt > intent.round
    && manifest.attempt <= job.Limit()
    && manifest.epoch >= intent.afterEpoch
    && manifest.epoch != 0
    && cx.isUuid(manifest.launchId)
    && IsSha256Digest(manifest.baselineTree)
    && IsSha256Digest(candidate.resultTree)
    && candidateBytes != ""
  }

  function CheckAttempt(cx: Context, job: Job, history: seq<JobEvent>, intent: Intent, intentBytes: string,
                        manifest: Manifest, manifestBytes: string,
                        candidate: Candidate, candidateBytes: string,
                        expectedTree: Option<string>): Result<(), Refusal> {
    var _ :- Require(
      && AttemptShapeOk(cx, job, intent, intentBytes, manifest, manifestBytes, candidate, candidateBytes)
      && (expectedTree.Some? ==> candidate.resultTree == expectedTree.value),
      CandidateMismatch);
    Require(
      && (exists e | e in history :: IsStart(e, manifest.epoch, manifest.attempt))
      && (exists e | e in history :: IsLaunch(e, manifest.epoch, manifest.attempt, manifest.launchId)),
      NoAttemptEvent)
  }

  /** The link between a round's intent and the round before it. */
  predicate Linked(newer: Intent, previous: Intent, candidate: Candidate, previousRound: nat) {
    && previous.round == previousRound
    && previous.mergedRunId == newer.mergedRunId
    && previous.mergedTree == newer.mergedTree
    && newer.afterAttempt == candidate.attempt
    && newer.afterLaunch == candidate.launchId
    && newer.afterEpoch == candidate.epoch
    && newer.preRepairTree == candidate.resultTree
  }

  predicate StartsFromMerged(first: Intent) {
    first.previousRound.None? && first.preRepairTree == first.mergedTree
  }

  // ------------------------------------------------------------ the walk

  /** One archived round, checked below the intent that names it. */
  function CheckArchived(cx: Context, job: Job, history: seq<JobEvent>, disk: Disk,
                         newer: Intent, previousRound: nat): Result<Intent, Refusal> {
    var files :- ReadRound(disk, previousRound);
    var _ :- Require(newer.previousRound == Some(ChainDigest(cx.sha, files)), ChainBroken);
    var intent :- Parse(cx.decodeIntent(files.intent));
    var manifest :- Parse(cx.decodeManifest(files.manifest));
    var candidate :- Parse(cx.decodeCandidate(files.candidate));
    var _ :- CheckIntent(cx, job, history, intent, files.intent, files.marker, files.judgment);
    var _ :- CheckAttempt(cx, job, history, intent, files.intent, manifest, files.manifest,
                          candidate, files.candidate, None);
    var _ :- Require(Linked(newer, intent, candidate, previousRound), LineageBroken);
    Ok(intent)
  }

  function Walk(cx: Context, job: Job, history: seq<JobEvent>, disk: Disk, newer: Intent, round: nat): Result<(), Refusal>
    decreases round
  {
    if round > 1 then
      var previous :- CheckArchived(cx, job, history, disk, newer, round - 1);
      Walk(cx, job, history, disk, previous, round - 1)
    else
      Require(StartsFromMerged(newer), WrongStart)
  }

  datatype Active = Active(
    job: Job, history: seq<JobEvent>, intent: Intent, manifest: Manifest, candidate: Candidate, files: RoundFiles)

  /** Everything checked before the walk starts. */
  function CheckActive(cx: Context, disk: Disk, intentBytes: string, manifestBytes: string,
                       candidateBytes: string): Result<Active, Refusal> {
    var job :- cx.job;
    var history :- cx.history;
    var _ :- cx.reduction;
    var intent :- Parse(cx.decodeIntent(intentBytes));
    var manifest :- Parse(cx.decodeManifest(manifestBytes));
    var candidate :- Parse(cx.decodeCandidate(candidateBytes));
    var marker :- ReadRequired(disk, Archived(intent.round, MarkerFile));
    var judgment :- ReadRequired(disk, Archived(intent.round, JudgmentFile));
    var _ :- CheckIntent(cx, job, history, intent, intentBytes, marker, judgment);
    var resultTree :- cx.resultTree;
    var _ :- CheckAttempt(cx, job, history, intent, intentBytes, manifest, manifestBytes,
                          candidate, candidateBytes, Some(resultTree));
    var _ :- Require(manifest.attempt == AttemptCount(history), NotCurrentAttempt);
    var mergedTree :- cx.mergedTree(intent.mergedRunId);
    var _ :- Require(intent.mergedTree == mergedTree, MergedTreeChanged);
    Ok(Active(job, history, intent, manifest, candidate,
              RoundFiles(intentBytes, manifestBytes, candidateBytes, marker, judgment)))
  }

  function Validate(cx: Context, disk: Disk): Result<Option<ValidatedRepair>, Refusal> {
    var intent :- ReadOptional(disk, ActiveIntent);
    var manifest :- ReadOptional(disk, ActiveManifest);
    var candidate :- ReadOptional(disk, ActiveCandidate);
    if intent.None? && manifest.None? && candidate.None? then Ok(None)
    else if intent.None? || manifest.None? || candidate.None? then Err(Incomplete)
    else
      var active :- CheckActive(cx, disk, intent.value, manifest.value, candidate.value);
      var _ :- Walk(cx, active.job, active.history, disk, active.intent, active.intent.round);
      Ok(Some(ValidatedRepair(manifest.value, candidate.value)))
  }

  /** The validator as the source writes it: a loop that moves `newer` and
      `currentRound` towards the first round and stops at the first refusal. */
  method ValidateLineage(cx: Context, disk: Disk) returns (result: Result<Option<ValidatedRepair>, Refusal>)
    ensures result == Validate(cx, disk)
  {
    var intent :- ReadOptional(disk, ActiveIntent);
    var manifest :- ReadOptional(disk, ActiveManifest);
    var candidate :- ReadOptional(disk, ActiveCandidate);
    if intent.None? && manifest.None? && candidate.None? {
      return Ok(None);
    }
    if intent.None? || manifest.None? || candidate.None? {
      return Err(Incomplete);
    }
    var active :- CheckActive(cx, disk, intent.value, manifest.value, candidate.value);
    var newer := active.intent;
    var currentRound := newer.round;
    while currentRound > 1
      invariant Walk(cx, active.job, active.history, disk, newer, currentRound)
             == Walk(cx, active.job, active.history, disk, active.intent, active.intent.round)
      decreases currentRound
    {
      var previousRound := currentRound - 1;
      var previous :- CheckArchived(cx, active.job, active.history, disk, newer, previousRound);
      newer := previous;
      currentRound := previousRound;
    }
    if !StartsFromMerged(newer) {
      return Err(WrongStart);
    }
    return Ok(Some(ValidatedRepair(manifest.value, candidate.value)));
  }
}

/** Two-key completion receipts (`completion.rs`): the checks shared by
    sealing and validation, the seal, and the strict validator as one
    fail-first chain. */
module Completion {
  import opened Common
  import opened Framing
  import Lineage
  import LineageFacts

  datatype Refusal =
    | Unreadable | Unparsable | TooLarge
    | IdentityMismatch | NotTwoKeyVerified
    | GoalChanged | LaunchPlanChanged | LaunchAuthorityChanged | AuthorityChanged | PolicyChanged
    | JudgeModeChanged | NoExecutionPolicy | ContainmentMismatch | ContractChanged | ContractNotStrict
    | NoCodebaseRecord | WrongBase | NoResultBranch | RevisionGone | BadResultHistory
    | RevisionMismatch | NotCommitted
    | ObservationRefused | AttemptMismatch | ObservationChanged | LedgersChanged
    | MarkerChanged | JudgmentChanged | NotAchieved | NoCoverage
    | LineageRefused | NotNativeProof | NotContained | ContainmentChanged
    | ProjectionMissing | ProjectionUndigested | ProjectionChanged | ProjectionGone | ProjectionRefused
    | ResultTreeChanged | RetentionRefused | NoKey | BadSignature
    | AuditWithoutReceipt

  // ------------------------------------------------------------- documents

  datatype Execution = Execution(requireContainment: bool, sandboxRequested: string, tools: set<string>)

  datatype Policy = Policy(semanticJudge: string, execution: Option<Execution>)

  datatype Job = Job(jobId: string, goal: string, launchPlanSha: string, authoritySha: string, policy: Policy)

  datatype Authority = Authority(
    jobId: string,
    runId: string,
    goalSha: string,
    contractSha: string,
    policySha: string,
    launchPlanSha: string,
    sourceTreeSha: string,
    sourceRevision: Option<string>,
    sandboxRequested: string,
    judgeMode: string)

  datatype Marker = Marker(nativeProof: bool, contained: bool, backend: string, rest: string)

  datatype Decision = Achieved | Revise | Uncertain

  datatype Coverage = Coverage(met: bool, evidence: seq<string>)

  datatype Judgment = Judgment(
    jobId: string, runId: string, decision: Decision, coverage: seq<Coverage>, missing: seq<string>)

  datatype Observation = Observation(attempt: nat, outerLaunchId: string, backend: string, rest: string)

  datatype Evidence = Evidence(
    candidateManifestSha: string, applicationsSha: Option<string>, hooksSha: Option<string>)

  datatype Outcome = Verified | OtherOutcome

  datatype Receipt = Receipt(
    jobId: string,
    runId: string,
    attempt: nat,
    outerLaunchId: string,
    issuedAt: int,
    outcome: Outcome,
    stopReason: Outcome,
    authoritySha: string,
    goalSha: string,
    contractSha: string,
    policySha: string,
    launchPlanSha: string,
    sourceTreeSha: string,
    sourceRevision: Option<string>,
    projectionSha: Option<string>,
    resultTreeSha: string,
    resultRevision: Option<string>,
    markerSha: string,
    judgmentSha: string,
    observationSha: string,
    evidence: Option<Evidence>,
    contained: bool,
    backend: string,
    signature: string)

  // ----------------------------------------------------------------- world

  datatype File =
    | ReceiptFile(jobId: string) | AuthorityFile(jobId: string) | LaunchPlanFile(jobId: string)
    | JobFile(jobId: string) | ObservationFile(jobId: string)
    | CandidateManifestFile(jobId: string) | ApplicationsFile(jobId: string) | HooksFile(jobId: string)
    | ContractFile | MarkerFile | JudgmentFile

  /** The trusted codebase record of the run. */
  datatype Codebase = InPlace | Worktree(base: Option<string>, branchRevision: Option<string>)

  /** Digest, MAC, gate keys, serde and the two opaque content checks. */
  datatype Env = Env(
    sha: string -> string,
    mac: Mac,
    key: string -> Option<string>,
    encodeReceipt: Receipt -> string,
    receiptFile: Receipt -> string,
    parseReceipt: string -> Option<Receipt>,
    parseAuthority: string -> Option<Authority>,
    parseJob: string -> Option<Job>,
    parseJudgment: string -> Option<Judgment>,
    parseObservation: string -> Option<Observation>,
    parseLaunch: string -> Option<bool>,
    encodePolicy: Policy -> string,
    strictContract: string -> bool)

  /** One run and its Job directory.  Git results, the projection and the
      observation's field checks appear as deterministic outcomes of this world.
      `lineage` and `rounds` are what the parent-repair validator reads, and
      `acceptance` validates the marker against the repair it found, if any.
      `resultTree` is the byte listing that the result tree digest hashes. */
  datatype World = World(
    runId: string,
    files: map<File, string>,
    codebase: Option<Codebase>,
    promoted: bool,
    head: Result<Option<string>, Refusal>,
    resolve: string -> Option<string>,
    historyOk: string -> bool,
    retains: string -> bool,
    lineage: Lineage.Context,
    rounds: Lineage.Disk,
    acceptance: Option<Lineage.ValidatedRepair> -> Result<Marker, Refusal>,
    observationOk: (Authority, Observation) -> bool,
    projectionRequired: Result<bool, Refusal>,
    projection: Option<string>,
    projectionAtWorkingDir: bool,
    projectionAtCandidate: bool,
    resultTree: Result<string, Refusal>)

  /** The acceptance marker, validated after the parent-repair lineage and
      against the bytes of its active round. */
  function ValidatedMarker(w: World): Result<Marker, Refusal> {
    match Lineage.Validate(w.lineage, w.rounds)
    case Err(_) => Err(LineageRefused)
    case Ok(repair) => w.acceptance(repair)
  }

  ghost predicate Faithful(env: Env) {
    forall r :: env.parseReceipt(env.receiptFile(r)) == Some(r)
  }

  // ---------------------------------------------------------------- checks

  function Read(w: World, file: File): Result<string, Refusal> {
    if file in w.files then Ok(w.files[file]) else Err(Unreadable)
  }

  function Parse<T>(decoded: Option<T>): Result<T, Refusal> {
    if decoded.Some? then Ok(decoded.value) else Err(Unparsable)
  }

  function DigestOf(env: Env, w: World, file: File): Result<string, Refusal> {
    var bytes :- Read(w, file);
    Ok(env.sha(bytes))
  }

  function OptionalDigest(env: Env, w: World, file: File): Option<string> {
    if file in w.files then Some(env.sha(w.files[file])) else None
  }

  function LoadJob(env: Env, w: World, jobId: string): Result<Job, Refusal> {
    var bytes :- Read(w, JobFile(jobId));
    Parse(env.parseJob(bytes))
  }

  function LoadReceipt(env: Env, w: World): Result<Receipt, Refusal> {
    var bytes :- Read(w, ReceiptFile(w.runId));
    Parse(env.parseReceipt(bytes))
  }

  function LoadAuthority(env: Env, w: World): Result<(Authority, Job), Refusal> {
    var bytes :- Read(w, AuthorityFile(w.runId));
    var authority :- Parse(env.parseAuthority(bytes));
    var job :- LoadJob(env, w, w.runId);
    Ok((authority, job))
  }

  function AuthorityInputs(env: Env, w: World, job: Job, authority: Authority, dir: string): Result<(), Refusal> {
    var _ :- Require(authority.goalSha == env.sha(job.goal), GoalChanged);
    var launch :- DigestOf(env, w, LaunchPlanFile(dir));
    var _ :- Require(authority.launchPlanSha == launch, LaunchPlanChanged);
    var _ :- Require(job.launchPlanSha == authority.launchPlanSha, LaunchAuthorityChanged);
    var digest :- DigestOf(env, w, AuthorityFile(dir));
    var _ :- Require(job.authoritySha == digest, AuthorityChanged);
    var _ :- Require(authority.policySha == env.sha(env.encodePolicy(job.policy)), PolicyChanged);
    var _ :- Require(authority.judgeMode == job.policy.semanticJudge, JudgeModeChanged);
    var _ :- Require(job.policy.execution.Some?, NoExecutionPolicy);
    var execution := job.policy.execution.value;
    var _ :- Require(
      && execution.requireContainment
      && execution.sandboxRequested == authority.sandboxRequested
      && "bash" in execution.tools && "write_file" in execution.tools, ContainmentMismatch);
    var contract :- Read(w, ContractFile);
    var _ :- Require(authority.contractSha == env.sha(contract), ContractChanged);
    Require(env.strictContract(contract), ContractNotStrict)
  }

  function BoundaryRevision(w: World, branch: Option<string>, receipt: Option<Receipt>): Result<string, Refusal> {
    if branch.Some? then Ok(branch.value)
    else if receipt.Some? && receipt.value.resultRevision.Some? && w.promoted then
      match w.resolve(receipt.value.resultRevision.value)
      case Some(revision) => Ok(revision)
      case None => Err(RevisionGone)
    else Err(NoResultBranch)
  }

  /** The worktree result boundary.  Without a receipt the head being sealed
      must be the result branch; with one, the receipt must name it. */
  function ResultBoundary(w: World, authority: Authority, receipt: Option<Receipt>): Result<Option<string>, Refusal> {
    match w.codebase
    case None => Err(NoCodebaseRecord)
    case Some(InPlace) => Ok(None)
    case Some(Worktree(base, branch)) =>
      var _ :- Require(base.Some? && base == authority.sourceRevision, WrongBase);
      var revision :- BoundaryRevision(w, branch, receipt);
      var _ :- Require(w.historyOk(revision), BadResultHistory);
      var _ :- if receipt.Some? then Require(receipt.value.resultRevision == Some(revision), RevisionMismatch)
               else Require(w.head == Ok(Some(revision)), NotCommitted);
      Ok(Some(revision))
  }

  /** The authenticated sandbox observation: its attempt starts at one and its
      backend is the expected one. */
  function Observe(env: Env, w: World, authority: Authority, backend: string): Result<Observation, Refusal> {
    var bytes :- Read(w, ObservationFile(authority.jobId));
    var observation :- Parse(env.parseObservation(bytes));
    var _ :- Require(
      && observation.attempt != 0 && observation.backend == backend
      && w.observationOk(authority, observation), ObservationRefused);
    Ok(observation)
  }

  function ExecutionEvidence(env: Env, w: World, jobId: string): Result<Option<Evidence>, Refusal> {
    var launch :- Read(w, LaunchPlanFile(jobId));
    var durableChain :- Parse(env.parseLaunch(launch));
    if !durableChain then Ok(None)
    else
      var manifest :- DigestOf(env, w, CandidateManifestFile(jobId));
      Ok(Some(Evidence(manifest,
                       OptionalDigest(env, w, ApplicationsFile(jobId)),
                       OptionalDigest(env, w, HooksFile(jobId)))))
  }

  predicate CoverageComplete(judgment: Judgment) {
    && judgment.coverage != []
    && judgment.missing == []
    && forall c | c in judgment.coverage :: c.met && c.evidence != []
  }

  function Message(env: Env, receipt: Receipt): Option<string> {
    Frame(CompletionReceipt, env.encodeReceipt(receipt.(signature := "")))
  }

  // ------------------------------------------------------------------ seal

  function ResultRevision(w: World, boundary: Option<string>): Result<Option<string>, Refusal> {
    if boundary.Some? then Ok(boundary) else w.head
  }

  function SealChecks(env: Env, w: World, authority: Authority, marker: Marker, judgment: Judgment): Result<(), Refusal> {
    var job :- LoadJob(env, w, authority.jobId);
    var _ :- Require(job.jobId == authority.jobId && w.runId == authority.runId, IdentityMismatch);
    var validated :- ValidatedMarker(w);
    var _ :- Require(validated == marker && marker.nativeProof, NotNativeProof);
    var _ :- Require(marker.contained && marker.backend != "none", NotContained);
    var _ :- Require(
      && judgment.jobId == authority.jobId && judgment.runId == authority.runId
      && judgment.decision == Achieved, NotAchieved);
    var _ :- Require(CoverageComplete(judgment), NoCoverage);
    AuthorityInputs(env, w, job, authority, authority.jobId)
  }

  function SealProjection(env: Env, w: World): Result<Option<string>, Refusal> {
    var required :- w.projectionRequired;
    var _ :- Require(required ==> w.projection.Some?, ProjectionMissing);
    if w.projection.None? then Ok(None)
    else
      var _ :- Require(w.projectionAtWorkingDir && w.projectionAtCandidate, ProjectionRefused);
      Ok(Some(env.sha(w.projection.value)))
  }

  /** The receipt that sealing assembles, before it is signed. */
  function Unsigned(env: Env, w: World, authority: Authority, marker: Marker, now: int): Result<Receipt, Refusal> {
    var boundary :- ResultBoundary(w, authority, None);
    var projection :- SealProjection(env, w);
    var tree :- w.resultTree;
    var observation :- Observe(env, w, authority, marker.backend);
    var evidence :- ExecutionEvidence(env, w, authority.jobId);
    var authoritySha :- DigestOf(env, w, AuthorityFile(authority.jobId));
    var revision :- ResultRevision(w, boundary);
    var markerSha :- DigestOf(env, w, MarkerFile);
    var judgmentSha :- DigestOf(env, w, JudgmentFile);
    var observationSha :- DigestOf(env, w, ObservationFile(authority.jobId));
    Ok(Receipt(
      authority.jobId, authority.runId, observation.attempt, observation.outerLaunchId, now, Verified, Verified,
      authoritySha, authority.goalSha, authority.contractSha, authority.policySha, authority.launchPlanSha,
      authority.sourceTreeSha, authority.sourceRevision, projection, env.sha(tree), revision,
      markerSha, judgmentSha, observationSha, evidence, marker.contained, marker.backend, ""))
  }

  function SignReceipt(env: Env, w: World, unsigned: Receipt): Result<Receipt, Refusal> {
    match (env.key(w.runId), Message(env, unsigned))
    case (None, _) => Err(NoKey)
    case (_, None) => Err(TooLarge)
    case (Some(key), Some(message)) => Ok(unsigned.(signature := Sign(env.mac, key, message)))
  }

  function Seal(env: Env, w: World, authority: Authority, marker: Marker, judgment: Judgment, now: int)
    : Result<Receipt, Refusal> {
    var _ :- SealChecks(env, w, authority, marker, judgment);
    var unsigned :- Unsigned(env, w, authority, marker, now);
    var _ :- Require(unsigned.resultRevision.Some? ==> w.retains(unsigned.resultRevision.value), RetentionRefused);
    SignReceipt(env, w, unsigned)
  }

  /** The world after a seal: the receipt file, and nothing else, is written. */
  function Sealed(env: Env, w: World, receipt: Receipt): World {
    w.(files := w.files[ReceiptFile(receipt.jobId) := env.receiptFile(receipt)])
  }

  // ------------------------------------------------------------ validation

  function CheckIdentity(w: World, receipt: Receipt): Result<(), Refusal> {
    Require(receipt.jobId == w.runId && receipt.runId == w.runId, IdentityMismatch)
  }

  function CheckProvenance(receipt: Receipt): Result<(), Refusal> {
    Require(receipt.outcome == Verified && receipt.stopReason == Verified, NotTwoKeyVerified)
  }

  function CheckBoundary(w: World, authority: Authority, receipt: Receipt): Result<(), Refusal> {
    var _ :- ResultBoundary(w, authority, Some(receipt));
    Ok(())
  }

  function CheckAttempt(receipt: Receipt, observation: Observation): Result<(), Refusal> {
    Require(
      && receipt.attempt != 0 && receipt.attempt == observation.attempt
      && receipt.outerLaunchId == observation.outerLaunchId, AttemptMismatch)
  }

  function CheckDigest(env: Env, w: World, file: File, expected: string, changed: Refusal): Result<(), Refusal> {
    var actual :- DigestOf(env, w, file);
    Require(expected == actual, changed)
  }

  function CheckEvidence(env: Env, w: World, receipt: Receipt): Result<(), Refusal> {
    var actual :- ExecutionEvidence(env, w, w.runId);
    Require(receipt.evidence == actual, LedgersChanged)
  }

  function CheckJudgment(env: Env, w: World, receipt: Receipt): Result<(), Refusal> {
    var bytes :- Read(w, JudgmentFile);
    var judgment :- Parse(env.parseJudgment(bytes));
    var _ :- Require(
      && judgment.decision == Achieved && judgment.jobId == receipt.jobId
      && judgment.runId == receipt.runId, NotAchieved);
    Require(CoverageComplete(judgment), NoCoverage)
  }

  function CheckMarker(w: World, receipt: Receipt): Result<(), Refusal> {
    var marker :- ValidatedMarker(w);
    Require(
      && marker.nativeProof && marker.contained == receipt.contained
      && marker.backend == receipt.backend, ContainmentChanged)
  }

  function CheckProjection(env: Env, w: World, receipt: Receipt): Result<(), Refusal> {
    var required :- w.projectionRequired;
    var _ :- Require(required ==> w.projection.Some?, ProjectionMissing);
    if w.projection.Some? then
      var _ :- Require(receipt.projectionSha.Some?, ProjectionUndigested);
      var _ :- Require(receipt.projectionSha.value == env.sha(w.projection.value), ProjectionChanged);
      Require(w.projectionAtCandidate, ProjectionRefused)
    else Require(receipt.projectionSha.None?, ProjectionGone)
  }

  function CheckTree(env: Env, w: World, receipt: Receipt): Result<(), Refusal> {
    var tree :- w.resultTree;
    Require(receipt.resultTreeSha == env.sha(tree), ResultTreeChanged)
  }

  function CheckSignature(env: Env, w: World, receipt: Receipt): Result<(), Refusal> {
    match (env.key(w.runId), Message(env, receipt))
    case (None, _) => Err(NoKey)
    case (_, None) => Err(TooLarge)
    case (Some(key), Some(message)) => Require(Verifies(env.mac, key, message, receipt.signature), BadSignature)
  }

  /** The strict validator: stop at the first refusal, else return the receipt. */
  function Strict(env: Env, w: World): Result<Receipt, Refusal> {
    var receipt :- LoadReceipt(env, w);
    var _ :- CheckIdentity(w, receipt);
    var _ :- CheckProvenance(receipt);
    var documents :- LoadAuthority(env, w);
    var (authority, job) := documents;
    var _ :- AuthorityInputs(env, w, job, authority, w.runId);
    var _ :- CheckBoundary(w, authority, receipt);
    var observation :- Observe(env, w, authority, receipt.backend);
    var _ :- CheckAttempt(receipt, observation);
    var _ :- CheckDigest(env, w, ObservationFile(w.runId), receipt.observationSha, ObservationChanged);
    var _ :- CheckEvidence(env, w, receipt);
    var _ :- CheckDigest(env, w, AuthorityFile(w.runId), receipt.authoritySha, AuthorityChanged);
    var _ :- CheckDigest(env, w, LaunchPlanFile(w.runId), receipt.launchPlanSha, LaunchPlanChanged);
    var _ :- CheckDigest(env, w, MarkerFile, receipt.markerSha, MarkerChanged);
    var _ :- CheckDigest(env, w, JudgmentFile, receipt.judgmentSha, JudgmentChanged);
    var _ :- CheckJudgment(env, w, receipt);
    var _ :- CheckMarker(w, receipt);
    var _ :- CheckProjection(env, w, receipt);
    var _ :- CheckTree(env, w, receipt);
    var _ :- CheckSignature(env, w, receipt);
    Ok(receipt)
  }

  // ------------------------------------------------------ seal and validate

  /** The authority and judgment a caller passed are the ones on disk. */
  ghost predicate PassedIsOnDisk(env: Env, w: World, authority: Authority, judgment: Judgment) {
    && AuthorityFile(authority.jobId) in w.files
    && env.parseAuthority(w.files[AuthorityFile(authority.jobId)]) == Some(authority)
    && JudgmentFile in w.files
    && env.parseJudgment(w.files[JudgmentFile]) == Some(judgment)
  }

  // What a successful seal has found, part by part.

  lemma SealParts(env: Env, w: World, authority: Authority, marker: Marker, judgment: Judgment, now: int)
    requires Seal(env, w, authority, marker, judgment, now).Ok?
    ensures SealChecks(env, w, authority, marker, judgment).Ok? && Unsigned(env, w, authority, marker, now).Ok?
    ensures var receipt := Seal(env, w, authority, marker, judgment, now).value;
      receipt == Unsigned(env, w, authority, marker, now).value.(signature := receipt.signature)
  {
    hide SealChecks, Unsigned, Message;
  }

  lemma ChecksParts(env: Env, w: World, authority: Authority, marker: Marker, judgment: Judgment)
    requires SealChecks(env, w, authority, marker, judgment).Ok?
    ensures var job := LoadJob(env, w, authority.jobId);
      && job.Ok? && job.value.jobId == authority.jobId && w.runId == authority.runId
      && ValidatedMarker(w) == Ok(marker) && marker.nativeProof && marker.contained && marker.backend != "none"
      && judgment.jobId == authority.jobId && judgment.runId == authority.runId && judgment.decision == Achieved
      && CoverageComplete(judgment)
      && AuthorityInputs(env, w, job.value, authority, authority.jobId).Ok?
  {
    hide LoadJob, ValidatedMarker, CoverageComplete, AuthorityInputs;
  }

  lemma InputsParts(env: Env, w: World, job: Job, authority: Authority, dir: string)
    requires AuthorityInputs(env, w, job, authority, dir).Ok?
    ensures authority.goalSha == env.sha(job.goal) && authority.policySha == env.sha(env.encodePolicy(job.policy))
    ensures DigestOf(env, w, LaunchPlanFile(dir)) == Ok(authority.launchPlanSha)
    ensures DigestOf(env, w, AuthorityFile(dir)) == Ok(job.authoritySha)
    ensures DigestOf(env, w, ContractFile) == Ok(authority.contractSha)
  {
  }

  lemma UnsignedParts(env: Env, w: World, authority: Authority, marker: Marker, now: int)
    requires Unsigned(env, w, authority, marker, now).Ok?
    ensures var u := Unsigned(env, w, authority, marker, now).value;
      var boundary, observation := ResultBoundary(w, authority, None), Observe(env, w, authority, marker.backend);
      && boundary.Ok? && ResultRevision(w, boundary.value) == Ok(u.resultRevision)
      && SealProjection(env, w) == Ok(u.projectionSha)
      && w.resultTree.Ok? && u.resultTreeSha == env.sha(w.resultTree.value)
      && observation.Ok? && u.attempt == observation.value.attempt && u.outerLaunchId == observation.value.outerLaunchId
      && ExecutionEvidence(env, w, authority.jobId) == Ok(u.evidence)
      && DigestOf(env, w, AuthorityFile(authority.jobId)) == Ok(u.authoritySha)
      && DigestOf(env, w, MarkerFile) == Ok(u.markerSha) && DigestOf(env, w, JudgmentFile) == Ok(u.judgmentSha)
      && DigestOf(env, w, ObservationFile(authority.jobId)) == Ok(u.observationSha)
  {
    hide ResultBoundary, ResultRevision, SealProjection, Observe, ExecutionEvidence, DigestOf;
  }

  lemma UnsignedFields(env: Env, w: World, authority: Authority, marker: Marker, now: int)
    requires Unsigned(env, w, authority, marker, now).Ok?
    ensures var u := Unsigned(env, w, authority, marker, now).value;
      && u.jobId == authority.jobId && u.runId == authority.runId && u.issuedAt == now
      && u.outcome == Verified && u.stopReason == Verified
      && u.goalSha == authority.goalSha && u.contractSha == authority.contractSha && u.policySha == authority.policySha
      && u.launchPlanSha == authority.launchPlanSha && u.sourceTreeSha == authority.sourceTreeSha
      && u.sourceRevision == authority.sourceRevision && u.contained == marker.contained && u.backend == marker.backend
  {
    hide ResultBoundary, ResultRevision, SealProjection, Observe, ExecutionEvidence, DigestOf;
  }

  /** Sealing writes the receipt in the Job's directory and no other file. */
  lemma SealedFiles(env: Env, w: World, receipt: Receipt)
    ensures var after := Sealed(env, w, receipt);
      && ReceiptFile(receipt.jobId) in after.files && after.files[ReceiptFile(receipt.jobId)] == env.receiptFile(receipt)
      && (forall file: File | file != ReceiptFile(receipt.jobId) :: SameFile(w, after, file))
      && after.(files := w.files) == w
  {
  }

  /** Writing the receipt file changes no other answer of the world. */
  lemma SealedReads(env: Env, w: World, receipt: Receipt, authority: Authority, job: Job, id: string, backend: string)
    ensures var after := Sealed(env, w, receipt);
      && ValidatedMarker(after) == ValidatedMarker(w)
      && (forall file: File | !file.ReceiptFile? :: DigestOf(env, after, file) == DigestOf(env, w, file))
      && LoadJob(env, after, id) == LoadJob(env, w, id)
      && AuthorityInputs(env, after, job, authority, id) == AuthorityInputs(env, w, job, authority, id)
      && Observe(env, after, authority, backend) == Observe(env, w, authority, backend)
      && ExecutionEvidence(env, after, id) == ExecutionEvidence(env, w, id)
  {
    var after := Sealed(env, w, receipt);
    assert forall file: File | !file.ReceiptFile? :: Read(after, file) == Read(w, file);
    hide Read, Sealed;
    InputsRead(env, w, after, job, authority, id);
  }

  lemma InputsRead(env: Env, w: World, v: World, job: Job, authority: Authority, id: string)
    requires forall file: File | !file.ReceiptFile? :: Read(v, file) == Read(w, file)
    ensures AuthorityInputs(env, v, job, authority, id) == AuthorityInputs(env, w, job, authority, id)
  {
    hide Read;
    assert Read(v, LaunchPlanFile(id)) == Read(w, LaunchPlanFile(id));
    assert Read(v, AuthorityFile(id)) == Read(w, AuthorityFile(id));
    assert Read(v, ContractFile) == Read(w, ContractFile);
  }

  lemma SealedDocuments(env: Env, w: World, authority: Authority, marker: Marker, judgment: Judgment, now: int)
    requires Faithful(env) && PassedIsOnDisk(env, w, authority, judgment)
    requires Seal(env, w, authority, marker, judgment, now).Ok?
    requires authority.jobId == authority.runId
    ensures var receipt := Seal(env, w, authority, marker, judgment, now).value;
      var after := Sealed(env, w, receipt);
      && LoadReceipt(env, after) == Ok(receipt)
      && CheckIdentity(after, receipt).Ok?
      && CheckProvenance(receipt).Ok?
      && LoadAuthority(env, after).Ok?
      && LoadAuthority(env, after).value.0 == authority
      && AuthorityInputs(env, after, LoadAuthority(env, after).value.1, authority, after.runId).Ok?
  {
    hide Seal, SealChecks, Unsigned, AuthorityInputs, ValidatedMarker, Observe, ExecutionEvidence, LoadJob;
    var receipt := Seal(env, w, authority, marker, judgment, now).value;
    SealParts(env, w, authority, marker, judgment, now);
    ChecksParts(env, w, authority, marker, judgment);
    UnsignedFields(env, w, authority, marker, now);
    SealedReads(env, w, receipt, authority, LoadJob(env, w, authority.jobId).value, authority.jobId, marker.backend);
  }

  lemma SealedWorldChecks(env: Env, w: World, authority: Authority, marker: Marker, judgment: Judgment, now: int)
    requires Seal(env, w, authority, marker, judgment, now).Ok?
    requires authority.jobId == authority.runId
    ensures var receipt := Seal(env, w, authority, marker, judgment, now).value;
      var after := Sealed(env, w, receipt);
      && CheckBoundary(after, authority, receipt).Ok?
      && Observe(env, after, authority, receipt.backend).Ok?
      && CheckAttempt(receipt, Observe(env, after, authority, receipt.backend).value).Ok?
  {
    hide Seal, SealChecks, Unsigned, AuthorityInputs, ValidatedMarker, ExecutionEvidence, LoadJob, SealProjection, Observe;
    var receipt := Seal(env, w, authority, marker, judgment, now).value;
    SealParts(env, w, authority, marker, judgment, now);
    ChecksParts(env, w, authority, marker, judgment);
    UnsignedParts(env, w, authority, marker, now);
    UnsignedFields(env, w, authority, marker, now);
    ObservedAttempt(env, w, authority, marker.backend);
    SealedReads(env, w, receipt, authority, LoadJob(env, w, authority.jobId).value, authority.jobId, marker.backend);
  }

  lemma ObservedAttempt(env: Env, w: World, authority: Authority, backend: string)
    ensures Observe(env, w, authority, backend).Ok? ==> Observe(env, w, authority, backend).value.attempt > 0
  {
  }

  lemma SealedWorldEvidence(env: Env, w: World, authority: Authority, marker: Marker, judgment: Judgment, now: int)
    requires Seal(env, w, authority, marker, judgment, now).Ok?
    requires authority.jobId == authority.runId
    ensures var receipt := Seal(env, w, authority, marker, judgment, now).value;
      var after := Sealed(env, w, receipt);
      && CheckEvidence(env, after, receipt).Ok?
      && CheckMarker(after, receipt).Ok?
      && CheckProjection(env, after, receipt).Ok?
      && CheckTree(env, after, receipt).Ok?
  {
    hide Seal, SealChecks, Unsigned, AuthorityInputs, ValidatedMarker, ExecutionEvidence, LoadJob, Observe, ResultBoundary;
    var receipt := Seal(env, w, authority, marker, judgment, now).value;
    SealParts(env, w, authority, marker, judgment, now);
    ChecksParts(env, w, authority, marker, judgment);
    UnsignedParts(env, w, authority, marker, now);
    UnsignedFields(env, w, authority, marker, now);
    SealedReads(env, w, receipt, authority, LoadJob(env, w, authority.jobId).value, authority.jobId, marker.backend);
  }

  lemma SealedDigests(env: Env, w: World, authority: Authority, marker: Marker, judgment: Judgment, now: int)
    requires PassedIsOnDisk(env, w, authority, judgment)
    requires Seal(env, w, authority, marker, judgment, now).Ok?
    requires authority.jobId == authority.runId
    ensures var receipt := Seal(env, w, authority, marker, judgment, now).value;
      var after := Sealed(env, w, receipt);
      && CheckDigest(env, after, ObservationFile(after.runId), receipt.observationSha, ObservationChanged).Ok?
      && CheckDigest(env, after, AuthorityFile(after.runId), receipt.authoritySha, AuthorityChanged).Ok?
      && CheckDigest(env, after, LaunchPlanFile(after.runId), receipt.launchPlanSha, LaunchPlanChanged).Ok?
      && CheckDigest(env, after, MarkerFile, receipt.markerSha, MarkerChanged).Ok?
      && CheckDigest(env, after, JudgmentFile, receipt.judgmentSha, JudgmentChanged).Ok?
      && CheckJudgment(env, after, receipt).Ok?
  {
    hide Seal, SealChecks, Unsigned, AuthorityInputs, ValidatedMarker, ExecutionEvidence, LoadJob, Observe, DigestOf,
         ResultBoundary, SealProjection, CoverageComplete;
    var receipt := Seal(env, w, authority, marker, judgment, now).value;
    SealParts(env, w, authority, marker, judgment, now);
    ChecksParts(env, w, authority, marker, judgment);
    UnsignedParts(env, w, authority, marker, now);
    UnsignedFields(env, w, authority, marker, now);
    var job := LoadJob(env, w, authority.jobId).value;
    InputsParts(env, w, job, authority, authority.jobId);
    SealedReads(env, w, receipt, authority, job, authority.jobId, marker.backend);
  }

  lemma SealedSignature(env: Env, w: World, authority: Authority, marker: Marker, judgment: Judgment, now: int)
    requires Seal(env, w, authority, marker, judgment, now).Ok?
    ensures var receipt := Seal(env, w, authority, marker, judgment, now).value;
      CheckSignature(env, Sealed(env, w, receipt), receipt).Ok?
  {
    hide SealChecks, Unsigned;
    var receipt := Seal(env, w, authority, marker, judgment, now).value;
    var unsigned := Unsigned(env, w, authority, marker, now).value;
    assert receipt.(signature := "") == unsigned.(signature := "");
    SealedVerifies(env.mac, env.key(w.runId).value, Message(env, unsigned).value);
  }

  /** What a sealed receipt says is so: its digests are those of the goal, the
      policy and the files of the sealed world, its attempt and launch are the
      observed ones, and its result is the world's. */
  lemma SealedDescribesWorld(env: Env, w: World, authority: Authority, marker: Marker, judgment: Judgment, now: int)
    requires Seal(env, w, authority, marker, judgment, now).Ok?
    ensures var receipt := Seal(env, w, authority, marker, judgment, now).value;
      var job := LoadJob(env, w, authority.jobId);
      && job.Ok?
      && receipt.jobId == authority.jobId && receipt.runId == w.runId && receipt.issuedAt == now
      && receipt.goalSha == env.sha(job.value.goal)
      && receipt.policySha == env.sha(env.encodePolicy(job.value.policy))
      && DigestOf(env, w, ContractFile) == Ok(receipt.contractSha)
      && DigestOf(env, w, LaunchPlanFile(authority.jobId)) == Ok(receipt.launchPlanSha)
      && job.value.authoritySha == receipt.authoritySha
      && receipt.sourceTreeSha == authority.sourceTreeSha && receipt.sourceRevision == authority.sourceRevision
      && ValidatedMarker(w) == Ok(marker) && receipt.contained && receipt.backend == marker.backend != "none"
  {
    hide Seal, SealChecks, Unsigned, AuthorityInputs, ValidatedMarker, ExecutionEvidence, LoadJob, Observe, DigestOf,
         ResultBoundary, SealProjection, CoverageComplete;
    SealParts(env, w, authority, marker, judgment, now);
    ChecksParts(env, w, authority, marker, judgment);
    UnsignedParts(env, w, authority, marker, now);
    UnsignedFields(env, w, authority, marker, now);
    InputsParts(env, w, LoadJob(env, w, authority.jobId).value, authority, authority.jobId);
  }

  lemma SealedDescribesResult(env: Env, w: World, authority: Authority, marker: Marker, judgment: Judgment, now: int)
    requires Seal(env, w, authority, marker, judgment, now).Ok?
    ensures var receipt := Seal(env, w, authority, marker, judgment, now).value;
      var observation := Observe(env, w, authority, marker.backend);
      && observation.Ok? && receipt.attempt == observation.value.attempt > 0
      && receipt.outerLaunchId == observation.value.outerLaunchId
      && w.resultTree.Ok? && receipt.resultTreeSha == env.sha(w.resultTree.value)
      && (w.codebase == Some(InPlace) ==> w.head == Ok(receipt.resultRevision))
      && (w.codebase.Some? && w.codebase.value.Worktree? ==>
            receipt.resultRevision.Some? && receipt.resultRevision == w.codebase.value.branchRevision
            && w.head == Ok(receipt.resultRevision))
      && (w.projection.Some? <==> receipt.projectionSha.Some?)
      && (w.projection.Some? ==> receipt.projectionSha.value == env.sha(w.projection.value))
  {
    hide Seal, SealChecks, Unsigned, ExecutionEvidence, Observe, DigestOf;
    SealParts(env, w, authority, marker, judgment, now);
    UnsignedParts(env, w, authority, marker, now);
    ObservedAttempt(env, w, authority, marker.backend);
  }

  /** Seal and validate are inverse.  When sealing succeeds with the authority
      and judgment that are on disk, strict validation of the world it leaves
      returns exactly the sealed receipt if and only if the Job and the run
      share one id. */
  lemma SealThenValidate(env: Env, w: World, authority: Authority, marker: Marker, judgment: Judgment, now: int)
    requires Faithful(env) && PassedIsOnDisk(env, w, authority, judgment)
    requires Seal(env, w, authority, marker, judgment, now).Ok?
    ensures var receipt := Seal(env, w, authority, marker, judgment, now).value;
      Strict(env, Sealed(env, w, receipt)) == Ok(receipt) <==> authority.jobId == authority.runId
  {
    var receipt := Seal(env, w, authority, marker, judgment, now).value;
    var after := Sealed(env, w, receipt);
    if authority.jobId == authority.runId {
      SealedDocuments(env, w, authority, marker, judgment, now);
      SealedWorldChecks(env, w, authority, marker, judgment, now);
      SealedWorldEvidence(env, w, authority, marker, judgment, now);
      SealedDigests(env, w, authority, marker, judgment, now);
      SealedSignature(env, w, authority, marker, judgment, now);
      StrictFromChecks(env, after, receipt, authority);
    } else {
      SealIdentity(env, w, authority, marker, judgment, now);
      StrictIdentity(env, after);
    }
  }

  /** A receipt is sealed, and a receipt validates, only with no parent repair
      at all or with a whole, accepted lineage. */
  lemma ReceiptNeedsLineage(env: Env, w: World, authority: Authority, marker: Marker, judgment: Judgment, now: int)
    ensures Seal(env, w, authority, marker, judgment, now).Ok? || Strict(env, w).Ok? ==>
      || LineageFacts.Accepted(w.lineage, w.rounds)
      || Lineage.Validate(w.lineage, w.rounds) == Ok(None)
    ensures Lineage.Validate(w.lineage, w.rounds) == Ok(None) ==>
      Lineage.ActiveIntent !in w.rounds && Lineage.ActiveManifest !in w.rounds && Lineage.ActiveCandidate !in w.rounds
  {
    SealNeedsMarker(env, w, authority, marker, judgment, now);
    StrictNeedsMarker(env, w);
    NoLineage(w.lineage, w.rounds);
    hide Seal, Strict, Lineage.Validate;
  }

  lemma SealNeedsMarker(env: Env, w: World, authority: Authority, marker: Marker, judgment: Judgment, now: int)
    ensures Seal(env, w, authority, marker, judgment, now).Ok? ==> ValidatedMarker(w).Ok?
  {
    hide AuthorityInputs, Unsigned, SignReceipt, CoverageComplete, ValidatedMarker;
  }

  lemma StrictNeedsMarker(env: Env, w: World)
    ensures Strict(env, w).Ok? ==> ValidatedMarker(w).Ok?
  {
    hide LoadReceipt, CheckIdentity, AuthorityInputs, CheckBoundary, Observe, CheckAttempt, CheckDigest, CheckEvidence,
         CheckJudgment, CheckProjection, CheckTree, CheckSignature, CheckProvenance, LoadAuthority, ValidatedMarker;
  }

  lemma NoLineage(cx: Lineage.Context, disk: Lineage.Disk)
    ensures Lineage.Validate(cx, disk) == Ok(None) ==>
      Lineage.ActiveIntent !in disk && Lineage.ActiveManifest !in disk && Lineage.ActiveCandidate !in disk
  {
    hide Lineage.CheckActive, Lineage.Walk;
  }

  // A Job and a run with different ids.

  /** The bytes of a run's documents. */
  datatype Documents = Documents(authority: string, job: string, judgment: string, observation: string,
                                 launch: string, contract: string)

  const CONTAINED: Policy := Policy("m", Some(Execution(true, "s", {"bash", "write_file"})))

  ghost function DistinctAuthority(env: Env, jobId: string, runId: string, docs: Documents): Authority {
    Authority(jobId, runId, env.sha("g"), env.sha(docs.contract), env.sha(env.encodePolicy(CONTAINED)),
              env.sha(docs.launch), "t", None, "s", "m")
  }

  ghost function DistinctJob(env: Env, jobId: string, docs: Documents): Job {
    Job(jobId, "g", env.sha(docs.launch), env.sha(docs.authority), CONTAINED)
  }

  ghost function DistinctJudgment(jobId: string, runId: string): Judgment {
    Judgment(jobId, runId, Achieved, [Coverage(true, ["e"])], [])
  }

  ghost function DistinctMarker(): Marker {
    Marker(true, true, "b", "")
  }

  ghost function DistinctWorld(lineage: Lineage.Context, jobId: string, runId: string, docs: Documents): World {
    var files := map[
      AuthorityFile(jobId) := docs.authority, LaunchPlanFile(jobId) := docs.launch, JobFile(jobId) := docs.job,
      ObservationFile(jobId) := docs.observation, ContractFile := docs.contract, MarkerFile := "",
      JudgmentFile := docs.judgment];
    World(runId, files, Some(InPlace), false, Ok(None), (x: string) => None, (x: string) => true,
          (x: string) => true, lineage, map[], (repair: Option<Lineage.ValidatedRepair>) => Ok(DistinctMarker()),
          (a: Authority, o: Observation) => true, Ok(false), None, false, false, Ok(""))
  }

  /** The environment reads these documents as they are meant, has the run's key,
      and encodes receipts within the 64-bit frame. */
  ghost predicate Readable(env: Env, jobId: string, runId: string, docs: Documents) {
    && env.parseAuthority(docs.authority) == Some(DistinctAuthority(env, jobId, runId, docs))
    && env.parseJob(docs.job) == Some(DistinctJob(env, jobId, docs))
    && env.parseJudgment(docs.judgment) == Some(DistinctJudgment(jobId, runId))
    && env.parseObservation(docs.observation) == Some(Observation(1, "o", "b", ""))
    && env.parseLaunch(docs.launch) == Some(false)
    && env.strictContract(docs.contract)
    && env.key(runId).Some?
    && forall r :: |env.encodeReceipt(r)| < U64_LIMIT
  }

  lemma DistinctInputs(env: Env, lineage: Lineage.Context, jobId: string, runId: string, docs: Documents)
    requires Readable(env, jobId, runId, docs)
    ensures var w, authority := DistinctWorld(lineage, jobId, runId, docs), DistinctAuthority(env, jobId, runId, docs);
      && LoadJob(env, w, jobId) == Ok(DistinctJob(env, jobId, docs))
      && AuthorityInputs(env, w, DistinctJob(env, jobId, docs), authority, jobId).Ok?
  {
  }

  lemma DistinctChecks(env: Env, lineage: Lineage.Context, jobId: string, runId: string, docs: Documents)
    requires Readable(env, jobId, runId, docs)
    ensures SealChecks(env, DistinctWorld(lineage, jobId, runId, docs), DistinctAuthority(env, jobId, runId, docs),
                       DistinctMarker(), DistinctJudgment(jobId, runId)).Ok?
  {
    hide AuthorityInputs, LoadJob;
    DistinctInputs(env, lineage, jobId, runId, docs);
    assert ValidatedMarker(DistinctWorld(lineage, jobId, runId, docs)) == Ok(DistinctMarker());
  }

  lemma DistinctUnsigned(env: Env, lineage: Lineage.Context, jobId: string, runId: string, docs: Documents)
    requires Readable(env, jobId, runId, docs)
    ensures var unsigned := Unsigned(env, DistinctWorld(lineage, jobId, runId, docs),
                                     DistinctAuthority(env, jobId, runId, docs), DistinctMarker(), 0);
      unsigned.Ok? && unsigned.value.resultRevision.None?
  {
  }

  /** Sealing does not itself refuse a Job id that differs from the run id: for
      any two different ids and in every faithful environment that can read the
      documents, a world in which it seals a receipt that validation then does
      not return. */
  lemma DistinctIdsSeal(env: Env, lineage: Lineage.Context, jobId: string, runId: string, docs: Documents)
    returns (w: World, authority: Authority, marker: Marker, judgment: Judgment)
    requires Faithful(env) && Readable(env, jobId, runId, docs) && jobId != runId
    ensures PassedIsOnDisk(env, w, authority, judgment) && w.lineage == lineage
    ensures authority.jobId == jobId && authority.runId == runId
    ensures Seal(env, w, authority, marker, judgment, 0).Ok?
    ensures var receipt := Seal(env, w, authority, marker, judgment, 0).value;
      Strict(env, Sealed(env, w, receipt)) != Ok(receipt)
  {
    w, authority := DistinctWorld(lineage, jobId, runId, docs), DistinctAuthority(env, jobId, runId, docs);
    marker, judgment := DistinctMarker(), DistinctJudgment(jobId, runId);
    hide SealChecks, Unsigned, Strict;
    DistinctChecks(env, lineage, jobId, runId, docs);
    DistinctUnsigned(env, lineage, jobId, runId, docs);
    SealIdentity(env, w, authority, marker, judgment, 0);
    StrictIdentity(env, Sealed(env, w, Seal(env, w, authority, marker, judgment, 0).value));
  }

  lemma SealIdentity(env: Env, w: World, authority: Authority, marker: Marker, judgment: Judgment, now: int)
    requires Seal(env, w, authority, marker, judgment, now).Ok?
    ensures Seal(env, w, authority, marker, judgment, now).value.jobId == authority.jobId
    ensures w.runId == authority.runId
  {
    hide Seal, SealChecks, Unsigned, ValidatedMarker, AuthorityInputs, LoadJob;
    SealParts(env, w, authority, marker, judgment, now);
    ChecksParts(env, w, authority, marker, judgment);
    UnsignedFields(env, w, authority, marker, now);
  }

  lemma StrictIdentity(env: Env, w: World)
    ensures Strict(env, w).Ok? ==> Strict(env, w).value.jobId == w.runId
  {
    hide LoadReceipt, AuthorityInputs, CheckBoundary, Observe, CheckAttempt, CheckDigest, CheckEvidence, CheckJudgment,
         CheckMarker, CheckProjection, CheckTree, CheckSignature, CheckProvenance, LoadAuthority;
  }

  lemma StrictFromChecks(env: Env, w: World, receipt: Receipt, authority: Authority)
    requires LoadReceipt(env, w) == Ok(receipt)
    requires CheckIdentity(w, receipt).Ok? && CheckProvenance(receipt).Ok?
    requires LoadAuthority(env, w).Ok? && LoadAuthority(env, w).value.0 == authority
    requires AuthorityInputs(env, w, LoadAuthority(env, w).value.1, authority, w.runId).Ok?
    requires CheckBoundary(w, authority, receipt).Ok?
    requires Observe(env, w, authority, receipt.backend).Ok?
    requires CheckAttempt(receipt, Observe(env, w, authority, receipt.backend).value).Ok?
    requires CheckDigest(env, w, ObservationFile(w.runId), receipt.observationSha, ObservationChanged).Ok?
    requires CheckEvidence(env, w, receipt).Ok?
    requires CheckDigest(env, w, AuthorityFile(w.runId), receipt.authoritySha, AuthorityChanged).Ok?
    requires CheckDigest(env, w, LaunchPlanFile(w.runId), receipt.launchPlanSha, LaunchPlanChanged).Ok?
    requires CheckDigest(env, w, MarkerFile, receipt.markerSha, MarkerChanged).Ok?
    requires CheckDigest(env, w, JudgmentFile, receipt.judgmentSha, JudgmentChanged).Ok?
    requires CheckJudgment(env, w, receipt).Ok? && CheckMarker(w, receipt).Ok?
    requires CheckProjection(env, w, receipt).Ok? && CheckTree(env, w, receipt).Ok?
    requires CheckSignature(env, w, receipt).Ok?
    ensures Strict(env, w) == Ok(receipt)
  {
    hide LoadReceipt, CheckIdentity, AuthorityInputs, CheckBoundary, Observe, CheckAttempt, CheckDigest,
         CheckEvidence, CheckJudgment, CheckMarker, CheckProjection, CheckTree, CheckSignature, CheckProvenance,
         LoadAuthority;
  }

  // -------------------------------------------------- what a receipt pins

  /** A file whose bytes a receipt pins by digest: equal in both worlds, or a collision. */
  function Differs(w: World, v: World, file: File): Option<(string, string)> {
    if file in w.files && file in v.files && w.files[file] != v.files[file]
    then Some((w.files[file], v.files[file])) else None
  }

  function Or(a: Option<(string, string)>, b: Option<(string, string)>): Option<(string, string)> {
    if a.Some? then a else b
  }

  predicate SameFile(w: World, v: World, file: File) {
    (file in w.files <==> file in v.files) && (file in w.files ==> w.files[file] == v.files[file])
  }

  lemma StrictDigests(env: Env, w: World)
    requires Strict(env, w).Ok?
    ensures var receipt := Strict(env, w).value;
      && DigestOf(env, w, ObservationFile(w.runId)) == Ok(receipt.observationSha)
      && DigestOf(env, w, AuthorityFile(w.runId)) == Ok(receipt.authoritySha)
      && DigestOf(env, w, LaunchPlanFile(w.runId)) == Ok(receipt.launchPlanSha)
      && DigestOf(env, w, MarkerFile) == Ok(receipt.markerSha)
      && DigestOf(env, w, JudgmentFile) == Ok(receipt.judgmentSha)
      && ExecutionEvidence(env, w, w.runId) == Ok(receipt.evidence)
      && w.resultTree.Ok? && env.sha(w.resultTree.value) == receipt.resultTreeSha
      && receipt.jobId == w.runId
  {
    hide LoadReceipt, AuthorityInputs, CheckBoundary, Observe, CheckAttempt, CheckJudgment, CheckMarker,
         CheckProjection, CheckSignature, CheckProvenance, LoadAuthority, ExecutionEvidence, DigestOf;
  }

  lemma StrictInputs(env: Env, w: World)
    requires Strict(env, w).Ok?
    ensures var documents := LoadAuthority(env, w);
      && documents.Ok? && AuthorityInputs(env, w, documents.value.1, documents.value.0, w.runId).Ok?
      && CheckProjection(env, w, Strict(env, w).value).Ok?
  {
    hide LoadReceipt, CheckIdentity, AuthorityInputs, CheckBoundary, Observe, CheckAttempt, CheckDigest, CheckEvidence,
         CheckJudgment, CheckMarker, CheckProjection, CheckTree, CheckSignature, CheckProvenance, LoadAuthority;
  }

  /** One receipt, one content.  If the same receipt validates in two worlds,
      the authority, launch plan, marker, judgment and observation bytes agree,
      so do the result trees, and on a durable chain the candidate manifest
      and both ledgers (also in being absent), or two different byte strings
      with one digest are returned. */
  lemma ReceiptPinsFiles(env: Env, w: World, v: World) returns (collision: Option<(string, string)>)
    requires Strict(env, w).Ok? && Strict(env, v) == Strict(env, w)
    ensures collision.None? ==>
      && SameFile(w, v, AuthorityFile(w.runId)) && SameFile(w, v, LaunchPlanFile(w.runId))
      && SameFile(w, v, MarkerFile) && SameFile(w, v, JudgmentFile) && SameFile(w, v, ObservationFile(w.runId))
      && w.resultTree == v.resultTree
      && (Strict(env, w).value.evidence.Some? ==>
            && SameFile(w, v, CandidateManifestFile(w.runId))
            && SameFile(w, v, ApplicationsFile(w.runId)) && SameFile(w, v, HooksFile(w.runId)))
    ensures collision.Some? ==> Collides(env.sha, collision.value)
  {
    hide Strict;
    StrictDigests(env, w);
    StrictDigests(env, v);
    var id := w.runId;
    collision := Or(Differs(w, v, AuthorityFile(id)), Or(Differs(w, v, LaunchPlanFile(id)),
      Or(Differs(w, v, MarkerFile), Or(Differs(w, v, JudgmentFile), Differs(w, v, ObservationFile(id))))));
    if collision.None? && w.resultTree != v.resultTree {
      collision := Some((w.resultTree.value, v.resultTree.value));
    }
    if collision.None? && Strict(env, w).value.evidence.Some? {
      collision := Or(Differs(w, v, CandidateManifestFile(id)),
        Or(Differs(w, v, ApplicationsFile(id)), Differs(w, v, HooksFile(id))));
    }
  }

  /** Through the authority it pins more than the files it names: the authority
      itself, the strict contract, the goal, the policy as encoded, and the result
      projection. */
  lemma ReceiptPinsContent(env: Env, w: World, v: World) returns (collision: Option<(string, string)>)
    requires Strict(env, w).Ok? && Strict(env, v) == Strict(env, w)
    ensures LoadAuthority(env, w).Ok? && LoadAuthority(env, v).Ok?
    ensures collision.None? ==>
      var (authority, job) := LoadAuthority(env, w).value;
      var (authority', job') := LoadAuthority(env, v).value;
      && authority == authority' && job.goal == job'.goal && env.encodePolicy(job.policy) == env.encodePolicy(job'.policy)
      && SameFile(w, v, ContractFile) && w.projection == v.projection
    ensures collision.Some? ==> Collides(env.sha, collision.value)
  {
    hide Strict;
    StrictInputs(env, w);
    StrictInputs(env, v);
    StrictDigests(env, w);
    StrictDigests(env, v);
    collision := ReceiptPinsFiles(env, w, v);
    if collision.None? {
      collision := AuthorityPins(env, w, v);
    }
  }

  lemma AuthorityPins(env: Env, w: World, v: World) returns (collision: Option<(string, string)>)
    requires w.runId == v.runId && SameFile(w, v, AuthorityFile(w.runId))
    requires Strict(env, w).Ok? && Strict(env, v) == Strict(env, w)
    ensures LoadAuthority(env, w).Ok? && LoadAuthority(env, v).Ok?
    ensures collision.None? ==>
      var (authority, job) := LoadAuthority(env, w).value;
      var (authority', job') := LoadAuthority(env, v).value;
      && authority == authority' && job.goal == job'.goal && env.encodePolicy(job.policy) == env.encodePolicy(job'.policy)
      && SameFile(w, v, ContractFile) && w.projection == v.projection
    ensures collision.Some? ==> Collides(env.sha, collision.value)
  {
    hide Strict, AuthorityInputs;
    StrictInputs(env, w);
    StrictInputs(env, v);
    var (authority, job) := LoadAuthority(env, w).value;
    var (authority', job') := LoadAuthority(env, v).value;
    InputsParts(env, w, job, authority, w.runId);
    InputsParts(env, v, job', authority', v.runId);
    var policy, policy' := env.encodePolicy(job.policy), env.encodePolicy(job'.policy);
    if job.goal != job'.goal {
      return Some((job.goal, job'.goal));
    }
    if policy != policy' {
      return Some((policy, policy'));
    }
    if w.projection != v.projection {
      return Some((w.projection.value, v.projection.value));
    }
    return Differs(w, v, ContractFile);
  }
}

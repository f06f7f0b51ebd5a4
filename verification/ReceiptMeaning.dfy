/** What a completion receipt that validates says, and what sealing demands,
    written out over the files and facts of the world. Stated without the
    validator's own checks, and proved to be exactly what it accepts. */
module ReceiptMeaning {
  import opened Common
  import opened Framing
  import opened Completion
  import Lineage

  // ------------------------------------------------------------ single facts

  ghost predicate DigestIs(env: Env, w: World, file: File, digest: string) {
    file in w.files && env.sha(w.files[file]) == digest
  }

  /** The gate key of the run signed the receipt, in hexadecimal of either case. */
  ghost predicate SignedByGate(env: Env, w: World, r: Receipt) {
    var encoded := env.encodeReceipt(r.(signature := ""));
    && env.key(w.runId).Some?
    && |encoded| < 0x1_0000_0000_0000_0000
    && LowerText(r.signature)
       == Sign(env.mac, env.key(w.runId).value, "deadreckon.completion-receipt.v1\0" + BigEndian(|encoded|, 8) + encoded)
  }

  /** The judgment is achieved, with something covered, nothing missing, and every
      item met and backed by evidence. */
  ghost predicate AchievedWithEvidence(judgment: Judgment, jobId: string, runId: string) {
    && judgment.decision.Achieved? && judgment.jobId == jobId && judgment.runId == runId
    && |judgment.coverage| > 0 && |judgment.missing| == 0
    && forall i | 0 <= i < |judgment.coverage| :: judgment.coverage[i].met && |judgment.coverage[i].evidence| > 0
  }

  ghost predicate Judged(env: Env, w: World, r: Receipt) {
    && JudgmentFile in w.files
    && env.parseJudgment(w.files[JudgmentFile]).Some?
    && AchievedWithEvidence(env.parseJudgment(w.files[JudgmentFile]).value, r.jobId, r.runId)
  }

  /** The marker that validates after the lineage, against what the lineage found. */
  ghost predicate MarkerIs(w: World, marker: Marker) {
    exists repair :: Lineage.Validate(w.lineage, w.rounds) == Ok(repair) && w.acceptance(repair) == Ok(marker)
  }

  /** The authority binds goal, launch plan, policy, judge, sandbox and contract. */
  ghost predicate Authorized(env: Env, w: World, job: Job, a: Authority, dir: string) {
    && a.goalSha == env.sha(job.goal)
    && DigestIs(env, w, LaunchPlanFile(dir), a.launchPlanSha) && job.launchPlanSha == a.launchPlanSha
    && DigestIs(env, w, AuthorityFile(dir), job.authoritySha)
    && a.policySha == env.sha(env.encodePolicy(job.policy)) && a.judgeMode == job.policy.semanticJudge
    && job.policy.execution.Some?
    && job.policy.execution.value.requireContainment
    && job.policy.execution.value.sandboxRequested == a.sandboxRequested
    && {"bash", "write_file"} <= job.policy.execution.value.tools
    && DigestIs(env, w, ContractFile, a.contractSha) && env.strictContract(w.files[ContractFile])
  }

  /** The revision a worktree result stands at: its branch, or what a promoted
      receipt names once the branch is gone. */
  ghost predicate StandsAt(w: World, branch: Option<string>, receipt: Option<Receipt>, revision: string) {
    || branch == Some(revision)
    || (&& branch.None? && receipt.Some? && receipt.value.resultRevision.Some? && w.promoted
        && w.resolve(receipt.value.resultRevision.value) == Some(revision))
  }

  ghost predicate BoundaryIs(w: World, a: Authority, receipt: Option<Receipt>, result: Option<string>) {
    || (w.codebase == Some(InPlace) && result.None?)
    || (&& w.codebase.Some? && w.codebase.value.Worktree? && result.Some?
        && w.codebase.value.base.Some? && w.codebase.value.base == a.sourceRevision
        && StandsAt(w, w.codebase.value.branchRevision, receipt, result.value)
        && w.historyOk(result.value)
        && (if receipt.Some? then receipt.value.resultRevision == result else w.head == Ok(result)))
  }

  ghost predicate ObservationIs(env: Env, w: World, a: Authority, backend: string, o: Observation) {
    && ObservationFile(a.jobId) in w.files && env.parseObservation(w.files[ObservationFile(a.jobId)]) == Some(o)
    && o.attempt >= 1 && o.backend == backend && w.observationOk(a, o)
  }

  ghost predicate OptionalIs(env: Env, w: World, file: File, digest: Option<string>) {
    if file in w.files then digest == Some(env.sha(w.files[file])) else digest.None?
  }

  /** A durable chain carries the digests of its manifest and ledgers. */
  ghost predicate EvidenceIs(env: Env, w: World, id: string, evidence: Option<Evidence>) {
    && LaunchPlanFile(id) in w.files
    && env.parseLaunch(w.files[LaunchPlanFile(id)]).Some?
    && if env.parseLaunch(w.files[LaunchPlanFile(id)]).value then
         && evidence.Some?
         && DigestIs(env, w, CandidateManifestFile(id), evidence.value.candidateManifestSha)
         && OptionalIs(env, w, ApplicationsFile(id), evidence.value.applicationsSha)
         && OptionalIs(env, w, HooksFile(id), evidence.value.hooksSha)
       else evidence.None?
  }

  /** The projection is there if required, and the digest is its own. */
  ghost predicate ProjectionIs(env: Env, w: World, digest: Option<string>) {
    && w.projectionRequired.Ok? && (w.projectionRequired.value ==> w.projection.Some?)
    && if w.projection.Some? then w.projectionAtCandidate && digest == Some(env.sha(w.projection.value)) else digest.None?
  }

  // --------------------------------------------------------------- validation

  ghost predicate GenuineReceipt(env: Env, w: World, r: Receipt, a: Authority, job: Job, o: Observation, marker: Marker) {
    && ReceiptFile(w.runId) in w.files && env.parseReceipt(w.files[ReceiptFile(w.runId)]) == Some(r)
    && r.jobId == w.runId && r.runId == w.runId && r.outcome.Verified? && r.stopReason.Verified?
    && AuthorityFile(w.runId) in w.files && env.parseAuthority(w.files[AuthorityFile(w.runId)]) == Some(a)
    && JobFile(w.runId) in w.files && env.parseJob(w.files[JobFile(w.runId)]) == Some(job)
    && Authorized(env, w, job, a, w.runId)
    && (exists result :: BoundaryIs(w, a, Some(r), result))
    && ObservationIs(env, w, a, r.backend, o) && r.attempt == o.attempt && r.outerLaunchId == o.outerLaunchId
    && DigestIs(env, w, ObservationFile(w.runId), r.observationSha)
    && EvidenceIs(env, w, w.runId, r.evidence)
    && DigestIs(env, w, AuthorityFile(w.runId), r.authoritySha) && DigestIs(env, w, LaunchPlanFile(w.runId), r.launchPlanSha)
    && DigestIs(env, w, MarkerFile, r.markerSha) && DigestIs(env, w, JudgmentFile, r.judgmentSha)
    && Judged(env, w, r)
    && MarkerIs(w, marker) && marker.nativeProof && marker.contained == r.contained && marker.backend == r.backend
    && ProjectionIs(env, w, r.projectionSha)
    && w.resultTree.Ok? && r.resultTreeSha == env.sha(w.resultTree.value)
    && SignedByGate(env, w, r)
  }

  lemma SignatureMeans(env: Env, w: World, r: Receipt)
    ensures CheckSignature(env, w, r).Ok? <==> SignedByGate(env, w, r)
  {
    var message := Message(env, r);
    if env.key(w.runId).Some? && message.Some? {
      SignatureIff(env.mac, env.key(w.runId).value, message.value, r.signature);
    }
  }

  lemma JudgmentMeans(env: Env, w: World, r: Receipt)
    ensures CheckJudgment(env, w, r).Ok? <==> Judged(env, w, r)
  {
    if JudgmentFile in w.files && env.parseJudgment(w.files[JudgmentFile]).Some? {
      CoverageMeans(env.parseJudgment(w.files[JudgmentFile]).value);
    }
  }

  lemma CoverageMeans(judgment: Judgment)
    ensures CoverageComplete(judgment) <==>
      && |judgment.coverage| > 0 && |judgment.missing| == 0
      && forall i | 0 <= i < |judgment.coverage| :: judgment.coverage[i].met && |judgment.coverage[i].evidence| > 0
  {
    if CoverageComplete(judgment) {
      assert forall i | 0 <= i < |judgment.coverage| :: judgment.coverage[i] in judgment.coverage;
    }
  }

  lemma MarkerMeans(w: World, marker: Marker)
    ensures ValidatedMarker(w) == Ok(marker) <==> MarkerIs(w, marker)
  {
    hide Lineage.Validate;
  }

  lemma InputsMean(env: Env, w: World, job: Job, a: Authority, dir: string)
    ensures AuthorityInputs(env, w, job, a, dir).Ok? <==> Authorized(env, w, job, a, dir)
  {
  }

  lemma BoundaryMeans(w: World, a: Authority, receipt: Option<Receipt>, result: Option<string>)
    ensures ResultBoundary(w, a, receipt) == Ok(result) <==> BoundaryIs(w, a, receipt, result)
  {
  }

  lemma ObservationMeans(env: Env, w: World, a: Authority, backend: string, o: Observation)
    ensures Observe(env, w, a, backend) == Ok(o) <==> ObservationIs(env, w, a, backend, o)
  {
  }

  lemma EvidenceMeans(env: Env, w: World, id: string, evidence: Option<Evidence>)
    ensures ExecutionEvidence(env, w, id) == Ok(evidence) <==> EvidenceIs(env, w, id, evidence)
  {
  }

  lemma ProjectionMeans(env: Env, w: World, r: Receipt)
    ensures CheckProjection(env, w, r).Ok? <==> ProjectionIs(env, w, r.projectionSha)
  {
  }

  /** Every check of the strict validator passed. */
  lemma StrictChecks(env: Env, w: World)
    requires Strict(env, w).Ok?
    ensures var r, documents := Strict(env, w).value, LoadAuthority(env, w);
      && LoadReceipt(env, w) == Ok(r) && CheckIdentity(w, r).Ok? && CheckProvenance(r).Ok?
      && documents.Ok? && AuthorityInputs(env, w, documents.value.1, documents.value.0, w.runId).Ok?
      && CheckBoundary(w, documents.value.0, r).Ok?
      && Observe(env, w, documents.value.0, r.backend).Ok?
      && CheckAttempt(r, Observe(env, w, documents.value.0, r.backend).value).Ok?
      && CheckDigest(env, w, ObservationFile(w.runId), r.observationSha, ObservationChanged).Ok?
      && CheckEvidence(env, w, r).Ok?
      && CheckDigest(env, w, AuthorityFile(w.runId), r.authoritySha, AuthorityChanged).Ok?
      && CheckDigest(env, w, LaunchPlanFile(w.runId), r.launchPlanSha, LaunchPlanChanged).Ok?
      && CheckDigest(env, w, MarkerFile, r.markerSha, MarkerChanged).Ok?
      && CheckDigest(env, w, JudgmentFile, r.judgmentSha, JudgmentChanged).Ok?
      && CheckJudgment(env, w, r).Ok? && CheckMarker(w, r).Ok? && CheckProjection(env, w, r).Ok?
      && CheckTree(env, w, r).Ok? && CheckSignature(env, w, r).Ok?
  {
    hide LoadReceipt, CheckIdentity, AuthorityInputs, CheckBoundary, Observe, CheckAttempt, CheckDigest,
         CheckEvidence, CheckJudgment, CheckMarker, CheckProjection, CheckTree, CheckSignature, CheckProvenance,
         LoadAuthority;
  }

  lemma DigestMeans(env: Env, w: World, file: File, digest: string, changed: Refusal)
    ensures CheckDigest(env, w, file, digest, changed).Ok? <==> DigestIs(env, w, file, digest)
  {
  }

  lemma BoundaryAnswers(w: World, a: Authority, r: Receipt)
    ensures CheckBoundary(w, a, r).Ok? <==> exists result :: BoundaryIs(w, a, Some(r), result)
  {
    hide ResultBoundary, BoundaryIs;
    if CheckBoundary(w, a, r).Ok? {
      BoundaryMeans(w, a, Some(r), ResultBoundary(w, a, Some(r)).value);
    }
    if result :| BoundaryIs(w, a, Some(r), result) {
      BoundaryMeans(w, a, Some(r), result);
    }
  }

  /** A receipt that validates is genuine in every respect. */
  lemma StrictIsGenuine(env: Env, w: World, r: Receipt)
    returns (a: Authority, job: Job, o: Observation, marker: Marker)
    requires Strict(env, w) == Ok(r)
    ensures GenuineReceipt(env, w, r, a, job, o, marker)
  {
    hide Strict, AuthorityInputs, CheckBoundary, Observe, CheckDigest, ExecutionEvidence, CheckJudgment, ValidatedMarker,
         CheckProjection, CheckSignature, Authorized, BoundaryIs, ObservationIs, EvidenceIs, Judged, MarkerIs, ProjectionIs,
         SignedByGate, DigestIs;
    StrictChecks(env, w);
    a, job := LoadAuthority(env, w).value.0, LoadAuthority(env, w).value.1;
    o := Observe(env, w, a, r.backend).value;
    marker := ValidatedMarker(w).value;
    InputsMean(env, w, job, a, w.runId);
    BoundaryAnswers(w, a, r);
    ObservationMeans(env, w, a, r.backend, o);
    EvidenceMeans(env, w, w.runId, r.evidence);
    AllDigests(env, w, r);
    JudgmentMeans(env, w, r);
    MarkerMeans(w, marker);
    ProjectionMeans(env, w, r);
    SignatureMeans(env, w, r);
  }

  lemma AllDigests(env: Env, w: World, r: Receipt)
    ensures CheckDigest(env, w, ObservationFile(w.runId), r.observationSha, ObservationChanged).Ok?
      <==> DigestIs(env, w, ObservationFile(w.runId), r.observationSha)
    ensures CheckDigest(env, w, AuthorityFile(w.runId), r.authoritySha, AuthorityChanged).Ok?
      <==> DigestIs(env, w, AuthorityFile(w.runId), r.authoritySha)
    ensures CheckDigest(env, w, LaunchPlanFile(w.runId), r.launchPlanSha, LaunchPlanChanged).Ok?
      <==> DigestIs(env, w, LaunchPlanFile(w.runId), r.launchPlanSha)
    ensures CheckDigest(env, w, MarkerFile, r.markerSha, MarkerChanged).Ok? <==> DigestIs(env, w, MarkerFile, r.markerSha)
    ensures CheckDigest(env, w, JudgmentFile, r.judgmentSha, JudgmentChanged).Ok? <==> DigestIs(env, w, JudgmentFile, r.judgmentSha)
  {
    hide CheckDigest, DigestIs;
    DigestMeans(env, w, ObservationFile(w.runId), r.observationSha, ObservationChanged);
    DigestMeans(env, w, AuthorityFile(w.runId), r.authoritySha, AuthorityChanged);
    DigestMeans(env, w, LaunchPlanFile(w.runId), r.launchPlanSha, LaunchPlanChanged);
    DigestMeans(env, w, MarkerFile, r.markerSha, MarkerChanged);
    DigestMeans(env, w, JudgmentFile, r.judgmentSha, JudgmentChanged);
  }

  /** Every genuine receipt validates. */
  lemma GenuineIsStrict(env: Env, w: World, r: Receipt, a: Authority, job: Job, o: Observation, marker: Marker)
    requires GenuineReceipt(env, w, r, a, job, o, marker)
    ensures Strict(env, w) == Ok(r)
  {
    hide Strict, AuthorityInputs, CheckBoundary, Observe, CheckDigest, ExecutionEvidence, CheckJudgment, ValidatedMarker,
         CheckProjection, CheckSignature, Authorized, BoundaryIs, ObservationIs, EvidenceIs, Judged, MarkerIs, ProjectionIs,
         SignedByGate, DigestIs;
    InputsMean(env, w, job, a, w.runId);
    BoundaryAnswers(w, a, r);
    ObservationMeans(env, w, a, r.backend, o);
    ObservationPositive(env, w, a, r.backend, o);
    EvidenceMeans(env, w, w.runId, r.evidence);
    AllDigests(env, w, r);
    JudgmentMeans(env, w, r);
    MarkerMeans(w, marker);
    ProjectionMeans(env, w, r);
    SignatureMeans(env, w, r);
    assert LoadAuthority(env, w) == Ok((a, job));
    StrictFromChecks(env, w, r, a);
  }

  lemma ObservationPositive(env: Env, w: World, a: Authority, backend: string, o: Observation)
    requires ObservationIs(env, w, a, backend, o)
    ensures o.attempt != 0
  {
  }

  // ------------------------------------------------------------------ sealing

  /** What sealing demands of the world and of what it is given. */
  ghost predicate MaySeal(env: Env, w: World, a: Authority, marker: Marker, judgment: Judgment, job: Job) {
    && JobFile(a.jobId) in w.files && env.parseJob(w.files[JobFile(a.jobId)]) == Some(job)
    && job.jobId == a.jobId && w.runId == a.runId
    && MarkerIs(w, marker) && marker.nativeProof && marker.contained && marker.backend != "none"
    && AchievedWithEvidence(judgment, a.jobId, a.runId)
    && Authorized(env, w, job, a, a.jobId)
  }

  /** What the sealed receipt then says. */
  ghost predicate Reports(env: Env, w: World, a: Authority, marker: Marker, now: int, r: Receipt) {
    && r.jobId == a.jobId && r.runId == a.runId && r.issuedAt == now && r.outcome.Verified? && r.stopReason.Verified?
    && DigestIs(env, w, AuthorityFile(a.jobId), r.authoritySha)
    && r.goalSha == a.goalSha && r.contractSha == a.contractSha && r.policySha == a.policySha
    && r.launchPlanSha == a.launchPlanSha && r.sourceTreeSha == a.sourceTreeSha && r.sourceRevision == a.sourceRevision
    && DigestIs(env, w, MarkerFile, r.markerSha) && DigestIs(env, w, JudgmentFile, r.judgmentSha)
    && DigestIs(env, w, ObservationFile(a.jobId), r.observationSha)
    && (exists o :: ObservationIs(env, w, a, marker.backend, o) && r.attempt == o.attempt && r.outerLaunchId == o.outerLaunchId)
    && EvidenceIs(env, w, a.jobId, r.evidence)
    && ProjectionIs(env, w, r.projectionSha) && (w.projection.Some? ==> w.projectionAtWorkingDir)
    && w.resultTree.Ok? && r.resultTreeSha == env.sha(w.resultTree.value)
    && (exists result :: BoundaryIs(w, a, None, result) && (if result.Some? then r.resultRevision == result else w.head == Ok(r.resultRevision)))
    && (r.resultRevision.Some? ==> w.retains(r.resultRevision.value))
    && r.contained == marker.contained && r.backend == marker.backend
  }

  /** Sealing gives exactly the receipt that reports the world, signed by the gate
      key in lower-case hexadecimal, where it may seal. */
  lemma SealIff(env: Env, w: World, a: Authority, marker: Marker, judgment: Judgment, now: int, r: Receipt)
    ensures Seal(env, w, a, marker, judgment, now) == Ok(r) <==>
      && (exists job :: MaySeal(env, w, a, marker, judgment, job))
      && Reports(env, w, a, marker, now, r)
      && SignedByGate(env, w, r) && LowerText(r.signature) == r.signature
  {
    hide SealChecks, Unsigned, MaySeal, Reports, SignedByGate, SignReceipt;
    ChecksMean(env, w, a, marker, judgment);
    UnsignedMeans(env, w, a, marker, now, r);
    SigningMeans(env, w, r);
    if Unsigned(env, w, a, marker, now).Ok? {
      SigningKeeps(env, w, a, marker, now);
    }
  }

  lemma ChecksMean(env: Env, w: World, a: Authority, marker: Marker, judgment: Judgment)
    ensures SealChecks(env, w, a, marker, judgment).Ok? <==> exists job :: MaySeal(env, w, a, marker, judgment, job)
  {
    hide AuthorityInputs, ValidatedMarker, Authorized, MarkerIs;
    CoverageMeans(judgment);
    hide CoverageComplete;
    MarkerMeans(w, marker);
    if SealChecks(env, w, a, marker, judgment).Ok? {
      ChecksParts(env, w, a, marker, judgment);
      var job := LoadJob(env, w, a.jobId).value;
      InputsMean(env, w, job, a, a.jobId);
      assert MaySeal(env, w, a, marker, judgment, job);
    }
    if job :| MaySeal(env, w, a, marker, judgment, job) {
      InputsMean(env, w, job, a, a.jobId);
    }
  }

  lemma UnsignedMeans(env: Env, w: World, a: Authority, marker: Marker, now: int, r: Receipt)
    ensures Unsigned(env, w, a, marker, now) == Ok(r.(signature := "")) && (r.resultRevision.Some? ==> w.retains(r.resultRevision.value))
      <==> Reports(env, w, a, marker, now, r)
  {
    hide ResultBoundary, SealProjection, Observe, ExecutionEvidence, BoundaryIs, ProjectionIs, ObservationIs, EvidenceIs;
    if Unsigned(env, w, a, marker, now) == Ok(r.(signature := "")) {
      UnsignedParts(env, w, a, marker, now);
      UnsignedFields(env, w, a, marker, now);
      BoundaryMeans(w, a, None, ResultBoundary(w, a, None).value);
      ObservationMeans(env, w, a, marker.backend, Observe(env, w, a, marker.backend).value);
      EvidenceMeans(env, w, a.jobId, r.evidence);
      SealedProjectionMeans(env, w, r.projectionSha);
    }
    if Reports(env, w, a, marker, now, r) {
      var result :| BoundaryIs(w, a, None, result) && (if result.Some? then r.resultRevision == result else w.head == Ok(r.resultRevision));
      var o :| ObservationIs(env, w, a, marker.backend, o) && r.attempt == o.attempt && r.outerLaunchId == o.outerLaunchId;
      BoundaryMeans(w, a, None, result);
      ObservationMeans(env, w, a, marker.backend, o);
      EvidenceMeans(env, w, a.jobId, r.evidence);
      SealedProjectionMeans(env, w, r.projectionSha);
    }
  }

  lemma SealedProjectionMeans(env: Env, w: World, digest: Option<string>)
    ensures SealProjection(env, w) == Ok(digest) <==> ProjectionIs(env, w, digest) && (w.projection.Some? ==> w.projectionAtWorkingDir)
  {
  }

  lemma SigningMeans(env: Env, w: World, r: Receipt)
    ensures SignReceipt(env, w, r.(signature := "")) == Ok(r) <==> SignedByGate(env, w, r) && LowerText(r.signature) == r.signature
  {
    var message := Message(env, r);
    assert Message(env, r.(signature := "")) == message;
    if env.key(w.runId).Some? && message.Some? {
      var key := env.key(w.runId).value;
      SealedVerifies(env.mac, key, message.value);
      SignatureIff(env.mac, key, message.value, Sign(env.mac, key, message.value));
    }
  }

  lemma SigningKeeps(env: Env, w: World, a: Authority, marker: Marker, now: int)
    requires Unsigned(env, w, a, marker, now).Ok?
    ensures var u := Unsigned(env, w, a, marker, now).value;
      u.signature == "" && (SignReceipt(env, w, u).Ok? ==> SignReceipt(env, w, u).value.(signature := "") == u)
  {
    hide ResultBoundary, SealProjection, Observe, ExecutionEvidence;
  }
}

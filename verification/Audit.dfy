/** The receipt audit of `completion.rs`: a builder that records one fact per
    check, in fail-fast or collecting mode, and collapses to the strict result. */
module Audit {
  import opened Common
  import opened Completion

  datatype Name =
    | ReceiptDocument | ReceiptIdentity | ReceiptProvenance | AuthorityDocument | AuthorityInputsName
    | ResultBoundaryName | SandboxObservation | AttemptIdentity | SandboxObservationDigest
    | ExecutionEvidenceName | AuthorityDigest | LaunchPlanDigest | MarkerDigest | JudgmentDigest
    | JudgmentAchieved | MarkerSignature | ProjectionDigest | ResultTreeDigest | ReceiptSignature

  /** The outcome of one check: `None` when it passed. */
  datatype Fact = Fact(name: Name, failure: Option<Refusal>)

  function Failure<T>(outcome: Result<T, Refusal>): Option<Refusal> {
    if outcome.Ok? then None else Some(outcome.error)
  }

  /** The facts up to and including the first failure. */
  function Cut(facts: seq<Fact>): seq<Fact> {
    if facts == [] then []
    else if facts[0].failure.Some? then facts[..1]
    else [facts[0]] + Cut(facts[1..])
  }

  function FirstFailure(facts: seq<Fact>): Option<Refusal> {
    if facts == [] then None
    else if facts[0].failure.Some? then facts[0].failure
    else FirstFailure(facts[1..])
  }

  function Visible(failFast: bool, facts: seq<Fact>): seq<Fact> {
    if failFast then Cut(facts) else facts
  }

  lemma {:induction false} CutAppend(facts: seq<Fact>, more: seq<Fact>)
    ensures FirstFailure(facts).Some? ==> Cut(facts + more) == Cut(facts)
    ensures FirstFailure(facts).None? ==> Cut(facts + more) == facts + Cut(more) && Cut(facts) == facts
    ensures FirstFailure(facts + more)
         == if FirstFailure(facts).Some? then FirstFailure(facts) else FirstFailure(more)
  {
    if facts == [] {
      assert facts + more == more;
    } else {
      assert (facts + more)[1..] == facts[1..] + more;
      CutAppend(facts[1..], more);
      if FirstFailure(facts).None? {
        assert facts == [facts[0]] + facts[1..];
        assert facts + Cut(more) == [facts[0]] + (facts[1..] + Cut(more));
      }
    }
  }

  lemma {:induction false} CutFacts(facts: seq<Fact>)
    ensures Cut(facts) <= facts
    ensures FirstFailure(Cut(facts)) == FirstFailure(facts)
    ensures FirstFailure(facts).None? ==> Cut(facts) == facts && forall f | f in facts :: f.failure.None?
    ensures FirstFailure(facts).Some? ==>
      && Cut(facts) != []
      && Cut(facts)[|Cut(facts)| - 1].failure == FirstFailure(facts)
      && forall i | 0 <= i < |Cut(facts)| - 1 :: Cut(facts)[i].failure.None?
  {
    if facts != [] && facts[0].failure.None? {
      CutFacts(facts[1..]);
    }
  }

  class Builder {
    var facts: seq<Fact>
    var firstError: Option<Refusal>
    const failFast: bool
    /** Every check submitted so far, run or not, with the outcome it has or would have had. */
    ghost var submitted: seq<Fact>
    /** The names of the check closures that were invoked, in order. */
    ghost var ran: seq<Name>

    ghost predicate Valid()
      reads this
    {
      && facts == Visible(failFast, submitted)
      && firstError == FirstFailure(submitted)
      && |ran| == |facts|
      && forall i | 0 <= i < |facts| :: ran[i] == facts[i].name
    }

    constructor (failFast: bool)
      ensures Valid() && submitted == [] && this.failFast == failFast && firstError.None?
    {
      this.failFast := failFast;
      facts, firstError, submitted, ran := [], None, [], [];
    }

    /** Record one check.  After a failure in fail-fast mode the closure is not invoked. */
    method Record<T>(name: Name, check: () -> Result<T, Refusal>) returns (value: Option<T>)
      requires Valid()
      modifies this
      ensures Valid()
      ensures submitted == old(submitted) + [Fact(name, Failure(check()))]
      ensures firstError == if old(firstError).Some? then old(firstError) else Failure(check())
      ensures failFast && old(firstError).Some? ==> value.None? && ran == old(ran)
      ensures !(failFast && old(firstError).Some?) ==>
        && ran == old(ran) + [name]
        && value == if check().Ok? then Some(check().value) else None
    {
      CutAppend(submitted, [Fact(name, Failure(check()))]);
      submitted := submitted + [Fact(name, Failure(check()))];
      if failFast && firstError.Some? {
        return None;
      }
      ran := ran + [name];
      match check()
      case Ok(v) =>
        facts := facts + [Fact(name, None)];
        return Some(v);
      case Err(error) =>
        facts := facts + [Fact(name, Some(error))];
        if firstError.None? {
          firstError := Some(error);
        }
        return None;
    }

    /** Checks that control flow passes over once fail-fast has stopped leave no trace. */
    ghost method PassOver(more: seq<Fact>)
      requires Valid()
      requires more != [] ==> failFast && firstError.Some?
      modifies this`submitted
      ensures Valid() && submitted == old(submitted) + more
    {
      CutAppend(submitted, more);
      submitted := submitted + more;
    }
  }

  // ------------------------------------------------------------- the plan

  function LedgerPlan(env: Env, w: World, receipt: Receipt): seq<Fact> {
    [Fact(SandboxObservationDigest,
          Failure(CheckDigest(env, w, ObservationFile(w.runId), receipt.observationSha, ObservationChanged))),
     Fact(ExecutionEvidenceName, Failure(CheckEvidence(env, w, receipt))),
     Fact(AuthorityDigest,
          Failure(CheckDigest(env, w, AuthorityFile(w.runId), receipt.authoritySha, AuthorityChanged))),
     Fact(LaunchPlanDigest,
          Failure(CheckDigest(env, w, LaunchPlanFile(w.runId), receipt.launchPlanSha, LaunchPlanChanged))),
     Fact(MarkerDigest, Failure(CheckDigest(env, w, MarkerFile, receipt.markerSha, MarkerChanged)))]
  }

  function ProofPlan(env: Env, w: World, receipt: Receipt): seq<Fact> {
    [Fact(JudgmentDigest, Failure(CheckDigest(env, w, JudgmentFile, receipt.judgmentSha, JudgmentChanged))),
     Fact(JudgmentAchieved, Failure(CheckJudgment(env, w, receipt))),
     Fact(MarkerSignature, Failure(CheckMarker(w, receipt))),
     Fact(ProjectionDigest, Failure(CheckProjection(env, w, receipt))),
     Fact(ResultTreeDigest, Failure(CheckTree(env, w, receipt))),
     Fact(ReceiptSignature, Failure(CheckSignature(env, w, receipt)))]
  }

  function AttemptPlan(receipt: Receipt, observation: Result<Observation, Refusal>): seq<Fact> {
    if observation.Ok? then [Fact(AttemptIdentity, Failure(CheckAttempt(receipt, observation.value)))] else []
  }

  function BodyPlan(env: Env, w: World, receipt: Receipt, authority: Authority, job: Job): seq<Fact> {
    [Fact(AuthorityInputsName, Failure(AuthorityInputs(env, w, job, authority, w.runId))),
     Fact(ResultBoundaryName, Failure(CheckBoundary(w, authority, receipt))),
     Fact(SandboxObservation, Failure(Observe(env, w, authority, receipt.backend)))]
    + AttemptPlan(receipt, Observe(env, w, authority, receipt.backend))
    + LedgerPlan(env, w, receipt)
    + ProofPlan(env, w, receipt)
  }

  function HeadPlan(env: Env, w: World, receipt: Receipt): seq<Fact> {
    [Fact(ReceiptDocument, None),
     Fact(ReceiptIdentity, Failure(CheckIdentity(w, receipt))),
     Fact(ReceiptProvenance, Failure(CheckProvenance(receipt))),
     Fact(AuthorityDocument, Failure(LoadAuthority(env, w)))]
  }

  /** The facts a complete audit records: everything that can be checked given
      which documents could be read. */
  function Plan(env: Env, w: World): seq<Fact> {
    match LoadReceipt(env, w)
    case Err(e) => [Fact(ReceiptDocument, Some(e))]
    case Ok(receipt) =>
      HeadPlan(env, w, receipt)
      + (match LoadAuthority(env, w)
         case Err(_) => []
         case Ok((authority, job)) => BodyPlan(env, w, receipt, authority, job))
  }

  datatype ReceiptAudit = ReceiptAudit(facts: seq<Fact>, receipt: Option<Receipt>, firstError: Option<Refusal>)

  function IntoResult(audit: ReceiptAudit): Result<Receipt, Refusal> {
    match (audit.firstError, audit.receipt)
    case (Some(error), _) => Err(error)
    case (None, Some(receipt)) => Ok(receipt)
    case (None, None) => Err(AuditWithoutReceipt)
  }

  method RecordLedgers(audit: Builder, env: Env, w: World, receipt: Receipt)
    requires audit.Valid()
    modifies audit
    ensures audit.Valid() && audit.submitted == old(audit.submitted) + LedgerPlan(env, w, receipt)
  {
    hide CheckDigest, CheckEvidence, Failure, Builder.Valid;
    var _ := audit.Record(SandboxObservationDigest,
      () => CheckDigest(env, w, ObservationFile(w.runId), receipt.observationSha, ObservationChanged));
    var _ := audit.Record(ExecutionEvidenceName, () => CheckEvidence(env, w, receipt));
    var _ := audit.Record(AuthorityDigest,
      () => CheckDigest(env, w, AuthorityFile(w.runId), receipt.authoritySha, AuthorityChanged));
    var _ := audit.Record(LaunchPlanDigest,
      () => CheckDigest(env, w, LaunchPlanFile(w.runId), receipt.launchPlanSha, LaunchPlanChanged));
    var _ := audit.Record(MarkerDigest, () => CheckDigest(env, w, MarkerFile, receipt.markerSha, MarkerChanged));
  }

  method RecordProofs(audit: Builder, env: Env, w: World, receipt: Receipt)
    requires audit.Valid()
    modifies audit
    ensures audit.Valid() && audit.submitted == old(audit.submitted) + ProofPlan(env, w, receipt)
  {
    hide CheckDigest, CheckJudgment, CheckMarker, CheckProjection, CheckTree, CheckSignature, Failure, Builder.Valid;
    var _ := audit.Record(JudgmentDigest, () => CheckDigest(env, w, JudgmentFile, receipt.judgmentSha, JudgmentChanged));
    var _ := audit.Record(JudgmentAchieved, () => CheckJudgment(env, w, receipt));
    var _ := audit.Record(MarkerSignature, () => CheckMarker(w, receipt));
    var _ := audit.Record(ProjectionDigest, () => CheckProjection(env, w, receipt));
    var _ := audit.Record(ResultTreeDigest, () => CheckTree(env, w, receipt));
    var _ := audit.Record(ReceiptSignature, () => CheckSignature(env, w, receipt));
  }

  method RecordBody(audit: Builder, env: Env, w: World, receipt: Receipt, authority: Authority, job: Job)
    requires audit.Valid()
    modifies audit
    ensures audit.Valid() && audit.submitted == old(audit.submitted) + BodyPlan(env, w, receipt, authority, job)
  {
    hide AuthorityInputs, CheckBoundary, Observe, CheckAttempt, LedgerPlan, ProofPlan, Builder.Valid;
    var _ := audit.Record(AuthorityInputsName, () => AuthorityInputs(env, w, job, authority, w.runId));
    var _ := audit.Record(ResultBoundaryName, () => CheckBoundary(w, authority, receipt));
    ghost var expected := Observe(env, w, authority, receipt.backend);
    var observation := audit.Record(SandboxObservation, () => Observe(env, w, authority, receipt.backend));
    if observation.Some? {
      var observed := observation.value;
      var _ := audit.Record(AttemptIdentity, () => CheckAttempt(receipt, observed));
    } else {
      audit.PassOver(AttemptPlan(receipt, expected));
    }
    RecordLedgers(audit, env, w, receipt);
    RecordProofs(audit, env, w, receipt);
  }

  /** The audit itself.  In either mode its facts are the planned ones, cut at
      the first failure when it is fail-fast, and the closures it ran are
      exactly those whose facts it shows. */
  method AuditReceipt(env: Env, w: World, failFast: bool) returns (audit: ReceiptAudit, ghost ran: seq<Name>)
    ensures audit.facts == Visible(failFast, Plan(env, w))
    ensures audit.firstError == FirstFailure(Plan(env, w))
    ensures audit.firstError.None? ==> audit.receipt == Some(LoadReceipt(env, w).value) && LoadReceipt(env, w).Ok?
    ensures IntoResult(audit) == Strict(env, w)
    ensures |ran| == |audit.facts| && forall i | 0 <= i < |ran| :: ran[i] == audit.facts[i].name
  {
    hide LoadReceipt, CheckIdentity, CheckProvenance, LoadAuthority, BodyPlan, Visible, FirstFailure, Strict;
    StrictIsFirstFailure(env, w);
    var builder := new Builder(failFast);
    var document := builder.Record(ReceiptDocument, () => LoadReceipt(env, w));
    if document.None? {
      assert builder.submitted == Plan(env, w);
      return ReceiptAudit(builder.facts, None, builder.firstError), builder.ran;
    }
    var receipt := document.value;
    var _ := builder.Record(ReceiptIdentity, () => CheckIdentity(w, receipt));
    var _ := builder.Record(ReceiptProvenance, () => CheckProvenance(receipt));
    var documents := builder.Record(AuthorityDocument, () => LoadAuthority(env, w));
    assert builder.submitted == HeadPlan(env, w, receipt);
    if documents.None? {
      HeadFailure(env, w, receipt, builder.failFast);
      if LoadAuthority(env, w).Ok? {
        ghost var parsed := LoadAuthority(env, w).value;
        builder.PassOver(BodyPlan(env, w, receipt, parsed.0, parsed.1));
      }
      assert builder.submitted == Plan(env, w);
      return ReceiptAudit(builder.facts, None, builder.firstError), builder.ran;
    }
    var (authority, job) := documents.value;
    RecordBody(builder, env, w, receipt, authority, job);
    audit, ran := ReceiptAudit(builder.facts, Some(receipt), builder.firstError), builder.ran;
  }

  /** The authority step comes back empty only after a failure. */
  lemma HeadFailure(env: Env, w: World, receipt: Receipt, failFast: bool)
    ensures LoadAuthority(env, w).Err? ==> FirstFailure(HeadPlan(env, w, receipt)).Some?
    ensures FirstFailure(HeadPlan(env, w, receipt)).None? ==> FirstFailure(HeadPlan(env, w, receipt)[..3]).None?
  {
    hide LoadAuthority, CheckIdentity, CheckProvenance;
    var head := HeadPlan(env, w, receipt);
    assert head == head[..3] + [head[3]];
    CutAppend(head[..3], [head[3]]);
    assert FirstFailure([head[3]]) == head[3].failure;
  }

  // -------------------------------------------------------------- theorems

  lemma {:induction false} FailureIndex(facts: seq<Fact>) returns (i: nat)
    ensures i <= |facts|
    ensures forall j | 0 <= j < i :: facts[j].failure.None?
    ensures i < |facts| ==> facts[i].failure.Some? && FirstFailure(facts) == facts[i].failure
    ensures i == |facts| ==> FirstFailure(facts).None?
  {
    if facts == [] || facts[0].failure.Some? {
      return 0;
    }
    var rest := FailureIndex(facts[1..]);
    i := rest + 1;
    forall j | 0 <= j < i ensures facts[j].failure.None? {
      assert j > 0 ==> facts[j] == facts[1..][j - 1];
    }
  }

  /** The strict validator reports exactly the first failing planned fact. */
  lemma StrictIsFirstFailure(env: Env, w: World)
    ensures FirstFailure(Plan(env, w)).Some? ==> Strict(env, w) == Err(FirstFailure(Plan(env, w)).value)
    ensures FirstFailure(Plan(env, w)).None? ==> LoadReceipt(env, w).Ok? && Strict(env, w) == LoadReceipt(env, w)
  {
    hide LoadReceipt, CheckIdentity, AuthorityInputs, CheckBoundary, Observe, CheckAttempt, CheckDigest,
         CheckEvidence, CheckJudgment, CheckMarker, CheckProjection, CheckTree, CheckSignature, CheckProvenance,
         LoadAuthority, FirstFailure;
    var plan := Plan(env, w);
    var i := FailureIndex(plan);
    if LoadReceipt(env, w).Ok? {
      var receipt := LoadReceipt(env, w).value;
      assert plan[..4] == HeadPlan(env, w, receipt);
      assert plan[0].failure.None? && plan[1] == plan[..4][1] && plan[2] == plan[..4][2] && plan[3] == plan[..4][3];
      if LoadAuthority(env, w).Ok? {
        var (authority, job) := LoadAuthority(env, w).value;
        PlanBody(env, w, receipt, authority, job);
        if Observe(env, w, authority, receipt.backend).Ok? {
          var l, p := LedgerPlan(env, w, receipt), ProofPlan(env, w, receipt);
          assert plan[8] == l[0] && plan[9] == l[1] && plan[10] == l[2] && plan[11] == l[3] && plan[12] == l[4];
          assert plan[13] == p[0] && plan[14] == p[1] && plan[15] == p[2];
          assert plan[16] == p[3] && plan[17] == p[4] && plan[18] == p[5];
        }
      }
    } else {
      assert plan[0].failure.Some?;
    }
  }

  /** Fail-fast facts are the collected facts up to and including the first
      failure: everything before it passed, and nothing after it is shown. */
  lemma FailFastIsPrefix(env: Env, w: World)
    ensures var shown, all := Visible(true, Plan(env, w)), Visible(false, Plan(env, w));
      && shown <= all
      && (FirstFailure(all).None? ==> shown == all)
      && (FirstFailure(all).Some? ==>
            && shown != [] && shown[|shown| - 1].failure == FirstFailure(all)
            && forall i | 0 <= i < |shown| - 1 :: shown[i].failure.None?)
  {
    hide Plan;
    CutFacts(Plan(env, w));
  }

  /** Where the facts after the documents sit in the plan. */
  lemma PlanBody(env: Env, w: World, receipt: Receipt, authority: Authority, job: Job)
    requires LoadReceipt(env, w) == Ok(receipt) && LoadAuthority(env, w) == Ok((authority, job))
    ensures var plan, observation := Plan(env, w), Observe(env, w, authority, receipt.backend);
      && |plan| == (if observation.Ok? then 19 else 18)
      && plan[4] == Fact(AuthorityInputsName, Failure(AuthorityInputs(env, w, job, authority, w.runId)))
      && plan[5] == Fact(ResultBoundaryName, Failure(CheckBoundary(w, authority, receipt)))
      && plan[6] == Fact(SandboxObservation, Failure(observation))
      && (observation.Ok? ==>
            && plan[7] == Fact(AttemptIdentity, Failure(CheckAttempt(receipt, observation.value)))
            && plan[8..13] == LedgerPlan(env, w, receipt)
            && plan[13..] == ProofPlan(env, w, receipt)
            && (forall k | 8 <= k < 13 :: plan[k] == LedgerPlan(env, w, receipt)[k - 8])
            && (forall k | 13 <= k < 19 :: plan[k] == ProofPlan(env, w, receipt)[k - 13]))
  {
    hide LoadReceipt, CheckIdentity, AuthorityInputs, CheckBoundary, Observe, CheckAttempt, CheckDigest,
         CheckEvidence, CheckJudgment, CheckMarker, CheckProjection, CheckTree, CheckSignature, CheckProvenance,
         LoadAuthority;
  }

  /** Exactly the nineteen facts, in order. */
  const ALL_NAMES: seq<Name> := [
    ReceiptDocument, ReceiptIdentity, ReceiptProvenance, AuthorityDocument, AuthorityInputsName,
    ResultBoundaryName, SandboxObservation, AttemptIdentity, SandboxObservationDigest,
    ExecutionEvidenceName, AuthorityDigest, LaunchPlanDigest, MarkerDigest, JudgmentDigest,
    JudgmentAchieved, MarkerSignature, ProjectionDigest, ResultTreeDigest, ReceiptSignature]

  lemma SuccessShowsAllFacts(env: Env, w: World)
    requires FirstFailure(Plan(env, w)).None?
    ensures |Plan(env, w)| == 19
    ensures forall i | 0 <= i < 19 :: Plan(env, w)[i] == Fact(ALL_NAMES[i], None)
  {
    hide LoadReceipt, CheckIdentity, AuthorityInputs, CheckBoundary, Observe, CheckAttempt, CheckDigest,
         CheckEvidence, CheckJudgment, CheckMarker, CheckProjection, CheckTree, CheckSignature, CheckProvenance,
         LoadAuthority, FirstFailure;
    var plan := Plan(env, w);
    var i := FailureIndex(plan);
    assert plan[0].failure.None? && plan[3].failure.None? && plan[6].failure.None?;
  }
}

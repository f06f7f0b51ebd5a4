/** The live-trial recorder (`live-trial.py`): before evidence, intervention,
    after evidence, cleanup and verdict, as commands on a saved state. */
module LiveTrial {
  import opened Common

  datatype Refusal =
    | ReplaceForbidden | WrongMode | RepeatedSubject | MalformedEvidence | MalformedCapture
    | MixedWithEvidence | AlreadyRecorded | DetailRequired | BadDetail | DetailWithoutStatus
    | MissingBefore | MissingAfter | HelperFailed
    | Undeclared | WrongPhase | AlreadyCaptured | SourceNotRegular | TargetExists | InvalidContent
    | FailsClosed

  datatype Phase = Before | After

  /** `wellFormed` is the check of name, source and format. */
  datatype Declaration = Declaration(name: string, required: bool, wellFormed: bool)

  datatype Trial = Trial(evidence: seq<Declaration>, before: seq<string>, after: seq<string>)

  ghost predicate Distinct(names: seq<string>) {
    forall i, j | 0 <= i < j < |names| :: names[i] != names[j]
  }

  function Names(names: seq<string>): set<string> {
    set n | n in names
  }

  ghost predicate DistinctNames(evidence: seq<Declaration>) {
    forall i, j | 0 <= i < j < |evidence| :: evidence[i].name != evidence[j].name
  }

  function DeclaredNames(evidence: seq<Declaration>): set<string> {
    set d | d in evidence :: d.name
  }

  /** What the evidence index accepts: well-formed declarations with different
      names, and capture phases that partition exactly those names. */
  ghost predicate WellFormedTrial(trial: Trial) {
    && (forall d | d in trial.evidence :: d.wellFormed)
    && DistinctNames(trial.evidence)
    && Distinct(trial.before + trial.after)
    && Names(trial.before + trial.after) == DeclaredNames(trial.evidence)
  }

  method IndexDeclarations(evidence: seq<Declaration>) returns (index: Result<map<string, Declaration>, Refusal>)
    ensures index.Ok? <==> (forall d | d in evidence :: d.wellFormed) && DistinctNames(evidence)
    ensures index.Ok? ==> index.value.Keys == DeclaredNames(evidence)
    ensures index.Ok? ==> forall d | d in evidence :: index.value[d.name] == d
  {
    var indexed: map<string, Declaration> := map[];
    for i := 0 to |evidence|
      invariant forall j | 0 <= j < i :: evidence[j].wellFormed
      invariant DistinctNames(evidence[..i])
      invariant forall j | 0 <= j < i :: evidence[j].name in indexed && indexed[evidence[j].name] == evidence[j]
      invariant forall name | name in indexed :: exists j :: 0 <= j < i && evidence[j].name == name
    {
      if !evidence[i].wellFormed {
        assert evidence[i] in evidence;
        return Err(MalformedEvidence);
      }
      if evidence[i].name in indexed {
        return Err(MalformedEvidence);
      }
      indexed := indexed[evidence[i].name := evidence[i]];
    }
    assert evidence[..|evidence|] == evidence;
    forall name ensures name in indexed <==> name in DeclaredNames(evidence) {
      if name in indexed {
        var j :| 0 <= j < |evidence| && evidence[j].name == name;
        assert evidence[j] in evidence;
      }
    }
    return Ok(indexed);
  }

  method CheckDistinct(names: seq<string>) returns (distinct: bool)
    ensures distinct <==> Distinct(names)
  {
    var seen: set<string> := {};
    for i := 0 to |names|
      invariant forall j | 0 <= j < i :: names[j] in seen
      invariant forall name | name in seen :: exists j :: 0 <= j < i && names[j] == name
      invariant Distinct(names[..i])
    {
      if names[i] in seen {
        return false;
      }
      seen := seen + {names[i]};
    }
    assert names[..|names|] == names;
    return true;
  }

  /** The evidence index: a loop that fills a dictionary and refuses a repeated
      name, then the check that the two phases partition the names. */
  method EvidenceIndex(trial: Trial) returns (index: Result<map<string, Declaration>, Refusal>)
    ensures index.Ok? <==> WellFormedTrial(trial)
    ensures index.Ok? ==> index.value.Keys == DeclaredNames(trial.evidence)
    ensures index.Ok? ==> forall d | d in trial.evidence :: index.value[d.name] == d
  {
    var indexed :- IndexDeclarations(trial.evidence);
    var phaseNames := trial.before + trial.after;
    var distinct := CheckDistinct(phaseNames);
    if !distinct || Names(phaseNames) != indexed.Keys {
      return Err(MalformedEvidence);
    }
    return Ok(indexed);
  }

  predicate Declared(trial: Trial, name: string) {
    exists d | d in trial.evidence :: d.name == name
  }

  function PhaseOf(trial: Trial, name: string): Phase {
    if name in trial.before then Before else After
  }

  predicate AllCaptured(trial: Trial, captures: map<string, Capture>, phase: Phase) {
    forall d | d in trial.evidence :: CapturedIn(trial, captures, phase, d)
  }

  /** The declaration is not required in this phase, or captured. */
  predicate CapturedIn(trial: Trial, captures: map<string, Capture>, phase: Phase, d: Declaration) {
    d.required && PhaseOf(trial, d.name) == phase ==> d.name in captures
  }

  // ----------------------------------------------------------------- state

  datatype Capture = Capture(bytes: string, capturedAt: int, canonical: bool)

  datatype InterventionStatus = NotPerformed | Performed | InterventionFailed

  datatype CleanupStatus = NotRun | CleanupCompleted | CleanupFailed

  datatype Record<S> = Record(status: S, detail: Option<string>, recordedAt: Option<int>)

  /** The saved trial state. */
  datatype State = State(
    trusted: bool,
    captures: map<string, Capture>,
    intervention: Record<InterventionStatus>,
    cleanup: Record<CleanupStatus>)

  function Prepared(trusted: bool): State {
    State(trusted, map[], Record(NotPerformed, None, None), Record(NotRun, None, None))
  }

  // -------------------------------------------------------------- commands

  /** A detail file argument: absent, not a regular file, or its digest. */
  datatype Detail = NoDetail | IrregularDetail | DetailDigest(digest: string)

  /** One requested capture.  A manual one names a source file; a canonical one
      is answered by the trusted helper, which writes the target itself. */
  datatype Request =
    | Malformed
    | Manual(name: string, source: Option<string>)
    | Canonical(name: string, answer: Option<Capture>)

  datatype Command =
    | Prepare
    | Observe(manual: seq<Request>, canonical: seq<Request>, replace: bool,
              status: Option<InterventionStatus>, detail: Detail, helperDetail: Option<string>, now: int)
    | Cleanup(outcome: CleanupStatus, detail: Detail, helperDetail: Option<string>, now: int)

  predicate WellTyped(command: Command) {
    match command
    case Prepare => true
    case Observe(manual, canonical, _, _, _, _, _) =>
      && (forall r | r in manual :: r.Malformed? || r.Manual?)
      && (forall r | r in canonical :: r.Canonical?)
    case Cleanup(outcome, _, _, _) => outcome != NotRun
  }

  /** Evidence text by name, as the raw directory holds it. */
  type Raw = map<string, string>

  function DetailOf(detail: Detail): Result<Option<string>, Refusal> {
    match detail
    case NoDetail => Ok(None)
    case IrregularDetail => Err(BadDetail)
    case DetailDigest(digest) => Ok(Some(digest))
  }

  /** The checks on one request that touch nothing. */
  function Admit(trial: Trial, expected: Phase, captures: map<string, Capture>, name: string): Result<(), Refusal> {
    if !Declared(trial, name) then Err(Undeclared)
    else if PhaseOf(trial, name) != expected then Err(WrongPhase)
    else if name in captures then Err(AlreadyCaptured)
    else Ok(())
  }

  datatype Progress = Progress(captures: map<string, Capture>, raw: Raw)

  /** One request: the new captures, or a refusal; the raw directory changes
      even when the copied content is then refused. */
  function CaptureOne(trial: Trial, expected: Phase, valid: (string, string) -> bool, now: int,
                      p: Progress, request: Request): (Result<(), Refusal>, Progress) {
    match request
    case Malformed => (Err(MalformedCapture), p)
    case Manual(name, source) =>
      var admitted := Admit(trial, expected, p.captures, name);
      if admitted.Err? then (admitted, p)
      else if source.None? then (Err(SourceNotRegular), p)
      else if name in p.raw then (Err(TargetExists), p)
      else
        var raw := p.raw[name := source.value];
        if !valid(name, source.value) then (Err(InvalidContent), p.(raw := raw))
        else (Ok(()), Progress(p.captures[name := Capture(source.value, now, false)], raw))
    case Canonical(name, answer) =>
      var admitted := Admit(trial, expected, p.captures, name);
      if admitted.Err? then (admitted, p)
      else match answer
        case None => (Err(HelperFailed), p)
        case Some(capture) => (Ok(()), Progress(p.captures[name := capture], p.raw[name := capture.bytes]))
  }

  function CaptureAll(trial: Trial, expected: Phase, valid: (string, string) -> bool, now: int,
                      p: Progress, requests: seq<Request>): (Result<(), Refusal>, Progress)
    decreases |requests|
  {
    if requests == [] then (Ok(()), p)
    else
      var (result, q) := CaptureOne(trial, expected, valid, now, p, requests[0]);
      if result.Err? then (result, q) else CaptureAll(trial, expected, valid, now, q, requests[1..])
  }

  predicate DistinctSubjects(requests: seq<Request>) {
    forall i, j | 0 <= i < j < |requests| ::
      !(requests[i].Canonical? && requests[j].Canonical? && requests[i].name == requests[j].name)
  }

  /** The intervention half of `observe`: the new record, or none. */
  function Intervene(trial: Trial, s: State, command: Command): Result<Option<Record<InterventionStatus>>, Refusal>
    requires command.Observe?
  {
    if command.status.None? then
      if command.detail.NoDetail? then Ok(None) else Err(DetailWithoutStatus)
    else
      var status := command.status.value;
      if command.manual != [] || command.canonical != [] then Err(MixedWithEvidence)
      else if s.intervention.status != NotPerformed then Err(AlreadyRecorded)
      else if status == Performed && command.detail.NoDetail? then Err(DetailRequired)
      else if status == Performed && !AllCaptured(trial, s.captures, Before) then Err(MissingBefore)
      else
        var detail :- DetailOf(command.detail);
        if s.trusted && status == Performed then
          if command.helperDetail.None? then Err(HelperFailed)
          else Ok(Some(Record(status, command.helperDetail, Some(command.now))))
        else Ok(Some(Record(status, detail, Some(command.now))))
  }

  function CurrentPhase(s: State): Phase {
    if s.intervention.status == Performed then After else Before
  }

  /** `observe` on a trial whose evidence index is well formed. */
  function ObserveResult(trial: Trial, valid: (string, string) -> bool, s: State, raw: Raw, command: Command)
    : (Result<State, Refusal>, Raw)
    requires command.Observe?
  {
    if command.replace then (Err(ReplaceForbidden), raw)
    else if s.trusted && command.manual != [] then (Err(WrongMode), raw)
    else if !s.trusted && command.canonical != [] then (Err(WrongMode), raw)
    else if !DistinctSubjects(command.canonical) then (Err(RepeatedSubject), raw)
    else
      match Intervene(trial, s, command)
      case Err(e) => (Err(e), raw)
      case Ok(record) =>
        if Malformed in command.manual then (Err(MalformedCapture), raw)
        else
          var (result, p) := CaptureAll(trial, CurrentPhase(s), valid, command.now,
                                        Progress(s.captures, raw), command.manual + command.canonical);
          if result.Err? then (Err(result.error), p.raw)
          else
            (Ok(s.(captures := p.captures, intervention := if record.Some? then record.value else s.intervention)), p.raw)
  }

  function CleanupResult(trial: Trial, s: State, command: Command): Result<State, Refusal>
    requires command.Cleanup?
  {
    if s.cleanup.status != NotRun then Err(AlreadyRecorded)
    else if command.outcome == CleanupCompleted && command.detail.NoDetail? then Err(DetailRequired)
    else
      var detail :- DetailOf(command.detail);
      if s.trusted && command.outcome == CleanupCompleted then
        if !AllCaptured(trial, s.captures, After) then Err(MissingAfter)
        else if command.helperDetail.None? then Err(HelperFailed)
        else Ok(s.(cleanup := Record(command.outcome, command.helperDetail, Some(command.now))))
      else Ok(s.(cleanup := Record(command.outcome, detail, Some(command.now))))
  }

  /** The recorder's saved state and raw directory, updated in place. */
  class Recorder {
    const trial: Trial
    const valid: (string, string) -> bool
    var state: State
    var raw: Raw

    constructor (trial: Trial, valid: (string, string) -> bool, trusted: bool)
      ensures state == Prepared(trusted) && raw == map[] && this.trial == trial
    {
      this.trial := trial;
      this.valid := valid;
      state, raw := Prepared(trusted), map[];
    }

    /** Captures are made one by one in memory and saved only at the end. */
    method RunObserve(command: Command) returns (result: Result<(), Refusal>)
      requires command.Observe? && WellTyped(command)
      modifies this`state, this`raw
      ensures var (expected, files) := ObserveResult(trial, valid, old(state), old(raw), command);
        && raw == files
        && (expected.Ok? ==> result == Ok(()) && state == expected.value)
        && (expected.Err? ==> result == Err(expected.error) && state == old(state))
    {
      hide Intervene, CaptureOne, DistinctSubjects;
      if command.replace {
        return Err(ReplaceForbidden);
      }
      if (state.trusted && command.manual != []) || (!state.trusted && command.canonical != []) {
        return Err(WrongMode);
      }
      if !DistinctSubjects(command.canonical) {
        return Err(RepeatedSubject);
      }
      var record :- Intervene(trial, state, command);
      if Malformed in command.manual {
        return Err(MalformedCapture);
      }
      var requested := command.manual + command.canonical;
      var expected := CurrentPhase(state);
      var captures := state.captures;
      ghost var whole := CaptureAll(trial, expected, valid, command.now, Progress(captures, raw), requested);
      for i := 0 to |requested|
        invariant state == old(state)
        invariant CaptureAll(trial, expected, valid, command.now, Progress(captures, raw), requested[i..]) == whole
      {
        assert requested[i..][0] == requested[i] && requested[i..][1..] == requested[i + 1..];
        var (outcome, progress) := CaptureOne(trial, expected, valid, command.now, Progress(captures, raw), requested[i]);
        raw := progress.raw;
        if outcome.Err? {
          return Err(outcome.error);
        }
        captures := progress.captures;
      }
      state := state.(captures := captures, intervention := if record.Some? then record.value else state.intervention);
      return Ok(());
    }

    /** The boundary is recorded once. A trusted completed cleanup first looks
        for required after evidence that is missing. */
    method RunCleanup(command: Command) returns (result: Result<(), Refusal>)
      requires command.Cleanup? && WellTyped(command)
      modifies this`state
      ensures var expected := CleanupResult(trial, old(state), command);
        && (expected.Ok? ==> result == Ok(()) && state == expected.value)
        && (expected.Err? ==> result == Err(expected.error) && state == old(state))
      ensures result.Ok? ==>
        && old(state).cleanup.status == NotRun && state.cleanup.status == command.outcome
        && state.(cleanup := old(state).cleanup) == old(state)
        && (state.trusted && command.outcome == CleanupCompleted ==> AllCaptured(trial, state.captures, After))
    {
      if state.cleanup.status != NotRun {
        return Err(AlreadyRecorded);
      }
      if command.outcome == CleanupCompleted && command.detail.NoDetail? {
        return Err(DetailRequired);
      }
      var detail :- DetailOf(command.detail);
      if state.trusted && command.outcome == CleanupCompleted {
        var missing: seq<string> := [];
        for i := 0 to |trial.evidence|
          invariant missing == [] <==> forall j | 0 <= j < i :: CapturedIn(trial, state.captures, After, trial.evidence[j])
        {
          if !CapturedIn(trial, state.captures, After, trial.evidence[i]) {
            missing := missing + [trial.evidence[i].name];
          }
        }
        if missing != [] {
          return Err(MissingAfter);
        }
        if command.helperDetail.None? {
          return Err(HelperFailed);
        }
        detail := command.helperDetail;
      }
      state := state.(cleanup := Record(command.outcome, detail, Some(command.now)));
      return Ok(());
    }
  }

  // ------------------------------------------------------------------ runs

  datatype Trail = Trail(state: State, raw: Raw)

  /** One command, accepted or refused.  Preparing again never changes the saved state. */
  function Step(trial: Trial, valid: (string, string) -> bool, t: Trail, command: Command): Trail {
    match command
    case Prepare => t
    case Observe(_, _, _, _, _, _, _) =>
      var (result, raw) := ObserveResult(trial, valid, t.state, t.raw, command);
      Trail(if result.Ok? then result.value else t.state, raw)
    case Cleanup(_, _, _, _) =>
      var result := CleanupResult(trial, t.state, command);
      if result.Ok? then t.(state := result.value) else t
  }

  function Run(trial: Trial, valid: (string, string) -> bool, trusted: bool, commands: seq<Command>): Trail {
    if commands == [] then Trail(Prepared(trusted), map[])
    else Step(trial, valid, Run(trial, valid, trusted, commands[..|commands| - 1]), commands[|commands| - 1])
  }

  // ------------------------------------------------------------- invariant

  /** Phase order, as a property of one state. */
  ghost predicate Ordered(trial: Trial, t: Trail) {
    var s := t.state;
    && (forall name | name in s.captures :: Declared(trial, name))
    && (forall name | name in s.captures && PhaseOf(trial, name) == After :: s.intervention.status == Performed)
    && (s.intervention.status == Performed ==> AllCaptured(trial, s.captures, Before))
    && (s.trusted && s.cleanup.status == CleanupCompleted ==> AllCaptured(trial, s.captures, After))
    && (forall name | name in s.captures :: name in t.raw && t.raw[name] == s.captures[name].bytes)
  }

  /** What never changes again, as a relation between an earlier and a later state. */
  ghost predicate Keeps(trial: Trial, t: Trail, u: Trail) {
    && u.state.trusted == t.state.trusted
    && (forall name | name in t.state.captures ::
          name in u.state.captures && u.state.captures[name] == t.state.captures[name])
    && (t.state.intervention.status != NotPerformed ==> u.state.intervention == t.state.intervention)
    && (t.state.intervention.status == Performed ==>
          forall name | name in u.state.captures && PhaseOf(trial, name) == Before :: name in t.state.captures)
    && (t.state.cleanup.status != NotRun ==> u.state.cleanup == t.state.cleanup)
  }

  ghost predicate ProgressOk(trial: Trial, expected: Phase, before: map<string, Capture>, p: Progress) {
    && (forall name | name in before :: name in p.captures && p.captures[name] == before[name])
    && (forall name | name in p.captures && name !in before ::
          Declared(trial, name) && PhaseOf(trial, name) == expected)
    && (forall name | name in p.captures :: name in p.raw && p.raw[name] == p.captures[name].bytes)
  }

  lemma CaptureOneKeeps(trial: Trial, expected: Phase, valid: (string, string) -> bool, now: int,
                        before: map<string, Capture>, p: Progress, request: Request)
    requires ProgressOk(trial, expected, before, p)
    ensures ProgressOk(trial, expected, before, CaptureOne(trial, expected, valid, now, p, request).1)
  {
    hide Declared, PhaseOf;
  }

  lemma {:induction false} CaptureAllKeeps(trial: Trial, expected: Phase, valid: (string, string) -> bool, now: int,
                        before: map<string, Capture>, p: Progress, requests: seq<Request>)
    requires ProgressOk(trial, expected, before, p)
    ensures ProgressOk(trial, expected, before, CaptureAll(trial, expected, valid, now, p, requests).1)
    decreases |requests|
  {
    hide ProgressOk, CaptureOne;
    if requests != [] {
      CaptureOneKeeps(trial, expected, valid, now, before, p, requests[0]);
      var (result, q) := CaptureOne(trial, expected, valid, now, p, requests[0]);
      if result.Ok? {
        CaptureAllKeeps(trial, expected, valid, now, before, q, requests[1..]);
      }
    }
  }

  lemma ObserveKeeps(trial: Trial, valid: (string, string) -> bool, t: Trail, command: Command)
    requires command.Observe? && Ordered(trial, t)
    ensures var u := Step(trial, valid, t, command);
      Ordered(trial, u) && Keeps(trial, t, u)
  {
    hide CaptureAll, Declared, PhaseOf, DistinctSubjects;
    CaptureAllKeeps(trial, CurrentPhase(t.state), valid, command.now, t.state.captures,
                    Progress(t.state.captures, t.raw), command.manual + command.canonical);
    if command.status.Some? && command.manual == [] && command.canonical == [] {
      NothingRequested(trial, CurrentPhase(t.state), valid, command.now, Progress(t.state.captures, t.raw));
    }
  }

  lemma NothingRequested(trial: Trial, expected: Phase, valid: (string, string) -> bool, now: int, p: Progress)
    ensures CaptureAll(trial, expected, valid, now, p, [] + []) == (Ok(()), p)
  {
  }

  /** Phase order holds after every sequence of commands, and every step keeps
      what was recorded. */
  lemma {:induction false} AlwaysOrdered(trial: Trial, valid: (string, string) -> bool, trusted: bool, commands: seq<Command>)
    ensures Ordered(trial, Run(trial, valid, trusted, commands))
    ensures commands != [] ==>
      Keeps(trial, Run(trial, valid, trusted, commands[..|commands| - 1]), Run(trial, valid, trusted, commands))
  {
    hide ObserveResult, Declared, PhaseOf, AllCaptured;
    if commands != [] {
      var command := commands[|commands| - 1];
      AlwaysOrdered(trial, valid, trusted, commands[..|commands| - 1]);
      var t := Run(trial, valid, trusted, commands[..|commands| - 1]);
      if command.Observe? {
        ObserveKeeps(trial, valid, t, command);
      } else if command.Cleanup? {
        CleanupKeeps(trial, valid, t, command);
      }
    }
  }

  lemma CleanupKeeps(trial: Trial, valid: (string, string) -> bool, t: Trail, command: Command)
    requires command.Cleanup? && Ordered(trial, t)
    ensures var u := Step(trial, valid, t, command);
      Ordered(trial, u) && Keeps(trial, t, u)
  {
    hide Declared, PhaseOf, AllCaptured;
  }

  /** Over any later sequence of commands: captures are never altered, the
      intervention and cleanup outcomes are each decided once, and a performed
      intervention freezes the before set. */
  lemma {:induction false} RecordedIsKept(trial: Trial, valid: (string, string) -> bool, trusted: bool,
                                          commands: seq<Command>, more: seq<Command>)
    ensures Keeps(trial, Run(trial, valid, trusted, commands), Run(trial, valid, trusted, commands + more))
  {
    hide Step, PhaseOf;
    if more == [] {
      assert commands + more == commands;
    } else {
      var shorter := more[..|more| - 1];
      RecordedIsKept(trial, valid, trusted, commands, shorter);
      assert (commands + more)[..|commands + more| - 1] == commands + shorter;
      AlwaysOrdered(trial, valid, trusted, commands + more);
      KeepsTransitive(trial, Run(trial, valid, trusted, commands), Run(trial, valid, trusted, commands + shorter),
                      Run(trial, valid, trusted, commands + more));
    }
  }

  lemma KeepsTransitive(trial: Trial, t: Trail, u: Trail, v: Trail)
    requires Keeps(trial, t, u) && Keeps(trial, u, v)
    ensures Keeps(trial, t, v)
  {
    hide PhaseOf;
  }

  // ---------------------------------------------------------------- verdict

  datatype Status = Passed | Failed | Inconclusive | NotRunYet

  predicate ValidDigest(value: Option<string>) {
    value.Some? && IsSha256Digest(value.value) && forall c | c in value.value :: !('A' <= c <= 'F')
  }

  function ResultStatus(s: State, assertions: seq<Status>, trustedVerified: bool): Status {
    if s.intervention.status == NotPerformed && s.captures == map[] then NotRunYet
    else if s.intervention.status != Performed || !ValidDigest(s.intervention.detail) then Inconclusive
    else if Failed in assertions then Failed
    else if Inconclusive in assertions then Inconclusive
    else if !trustedVerified then Inconclusive
    else if s.cleanup.status == CleanupFailed then Failed
    else if s.cleanup.status != CleanupCompleted || !ValidDigest(s.cleanup.detail) then Inconclusive
    else Passed
  }

  /** One inconclusive assertion per required evidence that is missing. */
  function MissingAssertions(evidence: seq<Declaration>, captures: map<string, Capture>): seq<Status> {
    if evidence == [] then []
    else (if evidence[0].required && evidence[0].name !in captures then [Inconclusive] else [])
         + MissingAssertions(evidence[1..], captures)
  }

  /** The evaluation's status, or the refusal of its closing check.  `oracles`
      are the oracle outcomes, `contained` and `allowed` the observed backend
      and Job result. */
  function Evaluate(trial: Trial, s: State, oracles: seq<Status>, trustedVerified: bool,
                    contained: bool, allowed: bool): Result<Status, Refusal> {
    var assertions := oracles + MissingAssertions(trial.evidence, s.captures);
    var status := ResultStatus(s, assertions, trustedVerified);
    if assertions == [] then Err(FailsClosed)
    else if status == Passed && !(s.trusted && contained && allowed && forall a | a in assertions :: a == Passed) then
      Err(FailsClosed)
    else Ok(status)
  }

  lemma {:induction false} MissingIsReported(evidence: seq<Declaration>, captures: map<string, Capture>)
    ensures MissingAssertions(evidence, captures) == [] <==>
      forall d | d in evidence && d.required :: d.name in captures
    ensures MissingAssertions(evidence, captures) == [] <==> Inconclusive !in MissingAssertions(evidence, captures)
  {
    if evidence != [] {
      MissingIsReported(evidence[1..], captures);
      assert evidence == [evidence[0]] + evidence[1..];
    }
  }

  /** A recorded run's evaluation passes exactly with: trusted mode, a performed
      intervention, every required evidence captured, every oracle passed (and
      at least one), and a completed cleanup. */
  lemma PassedIffComplete(trial: Trial, valid: (string, string) -> bool, trusted: bool, commands: seq<Command>,
                          oracles: seq<Status>, trustedVerified: bool, contained: bool, allowed: bool)
    ensures var s := Run(trial, valid, trusted, commands).state;
      Evaluate(trial, s, oracles, trustedVerified, contained, allowed) == Ok(Passed) <==>
      && trusted && trustedVerified && contained && allowed
      && s.intervention.status == Performed && ValidDigest(s.intervention.detail)
      && s.cleanup.status == CleanupCompleted && ValidDigest(s.cleanup.detail)
      && (forall d | d in trial.evidence && d.required :: d.name in s.captures)
      && oracles != [] && (forall o | o in oracles :: o == Passed)
  {
    hide Run, ValidDigest;
    var s := Run(trial, valid, trusted, commands).state;
    ModeIsFixed(trial, valid, trusted, commands);
    var missing := MissingAssertions(trial.evidence, s.captures);
    MissingIsReported(trial.evidence, s.captures);
    assert Inconclusive in missing ==> Inconclusive in oracles + missing;
    assert forall o | o in oracles :: o in oracles + missing;
    assert missing == [] ==> oracles + missing == oracles;
  }

  /** It fails exactly when a digested intervention was performed and either an
      oracle failed, or nothing is open and only the cleanup failed. */
  lemma FailedIff(trial: Trial, s: State, oracles: seq<Status>, trustedVerified: bool, contained: bool, allowed: bool)
    ensures Evaluate(trial, s, oracles, trustedVerified, contained, allowed) == Ok(Failed) <==>
      && s.intervention.status == Performed && ValidDigest(s.intervention.detail)
      && (Failed in oracles
          || (&& oracles != [] && Inconclusive !in oracles && trustedVerified && s.cleanup.status == CleanupFailed
              && forall d | d in trial.evidence && d.required :: d.name in s.captures))
  {
    hide ValidDigest;
    var missing := MissingAssertions(trial.evidence, s.captures);
    MissingIsReported(trial.evidence, s.captures);
    MissingIsInconclusive(trial.evidence, s.captures);
    assert forall o :: o in oracles + missing <==> o in oracles || o in missing;
    assert missing == [] ==> oracles + missing == oracles;
  }

  lemma {:induction false} MissingIsInconclusive(evidence: seq<Declaration>, captures: map<string, Capture>)
    ensures forall a | a in MissingAssertions(evidence, captures) :: a == Inconclusive
  {
    if evidence != [] {
      MissingIsInconclusive(evidence[1..], captures);
    }
  }

  lemma {:induction false} ModeIsFixed(trial: Trial, valid: (string, string) -> bool, trusted: bool, commands: seq<Command>)
    ensures Run(trial, valid, trusted, commands).state.trusted == trusted
  {
    hide Step;
    if commands != [] {
      ModeIsFixed(trial, valid, trusted, commands[..|commands| - 1]);
      AlwaysOrdered(trial, valid, trusted, commands);
    }
  }

  // ------------------------------------- where the phase order is not enforced

  /** The intervention record can be overwritten exactly while its status is
      "not performed": recording that status explicitly decides nothing. */
  lemma InterventionRewritable(trial: Trial, valid: (string, string) -> bool, s: State, raw: Raw, now: int)
    ensures ObserveResult(trial, valid, s, raw,
                          Observe([], [], false, Some(NotPerformed), NoDetail, None, now)).0.Ok?
      <==> s.intervention.status == NotPerformed
  {
    NothingRequested(trial, CurrentPhase(s), valid, now, Progress(s.captures, raw));
    assert DistinctSubjects([]);
  }

  /** Cleanup closes nothing: `observe` behaves the same before and after it. */
  lemma CleanupDoesNotFreezeCaptures(trial: Trial, valid: (string, string) -> bool, s: State, raw: Raw,
                                     command: Command, cleanup: Record<CleanupStatus>)
    requires command.Observe?
    ensures var (plain, files) := ObserveResult(trial, valid, s, raw, command);
      var (cleaned, cleanedFiles) := ObserveResult(trial, valid, s.(cleanup := cleanup), raw, command);
      && files == cleanedFiles
      && (plain.Ok? ==> cleaned == Ok(plain.value.(cleanup := cleanup)))
      && (plain.Err? ==> cleaned == Err(plain.error))
  {
    hide CaptureAll, DistinctSubjects, AllCaptured;
  }

  /** A raw file left behind by a refused command blocks its evidence for good
      in manual mode: the name stays uncaptured after any later commands. */
  lemma {:induction false} OrphanIsPermanent(trial: Trial, valid: (string, string) -> bool, commands: seq<Command>,
                                             more: seq<Command>, name: string)
    requires forall command | command in commands + more :: WellTyped(command)
    requires var t := Run(trial, valid, false, commands); name in t.raw && name !in t.state.captures
    ensures var u := Run(trial, valid, false, commands + more); name in u.raw && name !in u.state.captures
  {
    hide ObserveResult;
    if more == [] {
      assert commands + more == commands;
    } else {
      var shorter := more[..|more| - 1];
      assert (commands + more)[..|commands + more| - 1] == commands + shorter;
      assert forall command | command in commands + shorter :: command in commands + more;
      OrphanIsPermanent(trial, valid, commands, shorter, name);
      ModeIsFixed(trial, valid, false, commands + shorter);
      var command := more[|more| - 1];
      assert command in commands + more;
      if command.Observe? {
        OrphanStep(trial, valid, Run(trial, valid, false, commands + shorter), command, name);
      }
    }
  }

  lemma OrphanStep(trial: Trial, valid: (string, string) -> bool, t: Trail, command: Command, name: string)
    requires command.Observe? && WellTyped(command) && !t.state.trusted
    requires name in t.raw && name !in t.state.captures
    ensures var u := Step(trial, valid, t, command); name in u.raw && name !in u.state.captures
  {
    hide CaptureAll, DistinctSubjects, AllCaptured;
    var requests := command.manual + command.canonical;
    if command.canonical == [] {
      assert requests == command.manual;
      OrphanRequests(trial, CurrentPhase(t.state), valid, command.now, Progress(t.state.captures, t.raw), requests, name);
    }
  }

  lemma {:induction false} OrphanRequests(trial: Trial, expected: Phase, valid: (string, string) -> bool, now: int,
                                          p: Progress, requests: seq<Request>, name: string)
    requires name in p.raw && name !in p.captures
    requires forall r | r in requests :: r.Malformed? || r.Manual?
    ensures var q := CaptureAll(trial, expected, valid, now, p, requests).1; name in q.raw && name !in q.captures
    decreases |requests|
  {
    if requests != [] {
      var (result, q) := CaptureOne(trial, expected, valid, now, p, requests[0]);
      if result.Ok? {
        OrphanRequests(trial, expected, valid, now, q, requests[1..], name);
      }
    }
  }

  /** The checks of `observe` that come before any capture. */
  predicate PassesGuards(trial: Trial, s: State, command: Command)
    requires command.Observe?
  {
    && !command.replace
    && (if s.trusted then command.manual == [] else command.canonical == [])
    && DistinctSubjects(command.canonical)
    && Intervene(trial, s, command).Ok?
    && Malformed !in command.manual
  }

  /** The first manual request is written: it is admitted, its source is a
      regular file and its raw file does not exist yet. */
  predicate WritesFirst(trial: Trial, s: State, raw: Raw, command: Command)
    requires command.Observe?
  {
    && command.manual != [] && command.manual[0].Manual?
    && var first := command.manual[0];
      Admit(trial, CurrentPhase(s), s.captures, first.name).Ok? && first.source.Some? && first.name !in raw
  }

  lemma GuardsLeaveRaw(trial: Trial, valid: (string, string) -> bool, s: State, raw: Raw, command: Command)
    requires command.Observe? && !PassesGuards(trial, s, command)
    ensures ObserveResult(trial, valid, s, raw, command).0.Err? && ObserveResult(trial, valid, s, raw, command).1 == raw
  {
    hide CaptureAll, DistinctSubjects, Intervene;
  }

  /** In manual mode `observe` leaves the raw directory as it was exactly when an
      early check refuses it or its first request is not written. */
  lemma ObserveLeavesRawIff(trial: Trial, valid: (string, string) -> bool, s: State, raw: Raw, command: Command)
    requires command.Observe? && WellTyped(command) && !s.trusted
    ensures ObserveResult(trial, valid, s, raw, command).1 == raw
      <==> !(PassesGuards(trial, s, command) && WritesFirst(trial, s, raw, command))
  {
    hide CaptureAll, DistinctSubjects, Intervene, Admit;
    if !PassesGuards(trial, s, command) {
      GuardsLeaveRaw(trial, valid, s, raw, command);
    } else {
      assert command.manual + command.canonical == command.manual;
      CaptureAllWritesIff(trial, CurrentPhase(s), valid, command.now, Progress(s.captures, raw), command.manual);
    }
  }

  lemma CaptureAllWritesIff(trial: Trial, expected: Phase, valid: (string, string) -> bool, now: int,
                            p: Progress, requests: seq<Request>)
    requires forall r | r in requests :: r.Manual?
    ensures CaptureAll(trial, expected, valid, now, p, requests).1.raw == p.raw
      <==> !(requests != [] && Admit(trial, expected, p.captures, requests[0].name).Ok?
             && requests[0].source.Some? && requests[0].name !in p.raw)
  {
    hide Admit;
    if requests != [] {
      assert requests[0] in requests;
      var q := CaptureOne(trial, expected, valid, now, p, requests[0]).1;
      RawGrows(trial, expected, valid, now, q, requests[1..]);
    }
  }

  lemma {:induction false} RawGrows(trial: Trial, expected: Phase, valid: (string, string) -> bool, now: int,
                                    p: Progress, requests: seq<Request>)
    requires forall r | r in requests :: r.Manual?
    ensures var q := CaptureAll(trial, expected, valid, now, p, requests).1;
      forall name | name in p.raw :: name in q.raw && q.raw[name] == p.raw[name]
    decreases |requests|
  {
    hide CaptureOne;
    if requests != [] {
      assert requests[0] in requests;
      CaptureOneWrites(trial, expected, valid, now, p, requests[0]);
      RawGrows(trial, expected, valid, now, CaptureOne(trial, expected, valid, now, p, requests[0]).1, requests[1..]);
    }
  }

  function RequestNames(requests: seq<Request>): set<string>
    requires forall r | r in requests :: r.Manual?
  {
    set r | r in requests :: r.name
  }

  /** What a refused manual `observe` leaves behind: new raw files, of no recorded
      evidence, for exactly the requests before the refused one, and for that
      one too when its content was refused. */
  lemma OrphansOfRefusal(trial: Trial, valid: (string, string) -> bool, s: State, raw: Raw, command: Command)
    returns (at: nat)
    requires command.Observe? && WellTyped(command) && !s.trusted && PassesGuards(trial, s, command)
    requires ObserveResult(trial, valid, s, raw, command).0.Err?
    ensures at < |command.manual| && forall r | r in command.manual :: r.Manual?
    ensures var (result, files) := ObserveResult(trial, valid, s, raw, command);
      var left := RequestNames(command.manual[..at])
        + if result.error == InvalidContent then {command.manual[at].name} else {};
      && files.Keys == raw.Keys + left
      && (forall name | name in left :: name !in raw && name !in s.captures)
      && (forall name | name in raw :: files[name] == raw[name])
  {
    hide CaptureAll, DistinctSubjects, Intervene, Admit;
    assert command.manual + command.canonical == command.manual;
    at := WrittenBefore(trial, CurrentPhase(s), valid, command.now, Progress(s.captures, raw), command.manual);
    RawGrows(trial, CurrentPhase(s), valid, command.now, Progress(s.captures, raw), command.manual);
  }

  lemma {:induction false} WrittenBefore(trial: Trial, expected: Phase, valid: (string, string) -> bool, now: int,
                                         p: Progress, requests: seq<Request>) returns (at: nat)
    requires forall r | r in requests :: r.Manual?
    requires CaptureAll(trial, expected, valid, now, p, requests).0.Err?
    ensures at < |requests|
    ensures var (result, q) := CaptureAll(trial, expected, valid, now, p, requests);
      var left := RequestNames(requests[..at]) + if result.error == InvalidContent then {requests[at].name} else {};
      && q.raw.Keys == p.raw.Keys + left
      && forall name | name in left :: name !in p.raw && name !in p.captures
    decreases |requests|
  {
    hide CaptureOne;
    assert requests[0] in requests;
    CaptureOneWrites(trial, expected, valid, now, p, requests[0]);
    var (result, q) := CaptureOne(trial, expected, valid, now, p, requests[0]);
    if result.Err? {
      at := 0;
      assert RequestNames(requests[..0]) == {};
    } else {
      var rest := WrittenBefore(trial, expected, valid, now, q, requests[1..]);
      at := rest + 1;
      FirstName(requests, rest);
    }
  }

  /** One manual request writes its own raw file, which was not there, or nothing. */
  lemma CaptureOneWrites(trial: Trial, expected: Phase, valid: (string, string) -> bool, now: int, p: Progress, request: Request)
    requires request.Manual?
    ensures var (result, q) := CaptureOne(trial, expected, valid, now, p, request);
      && (result.Ok? || result.error == InvalidContent ==>
            q.raw.Keys == p.raw.Keys + {request.name} && request.name !in p.raw && request.name !in p.captures)
      && (result.Ok? ==> q.captures.Keys == p.captures.Keys + {request.name})
      && (result.Err? && result.error != InvalidContent ==> q.raw == p.raw)
      && (forall name | name in p.raw :: name in q.raw && q.raw[name] == p.raw[name])
  {
    hide Declared, PhaseOf;
  }

  lemma FirstName(requests: seq<Request>, rest: nat)
    requires (forall r | r in requests :: r.Manual?) && rest + 1 < |requests|
    ensures RequestNames(requests[..rest + 1]) == {requests[0].name} + RequestNames(requests[1..][..rest])
  {
    assert requests[..rest + 1] == [requests[0]] + requests[1..][..rest];
  }

  /** Such a refusal: of two declared before captures the second has no regular
      source, so the first is left in the raw directory, unrecorded. */
  lemma RefusedObserveLeavesOrphan(first: string, second: string, text: string) returns (trial: Trial, command: Command)
    requires first != second
    ensures WellFormedTrial(trial) && WellTyped(command)
    ensures var valid := (name: string, content: string) => true;
      Run(trial, valid, false, [command]) == Trail(Prepared(false), map[first := text])
  {
    trial := Trial([Declaration(first, true, true), Declaration(second, true, true)], [first, second], []);
    assert trial.evidence[0] in trial.evidence && trial.evidence[1] in trial.evidence;
    assert DeclaredNames(trial.evidence) == {first, second} == Names(trial.before + trial.after);
    var one, two := Manual(first, Some(text)), Manual(second, None);
    command := Observe([one, two], [], false, None, NoDetail, None, 0);
    var valid := (name: string, content: string) => true;
    var p := Progress(map[], map[]);
    var q := Progress(map[first := Capture(text, 0, false)], map[first := text]);
    assert CaptureOne(trial, Before, valid, 0, p, one) == (Ok(()), q);
    assert CaptureOne(trial, Before, valid, 0, q, two) == (Err(SourceNotRegular), q);
    TwoRequests(trial, valid, p, q, one, two);
    OneCommand(trial, valid, command);
    assert command.manual + command.canonical == [one, two];
  }

  lemma TwoRequests(trial: Trial, valid: (string, string) -> bool, p: Progress, q: Progress, one: Request, two: Request)
    requires CaptureOne(trial, Before, valid, 0, p, one) == (Ok(()), q)
    requires CaptureOne(trial, Before, valid, 0, q, two) == (Err(SourceNotRegular), q)
    ensures CaptureAll(trial, Before, valid, 0, p, [one, two]) == (Err(SourceNotRegular), q)
  {
    hide CaptureOne;
    assert [one, two][1..] == [two];
    assert CaptureAll(trial, Before, valid, 0, q, [two]) == (Err(SourceNotRegular), q);
  }

  lemma OneCommand(trial: Trial, valid: (string, string) -> bool, command: Command)
    ensures Run(trial, valid, false, [command]) == Step(trial, valid, Trail(Prepared(false), map[]), command)
  {
    hide Step;
    assert [command][..0] == [];
    assert Run(trial, valid, false, []) == Trail(Prepared(false), map[]);
  }
}

/** What an accepted `observe` or `cleanup` records, written out: exactly when a
    command is accepted, and what the saved state and the raw files then hold. */
module TrialMeaning {
  import opened Common
  import opened LiveTrial

  /** A prepared trial: nothing captured, nothing decided, no raw file. */
  lemma FreshTrial(trial: Trial, valid: (string, string) -> bool, trusted: bool)
    ensures var t := Run(trial, valid, trusted, []);
      && t.state.trusted == trusted && |t.state.captures| == 0 && |t.raw| == 0
      && t.state.intervention.status.NotPerformed? && t.state.intervention.detail.None? && t.state.intervention.recordedAt.None?
      && t.state.cleanup.status.NotRun? && t.state.cleanup.detail.None? && t.state.cleanup.recordedAt.None?
  {
  }

  // ------------------------------------------------------------- declarations

  ghost predicate DeclaredIn(trial: Trial, name: string, phase: Phase) {
    && (exists i :: 0 <= i < |trial.evidence| && trial.evidence[i].name == name)
    && (phase.Before? <==> name in trial.before)
  }

  /** Every required declaration of the phase has a capture. */
  ghost predicate Complete(trial: Trial, captures: map<string, Capture>, phase: Phase) {
    forall i | 0 <= i < |trial.evidence| && trial.evidence[i].required && (phase.Before? <==> trial.evidence[i].name in trial.before) ::
      trial.evidence[i].name in captures
  }

  lemma CompleteMeans(trial: Trial, captures: map<string, Capture>, phase: Phase)
    ensures AllCaptured(trial, captures, phase) <==> Complete(trial, captures, phase)
  {
    if AllCaptured(trial, captures, phase) {
      forall i | 0 <= i < |trial.evidence| && trial.evidence[i].required && (phase.Before? <==> trial.evidence[i].name in trial.before)
        ensures trial.evidence[i].name in captures
      {
        assert CapturedIn(trial, captures, phase, trial.evidence[i]);
      }
    }
    if Complete(trial, captures, phase) {
      forall d | d in trial.evidence
        ensures CapturedIn(trial, captures, phase, d)
      {
        var i :| 0 <= i < |trial.evidence| && trial.evidence[i] == d;
      }
    }
  }

  lemma AdmitMeans(trial: Trial, expected: Phase, captures: map<string, Capture>, name: string)
    ensures Admit(trial, expected, captures, name).Ok? <==> DeclaredIn(trial, name, expected) && name !in captures
  {
    if Declared(trial, name) {
      var d :| d in trial.evidence && d.name == name;
      var i :| 0 <= i < |trial.evidence| && trial.evidence[i] == d;
    }
    if i :| 0 <= i < |trial.evidence| && trial.evidence[i].name == name {
      assert trial.evidence[i] in trial.evidence;
    }
  }

  // ------------------------------------------------------------- intervention

  /** The digest recorded with an outcome: the trusted helper's where it is asked,
      and otherwise that of the operator's detail file, if any. */
  ghost predicate DetailRecorded(detail: Detail, helper: Option<string>, asksHelper: bool, digest: Option<string>) {
    && !detail.IrregularDetail?
    && if asksHelper then helper.Some? && digest == helper
       else digest == if detail.NoDetail? then None else Some(detail.digest)
  }

  /** The intervention half of `observe`: with a status it stands alone, the
      outcome is still open, a performed one has its detail and all before
      evidence, and exactly that status is recorded. */
  lemma IntervenesIff(trial: Trial, s: State, command: Command, record: Option<Record<InterventionStatus>>)
    requires command.Observe?
    ensures Intervene(trial, s, command) == Ok(record) <==>
      if command.status.None? then command.detail.NoDetail? && record.None?
      else
        var performed := command.status.value.Performed?;
        && command.manual == [] && command.canonical == [] && s.intervention.status.NotPerformed?
        && (performed ==> !command.detail.NoDetail? && Complete(trial, s.captures, Before))
        && record.Some? && record.value.status == command.status.value && record.value.recordedAt == Some(command.now)
        && DetailRecorded(command.detail, command.helperDetail, s.trusted && performed, record.value.detail)
  {
    CompleteMeans(trial, s.captures, Before);
    hide AllCaptured, Complete;
  }

  // ------------------------------------------------------------------ captures

  /** Manual requests that are all taken: declared in this phase, new, each from a
      regular file whose content is valid, with no raw file in the way. */
  ghost predicate Takes(trial: Trial, expected: Phase, valid: (string, string) -> bool, p: Progress, requests: seq<Request>) {
    && (forall i | 0 <= i < |requests| ::
          && requests[i].Manual? && requests[i].source.Some? && DeclaredIn(trial, requests[i].name, expected)
          && requests[i].name !in p.captures && requests[i].name !in p.raw
          && valid(requests[i].name, requests[i].source.value))
    && (forall i, j | 0 <= i < j < |requests| :: requests[i].name != requests[j].name)
  }

  /** They add exactly their names, with source text, time and no other change. */
  ghost predicate Added(p: Progress, q: Progress, requests: seq<Request>, now: int)
    requires forall i | 0 <= i < |requests| :: requests[i].Manual? && requests[i].source.Some?
  {
    && (forall i | 0 <= i < |requests| ::
          && requests[i].name in q.captures && requests[i].name in q.raw
          && q.captures[requests[i].name] == Capture(requests[i].source.value, now, false)
          && q.raw[requests[i].name] == requests[i].source.value)
    && (forall name | name in p.captures :: name in q.captures && q.captures[name] == p.captures[name])
    && (forall name | name in p.raw :: name in q.raw && q.raw[name] == p.raw[name])
    && (forall name | name in q.captures :: name in p.captures || exists i :: 0 <= i < |requests| && requests[i].name == name)
    && (forall name | name in q.raw :: name in p.raw || exists i :: 0 <= i < |requests| && requests[i].name == name)
  }

  lemma TakesOne(trial: Trial, expected: Phase, valid: (string, string) -> bool, now: int, p: Progress, request: Request)
    requires request.Manual?
    ensures var (result, q) := CaptureOne(trial, expected, valid, now, p, request);
      && (result.Ok? <==>
            && request.source.Some? && DeclaredIn(trial, request.name, expected) && request.name !in p.captures
            && request.name !in p.raw && valid(request.name, request.source.value))
      && (result.Ok? ==> q == Progress(p.captures[request.name := Capture(request.source.value, now, false)],
                                       p.raw[request.name := request.source.value]))
  {
    hide Admit, DeclaredIn;
    AdmitMeans(trial, expected, p.captures, request.name);
  }

  /** Manual captures are all made exactly when they are all taken. */
  lemma {:induction false} CapturesIff(trial: Trial, expected: Phase, valid: (string, string) -> bool, now: int,
                                       p: Progress, requests: seq<Request>)
    requires forall i | 0 <= i < |requests| :: requests[i].Manual?
    ensures var (result, q) := CaptureAll(trial, expected, valid, now, p, requests);
      && (result.Ok? <==> Takes(trial, expected, valid, p, requests))
      && (result.Ok? ==> Added(p, q, requests, now))
    decreases |requests|
  {
    hide CaptureOne, DeclaredIn;
    if requests != [] {
      var first, rest := requests[0], requests[1..];
      TakesOne(trial, expected, valid, now, p, first);
      var (result, q) := CaptureOne(trial, expected, valid, now, p, first);
      assert forall i | 0 <= i < |rest| :: rest[i] == requests[i + 1];
      if result.Ok? {
        CapturesIff(trial, expected, valid, now, q, rest);
        TakesMore(trial, expected, valid, now, p, q, requests);
        if CaptureAll(trial, expected, valid, now, q, rest).0.Ok? {
          AddsMore(p, q, CaptureAll(trial, expected, valid, now, q, rest).1, requests, now);
        }
      } else {
        assert requests[0] == first;
      }
    }
  }

  lemma TakesMore(trial: Trial, expected: Phase, valid: (string, string) -> bool, now: int, p: Progress, q: Progress, requests: seq<Request>)
    requires requests != [] && forall i | 0 <= i < |requests| :: requests[i].Manual?
    requires var first := requests[0];
      && first.source.Some? && DeclaredIn(trial, first.name, expected) && first.name !in p.captures
      && first.name !in p.raw && valid(first.name, first.source.value)
      && q == Progress(p.captures[first.name := Capture(first.source.value, now, false)], p.raw[first.name := first.source.value])
    ensures Takes(trial, expected, valid, q, requests[1..]) <==> Takes(trial, expected, valid, p, requests)
  {
    hide DeclaredIn;
    var rest := requests[1..];
    assert forall i | 0 <= i < |rest| :: rest[i] == requests[i + 1];
    if Takes(trial, expected, valid, q, rest) {
      forall i | 0 <= i < |requests|
        ensures requests[i].source.Some? && DeclaredIn(trial, requests[i].name, expected) && requests[i].name !in p.captures
          && requests[i].name !in p.raw && valid(requests[i].name, requests[i].source.value)
        ensures i > 0 ==> requests[i].name != requests[0].name
      {
        if i > 0 {
          assert rest[i - 1] == requests[i];
        }
      }
      forall i, j | 0 <= i < j < |requests|
        ensures requests[i].name != requests[j].name
      {
        if i > 0 {
          assert rest[i - 1] == requests[i] && rest[j - 1] == requests[j];
        }
      }
    }
  }

  lemma AddsMore(p: Progress, q: Progress, r: Progress, requests: seq<Request>, now: int)
    requires requests != [] && forall i | 0 <= i < |requests| :: requests[i].Manual? && requests[i].source.Some?
    requires var first := requests[0];
      && first.name !in p.captures && first.name !in p.raw
      && q == Progress(p.captures[first.name := Capture(first.source.value, now, false)], p.raw[first.name := first.source.value])
    requires Added(q, r, requests[1..], now)
    ensures Added(p, r, requests, now)
  {
    var first, rest := requests[0], requests[1..];
    assert forall i | 0 <= i < |rest| :: rest[i] == requests[i + 1];
    forall i | 0 <= i < |requests|
      ensures requests[i].name in r.captures && requests[i].name in r.raw
      ensures r.captures[requests[i].name] == Capture(requests[i].source.value, now, false)
      ensures r.raw[requests[i].name] == requests[i].source.value
    {
      if i > 0 {
        assert rest[i - 1] == requests[i];
      } else {
        assert first.name in q.captures && first.name in q.raw;
      }
    }
    forall name | name in r.captures && name !in p.captures
      ensures exists i :: 0 <= i < |requests| && requests[i].name == name
    {
      Named(requests, name, name in q.captures);
    }
    forall name | name in r.raw && name !in p.raw
      ensures exists i :: 0 <= i < |requests| && requests[i].name == name
    {
      Named(requests, name, name in q.raw);
    }
  }

  lemma Named(requests: seq<Request>, name: string, isFirst: bool)
    requires requests != [] && forall i | 0 <= i < |requests| :: requests[i].Manual?
    requires isFirst ==> name == requests[0].name
    requires !isFirst ==> exists i :: 0 <= i < |requests[1..]| && requests[1..][i].name == name
    ensures exists i :: 0 <= i < |requests| && requests[i].name == name
  {
    if !isFirst {
      var i :| 0 <= i < |requests[1..]| && requests[1..][i].name == name;
      assert requests[i + 1].name == name;
    }
  }

  // ------------------------------------------------------------------- observe

  /** In manual mode, `observe` without a status is accepted exactly when nothing
      is replaced, no helper is asked, no detail is given and all its captures are
      taken; it then adds exactly those and changes nothing else. */
  lemma ManualObserveIff(trial: Trial, valid: (string, string) -> bool, s: State, raw: Raw, command: Command)
    requires command.Observe? && WellTyped(command) && command.status.None? && !s.trusted
    ensures var (result, files) := ObserveResult(trial, valid, s, raw, command);
      var phase := if s.intervention.status.Performed? then After else Before;
      && (result.Ok? <==>
            && !command.replace && command.canonical == [] && command.detail.NoDetail?
            && Takes(trial, phase, valid, Progress(s.captures, raw), command.manual))
      && (result.Ok? ==>
            && result.value.(captures := s.captures) == s
            && Added(Progress(s.captures, raw), Progress(result.value.captures, files), command.manual, command.now))
  {
    hide Intervene, Added, Complete, CaptureAll, DeclaredIn;
    IntervenesIff(trial, s, command, None);
    if Intervene(trial, s, command).Ok? {
      IntervenesIff(trial, s, command, Intervene(trial, s, command).value);
    }
    var phase, p := CurrentPhase(s), Progress(s.captures, raw);
    if Malformed in command.manual {
      TakesNoMalformed(trial, phase, valid, p, command.manual);
    } else if command.canonical == [] {
      assert command.manual + command.canonical == command.manual;
      CapturesIff(trial, phase, valid, command.now, p, command.manual);
      var all, whole := CaptureAll(trial, phase, valid, command.now, p, command.manual), ObserveResult(trial, valid, s, raw, command);
      assert whole.0.Ok? ==> Progress(whole.0.value.captures, whole.1) == all.1;
    }
  }

  lemma TakesNoMalformed(trial: Trial, expected: Phase, valid: (string, string) -> bool, p: Progress, requests: seq<Request>)
    requires Malformed in requests
    ensures !Takes(trial, expected, valid, p, requests)
  {
    var i :| 0 <= i < |requests| && requests[i] == Malformed;
  }

  /** `observe` with a status is accepted exactly as the intervention half says,
      with nothing else requested; it then records exactly that and changes
      nothing else. */
  lemma StatusObserveIff(trial: Trial, valid: (string, string) -> bool, s: State, raw: Raw, command: Command)
    requires command.Observe? && command.status.Some?
    ensures var (result, files) := ObserveResult(trial, valid, s, raw, command);
      var performed := command.status.value.Performed?;
      && (result.Ok? <==>
            && !command.replace && command.manual == [] && command.canonical == [] && s.intervention.status.NotPerformed?
            && (performed ==> !command.detail.NoDetail? && Complete(trial, s.captures, Before))
            && !command.detail.IrregularDetail? && (s.trusted && performed ==> command.helperDetail.Some?))
      && files == raw
      && (result.Ok? ==>
            && result.value.(intervention := s.intervention) == s
            && result.value.intervention.status == command.status.value
            && result.value.intervention.recordedAt == Some(command.now)
            && DetailRecorded(command.detail, command.helperDetail, s.trusted && performed, result.value.intervention.detail))
  {
    hide Intervene, CaptureAll, Complete;
    var answer := Intervene(trial, s, command);
    if answer.Ok? {
      IntervenesIff(trial, s, command, answer.value);
    }
    var performed := command.status.value.Performed?;
    var digest := if s.trusted && performed then command.helperDetail
      else if command.detail.DetailDigest? then Some(command.detail.digest) else None;
    IntervenesIff(trial, s, command, Some(Record(command.status.value, digest, Some(command.now))));
    NothingRequested(trial, CurrentPhase(s), valid, command.now, Progress(s.captures, raw));
    if answer.Err? {
      assert ObserveResult(trial, valid, s, raw, command).1 == raw;
    }
  }

  // ---------------------------------------------------------- trusted captures

  /** Canonical requests that are all taken: declared in this phase, new, and
      answered by the trusted helper. */
  ghost predicate TakesCanonical(trial: Trial, expected: Phase, captures: map<string, Capture>, requests: seq<Request>) {
    && (forall i | 0 <= i < |requests| ::
          && requests[i].Canonical? && requests[i].answer.Some? && DeclaredIn(trial, requests[i].name, expected)
          && requests[i].name !in captures)
    && (forall i, j | 0 <= i < j < |requests| :: requests[i].name != requests[j].name)
  }

  ghost predicate Answered(before: map<string, Capture>, after: map<string, Capture>, requests: seq<Request>)
    requires forall i | 0 <= i < |requests| :: requests[i].Canonical? && requests[i].answer.Some?
  {
    && (forall i | 0 <= i < |requests| :: requests[i].name in after && after[requests[i].name] == requests[i].answer.value)
    && (forall name | name in before :: name in after && after[name] == before[name])
    && (forall name | name in after :: name in before || exists i :: 0 <= i < |requests| && requests[i].name == name)
  }

  lemma {:induction false} CanonicalCapturesIff(trial: Trial, expected: Phase, valid: (string, string) -> bool, now: int,
                                                p: Progress, requests: seq<Request>)
    requires forall i | 0 <= i < |requests| :: requests[i].Canonical?
    ensures var (result, q) := CaptureAll(trial, expected, valid, now, p, requests);
      && (result.Ok? <==> TakesCanonical(trial, expected, p.captures, requests))
      && (result.Ok? ==> Answered(p.captures, q.captures, requests))
    decreases |requests|
  {
    hide Admit, DeclaredIn;
    if requests != [] {
      var first, rest := requests[0], requests[1..];
      AdmitMeans(trial, expected, p.captures, first.name);
      assert forall i | 0 <= i < |rest| :: rest[i] == requests[i + 1];
      var (result, q) := CaptureOne(trial, expected, valid, now, p, first);
      if result.Ok? {
        CanonicalCapturesIff(trial, expected, valid, now, q, rest);
        CanonicalMore(trial, expected, p.captures, q.captures, requests);
        if TakesCanonical(trial, expected, q.captures, rest) {
          AnsweredMore(p.captures, q.captures, CaptureAll(trial, expected, valid, now, q, rest).1.captures, requests);
        }
      } else {
        assert requests[0] == first;
      }
    }
  }

  lemma CanonicalMore(trial: Trial, expected: Phase, before: map<string, Capture>, after: map<string, Capture>, requests: seq<Request>)
    requires requests != [] && forall i | 0 <= i < |requests| :: requests[i].Canonical?
    requires var first := requests[0];
      && first.answer.Some? && DeclaredIn(trial, first.name, expected) && first.name !in before
      && after == before[first.name := first.answer.value]
    ensures TakesCanonical(trial, expected, after, requests[1..]) <==> TakesCanonical(trial, expected, before, requests)
  {
    hide DeclaredIn;
    var rest := requests[1..];
    assert forall i | 0 <= i < |rest| :: rest[i] == requests[i + 1];
    if TakesCanonical(trial, expected, after, rest) {
      forall i | 0 <= i < |requests|
        ensures requests[i].answer.Some? && DeclaredIn(trial, requests[i].name, expected) && requests[i].name !in before
        ensures i > 0 ==> requests[i].name != requests[0].name
      {
        if i > 0 {
          assert rest[i - 1] == requests[i];
        }
      }
      forall i, j | 0 <= i < j < |requests|
        ensures requests[i].name != requests[j].name
      {
        if i > 0 {
          assert rest[i - 1] == requests[i] && rest[j - 1] == requests[j];
        }
      }
    }
  }

  lemma AnsweredMore(before: map<string, Capture>, middle: map<string, Capture>, after: map<string, Capture>, requests: seq<Request>)
    requires requests != [] && forall i | 0 <= i < |requests| :: requests[i].Canonical? && requests[i].answer.Some?
    requires requests[0].name !in before && middle == before[requests[0].name := requests[0].answer.value]
    requires Answered(middle, after, requests[1..])
    ensures Answered(before, after, requests)
  {
    var rest := requests[1..];
    assert forall i | 0 <= i < |rest| :: rest[i] == requests[i + 1];
    forall i | 0 <= i < |requests|
      ensures requests[i].name in after && after[requests[i].name] == requests[i].answer.value
    {
      if i > 0 {
        assert rest[i - 1] == requests[i];
      } else {
        assert requests[0].name in middle;
      }
    }
    forall name | name in after && name !in before
      ensures exists i :: 0 <= i < |requests| && requests[i].name == name
    {
      if name in middle {
        assert requests[0].name == name;
      } else {
        var i :| 0 <= i < |rest| && rest[i].name == name;
        assert requests[i + 1].name == name;
      }
    }
  }

  /** In trusted mode, `observe` without a status is accepted exactly when nothing
      is replaced, no file is given, no detail is given and all its subjects are
      taken; it then adds exactly the helper's captures. */
  lemma TrustedObserveIff(trial: Trial, valid: (string, string) -> bool, s: State, raw: Raw, command: Command)
    requires command.Observe? && WellTyped(command) && command.status.None? && s.trusted
    ensures var (result, files) := ObserveResult(trial, valid, s, raw, command);
      var phase := if s.intervention.status.Performed? then After else Before;
      && (result.Ok? <==>
            && !command.replace && command.manual == [] && command.detail.NoDetail?
            && TakesCanonical(trial, phase, s.captures, command.canonical))
      && (result.Ok? ==>
            && result.value.(captures := s.captures) == s
            && Answered(s.captures, result.value.captures, command.canonical))
  {
    hide Intervene, Answered, Complete, DeclaredIn, CaptureAll;
    IntervenesIff(trial, s, command, None);
    if Intervene(trial, s, command).Ok? {
      IntervenesIff(trial, s, command, Intervene(trial, s, command).value);
    }
    if command.manual == [] {
      assert command.manual + command.canonical == command.canonical;
      CanonicalCapturesIff(trial, CurrentPhase(s), valid, command.now, Progress(s.captures, raw), command.canonical);
      assert TakesCanonical(trial, CurrentPhase(s), s.captures, command.canonical) ==> DistinctSubjects(command.canonical);
      var all := CaptureAll(trial, CurrentPhase(s), valid, command.now, Progress(s.captures, raw), command.canonical);
      var whole := ObserveResult(trial, valid, s, raw, command);
      assert whole.0.Ok? ==> all.0.Ok? && whole.0.value.captures == all.1.captures;
      assert Malformed !in command.manual;
    }
  }

  // ------------------------------------------------------------------- cleanup

  /** `cleanup` is accepted exactly when its outcome is open, a completed one has
      its detail and, in trusted mode, all after evidence and the helper's answer;
      it then records exactly that and changes nothing else. */
  lemma CleanupIff(trial: Trial, s: State, command: Command)
    requires command.Cleanup?
    ensures var result, completed := CleanupResult(trial, s, command), command.outcome.CleanupCompleted?;
      && (result.Ok? <==>
            && s.cleanup.status.NotRun? && !command.detail.IrregularDetail? && (completed ==> !command.detail.NoDetail?)
            && (s.trusted && completed ==> Complete(trial, s.captures, After) && command.helperDetail.Some?))
      && (result.Ok? ==>
            && result.value.(cleanup := s.cleanup) == s
            && result.value.cleanup.status == command.outcome && result.value.cleanup.recordedAt == Some(command.now)
            && DetailRecorded(command.detail, command.helperDetail, s.trusted && completed, result.value.cleanup.detail))
  {
    CompleteMeans(trial, s.captures, After);
    hide AllCaptured, Complete;
  }

  // ------------------------------------------------------------------- verdict

  ghost predicate LowerDigest(digest: Option<string>) {
    && digest.Some? && |digest.value| == 71 && digest.value[..7] == "sha256:"
    && forall i | 7 <= i < 71 :: '0' <= digest.value[i] <= '9' || 'a' <= digest.value[i] <= 'f'
  }

  lemma DigestMeans(digest: Option<string>)
    ensures ValidDigest(digest) <==> LowerDigest(digest)
  {
    if ValidDigest(digest) {
      assert forall i | 0 <= i < |digest.value| :: digest.value[i] in digest.value;
    }
    if LowerDigest(digest) {
      forall c | c in digest.value
        ensures !('A' <= c <= 'F')
      {
        var i :| 0 <= i < |digest.value| && digest.value[i] == c;
        if i < 7 {
          PrefixIsLower(i);
          assert digest.value[i] == digest.value[..7][i];
        }
      }
    }
  }

  lemma PrefixIsLower(i: nat)
    requires i < 7
    ensures !('A' <= "sha256:"[i] <= 'F')
  {
    assert "sha256:" == ['s', 'h', 'a', '2', '5', '6', ':'];
  }

  /** The four verdicts: nothing done yet, failed, passed as `PassedIffComplete`
      says, and otherwise open. */
  lemma VerdictIs(trial: Trial, s: State, oracles: seq<Status>, trustedVerified: bool, contained: bool, allowed: bool)
    ensures var verdict := Evaluate(trial, s, oracles, trustedVerified, contained, allowed);
      && (verdict == Ok(NotRunYet) <==>
            && (oracles != [] || !(forall d | d in trial.evidence && d.required :: d.name in s.captures))
            && s.intervention.status.NotPerformed? && |s.captures| == 0)
      && (verdict.Ok? ==> verdict.value in {Passed, Failed, Inconclusive, NotRunYet})
  {
    MissingIsReported(trial.evidence, s.captures);
    var missing := MissingAssertions(trial.evidence, s.captures);
    assert oracles + missing == [] <==> oracles == [] && missing == [];
    assert s.captures == map[] <==> |s.captures| == 0;
    hide ValidDigest, MissingAssertions;
  }
}

/** The durable chain-hook ledger (`chain.rs`): a fenced, append-only event
    log with idempotent retry, and the lookup that reuses a recorded outcome. */
module HookLedger {
  import opened Common
  import opened HookEvents

  datatype Token = Token(jobId: string, ownerId: string, epoch: nat, bootId: string)

  datatype Lease = Lease(jobId: string, ownerId: string, epoch: nat, bootId: string, expiresAt: int)

  /** What the Job's control lock protects: the current lease, and whether the
      Job reached a terminal outcome or was asked to cancel. */
  datatype Control = Control(lease: Lease, stopped: bool)

  function Fenced(control: Control, token: Token, now: int): Result<(), Refusal> {
    var lease := control.lease;
    if lease.jobId != token.jobId || lease.ownerId != token.ownerId
       || lease.epoch != token.epoch || lease.bootId != token.bootId then Err(StaleToken)
    else if lease.expiresAt <= now then Err(LeaseExpired)
    else if control.stopped then Err(JobStopped)
    else Ok(())
  }

  /** The same hook, step, attempt and kind. */
  predicate SameSlot(prior: Event, event: Event) {
    && prior.hook.name == event.hook.name
    && prior.step == event.step
    && prior.attempt == event.attempt
    && prior.kind == event.kind
  }

  predicate SamePayload(prior: Event, event: Event) {
    prior.payloadSha == event.payloadSha && prior.payloadBytes == event.payloadBytes
  }

  predicate SameEvidence(prior: Event, event: Event) {
    prior.invocationId == event.invocationId && prior.kind == event.kind
  }

  /** `prior` is the exact start of the completion `event`. */
  predicate IsStartOf(prior: Event, event: Event) {
    && prior.kind == Started
    && prior.invocationId == event.invocationId
    && SamePayload(prior, event)
    && prior.hook == event.hook
  }

  function FirstInSlot(events: seq<Event>, event: Event): (first: Option<Event>)
    ensures first.Some? ==> first.value in events && SameSlot(first.value, event)
    ensures first.None? ==> forall prior | prior in events :: !SameSlot(prior, event)
  {
    if events == [] then None
    else if SameSlot(events[0], event) then Some(events[0])
    else FirstInSlot(events[1..], event)
  }

  function FirstEvidence(events: seq<Event>, event: Event): (first: Option<Event>)
    ensures first.Some? ==> first.value in events && SameEvidence(first.value, event)
    ensures first.None? ==> forall prior | prior in events :: !SameEvidence(prior, event)
  {
    if events == [] then None
    else if SameEvidence(events[0], event) then Some(events[0])
    else FirstEvidence(events[1..], event)
  }

  datatype Decision = Record | AlreadyRecorded

  /** The verdict on one append against the recorded events of Job `jobId`.
      The log's path is derived from the event's own Job, so an event of
      another Job never reaches this log. */
  function Decide(codec: Codec, jobId: string, events: seq<Event>, control: Control, token: Token, event: Event)
    : Result<Decision, Refusal> {
    if event.jobId != token.jobId || jobId != event.jobId then Err(WrongJob)
    else if !Verified(codec, event) then Err(Unverified)
    else
      var _ :- Fenced(control, token, event.recordedAt);
      if exists prior | prior in events :: prior.jobId != event.jobId then Err(WrongJob)
      else if exists prior | prior in events :: !Verified(codec, prior) then Err(Unverified)
      else
        var slot := FirstInSlot(events, event);
        if slot.Some? && !SamePayload(slot.value, event) then Err(PayloadMismatch)
        else if event.kind == Completed && !(exists prior | prior in events :: IsStartOf(prior, event)) then
          Err(NoExactStart)
        else
          var evidence := FirstEvidence(events, event);
          if evidence.None? then Ok(Record)
          else if evidence.value == event then Ok(AlreadyRecorded)
          else Err(Conflicting)
  }

  /** The completion lookup's verdict on events[from..], with `found` seen so far. */
  function Search(codec: Codec, events: seq<Event>, requested: Event, found: Option<Event>)
    : Result<Option<Event>, Refusal> {
    if events == [] then Ok(found)
    else if !AtCoordinate(events[0], requested) then Search(codec, events[1..], requested, found)
    else if !Verified(codec, events[0]) then Err(Unverified)
    else if !SamePayload(events[0], requested) || events[0].invocationId != requested.invocationId then
      Err(DifferentPayload)
    else if events[0].kind == Completed && found.Some? then Err(DuplicateCompleted)
    else Search(codec, events[1..], requested, if events[0].kind == Completed then Some(events[0]) else found)
  }

  predicate AtCoordinate(event: Event, requested: Event) {
    && event.jobId == requested.jobId
    && event.chainId == requested.chainId
    && event.hook.name == requested.hook.name
    && event.step == requested.step
    && event.attempt == requested.attempt
  }

  function Reusable(codec: Codec, events: seq<Event>, requested: Event): Result<Option<Event>, Refusal> {
    if requested.kind != Started then Err(NotStarted)
    else if !Verified(codec, requested) then Err(Unverified)
    else Search(codec, events, requested, None)
  }

  /** The ledger of one Job. */
  class Ledger {
    const jobId: string
    const codec: Codec
    var events: seq<Event>
    var control: Control

    constructor (jobId: string, codec: Codec, control: Control)
      ensures this.jobId == jobId && events == [] && this.control == control
    {
      this.jobId := jobId;
      this.codec := codec;
      this.events := [];
      this.control := control;
    }

    /** Append one event while the lease is current.  The new log is the old
        one, with the event added exactly when the verdict is `Record`. */
    method Append(token: Token, event: Event) returns (result: Result<(), Refusal>)
      modifies this`events
      ensures var verdict := Decide(codec, jobId, old(events), control, token, event);
        && (verdict == Ok(Record) ==> result == Ok(()) && events == old(events) + [event])
        && (verdict == Ok(AlreadyRecorded) ==> result == Ok(()) && events == old(events))
        && (verdict.Err? ==> result == Err(verdict.error) && events == old(events))
    {
      hide Verified, Fenced, SameSlot, SamePayload, SameEvidence, IsStartOf, FirstInSlot, FirstEvidence;
      if event.jobId != token.jobId || jobId != event.jobId {
        return Err(WrongJob);
      }
      if !Verified(codec, event) {
        return Err(Unverified);
      }
      var _ :- Fenced(control, token, event.recordedAt);
      for i := 0 to |events|
        invariant events == old(events)
        invariant forall prior | prior in events[..i] :: prior.jobId == event.jobId
      {
        if events[i].jobId != event.jobId {
          assert events[i] in events;
          return Err(WrongJob);
        }
      }
      for i := 0 to |events|
        invariant events == old(events)
        invariant forall prior | prior in events[..i] :: Verified(codec, prior)
      {
        if !Verified(codec, events[i]) {
          assert events[i] in events;
          return Err(Unverified);
        }
      }
      var slot := FirstInSlot(events, event);
      if slot.Some? && !SamePayload(slot.value, event) {
        return Err(PayloadMismatch);
      }
      if event.kind == Completed && !(exists prior | prior in events :: IsStartOf(prior, event)) {
        return Err(NoExactStart);
      }
      var evidence := FirstEvidence(events, event);
      if evidence.Some? {
        if evidence.value == event {
          return Ok(());
        }
        return Err(Conflicting);
      }
      events := events + [event];
      return Ok(());
    }

    /** The lookup as a loop that keeps the completion seen so far. */
    method ReusableCompletion(requested: Event) returns (result: Result<Option<Event>, Refusal>)
      ensures result == Reusable(codec, events, requested)
    {
      if requested.kind != Started {
        return Err(NotStarted);
      }
      if !Verified(codec, requested) {
        return Err(Unverified);
      }
      var completed: Option<Event> := None;
      for i := 0 to |events|
        invariant Search(codec, events[i..], requested, completed) == Search(codec, events, requested, None)
      {
        var event := events[i];
        assert events[i..][1..] == events[i + 1..];
        if AtCoordinate(event, requested) {
          if !Verified(codec, event) {
            return Err(Unverified);
          }
          if !SamePayload(event, requested) || event.invocationId != requested.invocationId {
            return Err(DifferentPayload);
          }
          if event.kind == Completed {
            if completed.Some? {
              return Err(DuplicateCompleted);
            }
            completed := Some(event);
          }
        }
      }
      return Ok(completed);
    }
  }

  // ------------------------------------------------------------------ runs

  datatype State = State(events: seq<Event>, control: Control)

  /** One thing that can happen to a ledger: an append attempt by any token,
      or any change of lease or Job status. */
  datatype Op = Append(token: Token, event: Event) | Recontrol(control: Control)

  function Step(codec: Codec, jobId: string, s: State, op: Op): State {
    match op
    case Append(token, event) =>
      if Decide(codec, jobId, s.events, s.control, token, event) == Ok(Record)
      then s.(events := s.events + [event]) else s
    case Recontrol(control) => s.(control := control)
  }

  /** The state after a whole run, starting from an empty log. */
  function Run(codec: Codec, jobId: string, start: Control, ops: seq<Op>): State {
    if ops == [] then State([], start)
    else Step(codec, jobId, Run(codec, jobId, start, ops[..|ops| - 1]), ops[|ops| - 1])
  }

  // -------------------------------------------------------------- invariant

  ghost predicate Sound(codec: Codec, jobId: string, events: seq<Event>) {
    && (forall i | 0 <= i < |events| :: Verified(codec, events[i]) && events[i].jobId == jobId)
    && (forall i, j | 0 <= i < j < |events| :: !SameEvidence(events[i], events[j]))
    && (forall i, j | 0 <= i < |events| && 0 <= j < |events| && SameSlot(events[i], events[j]) ::
          SamePayload(events[i], events[j]))
    && (forall j | 0 <= j < |events| && events[j].kind == Completed ::
          exists i :: 0 <= i < j && IsStartOf(events[i], events[j]))
  }

  lemma RecordKeepsSound(codec: Codec, jobId: string, events: seq<Event>, control: Control, token: Token, event: Event)
    requires Sound(codec, jobId, events)
    requires Decide(codec, jobId, events, control, token, event) == Ok(Record)
    ensures Sound(codec, jobId, events + [event])
  {
    hide Verified;
    var extended := events + [event];
    var n := |events|;
    forall i | 0 <= i < n ensures !SameEvidence(extended[i], extended[n]) {
      assert events[i] in events;
    }
    forall i, j | 0 <= i <= n && 0 <= j <= n && SameSlot(extended[i], extended[j])
      ensures SamePayload(extended[i], extended[j])
    {
      SlotPayload(codec, jobId, events, event, i, j);
    }
    StartsStillFirst(codec, jobId, events, event);
  }

  lemma StartsStillFirst(codec: Codec, jobId: string, events: seq<Event>, event: Event)
    requires Sound(codec, jobId, events)
    requires event.kind == Completed ==> exists prior :: prior in events && IsStartOf(prior, event)
    ensures var extended := events + [event];
      forall j | 0 <= j < |extended| && extended[j].kind == Completed ::
        exists i :: 0 <= i < j && IsStartOf(extended[i], extended[j])
  {
    hide Verified, IsStartOf, SamePayload, SameSlot, SameEvidence;
    var extended, n := events + [event], |events|;
    if event.kind == Completed {
      var prior :| prior in events && IsStartOf(prior, event);
      var i :| 0 <= i < n && events[i] == prior;
      assert IsStartOf(extended[i], extended[n]);
    }
    forall j | 0 <= j < n && extended[j].kind == Completed
      ensures exists i :: 0 <= i < j && IsStartOf(extended[i], extended[j])
    {
      var i :| 0 <= i < j && IsStartOf(events[i], events[j]);
      assert IsStartOf(extended[i], extended[j]);
    }
  }

  lemma SlotPayload(codec: Codec, jobId: string, events: seq<Event>, event: Event, i: nat, j: nat)
    requires Sound(codec, jobId, events)
    requires i <= |events| && j <= |events|
    requires var slot := FirstInSlot(events, event); slot.Some? ==> SamePayload(slot.value, event)
    requires SameSlot((events + [event])[i], (events + [event])[j])
    ensures SamePayload((events + [event])[i], (events + [event])[j])
  {
    hide Verified;
    var slot := FirstInSlot(events, event);
    if slot.Some? {
      var k :| 0 <= k < |events| && events[k] == slot.value;
      assert (i < |events| && j < |events|) || SameSlot(events[k], (events + [event])[i]);
      assert (i < |events| && j < |events|) || SameSlot(events[k], (events + [event])[j]);
    } else {
      assert i < |events| ==> events[i] in events;
      assert j < |events| ==> events[j] in events;
    }
  }

  /** Every ledger reachable from empty, by any interleaving of accepted and
      refused appends and lease changes, satisfies the invariant. */
  lemma {:induction false} ReachableSound(codec: Codec, jobId: string, start: Control, ops: seq<Op>)
    ensures Sound(codec, jobId, Run(codec, jobId, start, ops).events)
  {
    hide Verified, Decide;
    if ops != [] {
      ReachableSound(codec, jobId, start, ops[..|ops| - 1]);
      var before := Run(codec, jobId, start, ops[..|ops| - 1]);
      var op := ops[|ops| - 1];
      if op.Append? && Decide(codec, jobId, before.events, before.control, op.token, op.event) == Ok(Record) {
        RecordKeepsSound(codec, jobId, before.events, before.control, op.token, op.event);
      }
    }
  }

  /** Later states extend earlier ones: nothing recorded is changed or lost. */
  lemma {:induction false} AppendOnly(codec: Codec, jobId: string, start: Control, ops: seq<Op>, more: seq<Op>)
    ensures Run(codec, jobId, start, ops).events <= Run(codec, jobId, start, ops + more).events
  {
    hide Decide;
    if more == [] {
      assert ops + more == ops;
    } else {
      AppendOnly(codec, jobId, start, ops, more[..|more| - 1]);
      assert (ops + more)[..|ops + more| - 1] == ops + more[..|more| - 1];
    }
  }

  lemma RecordedMatches(codec: Codec, jobId: string, events: seq<Event>, j: nat)
    requires Sound(codec, jobId, events)
    requires j < |events|
    ensures var slot := FirstInSlot(events, events[j]);
      slot.Some? && SamePayload(slot.value, events[j])
    ensures FirstEvidence(events, events[j]) == Some(events[j])
    ensures events[j].kind == Completed ==> exists prior | prior in events :: IsStartOf(prior, events[j])
  {
    hide Verified, FirstInSlot, FirstEvidence;
    var slot, evidence := FirstInSlot(events, events[j]), FirstEvidence(events, events[j]);
    assert events[j] in events && SameSlot(events[j], events[j]) && SameEvidence(events[j], events[j]);
    var i :| 0 <= i < |events| && events[i] == slot.value;
    assert SamePayload(events[i], events[j]);
    var k :| 0 <= k < |events| && events[k] == evidence.value;
    assert k == j;
    if events[j].kind == Completed {
      var start :| 0 <= start < j && IsStartOf(events[start], events[j]);
      assert events[start] in events;
    }
  }

  /** On a sound ledger any recorded event is accepted again without change,
      whenever its token is current: the first match found is a match in full. */
  lemma RecordedIsReaccepted(codec: Codec, jobId: string, events: seq<Event>, control: Control, token: Token, event: Event)
    requires Sound(codec, jobId, events)
    requires event in events
    requires token.jobId == jobId && Fenced(control, token, event.recordedAt).Ok?
    ensures Decide(codec, jobId, events, control, token, event) == Ok(AlreadyRecorded)
  {
    hide Verified, Fenced, FirstInSlot, FirstEvidence, SamePayload, SameSlot, SameEvidence, IsStartOf;
    var j :| 0 <= j < |events| && events[j] == event;
    RecordedMatches(codec, jobId, events, j);
  }

  /** Idempotent retry over whole runs: an event accepted once is accepted
      again, unchanged, in every later state where a current token submits it. */
  lemma RetryIsIdempotent(codec: Codec, jobId: string, start: Control, ops: seq<Op>, token: Token, event: Event,
                          more: seq<Op>, retryToken: Token)
    requires var s := Run(codec, jobId, start, ops);
      Decide(codec, jobId, s.events, s.control, token, event).Ok?
    requires var later := Run(codec, jobId, start, ops + [Append(token, event)] + more);
      retryToken.jobId == jobId && Fenced(later.control, retryToken, event.recordedAt).Ok?
    ensures var later := Run(codec, jobId, start, ops + [Append(token, event)] + more);
      && Decide(codec, jobId, later.events, later.control, retryToken, event) == Ok(AlreadyRecorded)
      && Step(codec, jobId, later, Append(retryToken, event)) == later
  {
    hide Verified;
    var s := Run(codec, jobId, start, ops);
    var done := ops + [Append(token, event)];
    assert done[..|done| - 1] == ops;
    assert event in Run(codec, jobId, start, done).events;
    AppendOnly(codec, jobId, start, done, more);
    var later := Run(codec, jobId, start, done + more);
    var k :| 0 <= k < |Run(codec, jobId, start, done).events| && Run(codec, jobId, start, done).events[k] == event;
    assert later.events[k] == event;
    ReachableSound(codec, jobId, start, done + more);
    RecordedIsReaccepted(codec, jobId, later.events, later.control, retryToken, event);
  }

  /** Checking the first match of a slot is as good as checking all of them. */
  lemma FirstMatchSuffices(codec: Codec, jobId: string, events: seq<Event>, event: Event)
    requires Sound(codec, jobId, events)
    ensures var slot := FirstInSlot(events, event);
      (slot.Some? ==> SamePayload(slot.value, event)) <==>
      (forall prior | prior in events && SameSlot(prior, event) :: SamePayload(prior, event))
  {
    hide Verified;
    var slot := FirstInSlot(events, event);
    if slot.Some? && SamePayload(slot.value, event) {
      var k :| 0 <= k < |events| && events[k] == slot.value;
      forall prior | prior in events && SameSlot(prior, event) ensures SamePayload(prior, event) {
        var i :| 0 <= i < |events| && events[i] == prior;
        assert SameSlot(events[k], events[i]);
      }
    }
  }

  // ----------------------------------------------------------------- lookup

  /** The lookup on a suffix of a sound ledger, as facts about its events. */
  lemma {:induction false} SearchFacts(codec: Codec, jobId: string, events: seq<Event>, requested: Event,
                                       from: nat, found: Option<Event>)
    requires Sound(codec, jobId, events) && from <= |events|
    requires forall i | 0 <= i < from && AtCoordinate(events[i], requested) ::
      SamePayload(events[i], requested) && events[i].invocationId == requested.invocationId
    requires found.Some? ==> exists i ::
      0 <= i < from && events[i] == found.value && AtCoordinate(events[i], requested) && events[i].kind == Completed
    requires found.None? ==> forall i | 0 <= i < from && AtCoordinate(events[i], requested) :: events[i].kind == Started
    ensures var result := Search(codec, events[from..], requested, found);
      && result != Err(DuplicateCompleted) && result != Err(Unverified)
      && (result.Ok? <==> forall i | 0 <= i < |events| && AtCoordinate(events[i], requested) ::
            SamePayload(events[i], requested) && events[i].invocationId == requested.invocationId)
      && (result.Ok? && result.value.Some? ==> exists i ::
            0 <= i < |events| && events[i] == result.value.value && AtCoordinate(events[i], requested)
            && events[i].kind == Completed)
      && (result.Ok? && result.value.None? ==>
            forall i | 0 <= i < |events| && AtCoordinate(events[i], requested) :: events[i].kind == Started)
    decreases |events| - from
  {
    hide Verified;
    if from < |events| {
      var event := events[from];
      assert events[from..][0] == event && events[from..][1..] == events[from + 1..];
      if !AtCoordinate(event, requested) {
        SearchFacts(codec, jobId, events, requested, from + 1, found);
      } else if SamePayload(event, requested) && event.invocationId == requested.invocationId {
        if event.kind == Completed && found.Some? {
          assert false;
        } else {
          SearchFacts(codec, jobId, events, requested, from + 1, if event.kind == Completed then Some(event) else found);
        }
      }
    }
  }

  /** On every reachable ledger the lookup never meets duplicate or unverified
      evidence.  It refuses exactly when some event at the coordinate carries
      another payload or invocation; `Some(c)` is a recorded completion of the
      requested invocation and payload with its exact start earlier in the
      log; `None` means no completion exists at the coordinate. */
  lemma LookupOnReachable(codec: Codec, jobId: string, start: Control, ops: seq<Op>, requested: Event)
    requires requested.kind == Started && Verified(codec, requested)
    ensures var events := Run(codec, jobId, start, ops).events;
      var result := Reusable(codec, events, requested);
      && (result.Err? ==> result.error == DifferentPayload)
      && (result.Ok? <==> forall event | event in events && AtCoordinate(event, requested) ::
            SamePayload(event, requested) && event.invocationId == requested.invocationId)
      && (result.Ok? && result.value.Some? ==>
            exists i, j :: 0 <= i < j < |events| && events[j] == result.value.value
              && AtCoordinate(events[j], requested) && events[j].kind == Completed
              && SamePayload(events[j], requested) && events[j].invocationId == requested.invocationId
              && IsStartOf(events[i], events[j]))
      && (result.Ok? && result.value.None? ==>
            forall event | event in events && AtCoordinate(event, requested) :: event.kind != Completed)
  {
    hide Verified, Decide;
    ReachableSound(codec, jobId, start, ops);
    var events := Run(codec, jobId, start, ops).events;
    SearchFacts(codec, jobId, events, requested, 0, None);
    assert events[0..] == events;
    SearchErrors(codec, events, requested, None);
    var result := Reusable(codec, events, requested);
    if result.Ok? && result.value.Some? {
      var j :| 0 <= j < |events| && events[j] == result.value.value && AtCoordinate(events[j], requested)
        && events[j].kind == Completed;
      var i :| 0 <= i < j && IsStartOf(events[i], events[j]);
      assert events[j] in events;
    }
  }

  lemma {:induction false} SearchErrors(codec: Codec, events: seq<Event>, requested: Event, found: Option<Event>)
    ensures var result := Search(codec, events, requested, found);
      result.Err? ==> result.error in {Unverified, DifferentPayload, DuplicateCompleted}
  {
    hide Verified;
    if events != [] {
      SearchErrors(codec, events[1..], requested, found);
      SearchErrors(codec, events[1..], requested, Some(events[0]));
    }
  }

  /** Every completion in a reachable ledger is, field for field, what
      `Complete` builds from a start recorded earlier, or two different texts
      have one digest. */
  lemma CompletionsAreBuiltFromStarts(codec: Codec, jobId: string, start: Control, ops: seq<Op>, j: nat)
    returns (i: nat, collision: Option<(string, string)>)
    requires DigestShaped(codec.sha)
    requires j < |Run(codec, jobId, start, ops).events|
    requires Run(codec, jobId, start, ops).events[j].kind == Completed
    ensures i < j
    ensures collision.None? ==>
      var events := Run(codec, jobId, start, ops).events;
      var c := events[j];
      && c.exitCode.Some?
      && Complete(events[i], c.recordedAt, c.exitCode.value, c.stdout, c.stderr) == Ok(c)
    ensures collision.Some? ==> Collides(codec.sha, collision.value)
  {
    hide Decide, Run, InvocationText, HookVerified;
    ReachableSound(codec, jobId, start, ops);
    var events := Run(codec, jobId, start, ops).events;
    i :| 0 <= i < j && IsStartOf(events[i], events[j]);
    collision := InvocationBinds(codec, events[i], events[j]);
  }
}

/** What the hook ledger accepts, written out: when evidence verifies, when a
    token is current, and which events are recorded, repeated or refused. */
module LedgerMeaning {
  import opened Common
  import J = Json
  import opened HookEvents
  import opened HookLedger

  // ---------------------------------------------------------------- evidence

  function Joined(parts: seq<string>): string {
    if parts == [] then "" else if |parts| == 1 then parts[0] else parts[0] + "\0" + Joined(parts[1..])
  }

  function NameOf(name: HookName): string {
    if name.PreStep? then "pre-step"
    else if name.PostStep? then "post-step"
    else if name.OnPromote? then "on-promote"
    else "on-chain-end"
  }

  function SourceOf(source: HookSource): string {
    if source.Workspace? then "workspace" else if source.User? then "user" else "installation"
  }

  /** A hook's content and identity digests are its own. */
  ghost predicate GenuineHook(codec: Codec, hook: FrozenHook) {
    && hook.contentSha == codec.sha(hook.approvedBytes)
    && hook.identitySha == codec.sha(Joined([NameOf(hook.name), SourceOf(hook.source), hook.sourcePath, hook.contentSha]))
  }

  /** Evidence of a genuine hook: a canonical payload, digests over it and over the
      whole coordinate, and an outcome exactly when it is a completion. */
  ghost predicate GenuineEvent(codec: Codec, e: Event) {
    && e.schemaVersion == 1 && e.attempt >= 1 && !codec.blank(e.chainId) && GenuineHook(codec, e.hook)
    && codec.decode(e.payloadBytes).Some?
    && e.payloadBytes == codec.encode(J.Canonical(codec.decode(e.payloadBytes).value))
    && e.payloadSha == codec.sha(e.payloadBytes)
    && e.invocationId == codec.sha(Joined(["durable-chain-hook-v2", e.jobId, e.chainId, NameOf(e.hook.name),
         if e.step.Some? then Decimal(e.step.value) else "end", Decimal(e.attempt), e.hook.identitySha, e.payloadSha]))
    && (e.kind.Started? ==> e.exitCode.None? && |e.stdout| == 0 && |e.stderr| == 0)
    && (e.kind.Completed? ==> e.exitCode.Some?)
  }

  lemma JoinedFour(a: string, b: string, c: string, d: string)
    ensures Joined([a, b, c, d]) == a + "\0" + b + "\0" + c + "\0" + d
  {
    assert [a, b, c, d][1..] == [b, c, d] && [b, c, d][1..] == [c, d] && [c, d][1..] == [d];
    assert Joined([c, d]) == c + "\0" + d;
    assert Joined([b, c, d]) == b + "\0" + (c + "\0" + d);
    assert a + "\0" + (b + "\0" + (c + "\0" + d)) == a + "\0" + b + "\0" + c + "\0" + d;
  }

  lemma JoinedMore(a: string, b: string, c: string, d: string, rest: seq<string>)
    requires rest != []
    ensures Joined([a, b, c, d] + rest) == Joined([a, b, c, d]) + "\0" + Joined(rest)
  {
    var all := [a, b, c, d] + rest;
    assert all[1..] == [b, c, d] + rest && all[1..][1..] == [c, d] + rest && all[1..][1..][1..] == [d] + rest;
    assert all[1..][1..][1..][1..] == rest;
    JoinedFour(a, b, c, d);
    assert Joined([d] + rest) == d + "\0" + Joined(rest);
    assert Joined([c, d] + rest) == c + "\0" + (d + "\0" + Joined(rest));
    assert Joined([b, c, d] + rest) == b + "\0" + (c + "\0" + (d + "\0" + Joined(rest)));
    assert a + "\0" + (b + "\0" + (c + "\0" + (d + "\0" + Joined(rest)))) == a + "\0" + b + "\0" + c + "\0" + d + "\0" + Joined(rest);
  }

  lemma HookMeans(codec: Codec, hook: FrozenHook)
    ensures HookVerified(codec, hook) <==> GenuineHook(codec, hook)
  {
    JoinedFour(NameOf(hook.name), SourceOf(hook.source), hook.sourcePath, hook.contentSha);
    assert NameText(hook.name) == NameOf(hook.name) && SourceText(hook.source) == SourceOf(hook.source);
  }

  lemma InvocationMeans(e: Event)
    ensures InvocationText(e.jobId, e.chainId, e.hook, e.step, e.attempt, e.payloadSha)
      == Joined(["durable-chain-hook-v2", e.jobId, e.chainId, NameOf(e.hook.name),
           if e.step.Some? then Decimal(e.step.value) else "end", Decimal(e.attempt), e.hook.identitySha, e.payloadSha])
  {
    hide Decimal, NameText, NameOf;
    assert NameText(e.hook.name) == NameOf(e.hook.name) by {
      NamesMean(e.hook.name);
    }
    var version, name, step, attempt := "durable-chain-hook-v2", NameOf(e.hook.name), StepText(e.step), Decimal(e.attempt);
    var head, tail := [version, e.jobId, e.chainId, name], [step, attempt, e.hook.identitySha, e.payloadSha];
    JoinedMore(version, e.jobId, e.chainId, name, tail);
    JoinedFour(version, e.jobId, e.chainId, name);
    JoinedFour(step, attempt, e.hook.identitySha, e.payloadSha);
    assert head + tail == ["durable-chain-hook-v2", e.jobId, e.chainId, name, step, attempt, e.hook.identitySha, e.payloadSha];
    assert "durable-chain-hook-v2\0" == version + "\0";
  }

  lemma NamesMean(name: HookName)
    ensures NameText(name) == NameOf(name)
  {
  }

  /** Evidence verifies exactly when it is genuine. */
  lemma VerifiedIff(codec: Codec, e: Event)
    ensures Verified(codec, e) <==> GenuineEvent(codec, e)
  {
    hide HookVerified, GenuineHook, InvocationText, Joined, NameOf;
    HookMeans(codec, e.hook);
    InvocationMeans(e);
  }

  /** The number a text of decimal digits stands for. */
  function ValueOf(text: string): int {
    if text == "" then 0 else 10 * ValueOf(text[..|text| - 1]) + (text[|text| - 1] as int - '0' as int)
  }

  /** Numbers in the invocation text are plain decimal, without leading zeros. */
  lemma {:induction false} DecimalIs(n: nat)
    ensures ValueOf(Decimal(n)) == n && |Decimal(n)| > 0
    ensures forall c | c in Decimal(n) :: '0' <= c <= '9'
    ensures n > 0 ==> Decimal(n)[0] != '0'
  {
    var text := Decimal(n);
    if n >= 10 {
      DecimalIs(n / 10);
      assert text[..|text| - 1] == Decimal(n / 10);
    } else {
      assert text[..|text| - 1] == "";
    }
  }

  // ------------------------------------------------------------------- fence

  /** The token is the current lease, which has not run out at `now`, of a Job that
      goes on. */
  ghost predicate Current(control: Control, token: Token, now: int) {
    && (control.lease.jobId, control.lease.ownerId, control.lease.epoch, control.lease.bootId)
       == (token.jobId, token.ownerId, token.epoch, token.bootId)
    && now < control.lease.expiresAt && !control.stopped
  }

  lemma FencedIff(control: Control, token: Token, now: int)
    ensures Fenced(control, token, now).Ok? <==> Current(control, token, now)
    ensures !Current(control, token, now) ==> Fenced(control, token, now) == Err(
      if (control.lease.jobId, control.lease.ownerId, control.lease.epoch, control.lease.bootId)
         != (token.jobId, token.ownerId, token.epoch, token.bootId) then StaleToken
      else if now >= control.lease.expiresAt then LeaseExpired
      else JobStopped)
  {
  }

  // --------------------------------------------------------------- decisions

  ghost predicate SharesSlot(prior: Event, e: Event) {
    (prior.hook.name, prior.step, prior.attempt, prior.kind) == (e.hook.name, e.step, e.attempt, e.kind)
  }

  ghost predicate SharesPayload(prior: Event, e: Event) {
    (prior.payloadSha, prior.payloadBytes) == (e.payloadSha, e.payloadBytes)
  }

  /** An exact start of the event is on record. */
  ghost predicate StartOnRecord(events: seq<Event>, e: Event) {
    exists i :: 0 <= i < |events| && events[i].kind.Started? && events[i].invocationId == e.invocationId
      && SharesPayload(events[i], e) && events[i].hook == e.hook
  }

  /** What every accepted event satisfies. */
  ghost predicate Acceptable(codec: Codec, jobId: string, events: seq<Event>, control: Control, token: Token, e: Event) {
    && e.jobId == jobId && token.jobId == jobId && GenuineEvent(codec, e) && Current(control, token, e.recordedAt)
    && (forall i | 0 <= i < |events| && SharesSlot(events[i], e) :: SharesPayload(events[i], e))
    && (e.kind.Completed? ==> StartOnRecord(events, e))
  }

  /** On a sound log an event is recorded exactly when it is acceptable and its
      invocation has no event of its kind yet; it is taken as a repeat exactly when
      it is acceptable and on record already. A stale, expired or stopped token,
      an unverified event, a payload that differs from its slot's and a completion
      without its start are refused. */
  lemma DecideIff(codec: Codec, jobId: string, events: seq<Event>, control: Control, token: Token, e: Event)
    requires Sound(codec, jobId, events)
    ensures var decision := Decide(codec, jobId, events, control, token, e);
      && (decision == Ok(Record) <==>
            && Acceptable(codec, jobId, events, control, token, e)
            && forall i | 0 <= i < |events| :: !(events[i].invocationId == e.invocationId && events[i].kind == e.kind))
      && (decision == Ok(AlreadyRecorded) <==> Acceptable(codec, jobId, events, control, token, e) && e in events)
  {
    hide Verified, GenuineEvent, FirstInSlot, FirstEvidence, Fenced, Current, Decide, IsStartOf, SharesSlot, SharesPayload,
         StartOnRecord, Sound, SamePayload;
    VerifiedIff(codec, e);
    FencedIff(control, token, e.recordedAt);
    SlotMeans(codec, jobId, events, e);
    StartMeans(events, e);
    EvidenceMeans(codec, jobId, events, e);
    DecideParts(codec, jobId, events, control, token, e);
  }

  /** On a sound log, the decision by its parts. */
  lemma DecideParts(codec: Codec, jobId: string, events: seq<Event>, control: Control, token: Token, e: Event)
    requires Sound(codec, jobId, events)
    ensures var decision, slot := Decide(codec, jobId, events, control, token, e), FirstInSlot(events, e);
      var passes :=
        && e.jobId == token.jobId && jobId == e.jobId && Verified(codec, e) && Fenced(control, token, e.recordedAt).Ok?
        && (slot.Some? ==> SamePayload(slot.value, e))
        && (e.kind == Completed ==> exists prior | prior in events :: IsStartOf(prior, e));
      && (decision == Ok(Record) <==> passes && FirstEvidence(events, e).None?)
      && (decision == Ok(AlreadyRecorded) <==> passes && FirstEvidence(events, e) == Some(e))
  {
    hide Verified, FirstInSlot, FirstEvidence, Fenced, IsStartOf, SamePayload, SameSlot;
    assert forall prior | prior in events :: Verified(codec, prior) && prior.jobId == jobId;
  }

  lemma SlotMeans(codec: Codec, jobId: string, events: seq<Event>, e: Event)
    requires Sound(codec, jobId, events)
    ensures var slot := FirstInSlot(events, e);
      (slot.Some? ==> SamePayload(slot.value, e))
      <==> forall i | 0 <= i < |events| && SharesSlot(events[i], e) :: SharesPayload(events[i], e)
  {
    hide Verified, FirstInSlot;
    FirstMatchSuffices(codec, jobId, events, e);
    assert forall i | 0 <= i < |events| :: events[i] in events;
  }

  /** The reason for a refusal on a sound log. */
  lemma RefusalIs(codec: Codec, jobId: string, events: seq<Event>, control: Control, token: Token, e: Event)
    requires Sound(codec, jobId, events) && Decide(codec, jobId, events, control, token, e).Err?
    ensures Decide(codec, jobId, events, control, token, e).error ==
      if e.jobId != jobId || token.jobId != jobId then WrongJob
      else if !GenuineEvent(codec, e) then Unverified
      else if !Current(control, token, e.recordedAt) then Fenced(control, token, e.recordedAt).error
      else if exists i :: 0 <= i < |events| && SharesSlot(events[i], e) && !SharesPayload(events[i], e) then PayloadMismatch
      else if e.kind.Completed? && !StartOnRecord(events, e) then NoExactStart
      else Conflicting
  {
    hide Verified, GenuineEvent, FirstInSlot, FirstEvidence, Fenced, Current, IsStartOf, SharesSlot, SharesPayload,
         StartOnRecord, SamePayload, SameSlot;
    VerifiedIff(codec, e);
    FencedIff(control, token, e.recordedAt);
    SlotMeans(codec, jobId, events, e);
    StartMeans(events, e);
    assert forall prior | prior in events :: Verified(codec, prior) && prior.jobId == jobId;
  }

  lemma StartMeans(events: seq<Event>, e: Event)
    ensures (exists prior | prior in events :: IsStartOf(prior, e)) <==> StartOnRecord(events, e)
  {
    if prior :| prior in events && IsStartOf(prior, e) {
      var i :| 0 <= i < |events| && events[i] == prior;
      assert SharesPayload(events[i], e);
    }
    if StartOnRecord(events, e) {
      var i :| 0 <= i < |events| && events[i].kind.Started? && events[i].invocationId == e.invocationId
        && SharesPayload(events[i], e) && events[i].hook == e.hook;
      assert events[i] in events && IsStartOf(events[i], e);
    }
  }

  lemma EvidenceMeans(codec: Codec, jobId: string, events: seq<Event>, e: Event)
    requires Sound(codec, jobId, events)
    ensures var first := FirstEvidence(events, e);
      && (first.None? <==> forall i | 0 <= i < |events| :: !(events[i].invocationId == e.invocationId && events[i].kind == e.kind))
      && (first == Some(e) <==> e in events)
  {
    hide Verified, SameSlot, SamePayload, IsStartOf;
    var first := FirstEvidence(events, e);
    assert forall i | 0 <= i < |events| :: events[i] in events;
    if first.Some? {
      var k :| 0 <= k < |events| && events[k] == first.value;
      if e in events {
        var j :| 0 <= j < |events| && events[j] == e;
        assert SameEvidence(events[k], events[j]) && SameEvidence(events[j], events[k]);
      }
    }
  }

  /** A token that is not the current lease records nothing, whatever it submits. */
  lemma StaleTokenRefused(codec: Codec, jobId: string, events: seq<Event>, control: Control, token: Token, e: Event)
    requires !Current(control, token, e.recordedAt)
    ensures Decide(codec, jobId, events, control, token, e).Err?
    ensures e.jobId == jobId && token.jobId == jobId && GenuineEvent(codec, e)
      && (control.lease.ownerId, control.lease.epoch, control.lease.bootId) != (token.ownerId, token.epoch, token.bootId)
      ==> Decide(codec, jobId, events, control, token, e) == Err(StaleToken)
  {
    hide Verified, GenuineEvent;
    VerifiedIff(codec, e);
    FencedIff(control, token, e.recordedAt);
  }

  // ------------------------------------------------------------------- lookup

  /** The same Job, chain, hook, step and attempt. */
  ghost predicate Here(e: Event, requested: Event) {
    (e.jobId, e.chainId, e.hook.name, e.step, e.attempt)
    == (requested.jobId, requested.chainId, requested.hook.name, requested.step, requested.attempt)
  }

  /** Everything on record there is of the requested invocation and payload. */
  ghost predicate Agrees(events: seq<Event>, requested: Event) {
    forall i | 0 <= i < |events| && Here(events[i], requested) ::
      SharesPayload(events[i], requested) && events[i].invocationId == requested.invocationId
  }

  /** On every reachable ledger the lookup answers with the completion recorded at
      the coordinate, with none if there is none, and refuses exactly when something
      there disagrees with the request. */
  lemma LookupIff(codec: Codec, jobId: string, start: Control, ops: seq<Op>, requested: Event)
    requires requested.kind.Started? && GenuineEvent(codec, requested)
    ensures var events := Run(codec, jobId, start, ops).events;
      var answer := Reusable(codec, events, requested);
      && (answer.Ok? <==> Agrees(events, requested))
      && (forall c :: answer == Ok(Some(c)) <==>
            Agrees(events, requested) && c in events && Here(c, requested) && c.kind.Completed?)
      && (answer == Ok(None) <==>
            Agrees(events, requested) && forall i | 0 <= i < |events| && Here(events[i], requested) :: events[i].kind.Started?)
  {
    hide Verified, GenuineEvent, Run, Reusable;
    VerifiedIff(codec, requested);
    LookupOnReachable(codec, jobId, start, ops, requested);
    ReachableSound(codec, jobId, start, ops);
    var events := Run(codec, jobId, start, ops).events;
    var answer := Reusable(codec, events, requested);
    CoordinatesMean(events, requested);
    forall c | Agrees(events, requested) && c in events && Here(c, requested) && c.kind.Completed?
      ensures answer == Ok(Some(c))
    {
      OneCompletion(codec, jobId, events, requested, answer, c);
    }
  }

  lemma CoordinatesMean(events: seq<Event>, requested: Event)
    ensures forall e: Event :: AtCoordinate(e, requested) <==> Here(e, requested)
    ensures Agrees(events, requested) <==> forall e | e in events && AtCoordinate(e, requested) ::
      SamePayload(e, requested) && e.invocationId == requested.invocationId
    ensures (forall i | 0 <= i < |events| && Here(events[i], requested) :: events[i].kind.Started?)
      <==> forall e | e in events && AtCoordinate(e, requested) :: e.kind != Completed
  {
    assert forall i | 0 <= i < |events| :: events[i] in events;
  }

  lemma OneCompletion(codec: Codec, jobId: string, events: seq<Event>, requested: Event,
                      answer: Result<Option<Event>, Refusal>, c: Event)
    requires Sound(codec, jobId, events) && Agrees(events, requested)
    requires c in events && Here(c, requested) && c.kind.Completed?
    requires answer.Ok? && (answer.value.None? ==> forall e | e in events && AtCoordinate(e, requested) :: e.kind != Completed)
    requires answer.value.Some? ==>
      exists j :: 0 <= j < |events| && events[j] == answer.value.value && AtCoordinate(events[j], requested) && events[j].kind == Completed
    ensures answer == Ok(Some(c))
  {
    hide Verified, SamePayload, SameSlot, IsStartOf, SharesPayload;
    assert AtCoordinate(c, requested);
    var j :| 0 <= j < |events| && events[j] == answer.value.value && AtCoordinate(events[j], requested) && events[j].kind == Completed;
    var k :| 0 <= k < |events| && events[k] == c;
    assert Here(events[j], requested);
    assert SameEvidence(events[j], events[k]) && SameEvidence(events[k], events[j]);
  }
}

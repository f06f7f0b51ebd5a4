/** Frozen chain hooks and their payload-bound evidence events (`chain.rs`). */
module HookEvents {
  import opened Common
  import J = Json

  datatype Refusal =
    | AttemptFromOne | NotStarted | Unverified | WrongJob
    | StaleToken | LeaseExpired | JobStopped
    | PayloadMismatch | NoExactStart | Conflicting
    | DifferentPayload | DuplicateCompleted

  datatype HookName = PreStep | PostStep | OnPromote | OnChainEnd

  datatype HookSource = Workspace | User | Installation

  function NameText(name: HookName): string {
    match name
    case PreStep => "pre-step"
    case PostStep => "post-step"
    case OnPromote => "on-promote"
    case OnChainEnd => "on-chain-end"
  }

  function SourceText(source: HookSource): string {
    match source
    case Workspace => "workspace"
    case User => "user"
    case Installation => "installation"
  }

  /** SHA-256 text digests, serde's JSON writer and reader, and the test that
      trimming a text leaves nothing. */
  datatype Codec = Codec(
    sha: string -> string,
    encode: J.Value -> string,
    decode: string -> Option<J.Value>,
    blank: string -> bool)

  /** Reading back a written canonical value gives that value. */
  ghost predicate Faithful(codec: Codec) {
    forall v :: codec.decode(codec.encode(J.Canonical(v))) == Some(J.Canonical(v))
  }

  datatype FrozenHook = FrozenHook(
    name: HookName,
    source: HookSource,
    sourcePath: string,
    approvedBytes: string,
    contentSha: string,
    identitySha: string)

  function HookIdentity(codec: Codec, hook: FrozenHook): string {
    codec.sha(NameText(hook.name) + "\0" + SourceText(hook.source) + "\0" + hook.sourcePath + "\0" + hook.contentSha)
  }

  predicate HookVerified(codec: Codec, hook: FrozenHook) {
    HookIdentity(codec, hook) == hook.identitySha && codec.sha(hook.approvedBytes) == hook.contentSha
  }

  /** Decimal digits of a number. */
  function Decimal(n: nat): string {
    if n < 10 then [('0' as int + n) as char]
    else Decimal(n / 10) + [('0' as int + n % 10) as char]
  }

  function StepText(step: Option<nat>): string {
    match step
    case None => "end"
    case Some(index) => Decimal(index)
  }

  function InvocationText(jobId: string, chainId: string, hook: FrozenHook, step: Option<nat>,
                          attempt: nat, payloadSha: string): string {
    "durable-chain-hook-v2\0" + jobId + "\0" + chainId + "\0" + NameText(hook.name) + "\0" + StepText(step)
    + "\0" + Decimal(attempt) + "\0" + hook.identitySha + "\0" + payloadSha
  }

  function PayloadBytes(codec: Codec, payload: J.Value): string {
    codec.encode(J.Canonical(payload))
  }

  datatype Kind = Started | Completed

  datatype Event = Event(
    schemaVersion: nat,
    jobId: string,
    chainId: string,
    invocationId: string,
    hook: FrozenHook,
    step: Option<nat>,
    attempt: nat,
    payloadBytes: string,
    payloadSha: string,
    kind: Kind,
    recordedAt: int,
    exitCode: Option<int>,
    stdout: string,
    stderr: string)

  function Start(codec: Codec, jobId: string, chainId: string, hook: FrozenHook, step: Option<nat>,
                 attempt: nat, recordedAt: int, payload: J.Value): Result<Event, Refusal> {
    if attempt == 0 then Err(AttemptFromOne)
    else
      var bytes := PayloadBytes(codec, payload);
      var digest := codec.sha(bytes);
      Ok(Event(1, jobId, chainId,
               codec.sha(InvocationText(jobId, chainId, hook, step, attempt, digest)),
               hook, step, attempt, bytes, digest, Started, recordedAt, None, "", ""))
  }

  function Complete(started: Event, recordedAt: int, exitCode: int, stdout: string, stderr: string)
    : Result<Event, Refusal> {
    if started.kind != Started then Err(NotStarted)
    else Ok(started.(kind := Completed, recordedAt := recordedAt, exitCode := Some(exitCode),
                     stdout := stdout, stderr := stderr))
  }

  predicate ShapeOk(event: Event) {
    match event.kind
    case Started => event.exitCode.None? && event.stdout == "" && event.stderr == ""
    case Completed => event.exitCode.Some?
  }

  predicate Verified(codec: Codec, event: Event) {
    && HookVerified(codec, event.hook)
    && codec.decode(event.payloadBytes).Some?
    && var canonical := PayloadBytes(codec, codec.decode(event.payloadBytes).value);
       var digest := codec.sha(canonical);
       && event.schemaVersion == 1
       && event.attempt != 0
       && !codec.blank(event.chainId)
       && canonical == event.payloadBytes
       && digest == event.payloadSha
       && codec.sha(InvocationText(event.jobId, event.chainId, event.hook, event.step, event.attempt, digest))
          == event.invocationId
       && ShapeOk(event)
  }

  // -------------------------------------------- building and verifying agree

  /** `started` builds evidence that verifies exactly when the hook verifies
      and the chain id is not blank: the payload half never fails, because
      canonicalising a canonical payload changes nothing. */
  lemma StartVerifiesIff(codec: Codec, jobId: string, chainId: string, hook: FrozenHook, step: Option<nat>,
                         attempt: nat, recordedAt: int, payload: J.Value)
    requires Faithful(codec)
    ensures var started := Start(codec, jobId, chainId, hook, step, attempt, recordedAt, payload);
      && (started.Ok? <==> attempt != 0)
      && (started.Ok? ==> (Verified(codec, started.value) <==> HookVerified(codec, hook) && !codec.blank(chainId)))
      && (started.Ok? ==> codec.decode(started.value.payloadBytes) == Some(J.Canonical(payload)))
  {
    hide HookVerified, InvocationText;
    J.CanonicalIdempotent(payload);
    assert codec.decode(codec.encode(J.Canonical(payload))) == Some(J.Canonical(payload));
  }

  /** Completing a verified start gives verified evidence of the given outcome;
      forgetting the outcome gives the start back. */
  lemma CompleteVerifies(codec: Codec, started: Event, recordedAt: int, exitCode: int, stdout: string, stderr: string)
    requires Verified(codec, started) && started.kind == Started
    ensures var completed := Complete(started, recordedAt, exitCode, stdout, stderr);
      && completed.Ok? && Verified(codec, completed.value)
      && completed.value.(kind := Started, recordedAt := started.recordedAt, exitCode := None, stdout := "", stderr := "")
         == started
      && completed.value.kind == Completed && completed.value.exitCode == Some(exitCode)
      && completed.value.stdout == stdout && completed.value.stderr == stderr
  {
  }

  /** Reordering a payload never changes the evidence; a payload that differs
      in more than member order changes the payload digest, or a collision is
      returned. */
  lemma PayloadIdentity(codec: Codec, jobId: string, chainId: string, hook: FrozenHook, step: Option<nat>,
                        attempt: nat, recordedAt: int, p: J.Value, q: J.Value)
    returns (collision: Option<(string, string)>)
    requires Faithful(codec) && attempt != 0
    ensures J.Same(p, q) ==>
      Start(codec, jobId, chainId, hook, step, attempt, recordedAt, p)
      == Start(codec, jobId, chainId, hook, step, attempt, recordedAt, q)
    ensures collision.None? ==>
      (J.Same(p, q) <==>
       Start(codec, jobId, chainId, hook, step, attempt, recordedAt, p).value.payloadSha
       == Start(codec, jobId, chainId, hook, step, attempt, recordedAt, q).value.payloadSha)
    ensures collision.Some? ==> Collides(codec.sha, collision.value)
  {
    hide InvocationText;
    J.CanonicalIffSame(p, q);
    var x, y := PayloadBytes(codec, p), PayloadBytes(codec, q);
    assert codec.decode(x) == Some(J.Canonical(p)) && codec.decode(y) == Some(J.Canonical(q));
    collision := if x != y && codec.sha(x) == codec.sha(y) then Some((x, y)) else None;
  }

  // ------------------------------------------------------ identity binding

  predicate NulFree(s: string) {
    forall i | 0 <= i < |s| :: s[i] != '\0'
  }

  /** A part without NUL bytes can be split off the right end in one way only. */
  lemma LastPart(a: string, x: string, b: string, y: string)
    requires a + "\0" + x == b + "\0" + y
    requires NulFree(x) && NulFree(y)
    ensures a == b && x == y
  {
    var whole := a + "\0" + x;
    assert whole[|a|] == '\0' && whole[|b|] == '\0';
    assert forall i | |a| < i < |whole| :: whole[i] == x[i - |a| - 1];
    assert forall i | |b| < i < |whole| :: whole[i] == y[i - |b| - 1];
    assert |a| == |b|;
    assert a == whole[..|a|] && b == whole[..|b|];
    assert x == whole[|a| + 1..] && y == whole[|b| + 1..];
  }

  lemma {:induction false} DecimalDigits(n: nat)
    ensures Decimal(n) != "" && forall c | c in Decimal(n) :: '0' <= c <= '9'
  {
    if n >= 10 {
      DecimalDigits(n / 10);
    }
  }

  lemma {:induction false} DecimalInjective(m: nat, n: nat)
    requires Decimal(m) == Decimal(n)
    ensures m == n
  {
    var a, b := Decimal(m), Decimal(n);
    assert a[|a| - 1] == b[|b| - 1];
    assert m % 10 == n % 10;
    if m >= 10 {
      DecimalDigits(m / 10);
    }
    if n >= 10 {
      DecimalDigits(n / 10);
    }
    if m >= 10 && n >= 10 {
      assert Decimal(m / 10) == a[..|a| - 1] && Decimal(n / 10) == b[..|b| - 1];
      DecimalInjective(m / 10, n / 10);
    }
  }

  lemma StepInjective(s: Option<nat>, t: Option<nat>)
    requires StepText(s) == StepText(t)
    ensures s == t
  {
    if s.Some? && t.Some? {
      DecimalInjective(s.value, t.value);
    }
    if s.Some? {
      DecimalDigits(s.value);
      assert StepText(s)[0] in StepText(s);
    }
    if t.Some? {
      DecimalDigits(t.value);
      assert StepText(t)[0] in StepText(t);
    }
  }

  lemma NameInjective(a: HookName, b: HookName)
    requires NameText(a) == NameText(b)
    ensures a == b
  {
    assert NameText(PreStep)[1] == 'r' && NameText(PostStep)[1] == 'o' && NameText(PostStep)[0] == 'p';
    assert NameText(OnPromote)[3] == 'p' && NameText(OnChainEnd)[3] == 'c' && NameText(OnPromote)[0] == 'o';
    assert NameText(OnChainEnd)[0] == 'o' && NameText(PreStep)[0] == 'p';
  }

  lemma PartsNulFree(name: HookName, step: Option<nat>, attempt: nat)
    ensures NulFree(NameText(name)) && NulFree(StepText(step)) && NulFree(Decimal(attempt))
  {
    DecimalDigits(attempt);
    if step.Some? {
      DecimalDigits(step.value);
      assert forall i | 0 <= i < |StepText(step)| :: StepText(step)[i] in Decimal(step.value);
    }
  }

  lemma DigestNulFree(value: string)
    requires IsSha256Digest(value)
    ensures NulFree(value)
  {
    assert forall i | 0 <= i < 7 :: value[i] == SHA256_PREFIX[i];
  }

  /** Within one Job the invocation id binds the chain id (whatever bytes it
      holds), hook name, step, attempt, hook identity and payload digest: two
      verified events with one id agree on all of them, or two different
      texts have one digest. */
  lemma InvocationBinds(codec: Codec, d: Event, e: Event) returns (collision: Option<(string, string)>)
    requires DigestShaped(codec.sha)
    requires Verified(codec, d) && Verified(codec, e)
    requires d.jobId == e.jobId && d.invocationId == e.invocationId
    ensures collision.None? ==>
      && d.chainId == e.chainId && d.hook.name == e.hook.name && d.step == e.step && d.attempt == e.attempt
      && d.hook.identitySha == e.hook.identitySha && d.payloadSha == e.payloadSha
    ensures collision.Some? ==> Collides(codec.sha, collision.value)
  {
    hide Verified, InvocationText;
    VerifiedParts(codec, d);
    VerifiedParts(codec, e);
    var x := InvocationText(d.jobId, d.chainId, d.hook, d.step, d.attempt, d.payloadSha);
    var y := InvocationText(e.jobId, e.chainId, e.hook, e.step, e.attempt, e.payloadSha);
    if x != y {
      return Some((x, y));
    }
    TextBinds(d.jobId, d, e);
    return None;
  }

  lemma VerifiedParts(codec: Codec, event: Event)
    requires DigestShaped(codec.sha) && Verified(codec, event)
    ensures IsSha256Digest(event.payloadSha) && IsSha256Digest(event.hook.identitySha)
    ensures event.invocationId
      == codec.sha(InvocationText(event.jobId, event.chainId, event.hook, event.step, event.attempt, event.payloadSha))
  {
    hide IsSha256Digest, InvocationText;
  }

  lemma TextBinds(jobId: string, d: Event, e: Event)
    requires IsSha256Digest(d.payloadSha) && IsSha256Digest(e.payloadSha)
    requires IsSha256Digest(d.hook.identitySha) && IsSha256Digest(e.hook.identitySha)
    requires InvocationText(jobId, d.chainId, d.hook, d.step, d.attempt, d.payloadSha)
          == InvocationText(jobId, e.chainId, e.hook, e.step, e.attempt, e.payloadSha)
    ensures d.chainId == e.chainId && d.hook.name == e.hook.name && d.step == e.step && d.attempt == e.attempt
    ensures d.hook.identitySha == e.hook.identitySha && d.payloadSha == e.payloadSha
  {
    hide NameText, StepText, Decimal, IsSha256Digest;
    PartsNulFree(d.hook.name, d.step, d.attempt);
    PartsNulFree(e.hook.name, e.step, e.attempt);
    DigestNulFree(d.payloadSha);
    DigestNulFree(e.payloadSha);
    DigestNulFree(d.hook.identitySha);
    DigestNulFree(e.hook.identitySha);
    var head := "durable-chain-hook-v2\0" + jobId + "\0";
    var d1, e1 := head + d.chainId, head + e.chainId;
    var d2, e2 := d1 + "\0" + NameText(d.hook.name), e1 + "\0" + NameText(e.hook.name);
    var d3, e3 := d2 + "\0" + StepText(d.step), e2 + "\0" + StepText(e.step);
    var d4, e4 := d3 + "\0" + Decimal(d.attempt), e3 + "\0" + Decimal(e.attempt);
    var d5, e5 := d4 + "\0" + d.hook.identitySha, e4 + "\0" + e.hook.identitySha;
    LastPart(d5, d.payloadSha, e5, e.payloadSha);
    LastPart(d4, d.hook.identitySha, e4, e.hook.identitySha);
    LastPart(d3, Decimal(d.attempt), e3, Decimal(e.attempt));
    LastPart(d2, StepText(d.step), e2, StepText(e.step));
    LastPart(d1, NameText(d.hook.name), e1, NameText(e.hook.name));
    assert d.chainId == d1[|head|..] && e.chainId == e1[|head|..];
    DecimalInjective(d.attempt, e.attempt);
    StepInjective(d.step, e.step);
    NameInjective(d.hook.name, e.hook.name);
  }
}

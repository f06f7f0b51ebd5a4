/** Git delivery authority (`delivery.rs`): a signed intent, then a signed
    applied receipt, each published once without clobbering, by any number of
    concurrent seal calls whose file accesses interleave. */
module Delivery {
  import opened Common
  import opened Framing

  datatype Refusal =
    | BadShape | AlreadySigned | NoKey | TooLarge
    | NoArtifact | Unparsable | WrongJob | BadSignature | BindingMismatch | Conflict

  datatype Repository = Repository(worktreeRoot: string, gitCommonDir: string)

  datatype Intent = Intent(
    schemaVersion: nat,
    jobId: string,
    runId: string,
    preparedAt: int,
    completionSha: string,
    repository: Repository,
    targetRef: string,
    preRevision: string,
    sourceRevision: string,
    resultRevision: string,
    policySha: string,
    strategy: string,
    signature: string)

  datatype Applied = Applied(
    schemaVersion: nat,
    jobId: string,
    runId: string,
    issuedAt: int,
    intentSha: string,
    completionSha: string,
    repository: Repository,
    targetRef: string,
    preRevision: string,
    appliedRevision: string,
    sourceRevision: string,
    resultRevision: string,
    policySha: string,
    strategy: string,
    signature: string)

  /** The fixed surroundings of the calls: digest and MAC, the gate key of each
      run, the file system's answer to "is this path absolute and canonical",
      serde's compact encoding that is signed, and the file form with its reader. */
  datatype Env = Env(
    sha: string -> string,
    mac: Mac,
    key: string -> Option<string>,
    blank: string -> bool,
    canonicalPath: string -> bool,
    encodeIntent: Intent -> string,
    encodeApplied: Applied -> string,
    intentFile: Intent -> string,
    appliedFile: Applied -> string,
    parseIntent: string -> Option<Intent>,
    parseApplied: string -> Option<Applied>)

  /** Reading a written artifact gives the value that was written. */
  ghost predicate Faithful(env: Env) {
    && (forall v :: env.parseIntent(env.intentFile(v)) == Some(v))
    && (forall v :: env.parseApplied(env.appliedFile(v)) == Some(v))
  }

  // ---------------------------------------------------------------- checks

  predicate IsRevision(value: string) {
    (|value| == 40 || |value| == 64) && forall c | c in value :: IsAsciiHexDigit(c)
  }

  predicate IsLocalBranch(value: string) {
    "refs/heads/" < value
  }

  predicate IntentShape(env: Env, v: Intent) {
    && !env.blank(v.jobId)
    && !env.blank(v.runId)
    && IsSha256Digest(v.completionSha)
    && env.canonicalPath(v.repository.worktreeRoot)
    && env.canonicalPath(v.repository.gitCommonDir)
    && IsLocalBranch(v.targetRef)
    && IsRevision(v.preRevision)
    && IsRevision(v.sourceRevision)
    && IsRevision(v.resultRevision)
    && IsSha256Digest(v.policySha)
  }

  predicate AppliedShape(env: Env, v: Applied) {
    && !env.blank(v.jobId)
    && !env.blank(v.runId)
    && IsSha256Digest(v.intentSha)
    && IsSha256Digest(v.completionSha)
    && env.canonicalPath(v.repository.worktreeRoot)
    && env.canonicalPath(v.repository.gitCommonDir)
    && IsLocalBranch(v.targetRef)
    && IsRevision(v.preRevision)
    && IsRevision(v.appliedRevision)
    && IsRevision(v.sourceRevision)
    && IsRevision(v.resultRevision)
    && IsSha256Digest(v.policySha)
    && v.preRevision != v.appliedRevision
  }

  predicate Bound(v: Applied, intent: Intent, intentSha: string) {
    && v.intentSha == intentSha
    && v.jobId == intent.jobId
    && v.runId == intent.runId
    && v.completionSha == intent.completionSha
    && v.repository == intent.repository
    && v.targetRef == intent.targetRef
    && v.preRevision == intent.preRevision
    && v.sourceRevision == intent.sourceRevision
    && v.resultRevision == intent.resultRevision
    && v.policySha == intent.policySha
    && v.strategy == intent.strategy
  }

  /** The signed message never depends on the signature already present. */
  function IntentMessage(env: Env, v: Intent): Option<string> {
    Frame(DeliveryIntent, env.encodeIntent(v.(signature := "")))
  }

  function AppliedMessage(env: Env, v: Applied): Option<string> {
    Frame(AppliedDelivery, env.encodeApplied(v.(signature := "")))
  }

  function SignIntent(env: Env, v: Intent): Result<Intent, Refusal> {
    match (env.key(v.runId), IntentMessage(env, v))
    case (None, _) => Err(NoKey)
    case (_, None) => Err(TooLarge)
    case (Some(key), Some(message)) => Ok(v.(signature := Sign(env.mac, key, message)))
  }

  function SignApplied(env: Env, v: Applied): Result<Applied, Refusal> {
    match (env.key(v.runId), AppliedMessage(env, v))
    case (None, _) => Err(NoKey)
    case (_, None) => Err(TooLarge)
    case (Some(key), Some(message)) => Ok(v.(signature := Sign(env.mac, key, message)))
  }

  /** Validate the stored bytes of a Job's intent. */
  function ReadIntent(env: Env, jobId: string, bytes: string): Result<Intent, Refusal> {
    match env.parseIntent(bytes)
    case None => Err(Unparsable)
    case Some(v) =>
      if v.jobId != jobId then Err(WrongJob)
      else if !IntentShape(env, v) then Err(BadShape)
      else match (env.key(v.runId), IntentMessage(env, v))
        case (None, _) => Err(NoKey)
        case (_, None) => Err(TooLarge)
        case (Some(key), Some(message)) =>
          if Verifies(env.mac, key, message, v.signature) then Ok(v) else Err(BadSignature)
  }

  /** Validate the stored bytes of a Job's applied receipt, before its intent is read. */
  function ReadApplied(env: Env, jobId: string, bytes: string): Result<Applied, Refusal> {
    match env.parseApplied(bytes)
    case None => Err(Unparsable)
    case Some(v) =>
      if v.jobId != jobId then Err(WrongJob)
      else if !AppliedShape(env, v) then Err(BadShape)
      else match (env.key(v.runId), AppliedMessage(env, v))
        case (None, _) => Err(NoKey)
        case (_, None) => Err(TooLarge)
        case (Some(key), Some(message)) =>
          if Verifies(env.mac, key, message, v.signature) then Ok(v) else Err(BadSignature)
  }

  type Store = map<string, string>

  function StoredIntent(env: Env, intents: Store, jobId: string): Result<Intent, Refusal> {
    if jobId in intents then ReadIntent(env, jobId, intents[jobId]) else Err(NoArtifact)
  }

  /** The intent that binds a receipt, with the digest of its stored bytes. */
  function BindingIntent(env: Env, intents: Store, v: Applied): Result<(), Refusal> {
    var intent :- StoredIntent(env, intents, v.jobId);
    Require(Bound(v, intent, env.sha(intents[v.jobId])), BindingMismatch)
  }

  // ------------------------------------------------------------- processes

  /** The control points of the two seal calls.  Between two of them any other
      call may run; each step makes at most one access to a shared file. */
  datatype Process =
    | IntentCall(submitted: Intent)
    | IntentPublish(sealedIntent: Intent)
    | IntentCompare(sealedIntent: Intent)
    | IntentDone(intentResult: Result<Intent, Refusal>)
    | AppliedCall(receipt: Applied)
    | AppliedBind(receipt: Applied)
    | AppliedPublish(sealedApplied: Applied)
    | AppliedReadBack(sealedApplied: Applied)
    | AppliedCompare(sealedApplied: Applied, existing: Applied)
    | AppliedDone(appliedResult: Result<Applied, Refusal>)

  /** The published artifacts by Job, and every call made so far. */
  datatype State = State(intents: Store, receipts: Store, calls: seq<Process>)

  function StartIntent(env: Env, v: Intent): Process {
    if !IntentShape(env, v) then IntentDone(Err(BadShape))
    else if v.signature != "" then IntentDone(Err(AlreadySigned))
    else match SignIntent(env, v)
      case Ok(sealed) => IntentPublish(sealed)
      case Err(e) => IntentDone(Err(e))
  }

  function StartApplied(env: Env, v: Applied): Process {
    if !AppliedShape(env, v) then AppliedDone(Err(BadShape))
    else if v.signature != "" then AppliedDone(Err(AlreadySigned))
    else AppliedBind(v)
  }

  function BindApplied(env: Env, intents: Store, v: Applied): Process {
    match BindingIntent(env, intents, v)
    case Err(e) => AppliedDone(Err(e))
    case Ok(_) =>
      match SignApplied(env, v)
      case Ok(sealed) => AppliedPublish(sealed)
      case Err(e) => AppliedDone(Err(e))
  }

  function CompareIntent(env: Env, intents: Store, sealed: Intent): Process {
    match StoredIntent(env, intents, sealed.jobId)
    case Err(e) => IntentDone(Err(e))
    case Ok(existing) => IntentDone(if existing == sealed then Ok(existing) else Err(Conflict))
  }

  function ReadBackApplied(env: Env, receipts: Store, sealed: Applied): Process {
    if sealed.jobId !in receipts then AppliedDone(Err(NoArtifact))
    else match ReadApplied(env, sealed.jobId, receipts[sealed.jobId])
      case Err(e) => AppliedDone(Err(e))
      case Ok(existing) => AppliedCompare(sealed, existing)
  }

  function CompareApplied(env: Env, intents: Store, sealed: Applied, existing: Applied): Process {
    match BindingIntent(env, intents, existing)
    case Err(e) => AppliedDone(Err(e))
    case Ok(_) => AppliedDone(if existing == sealed then Ok(existing) else Err(Conflict))
  }

  /** One step of call `pid`.  Publishing is the atomic no-clobber rename. */
  function Move(env: Env, s: State, pid: nat): State
    requires pid < |s.calls|
  {
    match s.calls[pid]
    case IntentCall(v) => s.(calls := s.calls[pid := StartIntent(env, v)])
    case IntentPublish(v) =>
      if v.jobId in s.intents then s.(calls := s.calls[pid := IntentCompare(v)])
      else s.(intents := s.intents[v.jobId := env.intentFile(v)], calls := s.calls[pid := IntentDone(Ok(v))])
    case IntentCompare(v) => s.(calls := s.calls[pid := CompareIntent(env, s.intents, v)])
    case AppliedCall(v) => s.(calls := s.calls[pid := StartApplied(env, v)])
    case AppliedBind(v) => s.(calls := s.calls[pid := BindApplied(env, s.intents, v)])
    case AppliedPublish(v) =>
      if v.jobId in s.receipts then s.(calls := s.calls[pid := AppliedReadBack(v)])
      else s.(receipts := s.receipts[v.jobId := env.appliedFile(v)], calls := s.calls[pid := AppliedDone(Ok(v))])
    case AppliedReadBack(v) => s.(calls := s.calls[pid := ReadBackApplied(env, s.receipts, v)])
    case AppliedCompare(v, existing) => s.(calls := s.calls[pid := CompareApplied(env, s.intents, v, existing)])
    case IntentDone(_) => s
    case AppliedDone(_) => s
  }

  /** A new call arrives, or an existing one takes its next step. */
  datatype Op = SealIntent(intent: Intent) | SealApplied(receipt: Applied) | Advance(pid: nat)

  function Step(env: Env, s: State, op: Op): State {
    match op
    case SealIntent(v) => s.(calls := s.calls + [IntentCall(v)])
    case SealApplied(v) => s.(calls := s.calls + [AppliedCall(v)])
    case Advance(pid) => if pid < |s.calls| then Move(env, s, pid) else s
  }

  /** The state after an interleaving, starting with nothing published. */
  function Run(env: Env, ops: seq<Op>): State {
    if ops == [] then State(map[], map[], [])
    else Step(env, Run(env, ops[..|ops| - 1]), ops[|ops| - 1])
  }

  // ------------------------------------------------------------- invariant

  predicate SealedIntent(env: Env, v: Intent) {
    IntentShape(env, v) && SignIntent(env, v) == Ok(v)
  }

  predicate SealedApplied(env: Env, v: Applied) {
    AppliedShape(env, v) && SignApplied(env, v) == Ok(v)
  }

  /** A sealed value survives its own file: reading it back validates it. */
  lemma SealedIntentReads(env: Env, v: Intent)
    requires Faithful(env) && SealedIntent(env, v)
    ensures ReadIntent(env, v.jobId, env.intentFile(v)) == Ok(v)
  {
    hide IntentShape;
    SealedVerifies(env.mac, env.key(v.runId).value, IntentMessage(env, v).value);
  }

  lemma SealedAppliedReads(env: Env, v: Applied)
    requires Faithful(env) && SealedApplied(env, v)
    ensures ReadApplied(env, v.jobId, env.appliedFile(v)) == Ok(v)
  {
    hide AppliedShape;
    SealedVerifies(env.mac, env.key(v.runId).value, AppliedMessage(env, v).value);
  }

  /** Signing replaces whatever signature was there and is stable afterwards. */
  lemma SigningIgnoresSignature(env: Env, v: Intent, signature: string)
    ensures SignIntent(env, v.(signature := signature)) == SignIntent(env, v)
    ensures SignIntent(env, v).Ok? ==> SignIntent(env, SignIntent(env, v).value) == SignIntent(env, v)
  {
    assert v.(signature := signature).(signature := "") == v.(signature := "");
    if SignIntent(env, v).Ok? {
      var sealed := SignIntent(env, v).value;
      assert sealed.(signature := "") == v.(signature := "");
    }
  }

  lemma SigningAppliedIgnoresSignature(env: Env, v: Applied, signature: string)
    ensures SignApplied(env, v.(signature := signature)) == SignApplied(env, v)
    ensures SignApplied(env, v).Ok? ==> SignApplied(env, SignApplied(env, v).value) == SignApplied(env, v)
  {
    assert v.(signature := signature).(signature := "") == v.(signature := "");
    if SignApplied(env, v).Ok? {
      var sealed := SignApplied(env, v).value;
      assert sealed.(signature := "") == v.(signature := "");
    }
  }

  /** What each control point may rely on. */
  ghost predicate CallOk(env: Env, intents: Store, receipts: Store, call: Process) {
    match call
    case IntentPublish(v) => SealedIntent(env, v)
    case IntentCompare(v) => SealedIntent(env, v) && v.jobId in intents
    case IntentDone(Ok(v)) => v.jobId in intents && intents[v.jobId] == env.intentFile(v)
    case AppliedBind(v) => AppliedShape(env, v)
    case AppliedPublish(v) => SealedApplied(env, v) && BindingIntent(env, intents, v).Ok?
    case AppliedReadBack(v) => SealedApplied(env, v) && v.jobId in receipts
    case AppliedCompare(v, existing) =>
      && v.jobId in receipts && receipts[v.jobId] == env.appliedFile(existing) && existing.jobId == v.jobId
    case AppliedDone(Ok(v)) => v.jobId in receipts && receipts[v.jobId] == env.appliedFile(v)
    case _ => true
  }

  ghost predicate IntentStored(env: Env, intents: Store, jobId: string) {
    && jobId in intents
    && exists v: Intent :: v.jobId == jobId && SealedIntent(env, v) && intents[jobId] == env.intentFile(v)
  }

  ghost predicate ReceiptStored(env: Env, intents: Store, receipts: Store, jobId: string) {
    && jobId in receipts
    && exists v: Applied :: v.jobId == jobId && SealedApplied(env, v) && receipts[jobId] == env.appliedFile(v)
                   && BindingIntent(env, intents, v).Ok?
  }

  ghost predicate Consistent(env: Env, s: State) {
    && (forall jobId | jobId in s.intents :: IntentStored(env, s.intents, jobId))
    && (forall jobId | jobId in s.receipts :: ReceiptStored(env, s.intents, s.receipts, jobId))
    && (forall pid | 0 <= pid < |s.calls| :: CallOk(env, s.intents, s.receipts, s.calls[pid]))
  }

  /** Published files are only ever added. */
  ghost predicate Grows(before: Store, after: Store) {
    forall jobId | jobId in before :: jobId in after && after[jobId] == before[jobId]
  }

  /** A call's assumptions survive everything that other calls publish. */
  lemma CallOkStable(env: Env, s: State, t: State, call: Process)
    requires Grows(s.intents, t.intents) && Grows(s.receipts, t.receipts)
    requires CallOk(env, s.intents, s.receipts, call)
    ensures CallOk(env, t.intents, t.receipts, call)
  {
    hide SealedIntent, SealedApplied, ReadIntent, AppliedShape, Bound;
  }

  /** A publish that fills one Job's slot keeps every stored artifact sound. */
  lemma StoresStable(env: Env, s: State, t: State)
    requires Consistent(env, s)
    requires Grows(s.intents, t.intents) && Grows(s.receipts, t.receipts)
    requires forall jobId | jobId in t.intents && jobId !in s.intents :: IntentStored(env, t.intents, jobId)
    requires forall jobId | jobId in t.receipts && jobId !in s.receipts ::
      ReceiptStored(env, t.intents, t.receipts, jobId)
    requires |t.calls| >= |s.calls|
    requires forall pid | 0 <= pid < |t.calls| ::
      (pid < |s.calls| && t.calls[pid] == s.calls[pid]) || CallOk(env, t.intents, t.receipts, t.calls[pid])
    ensures Consistent(env, t)
  {
    hide SealedIntent, SealedApplied, ReadIntent, CallOk, Bound;
    forall jobId | jobId in t.intents ensures IntentStored(env, t.intents, jobId) {
      if jobId in s.intents {
        var v: Intent :| v.jobId == jobId && SealedIntent(env, v) && s.intents[jobId] == env.intentFile(v);
      }
    }
    forall jobId | jobId in t.receipts ensures ReceiptStored(env, t.intents, t.receipts, jobId) {
      if jobId in s.receipts {
        var v: Applied :| v.jobId == jobId && SealedApplied(env, v) && s.receipts[jobId] == env.appliedFile(v)
          && BindingIntent(env, s.intents, v).Ok?;
        assert BindingIntent(env, t.intents, v).Ok?;
      }
    }
    forall pid | 0 <= pid < |t.calls| ensures CallOk(env, t.intents, t.receipts, t.calls[pid]) {
      if pid < |s.calls| && t.calls[pid] == s.calls[pid] {
        CallOkStable(env, s, t, s.calls[pid]);
      }
    }
  }

  /** Reading a stored intent gives the sealed value it was written from. */
  lemma StoredIntentReads(env: Env, intents: Store, jobId: string) returns (v: Intent)
    requires Faithful(env) && IntentStored(env, intents, jobId)
    ensures v.jobId == jobId && SealedIntent(env, v) && intents[jobId] == env.intentFile(v)
    ensures StoredIntent(env, intents, jobId) == Ok(v)
  {
    hide SealedIntent, ReadIntent;
    v :| v.jobId == jobId && SealedIntent(env, v) && intents[jobId] == env.intentFile(v);
    SealedIntentReads(env, v);
  }

  lemma StoredReceiptReads(env: Env, s: State, jobId: string) returns (v: Applied)
    requires Faithful(env) && ReceiptStored(env, s.intents, s.receipts, jobId)
    ensures v.jobId == jobId && SealedApplied(env, v) && s.receipts[jobId] == env.appliedFile(v)
    ensures BindingIntent(env, s.intents, v).Ok?
    ensures ReadApplied(env, jobId, s.receipts[jobId]) == Ok(v)
  {
    hide SealedApplied, ReadApplied, BindingIntent;
    v :| v.jobId == jobId && SealedApplied(env, v) && s.receipts[jobId] == env.appliedFile(v)
      && BindingIntent(env, s.intents, v).Ok?;
    SealedAppliedReads(env, v);
  }

  // ----------------------------------------------------------- each step

  lemma StartOk(env: Env, s: State, call: Process)
    requires call.IntentCall? || call.AppliedCall? || call.AppliedBind?
    requires CallOk(env, s.intents, s.receipts, call)
    ensures call.IntentCall? ==> CallOk(env, s.intents, s.receipts, StartIntent(env, call.submitted))
    ensures call.AppliedCall? ==> CallOk(env, s.intents, s.receipts, StartApplied(env, call.receipt))
    ensures call.AppliedBind? ==> CallOk(env, s.intents, s.receipts, BindApplied(env, s.intents, call.receipt))
  {
    hide IntentMessage, AppliedMessage, ReadIntent, IsSha256Digest, IsRevision, IsLocalBranch;
    if call.IntentCall? {
      SigningIgnoresSignature(env, call.submitted, "");
    } else if call.AppliedBind? {
      SigningAppliedIgnoresSignature(env, call.receipt, "");
    }
  }

  lemma CompareOk(env: Env, s: State, call: Process)
    requires Faithful(env) && Consistent(env, s)
    requires CallOk(env, s.intents, s.receipts, call)
    ensures call.IntentCompare? ==>
      && CallOk(env, s.intents, s.receipts, CompareIntent(env, s.intents, call.sealedIntent))
      && CompareIntent(env, s.intents, call.sealedIntent) ==
           IntentDone(if s.intents[call.sealedIntent.jobId] == env.intentFile(call.sealedIntent)
                      then Ok(call.sealedIntent) else Err(Conflict))
    ensures call.AppliedReadBack? ==>
      && CallOk(env, s.intents, s.receipts, ReadBackApplied(env, s.receipts, call.sealedApplied))
      && ReadBackApplied(env, s.receipts, call.sealedApplied).AppliedCompare?
    ensures call.AppliedCompare? ==>
      && CallOk(env, s.intents, s.receipts, CompareApplied(env, s.intents, call.sealedApplied, call.existing))
      && CompareApplied(env, s.intents, call.sealedApplied, call.existing) ==
           AppliedDone(if call.existing == call.sealedApplied then Ok(call.existing) else Err(Conflict))
  {
    hide SealedIntent, SealedApplied, ReadIntent, ReadApplied, BindingIntent;
    if call.IntentCompare? {
      var v := StoredIntentReads(env, s.intents, call.sealedIntent.jobId);
      assert env.parseIntent(env.intentFile(v)) == Some(v);
      assert env.parseIntent(env.intentFile(call.sealedIntent)) == Some(call.sealedIntent);
    } else if call.AppliedReadBack? {
      var v := StoredReceiptReads(env, s, call.sealedApplied.jobId);
    } else if call.AppliedCompare? {
      var v := StoredReceiptReads(env, s, call.sealedApplied.jobId);
      assert env.parseApplied(env.appliedFile(v)) == Some(v);
      assert env.parseApplied(env.appliedFile(call.existing)) == Some(call.existing);
    }
  }

  lemma PublishOk(env: Env, s: State, call: Process)
    requires Faithful(env) && CallOk(env, s.intents, s.receipts, call)
    ensures call.IntentPublish? ==>
      var v := call.sealedIntent;
      IntentStored(env, s.intents[v.jobId := env.intentFile(v)], v.jobId)
    ensures call.AppliedPublish? ==>
      var v := call.sealedApplied;
      ReceiptStored(env, s.intents, s.receipts[v.jobId := env.appliedFile(v)], v.jobId)
  {
    hide SealedIntent, SealedApplied, BindingIntent;
  }

  lemma MoveConsistent(env: Env, s: State, pid: nat)
    requires Faithful(env) && Consistent(env, s)
    requires pid < |s.calls|
    ensures var t := Move(env, s, pid);
      Consistent(env, t) && Grows(s.intents, t.intents) && Grows(s.receipts, t.receipts)
  {
    hide Consistent, CallOk, IntentStored, ReceiptStored, StartIntent, StartApplied, BindApplied,
         CompareIntent, ReadBackApplied, CompareApplied;
    var call, t := s.calls[pid], Move(env, s, pid);
    CallsOk(env, s, pid);
    if call.IntentCall? || call.AppliedCall? || call.AppliedBind? {
      StartOk(env, s, call);
    }
    CompareOk(env, s, call);
    PublishOk(env, s, call);
    if !call.IntentDone? && !call.AppliedDone? {
      PublishedCallOk(env, s, pid);
      StoresStable(env, s, t);
    }
  }

  lemma CallsOk(env: Env, s: State, pid: nat)
    requires Consistent(env, s) && pid < |s.calls|
    ensures CallOk(env, s.intents, s.receipts, s.calls[pid])
  {
  }

  /** The two publish steps leave their own call in order. */
  lemma PublishedCallOk(env: Env, s: State, pid: nat)
    requires Faithful(env) && pid < |s.calls| && CallOk(env, s.intents, s.receipts, s.calls[pid])
    ensures s.calls[pid].IntentPublish? || s.calls[pid].AppliedPublish? ==>
      var t := Move(env, s, pid);
      CallOk(env, t.intents, t.receipts, t.calls[pid])
  {
    hide SealedIntent, SealedApplied, BindingIntent, StartIntent, StartApplied, BindApplied,
         CompareIntent, ReadBackApplied, CompareApplied;
  }

  // -------------------------------------------------------------- theorems

  /** Every interleaving keeps the stores and every call consistent. */
  lemma {:induction false} AlwaysConsistent(env: Env, ops: seq<Op>)
    requires Faithful(env)
    ensures Consistent(env, Run(env, ops))
  {
    hide CallOk, IntentStored, ReceiptStored, Move;
    if ops != [] {
      var s, op := Run(env, ops[..|ops| - 1]), ops[|ops| - 1];
      AlwaysConsistent(env, ops[..|ops| - 1]);
      match op
      case Advance(pid) =>
        if pid < |s.calls| {
          MoveConsistent(env, s, pid);
        }
      case _ =>
        ArrivalOk(env, s, op);
    }
  }

  lemma ArrivalOk(env: Env, s: State, op: Op)
    requires Consistent(env, s) && !op.Advance?
    ensures Consistent(env, Step(env, s, op))
  {
    var t := Step(env, s, op);
    assert CallOk(env, t.intents, t.receipts, t.calls[|s.calls|]);
    assert forall pid | 0 <= pid < |s.calls| :: t.calls[pid] == s.calls[pid];
  }

  /** Write-once: whatever runs later, a published intent or receipt keeps its bytes. */
  lemma {:induction false} WriteOnce(env: Env, ops: seq<Op>, more: seq<Op>)
    requires Faithful(env)
    ensures Grows(Run(env, ops).intents, Run(env, ops + more).intents)
    ensures Grows(Run(env, ops).receipts, Run(env, ops + more).receipts)
  {
    hide Consistent, Move;
    if more == [] {
      assert ops + more == ops;
    } else {
      var shorter := more[..|more| - 1];
      WriteOnce(env, ops, shorter);
      assert (ops + more)[..|ops + more| - 1] == ops + shorter;
      var s, op := Run(env, ops + shorter), more[|more| - 1];
      AlwaysConsistent(env, ops + shorter);
      if op.Advance? && op.pid < |s.calls| {
        MoveConsistent(env, s, op.pid);
      }
    }
  }

  /** Every call that returned Ok returned the stored value, and validating the
      stored artifact gives it again, now and for ever after; so all Ok results
      for one Job agree. */
  lemma OkResultsAreStored(env: Env, ops: seq<Op>, pid: nat)
    requires Faithful(env)
    requires pid < |Run(env, ops).calls|
    ensures var s := Run(env, ops); var call := s.calls[pid];
      call.IntentDone? && call.intentResult.Ok? ==>
        StoredIntent(env, s.intents, call.intentResult.value.jobId) == Ok(call.intentResult.value)
    ensures var s := Run(env, ops); var call := s.calls[pid];
      call.AppliedDone? && call.appliedResult.Ok? ==>
        var v := call.appliedResult.value;
        && v.jobId in s.receipts
        && ReadApplied(env, v.jobId, s.receipts[v.jobId]) == Ok(v)
        && BindingIntent(env, s.intents, v).Ok?
  {
    hide Run, IntentStored, ReceiptStored, ReadIntent, ReadApplied, BindingIntent, SealedIntent, SealedApplied;
    AlwaysConsistent(env, ops);
    var s := Run(env, ops);
    var call := s.calls[pid];
    if call.IntentDone? && call.intentResult.Ok? {
      var v := StoredIntentReads(env, s.intents, call.intentResult.value.jobId);
      assert env.parseIntent(env.intentFile(v)) == Some(v);
      assert env.parseIntent(env.intentFile(call.intentResult.value)) == Some(call.intentResult.value);
    } else if call.AppliedDone? && call.appliedResult.Ok? {
      var v := StoredReceiptReads(env, s, call.appliedResult.value.jobId);
      assert env.parseApplied(env.appliedFile(v)) == Some(v);
      assert env.parseApplied(env.appliedFile(call.appliedResult.value)) == Some(call.appliedResult.value);
    }
  }

  /** A receipt exists only beside an intent that it matches on every bound
      field and on the digest of the intent's stored bytes, and it names a
      revision different from the one before delivery. */
  lemma ReceiptImpliesIntent(env: Env, ops: seq<Op>, jobId: string) returns (receipt: Applied, intent: Intent)
    requires Faithful(env)
    requires jobId in Run(env, ops).receipts
    ensures var s := Run(env, ops);
      && ReadApplied(env, jobId, s.receipts[jobId]) == Ok(receipt)
      && jobId in s.intents
      && ReadIntent(env, jobId, s.intents[jobId]) == Ok(intent)
      && Bound(receipt, intent, env.sha(s.intents[jobId]))
      && receipt.preRevision != receipt.appliedRevision
  {
    hide Run, IntentStored, ReadIntent, ReadApplied, Bound, CallOk;
    AlwaysConsistent(env, ops);
    var s := Run(env, ops);
    receipt := StoredReceiptReads(env, s, jobId);
    intent := StoredIntent(env, s.intents, jobId).value;
  }

  /** A call that lost the race is told the truth: it succeeds exactly when the
      stored artifact is the one it sealed, and otherwise reports a conflict,
      never a validation failure of the winner's artifact. */
  lemma LoserOutcome(env: Env, ops: seq<Op>, pid: nat)
    requires Faithful(env)
    requires pid < |Run(env, ops).calls|
    ensures var s := Run(env, ops); var call := s.calls[pid];
      && (call.IntentCompare? ==>
            Move(env, s, pid).calls[pid] ==
              IntentDone(if StoredIntent(env, s.intents, call.sealedIntent.jobId) == Ok(call.sealedIntent)
                         then Ok(call.sealedIntent) else Err(Conflict)))
      && (call.AppliedReadBack? ==> Move(env, s, pid).calls[pid].AppliedCompare?)
      && (call.AppliedCompare? ==>
            && call.sealedApplied.jobId in s.receipts
            && ReadApplied(env, call.sealedApplied.jobId, s.receipts[call.sealedApplied.jobId]) == Ok(call.existing)
            && Move(env, s, pid).calls[pid] ==
              AppliedDone(if call.existing == call.sealedApplied then Ok(call.existing) else Err(Conflict)))
  {
    hide Run, IntentStored, ReceiptStored, ReadIntent, ReadApplied, SealedIntent, SealedApplied,
         CompareIntent, CompareApplied;
    AlwaysConsistent(env, ops);
    var s := Run(env, ops);
    var call := s.calls[pid];
    CompareOk(env, s, call);
    if call.IntentCompare? {
      var v := StoredIntentReads(env, s.intents, call.sealedIntent.jobId);
      assert env.parseIntent(env.intentFile(v)) == Some(v);
      assert env.parseIntent(env.intentFile(call.sealedIntent)) == Some(call.sealedIntent);
    } else if call.AppliedCompare? {
      var v := StoredReceiptReads(env, s, call.sealedApplied.jobId);
      assert env.parseApplied(env.appliedFile(v)) == Some(v);
      assert env.parseApplied(env.appliedFile(call.existing)) == Some(call.existing);
    }
  }
}

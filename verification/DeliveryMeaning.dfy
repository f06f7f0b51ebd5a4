/** What the delivery calls accept and what they leave, written out over the
    fields of the artifacts: which submissions are sealed, which are refused, and
    what a correct first call stores. */
module DeliveryMeaning {
  import opened Common
  import opened Framing
  import opened Delivery

  // --------------------------------------------------------------- documents

  ghost predicate Hexadecimal(value: string, digits: nat) {
    |value| == digits && forall i | 0 <= i < |value| ::
      '0' <= value[i] <= '9' || 'a' <= value[i] <= 'f' || 'A' <= value[i] <= 'F'
  }

  ghost predicate Digest(value: string) {
    "sha256:" <= value && Hexadecimal(value[7..], 64)
  }

  ghost predicate Revision(value: string) {
    Hexadecimal(value, 40) || Hexadecimal(value, 64)
  }

  ghost predicate Branch(value: string) {
    "refs/heads/" <= value && |value| > 11
  }

  ghost predicate Located(env: Env, repository: Repository) {
    env.canonicalPath(repository.worktreeRoot) && env.canonicalPath(repository.gitCommonDir)
  }

  /** A well-formed intent, field by field. */
  ghost predicate GoodIntent(env: Env, v: Intent) {
    && !env.blank(v.jobId) && !env.blank(v.runId) && Located(env, v.repository) && Branch(v.targetRef)
    && Digest(v.completionSha) && Digest(v.policySha)
    && Revision(v.preRevision) && Revision(v.sourceRevision) && Revision(v.resultRevision)
  }

  /** A well-formed applied receipt, which moved the target. */
  ghost predicate GoodReceipt(env: Env, v: Applied) {
    && !env.blank(v.jobId) && !env.blank(v.runId) && Located(env, v.repository) && Branch(v.targetRef)
    && Digest(v.intentSha) && Digest(v.completionSha) && Digest(v.policySha)
    && Revision(v.preRevision) && Revision(v.appliedRevision) && Revision(v.sourceRevision) && Revision(v.resultRevision)
    && v.appliedRevision != v.preRevision
  }

  /** The receipt repeats its intent and names it by digest. */
  ghost predicate Repeats(v: Applied, intent: Intent, intentSha: string) {
    && v.intentSha == intentSha
    && (v.jobId, v.runId, v.completionSha, v.repository, v.targetRef)
       == (intent.jobId, intent.runId, intent.completionSha, intent.repository, intent.targetRef)
    && (v.preRevision, v.sourceRevision, v.resultRevision, v.policySha, v.strategy)
       == (intent.preRevision, intent.sourceRevision, intent.resultRevision, intent.policySha, intent.strategy)
  }

  ghost function IntentText(env: Env, v: Intent): string {
    var encoded := env.encodeIntent(v.(signature := ""));
    "deadreckon.git-delivery-intent.v1\0" + BigEndian(|encoded|, 8) + encoded
  }

  ghost function AppliedText(env: Env, v: Applied): string {
    var encoded := env.encodeApplied(v.(signature := ""));
    "deadreckon.applied-git-delivery.v1\0" + BigEndian(|encoded|, 8) + encoded
  }

  ghost predicate CanSignIntent(env: Env, v: Intent) {
    env.key(v.runId).Some? && |env.encodeIntent(v.(signature := ""))| < 0x1_0000_0000_0000_0000
  }

  ghost predicate CanSignApplied(env: Env, v: Applied) {
    env.key(v.runId).Some? && |env.encodeApplied(v.(signature := ""))| < 0x1_0000_0000_0000_0000
  }

  ghost function IntentSigned(env: Env, v: Intent): Intent
    requires CanSignIntent(env, v)
  {
    v.(signature := Sign(env.mac, env.key(v.runId).value, IntentText(env, v)))
  }

  ghost function AppliedSigned(env: Env, v: Applied): Applied
    requires CanSignApplied(env, v)
  {
    v.(signature := Sign(env.mac, env.key(v.runId).value, AppliedText(env, v)))
  }

  // ---------------------------------------------------------- what they mean

  lemma TextsMean(value: string)
    ensures IsSha256Digest(value) <==> Digest(value)
    ensures IsRevision(value) <==> Revision(value)
    ensures IsLocalBranch(value) <==> Branch(value)
  {
    assert IsSha256Digest(value) <==> Digest(value) by {
      DigestMeans(value);
    }
    RevisionMeans(value);
    assert |"refs/heads/"| == 11;
  }

  lemma DigestMeans(value: string)
    ensures IsSha256Digest(value) <==> Digest(value)
  {
    assert |SHA256_PREFIX| == 7;
    if |value| == 71 {
      assert "sha256:" <= value <==> value[..7] == "sha256:";
      assert forall i | 0 <= i < 64 :: value[7..][i] == value[i + 7];
      assert forall i | 7 <= i < 71 :: value[i] == value[7..][i - 7];
    }
  }

  lemma RevisionMeans(value: string)
    ensures IsRevision(value) <==> Revision(value)
  {
    assert forall i | 0 <= i < |value| :: value[i] in value;
  }

  lemma ShapesMean(env: Env, v: Intent, r: Applied)
    ensures IntentShape(env, v) <==> GoodIntent(env, v)
    ensures AppliedShape(env, r) <==> GoodReceipt(env, r)
  {
    hide IsSha256Digest, IsRevision, IsLocalBranch, Digest, Revision, Branch;
    TextsMean(v.completionSha);
    TextsMean(v.policySha);
    TextsMean(v.preRevision);
    TextsMean(v.sourceRevision);
    TextsMean(v.resultRevision);
    TextsMean(v.targetRef);
    TextsMean(r.intentSha);
    TextsMean(r.completionSha);
    TextsMean(r.policySha);
    TextsMean(r.preRevision);
    TextsMean(r.appliedRevision);
    TextsMean(r.sourceRevision);
    TextsMean(r.resultRevision);
    TextsMean(r.targetRef);
  }

  lemma BoundMeans(v: Applied, intent: Intent, intentSha: string)
    ensures Bound(v, intent, intentSha) <==> Repeats(v, intent, intentSha)
  {
  }

  /** Stored bytes validate as an intent exactly when they decode to a well-formed
      one of this Job, signed by its run's key. */
  lemma ReadIntentIff(env: Env, jobId: string, bytes: string, v: Intent)
    ensures ReadIntent(env, jobId, bytes) == Ok(v) <==>
      && env.parseIntent(bytes) == Some(v) && v.jobId == jobId && GoodIntent(env, v) && CanSignIntent(env, v)
      && LowerText(v.signature) == Sign(env.mac, env.key(v.runId).value, IntentText(env, v))
  {
    hide IntentShape, GoodIntent;
    if env.parseIntent(bytes).Some? {
      var u := env.parseIntent(bytes).value;
      ShapesMean(env, u, AnyApplied());
      if CanSignIntent(env, u) {
        SignatureIff(env.mac, env.key(u.runId).value, IntentText(env, u), u.signature);
      }
    }
  }

  lemma ReadAppliedIff(env: Env, jobId: string, bytes: string, v: Applied)
    ensures ReadApplied(env, jobId, bytes) == Ok(v) <==>
      && env.parseApplied(bytes) == Some(v) && v.jobId == jobId && GoodReceipt(env, v) && CanSignApplied(env, v)
      && LowerText(v.signature) == Sign(env.mac, env.key(v.runId).value, AppliedText(env, v))
  {
    hide AppliedShape, GoodReceipt;
    if env.parseApplied(bytes).Some? {
      var u := env.parseApplied(bytes).value;
      ShapesMean(env, AnyIntent(), u);
      if CanSignApplied(env, u) {
        SignatureIff(env.mac, env.key(u.runId).value, AppliedText(env, u), u.signature);
      }
    }
  }

  ghost function AnyIntent(): Intent {
    Intent(0, "", "", 0, "", Repository("", ""), "", "", "", "", "", "", "")
  }

  ghost function AnyApplied(): Applied {
    Applied(0, "", "", 0, "", "", Repository("", ""), "", "", "", "", "", "", "", "")
  }

  // ---------------------------------------------------------------- the calls

  /** `steps` moves of one call, undisturbed. */
  ghost function Advanced(env: Env, s: State, pid: nat, steps: nat): (t: State)
    requires pid < |s.calls|
    ensures |t.calls| == |s.calls|
    decreases steps
  {
    if steps == 0 then s else
      CallsStay(env, s, pid);
      Advanced(env, Move(env, s, pid), pid, steps - 1)
  }

  lemma CallsStay(env: Env, s: State, pid: nat)
    requires pid < |s.calls|
    ensures |Move(env, s, pid).calls| == |s.calls|
  {
    hide StartIntent, StartApplied, BindApplied, CompareIntent, ReadBackApplied, CompareApplied;
  }

  /** A submitted intent goes on to be published, signed, exactly when it is well
      formed, unsigned and can be signed; otherwise the call is over with a
      refusal. Neither stores anything yet. */
  lemma SubmittedIntent(env: Env, s: State, pid: nat, v: Intent)
    requires pid < |s.calls| && s.calls[pid] == IntentCall(v)
    ensures var t := Move(env, s, pid);
      && t.intents == s.intents && t.receipts == s.receipts && |t.calls| == |s.calls|
      && (forall i | 0 <= i < |s.calls| && i != pid :: t.calls[i] == s.calls[i])
      && if GoodIntent(env, v) && v.signature == "" && CanSignIntent(env, v)
         then t.calls[pid] == IntentPublish(IntentSigned(env, v))
         else t.calls[pid] == IntentDone(Err(
           if !GoodIntent(env, v) then BadShape else if v.signature != "" then AlreadySigned
           else if env.key(v.runId).None? then NoKey else TooLarge))
  {
    hide IntentShape, GoodIntent;
    ShapesMean(env, v, AnyApplied());
  }

  /** A correct first call succeeds: it returns the signed intent and stores
      exactly its file. */
  lemma FirstIntentSucceeds(env: Env, s: State, pid: nat, v: Intent)
    requires pid < |s.calls| && s.calls[pid] == IntentCall(v)
    requires GoodIntent(env, v) && v.signature == "" && CanSignIntent(env, v) && v.jobId !in s.intents
    ensures var t := Advanced(env, s, pid, 2);
      && t.calls[pid] == IntentDone(Ok(IntentSigned(env, v)))
      && t.intents == s.intents[v.jobId := env.intentFile(IntentSigned(env, v))] && t.receipts == s.receipts
  {
    SubmittedIntent(env, s, pid, v);
    var t := Move(env, s, pid);
    assert Advanced(env, s, pid, 2) == Advanced(env, t, pid, 1) == Move(env, t, pid);
  }

  /** A submitted receipt first needs to be well formed and unsigned. */
  lemma SubmittedReceipt(env: Env, s: State, pid: nat, v: Applied)
    requires pid < |s.calls| && s.calls[pid] == AppliedCall(v)
    ensures var t := Move(env, s, pid);
      && t.intents == s.intents && t.receipts == s.receipts && |t.calls| == |s.calls|
      && (forall i | 0 <= i < |s.calls| && i != pid :: t.calls[i] == s.calls[i])
      && if GoodReceipt(env, v) && v.signature == "" then t.calls[pid] == AppliedBind(v)
         else t.calls[pid] == AppliedDone(Err(if !GoodReceipt(env, v) then BadShape else AlreadySigned))
  {
    hide AppliedShape, GoodReceipt;
    ShapesMean(env, AnyIntent(), v);
  }

  /** Then it is bound: it goes on to be published, signed, exactly when the Job's
      stored intent validates, the receipt repeats it, and it can be signed. */
  lemma BoundReceipt(env: Env, s: State, pid: nat, v: Applied)
    requires pid < |s.calls| && s.calls[pid] == AppliedBind(v)
    ensures var t := Move(env, s, pid);
      && t.intents == s.intents && t.receipts == s.receipts && |t.calls| == |s.calls|
      && (forall i | 0 <= i < |s.calls| && i != pid :: t.calls[i] == s.calls[i])
      && if && v.jobId in s.intents && ReadIntent(env, v.jobId, s.intents[v.jobId]).Ok?
            && Repeats(v, ReadIntent(env, v.jobId, s.intents[v.jobId]).value, env.sha(s.intents[v.jobId]))
            && CanSignApplied(env, v)
         then t.calls[pid] == AppliedPublish(AppliedSigned(env, v))
         else t.calls[pid].AppliedDone? && t.calls[pid].appliedResult.Err?
  {
    hide ReadIntent, Bound, Repeats;
    if v.jobId in s.intents && ReadIntent(env, v.jobId, s.intents[v.jobId]).Ok? {
      BoundMeans(v, ReadIntent(env, v.jobId, s.intents[v.jobId]).value, env.sha(s.intents[v.jobId]));
    }
  }

  /** A correct first receipt of a Job whose intent is stored succeeds. */
  lemma FirstReceiptSucceeds(env: Env, s: State, pid: nat, v: Applied, intent: Intent)
    requires pid < |s.calls| && s.calls[pid] == AppliedCall(v)
    requires GoodReceipt(env, v) && v.signature == "" && CanSignApplied(env, v) && v.jobId !in s.receipts
    requires v.jobId in s.intents && ReadIntent(env, v.jobId, s.intents[v.jobId]) == Ok(intent)
    requires Repeats(v, intent, env.sha(s.intents[v.jobId]))
    ensures var t := Advanced(env, s, pid, 3);
      && t.calls[pid] == AppliedDone(Ok(AppliedSigned(env, v)))
      && t.receipts == s.receipts[v.jobId := env.appliedFile(AppliedSigned(env, v))] && t.intents == s.intents
  {
    hide ReadIntent, Repeats, GoodReceipt;
    SubmittedReceipt(env, s, pid, v);
    var t := Move(env, s, pid);
    BoundReceipt(env, t, pid, v);
    CallsStay(env, t, pid);
    var u := Move(env, t, pid);
    assert Advanced(env, s, pid, 3) == Advanced(env, t, pid, 2) == Advanced(env, u, pid, 1) == Move(env, u, pid);
  }

  /** A refused call never stores anything: only the publishing step writes, the
      call's own artifact, for a Job that has none. */
  lemma OnlyPublishingWrites(env: Env, s: State, pid: nat)
    requires pid < |s.calls|
    ensures var t := Move(env, s, pid);
      && (t.intents != s.intents ==>
            && s.calls[pid].IntentPublish? && s.calls[pid].sealedIntent.jobId !in s.intents
            && t.intents == s.intents[s.calls[pid].sealedIntent.jobId := env.intentFile(s.calls[pid].sealedIntent)]
            && t.calls[pid] == IntentDone(Ok(s.calls[pid].sealedIntent)))
      && (t.receipts != s.receipts ==>
            && s.calls[pid].AppliedPublish? && s.calls[pid].sealedApplied.jobId !in s.receipts
            && t.receipts == s.receipts[s.calls[pid].sealedApplied.jobId := env.appliedFile(s.calls[pid].sealedApplied)]
            && t.calls[pid] == AppliedDone(Ok(s.calls[pid].sealedApplied)))
  {
    hide StartIntent, StartApplied, BindApplied, CompareIntent, ReadBackApplied, CompareApplied;
  }

  /** A stored receipt, in every interleaving, repeats its stored intent field by
      field. */
  lemma StoredReceiptRepeats(env: Env, ops: seq<Op>, jobId: string) returns (receipt: Applied, intent: Intent)
    requires Faithful(env) && jobId in Run(env, ops).receipts
    ensures var s := Run(env, ops);
      && ReadApplied(env, jobId, s.receipts[jobId]) == Ok(receipt) && GoodReceipt(env, receipt)
      && jobId in s.intents && ReadIntent(env, jobId, s.intents[jobId]) == Ok(intent) && GoodIntent(env, intent)
      && Repeats(receipt, intent, env.sha(s.intents[jobId]))
  {
    hide Run, ReadIntent, ReadApplied, GoodReceipt, GoodIntent, Repeats, Bound;
    receipt, intent := ReceiptImpliesIntent(env, ops, jobId);
    var s := Run(env, ops);
    BoundMeans(receipt, intent, env.sha(s.intents[jobId]));
    ReadIntentIff(env, jobId, s.intents[jobId], intent);
    ReadAppliedIff(env, jobId, s.receipts[jobId], receipt);
  }
}

# DeadReckon evidence protocols in Dafny

DeadReckon runs coding agents and leaves evidence of what they did. This project
models the parts of it whose value is that evidence, and proves what they
promise:

- the parent-repair lineage, completion receipts and receipt audit of
  `completion.rs` (`Lineage`, `LineageFacts`, `LineageMeaning`, `Completion`,
  `ReceiptMeaning`, `Audit`);
- the durable chain-hook ledger of `chain.rs` with its JSON canonicalisation
  (`Json`, `HookEvents`, `HookLedger`, `LedgerMeaning`);
- the Git delivery authority and operation lock of `delivery.rs` (`Delivery`,
  `DeliveryMeaning`, `OperationLock`) and the signed-message framing (`Framing`);
- the live-trial recorder of `live-trial.py` (`LiveTrial`, `TrialMeaning`);
- the algorithms around them: rooted and pruned copying (`Files`, `LeafCopy`,
  `RootedCopy`, `PrunedCopy`), path policy (`PathPolicy`), phases (`Phases`), HTML text
  (`Html`), line hunks (`Hunks`), UTF-8 cuts (`Truncation`) and campaign
  roll-up (`Campaign`).

`dafny verify dfyconfig.toml` checks everything.

## How the model is made

- SHA-256, the MAC, serde, the clock, the trusted helper and Git are function
  values or fields that every theorem quantifies over. The only facts used of
  them are stated as `requires`: digests have the shape `sha256:` and 64
  hexadecimal digits, and reading a written artifact gives the value written.
- Nothing assumes that a digest has no collision. A theorem that would need it
  returns the colliding pair instead.
- Code that updates state is a class or a method with loops, tied by its
  `ensures` to a specification function; runs are folds of a step function over
  arbitrary sequences of operations, so a theorem about `Run` is one about every
  reachable state. Concurrent calls advance by single file accesses in any order.
- The `Meaning` modules write acceptance out over fields, files and events, without
  the checks they describe, and prove both directions.
- Paths are lists of the components that Rust's `components()` yields, so an inner
  `.` or a doubled slash does not show in them.
- Text and bytes are sequences with one element per byte. Error texts are
  enumerations, one constructor for each message that is told apart.

## Where the code does less than its documentation or a reader may expect

- Sealing a receipt does not refuse a Job id that differs from the run id;
  validation then never returns the receipt (`Completion.DistinctIdsSeal`, exact
  condition in `Completion.SealThenValidate`).
- A live-trial intervention recorded as "not performed" can be recorded again,
  and only then (`LiveTrial.InterventionRewritable`); cleanup does not stop later
  captures (`LiveTrial.CleanupDoesNotFreezeCaptures`).
- A refused manual `observe` can leave raw files that block their evidence for
  good (`LiveTrial.RefusedObserveLeavesOrphan`, `LiveTrial.OrphanIsPermanent`).
  It leaves the raw directory alone exactly when an early check refuses it or its
  first request is not written (`LiveTrial.ObserveLeavesRawIff`); the files left
  are those of `LiveTrial.OrphansOfRefusal`.
- A leaf copy removes before it reads again. A source whose path goes through the
  leaf is lost; one reached through a link that gives way to the target's
  directory is lost too, or another file's content is copied in its place
  (`LeafCopy.OtherContentCopied`). `LeafCopy.LeafCopiedIff` says exactly when a copy
  succeeds and what it copies, on every tree with links. On plain paths the loss
  is a copy of a leaf onto itself, and, without a root, below itself
  (`RootedCopy.CopiesUnlessSame`, `LeafCopy.LeafCopiesUnlessAbove`).
- An unusable source of a rooted copy is found only after missing directories were
  created (`RootedCopy.CopyFacts`).
- `ensure_directory_target` says that links are replaced, not followed. A link
  above a directory that exists behind it is followed and left
  (`LeafCopy.LinkIsFollowed`); the promise holds exactly when no link stands above
  the end of the longest part of the path that is there
  (`LeafCopy.StaysIffNoLinkAbove`). Rooted copying checks every component first.
- Budget shares of a negative total lose the remainder, because the division
  truncates towards zero (`Campaign.NegativeSharesLose`, exact condition in
  `Campaign.SharesFacts`).
- An empty group makes a nested roll-up refused although no leaf is
  (`Campaign.EmptyGroupRefuses`, exact condition in `Campaign.NestedWorstOf`).

## Model

| member | source | states |
|---|---|---|
| `Lineage.ValidateLineage` | crates/deadreckon-core/src/completion.rs:780-960 | The loop that walks archived repair rounds from newest to oldest, moving `newer` and `current_round`, returns the verdict of the recursive walk `Validate` for every disk, with the same refusal, and terminates on the round number. |
| `LineageFacts.AcceptedIffWhole` | crates/deadreckon-core/src/completion.rs:780-960 | The walk accepts exactly when the declarative statement holds: the active trio is present and passes, every archived round from n-1 down to 1 is there, passes its own checks and is linked by chain digest, round number, tree and attempt to the next, and round 1 starts from the merged tree. |
| `LineageFacts.WalkIff` | crates/deadreckon-core/src/completion.rs:884-955 | By induction on the round number: the walk below round k succeeds exactly when rounds k-1 to 1 are unbroken. |
| `LineageFacts.RoundsOrdered` | crates/deadreckon-core/src/completion.rs:884-955 | Any two rounds of an accepted lineage, however far apart, have strictly increasing attempts, non-decreasing lease epochs and one merged run. |
| `LineageFacts.AcceptedLineageFacts` | crates/deadreckon-core/src/completion.rs:780-960 | n accepted rounds: attempts strictly increase, round k ran at attempt k+1 or later, n is at most the attempt limit less one, epochs never decrease, the newest attempt is the current one, trees form one path from the merged tree to the current result, and the history holds n different attempt starts, returned by position. |
| `LineageFacts.RoundFacts` | crates/deadreckon-core/src/completion.rs:988-1144 | What the intent and attempt checks of one round establish: round, epoch, limits, digests of marker and judgment, and the attempt start in the history. |
| `LineageFacts.ChainTextBinds` | crates/deadreckon-core/src/completion.rs:970-985 | The chain text frames its five digests: equal texts have equal digests in every slot. |
| `LineageFacts.SameDigestSameFiles` | crates/deadreckon-core/src/completion.rs:970-985 | Equal round chain digests mean five identical files, or a collision is returned. |
| `LineageFacts.EarlierRoundsUnique` | crates/deadreckon-core/src/completion.rs:884-955 | Induction down the chain: one intent fixes all five files of every earlier round in both archives, or a collision is returned. |
| `LineageFacts.ArchiveUnique` | crates/deadreckon-core/src/completion.rs:780-985 | Two accepted archives with the same active intent bytes are identical in all files of all earlier rounds, in length, and in the active marker and judgment, or two different inputs with one digest are returned. |
| `LineageMeaning.RoundOkIff` | crates/deadreckon-core/src/completion.rs:988-1144 | A round passes the intent and attempt checks exactly when it is genuine: its documents are of this Job and one repair, within its limits, with digests of their own files, asked for by a contained native pass and a revise judgment of this run, and shown by the four events in the Job history, all written out by field. |
| `LineageMeaning.AcceptedIsGenuine` | crates/deadreckon-core/src/completion.rs:780-985 | Every accepted lineage is genuine: files on disk, decoded documents, genuine rounds, each continuing the one before and naming its five files by the chain text, from the merged tree to the current result and attempt; what is handed on are the active manifest and candidate bytes. |
| `LineageMeaning.GenuineIsAccepted` | crates/deadreckon-core/src/completion.rs:780-985 | Every genuine lineage is accepted. |
| `LineageMeaning.TrioIff` | crates/deadreckon-core/src/completion.rs:786-815 | There is nothing to validate exactly when none of the three active files is there; some without the others are refused as incomplete. |
| `LineageMeaning.AttemptCountIs` | crates/deadreckon-core/src/job.rs:444-486 | The current attempt is the number of different attempt starts in the history, up to 32 bits. |
| `Completion.SealThenValidate` | crates/deadreckon-core/src/completion.rs:171-301 | If sealing succeeds with the authority and judgment that are on disk, strict validation of the world it leaves returns exactly the sealed receipt if and only if Job id and run id agree. |
| `Completion.DistinctIdsSeal` | crates/deadreckon-core/src/completion.rs:171-301 | Sealing does not refuse different Job and run ids: for any two, and in every faithful environment that can read the documents, a world in which it seals a receipt that validation does not return. |
| `Completion.ReceiptNeedsLineage` | crates/deadreckon-core/src/completion.rs:171-194 | A receipt is sealed, and a receipt validates, only where the lineage validator accepted a whole lineage or found none of its three active files. |
| `Completion.SealedDescribesWorld` | crates/deadreckon-core/src/completion.rs:171-301 | Every sealed receipt tells the truth about its world: goal, policy, contract, launch plan and authority digests are those of the Job and its files, and containment is the validated marker’s. |
| `Completion.SealedDescribesResult` | crates/deadreckon-core/src/completion.rs:171-301 | Its attempt (positive) and launch are the observed ones, its tree, projection and revision those of the world; on a worktree the revision is both the branch and the head. |
| `Completion.SealedReads` | crates/deadreckon-core/src/completion.rs:171-301 | Writing the receipt changes no other answer of the world: marker, digests, Job, authority inputs, observation and evidence stay. |
| `Completion.SealedFiles` | crates/deadreckon-core/src/completion.rs:290-301 | Sealing writes the receipt in the Job’s directory and changes nothing else. |
| `Completion.SealedSignature` | crates/deadreckon-core/src/completion.rs:2061-2107 | The signature of every sealed receipt verifies. |
| `Completion.StrictDigests` | crates/deadreckon-core/src/completion.rs:455-757 | An accepted receipt carries the digests of the observation, authority, launch plan, marker, judgment, execution evidence and result tree of the world it was validated in. |
| `Completion.ReceiptPinsFiles` | crates/deadreckon-core/src/completion.rs:455-757 | Two worlds in which one receipt validates agree on the authority, launch plan, marker, judgment and observation bytes and on the result tree; on a durable chain also on the candidate manifest and both ledgers, present or absent; or a collision is returned. |
| `Completion.ReceiptPinsContent` | crates/deadreckon-core/src/completion.rs:1336-1411 | The two worlds agree besides on the authority, the goal, the encoded policy, the contract file and the projection, or a collision is returned. |
| `ReceiptMeaning.StrictIsGenuine` | crates/deadreckon-core/src/completion.rs:455-757 | A receipt that validates is genuine, written out over the world: read from its file, of this run, verified twice, authorised in goal, plan, policy, judge, sandbox and contract, at its boundary, observed, with the digests of its files, judged achieved with met and evidenced coverage, with a native contained marker after the lineage, with its projection and tree, and signed by the gate key over the framed encoding. |
| `ReceiptMeaning.GenuineIsStrict` | crates/deadreckon-core/src/completion.rs:455-757 | Every genuine receipt validates. |
| `ReceiptMeaning.SealIff` | crates/deadreckon-core/src/completion.rs:171-301 | Sealing gives a receipt exactly where it may seal (Job, ids, native contained marker, achieved judgment with evidence, authority) and exactly the one that reports the world, signed in lower-case hexadecimal. |
| `ReceiptMeaning.SignatureMeans` | crates/deadreckon-core/src/completion.rs:2072-2107 | The signature check passes exactly for the hexadecimal, in either case, of the MAC of magic, 64-bit length and unsigned encoding under the run’s key. |
| `ReceiptMeaning.JudgmentMeans` | crates/deadreckon-core/src/completion.rs:1321-1334 | The judgment check passes exactly for an achieved judgment of the receipt’s ids with coverage, nothing missing, and every item met with evidence. |
| `ReceiptMeaning.InputsMean` | crates/deadreckon-core/src/completion.rs:1336-1411 | The authority check passes exactly when goal, launch plan, authority, policy, judge mode, containment, tools and strict contract all hold. |
| `ReceiptMeaning.BoundaryMeans` | crates/deadreckon-core/src/completion.rs:1470-1600 | The result boundary: in place, or a worktree on the authorised base at its branch, or at a promoted receipt’s revision, with good history, matching the receipt or the head. |
| `ReceiptMeaning.EvidenceMeans` | crates/deadreckon-core/src/completion.rs:131-169 | A durable chain, and only that, carries the digests of its manifest and of the ledgers that exist. |
| `Audit.Builder.Record` | crates/deadreckon-core/src/completion.rs:404-434 | One check: the submitted list grows by its outcome, the first error is kept, a failed fail-fast audit neither runs the closure nor shows a fact, any other audit runs it once and returns its value. |
| `Audit.AuditReceipt` | crates/deadreckon-core/src/completion.rs:455-757 | In both modes: the facts shown are the planned ones (cut after the first failure when fail-fast), the first error is the first failing fact, the closures run are exactly those whose facts are shown, a missing error comes with a receipt, and the collapsed result equals the strict validator. |
| `Audit.StrictIsFirstFailure` | crates/deadreckon-core/src/completion.rs:361-444 | The strict validator refuses with the first failing planned fact, or returns the loaded receipt when none fails. |
| `Audit.FailFastIsPrefix` | crates/deadreckon-core/src/completion.rs:361-444 | Fail-fast facts are the prefix of the collected facts that ends at the first failure, and all of them when there is none. |
| `Audit.SuccessShowsAllFacts` | crates/deadreckon-core/src/completion.rs:455-757 | An audit without failure has exactly the 19 facts, in order, all passed. |
| `Audit.CutAppend` | crates/deadreckon-core/src/completion.rs:391-444 | How the fail-fast cut and the first failure of a list extend when facts are appended. |
| `Framing.HexRoundTrip` | crates/deadreckon-core/src/completion.rs:2135-2163 | Decoding inverts encoding for every byte string. |
| `Framing.HexEncodeLoop` | crates/deadreckon-core/src/delivery.rs:663-671 | The encoding loop computes the two digits of every byte in order. |
| `Framing.DigitsAre` | crates/deadreckon-core/src/delivery.rs:663-671 | The sixteen digits are 0 to 9 and a to f. |
| `Framing.HexDecodeIff` | crates/deadreckon-core/src/delivery.rs:673-691 | The decoder accepts exactly the even-length texts of hexadecimal digits of either case, and re-encoding gives the text in lower case. |
| `Framing.FramePrefixFree` | crates/deadreckon-core/src/delivery.rs:508-539 | No framed message of any of the three kinds is a proper prefix of another, so framing is injective in kind and encoded value. |
| `Framing.SignatureIff` | crates/deadreckon-core/src/completion.rs:2061-2107 | A signature text verifies exactly when it is the sealed one up to letter case. |
| `Framing.SealedVerifies` | crates/deadreckon-core/src/delivery.rs:491-506 | What signing produces, verification accepts, for every key and message. |
| `Json.CanonicalIffSame` | crates/deadreckon-core/src/chain.rs:143-163 | Canonical forms are equal exactly when the JSON values agree up to object member order at every depth (the last of repeated members counts). |
| `Json.CanonicalIdempotent` | crates/deadreckon-core/src/chain.rs:143-163 | Canonicalising a canonical value changes nothing. |
| `Json.CanonicalSame` | crates/deadreckon-core/src/chain.rs:143-155 | A value and its canonical form agree up to member order. |
| `HookEvents.StartVerifiesIff` | crates/deadreckon-core/src/chain.rs:445-543 | An event built by `started` verifies exactly when its hook verifies and its chain id is not blank; the payload part never fails, and the stored payload decodes to the canonical form. |
| `HookEvents.CompleteVerifies` | crates/deadreckon-core/src/chain.rs:488-543 | A completion built from a verified start verifies, records the given outcome, and gives the start back when the outcome is forgotten. |
| `HookEvents.PayloadIdentity` | crates/deadreckon-core/src/chain.rs:157-179 | Reordered payloads get the same digest and invocation id; payloads that differ in more than order get different ones, or a collision is returned. |
| `HookEvents.InvocationBinds` | crates/deadreckon-core/src/chain.rs:165-179 | Within one Job equal invocation ids mean equal chain id, hook name, step, attempt, hook identity and payload digest, or a collision is returned. |
| `HookEvents.DecimalInjective` | crates/deadreckon-core/src/chain.rs:165-179 | Decimal numerals in the invocation text are unambiguous. |
| `LedgerMeaning.DecimalIs` | crates/deadreckon-core/src/chain.rs:165-179 | Numbers in the invocation text are plain decimal without leading zeros. |
| `LedgerMeaning.VerifiedIff` | crates/deadreckon-core/src/chain.rs:113-135 | Evidence verifies exactly when it is genuine: hook digests over its own fields, canonical payload, payload digest, invocation digest over the NUL-joined coordinate, attempt from one, and an outcome exactly for a completion, all written out. |
| `HookLedger.Ledger.Append` | crates/deadreckon-core/src/chain.rs:622-682 | Under a current lease the log becomes the old log, with the event added exactly when the decision is to record it; every refusal and every repeat leaves it unchanged. |
| `LedgerMeaning.DecideIff` | crates/deadreckon-core/src/chain.rs:622-682 | On a sound log an event is recorded exactly when Job, evidence, lease, slot payloads and, for a completion, its start are right and its invocation has no event of the kind; it is taken as a repeat exactly when all that holds and it is on record. |
| `LedgerMeaning.FencedIff` | crates/deadreckon-core/src/job_lease.rs:352-375 | The fence passes exactly when Job, owner, epoch and boot id are the lease’s, it has not run out, and the Job goes on. |
| `LedgerMeaning.StaleTokenRefused` | crates/deadreckon-core/src/chain.rs:622-636 | Whatever is submitted with a token that is not the current lease is refused; another owner, epoch or boot id as stale. |
| `LedgerMeaning.RefusalIs` | crates/deadreckon-core/src/chain.rs:622-682 | The reason for a refusal on a sound log: Job, evidence, lease, slot payload, missing start or conflicting evidence, in this order. |
| `HookLedger.Ledger.ReusableCompletion` | crates/deadreckon-core/src/chain.rs:549-588 | The lookup loop returns the verdict of the specification `Reusable`. |
| `HookLedger.RecordKeepsSound` | crates/deadreckon-core/src/chain.rs:622-682 | An accepted append keeps the invariant: verified events of this Job, one event per invocation and kind, one payload per hook, step, attempt and kind, and an exact start earlier than every completion. |
| `HookLedger.ReachableSound` | crates/deadreckon-core/src/chain.rs:622-682 | Every ledger reachable from empty by any run of appends and lease changes satisfies that invariant. |
| `HookLedger.AppendOnly` | crates/deadreckon-core/src/chain.rs:622-682 | Later states extend earlier ones. |
| `HookLedger.RecordedIsReaccepted` | crates/deadreckon-core/src/chain.rs:622-682 | On a sound ledger a recorded event is accepted again, unchanged, under any current token. |
| `HookLedger.RetryIsIdempotent` | crates/deadreckon-core/src/chain.rs:622-682 | An event accepted once is accepted in every later state of every run and changes nothing. |
| `HookLedger.FirstMatchSuffices` | crates/deadreckon-core/src/chain.rs:639-653 | On a sound ledger the first match of a slot agrees in payload exactly when all matches do. |
| `HookLedger.SearchFacts` | crates/deadreckon-core/src/chain.rs:549-588 | The lookup on any suffix of a sound ledger, as facts about the events at the coordinate. |
| `HookLedger.LookupOnReachable` | crates/deadreckon-core/src/chain.rs:549-588 | On reachable ledgers the lookup never meets a duplicate or unverified event; it refuses exactly when an event at the coordinate has another payload or invocation; Some is a recorded completion with its exact start earlier; None means no completion there. |
| `LedgerMeaning.LookupIff` | crates/deadreckon-core/src/chain.rs:549-588 | On every reachable ledger, by the fields of the coordinate: the answer is the completion recorded there, none if there is none, and a refusal exactly when something there has another payload or invocation. |
| `HookLedger.CompletionsAreBuiltFromStarts` | crates/deadreckon-core/src/chain.rs:488-508 | Every completion in a reachable ledger is field for field what `completed` builds from an earlier recorded start, or a collision is returned. |
| `Delivery.MoveConsistent` | crates/deadreckon-core/src/delivery.rs:218-345 | Each single file access of any seal call keeps the stores sound, grows them only, and keeps every call’s assumptions. |
| `Delivery.AlwaysConsistent` | crates/deadreckon-core/src/delivery.rs:218-345 | Every interleaving of any number of seal calls keeps the invariant. |
| `Delivery.WriteOnce` | crates/deadreckon-core/src/delivery.rs:547-570 | A published intent or receipt keeps its bytes whatever runs later. |
| `Delivery.OkResultsAreStored` | crates/deadreckon-core/src/delivery.rs:218-345 | Every call that returned Ok returned the stored value, and validating the stored artifact gives it again. |
| `Delivery.ReceiptImpliesIntent` | crates/deadreckon-core/src/delivery.rs:359-401 | A stored receipt has a stored, valid intent that it matches on every bound field and on the digest of the intent’s bytes, and its applied revision differs from the one before. |
| `Delivery.LoserOutcome` | crates/deadreckon-core/src/delivery.rs:218-310 | A call that lost the race succeeds exactly when the stored artifact, read and validated, is the one it sealed, and otherwise reports a conflict; reading the stored receipt back never fails. |
| `Delivery.SealedIntentReads` | crates/deadreckon-core/src/delivery.rs:249-275 | A sealed intent read back from its own file validates to itself. |
| `Delivery.SealedAppliedReads` | crates/deadreckon-core/src/delivery.rs:312-345 | A sealed applied receipt read back from its own file validates to itself. |
| `Delivery.SigningIgnoresSignature` | crates/deadreckon-core/src/delivery.rs:465-516 | Signing an intent ignores the signature field and is stable. |
| `Delivery.SigningAppliedIgnoresSignature` | crates/deadreckon-core/src/delivery.rs:478-526 | Signing a receipt ignores the signature field and is stable. |
| `DeliveryMeaning.SubmittedIntent` | crates/deadreckon-core/src/delivery.rs:218-236 | A submitted intent goes on to be published, signed, exactly when it is well formed by field, unsigned, and its run has a key; otherwise the call ends in a refusal. Nothing is stored yet. |
| `DeliveryMeaning.FirstIntentSucceeds` | crates/deadreckon-core/src/delivery.rs:218-247 | A correct first call returns the signed intent and stores exactly its file. |
| `DeliveryMeaning.BoundReceipt` | crates/deadreckon-core/src/delivery.rs:277-300 | A submitted receipt goes on to be published, signed, exactly when the stored intent validates, every bound field and the digest repeat it, and its run has a key. |
| `DeliveryMeaning.FirstReceiptSucceeds` | crates/deadreckon-core/src/delivery.rs:277-310 | A correct first receipt of a Job with a stored intent succeeds and stores exactly its file. |
| `DeliveryMeaning.OnlyPublishingWrites` | crates/deadreckon-core/src/delivery.rs:547-570 | Only the publishing step writes, its own artifact, for a Job that has none, and then the call succeeds; a refused call stores nothing. |
| `DeliveryMeaning.ReadIntentIff` | crates/deadreckon-core/src/delivery.rs:249-275 | Stored bytes validate as an intent exactly when they decode to a well-formed one of the Job, signed by its run’s key over the framed encoding. |
| `DeliveryMeaning.ReadAppliedIff` | crates/deadreckon-core/src/delivery.rs:312-345 | Stored bytes validate as a receipt exactly when they decode to a well-formed one of the Job that moved the target, signed by its run’s key. |
| `DeliveryMeaning.ShapesMean` | crates/deadreckon-core/src/delivery.rs:347-463 | The shape checks by field: digests are `sha256:` and 64 hexadecimal digits, revisions 40 or 64, the target a named local branch, ids not blank, paths canonical. |
| `DeliveryMeaning.StoredReceiptRepeats` | crates/deadreckon-core/src/delivery.rs:379-401 | In every interleaving a stored receipt repeats its stored intent field by field. |
| `OperationLock.RunKeepsInvariant` | crates/deadreckon-core/src/delivery.rs:66-158 | In every run without unlink, all open lock files are the file at the path, holders hold a lock, every lock has a holder, and no two calls hold the same. |
| `OperationLock.RefusedIffHeld` | crates/deadreckon-core/src/delivery.rs:66-158 | A call that has checked its file is refused exactly when some call holds the lock, and otherwise gets it. |
| `OperationLock.DropFrees` | crates/deadreckon-core/src/delivery.rs:44-50 | After the holder drops, nothing is locked and no call holds. |
| `OperationLock.UndisturbedAcquire` | crates/deadreckon-core/src/delivery.rs:66-124 | After any run without unlink, an acquire that runs undisturbed creates the file or opens the one there is, and gets the lock exactly when no call holds it and the path is no other kind of node. |
| `OperationLock.AtMostOneHolder` | crates/deadreckon-core/src/delivery.rs:66-124 | Mutual exclusion over every interleaving of acquires, probes and drops. |
| `OperationLock.PathIsStable` | crates/deadreckon-core/src/delivery.rs:28-50 | The lock file, once created, stays the one file. |
| `OperationLock.ProbesCreateNothing` | crates/deadreckon-core/src/delivery.rs:126-158 | Probes create nothing. |
| `OperationLock.UnlinkBreaksExclusion` | crates/deadreckon-core/src/delivery.rs:44-50 | Why dropping does not unlink: a run in which one unlink lets two calls hold the lock. |
| `LiveTrial.EvidenceIndex` | examples/watchkeeper-dogfood/live-trial.py:472-510 | The index loop succeeds exactly when every declaration is well formed, names differ and the two phases partition the names; it then maps each name to its declaration. |
| `LiveTrial.Recorder.RunObserve` | examples/watchkeeper-dogfood/live-trial.py:903-1032 | The command with its capture loop has exactly the effect `ObserveResult` on the saved state and the raw directory, refusals included. |
| `LiveTrial.Recorder.RunCleanup` | examples/watchkeeper-dogfood/live-trial.py:1035-1079 | Guards, the search for missing after evidence, the helper and the save come to `CleanupResult`; an accepted cleanup was undecided before, changes nothing but the cleanup record, and in trusted mode is completed only with all required after evidence. |
| `TrialMeaning.StatusObserveIff` | examples/watchkeeper-dogfood/live-trial.py:924-971 | `observe` with a status is accepted exactly when it stands alone, the outcome is open, and a performed one has its detail, all before evidence and, if trusted, the helper; it then records exactly that status, time and digest and changes nothing else. |
| `TrialMeaning.ManualObserveIff` | examples/watchkeeper-dogfood/live-trial.py:972-1032 | In manual mode `observe` without a status is accepted exactly when every request is declared in this phase, new, regular and valid; it then adds exactly those captures and raw files with their text and time. |
| `TrialMeaning.TrustedObserveIff` | examples/watchkeeper-dogfood/live-trial.py:972-1032 | In trusted mode it is accepted exactly when every subject is declared in this phase, new and answered by the helper; it then adds exactly the helper’s captures. |
| `TrialMeaning.CleanupIff` | examples/watchkeeper-dogfood/live-trial.py:1035-1079 | `cleanup` is accepted exactly when its outcome is open and a completed one has its detail and, if trusted, all after evidence and the helper; it then records exactly that. |
| `LiveTrial.AlwaysOrdered` | examples/watchkeeper-dogfood/live-trial.py:903-1079 | After every command sequence: an after capture exists only once the intervention is performed, and a performed intervention implies all required before evidence; each step keeps what was recorded. |
| `LiveTrial.RecordedIsKept` | examples/watchkeeper-dogfood/live-trial.py:903-1079 | Over any later commands captures are never altered, a decided intervention and a decided cleanup stay, and a performed intervention freezes the before set. |
| `LiveTrial.MissingIsReported` | examples/watchkeeper-dogfood/live-trial.py:3344-3380 | Missing required evidence, and only that, yields an inconclusive assertion. |
| `LiveTrial.PassedIffComplete` | examples/watchkeeper-dogfood/live-trial.py:3321-3413 | The evaluation of any recorded run passes exactly with trusted mode, a contained backend and allowed result, a performed intervention, all required evidence, at least one oracle and all oracles passed, and a completed cleanup. |
| `LiveTrial.FailedIff` | examples/watchkeeper-dogfood/live-trial.py:3057-3091 | It fails exactly when a digested intervention was performed and an oracle failed, or nothing is missing or open and the cleanup failed. |
| `TrialMeaning.VerdictIs` | examples/watchkeeper-dogfood/live-trial.py:3057-3091 | A trial has not run exactly when nothing was captured and the intervention is not performed. |
| `TrialMeaning.FreshTrial` | examples/watchkeeper-dogfood/live-trial.py:513-640 | A prepared trial has nothing captured, nothing decided and no raw file. |
| `LiveTrial.InterventionRewritable` | examples/watchkeeper-dogfood/live-trial.py:903-1032 | The outcome is decided once exactly when it is not "not performed": recording that status succeeds if and only if the recorded one is still that. |
| `LiveTrial.CleanupDoesNotFreezeCaptures` | examples/watchkeeper-dogfood/live-trial.py:903-1079 | `observe` behaves the same before and after cleanup. |
| `LiveTrial.OrphanIsPermanent` | examples/watchkeeper-dogfood/live-trial.py:903-1032 | In manual mode a raw file without a capture blocks its evidence through all later commands. |
| `LiveTrial.RefusedObserveLeavesOrphan` | examples/watchkeeper-dogfood/live-trial.py:903-1032 | For any two names, a well-formed trial and a refused manual `observe` that leaves the first as a raw file without a capture. |
| `LiveTrial.ObserveLeavesRawIff` | examples/watchkeeper-dogfood/live-trial.py:903-1032 | In manual mode `observe` leaves the raw directory unchanged if and only if an early check refuses it or its first request is not written (not admitted, no regular source, or a raw file already there). |
| `LiveTrial.OrphansOfRefusal` | examples/watchkeeper-dogfood/live-trial.py:971-1016 | A refusal after the early checks adds raw files, all new and without capture, for exactly the requests before the refused one, and for that one when its content was refused; no raw file is altered. |
| `LiveTrial.GuardsLeaveRaw` | examples/watchkeeper-dogfood/live-trial.py:903-972 | A refusal by the early checks leaves the raw evidence files unchanged in both modes. |
| `LeafCopy.FileTree.EnsureDirectoryComponent` | crates/deadreckon-core/src/artifacts.rs:670-687 | An existing directory is accepted, another node refused, a missing one created if its parent is a directory; nothing else changes. |
| `LeafCopy.FileTree.EnsureDirectoryTarget` | crates/deadreckon-core/src/artifacts.rs:781-813 | The recursion equals a closed form on every well-formed tree with links: the longest part of the path that is there becomes a directory, if the path still leads to it once what it names is gone, and the plain names after it are laid out below. |
| `LeafCopy.EnsureTargetFacts` | crates/deadreckon-core/src/artifacts.rs:781-813 | Success: the path leads to a directory, namely the rest of the path below where its longest present part leads. Success without change exactly when it led to a directory already. One node at most gives way, all others stay, and only directories below it are new; it is lost only if it is a link on its own path. |
| `LeafCopy.StaysIffNoLinkAbove` | crates/deadreckon-core/src/artifacts.rs:781-813 | A link is replaced and not followed, so that the directory is made at the path itself, if and only if no link stands above the end of the longest part of the path that is there. |
| `LeafCopy.LinkIsFollowed` | crates/deadreckon-core/src/artifacts.rs:781-790 | For any names, a tree in which a link to a directory that has the next name is followed and left in place. |
| `RootedCopy.EnsureAncestors` | crates/deadreckon-core/src/artifacts.rs:655-667 | The component loop succeeds exactly when no node between root and leaf is a non-directory; it then adds exactly the missing directories, and otherwise changes nothing. |
| `LeafCopy.FileTree.CopyLeaf` | crates/deadreckon-core/src/artifacts.rs:583-608 | The leaf copy, for any target that names a leaf: refusal of a non-empty target directory or an unusable source, the target’s directory made, the target cleared, the source read again and put in place. |
| `LeafCopy.LeafCopyFacts` | crates/deadreckon-core/src/artifacts.rs:583-608 | Success: the node is at the leaf below the longest present part of the target’s directory; it is the source node seen first unless the source path went through the node that gave way; all other nodes stay and only directories down to the leaf are new. The first three refusals change nothing, a refused directory leaves what making it left, and a lost source that without the leaf. |
| `LeafCopy.LeafCopiedIff` | crates/deadreckon-core/src/artifacts.rs:583-608 | When a copy succeeds and with what, on every well-formed tree with links. A source not reached through the node that gives way: exactly when neither its path nor the way to the target’s directory goes through the leaf, and then with the node seen first. A source reached through it: exactly when the path leads to a node of its kind through the new directory, and then with that node. Any other usable copy is lost with the leaf cleared. |
| `LeafCopy.OtherContentCopied` | crates/deadreckon-core/src/artifacts.rs:815-826 | For any names and contents, a tree in which a copy succeeds with the content of another file, because the source is reached through a link that gives way. |
| `LeafCopy.LeafCopiesUnlessAbove` | crates/deadreckon-core/src/artifacts.rs:815-834 | A case of it: on plain paths with no link above, an otherwise acceptable copy succeeds if and only if the source is neither the target nor above it; otherwise the source is destroyed. |
| `LeafCopy.OrdinaryLeafCopy` | crates/deadreckon-core/src/artifacts.rs:583-608 | Into an existing directory under a free name, a file or a link is copied as it is and nothing else changes; a directory or special file is refused. |
| `RootedCopy.CopyBeneath` | crates/deadreckon-core/src/artifacts.rs:619-668 | On every well-formed tree with links the call equals the closed form `Copy`: outcome and whole new tree, with no intermediate re-reading. |
| `RootedCopy.LeafEffectIsPlace` | crates/deadreckon-core/src/artifacts.rs:815-834 | Re-reading after the target is cleared finds source and target again exactly when neither path goes through the target’s location. |
| `RootedCopy.CopyFacts` | crates/deadreckon-core/src/artifacts.rs:583-687 | Success: the target holds the node the source leads to once the missing directories exist, every other node is unchanged, only directories strictly between root and target are new. Every refusal but three leaves the tree unchanged; an unusable source leaves the created directories, so the tree is unchanged exactly when none was missing; a lost source leaves only the target cleared. |
| `RootedCopy.CopiesUnlessSame` | crates/deadreckon-core/src/artifacts.rs:583-668 | On plain paths an otherwise acceptable copy succeeds if and only if source and target differ; copying a leaf onto itself refuses and has deleted it. |
| `Files.FollowExtended` | crates/deadreckon-core/src/artifacts.rs:655-667 | A path extended below a directory resolves there, whatever links led to the directory. |
| `Files.FollowBroken` | crates/deadreckon-core/src/artifacts.rs:869-890 | Without a node that it goes through, a path leads nowhere or ends at the gap. |
| `Files.FollowAgrees` | crates/deadreckon-core/src/artifacts.rs:619-668 | Resolution depends only on the existing nodes it goes through. |
| `PathPolicy.ClassifyPath` | crates/deadreckon-core/src/artifact_policy.rs:44-69 | The loop with two flags and an early return computes: runtime if some component is `.git` or disposable, else evidence, else lifecycle, else deliverable. |
| `PathPolicy.RuntimeOutputRoot` | crates/deadreckon-core/src/artifact_policy.rs:76-88 | None exactly when no component is disposable; otherwise the plain names up to and including the first disposable one. |
| `PathPolicy.ClassOfJoin` | crates/deadreckon-core/src/artifact_policy.rs:44-69 | The class of a joined path is the maximum of the classes of its parts. |
| `PathPolicy.AncestorsAccepted` | crates/deadreckon-core/src/artifact_policy.rs:90-130 | The deliverable, recoverable, checkpointable and promotable predicates each hold of every ancestor of a path they accept. |
| `PathPolicy.ClassByNames` | crates/deadreckon-core/src/artifact_policy.rs:15-69 | The four classes by the names themselves. |
| `PathPolicy.PoliciesByNames` | crates/deadreckon-core/src/artifact_policy.rs:90-130 | What may be recovered, checkpointed and promoted, by the names themselves. |
| `PathPolicy.ExcludedIff` | crates/deadreckon-core/src/artifact_policy.rs:17-30 | The 12 pathspecs exclude a path exactly when some component is one of the six guarded names. |
| `PathPolicy.PathspecsAgree` | crates/deadreckon-core/src/artifact_policy.rs:17-69 | A path is not deliverable exactly when the pathspecs exclude it or it has a `.git` component; so without one the pathspecs alone decide. |
| `PrunedCopy.CopyEntries` | crates/deadreckon-core/src/artifacts.rs:717-761 | For every sibling order the pruned walk lays exactly the unpruned nodes over the destination, and fails exactly when one of them is a special file; it then has laid out some of them, directories before their entries and no special file. |
| `PrunedCopy.CopyTree` | crates/deadreckon-core/src/artifacts.rs:699-762 | The whole call: which of the four outcomes, and the destination tree, for missing, non-directory and directory sources and destinations. |
| `PrunedCopy.PrunedIffFiltered` | crates/deadreckon-core/src/artifacts.rs:720-731 | Pruning equals filtering path by path exactly when every kept path has only kept ancestors. |
| `PrunedCopy.PolicyCopiesFilter` | crates/deadreckon-core/src/artifacts.rs:570-576 | For the four workspace policies pruning equals filtering, on every tree. |
| `PrunedCopy.CopyIntoEmpty` | crates/deadreckon-core/src/artifacts.rs:699-762 | Into an empty destination a copy is its inventory and nothing else. |
| `PrunedCopy.CopyLeavesTree` | crates/deadreckon-core/src/artifacts.rs:764-890 | A copy laid over any tree leaves a well-formed tree. |
| `Phases.SharedCounts` | crates/deadreckon-core/src/docs.rs:2256-2270 | The overlap counts positions of the turn’s file list, so repeats count, and never exceeds its length. |
| `Phases.KindRunIs` | crates/deadreckon-core/src/docs.rs:2272-2278 | The run length is that of the longest ending of one tool kind. |
| `Phases.FirstCommitIs` | crates/deadreckon-core/src/docs.rs:2289-2312 | A phase’s commit is that of its first turn with one. |
| `Phases.JoinsIff` | crates/deadreckon-core/src/docs.rs:579-582 | A turn joins on a strict majority of its files or as the second or third of its kind in a row. |
| `Phases.SmallestNeighbor` | crates/deadreckon-core/src/docs.rs:2280-2287 | The first adjacent pair of minimal size. |
| `Phases.FirstPass` | crates/deadreckon-core/src/docs.rs:576-588 | The first loop yields a greedy partition of the records: every turn joins its group, no group’s first turn joins the group before. |
| `Phases.GreedyUnique` | crates/deadreckon-core/src/docs.rs:576-588 | A record sequence has only one greedy partition. |
| `Phases.Settle` | crates/deadreckon-core/src/docs.rs:589-593 | The second loop merges first-minimal neighbours until eight groups are left, and terminates. |
| `Phases.SettlesFacts` | crates/deadreckon-core/src/docs.rs:589-593 | Merging keeps the records in order, leaves min(8, n) groups, none empty, and only cuts where the first pass cut. |
| `Phases.SettlesUnique` | crates/deadreckon-core/src/docs.rs:589-593 | The merged grouping is determined by the first one. |
| `Phases.Coalesce` | crates/deadreckon-core/src/docs.rs:572-599 | Phases are the settled greedy partition: their turns concatenate to the input, there are 1 to 8 for non-empty input, and increasing turn numbers give ordered disjoint ranges. |
| `Phases.RangesAreDisjoint` | crates/deadreckon-core/src/docs.rs:2289-2312 | With increasing turn numbers every phase’s range holds its turns and ends before the next begins. |
| `Html.StripTags` | crates/deadreckon-core/src/docs.rs:1103-1115 | The flag loop keeps exactly the text outside tags. |
| `Html.ReplaceTokens` | crates/deadreckon-core/src/docs.rs:1117-1130 | Global left-to-right replacement acts token by token on texts made of tokens that cannot mislead the search. |
| `Html.EscapeIsPerCharacter` | crates/deadreckon-core/src/docs.rs:1117-1122 | The four passes over the text escape each character on its own. |
| `Html.DecodeStripEscape` | crates/deadreckon-core/src/docs.rs:1103-1130 | For all text, stripping tags from escaped text removes nothing and decoding gives the text back. |
| `Hunks.DiffFiles` | crates/deadreckon-core/src/docs.rs:1754-1817 | On the bytes of the two files: binary exactly when the current one holds a NUL or is not UTF-8, new exactly when only the current one exists, and otherwise the sample of the hunk between their lines. |
| `Hunks.LinesRoundTrip` | crates/deadreckon-core/src/docs.rs:1767-1768 | Text without returns is its lines, up to a newline at the very end. |
| `Hunks.DiffSample` | crates/deadreckon-core/src/docs.rs:1769-1815 | Counts (cast to 32 bits), header and excerpt body: the first five lines of the hunk, removed before added, or all; empty exactly when both counts are 0. |
| `Hunks.PrefixIsMaximal` | crates/deadreckon-core/src/docs.rs:1769-1773 | The first k lines agree exactly up to the common prefix. |
| `Hunks.SuffixIsMaximal` | crates/deadreckon-core/src/docs.rs:1774-1779 | The last k lines agree exactly up to the common suffix. |
| `Hunks.HunkRewrites` | crates/deadreckon-core/src/docs.rs:1769-1783 | Replacing `removed` by `added` after the common prefix turns the old lines into the new; prefix and suffix never overlap. |
| `Hunks.HunkIsLeast` | crates/deadreckon-core/src/docs.rs:1769-1783 | No other single replacement that turns the old lines into the new removes or adds fewer lines. |
| `Hunks.EmptyHunkIff` | crates/deadreckon-core/src/docs.rs:1780-1785 | The hunk is empty exactly when the lines agree. |
| `Truncation.BoundaryIffValid` | crates/deadreckon-core/src/artifacts.rs:166-171 | In valid UTF-8 the one-byte boundary test holds exactly where the prefix is valid UTF-8, and then the rest is too. |
| `Truncation.ValidIsEncoded` | crates/deadreckon-core/src/artifacts.rs:166-175 | Valid text is the encoding of some characters, by the table in section 3 of RFC 3629. |
| `Truncation.EncodedIsValid` | crates/deadreckon-core/src/artifacts.rs:166-175 | The encoding of any characters is valid text. |
| `Truncation.TruncateAtLineBoundary` | crates/deadreckon-core/src/artifacts.rs:164-175 | The longest newline-ended prefix within the budget if there is one, else the longest valid prefix; always valid UTF-8. |
| `Truncation.CapUtf8` | crates/deadreckon-core/src/docs.rs:2384-2393 | The longest valid prefix within the budget. |
| `Campaign.SharesFacts` | crates/deadreckon-core/src/campaign.rs:434-451 | The shares sum to the total exactly when it is not negative or divides evenly; they never grow with the index and differ by one cent at most. |
| `Campaign.NegativeSharesLose` | crates/deadreckon-core/src/campaign.rs:434-451 | A negative total whose shares do not sum to it. |
| `Campaign.BuildRollup` | crates/deadreckon-core/src/campaign.rs:545-594 | One leaf per sub in order, with gate, tamper verdict and caveats from a lookup that may keep state, a missing refused leaf for a sub without a run, the worst verdict and the id lists. |
| `Campaign.NoLaundering` | crates/deadreckon-core/src/campaign.rs:594-606 | A campaign can complete on its own roll-up exactly when it has a sub and every sub is merged with a signed gate that tamper does not refuse. |
| `Campaign.VerdictMeaning` | crates/deadreckon-core/src/campaign.rs:498-537 | Clean exactly when there is a leaf and all are signed and clean; refused exactly when there is none or one is unsigned or refused. |
| `Campaign.IdsExact` | crates/deadreckon-core/src/campaign.rs:576-585 | The roll-up lists the subs of a verdict and only those. |
| `Campaign.NestedWorstOf` | crates/deadreckon-core/src/campaign.rs:524-537 | Worst-of over groups equals worst-of over all leaves exactly when no group is empty, or there is no leaf, or a leaf is refused. |
| `Campaign.EmptyGroupRefuses` | crates/deadreckon-core/src/campaign.rs:524-537 | An empty group beside a clean leaf: refused as groups, clean as leaves. |

## Left out

- LeafCopy.FileTree.CopyLeaf: does not model a target that ends in `..`, because
  what removing such a target does rests on the platform.
- PrunedCopy.CopyEntries: does not say which entries were copied before an
  unsupported one stopped the walk, because that depends on the sibling order;
  source and destination are separate trees, addressed by relative paths.
- Hunks.DiffSample: excerpt lines are data; their text form and the joined
  excerpt are not modelled.
- Phases.Coalesce: the fields of a turn record that grouping does not read, and
  the filter for documentable paths, are not modelled.
- Campaign.SharesFacts: starts from whole cents; floating-point dollars are not
  modelled.
- I/O failures other than a missing or wrong kind of file (permissions, full
  disks), file metadata races and fsync ordering.
- Windows-only branches of link copying, and hard links.
- The acceptance marker's own validation, once the lineage is known, is an opaque
  function of the active round's bytes.
- Git: worktree boundary, history and materialisation checks appear as opaque
  outcomes of a world.
- The detail texts of passed audit facts and the wording of error messages.
- Trial preparation and finalisation as file publication, the oracles behind an
  evaluation, and `preserved_parent_work`: long field-by-field comparisons.
- Job reducer, lease acquisition and control locking: the fence appears as one
  atomic test of the current lease.
- Hook materialisation, chain step transitions, `diff_snapshots`, sub-goal
  building: not modelled.
- Markdown rendering, titles, decision detection and the user interface.

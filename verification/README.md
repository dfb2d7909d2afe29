# A model of the edge AI deployment platform

This project models the parts of the platform whose correctness spans several steps, and
proves what those parts promise. Every `.dfy` file is one module.

## What is modelled

**Deployment** (`Releases`, `DurableState`, `CrashSafety`, `Store`, `Registry`, `Deployer`, `Lifecycle`). The disk
is a record of slots, backups, candidates, journal, anchor, state and registry. Each rename, atomic
write, anchor advance and each half of a recursive delete is one durable step. A crash is the absence of
further steps, so what holds of every prefix of a run holds of every crash, inside recovery too. The
*logical state* of a disk is the state a restart settles on; atomicity says that it changes at one
step. A step has a guard that speaks of the disk only, and the deployer's methods are proved to take
only guarded steps. Each leaves what the next one needs, so a device may deploy, roll back, add
releases, read, fail and restart in any order: its whole life is one guarded run (`Lifecycle`). An
authenticated directory is `Signed(manifest)`; anything else is `Damaged` or `Absent`.

**Cache** (`Engine`). The generation-keyed caches, with deployments and other threads between the
identity read and the locked section.

**Executor** (`Queue`, `Executor`, `RestartBudget`). The queue and the tasks are classes with
histories; the threads are a state machine whose steps are the lock-held sections, so the results hold of every
interleaving.

**Worker protocol** (`WorkerProtocol`, `Framing`, `Bytes`). Parent and child exchange messages over two
queues; either may fail at any time. Frames cross a stream that moves any non-empty part of what is asked.

**Codecs** (`Utf8`, `JsonText`, `JsonParser`, `JsonRoundTrip`, `JsonCanonical`, `JsonObjects`, `Ipc`,
`IpcMessages`, `IpcRoundTrip`, `IpcSizes`). Python text is a sequence of code points that may hold
lone surrogates; JSON values are null, booleans, integers, strings, arrays and objects whose entries have
an order.

**Spool** (`SpoolRecords`, `Spool`). The file as bytes, with the history of every line it held.

**Int8 arithmetic** (`Int8Dot`, `Quantization`). Exact integers for int8 and int32, reals for float32,
and an arbitrary tree of additions for the order of summation.

## Premises

- One writer works on a root at a time, and its next action after a death is recovery; registry and keys
  do not change during recovery; an atomic write happens whole or not at all, and renames are durable in order.
- A directory authenticates as a version and a sequence or it does not; health measurements are inputs.
- One thread drives a worker runner. A generation stands for one model, which the deployment theorems give.
- Restart budget readings of the clock do not go back between lock holders (the source reads the clock
  before it takes the lock).
- A generated spool identifier repeats no queued one, and an append to the spool is all or nothing.
- Vectors and byte strings are shorter than memory allows (2^48 and 2^63).

## What the code does where it differs from what one might expect

- `src/edgeai/deploy.py:67` reads the anchor before the lock is taken at line 503. A writer that dies in
  between with the anchor advanced leaves a root that the waiting process recovers under the old value, and
  that no later start accepts. `RecoveryNeedsCurrentAnchor` gives the exact condition, `StaleAnchorStrands` an instance.
- After a rejected load (`src/edgeai/runtime.py:745-751`) the parent keeps its old generation while the
  child has dropped its model (lines 402-404), and sends no load for a generation it already names: `RejectedLoadWedges`,
  `AnsweredUnlessWedged`. A thread whose generations never go back is not affected, as it asks for the rejected
  generation again or for a later one: `OrderedRequestsAreNeverWedged`. A second caller can bring it about:
  `ensure_ready` (lines 1149-1150) has a newer generation rejected between the moment a worker prepares a request and the moment it
  executes it. That request, and any other of the older generation, gets only errors until another generation
  is asked for or the child is replaced: `UnorderedRequestIsWedged`.
- An error message within its own bound of 4096 bytes can make a header of more than 4096 bytes, which `encode_error`
  refuses, for request, load (`src/edgeai/runtime.py:408-418`) and startup errors (lines 353-357) alike: `ErrorFitsIff`,
  `LoadErrorFitsIff`, `StartupErrorFitsIff`, `LongErrorIsRefused`. In the worker this ends the process instead of reporting the error.
- `encode_frame` accepts a lone high surrogate before a low one, and the receiver reads them as one character: `EscapedTextReadsIff`, `EscapedSurrogatesMerge`.
- `encode_qualification` accepts a batch above the receiver's row limit and zero iterations, `encode_ready` accepts
  process id 0; the decoders refuse all three.
- The constructor of the dynamic int8 model accepts the weight -128, for which its bound on the number of inputs is too
  large: `AdmittedWeightsCanOverflow`.
- A window of the restart budget excludes its start: an entry exactly one window old is dropped before it is counted.

## Model

| member | source | states |
|---|---|---|
| CrashSafety.StepRefines | src/edgeai/deploy.py:633-690 | every durable step allowed by its guard keeps the journal/anchor/slot invariant, and moves the logical state only at a commit point (anchor advance with an anchor, else the state write), by one whole promotion, failed gate or rollback |
| CrashSafety.RunIsSound | src/edgeai/deploy.py:335-366 | wherever a run of steps stops, the disk satisfies the invariant: floor at most the anchor, an anchor that is ahead is explained by a journal whose slot authenticates, the active slot in place, the other referenced slot in place or in its backup |
| CrashSafety.RunIsAtomic | src/edgeai/deploy.py:640-690 | over any run, what a restart serves changes only at a commit point and there by one transition |
| CrashSafety.CommitIsOneStep | src/edgeai/deploy.py:652-677 | if the generation moved by one between two points of a run, one step is the commit: every crash up to it restarts into the old state, every crash after it into the new one |
| CrashSafety.NoCommitNoChange | src/edgeai/deploy.py:680-690 | if the generation did not move, no crash in between is visible to a restart |
| CrashSafety.RestartServesOldOrNew | src/edgeai/deploy.py:502-549 | a crash anywhere in an operation that commits at most once leaves a disk on which recovery succeeds and serves exactly the old or exactly the new state |
| CrashSafety.SoundIsStartable | src/edgeai/deploy.py:292-366 | recovery that knows the anchor succeeds on every disk a crash can leave |
| CrashSafety.SettledIsSound | src/edgeai/deploy.py:518-549 | what recovery leaves is sound and clean, stands for the same state, and recovering it again changes nothing |
| CrashSafety.RunIsMonotone | src/edgeai/deploy.py:584-592 | over any run the floor, the generation and the anchor never decrease, one generation never stands for two states, and published releases never change |
| CrashSafety.CommittedStateGrows | src/edgeai/deploy.py:664-673 | state.json is replaced only by itself or by a state of the next generation with a floor at least as high |
| CrashSafety.PassedWasGated | src/edgeai/health.py:114-125 | a manifest counted as passed was staged and accepted by the gate at some earlier step of the run, against the measured active model whenever one was active |
| CrashSafety.NamedVersionsPassedTheGate | src/edgeai/deploy.py:599-631 | every version named by the committed or logical state, after rollback and journal completion too, passed the gate earlier in the run on the bytes of its registry release, the accuracy drop against an active model included |
| CrashSafety.RecoveryTargetIsUnique | src/edgeai/registry.py:127-158 | a published sequence belongs to one version, so the target of a recovery is unique |
| CrashSafety.RecoveryNeedsCurrentAnchor | src/edgeai/deploy.py:67-69 | a recovery run under an anchor value read before the lock leaves a root that can start again if and only if that value is still the anchor's |
| CrashSafety.StaleAnchorStrands | src/edgeai/deploy.py:67-69 | a concrete disk on which recovery under a stale anchor value succeeds and leaves a root that no later start accepts |
| Storage.Store.RemoveTree | src/edgeai/deploy.py:522-536 | a recursive delete removes the tree, may be cut short between its two steps, and stays within the discipline when its first step does |
| Storage.Store.Crash | src/edgeai/deploy.py:502-549 | only a prefix of the steps reached the disk: what is left is the disk of that point, still within the discipline |
| Storage.Store.CommitsOnce | src/edgeai/deploy.py:640-690 | an operation that moved the generation by at most one restarts, from every crash inside it, into the state before or after |
| Registries.Registry.AssertSequenceAvailable | src/edgeai/registry.py:127-149 | accepts exactly when every published entry authenticates and none owns the sequence under another version, in any order of entries |
| Registries.Registry.AssertSequenceIdentity | src/edgeai/registry.py:151-158 | accepts exactly when the version is published and alone owns the sequence |
| Registries.Registry.Add | src/edgeai/registry.py:160-184 | publishes exactly an authentic, new version whose sequence is free, changes nothing otherwise, and keeps version-to-sequence injective |
| Registries.RollbackAnchor.AdvanceTo | src/edgeai/rollback_anchor.py:57-63 | the anchor takes a value in range that is not below it and refuses every other, so it never decreases |
| Deployer.ABDeployer.ValidateStateAnchor | src/edgeai/deploy.py:177-193 | reads the anchor again when the cached floor differs or a journal exists, then accepts exactly a state with that floor, and none while an ambiguous advance awaits recovery |
| Deployer.ABDeployer.RecoverAnchorCommit | src/edgeai/deploy.py:292-366 | reconciles journal, local floor and anchor: succeeds exactly when they agree, and then the committed state is the logical one |
| Deployer.ABDeployer.RecoverBackup | src/edgeai/deploy.py:470-500 | a backup is dropped when the slot authenticates, put back when only it does, and refused when neither does |
| Deployer.ABDeployer.RecoverBackups | src/edgeai/deploy.py:470-500 | both backups, in either order, with the slots they leave |
| Deployer.ABDeployer.RecoverSlot | src/edgeai/deploy.py:530-540 | an unreferenced slot is removed; a referenced one must authenticate within the floor |
| Deployer.ABDeployer.RecoverSlots | src/edgeai/deploy.py:522-540 | candidates and unreferenced slots are removed and every referenced slot authenticated |
| Deployer.ABDeployer.RecoverTrees | src/edgeai/deploy.py:518-548 | directories brought in line with the committed state, then the journal discarded |
| Deployer.ABDeployer.RecoverFrom | src/edgeai/deploy.py:511-549 | journal, directories and floor reconciled in that order, which succeeds exactly on the startable roots that have a valid state |
| Deployer.ABDeployer.Recover | src/edgeai/deploy.py:502-549 | start-up recovery succeeds exactly on the startable disks and leaves the clean disk of the logical state, itself within the discipline when the trusted floor is current |
| Deployer.ABDeployer.AdvanceAnchor | src/edgeai/deploy.py:159-175 | the journalled advance, with a failure before or after its effect |
| Deployer.ABDeployer.Admit | src/edgeai/deploy.py:581-592 | whatever residue is on disk: admits exactly a published release that alone owns its sequence and is above the floor, with a floor that is the anchor's, or a downgrade that was allowed and has no anchor to bypass |
| Deployer.ABDeployer.StageAndGate | src/edgeai/deploy.py:594-631 | stages the release and measures it: either the passing candidate waits, or the failure is committed as a new generation with its error text and the candidate is gone |
| Deployer.ABDeployer.RecordFailure | src/edgeai/deploy.py:621-631 | a failed gate commits generation plus one, FAILED and the truncated error; a failing state write leaves the old state |
| Deployer.ABDeployer.MoveAside | src/edgeai/deploy.py:633-639 | an old backup is deleted, then the inactive slot becomes the backup; an empty slot leaves no backup at all |
| Deployer.ABDeployer.InstallChecked | src/edgeai/deploy.py:642-648 | the installed release is authenticated in place; one that fails the check is taken out and the displaced slot put back |
| Deployer.ABDeployer.Uninstall | src/edgeai/deploy.py:684-690 | undoing an installation before its transaction starts restores the slot that was there |
| Deployer.ABDeployer.CommitPlain | src/edgeai/deploy.py:664-674 | without an anchor the state write is the commit |
| Deployer.ABDeployer.OpenTransaction | src/edgeai/deploy.py:652-663 | journal, then anchor: after a failure on either side of the advance the process requires recovery |
| Deployer.ABDeployer.CommitAnchored | src/edgeai/deploy.py:652-677 | with an anchor, the state is written after the advance and the journal dropped; an interrupted transaction keeps everything recovery needs, and exactly then the process requires recovery |
| Deployer.ABDeployer.Promote | src/edgeai/deploy.py:633-690 | from a passed candidate to the deployed disk, or to the disk each failure leaves; recovery is required exactly after an interruption, and every other outcome leaves a clean disk |
| Deployer.ABDeployer.DeployLocked | src/edgeai/deploy.py:579-690 | the outcome of a deploy for every release, gate verdict and fault, the disk each outcome leaves, and the conditions the next operation needs |
| Deployer.ABDeployer.Deploy | src/edgeai/deploy.py:579-690 | a deploy is atomic under crashes at every durable step, leaves the disk of its outcome, and leaves a clean root or a process that refuses to go on |
| Deployer.ABDeployer.Rollback | src/edgeai/deploy.py:692-709 | swaps active and previous slot, keeps the floor, moves the generation by one, changes nothing when it cannot, and leaves the root as ready for the next operation as it found it |
| Deployer.ABDeployer.ActiveIdentity | src/edgeai/deploy.py:711-714 | the identity returned was the committed one when the file was read, whatever others do before the check; the cached floor then is that state's, and a process that must recover is refused |
| Deployer.ABDeployer.ActiveSnapshot | src/edgeai/deploy.py:719-737 | a snapshot is the canonical release of the committed active version with its generation, or an error, and is refused while recovery is required |
| Lifecycle.AddKeepsClean | src/edgeai/registry.py:160-184 | publishing a new release leaves a clean root clean |
| Lifecycle.Device.Recover | src/edgeai/deploy.py:502-549 | start-up recovery by a process that knows the anchor never fails and settles the disk on its logical state |
| Lifecycle.Device.Reboot | src/edgeai/deploy.py:502-549 | a process that dies anywhere inside its last operation starts again and serves the state before that operation or the state after it |
| Lifecycle.Device.DeployRelease | src/edgeai/deploy.py:579-690 | a deploy after any history has its specified outcome and disk and leaves the device ready for any next operation |
| Lifecycle.Device.RollBack | src/edgeai/deploy.py:692-709 | a rollback after any history succeeds exactly when a previous release loads, the write succeeds and no recovery is due, and leaves the device ready |
| Lifecycle.Device.AddRelease | src/edgeai/registry.py:160-184 | publishing a release after any history leaves the served state alone and the device ready |
| Lifecycle.Device.ReadActive | src/edgeai/deploy.py:719-737 | what a device serves passed the gate and carries the generation of the logical state; none is served while recovery is due |
| Lifecycle.Device.Handle | src/edgeai/deploy.py:502-737 | any deploy, rollback, addition, read or restart can follow any other, each beginning where the last one ended |
| Lifecycle.Device.Live | src/edgeai/deploy.py:502-737 | every sequence of requests is one lawful run from the new root, and every crash point in it is sound and startable |
| Engine.InferenceEngine.CanonicalStays | src/edgeai/engine.py:81-91 | a cached model stays the canonical release of its version whatever is deployed later |
| Engine.InferenceEngine.ReadIdentity | src/edgeai/engine.py:81-84 | the lock-free identity read returns an identity that was committed when it was taken |
| Engine.InferenceEngine.Lookup | src/edgeai/engine.py:85-91 | the locked section returns the cached serving of the identity that was read, or the current one |
| Engine.InferenceEngine.Active | src/edgeai/engine.py:81-176 | model, version and generation returned belong together and were the active identity at some instant of the call, whatever interleaves; for the in-process and the isolated cache |
| Queue.BoundedInferenceQueue.PushWithEvicted | src/edgeai/runtime.py:91-107 | all three overflow policies, stated by `Pushes`: what is admitted, evicted or refused, the new queue and counters |
| Queue.BoundedInferenceQueue.PopSection | src/edgeai/runtime.py:113-131 | stated by `Pops`: lapsed items at the head are set aside and counted, the first live one is returned; items leave in push order |
| Queue.BoundedInferenceQueue.ExpirePayload | src/edgeai/runtime.py:137-145 | stated by `Removes`: takes out the first item with that payload, if any, and counts it expired |
| Queue.BoundedInferenceQueue.Drain | src/edgeai/runtime.py:147-151 | everything queued is handed over in order |
| Queue.BoundedInferenceQueue.Balanced | src/edgeai/runtime.py:73-165 | each accepted item has one fate: accepted equals depth plus returned plus expired plus evicted plus drained |
| Executor.InferenceTask.Begin | src/edgeai/runtime.py:178-183 | a task begins unless it has an outcome |
| Executor.InferenceTask.Complete | src/edgeai/runtime.py:185-195 | the first outcome stays |
| Executor.InferenceTask.ExpireIfNotStarted | src/edgeai/runtime.py:197-207 | expires only a task that neither started nor finished |
| Executor.InferenceTask.CancelIfNotStarted | src/edgeai/runtime.py:209-214 | cancels only a task that neither started nor finished |
| Executor.PopIsPop | src/edgeai/runtime.py:113-131 | whatever the queue's pop may answer, the worker's step takes the same items and leaves the same queue |
| Executor.RemoveIsExpire | src/edgeai/runtime.py:137-145 | whatever the queue's removal may answer, the submitter's step leaves the same queue |
| Executor.StepKeeps | src/edgeai/runtime.py:1024-1126 | every lock-held section of submitter, worker, evicting enqueuer and closer keeps the invariant: each unfinished task is in exactly one place |
| Executor.RunKeeps | src/edgeai/runtime.py:1024-1126 | so does every interleaving |
| Executor.OutcomeIsFinal | src/edgeai/runtime.py:185-214 | over every interleaving an outcome, once set, never changes |
| Executor.ExactlyOnce | src/edgeai/runtime.py:1099-1126 | a task begins at most once; completed or failed tasks ran exactly once; expired, dropped, closed or cancelled ones never ran and never will |
| Executor.ClosedLeavesNothing | src/edgeai/runtime.py:1153-1187 | once closed, with the closer done and the workers gone, no admitted task is without an outcome |
| Executor.PopsLiveWork | src/edgeai/runtime.py:113-131 | the item handed to a worker was in time at the pop, and everything queued before it was set aside as lapsed |
| WorkerProtocol.StepKeeps | src/edgeai/runtime.py:402-477 | at most one message is under way, it is the awaited one, and an idle child holds the parent's generation or nothing |
| WorkerProtocol.AcceptedLogitsAreTheRequests | src/edgeai/runtime.py:760-787 | over every run of loads, predictions, failures, deaths, timeouts and restarts, accepted logits were computed for that request's inputs by its generation's model, and no reply answers two requests |
| WorkerProtocol.RejectedLoadWedges | src/edgeai/runtime.py:745-751 | after a rejected load of another generation the parent still names its old one while the child holds nothing |
| WorkerProtocol.AnsweredUnlessWedged | src/edgeai/runtime.py:721-723 | from an idle link a request of the parent's generation can be answered with logits if and only if the link is not in that condition |
| WorkerProtocol.OrderedRequestsAreNeverWedged | src/edgeai/runtime.py:719-803 | over every run from a new runner whose generations never go back, no request is sent to a wedged child |
| WorkerProtocol.UnorderedRequestIsWedged | src/edgeai/runtime.py:1149-1150 | a run from a new runner in which a second caller's newer generation is rejected before a request prepared for the older one: that request goes to a wedged child |
| WorkerProtocol.ProcessInferenceRunner.LoadGeneration | src/edgeai/runtime.py:719-758 | success means that the child owns the generation asked for, unless the link was wedged at it before, when nothing was sent; no result is accepted meanwhile |
| WorkerProtocol.ProcessInferenceRunner.Execute | src/edgeai/runtime.py:760-803 | logits returned are what the model of the request's generation computes on its inputs |
| RestartBudget.SpacedMeansBounded | src/edgeai/runtime.py:493-512 | grants spaced a window apart every limit places put at most limit grants in any window |
| RestartBudget.GrantKeeps | src/edgeai/runtime.py:503-512 | granting below the limit keeps that spacing |
| RestartBudget.RollingRestartBudget.Reserve | src/edgeai/runtime.py:503-512 | a restart is refused exactly when the window ending now already holds limit grants |
| RestartBudget.RollingRestartBudget.Current | src/edgeai/runtime.py:514-520 | reports exactly the grants of the window ending now |
| RestartBudget.RollingRestartBudget.NeverExceeded | src/edgeai/runtime.py:493-512 | no window, ending at any instant, holds more than limit grants of the whole run |
| Bytes.BigEndianReads | src/edgeai/ipc.py:500-512 | unpacking undoes packing for every value of the width |
| Bytes.BigEndianWrites | src/edgeai/ipc.py:500-512 | packing undoes unpacking, so a prefix has one reading |
| Framing.Channel.ReceiveExact | src/edgeai/runtime.py:279-291 | for any split into partial receives: exactly the next bytes, or an end of stream only when there are too few |
| Framing.Channel.ReceiveFrame | src/edgeai/runtime.py:294-304 | the next frame, or a refusal of an out-of-range length with its body unread, whatever the splits |
| Framing.Channel.SendFrame | src/edgeai/runtime.py:307-318 | for any split into partial sends the whole frame goes out once, or a proper prefix of it when the send fails |
| Framing.OneFrame | src/edgeai/runtime.py:294-318 | a sent frame is received unchanged and nothing of what follows is consumed; one outside the bounds is refused |
| Framing.FramesArrive | src/edgeai/runtime.py:294-318 | a sequence of in-bound frames arrives as the same sequence with no byte left over |
| Framing.CutStream | src/edgeai/runtime.py:279-291 | a stream cut inside a frame yields the whole frames before it and then an end of stream, never a shortened frame |
| Framing.WireIsInjective | src/edgeai/runtime.py:294-318 | two sequences of frames with the same bytes are the same |
| Utf8.CodeRoundTrip | src/edgeai/util.py:11 | decoding undoes encoding for every code point and leaves what follows |
| Utf8.TextRoundTrip | src/edgeai/util.py:11 | decoding undoes encoding for every text |
| Utf8.LowBytes | src/edgeai/telemetry.py:160 | a byte below 0x80 in encoded text is a character of the text, so a line break cannot appear inside another character |
| JsonRoundTrip.CharsRead | src/edgeai/util.py:26-28 | a written string literal is read back to its text and leaves what follows: any text without ASCII escaping, and with it any text without a lone high surrogate right before a low one |
| JsonRoundTrip.EscapedTextReadsIff | src/edgeai/ipc.py:87-93 | with ASCII escaping a text is read back if and only if no lone high surrogate stands right before a low one |
| JsonRoundTrip.NumberReads | src/edgeai/util.py:26-28 | a written integer is read back and leaves what follows |
| JsonRoundTrip.ValueReads | src/edgeai/util.py:10-28 | every nested value written inside a larger text is read back and leaves what follows, in any key order, given strings that `EscapedTextReadsIff` allows |
| JsonRoundTrip.ParseUndoesWrite | src/edgeai/util.py:10-28 | the text of a whole value parses to that value, given strings that `EscapedTextReadsIff` allows |
| JsonRoundTrip.EscapedSurrogatesMerge | src/edgeai/ipc.py:87-93 | any lone high surrogate before a low one, which strict UTF-8 refuses, is read back as the one character they stand for |
| JsonParser.ParseGivesDicts | src/edgeai/util.py:13-24 | duplicate keys are refused at every depth: whatever parses has distinct keys in every object |
| JsonCanonical.SameIffCanon | src/edgeai/util.py:11 | two values are equal up to key order exactly when their canonical forms are the same |
| JsonCanonical.CanonKeeps | src/edgeai/util.py:11 | sorting keeps a value well formed and sorting again changes nothing |
| JsonCanonical.BytesExist | src/edgeai/util.py:11 | encoding is refused exactly for a lone surrogate in a string or key |
| JsonCanonical.OneLine | src/edgeai/telemetry.py:94 | no CR, LF or other control byte is emitted |
| JsonCanonical.LoadsUndoesDumps | src/edgeai/util.py:10-28 | strict_json_loads undoes canonical_json_bytes up to key order, the encoding being detected as UTF-8 |
| JsonCanonical.BytesDecideEquality | src/edgeai/util.py:10-11 | bytes are equal if and only if the values are, key order aside |
| JsonObjects.SortedLookup | src/edgeai/ipc.py:87-93 | a field keeps its value when the header is sorted |
| Ipc.FrameRoundTrip | src/edgeai/ipc.py:61-132 | for header texts without a lone high surrogate right before a low one: whatever encode_frame returns, decode_frame reads back as the same header and payload, unless the payload is over the receiver's limit |
| Ipc.SentFields | src/edgeai/ipc.py:135-141 | the fields of a sent message, and no others, pass require_fields and are found under their names |
| IpcMessages.OpenRoundTrip | src/edgeai/ipc.py:101-141 | an encoded message opens with its own operation and field names |
| IpcMessages.WrongOperation | src/edgeai/ipc.py:151-152 | the decoder of another operation refuses it |
| IpcRoundTrip.ReadyRoundTrip | src/edgeai/ipc.py:144-156 | decoding undoes encoding; process id 0 is encoded and then refused |
| IpcRoundTrip.SimpleRoundTrip | src/edgeai/ipc.py:159-167 | a message without fields is accepted by the decoder of its operation |
| IpcRoundTrip.GenerationRoundTrip | src/edgeai/ipc.py:170-179 | decoding undoes encoding |
| IpcRoundTrip.RequestErrorRoundTrip | src/edgeai/ipc.py:182-203 | an encoded request error is read back, an empty message as its default |
| IpcRoundTrip.LoadErrorRoundTrip | src/edgeai/ipc.py:182-203 | an encoded load error is read back, an empty message as its default |
| IpcRoundTrip.StartupErrorRoundTrip | src/edgeai/ipc.py:206-224 | an encoded startup error is read back, an empty message as its default |
| IpcRoundTrip.LoadRoundTrip | src/edgeai/ipc.py:227-264 | an encoded load is read back unless the model or its unpacked bound is outside the receiver's limit |
| IpcRoundTrip.PredictRoundTrip | src/edgeai/ipc.py:277-316 | an encoded predict is read back exactly when its tensor is non-empty, finite and within the limits |
| IpcRoundTrip.ResultRoundTrip | src/edgeai/ipc.py:319-357 | an encoded result is read back exactly when it answers the expected request and batch and is finite and within the limits |
| IpcRoundTrip.LabelsRead | src/edgeai/ipc.py:403-404 | the int64 labels are read back from their bytes |
| IpcRoundTrip.QualificationRoundTrip | src/edgeai/ipc.py:361-459 | an encoded qualification is read back exactly when the dataset is within the receiver's limits, at least one iteration is asked for, and the batch is within the receiver's row limit |
| IpcSizes.EscapeBound | src/edgeai/ipc.py:87-93 | escaping takes at most six characters for each UTF-8 byte |
| IpcSizes.SentLength | src/edgeai/ipc.py:96-97 | the exact length of a header, independent of the order of its fields |
| IpcSizes.LoadAlwaysFits | src/edgeai/ipc.py:227-246 | a load message is refused only for its arguments: its header is within 4096 bytes even when both texts escape to six times their length |
| IpcSizes.PredictAlwaysFits | src/edgeai/ipc.py:277-288 | a predict message is refused only for its arguments |
| IpcSizes.ResultAlwaysFits | src/edgeai/ipc.py:319-329 | a result message is refused only for its arguments |
| IpcSizes.ErrorFitsIff | src/edgeai/ipc.py:182-191 | a request error is sent exactly when its escaped operation, code and message and the digits of its number total at most 4005 characters |
| IpcSizes.LoadErrorFitsIff | src/edgeai/ipc.py:182-191 | a load error is sent exactly when its escaped operation, code and message and the digits of its generation total at most 4005 characters |
| IpcSizes.StartupErrorFitsIff | src/edgeai/ipc.py:206-213 | a startup error is sent exactly when its escaped code and message total at most 4006 characters |
| IpcSizes.LongErrorIsRefused | src/edgeai/ipc.py:182-191 | a message within its own 4096-byte bound that cannot be sent as a request, load or startup error |
| SpoolRecords.RecordExists | src/edgeai/telemetry.py:90-94 | a record is refused exactly for a lone surrogate |
| SpoolRecords.RecordRoundTrip | src/edgeai/telemetry.py:90-105 | a decoded record carries the identifier and the event that were encoded |
| SpoolRecords.RecordIsClean | src/edgeai/telemetry.py:94 | an encoded record is one line |
| SpoolRecords.SplitUndoesJoin | src/edgeai/telemetry.py:160 | splitlines recovers exactly the appended lines, with and without their ends |
| Spool.OfflineSpool.FindId | src/edgeai/telemetry.py:123-132 | finds the queued event of a supplied identifier, or shows that there is none |
| Spool.OfflineSpool.Trim | src/edgeai/telemetry.py:135-143 | drops the oldest lines, the fewest that make room, and counts them |
| Spool.OfflineSpool.Enqueue | src/edgeai/telemetry.py:134-146 | the record is last in the file, older ones leave only to make room, and the file stays within max_bytes |
| Spool.OfflineSpool.Append | src/edgeai/telemetry.py:107-147 | the result for every input, the new file and history; a queued identifier never gets different content |
| Spool.OfflineSpool.SendQueued | src/edgeai/telemetry.py:161-180 | records reach the sink oldest first with what their lines hold, up to the limit or the first failure; unreadable lines are dropped and counted |
| Spool.OfflineSpool.Flush | src/edgeai/telemetry.py:149-182 | lines leave the file only when delivered or unreadable, and the corrupt counter grows by the unreadable ones; a failed call or a crash before the rewrite leaves every line that was not let go, and the file never grows |
| Spool.OfflineSpool.Conservation | src/edgeai/telemetry.py:107-182 | every line ever admitted is still queued in its place, was accepted by a sink, was trimmed, or does not parse |
| Spool.OfflineSpool.LinesAddUp | src/edgeai/telemetry.py:107-182 | delivered, trimmed, unreadable and queued lines add up to the lines admitted |
| Spool.OfflineSpool.RedeliveryIsIdentical | src/edgeai/telemetry.py:17-24 | a record sent again after a crash carries the same identifier and event |
| Int8Dot.WrapOnce | src/edgeai/quantization.py:83 | int32 arithmetic that wraps at every step gives the exact sum wrapped once, in any order of summation |
| Int8Dot.OrderIsIrrelevant | src/edgeai/quantization.py:83 | a sum does not depend on the order of its terms |
| Int8Dot.EveryOrderIsDot | src/edgeai/quantization.py:83 | every order that adds each product once gives the dot product, wrapped |
| Int8Dot.SafeDotIsExact | src/edgeai/quantization.py:13-17 | with at most 133144 inputs in [-127, 127] no partial sum of any order leaves int32 and the result is the dot product |
| Int8Dot.SafeBoundIsSharp | src/edgeai/quantization.py:17 | that number of inputs is the largest for which this holds |
| Int8Dot.AdmittedWeightsCanOverflow | src/edgeai/quantization.py:70-75 | with the weight -128, which the constructor accepts, the largest safe number of inputs is 132104 |
| Int8Dot.DotI8 | edge-ai-deployment-platform/cpp/src/int8_linear.cpp:7-20 | throws on unequal lengths, overflows exactly when the exact sum leaves int32, and otherwise returns it |
| Int8Dot.NativeAgrees | edge-ai-deployment-platform/cpp/src/int8_linear.cpp:15-19 | the wrapped sum of any order is the dot product exactly when the native code does not throw |
| Int8Dot.LinearI8 | edge-ai-deployment-platform/cpp/src/int8_linear.cpp:22-55 | each output is its own row's dot product, scaled and biased; the first row without a value decides the error, every earlier row being good, and bad shapes are refused |
| Quantization.NeverClips | src/edgeai/quantization.py:81-82 | with the row's own scale no level is ever clipped |
| Quantization.LevelError | src/edgeai/quantization.py:88-89 | a stored level stands for its value within half a scale |
| Quantization.DotError | src/edgeai/quantization.py:83-84 | the scaled integer dot product differs from the real one by at most the sum of |x|*s/2 + |w|*xs/2 + xs*s/4 |
| Quantization.Int8LogitError | src/edgeai/quantization.py:77-84 | for every size the dynamic model admits and every order of int32 summation, the logit is within that bound of the float one |
| Quantization.NativeMatches | edge-ai-deployment-platform/cpp/src/int8_linear.cpp:42-49 | the native layer gives the same logit as the wrapped int32 sum with the same levels and scales |
| Quantization.ArgmaxIsPreserved | src/edgeai/model.py:42-43 | a class that leads by more than the two rows' bounds is predicted by both models |
| Quantization.ArgmaxIsUnique | src/edgeai/quantization.py:46-47 | there is one first largest logit |

## Left out

- Signatures, digests, symbolic-link and descriptor checks, and the syntax of versions: a directory or a version is taken as checked or not.
- I/O errors other than a crash, an anchor failure and a state write that fails before its effect; loss of the order of renames.
- Recovery of a root by several live writers, and a deploy over residue that was not recovered beyond its admission checks.
- Deployer.ABDeployer.ActiveIdentity: as in the source, a peer may complete a deploy between the file read and the check, so the floor need not be the anchor's at return.
- Lifecycle.Device.Handle: one process serves a device at a time; interleaved peers are covered by the lock-free reads of `ActiveIdentity` and `Engine` only.
- Health measurement itself, benchmarking, resource limits, training, drift, datasets, the ONNX adapter, the sandbox, the HTTP service, configuration, command line and reports.
- The registry's staging directory and its removal after an error.
- JSON floats, and so the metrics message and telemetry events that hold floats: a number with a fraction or an exponent does not parse in the model.
- JsonCanonical.LoadsUndoesDumps: bytes that would be detected as UTF-16, UTF-32 or as starting with a byte order mark are a separate outcome that is not decoded; canonical bytes are never such.
- Python's limit on the digits of an integer and on the depth of nesting.
- The text of error messages and the callbacks that tell a waiting coroutine.
- Waiting on condition variables and joining threads: claims are about runs and final states, not about time.
- Framing.Channel.ReceiveFrame: a deadline may pass at any transfer, and then the contract says only that no frame is returned.
- WorkerProtocol.ProcessInferenceRunner.Execute: which error is raised is not modelled, and `ensure_ready` loading on another thread between two steps of one call is excluded.
- Executor.ExactlyOnce: an enqueuer, a worker or the closer that never takes its next step leaves its tasks unfinished; only the finished case is claimed.
- Spool.OfflineSpool.Append: a torn append, which would join two records, is excluded; the counters of a restarted process start again at zero.
- Quantization.Int8LogitError: float32 rounding of scales, products and sums is not modelled; the bound is over the reals.
- Int8Dot.LinearI8: the finiteness checks of float values have no counterpart over the reals.
- The anchor file's own parsing, and the rewrite of an equal value.

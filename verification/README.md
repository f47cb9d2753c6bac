# Verified models of the subnet's protocols

This project models the parts of the subnet in which most can go wrong, and proves what they promise:

- **Pod allocation** of the witness gateway: the durable queue of starts (`AdmissionQueue.dfy`, `StartQueue.dfy`), its
  runs (`QueueRuns.dfy`) and what its calls do for those who ask (`QueueEffects.dfy`), the fleet bound (`Admission.dfy`), the protocol of journal, worker and provider as a step
  machine with crashes (`PodAllocation.dfy`, with `PodSpacing.dfy` and `PodFleet.dfy`), and the lifecycle of Pods against
  an unreliable provider (`PodLifecycle.dfy`), whose check before a create is that of the machine (`PodAdmission.dfy`).
- **Record and replay** of model calls in the miner runtime (`ReplaySchedule.dfy`).
- **Credential proofs** of the witness client: the ChaCha20 block (`ChachaBlock.dfy`), the constraint system
  (`CredentialCircuit.dfy`), the public statements built from observed TLS records (`CredentialProof.dfy`), and what
  an accepted bundle establishes (`CredentialSoundness.dfy`).
- **The tournament** of the judge: the timeline (`Timeline.dfy`), the loop that drives it (`RoundRunner.dfy`), the
  multi-stage duel (`DuelJudge.dfy`) and the PNG rows it looks at (`PngDecoder.dfy`).
- **Shared machinery**: the scene walk of the renderer (`SceneWalk.dfy`), its validation pool (`ValidationPool.dfy`),
  the pool of prover contexts (`ProverPool.dfy`), the commit batcher (`GitBatcher.dfy`) and the per-hotkey rate limit
  (`RateLimiter.dfy`).

Objects that the source updates in place are classes here, and each of their methods states its new state through the
functions and predicates that the lemmas are about. Protocols over several threads are step machines or event handlers
whose every interleaving is covered. A reply that the source cannot rely on is a nondeterministic choice.

## What is assumed

- Pod allocation: one gateway lives at a time; rounds only advance, and a start is queued for the round that is open
  (calls of another round are shown to change nothing); the
  clock does not go backwards; a create request makes at most one Pod, sent and visible within 600 seconds of its
  authorisation; the lifecycle thread reads a queue entry and acts on it without another thread completing that entry in
  between. A journal write that was not confirmed may still land later, while its version is current.
- Pod lifecycle: a PATCH takes effect no later than the GET that confirms it, worker Pods boot `pending`, and a Pod that
  was confirmed absent does not come back.
- Credential proofs: Groth16 accepts only statements that hold for some key, and the MiMC commitment is a canonical field
  element. No second key has the commitment that an accepted bundle carries; `AcceptedOrCollision` does without this and
  names the two keys otherwise. Tags of Poly1305 have sixteen bytes. Poly1305 is an arbitrary function. MiMC, Groth16 and the comparator and lookup
  gadgets of gnark are represented by their specification.
- Tournament: files of verdicts and match results only grow, and a shutdown, once requested, stays requested.
- Duel: answers of the vision model are a function of the images in the order shown; penalties are averaged exactly.

## Where the code does less than one might expect

- A retained create is kept in the journal under hotkey and start identifier, without its round
  (`witness-gateway/pod_gateway/admission.py:302`). If a hotkey uses one start identifier in two rounds, a rollover drops
  the older create from the count although its Pod may still appear. `RetainedCreateMayBeDisplaced` shows it,
  `RolloverKeepsRetained` says exactly when, and the fleet bound is stated with that allowance and, for fresh start
  identifiers, without. `FleetMayExceedItsBound` runs the gateway until, under a bound of two, any number of Pods is on its
  way.
- An operation that a crash left open is run live on replay, and its exit does not wait for the recorded boundaries
  before it (`miner-runtime/src/miner_runtime/observations.py:258-266`). `OpenExitMayOvertake` shows it; `LiveExitOrder`
  says exactly when such an exit is in order: when the run has caught up with the log.
- A timeline may be finalized before every candidate has met the leader, and then a match that arrives later changes it
  (`judge-service/judge_service/timeline.py:51-58`). `EarlyFinalizationIsUnstable` shows it, `StableIffSettled` says
  exactly when a finalized timeline is final, and `RoundRunner.Run` never finalizes otherwise.
- `flush` answers true when nothing is pending although a commit may be in flight
  (`shared/subnet_common/git_batcher.py:74-75`). `FlushMayAnswerEarly` shows it; with no commit in progress a true answer
  means that everything has landed.

## Model

| member | source | states |
|---|---|---|
| AdmissionQueue.LoadedIsIdentity | witness-gateway/pod_gateway/admission.py:115-135 | filing attempts under history at load changes nothing in a well-formed journal |
| AdmissionQueue.EnqueueKeepsOrder | witness-gateway/pod_gateway/admission.py:187-222 | a new entry is behind all others, queued entries stay as they are, capacity is respected |
| AdmissionQueue.EnqueueKeepsQueue | witness-gateway/pod_gateway/admission.py:187-222 | enqueueing keeps sequences distinct, aliases one hop from a canonical start, attempts filed and authorisation times apart |
| AdmissionQueue.EnqueueAnswersConnection | witness-gateway/pod_gateway/admission.py:168-222 | a connection that joins a queued start leads to the same record as that start |
| AdmissionQueue.AuthorizeKeepsQueue | witness-gateway/pod_gateway/admission.py:224-241 | authorising keeps the queue invariant when creates are spaced by a positive interval |
| AdmissionQueue.ReleaseKeepsQueue | witness-gateway/pod_gateway/admission.py:243-258 | a release never fails on a well-formed journal and keeps the invariant, in particular that the attempt on file is the latest authorised record |
| AdmissionQueue.CompleteKeepsQueue | witness-gateway/pod_gateway/admission.py:260-270 | completion, rejected or not, keeps the queue invariant |
| AdmissionQueue.CancelKeepsQueue | witness-gateway/pod_gateway/admission.py:272-282 | cancelling keeps the queue invariant |
| AdmissionQueue.RolloverSucceeds | witness-gateway/pod_gateway/admission.py:296-311 | a rollover of a well-formed journal never fails; to another round it leaves no entry, attempt or record |
| AdmissionQueue.RolloverKeepsQueue | witness-gateway/pod_gateway/admission.py:296-311 | the journal is well formed for the new round |
| AdmissionQueue.RolloverKeepsAuthorised | witness-gateway/pod_gateway/admission.py:178-185 | an authorised entry of the ending round stays unresolved exactly until 600 seconds after its attempt |
| AdmissionQueue.RolloverKeepsRetained | witness-gateway/pod_gateway/admission.py:296-304 | a retained create survives the next rollover if and only if no authorised entry has its hotkey and start identifier |
| AdmissionQueue.RetainedCreateMayBeDisplaced | witness-gateway/pod_gateway/admission.py:296-304 | a journal on which a rollover stops counting a create made 15 seconds ago |
| QueueRuns.RunKeepsQueue | witness-gateway/pod_gateway/admission.py:187-311 | over every run from an empty journal, with calls that raise or stay unconfirmed, places in the queue are distinct and within capacity, every record leads in one hop to its own start, and the attempt on file is the latest |
| QueueRuns.CallKeepsQueue | witness-gateway/pod_gateway/admission.py:142-155 | every call keeps the queue invariant and the capacity |
| QueueRuns.OtherRoundsDoNothing | witness-gateway/pod_gateway/admission.py:224-282 | a call that carries another round than the open one changes nothing |
| QueueRuns.AuthorisationsAreSpaced | witness-gateway/pod_gateway/admission.py:224-241 | the i-th and j-th authorisation of a run are at least (j - i) intervals apart, whether or not a create followed |
| QueueRuns.CallKeepsOthers | witness-gateway/pod_gateway/admission.py:187-311 | while an entry stays authorised, no call touches its place or the hotkey's other authorised records |
| QueueRuns.ReleaseRestores | witness-gateway/pod_gateway/admission.py:224-258 | a release, after any calls through which the entry stays authorised, puts the attempt on file, the entry and the hotkey's other authorised records back as they were before the authorisation |
| QueueRuns.AuthorisedStaysUnresolved | witness-gateway/pod_gateway/admission.py:178-185 | an authorised entry stays unresolved through every call but its own completion, its own release and a rollover to another round |
| QueueEffects.UnresolvedMeans | witness-gateway/pod_gateway/admission.py:178-185 | unresolved are exactly the authorised entries and the creates of earlier rounds less than 600 seconds old |
| QueueEffects.AttemptMeans | witness-gateway/pod_gateway/admission.py:168-176 | a connection has an attempt exactly when it was recorded this round, and it is that of the start it leads to |
| QueueEffects.EnqueueAccepts | witness-gateway/pod_gateway/admission.py:196-222 | a start is accepted exactly when its hotkey is queued or there is room and it was not used; the two refusals are told apart |
| QueueEffects.OtherRoundIsDeferred | witness-gateway/pod_gateway/admission.py:198-200 | a hotkey with an entry of another round is told to come back in a minute |
| QueueEffects.EnqueueDoes | witness-gateway/pod_gateway/admission.py:187-222 | the connection joins its hotkey's entry or becomes a new one; all else and the unresolved creates stay as they were, and asking twice changes nothing |
| QueueEffects.AuthorizeAccepts | witness-gateway/pod_gateway/admission.py:225-235 | an entry is authorised exactly when it is queued, was not before, and the last authorisation is an interval ago |
| QueueEffects.DeferredUntil | witness-gateway/pod_gateway/admission.py:231-233 | an entry that is told when to come back is authorised from then on and not before |
| QueueEffects.AuthorizeDoes | witness-gateway/pod_gateway/admission.py:236-239 | this create and no other becomes unresolved, and every connection that leads to this start has the new attempt |
| QueueEffects.ReleaseDoes | witness-gateway/pod_gateway/admission.py:243-258 | a release takes back exactly this entry's authorisation |
| QueueEffects.CompleteDoes | witness-gateway/pod_gateway/admission.py:260-270 | a completion takes the entry out and leaves every other; a rejection marks the attempt that this start's connections are told |
| QueueEffects.CompletionResolves | witness-gateway/pod_gateway/admission.py:178-185 | after a completion exactly this create is unresolved no longer |
| QueueEffects.CancelDoes | witness-gateway/pod_gateway/admission.py:272-282 | the answer says whether the hotkey has no entry now; only an entry of this start that is not authorised is removed |
| QueueEffects.RolloverAddsNothing | witness-gateway/pod_gateway/admission.py:296-311 | a rollover makes no create unresolved that was not |
| QueueEffects.RolloverToOpenRound | witness-gateway/pod_gateway/admission.py:296-311 | a rollover to the open round changes nothing that is asked |
| QueueEffects.ConnectionStaysKnown | witness-gateway/pod_gateway/admission.py:168-176 | whatever calls are made before the round is over, an accepted connection can be asked about and leads to the same start |
| StartQueues.StateStore.Save | shared/subnet_common/witness/state.py:119-163 | a guarded save is confirmed, refused by version, rejected, or unconfirmed: landed, still on its way, or lost |
| StartQueues.StateStore.Arrive | shared/subnet_common/witness/state.py:154-163 | a write that arrives after its reply takes effect exactly when the object has not changed since |
| StartQueues.StartQueue.LoadState | witness-gateway/pod_gateway/admission.py:115-135 | the journal is read with attempts filed under history, or the read raises |
| StartQueues.StartQueue.Enqueue | witness-gateway/pod_gateway/admission.py:187-222 | answers from the cache or applies the enqueue change; a failed save leaves the cache alone |
| StartQueues.StartQueue.Authorize | witness-gateway/pod_gateway/admission.py:224-241 | applies the authorise change, or raises what the change or the store raises and leaves the cache alone |
| StartQueues.StartQueue.ReleaseAuthorization | witness-gateway/pod_gateway/admission.py:243-258 | applies the release change with the latest remaining attempt, found by a loop |
| StartQueues.StartQueue.BestAttempt | witness-gateway/pod_gateway/admission.py:252-254 | the loop finds an authorised record of the round with the greatest time, if there is one |
| StartQueues.StartQueue.Complete | witness-gateway/pod_gateway/admission.py:260-270 | applies the completion change |
| StartQueues.StartQueue.Cancel | witness-gateway/pod_gateway/admission.py:272-282 | applies the cancel change and says whether the entry is gone |
| StartQueues.StartQueue.Retain | witness-gateway/pod_gateway/admission.py:298-304 | the loop retains exactly the authorised entries of other rounds, and fails exactly when one has no attempt |
| StartQueues.StartQueue.Rollover | witness-gateway/pod_gateway/admission.py:296-311 | applies the rollover change |
| Admission.Sorted | witness-gateway/pod_gateway/admission.py:56-58 | the order in which Pods go is a permutation with dormant Pods first, then newer epochs, then smaller identities |
| Admission.Excess | witness-gateway/pod_gateway/admission.py:46-64 | the victims are exactly the Pods beyond the bound, first in that order |
| Admission.ExcessLeavesTheBound | witness-gateway/pod_gateway/admission.py:46-64 | draining leaves exactly the bound, loses and repeats no worker, and drains an active one only when all that stay are active |
| PodAllocation.StepKeepsInvariant | witness-gateway/pod_gateway/server.py:497-518 | every step of gateway, journal, provider, clock and crash keeps the protocol invariant |
| PodAllocation.RunKeepsInvariant | witness-gateway/pod_gateway/server.py:581-645 | every run from an empty journal satisfies the invariant |
| PodAllocation.AtMostOnePost | witness-gateway/pod_gateway/lifecycle.py:310-376 | at most one create request is ever sent for a scope and start identifier, over every run with crashes, uncertain and late writes, failed fences, releases and retries |
| PodAllocation.PostsAreSpaced | witness-gateway/pod_gateway/lifecycle.py:350-352 | the i-th and j-th create requests that are sent carry times at least (j - i) intervals apart |
| PodSpacing.AuthorisationsAreSpaced | witness-gateway/pod_gateway/admission.py:224-241 | so do the i-th and j-th authorisation to reach the journal, those fenced off, unconfirmed, released or landing late among them |
| PodAllocation.CapacityIsRoom | witness-gateway/pod_gateway/lifecycle.py:337-349 | when admission finds capacity there is room for one more Pod beside listed ones and those still to appear |
| PodLifecycle.HasRoomIsRoom | witness-gateway/pod_gateway/admission.py:35-44 | admission finds room exactly when listed workers, and whichever counted creates without a listed Pod still make one, leave room for one more |
| PodAdmission.RoomIsCapacity | witness-gateway/pod_gateway/lifecycle.py:337-349 | on a listing of the visible Pods that check and the step machine's capacity are the same, so that the machine's bounds are bounds on what is made |
| PodAllocation.FleetIsBounded | witness-gateway/pod_gateway/lifecycle.py:337-349 | listed Pods and creates still to appear never exceed the bound plus the creates a rollover displaced |
| PodAllocation.FleetIsBoundedWithFreshStarts | witness-gateway/pod_gateway/admission.py:35-44 | they never exceed the bound when no start identifier is used in two rounds |
| PodFleet.FleetMayExceedItsBound | witness-gateway/pod_gateway/admission.py:296-304 | for every number there is a run with a bound of two in which that many Pods are on their way at once |
| PodFleet.EveryRoundSends | witness-gateway/pod_gateway/server.py:120-137 | in that run every round rolls over, restarts the gateway and sends a create with the same start identifier |
| PodAllocation.InFlightStaysUnresolved | witness-gateway/pod_gateway/lifecycle.py:337-349 | a sent create whose Pod may still appear is unresolved in the journal and in the cached copy that admission reads, unless displaced |
| PodAllocation.ReleasedCreateWasNotSent | witness-gateway/pod_gateway/server.py:501-505 | an authorisation is released only when its create request was never sent |
| PodAllocation.DisplacedWereAskedAgain | witness-gateway/pod_gateway/admission.py:296-304 | every create that a rollover displaces was asked for again, under the same start identifier, in a later round |
| PodLifecycle.WinnerIgnoresOrder | witness-gateway/pod_gateway/lifecycle.py:69-83 | the winner does not depend on the order or repetition of the inventory |
| PodLifecycle.WinnerIs | witness-gateway/pod_gateway/lifecycle.py:69-83 | the winner is of the start with the newest epoch, ties to the greater identifier: an active Pod, failing that a pending one, failing that any, with the smallest identity |
| PodLifecycle.ReplacedIsSameMiner | witness-gateway/pod_gateway/lifecycle.py:324-330 | a worker replaces workers of its miner of any round, a gateway itself alone |
| PodLifecycle.LatePodsAndActiveWinner | witness-gateway/pod_gateway/lifecycle.py:69-83 | late dormant Pods displace an active winner if and only if one has a newer epoch than the winner's start is listed with, or the same epoch and a later start |
| PodLifecycle.Provider.Rename | witness-gateway/pod_gateway/lifecycle.py:150-155 | no scope has two active Pods before or after any request to the provider; a Pod may be activated only when no other is active in its scope |
| PodLifecycle.Winner | witness-gateway/pod_gateway/lifecycle.py:69-83 | returns the preferred Pod of the newest start, or nothing when there is no Pod |
| PodLifecycle.Allocator.Rename | witness-gateway/pod_gateway/lifecycle.py:133-163 | success means that the Pod was found unchanged and the lifecycle was read back on it; only the named Pod can become active |
| PodLifecycle.Allocator.Retire | witness-gateway/pod_gateway/lifecycle.py:165-193 | a Pod is retired only when confirmed absent and is not active while retiring; a running one that has to drain goes only after it reported; retiring activates nothing |
| PodLifecycle.Allocator.RetireLosers | witness-gateway/pod_gateway/lifecycle.py:200-210 | unless blocked, every listed Pod of another start than the winner's is gone for good |
| PodLifecycle.Allocator.Reconcile | witness-gateway/pod_gateway/lifecycle.py:195-227 | at most one Pod of a scope is active at every provider call; only the winner, of the current image and specification, is activated, after every listed Pod of another start is confirmed absent; an allocated session is of a Pod listed as active or read back as such |
| PodLifecycle.Allocator.Settle | witness-gateway/pod_gateway/lifecycle.py:211-227 | what becomes of the winner: left pending, retired or activated, and what its session then says of the Pod at the provider |
| PodLifecycle.Allocator.RetireReplaced | witness-gateway/pod_gateway/lifecycle.py:324-336 | goes on only when every Pod that the new one replaces is gone, and stops only at one that is still there |
| PodLifecycle.Allocator.Submit | witness-gateway/pod_gateway/lifecycle.py:350-376 | marks the operation submitted and then requests once; the session tells a rejection, an uncertain reply and a created Pod apart |
| PodLifecycle.Allocator.Request | witness-gateway/pod_gateway/lifecycle.py:355-376 | the create request is made only for an operation that is marked submitted already, and only once |
| PodLifecycle.Allocator.Progress | witness-gateway/pod_gateway/lifecycle.py:310-376 | sends at most one create, exactly for an unsent, authorised operation whose replaced Pods are gone and for whatever may come there is room; capacity is refused only when listed and counted creates fill the bound |
| PodLifecycle.Allocator.NextEpoch | witness-gateway/pod_gateway/lifecycle.py:292-295 | a new operation's epoch is the clock or one above a listed Pod's, and later than every listed Pod's of its scope |
| PodLifecycle.Allocator.Acquire | witness-gateway/pod_gateway/lifecycle.py:255-308 | at most one create is sent: never again for a submitted operation, only after every Pod it replaces is gone and with room; a conflict is raised exactly for other parameters or another start inside its grace; a new operation is later than every listed Pod |
| PodLifecycle.Allocator.Adopt | witness-gateway/pod_gateway/lifecycle.py:255-276 | a connection with listed Pods gets the session of their winner, or a conflict exactly when that has other parameters |
| PodLifecycle.Allocator.ReconcileScope | witness-gateway/pod_gateway/lifecycle.py:229-246 | sends a create only for an operation not submitted before, and otherwise tells and records what became of the winner |
| PodLifecycle.Allocator.Current | witness-gateway/pod_gateway/lifecycle.py:85-99 | an operation that still waits is reported unless a listed Pod is as new; otherwise the winner as it is listed; exactly an expired operation is marked lost |
| PodLifecycle.Allocator.Cancel | witness-gateway/pod_gateway/lifecycle.py:248-253 | forgets an unsubmitted operation of that start and nothing else |
| PodLifecycle.Run | witness-gateway/pod_gateway/lifecycle.py:85-376 | over every run of calls, provider changes and crashes that lose the operations, at most one Pod of a scope is active, and no call sends more than one create |
| ReplaySchedule.SmallestUnfiredIsReady | miner-runtime/src/miner_runtime/observations.py:218-257 | no deadlock: the unfired boundary with the smallest tick is enabled once its caller has arrived |
| ReplaySchedule.FiringShrinksRemaining | miner-runtime/src/miner_runtime/observations.py:182-271 | every firing leaves fewer boundaries to fire |
| ReplaySchedule.ReplayCompletes | miner-runtime/src/miner_runtime/observations.py:182-271 | from every state of a replay of a complete log the rest can be fired without a wait |
| ReplaySchedule.SomebodyMayGoOn | miner-runtime/src/miner_runtime/observations.py:182-271 | while a logged boundary has not fired there is a caller that TryEnter or TryExit lets through |
| ReplaySchedule.OpenExitMayOvertake | miner-runtime/src/miner_runtime/observations.py:258-266 | a log on which the exit of an open operation returns before a logged entry that precedes it |
| ReplaySchedule.FiringKeepsOrder | miner-runtime/src/miner_runtime/observations.py:218-257 | a boundary that fires after everything it must follow keeps the recorded order of the run |
| ReplaySchedule.RecordingKeepsOrder | miner-runtime/src/miner_runtime/observations.py:203-214 | a boundary logged with the next tick does not change what had to precede those that fired |
| ReplaySchedule.LiveExitOrder | miner-runtime/src/miner_runtime/observations.py:258-266 | a live exit is in order if and only if every logged operation has been entered, and left where the log has it leave |
| ReplaySchedule.ReplayKeepsOrder | miner-runtime/src/miner_runtime/observations.py:182-271 | in every interleaving of a log without open operations, exit before entry, entry before exit and exit before exit are restored as recorded |
| ReplaySchedule.OpeningKeepsLoadable | miner-runtime/src/miner_runtime/observations.py:203-214 | the snapshot written when an operation is logged passes the constructor's test |
| ReplaySchedule.ClosingKeepsLoadable | miner-runtime/src/miner_runtime/observations.py:258-266 | the snapshot written when an exit is logged passes the constructor's test |
| ReplaySchedule.Schedule.Load | miner-runtime/src/miner_runtime/observations.py:120-154 | an execution is taken up exactly when its ticks are 0 to n - 1 without repeats, exits follow entries, identities are distinct and a finished one has nothing open |
| ReplaySchedule.Schedule.Occurrence | miner-runtime/src/miner_runtime/observations.py:176-180 | numbers the calls of a request from zero |
| ReplaySchedule.Schedule.TryEnter | miner-runtime/src/miner_runtime/observations.py:191-227 | fails exactly when the caller disagrees with the log, waits exactly when a logged exit before it is to come, and else enters or logs; nobody waits once the run has failed |
| ReplaySchedule.Schedule.TryExit | miner-runtime/src/miner_runtime/observations.py:236-268 | a logged exit leaves, waits or fails exactly by its turn and outcome; an unlogged one is logged with the next tick, in order if and only if the run has caught up with the log |
| ReplaySchedule.Schedule.Finish | miner-runtime/src/miner_runtime/observations.py:273-287 | accepts exactly when nothing failed, every operation was entered and left, and a finished execution gives its output again |
| ChachaBlock.QuarterInPlace | witness-client/native/circuit.go:35-44 | the quarter round in place is the one of section 2.1 of RFC 8439 |
| ChachaBlock.QuarterOfStandard | witness-client/native/circuit.go:35-44 | the quarter round gives the numbers of section 2.2.1 of RFC 8439 |
| ChachaBlock.InitialBytes | witness-client/native/circuit.go:29-34 | the state begins as the standard's constant, the key, the counter and the nonce, byte for byte |
| ChachaBlock.Compute | witness-client/native/circuit.go:29-60 | ten double rounds, the final addition and the byte order give the block of section 2.3 |
| CredentialCircuit.LookupTable | witness-client/native/circuit.go:103-111 | the table marks exactly the token characters |
| CredentialCircuit.DefineHeader | witness-client/native/circuit.go:89-102 | the field constraints on kind, counter and lengths mean what they should over the integers |
| CredentialCircuit.DefineByte | witness-client/native/circuit.go:115-135 | the field constraints on a byte, with both comparisons in range, say what is asked of it |
| CredentialCircuit.Define | witness-client/native/circuit.go:62-142 | all constraints are satisfied if and only if the statement means what it should for the key |
| CredentialProof.BigEndianRoundTrip | witness-client/native/proof.go:63-71 | sequence numbers are recovered from their big-endian bytes |
| CredentialProof.RecordNoncesDiffer | witness-client/native/proof.go:63-71 | different records of a connection never share a nonce |
| CredentialProof.FirstNonces | witness-client/native/proof.go:63-71 | the first record's nonce is the vector itself, the second's differs from it in the last bit |
| CredentialProof.InputIsFaultless | witness-client/native/proof.go:73-82 | an input is looked at further exactly when both records are application data records whose header states their length, with room for 64 to 4096 characters and for a key update |
| CredentialProof.FaultlessMeans | witness-client/native/proof.go:103-170 | all checks together: a canonical commitment, the key that goes with it if one is given, and right tags under keys of 32 bytes |
| CredentialProof.NonceAt | witness-client/native/proof.go:63-71 | the in-place exclusive or gives the nonce of section 5.3 of RFC 8446 |
| CredentialProof.AuthenticatedDataIsInjective | witness-client/native/proof.go:83-99 | no two records authenticate the same message |
| CredentialProof.Authenticate | witness-client/native/proof.go:83-99 | compares the tag with that of the message of section 2.8 of RFC 8439 |
| CredentialProof.AssignRecord | witness-client/native/proof.go:170-182 | the loop over chunks gives the MAC statement and one statement for every 256 bytes |
| CredentialProof.Assignments | witness-client/native/proof.go:103-185 | refuses for the first fault in the order of the checks, and otherwise builds all statements of both records |
| CredentialSoundness.MacMeaning | witness-client/native/circuit.go:113-124 | a statement of kind 0 says that the authentication key is the first half of keystream block 0 |
| CredentialSoundness.ChunkIsInRange | witness-client/native/circuit.go:92-102 | every chunk's counter is at most 65 and its numbers are what the circuit accepts |
| CredentialSoundness.ComparisonsAreInRange | witness-client/native/circuit.go:104-131 | compared values differ by at most 4352 for tokens of up to 4096 bytes |
| CredentialSoundness.TokenRecordMeaning | witness-client/native/proof.go:170-182 | the statements of the token record hold exactly when it decrypts to token characters and content type 23 |
| CredentialSoundness.UpdateRecordMeaning | witness-client/native/proof.go:170-182 | those of the second record hold exactly when it decrypts to 24, 0, 0, 1, 0, 22 |
| CredentialSoundness.DecompositionIsExact | witness-client/native/proof.go:103-185 | all statements hold for a key if and only if the whole-record specification does |
| CredentialSoundness.StatementCount | witness-client/native/proof.go:160-183 | there are 3 + ceil((L + 1) / 256) of them |
| CredentialSoundness.Verify | witness-client/native/proof.go:256-286 | accepts exactly keyless input without fault whose proofs match the statements one for one |
| CredentialSoundness.Prove | witness-client/native/proof.go:187-220 | makes one proof for every statement of its own bundle, or fails |
| CredentialSoundness.AcceptedIsEstablished | witness-client/native/proof.go:256-286 | an accepted bundle whose commitment no second key has shows that both records open, under the one committed key, as a token of the observed length and a key update |
| CredentialSoundness.AcceptedOrCollision | witness-client/native/proof.go:256-286 | without that assumption, it shows as much or yields two keys with the commitment it carries |
| CredentialSoundness.AcceptedRecords | witness-client/native/proof.go:73-82 | an accepted bundle's records are, byte for byte, application data records of the right lengths, authenticated under its keys |
| CredentialSoundness.ProvableIffEstablished | witness-client/native/proof.go:187-220 | a bundle can be made if and only if the records open so under the key |
| CredentialSoundness.ProvedIsAccepted | witness-client/native/proof.go:187-286 | what was proved with the key is accepted without it |
| CredentialSoundness.SealedIsEstablished | witness-client/native/proof.go:187-220 | the records that a client seals from any token and a key update establish that token |
| CredentialSoundness.HonestClientIsAccepted | witness-client/native/proof.go:187-286 | for every key and token there is an input and a bundle that verification accepts |
| Timeline.Derive | judge-service/judge_service/timeline.py:60-156 | the loop computes the standings that the lemmas are about |
| Timeline.DerivedIsTimeline | judge-service/judge_service/timeline.py:92-156 | the entries are those of the qualified candidates in order, each naming who held the lead and with the one status, margin and verification that its checks and its duel call for |
| Timeline.WinnerHoldsLead | judge-service/judge_service/timeline.py:47-49 | the winner won the last duel that was won, or is the leader when none was |
| Timeline.ReasonMeans | judge-service/judge_service/timeline.py:159-164 | a candidate is out exactly when a check failed; a failed validation is the reason before a failed audit |
| Timeline.IsFinalized | judge-service/judge_service/timeline.py:51-58 | true exactly when no duel is missing and every leader is verified |
| Timeline.NextMatch | judge-service/judge_service/timeline.py:32-37 | the first pending duel, or none when there is none |
| Timeline.FindExploratoryDuel | judge-service/judge_service/timeline.py:39-45 | the first pair of contenders without a cached match, or none when all have met |
| Timeline.RejectedDoNotInterfere | judge-service/judge_service/timeline.py:96-111 | without rejected candidates the other entries, their order and the chain are the same |
| Timeline.LeadersAreChain | judge-service/judge_service/timeline.py:92-156 | each leader beat the one before it by the margin, and is verified exactly when all up to it passed both checks |
| Timeline.FinalizedIffLastVerified | judge-service/judge_service/timeline.py:51-58 | finalized if and only if nothing is pending and the last leader is verified |
| Timeline.FinalizedLeadersPassed | judge-service/judge_service/timeline.py:47-58 | the winner of a finalized timeline is the last defender, and it and every leader before it passed both checks |
| Timeline.FinalizedIsStable | judge-service/judge_service/timeline.py:51-58 | later matches and verdicts leave a finalized, settled timeline with the same chain |
| Timeline.UnsettledIsUnstable | judge-service/judge_service/timeline.py:96-141 | otherwise some later cache changes it |
| Timeline.StableIffSettled | judge-service/judge_service/timeline.py:51-58 | a finalized timeline never changes if and only if every candidate is settled; having met the leader is enough |
| Timeline.EarlyFinalizationIsUnstable | judge-service/judge_service/timeline.py:51-58 | a round without matches is finalized, and is not any more when a match arrives |
| RoundRunner.UnfinalizedIsHeldUp | judge-service/judge_service/round_runner.py:163-192 | with nothing left to play, the first unverified leader has a verified defender, no failed check, a check missing and its validation requested |
| RoundRunner.RoundRunner.RequestValidations | judge-service/judge_service/round_runner.py:237-248 | requests exactly once for every candidate that took the lead, and drops no request |
| RoundRunner.RoundRunner.EnsureMatch | judge-service/judge_service/round_runner.py:250-263 | a match that is not cached is run once and its result kept, unless a shutdown interrupts it |
| RoundRunner.RoundRunner.Qualify | judge-service/judge_service/round_runner.py:205-220 | afterwards every candidate that is not rejected has met the leader |
| RoundRunner.RoundRunner.Advance | judge-service/judge_service/round_runner.py:168-189 | one turn, never on verdicts older than the last match run, finalizes, runs an uncached match, or finds that only verdicts are missing |
| RoundRunner.RoundRunner.Await | judge-service/judge_service/round_runner.py:190-192 | the loop waits only in that situation |
| RoundRunner.RoundRunner.Run | judge-service/judge_service/round_runner.py:140-194 | ends, runs at most one match for each pair of competitors and one interrupted, and finalizes, for whoever won the last duel won, only what never changes |
| DuelJudge.RunStage1 | judge-service/judge_service/judges/multi_stage.py:641-709 | the two loops give every angle the mean penalties of both orders and mark contradictions |
| DuelJudge.DirectionConsistency | judge-service/judge_service/judges/multi_stage.py:711-726 | the loop weighs the angles that lean to either side |
| DuelJudge.AggregateAngles | judge-service/judge_service/judges/multi_stage.py:729-751 | the first stage's decision, which weighs directions only when the means are apart, is the aggregate that the lemmas are about |
| DuelJudge.Consensus | judge-service/judge_service/judges/multi_stage.py:1074-1083 | the tally, with ties in the order of first votes, is the majority |
| DuelJudge.EvaluateDuel | judge-service/judge_service/judges/multi_stage.py:1480-1616 | the stages, each gating the next, give the outcome that the lemmas are about |
| DuelJudge.DuelIsSymmetric | judge-service/judge_service/judges/multi_stage.py:1480-1616 | with sides swapped the same model wins, over all answers and all stages |
| DuelJudge.SameModelDraws | judge-service/judge_service/judges/multi_stage.py:1480-1616 | a model never beats itself |
| DuelJudge.SplitMeansDisagreement | judge-service/judge_service/judges/multi_stage.py:711-748 | on at most four angles of equal weight the split rule fires exactly when three or more lean and they disagree |
| DuelJudge.FrontWinnerIsClear | judge-service/judge_service/judges/multi_stage.py:729-751 | stage 1 decides for a side if and only if the means are clearly in its favour and, when three or more angles lean, none leans to the other side |
| DuelJudge.MajorityOfThree | judge-service/judge_service/judges/multi_stage.py:1074-1083 | a side wins stage 2 by consensus if and only if two of the three sub-judges vote for it |
| DuelJudge.PrimaryWinner | judge-service/judge_service/judges/multi_stage.py:1039-1084 | after a drawn first stage a model is preferred exactly when a sub-judge is sure of it and none of the other, or two prefer it, or two preferring neither, the gray views do; lower penalties and higher scores count for it |
| DuelJudge.RescueWinner | judge-service/judge_service/judges/multi_stage.py:1128-1233 | the gray views decide exactly when the gate is open, both orders agree and the mean penalties are two apart |
| DuelJudge.GateInTenths | judge-service/judge_service/judges/multi_stage.py:1089-1129 | the gate opens when a tenth of the foreground is pale and six tenths are grayish |
| DuelJudge.ScoreCounts | judge-service/judge_service/judges/multi_stage.py:971-973 | a checklist gives two points for a match, one for a partial one and three for the main object |
| DuelJudge.LeadIsInScore | judge-service/judge_service/judges/multi_stage.py:983-1034 | the model with the higher score leads by the difference |
| DuelJudge.GarbageIsThreeOfFour | judge-service/judge_service/judges/multi_stage.py:1280-1282 | a side is garbage when at most one of its four views is not |
| DuelJudge.DuelWinner | judge-service/judge_service/judges/multi_stage.py:1480-1616 | who wins: the model that is there; the one the first stage prefers; else the one the later stages prefer, stepped down or replaced by the side guard |
| PngDecoder.DecodeRow | judge-service/judge_service/judges/multi_stage.py:577-608 | reconstructs a row in place, or fails on an unknown filter; a short scanline leaves zeros |
| PngDecoder.PaethIsNearest | judge-service/judge_service/judges/multi_stage.py:594-604 | of left, up and upper left, in this order, the first nearest to the estimate |
| PngDecoder.PredictorIsStandard | judge-service/judge_service/judges/multi_stage.py:582-604 | the predictions of sections 6.2 to 6.6 of RFC 2083, with zeros before the first pixel |
| PngDecoder.Decode | judge-service/judge_service/judges/multi_stage.py:571-610 | all rows, or the first reason why there are none |
| PngDecoder.DecodeAfterEncode | judge-service/judge_service/judges/multi_stage.py:571-610 | every image comes back from its scanlines, with any filter of section 6 of RFC 2083 for every row and any bytes per pixel |
| PngDecoder.EncodeAfterDecode | judge-service/judge_service/judges/multi_stage.py:571-610 | a full stream is the encoding of what it decodes to |
| SceneWalk.Walker.CollectTextureBytes | render-service-js/src/post-validate.js:69-82 | counts each data texture once, over all materials and slots |
| SceneWalk.Walker.Enter | render-service-js/src/post-validate.js:107-127 | one visit keeps all counters equal to their sums over the visited nodes |
| SceneWalk.Walker.Walk | render-service-js/src/post-validate.js:84-135 | terminates on every finite graph; explores all that continues its route, or gives up for a reason that holds |
| SceneWalk.ExploredIsTree | render-service-js/src/post-validate.js:84-135 | a completed walk saw a tree of height at most 32, all of it, each node by its only route |
| SceneWalk.WalkedIsTree | render-service-js/src/post-validate.js:84-140 | its counters are sums over the reachable nodes, its depth their greatest, its bytes a sum over distinct textures |
| SceneWalk.ExplainedIsNoTree | render-service-js/src/post-validate.js:87-105 | a walk that was given up saw a shared node, a cycle or a node too deep |
| SceneWalk.PostValidate | render-service-js/src/post-validate.js:32-211 | metrics exist if and only if the graph is a shallow tree; each rule is reported exactly when it is broken, a walk that was given up reports why, and the scene passes if and only if every limit holds |
| SceneWalk.FramedIsRootBelowGroup | render-service-js/src/post-validate.js:54-58 | a root that is no group is judged below a new one that draws nothing: what is reached is the group and what the root reaches |
| SceneWalk.FramedIsOneDeeper | render-service-js/src/post-validate.js:54-58 | it is too deep exactly when the root itself has a route of 32 steps |
| GitBatcher.RestoringKeepsAll | shared/subnet_common/git_batcher.py:161-173 | putting a snapshot back never reinstates an older value, whether or not it landed |
| GitBatcher.GitBatcher.Write | shared/subnet_common/git_batcher.py:50-91 | queues, and starts a commit exactly when none runs and the interval has passed |
| GitBatcher.GitBatcher.BeginCommit | shared/subnet_common/git_batcher.py:107-118 | swaps everything pending into the snapshot in one step |
| GitBatcher.GitBatcher.CommitSucceeds | shared/subnet_common/git_batcher.py:123-137 | the snapshot lands, newer writes stay pending, and a waiting flush answers true only if all has landed |
| GitBatcher.GitBatcher.RestorePendingWithoutOverwrite | shared/subnet_common/git_batcher.py:161-173 | adds back only paths without a newer write |
| GitBatcher.GitBatcher.CommitFails | shared/subnet_common/git_batcher.py:139-159 | nothing is lost whether or not the commit reached the branch, and the interval is shortened |
| GitBatcher.GitBatcher.Flush | shared/subnet_common/git_batcher.py:67-80 | true exactly when nothing is pending; without a commit in flight that means that every write has landed |
| GitBatcher.FlushMayAnswerEarly | shared/subnet_common/git_batcher.py:74-75 | a true answer while the first commit is in flight and nothing has landed |
| GitBatcher.GitBatcher.NewestIsKept | shared/subnet_common/git_batcher.py:50-173 | the newest content of a path is pending, else in flight, else landed |
| GitBatcher.Run | shared/subnet_common/git_batcher.py:50-173 | that holds after every interleaving of writes, flushes and ends of commits |
| ProverPool.ProverPool.Acquire | witness-client/native/python_pool.go:44-63 | leases the context released last, is refused after a failed initializer, or waits and starts one |
| ProverPool.ProverPool.GrowIfNeeded | witness-client/native/python_pool.go:66-71 | starts an initializer exactly when calls wait, there is room and none runs |
| ProverPool.ProverPool.Handoff | witness-client/native/python_pool.go:75-84 | a free context goes to the oldest waiting call, else becomes available |
| ProverPool.ProverPool.Release | witness-client/native/python_pool.go:86-90 | a returned context has at most one owner afterwards and none is lost |
| ProverPool.ProverPool.GrowEnds | witness-client/native/python_pool.go:92-120 | a new context is counted and handed off, or every waiting call gets the error |
| ProverPool.Run | witness-client/native/python_pool.go:44-120 | over every interleaving contexts are conserved, owners distinct, waiters served in order, and whoever waits will be answered |
| ValidationPool.ValidationPool.Settle | render-service-js/src/validation-pool.js:101-112 | a request leaves its worker and is settled, once |
| ValidationPool.ValidationPool.Retire | render-service-js/src/validation-pool.js:114-120 | a failed worker is unavailable and all its requests are settled |
| ValidationPool.ValidationPool.Validate | render-service-js/src/validation-pool.js:154-191 | refused exactly when the pool shuts down, nothing runs or is replaced, or posting raises; posted to the worker idle longest if there is one; else queued |
| ValidationPool.ValidationPool.Release | render-service-js/src/validation-pool.js:193-200 | an idle worker goes to the oldest waiting call, else becomes available; a retired one does neither |
| ValidationPool.ValidationPool.OnResult | render-service-js/src/validation-pool.js:101-112 | only the request a worker still has is settled by its result; then the worker serves the oldest waiting call or becomes available |
| ValidationPool.ValidationPool.OnTimeout | render-service-js/src/validation-pool.js:158-166 | settles the request without making its worker available |
| ValidationPool.ValidationPool.OnExit | render-service-js/src/validation-pool.js:85-97 | retires the worker and begins one replacement unless the pool shuts down |
| ValidationPool.ValidationPool.OnReplaced | render-service-js/src/validation-pool.js:122-152 | the new worker serves the oldest waiting call; when nothing can come any more, no call is left waiting |
| ValidationPool.ValidationPool.Shutdown | render-service-js/src/validation-pool.js:202-206 | every waiting call is refused and none is accepted afterwards |
| ValidationPool.ValidationPool.WaitersHaveHope | render-service-js/src/validation-pool.js:122-191 | while a call waits, a worker runs, is about to exit, or is being replaced |
| ValidationPool.Run | render-service-js/src/validation-pool.js:101-214 | over every interleaving each call is waiting, pending or settled once, workers have one request, available ones are idle and unfailed |
| RateLimiter.AdmissionIsAccounted | witness-gateway/pod_gateway/server.py:256-266 | an admission keeps the account of tokens against past admissions |
| RateLimiter.RateLimiter.IsLimited | witness-gateway/pod_gateway/server.py:182-186 | limited exactly when busy or short of a token |
| RateLimiter.RateLimiter.Forget | witness-gateway/pod_gateway/server.py:259-261 | exactly the buckets used within a minute, or the time a bucket takes to fill, are kept; those forgotten had filled up |
| RateLimiter.RateLimiter.DecidesAlike | witness-gateway/pod_gateway/server.py:182-186 | the table that forgets decides like one that does not |
| RateLimiter.RateLimiter.Admit | witness-gateway/pod_gateway/server.py:256-267 | the answer is that of a limiter that never forgets, except when the table of 4097 is full of recent buckets, which is told apart; the table never grows beyond that |
| RateLimiter.WindowIsBounded | witness-gateway/pod_gateway/server.py:256-266 | any stretch of length w admits at most 2 + w / interval requests of a hotkey, and tokens stay between 0 and 2 |
| RateLimiter.RefusalIsNeeded | witness-gateway/pod_gateway/server.py:182-186 | an idle hotkey is refused exactly when one more admission would exceed 2 + w / interval in some stretch of length w |

## Left out

- The journal's format: its revision, its encoded size (a journal too large is refused at any time), `eligible_at`, validation of identifiers, and another deployment's journal.
- `StartQueue.entries` and `pending`, which only read, and `discard_old`, which serves a gateway without rounds.
- The pacing of the gateway's `_step` (due times, polling, startup expiry and grants), authentication, HTTP, WebSockets, capabilities and TLS.
- `Selection`: whether a Pod's selection is revoked, refused or drained is an arbitrary answer here, so nothing is said about it.
- `Allocator.status` and `selected`, which only read the inventory.
- `CreateRejected` statuses, Pod specifications beyond image and fingerprint, and other deployments' Pods at the provider.
- ReplaySchedule.Schedule.TryEnter: two threads that arrive with the same unlogged identity at once are not modelled, because occurrence numbers are handed out one by one.
- Exchange identifiers, recorded failures, stream chunks and the deadline of a wait; a wait that runs out is a failure at any time.
- An aborted execution, which the runner puts aside and never loads again.
- CredentialProof.Assignments: inputs are bytes; hexadecimal text, including a commitment in capitals, is not modelled.
- CredentialCircuit.Define: range checks that turn field elements into bytes and 32-bit words are taken from the type of the inputs.
- Decoding and subgroup checks of Groth16 proofs, and the certificate chain.
- The text of the timeline, notifications, reports, generations and the transition to the next stage.
- RoundRunner.RoundRunner.Run: exceptions of a match or of the repository end the run in the source and are not modelled; wake-ups from a wait are bounded by a number given in advance.
- Floating point: margins, penalties, thresholds and tokens are exact numbers.
- The pixel loop of stage 3, the choice of the best view by embeddings, retries and JSON repair of the vision model; the two halves of a pixel count are added.
- PNG chunks, their header and decompression: decoding starts from the decompressed stream.
- The bounding box, which the graphics library computes; getters and proxies in scene objects; a former parent from which a wrapped root is removed.
- `GitBatcher.read`, cancellation of a task during a commit, and commits of other writers on the branch.
- The start of the validation pool and its restart after a shutdown, timers, and when a worker that was told to terminate exits; handing a worker to a call and posting to it is one step.
- Building of prover contexts, and the channel that announces changes of their number.
- The gateway's limit over all hotkeys together, and its limits on bodies and headers.

# RustJSI: the protocols, the registries and the teardown accounting, proved

RustJSI lends a JavaScript engine to Rust code. Work for the engine's thread goes through a bounded
mailbox that many threads push into and that must be closed without losing a payload. Above it, an
owner pairs one mailbox with one engine attachment at a time. Below it, the JavaScriptCore backend
keeps persistent roots in a generational registry and owes the engine one unprotect for every
protect. This project models those parts in Dafny and proves what they promise.

Two kinds of file. A class (`IngressGate`, `DrainSignal`, `WorkQueueModel`, `EntryGate`,
`LifecycleModel`, `Store`, `SlotMap`, `LocalRoots`, `LocalBudget`, `RuntimeIdentity`,
`DrainRegistration`) changes its fields step by step as the source does, and each method is proved to
return and leave what an operation on a value says. What the source promises is then proved about
those values. Where operations interleave, or nest on one thread, the model is a transition system
over the same values, and a theorem quantifies over every run.

| files | part of the system |
|---|---|
| `Ingress`, `Drain` | the packed admission word and the five-state drain signal |
| `WorkQueue`, `WorkQueueTheorems`, `WorkQueueHistory` | the repository's sequential reference for work admission, and its own guarantees |
| `Mailbox`, `MailboxInvariant`, `MailboxOwnership`, `MailboxTheorems`, `MailboxAnswers`, `MailboxDecisions` | the close-aware mailbox: any number of enqueues, retry posts, acquires, drains, closers and terminal owners, one atomic access at a time |
| `MailboxRefinement`, `MailboxRuns` | every mailbox run is a run of the reference; runs that reach the corners of the protocol |
| `BoundedMailbox` | the mailbox without close |
| `Entry`, `Lifecycle`, `EntryRefinement` | the entry gate, its lifecycle reference with the emitted trace, and the refinement between them |
| `WorkOwner`, `WorkOwnerTheorems`, `Dispatch` | attachment identity, registration, close before replace, dispatch of one record |
| `RootRegistry`, `RootStore`, `RootTable` | the root registry as values, as the object updated in place, and seen from outside |
| `JscRuntime`, `JscBalance`, `JscTheorems`, `LocalRoots` | protections, local budget, scopes, host functions and teardown of one attachment |
| `JscHandles`, `JscNesting` | how long a persistent handle lasts; operations and publications with script nested inside them |
| `JscLimits`, `JscEffects` | what every run stays within; what each operation takes and gives, exactly |
| `EntryFrames`, `EntryFrameTheorems` | the entry-frame stack of a thread and deferred teardown |
| `ExternalLedger` | two-counter admission of external buffers |
| `ModelBackend`, `ModelBackendTheorems`, `SlotMaps` | the deterministic backend's reachability and buffer accounting |
| `Wrappers`, `Words`, `Bags` | shared datatypes, machine words, small facts about multisets |

Six things the proofs turned up, each with a run that shows it and the exact condition:

- The reference issues reservation and lease ids from `u64` sequences that end. The mailbox matches it
  exactly on the runs that stay within them (`MailboxRefinement.RefinesExactlyWithinIds`), and some
  runs do not (`MailboxRuns.RunsOutliveTheReference`). The same holds for the entry gate and its
  reference (`EntryRefinement.RefinesExactlyWhileEntriesLast`, `EntryRefinement.RunsOutliveTheReference`).
- An enqueue answers Closed on an open mailbox whose permit field is full. Some run fills it
  (`MailboxRuns.SaturationLooksClosed`); `MailboxTheorems.EnqueueClosedExactly` says when the answer is given.
- A terminal attempt that meets a live normal permit stops every later acquire and retry post for
  good, although the mailbox has no terminal owner yet (`MailboxRuns.ClaimCanBeRefused`,
  `MailboxTheorems.FailedClaimStopsDrains`). What an attempt does to drains is decided by the producer
  gate at its first access: open, or closing with a permit live, it is refused there and changes
  nothing; otherwise it goes on to close the normal gate, whether it is refused later or not
  (`MailboxTheorems.RefusalsThatSpareDrains`, `MailboxTheorems.PastClaimsStopDrains`).
- A mailbox closed through its loan to a drain task finishes, but cannot be replaced until the owner
  makes its own close (`CloseThroughLentMailbox`, `OwnerCloseAdmitsReplacement`, `ReplaceExactly`).
- A buffer that is being released on another thread can cost a reservation its admission although
  no buffer is live (`ReleaseInProgressBlocks`, `ReleaseFinishedAdmits`, `RefusedExactly`).
- The deterministic backend's `live_bytes` is always exact. Its counts of accepted and finalized owners
  stand still once they reach their word (`StatisticsAreExact`, `CountsSaturate`).

## Model

| member | source | states |
|---|---|---|
| Ingress.PackIsInjective | runtime/src/ingress.rs:6-11 | phase and permit count share one word without loss: distinct gates have distinct words, all below the word limit |
| Ingress.IngressGate.Reserve | runtime/src/ingress.rs:129-153 | on the packed word, a permit is granted exactly when the phase is open and the count field is not full; the increment never reaches the phase bits |
| Ingress.IngressGate.BeginClose | runtime/src/ingress.rs:163-191 | only the first close wins, the count is kept, and the answer reports permits in flight |
| Ingress.IngressGate.TrySeal | runtime/src/ingress.rs:205-232 | sealing needs a closing gate with no permit; sealed stays sealed |
| Ingress.IngressGate.SettleReservation | runtime/src/ingress.rs:234-240 | with a live permit the wrapping subtraction takes one off the count and never borrows from the phase |
| Ingress.IngressGate.StateFromRaw | runtime/src/ingress.rs:273-281 | every word the gate can hold decodes to a phase; the panic arm is dead |
| Drain.DrainSignal.Request | runtime/src/drain.rs:133-159 | requests coalesce: exactly Idle becomes Pending and schedules |
| Drain.DrainSignal.Acquire | runtime/src/drain.rs:168-194 | acts as the value's acquire, which takes exactly a pending drain (SignalIsTwoFlags) |
| Drain.DrainSignal.Close | runtime/src/drain.rs:202-216 | the prior state is reported once |
| Drain.DrainSignal.Finish | runtime/src/drain.rs:218-249 | a request that came during the drain leaves it pending |
| Drain.SignalIsTwoFlags | runtime/src/drain.rs:133-249 | until closed the signal is two flags, asked and running: a request sets the first and schedules when both were clear, an acquire trades the first for the second and takes exactly a pending drain, completion clears the second and reports the first |
| Drain.FlagsAreExact | runtime/src/drain.rs:133-249 | the flags lose nothing, and a closed signal answers so for ever |
| WorkQueueTheorems.ReserveKeeps | testkit/src/work_queue.rs:186-199 | a ticket is never issued while it is outstanding |
| WorkQueueTheorems.TicketsNeverRepeat | testkit/src/work_queue.rs:186-199 | over any history no ticket is granted twice |
| WorkQueueTheorems.PublishSettles | testkit/src/work_queue.rs:209-223 | whatever it answers, a publication settles its ticket for good; the payload is last in the queue, or handed back exactly when the queue is full |
| WorkQueueTheorems.DrainExcludes | testkit/src/work_queue.rs:257-301 | from a normal lease until its finish no other lease of either kind is granted |
| WorkQueueTheorems.TerminalExcludes | testkit/src/work_queue.rs:308-388 | from a terminal lease until it ends nothing is granted and nothing published |
| WorkQueueTheorems.ClosedForEver | testkit/src/work_queue.rs:358-370 | a finished reference stays closed and empty, grants nothing and accepts nothing |
| WorkQueueTheorems.PerformKeeps | testkit/src/work_queue.rs:132-408 | every call keeps terminal ownership exclusive, a closed queue empty, and outstanding tokens issued |
| WorkQueueTheorems.ReferenceIsCoherent | testkit/src/work_queue.rs:132-408 | so does every history, abandoned tickets and refused calls included |
| WorkQueueTheorems.ReferenceIsFifo | testkit/src/work_queue.rs:209-370 | over every history published payloads leave once, in order, through normal or terminal pops |
| WorkQueueTheorems.ReferenceRuns | testkit/src/work_queue.rs:132-408 | from an empty reference both hold of every history |
| WorkQueueHistory.HistoryMirrors | testkit/src/work_queue.rs:132-408 | notes of the calls and answers alone determine the lifecycle and every outstanding token |
| WorkQueueHistory.SubmissionsFollowHistory | testkit/src/work_queue.rs:186-244 | so a reservation is granted exactly before close, and a ticket publishes or is abandoned exactly while outstanding |
| WorkQueueHistory.DrainsFollowHistory | testkit/src/work_queue.rs:257-301 | a normal lease is granted exactly when no terminal one was, none is out and there is work; exactly the lease that is out pops and finishes |
| WorkQueueHistory.OwnersFollowHistory | testkit/src/work_queue.rs:308-388 | a terminal lease is granted after close once all tokens are settled, or again after a release; each refusal names the obstacle |
| MailboxInvariant.ProducerIsSafe | runtime/src/closable_mailbox.rs:218-278 | each access of an enqueue keeps the order of closing and trades permits exactly for counts |
| MailboxInvariant.DrainIsSafe | runtime/src/closable_mailbox.rs:369-413 | each access of a drain, its finish and its drop does; the permit goes before the admission |
| MailboxInvariant.ClaimIsSafe | runtime/src/closable_mailbox.rs:281-366 | each access of a close and of a terminal claim does |
| MailboxInvariant.OwnerIsSafe | runtime/src/closable_mailbox.rs:415-462 | each access of a terminal owner, its finish and its drop does |
| MailboxInvariant.RunKeepsInv | runtime/src/closable_mailbox.rs:129-462 | permits are counted, nothing is stranded, payloads are conserved and posts accounted for on every run |
| MailboxTheorems.NoPanic | runtime/src/closable_mailbox.rs:231-235 | on no run is an `unreachable!` reached, a permit underflowed, a live drain's signal lost or a terminal owner stale |
| MailboxTheorems.NoStrandedWork | runtime/src/closable_mailbox.rs:218-238 | while the signal is idle, each queued payload's producer is between its push and its request |
| MailboxTheorems.RetainedWorkIsOwed | runtime/src/closable_mailbox.rs:394-413 | once no operation is under way, retained work has a drain pending or a terminal owner to come |
| MailboxTheorems.TerminalExclusion | runtime/src/closable_mailbox.rs:306-366 | a terminal owner is alone: producers sealed without a permit, no drain or retry live, signal closed |
| MailboxTheorems.OneNormalDrain | runtime/src/closable_mailbox.rs:286-304 | two live normal drains are the same one |
| MailboxTheorems.PostsExcludeTerminalOwners | runtime/src/closable_mailbox.rs:186-278 | while an initial, successor or retry post runs, no terminal owner exists |
| MailboxTheorems.PayloadsAreConserved | runtime/src/closable_mailbox.rs:369-449 | accepted payloads, in push order, are those drained, then those recovered, then those queued |
| MailboxTheorems.PayloadHasOneOwner | runtime/src/closable_mailbox.rs:218-278 | each offered payload is carried by its caller or was accepted exactly once, never both |
| MailboxTheorems.ClosedIsFinal | runtime/src/closable_mailbox.rs:415-449 | a closed mailbox is empty for ever and has transferred everything it accepted |
| MailboxTheorems.TerminalProgress | runtime/src/closable_mailbox.rs:312-366 | after close, with no permit left, a claim run alone succeeds unless an owner is active or finished |
| MailboxTheorems.SettledClaimsNeverWait | runtime/src/closable_mailbox.rs:312-366 | and under every interleaving: once both gates have stopped admitting and their permits have settled, no claim is again turned away for a permit |
| MailboxTheorems.RefusalsAreTruthful | runtime/src/closable_mailbox.rs:312-366 | each refusal names what stands in the way, with the exact number of permits |
| MailboxTheorems.FailedClaimStopsDrains | runtime/src/closable_mailbox.rs:327-336 | a claim refused for live normal permits leaves the normal gate closing for good |
| MailboxRuns.ClaimCanBeRefused | runtime/src/closable_mailbox.rs:312-336 | a run, for every capacity, on which a claim is refused for a live normal permit |
| MailboxTheorems.RefusalsThatSpareDrains | runtime/src/closable_mailbox.rs:312-336 | at its first access a claim is refused, for good and without changing anything, if and only if the producers are open, or closing with a permit live; otherwise, under every interleaving, it is next to close the normal gate or that gate no longer admits |
| MailboxTheorems.PastClaimsStopDrains | runtime/src/closable_mailbox.rs:312-366 | on every run a claim past that access, one that owns, owned or was refused for drains, an owner or a finish included, stands in a mailbox that admits no normal drain |
| MailboxTheorems.ObligationsBalance | runtime/src/drain.rs:133-249 | before close, obligations to post are the drains acquired and the one still pending |
| MailboxTheorems.EnqueueClosedExactly | runtime/src/closable_mailbox.rs:218-225 | on every run an enqueue answers Closed if and only if producers were told to close or the enqueues in progress hold every permit the field can count |
| MailboxRuns.AdmissionsFillTheField | runtime/src/ingress.rs:129-153 | every count up to the field's limit is reached by a run |
| MailboxRuns.SaturationLooksClosed | runtime/src/closable_mailbox.rs:224-225 | so a run reaches an open mailbox that answers Closed |
| MailboxTheorems.UnavailableMeansClosing | runtime/src/closable_mailbox.rs:286-304 | an acquire that found its gate closed never reports the mailbox open |
| MailboxAnswers.EnqueueAlone | runtime/src/closable_mailbox.rs:218-278 | from every reachable state, an enqueue nothing interferes with: Closed, Full, coalesced, scheduled or posted, each exactly when, with the payload returned or queued last |
| MailboxAnswers.RetryAlone | runtime/src/closable_mailbox.rs:186-196 | likewise a retry: it posts exactly when a drain is pending, reports how the post ended, and leaves shared memory as it was |
| MailboxAnswers.AcquireAlone | runtime/src/closable_mailbox.rs:286-304 | likewise an acquire: it takes the drain exactly when one is pending, and says truly why not |
| MailboxAnswers.FinishAlone | runtime/src/closable_mailbox.rs:376-413 | likewise a finish or a drop: the signal is left pending, and reported so, exactly when a payload was retained or a drain asked for, and idle otherwise |
| MailboxAnswers.FinishRunsOperation | runtime/src/closable_mailbox.rs:382-413 | the operation of a finish runs with that answer before admission is given back; a dropped drain has none |
| MailboxAnswers.TerminalFinishAlone | runtime/src/closable_mailbox.rs:429-462 | likewise a terminal finish or drop: closed exactly on an empty queue, otherwise waiting for another owner |
| MailboxAnswers.CloseReportsPermits | runtime/src/closable_mailbox.rs:281-284 | on every run a close reports the phase it found and the exact number of enqueues in progress |
| MailboxDecisions.AcquiresExactly | runtime/src/closable_mailbox.rs:286-304 | under every interleaving an admitted acquire takes the drain exactly when one is pending, finds nothing exactly when the signal is idle, and another consumer exactly when one holds the permit |
| MailboxDecisions.EachObligationIsAnswered | runtime/src/closable_mailbox.rs:218-278 | the obligations to post that arose are exactly the operations whose answer says so |
| MailboxDecisions.RequestsExactly | runtime/src/closable_mailbox.rs:228-278 | a request obliges its caller exactly when it found the signal idle; a poster's failure is reported exactly when it failed |
| MailboxDecisions.RetriesExactly | runtime/src/closable_mailbox.rs:186-196 | an admitted retry posts exactly when a drain is pending |
| MailboxDecisions.PendingWasAskedFor | runtime/src/closable_mailbox.rs:376-413 | under every interleaving a drain reports another pending if and only if, since it was acquired, a producer requested one or its own check found a payload |
| MailboxDecisions.AnswersStand | runtime/src/closable_mailbox.rs:186-462 | once decided, an answer stands, whatever happens before it is given |
| MailboxDecisions.OperationsEnd | runtime/src/closable_mailbox.rs:186-462 | no operation waits: each access brings it nearer its end, pops and lost exchanges aside |
| MailboxRefinement.StepSimulates | runtime/src/closable_mailbox.rs:129-462 | each step is at most two calls on the reference, legal whatever else is in progress, and ends in a related state |
| MailboxRefinement.StepAnswersAlike | runtime/src/closable_mailbox.rs:129-462 | each of those calls records the answer the step itself gives: admission, payload popped, refusal |
| MailboxRefinement.SilentAnswers | runtime/src/closable_mailbox.rs:129-462 | of the enqueue, claim and pop answers, only a full permit field and a claim refused for a permit have no call (acquires and retry posts have no counterpart) |
| MailboxRefinement.RunIsReferenceRun | testkit/src/work_queue.rs:114-118 | every run within the id space is a run of the reference, ending in a related state |
| MailboxRefinement.RefinesExactlyWithinIds | testkit/src/work_queue.rs:132-408 | a matching reference run exists if and only if the run stays within the id space |
| MailboxRuns.RunsOutliveTheReference | testkit/src/work_queue.rs:186-199 | some run grants more admissions than the reference has ids, and no reference run matches it |
| BoundedMailbox.NoPanic | runtime/src/mailbox.rs:140-203 | the `unreachable!` arms of the mailbox without close are dead |
| BoundedMailbox.OneDrain | runtime/src/mailbox.rs:151-164 | one drain is live exactly while the signal says so |
| BoundedMailbox.NoStrandedWork | runtime/src/mailbox.rs:166-203 | finished or dropped, no drain strands a payload |
| BoundedMailbox.PayloadsAreConserved | runtime/src/mailbox.rs:140-195 | payloads leave in order, each once, and obligations to post balance |
| BoundedMailbox.DecidesExactly | runtime/src/mailbox.rs:140-172 | on every run when an enqueue is full, scheduled or coalesced, an acquire taken, idle or busy, and what a pop takes |
| BoundedMailbox.EachObligationIsAnswered | runtime/src/mailbox.rs:140-203 | each obligation to post is the answer of exactly one operation |
| BoundedMailbox.PendingWasAskedFor | runtime/src/mailbox.rs:177-203 | a drain reports another pending if and only if one was requested since it was acquired or its check found a payload |
| BoundedMailbox.FinishAlone | runtime/src/mailbox.rs:177-203 | finished alone, it pends exactly when a payload was retained or a drain asked for, and is idle otherwise |
| Entry.EntryGate.TryEnter | host/src/entry.rs:216-226 | acts as the gate's admission; the 32-bit counter never wraps |
| Entry.EntryGate.Exit | host/src/entry.rs:347-351 | dropping a live guard takes one entry off without wrapping |
| EntryRefinement.FinalEntryIsSafe | host/src/entry.rs:216-369 | entries are the live guards and within the limit; cleanup excludes entries and is alone; Guaranteed is never skipped, Unavailable never claimed |
| EntryRefinement.CompletedMeansCleanup | host/src/entry.rs:353-369 | Completed is recorded if and only if a live cleanup guard was completed; a dropped guard leaves no outcome |
| EntryRefinement.CleanupBeginsExactly | host/src/entry.rs:262-284 | on every run, when a cleanup can begin, exactly |
| EntryRefinement.FinishesExactly | host/src/entry.rs:293-322 | on every run draining finishes if and only if it was requested, no guard is live, and a promised final entry was completed |
| EntryRefinement.EntersExactly | host/src/entry.rs:216-226 | an entry is admitted if and only if draining was not requested and fewer guards live than the limit allows; DepthLimit and NotActive are answered exactly otherwise |
| EntryRefinement.FinishAnswersExactly | host/src/entry.rs:293-322 | each refusal of a finish names its reason, with the number of guards, and the outcome is Completed exactly when a cleanup was completed |
| EntryRefinement.CleanupAnswersExactly | host/src/entry.rs:262-284 | each refusal of a cleanup names the first reason that applies |
| EntryRefinement.DestroysExactly | host/src/entry.rs:332-345 | the engine is marked destroyed if and only if some finish of the drain succeeded |
| EntryRefinement.StateIsMonotone | host/src/entry.rs:232-345 | the state never goes back and a recorded outcome never changes |
| EntryRefinement.StepRefines | host/src/entry.rs:216-345 | one gate step is at most one call of the reference, answered alike while entry numbers last |
| EntryRefinement.RefinesExactlyWhileEntriesLast | testkit/src/lifecycle.rs:117-254 | under every policy the reference gives the gate's answers if and only if fewer than 2^64 - 1 entries were granted |
| EntryRefinement.RunsOutliveTheReference | testkit/src/lifecycle.rs:159-176 | a run past the reference's entry numbers, where its answers part from the gate's |
| EntryRefinement.GateTraceIsLegal | testkit/src/lifecycle.rs:159-254 | along a gate run open entries are the live guards, readiness is announced once after the last exit, invalidation only after it |
| Lifecycle.LifecycleModel.Exit | testkit/src/lifecycle.rs:182-199 | acts as the reference's exit, `swap_remove` included |
| Lifecycle.SwapRemoveSpec | testkit/src/lifecycle.rs:193-193 | the swap removes one entry and loses no other |
| Lifecycle.ReplayIsConsistent | testkit/src/lifecycle.rs:117-254 | every history of calls leaves a legal trace that determines the state |
| Lifecycle.LegalTraces | testkit/src/lifecycle.rs:46-60 | in a legal trace no event repeats, every exit follows its entry, and the marks come in order |
| Lifecycle.AnswersFollowTrace | testkit/src/lifecycle.rs:159-254 | after every history what the reference answers follows from its trace alone |
| WorkOwner.IssueSpec | host/src/identity.rs:77-119 | epochs count up from one without gap or repetition and end at the last |
| WorkOwnerTheorems.EpochsIncrease | host/src/work_owner.rs:78-192 | registration and mailbox name the same attachment; every attachment is newer than those before it |
| WorkOwnerTheorems.RetiredForever | host/src/drain_registration.rs:131-145 | a task of a retired attachment starts nothing, ever |
| WorkOwnerTheorems.ClosingStartsNothing | host/src/work_owner.rs:113-153 | from the beginning of a close until a successful replacement, over every run, neither a delivered task nor a retry starts anything |
| WorkOwnerTheorems.OnlyTheCurrentResolves | host/src/work_owner.rs:113-123 | of the attachments ever registered exactly the current one resolves as current or closing |
| WorkOwnerTheorems.ResolvesExactly | host/src/drain_registration.rs:131-145 | and of all there could be: older ones of the runtime resolve as retired, newer ones as unregistered, those of another runtime as foreign |
| WorkOwnerTheorems.DeliversExactly | host/src/work_owner.rs:113-153 | delivering a task starts its operation if and only if it is of the current attachment and the registration active, a retry while it is active; otherwise nothing changes |
| WorkOwnerTheorems.SendsExactly | host/src/work_owner.rs:207-227 | a sender starts one enqueue, bound to its own mailbox's attachment, there and nowhere else |
| WorkOwnerTheorems.ReplacedMailboxIsFinished | host/src/work_owner.rs:173-192 | a replaced mailbox had handed over all it accepted, and returns late payloads |
| WorkOwnerTheorems.PayloadsAreBound | host/src/work_mailbox.rs:148-190 | whatever can be popped from a mailbox is bound to its attachment |
| WorkOwnerTheorems.CloseReachesTheMailbox | host/src/work_owner.rs:130-133 | once the owner's close has returned, the mailbox admits no producer |
| WorkOwnerTheorems.ReplaceExactly | host/src/work_owner.rs:173-192 | replacement succeeds if and only if the mailbox is closed, the registration closing and the attachment newer, of the same runtime |
| WorkOwnerTheorems.ReplaceRefusedExactly | host/src/work_owner.rs:173-192 | each refusal of a replacement, exactly when |
| WorkOwnerTheorems.CloseThroughLentMailbox | host/src/work_mailbox.rs:209-211 | a run on which the mailbox is closed and replacement still fails, because the registration is active |
| WorkOwnerTheorems.OwnerCloseAdmitsReplacement | host/src/work_owner.rs:130-192 | from any run with a closed mailbox, the owner's own close makes replacement by any newer attachment succeed |
| Dispatch.DispatchWork | host/src/work.rs:101-137 | whatever the host does, the record runs once in a host reporting its attachment or is handed back, never both; success means the contract was kept; for a host within its types the missing-payload arm is dead, and a violation is reported exactly when it ran the record and then failed |
| Dispatch.DispatchNext | host/src/work_mailbox.rs:261-273 | at most the front record leaves the queue, with the same guarantee |
| Dispatch.PoppedWorkStaysHome | host/src/work.rs:101-137 | over every run of a work owner, a host of the current attachment runs a popped record if and only if it was popped from the current mailbox |
| RootStore.Store.Drain | backend-jsc/src/experimental.rs:1829-1846 | the loop over the slots acts as the bulk drain |
| RootRegistry.InsertSpec | backend-jsc/src/experimental.rs:1748-1773 | insertion fails exactly when every slot below the limit is occupied or exhausted, and otherwise binds a new id |
| RootRegistry.RemoveSpec | backend-jsc/src/experimental.rs:1782-1794 | removal answers for live ids only and gives up one value |
| RootRegistry.RequestReleaseSpec | backend-jsc/src/experimental.rs:1796-1811 | a queued id stops resolving at once; its value stays held, next in line |
| RootRegistry.TakePendingSpec | backend-jsc/src/experimental.rs:1813-1827 | a take removes the value queued last and leaves every resolvable id alone |
| RootRegistry.DrainSpec | backend-jsc/src/experimental.rs:1829-1846 | draining hands out every held value once and retires every id |
| RootRegistry.GetIsTableLookup | backend-jsc/src/experimental.rs:1775-1780 | lookup answers for exactly the bound ids |
| RootRegistry.StepIsMapStep | backend-jsc/src/experimental.rs:1736-1851 | the registry is a map from issued ids to values |
| RootRegistry.IdsNeverRepeat | backend-jsc/src/experimental.rs:1748-1846 | over any history, drains and exhausted generations included, no id is issued twice |
| RootRegistry.StaleForever | backend-jsc/src/experimental.rs:1775-1846 | an id that stopped resolving never resolves again |
| RootRegistry.ValuesAreConserved | backend-jsc/src/experimental.rs:1736-1851 | each stored value is held or was given up exactly once |
| RootRegistry.CountersAreExact | backend-jsc/src/experimental.rs:1848-1850 | `live` and `pending` are exact; live, free and exhausted slots partition the slots, within the limit |
| RootTable.Takes | backend-jsc/src/experimental.rs:1813-1827 | a take shortens the pending queue by its front, so the drain loop ends |
| RootTable.Inserts | backend-jsc/src/experimental.rs:1748-1773 | an insertion fails exactly when the values held, queued ones included, and the slots worn out reach the limit |
| JscBalance.DrainReleasesEmpties | backend-jsc/src/experimental.rs:1657-1669 | the maintenance loop empties the queue and leaves every live root resolvable |
| JscBalance.DrainReleasesUnprotects | backend-jsc/src/experimental.rs:1657-1669 | it unprotects exactly the queued values |
| JscBalance.StepBalances | backend-jsc/src/experimental.rs:895-1307 | every step keeps the engine's protections equal to what the attachment owns |
| JscBalance.StepKeepsFrames | backend-jsc/src/experimental.rs:1085-1166 | every step keeps the budget exact, entries counted and unpublished functions registered |
| JscTheorems.ProtectionsBalance | backend-jsc/src/experimental.rs:933-1307 | on every run protections are registry values, host functions, local and argument roots, and what was abandoned |
| JscTheorems.BudgetIsExact | backend-jsc/src/experimental/local_budget.rs:28-80 | `used` is reservations outstanding plus local roots held, giving back never fails, refusal is exact |
| JscLimits.RunKeepsLimits | backend-jsc/src/experimental.rs:737-800 | the four limits an attachment was made with never change |
| JscLimits.ActiveUntilAsked | backend-jsc/src/experimental/attachment.rs:216-388 | it is active until first asked to drain or to end, and never again |
| JscEffects.EveryStepHasItsEffect | backend-jsc/src/experimental.rs:803-1307 | on every run entries and functions stay within their limits, and each step has exactly the effect the rows below state |
| JscEffects.EntersExactly | backend-jsc/src/experimental.rs:803-826 | an entry is admitted if and only if the attachment is active and the depth allows it |
| JscEffects.ClosesExactly | backend-jsc/src/experimental.rs:1296-1307 | a scope unprotects its roots and returns their budget, an entry its place; left without a panic, it releases dropped leases |
| JscEffects.BeginsExactly | backend-jsc/src/experimental.rs:1085-1166 | an operation is admitted if and only if its result and arguments fit the budget together |
| JscEffects.PreparesExactly | backend-jsc/src/experimental.rs:1168-1194 | an argument is protected and kept with its operation |
| JscEffects.FinishesExactly | backend-jsc/src/experimental.rs:1255-1290 | a managed result is rooted in its scope and protected, everything else the operation took is given back |
| JscEffects.RootStaysProtected | backend-jsc/src/experimental.rs:1255-1307 | a root given to a scope stays there, protected, over every run in which the scope is not closed |
| JscEffects.ResolvesExactly | backend-jsc/src/experimental.rs:961-985 | a handle that resolves is rooted in the scope if the budget has room |
| JscEffects.PersistsExactly | backend-jsc/src/experimental.rs:933-955 | a persist succeeds if and only if the registry has room, and protects the value once |
| JscEffects.ReleasesExactly | backend-jsc/src/experimental/common.rs:467-480 | a release ends its handle alone and unprotects its value once |
| JscEffects.InstallsExactly | backend-jsc/src/experimental.rs:993-1063 | a function is installed if and only if fewer than the limit are registered and it is not one of them |
| JscEffects.PublishesExactly | backend-jsc/src/experimental.rs:993-1073 | a publication that succeeds leaves its function registered and protected, one that fails undoes exactly that |
| JscEffects.PublishedFunctionLasts | backend-jsc/src/experimental.rs:993-1063 | a published function stays registered and protected over every run that does not end the attachment |
| JscTheorems.EntryReleasesEverything | backend-jsc/src/experimental/attachment.rs:216-260 | teardown with entry succeeds if and only if no entry is open and one is available, and then leaves nothing owned |
| JscTheorems.UnresolvedCountsAreExact | backend-jsc/src/experimental/attachment.rs:272-305 | detach without entry touches no protection and reports exactly those it leaves behind |
| JscTheorems.DropWithoutPromisedEntry | backend-jsc/src/experimental/attachment.rs:370-388 | a guaranteed attachment dropped without its entry stays draining, its protections still in the engine |
| JscTheorems.StandingOwnsAll | backend-jsc/src/experimental/attachment.rs:216-305 | nothing is abandoned while the attachment stands |
| JscTheorems.TeardownLeavesNone | backend-jsc/src/experimental.rs:1892-1909 | so a teardown with entry leaves the engine no protection |
| JscTheorems.DroppedLeaseWaits | backend-jsc/src/experimental.rs:1719-1734 | dropping a lease of an active attachment ends its handle at once, asks nothing of the engine, and queues exactly its protection; later it changes nothing |
| JscTheorems.EntriesReleaseDroppedLeases | backend-jsc/src/experimental.rs:803-826 | entering, and leaving without a panic, unprotects exactly what dropped leases queued and ends no other handle |
| JscHandles.HandleLasts | backend-jsc/src/experimental.rs:933-985 | over every run an issued handle resolves to what it did until the first step that ends it (its release, the drop of its lease, the end of the attachment), and to nothing ever after |
| JscHandles.PersistThenResolve | backend-jsc/src/experimental.rs:933-985 | a persisted value gets a new handle that resolves to it, in any open scope with budget, after every run without such a step |
| JscNesting.FailedPublicationRollsBack | backend-jsc/src/experimental.rs:1022-1073 | whatever a publication runs, when it fails exactly its own registration and one protection are undone |
| JscNesting.FailedOperationIsRefunded | backend-jsc/src/experimental.rs:1110-1166 | whatever is nested in it, an operation that yields no root gives back exactly its own reservations and argument roots |
| JscNesting.UndisturbedPublicationIsUndone | backend-jsc/src/experimental.rs:1022-1073 | with nothing nested, a failed publication restores the state before the installation |
| JscNesting.UndisturbedOperationIsUndone | backend-jsc/src/experimental.rs:1110-1166 | with nothing nested, an operation without a root restores the state before it, wherever in its arguments it stopped |
| LocalRoots.LocalRoots.Push | backend-jsc/src/experimental/local_roots.rs:23-30 | appends, inline or spilled |
| LocalRoots.LocalRoots.Drain | backend-jsc/src/experimental/local_roots.rs:32-38 | returns everything pushed, in order, and leaves the store empty |
| LocalRoots.LocalBudget.ReserveMany | backend-jsc/src/experimental/local_budget.rs:28-47 | admits a group exactly when it fits; the checked addition never matters beyond that |
| LocalRoots.DropScope | backend-jsc/src/experimental/common.rs:521-529 | the loop unprotects each root and releases its budget: the bulk release of the transition system |
| LocalRoots.DrainRootReleases | backend-jsc/src/experimental.rs:1657-1669 | the loop ends having unprotected exactly the queued roots |
| LocalRoots.ReleaseResources | backend-jsc/src/experimental.rs:1676-1697 | the loops unprotect exactly the roots and functions owned, and the counts are theirs |
| EntryFrameTheorems.ActiveIsInnermost | backend-jsc/src/experimental.rs:1853-1890 | the installed pair is that of the innermost live entry |
| EntryFrameTheorems.LiveEntriesShareOnePair | backend-jsc/src/experimental.rs:1626-1650 | all live entries of a thread are of one runtime through one context |
| EntryFrameTheorems.DeferredWaits | backend-jsc/src/experimental.rs:880-893 | a runtime waits only while an entry is live or a drain runs, untouched until then |
| EntryFrameTheorems.QuietThreadOwesNothing | backend-jsc/src/experimental.rs:1880-1917 | once nothing is in progress every dropped runtime has been destroyed, exactly once |
| EntryFrameTheorems.DropDefersExactly | backend-jsc/src/experimental.rs:834-893 | a drop waits if and only if another pair is entered and the engine reports no other group for its context |
| EntryFrameTheorems.EntersExactly | backend-jsc/src/experimental.rs:1626-1650 | an entry is made if and only if the runtime stands, no other pair is entered, and its live entries are below the limit |
| EntryFrameTheorems.ExitsExactly | backend-jsc/src/experimental.rs:1880-1890 | leaving restores the pair below, and only the outermost exit starts the deferred teardowns |
| EntryFrameTheorems.InvalidatesExactly | backend-jsc/src/experimental.rs:834-855 | an owner's teardown starts if and only if the runtime stands and its pair is entered, none is, or the entered one is of another group; it is never deferred |
| EntryFrameTheorems.TeardownGoesOn | backend-jsc/src/experimental.rs:1892-1909 | a teardown calls out twice and destroys the runtime when the second call returns |
| EntryFrameTheorems.TeardownsStayApart | backend-jsc/src/experimental.rs:834-893 | however teardowns, entries and drains nest, no runtime is torn down inside an entry into another pair unless the engine reports another group for it, and deferred teardowns run outside every entry |
| EntryFrameTheorems.CreatesExactly | backend-jsc/src/experimental.rs:777-798 | a runtime is created if and only if the engine reports its group for its context; it stands, entered by no one |
| EntryFrameTheorems.OutermostExitDrains | backend-jsc/src/experimental.rs:1880-1917 | whatever destructors do meanwhile, the drain begun by the outermost exit ends only with the queue empty and every runtime that waited at the exit destroyed |
| EntryFrameTheorems.UndisturbedDrainEmpties | backend-jsc/src/experimental.rs:1880-1917 | from every run in which the outermost entry ends, the drain, left undisturbed, destroys the queued runtimes, the one dropped last first, and returns to the frames below |
| ExternalLedger.LimitsHold | backend-jsc/src/experimental/external_buffer.rs:107-132 | under every interleaving the counters are exact and neither limit is exceeded |
| ExternalLedger.NothingWraps | backend-jsc/src/experimental/external_buffer.rs:107-132 | neither live counter wraps, up or down (deallocations are counted modulo the word, see LimitsHold) |
| ExternalLedger.RejectionsCancel | backend-jsc/src/experimental/external_buffer.rs:115-126 | once every operation has ended, refused ones have left no trace |
| ExternalLedger.RefusedExactly | backend-jsc/src/experimental/external_buffer.rs:107-126 | when each of the two refusals happens, exactly, and that it is told as such; an admitted buffer is live with its own length |
| ExternalLedger.ReleaseInProgressBlocks | backend-jsc/src/experimental/external_buffer.rs:107-132 | a run on which an empty buffer is refused while another one's release stands between its two subtractions and no buffer is live |
| ExternalLedger.ReleaseFinishedAdmits | backend-jsc/src/experimental/external_buffer.rs:107-132 | one step of that release later it is admitted |
| ModelBackend.LiveMeansReachable | testkit/src/model.rs:532-578 | each root names a live value, and live values are those rooted or named by the open scope |
| ModelBackend.ScopeCloseLeavesRoots | testkit/src/model.rs:314-324 | after a scope closes exactly the rooted values remain, in whatever order its locals went |
| ModelBackend.ReleaseRemovesExactly | testkit/src/model.rs:563-578 | when a released root's value survives, exactly, and that no other value is touched |
| ModelBackend.ResolvedOutlivesRelease | testkit/src/model.rs:546-578 | a handle resolved from a root outlives the root while the scope is open |
| ModelBackend.StatisticsAreExact | testkit/src/model.rs:185-205 | on every run `live_bytes` is the total length of the live owners; each count is exact if and only if it fits its word, and their difference is the live owners if and only if the accepted count fits or none is live |
| ModelBackend.CountsSaturate | testkit/src/model.rs:186-205 | runs past the word exist, and there both counts stand still |
| ModelBackend.ViewsKeepOwners | testkit/src/model.rs:614-636 | an outstanding view keeps its owner alive |
| ModelBackendTheorems.RootLasts | testkit/src/model.rs:532-578 | a root that is not released resolves to the same unchanged value over every run |
| ModelBackendTheorems.LocalLasts | testkit/src/model.rs:314-336 | a value of the open scope stays alive and unchanged until the scope closes |
| ModelBackendTheorems.InsertsExactly | testkit/src/model.rs:327-336 | a value made in a scope is new, belongs to it, and leaves all else alone |
| ModelBackendTheorems.TransfersExactly | testkit/src/model.rs:581-611 | a rejected transfer changes nothing, one failed after acceptance has consumed the buffer, one that succeeds leaves a live owner of its length |
| ModelBackendTheorems.PersistsExactly | testkit/src/model.rs:533-561 | exactly a live value is rooted, and its root resolves into the scope |
| ModelBackendTheorems.ViewsExactly | testkit/src/model.rs:614-636 | a view is lent of live buffers only and shares their owner |
| ModelBackendTheorems.DropViewFinalizes | testkit/src/model.rs:198-205 | ending a view finalizes the owner exactly when nothing else shares it |
| SlotMaps.InsertBinds | testkit/src/model.rs:668-680 | insertion binds an id never issued before and disturbs no other |
| SlotMaps.RemoveUnbinds | testkit/src/model.rs:689-700 | removal unbinds exactly one id |
| SlotMaps.GetIsBinding | testkit/src/model.rs:682-687 | lookup answers for exactly the bound ids |
| SlotMaps.IdsNeverRepeat | testkit/src/model.rs:667-700 | over any history, exhausted generations included, no id is issued twice |
| SlotMaps.StaleForever | testkit/src/model.rs:667-700 | an id that stopped resolving never resolves again |

## Left out

- Weak memory: every atomic is sequentially consistent, `ArrayQueue` is an atomic bounded queue, and a compare-and-swap that fails changes nothing.
- Storage: a boxed slice is at most `isize::MAX` bytes and all live ones share one address space; `ModelBackend` admits no other transfer.
- Machine word: `usize` is taken to be 64 bits wide; a registry's slot count and `live` are unbounded integers, since memory ends first.
- Concurrency of objects: the classes model one call at a time; interleaving is modelled on values, where a step is one deciding access.
- `JscRuntime`, `EntryFrames`, `ModelBackend` and the work owner are transition systems on values, because user code can run in the middle of their operations; the loops inside those operations are proved as methods.
- MailboxTheorems.TerminalProgress: says what a claim does when it runs alone; that a claim is eventually scheduled is not modelled.
- The engine: script evaluation, garbage collection, strings, exception text and type inspection are choices of the environment; the engine is the multiset of protections it holds, and is assumed not to hand out the address of a function that is still protected.
- Thread affinity, `Send`, lifetimes and borrows: encoded in who may take a step (only a live guard is dropped, an owned runtime is not dropped while borrowed).
- Panics in callbacks and destructors: only that guards drop on unwind; their counters and abort modes are not modelled.
- Native-state registry and finalizer queue: not part of this model, so the native-state and finalizer-signal counts of a detach report are missing.
- Inbound callback limits, call-data validation, message truncation, `Display` and `Error` text, accessors and limit structs: bounded and local.
- Evaluation and invocation outcome queues of the deterministic backend, and its value kinds beyond primitive, function and buffer: they do not touch reachability.
- Exhaustion of process-wide runtime and backend identities: one checked counter each.
- `LifecycleModel::validate_work`: a single comparison.

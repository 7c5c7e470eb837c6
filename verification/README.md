# Dashboard core: models and proofs

This project models the densest parts of an OpenVPN dashboard for MikroTik routers and proves what they keep over
every input and every run.  Each Dafny module stands for one component.

- **QR encoder** (`Gf256`, `ReedSolomon`, `QrData`, `QrFormat`, `QrMask`, `QrLayout`, `QrBase`, `QrSymbol`).  The version-5,
  level-L symbol of ISO/IEC 18004: field arithmetic (section 7.5), the Reed-Solomon generator and division loops, byte-mode packing
  (section 7.4), placement (7.7), masking (7.8) and format bits (7.9).  A reader defined on its own returns the payload from any symbol,
  and the code has distance 27.
- **Review coordination** (`ReviewRedis`, `ReviewCoordinator`, `ReviewServer`, `ReviewReceipts`, `ReviewRuns`, `LeaseLock`,
  `StripedLocks`).  Redis is a small state with atomic commands, time and restarts; other processes run between any two commands of
  a call, and other threads between any two of its sections.  `ReviewCoordinator` is the fail-closed view under arbitrary replies.
  `ReviewRuns` is about whole runs of several stores.  `StripedLocks` is the state machine of the 64 re-entrant stripe locks and the
  gate.
- **Engine.IO admission** (`EngineQuota`, `EngineAdmission`, `ByteBudget`, `LiveSend`).  The maps under the bindings lock, the
  byte budget, and the authorised send loop with its role locks and slots.
- **Enforcement against an unreliable router** (`AutomationLog`, `Automation`, `SessionRouter`, `AutomationSessions`,
  `Revocation`, `ProvisionRouter`, `ProvisionCleanup`, `ProvisionExport`, `Provisioning`).  Reads may fail or show anything, writes may commit with a lost response, outsiders
  change the router at any time, and the process may stop after any effect.  Claims are about the log of what was seen and asked for.
- **Profile rewriting and outbox** (`Text`, `HardenProfile`, `Outbox`).

Four promises hold only under a condition, and the proofs give it exactly.  The byte counter returns to its old
value if and only if no response start arrives while an earlier start's header bytes are still reserved, because the
reserved size is assigned and not added (`ByteBudget.BufferBudget.Run`, with the concrete leak in
`ByteBudget.SecondStartLeaks`).  Heartbeats keep a lease if and only if each is less than two thirds of a lease late
(`LeaseLock.HeartbeatMarginIsExact`).  A closing lock issues no release if it has seen loss when it is tested; a lock that is marked
lost only later may still, unless the heartbeat was joined (`LeaseLock.RedisReviewLock.Close`, `LeaseLock.LossAfterTestReleases`).  The
dispatcher's circuit gates batches and not deliveries: a delivery starts while the circuit is open if and only if an earlier delivery
of the same batch opened it and none has switched it since (`Outbox.Dispatcher.RunOnce`, `Outbox.DeliversWhileOpen`).

Randomness, clocks, hashes, network replies and policy signals are parameters or arbitrary values.

## Model

| member | source | states |
|---|---|---|
| Gf256.GfMul | qr.py:19-28 | the encoder's shift-and-reduce loop computes the product of GF(2^8) modulo 0x11D, for all pairs of bytes |
| Gf256.MulCommutes | qr.py:19-28 | the product is commutative |
| Gf256.MulAssociates | qr.py:19-28 | the product is associative |
| Gf256.MulAddLeft | qr.py:19-28 | the product distributes over exclusive or |
| Gf256.NoZeroDivisors | qr.py:19-28 | 0x11D is irreducible: a product is zero only if a factor is |
| Gf256.OrderIs255 | qr.py:31-42 | 2 has order 255: none of its powers below the 255th is 1 |
| Gf256.ExpIsInjective | qr.py:31-42 | the 255 powers of 2 are different, so codeword positions have distinct locators |
| ReedSolomon.Generator | qr.py:31-42 | the generator loop yields the monic polynomial with roots 2^0 to 2^25, as arrays updated in place |
| ReedSolomon.Expand | qr.py:35-41 | one turn of the generator loop multiplies by the next root's factor |
| ReedSolomon.AddMultiple | qr.py:43-48 | one turn of the division loop adds a multiple of the generator, leaving the value at every root unchanged |
| ReedSolomon.Ecc | qr.py:31-48 | data of any length followed by the 26 computed bytes vanishes at every root of the generator |
| ReedSolomon.OnlyZeroSolution | qr.py:31-48 | power sums at distinct locators vanish only for zero coefficients (the Vandermonde step of the BCH bound) |
| ReedSolomon.MinimumDistance | qr.py:31-48 | two different codewords of equal length at most 255 differ in at least 27 places |
| ReedSolomon.BlocksAreFarApart | qr.py:31-48 | different data blocks with their error-correction bytes differ in at least 27 places |
| ReedSolomon.EccIsUnique | qr.py:31-48 | the 26 bytes that complete a data block are unique, so the codeword property determines the method's result |
| ReedSolomon.UniqueDecoding | qr.py:31-48 | at most one codeword lies within 13 changed bytes of a received word |
| QrData.PayloadBits | qr.py:51-68 | the payload's bits, most significant first |
| QrData.MessageLayout | qr.py:51-61 | the message bit by bit: mode 0100, the length in eight weighted bits, the payload, four zeros |
| QrData.MessageBits | qr.py:51-68 | mode, length, payload and terminator, filled up to whole bytes |
| QrData.PadWords | qr.py:51-68 | the block is filled up to 108 codewords with the pad bytes in turn |
| QrData.DataCodewords | qr.py:51-68 | a data block of the payload, 108 bytes with 0xEC and 0x11 after the message, or the error exactly for payloads over 100 bytes |
| QrData.PayloadRoundTrip | qr.py:51-68 | reading a data block returns the payload it was made from |
| QrData.DataBlockIsUnique | qr.py:51-68 | a payload has only one data block |
| QrFormat.BchFormat | qr.py:90-95 | the division loop yields a word that, without the pattern 0x5412, is in the (15,5) BCH code and carries the value |
| QrFormat.BitLengthByHalves | qr.py:90-95 | the bit length that steers the division: halving a nonzero number drops one bit |
| QrFormat.FormatWordsAreFarApart | qr.py:90-95 | words of different values differ in at least 7 of 15 bits; a value has one word |
| QrFormat.FormatRoundTrip | qr.py:90-95 | the drawn format bits give the mask number back |
| QrMask.MaskedAsInFigures | qr.py:140-155 | each mask, at every position, is its figure: masks 0 and 3 along the diagonals with periods 2 and 3, mask 1 by row and mask 2 by column, mask 4 in alternating blocks of 2 by 3, masks 5 to 7 the repeated squares of 6 by 6 given as literals |
| QrLayout.FormatIndexInverse | qr.py:71-87 | the 30 format coordinates carry each bit once per copy, and there are no others |
| QrLayout.FunctionModules | qr.py:98-137 | the function modules are exactly the finder, timing, alignment, dark and format modules |
| QrLayout.PatternsAreDisjoint | qr.py:98-137 | the patterns do not overlap |
| QrLayout.CellOfStepOf | qr.py:158-186 | every module outside column 6 is visited at exactly one step of the walk |
| QrLayout.StepOfCell | qr.py:158-186 | every step of the walk visits a module, and no two the same |
| QrLayout.DataModules | qr.py:158-186 | there are 1079 data modules, enough for the 1072 bits |
| QrBase.FormatCoordinates | qr.py:71-87 | the two coordinate lists, in order |
| QrBase.Finder | qr.py:107-114 | a finder pattern with its separator, clipped to the matrix |
| QrBase.Timing | qr.py:98-137 | the timing patterns alternate and mark their modules as function modules |
| QrBase.Alignment | qr.py:98-137 | the alignment pattern around its centre |
| QrBase.MarkLight | qr.py:98-137 | format modules are reserved and light |
| QrBase.BaseMatrix | qr.py:98-137 | every module of the drawn base matrix has its specified colour and kind |
| QrSymbol.DrawModule | qr.py:158-186 | a function module is skipped; a data module takes the next bit, masked |
| QrSymbol.DrawFormat | qr.py:158-186 | both copies of the format bits land at their coordinates |
| QrSymbol.DrawData | qr.py:158-186 | the walk draws the symbol of the bit stream, mask and format word, and nothing else; module by module, the drawn data follow the mask's figure, which is written out apart from the mask formulas |
| QrSymbol.SymbolFollowsFigure | qr.py:158-186 | a data module differs from its bit of the stream exactly where the mask's figure inverts |
| QrSymbol.ReadBitsOfSymbol | qr.py:158-186 | unmasking the data modules in walk order gives the bit stream back |
| QrSymbol.CodewordsAreRead | qr.py:158-186 | all 134 codewords, whatever they are, land and are recovered |
| QrSymbol.SymbolRoundTrip | qr.py:235-241 | reading any symbol of a payload, with any mask, returns the payload |
| QrSymbol.SymbolIsUnique | qr.py:235-241 | a payload and a mask determine the symbol |
| QrSymbol.QrCodeFollowsFigure | qr.py:158-241 | the same of every symbol of a payload: each of its 1072 bits is in its module, inverted exactly where the mask's figure says so |
| QrSymbol.Matrix | qr.py:235-241 | for every payload of at most 100 bytes the chosen symbol reads back as the payload and has the least penalty, whatever the penalty function; its data differ from the payload's codewords exactly where the drawn mask's figure inverts; longer payloads are refused |
| ReviewRedis.AdvancedAtMostOnce | integrations.py:231-236 | in any interleaving of any number of processes, each revision of a resource is advanced at most once per generation |
| ReviewRedis.OneCallerAdvances | integrations.py:231-236 | so at most one caller advances a given revision |
| ReviewRedis.AdvanceKills | integrations.py:231-236 | an advance ends every review at that or an earlier revision |
| ReviewRedis.DeadNeverAdvances | integrations.py:231-236 | a review that has ended never advances its revision again, through any commands, expiries and restarts |
| ReviewRedis.RevisionsNeverFall | integrations.py:266-317 | within a generation a stored revision never falls |
| ReviewRedis.GenerationIsOver | integrations.py:266-294 | a data generation that has ended does not come back |
| ReviewRedis.GenerationIsUnbroken | integrations.py:266-294 | a generation is one unbroken stretch of the run |
| ReviewRedis.LaterAdvanceKillsReview | app.py:995-1070 | an advance after a review was taken makes its receipt unusable for ever |
| ReviewCoordinator.FailsClosed | integrations.py:266-354 | for arbitrary Redis replies and any interleaving of the threads' sections under the state lock, all answered epochs of one coordinator are equal and all answered revisions of a key never decrease; every other section raises or reports no advance |
| ReviewCoordinator.EpochAnswers | integrations.py:266-294 | a section reads the epoch exactly if every reply is there and fits the run and the epoch known before; otherwise it raises |
| ReviewCoordinator.RevisionAnswers | integrations.py:296-317 | the same for revisions: the answer is the stored one, exactly if it is not below the mark |
| ReviewCoordinator.AdvanceAnswers | integrations.py:319-354 | an advance reports true, false or unavailable exactly by its reply |
| ReviewServer.Coordinator.ReadEpoch | integrations.py:266-294 | the section follows the specification of arbitrary replies, and an answer was the generation at some moment of it |
| ReviewServer.Coordinator.ReadRevision | integrations.py:296-317 | the same for revisions |
| ReviewServer.Coordinator.TryAdvance | integrations.py:319-354 | true only if this caller's own command advanced exactly the expected revision in the expected generation |
| ReviewServer.Coordinator.OtherThreads | integrations.py:266-354 | any number of sections of other threads keep the epoch and lower no mark |
| ReviewServer.Coordinator.CurrentEpoch | integrations.py:266-294 | the call's section runs on what other threads have left; an answer was the generation at some moment of the call |
| ReviewServer.Coordinator.CurrentRevision | integrations.py:296-317 | two sections, with other threads before each: an answer was the stored revision at some moment of the call |
| ReviewServer.Coordinator.AdvanceIfCurrent | integrations.py:319-354 | two sections, with other threads before each: true only if this caller's own command advanced exactly the expected revision in the expected generation |
| ReviewReceipts.CurrentReview | app.py:995-1025 | a review reads its generation first and its revision later |
| ReviewReceipts.ClaimReview | app.py:1027-1070 | consumed if and only if all three calls answered, epoch and revision are the receipt's and the advance was accepted; denied exactly if an answer differs or the advance is refused, unserved exactly if a call was unavailable; on a calm server a current receipt is consumed |
| ReviewReceipts.ReviewIsUndisturbed | app.py:1027-1070 | nothing advanced the resource between a review and the advance that consumes it |
| ReviewReceipts.CountPart | app.py:1053-1069 | a local revision is unchanged exactly if the resource has not been consumed or invalidated since |
| ReviewReceipts.ReviewReceiptStore.Purge | app.py:1072-1075 | exactly the expired receipts are dropped |
| ReviewReceipts.ReviewReceiptStore.EvictIfFull | app.py:1006-1007 | a full store loses exactly its oldest receipt |
| ReviewReceipts.ReviewReceiptStore.Issue | app.py:995-1025 | a fresh receipt bound to session, intent, resource, revision and generation, with the positions of its review; a full store drops its oldest receipt; nothing is stored when coordination fails |
| ReviewReceipts.ReviewReceiptStore.ConsumeLocally | app.py:1053-1069 | without a coordinator: consumed exactly if the resource has not been consumed or invalidated since the review |
| ReviewReceipts.ReviewReceiptStore.ConsumeShared | app.py:1047-1066 | with one: consumed only by this call's own advance of the reviewed revision, with no advance since the review; on a calm server exactly if the review is current |
| ReviewReceipts.ReviewReceiptStore.Consume | app.py:1027-1070 | a receipt is consumed only by its own session, intent and resource, before it expires and as above; exactly then, when no coordinator is involved or the server is calm; the exact new state of the store |
| ReviewReceipts.ReviewReceiptStore.Invalidate | app.py:980-993 | done means that the revision was advanced, in the shared run or in the store; every outstanding review of the resource is left behind |
| ReviewRuns.OneCallConsumes | app.py:1027-1070 | of any calls, also overlapping ones, only one consumes a given revision of a resource in a generation |
| ReviewRuns.SharedUse | app.py:1047-1066 | a coordinated consume keeps the promises of the log: its token and its revision are new, and nothing ended its review |
| ReviewRuns.LocalUse | app.py:1053-1069 | the same for a consume without a coordinator |
| ReviewRuns.RunStores | app.py:980-1070 | any run of several stores, some sharing one Redis: a token is consumed at most once, two consumed receipts of one resource, generation and revision are the same, and between a consumed receipt's issue and its consumption its resource was neither consumed nor invalidated |
| ReviewRuns.IssueThenConsume | app.py:995-1070 | without a coordinator, or with a server that answers and that nobody else uses, an issued receipt is consumed by its matching use before expiry, and a second use is denied |
| LeaseLock.OwnerChanges | integrations.py:146-156 | the key changes owner only by set-if-absent, by expiry or by its owner's release |
| LeaseLock.OwnershipMustEnd | integrations.py:146-156 | if a token no longer owns the key, its own release or its expiry lies in between |
| LeaseLock.HeartbeatsKeepOwnership | integrations.py:218-224 | heartbeats every third of the lease keep the key owned at every point, while each is less than two thirds of a lease late, whatever other clients do |
| LeaseLock.LateHeartbeatLosesKey | integrations.py:218-224 | for every beat: the renewal finds the key exactly if it is less than two thirds of a lease late |
| LeaseLock.HeartbeatMarginIsExact | integrations.py:218-224 | for every sequence of beats: the key is owned at the end exactly if each was less than two thirds of a lease late |
| LeaseLock.NeverRegains | integrations.py:146-156 | a token that does not own the key never owns it again unless it is set anew |
| LeaseLock.RedisReviewLock.Renew | integrations.py:164-178 | true if and only if no loss was seen before and the command found the token in the key, which then has a full lease; any other outcome marks the lock lost |
| LeaseLock.RedisReviewLock.AssertOwned | integrations.py:180-196 | passes if and only if no loss was seen before and the command found the token; any other outcome marks the lock lost for good |
| LeaseLock.RedisReviewLock.Heartbeats | integrations.py:218-224 | the heartbeat can only mark the lock lost and never deletes the key |
| LeaseLock.RedisReviewLock.Close | integrations.py:198-216 | a lock that has seen loss when it is tested issues no release but extends its lease; at most one release in all; if the heartbeat was joined, a lost lock issues none |
| LeaseLock.LossAfterTestReleases | integrations.py:198-216 | a concrete schedule in which the join times out and a lock marked lost releases all the same |
| LeaseLock.Acquire | integrations.py:356-390 | a returned lock owns the key for a full lease; a free key is taken at once, and the attempt is given up only after a failed command or the whole wait; a failed attempt deletes nothing |
| StripedLocks.ReachableStatesAreSafe | app.py:944-978 | in every reachable state stripes are exclusive, and each thread holds exactly the gate and the keys it has locked so far, or inside all of its keys |
| StripedLocks.CriticalSectionsExclude | app.py:935-978 | critical sections on a common key exclude each other, also when keys share stripes; while one keeps the gate no other thread acquires keys |
| StripedLocks.OnlyGateHolderWaitsHolding | app.py:944-978 | a thread that others wait for and that itself waits holds the gate, and the one it waits for is inside or leaving and waits for nothing |
| StripedLocks.NoDeadlock | app.py:944-978 | in every reachable state and every set of threads some member waits for no member, even when a key shares the gate's stripe |
| StripedLocks.HeldUpIsWaiting | app.py:935-978 | a thread in a call cannot go on exactly while another one holds the stripe it wants |
| StripedLocks.CallsEnd | app.py:935-978 | every step that goes on with a call brings its end nearer, and the call ends with nothing held |
| StripedLocks.ReleaseFrees | app.py:935-978 | the last release of a stripe frees it for every thread |
| StripedLocks.SomeThreadMoves | app.py:944-978 | some thread can always go on |
| StripedLocks.GateSortsFirst | app.py:955-963 | sorting puts the gate before every user key |
| StripedLocks.OrderIsTotal | app.py:955-963 | the sorting order of keys is total and strict |
| EngineQuota.PromotionKeepsCounts | asgi.py:778-797 | promotion raises neither the total nor any session's count |
| EngineQuota.FewerBindings | asgi.py:650-660 | dropping bindings raises no count |
| EngineQuota.AddReservationKeepsQuota | asgi.py:714-728 | a reservation made below both limits keeps 128 in total and 8 per session |
| EngineQuota.AddBindingKeepsQuota | asgi.py:955-978 | a binding made below both limits keeps them, so at most 128 bindings exist |
| EngineAdmission.BindingsKeepLifecycle | asgi.py:650-660 | bindings may come and go while those of running upgrades stay |
| EngineAdmission.EndUpgradeKeepsLifecycle | asgi.py:858-870 | ending an upgrade keeps the invariant: the last one takes over a recorded teardown |
| EngineAdmission.ReleaseKeepsValidity | asgi.py:799-818 | a release keeps the invariant in each of its outcomes |
| EngineAdmission.SocketIOAdmission.Prune | asgi.py:650-660 | exactly the expired idle bindings go; no active, upgrading or disconnecting SID does |
| EngineAdmission.SocketIOAdmission.ReserveHandshake | asgi.py:714-728 | refused exactly at one of the limits; otherwise one fresh reservation |
| EngineAdmission.SocketIOAdmission.ReleaseHandshake | asgi.py:730-732 | exactly one reservation goes |
| EngineAdmission.SocketIOAdmission.PromoteHandshake | asgi.py:778-797 | exactly when it succeeds, its new state, and that no count rises |
| EngineAdmission.SocketIOAdmission.BindSid | asgi.py:955-978 | exactly when it succeeds; every other live binding stays, so the eviction loop never evicts |
| EngineAdmission.SocketIOAdmission.EvictExcess | asgi.py:976-977 | the eviction loop removes nothing within the limit and otherwise restores it |
| EngineAdmission.SocketIOAdmission.ReleaseSid | asgi.py:799-818 | during an upgrade the teardown is recorded and the binding kept; otherwise the SID is freed; another session's release does nothing |
| EngineAdmission.SocketIOAdmission.MarkActive | asgi.py:820-830 | exactly when it succeeds and its new state |
| EngineAdmission.SocketIOAdmission.BeginUpgrade | asgi.py:832-856 | refused exactly during a teardown or without a live binding of the session |
| EngineAdmission.SocketIOAdmission.EndUpgrade | asgi.py:858-870 | counts down; the last upgrade claims the recorded teardown |
| EngineAdmission.SocketIOAdmission.EndLastUpgrade | asgi.py:858-870 | a teardown recorded during upgrades frees the binding when the last one ends |
| EngineAdmission.SocketIOAdmission.BelongsToSession | asgi.py:872-881 | exactly the live bindings of the session |
| EngineAdmission.SocketIOAdmission.MatchesSid | asgi.py:883-896 | the same, refreshing the binding |
| EngineAdmission.SocketIOAdmission.RefreshForActiveSession | asgi.py:898-911 | a dead session's binding goes unless a WebSocket or an upgrade uses it |
| EngineAdmission.SocketIOAdmission.StartDisconnect | asgi.py:1026-1053 | at most one unfinished disconnect task per SID |
| EngineAdmission.SocketIOAdmission.DoneCallback | asgi.py:1062-1083 | a finished task is forgotten; a failed one is retried and only a successful one goes on to release |
| EngineAdmission.SocketIOAdmission.DisconnectDone | asgi.py:1055-1086 | other threads run between its sections: nothing is released unless the teardown succeeded, failures are retried, and after a success the SID is freed or its teardown recorded and the handshake slot freed |
| EngineAdmission.SocketIOAdmission.TeardownIsNotForgotten | asgi.py:799-870 | with no claimed release outstanding, a torn-down SID is kept only by a running upgrade and is on record |
| EngineAdmission.SocketIOAdmission.Perform | asgi.py:650-1086 | every step keeps the invariant; a live binding keeps its session, an upgrading SID its binding, and a teardown is remembered |
| EngineAdmission.SocketIOAdmission.Run | asgi.py:650-1086 | every schedule of all threads' steps keeps the quotas and the lifecycle invariant |
| ByteBudget.BufferBudget.Reserve | asgi.py:734-744 | accepted exactly within 4,000,000 bytes |
| ByteBudget.BufferBudget.Release | asgi.py:746-752 | subtraction clamped at zero |
| ByteBudget.BufferBudget.Start | asgi.py:1700-1727 | a response start leaks exactly the header bytes an earlier start still had reserved |
| ByteBudget.BufferBudget.HandshakeBody | asgi.py:1581-1623 | a chunk is buffered exactly if it fits the request and the budget |
| ByteBudget.BufferBudget.PollBody | asgi.py:1729-1747 | the same for polling responses |
| ByteBudget.BufferBudget.Drop | asgi.py:1486-1565 | a flush gives back exactly what was held; the clamp never engages |
| ByteBudget.BufferBudget.Close | asgi.py:1986-2001 | the clean-up gives back everything the request holds |
| ByteBudget.BufferBudget.Run | asgi.py:734-752 | over any interleaving the counter equals what live requests hold, and returns to zero, if and only if no start overwrote a header still reserved; it never exceeds the limit |
| ByteBudget.SecondStartLeaks | asgi.py:1700-1727 | a concrete request with two starts that leaves ten bytes counted for ever |
| LiveSend.StepKeepsInvariant | asgi.py:424-554 | every step of senders, workers and revokers keeps lock ownership, roles, slots and the monitored log |
| LiveSend.MoveIsPermitted | asgi.py:424-554 | every event of a step is permitted by the session's monitor |
| LiveSend.RunKeepsInvariant | asgi.py:424-554 | the same for every run |
| LiveSend.NoSendAfterRevocation | asgi.py:424-479 | no body of a session is sent or in flight after its revocation |
| LiveSend.SendFollowsCheck | asgi.py:455-477 | every send comes right after an authoritative check that allows it, under the lock |
| LiveSend.LockIsHeldUntilSendExits | asgi.py:520-554 | the session's next event after a send has started is that send's exit, also after timeout or cancellation |
| LiveSend.SlotsAreConserved | asgi.py:481-506 | free slots and slot holders always make up four |
| LiveSend.NothingIsLeaked | asgi.py:424-554 | when all actors are done, no lock and no slot is left taken |
| LiveSend.HolderCanMove | asgi.py:520-554 | a lock holder can always go on |
| LiveSend.EveryWaitCanEnd | asgi.py:424-554 | an actor in its call can go on itself unless it waits for a taken lock, for a slot while none of the four is free, or for its worker, and then that holder or worker can |
| LiveSend.OutcomeIsExplained | asgi.py:424-554 | sent, refused, raised and the retry after a refresh each follow from the actor's own last steps |
| LiveSend.SentAtMostOnce | asgi.py:424-479 | a call starts at most one send, and reports sent only after exactly one |
| AutomationLog.SuspensionIsNeverUndone | automation.py:231-365 | automation enables a manually suspended account only after somebody else has |
| AutomationLog.EnableNeedsOwnIntent | automation.py:245-303 | automation enables only after it persisted a quota or schedule intent that nobody cleared since |
| AutomationLog.IntentPrecedesDisable | automation.py:414-432 | every disabling write comes after its own persisted intent |
| AutomationLog.ExpiryIsNeverUndone | automation.py:231-244 | a recorded expiry is not undone before an operator clears it |
| AutomationLog.SettledAfterReadback | automation.py:447-466 | a reason is settled only after the account was read as disabled, after the last write |
| AutomationLog.WriteAfterFreshRead | automation.py:245-432 | every write follows a checkpoint of its pass and a later read of the unchanged account in the opposite state |
| Automation.PlanOf | automation.py:25-63 | what the policy asks for: expiry before quota before schedule, and nothing without a signal |
| Automation.Account.FreshUser | automation.py:101-115 | fresh means the row is exactly the expected one |
| Automation.Account.ReadBackUser | automation.py:81-99 | what each of the four results says about the account |
| Automation.Account.RestoreAccess | automation.py:245-345 | the restore path keeps the log acceptable at every failure and crash point |
| Automation.Account.DisableAccess | automation.py:385-463 | success means the account was read back disabled after its own intent |
| Automation.Account.RestrictAccess | automation.py:346-466 | an account an operator disabled stays unrecorded |
| Automation.Account.Apply | automation.py:186-515 | one pass, from any snapshot, policy signal and time, keeps the log acceptable; every recorded reason and every write is justified by the signals of the pass; without a signal it only begins; on a calm router a signal ends with the account disabled and the reason settled, and a lifted one with the account enabled and the record cleared |
| Automation.Account.SetAccess | app.py:7371-7440 | an operator action reported as verified has cleared the recorded state right after its read-back |
| Automation.Account.BulkSuspend | app.py:6985-7046 | the same for each account of a bulk action; accounts found suspended are left alone |
| Automation.Account.ApplyTemplate | app.py:6738-6782 | the record is cleared and the controls replaced only after the profile was read back, whether or not the account is disabled |
| Automation.Account.Edit | app.py:6385-6462 | controls change only after the recorded state was cleared |
| Automation.Account.Run | automation.py:186-515 | any sequence of passes, operator actions, single or in bulk, policy templates, edits and outside changes with a monotone clock leaves an acceptable log |
| AutomationSessions.OnlyTheSurplus | automation.py:153-157 | a justified termination under a limit is of a row with at least that many rows of the account before it in the listing |
| AutomationSessions.TerminateOne | automation.py:139-178 | what each classification of a target means, from the reads around it |
| AutomationSessions.TerminateSessions | automation.py:125-178 | every target is classified once; every termination is justified by the read before it |
| AutomationSessions.EnforceLimit | automation.py:517-560 | nothing is terminated unless the read right before shows the account over its limit, and then only rows beyond the limit; the exact outcome without ownership, at or below the limit and above it |
| Revocation.Capture | app.py:5945-5965 | exactly the reviewed sessions and those the later read shows on rows not reviewed |
| Revocation.StillActiveCases | app.py:5968-5991 | a read is incomplete exactly if a reviewed session or one on a row not reviewed is still there |
| Revocation.Summarize | app.py:5967-6002 | verified exactly if the final read is clean and nothing was unknown; incomplete exactly if something is still active; reviewed = disconnected + still shown + unresolved, and exactly which ones are unresolved |
| Revocation.FirstRow | app.py:6009-6016 | the row a read shows for a row id of the account |
| Revocation.RevokeOne | app.py:6004-6045 | a reviewed session is reread, and its row terminated exactly if the read still shows it and the lock is owned |
| Revocation.RevokeAll | app.py:6004-6045 | every session is tried, or its row seen without a session id, unless a read fails or ownership is lost |
| Revocation.FinalReport | app.py:6047-6053 | the report is about the last read |
| Revocation.Revoke | app.py:5921-6053 | exactly which sessions are revoked; every termination comes right after a read showing that row with such a session; each of the three reports has its reason in the reads; every session was tried, or its row was seen without a session id |
| ProvisionCleanup.DeleteFileById | routeros.py:1018-1046 | deleted exactly if the next listing does not have the id, whatever the request's own answer |
| ProvisionCleanup.DeleteFiles | routeros.py:1413-1417 | every captured id is deleted and read back, whatever becomes of the others, and nothing else is deleted; success exactly if all were read back absent |
| ProvisionCleanup.OneNamed | routeros.py:1453-1472 | the candidate list has one id exactly if one record has the name |
| ProvisionCleanup.RemoveCertificate | routeros.py:1443-1507 | deletes the known id or the only listed record of the name and nothing else; removed exactly if the last listing has none of the name |
| ProvisionExport.CheckCaFile | routeros.py:1094-1110 | accepted exactly if the reread file has an id and the expected digest |
| ProvisionExport.ChooseCaFile | routeros.py:1094-1129 | the first known name, else the only new certificate file, else none |
| ProvisionExport.DeleteCaFiles | routeros.py:1054-1069 | only files listed under the two known export names are deleted, and all of them are, with a read-back |
| ProvisionExport.EnsureCaExport | routeros.py:1048-1129 | a returned CA export is the chosen file with the digest of the only configured CA; a failure has its reason at the end of the exchange |
| ProvisionExport.ExportClient | routeros.py:1210-1241 | captured ids belong to files absent before this export and present after it, and exactly which are captured; a failure has its reason |
| ProvisionExport.JudgeProfile | routeros.py:1263-1276 | a new profile is captured exactly if its contents were read and embed this run's certificate |
| ProvisionExport.MatchProfiles | routeros.py:1263-1276 | exactly the new profiles that embed this run's certificate are captured |
| ProvisionExport.ExportClientProfile | routeros.py:1244-1297 | the export names the checked CA and the run's own files; success exactly with one matching profile, else all matching ones are captured for the clean-up |
| Provisioning.NewCertificate | routeros.py:1163-1208 | created under its name, signed by the configured CA, then trusted; what is known of its id |
| Provisioning.CheckCertificate | routeros.py:1307-1363 | accepted if and only if the only record of the name has the run's id, name, common name and CA and a fingerprint, and is neither untrusted, revoked, unreadable nor expired |
| Provisioning.Issue | routeros.py:1131-1370 | everything before delivery, with the evidence for each captured file; a run that stops has its reason in the exchange |
| Provisioning.Inventory | routeros.py:1371-1411 | the clean-up is safe exactly without unidentified names and untracked profiles |
| Provisioning.CleanUp | routeros.py:1371-1441 | deletes only captured ids and the run's own certificate; delivers only if each file was read back absent; each report has its reason |
| Provisioning.TrackedIsNotOverlooked | routeros.py:1371-1411 | when the inventory is safe, every listed file that the run's exports may have left is captured |
| Provisioning.Provision | routeros.py:1131-1441 | the whole run: what a delivered profile rests on, field by field; which files and certificates are deleted; no export file overlooked; and the reason for every run that delivers nothing |
| Text.SplitJoin | routeros.py:153-166 | splitting undoes joining of lines without breaks |
| HardenProfile.ParseShape | routeros.py:149-155 | the header lines are stripped and free of the CA tag; the payload starts with it |
| HardenProfile.Hardened | routeros.py:145-182 | what a hardened profile consists of, and that it parses into these parts again |
| HardenProfile.HeaderIsPreserved | routeros.py:149-174 | the header lines that are neither redirection, DNS, pin nor LAN route are exactly the first lines of the output, in order, with a blank line if there are none; then the directives of the policy follow, spelled out |
| HardenProfile.LastPolicyWins | routeros.py:119-182 | hardening under A and then B is hardening under B, for the same LAN, errors included |
| HardenProfile.Idempotent | routeros.py:119-182 | hardening twice is hardening once |
| HardenProfile.OnePinAndOneDns | routeros.py:145-182 | exactly one identity pin and one DNS line, the redirection as the policy says, and the payload kept up to trailing newlines |
| HardenProfile.RouteAsPolicySays | routeros.py:156-174 | the LAN route is there exactly when the policy wants it |
| Outbox.ClampIsSensible | integrations.py:423-427 | settings out of range go to the nearest bound, others stay |
| Outbox.BackoffGrows | integrations.py:667-668 | waits grow with the attempt and stay between the two bounds |
| Outbox.BackoffDoubles | integrations.py:667-668 | each wait is double the one before, until the upper bound |
| Outbox.TrailingAll | integrations.py:612-635 | the streak reaches n exactly when the last n deliveries failed |
| Outbox.OneMarkOrTwoRaised | integrations.py:539-597 | the calls of a handled record: exactly one accepted mark, or none and two that raised |
| Outbox.FirstMark | integrations.py:567-597 | the first call of a handled record is the due mark |
| Outbox.EveryIdIsSettled | integrations.py:539-597 | the same of the whole log of a batch, for every id that was visited; no other id is marked |
| Outbox.OpenOnlyByThisBatch | integrations.py:488-516 | at a time of a batch that started with the circuit closed it is open exactly if a failed delivery of the batch opened it and no delivery has switched it since |
| Outbox.DeliversWhileOpen | integrations.py:518-598 | for every threshold: when that many records of a batch fail, the next one is delivered while the circuit is open |
| Outbox.EarliestOfTwo | integrations.py:531-537 | the returned deadline is the earliest of both kinds |
| Outbox.CircuitOpensAtThreshold | integrations.py:612-635 | the circuit has been opened exactly when the last deliveries, as many as the threshold, all failed |
| Outbox.Dispatcher.DeliverWithRetries | integrations.py:612-635 | three attempts at most with the growing pauses between them, none for an event that cannot be prepared, stopping at the first success; exact streak and circuit state |
| Outbox.Dispatcher.RecordStorageFailure | integrations.py:600-610 | counts the failure and returns the backoff of the streak |
| Outbox.Dispatcher.ScheduleEventRetry | integrations.py:552-566 | a failed event below the limit is scheduled once, after the cooldown or its own backoff |
| Outbox.Dispatcher.Attempt | integrations.py:545-574 | the mark that is due: delivered exactly after a successful delivery of the id, dead-lettered exactly when malformed or at the limit, else a retry with its deadline |
| Outbox.Dispatcher.ScheduleStorageRetry | integrations.py:575-597 | each storage failure schedules one retry |
| Outbox.Dispatcher.Settle | integrations.py:567-597 | the due mark is called for first; only if it raises, a retry is, once; each raised call is counted and scheduled |
| Outbox.Dispatcher.VisitRecord | integrations.py:539-597 | the visit adds exactly its record's delivery and calls to the log, for every pattern of delivery and storage failures |
| Outbox.Dispatcher.DispatchBatch | integrations.py:518-598 | every record is visited as it requires unless the worker is stopped; success exactly without a raised call; the deadline is the earliest of all scheduled |
| Outbox.Dispatcher.RunOnce | integrations.py:488-516 | exactly when the turn is gated, cannot list or dispatches, with the listed records, deadline and streaks of each; no batch starts while the circuit is open; within a batch a delivery starts while it is open exactly if an earlier one of the same batch opened it and none has switched it since |

## Left out

- The text of a QR code is a byte sequence here; its UTF-8 encoding is not modelled.
- QrSymbol.Matrix: takes the penalty scoring as an arbitrary function, because the round trip must hold for every choice of mask; the SVG rendering is not modelled.
- ReviewRuns.RunStores: the calls of different stores follow one another in the log; for overlapping calls, whose commands interleave in the shared run, ReviewRuns.OneCallConsumes and the contract of a consume give the same conclusions by position in that run.
- Redis may lose all data or restart with its data; losing or rolling back part of the data is not modelled.
- Tokens, reservations, task handles and epochs are fresh values; digests of secrets and intents are compared as values.
- StripedLocks.NoDeadlock: leaves out the wait for the Redis lock inside a stripe, which is bounded by its deadline.
- The order of bindings matters only to the eviction loop, which never evicts; bindings are a plain map here.
- LiveSend.NoSendAfterRevocation: one lock object per session; after a revocation the source may create another one, but no check succeeds any more. The executor is assumed to run every refresh it accepted.
- The bound on a single header list and the parsing of Engine.IO packets are inputs of ByteBudget, not part of it.
- Automation.Account.Apply: passes and operator actions of one account exclude each other, as under the account's mutation lock; losing the lease between the last ownership check and the router write is not modelled, nor is a write that takes effect after the read-back, nor a rename of the account.
- Automation assumes one stored enforcement state per account. Instances that share Redis but keep separate SQLite stores are outside of it: a restriction recorded by one instance is not cleared by a suspension made through another.
- Creating an account under a name that still carries a stored enforcement state is not modelled; the clock of the worker is monotone.
- Automation takes the quota usage and the schedule test as inputs; alerts and audit records are not modelled.
- Revocation.Revoke: visits the sessions in any order, where the source sorts them.
- Provisioning.Provision: the profile suffix test, the certificate comparison inside a profile, digests and fingerprint normalisation are function parameters; the configuration test before the first request is not modelled.
- HardenProfile.LastPolicyWins: assumes identity, addresses and DNS server to be printable text without spaces or an opening angle bracket, which the configuration's own validation guarantees; parsing of the LAN network is an input.
- Outbox.Dispatcher.RunOnce: the in-memory queue that serves deliveries without a store is not modelled.
- Outbox.Dispatcher.DeliverWithRetries: the pauses are events of the log; how long they really last is up to the clock.
- Outbox.Dispatcher.DispatchBatch: what an event contains and how it is signed is not modelled; a delivery attempt succeeds or fails.
- HTTP routing, pages, exports, telemetry, the session store, certificate listings, the command-line planners and profile sharing are not part of this model; they would add only one-branch claims.

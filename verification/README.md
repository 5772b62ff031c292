# Beamio settlement server: verified models

Dafny models of the parts of the server that carry state machines, byte-level algorithms and derived
tables, with proofs about every input, every run or every reachable state. Functions and classes keep
the names of the TypeScript they follow. Code that updates variables step by step is a method or a
class whose `ensures` ties the new state to a specification function; the laws are lemmas about those
functions and about runs of them. What the specification functions compute is stated once more, without
naming them, in terms of the inputs alone: the list of steps, the calls, the logs, the vault's answers,
the hex digits of a URL. `dafny verify dfyconfig.toml` checks everything.

| module | models |
|---|---|
| `SettlePool` | the two occupancy lists over one roster of signing wallets |
| `RelayWorkers` | any number of relay queues drawing on the CoNET wallets: parallel relays, flag-guarded presses, the gateway reward pool |
| `DepinCron` | the paginated DePIN airdrop cron |
| `SerialLane` | the per-signer transaction lanes |
| `Cmac`, `SunUrl`, `SunCounter`, `SunVerify` | AES-CMAC (RFC 4493), SUN URL reading, replay protection, and the verdict on a URL that combines them |
| `Linker` | solc library linking |
| `DiamondPlan` | the ERC-2535 upgrade planner |
| `TopupLedger`, `PosBinding`, `NfcCards`, `ReferrerMirror` | database tables that must agree with a simpler truth |
| `GenesisIncome` | the Genesis purchase split and the income lines |
| `Common`, `Text` | options, list counting, strings |

## How the code is read

- JavaScript runs the code between two awaits without interruption. Each such stretch is one step;
  every interleaving of steps is a run, and a step that is not possible leaves the state alone.
- A database transaction is one step, without database faults. Where SQL leaves a choice open (rows
  with equal time stamps), the choice is a parameter.
- The chain, AES, keccak, wallet derivation, the clock and the vault contract are arbitrary functions
  or parameters. Addresses are numbers, the zero address is 0; in `DiamondPlan` and `Linker`, where
  letter case matters, they are text.
- The gateway reward pool clears its running flag in a `finally` after the press returned; both are one step.
- The wallets of `RelayWorkers` can also be taken and returned by other code at any moment.
- Case folding and trimming treat ASCII letters and blanks; `TopupLedger` reads amounts of all the
  forms that the code accepts.

## Where the code does less than it says

- **DePIN sweeps.** The cron is meant to pay every node between two clock advances. A tick queues its
  job without looking at pending ones and reads the cursor again after its page request, so a closing
  page can be queued twice, or queued at a cursor that was reset meanwhile; the later sweep then
  consists of that page alone. `DepinCron.AllRunsWholeIffBelowOnePage` proves that all runs are
  gap-free exactly when there are fewer nodes than a page holds, and `DepinCron.PushSafeIffNoGapFollows`
  gives the guard that would make every sweep whole. Whether a page transaction succeeds is the
  contract's decision; runs contain both outcomes.
- **NFC provisioning.** The address returned for a tag is meant to be the one the tag leads to later.
  When the row with the uid already has another tag, the insert keeps the old tag, the new tag leads
  nowhere, and the returned address belongs to a random wallet that is not stored
  (`NfcCards.SecondTagIsNotServed`). `NfcCards.ProvisionedAddressIsFoundIff` has the exact condition.
- **Backfill ranges.** A range given backwards is not empty: its first block is scanned
  (`ReferrerMirror.BackwardRangeScansOneBlock`). A split of a range therefore gives the same table, for
  every table and all logs, exactly when the second call has a block of its own
  (`ReferrerMirror.SplitHarmlessIffInside`).
- **Waiting for all lanes.** Lanes are waited for one after the other; new work on an earlier one is not
  noticed (`SerialLane.LateEnqueueBreaksShutdownWait`). All waited-for lanes are idle at the end, however
  the completions fall, exactly when nothing is enqueued on a lane after it was waited for
  (`SerialLane.ShutdownWaitIdleIffNoLate`).
- **Settle wallets.** Duplicate admin keys are not removed. Conservation holds for them too; two users
  can hold one wallet exactly when there are duplicates (`SettlePool.MutualExclusionIffDistinctKeys`).
- **Clearing a referrer.** An empty referrer and the plain zero address clear it, while a referrer of
  blanks is ignored and a zero address in another form is stored (`ReferrerMirror.ReferrerWanted`).

## Model

| member | source | states |
|---|---|---|
| SettlePool.AcquireBothTakesFirstShared | src/settleContractPool.ts:158-181 | a dual acquisition succeeds exactly when one wallet is idle on both chains, takes the first such Base entry, and removes that one entry from both lists without reordering the rest |
| SettlePool.AcquireGenesisBothAllOrNothing | src/settleContractPool.ts:206-229 | the initiator is taken from both lists when both have it and from neither otherwise |
| SettlePool.SingleShifts | src/settleContractPool.ts:163-219 | a plain shift takes the first entry of its chain, a Genesis shift the first entry of the initiator, and they fail, changing nothing, exactly when there is none |
| SettlePool.ReturnedIsNext | src/settleContractPool.ts:183-194 | a wallet that comes back is the next one handed out |
| SettlePool.ReleaseUndoesAcquire | src/settleContractPool.ts:163-247 | releasing any acquisition gives each chain the wallets it had, and after a plain shift the exact list |
| SettlePool.WalletConservation | src/settleContractPool.ts:163-267 | after any interleaving of acquisitions and releases, over any roster, idle and held entries of each chain together are the roster |
| SettlePool.MutualExclusionIffDistinctKeys | src/settleContractPool.ts:85-138 | no run ever lets two users hold one wallet on a chain, or leaves a held wallet idle, if and only if the admin keys are distinct |
| SettlePool.SettleContractPool.InitSettleContractPool | src/settleContractPool.ts:85-138 | fills the roster and both lists once |
| SettlePool.SettleContractPool.ShiftSettleBase | src/settleContractPool.ts:163-165 | the first Base entry, or none |
| SettlePool.SettleContractPool.ShiftSettleConet | src/settleContractPool.ts:167-169 | the first CoNET entry, or none |
| SettlePool.SettleContractPool.UnshiftSettleBase | src/settleContractPool.ts:183-185 | the release step on Base |
| SettlePool.SettleContractPool.UnshiftSettleConet | src/settleContractPool.ts:187-189 | the release step on CoNET |
| SettlePool.SettleContractPool.UnshiftSettleBoth | src/settleContractPool.ts:191-194 | the release step on both chains |
| SettlePool.SettleContractPool.ShiftGenesisBridgeInitiatorBase | src/settleContractPool.ts:213-219 | the search and splice compute the Genesis acquisition on Base |
| SettlePool.SettleContractPool.ShiftSettleBoth | src/settleContractPool.ts:171-181 | the index map and the loop compute the dual acquisition in place |
| SettlePool.SettleContractPool.ShiftGenesisBridgeInitiatorBoth | src/settleContractPool.ts:221-229 | the two searches and splices compute the Genesis acquisition |
| SettlePool.SettleContractPool.OpenGenesisBoth | src/settleContractPool.ts:250-261 | opening the bracket fails without a change when the initiator is not in the roster or busy |
| RelayWorkers.ReachableInv | src/chatIndexPointer.ts:43-90 | the bookkeeping of jobs, wallets, flags, replies and timers holds in every reachable state, for any number of queues of any kind |
| RelayWorkers.JobInExactlyOnePlace | src/treasuryStableSwapRelay.ts:68-144 | every job is queued, at work or finished, in exactly one place and once, and jobs start in arrival order |
| RelayWorkers.ReplyExactlyOnce | src/chatIndexPointer.ts:75-89 | from the list of steps alone: at most one completion ends a job; a job that expects an answer and had none when it came gets exactly one reply once it has ended, and the reply says how its own worker ended; all others get none |
| RelayWorkers.FinishedFromSteps | src/genesisNodeReferralRedeem.ts:63-189 | a job is recorded as finished with an outcome exactly when a step ended the worker that held it, with that outcome |
| RelayWorkers.HandOver | src/treasuryStableSwapRelay.ts:68-144 | a returned wallet starts the next job of its queue at once, except after a gateway press, which arms a timer; only then, or with no job left, it goes idle, first in line |
| RelayWorkers.WorkersExclusive | src/gbDepinAirdrop.ts:89-133 | guarded presses have one worker at most, and with distinct keys no wallet serves two users |
| RelayWorkers.NoLostWakeup | src/userCumulativeStatRewardPoolMaster.ts:106-117 | a non-empty queue always has a worker or an armed timer |
| RelayWorkers.ProductiveStepsDescend | src/chatIndexPointer.ts:52-90 | completions and useful timers lower (unfinished, queued) lexicographically; no other step but an arrival raises it |
| RelayWorkers.WorkProceedsIffWalletsReturn | src/treasuryStableSwapRelay.ts:77-144 | while work remains a productive step is possible if and only if other code does not hold the whole roster |
| RelayWorkers.EverythingCanFinish | src/chatIndexPointer.ts:43-90 | from a reachable state all pending jobs can be finished by timers and completions alone if and only if none is pending or other code does not hold the whole roster |
| RelayWorkers.RelayProcess.RelayStart | src/chatIndexPointer.ts:52-59 | a worker takes the first job and a wallet, or puts the job back and schedules |
| RelayWorkers.RelayProcess.ScheduleRelay | src/chatIndexPointer.ts:43-50 | nothing for an empty queue, a kick when a wallet is idle, a timer otherwise |
| RelayWorkers.RelayProcess.RelayFinish | src/chatIndexPointer.ts:75-89 | the reply, the return of the wallet and the next kick are the completion step |
| RelayWorkers.RelayProcess.PressStart | src/gbDepinAirdrop.ts:95-108 | the same for a press that sets and clears its own flag |
| RelayWorkers.RelayProcess.SchedulePress | src/gbDepinAirdrop.ts:89-93 | the same for presses |
| RelayWorkers.RelayProcess.PressFinish | src/gbDepinAirdrop.ts:128-132 | the flag is cleared before the next press is scheduled |
| RelayWorkers.RelayProcess.KickGateway | src/userCumulativeStatRewardPoolMaster.ts:106-112 | the flag is raised by the kick and lowered when the press ends |
| RelayWorkers.RelayProcess.GatewayPressStart | src/userCumulativeStatRewardPoolMaster.ts:231-239 | the gateway press takes a job and a wallet, or arms a timer |
| RelayWorkers.RelayProcess.GatewayPressFinish | src/userCumulativeStatRewardPoolMaster.ts:390-394 | wallet back, timer armed when work is left, flag cleared |
| RelayWorkers.RelayProcess.FireTimer | src/chatIndexPointer.ts:49 | a timer that fires kicks its relay |
| RelayWorkers.RelayProcess.Enqueue | src/userCumulativeStatRewardPoolMaster.ts:396-399 | push then kick |
| DepinCron.SafePushesKeepSweepsWhole | src/gbDepinAirdrop.ts:182-247 | for every node count and page size, with safe pushes, under every interleaving of ticks, duplicates, failures and completions, pages climb from 0 by repeats or single pages, every clock advance ends a climb that paid every node |
| DepinCron.PushSafeIffNoGapFollows | src/gbDepinAirdrop.ts:425-440 | for every node count and page size, a push is safe if and only if no safe continuation leaves a gap |
| DepinCron.AllRunsWholeIffBelowOnePage | src/gbDepinAirdrop.ts:399-444 | the code as written never leaves a gap if and only if all nodes fit below one page |
| DepinCron.SecondClosingLeavesGap | src/gbDepinAirdrop.ts:429-440 | a closing page queued while one is pending makes up a sweep of its own |
| DepinCron.ResetCursorLeavesGap | src/gbDepinAirdrop.ts:430-438 | a closing page queued at a cursor reset during the fetch ends a sweep on its first page |
| DepinCron.TwoTicksLeaveGap | src/gbDepinAirdrop.ts:399-444 | on the last page two ticks before the first job has run are enough for a gap |
| DepinCron.GateOpensAfterWait | src/gbDepinAirdrop.ts:366-389 | over any ticks at the start of sweeps, an expensive tick is let through if and only if the waiting time has passed since the first refusal of its stretch, and so are all later ones of the stretch |
| DepinCron.TickQueues | src/gbDepinAirdrop.ts:425-440 | the page that is queued starts at the cursor as it is then, is as long as the page asked for up to the last node, and closes the sweep exactly when fewer nodes than a page were left there |
| DepinCron.UndisturbedTick | src/gbDepinAirdrop.ts:425-440 | without a change of the cursor the page holds nodes that are left: it starts at the cursor and ends at or before the last node, or is one closing place when none is left |
| DepinCron.GbDepinAirdrop.GasGate | src/gbDepinAirdrop.ts:366-389 | open in the middle of a sweep; at its start expensive gas is waited out for a bounded time |
| DepinCron.GbDepinAirdrop.CronTickFetch | src/gbDepinAirdrop.ts:399-430 | one tick at a time reads the cursor for its page request |
| DepinCron.GbDepinAirdrop.CronTickPush | src/gbDepinAirdrop.ts:430-443 | the job is queued at the cursor as it is after the request |
| DepinCron.GbDepinAirdrop.PressStart | src/gbDepinAirdrop.ts:168-176 | the press takes the first job under its flag |
| DepinCron.GbDepinAirdrop.PressFinish | src/gbDepinAirdrop.ts:206-246 | only a confirmed page moves the cursor; success and nothing-to-pay end the gas wait |
| SerialLane.LaneIsFifo | src/onchainTxSerialQueue.ts:17-77 | for every interleaving, the first tasks are settled in order, each once with its own outcome, the next one runs alone, the rest wait, and the depth counts the unsettled |
| SerialLane.EveryTaskSettles | src/onchainTxSerialQueue.ts:52-77 | as many completions as unsettled tasks settle them all, failures included |
| SerialLane.OutcomeForGood | src/onchainTxSerialQueue.ts:67-74 | a settled promise has the outcome of its own task, at every later moment too |
| SerialLane.LanesAreIndependent | src/onchainTxSerialQueue.ts:95-119 | the lane of a normalised key is what its own steps alone make of it |
| SerialLane.OneLanePerSigner | src/onchainTxSerialQueue.ts:97-109 | two keys lead to one lane if and only if they differ at most in outer blanks and letter case, and then no call tells them apart |
| SerialLane.ShutdownWaitIdleIffNoLate | src/onchainTxSerialQueue.ts:129-133 | waits that all succeed leave every waited-for lane idle, for all completions, if and only if nothing is enqueued on a lane after it was waited for |
| SerialLane.ShutdownWaitLeavesLanesIdle | src/onchainTxSerialQueue.ts:129-133 | the positive half for one schedule: enqueues on the lane being waited for and on lanes still to come do no harm |
| SerialLane.LateEnqueueBreaksShutdownWait | src/onchainTxSerialQueue.ts:129-133 | with an enqueue during a later wait an earlier lane can be busy at the end |
| SerialLane.OnchainTxSerialLane.EnqueueTask | src/onchainTxSerialQueue.ts:31-50 | push, and start the drain when none runs |
| SerialLane.OnchainTxSerialLane.DrainOn | src/onchainTxSerialQueue.ts:52-77 | the drain takes the next task or ends |
| SerialLane.OnchainTxSerialLane.TaskDone | src/onchainTxSerialQueue.ts:67-76 | the awaited task's promise is settled, and the drain goes on |
| SerialLane.OnchainTxSerialLane.WaitIdle | src/onchainTxSerialQueue.ts:79-92 | returns with the lane idle, or at the first poll past the limit with work left |
| SerialLane.OnchainTxQueues.EnqueueOnchainTxWork | src/onchainTxSerialQueue.ts:97-119 | finds or creates the lane of the normalised key and changes no other |
| Cmac.LeftShiftIsDoubling | src/BeamioSun.ts:129-138 | the shift is multiplication by two modulo 2^128 on the big-endian value (and modulo 256^n for n bytes) |
| Cmac.DoubleIsBijective | src/BeamioSun.ts:150-156 | the doubling of RFC 4493 section 2.3 has a two-sided inverse on blocks |
| Cmac.PadMessageInjective | src/BeamioSun.ts:162-176 | different messages give different padded blocks or a different complete-last-block flag |
| Cmac.FullBlockAt | src/BeamioSun.ts:178-182 | block i of the padded message is bytes 16i to 16i+15 |
| Cmac.LastBlockAt | src/BeamioSun.ts:162-176 | the last block is the remaining bytes, padded unless they fill it |
| Cmac.PadValue | src/BeamioSun.ts:170-176 | padding appends a one bit and zeros to the end of the block, in terms of the big-endian value |
| Cmac.DoubleIs | src/BeamioSun.ts:150-156 | a subkey is twice the block modulo 2^128, with 0x87 added to the last byte exactly when a bit was lost |
| Cmac.MacIs | src/BeamioSun.ts:158-184 | for every message the MAC is the one of RFC 4493 down to the message bytes: chained states from zero, the padded last block mixed with the first subkey when it is complete and with the second otherwise |
| Cmac.LeftShiftOneBit | src/BeamioSun.ts:129-138 | the carry loop computes the shift |
| Cmac.XorInto | src/BeamioSun.ts:140-142 | the loop computes the exclusive or of the old contents, aliased or not |
| Cmac.CmacSubkeys | src/BeamioSun.ts:150-156 | the subkeys are the first and second doubling |
| Cmac.AesCmac | src/BeamioSun.ts:158-184 | for every message and every block cipher the result is the MAC of RFC 4493 section 2.4 |
| SunUrl.QueryParamIsFirstMatch | src/BeamioSun.ts:51-58 | a parameter is read as the value of the first one whose key, with what precedes it, ends with the name |
| SunUrl.SunParamRoundTrip | src/BeamioSun.ts:51-58 | uid, c, e and m are read back in any order, and an absent one is reported absent |
| SunUrl.SunFieldsReadBack | src/BeamioSun.ts:242-246 | all four fields of a SUN URL are read back |
| SunUrl.NormalizeHexCanonical | src/BeamioSun.ts:40-49 | accepted values are upper-case hex of the wanted length, canonical values are kept, normalising twice is normalising once |
| SunUrl.NormalizeHexReads | src/BeamioSun.ts:40-49 | blanks anywhere and the case of letters do not matter, and text with anything but blanks and hex digits is refused |
| SunUrl.LayoutFollowsOrder | src/BeamioSun.ts:222-232 | the uid-first layout is chosen if and only if the parameters come in the order uid, c, e, m |
| SunUrl.MacInputIsUrlSlice | src/BeamioSun.ts:218-238 | in the supported layouts the MAC input is the URL's own text from the first covered value to the end of `m=` |
| SunCounter.TableHoldsLastAccepted | src/db.ts:5027-5078 | the table holds each uid's last accepted tap and nothing else |
| SunCounter.AcceptedIff | src/BeamioSun.ts:268-277 | acceptance in terms of the history of accepted taps alone |
| SunCounter.CounterNeverDecreases | src/BeamioSun.ts:350-367 | a stored counter never goes back and its row never disappears |
| SunCounter.SupersededNeverAccepted | src/BeamioSun.ts:272-277 | no tap is accepted with a counter below one stored before |
| SunCounter.RepeatsAreRecent | src/BeamioSun.ts:274-277 | an accepted repeat of a counter follows an accepted tap with that counter by less than 120 seconds |
| SunCounter.ExpiredForGood | src/BeamioSun.ts:274-277 | once a stored counter is 120 seconds old, only larger ones are ever accepted |
| SunCounter.OtherUidsDoNotMatter | src/db.ts:5052-5078 | a uid's row is what its own taps alone would have left |
| SunCounter.SunCounterStore.VerifyAndPersist | src/BeamioSun.ts:350-367 | answers and stores as specified; a rejected tag stores nothing |
| SunVerify.TagUrlVerdict | src/BeamioSun.ts:240-303 | the URL of a tag, in either layout, is refused when what the tag encrypted is not 32 bytes; otherwise it gets a verdict, positive if and only if `m` is the MAC that the tag makes over the covered text of that URL and the counter bytes are fresh; tag id and version are read off the decrypted bytes |
| SunVerify.TagMacIs | src/BeamioSun.ts:186-189 | the expected MAC is, digit by digit, every second byte of the AES-CMAC of the covered characters under the session key, which is the AES-CMAC under the master key of six fixed bytes, the uid and the reversed counter |
| SunVerify.TagPlainIs | src/BeamioSun.ts:191-195 | the payload is decrypted under the other session key, starting from the encrypted counter block |
| SunVerify.PayloadRead | src/BeamioSun.ts:197-216 | the tag id follows uid and counter when the plain bytes repeat those of the URL, and comes first otherwise |
| SunVerify.CounterNumber | src/BeamioSun.ts:269 | the counter is the number with the three bytes that its digits spell |
| SunVerify.ValidIsAcceptance | src/BeamioSun.ts:265-302 | for every URL that gets a verdict, the verdict is the counter table's acceptance of the tap; the MAC and the counter decide, the decrypted uid and counter only select the layout |
| SunVerify.HexNumberInjective | src/BeamioSun.ts:268-273 | counters of one length are equal as numbers exactly when they are equal as text |
| Linker.LinkReplacesExactlyTheSlots | src/linkBeamioUserCardBytecode.ts:14-33 | linking succeeds if and only if every library is resolved, distinct and present, and then replaces exactly the placeholder tokens, everything else kept up to case |
| Linker.LinkedCodeShape | src/linkBeamioUserCardBytecode.ts:23-30 | the length does not depend on the addresses and no listed placeholder is left |
| Linker.LinkOrderIrrelevant | src/linkBeamioUserCardBytecode.ts:15-32 | the order of the libraries changes neither the success nor the code |
| Linker.TemplatePrefix | src/linkBeamioUserCardBytecode.ts:14 | a template reads the same with and without `0x` |
| Linker.LinkBeamioUserCardBytecode | src/linkBeamioUserCardBytecode.ts:9-34 | the nested loops compute the fold over all libraries and stop at the first error |
| Linker.LinkLibrary | src/linkBeamioUserCardBytecode.ts:17-30 | the loop body, with its three errors in order |
| Text.JoinSplit | src/linkBeamioUserCardBytecode.ts:26-30 | splitting and joining replaces the occurrences from the left |
| Text.SplitFindsOccurrence | src/linkBeamioUserCardBytecode.ts:26-29 | a string splits into two or more parts if and only if the separator occurs |
| Text.OneNameOneText | src/onchainTxSerialQueue.ts:97-99 | trimming and lower-casing make one text of all spellings that differ in outer blanks and letter case, and of no others |
| DiamondPlan.PlanCutsForFacet | src/develop.ts:222-252 | the loop sorts the selectors into the four lists, each in order and with exactly the selectors it should hold |
| DiamondPlan.GetInstalledSelectors | src/develop.ts:205-217 | the nested loops build the table of the listed facets |
| DiamondPlan.ListedIsTable | src/develop.ts:205-217 | for a faithful loupe listing that is the chain's table |
| DiamondPlan.ChosenCutsLegal | src/develop.ts:311-328 | the Replace cut is legal, and the Add cut is legal after it |
| DiamondPlan.UpgradeRun | src/develop.ts:310-337 | every cut of a run is legal when sent, and each selector ends at the facet of the last plan that wants it or keeps its route |
| DiamondPlan.RoutesInTheEnd | src/develop.ts:310-337 | a selector ends at the facet of the last plan that lists it, or stays when no plan does; `diamondCut` stays |
| DiamondPlan.CutsMean | src/develop.ts:311-328 | a plan sends at most a Replace and then an Add, of its facet in lower case, of exactly the selectors routed elsewhere and nowhere |
| DiamondPlan.DiamondCutNeverMoves | src/develop.ts:231-234 | the route of `diamondCut` never changes |
| DiamondPlan.NoCutsIff | src/develop.ts:311-332 | a plan sends nothing if and only if all it wants is at its facet |
| DiamondPlan.SecondRunIsQuietIff | src/develop.ts:298-337 | a second run sends no cut if and only if no selector is wanted for two different facets |
| DiamondPlan.DiamondUpgrade.DiamondCutTx | src/develop.ts:192-203 | a legal cut routes its selectors and is recorded |
| DiamondPlan.DiamondUpgrade.UpgradeFacet | src/develop.ts:310-332 | one plan sends its cuts and keeps the two tables equal |
| DiamondPlan.DiamondUpgrade.SendCuts | src/develop.ts:318-328 | each transaction is legal, and the local map equals the chain's table afterwards |
| DiamondPlan.DiamondUpgrade.Upgrade | src/develop.ts:298-337 | the run sends exactly the planned cuts and ends with equal tables |
| TopupLedger.AggregatesEqualLog | src/db.ts:3082-3132 | in every reachable state the member statistics and card totals are the counts and sums over the event table |
| TopupLedger.EventsAreFirstCalls | src/db.ts:3058-3096 | the event table holds the first call with good addresses under each hash, in order and field by field |
| TopupLedger.StatsFromCalls | src/db.ts:3097-3115 | a member row has the count and the sums of the first calls under each hash for that card and member, and the tier, account and hash of the last of them |
| TopupLedger.RollupsFromCalls | src/db.ts:3065-3131 | the four totals of a card count the first calls under each hash: all, those of a repeat category, those of the NFC and of the app channel whose flag is set |
| TopupLedger.AmountMeans | src/db.ts:2990-2998 | big integers count as they are, other numbers rounded down and at least zero, decimal text between blanks as its value, anything else as zero |
| TopupLedger.HashesStayUnique | src/db.ts:3084-3096 | no transaction hash is in the event table twice |
| TopupLedger.CountersBounded | src/db.ts:3065-3069 | repeats, and the two activations together, are at most the total, and each activation count is at most the top-ups of its source |
| TopupLedger.MemberCountsAddUp | src/db.ts:3097-3131 | the member counts of a card add up to its total |
| TopupLedger.ReplayChangesNothing | src/db.ts:3084-3096 | repeating any earlier calls, under the same hashes in any letter case, changes nothing |
| TopupLedger.TopupDb.InsertEvent | src/db.ts:3084-3096 | inserts exactly when the hash is new |
| TopupLedger.TopupDb.UpsertStats | src/db.ts:3097-3115 | inserts or adds to the member's statistics |
| TopupLedger.TopupDb.UpsertRollup | src/db.ts:3116-3131 | inserts or adds to the card's totals |
| TopupLedger.TopupDb.InsertMemberTopupEvent | src/db.ts:3029-3147 | the upserts of one transaction are the specified step |
| PosBinding.FlagsImplementCurrent | src/db.ts:2492-2541 | in every run over any terminals the flags of a terminal implement one current card |
| PosBinding.ReadBackIsCurrent | src/db.ts:2561-2597 | a bound terminal has exactly one active row, and the row read back is that one |
| PosBinding.ActiveCardAfter | src/db.ts:2492-2736 | for every operation, which card is active next and which time stamps move |
| PosBinding.FirstBindIsActive | src/db.ts:2492-2541 | the first card of a terminal is active whatever was asked for |
| PosBinding.DeletingActivePromotesLatest | src/db.ts:2683-2736 | deleting the active card makes another card the one read back, such that no other remaining card has a later time, missing times being earliest, and touches nothing else |
| PosBinding.DetailsFollowHistory | src/db.ts:2515-2534 | in every run a binding carries the last hash and the last metadata that a bind brought since the card was bound |
| PosBinding.RepairIff | src/db.ts:2447-2461 | the schema repair leaves exactly one active row if and only if there was at most one, and with none it picks a row such that no other has a later time |
| PosBinding.PosTerminalDb.UpsertPosTerminalAdminCardBinding | src/db.ts:2492-2541 | the statements of a bind are the specified step |
| PosBinding.PosTerminalDb.SetActivePosTerminalCardBinding | src/db.ts:2640-2676 | fails exactly for an unbound card, without a change |
| PosBinding.PosTerminalDb.DeletePosTerminalCardBinding | src/db.ts:2683-2736 | deletes and promotes; a missing card address is refused |
| PosBinding.PosTerminalDb.GetPosTerminalCardBindingRow | src/db.ts:2561-2597 | returns a first row of the order, or nothing exactly when there is none |
| NfcCards.KeysNeverRotate | src/db.ts:4751-4933 | over every run of backfills, tag-carrying registrations and provisionings, uids and tags stay unique and no stored key, tag or owner changes |
| NfcCards.TagAddressStable | src/db.ts:4461-4481 | an address once found by a tag is found by it for ever |
| NfcCards.ProvisionedAddressIsFoundIff | src/db.ts:4784-4823 | the address returned is the one the tag leads to if and only if the table before the call serves the tag |
| NfcCards.ProvisionedForGood | src/db.ts:4784-4823 | such an address is returned, as not new, by every later provisioning |
| NfcCards.ServesWithOneRow | src/db.ts:4784-4823 | with usable keys and at most one matching row, the promise fails exactly when that row has the uid and another tag |
| NfcCards.SecondTagIsNotServed | src/db.ts:4812-4823 | the failing case |
| NfcCards.TagLeadsTo | src/db.ts:4461-4481 | a tag leads to the linked owner of its row, or else to the wallet of its key |
| NfcCards.BackfillMeans | src/db.ts:4751-4781 | the tag goes to the only row of the uid, in any letter case, that has a key and no tag, when nobody has the tag; otherwise nothing changes |
| NfcCards.KeylessTagTakesUid | src/db.ts:4885-4903 | a row with the tag and no key gets the key and a free 14-digit uid, and is found by that uid from then on |
| NfcCards.RegisterMeans | src/db.ts:4904-4919 | otherwise the row with the uid is completed, or a new row is made, unless the tag is taken |
| NfcCards.FreshCard | src/db.ts:4784-4823 | a card that is new to the table gets the random wallet, stored under uid and tag, and is reported as new |
| NfcCards.NfcCardDb.BackfillNfcCardTagIdByUid | src/db.ts:4751-4781 | attaches the tag if and only if one row lacks it and no row has it |
| NfcCards.NfcCardDb.RegisterNfcCardToDb | src/db.ts:4875-4919 | the update by tag and the insert by uid are the specified step |
| NfcCards.NfcCardDb.ProvisionOrGetNfcWalletByTagId | src/db.ts:4784-4823 | the calls are the specified provisioning |
| ReferrerMirror.ReceiptReplay | src/cardProgramReferrerDb.ts:311-357 | applying a receipt twice is applying it once, for any mix of events over any keys |
| ReferrerMirror.RowsFollowEffect | src/cardProgramReferrerDb.ts:65-160 | what a list of statements does to a row depends on the row only as its summary says |
| ReferrerMirror.ShareBindResult | src/cardProgramReferrerDb.ts:286-308 | a share bind registers the sharer, points the opener at the sharer, and moves no third row |
| ReferrerMirror.ChunksCoverRange | src/cardProgramReferrerDb.ts:385-403 | without failing requests the chunks read each block of the range once, in order |
| ReferrerMirror.FailedChunksAreSkipped | src/cardProgramReferrerDb.ts:385-412 | whatever requests fail, the logs read are those of all other blocks, in requests of 4500 blocks from the first, each once and in order |
| ReferrerMirror.SplitHarmlessIffInside | src/cardProgramReferrerDb.ts:372-432 | a split of a range gives the same table, for every table, card and logs, if and only if it lies before the last block |
| ReferrerMirror.SplitAnywhere | src/cardProgramReferrerDb.ts:372-432 | the positive half for one table and one chain |
| ReferrerMirror.BackfillReplay | src/cardProgramReferrerDb.ts:372-432 | backfilling a range again changes nothing |
| ReferrerMirror.BackwardRangeScansOneBlock | src/cardProgramReferrerDb.ts:381-385 | a backward range scans its first block |
| ReferrerMirror.CardProgramReferrerDb.UpsertCardProgramRefereeRegistered | src/cardProgramReferrerDb.ts:65-94 | insert, or refresh the hash |
| ReferrerMirror.CardProgramReferrerDb.RemoveCardProgramReferee | src/cardProgramReferrerDb.ts:97-118 | deletes the row |
| ReferrerMirror.CardProgramReferrerDb.UpdateCardProgramRefereeReferrer | src/cardProgramReferrerDb.ts:121-160 | insert or set the referrer; an empty one and the plain zero address clear it, blanks and malformed text change nothing |
| ReferrerMirror.CardProgramReferrerDb.ApplyShareRefereeBoundToDb | src/cardProgramReferrerDb.ts:286-308 | registers the sharer, then sets the opener's referrer |
| ReferrerMirror.CardProgramReferrerDb.SyncCardProgramReferrerEventsFromReceipt | src/cardProgramReferrerDb.ts:311-357 | the loop applies the card's events in order; afterwards each account of the card has a row exactly when the last event that names it is no unregistration, with the referrer and hash that its events since the last unregistration ask for, and no other card's row moves |
| ReferrerMirror.ReceiptRows | src/cardProgramReferrerDb.ts:311-357 | the same for every table and every list of logs |
| ReferrerMirror.BindRows | src/cardProgramReferrerDb.ts:405-423 | the same for the share binds of a backfill, each with its own hash, and the number applied is the number of binds |
| ReferrerMirror.UnnamedRowsStay | src/cardProgramReferrerDb.ts:311-357 | an account that no event names keeps its row |
| ReferrerMirror.CardProgramReferrerDb.BackfillCardProgramShareRefereeBindsFromLogs | src/cardProgramReferrerDb.ts:372-432 | the chunked loop applies the share binds of all blocks whose request succeeds, leaves the rows they ask for, and counts them |
| GenesisIncome.SplitConserves | src/genesisNodeReferralIncome.ts:143-205 | for every role and member table the amounts are not negative and add up to the sale, positive amounts have payees, the L1 share is rounded down and the L0 gets the rest of the pool |
| GenesisIncome.ShareWithinPool | src/genesisNodeReferralIncome.ts:168-171 | the share is the floor of pool times ratio, capped at the pool |
| GenesisIncome.SplitFromVault | src/genesisNodeReferralIncome.ts:146-205 | from the vault's answers alone: who is paid as L1, L0, admin and foundation, and how much; the L0 pool goes to the foundation exactly when nobody is paid as L0 |
| GenesisIncome.ResolveGenesisPurchaseSplit | src/genesisNodeReferralIncome.ts:127-206 | the branches compute the split of the referrer's role, which follows from the vault's answers |
| GenesisIncome.SortedByTime | src/db.ts:2037 | lines come newest first, lines of one moment in their order |
| GenesisIncome.ExpandGenesisNodeReferralIncomeItems | src/db.ts:1996-2038 | the loop collects the account's lines and sorts them |
| GenesisIncome.ItemsMean | src/db.ts:1996-2038 | a line is shown exactly when it is a positive amount of a purchase in a role in which the account is paid, with that purchase's prefixed hash and time |
| GenesisIncome.IncomeIsPaidOut | src/db.ts:1996-2038 | over any purchases, the income of all payees, each taken once, is what the purchases pay out |
| GenesisIncome.GenesisLedger.RecordGenesisNodeReferralPurchaseIncome | src/genesisNodeReferralIncome.ts:223-275 | a valid purchase with a new hash is split and stored, any other changes nothing |
| GenesisIncome.LedgerHashesUnique | src/genesisNodeReferralIncome.ts:236-251 | no hash is in the ledger twice |
| GenesisIncome.RecordingAgainChangesNothing | src/genesisNodeReferralIncome.ts:236-251 | reporting purchases again under known hashes changes neither the ledger nor any income |
| GenesisIncome.SalesBecomeIncome | src/genesisNodeReferralIncome.ts:223-275 | from the reported sales through the ledger to the lines nothing is lost or paid twice, each hash counted once |
| GenesisIncome.IncomeIsDue | src/genesisNodeReferralIncome.ts:223-275 | the income of each account is the sum of what the vault's answers make it due from each sale that is the first acceptable one under its hash |

## Left out

- HTTP handlers, response bodies, logging, environment variables, cluster forking, messaging: input and output.
- What contracts decide (airdrop page success, multisig, vault, AA accounts): outcomes are parameters of the steps.
- AES, keccak and key derivation: arbitrary functions.
- Counter text: the counter table holds the numbers that the six hex digits stand for (see `SunVerify.HexNumberInjective`); storing them as text is not modelled.
- Tap steps: reading and writing a counter row are separate awaits in the code; one verify-and-persist is one step here.
- DePIN jobs over all nodes that are requested by HTTP share the queue in `DepinCron` but do not count as pages of a sweep.
- A timer of the cron itself and its period: ticks may come at any moment.
- Relay jobs: what a worker sends to the chain, and the follow-up bookkeeping of the gateway press after its reply, are inside one completion.
- `waitForAllOnchainTxQueues`: modelled on the sequence of waits, not on the iteration over the JavaScript map.
- Lane labels, waiting times and log lines of `OnchainTxSerialLane`: no effect on the schedule, except `currentLabel`, which is modelled.
- Phase 1 of the upgrade (installing Loupe and Ownership): it adds without a plan; facet removal does not occur.
- Top-up columns that only pass through (settlement hash, session id, operator) and time stamps.
- NFC rows: `nfc_link_state`, blank text versus NULL, and stored text that is not trimmed or upper case; lookups with several matching rows take the first.
- `replaceNfcCardKeyByTagId`, registration without a tag and the `remove` link action: they replace or clear keys on purpose and are outside the claim that keys never rotate.
- Time stamps of the referrer table: replays refresh them.
- Recording a purchase: the look-up of its hash and the write are one step, and the late filling in of the bridge settlement hash is not modelled.
- Paging of the income list, and the text form of its amounts: amounts are integers or unreadable.
- `developNew.ts` and `replaceContract.ts` repeat the planner of `develop.ts`.
- Follow counters, the referral tree rebuild lease, `settle.json`, metadata and promotion helpers: small case splits or state without an invariant to prove.

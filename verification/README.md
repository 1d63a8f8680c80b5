# Transeptor bundler: a verified model

This project models the stateful core of an ERC-4337 bundler in Dafny and proves what that core promises. Five parts are
covered, each in the form the program has: where it updates objects in place, there is a class or a method on the heap that
is proved against a function, and the promises are proved about that function over all inputs and all runs.

* **ERC-7562 trace parser.** `Erc7562Rules` holds the rules for one call frame and `Erc7562Trace` the plain recursive
  judgement of a call tree. `Erc7562Runner` is the worklist: mutable states on an explicit stack whose copies share two
  accumulators by reference. `Erc7562Theorems` says what a verdict means. The pruning test of the walk folds the case of the
  callee but not of the caller, and the model keeps that.
* **Mempool and reputation.** `Reputation` and `Mempool` are the state machine, one step per public method.
  `MempoolInvariants` and `MempoolRuns` prove what every serialized run keeps, `MempoolCaps` how many entries may name an
  address and what decides an add, `MempoolOrder` that none is overtaken, and `MempoolWitnesses` shows short runs in which a
  promise fails. `Managers` has the two managers and the bundle processor's failure hook as objects.
  `OrderedRecord` models JavaScript objects with their insertion order.
* **Bundle builder.** `BundleBuilder` is the greedy fold and its in-place accumulator, `BundleTheorems` what holds of every
  bundle, `BundleLimits` which lists of entries its limits hold for, `BundleRuns` the builder together with the mempool, and
  `BundleWitnesses` bundles of entries that a mempool hands out, in which a limit fails.
* **Audit log queue.** `AuditQueue` is a ring buffer with a semaphore and a mutex, many producers and one drain worker, as
  interleaved atomic steps; its class `Queue` has the two critical sections on an array.
* **Smaller cores.** `StorageMaps` (with `StorageMerge` on shared objects), `UserOpCodec` and `PreVerificationGas`.

`Common`, `Addresses` and `UserOps` hold shared pieces. Check everything with `dafny verify dfyconfig.toml`.

## What the proofs found

The code does not give the stronger form of some promises. Each gap has its exact condition and an input at which it opens.

* A pop can overtake a write in the audit queue, and then an enqueued event can be overwritten unread (`EventLost`), although
  the module promises that no logs are dropped. Durability holds exactly when no pop comes up empty (`DurableIffNoEmptyPop`).
* The paymaster's throttle increment is lost when a factory is present, so a throttled paymaster can be used without bound
  (`ThrottledPaymasterUnbounded`); and its uses are counted per spelling, so that two spellings allow eight
  (`ThrottledInTwoSpellings`). `CapIff` says over which entries the cap does hold, and `CounterLaw` what is counted.
* A paymaster's balance is loaded per spelling, and again when the remainder is exactly zero, so two ops can spend one balance
  twice (`ReloadOvercharges`, `SpellingOvercharges`); `CoveredIff` says over which entries the balance suffices.
* Replacing an op skips the reputation and role checks. A banned address can return that way (`BannedReturns`) and in no
  other (`BannedAddIff`, `BanIsLasting`); STO-040 can break (`ReplacementMixesRoles`) and survives a run exactly when the
  skipped check would have passed each time (`ReplacementSeparated`, `RunSeparated`). Nor does a replacement count, so any
  number of entries can name an unstaked entity (`ReplacementsUncounted`); the cap on it holds for all entries but those that
  replacements brought in (`ReplacementCoversIff`, `EntityCap`).
* The ban sweep compares addresses as spelled, so an entry in another spelling stays (`OtherSpellingStays`); a ban is
  complete exactly when every entry that mentions the address spells it as the blame does or shares the failed slot
  (`BanIsComplete`). The sweep also deletes whole counters, which can break the count law (`SweepForgetsCount`,
  `SweepCoverage`).
* One op per sender is enforced per spelling: an account can be bundled twice (`AccountTwice`), exactly when the entries
  spell it in two ways (`AccountsDifferIff`).
* An entry skipped for an EIP-7702 conflict is charged to paymaster and counters and stays `bundling`
  (`ConflictLeftBundling`, `PendingAgain`).
* `packUint` lets a low half of 2^128 or more spill into the high half without an error (`PackedHalves`).
* The gas estimate ignores that the estimate itself is encoded in the operation: an estimate of three non-zero bytes fails
  the check it was made for (`LargerEstimateRefused`, and `MinimalEstimateRefused` on mainnet); `EstimateAcceptedIff` is the
  exact condition.

## Model

| member | source | states |
|---|---|---|
| `Erc7562Runner.Runner` | src/sim/erc7562-parser.ts:935-1006 | for every call tree the walk over mutable states on an explicit stack, whose children share the two accumulators by reference, returns what the recursive judgement says; it terminates by the visits still on the stack |
| `Erc7562Runner.Turn` | src/sim/erc7562-parser.ts:943-1003 | one turn of the loop: the popped frame is pruned, or its visit ends the walk with the judgement of the whole tree, or its children join what the stack stands for |
| `Erc7562Runner.ParseTracerResult` | src/sim/erc7562-parser.ts:1008-1031 | a root frame without calls is rejected before the walk, every other one is judged with its own keccak list |
| `Erc7562Runner.VisitFrame` | src/sim/erc7562-parser.ts:944-1002 | processing one popped state changes only that state and the accumulators, and leaves the stack standing for its children on top of what was below |
| `Erc7562Runner.PushCalls` | src/sim/erc7562-parser.ts:989-1001 | pushes one copy per child, inheriting the entity that the parent holds after its own detection |
| `Erc7562Runner.RunnerState.DetectEntityChange` | src/sim/erc7562-parser.ts:178-220 | assigns the entity of this state only; an unknown callee of a boundary frame is the error |
| `Erc7562Runner.RunnerState.CheckStorage` | src/sim/erc7562-parser.ts:822-927 | the loop that writes the shared storage map decides as the storage rules do and records every slot it passes |
| `Erc7562Runner.RunnerState.CheckSlots` | src/sim/erc7562-parser.ts:849-926 | each slot is recorded before it is judged; the first breach ends the loop |
| `Erc7562Runner.RunnerState.Process` | src/sim/erc7562-parser.ts:956-970 | one iteration: the callee is recorded, the entity updated, and the verdict is that of the chained checks |
| `Erc7562Runner.ParseEntitySlots` | src/sim/erc7562-parser.ts:397-427 | the nested loops hold, per entity address, exactly the hashes of the keccak inputs that start with the padded address, and fail exactly when an address cannot be padded |
| `Erc7562Runner.AssociatedWithIsAssociated` | src/sim/erc7562-parser.ts:338-361 | looking a slot up in the parsed sets is the declarative notion of association: the padded address itself, or within 128 slots from a hash of an input that starts with it |
| `Erc7562Runner.SlotJudged` | src/sim/erc7562-parser.ts:854-924 | one iteration of the storage loop, computed from the parsed sets, gives the outcome and the error text that the rules call for |
| `Erc7562Runner.PushingChildren` | src/sim/erc7562-parser.ts:989-1001 | a stack with the children pushed stands for their subtrees from last to first, then for what was below |
| `Erc7562Runner.ProgressVisits` | src/sim/erc7562-parser.ts:943-1003 | loop invariant: visiting the top frame either settles the judgement or moves it from the stack to the visited prefix |
| `Erc7562Theorems.VisitedExactly` | src/sim/erc7562-parser.ts:943-1003 | a frame is visited if and only if no EntryPoint self-call hides it, under the entity that its path determines |
| `Erc7562Theorems.VisitOrder` | src/sim/erc7562-parser.ts:943-1003 | visits come in preorder with siblings from last to first, and no frame is visited twice |
| `Erc7562Theorems.JudgeMeaning` | src/sim/erc7562-parser.ts:935-1006 | Left exactly when some visited frame breaks a rule, with the error of the first one; Right lists one lower-cased callee per visit, in order |
| `Erc7562Theorems.AcceptedIff` | src/sim/erc7562-parser.ts:935-1006 | a trace is accepted if and only if every visited frame obeys every rule, stated without the order of the checks |
| `Erc7562Theorems.ObeysIff` | src/sim/erc7562-parser.ts:959-970 | the chain of twelve checks passes exactly the frames that obey entity, opcode, context and storage rules |
| `Erc7562Theorems.OpcodesIff` | src/sim/erc7562-parser.ts:437-808 | OP-011 to OP-080 and EREP-050 as quantified conditions on one frame, in both directions |
| `Erc7562Theorems.ContractsIff` | src/sim/erc7562-parser.ts:572-603 | OP-041 and OP-062 together: only deployed contracts, the sender, the EntryPoint or precompiles 1 to 9 |
| `Erc7562Theorems.StorageIff` | src/sim/erc7562-parser.ts:822-927 | the storage check passes exactly when every accessed slot is allowed and every address can be padded |
| `Erc7562Theorems.BreachReportsFirst` | src/sim/erc7562-parser.ts:437-927 | the error of a rejected frame, with every value it interpolates, names the first offending opcode, contract or slot in the order in which the frame lists them |
| `Erc7562Theorems.FirstRuleReported` | src/sim/erc7562-parser.ts:959-970 | of the rules that a frame breaks the error names the first in the order of the chain |
| `Erc7562Theorems.AccessedInOrder` | src/sim/erc7562-parser.ts:830-835 | the slots of a frame are searched in the order writes, reads, transient writes, transient reads |
| `Erc7562Theorems.AttributionByPath` | src/sim/erc7562-parser.ts:178-220 | every visited frame is checked under the entity of its nearest ancestor-or-self that starts an entity context, so a mutation never reaches a sibling |
| `Erc7562Theorems.AttributedIsCallee` | src/sim/erc7562-parser.ts:189-211 | attribution is none if and only if the callee is in no role, called from a creator and named as factory being one of them; and per role, in the order sender, factory, paymaster, EntryPoint, creator, exactly when the callee is attributed in it |
| `Erc7562Theorems.ContextLasts` | src/sim/erc7562-parser.ts:178-220 | a visited frame that starts a context hands its entity to every visited frame below it, up to the next one that starts a context |
| `Erc7562Theorems.DeploymentRunsAsFactory` | src/sim/erc7562-parser.ts:192-197 | a visited frame from a creator to the factory that is not the sender runs under the factory, and so does every frame below it until the next context |
| `Erc7562Theorems.StakeMonotone` | src/sim/erc7562-parser.ts:230-254 | when any of sender, factory or paymaster gains stake, an accepted trace stays accepted with the same accumulators |
| `Erc7562Theorems.AcceptedStorage` | src/sim/erc7562-parser.ts:822-927 | STO-010 to STO-033 over a whole accepted trace, and the returned storage map holds exactly the touched (address, slot) pairs |
| `Erc7562Theorems.StorageExactly` | src/sim/erc7562-parser.ts:850-853 | the accumulated map records a pair if and only if some visit touched it, with the empty string as its value |
| `Reputation.BannedByMargin` | src/reputation/reputation-manager.ts:155-190 | a judged address is BANNED exactly when it is blacklisted or its sightings exceed ten times its inclusions by 510 |
| `Reputation.StatusByMargin` | src/reputation/reputation-manager.ts:155-190 | the status in every case: the white list wins over the black list, and any other entry is throttled from a margin of 110 and banned from 510 |
| `Reputation.ListsDecide` | src/reputation/reputation-manager.ts:234-274 | a listed address is never judged once on the white list and is banned on the black list alone; clearing leaves nobody to be judged but by the lists |
| `Reputation.LastReputationCounts` | src/reputation/reputation-manager.ts:405-433 | of the given reputations the last one that names an address up to case counts, and an unnamed address keeps its own |
| `Reputation.BanLasts` | src/reputation/reputation-manager.ts:376-403 | GREP-040: after a crash an address stays BANNED through every i inclusions and d decrements with 10i + d <= 9490 and no pardon |
| `Reputation.BanBoundIsTight` | src/reputation/reputation-manager.ts:174-189 | for a fresh address the bound is exact: it is BANNED if and only if 10i + d <= 9490 |
| `Managers.ReputationManager.UpdateSeenStatus` | src/reputation/reputation-manager.ts:276-303 | one sighting up or down, never below zero; no address, no change |
| `Managers.ReputationManager.UpdateIncludedStatus` | src/reputation/reputation-manager.ts:334-352 | one inclusion more, everything else unchanged |
| `Managers.ReputationManager.CrashedHandleOps` | src/reputation/reputation-manager.ts:376-403 | 10000 sightings more and inclusions reset |
| `Managers.ReputationManager.AddWhitelistItems` | src/reputation/reputation-manager.ts:246-259 | items are appended as they are spelled |
| `Managers.ReputationManager.AddBlacklistItems` | src/reputation/reputation-manager.ts:261-274 | items are appended as they are spelled |
| `Managers.ReputationManager.SetReputations` | src/reputation/reputation-manager.ts:405-433 | each listed entry is overwritten, later ones last |
| `Managers.ReputationManager.ClearState` | src/reputation/reputation-manager.ts:234-244 | entries are forgotten, the two lists stay |
| `Managers.ReputationManager.UpdateSeenStatuses` | src/mempool/mempool-helper.ts:114-131 | the four updates in order; a sender that passes the stake check is counted up whatever the action |
| `Managers.SightingsMoved` | src/mempool/mempool-helper.ts:114-131 | one pass moves the sightings of every address by its roles in the op, never below zero, and counts a staked sender up either way; inclusions stay |
| `Managers.AddMovesSightings` | src/mempool/mempool-manager.ts:187-203 | an accepted add counts an address once more per role in the new op, after once less per role in the op it replaces |
| `MempoolInvariants.RunInv` | src/mempool/mempool-manager.ts:128-439 | in every state of every run each pool key is its entry's hash and (sender up to case, nonce) occurs at most once |
| `MempoolInvariants.AddMeans` | src/mempool/mempool-helper.ts:374-423 | an accepted add puts the entry under its hash, in the place of the one entry of its slot if there was one |
| `MempoolInvariants.RejectedChangesNothing` | src/mempool/mempool-manager.ts:173-174 | a rejected add leaves pool, counts and reputation as they were |
| `MempoolInvariants.FindMeans` | src/mempool/mempool-helper.ts:296-312 | the lookup finds the entry of the slot, or there is none |
| `MempoolInvariants.StatusMeans` | src/mempool/mempool-manager.ts:371-410 | a status update changes the status of the one entry that is meant, and nothing else |
| `MempoolInvariants.RemoveMeans` | src/mempool/mempool-manager.ts:230-272 | a removal takes out the one entry that is meant, and nothing else |
| `MempoolInvariants.RemoveCounts` | src/mempool/mempool-manager.ts:252-269 | a removal counts the entry down once, under its sender as that is spelled, and changes no other count |
| `MempoolInvariants.SweepRemovesExactly` | src/mempool/mempool-manager.ts:274-312 | a ban sweep removes exactly the entries that spell the address as sender, paymaster or factory |
| `MempoolInvariants.RunCovered` | src/mempool/mempool-manager.ts:252-269 | in every run without a ban sweep the count of a lower-cased sender is at least the number of its entries |
| `MempoolInvariants.SenderCap` | src/mempool/mempool-helper.ts:44-75 | a sender whose stake is too low in all its adds never holds more than four entries, in every run without a ban sweep |
| `MempoolCaps.CountedOnce` | src/mempool/mempool-helper.ts:394-411 | an accepted op counts once for every address that it mentions as sender, paymaster or factory, however many roles the address has, and for no other |
| `MempoolCaps.RunCovers` | src/mempool/mempool-helper.ts:374-423 | in every run without a ban sweep the count of a lower-cased address other than "0x" is at least the number of entries that mention it in any role, less the replacements that brought the address in |
| `MempoolCaps.ReplacementCoversIff` | src/mempool/mempool-helper.ts:383-392 | where the count is tight, a replacement keeps the count law if and only if it does not bring the address in |
| `MempoolCaps.EntityCap` | src/mempool/mempool-helper.ts:44-50 | an entity whose stake is too low in all its adds is mentioned by at most as many entries as its allowance ever was, plus the replacements that brought it in, in every run without a ban sweep |
| `MempoolCaps.EntityCapTen` | src/mempool/mempool-helper.ts:374-423 | without inclusions, overwritten reputation and replacements that bring it in, such an entity is mentioned by at most ten entries |
| `MempoolCaps.AllowanceGrows` | src/reputation/reputation-manager.ts:496-522 | the allowance of an unstaked entity is ten, plus its inclusions up to 10000, plus ten times its inclusion rate rounded down |
| `MempoolCaps.ThrottledCap` | src/mempool/mempool-helper.ts:44-47 | while an address stays throttled the entries that mention it never grow beyond five, or beyond what it had, but for replacements that bring it in |
| `MempoolCaps.SenderCountExact` | src/mempool/mempool-manager.ts:252-269 | the count of an address that is only ever a sender is exactly the number of its entries, in every run without a ban sweep and without a hash added twice |
| `MempoolCaps.CountsPositive` | src/mempool/mempool-manager.ts:252-269 | in every state of every run no count is kept at zero |
| `MempoolCaps.NewAddIff` | src/mempool/mempool-helper.ts:60-103 | an op for a free slot is accepted if and only if its deposit is fine, every entity is allowed and its roles are apart from the pool |
| `MempoolCaps.RejectedTruthfully` | src/mempool/mempool-manager.ts:128-182 | every reason for a rejection is true: the named entity is banned, throttled or short of stake or delay, the roles clash as said, the deposit is short, or the fees are too low |
| `MempoolInvariants.SweepCoverage` | src/mempool/mempool-manager.ts:293-305 | a ban sweep keeps the count law for an address if and only if no swept entry spells the address, or every entry that the address sends spells the banned one |
| `MempoolInvariants.SweptCount` | src/mempool/mempool-manager.ts:293-305 | the sweep forgets a count exactly when some swept entry spells its key in one of three roles |
| `MempoolInvariants.FeesCompound` | src/mempool/mempool-helper.ts:245-286 | k replacements of a slot that stays occupied give 10^k fee_k >= 11^k fee_0 for both fees |
| `MempoolInvariants.SlotStep` | src/mempool/mempool-helper.ts:323-349 | one step either keeps the fees of a slot or raises both by at least a tenth |
| `MempoolRuns.RunSeparated` | src/mempool/mempool-helper.ts:189-237 | STO-040: throughout a run no sender of one entry is the paymaster or factory of another if and only if every accepted replacement of the run would have passed the role check that it skips |
| `MempoolRuns.RolesApartIff` | src/mempool/mempool-helper.ts:189-237 | the role check passes if and only if the op is apart from the pool: nobody employs its sender, and no entry is sent by its paymaster or factory |
| `MempoolRuns.ReplacementSeparated` | src/mempool/mempool-helper.ts:335-349 | the replacement path, which runs no role check, keeps the separation if and only if in the pool before it no other entry is sent by the new op's paymaster or factory |
| `MempoolRuns.NarrowerPasses` | src/mempool/mempool-helper.ts:335-349 | a replacement whose paymaster and factory are among those of the op it replaces would have passed |
| `MempoolRuns.FirstPendingIsPrefix` | src/mempool/mempool-manager.ts:320-327 | a hand-out is the pending entries in insertion order, cut at the limit |
| `MempoolRuns.HandOutMeans` | src/mempool/mempool-manager.ts:314-369 | a forced hand-out gives every pending entry, any other one the first pending entries up to the bundle size |
| `MempoolOrder.RunOrder` | src/mempool/mempool-manager.ts:314-369 | no run changes the order of two entries that it keeps and does not add again |
| `MempoolOrder.JoinsTheEnd` | src/mempool/mempool-helper.ts:413-422 | a new entry comes after every entry of the pool |
| `MempoolOrder.NoneOvertaken` | src/mempool/mempool-manager.ts:314-369 | over every run: when an entry is handed out, a pending one that arrived before it is handed out with it |
| `MempoolRuns.GivenAreMarked` | src/mempool/mempool-manager.ts:330-340 | after a hand-out exactly the entries given are no longer pending |
| `MempoolRuns.ExclusiveHandOut` | src/mempool/mempool-manager.ts:314-369 | no hash is handed out twice unless a step in between returns it to pending or adds it again |
| `MempoolRuns.BlamedPool` | src/bundle/processor/bundle-processor.ts:70-96 | the pool after the failure hook: what neither spells the address nor shares the slot of the failed op, unchanged |
| `MempoolRuns.BlamedReputation` | src/bundle/processor/bundle-processor.ts:70-96 | what the hook does to every address: one sighting less per role in the failed op, never below zero, then the ban of the blamed one |
| `MempoolRuns.BanIsComplete` | src/bundle/processor/bundle-processor.ts:70-96 | a ban clears the pool of the address up to case if and only if every entry that mentions it up to case spells it as the blame does or shares the failed slot |
| `MempoolRuns.BannedAddRejected` | src/mempool/mempool-helper.ts:42-42 | an add of a new slot that mentions a banned address, described by validation, is rejected |
| `MempoolRuns.BanIsLasting` | src/reputation/reputation-manager.ts:174-189 | through every later run with 10i + d <= 9490 and no pardon a crashed address stays BANNED, and no entry mentions it at any point of the run if and only if no replacement names it |
| `MempoolRuns.BlamedStaysOut` | src/bundle/processor/bundle-processor.ts:70-96 | the failure hook followed by any such run: banned at its end, and absent from the pool throughout if and only if no replacement names the address |
| `MempoolRuns.BannedAddIff` | src/mempool/mempool-helper.ts:335-349 | an op that mentions a banned address is accepted if and only if its deposit is fine, its slot is taken and it pays for the replacement |
| `MempoolRuns.FreeStepIff` | src/mempool/mempool-helper.ts:323-364 | one step lets a banned address back into the pool exactly when it is an accepted replacement that names it |
| `MempoolWitnesses.BannedReturns` | src/mempool/mempool-helper.ts:335-349 | a run of three steps from the empty mempool after which a paymaster is BANNED and the pool names it |
| `MempoolWitnesses.ReplacementMixesRoles` | src/mempool/mempool-helper.ts:335-349 | three adds from the empty mempool after which one address is the sender of an entry and the paymaster of another |
| `MempoolWitnesses.OtherSpellingStays` | src/mempool/mempool-manager.ts:279-288 | an entry whose paymaster differs from the blamed address in case only survives the hook while the address is BANNED |
| `MempoolWitnesses.SweepForgetsCount` | src/mempool/mempool-manager.ts:293-305 | two adds and a sweep after which a sender has an entry in the pool and the count zero |
| `MempoolWitnesses.ReplacementsUncounted` | src/mempool/mempool-helper.ts:383-392 | for every n a run of adds and replacements after which n entries name an unstaked paymaster and its count is zero |
| `Managers.MempoolManager.AddUserOp` | src/mempool/mempool-manager.ts:128-218 | the whole new state of an add, with the hash or the reason of the rejection |
| `Managers.MempoolManager.RecordSeen` | src/mempool/mempool-manager.ts:187-203 | the reputation events of an accepted add: old entry down, new entry up |
| `Managers.MempoolManager.UpdateMempoolState` | src/mempool/mempool-helper.ts:374-423 | pool and counts after an add; a replacement leaves the counts alone |
| `Managers.MempoolManager.RemoveUserOp` | src/mempool/mempool-manager.ts:230-272 | the entry goes, and only the count under its sender's own spelling falls |
| `Managers.MempoolManager.RemoveUserOpsForBannedAddr` | src/mempool/mempool-manager.ts:274-312 | the filter and the delete loop implement the sweep |
| `Managers.MempoolManager.GetNextPending` | src/mempool/mempool-manager.ts:314-343 | returns and marks the first pending entries up to the bundle size |
| `Managers.MempoolManager.GetAllPending` | src/mempool/mempool-manager.ts:345-369 | returns and marks all pending entries |
| `Managers.MempoolManager.UpdateEntryStatus` | src/mempool/mempool-manager.ts:371-410 | changes the status of the entry found, nothing when there is none |
| `Managers.MempoolManager.ClearState` | src/mempool/mempool-manager.ts:428-439 | pool and counts are emptied, reputation stays |
| `Managers.CountsToUpdate` | src/mempool/mempool-helper.ts:394-411 | an address in two roles is counted once, from the old counts |
| `Managers.PendingUpTo` | src/mempool/mempool-manager.ts:320-327 | the counting loop yields the first pending entries |
| `Managers.AfterHook` | src/bundle/processor/bundle-processor.ts:65-110 | blame (count down, sweep, ban, remove) or plain removal, then the return loop over the unsent ops, as one run of mempool steps |
| `Managers.SentBack` | src/bundle/processor/bundle-processor.ts:107-109 | the return loop sets exactly the entries in the slot of a listed op back to pending, and changes nothing else |
| `Managers.UnsentGivenAgain` | src/bundle/processor/bundle-processor.ts:107-109 | an unsent op that is still in the pool is given by the next forced hand-out |
| `BundleBuilder.BuildBundle` | src/bundle/builder/bundle-builder.ts:137-245 | the accumulator mutated in place ends as the fold of single steps over the entries |
| `BundleBuilder.Accumulator.Add` | src/bundle/builder/bundle-builder.ts:143-244 | one entry: load, re-validate, decide, charge, bundle |
| `BundleBuilder.Accumulator.UpdateCountAndDeposit` | src/bundle/builder/builder.helpers.ts:279-308 | the deposit falls by the prefund; with a factory the paymaster's increment is lost |
| `BundleBuilder.Accumulator.MergeAuthorizations` | src/bundle/builder/builder.helpers.ts:358-379 | the tuple is appended, reused, or refused when its signer already delegates elsewhere |
| `BundleTheorems.Partition` | src/bundle/builder/bundle-builder.ts:137-245 | every entry lands in exactly one of bundle, not-included, marked-to-remove and authorization conflict, in hand-out order |
| `BundleTheorems.FateIff` | src/bundle/builder/builder.helpers.ts:148-208 | the fate of every entry: marked if and only if its validation fails or an entity is banned, bundled if and only if it is includable without an authorization conflict, skipped on a conflict, put back otherwise |
| `BundleTheorems.StorageMerged` | src/bundle/builder/bundle-builder.ts:227-227 | the storage map of the bundle is the merge of the maps of the charged entries, in order |
| `BundleTheorems.BundleStorageIsUnion` | src/bundle/builder/bundle-builder.ts:271-289 | for maps that agree it holds per address the root if a charged op has one, else the union of their slots, and nothing of anybody else |
| `BundleTheorems.GasWithinLimit` | src/bundle/builder/builder.helpers.ts:239-249 | pre-operation plus call gas of a non-empty bundle is at most the limit |
| `BundleTheorems.SendersDistinct` | src/bundle/builder/builder.helpers.ts:179-182 | no two bundled ops spell their sender alike, nor share an account if senders come in lower case |
| `BundleTheorems.NoInterference` | src/bundle/builder/builder.helpers.ts:218-228 | STO-041: a charged op's storage map has no key that is another known sender among the entries |
| `BundleTheorems.Ledger` | src/bundle/builder/bundle-builder.ts:146-155 | for each paymaster the remainder is never negative, and remainder plus prefunds charged equals balances loaded |
| `BundleTheorems.CounterLaw` | src/bundle/builder/builder.helpers.ts:279-308 | the counter of an entity equals the charged ops with it as factory, or as paymaster without a factory; all uses are those plus the lost ones |
| `BundleLimits.CapIff` | src/bundle/builder/builder.helpers.ts:297-301 | GREP-020, exactly and per account: in every build over the entries in which an account is throttled throughout at most four bundled ops name it, in any spelling and role, if and only if at most four senders name it, or there is one spelling of it under which, of any two of its uses by different senders, the earlier one is counted and which the later one shares |
| `BundleLimits.CoveredIff` | src/bundle/builder/bundle-builder.ts:146-155 | per account: in every build over the entries in which the balance of a paymaster stays the same it covers the prefunds of all bundled ops that name it, in any spelling, if and only if the balance is zero or no two entries of different senders name it as paymaster |
| `BundleLimits.AccountsDifferIff` | src/bundle/builder/builder.helpers.ts:179-182 | no build over the entries bundles an account twice if and only if the entries spell every account in one way |
| `BundleTheorems.TuplesDistinct` | src/bundle/builder/builder.helpers.ts:358-379 | the shared authorization list never holds two tuples of one signer and only grows |
| `BundleTheorems.AuthorizationsHonoured` | src/bundle/builder/builder.helpers.ts:358-379 | every bundled op with an authorization finds a tuple of its signer and address in the final list |
| `BundleRuns.CreateBundle` | src/bundle/builder/bundle-builder.ts:247-291 | hand-out, build and return loop together, as steps of the mempool |
| `BundleRuns.ReturnToPending` | src/bundle/builder/bundle-builder.ts:79-87 | the loop of status updates is a run of single updates |
| `BundleRuns.BundleIsolation` | src/bundle/builder/bundle-builder.ts:248-259 | in every bundle built right after a hand-out no bundled op touches a storage address of another bundled account |
| `BundleRuns.PendingAgain` | src/bundle/builder/bundle-builder.ts:79-87 | of the entries handed out exactly the not-included ones are pending afterwards, so a conflict skip stays bundling |
| `BundleWitnesses.ThrottledPaymasterUnbounded` | src/bundle/builder/builder.helpers.ts:297-301 | for every n there is a run of the mempool after which one paymaster is throttled, all n pending ops of n accounts name it, and the bundle built of them takes them all |
| `BundleWitnesses.ThrottledInTwoSpellings` | src/bundle/builder/builder.helpers.ts:290-301 | for every n up to eight there is a run of the mempool after which one paymaster is throttled, n pending ops without factories name it, four in one spelling and the others in another, and the bundle built of them takes them all |
| `BundleWitnesses.ReloadOvercharges` | src/bundle/builder/bundle-builder.ts:146-155 | two ops handed out by the mempool that each cost a paymaster's whole balance are both bundled, because a remainder of zero is loaded again |
| `BundleWitnesses.SpellingOvercharges` | src/bundle/builder/bundle-builder.ts:146-155 | the same without a reload: the second op spells the paymaster in another case, and its balance is loaded for either spelling |
| `BundleWitnesses.AccountTwice` | src/bundle/builder/builder.helpers.ts:179-182 | two ops handed out by the mempool whose senders are one account in two spellings are both bundled |
| `BundleWitnesses.ConflictLeftBundling` | src/bundle/builder/bundle-builder.ts:229-236 | an entry skipped for an authorization conflict is still in the pool and bundling after the return loop |
| `StorageMaps.MergeAllIsUnion` | src/utils/user-op.utils.ts:53-77 | folding over a consistent family leaves, per address, the root if any map has one, else the union of the slots |
| `StorageMaps.OrderIndependent` | src/utils/user-op.utils.ts:53-77 | of a consistent family neither the order nor repetitions matter |
| `StorageMaps.OrderMattersOtherwise` | src/utils/user-op.utils.ts:42-52 | two maps may be merged in either order if and only if they agree on common roots and slots |
| `StorageMerge.MergeStorageMap` | src/utils/user-op.utils.ts:53-77 | the write-in-place merge over shared slot objects computes the merge and leaves its second argument, and every object in it, unchanged |
| `StorageMerge.MergeAddress` | src/utils/user-op.utils.ts:57-75 | one round: root, ignored slots, or slots copied into the merged map's own object |
| `StorageMerge.CopySlots` | src/utils/user-op.utils.ts:71-73 | every slot is copied, later values winning |
| `StorageMerge.CopyInto` | src/utils/user-op.utils.ts:71-73 | copies into the object that the address owns, which no other address of the merged map sees |
| `StorageMerge.MergeFamily` | src/utils/user-op.utils.ts:53-77 | merging a whole family leaves every member as it was |
| `UserOpCodec.PackedHalves` | src/utils/user-op.utils.ts:86-100 | what packing then unpacking gives for any two integers: spill into the high half, or which of the two errors |
| `UserOpCodec.HalvesKeptIff` | src/utils/user-op.utils.ts:86-100 | two numbers survive if and only if both are 128-bit |
| `UserOpCodec.WordKeptIff` | src/utils/user-op.utils.ts:86-100 | a byte string survives unpacking and packing if and only if it is 32 bytes long |
| `UserOpCodec.UnpackedValue` | src/utils/user-op.utils.ts:96-100 | any bytes but none unpack, and to the two halves of their number |
| `UserOpCodec.PackedLayout` | src/utils/user-op.utils.ts:86-88 | the word is the high number on 16 bytes, then the low one |
| `UserOpCodec.OperationLayout` | src/utils/user-op.utils.ts:191-233 | where every field of an encodable operation stands in the packed form |
| `UserOpCodec.PaymasterReturned` | src/utils/user-op.utils.ts:163-183 | the packed paymaster fields come back if and only if the paymaster has 20 bytes and both limits are present and 128-bit |
| `UserOpCodec.RepackedIff` | src/utils/user-op.utils.ts:191-278 | pack(unpack(p)) = p if and only if both words have 32 bytes, initCode is empty or at least 20, paymasterAndData empty or at least 52 |
| `UserOpCodec.UnpackedIff` | src/utils/user-op.utils.ts:191-278 | unpack(pack(op)) is op with defaults filled in if and only if op is encodable |
| `UserOpCodec.PackedTwiceIff` | src/utils/user-op.utils.ts:191-278 | pack(unpack(pack(op))) = pack(op) if and only if factory and paymaster parts are not short of an address; the EIP-7702 marker never is |
| `UserOpCodec.MarkerReturned` | src/utils/user-op.utils.ts:214-217 | a marker operation comes back with the marker padded to an address and packs to the same bytes |
| `UserOpCodec.PackFailsIff` | src/utils/user-op.utils.ts:191-233 | packing fails exactly for a paymaster without limits or for a word of other than 256 bits, with the error of the first one |
| `UserOpCodec.UnpackFailsIff` | src/utils/user-op.utils.ts:241-278 | unpacking fails exactly for an empty gas word, a short initCode or a short paymasterAndData, the first of them being the error |
| `PreVerificationGas.ClosedForm` | src/gas/pre-verification-gas.ts:192-204 | for integer gas used g the requirement is max(round(S + 4t + O), round(S + 10t) - g), for any two token prices |
| `PreVerificationGas.RequirementIsNearest` | src/gas/pre-verification-gas.ts:229-281 | the requirement is the whole number nearest to the larger of the standard and the floor cost, halves going up |
| `PreVerificationGas.LegacyForm` | src/gas/pre-verification-gas.ts:272-280 | without EIP-7623 the requirement is stipend share, token price and overhead, unrounded |
| `PreVerificationGas.OverheadIsRequired` | src/gas/pre-verification-gas.ts:254-281 | what the overhead grows by the requirement grows by, as long as the standard cost decides |
| `PreVerificationGas.CalldataWords` | src/gas/pre-verification-gas.ts:249-251 | every started word of calldata adds its price to the overhead of an ordinary operation |
| `PreVerificationGas.PlainOverhead` | src/gas/pre-verification-gas.ts:234-238 | without calldata an operation pays its share of the fixed overhead and its own; an authorization adds its price |
| `PreVerificationGas.ExecuteUserOpWords` | src/gas/pre-verification-gas.ts:240-247 | an executeUserOp operation pays for the method and for the words of its whole encoding, in fractions, in place of its calldata |
| `PreVerificationGas.StipendShared` | src/gas/pre-verification-gas.ts:258-259 | the shares of the stipend over the expected bundle make up the stipend |
| `PreVerificationGas.UsedGas` | src/gas/pre-verification-gas.ts:167-189 | the gas taken as used: the given total, or a tenth of call and post-operation limits on top of the verification gas, with its two failures |
| `PreVerificationGas.ToUint8Means` | src/gas/pre-verification-gas.ts:160-165 | a token price is cut towards zero and taken modulo 256 |
| `PreVerificationGas.FilledMeans` | src/gas/pre-verification-gas.ts:206-227 | a draft keeps what it has and gets 21000 gas and 0xff bytes of the assumed sizes for what it lacks |
| `PreVerificationGas.EncodableIff` | src/utils/user-op.utils.ts:298-356 | an operation is encodable if and only if its sender has 20 bytes and its numbers 256 bits |
| `PreVerificationGas.EncodeFailsIff` | src/utils/user-op.utils.ts:298-356 | encoding an operation fails with the error of packing it, and else exactly when its sender is no address or a number has no 256 bits |
| `PreVerificationGas.EncodingReadsBack` | src/utils/user-op.utils.ts:298-356 | read by the rules of the ABI, the encoding gives back every field of the packed operation |
| `PreVerificationGas.FloorKept` | src/gas/pre-verification-gas.ts:192-204 | the requirement does not rise with the gas used, and requirement plus gas used is never under the EIP-7623 floor |
| `PreVerificationGas.MoreTokens` | src/gas/pre-verification-gas.ts:229-281 | the requirement does not fall when tokens grow, and rises when a token costs at least one |
| `PreVerificationGas.DummyTokensIff` | src/gas/pre-verification-gas.ts:160-165 | no signature of its length counts for more than 0xff bytes if and only if a non-zero byte still counts after 8-bit truncation |
| `PreVerificationGas.DummyIsWorstIff` | src/gas/pre-verification-gas.ts:206-227 | the dummy signature asks for the most gas among all signatures of its length if and only if tokensPerNonzeroByte modulo 256 is at least one (or the signature is empty) |
| `PreVerificationGas.EstimateAcceptedIff` | src/gas/pre-verification-gas.ts:287-314 | an operation that takes its estimate as preVerificationGas passes the check if and only if its new gas word and signature have no more tokens than those it was estimated with |
| `PreVerificationGas.SmallEstimateAccepted` | src/gas/pre-verification-gas.ts:206-227 | a default estimate below 65536 is accepted with every signature of the estimated length |
| `PreVerificationGas.LargerEstimateRefused` | src/gas/pre-verification-gas.ts:300-314 | on a chain where a non-zero byte makes four tokens, an estimate made with the default gas word and consisting of three non-zero bytes is refused by the check even with the dummy signature |
| `PreVerificationGas.MinimalEstimateRefused` | src/gas/pre-verification-gas.ts:287-314 | a concrete mainnet case: the least EIP-7702 operation is estimated at 66050 gas and refused when it offers just that |
| `PreVerificationGas.MainnetSettings` | src/gas/pre-verification-gas.ts:105-120 | the mainnet settings meet the conditions of the estimate theorems |
| `PreVerificationGas.EncodedApart` | src/utils/user-op.utils.ts:298-356 | operations that differ only in preVerificationGas and signature bytes have encodings of one length whose tokens differ by exactly those bytes |
| `PreVerificationGas.Calculator.CountTokens` | src/gas/pre-verification-gas.ts:160-165 | the map and reduce count one per zero byte and the truncated price per other byte; nothing to reduce is the exception |
| `PreVerificationGas.Calculator.AddOverheads` | src/gas/pre-verification-gas.ts:234-254 | the accumulated overheads of one operation, with the executeUserOp surcharge in place of the per-word cost |
| `PreVerificationGas.Calculator.Calculate` | src/gas/pre-verification-gas.ts:229-281 | the accumulated calculation is the formula on the encoded operation, with the same errors |
| `PreVerificationGas.Calculator.ValidatePreVerificationGas` | src/gas/pre-verification-gas.ts:300-314 | valid exactly when the requirement does not exceed the offered gas |
| `PreVerificationGas.Calculator.UpdateGasConfig` | src/gas/pre-verification-gas.ts:284-286 | each setting that the patch gives takes that value, and each that it leaves out keeps its own |
| `PreVerificationGas.SizesLeaveRequirements` | src/gas/pre-verification-gas.ts:206-281 | a patch of the two dummy sizes leaves the requirement of every complete operation as it was |
| `PreVerificationGas.Calculator.EstimatePreVerificationGas` | src/gas/pre-verification-gas.ts:287-293 | the estimate is the requirement of the draft filled with dummy data |
| `PreVerificationGas.DraftEstimateAccepted` | src/gas/pre-verification-gas.ts:287-314 | what is estimated for a draft without signature and gas is accepted with every signature of the assumed size, as long as it is below 65536 |
| `AuditQueue.AtMostOnce` | src/logger/audit/audit-queue.ts:86-155 | in every interleaving of producers, worker and shutdown: 0 <= emptySlots <= capacity, and each event reaches the writer at most once and only after it was written |
| `AuditQueue.RunInv` | src/logger/audit/audit-queue.ts:86-155 | every written event is in exactly one place (handed, held, unread or overwritten) and the semaphore counts what is admitted or unreleased |
| `AuditQueue.FirstInFirstOut` | src/logger/audit/audit-queue.ts:86-155 | if every pop found an event: hand-offs are a prefix of the write order, nothing unread is overwritten, and a drain ends only with everything handed over |
| `AuditQueue.RunningUntilShutdown` | src/logger/audit/audit-queue.ts:143-145 | the queue is to run exactly until the first shutdown |
| `AuditQueue.StopsAfterFinalDrain` | src/logger/audit/audit-queue.ts:141-152 | in every interleaving the worker stops only after a shutdown and only at the end of the final drain, with every slot released |
| `AuditQueue.StopsDurably` | src/logger/audit/audit-queue.ts:150-151 | when it stops and no producer is admitted, every written event has been handed over if and only if no pop came up empty, and then in the order written |
| `AuditQueue.SleepsAfterDrain` | src/logger/audit/audit-queue.ts:143-147 | it goes to sleep only at the end of a drain and only while the queue is to run |
| `AuditQueue.WorkerDrains` | src/logger/audit/audit-queue.ts:102-147 | from every reachable state before its stop, finitely many steps of the worker alone end a drain |
| `AuditQueue.WorkerRests` | src/logger/audit/audit-queue.ts:141-152 | from every reachable state finitely many steps of the worker alone put it to sleep, or stop it after a shutdown |
| `AuditQueue.DurableIffNoEmptyPop` | src/logger/audit/audit-queue.ts:102-126 | at the end of a drain with no admitted producer, every written event has been handed over if and only if no pop came up empty |
| `AuditQueue.DrainLeaves` | src/logger/audit/audit-queue.ts:102-126 | a drain leaves as many events unread or overwritten as there were empty pops, less the producers still to write |
| `AuditQueue.EventLost` | src/logger/audit/audit-queue.ts:86-126 | a concrete interleaving under back-pressure with one slot: a pop overtakes the write of a producer that the release admitted, the event is stored behind the end of the drain, and the next event overwrites it |
| `AuditQueue.FirstTestFindsNothing` | src/logger/audit/audit-queue.ts:141-158 | the test that the worker runs at creation, before any producer, leaves it asleep, which is the start of every interleaving |
| `AuditQueue.PopOvertakesWrite` | src/logger/audit/audit-queue.ts:103-126 | that interleaving up to the write: the worker pops an empty slot, releases and goes to sleep without a break, and only then the producer stores its event |
| `AuditQueue.Advance` | src/logger/audit/audit-queue.ts:92-92 | the next index modulo the capacity |
| `AuditQueue.Queue.StoreEvent` | src/logger/audit/audit-queue.ts:89-95 | the producer's critical section on the array and the tail index |
| `AuditQueue.Queue.TakeEvent` | src/logger/audit/audit-queue.ts:105-112 | the worker's critical section on the array and the head index |
| `AuditQueue.Queue.Enqueue` | src/logger/audit/audit-queue.ts:86-96 | undisturbed, an event joins the end of the queue, and the producer blocks exactly when the buffer is full |
| `AuditQueue.Queue.Drain` | src/logger/audit/audit-queue.ts:102-126 | undisturbed, the whole backlog is handed over in order and every slot is free again |

## Left out

- Concurrency inside one mempool or reputation method: each method is one serialized step, although the code reads a snapshot and then updates; the audit queue alone is interleaved.
- On-chain reads, validation results, keccak, ABI lookup, address padding, number parsing and signature recovery are inputs or arbitrary functions; a paymaster deposit check is its outcome `depositOk`, a second validation its result or none.
- Slot numbers, stakes, nonces and fees are taken as numbers already parsed; a malformed numeral, which makes `BigInt` throw, is not modelled. The exception of `zeroPadValue` is, as `MalformedAddress`.
- Fields of the parser state that only feed log text (recursion depth, delegatecall storage address, the violation list) and the wording of error messages; the values interpolated in them are kept.
- Rounding of doubles: the 1.1 fee factor, the inclusion rate and all gas constants are exact.
- MempoolInvariants.FeesCompound: is stated in exact arithmetic, whereas the code compares doubles.
- MempoolInvariants.SenderCap: says nothing across ban sweeps, which delete whole counters; `SweepCoverage` says when the count law survives one.
- MempoolCaps.EntityCap: says nothing across ban sweeps either, and adds the replacements that bring the entity in, which no count sees.
- PreVerificationGas.EncodingReadsBack: is about packed operations whose two gas words have 32 bytes and whose encoding is shorter than 2^256 bytes.
- MempoolRuns.BanIsLasting: assumes that validation describes each entity under its own address, and that the banned address is not the EIP-7702 marker, which has no stake information to check.
- BundleLimits.CoveredIff: counts the prefunds of bundled ops; an op skipped for an authorization conflict is charged in the tally (`Ledger`) but never sent.
- BundleBuilder.Accumulator.Add: holds storage maps by value; their aliasing is modelled in `StorageMerge` alone. The builder sees at most one authorization per op, as `getAuthorizationList` gives it.
- PreVerificationGas.Calculator.Calculate: requires a bundle size other than zero; the code would divide to Infinity there.
- PreVerificationGas.EstimateAcceptedIff: takes the estimate as an integer, as the operation must encode it, and both token prices as at least one; so does `DummyIsWorstIff` with the prices, since a cheaper token can vanish in the rounding.
- UserOpCodec.UnpackedIff: works on bytes, so the letter case of hex strings, malformed hex, an absent initCode and byte arrays passed in place of hex strings are not modelled; an operation's EIP-7702 authorization is not part of the packed form and comes back absent.
- The removal half of the builder's `afterHook`, which returns early on the first error it cannot parse, and the search for the entity to blame.
- Hourly reputation decay, the batch variant of the seen update, dumps, size queries and `getStakeStatus`.
- Entry fields that no check reads: the prefund and the referenced contracts of a pool entry.
- Mutex and semaphore internals: a critical section is one step, and a waiting producer may be admitted in any order. A writer that fails counts as handed to, as the code only logs the error. Whether the worker is scheduled at all (liveness) is not modelled.
- RPC, networking, configuration, logging, metrics, capabilities, event scanning, chain lookup of the gas settings, and the EntryPoint contracts.

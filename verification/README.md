# Rabbit geth: a verified model

A Dafny model of the parts of Rabbit's go-ethereum fork where state is hardest to keep right, with proofs of what that
state keeps. `dafny verify dfyconfig.toml` checks everything.

The model has five parts.

1. **Canonical chain.** A store of headers and bodies, a number-to-hash index, a transaction index and the head markers.
   They are changed by import, reorganisation, rewind and crash recovery.
   - `Chain`: stores, ancestor paths and the index of a path. A hash is a 256-bit number, compared as its bytes are.
   - `ForkChoice`: the LQC order of heads, and the three other places that decide by it.
   - `BlockChain`, `HeaderChain`: the two implementations that move the head.
   - `Convergence`: the order in which blocks arrive does not matter; both implementations agree.
   - `Ancestry`: the growing cache behind BLOCKHASH, and the walk it must equal.
   - `Rewind`, `LocalRecovery`, `Bytes`: the search for a head with state, and the replay of blocks whose state was lost.
2. **Recovery scheduler and production gate.** `SyncScheduler` and `ProductionGate` are state machines; every section
   under a lock is one atomic step, and a run is any interleaving of steps.
3. **Gas and balances.** `GasBudget`, `GasPool`, `Ledger`, `StateTransition` and `Authorizations` follow a message from the
   gas purchase to the payment of the coinbase (EIP-1559, EIP-4844, EIP-3529, EIP-7623, EIP-8037, EIP-7702).
4. **VRF settlement.** `VrfSettlement` splits fees and pays them out.
5. **Pools.** `WorkPool`, `ClaimPool` and `FairVerifier`.

`Basics` holds the few types they share.

What the code cannot see is a parameter: whether state is readable, what peers advertise, what block import or a system
call answers, what the EVM's top frame does with its gas and balances, whether a write to disk succeeds.

Objects whose fields the program updates are classes. Their methods state the whole new state, by a function of the old
one or by an invariant such as "the index is exactly the ancestor path of the head". The theorems are about those
functions and invariants, over all inputs and all runs.

Three expectations turned out not to hold of the code. Each is kept as the code has it, with a counterexample and the exact
condition.

- A quarantined work candidate that is readmitted need not be in the pool afterwards: readmission also reports success when
  the pool holds another candidate of the same participant (`WorkPools.LostToRival`). `WorkPools.Readmit` states exactly when
  this happens. The participant always stays represented, and the candidate stays tracked as long as no participant has two.
- The rewind search dereferences a missing parent when the store has a gap at a block with state above the requested root
  (`Rewind.GapRunsOff`). `Rewind.RewindHashHead` states exactly when, and a gap-free store excludes it.
- The canonical shortcut of `GetAncestor` does not always agree with the parent walk: the index reads as the empty hash where
  it has no entry, so a query for the empty hash above the head jumps into the canonical chain
  (`HeaderChains.EmptyHashFindsGenesis`). `HeaderChains.HeaderChain.GetAncestor` states exactly when they agree. Every caller
  in the repository passes a hash that is not empty, which is one of the conditions.

## Model

| member | source | states |
|---|---|---|
| `ForkChoice.ChoicesAgree` | eth/handler_eth.go:210-229 | the sync trigger, the peer-head check, the canonical preference and the same-height rejection follow one order on every real remote head, and the rejection is exactly that of a different head of equal height that is not preferred; without a local head the sync trigger differs from the preference on number zero only |
| `SyncScheduler.BetterIsAhead` | eth/handler_eth.go:236-252 | competing recovery targets are compared by that order |
| `ProductionGate.PreferredIsAhead` | eth/backend.go:845-884 | a peer head is preferred exactly when it is ahead in that order |
| `ForkChoice.AheadIsStrictTotal` | core/rabbit_lqc_canonical_choice.go:10-22 | "taller, then smaller hash" is irreflexive, transitive and total up to equal height and hash |
| `BlockChains.BlockChain.WriteHeadBlock` | core/blockchain.go:1326-1349 | head markers in database and memory, index entry and transaction entries of the new head; nothing else changes |
| `BlockChains.BlockChain.FindFork` | core/blockchain.go:2619-2675 | on connected heads the walk finds the last common block and exactly the blocks above it on both sides, newest first |
| `BlockChains.BlockChain.Reorg` | core/blockchain.go:2619-2801 | from an index that is the old head's path: the index is exactly the path of the new head's base with nothing above, and the transaction index is exact for it, though the new head is kept out of the rebirth list |
| `BlockChains.ReorgCorrect` | core/blockchain.go:2680-2800 | index and transaction index after dropping one branch and writing the other are exact for every fork: longer, shorter, equal height, pure extension and pure rewind |
| `BlockChains.ReorgLookup` | core/blockchain.go:2730-2800 | deleting the dropped transactions that are not reborn, then writing the added blocks, leaves exactly the new branch's transactions, each at its block |
| `BlockChains.HeadTxsWritten` | core/blockchain.go:1334-1336 | the head written last restores its own transactions, also those that were on the dropped branch |
| `BlockChains.BlockChain.SwitchHead` | core/blockchain.go:1801-1815 | reorg and head write together always succeed on a closed store and leave the exact index, markers and transaction index of the new head |
| `BlockChains.BlockChain.WriteBlockWithState` | core/blockchain.go:1678-1700 | a block with an unknown parent is refused with nothing changed; otherwise it is stored and head, index and transaction index stay valid |
| `BlockChains.BlockChain.WriteBlockAndSetHead` | core/blockchain.go:1792-1829 | on an LQC chain the head moves exactly when the block is ahead in the fork-choice order; the invariant holds in every case |
| `BlockChains.BlockChain.WriteKnownBlock` | core/blockchain.go:1662-1674 | the same choice for a block that is already stored |
| `Convergence.ChosenIsGreatest` | core/blockchain.go:3088-3095 | choosing block by block ends with the greatest of the start and all blocks, for every order |
| `Convergence.Converges` | core/blockchain.go:1792-1829 | any two parents-first deliveries of the same blocks end with the same store, head and canonical index |
| `Convergence.ImportAll` | core/blockchain.go:1792-1829 | importing a delivery one by one gives exactly that store and head, with the invariant kept; the transaction index stays exact when no delivered block repeats a transaction of its chain |
| `Convergence.SwitchBoth` | core/headerchain.go:122-186 | from any two heads over the same store, the full-node and the header-chain reorg end with the same canonical index |
| `HeaderChains.HeaderChain.Reorg` | core/headerchain.go:122-186 | from an exact index the switch succeeds and the index is exactly the path of the last header with nothing above; it fails exactly when the walk back to the canonical chain comes to a missing parent, and then nothing is written |
| `HeaderChains.SwitchSound` | core/headerchain.go:132-178 | index writes down to the first block that is canonical, plus deletions above the new head, make the index exact |
| `HeaderChains.HeaderChain.WriteHeaders` | core/headerchain.go:192-235 | a run on a known parent is written to the database whole or not at all; the store stays closed |
| `HeaderChains.HeaderChain.WriteHeadersAndSetHead` | core/headerchain.go:247-276 | an unknown parent and an interrupted import are reported and change nothing; otherwise the head moves to the last header exactly when it is not already an ancestor of the head |
| `HeaderChains.HeaderChain.SetHead` | core/headerchain.go:515-642 | the rewind ends at the first block with no number asked for below it, which is the lowest target ever set, counting forced lowering by the callback; with a timestamp, at the highest block that is not later unless an answer ends timestamp mode, and then at the lowest number forced from there on; the head stays exactly when it is not above the request; the index is cut exactly there, and exactly the headers above, on every fork, are deleted |
| `HeaderChains.RewindIsUnique` | core/headerchain.go:535-570 | only one block of the path meets that description, so answers at blocks that are never visited do not count |
| `HeaderChains.RewoundStore` | core/headerchain.go:560-642 | deleting every header above an ancestor, up to a number at which nothing is stored, leaves a closed store whose index is the ancestor's |
| `HeaderChains.HeaderChain.GetAncestor` | core/headerchain.go:352-384 | a returned hash is that of the plain parent walk exactly when the query is answerable: a hash that is not empty, a number up to the head, at most one step, or a target above the head; for a stored block a hash is returned unless the budget of non-canonical steps runs out; the shared counter falls by exactly the headers read one by one |
| `HeaderChains.EmptyHashFindsGenesis` | core/headerchain.go:363-370 | a query for the empty hash that is answered with genesis, where the plain walk finds nothing |
| `Ancestry.WalksCompose` | core/evm.go:98-134 | a parent walk resumed from any of its points gives the same ancestor |
| `Ancestry.BlockHashOnPath` | core/evm.go:98-134 | for a block on a path of stored headers the answers are the hashes along the path, and the empty hash from its own number on |
| `Ancestry.HashLookup.GetHash` | core/evm.go:98-134 | for every sequence of queries the cached answer is that of the plain walk; the cache never passes genesis |
| `Rewind.RewindHashHead` | core/blockchain.go:845-918 | it terminates with the highest ancestor, not below the limit, that has state and lies at or below a block with the requested root, or genesis; the limit is the pivot or, without one, 90000 blocks back; it reports the highest such root, and fails exactly when the walk runs off a gap |
| `Rewind.ClosedNeverRunsOff` | core/blockchain.go:845-918 | on a gap-free store the walk reaches genesis and that failure is impossible |
| `Rewind.GapRunsOff` | core/blockchain.go:909-917 | a store with its genesis block and a gap, and a search over it, for which it happens |
| `LocalRecovery.MarkerRoundTrip` | core/rabbit_lqc_local_state_recovery.go:18-71 | every marker that is written is read back |
| `LocalRecovery.MarkerReads` | core/rabbit_lqc_local_state_recovery.go:18-71 | a target is read exactly from the marker that is written for it, at the number the database knows if it knows one, or from the older marker without metadata |
| `LocalRecovery.MarkerErrors` | core/rabbit_lqc_local_state_recovery.go:18-71 | no target exactly when nothing is written; which malformed marker gets which error |
| `LocalRecovery.HeightErrors` | core/rabbit_lqc_local_state_recovery.go:64-67 | a height mismatch is reported only for a marker at another number than the database knows for its target |
| `LocalRecovery.TargetSurvives` | core/rabbit_lqc_local_state_recovery.go:73-113 | once a target is remembered, later starts never write the marker again and return the same target, whatever the chain looks like, exactly as long as the database knows no other number for it |
| `LocalRecovery.Recovery.Prepare` | core/rabbit_lqc_local_state_recovery.go:77-113 | a pending or unreadable marker is kept and reported; without one, the stored head is written as the target and returned exactly when it is present, known and above genesis; otherwise nothing is written |
| `LocalRecovery.CollectMissing` | core/rabbit_lqc_local_state_recovery.go:171-184 | the walk lists exactly the blocks from the target down to the first canonical block with state; it fails exactly at the repaired height or at a missing parent, with the error that says which |
| `LocalRecovery.Recovery.Replay` | core/rabbit_lqc_local_state_recovery.go:186-203 | blocks go to import oldest first, each once, in batches of at most 32 that are full except the last; on success the chain is the one the last import left; on an error they are a prefix, and either the last batch and no other was refused, or all were accepted and a block disappeared |
| `LocalRecovery.Recovery.Recover` | core/rabbit_lqc_local_state_recovery.go:133-212 | a stored target above the head is replayed along exactly the path from its stateful canonical ancestor, and recovery succeeds exactly when that ends at the target with its state; it stops earlier only for a missing ancestor, a refused batch or a block that disappeared; success clears the marker only with the target canonical and a stateful head at or above it; every error leaves the marker |
| `LocalRecovery.TargetNeverReplaced` | core/rabbit_lqc_local_state_recovery.go:77-212 | over any run of startups, recoveries, crashes and chain changes the target stays until it is safely forgotten |
| `Bytes.EncodeDecode` | core/rabbit_lqc_local_state_recovery.go:44-66 | every byte string is the encoding of the number it is read as |
| `Bytes.FirstByteCounts` | core/rabbit_lqc_local_state_recovery.go:94-96 | the encoding is big-endian |
| `SyncScheduler.Scheduler.Schedule` | eth/handler_eth.go:363-395 | what is admitted and when a worker is started; a stopped scheduler takes the target as current; a running one makes it pending exactly when it is ahead of the pending target and of the current one, or its own peer has dropped the current one |
| `SyncScheduler.Scheduler.TakePending` | eth/handler_eth.go:398-408 | the pending target becomes current and is returned; without one the scheduler stops |
| `SyncScheduler.Scheduler.TakeBetter` | eth/rabbit_lqc_pending_recovery.go:7-16 | the pending target is taken exactly when it is ahead of the given one; nothing else changes |
| `SyncScheduler.Scheduler.Restore` | eth/rabbit_lqc_pending_recovery.go:18-24 | a target is put back exactly when none is pending or it is ahead of the pending one |
| `SyncScheduler.Scheduler.Retry` | eth/handler_eth.go:568-576 | the next attempt is at the pending target if there is one, otherwise at the same; it becomes current and nothing is left pending |
| `SyncScheduler.Scheduler.Shutdown` | eth/handler_eth.go:545-550 | all slots are emptied |
| `SyncScheduler.StepKeepsInv` | eth/handler_eth.go:363-581 | every atomic step keeps: one worker exactly while running, stopped means empty slots, and for each admitted target that was not yet met by a current one, one at least as good is pending or held |
| `SyncScheduler.RunsKeepInv` | eth/handler_eth.go:363-581 | the same in every state of every interleaving |
| `SyncScheduler.WorkerSteps` | eth/handler_eth.go:444-581 | in every reachable state, what each step of the worker does to it and to the slots |
| `SyncScheduler.CanRest` | eth/handler_eth.go:444-581 | the worker is never stuck: in at most four steps of its own it publishes what it holds, works on what is pending and rests with nothing owed |
| `SyncScheduler.BusyIsRunning` | eth/handler_eth.go:444-581 | in every reachable state there is at most one worker, and slots are occupied exactly while there is one |
| `SyncScheduler.OwedUntilTried` | eth/handler_eth.go:444-581 | an admitted target stays owed until a target at least as good is current at or after its admission |
| `SyncScheduler.RestMeansTried` | eth/handler_eth.go:444-581 | a scheduler at rest owes nothing: after each admission one at least as good was current |
| `ProductionGate.PeerHeadConfirmed` | eth/backend.go:845-884 | true exactly when no recovery is under way, some peer is on this very head and none advertises a preferred one |
| `ProductionGate.ProductionNeedsSync` | eth/backend.go:1211-1244 | true exactly when there is no header, a recovery is under way or some peer advertises a preferred head |
| `ProductionGate.FailedSyncGate.Recover` | eth/lqc_failed_sync_gate.go:24-31 | the gate opens exactly above the failure height with every check true |
| `ProductionGate.WaitsLongEnough` | eth/backend.go:803-830 | without a sync, production may start only with peers, after a minute, or after twenty seconds if the chain is empty or the head is at most ten minutes old and at most half a minute ahead |
| `ProductionGate.Producer.Iterate` | eth/backend.go:891-1029 | one turn of the loop, exactly: the new gate, whether the producer runs, the grace clock and the starts that are made |
| `ProductionGate.StartsAreSafe` | eth/backend.go:891-1029 | every start of every run has state, a confirming peer, no preferred head and an open gate |
| `ProductionGate.RunsAreSafe` | eth/backend.go:891-1029 | over every run a running producer was started at such a point, and in every turn since no sync began or failed, the gate was open and no peer had a preferred head |
| `ProductionGate.WaitsSinceAlone` | eth/backend.go:891-1029 | over every run the grace clock started at the last turn that found an open gate and no peers, or at the start |
| `ProductionGate.GraceStartsWait` | eth/backend.go:891-1029 | every start by the grace check had peers, a confirmed head and at least twenty seconds on that clock; less than a minute only with an empty chain or a live head |
| `ProductionGate.EventsDecide` | eth/backend.go:891-1029 | in every turn of every run a sync that began closes the gate and stops the producer, and a completed one opens the gate and has the producer run if its head is safe, there are peers and none needs a sync |
| `ProductionGate.RemembersLatest` | eth/lqc_failed_sync_gate.go:12-22 | a closed gate remembers the height of the latest failure |
| `ProductionGate.OpensExactly` | eth/lqc_failed_sync_gate.go:12-31 | after a failure the gate opens exactly by a completed sync, or by a head above the latest failure height with every check true |
| `ProductionGate.RestartAfterFailure` | eth/backend.go:891-1029 | after a failure it restarts only after a completed sync, or a head above the latest failure height with every check true |
| `GasBudgets.AbsorbKeeps` | core/vm/gascosts.go:178-282 | absorbing whatever a nested frame left keeps the caller's regular and state accounts; the caller gets back all the regular gas the frame left and has used what it used |
| `GasBudgets.ChargeKeeps` | core/vm/gascosts.go:112-137 | a charge is paid exactly when regular gas covers its regular part and both together cover it all; it borrows only from an empty reservoir |
| `GasBudgets.RefundKeeps` | core/vm/gascosts.go:160-166 | a refund of state gas repays what was borrowed before the reservoir gets any |
| `GasBudgets.RefundUndoesCharge` | core/vm/gascosts.go:112-166 | a refund undoes a charge of the same state gas exactly when no earlier loan takes part of it |
| `GasBudgets.DrainKeeps` | core/vm/gascosts.go:169-172 | draining uses all regular gas and leaves state gas alone |
| `GasBudgets.RunKeeps` | core/vm/gascosts.go:112-282 | any list of charges, refunds, drains and nested calls keeps both accounts, and no unsigned counter goes below zero |
| `GasBudgets.WordsSuffice` | core/vm/gascosts.go:52-63 | in every budget a frame and its nested frames go through, regular gas and what is used or borrowed of it never overflow; machine words are enough everywhere exactly when they are for the two fields that count state gas |
| `GasBudgets.FrameContract` | core/vm/gascosts.go:204-282 | a frame leaves at least its starting reservoir counting used state gas; gas left and used adds up to gas given; a revert has used exactly the regular gas its operations used; a halt, or a charge it cannot pay, uses all regular gas |
| `GasBudgets.UsedIsCharged` | core/vm/gascosts.go:112-282 | as long as every charge is paid and nothing halts or drains, however calls nest, borrow, repay and revert, the gas counted as used is exactly the regular gas charged and the state gas charged less refunded in frames that did not revert |
| `GasBudgets.HaltBurnsForwarded` | core/vm/gascosts.go:178-282 | a call that halts costs its caller exactly what was forwarded |
| `GasPools.GasPool.CheckGasLegacy` | core/gaspool.go:46-52 | gas is taken exactly when enough remains |
| `GasPools.GasPool.CheckGasAmsterdam` | core/gaspool.go:57-65 | both reservations fit, with 64-bit wrap-around |
| `GasPools.GasPool.ChargeGasLegacy` | core/gaspool.go:69-79 | fails exactly on a 64-bit overflow; otherwise gas comes back and usage grows |
| `GasPools.GasPool.ChargeGasAmsterdam` | core/gaspool.go:85-101 | fails exactly when a dimension exceeds the block; otherwise the pool's invariant is kept |
| `GasPools.GasPool.Used` | core/gaspool.go:113-123 | between messages it is the cumulative use, or the larger dimension, and its panic is unreachable |
| `StateTransition.Price` | core/state_transition.go:349-358 | the effective price is the smaller of the fee cap and base fee plus tip cap; it covers the base fee whenever the cap does |
| `StateTransition.BuyGas` | core/state_transition.go:437-492 | it succeeds exactly when the sender holds the worst case; it debits exactly the prepaid cost and leaves the value covered; it fails by overflow exactly when the worst case does not fit 256 bits |
| `StateTransition.PreCheck` | core/state_transition.go:546-653 | accepted exactly when fees, pool room and balance allow; what is reserved and debited; every rejection names a check that fails |
| `StateTransition.BudgetLeft` | core/state_transition.go:504-510 | whatever the frame did, its leftovers, its use and the intrinsic cost add up to the gas limit, and regular gas stays under the cap |
| `StateTransition.Settle` | core/state_transition.go:965-1000 | used plus left is the limit; used is the larger of the floor and use less a refund of at most a fifth; only negative state gas makes it fail |
| `StateTransition.CalcRefund` | core/state_transition.go:1153-1163 | the largest refund within the counter and a fifth of the use |
| `StateTransition.ChargePool` | core/state_transition.go:1003-1012 | for a message that had room the settlement charge cannot fail, in both schemes |
| `StateTransition.PayOut` | core/state_transition.go:1014-1023 | unused gas and tip are credited exactly, also to one account, with no 256-bit wrap |
| `StateTransition.Execute` | core/state_transition.go:666-781 | accepted exactly when stated; the coinbase gets at most the tip cap per gas; supply falls by exactly base fee times gas used plus 131072 times the blob base fee for each blob, for any aliasing; every rejection names a check that fails, so the transfer check, the base-fee check, the second settlement check and a pool refusal at settlement never reject |
| `StateTransition.ApplyTransaction` | miner/worker.go:459-473 | accepted exactly when it may be, with its figures, movements and charge; rejected, it leaves state and pool as they were |
| `StateTransition.ApplyAll` | core/gaspool.go:46-123 | over any sequence of transactions each takes its turn where the one before left off; the pool accounts for exactly the gas of the accepted ones, in all three figures it keeps, and supply falls by exactly what they burn |
| `Authorizations.ValidateMatches` | core/state_transition.go:1027-1053 | validation against the evolving state agrees with counting the authority's own valid entries |
| `Authorizations.CountsExactly` | core/state_transition.go:1027-1055 | an entry counts exactly when it is signed by the authority, for this chain or any, with the nonce it has by then and that can be raised, and the authority is not a contract |
| `Authorizations.LastEntryDecides` | core/state_transition.go:1122-1137 | an authority ends with the nonce of its last valid entry plus one and the delegation that entry names, or none for the zero address; without a valid entry nothing changes |
| `Authorizations.ChargedOnce` | core/state_transition.go:1065-1115 | an authority pays 8000 for its write unless the transaction has, 120 bytes of state gas if it was empty and 23 for its first indicator, at most once each |
| `Authorizations.CostPerAuthority` | core/state_transition.go:1065-1150 | the charges of a list are the sum of what each authority owes |
| `Authorizations.RefundsPerAuthority` | core/state_transition.go:1072-1075 | before Amsterdam each authority refunds 12500 for every valid entry except the one that creates its account |
| `Authorizations.Authorizer.Apply` | core/state_transition.go:1027-1137 | one entry keeps the correspondence with the reference and warms its signer, valid or not; it fails exactly when its charge does not fit |
| `Authorizations.WrittenIsWarm` | core/state_transition.go:1045-1046 | every account a list writes is in the access list |
| `Authorizations.WarmExactly` | core/state_transition.go:1028-1046 | the warmed accounts are exactly the signers of entries for this chain or any, with a nonce that can be raised |
| `Authorizations.Authorizer.ApplyAll` | core/state_transition.go:1142-1150 | a list is covered exactly when the budget affords the sum of its charges; then each authority has the delegation of its last valid entry and its nonce raised by their count, and exactly the recovered signers are warmed; otherwise the entries before the first unaffordable one are applied and paid |
| `VrfSettlement.SplitPaysExactly` | core/state_processor.go:365-421 | both splits pay out exactly the fee; the producer gets 30 or 20 percent and the participants together 50 or 30 percent in equal parts, each rounded down; the allocation gets its base share plus less than one unit per rounding, and the conservation error is unreachable |
| `VrfSettlement.SplitRefuses` | core/state_processor.go:365-421 | a split fails exactly on a negative fee or without participants |
| `VrfSettlement.CheckParticipants` | core/state_processor.go:520-537 | accepted exactly when present and distinct; otherwise the first offender decides the error |
| `VrfSettlement.Pay` | core/state_processor.go:627-662 | for any aliasing of the parties every account changes by exactly its own gains and losses, and the sum of balances stays |
| `VrfSettlement.Process` | core/state_processor.go:487-677 | the sum of balances never changes, on success or failure; success settles every request once, in ascending order; a failure names the first request that could not be settled and leaves the balances before it, or those its system call left |
| `WorkPools.CommitPool.AddVerified` | consensus/lqc/work_protocol_v1_pool.go:242-298 | added exactly when every check and the write succeed; otherwise nothing changes and the answer names a check that failed |
| `WorkPools.CommitPool.RemoveIncluded` | consensus/lqc/work_protocol_v1_pool.go:348-397 | removed exactly when present and the write succeeds |
| `WorkPools.BuildPool` | consensus/lqc/work_protocol_v1_pool.go:93-151 | a pool is rebuilt from persisted candidates exactly when each is fit for the epoch, none repeats a proof or a participant, and they fit the capacity |
| `WorkPools.CommitPool.ResetCommitEpoch` | consensus/lqc/work_protocol_v1_pool.go:201-236 | the same epoch changes nothing; another one replaces the pool by exactly what was persisted, or fails and changes nothing |
| `WorkPools.Readmit` | eth/lqc_work_v1_engine_provider_lab.go:504-529 | success exactly when the context is current and the pool then holds the proof or a rival; the candidate is lost exactly when it held a rival and not the proof |
| `WorkPools.LostToRival` | eth/lqc_work_v1_engine_provider_lab.go:504-529 | a readmission that reports success and leaves the candidate out |
| `WorkPools.Provider.ReconcileRemoved` | eth/lqc_work_v1_engine_provider_lab.go:129-190 | a quarantined candidate stays at its block or is no longer included there and returned; what is still included stays; every proof keeps a representative |
| `WorkPools.Provider.ReconcileReservation` | eth/lqc_work_v1_engine_provider_lab.go:198-242 | a proof leaves the pool only into quarantine, with its exact ticket in the canonical header at that block |
| `WorkPools.Provider.ReconcileCanonicalPending` | eth/lqc_work_v1_engine_provider_lab.go:248-304 | the same for the scan, which resumes at its cursor while that is in the window; offered candidates included in the scanned blocks are out of the pool if writes succeed; nothing is taken for another block, and nothing changes before the window |
| `WorkPools.Provider.ReconcileCanonical` | eth/lqc_work_v1_engine_provider_lab.go:306-319 | what is quarantined and no longer included goes back to the pool or is represented there by a rival; then what the pool offers and a scanned block includes is quarantined; with room in the pool, a working store and a current context everything left in quarantine is included at its block; no tracked proof is left without a representative, and what left the pool is witnessed |
| `WorkPools.Provider.Provide` | eth/lqc_work_v1_engine_provider_lab.go:357-435 | the same, from the pool of the epoch; a repeated request gets the same reservation, a new one the first tickets of the epoch, at most eight; what an earlier reservation got included is out of the pool |
| `WorkPools.FirstOfEpochIsFirst` | eth/lqc_work_v1_engine_provider_lab.go:405-430 | what is reserved are the first candidates of the epoch in the order offered, as many as there are up to the limit, none passed over |
| `WorkPools.ParticipantNeverLost` | eth/lqc_work_v1_engine_provider_lab.go:129-435 | over any run within an epoch, with any changes of the canonical chain, the participant of each tracked candidate stays tracked |
| `WorkPools.CandidateNeverLost` | eth/lqc_work_v1_engine_provider_lab.go:129-435 | as long as no participant has two tracked candidates, every candidate stays in the pool or in quarantine |
| `ClaimPools.ClaimPool.Add` | eth/lqc_committee_claim_pool.go:39-62 | all or nothing: a conflict exactly when a stored signature differs; otherwise missing positions get the group's first entry and nothing stored changes |
| `ClaimPools.ClaimPool.Contains` | eth/lqc_committee_claim_pool.go:64-81 | every item is stored with its signature |
| `ClaimPools.ClaimPool.Pending` | eth/lqc_committee_claim_pool.go:83-126 | exactly the first of the eligible claims, up to 128, in order of target and position, in non-empty ascending groups with stored signatures; exactly the claims of the last eight blocks are kept |
| `ClaimPools.FirstIsUnique` | eth/lqc_committee_claim_pool.go:100-126 | there is only one such selection |
| `ClaimPools.SignatureNeverChanges` | eth/lqc_committee_claim_pool.go:39-126 | over any run of calls a claim keeps its signature while it is stored |
| `FairVerifier.Verifier.Run` | eth/lqc_work_v1_fair_verifier.go:41-66 | accepted exactly when the peer is named, the verifier open and the peer not pending, and then queued last; otherwise nothing changes |
| `FairVerifier.Verifier.Take` | eth/lqc_work_v1_fair_verifier.go:70-81 | the oldest task is taken, if there is one |
| `FairVerifier.Verifier.Release` | eth/lqc_work_v1_fair_verifier.go:85-87 | only the finished task's peer stops being pending |
| `FairVerifier.Verifier.Close` | eth/lqc_work_v1_fair_verifier.go:94-117 | the first call takes the whole queue and its peers away; later ones do nothing |
| `FairVerifier.RunsKeepInv` | eth/lqc_work_v1_fair_verifier.go:41-117 | in every interleaving the pending peers are exactly those of the queued and the running tasks, none twice, and tasks are answered in order of acceptance |
| `FairVerifier.AdmitsExactly` | eth/lqc_work_v1_fair_verifier.go:41-66 | in every reachable state of an open verifier exactly the peers without a queued or running task are accepted |
| `FairVerifier.CanAnswerAll` | eth/lqc_work_v1_fair_verifier.go:68-117 | the worker and the closer are never stuck: from every reachable state they can answer everything accepted |
| `FairVerifier.AnsweredOnce` | eth/lqc_work_v1_fair_verifier.go:68-117 | no accepted task is answered twice |
| `FairVerifier.FirstInFirstOut` | eth/lqc_work_v1_fair_verifier.go:68-92 | the started tasks are always a prefix of the accepted ones |
| `FairVerifier.QueuedAreRefused` | eth/lqc_work_v1_fair_verifier.go:94-117 | exactly what was queued at closing gets the closed error, in order |
| `FairVerifier.ClosedStartsNothing` | eth/lqc_work_v1_fair_verifier.go:41-117 | once closed nothing is accepted or started |
| `FairVerifier.AllAnswered` | eth/lqc_work_v1_fair_verifier.go:68-117 | when the worker has stopped and the closer is done every accepted task has its answer |

## Left out

- HeaderChains.HeaderChain.SetHead: assumes a gap-free chain, so the fallback to genesis for a missing parent is not modelled.
- HeaderChains.HeaderChain.WriteHeaders: assumes that equal hashes mean equal headers; "not at all" is about the database, since the header and number caches, which are not modelled, already hold the headers of an aborted import and answer reads by hash alone.
- HeaderChains.HeaderChain.GetAncestor: the canonical index does not change between its two reads, and headers are read by hash and number from the database, not by hash from the cache.
- BlockChains.BlockChain.Reorg: the transaction index covers the whole chain; its configurable tail is not modelled.
- BlockChains.BlockChain.WriteBlockAndSetHead: block execution and state commit are outcomes, not modelled.
- StateTransition.PreCheck: the fee, gas-limit, pool and balance checks only; nonce, sender-code, blob-hash, authorization-shape and init-code checks and the simulation flags are not modelled.
- StateTransition.Execute: intrinsic gas and floor are given numbers and pre-London pricing is not modelled; the supply is assumed to fit 256 bits.
- GasBudgets.RunKeeps: budgets are unbounded integers; `WordsSuffice` says when machine words are enough. The call stipend is part of the charge of its call.
- Authorizations.Authorizer.Apply: the block access list is not modelled.
- VrfSettlement.Process: the coordinator's system call is any change of balances that keeps their sum.
- WorkPools.Provider.Provide: one call sees one canonical chain; changes happen between calls. A proof hash fixes the epoch and participant it was found for. The order of the offered batch is a parameter, and callbacks are never absent.
- WorkPools.Provider.ReconcileCanonical: quarantine of another commit epoch is dropped, as in the code; the run theorems are about one epoch.
- FairVerifier.Verifier.Run: waiting on the result and waking the worker are steps of the interleaving, not modelled as blocking.
- SyncScheduler.StepKeepsInv: downloads, deadlines and the extension of a running sync are any outcome.
- Side-chain import, pruned ancestors (`recoverAncestors`, `insertSideChain`), the ancient store, path-scheme rewind and snapshots.
- EVM interpretation, tries, signatures, RandomX, KZG and DKG: opaque.
- Peer-to-peer messages, RPC, event feeds, logs, metrics and tracing: no effect on the state modelled here.
- `canonicalIncludes` of the ticket provider and `lqcForkRecoveryTargetNeededV1`: they read one comparison off the chain and would only add easy members.

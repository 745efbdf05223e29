# A verified model of revm's state, execution and settlement

This project models the parts of revm whose correctness spans many functions, and proves in Dafny what
the code promises about them. The main statements are for all inputs, all runs or all interleavings.
`dafny verify dfyconfig.toml` checks everything.

| files | what they model |
|---|---|
| `FastLz` | the FastLZ length estimator of the Optimism L1 fee, against a FastLZ level-1 decoder |
| `Blake2Rounds`, `Blake2` | BLAKE2b compression (sections 3.1 and 3.2 of RFC 7693; EIP-152): portable and AVX2 |
| `Journal`, `JournalOps`, `JournalEffects`, `JournalRuns` | the journaled state: undo log, operations, what they do, what a revert gives back |
| `Frames`, `FrameShape`, `FrameWorld`, `Wealth`, `FrameWealth`, `FrameRuns`, `ExecLoop` | the execution loop over call frames: checkpoints, memory contexts, gas, worlds, wei |
| `Inspect` | the same loop under an inspector |
| `Ledger`, `Settlement`, `OpSettlement`, `OpHandler` | gas and fee settlement, on mainnet and on Optimism, deposits included |
| `Transaction`, `Deposit` | whole transactions of a journal one after the other, discarded ones, failed deposits |
| `Payments`, `Blocks`, `OpBlocks` | charging, running and settling on one journal, for one transaction and for any number |
| `Eip7702` | authorization lists, sequential and parallel |
| `CacheDb`, `Bal`, `MtCache` | the overlay database, block access lists, the concurrent read cache |
| `Witnesses` | concrete inputs on which a property fails that the code has only under a condition |
| `Wrappers` | the option type and a fact about sets |

How the parts fit together:

- The world. Two journals are indistinguishable (`Journal.SameWorld`) when every account, slot, transient
  slot and every coldness reads the same. `Journal.Undoes` says that a step only adds to the undo log and
  that undoing the additions gives an indistinguishable world. Every operation is shown to be such a step.
- Transactions. A journal serves many transactions and clears what an earlier one created or destroyed
  only when an account is loaded again, so the world shows such an account as its next load will leave it.
  `Transaction.Begins` is where every transaction of a journal begins.
- Soundness. A run is sound (`FrameRuns.SoundRun`) when no load takes a mark away, no slot is first read
  on an account created over a value in the database, and before Spurious Dragon nothing is created twice.
  The first condition is void in the first transaction of a journal. Each is exact for its step
  (`JournalRuns.LoadTakenBack`, `JournalRuns.SlotTakenBack`, `JournalRuns.MarkTakenBack`).
- Programs. What opcodes compute is left open. A run is driven by a script of the effects an instruction
  can have: charges, refunds, journal operations, memory growth, calls, creates and endings. A lemma about
  every script is about every program, and a script that ends early gives every reachable state.
- Frames. `FrameShape.Shape` describes every reachable state of the loop. `FrameWorld.World` records for
  every live frame the journal in which it took its checkpoint and says that it can still be reached.
  `RunUntil` watches the loop until the frame at a given height has returned, so one statement covers
  every frame of every call tree.
- In place. `ExecLoop.Evm`, `OpHandler.OpHandler`, `CacheDb.CacheDB`, `Bal.Store` and the loops of `FastLz`,
  `Blake2` and `Eip7702` update their state as the source does; each method is proved against the function
  that says what the step computes.

## Where the code does less than one might expect

Each of these has a lemma that says exactly when the expectation holds, and a concrete input on which it
does not.

- A transfer that fails because the receiver would overflow leaves the payer debited, also after the
  revert (`JournalRuns.FailedTransferRestored`, `Witnesses.OverflowStaysDebited`).
- Undoing a code change always leaves empty code, so discarding a transaction that replaced a delegation
  loses the earlier one (`JournalRuns.DelegationTakenBack`, `Witnesses.DelegationLost`).
- An account that comes from the database is stamped with transaction zero. In later transactions of the
  same journal it is cold again on its next load, and that load takes away marks of creation and
  destruction which undoing does not bring back (`JournalRuns.ReloadIsCold`,
  `JournalRuns.CreationRemembered`, `JournalRuns.LoadTakenBack`). A contract that destroys itself and is
  loaded again loses code and nonce even if all of it is reverted (`Witnesses.DestroyedThenLoaded`).
- A slot first read on a created account is zero whatever the database holds, and stays zero when the
  creation is undone (`JournalRuns.SlotTakenBack`, `Witnesses.CreatedOverStorage`).
- The slots of a destroyed account are only forgotten: in the next transaction they read as the database
  holds them, unless the account is marked created (`Transaction.DestroyedSlot`,
  `Witnesses.DestroyedSlotReturns`).
- Before Spurious Dragon an account can be created twice in one transaction; undoing the second creation
  takes the mark of the first away (`JournalRuns.MarkTakenBack`, `Witnesses.CreatedTwice`).
- Checkpoints of nested frames are ordered, not strictly ordered (`FrameShape.EnteredCheckpoint`,
  `Witnesses.SharedCheckpoint`).
- A negative refund counter is read as a huge one and refunds the whole cap (`Settlement.FinalRefundExact`,
  `Witnesses.NegativeRefund`).
- The operator fee refund on Optimism does not look at the enveloped bytes, the charge does
  (`OpSettlement.ConservedExactly`, `Witnesses.RefundMints`).
- A deposit that cannot pay for its gas pays what it has and is reimbursed as if it had paid
  (`OpSettlement.MintedExactly`, `Witnesses.OverdrawnDeposit`).
- On Optimism an error that is not a deposit's takes nothing back, although the handler's documentation
  asks for the transaction to be discarded (`Deposit.OtherErrorLeaves`, `Deposit.OtherErrorKeeps`).
- Parallel authorizations depend on arrival order for some lists (`Eip7702.OrderMatters`,
  `Witnesses.SuccessiveNonces`).
- A commit that touches an account cached as not existing, without creating it, makes the database's old
  slots visible again (`CacheDb.CommitReplays`, `Witnesses.SlotReturns`).
- Flattening a nested cache drops inner slots under an outer account that still asks below
  (`CacheDb.FlattenSame`, `Witnesses.SlotDropped`).

## Model

| member | source | states |
|---|---|---|
| FastLz.FlzCompressLen | crates/op-revm/src/fast_lz.rs:8-61 | for every input whose all-literal cost fits 32 bits, the returned number is the exact byte length of a FastLZ level-1 stream that the byte decoder expands back to the input; it is at most the all-literal cost and at least n/88; inputs without a repeated 3-byte window cost exactly the all-literal form, and a constant input of 17 or more bytes costs one match and 9 literal bytes; every index, table entry and 32-bit operation stays in range and both loops end |
| FastLz.FindMatch | crates/op-revm/src/fast_lz.rs:27-40 | the inner search stops at the limit or at a position whose 3-byte window occurs at the returned distance, and every hash-table entry stays below the index |
| FastLz.CountMatch | crates/op-revm/src/fast_lz.rs:46-57 | the ghost token stream grows by the literal runs and the match for exactly the bytes consumed, and the size by exactly their encoded length |
| FastLz.Cmp | crates/op-revm/src/fast_lz.rs:73-83 | returns one more than the number of equal bytes on a mismatch, and the whole range otherwise |
| FastLz.SetNextHash | crates/op-revm/src/fast_lz.rs:95-98 | writes only the entry of the window at `idx` and returns the next index |
| FastLz.DecompressEncode | crates/op-revm/src/fast_lz.rs:8-61 | the byte decoder inverts the encoder on every well-formed instruction list, overlapping back references included |
| FastLz.LiteralRunsSize | crates/op-revm/src/fast_lz.rs:63-71 | `literals` is the encoded size of cutting the bytes into runs of at most 32 |
| FastLz.LiteralRunsExpand | crates/op-revm/src/fast_lz.rs:63-71 | those runs expand to the bytes they were cut from |
| FastLz.MatchChunksSize | crates/op-revm/src/fast_lz.rs:85-93 | `flz_match` is the encoded size of cutting a match into chunks of at most 262 bytes |
| FastLz.MatchChunksExpand | crates/op-revm/src/fast_lz.rs:85-93 | copying chunk by chunk gives what one long copy gives, also when source and target overlap |
| FastLz.CopyBackReproduces | crates/op-revm/src/fast_lz.rs:52-53 | a back copy at a distance at which the input repeats reproduces the input |
| FastLz.U24Injective | crates/op-revm/src/fast_lz.rs:105-109 | equal packed values mean equal 3-byte windows |
| Blake2Rounds.MixAt | crates/precompile/src/blake2.rs:98-118 | mixes exactly the four words at the given places, in place |
| Blake2Rounds.RoundInPlace | crates/precompile/src/blake2.rs:169-183 | the in-place round is the column step followed by the diagonal step of the schedule row for its number |
| Blake2Rounds.RoundsInPlace | crates/precompile/src/blake2.rs:159-161 | the loop leaves the state of that many rounds |
| Blake2Rounds.Loads1 | crates/precompile/src/blake2.rs:254-273 | the shuffles of written-out round 1 deliver the message words that schedule row 0 asks for, in the lanes the unrotated-b diagonal step needs |
| Blake2Rounds.Loads2 | crates/precompile/src/blake2.rs:279-298 | the shuffles of written-out round 2 deliver the message words that schedule row 1 asks for, in the lanes the unrotated-b diagonal step needs |
| Blake2Rounds.Loads3 | crates/precompile/src/blake2.rs:304-323 | the shuffles of written-out round 3 deliver the message words that schedule row 2 asks for, in the lanes the unrotated-b diagonal step needs |
| Blake2Rounds.Loads4 | crates/precompile/src/blake2.rs:329-348 | the shuffles of written-out round 4 deliver the message words that schedule row 3 asks for, in the lanes the unrotated-b diagonal step needs |
| Blake2Rounds.Loads5 | crates/precompile/src/blake2.rs:354-373 | the shuffles of written-out round 5 deliver the message words that schedule row 4 asks for, in the lanes the unrotated-b diagonal step needs |
| Blake2Rounds.Loads6 | crates/precompile/src/blake2.rs:379-398 | the shuffles of written-out round 6 deliver the message words that schedule row 5 asks for, in the lanes the unrotated-b diagonal step needs |
| Blake2Rounds.Loads7 | crates/precompile/src/blake2.rs:404-423 | the shuffles of written-out round 7 deliver the message words that schedule row 6 asks for, in the lanes the unrotated-b diagonal step needs |
| Blake2Rounds.Loads8 | crates/precompile/src/blake2.rs:428-447 | the shuffles of written-out round 8 deliver the message words that schedule row 7 asks for, in the lanes the unrotated-b diagonal step needs |
| Blake2Rounds.Loads9 | crates/precompile/src/blake2.rs:453-472 | the shuffles of written-out round 9 deliver the message words that schedule row 8 asks for, in the lanes the unrotated-b diagonal step needs |
| Blake2Rounds.Loads10 | crates/precompile/src/blake2.rs:478-497 | the shuffles of written-out round 10 deliver the message words that schedule row 9 asks for, in the lanes the unrotated-b diagonal step needs |
| Blake2Rounds.UndiagonalizeInverts | crates/precompile/src/blake2.rs:617-628 | the second lane rotation undoes the first |
| Blake2Rounds.VectorRoundIsRound | crates/precompile/src/blake2.rs:254-273 | one vector round, with rows a, c and d rotated instead of b, c and d, is the scalar round for every mixing function made of the two halves |
| Blake2Rounds.VectorRounds | crates/precompile/src/blake2.rs:248-500 | the ten written-out rounds in a cycle, left after any number of rounds, are that many scalar rounds with schedule row `r % 10` |
| Blake2.CompressPortable | crates/precompile/src/blake2.rs:127-166 | the portable function leaves F(rounds, h, m, t, final) in `h` |
| Blake2.CompressBlock | crates/precompile/src/blake2.rs:215-507 | the AVX2 function leaves the same F in the chaining words |
| Blake2.HalvesAreG | crates/precompile/src/blake2.rs:580-611 | `g1` then `g2` is G |
| Blake2.Blake2bLaws | crates/precompile/src/blake2.rs:537-575 | 64-bit addition, xor, not and the four rotations have the laws the generic proof uses |
| Blake2.CountHalves | crates/precompile/src/blake2.rs:510-518 | the two counter words survive being packed into one 128-bit count |
| Blake2.Compress | crates/precompile/src/blake2.rs:127-166 | whichever implementation the processor selects, the chaining words become F |
| Journal.ViewAfterUndo | crates/context/interface/src/journaled_state/entry.rs:290-409 | undoing an entry changes what is visible of an account as a function of what was visible before |
| Journal.SlotAfterUndo | crates/context/interface/src/journaled_state/entry.rs:364-386 | undoing an entry restores exactly the slot it names |
| Journal.RevertEntriesCongruent | crates/context/src/journal/inner.rs:467-483 | undoing a stretch of entries cannot tell indistinguishable worlds apart |
| Journal.UndoesTransitive | crates/context/src/journal/inner.rs:467-483 | steps that can be taken back one by one can be taken back together |
| JournalOps.TouchUndoes | crates/context/src/journal/inner.rs:216-221 | the touched mark is taken back, except that of precompile 3 from Spurious Dragon on, which no reader sees |
| JournalOps.SetBalanceUndoes | crates/context/interface/src/journaled_state/account.rs:86-95 | a new balance is taken back by its entry |
| JournalOps.IncrBalanceUndoes | crates/context/interface/src/journaled_state/account.rs:101-108 | a credit is taken back, and a refused one leaves only a touched mark |
| JournalOps.BumpNonceUndoes | crates/context/interface/src/journaled_state/account.rs:129-138 | a nonce bump is taken back, and a refused one leaves only a touched mark |
| JournalOps.SetCodeUndoes | crates/context/interface/src/journaled_state/account.rs:144-149 | new code on an account without code is taken back |
| JournalOps.LoadAccountUndoes | crates/context/src/journal/inner.rs:660-741 | in every transaction of a journal, a load that takes no marks away is taken back to cold, or is invisible |
| JournalOps.FirstLoadsOk | crates/context/src/journal/inner.rs:683-697 | in the first transaction of a journal no load takes a mark of creation or destruction away |
| JournalOps.TransferUndoes | crates/context/src/journal/inner.rs:316-360 | a transfer is taken back unless it failed for overflow |
| JournalOps.MarkCreatedUndoes | crates/context/src/journal/inner.rs:416-426 | the creation mark and the first nonce are taken back, whatever storage the database holds for the account |
| JournalOps.SloadUndoes | crates/context/src/journal/inner.rs:749-797 | a slot load is taken back to cold, also for a slot seen for the first time, unless the account was created over a value in the database |
| JournalOps.SstoreUndoes | crates/context/src/journal/inner.rs:805-845 | a slot store is taken back to the value and warmth before |
| JournalOps.TstoreUndoes | crates/context/src/journal/inner.rs:865-892 | a transient store is taken back, with absent and zero kept apart internally |
| JournalOps.LogUndoes | crates/context/src/journal/inner.rs:896-898 | a log only extends the logs |
| JournalOps.SelfdestructUndoes | crates/context/src/journal/inner.rs:497-565 | a selfdestruct, global, local or repeated, before and after Cancun, is taken back in both accounts, in every transaction of a journal |
| JournalEffects.LoadEffect | crates/context/src/journal/inner.rs:660-741 | a load changes nothing that can be read but the coldness of the account, and that of an existing account fresh from the database not even, in a later transaction |
| JournalEffects.SloadEffect | crates/context/src/journal/inner.rs:749-797 | a slot load answers with the visible value and coldness and warms only that slot |
| JournalEffects.SstoreEffect | crates/context/src/journal/inner.rs:805-845 | the value stored is the value every later load of that slot sees, and no other slot or account changes |
| JournalEffects.TstoreEffect | crates/context/src/journal/inner.rs:865-892 | the same for transient storage |
| JournalEffects.TransferFails | crates/context/src/journal/inner.rs:316-360 | a transfer fails for lack of funds, or for overflow of the receiver, in exactly these cases |
| JournalEffects.TransferEffect | crates/context/src/journal/inner.rs:316-360 | a successful transfer moves exactly its value between two accounts and changes no nonce, code or storage |
| JournalEffects.CreateEffect | crates/context/src/journal/inner.rs:392-446 | a creation fails exactly for a collision or an overflow; otherwise it moves the endowment, marks the account and sets nonce one from Spurious Dragon on |
| JournalEffects.SelfdestructEffect | crates/context/src/journal/inner.rs:497-565 | the whole balance goes to the target; to itself it is kept, or lost when the account is destroyed |
| JournalRuns.PerformAllUndoes | crates/context/src/journal/inner.rs:467-483 | any sequence of sound host operations can be taken back, in every transaction of a journal |
| JournalRuns.RevertRestores | crates/context/src/journal/inner.rs:450-483 | in every transaction of a journal, reverting to a checkpoint gives back world, logs and undo log of the checkpoint after any undoable steps |
| JournalRuns.CreateAccountRestores | crates/context/src/journal/inner.rs:392-446 | a successful creation can be taken back to its checkpoint, a failed one has been |
| JournalRuns.FailedTransferRestored | crates/context/src/journal/inner.rs:316-360 | a failed transfer followed by a revert restores the checkpoint if and only if the failure was not an overflow of the receiver |
| JournalRuns.DelegationTakenBack | crates/context/interface/src/journaled_state/account.rs:165-176 | undoing a delegation restores the accounts if and only if the authority had no code before |
| JournalRuns.ReloadIsCold | crates/context/src/journal/inner.rs:660-741 | the second load in a row is cold again if and only if the first took an existing account from the database in a later transaction of the same journal |
| JournalRuns.CreationRemembered | crates/context/src/journal/inner.rs:660-741 | the mark of creation in this transaction survives another load if and only if it is the journal's first transaction or the database does not know the account |
| JournalRuns.LoadTakenBack | crates/context/src/journal/inner.rs:660-741 | for every journal: a load followed by undoing its entry restores the world if and only if the account is not a loaded one that is cold and carries a mark of local creation or destruction |
| JournalRuns.SlotTakenBack | crates/context/src/journal/inner.rs:749-797 | a slot load followed by undoing its entry restores the world if and only if the slot was known, or the account was not created, or the database holds zero there |
| JournalRuns.MarkTakenBack | crates/context/src/journal/inner.rs:416-426 | for every journal: marking a creation and undoing its entry restores the world if and only if this transaction had not marked the account before |
| Witnesses.DestroyedThenLoaded | crates/context/src/journal/inner.rs:660-741 | in every later transaction before Cancun, a contract taken from the database that destroys itself and is loaded again has no code and nonce zero once all of this is undone |
| Witnesses.CreatedOverStorage | crates/context/src/journal/inner.rs:749-797 | a slot of 42 in the database reads zero after its account was created, the slot read and both undone |
| Witnesses.CreatedTwice | crates/context/src/journal/inner.rs:416-426 | before Spurious Dragon, undoing a second creation takes the mark of the first away |
| Witnesses.OverflowStaysDebited | crates/context/src/journal/inner.rs:316-360 | one wei sent to an account that holds the greatest balance is refused and still missing after the revert |
| Witnesses.DelegationLost | crates/context/interface/src/journaled_state/account.rs:165-176 | an account with code that delegates anew has lost it once the delegation is undone |
| Frames.RunLoopIsRunUntil | crates/handler/src/handler.rs:366-397 | the loop is the loop watched until the frame at the bottom has returned, so what is shown of every frame holds of it |
| FrameShape.StepShape | crates/interpreter/src/interpreter.rs:282-305 | the wrapped value of the unsafe charge never stays: the step is the checked charge, in the same state |
| Frames.SkippedForGas | crates/interpreter/src/instructions/contract/call_helpers.rs:127-186 | a call stops at the load of a cold account, its delegate included, exactly when its gas does not cover the whole lookup, and otherwise pays for all of it |
| FrameShape.CallShape | crates/interpreter/src/instructions/contract/call_helpers.rs:57-174 | whatever a call grants its child, stipend included, was first taken from the caller; the callee is loaded before a frame is asked for |
| FrameShape.CreateTopShape | crates/interpreter/src/instructions/contract.rs:79-91 | the gas of a create is taken from the creator |
| FrameShape.ExecShape | crates/interpreter/src/interpreter.rs:319-328 | every effect of a running frame keeps the shape of the state: open checkpoints, ordered checkpoints, linked memory contexts, remaining gas within limits, all gas accounted for |
| FrameShape.CallFrameShape | crates/handler/src/frame.rs:137-241 | entering a call, with or without its code at hand, opens one checkpoint and one frame, or neither |
| FrameShape.CreateFrameShape | crates/handler/src/frame.rs:245-339 | the same for a create |
| FrameShape.FinishShape | crates/handler/src/frame.rs:373-433 | leaving a frame closes its checkpoint and hands its remaining gas on |
| FrameShape.GiveBackShape | crates/handler/src/frame.rs:436-524 | the child context is freed where it began and a child never returns more gas than was reserved for it |
| FrameShape.RunLoopShape | crates/handler/src/handler.rs:366-397 | the shape holds in every reachable state of every run |
| FrameShape.RunExecShape | crates/handler/src/handler.rs:366-397 | for every first frame and every program: in every reachable state as many checkpoints are open as frames live; at the end the stack is empty, no checkpoint is open, and the first frame's limit is what remains plus what was burned |
| FrameShape.EnteredCheckpoint | crates/handler/src/frame.rs:137-339 | the checkpoint of a create lies strictly above its creator's; that of a call equals its caller's if and only if nothing was journaled or logged in between |
| Witnesses.SharedCheckpoint | crates/handler/src/frame.rs:137-241 | a run of two nested delegate calls to a warm account reaches two frames with equal checkpoints |
| FrameWorld.ExecWorld | crates/interpreter/src/interpreter.rs:319-328 | every sound effect of a running frame keeps the recorded world of every frame below reachable by undoing, in every transaction of a journal |
| FrameWorld.CallFrameWorld | crates/handler/src/frame.rs:137-241 | a call refused, or answered by a precompile with failure, leaves the caller's world as it was |
| FrameWorld.CreateFrameWorld | crates/handler/src/frame.rs:245-339 | a refused create leaves the world of its checkpoint |
| FrameWorld.ReturnCreateWorld | crates/handler/src/frame.rs:528-586 | a rejected deployment restores the world of the checkpoint; an accepted one installs code exactly once and can still be taken back |
| FrameWorld.FinishWorld | crates/handler/src/frame.rs:398-430 | a failed frame hands down the world of its checkpoint |
| FrameRuns.RunUntilWorld | crates/handler/src/handler.rs:366-397 | for every frame and every program run until it returns: a failure gives the world of its checkpoint, a success one from which it can still be reached |
| FrameRuns.FrameReturns | crates/handler/src/frame.rs:137-433 | for every frame of every call tree in every transaction of a journal, whatever its descendants committed: a result that is not ok hands back exactly the world of its own checkpoint |
| FrameRuns.TransactionReturns | crates/handler/src/handler.rs:366-397 | the same for the first frame of a transaction and the loop as written |
| FrameRuns.CreateBaseEffect | crates/handler/src/frame.rs:272-300 | the checkpoint of a create differs from its creator's world only in the creator's nonce and touched mark and in the warmth of the two accounts |
| Wealth.NoOverflow | crates/context/src/journal/inner.rs:316-360 | while all wei together stays below 2^256 no transfer can overflow its receiver |
| Wealth.SelfdestructWealth | crates/context/src/journal/inner.rs:497-565 | a selfdestruct makes no wei |
| Wealth.TransferWealth | crates/context/src/journal/inner.rs:316-360 | a transfer neither makes nor loses wei |
| Wealth.CreateWealth | crates/context/src/journal/inner.rs:392-446 | a creation neither makes nor loses wei |
| Wealth.PerformWealth | crates/context/src/journal/inner.rs:497-898 | no host operation makes wei |
| FrameWealth.FrameInitRich | crates/handler/src/frame.rs:137-339 | entering a frame, or being refused one, makes no wei |
| FrameWealth.FinishRich | crates/handler/src/frame.rs:373-433 | leaving a frame, with or without success, makes no wei |
| FrameRuns.ExecutionMakesNoWei | crates/handler/src/handler.rs:366-397 | for every program and every reachable state there is no more wei than before the execution |
| ExecLoop.Evm.Push | crates/context/interface/src/local.rs:80-93 | takes the next slot and overwrites a stale frame, its finished flag included |
| ExecLoop.Evm.Pop | crates/context/interface/src/local.rs:104-106 | drops the top frame and leaves its slot |
| ExecLoop.Evm.LoadAccountAndCalcGas | crates/interpreter/src/instructions/contract/call_helpers.rs:57-92 | charges, loads, charges and reserves in this order, with all ways to run out of gas |
| ExecLoop.Evm.LoadAccountDelegated | crates/interpreter/src/instructions/contract/call_helpers.rs:127-174 | loads the callee and then the account it delegates to, skipping a cold one that cannot be paid for, and adds up the cost in place |
| ExecLoop.Evm.ReserveForCreate | crates/interpreter/src/instructions/contract.rs:79-91 | keeps one 64th from Tangerine on |
| ExecLoop.Evm.RunPlain | crates/interpreter/src/interpreter.rs:319-328 | the interpreter loop runs the top frame up to its next action |
| ExecLoop.Evm.MakeCallFrame | crates/handler/src/frame.rs:137-241 | the in-place version does what the state function says in each of its exits |
| ExecLoop.Evm.DecideCall | crates/handler/src/frame.rs:172-202 | a failed transfer or precompile reverts the checkpoint, a successful precompile commits it |
| ExecLoop.Evm.EnterCode | crates/handler/src/frame.rs:204-240 | code that the call does not bring is loaded; without code the checkpoint is committed, with code a frame is pushed |
| ExecLoop.Evm.MakeCreateFrame | crates/handler/src/frame.rs:245-339 | the same for creates |
| ExecLoop.Evm.ReturnCreate | crates/handler/src/frame.rs:528-586 | the chain of checks is one rejection condition and one acceptance |
| ExecLoop.Evm.ProcessNextAction | crates/handler/src/frame.rs:373-433 | opens a child context, or closes the checkpoint and marks the frame finished |
| ExecLoop.Evm.FrameInit | crates/handler/src/evm.rs:173-196 | dispatches on the input |
| ExecLoop.Evm.FrameReturnResult | crates/handler/src/evm.rs:218-232 | pops a finished frame and hands the result to the waiting one, if any |
| ExecLoop.Evm.RunExecLoop | crates/handler/src/handler.rs:366-397 | the loop over reused slots computes the whole run and ends with an empty stack, no open checkpoint and all gas accounted for |
| Inspect.InspectTopIsRunTop | crates/inspector/src/handler.rs:200-290 | the inspected instruction loop with its two exits, and its log and selfdestruct hooks, goes through the states of the plain one |
| Inspect.InspectLoopSame | crates/inspector/src/handler.rs:95-126 | every run under an inspector that only watches, or spends the gas of failed outcomes, has the states of the plain loop |
| Inspect.PassiveIsPlain | crates/inspector/src/handler.rs:95-126 | an inspector that rewrites nothing gives the plain state and result for every run |
| Inspect.ReturnSame | crates/inspector/src/traits.rs:96-152 | taking the gas of a failed outcome changes no waiting frame |
| Inspect.GasInspectorSettles | crates/inspector/src/gas.rs:41-75 | the gas inspector changes no state before the end and not the gas with which the transaction is settled |
| Settlement.FinalRefundExact | crates/interpreter/src/gas.rs:126-129 | the capped refund is the one of EIP-3529 if and only if the refunds are not negative or the cap is zero |
| Witnesses.NegativeRefund | crates/interpreter/src/gas.rs:126-129 | a refund counter of minus one refunds twenty of a hundred spent gas |
| Settlement.FinalGasUsed | crates/handler/src/handler.rs:333-354 | for every outcome with non-negative refunds: used is max(spent - min(refunds, spent/q), floor), between floor and limit, and remaining, refunded and used add up to the limit |
| Settlement.EffectiveWithinMax | crates/context/interface/src/transaction.rs:216-236 | for a validated transaction the effective spending exists and is within the maximum |
| Settlement.CallerFeeDebit | crates/handler/src/pre_execution.rs:130-159 | the fee is refused exactly when the maximum spending is not covered; otherwise the debit is the gas limit at the effective price plus the blob fee |
| Settlement.FeeSplit | crates/handler/src/post_execution.rs:32-79 | what was paid for gas is the caller's reimbursement, the beneficiary's reward and the burned base fee |
| Settlement.MainnetConserves | crates/handler/src/post_execution.rs:11-79 | over charging, any execution and settling, no wei is made or lost but the burned base fee, the blob fee and what the execution destroyed |
| Payments.ExecutionKeeps | crates/handler/src/handler.rs:189-215 | every run between charging and settling ends with no more wei than it found and no more gas than its first frame got |
| Payments.CreditsShow | crates/handler/src/post_execution.rs:32-79 | crediting accounts on the journal, each loaded first, shows the ledger with the same credits |
| Payments.MainnetOnJournal | crates/handler/src/handler.rs:144-234 | charging on the journal, authorizations and loads, any run of frames and settling on the journal: the wei shown before is the wei shown after, plus what the execution lost, the burned base fee and the blob fee |
| Payments.PreparationKeeps | crates/handler/src/pre_execution.rs:187-328 | authorizations that pass and loads, in any number, move no wei and keep the journal in order |
| Blocks.CommitSweeps | crates/context/src/journal/inner.rs:99-127 | a commit makes no wei and loses some if and only if an account that the transaction destroyed still holds any |
| Blocks.RefusedKeeps | crates/handler/src/handler.rs:478-488 | a refused transaction that is discarded leaves all wei and the next one can begin |
| Blocks.MainnetSequence | crates/handler/src/api.rs:89-104 | over any sequence of transactions on one journal, committed or refused and discarded, the wei shown at the end is the wei shown at the start less burned fees, losses and what destroyed accounts held |
| Blocks.MainnetFromStart | crates/handler/src/api.rs:89-104 | the same from a new journal, which is in order for its first transaction |
| OpSettlement.OperatorMonotone | crates/op-revm/src/l1block.rs:189-205 | more gas never costs less operator fee, saturation included |
| OpSettlement.CacheIsFresh | crates/op-revm/src/l1block.rs:294-311 | the cached L1 fee is the fee of the formula, and caching is idempotent |
| OpSettlement.OperatorSplit | crates/op-revm/src/l1block.rs:210-223 | the operator fee of the limit is what comes back to the caller plus what is paid out, except for bytes taken for a deposit |
| OpSettlement.ChargedSupply | crates/op-revm/src/handler.rs:136-175 | what leaves the caller of a regular transaction is the additional cost, the gas limit at the effective price and the blob fee |
| OpSettlement.PaymentsAddUp | crates/op-revm/src/handler.rs:243-337 | the five payments equal the charge, up to what the refund path mints |
| OpSettlement.TransactSupply | crates/op-revm/src/handler.rs:77-432 | one transaction, rejected ones, deposits and failed deposits included, keeps all wei up to what is burned and minted, and leaves the cache empty |
| OpSettlement.DepositGas | crates/op-revm/src/handler.rs:177-285 | whatever a deposit reports, before and after Regolith, remaining, refunded and used gas add up to its limit |
| OpSettlement.DepositSupply | crates/op-revm/src/handler.rs:77-138 | a deposit adds its mint and what it cannot pay for its gas, and burns the price of the gas it uses; one that is rejected or halts adds its mint |
| OpSettlement.MintedExactly | crates/op-revm/src/handler.rs:77-138 | a deposit adds exactly its mint if and only if it can pay for its gas limit, or is rejected by validation, or halts after Regolith |
| Witnesses.OverdrawnDeposit | crates/op-revm/src/handler.rs:107-138 | a deposit of 21010 gas without mint from an empty account is charged nothing, burns 21000 and is reimbursed ten wei, with 21010 minted |
| OpSettlement.ConservedExactly | crates/op-revm/src/l1block.rs:179-223 | fees of a regular transaction are conserved if and only if the enveloped bytes are neither empty nor start with 0x7E, or the operator refund is zero |
| Witnesses.RefundMints | crates/op-revm/src/l1block.rs:179-223 | a transaction of 21010 gas with empty enveloped bytes is charged nothing and refunded ten wei that nobody had |
| OpSettlement.OptimismConserves | crates/op-revm/src/handler.rs:77-432 | over any sequence of transactions, refused and rejected ones and deposits included, the wei at the end plus what was burned is the wei at the start plus what was minted, and the cache is empty in between |
| OpSettlement.NothingMinted | crates/op-revm/src/handler.rs:100-432 | nothing is minted over any sequence without deposits and special bytes |
| OpSettlement.ChargedOwnFee | crates/op-revm/src/l1block.rs:260-311 | whatever one transaction leaves, the next is charged its own L1 fee |
| Payments.OptimismOnJournal | crates/op-revm/src/handler.rs:100-368 | charging on the journal, authorizations and loads, any run of frames and paying out on the journal leaves the journal showing the ledger of the settlement, with what the settlement takes the execution to keep proved of the run |
| Payments.FailedDepositOnJournal | crates/op-revm/src/handler.rs:370-432 | what the settlement takes a failed deposit to leave is what the journal shows once the error is caught |
| OpBlocks.SettledSince | crates/op-revm/src/handler.rs:100-368 | charging a deposit, its run and its reimbursement can be taken back as a whole |
| OpBlocks.OpStep | crates/op-revm/src/handler.rs:77-432 | one transaction on the journal, rejected, refused, failed or settled and committed, accounts for all wei and the next one can begin |
| OpBlocks.OptimismSequence | crates/op-revm/src/handler.rs:77-432 | over any sequence of transactions on one journal, deposits included, with the commits in between, the wei shown at the end is the wei shown at the start plus what was minted less what was burned, lost or held by destroyed accounts |
| OpHandler.OpHandler.CalculateTxL1Cost | crates/op-revm/src/l1block.rs:294-311 | answers from the cache or the fork's formula and caches the latter |
| OpHandler.OpHandler.AdditionalCost | crates/op-revm/src/l1block.rs:280-291 | L1 fee plus, from Isthmus, operator fee of the limit, saturating |
| OpHandler.OpHandler.Validate | crates/op-revm/src/handler.rs:77-98 | accepts exactly what covers its initial and floor gas and is no system deposit after Regolith, or no other transaction that fails a check |
| OpHandler.OpHandler.DeductCaller | crates/op-revm/src/handler.rs:100-175 | a deposit is minted and charged as far as it can pay; otherwise the L1 attributes of another block are reloaded and the caller charged or refused |
| OpHandler.OpHandler.DeductDeposit | crates/op-revm/src/handler.rs:107-138 | the mint comes first, then the effective spending, saturating |
| OpHandler.OpHandler.LastFrameResult | crates/op-revm/src/handler.rs:177-241 | the whole limit is spent and what an ok or reverted frame left is given back; before Regolith a deposit gets nothing back unless it is a successful system one |
| OpHandler.OpHandler.RefundAndFloor | crates/op-revm/src/handler.rs:263-285 | adds the authorization refund, caps it except for a deposit before Regolith, and enforces the floor |
| OpHandler.OpHandler.ReimburseCaller | crates/op-revm/src/handler.rs:243-261 | unused gas and, except for a deposit, the operator refund go to the caller |
| OpHandler.OpHandler.PayVaults | crates/op-revm/src/handler.rs:287-337 | the loop over recipients credits the three vaults after the beneficiary |
| OpHandler.OpHandler.Settle | crates/op-revm/src/handler.rs:243-337 | after a deposit only the caller is credited, otherwise caller, beneficiary and vaults in this order |
| OpHandler.OpHandler.Run | crates/op-revm/src/handler.rs:77-432 | validation and the steps in place, with a rejected or halted deposit taken back to its mint, are one transaction of the specification |
| OpHandler.OpHandler.CatchError | crates/op-revm/src/handler.rs:370-432 | a failed deposit leaves its mint over the ledger before it, any other error leaves the ledger |
| OpHandler.OpHandler.RunAll | crates/op-revm/src/handler.rs:77-432 | any number of transactions in place account for all wei and leave the cache empty |
| Transaction.StagesSince | crates/handler/src/handler.rs:144-234 | charging, authorizations of accounts without code, any execution, finished or not, and settling can be taken back, in any order and number |
| Transaction.CommitView | crates/context/src/journal/inner.rs:99-127 | the next transaction sees what this one leaves, all accounts cold but the warm ones and without marks; accounts that this one destroyed are empty and their slots unknown |
| Transaction.NextRead | crates/context/src/journal/inner.rs:749-797 | the first read of any slot in the next transaction answers what this one left, and for an unknown slot zero on a created account and the database's value on any other |
| Transaction.DestroyedSlot | crates/context/src/journal/inner.rs:683-797 | a slot of a destroyed account reads zero in the next transaction if and only if the account is marked created or the database holds zero |
| Witnesses.DestroyedSlotReturns | crates/context/src/journal/inner.rs:683-797 | a contract of the database that destroyed itself is empty in the next transaction and its slot still reads 42 |
| Transaction.EmptyBegins | crates/context/src/journal/inner.rs:67-85 | a new journal is where a transaction can begin |
| Transaction.CommitBegins | crates/context/src/journal/inner.rs:99-127 | after a commit the next transaction begins where every result about a single one asks it to |
| Transaction.DiscardRestores | crates/context/src/journal/inner.rs:130-154 | in every transaction of a journal, discarding at any stage leaves every account as before, and the next transaction can begin |
| Transaction.TransactionsBegin | crates/context/src/journal/inner.rs:99-154 | after any number of committed and discarded transactions the next one begins in order, with the number of those before it |
| Deposit.FailedDeposit | crates/op-revm/src/handler.rs:370-432 | in every transaction of a journal and at whatever stage the error arises, every account ends with its balance, nonce, code and storage from before, plus one nonce and the mint for the caller; the next transaction can begin, and the gas reported is the limit, or zero for a system transaction before Regolith |
| Deposit.CaughtDeposit | crates/op-revm/src/handler.rs:370-432 | the same whatever part of the transaction came before the error, from any journal that can be taken back |
| Deposit.OtherErrorLeaves | crates/op-revm/src/handler.rs:370-432 | any other error leaves the journal as it was when it arose, in the same transaction, with the undo log that still reaches the world before |
| Deposit.OtherErrorKeeps | crates/op-revm/src/handler.rs:370-432 | a nonce bumped before such an error stays visible |
| Eip7702.ApplyAt | crates/handler/src/pre_execution.rs:276-323 | authorities do not influence each other |
| Eip7702.Authorize | crates/handler/src/pre_execution.rs:231-262 | the checks and effects of one recovered authorization, counting its refund |
| Eip7702.ApplyList | crates/handler/src/pre_execution.rs:276-328 | the sequential loop computes the list in order and refunds per authority that existed |
| Eip7702.ArrivalOrder | crates/handler/src/pre_execution.rs:209-235 | the messages of the workers arrive in some order of the list |
| Eip7702.ApplyParallel | crates/handler/src/pre_execution.rs:207-275 | the parallel form is the list in arrival order, and the sequential result for a steady list |
| Eip7702.SteadyInAnyOrder | crates/handler/src/pre_execution.rs:207-328 | a list that is steady gives the same accounts and refunds in every order |
| Eip7702.OrderMatters | crates/handler/src/pre_execution.rs:207-328 | all orders give one result if and only if, for every authority, it holds a contract, or nothing matches its nonce, or what matches names one target and nothing waits for the next nonce |
| Witnesses.SuccessiveNonces | crates/handler/src/pre_execution.rs:207-328 | two authorizations of one authority with successive nonces both fire in one order and only one in the other |
| Eip7702.DistinctIsSteady | crates/handler/src/pre_execution.rs:207-328 | pairwise distinct authorities are enough |
| CacheDb.LoadUnseen | crates/database/src/in_memory_db.rs:155-168 | loading an account is invisible if and only if it was cached or the database holds no storage for an account it does not know |
| CacheDb.FillUnseen | crates/database/src/in_memory_db.rs:236-315 | a mutating read answers as its non-mutating form and changes no read |
| CacheDb.ReadsAreTransparent | crates/database/src/in_memory_db.rs:233-364 | any sequence of mutating reads leaves the answer to every later read unchanged |
| CacheDb.CommitReplays | crates/database/src/in_memory_db.rs:195-231 | committing a change to an account is the plain replay if and only if touching an account cached as not existing brings no slot back from the database |
| Witnesses.SlotReturns | crates/database/src/in_memory_db.rs:195-231 | an account destroyed by one commit and touched by the next shows the slot of the database again |
| CacheDb.CommitsReplay | crates/database/src/in_memory_db.rs:195-231 | after any sequence of commits every account and slot reads as in the plain replay |
| CacheDb.CodeReadBack | crates/database/src/in_memory_db.rs:118-133 | where hashes stand for their code, all code that a commit brings can be read back by its hash and nothing read before changes |
| CacheDb.FlattenAt | crates/database/src/in_memory_db.rs:78-96 | per account: flattened and nested read the same if and only if the inner entry is covered |
| CacheDb.FlattenSame | crates/database/src/in_memory_db.rs:78-96 | flattened and nested answer every read alike if and only if every account is covered |
| Witnesses.SlotDropped | crates/database/src/in_memory_db.rs:78-96 | a slot that only the inner cache holds is forgotten under an outer account that asks below |
| CacheDb.CacheDB.Basic | crates/database/src/in_memory_db.rs:236-250 | fills the cache and answers, in place |
| CacheDb.CacheDB.Storage | crates/database/src/in_memory_db.rs:265-304 | fills account and slot and answers, in place |
| CacheDb.CacheDB.CodeByHash | crates/database/src/in_memory_db.rs:252-260 | fills the contracts and answers, in place |
| CacheDb.CacheDB.BlockHash | crates/database/src/in_memory_db.rs:306-315 | fills the block hashes and answers, in place |
| CacheDb.CacheDB.InsertContract | crates/database/src/in_memory_db.rs:118-133 | keeps carried code under its hash unless the hash is taken, and makes good a missing or zero hash |
| CacheDb.CacheDB.CommitChange | crates/database/src/in_memory_db.rs:197-229 | one change: skipped if untouched, emptied if destroyed, otherwise info, state and storage as replayed |
| CacheDb.CacheDB.Commit | crates/database/src/in_memory_db.rs:196-230 | in whatever order the changes come, each touched account is committed once with its code kept under its hash, and no other account or code changes |
| Bal.GetLinear | crates/state/src/bal/writes.rs:41-51 | the linear search returns what stands before the first write at or above the index, which in a sorted list is the last write below it |
| Bal.Get | crates/state/src/bal/writes.rs:54-68 | in a sorted list the last write below an index that does not occur twice; in any list the last write of all if every index is below; and always one of the writes |
| Bal.BinarySearch | crates/state/src/bal/writes.rs:59-65 | the halving ends within the list, at a write with the index or, in a sorted list, where one would go |
| Bal.PopulateInfo | crates/state/src/bal/account.rs:173-189 | each field is the one before or one of its writes, for every list; the last write if none lies above all the last ones |
| Bal.SortedIsTidy | crates/state/src/bal/writes.rs:18-21 | in lists that are sorted, as the constructor leaves them, no write lies above all the last ones |
| Bal.LatestSlots | crates/librocksdb/src/store.rs:477-493 | only written slots, each with its last write |
| Bal.LatestAccount | crates/librocksdb/src/store.rs:444-497 | what is returned for one address: the last write of each slot, and no info for an account that became empty |
| Bal.CodeReadBack | crates/librocksdb/src/store.rs:455-460 | where hashes stand for their code, all code that a list brings can be read back and what was there stays |
| Bal.BatchesApply | crates/librocksdb/src/store.rs:503-510 | the batches written to the database do what the returned diff says, deletions included |
| Bal.Store.CommitBalChanges | crates/librocksdb/src/store.rs:426-512 | for every access list, in order or not: the returned diff and the database after the commit say the same of every account and slot, and the code table holds the last code of every account; the diff holds the last writes if no write lies above all the last ones |
| Bal.LayersAgree | crates/flatdb/src/mtcache.rs:118-184 | for any sequence of commits, reading through the returned diffs, newest first, over the database before is reading the database after |
| MtCache.EntriesNeverChange | crates/flatdb/src/mtcache.rs:118-208 | in every interleaving a shared entry never changes once written, and every answer agrees with it |
| MtCache.ReadersAgree | crates/flatdb/src/mtcache.rs:118-208 | all completed reads of a key return the same value, whatever the database handles answered |
| MtCache.ReadersSeeSnapshot | crates/flatdb/src/mtcache.rs:118-208 | if all handles see one snapshot, every completed read returns its value |
| MtCache.ReadersSeeLatest | crates/flatdb/src/mtcache.rs:118-208 | readers over the database before a run of blocks, with the blocks' diffs in memory, see in every interleaving what the database after the blocks holds |
| Ledger.SupplyIncr | crates/context/src/journal/inner.rs:293-302 | a credit adds exactly its amount to the wei in the ledger while the supply stays in range |
| Ledger.SupplyMonotone | crates/context/src/journal/inner.rs:293-302 | smaller balances make a smaller supply, and an equal one only if all are equal |
| Ledger.SupplyCredited | crates/context/src/journal/inner.rs:293-302 | any sequence of credits adds exactly its sum while the supply stays in range |

## Left out

- FastLz.FlzCompressLen: does not cover inputs whose all-literal cost exceeds 32 bits (about 4 GiB); the source computes their length modulo 2^32.
- JournalOps.SetCodeUndoes: code set over other code is the matter of `JournalRuns.DelegationTakenBack`, which says when it is taken back.
- Journal: the journal, its accounts and gas are values that each step replaces; aliasing of mutable account references is not captured. `ExecLoop.Evm` holds the journal in a field and reassigns it.
- FrameRuns.FrameReturns: takes all wei together to be below 2^256, without which a transfer can overflow (`JournalRuns.FailedTransferRestored`), and the run to be sound, see above.
- Frames: opcode bodies, the value stack, return data and memory contents; the script chooses costs, outputs, created addresses and which code is a delegation. Fatal errors of database and precompiles end a run early and are covered as prefixes of scripts.
- Inspect.InspectLoopSame: hooks run around each effect, not each instruction; inspectors that answer in place of a frame or rewrite more than the gas of failed outcomes change the run and are not covered. The inspector and the inspected loop are modelled on values, without update in place.
- Settlement.MainnetConserves: what the execution loses is given; `Payments.MainnetOnJournal` and `Blocks.MainnetSequence` take it from a run of frames.
- Settlement: modelled on values on mainnet; the in-place form is given for Optimism. The `disable_*` switches are off; nonce and code validation only accept or refuse and are left out.
- OpSettlement: the decoding of L1 attributes from storage slots; a reload yields any attributes with an empty cache. The estimated compressed size is an input, see `FastLz`. A deposit whose spending does not fit 256 bits, on which the source panics, is refused; an operator fee field that is missing from Isthmus on, on which it panics too, counts as zero.
- OpHandler.OpHandler.DeductCaller: works on balances; the nonce bump is part of `Payments.Debited`, and a refusal for nonce or code is a rejected item.
- OpHandler.OpHandler.DeductDeposit: works on balances; the nonce bump is part of `Payments.Debited`.
- OpHandler.OpHandler.Run: takes the execution from its item; `OpBlocks` takes it from a run of frames.
- OpHandler.OpHandler.RunAll: as `Run`, for every item of the sequence.
- Blocks.MainnetSequence: goes on after a refused transaction, as repeated single transactions do; `transact_many` stops there, with finished transactions that are such a sequence, and finalizes the journal.
- OpBlocks.OpRun: a refused transaction other than a deposit is discarded, as the handler's documentation asks; the handler itself leaves that to its user.
- OpSettlement.OptimismConserves: takes the additional cost not to saturate, refunds not to be negative (`Settlement.FinalRefundExact`) and the supply with what is minted to stay below 2^256.
- Transaction.StagesSince: an authorization of an account that already has code cannot be taken back, see `JournalRuns.DelegationTakenBack`; which authorizations pass is the matter of `Eip7702`.
- Eip7702: signature recovery is a given answer; accounts are reduced to the fields the checks read. Thread scheduling is reduced to the order of arrival.
- Bal.Get: of a list out of order with five writes or more, some at or above the index, it only says that the answer is one of the writes; the library search that the source calls promises no more.
- Bal.PopulateInfo: of lists that are not tidy it only says that each field is one of its writes or kept, for the same reason.
- Bal.Store: encodings of keys and values in RocksDB are left out.
- MtCache: inserting the inner map of an address and its slot are one step; modelled as a state machine on values. Lock contention and memory layout are left out.
- The rest of the repository: opcode tables, transaction builders, precompiles other than BLAKE2, tracers, MDBX and RPC databases, command-line tools; they would add accessors and case tables.

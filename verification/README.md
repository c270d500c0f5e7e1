# mega-evm resource limits: a verified model

A Dafny model of the parts of `crates/mega-evm` that meter, restrict and combine the effects of
transactions: the multi-dimensional resource limits of a transaction, gas detention and volatile
access scoping, the inspection of the journal, the merge of states, 98/100 gas forwarding, and the
limits of a block. `dafny verify dfyconfig.toml` checks all of it.

Code of the source that changes an object in place is a class here, and each of its methods is
proved equal to a function on the object's abstract value (`View()`). The theorems are about those
functions, over whole runs.

| file | modules | source |
|---|---|---|
| Prelude.dfy | Prelude, LimitTypes | u64 arithmetic, spec versions, limit checks |
| FrameState.dfy, FrameLimit.dfy, FrameRuns.dfy | FrameState, FrameLimit, FrameRuns | limit/frame_limit.rs |
| TrackerState.dfy, Trackers.dfy | TrackerState, Trackers | limit/kv_update.rs, data_size.rs, state_growth.rs, compute_gas.rs |
| LimitState.dfy, AdditionalLimit.dfy | LimitState, AdditionalLimits | limit/limit.rs |
| ExecutionState.dfy, Execution.dfy | ExecutionState, Execution | evm/execution.rs and the opcode wrappers of evm/instructions.rs |
| ExecutionShape.dfy, GasRescue.dfy, ExecutionBudgets.dfy, TripRescue.dfy, QuietReturns.dfy, FrameEnds.dfy, TransactionUsage.dfy, Violations.dfy | the same names | theorems about whole transactions |
| SstoreAccounting.dfy, SstoreReads.dfy | SstoreAccounting, SstoreReads | storage accounting against the journal, and the read of the SSTORE wrapper in evm/instructions.rs |
| Detention.dfy, DetentionInLoop.dfy | Detention, DetentionInLoop | limit/compute_gas.rs with the raw cap of access/tracker.rs, and its runs inside the execution loop |
| VolatileAccess.dfy | VolatileState, VolatileAccess, VolatileScoping | access/tracker.rs |
| Accounts.dfy, JournalInspection.dfy | Accounts, JournalState, JournalInspection | evm/host.rs |
| StateMerge.dfy | MergeState, StateMerge | evm/state.rs |
| GasForwarding.dfy | GasForwarding | forward_gas_ext in evm/instructions.rs |
| BlockLimiter.dfy, BlockExecutor.dfy | BlockState, BlockLimiting, BlockRuns, BlockExecution | block/limit.rs, block/executor.rs |

## What is assumed of revm

The interpreter, the journal and the fee handling belong to revm and are not part of this model.
They enter as data of events, chosen freely within these rules: an instruction spends at most the
gas of its frame; a call or create opcode has charged the gas it forwards; a result has at most the
gas its frame had; a halted child returns no gas to its parent, a reverted or successful one all it
has left; at the end the whole gas limit is spent and the gas of an ok or reverted result returned.
A frame opens a journal checkpoint that is committed or restored when it ends.

Limits are u64. Tracker counters are natural numbers, and `FrameRuns.CountersFitU64` says when no
counter of the source overflows; the counters of the block limiter wrap around as the source's do in
a release build. The journal's answer whether a call's target is empty, the target's code, the result
of frame processing and the result of an intercepted call are parameters.

## What the proofs found

- When a call opcode's own compute gas trips a limit, the gas it was about to forward is gone: it was
  charged first, and the halt replaces the pending frame (`evm/instructions.rs:316-325`, 1340-1366).
  In every other case a first violation has all live gas rescued (`TripRescue.TripRescuesExactly`).
  That is about violations the trackers see in frames; the keyless-deploy interceptor, which is left
  out, records compute gas of its own and answers with all gas spent when that trips
  (`sandbox/execution.rs:155-182`).
- `frame_init` consults the interceptors before the limits (`evm/execution.rs:618-630`): a first frame
  intercepted while the intrinsic usage already violates a limit is not rescued, and its result is
  marked out of gas afterwards, so the whole gas limit is charged (`GasRescue.TrippedFirstFrame`).
- Some volatile accesses only mark: a transaction the beneficiary sends or receives, calls to it, and
  SELFBALANCE in its code. Nothing is detained until a later wrapped opcode applies the raw cap, from
  the usage then; before Rex4 that application may find the cap exceeded already.
- The comment at `limit/limit.rs:511-513` that a frame return is not where a transaction-level
  violation is first seen holds in every reachable state (`ExecutionBudgets.FrameReturnNeverTripsFirst`),
  and such a return sees no frame-local one first either (`QuietReturns.ReturnsAreQuiet`). The duplicate
  return of the top-level frame may be the first to latch one, without effect on result or gas.
- Storage accounting and the journal part ways in two places. One is a create that is committed and
  whose deposit then trips a limit; it is the only frame that ends differently for the two
  (`FrameEnds.FramesEndAlike`), and the accounting is right again exactly when it had not changed the
  number of dirty slots. The other is SSTORE before REX4 in the storage of an account that delegates
  (EIP-7702): the wrapper reads original and present value with `inspect_storage`, which looks at the
  slot of the account the delegation ends at. A slot set and cleared stays charged, one written twice
  is charged twice, and one whose counterpart the delegate wrote before is written for free.
  `SstoreAccounting.UsageCountsDirtySlotsExactly` has the condition over both.
- Before REX4 `inspect_storage` follows a delegation but reads the database at the original address,
  and puts the value where a second walk ends. When the database returns accounts without their code,
  a delegation is missed by the first inspection of an account and seen by the second, so that may be
  another account. The final lookup cannot fail for all that.
- Merging states is not associative when the last state destroyed an account that the first one
  holds with storage, nor, in general, when the last state uses an account the middle one destroyed;
  `MergeState.MergeAssociates` has the exact condition.
- With the default, unlimited block limits the sum in the gas check wraps around.
- The comment of `limit/state_growth.rs:278-279` says that refunds of a failed frame are propagated; the
  code discards them with the frame, and so does the model. The documentation of
  `block_txs_data_limit` (`block/limit.rs:288-297`) says that a transaction that would exceed the
  limit is rejected; the code admits the transaction that crosses it and rejects the next.

## Model

| member | source | states |
|---|---|---|
| FrameLimit.FrameLimitTracker.MaxForwardLimit | crates/mega-evm/src/limit/frame_limit.rs:106-116 | the transaction limit without a frame; else exactly the largest integer not above 98 hundredths of what the counters of the current frame leave of its limit; the u128 to u64 narrowing loses no bit |
| FrameLimit.FrameLimitTracker.PushFrame | crates/mega-evm/src/limit/frame_limit.rs:118-120 | the new entry gets the forwardable budget and starts empty; nothing else changes |
| FrameLimit.FrameLimitTracker.PopFrame | crates/mega-evm/src/limit/frame_limit.rs:126-145 | persistent usage always moves to the parent (or the transaction entry), discardable usage and refund only on success; an empty stack is a no-op that returns None |
| FrameLimit.FrameLimitTracker.NetUsage | crates/mega-evm/src/limit/frame_limit.rs:186-194 | the loop computes the total used minus the total refund over the transaction entry and all frames, clamped at zero |
| FrameLimit.FrameLimitTracker.ExceedsCurrentFrameLimit | crates/mega-evm/src/limit/frame_limit.rs:149-161 | reports the current frame exactly when its clamped net usage exceeds its limit |
| FrameLimit.FrameLimitTracker.Reset | crates/mega-evm/src/limit/frame_limit.rs:85-90 | an empty stack over an empty transaction entry with the same limit |
| FrameRuns.FailedChildLeavesOnlyPersistentUsage | crates/mega-evm/src/limit/frame_limit.rs:126-145 | any balanced sub-run inside a child, of any depth, that ends with the child failing leaves the tracker as if only its persistent amounts had been recorded directly |
| FrameRuns.FailedChildIsUndone | crates/mega-evm/src/limit/data_size.rs:192-236 | without persistent records (data size, KV updates, state growth) the failure of a child restores every ancestor entry and the transaction entry exactly |
| FrameRuns.CommittedChildIsMerged | crates/mega-evm/src/limit/kv_update.rs:146-190 | the success of a child merges all it holds into its parent, and the totals of use and refund do not move |
| FrameRuns.PersistentUsageIsNeverLost | crates/mega-evm/src/limit/compute_gas.rs:122-128 | over any mix of pushes and successful or failed pops the total is the sum of all persistent records since the reset |
| FrameRuns.CountersFitU64 | crates/mega-evm/src/limit/frame_limit.rs:69-71 | while what is held and what the run records add up to a u64, no counter of any entry and no sum of the usage loop overflows |
| FrameRuns.BudgetsDecay | crates/mega-evm/src/limit/frame_limit.rs:106-120 | the frame at nesting index k has limit * 100^k <= tx_limit * 98^k in every reachable stack |
| FrameRuns.PushedLimit | crates/mega-evm/src/limit/frame_limit.rs:118-120 | a pushed frame has nothing recorded and a limit of 98 hundredths of what its parent has left, rounded down |
| FrameRuns.BudgetsDecayNoFaster | crates/mega-evm/src/limit/frame_limit.rs:106-120 | in every stack reached without recording anything, the frame at index k has (2 * limit + 99) * 100^k >= (2 * tx_limit + 99) * 98^k |
| FrameRuns.NestedUsage | crates/mega-evm/src/limit/frame_limit.rs:149-161 | when every ancestor respects its budget and the current frame is within its limit, the usage of the whole stack is at most the usage before the first frame plus the transaction limit |
| Trackers.KVUpdateTracker.CheckLimit | crates/mega-evm/src/limit/kv_update.rs:96-112 | the current frame against its budget from Rex4 on, the transaction usage against the transaction limit before |
| Trackers.KVUpdateTracker.BeforeTxStart | crates/mega-evm/src/limit/kv_update.rs:121-131 | the intrinsic amounts land in the transaction entry; the loop over authorizations counts the recovered authorities |
| Trackers.KVUpdateTracker.BeforeFrameInit | crates/mega-evm/src/limit/kv_update.rs:146-190 | the frame pushed for a call or create and the account updates charged to it, including that of a parent not yet updated |
| Trackers.KVUpdateTracker.AfterFrameInitOnFrame | crates/mega-evm/src/limit/kv_update.rs:195-206 | a created account gets its address and is charged to the new frame |
| Trackers.KVUpdateTracker.AfterSstore | crates/mega-evm/src/limit/kv_update.rs:222-230 | charge, refund or nothing by original, present and new value; exactly the current frame changes |
| Trackers.DataSizeTracker.CheckLimit | crates/mega-evm/src/limit/data_size.rs:125-141 | the current frame against its budget from Rex4 on, the transaction usage against the transaction limit before |
| Trackers.DataSizeTracker.BeforeTxStart | crates/mega-evm/src/limit/data_size.rs:153-173 | the intrinsic amounts land in the transaction entry; the loop over authorizations counts the recovered authorities |
| Trackers.DataSizeTracker.BeforeFrameInit | crates/mega-evm/src/limit/data_size.rs:192-236 | the frame pushed for a call or create and the account updates charged to it, including that of a parent not yet updated |
| Trackers.DataSizeTracker.AfterFrameInitOnFrame | crates/mega-evm/src/limit/data_size.rs:241-252 | a created account gets its address and is charged to the new frame |
| Trackers.DataSizeTracker.AfterFrameRun | crates/mega-evm/src/limit/data_size.rs:257-268 | a create frame is charged the length of its output |
| Trackers.DataSizeTracker.AfterSstore | crates/mega-evm/src/limit/data_size.rs:290-300 | charge, refund or nothing by original, present and new value; exactly the current frame changes |
| Trackers.DataSizeTracker.AfterLog | crates/mega-evm/src/limit/data_size.rs:305-308 | 32 bytes per topic and the data, dropped with the frame |
| Trackers.StateGrowthTracker.CheckLimit | crates/mega-evm/src/limit/state_growth.rs:164-182 | the current frame against its budget from Rex4 on, the transaction usage against the transaction limit before |
| Trackers.StateGrowthTracker.BeforeFrameInit | crates/mega-evm/src/limit/state_growth.rs:203-228 | a create, and a call that transfers value to an empty account, grow the state by one |
| Trackers.StateGrowthTracker.AfterSstore | crates/mega-evm/src/limit/state_growth.rs:251-271 | zero to non-zero of an originally zero slot grows the state, and back is refunded |
| Trackers.ComputeGasTracker.CheckLimit | crates/mega-evm/src/limit/compute_gas.rs:166-191 | a Rex4 frame over its budget is reported as frame-local first, then usage above the lower of transaction and detained limit as transaction-level |
| Trackers.ComputeGasTracker.SetDetainedLimit | crates/mega-evm/src/limit/compute_gas.rs:71-80 | the limit is lowered to the cap, counted from the current usage in Rex4; it is never raised |
| Trackers.ComputeGasTracker.CurrentCallRemaining | crates/mega-evm/src/limit/compute_gas.rs:96-103 | the remainder of the transaction and, in Rex4, of the current frame, whichever is less |
| Trackers.ComputeGasTracker.Reset | crates/mega-evm/src/limit/compute_gas.rs:146-153 | usage is cleared; the detained limit is restored from Rex1 on and kept before |
| Trackers.ComputeGasTracker.BeforeFrameReturnResult | crates/mega-evm/src/limit/compute_gas.rs:214-217 | the frame of the returning call is popped, its persistent gas kept |
| AdditionalLimits.AdditionalLimit.CheckLimit | crates/mega-evm/src/limit/limit.rs:237-272 | latches the first violation in the order data size, KV updates, compute gas, state growth, and keeps a latched one |
| AdditionalLimits.AdditionalLimit.TryRescueGas | crates/mega-evm/src/limit/limit.rs:303-318 | the gas is added to the rescued gas for a transaction-level violation and for no other |
| AdditionalLimits.AdditionalLimit.BeforeTxStart | crates/mega-evm/src/limit/limit.rs:322-328 | intrinsic amounts and check |
| AdditionalLimits.AdditionalLimit.BeforeFrameInit | crates/mega-evm/src/limit/limit.rs:332-364 | all four trackers push; an init over a limit is turned away with its whole gas, which is rescued when the violation is transaction-level |
| AdditionalLimits.AdditionalLimit.PushEmptyFrame | crates/mega-evm/src/limit/limit.rs:171-176 | an intercepted call pushes one empty frame on every tracker |
| AdditionalLimits.AdditionalLimit.AfterFrameRunInstructions | crates/mega-evm/src/limit/limit.rs:434-469 | a create frame is charged for its output and marked when a limit is exceeded then |
| AdditionalLimits.AdditionalLimit.AfterFrameRun | crates/mega-evm/src/limit/limit.rs:411-430 | the compute gas of frame processing is recorded, the result marked, its remaining gas rescued |
| AdditionalLimits.AdditionalLimit.BeforeFrameReturnResult | crates/mega-evm/src/limit/limit.rs:473-521 | all trackers pop with the original outcome, then the check; a frame-local violation is absorbed into a revert, any other marks the result out of gas, and a duplicate return marks nothing |
| AdditionalLimits.AdditionalLimit.OnSstore | crates/mega-evm/src/limit/limit.rs:525-536 | the three storage trackers and the check |
| ExecutionShape.StepKeepsShape | crates/mega-evm/src/evm/execution.rs:568-726 | every step of the execution loop keeps the four tracker stacks as high as the frame stack (one more for a frame that never ran), and keeps the latch in line with the phase |
| ExecutionShape.HooksKeepTheLatch | crates/mega-evm/src/limit/limit.rs:237-272 | no hook but a frame return drops a recorded violation |
| ExecutionShape.FrameReturnLatch | crates/mega-evm/src/limit/limit.rs:473-521 | a frame return keeps a transaction-level violation and marks every non-duplicate result OutOfGas, and leaves no frame-local violation behind |
| ExecutionShape.DuplicateReturnIsHarmless | crates/mega-evm/src/limit/limit.rs:481-496 | the second return of the top-level frame changes neither result, usage nor rescued gas: the frame is merged once |
| ExecutionShape.ReturnAligns | crates/mega-evm/src/limit/limit.rs:481-496 | a frame return pops exactly one entry of every tracker, or none of any when there is none |
| GasRescue.GasIsConserved | crates/mega-evm/src/evm/execution.rs:568-726 | over every run, gas unspent in frames and results, rescued, burnt and forfeited adds up to the gas of the first frame |
| GasRescue.RescueIsExact | crates/mega-evm/src/limit/limit.rs:303-318 | from any state with a latched transaction-level violation and any number of live frames, unwinding adds exactly the unspent gas of all frames and of the result in flight to the rescued gas, and the charge is the gas limit minus the rescued gas |
| GasRescue.UnwindingCompletes | crates/mega-evm/src/evm/execution.rs:655-726 | every state with a latched transaction-level violation, whatever frames are live, has a run of the loop to the end of the transaction |
| GasRescue.TrippedRun | crates/mega-evm/src/evm/execution.rs:392-419 | once such a violation is latched nothing more is burnt or forfeited and the latch stays to the end of the transaction |
| GasRescue.StepRescuesOnlyWhenTripped | crates/mega-evm/src/limit/limit.rs:313-318 | no step rescues gas unless a transaction-level violation is latched |
| TripRescue.TripRescuesExactly | crates/mega-evm/src/limit/limit.rs:303-318 | whatever step first sees a transaction-level violation, at the end the rescued gas is the gas of all frames and results before it, less what the step charges, and less the gas a call opcode forwarded if and only if that opcode's own compute gas trips; a child turned away counts once; the charge is the gas limit less the rescued gas |
| TripRescue.FirstTripOfTransaction | crates/mega-evm/src/evm/execution.rs:392-419 | the same for the first violation of any transaction, from its start to its end |
| GasRescue.TrippedFirstFrame | crates/mega-evm/src/evm/execution.rs:618-650 | under a violation latched before the first frame, an intercepted first frame loses the whole gas limit; a rejected one has all of it rescued |
| GasRescue.TransactionCharge | crates/mega-evm/src/evm/execution.rs:392-419 | every complete transaction is charged its initial gas plus what was burnt and forfeited |
| ExecutionBudgets.Rex4BudgetsHold | crates/mega-evm/src/limit/frame_limit.rs:106-161 | over every Rex4 transaction: all ancestors of the current frame are within their limits, budgets decay by 98/100, and while the current frame is within its limit usage is at most pre-frame usage plus the transaction limit (data size, KV updates, state growth) |
| ExecutionBudgets.FrameReturnNeverTripsFirst | crates/mega-evm/src/limit/limit.rs:505-521 | in every reachable state the check at the return of a frame that awaits it (all but the duplicate return of the top-level frame) finds no transaction-level violation that was not latched before |
| QuietReturns.QuietReturn | crates/mega-evm/src/limit/limit.rs:473-521 | with no violation latched, the check at a frame return finds none of either kind: the trackers are popped, the latch and the result stay |
| QuietReturns.ReturnsAreQuiet | crates/mega-evm/src/limit/limit.rs:496-512 | over every transaction, a frame that ends with no violation latched is reported as it ended; no child the journal committed is then turned into a revert |
| ExecutionBudgets.ReachableStatesKeepBudgets | crates/mega-evm/src/limit/limit.rs:386-404 | a frame over its limit is never popped as a success, in every reachable state, Rex4 or earlier |
| TransactionUsage.UsageIsMetered | crates/mega-evm/src/limit/limit.rs:156-163 | in every reachable state of every transaction KV updates, data size and state growth are what a ledger of the events says in literal numbers: intrinsic amounts; per frame that did not fail one update for the callee of a transfer, one for the caller of a transfer or create whose own frame is not paid for, one for a created account; storage charges and refunds; 40 bytes per update, 32 per log topic, log and code bytes; growth per slot and account |
| TransactionUsage.AccountsFollow | crates/mega-evm/src/limit/kv_update.rs:146-190 | the account updates of a frame init in units, and whether the new frame counts as paid for |
| TransactionUsage.DataIsFortyPerUpdate | crates/mega-evm/src/limit/data_size.rs:192-236 | without logs and created code, data size beyond its start is 40 bytes per KV update beyond its start |
| TransactionUsage.TargetsAreRecorded | crates/mega-evm/src/limit/kv_update.rs:195-206 | a call frame records its target, a create frame the address it is given; before Rex4 frames are unlimited |
| TransactionUsage.ComputeIsTimed | crates/mega-evm/src/limit/compute_gas.rs:122-128 | in every reachable state compute usage is the intrinsic gas plus all gas recorded, and the detained limit is where it started lowered by every volatile opcode not aborted and every oracle call |
| TransactionUsage.VolatileOpcodeDetains | crates/mega-evm/src/evm/instructions.rs:736-749 | in every transaction, after a volatile opcode not aborted by a transaction-level trip, the detained limit is at most usage then plus the cap (Rex4) or the cap (before) |
| DetentionInLoop.TransactionsSimulate | crates/mega-evm/src/evm/execution.rs:568-726 | every run of the execution loop runs the compute gas tracker as a run of gas records, opened and closed frames, marked accesses and applied caps |
| DetentionInLoop.DetainedIsLeastOverTransaction | crates/mega-evm/src/limit/compute_gas.rs:71-80 | over every transaction the detained limit is the least of its start and the reach of every application, oracle calls included |
| Violations.ReportsInRex4 | crates/mega-evm/src/limit/limit.rs:237-272 | what a check reports from Rex4 on, on counters: the current frame in the order data size, KV updates, compute gas, then the compute gas of the transaction, then state growth, with limit, use and level |
| Violations.ReportsBeforeRex4 | crates/mega-evm/src/limit/limit.rs:237-272 | what a check reports before Rex4: the usage of the transaction, in that order |
| Violations.StartsUnused | crates/mega-evm/src/limit/limit.rs:103-113 | new and reset limits have their own transaction limits, nothing used, latched or rescued |
| Violations.TurnedAwayExactly | crates/mega-evm/src/limit/limit.rs:332-364 | a call or create is turned away if and only if a violation is latched after the pushes, as reverted or out of gas, with all its gas, rescued for a transaction-level violation |
| Violations.OutputMarks | crates/mega-evm/src/limit/limit.rs:434-469 | a create frame is marked after its instructions if and only if a violation is found with its output |
| Violations.ProcessingMarks | crates/mega-evm/src/limit/limit.rs:411-430 | after processing a result is marked if and only if a violation is found with the gas taken, which rescues its gas at transaction level |
| Violations.ReturnMarks | crates/mega-evm/src/limit/limit.rs:473-521 | a returning result is marked by what the check after the pops finds, a frame-local violation is dropped, a duplicate return marks nothing |
| Violations.EntersExactly | crates/mega-evm/src/evm/execution.rs:132-146 | a frame runs if and only if nothing is latched after the check at its head |
| Violations.ExecutesExactly | crates/mega-evm/src/evm/instructions.rs:316-325 | an opcode spends its cost and the frame goes on if and only if nothing is latched after it |
| Violations.ReturnHandsGas | crates/mega-evm/src/evm/execution.rs:696-726 | the parent gets the gas of a result if and only if it is ok or reverted once marked |
| Violations.ConclusionCharges | crates/mega-evm/src/evm/execution.rs:392-419 | the gas limit less what an ok or reverted result has left and less the rescued gas is charged |
| Execution.MegaEvm.FrameInit | crates/mega-evm/src/evm/execution.rs:568-650 | oracle detention before Rex3, interception with an empty push, rejection by the limits, or the frame: new limits, result and frame stack as in the step relation |
| Execution.MegaEvm.EnterFrame | crates/mega-evm/src/evm/execution.rs:132-146 | a frame that already exceeds a limit stops before it runs |
| Execution.MegaEvm.FinishFrame | crates/mega-evm/src/evm/execution.rs:160-207 | storage gas of a deposit, the hooks around frame processing and the resulting result, as in the step relation |
| Execution.MegaEvm.FrameReturnResult | crates/mega-evm/src/evm/execution.rs:696-726 | hook, pop of the frame stack, and return of gas to the parent for ok and reverted results |
| Execution.MegaEvm.LastFrameResult | crates/mega-evm/src/evm/execution.rs:392-419 | the duplicate hook, the final spending, and the rescued gas given back |
| Detention.RemainingIsExact | crates/mega-evm/src/limit/compute_gas.rs:96-103 | from a state within limit, g more compute gas stays within limit if and only if g is at most the reported remainder, with or without a frame, in every spec |
| Detention.DetainedIsLeastReach | crates/mega-evm/src/limit/compute_gas.rs:71-80 | over every run, from any state and with accesses that only mark, the detained limit is the least of where it started and, per application, usage then plus the raw cap then held (Rex4) or that cap (before) |
| Detention.ReapplyingIsNoOp | crates/mega-evm/src/evm/instructions.rs:736-749 | once applied, a raw cap that no access lowered since is re-applied without effect, after any gas, calls and returns |
| Detention.AppliedAccessBinds | crates/mega-evm/src/evm/instructions.rs:736-749 | from the first application after an access on, usage within limit is at most the limit of the access beyond the usage at the application (Rex4), or at most that limit (before) |
| Detention.AccessBindsExactly | crates/mega-evm/src/evm/instructions.rs:766-778 | usage is held to the limit of an access beyond the usage at the access exactly when the transaction was held to it already, or at some later application the gas since the access plus the raw cap was no more than that limit (any application before Rex4), or the transaction limit is exceeded anyway |
| Detention.BoundByTxLimit | crates/mega-evm/src/limit/compute_gas.rs:166-191 | no continuation within limit uses more than a bound if and only if the lower of transaction and detained limit is at most the bound, or is exceeded already |
| Detention.MarkedSenderRunsFree | crates/mega-evm/src/evm/context.rs:509-525 | a transaction sent or received by the beneficiary is marked, not detained: it may use more than the cap; the next application lowers the limit to usage plus cap (Rex4), or to the cap, exceeded at once (before) |
| Detention.RawCapIsLeast | crates/mega-evm/src/access/tracker.rs:160-168 | the raw cap is the least of the one held at the start and the limits marked |
| Detention.CapsCommuteBeforeRex4 | crates/mega-evm/src/access/tracker.rs:160-168 | before Rex4 an application leaves the least of the starting limit and the caps marked, so two runs with the same caps, in any order and number, end with the same detained limit |
| Detention.UsageIsRecordedGas | crates/mega-evm/src/limit/compute_gas.rs:122-128 | usage grows by exactly the recorded amounts, whatever frames opened and failed, and so never falls |
| Detention.ResetOfDetention | crates/mega-evm/src/evm/context.rs:545-555 | marked at its start or not, a transaction from Rex1 on starts undetained; before, the last transaction's detention stays and no run gets above it |
| SstoreAccounting.UsageFollowsReads | crates/mega-evm/src/evm/instructions.rs:1005-1028 | over every run, whatever frames and journal do, usage is that of the same run without storage writes plus 1 KV update, 40 bytes and (for slots read as zero) 1 unit of growth per the sum of the rule over the values read, clamped at zero, while the number of dirty slots is the sum over the values that were there |
| SstoreAccounting.UsageCountsDirtySlotsExactly | crates/mega-evm/src/limit/kv_update.rs:222-230 | over every run, usage counts the dirty slots if and only if the rule sums to the same over what was read and what was there, for all slots and for zero ones (or the clamp hides a surplus of refunds where nothing is dirty and nothing else was used) |
| SstoreAccounting.UsageCountsDirtySlots | crates/mega-evm/src/limit/data_size.rs:290-300 | from Rex4 on, and before for writes of accounts that do not delegate, over every run whose frames end alike for trackers and journal, usage is that of the same run without storage writes plus 1 KV update and 40 bytes per slot whose present value differs from the original, and 1 unit of growth per such slot that was zero |
| SstoreAccounting.ClearedSlotStaysCharged | crates/mega-evm/src/evm/host.rs:391-431 | before Rex4, a slot of a delegating account set and cleared again is charged with no slot dirty |
| SstoreAccounting.RewrittenSlotIsChargedTwice | crates/mega-evm/src/evm/host.rs:391-431 | before Rex4, a slot of a delegating account written twice is charged twice |
| SstoreAccounting.DelegatedWriteIsFree | crates/mega-evm/src/evm/host.rs:391-431 | before Rex4, after the delegate wrote its own slot, the same slot of the delegating account is written without charge |
| SstoreReads.ReadForSstore | crates/mega-evm/src/evm/instructions.rs:1005-1025 | the values the wrapper reads through the inspection of the journal are those the accounting takes it to read, and the journals go on representing each other; before Rex4 with a database that returns accounts with their code |
| FrameEnds.DisagreementIsTrippedDeposit | crates/mega-evm/src/limit/limit.rs:411-430 | what the journal drops the trackers drop; what the journal commits they drop exactly when it is a create whose deposit then trips the compute gas |
| FrameEnds.FramesEndAlike | crates/mega-evm/src/evm/execution.rs:655-694 | over every transaction, a frame ends differently for trackers and journal if and only if it is such a create |
| SstoreAccounting.DirtyAfterWrite | crates/mega-evm/src/limit/data_size.rs:290-300 | the EIP-2200 rule, applied to the original and present value the journal holds, changes the number of dirty slots by exactly what it charges or refunds |
| SstoreAccounting.DisagreementIsExact | crates/mega-evm/src/limit/kv_update.rs:209-212 | when a frame ends differently for trackers and journal, the counts of KV updates and data size stay right if and only if the frame left the number of dirty slots unchanged, and that of state growth if and only if it left the number of dirty slots that were zero unchanged |
| SstoreAccounting.CommittedCreateGoesUncounted | crates/mega-evm/src/limit/limit.rs:411-430 | a create committed by the journal whose deposit then trips a limit leaves a dirty slot nobody is charged for |
| SstoreAccounting.RefundMayExceedUse | crates/mega-evm/src/limit/frame_limit.rs:63-66 | a child that restores what its parent wrote has negative net usage |
| VolatileAccess.VolatileDataAccessTracker.ApplyOrCreateLimit | crates/mega-evm/src/access/tracker.rs:160-168 | the cap becomes the minimum of the old cap, if any, and the new one |
| VolatileAccess.VolatileDataAccessTracker.DisableAccess | crates/mega-evm/src/access/tracker.rs:178-183 | keeps the shallower depth |
| VolatileAccess.VolatileDataAccessTracker.EnableAccess | crates/mega-evm/src/access/tracker.rs:196-205 | clears the depth and succeeds unless a strictly shallower depth disabled access |
| VolatileAccess.VolatileDataAccessTracker.EnableAccessIfReturning | crates/mega-evm/src/access/tracker.rs:213-217 | clears a depth that is deeper than the current one |
| VolatileScoping.DepthRefinesFlags | crates/mega-evm/src/access/tracker.rs:178-217 | over every run of calls, returns, refused calls, disables, enables, queries and accesses, the optional depth gives the answers of a stack of per-frame flags |
| VolatileScoping.DisabledExactlyInScope | crates/mega-evm/src/evm/execution.rs:715-723 | access is disabled exactly when some frame from the root to the current one has its flag set, and enabling succeeds exactly when no strict ancestor has |
| VolatileScoping.CallLeavesScope | crates/mega-evm/src/evm/execution.rs:715-723 | after a completed call of any depth and outcome the scope is what it was before |
| VolatileScoping.DisabledSubtreeRecords | crates/mega-evm/src/evm/instructions.rs:766-774 | below a frame where access is disabled nothing is recorded and no cap changes, but for the beneficiary's balance if and only if its own code reads it with SELFBALANCE, which is not guarded |
| VolatileScoping.RunsKeepLeastCap | crates/mega-evm/src/access/tracker.rs:124-168 | the raw cap is the least limit of the kinds of access recorded, and absent exactly when none is |
| VolatileScoping.CapByKinds | crates/mega-evm/src/access/tracker.rs:124-168 | over any run from a reset tracker the raw cap is the oracle limit, the block environment limit, or the lower of the two, by what kinds were accessed |
| JournalInspection.Journal.InspectAccount | crates/mega-evm/src/evm/host.rs:313-339 | loads missing code of a journaled account or caches a missing one as cold; an error leaves the journal as it was |
| JournalInspection.Journal.InspectAccountDelegated | crates/mega-evm/src/evm/host.rs:344-389 | one hop from REX4 on; before, the end of the delegation chain; nothing observable or warm changes |
| JournalInspection.Journal.FollowDelegation | crates/mega-evm/src/evm/host.rs:366-388 | the walk ends on every delegation graph, cyclic and self-looping ones included, at the reference result |
| JournalInspection.Journal.InspectStorage | crates/mega-evm/src/evm/host.rs:391-431 | from REX4 on the slot is what the journal, else the database, says, nothing observable changes, and it fails exactly when code or slot cannot be loaded; before, a slot found at the end of the delegation is returned, else the database value of the address itself is cached where a second walk ends, which is invisible if and only if that slot had this value and was not warm; the lookup never panics |
| JournalInspection.SecondWalk | crates/mega-evm/src/evm/host.rs:408-427 | what the second walk sees is what the first saw, but for the true delegation of the account that one ended at; it ends there again if that account was journaled |
| JournalInspection.WalksAgree | crates/mega-evm/src/evm/host.rs:408-427 | with a database that returns accounts with their code both walks end at the same account |
| JournalInspection.SecondWalkMayGoOn | crates/mega-evm/src/evm/host.rs:420-429 | without, the second walk may go on and the value is cached in another account |
| JournalState.ResolvedExactly | crates/mega-evm/src/evm/host.rs:366-388 | the result is the last address of the longest repetition-free prefix of a, d(a), d(d(a)), ..., of which there is exactly one, or the error of loading it |
| JournalState.OneHopAgrees | crates/mega-evm/src/evm/host.rs:361-364 | the REX4 rule and the walk agree if and only if the chain has at most one hop, not counting a hop back into it |
| JournalState.OneHopExactly | crates/mega-evm/src/evm/host.rs:361-364 | from REX4 on the result is the delegate of an account that delegates, the account itself else, or the error of the first that cannot be loaded |
| JournalState.SeenIsDelegation | crates/mega-evm/src/evm/host.rs:350-353 | an inspection sees an account's delegation unless the account is new to the journal and the database returned it without its code |
| JournalState.InspectionIsInvisible | crates/mega-evm/src/evm/host.rs:313-339 | an inspection changes the meaning of no account and no slot, and warms nothing |
| JournalState.InspectedExactly | crates/mega-evm/src/evm/host.rs:313-339 | an inspection touches its own account only, adds missing code to a journaled one, and caches a new one cold with exactly the info of the database, or as not existing |
| JournalState.InsertionIsInvisible | crates/mega-evm/src/evm/host.rs:416-430 | caching a cold slot is invisible if and only if the journal, else the database, has that value there and the slot is not warm |
| JournalInspection.InspectionsAreInvisible | crates/mega-evm/src/evm/host.rs:391-431 | any sequence of REX4 inspections, failing ones included, leaves accounts, slots and warmth as they were |
| JournalInspection.InspectingTwiceMayDiffer | crates/mega-evm/src/evm/host.rs:350-358 | with a database that returns accounts without code, a second inspection follows a delegation the first one missed |
| StateMerge.EvmState.Merge | crates/mega-evm/src/evm/state.rs:66-125 | the loop over the accounts of the other state, in any order, gives the account-by-account merge |
| StateMerge.EvmState.MergeAt | crates/mega-evm/src/evm/state.rs:67-125 | one account: emptied, inserted cold without local flags, or overlaid |
| StateMerge.MergeAccountStatus | crates/mega-evm/src/evm/state.rs:147-165 | flags are added except the cold and transaction-local ones; the coldness of the base account stays |
| StateMerge.MergeEvmStorage | crates/mega-evm/src/evm/state.rs:170-186 | the loop over slots, in any order, gives the slot-by-slot overlay |
| MergeState.MergeAssociates | crates/mega-evm/src/evm/state.rs:66-186 | for all three states merging is associative if and only if it is so at each account: always where the last state has nothing, or where nothing is destroyed; else when the account the first state holds is clean, or what was destroyed does not show through an account created anew, or what would be lost was blank |
| MergeState.AccountAssociates | crates/mega-evm/src/evm/state.rs:133-186 | the same for one account, with all cases of being absent, destroyed, recreated or merely used |
| MergeState.MergeAssociatesUndestroyed | crates/mega-evm/src/evm/state.rs:66-186 | for a middle state without destroyed accounts, associative if and only if no account the last state destroyed is held by the first with storage or flags the destruction would erase; always so when the last state destroys nothing |
| MergeState.DestroyedInTheMiddle | crates/mega-evm/src/evm/state.rs:68-99 | an account destroyed by the middle state and used by the last one comes out differently for the two groupings |
| MergeState.ColdnessIsPreserved | crates/mega-evm/src/evm/state.rs:52-56 | accounts and slots of the base keep their coldness, new ones are cold |
| MergeState.FlagsOfMerged | crates/mega-evm/src/evm/state.rs:147-165 | flag by flag: a merged account has CreatedLocal and SelfDestructedLocal only from the base, Touched, Created and LoadedAsNotExisting from either side, SelfDestructed from the base unless it is created anew, Cold from the base or for being new |
| MergeState.DestroyedIsEmpty | crates/mega-evm/src/evm/state.rs:68-99 | an account the transaction destroyed is left empty and touched with its coldness; an account the transaction does not know is left alone |
| MergeState.LatestPresentEarliestOriginal | crates/mega-evm/src/evm/state.rs:133-186 | the later info and present values win, the earlier original values stay, and no slot is lost |
| GasForwarding.Interpreter.WrapGasCap | crates/mega-evm/src/evm/instructions.rs:583-646 | parent and child share the same gas as before, the stipend is kept, the child gets no more than before, and less only so far as to leave the parent exactly floor(2 * total / 100); u128 to u64 loses nothing |
| GasForwarding.Interpreter.Forward | crates/mega-evm/src/evm/instructions.rs:666-671 | the wrapped opcode: what was asked for, up to 98/100 of the gas, plus the stipend |
| GasForwarding.TightensOne64th | crates/mega-evm/src/evm/instructions.rs:598-604 | the cap never allows more than all but one 64th |
| GasForwarding.NestedGasDecays | crates/mega-evm/src/evm/instructions.rs:598-604 | n nested calls with a stipend of at most s each: (g_n - c) * 50^n <= 49^n * (g_0 - c) with c = 49 + 50 s |
| GasForwarding.WithoutTransfers | crates/mega-evm/src/evm/instructions.rs:598-604 | without transfers the gas n levels down is at most 0.98^n * g_0 + 49 |
| BlockLimiting.BlockLimiter.PreExecutionCheck | crates/mega-evm/src/block/limit.rs:777-900 | passes if and only if all ten conditions hold; an error names a violated condition and all conditions the source checks earlier hold |
| BlockLimiting.BlockLimiter.PostExecutionUpdateRaw | crates/mega-evm/src/block/limit.rs:972-1011 | every counter grows by the amount of the transaction, data availability only for non-deposits, with u64 wrap-around |
| BlockLimiting.BlockLimiter.IsBlockLimitReached | crates/mega-evm/src/block/limit.rs:1014-1022 | true exactly when some counter has reached its limit |
| BlockExecution.MegaBlockExecutor.RunTransaction | crates/mega-evm/src/block/executor.rs:339-383 | the check decides, and nothing changes |
| BlockExecution.MegaBlockExecutor.CommitTransactionOutcome | crates/mega-evm/src/block/executor.rs:408-471 | the second check, then counters and a receipt with the cumulative gas; a rejected commit changes nothing |
| BlockExecution.MegaBlockExecutor.ExecuteWithCommitCondition | crates/mega-evm/src/block/executor.rs:529-541 | run and commit in one go: the second check cannot fail |
| BlockExecution.MegaBlockExecutor.FinishBlock | crates/mega-evm/src/block/executor.rs:546-561 | the cumulative gas of the last receipt, or zero |
| BlockRuns.BlocksAreSound | crates/mega-evm/src/block/limit.rs:777-1011 | over every interleaving of runs and commits, accepted or rejected, the block is sound at every point if and only if each accepted commit carries no counter past 64 bits and either its gas check did not wrap and spoke for its gas, or its gas fits; sound: counters are sums of what was committed; gas, size and non-deposit data availability are within limits; data, KV updates, compute gas and state growth were strictly below theirs before the last commit; receipts are cumulative |
| BlockRuns.CommitIsSound | crates/mega-evm/src/block/limit.rs:972-1011 | an accepted commit keeps the block sound if and only if it is bounded in that sense |
| BlockRuns.CountersOfSoundBlock | crates/mega-evm/src/block/limit.rs:972-1011 | the seven counters of a sound block one by one are the sums of gas used, sizes, non-deposit data availability, data, updates, compute gas and growth of what was committed, with their bounds |
| BlockRuns.AdmittedExactly | crates/mega-evm/src/block/limit.rs:777-900 | while no sum wraps, a transaction is let in if and only if it keeps to the transaction limits, the block has room for its declared gas and sizes, and no other block limit is reached |
| BlockRuns.RoomyLimitsSuffice | crates/mega-evm/src/block/limit.rs:800-853 | when the limit of the block plus that of a transaction fits 64 bits for gas, size and data availability, these are exact sums within their limits after every run, with no condition on commits but gas used being at most gas declared |
| BlockRuns.RoomyFinish | crates/mega-evm/src/block/executor.rs:546-561 | under such limits a block reports the gas it committed |
| BlockRuns.FinishReportsCommittedGas | crates/mega-evm/src/block/executor.rs:546-560 | a block reports the sum of the gas it committed, within the limit, and the available gas of an error never underflows |
| BlockRuns.ReachedLimitClosesTheBlock | crates/mega-evm/src/block/limit.rs:855-897 | once one of the four limits only execution reveals is reached, no later event changes the block |
| BlockRuns.RunIsNoPromise | crates/mega-evm/src/block/executor.rs:418-427 | a transaction admitted by its run is turned away at its commit when another commit used up the gas |
| BlockRuns.WrappingIsUnsound | crates/mega-evm/src/block/limit.rs:972-1011 | a commit that carries a counter past 64 bits always breaks those sums |
| BlockRuns.UnlimitedBlockWraps | crates/mega-evm/src/block/limit.rs:800-808 | with the default unlimited limits a block that used all gas admits one more transaction and then reports none |

## Left out

- ExecutionBudgets.Rex4BudgetsHold: the usage bound is for data size, KV updates and state growth; compute gas counts usage of failed frames too and is bounded at transaction level instead.
- SstoreAccounting.UsageCountsDirtySlots: assumes that each frame ends alike for trackers and journal, that every write is counted and, before REX4, that the writing accounts do not delegate; SstoreAccounting.UsageCountsDirtySlotsExactly needs none of it. Where delegations end is fixed for a run: code does not change under a delegation within a transaction.
- SstoreReads.ReadForSstore: before REX4 with a database that returns accounts with their code; without, the second walk of the inspection may end elsewhere (JournalInspection.SecondWalkMayGoOn) and cache there. A slot of an account created in the transaction has the database's value, which is zero.
- GasRescue.RescueIsExact: the out-of-gas result that `before_execution` makes up when the initial gas exceeds the gas limit is not modelled; no frame is opened then.
- TripRescue.TripRescuesExactly: covers the steps of the modelled loop; compute gas an interceptor records itself (keyless deploy) is not modelled, and its halt spends the gas of the intercepted frame unrescued. Which error a transaction reports is not modelled.
- JournalInspection.Journal.InspectAccount: the database answers as a function of the key; an error that comes and goes between two reads is not modelled.
- MergeState.MergeAssociates: the transaction ids of accounts and slots are not modelled.
- GasForwarding.Interpreter.Forward: models the opcode when it asks for a frame; when the wrapped opcode fails, the source returns before the cap. The MINI_REX table does not wrap CALLCODE, DELEGATECALL and STATICCALL at all, so nested calls through them are not bounded there.
- VolatileScoping.DisabledSubtreeRecords: of the opcodes that reach the beneficiary's account, SELFBALANCE in its own code is the one left unguarded; which opcode is guarded in which spec is a table of the source.
- JournalState.InspectionIsInvisible: warmth is that of journal entries. Addresses revm preloads as warm without an entry (precompiles, coinbase) are not modelled; a cold entry inserted for one of them may make it cold.
- Execution before MINI_REX: the hooks are switched off there.
- Inspector variants of frame_init and frame_run, errors of the database during a hook, error texts, revert data and output bytes.
- System contract interceptors and the sandbox: an interception is an empty push and a result.
- Opcode tables, precompiles, the SALT gas multiplier, limit builders, hardfork selection.
- State hooks, system calls and receipts of the block executor beyond the cumulative gas.
- The mega-evme command line, the state-test runner, benches and scripts.

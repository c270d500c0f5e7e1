/**
  Violations in plain numbers: what a check reports, what the hooks make of it, and what the execution
  loop does with gas, stated on counters and without the functions the hooks are defined by.
 */
module Violations {
  import opened Prelude
  import opened LimitTypes
  import opened FrameState
  import opened TrackerState
  import opened LimitState
  import opened ExecutionState
  import opened ExecutionShape

  /** A frame has used more than its limit, net of refunds. */
  predicate Over<I>(t: Tracker<I>) {
    t.stack != [] && var e := t.stack[|t.stack| - 1]; e.persistent + e.discardable - e.refund > e.limit
  }

  /** A transaction has used more than its limit. */
  predicate TxOver<I>(t: Tracker<I>) {
    NetUsage(t) > t.tx.limit
  }

  function FrameReport<I>(t: Tracker<I>, kind: LimitKind): LimitCheck
    requires t.stack != []
  {
    var e := t.stack[|t.stack| - 1];
    ExceedsLimit(kind, e.limit, e.persistent + e.discardable, true)
  }

  /** The compute limit of the transaction is the lower of its own and the detained one. */
  function ComputeLimit(c: ComputeState): nat {
    if c.detained < c.frames.tx.limit then c.detained else c.frames.tx.limit
  }

  /**
    From Rex4 on a check looks at the current frame, in the order data size, KV updates, compute gas,
    state growth, and between the last two at the compute gas of the transaction, the one violation
    that is not frame-local.
   */
  lemma ReportsInRex4(l: Limits)
    requires l.latch.WithinLimit? && l.spec.IsEnabled(Rex4)
    ensures var latch := Checked(l).latch;
            && (Over(l.data) ==> latch == FrameReport(l.data, DataSize))
            && (!Over(l.data) && Over(l.kv) ==> latch == FrameReport(l.kv, KVUpdate))
            && (!Over(l.data) && !Over(l.kv) ==>
                  && (Over(l.compute.frames) ==> latch == FrameReport(l.compute.frames, ComputeGas))
                  && (!Over(l.compute.frames) && NetUsage(l.compute.frames) > ComputeLimit(l.compute) ==>
                        latch == ExceedsLimit(ComputeGas, ComputeLimit(l.compute), NetUsage(l.compute.frames), false))
                  && (!Over(l.compute.frames) && NetUsage(l.compute.frames) <= ComputeLimit(l.compute) ==>
                        latch == if Over(l.growth) then FrameReport(l.growth, StateGrowth) else WithinLimit))
  {
    hide NetUsage;
  }

  /** Before Rex4 it looks at the usage of the transaction, in the same order, and no violation is frame-local. */
  lemma ReportsBeforeRex4(l: Limits)
    requires l.latch.WithinLimit? && !l.spec.IsEnabled(Rex4)
    ensures var latch := Checked(l).latch;
            && (TxOver(l.data) ==> latch == ExceedsLimit(DataSize, l.data.tx.limit, NetUsage(l.data), false))
            && (!TxOver(l.data) && TxOver(l.kv) ==> latch == ExceedsLimit(KVUpdate, l.kv.tx.limit, NetUsage(l.kv), false))
            && (!TxOver(l.data) && !TxOver(l.kv) ==>
                  && (NetUsage(l.compute.frames) > ComputeLimit(l.compute) ==>
                        latch == ExceedsLimit(ComputeGas, ComputeLimit(l.compute), NetUsage(l.compute.frames), false))
                  && (NetUsage(l.compute.frames) <= ComputeLimit(l.compute) ==>
                        latch == if TxOver(l.growth) then ExceedsLimit(StateGrowth, l.growth.tx.limit, NetUsage(l.growth), false)
                                 else WithinLimit))
  {
    hide NetUsage;
  }

  /** The limits start, and start over with every transaction, with their own transaction limits and nothing used, latched or rescued. */
  lemma StartsUnused(l: Limits, spec: MegaSpecId, limits: TxLimits)
    ensures var first, again := NewLimits(spec, limits), ResetLimits(l);
            && first.spec == spec && again.spec == l.spec
            && first.latch == again.latch == WithinLimit && first.rescued == again.rescued == 0
            && first.data == Tracker(Entry(limits.dataSize, 0, 0, 0, ()), [])
            && first.kv == Tracker(Entry(limits.kvUpdates, 0, 0, 0, ()), [])
            && first.growth == Tracker(Entry(limits.stateGrowth, 0, 0, 0, ()), [])
            && first.compute == Compute(Tracker(Entry(limits.computeGas, 0, 0, 0, ()), []), limits.computeGas)
            && again.data == Tracker(Entry(l.data.tx.limit, 0, 0, 0, ()), [])
            && again.kv == Tracker(Entry(l.kv.tx.limit, 0, 0, 0, ()), [])
            && again.growth == Tracker(Entry(l.growth.tx.limit, 0, 0, 0, ()), [])
            && again.compute.frames == Tracker(Entry(l.compute.frames.tx.limit, 0, 0, 0, ()), [])
  {
  }

  /** A check that finds a violation latched looks no further. */
  lemma LatchedStays(l: Limits)
    requires l.latch.ExceedsLimit?
    ensures Checked(l) == l
  {
  }

  /** How a frame stopped by a violation ends: reverted by one of its own, out of gas by one of the transaction. */
  function StatusFor(latch: LimitCheck): Status
    requires latch.ExceedsLimit?
  {
    if latch.frameLocal then Revert else OutOfGas
  }

  /**
    A call or create is turned away exactly when a violation is latched once its frame is pushed: with
    all its gas, and all of that rescued when the violation is the transaction's.
   */
  lemma TurnedAwayExactly(l: Limits, input: FrameInput, gas: nat)
    ensures var latch := Checked(FramesPushed(l, input)).latch;
            && (latch.WithinLimit? <==> Rejection(l, input, gas).None?)
            && AtFrameInit(l, input, gas).latch == latch
            && (latch.ExceedsLimit? ==>
                  && Rejection(l, input, gas) == Some(FrameResult(StatusFor(latch), gas, input.Create?))
                  && AtFrameInit(l, input, gas).rescued == l.rescued + if latch.frameLocal then 0 else gas)
            && (latch.WithinLimit? ==> AtFrameInit(l, input, gas).rescued == l.rescued)
  {
    hide FirstExceeded, AccountUpdatesOnFrameInit, GrowthOnFrameInit, PushFor;
  }

  /** After its instructions a create frame is marked exactly when its output is found to be too much, or something was before. */
  lemma OutputMarks(l: Limits, outputLength: nat, status: Status)
    ensures var latch := Checked(l.(data := AddDiscardable(l.data, outputLength))).latch;
            StatusAfterInstructions(l, true, outputLength, status) == if latch.ExceedsLimit? then StatusFor(latch) else status
    ensures StatusAfterInstructions(l, false, outputLength, status) == status
  {
    hide FirstExceeded, AddDiscardable;
  }

  /** After processing a result is marked exactly when a violation is found by then, and its gas is rescued when it is the transaction's. */
  lemma ProcessingMarks(l: Limits, result: FrameResult, gasBefore: nat)
    ensures var taken := if result.gas < gasBefore then gasBefore - result.gas else 0;
            var latch := Checked(l.(compute := RecordGas(l.compute, taken))).latch;
            && ResultAfterFrame(l, result, gasBefore)
               == (if latch.ExceedsLimit? then result.(status := StatusFor(latch)) else result)
            && (latch.ExceedsLimit? && !latch.frameLocal ==>
                  AfterFrame(l, result, gasBefore).rescued == l.rescued + result.gas)
  {
    hide FirstExceeded, RecordGas;
  }

  /** A returning result: the trackers pop as it ended, then it is marked by what the check finds, unless it is the duplicate one. */
  lemma ReturnMarks(l: Limits, lastFrame: bool, result: FrameResult)
    ensures var latch := Checked(FramesPopped(l, result.status == Success)).latch;
            var marked := ResultAtFrameReturn(l, lastFrame, result);
            && (lastFrame && l.data.stack == [] ==> marked == result && AtFrameReturn(l, lastFrame, result).latch == latch)
            && (!(lastFrame && l.data.stack == []) ==>
                  && marked == (if latch.ExceedsLimit? then result.(status := StatusFor(latch)) else result)
                  && AtFrameReturn(l, lastFrame, result).latch
                     == (if latch.ExceedsLimit? && latch.frameLocal then WithinLimit else latch))
  {
    hide FirstExceeded, Pop;
  }

  // ---------------------------------------------------------------------------------------------
  // Steps of the loop
  // ---------------------------------------------------------------------------------------------

  /** A frame runs exactly when nothing is latched after the check at its head. */
  lemma EntersExactly(s: Evm)
    requires s.phase.Entering? && s.frames != []
    ensures var latch := Checked(s.limits).latch;
            Step(s, Enter).phase == if latch.ExceedsLimit? then Stopped(StatusFor(latch)) else Executing
    ensures Step(s, Enter).frames == s.frames
  {
    hide FirstExceeded;
  }

  /** An opcode spends its cost, and the frame goes on exactly when nothing is latched after it. */
  lemma ExecutesExactly(s: Evm, cost: nat, instruction: Instruction)
    requires Enabled(s, Execute(cost, instruction))
    ensures var next := Step(s, Execute(cost, instruction));
            var n := |s.frames| - 1;
            && next.frames == s.frames[n := EvmFrame(s.frames[n].gas - cost, s.frames[n].isCreate)]
            && next.phase == (if next.limits.latch.ExceedsLimit? then Stopped(StatusFor(next.limits.latch)) else Executing)
  {
    hide FirstExceeded, Executed;
  }

  /** A returned result gives its gas to the parent exactly when it is ok or reverted once it is marked. */
  lemma ReturnHandsGas(s: Evm)
    requires Enabled(s, ReturnFrame)
    ensures var left := if s.phase.live then s.frames[..|s.frames| - 1] else s.frames;
            var marked := ResultAtFrameReturn(s.limits, false, s.phase.result);
            var next, n := Step(s, ReturnFrame), |left| - 1;
            && (left == [] ==> next.frames == [] && next.phase == Ending(marked, true))
            && (left != [] ==>
                  && next.phase == Entering
                  && next.frames == (if marked.status == Success || marked.status == Revert
                                     then left[n := EvmFrame(left[n].gas + marked.gas, left[n].isCreate)] else left))
  {
    hide FirstExceeded, AtFrameReturn, ResultAtFrameReturn;
  }

  /** At the end the whole gas limit is charged, less what an ok or reverted result has left and less what was rescued. */
  lemma ConclusionCharges(s: Evm)
    requires Enabled(s, Conclude)
    ensures var marked := ResultAtFrameReturn(s.limits, true, s.phase.result);
            Step(s, Conclude).phase
            == Done(s.gasLimit - (if marked.status == Success || marked.status == Revert then marked.gas else 0) - s.limits.rescued)
  {
    hide FirstExceeded;
  }
}

/**
  Frame returns without a violation: the check at a frame return (limit/limit.rs) finds nothing that
  an earlier check had not found, of either kind, so the result a frame ended with is the result its
  parent sees.
 */
module QuietReturns {
  import opened Prelude
  import opened LimitTypes
  import opened FrameState
  import opened FrameRuns
  import opened TrackerState
  import opened LimitState
  import opened ExecutionState
  import opened ExecutionShape
  import opened ExecutionBudgets

  /** Compute gas frames are within their budgets, the current one perhaps excepted. */
  ghost predicate ComputeNested(l: Limits) {
    l.spec.IsEnabled(Rex4) ==> Nested(l.compute.frames)
  }

  predicate ComputeWithin(l: Limits) {
    l.spec.IsEnabled(Rex4) ==> FrameWithin(l.compute.frames)
  }

  ghost predicate Quiet(s: Evm) {
    && ComputeNested(s.limits)
    && (s.phase.Executing? ==> ComputeWithin(s.limits))
    && (AwaitsReturn(s) && s.limits.latch.WithinLimit? ==> FramesWithin(s.limits) && ComputeWithin(s.limits))
  }

  // ---------------------------------------------------------------------------------------------
  // The hooks
  // ---------------------------------------------------------------------------------------------

  lemma CheckFindsFrames(l: Limits)
    ensures Checked(l).latch.WithinLimit? ==> FramesWithin(l) && ComputeWithin(l)
    ensures l.latch.WithinLimit? && FramesWithin(l) && ComputeWithin(l) && TxWithin(l) ==> Checked(l) == l
  {
    hide NetUsage;
  }

  lemma RecordNests<I>(t: Tracker<I>, n: nat)
    requires Nested(t)
    ensures Nested(AddPersistent(t, n))
  {
  }

  lemma PopNests<I>(t: Tracker<I>, ok: bool)
    requires Nested(t) && t.stack != []
    ensures Nested(Pop(t, ok))
    ensures OnlyPersistent(t) && FrameWithin(t) ==> FrameWithin(Pop(t, ok))
  {
    var n := |t.stack|;
    if n > 1 {
      assert t.stack[n - 2].Within() && t.stack[n - 2 + 1].limit <= t.stack[n - 2].Remaining();
    }
    if OnlyPersistent(t) && FrameWithin(t) {
      hide Total;
      NestedPop(t, true);
      PersistentTop(t);
      assert Merge(t.tx, Top(t), ok) == Merge(t.tx, Top(t), true);
    }
  }

  lemma PersistentTop<I>(t: Tracker<I>)
    requires OnlyPersistent(t) && t.stack != []
    ensures Top(t).discardable == 0 && Top(t).refund == 0
  {
    hide StackTotal;
    TotalWithTop(t, Top(t));
  }

  lemma ComputeRecordNests(l: Limits, gas: nat)
    requires ComputeNested(l)
    ensures ComputeNested(ComputeRecorded(l, gas))
    ensures ComputeRecorded(l, gas).latch.WithinLimit? ==>
              FramesWithin(ComputeRecorded(l, gas)) && ComputeWithin(ComputeRecorded(l, gas))
  {
    hide FirstExceeded, Nested, FrameWithin;
    if l.spec.IsEnabled(Rex4) {
      RecordNests(l.compute.frames, gas);
    }
    CheckFindsFrames(l.(compute := RecordGas(l.compute, gas)));
  }

  lemma RescueNests(l: Limits, gas: nat)
    requires ComputeNested(l)
    ensures ComputeNested(Rescued(l, gas))
    ensures Rescued(l, gas).latch.WithinLimit? ==> FramesWithin(Rescued(l, gas)) && ComputeWithin(Rescued(l, gas))
  {
    hide FirstExceeded, Nested, FrameWithin;
    CheckFindsFrames(l);
  }

  lemma PushNests(l: Limits, input: FrameInput)
    requires ComputeNested(l) && ComputeWithin(l)
    ensures ComputeNested(FramesPushed(l, input)) && ComputeNested(EmptyFramePushed(l))
    ensures FramesWithin(EmptyFramePushed(l)) && ComputeWithin(EmptyFramePushed(l))
  {
    hide AccountUpdatesOnFrameInit, GrowthOnFrameInit, Nested, MaxForwardLimit;
    if l.spec.IsEnabled(Rex4) {
      NestedPush(l.compute.frames, ());
    }
  }

  lemma InitIsQuiet(l: Limits, init: Init)
    requires ComputeNested(l) && ComputeWithin(l) && init.Legal(l.spec)
    ensures ComputeNested(InitLimits(l, init))
    ensures InitResult(l, init).Finished? && InitLimits(l, init).latch.WithinLimit? ==>
              FramesWithin(InitLimits(l, init)) && ComputeWithin(InitLimits(l, init))
  {
    hide FirstExceeded, FramesPushed, EmptyFramePushed, Nested, FrameWithin, FramesWithin, ComputeRecorded, Rescued, CreatedAccount;
    var d := InitDetained(l, init);
    DetainedKeeps(l, init);
    PushedKeeps(d, init.input);
    PushNests(d, init.input);
    if init.handling.Forwarded? {
      var c := FrameInitChecked(d, init.input);
      if c.latch.ExceedsLimit? {
        RescueNests(c, init.gas);
        RescueKeepsLatch(c, init.gas);
      } else if init.handling.inner.Immediate? {
        ComputeRecordNests(c, init.handling.inner.computeGas);
        RescueNests(ComputeRecorded(c, init.handling.inner.computeGas), init.handling.inner.gasLeft);
      }
    }
  }

  lemma RescueKeepsLatch(l: Limits, gas: nat)
    requires l.latch.ExceedsLimit?
    ensures Rescued(l, gas).latch == l.latch
  {
  }

  lemma ExecutedIsQuiet(l: Limits, instruction: Instruction)
    requires ComputeNested(l)
    ensures ComputeNested(Executed(l, instruction))
    ensures Executed(l, instruction).latch.WithinLimit? ==> ComputeWithin(Executed(l, instruction))
  {
    hide FirstExceeded, Nested, FrameWithin, FramesWithin, ComputeRecorded, SlotUpdate, GrowthOnSstore, LogEmitted;
    ComputeRecordNests(l, instruction.computeGas);
  }

  lemma FinishIsQuiet(l: Limits, isCreate: bool, outputLength: nat, result: FrameResult, gasBefore: nat)
    requires ComputeNested(l)
    ensures var next := AfterFrame(AfterInstructions(l, isCreate, outputLength), result, gasBefore);
            && ComputeNested(next)
            && (next.latch.WithinLimit? ==> FramesWithin(next) && ComputeWithin(next))
  {
    hide FirstExceeded, Nested, FrameWithin, FramesWithin, ComputeRecorded, Rescued;
    var a := AfterInstructions(l, isCreate, outputLength);
    ComputeRecordNests(a, SatSub(gasBefore, result.gas));
    RescueNests(ComputeRecorded(a, SatSub(gasBefore, result.gas)), result.gas);
  }

  lemma ReturnNests(l: Limits, lastFrame: bool, result: FrameResult)
    requires ComputeNested(l)
    ensures ComputeNested(AtFrameReturn(l, lastFrame, result))
  {
    hide FirstExceeded, Nested;
    if l.spec.IsEnabled(Rex4) && l.compute.frames.stack != [] {
      PopNests(l.compute.frames, result.status.IsOk());
    }
  }

  // ---------------------------------------------------------------------------------------------
  // Reachable states
  // ---------------------------------------------------------------------------------------------

  lemma CallOutIsQuiet(s: Evm, e: Event)
    requires Quiet(s) && Enabled(s, e) && e.CallOut?
    ensures Quiet(StepCallOut(s, e))
  {
    hide FirstExceeded, InitLimits, InitResult, ComputeRecorded, ComputeNested, FramesWithin, ComputeWithin;
    var limits := ComputeRecorded(s.limits, e.computeGas);
    ComputeRecordNests(s.limits, e.computeGas);
    if limits.latch.WithinLimit? {
      RecordKeepsSpec(s.limits, e.computeGas);
      InitIsQuiet(limits, e.init);
    }
  }

  lemma RecordKeepsSpec(l: Limits, gas: nat)
    ensures ComputeRecorded(l, gas).spec == l.spec
  {
    hide FirstExceeded;
  }

  lemma StepIsQuiet(s: Evm, e: Event)
    requires Shaped(s) && Quiet(s) && Enabled(s, e)
    ensures Quiet(Step(s, e))
  {
    hide FirstExceeded, InitLimits, InitResult, Executed, AfterFrame, AfterInstructions, AtFrameReturn, ResultAtFrameReturn,
         ResultAfterFrame, ProcessedResult, Nested, FrameWithin, FramesWithin;
    match e
    case Begin(init) =>
      StartingIsWithin(s);
      InitIsQuiet(s.limits, init);
    case Enter => CheckFindsFrames(s.limits);
    case Execute(_, instruction) => ExecutedIsQuiet(s.limits, instruction);
    case CallOut(_, _, _) => CallOutIsQuiet(s, e);
    case Stop(_, _, recorded) => if recorded.Some? { ExecutedIsQuiet(s.limits, Plain(recorded.value)); }
    case Finish(outputLength, _, _) =>
      FinishIsQuiet(s.limits, TopFrame(s).isCreate, outputLength, ProcessedResult(s.limits, TopFrame(s), s.phase.status, e),
                    DepositGas(TopFrame(s), s.phase.status, outputLength));
    case ReturnFrame => ReturnNests(s.limits, false, s.phase.result);
    case Conclude => ReturnNests(s.limits, true, s.phase.result);
  }

  lemma StartingIsWithin(s: Evm)
    requires Shaped(s) && s.phase.Starting?
    ensures ComputeWithin(s.limits)
  {
  }

  lemma {:induction false} ReachableStatesAreQuiet(s: Evm, events: seq<Event>)
    requires Shaped(s) && Quiet(s) && Runs(s, events)
    ensures Shaped(After(s, events)) && Quiet(After(s, events))
  {
    hide Step, Enabled, Shaped, Quiet;
    if events != [] {
      var before := events[..|events| - 1];
      ReachableStatesAreQuiet(s, before);
      StepKeepsShape(After(s, before), events[|events| - 1]);
      StepIsQuiet(After(s, before), events[|events| - 1]);
    }
  }

  lemma StartIsQuiet(l: Limits, tx: Transaction, initialComputeGas: nat, gasLimit: nat, initialGas: nat)
    requires initialGas <= gasLimit
    ensures Quiet(StartOf(l, tx, initialComputeGas, gasLimit, initialGas))
  {
    hide FirstExceeded;
    StartShape(l, tx, initialComputeGas, gasLimit, initialGas);
  }

  lemma PopIsWithin<I>(spec: MegaSpecId, t: Tracker<I>, tripped: bool, ok: bool)
    requires FramesOk(spec, t, tripped) && FrameUsageWithin(spec, t)
    ensures FrameUsageWithin(spec, Pop(t, ok))
  {
    if spec.IsEnabled(Rex4) && t.stack != [] {
      NestedPop(t, ok);
    }
  }

  lemma PoppedIsWithin(l: Limits, ok: bool)
    requires TrackersOk(l) && ComputeNested(l) && FramesWithin(l) && ComputeWithin(l)
    ensures FramesWithin(FramesPopped(l, ok)) && ComputeWithin(FramesPopped(l, ok))
  {
    hide FramesOk, OnlyPersistent, Decayed, Nested, FrameUsageWithin;
    PopIsWithin(l.spec, l.data, l.latch.IsTxLevel(), ok);
    PopIsWithin(l.spec, l.kv, l.latch.IsTxLevel(), ok);
    PopIsWithin(l.spec, l.growth, l.latch.IsTxLevel(), ok);
    if l.spec.IsEnabled(Rex4) && l.compute.frames.stack != [] {
      PopNests(l.compute.frames, ok);
    }
  }

  /** A frame that returns without a latched violation: the check finds none, of either kind, and the result stays. */
  lemma QuietReturn(s: Evm)
    requires Shaped(s) && BudgetsOk(s) && Quiet(s) && AwaitsReturn(s) && s.limits.latch.WithinLimit?
    ensures AtFrameReturn(s.limits, s.phase.Ending?, s.phase.result) == FramesPopped(s.limits, s.phase.result.status.IsOk())
    ensures ResultAtFrameReturn(s.limits, s.phase.Ending?, s.phase.result) == s.phase.result
  {
    hide FirstExceeded, TrackersOk, FramesWithin, ComputeWithin, ComputeNested, FramesPopped, TxWithin;
    var ok := s.phase.result.status.IsOk();
    PoppedTrackersOk(s.limits, ok, Height(s));
    PoppedKeeps(s.limits, ok);
    PoppedIsWithin(s.limits, ok);
    CheckFindsFrames(FramesPopped(s.limits, ok));
  }

  /**
    Over every transaction, a frame whose end left no violation latched returns what it ended with: no
    child the journal committed within its limits is reported as reverted or out of gas.
   */
  lemma ReturnsAreQuiet(l: Limits, tx: Transaction, initialComputeGas: nat, gasLimit: nat, initialGas: nat,
                        start: Evm, events: seq<Event>)
    requires initialGas <= gasLimit && start == StartOf(l, tx, initialComputeGas, gasLimit, initialGas)
    requires Runs(start, events)
    requires AwaitsReturn(After(start, events)) && After(start, events).limits.latch.WithinLimit?
    ensures var s := After(start, events);
            && AtFrameReturn(s.limits, s.phase.Ending?, s.phase.result).latch.WithinLimit?
            && ResultAtFrameReturn(s.limits, s.phase.Ending?, s.phase.result) == s.phase.result
  {
    hide StartOf, Step, Enabled, Shaped, Quiet, BudgetsOk, AtFrameReturn, ResultAtFrameReturn;
    StartShape(l, tx, initialComputeGas, gasLimit, initialGas);
    StartKeepsBudgets(l, tx, initialComputeGas, gasLimit, initialGas);
    StartIsQuiet(l, tx, initialComputeGas, gasLimit, initialGas);
    ReachableStatesKeepBudgets(start, events);
    ReachableStatesAreQuiet(start, events);
    var s := After(start, events);
    QuietReturn(s);
    PoppedKeeps(s.limits, s.phase.result.status.IsOk());
  }
}

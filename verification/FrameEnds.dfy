/**
  How frames end for the journal and for the trackers: frame processing commits the journal exactly
  for an ok result, the trackers keep a frame exactly for the result that returns, and between the two
  only the compute gas of a create's deposit can turn an ok result into another.
 */
module FrameEnds {
  import opened Prelude
  import opened LimitTypes
  import opened FrameState
  import opened TrackerState
  import opened LimitState
  import opened ExecutionState
  import opened ExecutionShape

  predicate JournalCommits(s: Evm, e: Event)
    requires Enabled(s, e) && e.Finish?
  {
    ProcessedResult(s.limits, TopFrame(s), s.phase.status, e).status.IsOk()
  }

  /** The status with which the trackers pop the frame when its result returns. */
  predicate TrackersKeep(s: Evm, e: Event)
    requires Enabled(s, e) && e.Finish?
  {
    var next := StepFinish(s, e);
    next.phase.Returning? && next.phase.result.status.IsOk()
  }

  /** The limits between the check before frame processing and the one after it. */
  function BeforeDeposit(s: Evm, e: Event): Limits
    requires Enabled(s, e) && e.Finish?
  {
    AfterInstructions(s.limits, TopFrame(s).isCreate, e.outputLength)
  }

  function WithDeposit(s: Evm, e: Event): Limits
    requires Enabled(s, e) && e.Finish?
  {
    ComputeRecorded(BeforeDeposit(s, e), SatSub(DepositGas(TopFrame(s), s.phase.status, e.outputLength), e.gasAfter))
  }

  /** A frame that stopped well has nothing for a check to find. */
  predicate Settled(s: Evm) {
    s.phase.Stopped? && s.phase.status.IsOk() ==> s.limits.latch.WithinLimit? && FirstExceeded(s.limits).WithinLimit?
  }

  lemma StepSettles(s: Evm, e: Event)
    requires Enabled(s, e)
    ensures Settled(Step(s, e))
  {
    hide FirstExceeded, InitLimits, InitResult, Executed, AfterFrame, AtFrameReturn, ResultAtFrameReturn;
    if e.Stop? && e.recorded.Some? {
      PlainChecks(s.limits, e.recorded.value);
    }
  }

  lemma PlainChecks(l: Limits, gas: nat)
    ensures Executed(l, Plain(gas)).latch.WithinLimit? ==> FirstExceeded(Executed(l, Plain(gas))).WithinLimit?
  {
    hide FirstExceeded;
    LatchIsNotChecked(l.(compute := RecordGas(l.compute, gas)));
  }

  lemma LatchIsNotChecked(l: Limits)
    ensures FirstExceeded(Checked(l)) == FirstExceeded(l)
  {
    hide UsageCheck, ComputeCheck;
  }

  /** Compute gas alone changes, so it alone can be exceeded. */
  lemma OnlyComputeTrips(l: Limits, gas: nat)
    requires l.latch.WithinLimit? && FirstExceeded(l).WithinLimit?
    ensures ComputeRecorded(l, gas).latch.ExceedsLimit? ==> ComputeRecorded(l, gas).latch.kind == ComputeGas
    ensures ComputeRecorded(l, 0).latch.WithinLimit?
  {
    hide UsageCheck;
    assert RecordGas(l.compute, 0) == l.compute by {
      var t := l.compute.frames;
      assert t.stack != [] ==> t.stack[|t.stack| - 1 := Top(t)] == t.stack;
    }
    hide ComputeCheck;
    ComputeKind(l.spec, RecordGas(l.compute, gas));
  }

  lemma ComputeKind(spec: MegaSpecId, c: ComputeState)
    ensures ComputeCheck(spec, c).ExceedsLimit? ==> ComputeCheck(spec, c).kind == ComputeGas
  {
  }

  /** A create whose output passed the check has nothing else to find either. */
  lemma CreateIsChecked(l: Limits, outputLength: nat)
    ensures AfterInstructions(l, true, outputLength).latch.WithinLimit? ==>
              FirstExceeded(AfterInstructions(l, true, outputLength)).WithinLimit?
  {
    hide FirstExceeded;
    LatchIsNotChecked(l.(data := AddDiscardable(l.data, outputLength)));
  }

  /**
    Trackers and journal part ways over a frame exactly when it is a create that frame processing
    committed, whose deposit then trips the compute gas; what the journal drops the trackers drop.
   */
  lemma DisagreementIsTrippedDeposit(s: Evm, e: Event)
    requires Shaped(s) && Settled(s) && Enabled(s, e) && e.Finish?
    ensures TrackersKeep(s, e) ==> JournalCommits(s, e)
    ensures JournalCommits(s, e) && !TrackersKeep(s, e)
       <==> TopFrame(s).isCreate && JournalCommits(s, e) && WithDeposit(s, e).latch.ExceedsLimit?
    ensures JournalCommits(s, e) && !TrackersKeep(s, e) ==>
              BeforeDeposit(s, e).latch.WithinLimit? && WithDeposit(s, e).latch.kind == ComputeGas
  {
    hide FirstExceeded, AfterInstructions, ComputeRecorded;
    var frame := TopFrame(s);
    var before := BeforeDeposit(s, e);
    var result := ProcessedResult(s.limits, frame, s.phase.status, e);
    FinishResult(s, e);
    if result.status.IsOk() {
      if frame.isCreate {
        CreateIsChecked(s.limits, e.outputLength);
      } else {
        NotCreateKeeps(s.limits, e.outputLength);
      }
      assert before.latch.WithinLimit?;
      OnlyComputeTrips(before, SatSub(DepositGas(frame, s.phase.status, e.outputLength), result.gas));
    }
  }

  lemma NotCreateKeeps(l: Limits, outputLength: nat)
    ensures AfterInstructions(l, false, outputLength) == l
  {
  }

  lemma FinishResult(s: Evm, e: Event)
    requires Enabled(s, e) && e.Finish?
    ensures var result := ProcessedResult(s.limits, TopFrame(s), s.phase.status, e);
            var gasBefore := DepositGas(TopFrame(s), s.phase.status, e.outputLength);
            var recorded := ComputeRecorded(BeforeDeposit(s, e), SatSub(gasBefore, result.gas));
            && StepFinish(s, e).phase.Returning?
            && (TrackersKeep(s, e) <==> result.status.IsOk() && recorded.latch.WithinLimit?)
            && (result.status.IsOk() && TopFrame(s).isCreate ==> result.gas == e.gasAfter && BeforeDeposit(s, e).latch.WithinLimit?)
            && (result.status.IsOk() && !TopFrame(s).isCreate ==> s.phase.status.IsOk() && result.gas == gasBefore)
  {
    hide FirstExceeded, Rescued;
  }

  lemma {:induction false} ReachableStatesSettle(s: Evm, events: seq<Event>)
    requires Shaped(s) && Settled(s) && Runs(s, events)
    ensures Shaped(After(s, events)) && Settled(After(s, events))
  {
    hide Step, Enabled, Shaped, Settled;
    if events != [] {
      var before := events[..|events| - 1];
      ReachableStatesSettle(s, before);
      StepKeepsShape(After(s, before), events[|events| - 1]);
      StepSettles(After(s, before), events[|events| - 1]);
    }
  }

  /** Over every transaction: a frame ends alike for trackers and journal unless it is a create whose deposit trips. */
  lemma FramesEndAlike(l: Limits, tx: Transaction, initialComputeGas: nat, gasLimit: nat, initialGas: nat,
                       start: Evm, events: seq<Event>, e: Event)
    requires initialGas <= gasLimit && start == StartOf(l, tx, initialComputeGas, gasLimit, initialGas)
    requires Runs(start, events) && Enabled(After(start, events), e) && e.Finish?
    ensures var s := After(start, events);
            JournalCommits(s, e) != TrackersKeep(s, e) <==>
              TopFrame(s).isCreate && JournalCommits(s, e) && WithDeposit(s, e).latch.ExceedsLimit?
  {
    hide StartOf, Step, Enabled, Shaped, JournalCommits, TrackersKeep, WithDeposit;
    StartShape(l, tx, initialComputeGas, gasLimit, initialGas);
    ReachableStatesSettle(start, events);
    DisagreementIsTrippedDeposit(After(start, events), e);
  }

  /** A call or create that revm answers at once returns with the status it was answered with. */
  lemma ImmediateEndsAlike(l: Limits, init: Init)
    requires init.handling.Forwarded? && init.handling.inner.Immediate?
    ensures InitResult(l, init).Finished?
    ensures Rejection(InitDetained(l, init), init.input, init.gas).None? ==>
              InitResult(l, init).result.status == init.handling.inner.status
    ensures Rejection(InitDetained(l, init), init.input, init.gas).Some? ==> !InitResult(l, init).result.status.IsOk()
  {
    hide FirstExceeded;
  }
}

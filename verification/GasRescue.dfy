/** Gas over whole transactions: nothing is created, counted twice or lost when a limit trips. */
module GasRescue {
  import opened Prelude
  import opened LimitTypes
  import opened FrameState
  import opened TrackerState
  import opened LimitState
  import opened ExecutionState
  import opened ExecutionShape

  function GasOf(frames: seq<EvmFrame>): nat {
    if frames == [] then 0 else GasOf(frames[..|frames| - 1]) + frames[|frames| - 1].gas
  }

  /** The frames whose own gas counter still counts: a finished frame's gas travels in its result. */
  function Counting(s: Evm): seq<EvmFrame> {
    if s.phase.Returning? && s.phase.live && s.frames != [] then s.frames[..|s.frames| - 1] else s.frames
  }

  /** Gas that is neither spent nor rescued yet. */
  function Unspent(s: Evm): int {
    match s.phase
    case Starting(gas) => gas
    case Returning(result, _) => GasOf(Counting(s)) + InFlight(result, s.limits)
    case Ending(result, _) => InFlight(result, s.limits)
    case Done(spent) => s.gasLimit - spent - s.limits.rescued
    case _ => GasOf(s.frames)
  }

  predicate Balanced(s: Evm, budget: nat) {
    Unspent(s) + s.limits.rescued + s.burnt + s.forfeited == budget
  }

  lemma GasOfAppend(frames: seq<EvmFrame>, frame: EvmFrame)
    ensures GasOf(frames + [frame]) == GasOf(frames) + frame.gas
  {
    assert (frames + [frame])[..|frames|] == frames;
  }

  lemma GasOfTop(frames: seq<EvmFrame>, gas: nat)
    requires frames != []
    ensures GasOf(WithTopGas(frames, gas)) == GasOf(frames) - frames[|frames| - 1].gas + gas
  {
    assert WithTopGas(frames, gas)[..|frames| - 1] == frames[..|frames| - 1];
  }

  // What each hook rescues.

  lemma InitRescues(l: Limits, init: Init)
    requires init.Legal(l.spec)
    ensures match InitResult(l, init)
            case Item(frame) => frame.gas == init.gas && InitLimits(l, init).rescued == l.rescued
                                && InitLimits(l, init).latch.WithinLimit?
            case Finished(result) =>
              && result.gas <= init.gas
              && InitLimits(l, init).rescued == l.rescued
                 + (if InitLimits(l, init).latch.IsTxLevel() && !init.handling.Intercepted? then result.gas else 0)
              && (init.handling.Intercepted? ==> InitLimits(l, init).latch == l.latch)
  {
    hide FirstExceeded, EmptyFramePushed, FramesPushed;
    assert FramesPushed(InitDetained(l, init), init.input).rescued == l.rescued by {
      PushedRescues(InitDetained(l, init), init.input);
    }
    PushedRescues(InitDetained(l, init), init.input);
  }

  lemma PushedRescues(l: Limits, input: FrameInput)
    ensures FramesPushed(l, input).rescued == l.rescued && EmptyFramePushed(l).rescued == l.rescued
    ensures FramesPushed(l, input).latch == l.latch && EmptyFramePushed(l).latch == l.latch
  {
  }

  lemma ExecutedRescues(l: Limits, instruction: Instruction)
    ensures Executed(l, instruction).rescued == l.rescued
  {
    hide FirstExceeded;
  }

  lemma FinishRescues(l: Limits, isCreate: bool, outputLength: nat, result: FrameResult, gasBefore: nat)
    ensures var after := AfterFrame(AfterInstructions(l, isCreate, outputLength), result, gasBefore);
            && after.rescued == l.rescued + (if after.latch.IsTxLevel() then result.gas else 0)
    ensures ResultAfterFrame(l, result, gasBefore).gas == result.gas
  {
    hide FirstExceeded;
  }

  lemma ReturnRescues(l: Limits, lastFrame: bool, result: FrameResult)
    ensures AtFrameReturn(l, lastFrame, result).rescued == l.rescued
    ensures ResultAtFrameReturn(l, lastFrame, result).gas == result.gas
  {
    hide FirstExceeded;
  }

  // Every step balances.

  lemma AfterInitBalances(s: Evm, init: Init, budget: nat)
    requires init.Legal(s.limits.spec) && (s.frames == [] <==> s.phase.Starting?)
    requires GasOf(s.frames) + init.gas + s.limits.rescued + s.burnt + s.forfeited == budget
    ensures Balanced(AfterInit(s, init), budget)
  {
    hide InitLimits, InitResult;
    InitRescues(s.limits, init);
    match InitResult(s.limits, init)
    case Item(frame) => GasOfAppend(s.frames, frame);
    case Finished(_) =>
  }

  lemma RecordingRescuesNothing(l: Limits, gas: nat)
    ensures ComputeRecorded(l, gas).rescued == l.rescued && ComputeRecorded(l, gas).spec == l.spec
  {
    hide FirstExceeded;
  }

  lemma CallOutBalances(s: Evm, e: Event, budget: nat)
    requires Shaped(s) && Balanced(s, budget) && Enabled(s, e) && e.CallOut?
    ensures Balanced(StepCallOut(s, e), budget)
  {
    hide AfterInit, ComputeRecorded;
    var limits := ComputeRecorded(s.limits, e.computeGas);
    RecordingRescuesNothing(s.limits, e.computeGas);
    GasOfTop(s.frames, TopFrame(s).gas - e.cost - e.init.gas);
    if limits.latch.WithinLimit? {
      AfterInitBalances(s.(limits := limits, frames := WithTopGas(s.frames, TopFrame(s).gas - e.cost - e.init.gas),
                           burnt := s.burnt + e.cost), e.init, budget);
    }
  }

  lemma ProcessedGas(l: Limits, frame: EvmFrame, status: Status, e: Event)
    requires e.Finish? && e.gasAfter <= DepositGas(frame, status, e.outputLength)
    ensures ProcessedResult(l, frame, status, e).gas <= frame.gas
    ensures !status.IsOk() ==> ProcessedResult(l, frame, status, e).gas == frame.gas
    ensures !status.IsOk() && l.latch.ExceedsLimit? ==> !ProcessedResult(l, frame, status, e).status.IsOk()
  {
    hide FirstExceeded;
  }

  lemma FinishBalances(s: Evm, e: Event, budget: nat)
    requires Shaped(s) && Balanced(s, budget) && Enabled(s, e) && e.Finish?
    ensures Balanced(StepFinish(s, e), budget)
  {
    hide FirstExceeded, AfterFrame, ResultAfterFrame, AfterInstructions, ProcessedResult;
    var frame := TopFrame(s);
    var gasBefore := DepositGas(frame, s.phase.status, e.outputLength);
    var result := ProcessedResult(s.limits, frame, s.phase.status, e);
    ProcessedGas(s.limits, frame, s.phase.status, e);
    FinishRescues(s.limits, frame.isCreate, e.outputLength, result, gasBefore);
    ResultGasKept(AfterInstructions(s.limits, frame.isCreate, e.outputLength), result, gasBefore);
  }

  lemma ResultGasKept(l: Limits, result: FrameResult, gasBefore: nat)
    ensures ResultAfterFrame(l, result, gasBefore).gas == result.gas
  {
    hide FirstExceeded;
  }

  lemma ReturnFrameBalances(s: Evm, budget: nat)
    requires Shaped(s) && Balanced(s, budget) && Enabled(s, ReturnFrame)
    ensures Balanced(StepReturnFrame(s), budget)
  {
    hide FirstExceeded, AtFrameReturn, ResultAtFrameReturn;
    ReturnRescues(s.limits, false, s.phase.result);
    FrameReturnLatch(s.limits, false, s.phase.result);
    var frames := Counting(s);
    if frames != [] {
      GasOfTop(frames, frames[|frames| - 1].gas + s.phase.result.gas);
    }
  }

  lemma ConclusionBalances(s: Evm, budget: nat)
    requires Shaped(s) && Balanced(s, budget) && Enabled(s, Conclude)
    ensures Balanced(StepConclude(s), budget)
  {
    hide FirstExceeded, AtFrameReturn, ResultAtFrameReturn;
    ReturnRescues(s.limits, true, s.phase.result);
    FrameReturnLatch(s.limits, true, s.phase.result);
    if s.phase.popped {
      DuplicateReturnIsHarmless(s.limits, s.phase.result);
    }
  }

  lemma StepBalances(s: Evm, e: Event, budget: nat)
    requires Shaped(s) && Balanced(s, budget) && Enabled(s, e)
    ensures Balanced(Step(s, e), budget)
  {
    hide FirstExceeded, InitLimits, InitResult, Executed, AfterFrame, AtFrameReturn, ResultAtFrameReturn;
    match e
    case Begin(init) => AfterInitBalances(s, init, budget);
    case Enter =>
    case Execute(cost, instruction) =>
      ExecutedRescues(s.limits, instruction);
      GasOfTop(s.frames, TopFrame(s).gas - cost);
    case CallOut(_, _, _) => CallOutBalances(s, e, budget);
    case Stop(_, gasLeft, recorded) =>
      if recorded.Some? { ExecutedRescues(s.limits, Plain(recorded.value)); }
      GasOfTop(s.frames, gasLeft);
    case Finish(_, _, _) => FinishBalances(s, e, budget);
    case ReturnFrame => ReturnFrameBalances(s, budget);
    case Conclude => ConclusionBalances(s, budget);
  }

  /** Conservation over every run: unspent, rescued, burnt and forfeited gas add up to the budget. */
  lemma {:induction false} GasIsConserved(s: Evm, events: seq<Event>, budget: nat)
    requires Shaped(s) && Balanced(s, budget) && Runs(s, events)
    ensures Shaped(After(s, events)) && Balanced(After(s, events), budget)
    ensures After(s, events).gasLimit == s.gasLimit && After(s, events).limits.spec == s.limits.spec
  {
    if events != [] {
      var before := events[..|events| - 1];
      GasIsConserved(s, before, budget);
      StepKeepsShape(After(s, before), events[|events| - 1]);
      StepBalances(After(s, before), events[|events| - 1], budget);
    }
  }

  // After a transaction-level trip.

  /** Once a transaction-level violation is latched nothing more is burnt or forfeited. */
  lemma TrippedStep(s: Evm, e: Event)
    requires Shaped(s) && Enabled(s, e) && s.limits.latch.IsTxLevel() && !s.phase.Starting?
    ensures Step(s, e).limits.latch == s.limits.latch && !Step(s, e).phase.Starting?
    ensures Step(s, e).burnt == s.burnt && Step(s, e).forfeited == s.forfeited
  {
    hide FirstExceeded, InitLimits, InitResult, Executed;
    match e
    case Begin(_) =>
    case Enter =>
    case Execute(_, _) =>
    case CallOut(_, _, _) =>
    case Stop(_, _, _) =>
    case Finish(_, _, _) =>
      ProcessedGas(s.limits, TopFrame(s), s.phase.status, e);
    case ReturnFrame => FrameReturnLatch(s.limits, false, s.phase.result);
    case Conclude => FrameReturnLatch(s.limits, true, s.phase.result);
  }

  /** The last step of a tripped transaction returns nothing but the rescued gas. */
  lemma TrippedConclusion(s: Evm)
    requires Shaped(s) && Enabled(s, Conclude) && s.limits.latch.IsTxLevel()
    ensures Unspent(Step(s, Conclude)) == 0
  {
    hide FirstExceeded;
    FrameReturnLatch(s.limits, true, s.phase.result);
    if s.phase.popped {
      DuplicateReturnIsHarmless(s.limits, s.phase.result);
    }
  }

  /** Nothing can follow the end of a transaction. */
  lemma NothingAfterDone(s: Evm, e: Event)
    ensures Enabled(s, e) ==> !s.phase.Done?
  {
  }

  lemma {:induction false} TrippedRun(s: Evm, events: seq<Event>, budget: nat)
    requires Shaped(s) && Balanced(s, budget) && Runs(s, events)
    requires s.limits.latch.IsTxLevel() && !s.phase.Starting? && !s.phase.Done?
    ensures var end := After(s, events);
            && Shaped(end) && Balanced(end, budget) && end.limits.latch == s.limits.latch && !end.phase.Starting?
            && end.burnt == s.burnt && end.forfeited == s.forfeited
            && end.gasLimit == s.gasLimit && (end.phase.Done? ==> Unspent(end) == 0)
  {
    GasIsConserved(s, events, budget);
    if events != [] {
      var before := events[..|events| - 1];
      TrippedRun(s, before, budget);
      TrippedStep(After(s, before), events[|events| - 1]);
      if events[|events| - 1].Conclude? {
        TrippedConclusion(After(s, before));
      }
    }
  }

  /**
    The rescue is exact. From any state of a transaction in which a transaction-level violation is
    latched, with any number of live frames, unwinding ends with the rescued gas increased by exactly
    what was unspent then, and the charge is the gas limit minus all rescued gas.
   */
  lemma RescueIsExact(s: Evm, events: seq<Event>, budget: nat)
    requires Shaped(s) && Balanced(s, budget) && Runs(s, events)
    requires s.limits.latch.IsTxLevel() && !s.phase.Starting? && !s.phase.Done?
    requires After(s, events).phase.Done?
    ensures After(s, events).limits.rescued == s.limits.rescued + Unspent(s)
    ensures After(s, events).phase.spent == s.gasLimit - After(s, events).limits.rescued
  {
    TrippedRun(s, events, budget);
  }

  lemma {:induction false} RunFromNext(s: Evm, e: Event, rest: seq<Event>)
    requires Enabled(s, e) && Runs(Step(s, e), rest)
    ensures Runs(s, [e] + rest) && After(s, [e] + rest) == After(Step(s, e), rest)
  {
    hide Step, Enabled;
    var events := [e] + rest;
    if rest == [] {
      assert events[..0] == [] && events[0] == e;
    } else {
      RunFromNext(s, e, rest[..|rest| - 1]);
      assert events[..|events| - 1] == [e] + rest[..|rest| - 1];
    }
  }

  function UnwindingEvent(s: Evm): Event {
    match s.phase
    case Entering => Enter
    case Stopped(_) => Finish(0, OutOfGas, 0)
    case Ending(_, _) => Conclude
    case _ => ReturnFrame
  }

  /** Goes down with every step of the unwinding. */
  function StepsLeft(s: Evm): nat {
    match s.phase
    case Done(_) => 0
    case Ending(_, _) => 1
    case Entering => 4 * |s.frames| + 2
    case Stopped(_) => 4 * |s.frames| + 1
    case Returning(_, live) => 4 * |s.frames| + if live then 0 else 3
    case _ => 4 * |s.frames| + 4
  }

  lemma UnwindingStep(s: Evm)
    requires Shaped(s) && s.limits.latch.IsTxLevel() && !s.phase.Starting? && !s.phase.Done?
    ensures Enabled(s, UnwindingEvent(s)) && StepsLeft(Step(s, UnwindingEvent(s))) < StepsLeft(s)
    ensures !Step(s, UnwindingEvent(s)).phase.Starting?
  {
    hide FirstExceeded, AfterFrame, AtFrameReturn, ResultAtFrameReturn, AfterInstructions, ProcessedResult, ResultAfterFrame;
  }

  /** Every state in which a transaction-level violation is latched unwinds to the end of the transaction. */
  lemma {:induction false} UnwindingCompletes(s: Evm) returns (events: seq<Event>)
    requires Shaped(s) && s.limits.latch.IsTxLevel() && !s.phase.Starting? && !s.phase.Done?
    ensures Runs(s, events) && After(s, events).phase.Done?
    decreases StepsLeft(s)
  {
    hide FirstExceeded, Step, Enabled, Shaped;
    var e := UnwindingEvent(s);
    UnwindingStep(s);
    StepKeepsShape(s, e);
    TrippedStep(s, e);
    var rest: seq<Event> := [];
    if !Step(s, e).phase.Done? {
      rest := UnwindingCompletes(Step(s, e));
    }
    RunFromNext(s, e, rest);
    events := [e] + rest;
  }

  /** Until a transaction-level violation is latched, nothing is rescued. */
  predicate RescuedOnlyWhenTripped(l: Limits) {
    l.latch.IsTxLevel() || l.rescued == 0
  }

  lemma StepRescuesOnlyWhenTripped(s: Evm, e: Event)
    requires Shaped(s) && Enabled(s, e) && RescuedOnlyWhenTripped(s.limits)
    ensures RescuedOnlyWhenTripped(Step(s, e).limits)
  {
    hide FirstExceeded, InitLimits, InitResult, Executed, AfterFrame, AtFrameReturn, ResultAtFrameReturn, AfterInstructions, ProcessedResult, ResultAfterFrame;
    match e
    case Begin(init) =>
      InitRescues(s.limits, init);
      if s.limits.latch.IsTxLevel() { InitKeepsTrip(s.limits, init); }
    case Enter =>
    case Execute(_, instruction) => ExecutedRescues(s.limits, instruction);
    case CallOut(_, computeGas, init) =>
      var limits := ComputeRecorded(s.limits, computeGas);
      ExecutedRescues(s.limits, Plain(computeGas));
      if limits.latch.WithinLimit? {
        HooksKeepTheSpec(s.limits, init, Plain(computeGas));
        InitRescues(limits, init);
      }
    case Stop(_, _, recorded) => if recorded.Some? { ExecutedRescues(s.limits, Plain(recorded.value)); }
    case Finish(outputLength, _, _) =>
      var frame := TopFrame(s);
      var result := ProcessedResult(s.limits, frame, s.phase.status, e);
      var gasBefore := DepositGas(frame, s.phase.status, outputLength);
      FinishRescues(s.limits, frame.isCreate, outputLength, result, gasBefore);
      if s.limits.latch.IsTxLevel() {
        FinishKeepsTrip(s.limits, frame.isCreate, outputLength, result, gasBefore);
      }
    case ReturnFrame =>
      ReturnRescues(s.limits, false, s.phase.result);
      FrameReturnLatch(s.limits, false, s.phase.result);
    case Conclude =>
      ReturnRescues(s.limits, true, s.phase.result);
      FrameReturnLatch(s.limits, true, s.phase.result);
  }

  lemma InitKeepsTrip(l: Limits, init: Init)
    requires l.latch.IsTxLevel()
    ensures InitLimits(l, init).latch == l.latch
  {
    hide FirstExceeded;
  }

  lemma FinishKeepsTrip(l: Limits, isCreate: bool, outputLength: nat, result: FrameResult, gasBefore: nat)
    requires l.latch.IsTxLevel()
    ensures AfterFrame(AfterInstructions(l, isCreate, outputLength), result, gasBefore).latch == l.latch
  {
    hide FirstExceeded;
  }

  /**
    The steps at which the ledger's forfeited gas moves: the call opcode's own compute gas trips after
    the forwarded gas was charged, or the first frame is intercepted although a transaction-level
    violation was latched before it.
   */
  lemma ForfeitedExactly(s: Evm, e: Event)
    requires Shaped(s) && Enabled(s, e)
    ensures Step(s, e).forfeited == s.forfeited +
              if e.CallOut? && ComputeRecorded(s.limits, e.computeGas).latch.ExceedsLimit? then e.init.gas
              else if e.Begin? && e.init.handling.Intercepted? && s.limits.latch.IsTxLevel() then e.init.handling.gasLeft
              else 0
  {
    hide FirstExceeded, InitLimits, InitResult, Executed, AfterFrame, AtFrameReturn, ResultAtFrameReturn;
    match e
    case Begin(init) =>
      InitRescues(s.limits, init);
      if init.handling.Intercepted? { InterceptedGas(s.limits, init); }
    case CallOut(_, computeGas, init) =>
      var limits := ComputeRecorded(s.limits, computeGas);
      if limits.latch.WithinLimit? {
        HooksKeepTheSpec(s.limits, init, Plain(computeGas));
        InitRescues(limits, init);
      }
    case _ =>
  }

  lemma InterceptedGas(l: Limits, init: Init)
    requires init.handling.Intercepted?
    ensures InitResult(l, init) == Finished(FrameResult(init.handling.status, init.handling.gasLeft, false))
  {
    hide FirstExceeded;
  }

  /**
    A transaction whose intrinsic usage already violates a limit loses its whole gas limit when its
    first frame is intercepted; when the frame is not intercepted all of that gas is rescued.
   */
  lemma TrippedFirstFrame(s: Evm, init: Init)
    requires Shaped(s) && s.limits.latch.IsTxLevel() && s.limits.rescued == 0 && Enabled(s, Begin(init))
    ensures var begun := Step(s, Begin(init));
            && begun.phase.Ending?
            && StepConclude(begun).limits.rescued == (if init.handling.Intercepted? then 0 else init.gas)
            && StepConclude(begun).phase == Done(s.gasLimit - (if init.handling.Intercepted? then 0 else init.gas))
  {
    hide FirstExceeded, InitLimits, InitResult, AtFrameReturn, ResultAtFrameReturn;
    InitKeepsTrip(s.limits, init);
    InitRescues(s.limits, init);
    if init.handling.Intercepted? {
      InterceptedGas(s.limits, init);
    } else {
      RejectedInTrip(s.limits, init);
    }
    var begun := Step(s, Begin(init));
    FrameReturnLatch(begun.limits, true, begun.phase.result);
    ReturnRescues(begun.limits, true, begun.phase.result);
    StepKeepsShape(s, Begin(init));
  }

  lemma RejectedInTrip(l: Limits, init: Init)
    requires l.latch.IsTxLevel() && init.handling.Forwarded?
    ensures InitResult(l, init) == Finished(FrameResult(OutOfGas, init.gas, init.input.Create?))
  {
    hide FirstExceeded, FramesPushed;
    PushedRescues(InitDetained(l, init), init.input);
  }

  // Whole transactions.

  lemma StartIsShaped(l: Limits, tx: Transaction, initialComputeGas: nat, gasLimit: nat, initialGas: nat)
    requires initialGas <= gasLimit
    ensures var s := StartOf(l, tx, initialComputeGas, gasLimit, initialGas);
            Shaped(s) && Balanced(s, gasLimit - initialGas) && RescuedOnlyWhenTripped(s.limits)
  {
    hide FirstExceeded;
    StartShape(l, tx, initialComputeGas, gasLimit, initialGas);
  }

  /** The charge of every complete transaction is its initial gas plus what was burnt and forfeited on the way. */
  lemma TransactionCharge(l: Limits, tx: Transaction, initialComputeGas: nat, gasLimit: nat, initialGas: nat,
                          events: seq<Event>, end: Evm)
    requires initialGas <= gasLimit
    requires Runs(StartOf(l, tx, initialComputeGas, gasLimit, initialGas), events)
    requires end == After(StartOf(l, tx, initialComputeGas, gasLimit, initialGas), events) && end.phase.Done?
    ensures end.phase.spent == initialGas + end.burnt + end.forfeited
  {
    hide StartOf;
    StartIsShaped(l, tx, initialComputeGas, gasLimit, initialGas);
    StartGasLimit(l, tx, initialComputeGas, gasLimit, initialGas);
    GasIsConserved(StartOf(l, tx, initialComputeGas, gasLimit, initialGas), events, gasLimit - initialGas);
  }

  lemma StartGasLimit(l: Limits, tx: Transaction, initialComputeGas: nat, gasLimit: nat, initialGas: nat)
    requires initialGas <= gasLimit
    ensures StartOf(l, tx, initialComputeGas, gasLimit, initialGas).gasLimit == gasLimit
  {
    hide ValidatedLimits;
  }
}

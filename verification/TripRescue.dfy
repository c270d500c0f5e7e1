/**
  The rescue from end to end: what a transaction-level violation, whatever step first sees it, leaves
  to be rescued of the gas that was live before that step.
 */
module TripRescue {
  import opened Prelude
  import opened LimitTypes
  import opened FrameState
  import opened TrackerState
  import opened LimitState
  import opened ExecutionState
  import opened ExecutionShape
  import opened ExecutionBudgets
  import opened GasRescue

  /** Gas that frames and results hold. */
  function LiveGas(s: Evm): nat {
    match s.phase
    case Starting(gas) => gas
    case Returning(result, _) => GasOf(Counting(s)) + result.gas
    case Ending(result, _) => result.gas
    case Done(_) => 0
    case _ => GasOf(s.frames)
  }

  /** What a call or create that revm answers at once charges; one the limits turn away charges nothing. */
  function InitCharge(init: Init): nat {
    if init.handling.Forwarded? && init.handling.inner.Immediate? then init.gas - Min(init.gas, init.handling.inner.gasLeft)
    else 0
  }

  /** The call opcode's own compute gas trips a limit. */
  predicate OwnGasTrips(s: Evm, e: Event) {
    e.CallOut? && ComputeRecorded(s.limits, e.computeGas).latch.ExceedsLimit?
  }

  /** What the step charges to the transaction by itself. */
  function StepCharge(s: Evm, e: Event): nat
    requires Enabled(s, e)
  {
    match e
    case Begin(init) => if Rejection(InitDetained(s.limits, init), init.input, init.gas).Some? then 0 else InitCharge(init)
    case Execute(cost, _) => cost
    case CallOut(cost, computeGas, init) =>
      var limits := ComputeRecorded(s.limits, computeGas);
      cost + if OwnGasTrips(s, e) || Rejection(InitDetained(limits, init), init.input, init.gas).Some? then 0
             else InitCharge(init)
    case Stop(_, gasLeft, _) => TopFrame(s).gas - gasLeft
    case Finish(_, _, _) => SatSub(TopFrame(s).gas, ProcessedResult(s.limits, TopFrame(s), s.phase.status, e).gas)
    case _ => 0
  }

  /** No violation is latched, so nothing was rescued and every result in flight still carries its gas. */
  predicate Untripped(s: Evm) {
    s.limits.latch.WithinLimit? && s.limits.rescued == 0 && !s.phase.Done?
  }

  lemma UnspentIsLive(s: Evm)
    requires Untripped(s)
    ensures Unspent(s) == LiveGas(s)
  {
  }

  /** The first frame is intercepted or opened without a check, so it trips only when it is turned away or answered at once. */
  lemma BeginCharge(s: Evm, init: Init)
    requires Untripped(s) && Shaped(s) && Enabled(s, Begin(init)) && Step(s, Begin(init)).limits.latch.IsTxLevel()
    ensures Step(s, Begin(init)).burnt == s.burnt + StepCharge(s, Begin(init))
  {
    hide FirstExceeded, InitLimits;
    InitTrips(s.limits, init);
  }

  lemma InitTrips(l: Limits, init: Init)
    requires l.latch.WithinLimit? && init.Legal(l.spec)
    ensures InitLimits(l, init).latch.IsTxLevel() ==>
              init.handling.Forwarded?
              && (Rejection(InitDetained(l, init), init.input, init.gas).Some? || init.handling.inner.Immediate?)
    ensures Rejection(InitDetained(l, init), init.input, init.gas).Some? ==>
              Rejection(InitDetained(l, init), init.input, init.gas).value.gas == init.gas
  {
    hide FirstExceeded, FramesPushed, EmptyFramePushed;
    PushedRescues(InitDetained(l, init), init.input);
  }

  lemma CallOutCharge(s: Evm, e: Event)
    requires Untripped(s) && Shaped(s) && Enabled(s, e) && e.CallOut? && Step(s, e).limits.latch.IsTxLevel()
    ensures Step(s, e).burnt == s.burnt + StepCharge(s, e)
  {
    hide FirstExceeded, InitLimits, ComputeRecorded;
    var limits := ComputeRecorded(s.limits, e.computeGas);
    RecordingRescuesNothing(s.limits, e.computeGas);
    if limits.latch.WithinLimit? {
      InitTrips(limits, e.init);
    }
  }

  lemma TrippingCharge(s: Evm, e: Event)
    requires Untripped(s) && Shaped(s) && BudgetsOk(s) && Enabled(s, e) && Step(s, e).limits.latch.IsTxLevel()
    requires !Step(s, e).phase.Done?
    ensures Step(s, e).burnt == s.burnt + StepCharge(s, e)
  {
    hide FirstExceeded, InitLimits, InitResult, Executed, AfterFrame, AtFrameReturn, ResultAtFrameReturn, BudgetsOk;
    match e
    case Begin(init) => BeginCharge(s, init);
    case Enter =>
    case Execute(_, _) =>
    case CallOut(_, _, _) => CallOutCharge(s, e);
    case Stop(_, _, _) =>
    case Finish(_, _, _) =>
    case ReturnFrame => FrameReturnNeverTripsFirst(s);
    case Conclude =>
  }

  /**
    Whatever step first sees a transaction-level violation, at the end the rescued gas is the gas of
    all frames and results before that step, less what the step charges, and less the gas a call
    opcode forwarded if and only if the violation is of that opcode's own compute gas; a child that
    is turned away counts once. The charge of the transaction is the gas limit less the rescued gas.
   */
  lemma TripRescuesExactly(s: Evm, e: Event, events: seq<Event>)
    requires Untripped(s) && Shaped(s) && BudgetsOk(s) && Enabled(s, e)
    requires Step(s, e).limits.latch.IsTxLevel() && !Step(s, e).phase.Done?
    requires Runs(Step(s, e), events) && After(Step(s, e), events).phase.Done?
    ensures var end := After(Step(s, e), events);
            && end.limits.rescued == LiveGas(s) - StepCharge(s, e) - (if OwnGasTrips(s, e) then e.init.gas else 0)
            && end.phase.spent == s.gasLimit - end.limits.rescued
  {
    hide FirstExceeded, Step, Shaped, BudgetsOk, StepCharge, OwnGasTrips, LiveGas, Unspent, Enabled;
    var next := Step(s, e);
    UnspentIsLive(s);
    var budget := LiveGas(s) + s.burnt + s.forfeited;
    StepBalances(s, e, budget);
    StepKeepsShape(s, e);
    TrippingCharge(s, e);
    TripForfeits(s, e);
    NotStarting(s, e);
    RescueIsExact(next, events, budget);
  }

  lemma TripForfeits(s: Evm, e: Event)
    requires Untripped(s) && Shaped(s) && Enabled(s, e)
    ensures Step(s, e).forfeited == s.forfeited + if OwnGasTrips(s, e) then e.init.gas else 0
  {
    hide FirstExceeded, Step, Shaped;
    ForfeitedExactly(s, e);
  }

  lemma NotStarting(s: Evm, e: Event)
    requires Enabled(s, e)
    ensures !Step(s, e).phase.Starting?
  {
    hide FirstExceeded, InitLimits, InitResult, Executed, AfterFrame, AtFrameReturn, ResultAtFrameReturn;
  }

  /** The same from the start of a transaction: its first violation, at whatever step of whatever run. */
  lemma FirstTripOfTransaction(l: Limits, tx: Transaction, initialComputeGas: nat, gasLimit: nat, initialGas: nat,
                               start: Evm, before: seq<Event>, e: Event, events: seq<Event>)
    requires initialGas <= gasLimit && start == StartOf(l, tx, initialComputeGas, gasLimit, initialGas)
    requires Runs(start, before) && Enabled(After(start, before), e)
    requires var s := After(start, before); var next := Step(s, e);
             && s.limits.latch.WithinLimit? && next.limits.latch.IsTxLevel() && !next.phase.Done?
             && Runs(next, events) && After(next, events).phase.Done?
    ensures var s := After(start, before); var end := After(Step(s, e), events);
            && end.limits.rescued == LiveGas(s) - StepCharge(s, e) - (if OwnGasTrips(s, e) then e.init.gas else 0)
            && end.phase.spent == gasLimit - end.limits.rescued
  {
    hide StartOf, Step, Enabled, Shaped, BudgetsOk, StepCharge, OwnGasTrips, LiveGas;
    var s := After(start, before);
    StartIsShaped(l, tx, initialComputeGas, gasLimit, initialGas);
    StartGasLimit(l, tx, initialComputeGas, gasLimit, initialGas);
    StartKeepsBudgets(l, tx, initialComputeGas, gasLimit, initialGas);
    ReachableStatesKeepBudgets(start, before);
    GasIsConserved(start, before, gasLimit - initialGas);
    RescuedOnlyInTrip(start, before);
    NothingAfterDone(s, e);
    TripRescuesExactly(s, e, events);
  }

  lemma {:induction false} RescuedOnlyInTrip(s: Evm, events: seq<Event>)
    requires Shaped(s) && RescuedOnlyWhenTripped(s.limits) && Runs(s, events)
    ensures Shaped(After(s, events)) && RescuedOnlyWhenTripped(After(s, events).limits)
  {
    hide Step, Enabled, Shaped, RescuedOnlyWhenTripped;
    if events != [] {
      var before := events[..|events| - 1];
      RescuedOnlyInTrip(s, before);
      StepKeepsShape(After(s, before), events[|events| - 1]);
      StepRescuesOnlyWhenTripped(After(s, before), events[|events| - 1]);
    }
  }
}

/**
  The execution loop of one transaction (evm/execution.rs, MINI_REX and later): the order in which
  frame_init, frame_run, frame_return_result and last_frame_result call the hooks of the additional
  limit, with the gas of every live frame and a ledger of the gas that is gone. What revm does in
  between (instructions, journal, deposit) is left open and enters as event data.
 */
module ExecutionState {
  import opened Prelude
  import opened LimitTypes
  import opened FrameState
  import opened TrackerState
  import opened LimitState

  const CODEDEPOSIT_STORAGE_GAS := 10_000

  datatype EvmFrame = EvmFrame(gas: nat, isCreate: bool)

  /** What revm makes of a frame init the limits let through. */
  datatype Inner =
    | Opened(created: Address)
    | Immediate(status: Status, gasLeft: nat, computeGas: nat)

  datatype Handling =
    | Intercepted(status: Status, gasLeft: nat)
    | Forwarded(inner: Inner)

  /** A pending call or create; `oracleCap` is the cap that calling the oracle applies before Rex3. */
  datatype Init = Init(input: FrameInput, gas: nat, oracleCap: Option<u64>, handling: Handling) {
    predicate Legal(spec: MegaSpecId) {
      && (oracleCap.Some? ==> !spec.IsEnabled(Rex3) && handling.Forwarded?)
      && (handling.Intercepted? ==> input.Call? && handling.gasLeft <= gas)
      && (handling.Forwarded? && handling.inner.Immediate? ==> handling.inner.gasLeft <= gas)
    }
  }

  datatype InitOutcome = Item(frame: EvmFrame) | Finished(result: FrameResult)

  function InitDetained(l: Limits, init: Init): Limits {
    if init.oracleCap.Some? then Detained(l, init.oracleCap.value) else l
  }

  function CreatedBy(init: Init, inner: Inner): Option<Address>
    requires inner.Opened?
  {
    if init.input.Create? then Some(inner.created) else None
  }

  function InitLimits(l: Limits, init: Init): Limits {
    var d := InitDetained(l, init);
    if init.handling.Intercepted? then EmptyFramePushed(d)
    else
      var c := AtFrameInit(d, init.input, init.gas);
      if Rejection(d, init.input, init.gas).Some? then c
      else match init.handling.inner
           case Opened(created) => FrameOpened(c, CreatedBy(init, init.handling.inner))
           case Immediate(_, gasLeft, computeGas) => Rescued(ComputeRecorded(c, computeGas), gasLeft)
  }

  function InitResult(l: Limits, init: Init): InitOutcome {
    var rejection := Rejection(InitDetained(l, init), init.input, init.gas);
    if init.handling.Intercepted? then
      Finished(FrameResult(init.handling.status, init.handling.gasLeft, false))
    else if rejection.Some? then Finished(rejection.value)
    else match init.handling.inner
         case Opened(_) => Item(EvmFrame(init.gas, init.input.Create?))
         case Immediate(status, gasLeft, _) => Finished(FrameResult(status, gasLeft, init.input.Create?))
  }

  /** The opcodes that touch the limits; every opcode records its compute gas first. */
  datatype Instruction =
    | Plain(computeGas: nat)
    | Sstore(computeGas: nat, slot: SStoreResult)
    | Log(computeGas: nat, topics: nat, size: nat)
    | Volatile(computeGas: nat, cap: u64)

  /** A transaction-level trip of the compute gas aborts the opcode's wrapper; a frame-local one does not. */
  function Executed(l: Limits, instruction: Instruction): Limits {
    var c := ComputeRecorded(l, instruction.computeGas);
    if c.latch.IsTxLevel() then c
    else match instruction
         case Plain(_) => c
         case Sstore(_, slot) => AtSstore(c, slot)
         case Log(_, topics, size) => AtLog(c, topics, size)
         case Volatile(_, cap) => Detained(c, cap)
  }

  datatype Phase =
    | Starting(gas: nat)
    | Entering
    | Executing
    | Stopped(status: Status)
    | Returning(result: FrameResult, live: bool)
    | Ending(result: FrameResult, popped: bool)
    | Done(spent: int)

  /**
    `burnt` is the gas charged for work or lost in ordinary halts; `forfeited` is gas that left a
    frame for a child that never came to be and was neither returned nor rescued.
   */
  datatype Evm = Evm(limits: Limits, frames: seq<EvmFrame>, phase: Phase, gasLimit: nat, burnt: nat, forfeited: nat)

  datatype Event =
    | Begin(init: Init)
    | Enter
    | Execute(cost: nat, instruction: Instruction)
    | CallOut(cost: nat, computeGas: nat, init: Init)
    | Stop(status: Status, gasLeft: nat, recorded: Option<nat>)
    | Finish(outputLength: nat, processed: Status, gasAfter: nat)
    | ReturnFrame
    | Conclude

  function TopFrame(s: Evm): EvmFrame
    requires s.frames != []
  {
    s.frames[|s.frames| - 1]
  }

  function WithTopGas(frames: seq<EvmFrame>, gas: nat): seq<EvmFrame>
    requires frames != []
  {
    frames[|frames| - 1 := frames[|frames| - 1].(gas := gas)]
  }

  predicate Enabled(s: Evm, e: Event) {
    match e
    case Begin(init) => s.phase.Starting? && init.gas == s.phase.gas && init.Legal(s.limits.spec)
    case Enter => s.phase.Entering? && s.frames != []
    case Execute(cost, _) => s.phase.Executing? && s.frames != [] && cost <= TopFrame(s).gas
    case CallOut(cost, _, init) =>
      s.phase.Executing? && s.frames != [] && cost + init.gas <= TopFrame(s).gas && init.Legal(s.limits.spec)
    case Stop(status, gasLeft, recorded) =>
      && s.phase.Executing? && s.frames != [] && gasLeft <= TopFrame(s).gas
      && (status.IsOk() ==> recorded.Some?) && (recorded.Some? ==> status.IsOkOrRevert())
    case Finish(outputLength, processed, gasAfter) =>
      s.phase.Stopped? && s.frames != [] && gasAfter <= DepositGas(TopFrame(s), s.phase.status, outputLength)
    case ReturnFrame => s.phase.Returning? && s.frames != []
    case Conclude => s.phase.Ending?
  }

  /** The storage gas of a successful create: charged when it can be paid, else the create runs out of gas. */
  predicate DepositUnpaid(frame: EvmFrame, status: Status, outputLength: nat) {
    frame.isCreate && status.IsOk() && CODEDEPOSIT_STORAGE_GAS * outputLength > frame.gas
  }

  function DepositGas(frame: EvmFrame, status: Status, outputLength: nat): nat {
    if frame.isCreate && status.IsOk() && !DepositUnpaid(frame, status, outputLength)
    then frame.gas - CODEDEPOSIT_STORAGE_GAS * outputLength
    else frame.gas
  }

  /** The result revm's frame action processing produces; it changes only a create that is still ok. */
  function ProcessedResult(l: Limits, frame: EvmFrame, status: Status, e: Event): FrameResult
    requires e.Finish?
  {
    var deposited := if DepositUnpaid(frame, status, e.outputLength) then OutOfGas else status;
    var marked := StatusAfterInstructions(l, frame.isCreate, e.outputLength, deposited);
    if frame.isCreate && marked.IsOk() then FrameResult(e.processed, e.gasAfter, true)
    else FrameResult(marked, DepositGas(frame, status, e.outputLength), frame.isCreate)
  }

  /** Gas a result still carries: none once a transaction-level violation had it rescued. */
  function InFlight(result: FrameResult, l: Limits): nat {
    if l.latch.IsTxLevel() then 0 else result.gas
  }

  function AfterInit(s: Evm, init: Init): Evm {
    var limits := InitLimits(s.limits, init);
    match InitResult(s.limits, init)
    case Item(frame) => s.(limits := limits, frames := s.frames + [frame], phase := Entering)
    case Finished(result) =>
      var lost := if init.handling.Intercepted? && limits.latch.IsTxLevel() then result.gas else 0;
      s.(limits := limits,
         phase := if s.frames == [] then Ending(result, false) else Returning(result, false),
         burnt := s.burnt + SatSub(init.gas, result.gas),
         forfeited := s.forfeited + lost)
  }

  function NextPhase(l: Limits): Phase {
    if l.latch.ExceedsLimit? then Stopped(ExceedingStatus(l.latch)) else Executing
  }

  function StepBegin(s: Evm, e: Event): Evm
    requires e.Begin?
  {
    AfterInit(s, e.init)
  }

  function StepEnter(s: Evm): Evm {
    s.(limits := Checked(s.limits), phase := NextPhase(Checked(s.limits)))
  }

  function StepExecute(s: Evm, e: Event): Evm
    requires e.Execute? && Enabled(s, e)
  {
    var limits := Executed(s.limits, e.instruction);
    s.(limits := limits, frames := WithTopGas(s.frames, TopFrame(s).gas - e.cost), phase := NextPhase(limits),
       burnt := s.burnt + e.cost)
  }

  /** The call opcode has charged the forwarded gas when its own compute gas trips and replaces the pending frame. */
  function StepCallOut(s: Evm, e: Event): Evm
    requires e.CallOut? && Enabled(s, e)
  {
    var limits := ComputeRecorded(s.limits, e.computeGas);
    var charged := s.(limits := limits, frames := WithTopGas(s.frames, TopFrame(s).gas - e.cost - e.init.gas),
                      burnt := s.burnt + e.cost);
    if limits.latch.ExceedsLimit? then
      charged.(phase := NextPhase(limits), forfeited := s.forfeited + e.init.gas)
    else AfterInit(charged, e.init)
  }

  /** The opcode that ends a frame records its compute gas like any other, unless it ends in an error. */
  function StopLimits(s: Evm, e: Event): Limits
    requires e.Stop?
  {
    if e.recorded.Some? then Executed(s.limits, Plain(e.recorded.value)) else s.limits
  }

  function StepStop(s: Evm, e: Event): Evm
    requires e.Stop? && Enabled(s, e)
  {
    var limits := StopLimits(s, e);
    s.(limits := limits, frames := WithTopGas(s.frames, e.gasLeft),
       phase := Stopped(if limits.latch.ExceedsLimit? then ExceedingStatus(limits.latch) else e.status),
       burnt := s.burnt + TopFrame(s).gas - e.gasLeft)
  }

  function StepFinish(s: Evm, e: Event): Evm
    requires e.Finish? && Enabled(s, e)
  {
    var frame := TopFrame(s);
    var gasBefore := DepositGas(frame, s.phase.status, e.outputLength);
    var limits := AfterInstructions(s.limits, frame.isCreate, e.outputLength);
    var result := ProcessedResult(s.limits, frame, s.phase.status, e);
    s.(limits := AfterFrame(limits, result, gasBefore),
       phase := Returning(ResultAfterFrame(limits, result, gasBefore), true),
       burnt := s.burnt + SatSub(frame.gas, result.gas))
  }

  function StepReturnFrame(s: Evm): Evm
    requires Enabled(s, ReturnFrame)
  {
    var result := ResultAtFrameReturn(s.limits, false, s.phase.result);
    var frames := if s.phase.live then s.frames[..|s.frames| - 1] else s.frames;
    var next := s.(limits := AtFrameReturn(s.limits, false, s.phase.result), frames := frames);
    if frames == [] then
      next.(phase := Ending(result, true),
            burnt := s.burnt + SatSub(InFlight(s.phase.result, s.limits), InFlight(result, next.limits)))
    else if result.status.IsOkOrRevert() then
      next.(frames := WithTopGas(frames, frames[|frames| - 1].gas + result.gas), phase := Entering)
    else next.(phase := Entering, burnt := s.burnt + InFlight(s.phase.result, s.limits))
  }

  /** revm spends the whole gas limit, returns what an ok or reverted frame has left, then the rescued gas is erased. */
  function StepConclude(s: Evm): Evm
    requires Enabled(s, Conclude)
  {
    var limits := AtFrameReturn(s.limits, true, s.phase.result);
    var result := ResultAtFrameReturn(s.limits, true, s.phase.result);
    var returned := if result.status.IsOkOrRevert() then result.gas else 0;
    s.(limits := limits, phase := Done(s.gasLimit - returned - limits.rescued),
       burnt := s.burnt + if result.status.IsOkOrRevert() then 0 else InFlight(s.phase.result, s.limits))
  }

  function Step(s: Evm, e: Event): Evm
    requires Enabled(s, e)
  {
    match e
    case Begin(_) => StepBegin(s, e)
    case Enter => StepEnter(s)
    case Execute(_, _) => StepExecute(s, e)
    case CallOut(_, _, _) => StepCallOut(s, e)
    case Stop(_, _, _) => StepStop(s, e)
    case Finish(_, _, _) => StepFinish(s, e)
    case ReturnFrame => StepReturnFrame(s)
    case Conclude => StepConclude(s)
  }

  /** A run of enabled events. */
  predicate Runs(s: Evm, events: seq<Event>)
    decreases |events|, 0
  {
    events == [] || (Runs(s, events[..|events| - 1]) && Enabled(After(s, events[..|events| - 1]), events[|events| - 1]))
  }

  function After(s: Evm, events: seq<Event>): Evm
    requires Runs(s, events)
    decreases |events|, 1
  {
    if events == [] then s else Step(After(s, events[..|events| - 1]), events[|events| - 1])
  }

  /** The limits once a new transaction has been validated: reset, intrinsic records, intrinsic compute gas. */
  function ValidatedLimits(l: Limits, tx: Transaction, initialComputeGas: nat): Limits {
    ComputeRecorded(AtTxStart(ResetLimits(l), tx), initialComputeGas)
  }

  function StartOf(l: Limits, tx: Transaction, initialComputeGas: nat, gasLimit: nat, initialGas: nat): Evm
    requires initialGas <= gasLimit
  {
    Evm(ValidatedLimits(l, tx, initialComputeGas), [], Starting(gasLimit - initialGas), gasLimit, 0, 0)
  }
}

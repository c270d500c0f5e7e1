/** Steps of the execution loop: the four stacks stay aligned and a violation stays latched. */
module ExecutionShape {
  import opened Prelude
  import opened LimitTypes
  import opened FrameState
  import opened TrackerState
  import opened LimitState
  import opened ExecutionState

  // ---------------------------------------------------------------------------------------------
  // Every hook keeps the four stacks aligned
  // ---------------------------------------------------------------------------------------------

  predicate Aligned(l: Limits, height: nat) {
    |l.data.stack| == |l.kv.stack| == |l.compute.frames.stack| == |l.growth.stack| == height
  }

  lemma PushesAlign(l: Limits, input: FrameInput)
    ensures |FramesPushed(l, input).data.stack| == |l.data.stack| + 1
    ensures |FramesPushed(l, input).kv.stack| == |l.kv.stack| + 1
    ensures |FramesPushed(l, input).compute.frames.stack| == |l.compute.frames.stack| + 1
    ensures |FramesPushed(l, input).growth.stack| == |l.growth.stack| + 1
  {
    hide FirstExceeded;
  }

  lemma InitAligns(l: Limits, init: Init, height: nat)
    requires Aligned(l, height)
    ensures Aligned(InitLimits(l, init), height + 1)
  {
    hide FirstExceeded, FramesPushed, EmptyFramePushed, Checked, RecordGas, SetDetained;
    var d := InitDetained(l, init);
    PushesAlign(d, init.input);
    EmptyPushAligns(d);
    assert Aligned(d, height) by {
      DetentionAligns(l, init, height);
    }
    var c := AtFrameInit(d, init.input, init.gas);
    assert Aligned(c, height + 1) by {
      CheckKeepsFrames(FramesPushed(d, init.input));
      CheckKeepsFrames(FrameInitChecked(d, init.input));
    }
    if init.handling.Forwarded? && Rejection(d, init.input, init.gas).None? {
      ForwardedAligns(c, init, height + 1);
    }
  }

  lemma EmptyPushAligns(l: Limits)
    ensures |EmptyFramePushed(l).data.stack| == |l.data.stack| + 1
    ensures |EmptyFramePushed(l).kv.stack| == |l.kv.stack| + 1
    ensures |EmptyFramePushed(l).compute.frames.stack| == |l.compute.frames.stack| + 1
    ensures |EmptyFramePushed(l).growth.stack| == |l.growth.stack| + 1
  {
  }

  lemma DetentionAligns(l: Limits, init: Init, height: nat)
    requires Aligned(l, height)
    ensures Aligned(InitDetained(l, init), height)
  {
  }

  lemma CheckKeepsFrames(l: Limits)
    ensures var c := Checked(l);
            c.data == l.data && c.kv == l.kv && c.compute == l.compute && c.growth == l.growth && c.spec == l.spec
  {
    hide FirstExceeded;
  }

  lemma ForwardedAligns(l: Limits, init: Init, height: nat)
    requires Aligned(l, height) && init.handling.Forwarded?
    ensures match init.handling.inner
            case Opened(created) => Aligned(FrameOpened(l, CreatedBy(init, init.handling.inner)), height)
            case Immediate(_, gasLeft, computeGas) => Aligned(Rescued(ComputeRecorded(l, computeGas), gasLeft), height)
  {
    hide FirstExceeded;
  }

  lemma InstructionAligns(l: Limits, instruction: Instruction, height: nat)
    requires Aligned(l, height)
    ensures Aligned(Executed(l, instruction), height)
  {
    hide FirstExceeded;
  }

  lemma FinishAligns(l: Limits, isCreate: bool, outputLength: nat, result: FrameResult, gasBefore: nat, height: nat)
    requires Aligned(l, height)
    ensures Aligned(AfterFrame(AfterInstructions(l, isCreate, outputLength), result, gasBefore), height)
  {
    hide FirstExceeded;
  }

  lemma ReturnAligns(l: Limits, lastFrame: bool, result: FrameResult, height: nat)
    requires Aligned(l, height)
    ensures Aligned(AtFrameReturn(l, lastFrame, result), if height == 0 then 0 else height - 1)
  {
    hide FirstExceeded;
  }

  // ---------------------------------------------------------------------------------------------
  // Latching
  // ---------------------------------------------------------------------------------------------

  /** A recorded violation stays, unless it is frame-local and a frame returns. */
  lemma HooksKeepTheLatch(l: Limits, init: Init, instruction: Instruction, gas: nat, isCreate: bool, outputLength: nat,
                          result: FrameResult)
    requires l.latch.ExceedsLimit?
    ensures Checked(l) == l
    ensures InitLimits(l, init).latch == l.latch
    ensures Executed(l, instruction).latch == l.latch
    ensures ComputeRecorded(l, gas).latch == l.latch && Rescued(l, gas).latch == l.latch
    ensures AfterInstructions(l, isCreate, outputLength).latch == l.latch
    ensures AfterFrame(l, result, gas).latch == l.latch
  {
    hide FirstExceeded;
  }

  /**
    A frame return keeps a transaction-level violation and marks every result but the duplicate one
    as out of gas; it never leaves a frame-local violation behind.
   */
  lemma FrameReturnLatch(l: Limits, lastFrame: bool, result: FrameResult)
    ensures l.latch.IsTxLevel() ==> AtFrameReturn(l, lastFrame, result).latch == l.latch
    ensures l.latch.IsTxLevel() && !DuplicateReturn(l, lastFrame) ==>
              ResultAtFrameReturn(l, lastFrame, result) == result.(status := OutOfGas)
    ensures !DuplicateReturn(l, lastFrame) ==> !AtFrameReturn(l, lastFrame, result).latch.IsFrameLocal()
    ensures l.latch.IsFrameLocal() && !DuplicateReturn(l, lastFrame) ==>
              ResultAtFrameReturn(l, lastFrame, result) == result.(status := Revert)
  {
    hide FirstExceeded;
  }

  /** The second return of the top-level frame changes neither the result nor any usage. */
  lemma DuplicateReturnIsHarmless(l: Limits, result: FrameResult)
    requires Aligned(l, 0)
    ensures DuplicateReturn(l, true)
    ensures ResultAtFrameReturn(l, true, result) == result
    ensures AtFrameReturn(l, true, result) == Checked(l)
    ensures Usage(AtFrameReturn(l, true, result)) == Usage(l) && AtFrameReturn(l, true, result).rescued == l.rescued
  {
  }

  // ---------------------------------------------------------------------------------------------
  // The shape of reachable states
  // ---------------------------------------------------------------------------------------------

  /** The number of tracker entries the phase calls for: one per live frame, one more for a frame that never ran. */
  function Height(s: Evm): nat {
    match s.phase
    case Returning(_, live) => if live then |s.frames| else |s.frames| + 1
    case Ending(_, popped) => if popped then 0 else 1
    case _ => |s.frames|
  }

  predicate Shaped(s: Evm) {
    && Aligned(s.limits, Height(s))
    && (s.frames == [] <==> s.phase.Starting? || s.phase.Ending? || s.phase.Done?)
    && (s.limits.latch.IsFrameLocal() ==> s.limits.spec.IsEnabled(Rex4))
    && (s.phase.Executing? ==> s.limits.latch.WithinLimit?)
    && (s.phase.Stopped? && s.limits.latch.ExceedsLimit? ==> !s.phase.status.IsOk())
    && (s.phase.Ending? && s.phase.popped && s.limits.latch.IsTxLevel() ==> s.phase.result.status.OutOfGas?)
  }

  /** Only Rex4 reports frame-local violations. */
  lemma FrameLocalOnlyInRex4(l: Limits)
    ensures FirstExceeded(l).IsFrameLocal() ==> l.spec.IsEnabled(Rex4)
  {
  }

  lemma HooksKeepTheSpec(l: Limits, init: Init, instruction: Instruction)
    ensures InitLimits(l, init).spec == l.spec && Executed(l, instruction).spec == l.spec
  {
    hide FirstExceeded;
  }

  lemma InitLatch(l: Limits, init: Init)
    requires l.latch.IsFrameLocal() ==> l.spec.IsEnabled(Rex4)
    ensures InitLimits(l, init).latch.IsFrameLocal() ==> l.spec.IsEnabled(Rex4)
  {
    hide FirstExceeded;
    var d := InitDetained(l, init);
    FrameLocalOnlyInRex4(FramesPushed(d, init.input));
    var c := FrameInitChecked(d, init.input);
    if init.handling.Forwarded? && init.handling.inner.Immediate? {
      FrameLocalOnlyInRex4(c.(compute := RecordGas(c.compute, init.handling.inner.computeGas)));
    }
  }

  lemma CheckedLatch(l: Limits)
    requires l.latch.IsFrameLocal() ==> l.spec.IsEnabled(Rex4)
    ensures Checked(l).latch.IsFrameLocal() ==> l.spec.IsEnabled(Rex4)
  {
    hide FirstExceeded;
    FrameLocalOnlyInRex4(l);
  }

  lemma ExecutedLatch(l: Limits, instruction: Instruction)
    requires l.latch.IsFrameLocal() ==> l.spec.IsEnabled(Rex4)
    ensures Executed(l, instruction).latch.IsFrameLocal() ==> l.spec.IsEnabled(Rex4)
  {
    hide FirstExceeded;
    CheckedLatch(l.(compute := RecordGas(l.compute, instruction.computeGas)));
    var c := ComputeRecorded(l, instruction.computeGas);
    match instruction
    case Plain(_) =>
    case Sstore(_, r) =>
      CheckedLatch(c.(data := SlotUpdate(c.data, r, STORAGE_SLOT_WRITE_SIZE), kv := SlotUpdate(c.kv, r, KV_UPDATE),
                      growth := GrowthOnSstore(c.growth, r)));
    case Log(_, topics, size) => CheckedLatch(c.(data := LogEmitted(c.data, topics, size)));
    case Volatile(_, _) =>
  }

  lemma AfterInitIsShaped(s: Evm, init: Init)
    requires Aligned(s.limits, |s.frames|) && init.Legal(s.limits.spec)
    requires s.limits.latch.IsFrameLocal() ==> s.limits.spec.IsEnabled(Rex4)
    ensures Shaped(AfterInit(s, init))
  {
    hide FirstExceeded;
    InitAligns(s.limits, init, |s.frames|);
    InitLatch(s.limits, init);
    HooksKeepTheSpec(s.limits, init, Plain(0));
  }

  predicate ShapeKept(s: Evm, next: Evm) {
    Shaped(next) && next.limits.spec == s.limits.spec && next.gasLimit == s.gasLimit
  }

  lemma ExecuteKeepsShape(s: Evm, e: Event)
    requires Shaped(s) && Enabled(s, e) && e.Execute?
    ensures ShapeKept(s, StepExecute(s, e))
  {
    hide FirstExceeded, Executed;
    InstructionAligns(s.limits, e.instruction, |s.frames|);
    ExecutedLatch(s.limits, e.instruction);
    HooksKeepTheSpec(s.limits, Init(Create, 0, None, Forwarded(Opened(0))), e.instruction);
  }

  lemma CallOutKeepsShape(s: Evm, e: Event)
    requires Shaped(s) && Enabled(s, e) && e.CallOut?
    ensures ShapeKept(s, StepCallOut(s, e))
  {
    hide FirstExceeded, InitLimits, InitResult;
    InstructionAligns(s.limits, Plain(e.computeGas), |s.frames|);
    ExecutedLatch(s.limits, Plain(e.computeGas));
    var limits := ComputeRecorded(s.limits, e.computeGas);
    if limits.latch.WithinLimit? {
      HooksKeepTheSpec(limits, e.init, Plain(0));
      AfterInitIsShaped(s.(limits := limits, frames := WithTopGas(s.frames, TopFrame(s).gas - e.cost - e.init.gas),
                           burnt := s.burnt + e.cost), e.init);
    }
  }

  lemma PoppedKeepsLatch(l: Limits, ok: bool)
    ensures FramesPopped(l, ok).latch == l.latch && FramesPopped(l, ok).spec == l.spec
  {
  }

  lemma ReturnKeepsShape(s: Evm)
    requires Shaped(s)
    ensures Enabled(s, ReturnFrame) ==> ShapeKept(s, StepReturnFrame(s))
    ensures Enabled(s, Conclude) ==> ShapeKept(s, StepConclude(s))
  {
    hide FirstExceeded, FramesPopped;
    if s.phase.Returning? || s.phase.Ending? {
      PoppedKeepsLatch(s.limits, s.phase.result.status.IsOk());
    }
    if s.phase.Returning? {
      ReturnAligns(s.limits, false, s.phase.result, Height(s));
      FrameReturnLatch(s.limits, false, s.phase.result);
      FrameReturnMarks(s.limits, false, s.phase.result);
    } else if s.phase.Ending? {
      ReturnAligns(s.limits, true, s.phase.result, Height(s));
      CheckedLatch(FramesPopped(s.limits, s.phase.result.status.IsOk()));
    }
  }

  lemma StepKeepsShape(s: Evm, e: Event)
    requires Shaped(s) && Enabled(s, e)
    ensures ShapeKept(s, Step(s, e))
  {
    hide FirstExceeded, InitLimits, InitResult, Executed, AfterFrame, AtFrameReturn, ResultAtFrameReturn;
    match e
    case Begin(init) => AfterInitIsShaped(s, init); HooksKeepTheSpec(s.limits, init, Plain(0));
    case Enter => CheckedLatch(s.limits);
    case Execute(_, _) => ExecuteKeepsShape(s, e);
    case CallOut(_, _, _) => CallOutKeepsShape(s, e);
    case Stop(_, _, recorded) => if recorded.Some? { ExecuteKeepsShape(s, Execute(0, Plain(recorded.value))); }
    case Finish(_, _, _) => FinishIsShaped(s, e);
    case ReturnFrame => ReturnKeepsShape(s);
    case Conclude => ReturnKeepsShape(s);
  }

  lemma FrameReturnMarks(l: Limits, lastFrame: bool, result: FrameResult)
    requires !DuplicateReturn(l, lastFrame)
    ensures AtFrameReturn(l, lastFrame, result).latch.IsTxLevel() ==>
              ResultAtFrameReturn(l, lastFrame, result).status == OutOfGas
  {
    hide FirstExceeded;
  }

  lemma FinishIsShaped(s: Evm, e: Event)
    requires Shaped(s) && Enabled(s, e) && e.Finish?
    ensures Shaped(StepFinish(s, e)) && StepFinish(s, e).limits.spec == s.limits.spec
  {
    hide FirstExceeded;
    var frame := TopFrame(s);
    var gasBefore := DepositGas(frame, s.phase.status, e.outputLength);
    var result := ProcessedResult(s.limits, frame, s.phase.status, e);
    var c := AfterInstructions(s.limits, frame.isCreate, e.outputLength);
    FinishAligns(s.limits, frame.isCreate, e.outputLength, result, gasBefore, |s.frames|);
    FrameLocalOnlyInRex4(s.limits.(data := AddDiscardable(s.limits.data, e.outputLength)));
    FrameLocalOnlyInRex4(c.(compute := RecordGas(c.compute, SatSub(gasBefore, result.gas))));
  }

  /** A validated transaction starts in shape. */
  lemma StartShape(l: Limits, tx: Transaction, initialComputeGas: nat, gasLimit: nat, initialGas: nat)
    requires initialGas <= gasLimit
    ensures Shaped(StartOf(l, tx, initialComputeGas, gasLimit, initialGas))
    ensures StartOf(l, tx, initialComputeGas, gasLimit, initialGas).phase.Starting?
  {
    hide FirstExceeded;
    var reset := ResetLimits(l);
    CheckedLatch(reset.(data := DataAtTxStart(reset.data, tx), kv := KvAtTxStart(reset.kv, tx)));
    var started := AtTxStart(reset, tx);
    CheckedLatch(started.(compute := RecordGas(started.compute, initialComputeGas)));
  }
}

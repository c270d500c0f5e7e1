/**
  Detention in the execution loop: every run of the loop runs the compute gas tracker as a run of
  gas records, opened and closed frames, marked accesses and applied caps, so the laws of such runs
  hold of every transaction.
 */
module DetentionInLoop {
  import opened Prelude
  import opened LimitTypes
  import opened FrameState
  import opened TrackerState
  import opened LimitState
  import opened ExecutionState
  import opened ExecutionShape
  import opened ExecutionBudgets
  import TransactionUsage
  import D = Detention

  function CapTrace(cap: Option<u64>): seq<D.Event> {
    if cap.Some? then [D.Mark(cap.value), D.Apply] else []
  }

  function InitTrace(l: Limits, init: Init): seq<D.Event> {
    CapTrace(init.oracleCap) + [D.Open]
    + if init.handling.Forwarded? && init.handling.inner.Immediate?
         && Rejection(InitDetained(l, init), init.input, init.gas).None?
      then [D.Gas(init.handling.inner.computeGas)] else []
  }

  /** An instruction records its gas; a volatile one that is not aborted then marks and applies its cap. */
  function InstructionTrace(l: Limits, instruction: Instruction): seq<D.Event> {
    [D.Gas(instruction.computeGas)]
    + if instruction.Volatile? && !ComputeRecorded(l, instruction.computeGas).latch.IsTxLevel()
      then CapTrace(Some(instruction.cap)) else []
  }

  function StepTrace(s: Evm, e: Event): seq<D.Event>
    requires Enabled(s, e)
  {
    match e
    case Begin(init) => InitTrace(s.limits, init)
    case Execute(_, instruction) => InstructionTrace(s.limits, instruction)
    case CallOut(_, computeGas, init) =>
      var limits := ComputeRecorded(s.limits, computeGas);
      [D.Gas(computeGas)] + if limits.latch.ExceedsLimit? then [] else InitTrace(limits, init)
    case Stop(_, _, recorded) => if recorded.Some? then [D.Gas(recorded.value)] else []
    case Finish(outputLength, _, _) =>
      var result := ProcessedResult(s.limits, TopFrame(s), s.phase.status, e);
      [D.Gas(SatSub(DepositGas(TopFrame(s), s.phase.status, outputLength), result.gas))]
    case ReturnFrame => [D.Close(s.phase.result.status.IsOk())]
    case Conclude => [D.Close(s.phase.result.status.IsOk())]
    case Enter => []
  }

  function Trace(s: Evm, events: seq<Event>): seq<D.Event>
    requires Runs(s, events)
  {
    if events == [] then []
    else Trace(s, events[..|events| - 1]) + StepTrace(After(s, events[..|events| - 1]), events[|events| - 1])
  }

  /** The same compute gas, and a raw cap that has been applied. */
  ghost predicate Simulates(l: Limits, d: D.State) {
    && d.compute == l.compute && OnlyPersistent(l.compute.frames)
    && (d.cap.Some? ==> l.compute.detained <= D.Reach(l.spec, l.compute.Usage(), d.cap.value))
  }

  lemma OneEvent(spec: MegaSpecId, d: D.State, e: D.Event)
    ensures D.After(spec, d, [e]) == D.Step(spec, d, e)
  {
    assert [e][..0] == [];
  }

  /** One event of the trace that keeps the cap applied. */
  lemma EventSimulates(l: Limits, next: Limits, d: D.State, e: D.Event)
    requires Simulates(l, d) && !e.Mark? && !e.Apply? && next.compute == D.Step(l.spec, d, e).compute && next.spec == l.spec
    ensures Simulates(next, D.After(l.spec, d, [e]))
  {
    hide D.Step, OnlyPersistent, NetUsage;
    OneEvent(l.spec, d, e);
    D.StepEffects(l.spec, d, e);
  }

  lemma GasSimulates(l: Limits, d: D.State, gas: nat)
    requires Simulates(l, d)
    ensures Simulates(ComputeRecorded(l, gas), D.After(l.spec, d, [D.Gas(gas)])) && ComputeRecorded(l, gas).spec == l.spec
  {
    hide FirstExceeded, Simulates;
    RecordSteps(l, d, gas);
    EventSimulates(l, ComputeRecorded(l, gas), d, D.Gas(gas));
  }

  lemma RecordSteps(l: Limits, d: D.State, gas: nat)
    requires Simulates(l, d)
    ensures ComputeRecorded(l, gas).compute == D.Step(l.spec, d, D.Gas(gas)).compute && ComputeRecorded(l, gas).spec == l.spec
  {
    hide FirstExceeded;
  }

  /** Marking and applying at once is applying the cap, however low the raw cap was. */
  lemma CapSimulates(l: Limits, d: D.State, cap: u64)
    requires Simulates(l, d)
    ensures Simulates(Detained(l, cap), D.After(l.spec, d, CapTrace(Some(cap))))
  {
    hide OnlyPersistent, NetUsage;
    D.TwoSteps(l.spec, d, D.Mark(cap), D.Apply);
  }

  lemma PushSimulates(l: Limits, d: D.State, input: FrameInput)
    requires Simulates(l, d)
    ensures Simulates(FramesPushed(l, input), D.After(l.spec, d, [D.Open])) && FramesPushed(l, input).spec == l.spec
    ensures Simulates(EmptyFramePushed(l), D.After(l.spec, d, [D.Open])) && EmptyFramePushed(l).spec == l.spec
  {
    hide AccountUpdatesOnFrameInit, GrowthOnFrameInit, Simulates, PushFor;
    OpenSteps(l, d);
    EventSimulates(l, FramesPushed(l, input), d, D.Open);
    EventSimulates(l, EmptyFramePushed(l), d, D.Open);
  }

  lemma OpenSteps(l: Limits, d: D.State)
    requires Simulates(l, d)
    ensures PushCompute(l.spec, l.compute) == D.Step(l.spec, d, D.Open).compute
  {
  }

  lemma OtherSimulates(l: Limits, next: Limits, d: D.State)
    requires Simulates(l, d) && next.compute == l.compute && next.spec == l.spec
    ensures Simulates(next, d)
  {
  }

  lemma InitSimulates(l: Limits, init: Init, d: D.State)
    requires Simulates(l, d) && init.Legal(l.spec)
    ensures Simulates(InitLimits(l, init), D.After(l.spec, d, InitTrace(l, init)))
  {
    hide FirstExceeded, FramesPushed, EmptyFramePushed, Simulates, Checked, ComputeRecorded, Rescued, CreatedAccount, Detained;
    var capped, caps := InitDetained(l, init), CapTrace(init.oracleCap);
    var atCap := D.After(l.spec, d, caps);
    if init.oracleCap.Some? {
      CapSimulates(l, d, init.oracleCap.value);
    } else {
      assert D.After(l.spec, d, []) == d;
    }
    DetainedSpec(l, init);
    PushSimulates(capped, atCap, init.input);
    D.RunsCompose(l.spec, d, caps, [D.Open]);
    var atOpen := D.After(l.spec, d, caps + [D.Open]);
    if init.handling.Intercepted? {
      assert InitTrace(l, init) == caps + [D.Open];
    } else {
      var pushed := FramesPushed(capped, init.input);
      var checked := Checked(pushed);
      TransactionUsage.ChecksKeepCompute(pushed, 0);
      CheckedSpec(pushed);
      OtherSimulates(pushed, checked, atOpen);
      TransactionUsage.ChecksKeepCompute(checked, init.gas);
      if checked.latch.ExceedsLimit? || init.handling.inner.Opened? {
        assert InitTrace(l, init) == caps + [D.Open];
        OtherSimulates(checked, InitLimits(l, init), atOpen) by {
          InitKeepsComputeOfCheck(l, init);
        }
      } else {
        var gas := init.handling.inner.computeGas;
        assert InitTrace(l, init) == caps + [D.Open] + [D.Gas(gas)];
        GasSimulates(checked, atOpen, gas);
        D.RunsCompose(l.spec, d, caps + [D.Open], [D.Gas(gas)]);
        var recorded := ComputeRecorded(checked, gas);
        TransactionUsage.ChecksKeepCompute(recorded, init.handling.inner.gasLeft);
        OtherSimulates(recorded, InitLimits(l, init), D.After(l.spec, d, InitTrace(l, init)));
      }
    }
  }

  lemma InitKeepsComputeOfCheck(l: Limits, init: Init)
    requires init.handling.Forwarded?
    requires FrameInitChecked(InitDetained(l, init), init.input).latch.ExceedsLimit? || init.handling.inner.Opened?
    ensures InitLimits(l, init).compute == FrameInitChecked(InitDetained(l, init), init.input).compute
    ensures InitLimits(l, init).spec == FrameInitChecked(InitDetained(l, init), init.input).spec
  {
    hide FirstExceeded, FramesPushed;
  }

  lemma DetainedSpec(l: Limits, init: Init)
    ensures InitDetained(l, init).spec == l.spec
  {
  }

  lemma CheckedSpec(l: Limits)
    ensures Checked(l).spec == l.spec
  {
    hide FirstExceeded;
  }

  lemma ExecuteSimulates(l: Limits, instruction: Instruction, d: D.State)
    requires Simulates(l, d)
    ensures Simulates(Executed(l, instruction), D.After(l.spec, d, InstructionTrace(l, instruction)))
  {
    hide FirstExceeded, Simulates, ComputeRecorded, Detained;
    var gas := [D.Gas(instruction.computeGas)];
    var recorded := ComputeRecorded(l, instruction.computeGas);
    GasSimulates(l, d, instruction.computeGas);
    if instruction.Volatile? && !recorded.latch.IsTxLevel() {
      CapSimulates(recorded, D.After(l.spec, d, gas), instruction.cap);
      D.RunsCompose(l.spec, d, gas, CapTrace(Some(instruction.cap)));
    } else {
      assert InstructionTrace(l, instruction) == gas;
      OthersKeepCompute(l, instruction);
      OtherSimulates(recorded, Executed(l, instruction), D.After(l.spec, d, gas));
    }
  }

  lemma OthersKeepCompute(l: Limits, instruction: Instruction)
    requires !instruction.Volatile? || ComputeRecorded(l, instruction.computeGas).latch.IsTxLevel()
    ensures Executed(l, instruction).compute == ComputeRecorded(l, instruction.computeGas).compute
    ensures Executed(l, instruction).spec == ComputeRecorded(l, instruction.computeGas).spec
  {
    hide FirstExceeded, ComputeRecorded;
  }

  lemma FinishSimulates(s: Evm, e: Event, d: D.State)
    requires Simulates(s.limits, d) && Enabled(s, e) && e.Finish?
    ensures Simulates(StepFinish(s, e).limits, D.After(s.limits.spec, d, StepTrace(s, e)))
  {
    hide FirstExceeded, Simulates, ComputeRecorded, Rescued, AfterInstructions, ProcessedResult;
    var frame := TopFrame(s);
    var a := AfterInstructions(s.limits, frame.isCreate, e.outputLength);
    TransactionUsage.OutputKeepsCompute(s.limits, frame.isCreate, e.outputLength);
    OutputSpec(s.limits, frame.isCreate, e.outputLength);
    OtherSimulates(s.limits, a, d);
    var result := ProcessedResult(s.limits, frame, s.phase.status, e);
    var gas := SatSub(DepositGas(frame, s.phase.status, e.outputLength), result.gas);
    GasSimulates(a, d, gas);
    TransactionUsage.ChecksKeepCompute(ComputeRecorded(a, gas), result.gas);
    OtherSimulates(ComputeRecorded(a, gas), Rescued(ComputeRecorded(a, gas), result.gas), D.After(a.spec, d, [D.Gas(gas)]));
  }

  lemma OutputSpec(l: Limits, isCreate: bool, outputLength: nat)
    ensures AfterInstructions(l, isCreate, outputLength).spec == l.spec
  {
    hide FirstExceeded;
  }

  lemma ReturnSimulates(l: Limits, lastFrame: bool, result: FrameResult, d: D.State)
    requires Simulates(l, d)
    ensures Simulates(AtFrameReturn(l, lastFrame, result), D.After(l.spec, d, [D.Close(result.status.IsOk())]))
  {
    hide Simulates, FirstExceeded, D.Step;
    CloseSteps(l, lastFrame, result, d);
    EventSimulates(l, AtFrameReturn(l, lastFrame, result), d, D.Close(result.status.IsOk()));
  }

  lemma CloseSteps(l: Limits, lastFrame: bool, result: FrameResult, d: D.State)
    requires Simulates(l, d)
    ensures AtFrameReturn(l, lastFrame, result).compute == D.Step(l.spec, d, D.Close(result.status.IsOk())).compute
    ensures AtFrameReturn(l, lastFrame, result).spec == l.spec
  {
    hide FirstExceeded, Pop;
  }

  lemma StepSimulates(s: Evm, e: Event, d: D.State)
    requires Simulates(s.limits, d) && Enabled(s, e)
    ensures Simulates(Step(s, e).limits, D.After(s.limits.spec, d, StepTrace(s, e)))
  {
    hide FirstExceeded, Simulates, InitLimits, InitTrace, InitResult, Executed, InstructionTrace, AtFrameReturn, ResultAtFrameReturn,
         ComputeRecorded, AfterFrame, AfterInstructions, ProcessedResult, ResultAfterFrame, Checked;
    match e
    case Begin(init) => InitSimulates(s.limits, init, d);
    case Enter =>
      TransactionUsage.ChecksKeepCompute(s.limits, 0);
      CheckedSpec(s.limits);
      OtherSimulates(s.limits, Checked(s.limits), d);
    case Execute(_, instruction) => ExecuteSimulates(s.limits, instruction, d);
    case CallOut(_, computeGas, init) =>
      var limits := ComputeRecorded(s.limits, computeGas);
      GasSimulates(s.limits, d, computeGas);
      if limits.latch.WithinLimit? {
        InitSimulates(limits, init, D.After(s.limits.spec, d, [D.Gas(computeGas)]));
        D.RunsCompose(s.limits.spec, d, [D.Gas(computeGas)], InitTrace(limits, init));
      } else {
        assert [D.Gas(computeGas)] + [] == [D.Gas(computeGas)];
      }
    case Stop(_, _, recorded) =>
      if recorded.Some? {
        ExecuteSimulates(s.limits, Plain(recorded.value), d);
        PlainTrace(s.limits, recorded.value);
      }
    case Finish(_, _, _) => FinishSimulates(s, e, d);
    case ReturnFrame => ReturnSimulates(s.limits, false, s.phase.result, d);
    case Conclude => ReturnSimulates(s.limits, true, s.phase.result, d);
  }

  lemma PlainTrace(l: Limits, gas: nat)
    ensures InstructionTrace(l, Plain(gas)) == [D.Gas(gas)]
  {
  }

  lemma {:induction false} RunsSimulate(s: Evm, events: seq<Event>, d: D.State)
    requires Shaped(s) && Simulates(s.limits, d) && Runs(s, events)
    ensures Shaped(After(s, events)) && After(s, events).limits.spec == s.limits.spec
    ensures Simulates(After(s, events).limits, D.After(s.limits.spec, d, Trace(s, events)))
  {
    hide Simulates, Step, StepTrace, Enabled, Shaped;
    if events == [] {
      assert D.After(s.limits.spec, d, []) == d;
    } else {
      var before, last := events[..|events| - 1], events[|events| - 1];
      RunsSimulate(s, before, d);
      StepSimulates(After(s, before), last, D.After(s.limits.spec, d, Trace(s, before)));
      StepKeepsShape(After(s, before), last);
      D.RunsCompose(s.limits.spec, d, Trace(s, before), StepTrace(After(s, before), last));
    }
  }

  /** The trace of a whole transaction, from its intrinsic gas on. */
  function TransactionTrace(start: Evm, events: seq<Event>, initialComputeGas: nat): seq<D.Event>
    requires Runs(start, events)
  {
    [D.Gas(initialComputeGas)] + Trace(start, events)
  }

  function ComputeOfTrace(l: Limits, trace: seq<D.Event>): ComputeState {
    D.After(l.spec, D.TransactionStart(l.spec, l.compute, None), trace).compute
  }

  /** Every transaction runs its compute gas as its trace, from the reset tracker. */
  lemma TransactionsSimulate(l: Limits, tx: Transaction, initialComputeGas: nat, gasLimit: nat, initialGas: nat,
                             start: Evm, events: seq<Event>)
    requires initialGas <= gasLimit && start == StartOf(l, tx, initialComputeGas, gasLimit, initialGas)
    requires Runs(start, events)
    ensures After(start, events).limits.compute == ComputeOfTrace(l, TransactionTrace(start, events, initialComputeGas))
  {
    hide Simulates, D.TransactionStart, OnlyPersistent, FirstExceeded, ComputeRecorded, Shaped;
    var first := D.TransactionStart(l.spec, l.compute, None);
    ResetSimulates(l);
    var reset := ResetLimits(l);
    TransactionUsage.ChecksKeepCompute(reset.(data := DataAtTxStart(reset.data, tx), kv := KvAtTxStart(reset.kv, tx)), 0);
    OtherSimulates(reset, AtTxStart(reset, tx), first);
    GasSimulates(AtTxStart(reset, tx), first, initialComputeGas);
    StartShape(l, tx, initialComputeGas, gasLimit, initialGas);
    var atStart := D.After(l.spec, first, [D.Gas(initialComputeGas)]);
    RunsSimulate(start, events, atStart);
    D.RunsCompose(l.spec, first, [D.Gas(initialComputeGas)], Trace(start, events));
    SimulatesCompute(After(start, events).limits, D.After(l.spec, atStart, Trace(start, events)));
  }

  lemma ResetSimulates(l: Limits)
    ensures Simulates(ResetLimits(l), D.TransactionStart(l.spec, l.compute, None))
    ensures OnlyPersistent(D.TransactionStart(l.spec, l.compute, None).compute.frames)
  {
    hide NetUsage, OnlyPersistent;
    D.StartUsage(l.spec, l.compute);
  }

  lemma SimulatesCompute(l: Limits, d: D.State)
    requires Simulates(l, d)
    ensures l.compute == d.compute
  {
  }

  /**
    Over every transaction the detained limit is the least of where it started and what each application
    reached, volatile opcodes and oracle calls alike: usage then plus the raw cap (Rex4), or the cap.
   */
  lemma DetainedIsLeastOverTransaction(l: Limits, tx: Transaction, initialComputeGas: nat, gasLimit: nat, initialGas: nat,
                                       start: Evm, events: seq<Event>)
    requires initialGas <= gasLimit && start == StartOf(l, tx, initialComputeGas, gasLimit, initialGas)
    requires Runs(start, events)
    ensures var first, trace := D.TransactionStart(l.spec, l.compute, None), TransactionTrace(start, events, initialComputeGas);
            var detained := After(start, events).limits.compute.detained;
            && detained <= first.compute.detained
            && (forall i: nat :: D.Applies(l.spec, first, trace, i) ==> detained <= D.AppliedReach(l.spec, first, trace, i))
            && (detained == first.compute.detained
                || exists i: nat :: D.Applies(l.spec, first, trace, i) && detained == D.AppliedReach(l.spec, first, trace, i))
  {
    hide StartOf, OnlyPersistent, TransactionTrace, D.TransactionStart, D.Applies, D.AppliedReach, D.After;
    TransactionsSimulate(l, tx, initialComputeGas, gasLimit, initialGas, start, events);
    ResetSimulates(l);
    D.DetainedIsLeastReach(l.spec, D.TransactionStart(l.spec, l.compute, None), TransactionTrace(start, events, initialComputeGas));
  }
}

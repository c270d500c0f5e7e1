/**
  Budgets over whole transactions: in every reachable state the ancestors of the current frame are
  within their Rex4 budgets, budgets decay geometrically, and no frame return is the first to see a
  transaction-level violation.
 */
module ExecutionBudgets {
  import opened Prelude
  import opened LimitTypes
  import opened FrameState
  import opened FrameRuns
  import opened TrackerState
  import opened LimitState
  import opened ExecutionState
  import opened ExecutionShape

  // ---------------------------------------------------------------------------------------------
  // One tracker of data size, KV updates or state growth
  // ---------------------------------------------------------------------------------------------

  /** No frame holds persistent usage. */
  ghost predicate Clean<I>(t: Tracker<I>) {
    forall i :: 0 <= i < |t.stack| ==> t.stack[i].persistent == 0
  }

  function Below<I>(t: Tracker<I>, i: nat): Tracker<I>
    requires i <= |t.stack|
  {
    Tracker(t.tx, t.stack[..i])
  }

  /** When each live frame was opened the transaction was within its limit. */
  ghost predicate OpenedWithin<I>(t: Tracker<I>) {
    forall i :: 0 <= i < |t.stack| ==> NetUsage(Below(t, i)) <= t.tx.limit
  }

  ghost predicate FramesOk<I>(spec: MegaSpecId, t: Tracker<I>, tripped: bool) {
    && Clean(t)
    && (spec.IsEnabled(Rex4) ==> Nested(t) && Decayed(t))
    && (!spec.IsEnabled(Rex4) && !tripped ==> OpenedWithin(t))
  }

  predicate TxUsageWithin<I>(spec: MegaSpecId, t: Tracker<I>) {
    !spec.IsEnabled(Rex4) ==> NetUsage(t) <= t.tx.limit
  }

  predicate FrameUsageWithin<I>(spec: MegaSpecId, t: Tracker<I>) {
    spec.IsEnabled(Rex4) ==> FrameWithin(t)
  }

  lemma RecordKeepsFramesOk<I>(spec: MegaSpecId, t: Tracker<I>, tripped: bool, n: nat, info: I)
    requires FramesOk(spec, t, tripped)
    ensures FramesOk(spec, AddDiscardable(t, n), tripped) && FramesOk(spec, AddRefund(t, n), tripped)
    ensures FramesOk(spec, SetInfo(t, info), tripped)
  {
    NestedRecordAny(spec, t, n, info);
    forall i | 0 <= i < |t.stack|
      ensures Below(AddDiscardable(t, n), i) == Below(t, i) == Below(AddRefund(t, n), i) == Below(SetInfo(t, info), i)
    {
      assert AddDiscardable(t, n).stack[..i] == t.stack[..i];
      assert AddRefund(t, n).stack[..i] == t.stack[..i];
      assert SetInfo(t, info).stack[..i] == t.stack[..i];
    }
  }

  lemma NestedRecordAny<I>(spec: MegaSpecId, t: Tracker<I>, n: nat, info: I)
    requires spec.IsEnabled(Rex4) ==> Nested(t) && Decayed(t)
    ensures spec.IsEnabled(Rex4) ==>
              && Nested(AddDiscardable(t, n)) && Nested(AddRefund(t, n)) && Nested(SetInfo(t, info))
              && Decayed(AddDiscardable(t, n)) && Decayed(AddRefund(t, n)) && Decayed(SetInfo(t, info))
  {
    if spec.IsEnabled(Rex4) {
      NestedRecord(t, n, info);
      StepDecays(t, Discard(n));
      StepDecays(t, Refund(n));
      StepDecays(t, Inform(info));
    }
  }

  lemma PushKeepsFramesOk<I>(spec: MegaSpecId, t: Tracker<I>, tripped: bool, info: I)
    requires FramesOk(spec, t, tripped) && FrameUsageWithin(spec, t) && (tripped || TxUsageWithin(spec, t))
    ensures FramesOk(spec, PushFor(spec, t, info), tripped)
    ensures FrameUsageWithin(spec, PushFor(spec, t, info))
    ensures NetUsage(PushFor(spec, t, info)) == NetUsage(t)
  {
    var next := PushFor(spec, t, info);
    if spec.IsEnabled(Rex4) {
      NestedPush(t, info);
      PushDecays(t, info);
      TotalOfPush(t, MaxForwardLimit(t), info);
    } else {
      TotalOfPush(t, U64_MAX, info);
      forall i | 0 <= i < |next.stack| && !tripped
        ensures NetUsage(Below(next, i)) <= t.tx.limit
      {
        assert next.stack[..i] == t.stack[..i];
        if i < |t.stack| {
          assert Below(next, i) == Below(t, i);
        } else {
          assert Below(next, i) == t;
        }
      }
    }
  }

  lemma FailedPopIsPrefix<I>(t: Tracker<I>)
    requires Clean(t) && t.stack != []
    ensures Pop(t, false) == Below(t, |t.stack| - 1)
  {
    var n := |t.stack|;
    if n > 1 {
      assert t.stack[..n - 2] + [t.stack[n - 2]] == t.stack[..n - 1];
    }
  }

  lemma PopKeepsFramesOk<I>(spec: MegaSpecId, t: Tracker<I>, tripped: bool, ok: bool)
    requires FramesOk(spec, t, tripped) && t.stack != []
    requires ok ==> FrameUsageWithin(spec, t)
    ensures FramesOk(spec, Pop(t, ok), tripped)
    ensures !tripped && TxUsageWithin(spec, t) ==> TxUsageWithin(spec, Pop(t, ok))
  {
    if spec.IsEnabled(Rex4) {
      hide NetUsage;
      NestedPop(t, ok);
      StepDecays(t, PopWith(ok));
    } else {
      hide NetUsage, Pop, Below;
      PopIsClean(t, ok);
      if !tripped {
        PopStaysOpenedWithin(t, ok);
      }
    }
  }

  lemma PopIsClean<I>(t: Tracker<I>, ok: bool)
    requires Clean(t) && t.stack != []
    ensures Clean(Pop(t, ok))
  {
    hide NetUsage;
  }

  lemma PopStaysOpenedWithin<I>(t: Tracker<I>, ok: bool)
    requires OpenedWithin(t) && Clean(t) && t.stack != []
    ensures OpenedWithin(Pop(t, ok))
    ensures NetUsage(t) <= t.tx.limit ==> NetUsage(Pop(t, ok)) <= t.tx.limit
  {
    var next := Pop(t, ok);
    forall i | 0 <= i < |next.stack|
      ensures NetUsage(Below(next, i)) <= t.tx.limit
    {
      assert Below(next, i) == Below(t, i) by {
        assert next.stack[..i] == t.stack[..i];
      }
    }
    if ok {
      TotalOfPop(t, true);
    } else {
      FailedPopIsPrefix(t);
    }
  }

  // ---------------------------------------------------------------------------------------------
  // The hooks
  // ---------------------------------------------------------------------------------------------

  lemma AccountUpdatesKeepFramesOk(spec: MegaSpecId, t: Tracker<CallFrameInfo>, tripped: bool, input: FrameInput, unit: nat)
    requires FramesOk(spec, t, tripped) && FrameUsageWithin(spec, t) && (tripped || TxUsageWithin(spec, t))
    ensures FramesOk(spec, AccountUpdatesOnFrameInit(spec, t, input, unit), tripped)
  {
    hide FramesOk;
    var info := if input.Call? then CallFrameInfo(Some(input.target), input.transfersValue) else CallFrameInfo(None, true);
    var pushed := PushFor(spec, t, info);
    PushKeepsFramesOk(spec, t, tripped, info);
    RecordKeepsFramesOk(spec, pushed, tripped, unit, info);
    RecordKeepsFramesOk(spec, AddDiscardable(pushed, unit), tripped, unit, info);
  }

  lemma GrowthKeepsFramesOk(spec: MegaSpecId, t: Tracker<()>, tripped: bool, input: FrameInput)
    requires FramesOk(spec, t, tripped) && FrameUsageWithin(spec, t) && (tripped || TxUsageWithin(spec, t))
    ensures FramesOk(spec, GrowthOnFrameInit(spec, t, input), tripped)
  {
    PushKeepsFramesOk(spec, t, tripped, ());
    RecordKeepsFramesOk(spec, PushFor(spec, t, ()), tripped, 1, ());
  }

  lemma CreatedKeepsFramesOk(spec: MegaSpecId, t: Tracker<CallFrameInfo>, tripped: bool, address: Address, unit: nat)
    requires FramesOk(spec, t, tripped)
    ensures FramesOk(spec, CreatedAccount(t, address, unit), tripped)
  {
    if t.stack != [] {
      var info := Top(t).info.(targetAddress := Some(address));
      RecordKeepsFramesOk(spec, t, tripped, 0, info);
      RecordKeepsFramesOk(spec, SetInfo(t, info), tripped, unit, info);
    }
  }

  /** Compute gas is only ever recorded as persistent usage. */
  predicate OnlyPersistent<I>(t: Tracker<I>) {
    Total(t).discardable == 0 && Total(t).refund == 0
  }

  lemma PersistentTotals<I>(t: Tracker<I>, gas: nat, limit: u64, info: I, ok: bool)
    requires OnlyPersistent(t)
    ensures Total(AddPersistent(t, gas)) == Total(t).Plus(Amounts(gas, 0, 0))
    ensures Total(PushWithLimit(t, limit, info)) == Total(t)
    ensures Total(Pop(t, ok)) == Total(t)
  {
    hide StackTotal;
    TotalOfRecords(t, gas);
    TotalOfPush(t, limit, info);
    if t.stack != [] {
      TotalOfPop(t, ok);
    }
  }

  lemma ComputeStep(spec: MegaSpecId, c: ComputeState, gas: nat, ok: bool)
    requires OnlyPersistent(c.frames) && (spec.IsEnabled(Rex4) ==> Decayed(c.frames))
    ensures OnlyPersistent(RecordGas(c, gas).frames) && RecordGas(c, gas).Usage() == c.Usage() + gas
    ensures OnlyPersistent(PushCompute(spec, c).frames) && PushCompute(spec, c).Usage() == c.Usage()
    ensures OnlyPersistent(PopCompute(c, ok).frames) && PopCompute(c, ok).Usage() == c.Usage()
    ensures spec.IsEnabled(Rex4) ==>
              Decayed(RecordGas(c, gas).frames) && Decayed(PushCompute(spec, c).frames) && Decayed(PopCompute(c, ok).frames)
    ensures PushCompute(spec, c).TxLimit() == PopCompute(c, ok).TxLimit() == RecordGas(c, gas).TxLimit() == c.TxLimit()
  {
    hide Total, Decayed;
    var t := c.frames;
    PersistentTotals(t, gas, if spec.IsEnabled(Rex4) then MaxForwardLimit(t) else U64_MAX, (), ok);
    if spec.IsEnabled(Rex4) {
      StepDecays(t, Persist(gas));
      StepDecays(t, PushForwarded(()));
      StepDecays(t, PopWith(ok));
    }
  }

  ghost predicate TrackersOk(l: Limits) {
    && FramesOk(l.spec, l.data, l.latch.IsTxLevel())
    && FramesOk(l.spec, l.kv, l.latch.IsTxLevel())
    && FramesOk(l.spec, l.growth, l.latch.IsTxLevel())
    && OnlyPersistent(l.compute.frames)
    && (l.spec.IsEnabled(Rex4) ==> Decayed(l.compute.frames))
  }

  predicate FramesWithin(l: Limits) {
    FrameUsageWithin(l.spec, l.data) && FrameUsageWithin(l.spec, l.kv) && FrameUsageWithin(l.spec, l.growth)
  }

  predicate UsagesWithin(l: Limits) {
    TxUsageWithin(l.spec, l.data) && TxUsageWithin(l.spec, l.kv) && TxUsageWithin(l.spec, l.growth)
  }

  predicate TxWithin(l: Limits) {
    UsagesWithin(l) && l.compute.Usage() <= l.compute.TxLimit()
  }

  /** What a check says: it passes only within every limit, and within every limit it reports nothing at transaction level. */
  lemma CheckMeaning(l: Limits)
    ensures Checked(l).latch.WithinLimit? ==> FramesWithin(l) && TxWithin(l)
    ensures l.latch.WithinLimit? && TxWithin(l) ==> !Checked(l).latch.IsTxLevel()
  {
  }

  lemma CheckKeepsTrackersOk(l: Limits)
    requires TrackersOk(l)
    ensures TrackersOk(Checked(l))
  {
    hide FirstExceeded, Nested, Decayed, Clean, OpenedWithin;
  }

  lemma PushedTrackersOk(l: Limits, input: FrameInput)
    requires TrackersOk(l) && FramesWithin(l) && (l.latch.IsTxLevel() || UsagesWithin(l))
    ensures TrackersOk(FramesPushed(l, input))
    ensures TrackersOk(EmptyFramePushed(l)) && FramesWithin(EmptyFramePushed(l))
    ensures TxWithin(l) ==> TxWithin(EmptyFramePushed(l))
  {
    hide FramesOk, AccountUpdatesOnFrameInit, GrowthOnFrameInit, PushFor, NetUsage;
    var tripped := l.latch.IsTxLevel();
    AccountUpdatesKeepFramesOk(l.spec, l.data, tripped, input, ACCOUNT_INFO_WRITE_SIZE);
    AccountUpdatesKeepFramesOk(l.spec, l.kv, tripped, input, KV_UPDATE);
    GrowthKeepsFramesOk(l.spec, l.growth, tripped, input);
    PushKeepsFramesOk(l.spec, l.data, tripped, EMPTY_FRAME);
    PushKeepsFramesOk(l.spec, l.kv, tripped, EMPTY_FRAME);
    PushKeepsFramesOk(l.spec, l.growth, tripped, ());
    ComputeStep(l.spec, l.compute, 0, true);
    LimitsOfPush(l);
  }

  lemma LimitsOfPush(l: Limits)
    ensures EmptyFramePushed(l).data.tx == l.data.tx && EmptyFramePushed(l).kv.tx == l.kv.tx
    ensures EmptyFramePushed(l).growth.tx == l.growth.tx
  {
  }

  lemma ComputeRecordKeeps(l: Limits, gas: nat)
    requires TrackersOk(l)
    ensures TrackersOk(ComputeRecorded(l, gas))
  {
    hide FirstExceeded, FramesOk, Decayed;
    ComputeStep(l.spec, l.compute, gas, true);
    CheckKeepsTrackersOk(l.(compute := RecordGas(l.compute, gas)));
  }

  /** Opening a frame keeps the trackers in order, and an ok result of it leaves the frame within its budgets. */
  lemma InitKeepsTrackersOk(l: Limits, init: Init)
    requires TrackersOk(l) && FramesWithin(l) && (l.latch.ExceedsLimit? || TxWithin(l))
    requires l.latch.IsFrameLocal() ==> UsagesWithin(l)
    requires init.Legal(l.spec)
    ensures TrackersOk(InitLimits(l, init))
    ensures InitResult(l, init).Finished? ==>
              && (InitLimits(l, init).latch.ExceedsLimit? || TxWithin(InitLimits(l, init)))
              && (InitResult(l, init).result.status.IsOk() ==> FramesWithin(InitLimits(l, init)))
  {
    hide FirstExceeded, FramesOk, Decayed, FramesPushed, EmptyFramePushed, FrameUsageWithin, TxUsageWithin, CreatedAccount;
    var d := InitDetained(l, init);
    DetainedKeeps(l, init);
    PushedTrackersOk(d, init.input);
    PushedKeeps(d, init.input);
    var p := FramesPushed(d, init.input);
    CheckKeepsTrackersOk(p);
    CheckMeaning(p);
    if init.handling.Forwarded? && Checked(p).latch.WithinLimit? {
      var c := AtFrameInit(d, init.input, init.gas);
      match init.handling.inner
      case Opened(created) =>
        if init.input.Create? {
          CreatedKeepsFramesOk(c.spec, c.data, false, created, ACCOUNT_INFO_WRITE_SIZE);
          CreatedKeepsFramesOk(c.spec, c.kv, false, created, KV_UPDATE);
        }
      case Immediate(status, gasLeft, computeGas) =>
        ComputeRecordKeeps(c, computeGas);
        CheckMeaning(c.(compute := RecordGas(c.compute, computeGas)));
    }
  }

  lemma DetainedKeeps(l: Limits, init: Init)
    ensures InitDetained(l, init) == l.(compute := InitDetained(l, init).compute)
    ensures InitDetained(l, init).compute.frames == l.compute.frames
    ensures init.oracleCap.None? ==> InitDetained(l, init) == l
  {
  }

  lemma PushedKeeps(l: Limits, input: FrameInput)
    ensures FramesPushed(l, input).spec == l.spec && FramesPushed(l, input).latch == l.latch
    ensures EmptyFramePushed(l).spec == l.spec && EmptyFramePushed(l).latch == l.latch
  {
  }

  lemma SstoreKeepsFramesOk(l: Limits, r: SStoreResult)
    requires TrackersOk(l)
    ensures TrackersOk(AtSstore(l, r))
  {
    hide FirstExceeded, FramesOk;
    var tripped := l.latch.IsTxLevel();
    if l.data.stack != [] { RecordKeepsFramesOk(l.spec, l.data, tripped, STORAGE_SLOT_WRITE_SIZE, Top(l.data).info); }
    if l.kv.stack != [] { RecordKeepsFramesOk(l.spec, l.kv, tripped, KV_UPDATE, Top(l.kv).info); }
    RecordKeepsFramesOk(l.spec, l.growth, tripped, 1, ());
    CheckKeepsTrackersOk(l.(data := SlotUpdate(l.data, r, STORAGE_SLOT_WRITE_SIZE), kv := SlotUpdate(l.kv, r, KV_UPDATE),
                            growth := GrowthOnSstore(l.growth, r)));
  }

  lemma DiscardKeepsTrackersOk(l: Limits, n: nat)
    requires TrackersOk(l)
    ensures TrackersOk(Checked(l.(data := AddDiscardable(l.data, n))))
  {
    hide FirstExceeded, FramesOk;
    if l.data.stack != [] { RecordKeepsFramesOk(l.spec, l.data, l.latch.IsTxLevel(), n, Top(l.data).info); }
    CheckKeepsTrackersOk(l.(data := AddDiscardable(l.data, n)));
  }

  lemma ExecutedKeepsTrackersOk(l: Limits, instruction: Instruction)
    requires TrackersOk(l)
    ensures TrackersOk(Executed(l, instruction))
    ensures Executed(l, instruction).latch.WithinLimit? ==> FramesWithin(Executed(l, instruction)) && UsagesWithin(Executed(l, instruction))
  {
    hide FirstExceeded, FramesOk, Decayed, FrameUsageWithin, TxUsageWithin, SlotUpdate, GrowthOnSstore;
    var recorded := l.(compute := RecordGas(l.compute, instruction.computeGas));
    var c := ComputeRecorded(l, instruction.computeGas);
    ComputeRecordKeeps(l, instruction.computeGas);
    CheckMeaning(recorded);
    match instruction
    case Plain(_) =>
    case Sstore(_, r) =>
      SstoreKeepsFramesOk(c, r);
      CheckMeaning(c.(data := SlotUpdate(c.data, r, STORAGE_SLOT_WRITE_SIZE), kv := SlotUpdate(c.kv, r, KV_UPDATE),
                      growth := GrowthOnSstore(c.growth, r)));
    case Log(_, topics, size) =>
      DiscardKeepsTrackersOk(c, topics * LOG_TOPIC_SIZE + size);
      CheckMeaning(c.(data := LogEmitted(c.data, topics, size)));
    case Volatile(_, _) =>
  }

  // ---------------------------------------------------------------------------------------------
  // Reachable states
  // ---------------------------------------------------------------------------------------------

  predicate AwaitsReturn(s: Evm) {
    s.phase.Returning? || (s.phase.Ending? && !s.phase.popped)
  }

  ghost predicate BudgetsOk(s: Evm) {
    && TrackersOk(s.limits)
    && (s.phase.Executing? ==> FramesWithin(s.limits) && UsagesWithin(s.limits))
    && (s.phase.Starting? || AwaitsReturn(s) ==> s.limits.latch.ExceedsLimit? || TxWithin(s.limits))
    && (AwaitsReturn(s) && s.phase.result.status.IsOk() ==> FramesWithin(s.limits))
  }

  lemma AfterInitKeepsBudgets(s: Evm, init: Init)
    requires TrackersOk(s.limits) && FramesWithin(s.limits) && (s.limits.latch.ExceedsLimit? || TxWithin(s.limits))
    requires s.limits.latch.IsFrameLocal() ==> s.limits.spec.IsEnabled(Rex4)
    requires init.Legal(s.limits.spec)
    ensures BudgetsOk(AfterInit(s, init))
  {
    hide FirstExceeded, TrackersOk, FramesWithin, InitLimits, InitResult;
    InitKeepsTrackersOk(s.limits, init);
  }

  lemma CallOutKeepsBudgets(s: Evm, e: Event)
    requires Shaped(s) && BudgetsOk(s) && Enabled(s, e) && e.CallOut?
    ensures BudgetsOk(StepCallOut(s, e))
  {
    hide FirstExceeded, TrackersOk, FramesWithin, AfterInit, UsagesWithin;
    var recorded := s.limits.(compute := RecordGas(s.limits.compute, e.computeGas));
    var limits := ComputeRecorded(s.limits, e.computeGas);
    ComputeRecordKeeps(s.limits, e.computeGas);
    CheckMeaning(recorded);
    if limits.latch.WithinLimit? {
      assert limits == recorded;
      AfterInitKeepsBudgets(s.(limits := limits, frames := WithTopGas(s.frames, TopFrame(s).gas - e.cost - e.init.gas),
                               burnt := s.burnt + e.cost), e.init);
    }
  }

  lemma FinishKeepsBudgets(s: Evm, e: Event)
    requires Shaped(s) && BudgetsOk(s) && Enabled(s, e) && e.Finish?
    ensures BudgetsOk(StepFinish(s, e))
  {
    hide FirstExceeded, TrackersOk, FramesWithin, ProcessedResult;
    var frame := TopFrame(s);
    var gasBefore := DepositGas(frame, s.phase.status, e.outputLength);
    var result := ProcessedResult(s.limits, frame, s.phase.status, e);
    var a := AfterInstructions(s.limits, frame.isCreate, e.outputLength);
    DiscardKeepsTrackersOk(s.limits, e.outputLength);
    ComputeRecordKeeps(a, SatSub(gasBefore, result.gas));
    var c := ComputeRecorded(a, SatSub(gasBefore, result.gas));
    CheckMeaning(a.(compute := RecordGas(a.compute, SatSub(gasBefore, result.gas))));
    CheckKeepsTrackersOk(c);
    RescuedMeaning(c, result.gas);
  }

  /** Rescuing is a check that may add to the rescued gas. */
  lemma RescuedMeaning(l: Limits, gas: nat)
    requires TrackersOk(l)
    ensures TrackersOk(Rescued(l, gas))
    ensures Rescued(l, gas).latch.ExceedsLimit? || (TxWithin(Rescued(l, gas)) && FramesWithin(Rescued(l, gas)))
  {
    hide FirstExceeded, FramesOk, Decayed;
    CheckKeepsTrackersOk(l);
    CheckMeaning(l);
  }

  lemma PoppedTrackersOk(l: Limits, ok: bool, height: nat)
    requires TrackersOk(l) && Aligned(l, height) && (ok ==> FramesWithin(l))
    ensures TrackersOk(FramesPopped(l, ok))
    ensures !l.latch.IsTxLevel() && TxWithin(l) ==> TxWithin(FramesPopped(l, ok))
  {
    hide FramesOk, NetUsage;
    if height > 0 {
      PopKeepsFramesOk(l.spec, l.data, l.latch.IsTxLevel(), ok);
      PopKeepsFramesOk(l.spec, l.kv, l.latch.IsTxLevel(), ok);
      PopKeepsFramesOk(l.spec, l.growth, l.latch.IsTxLevel(), ok);
    }
    ComputeStep(l.spec, l.compute, 0, ok);
  }

  lemma FrameReturnKeepsTrackersOk(l: Limits, lastFrame: bool, result: FrameResult, height: nat)
    requires TrackersOk(l) && Aligned(l, height) && (result.status.IsOk() ==> FramesWithin(l))
    ensures TrackersOk(AtFrameReturn(l, lastFrame, result))
  {
    hide FirstExceeded, FramesOk, FramesPopped;
    PoppedTrackersOk(l, result.status.IsOk(), height);
    CheckKeepsTrackersOk(FramesPopped(l, result.status.IsOk()));
  }

  lemma ReturnKeepsBudgets(s: Evm)
    requires Shaped(s) && BudgetsOk(s)
    ensures Enabled(s, ReturnFrame) ==> BudgetsOk(StepReturnFrame(s))
    ensures Enabled(s, Conclude) ==> BudgetsOk(StepConclude(s))
  {
    hide FirstExceeded, TrackersOk, FramesWithin, AtFrameReturn, ResultAtFrameReturn;
    if s.phase.Returning? {
      FrameReturnKeepsTrackersOk(s.limits, false, s.phase.result, Height(s));
    } else if s.phase.Ending? {
      if s.phase.popped {
        DuplicateReturnIsHarmless(s.limits, s.phase.result);
        CheckKeepsTrackersOk(s.limits);
      } else {
        FrameReturnKeepsTrackersOk(s.limits, true, s.phase.result, Height(s));
      }
    }
  }

  lemma StepKeepsBudgets(s: Evm, e: Event)
    requires Shaped(s) && BudgetsOk(s) && Enabled(s, e)
    ensures BudgetsOk(Step(s, e))
  {
    hide FirstExceeded, TrackersOk, InitLimits, InitResult, Executed, AfterFrame, AtFrameReturn, ResultAtFrameReturn;
    match e
    case Begin(init) => AfterInitKeepsBudgets(s, init);
    case Enter => CheckKeepsTrackersOk(s.limits); CheckMeaning(s.limits);
    case Execute(_, instruction) => ExecutedKeepsTrackersOk(s.limits, instruction);
    case CallOut(_, _, _) => CallOutKeepsBudgets(s, e);
    case Stop(_, _, recorded) => if recorded.Some? { ExecutedKeepsTrackersOk(s.limits, Plain(recorded.value)); }
    case Finish(_, _, _) => FinishKeepsBudgets(s, e);
    case ReturnFrame => ReturnKeepsBudgets(s);
    case Conclude => ReturnKeepsBudgets(s);
  }

  lemma EmptyStackIsOk<I>(spec: MegaSpecId, t: Tracker<I>, tripped: bool)
    requires t.stack == []
    ensures FramesOk(spec, t, tripped)
  {
  }

  lemma ResetTrackerIsOk<I>(t: Tracker<I>)
    requires t.stack == [] && t.tx.discardable == 0 && t.tx.refund == 0
    ensures OnlyPersistent(t) && Decayed(t)
  {
  }

  lemma ResetIsOk(l: Limits, tx: Transaction)
    ensures TrackersOk(ResetLimits(l).(data := DataAtTxStart(ResetLimits(l).data, tx), kv := KvAtTxStart(ResetLimits(l).kv, tx)))
  {
    hide FramesOk, OnlyPersistent, Decayed, Authorities;
    var reset := ResetLimits(l);
    EmptyStackIsOk(l.spec, DataAtTxStart(reset.data, tx), false);
    EmptyStackIsOk(l.spec, KvAtTxStart(reset.kv, tx), false);
    EmptyStackIsOk(l.spec, reset.growth, false);
    ResetTrackerIsOk(reset.compute.frames);
  }

  lemma StartKeepsBudgets(l: Limits, tx: Transaction, initialComputeGas: nat, gasLimit: nat, initialGas: nat)
    requires initialGas <= gasLimit
    ensures BudgetsOk(StartOf(l, tx, initialComputeGas, gasLimit, initialGas))
  {
    hide FirstExceeded, TrackersOk, FramesWithin, UsagesWithin;
    var reset := ResetLimits(l);
    ResetIsOk(l, tx);
    CheckKeepsTrackersOk(reset.(data := DataAtTxStart(reset.data, tx), kv := KvAtTxStart(reset.kv, tx)));
    var started := AtTxStart(reset, tx);
    ComputeRecordKeeps(started, initialComputeGas);
    CheckMeaning(started.(compute := RecordGas(started.compute, initialComputeGas)));
  }

  lemma {:induction false} ReachableStatesKeepBudgets(s: Evm, events: seq<Event>)
    requires Shaped(s) && BudgetsOk(s) && Runs(s, events)
    ensures Shaped(After(s, events)) && BudgetsOk(After(s, events))
    ensures After(s, events).limits.spec == s.limits.spec
  {
    if events != [] {
      var before := events[..|events| - 1];
      ReachableStatesKeepBudgets(s, before);
      StepKeepsShape(After(s, before), events[|events| - 1]);
      StepKeepsBudgets(After(s, before), events[|events| - 1]);
    }
  }

  /**
    A frame return is never the first to see a transaction-level violation: a result is marked out
    of gas only for one that was latched before the frame returned. The duplicate return is another
    matter: with no frame left it checks the transaction, and may latch a violation, without effect,
    after a first frame's own violation was absorbed.
   */
  lemma FrameReturnNeverTripsFirst(s: Evm)
    requires Shaped(s) && BudgetsOk(s) && AwaitsReturn(s)
    ensures AtFrameReturn(s.limits, s.phase.Ending?, s.phase.result).latch.IsTxLevel() ==> s.limits.latch.IsTxLevel()
  {
    hide FirstExceeded, TrackersOk, FramesWithin, FramesPopped, TxWithin;
    var ok := s.phase.result.status.IsOk();
    PoppedTrackersOk(s.limits, ok, Height(s));
    CheckMeaning(FramesPopped(s.limits, ok));
    PoppedKeeps(s.limits, ok);
  }

  lemma PoppedKeeps(l: Limits, ok: bool)
    ensures FramesPopped(l, ok).latch == l.latch && FramesPopped(l, ok).spec == l.spec
  {
  }

  // ---------------------------------------------------------------------------------------------
  // Rex4: what a transaction can use beyond its pre-frame usage
  // ---------------------------------------------------------------------------------------------

  predicate TxEntriesKept(l: Limits, next: Limits) {
    next.data.tx == l.data.tx && next.kv.tx == l.kv.tx && next.growth.tx == l.growth.tx
  }

  lemma HooksKeepTxEntries(l: Limits, init: Init, instruction: Instruction)
    ensures TxEntriesKept(l, Checked(l)) && TxEntriesKept(l, FramesPushed(l, init.input))
    ensures TxEntriesKept(l, EmptyFramePushed(l)) && TxEntriesKept(l, Executed(l, instruction))
  {
    hide FirstExceeded, MaxForwardLimit, FramesPushed, EmptyFramePushed;
    PushesKeepTxEntries(l, init.input);
  }

  lemma PushesKeepTxEntries(l: Limits, input: FrameInput)
    ensures TxEntriesKept(l, FramesPushed(l, input)) && TxEntriesKept(l, EmptyFramePushed(l))
  {
    hide MaxForwardLimit;
  }

  lemma InitKeepsTxEntries(l: Limits, init: Init)
    ensures TxEntriesKept(l, InitLimits(l, init))
  {
    hide FirstExceeded, FramesPushed, EmptyFramePushed;
    HooksKeepTxEntries(InitDetained(l, init), init, Plain(0));
  }

  lemma FinishKeepsTxEntries(l: Limits, isCreate: bool, outputLength: nat, result: FrameResult, gasBefore: nat)
    ensures TxEntriesKept(l, AfterFrame(AfterInstructions(l, isCreate, outputLength), result, gasBefore))
  {
    hide FirstExceeded;
  }

  ghost predicate Spends<I>(start: Tracker<I>, t: Tracker<I>) {
    NetUsage(t) <= start.tx.Used() + start.tx.limit
  }

  ghost predicate UsageBounded(l0: Limits, s: Evm) {
    && (Height(s) > 0 || s.phase.Starting? ==> TxEntriesKept(l0, s.limits))
    && (Height(s) == 0 && !s.phase.Starting? ==>
          Spends(l0.data, s.limits.data) && Spends(l0.kv, s.limits.kv) && Spends(l0.growth, s.limits.growth))
  }

  lemma FinalPop<I>(spec: MegaSpecId, t: Tracker<I>, tripped: bool, ok: bool)
    requires spec.IsEnabled(Rex4) && FramesOk(spec, t, tripped) && |t.stack| == 1 && (ok ==> FrameWithin(t))
    ensures NetUsage(Pop(t, ok)) <= t.tx.Used() + t.tx.limit
  {
    if ok {
      NestedUsage(t);
      TotalOfPop(t, true);
    } else {
      FailedPopIsPrefix(t);
      NestedUsage(Below(t, 0));
    }
  }

  lemma FrameReturnBoundsUsage(l0: Limits, l: Limits, lastFrame: bool, result: FrameResult, height: nat)
    requires l.spec.IsEnabled(Rex4) && TrackersOk(l) && TxEntriesKept(l0, l) && Aligned(l, height) && height > 0
    requires result.status.IsOk() ==> FramesWithin(l)
    ensures var next := AtFrameReturn(l, lastFrame, result);
            if height > 1 then TxEntriesKept(l0, next)
            else Spends(l0.data, next.data) && Spends(l0.kv, next.kv) && Spends(l0.growth, next.growth)
  {
    hide FirstExceeded, FramesOk, NetUsage;
    if height == 1 {
      FinalPop(l.spec, l.data, l.latch.IsTxLevel(), result.status.IsOk());
      FinalPop(l.spec, l.kv, l.latch.IsTxLevel(), result.status.IsOk());
      FinalPop(l.spec, l.growth, l.latch.IsTxLevel(), result.status.IsOk());
    }
  }

  lemma StepBoundsUsage(l0: Limits, s: Evm, e: Event)
    requires Shaped(s) && BudgetsOk(s) && Enabled(s, e) && UsageBounded(l0, s) && s.limits.spec.IsEnabled(Rex4)
    ensures UsageBounded(l0, Step(s, e))
  {
    hide FirstExceeded, TrackersOk, FramesWithin, Spends, InitLimits, InitResult, Executed, AfterFrame, AtFrameReturn, ResultAtFrameReturn, AfterInstructions;
    match e
    case Begin(init) => InitKeepsTxEntries(s.limits, init);
    case Enter =>
    case Execute(_, instruction) =>
      HooksKeepTxEntries(s.limits, Init(Create, 0, None, Forwarded(Opened(0))), instruction);
    case CallOut(_, computeGas, init) =>
      HooksKeepTxEntries(s.limits, init, Plain(computeGas));
      InitKeepsTxEntries(ComputeRecorded(s.limits, computeGas), init);
    case Stop(_, _, recorded) =>
      if recorded.Some? {
        HooksKeepTxEntries(s.limits, Init(Create, 0, None, Forwarded(Opened(0))), Plain(recorded.value));
        InstructionAligns(s.limits, Plain(recorded.value), Height(s));
      }
    case Finish(outputLength, _, _) =>
      FinishKeepsTxEntries(s.limits, TopFrame(s).isCreate, outputLength,
                           ProcessedResult(s.limits, TopFrame(s), s.phase.status, e),
                           DepositGas(TopFrame(s), s.phase.status, outputLength));
    case ReturnFrame => FrameReturnBoundsUsage(l0, s.limits, false, s.phase.result, Height(s));
    case Conclude =>
      if s.phase.popped {
        DuplicateReturnIsHarmless(s.limits, s.phase.result);
      } else {
        FrameReturnBoundsUsage(l0, s.limits, true, s.phase.result, Height(s));
      }
  }

  lemma {:induction false} ReachableStatesBoundUsage(l0: Limits, s: Evm, events: seq<Event>)
    requires Shaped(s) && BudgetsOk(s) && UsageBounded(l0, s) && s.limits.spec.IsEnabled(Rex4) && Runs(s, events)
    ensures UsageBounded(l0, After(s, events))
  {
    if events != [] {
      var before := events[..|events| - 1];
      ReachableStatesBoundUsage(l0, s, before);
      ReachableStatesKeepBudgets(s, before);
      StepBoundsUsage(l0, After(s, before), events[|events| - 1]);
    }
  }

  /** One of data size, KV updates and state growth in a reachable Rex4 state, seen from the start of the transaction. */
  ghost predicate Rex4Budget<I>(start: Tracker<I>, t: Tracker<I>) {
    && Nested(t)
    && Decayed(t)
    && (FrameWithin(t) ==> NetUsage(t) <= start.tx.Used() + start.tx.limit)
  }

  lemma BudgetOfTracker<I>(spec: MegaSpecId, start: Tracker<I>, t: Tracker<I>, tripped: bool)
    requires spec.IsEnabled(Rex4) && FramesOk(spec, t, tripped)
    requires t.tx == start.tx || Spends(start, t)
    ensures Rex4Budget(start, t)
  {
    if FrameWithin(t) {
      NestedUsage(t);
    }
  }

  /**
    Rex4 budgets over whole transactions: every ancestor of the current frame is within its limit,
    budgets decay by 98/100 per level, and while the current frame is within its limit the usage
    exceeds the pre-frame usage by at most the transaction limit.
   */
  lemma Rex4BudgetsHold(l: Limits, tx: Transaction, initialComputeGas: nat, gasLimit: nat, initialGas: nat,
                        start: Evm, events: seq<Event>)
    requires initialGas <= gasLimit && start == StartOf(l, tx, initialComputeGas, gasLimit, initialGas)
    requires start.limits.spec.IsEnabled(Rex4) && Runs(start, events)
    ensures var end := After(start, events);
            && Rex4Budget(start.limits.data, end.limits.data)
            && Rex4Budget(start.limits.kv, end.limits.kv)
            && Rex4Budget(start.limits.growth, end.limits.growth)
            && Decayed(end.limits.compute.frames)
  {
    hide StartOf, Nested, Decayed, FrameWithin, NetUsage, Spends, FirstExceeded, FramesOk;
    StartShape(l, tx, initialComputeGas, gasLimit, initialGas);
    StartKeepsBudgets(l, tx, initialComputeGas, gasLimit, initialGas);
    ReachableStatesKeepBudgets(start, events);
    ReachableStatesBoundUsage(start.limits, start, events);
    var end := After(start, events).limits;
    BudgetOfTracker(end.spec, start.limits.data, end.data, end.latch.IsTxLevel());
    BudgetOfTracker(end.spec, start.limits.kv, end.kv, end.latch.IsTxLevel());
    BudgetOfTracker(end.spec, start.limits.growth, end.growth, end.latch.IsTxLevel());
  }
}

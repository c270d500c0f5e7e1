/**
  What a transaction is charged, in plain numbers: a ledger beside the execution loop that knows only
  the events, and what the trackers report in every reachable state.
 */
module TransactionUsage {
  import opened Prelude
  import opened LimitTypes
  import opened FrameState
  import opened FrameRuns
  import opened TrackerState
  import opened LimitState
  import opened ExecutionState
  import opened ExecutionShape
  import opened ExecutionBudgets
  import Detention

  // ---------------------------------------------------------------------------------------------
  // The ledger
  // ---------------------------------------------------------------------------------------------

  /** One count: what is charged to the transaction for good, and to each live frame so far. */
  datatype Column = Column(base: int, frames: seq<int>)

  function OpenedColumn(c: Column, amount: int): Column {
    c.(frames := c.frames + [amount])
  }

  function AddedColumn(c: Column, amount: int): Column {
    var n := |c.frames|;
    if n == 0 then c else c.(frames := c.frames[n - 1 := c.frames[n - 1] + amount])
  }

  /** A frame that ends well hands its count down; one that fails takes it along. */
  function ClosedColumn(c: Column, ok: bool): Column {
    var n := |c.frames|;
    if n == 0 then c
    else
      var kept := if ok then c.frames[n - 1] else 0;
      if n == 1 then Column(c.base + kept, [])
      else c.(frames := c.frames[..n - 2] + [c.frames[n - 2] + kept])
  }

  function SumOf(amounts: seq<int>): int {
    if amounts == [] then 0 else SumOf(amounts[..|amounts| - 1]) + amounts[|amounts| - 1]
  }

  /** What is reported of a column: never less than nothing. */
  function Reported(c: Column): nat {
    var sum := c.base + SumOf(c.frames);
    if sum < 0 then 0 else sum
  }

  /** The counts of a transaction, and for each live frame whether its account's update is paid for. */
  datatype Ledger = Ledger(kv: Column, data: Column, growth: Column, updated: seq<bool>)

  function Noted(g: Ledger, updates: int, bytes: int, growth: int): Ledger {
    g.(kv := AddedColumn(g.kv, updates), data := AddedColumn(g.data, bytes), growth := AddedColumn(g.growth, growth))
  }

  function OpenedLedger(g: Ledger, updates: int, growth: int, updated: bool): Ledger {
    Ledger(OpenedColumn(g.kv, updates), OpenedColumn(g.data, 40 * updates), OpenedColumn(g.growth, growth),
           g.updated + [updated])
  }

  /**
    A call that transfers value updates the callee's account, a create the created one once it is
    there; either updates the caller's account, unless the caller's own frame was a create or came
    with value.
   */
  function InitLedger(l: Limits, init: Init, g: Ledger): Ledger {
    var caller := if g.updated != [] && !g.updated[|g.updated| - 1] then 1 else 0;
    if init.handling.Intercepted? then OpenedLedger(g, 0, 0, false)
    else
      match init.input
      case Call(_, transfersValue, targetEmpty) =>
        if transfersValue then OpenedLedger(g, 1 + caller, if targetEmpty then 1 else 0, true)
        else OpenedLedger(g, 0, 0, false)
      case Create =>
        var opened_ := OpenedLedger(g, caller, 1, true);
        if InitResult(l, init).Item? then Noted(opened_, 1, 40, 0) else opened_
  }

  function UpdatesOf(r: SStoreResult): int {
    if r.original == r.present && r.new_ != r.original then 1
    else if r.original != r.present && r.new_ == r.original then -1
    else 0
  }

  function GrowthOf(r: SStoreResult): int {
    if r.original == 0 && r.present == 0 && r.new_ != 0 then 1
    else if r.original == 0 && r.present != 0 && r.new_ == 0 then -1
    else 0
  }

  /** Writes and logs count unless their own compute gas trips a transaction-level limit. */
  function InstructionLedger(l: Limits, instruction: Instruction, g: Ledger): Ledger {
    if ComputeRecorded(l, instruction.computeGas).latch.IsTxLevel() then g
    else
      match instruction
      case Sstore(_, r) => Noted(g, UpdatesOf(r), 40 * UpdatesOf(r), GrowthOf(r))
      case Log(_, topics, size) => Noted(g, 0, 32 * topics + size, 0)
      case _ => g
  }

  function LedgerStep(s: Evm, e: Event, g: Ledger): Ledger
    requires Enabled(s, e)
  {
    match e
    case Begin(init) => InitLedger(s.limits, init, g)
    case Execute(_, instruction) => InstructionLedger(s.limits, instruction, g)
    case CallOut(_, computeGas, init) =>
      var limits := ComputeRecorded(s.limits, computeGas);
      if limits.latch.ExceedsLimit? then g else InitLedger(limits, init, g)
    case Finish(outputLength, _, _) => if TopFrame(s).isCreate then Noted(g, 0, outputLength, 0) else g
    case ReturnFrame => ClosedLedger(g, s.phase.result.status.IsOk())
    case Conclude => ClosedLedger(g, s.phase.result.status.IsOk())
    case _ => g
  }

  function ClosedLedger(g: Ledger, ok: bool): Ledger {
    Ledger(ClosedColumn(g.kv, ok), ClosedColumn(g.data, ok), ClosedColumn(g.growth, ok),
           if g.updated == [] then [] else g.updated[..|g.updated| - 1])
  }

  function LedgerAfter(s: Evm, events: seq<Event>, g: Ledger): Ledger
    requires Runs(s, events)
  {
    if events == [] then g
    else LedgerStep(After(s, events[..|events| - 1]), events[|events| - 1], LedgerAfter(s, events[..|events| - 1], g))
  }

  // ---------------------------------------------------------------------------------------------
  // A tracker follows its column
  // ---------------------------------------------------------------------------------------------

  ghost predicate Holds<I>(t: Tracker<I>, c: Column) {
    && t.tx.Net() == c.base && |t.stack| == |c.frames|
    && forall i :: 0 <= i < |t.stack| ==> t.stack[i].persistent == 0 && t.stack[i].Net() == c.frames[i]
  }

  lemma HoldsAfterPush<I>(spec: MegaSpecId, t: Tracker<I>, c: Column, info: I)
    requires Holds(t, c)
    ensures Holds(PushFor(spec, t, info), OpenedColumn(c, 0))
    ensures |PushFor(spec, t, info).stack| == |t.stack| + 1
    ensures forall i :: 0 <= i < |t.stack| ==> PushFor(spec, t, info).stack[i] == t.stack[i]
    ensures Top(PushFor(spec, t, info)).info == info
  {
    hide MaxForwardLimit;
  }

  lemma HoldsAfterRecord<I>(t: Tracker<I>, c: Column, n: nat)
    requires Holds(t, c)
    ensures Holds(AddDiscardable(t, n), AddedColumn(c, n)) && Holds(AddRefund(t, n), AddedColumn(c, 0 - n))
  {
  }

  lemma AddingTwice(c: Column, m: int, n: int)
    ensures AddedColumn(AddedColumn(c, m), n) == AddedColumn(c, m + n)
    ensures AddedColumn(OpenedColumn(c, m), n) == OpenedColumn(c, m + n)
    ensures AddedColumn(c, 0) == c
  {
    assert (c.frames + [m])[|c.frames| := m + n] == c.frames + [m + n];
  }

  lemma HoldsAfterPop<I>(t: Tracker<I>, c: Column, ok: bool)
    requires Holds(t, c)
    ensures Holds(Pop(t, ok), ClosedColumn(c, ok))
  {
  }

  lemma {:induction false} StackSum<I>(stack: seq<Entry<I>>, amounts: seq<int>)
    requires |stack| == |amounts| && forall i :: 0 <= i < |stack| ==> stack[i].Net() == amounts[i]
    ensures StackTotal(stack).Net() == SumOf(amounts)
  {
    if stack != [] {
      StackSum(stack[..|stack| - 1], amounts[..|amounts| - 1]);
    }
  }

  lemma HoldsReports<I>(t: Tracker<I>, c: Column)
    requires Holds(t, c)
    ensures NetUsage(t) == Reported(c)
  {
    StackSum(t.stack, c.frames);
  }

  // ---------------------------------------------------------------------------------------------
  // The hooks follow the ledger
  // ---------------------------------------------------------------------------------------------

  ghost predicate Updated(t: Tracker<CallFrameInfo>, updated: seq<bool>) {
    |t.stack| == |updated| && forall i :: 0 <= i < |updated| ==> t.stack[i].info.targetUpdated == updated[i]
  }

  ghost predicate Metered(l: Limits, g: Ledger) {
    && Holds(l.kv, g.kv) && Holds(l.data, g.data) && Holds(l.growth, g.growth)
    && Updated(l.kv, g.updated) && Updated(l.data, g.updated)
  }

  lemma UpdatedAfterRecord(t: Tracker<CallFrameInfo>, updated: seq<bool>, n: nat)
    requires Updated(t, updated)
    ensures Updated(AddDiscardable(t, n), updated) && Updated(AddRefund(t, n), updated)
  {
  }

  /** Account updates of one tracker at a frame init, in units. */
  lemma AccountsFollow(spec: MegaSpecId, t: Tracker<CallFrameInfo>, c: Column, updated: seq<bool>, input: FrameInput, unit: nat)
    requires Holds(t, c) && Updated(t, updated)
    ensures var next := AccountUpdatesOnFrameInit(spec, t, input, unit);
            var caller := if updated != [] && !updated[|updated| - 1] then 1 else 0;
            && Updated(next, updated + [input.Create? || input.transfersValue])
            && Holds(next, OpenedColumn(c, unit * if input.Create? then caller else if input.transfersValue then 1 + caller else 0))
  {
    hide PushFor, AddDiscardable, Holds;
    var info := if input.Call? then CallFrameInfo(Some(input.target), input.transfersValue) else CallFrameInfo(None, true);
    var pushed := PushFor(spec, t, info);
    HoldsAfterPush(spec, t, c, info);
    assert Updated(pushed, updated + [info.targetUpdated]);
    HoldsAfterRecord(pushed, OpenedColumn(c, 0), unit);
    UpdatedAfterRecord(pushed, updated + [info.targetUpdated], unit);
    var once := AddDiscardable(pushed, unit);
    HoldsAfterRecord(once, AddedColumn(OpenedColumn(c, 0), unit), unit);
    UpdatedAfterRecord(once, updated + [info.targetUpdated], unit);
    AddingTwice(c, 0, unit);
    AddingTwice(c, unit, unit);
  }

  lemma GrowthFollows(spec: MegaSpecId, t: Tracker<()>, c: Column, input: FrameInput)
    requires Holds(t, c)
    ensures Holds(GrowthOnFrameInit(spec, t, input),
                  OpenedColumn(c, if input.Create? || (input.transfersValue && input.targetEmpty) then 1 else 0))
  {
    hide PushFor, AddDiscardable, Holds;
    HoldsAfterPush(spec, t, c, ());
    HoldsAfterRecord(PushFor(spec, t, ()), OpenedColumn(c, 0), 1);
    AddingTwice(c, 0, 1);
  }

  lemma CreatedFollows(t: Tracker<CallFrameInfo>, c: Column, updated: seq<bool>, address: Address, unit: nat)
    requires Holds(t, c) && Updated(t, updated)
    ensures Holds(CreatedAccount(t, address, unit), AddedColumn(c, unit)) && Updated(CreatedAccount(t, address, unit), updated)
  {
    if t.stack != [] {
      var informed := SetInfo(t, Top(t).info.(targetAddress := Some(address)));
      assert Holds(informed, c) && Updated(informed, updated);
      HoldsAfterRecord(informed, c, unit);
      UpdatedAfterRecord(informed, updated, unit);
    }
  }

  lemma SlotFollows<I>(t: Tracker<I>, c: Column, r: SStoreResult, unit: nat)
    requires Holds(t, c)
    ensures Holds(SlotUpdate(t, r, unit), AddedColumn(c, unit * UpdatesOf(r)))
  {
    hide Holds;
    HoldsAfterRecord(t, c, unit);
    AddingTwice(c, 0, 0);
  }

  lemma GrowthSlotFollows(t: Tracker<()>, c: Column, r: SStoreResult)
    requires Holds(t, c)
    ensures Holds(GrowthOnSstore(t, r), AddedColumn(c, GrowthOf(r)))
  {
    hide Holds;
    HoldsAfterRecord(t, c, 1);
    AddingTwice(c, 0, 0);
  }

  lemma SlotKeepsUpdated(t: Tracker<CallFrameInfo>, updated: seq<bool>, r: SStoreResult, unit: nat)
    requires Updated(t, updated)
    ensures Updated(SlotUpdate(t, r, unit), updated)
  {
    UpdatedAfterRecord(t, updated, unit);
  }

  /** The trackers that are metered, alone. */
  predicate SameMeters(l: Limits, next: Limits) {
    next.kv == l.kv && next.data == l.data && next.growth == l.growth && next.spec == l.spec
  }

  lemma ChecksKeepMeters(l: Limits, gas: nat)
    ensures SameMeters(l, Checked(l)) && SameMeters(l, ComputeRecorded(l, gas)) && SameMeters(l, Rescued(l, gas))
  {
    hide FirstExceeded;
  }

  lemma PushedFollow(l: Limits, input: FrameInput, g: Ledger)
    requires Metered(l, g)
    ensures var caller := if g.updated != [] && !g.updated[|g.updated| - 1] then 1 else 0;
            match input
            case Call(_, transfersValue, targetEmpty) =>
              Metered(FramesPushed(l, input),
                      if transfersValue then OpenedLedger(g, 1 + caller, if targetEmpty then 1 else 0, true)
                      else OpenedLedger(g, 0, 0, false))
            case Create => Metered(FramesPushed(l, input), OpenedLedger(g, caller, 1, true))
    ensures Metered(EmptyFramePushed(l), OpenedLedger(g, 0, 0, false))
  {
    hide AccountUpdatesOnFrameInit, GrowthOnFrameInit, Holds, Updated, PushFor;
    AccountsFollow(l.spec, l.kv, g.kv, g.updated, input, KV_UPDATE);
    AccountsFollow(l.spec, l.data, g.data, g.updated, input, ACCOUNT_INFO_WRITE_SIZE);
    GrowthFollows(l.spec, l.growth, g.growth, input);
    EmptyFollows(l.spec, l.kv, g.kv, g.updated);
    EmptyFollows(l.spec, l.data, g.data, g.updated);
    HoldsAfterPush(l.spec, l.growth, g.growth, ());
  }

  lemma EmptyFollows(spec: MegaSpecId, t: Tracker<CallFrameInfo>, c: Column, updated: seq<bool>)
    requires Holds(t, c) && Updated(t, updated)
    ensures Holds(PushFor(spec, t, EMPTY_FRAME), OpenedColumn(c, 0)) && Updated(PushFor(spec, t, EMPTY_FRAME), updated + [false])
  {
    hide PushFor, Holds;
    HoldsAfterPush(spec, t, c, EMPTY_FRAME);
  }

  lemma InitFollows(l: Limits, init: Init, g: Ledger)
    requires Metered(l, g) && init.Legal(l.spec)
    ensures Metered(InitLimits(l, init), InitLedger(l, init, g))
  {
    hide FirstExceeded, FramesPushed, EmptyFramePushed, Holds, Updated, Checked, ComputeRecorded, Rescued, CreatedAccount,
         OpenedLedger;
    var d := InitDetained(l, init);
    DetainedKeeps(l, init);
    PushedFollow(d, init.input, g);
    if init.handling.Forwarded? {
      var c := FrameInitChecked(d, init.input);
      ChecksKeepMeters(FramesPushed(d, init.input), 0);
      ChecksKeepMeters(c, init.gas);
      match init.handling.inner
      case Opened(created) =>
        if init.input.Create? && c.latch.WithinLimit? {
          var opened_ := OpenedLedger(g, if g.updated != [] && !g.updated[|g.updated| - 1] then 1 else 0, 1, true);
          CreatedFollows(c.kv, opened_.kv, opened_.updated, created, KV_UPDATE);
          CreatedFollows(c.data, opened_.data, opened_.updated, created, ACCOUNT_INFO_WRITE_SIZE);
          AddingTwice(opened_.growth, 0, 0);
        }
      case Immediate(_, gasLeft, computeGas) =>
        ChecksKeepMeters(c, computeGas);
        ChecksKeepMeters(ComputeRecorded(c, computeGas), gasLeft);
    }
  }

  lemma InstructionFollows(l: Limits, instruction: Instruction, g: Ledger)
    requires Metered(l, g)
    ensures Metered(Executed(l, instruction), InstructionLedger(l, instruction, g))
  {
    hide FirstExceeded, Holds, Updated, Checked, ComputeRecorded, SlotUpdate, GrowthOnSstore, AddDiscardable, Detained;
    var c := ComputeRecorded(l, instruction.computeGas);
    ChecksKeepMeters(l, instruction.computeGas);
    match instruction
    case Plain(_) =>
    case Sstore(_, r) =>
      SlotFollows(c.kv, g.kv, r, KV_UPDATE);
      SlotFollows(c.data, g.data, r, STORAGE_SLOT_WRITE_SIZE);
      GrowthSlotFollows(c.growth, g.growth, r);
      SlotKeepsUpdated(c.kv, g.updated, r, KV_UPDATE);
      SlotKeepsUpdated(c.data, g.updated, r, STORAGE_SLOT_WRITE_SIZE);
      ChecksKeepMeters(c.(data := SlotUpdate(c.data, r, STORAGE_SLOT_WRITE_SIZE), kv := SlotUpdate(c.kv, r, KV_UPDATE),
                          growth := GrowthOnSstore(c.growth, r)), 0);
    case Log(_, topics, size) =>
      BytesFollow(c, g, 32 * topics + size);
    case Volatile(_, cap) => DetentionKeepsMeters(c, cap);
  }

  lemma DetentionKeepsMeters(l: Limits, cap: u64)
    ensures SameMeters(l, Detained(l, cap))
  {
  }

  lemma BytesFollow(l: Limits, g: Ledger, n: nat)
    requires Metered(l, g)
    ensures Metered(Checked(l.(data := AddDiscardable(l.data, n))), Noted(g, 0, n, 0))
  {
    hide FirstExceeded, Holds, Updated, AddDiscardable;
    HoldsAfterRecord(l.data, g.data, n);
    UpdatedAfterRecord(l.data, g.updated, n);
    AddingTwice(g.kv, 0, 0);
    AddingTwice(g.growth, 0, 0);
  }

  lemma FinishFollows(s: Evm, e: Event, g: Ledger)
    requires Metered(s.limits, g) && Enabled(s, e) && e.Finish?
    ensures Metered(StepFinish(s, e).limits, LedgerStep(s, e, g))
  {
    hide FirstExceeded, Metered, ComputeRecorded, Rescued, ProcessedResult, ResultAfterFrame, Noted;
    var frame := TopFrame(s);
    BytesFollow(s.limits, g, e.outputLength);
    var a := AfterInstructions(s.limits, frame.isCreate, e.outputLength);
    var result := ProcessedResult(s.limits, frame, s.phase.status, e);
    var gas := SatSub(DepositGas(frame, s.phase.status, e.outputLength), result.gas);
    ChecksKeepMeters(a, gas);
    ChecksKeepMeters(ComputeRecorded(a, gas), result.gas);
    SameMetersMetered(a, ComputeRecorded(a, gas), if frame.isCreate then Noted(g, 0, e.outputLength, 0) else g);
    SameMetersMetered(ComputeRecorded(a, gas), Rescued(ComputeRecorded(a, gas), result.gas),
                      if frame.isCreate then Noted(g, 0, e.outputLength, 0) else g);
  }

  lemma SameMetersMetered(l: Limits, next: Limits, g: Ledger)
    requires SameMeters(l, next) && Metered(l, g)
    ensures Metered(next, g)
  {
  }

  lemma ReturnFollows(l: Limits, lastFrame: bool, result: FrameResult, g: Ledger)
    requires Metered(l, g)
    ensures Metered(AtFrameReturn(l, lastFrame, result), ClosedLedger(g, result.status.IsOk()))
  {
    hide FirstExceeded, Holds, Pop;
    var ok := result.status.IsOk();
    HoldsAfterPop(l.kv, g.kv, ok);
    HoldsAfterPop(l.data, g.data, ok);
    HoldsAfterPop(l.growth, g.growth, ok);
    UpdatedAfterPop(l.kv, g.updated, ok);
    UpdatedAfterPop(l.data, g.updated, ok);
  }

  lemma UpdatedAfterPop(t: Tracker<CallFrameInfo>, updated: seq<bool>, ok: bool)
    requires Updated(t, updated)
    ensures Updated(Pop(t, ok), if updated == [] then [] else updated[..|updated| - 1])
  {
  }

  lemma StepFollowsLedger(s: Evm, e: Event, g: Ledger)
    requires Metered(s.limits, g) && Enabled(s, e)
    ensures Metered(Step(s, e).limits, LedgerStep(s, e, g))
  {
    hide FirstExceeded, Metered, InitLimits, InitLedger, InitResult, Executed, InstructionLedger, AtFrameReturn, ResultAtFrameReturn,
         ComputeRecorded, ClosedLedger, AfterFrame, AfterInstructions, ProcessedResult, ResultAfterFrame, Noted, Checked;
    match e
    case Begin(init) => InitFollows(s.limits, init, g);
    case Enter =>
      ChecksKeepMeters(s.limits, 0);
      SameMetersMetered(s.limits, Checked(s.limits), g);
    case Execute(_, instruction) => InstructionFollows(s.limits, instruction, g);
    case CallOut(_, computeGas, init) =>
      var limits := ComputeRecorded(s.limits, computeGas);
      ChecksKeepMeters(s.limits, computeGas);
      SameMetersMetered(s.limits, limits, g);
      if limits.latch.WithinLimit? {
        InitFollows(limits, init, g);
      }
    case Stop(_, _, recorded) =>
      if recorded.Some? {
        PlainKeepsMeters(s.limits, recorded.value);
        SameMetersMetered(s.limits, Executed(s.limits, Plain(recorded.value)), g);
      }
    case Finish(_, _, _) => FinishFollows(s, e, g);
    case ReturnFrame => ReturnFollows(s.limits, false, s.phase.result, g);
    case Conclude => ReturnFollows(s.limits, true, s.phase.result, g);
  }

  lemma PlainKeepsMeters(l: Limits, gas: nat)
    ensures SameMeters(l, Executed(l, Plain(gas)))
  {
    ChecksKeepMeters(l, gas);
  }

  // ---------------------------------------------------------------------------------------------
  // Transactions
  // ---------------------------------------------------------------------------------------------

  lemma {:induction false} RunsFollowLedger(s: Evm, events: seq<Event>, g: Ledger)
    requires Metered(s.limits, g) && Runs(s, events)
    ensures Metered(After(s, events).limits, LedgerAfter(s, events, g))
  {
    hide Metered, Step, LedgerStep, Enabled;
    if events != [] {
      var before := events[..|events| - 1];
      RunsFollowLedger(s, before, g);
      StepFollowsLedger(After(s, before), events[|events| - 1], LedgerAfter(s, before, g));
    }
  }

  lemma {:induction false} RecoveredAuthorities(authorizations: seq<bool>)
    ensures Authorities(authorizations) == multiset(authorizations)[true]
  {
    if authorizations != [] {
      var before, last := authorizations[..|authorizations| - 1], authorizations[|authorizations| - 1];
      RecoveredAuthorities(before);
      assert authorizations == before + [last];
    }
  }

  /** What a transaction is charged before its first frame: 101 bytes per authorization, and an account update for each recovered one and the caller. */
  function IntrinsicLedger(tx: Transaction): Ledger {
    var recovered := multiset(tx.authorizations)[true];
    Ledger(Column(recovered + 1, []),
           Column(110 + tx.inputLength + tx.accessListSize + 101 * |tx.authorizations| + 40 * recovered + 40, []),
           Column(0, []), [])
  }

  lemma StartFollows(l: Limits, tx: Transaction, initialComputeGas: nat, gasLimit: nat, initialGas: nat)
    requires initialGas <= gasLimit
    ensures Metered(StartOf(l, tx, initialComputeGas, gasLimit, initialGas).limits, IntrinsicLedger(tx))
  {
    hide FirstExceeded, Authorities;
    RecoveredAuthorities(tx.authorizations);
  }

  /**
    In every reachable state of every transaction the reported usage is what the ledger says: the
    intrinsic amounts, and for every frame that did not fail one KV update and 40 bytes per account
    update and storage charge less refunds, 32 bytes per log topic, the bytes of logs and of created
    code, and one unit per slot and account the state grew by.
   */
  lemma UsageIsMetered(l: Limits, tx: Transaction, initialComputeGas: nat, gasLimit: nat, initialGas: nat,
                       start: Evm, events: seq<Event>)
    requires initialGas <= gasLimit && start == StartOf(l, tx, initialComputeGas, gasLimit, initialGas)
    requires Runs(start, events)
    ensures var usage, g := Usage(After(start, events).limits), LedgerAfter(start, events, IntrinsicLedger(tx));
            usage.kvUpdates == Reported(g.kv) && usage.dataSize == Reported(g.data) && usage.stateGrowth == Reported(g.growth)
  {
    hide StartOf, NetUsage, Holds, Updated, LedgerAfter, Reported;
    StartFollows(l, tx, initialComputeGas, gasLimit, initialGas);
    RunsFollowLedger(start, events, IntrinsicLedger(tx));
    var end, g := After(start, events).limits, LedgerAfter(start, events, IntrinsicLedger(tx));
    HoldsReports(end.kv, g.kv);
    HoldsReports(end.data, g.data);
    HoldsReports(end.growth, g.growth);
  }

  /** Neither logs nor created code: what is left are account updates and storage writes. */
  predicate WithoutBytes(events: seq<Event>) {
    forall i :: 0 <= i < |events| ==>
      && (events[i].Finish? ==> events[i].outputLength == 0)
      && (events[i].Execute? ==> !events[i].instruction.Log?)
  }

  /** Beyond what they start with, the bytes are 40 per update. */
  predicate Forty(updates: Column, bytes: Column, first: Column, firstBytes: Column) {
    && |bytes.frames| == |updates.frames|
    && bytes.base - firstBytes.base == 40 * (updates.base - first.base)
    && forall i :: 0 <= i < |updates.frames| ==> bytes.frames[i] == 40 * updates.frames[i]
  }

  lemma ColumnsKeepForty(updates: Column, bytes: Column, first: Column, firstBytes: Column, n: int, ok: bool)
    requires Forty(updates, bytes, first, firstBytes)
    ensures Forty(OpenedColumn(updates, n), OpenedColumn(bytes, 40 * n), first, firstBytes)
    ensures Forty(AddedColumn(updates, n), AddedColumn(bytes, 40 * n), first, firstBytes)
    ensures Forty(ClosedColumn(updates, ok), ClosedColumn(bytes, ok), first, firstBytes)
  {
  }

  /** Then data size is what the transaction starts with and 40 bytes for every KV update after that. */
  lemma {:induction false} DataIsFortyPerUpdate(tx: Transaction, start: Evm, events: seq<Event>)
    requires Runs(start, events) && WithoutBytes(events)
    ensures var first, g := IntrinsicLedger(tx), LedgerAfter(start, events, IntrinsicLedger(tx));
            Forty(g.kv, g.data, first.kv, first.data)
  {
    hide Step, Enabled, InitResult, ComputeRecorded, LedgerStep;
    if events != [] {
      var before, last := events[..|events| - 1], events[|events| - 1];
      DataIsFortyPerUpdate(tx, start, before);
      assert WithoutBytes([last]) by {
        assert [last][0] == events[|events| - 1];
      }
      StepKeepsForty(After(start, before), last, LedgerAfter(start, before, IntrinsicLedger(tx)), IntrinsicLedger(tx));
    }
  }

  lemma StepKeepsForty(s: Evm, e: Event, g: Ledger, first: Ledger)
    requires Enabled(s, e) && WithoutBytes([e]) && Forty(g.kv, g.data, first.kv, first.data)
    ensures Forty(LedgerStep(s, e, g).kv, LedgerStep(s, e, g).data, first.kv, first.data)
  {
    hide InitLedger, ComputeRecorded, Forty, AddedColumn, ClosedColumn;
    assert [e][0] == e;
    match e
    case Begin(init) => InitKeepsForty(s.limits, init, g, first);
    case Execute(_, instruction) =>
      if instruction.Sstore? {
        ColumnsKeepForty(g.kv, g.data, first.kv, first.data, UpdatesOf(instruction.slot), true);
      }
    case CallOut(_, computeGas, init) => InitKeepsForty(ComputeRecorded(s.limits, computeGas), init, g, first);
    case Finish(_, _, _) => ColumnsKeepForty(g.kv, g.data, first.kv, first.data, 0, true);
    case ReturnFrame => ColumnsKeepForty(g.kv, g.data, first.kv, first.data, 0, s.phase.result.status.IsOk());
    case Conclude => ColumnsKeepForty(g.kv, g.data, first.kv, first.data, 0, s.phase.result.status.IsOk());
    case _ =>
  }

  lemma InitKeepsForty(l: Limits, init: Init, g: Ledger, first: Ledger)
    requires Forty(g.kv, g.data, first.kv, first.data)
    ensures Forty(InitLedger(l, init, g).kv, InitLedger(l, init, g).data, first.kv, first.data)
  {
    hide InitResult, Forty, AddedColumn, OpenedColumn;
    var caller := if g.updated != [] && !g.updated[|g.updated| - 1] then 1 else 0;
    ColumnsKeepForty(g.kv, g.data, first.kv, first.data, caller, true);
    ColumnsKeepForty(OpenedColumn(g.kv, caller), OpenedColumn(g.data, 40 * caller), first.kv, first.data, 1, true);
    ColumnsKeepForty(g.kv, g.data, first.kv, first.data, 1 + caller, true);
    ColumnsKeepForty(g.kv, g.data, first.kv, first.data, 0, true);
  }

  /** The frame of a call is that of its target, the frame of a create that of the address it is given. */
  lemma TargetsAreRecorded(spec: MegaSpecId, t: Tracker<CallFrameInfo>, input: FrameInput, created: Address, unit: nat)
    ensures var opened_ := AccountUpdatesOnFrameInit(spec, t, input, unit);
            var made := CreatedAccount(opened_, created, unit);
            && opened_.stack != [] && made.stack != [] && |made.stack| == |opened_.stack| == |t.stack| + 1
            && Top(opened_).info.targetAddress == (if input.Call? then Some(input.target) else None)
            && Top(made).info.targetAddress == Some(created)
            && (!spec.IsEnabled(Rex4) ==> Top(opened_).limit == U64_MAX)
  {
    hide MaxForwardLimit;
  }

  // ---------------------------------------------------------------------------------------------
  // Compute gas
  // ---------------------------------------------------------------------------------------------

  /** The compute gas recorded so far and the limit detention left. */
  datatype Clock = Clock(gas: nat, detained: nat)

  function Capped(spec: MegaSpecId, c: Clock, cap: nat): Clock {
    var reach := if spec.IsEnabled(Rex4) then c.gas + cap else cap;
    if reach < c.detained then c.(detained := reach) else c
  }

  function InitClock(l: Limits, init: Init, c: Clock): Clock {
    var capped := if init.oracleCap.Some? then Capped(l.spec, c, init.oracleCap.value) else c;
    if init.handling.Forwarded? && init.handling.inner.Immediate?
       && Rejection(InitDetained(l, init), init.input, init.gas).None?
    then capped.(gas := capped.gas + init.handling.inner.computeGas)
    else capped
  }

  /** A create that is still in order pays 10000 gas per byte of its code, then what processing takes counts as compute gas. */
  function DepositClock(s: Evm, e: Event, c: Clock): Clock
    requires Enabled(s, e) && e.Finish?
  {
    var frame, storageGas := TopFrame(s), 10_000 * e.outputLength;
    if frame.isCreate && s.phase.status.IsOk() && storageGas <= frame.gas
       && AfterInstructions(s.limits, true, e.outputLength).latch.WithinLimit?
    then c.(gas := c.gas + SatSub(frame.gas - storageGas, e.gasAfter))
    else c
  }

  function ClockStep(s: Evm, e: Event, c: Clock): Clock
    requires Enabled(s, e)
  {
    match e
    case Begin(init) => InitClock(s.limits, init, c)
    case Execute(_, instruction) =>
      var ran := c.(gas := c.gas + instruction.computeGas);
      if instruction.Volatile? && !ComputeRecorded(s.limits, instruction.computeGas).latch.IsTxLevel()
      then Capped(s.limits.spec, ran, instruction.cap) else ran
    case CallOut(_, computeGas, init) =>
      var limits := ComputeRecorded(s.limits, computeGas);
      var ran := c.(gas := c.gas + computeGas);
      if limits.latch.ExceedsLimit? then ran else InitClock(limits, init, ran)
    case Stop(_, _, recorded) => if recorded.Some? then c.(gas := c.gas + recorded.value) else c
    case Finish(_, _, _) => DepositClock(s, e, c)
    case _ => c
  }

  function ClockAfter(s: Evm, events: seq<Event>, c: Clock): Clock
    requires Runs(s, events)
  {
    if events == [] then c
    else ClockStep(After(s, events[..|events| - 1]), events[|events| - 1], ClockAfter(s, events[..|events| - 1], c))
  }

  ghost predicate Timed(l: Limits, c: Clock) {
    OnlyPersistent(l.compute.frames) && l.compute.Usage() == c.gas && l.compute.detained == c.detained
  }

  lemma RecordTimed(l: Limits, c: Clock, gas: nat)
    requires Timed(l, c)
    ensures Timed(ComputeRecorded(l, gas), c.(gas := c.gas + gas)) && ComputeRecorded(l, gas).spec == l.spec
  {
    hide FirstExceeded, OnlyPersistent, NetUsage;
    ComputeGasStep(l.spec, l.compute, gas, true);
  }

  lemma ComputeGasStep(spec: MegaSpecId, c: ComputeState, gas: nat, ok: bool)
    requires OnlyPersistent(c.frames)
    ensures OnlyPersistent(RecordGas(c, gas).frames) && RecordGas(c, gas).Usage() == c.Usage() + gas
    ensures OnlyPersistent(PushCompute(spec, c).frames) && PushCompute(spec, c).Usage() == c.Usage()
    ensures OnlyPersistent(PopCompute(c, ok).frames) && PopCompute(c, ok).Usage() == c.Usage()
  {
    hide Total;
    PersistentTotals(c.frames, gas, if spec.IsEnabled(Rex4) then MaxForwardLimit(c.frames) else U64_MAX, (), ok);
  }

  lemma CapTimed(l: Limits, c: Clock, cap: u64)
    requires Timed(l, c)
    ensures Timed(Detained(l, cap), Capped(l.spec, c, cap)) && Detained(l, cap).spec == l.spec
  {
    hide OnlyPersistent, NetUsage;
  }

  lemma PushTimed(l: Limits, c: Clock, input: FrameInput)
    requires Timed(l, c)
    ensures Timed(FramesPushed(l, input), c) && Timed(EmptyFramePushed(l), c)
    ensures FramesPushed(l, input).spec == l.spec && EmptyFramePushed(l).spec == l.spec
  {
    hide AccountUpdatesOnFrameInit, GrowthOnFrameInit, OnlyPersistent, NetUsage, PushFor;
    ComputeGasStep(l.spec, l.compute, 0, true);
  }

  lemma OtherTimed(l: Limits, next: Limits, c: Clock)
    requires Timed(l, c) && next.compute == l.compute
    ensures Timed(next, c)
  {
  }

  lemma ChecksKeepCompute(l: Limits, gas: nat)
    ensures Checked(l).compute == l.compute && Rescued(l, gas).compute == l.compute && Rescued(l, gas).spec == l.spec
  {
    hide FirstExceeded;
  }

  lemma InitTimed(l: Limits, init: Init, c: Clock)
    requires Timed(l, c) && init.Legal(l.spec)
    ensures Timed(InitLimits(l, init), InitClock(l, init, c))
  {
    hide FirstExceeded, FramesPushed, EmptyFramePushed, Timed, Checked, ComputeRecorded, Rescued, CreatedAccount, Detained, Capped;
    var d := InitDetained(l, init);
    var capped := if init.oracleCap.Some? then Capped(l.spec, c, init.oracleCap.value) else c;
    if init.oracleCap.Some? {
      CapTimed(l, c, init.oracleCap.value);
    }
    PushTimed(d, capped, init.input);
    if init.handling.Forwarded? {
      var pushed := FramesPushed(d, init.input);
      var checked := Checked(pushed);
      ChecksKeepCompute(pushed, 0);
      OtherTimed(pushed, checked, capped);
      ChecksKeepCompute(checked, init.gas);
      OtherTimed(checked, Rescued(checked, init.gas), capped);
      match init.handling.inner
      case Opened(created) => OtherTimed(checked, FrameOpened(checked, CreatedBy(init, init.handling.inner)), capped);
      case Immediate(_, gasLeft, computeGas) =>
        RecordTimed(checked, capped, computeGas);
        var recorded := ComputeRecorded(checked, computeGas);
        ChecksKeepCompute(recorded, gasLeft);
        OtherTimed(recorded, Rescued(recorded, gasLeft), capped.(gas := capped.gas + computeGas));
    }
  }

  lemma ExecuteTimed(l: Limits, instruction: Instruction, c: Clock)
    requires Timed(l, c)
    ensures var ran := c.(gas := c.gas + instruction.computeGas);
            Timed(Executed(l, instruction),
                  if instruction.Volatile? && !ComputeRecorded(l, instruction.computeGas).latch.IsTxLevel()
                  then Capped(l.spec, ran, instruction.cap) else ran)
  {
    hide FirstExceeded, Timed, Checked, ComputeRecorded, Detained, Capped, SlotUpdate, GrowthOnSstore, AddDiscardable;
    var ran := c.(gas := c.gas + instruction.computeGas);
    var recorded := ComputeRecorded(l, instruction.computeGas);
    RecordTimed(l, c, instruction.computeGas);
    match instruction
    case Plain(_) =>
    case Sstore(_, r) =>
      var noted := recorded.(data := SlotUpdate(recorded.data, r, STORAGE_SLOT_WRITE_SIZE),
                             kv := SlotUpdate(recorded.kv, r, KV_UPDATE), growth := GrowthOnSstore(recorded.growth, r));
      ChecksKeepCompute(noted, 0);
      OtherTimed(recorded, Checked(noted), ran);
    case Log(_, topics, size) =>
      var noted := recorded.(data := LogEmitted(recorded.data, topics, size));
      ChecksKeepCompute(noted, 0);
      OtherTimed(recorded, Checked(noted), ran);
    case Volatile(_, cap) => CapTimed(recorded, ran, cap);
  }

  lemma FinishTimed(s: Evm, e: Event, c: Clock)
    requires Timed(s.limits, c) && Enabled(s, e) && e.Finish?
    ensures Timed(StepFinish(s, e).limits, DepositClock(s, e, c))
  {
    hide FirstExceeded, Timed, ComputeRecorded, Rescued;
    var frame := TopFrame(s);
    var a := AfterInstructions(s.limits, frame.isCreate, e.outputLength);
    OutputKeepsCompute(s.limits, frame.isCreate, e.outputLength);
    OtherTimed(s.limits, a, c);
    var result := ProcessedResult(s.limits, frame, s.phase.status, e);
    var gas := SatSub(DepositGas(frame, s.phase.status, e.outputLength), result.gas);
    RecordTimed(a, c, gas);
    ChecksKeepCompute(ComputeRecorded(a, gas), result.gas);
    OtherTimed(ComputeRecorded(a, gas), Rescued(ComputeRecorded(a, gas), result.gas), c.(gas := c.gas + gas));
    ProcessingTakes(s, e);
  }

  lemma OutputKeepsCompute(l: Limits, isCreate: bool, outputLength: nat)
    ensures AfterInstructions(l, isCreate, outputLength).compute == l.compute
  {
    hide FirstExceeded;
  }

  lemma ProcessingTakes(s: Evm, e: Event)
    requires Enabled(s, e) && e.Finish?
    ensures var frame, storageGas := TopFrame(s), 10_000 * e.outputLength;
            var taken := SatSub(DepositGas(frame, s.phase.status, e.outputLength),
                                ProcessedResult(s.limits, frame, s.phase.status, e).gas);
            taken
            == if frame.isCreate && s.phase.status.IsOk() && storageGas <= frame.gas
               && AfterInstructions(s.limits, true, e.outputLength).latch.WithinLimit?
            then SatSub(frame.gas - storageGas, e.gasAfter) else 0
  {
    hide FirstExceeded;
  }

  lemma ReturnTimed(l: Limits, lastFrame: bool, result: FrameResult, c: Clock)
    requires Timed(l, c)
    ensures Timed(AtFrameReturn(l, lastFrame, result), c)
  {
    hide FirstExceeded, OnlyPersistent, NetUsage, Pop;
    ComputeGasStep(l.spec, l.compute, 0, result.status.IsOk());
  }

  lemma StepTimed(s: Evm, e: Event, c: Clock)
    requires Timed(s.limits, c) && Enabled(s, e)
    ensures Timed(Step(s, e).limits, ClockStep(s, e, c))
  {
    hide FirstExceeded, Timed, InitLimits, InitClock, InitResult, Executed, AtFrameReturn, ResultAtFrameReturn, ComputeRecorded,
         AfterFrame, AfterInstructions, ProcessedResult, ResultAfterFrame, Checked, DepositClock, Capped;
    match e
    case Begin(init) => InitTimed(s.limits, init, c);
    case Enter =>
      ChecksKeepCompute(s.limits, 0);
      OtherTimed(s.limits, Checked(s.limits), c);
    case Execute(_, instruction) => ExecuteTimed(s.limits, instruction, c);
    case CallOut(_, computeGas, init) =>
      RecordTimed(s.limits, c, computeGas);
      var limits := ComputeRecorded(s.limits, computeGas);
      if limits.latch.WithinLimit? {
        InitTimed(limits, init, c.(gas := c.gas + computeGas));
      }
    case Stop(_, _, recorded) =>
      if recorded.Some? { ExecuteTimed(s.limits, Plain(recorded.value), c); }
    case Finish(_, _, _) => FinishTimed(s, e, c);
    case ReturnFrame => ReturnTimed(s.limits, false, s.phase.result, c);
    case Conclude => ReturnTimed(s.limits, true, s.phase.result, c);
  }

  lemma {:induction false} RunsTimed(s: Evm, events: seq<Event>, c: Clock)
    requires Timed(s.limits, c) && Runs(s, events)
    ensures Timed(After(s, events).limits, ClockAfter(s, events, c))
  {
    hide Timed, Step, ClockStep, Enabled;
    if events != [] {
      var before := events[..|events| - 1];
      RunsTimed(s, before, c);
      StepTimed(After(s, before), events[|events| - 1], ClockAfter(s, before, c));
    }
  }

  /** The clock of a transaction starts with its intrinsic gas; before Rex1 with the last transaction's detention. */
  function StartClock(l: Limits, initialComputeGas: nat): Clock {
    Clock(initialComputeGas, if l.spec.IsEnabled(Rex1) then l.compute.frames.tx.limit else l.compute.detained)
  }

  lemma StartTimed(l: Limits, tx: Transaction, initialComputeGas: nat, gasLimit: nat, initialGas: nat)
    requires initialGas <= gasLimit
    ensures Timed(StartOf(l, tx, initialComputeGas, gasLimit, initialGas).limits, StartClock(l, initialComputeGas))
    ensures StartOf(l, tx, initialComputeGas, gasLimit, initialGas).limits.spec == l.spec
  {
    hide FirstExceeded, NetUsage, OnlyPersistent, ComputeRecorded;
    var reset := ResetLimits(l);
    ResetTimed(l);
    var noted := reset.(data := DataAtTxStart(reset.data, tx), kv := KvAtTxStart(reset.kv, tx));
    ChecksKeepCompute(noted, 0);
    RecordTimed(AtTxStart(reset, tx), StartClock(l, 0), initialComputeGas);
  }

  lemma ResetTimed(l: Limits)
    ensures Timed(ResetLimits(l), StartClock(l, 0))
  {
    hide NetUsage, OnlyPersistent;
    Detention.StartUsage(l.spec, l.compute);
  }

  /**
    In every reachable state of every transaction the compute usage is the intrinsic gas plus all gas
    recorded, whatever failed, and the detained limit is what the clock says: where it started, lowered
    by every volatile opcode that was not aborted and every oracle call, to the usage then plus the cap
    (Rex4) or to the cap (before).
   */
  lemma ComputeIsTimed(l: Limits, tx: Transaction, initialComputeGas: nat, gasLimit: nat, initialGas: nat,
                       start: Evm, events: seq<Event>)
    requires initialGas <= gasLimit && start == StartOf(l, tx, initialComputeGas, gasLimit, initialGas)
    requires Runs(start, events)
    ensures var end, c := After(start, events).limits, ClockAfter(start, events, StartClock(l, initialComputeGas));
            Usage(end).computeGas == c.gas && end.compute.detained == c.detained
  {
    hide StartOf, OnlyPersistent, NetUsage, ClockAfter;
    StartTimed(l, tx, initialComputeGas, gasLimit, initialGas);
    RunsTimed(start, events, StartClock(l, initialComputeGas));
  }

  /** Right after a volatile opcode that was not aborted, usage may go on by at most the cap (Rex4), or up to the cap (before). */
  lemma VolatileOpcodeDetains(l: Limits, tx: Transaction, initialComputeGas: nat, gasLimit: nat, initialGas: nat,
                              start: Evm, events: seq<Event>, cost: nat, computeGas: nat, cap: u64)
    requires initialGas <= gasLimit && start == StartOf(l, tx, initialComputeGas, gasLimit, initialGas)
    requires Runs(start, events) && Enabled(After(start, events), Execute(cost, Volatile(computeGas, cap)))
    ensures var s := After(start, events);
            var next := Step(s, Execute(cost, Volatile(computeGas, cap))).limits;
            && Usage(next).computeGas == Usage(s.limits).computeGas + computeGas
            && next.compute.detained <= s.limits.compute.detained
            && (!next.latch.IsTxLevel() ==>
                  next.compute.detained <= cap + if next.spec.IsEnabled(Rex4) then Usage(next).computeGas else 0)
  {
    hide StartOf, OnlyPersistent, NetUsage, ClockAfter, Executed, ComputeRecorded;
    StartTimed(l, tx, initialComputeGas, gasLimit, initialGas);
    RunsTimed(start, events, StartClock(l, initialComputeGas));
    var s := After(start, events);
    ExecuteTimed(s.limits, Volatile(computeGas, cap), ClockAfter(start, events, StartClock(l, initialComputeGas)));
    VolatileKeepsLatch(s.limits, computeGas, cap);
  }

  lemma VolatileKeepsLatch(l: Limits, computeGas: nat, cap: u64)
    ensures Executed(l, Volatile(computeGas, cap)).latch == ComputeRecorded(l, computeGas).latch
    ensures Executed(l, Volatile(computeGas, cap)).spec == l.spec
  {
    hide FirstExceeded;
  }
}

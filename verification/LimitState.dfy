/** What each lifecycle hook of the additional limit does to its state (limit/limit.rs). */
module LimitState {
  import opened Prelude
  import opened LimitTypes
  import opened FrameState
  import opened TrackerState

  datatype Status = Success | Revert | OutOfGas | OtherHalt {
    predicate IsOk() {
      Success?
    }

    predicate IsOkOrRevert() {
      Success? || Revert?
    }
  }

  /** The result of a frame: how it ended and the gas it has left. */
  datatype FrameResult = FrameResult(status: Status, gas: nat, isCreate: bool)

  datatype TxLimits = TxLimits(dataSize: u64, kvUpdates: u64, computeGas: u64, stateGrowth: u64)

  datatype Limits = Limits(
    spec: MegaSpecId,
    latch: LimitCheck,
    rescued: nat,
    data: Tracker<CallFrameInfo>,
    kv: Tracker<CallFrameInfo>,
    compute: ComputeState,
    growth: Tracker<()>)

  datatype LimitUsage = LimitUsage(dataSize: nat, kvUpdates: nat, computeGas: nat, stateGrowth: nat)

  function NewLimits(spec: MegaSpecId, limits: TxLimits): Limits {
    Limits(spec, WithinLimit, 0, NewTracker(limits.dataSize), NewTracker(limits.kvUpdates),
           NewComputeGas(limits.computeGas), NewTracker(limits.stateGrowth))
  }

  function ResetLimits(l: Limits): Limits {
    Limits(l.spec, WithinLimit, 0, Reset(l.data), Reset(l.kv), ResetCompute(l.spec, l.compute), Reset(l.growth))
  }

  function Usage(l: Limits): LimitUsage {
    LimitUsage(NetUsage(l.data), NetUsage(l.kv), l.compute.Usage(), NetUsage(l.growth))
  }

  /** The first violated limit, in the fixed order of the source. */
  function FirstExceeded(l: Limits): LimitCheck {
    var data := UsageCheck(l.spec, l.data, DataSize);
    var kv := UsageCheck(l.spec, l.kv, KVUpdate);
    var compute := ComputeCheck(l.spec, l.compute);
    if data.ExceedsLimit? then data
    else if kv.ExceedsLimit? then kv
    else if compute.ExceedsLimit? then compute
    else UsageCheck(l.spec, l.growth, StateGrowth)
  }

  /** A check latches the first violation it sees; its result is the latch. */
  function Checked(l: Limits): Limits {
    if l.latch.ExceedsLimit? then l else l.(latch := FirstExceeded(l))
  }

  function ExceedingStatus(latch: LimitCheck): Status {
    if latch.IsFrameLocal() then Revert else OutOfGas
  }

  function AtTxStart(l: Limits, tx: Transaction): Limits {
    Checked(l.(data := DataAtTxStart(l.data, tx), kv := KvAtTxStart(l.kv, tx)))
  }

  function ComputeRecorded(l: Limits, gas: nat): Limits {
    Checked(l.(compute := RecordGas(l.compute, gas)))
  }

  function Detained(l: Limits, cap: u64): Limits {
    l.(compute := SetDetained(l.spec, l.compute, cap))
  }

  /** Gas is rescued only for a transaction-level violation. */
  function Rescued(l: Limits, gas: nat): Limits {
    var c := Checked(l);
    if c.latch.IsTxLevel() then c.(rescued := c.rescued + gas) else c
  }

  function EmptyFramePushed(l: Limits): Limits {
    l.(data := PushFor(l.spec, l.data, EMPTY_FRAME), kv := PushFor(l.spec, l.kv, EMPTY_FRAME),
       compute := PushCompute(l.spec, l.compute), growth := PushFor(l.spec, l.growth, ()))
  }

  function FramesPushed(l: Limits, input: FrameInput): Limits {
    l.(data := AccountUpdatesOnFrameInit(l.spec, l.data, input, ACCOUNT_INFO_WRITE_SIZE),
       kv := AccountUpdatesOnFrameInit(l.spec, l.kv, input, KV_UPDATE),
       compute := PushCompute(l.spec, l.compute),
       growth := GrowthOnFrameInit(l.spec, l.growth, input))
  }

  function FrameInitChecked(l: Limits, input: FrameInput): Limits {
    Checked(FramesPushed(l, input))
  }

  /** Whether a new frame is turned away, and what is left of the limits then. */
  function AtFrameInit(l: Limits, input: FrameInput, gasLimit: nat): Limits {
    var c := FrameInitChecked(l, input);
    if c.latch.ExceedsLimit? then Rescued(c, gasLimit) else c
  }

  function Rejection(l: Limits, input: FrameInput, gasLimit: nat): Option<FrameResult> {
    var c := FrameInitChecked(l, input);
    if c.latch.ExceedsLimit? then Some(FrameResult(ExceedingStatus(c.latch), gasLimit, input.Create?)) else None
  }

  function FrameOpened(l: Limits, created: Option<Address>): Limits {
    if created.None? then l
    else l.(data := CreatedAccount(l.data, created.value, ACCOUNT_INFO_WRITE_SIZE),
            kv := CreatedAccount(l.kv, created.value, KV_UPDATE))
  }

  /** After the instructions of a frame ended in a return: output size and check of a create frame. */
  function AfterInstructions(l: Limits, isCreate: bool, outputLength: nat): Limits {
    if isCreate then Checked(l.(data := AddDiscardable(l.data, outputLength))) else l
  }

  function StatusAfterInstructions(l: Limits, isCreate: bool, outputLength: nat, status: Status): Status {
    var c := AfterInstructions(l, isCreate, outputLength);
    if isCreate && c.latch.ExceedsLimit? then ExceedingStatus(c.latch) else status
  }

  /** After frame action processing: its compute gas, then the rescue. */
  function AfterFrame(l: Limits, result: FrameResult, gasBefore: nat): Limits {
    Rescued(ComputeRecorded(l, SatSub(gasBefore, result.gas)), result.gas)
  }

  function ResultAfterFrame(l: Limits, result: FrameResult, gasBefore: nat): FrameResult {
    var c := ComputeRecorded(l, SatSub(gasBefore, result.gas));
    if c.latch.ExceedsLimit? then result.(status := ExceedingStatus(c.latch)) else result
  }

  function FramesPopped(l: Limits, ok: bool): Limits {
    l.(data := Pop(l.data, ok), kv := Pop(l.kv, ok), compute := PopCompute(l.compute, ok), growth := Pop(l.growth, ok))
  }

  predicate DuplicateReturn(l: Limits, lastFrame: bool) {
    lastFrame && l.data.stack == []
  }

  /** A frame return pops every tracker, absorbs a frame-local violation and keeps any other. */
  function AtFrameReturn(l: Limits, lastFrame: bool, result: FrameResult): Limits {
    var c := Checked(FramesPopped(l, result.status.IsOk()));
    if !DuplicateReturn(l, lastFrame) && c.latch.IsFrameLocal() then c.(latch := WithinLimit) else c
  }

  function ResultAtFrameReturn(l: Limits, lastFrame: bool, result: FrameResult): FrameResult {
    var c := Checked(FramesPopped(l, result.status.IsOk()));
    if DuplicateReturn(l, lastFrame) || c.latch.WithinLimit? then result
    else result.(status := ExceedingStatus(c.latch))
  }

  function AtSstore(l: Limits, r: SStoreResult): Limits {
    Checked(l.(data := SlotUpdate(l.data, r, STORAGE_SLOT_WRITE_SIZE), kv := SlotUpdate(l.kv, r, KV_UPDATE),
               growth := GrowthOnSstore(l.growth, r)))
  }

  function AtLog(l: Limits, topics: nat, size: nat): Limits {
    Checked(l.(data := LogEmitted(l.data, topics, size)))
  }
}

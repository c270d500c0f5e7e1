/**
  What each hook does to the four trackers built on the frame limit tracker
  (limit/kv_update.rs, limit/data_size.rs, limit/state_growth.rs, limit/compute_gas.rs).
 */
module TrackerState {
  import opened Prelude
  import opened LimitTypes
  import opened FrameState

  const KV_UPDATE := 1
  const BASE_TX_SIZE := 110
  const AUTHORIZATION_SIZE := 101
  const LOG_TOPIC_SIZE := 32
  const ACCOUNT_INFO_WRITE_SIZE := 40
  const STORAGE_SLOT_WRITE_SIZE := 40

  datatype CallFrameInfo = CallFrameInfo(targetAddress: Option<Address>, targetUpdated: bool)

  const EMPTY_FRAME := CallFrameInfo(None, false)

  /** Rex4 frames get 98/100 of what their parent has left; earlier frames are unlimited. */
  function PushFor<I>(spec: MegaSpecId, t: Tracker<I>, info: I): Tracker<I> {
    if spec.IsEnabled(Rex4) then Push(t, info) else PushWithLimit(t, U64_MAX, info)
  }

  /** The check of data size, KV updates and state growth: per frame in Rex4, per transaction before. */
  function UsageCheck<I>(spec: MegaSpecId, t: Tracker<I>, kind: LimitKind): LimitCheck {
    if spec.IsEnabled(Rex4) then FrameCheck(t, kind)
    else if NetUsage(t) > t.tx.limit then ExceedsLimit(kind, t.tx.limit, NetUsage(t), false)
    else WithinLimit
  }

  function Authorities(authorizations: seq<bool>): nat {
    if authorizations == [] then 0
    else Authorities(authorizations[..|authorizations| - 1]) + if authorizations[|authorizations| - 1] then 1 else 0
  }

  // KV updates and data size account for the same events, one unit or 40 bytes at a time.

  predicate ParentNeedsUpdate(t: Tracker<CallFrameInfo>) {
    t.stack != [] && !Top(t).info.targetUpdated
  }

  function AccountUpdatesOnFrameInit(spec: MegaSpecId, t: Tracker<CallFrameInfo>, input: FrameInput, unit: nat)
    : Tracker<CallFrameInfo>
  {
    match input
    case Call(target, transfersValue, _) =>
      var pushed := PushFor(spec, t, CallFrameInfo(Some(target), transfersValue));
      if !transfersValue then pushed
      else if ParentNeedsUpdate(t) then AddDiscardable(AddDiscardable(pushed, unit), unit)
      else AddDiscardable(pushed, unit)
    case Create =>
      var pushed := PushFor(spec, t, CallFrameInfo(None, true));
      if ParentNeedsUpdate(t) then AddDiscardable(pushed, unit) else pushed
  }

  function CreatedAccount(t: Tracker<CallFrameInfo>, address: Address, unit: nat): Tracker<CallFrameInfo> {
    if t.stack == [] then t
    else AddDiscardable(SetInfo(t, Top(t).info.(targetAddress := Some(address))), unit)
  }

  function SlotUpdate<I>(t: Tracker<I>, r: SStoreResult, unit: nat): Tracker<I> {
    if r.original == r.present then if r.original != r.new_ then AddDiscardable(t, unit) else t
    else if r.original == r.new_ then AddRefund(t, unit)
    else t
  }

  function KvAtTxStart(t: Tracker<CallFrameInfo>, tx: Transaction): Tracker<CallFrameInfo> {
    AddTxPersistent(t, Authorities(tx.authorizations) + KV_UPDATE)
  }

  function DataAtTxStart(t: Tracker<CallFrameInfo>, tx: Transaction): Tracker<CallFrameInfo> {
    AddTxPersistent(t, BASE_TX_SIZE + tx.inputLength + tx.accessListSize + |tx.authorizations| * AUTHORIZATION_SIZE
                       + Authorities(tx.authorizations) * ACCOUNT_INFO_WRITE_SIZE + ACCOUNT_INFO_WRITE_SIZE)
  }

  function LogEmitted(t: Tracker<CallFrameInfo>, topics: nat, size: nat): Tracker<CallFrameInfo> {
    AddDiscardable(t, topics * LOG_TOPIC_SIZE + size)
  }

  function GrowthOnFrameInit(spec: MegaSpecId, t: Tracker<()>, input: FrameInput): Tracker<()> {
    var pushed := PushFor(spec, t, ());
    if input.Create? || (input.transfersValue && input.targetEmpty) then AddDiscardable(pushed, 1) else pushed
  }

  function GrowthOnSstore(t: Tracker<()>, r: SStoreResult): Tracker<()> {
    if r.original == 0 && r.present == 0 && r.new_ != 0 then AddDiscardable(t, 1)
    else if r.original == 0 && r.present != 0 && r.new_ == 0 then AddRefund(t, 1)
    else t
  }

  // Compute gas: persistent usage only, and a limit that detention lowers.

  datatype ComputeState = Compute(frames: Tracker<()>, detained: u64) {
    function TxLimit(): u64 {
      Min(frames.tx.limit, detained)
    }

    function Usage(): nat {
      NetUsage(frames)
    }
  }

  function NewComputeGas(txLimit: u64): ComputeState {
    Compute(NewTracker(txLimit), txLimit)
  }

  function RecordGas(c: ComputeState, gas: nat): ComputeState {
    c.(frames := AddPersistent(c.frames, gas))
  }

  function PushCompute(spec: MegaSpecId, c: ComputeState): ComputeState {
    c.(frames := PushFor(spec, c.frames, ()))
  }

  function PopCompute(c: ComputeState, success: bool): ComputeState {
    c.(frames := Pop(c.frames, success))
  }

  /** Rex4 caps are relative to the usage so far; earlier caps are absolute. */
  function SetDetained(spec: MegaSpecId, c: ComputeState, cap: u64): ComputeState {
    c.(detained := Min(c.detained, if spec.IsEnabled(Rex4) then SatAdd(c.Usage(), cap) else cap))
  }

  /** Before Rex1 the detained limit survives the reset. */
  function ResetCompute(spec: MegaSpecId, c: ComputeState): ComputeState {
    Compute(Reset(c.frames), if spec.IsEnabled(Rex1) then c.frames.tx.limit else c.detained)
  }

  function ComputeCheck(spec: MegaSpecId, c: ComputeState): LimitCheck {
    if spec.IsEnabled(Rex4) && !FrameWithin(c.frames) then FrameCheck(c.frames, ComputeGas)
    else if c.Usage() > c.TxLimit() then ExceedsLimit(ComputeGas, c.TxLimit(), c.Usage(), false)
    else WithinLimit
  }

  function CurrentCallRemaining(spec: MegaSpecId, c: ComputeState): nat {
    var txRemaining := SatSub(c.TxLimit(), c.Usage());
    if spec.IsEnabled(Rex4) then Min(CurrentFrameRemaining(c.frames), txRemaining) else txRemaining
  }
}

/** The four resource trackers as the objects their hooks update in place. */
module Trackers {
  import opened Prelude
  import opened LimitTypes
  import opened FrameState
  import opened FrameLimit
  import opened TrackerState

  class KVUpdateTracker {
    const spec: MegaSpecId
    const frameTracker: FrameLimitTracker<CallFrameInfo>

    ghost function View(): Tracker<CallFrameInfo>
      reads frameTracker
    {
      frameTracker.View()
    }

    constructor (spec: MegaSpecId, txLimit: u64)
      ensures this.spec == spec && fresh(frameTracker) && View() == NewTracker(txLimit)
    {
      this.spec := spec;
      frameTracker := new FrameLimitTracker(txLimit);
    }

    method Reset()
      modifies frameTracker
      ensures View() == FrameState.Reset(old(View()))
    {
      frameTracker.Reset();
    }

    method PushFrame(info: CallFrameInfo)
      modifies frameTracker
      ensures View() == PushFor(spec, old(View()), info)
    {
      if spec.IsEnabled(Rex4) {
        frameTracker.PushFrame(info);
      } else {
        frameTracker.PushFrameWithLimit(U64_MAX, info);
      }
    }

    method TxUsage() returns (usage: nat)
      ensures usage == NetUsage(View())
    {
      usage := frameTracker.NetUsage();
    }

    method CheckLimit() returns (check: LimitCheck)
      ensures check == UsageCheck(spec, View(), KVUpdate)
    {
      if spec.IsEnabled(Rex4) {
        check := frameTracker.ExceedsCurrentFrameLimit(KVUpdate);
        return;
      }
      var used := TxUsage();
      var limit := frameTracker.txEntry.limit;
      check := if used > limit then ExceedsLimit(KVUpdate, limit, used, false) else WithinLimit;
    }

    method BeforeTxStart(tx: Transaction)
      modifies frameTracker
      ensures View() == KvAtTxStart(old(View()), tx)
    {
      for i := 0 to |tx.authorizations|
        invariant View() == AddTxPersistent(old(View()), Authorities(tx.authorizations[..i]))
      {
        assert tx.authorizations[..i + 1][..i] == tx.authorizations[..i];
        if tx.authorizations[i] {
          frameTracker.RecordTxPersistent(1);
        }
      }
      assert tx.authorizations[..|tx.authorizations|] == tx.authorizations;
      frameTracker.RecordTxPersistent(1);
    }

    method BeforeFrameInit(input: FrameInput)
      modifies frameTracker
      ensures View() == AccountUpdatesOnFrameInit(spec, old(View()), input, KV_UPDATE)
    {
      var stack := frameTracker.frameStack;
      match input
      case Call(target, transfersValue, _) =>
        var parentNeedsUpdate := transfersValue && stack != [] && !stack[|stack| - 1].info.targetUpdated;
        PushFrame(CallFrameInfo(Some(target), transfersValue));
        if transfersValue {
          if parentNeedsUpdate {
            frameTracker.RecordDiscardable(1);
          }
          frameTracker.RecordDiscardable(1);
        }
      case Create =>
        var parentNeedsUpdate := stack != [] && !stack[|stack| - 1].info.targetUpdated;
        PushFrame(CallFrameInfo(None, true));
        if parentNeedsUpdate {
          frameTracker.RecordDiscardable(1);
        }
    }

    method AfterFrameInitOnFrame(created: Option<Address>)
      requires created.Some? && frameTracker.frameStack != [] ==> Top(View()).info.targetAddress.None?
      modifies frameTracker
      ensures View() == if created.Some? then CreatedAccount(old(View()), created.value, KV_UPDATE) else old(View())
    {
      if created.Some? && frameTracker.frameStack != [] {
        var info := frameTracker.frameStack[|frameTracker.frameStack| - 1].info;
        frameTracker.UpdateInfo(info.(targetAddress := Some(created.value)));
        frameTracker.RecordDiscardable(1);
      }
    }

    method BeforeFrameReturnResult(lastFrame: bool, ok: bool)
      requires lastFrame || frameTracker.frameStack != []
      modifies frameTracker
      ensures View() == Pop(old(View()), ok)
    {
      var _ := frameTracker.PopFrame(ok);
    }

    method AfterSstore(r: SStoreResult)
      modifies frameTracker
      ensures View() == SlotUpdate(old(View()), r, KV_UPDATE)
    {
      if r.original == r.present {
        if r.original != r.new_ {
          frameTracker.RecordDiscardable(1);
        }
      } else if r.original == r.new_ {
        frameTracker.RecordRefund(1);
      }
    }
  }

  class DataSizeTracker {
    const spec: MegaSpecId
    const frameTracker: FrameLimitTracker<CallFrameInfo>

    ghost function View(): Tracker<CallFrameInfo>
      reads frameTracker
    {
      frameTracker.View()
    }

    constructor (spec: MegaSpecId, txLimit: u64)
      ensures this.spec == spec && fresh(frameTracker) && View() == NewTracker(txLimit)
    {
      this.spec := spec;
      frameTracker := new FrameLimitTracker(txLimit);
    }

    method Reset()
      modifies frameTracker
      ensures View() == FrameState.Reset(old(View()))
    {
      frameTracker.Reset();
    }

    method PushFrame(info: CallFrameInfo)
      modifies frameTracker
      ensures View() == PushFor(spec, old(View()), info)
    {
      if spec.IsEnabled(Rex4) {
        frameTracker.PushFrame(info);
      } else {
        frameTracker.PushFrameWithLimit(U64_MAX, info);
      }
    }

    method TxUsage() returns (usage: nat)
      ensures usage == NetUsage(View())
    {
      usage := frameTracker.NetUsage();
    }

    method CheckLimit() returns (check: LimitCheck)
      ensures check == UsageCheck(spec, View(), DataSize)
    {
      if spec.IsEnabled(Rex4) {
        check := frameTracker.ExceedsCurrentFrameLimit(DataSize);
        return;
      }
      var used := TxUsage();
      var limit := frameTracker.txEntry.limit;
      check := if used > limit then ExceedsLimit(DataSize, limit, used, false) else WithinLimit;
    }

    method BeforeTxStart(tx: Transaction)
      modifies frameTracker
      ensures View() == DataAtTxStart(old(View()), tx)
    {
      var size := BASE_TX_SIZE;
      size := size + tx.inputLength;
      size := size + tx.accessListSize;
      size := size + |tx.authorizations| * AUTHORIZATION_SIZE;
      frameTracker.RecordTxPersistent(size);
      for i := 0 to |tx.authorizations|
        invariant View() == AddTxPersistent(old(View()), size + Authorities(tx.authorizations[..i]) * ACCOUNT_INFO_WRITE_SIZE)
      {
        assert tx.authorizations[..i + 1][..i] == tx.authorizations[..i];
        if tx.authorizations[i] {
          frameTracker.RecordTxPersistent(ACCOUNT_INFO_WRITE_SIZE);
        }
      }
      assert tx.authorizations[..|tx.authorizations|] == tx.authorizations;
      frameTracker.RecordTxPersistent(ACCOUNT_INFO_WRITE_SIZE);
    }

    method BeforeFrameInit(input: FrameInput)
      modifies frameTracker
      ensures View() == AccountUpdatesOnFrameInit(spec, old(View()), input, ACCOUNT_INFO_WRITE_SIZE)
    {
      var stack := frameTracker.frameStack;
      match input
      case Call(target, transfersValue, _) =>
        var parentNeedsUpdate := transfersValue && stack != [] && !stack[|stack| - 1].info.targetUpdated;
        PushFrame(CallFrameInfo(Some(target), transfersValue));
        if transfersValue {
          if parentNeedsUpdate {
            frameTracker.RecordDiscardable(ACCOUNT_INFO_WRITE_SIZE);
          }
          frameTracker.RecordDiscardable(ACCOUNT_INFO_WRITE_SIZE);
        }
      case Create =>
        var parentNeedsUpdate := stack != [] && !stack[|stack| - 1].info.targetUpdated;
        PushFrame(CallFrameInfo(None, true));
        if parentNeedsUpdate {
          frameTracker.RecordDiscardable(ACCOUNT_INFO_WRITE_SIZE);
        }
    }

    method AfterFrameInitOnFrame(created: Option<Address>)
      requires created.Some? && frameTracker.frameStack != [] ==> Top(View()).info.targetAddress.None?
      modifies frameTracker
      ensures View() == if created.Some? then CreatedAccount(old(View()), created.value, ACCOUNT_INFO_WRITE_SIZE)
                        else old(View())
    {
      if created.Some? && frameTracker.frameStack != [] {
        var info := frameTracker.frameStack[|frameTracker.frameStack| - 1].info;
        frameTracker.UpdateInfo(info.(targetAddress := Some(created.value)));
        frameTracker.RecordDiscardable(ACCOUNT_INFO_WRITE_SIZE);
      }
    }

    /** A create frame that returns records the size of its output. */
    method AfterFrameRun(isCreate: bool, outputLength: nat)
      modifies frameTracker
      ensures View() == if isCreate then AddDiscardable(old(View()), outputLength) else old(View())
    {
      if isCreate {
        frameTracker.RecordDiscardable(outputLength);
      }
    }

    method BeforeFrameReturnResult(lastFrame: bool, ok: bool)
      requires lastFrame || frameTracker.frameStack != []
      modifies frameTracker
      ensures View() == Pop(old(View()), ok)
    {
      var _ := frameTracker.PopFrame(ok);
    }

    method AfterSstore(r: SStoreResult)
      modifies frameTracker
      ensures View() == SlotUpdate(old(View()), r, STORAGE_SLOT_WRITE_SIZE)
    {
      if r.original == r.present {
        if r.original != r.new_ {
          frameTracker.RecordDiscardable(STORAGE_SLOT_WRITE_SIZE);
        }
      } else if r.original == r.new_ {
        frameTracker.RecordRefund(STORAGE_SLOT_WRITE_SIZE);
      }
    }

    method AfterLog(topics: nat, size: nat)
      modifies frameTracker
      ensures View() == LogEmitted(old(View()), topics, size)
    {
      frameTracker.RecordDiscardable(topics * LOG_TOPIC_SIZE + size);
    }
  }

  class StateGrowthTracker {
    const spec: MegaSpecId
    const frameTracker: FrameLimitTracker<()>

    ghost function View(): Tracker<()>
      reads frameTracker
    {
      frameTracker.View()
    }

    constructor (spec: MegaSpecId, txLimit: u64)
      ensures this.spec == spec && fresh(frameTracker) && View() == NewTracker(txLimit)
    {
      this.spec := spec;
      frameTracker := new FrameLimitTracker(txLimit);
    }

    method Reset()
      modifies frameTracker
      ensures View() == FrameState.Reset(old(View()))
    {
      frameTracker.Reset();
    }

    method PushFrame()
      modifies frameTracker
      ensures View() == PushFor(spec, old(View()), ())
    {
      if spec.IsEnabled(Rex4) {
        frameTracker.PushFrame(());
      } else {
        frameTracker.PushFrameWithLimit(U64_MAX, ());
      }
    }

    method TxUsage() returns (usage: nat)
      ensures usage == NetUsage(View())
    {
      usage := frameTracker.NetUsage();
    }

    method CheckLimit() returns (check: LimitCheck)
      ensures check == UsageCheck(spec, View(), StateGrowth)
    {
      if spec.IsEnabled(Rex4) {
        check := frameTracker.ExceedsCurrentFrameLimit(StateGrowth);
      } else {
        var used := TxUsage();
        var limit := frameTracker.txEntry.limit;
        check := if used > limit then ExceedsLimit(StateGrowth, limit, used, false) else WithinLimit;
      }
    }

    method BeforeFrameInit(input: FrameInput)
      modifies frameTracker
      ensures View() == GrowthOnFrameInit(spec, old(View()), input)
    {
      PushFrame();
      match input
      case Call(_, transfersValue, targetEmpty) =>
        if transfersValue && targetEmpty {
          frameTracker.RecordDiscardable(1);
        }
      case Create =>
        frameTracker.RecordDiscardable(1);
    }

    method BeforeFrameReturnResult(lastFrame: bool, ok: bool)
      requires lastFrame || frameTracker.frameStack != []
      modifies frameTracker
      ensures View() == Pop(old(View()), ok)
    {
      var _ := frameTracker.PopFrame(ok);
    }

    method AfterSstore(r: SStoreResult)
      modifies frameTracker
      ensures View() == GrowthOnSstore(old(View()), r)
    {
      match (r.original == 0, r.present == 0, r.new_ == 0)
      case (true, true, false) => frameTracker.RecordDiscardable(1);
      case (true, false, true) => frameTracker.RecordRefund(1);
      case _ =>
    }
  }

  class ComputeGasTracker {
    const spec: MegaSpecId
    const frameTracker: FrameLimitTracker<()>
    var detainedLimit: u64

    ghost function View(): ComputeState
      reads this, frameTracker
    {
      Compute(frameTracker.View(), detainedLimit)
    }

    constructor (spec: MegaSpecId, txLimit: u64)
      ensures this.spec == spec && fresh(frameTracker) && View() == NewComputeGas(txLimit)
    {
      this.spec := spec;
      frameTracker := new FrameLimitTracker(txLimit);
      detainedLimit := txLimit;
    }

    method Reset()
      modifies this, frameTracker
      ensures View() == ResetCompute(spec, old(View()))
    {
      frameTracker.Reset();
      if spec.IsEnabled(Rex1) {
        detainedLimit := frameTracker.txEntry.limit;
      }
    }

    method PushFrame()
      modifies frameTracker
      ensures View() == PushCompute(spec, old(View()))
    {
      if spec.IsEnabled(Rex4) {
        frameTracker.PushFrame(());
      } else {
        frameTracker.PushFrameWithLimit(U64_MAX, ());
      }
    }

    method BeforeFrameReturnResult(lastFrame: bool, ok: bool)
      requires lastFrame || frameTracker.frameStack != []
      modifies frameTracker
      ensures View() == PopCompute(old(View()), ok)
    {
      var _ := frameTracker.PopFrame(ok);
    }

    method TxUsage() returns (usage: nat)
      ensures usage == View().Usage()
    {
      usage := frameTracker.NetUsage();
    }

    method TxLimit() returns (limit: u64)
      ensures limit == View().TxLimit()
    {
      limit := Min(frameTracker.txEntry.limit, detainedLimit);
    }

    method SetDetainedLimit(cap: u64)
      modifies this
      ensures View() == SetDetained(spec, old(View()), cap)
    {
      var newLimit: u64 := cap;
      if spec.IsEnabled(Rex4) {
        var used := TxUsage();
        newLimit := SatAdd(used, cap);
      }
      detainedLimit := Min(detainedLimit, newLimit);
    }

    method CurrentCallRemaining() returns (remaining: nat)
      ensures remaining == TrackerState.CurrentCallRemaining(spec, View())
    {
      var limit := TxLimit();
      var used := TxUsage();
      remaining := SatSub(limit, used);
      if spec.IsEnabled(Rex4) {
        var stack := frameTracker.frameStack;
        var frameRemaining := if stack != [] then stack[|stack| - 1].Remaining() else frameTracker.txEntry.Remaining();
        remaining := Min(frameRemaining, remaining);
      }
    }

    method RecordGasUsed(gas: nat)
      modifies frameTracker
      ensures View() == RecordGas(old(View()), gas)
    {
      frameTracker.RecordPersistent(gas);
    }

    method CheckLimit() returns (check: LimitCheck)
      ensures check == ComputeCheck(spec, View())
    {
      if spec.IsEnabled(Rex4) {
        var frameCheck := frameTracker.ExceedsCurrentFrameLimit(ComputeGas);
        if frameCheck.ExceedsLimit? {
          return frameCheck;
        }
      }
      var limit := TxLimit();
      var used := TxUsage();
      check := if used > limit then ExceedsLimit(ComputeGas, limit, used, false) else WithinLimit;
    }
  }
}

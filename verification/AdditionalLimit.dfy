/** The additional limit (limit/limit.rs): four trackers, a latch and the rescued gas, driven by lifecycle hooks. */
module AdditionalLimits {
  import opened Prelude
  import opened LimitTypes
  import opened FrameState
  import opened TrackerState
  import opened Trackers
  import opened LimitState
  import State = LimitState

  class AdditionalLimit {
    const spec: MegaSpecId
    var hasExceededLimit: LimitCheck
    var rescuedGas: nat
    const dataSize: DataSizeTracker
    const kvUpdate: KVUpdateTracker
    const computeGas: ComputeGasTracker
    const stateGrowth: StateGrowthTracker

    ghost const Repr: set<object> :=
      {this, dataSize.frameTracker, kvUpdate.frameTracker, computeGas, computeGas.frameTracker, stateGrowth.frameTracker}

    ghost predicate Valid()
      reads this
    {
      && dataSize.spec == spec && kvUpdate.spec == spec && computeGas.spec == spec && stateGrowth.spec == spec
      && dataSize.frameTracker != kvUpdate.frameTracker
      && computeGas.frameTracker != stateGrowth.frameTracker
      && {dataSize.frameTracker as object, kvUpdate.frameTracker} !! {computeGas.frameTracker as object, stateGrowth.frameTracker}
    }

    ghost function View(): Limits
      reads Repr
    {
      Limits(spec, hasExceededLimit, rescuedGas, dataSize.View(), kvUpdate.View(), computeGas.View(), stateGrowth.View())
    }

    constructor (spec: MegaSpecId, limits: TxLimits)
      ensures Valid() && fresh(Repr) && View() == NewLimits(spec, limits)
    {
      this.spec := spec;
      hasExceededLimit := WithinLimit;
      rescuedGas := 0;
      dataSize := new DataSizeTracker(spec, limits.dataSize);
      kvUpdate := new KVUpdateTracker(spec, limits.kvUpdates);
      computeGas := new ComputeGasTracker(spec, limits.computeGas);
      stateGrowth := new StateGrowthTracker(spec, limits.stateGrowth);
    }

    method Reset()
      requires Valid()
      modifies Repr
      ensures Valid() && View() == ResetLimits(old(View()))
    {
      hasExceededLimit := WithinLimit;
      rescuedGas := 0;
      computeGas.Reset();
      stateGrowth.Reset();
      dataSize.Reset();
      kvUpdate.Reset();
    }

    method GetUsage() returns (usage: LimitUsage)
      requires Valid()
      ensures usage == Usage(View())
    {
      var data := dataSize.TxUsage();
      var kv := kvUpdate.TxUsage();
      var compute := computeGas.TxUsage();
      var growth := stateGrowth.TxUsage();
      usage := LimitUsage(data, kv, compute, growth);
    }

    method PushEmptyFrame()
      requires Valid()
      modifies Repr
      ensures Valid() && View() == EmptyFramePushed(old(View()))
    {
      stateGrowth.PushFrame();
      dataSize.PushFrame(EMPTY_FRAME);
      kvUpdate.PushFrame(EMPTY_FRAME);
      computeGas.PushFrame();
    }

    method SetComputeGasLimit(cap: u64)
      requires Valid()
      modifies Repr
      ensures Valid() && View() == Detained(old(View()), cap)
    {
      computeGas.SetDetainedLimit(cap);
    }

    method CheckLimit() returns (check: LimitCheck)
      requires Valid()
      modifies this
      ensures Valid() && View() == Checked(old(View())) && check == hasExceededLimit
    {
      if hasExceededLimit.ExceedsLimit? {
        return hasExceededLimit;
      }
      var dataSizeCheck := dataSize.CheckLimit();
      if dataSizeCheck.ExceedsLimit? {
        hasExceededLimit := dataSizeCheck;
        return hasExceededLimit;
      }
      var kvUpdateCheck := kvUpdate.CheckLimit();
      if kvUpdateCheck.ExceedsLimit? {
        hasExceededLimit := kvUpdateCheck;
        return hasExceededLimit;
      }
      var computeGasCheck := computeGas.CheckLimit();
      if computeGasCheck.ExceedsLimit? {
        hasExceededLimit := computeGasCheck;
        return hasExceededLimit;
      }
      var stateGrowthCheck := stateGrowth.CheckLimit();
      if stateGrowthCheck.ExceedsLimit? {
        hasExceededLimit := stateGrowthCheck;
        return hasExceededLimit;
      }
      check := hasExceededLimit;
    }

    method RecordComputeGas(gas: nat) returns (within: bool)
      requires Valid()
      modifies Repr
      ensures Valid() && View() == ComputeRecorded(old(View()), gas) && within == hasExceededLimit.WithinLimit?
    {
      computeGas.RecordGasUsed(gas);
      var check := CheckLimit();
      within := check.WithinLimit?;
    }

    method TryRescueGas(gas: nat)
      requires Valid()
      modifies this
      ensures Valid() && View() == Rescued(old(View()), gas)
    {
      var check := CheckLimit();
      if check.ExceedsLimit? && !check.IsFrameLocal() {
        rescuedGas := rescuedGas + gas;
      }
    }

    method BeforeTxStart(tx: Transaction) returns (within: bool)
      requires Valid()
      modifies Repr
      ensures Valid() && View() == AtTxStart(old(View()), tx) && within == hasExceededLimit.WithinLimit?
    {
      dataSize.BeforeTxStart(tx);
      kvUpdate.BeforeTxStart(tx);
      var check := CheckLimit();
      within := check.WithinLimit?;
    }

    method BeforeFrameInit(input: FrameInput, gasLimit: nat) returns (rejection: Option<FrameResult>)
      requires Valid()
      modifies Repr
      ensures Valid() && View() == AtFrameInit(old(View()), input, gasLimit)
      ensures rejection == State.Rejection(old(View()), input, gasLimit)
    {
      stateGrowth.BeforeFrameInit(input);
      dataSize.BeforeFrameInit(input);
      kvUpdate.BeforeFrameInit(input);
      computeGas.PushFrame();
      var check := CheckLimit();
      if check.ExceedsLimit? {
        var result := FrameResult(ExceedingStatus(hasExceededLimit), gasLimit, input.Create?);
        TryRescueGas(result.gas);
        return Some(result);
      }
      rejection := None;
    }

    /** The frame was created and is about to run. */
    method AfterFrameInitItem(created: Option<Address>)
      requires Valid()
      requires created.Some? && dataSize.frameTracker.frameStack != [] ==> Top(View().data).info.targetAddress.None?
      requires created.Some? && kvUpdate.frameTracker.frameStack != [] ==> Top(View().kv).info.targetAddress.None?
      modifies Repr
      ensures Valid() && View() == FrameOpened(old(View()), created)
    {
      dataSize.AfterFrameInitOnFrame(created);
      kvUpdate.AfterFrameInitOnFrame(created);
    }

    /** Frame initialization ended at once with a result. */
    method AfterFrameInitResult(result: FrameResult)
      requires Valid()
      modifies Repr
      ensures Valid() && View() == Rescued(old(View()), result.gas)
    {
      TryRescueGas(result.gas);
    }

    method BeforeFrameRun(gas: nat, isCreate: bool) returns (stopped: Option<FrameResult>)
      requires Valid()
      modifies Repr
      ensures Valid() && View() == Checked(old(View()))
      ensures stopped == if hasExceededLimit.ExceedsLimit? then Some(FrameResult(ExceedingStatus(hasExceededLimit), gas, isCreate))
                         else None
    {
      var check := CheckLimit();
      if check.ExceedsLimit? {
        return Some(FrameResult(ExceedingStatus(hasExceededLimit), gas, isCreate));
      }
      stopped := None;
    }

    method AfterFrameRunInstructions(isCreate: bool, outputLength: nat, status: Status) returns (marked: Status)
      requires Valid()
      modifies Repr
      ensures Valid() && View() == AfterInstructions(old(View()), isCreate, outputLength)
      ensures marked == StatusAfterInstructions(old(View()), isCreate, outputLength, status)
    {
      marked := status;
      dataSize.AfterFrameRun(isCreate, outputLength);
      if isCreate {
        if hasExceededLimit.ExceedsLimit? {
          marked := ExceedingStatus(hasExceededLimit);
          return;
        }
        var check := CheckLimit();
        if check.ExceedsLimit? {
          marked := ExceedingStatus(hasExceededLimit);
        }
      }
    }

    method AfterFrameRun(result: FrameResult, gasBefore: nat) returns (marked: FrameResult)
      requires Valid()
      modifies Repr
      ensures Valid() && View() == AfterFrame(old(View()), result, gasBefore)
      ensures marked == ResultAfterFrame(old(View()), result, gasBefore)
    {
      marked := result;
      var within := RecordComputeGas(SatSub(gasBefore, result.gas));
      if !within {
        marked := marked.(status := ExceedingStatus(hasExceededLimit));
      }
      TryRescueGas(marked.gas);
    }

    method BeforeFrameReturnResult(lastFrame: bool, result: FrameResult) returns (marked: FrameResult)
      requires Valid()
      requires lastFrame || (View().data.stack != [] && View().kv.stack != [] && View().compute.frames.stack != []
                             && View().growth.stack != [])
      modifies Repr
      ensures Valid() && View() == AtFrameReturn(old(View()), lastFrame, result)
      ensures marked == ResultAtFrameReturn(old(View()), lastFrame, result)
    {
      marked := result;
      var duplicate := lastFrame && dataSize.frameTracker.frameStack == [];
      stateGrowth.BeforeFrameReturnResult(lastFrame, result.status.IsOk());
      dataSize.BeforeFrameReturnResult(lastFrame, result.status.IsOk());
      kvUpdate.BeforeFrameReturnResult(lastFrame, result.status.IsOk());
      computeGas.BeforeFrameReturnResult(lastFrame, result.status.IsOk());
      var check := CheckLimit();
      if check.ExceedsLimit? && !duplicate {
        if check.IsFrameLocal() {
          hasExceededLimit := WithinLimit;
          marked := marked.(status := Revert);
        } else {
          marked := marked.(status := OutOfGas);
        }
      }
    }

    method OnSstore(r: SStoreResult) returns (within: bool)
      requires Valid()
      modifies Repr
      ensures Valid() && View() == AtSstore(old(View()), r) && within == hasExceededLimit.WithinLimit?
    {
      stateGrowth.AfterSstore(r);
      dataSize.AfterSstore(r);
      kvUpdate.AfterSstore(r);
      var check := CheckLimit();
      within := check.WithinLimit?;
    }

    method OnLog(topics: nat, size: nat) returns (within: bool)
      requires Valid()
      modifies Repr
      ensures Valid() && View() == AtLog(old(View()), topics, size) && within == hasExceededLimit.WithinLimit?
    {
      dataSize.AfterLog(topics, size);
      var check := CheckLimit();
      within := check.WithinLimit?;
    }
  }
}

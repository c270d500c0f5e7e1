/** The driver (evm/execution.rs) as the object whose methods order the hooks around revm's frame stack. */
module Execution {
  import opened Prelude
  import opened LimitTypes
  import opened FrameState
  import opened TrackerState
  import opened LimitState
  import opened AdditionalLimits
  import opened ExecutionState

  /** A create frame the limits let through has no target address yet. */
  lemma CreateHasNoTargetYet(l: Limits, gas: nat)
    requires Rejection(l, Create, gas).None?
    ensures AtFrameInit(l, Create, gas).data.stack != [] && Top(AtFrameInit(l, Create, gas).data).info.targetAddress.None?
    ensures AtFrameInit(l, Create, gas).kv.stack != [] && Top(AtFrameInit(l, Create, gas).kv).info.targetAddress.None?
  {
    hide FirstExceeded, MaxForwardLimit;
  }

  class MegaEvm {
    const additionalLimit: AdditionalLimit
    var frames: seq<EvmFrame>

    ghost predicate Valid()
      reads additionalLimit
    {
      additionalLimit.Valid()
    }

    /** The machine state of the execution loop at a call of one of the methods. */
    ghost function State(phase: Phase, gasLimit: nat): Evm
      reads this, additionalLimit.Repr
    {
      Evm(additionalLimit.View(), frames, phase, gasLimit, 0, 0)
    }

    constructor (spec: MegaSpecId, limits: TxLimits)
      ensures Valid() && fresh(additionalLimit.Repr) && frames == [] && additionalLimit.View() == NewLimits(spec, limits)
    {
      additionalLimit := new AdditionalLimit(spec, limits);
      frames := [];
    }

    method FrameInit(init: Init) returns (outcome: InitOutcome)
      requires Valid() && init.Legal(additionalLimit.spec)
      modifies this, additionalLimit.Repr
      ensures Valid()
      ensures additionalLimit.View() == InitLimits(old(additionalLimit.View()), init)
      ensures outcome == InitResult(old(additionalLimit.View()), init)
      ensures frames == old(frames) + if outcome.Item? then [outcome.frame] else []
    {
      hide AtFrameInit, Rejection, FrameOpened, Rescued, ComputeRecorded, Detained, EmptyFramePushed;
      if init.oracleCap.Some? {
        additionalLimit.SetComputeGasLimit(init.oracleCap.value);
      }
      if init.handling.Intercepted? {
        additionalLimit.PushEmptyFrame();
        return Finished(FrameResult(init.handling.status, init.handling.gasLeft, false));
      }
      var rejection := additionalLimit.BeforeFrameInit(init.input, init.gas);
      if rejection.Some? {
        return Finished(rejection.value);
      }
      match init.handling.inner
      case Opened(created) =>
        var frame := EvmFrame(init.gas, init.input.Create?);
        frames := frames + [frame];
        if init.input.Create? {
          CreateHasNoTargetYet(InitDetained(old(additionalLimit.View()), init), init.gas);
        }
        additionalLimit.AfterFrameInitItem(if init.input.Create? then Some(created) else None);
        outcome := Item(frame);
      case Immediate(status, gasLeft, computeGas) =>
        var result := FrameResult(status, gasLeft, init.input.Create?);
        var _ := additionalLimit.RecordComputeGas(computeGas);
        additionalLimit.AfterFrameInitResult(result);
        outcome := Finished(result);
    }

    /** The head of frame_run: a frame that already exceeds a limit does not run. */
    method EnterFrame() returns (stopped: Option<Status>)
      requires Valid() && frames != []
      modifies additionalLimit.Repr
      ensures Valid()
      ensures State(Entering, 0).(phase := if stopped.Some? then Stopped(stopped.value) else Executing)
           == StepEnter(old(State(Entering, 0)))
    {
      var top := frames[|frames| - 1];
      var result := additionalLimit.BeforeFrameRun(top.gas, top.isCreate);
      stopped := if result.Some? then Some(result.value.status) else None;
    }

    /** The tail of frame_run once the instructions returned with `status`; revm's processing is `processed` and `gasAfter`. */
    method FinishFrame(status: Status, outputLength: nat, processed: Status, gasAfter: nat) returns (result: FrameResult)
      requires Valid() && Enabled(State(Stopped(status), 0), Finish(outputLength, processed, gasAfter))
      modifies additionalLimit.Repr
      ensures Valid()
      ensures var next := StepFinish(old(State(Stopped(status), 0)), Finish(outputLength, processed, gasAfter));
              additionalLimit.View() == next.limits && next.phase == Returning(result, true)
    {
      hide AfterInstructions, StatusAfterInstructions, AfterFrame, ResultAfterFrame;
      var frame := frames[|frames| - 1];
      var gas, marked := frame.gas, status;
      if frame.isCreate && status.IsOk() {
        var depositStorageGas := CODEDEPOSIT_STORAGE_GAS * outputLength;
        if depositStorageGas <= gas {
          gas := gas - depositStorageGas;
        } else {
          marked := OutOfGas;
        }
      }
      marked := additionalLimit.AfterFrameRunInstructions(frame.isCreate, outputLength, marked);
      result := if frame.isCreate && marked.IsOk() then FrameResult(processed, gasAfter, true)
                else FrameResult(marked, gas, frame.isCreate);
      result := additionalLimit.AfterFrameRun(result, gas);
    }

    /** Returns the result to the parent frame, or out of the loop when there is none left. */
    method FrameReturnResult(result: FrameResult, live: bool) returns (last: Option<FrameResult>)
      requires Valid() && Enabled(State(Returning(result, live), 0), ReturnFrame)
      requires additionalLimit.View().data.stack != [] && additionalLimit.View().kv.stack != []
      requires additionalLimit.View().compute.frames.stack != [] && additionalLimit.View().growth.stack != []
      modifies this, additionalLimit.Repr
      ensures Valid()
      ensures var next := StepReturnFrame(old(State(Returning(result, live), 0)));
              && additionalLimit.View() == next.limits && frames == next.frames
              && next.phase == if last.Some? then Ending(last.value, true) else Entering
    {
      hide AtFrameReturn, ResultAtFrameReturn;
      var returned := additionalLimit.BeforeFrameReturnResult(false, result);
      if live {
        frames := frames[..|frames| - 1];
      }
      if frames == [] {
        return Some(returned);
      }
      if returned.status.IsOkOrRevert() {
        var parent := frames[|frames| - 1];
        frames := frames[|frames| - 1 := parent.(gas := parent.gas + returned.gas)];
      }
      last := None;
    }

    /** Spends the gas limit, gives back what an ok or reverted result has left, then the rescued gas. */
    method LastFrameResult(result: FrameResult, popped: bool, gasLimit: nat) returns (spent: int)
      requires Valid()
      modifies additionalLimit.Repr
      ensures Valid()
      ensures var next := StepConclude(old(State(Ending(result, popped), gasLimit)));
              additionalLimit.View() == next.limits && next.phase == Done(spent)
    {
      hide ResultAtFrameReturn, FirstExceeded;
      var final := additionalLimit.BeforeFrameReturnResult(true, result);
      spent := gasLimit;
      if final.status.IsOkOrRevert() {
        spent := spent - final.gas;
      }
      spent := spent - additionalLimit.rescuedGas;
    }
  }
}

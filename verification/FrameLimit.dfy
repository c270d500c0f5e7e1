/** The frame limit tracker (limit/frame_limit.rs) as the object the other trackers update in place. */
module FrameLimit {
  import opened Prelude
  import opened LimitTypes
  import opened FrameState
  import State = FrameState

  /** `FrameLimitTracker` itself: two fields, updated in place. */
  class FrameLimitTracker<I> {
    var txEntry: Entry<()>
    var frameStack: seq<Entry<I>>

    ghost function View(): Tracker<I>
      reads this
    {
      Tracker(txEntry, frameStack)
    }

    constructor (txLimit: u64)
      ensures View() == NewTracker(txLimit)
    {
      txEntry := NewEntry(txLimit, ());
      frameStack := [];
    }

    method Reset()
      modifies this
      ensures View() == State.Reset(old(View()))
      ensures frameStack == [] && txEntry == Entry(old(txEntry).limit, 0, 0, 0, ())
    {
      txEntry := Entry(txEntry.limit, 0, 0, 0, ());
      frameStack := [];
    }

    /**
      Computed in u128 and narrowed to u64; the contract says that no bit is lost. Of what the current
      frame has left the result is 98 hundredths, rounded down.
     */
    method MaxForwardLimit() returns (limit: u64)
      ensures limit == State.MaxForwardLimit(View())
      ensures frameStack == [] ==> limit == txEntry.limit
      ensures frameStack != [] ==>
                var e := frameStack[|frameStack| - 1];
                var net := if e.persistent + e.discardable <= e.refund then 0 else e.persistent + e.discardable - e.refund;
                var left := if e.limit <= net then 0 else e.limit - net;
                100 * limit <= 98 * left < 100 * limit + 100
    {
      if frameStack != [] {
        var product := frameStack[|frameStack| - 1].Remaining() * FRAME_LIMIT_NUMERATOR;
        limit := (product / FRAME_LIMIT_DENOMINATOR) % (U64_MAX + 1);
      } else {
        limit := txEntry.limit;
      }
    }

    method PushFrame(info: I)
      modifies this
      ensures View() == Push(old(View()), info)
    {
      var limit := MaxForwardLimit();
      frameStack := frameStack + [Entry(limit, 0, 0, 0, info)];
    }

    method PushFrameWithLimit(limit: u64, info: I)
      modifies this
      ensures View() == PushWithLimit(old(View()), limit, info)
    {
      frameStack := frameStack + [Entry(limit, 0, 0, 0, info)];
    }

    method PopFrame(success: bool) returns (child: Option<Entry<I>>)
      modifies this
      ensures View() == Pop(old(View()), success)
      ensures child == if old(frameStack) == [] then None else Some(Top(old(View())))
    {
      if frameStack == [] {
        return None;
      }
      var top := frameStack[|frameStack| - 1];
      frameStack := frameStack[..|frameStack| - 1];
      child := Some(top);
      if frameStack != [] {
        var parent := frameStack[|frameStack| - 1];
        parent := parent.(persistent := parent.persistent + top.persistent);
        if success {
          parent := parent.(discardable := parent.discardable + top.discardable);
          parent := parent.(refund := parent.refund + top.refund);
        }
        frameStack := frameStack[|frameStack| - 1 := parent];
        assert frameStack == old(frameStack)[..|old(frameStack)| - 2] + [parent];
      } else {
        txEntry := txEntry.(persistent := txEntry.persistent + top.persistent);
        if success {
          txEntry := txEntry.(discardable := txEntry.discardable + top.discardable);
          txEntry := txEntry.(refund := txEntry.refund + top.refund);
        }
      }
    }

    method RecordPersistent(n: nat)
      modifies this
      ensures View() == AddPersistent(old(View()), n)
    {
      if frameStack != [] {
        var top := frameStack[|frameStack| - 1];
        frameStack := frameStack[|frameStack| - 1 := top.(persistent := top.persistent + n)];
      } else {
        txEntry := txEntry.(persistent := txEntry.persistent + n);
      }
    }

    method RecordDiscardable(n: nat)
      modifies this
      ensures View() == AddDiscardable(old(View()), n)
    {
      if frameStack != [] {
        var top := frameStack[|frameStack| - 1];
        frameStack := frameStack[|frameStack| - 1 := top.(discardable := top.discardable + n)];
      }
    }

    method RecordRefund(n: nat)
      modifies this
      ensures View() == AddRefund(old(View()), n)
    {
      if frameStack != [] {
        var top := frameStack[|frameStack| - 1];
        frameStack := frameStack[|frameStack| - 1 := top.(refund := top.refund + n)];
      }
    }

    method UpdateInfo(info: I)
      modifies this
      ensures View() == SetInfo(old(View()), info)
    {
      if frameStack != [] {
        var top := frameStack[|frameStack| - 1];
        frameStack := frameStack[|frameStack| - 1 := top.(info := info)];
      }
    }

    method RecordTxPersistent(n: nat)
      modifies this
      ensures View() == AddTxPersistent(old(View()), n)
    {
      txEntry := txEntry.(persistent := txEntry.persistent + n);
    }

    /** The loop that sums the entries, clamped at zero. */
    method NetUsage() returns (usage: nat)
      ensures usage == State.NetUsage(View())
    {
      ghost var sum := StackTotal(frameStack[..0]);
      var used, refund := txEntry.Used(), txEntry.refund;
      for i := 0 to |frameStack|
        invariant sum == StackTotal(frameStack[..i])
        invariant used == txEntry.Used() + sum.persistent + sum.discardable && refund == txEntry.refund + sum.refund
      {
        StackTotalUpTo(frameStack, i);
        sum := sum.Plus(frameStack[i].Sum());
        used, refund := used + frameStack[i].Used(), refund + frameStack[i].refund;
      }
      assert frameStack[..|frameStack|] == frameStack;
      usage := SatSub(used, refund);
    }

    method ExceedsCurrentFrameLimit(kind: LimitKind) returns (check: LimitCheck)
      ensures check == FrameCheck(View(), kind)
      ensures check.ExceedsLimit? <==>
                frameStack != [] && var e := frameStack[|frameStack| - 1]; e.persistent + e.discardable - e.refund > e.limit
    {
      if frameStack != [] && SatSub(frameStack[|frameStack| - 1].Used(), frameStack[|frameStack| - 1].refund) > frameStack[|frameStack| - 1].limit {
        return ExceedsLimit(kind, frameStack[|frameStack| - 1].limit, frameStack[|frameStack| - 1].Used(), true);
      }
      check := WithinLimit;
    }
  }
}

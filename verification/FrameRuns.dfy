/**
  Whole runs of one frame limit tracker: what nested frames of any depth do to the frames below
  them, to the totals and to the budgets.
 */
module FrameRuns {
  import opened Prelude
  import opened FrameState

  /** The updates the hooks of the four trackers are made of. */
  datatype Op<I> =
    | PushForwarded(info: I)
    | PushLimited(limit: u64, info: I)
    | Persist(n: nat)
    | Discard(n: nat)
    | Refund(n: nat)
    | Inform(info: I)
    | PopWith(success: bool)

  function StepOp<I>(t: Tracker<I>, op: Op<I>): Tracker<I> {
    match op
    case PushForwarded(info) => Push(t, info)
    case PushLimited(limit, info) => PushWithLimit(t, limit, info)
    case Persist(n) => AddPersistent(t, n)
    case Discard(n) => AddDiscardable(t, n)
    case Refund(n) => AddRefund(t, n)
    case Inform(info) => SetInfo(t, info)
    case PopWith(success) => Pop(t, success)
  }

  function RunOps<I>(t: Tracker<I>, ops: seq<Op<I>>): Tracker<I> {
    if ops == [] then t else StepOp(RunOps(t, ops[..|ops| - 1]), ops[|ops| - 1])
  }

  function Persisted<I>(ops: seq<Op<I>>): nat {
    if ops == [] then 0
    else Persisted(ops[..|ops| - 1]) + (match ops[|ops| - 1] case Persist(n) => n case _ => 0)
  }

  function Recorded<I>(ops: seq<Op<I>>): nat {
    if ops == [] then 0
    else Recorded(ops[..|ops| - 1]) +
         (match ops[|ops| - 1] case Persist(n) => n case Discard(n) => n case Refund(n) => n case _ => 0)
  }

  /** No prefix of the run brings the stack down to `height` frames or fewer. */
  predicate StaysAbove<I>(t: Tracker<I>, ops: seq<Op<I>>, height: nat) {
    if ops == [] then height < |t.stack|
    else StaysAbove(t, ops[..|ops| - 1], height) && height < |RunOps(t, ops).stack|
  }

  // ---------------------------------------------------------------------------------------------
  // Totals
  // ---------------------------------------------------------------------------------------------

  lemma StackTotalSplit<I>(stack: seq<Entry<I>>, e: Entry<I>)
    ensures StackTotal(stack + [e]) == StackTotal(stack).Plus(e.Sum())
  {
    assert (stack + [e])[..|stack|] == stack;
  }

  lemma TotalWithTop<I>(t: Tracker<I>, e: Entry<I>)
    requires t.stack != []
    ensures Total(t) == t.tx.Sum().Plus(StackTotal(t.stack[..|t.stack| - 1])).Plus(Top(t).Sum())
    ensures Total(WithTop(t, e)) == t.tx.Sum().Plus(StackTotal(t.stack[..|t.stack| - 1])).Plus(e.Sum())
  {
    assert WithTop(t, e).stack[..|t.stack| - 1] == t.stack[..|t.stack| - 1];
  }

  lemma TotalOfReset<I>(t: Tracker<I>)
    ensures Total(Reset(t)) == NOTHING
  {
  }

  lemma TotalOfPush<I>(t: Tracker<I>, limit: u64, info: I)
    ensures Total(PushWithLimit(t, limit, info)) == Total(t)
  {
    StackTotalSplit(t.stack, NewEntry(limit, info));
  }

  /** A successful pop moves the child's amounts; a failed one drops its discardable part and refund. */
  lemma TotalOfPop<I>(t: Tracker<I>, success: bool)
    requires t.stack != []
    ensures Total(t).persistent == Total(Pop(t, success)).persistent
    ensures Total(t).discardable == Total(Pop(t, success)).discardable + if success then 0 else Top(t).discardable
    ensures Total(t).refund == Total(Pop(t, success)).refund + if success then 0 else Top(t).refund
  {
    var n := |t.stack|;
    TotalWithTop(t, Top(t));
    if n > 1 {
      var below := t.stack[..n - 2];
      assert t.stack[..n - 1] == below + [t.stack[n - 2]];
      StackTotalSplit(below, t.stack[n - 2]);
      StackTotalSplit(below, Merge(t.stack[n - 2], t.stack[n - 1], success));
    } else {
      assert t.stack[..0] == [];
    }
  }

  lemma TotalOfRecords<I>(t: Tracker<I>, n: nat)
    ensures Total(AddPersistent(t, n)) == Total(t).Plus(Amounts(n, 0, 0))
    ensures t.stack != [] ==> Total(AddDiscardable(t, n)) == Total(t).Plus(Amounts(0, n, 0))
    ensures t.stack != [] ==> Total(AddRefund(t, n)) == Total(t).Plus(Amounts(0, 0, n))
  {
    if t.stack != [] {
      TotalWithTop(t, Top(t).(persistent := Top(t).persistent + n));
      TotalWithTop(t, Top(t).(discardable := Top(t).discardable + n));
      TotalWithTop(t, Top(t).(refund := Top(t).refund + n));
    }
  }

  lemma TotalOfInfo<I>(t: Tracker<I>, info: I)
    ensures Total(SetInfo(t, info)) == Total(t)
  {
    if t.stack != [] {
      TotalWithTop(t, Top(t).(info := info));
    }
  }

  /** How one operation changes the totals. */
  lemma TotalOfStep<I>(t: Tracker<I>, op: Op<I>)
    ensures Total(StepOp(t, op)).persistent == Total(t).persistent + if op.Persist? then op.n else 0
    ensures Total(StepOp(t, op)).discardable <= Total(t).discardable + if op.Discard? then op.n else 0
    ensures Total(StepOp(t, op)).refund <= Total(t).refund + if op.Refund? then op.n else 0
  {
    hide Total;
    match op
    case PushForwarded(info) => TotalOfPush(t, MaxForwardLimit(t), info);
    case PushLimited(limit, info) => TotalOfPush(t, limit, info);
    case Persist(n) => TotalOfRecords(t, n);
    case Discard(n) => TotalOfRecords(t, n);
    case Refund(n) => TotalOfRecords(t, n);
    case Inform(info) => TotalOfInfo(t, info);
    case PopWith(success) => if t.stack != [] { TotalOfPop(t, success); }
  }

  lemma {:induction false} TotalPersistentOfRun<I>(t: Tracker<I>, ops: seq<Op<I>>)
    ensures Total(RunOps(t, ops)).persistent == Total(t).persistent + Persisted(ops)
  {
    if ops != [] {
      TotalPersistentOfRun(t, ops[..|ops| - 1]);
      TotalOfStep(RunOps(t, ops[..|ops| - 1]), ops[|ops| - 1]);
    }
  }

  // ---------------------------------------------------------------------------------------------
  // Rollback and commit of a child frame
  // ---------------------------------------------------------------------------------------------

  lemma StepLeavesFramesBelow<I>(t: Tracker<I>, op: Op<I>, height: nat)
    requires height < |t.stack| && height < |StepOp(t, op).stack|
    ensures StepOp(t, op).tx == t.tx
    ensures StepOp(t, op).stack[..height] == t.stack[..height]
  {
  }

  lemma {:induction false} FramesBelowAreFrozen<I>(t: Tracker<I>, ops: seq<Op<I>>, height: nat)
    requires StaysAbove(t, ops, height)
    ensures height < |t.stack| && height < |RunOps(t, ops).stack|
    ensures RunOps(t, ops).tx == t.tx
    ensures RunOps(t, ops).stack[..height] == t.stack[..height]
  {
    if ops != [] {
      FramesBelowAreFrozen(t, ops[..|ops| - 1], height);
      StepLeavesFramesBelow(RunOps(t, ops[..|ops| - 1]), ops[|ops| - 1], height);
    }
  }

  /** The child entry at the end of a balanced sub-run, over an untouched parent stack. */
  lemma BalancedRunShape<I>(t: Tracker<I>, limit: u64, info: I, ops: seq<Op<I>>)
    requires StaysAbove(PushWithLimit(t, limit, info), ops, |t.stack|)
    requires |RunOps(PushWithLimit(t, limit, info), ops).stack| == |t.stack| + 1
    ensures var end := RunOps(PushWithLimit(t, limit, info), ops);
            end == Tracker(t.tx, t.stack + [Top(end)]) && Top(end).persistent == Persisted(ops)
  {
    hide RunOps, StaysAbove, Persisted;
    var start := PushWithLimit(t, limit, info);
    var end := RunOps(start, ops);
    FramesBelowAreFrozen(start, ops, |t.stack|);
    assert start.stack[..|t.stack|] == t.stack;
    assert end.stack == t.stack + [Top(end)];
    TotalPersistentOfRun(start, ops);
    StackTotalSplit(t.stack, Top(end));
    TotalOfPush(t, limit, info);
  }

  /**
    Rollback exactness: whatever happened inside a child, at any depth, its failure leaves the
    tracker as it was except for the persistent amounts recorded meanwhile, which land where a
    direct record would have put them.
   */
  lemma FailedChildLeavesOnlyPersistentUsage<I>(t: Tracker<I>, limit: u64, info: I, ops: seq<Op<I>>)
    requires StaysAbove(PushWithLimit(t, limit, info), ops, |t.stack|)
    requires |RunOps(PushWithLimit(t, limit, info), ops).stack| == |t.stack| + 1
    ensures Pop(RunOps(PushWithLimit(t, limit, info), ops), false) == AddPersistent(t, Persisted(ops))
  {
    BalancedRunShape(t, limit, info, ops);
    var end := RunOps(PushWithLimit(t, limit, info), ops);
    var n := |t.stack|;
    if n > 0 {
      assert end.stack[..n - 1] == t.stack[..n - 1];
      assert Pop(end, false).stack == AddPersistent(t, Persisted(ops)).stack;
    }
  }

  /** Data size and KV updates record nothing persistent inside a frame, so their rollback is exact. */
  lemma FailedChildIsUndone<I>(t: Tracker<I>, limit: u64, info: I, ops: seq<Op<I>>)
    requires StaysAbove(PushWithLimit(t, limit, info), ops, |t.stack|)
    requires |RunOps(PushWithLimit(t, limit, info), ops).stack| == |t.stack| + 1
    requires forall i :: 0 <= i < |ops| ==> !ops[i].Persist?
    ensures Pop(RunOps(PushWithLimit(t, limit, info), ops), false) == t
  {
    FailedChildLeavesOnlyPersistentUsage(t, limit, info, ops);
    NothingPersisted(ops);
    assert t.stack != [] ==> t.stack[|t.stack| - 1 := Top(t)] == t.stack;
  }

  lemma {:induction false} NothingPersisted<I>(ops: seq<Op<I>>)
    requires forall i :: 0 <= i < |ops| ==> !ops[i].Persist?
    ensures Persisted(ops) == 0
  {
    if ops != [] {
      NothingPersisted(ops[..|ops| - 1]);
    }
  }

  /** A successful child hands all it holds to its parent, and the totals do not move. */
  lemma CommittedChildIsMerged<I>(t: Tracker<I>, limit: u64, info: I, ops: seq<Op<I>>)
    requires StaysAbove(PushWithLimit(t, limit, info), ops, |t.stack|)
    requires |RunOps(PushWithLimit(t, limit, info), ops).stack| == |t.stack| + 1
    ensures var end := RunOps(PushWithLimit(t, limit, info), ops);
            && Total(Pop(end, true)) == Total(end)
            && Pop(end, true) == if t.stack == [] then Tracker(Merge(t.tx, Top(end), true), [])
                                 else WithTop(t, Merge(Top(t), Top(end), true))
  {
    BalancedRunShape(t, limit, info, ops);
    var end := RunOps(PushWithLimit(t, limit, info), ops);
    TotalOfPop(end, true);
    var n := |t.stack|;
    if n > 0 {
      assert end.stack[..n - 1] == t.stack[..n - 1];
    }
  }

  // ---------------------------------------------------------------------------------------------
  // Compute gas: persistent records are never lost
  // ---------------------------------------------------------------------------------------------

  /**
    When only persistent usage is recorded, the usage of the transaction is the sum of the records
    since the reset, whatever frames were pushed and however they ended.
   */
  lemma {:induction false} PersistentUsageIsNeverLost<I>(t: Tracker<I>, ops: seq<Op<I>>)
    requires forall i :: 0 <= i < |ops| ==> !ops[i].Discard? && !ops[i].Refund?
    ensures Total(RunOps(Reset(t), ops)) == Amounts(Persisted(ops), 0, 0)
  {
    if ops == [] {
      TotalOfReset(t);
    } else {
      PersistentUsageIsNeverLost(t, ops[..|ops| - 1]);
      TotalOfStep(RunOps(Reset(t), ops[..|ops| - 1]), ops[|ops| - 1]);
    }
  }

  // ---------------------------------------------------------------------------------------------
  // u64 counters
  // ---------------------------------------------------------------------------------------------

  lemma {:induction false} EntryWithinStackTotal<I>(stack: seq<Entry<I>>, i: nat)
    requires i < |stack|
    ensures stack[i].Used() <= StackTotal(stack).Used() && stack[i].refund <= StackTotal(stack).refund
  {
    if i < |stack| - 1 {
      EntryWithinStackTotal(stack[..|stack| - 1], i);
    }
  }

  lemma {:induction false} TotalsAreBounded<I>(t: Tracker<I>, ops: seq<Op<I>>)
    ensures Total(RunOps(t, ops)).Used() + Total(RunOps(t, ops)).refund
         <= Total(t).Used() + Total(t).refund + Recorded(ops)
  {
    if ops != [] {
      TotalsAreBounded(t, ops[..|ops| - 1]);
      TotalOfStep(RunOps(t, ops[..|ops| - 1]), ops[|ops| - 1]);
    }
  }

  /**
    No counter of a run can overflow while what the tracker holds and what the run records add up
    to a u64: `checked_add` never panics, `+=` never wraps, and neither do the sums of the usage
    loop.
   */
  lemma CountersFitU64<I>(t: Tracker<I>, ops: seq<Op<I>>)
    requires Total(t).Used() + Total(t).refund + Recorded(ops) <= U64_MAX
    ensures Total(RunOps(t, ops)).Used() <= U64_MAX && Total(RunOps(t, ops)).refund <= U64_MAX
    ensures forall i :: 0 <= i < |RunOps(t, ops).stack| ==>
              RunOps(t, ops).stack[i].Used() <= U64_MAX && RunOps(t, ops).stack[i].refund <= U64_MAX
  {
    TotalsAreBounded(t, ops);
    EntriesFit(RunOps(t, ops));
  }

  lemma EntriesFit<I>(t: Tracker<I>)
    requires Total(t).Used() <= U64_MAX && Total(t).refund <= U64_MAX
    ensures t.tx.Used() <= U64_MAX && t.tx.refund <= U64_MAX
    ensures forall i :: 0 <= i < |t.stack| ==> t.stack[i].Used() <= U64_MAX && t.stack[i].refund <= U64_MAX
  {
    forall i | 0 <= i < |t.stack|
      ensures t.stack[i].Used() <= U64_MAX && t.stack[i].refund <= U64_MAX
    {
      EntryWithinStackTotal(t.stack, i);
    }
  }

  // ---------------------------------------------------------------------------------------------
  // Rex4 budgets: geometric decay and nesting
  // ---------------------------------------------------------------------------------------------

  /** The frame at nesting index k holds at most 0.98^k of the transaction limit. */
  ghost predicate Decayed<I>(t: Tracker<I>) {
    forall k :: 0 <= k < |t.stack| ==> t.stack[k].limit * Pow(100, k) <= t.tx.limit * Pow(98, k)
  }

  lemma ScaleDown(child: nat, parent: nat, limit: nat, p: nat, q: nat)
    requires child * 100 <= parent * 98
    requires parent * p <= limit * q
    ensures child * (100 * p) <= limit * (98 * q)
  {
    calc {
      child * (100 * p);
    ==
      (child * 100) * p;
    <=
      (parent * 98) * p;
    ==
      98 * (parent * p);
    <=
      98 * (limit * q);
    ==
      limit * (98 * q);
    }
  }

  lemma PushDecays<I>(t: Tracker<I>, info: I)
    requires Decayed(t)
    ensures Decayed(Push(t, info))
  {
    var n := |t.stack|;
    if n > 0 {
      ScaleDown(MaxForwardLimit(t), Top(t).limit, t.tx.limit, Pow(100, n - 1), Pow(98, n - 1));
    }
  }

  lemma StepDecays<I>(t: Tracker<I>, op: Op<I>)
    requires Decayed(t) && !op.PushLimited?
    ensures Decayed(StepOp(t, op)) && StepOp(t, op).tx.limit == t.tx.limit
  {
    if op.PushForwarded? {
      PushDecays(t, op.info);
    }
  }

  /** Geometric decay holds for every stack a Rex4 tracker can reach. */
  lemma {:induction false} BudgetsDecay<I>(t: Tracker<I>, ops: seq<Op<I>>)
    requires t.stack == [] && forall i :: 0 <= i < |ops| ==> !ops[i].PushLimited?
    ensures Decayed(RunOps(t, ops)) && RunOps(t, ops).tx.limit == t.tx.limit
  {
    if ops != [] {
      BudgetsDecay(t, ops[..|ops| - 1]);
      StepDecays(RunOps(t, ops[..|ops| - 1]), ops[|ops| - 1]);
    }
  }

  /** What the current frame has left of its limit, from its counters. */
  function Left<I>(e: Entry<I>): nat {
    var net := e.persistent + e.discardable - e.refund;
    if net <= 0 then e.limit else if e.limit <= net then 0 else e.limit - net
  }

  /** A pushed frame gets 98 hundredths of what its parent has left, rounded down, or the transaction's limit. */
  lemma PushedLimit<I>(t: Tracker<I>, info: I)
    ensures var pushed := Push(t, info);
            && pushed.tx == t.tx && pushed.stack == t.stack + [Entry(Top(pushed).limit, 0, 0, 0, info)]
            && (t.stack == [] ==> Top(pushed).limit == t.tx.limit)
            && (t.stack != [] ==> 100 * Top(pushed).limit <= 98 * Left(Top(t)) < 100 * Top(pushed).limit + 100)
  {
  }

  /** Nothing is recorded in any frame. */
  predicate Unused<I>(t: Tracker<I>) {
    forall k :: 0 <= k < |t.stack| ==> t.stack[k].persistent == t.stack[k].discardable == t.stack[k].refund == 0
  }

  /** The frame at nesting index k holds at least 0.98^k of the transaction limit, but for rounding. */
  ghost predicate DecayedNoFaster<I>(t: Tracker<I>) {
    forall k :: 0 <= k < |t.stack| ==>
      (2 * t.stack[k].limit + 99) * Pow(100, k) >= (2 * t.tx.limit + 99) * Pow(98, k)
  }

  lemma PushDecaysNoFaster<I>(t: Tracker<I>, info: I)
    requires Unused(t) && DecayedNoFaster(t)
    ensures Unused(Push(t, info)) && DecayedNoFaster(Push(t, info))
  {
    hide MaxForwardLimit;
    var n, next := |t.stack|, Push(t, info);
    PushedLimit(t, info);
    assert forall k :: 0 <= k < n ==> next.stack[k] == t.stack[k];
    if n > 0 {
      ShareDecaysNoFaster(next.stack[n].limit, t.stack[n - 1].limit, t.tx.limit, n - 1);
    }
  }

  lemma ShareDecaysNoFaster(child: nat, parent: nat, limit: nat, k: nat)
    requires 98 * parent < 100 * child + 100
    requires (2 * parent + 99) * Pow(100, k) >= (2 * limit + 99) * Pow(98, k)
    ensures (2 * child + 99) * Pow(100, k + 1) >= (2 * limit + 99) * Pow(98, k + 1)
  {
    ScaleUp(2 * child + 99, 2 * parent + 99, 2 * limit + 99, Pow(100, k), Pow(98, k));
  }

  lemma ScaleUp(child: nat, parent: nat, limit: nat, p: nat, q: nat)
    requires child * 100 >= parent * 98
    requires parent * p >= limit * q
    ensures child * (100 * p) >= limit * (98 * q)
  {
    calc {
      child * (100 * p);
    ==
      (child * 100) * p;
    >=
      (parent * 98) * p;
    ==
      98 * (parent * p);
    >=
      98 * (limit * q);
    ==
      limit * (98 * q);
    }
  }

  /** Budgets decay by no more than 98/100 per level either, in every stack reached without recording anything. */
  lemma {:induction false} BudgetsDecayNoFaster<I>(t: Tracker<I>, ops: seq<Op<I>>)
    requires t.stack == []
    requires forall i :: 0 <= i < |ops| ==> ops[i].PushForwarded? || ops[i].Inform? || ops[i].PopWith?
    ensures Unused(RunOps(t, ops)) && DecayedNoFaster(RunOps(t, ops)) && RunOps(t, ops).tx.limit == t.tx.limit
  {
    hide Push;
    if ops != [] {
      var before, last := RunOps(t, ops[..|ops| - 1]), ops[|ops| - 1];
      BudgetsDecayNoFaster(t, ops[..|ops| - 1]);
      if last.PushForwarded? {
        PushDecaysNoFaster(before, last.info);
        PushedLimit(before, last.info);
      }
    }
  }

  /** Every ancestor is within its limit and has handed its child at most what it had left. */
  ghost predicate Nested<I>(t: Tracker<I>) {
    && (t.stack != [] ==> t.stack[0].limit <= t.tx.limit)
    && forall i :: 0 <= i < |t.stack| - 1 ==> t.stack[i].Within() && t.stack[i + 1].limit <= t.stack[i].Remaining()
  }

  lemma NestedPush<I>(t: Tracker<I>, info: I)
    requires Nested(t) && FrameWithin(t)
    ensures Nested(Push(t, info)) && FrameWithin(Push(t, info))
  {
  }

  lemma NestedRecord<I>(t: Tracker<I>, n: nat, info: I)
    requires Nested(t)
    ensures Nested(AddDiscardable(t, n)) && Nested(AddRefund(t, n)) && Nested(SetInfo(t, info))
  {
  }

  /** A child within its budget cannot push its parent over, and a failed child cannot either. */
  lemma NestedPop<I>(t: Tracker<I>, success: bool)
    requires Nested(t) && t.stack != []
    requires success ==> FrameWithin(t)
    requires !success ==> Top(t).persistent == 0
    ensures Nested(Pop(t, success)) && FrameWithin(Pop(t, success))
  {
    var n := |t.stack|;
    if n > 1 {
      assert t.stack[n - 2].Within() && t.stack[n - 2 + 1].limit <= t.stack[n - 2].Remaining();
    }
  }

  /** What a nested stack uses, counting what the current frame may still use, fits the first budget. */
  lemma {:induction false} NestedNet<I>(tx: Entry<()>, stack: seq<Entry<I>>)
    requires stack != [] && Nested(Tracker(tx, stack)) && stack[|stack| - 1].Within()
    ensures StackTotal(stack).Net() + stack[|stack| - 1].Remaining() <= stack[0].limit
  {
    var n := |stack|;
    var below := stack[..n - 1];
    if n > 1 {
      assert stack[n - 2].Within() && stack[n - 2 + 1].limit <= stack[n - 2].Remaining();
      assert Nested(Tracker(tx, below));
      NestedNet(tx, below);
    } else {
      assert below == [];
    }
  }

  /** While every live frame is within its budget, the transaction uses at most its limit beyond the pre-frame usage. */
  lemma NestedUsage<I>(t: Tracker<I>)
    requires Nested(t) && FrameWithin(t)
    ensures t.stack != [] ==> StackTotal(t.stack).Net() <= t.stack[0].limit
    ensures NetUsage(t) <= t.tx.Used() + t.tx.limit
  {
    if t.stack != [] {
      NestedNet(t.tx, t.stack);
    }
  }
}

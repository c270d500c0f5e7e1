/**
  The state of a frame limit tracker (limit/frame_limit.rs): a transaction entry below a stack of
  frame entries, and what each operation does to it.
 */
module FrameState {
  import opened Prelude
  import opened LimitTypes

  const FRAME_LIMIT_NUMERATOR := 98
  const FRAME_LIMIT_DENOMINATOR := 100

  /** The three counters of an entry, added up over entries. */
  datatype Amounts = Amounts(persistent: nat, discardable: nat, refund: nat) {
    function Plus(other: Amounts): Amounts {
      Amounts(persistent + other.persistent, discardable + other.discardable, refund + other.refund)
    }

    function Used(): nat {
      persistent + discardable
    }

    /** Signed net usage. */
    function Net(): int {
      Used() - refund
    }
  }

  const NOTHING: Amounts := Amounts(0, 0, 0)

  datatype Entry<I> = Entry(limit: u64, persistent: nat, discardable: nat, refund: nat, info: I) {
    function Sum(): Amounts {
      Amounts(persistent, discardable, refund)
    }

    function Used(): nat {
      persistent + discardable
    }

    function Net(): int {
      Used() - refund
    }

    function Remaining(): nat {
      SatSub(limit, SatSub(Used(), refund))
    }

    predicate Within() {
      SatSub(Used(), refund) <= limit
    }
  }

  datatype Tracker<I> = Tracker(tx: Entry<()>, stack: seq<Entry<I>>)

  function NewEntry<I>(limit: u64, info: I): Entry<I> {
    Entry(limit, 0, 0, 0, info)
  }

  function NewTracker<I>(txLimit: u64): Tracker<I> {
    Tracker(NewEntry(txLimit, ()), [])
  }

  function Top<I>(t: Tracker<I>): Entry<I>
    requires t.stack != []
  {
    t.stack[|t.stack| - 1]
  }

  function WithTop<I>(t: Tracker<I>, e: Entry<I>): Tracker<I>
    requires t.stack != []
  {
    t.(stack := t.stack[|t.stack| - 1 := e])
  }

  function Reset<I>(t: Tracker<I>): Tracker<I> {
    Tracker(NewEntry(t.tx.limit, ()), [])
  }

  function MaxForwardLimit<I>(t: Tracker<I>): u64 {
    if t.stack == [] then t.tx.limit
    else Top(t).Remaining() * FRAME_LIMIT_NUMERATOR / FRAME_LIMIT_DENOMINATOR
  }

  function PushWithLimit<I>(t: Tracker<I>, limit: u64, info: I): Tracker<I> {
    t.(stack := t.stack + [NewEntry(limit, info)])
  }

  function Push<I>(t: Tracker<I>, info: I): Tracker<I> {
    PushWithLimit(t, MaxForwardLimit(t), info)
  }

  function Merge<I, J>(parent: Entry<I>, child: Entry<J>, success: bool): Entry<I> {
    parent.(persistent := parent.persistent + child.persistent,
            discardable := if success then parent.discardable + child.discardable else parent.discardable,
            refund := if success then parent.refund + child.refund else parent.refund)
  }

  function Pop<I>(t: Tracker<I>, success: bool): Tracker<I> {
    var n := |t.stack|;
    if n == 0 then t
    else if n == 1 then Tracker(Merge(t.tx, t.stack[0], success), [])
    else Tracker(t.tx, t.stack[..n - 2] + [Merge(t.stack[n - 2], t.stack[n - 1], success)])
  }

  /** Persistent usage lands in the current frame, or in the transaction entry when there is none. */
  function AddPersistent<I>(t: Tracker<I>, n: nat): Tracker<I> {
    if t.stack == [] then t.(tx := t.tx.(persistent := t.tx.persistent + n))
    else WithTop(t, Top(t).(persistent := Top(t).persistent + n))
  }

  /** Discardable usage is recorded only when there is a frame. */
  function AddDiscardable<I>(t: Tracker<I>, n: nat): Tracker<I> {
    if t.stack == [] then t else WithTop(t, Top(t).(discardable := Top(t).discardable + n))
  }

  /** A refund is recorded only when there is a frame. */
  function AddRefund<I>(t: Tracker<I>, n: nat): Tracker<I> {
    if t.stack == [] then t else WithTop(t, Top(t).(refund := Top(t).refund + n))
  }

  function SetInfo<I>(t: Tracker<I>, info: I): Tracker<I> {
    if t.stack == [] then t else WithTop(t, Top(t).(info := info))
  }

  function AddTxPersistent<I>(t: Tracker<I>, n: nat): Tracker<I> {
    t.(tx := t.tx.(persistent := t.tx.persistent + n))
  }

  function StackTotal<I>(stack: seq<Entry<I>>): Amounts {
    if stack == [] then NOTHING
    else StackTotal(stack[..|stack| - 1]).Plus(stack[|stack| - 1].Sum())
  }

  lemma StackTotalUpTo<I>(stack: seq<Entry<I>>, i: nat)
    requires i < |stack|
    ensures StackTotal(stack[..i + 1]) == StackTotal(stack[..i]).Plus(stack[i].Sum())
  {
    assert stack[..i + 1][..i] == stack[..i];
  }

  function Total<I>(t: Tracker<I>): Amounts {
    t.tx.Sum().Plus(StackTotal(t.stack))
  }

  function NetUsage<I>(t: Tracker<I>): nat {
    SatSub(Total(t).Used(), Total(t).refund)
  }

  predicate FrameWithin<I>(t: Tracker<I>) {
    t.stack != [] ==> Top(t).Within()
  }

  function FrameCheck<I>(t: Tracker<I>, kind: LimitKind): LimitCheck {
    if FrameWithin(t) then WithinLimit else ExceedsLimit(kind, Top(t).limit, Top(t).Used(), true)
  }

  function CurrentFrameRemaining<I>(t: Tracker<I>): nat {
    if t.stack == [] then t.tx.Remaining() else Top(t).Remaining()
  }
}

/**
  Compute gas over whole transactions (limit/compute_gas.rs): the exactness of the remaining compute
  gas, and gas detention driven by the minimum cap of the volatile data tracker (access/tracker.rs,
  evm/instructions.rs).
 */
module Detention {
  import opened Prelude
  import opened LimitTypes
  import opened FrameState
  import opened FrameRuns
  import opened TrackerState
  import opened ExecutionBudgets

  /** From a state within limit, g more compute gas stays within limit exactly when g is at most the reported remainder. */
  lemma RemainingIsExact(spec: MegaSpecId, c: ComputeState, gas: nat)
    requires OnlyPersistent(c.frames) && ComputeCheck(spec, c).WithinLimit?
    ensures ComputeCheck(spec, RecordGas(c, gas)).WithinLimit? <==> gas <= CurrentCallRemaining(spec, c)
  {
    hide NetUsage, FrameWithin, OnlyPersistent, CurrentFrameRemaining;
    UsageAfterGas(c, gas);
    if spec.IsEnabled(Rex4) {
      FrameRemaining(c.frames, gas);
    }
  }

  lemma UsageAfterGas(c: ComputeState, gas: nat)
    requires OnlyPersistent(c.frames)
    ensures RecordGas(c, gas).Usage() == c.Usage() + gas && RecordGas(c, gas).TxLimit() == c.TxLimit()
  {
    hide Total;
    PersistentTotals(c.frames, gas, 0, (), true);
  }

  /** The frame's share of the remainder; with no frame it is the transaction's and never the tighter one. */
  lemma FrameRemaining(t: Tracker<()>, gas: nat)
    requires OnlyPersistent(t) && FrameWithin(t)
    ensures t.stack != [] ==> (FrameWithin(AddPersistent(t, gas)) <==> gas <= CurrentFrameRemaining(t))
    ensures t.stack == [] ==> FrameWithin(AddPersistent(t, gas)) && CurrentFrameRemaining(t) == SatSub(t.tx.limit, NetUsage(t))
  {
    if t.stack != [] {
      EntryWithinStackTotal(t.stack, |t.stack| - 1);
    }
  }

  // ---------------------------------------------------------------------------------------------
  // Runs
  // ---------------------------------------------------------------------------------------------

  /** Compute gas and the raw cap the volatile data tracker holds, which may not have been applied yet. */
  datatype State = State(compute: ComputeState, cap: Option<u64>)

  /**
    `Mark` is a volatile access as the tracker sees it: the limit of its kind is merged into the raw
    cap and nothing else happens. `Apply` makes the raw cap, if there is one, the detained limit.
    An opcode wrapped for detention marks, records its gas and applies; a call to the beneficiary,
    SELFBALANCE in its code and a transaction it sends or receives only mark.
   */
  datatype Event =
    | Gas(gas: nat)
    | Open
    | Close(ok: bool)
    | Mark(limit: u64)
    | Apply

  function MergedCap(cap: Option<u64>, limit: u64): u64 {
    if cap.Some? then Min(cap.value, limit) else limit
  }

  function Step(spec: MegaSpecId, s: State, e: Event): State {
    match e
    case Gas(gas) => s.(compute := RecordGas(s.compute, gas))
    case Open => s.(compute := PushCompute(spec, s.compute))
    case Close(ok) => s.(compute := PopCompute(s.compute, ok))
    case Mark(limit) => s.(cap := Some(MergedCap(s.cap, limit)))
    case Apply => if s.cap.Some? then s.(compute := SetDetained(spec, s.compute, s.cap.value)) else s
  }

  function After(spec: MegaSpecId, s: State, events: seq<Event>): State {
    if events == [] then s else Step(spec, After(spec, s, events[..|events| - 1]), events[|events| - 1])
  }

  /** How far a cap lets usage go: beyond the usage so far from Rex4 on, absolutely before. */
  function Reach(spec: MegaSpecId, usage: nat, cap: nat): nat {
    if spec.IsEnabled(Rex4) then usage + cap else cap
  }

  function GasRecorded(events: seq<Event>): nat {
    if events == [] then 0
    else GasRecorded(events[..|events| - 1]) + if events[|events| - 1].Gas? then events[|events| - 1].gas else 0
  }

  lemma StepEffects(spec: MegaSpecId, s: State, e: Event)
    requires OnlyPersistent(s.compute.frames)
    ensures var next := Step(spec, s, e);
            && OnlyPersistent(next.compute.frames)
            && next.compute.Usage() == s.compute.Usage() + (if e.Gas? then e.gas else 0)
            && next.compute.frames.tx.limit == s.compute.frames.tx.limit
            && next.compute.detained
               == (if e.Apply? && s.cap.Some? then Min(s.compute.detained, Reach(spec, s.compute.Usage(), s.cap.value))
                   else s.compute.detained)
            && (s.cap.Some? ==> next.cap.Some? && next.cap.value <= s.cap.value)
            && (e.Mark? ==> next.cap.Some? && next.cap.value <= e.limit)
            && (!e.Mark? ==> next.cap == s.cap)
  {
    hide Total;
    var t := s.compute.frames;
    PersistentTotals(t, if e.Gas? then e.gas else 0, if spec.IsEnabled(Rex4) then MaxForwardLimit(t) else U64_MAX, (),
                     if e.Close? then e.ok else true);
  }

  /** Compute gas is never lost: usage grows by exactly the recorded amounts, whatever frames opened and failed. */
  lemma {:induction false} UsageIsRecordedGas(spec: MegaSpecId, s: State, events: seq<Event>)
    requires OnlyPersistent(s.compute.frames)
    ensures OnlyPersistent(After(spec, s, events).compute.frames)
    ensures After(spec, s, events).compute.Usage() == s.compute.Usage() + GasRecorded(events)
  {
    hide Step, OnlyPersistent;
    if events != [] {
      UsageIsRecordedGas(spec, s, events[..|events| - 1]);
      StepEffects(spec, After(spec, s, events[..|events| - 1]), events[|events| - 1]);
    }
  }

  /** Limits only come down along a run, and the raw cap is no more than it was or than any limit marked. */
  lemma {:induction false} RunEffects(spec: MegaSpecId, s: State, events: seq<Event>)
    requires OnlyPersistent(s.compute.frames)
    ensures var end := After(spec, s, events);
            && OnlyPersistent(end.compute.frames)
            && end.compute.detained <= s.compute.detained
            && end.compute.frames.tx.limit == s.compute.frames.tx.limit
            && s.compute.Usage() <= end.compute.Usage()
            && (s.cap.Some? ==> end.cap.Some? && end.cap.value <= s.cap.value)
            && (forall i :: 0 <= i < |events| && events[i].Mark? ==> end.cap.Some? && end.cap.value <= events[i].limit)
  {
    hide Step, OnlyPersistent;
    if events != [] {
      RunEffects(spec, s, events[..|events| - 1]);
      StepEffects(spec, After(spec, s, events[..|events| - 1]), events[|events| - 1]);
    }
  }

  lemma {:induction false} RunsCompose(spec: MegaSpecId, s: State, first: seq<Event>, second: seq<Event>)
    ensures After(spec, s, first + second) == After(spec, After(spec, s, first), second)
  {
    hide Step;
    if second == [] {
      assert first + second == first;
    } else {
      RunsCompose(spec, s, first, second[..|second| - 1]);
      assert (first + second)[..|first + second| - 1] == first + second[..|second| - 1];
    }
  }

  // ---------------------------------------------------------------------------------------------
  // The detained limit
  // ---------------------------------------------------------------------------------------------

  /** The event at i applies a cap. */
  predicate Applies(spec: MegaSpecId, s: State, events: seq<Event>, i: nat) {
    i < |events| && events[i].Apply? && After(spec, s, events[..i]).cap.Some?
  }

  /** How far the cap applied at i lets usage go. */
  function AppliedReach(spec: MegaSpecId, s: State, events: seq<Event>, i: nat): nat
    requires Applies(spec, s, events, i)
  {
    var at := After(spec, s, events[..i]);
    Reach(spec, at.compute.Usage(), at.cap.value)
  }

  lemma PrefixApplies(spec: MegaSpecId, s: State, events: seq<Event>, i: nat)
    requires events != [] && i < |events| - 1
    ensures Applies(spec, s, events[..|events| - 1], i) <==> Applies(spec, s, events, i)
    ensures Applies(spec, s, events, i) ==>
              AppliedReach(spec, s, events[..|events| - 1], i) == AppliedReach(spec, s, events, i)
  {
    assert events[..|events| - 1][..i] == events[..i];
  }

  /**
    Over every run, from any state, the detained limit is the least of where it started and what each
    application reached: usage at the application plus the raw cap then held (Rex4), or that cap (before).
   */
  lemma {:induction false} DetainedIsLeastReach(spec: MegaSpecId, s: State, events: seq<Event>)
    requires OnlyPersistent(s.compute.frames)
    ensures var detained := After(spec, s, events).compute.detained;
            && detained <= s.compute.detained
            && (forall i: nat :: Applies(spec, s, events, i) ==> detained <= AppliedReach(spec, s, events, i))
            && (detained == s.compute.detained
                || exists i: nat :: Applies(spec, s, events, i) && detained == AppliedReach(spec, s, events, i))
  {
    hide Step, OnlyPersistent, Applies, AppliedReach;
    LastApplies(spec, s, events);
    if events != [] {
      var n, before := |events| - 1, events[..|events| - 1];
      DetainedIsLeastReach(spec, s, before);
      RunEffects(spec, s, before);
      StepEffects(spec, After(spec, s, before), events[n]);
      LastApplies(spec, s, before);
      forall i: nat | i < n
        ensures Applies(spec, s, before, i) <==> Applies(spec, s, events, i)
        ensures Applies(spec, s, events, i) ==> AppliedReach(spec, s, before, i) == AppliedReach(spec, s, events, i)
      {
        PrefixApplies(spec, s, events, i);
      }
      var now := After(spec, s, events).compute.detained;
      if now == After(spec, s, before).compute.detained != s.compute.detained {
        var i: nat :| Applies(spec, s, before, i) && After(spec, s, before).compute.detained == AppliedReach(spec, s, before, i);
        assert i < n;
        assert Applies(spec, s, events, i);
      }
    }
  }

  lemma LastApplies(spec: MegaSpecId, s: State, events: seq<Event>)
    ensures forall i: nat :: Applies(spec, s, events, i) ==> i < |events|
    ensures events != [] ==>
              var n, before := |events| - 1, After(spec, s, events[..|events| - 1]);
              && (Applies(spec, s, events, n) <==> events[n].Apply? && before.cap.Some?)
              && (Applies(spec, s, events, n) ==>
                    AppliedReach(spec, s, events, n) == Reach(spec, before.compute.Usage(), before.cap.value))
  {
  }

  /** Re-applying a raw cap that no later access lowered changes nothing, whatever ran and returned in between. */
  lemma ReapplyingIsNoOp(spec: MegaSpecId, s: State, events: seq<Event>)
    requires OnlyPersistent(s.compute.frames)
    requires var applied := Step(spec, s, Apply); After(spec, applied, events).cap == applied.cap
    ensures var end := After(spec, Step(spec, s, Apply), events); Step(spec, end, Apply) == end
  {
    hide Step, OnlyPersistent;
    var applied := Step(spec, s, Apply);
    StepEffects(spec, s, Apply);
    RunEffects(spec, applied, events);
    var end := After(spec, applied, events);
    StepEffects(spec, end, Apply);
    ApplyChangesDetainedOnly(spec, end);
  }

  lemma ApplyChangesDetainedOnly(spec: MegaSpecId, s: State)
    ensures Step(spec, s, Apply) == s.(compute := s.compute.(detained := Step(spec, s, Apply).compute.detained))
  {
  }

  // ---------------------------------------------------------------------------------------------
  // When an access binds
  // ---------------------------------------------------------------------------------------------

  /** No continuation of s can be within limit with more usage than this. */
  ghost predicate Bound(spec: MegaSpecId, s: State, usage: nat) {
    forall events: seq<Event> ::
      ComputeCheck(spec, After(spec, s, events).compute).WithinLimit? ==> After(spec, s, events).compute.Usage() <= usage
  }

  lemma WithinIsBelowTxLimit(spec: MegaSpecId, c: ComputeState)
    ensures ComputeCheck(spec, c).WithinLimit? ==> c.Usage() <= c.TxLimit()
    ensures c.frames.stack == [] && c.Usage() <= c.TxLimit() ==> ComputeCheck(spec, c).WithinLimit?
  {
  }

  /** A run that closes every frame. */
  lemma {:induction false} Closing(spec: MegaSpecId, s: State) returns (events: seq<Event>)
    ensures After(spec, s, events).compute.frames.stack == []
    ensures After(spec, s, events).compute.detained == s.compute.detained
    ensures After(spec, s, events).compute.frames.tx.limit == s.compute.frames.tx.limit && GasRecorded(events) == 0
    decreases |s.compute.frames.stack|
  {
    if s.compute.frames.stack == [] {
      events := [];
    } else {
      var rest := Closing(spec, Step(spec, s, Close(true)));
      events := [Close(true)] + rest;
      assert After(spec, s, [Close(true)]) == Step(spec, s, Close(true));
      RunsCompose(spec, s, [Close(true)], rest);
      GasComposes([Close(true)], rest);
    }
  }

  lemma {:induction false} GasComposes(first: seq<Event>, second: seq<Event>)
    ensures GasRecorded(first + second) == GasRecorded(first) + GasRecorded(second)
  {
    if second == [] {
      assert first + second == first;
    } else {
      GasComposes(first, second[..|second| - 1]);
      assert (first + second)[..|first + second| - 1] == first + second[..|second| - 1];
    }
  }

  /** Usage is bound exactly by the lower of transaction and detained limit, unless that is exceeded already. */
  lemma BoundByTxLimit(spec: MegaSpecId, s: State, usage: nat)
    requires OnlyPersistent(s.compute.frames)
    ensures Bound(spec, s, usage) <==> s.compute.TxLimit() <= usage || s.compute.TxLimit() < s.compute.Usage()
  {
    hide Step, OnlyPersistent, ComputeCheck;
    if s.compute.TxLimit() <= usage || s.compute.TxLimit() < s.compute.Usage() {
      forall events: seq<Event> | ComputeCheck(spec, After(spec, s, events).compute).WithinLimit?
        ensures After(spec, s, events).compute.Usage() <= usage
      {
        RunEffects(spec, s, events);
        WithinIsBelowTxLimit(spec, After(spec, s, events).compute);
      }
    } else {
      var closing := Closing(spec, s);
      var spend := [Gas(s.compute.TxLimit() - s.compute.Usage())];
      UsageIsRecordedGas(spec, s, closing);
      var closed := After(spec, s, closing);
      StepEffects(spec, closed, spend[0]);
      RunsCompose(spec, s, closing, spend);
      assert After(spec, closed, spend) == Step(spec, closed, spend[0]) by {
        assert spend[..0] == [];
      }
      RecordingOpensNothing(spec, closed, spend[0].gas);
      WithinIsBelowTxLimit(spec, After(spec, s, closing + spend).compute);
    }
  }

  lemma RecordingOpensNothing(spec: MegaSpecId, s: State, gas: nat)
    requires s.compute.frames.stack == []
    ensures Step(spec, s, Gas(gas)).compute.frames.stack == []
  {
  }

  /**
    An access holds later usage to its limit beyond the usage at the access (Rex4), or to its limit
    (before), exactly when the transaction was held to that already, or some application followed at
    which the gas recorded since the access plus the raw cap was no more than the limit (Rex4), or
    any application at all (before); or when the transaction has exceeded its limit anyway.
   */
  lemma AccessBindsExactly(spec: MegaSpecId, s: State, limit: u64, events: seq<Event>)
    requires OnlyPersistent(s.compute.frames)
    ensures var marked := Step(spec, s, Mark(limit));
            var end := After(spec, marked, events);
            Bound(spec, end, Reach(spec, s.compute.Usage(), limit))
            <==> (end.compute.TxLimit() < end.compute.Usage()
                  || s.compute.TxLimit() <= Reach(spec, s.compute.Usage(), limit)
                  || exists i: nat :: Applies(spec, marked, events, i)
                                      && (spec.IsEnabled(Rex4) ==>
                                            GasRecorded(events[..i]) + After(spec, marked, events[..i]).cap.value <= limit))
  {
    hide Step, OnlyPersistent, Bound, AppliedReach;
    var marked, reach := Step(spec, s, Mark(limit)), Reach(spec, s.compute.Usage(), limit);
    StepEffects(spec, s, Mark(limit));
    var end := After(spec, marked, events);
    UsageIsRecordedGas(spec, marked, events);
    BoundByTxLimit(spec, end, reach);
    DetainedIsLeastReach(spec, marked, events);
    RunEffects(spec, marked, events);
    forall i: nat | Applies(spec, marked, events, i)
      ensures AppliedReach(spec, marked, events, i) <= reach <==>
                (spec.IsEnabled(Rex4) ==> GasRecorded(events[..i]) + After(spec, marked, events[..i]).cap.value <= limit)
    {
      ReachSinceMark(spec, s, limit, events, i);
    }
  }

  lemma ReachSinceMark(spec: MegaSpecId, s: State, limit: u64, events: seq<Event>, i: nat)
    requires OnlyPersistent(s.compute.frames) && Applies(spec, Step(spec, s, Mark(limit)), events, i)
    ensures var marked := Step(spec, s, Mark(limit));
            && After(spec, marked, events[..i]).cap.Some?
            && (AppliedReach(spec, marked, events, i) <= Reach(spec, s.compute.Usage(), limit) <==>
                  (spec.IsEnabled(Rex4) ==> GasRecorded(events[..i]) + After(spec, marked, events[..i]).cap.value <= limit))
  {
    hide Step, OnlyPersistent;
    var marked := Step(spec, s, Mark(limit));
    StepEffects(spec, s, Mark(limit));
    RunEffects(spec, marked, events[..i]);
    UsageIsRecordedGas(spec, marked, events[..i]);
  }

  /** From the first application after an access on, usage within limit stays within the limit of the access beyond the usage then. */
  lemma AppliedAccessBinds(spec: MegaSpecId, s: State, limit: u64, before: seq<Event>, after: seq<Event>)
    requires OnlyPersistent(s.compute.frames)
    ensures var applied := Step(spec, After(spec, Step(spec, s, Mark(limit)), before), Apply);
            ComputeCheck(spec, After(spec, applied, after).compute).WithinLimit? ==>
              After(spec, applied, after).compute.Usage()
                <= Reach(spec, s.compute.Usage() + GasRecorded(before), limit)
  {
    hide Step, OnlyPersistent, ComputeCheck;
    var marked := Step(spec, s, Mark(limit));
    StepEffects(spec, s, Mark(limit));
    var at := After(spec, marked, before);
    RunEffects(spec, marked, before);
    UsageIsRecordedGas(spec, marked, before);
    StepEffects(spec, at, Apply);
    var applied := Step(spec, at, Apply);
    RunEffects(spec, applied, after);
    WithinIsBelowTxLimit(spec, After(spec, applied, after).compute);
  }

  /**
    A transaction sent or received by the beneficiary: marked before anything ran, it may use more
    than the cap and still be within limit, undetained. The first later application lowers the limit
    to usage plus cap in Rex4; before, to the cap, which is exceeded at once.
   */
  lemma MarkedSenderRunsFree(spec: MegaSpecId, txLimit: u64, cap: u64, gas: nat)
    requires cap < gas && gas + cap <= txLimit
    ensures var start := TransactionStart(spec, NewComputeGas(txLimit), Some(cap));
            var ran := After(spec, start, [Open, Gas(gas)]);
            var applied := Step(spec, ran, Apply);
            && ComputeCheck(spec, ran.compute).WithinLimit?
            && ran.compute.Usage() == gas && ran.compute.detained == txLimit
            && applied.compute.detained == (if spec.IsEnabled(Rex4) then gas + cap else cap)
            && (ComputeCheck(spec, applied.compute).WithinLimit? <==> spec.IsEnabled(Rex4))
  {
    hide NetUsage, OnlyPersistent, FrameWithin, ComputeCheck, Step, After;
    var start := TransactionStart(spec, NewComputeGas(txLimit), Some(cap));
    TwoSteps(spec, start, Open, Gas(gas));
    var entered := Step(spec, start, Open);
    var ran := Step(spec, entered, Gas(gas));
    StartUsage(spec, NewComputeGas(txLimit));
    StepEffects(spec, start, Open);
    StepEffects(spec, entered, Gas(gas));
    StepEffects(spec, ran, Apply);
    OneFrameIsWithin(spec, start, gas);
    ApplyChangesDetainedOnly(spec, ran);
    assert Step(spec, ran, Apply).compute.frames == ran.compute.frames;
    CheckWithinFrame(spec, ran.compute);
    CheckWithinFrame(spec, Step(spec, ran, Apply).compute);
  }

  lemma TwoSteps(spec: MegaSpecId, s: State, e: Event, f: Event)
    ensures After(spec, s, [e, f]) == Step(spec, Step(spec, s, e), f)
  {
    hide Step;
    assert [e, f][..1] == [e] && [e][..0] == [];
    assert After(spec, s, [e]) == Step(spec, After(spec, s, []), e);
  }

  lemma StartUsage(spec: MegaSpecId, c: ComputeState)
    ensures OnlyPersistent(ResetCompute(spec, c).frames) && ResetCompute(spec, c).Usage() == 0
  {
    hide Total;
    TotalOfReset(c.frames);
  }

  lemma OneFrameIsWithin(spec: MegaSpecId, s: State, gas: nat)
    requires s.compute.frames.stack == [] && gas <= s.compute.frames.tx.limit
    ensures FrameWithin(Step(spec, Step(spec, s, Open), Gas(gas)).compute.frames)
  {
  }

  lemma CheckWithinFrame(spec: MegaSpecId, c: ComputeState)
    requires FrameWithin(c.frames)
    ensures ComputeCheck(spec, c).WithinLimit? <==> c.Usage() <= c.TxLimit()
  {
    hide FrameWithin, NetUsage;
  }

  // ---------------------------------------------------------------------------------------------
  // Before Rex4 the order of accesses does not matter
  // ---------------------------------------------------------------------------------------------

  function Caps(events: seq<Event>): set<u64> {
    set i | 0 <= i < |events| && events[i].Mark? :: events[i].limit
  }

  /** The raw cap is the least of the one held at the start and the limits marked. */
  lemma {:induction false} RawCapIsLeast(spec: MegaSpecId, s: State, events: seq<Event>)
    ensures After(spec, s, events).cap.None? <==> s.cap.None? && Caps(events) == {}
    ensures After(spec, s, events).cap.Some? ==>
              var cap := After(spec, s, events).cap.value;
              && (s.cap.Some? ==> cap <= s.cap.value) && (forall c :: c in Caps(events) ==> cap <= c)
              && (s.cap == Some(cap) || cap in Caps(events))
  {
    if events != [] {
      var before, last := events[..|events| - 1], events[|events| - 1];
      RawCapIsLeast(spec, s, before);
      assert Caps(events) == Caps(before) + if last.Mark? then {last.limit} else {} by {
        assert events == before + [last];
      }
    }
  }

  /**
    Before Rex4 an application leaves the least of the detained limit at the start, the cap held then
    and every cap marked, so runs with the same caps, in any order and number, end alike.
   */
  lemma CapsCommuteBeforeRex4(spec: MegaSpecId, s: State, one: seq<Event>, other: seq<Event>)
    requires OnlyPersistent(s.compute.frames) && !spec.IsEnabled(Rex4) && Caps(one) == Caps(other)
    ensures Step(spec, After(spec, s, one), Apply).compute.detained == Step(spec, After(spec, s, other), Apply).compute.detained
    ensures Step(spec, After(spec, s, one), Apply).compute.detained
         == (if After(spec, s, one).cap.Some? then Min(s.compute.detained, After(spec, s, one).cap.value) else s.compute.detained)
  {
    ApplicationsBeforeRex4(spec, s, one);
    ApplicationsBeforeRex4(spec, s, other);
    RawCapIsLeast(spec, s, one);
    RawCapIsLeast(spec, s, other);
  }

  lemma ApplicationsBeforeRex4(spec: MegaSpecId, s: State, events: seq<Event>)
    requires OnlyPersistent(s.compute.frames) && !spec.IsEnabled(Rex4)
    ensures var end := After(spec, s, events);
            Step(spec, end, Apply).compute.detained
            == (if end.cap.Some? then Min(s.compute.detained, end.cap.value) else s.compute.detained)
  {
    hide Step, OnlyPersistent, Applies, AppliedReach;
    var end := After(spec, s, events);
    RunEffects(spec, s, events);
    StepEffects(spec, end, Apply);
    DetainedIsLeastReach(spec, s, events);
    forall i: nat | Applies(spec, s, events, i)
      ensures end.cap.Some? && end.cap.value <= AppliedReach(spec, s, events, i)
    {
      CapsComeDown(spec, s, events, i);
    }
  }

  lemma CapsComeDown(spec: MegaSpecId, s: State, events: seq<Event>, i: nat)
    requires OnlyPersistent(s.compute.frames) && !spec.IsEnabled(Rex4) && Applies(spec, s, events, i)
    ensures After(spec, s, events).cap.Some? && After(spec, s, events).cap.value <= AppliedReach(spec, s, events, i)
  {
    hide Step, OnlyPersistent;
    RunEffects(spec, s, events[..i]);
    assert events[..i] + events[i..] == events;
    RunsCompose(spec, s, events[..i], events[i..]);
    RunEffects(spec, After(spec, s, events[..i]), events[i..]);
  }

  // ---------------------------------------------------------------------------------------------
  // The start of a transaction
  // ---------------------------------------------------------------------------------------------

  /** The tracker is reset, marked at once when the beneficiary sends or receives the transaction, and the limits are reset. */
  function TransactionStart(spec: MegaSpecId, c: ComputeState, marked: Option<u64>): State {
    State(ResetCompute(spec, c), marked)
  }

  /**
    Marked or not, a transaction from Rex1 on starts undetained. Before Rex1 the detained limit of the
    last transaction stays, and no run of the next one gets above it.
   */
  lemma ResetOfDetention(spec: MegaSpecId, c: ComputeState, marked: Option<u64>, events: seq<Event>)
    ensures var start := TransactionStart(spec, c, marked);
            && OnlyPersistent(start.compute.frames) && start.compute.Usage() == 0
            && start.compute.detained == (if spec.IsEnabled(Rex1) then c.frames.tx.limit else c.detained)
            && (!spec.IsEnabled(Rex1) ==> After(spec, start, events).compute.detained <= c.detained)
  {
    hide NetUsage, OnlyPersistent, Step;
    StartUsage(spec, c);
    RunEffects(spec, TransactionStart(spec, c, marked), events);
  }
}

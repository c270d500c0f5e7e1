/** The state of the volatile data access tracker (access/tracker.rs) and what each operation does to it. */
module VolatileState {
  import opened Prelude

  /** Block environment fields, the beneficiary's account and the oracle contract. */
  datatype AccessType =
    | BlockNumber | Timestamp | Coinbase | Difficulty | GasLimit | BaseFee | PrevRandao | BlockHash | BlobBaseFee | BlobHash
    | BeneficiaryBalance
    | Oracle

  datatype Volatile = Volatile(
    accessed: set<AccessType>,
    cap: Option<u64>,
    blockEnvLimit: u64,
    oracleLimit: u64,
    disableDepth: Option<nat>)

  function CapFor(v: Volatile, kind: AccessType): u64 {
    if kind.Oracle? then v.oracleLimit else v.blockEnvLimit
  }

  function Marked(v: Volatile, kind: AccessType): Volatile {
    v.(accessed := v.accessed + {kind},
       cap := Some(if v.cap.Some? then Min(v.cap.value, CapFor(v, kind)) else CapFor(v, kind)))
  }

  function Disabled(v: Volatile, depth: nat): Volatile {
    if v.disableDepth.Some? && depth >= v.disableDepth.value then v else v.(disableDepth := Some(depth))
  }

  predicate IsDisabled(v: Volatile, depth: nat) {
    v.disableDepth.Some? && depth >= v.disableDepth.value
  }

  predicate MayEnable(v: Volatile, depth: nat) {
    v.disableDepth.Some? ==> depth <= v.disableDepth.value
  }

  function Enabled(v: Volatile, depth: nat): Volatile {
    if MayEnable(v, depth) then v.(disableDepth := None) else v
  }

  /** On frame return: a disable deeper than the current depth is out of scope. */
  function Returned(v: Volatile, depth: nat): Volatile {
    if v.disableDepth.Some? && depth < v.disableDepth.value then v.(disableDepth := None) else v
  }
}

/** The tracker as the object that host, interceptors and instructions share. */
module VolatileAccess {
  import opened Prelude
  import opened VolatileState
  import State = VolatileState

  class VolatileDataAccessTracker {
    var volatileDataAccessed: set<AccessType>
    var computeGasLimit: Option<u64>
    const blockEnvAccessLimit: u64
    const oracleAccessLimit: u64
    var disableDepth: Option<nat>

    ghost function View(): Volatile
      reads this
    {
      Volatile(volatileDataAccessed, computeGasLimit, blockEnvAccessLimit, oracleAccessLimit, disableDepth)
    }

    constructor (blockEnvAccessLimit: u64, oracleAccessLimit: u64)
      ensures View() == Volatile({}, None, blockEnvAccessLimit, oracleAccessLimit, None)
    {
      volatileDataAccessed := {};
      computeGasLimit := None;
      this.blockEnvAccessLimit := blockEnvAccessLimit;
      this.oracleAccessLimit := oracleAccessLimit;
      disableDepth := None;
    }

    method ApplyOrCreateLimit(limit: u64)
      modifies this`computeGasLimit
      ensures computeGasLimit
           == Some(if old(computeGasLimit).Some? then Min(old(computeGasLimit).value, limit) else limit)
    {
      match computeGasLimit
      case Some(current) => computeGasLimit := Some(Min(current, limit));
      case None => computeGasLimit := Some(limit);
    }

    method MarkBlockEnvAccessed(kind: AccessType)
      requires !kind.Oracle?
      modifies this
      ensures View() == Marked(old(View()), kind)
    {
      volatileDataAccessed := volatileDataAccessed + {kind};
      ApplyOrCreateLimit(blockEnvAccessLimit);
    }

    method CheckAndMarkOracleAccess(isOracle: bool) returns (marked: bool)
      modifies this
      ensures marked == isOracle
      ensures View() == if isOracle then Marked(old(View()), Oracle) else old(View())
    {
      if isOracle {
        volatileDataAccessed := volatileDataAccessed + {Oracle};
        ApplyOrCreateLimit(oracleAccessLimit);
      }
      return isOracle;
    }

    method DisableAccess(depth: nat)
      modifies this
      ensures View() == State.Disabled(old(View()), depth)
    {
      match disableDepth
      case Some(current) => if depth < current { disableDepth := Some(depth); }
      case None => disableDepth := Some(depth);
    }

    method VolatileAccessDisabled(currentDepth: nat) returns (disabled: bool)
      ensures disabled == IsDisabled(View(), currentDepth)
    {
      return disableDepth.Some? && currentDepth >= disableDepth.value;
    }

    method EnableAccess(callerDepth: nat) returns (success: bool)
      modifies this
      ensures success == MayEnable(old(View()), callerDepth)
      ensures View() == State.Enabled(old(View()), callerDepth)
    {
      match disableDepth
      case None => return true;
      case Some(d) =>
        if callerDepth > d {
          return false;
        }
        disableDepth := None;
        return true;
    }

    method EnableAccessIfReturning(currentDepth: nat)
      modifies this
      ensures View() == State.Returned(old(View()), currentDepth)
    {
      if disableDepth.Some? && currentDepth < disableDepth.value {
        disableDepth := None;
      }
    }

    method Reset()
      modifies this
      ensures View() == Volatile({}, None, blockEnvAccessLimit, oracleAccessLimit, None)
    {
      volatileDataAccessed := {};
      computeGasLimit := None;
      disableDepth := None;
    }
  }
}

/**
  One optional depth stands for a stack of per-frame flags: whoever disables volatile access does so
  for its own frame and everything below it, until it re-enables it or returns.
 */
module VolatileScoping {
  import opened Prelude
  import opened VolatileState

  /**
    What happens at the current depth. `Refused` is a call answered without a frame (intercepted,
    rejected, or a precompile): its result returns at the caller's depth. `Touch` is a guarded opcode
    that reads volatile data; it reverts before it marks anything when access is disabled.
    `SelfBalance` runs in the beneficiary's own code; it marks and is not guarded.
   */
  datatype Event =
    | Call
    | Return
    | Refused
    | Disable
    | Enable
    | Query
    | Touch(kind: AccessType)
    | SelfBalance

  /** The tracker and the journal depth. */
  datatype World = World(tracker: Volatile, depth: nat)

  function Step(w: World, e: Event): World {
    match e
    case Call => w.(depth := w.depth + 1)
    case Return => var depth := SatSub(w.depth, 1); World(Returned(w.tracker, depth), depth)
    case Refused => w.(tracker := Returned(w.tracker, w.depth))
    case Disable => w.(tracker := Disabled(w.tracker, w.depth))
    case Enable => w.(tracker := Enabled(w.tracker, w.depth))
    case Query => w
    case Touch(kind) => if IsDisabled(w.tracker, w.depth) then w else w.(tracker := Marked(w.tracker, kind))
    case SelfBalance => w.(tracker := Marked(w.tracker, BeneficiaryBalance))
  }

  /** What the caller is told: whether enabling succeeded, whether access is disabled, whether the opcode ran. */
  function Answer(w: World, e: Event): bool {
    match e
    case Enable => MayEnable(w.tracker, w.depth)
    case Query => IsDisabled(w.tracker, w.depth)
    case Touch(_) => !IsDisabled(w.tracker, w.depth)
    case _ => true
  }

  /** The reference: one flag per depth, from the transaction level (depth 0) to the current frame. */
  type Flags = flags: seq<bool> | flags != [] witness [false]

  predicate AnySet(flags: seq<bool>) {
    exists i :: 0 <= i < |flags| && flags[i]
  }

  function Ancestors(flags: Flags): seq<bool> {
    flags[..|flags| - 1]
  }

  function FlagStep(flags: Flags, e: Event): Flags
    requires e.Return? ==> |flags| > 1
  {
    match e
    case Call => flags + [false]
    case Return => Ancestors(flags)
    case Disable => Ancestors(flags) + [true]
    case Enable => if AnySet(Ancestors(flags)) then flags else Ancestors(flags) + [false]
    case _ => flags
  }

  function FlagAnswer(flags: Flags, e: Event): bool {
    match e
    case Enable => !AnySet(Ancestors(flags))
    case Query => AnySet(flags)
    case Touch(_) => !AnySet(flags)
    case _ => true
  }

  /** The stored depth is the shallowest one whose flag is set. */
  ghost predicate Represents(w: World, flags: Flags) {
    && w.depth == |flags| - 1
    && match w.tracker.disableDepth
       case None => !AnySet(flags)
       case Some(d) => d < |flags| && flags[d] && !AnySet(flags[..d])
  }

  lemma StepRepresents(w: World, flags: Flags, e: Event)
    requires Represents(w, flags) && (e.Return? ==> |flags| > 1)
    ensures Represents(Step(w, e), FlagStep(flags, e))
    ensures Answer(w, e) == FlagAnswer(flags, e)
  {
    var n, next := |flags|, FlagStep(flags, e);
    if w.tracker.disableDepth.Some? {
      var d := w.tracker.disableDepth.value;
      assert forall i :: 0 <= i < d ==> !flags[i] by {
        assert forall i :: 0 <= i < d ==> flags[..d][i] == flags[i];
      }
      assert d < n - 1 ==> Ancestors(flags)[d];
      assert d < |next| ==> next[..d] == flags[..d];
    } else {
      assert forall i :: 0 <= i < n ==> !flags[i];
    }
    assert forall i :: 0 <= i < n - 1 ==> Ancestors(flags)[i] == flags[i];
    assert AnySet(flags) <==> AnySet(Ancestors(flags)) || flags[n - 1];
    assert next[..n - 1] == Ancestors(flags);
  }

  // Runs.

  predicate Runs(flags: Flags, events: seq<Event>)
    decreases |events|, 0
  {
    events == [] ||
    (&& Runs(flags, events[..|events| - 1])
     && (events[|events| - 1].Return? ==> |FlagsAfter(flags, events[..|events| - 1])| > 1))
  }

  function FlagsAfter(flags: Flags, events: seq<Event>): Flags
    requires Runs(flags, events)
    decreases |events|, 1
  {
    if events == [] then flags else FlagStep(FlagsAfter(flags, events[..|events| - 1]), events[|events| - 1])
  }

  function After(w: World, events: seq<Event>): World {
    if events == [] then w else Step(After(w, events[..|events| - 1]), events[|events| - 1])
  }

  function Answers(w: World, events: seq<Event>): seq<bool> {
    if events == [] then []
    else Answers(w, events[..|events| - 1]) + [Answer(After(w, events[..|events| - 1]), events[|events| - 1])]
  }

  function FlagAnswers(flags: Flags, events: seq<Event>): seq<bool>
    requires Runs(flags, events)
  {
    if events == [] then []
    else FlagAnswers(flags, events[..|events| - 1])
         + [FlagAnswer(FlagsAfter(flags, events[..|events| - 1]), events[|events| - 1])]
  }

  /** Over every run the tracker gives every caller the answers the stack of flags would give. */
  lemma {:induction false} DepthRefinesFlags(w: World, flags: Flags, events: seq<Event>)
    requires Represents(w, flags) && Runs(flags, events)
    ensures Represents(After(w, events), FlagsAfter(flags, events))
    ensures Answers(w, events) == FlagAnswers(flags, events)
  {
    if events != [] {
      var before := events[..|events| - 1];
      DepthRefinesFlags(w, flags, before);
      StepRepresents(After(w, before), FlagsAfter(flags, before), events[|events| - 1]);
    }
  }

  /**
    From a reset tracker on: access is disabled exactly when some frame from the transaction level to
    the current one has its flag set, and enabling succeeds exactly when no strict ancestor has.
   */
  lemma DisabledExactlyInScope(tracker: Volatile, events: seq<Event>)
    requires tracker.disableDepth == None && Runs([false], events)
    ensures var w, flags := After(World(tracker, 0), events), FlagsAfter([false], events);
            && w.depth == |flags| - 1
            && (IsDisabled(w.tracker, w.depth) <==> exists i :: 0 <= i <= w.depth && flags[i])
            && (MayEnable(w.tracker, w.depth) <==> forall i :: 0 <= i < w.depth ==> !flags[i])
  {
    DepthRefinesFlags(World(tracker, 0), [false], events);
    var w, flags := After(World(tracker, 0), events), FlagsAfter([false], events);
    StepRepresents(w, flags, Enable);
    StepRepresents(w, flags, Query);
    assert forall i :: 0 <= i < w.depth ==> Ancestors(flags)[i] == flags[i];
  }

  // ---------------------------------------------------------------------------------------------
  // A callee cannot change what its caller may do
  // ---------------------------------------------------------------------------------------------

  /** The run stays in the frame it starts in, or below. */
  predicate Inside(flags: Flags, events: seq<Event>) {
    && Runs(flags, events)
    && forall n :: 0 <= n <= |events| ==> Runs(flags, events[..n]) && |FlagsAfter(flags, events[..n])| >= |flags|
  }

  lemma InsideBefore(flags: Flags, events: seq<Event>)
    requires Inside(flags, events) && events != []
    ensures Inside(flags, events[..|events| - 1]) && |FlagsAfter(flags, events)| >= |flags|
  {
    var before := events[..|events| - 1];
    assert events[..|events|] == events;
    forall n | 0 <= n <= |before| ensures before[..n] == events[..n] {
    }
    assert Runs(flags, events[..|before|]);
  }

  /** Whatever a frame and its callees do, the flags of the frames above them stay. */
  lemma {:induction false} AncestorsKeepTheirFlags(flags: Flags, events: seq<Event>)
    requires Inside(flags, events)
    ensures |FlagsAfter(flags, events)| >= |flags|
    ensures FlagsAfter(flags, events)[..|flags| - 1] == Ancestors(flags)
  {
    if events != [] {
      var before := events[..|events| - 1];
      InsideBefore(flags, events);
      AncestorsKeepTheirFlags(flags, before);
      var mid, end := FlagsAfter(flags, before), FlagsAfter(flags, events);
      assert forall i :: 0 <= i < |flags| - 1 ==> end[i] == mid[i] == mid[..|flags| - 1][i];
    }
  }

  /** After a completed call, of any depth and outcome, the tracker's scope is what it was before the call. */
  lemma CallLeavesScope(w: World, flags: Flags, events: seq<Event>)
    requires Represents(w, flags) && Inside(flags + [false], events)
    requires |FlagsAfter(flags + [false], events)| == |flags| + 1
    ensures var back := Step(After(Step(w, Call), events), Return);
            back.depth == w.depth && back.tracker.disableDepth == w.tracker.disableDepth
  {
    StepRepresents(w, flags, Call);
    DepthRefinesFlags(Step(w, Call), flags + [false], events);
    AncestorsKeepTheirFlags(flags + [false], events);
    var inner := After(Step(w, Call), events);
    StepRepresents(inner, FlagsAfter(flags + [false], events), Return);
    SameDepth(w, Step(inner, Return), flags);
  }

  lemma SameDepth(one: World, other: World, flags: Flags)
    requires Represents(one, flags) && Represents(other, flags)
    ensures one.tracker.disableDepth == other.tracker.disableDepth
  {
    UnsetBelow(one, flags);
    UnsetBelow(other, flags);
  }

  lemma UnsetBelow(w: World, flags: Flags)
    requires Represents(w, flags)
    ensures w.tracker.disableDepth.Some? ==> forall i :: 0 <= i < w.tracker.disableDepth.value ==> !flags[i]
  {
    if w.tracker.disableDepth.Some? {
      var d := w.tracker.disableDepth.value;
      assert forall i :: 0 <= i < d ==> flags[..d][i] == flags[i];
    }
  }

  predicate ReadsSelfBalance(events: seq<Event>) {
    exists i :: 0 <= i < |events| && events[i].SelfBalance?
  }

  /** What the tracker has recorded, leaving out who may access. */
  function Records(v: Volatile): Volatile {
    v.(disableDepth := None)
  }

  /**
    Below a frame in whose scope access is disabled no guarded opcode records an access or changes the
    cap; what is recorded there is one read of the beneficiary's balance if, and only if, its own code
    reads it with SELFBALANCE.
   */
  lemma {:induction false} DisabledSubtreeRecords(w: World, flags: Flags, events: seq<Event>)
    requires Represents(w, flags) && IsDisabled(w.tracker, w.depth) && Inside(flags + [false], events)
    ensures Records(After(Step(w, Call), events).tracker)
         == Records(if ReadsSelfBalance(events) then Marked(w.tracker, BeneficiaryBalance) else w.tracker)
  {
    if events != [] {
      var before, last := events[..|events| - 1], events[|events| - 1];
      InsideBefore(flags + [false], events);
      DisabledSubtreeRecords(w, flags, before);
      StillDisabled(w, flags, before);
      assert ReadsSelfBalance(events) <==> ReadsSelfBalance(before) || last.SelfBalance? by {
        assert events == before + [last];
        assert last.SelfBalance? ==> events[|events| - 1].SelfBalance?;
        if ReadsSelfBalance(before) {
          var i :| 0 <= i < |before| && before[i].SelfBalance?;
          assert events[i].SelfBalance?;
        }
      }
      MarkingTwice(w.tracker, BeneficiaryBalance);
    }
  }

  lemma MarkingTwice(v: Volatile, kind: AccessType)
    ensures Marked(Marked(v, kind), kind) == Marked(v, kind)
  {
    assert v.accessed + {kind} + {kind} == v.accessed + {kind};
  }

  lemma StillDisabled(w: World, flags: Flags, events: seq<Event>)
    requires Represents(w, flags) && IsDisabled(w.tracker, w.depth) && Inside(flags + [false], events)
    ensures var mid := After(Step(w, Call), events); IsDisabled(mid.tracker, mid.depth)
  {
    var inner := flags + [false];
    StepRepresents(w, flags, Call);
    StepRepresents(w, flags, Query);
    DepthRefinesFlags(Step(w, Call), inner, events);
    AncestorsKeepTheirFlags(inner, events);
    var mid, now := After(Step(w, Call), events), FlagsAfter(inner, events);
    StepRepresents(mid, now, Query);
    var i :| 0 <= i < |flags| && flags[i];
    assert now[..|flags|][i] == now[i];
  }

  // ---------------------------------------------------------------------------------------------
  // The raw cap
  // ---------------------------------------------------------------------------------------------

  /** What the tracker knows of accesses: the cap is the least of the limits of the kinds recorded. */
  ghost predicate CapIsLeast(v: Volatile) {
    && (v.cap.None? <==> v.accessed == {})
    && (v.cap.Some? ==>
          && (forall kind :: kind in v.accessed ==> v.cap.value <= CapFor(v, kind))
          && (exists kind :: kind in v.accessed && v.cap.value == CapFor(v, kind)))
  }

  /** The cap depends on the set of recorded kinds only, not on the order or number of accesses. */
  lemma {:induction false} RunsKeepLeastCap(w: World, events: seq<Event>)
    requires CapIsLeast(w.tracker)
    ensures CapIsLeast(After(w, events).tracker)
  {
    if events != [] {
      var before, last := events[..|events| - 1], events[|events| - 1];
      RunsKeepLeastCap(w, before);
      var mid := After(w, before).tracker;
      if last.Touch? && !IsDisabled(mid, After(w, before).depth) {
        MarkingKeepsLeastCap(mid, last.kind);
      } else if last.SelfBalance? {
        MarkingKeepsLeastCap(mid, BeneficiaryBalance);
      }
    }
  }

  lemma MarkingKeepsLeastCap(v: Volatile, kind: AccessType)
    requires CapIsLeast(v)
    ensures CapIsLeast(Marked(v, kind))
  {
    var next := Marked(v, kind);
    assert kind in next.accessed;
    if v.cap.Some? {
      var least :| least in v.accessed && v.cap.value == CapFor(v, least);
      assert least in next.accessed && CapFor(next, least) == CapFor(v, least) && CapFor(next, kind) == CapFor(v, kind);
    }
  }

  /**
    After any run from a reset tracker the raw cap is the oracle's limit where only the oracle was
    accessed, the block environment's where only other data was, and the lower of the two else.
   */
  lemma CapByKinds(tracker: Volatile, depth: nat, events: seq<Event>)
    requires tracker.accessed == {} && tracker.cap == None
    ensures var v := After(World(tracker, depth), events).tracker;
            var oracle, other := Oracle in v.accessed, exists kind :: kind in v.accessed && kind != Oracle;
            && v.oracleLimit == tracker.oracleLimit && v.blockEnvLimit == tracker.blockEnvLimit
            && (!oracle && !other ==> v.cap == None)
            && (oracle && !other ==> v.cap == Some(v.oracleLimit))
            && (!oracle && other ==> v.cap == Some(v.blockEnvLimit))
            && (oracle && other ==>
                  v.cap == Some(if v.oracleLimit < v.blockEnvLimit then v.oracleLimit else v.blockEnvLimit))
  {
    RunsKeepLeastCap(World(tracker, depth), events);
    RunsKeepLimits(World(tracker, depth), events);
    var v := After(World(tracker, depth), events).tracker;
    if v.cap.Some? {
      var least :| least in v.accessed && v.cap.value == CapFor(v, least);
      assert Oracle in v.accessed ==> v.cap.value <= CapFor(v, Oracle);
    }
  }

  lemma {:induction false} RunsKeepLimits(w: World, events: seq<Event>)
    ensures After(w, events).tracker.oracleLimit == w.tracker.oracleLimit
    ensures After(w, events).tracker.blockEnvLimit == w.tracker.blockEnvLimit
  {
    if events != [] {
      RunsKeepLimits(w, events[..|events| - 1]);
    }
  }
}

/**
  Storage accounting against the journal: over nested frames that commit and roll back, what the
  trackers charge for SSTORE is the number of slots whose present value differs from the original
  one (limit/kv_update.rs, limit/data_size.rs, limit/state_growth.rs; EIP-2200).
 */
module SstoreAccounting {
  import opened Prelude
  import opened LimitTypes
  import opened FrameState
  import opened FrameRuns
  import opened TrackerState
  import opened ExecutionBudgets
  import Accounts

  // ---------------------------------------------------------------------------------------------
  // A tracker beside its shadow, which sees everything but the storage writes
  // ---------------------------------------------------------------------------------------------

  function NetDiscardable<I>(t: Tracker<I>): int {
    Total(t).discardable - Total(t).refund
  }

  /** `marks[i]` is what the storage writes account for in the transaction entry and the lowest i frames. */
  ghost predicate Accounted<I>(t: Tracker<I>, shadow: Tracker<I>, marks: seq<int>) {
    && |t.stack| == |shadow.stack| == |marks| - 1
    && (forall i :: 0 <= i < |t.stack| ==> t.stack[i].info == shadow.stack[i].info)
    && (forall i :: 0 <= i < |marks| ==> NetDiscardable(Below(t, i)) - NetDiscardable(Below(shadow, i)) == marks[i])
    && Total(t).persistent == Total(shadow).persistent
    && Total(shadow).refund == 0
  }

  lemma BelowAll<I>(t: Tracker<I>)
    ensures Below(t, |t.stack|) == t
  {
  }

  lemma AccountedTop<I>(t: Tracker<I>, shadow: Tracker<I>, marks: seq<int>)
    requires Accounted(t, shadow, marks)
    ensures NetDiscardable(t) - NetDiscardable(shadow) == marks[|marks| - 1]
  {
    hide Total;
    BelowAll(t);
    BelowAll(shadow);
  }

  /** A tracker whose frames below the top are those of `t`. */
  ghost predicate TopOnly<I>(t: Tracker<I>, next: Tracker<I>) {
    && |next.stack| == |t.stack| && next.tx == t.tx
    && (t.stack != [] ==> next.stack[..|t.stack| - 1] == t.stack[..|t.stack| - 1])
    && (t.stack == [] ==> next == t)
  }

  lemma TopOnlyBelow<I>(t: Tracker<I>, next: Tracker<I>, i: nat)
    requires TopOnly(t, next) && i < |t.stack|
    ensures Below(next, i) == Below(t, i)
  {
    assert next.stack[..|t.stack| - 1][..i] == next.stack[..i];
    assert t.stack[..|t.stack| - 1][..i] == t.stack[..i];
  }

  /** Changing the current frames of both moves the top mark by the difference of the changes. */
  lemma AccountedRecord<I>(t: Tracker<I>, shadow: Tracker<I>, marks: seq<int>, next: Tracker<I>, nextShadow: Tracker<I>,
                           delta: int)
    requires Accounted(t, shadow, marks) && TopOnly(t, next) && TopOnly(shadow, nextShadow)
    requires NetDiscardable(next) - NetDiscardable(t) == NetDiscardable(nextShadow) - NetDiscardable(shadow) + delta
    requires Total(next).persistent == Total(t).persistent && Total(nextShadow).persistent == Total(shadow).persistent
    requires Total(nextShadow).refund == 0 && (t.stack != [] ==> Top(next).info == Top(nextShadow).info)
    ensures Accounted(next, nextShadow, marks[|marks| - 1 := marks[|marks| - 1] + delta])
  {
    hide Total;
    AccountedTop(t, shadow, marks);
    BelowAll(next);
    BelowAll(nextShadow);
    forall i | 0 <= i < |t.stack| - 1
      ensures next.stack[i].info == nextShadow.stack[i].info
    {
      assert next.stack[i] == next.stack[..|t.stack| - 1][i] == t.stack[..|t.stack| - 1][i];
      assert nextShadow.stack[i] == nextShadow.stack[..|t.stack| - 1][i] == shadow.stack[..|t.stack| - 1][i];
    }
    forall i | 0 <= i < |marks| - 1
      ensures Below(next, i) == Below(t, i) && Below(nextShadow, i) == Below(shadow, i)
    {
      TopOnlyBelow(t, next, i);
      TopOnlyBelow(shadow, nextShadow, i);
    }
  }

  lemma AccountedPush<I>(t: Tracker<I>, shadow: Tracker<I>, marks: seq<int>, limit: u64, shadowLimit: u64, info: I)
    requires Accounted(t, shadow, marks)
    ensures Accounted(PushWithLimit(t, limit, info), PushWithLimit(shadow, shadowLimit, info), marks + [marks[|marks| - 1]])
  {
    hide Total;
    var next, nextShadow := PushWithLimit(t, limit, info), PushWithLimit(shadow, shadowLimit, info);
    TotalOfPush(t, limit, info);
    TotalOfPush(shadow, shadowLimit, info);
    AccountedTop(t, shadow, marks);
    BelowAll(next);
    BelowAll(nextShadow);
    forall i | 0 <= i < |marks|
      ensures Below(next, i) == Below(t, i) && Below(nextShadow, i) == Below(shadow, i)
    {
      assert next.stack[..i] == t.stack[..i];
      assert nextShadow.stack[..i] == shadow.stack[..i];
    }
  }

  lemma PopBelow<I>(t: Tracker<I>, ok: bool, i: nat)
    requires i < |t.stack| - 1
    ensures |Pop(t, ok).stack| == |t.stack| - 1
    ensures Below(Pop(t, ok), i) == Below(t, i)
  {
    assert Pop(t, ok).stack[..i] == t.stack[..i];
  }

  /** After a failed pop what was not persistent is what the frames below held. */
  lemma FailedPopNet<I>(t: Tracker<I>)
    requires t.stack != []
    ensures NetDiscardable(Pop(t, false)) == NetDiscardable(Below(t, |t.stack| - 1))
  {
    hide StackTotal;
    TotalOfPop(t, false);
    TotalWithTop(t, Top(t));
  }

  /** What popping a frame leaves on top: the mark of the frame itself, or of the frames below. */
  lemma PoppedTop<I>(t: Tracker<I>, shadow: Tracker<I>, marks: seq<int>, ok: bool)
    requires Accounted(t, shadow, marks) && t.stack != []
    ensures NetDiscardable(Pop(t, ok)) - NetDiscardable(Pop(shadow, ok)) == marks[if ok then |t.stack| else |t.stack| - 1]
  {
    hide Total;
    if ok {
      TotalOfPop(t, true);
      TotalOfPop(shadow, true);
      AccountedTop(t, shadow, marks);
    } else {
      FailedPopNet(t);
      FailedPopNet(shadow);
    }
  }

  lemma AccountedPop<I>(t: Tracker<I>, shadow: Tracker<I>, marks: seq<int>, ok: bool)
    requires Accounted(t, shadow, marks) && t.stack != []
    ensures Accounted(Pop(t, ok), Pop(shadow, ok), marks[..|t.stack| - 1] + [marks[if ok then |t.stack| else |t.stack| - 1]])
  {
    hide Total;
    PoppedTop(t, shadow, marks, ok);
    TotalOfPop(t, ok);
    TotalOfPop(shadow, ok);
    BelowAll(Pop(t, ok));
    BelowAll(Pop(shadow, ok));
    forall i | 0 <= i < |t.stack| - 1
      ensures Below(Pop(t, ok), i) == Below(t, i) && Below(Pop(shadow, ok), i) == Below(shadow, i)
    {
      PopBelow(t, ok, i);
      PopBelow(shadow, ok, i);
    }
  }

  /** Usage is the shadow's usage plus the storage share, clamped at zero. */
  lemma AccountedUsage<I>(t: Tracker<I>, shadow: Tracker<I>, marks: seq<int>)
    requires Accounted(t, shadow, marks)
    ensures NetUsage(t) == UsageWith(NetUsage(shadow), marks[|marks| - 1])
  {
    hide Total;
    AccountedTop(t, shadow, marks);
  }

  // ---------------------------------------------------------------------------------------------
  // The journal
  // ---------------------------------------------------------------------------------------------

  datatype SlotKey = SlotKey(address: Accounts.Location, key: Word)

  /** The storage behind a transaction, and where the delegation of each account ends. */
  datatype Storage = Storage(db: SlotKey -> Word, owner: Accounts.Location -> Accounts.Location)

  /**
    The slots the journal holds: the original value each was cached with, the present values of those
    written, and the values written when each live frame was opened. A rollback restores written
    values; what is cached stays.
   */
  datatype Journal = Journal(cached: map<SlotKey, Word>, present: map<SlotKey, Word>, checkpoints: seq<map<SlotKey, Word>>)

  function Cached(j: Journal, slot: SlotKey, value: Word): Journal {
    if slot in j.cached then j else j.(cached := j.cached[slot := value])
  }

  /** Original and present value of a slot the journal holds. */
  function Held(j: Journal, slot: SlotKey): (Word, Word)
    requires slot in j.cached
  {
    (j.cached[slot], if slot in j.present then j.present[slot] else j.cached[slot])
  }

  /** An opcode that loads a slot. */
  function Loaded(st: Storage, j: Journal, slot: SlotKey): Journal {
    Cached(j, slot, st.db(slot))
  }

  /** The slot an inspection looks at: before Rex4 that of the account the delegation ends at. */
  function InspectedKey(spec: MegaSpecId, st: Storage, slot: SlotKey): SlotKey {
    if spec.IsEnabled(Rex4) then slot else SlotKey(st.owner(slot.address), slot.key)
  }

  /** An inspection caches a slot it misses with the value the database has for the slot it was asked for. */
  function Inspected(spec: MegaSpecId, st: Storage, j: Journal, slot: SlotKey): Journal {
    Cached(j, InspectedKey(spec, st, slot), st.db(slot))
  }

  /** The three values the limits are told of a write, read before the opcode runs. */
  function ReadOfWrite(spec: MegaSpecId, st: Storage, j: Journal, slot: SlotKey, value: Word): SStoreResult {
    var (original, present) := Held(Inspected(spec, st, j, slot), InspectedKey(spec, st, slot));
    SStoreResult(original, present, value)
  }

  function BeforeWrite(spec: MegaSpecId, st: Storage, j: Journal, slot: SlotKey): Journal {
    Loaded(st, Inspected(spec, st, j, slot), slot)
  }

  /** The three values there are. */
  function ThereAtWrite(spec: MegaSpecId, st: Storage, j: Journal, slot: SlotKey, value: Word): SStoreResult {
    var (original, present) := Held(BeforeWrite(spec, st, j, slot), slot);
    SStoreResult(original, present, value)
  }

  function Written(spec: MegaSpecId, st: Storage, j: Journal, slot: SlotKey, value: Word): Journal {
    var before := BeforeWrite(spec, st, j, slot);
    before.(present := before.present[slot := value])
  }

  /** Slots whose present value differs from the original; with `zeroOnly`, only those that were zero. */
  function Dirty(cached: map<SlotKey, Word>, present: map<SlotKey, Word>, zeroOnly: bool): set<SlotKey> {
    set slot | slot in present && slot in cached && present[slot] != cached[slot] && (zeroOnly ==> cached[slot] == 0)
  }

  function DirtySlots(j: Journal, zeroOnly: bool): nat {
    |Dirty(j.cached, j.present, zeroOnly)|
  }

  /** The SSTORE rule of EIP-2200 as the trackers apply it. */
  function SlotDelta(r: SStoreResult): int {
    if r.original == r.present then if r.original != r.new_ then 1 else 0
    else if r.original == r.new_ then -1
    else 0
  }

  /** State growth applies the rule to slots that were zero. */
  function Delta(r: SStoreResult, zeroOnly: bool): int {
    if zeroOnly ==> r.original == 0 then SlotDelta(r) else 0
  }

  lemma DirtyOfUpdate(cached: map<SlotKey, Word>, present: map<SlotKey, Word>, slot: SlotKey, value: Word, zeroOnly: bool)
    requires slot in cached
    ensures Dirty(cached, present[slot := value], zeroOnly)
         == if value != cached[slot] && (zeroOnly ==> cached[slot] == 0) then Dirty(cached, present, zeroOnly) + {slot}
            else Dirty(cached, present, zeroOnly) - {slot}
    ensures slot in Dirty(cached, present, zeroOnly) <==>
              slot in present && present[slot] != cached[slot] && (zeroOnly ==> cached[slot] == 0)
  {
  }

  /** The rule, applied to the values there are, follows the number of dirty slots. */
  lemma DirtyAfterWrite(j: Journal, slot: SlotKey, value: Word, zeroOnly: bool)
    requires slot in j.cached
    ensures |Dirty(j.cached, j.present[slot := value], zeroOnly)|
         == |Dirty(j.cached, j.present, zeroOnly)| + Delta(SStoreResult(Held(j, slot).0, Held(j, slot).1, value), zeroOnly)
  {
    hide Dirty;
    DirtyOfUpdate(j.cached, j.present, slot, value, zeroOnly);
    var before := Dirty(j.cached, j.present, zeroOnly);
    if slot in before {
      assert |before - {slot}| == |before| - 1;
      assert before + {slot} == before;
    } else {
      assert before - {slot} == before;
    }
  }

  /** Caching a slot nobody wrote makes none dirty. */
  lemma DirtyAfterCaching(cached: map<SlotKey, Word>, present: map<SlotKey, Word>, slot: SlotKey, value: Word, zeroOnly: bool)
    requires slot !in cached && present.Keys <= cached.Keys
    ensures Dirty(cached[slot := value], present, zeroOnly) == Dirty(cached, present, zeroOnly)
  {
  }

  // ---------------------------------------------------------------------------------------------
  // Runs of trackers and journal
  // ---------------------------------------------------------------------------------------------

  datatype World = World(data: Tracker<CallFrameInfo>, kv: Tracker<CallFrameInfo>, growth: Tracker<()>, journal: Journal)

  /**
    `Load` is an opcode that only reads a slot, `Inspect` an SSTORE that fails after its values were
    read. A write that is not `counted` trips a transaction-level limit before the trackers hear of
    it. A frame ends for the trackers with `tracked` and for the journal with `committed`.
   */
  datatype Event =
    | Open(input: FrameInput)
    | OpenEmpty
    | Created(address: Address)
    | Load(slot: SlotKey)
    | Inspect(slot: SlotKey)
    | Write(slot: SlotKey, value: Word, counted: bool)
    | Emit(topics: nat, size: nat)
    | Output(length: nat)
    | Close(tracked: bool, committed: bool)

  function WithCheckpoint(j: Journal): Journal {
    j.(checkpoints := j.checkpoints + [j.present])
  }

  function Closed(j: Journal, committed: bool): Journal {
    var n := |j.checkpoints|;
    if n == 0 then j
    else j.(present := if committed then j.present else j.checkpoints[n - 1], checkpoints := j.checkpoints[..n - 1])
  }

  function JournalStep(spec: MegaSpecId, st: Storage, j: Journal, e: Event): Journal {
    match e
    case Open(_) => WithCheckpoint(j)
    case OpenEmpty => WithCheckpoint(j)
    case Load(slot) => Loaded(st, j, slot)
    case Inspect(slot) => Inspected(spec, st, j, slot)
    case Write(slot, value, _) => Written(spec, st, j, slot, value)
    case Close(_, committed) => Closed(j, committed)
    case _ => j
  }

  /** One event; the shadow (`recording` false) leaves storage writes out of the trackers. */
  function Step(spec: MegaSpecId, st: Storage, w: World, e: Event, recording: bool): World {
    var journal := JournalStep(spec, st, w.journal, e);
    match e
    case Open(input) =>
      World(AccountUpdatesOnFrameInit(spec, w.data, input, ACCOUNT_INFO_WRITE_SIZE),
            AccountUpdatesOnFrameInit(spec, w.kv, input, KV_UPDATE),
            GrowthOnFrameInit(spec, w.growth, input), journal)
    case OpenEmpty =>
      World(PushFor(spec, w.data, EMPTY_FRAME), PushFor(spec, w.kv, EMPTY_FRAME), PushFor(spec, w.growth, ()), journal)
    case Created(address) =>
      w.(data := CreatedAccount(w.data, address, ACCOUNT_INFO_WRITE_SIZE), kv := CreatedAccount(w.kv, address, KV_UPDATE))
    case Write(slot, value, counted) =>
      var r := ReadOfWrite(spec, st, w.journal, slot, value);
      if recording && counted then
        World(SlotUpdate(w.data, r, STORAGE_SLOT_WRITE_SIZE), SlotUpdate(w.kv, r, KV_UPDATE), GrowthOnSstore(w.growth, r),
              journal)
      else w.(journal := journal)
    case Emit(topics, size) => w.(data := LogEmitted(w.data, topics, size))
    case Output(length) => w.(data := AddDiscardable(w.data, length))
    case Close(tracked, _) => World(Pop(w.data, tracked), Pop(w.kv, tracked), Pop(w.growth, tracked), journal)
    case _ => w.(journal := journal)
  }

  function After(spec: MegaSpecId, st: Storage, w: World, events: seq<Event>, recording: bool): World {
    if events == [] then w
    else Step(spec, st, After(spec, st, w, events[..|events| - 1], recording), events[|events| - 1], recording)
  }

  /** SSTORE runs inside a frame, and a frame that closes was opened. */
  predicate Possible(spec: MegaSpecId, st: Storage, w: World, events: seq<Event>) {
    events == [] ||
    (&& Possible(spec, st, w, events[..|events| - 1])
     && (events[|events| - 1].Write? || events[|events| - 1].Close? ==>
           After(spec, st, w, events[..|events| - 1], true).journal.checkpoints != []))
  }

  // ---------------------------------------------------------------------------------------------
  // Sums over the writes of a run
  // ---------------------------------------------------------------------------------------------

  /** What a write adds: of what was read, if it is counted, or of what was there. */
  function WriteDelta(spec: MegaSpecId, st: Storage, j: Journal, e: Event, read: bool, zeroOnly: bool): int
    requires e.Write?
  {
    if !read then Delta(ThereAtWrite(spec, st, j, e.slot, e.value), zeroOnly)
    else if e.counted then Delta(ReadOfWrite(spec, st, j, e.slot, e.value), zeroOnly)
    else 0
  }

  function SumsStep(spec: MegaSpecId, st: Storage, j: Journal, sums: seq<int>, e: Event, read: bool, zeroOnly: bool)
    : (next: seq<int>)
    requires sums != []
    ensures next != []
  {
    var n := |sums| - 1;
    match e
    case Open(_) => sums + [sums[n]]
    case OpenEmpty => sums + [sums[n]]
    case Write(_, _, _) => sums[n := sums[n] + WriteDelta(spec, st, j, e, read, zeroOnly)]
    case Close(tracked, committed) =>
      if n == 0 then sums else sums[..n - 1] + [sums[if (if read then tracked else committed) then n else n - 1]]
    case _ => sums
  }

  /**
    For each frame and now, the sum of the rule over the writes that have not been rolled back: with
    `read`, of the values read, rolled back as the trackers do; else of the values there, rolled back
    as the journal does.
   */
  function Sums(spec: MegaSpecId, st: Storage, w: World, events: seq<Event>, read: bool, zeroOnly: bool): (sums: seq<int>)
    ensures sums != []
  {
    if events == [] then [0]
    else SumsStep(spec, st, After(spec, st, w, events[..|events| - 1], true).journal,
                  Sums(spec, st, w, events[..|events| - 1], read, zeroOnly), events[|events| - 1], read, zeroOnly)
  }

  function Sum(spec: MegaSpecId, st: Storage, w: World, events: seq<Event>, read: bool, zeroOnly: bool): int {
    var sums := Sums(spec, st, w, events, read, zeroOnly);
    sums[|sums| - 1]
  }

  // ---------------------------------------------------------------------------------------------
  // The hooks keep a tracker accounted
  // ---------------------------------------------------------------------------------------------

  lemma DiscardAccounted<I>(t: Tracker<I>, shadow: Tracker<I>, marks: seq<int>, n: nat)
    requires Accounted(t, shadow, marks)
    ensures Accounted(AddDiscardable(t, n), AddDiscardable(shadow, n), marks)
  {
    hide Total;
    TotalOfRecords(t, n);
    TotalOfRecords(shadow, n);
    AccountedRecord(t, shadow, marks, AddDiscardable(t, n), AddDiscardable(shadow, n), 0);
    assert marks[|marks| - 1 := marks[|marks| - 1] + 0] == marks;
  }

  lemma InfoAccounted<I>(t: Tracker<I>, shadow: Tracker<I>, marks: seq<int>, info: I)
    requires Accounted(t, shadow, marks)
    ensures Accounted(SetInfo(t, info), SetInfo(shadow, info), marks)
  {
    hide Total;
    TotalOfInfo(t, info);
    TotalOfInfo(shadow, info);
    AccountedRecord(t, shadow, marks, SetInfo(t, info), SetInfo(shadow, info), 0);
    assert marks[|marks| - 1 := marks[|marks| - 1] + 0] == marks;
  }

  lemma PushAccounted<I>(spec: MegaSpecId, t: Tracker<I>, shadow: Tracker<I>, marks: seq<int>, info: I)
    requires Accounted(t, shadow, marks)
    ensures Accounted(PushFor(spec, t, info), PushFor(spec, shadow, info), marks + [marks[|marks| - 1]])
  {
    hide Accounted, Total;
    if spec.IsEnabled(Rex4) {
      AccountedPush(t, shadow, marks, MaxForwardLimit(t), MaxForwardLimit(shadow), info);
    } else {
      AccountedPush(t, shadow, marks, U64_MAX, U64_MAX, info);
    }
  }

  lemma FrameInitAccounted(spec: MegaSpecId, t: Tracker<CallFrameInfo>, shadow: Tracker<CallFrameInfo>, marks: seq<int>,
                           input: FrameInput, unit: nat)
    requires Accounted(t, shadow, marks)
    ensures Accounted(AccountUpdatesOnFrameInit(spec, t, input, unit), AccountUpdatesOnFrameInit(spec, shadow, input, unit),
                      marks + [marks[|marks| - 1]])
  {
    assert ParentNeedsUpdate(t) == ParentNeedsUpdate(shadow);
    hide Accounted, ParentNeedsUpdate, PushFor, AddDiscardable;
    var info := if input.Call? then CallFrameInfo(Some(input.target), input.transfersValue) else CallFrameInfo(None, true);
    var pushed, pushedShadow := PushFor(spec, t, info), PushFor(spec, shadow, info);
    var pushedMarks := marks + [marks[|marks| - 1]];
    PushAccounted(spec, t, shadow, marks, info);
    DiscardAccounted(pushed, pushedShadow, pushedMarks, unit);
    DiscardAccounted(AddDiscardable(pushed, unit), AddDiscardable(pushedShadow, unit), pushedMarks, unit);
  }

  lemma CreatedAccounted(t: Tracker<CallFrameInfo>, shadow: Tracker<CallFrameInfo>, marks: seq<int>, address: Address, unit: nat)
    requires Accounted(t, shadow, marks)
    ensures Accounted(CreatedAccount(t, address, unit), CreatedAccount(shadow, address, unit), marks)
  {
    if t.stack != [] {
      assert Top(t).info == Top(shadow).info;
      var info := Top(t).info.(targetAddress := Some(address));
      InfoAccounted(t, shadow, marks, info);
      DiscardAccounted(SetInfo(t, info), SetInfo(shadow, info), marks, unit);
    }
  }

  /** A storage write moves the top mark of the recording tracker only. */
  lemma WriteAccounted<I>(t: Tracker<I>, shadow: Tracker<I>, marks: seq<int>, r: SStoreResult, unit: nat)
    requires Accounted(t, shadow, marks) && t.stack != []
    ensures Accounted(SlotUpdate(t, r, unit), shadow, marks[|marks| - 1 := marks[|marks| - 1] + unit * SlotDelta(r)])
  {
    hide Total;
    TotalOfRecords(t, unit);
    AccountedRecord(t, shadow, marks, SlotUpdate(t, r, unit), shadow, unit * SlotDelta(r));
  }

  /** State growth applies the rule to slots that were zero at transaction start, one unit each. */
  lemma GrowthIsSlotUpdate(t: Tracker<()>, r: SStoreResult)
    ensures GrowthOnSstore(t, r) == if r.original == 0 then SlotUpdate(t, r, 1) else t
  {
  }

  // ---------------------------------------------------------------------------------------------
  // The trackers follow what was read
  // ---------------------------------------------------------------------------------------------

  function Scaled(marks: seq<int>, unit: nat): seq<int> {
    seq(|marks|, i requires 0 <= i < |marks| => unit * marks[i])
  }

  lemma ScaledParts(marks: seq<int>, unit: nat, x: int)
    requires marks != []
    ensures var n, scaled := |marks| - 1, Scaled(marks, unit);
            && |scaled| == |marks| && scaled[n] == unit * marks[n]
            && Scaled(marks + [marks[n]], unit) == scaled + [scaled[n]]
            && Scaled(marks[n := marks[n] + x], unit) == scaled[n := scaled[n] + unit * x]
            && (n > 0 ==> Scaled(marks[..n - 1] + [marks[n]], unit) == scaled[..n - 1] + [scaled[n]])
            && (n > 0 ==> Scaled(marks[..n - 1] + [marks[n - 1]], unit) == scaled[..n - 1] + [scaled[n - 1]])
  {
    Distribute(unit, marks[|marks| - 1], x);
  }

  lemma Distribute(unit: nat, a: int, x: int)
    ensures unit * (a + x) == unit * a + unit * x
  {
  }

  /** Trackers and shadow see the same journal and differ by these sums, all slots for two of them and zero ones for growth. */
  ghost predicate Follows(w: World, shadow: World, all: seq<int>, zeros: seq<int>) {
    && w.journal == shadow.journal && |all| == |zeros| == |w.journal.checkpoints| + 1
    && Accounted(w.data, shadow.data, Scaled(all, STORAGE_SLOT_WRITE_SIZE))
    && Accounted(w.kv, shadow.kv, Scaled(all, KV_UPDATE))
    && Accounted(w.growth, shadow.growth, Scaled(zeros, 1))
  }

  lemma HeightsOf(w: World, shadow: World, all: seq<int>, zeros: seq<int>)
    requires Follows(w, shadow, all, zeros)
    ensures |w.data.stack| == |w.kv.stack| == |w.growth.stack| == |w.journal.checkpoints|
    ensures |shadow.data.stack| == |shadow.kv.stack| == |shadow.growth.stack| == |w.journal.checkpoints|
  {
  }

  lemma WriteFollows(spec: MegaSpecId, st: Storage, w: World, shadow: World, all: seq<int>, zeros: seq<int>, e: Event)
    requires Follows(w, shadow, all, zeros) && e.Write? && w.journal.checkpoints != []
    ensures Follows(Step(spec, st, w, e, true), Step(spec, st, shadow, e, false),
                    SumsStep(spec, st, w.journal, all, e, true, false), SumsStep(spec, st, w.journal, zeros, e, true, true))
  {
    hide Accounted, SlotUpdate, SlotDelta, GrowthOnSstore, ReadOfWrite, Written, Scaled;
    var r := ReadOfWrite(spec, st, w.journal, e.slot, e.value);
    HeightsOf(w, shadow, all, zeros);
    WrittenKeepsCheckpoints(spec, st, w.journal, e.slot, e.value);
    var n := |all| - 1;
    ScaledParts(all, STORAGE_SLOT_WRITE_SIZE, SlotDelta(r));
    ScaledParts(all, KV_UPDATE, SlotDelta(r));
    ScaledParts(zeros, 1, Delta(r, true));
    assert all[n := all[n] + 0] == all && zeros[n := zeros[n] + 0] == zeros;
    if e.counted {
      WriteAccounted(w.data, shadow.data, Scaled(all, STORAGE_SLOT_WRITE_SIZE), r, STORAGE_SLOT_WRITE_SIZE);
      WriteAccounted(w.kv, shadow.kv, Scaled(all, KV_UPDATE), r, KV_UPDATE);
      GrowthIsSlotUpdate(w.growth, r);
      if r.original == 0 {
        WriteAccounted(w.growth, shadow.growth, Scaled(zeros, 1), r, 1);
      }
    }
  }

  lemma WrittenKeepsCheckpoints(spec: MegaSpecId, st: Storage, j: Journal, slot: SlotKey, value: Word)
    ensures Written(spec, st, j, slot, value).checkpoints == j.checkpoints
  {
  }

  lemma OpenFollows(spec: MegaSpecId, st: Storage, w: World, shadow: World, all: seq<int>, zeros: seq<int>, e: Event)
    requires Follows(w, shadow, all, zeros) && (e.Open? || e.OpenEmpty?)
    ensures Follows(Step(spec, st, w, e, true), Step(spec, st, shadow, e, false),
                    SumsStep(spec, st, w.journal, all, e, true, false), SumsStep(spec, st, w.journal, zeros, e, true, true))
  {
    hide Accounted, AccountUpdatesOnFrameInit, PushFor, AddDiscardable, Scaled;
    ScaledParts(all, STORAGE_SLOT_WRITE_SIZE, 0);
    ScaledParts(all, KV_UPDATE, 0);
    ScaledParts(zeros, 1, 0);
    var dataMarks, kvMarks, growthMarks := Scaled(all, STORAGE_SLOT_WRITE_SIZE), Scaled(all, KV_UPDATE), Scaled(zeros, 1);
    PushAccounted(spec, w.growth, shadow.growth, growthMarks, ());
    if e.Open? {
      FrameInitAccounted(spec, w.data, shadow.data, dataMarks, e.input, ACCOUNT_INFO_WRITE_SIZE);
      FrameInitAccounted(spec, w.kv, shadow.kv, kvMarks, e.input, KV_UPDATE);
      DiscardAccounted(PushFor(spec, w.growth, ()), PushFor(spec, shadow.growth, ()),
                       growthMarks + [growthMarks[|growthMarks| - 1]], 1);
    } else {
      PushAccounted(spec, w.data, shadow.data, dataMarks, EMPTY_FRAME);
      PushAccounted(spec, w.kv, shadow.kv, kvMarks, EMPTY_FRAME);
    }
  }

  lemma CloseFollows(spec: MegaSpecId, st: Storage, w: World, shadow: World, all: seq<int>, zeros: seq<int>, e: Event)
    requires Follows(w, shadow, all, zeros) && e.Close? && w.journal.checkpoints != []
    ensures Follows(Step(spec, st, w, e, true), Step(spec, st, shadow, e, false),
                    SumsStep(spec, st, w.journal, all, e, true, false), SumsStep(spec, st, w.journal, zeros, e, true, true))
  {
    hide Accounted, Pop, Scaled;
    HeightsOf(w, shadow, all, zeros);
    ScaledParts(all, STORAGE_SLOT_WRITE_SIZE, 0);
    ScaledParts(all, KV_UPDATE, 0);
    ScaledParts(zeros, 1, 0);
    ScaledAt(all, STORAGE_SLOT_WRITE_SIZE);
    ScaledAt(all, KV_UPDATE);
    ScaledAt(zeros, 1);
    AccountedPop(w.data, shadow.data, Scaled(all, STORAGE_SLOT_WRITE_SIZE), e.tracked);
    AccountedPop(w.kv, shadow.kv, Scaled(all, KV_UPDATE), e.tracked);
    AccountedPop(w.growth, shadow.growth, Scaled(zeros, 1), e.tracked);
  }

  lemma ScaledAt(marks: seq<int>, unit: nat)
    ensures |Scaled(marks, unit)| == |marks|
    ensures forall i :: 0 <= i < |marks| ==> Scaled(marks, unit)[i] == unit * marks[i]
  {
  }

  lemma StepFollows(spec: MegaSpecId, st: Storage, w: World, shadow: World, all: seq<int>, zeros: seq<int>, e: Event)
    requires Follows(w, shadow, all, zeros)
    requires e.Write? || e.Close? ==> w.journal.checkpoints != []
    ensures Follows(Step(spec, st, w, e, true), Step(spec, st, shadow, e, false),
                    SumsStep(spec, st, w.journal, all, e, true, false), SumsStep(spec, st, w.journal, zeros, e, true, true))
  {
    hide Accounted, CreatedAccount, AddDiscardable, Pop, Scaled;
    var dataMarks, kvMarks := Scaled(all, STORAGE_SLOT_WRITE_SIZE), Scaled(all, KV_UPDATE);
    match e
    case Open(_) => OpenFollows(spec, st, w, shadow, all, zeros, e);
    case OpenEmpty => OpenFollows(spec, st, w, shadow, all, zeros, e);
    case Created(address) =>
      CreatedAccounted(w.data, shadow.data, dataMarks, address, ACCOUNT_INFO_WRITE_SIZE);
      CreatedAccounted(w.kv, shadow.kv, kvMarks, address, KV_UPDATE);
    case Load(_) =>
    case Inspect(_) =>
    case Write(_, _, _) => WriteFollows(spec, st, w, shadow, all, zeros, e);
    case Emit(topics, size) => DiscardAccounted(w.data, shadow.data, dataMarks, topics * LOG_TOPIC_SIZE + size);
    case Output(length) => DiscardAccounted(w.data, shadow.data, dataMarks, length);
    case Close(_, _) => CloseFollows(spec, st, w, shadow, all, zeros, e);
  }

  /** The trackers of a transaction whose intrinsic usage is recorded and whose first frame is still to come. */
  predicate Initial(w: World) {
    && w.journal == Journal(map[], map[], [])
    && w.data.stack == [] && w.kv.stack == [] && w.growth.stack == []
    && w.data.tx.refund == 0 && w.kv.tx.refund == 0 && w.growth.tx.refund == 0
  }

  lemma InitialAccounted<I>(t: Tracker<I>)
    requires t.stack == [] && t.tx.refund == 0
    ensures Accounted(t, t, [0])
  {
    BelowAll(t);
  }

  lemma {:induction false} TrackersFollowReads(spec: MegaSpecId, st: Storage, w: World, events: seq<Event>)
    requires Initial(w) && Possible(spec, st, w, events)
    ensures Follows(After(spec, st, w, events, true), After(spec, st, w, events, false),
                    Sums(spec, st, w, events, true, false), Sums(spec, st, w, events, true, true))
  {
    if events == [] {
      InitialAccounted(w.data);
      InitialAccounted(w.kv);
      InitialAccounted(w.growth);
      assert Scaled([0], STORAGE_SLOT_WRITE_SIZE) == [0] == Scaled([0], KV_UPDATE) == Scaled([0], 1);
    } else {
      hide Follows, Step, SumsStep;
      var before, last := events[..|events| - 1], events[|events| - 1];
      TrackersFollowReads(spec, st, w, before);
      StepFollows(spec, st, After(spec, st, w, before, true), After(spec, st, w, before, false),
                  Sums(spec, st, w, before, true, false), Sums(spec, st, w, before, true, true), last);
    }
  }

  // ---------------------------------------------------------------------------------------------
  // The dirty slots follow what was there
  // ---------------------------------------------------------------------------------------------

  function Values(j: Journal, i: nat): map<SlotKey, Word>
    requires i <= |j.checkpoints|
  {
    if i < |j.checkpoints| then j.checkpoints[i] else j.present
  }

  /** The dirty slots of each checkpoint, and now. */
  function Marks(j: Journal, zeroOnly: bool): (marks: seq<int>)
    ensures |marks| == |j.checkpoints| + 1
    ensures forall i :: 0 <= i <= |j.checkpoints| ==> marks[i] == |Dirty(j.cached, Values(j, i), zeroOnly)|
  {
    seq(|j.checkpoints| + 1, i requires 0 <= i <= |j.checkpoints| => |Dirty(j.cached, Values(j, i), zeroOnly)|)
  }

  /** Every slot written is held with its original value. */
  ghost predicate WellCached(j: Journal) {
    forall i :: 0 <= i <= |j.checkpoints| ==> Values(j, i).Keys <= j.cached.Keys
  }

  lemma MarksOfCaching(j: Journal, slot: SlotKey, value: Word, zeroOnly: bool)
    requires WellCached(j)
    ensures WellCached(Cached(j, slot, value)) && Marks(Cached(j, slot, value), zeroOnly) == Marks(j, zeroOnly)
  {
    hide Dirty;
    if slot !in j.cached {
      var next := Cached(j, slot, value);
      forall i | 0 <= i <= |j.checkpoints|
        ensures Values(next, i) == Values(j, i) && Values(next, i).Keys <= next.cached.Keys
        ensures Dirty(next.cached, Values(j, i), zeroOnly) == Dirty(j.cached, Values(j, i), zeroOnly)
      {
        DirtyAfterCaching(j.cached, Values(j, i), slot, value, zeroOnly);
      }
    }
  }

  lemma MarksOfOpen(j: Journal, zeroOnly: bool)
    requires WellCached(j)
    ensures WellCached(WithCheckpoint(j))
    ensures var marks := Marks(j, zeroOnly); Marks(WithCheckpoint(j), zeroOnly) == marks + [marks[|marks| - 1]]
  {
    hide Dirty;
    var n := |j.checkpoints|;
    forall i | 0 <= i <= n + 1 ensures Values(WithCheckpoint(j), i) == Values(j, if i <= n then i else n) {
    }
  }

  lemma MarksOfClose(j: Journal, zeroOnly: bool, committed: bool)
    requires WellCached(j) && j.checkpoints != []
    ensures WellCached(Closed(j, committed))
    ensures var marks, n := Marks(j, zeroOnly), |j.checkpoints|;
            Marks(Closed(j, committed), zeroOnly) == marks[..n - 1] + [marks[if committed then n else n - 1]]
  {
    hide Dirty;
    var n, next := |j.checkpoints|, Closed(j, committed);
    var marks := Marks(j, zeroOnly);
    assert |next.checkpoints| == n - 1 && next.cached == j.cached;
    forall i | 0 <= i <= n - 1
      ensures Values(next, i) == Values(j, if i < n - 1 then i else if committed then n else n - 1)
    {
    }
    assert Marks(next, zeroOnly) == marks[..n - 1] + [marks[if committed then n else n - 1]] by {
      forall i | 0 <= i <= n - 1
        ensures Marks(next, zeroOnly)[i] == (marks[..n - 1] + [marks[if committed then n else n - 1]])[i]
      {
        assert Marks(next, zeroOnly)[i] == |Dirty(j.cached, Values(next, i), zeroOnly)|;
      }
    }
  }

  lemma MarksOfUpdate(j: Journal, slot: SlotKey, value: Word, zeroOnly: bool)
    requires WellCached(j) && slot in j.cached
    ensures var next := j.(present := j.present[slot := value]);
            var marks, n := Marks(j, zeroOnly), |j.checkpoints|;
            && WellCached(next)
            && Marks(next, zeroOnly)
               == marks[n := marks[n] + Delta(SStoreResult(Held(j, slot).0, Held(j, slot).1, value), zeroOnly)]
  {
    hide Dirty, Delta, Held;
    var next := j.(present := j.present[slot := value]);
    forall i | 0 <= i < |j.checkpoints| ensures Values(next, i) == Values(j, i) {
    }
    var marks, n := Marks(j, zeroOnly), |j.checkpoints|;
    assert Values(next, n) == next.present && Values(j, n) == j.present;
    DirtyAfterWrite(j, slot, value, zeroOnly);
    var moved := marks[n := marks[n] + Delta(SStoreResult(Held(j, slot).0, Held(j, slot).1, value), zeroOnly)];
    forall i | 0 <= i <= n ensures Marks(next, zeroOnly)[i] == moved[i] {
      assert Marks(next, zeroOnly)[i] == |Dirty(j.cached, Values(next, i), zeroOnly)|;
    }
    assert Marks(next, zeroOnly) == moved;
  }

  lemma WriteMarks(spec: MegaSpecId, st: Storage, j: Journal, e: Event, zeroOnly: bool)
    requires WellCached(j) && e.Write?
    ensures WellCached(JournalStep(spec, st, j, e))
    ensures Marks(JournalStep(spec, st, j, e), zeroOnly) == SumsStep(spec, st, j, Marks(j, zeroOnly), e, false, zeroOnly)
  {
    hide WellCached, Marks, Delta, Held, Cached;
    var inspected := Inspected(spec, st, j, e.slot);
    MarksOfCaching(j, InspectedKey(spec, st, e.slot), st.db(e.slot), zeroOnly);
    MarksOfCaching(inspected, e.slot, st.db(e.slot), zeroOnly);
    CachingHolds(inspected, e.slot, st.db(e.slot));
    CachingHolds(j, InspectedKey(spec, st, e.slot), st.db(e.slot));
    MarksOfUpdate(BeforeWrite(spec, st, j, e.slot), e.slot, e.value, zeroOnly);
  }

  lemma StepMarks(spec: MegaSpecId, st: Storage, j: Journal, e: Event, zeroOnly: bool)
    requires WellCached(j) && (e.Close? ==> j.checkpoints != [])
    ensures WellCached(JournalStep(spec, st, j, e))
    ensures Marks(JournalStep(spec, st, j, e), zeroOnly) == SumsStep(spec, st, j, Marks(j, zeroOnly), e, false, zeroOnly)
  {
    hide WellCached, Marks, Delta, Held, Cached, Closed;
    match e
    case Open(_) => MarksOfOpen(j, zeroOnly);
    case OpenEmpty => MarksOfOpen(j, zeroOnly);
    case Load(slot) => MarksOfCaching(j, slot, st.db(slot), zeroOnly);
    case Inspect(slot) => MarksOfCaching(j, InspectedKey(spec, st, slot), st.db(slot), zeroOnly);
    case Write(_, _, _) => WriteMarks(spec, st, j, e, zeroOnly);
    case Close(_, committed) => MarksOfClose(j, zeroOnly, committed);
    case _ =>
  }

  lemma CachingHolds(j: Journal, slot: SlotKey, value: Word)
    ensures slot in Cached(j, slot, value).cached && Cached(j, slot, value).checkpoints == j.checkpoints
  {
  }

  lemma {:induction false} DirtyFollowsWrites(spec: MegaSpecId, st: Storage, w: World, events: seq<Event>, zeroOnly: bool)
    requires Initial(w) && Possible(spec, st, w, events)
    ensures var j := After(spec, st, w, events, true).journal;
            && WellCached(j)
            && Marks(j, zeroOnly) == Sums(spec, st, w, events, false, zeroOnly)
            && DirtySlots(j, zeroOnly) == Sum(spec, st, w, events, false, zeroOnly)
  {
    var j := After(spec, st, w, events, true).journal;
    if events == [] {
      assert Dirty(map[], map[], zeroOnly) == {};
      assert Marks(w.journal, zeroOnly) == [0];
    } else {
      hide WellCached, Marks, JournalStep, SumsStep, Dirty;
      var before, last := events[..|events| - 1], events[|events| - 1];
      DirtyFollowsWrites(spec, st, w, before, zeroOnly);
      StepMarks(spec, st, After(spec, st, w, before, true).journal, last, zeroOnly);
      StepJournal(spec, st, After(spec, st, w, before, true), last);
      assert Values(j, |j.checkpoints|) == j.present;
    }
  }

  lemma StepJournal(spec: MegaSpecId, st: Storage, w: World, e: Event)
    ensures Step(spec, st, w, e, true).journal == JournalStep(spec, st, w.journal, e)
  {
    hide AccountUpdatesOnFrameInit, GrowthOnFrameInit, PushFor, Pop, SlotUpdate, GrowthOnSstore;
  }

  // ---------------------------------------------------------------------------------------------
  // The theorems
  // ---------------------------------------------------------------------------------------------

  /** What usage is when writes account for `delta` more than the shadow's usage, clamped at zero. */
  function UsageWith(usage: nat, delta: int): nat {
    if usage + delta < 0 then 0 else usage + delta
  }

  /**
    Over every run the reported usage is that of the same run without storage writes plus one KV
    update and 40 bytes, and one unit of growth, per the sum of the rule over the values that were
    read, clamped at zero; the number of dirty slots is the sum over the values that were there.
   */
  lemma UsageFollowsReads(spec: MegaSpecId, st: Storage, w: World, events: seq<Event>)
    requires Initial(w) && Possible(spec, st, w, events)
    ensures var end, shadow := After(spec, st, w, events, true), After(spec, st, w, events, false);
            var all, zeros := Sum(spec, st, w, events, true, false), Sum(spec, st, w, events, true, true);
            && NetUsage(end.kv) == UsageWith(NetUsage(shadow.kv), all)
            && NetUsage(end.data) == UsageWith(NetUsage(shadow.data), 40 * all)
            && NetUsage(end.growth) == UsageWith(NetUsage(shadow.growth), zeros)
            && DirtySlots(end.journal, false) == Sum(spec, st, w, events, false, false)
            && DirtySlots(end.journal, true) == Sum(spec, st, w, events, false, true)
  {
    hide Accounted, NetUsage, Dirty, Scaled;
    TrackersFollowReads(spec, st, w, events);
    DirtyFollowsWrites(spec, st, w, events, false);
    DirtyFollowsWrites(spec, st, w, events, true);
    var end, shadow := After(spec, st, w, events, true), After(spec, st, w, events, false);
    var all, zeros := Sums(spec, st, w, events, true, false), Sums(spec, st, w, events, true, true);
    ScaledParts(all, STORAGE_SLOT_WRITE_SIZE, 0);
    ScaledParts(all, KV_UPDATE, 0);
    ScaledParts(zeros, 1, 0);
    AccountedUsage(end.data, shadow.data, Scaled(all, STORAGE_SLOT_WRITE_SIZE));
    AccountedUsage(end.kv, shadow.kv, Scaled(all, KV_UPDATE));
    AccountedUsage(end.growth, shadow.growth, Scaled(zeros, 1));
  }

  /** The reported usage counts the dirty slots. */
  ghost predicate CountsDirtySlots(end: World, shadow: World) {
    && NetUsage(end.kv) == NetUsage(shadow.kv) + DirtySlots(end.journal, false)
    && NetUsage(end.data) == NetUsage(shadow.data) + 40 * DirtySlots(end.journal, false)
    && NetUsage(end.growth) == NetUsage(shadow.growth) + DirtySlots(end.journal, true)
  }

  /** Two sums agree, or more was refunded than charged where nothing is dirty and nothing else was used. */
  predicate SumsAgree(read: int, there: int, otherUsage: nat) {
    read == there || (read < 0 && there == 0 && otherUsage == 0)
  }

  /**
    When SSTORE accounting equals dirty slots, over every run, with frames that end differently for
    trackers and journal and writes whose values were read elsewhere: exactly when the rule sums to the
    same over what was read and what was there, for all slots and for those that were zero.
   */
  lemma UsageCountsDirtySlotsExactly(spec: MegaSpecId, st: Storage, w: World, events: seq<Event>)
    requires Initial(w) && Possible(spec, st, w, events)
    ensures var end, shadow := After(spec, st, w, events, true), After(spec, st, w, events, false);
            CountsDirtySlots(end, shadow) <==>
              && SumsAgree(Sum(spec, st, w, events, true, false), Sum(spec, st, w, events, false, false), NetUsage(shadow.kv))
              && SumsAgree(Sum(spec, st, w, events, true, false), Sum(spec, st, w, events, false, false), NetUsage(shadow.data))
              && SumsAgree(Sum(spec, st, w, events, true, true), Sum(spec, st, w, events, false, true), NetUsage(shadow.growth))
  {
    hide NetUsage, Sum, DirtySlots, After, Possible, Initial;
    UsageFollowsReads(spec, st, w, events);
  }

  /** Every frame ends the same way for the trackers and for the journal, and every write is counted. */
  predicate Agreeing(events: seq<Event>) {
    forall i :: 0 <= i < |events| ==>
      && (events[i].Close? ==> events[i].tracked == events[i].committed)
      && (events[i].Write? ==> events[i].counted)
  }

  /** From Rex4 on, and before for accounts that do not delegate, an inspection looks at the slot itself. */
  predicate InspectsItself(spec: MegaSpecId, st: Storage, events: seq<Event>) {
    forall i :: 0 <= i < |events| && events[i].Write? && !spec.IsEnabled(Rex4) ==>
      st.owner(events[i].slot.address) == events[i].slot.address
  }

  lemma ReadsWhatIsThere(spec: MegaSpecId, st: Storage, j: Journal, slot: SlotKey, value: Word)
    requires InspectedKey(spec, st, slot) == slot
    ensures ReadOfWrite(spec, st, j, slot, value) == ThereAtWrite(spec, st, j, slot, value)
  {
  }

  lemma {:induction false} SumsOfFaithfulRuns(spec: MegaSpecId, st: Storage, w: World, events: seq<Event>, zeroOnly: bool)
    requires Agreeing(events) && InspectsItself(spec, st, events)
    ensures Sums(spec, st, w, events, true, zeroOnly) == Sums(spec, st, w, events, false, zeroOnly)
  {
    hide After, SumsStep;
    if events != [] {
      var before, last := events[..|events| - 1], events[|events| - 1];
      SumsOfFaithfulRuns(spec, st, w, before, zeroOnly);
      FaithfulStep(spec, st, After(spec, st, w, before, true).journal, Sums(spec, st, w, before, true, zeroOnly), last, zeroOnly);
    }
  }

  lemma FaithfulStep(spec: MegaSpecId, st: Storage, j: Journal, sums: seq<int>, e: Event, zeroOnly: bool)
    requires sums != [] && Agreeing([e]) && InspectsItself(spec, st, [e])
    ensures SumsStep(spec, st, j, sums, e, true, zeroOnly) == SumsStep(spec, st, j, sums, e, false, zeroOnly)
  {
    hide ReadOfWrite, ThereAtWrite, Delta;
    assert [e][0] == e;
    if e.Write? {
      ReadsWhatIsThere(spec, st, j, e.slot, e.value);
    }
  }

  /**
    SSTORE accounting equals dirty slots. From Rex4 on, and before over writes of accounts that do not
    delegate, every run in which trackers and journal agree on how frames end reports the usage of the
    same run without storage writes plus one KV update and 40 bytes per slot whose present value
    differs from the original, and one unit of growth per such slot that was zero; the clamp at zero
    never bites.
   */
  lemma UsageCountsDirtySlots(spec: MegaSpecId, st: Storage, w: World, events: seq<Event>)
    requires Initial(w) && Possible(spec, st, w, events) && Agreeing(events) && InspectsItself(spec, st, events)
    ensures CountsDirtySlots(After(spec, st, w, events, true), After(spec, st, w, events, false))
  {
    hide NetUsage, After, Possible, Initial, DirtySlots;
    UsageCountsDirtySlotsExactly(spec, st, w, events);
    SumsOfFaithfulRuns(spec, st, w, events, false);
    SumsOfFaithfulRuns(spec, st, w, events, true);
  }

  // ---------------------------------------------------------------------------------------------
  // When trackers and journal disagree
  // ---------------------------------------------------------------------------------------------

  /** So far the trackers account for the dirty slots, at every checkpoint. */
  ghost predicate AllAccounted(w: World, shadow: World) {
    Follows(w, shadow, Marks(w.journal, false), Marks(w.journal, true))
  }

  /** Runs that agree on frames and read what is there keep it so. */
  lemma RunsKeepAccounts(spec: MegaSpecId, st: Storage, w: World, events: seq<Event>)
    requires Initial(w) && Possible(spec, st, w, events) && Agreeing(events) && InspectsItself(spec, st, events)
    ensures AllAccounted(After(spec, st, w, events, true), After(spec, st, w, events, false))
  {
    hide Follows, After, Possible, Initial, WellCached, Marks;
    TrackersFollowReads(spec, st, w, events);
    DirtyFollowsWrites(spec, st, w, events, false);
    DirtyFollowsWrites(spec, st, w, events, true);
    SumsOfFaithfulRuns(spec, st, w, events, false);
    SumsOfFaithfulRuns(spec, st, w, events, true);
  }

  /** Whether a tracker and its shadow differ by what the writes visible in the journal account for. */
  ghost predicate CountsDirty<I>(t: Tracker<I>, shadow: Tracker<I>, j: Journal, unit: nat, zeroOnly: bool) {
    NetDiscardable(t) - NetDiscardable(shadow) == unit * DirtySlots(j, zeroOnly)
  }

  lemma DisagreementOf<I>(t: Tracker<I>, shadow: Tracker<I>, j: Journal, unit: nat, zeroOnly: bool, tracked: bool, committed: bool)
    requires unit > 0 && t.stack != [] && |t.stack| == |j.checkpoints| && Accounted(t, shadow, Scaled(Marks(j, zeroOnly), unit))
    ensures CountsDirty(Pop(t, tracked), Pop(shadow, tracked), Closed(j, committed), unit, zeroOnly)
            <==> (tracked == committed
                  || DirtySlots(j, zeroOnly) == |Dirty(j.cached, j.checkpoints[|j.checkpoints| - 1], zeroOnly)|)
  {
    hide Accounted, Dirty, NetDiscardable, Pop, Marks, Scaled;
    var n := |j.checkpoints|;
    var marks := Marks(j, zeroOnly);
    PoppedTop(t, shadow, Scaled(marks, unit), tracked);
    ScaledAt(marks, unit);
    var now, atOpen := DirtySlots(j, zeroOnly), |Dirty(j.cached, j.checkpoints[n - 1], zeroOnly)|;
    assert marks[n] == now && marks[n - 1] == atOpen;
    SameUnits(unit, now, atOpen);
  }

  lemma SameUnits(unit: nat, x: nat, y: nat)
    requires unit > 0
    ensures unit * x == unit * y <==> x == y
  {
    if x < y {
      assert unit * y == unit * x + unit * (y - x);
    } else if y < x {
      assert unit * x == unit * y + unit * (x - y);
    }
  }

  /**
    A frame the trackers drop after the journal committed it (a create whose deposit trips a limit),
    or the reverse, keeps the counts right exactly when the frame left the number of dirty slots as
    it found it: of all dirty slots for KV updates and data size, of those that were zero for state growth.
   */
  lemma DisagreementIsExact(spec: MegaSpecId, st: Storage, w: World, shadow: World, tracked: bool, committed: bool)
    requires AllAccounted(w, shadow) && w.journal.checkpoints != []
    ensures var next := Step(spec, st, w, Close(tracked, committed), true);
            var nextShadow := Step(spec, st, shadow, Close(tracked, committed), false);
            var j, atOpen := w.journal, w.journal.checkpoints[|w.journal.checkpoints| - 1];
            var allKept := DirtySlots(j, false) == |Dirty(j.cached, atOpen, false)|;
            var zerosKept := DirtySlots(j, true) == |Dirty(j.cached, atOpen, true)|;
            && (CountsDirty(next.kv, nextShadow.kv, next.journal, KV_UPDATE, false) <==> (tracked == committed || allKept))
            && (CountsDirty(next.data, nextShadow.data, next.journal, STORAGE_SLOT_WRITE_SIZE, false)
                <==> (tracked == committed || allKept))
            && (CountsDirty(next.growth, nextShadow.growth, next.journal, 1, true) <==> (tracked == committed || zerosKept))
  {
    hide Accounted, DirtySlots, CountsDirty, Pop, Scaled, Marks;
    HeightsOf(w, shadow, Marks(w.journal, false), Marks(w.journal, true));
    DisagreementOf(w.kv, shadow.kv, w.journal, KV_UPDATE, false, tracked, committed);
    DisagreementOf(w.data, shadow.data, w.journal, STORAGE_SLOT_WRITE_SIZE, false, tracked, committed);
    DisagreementOf(w.growth, shadow.growth, w.journal, 1, true, tracked, committed);
  }

  function Fresh(): World {
    World(NewTracker(U64_MAX), NewTracker(U64_MAX), NewTracker(U64_MAX), Journal(map[], map[], []))
  }

  const EMPTY_STORAGE := Storage(_ => 0, a => a)

  /** A create that wrote a slot and then trips a limit on its deposit: the slot is dirty and nobody is charged for it. */
  lemma CommittedCreateGoesUncounted(spec: MegaSpecId, slot: SlotKey, created: Address)
    ensures var one := Step(spec, EMPTY_STORAGE, Fresh(), Open(Create), true);
            var two := Step(spec, EMPTY_STORAGE, one, Created(created), true);
            var three := Step(spec, EMPTY_STORAGE, two, Write(slot, 1, true), true);
            var end := Step(spec, EMPTY_STORAGE, three, Close(false, true), true);
            && Dirty(end.journal.cached, end.journal.present, false) == {slot}
            && NetUsage(end.kv) == NetUsage(end.data) == NetUsage(end.growth) == 0
  {
    hide NetUsage, AccountUpdatesOnFrameInit, CreatedAccount, SlotUpdate, GrowthOnFrameInit, GrowthOnSstore, Pop;
    FreshUsage();
    var r := SStoreResult(0, 0, 1);
    AccountsOfFailedCreate(spec, created, r, KV_UPDATE, KV_UPDATE);
    AccountsOfFailedCreate(spec, created, r, ACCOUNT_INFO_WRITE_SIZE, STORAGE_SLOT_WRITE_SIZE);
    GrowthOfFailedCreate(spec, r);
  }

  lemma AccountsOfFailedCreate(spec: MegaSpecId, created: Address, r: SStoreResult, unit: nat, slotUnit: nat)
    ensures var t: Tracker<CallFrameInfo> := NewTracker(U64_MAX);
            Pop(SlotUpdate(CreatedAccount(AccountUpdatesOnFrameInit(spec, t, Create, unit), created, unit), r, slotUnit), false) == t
  {
  }

  lemma GrowthOfFailedCreate(spec: MegaSpecId, r: SStoreResult)
    ensures var t: Tracker<()> := NewTracker(U64_MAX);
            Pop(GrowthOnSstore(GrowthOnFrameInit(spec, t, Create), r), false) == t
  {
  }

  lemma FreshUsage()
    ensures NetUsage(Fresh().kv) == NetUsage(Fresh().data) == NetUsage(Fresh().growth) == 0
  {
  }

  /** One frame may refund more than it used: a child that restores what its parent wrote. */
  lemma RefundMayExceedUse(slot: SlotKey, target: Address)
    ensures var call := Open(Call(target, false, false));
            var one := Step(Rex4, EMPTY_STORAGE, Fresh(), call, true);
            var two := Step(Rex4, EMPTY_STORAGE, one, Write(slot, 1, true), true);
            var end := Step(Rex4, EMPTY_STORAGE, Step(Rex4, EMPTY_STORAGE, two, call, true), Write(slot, 0, true), true);
            && end.kv.stack != [] && Top(end.kv).Net() == -1 && end.data.stack != [] && Top(end.data).Net() == -40
            && end.journal.present == map[slot := 0]
  {
    hide AccountUpdatesOnFrameInit, SlotUpdate, GrowthOnFrameInit, GrowthOnSstore;
    RefundOfChild(target, KV_UPDATE);
    RefundOfChild(target, STORAGE_SLOT_WRITE_SIZE);
  }

  lemma RefundOfChild(target: Address, unit: nat)
    ensures var t: Tracker<CallFrameInfo> := NewTracker(U64_MAX);
            var call := Call(target, false, false);
            var parent := SlotUpdate(AccountUpdatesOnFrameInit(Rex4, t, call, unit), SStoreResult(0, 0, 1), unit);
            var child := SlotUpdate(AccountUpdatesOnFrameInit(Rex4, parent, call, unit), SStoreResult(0, 1, 0), unit);
            child.stack != [] && Top(child).Net() + unit == 0
  {
    hide MaxForwardLimit;
  }

  // ---------------------------------------------------------------------------------------------
  // Delegated writes before Rex4
  // ---------------------------------------------------------------------------------------------

  /** What two writes in a row are told and what is there, from a journal that holds nothing. */
  lemma TwoWrites(spec: MegaSpecId, st: Storage, first: SlotKey, one: Word, second: SlotKey, two: Word)
    ensures var w := Fresh();
            var open, write, again := OpenEmpty, Write(first, one, true), Write(second, two, true);
            var events := [open, write, again];
            var j := WithCheckpoint(w.journal);
            var next := Written(spec, st, j, first, one);
            && Initial(w) && Possible(spec, st, w, events)
            && After(spec, st, w, events, true).journal == Written(spec, st, next, second, two)
            && (forall read, zeroOnly :: Sum(spec, st, w, events, read, zeroOnly)
                  == WriteDelta(spec, st, j, write, read, zeroOnly) + WriteDelta(spec, st, next, again, read, zeroOnly))
  {
    hide Step, SumsStep, WriteDelta, Written;
    var w := Fresh();
    var events := [OpenEmpty, Write(first, one, true), Write(second, two, true)];
    var j := WithCheckpoint(w.journal);
    TwoWritesRun(spec, st, first, one, second, two);
    assert events[..2][..1] == events[..1] && events[..1][..0] == [];
    forall read: bool, zeroOnly: bool
      ensures Sum(spec, st, w, events, read, zeroOnly)
           == WriteDelta(spec, st, j, events[1], read, zeroOnly)
              + WriteDelta(spec, st, Written(spec, st, j, first, one), events[2], read, zeroOnly)
    {
      assert Sums(spec, st, w, [], read, zeroOnly) == [0];
      WriteSums(spec, st, w.journal, [0], events[0], read, zeroOnly);
      assert Sums(spec, st, w, events[..1], read, zeroOnly) == [0, 0];
      WriteSums(spec, st, j, [0, 0], events[1], read, zeroOnly);
      assert Sums(spec, st, w, events[..2], read, zeroOnly) == SumsStep(spec, st, j, [0, 0], events[1], read, zeroOnly);
      WriteSums(spec, st, Written(spec, st, j, first, one), Sums(spec, st, w, events[..2], read, zeroOnly), events[2], read,
                zeroOnly);
    }
  }

  lemma WriteSums(spec: MegaSpecId, st: Storage, j: Journal, sums: seq<int>, e: Event, read: bool, zeroOnly: bool)
    requires sums != []
    ensures var next, n := SumsStep(spec, st, j, sums, e, read, zeroOnly), |sums| - 1;
            && (e.OpenEmpty? ==> next == sums + [sums[n]])
            && (e.Write? ==> |next| == |sums| && next[n] == sums[n] + WriteDelta(spec, st, j, e, read, zeroOnly))
  {
    hide WriteDelta;
  }

  lemma TwoWritesRun(spec: MegaSpecId, st: Storage, first: SlotKey, one: Word, second: SlotKey, two: Word)
    ensures var w := Fresh();
            var events := [OpenEmpty, Write(first, one, true), Write(second, two, true)];
            var j := WithCheckpoint(w.journal);
            var next := Written(spec, st, j, first, one);
            && Possible(spec, st, w, events)
            && After(spec, st, w, events[..1], true).journal == j
            && After(spec, st, w, events[..2], true).journal == next
            && After(spec, st, w, events, true).journal == Written(spec, st, next, second, two)
  {
    hide Step, Written;
    var w := Fresh();
    var events := [OpenEmpty, Write(first, one, true), Write(second, two, true)];
    var j := WithCheckpoint(w.journal);
    assert events[..2][..1] == events[..1] && events[..1][..0] == [];
    StepJournal(spec, st, w, events[0]);
    assert After(spec, st, w, events[..1], true) == Step(spec, st, w, events[0], true);
    StepJournal(spec, st, After(spec, st, w, events[..1], true), events[1]);
    assert After(spec, st, w, events[..2], true) == Step(spec, st, After(spec, st, w, events[..1], true), events[1], true);
    StepJournal(spec, st, After(spec, st, w, events[..2], true), events[2]);
    WrittenKeepsCheckpoints(spec, st, j, first, one);
    assert Possible(spec, st, w, events[..1]);
    assert Possible(spec, st, w, events[..2]);
  }

  /** Storage of a delegates to d, and d to nobody. */
  predicate Delegates(st: Storage, a: Accounts.Location, d: Accounts.Location) {
    a != d && st.owner(a) == d && st.owner(d) == d
  }

  /** Setting a slot and clearing it again leaves the charge: the second write is told what the first was. */
  lemma ClearedSlotStaysCharged(spec: MegaSpecId, st: Storage, a: Accounts.Location, d: Accounts.Location, key: Word)
    requires !spec.IsEnabled(Rex4) && Delegates(st, a, d) && st.db(SlotKey(a, key)) == 0
    ensures var events := [OpenEmpty, Write(SlotKey(a, key), 1, true), Write(SlotKey(a, key), 0, true)];
            && Possible(spec, st, Fresh(), events)
            && Sum(spec, st, Fresh(), events, true, false) == 1
            && DirtySlots(After(spec, st, Fresh(), events, true).journal, false) == 0
  {
    hide Dirty, Initial, Possible;
    var slot := SlotKey(a, key);
    TwoWrites(spec, st, slot, 1, slot, 0);
    DirtyFollowsWrites(spec, st, Fresh(), [OpenEmpty, Write(slot, 1, true), Write(slot, 0, true)], false);
  }

  /** Writing one slot twice is charged twice. */
  lemma RewrittenSlotIsChargedTwice(spec: MegaSpecId, st: Storage, a: Accounts.Location, d: Accounts.Location, key: Word)
    requires !spec.IsEnabled(Rex4) && Delegates(st, a, d) && st.db(SlotKey(a, key)) == 0
    ensures var events := [OpenEmpty, Write(SlotKey(a, key), 1, true), Write(SlotKey(a, key), 2, true)];
            && Possible(spec, st, Fresh(), events)
            && Sum(spec, st, Fresh(), events, true, false) == 2
            && DirtySlots(After(spec, st, Fresh(), events, true).journal, false) == 1
  {
    hide Dirty, Initial, Possible;
    var slot := SlotKey(a, key);
    TwoWrites(spec, st, slot, 1, slot, 2);
    DirtyFollowsWrites(spec, st, Fresh(), [OpenEmpty, Write(slot, 1, true), Write(slot, 2, true)], false);
  }

  /** After the delegate wrote its own slot, the same slot of the account that delegates is written for free. */
  lemma DelegatedWriteIsFree(spec: MegaSpecId, st: Storage, a: Accounts.Location, d: Accounts.Location, key: Word)
    requires !spec.IsEnabled(Rex4) && Delegates(st, a, d) && st.db(SlotKey(a, key)) == st.db(SlotKey(d, key)) == 0
    ensures var events := [OpenEmpty, Write(SlotKey(d, key), 5, true), Write(SlotKey(a, key), 1, true)];
            && Possible(spec, st, Fresh(), events)
            && Sum(spec, st, Fresh(), events, true, false) == 1
            && DirtySlots(After(spec, st, Fresh(), events, true).journal, false) == 2
  {
    hide Dirty, Initial, Possible;
    TwoWrites(spec, st, SlotKey(d, key), 5, SlotKey(a, key), 1);
    DirtyFollowsWrites(spec, st, Fresh(), [OpenEmpty, Write(SlotKey(d, key), 5, true), Write(SlotKey(a, key), 1, true)], false);
  }
}

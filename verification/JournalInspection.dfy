/**
  Inspection of the journal (evm/host.rs): accounts and slots are read, and cached when they are
  missing, without being warmed. What each step does to the journal's state.
 */
module JournalState {
  import opened Prelude
  import opened LimitTypes
  import opened Accounts

  type DbError = nat

  /** The database behind the journal; reading it changes nothing. */
  datatype Database = Database(
    basic: Location -> Result<Option<AccountInfo>, DbError>,
    codeByHash: nat -> Result<Code, DbError>,
    storage: (Location, Word) -> Result<Word, DbError>)

  function LoadedAccount(basic: Option<AccountInfo>): Account {
    match basic
    case Some(info) => Account(info, {Cold}, map[])
    case None => Account(NO_ACCOUNT, {LoadedAsNotExisting, Cold}, map[])
  }

  predicate LacksCode(info: AccountInfo) {
    info.codeHash != KECCAK_EMPTY && info.code.None?
  }

  /** An inspection loads missing code of a journaled account, or caches a missing account as cold. */
  function Inspected(db: Database, state: AccountMap, a: Location): Result<AccountMap, DbError> {
    if a in state then
      if LacksCode(state[a].info) then
        match db.codeByHash(state[a].info.codeHash)
        case Ok(code) => Ok(state[a := state[a].(info := state[a].info.(code := Some(code)))])
        case Err(e) => Err(e)
      else Ok(state)
    else
      match db.basic(a)
      case Ok(basic) => Ok(state[a := LoadedAccount(basic)])
      case Err(e) => Err(e)
  }

  function DelegateOf(info: AccountInfo): Option<Location> {
    if info.code.Some? && info.code.value.Eip7702? then Some(info.code.value.target) else None
  }

  function SlotInserted(state: AccountMap, a: Location, key: Word, value: Word): AccountMap
    requires a in state
  {
    state[a := state[a].(storage := state[a].storage[key := Slot(value, value, true)])]
  }

  // ---------------------------------------------------------------------------------------------
  // What the journal means
  // ---------------------------------------------------------------------------------------------

  /** Code by content: cached, empty, or found in the database. */
  function CodeOf(db: Database, info: AccountInfo): Result<Code, DbError> {
    if info.code.Some? then Ok(info.code.value)
    else if info.codeHash == KECCAK_EMPTY then Ok(Legacy([]))
    else db.codeByHash(info.codeHash)
  }

  datatype AccountView = AccountView(existing: bool, balance: nat, nonce: nat, codeHash: nat, code: Result<Code, DbError>)

  function ViewOf(db: Database, account: Account): AccountView {
    var info := account.info;
    AccountView(LoadedAsNotExisting !in account.status, info.balance, info.nonce, info.codeHash, CodeOf(db, info))
  }

  /** What the database alone says of an account: the one it has, or one that does not exist. */
  function AccountInDatabase(db: Database, a: Location): Result<AccountView, DbError> {
    match db.basic(a)
    case Ok(Some(info)) =>
      Ok(AccountView(true, info.balance, info.nonce, info.codeHash, CodeOf(db, info)))
    case Ok(None) => Ok(AccountView(false, 0, 0, KECCAK_EMPTY, Ok(Legacy([]))))
    case Err(e) => Err(e)
  }

  /** The journal entry if there is one, else the database's. */
  function AccountAt(db: Database, state: AccountMap, a: Location): Result<AccountView, DbError> {
    if a in state then Ok(ViewOf(db, state[a])) else AccountInDatabase(db, a)
  }

  /** Original and present value of a slot. */
  function SlotAt(db: Database, state: AccountMap, a: Location, key: Word): Result<(Word, Word), DbError> {
    if a in state && key in state[a].storage then
      Ok((state[a].storage[key].original, state[a].storage[key].present))
    else match db.storage(a, key)
         case Ok(value) => Ok((value, value))
         case Err(e) => Err(e)
  }

  predicate IsWarm(state: AccountMap, a: Location) {
    a in state && !IsCold(state[a])
  }

  predicate SlotIsWarm(state: AccountMap, a: Location, key: Word) {
    a in state && key in state[a].storage && !state[a].storage[key].cold
  }

  /** Nobody who asks the journal can tell the two states apart, nor is anything warmer or colder. */
  ghost predicate Indistinguishable(db: Database, one: AccountMap, other: AccountMap) {
    && (forall a: Location :: AccountAt(db, one, a) == AccountAt(db, other, a))
    && (forall a: Location, key: Word :: SlotAt(db, one, a, key) == SlotAt(db, other, a, key))
    && (forall a: Location :: IsWarm(one, a) == IsWarm(other, a))
    && (forall a: Location, key: Word :: SlotIsWarm(one, a, key) == SlotIsWarm(other, a, key))
  }

  /**
    An inspection touches its own account only: it adds missing code to one the journal has, and caches
    a new one cold, as the database has it or as one that does not exist.
   */
  lemma InspectedExactly(db: Database, state: AccountMap, a: Location, next: AccountMap)
    requires Inspected(db, state, a) == Ok(next)
    ensures next.Keys == state.Keys + {a} && forall b: Location :: b in state && b != a ==> next[b] == state[b]
    ensures a in state ==>
              && next[a].status == state[a].status && next[a].storage == state[a].storage
              && next[a].info == state[a].info.(code := next[a].info.code)
              && (state[a].info.code.Some? ==> next[a] == state[a])
              && (next[a].info.code.None? ==> state[a].info.codeHash == KECCAK_EMPTY)
    ensures a !in state ==> next[a].storage == map[] && Cold in next[a].status && db.basic(a).Ok?
    ensures a !in state && db.basic(a).value.Some? ==>
              next[a].info == db.basic(a).value.value && LoadedAsNotExisting !in next[a].status
    ensures a !in state && db.basic(a).value.None? ==>
              && LoadedAsNotExisting in next[a].status
              && next[a].info == AccountInfo(0, 0, KECCAK_EMPTY, Some(Legacy([])))
  {
  }

  lemma InspectionIsInvisible(db: Database, state: AccountMap, a: Location)
    requires Inspected(db, state, a).Ok?
    ensures Indistinguishable(db, state, Inspected(db, state, a).value)
  {
  }

  /** Caching a cold slot is invisible exactly when the journal, else the database, has that value there and it is not warm. */
  lemma InsertionIsInvisible(db: Database, state: AccountMap, a: Location, key: Word, value: Word)
    requires a in state
    ensures Indistinguishable(db, state, SlotInserted(state, a, key, value))
       <==> SlotAt(db, state, a, key) == Ok((value, value)) && !SlotIsWarm(state, a, key)
  {
    var next := SlotInserted(state, a, key, value);
    assert SlotAt(db, next, a, key) == Ok((value, value)) && !SlotIsWarm(next, a, key);
    if SlotAt(db, state, a, key) == Ok((value, value)) && !SlotIsWarm(state, a, key) {
      forall b: Location ensures AccountAt(db, next, b) == AccountAt(db, state, b) {
      }
    }
  }

  // ---------------------------------------------------------------------------------------------
  // Delegation
  // ---------------------------------------------------------------------------------------------

  /** Where an account, inspected in this state, appears to delegate. */
  function Seen(db: Database, state: AccountMap, a: Location): Result<Option<Location>, DbError> {
    match Inspected(db, state, a)
    case Ok(next) => Ok(InspectedDelegate(db, state, a))
    case Err(e) => Err(e)
  }

  function InspectedDelegate(db: Database, state: AccountMap, a: Location): Option<Location>
    requires Inspected(db, state, a).Ok?
  {
    DelegateOf(Inspected(db, state, a).value[a].info)
  }

  /** What the account's code, wherever it is kept, delegates to. */
  function Delegation(db: Database, state: AccountMap, a: Location): Result<Option<Location>, DbError> {
    match AccountAt(db, state, a)
    case Err(e) => Err(e)
    case Ok(view) =>
      match view.code
      case Ok(Eip7702(target)) => Ok(Some(target))
      case Ok(_) => Ok(None)
      case Err(e) => Err(e)
  }

  /** The database hands out accounts together with their code. */
  ghost predicate BasicHasCode(db: Database) {
    forall a: Location :: db.basic(a).Ok? && db.basic(a).value.Some? ==> !LacksCode(db.basic(a).value.value)
  }

  /** An inspection sees the true delegation of an account unless it is new to the journal and comes without its code. */
  lemma SeenIsDelegation(db: Database, state: AccountMap, a: Location)
    ensures Seen(db, state, a) == Delegation(db, state, a) <==>
              !(&& a !in state && db.basic(a).Ok? && db.basic(a).value.Some? && LacksCode(db.basic(a).value.value)
                && (db.codeByHash(db.basic(a).value.value.codeHash).Ok? ==>
                      db.codeByHash(db.basic(a).value.value.codeHash).value.Eip7702?))
  {
  }

  /** After an inspection its account's true delegation is seen, and of the others what was seen before. */
  lemma SeenAfter(db: Database, state: AccountMap, a: Location)
    requires Seen(db, state, a).Ok?
    ensures forall b: Location :: Seen(db, Inspected(db, state, a).value, b)
                                  == if b == a then Delegation(db, state, a) else Seen(db, state, b)
    ensures Seen(db, state, a).value.Some? || a in state ==> Delegation(db, state, a) == Seen(db, state, a)
  {
  }

  type Hop = Location -> Result<Option<Location>, DbError>

  ghost function Hops(db: Database, state: AccountMap): Hop {
    a => Seen(db, state, a)
  }

  predicate Distinct(p: seq<Location>) {
    forall i, j :: 0 <= i < j < |p| ==> p[i] != p[j]
  }

  /** A chain of delegations that repeats no address. */
  predicate Chain(hop: Hop, a: Location, p: seq<Location>) {
    && p != [] && p[0] == a && Distinct(p)
    && forall i :: 0 <= i < |p| - 1 ==> hop(p[i]) == Ok(Some(p[i + 1]))
  }

  function Last(p: seq<Location>): Location
    requires p != []
  {
    p[|p| - 1]
  }

  /** No longer chain continues it: its last address does not delegate, delegates back into the chain, or cannot be loaded. */
  predicate Ended(hop: Hop, p: seq<Location>) {
    p != [] && (hop(Last(p)).Ok? && hop(Last(p)).value.Some? ==> hop(Last(p)).value.value in p)
  }

  function Elements(p: seq<Location>): set<Location> {
    set x: Location | x in p
  }

  lemma {:induction false} BoundedSet(s: set<nat>, n: nat)
    requires forall x :: x in s ==> x < n
    ensures |s| <= n
  {
    if n > 0 {
      BoundedSet(s - {n - 1}, n - 1);
      assert n - 1 in s ==> |s - {n - 1}| == |s| - 1;
      assert n - 1 !in s ==> s - {n - 1} == s;
    } else {
      assert s == {};
    }
  }

  lemma {:induction false} DistinctCount(p: seq<Location>)
    requires Distinct(p)
    ensures |Elements(p)| == |p|
  {
    if p != [] {
      var front := p[..|p| - 1];
      DistinctCount(front);
      assert p == front + [Last(p)];
      assert Elements(p) == Elements(front) + {Last(p)};
      assert Last(p) !in front;
    }
  }

  /** There are only so many addresses. */
  lemma DistinctIsBounded(p: seq<Location>)
    requires Distinct(p)
    ensures |p| <= ADDRESS_COUNT
  {
    DistinctCount(p);
    BoundedSet(Elements(p), ADDRESS_COUNT);
  }

  /** The longest chain that starts like p. */
  ghost function Longest(hop: Hop, a: Location, p: seq<Location>): (longest: seq<Location>)
    requires Chain(hop, a, p)
    ensures Chain(hop, a, longest) && Ended(hop, longest)
    decreases ADDRESS_COUNT - |p|
  {
    if Ended(hop, p) then p
    else
      var next := hop(Last(p)).value.value;
      DistinctIsBounded(p + [next]);
      Longest(hop, a, p + [next])
  }

  /** Chains from one address are prefixes of one another. */
  lemma {:induction false} ChainsAgree(hop: Hop, a: Location, p: seq<Location>, q: seq<Location>, i: nat)
    requires Chain(hop, a, p) && Chain(hop, a, q) && i < |p| && i < |q|
    ensures p[i] == q[i]
  {
    if i > 0 {
      ChainsAgree(hop, a, p, q, i - 1);
    }
  }

  lemma EndedIsLongest(hop: Hop, a: Location, p: seq<Location>, q: seq<Location>)
    requires Chain(hop, a, p) && Ended(hop, p) && Chain(hop, a, q)
    ensures |q| <= |p| && q == p[..|q|]
  {
    if |q| > |p| {
      ChainsAgree(hop, a, p, q, |p| - 1);
      var i :| 0 <= i < |p| && p[i] == q[|p|];
      ChainsAgree(hop, a, p, q, i);
      assert false;
    }
    forall i | 0 <= i < |q| ensures q[i] == p[i] {
      ChainsAgree(hop, a, p, q, i);
    }
  }

  ghost function Resolved(hop: Hop, a: Location): Result<Location, DbError> {
    var p := Longest(hop, a, [a]);
    match hop(Last(p))
    case Ok(_) => Ok(Last(p))
    case Err(e) => Err(e)
  }

  /**
    Where a delegation ends: the last address of the longest repetition-free prefix of a, d(a),
    d(d(a)), and so on, of which there is exactly one; an error when that address cannot be loaded.
   */
  lemma ResolvedExactly(hop: Hop, a: Location, p: seq<Location>)
    requires Chain(hop, a, p)
    ensures Ended(hop, p) <==> p == Longest(hop, a, [a])
    ensures Ended(hop, p) ==> Resolved(hop, a) == if hop(Last(p)).Ok? then Ok(Last(p)) else Err(hop(Last(p)).error)
    ensures |p| <= |Longest(hop, a, [a])| <= ADDRESS_COUNT
  {
    var longest := Longest(hop, a, [a]);
    DistinctIsBounded(longest);
    EndedIsLongest(hop, a, longest, p);
    if Ended(hop, p) {
      EndedIsLongest(hop, a, p, longest);
    }
  }

  /** From REX4 on exactly one hop is followed. */
  function OneHop(hop: Hop, a: Location): Result<Location, DbError> {
    match hop(a)
    case Err(e) => Err(e)
    case Ok(None) => Ok(a)
    case Ok(Some(next)) => if hop(next).Err? then Err(hop(next).error) else Ok(next)
  }

  /** One hop leads to the delegate of an account that delegates and can be loaded, and nowhere else. */
  lemma OneHopExactly(hop: Hop, a: Location)
    ensures hop(a) == Ok(None) ==> OneHop(hop, a) == Ok(a)
    ensures forall b: Location :: hop(a) == Ok(Some(b)) && hop(b).Ok? ==> OneHop(hop, a) == Ok(b)
    ensures forall b: Location :: hop(a) == Ok(Some(b)) && hop(b).Err? ==> OneHop(hop, a) == Err(hop(b).error)
    ensures hop(a).Err? ==> OneHop(hop, a) == Err(hop(a).error)
  {
  }

  /** The two rules agree exactly on chains of at most one hop, counting a hop back into the chain as none. */
  lemma OneHopAgrees(hop: Hop, a: Location)
    requires OneHop(hop, a).Ok?
    ensures OneHop(hop, a) == Resolved(hop, a) <==>
              var b := OneHop(hop, a).value; hop(b).value.None? || hop(b).value.value in {a, b}
  {
    var b := OneHop(hop, a).value;
    var chain := if a == b then [a] else [a, b];
    assert Chain(hop, a, chain);
    if Ended(hop, chain) {
      ResolvedExactly(hop, a, chain);
    } else {
      ResolvedExactly(hop, a, chain + [hop(b).value.value]);
      var longest := Longest(hop, a, [a]);
      EndedIsLongest(hop, a, longest, chain + [hop(b).value.value]);
      assert longest[|chain| - 1] == (chain + [hop(b).value.value])[|chain| - 1] == b;
    }
  }
}

/** The journal as the object the inspections fill in place. */
module JournalInspection {
  import opened Prelude
  import opened LimitTypes
  import opened Accounts
  import opened JournalState

  /** What the REX4 operations leave in the journal, whether they succeed or not. */
  function DelegatedInspected(db: Database, state: AccountMap, a: Location): AccountMap {
    match Inspected(db, state, a)
    case Err(_) => state
    case Ok(loaded) =>
      var delegate := DelegateOf(loaded[a].info);
      if delegate.Some? && Inspected(db, loaded, delegate.value).Ok?
      then Inspected(db, loaded, delegate.value).value else loaded
  }

  function StorageInspected(db: Database, state: AccountMap, a: Location, key: Word): AccountMap {
    match Inspected(db, state, a)
    case Err(_) => state
    case Ok(loaded) =>
      if key !in loaded[a].storage && db.storage(a, key).Err? then loaded
      else match Inspected(db, loaded, a)
           case Err(_) => loaded
           case Ok(again) =>
             if key in loaded[a].storage then again else SlotInserted(again, a, key, db.storage(a, key).value)
  }

  datatype Request = InspectDelegated(a: Location) | InspectSlot(a: Location, key: Word)

  function Served(db: Database, state: AccountMap, requests: seq<Request>): AccountMap {
    if requests == [] then state
    else
      var before := Served(db, state, requests[..|requests| - 1]);
      match requests[|requests| - 1]
      case InspectDelegated(a) => DelegatedInspected(db, before, a)
      case InspectSlot(a, key) => StorageInspected(db, before, a, key)
  }

  lemma DelegatedIsInvisible(db: Database, state: AccountMap, a: Location)
    ensures Indistinguishable(db, state, DelegatedInspected(db, state, a))
  {
    if Inspected(db, state, a).Ok? {
      var loaded := Inspected(db, state, a).value;
      InspectionIsInvisible(db, state, a);
      var delegate := DelegateOf(loaded[a].info);
      if delegate.Some? && Inspected(db, loaded, delegate.value).Ok? {
        InspectionIsInvisible(db, loaded, delegate.value);
      }
    }
  }

  lemma StorageIsInvisible(db: Database, state: AccountMap, a: Location, key: Word)
    ensures Indistinguishable(db, state, StorageInspected(db, state, a, key))
  {
    if Inspected(db, state, a).Ok? {
      var loaded := Inspected(db, state, a).value;
      InspectionIsInvisible(db, state, a);
      if Inspected(db, loaded, a).Ok? {
        var again := Inspected(db, loaded, a).value;
        InspectionIsInvisible(db, loaded, a);
        if key !in again[a].storage && db.storage(a, key).Ok? {
          InsertionIsInvisible(db, again, a, key, db.storage(a, key).value);
        }
      }
    }
  }

  /** Any sequence of inspections from REX4 on, failing ones included, changes no account, no slot and no warmth. */
  lemma {:induction false} InspectionsAreInvisible(db: Database, state: AccountMap, requests: seq<Request>)
    ensures Indistinguishable(db, state, Served(db, state, requests))
  {
    if requests != [] {
      var before := Served(db, state, requests[..|requests| - 1]);
      InspectionsAreInvisible(db, state, requests[..|requests| - 1]);
      match requests[|requests| - 1]
      case InspectDelegated(a) => DelegatedIsInvisible(db, before, a);
      case InspectSlot(a, key) => StorageIsInvisible(db, before, a, key);
    }
  }

  /** A database that hands out an account without its code makes the first inspection miss the delegation the second one follows. */
  lemma InspectingTwiceMayDiffer(state: AccountMap, a: Location, b: Location, hash: nat)
    requires a !in state && a != b && hash != KECCAK_EMPTY
    ensures var db := Database(_ => Ok(Some(AccountInfo(0, 0, hash, None))), _ => Ok(Eip7702(b)), (_, _) => Ok(0));
            && OneHop(Hops(db, state), a) == Ok(a)
            && OneHop(Hops(db, DelegatedInspected(db, state, a)), a) == Ok(b)
  {
  }

  predicate HasSlot(state: AccountMap, a: Location, key: Word) {
    a in state && key in state[a].storage
  }

  /** The same slots are cached for the same accounts. */
  ghost predicate SlotsKept(one: AccountMap, other: AccountMap) {
    forall a: Location, key: Word ::
      && HasSlot(one, a, key) == HasSlot(other, a, key)
      && (HasSlot(one, a, key) ==> one[a].storage[key] == other[a].storage[key])
  }

  /** The same slots but for this one. */
  ghost predicate SlotsKeptBut(one: AccountMap, other: AccountMap, but: Location, butKey: Word) {
    forall a: Location, key: Word :: a != but || key != butKey ==>
      && HasSlot(one, a, key) == HasSlot(other, a, key)
      && (HasSlot(one, a, key) ==> one[a].storage[key] == other[a].storage[key])
  }

  ghost predicate SameSeen(db: Database, one: AccountMap, other: AccountMap) {
    forall a: Location :: Seen(db, one, a) == Seen(db, other, a)
  }

  /** What a second walk sees: of the account the first one ended at, its true delegation. */
  ghost function SecondHops(db: Database, state: AccountMap, end: Location): Hop {
    b => if b == end then Delegation(db, state, b) else Seen(db, state, b)
  }

  ghost predicate SeesAgain(db: Database, first: AccountMap, state: AccountMap, end: Location) {
    forall b: Location :: Seen(db, state, b) == SecondHops(db, first, end)(b)
  }

  class Journal {
    var state: AccountMap
    const database: Database

    constructor (database: Database)
      ensures state == map[] && this.database == database
    {
      state := map[];
      this.database := database;
    }

    /** The returned address stands for the reference to the account, which is in the journal. */
    method InspectAccount(a: Location) returns (r: Result<Location, DbError>)
      modifies this`state
      ensures Inspected(database, old(state), a).Ok? ==> r == Ok(a) && a in state && Ok(state) == Inspected(database, old(state), a)
      ensures Inspected(database, old(state), a).Err? ==>
                r == Err(Inspected(database, old(state), a).error) && state == old(state)
    {
      if a in state {
        var account := state[a];
        if account.info.codeHash != KECCAK_EMPTY && account.info.code.None? {
          var code := database.codeByHash(account.info.codeHash);
          if code.Err? {
            return Err(code.error);
          }
          state := state[a := account.(info := account.info.(code := Some(code.value)))];
        }
      } else {
        var basic := database.basic(a);
        if basic.Err? {
          return Err(basic.error);
        }
        var account := if basic.value.Some? then Account(basic.value.value, {}, map[])
                       else Account(NO_ACCOUNT, {LoadedAsNotExisting}, map[]);
        account := account.(status := account.status + {Cold});
        assert account.status == LoadedAccount(basic.value).status;
        state := state[a := account];
      }
      return Ok(a);
    }

    method InspectAccountDelegated(spec: MegaSpecId, a: Location) returns (r: Result<Location, DbError>)
      modifies this`state
      ensures spec.IsEnabled(Rex4) ==>
                && r == OneHop(Hops(database, old(state)), a)
                && state == DelegatedInspected(database, old(state), a)
      ensures !spec.IsEnabled(Rex4) ==> r == Resolved(Hops(database, old(state)), a)
      ensures r.Ok? ==> r.value in state
      ensures Indistinguishable(database, old(state), state) && SlotsKept(old(state), state)
      ensures !spec.IsEnabled(Rex4) && r.Ok? ==> SeesAgain(database, old(state), state, r.value)
      ensures !spec.IsEnabled(Rex4) && r.Err? ==> SameSeen(database, old(state), state)
    {
      hide Indistinguishable, SlotsKept, Resolved, Longest, Chain, Ended, Inspected;
      ghost var hop := Hops(database, state);
      InspectionKeeps(database, state, state, a);
      r := InspectAccount(a);
      if r.Err? {
        ResolvedAt(hop, a, [a]);
        return r;
      }
      var delegated := DelegateOf(state[a].info);
      if delegated.None? {
        ResolvedAt(hop, a, [a]);
        return r;
      }
      if spec.IsEnabled(Rex4) {
        InspectionKeeps(database, old(state), state, delegated.value);
        r := InspectAccount(delegated.value);
      } else {
        ChainOfOne(hop, a);
        r := FollowDelegation(a, delegated.value, old(state));
      }
    }

    /** The walk before REX4; `visited` may hold the current address, which then delegates to itself. */
    method FollowDelegation(a: Location, delegated: Location, ghost first: AccountMap)
      returns (r: Result<Location, DbError>)
      requires Chain(Hops(database, first), a, [a]) && Hops(database, first)(a) == Ok(Some(delegated))
      requires forall b: Location :: Seen(database, state, b) == Seen(database, first, b)
      requires Indistinguishable(database, first, state) && SlotsKept(first, state)
      modifies this`state
      ensures r == Resolved(Hops(database, first), a)
      ensures r.Ok? ==> r.value in state && SeesAgain(database, first, state, r.value)
      ensures r.Err? ==> SameSeen(database, first, state)
      ensures Indistinguishable(database, first, state) && SlotsKept(first, state)
    {
      hide Indistinguishable, SlotsKept, Resolved, Longest, Chain, Ended, Inspected, Distinct;
      ghost var hop := Hops(database, first);
      var current := delegated;
      var visited := [a];
      while true
        invariant visited != [] && Chain(hop, a, visited)
        invariant hop(Last(visited)) == Ok(Some(current))
        invariant current in visited ==> current == Last(visited)
        invariant forall b: Location :: Seen(database, state, b) == hop(b)
        invariant Indistinguishable(database, first, state) && SlotsKept(first, state)
        decreases ADDRESS_COUNT - |visited|
      {
        ChainGrows(hop, a, visited, current);
        InspectionKeeps(database, first, state, current);
        TrueDelegationStays(database, first, state, current);
        var loaded := InspectAccount(current);
        if loaded.Err? {
          return loaded;
        }
        var next := DelegateOf(state[current].info);
        if next.None? || next.value in visited {
          return loaded;
        }
        visited := visited + [current];
        current := next.value;
      }
    }

    /**
      From REX4 on the slot of the address itself. Before, the end of the delegation is looked up
      twice; a slot found the first time is returned, else the value the database has for the address
      is put where the second walk ends.
     */
    method InspectStorage(spec: MegaSpecId, a: Location, key: Word) returns (r: Result<Slot, DbError>)
      modifies this`state
      ensures r.Err? ==> Indistinguishable(database, old(state), state) && SlotsKept(old(state), state)
      ensures !spec.IsEnabled(Rex4) && BasicHasCode(database) ==> SameSeen(database, old(state), state)
      ensures spec.IsEnabled(Rex4) ==>
                && state == StorageInspected(database, old(state), a, key)
                && (r.Ok? <==> Delegation(database, old(state), a).Ok? && SlotAt(database, old(state), a, key).Ok?)
                && (r.Ok? ==> SlotAt(database, old(state), a, key) == Ok((r.value.original, r.value.present)))
      ensures !spec.IsEnabled(Rex4) ==>
                var owner := Resolved(Hops(database, old(state)), a);
                if owner.Err? then r == Err(owner.error)
                else if HasSlot(old(state), owner.value, key) then
                  && r == Ok(old(state)[owner.value].storage[key])
                  && Indistinguishable(database, old(state), state) && SlotsKept(old(state), state)
                else if database.storage(a, key).Err? then r == Err(database.storage(a, key).error)
                else
                  var value := database.storage(a, key).value;
                  var second := Resolved(SecondHops(database, old(state), owner.value), a);
                  if second.Err? then r == Err(second.error)
                  else
                    && r == Ok(Slot(value, value, true))
                    && SlotsKeptBut(old(state), state, second.value, key)
                    && HasSlot(state, second.value, key) && state[second.value].storage[key] == Slot(value, value, true)
                    && (Indistinguishable(database, old(state), state) <==>
                          && SlotAt(database, old(state), second.value, key) == Ok((value, value))
                          && !SlotIsWarm(old(state), second.value, key))
    {
      hide Indistinguishable, Resolved, Hops, SecondHops, SlotAt, SlotIsWarm, Delegation, SlotsKept, SlotsKeptBut, SameSeen,
           SeesAgain, BasicHasCode, Inspected;
      FirstInspection(database, state, a);
      var owner := InspectForStorage(spec, a);
      if owner.Err? {
        return Err(owner.error);
      }
      ghost var loaded := state;
      if !spec.IsEnabled(Rex4) {
        SecondWalk(database, old(state), loaded, owner.value, a);
      }
      SlotOf(database, old(state), loaded, owner.value, key);
      if key in state[owner.value].storage {
        owner := InspectForStorage(spec, a);
        WalkedTwice(database, old(state), loaded, state, key);
        match owner
        case Err(e) => return Err(e);
        case Ok(again) =>
          assert HasSlot(loaded, again, key);
          if !spec.IsEnabled(Rex4) {
            SecondWalk(database, loaded, state, again, a);
          }
          SlotOf(database, loaded, state, again, key);
          return Ok(state[again].storage[key]);
      }
      var value := database.storage(a, key);
      if value.Err? {
        return Err(value.error);
      }
      owner := InspectForStorage(spec, a);
      WalkedTwice(database, old(state), loaded, state, key);
      if owner.Err? {
        return Err(owner.error);
      }
      if !spec.IsEnabled(Rex4) {
        SecondWalk(database, loaded, state, owner.value, a);
      }
      InsertionAfter(database, old(state), state, owner.value, key, value.value);
      state := SlotInserted(state, owner.value, key, value.value);
      return Ok(state[owner.value].storage[key]);
    }

    /** The account whose storage is looked at: the address itself from REX4 on, the end of its delegation before. */
    method InspectForStorage(spec: MegaSpecId, a: Location) returns (r: Result<Location, DbError>)
      modifies this`state
      ensures spec.IsEnabled(Rex4) ==>
                && (Inspected(database, old(state), a).Ok? ==> r == Ok(a) && Ok(state) == Inspected(database, old(state), a))
                && (Inspected(database, old(state), a).Err? ==> r.Err? && state == old(state))
      ensures !spec.IsEnabled(Rex4) ==> r == Resolved(Hops(database, old(state)), a)
      ensures r.Ok? ==> r.value in state
      ensures Indistinguishable(database, old(state), state) && SlotsKept(old(state), state)
      ensures !spec.IsEnabled(Rex4) && r.Ok? ==> SeesAgain(database, old(state), state, r.value)
      ensures !spec.IsEnabled(Rex4) && r.Err? ==> SameSeen(database, old(state), state)
    {
      hide Indistinguishable, SlotsKept, SeesAgain, SameSeen, Resolved;
      InspectionKeeps(database, state, state, a);
      if spec.IsEnabled(Rex4) {
        r := InspectAccount(a);
      } else {
        r := InspectAccountDelegated(spec, a);
      }
    }
  }

  /** One more inspection, successful or not, in a state that is still as good as the first one. */
  lemma InspectionKeeps(db: Database, first: AccountMap, state: AccountMap, a: Location)
    requires first == state || (Indistinguishable(db, first, state) && SlotsKept(first, state))
    ensures Indistinguishable(db, first, state) && SlotsKept(first, state)
    ensures Seen(db, state, a).Ok? ==>
              var next := Inspected(db, state, a).value;
              && Indistinguishable(db, first, next) && SlotsKept(first, next)
              && (forall b: Location :: Seen(db, next, b) == if b == a then Delegation(db, state, a) else Seen(db, state, b))
              && (Seen(db, state, a).value.Some? ==> Delegation(db, state, a) == Seen(db, state, a))
  {
    if Seen(db, state, a).Ok? {
      InspectionIsInvisible(db, state, a);
      SeenAfter(db, state, a);
    }
  }

  lemma TrueDelegationStays(db: Database, first: AccountMap, state: AccountMap, a: Location)
    requires Indistinguishable(db, first, state)
    ensures Delegation(db, first, a) == Delegation(db, state, a)
  {
  }

  /** The second walk sees what SecondHops says, and ends where the first did if that account was journaled. */
  lemma SecondWalk(db: Database, first: AccountMap, loaded: AccountMap, end: Location, a: Location)
    requires SeesAgain(db, first, loaded, end)
    ensures Resolved(Hops(db, loaded), a) == Resolved(SecondHops(db, first, end), a)
    ensures end in first ==> Resolved(Hops(db, loaded), a) == Resolved(Hops(db, first), a)
    ensures BasicHasCode(db) ==> SameSeen(db, first, loaded)
  {
    SameHops(Hops(db, loaded), SecondHops(db, first, end), a);
    SeenIsDelegation(db, first, end);
    if end in first {
      SameHops(Hops(db, loaded), Hops(db, first), a);
    }
  }

  /** With code in hand the two walks see the same. */
  lemma WalksAgree(db: Database, state: AccountMap, end: Location, a: Location)
    requires BasicHasCode(db)
    ensures Resolved(SecondHops(db, state, end), a) == Resolved(Hops(db, state), a)
  {
    SeenIsDelegation(db, state, end);
    SameHops(SecondHops(db, state, end), Hops(db, state), a);
  }

  /** Without, the second walk may go on where the first one ended, and cache the value in an account of another address. */
  lemma SecondWalkMayGoOn(state: AccountMap, a: Location, b: Location, hash: nat)
    requires a !in state && b !in state && a != b && hash != KECCAK_EMPTY
    ensures var db := Database(_ => Ok(Some(AccountInfo(0, 0, hash, None))), _ => Ok(Eip7702(b)), (_, _) => Ok(0));
            && Resolved(Hops(db, state), a) == Ok(a)
            && Resolved(SecondHops(db, state, a), a) == Ok(b)
  {
    var db := Database(_ => Ok(Some(AccountInfo(0, 0, hash, None))), _ => Ok(Eip7702(b)), (_, _) => Ok(0));
    ResolvedExactly(Hops(db, state), a, [a]);
    ResolvedExactly(SecondHops(db, state, a), a, [a, b]);
  }

  lemma SameHops(one: Hop, other: Hop, a: Location)
    requires forall b: Location :: one(b) == other(b)
    ensures Resolved(one, a) == Resolved(other, a)
  {
    var p := Longest(other, a, [a]);
    assert Chain(one, a, p) && Ended(one, p);
    ResolvedExactly(one, a, p);
  }

  /** What the first inspection of an address fails with, and what the second one sees. */
  lemma FirstInspection(db: Database, state: AccountMap, a: Location)
    ensures Inspected(db, state, a).Err? <==> Seen(db, state, a).Err?
    ensures Inspected(db, state, a).Err? ==> Delegation(db, state, a).Err?
    ensures Inspected(db, state, a).Ok? ==>
              (Inspected(db, Inspected(db, state, a).value, a).Ok? <==> Delegation(db, state, a).Ok?)
  {
    SeenIsDelegation(db, state, a);
    if Seen(db, state, a).Ok? {
      SeenAfter(db, state, a);
    }
  }

  lemma WalkedTwice(db: Database, first: AccountMap, loaded: AccountMap, state: AccountMap, key: Word)
    requires Indistinguishable(db, first, loaded) && SlotsKept(first, loaded)
    requires Indistinguishable(db, loaded, state) && SlotsKept(loaded, state)
    ensures Indistinguishable(db, first, state) && SlotsKept(first, state)
    ensures SameSeen(db, first, loaded) && SameSeen(db, loaded, state) ==> SameSeen(db, first, state)
  {
  }

  /** What the insertion leaves, seen from the state before both walks. */
  lemma InsertionAfter(db: Database, first: AccountMap, state: AccountMap, a: Location, key: Word, value: Word)
    requires a in state && Indistinguishable(db, first, state) && SlotsKept(first, state)
    ensures var next := SlotInserted(state, a, key, value);
            && SlotsKeptBut(first, next, a, key) && HasSlot(next, a, key) && next[a].storage[key] == Slot(value, value, true)
            && (SameSeen(db, first, state) ==> SameSeen(db, first, next))
            && (Indistinguishable(db, first, next) <==>
                  SlotAt(db, first, a, key) == Ok((value, value)) && !SlotIsWarm(first, a, key))
  {
    hide Indistinguishable, SlotAt, SlotIsWarm, SlotsKept;
    StillTheSame(db, first, state, SlotInserted(state, a, key, value));
    SlotOf(db, first, state, a, key);
    InsertionIsInvisible(db, state, a, key, value);
    InsertionKeeps(db, first, state, a, key, value);
  }

  lemma InsertionKeeps(db: Database, first: AccountMap, state: AccountMap, a: Location, key: Word, value: Word)
    requires a in state && SlotsKept(first, state)
    ensures SlotsKeptBut(first, SlotInserted(state, a, key, value), a, key)
    ensures SameSeen(db, first, state) ==> SameSeen(db, first, SlotInserted(state, a, key, value))
  {
    var next := SlotInserted(state, a, key, value);
    forall b: Location, k: Word | b != a || k != key
      ensures HasSlot(first, b, k) == HasSlot(next, b, k)
      ensures HasSlot(first, b, k) ==> first[b].storage[k] == next[b].storage[k]
    {
      assert HasSlot(first, b, k) == HasSlot(state, b, k);
    }
    if SameSeen(db, first, state) {
      forall b: Location ensures Seen(db, next, b) == Seen(db, state, b) {
      }
    }
  }

  /** Slots are where they were, with the values and the warmth they had. */
  lemma SlotOf(db: Database, first: AccountMap, state: AccountMap, a: Location, key: Word)
    requires Indistinguishable(db, first, state) && SlotsKept(first, state)
    ensures SlotAt(db, first, a, key) == SlotAt(db, state, a, key) && SlotIsWarm(first, a, key) == SlotIsWarm(state, a, key)
    ensures HasSlot(first, a, key) == HasSlot(state, a, key)
    ensures HasSlot(first, a, key) ==>
              && state[a].storage[key] == first[a].storage[key]
              && SlotAt(db, first, a, key) == Ok((first[a].storage[key].original, first[a].storage[key].present))
    ensures !HasSlot(first, a, key) ==>
              SlotAt(db, first, a, key) == match db.storage(a, key) case Ok(value) => Ok((value, value)) case Err(e) => Err(e)
  {
  }

  lemma StillTheSame(db: Database, one: AccountMap, two: AccountMap, three: AccountMap)
    requires Indistinguishable(db, one, two)
    ensures Indistinguishable(db, one, three) <==> Indistinguishable(db, two, three)
  {
  }

  lemma ChainOfOne(hop: Hop, a: Location)
    ensures Chain(hop, a, [a])
  {
  }

  lemma ResolvedAt(hop: Hop, a: Location, p: seq<Location>)
    requires p == [a] && (hop(a).Err? || hop(a).value.None?)
    ensures Resolved(hop, a) == if hop(a).Ok? then Ok(a) else Err(hop(a).error)
  {
    ResolvedExactly(hop, a, p);
  }

  /** What the walk may conclude at the address its visited chain leads to. */
  lemma ChainGrows(hop: Hop, a: Location, visited: seq<Location>, current: Location)
    requires Chain(hop, a, visited) && hop(Last(visited)) == Ok(Some(current))
    requires current in visited ==> current == Last(visited)
    ensures hop(current).Err? ==> Resolved(hop, a) == Err(hop(current).error)
    ensures hop(current).Ok? && (hop(current).value.None? || hop(current).value.value in visited) ==>
              Resolved(hop, a) == Ok(current)
    ensures hop(current).Ok? && hop(current).value.Some? && hop(current).value.value !in visited ==>
              && Chain(hop, a, visited + [current])
              && |visited| < ADDRESS_COUNT
              && (hop(current).value.value in visited ==> hop(current).value.value == current)
  {
    if current in visited {
      ResolvedExactly(hop, a, visited);
    } else {
      var chain := visited + [current];
      assert Chain(hop, a, chain);
      ResolvedExactly(hop, a, chain);
    }
  }
}

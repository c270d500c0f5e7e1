/**
  The read at the head of the SSTORE wrapper (evm/instructions.rs): what the inspection of the journal
  (evm/host.rs) returns is what the storage accounting takes it to return.
 */
module SstoreReads {
  import opened Prelude
  import opened LimitTypes
  import opened Accounts
  import opened JournalState
  import opened JournalInspection
  import S = SstoreAccounting

  /** The slots of the journal, by account, are those of the accounting's journal. */
  ghost predicate Represents(state: AccountMap, j: S.Journal) {
    forall a: Location, key: Word ::
      && (HasSlot(state, a, key) <==> S.SlotKey(a, key) in j.cached)
      && (HasSlot(state, a, key) ==>
            (state[a].storage[key].original, state[a].storage[key].present) == S.Held(j, S.SlotKey(a, key)))
  }

  function DbValue(db: Database, slot: S.SlotKey): Word {
    match db.storage(slot.address, slot.key)
    case Ok(value) => value
    case Err(_) => 0
  }

  function StorageOf(db: Database, owner: Location -> Location): S.Storage {
    S.Storage(slot => DbValue(db, slot), owner)
  }

  /** Where delegations end, as far as they can be followed. */
  ghost predicate Owns(db: Database, state: AccountMap, owner: Location -> Location) {
    forall a: Location :: Resolved(Hops(db, state), a).Ok? ==> Resolved(Hops(db, state), a).value == owner(a)
  }

  /** Before Rex4: the database hands out accounts with their code, and delegations end where `owner` says. */
  ghost predicate Delegating(spec: MegaSpecId, db: Database, state: AccountMap, owner: Location -> Location) {
    !spec.IsEnabled(Rex4) ==> BasicHasCode(db) && Owns(db, state, owner)
  }

  lemma SlotRepresented(state: AccountMap, j: S.Journal, a: Location, key: Word)
    requires Represents(state, j)
    ensures HasSlot(state, a, key) <==> S.SlotKey(a, key) in j.cached
    ensures HasSlot(state, a, key) ==>
              (state[a].storage[key].original, state[a].storage[key].present) == S.Held(j, S.SlotKey(a, key))
  {
  }

  lemma KeptRepresents(one: AccountMap, other: AccountMap, j: S.Journal)
    requires Represents(one, j) && SlotsKept(one, other)
    ensures Represents(other, j)
  {
    forall a: Location, key: Word
      ensures HasSlot(other, a, key) <==> S.SlotKey(a, key) in j.cached
      ensures HasSlot(other, a, key) ==>
                (other[a].storage[key].original, other[a].storage[key].present) == S.Held(j, S.SlotKey(a, key))
    {
      assert HasSlot(one, a, key) == HasSlot(other, a, key);
    }
  }

  /** Caching a missing slot on one side is caching it on the other. */
  lemma InsertedRepresents(one: AccountMap, other: AccountMap, j: S.Journal, a: Location, key: Word, value: Word)
    requires Represents(one, j) && SlotsKeptBut(one, other, a, key) && !HasSlot(one, a, key)
    requires HasSlot(other, a, key) && other[a].storage[key] == Slot(value, value, true)
    requires S.SlotKey(a, key) !in j.present
    ensures Represents(other, S.Cached(j, S.SlotKey(a, key), value))
  {
    var next := S.Cached(j, S.SlotKey(a, key), value);
    assert S.SlotKey(a, key) !in j.cached;
    forall b: Location, k: Word
      ensures HasSlot(other, b, k) <==> S.SlotKey(b, k) in next.cached
      ensures HasSlot(other, b, k) ==>
                (other[b].storage[k].original, other[b].storage[k].present) == S.Held(next, S.SlotKey(b, k))
    {
      if b != a || k != key {
        assert HasSlot(one, b, k) == HasSlot(other, b, k);
      }
    }
  }

  lemma SeenOwns(db: Database, one: AccountMap, other: AccountMap, owner: Location -> Location)
    requires SameSeen(db, one, other) && Owns(db, one, owner)
    ensures Owns(db, other, owner)
  {
    forall a: Location ensures Resolved(Hops(db, other), a) == Resolved(Hops(db, one), a) {
      SameHops(Hops(db, other), Hops(db, one), a);
    }
  }

  /** The accounting's journal holds every slot it says was written. */
  predicate Holds(j: S.Journal) {
    j.present.Keys <= j.cached.Keys
  }

  /** From Rex4 on the slot inspected is the slot itself, found or cached with the database's value. */
  lemma StorageInspectedKeeps(db: Database, state: AccountMap, a: Location, key: Word)
    requires Delegation(db, state, a).Ok? && SlotAt(db, state, a, key).Ok?
    ensures var next := StorageInspected(db, state, a, key);
            && HasSlot(next, a, key) && SlotsKeptBut(state, next, a, key)
            && (HasSlot(state, a, key) ==> next[a].storage[key] == state[a].storage[key])
            && (!HasSlot(state, a, key) ==>
                  && db.storage(a, key).Ok?
                  && next[a].storage[key] == Slot(db.storage(a, key).value, db.storage(a, key).value, true))
  {
    FirstInspection(db, state, a);
    InspectionKeeps(db, state, state, a);
    var loaded := Inspected(db, state, a).value;
    assert HasSlot(loaded, a, key) == HasSlot(state, a, key);
    InspectionKeeps(db, loaded, loaded, a);
    var again := Inspected(db, loaded, a).value;
    SlotsKeptTwice(state, loaded, again);
    assert HasSlot(again, a, key) == HasSlot(state, a, key);
    if !HasSlot(state, a, key) {
      InsertionKeeps(db, state, again, a, key, db.storage(a, key).value);
    }
  }

  lemma SlotsKeptTwice(one: AccountMap, two: AccountMap, three: AccountMap)
    requires SlotsKept(one, two) && SlotsKept(two, three)
    ensures SlotsKept(one, three)
  {
    forall a: Location, key: Word
      ensures HasSlot(one, a, key) == HasSlot(three, a, key)
      ensures HasSlot(one, a, key) ==> one[a].storage[key] == three[a].storage[key]
    {
      assert HasSlot(one, a, key) == HasSlot(two, a, key) == HasSlot(three, a, key);
    }
  }

  lemma KeptAndThere(one: AccountMap, other: AccountMap, a: Location, key: Word)
    requires SlotsKeptBut(one, other, a, key) && HasSlot(one, a, key) && HasSlot(other, a, key)
    requires other[a].storage[key] == one[a].storage[key]
    ensures SlotsKept(one, other)
  {
    forall b: Location, k: Word
      ensures HasSlot(one, b, k) == HasSlot(other, b, k)
      ensures HasSlot(one, b, k) ==> one[b].storage[k] == other[b].storage[k]
    {
      if b == a && k == key {
      }
    }
  }

  lemma SlotRead(db: Database, one: AccountMap, other: AccountMap, a: Location, key: Word, read: Slot)
    requires HasSlot(other, a, key) && SlotsKeptBut(one, other, a, key)
    requires HasSlot(one, a, key) ==> other[a].storage[key] == one[a].storage[key]
    requires SlotAt(db, one, a, key) == Ok((read.original, read.present))
    ensures HasSlot(one, a, key) ==>
              && SlotsKept(one, other)
              && (read.original, read.present) == (one[a].storage[key].original, one[a].storage[key].present)
    ensures !HasSlot(one, a, key) ==> db.storage(a, key) == Ok(read.original) && read.original == read.present
  {
    if HasSlot(one, a, key) {
      KeptAndThere(one, other, a, key);
    }
  }

  /** A slot that was found, or cached with the value of the slot asked for, is read alike on both sides. */
  lemma ReadRepresented(spec: MegaSpecId, st: S.Storage, one: AccountMap, other: AccountMap, j: S.Journal, slot: S.SlotKey,
                        read: Slot, value: Word)
    requires Represents(one, j) && Holds(j)
    requires var at := S.InspectedKey(spec, st, slot);
             if HasSlot(one, at.address, at.key) then
               && SlotsKept(one, other)
               && (read.original, read.present)
                  == (one[at.address].storage[at.key].original, one[at.address].storage[at.key].present)
             else
               && SlotsKeptBut(one, other, at.address, at.key) && HasSlot(other, at.address, at.key)
               && other[at.address].storage[at.key] == Slot(st.db(slot), st.db(slot), true)
               && read.original == read.present == st.db(slot)
    ensures SStoreResult(read.original, read.present, value) == S.ReadOfWrite(spec, st, j, slot, value)
    ensures Represents(other, S.Inspected(spec, st, j, slot)) && Holds(S.Inspected(spec, st, j, slot))
  {
    hide Represents, SlotsKept, SlotsKeptBut;
    var at := S.InspectedKey(spec, st, slot);
    SlotRepresented(one, j, at.address, at.key);
    if HasSlot(one, at.address, at.key) {
      KeptRepresents(one, other, j);
    } else {
      InsertedRepresents(one, other, j, at.address, at.key, st.db(slot));
    }
  }

  /** The three values an SSTORE of `value` reports, read before it runs; on an error the journal means what it meant. */
  method ReadForSstore(journal: Journal, spec: MegaSpecId, a: Location, key: Word, value: Word,
                       ghost j: S.Journal, ghost owner: Location -> Location)
    returns (r: Result<SStoreResult, DbError>)
    requires Represents(journal.state, j) && Holds(j) && Delegating(spec, journal.database, journal.state, owner)
    modifies journal`state
    ensures Delegating(spec, journal.database, journal.state, owner)
    ensures r.Err? ==> Represents(journal.state, j)
    ensures r.Ok? ==>
              var st, slot := StorageOf(journal.database, owner), S.SlotKey(a, key);
              && r.value == S.ReadOfWrite(spec, st, j, slot, value)
              && Represents(journal.state, S.Inspected(spec, st, j, slot)) && Holds(S.Inspected(spec, st, j, slot))
  {
    hide Represents, SlotsKept, SlotsKeptBut, SlotAt, Holds, S.ReadOfWrite, S.Inspected, Indistinguishable, Resolved, Hops, SecondHops, SameSeen, Owns, BasicHasCode,
         StorageInspected, Delegation, SlotIsWarm, Inspected;
    ghost var before := journal.state;
    ghost var db := journal.database;
    var slot := journal.InspectStorage(spec, a, key);
    if !spec.IsEnabled(Rex4) {
      SeenOwns(db, before, journal.state, owner);
    }
    if slot.Err? {
      KeptRepresents(before, journal.state, j);
      return Err(slot.error);
    }
    if !spec.IsEnabled(Rex4) {
      WalksAgree(db, before, Resolved(Hops(db, before), a).value, a);
      OwnerOf(db, before, owner, a);
    } else {
      StorageInspectedKeeps(db, before, a, key);
      SlotRead(db, before, journal.state, a, key, slot.value);
    }
    ReadRepresented(spec, StorageOf(db, owner), before, journal.state, j, S.SlotKey(a, key), slot.value, value);
    return Ok(SStoreResult(slot.value.original, slot.value.present, value));
  }

  lemma OwnerOf(db: Database, state: AccountMap, owner: Location -> Location, a: Location)
    requires Owns(db, state, owner)
    ensures Resolved(Hops(db, state), a).Ok? ==> Resolved(Hops(db, state), a).value == owner(a)
  {
  }
}

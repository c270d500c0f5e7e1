/** What merging the result of a transaction into a state means (evm/state.rs). */
module MergeState {
  import opened Prelude
  import opened LimitTypes
  import opened Accounts

  const LOCAL_FLAGS: AccountStatus := {Cold, CreatedLocal, SelfDestructedLocal}

  predicate IsSelfDestructed(account: Account) {
    SelfDestructed in account.status
  }

  /** The source asserts it: since EIP-6780 only an account created in the same transaction is destroyed. */
  ghost predicate DestroyedWereCreated(state: AccountMap) {
    forall a: Location :: a in state && IsSelfDestructed(state[a]) ==> Created in state[a].status
  }

  ghost predicate NothingDestroyed(state: AccountMap) {
    forall a: Location :: a in state ==> !IsSelfDestructed(state[a])
  }

  function ColdIf(cold: bool): AccountStatus {
    if cold then {Cold} else {}
  }

  /** What takes the place of a destroyed account: touched and empty. */
  function EmptyAccount(cold: bool): Account {
    Account(NO_ACCOUNT, {Touched} + ColdIf(cold), map[])
  }

  function MergedStatus(this_: AccountStatus, other: AccountStatus): AccountStatus {
    (if SelfDestructed in this_ && Created in other then this_ - {SelfDestructed} else this_) + (other - LOCAL_FLAGS)
  }

  function ColdSlot(slot: Slot): Slot {
    slot.(cold := true)
  }

  function MergedSlot(this_: map<Word, Slot>, other: map<Word, Slot>, key: Word): Slot
    requires key in this_ || key in other
  {
    if key !in other then this_[key]
    else if key in this_ then this_[key].(present := other[key].present)
    else ColdSlot(other[key])
  }

  function MergedStorage(this_: map<Word, Slot>, other: map<Word, Slot>): map<Word, Slot> {
    map key | key in this_.Keys + other.Keys :: MergedSlot(this_, other, key)
  }

  /** An account the base state does not have arrives cold, with cold slots and no transaction-local flags. */
  function Arrived(account: Account): Account {
    Account(account.info, account.status - LOCAL_FLAGS + {Cold}, map key | key in account.storage :: ColdSlot(account.storage[key]))
  }

  function MergedAccount(this_: Account, other: Account, mergeStatus: bool): Account {
    Account(other.info, if mergeStatus then MergedStatus(this_.status, other.status) else this_.status,
            MergedStorage(this_.storage, other.storage))
  }

  function MergedAt(this_: Option<Account>, other: Option<Account>, mergeStatus: bool): (merged: Option<Account>)
    ensures merged.Some? <==> this_.Some? || other.Some?
  {
    match other
    case None => this_
    case Some(account) =>
      if IsSelfDestructed(account) then Some(EmptyAccount(this_.Some? ==> IsCold(this_.value)))
      else if this_.Some? then Some(MergedAccount(this_.value, account, mergeStatus))
      else Some(Arrived(account))
  }

  function At(state: AccountMap, a: Location): Option<Account> {
    if a in state then Some(state[a]) else None
  }

  /** Account by account, in no order. */
  function Merged(this_: AccountMap, other: AccountMap, mergeStatus: bool): AccountMap {
    map a: Location | a in this_.Keys + other.Keys :: MergedAt(At(this_, a), At(other, a), mergeStatus).value
  }

  lemma NothingMerged(base: Option<Account>, mergeStatus: bool)
    ensures MergedAt(base, None, mergeStatus) == base
  {
  }

  lemma MergedIsPointwise(this_: AccountMap, other: AccountMap, mergeStatus: bool, a: Location)
    ensures At(Merged(this_, other, mergeStatus), a) == MergedAt(At(this_, a), At(other, a), mergeStatus)
  {
  }

  // ---------------------------------------------------------------------------------------------
  // Associativity
  // ---------------------------------------------------------------------------------------------

  lemma StorageAssociates(a: map<Word, Slot>, b: map<Word, Slot>, c: map<Word, Slot>)
    ensures MergedStorage(MergedStorage(a, b), c) == MergedStorage(a, MergedStorage(b, c))
  {
  }

  lemma StatusAssociates(a: AccountStatus, b: AccountStatus, c: AccountStatus)
    requires SelfDestructed !in b && SelfDestructed !in c
    ensures MergedStatus(MergedStatus(a, b), c) == MergedStatus(a, MergedStatus(b, c))
  {
  }

  lemma ArrivedAssociates(b: Account, c: Account, mergeStatus: bool)
    requires !IsSelfDestructed(b) && !IsSelfDestructed(c)
    ensures MergedAccount(Arrived(b), c, mergeStatus) == Arrived(MergedAccount(b, c, mergeStatus))
  {
    hide MergedSlot;
    var left, right := MergedAccount(Arrived(b), c, mergeStatus), Arrived(MergedAccount(b, c, mergeStatus));
    assert left.status == right.status;
    assert left.storage == right.storage by {
      forall key | key in left.storage ensures key in right.storage && left.storage[key] == right.storage[key] {
        ArrivedSlot(b.storage, c.storage, key);
      }
    }
  }

  lemma ArrivedSlot(b: map<Word, Slot>, c: map<Word, Slot>, key: Word)
    requires key in b || key in c
    ensures MergedSlot((map k | k in b :: ColdSlot(b[k])), c, key) == ColdSlot(MergedSlot(b, c, key))
  {
  }

  /** Whether merging an account that was then destroyed leaves what the account destroyed alone would. */
  predicate Clean(account: Account, mergeStatus: bool) {
    && account.storage == map[]
    && account.status - {Cold} == if mergeStatus then account.status * {Touched} else {Touched}
  }

  /** An account that a merge leaves as if it were not there: no info, no slot and no flag but being touched. */
  predicate Blank(account: Account, mergeStatus: bool) {
    && account.info == NO_ACCOUNT && account.storage == map[]
    && (mergeStatus ==> account.status - LOCAL_FLAGS <= {Touched})
  }

  /** What the base state has of an account; an absent one has no slot and counts as cold. */
  function BaseStorage(a: Option<Account>): map<Word, Slot> {
    if a.Some? then a.value.storage else map[]
  }

  function BaseStatus(a: Option<Account>): AccountStatus {
    if a.Some? then a.value.status else {Cold}
  }

  /** c has all these slots, with the same originals. */
  predicate SlotsCovered(slots: map<Word, Slot>, c: map<Word, Slot>) {
    forall key :: key in slots ==> key in c && slots[key].original == c[key].original
  }

  /** Nothing of a, or of b that was destroyed, shows through the account c created anew. */
  predicate Covered(a: Option<Account>, b: Account, c: Account) {
    && SlotsCovered(BaseStorage(a), c.storage)
    && (forall key :: key in BaseStorage(a) ==> BaseStorage(a)[key].cold)
    && (forall key :: key in b.storage && key !in BaseStorage(a) ==>
          key in c.storage && b.storage[key].original == c.storage[key].original)
    && (BaseStatus(a) - {SelfDestructed, Cold}) + (b.status - {SelfDestructed} - LOCAL_FLAGS) <= {Touched} + (c.status - LOCAL_FLAGS)
    && Touched in BaseStatus(a) + b.status + c.status
  }

  /** When merging the account one by one and merging b and c first agree. */
  predicate Associates(a: Option<Account>, b: Option<Account>, c: Option<Account>, mergeStatus: bool) {
    if c.None? then true
    else if IsSelfDestructed(c.value) then a.Some? ==> Clean(a.value, mergeStatus)
    else if b.None? || !IsSelfDestructed(b.value) then true
    else if mergeStatus && Created in c.value.status then Covered(a, b.value, c.value)
    else Blank(c.value, mergeStatus)
  }

  lemma AccountAssociates(a: Option<Account>, b: Option<Account>, c: Option<Account>, mergeStatus: bool)
    ensures MergedAt(MergedAt(a, b, mergeStatus), c, mergeStatus) == MergedAt(a, MergedAt(b, c, mergeStatus), mergeStatus)
       <==> Associates(a, b, c, mergeStatus)
  {
    hide MergedStorage, Clean, Covered, Blank;
    if c.Some? && IsSelfDestructed(c.value) {
      DestroyedAssociates(a, b, c.value, mergeStatus);
    } else if b.Some? && c.Some? && IsSelfDestructed(b.value) {
      if mergeStatus && Created in c.value.status {
        RecreatedAssociates(a, b.value, c.value);
      } else {
        LostAssociates(a, b.value, c.value, mergeStatus);
      }
    } else if b.Some? && c.Some? {
      if a.Some? {
        StorageAssociates(a.value.storage, b.value.storage, c.value.storage);
        StatusAssociates(a.value.status, b.value.status, c.value.status);
      } else {
        ArrivedAssociates(b.value, c.value, mergeStatus);
      }
    } else if c.Some? {
      ArrivingTwice(a, c.value, mergeStatus);
    }
  }

  /** Not created anew, c is lost with the destroyed account when b and c are merged first. */
  lemma LostAssociates(a: Option<Account>, b: Account, c: Account, mergeStatus: bool)
    requires IsSelfDestructed(b) && !IsSelfDestructed(c) && !(mergeStatus && Created in c.status)
    ensures MergedAt(MergedAt(a, Some(b), mergeStatus), Some(c), mergeStatus)
            == MergedAt(a, MergedAt(Some(b), Some(c), mergeStatus), mergeStatus)
       <==> Blank(c, mergeStatus)
  {
    var empty := MergedAt(a, Some(b), mergeStatus).value;
    var left := MergedAt(Some(empty), Some(c), mergeStatus).value;
    var right := MergedAt(a, MergedAt(Some(b), Some(c), mergeStatus), mergeStatus).value;
    assert right == empty;
    assert left.storage.Keys == c.storage.Keys;
    assert left.storage == map[] <==> c.storage == map[];
    if mergeStatus {
      assert left.status == empty.status + (c.status - LOCAL_FLAGS);
      assert left.status == empty.status <==> c.status - LOCAL_FLAGS <= {Touched} by {
        assert empty.status - {Cold} == {Touched};
      }
    }
  }

  /** Created anew, c is what both groupings make of it unless something older shows through. */
  lemma RecreatedAssociates(a: Option<Account>, b: Account, c: Account)
    requires IsSelfDestructed(b) && !IsSelfDestructed(c) && Created in c.status
    ensures MergedAt(MergedAt(a, Some(b), true), Some(c), true) == MergedAt(a, MergedAt(Some(b), Some(c), true), true)
       <==> Covered(a, b, c)
  {
    hide MergedStorage;
    var left := MergedAt(MergedAt(a, Some(b), true), Some(c), true).value;
    var both := MergedAt(Some(b), Some(c), true).value;
    var right := MergedAt(a, Some(both), true).value;
    RecreatedStatus(BaseStatus(a), b.status, c.status);
    RecreatedStorage(BaseStorage(a), b.storage, c.storage);
    assert !IsSelfDestructed(both) && left.info == right.info;
    assert left.status == {Touched} + ColdIf(Cold in BaseStatus(a)) + (c.status - LOCAL_FLAGS);
    assert left.storage == MergedStorage(map[], c.storage);
    ArrivedStorage(both);
    assert right.storage == MergedStorage(BaseStorage(a), both.storage);
    assert right.status == MergedStatus(BaseStatus(a), both.status);
  }

  lemma ArrivedStorage(account: Account)
    ensures Arrived(account).storage == MergedStorage(map[], account.storage)
  {
  }

  lemma RecreatedStorage(a: map<Word, Slot>, b: map<Word, Slot>, c: map<Word, Slot>)
    ensures MergedStorage(map[], c) == MergedStorage(a, MergedStorage(b, c))
       <==> (&& SlotsCovered(a, c)
             && (forall key :: key in a ==> a[key].cold)
             && (forall key :: key in b && key !in a ==> key in c && b[key].original == c[key].original))
  {
    var left, right := MergedStorage(map[], c), MergedStorage(a, MergedStorage(b, c));
    assert left.Keys == c.Keys && right.Keys == a.Keys + b.Keys + c.Keys;
    if left == right {
      forall key | key in a ensures key in c && a[key].original == c[key].original && a[key].cold {
        assert key in right;
        assert left[key] == right[key];
      }
      forall key | key in b && key !in a ensures key in c && b[key].original == c[key].original {
        assert key in right;
        assert left[key] == right[key];
      }
    }
  }

  lemma RecreatedStatus(a: AccountStatus, b: AccountStatus, c: AccountStatus)
    requires SelfDestructed in b && SelfDestructed !in c && Created in c
    ensures {Touched} + ColdIf(Cold in a) + (c - LOCAL_FLAGS) == MergedStatus(a, MergedStatus(b, c))
       <==> (&& (a - {SelfDestructed, Cold}) + (b - {SelfDestructed} - LOCAL_FLAGS) <= {Touched} + (c - LOCAL_FLAGS)
             && Touched in a + b + c)
  {
    var left, right := {Touched} + ColdIf(Cold in a) + (c - LOCAL_FLAGS), MergedStatus(a, MergedStatus(b, c));
    assert right == (a - {SelfDestructed}) + (b - {SelfDestructed} - LOCAL_FLAGS) + (c - LOCAL_FLAGS);
    var older := (a - {SelfDestructed, Cold}) + (b - {SelfDestructed} - LOCAL_FLAGS);
    assert right == older + ColdIf(Cold in a) + (c - LOCAL_FLAGS);
    if left == right {
      forall flag | flag in older ensures flag in {Touched} + (c - LOCAL_FLAGS) {
        assert flag in left;
      }
      assert Touched in right;
    }
  }

  lemma ArrivingTwice(a: Option<Account>, c: Account, mergeStatus: bool)
    requires !IsSelfDestructed(c)
    ensures MergedAt(a, Some(Arrived(c)), mergeStatus) == MergedAt(a, Some(c), mergeStatus)
  {
    if a.Some? {
      assert MergedStorage(a.value.storage, Arrived(c).storage) == MergedStorage(a.value.storage, c.storage);
      assert MergedStatus(a.value.status, Arrived(c).status) == MergedStatus(a.value.status, c.status);
    } else {
      assert Arrived(Arrived(c)).status == Arrived(c).status;
      assert Arrived(Arrived(c)).storage == Arrived(c).storage;
    }
  }

  lemma DestroyedAssociates(a: Option<Account>, b: Option<Account>, c: Account, mergeStatus: bool)
    requires IsSelfDestructed(c)
    ensures MergedAt(MergedAt(a, b, mergeStatus), Some(c), mergeStatus)
            == MergedAt(a, MergedAt(b, Some(c), mergeStatus), mergeStatus)
       <==> (a.Some? ==> Clean(a.value, mergeStatus))
  {
    var left := MergedAt(MergedAt(a, b, mergeStatus), Some(c), mergeStatus).value;
    var right := MergedAt(a, MergedAt(b, Some(c), mergeStatus), mergeStatus).value;
    if a.Some? {
      assert MergedStorage(a.value.storage, map[]) == a.value.storage;
      assert right.storage == a.value.storage && right.info == left.info && left.storage == map[];
      assert left.status == {Touched} + ColdIf(IsCold(a.value));
      if mergeStatus {
        assert right.status == a.value.status + {Touched};
      }
      StatusOfDestroyed(a.value.status, mergeStatus);
    } else {
      assert left.status == right.status;
    }
  }

  lemma StatusOfDestroyed(status: AccountStatus, mergeStatus: bool)
    ensures {Touched} + ColdIf(Cold in status) == (if mergeStatus then status + {Touched} else status)
       <==> status - {Cold} == if mergeStatus then status * {Touched} else {Touched}
  {
    var left, right := {Touched} + ColdIf(Cold in status), if mergeStatus then status + {Touched} else status;
    var rest := if mergeStatus then status * {Touched} else {Touched};
    if left == right {
      assert status - {Cold} == rest;
    } else if status - {Cold} == rest {
      forall flag ensures flag in left <==> flag in right {
        assert flag in status - {Cold} <==> flag in rest;
      }
    }
  }

  /**
    Merging is associative exactly when it is so account by account: always where the last state has
    nothing, or neither destroys nor follows a destruction; else when what a destruction erased, or
    what was made after it, does not show.
   */
  lemma MergeAssociates(a: AccountMap, b: AccountMap, c: AccountMap, mergeStatus: bool)
    ensures Merged(Merged(a, b, mergeStatus), c, mergeStatus) == Merged(a, Merged(b, c, mergeStatus), mergeStatus)
       <==> forall x: Location :: Associates(At(a, x), At(b, x), At(c, x), mergeStatus)
  {
    hide MergedAt, Associates;
    var left := Merged(Merged(a, b, mergeStatus), c, mergeStatus);
    var right := Merged(a, Merged(b, c, mergeStatus), mergeStatus);
    forall x: Location
      ensures At(left, x) == At(right, x) <==> Associates(At(a, x), At(b, x), At(c, x), mergeStatus)
    {
      MergedIsPointwise(a, b, mergeStatus, x);
      MergedIsPointwise(b, c, mergeStatus, x);
      MergedIsPointwise(Merged(a, b, mergeStatus), c, mergeStatus, x);
      MergedIsPointwise(a, Merged(b, c, mergeStatus), mergeStatus, x);
      AccountAssociates(At(a, x), At(b, x), At(c, x), mergeStatus);
    }
    assert left == right <==> forall x: Location :: At(left, x) == At(right, x) by {
      if forall x: Location :: At(left, x) == At(right, x) {
        SameAccounts(left, right);
      }
    }
  }

  /** Where the middle state destroys nothing, only accounts the last state destroys and the first one holds matter. */
  lemma MergeAssociatesUndestroyed(a: AccountMap, b: AccountMap, c: AccountMap, mergeStatus: bool)
    requires NothingDestroyed(b)
    ensures Merged(Merged(a, b, mergeStatus), c, mergeStatus) == Merged(a, Merged(b, c, mergeStatus), mergeStatus)
       <==> forall x: Location :: x in a && x in c && IsSelfDestructed(c[x]) ==> Clean(a[x], mergeStatus)
    ensures NothingDestroyed(c) ==>
              Merged(Merged(a, b, mergeStatus), c, mergeStatus) == Merged(a, Merged(b, c, mergeStatus), mergeStatus)
  {
    hide Merged, Clean;
    MergeAssociates(a, b, c, mergeStatus);
    forall x: Location
      ensures Associates(At(a, x), At(b, x), At(c, x), mergeStatus)
         <==> (x in a && x in c && IsSelfDestructed(c[x]) ==> Clean(a[x], mergeStatus))
    {
    }
  }

  lemma SameAccounts(left: AccountMap, right: AccountMap)
    requires forall x: Location :: At(left, x) == At(right, x)
    ensures left == right
  {
    forall x: Location ensures x in left <==> x in right {
      assert At(left, x) == At(right, x);
    }
    forall x: Location | x in left ensures left[x] == right[x] {
      assert At(left, x) == At(right, x);
    }
  }

  /**
    A destruction in the middle breaks it: an account destroyed by b and used, without being created,
    by c is what c says when merged one by one, and empty when b and c are merged first.
   */
  lemma DestroyedInTheMiddle(a: AccountMap, b: AccountMap, c: AccountMap, x: Location)
    requires x in b && IsSelfDestructed(b[x]) && x in c && !IsSelfDestructed(c[x]) && Created !in c[x].status
    ensures Merged(Merged(a, b, true), c, true)[x].info == c[x].info
    ensures Merged(a, Merged(b, c, true), true)[x].info == NO_ACCOUNT
  {
    MergedIsPointwise(a, b, true, x);
    MergedIsPointwise(b, c, true, x);
    MergedIsPointwise(Merged(a, b, true), c, true, x);
    MergedIsPointwise(a, Merged(b, c, true), true, x);
  }

  // ---------------------------------------------------------------------------------------------
  // What a reader of the merged state sees
  // ---------------------------------------------------------------------------------------------

  /** Nothing becomes warm: what the base state had keeps its coldness, what it did not have is cold. */
  lemma ColdnessIsPreserved(this_: AccountMap, other: AccountMap, mergeStatus: bool, a: Location, key: Word)
    ensures var merged := Merged(this_, other, mergeStatus);
            && (a in this_ ==> a in merged && IsCold(merged[a]) == IsCold(this_[a]))
            && (a in merged && a !in this_ ==> IsCold(merged[a]))
            && (a in merged && key in merged[a].storage ==>
                  merged[a].storage[key].cold == !(a in this_ && key in this_[a].storage && !this_[a].storage[key].cold))
  {
    MergedIsPointwise(this_, other, mergeStatus, a);
  }

  /** Merging adds the transaction's slots: the latest present value wins, the earliest original value stays. */
  lemma LatestPresentEarliestOriginal(this_: AccountMap, other: AccountMap, mergeStatus: bool, a: Location, key: Word)
    requires a in other && !IsSelfDestructed(other[a])
    ensures var merged := Merged(this_, other, mergeStatus);
            var had := a in this_ && key in this_[a].storage;
            && a in merged && merged[a].info == other[a].info
            && (key in merged[a].storage <==> had || key in other[a].storage)
            && (key in merged[a].storage ==>
                  && merged[a].storage[key].present
                     == (if key in other[a].storage then other[a].storage[key].present else this_[a].storage[key].present)
                  && merged[a].storage[key].original
                     == (if had then this_[a].storage[key].original else other[a].storage[key].original))
  {
    MergedIsPointwise(this_, other, mergeStatus, a);
  }

  /** What a merge makes of the flags of an account that the transaction did not destroy, flag by flag. */
  lemma FlagsOfMerged(this_: AccountMap, other: AccountMap, mergeStatus: bool, a: Location)
    requires a in other && SelfDestructed !in other[a].status
    ensures a in Merged(this_, other, mergeStatus)
    ensures var status := Merged(this_, other, mergeStatus)[a].status;
            var new_ := other[a].status;
            if a !in this_ then
              && Cold in status && CreatedLocal !in status && SelfDestructedLocal !in status && SelfDestructed !in status
              && (Touched in status <==> Touched in new_) && (Created in status <==> Created in new_)
              && (LoadedAsNotExisting in status <==> LoadedAsNotExisting in new_)
            else
              var old_ := this_[a].status;
              && (Cold in status <==> Cold in old_)
              && (CreatedLocal in status <==> CreatedLocal in old_)
              && (SelfDestructedLocal in status <==> SelfDestructedLocal in old_)
              && (Touched in status <==> Touched in old_ || (mergeStatus && Touched in new_))
              && (Created in status <==> Created in old_ || (mergeStatus && Created in new_))
              && (LoadedAsNotExisting in status <==> LoadedAsNotExisting in old_ || (mergeStatus && LoadedAsNotExisting in new_))
              && (SelfDestructed in status <==> SelfDestructed in old_ && !(mergeStatus && Created in new_))
  {
    MergedIsPointwise(this_, other, mergeStatus, a);
  }

  /** A destroyed account is left empty and touched, with the coldness it had, or cold; what the transaction does not know stays. */
  lemma DestroyedIsEmpty(this_: AccountMap, other: AccountMap, mergeStatus: bool, a: Location)
    ensures a in other && SelfDestructed in other[a].status ==>
              && a in Merged(this_, other, mergeStatus)
              && Merged(this_, other, mergeStatus)[a]
                 == Account(AccountInfo(0, 0, KECCAK_EMPTY, Some(Legacy([]))),
                            if a in this_ && Cold !in this_[a].status then {Touched} else {Touched, Cold}, map[])
    ensures a !in other ==> (a in Merged(this_, other, mergeStatus) <==> a in this_)
    ensures a !in other && a in this_ ==> Merged(this_, other, mergeStatus)[a] == this_[a]
  {
    MergedIsPointwise(this_, other, mergeStatus, a);
    assert {Touched} + {} == {Touched} && {Touched} + {Cold} == {Touched, Cold};
  }
}

/** The merge as the loops that update the base state in place. */
module StateMerge {
  import opened Prelude
  import opened LimitTypes
  import opened Accounts
  import opened MergeState

  /** Base state whose accounts are overwritten in place. */
  class EvmState {
    var accounts: AccountMap

    constructor ()
      ensures accounts == map[]
    {
      accounts := map[];
    }

    /** Visits the accounts of `other` in any order; the outcome is the same for all of them. */
    method Merge(other: AccountMap, mergeStatus: bool)
      requires DestroyedWereCreated(other)
      modifies this
      ensures accounts == Merged(old(accounts), other, mergeStatus)
    {
      hide MergedAt, Merged;
      var pending := other.Keys;
      forall base: Option<Account> {
        NothingMerged(base, mergeStatus);
      }
      while pending != {}
        invariant pending <= other.Keys
        invariant accounts.Keys == old(accounts).Keys + (other.Keys - pending)
        invariant forall a: Location :: At(accounts, a) == Visited(old(accounts), other, mergeStatus, pending, a)
        decreases |pending|
      {
        var address: Location :| address in pending;
        ghost var before, waiting := accounts, pending;
        pending := pending - {address};
        MergeAt(address, other[address], mergeStatus);
        forall a: Location ensures At(accounts, a) == Visited(old(accounts), other, mergeStatus, pending, a) {
          assert At(before, a) == Visited(old(accounts), other, mergeStatus, waiting, a);
        }
      }
      forall a: Location ensures At(accounts, a) == At(Merged(old(accounts), other, mergeStatus), a) {
        MergedIsPointwise(old(accounts), other, mergeStatus, a);
      }
      SameAccounts(accounts, Merged(old(accounts), other, mergeStatus));
    }

    /** One account of the transaction's state. */
    method MergeAt(address: Location, account: Account, mergeStatus: bool)
      requires IsSelfDestructed(account) ==> Created in account.status
      modifies this
      ensures address in accounts
           && accounts == old(accounts)[address := MergedAt(At(old(accounts), address), Some(account), mergeStatus).value]
    {
      if IsSelfDestructed(account) {
        var empty := Account(NO_ACCOUNT, {Touched}, map[]);
        if address in accounts {
          if IsCold(accounts[address]) {
            empty := empty.(status := empty.status + {Cold});
          }
        } else {
          empty := empty.(status := empty.status + {Cold});
        }
        assert empty.status == {Touched} + ColdIf(address in accounts ==> IsCold(accounts[address]));
        accounts := accounts[address := empty];
      } else if address !in accounts {
        var merged := account.(status := account.status + {Cold});
        merged := merged.(storage := map key | key in merged.storage :: merged.storage[key].(cold := true));
        merged := merged.(status := merged.status - {CreatedLocal});
        merged := merged.(status := merged.status - {SelfDestructedLocal});
        assert merged.status == Arrived(account).status && merged.storage == Arrived(account).storage;
        accounts := accounts[address := merged];
      } else {
        var merged := MergeAccountState(accounts[address], account, mergeStatus);
        accounts := accounts[address := merged];
      }
    }
  }

  /** The account of a run of the merge that still has `pending` to visit. */
  ghost function Visited(this_: AccountMap, other: AccountMap, mergeStatus: bool, pending: set<Location>, a: Location)
    : Option<Account>
  {
    if a in pending then At(this_, a) else MergedAt(At(this_, a), At(other, a), mergeStatus)
  }

  method MergeAccountState(this_: Account, other: Account, mergeStatus: bool) returns (merged: Account)
    requires !IsSelfDestructed(other)
    ensures merged == MergedAccount(this_, other, mergeStatus)
  {
    merged := this_.(info := other.info);
    var storage := MergeEvmStorage(merged.storage, other.storage);
    merged := merged.(storage := storage);
    if mergeStatus {
      var status := MergeAccountStatus(merged.status, other.status);
      merged := merged.(status := status);
    }
  }

  method MergeAccountStatus(this_: AccountStatus, other: AccountStatus) returns (status: AccountStatus)
    requires SelfDestructed !in other
    ensures status == MergedStatus(this_, other)
    ensures Cold in status <==> Cold in this_
  {
    var kept := other - {Cold, CreatedLocal, SelfDestructedLocal};
    status := this_;
    if SelfDestructed in status && Created in kept {
      status := status - {SelfDestructed};
    }
    status := status + kept;
  }

  /** The storage of a merge that still has `pending` slots to visit. */
  ghost predicate SlotsVisited(this_: map<Word, Slot>, other: map<Word, Slot>, pending: set<Word>, storage: map<Word, Slot>) {
    && pending <= other.Keys && storage.Keys == this_.Keys + (other.Keys - pending)
    && forall key :: key in storage ==> storage[key] == if key in pending then this_[key] else MergedSlot(this_, other, key)
  }

  lemma SlotVisited(this_: map<Word, Slot>, other: map<Word, Slot>, pending: set<Word>, storage: map<Word, Slot>, key: Word)
    requires SlotsVisited(this_, other, pending, storage) && key in pending
    ensures key in storage <==> key in this_
    ensures key in this_ ==> storage[key] == this_[key]
    ensures SlotsVisited(this_, other, pending - {key}, storage[key := MergedSlot(this_, other, key)])
  {
    hide MergedSlot;
  }

  lemma NoneVisited(this_: map<Word, Slot>, other: map<Word, Slot>)
    ensures SlotsVisited(this_, other, other.Keys, this_)
  {
  }

  lemma AllVisited(this_: map<Word, Slot>, other: map<Word, Slot>, storage: map<Word, Slot>)
    requires SlotsVisited(this_, other, {}, storage)
    ensures storage == MergedStorage(this_, other)
  {
    hide MergedSlot;
    assert storage.Keys == MergedStorage(this_, other).Keys;
  }

  /** Visits the slots of `other` in any order. */
  method MergeEvmStorage(this_: map<Word, Slot>, other: map<Word, Slot>) returns (storage: map<Word, Slot>)
    ensures storage == MergedStorage(this_, other)
  {
    hide SlotsVisited, MergedStorage;
    NoneVisited(this_, other);
    storage := this_;
    var pending := other.Keys;
    while pending != {}
      invariant SlotsVisited(this_, other, pending, storage)
      decreases |pending|
    {
      var key: Word :| key in pending;
      PendingIsOther(this_, other, pending, storage, key);
      SlotVisited(this_, other, pending, storage, key);
      pending := pending - {key};
      if key in storage {
        storage := storage[key := storage[key].(present := other[key].present)];
      } else {
        storage := storage[key := other[key].(cold := true)];
      }
    }
    AllVisited(this_, other, storage);
  }

  lemma PendingIsOther(this_: map<Word, Slot>, other: map<Word, Slot>, pending: set<Word>, storage: map<Word, Slot>, key: Word)
    requires SlotsVisited(this_, other, pending, storage) && key in pending
    ensures key in other
  {
  }
}

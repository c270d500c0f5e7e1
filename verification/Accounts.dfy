/** Accounts and storage slots as the journal and the state merge hold them. */
module Accounts {
  import opened Prelude
  import opened LimitTypes

  const ADDRESS_COUNT: nat := 0x1_0000_0000_0000_0000_0000_0000_0000_0000_0000_0000
  const KECCAK_EMPTY: nat := 0xc5d2460186f7233c927e7db2dcc703c0e500b653ca82273b7bfad8045d85a470

  /** Addresses have 20 bytes; that there are finitely many is what ends the delegation walk. */
  type Location = n: nat | n < ADDRESS_COUNT

  /** A delegation indicator (EIP-7702) is code that names another address. */
  datatype Code = Legacy(bytes: seq<nat>) | Eip7702(target: Location)

  datatype AccountInfo = AccountInfo(balance: nat, nonce: nat, codeHash: nat, code: Option<Code>)

  const NO_ACCOUNT := AccountInfo(0, 0, KECCAK_EMPTY, Some(Legacy([])))

  datatype Flag =
    | Created
    | SelfDestructed
    | Touched
    | LoadedAsNotExisting
    | Cold
    | CreatedLocal
    | SelfDestructedLocal

  type AccountStatus = set<Flag>

  datatype Slot = Slot(original: Word, present: Word, cold: bool)

  datatype Account = Account(info: AccountInfo, status: AccountStatus, storage: map<Word, Slot>)

  type AccountMap = map<Location, Account>

  predicate IsCold(account: Account) {
    Cold in account.status
  }
}

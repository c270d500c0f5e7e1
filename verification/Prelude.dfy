/** Small vocabulary shared by every module: options, results and the u64 arithmetic of the source. */
module Prelude {
  datatype Option<+T> = None | Some(value: T)

  datatype Result<+T, +E> = Ok(value: T) | Err(error: E)

  const U64_MAX: nat := 0xFFFF_FFFF_FFFF_FFFF

  type u64 = n: nat | n <= U64_MAX

  /** `u64::saturating_sub`. */
  function SatSub(a: nat, b: nat): nat {
    if a <= b then 0 else a - b
  }

  /** `u64::saturating_add`. */
  function SatAdd(a: nat, b: nat): nat {
    Min(a + b, U64_MAX)
  }

  function Min(a: nat, b: nat): nat {
    if a <= b then a else b
  }

  function Pow(base: nat, exponent: nat): nat {
    if exponent == 0 then 1 else base * Pow(base, exponent - 1)
  }
}

/** The vocabulary of the resource limits: spec versions, limit checks and hook inputs. */
module LimitTypes {
  datatype MegaSpecId = Equivalence | MiniRex | Rex | Rex1 | Rex2 | Rex3 | Rex4 {
    function Rank(): nat {
      match this
      case Equivalence => 0
      case MiniRex => 1
      case Rex => 2
      case Rex1 => 3
      case Rex2 => 4
      case Rex3 => 5
      case Rex4 => 6
    }

    /** A later version includes every earlier one. */
    predicate IsEnabled(other: MegaSpecId) {
      other.Rank() <= Rank()
    }
  }

  datatype LimitKind = DataSize | KVUpdate | ComputeGas | StateGrowth

  datatype LimitCheck = WithinLimit | ExceedsLimit(kind: LimitKind, limit: nat, used: nat, frameLocal: bool) {
    predicate IsFrameLocal() {
      ExceedsLimit? && frameLocal
    }

    predicate IsTxLevel() {
      ExceedsLimit? && !frameLocal
    }
  }

  type Address = nat
  type Word = nat

  /** The three values an SSTORE sees: at transaction start, before the write, and the written one. */
  datatype SStoreResult = SStoreResult(original: Word, present: Word, new_: Word)

  /**
    What the trackers read of a pending call or create. `targetEmpty` is the journal's answer to
    whether the (delegated) target of a call is an empty account.
   */
  datatype FrameInput =
    | Call(target: Address, transfersValue: bool, targetEmpty: bool)
    | Create

  /** What the trackers read of a transaction; an authorization is `true` when its authority was recovered. */
  datatype Transaction = Transaction(inputLength: nat, accessListSize: nat, authorizations: seq<bool>)
}

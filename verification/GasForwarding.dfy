/** The 98/100 rule for the gas a call or create forwards (forward_gas_ext in evm/instructions.rs). */
module GasForwarding {
  import opened Prelude

  const CALL_STIPEND: nat := 2300

  datatype Action =
    | NoFrame
    | NewCall(gasLimit: u64)
    | NewCreate(gasLimit: u64)

  /** The parent's interpreter: its gas and the frame its last opcode asks for. */
  class Interpreter {
    var remaining: u64
    var action: Action

    constructor (gas: u64)
      ensures remaining == gas && action == NoFrame
    {
      remaining := gas;
      action := NoFrame;
    }

    /** revm's own opcode: forwards at most all but one 64th (EIP-150), then adds the stipend of a transfer. */
    method Inner(isCreate: bool, requested: nat, transfers: bool)
      requires !(isCreate && transfers)
      modifies this
      ensures action == if isCreate then NewCreate(AllButOne64th(old(remaining), U64_MAX))
                        else NewCall(AllButOne64th(old(remaining), requested) + if transfers then CALL_STIPEND else 0)
      ensures remaining == old(remaining) - AllButOne64th(old(remaining), if isCreate then U64_MAX else requested)
      ensures remaining >= old(remaining) / 64
      ensures isCreate || requested > old(remaining) - old(remaining) / 64 ==> remaining == old(remaining) / 64
      ensures !isCreate && requested <= old(remaining) - old(remaining) / 64 ==> remaining == old(remaining) - requested
    {
      var forwarded: u64 := if isCreate || remaining - remaining / 64 < requested then remaining - remaining / 64 else requested;
      remaining := remaining - forwarded;
      if isCreate {
        action := NewCreate(forwarded);
      } else {
        action := NewCall(SatAdd(forwarded, if transfers then CALL_STIPEND else 0));
      }
    }

    /**
      Computed in u128 and narrowed to u64. Parent and child share the same gas as before, the
      stipend apart; the child gets no more than before, and less only as far as it takes to leave
      the parent exactly its two hundredths.
     */
    method WrapGasCap(hasTransfer: bool)
      requires action.NewCall? && hasTransfer ==> action.gasLimit >= CALL_STIPEND
      requires action != NoFrame ==> remaining + Forwarded(action, hasTransfer) <= U64_MAX
      modifies this
      ensures action.NoFrame? == old(action).NoFrame? && action.NewCall? == old(action).NewCall?
      ensures old(action) == NoFrame ==> remaining == old(remaining)
      ensures old(action) != NoFrame ==>
                var total := old(remaining + Forwarded(action, hasTransfer));
                && action.gasLimit - StipendOf(action, hasTransfer) >= 0
                && remaining + Forwarded(action, hasTransfer) == total
                && Forwarded(action, hasTransfer) <= old(Forwarded(action, hasTransfer))
                && remaining >= total * 2 / 100
                && (Forwarded(action, hasTransfer) < old(Forwarded(action, hasTransfer)) ==> remaining == total * 2 / 100)
    {
      hide Narrow;
      match action
      case NewCall(childGas) =>
        var stipend := if hasTransfer then CALL_STIPEND else 0;
        var forwarded := childGas - stipend;
        var parentOriginal := remaining + forwarded;
        var cap := parentOriginal - parentOriginal * 2 / 100;
        var capped := Min(forwarded, cap);
        var toReturn := forwarded - capped;
        ShareArithmetic(parentOriginal, remaining, forwarded);
        NothingLost(toReturn);
        NothingLost(capped + stipend);
        remaining := remaining + Narrow(toReturn);
        action := NewCall(Narrow(capped + stipend));
      case NewCreate(childGas) =>
        var forwarded := childGas;
        var parentOriginal := remaining + forwarded;
        var cap := parentOriginal - parentOriginal * 2 / 100;
        var capped := Min(forwarded, cap);
        var toReturn := forwarded - capped;
        ShareArithmetic(parentOriginal, remaining, forwarded);
        NothingLost(toReturn);
        NothingLost(capped);
        remaining := remaining + Narrow(toReturn);
        action := NewCreate(Narrow(capped));
      case NoFrame =>
    }

    /** The wrapped opcode: what of the parent's gas the child may have. */
    method Forward(isCreate: bool, requested: nat, transfers: bool)
      requires !(isCreate && transfers)
      modifies this
      ensures action != NoFrame && remaining + Forwarded(action, transfers) == old(remaining)
      ensures Forwarded(action, transfers) == Child(old(remaining), if isCreate then U64_MAX else requested)
      ensures action.gasLimit == Forwarded(action, transfers) + if transfers then CALL_STIPEND else 0
      ensures var share := old(remaining) - old(remaining) * 2 / 100;
              var child := if isCreate || requested > share then share else requested;
              && remaining == old(remaining) - child
              && action == if isCreate then NewCreate(child) else NewCall(child + if transfers then 2300 else 0)
    {
      Inner(isCreate, requested, transfers);
      WrapGasCap(transfers);
    }
  }

  /** `as u64`. */
  function Narrow(n: nat): u64 {
    n % (U64_MAX + 1)
  }

  lemma NothingLost(n: nat)
    requires n <= U64_MAX
    ensures Narrow(n) == n
  {
  }

  lemma ShareArithmetic(total: nat, remaining: nat, forwarded: nat)
    requires total == remaining + forwarded
    ensures var kept := total * 2 / 100; var capped := Min(forwarded, total - kept);
            && 0 <= kept <= total
            && remaining + (forwarded - capped) == total - capped >= kept
            && (capped < forwarded ==> remaining + (forwarded - capped) == kept)
  {
  }

  function StipendOf(action: Action, hasTransfer: bool): nat {
    if action.NewCall? && hasTransfer then CALL_STIPEND else 0
  }

  /** The child's gas that comes from the parent: all but the stipend. */
  function Forwarded(action: Action, hasTransfer: bool): int {
    if action.NoFrame? then 0 else action.gasLimit - StipendOf(action, hasTransfer)
  }

  function AllButOne64th(gas: u64, requested: nat): (forwarded: u64)
    ensures forwarded + CALL_STIPEND <= U64_MAX
  {
    Min(requested, gas - gas / 64)
  }

  /** The parent's share of a frame's gas: what was asked for, up to 98 hundredths. */
  function Child(gas: nat, requested: nat): nat {
    Min(requested, gas - gas * 2 / 100)
  }

  /** The rule only tightens EIP-150. */
  lemma TightensOne64th(gas: u64, requested: nat)
    ensures Child(gas, requested) == Child(gas, AllButOne64th(gas, requested)) <= AllButOne64th(gas, requested)
  {
  }

  // ---------------------------------------------------------------------------------------------
  // Nested calls
  // ---------------------------------------------------------------------------------------------

  /** A frame with this gas, after spending some of it, may open a child with that gas. */
  ghost predicate Opens(gas: nat, child: nat, stipend: nat) {
    exists left: nat, requested: nat {:trigger Child(left, requested)} :: left <= gas && child <= Child(left, requested) + stipend
  }

  ghost predicate Nested(gases: seq<nat>, stipend: nat) {
    gases != [] && forall k :: 0 < k < |gases| ==> Opens(gases[k - 1], gases[k], stipend)
  }

  lemma ChildDecays(gas: nat, child: nat, stipend: nat)
    requires Opens(gas, child, stipend)
    ensures 50 * (child - 49 - 50 * stipend) <= 49 * (gas - 49 - 50 * stipend)
  {
    var left: nat, requested: nat :| left <= gas && child <= Child(left, requested) + stipend;
    assert left * 2 / 100 == left / 50;
  }

  /**
    Gas decays geometrically down nested calls: beyond a constant that covers rounding and the
    stipend of every transfer, each level has at most 49/50 of the one above.
   */
  lemma {:induction false} NestedGasDecays(gases: seq<nat>, stipend: nat)
    requires Nested(gases, stipend)
    ensures var n, floor := |gases| - 1, 49 + 50 * stipend;
            (gases[n] - floor) * Pow(50, n) <= Pow(49, n) * (gases[0] - floor)
  {
    var n, floor := |gases| - 1, 49 + 50 * stipend;
    if n > 0 {
      var above := gases[..n];
      NestedGasDecays(above, stipend);
      assert above[0] == gases[0] && above[n - 1] == gases[n - 1];
      ChildDecays(gases[n - 1], gases[n], stipend);
      Compose(gases[n] - floor, gases[n - 1] - floor, gases[0] - floor, Pow(50, n - 1), Pow(49, n - 1));
    }
  }

  lemma Compose(last: int, above: int, first: int, fifty: nat, fortyNine: nat)
    requires 50 * last <= 49 * above && above * fifty <= fortyNine * first
    ensures last * (50 * fifty) <= (49 * fortyNine) * first
  {
    calc {
      last * (50 * fifty);
      (50 * last) * fifty;
    <= { Scale(50 * last, 49 * above, fifty); }
      (49 * above) * fifty;
      49 * (above * fifty);
    <=
      49 * (fortyNine * first);
      (49 * fortyNine) * first;
    }
  }

  lemma Scale(x: int, y: int, factor: nat)
    requires x <= y
    ensures x * factor <= y * factor
  {
  }

  /** Without transfers, the frame n levels down has at most 0.98^n of the first frame's gas plus 49. */
  lemma WithoutTransfers(gases: seq<nat>)
    requires Nested(gases, 0)
    ensures var n := |gases| - 1; gases[n] * Pow(50, n) <= Pow(49, n) * gases[0] + 49 * Pow(50, n)
  {
    var n, first, last := |gases| - 1, gases[0] as int, gases[|gases| - 1] as int;
    NestedGasDecays(gases, 0);
    calc {
      last * Pow(50, n);
      (last - 49) * Pow(50, n) + 49 * Pow(50, n);
    <=
      Pow(49, n) * (first - 49) + 49 * Pow(50, n);
      Pow(49, n) * first - 49 * Pow(49, n) + 49 * Pow(50, n);
    }
  }
}

/** Blocks: transactions run and commit in any interleaving (block/executor.rs). */
module BlockRuns {
  import opened Prelude
  import opened BlockState

  /** The limiter's counters, the cumulative gas of each receipt, and what was committed. */
  datatype Block = Block(counters: Counters, receipts: seq<u64>, committed: seq<Outcome>)

  const EMPTY_BLOCK := Block(NOTHING_USED, [], [])

  function Commit(l: BlockLimits, b: Block, o: Outcome): Block {
    if Admissible(l, b.counters, o.tx) then
      var counters := Counted(b.counters, o);
      Block(counters, b.receipts + [counters.gas], b.committed + [o])
    else b
  }

  /** The gas a finished block reports. */
  function Finish(b: Block): u64 {
    if b.receipts == [] then 0 else b.receipts[|b.receipts| - 1]
  }

  /** Running only checks and executes; any number of transactions may run before one of them commits. */
  datatype Event = Run(tx: Tx) | CommitOutcome(outcome: Outcome)

  function After(l: BlockLimits, events: seq<Event>): Block {
    if events == [] then EMPTY_BLOCK
    else
      var before := After(l, events[..|events| - 1]);
      match events[|events| - 1]
      case Run(_) => before
      case CommitOutcome(outcome) => Commit(l, before, outcome)
  }

  function Sum(outcomes: seq<Outcome>, r: Resource): nat {
    if outcomes == [] then 0 else Sum(outcomes[..|outcomes| - 1], r) + Amount(outcomes[|outcomes| - 1], r)
  }

  lemma SumOfAppend(outcomes: seq<Outcome>, o: Outcome, r: Resource)
    ensures Sum(outcomes + [o], r) == Sum(outcomes, r) + Amount(o, r)
  {
    assert (outcomes + [o])[..|outcomes|] == outcomes;
  }

  /** What a transaction used carries no counter past 64 bits. */
  predicate CountersFit(c: Counters, o: Outcome) {
    && c.gas + o.gasUsed <= U64_MAX && c.txSize + o.tx.size <= U64_MAX
    && (!o.tx.isDeposit ==> c.daSize + o.tx.daSize <= U64_MAX)
    && c.data + o.dataSize <= U64_MAX && c.kvUpdates + o.kvUpdates <= U64_MAX
    && c.computeGas + o.computeGas <= U64_MAX && c.stateGrowth + o.stateGrowth <= U64_MAX
  }

  /** The gas check speaks for the commit: the transaction kept to the gas it declared, and the sum checked did not wrap. */
  predicate GasCheckHolds(c: Counters, o: Outcome) {
    o.gasUsed <= o.tx.gasLimit && c.gas + o.tx.gasLimit <= U64_MAX
  }

  predicate Bounded(l: BlockLimits, c: Counters, o: Outcome) {
    CountersFit(c, o) && (GasCheckHolds(c, o) || c.gas + o.gasUsed <= l.blockGas)
  }

  /** Every commit that is let in is bounded when it happens; those turned away may be anything. */
  predicate BoundedRun(l: BlockLimits, events: seq<Event>) {
    events == [] ||
    (&& BoundedRun(l, events[..|events| - 1])
     && (events[|events| - 1].CommitOutcome? ==>
           var c, o := After(l, events[..|events| - 1]).counters, events[|events| - 1].outcome;
           Admissible(l, c, o.tx) ==> Bounded(l, c, o)))
  }

  /**
    Counters are sums of what was committed; what is known beforehand is within its limit, and what
    only execution reveals was strictly below its limit before the last commit.
   */
  ghost predicate Sound(l: BlockLimits, b: Block) {
    && |b.receipts| == |b.committed|
    && (forall r: Resource :: Used(b.counters, r) == Sum(b.committed, r))
    && (forall r: Resource :: r.KnownBeforehand() ==> Used(b.counters, r) <= BlockLimit(l, r))
    && (forall r: Resource :: !r.KnownBeforehand() && b.committed != [] ==>
          Sum(b.committed[..|b.committed| - 1], r) < BlockLimit(l, r))
    && (forall k :: 0 <= k < |b.receipts| ==> b.receipts[k] == Sum(b.committed[..k + 1], Gas))
  }

  lemma CommitAdds(l: BlockLimits, c: Counters, o: Outcome, r: Resource)
    requires Admissible(l, c, o.tx) && Bounded(l, c, o)
    requires r.KnownBeforehand() ==> Used(c, r) <= BlockLimit(l, r)
    ensures Used(Counted(c, o), r) == Used(c, r) + Amount(o, r)
    ensures r.KnownBeforehand() ==> Used(Counted(c, o), r) <= BlockLimit(l, r)
    ensures !r.KnownBeforehand() ==> Used(c, r) < BlockLimit(l, r)
  {
    hide Add;
    AddsUp(Used(c, r), Amount(o, r));
    AddsUp(c.gas, o.tx.gasLimit);
    AddsUp(o.tx.size, c.txSize);
    if !o.tx.isDeposit {
      AddsUp(o.tx.daSize, c.daSize);
    }
    CountedByResource(c, o, r);
  }

  lemma BoundedCommitIsSound(l: BlockLimits, b: Block, o: Outcome)
    requires Sound(l, b) && Admissible(l, b.counters, o.tx) && Bounded(l, b.counters, o)
    ensures Sound(l, Commit(l, b, o))
  {
    var next := Commit(l, b, o);
    hide Admissible, Bounded, Counted, Sum;
    forall r: Resource
      ensures Used(next.counters, r) == Sum(next.committed, r)
      ensures r.KnownBeforehand() ==> Used(next.counters, r) <= BlockLimit(l, r)
      ensures !r.KnownBeforehand() ==> Sum(b.committed, r) < BlockLimit(l, r)
    {
      CommitAdds(l, b.counters, o, r);
      SumOfAppend(b.committed, o, r);
    }
    var n := |b.committed|;
    assert next.committed[..n] == b.committed && next.committed[..n + 1] == next.committed;
    assert Used(next.counters, Gas) == next.counters.gas;
    forall k | 0 <= k < n ensures next.receipts[k] == Sum(next.committed[..k + 1], Gas) {
      assert next.committed[..k + 1] == b.committed[..k + 1];
    }
  }

  /** A commit that carries any counter past 64 bits leaves the block unsound. */
  lemma WrappingIsUnsound(l: BlockLimits, b: Block, o: Outcome, r: Resource)
    requires Sound(l, b) && Admissible(l, b.counters, o.tx) && Used(b.counters, r) + Amount(o, r) > U64_MAX
    ensures !Sound(l, Commit(l, b, o))
  {
    hide Admissible, Counted, Sum, Add;
    CountedByResource(b.counters, o, r);
    AddsUp(Used(b.counters, r), Amount(o, r));
    SumOfAppend(b.committed, o, r);
  }

  /** A commit that is let in keeps the block sound exactly when it is bounded. */
  lemma CommitIsSound(l: BlockLimits, b: Block, o: Outcome)
    requires Sound(l, b) && Admissible(l, b.counters, o.tx)
    ensures Sound(l, Commit(l, b, o)) <==> Bounded(l, b.counters, o)
  {
    if Bounded(l, b.counters, o) {
      BoundedCommitIsSound(l, b, o);
    } else if CountersFit(b.counters, o) {
      hide Admissible, Sum, Add;
      AddsUp(b.counters.gas, o.gasUsed);
      assert Used(Commit(l, b, o).counters, Gas) > BlockLimit(l, Gas);
    } else {
      hide Sound, Admissible;
      var r := if b.counters.gas + o.gasUsed > U64_MAX then Gas
               else if b.counters.txSize + o.tx.size > U64_MAX then TxSize
               else if !o.tx.isDeposit && b.counters.daSize + o.tx.daSize > U64_MAX then DaSize
               else if b.counters.data + o.dataSize > U64_MAX then Data
               else if b.counters.kvUpdates + o.kvUpdates > U64_MAX then KvUpdates
               else if b.counters.computeGas + o.computeGas > U64_MAX then ComputeGas
               else StateGrowth;
      WrappingIsUnsound(l, b, o, r);
    }
  }

  /** Every interleaving of runs and commits keeps the block sound all along exactly when its admitted commits are bounded. */
  lemma {:induction false} BlocksAreSound(l: BlockLimits, events: seq<Event>)
    ensures BoundedRun(l, events) <==> forall n :: 0 <= n <= |events| ==> Sound(l, After(l, events[..n]))
  {
    hide Sound, Bounded, Admissible;
    if events == [] {
      EmptyIsSound(l);
    } else {
      var n, before := |events| - 1, events[..|events| - 1];
      BlocksAreSound(l, before);
      forall i | 0 <= i <= n ensures before[..i] == events[..i] {
      }
      assert before[..n] == before && events[..n + 1] == events;
      var b := After(l, before);
      if BoundedRun(l, before) && events[n].CommitOutcome? && Admissible(l, b.counters, events[n].outcome.tx) {
        assert Sound(l, After(l, before[..n]));
        CommitIsSound(l, b, events[n].outcome);
      }
      if forall i :: 0 <= i <= n + 1 ==> Sound(l, After(l, events[..i])) {
        assert forall i :: 0 <= i <= n ==> Sound(l, After(l, before[..i]));
        assert Sound(l, After(l, events[..n + 1]));
      }
    }
  }

  lemma EmptyIsSound(l: BlockLimits)
    ensures Sound(l, EMPTY_BLOCK)
  {
  }

  /** The gas a block reports is the gas its transactions used, and the gas it says is available is what is left. */
  lemma FinishReportsCommittedGas(l: BlockLimits, events: seq<Event>)
    requires BoundedRun(l, events)
    ensures Finish(After(l, events)) == Sum(After(l, events).committed, Gas) <= l.blockGas
    ensures Sub(l.blockGas, After(l, events).counters.gas) == l.blockGas - After(l, events).counters.gas
  {
    BlocksAreSound(l, events);
    assert events[..|events|] == events;
    var b := After(l, events);
    assert Used(b.counters, Gas) == b.counters.gas && BlockLimit(l, Gas) == l.blockGas;
    Subtracts(l.blockGas, b.counters.gas);
    if b.receipts != [] {
      assert b.committed[..|b.committed|] == b.committed;
    }
  }

  // ---------------------------------------------------------------------------------------------
  // Limits that leave room
  // ---------------------------------------------------------------------------------------------

  /** A block's limit plus a transaction's fits 64 bits, for what is known beforehand. */
  predicate Roomy(l: BlockLimits) {
    l.blockGas + l.txGas <= U64_MAX && l.blockTxsEncodeSize + l.txEncodeSize <= U64_MAX && l.blockDaSize + l.txDaSize <= U64_MAX
  }

  /** The EVM never uses more gas than a transaction declares. */
  predicate KeepsToDeclaredGas(events: seq<Event>) {
    forall i :: 0 <= i < |events| && events[i].CommitOutcome? ==> events[i].outcome.gasUsed <= events[i].outcome.tx.gasLimit
  }

  /** Under such limits gas, size and data availability are within their limits after every run, whatever the commits. */
  lemma {:induction false} RoomyLimitsSuffice(l: BlockLimits, events: seq<Event>, r: Resource)
    requires Roomy(l) && KeepsToDeclaredGas(events) && r.KnownBeforehand()
    ensures Used(After(l, events).counters, r) == Sum(After(l, events).committed, r) <= BlockLimit(l, r)
  {
    hide Admissible, Counted, Roomy;
    if events == [] {
      assert Used(NOTHING_USED, r) == 0;
    } else {
      var n, before := |events| - 1, After(l, events[..|events| - 1]);
      RoomyLimitsSuffice(l, events[..n], r);
      assert events[..n + 1] == events;
      if events[n].CommitOutcome? && Admissible(l, before.counters, events[n].outcome.tx) {
        RoomyCommit(l, before.counters, events[n].outcome, r);
        SumOfAppend(before.committed, events[n].outcome, r);
      }
    }
  }

  lemma RoomyCommit(l: BlockLimits, c: Counters, o: Outcome, r: Resource)
    requires Roomy(l) && Admissible(l, c, o.tx) && o.gasUsed <= o.tx.gasLimit
    requires r.KnownBeforehand() && Used(c, r) <= BlockLimit(l, r)
    ensures Used(Counted(c, o), r) == Used(c, r) + Amount(o, r) <= BlockLimit(l, r)
  {
    hide Add;
    AddsUp(Used(c, r), Amount(o, r));
    AddsUp(c.gas, o.tx.gasLimit);
    AddsUp(o.tx.size, c.txSize);
    if !o.tx.isDeposit {
      AddsUp(o.tx.daSize, c.daSize);
    }
    CountedByResource(c, o, r);
  }

  /** Then the block reports the gas it committed without any condition on its commits. */
  lemma {:induction false} RoomyFinish(l: BlockLimits, events: seq<Event>)
    requires Roomy(l) && KeepsToDeclaredGas(events)
    ensures Finish(After(l, events)) == Sum(After(l, events).committed, Gas) <= l.blockGas
    ensures Finish(After(l, events)) == After(l, events).counters.gas
  {
    RoomyLimitsSuffice(l, events, Gas);
    if events != [] {
      RoomyFinish(l, events[..|events| - 1]);
    }
  }

  function SumBy(outcomes: seq<Outcome>, amount: Outcome -> nat): nat {
    if outcomes == [] then 0 else SumBy(outcomes[..|outcomes| - 1], amount) + amount(outcomes[|outcomes| - 1])
  }

  lemma {:induction false} SumIsSumBy(outcomes: seq<Outcome>, r: Resource, amount: Outcome -> nat)
    requires forall o: Outcome :: amount(o) == Amount(o, r)
    ensures Sum(outcomes, r) == SumBy(outcomes, amount)
  {
    if outcomes != [] {
      SumIsSumBy(outcomes[..|outcomes| - 1], r, amount);
    }
  }

  /** The seven counters one by one, and the bounds the block keeps on them. */
  lemma CountersOfSoundBlock(l: BlockLimits, b: Block)
    requires Sound(l, b)
    ensures b.counters.gas == SumBy(b.committed, (o: Outcome) => o.gasUsed) <= l.blockGas
    ensures b.counters.txSize == SumBy(b.committed, (o: Outcome) => o.tx.size) <= l.blockTxsEncodeSize
    ensures b.counters.daSize == SumBy(b.committed, (o: Outcome) => if o.tx.isDeposit then 0 else o.tx.daSize) <= l.blockDaSize
    ensures b.counters.data == SumBy(b.committed, (o: Outcome) => o.dataSize)
    ensures b.counters.kvUpdates == SumBy(b.committed, (o: Outcome) => o.kvUpdates)
    ensures b.counters.computeGas == SumBy(b.committed, (o: Outcome) => o.computeGas)
    ensures b.counters.stateGrowth == SumBy(b.committed, (o: Outcome) => o.stateGrowth)
    ensures b.committed != [] ==>
              var before := b.committed[..|b.committed| - 1];
              && SumBy(before, (o: Outcome) => o.dataSize) < l.blockTxsData
              && SumBy(before, (o: Outcome) => o.kvUpdates) < l.blockKvUpdates
              && SumBy(before, (o: Outcome) => o.computeGas) < l.blockComputeGas
              && SumBy(before, (o: Outcome) => o.stateGrowth) < l.blockStateGrowth
  {
    CounterOfResource(l, b, Gas, (o: Outcome) => o.gasUsed);
    CounterOfResource(l, b, TxSize, (o: Outcome) => o.tx.size);
    CounterOfResource(l, b, DaSize, (o: Outcome) => if o.tx.isDeposit then 0 else o.tx.daSize);
    CounterOfResource(l, b, Data, (o: Outcome) => o.dataSize);
    CounterOfResource(l, b, KvUpdates, (o: Outcome) => o.kvUpdates);
    CounterOfResource(l, b, ComputeGas, (o: Outcome) => o.computeGas);
    CounterOfResource(l, b, StateGrowth, (o: Outcome) => o.stateGrowth);
  }

  lemma CounterOfResource(l: BlockLimits, b: Block, r: Resource, amount: Outcome -> nat)
    requires Sound(l, b) && forall o: Outcome :: amount(o) == Amount(o, r)
    ensures Used(b.counters, r) == SumBy(b.committed, amount)
    ensures r.KnownBeforehand() ==> Used(b.counters, r) <= BlockLimit(l, r)
    ensures !r.KnownBeforehand() && b.committed != [] ==> SumBy(b.committed[..|b.committed| - 1], amount) < BlockLimit(l, r)
  {
    SumIsSumBy(b.committed, r, amount);
    if b.committed != [] {
      SumIsSumBy(b.committed[..|b.committed| - 1], r, amount);
    }
  }

  /**
    While no sum wraps, a transaction is let in exactly when it keeps to the limits of a transaction, the
    block has room for the gas it declares and for its sizes, and no other limit of the block is reached.
   */
  lemma AdmittedExactly(l: BlockLimits, c: Counters, tx: Tx)
    requires c.gas + tx.gasLimit <= U64_MAX && c.txSize + tx.size <= U64_MAX && c.daSize + tx.daSize <= U64_MAX
    ensures Admissible(l, c, tx) <==>
              && tx.gasLimit <= l.txGas && c.gas + tx.gasLimit <= l.blockGas
              && tx.size <= l.txEncodeSize && c.txSize + tx.size <= l.blockTxsEncodeSize
              && (!tx.isDeposit ==> tx.daSize <= l.txDaSize && c.daSize + tx.daSize <= l.blockDaSize)
              && c.data < l.blockTxsData && c.kvUpdates < l.blockKvUpdates
              && c.computeGas < l.blockComputeGas && c.stateGrowth < l.blockStateGrowth
  {
    hide Add;
    AddsUp(c.gas, tx.gasLimit);
    AddsUp(tx.size, c.txSize);
    AddsUp(tx.daSize, c.daSize);
  }

  /** Once execution has revealed that a limit is reached, the block stays as it is. */
  lemma {:induction false} ReachedLimitClosesTheBlock(l: BlockLimits, events: seq<Event>, n: nat)
    requires n <= |events| && !ExecutionOpen(l, After(l, events[..n]).counters)
    ensures After(l, events) == After(l, events[..n])
    decreases |events|
  {
    if n == |events| {
      assert events[..n] == events;
    } else {
      assert events[..|events| - 1][..n] == events[..n];
      ReachedLimitClosesTheBlock(l, events[..|events| - 1], n);
    }
  }

  /** A commit between running and committing can use up what the run was promised; the second check catches it. */
  lemma RunIsNoPromise(l: BlockLimits, b: Block, o: Outcome, other: Outcome)
    requires Admissible(l, b.counters, o.tx) && Admissible(l, b.counters, other.tx)
    requires l.blockGas < b.counters.gas + other.gasUsed + o.tx.gasLimit <= U64_MAX
    ensures Commit(l, Commit(l, b, other), o) == Commit(l, b, other) != b
  {
    hide Add, SizeFits, DaFits, ExecutionOpen;
    AddsUp(b.counters.gas, other.gasUsed);
    AddsUp(b.counters.gas + other.gasUsed, o.tx.gasLimit);
  }

  /**
    Without room above the limits the sums wrap around: in a block with the default, unlimited gas a
    second transaction is let in after the whole gas was used, and the block then reports none.
   */
  lemma UnlimitedBlockWraps(l: BlockLimits, first: Outcome, second: Outcome)
    requires l == BlockLimits(U64_MAX, U64_MAX, U64_MAX, U64_MAX, U64_MAX, U64_MAX, U64_MAX, U64_MAX, U64_MAX, U64_MAX)
    requires first == Outcome(Tx(U64_MAX, 100, 100, false), U64_MAX, 0, 0, 0, 0)
    requires second == Outcome(Tx(1, 100, 100, false), 1, 0, 0, 0, 0)
    ensures var b := Commit(l, Commit(l, EMPTY_BLOCK, first), second);
            b.committed == [first, second] && Finish(b) == 0
  {
    hide Add;
    assert forall a: u64, c: u64 :: a + c <= U64_MAX ==> Add(a, c) == a + c by {
      forall a: u64, c: u64 {
        AddsUp(a, c);
      }
    }
    assert Add(U64_MAX, 1) == 0 by {
      WrapsToZero();
    }
    var one := Commit(l, EMPTY_BLOCK, first);
    assert one.counters == Counters(U64_MAX, 100, 100, 0, 0, 0, 0);
    assert Commit(l, one, second).counters.gas == 0;
  }

  lemma WrapsToZero()
    ensures Add(U64_MAX, 1) == 0
  {
  }
}

/** The block executor: checks before a run, checks again and counts at a commit. */
module BlockExecution {
  import opened Prelude
  import opened BlockState
  import opened BlockLimiting
  import opened BlockRuns

  class MegaBlockExecutor {
    const blockLimiter: BlockLimiter
    var receipts: seq<u64>
    ghost var committed: seq<Outcome>

    ghost function View(): Block
      reads this, blockLimiter
    {
      Block(blockLimiter.View(), receipts, committed)
    }

    constructor (limits: BlockLimits)
      ensures fresh(blockLimiter) && blockLimiter.limits == limits && View() == EMPTY_BLOCK
    {
      blockLimiter := new BlockLimiter(limits);
      receipts := [];
      committed := [];
    }

    /** `executed` is what the EVM makes of the transaction. */
    method RunTransaction(tx: Tx, executed: Outcome) returns (r: Result<Outcome, BlockError>)
      requires executed.tx == tx
      ensures r.Ok? <==> Admissible(blockLimiter.limits, blockLimiter.View(), tx)
      ensures r.Ok? ==> r.value == executed
      ensures r.Err? ==> Explains(r.error, blockLimiter.limits, blockLimiter.View(), tx)
    {
      var check := blockLimiter.PreExecutionCheck(tx);
      if check.Err? {
        return Err(check.error);
      }
      return Ok(executed);
    }

    method CommitTransactionOutcome(outcome: Outcome) returns (r: Result<u64, BlockError>)
      modifies this, blockLimiter
      ensures View() == Commit(blockLimiter.limits, old(View()), outcome)
      ensures r.Ok? <==> Admissible(blockLimiter.limits, old(blockLimiter.View()), outcome.tx)
      ensures r.Ok? ==> r.value == outcome.gasUsed
      ensures r.Err? ==> Explains(r.error, blockLimiter.limits, old(blockLimiter.View()), outcome.tx)
    {
      hide Admissible, Counted, Explains;
      var check := blockLimiter.PreExecutionCheck(outcome.tx);
      if check.Err? {
        return Err(check.error);
      }
      blockLimiter.PostExecutionUpdateRaw(outcome);
      receipts := receipts + [blockLimiter.blockGasUsed];
      committed := committed + [outcome];
      return Ok(outcome.gasUsed);
    }

    method ExecuteWithCommitCondition(tx: Tx, executed: Outcome, shouldCommit: bool) returns (r: Result<Option<u64>, BlockError>)
      requires executed.tx == tx
      modifies this, blockLimiter
      ensures r.Err? <==> !Admissible(blockLimiter.limits, old(blockLimiter.View()), tx)
      ensures r.Ok? ==> r.value == if shouldCommit then Some(executed.gasUsed) else None
      ensures View() == if shouldCommit then Commit(blockLimiter.limits, old(View()), executed) else old(View())
    {
      hide Admissible, Counted, Explains;
      var outcome := RunTransaction(tx, executed);
      if outcome.Err? {
        return Err(outcome.error);
      }
      if shouldCommit {
        var gasUsed := CommitTransactionOutcome(outcome.value);
        match gasUsed
        case Ok(gas) => return Ok(Some(gas));
        case Err(e) => return Err(e);
      }
      return Ok(None);
    }

    method FinishBlock() returns (gasUsed: u64)
      ensures gasUsed == Finish(View())
    {
      gasUsed := if receipts == [] then 0 else receipts[|receipts| - 1];
    }
  }
}

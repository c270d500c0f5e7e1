/** Block-level resource limits: what the limiter counts and when it lets a transaction in (block/limit.rs). */
module BlockState {
  import opened Prelude

  datatype BlockLimits = BlockLimits(
    txGas: u64, blockGas: u64,
    txEncodeSize: u64, blockTxsEncodeSize: u64,
    txDaSize: u64, blockDaSize: u64,
    blockTxsData: u64, blockKvUpdates: u64, blockComputeGas: u64, blockStateGrowth: u64)

  /** The seven block-level counters. */
  datatype Counters = Counters(gas: u64, txSize: u64, daSize: u64, data: u64, kvUpdates: u64, computeGas: u64, stateGrowth: u64)

  const NOTHING_USED := Counters(0, 0, 0, 0, 0, 0, 0)

  datatype Tx = Tx(gasLimit: u64, size: u64, daSize: u64, isDeposit: bool)

  /** What an executed transaction used. */
  datatype Outcome = Outcome(tx: Tx, gasUsed: u64, dataSize: u64, kvUpdates: u64, computeGas: u64, stateGrowth: u64)

  datatype BlockError =
    | TxGasLimit(gasLimit: u64, limit: u64)
    | MoreThanAvailableBlockGas(gasLimit: u64, available: u64)
    | TxEncodeSize(size: u64, limit: u64)
    | BlockEncodeSize(used: u64, size: u64, limit: u64)
    | TxDaSize(daSize: u64, limit: u64)
    | BlockDaSize(used: u64, daSize: u64, limit: u64)
    | BlockData(used: u64, limit: u64)
    | BlockKvUpdates(used: u64, limit: u64)
    | BlockComputeGas(used: u64, limit: u64)
    | BlockStateGrowth(used: u64, limit: u64)

  /** Unchecked u64 addition and subtraction, as a release build does them. */
  function Add(a: u64, b: u64): u64 {
    (a + b) % (U64_MAX + 1)
  }

  function Sub(a: u64, b: u64): u64 {
    (a - b) % (U64_MAX + 1)
  }

  lemma AddsUp(a: u64, b: u64)
    ensures Add(a, b) == a + b <==> a + b <= U64_MAX
    ensures Add(a, b) <= a + b
  {
  }

  lemma Subtracts(a: u64, b: u64)
    ensures Sub(a, b) == a - b <==> b <= a
  {
  }

  // The conditions of the check, in the order of the source; each error names the first that fails.

  predicate GasFits(l: BlockLimits, c: Counters, tx: Tx) {
    tx.gasLimit <= l.txGas && Add(c.gas, tx.gasLimit) <= l.blockGas
  }

  predicate SizeFits(l: BlockLimits, c: Counters, tx: Tx) {
    tx.size <= l.txEncodeSize && Add(tx.size, c.txSize) <= l.blockTxsEncodeSize
  }

  predicate DaFits(l: BlockLimits, c: Counters, tx: Tx) {
    tx.isDeposit || (tx.daSize <= l.txDaSize && Add(tx.daSize, c.daSize) <= l.blockDaSize)
  }

  /** The usages that only execution reveals have not reached their limits yet. */
  predicate ExecutionOpen(l: BlockLimits, c: Counters) {
    && c.data < l.blockTxsData && c.kvUpdates < l.blockKvUpdates
    && c.computeGas < l.blockComputeGas && c.stateGrowth < l.blockStateGrowth
  }

  predicate Admissible(l: BlockLimits, c: Counters, tx: Tx) {
    GasFits(l, c, tx) && SizeFits(l, c, tx) && DaFits(l, c, tx) && ExecutionOpen(l, c)
  }

  /** An error states a violation, and everything the source checks earlier holds. */
  predicate Explains(e: BlockError, l: BlockLimits, c: Counters, tx: Tx) {
    match e
    case TxGasLimit(gasLimit, limit) => gasLimit == tx.gasLimit > limit == l.txGas
    case MoreThanAvailableBlockGas(gasLimit, available) =>
      && gasLimit == tx.gasLimit <= l.txGas && Add(c.gas, tx.gasLimit) > l.blockGas
      && available == Sub(l.blockGas, c.gas)
    case TxEncodeSize(size, limit) => GasFits(l, c, tx) && size == tx.size > limit == l.txEncodeSize
    case BlockEncodeSize(used, size, limit) =>
      && GasFits(l, c, tx) && size == tx.size <= l.txEncodeSize
      && used == c.txSize && limit == l.blockTxsEncodeSize && Add(size, used) > limit
    case TxDaSize(daSize, limit) =>
      GasFits(l, c, tx) && SizeFits(l, c, tx) && !tx.isDeposit && daSize == tx.daSize > limit == l.txDaSize
    case BlockDaSize(used, daSize, limit) =>
      && GasFits(l, c, tx) && SizeFits(l, c, tx) && !tx.isDeposit && daSize == tx.daSize <= l.txDaSize
      && used == c.daSize && limit == l.blockDaSize && Add(daSize, used) > limit
    case BlockData(used, limit) => Fits(l, c, tx) && used == c.data >= limit == l.blockTxsData
    case BlockKvUpdates(used, limit) =>
      Fits(l, c, tx) && c.data < l.blockTxsData && used == c.kvUpdates >= limit == l.blockKvUpdates
    case BlockComputeGas(used, limit) =>
      && Fits(l, c, tx) && c.data < l.blockTxsData && c.kvUpdates < l.blockKvUpdates
      && used == c.computeGas >= limit == l.blockComputeGas
    case BlockStateGrowth(used, limit) =>
      && Fits(l, c, tx) && c.data < l.blockTxsData && c.kvUpdates < l.blockKvUpdates && c.computeGas < l.blockComputeGas
      && used == c.stateGrowth >= limit == l.blockStateGrowth
  }

  predicate Fits(l: BlockLimits, c: Counters, tx: Tx) {
    GasFits(l, c, tx) && SizeFits(l, c, tx) && DaFits(l, c, tx)
  }

  // By resource.

  datatype Resource = Gas | TxSize | DaSize | Data | KvUpdates | ComputeGas | StateGrowth {
    /** Checked against its limit before the transaction is added, not after. */
    predicate KnownBeforehand() {
      Gas? || TxSize? || DaSize?
    }
  }

  function Used(c: Counters, r: Resource): u64 {
    match r
    case Gas => c.gas
    case TxSize => c.txSize
    case DaSize => c.daSize
    case Data => c.data
    case KvUpdates => c.kvUpdates
    case ComputeGas => c.computeGas
    case StateGrowth => c.stateGrowth
  }

  function BlockLimit(l: BlockLimits, r: Resource): u64 {
    match r
    case Gas => l.blockGas
    case TxSize => l.blockTxsEncodeSize
    case DaSize => l.blockDaSize
    case Data => l.blockTxsData
    case KvUpdates => l.blockKvUpdates
    case ComputeGas => l.blockComputeGas
    case StateGrowth => l.blockStateGrowth
  }

  /** What a transaction counts for; deposits are exempt from data availability. */
  function Amount(o: Outcome, r: Resource): u64 {
    match r
    case Gas => o.gasUsed
    case TxSize => o.tx.size
    case DaSize => if o.tx.isDeposit then 0 else o.tx.daSize
    case Data => o.dataSize
    case KvUpdates => o.kvUpdates
    case ComputeGas => o.computeGas
    case StateGrowth => o.stateGrowth
  }

  function Counted(c: Counters, o: Outcome): Counters {
    Counters(Add(c.gas, Amount(o, Gas)), Add(c.txSize, Amount(o, TxSize)), Add(c.daSize, Amount(o, DaSize)),
             Add(c.data, Amount(o, Data)), Add(c.kvUpdates, Amount(o, KvUpdates)),
             Add(c.computeGas, Amount(o, ComputeGas)), Add(c.stateGrowth, Amount(o, StateGrowth)))
  }

  lemma CountedByResource(c: Counters, o: Outcome, r: Resource)
    ensures Used(Counted(c, o), r) == Add(Used(c, r), Amount(o, r))
  {
  }
}

/** The limiter as an object. */
module BlockLimiting {
  import opened Prelude
  import opened BlockState

  class BlockLimiter {
    const limits: BlockLimits
    var blockGasUsed: u64
    var blockTxSizeUsed: u64
    var blockDaSizeUsed: u64
    var blockDataUsed: u64
    var blockKvUpdatesUsed: u64
    var blockComputeGasUsed: u64
    var blockStateGrowthUsed: u64

    ghost function View(): Counters
      reads this
    {
      Counters(blockGasUsed, blockTxSizeUsed, blockDaSizeUsed, blockDataUsed, blockKvUpdatesUsed, blockComputeGasUsed,
               blockStateGrowthUsed)
    }

    constructor (limits: BlockLimits)
      ensures this.limits == limits && View() == NOTHING_USED
    {
      this.limits := limits;
      blockGasUsed, blockTxSizeUsed, blockDaSizeUsed := 0, 0, 0;
      blockDataUsed, blockKvUpdatesUsed, blockComputeGasUsed, blockStateGrowthUsed := 0, 0, 0, 0;
    }

    method PreExecutionCheck(tx: Tx) returns (r: Result<(), BlockError>)
      ensures r.Ok? <==> Admissible(limits, View(), tx)
      ensures r.Err? ==> Explains(r.error, limits, View(), tx)
    {
      hide Add, Sub;
      if tx.gasLimit > limits.txGas {
        return Err(TxGasLimit(tx.gasLimit, limits.txGas));
      }
      if Add(blockGasUsed, tx.gasLimit) > limits.blockGas {
        return Err(MoreThanAvailableBlockGas(tx.gasLimit, Sub(limits.blockGas, blockGasUsed)));
      }
      if tx.size > limits.txEncodeSize {
        return Err(TxEncodeSize(tx.size, limits.txEncodeSize));
      }
      if Add(tx.size, blockTxSizeUsed) > limits.blockTxsEncodeSize {
        return Err(BlockEncodeSize(blockTxSizeUsed, tx.size, limits.blockTxsEncodeSize));
      }
      if !tx.isDeposit {
        if tx.daSize > limits.txDaSize {
          return Err(TxDaSize(tx.daSize, limits.txDaSize));
        }
        if Add(tx.daSize, blockDaSizeUsed) > limits.blockDaSize {
          return Err(BlockDaSize(blockDaSizeUsed, tx.daSize, limits.blockDaSize));
        }
      }
      if blockDataUsed >= limits.blockTxsData {
        return Err(BlockData(blockDataUsed, limits.blockTxsData));
      }
      if blockKvUpdatesUsed >= limits.blockKvUpdates {
        return Err(BlockKvUpdates(blockKvUpdatesUsed, limits.blockKvUpdates));
      }
      if blockComputeGasUsed >= limits.blockComputeGas {
        return Err(BlockComputeGas(blockComputeGasUsed, limits.blockComputeGas));
      }
      if blockStateGrowthUsed >= limits.blockStateGrowth {
        return Err(BlockStateGrowth(blockStateGrowthUsed, limits.blockStateGrowth));
      }
      return Ok(());
    }

    method PostExecutionUpdateRaw(o: Outcome)
      modifies this
      ensures View() == Counted(old(View()), o)
    {
      hide Add;
      blockGasUsed := Add(blockGasUsed, o.gasUsed);
      blockTxSizeUsed := Add(blockTxSizeUsed, o.tx.size);
      if !o.tx.isDeposit {
        blockDaSizeUsed := Add(blockDaSizeUsed, o.tx.daSize);
      } else {
        AddsUp(blockDaSizeUsed, 0);
      }
      blockDataUsed := Add(blockDataUsed, o.dataSize);
      blockKvUpdatesUsed := Add(blockKvUpdatesUsed, o.kvUpdates);
      blockComputeGasUsed := Add(blockComputeGasUsed, o.computeGas);
      blockStateGrowthUsed := Add(blockStateGrowthUsed, o.stateGrowth);
    }

    method IsBlockLimitReached() returns (reached: bool)
      ensures reached <==> exists r: Resource :: Used(View(), r) >= BlockLimit(limits, r)
    {
      reached := blockGasUsed >= limits.blockGas
              || blockTxSizeUsed >= limits.blockTxsEncodeSize
              || blockDaSizeUsed >= limits.blockDaSize
              || blockDataUsed >= limits.blockTxsData
              || blockKvUpdatesUsed >= limits.blockKvUpdates
              || blockComputeGasUsed >= limits.blockComputeGas
              || blockStateGrowthUsed >= limits.blockStateGrowth;
      forall r: Resource ensures Used(View(), r) >= BlockLimit(limits, r) ==> reached {
      }
      assert Used(View(), Gas) == blockGasUsed && Used(View(), TxSize) == blockTxSizeUsed && Used(View(), DaSize) == blockDaSizeUsed;
      assert Used(View(), Data) == blockDataUsed && Used(View(), KvUpdates) == blockKvUpdatesUsed;
      assert Used(View(), ComputeGas) == blockComputeGasUsed && Used(View(), StateGrowth) == blockStateGrowthUsed;
    }
  }
}

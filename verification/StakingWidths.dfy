/**
 Machine widths. The staking and token code computes in u64 and u128; this module
 collects every intermediate value it computes and shows that, in every reachable
 state, none of them leaves its type, so the integers of the model are the code's.
 */
module StakingWidths {
  import opened Prelude
  import opened MapSums
  import opened Arithmetic
  import opened Staking
  import opened StakingSafety
  import T = Token

  predicate FitsU64(x: int) { 0 <= x < U64 }
  predicate FitsU128(x: int) { 0 <= x < U128 }

  /** Everything a settlement computes, up to the narrowing cast of the reward. */
  predicate SettlementFits(p: Position, acc: nat) {
    && FitsU128(p.amount * acc)
    && FitsU128(Unsettled(p, acc))
    && FitsU64(Unsettled(p, acc) / PRECISION)
    && FitsU64(p.pending)
    && FitsU64(p.pending + Unsettled(p, acc) / PRECISION)
  }

  predicate SettlesWithin(pool: Pool, k: Key) {
    k in pool.positions ==> SettlementFits(pool.positions[k], pool.acc)
  }

  /** Every value one call computes stays within its machine type. */
  ghost predicate Fits(c: Config, s: System, op: Op) {
    match op
    case Mint(to, amount) =>
      && FitsU64(s.ledger.supply + amount)
      && (s.ledger.supply + amount <= c.maxSupply ==> FitsU64(T.BalanceOf(s.ledger, to).available + amount))
    case Transfer(from, to, amount) =>
      T.Transferred(s.ledger, from, to, amount).1.Ok? && from != to ==>
        FitsU64(T.BalanceOf(s.ledger, to).available + amount)
    case Distribute(sats) =>
      && FitsU64(TotalStaked(s.pool))
      && (Effective(s.pool, sats) ==>
            && FitsU128(sats * PRECISION)
            && FitsU128(s.pool.acc + Growth(s.pool, sats))
            && FitsU64(s.pool.totalDistributed + sats))
    case Stake(k, amount, _) =>
      && (amount < c.minStake ==> FitsU64(AmountAt(s.pool, k) + amount))
      && (T.Locked(s.ledger, k, amount).1.Ok? ==>
            && FitsU64(T.StakedOf(s.ledger, k) + amount)
            && SettlesWithin(s.pool, k)
            && FitsU64(AmountAt(s.pool, k) + amount)
            && FitsU128((AmountAt(s.pool, k) + amount) * s.pool.acc))
    case Unstake(k, amount, _, _) =>
      k in s.pool.positions && amount <= AmountAt(s.pool, k) ==>
        && SettlesWithin(s.pool, k)
        && FitsU128((AmountAt(s.pool, k) - amount) * s.pool.acc)
        && FitsU64(T.BalanceOf(s.ledger, k).available + amount)
    case Claim(k) => SettlesWithin(s.pool, k)
  }

  /** The operating range: a cap on tokens times rewards that keeps products within u128. */
  predicate InRange(c: Config, distributed: nat) {
    && c.maxSupply + c.minStake < U64
    && distributed < U64
    && c.maxSupply * (distributed * PRECISION) < U128
  }

  /** A cap of a billion units and every satoshi there will ever be are within range. */
  lemma BitcoinIsInRange(c: Config)
    requires c.maxSupply <= 1_000_000_000 && c.minStake <= 1_000_000_000
    ensures InRange(c, 2_100_000_000_000_000)
  {
    MulMono(c.maxSupply, 1_000_000_000, 2_100_000_000_000_000 * PRECISION);
  }

  lemma GrowthBounded(pool: Pool, sats: nat)
    ensures Growth(pool, sats) <= sats * PRECISION
  {
    TotalStakedBounds(pool);
    if TotalStaked(pool) != 0 {
      FloorDiv(sats * PRECISION, TotalStaked(pool));
      MulMono(1, TotalStaked(pool), Growth(pool, sats));
    }
  }

  /** The accumulator never outgrows the scaled total distributed. */
  lemma {:induction false} AccumulatorBounded(c: Config, s: System, ops: seq<Op>)
    requires s.pool.acc <= s.pool.totalDistributed * PRECISION
    ensures Run(c, s, ops).pool.acc <= Run(c, s, ops).pool.totalDistributed * PRECISION
    decreases |ops|
  {
    if ops != [] {
      if ops[0].Distribute? {
        GrowthBounded(s.pool, ops[0].sats);
      }
      AccumulatorBounded(c, Next(c, s, ops[0]), ops[1..]);
    }
  }

  /** What holds of a reachable state and makes its arithmetic fit. */
  ghost predicate Bounded(c: Config, s: System) {
    && Inv(c, s)
    && s.pool.acc <= s.pool.totalDistributed * PRECISION
    && Sum(Claimable(s.pool)) <= s.pool.totalDistributed
  }

  lemma ReachableIsBounded(c: Config, ops: seq<Op>)
    ensures Bounded(c, Run(c, GENESIS, ops))
  {
    GenesisInv(c);
    RunKeepsInv(c, GENESIS, ops);
    AccumulatorBounded(c, GENESIS, ops);
    Solvency(c, ops);
    RunBalances(c, GENESIS, ops);
  }

  lemma ProductFits(c: Config, s: System, amount: nat)
    requires Bounded(c, s) && InRange(c, s.pool.totalDistributed) && amount <= c.maxSupply
    ensures FitsU128(amount * s.pool.acc)
  {
    MulMono(amount, c.maxSupply, s.pool.acc);
    MulMono(s.pool.acc, s.pool.totalDistributed * PRECISION, c.maxSupply);
  }

  lemma SettlementAlwaysFits(c: Config, s: System, k: Key)
    requires Bounded(c, s) && InRange(c, s.pool.totalDistributed)
    ensures SettlesWithin(s.pool, k)
  {
    if k in s.pool.positions {
      var p := s.pool.positions[k];
      assert T.StakedOf(s.ledger, k) == p.amount;
      T.StakesWithinSupply(s.ledger, c.maxSupply);
      ProductFits(c, s, p.amount);
      ClaimableWithinOwed(c, s);
      assert Claimable(s.pool)[k] == p.pending + Unsettled(p, s.pool.acc) / PRECISION;
      FloorDiv(Unsettled(p, s.pool.acc), PRECISION);
    }
  }

  lemma StakedWithinCap(c: Config, s: System)
    requires Inv(c, s)
    ensures TotalStaked(s.pool) <= c.maxSupply
  {
    T.StakesWithinSupply(s.ledger, c.maxSupply);
    var stakes := Only(T.Stakes(s.ledger), s.pool.positions.Keys);
    forall k | k in s.pool.positions
      ensures k in stakes && stakes[k] == Amounts(s.pool)[k]
    {
      assert T.StakedOf(s.ledger, k) == AmountAt(s.pool, k);
    }
    assert stakes == Amounts(s.pool);
    SumSplit(T.Stakes(s.ledger), s.pool.positions.Keys);
    SumBounds(T.Stakes(s.ledger) - s.pool.positions.Keys);
  }

  lemma BalanceWithinCap(c: Config, s: System, k: Key)
    requires Inv(c, s)
    ensures T.BalanceOf(s.ledger, k).Total() <= c.maxSupply
  {
    T.StakesWithinSupply(s.ledger, c.maxSupply);
  }

  lemma DistributeFits(c: Config, s: System, sats: nat)
    requires Bounded(c, s) && InRange(c, Distributed(s.pool, sats).totalDistributed)
    ensures Fits(c, s, Distribute(sats))
  {
    StakedWithinCap(c, s);
    TotalStakedBounds(s.pool);
    if Effective(s.pool, sats) {
      GrowthBounded(s.pool, sats);
      var after := s.pool.totalDistributed + sats;
      MulMono(1, c.maxSupply, after * PRECISION);
    }
  }

  /**
   No overflow, anywhere: in every reachable state within range, every call computes
   within its machine types; a mint does if and only if its amount added to the supply
   fits in 64 bits.
   */
  lemma NoOverflow(c: Config, ops: seq<Op>, op: Op)
    requires var s := Run(c, GENESIS, ops); InRange(c, Next(c, s, op).pool.totalDistributed)
    ensures var s := Run(c, GENESIS, ops);
      Fits(c, s, op) <==> (op.Mint? ==> s.ledger.supply + op.amount < U64)
  {
    var s := Run(c, GENESIS, ops);
    ReachableIsBounded(c, ops);
    match op
    case Mint(to, amount) => BalanceWithinCap(c, s, to); MintFits(c, s, to, amount);
    case Transfer(from, to, amount) => TransferFits(c, s, from, to, amount);
    case Distribute(sats) => DistributeFits(c, s, sats);
    case Stake(k, amount, now) => StakeFits(c, s, k, amount, now);
    case Unstake(k, amount, now, penalty) =>
      SettlementAlwaysFits(c, s, k);
      BalanceWithinCap(c, s, k);
      assert T.StakedOf(s.ledger, k) == AmountAt(s.pool, k);
      if amount <= AmountAt(s.pool, k) {
        ProductFits(c, s, AmountAt(s.pool, k) - amount);
      }
    case Claim(k) => SettlementAlwaysFits(c, s, k);
  }

  lemma MintFits(c: Config, s: System, to: Key, amount: nat)
    requires Inv(c, s) && c.maxSupply < U64
    ensures Fits(c, s, Mint(to, amount)) <==> s.ledger.supply + amount < U64
  {
    T.StakesWithinSupply(s.ledger, c.maxSupply);
  }

  lemma TransferFits(c: Config, s: System, from: Key, to: Key, amount: nat)
    requires Inv(c, s) && c.maxSupply < U64
    ensures Fits(c, s, Transfer(from, to, amount))
  {
    T.TransferConserves(s.ledger, c.maxSupply, from, to, amount);
    T.TransferMoves(s.ledger, from, to, amount, to);
    T.StakesWithinSupply(T.Transferred(s.ledger, from, to, amount).0, c.maxSupply);
  }

  lemma StakeFits(c: Config, s: System, k: Key, amount: nat, now: nat)
    requires Bounded(c, s) && InRange(c, s.pool.totalDistributed)
    ensures Fits(c, s, Stake(k, amount, now))
  {
    SettlementAlwaysFits(c, s, k);
    BalanceWithinCap(c, s, k);
    assert T.StakedOf(s.ledger, k) == AmountAt(s.pool, k);
    if T.Locked(s.ledger, k, amount).1.Ok? {
      ProductFits(c, s, AmountAt(s.pool, k) + amount);
    }
  }
}

/**
 What every run of the staking pool keeps: the books balance to the last scaled
 satoshi, the pool stays solvent, the token ledger and the pool agree, and no machine
 integer overflows.
 */
module StakingSafety {
  import opened Prelude
  import opened MapSums
  import opened Arithmetic
  import opened Staking
  import T = Token

  // ---------- the invariant ----------

  /** Debts never exceed what the accumulator has credited, so settling never underflows. */
  ghost predicate Sound(pool: Pool) {
    forall k :: k in pool.positions ==>
      0 <= Unsettled(pool.positions[k], pool.acc) && 0 <= pool.positions[k].pending
  }

  /** The token's staked balances are the pool's positions. */
  ghost predicate Coupled(s: System) {
    && s.pool.positions.Keys <= s.ledger.balances.Keys
    && forall k :: T.StakedOf(s.ledger, k) == AmountAt(s.pool, k)
  }

  ghost predicate Inv(c: Config, s: System) {
    T.LedgerInv(s.ledger, c.maxSupply) && Coupled(s) && Sound(s.pool)
  }

  lemma SettledOwesNothing(p: Position, acc: nat, amount: nat)
    requires 0 <= Unsettled(p, acc) && 0 <= p.pending
    ensures var q := Resized(Settled(p, acc), amount, acc);
      Unsettled(q, acc) == 0 && p.pending <= q.pending
  {
    FloorDiv(Unsettled(p, acc), PRECISION);
  }

  lemma DistributeSound(pool: Pool, sats: nat)
    requires Sound(pool)
    ensures Sound(Distributed(pool, sats))
  {
    var acc' := Distributed(pool, sats).acc;
    forall k | k in pool.positions
      ensures Unsettled(pool.positions[k], pool.acc) <= Unsettled(pool.positions[k], acc')
    {
      MulMono(pool.acc, acc', pool.positions[k].amount);
    }
  }

  /** Replacing one position and one balance by agreeing ones keeps the two maps in step. */
  lemma CoupledAt(s: System, s': System, k: Key)
    requires Coupled(s)
    requires k in s'.ledger.balances && s'.ledger.balances - {k} == s.ledger.balances - {k}
    requires s'.pool.positions - {k} == s.pool.positions - {k}
    requires T.StakedOf(s'.ledger, k) == AmountAt(s'.pool, k)
    ensures Coupled(s')
  {
    forall j ensures T.StakedOf(s'.ledger, j) == AmountAt(s'.pool, j) {
      if j != k {
        assert T.StakedOf(s.ledger, j) == AmountAt(s.pool, j);
        assert j in s'.ledger.balances <==> j in s'.ledger.balances - {k};
        assert j in s.ledger.balances <==> j in s.ledger.balances - {k};
        assert j in s'.pool.positions <==> j in s'.pool.positions - {k};
        assert j in s.pool.positions <==> j in s.pool.positions - {k};
        assert j in s.ledger.balances ==> (s'.ledger.balances - {k})[j] == (s.ledger.balances - {k})[j];
        assert j in s.pool.positions ==> (s'.pool.positions - {k})[j] == (s.pool.positions - {k})[j];
      }
    }
    forall j | j in s'.pool.positions ensures j in s'.ledger.balances {
      if j != k {
        assert j in s'.pool.positions - {k};
        assert j in s.ledger.balances - {k};
      }
    }
  }

  lemma StakeSound(c: Config, pool: Pool, k: Key, amount: nat, now: nat)
    requires Sound(pool)
    ensures var p := AfterStake(c, pool, k, amount, now);
      Sound(pool.(positions := pool.positions[k := p])) && p.amount == AmountAt(pool, k) + amount
  {
    if k in pool.positions {
      SettledOwesNothing(pool.positions[k], pool.acc, AmountAt(pool, k) + amount);
    }
    assert Unsettled(AfterStake(c, pool, k, amount, now), pool.acc) == 0;
  }

  lemma StakeKeepsInv(c: Config, s: System, k: Key, amount: nat, now: nat)
    requires Inv(c, s)
    ensures Inv(c, DoStake(c, s, k, amount, now).0)
  {
    T.LockConserves(s.ledger, c.maxSupply, k, amount);
    StakeSound(c, s.pool, k, amount, now);
    var s' := DoStake(c, s, k, amount, now).0;
    if s' != s {
      assert T.StakedOf(s.ledger, k) == AmountAt(s.pool, k);
      CoupledAt(s, s', k);
    }
  }

  lemma UnstakeSound(pool: Pool, k: Key, amount: nat)
    requires Sound(pool) && k in pool.positions && amount <= AmountAt(pool, k)
    ensures var pool' := Kept(pool, k, AfterUnstake(pool, k, amount));
      Sound(pool') && AmountAt(pool', k) == AmountAt(pool, k) - amount
  {
    SettledOwesNothing(pool.positions[k], pool.acc, AmountAt(pool, k) - amount);
  }

  /**
   Unstaking is never half done: the token never refuses what the pool has released. It
   returns the full amount, so the reported net amount is what the staker receives exactly
   when no penalty was due.
   */
  lemma UnstakeIsAtomic(c: Config, s: System, k: Key, amount: nat, now: nat, penalty: nat)
    requires Inv(c, s)
    ensures var (s', r) := DoUnstake(s, k, amount, now, penalty);
      && Inv(c, s')
      && (r.Ok? <==> k in s.pool.positions && amount <= AmountAt(s.pool, k))
      && (r.Err? ==> s' == s)
      && (r.Ok? ==>
            && AmountAt(s'.pool, k) == AmountAt(s.pool, k) - amount
            && T.BalanceOf(s'.ledger, k).available == T.BalanceOf(s.ledger, k).available + amount
            && (r.value == amount <==> s.pool.positions[k].unlocksAt <= now || penalty == 0))
  {
    T.LockConserves(s.ledger, c.maxSupply, k, amount);
    assert T.StakedOf(s.ledger, k) == AmountAt(s.pool, k);
    if k in s.pool.positions && amount <= AmountAt(s.pool, k) {
      UnstakeSound(s.pool, k, amount);
      CoupledAt(s, DoUnstake(s, k, amount, now, penalty).0, k);
    }
  }

  lemma ClaimKeepsInv(c: Config, s: System, k: Key)
    requires Inv(c, s)
    ensures Inv(c, DoClaim(s, k).0)
  {
    if k in s.pool.positions {
      SettledOwesNothing(s.pool.positions[k], s.pool.acc, AmountAt(s.pool, k));
    }
  }

  lemma LedgerOpKeepsInv(c: Config, s: System, op: Op)
    requires Inv(c, s) && (op.Mint? || op.Transfer?)
    ensures Inv(c, Next(c, s, op))
  {
    var l' := Next(c, s, op).ledger;
    if op.Mint? {
      T.MintConserves(s.ledger, c.maxSupply, op.to, op.amount);
    } else {
      T.TransferConserves(s.ledger, c.maxSupply, op.from, op.to, op.amount);
    }
    forall k ensures T.StakedOf(l', k) == AmountAt(s.pool, k) {
      assert T.StakedOf(s.ledger, k) == AmountAt(s.pool, k);
      if op.Transfer? {
        T.TransferMoves(s.ledger, op.from, op.to, op.amount, k);
      }
    }
  }

  lemma StepKeepsInv(c: Config, s: System, op: Op)
    requires Inv(c, s)
    ensures Inv(c, Next(c, s, op))
  {
    match op
    case Mint(_, _) => LedgerOpKeepsInv(c, s, op);
    case Transfer(_, _, _) => LedgerOpKeepsInv(c, s, op);
    case Distribute(sats) =>
      DistributeSound(s.pool, sats);
      assert forall k :: AmountAt(Next(c, s, op).pool, k) == AmountAt(s.pool, k);
    case Stake(k, amount, now) => StakeKeepsInv(c, s, k, amount, now);
    case Unstake(k, amount, now, penalty) => UnstakeIsAtomic(c, s, k, amount, now, penalty);
    case Claim(k) => ClaimKeepsInv(c, s, k);
  }

  /** Every reachable state satisfies the invariant. */
  lemma {:induction false} RunKeepsInv(c: Config, s: System, ops: seq<Op>)
    requires Inv(c, s)
    ensures Inv(c, Run(c, s, ops))
    decreases |ops|
  {
    if ops != [] {
      StepKeepsInv(c, s, ops[0]);
      RunKeepsInv(c, Next(c, s, ops[0]), ops[1..]);
    }
  }

  lemma GenesisInv(c: Config)
    ensures Inv(c, GENESIS)
  {
    assert T.Totals(GENESIS.ledger) == map[];
  }

  // ---------- the books of one staker ----------

  /** Scaled satoshis a position is still owed: settled and not yet settled. */
  function Owed(p: Position, acc: nat): int { p.pending * PRECISION + Unsettled(p, acc) }

  function OwedTo(pool: Pool, k: Key): int {
    if k in pool.positions then Owed(pool.positions[k], pool.acc) else 0
  }

  /** Whether a call settles this staker's position. A refused claim does, too. */
  ghost predicate Settles(c: Config, s: System, op: Op, k: Key) {
    match op
    case Stake(j, amount, now) => j == k && AmountAt(s.pool, k) > 0 && DoStake(c, s, j, amount, now).1.Ok?
    case Unstake(j, amount, _, _) => j == k && k in s.pool.positions && amount <= AmountAt(s.pool, k)
    case Claim(j) => j == k && k in s.pool.positions
    case _ => false
  }

  /** Satoshis a call pays out to this staker. */
  ghost function PaidBy(c: Config, s: System, op: Op, k: Key): int {
    if op == Claim(k) && DoClaim(s, k).1.Ok? then DoClaim(s, k).1.value else 0
  }

  /** Scaled satoshis a call credits to this staker. */
  ghost function EarnedBy(s: System, op: Op, k: Key): int {
    if op.Distribute? && op.sats != 0 then AmountAt(s.pool, k) * Growth(s.pool, op.sats) else 0
  }

  /** What rounding a settlement down to whole satoshis takes from this staker. */
  ghost function RoundedOff(c: Config, s: System, op: Op, k: Key): int {
    if Settles(c, s, op, k) then Unsettled(s.pool.positions[k], s.pool.acc) % PRECISION else 0
  }

  lemma SettlingRoundsDown(p: Position, acc: nat, amount: nat)
    ensures Owed(Resized(Settled(p, acc), amount, acc), acc) == Owed(p, acc) - Unsettled(p, acc) % PRECISION
  {
    FloorDiv(Unsettled(p, acc), PRECISION);
  }

  /** What one call leaves this staker short of: owed before and earned, less paid and owed after. */
  ghost function Shortfall(c: Config, s: System, op: Op, k: Key): int {
    OwedTo(s.pool, k) + EarnedBy(s, op, k) - PRECISION * PaidBy(c, s, op, k) - OwedTo(Next(c, s, op).pool, k)
  }

  lemma DistributeShortfall(c: Config, s: System, sats: nat, k: Key)
    ensures Shortfall(c, s, Distribute(sats), k) == 0
  {
    if sats != 0 && k in s.pool.positions {
      var p, d := s.pool.positions[k], Growth(s.pool, sats);
      assert p.amount * (s.pool.acc + d) == p.amount * s.pool.acc + p.amount * d;
    }
  }

  lemma StakeShortfall(c: Config, s: System, j: Key, amount: nat, now: nat, k: Key)
    requires Inv(c, s)
    ensures Shortfall(c, s, Stake(j, amount, now), k) == RoundedOff(c, s, Stake(j, amount, now), k)
  {
    if j == k && k in s.pool.positions {
      SettlingRoundsDown(s.pool.positions[k], s.pool.acc, AmountAt(s.pool, k) + amount);
    }
  }

  lemma UnstakeShortfall(c: Config, s: System, op: Op, k: Key)
    requires op.Unstake?
    ensures Shortfall(c, s, op, k) == RoundedOff(c, s, op, k)
  {
    if op.staker == k && k in s.pool.positions && op.amount <= AmountAt(s.pool, k) {
      SettlingRoundsDown(s.pool.positions[k], s.pool.acc, AmountAt(s.pool, k) - op.amount);
    }
  }

  lemma ClaimShortfall(c: Config, s: System, j: Key, k: Key)
    ensures Shortfall(c, s, Claim(j), k) == RoundedOff(c, s, Claim(j), k)
  {
    if j == k && k in s.pool.positions {
      SettlingRoundsDown(s.pool.positions[k], s.pool.acc, AmountAt(s.pool, k));
    }
  }

  /** One call, one staker: what was owed or newly earned is paid, still owed, or rounded off. */
  lemma StepBalances(c: Config, s: System, op: Op, k: Key)
    requires Inv(c, s)
    ensures OwedTo(Next(c, s, op).pool, k) + PRECISION * PaidBy(c, s, op, k) + RoundedOff(c, s, op, k)
         == OwedTo(s.pool, k) + EarnedBy(s, op, k)
  {
    assert Shortfall(c, s, op, k) == RoundedOff(c, s, op, k) by {
      match op
      case Mint(_, _) =>
      case Transfer(_, _, _) =>
      case Distribute(sats) => DistributeShortfall(c, s, sats, k);
      case Stake(j, amount, now) => StakeShortfall(c, s, j, amount, now, k);
      case Unstake(_, _, _, _) => UnstakeShortfall(c, s, op, k);
      case Claim(j) => ClaimShortfall(c, s, j, k);
    }
  }

  // ---------- the books of the whole pool ----------

  ghost function Debts(pool: Pool): map<Key, int> {
    map k | k in pool.positions :: Owed(pool.positions[k], pool.acc)
  }

  /** Scaled satoshis owed to all stakers together. */
  ghost function TotalOwed(pool: Pool): int { Sum(Debts(pool)) }

  /** What a run has paid, rounded off and settled, and the room its distributions left for rounding. */
  datatype Books = Books(paid: int, dust: int, settlements: int, slack: int) {
    function Plus(b: Books): Books {
      Books(paid + b.paid, dust + b.dust, settlements + b.settlements, slack + b.slack)
    }
  }

  const NO_BOOKS := Books(0, 0, 0, 0)

  ghost predicate Effective(pool: Pool, sats: nat) { sats != 0 && TotalStaked(pool) != 0 }

  ghost function BooksOf(c: Config, s: System, op: Op): Books {
    match op
    case Distribute(sats) =>
      if Effective(s.pool, sats)
      then Books(0, sats * PRECISION % TotalStaked(s.pool), 0, TotalStaked(s.pool) - 1)
      else NO_BOOKS
    case Mint(_, _) => NO_BOOKS
    case Transfer(_, _, _) => NO_BOOKS
    case _ =>
      var k := op.staker;
      Books(PaidBy(c, s, op, k), RoundedOff(c, s, op, k), if Settles(c, s, op, k) then 1 else 0, 0)
  }

  ghost function RunBooks(c: Config, s: System, ops: seq<Op>): Books
    decreases |ops|
  {
    if ops == [] then NO_BOOKS
    else BooksOf(c, s, ops[0]).Plus(RunBooks(c, Next(c, s, ops[0]), ops[1..]))
  }

  lemma DistributionBalances(pool: Pool, sats: nat)
    requires Effective(pool, sats)
    ensures TotalOwed(Distributed(pool, sats)) + sats * PRECISION % TotalStaked(pool)
         == TotalOwed(pool) + PRECISION * sats
  {
    TotalStakedBounds(pool);
    var pool', d := Distributed(pool, sats), Growth(pool, sats);
    forall k | k in pool.positions
      ensures Debts(pool')[k] == Debts(pool)[k] + d * Amounts(pool)[k]
    {
      var p := pool.positions[k];
      assert p.amount * (pool.acc + d) == p.amount * pool.acc + d * p.amount;
    }
    SumLinear(Debts(pool'), Debts(pool), Amounts(pool), d);
    FloorDiv(sats * PRECISION, TotalStaked(pool));
    assert d * TotalStaked(pool) == TotalStaked(pool) * d;
  }

  /** A call that leaves the accumulator alone changes the total by the one position it touches. */
  lemma TotalOwedAt(pool: Pool, pool': Pool, k: Key)
    requires pool'.acc == pool.acc && pool'.positions - {k} == pool.positions - {k}
    ensures TotalOwed(pool') - OwedTo(pool', k) == TotalOwed(pool) - OwedTo(pool, k)
  {
    SumDrop(Debts(pool), k);
    SumDrop(Debts(pool'), k);
    assert Debts(pool) - {k} == map j | j in pool.positions - {k} :: Owed((pool.positions - {k})[j], pool.acc);
    assert Debts(pool') - {k} == map j | j in pool'.positions - {k} :: Owed((pool'.positions - {k})[j], pool.acc);
  }

  lemma StepBooks(c: Config, s: System, op: Op)
    requires Inv(c, s)
    ensures var (s', b) := (Next(c, s, op), BooksOf(c, s, op));
      && TotalOwed(s'.pool) + PRECISION * b.paid + b.dust
      == TotalOwed(s.pool) + PRECISION * (s'.pool.totalDistributed - s.pool.totalDistributed)
      && 0 <= b.paid && 0 <= b.settlements
      && 0 <= b.dust <= b.settlements * (PRECISION - 1) + b.slack
  {
    match op
    case Mint(_, _) =>
    case Transfer(_, _, _) =>
    case Distribute(sats) =>
      if Effective(s.pool, sats) {
        TotalStakedBounds(s.pool);
        DistributionBalances(s.pool, sats);
        FloorDiv(sats * PRECISION, TotalStaked(s.pool));
      }
    case _ =>
      StepBalances(c, s, op, op.staker);
      TotalOwedAt(s.pool, Next(c, s, op).pool, op.staker);
      ClaimsPayPositive(c, s, op);
  }

  lemma ClaimsPayPositive(c: Config, s: System, op: Op)
    requires Inv(c, s) && (op.Stake? || op.Unstake? || op.Claim?)
    ensures 0 <= PaidBy(c, s, op, op.staker)
  {
    if op.Claim? && op.staker in s.pool.positions {
      SettledOwesNothing(s.pool.positions[op.staker], s.pool.acc, AmountAt(s.pool, op.staker));
    }
  }

  /** Over any run every distributed satoshi is paid, owed, or accounted for as rounding. */
  lemma {:induction false} RunBalances(c: Config, s: System, ops: seq<Op>)
    requires Inv(c, s)
    ensures var (s', b) := (Run(c, s, ops), RunBooks(c, s, ops));
      && TotalOwed(s'.pool) + PRECISION * b.paid + b.dust
      == TotalOwed(s.pool) + PRECISION * (s'.pool.totalDistributed - s.pool.totalDistributed)
      && 0 <= b.paid
      && 0 <= b.dust <= b.settlements * (PRECISION - 1) + b.slack
    decreases |ops|
  {
    if ops != [] {
      StepKeepsInv(c, s, ops[0]);
      StepBooks(c, s, ops[0]);
      RunBalances(c, Next(c, s, ops[0]), ops[1..]);
    }
  }

  // ---------- solvency ----------

  /** Whole satoshis a staker would be paid by claiming now. */
  ghost function Claimable(pool: Pool): map<Key, int> {
    map k | k in pool.positions :: Settled(pool.positions[k], pool.acc).pending
  }

  lemma ClaimableWithinOwed(c: Config, s: System)
    requires Inv(c, s)
    ensures PRECISION * Sum(Claimable(s.pool)) <= TotalOwed(s.pool)
    ensures forall k :: k in Claimable(s.pool) ==> 0 <= Claimable(s.pool)[k] <= Sum(Claimable(s.pool))
  {
    var zero := map k | k in s.pool.positions :: 0;
    var scaled := map k | k in s.pool.positions :: PRECISION * Claimable(s.pool)[k];
    forall k | k in s.pool.positions
      ensures 0 <= Claimable(s.pool)[k] && scaled[k] <= Debts(s.pool)[k]
    {
      FloorDiv(Unsettled(s.pool.positions[k], s.pool.acc), PRECISION);
    }
    SumBounds(Claimable(s.pool));
    SumLinear(zero, zero, zero, 1);
    SumLinear(scaled, zero, Claimable(s.pool), PRECISION);
    SumMonotone(scaled, Debts(s.pool));
  }

  /**
   The pool never promises more than it received: in every reachable state the sats
   already claimed and everything claimable now stay within what was distributed,
   and what is missing is rounding, bounded by the settlements and distributions made.
   */
  lemma Solvency(c: Config, ops: seq<Op>)
    ensures var (s, b) := (Run(c, GENESIS, ops), RunBooks(c, GENESIS, ops));
      && b.paid + Sum(Claimable(s.pool)) <= s.pool.totalDistributed
      && PRECISION * b.paid + TotalOwed(s.pool) <= PRECISION * s.pool.totalDistributed
      && PRECISION * s.pool.totalDistributed - (PRECISION * b.paid + TotalOwed(s.pool))
           <= b.settlements * (PRECISION - 1) + b.slack
  {
    GenesisInv(c);
    RunKeepsInv(c, GENESIS, ops);
    RunBalances(c, GENESIS, ops);
    ClaimableWithinOwed(c, Run(c, GENESIS, ops));
    assert TotalOwed(GENESIS.pool) == 0;
  }

  /** Staking, unstaking or claiming never changes what anybody else is owed. */
  lemma OthersUnaffected(c: Config, s: System, op: Op, k: Key)
    requires op.Stake? || op.Unstake? || op.Claim?
    requires k != op.staker
    ensures OwedTo(Next(c, s, op).pool, k) == OwedTo(s.pool, k)
    ensures AmountAt(Next(c, s, op).pool, k) == AmountAt(s.pool, k)
  {}

  /**
   A refused claim forfeits what it found: less than a satoshi was owed, nothing is owed
   afterwards, and the books are untouched exactly when nothing had been earned at all.
   */
  lemma RefusedClaimForfeits(c: Config, s: System, k: Key)
    requires Inv(c, s) && k in s.pool.positions && DoClaim(s, k).1.Err?
    ensures 0 <= OwedTo(s.pool, k) < PRECISION && OwedTo(DoClaim(s, k).0.pool, k) == 0
    ensures DoClaim(s, k).0 == s <==> OwedTo(s.pool, k) == 0
  {
    var p := s.pool.positions[k];
    FloorDiv(Unsettled(p, s.pool.acc), PRECISION);
    if OwedTo(s.pool, k) == 0 {
      assert SettledAt(s.pool, k).(pending := 0) == p;
      assert DoClaim(s, k).0.pool.positions == s.pool.positions;
    }
  }

  /** Apart from the rewards a query shows the position as stored, and none where there is none. */
  lemma QueryShowsThePosition(pool: Pool, k: Key)
    ensures Shown(pool, k).Some? <==> k in pool.positions
    ensures k in pool.positions ==>
      var (shown, p) := (Shown(pool, k).value, pool.positions[k]);
      && shown.staker == p.staker && shown.amount == p.amount && shown.rewardDebt == p.rewardDebt
      && shown.stakedAt == p.stakedAt && shown.unlocksAt == p.unlocksAt
  {}

  /** A query shows exactly what a claim made at that moment pays, and a claim leaves nothing to show. */
  lemma ClaimPaysWhatIsShown(c: Config, s: System, k: Key)
    requires Inv(c, s) && k in s.pool.positions
    ensures var (s', r) := DoClaim(s, k);
      && (r.Ok? <==> 0 < Shown(s.pool, k).value.pending)
      && (r.Ok? ==> r.value == Shown(s.pool, k).value.pending)
      && Shown(s'.pool, k).Some? && Shown(s'.pool, k).value.pending == 0
      && Shown(s'.pool, k).value.amount == Shown(s.pool, k).value.amount
  {
    SettledOwesNothing(s.pool.positions[k], s.pool.acc, AmountAt(s.pool, k));
  }
}

/**
 The staking pool. Rewards are distributed in constant time by raising a scaled
 accumulator; a position settles against its reward debt when it is next touched.
 The operations are given twice: as functions on values, which the other staking
 modules reason about over whole runs, and as the methods of a mutable pool, which
 are proved to compute those functions.
 */
module Staking {
  import opened Prelude
  import opened MapSums
  import T = Token

  const PRECISION: nat := 1_000_000_000_000

  /** `maxSupply` is the token's cap; the other two are the pool's settings. */
  datatype Config = Config(maxSupply: nat, minStake: nat, lockupSecs: nat)

  datatype Position = Position(
    staker: Key, amount: nat, stakedAt: nat, unlocksAt: nat, rewardDebt: nat, pending: int)

  datatype Pool = Pool(positions: map<Key, Position>, acc: nat, totalDistributed: nat)

  /** The pool together with the token ledger it locks stakes in. */
  datatype System = System(ledger: T.Ledger, pool: Pool)

  const GENESIS := System(T.EMPTY, Pool(map[], 0, 0))

  /** One call made to the pool or to the token, with the clock reading and the penalty it saw. */
  datatype Op =
    | Mint(to: Key, amount: nat)
    | Transfer(from: Key, to: Key, amount: nat)
    | Distribute(sats: nat)
    | Stake(staker: Key, amount: nat, now: nat)
    | Unstake(staker: Key, amount: nat, now: nat, penalty: nat)
    | Claim(staker: Key)

  // ---------- positions ----------

  function NewPosition(staker: Key, now: nat, lockupSecs: nat): Position {
    Position(staker, 0, now, now + lockupSecs, 0, 0)
  }

  /** Scaled reward earned since the last settlement. */
  function Unsettled(p: Position, acc: nat): int { p.amount * acc - p.rewardDebt }

  function Settled(p: Position, acc: nat): Position {
    p.(pending := p.pending + Unsettled(p, acc) / PRECISION)
  }

  function Resized(p: Position, amount: nat, acc: nat): Position {
    p.(amount := amount, rewardDebt := amount * acc)
  }

  function AmountAt(pool: Pool, k: Key): nat {
    if k in pool.positions then pool.positions[k].amount else 0
  }

  ghost function Amounts(pool: Pool): map<Key, int> {
    map k | k in pool.positions :: pool.positions[k].amount
  }

  ghost function TotalStaked(pool: Pool): int { Sum(Amounts(pool)) }

  lemma TotalStakedBounds(pool: Pool)
    ensures forall k :: AmountAt(pool, k) <= TotalStaked(pool)
    ensures 0 <= TotalStaked(pool)
  {
    SumBounds(Amounts(pool));
    forall k ensures AmountAt(pool, k) <= TotalStaked(pool) {
      if k in pool.positions { assert Amounts(pool)[k] == AmountAt(pool, k); }
    }
  }

  // ---------- operations ----------

  /** How far a distribution raises the accumulator. */
  ghost function Growth(pool: Pool, sats: nat): (d: int)
    ensures 0 <= d
  {
    TotalStakedBounds(pool);
    if TotalStaked(pool) == 0 then 0 else sats * PRECISION / TotalStaked(pool)
  }

  ghost function Distributed(pool: Pool, sats: nat): Pool {
    if sats == 0 || TotalStaked(pool) == 0 then pool
    else pool.(acc := pool.acc + Growth(pool, sats), totalDistributed := pool.totalDistributed + sats)
  }

  predicate BelowMinimum(c: Config, pool: Pool, k: Key, amount: nat) {
    amount < c.minStake && AmountAt(pool, k) + amount < c.minStake
  }

  function AfterStake(c: Config, pool: Pool, k: Key, amount: nat, now: nat): Position {
    var p := if k in pool.positions then pool.positions[k] else NewPosition(k, now, c.lockupSecs);
    var q := if p.amount > 0 then Settled(p, pool.acc) else p;
    Resized(q, q.amount + amount, pool.acc).(unlocksAt := now + c.lockupSecs)
  }

  function DoStake(c: Config, s: System, k: Key, amount: nat, now: nat): (System, Result<int>) {
    if BelowMinimum(c, s.pool, k, amount) then
      (s, Err(InvalidAmount(
        if k in s.pool.positions then "Total stake below minimum" else "Stake below minimum")))
    else
      var (ledger, r) := T.Locked(s.ledger, k, amount);
      if r.Err? then
        (s, Err(r.error))
      else
        var p := AfterStake(c, s.pool, k, amount, now);
        (System(ledger, s.pool.(positions := s.pool.positions[k := p])), Ok(p.amount))
  }

  function AfterUnstake(pool: Pool, k: Key, amount: nat): Position
    requires k in pool.positions && amount <= pool.positions[k].amount
  {
    var p := Settled(pool.positions[k], pool.acc);
    Resized(p, p.amount - amount, pool.acc)
  }

  /** Keeps a position, unless it holds neither a stake nor a reward. */
  function Kept(pool: Pool, k: Key, p: Position): Pool {
    pool.(positions :=
      if p.amount == 0 && p.pending == 0 then pool.positions - {k} else pool.positions[k := p])
  }

  /** The penalty is charged on the return value alone: the token unlocks the full amount. */
  function DoUnstake(s: System, k: Key, amount: nat, now: nat, penalty: nat): (System, Result<int>) {
    if k !in s.pool.positions then
      (s, Err(InvalidAmount("No stake position found")))
    else if amount > s.pool.positions[k].amount then
      (s, Err(InvalidAmount("Insufficient staked balance")))
    else
      var net := amount - if now < s.pool.positions[k].unlocksAt then penalty else 0;
      var pool := Kept(s.pool, k, AfterUnstake(s.pool, k, amount));
      var (ledger, r) := T.Unlocked(s.ledger, k, amount);
      (System(ledger, pool), if r.Err? then Err(r.error) else Ok(net))
  }

  function SettledAt(pool: Pool, k: Key): Position
    requires k in pool.positions
  {
    var p := Settled(pool.positions[k], pool.acc);
    Resized(p, p.amount, pool.acc)
  }

  /** A claim that finds nothing to pay has settled the position all the same. */
  function DoClaim(s: System, k: Key): (System, Result<int>) {
    if k !in s.pool.positions then
      (s, Err(InvalidAmount("No position found")))
    else
      var p := SettledAt(s.pool, k);
      var pool := s.pool.(positions := s.pool.positions[k := p.(pending := 0)]);
      (s.(pool := pool),
       if p.pending == 0 then Err(InvalidAmount("No rewards to claim")) else Ok(p.pending))
  }

  /** What a query of a position shows: the rewards as if it were settled now. */
  function Shown(pool: Pool, k: Key): Option<Position> {
    if k in pool.positions then Some(Settled(pool.positions[k], pool.acc)) else None
  }

  function OnLedger(s: System, r: (T.Ledger, Result<nat>)): (System, Result<int>) {
    (s.(ledger := r.0), if r.1.Err? then Err(r.1.error) else Ok(r.1.value))
  }

  /** The effect and the result of any one call. */
  ghost function Do(c: Config, s: System, op: Op): (System, Result<int>) {
    match op
    case Mint(to, amount) => OnLedger(s, T.Minted(s.ledger, c.maxSupply, to, amount))
    case Transfer(from, to, amount) => OnLedger(s, T.Transferred(s.ledger, from, to, amount))
    case Distribute(sats) => (s.(pool := Distributed(s.pool, sats)), Ok(0))
    case Stake(k, amount, now) => DoStake(c, s, k, amount, now)
    case Unstake(k, amount, now, penalty) => DoUnstake(s, k, amount, now, penalty)
    case Claim(k) => DoClaim(s, k)
  }

  ghost function Next(c: Config, s: System, op: Op): System { Do(c, s, op).0 }

  /** The state after a whole run of calls. */
  ghost function Run(c: Config, s: System, ops: seq<Op>): System
    decreases |ops|
  {
    if ops == [] then s else Run(c, Next(c, s, ops[0]), ops[1..])
  }

  // ---------- the pool object ----------

  class StakingPool {
    const config: Config
    const token: T.CtdlToken
    var positions: map<Key, Position>
    var accRewardPerShare: nat
    var totalDistributed: nat

    constructor (minStake: nat, lockupSecs: nat, token: T.CtdlToken)
      ensures config == Config(token.maxSupply, minStake, lockupSecs)
      ensures this.token == token
      ensures View() == System(token.View(), GENESIS.pool)
    {
      this.token := token;
      config := Config(token.maxSupply, minStake, lockupSecs);
      positions, accRewardPerShare, totalDistributed := map[], 0, 0;
    }

    function Rewards(): Pool
      reads this
    {
      Pool(positions, accRewardPerShare, totalDistributed)
    }

    function View(): System
      reads this, token
    {
      System(token.View(), Rewards())
    }

    /** Adds up the staked amounts, in whatever order the map yields them. */
    method SumStaked() returns (total: nat)
      ensures total == TotalStaked(Rewards())
    {
      total := 0;
      var rest := positions.Keys;
      ghost var all := Amounts(Rewards());
      assert Only(all, rest) == all;
      while rest != {}
        invariant rest <= positions.Keys
        invariant total + Sum(Only(all, rest)) == Sum(all)
        decreases rest
      {
        var k :| k in rest;
        SumDrop(Only(all, rest), k);
        assert Only(all, rest) - {k} == Only(all, rest - {k});
        total := total + positions[k].amount;
        rest := rest - {k};
      }
      assert Only(all, rest) == map[];
    }

    method Distribute(amount: nat)
      modifies this
      ensures View() == Next(config, old(View()), Op.Distribute(amount))
    {
      if amount == 0 {
        return;
      }
      var total := SumStaked();
      if total == 0 {
        return;
      }
      var additional := amount * PRECISION / total;
      accRewardPerShare := accRewardPerShare + additional;
      totalDistributed := totalDistributed + amount;
    }

    method Stake(staker: Key, amount: nat, now: nat) returns (r: Result<int>)
      modifies this, token
      ensures (View(), r) == Do(config, old(View()), Op.Stake(staker, amount, now))
    {
      if amount < config.minStake {
        if staker in positions {
          if positions[staker].amount + amount < config.minStake {
            return Err(InvalidAmount("Total stake below minimum"));
          }
        } else {
          return Err(InvalidAmount("Stake below minimum"));
        }
      }
      var locked := token.Stake(staker, amount);
      if locked.Err? {
        return Err(locked.error);
      }
      if staker !in positions {
        positions := positions[staker := NewPosition(staker, now, config.lockupSecs)];
      }
      var position := positions[staker];
      if position.amount > 0 {
        var pending := (position.amount * accRewardPerShare - position.rewardDebt) / PRECISION;
        position := position.(pending := position.pending + pending);
      }
      position := position.(amount := position.amount + amount);
      position := position.(rewardDebt := position.amount * accRewardPerShare);
      position := position.(unlocksAt := now + config.lockupSecs);
      positions := positions[staker := position];
      assert positions == old(positions)[staker := position];
      r := Ok(position.amount);
    }

    method Unstake(staker: Key, amount: nat, now: nat, penalty: nat) returns (r: Result<int>)
      requires penalty <= amount
      modifies this, token
      ensures (View(), r) == Do(config, old(View()), Op.Unstake(staker, amount, now, penalty))
    {
      if staker !in positions {
        return Err(InvalidAmount("No stake position found"));
      }
      var position := positions[staker];
      if amount > position.amount {
        return Err(InvalidAmount("Insufficient staked balance"));
      }
      var pending := (position.amount * accRewardPerShare - position.rewardDebt) / PRECISION;
      position := position.(pending := position.pending + pending);
      var net := amount - if now < position.unlocksAt then penalty else 0;
      position := position.(amount := position.amount - amount);
      position := position.(rewardDebt := position.amount * accRewardPerShare);
      positions := positions[staker := position];
      if position.amount == 0 && position.pending == 0 {
        positions := positions - {staker};
        assert positions == old(positions) - {staker};
      }
      var unlocked := token.Unstake(staker, amount);
      if unlocked.Err? {
        return Err(unlocked.error);
      }
      r := Ok(net);
    }

    method Claim(staker: Key) returns (r: Result<int>)
      modifies this
      ensures (View(), r) == Do(config, old(View()), Op.Claim(staker))
    {
      if staker !in positions {
        return Err(InvalidAmount("No position found"));
      }
      var position := positions[staker];
      var pending := (position.amount * accRewardPerShare - position.rewardDebt) / PRECISION;
      position := position.(pending := position.pending + pending);
      position := position.(rewardDebt := position.amount * accRewardPerShare);
      positions := positions[staker := position];
      var claimable := position.pending;
      if claimable == 0 {
        return Err(InvalidAmount("No rewards to claim"));
      }
      positions := positions[staker := position.(pending := 0)];
      assert positions == old(positions)[staker := position.(pending := 0)];
      r := Ok(claimable);
    }

    method Position(staker: Key) returns (r: Option<Position>)
      ensures r == Shown(Rewards(), staker)
    {
      if staker !in positions {
        return None;
      }
      var p := positions[staker];
      var pending := (p.amount * accRewardPerShare - p.rewardDebt) / PRECISION;
      r := Some(p.(pending := p.pending + pending));
    }
  }
}

/**
 The simple algorithm the accumulator stands for. There is no accumulator and no debt:
 each distribution visits every position and credits it, and a settlement turns the
 credit into whole satoshis. The constant-time pool is proved to give every staker the
 same rewards and to answer every call alike, over every run.
 */
module EagerStaking {
  import opened Prelude
  import opened MapSums
  import opened Staking
  import T = Token

  /** `credit` is the scaled reward credited since the last settlement. */
  datatype Holding = Holding(staker: Key, amount: nat, stakedAt: nat, unlocksAt: nat, credit: int, pending: int)

  datatype Eager = Eager(ledger: T.Ledger, holdings: map<Key, Holding>, totalDistributed: nat)

  ghost function Staked(e: Eager): int {
    Sum(map k | k in e.holdings :: e.holdings[k].amount)
  }

  /** Turns the credit into whole satoshis; the fraction is dropped. */
  function CashedIn(h: Holding): Holding {
    h.(pending := h.pending + h.credit / PRECISION, credit := 0)
  }

  ghost function Share(e: Eager, sats: nat): int
    requires Staked(e) != 0
  {
    sats * PRECISION / Staked(e)
  }

  ghost function DistributeToAll(e: Eager, sats: nat): Eager {
    if sats == 0 || Staked(e) == 0 then e
    else e.(
      holdings := map k | k in e.holdings ::
        e.holdings[k].(credit := e.holdings[k].credit + e.holdings[k].amount * Share(e, sats)),
      totalDistributed := e.totalDistributed + sats)
  }

  function EagerStake(c: Config, e: Eager, k: Key, amount: nat, now: nat): (Eager, Result<int>) {
    var h := if k in e.holdings then e.holdings[k] else Holding(k, 0, now, now + c.lockupSecs, 0, 0);
    if amount < c.minStake && h.amount + amount < c.minStake then
      (e, Err(InvalidAmount(
        if k in e.holdings then "Total stake below minimum" else "Stake below minimum")))
    else
      match T.Locked(e.ledger, k, amount)
      case (_, Err(error)) => (e, Err(error))
      case (ledger, Ok(_)) =>
        var cashed := if h.amount > 0 then CashedIn(h) else h.(credit := 0);
        var h' := cashed.(amount := h.amount + amount, unlocksAt := now + c.lockupSecs);
        (e.(ledger := ledger, holdings := e.holdings[k := h']), Ok(h'.amount))
  }

  function EagerUnstake(e: Eager, k: Key, amount: nat, now: nat, penalty: nat): (Eager, Result<int>) {
    if k !in e.holdings then
      (e, Err(InvalidAmount("No stake position found")))
    else if amount > e.holdings[k].amount then
      (e, Err(InvalidAmount("Insufficient staked balance")))
    else
      var h := CashedIn(e.holdings[k]).(amount := e.holdings[k].amount - amount);
      var holdings := if h.amount == 0 && h.pending == 0 then e.holdings - {k} else e.holdings[k := h];
      var net := if now < h.unlocksAt then amount - penalty else amount;
      var (ledger, r) := T.Unlocked(e.ledger, k, amount);
      (e.(ledger := ledger, holdings := holdings), if r.Ok? then Ok(net) else Err(r.error))
  }

  function EagerClaim(e: Eager, k: Key): (Eager, Result<int>) {
    if k !in e.holdings then
      (e, Err(InvalidAmount("No position found")))
    else
      var h := CashedIn(e.holdings[k]);
      (e.(holdings := e.holdings[k := h.(pending := 0)]),
       if h.pending == 0 then Err(InvalidAmount("No rewards to claim")) else Ok(h.pending))
  }

  function OnLedger(e: Eager, r: (T.Ledger, Result<nat>)): (Eager, Result<int>) {
    (e.(ledger := r.0), if r.1.Err? then Err(r.1.error) else Ok(r.1.value))
  }

  ghost function EagerDo(c: Config, e: Eager, op: Op): (Eager, Result<int>) {
    match op
    case Mint(to, amount) => OnLedger(e, T.Minted(e.ledger, c.maxSupply, to, amount))
    case Transfer(from, to, amount) => OnLedger(e, T.Transferred(e.ledger, from, to, amount))
    case Distribute(sats) => (DistributeToAll(e, sats), Ok(0))
    case Stake(k, amount, now) => EagerStake(c, e, k, amount, now)
    case Unstake(k, amount, now, penalty) => EagerUnstake(e, k, amount, now, penalty)
    case Claim(k) => EagerClaim(e, k)
  }

  // ---------- refinement ----------

  function AsHolding(p: Position, acc: nat): Holding {
    Holding(p.staker, p.amount, p.stakedAt, p.unlocksAt, Unsettled(p, acc), p.pending)
  }

  /** The eager state a lazy state stands for. */
  function Abstract(s: System): Eager {
    Eager(s.ledger,
          map k | k in s.pool.positions :: AsHolding(s.pool.positions[k], s.pool.acc),
          s.pool.totalDistributed)
  }

  lemma SameTotal(s: System)
    ensures Staked(Abstract(s)) == TotalStaked(s.pool)
  {
    var e := Abstract(s);
    assert (map k | k in e.holdings :: e.holdings[k].amount) == Amounts(s.pool);
  }

  lemma DistributeRefines(s: System, sats: nat)
    ensures DistributeToAll(Abstract(s), sats) == Abstract(s.(pool := Distributed(s.pool, sats)))
  {
    SameTotal(s);
    if sats != 0 && TotalStaked(s.pool) != 0 {
      var d := Growth(s.pool, sats);
      forall k | k in s.pool.positions
        ensures AsHolding(s.pool.positions[k], s.pool.acc + d).credit
             == AsHolding(s.pool.positions[k], s.pool.acc).credit + s.pool.positions[k].amount * d
      {
        var a := s.pool.positions[k].amount;
        assert a * (s.pool.acc + d) == a * s.pool.acc + a * d;
      }
      assert DistributeToAll(Abstract(s), sats).holdings
          == Abstract(s.(pool := Distributed(s.pool, sats))).holdings;
    }
  }

  lemma StakeRefines(c: Config, s: System, k: Key, amount: nat, now: nat)
    ensures var (s', r) := DoStake(c, s, k, amount, now);
      EagerStake(c, Abstract(s), k, amount, now) == (Abstract(s'), r)
  {
    var (s', r) := DoStake(c, s, k, amount, now);
    var (e', r') := EagerStake(c, Abstract(s), k, amount, now);
    if r.Ok? {
      var p := AfterStake(c, s.pool, k, amount, now);
      assert Unsettled(p, s.pool.acc) == 0;
      assert e'.holdings[k] == AsHolding(p, s.pool.acc);
      assert e'.holdings == Abstract(s').holdings;
    }
  }

  lemma UnstakeRefines(s: System, k: Key, amount: nat, now: nat, penalty: nat)
    ensures var (s', r) := DoUnstake(s, k, amount, now, penalty);
      EagerUnstake(Abstract(s), k, amount, now, penalty) == (Abstract(s'), r)
  {
    var s' := DoUnstake(s, k, amount, now, penalty).0;
    var e' := EagerUnstake(Abstract(s), k, amount, now, penalty).0;
    if k in s.pool.positions && amount <= s.pool.positions[k].amount {
      var p := AfterUnstake(s.pool, k, amount);
      assert Unsettled(p, s.pool.acc) == 0;
      assert e'.holdings == Abstract(s').holdings;
    }
  }

  lemma ClaimRefines(s: System, k: Key)
    ensures var (s', r) := DoClaim(s, k);
      EagerClaim(Abstract(s), k) == (Abstract(s'), r)
  {
    var s' := DoClaim(s, k).0;
    var e' := EagerClaim(Abstract(s), k).0;
    if k in s.pool.positions {
      assert Unsettled(SettledAt(s.pool, k), s.pool.acc) == 0;
      assert e'.holdings == Abstract(s').holdings;
    }
  }

  /** Every call takes corresponding states to corresponding states, with the same answer. */
  lemma StepRefines(c: Config, s: System, op: Op)
    ensures EagerDo(c, Abstract(s), op) == (Abstract(Next(c, s, op)), Do(c, s, op).1)
  {
    match op
    case Mint(_, _) =>
    case Transfer(_, _, _) =>
    case Distribute(sats) => DistributeRefines(s, sats);
    case Stake(k, amount, now) => StakeRefines(c, s, k, amount, now);
    case Unstake(k, amount, now, penalty) => UnstakeRefines(s, k, amount, now, penalty);
    case Claim(k) => ClaimRefines(s, k);
  }

  /** The final state of a run and the answers given along the way. */
  ghost function EagerRun(c: Config, e: Eager, ops: seq<Op>): (Eager, seq<Result<int>>)
    decreases |ops|
  {
    if ops == [] then (e, [])
    else
      var (e', r) := EagerDo(c, e, ops[0]);
      var (end, rs) := EagerRun(c, e', ops[1..]);
      (end, [r] + rs)
  }

  ghost function Answers(c: Config, s: System, ops: seq<Op>): seq<Result<int>>
    decreases |ops|
  {
    if ops == [] then []
    else [Do(c, s, ops[0]).1] + Answers(c, Next(c, s, ops[0]), ops[1..])
  }

  /** Over every run the constant-time pool answers every call as the eager one does. */
  lemma {:induction false} LazyRefinesEager(c: Config, s: System, ops: seq<Op>)
    ensures EagerRun(c, Abstract(s), ops) == (Abstract(Run(c, s, ops)), Answers(c, s, ops))
    decreases |ops|
  {
    if ops != [] {
      StepRefines(c, s, ops[0]);
      LazyRefinesEager(c, Next(c, s, ops[0]), ops[1..]);
    }
  }
}

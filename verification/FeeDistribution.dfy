/** The fee distributor, which collects trading fees and hands them to the staking pool in batches. */
module FeeDistribution {
  import opened Prelude
  import opened MapSums
  import opened Staking
  import opened StakingSafety
  import T = Token

  datatype Fees = Fees(pending: nat, collected: nat, distributed: nat, last: nat)

  /** The distributor next to the pool it feeds. */
  datatype World = World(fees: Fees, sys: System)

  datatype Event =
    | Collect(sats: nat)
    | Flush(now: nat)
    | Call(op: Op)

  function Collected(f: Fees, sats: nat): Fees {
    f.(pending := f.pending + sats, collected := f.collected + sats)
  }

  /** A batch counts as distributed even when nobody is staked to receive it. */
  ghost function Flushed(w: World, now: nat): World {
    var batch := w.fees.pending;
    if batch == 0 then w
    else World(
      Fees(0, w.fees.collected, w.fees.distributed + batch, now),
      w.sys.(pool := Distributed(w.sys.pool, batch)))
  }

  ghost function After(c: Config, w: World, e: Event): World {
    match e
    case Collect(sats) => w.(fees := Collected(w.fees, sats))
    case Flush(now) => Flushed(w, now)
    case Call(op) => w.(sys := Next(c, w.sys, op))
  }

  ghost function Live(c: Config, w: World, es: seq<Event>): World
    decreases |es|
  {
    if es == [] then w else Live(c, After(c, w, es[0]), es[1..])
  }

  /** The pool is fed through the distributor alone. */
  predicate OnlyFees(es: seq<Event>) {
    forall i :: 0 <= i < |es| && es[i].Call? ==> !es[i].op.Distribute?
  }

  /** The calls the staking pool sees during a run of the whole system. */
  ghost function PoolCalls(c: Config, w: World, es: seq<Event>): seq<Op>
    decreases |es|
  {
    if es == [] then []
    else
      (match es[0]
       case Collect(_) => []
       case Flush(_) => [Distribute(w.fees.pending)]
       case Call(op) => [op]) + PoolCalls(c, After(c, w, es[0]), es[1..])
  }

  /** Fees sent off while nobody was staked. */
  ghost function Unreceived(c: Config, w: World, es: seq<Event>): nat
    decreases |es|
  {
    if es == [] then 0
    else
      (if es[0].Flush? && TotalStaked(w.sys.pool) == 0 then w.fees.pending else 0)
      + Unreceived(c, After(c, w, es[0]), es[1..])
  }

  /** The fees paid in during a run, read off its events. */
  function FeesIn(es: seq<Event>): nat
    decreases |es|
  {
    if es == [] then 0 else (if es[0].Collect? then es[0].sats else 0) + FeesIn(es[1..])
  }

  const GENESIS_WORLD := World(Fees(0, 0, 0, 0), GENESIS)

  lemma {:induction false} PoolSeesItsCalls(c: Config, w: World, es: seq<Event>)
    ensures Live(c, w, es).sys == Run(c, w.sys, PoolCalls(c, w, es))
    decreases |es|
  {
    if es != [] {
      var rest := PoolCalls(c, After(c, w, es[0]), es[1..]);
      PoolSeesItsCalls(c, After(c, w, es[0]), es[1..]);
      match es[0] {
        case Collect(_) =>
          assert [] + rest == rest;
        case Flush(_) =>
          assert ([Distribute(w.fees.pending)] + rest)[1..] == rest;
        case Call(op) =>
          assert ([op] + rest)[1..] == rest;
      }
    }
  }

  /** The distributor counts exactly the fees paid in. */
  lemma {:induction false} CollectedIsPaidIn(c: Config, w: World, es: seq<Event>)
    ensures Live(c, w, es).fees.collected == w.fees.collected + FeesIn(es)
    decreases |es|
  {
    if es != [] {
      CollectedIsPaidIn(c, After(c, w, es[0]), es[1..]);
    }
  }

  /** A flush hands the pool everything pending, and leaves nothing and a new date behind. */
  lemma FlushHandsOverEverything(w: World, now: nat)
    ensures var w' := Flushed(w, now);
      && w'.fees.pending == 0 && w'.fees.collected == w.fees.collected
      && w'.fees.last == (if w.fees.pending == 0 then w.fees.last else now)
      && w'.fees.distributed == w.fees.distributed + w.fees.pending
      && w'.sys.pool.totalDistributed
      == w.sys.pool.totalDistributed + if TotalStaked(w.sys.pool) == 0 then 0 else w.fees.pending
  {}

  /** Every fee is pending, with the pool, or was sent while nobody was staked. */
  lemma {:induction false} FeesAreConserved(c: Config, w: World, es: seq<Event>)
    requires OnlyFees(es)
    requires w.fees.collected == w.fees.pending + w.fees.distributed
    ensures var w' := Live(c, w, es);
      && w'.fees.collected == w'.fees.pending + w'.fees.distributed
      && w'.fees.distributed - w.fees.distributed
      == w'.sys.pool.totalDistributed - w.sys.pool.totalDistributed + Unreceived(c, w, es)
    decreases |es|
  {
    if es != [] {
      assert OnlyFees(es[1..]);
      FeesAreConserved(c, After(c, w, es[0]), es[1..]);
      if es[0].Call? {
        OnlyDistributeDistributes(c, w.sys, es[0].op);
      }
    }
  }

  lemma OnlyDistributeDistributes(c: Config, s: System, op: Op)
    requires !op.Distribute?
    ensures Next(c, s, op).pool.totalDistributed == s.pool.totalDistributed
  {}

  /**
   From fee to claim: what stakers were paid, what they are still owed, what was rounded
   off, what was sent while nobody was staked and what is pending add up to the fees
   paid in, so stakers are never paid more than traders paid in.
   */
  lemma FeesPayRewards(c: Config, es: seq<Event>)
    requires OnlyFees(es)
    ensures var w := Live(c, GENESIS_WORLD, es);
      var b := RunBooks(c, GENESIS, PoolCalls(c, GENESIS_WORLD, es));
      && PRECISION * FeesIn(es)
      == PRECISION * (w.fees.pending + Unreceived(c, GENESIS_WORLD, es) + b.paid) + TotalOwed(w.sys.pool) + b.dust
      && b.paid + Sum(Claimable(w.sys.pool)) <= FeesIn(es)
  {
    CollectedIsPaidIn(c, GENESIS_WORLD, es);
    FeesAreConserved(c, GENESIS_WORLD, es);
    PoolSeesItsCalls(c, GENESIS_WORLD, es);
    var calls := PoolCalls(c, GENESIS_WORLD, es);
    Solvency(c, calls);
    GenesisInv(c);
    RunBalances(c, GENESIS, calls);
    assert TotalOwed(GENESIS.pool) == 0;
  }

  // ---------- the distributor object ----------

  class FeeDistributor {
    var pendingFees: nat
    var totalCollected: nat
    var totalDistributed: nat
    var lastDistribution: nat

    constructor (now: nat)
      ensures View() == Fees(0, 0, 0, now)
    {
      pendingFees, totalCollected, totalDistributed, lastDistribution := 0, 0, 0, now;
    }

    function View(): Fees
      reads this
    {
      Fees(pendingFees, totalCollected, totalDistributed, lastDistribution)
    }

    method CollectFee(amount: nat)
      modifies this
      ensures View() == Collected(old(View()), amount)
    {
      pendingFees := pendingFees + amount;
      totalCollected := totalCollected + amount;
    }

    method Distribute(pool: StakingPool, now: nat) returns (sent: nat)
      modifies this, pool
      ensures World(View(), pool.View()) == Flushed(World(old(View()), old(pool.View())), now)
      ensures sent == old(View()).pending
    {
      var pending := pendingFees;
      pendingFees := 0;
      if pending == 0 {
        return 0;
      }
      pool.Distribute(pending);
      totalDistributed := totalDistributed + pending;
      lastDistribution := now;
      sent := pending;
    }
  }
}

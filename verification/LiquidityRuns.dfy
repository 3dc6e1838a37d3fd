/** What every run of the liquidity pool keeps: conservation, the price floor, and no free profit. */
module LiquidityRuns {
  import opened Prelude
  import opened MapSums
  import opened Arithmetic
  import opened LiquidityPool

  ghost function Next(v: Vault, m: nat, op: Op): (v': Vault)
    requires Inv(v)
    ensures Inv(v')
  {
    StepKeepsInv(v, m, op);
    Do(v, m, op).0
  }

  /** The state after a run of calls, at a given minimum deposit. */
  ghost function Run(v: Vault, m: nat, ops: seq<Op>): (v': Vault)
    requires Inv(v)
    ensures Inv(v')
    decreases |ops|
  {
    if ops == [] then v else Run(Next(v, m, ops[0]), m, ops[1..])
  }

  ghost function PaidIn(v: Vault, m: nat, op: Op): nat
    requires Inv(v)
  {
    if op.Deposit? && Do(v, m, op).1.Ok? then op.sats else 0
  }

  ghost function PaidOut(v: Vault, m: nat, op: Op): nat
    requires Inv(v)
  {
    if op.Withdraw? && Do(v, m, op).1.Ok? then Do(v, m, op).1.value else 0
  }

  ghost function TotalIn(v: Vault, m: nat, ops: seq<Op>): nat
    requires Inv(v)
    decreases |ops|
  {
    if ops == [] then 0 else PaidIn(v, m, ops[0]) + TotalIn(Next(v, m, ops[0]), m, ops[1..])
  }

  ghost function TotalOut(v: Vault, m: nat, ops: seq<Op>): nat
    requires Inv(v)
    decreases |ops|
  {
    if ops == [] then 0 else PaidOut(v, m, ops[0]) + TotalOut(Next(v, m, ops[0]), m, ops[1..])
  }

  lemma StepConserves(v: Vault, m: nat, op: Op)
    requires Inv(v)
    ensures Next(v, m, op).liquidity + PaidOut(v, m, op) == v.liquidity + PaidIn(v, m, op)
  {
    match op
    case Deposit(k, sats, now) => DepositKeepsInv(v, m, k, sats, now);
    case Withdraw(k, burn) => WithdrawKeepsInv(v, k, burn);
    case Lock(_) =>
    case Release(_) =>
    case Pause(_) =>
  }

  /** Over any run the liquidity is what was deposited less what was withdrawn. */
  lemma {:induction false} LiquidityConserved(v: Vault, m: nat, ops: seq<Op>)
    requires Inv(v)
    ensures Run(v, m, ops).liquidity + TotalOut(v, m, ops) == v.liquidity + TotalIn(v, m, ops)
    decreases |ops|
  {
    if ops != [] {
      StepConserves(v, m, ops[0]);
      LiquidityConserved(Next(v, m, ops[0]), m, ops[1..]);
    }
  }

  /** The reachable states of a pool: solvent at the price, shares adding up, locks covered. */
  lemma EveryRunOfANewPool(m: nat, ops: seq<Op>)
    ensures Sum(Counts(NEW_VAULT)) == 0
    ensures Inv(NEW_VAULT)
    ensures var v := Run(NEW_VAULT, m, ops);
      && v.liquidity == TotalIn(NEW_VAULT, m, ops) - TotalOut(NEW_VAULT, m, ops)
      && Sum(Counts(v)) == v.totalShares
      && Price(v) * v.totalShares <= v.liquidity
      && INITIAL_PRICE * v.totalShares <= v.liquidity
      && Available(v) + v.utilized == v.liquidity
  {
    assert Counts(NEW_VAULT) == map[];
    LiquidityConserved(NEW_VAULT, m, ops);
    PriceCoversShares(Run(NEW_VAULT, m, ops));
  }

  // ---------- holders who do not act ----------

  predicate By(op: Op, k: Key) { (op.Deposit? || op.Withdraw?) && op.who == k }

  /** No call is a deposit or withdrawal by any of these accounts. */
  predicate Idle(ops: seq<Op>, ks: set<Key>) {
    forall i, k :: 0 <= i < |ops| && k in ks ==> !By(ops[i], k)
  }

  lemma OthersKeepShares(v: Vault, m: nat, op: Op, k: Key)
    requires Inv(v) && !By(op, k)
    ensures SharesOf(Next(v, m, op), k) == SharesOf(v, k)
    ensures k in Next(v, m, op).shares <==> k in v.shares
  {}

  /** While a holder keeps shares and stays idle, nobody can lower what they are worth. */
  lemma {:induction false} HoldersNeverLose(v: Vault, m: nat, ops: seq<Op>, k: Key)
    requires Inv(v) && Idle(ops, {k}) && 0 < SharesOf(v, k)
    ensures var v' := Run(v, m, ops);
      SharesOf(v', k) == SharesOf(v, k) && Price(v) <= Price(v')
    decreases |ops|
  {
    if ops != [] {
      var v1 := Next(v, m, ops[0]);
      assert k in {k};
      OthersKeepShares(v, m, ops[0], k);
      OwnedWithinTotal(v1, k);
      PriceFallsOnlyWhenEmptied(v, m, ops[0]);
      HoldersNeverLose(v1, m, ops[1..], k);
    }
  }

  // ---------- newcomers ----------

  /** The shares a group of accounts holds, and those everybody else holds. */
  ghost function HeldBy(v: Vault, ks: set<Key>): int { Sum(Only(Counts(v), ks)) }
  ghost function HeldByRest(v: Vault, ks: set<Key>): int { Sum(Counts(v) - ks) }

  lemma HoldingsSplit(v: Vault, ks: set<Key>)
    requires Inv(v)
    ensures HeldBy(v, ks) + HeldByRest(v, ks) == v.totalShares
    ensures 0 <= HeldBy(v, ks) && 0 <= HeldByRest(v, ks)
  {
    SumSplit(Counts(v), ks);
    SumBounds(Only(Counts(v), ks));
    SumBounds(Counts(v) - ks);
  }

  lemma IdleHoldingsStay(v: Vault, m: nat, op: Op, ks: set<Key>)
    requires Inv(v) && forall k :: k in ks ==> !By(op, k)
    ensures HeldBy(Next(v, m, op), ks) == HeldBy(v, ks)
  {
    var v' := Next(v, m, op);
    forall k | k in ks
      ensures SharesOf(v', k) == SharesOf(v, k) && (k in v'.shares <==> k in v.shares)
    {
      OthersKeepShares(v, m, op, k);
    }
    assert Only(Counts(v'), ks) == Only(Counts(v), ks);
  }

  /** The shares outside an idle group change by what a call mints or burns. */
  lemma RestTrades(v: Vault, m: nat, op: Op, ks: set<Key>)
    requires Inv(v) && forall k :: k in ks ==> !By(op, k)
    ensures HeldByRest(Next(v, m, op), ks) - HeldByRest(v, ks) == Next(v, m, op).totalShares - v.totalShares
  {
    HoldingsSplit(v, ks);
    HoldingsSplit(Next(v, m, op), ks);
    IdleHoldingsStay(v, m, op, ks);
  }

  /** A call pays for the shares it mints, and is paid for those it burns, at the price. */
  lemma TradesAtPrice(v: Vault, m: nat, op: Op, minted: int, p: nat)
    requires Inv(v) && p == Price(v) && minted == Next(v, m, op).totalShares - v.totalShares
    ensures PaidOut(v, m, op) + minted * p <= PaidIn(v, m, op)
  {
    match op
    case Deposit(k, sats, now) => DepositKeepsInv(v, m, k, sats, now);
    case Withdraw(k, burn) => WithdrawKeepsInv(v, k, burn); NegativeTimes(burn, minted, p);
    case Lock(_) =>
    case Release(_) =>
    case Pause(_) =>
  }

  lemma NegativeTimes(a: int, b: int, p: int)
    ensures a == -b ==> a * p == -(b * p)
  {}

  lemma Regroup(out: int, paid: int, held: int, minted: int, p: int)
    requires out + minted * p <= paid
    ensures out + (held + minted) * p <= paid + held * p
  {}

  /** At an unmoved price, what newcomers took out and hold grows by no more than they pay in. */
  lemma TradeAtOnePrice(v: Vault, m: nat, op: Op, ks: set<Key>, p: nat)
    requires Inv(v) && p == Price(v) && forall k :: k in ks ==> !By(op, k)
    ensures PaidOut(v, m, op) + HeldByRest(Next(v, m, op), ks) * p <= PaidIn(v, m, op) + HeldByRest(v, ks) * p
  {
    var minted := Next(v, m, op).totalShares - v.totalShares;
    RestTrades(v, m, op, ks);
    TradesAtPrice(v, m, op, minted, p);
    Regroup(PaidOut(v, m, op), PaidIn(v, m, op), HeldByRest(v, ks), minted, p);
  }

  /** Once the price has moved up, conservation alone leaves nothing for newcomers to gain. */
  lemma MovedPriceLeavesNoGain(o: int, held: int, p0: nat, p: nat, l0: int, l: int)
    requires 0 < o && 0 <= held && p0 < p
    requires l0 < (p0 + 1) * o
    requires p * (o + held) <= l
    ensures held * p <= l - l0
  {
    MulMono(p0 + 1, p, o);
    assert p * (o + held) == p * o + held * p;
  }

  /** The induction behind the theorem: `paid` and `got` are the sats of the calls already made. */
  lemma {:induction false} NewcomersGainNothing(v: Vault, m: nat, ops: seq<Op>, ks: set<Key>, p0: nat, l0: int, paid: nat, got: nat)
    requires Inv(v) && Idle(ops, ks) && 0 < HeldBy(v, ks)
    requires p0 <= Price(v) && l0 < (p0 + 1) * HeldBy(v, ks)
    requires v.liquidity == l0 + paid - got
    requires Price(v) == p0 ==> got + HeldByRest(v, ks) * p0 <= paid
    ensures var v' := Run(v, m, ops);
      got + TotalOut(v, m, ops) + HeldByRest(v', ks) * Price(v') <= paid + TotalIn(v, m, ops)
    decreases |ops|
  {
    HoldingsSplit(v, ks);
    if ops == [] {
      if p0 < Price(v) {
        PriceCoversShares(v);
        MovedPriceLeavesNoGain(HeldBy(v, ks), HeldByRest(v, ks), p0, Price(v), l0, v.liquidity);
      }
    } else {
      var v1 := Next(v, m, ops[0]);
      IdleHoldingsStay(v, m, ops[0], ks);
      HoldingsSplit(v1, ks);
      StepConserves(v, m, ops[0]);
      PriceFallsOnlyWhenEmptied(v, m, ops[0]);
      TradeAtOnePrice(v, m, ops[0], ks, Price(v));
      NewcomersGainNothing(v1, m, ops[1..], ks, p0, l0,
                           paid + PaidIn(v, m, ops[0]), got + PaidOut(v, m, ops[0]));
    }
  }

  /**
   Newcomers cannot profit: if the accounts `ks` hold every share of a pool that has
   shares, and stay idle, then whatever the others deposit and withdraw, the sats they
   took out and the worth of what they hold at the end are at most the sats they put in.
   */
  lemma NewcomersCannotProfit(v: Vault, m: nat, ops: seq<Op>, ks: set<Key>)
    requires Inv(v) && Idle(ops, ks) && 0 < v.totalShares && HeldByRest(v, ks) == 0
    ensures var v' := Run(v, m, ops);
      TotalOut(v, m, ops) + HeldByRest(v', ks) * Price(v') <= TotalIn(v, m, ops)
  {
    HoldingsSplit(v, ks);
    PriceCoversShares(v);
    NewcomersGainNothing(v, m, ops, ks, Price(v), v.liquidity, 0, 0);
  }

  /** From a pool without shares, all that can be gained is the liquidity left in it. */
  lemma EmptyPoolGain(v: Vault, m: nat, ops: seq<Op>)
    requires Inv(v) && v.totalShares == 0
    ensures var v' := Run(v, m, ops);
      TotalOut(v, m, ops) + v'.totalShares * Price(v') <= TotalIn(v, m, ops) + v.liquidity
  {
    LiquidityConserved(v, m, ops);
    PriceCoversShares(Run(v, m, ops));
  }

  /** That gain is real: the next depositor of one share's price takes the whole remainder. */
  lemma EmptyPoolGainIsReached(v: Vault, m: nat, k: Key, now: nat)
    requires Inv(v) && v.totalShares == 0 && v.utilized == 0 && !v.paused
    requires m <= INITIAL_PRICE && v.liquidity + INITIAL_PRICE < U64
    ensures var ops := [Deposit(k, INITIAL_PRICE, now), Withdraw(k, 1)];
      TotalOut(v, m, ops) == TotalIn(v, m, ops) + v.liquidity
  {
    var deposit, withdraw := Deposit(k, INITIAL_PRICE, now), Withdraw(k, 1);
    var v1 := Next(v, m, deposit);
    DepositKeepsInv(v, m, k, INITIAL_PRICE, now);
    WithdrawKeepsInv(v1, k, 1);
    assert v1.totalShares == 1 && Price(v1) == v.liquidity + INITIAL_PRICE;
    assert [deposit, withdraw][1..] == [withdraw];
    assert TotalOut(v1, m, [withdraw]) == PaidOut(v1, m, withdraw) + TotalOut(Next(v1, m, withdraw), m, []);
    assert TotalIn(v1, m, [withdraw]) == PaidIn(v1, m, withdraw) + TotalIn(Next(v1, m, withdraw), m, []);
  }

  /** Such a remainder arises: a deposit below the price of a share leaves sats and no shares. */
  lemma SmallFirstDepositIsLeftBehind(m: nat, k: Key, sats: nat, now: nat)
    requires m <= sats < INITIAL_PRICE
    ensures Inv(NEW_VAULT)
    ensures var v := Run(NEW_VAULT, m, [Deposit(k, sats, now)]);
      v.totalShares == 0 && v.liquidity == sats && SharesOf(v, k) == 0
  {
    assert Counts(NEW_VAULT) == map[];
    DepositKeepsInv(NEW_VAULT, m, k, sats, now);
  }
}

/**
 The liquidity pool: deposits mint shares and withdrawals burn them at the integer share
 price of the moment, while part of the liquidity may be locked in contracts.
 */
module LiquidityPool {
  import opened Prelude
  import opened MapSums
  import opened Arithmetic

  const INITIAL_PRICE: nat := 1_000_000

  datatype Share = Share(owner: Key, shares: nat, mintedAt: nat)

  datatype Vault = Vault(
    liquidity: nat, totalShares: nat, shares: map<Key, Share>, utilized: nat, paused: bool)

  const NEW_VAULT := Vault(0, 0, map[], 0, false)

  datatype Op =
    | Deposit(who: Key, sats: nat, now: nat)
    | Withdraw(who: Key, burn: nat)
    | Lock(amount: nat)
    | Release(amount: nat)
    | Pause(on: bool)

  function Price(v: Vault): nat {
    if v.totalShares == 0 then INITIAL_PRICE else v.liquidity / v.totalShares
  }

  function SharesOf(v: Vault, k: Key): nat {
    if k in v.shares then v.shares[k].shares else 0
  }

  ghost function Counts(v: Vault): map<Key, int> {
    map k | k in v.shares :: v.shares[k].shares
  }

  /**
   What every reachable pool satisfies: shares add up, each is backed by at least the
   initial price, no more is locked than there is, and the amounts are u64 values.
   */
  ghost predicate Inv(v: Vault) {
    && Sum(Counts(v)) == v.totalShares
    && INITIAL_PRICE * v.totalShares <= v.liquidity < U64
    && v.utilized <= v.liquidity
  }

  /** The price is the largest integer at which the liquidity covers all shares. */
  lemma PriceCoversShares(v: Vault)
    requires INITIAL_PRICE * v.totalShares <= v.liquidity
    ensures INITIAL_PRICE <= Price(v)
    ensures Price(v) * v.totalShares <= v.liquidity
    ensures v.totalShares != 0 ==> v.liquidity < (Price(v) + 1) * v.totalShares
  {
    if v.totalShares != 0 {
      FloorDiv(v.liquidity, v.totalShares);
      FloorIsLargest(v.liquidity, v.totalShares, INITIAL_PRICE);
    }
  }

  function Available(v: Vault): nat {
    if v.utilized <= v.liquidity then v.liquidity - v.utilized else 0
  }

  // ---------- operations ----------

  /** The shares a deposit buys. */
  function Bought(v: Vault, sats: nat): nat
    requires INITIAL_PRICE * v.totalShares <= v.liquidity
  {
    PriceCoversShares(v);
    sats / Price(v)
  }

  function WithShares(v: Vault, k: Key, extra: nat, now: nat): map<Key, Share> {
    if k in v.shares
    then v.shares[k := v.shares[k].(shares := v.shares[k].shares + extra)]
    else v.shares[k := Share(k, extra, now)]
  }

  function Deposited(v: Vault, minDeposit: nat, k: Key, sats: nat, now: nat): (Vault, Result<nat>)
    requires INITIAL_PRICE * v.totalShares <= v.liquidity
  {
    if v.paused then
      (v, Err(CircuitBreakerActive))
    else if sats < minDeposit then
      (v, Err(DepositTooSmall(minDeposit, sats)))
    else if v.liquidity + sats >= U64 then
      (v, Err(InvalidAmount("Overflow in liquidity")))
    else
      var n := Bought(v, sats);
      (v.(liquidity := v.liquidity + sats, totalShares := v.totalShares + n, shares := WithShares(v, k, n, now)),
       Ok(n))
  }

  function WithoutShares(v: Vault, k: Key, burn: nat): map<Key, Share>
    requires burn <= SharesOf(v, k)
  {
    if k !in v.shares then v.shares
    else if v.shares[k].shares == burn then v.shares - {k}
    else v.shares[k := v.shares[k].(shares := v.shares[k].shares - burn)]
  }

  lemma {:induction false} OwnedWithinTotal(v: Vault, k: Key)
    requires Sum(Counts(v)) == v.totalShares
    ensures SharesOf(v, k) <= v.totalShares
  {
    SumBounds(Counts(v));
    if k in v.shares { assert Counts(v)[k] == SharesOf(v, k); }
  }

  function Withdrawn(v: Vault, k: Key, burn: nat): (Vault, Result<nat>)
    requires Inv(v)
  {
    if burn > SharesOf(v, k) then
      (v, Err(WithdrawalExceedsBalance(burn, SharesOf(v, k))))
    else if burn * Price(v) > Available(v) then
      (v, Err(InsufficientLiquidity(burn * Price(v), Available(v))))
    else
      OwnedWithinTotal(v, k);
      (v.(liquidity := v.liquidity - burn * Price(v),
          totalShares := v.totalShares - burn,
          shares := WithoutShares(v, k, burn)),
       Ok(burn * Price(v)))
  }

  function Locked(v: Vault, amount: nat): (Vault, Result<nat>) {
    if amount > Available(v) then
      (v, Err(InsufficientLiquidity(amount, Available(v))))
    else if v.utilized + amount >= U64 then
      (v, Err(InvalidAmount("Overflow in utilized")))
    else
      (v.(utilized := v.utilized + amount), Ok(amount))
  }

  function Released(v: Vault, amount: nat): Vault {
    v.(utilized := if amount <= v.utilized then v.utilized - amount else 0)
  }

  ghost function Do(v: Vault, minDeposit: nat, op: Op): (Vault, Result<nat>)
    requires Inv(v)
  {
    match op
    case Deposit(k, sats, now) => Deposited(v, minDeposit, k, sats, now)
    case Withdraw(k, burn) => Withdrawn(v, k, burn)
    case Lock(amount) => Locked(v, amount)
    case Release(amount) => (Released(v, amount), Ok(0))
    case Pause(on) => (v.(paused := on), Ok(0))
  }

  // ---------- one call ----------

  lemma SharesAdded(v: Vault, v': Vault, k: Key, n: nat, now: nat)
    requires v'.shares == WithShares(v, k, n, now)
    ensures Sum(Counts(v')) == Sum(Counts(v)) + n && SharesOf(v', k) == SharesOf(v, k) + n
  {
    assert Counts(v') == Counts(v)[k := SharesOf(v, k) + n];
    SumUpdate(Counts(v), k, SharesOf(v, k) + n);
  }

  lemma SharesRemoved(v: Vault, v': Vault, k: Key, burn: nat)
    requires burn <= SharesOf(v, k) && v'.shares == WithoutShares(v, k, burn)
    ensures Sum(Counts(v')) == Sum(Counts(v)) - burn && SharesOf(v', k) == SharesOf(v, k) - burn
  {
    if k !in v.shares {
      assert Counts(v') == Counts(v);
    } else if v.shares[k].shares == burn {
      assert Counts(v') == Counts(v) - {k};
      SumDrop(Counts(v), k);
    } else {
      assert Counts(v') == Counts(v)[k := SharesOf(v, k) - burn];
      SumUpdate(Counts(v), k, SharesOf(v, k) - burn);
    }
  }

  /** Liquidity that covers the shares at a price goes on covering them when both move at that price. */
  lemma StillCovered(liquidity: nat, shares: nat, p: nat, sats: nat, n: nat)
    requires p * shares <= liquidity && n * p <= sats && INITIAL_PRICE <= p
    ensures p * (shares + n) <= liquidity + sats
    ensures n <= shares ==> p * (shares - n) <= liquidity - n * p && INITIAL_PRICE * (shares - n) <= liquidity - n * p
    ensures INITIAL_PRICE * (shares + n) <= liquidity + sats
  {
    assert p * (shares + n) == p * shares + n * p;
    MulMono(INITIAL_PRICE, p, shares + n);
    if n <= shares {
      assert p * (shares - n) == p * shares - n * p;
      MulMono(INITIAL_PRICE, p, shares - n);
    }
  }

  /** A deposit buys all the whole shares its sats pay for, and no more. */
  lemma BuysWholeShares(v: Vault, sats: nat)
    requires INITIAL_PRICE * v.totalShares <= v.liquidity
    ensures var n := Bought(v, sats);
      n * Price(v) <= sats < (n + 1) * Price(v)
  {
    PriceCoversShares(v);
    FloorDiv(sats, Price(v));
  }

  /** A deposit keeps the invariant, and buys the whole shares its sats pay for. */
  lemma DepositKeepsInv(v: Vault, minDeposit: nat, k: Key, sats: nat, now: nat)
    requires Inv(v)
    ensures var (v', r) := Deposited(v, minDeposit, k, sats, now);
      && Inv(v')
      && (r.Err? ==> v' == v)
      && (r.Ok? <==> !v.paused && minDeposit <= sats && v.liquidity + sats < U64)
      && (r.Ok? ==>
            && v'.liquidity == v.liquidity + sats && v'.utilized == v.utilized && !v'.paused
            && r.value * Price(v) <= sats < (r.value + 1) * Price(v)
            && SharesOf(v', k) == SharesOf(v, k) + r.value
            && Price(v) * v'.totalShares <= v'.liquidity)
  {
    var (v', r) := Deposited(v, minDeposit, k, sats, now);
    if r.Ok? {
      var n, p := Bought(v, sats), Price(v);
      assert r.value == n && v' == v.(
        liquidity := v.liquidity + sats, totalShares := v.totalShares + n, shares := WithShares(v, k, n, now));
      PriceCoversShares(v);
      BuysWholeShares(v, sats);
      StillCovered(v.liquidity, v.totalShares, p, sats, n);
      SharesAdded(v, v', k, n, now);
    }
  }

  /** A withdrawal keeps the invariant, and pays exactly the price of the burnt shares. */
  lemma WithdrawKeepsInv(v: Vault, k: Key, burn: nat)
    requires Inv(v)
    ensures var (v', r) := Withdrawn(v, k, burn);
      && Inv(v')
      && (r.Err? ==> v' == v)
      && (r.Ok? <==> burn <= SharesOf(v, k) && burn * Price(v) <= v.liquidity - v.utilized)
      && (r.Ok? ==>
            && v'.liquidity == v.liquidity - r.value && r.value == burn * Price(v)
            && v'.utilized == v.utilized && v'.paused == v.paused
            && SharesOf(v', k) == SharesOf(v, k) - burn
            && v'.totalShares == v.totalShares - burn
            && Price(v) * v'.totalShares <= v'.liquidity)
  {
    var (v', r) := Withdrawn(v, k, burn);
    if r.Ok? {
      PriceCoversShares(v);
      OwnedWithinTotal(v, k);
      StillCovered(v.liquidity, v.totalShares, Price(v), burn * Price(v), burn);
      SharesRemoved(v, v', k, burn);
    }
  }

  /** A deposit's record: opened for a new owner, added to for a known one, and nobody else's. */
  lemma DepositRecords(v: Vault, minDeposit: nat, k: Key, sats: nat, now: nat, other: Key)
    requires Inv(v) && Deposited(v, minDeposit, k, sats, now).1.Ok?
    ensures var (v', r) := Deposited(v, minDeposit, k, sats, now);
      && k in v'.shares
      && (k !in v.shares ==> v'.shares[k] == Share(k, r.value, now))
      && (k in v.shares ==>
            && v'.shares[k].owner == v.shares[k].owner && v'.shares[k].mintedAt == v.shares[k].mintedAt)
      && (other != k ==>
            && (other in v'.shares <==> other in v.shares)
            && (other in v.shares ==> v'.shares[other] == v.shares[other]))
  {}

  /** A withdrawal's record: kept while shares remain, dropped with the last, and nobody else's. */
  lemma WithdrawalRecords(v: Vault, k: Key, burn: nat, other: Key)
    requires Inv(v) && Withdrawn(v, k, burn).1.Ok?
    ensures var v' := Withdrawn(v, k, burn).0;
      && (k in v'.shares <==> burn < SharesOf(v, k))
      && (k in v'.shares ==>
            && v'.shares[k].owner == v.shares[k].owner && v'.shares[k].mintedAt == v.shares[k].mintedAt)
      && (other != k ==>
            && (other in v'.shares <==> other in v.shares)
            && (other in v.shares ==> v'.shares[other] == v.shares[other]))
  {}

  /** Which refusal a deposit, a withdrawal or a lock meets. */
  lemma RefusesWith(v: Vault, minDeposit: nat, op: Op)
    requires Inv(v) && Do(v, minDeposit, op).1.Err?
    ensures var e := Do(v, minDeposit, op).1.error;
      match op
      case Deposit(_, sats, _) =>
        if v.paused then e == CircuitBreakerActive
        else if sats < minDeposit then e == DepositTooSmall(minDeposit, sats)
        else e.InvalidAmount? && U64 <= v.liquidity + sats
      case Withdraw(k, burn) =>
        if SharesOf(v, k) < burn then e == WithdrawalExceedsBalance(burn, SharesOf(v, k))
        else e == InsufficientLiquidity(burn * Price(v), v.liquidity - v.utilized)
      case Lock(amount) => e == InsufficientLiquidity(amount, v.liquidity - v.utilized)
      case _ => false
  {}

  /** Pausing stops deposits and resuming allows them again; neither moves money. */
  lemma PauseSwitches(v: Vault, minDeposit: nat, on: bool, k: Key, sats: nat, now: nat)
    requires Inv(v) && minDeposit <= sats && v.liquidity + sats < U64
    ensures var v' := Do(v, minDeposit, Pause(on)).0;
      && Inv(v') && (Do(v', minDeposit, Deposit(k, sats, now)).1.Ok? <==> !on)
      && v'.liquidity == v.liquidity && v'.totalShares == v.totalShares
      && v'.shares == v.shares && v'.utilized == v.utilized
  {
    StepKeepsInv(v, minDeposit, Pause(on));
  }

  /** A release frees what it names, and everything when it names more than is locked. */
  lemma ReleaseFrees(v: Vault, amount: nat)
    requires Inv(v)
    ensures var v' := Released(v, amount);
      && (amount <= v.utilized ==> Available(v') == Available(v) + amount)
      && (v.utilized <= amount ==> Available(v') == v'.liquidity)
      && v'.liquidity == v.liquidity && v'.totalShares == v.totalShares
      && v'.shares == v.shares && v'.paused == v.paused
  {}

  /** The opening price in numbers: one bitcoin buys the first hundred shares. */
  lemma OneBitcoinBuysAHundredShares(minDeposit: nat, k: Key, now: nat)
    requires minDeposit <= 100_000_000
    ensures Inv(NEW_VAULT)
    ensures var (v, r) := Deposited(NEW_VAULT, minDeposit, k, 100_000_000, now);
      r == Ok(100) && Price(v) == 1_000_000 && SharesOf(v, k) == 100
  {
    assert Counts(NEW_VAULT) == map[];
  }

  lemma LockKeepsInv(v: Vault, amount: nat)
    requires Inv(v)
    ensures Inv(Locked(v, amount).0) && Inv(Released(v, amount))
    ensures Locked(v, amount).1.Ok? <==> v.utilized + amount <= v.liquidity
    ensures Locked(v, amount).1.Ok? ==> Locked(v, amount).1.value == amount
    ensures Locked(v, amount).1.Ok? ==> Available(Locked(v, amount).0) == Available(v) - amount
    ensures Locked(v, amount).1.Ok? ==> Released(Locked(v, amount).0, amount) == v
  {
    assert Counts(Locked(v, amount).0) == Counts(v);
    assert Counts(Released(v, amount)) == Counts(v);
  }

  lemma StepKeepsInv(v: Vault, minDeposit: nat, op: Op)
    requires Inv(v)
    ensures Inv(Do(v, minDeposit, op).0)
    ensures Do(v, minDeposit, op).1.Err? ==> Do(v, minDeposit, op).0 == v
  {
    match op
    case Deposit(k, sats, now) => DepositKeepsInv(v, minDeposit, k, sats, now);
    case Withdraw(k, burn) => WithdrawKeepsInv(v, k, burn);
    case Lock(amount) => LockKeepsInv(v, amount);
    case Release(amount) => LockKeepsInv(v, amount);
    case Pause(on) => assert Counts(v.(paused := on)) == Counts(v);
  }

  /** No u64 arithmetic of a deposit or withdrawal overflows, and none divides by zero. */
  lemma NoOverflow(v: Vault, k: Key, sats: nat, burn: nat)
    requires Inv(v)
    ensures 0 < Price(v) < U64
    ensures v.liquidity + sats < U64 ==> v.totalShares + Bought(v, sats) < U64
    ensures burn <= SharesOf(v, k) ==> burn * Price(v) <= v.liquidity < U64
  {
    PriceCoversShares(v);
    OwnedWithinTotal(v, k);
    FloorDiv(sats, Price(v));
    MulMono(1, Price(v), Bought(v, sats));
    if burn <= SharesOf(v, k) {
      MulMono(burn, v.totalShares, Price(v));
    }
    if v.totalShares != 0 {
      MulMono(1, v.totalShares, Price(v));
    }
  }

  /**
   When the share price falls: exactly when a call burns the last share at a price above
   the initial one. While shares remain, no call lowers it.
   */
  lemma PriceFallsOnlyWhenEmptied(v: Vault, minDeposit: nat, op: Op)
    requires Inv(v)
    ensures var v' := Do(v, minDeposit, op).0;
      Price(v') < Price(v) <==> v'.totalShares == 0 < v.totalShares && INITIAL_PRICE < Price(v)
  {
    var v' := Do(v, minDeposit, op).0;
    PriceCoversShares(v);
    StepKeepsInv(v, minDeposit, op);
    match op
    case Deposit(k, sats, now) => DepositKeepsInv(v, minDeposit, k, sats, now); PriceAtLeast(v, v');
    case Withdraw(k, burn) => WithdrawKeepsInv(v, k, burn); PriceAtLeast(v, v');
    case Lock(_) =>
    case Release(_) =>
    case Pause(_) =>
  }

  lemma PriceAtLeast(v: Vault, v': Vault)
    requires v'.totalShares != 0 ==> Price(v) * v'.totalShares <= v'.liquidity
    ensures v'.totalShares != 0 ==> Price(v) <= Price(v')
  {
    if v'.totalShares != 0 {
      FloorIsLargest(v'.liquidity, v'.totalShares, Price(v));
    }
  }

  // ---------- the pool object ----------

  class Pool {
    const minDeposit: nat
    var totalLiquidity: nat
    var totalShares: nat
    var shares: map<Key, Share>
    var utilized: nat
    var circuitBreaker: bool

    ghost predicate Valid()
      reads this
    {
      Inv(View())
    }

    function View(): Vault
      reads this
    {
      Vault(totalLiquidity, totalShares, shares, utilized, circuitBreaker)
    }

    constructor (minDeposit: nat)
      ensures Valid() && View() == NEW_VAULT && this.minDeposit == minDeposit
    {
      this.minDeposit := minDeposit;
      totalLiquidity, totalShares, shares, utilized, circuitBreaker := 0, 0, map[], 0, false;
      new;
      assert Counts(NEW_VAULT) == map[];
    }

    function SharePrice(): (price: nat)
      reads this
      ensures price == Price(View())
    {
      if totalShares == 0 then INITIAL_PRICE else totalLiquidity / totalShares
    }

    function AvailableLiquidity(): (sats: nat)
      reads this
      ensures Valid() ==> sats + utilized == totalLiquidity
    {
      if utilized <= totalLiquidity then totalLiquidity - utilized else 0
    }

    method Deposit(depositor: Key, amount: nat, now: nat) returns (r: Result<nat>)
      requires Valid()
      modifies this
      ensures Valid()
      ensures (View(), r) == Do(old(View()), minDeposit, Op.Deposit(depositor, amount, now))
    {
      ghost var before := View();
      StepKeepsInv(before, minDeposit, Op.Deposit(depositor, amount, now));
      if circuitBreaker {
        return Err(CircuitBreakerActive);
      }
      if amount < minDeposit {
        return Err(DepositTooSmall(minDeposit, amount));
      }
      NoOverflow(before, depositor, amount, 0);
      var newShares := amount / SharePrice();
      if totalLiquidity + amount >= U64 {
        return Err(InvalidAmount("Overflow in liquidity"));
      }
      totalLiquidity := totalLiquidity + amount;
      totalShares := totalShares + newShares;
      if depositor in shares {
        var existing := shares[depositor];
        shares := shares[depositor := existing.(shares := existing.shares + newShares)];
      } else {
        shares := shares[depositor := Share(depositor, newShares, now)];
      }
      r := Ok(newShares);
    }

    method Withdraw(owner: Key, sharesToBurn: nat) returns (r: Result<nat>)
      requires Valid()
      modifies this
      ensures Valid()
      ensures (View(), r) == Do(old(View()), minDeposit, Op.Withdraw(owner, sharesToBurn))
    {
      ghost var before := View();
      StepKeepsInv(before, minDeposit, Op.Withdraw(owner, sharesToBurn));
      var current := if owner in shares then shares[owner].shares else 0;
      if sharesToBurn > current {
        return Err(WithdrawalExceedsBalance(sharesToBurn, current));
      }
      var amount := sharesToBurn * SharePrice();
      var available := AvailableLiquidity();
      if amount > available {
        return Err(InsufficientLiquidity(amount, available));
      }
      OwnedWithinTotal(before, owner);
      totalLiquidity := totalLiquidity - amount;
      totalShares := totalShares - sharesToBurn;
      Burn(owner, sharesToBurn);
      r := Ok(amount);
    }

    /** Takes shares off an owner's record, and drops the record once it is empty. */
    method Burn(owner: Key, burn: nat)
      requires burn <= SharesOf(View(), owner)
      modifies this`shares
      ensures shares == WithoutShares(old(View()), owner, burn)
    {
      if owner in shares {
        var share := shares[owner];
        share := share.(shares := share.shares - burn);
        shares := shares[owner := share];
        if share.shares == 0 {
          shares := shares - {owner};
          assert shares == old(shares) - {owner};
        }
      }
    }

    method LockLiquidity(amount: nat) returns (r: Result<nat>)
      requires Valid()
      modifies this
      ensures Valid()
      ensures (View(), r) == Do(old(View()), minDeposit, Op.Lock(amount))
    {
      StepKeepsInv(View(), minDeposit, Op.Lock(amount));
      var available := AvailableLiquidity();
      if amount > available {
        return Err(InsufficientLiquidity(amount, available));
      }
      if utilized + amount >= U64 {
        return Err(InvalidAmount("Overflow in utilized"));
      }
      utilized := utilized + amount;
      r := Ok(amount);
    }

    method ReleaseLiquidity(amount: nat)
      requires Valid()
      modifies this
      ensures Valid()
      ensures View() == Do(old(View()), minDeposit, Op.Release(amount)).0
    {
      StepKeepsInv(View(), minDeposit, Op.Release(amount));
      utilized := if amount <= utilized then utilized - amount else 0;
    }

    method SetCircuitBreaker(on: bool)
      requires Valid()
      modifies this
      ensures Valid()
      ensures View() == Do(old(View()), minDeposit, Op.Pause(on)).0
    {
      StepKeepsInv(View(), minDeposit, Op.Pause(on));
      circuitBreaker := on;
    }
  }
}

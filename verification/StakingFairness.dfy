/**
 How close each staker comes to the exact pro-rata share: over any run, what a staker
 received and is still owed never exceeds the real-valued share of every distribution,
 and falls short of it by no more than the rounding the run made room for.
 */
module StakingFairness {
  import opened Prelude
  import opened MapSums
  import opened Arithmetic
  import opened Staking
  import opened StakingSafety

  /** One staker's part in a run; `exposure` adds up the stake at each distribution. */
  datatype Account = Account(paid: int, rounded: int, earned: int, settlements: int, exposure: int, share: real) {
    function Plus(a: Account): Account {
      Account(paid + a.paid, rounded + a.rounded, earned + a.earned,
              settlements + a.settlements, exposure + a.exposure, share + a.share)
    }
  }

  const NO_ACCOUNT := Account(0, 0, 0, 0, 0, 0.0)

  ghost predicate Rewards(s: System, op: Op) {
    op.Distribute? && Effective(s.pool, op.sats)
  }

  /** The exact share of one call's distribution that the stake entitles to, in satoshis. */
  ghost function ExactShare(s: System, op: Op, k: Key): real {
    if Rewards(s, op) then (op.sats * AmountAt(s.pool, k)) as real / TotalStaked(s.pool) as real else 0.0
  }

  ghost function AccountOf(c: Config, s: System, op: Op, k: Key): Account {
    Account(PaidBy(c, s, op, k), RoundedOff(c, s, op, k), EarnedBy(s, op, k),
            if Settles(c, s, op, k) then 1 else 0,
            if Rewards(s, op) then AmountAt(s.pool, k) else 0,
            ExactShare(s, op, k))
  }

  ghost function RunAccount(c: Config, s: System, ops: seq<Op>, k: Key): Account
    decreases |ops|
  {
    if ops == [] then NO_ACCOUNT
    else AccountOf(c, s, ops[0], k).Plus(RunAccount(c, Next(c, s, ops[0]), ops[1..], k))
  }

  lemma FlooredCredit(sats: nat, a: nat, t: int)
    requires 0 < t
    ensures var d := sats * PRECISION / t;
      a * d * t <= PRECISION * (sats * a) <= (a * d + a) * t
  {
    var x, d := sats * PRECISION, sats * PRECISION / t;
    FloorDiv(x, t);
    MulMono(t * d, x, a);
    MulMono(x, t * d + t, a);
    assert a * d * t == t * d * a && (a * d + a) * t == (t * d + t) * a;
    assert x * a == PRECISION * (sats * a);
  }

  /** Flooring the growth per unit of stake costs a staker less than the stake itself. */
  lemma CreditNearShare(s: System, op: Op, k: Key)
    ensures var (earned, share) := (EarnedBy(s, op, k), ExactShare(s, op, k));
      && earned as real <= PRECISION as real * share
      && PRECISION as real * share <= (earned + if Rewards(s, op) then AmountAt(s.pool, k) else 0) as real
  {
    if Rewards(s, op) {
      TotalStakedBounds(s.pool);
      var a, t := AmountAt(s.pool, k), TotalStaked(s.pool);
      var d := Growth(s.pool, op.sats);
      FlooredCredit(op.sats, a, t);
      QuotientBetween(a * d, a * d + a, PRECISION * (op.sats * a), t);
      ScaledQuotient(op.sats * a, t);
    } else if op.Distribute? && op.sats != 0 {
      assert Growth(s.pool, op.sats) == 0;
    }
  }

  lemma QuotientBetween(lo: int, hi: int, x: int, t: int)
    requires 0 < t && lo * t <= x <= hi * t
    ensures lo as real <= x as real / t as real <= hi as real
  {
    assert (lo * t) as real == lo as real * t as real;
    assert (hi * t) as real == hi as real * t as real;
  }

  lemma ScaledQuotient(x: int, t: int)
    requires 0 < t
    ensures (PRECISION * x) as real / t as real == PRECISION as real * (x as real / t as real)
  {
    assert (PRECISION * x) as real == PRECISION as real * x as real;
  }

  lemma StepAccount(c: Config, s: System, op: Op, k: Key)
    requires Inv(c, s)
    ensures var (s', a) := (Next(c, s, op), AccountOf(c, s, op, k));
      && OwedTo(s'.pool, k) + PRECISION * a.paid + a.rounded == OwedTo(s.pool, k) + a.earned
      && 0 <= a.rounded <= a.settlements * (PRECISION - 1)
      && a.earned as real <= PRECISION as real * a.share <= (a.earned + a.exposure) as real
  {
    StepBalances(c, s, op, k);
    CreditNearShare(s, op, k);
  }

  lemma {:induction false} RunAccountBalances(c: Config, s: System, ops: seq<Op>, k: Key)
    requires Inv(c, s)
    ensures var (s', a) := (Run(c, s, ops), RunAccount(c, s, ops, k));
      && OwedTo(s'.pool, k) + PRECISION * a.paid + a.rounded == OwedTo(s.pool, k) + a.earned
      && 0 <= a.rounded <= a.settlements * (PRECISION - 1)
      && a.earned as real <= PRECISION as real * a.share <= (a.earned + a.exposure) as real
    decreases |ops|
  {
    if ops != [] {
      StepKeepsInv(c, s, ops[0]);
      StepAccount(c, s, ops[0], k);
      RunAccountBalances(c, Next(c, s, ops[0]), ops[1..], k);
    }
  }

  /**
   Every staker gets the pro-rata share: over any run from an empty pool, the sats paid
   and the scaled sats still owed, a million million to the satoshi, come to at most the
   exact share of all distributions, and miss it by at most one scaled unit per staked unit
   and distribution plus one satoshi per settlement.
   */
  lemma EveryStakerGetsTheirShare(c: Config, ops: seq<Op>, k: Key)
    ensures var (a, owed) := (RunAccount(c, GENESIS, ops, k), OwedTo(Run(c, GENESIS, ops).pool, k));
      var scaled := (1_000_000_000_000 * a.paid + owed) as real;
      && scaled <= 1_000_000_000_000.0 * a.share
      && 1_000_000_000_000.0 * a.share <= scaled + (a.exposure + a.settlements * 999_999_999_999) as real
  {
    GenesisInv(c);
    RunAccountBalances(c, GENESIS, ops, k);
  }

  // ---------- a staker who only waits ----------

  /** None of the calls is this staker's own staking, unstaking or claiming. */
  predicate Waits(ops: seq<Op>, k: Key) {
    forall i :: 0 <= i < |ops| ==> (ops[i].Stake? || ops[i].Unstake? || ops[i].Claim? ==> ops[i].staker != k)
  }

  /** How many calls of a run actually distributed something. */
  ghost function Distributions(c: Config, s: System, ops: seq<Op>): nat
    decreases |ops|
  {
    if ops == [] then 0
    else (if Rewards(s, ops[0]) then 1 else 0) + Distributions(c, Next(c, s, ops[0]), ops[1..])
  }

  lemma WaitingStep(c: Config, s: System, op: Op, k: Key)
    requires op.Stake? || op.Unstake? || op.Claim? ==> op.staker != k
    ensures AmountAt(Next(c, s, op).pool, k) == AmountAt(s.pool, k)
    ensures k in Next(c, s, op).pool.positions <==> k in s.pool.positions
    ensures PaidBy(c, s, op, k) == 0 && !Settles(c, s, op, k)
  {}

  lemma {:induction false} WaitingChangesNothing(c: Config, s: System, ops: seq<Op>, k: Key)
    requires Waits(ops, k)
    ensures AmountAt(Run(c, s, ops).pool, k) == AmountAt(s.pool, k)
    ensures k in Run(c, s, ops).pool.positions <==> k in s.pool.positions
    ensures RunAccount(c, s, ops, k).paid == RunAccount(c, s, ops, k).settlements == 0
    decreases |ops|
  {
    if ops != [] {
      WaitingStep(c, s, ops[0], k);
      WaitingChangesNothing(c, Next(c, s, ops[0]), ops[1..], k);
    }
  }

  /** The stake added up once for each distribution of a run. */
  function Repeated(a: nat, n: nat): nat {
    if n == 0 then 0 else a + Repeated(a, n - 1)
  }

  lemma {:induction false} RepeatedIsProduct(a: nat, n: nat)
    ensures Repeated(a, n) == a * n
  {
    if n != 0 {
      RepeatedIsProduct(a, n - 1);
    }
  }

  lemma {:induction false} WaitingExposure(c: Config, s: System, ops: seq<Op>, k: Key)
    requires Waits(ops, k)
    ensures RunAccount(c, s, ops, k).exposure == Repeated(AmountAt(s.pool, k), Distributions(c, s, ops))
    decreases |ops|
  {
    if ops != [] {
      WaitingStep(c, s, ops[0], k);
      WaitingExposure(c, Next(c, s, ops[0]), ops[1..], k);
    }
  }

  /** What a claim pays, also when it is refused because there is nothing to pay. */
  function ClaimPays(s: System, k: Key): int {
    var r := DoClaim(s, k).1;
    if r.Ok? then r.value else 0
  }

  lemma ClaimPaysFloor(c: Config, s: System, k: Key)
    requires Inv(c, s) && k in s.pool.positions
    ensures ClaimPays(s, k) == OwedTo(s.pool, k) / PRECISION
  {
    var u := Unsettled(s.pool.positions[k], s.pool.acc);
    FloorDiv(u, PRECISION);
  }

  /**
   A staker who starts settled, waits through a run and then claims is paid more than the
   exact share less one satoshi and the stake's worth of scaled units per distribution,
   and never more than the share.
   */
  lemma OneSettlementIsAccurate(c: Config, s: System, ops: seq<Op>, k: Key)
    requires Inv(c, s) && Waits(ops, k) && k in s.pool.positions && OwedTo(s.pool, k) == 0
    ensures var (q, share) := (ClaimPays(Run(c, s, ops), k), RunAccount(c, s, ops, k).share);
      var lost := AmountAt(s.pool, k) * Distributions(c, s, ops);
      && q as real <= share
      && share - lost as real / PRECISION as real - 1.0 < q as real
  {
    RunKeepsInv(c, s, ops);
    WaitingChangesNothing(c, s, ops, k);
    WaitingExposure(c, s, ops, k);
    RepeatedIsProduct(AmountAt(s.pool, k), Distributions(c, s, ops));
    RunAccountBalances(c, s, ops, k);
    ClaimPaysFloor(c, Run(c, s, ops), k);
    var owed := OwedTo(Run(c, s, ops).pool, k);
    var lost := AmountAt(s.pool, k) * Distributions(c, s, ops);
    FloorDiv(owed, PRECISION);
    FloorNearShare(owed, lost, RunAccount(c, s, ops, k).share);
  }

  lemma FloorNearShare(owed: int, lost: int, share: real)
    requires owed as real <= PRECISION as real * share <= (owed + lost) as real
    ensures (owed / PRECISION) as real <= share
    ensures share - lost as real / PRECISION as real - 1.0 < (owed / PRECISION) as real
  {
    var q := owed / PRECISION;
    FloorDiv(owed, PRECISION);
    assert PRECISION as real * q as real == (PRECISION * q) as real;
    assert lost as real == PRECISION as real * (lost as real / PRECISION as real);
  }

  // ---------- one settlement against many ----------

  /** The same run with this staker claiming after every call. */
  function Eagerly(ops: seq<Op>, k: Key): seq<Op> {
    if ops == [] then [] else [ops[0], Claim(k)] + Eagerly(ops[1..], k)
  }

  /** Two states that differ in nothing but how much of one staker's reward is settled. */
  ghost predicate AlikeButFor(s: System, t: System, k: Key) {
    && s.ledger == t.ledger
    && s.pool.acc == t.pool.acc
    && s.pool.positions.Keys == t.pool.positions.Keys
    && AmountAt(s.pool, k) == AmountAt(t.pool, k)
    && s.pool.positions - {k} == t.pool.positions - {k}
  }

  lemma AlikeElsewhere(s: System, t: System, k: Key, j: Key)
    requires AlikeButFor(s, t, k) && j != k
    ensures j in s.pool.positions <==> j in t.pool.positions
    ensures j in s.pool.positions ==> s.pool.positions[j] == t.pool.positions[j]
  {
    if j in s.pool.positions {
      assert s.pool.positions[j] == (s.pool.positions - {k})[j];
      assert t.pool.positions[j] == (t.pool.positions - {k})[j];
    }
  }

  lemma AlikeTotals(s: System, t: System, k: Key)
    requires AlikeButFor(s, t, k)
    ensures Amounts(s.pool) == Amounts(t.pool)
  {
    forall j | j in s.pool.positions
      ensures Amounts(s.pool)[j] == Amounts(t.pool)[j]
    {
      if j != k { AlikeElsewhere(s, t, k, j); }
    }
  }

  lemma AlikeStep(c: Config, s: System, t: System, op: Op, k: Key)
    requires AlikeButFor(s, t, k)
    requires op.Stake? || op.Unstake? || op.Claim? ==> op.staker != k
    ensures AlikeButFor(Next(c, s, op), Next(c, t, op), k)
    ensures EarnedBy(s, op, k) == EarnedBy(t, op, k) && (Rewards(s, op) <==> Rewards(t, op))
  {
    AlikeTotals(s, t, k);
    if op.Stake? || op.Unstake? || op.Claim? {
      AlikeElsewhere(s, t, k, op.staker);
      AlikeActor(c, s, t, op, k);
    }
  }

  lemma AlikeActor(c: Config, s: System, t: System, op: Op, k: Key)
    requires AlikeButFor(s, t, k)
    requires (op.Stake? || op.Unstake? || op.Claim?) && op.staker != k
    requires op.staker in s.pool.positions <==> op.staker in t.pool.positions
    requires op.staker in s.pool.positions ==> s.pool.positions[op.staker] == t.pool.positions[op.staker]
    ensures AlikeButFor(Next(c, s, op), Next(c, t, op), k)
  {
    var s', t' := Next(c, s, op), Next(c, t, op);
    var j := op.staker;
    if j in s'.pool.positions && s' != s {
      assert s'.pool.positions - {k} == (s.pool.positions - {k})[j := s'.pool.positions[j]];
      assert t'.pool.positions - {k} == (t.pool.positions - {k})[j := t'.pool.positions[j]];
    } else if s' != s {
      assert s'.pool.positions - {k} == (s.pool.positions - {k}) - {j};
      assert t'.pool.positions - {k} == (t.pool.positions - {k}) - {j};
    }
  }

  lemma ClaimStaysAlike(c: Config, s: System, k: Key)
    requires Inv(c, s) && k in s.pool.positions
    ensures AlikeButFor(s, Next(c, s, Claim(k)), k)
    ensures OwedTo(Next(c, s, Claim(k)).pool, k) == 0 && EarnedBy(s, Claim(k), k) == 0
    ensures 0 <= RoundedOff(c, s, Claim(k), k) <= PRECISION - 1
    ensures OwedTo(s.pool, k) == 0 ==> RoundedOff(c, s, Claim(k), k) == 0
  {
    assert Next(c, s, Claim(k)).pool.positions - {k} == s.pool.positions - {k};
    FloorDiv(Unsettled(s.pool.positions[k], s.pool.acc), PRECISION);
  }

  lemma {:induction false} EagerlyEarnsTheSame(c: Config, s: System, t: System, ops: seq<Op>, k: Key)
    requires Inv(c, t) && Waits(ops, k) && AlikeButFor(s, t, k)
    requires k in t.pool.positions && OwedTo(t.pool, k) == 0
    ensures var (a, b) := (RunAccount(c, s, ops, k), RunAccount(c, t, Eagerly(ops, k), k));
      && b.earned == a.earned
      && 0 <= b.rounded <= Distributions(c, s, ops) * (PRECISION - 1)
      && OwedTo(Run(c, t, Eagerly(ops, k)).pool, k) == 0
    decreases |ops|
  {
    if ops != [] {
      var s1, t1 := Next(c, s, ops[0]), Next(c, t, ops[0]);
      var t2 := Next(c, t1, Claim(k));
      StepKeepsInv(c, t, ops[0]);
      StepKeepsInv(c, t1, Claim(k));
      WaitingStep(c, t, ops[0], k);
      StepBalances(c, t, ops[0], k);
      AlikeStep(c, s, t, ops[0], k);
      ClaimStaysAlike(c, t1, k);
      EagerlyEarnsTheSame(c, s1, t2, ops[1..], k);
      TwoCalls(c, t, ops[0], Claim(k), Eagerly(ops[1..], k), k);
    }
  }

  /** A run that starts with two given calls, unfolded. */
  lemma TwoCalls(c: Config, t: System, first: Op, second: Op, rest: seq<Op>, k: Key)
    ensures var t1 := Next(c, t, first);
      var t2 := Next(c, t1, second);
      && Run(c, t, [first, second] + rest) == Run(c, t2, rest)
      && RunAccount(c, t, [first, second] + rest, k)
      == AccountOf(c, t, first, k).Plus(AccountOf(c, t1, second, k).Plus(RunAccount(c, t2, rest, k)))
  {
    var ops := [first, second] + rest;
    assert ops[1..] == [second] + rest;
    assert ([second] + rest)[1..] == rest;
    assert Run(c, t, ops) == Run(c, Next(c, t, first), [second] + rest);
    assert RunAccount(c, t, ops, k)
        == AccountOf(c, t, first, k).Plus(RunAccount(c, Next(c, t, first), [second] + rest, k));
  }

  /**
   Claiming after every call never pays more in total than waiting and claiming once, and
   loses at most one satoshi for every distribution after the first.
   */
  lemma ManySettlementsLoseLittle(c: Config, s: System, ops: seq<Op>, k: Key)
    requires Inv(c, s) && Waits(ops, k) && k in s.pool.positions && OwedTo(s.pool, k) == 0
    ensures var once := ClaimPays(Run(c, s, ops), k);
      var many := RunAccount(c, s, Eagerly(ops, k), k).paid;
      var n := Distributions(c, s, ops);
      many <= once <= many + if n == 0 then 0 else n - 1
  {
    RunKeepsInv(c, s, ops);
    WaitingChangesNothing(c, s, ops, k);
    RunAccountBalances(c, s, ops, k);
    RunAccountBalances(c, s, Eagerly(ops, k), k);
    ClaimPaysFloor(c, Run(c, s, ops), k);
    EagerlyEarnsTheSame(c, s, s, ops, k);
    FloorDiv(RunAccount(c, s, ops, k).earned, PRECISION);
  }
}

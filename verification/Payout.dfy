/** Payout curves: how the collateral of a contract is split by the oracle's outcome. */
module Payout {
  import opened Prelude
  import opened Arithmetic

  datatype Point = Point(outcome: int, offererPayout: nat)

  datatype Curve =
    | Binary(winAmount: nat, loseAmount: nat)
    | Linear(offererWinsAt: int, accepterWinsAt: int, totalCollateral: nat)
    | Discrete(points: seq<Point>)
    | Polynomial(coefficients: seq<real>, minPayout: nat, maxPayout: nat)
  {
    /** A clamp needs its bounds in order; nothing else is asked of a curve before it is used. */
    predicate Usable() { Polynomial? ==> minPayout <= maxPayout < U64 }
  }

  function Distance(a: int, b: int): nat { if a < b then b - a else a - b }

  /** The position of the first point among those nearest to the outcome. */
  function Nearest(points: seq<Point>, outcome: int): nat
    requires points != []
    ensures Nearest(points, outcome) < |points|
  {
    if |points| == 1 then 0
    else
      var n := |points| - 1;
      var i := Nearest(points[..n], outcome);
      if Distance(points[n].outcome, outcome) < Distance(points[i].outcome, outcome) then n else i
  }

  lemma {:induction false} NearestIsFirstMinimum(points: seq<Point>, outcome: int)
    requires points != []
    ensures var i := Nearest(points, outcome);
      && (forall j :: 0 <= j < |points| ==>
            Distance(points[i].outcome, outcome) <= Distance(points[j].outcome, outcome))
      && (forall j :: 0 <= j < i ==>
            Distance(points[i].outcome, outcome) < Distance(points[j].outcome, outcome))
  {
    if |points| > 1 {
      var front := points[..|points| - 1];
      NearestIsFirstMinimum(front, outcome);
      assert forall j :: 0 <= j < |front| ==> front[j] == points[j];
    }
  }

  function Power(x: real, n: nat): real { if n == 0 then 1.0 else x * Power(x, n - 1) }

  function PolynomialAt(coefficients: seq<real>, x: real): real {
    if coefficients == [] then 0.0
    else
      var n := |coefficients| - 1;
      PolynomialAt(coefficients[..n], x) + coefficients[n] * Power(x, n)
  }

  /** The cast of a float to u64, which saturates at both ends. */
  function Saturated(r: real): nat {
    if r < 0.0 then 0 else if r.Floor >= U64 then U64 - 1 else r.Floor
  }

  function Clamped(x: nat, lo: nat, hi: nat): nat {
    if x < lo then lo else if x > hi then hi else x
  }

  /** The part of a total that a position within a range stands for, rounded down. */
  function Proportion(total: nat, position: nat, range: nat): nat
    requires 0 < range
  {
    total * position / range
  }

  function OffererPayout(curve: Curve, outcome: int): nat
    requires curve.Usable()
  {
    match curve
    case Binary(win, lose) => if outcome > 0 then win else lose
    case Linear(hi, lo, total) =>
      if outcome >= hi then total
      else if outcome <= lo then 0
      else Proportion(total, outcome - lo, hi - lo)
    case Discrete(points) =>
      if points == [] then 0 else points[Nearest(points, outcome)].offererPayout
    case Polynomial(coefficients, lo, hi) =>
      Clamped(Saturated(PolynomialAt(coefficients, outcome as real)), lo, hi)
  }

  function AccepterPayout(curve: Curve, outcome: int, total: nat): nat
    requires curve.Usable()
  {
    var offerer := OffererPayout(curve, outcome);
    if offerer <= total then total - offerer else 0
  }

  /** What curve validation accepts. */
  predicate Validates(curve: Curve, total: nat) {
    match curve
    case Binary(win, lose) => win + lose == total
    case Linear(hi, lo, _) => lo < hi
    case Discrete(points) => points != []
    case Polynomial(coefficients, _, _) => coefficients != []
  }

  /** What validation checks, in terms of what the curve pays at its own outcomes. */
  lemma ValidatesExactlyWhen(curve: Curve, total: nat)
    requires curve.Usable()
    ensures curve.Binary? ==>
      (Validates(curve, total) <==> OffererPayout(curve, 1) + OffererPayout(curve, 0) == total)
    ensures curve.Linear? ==> (Validates(curve, total) <==> curve.accepterWinsAt < curve.offererWinsAt)
    ensures curve.Discrete? ==> (Validates(curve, total) <==> 0 < |curve.points|)
    ensures curve.Polynomial? ==> (Validates(curve, total) <==> 0 < |curve.coefficients|)
  {}

  /** The accepter gets what the offerer leaves of the total, nothing if that is none. */
  lemma AccepterGetsTheRest(curve: Curve, outcome: int, total: nat)
    requires curve.Usable()
    ensures AccepterPayout(curve, outcome, total) <= total
    ensures OffererPayout(curve, outcome) <= total ==> Splits(curve, outcome, total)
    ensures total <= OffererPayout(curve, outcome) ==> AccepterPayout(curve, outcome, total) == 0
  {}

  // ---------- the split ----------

  /** The two payouts are the whole collateral, no more and no less. */
  predicate Splits(curve: Curve, outcome: int, total: nat)
    requires curve.Usable()
  {
    OffererPayout(curve, outcome) + AccepterPayout(curve, outcome, total) == total
  }

  lemma LinearWithinTotal(hi: int, lo: int, total: nat, outcome: int)
    requires lo < outcome < hi
    ensures 0 <= total * (outcome - lo) / (hi - lo) <= total
  {
    assert 0 <= total * (outcome - lo);
    MulMono(outcome - lo, hi - lo, total);
    FloorIsLargest(total * (outcome - lo), hi - lo, total + 1);
    assert (hi - lo) * (total + 1) == (hi - lo) * total + (hi - lo);
    assert total * (outcome - lo) == (outcome - lo) * total;
  }

  /** A linear curve pays at most its total, all of it from one end on and nothing up to the other. */
  lemma LinearBounded(curve: Curve, outcome: int)
    requires curve.Linear?
    ensures OffererPayout(curve, outcome) <= curve.totalCollateral
    ensures curve.offererWinsAt <= outcome ==> OffererPayout(curve, outcome) == curve.totalCollateral
    ensures outcome <= curve.accepterWinsAt && outcome < curve.offererWinsAt ==> OffererPayout(curve, outcome) == 0
  {
    if curve.accepterWinsAt < outcome < curve.offererWinsAt {
      LinearWithinTotal(curve.offererWinsAt, curve.accepterWinsAt, curve.totalCollateral, outcome);
    }
  }

  /** A validated binary curve splits every outcome: one side gets each of its two amounts. */
  lemma ValidBinarySplits(curve: Curve, total: nat, outcome: int)
    requires curve.Binary? && Validates(curve, total)
    ensures Splits(curve, outcome, total)
    ensures AccepterPayout(curve, outcome, total) == if outcome > 0 then curve.loseAmount else curve.winAmount
  {}

  /** A linear curve splits every outcome exactly when its own total is within the argument. */
  lemma LinearSplitsExactlyWhen(curve: Curve, total: nat)
    requires curve.Linear?
    ensures (forall outcome :: Splits(curve, outcome, total)) <==> curve.totalCollateral <= total
  {
    forall outcome ensures OffererPayout(curve, outcome) <= curve.totalCollateral {
      LinearBounded(curve, outcome);
    }
    assert Splits(curve, curve.offererWinsAt, total) <==> curve.totalCollateral <= total;
  }

  /** `a` lies in the interval around `x` that reaches out to `b`: it is no farther away. */
  predicate NoFarther(a: int, b: int, x: int) {
    if x <= b then x - (b - x) <= a <= b else b <= a <= x + (x - b)
  }

  /** A discrete curve pays what the earliest of its nearest points says, and nothing without points. */
  lemma DiscretePaysNearest(points: seq<Point>, outcome: int, i: nat)
    ensures points == [] ==> OffererPayout(Discrete(points), outcome) == 0
    ensures
      && i < |points|
      && (forall j :: i <= j < |points| ==> NoFarther(points[i].outcome, points[j].outcome, outcome))
      && (forall j :: 0 <= j < i ==> !NoFarther(points[j].outcome, points[i].outcome, outcome))
      ==> OffererPayout(Discrete(points), outcome) == points[i].offererPayout
  {
    if points != [] {
      NearestIsFirstMinimum(points, outcome);
    }
  }

  /** A point decides some outcome exactly when no earlier point has its outcome. */
  predicate Decides(points: seq<Point>, i: nat)
    requires i < |points|
  {
    forall j :: 0 <= j < i ==> points[j].outcome != points[i].outcome
  }

  /**
   When a discrete curve splits every outcome: validation does not bound its payouts, so it
   does exactly when every point that can decide an outcome pays at most the total.
   */
  lemma DiscreteSplitsExactlyWhen(points: seq<Point>, total: nat)
    requires points != []
    ensures (forall outcome :: Splits(Discrete(points), outcome, total))
       <==> (forall i :: 0 <= i < |points| && Decides(points, i) ==> points[i].offererPayout <= total)
  {
    forall outcome
      ensures var i := Nearest(points, outcome);
        Decides(points, i) && (Splits(Discrete(points), outcome, total) <==> points[i].offererPayout <= total)
    {
      NearestIsFirstMinimum(points, outcome);
    }
    forall i | 0 <= i < |points| && Decides(points, i)
      ensures Splits(Discrete(points), points[i].outcome, total) <==> points[i].offererPayout <= total
    {
      NearestIsFirstMinimum(points, points[i].outcome);
      assert Distance(points[i].outcome, points[i].outcome) == 0;
      assert Nearest(points, points[i].outcome) == i;
    }
  }

  /** A validated discrete curve that pays more than there is. */
  lemma ValidationDoesNotBoundDiscrete()
    ensures Validates(Discrete([Point(0, 2)]), 1)
    ensures !Splits(Discrete([Point(0, 2)]), 0, 1)
  {}

  // ---------- the linear curve ----------

  /** Between its ends a linear curve pays the proportion of the way, rounded down. */
  lemma LinearInterpolates(curve: Curve, outcome: int)
    requires curve.Linear? && curve.accepterWinsAt < outcome < curve.offererWinsAt
    ensures var (range, pay) := (curve.offererWinsAt - curve.accepterWinsAt, OffererPayout(curve, outcome));
      pay * range <= curve.totalCollateral * (outcome - curve.accepterWinsAt) < (pay + 1) * range
  {
    FloorDiv(curve.totalCollateral * (outcome - curve.accepterWinsAt), curve.offererWinsAt - curve.accepterWinsAt);
  }

  /** A linear curve pays more the higher the outcome, all of it at one end and none at the other. */
  lemma LinearIsMonotone(curve: Curve, a: int, b: int)
    requires curve.Linear? && curve.accepterWinsAt < curve.offererWinsAt && a <= b
    ensures OffererPayout(curve, a) <= OffererPayout(curve, b)
    ensures OffererPayout(curve, curve.offererWinsAt) == curve.totalCollateral
    ensures OffererPayout(curve, curve.accepterWinsAt) == 0
  {
    var hi, lo, total := curve.offererWinsAt, curve.accepterWinsAt, curve.totalCollateral;
    if lo < a < hi {
      LinearWithinTotal(hi, lo, total, a);
      if b < hi {
        MulMono(a - lo, b - lo, total);
        FloorIsLargest(total * (b - lo), hi - lo, total * (a - lo) / (hi - lo));
        FloorDiv(total * (a - lo), hi - lo);
      }
    } else if lo < b < hi {
      LinearWithinTotal(hi, lo, total, b);
    }
  }

  /** A polynomial curve pays the whole part of its value when that is within bounds, else the nearer bound. */
  lemma PolynomialPays(curve: Curve, outcome: int)
    requires curve.Polynomial? && curve.Usable()
    ensures var (value, pay) := (PolynomialAt(curve.coefficients, outcome as real), OffererPayout(curve, outcome));
      && (value < curve.minPayout as real ==> pay == curve.minPayout)
      && (curve.maxPayout as real <= value ==> pay == curve.maxPayout)
      && (curve.minPayout as real <= value < curve.maxPayout as real ==> pay as real <= value < pay as real + 1.0)
  {}

  /** A polynomial curve stays within its bounds, and splits whatever covers its maximum. */
  lemma PolynomialBounded(curve: Curve, outcome: int, total: nat)
    requires curve.Polynomial? && curve.Usable()
    ensures curve.minPayout <= OffererPayout(curve, outcome) <= curve.maxPayout
    ensures curve.maxPayout <= total ==> Splits(curve, outcome, total)
  {}

  // ---------- the polynomial loop ----------

  /** The sum of terms is the nested form: the constant, plus x times the rest. */
  lemma {:induction false} PolynomialNests(a: real, coefficients: seq<real>, x: real)
    ensures PolynomialAt([a] + coefficients, x) == a + x * PolynomialAt(coefficients, x)
  {
    var whole, n := [a] + coefficients, |coefficients|;
    if n == 0 {
      assert whole[..0] == [];
    } else {
      assert whole[..n] == [a] + coefficients[..n - 1];
      PolynomialNests(a, coefficients[..n - 1], x);
      var term := coefficients[n - 1];
      assert whole[n] == term;
      assert term * (x * Power(x, n - 1)) == x * (term * Power(x, n - 1));
    }
  }

  /** The accumulation of the terms, lowest degree first. */
  method EvaluatePolynomial(coefficients: seq<real>, x: real) returns (result: real)
    ensures result == PolynomialAt(coefficients, x)
  {
    result := 0.0;
    for i := 0 to |coefficients|
      invariant result == PolynomialAt(coefficients[..i], x)
    {
      assert coefficients[..i + 1][..i] == coefficients[..i];
      result := result + coefficients[i] * Power(x, i);
    }
    assert coefficients[..|coefficients|] == coefficients;
  }

  // ---------- builders ----------

  function WinnerTakesAll(total: nat): Curve { Binary(total, 0) }

  function LinearBetween(total: nat, offererWinsAt: int, accepterWinsAt: int): Curve {
    Linear(offererWinsAt, accepterWinsAt, total)
  }

  /** Built curves split their total; a linear one validates exactly if its end points are in order. */
  lemma BuiltCurvesSplit(total: nat, hi: int, lo: int, outcome: int)
    ensures Validates(WinnerTakesAll(total), total) && Splits(WinnerTakesAll(total), outcome, total)
    ensures Validates(LinearBetween(total, hi, lo), total) <==> lo < hi
    ensures Splits(LinearBetween(total, hi, lo), outcome, total)
  {
    LinearSplitsExactlyWhen(LinearBetween(total, hi, lo), total);
  }
}

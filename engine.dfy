/** The compensation engine: one "base salary plus a percentage of the
    collections above a threshold" formula, evaluated for three independent
    parameter sets against one shared net-collections value. All amounts are
    mathematical reals. */
module Engine {

  /** One formula's parameter set (the dictionaries built at app.py:193-209). */
  datatype Params = Params(baseSalary: real, multiplier: real, bonusPercentage: real)

  /** The bounds the input widgets put on a parameter set (app.py:107-132):
      base salary in [0, 1000000], multiplier in [1, 5], percentage in [0, 100]. */
  predicate ValidParams(p: Params) {
    && 0.0 <= p.baseSalary <= 1000000.0
    && 1.0 <= p.multiplier <= 5.0
    && 0.0 <= p.bonusPercentage <= 100.0
  }

  /** The record one formula produces (one entry of the dictionary at app.py:56-90):
      the base component, the bonus threshold, the collections above it,
      the bonus component and the total. */
  datatype FormulaResult = FormulaResult(
    baseComponent: real,
    threshold: real,
    excess: real,
    bonus: real,
    total: real)

  /** The three records of one evaluation, one per formula slot. */
  datatype Evaluation = Evaluation(formula1: FormulaResult, formula2: FormulaResult, formula3: FormulaResult)

  /** Python's `max(0, x)`. */
  function ClampAtZero(x: real): (r: real)
    ensures r >= 0.0 && r >= x
    ensures r == 0.0 || r == x
  {
    if 0.0 >= x then 0.0 else x
  }

  /** The bonus threshold of a parameter set; it never depends on collections. */
  function Threshold(p: Params): (t: real)
    ensures p.baseSalary >= 0.0 && p.multiplier >= 1.0 ==> t >= p.baseSalary
    ensures p.baseSalary >= 0.0 && p.multiplier >= 1.0 ==> t >= 0.0
  {
    p.baseSalary * p.multiplier
  }

  /** The bonus rate as a fraction: `bonus_percentage / 100`. */
  function Rate(p: Params): real {
    p.bonusPercentage / 100.0
  }

  /** Evaluates one formula at the given net collections. */
  function Compute(p: Params, collections: real): (r: FormulaResult)
    ensures r.baseComponent == p.baseSalary
    ensures r.threshold == p.baseSalary * p.multiplier
    ensures r.excess >= 0.0 && r.excess >= collections - r.threshold
    ensures r.excess == 0.0 || r.excess == collections - r.threshold
    ensures r.bonus == r.excess * (p.bonusPercentage / 100.0)
    ensures r.total == r.baseComponent + r.bonus
  {
    var threshold := Threshold(p);
    var excess := ClampAtZero(collections - threshold);
    var bonus := excess * Rate(p);
    FormulaResult(p.baseSalary, threshold, excess, bonus, p.baseSalary + bonus)
  }

  /** `calculate_compensation`: the same formula applied to each parameter set. */
  function ComputeAll(p1: Params, p2: Params, p3: Params, collections: real): (r: Evaluation)
    ensures r.formula1 == Compute(p1, collections)
    ensures r.formula2 == Compute(p2, collections)
    ensures r.formula3 == Compute(p3, collections)
  {
    Evaluation(Compute(p1, collections), Compute(p2, collections), Compute(p3, collections))
  }

  /** The thresholds shown beside each result (computed a second time by the
      caller) agree with the threshold inside the record, at every collections value. */
  lemma DisplayedThresholdAgrees(p: Params, collections: real)
    ensures Threshold(p) == Compute(p, collections).threshold
  {
  }

  /** The bonus is the collections above the threshold scaled by the rate,
      and it is never negative when the rate is not. */
  lemma BonusNonNegative(p: Params, collections: real)
    requires p.bonusPercentage >= 0.0
    ensures Compute(p, collections).bonus >= 0.0
    ensures Compute(p, collections).total >= p.baseSalary
  {
    var r := Compute(p, collections);
    ScaledNonNegative(r.excess, Rate(p), r.bonus);
  }

  /** At or below the threshold there is no bonus and the total is the base salary. */
  lemma NoBonusUpToThreshold(p: Params, collections: real)
    requires collections <= Threshold(p)
    ensures Compute(p, collections).excess == 0.0
    ensures Compute(p, collections).bonus == 0.0
    ensures Compute(p, collections).total == p.baseSalary
  {
  }

  /** A zero percentage never pays a bonus, whatever the collections. */
  lemma NoBonusAtZeroRate(p: Params, collections: real)
    requires p.bonusPercentage == 0.0
    ensures Compute(p, collections).bonus == 0.0
    ensures Compute(p, collections).total == p.baseSalary
  {
  }

  /** A bonus is paid exactly when collections pass the threshold and the rate is positive. */
  lemma BonusPaidIff(p: Params, collections: real)
    requires p.bonusPercentage >= 0.0
    ensures Compute(p, collections).bonus > 0.0
        <==> collections > Threshold(p) && p.bonusPercentage > 0.0
  {
    var r := Compute(p, collections);
    if collections > Threshold(p) && p.bonusPercentage > 0.0 {
      ScaledPositive(r.excess, Rate(p), r.bonus);
    } else if collections <= Threshold(p) {
      assert r.excess == 0.0;
    } else {
      assert Rate(p) == 0.0;
    }
  }

  /** With a percentage in [0, 100], the total lies between the base salary and
      the base salary plus everything collected above the threshold. */
  lemma TotalBounds(p: Params, collections: real)
    requires 0.0 <= p.bonusPercentage <= 100.0
    ensures var r := Compute(p, collections);
      p.baseSalary <= r.total <= p.baseSalary + ClampAtZero(collections - Threshold(p))
  {
    var r := Compute(p, collections);
    ScaledAtMost(r.excess, Rate(p), r.bonus);
  }

  /** For fixed parameters the total never decreases as collections grow. */
  lemma TotalMonotone(p: Params, c1: real, c2: real)
    requires p.bonusPercentage >= 0.0
    requires c1 <= c2
    ensures Compute(p, c1).total <= Compute(p, c2).total
  {
    var r1, r2 := Compute(p, c1), Compute(p, c2);
    ScaledMonotone(r1.excess, r2.excess, Rate(p), r1.bonus, r2.bonus);
  }

  /** At or above the threshold the total is affine in collections, with slope
      `bonus_percentage / 100`. */
  lemma AffineAboveThreshold(p: Params, collections: real)
    requires collections >= Threshold(p)
    ensures Compute(p, collections).total
         == p.baseSalary + (collections - Threshold(p)) * (p.bonusPercentage / 100.0)
  {
  }

  /** Between two collections values at or above the threshold, the total
      increases by the rate times the increase in collections. */
  lemma SlopeAboveThreshold(p: Params, c1: real, c2: real)
    requires Threshold(p) <= c1 && Threshold(p) <= c2
    ensures Compute(p, c2).total - Compute(p, c1).total
         == (c2 - c1) * (p.bonusPercentage / 100.0)
  {
    AffineAboveThreshold(p, c1);
    AffineAboveThreshold(p, c2);
    var t, k := Threshold(p), Rate(p);
    assert (c2 - t) * k - (c1 - t) * k == (c2 - c1) * k;
  }

  /** Each formula's record depends only on its own parameter set and the
      shared collections value: changing the other two slots changes nothing. */
  lemma FormulasIndependent(p1: Params, p2: Params, p3: Params, q1: Params, q2: Params, q3: Params, collections: real)
    ensures ComputeAll(p1, q2, q3, collections).formula1 == ComputeAll(p1, p2, p3, collections).formula1
    ensures ComputeAll(q1, p2, q3, collections).formula2 == ComputeAll(p1, p2, p3, collections).formula2
    ensures ComputeAll(q1, q2, p3, collections).formula3 == ComputeAll(p1, p2, p3, collections).formula3
  {
  }

  /** The three slots evaluate one and the same formula: swapping two parameter
      sets swaps the two records. */
  lemma SlotsInterchangeable(p1: Params, p2: Params, p3: Params, collections: real)
    ensures ComputeAll(p2, p1, p3, collections).formula1 == ComputeAll(p1, p2, p3, collections).formula2
    ensures ComputeAll(p1, p3, p2, collections).formula2 == ComputeAll(p1, p2, p3, collections).formula3
  {
  }

  /** The worked examples: the default parameters above and below the
      threshold, and a zero base salary at full rate. */
  lemma Examples()
    ensures Compute(Params(300000.0, 3.0, 30.0), 1000000.0)
         == FormulaResult(300000.0, 900000.0, 100000.0, 30000.0, 330000.0)
    ensures Compute(Params(300000.0, 3.0, 30.0), 500000.0)
         == FormulaResult(300000.0, 900000.0, 0.0, 0.0, 300000.0)
    ensures Compute(Params(0.0, 1.0, 100.0), 200000.0)
         == FormulaResult(0.0, 0.0, 200000.0, 200000.0, 200000.0)
  {
  }

  // Facts about scaling by a rate that the lemmas above rely on; the product
  // is passed in by name so that the solver need not match product terms.

  lemma ScaledNonNegative(a: real, k: real, b: real)
    requires a >= 0.0 && k >= 0.0 && b == a * k
    ensures b >= 0.0
  {
  }

  lemma ScaledPositive(a: real, k: real, b: real)
    requires a > 0.0 && k > 0.0 && b == a * k
    ensures b > 0.0
  {
  }

  lemma ScaledAtMost(a: real, k: real, b: real)
    requires a >= 0.0 && 0.0 <= k <= 1.0 && b == a * k
    ensures 0.0 <= b <= a
  {
    ScaledNonNegative(a, k, b);
    ScaledNonNegative(a, 1.0 - k, a - b);
  }

  lemma ScaledMonotone(a1: real, a2: real, k: real, b1: real, b2: real)
    requires a1 <= a2 && k >= 0.0 && b1 == a1 * k && b2 == a2 * k
    ensures b1 <= b2
  {
    ScaledNonNegative(a2 - a1, k, b2 - b1);
  }
}

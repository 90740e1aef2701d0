/**
 * The numerical library calls the backend makes (numpy, scipy, statsmodels).
 * They are not modelled: each is a field of `Lib`, passed to the code that
 * uses it, and only the properties stated below are assumed of them where a
 * member says so in its `requires`.
 */
module StatsLib {
  import opened Wrappers

  datatype Lib = Lib(
    /** `np.sqrt` */
    sqrt: real -> real,
    /** `scipy.stats.norm.cdf` */
    normCdf: real -> real,
    /** `NormalIndPower().solve_power(effect_size, alpha, power, ratio=1.0, alternative='two-sided')`;
        `None` when it raises or yields a value `int(np.ceil(.))` cannot convert. */
    solvePower: (real, real, real) -> Option<real>,
    /** the p-value of `proportions_ztest([x1, x2], [n1, n2])`, arguments in the order (x1, n1, x2, n2) */
    zTestPValue: (real, real, real, real) -> real,
    /** `confint_proportions_2indep(x1, n1, x2, n2, method='score')`; `None` when it raises */
    scoreInterval: (real, real, real, real) -> Option<(real, real)>,
    /** `confint_proportions_2indep(x1, n1, x2, n2, method='wald')`; `None` when it raises */
    waldInterval: (real, real, real, real) -> Option<(real, real)>)

  /** The square root is non-negative on non-negative arguments and zero exactly at zero. */
  ghost predicate SoundSqrt(lib: Lib) {
    forall x: real :: 0.0 <= x ==> 0.0 <= lib.sqrt(x) && (lib.sqrt(x) == 0.0 <==> x == 0.0)
  }

  /**
   * The Wald interval divides by both group sizes: it raises exactly when one
   * of them is zero.
   */
  ghost predicate SoundWald(lib: Lib) {
    forall x1: real, n1: real, x2: real, n2: real {:trigger lib.waldInterval(x1, n1, x2, n2)} ::
      lib.waldInterval(x1, n1, x2, n2).None? <==> n1 == 0.0 || n2 == 0.0
  }

  /** `abs` on floats. */
  function Abs(x: real): (r: real)
    ensures r >= 0.0 && (r == x || r == -x)
  {
    if x < 0.0 then -x else x
  }

  /** `int(np.ceil(x))`: the least integer not below `x`. */
  function Ceil(x: real): (r: int)
    ensures x <= r as real < x + 1.0
  {
    -((-x).Floor)
  }

  /** The least integer not below `x` is unique. */
  lemma CeilUnique(x: real, k: int)
    requires x <= k as real < x + 1.0
    ensures k == Ceil(x)
  {
  }

  /** Negating the numerator leaves the magnitude of a quotient unchanged. */
  lemma NegatedQuotient(x: real, y: real)
    requires y != 0.0
    ensures Abs(-x / y) == Abs(x / y)
  {
    assert -x / y == -(x / y);
  }
}

/**
  Real and complex arithmetic used by the photonic models.

  IEEE-754 doubles are modelled as mathematical reals. The transcendental
  kernels numpy evaluates (cos, sin, sqrt, atan2) and the Lorentzian line
  shape are not computed: they are the abstract fields of a `Physics`
  value, so every result is stated in terms of them.
*/
module Numerics {

  /** `np.pi` written out to the precision of a double. */
  const Pi: real := 3.141592653589793

  datatype Complex = Complex(re: real, im: real)

  const Zero: Complex := Complex(0.0, 0.0)

  function Add(a: Complex, b: Complex): Complex { Complex(a.re + b.re, a.im + b.im) }

  function Sub(a: Complex, b: Complex): Complex { Complex(a.re - b.re, a.im - b.im) }

  function Mul(a: Complex, b: Complex): Complex
  {
    Complex(a.re * b.re - a.im * b.im, a.re * b.im + a.im * b.re)
  }

  /** A real scalar times a complex number. */
  function Scale(r: real, a: Complex): Complex { Complex(r * a.re, r * a.im) }

  function Conj(a: Complex): Complex { Complex(a.re, -a.im) }

  /** |a|², which numpy forms as `np.abs(a) ** 2`. */
  function NormSq(a: Complex): real { a.re * a.re + a.im * a.im }

  /** Sum of |z|² over a vector. */
  function SumNormSq(v: seq<Complex>): (r: real)
    ensures r >= 0.0
  {
    if v == [] then 0.0 else SumNormSq(v[..|v| - 1]) + NormSq(v[|v| - 1])
  }

  /**
    The transcendental kernels the source takes from numpy and `math`.
    `lorentz(hwhm, lam, res)` is the normalised ring transmission
    1 / (1 + (δ / hwhm)²) with fractional detuning δ = (lam − res) / res,
    evaluated as numpy does on float64 arrays; `nan` is the value numpy
    yields for the mean of an empty array.
  */
  datatype Physics = Physics(
    cos: real -> real,
    sin: real -> real,
    sqrt: real -> real,
    atan2: (real, real) -> real,
    lorentz: (real, real, real) -> real,
    nan: real)

  /** `np.angle(z)`. */
  function Angle(ph: Physics, z: Complex): real { ph.atan2(z.im, z.re) }

  /** `np.abs(z)`. */
  function Abs(ph: Physics, z: Complex): real { ph.sqrt(NormSq(z)) }

  /** `e^(i·x)`. */
  function Cis(ph: Physics, x: real): Complex { Complex(ph.cos(x), ph.sin(x)) }

  /** `np.clip(x, lo, hi)`. */
  function Clip(x: real, lo: real, hi: real): (r: real)
    requires lo <= hi
    ensures lo <= r <= hi
    ensures lo <= x <= hi ==> r == x
    ensures x < lo ==> r == lo
    ensures x > hi ==> r == hi
  {
    if x < lo then lo else if x > hi then hi else x
  }

  /**
    Python's and numpy's `x % m` for a positive modulus: the remainder
    takes the sign of the divisor, so it lies in [0, m).
  */
  function FloorMod(x: real, m: real): (r: real)
    requires m > 0.0
    ensures 0.0 <= r < m
    ensures x - r == ((x / m).Floor as real) * m
  {
    FloorBounds(x, m);
    x - ((x / m).Floor as real) * m
  }

  /** The floor of x / m brackets x between two multiples of m. */
  lemma {:induction false} FloorBounds(x: real, m: real)
    requires m > 0.0
    ensures ((x / m).Floor as real) * m <= x < ((x / m).Floor as real) * m + m
  {
    var t := x / m;
    var q := t.Floor as real;
    assert q <= t < q + 1.0;
    DivCancel(x, m);
    MulLe(q, t, m);
    MulLt(t, q + 1.0, m);
    SuccScale(q, m);
    BracketChain(x, t * m, q * m, (q + 1.0) * m, m);
  }

  lemma {:induction false} DivCancel(x: real, m: real)
    requires m > 0.0
    ensures (x / m) * m == x
  {
  }

  /**
    The linear step of FloorBounds, with the products as plain values:
    the solver's linear arithmetic does not combine products of sums.
  */
  lemma {:induction false} BracketChain(x: real, tm: real, qm: real, q1m: real, m: real)
    requires tm == x && q1m == qm + m && qm <= tm < q1m
    ensures qm <= x < qm + m
  {
  }

  lemma {:induction false} SuccScale(q: real, m: real)
    ensures (q + 1.0) * m == q * m + m
  {
  }

  lemma {:induction false} MulLe(a: real, b: real, m: real)
    requires m > 0.0 && a <= b
    ensures a * m <= b * m
  {
    assert b * m - a * m == (b - a) * m;
  }

  lemma {:induction false} MulLt(a: real, b: real, m: real)
    requires m > 0.0 && a < b
    ensures a * m < b * m
  {
    assert b * m - a * m == (b - a) * m;
  }

  /** Multiplying by a positive real keeps order. */
  lemma {:induction false} MulMonotone(a: real, b: real, m: real)
    requires m > 0.0
    ensures a <= b ==> a * m <= b * m
    ensures a < b ==> a * m < b * m
  {
    assert b * m - a * m == (b - a) * m;
  }

  /** Scaling a nonnegative b by a factor in [0, 1] keeps it within [0, b]. */
  lemma {:induction false} MulUnit(b: real, a: real)
    requires b >= 0.0 && 0.0 <= a <= 1.0
    ensures 0.0 <= b * a <= b
  {
    assert b - b * a == b * (1.0 - a);
  }

  /** Division by a positive real distributes over a sum. */
  lemma {:induction false} DivAdd(a: real, b: real, p: real)
    requires p > 0.0
    ensures (a + b) / p == a / p + b / p
  {
  }

  /**
    One step of a nonnegative weighted average: adding (c / p) · a with a in
    [0, 1] to a partial sum bounded by prev / p keeps it within (prev + c) / p.
  */
  lemma {:induction false} WeightedStepBound(sum: real, prev: real, c: real, p: real, a: real)
    requires p > 0.0 && c >= 0.0 && 0.0 <= a <= 1.0
    requires 0.0 <= sum <= prev / p
    ensures 0.0 <= sum + c / p * a <= (prev + c) / p
  {
    var w := c / p;
    assert w >= 0.0 by { assert w * p == c; if w < 0.0 { MulMonotone(w, 0.0, p); } }
    MulUnit(w, a);
    DivAdd(prev, c, p);
    assert sum + w * a <= prev / p + w;
  }

  /** If n·lo <= s <= n·hi for a positive n, then lo <= s / n <= hi. */
  lemma {:induction false} DivBetween(s: real, n: real, lo: real, hi: real)
    requires n > 0.0 && n * lo <= s <= n * hi
    ensures lo <= s / n <= hi
  {
    var mean := s / n;
    assert mean * n == s;
    if mean < lo {
      MulMonotone(mean, lo, n);
    }
    if mean > hi {
      MulMonotone(hi, mean, n);
    }
  }

  /** A value already in [0, m) is its own remainder. */
  lemma {:induction false} FloorModOfReduced(x: real, m: real)
    requires m > 0.0 && 0.0 <= x < m
    ensures FloorMod(x, m) == x
  {
    var t := x / m;
    assert x == t * m;
    MulMonotone(1.0, t, m);
    MulMonotone(t, 0.0, m);
    assert 0.0 <= t < 1.0;
    assert t.Floor == 0;
  }
}

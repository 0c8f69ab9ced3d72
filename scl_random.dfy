/**
  The integer side of Statistical Congruential Learning: the 64-bit
  linear congruential generator behind `_scl_next_batch` and the
  pigeonhole binning of the MZI elements.
*/
module SclRandom {

  /** `_SCL_A`, `_SCL_C` and `_SCL_M` (Knuth's MMIX constants). */
  const SclA: nat := 6364136223846793005
  const SclC: nat := 1442695040888963407
  const SclM: nat := 0x1_0000_0000_0000_0000

  /** The seed `_scl_seed` starts from. */
  const InitialSeed: nat := 0xDEADBEEFCAFEBABE

  /** One step of the recurrence `seed ← (A·seed + C) mod 2^64`. */
  function Next(seed: nat): (r: nat)
    ensures r < SclM
  {
    (SclA * seed + SclC) % SclM
  }

  /** The sample drawn from a fresh seed: `seed / 2^64 − 0.5`. */
  function Sample(seed: nat): (r: real)
    requires seed < SclM
    ensures -0.5 <= r < 0.5
  {
    seed as real / SclM as real - 0.5
  }

  /** The seed after n steps. */
  function Advance(seed: nat, n: nat): (r: nat)
    ensures n > 0 ==> r < SclM
  {
    if n == 0 then seed else Next(Advance(seed, n - 1))
  }

  /** The n values one `_scl_next_batch(n)` call returns from `seed`. */
  function Draws(seed: nat, n: nat): (r: seq<real>)
    ensures |r| == n
  {
    if n == 0 then [] else Draws(seed, n - 1) + [Sample(Advance(seed, n))]
  }

  /** Draw k is the sample of the seed after k + 1 steps; it lies in [-0.5, 0.5). */
  lemma {:induction false} DrawsAt(seed: nat, n: nat, k: nat)
    requires k < n
    ensures Draws(seed, n)[k] == Sample(Advance(seed, k + 1))
    ensures -0.5 <= Draws(seed, n)[k] < 0.5
  {
    if k < n - 1 {
      DrawsAt(seed, n - 1, k);
    }
  }

  /** Advancing a + b times is advancing a times, then b times. */
  lemma {:induction false} AdvanceAdd(seed: nat, a: nat, b: nat)
    ensures Advance(seed, a + b) == Advance(Advance(seed, a), b)
  {
    if b > 0 {
      AdvanceAdd(seed, a, b - 1);
    }
  }

  /** Two consecutive batches of a and b draws are one batch of a + b draws. */
  lemma {:induction false} DrawsAppend(seed: nat, a: nat, b: nat)
    ensures Draws(seed, a + b) == Draws(seed, a) + Draws(Advance(seed, a), b)
  {
    if b > 0 {
      DrawsAppend(seed, a, b - 1);
      AdvanceAdd(seed, a, b);
    }
  }

  /** The draws consumed by `count` SCL updates of b bins each: count · b. */
  function Batches(count: nat, b: nat): (r: nat)
  {
    if count == 0 then 0 else Batches(count - 1, b) + b
  }

  /** Batches add up. */
  lemma {:induction false} BatchesAdd(x: nat, y: nat, b: nat)
    ensures Batches(x + y, b) == Batches(x, b) + Batches(y, b)
    decreases y
  {
    if y > 0 {
      BatchesAdd(x, y - 1, b);
    }
  }

  /** Batches is multiplication. */
  lemma {:induction false} BatchesProduct(count: nat, b: nat)
    ensures Batches(count, b) == count * b
  {
    if count > 0 {
      BatchesProduct(count - 1, b);
    }
  }

  /** One more batch of b draws after t batches. */
  lemma {:induction false} AdvanceBatches(seed: nat, t: nat, b: nat)
    ensures Advance(Advance(seed, Batches(t, b)), b) == Advance(seed, Batches(t + 1, b))
  {
    AdvanceScaled(seed, t, 1, b);
  }

  /** Chaining x batches and then y batches of b draws from seed. */
  lemma {:induction false} SeedChain(seed: nat, mid: nat, last: nat, x: nat, y: nat, total: nat, b: nat)
    requires mid == Advance(seed, Batches(x, b)) && last == Advance(mid, Batches(y, b))
    requires total == x + y
    ensures last == Advance(seed, Batches(total, b))
  {
    AdvanceScaled(seed, x, y, b);
  }

  /** x batches of b draws followed by y more batches are x + y batches. */
  lemma {:induction false} AdvanceScaled(seed: nat, x: nat, y: nat, b: nat)
    ensures Advance(Advance(seed, Batches(x, b)), Batches(y, b)) == Advance(seed, Batches(x + y, b))
  {
    BatchesAdd(x, y, b);
    AdvanceAdd(seed, Batches(x, b), Batches(y, b));
  }

  // ---------------------------------------------------------------------
  // Pigeonhole bins

  /** ⌈√n⌉: the least b with b·b ≥ n. */
  function CeilSqrt(n: nat): (b: nat)
    ensures b * b >= n
    ensures b == 0 || (b - 1) * (b - 1) < n
  {
    CeilSqrtFrom(n, 0)
  }

  function CeilSqrtFrom(n: nat, b: nat): (r: nat)
    requires b == 0 || (b - 1) * (b - 1) < n
    ensures r * r >= n
    ensures r == 0 || (r - 1) * (r - 1) < n
    decreases n - b
  {
    if b * b >= n then b
    else
      assert b < n by { SquareAtLeast(b); }
      CeilSqrtFrom(n, b + 1)
  }

  lemma {:induction false} SquareAtLeast(b: nat)
    ensures b <= b * b || b == 0
  {
    if b > 0 {
      assert b * b == b * (b - 1) + b;
    }
  }

  /** `_scl_bins = max(1, ceil(sqrt(num_mzi)))`. */
  function SclBins(numMzi: nat): (b: nat)
    ensures b >= 1
  {
    if CeilSqrt(numMzi) < 1 then 1 else CeilSqrt(numMzi)
  }

  /** There are never more bins than elements, so no bin is empty. */
  lemma {:induction false} SclBinsAtMost(numMzi: nat)
    requires numMzi >= 1
    ensures SclBins(numMzi) <= numMzi
    ensures SclBins(numMzi) * SclBins(numMzi) >= numMzi
  {
    var b := CeilSqrt(numMzi);
    if b >= 2 {
      SquareAtLeast(b - 1);
    }
  }

  /** `_scl_bin_ids = arange(num_mzi) % B`: element k sits in bin k mod B. */
  function BinIds(numMzi: nat, bins: nat): (ids: seq<nat>)
    requires bins >= 1
    ensures |ids| == numMzi
    ensures forall k :: 0 <= k < numMzi ==> ids[k] == k % bins < bins
  {
    seq(numMzi, k requires 0 <= k => k % bins)
  }

  /** How many of the first n elements fall in bin b. */
  function BinCount(n: nat, bins: nat, b: nat): (r: nat)
    requires bins >= 1
    ensures r <= n
  {
    if n == 0 then 0 else BinCount(n - 1, bins, b) + (if (n - 1) % bins == b then 1 else 0)
  }

  /**
    The bins are balanced: bin b holds ⌊n/B⌋ elements, plus one when
    b < n mod B. In particular every bin holds at least ⌊n/B⌋ of them.
  */
  lemma {:induction false} BinCountBalanced(n: nat, bins: nat, b: nat)
    requires bins >= 1 && b < bins
    ensures BinCount(n, bins, b) == n / bins + (if b < n % bins then 1 else 0)
  {
    if n > 0 {
      BinCountBalanced(n - 1, bins, b);
      DivModSucc(n - 1, bins);
    }
  }

  /** Counting one further: the remainder steps up, or wraps to 0 as the quotient steps up. */
  lemma {:induction false} DivModSucc(m: nat, d: nat)
    requires d >= 1
    ensures m % d + 1 < d ==> (m + 1) / d == m / d && (m + 1) % d == m % d + 1
    ensures m % d + 1 == d ==> (m + 1) / d == m / d + 1 && (m + 1) % d == 0
  {
    var q, r := m / d, m % d;
    assert m == q * d + r;
    if r + 1 < d {
      DivModUnique(m + 1, d, q, r + 1);
    } else {
      assert m + 1 == (q + 1) * d;
      DivModUnique(m + 1, d, q + 1, 0);
    }
  }

  lemma {:induction false} DivModUnique(n: nat, d: nat, q: nat, r: nat)
    requires d >= 1 && r < d && n == q * d + r
    ensures n / d == q && n % d == r
  {
    var q2, r2 := n / d, n % d;
    assert n == q2 * d + r2;
    if q2 < q {
      MulMonotoneNat(q2 + 1, q, d);
    } else if q < q2 {
      MulMonotoneNat(q + 1, q2, d);
    }
  }

  lemma {:induction false} MulMonotoneNat(a: nat, b: nat, d: nat)
    requires a <= b
    ensures a * d <= b * d
  {
    assert b * d == a * d + (b - a) * d;
  }
}

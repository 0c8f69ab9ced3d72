/**
  The C(N, 2) beam-splitter index table of the triangular MZI mesh
  (`PhotonicMatrixMultiplier._build_mzi_indices`).

  The table is specified by `Pairs(n)`: the upper-triangular pairs (i, j)
  with i < j < n, row by row, exactly as the two nested `range` loops visit
  them. The method builds the two parallel lists the source stores as
  `_mzi_i` and `_mzi_j`.
*/
module MziIndices {

  /** `size * (size - 1) // 2`: the number of MZI elements of an n-waveguide mesh. */
  function NumMzi(n: nat): (c: nat)
    ensures 2 * c == n * (n - 1)
  {
    RowsBeforeLength(n, n);
    if n == 0 then 0 else n * (n - 1) / 2
  }

  /** Row i of the table: (i, i+1), …, (i, n-1). */
  function Row(i: nat, n: nat): (r: seq<(nat, nat)>)
    ensures |r| == (if i < n then n - i - 1 else 0)
  {
    seq(if i < n then n - i - 1 else 0, k requires k >= 0 => (i, i + 1 + k))
  }

  /** All rows before row i, in order. */
  function RowsBefore(i: nat, n: nat): seq<(nat, nat)>
  {
    if i == 0 then [] else RowsBefore(i - 1, n) + Row(i - 1, n)
  }

  /** The whole table, row-major. */
  function Pairs(n: nat): (r: seq<(nat, nat)>)
    ensures 2 * |r| == n * (n - 1)
  {
    RowsBeforeLength(n, n);
    RowsBefore(n, n)
  }

  /** Row-major (lexicographic) order on pairs. */
  predicate Before(p: (nat, nat), q: (nat, nat))
  {
    p.0 < q.0 || (p.0 == q.0 && p.1 < q.1)
  }

  // ---------------------------------------------------------------------
  // Properties of the table

  /** Twice the length of the first i rows is i·(2n − i − 1). */
  lemma {:induction false} RowsBeforeLength(i: nat, n: nat)
    requires i <= n
    ensures 2 * |RowsBefore(i, n)| == i * (2 * n - i - 1)
  {
    if i > 0 {
      RowsBeforeLength(i - 1, n);
      var before := |RowsBefore(i - 1, n)|;
      assert |RowsBefore(i, n)| == before + (n - i);
      RowStepArith(i, 2 * n - i, before);
    }
  }

  /** The arithmetic step of RowsBeforeLength: (i − 1)·m + 2(n − i) = i·(m − 1) when m = 2n − i. */
  lemma {:induction false} RowStepArith(i: int, m: int, before: int)
    requires 2 * before == (i - 1) * m
    ensures 2 * before + (m - i) == i * (m - 1)
  {
    assert (i - 1) * m == i * m - m;
    assert i * (m - 1) == i * m - i;
  }

  /** The table has exactly C(n, 2) = `num_mzi` entries. */
  lemma {:induction false} PairsLength(n: nat)
    ensures |Pairs(n)| == NumMzi(n)
  {
    RowsBeforeLength(n, n);
    if n > 0 {
      assert 2 * |Pairs(n)| == n * (n - 1);
    }
  }

  /** Earlier rows are a prefix of later rows. */
  lemma {:induction false} RowsBeforePrefix(i: nat, i2: nat, n: nat)
    requires i <= i2
    ensures RowsBefore(i, n) <= RowsBefore(i2, n)
    decreases i2 - i
  {
    if i < i2 {
      RowsBeforePrefix(i, i2 - 1, n);
    }
  }

  /** Every pair of the first i rows has i' < j < n and i' < i. */
  lemma {:induction false} RowsBeforeInRange(i: nat, n: nat)
    ensures forall p :: p in RowsBefore(i, n) ==> p.0 < p.1 < n && p.0 < i
  {
    if i > 0 {
      RowsBeforeInRange(i - 1, n);
      assert RowsBefore(i, n) == RowsBefore(i - 1, n) + Row(i - 1, n);
    }
  }

  /** The pair (i, j) sits at position |RowsBefore(i, n)| + (j − i − 1). */
  lemma {:induction false} PairAt(i: nat, j: nat, n: nat)
    requires i < j < n
    ensures |RowsBefore(i, n)| + (j - i - 1) < |Pairs(n)|
    ensures Pairs(n)[|RowsBefore(i, n)| + (j - i - 1)] == (i, j)
  {
    assert RowsBefore(i + 1, n) == RowsBefore(i, n) + Row(i, n);
    RowsBeforePrefix(i + 1, n, n);
  }

  /** A pair is in the table exactly when i < j < n. */
  lemma {:induction false} PairsMembers(n: nat, p: (nat, nat))
    ensures p in Pairs(n) <==> p.0 < p.1 < n
  {
    RowsBeforeInRange(n, n);
    if p.0 < p.1 < n {
      PairAt(p.0, p.1, n);
    }
  }

  /** Every entry of the table satisfies i < j < n. */
  lemma {:induction false} PairsInRange(n: nat, k: nat)
    requires k < |Pairs(n)|
    ensures Pairs(n)[k].0 < Pairs(n)[k].1 < n
  {
    RowsBeforeInRange(n, n);
    assert Pairs(n)[k] in Pairs(n);
  }

  /** The table is strictly increasing in row-major order, so no pair repeats. */
  lemma {:induction false} RowsBeforeSorted(i: nat, n: nat)
    ensures forall k, l :: 0 <= k < l < |RowsBefore(i, n)| ==>
              Before(RowsBefore(i, n)[k], RowsBefore(i, n)[l])
  {
    if i > 0 {
      RowsBeforeSorted(i - 1, n);
      RowsBeforeInRange(i - 1, n);
      var a, b := RowsBefore(i - 1, n), Row(i - 1, n);
      assert RowsBefore(i, n) == a + b;
      forall k, l | 0 <= k < l < |a + b|
        ensures Before((a + b)[k], (a + b)[l])
      {
        if l < |a| {
          assert (a + b)[k] == a[k] && (a + b)[l] == a[l];
        } else if k < |a| {
          assert (a + b)[k] == a[k] && a[k] in a;
        }
      }
    }
  }

  /** Row-major order and distinctness of the whole table. */
  lemma {:induction false} PairsSorted(n: nat)
    ensures forall k, l :: 0 <= k < l < |Pairs(n)| ==> Before(Pairs(n)[k], Pairs(n)[l])
    ensures forall k, l :: 0 <= k < |Pairs(n)| && 0 <= l < |Pairs(n)| && k != l ==>
              Pairs(n)[k] != Pairs(n)[l]
  {
    RowsBeforeSorted(n, n);
    forall k, l | 0 <= k < |Pairs(n)| && 0 <= l < |Pairs(n)| && k != l
      ensures Pairs(n)[k] != Pairs(n)[l]
    {
      if k < l {
        assert Before(Pairs(n)[k], Pairs(n)[l]);
      } else {
        assert Before(Pairs(n)[l], Pairs(n)[k]);
      }
    }
  }

  // ---------------------------------------------------------------------
  // The builder

  /**
    `_build_mzi_indices`: the nested loops append (i, j) to `rows` and
    `cols` and stop as soon as `num_mzi` pairs have been collected.
  */
  method BuildMziIndices(n: nat) returns (rows: seq<nat>, cols: seq<nat>)
    ensures |rows| == |cols| == NumMzi(n) == |Pairs(n)|
    ensures forall k :: 0 <= k < |rows| ==> (rows[k], cols[k]) == Pairs(n)[k]
  {
    var numMzi := NumMzi(n);
    PairsLength(n);
    rows, cols := [], [];
    var i := 0;
    RowsBeforePrefix(0, n, n);
    while i < n
      invariant i <= n
      invariant |rows| == |cols| == |RowsBefore(i, n)| <= |Pairs(n)|
      invariant forall k :: 0 <= k < |rows| ==> (rows[k], cols[k]) == Pairs(n)[k]
    {
      var j := i + 1;
      while j < n
        invariant i + 1 <= j <= n
        invariant |rows| == |cols| == |RowsBefore(i, n)| + (j - i - 1) <= |Pairs(n)|
        invariant forall k :: 0 <= k < |rows| ==> (rows[k], cols[k]) == Pairs(n)[k]
      {
        PairAt(i, j, n);
        rows := rows + [i];
        cols := cols + [j];
        if |rows| == numMzi {
          break;
        }
        j := j + 1;
      }
      if |rows| == numMzi {
        break;
      }
      assert RowsBefore(i + 1, n) == RowsBefore(i, n) + Row(i, n);
      RowsBeforePrefix(i + 1, n, n);
      i := i + 1;
    }
  }
}

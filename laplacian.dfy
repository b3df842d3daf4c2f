/** The periodic five-point Laplacian of the breathing fields.

    The source builds it from four `np.roll` shifts of the grid: rolling by
    +1 along an axis brings the neighbour one cell back to each cell, rolling
    by -1 the neighbour one cell ahead, and indices wrap modulo N on both
    axes, so the grid is a torus. */
module Laplacian {

  /** numpy's axis=0 (rows, index i) and axis=1 (columns, index j). */
  datatype Axis = Rows | Cols

  /** An N×N grid with N ≥ 1 (the script divides by N at line 10). */
  predicate IsGrid(phi: array2<real>, n: nat)
  {
    n > 0 && phi.Length0 == n && phi.Length1 == n
  }

  /** np.roll(phi, shift, axis)[i, j]: the entry `shift` places back along
      `axis`, the index taken modulo N (Dafny's `%` agrees with Python's for
      a positive modulus). */
  function Rolled(phi: array2<real>, n: nat, shift: int, axis: Axis, i: nat, j: nat): (r: real)
    reads phi
    requires IsGrid(phi, n) && i < n && j < n
    ensures shift == 1 ==> r == (if axis == Rows then phi[Prev(i, n), j] else phi[i, Prev(j, n)])
    ensures shift == -1 ==> r == (if axis == Rows then phi[Next(i, n), j] else phi[i, Next(j, n)])
  {
    RollReachesNeighbours(i, n);
    RollReachesNeighbours(j, n);
    match axis
    case Rows => phi[(i - shift) % n, j]
    case Cols => phi[i, (j - shift) % n]
  }

  /** The numerator of the stencil: four rolled copies minus four times the cell. */
  function Stencil(phi: array2<real>, n: nat, i: nat, j: nat): real
    reads phi
    requires IsGrid(phi, n) && i < n && j < n
  {
    Rolled(phi, n, 1, Rows, i, j) + Rolled(phi, n, -1, Rows, i, j)
    + Rolled(phi, n, 1, Cols, i, j) + Rolled(phi, n, -1, Cols, i, j)
    - 4.0 * phi[i, j]
  }

  /** laplacian(phi, dx)[i, j]. The division by dx**2 is written as two
      divisions by dx, which is the same over the reals. */
  function LaplacianAt(phi: array2<real>, n: nat, dx: real, i: nat, j: nat): real
    reads phi
    requires IsGrid(phi, n) && dx != 0.0 && i < n && j < n
  {
    Stencil(phi, n, i, j) / dx / dx
  }

  /** The cell before i on a ring of n cells. */
  function Prev(i: nat, n: nat): nat
    requires i < n
  {
    if i == 0 then n - 1 else i - 1
  }

  /** The cell after i on a ring of n cells. */
  function Next(i: nat, n: nat): nat
    requires i < n
  {
    if i == n - 1 then 0 else i + 1
  }

  /** Rolling by ±1 reaches exactly the ring neighbours, including at the edges. */
  lemma RollReachesNeighbours(i: nat, n: nat)
    requires i < n
    ensures (i - 1) % n == Prev(i, n)
    ensures (i + 1) % n == Next(i, n)
  {
  }

  /** The Laplacian is the five-point stencil with explicit wraparound:
      every cell, edges and corners included, sees the cells above, below,
      left and right of it on the torus. */
  lemma LaplacianStencil(phi: array2<real>, n: nat, dx: real, i: nat, j: nat)
    requires IsGrid(phi, n) && dx != 0.0 && i < n && j < n
    ensures LaplacianAt(phi, n, dx, i, j)
            == (phi[Prev(i, n), j] + phi[Next(i, n), j] + phi[i, Prev(j, n)] + phi[i, Next(j, n)]
                - 4.0 * phi[i, j]) / dx / dx
  {
  }

  /** The Laplacian of a constant grid is zero at every cell. */
  lemma LaplacianOfConstant(phi: array2<real>, n: nat, dx: real, c: real)
    requires IsGrid(phi, n) && dx != 0.0
    requires forall a, b :: 0 <= a < n && 0 <= b < n ==> phi[a, b] == c
    ensures forall i, j :: 0 <= i < n && 0 <= j < n ==> LaplacianAt(phi, n, dx, i, j) == 0.0
  {
    forall i, j | 0 <= i < n && 0 <= j < n
      ensures LaplacianAt(phi, n, dx, i, j) == 0.0
    {
      LaplacianStencil(phi, n, dx, i, j);
    }
  }

  // ---------------------------------------------------------------------
  // Totals over the torus. On a periodic grid every rolled copy holds the
  // same cells as the grid itself, so the Laplacian sums to zero; a
  // boundary that did not wrap would break this at the edges.

  /** Σ_{j < k} phi[r, j]. */
  ghost function RowSum(phi: array2<real>, n: nat, r: nat, k: nat): real
    reads phi
    requires IsGrid(phi, n) && r < n && k <= n
  {
    if k == 0 then 0.0 else RowSum(phi, n, r, k - 1) + phi[r, k - 1]
  }

  /** Σ_{i < k} Σ_{j < n} phi[i, j]. */
  ghost function Total(phi: array2<real>, n: nat, k: nat): real
    reads phi
    requires IsGrid(phi, n) && k <= n
  {
    if k == 0 then 0.0 else Total(phi, n, k - 1) + RowSum(phi, n, k - 1, n)
  }

  /** Σ_{j < k} np.roll(phi, shift, axis)[i, j]. */
  ghost function RolledRowSum(phi: array2<real>, n: nat, shift: int, axis: Axis, i: nat, k: nat): real
    reads phi
    requires IsGrid(phi, n) && i < n && k <= n
  {
    if k == 0 then 0.0 else RolledRowSum(phi, n, shift, axis, i, k - 1) + Rolled(phi, n, shift, axis, i, k - 1)
  }

  /** Σ_{i < k} Σ_{j < n} np.roll(phi, shift, axis)[i, j]. */
  ghost function RolledTotal(phi: array2<real>, n: nat, shift: int, axis: Axis, k: nat): real
    reads phi
    requires IsGrid(phi, n) && k <= n
  {
    if k == 0 then 0.0 else RolledTotal(phi, n, shift, axis, k - 1) + RolledRowSum(phi, n, shift, axis, k - 1, n)
  }

  /** Σ_{j < k} laplacian(phi, dx)[i, j]. */
  ghost function LaplacianRowSum(phi: array2<real>, n: nat, dx: real, i: nat, k: nat): real
    reads phi
    requires IsGrid(phi, n) && dx != 0.0 && i < n && k <= n
  {
    if k == 0 then 0.0 else LaplacianRowSum(phi, n, dx, i, k - 1) + LaplacianAt(phi, n, dx, i, k - 1)
  }

  /** Σ_{i < k} Σ_{j < n} laplacian(phi, dx)[i, j]. */
  ghost function LaplacianTotal(phi: array2<real>, n: nat, dx: real, k: nat): real
    reads phi
    requires IsGrid(phi, n) && dx != 0.0 && k <= n
  {
    if k == 0 then 0.0 else LaplacianTotal(phi, n, dx, k - 1) + LaplacianRowSum(phi, n, dx, k - 1, n)
  }

  /** Dividing by dx² distributes over a sum. */
  lemma DivisionDistributes(x: real, y: real, dx: real)
    requires dx != 0.0
    ensures x / dx / dx + y / dx / dx == (x + y) / dx / dx
  {
    assert x / dx + y / dx == (x + y) / dx;
  }

  /** Rolling a row by +1 moves its last cell to the front. */
  lemma {:induction false} RowRolledBackPrefix(phi: array2<real>, n: nat, i: nat, k: nat)
    requires IsGrid(phi, n) && i < n && 1 <= k <= n
    ensures RolledRowSum(phi, n, 1, Cols, i, k) == phi[i, n - 1] + RowSum(phi, n, i, k - 1)
  {
    RollReachesNeighbours(k - 1, n);
    if k > 1 {
      RowRolledBackPrefix(phi, n, i, k - 1);
    }
  }

  /** Rolling a row by -1 moves its first cell to the back. */
  lemma {:induction false} RowRolledForwardPrefix(phi: array2<real>, n: nat, i: nat, k: nat)
    requires IsGrid(phi, n) && i < n && k < n
    ensures RolledRowSum(phi, n, -1, Cols, i, k) + phi[i, 0] == RowSum(phi, n, i, k + 1)
  {
    if k > 0 {
      RowRolledForwardPrefix(phi, n, i, k - 1);
      RollReachesNeighbours(k - 1, n);
    }
  }

  /** A row rolled by ±1 along its own axis has the same sum. */
  lemma RolledRowKeepsSum(phi: array2<real>, n: nat, shift: int, i: nat)
    requires IsGrid(phi, n) && i < n && (shift == 1 || shift == -1)
    ensures RolledRowSum(phi, n, shift, Cols, i, n) == RowSum(phi, n, i, n)
  {
    if shift == 1 {
      RowRolledBackPrefix(phi, n, i, n);
    } else {
      RowRolledForwardPrefix(phi, n, i, n - 1);
      RollReachesNeighbours(n - 1, n);
    }
  }

  /** Rolling along the rows turns row i into row (i - shift) mod N. */
  lemma {:induction false} RolledRowIsOtherRow(phi: array2<real>, n: nat, shift: int, i: nat, k: nat)
    requires IsGrid(phi, n) && i < n && k <= n
    ensures RolledRowSum(phi, n, shift, Rows, i, k) == RowSum(phi, n, (i - shift) % n, k)
  {
    if k > 0 {
      RolledRowIsOtherRow(phi, n, shift, i, k - 1);
    }
  }

  lemma {:induction false} ColumnRollKeepsTotal(phi: array2<real>, n: nat, shift: int, k: nat)
    requires IsGrid(phi, n) && k <= n && (shift == 1 || shift == -1)
    ensures RolledTotal(phi, n, shift, Cols, k) == Total(phi, n, k)
  {
    if k > 0 {
      ColumnRollKeepsTotal(phi, n, shift, k - 1);
      RolledRowKeepsSum(phi, n, shift, k - 1);
    }
  }

  lemma {:induction false} GridRolledBackPrefix(phi: array2<real>, n: nat, k: nat)
    requires IsGrid(phi, n) && 1 <= k <= n
    ensures RolledTotal(phi, n, 1, Rows, k) == RowSum(phi, n, n - 1, n) + Total(phi, n, k - 1)
  {
    RolledRowIsOtherRow(phi, n, 1, k - 1, n);
    RollReachesNeighbours(k - 1, n);
    if k > 1 {
      GridRolledBackPrefix(phi, n, k - 1);
    }
  }

  lemma {:induction false} GridRolledForwardPrefix(phi: array2<real>, n: nat, k: nat)
    requires IsGrid(phi, n) && k < n
    ensures RolledTotal(phi, n, -1, Rows, k) + RowSum(phi, n, 0, n) == Total(phi, n, k + 1)
  {
    if k > 0 {
      GridRolledForwardPrefix(phi, n, k - 1);
      RolledRowIsOtherRow(phi, n, -1, k - 1, n);
      RollReachesNeighbours(k - 1, n);
    }
  }

  lemma RowRollKeepsTotal(phi: array2<real>, n: nat, shift: int)
    requires IsGrid(phi, n) && (shift == 1 || shift == -1)
    ensures RolledTotal(phi, n, shift, Rows, n) == Total(phi, n, n)
  {
    if shift == 1 {
      GridRolledBackPrefix(phi, n, n);
    } else {
      GridRolledForwardPrefix(phi, n, n - 1);
      RolledRowIsOtherRow(phi, n, -1, n - 1, n);
      RollReachesNeighbours(n - 1, n);
    }
  }

  /** Summing the Laplacian along a row sums each rolled copy separately. */
  lemma {:induction false} LaplacianRowSumSplits(phi: array2<real>, n: nat, dx: real, i: nat, k: nat)
    requires IsGrid(phi, n) && dx != 0.0 && i < n && k <= n
    ensures LaplacianRowSum(phi, n, dx, i, k)
            == (RolledRowSum(phi, n, 1, Rows, i, k) + RolledRowSum(phi, n, -1, Rows, i, k)
                + RolledRowSum(phi, n, 1, Cols, i, k) + RolledRowSum(phi, n, -1, Cols, i, k)
                - 4.0 * RowSum(phi, n, i, k)) / dx / dx
  {
    if k > 0 {
      LaplacianRowSumSplits(phi, n, dx, i, k - 1);
      var before := RolledRowSum(phi, n, 1, Rows, i, k - 1) + RolledRowSum(phi, n, -1, Rows, i, k - 1)
                    + RolledRowSum(phi, n, 1, Cols, i, k - 1) + RolledRowSum(phi, n, -1, Cols, i, k - 1)
                    - 4.0 * RowSum(phi, n, i, k - 1);
      var cell := Stencil(phi, n, i, k - 1);
      assert RolledRowSum(phi, n, 1, Rows, i, k) + RolledRowSum(phi, n, -1, Rows, i, k)
             + RolledRowSum(phi, n, 1, Cols, i, k) + RolledRowSum(phi, n, -1, Cols, i, k)
             - 4.0 * RowSum(phi, n, i, k) == before + cell;
      DivisionDistributes(before, cell, dx);
    }
  }

  lemma {:induction false} LaplacianTotalSplits(phi: array2<real>, n: nat, dx: real, k: nat)
    requires IsGrid(phi, n) && dx != 0.0 && k <= n
    ensures LaplacianTotal(phi, n, dx, k)
            == (RolledTotal(phi, n, 1, Rows, k) + RolledTotal(phi, n, -1, Rows, k)
                + RolledTotal(phi, n, 1, Cols, k) + RolledTotal(phi, n, -1, Cols, k)
                - 4.0 * Total(phi, n, k)) / dx / dx
  {
    if k > 0 {
      LaplacianTotalSplits(phi, n, dx, k - 1);
      LaplacianRowSumSplits(phi, n, dx, k - 1, n);
      var before := RolledTotal(phi, n, 1, Rows, k - 1) + RolledTotal(phi, n, -1, Rows, k - 1)
                    + RolledTotal(phi, n, 1, Cols, k - 1) + RolledTotal(phi, n, -1, Cols, k - 1)
                    - 4.0 * Total(phi, n, k - 1);
      var row := RolledRowSum(phi, n, 1, Rows, k - 1, n) + RolledRowSum(phi, n, -1, Rows, k - 1, n)
                 + RolledRowSum(phi, n, 1, Cols, k - 1, n) + RolledRowSum(phi, n, -1, Cols, k - 1, n)
                 - 4.0 * RowSum(phi, n, k - 1, n);
      assert RolledTotal(phi, n, 1, Rows, k) + RolledTotal(phi, n, -1, Rows, k)
             + RolledTotal(phi, n, 1, Cols, k) + RolledTotal(phi, n, -1, Cols, k)
             - 4.0 * Total(phi, n, k) == before + row;
      DivisionDistributes(before, row, dx);
    }
  }

  /** Summed over the whole torus, the periodic Laplacian of any grid is zero. */
  lemma LaplacianSumsToZero(phi: array2<real>, n: nat, dx: real)
    requires IsGrid(phi, n) && dx != 0.0
    ensures LaplacianTotal(phi, n, dx, n) == 0.0
  {
    LaplacianTotalSplits(phi, n, dx, n);
    RowRollKeepsTotal(phi, n, 1);
    RowRollKeepsTotal(phi, n, -1);
    ColumnRollKeepsTotal(phi, n, 1, n);
    ColumnRollKeepsTotal(phi, n, -1, n);
  }
}

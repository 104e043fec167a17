/** The older chart renderer ppl-impl/viz.py: the same square grid as the
    newer one, but file `i` is drawn at `axes[i % n_plots][i // n_plots]`,
    filling the grid column by column. */
module LegacyViz {
  import Viz

  /** The cell of chart `i`: `(i % n_plots, i // n_plots)`. */
  function TransposedCell(i: nat, nPlots: nat): (nat, nat)
    requires nPlots > 0
  {
    (i % nPlots, i / nPlots)
  }

  /** The grid for `count` data files and the cell each file is drawn in:
      the grid is the least square that holds them all, file `k` goes to
      `(k % n_plots, k // n_plots)`, every cell is inside the grid and no
      two files share one. */
  method ChartCells(count: nat) returns (nPlots: nat, cells: seq<(nat, nat)>)
    ensures nPlots * nPlots >= count && (nPlots == 0 || (nPlots - 1) * (nPlots - 1) < count)
    ensures |cells| == count
    ensures forall k :: 0 <= k < count ==> cells[k].0 < nPlots && cells[k].1 < nPlots
    ensures forall k, l :: 0 <= k < l < count ==> cells[k] != cells[l]
    ensures count > 0 ==> nPlots > 0 && forall k :: 0 <= k < count ==> cells[k] == TransposedCell(k, nPlots)
  {
    nPlots := Viz.SmallestSquareBiggerThan(count);
    cells := [];
    for i := 0 to count
      invariant |cells| == i
      invariant forall k :: 0 <= k < i ==> nPlots > 0 && cells[k] == TransposedCell(k, nPlots)
    {
      cells := cells + [TransposedCell(i, nPlots)];
    }
    forall k | 0 <= k < count ensures cells[k].0 < nPlots && cells[k].1 < nPlots {
      Viz.CellInGrid(k, nPlots);
    }
    forall k, l | 0 <= k < l < count ensures cells[k] != cells[l] {
      if cells[k] == cells[l] {
        Viz.CellInjective(k, l, nPlots);
      }
    }
  }

  /** Both renderers put chart `i` in the same two coordinates, swapped. */
  lemma CellsAreTransposed(i: nat, nPlots: nat)
    requires nPlots > 0
    ensures TransposedCell(i, nPlots) == (Viz.Cell(i, nPlots).1, Viz.Cell(i, nPlots).0)
  {
  }
}

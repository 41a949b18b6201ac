/**
 * The eight winning lines of a 3x3 grid, in the order in which the source
 * scans them: the two diagonals first, then row i and column i for i = 0, 1, 2
 * (src/tic_tac_toe.rs:59-92, src/ultimate_tic_tac_toe/mod.rs:164-237 and
 * 360-397 all use this order).  Cells are numbered x + 3 * y.
 */
module Lines {
  import opened Optional

  const Order: seq<(nat, nat, nat)> :=
    [(0, 4, 8), (2, 4, 6), (0, 1, 2), (0, 3, 6), (3, 4, 5), (1, 4, 7), (6, 7, 8), (2, 5, 8)]

  /** Line j of `cells` satisfies `wins`. */
  predicate LineWins<T>(cells: seq<T>, wins: (T, T, T) -> bool, j: nat)
    requires |cells| == 9 && j < 8
  {
    wins(cells[Order[j].0], cells[Order[j].1], cells[Order[j].2])
  }

  /** The first line, at position k or later in `Order`, that satisfies `wins`. */
  function FirstWinning<T>(cells: seq<T>, wins: (T, T, T) -> bool, k: nat): (r: Option<nat>)
    requires |cells| == 9 && k <= 8
    ensures r.Some? ==> k <= r.value < 8 && LineWins(cells, wins, r.value)
    ensures r.Some? ==> forall j :: k <= j < r.value ==> !LineWins(cells, wins, j)
    ensures r.None? <==> forall j :: k <= j < 8 ==> !LineWins(cells, wins, j)
    decreases 8 - k
  {
    if k == 8 then None
    else if LineWins(cells, wins, k) then Some(k)
    else FirstWinning(cells, wins, k + 1)
  }

  /** Every line is a triple of distinct cells below 9. */
  lemma OrderCells(j: nat)
    requires j < 8
    ensures Order[j].0 < 9 && Order[j].1 < 9 && Order[j].2 < 9
  {
  }
}

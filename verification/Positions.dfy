/** The position value: two masks and a move counter, and the invariant
    that every position reachable by legal play satisfies. */
module Positions {
  import opened Bits
  import opened Layout

  /** `Board` holds the stones of the player to move, `Mask` every stone on
      the board, `moves` the number of stones played so far. */
  datatype Position = Position(Board: bv64, Mask: bv64, moves: int)

  /** The six playable cells of column `c`, shifted down to bits 0..5. */
  function ColumnBits(m: bv64, c: bv8): bv8
  {
    ColumnField(m, c) & 0x3f
  }

  /** Number of consecutive occupied cells of column `c`, counted up from
      the bottom row. */
  function Height(m: bv64, c: bv8): (k: bv8)
    ensures k <= H
  {
    var y := ColumnBits(m, c);
    if y & 1 == 0 then 0
    else if y & 2 == 0 then 1
    else if y & 4 == 0 then 2
    else if y & 8 == 0 then 3
    else if y & 16 == 0 then 4
    else if y & 32 == 0 then 5
    else 6
  }

  /** Column `c` holds no floating stone: its occupied cells are exactly the
      bottom `Height` cells. */
  predicate Stacked(m: bv64, c: bv8)
  {
    ColumnBits(m, c) == (1 << Height(m, c)) - 1
  }

  /** The occupied cells of a position reached by legal moves: no stone
      sits on a sentinel or past the last column, and every column is
      stacked from the bottom. */
  ghost predicate WellStacked(m: bv64)
  {
    && Subset(m, BoardCells)
    && (forall c: bv8 :: c < W ==> Stacked(m, c))
  }

  /** The invariant of every position reached from the empty board by
      legal moves: the mover's stones are stones, the stones are well
      stacked, and the counter counts them. */
  ghost predicate Valid(p: Position)
  {
    && Subset(p.Board, p.Mask)
    && WellStacked(p.Mask)
    && p.moves == Popcount(p.Mask)
  }

  /** Go's `NewPosition`: the empty board. */
  function NewPosition(): (p: Position)
    ensures Valid(p)
    ensures forall c: bv8 :: c < W ==> Height(p.Mask, c) == 0
  {
    PopcountZero(0);
    Position(0, 0, 0)
  }
}

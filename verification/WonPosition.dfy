/** Go's completed-four test (`compute_won_position`, `IsWonPosition`),
    read back on the grid: a word has four of its cells in a line exactly
    when one of the four pair-of-pairs tests fires. */
module WonPosition {
  import opened Bits
  import opened Layout
  import opened Positions
  import opened MoveEngine

  // ---------------------------------------------------------------------
  // The computation, as written

  /** The four-in-a-line test along a row (stride H + 1 = 7): `m` marks the stones whose
      neighbour one stride up is a stone, and `m & (m >> 14)` the stones
      starting two such pairs in a row. */
  function WonHorizontal(pos: bv64): bv64
  {
    var m := pos & (pos >> 7);
    m & (m >> 14)
  }

  /** The four-in-a-line test along the falling diagonal (stride H = 6): `m` marks the stones whose
      neighbour one stride up is a stone, and `m & (m >> 12)` the stones
      starting two such pairs in a row. */
  function WonFalling(pos: bv64): bv64
  {
    var m := pos & (pos >> 6);
    m & (m >> 12)
  }

  /** The four-in-a-line test along the rising diagonal (stride H + 2 = 8): `m` marks the stones whose
      neighbour one stride up is a stone, and `m & (m >> 16)` the stones
      starting two such pairs in a row. */
  function WonRising(pos: bv64): bv64
  {
    var m := pos & (pos >> 8);
    m & (m >> 16)
  }

  /** The four-in-a-line test up a column (stride 1): `m` marks the stones whose
      neighbour one stride up is a stone, and `m & (m >> 2)` the stones
      starting two such pairs in a row. */
  function WonVertical(pos: bv64): bv64
  {
    var m := pos & (pos >> 1);
    m & (m >> 2)
  }

  /** Go's `compute_won_position`: the four tests in the source's order
      (row, falling diagonal, rising diagonal, column), each returning
      early. */
  predicate ComputeWonPosition(pos: bv64)
  {
    if WonHorizontal(pos) != 0 then true
    else if WonFalling(pos) != 0 then true
    else if WonRising(pos) != 0 then true
    else if WonVertical(pos) != 0 then true
    else false
  }

  /** Go's `IsWonPosition`: either player has four in a line. */
  predicate IsWonPosition(p: Position)
  {
    ComputeWonPosition(p.Board) || ComputeWonPosition(Opponent(p.Board, p.Mask))
  }

  // ---------------------------------------------------------------------
  // The reference: four cells in a line on the grid

  /** Cell (`c`, `r`) and the next three along the step (`dc`, `dr`) all
      hold stones of `pos` (0xff steps one row down). */
  predicate FourFrom(pos: bv64, c: bv8, r: bv8, dc: bv8, dr: bv8)
  {
    && CellSet(pos, c, r)
    && CellSet(pos, c + dc, r + dr)
    && CellSet(pos, c + 2 * dc, r + 2 * dr)
    && CellSet(pos, c + 3 * dc, r + 3 * dr)
  }

  /** Some four stones of `pos` lie in a line along the step (`dc`, `dr`). */
  ghost predicate FourInLine(pos: bv64, dc: bv8, dr: bv8)
  {
    exists c: bv8, r: bv8 :: c < W && r < H && FourFrom(pos, c, r, dc, dr)
  }

  /** Some four stones of `pos` lie in a row, a column or a diagonal. */
  ghost predicate HasFour(pos: bv64)
  {
    || FourInLine(pos, 1, 0)
    || FourInLine(pos, 1, 0xff)
    || FourInLine(pos, 1, 1)
    || FourInLine(pos, 0, 1)
  }

  // ---------------------------------------------------------------------
  // The tests read column by column

  /** Column `c` of the horizontal test: bit `r` is set when the four cells
      from (`c`, `r`) along the row are. */
  function HorizontalRun(pos: bv64, c: bv8): bv8
  {
    ColumnField(pos, c) & ColumnField(pos, c + 1) & ColumnField(pos, c + 2) & ColumnField(pos, c + 3)
  }

  /** Column `c` of the falling test: bit `r` is set when the four cells
      from (`c`, `r`) down the falling diagonal are. */
  function FallingRun(pos: bv64, c: bv8): bv8
  {
    ColumnField(pos, c) & (ColumnField(pos, c + 1) << 1) & (ColumnField(pos, c + 2) << 2) & (ColumnField(pos, c + 3) << 3)
  }

  /** Column `c` of the rising test: bit `r` is set when the four cells
      from (`c`, `r`) up the rising diagonal are. */
  function RisingRun(pos: bv64, c: bv8): bv8
  {
    ColumnField(pos, c) & (ColumnField(pos, c + 1) >> 1) & (ColumnField(pos, c + 2) >> 2) & (ColumnField(pos, c + 3) >> 3)
  }

  /** Column `c` of the vertical test: bit `r` is set when the four cells
      from (`c`, `r`) up the column are. */
  function VerticalRun(pos: bv64, c: bv8): bv8
  {
    ColumnField(pos, c) & (ColumnField(pos, c) >> 1) & (ColumnField(pos, c) >> 2) & (ColumnField(pos, c) >> 3)
  }

  // The cases of `HorizontalRunColumns`, one lemma per column: with the column fixed,
  // every shift in the proof is a constant, which the solver settles
  // quickly; one lemma over a symbolic column is far more costly.
  lemma HorizontalRunColumn0(pos: bv64, c: bv8)
    requires Subset(pos, BoardCells) && c == 0
    ensures ColumnField(WonHorizontal(pos), c) & 0x3f == HorizontalRun(pos, c) & 0x3f
  {
  }

  lemma HorizontalRunColumn1(pos: bv64, c: bv8)
    requires Subset(pos, BoardCells) && c == 1
    ensures ColumnField(WonHorizontal(pos), c) & 0x3f == HorizontalRun(pos, c) & 0x3f
  {
  }

  lemma HorizontalRunColumn2(pos: bv64, c: bv8)
    requires Subset(pos, BoardCells) && c == 2
    ensures ColumnField(WonHorizontal(pos), c) & 0x3f == HorizontalRun(pos, c) & 0x3f
  {
  }

  lemma HorizontalRunColumn3(pos: bv64, c: bv8)
    requires Subset(pos, BoardCells) && c == 3
    ensures ColumnField(WonHorizontal(pos), c) & 0x3f == HorizontalRun(pos, c) & 0x3f
  {
  }

  lemma HorizontalRunColumn4(pos: bv64, c: bv8)
    requires Subset(pos, BoardCells) && c == 4
    ensures ColumnField(WonHorizontal(pos), c) & 0x3f == HorizontalRun(pos, c) & 0x3f
  {
  }

  lemma HorizontalRunColumn5(pos: bv64, c: bv8)
    requires Subset(pos, BoardCells) && c == 5
    ensures ColumnField(WonHorizontal(pos), c) & 0x3f == HorizontalRun(pos, c) & 0x3f
  {
  }

  lemma HorizontalRunColumn6(pos: bv64, c: bv8)
    requires Subset(pos, BoardCells) && c == 6
    ensures ColumnField(WonHorizontal(pos), c) & 0x3f == HorizontalRun(pos, c) & 0x3f
  {
  }

  /** The horizontal test agrees with its field formula in every column. */
  lemma HorizontalRunColumns(pos: bv64, c: bv8)
    ensures Subset(pos, BoardCells) && c < W ==> ColumnField(WonHorizontal(pos), c) & 0x3f == HorizontalRun(pos, c) & 0x3f
  {
    if Subset(pos, BoardCells) {
      if c == 0 {
        HorizontalRunColumn0(pos, c);
      } else if c == 1 {
        HorizontalRunColumn1(pos, c);
      } else if c == 2 {
        HorizontalRunColumn2(pos, c);
      } else if c == 3 {
        HorizontalRunColumn3(pos, c);
      } else if c == 4 {
        HorizontalRunColumn4(pos, c);
      } else if c == 5 {
        HorizontalRunColumn5(pos, c);
      } else if c == 6 {
        HorizontalRunColumn6(pos, c);
      }
    }
  }

  // The cases of `FallingRunColumns`, one lemma per column: with the column fixed,
  // every shift in the proof is a constant, which the solver settles
  // quickly; one lemma over a symbolic column is far more costly.
  lemma FallingRunColumn0(pos: bv64, c: bv8)
    requires Subset(pos, BoardCells) && c == 0
    ensures ColumnField(WonFalling(pos), c) & 0x3f == FallingRun(pos, c) & 0x3f
  {
  }

  lemma FallingRunColumn1(pos: bv64, c: bv8)
    requires Subset(pos, BoardCells) && c == 1
    ensures ColumnField(WonFalling(pos), c) & 0x3f == FallingRun(pos, c) & 0x3f
  {
  }

  lemma FallingRunColumn2(pos: bv64, c: bv8)
    requires Subset(pos, BoardCells) && c == 2
    ensures ColumnField(WonFalling(pos), c) & 0x3f == FallingRun(pos, c) & 0x3f
  {
  }

  lemma FallingRunColumn3(pos: bv64, c: bv8)
    requires Subset(pos, BoardCells) && c == 3
    ensures ColumnField(WonFalling(pos), c) & 0x3f == FallingRun(pos, c) & 0x3f
  {
  }

  lemma FallingRunColumn4(pos: bv64, c: bv8)
    requires Subset(pos, BoardCells) && c == 4
    ensures ColumnField(WonFalling(pos), c) & 0x3f == FallingRun(pos, c) & 0x3f
  {
  }

  lemma FallingRunColumn5(pos: bv64, c: bv8)
    requires Subset(pos, BoardCells) && c == 5
    ensures ColumnField(WonFalling(pos), c) & 0x3f == FallingRun(pos, c) & 0x3f
  {
  }

  lemma FallingRunColumn6(pos: bv64, c: bv8)
    requires Subset(pos, BoardCells) && c == 6
    ensures ColumnField(WonFalling(pos), c) & 0x3f == FallingRun(pos, c) & 0x3f
  {
  }

  /** The falling test agrees with its field formula in every column. */
  lemma FallingRunColumns(pos: bv64, c: bv8)
    ensures Subset(pos, BoardCells) && c < W ==> ColumnField(WonFalling(pos), c) & 0x3f == FallingRun(pos, c) & 0x3f
  {
    if Subset(pos, BoardCells) {
      if c == 0 {
        FallingRunColumn0(pos, c);
      } else if c == 1 {
        FallingRunColumn1(pos, c);
      } else if c == 2 {
        FallingRunColumn2(pos, c);
      } else if c == 3 {
        FallingRunColumn3(pos, c);
      } else if c == 4 {
        FallingRunColumn4(pos, c);
      } else if c == 5 {
        FallingRunColumn5(pos, c);
      } else if c == 6 {
        FallingRunColumn6(pos, c);
      }
    }
  }

  // The cases of `RisingRunColumns`, one lemma per column: with the column fixed,
  // every shift in the proof is a constant, which the solver settles
  // quickly; one lemma over a symbolic column is far more costly.
  lemma RisingRunColumn0(pos: bv64, c: bv8)
    requires Subset(pos, BoardCells) && c == 0
    ensures ColumnField(WonRising(pos), c) & 0x3f == RisingRun(pos, c) & 0x3f
  {
  }

  lemma RisingRunColumn1(pos: bv64, c: bv8)
    requires Subset(pos, BoardCells) && c == 1
    ensures ColumnField(WonRising(pos), c) & 0x3f == RisingRun(pos, c) & 0x3f
  {
  }

  lemma RisingRunColumn2(pos: bv64, c: bv8)
    requires Subset(pos, BoardCells) && c == 2
    ensures ColumnField(WonRising(pos), c) & 0x3f == RisingRun(pos, c) & 0x3f
  {
  }

  lemma RisingRunColumn3(pos: bv64, c: bv8)
    requires Subset(pos, BoardCells) && c == 3
    ensures ColumnField(WonRising(pos), c) & 0x3f == RisingRun(pos, c) & 0x3f
  {
  }

  lemma RisingRunColumn4(pos: bv64, c: bv8)
    requires Subset(pos, BoardCells) && c == 4
    ensures ColumnField(WonRising(pos), c) & 0x3f == RisingRun(pos, c) & 0x3f
  {
  }

  lemma RisingRunColumn5(pos: bv64, c: bv8)
    requires Subset(pos, BoardCells) && c == 5
    ensures ColumnField(WonRising(pos), c) & 0x3f == RisingRun(pos, c) & 0x3f
  {
  }

  lemma RisingRunColumn6(pos: bv64, c: bv8)
    requires Subset(pos, BoardCells) && c == 6
    ensures ColumnField(WonRising(pos), c) & 0x3f == RisingRun(pos, c) & 0x3f
  {
  }

  /** The rising test agrees with its field formula in every column. */
  lemma RisingRunColumns(pos: bv64, c: bv8)
    ensures Subset(pos, BoardCells) && c < W ==> ColumnField(WonRising(pos), c) & 0x3f == RisingRun(pos, c) & 0x3f
  {
    if Subset(pos, BoardCells) {
      if c == 0 {
        RisingRunColumn0(pos, c);
      } else if c == 1 {
        RisingRunColumn1(pos, c);
      } else if c == 2 {
        RisingRunColumn2(pos, c);
      } else if c == 3 {
        RisingRunColumn3(pos, c);
      } else if c == 4 {
        RisingRunColumn4(pos, c);
      } else if c == 5 {
        RisingRunColumn5(pos, c);
      } else if c == 6 {
        RisingRunColumn6(pos, c);
      }
    }
  }

  lemma VerticalRunColumns(pos: bv64, c: bv8)
    ensures Subset(pos, BoardCells) && c < W ==> ColumnField(WonVertical(pos), c) & 0x3f == VerticalRun(pos, c) & 0x3f
  {
  }

  /** Bit `r` of the horizontal field formula marks four stones along the row. */
  lemma HorizontalRunRead(pos: bv64, c: bv8, r: bv8)
    requires Subset(pos, BoardCells) && c < W && r < H
    ensures (HorizontalRun(pos, c) >> r) & 1 == 1 <==> FourFrom(pos, c, r, 1, 0)
  {
  }

  lemma HorizontalFourOf(x: bv64, pos: bv64, c: bv8, r: bv8)
    ensures (Subset(pos, BoardCells) && c < W && r < H && ColumnField(x, c) & 0x3f == HorizontalRun(pos, c) & 0x3f)
            ==> (CellSet(x, c, r) <==> FourFrom(pos, c, r, 1, 0))
  {
    CellOfField(x, HorizontalRun(pos, c), c, r);
    if Subset(pos, BoardCells) && c < W && r < H {
      HorizontalRunRead(pos, c, r);
    }
  }

  /** A cell of the horizontal test starts four stones along the row. */
  lemma HorizontalFourCell(pos: bv64, c: bv8, r: bv8)
    ensures Subset(pos, BoardCells) && c < W && r < H ==> (CellSet(WonHorizontal(pos), c, r) <==> FourFrom(pos, c, r, 1, 0))
  {
    HorizontalRunColumns(pos, c);
    HorizontalFourOf(WonHorizontal(pos), pos, c, r);
  }

  /** The horizontal test fires exactly when four stones lie along the row. */
  lemma HorizontalFours(pos: bv64)
    requires Subset(pos, BoardCells)
    ensures WonHorizontal(pos) != 0 <==> FourInLine(pos, 1, 0)
  {
    if WonHorizontal(pos) != 0 {
      MaskedOnBoard(pos, pos >> 7, (pos & (pos >> 7)) >> 14);
      var c, r := SomeCell(WonHorizontal(pos));
      HorizontalFourCell(pos, c, r);
    } else {
      forall c: bv8, r: bv8 | c < W && r < H
        ensures !FourFrom(pos, c, r, 1, 0)
      {
        HorizontalFourCell(pos, c, r);
      }
    }
  }

  /** Bit `r` of the falling field formula marks four stones down the falling diagonal. */
  lemma FallingRunRead(pos: bv64, c: bv8, r: bv8)
    requires Subset(pos, BoardCells) && c < W && r < H
    ensures (FallingRun(pos, c) >> r) & 1 == 1 <==> FourFrom(pos, c, r, 1, 0xff)
  {
  }

  lemma FallingFourOf(x: bv64, pos: bv64, c: bv8, r: bv8)
    ensures (Subset(pos, BoardCells) && c < W && r < H && ColumnField(x, c) & 0x3f == FallingRun(pos, c) & 0x3f)
            ==> (CellSet(x, c, r) <==> FourFrom(pos, c, r, 1, 0xff))
  {
    CellOfField(x, FallingRun(pos, c), c, r);
    if Subset(pos, BoardCells) && c < W && r < H {
      FallingRunRead(pos, c, r);
    }
  }

  /** A cell of the falling test starts four stones down the falling diagonal. */
  lemma FallingFourCell(pos: bv64, c: bv8, r: bv8)
    ensures Subset(pos, BoardCells) && c < W && r < H ==> (CellSet(WonFalling(pos), c, r) <==> FourFrom(pos, c, r, 1, 0xff))
  {
    FallingRunColumns(pos, c);
    FallingFourOf(WonFalling(pos), pos, c, r);
  }

  /** The falling test fires exactly when four stones lie down the falling diagonal. */
  lemma FallingFours(pos: bv64)
    requires Subset(pos, BoardCells)
    ensures WonFalling(pos) != 0 <==> FourInLine(pos, 1, 0xff)
  {
    if WonFalling(pos) != 0 {
      MaskedOnBoard(pos, pos >> 6, (pos & (pos >> 6)) >> 12);
      var c, r := SomeCell(WonFalling(pos));
      FallingFourCell(pos, c, r);
    } else {
      forall c: bv8, r: bv8 | c < W && r < H
        ensures !FourFrom(pos, c, r, 1, 0xff)
      {
        FallingFourCell(pos, c, r);
      }
    }
  }

  /** Bit `r` of the rising field formula marks four stones up the rising diagonal. */
  lemma RisingRunRead(pos: bv64, c: bv8, r: bv8)
    requires Subset(pos, BoardCells) && c < W && r < H
    ensures (RisingRun(pos, c) >> r) & 1 == 1 <==> FourFrom(pos, c, r, 1, 1)
  {
  }

  lemma RisingFourOf(x: bv64, pos: bv64, c: bv8, r: bv8)
    ensures (Subset(pos, BoardCells) && c < W && r < H && ColumnField(x, c) & 0x3f == RisingRun(pos, c) & 0x3f)
            ==> (CellSet(x, c, r) <==> FourFrom(pos, c, r, 1, 1))
  {
    CellOfField(x, RisingRun(pos, c), c, r);
    if Subset(pos, BoardCells) && c < W && r < H {
      RisingRunRead(pos, c, r);
    }
  }

  /** A cell of the rising test starts four stones up the rising diagonal. */
  lemma RisingFourCell(pos: bv64, c: bv8, r: bv8)
    ensures Subset(pos, BoardCells) && c < W && r < H ==> (CellSet(WonRising(pos), c, r) <==> FourFrom(pos, c, r, 1, 1))
  {
    RisingRunColumns(pos, c);
    RisingFourOf(WonRising(pos), pos, c, r);
  }

  /** The rising test fires exactly when four stones lie up the rising diagonal. */
  lemma RisingFours(pos: bv64)
    requires Subset(pos, BoardCells)
    ensures WonRising(pos) != 0 <==> FourInLine(pos, 1, 1)
  {
    if WonRising(pos) != 0 {
      MaskedOnBoard(pos, pos >> 8, (pos & (pos >> 8)) >> 16);
      var c, r := SomeCell(WonRising(pos));
      RisingFourCell(pos, c, r);
    } else {
      forall c: bv8, r: bv8 | c < W && r < H
        ensures !FourFrom(pos, c, r, 1, 1)
      {
        RisingFourCell(pos, c, r);
      }
    }
  }

  /** Bit `r` of the vertical field formula marks four stones up the column. */
  lemma VerticalRunRead(pos: bv64, c: bv8, r: bv8)
    requires Subset(pos, BoardCells) && c < W && r < H
    ensures (VerticalRun(pos, c) >> r) & 1 == 1 <==> FourFrom(pos, c, r, 0, 1)
  {
  }

  lemma VerticalFourOf(x: bv64, pos: bv64, c: bv8, r: bv8)
    ensures (Subset(pos, BoardCells) && c < W && r < H && ColumnField(x, c) & 0x3f == VerticalRun(pos, c) & 0x3f)
            ==> (CellSet(x, c, r) <==> FourFrom(pos, c, r, 0, 1))
  {
    CellOfField(x, VerticalRun(pos, c), c, r);
    if Subset(pos, BoardCells) && c < W && r < H {
      VerticalRunRead(pos, c, r);
    }
  }

  /** A cell of the vertical test starts four stones up the column. */
  lemma VerticalFourCell(pos: bv64, c: bv8, r: bv8)
    ensures Subset(pos, BoardCells) && c < W && r < H ==> (CellSet(WonVertical(pos), c, r) <==> FourFrom(pos, c, r, 0, 1))
  {
    VerticalRunColumns(pos, c);
    VerticalFourOf(WonVertical(pos), pos, c, r);
  }

  /** The vertical test fires exactly when four stones lie up the column. */
  lemma VerticalFours(pos: bv64)
    requires Subset(pos, BoardCells)
    ensures WonVertical(pos) != 0 <==> FourInLine(pos, 0, 1)
  {
    if WonVertical(pos) != 0 {
      MaskedOnBoard(pos, pos >> 1, (pos & (pos >> 1)) >> 2);
      var c, r := SomeCell(WonVertical(pos));
      VerticalFourCell(pos, c, r);
    } else {
      forall c: bv8, r: bv8 | c < W && r < H
        ensures !FourFrom(pos, c, r, 0, 1)
      {
        VerticalFourCell(pos, c, r);
      }
    }
  }

  /** Masking a word on the board keeps it on the board. */
  lemma MaskedOnBoard(x: bv64, a: bv64, b: bv64)
    requires Subset(x, BoardCells)
    ensures Subset(x & a & b, BoardCells)
  {
  }

  // ---------------------------------------------------------------------
  // The completed-four test

  /** For stones on the board, `compute_won_position` holds exactly when
      four of them lie in a row, a column or a diagonal. */
  lemma ComputeWonPositionMeans(pos: bv64)
    requires Subset(pos, BoardCells)
    ensures ComputeWonPosition(pos) <==> HasFour(pos)
  {
    HorizontalFours(pos);
    FallingFours(pos);
    RisingFours(pos);
    VerticalFours(pos);
  }

  /** On a position whose stones lie on the board, `IsWonPosition` holds
      exactly when one of the two players has four stones in a line. */
  lemma IsWonPositionMeans(p: Position)
    requires Subset(p.Board, p.Mask) && Subset(p.Mask, BoardCells)
    ensures IsWonPosition(p) <==> HasFour(p.Board) || HasFour(Opponent(p.Board, p.Mask))
  {
    SubsetTrans(p.Board, p.Mask, BoardCells);
    SwapSubset(p.Board, p.Mask, BoardCells);
    ComputeWonPositionMeans(p.Board);
    ComputeWonPositionMeans(Opponent(p.Board, p.Mask));
  }

  /** Handing the board to the other player does not change whether the
      position is won. */
  lemma IsWonPositionSwap(p: Position)
    ensures IsWonPosition(Position(Opponent(p.Board, p.Mask), p.Mask, p.moves)) == IsWonPosition(p)
  {
    SwapBack(p.Board, p.Mask);
  }

  /** The empty board is not won. */
  lemma NewPositionNotWon()
    ensures !IsWonPosition(NewPosition())
  {
  }
}

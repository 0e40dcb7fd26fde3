/** Go's winning-cell computation (`compute_winning_position`), the queries
    built on it, and the completed-four test (`compute_won_position`), each
    read back on the grid of cells. */
module WinDetector {
  import opened Bits
  import opened Layout
  import opened Positions
  import opened MoveEngine

  // ---------------------------------------------------------------------
  // The computation, as written

  /** The vertical block: a cell whose three cells below hold stones. */
  function Vertical(pos: bv64): bv64
  {
    (pos << 1) & (pos << 2) & (pos << 3)
  }

  /** The three alignment blocks of `compute_winning_position`, one per bit
      stride between neighbouring cells of a line: H + 1 = 7 along a row,
      H = 6 along the falling diagonal and H + 2 = 8 along the rising one.
      `p` marks the cells with stones one and two strides below; it is
      combined with the stone three strides below and one stride above,
      then moved down three strides to find the cells with stones one and
      two strides above. Go evaluates the constant shift counts at compile
      time; they are written out here as the literals they evaluate to. */
  function Horizontal(pos: bv64): bv64
  {
    var p := (pos << 7) & (pos << 14);
    var r := (p & (pos << 21)) | (p & (pos >> 7));
    var q := p >> 21;
    r | (q & (pos << 7)) | (q & (pos >> 21))
  }

  function Falling(pos: bv64): bv64
  {
    var p := (pos << 6) & (pos << 12);
    var r := (p & (pos << 18)) | (p & (pos >> 6));
    var q := p >> 18;
    r | (q & (pos << 6)) | (q & (pos >> 18))
  }

  function Rising(pos: bv64): bv64
  {
    var p := (pos << 8) & (pos << 16);
    var r := (p & (pos << 24)) | (p & (pos >> 8));
    var q := p >> 24;
    r | (q & (pos << 8)) | (q & (pos >> 24))
  }

  /** Go's `compute_winning_position`: the cells where one more stone of
      `pos` completes a line of four, restricted to the empty playable
      cells. */
  function ComputeWinningPosition(pos: bv64, mask: bv64): (r: bv64)
    ensures Subset(r, BoardCells ^ mask)
    ensures Subset(mask, BoardCells) ==> Subset(r, BoardCells & !mask)
  {
    var lines := Vertical(pos) | Horizontal(pos) | Falling(pos)
                 | Rising(pos);
    MaskedSubset(lines, BoardCells ^ mask);
    MaskedToggle(lines, mask, BoardCells);
    lines & (BoardCells ^ mask)
  }

  /** Go's `winning_positions`: the cells that win for the player to move. */
  function WinningPositions(p: Position): bv64
  {
    ComputeWinningPosition(p.Board, p.Mask)
  }

  /** Go's `opponent_winning_position`: the cells that would win for the
      other player. */
  function OpponentWinningPosition(p: Position): bv64
  {
    ComputeWinningPosition(Opponent(p.Board, p.Mask), p.Mask)
  }

  // ---------------------------------------------------------------------
  // Lines on the grid

  /** A stone on (`c`, `r`) would complete four along the step (`dc`, `dr`):
      the three other cells of one of the four lines of four through it
      hold stones of `pos`. Steps are 8-bit words, so 0xff steps one row
      down, and a cell off the grid never holds a stone. */
  predicate LineThrough(pos: bv64, c: bv8, r: bv8, dc: bv8, dr: bv8)
  {
    var bc := 0 - dc;
    var br := 0 - dr;
    || (CellSet(pos, c + bc, r + br) && CellSet(pos, c + 2 * bc, r + 2 * br) && CellSet(pos, c + 3 * bc, r + 3 * br))
    || (CellSet(pos, c + bc, r + br) && CellSet(pos, c + 2 * bc, r + 2 * br) && CellSet(pos, c + dc, r + dr))
    || (CellSet(pos, c + bc, r + br) && CellSet(pos, c + dc, r + dr) && CellSet(pos, c + 2 * dc, r + 2 * dr))
    || (CellSet(pos, c + dc, r + dr) && CellSet(pos, c + 2 * dc, r + 2 * dr) && CellSet(pos, c + 3 * dc, r + 3 * dr))
  }

  /** The three cells below (`c`, `r`) hold stones of `pos`. Vertically only
      this line counts: a stone never lies above an empty cell. */
  predicate StackBelow(pos: bv64, c: bv8, r: bv8)
  {
    CellSet(pos, c, r - 1) && CellSet(pos, c, r - 2) && CellSet(pos, c, r - 3)
  }

  /** A stone of `pos` on (`c`, `r`) would complete a line of four: down the
      column, along the row, or along either diagonal. */
  predicate CompletesFour(pos: bv64, c: bv8, r: bv8)
  {
    || StackBelow(pos, c, r)
    || LineThrough(pos, c, r, 1, 0)
    || LineThrough(pos, c, r, 1, 1)
    || LineThrough(pos, c, r, 1, 0xff)
  }

  // ---------------------------------------------------------------------
  // The blocks read column by column

  /** The four placements of a cell among four in a line, on 7-bit column
      fields: three neighbours on one side (`a1`..`a3`), two and one, one
      and two, or three on the other side (`b1`..`b3`). */
  function Window(a1: bv8, a2: bv8, a3: bv8, b1: bv8, b2: bv8, b3: bv8): bv8
  {
    (a1 & a2 & a3) | (a1 & a2 & b1) | (a1 & b1 & b2) | (b1 & b2 & b3)
  }

  /** Column `c` of the vertical block. */
  function VerticalField(pos: bv64, c: bv8): bv8
  {
    var f := ColumnField(pos, c);
    (f << 1) & (f << 2) & (f << 3)
  }

  /** Column `c` of the row block: the neighbours are the same row of the
      columns either side. */
  function HorizontalField(pos: bv64, c: bv8): bv8
  {
    Window(ColumnField(pos, c - 1), ColumnField(pos, c - 2), ColumnField(pos, c - 3),
           ColumnField(pos, c + 1), ColumnField(pos, c + 2), ColumnField(pos, c + 3))
  }

  /** Column `c` of the stride-(H + 2) block: the neighbours lie one row
      lower per column to the left and one row higher per column to the
      right. */
  function RisingField(pos: bv64, c: bv8): bv8
  {
    Window(ColumnField(pos, c - 1) << 1, ColumnField(pos, c - 2) << 2, ColumnField(pos, c - 3) << 3,
           ColumnField(pos, c + 1) >> 1, ColumnField(pos, c + 2) >> 2, ColumnField(pos, c + 3) >> 3)
  }

  /** Column `c` of the stride-H block: the neighbours lie one row higher
      per column to the left and one row lower per column to the right. */
  function FallingField(pos: bv64, c: bv8): bv8
  {
    Window(ColumnField(pos, c - 1) >> 1, ColumnField(pos, c - 2) >> 2, ColumnField(pos, c - 3) >> 3,
           ColumnField(pos, c + 1) << 1, ColumnField(pos, c + 2) << 2, ColumnField(pos, c + 3) << 3)
  }

  /** Column by column, each block of `compute_winning_position` agrees with
      its field formula on the playable rows. The lemmas come one per
      column, since the solver handles a fixed column far better than a
      symbolic one. */
  lemma VerticalColumns(pos: bv64, c: bv8)
    ensures Subset(pos, BoardCells) && c < W ==> ColumnField(Vertical(pos), c) & 0x3f == VerticalField(pos, c) & 0x3f
  {
  }

  // The cases of `HorizontalColumns`, one lemma per column: with the column fixed,
  // every shift in the proof is a constant, which the solver settles
  // quickly; one lemma over a symbolic column is far more costly.
  lemma HorizontalColumn0(pos: bv64, c: bv8)
    requires Subset(pos, BoardCells) && c == 0
    ensures ColumnField(Horizontal(pos), c) & 0x3f == HorizontalField(pos, c) & 0x3f
  {
  }

  lemma HorizontalColumn1(pos: bv64, c: bv8)
    requires Subset(pos, BoardCells) && c == 1
    ensures ColumnField(Horizontal(pos), c) & 0x3f == HorizontalField(pos, c) & 0x3f
  {
  }

  lemma HorizontalColumn2(pos: bv64, c: bv8)
    requires Subset(pos, BoardCells) && c == 2
    ensures ColumnField(Horizontal(pos), c) & 0x3f == HorizontalField(pos, c) & 0x3f
  {
  }

  lemma HorizontalColumn3(pos: bv64, c: bv8)
    requires Subset(pos, BoardCells) && c == 3
    ensures ColumnField(Horizontal(pos), c) & 0x3f == HorizontalField(pos, c) & 0x3f
  {
  }

  lemma HorizontalColumn4(pos: bv64, c: bv8)
    requires Subset(pos, BoardCells) && c == 4
    ensures ColumnField(Horizontal(pos), c) & 0x3f == HorizontalField(pos, c) & 0x3f
  {
  }

  lemma HorizontalColumn5(pos: bv64, c: bv8)
    requires Subset(pos, BoardCells) && c == 5
    ensures ColumnField(Horizontal(pos), c) & 0x3f == HorizontalField(pos, c) & 0x3f
  {
  }

  lemma HorizontalColumn6(pos: bv64, c: bv8)
    requires Subset(pos, BoardCells) && c == 6
    ensures ColumnField(Horizontal(pos), c) & 0x3f == HorizontalField(pos, c) & 0x3f
  {
  }

  // The cases of `RisingColumns`, one lemma per column: with the column fixed,
  // every shift in the proof is a constant, which the solver settles
  // quickly; one lemma over a symbolic column is far more costly.
  lemma RisingColumn0(pos: bv64, c: bv8)
    requires Subset(pos, BoardCells) && c == 0
    ensures ColumnField(Rising(pos), c) & 0x3f == RisingField(pos, c) & 0x3f
  {
  }

  lemma RisingColumn1(pos: bv64, c: bv8)
    requires Subset(pos, BoardCells) && c == 1
    ensures ColumnField(Rising(pos), c) & 0x3f == RisingField(pos, c) & 0x3f
  {
  }

  lemma RisingColumn2(pos: bv64, c: bv8)
    requires Subset(pos, BoardCells) && c == 2
    ensures ColumnField(Rising(pos), c) & 0x3f == RisingField(pos, c) & 0x3f
  {
  }

  lemma RisingColumn3(pos: bv64, c: bv8)
    requires Subset(pos, BoardCells) && c == 3
    ensures ColumnField(Rising(pos), c) & 0x3f == RisingField(pos, c) & 0x3f
  {
  }

  lemma RisingColumn4(pos: bv64, c: bv8)
    requires Subset(pos, BoardCells) && c == 4
    ensures ColumnField(Rising(pos), c) & 0x3f == RisingField(pos, c) & 0x3f
  {
  }

  lemma RisingColumn5(pos: bv64, c: bv8)
    requires Subset(pos, BoardCells) && c == 5
    ensures ColumnField(Rising(pos), c) & 0x3f == RisingField(pos, c) & 0x3f
  {
  }

  lemma RisingColumn6(pos: bv64, c: bv8)
    requires Subset(pos, BoardCells) && c == 6
    ensures ColumnField(Rising(pos), c) & 0x3f == RisingField(pos, c) & 0x3f
  {
  }

  // The cases of `FallingColumns`, one lemma per column: with the column fixed,
  // every shift in the proof is a constant, which the solver settles
  // quickly; one lemma over a symbolic column is far more costly.
  lemma FallingColumn0(pos: bv64, c: bv8)
    requires Subset(pos, BoardCells) && c == 0
    ensures ColumnField(Falling(pos), c) & 0x3f == FallingField(pos, c) & 0x3f
  {
  }

  lemma FallingColumn1(pos: bv64, c: bv8)
    requires Subset(pos, BoardCells) && c == 1
    ensures ColumnField(Falling(pos), c) & 0x3f == FallingField(pos, c) & 0x3f
  {
  }

  lemma FallingColumn2(pos: bv64, c: bv8)
    requires Subset(pos, BoardCells) && c == 2
    ensures ColumnField(Falling(pos), c) & 0x3f == FallingField(pos, c) & 0x3f
  {
  }

  lemma FallingColumn3(pos: bv64, c: bv8)
    requires Subset(pos, BoardCells) && c == 3
    ensures ColumnField(Falling(pos), c) & 0x3f == FallingField(pos, c) & 0x3f
  {
  }

  lemma FallingColumn4(pos: bv64, c: bv8)
    requires Subset(pos, BoardCells) && c == 4
    ensures ColumnField(Falling(pos), c) & 0x3f == FallingField(pos, c) & 0x3f
  {
  }

  lemma FallingColumn5(pos: bv64, c: bv8)
    requires Subset(pos, BoardCells) && c == 5
    ensures ColumnField(Falling(pos), c) & 0x3f == FallingField(pos, c) & 0x3f
  {
  }

  lemma FallingColumn6(pos: bv64, c: bv8)
    requires Subset(pos, BoardCells) && c == 6
    ensures ColumnField(Falling(pos), c) & 0x3f == FallingField(pos, c) & 0x3f
  {
  }

  /** The horizontal block agrees with its field formula in every column. */
  lemma HorizontalColumns(pos: bv64, c: bv8)
    ensures Subset(pos, BoardCells) && c < W ==> ColumnField(Horizontal(pos), c) & 0x3f == HorizontalField(pos, c) & 0x3f
  {
    if Subset(pos, BoardCells) {
      if c == 0 {
        HorizontalColumn0(pos, c);
      } else if c == 1 {
        HorizontalColumn1(pos, c);
      } else if c == 2 {
        HorizontalColumn2(pos, c);
      } else if c == 3 {
        HorizontalColumn3(pos, c);
      } else if c == 4 {
        HorizontalColumn4(pos, c);
      } else if c == 5 {
        HorizontalColumn5(pos, c);
      } else if c == 6 {
        HorizontalColumn6(pos, c);
      }
    }
  }

  /** The rising block agrees with its field formula in every column. */
  lemma RisingColumns(pos: bv64, c: bv8)
    ensures Subset(pos, BoardCells) && c < W ==> ColumnField(Rising(pos), c) & 0x3f == RisingField(pos, c) & 0x3f
  {
    if Subset(pos, BoardCells) {
      if c == 0 {
        RisingColumn0(pos, c);
      } else if c == 1 {
        RisingColumn1(pos, c);
      } else if c == 2 {
        RisingColumn2(pos, c);
      } else if c == 3 {
        RisingColumn3(pos, c);
      } else if c == 4 {
        RisingColumn4(pos, c);
      } else if c == 5 {
        RisingColumn5(pos, c);
      } else if c == 6 {
        RisingColumn6(pos, c);
      }
    }
  }

  /** The falling block agrees with its field formula in every column. */
  lemma FallingColumns(pos: bv64, c: bv8)
    ensures Subset(pos, BoardCells) && c < W ==> ColumnField(Falling(pos), c) & 0x3f == FallingField(pos, c) & 0x3f
  {
    if Subset(pos, BoardCells) {
      if c == 0 {
        FallingColumn0(pos, c);
      } else if c == 1 {
        FallingColumn1(pos, c);
      } else if c == 2 {
        FallingColumn2(pos, c);
      } else if c == 3 {
        FallingColumn3(pos, c);
      } else if c == 4 {
        FallingColumn4(pos, c);
      } else if c == 5 {
        FallingColumn5(pos, c);
      } else if c == 6 {
        FallingColumn6(pos, c);
      }
    }
  }

  /** Bit `r` of the vertical field formula marks a cell that completes
      four down the column. */
  lemma VerticalRead(pos: bv64, c: bv8, r: bv8)
    requires Subset(pos, BoardCells) && c < W && r < H
    ensures (VerticalField(pos, c) >> r) & 1 == 1 <==> StackBelow(pos, c, r)
  {
  }

  /** Bit `r` of the horizontal field formula marks a cell that completes
      four along the row. */
  lemma HorizontalRead(pos: bv64, c: bv8, r: bv8)
    requires Subset(pos, BoardCells) && c < W && r < H
    ensures (HorizontalField(pos, c) >> r) & 1 == 1 <==> LineThrough(pos, c, r, 1, 0)
  {
  }

  /** Bit `r` of the rising field formula marks a cell that completes
      four along the rising diagonal. */
  lemma RisingRead(pos: bv64, c: bv8, r: bv8)
    requires Subset(pos, BoardCells) && c < W && r < H
    ensures (RisingField(pos, c) >> r) & 1 == 1 <==> LineThrough(pos, c, r, 1, 1)
  {
  }

  /** Bit `r` of the falling field formula marks a cell that completes
      four along the falling diagonal. */
  lemma FallingRead(pos: bv64, c: bv8, r: bv8)
    requires Subset(pos, BoardCells) && c < W && r < H
    ensures (FallingField(pos, c) >> r) & 1 == 1 <==> LineThrough(pos, c, r, 1, 0xff)
  {
  }

  // The steps below are stated as implications, over an arbitrary word `x`
  // where they can be: a lemma that mentions one of the large block
  // expressions then only instantiates them, with no proof obligation of its
  // own, which keeps the solver's work small.

  lemma VerticalCellOf(x: bv64, pos: bv64, c: bv8, r: bv8)
    ensures (Subset(pos, BoardCells) && c < W && r < H && ColumnField(x, c) & 0x3f == VerticalField(pos, c) & 0x3f)
            ==> (CellSet(x, c, r) <==> StackBelow(pos, c, r))
  {
    CellOfField(x, VerticalField(pos, c), c, r);
    if Subset(pos, BoardCells) && c < W && r < H {
      VerticalRead(pos, c, r);
    }
  }

  /** A cell of the vertical block is a cell that completes four
      down the column. */
  lemma VerticalCell(pos: bv64, c: bv8, r: bv8)
    ensures Subset(pos, BoardCells) && c < W && r < H ==> (CellSet(Vertical(pos), c, r) <==> StackBelow(pos, c, r))
  {
    VerticalColumns(pos, c);
    VerticalCellOf(Vertical(pos), pos, c, r);
  }

  lemma HorizontalCellOf(x: bv64, pos: bv64, c: bv8, r: bv8)
    ensures (Subset(pos, BoardCells) && c < W && r < H && ColumnField(x, c) & 0x3f == HorizontalField(pos, c) & 0x3f)
            ==> (CellSet(x, c, r) <==> LineThrough(pos, c, r, 1, 0))
  {
    CellOfField(x, HorizontalField(pos, c), c, r);
    if Subset(pos, BoardCells) && c < W && r < H {
      HorizontalRead(pos, c, r);
    }
  }

  /** A cell of the horizontal block is a cell that completes four
      along the row. */
  lemma HorizontalCell(pos: bv64, c: bv8, r: bv8)
    ensures Subset(pos, BoardCells) && c < W && r < H ==> (CellSet(Horizontal(pos), c, r) <==> LineThrough(pos, c, r, 1, 0))
  {
    HorizontalColumns(pos, c);
    HorizontalCellOf(Horizontal(pos), pos, c, r);
  }

  lemma RisingCellOf(x: bv64, pos: bv64, c: bv8, r: bv8)
    ensures (Subset(pos, BoardCells) && c < W && r < H && ColumnField(x, c) & 0x3f == RisingField(pos, c) & 0x3f)
            ==> (CellSet(x, c, r) <==> LineThrough(pos, c, r, 1, 1))
  {
    CellOfField(x, RisingField(pos, c), c, r);
    if Subset(pos, BoardCells) && c < W && r < H {
      RisingRead(pos, c, r);
    }
  }

  /** A cell of the rising block is a cell that completes four
      along the rising diagonal. */
  lemma RisingCell(pos: bv64, c: bv8, r: bv8)
    ensures Subset(pos, BoardCells) && c < W && r < H ==> (CellSet(Rising(pos), c, r) <==> LineThrough(pos, c, r, 1, 1))
  {
    RisingColumns(pos, c);
    RisingCellOf(Rising(pos), pos, c, r);
  }

  lemma FallingCellOf(x: bv64, pos: bv64, c: bv8, r: bv8)
    ensures (Subset(pos, BoardCells) && c < W && r < H && ColumnField(x, c) & 0x3f == FallingField(pos, c) & 0x3f)
            ==> (CellSet(x, c, r) <==> LineThrough(pos, c, r, 1, 0xff))
  {
    CellOfField(x, FallingField(pos, c), c, r);
    if Subset(pos, BoardCells) && c < W && r < H {
      FallingRead(pos, c, r);
    }
  }

  /** A cell of the falling block is a cell that completes four
      along the falling diagonal. */
  lemma FallingCell(pos: bv64, c: bv8, r: bv8)
    ensures Subset(pos, BoardCells) && c < W && r < H ==> (CellSet(Falling(pos), c, r) <==> LineThrough(pos, c, r, 1, 0xff))
  {
    FallingColumns(pos, c);
    FallingCellOf(Falling(pos), pos, c, r);
  }

  /** The union of four blocks, restricted to the empty playable cells of
      `mask`, read cell by cell: `down`, `row`, `falling` and `rising` stand
      for what each block's cell means. */
  lemma CombineCells(v: bv64, h: bv64, d: bv64, a: bv64, mask: bv64, c: bv8, r: bv8,
                       down: bool, row: bool, falling: bool, rising: bool)
    ensures (&& (CellSet(v, c, r) <==> down) && (CellSet(h, c, r) <==> row)
             && (CellSet(d, c, r) <==> falling) && (CellSet(a, c, r) <==> rising))
            ==> (CellSet((v | h | d | a) & (BoardCells ^ mask), c, r)
                 <==> !CellSet(mask, c, r) && (down || row || rising || falling))
  {
    if c == 0 {
      CombineColumn0(v, h, d, a, mask, c, r, down, row, falling, rising);
    } else if c == 1 {
      CombineColumn1(v, h, d, a, mask, c, r, down, row, falling, rising);
    } else if c == 2 {
      CombineColumn2(v, h, d, a, mask, c, r, down, row, falling, rising);
    } else if c == 3 {
      CombineColumn3(v, h, d, a, mask, c, r, down, row, falling, rising);
    } else if c == 4 {
      CombineColumn4(v, h, d, a, mask, c, r, down, row, falling, rising);
    } else if c == 5 {
      CombineColumn5(v, h, d, a, mask, c, r, down, row, falling, rising);
    } else if c == 6 {
      CombineColumn6(v, h, d, a, mask, c, r, down, row, falling, rising);
    }
  }

  // The cases of `CombineCells`, one lemma per column: with the column fixed,
  // every shift in the proof is a constant, which the solver settles
  // quickly; one lemma over a symbolic column is far more costly.
  lemma CombineColumn0(v: bv64, h: bv64, d: bv64, a: bv64, mask: bv64, c: bv8, r: bv8,
                       down: bool, row: bool, falling: bool, rising: bool)
    requires c == 0
    ensures (&& (CellSet(v, c, r) <==> down) && (CellSet(h, c, r) <==> row)
             && (CellSet(d, c, r) <==> falling) && (CellSet(a, c, r) <==> rising))
            ==> (CellSet((v | h | d | a) & (BoardCells ^ mask), c, r)
                 <==> !CellSet(mask, c, r) && (down || row || rising || falling))
  {
  }

  lemma CombineColumn1(v: bv64, h: bv64, d: bv64, a: bv64, mask: bv64, c: bv8, r: bv8,
                       down: bool, row: bool, falling: bool, rising: bool)
    requires c == 1
    ensures (&& (CellSet(v, c, r) <==> down) && (CellSet(h, c, r) <==> row)
             && (CellSet(d, c, r) <==> falling) && (CellSet(a, c, r) <==> rising))
            ==> (CellSet((v | h | d | a) & (BoardCells ^ mask), c, r)
                 <==> !CellSet(mask, c, r) && (down || row || rising || falling))
  {
  }

  lemma CombineColumn2(v: bv64, h: bv64, d: bv64, a: bv64, mask: bv64, c: bv8, r: bv8,
                       down: bool, row: bool, falling: bool, rising: bool)
    requires c == 2
    ensures (&& (CellSet(v, c, r) <==> down) && (CellSet(h, c, r) <==> row)
             && (CellSet(d, c, r) <==> falling) && (CellSet(a, c, r) <==> rising))
            ==> (CellSet((v | h | d | a) & (BoardCells ^ mask), c, r)
                 <==> !CellSet(mask, c, r) && (down || row || rising || falling))
  {
  }

  lemma CombineColumn3(v: bv64, h: bv64, d: bv64, a: bv64, mask: bv64, c: bv8, r: bv8,
                       down: bool, row: bool, falling: bool, rising: bool)
    requires c == 3
    ensures (&& (CellSet(v, c, r) <==> down) && (CellSet(h, c, r) <==> row)
             && (CellSet(d, c, r) <==> falling) && (CellSet(a, c, r) <==> rising))
            ==> (CellSet((v | h | d | a) & (BoardCells ^ mask), c, r)
                 <==> !CellSet(mask, c, r) && (down || row || rising || falling))
  {
  }

  lemma CombineColumn4(v: bv64, h: bv64, d: bv64, a: bv64, mask: bv64, c: bv8, r: bv8,
                       down: bool, row: bool, falling: bool, rising: bool)
    requires c == 4
    ensures (&& (CellSet(v, c, r) <==> down) && (CellSet(h, c, r) <==> row)
             && (CellSet(d, c, r) <==> falling) && (CellSet(a, c, r) <==> rising))
            ==> (CellSet((v | h | d | a) & (BoardCells ^ mask), c, r)
                 <==> !CellSet(mask, c, r) && (down || row || rising || falling))
  {
  }

  lemma CombineColumn5(v: bv64, h: bv64, d: bv64, a: bv64, mask: bv64, c: bv8, r: bv8,
                       down: bool, row: bool, falling: bool, rising: bool)
    requires c == 5
    ensures (&& (CellSet(v, c, r) <==> down) && (CellSet(h, c, r) <==> row)
             && (CellSet(d, c, r) <==> falling) && (CellSet(a, c, r) <==> rising))
            ==> (CellSet((v | h | d | a) & (BoardCells ^ mask), c, r)
                 <==> !CellSet(mask, c, r) && (down || row || rising || falling))
  {
  }

  lemma CombineColumn6(v: bv64, h: bv64, d: bv64, a: bv64, mask: bv64, c: bv8, r: bv8,
                       down: bool, row: bool, falling: bool, rising: bool)
    requires c == 6
    ensures (&& (CellSet(v, c, r) <==> down) && (CellSet(h, c, r) <==> row)
             && (CellSet(d, c, r) <==> falling) && (CellSet(a, c, r) <==> rising))
            ==> (CellSet((v | h | d | a) & (BoardCells ^ mask), c, r)
                 <==> !CellSet(mask, c, r) && (down || row || rising || falling))
  {
  }

  lemma WinningCellsOf(v: bv64, h: bv64, d: bv64, a: bv64, mask: bv64, pos: bv64, c: bv8, r: bv8)
    ensures (&& (CellSet(v, c, r) <==> StackBelow(pos, c, r))
             && (CellSet(h, c, r) <==> LineThrough(pos, c, r, 1, 0))
             && (CellSet(d, c, r) <==> LineThrough(pos, c, r, 1, 0xff))
             && (CellSet(a, c, r) <==> LineThrough(pos, c, r, 1, 1)))
            ==> (CellSet((v | h | d | a) & (BoardCells ^ mask), c, r) <==> !CellSet(mask, c, r) && CompletesFour(pos, c, r))
  {
    CombineCells(v, h, d, a, mask, c, r, StackBelow(pos, c, r), LineThrough(pos, c, r, 1, 0),
                 LineThrough(pos, c, r, 1, 0xff), LineThrough(pos, c, r, 1, 1));
  }

  /** The four blocks, read cell by cell. */
  lemma BlockCells(pos: bv64, c: bv8, r: bv8)
    ensures Subset(pos, BoardCells) && c < W && r < H
            ==> (&& (CellSet(Vertical(pos), c, r) <==> StackBelow(pos, c, r))
                 && (CellSet(Horizontal(pos), c, r) <==> LineThrough(pos, c, r, 1, 0))
                 && (CellSet(Falling(pos), c, r) <==> LineThrough(pos, c, r, 1, 0xff))
                 && (CellSet(Rising(pos), c, r) <==> LineThrough(pos, c, r, 1, 1)))
  {
    VerticalCell(pos, c, r);
    HorizontalCell(pos, c, r);
    FallingCell(pos, c, r);
    RisingCell(pos, c, r);
  }

  /** The winning cells, read on the grid: an empty playable cell where one
      more stone of `pos` completes a line of four, down the column, along
      the row or along either diagonal. */
  lemma WinningCells(pos: bv64, mask: bv64, c: bv8, r: bv8)
    requires Subset(pos, BoardCells) && c < W && r < H
    ensures CellSet(ComputeWinningPosition(pos, mask), c, r) <==> !CellSet(mask, c, r) && CompletesFour(pos, c, r)
  {
    BlockCells(pos, c, r);
    WinningCellsOf(Vertical(pos), Horizontal(pos), Falling(pos), Rising(pos), mask, pos, c, r);
  }
}

/** The fixed geometry of the board: 7 columns of 6 playable rows, each
    column stored in 7 consecutive bits of a 64-bit word, the 7th being an
    always-empty sentinel that keeps carries inside the column. Column `c`,
    row `r` (row 0 at the bottom) is bit `r + c * (H + 1)`. */
module Layout {
  import opened Bits

  /** Column numbers are 8-bit words: the source takes a Go `int`, but
      the only columns these files produce are single decimal digits. */
  const W: bv8 := 7
  const H: bv8 := 6
  const BoardSize: nat := 42
  const Centre: bv8 := W / 2

  /** Go's `bottom_mask_col`: the bottom cell of column `col`. */
  function BottomMaskCol(col: bv8): bv64
  {
    GoShl(1, col as bv16 * (H as bv16 + 1))
  }

  /** Go's `top_mask_col`: the top playable cell of column `col` (0 once the
      shift count reaches the word size, as for column 9). */
  function TopMaskCol(col: bv8): bv64
  {
    GoShl(1, H as bv16 - 1 + col as bv16 * (H as bv16 + 1))
  }

  /** Go's `column_mask`: the six playable cells of column `col`, shifted
      into place and truncated to the word. The shift counts are written out
      per column number, as the formula evaluates them
      (`ColumnMaskFormula`): past column 9 the count reaches the word size
      and the mask is 0. */
  function ColumnMask(col: bv8): bv64
  {
    if col == 0 then 0x3f
    else if col == 1 then 0x3f << 7
    else if col == 2 then 0x3f << 14
    else if col == 3 then 0x3f << 21
    else if col == 4 then 0x3f << 28
    else if col == 5 then 0x3f << 35
    else if col == 6 then 0x3f << 42
    else if col == 7 then 0x3f << 49
    else if col == 8 then 0x3f << 56
    else if col == 9 then 0x3f << 63
    else 0
  }

  /** The table is Go's formula `((1 << H) - 1) << (col * (H + 1))`. */
  lemma ColumnMaskFormula(col: bv8)
    ensures ColumnMask(col) == GoShl(GoShl(1, H as bv16) - 1, col as bv16 * (H as bv16 + 1))
  {
  }

  /** The loop of Go's `bottom_mask`: OR in the bottom cell of columns
      `i .. W-1`. */
  function BottomMaskFrom(i: bv8, acc: bv64): bv64
    decreases (W - i) as int
  {
    if i >= W then acc else BottomMaskFrom(i + 1, acc | BottomMaskCol(i))
  }

  /** Go's `bottom_mask`: the bottom cell of every column. */
  function BottomMask(): bv64
  {
    BottomMaskFrom(0, 0)
  }

  /** Go's `board_mask`: every playable cell, computed as the bottom row
      times 0b111111 (which stacks six copies of the row, one per row). */
  function BoardMask(): bv64
  {
    BottomMask() * (GoShl(1, H as bv16) - 1)
  }

  /** The values of `BottomMask()` and `BoardMask()` (`BoardMaskLayout`
      proves them so). The engine's formulas use these constants, so that
      the solver never re-runs the column loop or the multiplication. */
  const BottomCells: bv64 := 0x40810204081
  const BoardCells: bv64 := 0xfdfbf7efdfbf

  /** The bit of column `c`, row `r`, as an 8-bit position. */
  function CellIndex(c: bv8, r: bv8): bv8
  {
    r + c * (H + 1)
  }

  /** The seven bits of column `c` of `x` (six cells and the sentinel),
      shifted down to bits 0..6; 0 for a column past the board. Each
      column's shift is written out so that the solver sees constant
      shifts only. */
  function ColumnField(x: bv64, c: bv8): (f: bv8)
    ensures f < 0x80
  {
    if c == 0 then (x & 0x7f) as bv8
    else if c == 1 then ((x >> 7) & 0x7f) as bv8
    else if c == 2 then ((x >> 14) & 0x7f) as bv8
    else if c == 3 then ((x >> 21) & 0x7f) as bv8
    else if c == 4 then ((x >> 28) & 0x7f) as bv8
    else if c == 5 then ((x >> 35) & 0x7f) as bv8
    else if c == 6 then ((x >> 42) & 0x7f) as bv8
    else 0
  }

  /** Cell (`c`, `r`) is on the board and set in `x`. */
  predicate CellSet(x: bv64, c: bv8, r: bv8)
  {
    c < W && r < H && (ColumnField(x, c) >> r) & 1 == 1
  }

  /** Bit `r` of column `c`'s field is bit `CellIndex(c, r)` of the word. */
  lemma FieldBit(x: bv64, c: bv8, r: bv8)
    requires c < W && r <= H
    ensures (ColumnField(x, c) >> r) & 1 == 1 <==> BitSet(x, CellIndex(c, r))
  {
    if c < 4 {
      if c < 2 {
      } else {
      }
    } else {
      if c < 6 {
      } else {
      }
    }
  }

  /** A word meets the mask of a column on the board exactly when that
      column's playable rows hold a bit of it. */
  lemma ColumnMaskField(x: bv64, col: bv8)
    requires col < W
    ensures x & ColumnMask(col) != 0 <==> ColumnField(x, col) & 0x3f != 0
  {
  }

  /** The mask of a column number past the board (shifted up to, or out of,
      the top of the word) misses every playable cell. */
  lemma ColumnMaskPastBoard(col: bv8)
    requires col >= W
    ensures Disjoint(ColumnMask(col), BoardCells)
  {
  }

  /** Reading a cell through a field formula that agrees with the column on
      its playable rows. Stated as an implication, like the other steps that
      glue lemmas about large words call, so that the callers carry no
      proof obligation of their own. */
  lemma CellOfField(x: bv64, f: bv8, c: bv8, r: bv8)
    ensures c < W && r < H && ColumnField(x, c) & 0x3f == f & 0x3f ==> (CellSet(x, c, r) <==> (f >> r) & 1 == 1)
  {
  }

  /** The first column whose playable rows hold a bit of a nonzero word
      that lies on the board. */
  function FirstColumn(x: bv64): (col: bv8)
    requires Subset(x, BoardCells) && x != 0
    ensures col < W && x & ColumnMask(col) != 0
  {
    if x & ColumnMask(0) != 0 then 0
    else if x & ColumnMask(1) != 0 then 1
    else if x & ColumnMask(2) != 0 then 2
    else if x & ColumnMask(3) != 0 then 3
    else if x & ColumnMask(4) != 0 then 4
    else if x & ColumnMask(5) != 0 then 5
    else 6
  }

  /** Shifting a word down one bit moves each cell one row down its
      column. */
  lemma ShiftDownCell(x: bv64, c: bv8, r: bv8)
    requires c < W && r < H - 1
    ensures CellSet(x >> 1, c, r) <==> CellSet(x, c, r + 1)
  {
  }

  /** The lowest playable row of column `c` holding a bit of `x`. */
  function FirstRow(x: bv64, c: bv8): (r: bv8)
    requires c < W && x & ColumnMask(c) != 0
    ensures r < H && CellSet(x, c, r)
  {
    ColumnMaskField(x, c);
    var f := ColumnField(x, c);
    if f & 1 != 0 then 0
    else if f & 2 != 0 then 1
    else if f & 4 != 0 then 2
    else if f & 8 != 0 then 3
    else if f & 16 != 0 then 4
    else 5
  }

  /** A nonzero word on the board holds some cell. */
  lemma SomeCell(x: bv64) returns (c: bv8, r: bv8)
    requires Subset(x, BoardCells) && x != 0
    ensures c < W && r < H && CellSet(x, c, r)
  {
    c := FirstColumn(x);
    r := FirstRow(x, c);
  }

  /** The union of the masks of columns `0 .. n-1`. */
  function ColumnsUnion(n: bv8): bv64
    decreases n as int
  {
    if n == 0 then 0 else ColumnsUnion(n - 1) | ColumnMask(n - 1)
  }

  lemma BottomMaskValue()
    ensures BottomMask() == 0x40810204081
  {
    assert BottomMaskCol(0) == 0x1;
    assert BottomMaskCol(1) == 0x80;
    assert BottomMaskCol(2) == 0x4000;
    assert BottomMaskCol(3) == 0x200000;
    assert BottomMaskCol(4) == 0x10000000;
    assert BottomMaskCol(5) == 0x800000000;
    assert BottomMaskCol(6) == 0x40000000000;
    assert BottomMaskFrom(7, 0x40810204081) == 0x40810204081;
    assert BottomMaskFrom(6, 0x810204081) == 0x40810204081;
    assert BottomMaskFrom(5, 0x10204081) == 0x40810204081;
    assert BottomMaskFrom(4, 0x204081) == 0x40810204081;
    assert BottomMaskFrom(3, 0x4081) == 0x40810204081;
    assert BottomMaskFrom(2, 0x81) == 0x40810204081;
    assert BottomMaskFrom(1, 0x1) == 0x40810204081;
    assert BottomMaskFrom(0, 0x0) == 0x40810204081;
  }

  lemma BoardMaskValue()
    ensures BoardMask() == 0xfdfbf7efdfbf
  {
    BottomMaskValue();
    assert GoShl(1, H as bv16) - 1 == 63;
  }

  lemma ColumnsUnionValue()
    ensures ColumnsUnion(W) == 0xfdfbf7efdfbf
  {
    assert ColumnsUnion(0) == 0;
    assert ColumnsUnion(1) == 0x3f;
    assert ColumnsUnion(2) == 0x1fbf;
    assert ColumnsUnion(3) == 0xfdfbf;
    assert ColumnsUnion(4) == 0x7efdfbf;
    assert ColumnsUnion(5) == 0x3f7efdfbf;
    assert ColumnsUnion(6) == 0x1fbf7efdfbf;
  }

  /** The count of the board mask's top 40 bits, in steps of four bits. */
  lemma PopcountBoardMaskHigh()
    ensures PopW(0xfdfbf7, 40) == 21
  {
    assert PopW(0x0, 4) == 0;
    assert PopW(0x0, 8) == 0;
    assert PopW(0x0, 12) == 0;
    assert PopW(0x0, 16) == 0;
    assert PopW(0xf, 20) == 4;
    assert PopW(0xfd, 24) == 7;
    assert PopW(0xfdf, 28) == 11;
    assert PopW(0xfdfb, 32) == 14;
    assert PopW(0xfdfbf, 36) == 18;
  }

  lemma PopcountBoardMask()
    ensures Popcount(0xfdfbf7efdfbf) == BoardSize
  {
    PopcountBoardMaskHigh();
    assert PopW(0xfdfbf7e, 44) == 24;
    assert PopW(0xfdfbf7ef, 48) == 28;
    assert PopW(0xfdfbf7efd, 52) == 31;
    assert PopW(0xfdfbf7efdf, 56) == 35;
    assert PopW(0xfdfbf7efdfb, 60) == 38;
  }

  lemma BoardMaskBits()
    ensures forall i: bv8 :: BitSet(0xfdfbf7efdfbf, i) <==> i < 49 && i % 7 < 6
  {
  }

  /** The empty playable cells of a board whose stones all lie on it number
      42 less its stones. */
  lemma EmptyCellsCount(m: bv64)
    requires Subset(m, BoardCells)
    ensures Popcount(BoardCells ^ m) == BoardSize - Popcount(m)
  {
    PopcountRemove(m, BoardCells);
    PopcountBoardMask();
  }

  /** The multiply-by-63 construction of the board mask is exactly the union
      of the seven column masks, and it covers exactly the 42 non-sentinel
      bits below bit 49. */
  lemma BoardMaskLayout()
    ensures BoardMask() == ColumnsUnion(W)
    ensures BottomMask() == BottomCells && BoardMask() == BoardCells
    ensures forall i: bv8 :: BitSet(BoardCells, i) <==> i < 49 && i % 7 < 6
    ensures Popcount(BoardCells) == BoardSize
  {
    BottomMaskValue();
    BoardMaskValue();
    ColumnsUnionValue();
    PopcountBoardMask();
    BoardMaskBits();
  }
}

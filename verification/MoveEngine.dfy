/** Move legality, the move itself, and the masks of cells where the next
    stone can land. */
module MoveEngine {
  import opened Bits
  import opened Layout
  import opened Positions

  /** Go's `IsPlayable`, as written: it reports whether the top playable cell
      of the column is OCCUPIED, i.e. whether the column is full. */
  function IsPlayable(p: Position, col: bv8): bool
  {
    TopOccupied(p.Mask, col)
  }

  /** What the documentation of `IsPlayable` promises: the top playable
      cell of the column is still empty. */
  function HasRoom(p: Position, col: bv8): bool
  {
    !TopOccupied(p.Mask, col)
  }

  /** The top playable cell of column `col` is set in `m`. */
  predicate TopOccupied(m: bv64, col: bv8)
  {
    m & TopMaskCol(col) != 0
  }

  /** Go's `Play`: hand the turn over by complementing the mover's stones
      within the occupied cells, then drop a stone in column `col`. */
  function Play(p: Position, col: bv8): Position
  {
    Position(Opponent(p.Board, p.Mask), DropMask(p.Mask, col), p.moves + 1)
  }

  /** The stones of the player not to move: `Board ^ Mask`. */
  function Opponent(b: bv64, m: bv64): bv64
  {
    b ^ m
  }

  /** `Play`'s update of the occupied cells: adding the column's bottom bit
      carries up to the first empty cell of the column. */
  function DropMask(m: bv64, col: bv8): bv64
  {
    m | (m + BottomMaskCol(col))
  }

  /** Go's `Possible`, as written: `Mask + bottom_mask() & board_mask()`
      parses as `Mask + (bottom_mask() & board_mask())`, and the inner AND
      is just the bottom row. */
  function Possible(p: Position): bv64
  {
    PossibleOf(p.Mask)
  }

  function PossibleOf(m: bv64): bv64
  {
    m + (BottomCells & BoardCells)
  }

  /** `Possible` with the parenthesisation its comment describes: the cells
      the carries land on, filtered to playable cells. */
  function PossibleIntended(p: Position): bv64
  {
    PossibleIntendedOf(p.Mask)
  }

  function PossibleIntendedOf(m: bv64): bv64
  {
    (m + BottomCells) & BoardCells
  }

  // ---------------------------------------------------------------------
  // Handing the turn over

  lemma SwapSubset(b: bv64, m: bv64, m': bv64)
    requires Subset(b, m) && Subset(m, m')
    ensures Subset(Opponent(b, m), m')
  {
  }

  lemma SwapPartition(b: bv64, m: bv64)
    requires Subset(b, m)
    ensures Partition(m, Opponent(b, m), b)
  {
  }

  lemma SwapBack(b: bv64, m: bv64)
    ensures Opponent(Opponent(b, m), m) == b
  {
  }

  lemma DropGrows(m: bv64, col: bv8)
    ensures Subset(m, DropMask(m, col))
  {
  }

  /** Whatever the column, `Play` keeps every stone and counts one more
      move; when the mover's stones are stones, the stones split into the
      new mover's and the old mover's: the turn has passed. */
  lemma PlayHandsOver(p: Position, col: bv8)
    requires Subset(p.Board, p.Mask)
    ensures Subset(p.Mask, Play(p, col).Mask)
    ensures Play(p, col).moves == p.moves + 1
    ensures Subset(Play(p, col).Board, Play(p, col).Mask)
    ensures Partition(p.Mask, Play(p, col).Board, p.Board)
  {
    DropGrows(p.Mask, col);
    SwapSubset(p.Board, p.Mask, DropMask(p.Mask, col));
    SwapPartition(p.Board, p.Mask);
  }

  // ---------------------------------------------------------------------
  // Dropping a stone

  lemma DropFreeCell(m: bv64, c: bv8, k: bv8)
    requires c < W && k < H && ColumnBits(m, c) == (1 << k) - 1
    ensures !CellSet(m, c, k)
  {
  }

  lemma BottomCell(c: bv8)
    requires c < W
    ensures BottomMaskCol(c) == Bit(CellIndex(c, 0))
  {
  }

  lemma CarryToTop(m: bv64, c: bv8, k: bv8)
    requires c < W && k < H && ColumnBits(m, c) == (1 << k) - 1
    ensures m | (m + Bit(CellIndex(c, 0))) == AddBit(m, CellIndex(c, k))
  {
  }

  lemma DropNewBit(m: bv64, c: bv8, k: bv8)
    requires c < W && k < H && ColumnBits(m, c) == (1 << k) - 1
    ensures DropMask(m, c) == AddBit(m, CellIndex(c, k))
  {
    BottomCell(c);
    CarryToTop(m, c, k);
  }

  lemma DropColumnGrows(m: bv64, c: bv8, k: bv8)
    requires c < W && k < H && ColumnBits(m, c) == (1 << k) - 1
    ensures ColumnBits(AddBit(m, CellIndex(c, k)), c) == (1 << (k + 1)) - 1
  {
  }

  lemma DropOtherColumn(m: bv64, c: bv8, k: bv8, d: bv8)
    requires c < W && k < H && d != c
    ensures ColumnField(AddBit(m, CellIndex(c, k)), d) == ColumnField(m, d)
  {
  }

  /** A column whose cells are the bottom `k` ones has height `k`. */
  lemma StackedHeight(m: bv64, c: bv8, k: bv8)
    requires k <= H && ColumnBits(m, c) == (1 << k) - 1
    ensures Height(m, c) == k && Stacked(m, c)
  {
  }

  lemma StackedBits(m: bv64, c: bv8)
    requires Stacked(m, c)
    ensures ColumnBits(m, c) == (1 << Height(m, c)) - 1
  {
  }

  lemma HeightSucc(k: bv8)
    requires k < H
    ensures k + 1 <= H
  {
  }

  /** Dropping a stone in a stacked column that is not full sets exactly
      the empty cell above the stack. */
  lemma DropSetsCell(m: bv64, c: bv8)
    requires c < W && Stacked(m, c) && Height(m, c) < H
    ensures !BitSet(m, CellIndex(c, Height(m, c)))
    ensures DropMask(m, c) == AddBit(m, CellIndex(c, Height(m, c)))
  {
    var k := Height(m, c);
    StackedBits(m, c);
    DropFreeCell(m, c, k);
    FieldBit(m, c, k);
    DropNewBit(m, c, k);
  }

  /** The column played grows by one and stays stacked. */
  lemma DropStacks(m: bv64, c: bv8)
    requires c < W && Stacked(m, c) && Height(m, c) < H
    ensures Stacked(DropMask(m, c), c)
    ensures Height(DropMask(m, c), c) == Height(m, c) + 1
  {
    var k := Height(m, c);
    StackedBits(m, c);
    DropNewBit(m, c, k);
    DropColumnGrows(m, c, k);
    HeightSucc(k);
    StackedHeight(AddBit(m, CellIndex(c, k)), c, k + 1);
  }

  /** Every other column keeps its bits. */
  lemma DropKeepsOthers(m: bv64, c: bv8)
    requires c < W && Stacked(m, c) && Height(m, c) < H
    ensures forall d: bv8 :: d != c ==> ColumnField(DropMask(m, c), d) == ColumnField(m, d)
  {
    var k := Height(m, c);
    StackedBits(m, c);
    DropNewBit(m, c, k);
    forall d: bv8 | d != c
      ensures ColumnField(AddBit(m, CellIndex(c, k)), d) == ColumnField(m, d)
    {
      DropOtherColumn(m, c, k, d);
    }
  }

  /** One more stone is on the board. */
  lemma DropCounts(m: bv64, c: bv8)
    requires c < W && Stacked(m, c) && Height(m, c) < H
    ensures Popcount(DropMask(m, c)) == Popcount(m) + 1
  {
    DropSetsCell(m, c);
    PopcountSetBit(m, CellIndex(c, Height(m, c)));
  }

  lemma CellOnBoard(c: bv8, k: bv8)
    requires c < W && k < H
    ensures Subset(Bit(CellIndex(c, k)), BoardCells)
  {
  }

  lemma AddOnBoard(x: bv64, i: bv8, z: bv64)
    requires Subset(x, z) && Subset(Bit(i), z)
    ensures Subset(AddBit(x, i), z)
  {
  }

  /** A column keeps its height and stacking when its bits are kept. */
  lemma SameColumn(m: bv64, m': bv64, d: bv8)
    requires ColumnField(m', d) == ColumnField(m, d)
    ensures Height(m', d) == Height(m, d)
    ensures Stacked(m', d) == Stacked(m, d)
  {
    assert ColumnBits(m', d) == ColumnBits(m, d);
  }

  // ---------------------------------------------------------------------
  // The top cell of a column

  lemma TopCell(col: bv8)
    requires col < W
    ensures TopMaskCol(col) == Bit(CellIndex(col, H - 1))
  {
  }

  lemma TopPastBoard(col: bv8)
    requires col >= W
    ensures TopMaskCol(col) & BoardCells == 0
  {
  }

  lemma TopCellFull(m: bv64, c: bv8)
    requires c < W && Stacked(m, c)
    ensures (ColumnField(m, c) >> (H - 1)) & 1 == 1 <==> Height(m, c) == H
  {
  }

  lemma MaskedPastBoard(m: bv64, t: bv64)
    requires Subset(m, BoardCells) && t & BoardCells == 0
    ensures m & t == 0
  {
  }

  /** For a stacked column, the top cell is occupied exactly when the
      column holds six stones; past the board it never is. */
  lemma TopOccupiedMeansFull(m: bv64, col: bv8)
    requires Subset(m, BoardCells)
    requires col < W ==> Stacked(m, col)
    ensures col < W ==> (TopOccupied(m, col) <==> Height(m, col) == H)
    ensures col >= W ==> !TopOccupied(m, col)
  {
    if col < W {
      TopCell(col);
      FieldBit(m, col, H - 1);
      TopCellFull(m, col);
    } else {
      TopPastBoard(col);
      MaskedPastBoard(m, TopMaskCol(col));
    }
  }

  /** On a position whose stones lie on the board, the as-written
      `IsPlayable` holds exactly for the full columns among 0..6 and never for
      a column number past the board, while `HasRoom` holds exactly for the
      columns holding fewer than six stones. */
  lemma IsPlayableMeansFull(p: Position, col: bv8)
    requires Subset(p.Mask, BoardCells)
    requires col < W ==> Stacked(p.Mask, col)
    ensures col < W ==> (IsPlayable(p, col) <==> Height(p.Mask, col) == H)
    ensures col < W ==> (HasRoom(p, col) <==> Height(p.Mask, col) < H)
    ensures col >= W ==> !IsPlayable(p, col)
  {
    TopOccupiedMeansFull(p.Mask, col);
  }

  /** The as-written `IsPlayable` rejects every column of the empty board,
      although each of them has room. */
  lemma EmptyBoardUnplayable(col: bv8)
    ensures !IsPlayable(NewPosition(), col)
    ensures col < W ==> HasRoom(NewPosition(), col) && Height(NewPosition().Mask, col) < H
  {
  }

  /** Playing a column that has room keeps every invariant of a reachable
      position. */
  lemma PlayPreservesValid(p: Position, c: bv8)
    requires Valid(p) && c < W && HasRoom(p, c)
    ensures Valid(Play(p, c))
  {
    assert Stacked(p.Mask, c);
    IsPlayableMeansFull(p, c);
    PlayHandsOver(p, c);
    DropWellStacked(p.Mask, c);
    DropCounts(p.Mask, c);
  }

  /** The stone lands on the lowest empty cell of the column. */
  lemma PlayLandsLowest(p: Position, c: bv8)
    requires Valid(p) && c < W && HasRoom(p, c)
    ensures !BitSet(p.Mask, CellIndex(c, Height(p.Mask, c)))
    ensures Play(p, c).Mask == AddBit(p.Mask, CellIndex(c, Height(p.Mask, c)))
  {
    assert Stacked(p.Mask, c);
    IsPlayableMeansFull(p, c);
    DropSetsCell(p.Mask, c);
  }

  /** The played column grows by one stone. */
  lemma PlayRaisesColumn(p: Position, c: bv8)
    requires Valid(p) && c < W && HasRoom(p, c)
    ensures Height(Play(p, c).Mask, c) == Height(p.Mask, c) + 1
  {
    assert Stacked(p.Mask, c);
    IsPlayableMeansFull(p, c);
    DropStacks(p.Mask, c);
  }

  /** Every other column keeps its stones. */
  lemma PlayKeepsOthers(p: Position, c: bv8)
    requires Valid(p) && c < W && HasRoom(p, c)
    ensures forall d: bv8 :: d != c ==> ColumnField(Play(p, c).Mask, d) == ColumnField(p.Mask, d)
  {
    assert Stacked(p.Mask, c);
    IsPlayableMeansFull(p, c);
    DropKeepsOthers(p.Mask, c);
  }

  /** Dropping a stone in a column with room keeps the stones well
      stacked. */
  lemma DropWellStacked(m: bv64, c: bv8)
    requires WellStacked(m) && c < W && Height(m, c) < H
    ensures WellStacked(DropMask(m, c))
  {
    assert Stacked(m, c);
    DropSetsCell(m, c);
    DropStacks(m, c);
    DropKeepsOthers(m, c);
    var m' := DropMask(m, c);
    var k := Height(m, c);
    CellOnBoard(c, k);
    AddOnBoard(m, CellIndex(c, k), BoardCells);
    forall d: bv8 | d < W
      ensures Stacked(m', d)
    {
      if d != c {
        SameColumn(m, m', d);
        assert Stacked(m, d);
      }
    }
  }

  // ---------------------------------------------------------------------
  // Where the next stone can land

  lemma AddBottomField(x: bv64, c: bv8)
    requires Subset(x, BoardCells) && c < W
    ensures ColumnField(PossibleOf(x), c) == ColumnField(x, c) + 1
  {
  }

  lemma SentinelClear(x: bv64, c: bv8)
    requires Subset(x, BoardCells)
    ensures ColumnField(x, c) == ColumnBits(x, c)
  {
  }

  lemma AddBottomHigh(x: bv64)
    requires Subset(x, BoardCells)
    ensures Subset(PossibleOf(x), 0x1_ffff_ffff_ffff)
  {
  }

  lemma StackSucc(y: bv8, k: bv8)
    requires k <= H && y == (1 << k) - 1
    ensures y + 1 == 1 << k
  {
  }

  lemma FieldOnBoard(y: bv64, c: bv8)
    requires c < W
    ensures ColumnField(y & BoardCells, c) == ColumnField(y, c) & 0x3f
  {
  }

  lemma RowBit(k: bv8)
    requires k <= H
    ensures (1 << k) & 0x3f as bv8 == if k < H then 1 << k else 0
  {
  }

  /** Over well-stacked stones, the as-written `Possible` holds exactly one
      bit in each column, in the row just above the stack: the sentinel
      bit when the column is full. */
  lemma PossibleOnePerColumn(m: bv64)
    requires WellStacked(m)
    ensures forall c: bv8 :: c < W ==> ColumnField(PossibleOf(m), c) == 1 << Height(m, c)
  {
    forall c: bv8 | c < W
      ensures ColumnField(PossibleOf(m), c) == 1 << Height(m, c)
    {
      assert Stacked(m, c);
      PossibleColumn(m, c);
    }
  }

  lemma PossibleColumn(m: bv64, c: bv8)
    requires Subset(m, BoardCells) && c < W && Stacked(m, c)
    ensures ColumnField(PossibleOf(m), c) == 1 << Height(m, c)
  {
    AddBottomField(m, c);
    SentinelClear(m, c);
    StackSucc(ColumnBits(m, c), Height(m, c));
  }

  /** No bit of the as-written `Possible` lies past the last column. */
  lemma PossibleInColumns(m: bv64)
    requires Subset(m, BoardCells)
    ensures Subset(PossibleOf(m), 0x1_ffff_ffff_ffff)
  {
    AddBottomHigh(m);
  }

  lemma IntendedIsFiltered(m: bv64)
    ensures PossibleIntendedOf(m) == PossibleOf(m) & BoardCells
  {
  }

  /** Over well-stacked stones, the intended `Possible` holds one bit in
      each column that has room, on its lowest empty cell, and none in a
      full column. */
  lemma PossibleIntendedPerColumn(m: bv64)
    requires WellStacked(m)
    ensures forall c: bv8 :: c < W ==>
              ColumnField(PossibleIntendedOf(m), c)
                == if Height(m, c) < H then 1 << Height(m, c) else 0
  {
    forall c: bv8 | c < W
      ensures ColumnField(PossibleIntendedOf(m), c)
                == if Height(m, c) < H then 1 << Height(m, c) else 0
    {
      assert Stacked(m, c);
      PossibleIntendedColumn(m, c);
    }
  }

  lemma PossibleIntendedColumn(m: bv64, c: bv8)
    requires Subset(m, BoardCells) && c < W && Stacked(m, c)
    ensures ColumnField(PossibleIntendedOf(m), c)
              == if Height(m, c) < H then 1 << Height(m, c) else 0
  {
    PossibleColumn(m, c);
    IntendedField(m, c);
    RowBit(Height(m, c));
  }

  /** Each column of the intended mask is the as-written one without its
      sentinel bit. */
  lemma IntendedField(m: bv64, c: bv8)
    requires c < W
    ensures ColumnField(PossibleIntendedOf(m), c) == ColumnField(PossibleOf(m), c) & 0x3f
  {
    IntendedIsFiltered(m);
    FieldOnBoard(PossibleOf(m), c);
  }

  /** The intended `Possible` only ever names playable cells. */
  lemma PossibleIntendedOnBoard(m: bv64)
    ensures Subset(PossibleIntendedOf(m), BoardCells)
  {
    MaskedSubset(m + BottomCells, BoardCells);
  }

  /** A reachable position whose column 0 is full: three stones of each
      player stacked alternately. */
  function FullFirstColumn(): (p: Position)
    ensures Height(p.Mask, 0) == H
    ensures forall c: bv8 :: 0 < c < W ==> Height(p.Mask, c) == 0
  {
    Position(0x15, 0x3f, 6)
  }

  lemma FullFirstColumnValid()
    ensures Valid(FullFirstColumn())
  {
    assert PopW(0x0, 8) == 0;
    assert PopW(0x0, 16) == 0;
    assert PopW(0x0, 24) == 0;
    assert PopW(0x0, 32) == 0;
    assert PopW(0x0, 40) == 0;
    assert PopW(0x0, 48) == 0;
    assert PopW(0x0, 56) == 0;
  }

  /** With column 0 full, the as-written `Possible` offers the sentinel bit
      above it, which is no playable cell; the intended mask does not. */
  lemma PossibleOffersSentinel()
    ensures BitSet(Possible(FullFirstColumn()), 6)
    ensures !BitSet(BoardCells, 6)
    ensures !BitSet(PossibleIntended(FullFirstColumn()), 6)
  {
  }
}

/** The position queries built on the winning-cell mask: `IsWinningMove`,
    `CanWinNext`, `ScoreMove` and `PossibleNonLosingMoves`. */
module Queries {
  import opened Bits
  import opened Layout
  import opened Positions
  import opened MoveEngine
  import opened WinDetector

  /** Some cell of column `col` is set in both `w` and `q` (Go compares the
      unsigned conjunction with `> 0`, which is `!= 0`). */
  predicate Meets(w: bv64, q: bv64, col: bv8)
  {
    w & q & ColumnMask(col) != 0
  }

  /** Go's `IsWinningMove`: some cell of column `col` is both a winning cell
      and a cell the as-written `Possible` offers. */
  predicate IsWinningMove(p: Position, col: bv8)
  {
    Meets(WinningPositions(p), Possible(p), col)
  }

  /** Go's `CanWinNext`: some offered cell is a winning cell. */
  predicate CanWinNext(p: Position)
  {
    WinningPositions(p) & Possible(p) != 0
  }

  // ---------------------------------------------------------------------
  // IsWinningMove on the grid

  /** Over stacked stones, a word meets the offered cells of column `col`
      exactly when it holds the cell just above the stack, which must be a
      playable one. */
  lemma OfferedCell(w: bv64, p: Position, col: bv8)
    requires Subset(p.Mask, BoardCells) && col < W && Stacked(p.Mask, col)
    ensures Meets(w, Possible(p), col) <==> Height(p.Mask, col) < H && CellSet(w, col, Height(p.Mask, col))
  {
    if col == 0 {
      OfferedCell0(w, p, col);
    } else if col == 1 {
      OfferedCell1(w, p, col);
    } else if col == 2 {
      OfferedCell2(w, p, col);
    } else if col == 3 {
      OfferedCell3(w, p, col);
    } else if col == 4 {
      OfferedCell4(w, p, col);
    } else if col == 5 {
      OfferedCell5(w, p, col);
    } else if col == 6 {
      OfferedCell6(w, p, col);
    }
  }

  // The cases of `OfferedCell`, one lemma per column: with the column fixed,
  // every shift in the proof is a constant, which the solver settles
  // quickly; one lemma over a symbolic column is far more costly.
  lemma OfferedCell0(w: bv64, p: Position, col: bv8)
    requires Subset(p.Mask, BoardCells) && col == 0 && Stacked(p.Mask, col)
    ensures Meets(w, Possible(p), col) <==> Height(p.Mask, col) < H && CellSet(w, col, Height(p.Mask, col))
  {
  }

  lemma OfferedCell1(w: bv64, p: Position, col: bv8)
    requires Subset(p.Mask, BoardCells) && col == 1 && Stacked(p.Mask, col)
    ensures Meets(w, Possible(p), col) <==> Height(p.Mask, col) < H && CellSet(w, col, Height(p.Mask, col))
  {
  }

  lemma OfferedCell2(w: bv64, p: Position, col: bv8)
    requires Subset(p.Mask, BoardCells) && col == 2 && Stacked(p.Mask, col)
    ensures Meets(w, Possible(p), col) <==> Height(p.Mask, col) < H && CellSet(w, col, Height(p.Mask, col))
  {
  }

  lemma OfferedCell3(w: bv64, p: Position, col: bv8)
    requires Subset(p.Mask, BoardCells) && col == 3 && Stacked(p.Mask, col)
    ensures Meets(w, Possible(p), col) <==> Height(p.Mask, col) < H && CellSet(w, col, Height(p.Mask, col))
  {
  }

  lemma OfferedCell4(w: bv64, p: Position, col: bv8)
    requires Subset(p.Mask, BoardCells) && col == 4 && Stacked(p.Mask, col)
    ensures Meets(w, Possible(p), col) <==> Height(p.Mask, col) < H && CellSet(w, col, Height(p.Mask, col))
  {
  }

  lemma OfferedCell5(w: bv64, p: Position, col: bv8)
    requires Subset(p.Mask, BoardCells) && col == 5 && Stacked(p.Mask, col)
    ensures Meets(w, Possible(p), col) <==> Height(p.Mask, col) < H && CellSet(w, col, Height(p.Mask, col))
  {
  }

  lemma OfferedCell6(w: bv64, p: Position, col: bv8)
    requires Subset(p.Mask, BoardCells) && col == 6 && Stacked(p.Mask, col)
    ensures Meets(w, Possible(p), col) <==> Height(p.Mask, col) < H && CellSet(w, col, Height(p.Mask, col))
  {
  }

  lemma StackedFree(m: bv64, c: bv8)
    requires c < W && Stacked(m, c) && Height(m, c) < H
    ensures !CellSet(m, c, Height(m, c))
  {
    DropFreeCell(m, c, Height(m, c));
  }

  lemma BoardOnBoard(b: bv64, m: bv64)
    requires Subset(b, m) && Subset(m, BoardCells)
    ensures Subset(b, BoardCells)
  {
  }

  lemma WinningOffBoard(w: bv64, q: bv64, col: bv8)
    requires Subset(w, BoardCells) && col >= W
    ensures !Meets(w, q, col)
  {
    ColumnMaskPastBoard(col);
  }

  lemma WinningOnBoard(w: bv64, m: bv64)
    requires Subset(w, BoardCells ^ m) && Subset(m, BoardCells)
    ensures Subset(w, BoardCells)
  {
  }

  /** The reading of `WinningCells`, as an implication. */
  lemma WinningCellsWhen(pos: bv64, mask: bv64, c: bv8, r: bv8)
    ensures Subset(pos, BoardCells) && c < W && r < H
            ==> (CellSet(ComputeWinningPosition(pos, mask), c, r) <==> !CellSet(mask, c, r) && CompletesFour(pos, c, r))
  {
    if Subset(pos, BoardCells) && c < W && r < H {
      WinningCells(pos, mask, c, r);
    }
  }

  /** On a reachable position, the cell just above the stack of a column
      with room is a winning cell of the mover exactly when a stone there
      completes four. */
  lemma WinningPositionsCell(p: Position, col: bv8)
    requires Valid(p) && col < W && Height(p.Mask, col) < H
    ensures CellSet(WinningPositions(p), col, Height(p.Mask, col)) <==> CompletesFour(p.Board, col, Height(p.Mask, col))
  {
    BoardOnBoard(p.Board, p.Mask);
    assert Stacked(p.Mask, col);
    StackedFree(p.Mask, col);
    WinningCellsWhen(p.Board, p.Mask, col, Height(p.Mask, col));
  }

  /** On a reachable position, `IsWinningMove` tests the winning mask at the
      cell just above the stack of the column. */
  lemma OfferedWinning(p: Position, col: bv8)
    requires Valid(p) && col < W
    ensures IsWinningMove(p, col) <==> Height(p.Mask, col) < H && CellSet(WinningPositions(p), col, Height(p.Mask, col))
  {
    assert Stacked(p.Mask, col);
    OfferedCell(WinningPositions(p), p, col);
  }

  /** A column number past the board is never a winning move. */
  lemma WinningMovePastBoard(p: Position, col: bv8)
    requires Valid(p) && col >= W
    ensures !IsWinningMove(p, col)
  {
    BoardOnBoard(p.Board, p.Mask);
    WinningOnBoard(WinningPositions(p), p.Mask);
    WinningOffBoard(WinningPositions(p), Possible(p), col);
  }

  /** On a reachable position, playing column `col` wins exactly when the
      column has room and the stone landing on it, just above the stack,
      completes a line of four of the mover's stones; a column number past
      the board never wins. */
  lemma IsWinningMoveMeans(p: Position, col: bv8)
    requires Valid(p)
    ensures col < W ==> (IsWinningMove(p, col) <==> Height(p.Mask, col) < H && CompletesFour(p.Board, col, Height(p.Mask, col)))
    ensures col >= W ==> !IsWinningMove(p, col)
  {
    if col < W {
      OfferedWinning(p, col);
      if Height(p.Mask, col) < H {
        WinningPositionsCell(p, col);
      }
    } else {
      WinningMovePastBoard(p, col);
    }
  }

  // ---------------------------------------------------------------------
  // CanWinNext

  /** The winning cells the as-written `Possible` offers lie on the board. */
  lemma OfferedWinningOnBoard(p: Position)
    requires Valid(p)
    ensures Subset(WinningPositions(p) & Possible(p), BoardCells)
  {
    BoardOnBoard(p.Board, p.Mask);
    WinningOnBoard(WinningPositions(p), p.Mask);
  }

  /** A nonzero offered winning mask meets the offered cells of a column. */
  lemma CanWinNextWitness(p: Position) returns (col: bv8)
    requires Valid(p) && CanWinNext(p)
    ensures col < W && IsWinningMove(p, col)
  {
    OfferedWinningOnBoard(p);
    col := FirstColumn(WinningPositions(p) & Possible(p));
  }

  /** With no offered winning cell, no column meets one. */
  lemma NoWinningMove(p: Position, col: bv8)
    requires !CanWinNext(p)
    ensures !IsWinningMove(p, col)
  {
  }

  /** On a reachable position, `CanWinNext` holds exactly when some column
      is a winning move. */
  lemma CanWinNextSomeColumn(p: Position)
    requires Valid(p)
    ensures CanWinNext(p) <==> exists col: bv8 :: col < W && IsWinningMove(p, col)
  {
    if CanWinNext(p) {
      var col := CanWinNextWitness(p);
    } else {
      forall col: bv8 | col < W
        ensures !IsWinningMove(p, col)
      {
        NoWinningMove(p, col);
      }
    }
  }

  /** On a reachable position, `CanWinNext` holds exactly when some column
      with room takes a stone that completes four of the mover's stones. */
  lemma CanWinNextMeans(p: Position)
    requires Valid(p)
    ensures CanWinNext(p) <==> exists col: bv8 :: col < W && Height(p.Mask, col) < H && CompletesFour(p.Board, col, Height(p.Mask, col))
  {
    CanWinNextSomeColumn(p);
    forall col: bv8 | col < W
      ensures IsWinningMove(p, col) <==> Height(p.Mask, col) < H && CompletesFour(p.Board, col, Height(p.Mask, col))
    {
      IsWinningMoveMeans(p, col);
    }
  }

  // ---------------------------------------------------------------------
  // ScoreMove

  /** Go's `ScoreMove`: the number of cells where the mover, with the extra
      stone(s) of `moveBit`, would complete four. It counts open cells only,
      so it never exceeds the number of empty playable cells. */
  method ScoreMove(p: Position, moveBit: bv64) returns (score: uint8)
    ensures score as int == Popcount(ComputeWinningPosition(p.Board | moveBit, p.Mask))
    ensures Subset(p.Mask, BoardCells) ==> score as int <= BoardSize - Popcount(p.Mask)
  {
    var wins := ComputeWinningPosition(p.Board | moveBit, p.Mask);
    score := CountOnes(wins);
    OpenCellsBound(wins, p.Mask);
  }

  /** A set of empty playable cells is no larger than the number of empty
      playable cells. */
  lemma OpenCellsBound(w: bv64, m: bv64)
    ensures Subset(w, BoardCells ^ m) && Subset(m, BoardCells) ==> Popcount(w) <= BoardSize - Popcount(m)
  {
    if Subset(w, BoardCells ^ m) && Subset(m, BoardCells) {
      PopcountMonotone(w, BoardCells ^ m);
      EmptyCellsCount(m);
    }
  }

  // ---------------------------------------------------------------------
  // PossibleNonLosingMoves

  /** The cells Go's `PossibleNonLosingMoves` keeps before its last step,
      from the offered cells `possible` and the opponent's winning cells
      `threats`: with no offered threat, every offered cell; with one, only
      that cell, which must be blocked; with two or more, none, since they
      cannot all be blocked. */
  function Kept(possible: bv64, threats: bv64): (k: bv64)
    ensures Subset(k, possible)
  {
    var forced := possible & threats;
    if forced == 0 then possible
    else if forced & (forced - 1) != 0 then 0
    else forced
  }

  /** The move filter: the kept cells, less every cell just below a threat
      (playing there would let the opponent land on the threat). */
  function NonLosing(possible: bv64, threats: bv64): bv64
  {
    Kept(possible, threats) & !(threats >> 1)
  }

  /** Every cell the filter keeps is an offered cell, and none lies just
      below a threat. */
  lemma NonLosingSound(possible: bv64, threats: bv64)
    ensures Subset(NonLosing(possible, threats), possible)
    ensures Disjoint(NonLosing(possible, threats), threats >> 1)
  {
    var k := Kept(possible, threats);
    ClearedSubset(k, possible, threats >> 1);
    ClearedDisjoint(k, threats >> 1);
  }

  /** The kept cells, stated by counting the offered threats instead of
      by the source's clear-lowest-bit test. */
  function KeptByCount(possible: bv64, threats: bv64): bv64
  {
    var forced := possible & threats;
    if Popcount(forced) >= 2 then 0
    else if Popcount(forced) == 1 then forced
    else possible
  }

  /** With no offered threat, every offered cell is kept. */
  lemma KeptNoThreat(possible: bv64, threats: bv64)
    requires Popcount(possible & threats) == 0
    ensures Kept(possible, threats) == possible
  {
    PopcountZero(possible & threats);
  }

  /** With two or more offered threats, no cell is kept. */
  lemma KeptManyThreats(possible: bv64, threats: bv64)
    requires Popcount(possible & threats) >= 2
    ensures Kept(possible, threats) == 0
  {
    PopcountZero(possible & threats);
    TwoOrMoreBits(possible & threats);
  }

  /** With exactly one offered threat, only that cell is kept. */
  lemma KeptOneThreat(possible: bv64, threats: bv64)
    requires Popcount(possible & threats) == 1
    ensures Kept(possible, threats) == possible & threats
  {
    PopcountZero(possible & threats);
    TwoOrMoreBits(possible & threats);
  }

  /** The source's clear-lowest-bit test agrees with counting the offered
      threats. */
  lemma KeptCounts(possible: bv64, threats: bv64)
    ensures Kept(possible, threats) == KeptByCount(possible, threats)
  {
    var n := Popcount(possible & threats);
    if n == 0 {
      KeptNoThreat(possible, threats);
    } else if n == 1 {
      KeptOneThreat(possible, threats);
    } else {
      KeptManyThreats(possible, threats);
    }
  }

  /** Go's `PossibleNonLosingMoves`: every kept cell is an offered cell, and
      none lies just below a cell where the opponent would win. */
  function PossibleNonLosingMoves(p: Position): (r: bv64)
    ensures Subset(r, Possible(p))
    ensures Disjoint(r, OpponentWinningPosition(p) >> 1)
  {
    NonLosingSound(Possible(p), OpponentWinningPosition(p));
    NonLosing(Possible(p), OpponentWinningPosition(p))
  }

  /** A cell kept clear of the cells just below the threats is not just
      below a threat. */
  lemma BelowThreat(keep: bv64, threats: bv64, c: bv8, r: bv8)
    ensures Disjoint(keep, threats >> 1) && c < W && r < H - 1 && CellSet(keep, c, r) ==> !CellSet(threats, c, r + 1)
  {
    if c < W && r < H - 1 {
      ShiftDownCell(threats, c, r);
    }
  }

  /** A move `PossibleNonLosingMoves` keeps never lets the opponent win by
      playing on top of it: the cell above a kept cell is not one of the
      opponent's winning cells. */
  lemma NonLosingNotBelow(p: Position, c: bv8, r: bv8)
    requires c < W && r < H - 1 && CellSet(PossibleNonLosingMoves(p), c, r)
    ensures !CellSet(OpponentWinningPosition(p), c, r + 1)
  {
    BelowThreat(PossibleNonLosingMoves(p), OpponentWinningPosition(p), c, r);
  }

  /** The filter with one offered threat keeps at most that cell. */
  lemma NonLosingOneThreat(possible: bv64, threats: bv64)
    requires Popcount(possible & threats) == 1
    ensures Subset(NonLosing(possible, threats), possible & threats)
  {
    KeptOneThreat(possible, threats);
    KeptForced(possible, threats);
  }

  lemma KeptForced(possible: bv64, threats: bv64)
    requires Kept(possible, threats) == possible & threats
    ensures Subset(NonLosing(possible, threats), possible & threats)
  {
    ClearedSubset(possible & threats, possible & threats, threats >> 1);
  }

  /** The filter with no offered threat keeps the offered cells not just
      below a threat. */
  lemma NonLosingNoThreat(possible: bv64, threats: bv64)
    requires Popcount(possible & threats) == 0
    ensures NonLosing(possible, threats) == possible & !(threats >> 1)
  {
    KeptNoThreat(possible, threats);
  }

  /** Two or more offered cells where the opponent would win cannot all be
      blocked: `PossibleNonLosingMoves` keeps nothing. */
  lemma TwoThreatsLose(p: Position)
    requires Popcount(Possible(p) & OpponentWinningPosition(p)) >= 2
    ensures PossibleNonLosingMoves(p) == 0
  {
    KeptManyThreats(Possible(p), OpponentWinningPosition(p));
  }

  /** One offered cell where the opponent would win must be blocked:
      `PossibleNonLosingMoves` keeps at most that cell. */
  lemma OneThreatForced(p: Position)
    requires Popcount(Possible(p) & OpponentWinningPosition(p)) == 1
    ensures Subset(PossibleNonLosingMoves(p), Possible(p) & OpponentWinningPosition(p))
  {
    NonLosingOneThreat(Possible(p), OpponentWinningPosition(p));
  }

  /** With no offered threat, `PossibleNonLosingMoves` keeps every offered
      cell that is not just below a cell where the opponent would win. */
  lemma NoThreatFree(p: Position)
    requires Popcount(Possible(p) & OpponentWinningPosition(p)) == 0
    ensures PossibleNonLosingMoves(p) == Possible(p) & !(OpponentWinningPosition(p) >> 1)
  {
    NonLosingNoThreat(Possible(p), OpponentWinningPosition(p));
  }

  /** `PossibleNonLosingMoves` over the intended `PossibleIntended`: the
      same filter, and every cell it keeps is a playable cell. */
  function PossibleNonLosingMovesIntended(p: Position): (r: bv64)
    ensures Subset(r, PossibleIntended(p)) && Subset(r, BoardCells)
    ensures Disjoint(r, OpponentWinningPosition(p) >> 1)
  {
    NonLosingSound(PossibleIntended(p), OpponentWinningPosition(p));
    PossibleIntendedOnBoard(p.Mask);
    NonLosingWithin(PossibleIntended(p), OpponentWinningPosition(p), BoardCells);
    NonLosing(PossibleIntended(p), OpponentWinningPosition(p))
  }

  /** The filter keeps only cells of any mask holding the offered cells. */
  lemma NonLosingWithin(possible: bv64, threats: bv64, z: bv64)
    requires Subset(possible, z)
    ensures Subset(NonLosing(possible, threats), z)
  {
    NonLosingSound(possible, threats);
    SubsetTrans(NonLosing(possible, threats), possible, z);
  }

  /** The opponent has no winning cell in the full-first-column position. */
  lemma FullFirstColumnNoThreat()
    ensures OpponentWinningPosition(FullFirstColumn()) == 0
  {
  }

  /** As written, the filter keeps the sentinel above the full first column
      (bit 6, not a cell of the board) as a move; the intended filter does
      not. */
  lemma NonLosingOffersSentinel()
    ensures BitSet(PossibleNonLosingMoves(FullFirstColumn()), 6)
    ensures !BitSet(PossibleNonLosingMovesIntended(FullFirstColumn()), 6)
  {
    FullFirstColumnNoThreat();
    PossibleOffersSentinel();
  }
}

/** The two parsers of positions: a 42-cell board picture and a sequence of
    column digits, with the five error values they return. */
module Parsing {
  import opened Bits
  import opened Layout
  import opened Positions
  import opened MoveEngine
  import opened Queries

  /** The five error values of `position_parsing_error.go`. */
  datatype ParseError =
    | InvalidBoardStringLength(Actual: int, Expected: int)
    | InvalidCharacter(Character: char, Index: int)
    | InvalidColumn(Column: int, Index: int)
    | InvalidFullColumnMove(Column: int, Index: int)
    | InvalidWinningMove(Column: int, Index: int)

  /** A parser's outcome: Go's `(*Position, error)` pair, of which exactly
      one half is set. */
  datatype ParseResult = Ok(value: Position) | Err(error: ParseError)

  // ---------------------------------------------------------------------
  // Board strings

  /** Lower-casing, on the ASCII letters (the only characters whose lower
      case is one of the three kept characters). */
  function Lower(c: char): (l: char)
    ensures 'A' <= c <= 'Z' ==> l as int == c as int + 32 && 'a' <= l <= 'z'
    ensures !('A' <= c <= 'Z') ==> l == c
  {
    if 'A' <= c <= 'Z' then (c as int + 32) as char else c
  }

  /** The three characters a board string is made of. */
  predicate IsCellChar(c: char)
  {
    c == '.' || c == 'o' || c == 'x'
  }

  /** The first loop of `PositionFromBoardString`: lower-case the string and
      keep only the cell characters, in order. */
  function Cells(s: string): (r: string)
    ensures |r| <= |s|
    ensures forall i :: 0 <= i < |r| ==> IsCellChar(r[i])
    ensures |s| == 1 ==> r == if IsCellChar(Lower(s[0])) then [Lower(s[0])] else []
  {
    if |s| == 0 then []
    else if IsCellChar(Lower(s[0])) then [Lower(s[0])] + Cells(s[1..])
    else Cells(s[1..])
  }

  /** Column and row of the `i`-th kept character, as Go computes them:
      the picture runs row by row from the top-left corner. */
  function ColOf(i: nat): (c: int)
    ensures 0 <= c < W as int
  {
    i % W as int
  }

  function RowOf(i: nat): (r: int)
    requires i < BoardSize
    ensures 0 <= r < H as int
  {
    H as int - 1 - i / W as int
  }

  /** A column or row number as an 8-bit word, and back. Written as tables
      so that the solver never converts between integers and words. */
  function SmallByte(x: int): (b: bv8)
    requires 0 <= x < W as int
    ensures b < W
  {
    if x == 0 then 0 else if x == 1 then 1 else if x == 2 then 2
    else if x == 3 then 3 else if x == 4 then 4 else if x == 5 then 5 else 6
  }

  function SmallInt(b: bv8): (x: int)
    requires b < W
    ensures 0 <= x < W as int && SmallByte(x) == b
  {
    if b == 0 then 0 else if b == 1 then 1 else if b == 2 then 2
    else if b == 3 then 3 else if b == 4 then 4 else if b == 5 then 5 else 6
  }

  /** The bit of the `i`-th kept character, Go's `row + col * (H + 1)`. */
  function BitIndex(i: nat): bv8
    requires i < BoardSize
  {
    CellIndex(SmallByte(ColOf(i)), SmallByte(RowOf(i)))
  }

  /** The place in the picture of column `c`, row `r`. */
  function CharIndex(c: bv8, r: bv8): (i: nat)
    requires c < W && r < H
    ensures i < BoardSize && ColOf(i) == SmallInt(c) && RowOf(i) == SmallInt(r)
  {
    (H as int - 1 - SmallInt(r)) * W as int + SmallInt(c)
  }

  /** Go's `PositionFromBoardString`: keep the cell characters; reject a
      picture of any other length than 42; then place the stones, row by
      row from the top-left corner. A '.' is skipped, any other character
      occupies its cell, and an 'x' gives it to the player to move. */
  method PositionFromBoardString(s: string) returns (res: ParseResult)
    ensures res.Err? <==> |Cells(s)| != BoardSize
    ensures res.Err? ==> res.error == InvalidBoardStringLength(|Cells(s)|, BoardSize)
    ensures res.Ok? ==> Depicts(res.value, Cells(s))
  {
    var chars := Cells(s);
    if |chars| != BoardSize {
      return Err(InvalidBoardStringLength(|chars|, BoardSize));
    }
    var board: bv64 := 0;
    var mask: bv64 := 0;
    var moves := 0;
    PopcountZero(0);
    for i := 0 to BoardSize
      invariant Placed(chars, i, board, mask, moves)
    {
      var c := chars[i];
      if c == '.' {
        SkipDot(chars, i, board, mask, moves);
        continue;
      }
      var bit := BitIndex(i);
      PlaceStone(chars, i, board, mask, moves);
      if c == 'x' {
        board := AddBit(board, bit);
      }
      mask := AddBit(mask, bit);
      moves := moves + 1;
    }
    DepictsCells(chars, board, mask, moves);
    res := Ok(Position(board, mask, moves));
  }

  // ---------------------------------------------------------------------
  // What the picture parser builds

  /** The filter works character by character: filtering a concatenation
      concatenates the filtered parts. With the single-character case of
      `Cells`'s contract, this determines the filter on every string. */
  lemma {:induction false} CellsConcat(a: string, b: string)
    ensures Cells(a + b) == Cells(a) + Cells(b)
    decreases |a|
  {
    if |a| > 0 {
      assert (a + b)[0] == a[0];
      assert (a + b)[1..] == a[1..] + b;
      CellsConcat(a[1..], b);
    } else {
      assert a + b == b;
    }
  }

  /** Kept characters are kept, and nothing else is. */
  lemma {:induction false} CellsOfCells(s: string)
    ensures Cells(Cells(s)) == Cells(s)
  {
    if |s| > 0 {
      CellsOfCells(s[1..]);
      if IsCellChar(Lower(s[0])) {
        assert Lower(Lower(s[0])) == Lower(s[0]);
        assert ([Lower(s[0])] + Cells(s[1..]))[1..] == Cells(s[1..]);
      }
    }
  }

  /** Distinct picture places are distinct cells. */
  lemma CharPlaceInjective(i: nat, j: nat)
    requires i < BoardSize && j < BoardSize
    requires ColOf(i) == ColOf(j) && RowOf(i) == RowOf(j)
    ensures i == j
  {
  }

  lemma SmallByteInjective(x: int, y: int)
    requires 0 <= x < W as int && 0 <= y < W as int
    requires SmallByte(x) == SmallByte(y)
    ensures x == y
  {
  }

  lemma CellIndexInjective(c: bv8, r: bv8, d: bv8, s: bv8)
    requires c < W && r < H && d < W && s < H
    requires CellIndex(c, r) == CellIndex(d, s)
    ensures c == d && r == s
  {
  }

  lemma BitIndexInjective(i: nat, j: nat)
    requires i < BoardSize && j < BoardSize
    requires BitIndex(i) == BitIndex(j)
    ensures i == j
  {
    CellIndexInjective(SmallByte(ColOf(i)), SmallByte(RowOf(i)), SmallByte(ColOf(j)), SmallByte(RowOf(j)));
    SmallByteInjective(ColOf(i), ColOf(j));
    SmallByteInjective(RowOf(i), RowOf(j));
    CharPlaceInjective(i, j);
  }

  lemma BitIndexBound(i: nat)
    requires i < BoardSize
    ensures BitIndex(i) < 64 && Subset(Bit(BitIndex(i)), BoardCells)
  {
    CellOnBoard(SmallByte(ColOf(i)), SmallByte(RowOf(i)));
  }

  /** Setting bit `a` sets bit `a` ... */
  lemma AddBitSame(m: bv64, a: bv8)
    requires a < 64
    ensures BitSet(AddBit(m, a), a)
  {
  }

  /** ... and leaves every other bit as it was. */
  lemma AddBitOther(m: bv64, a: bv8, b: bv8)
    requires a < 64 && b < 64 && a != b
    ensures BitSet(AddBit(m, a), b) == BitSet(m, b)
  {
    AddBitKeeps(m, a, b);
  }

  lemma AddBitKeeps(m: bv64, a: bv8, b: bv8)
    requires a < 64 && b < 64 && a != b
    ensures AddBit(m, a) & Bit(b) == m & Bit(b)
  {
    OtherBit(a, b);
    OrMissing(m, Bit(a), Bit(b));
  }

  lemma OtherBit(a: bv8, b: bv8)
    requires a < 64 && b < 64 && a != b
    ensures Bit(a) & Bit(b) == 0
  {
  }

  lemma OrMissing(m: bv64, t: bv64, u: bv64)
    requires t & u == 0
    ensures (m | t) & u == m & u
  {
  }

  /** Distinct picture places have distinct bits. */
  lemma BitIndexDistinct(i: nat, j: nat)
    requires i < BoardSize && j < BoardSize
    ensures i != j ==> BitIndex(i) != BitIndex(j)
  {
    if BitIndex(i) == BitIndex(j) {
      BitIndexInjective(i, j);
    }
  }

  /** The masks describe a position: the mover's stones are stones, the
      stones lie on the board, and the counter counts them. */
  predicate Shape(board: bv64, mask: bv64, moves: int)
  {
    Subset(board, mask) && Subset(mask, BoardCells) && moves == Popcount(mask)
  }

  /** The first `i` characters of the picture are placed in `mask`: a place
      is occupied exactly when it is among them and is not a '.'. */
  predicate MaskPlaced(chars: string, i: nat, mask: bv64)
    requires |chars| == BoardSize
  {
    forall j :: 0 <= j < BoardSize ==> (BitSet(mask, BitIndex(j)) <==> j < i && chars[j] != '.')
  }

  /** ... and the places among them holding an 'x' are exactly the bits of
      `board`. */
  predicate BoardPlaced(chars: string, i: nat, board: bv64)
    requires |chars| == BoardSize
  {
    forall j :: 0 <= j < BoardSize ==> (BitSet(board, BitIndex(j)) <==> j < i && chars[j] == 'x')
  }

  /** The invariant of the placing loop after `i` characters. */
  predicate Placed(chars: string, i: nat, board: bv64, mask: bv64, moves: int)
    requires |chars| == BoardSize
  {
    Shape(board, mask, moves) && MaskPlaced(chars, i, mask) && BoardPlaced(chars, i, board)
  }

  /** The picture `chars` shows position `p`, cell by cell. */
  ghost predicate Depicts(p: Position, chars: string)
  {
    && |chars| == BoardSize
    && Shape(p.Board, p.Mask, p.moves)
    && (forall c: bv8, r: bv8 :: c < W && r < H ==> (CellSet(p.Mask, c, r) <==> chars[CharIndex(c, r)] != '.'))
    && (forall c: bv8, r: bv8 :: c < W && r < H ==> (CellSet(p.Board, c, r) <==> chars[CharIndex(c, r)] == 'x'))
  }

  /** A '.' leaves the masks as they are. */
  lemma SkipDot(chars: string, i: nat, board: bv64, mask: bv64, moves: int)
    requires |chars| == BoardSize && i < BoardSize && chars[i] == '.'
    requires Placed(chars, i, board, mask, moves)
    ensures Placed(chars, i + 1, board, mask, moves)
  {
  }

  /** Any other character occupies its cell, for the player to move when it
      is an 'x'. */
  lemma PlaceStone(chars: string, i: nat, board: bv64, mask: bv64, moves: int)
    requires |chars| == BoardSize && i < BoardSize && chars[i] != '.'
    requires Placed(chars, i, board, mask, moves)
    ensures Placed(chars, i + 1, if chars[i] == 'x' then AddBit(board, BitIndex(i)) else board,
                   AddBit(mask, BitIndex(i)), moves + 1)
  {
    PlaceShape(chars, i, board, mask, moves);
    PlaceMaskBits(chars, i, mask);
    PlaceBoardBits(chars, i, board);
  }

  lemma PlaceShape(chars: string, i: nat, board: bv64, mask: bv64, moves: int)
    requires |chars| == BoardSize && i < BoardSize && chars[i] != '.'
    requires Placed(chars, i, board, mask, moves)
    ensures Shape(if chars[i] == 'x' then AddBit(board, BitIndex(i)) else board, AddBit(mask, BitIndex(i)), moves + 1)
  {
    BitIndexBound(i);
    assert !BitSet(mask, BitIndex(i));
    PopcountSetBit(mask, BitIndex(i));
    AddOnBoard(mask, BitIndex(i), BoardCells);
    AddBitSubset(board, mask, BitIndex(i));
  }

  lemma AddBitSubset(x: bv64, y: bv64, k: bv8)
    requires Subset(x, y)
    ensures Subset(AddBit(x, k), AddBit(y, k)) && Subset(x, AddBit(y, k))
  {
  }

  lemma PlaceMaskBits(chars: string, i: nat, mask: bv64)
    requires |chars| == BoardSize && i < BoardSize && chars[i] != '.'
    requires MaskPlaced(chars, i, mask)
    ensures MaskPlaced(chars, i + 1, AddBit(mask, BitIndex(i)))
  {
    forall j | 0 <= j < BoardSize
      ensures BitSet(AddBit(mask, BitIndex(i)), BitIndex(j)) <==> j < i + 1 && chars[j] != '.'
    {
      AddBitAt(mask, i, j);
    }
  }

  lemma PlaceBoardBits(chars: string, i: nat, board: bv64)
    requires |chars| == BoardSize && i < BoardSize
    requires BoardPlaced(chars, i, board)
    ensures BoardPlaced(chars, i + 1, if chars[i] == 'x' then AddBit(board, BitIndex(i)) else board)
  {
    if chars[i] == 'x' {
      forall j | 0 <= j < BoardSize
        ensures BitSet(AddBit(board, BitIndex(i)), BitIndex(j)) <==> j < i + 1 && chars[j] == 'x'
      {
        AddBitAt(board, i, j);
      }
    }
  }

  /** Setting the bit of place `i` changes the bit of place `j` only when
      they are the same place. */
  lemma AddBitAt(x: bv64, i: nat, j: nat)
    requires i < BoardSize && j < BoardSize
    ensures BitSet(AddBit(x, BitIndex(i)), BitIndex(j)) <==> BitSet(x, BitIndex(j)) || i == j
  {
    BitIndexBound(i);
    BitIndexBound(j);
    BitIndexDistinct(i, j);
    if i == j {
      AddBitSame(x, BitIndex(i));
    } else {
      AddBitOther(x, BitIndex(i), BitIndex(j));
    }
  }

  /** The place of a cell has that cell's bit. */
  lemma CharIndexBit(c: bv8, r: bv8)
    requires c < W && r < H
    ensures BitIndex(CharIndex(c, r)) == CellIndex(c, r)
  {
  }

  /** Once the whole picture is placed, it shows the position cell by
      cell. */
  lemma DepictsCells(chars: string, board: bv64, mask: bv64, moves: int)
    requires |chars| == BoardSize
    requires Placed(chars, BoardSize, board, mask, moves)
    ensures Depicts(Position(board, mask, moves), chars)
  {
    forall c: bv8, r: bv8 | c < W && r < H
      ensures (CellSet(mask, c, r) <==> chars[CharIndex(c, r)] != '.')
      ensures (CellSet(board, c, r) <==> chars[CharIndex(c, r)] == 'x')
    {
      MaskCell(chars, mask, c, r);
      BoardCell(chars, board, c, r);
    }
  }

  lemma MaskCell(chars: string, mask: bv64, c: bv8, r: bv8)
    requires |chars| == BoardSize && MaskPlaced(chars, BoardSize, mask)
    requires c < W && r < H
    ensures CellSet(mask, c, r) <==> chars[CharIndex(c, r)] != '.'
  {
    var j := CharIndex(c, r);
    assert BitSet(mask, BitIndex(j)) <==> chars[j] != '.';
    CharIndexBit(c, r);
    FieldBit(mask, c, r);
  }

  lemma BoardCell(chars: string, board: bv64, c: bv8, r: bv8)
    requires |chars| == BoardSize && BoardPlaced(chars, BoardSize, board)
    requires c < W && r < H
    ensures CellSet(board, c, r) <==> chars[CharIndex(c, r)] == 'x'
  {
    var j := CharIndex(c, r);
    assert BitSet(board, BitIndex(j)) <==> chars[j] == 'x';
    CharIndexBit(c, r);
    FieldBit(board, c, r);
  }

  // ---------------------------------------------------------------------
  // Move sequences

  predicate IsDigit(c: char)
  {
    '0' <= c <= '9'
  }

  /** Go's `int(c - '0')`. */
  function DigitValue(c: char): (d: int)
    requires IsDigit(c)
    ensures 0 <= d <= 9
  {
    c as int - '0' as int
  }

  /** A digit's column number (Go's `int(c - '0')`) as the 8-bit word the
      position operations take; a table, so that the solver never converts
      between integers and words. */
  function ColumnWord(col: int): (b: bv8)
    requires 0 <= col <= 9
    ensures col < W as int <==> b < W
  {
    if col == 0 then 0 else if col == 1 then 1 else if col == 2 then 2
    else if col == 3 then 3 else if col == 4 then 4 else if col == 5 then 5
    else if col == 6 then 6 else if col == 7 then 7 else if col == 8 then 8 else 9
  }

  /** The loop of Go's `PositionFromMoves`, from the character at `i` on,
      with the position `p` built so far and `col` the last column read (-1
      before the first). Every character before `i` is a one-byte digit, so
      `i` is also Go's byte index. A winning move is reported with index 0,
      as Go leaves that field unset. */
  function MovesFrom(s: string, i: nat, p: Position, col: int): ParseResult
    requires i <= |s|
    decreases |s| - i
  {
    if i == |s| then
      if col == -1 then Err(InvalidColumn(col, 0)) else Ok(p)
    else if !IsDigit(s[i]) then Err(InvalidCharacter(s[i], i))
    else
      var d := DigitValue(s[i]);
      if !IsPlayable(p, ColumnWord(d)) then Err(InvalidFullColumnMove(d + 1, i))
      else if IsWinningMove(p, ColumnWord(d)) then Err(InvalidWinningMove(d, 0))
      else MovesFrom(s, i + 1, Play(p, ColumnWord(d)), d)
  }

  /** Go's `PositionFromMoves`. */
  function PositionFromMoves(s: string): ParseResult
  {
    MovesFrom(s, 0, NewPosition(), -1)
  }

  /** As written, the parser stops at the first character: an empty
      sequence reports the column sentinel -1, a non-digit is an invalid
      character, and a digit `d` reports column `d + 1` as full, because
      `IsPlayable` is false on every column of the empty board. So no
      sequence parses. */
  lemma PositionFromMovesAsWritten(s: string)
    ensures |s| == 0 ==> PositionFromMoves(s) == Err(InvalidColumn(-1, 0))
    ensures |s| > 0 && !IsDigit(s[0]) ==> PositionFromMoves(s) == Err(InvalidCharacter(s[0], 0))
    ensures |s| > 0 && IsDigit(s[0]) ==> PositionFromMoves(s) == Err(InvalidFullColumnMove(DigitValue(s[0]) + 1, 0))
    ensures !PositionFromMoves(s).Ok?
  {
    if |s| > 0 && IsDigit(s[0]) {
      EmptyBoardUnplayable(ColumnWord(DigitValue(s[0])));
    }
  }

  /** The loop with `IsPlayable` replaced by the test its documentation
      describes (`HasRoom`: the column is not full). */
  function MovesFromIntended(s: string, i: nat, p: Position, col: int): ParseResult
    requires i <= |s|
    decreases |s| - i
  {
    if i == |s| then
      if col == -1 then Err(InvalidColumn(col, 0)) else Ok(p)
    else if !IsDigit(s[i]) then Err(InvalidCharacter(s[i], i))
    else
      var d := DigitValue(s[i]);
      if !HasRoom(p, ColumnWord(d)) then Err(InvalidFullColumnMove(d + 1, i))
      else if IsWinningMove(p, ColumnWord(d)) then Err(InvalidWinningMove(d, 0))
      else MovesFromIntended(s, i + 1, Play(p, ColumnWord(d)), d)
  }

  function PositionFromMovesIntended(s: string): ParseResult
  {
    MovesFromIntended(s, 0, NewPosition(), -1)
  }

  /** Column digits name a column of the board. */
  predicate OnBoardDigits(s: string)
  {
    forall k :: 0 <= k < |s| ==> '0' <= s[k] <= '6'
  }

  /** With the intended test, a sequence of on-board columns that parses
      plays one stone per digit and yields a position reachable by legal
      play. */
  lemma {:induction false} MovesFromIntendedValid(s: string, i: nat, p: Position, col: int)
    requires i <= |s| && Valid(p)
    requires OnBoardDigits(s)
    ensures MovesFromIntended(s, i, p, col).Ok? ==>
      Valid(MovesFromIntended(s, i, p, col).value) && MovesFromIntended(s, i, p, col).value.moves == p.moves + (|s| - i)
    decreases |s| - i
  {
    if i < |s| {
      IntendedNext(s, i, p, col);
      IntendedValid(s, i, p, col);
      if MovesFromIntended(s, i, p, col).Ok? {
        MovesFromIntendedValid(s, i + 1, Play(p, ColumnWord(DigitValue(s[i]))), DigitValue(s[i]));
      }
    }
  }

  /** One step of the intended loop over an on-board digit: unless it stops
      with an error, it plays the digit's column and goes on ... */
  lemma IntendedNext(s: string, i: nat, p: Position, col: int)
    requires i < |s| && OnBoardDigits(s)
    ensures var d := DigitValue(s[i]);
      MovesFromIntended(s, i, p, col).Ok? ==>
        MovesFromIntended(s, i, p, col) == MovesFromIntended(s, i + 1, Play(p, ColumnWord(d)), d)
  {
    IntendedUnfold(s, i, p, col);
  }

  /** ... and the move keeps the position valid. */
  lemma IntendedValid(s: string, i: nat, p: Position, col: int)
    requires i < |s| && OnBoardDigits(s) && Valid(p)
    ensures var c := ColumnWord(DigitValue(s[i]));
      MovesFromIntended(s, i, p, col).Ok? ==> Valid(Play(p, c)) && Play(p, c).moves == p.moves + 1
  {
    IntendedUnfold(s, i, p, col);
    PlayStep(p, ColumnWord(DigitValue(s[i])));
  }

  lemma IntendedUnfold(s: string, i: nat, p: Position, col: int)
    requires i < |s| && OnBoardDigits(s)
    ensures var d := DigitValue(s[i]);
      && 0 <= d < W as int
      && (MovesFromIntended(s, i, p, col).Ok? ==>
            && HasRoom(p, ColumnWord(d))
            && MovesFromIntended(s, i, p, col) == MovesFromIntended(s, i + 1, Play(p, ColumnWord(d)), d))
  {
  }

  lemma PlayStep(p: Position, c: bv8)
    requires Valid(p)
    ensures c < W && HasRoom(p, c) ==> Valid(Play(p, c)) && Play(p, c).moves == p.moves + 1
  {
    if c < W && HasRoom(p, c) {
      PlayPreservesValid(p, c);
    }
  }

  lemma PositionFromMovesIntendedValid(s: string)
    requires OnBoardDigits(s)
    ensures PositionFromMovesIntended(s).Ok? ==>
      Valid(PositionFromMovesIntended(s).value) && PositionFromMovesIntended(s).value.moves == |s|
  {
    MovesFromIntendedValid(s, 0, NewPosition(), -1);
  }

  /** The intended parser accepts three stones in one column: "343" plays
      columns 3, 4 and 3, for three stones on the board. */
  lemma ThreeMovesParse()
    ensures PositionFromMovesIntended("343") == Ok(Position(0x1000_0000, 0x1060_0000, 3))
  {
    ThreeMovesFirst();
    ThreeMovesSecond();
    ThreeMovesThird();
  }

  lemma ThreeMovesFirst()
    ensures MovesFromIntended("343", 0, Position(0, 0, 0), -1) == MovesFromIntended("343", 1, Position(0, 0x20_0000, 1), 3)
  {
    assert Play(Position(0, 0, 0), 3) == Position(0, 0x20_0000, 1);
  }

  lemma ThreeMovesSecond()
    ensures MovesFromIntended("343", 1, Position(0, 0x20_0000, 1), 3) == MovesFromIntended("343", 2, Position(0x20_0000, 0x1020_0000, 2), 4)
  {
    assert Play(Position(0, 0x20_0000, 1), 4) == Position(0x20_0000, 0x1020_0000, 2);
  }

  lemma ThreeMovesThird()
    ensures MovesFromIntended("343", 2, Position(0x20_0000, 0x1020_0000, 2), 4) == Ok(Position(0x1000_0000, 0x1060_0000, 3))
  {
    assert Play(Position(0x20_0000, 0x1020_0000, 2), 3) == Position(0x1000_0000, 0x1060_0000, 3);
  }

  /** As written, the same sequence is rejected at its first digit, which
      is reported as a move into the full column 4. */
  lemma ThreeMovesRejected()
    ensures PositionFromMoves("343") == Err(InvalidFullColumnMove(4, 0))
  {
    PositionFromMovesAsWritten("343");
  }
}

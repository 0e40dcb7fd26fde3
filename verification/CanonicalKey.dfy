/** Go's canonical position key (`GetKey`): the smaller of the key of the
    position and the key of its mirror image, so that a position and its
    left-right reflection share one transposition-table entry. */
module CanonicalKey {
  import opened Bits
  import opened Layout
  import opened Positions

  // ---------------------------------------------------------------------
  // The mirror loop, as written

  /** The distance, in bits, between column `col` and its mirror column
      `W - 1 - col`. */
  function MirrorShift(col: bv8): bv16
  {
    (W as bv16 - 1 - 2 * col as bv16) * (H as bv16 + 1)
  }

  /** One iteration of the loop of Go's `get_mirrored_bitmasks` for column
      `col` left of the centre: column `col` moves right and column
      `W - 1 - col` moves left by `MirrorShift(col)` bits (42, 28 and 14,
      written out per column; `MirrorStepFormula`). */
  function MirrorStep(x: bv64, col: bv8): bv64
    requires col < Centre
  {
    if col == 0 then ((x & ColumnMask(0)) << 42) | ((x & ColumnMask(6)) >> 42)
    else if col == 1 then ((x & ColumnMask(1)) << 28) | ((x & ColumnMask(5)) >> 28)
    else ((x & ColumnMask(2)) << 14) | ((x & ColumnMask(4)) >> 14)
  }

  /** The table is the source's shift of column `col` and its mirror. */
  lemma MirrorStepFormula(x: bv64, col: bv8)
    requires col < Centre
    ensures MirrorStep(x, col) == GoShl(x & ColumnMask(col), MirrorShift(col)) | GoShr(x & ColumnMask(W - 1 - col), MirrorShift(col))
  {
    if col == 0 {
      MirrorStepFormula0(x, col);
    } else if col == 1 {
      MirrorStepFormula1(x, col);
    } else {
      MirrorStepFormula2(x, col);
    }
  }

  // The cases of `MirrorStepFormula`, one lemma per column: with the column fixed,
  // every shift in the proof is a constant, which the solver settles
  // quickly; one lemma over a symbolic column is far more costly.
  lemma MirrorStepFormula0(x: bv64, col: bv8)
    requires col == 0
    ensures MirrorStep(x, col) == GoShl(x & ColumnMask(col), MirrorShift(col)) | GoShr(x & ColumnMask(W - 1 - col), MirrorShift(col))
  {
  }

  lemma MirrorStepFormula1(x: bv64, col: bv8)
    requires col == 1
    ensures MirrorStep(x, col) == GoShl(x & ColumnMask(col), MirrorShift(col)) | GoShr(x & ColumnMask(W - 1 - col), MirrorShift(col))
  {
  }

  lemma MirrorStepFormula2(x: bv64, col: bv8)
    requires col == 2
    ensures MirrorStep(x, col) == GoShl(x & ColumnMask(col), MirrorShift(col)) | GoShr(x & ColumnMask(W - 1 - col), MirrorShift(col))
  {
  }

  /** The loop from column `col` on, with the columns before it already
      OR-ed into `acc`. */
  function MirrorFrom(x: bv64, col: bv8, acc: bv64): bv64
    requires col <= Centre
    decreases (Centre - col) as int
  {
    if col == Centre then acc else MirrorFrom(x, col + 1, acc | MirrorStep(x, col))
  }

  /** One of Go's mirrored bitmasks: the loop over the columns left of the
      centre, then the centre column itself, kept in place since `W` is
      odd. */
  function Mirror(x: bv64): bv64
  {
    var acc := MirrorFrom(x, 0, 0);
    if W & 1 == 1 then acc | (x & ColumnMask(Centre)) else acc
  }

  /** Go's `GetKey`: the smaller of `Board + Mask` and the same sum for the
      mirrored masks (both sums wrap modulo 2^64, as Go's do). */
  function GetKey(p: Position): bv64
  {
    Smaller(Key(p), Key(MirrorPosition(p)))
  }

  /** The key of one orientation, `Board + Mask` (wrapping as Go's
      `uint64` sum does). */
  function Key(p: Position): bv64
  {
    p.Board + p.Mask
  }

  /** Go's choice between the two keys: the mirrored one when it is
      strictly smaller. Go compares `uint64` values, so the comparison is
      written on the words' unsigned values. */
  function Smaller(key: bv64, mirrored: bv64): bv64
  {
    if (mirrored as int) < (key as int) then mirrored else key
  }

  /** The position reflected left to right. */
  function MirrorPosition(p: Position): Position
  {
    Position(Mirror(p.Board), Mirror(p.Mask), p.moves)
  }

  // ---------------------------------------------------------------------
  // What the mirror does

  /** The loop and the centre column together, as one expression. */
  function MirrorClosed(x: bv64): bv64
  {
    ((x & 0x3f) << 42) | ((x & (0x3f << 42)) >> 42)
    | ((x & (0x3f << 7)) << 28) | ((x & (0x3f << 35)) >> 28)
    | ((x & (0x3f << 14)) << 14) | ((x & (0x3f << 28)) >> 14)
    | (x & (0x3f << 21))
  }

  lemma MirrorFromEnd(x: bv64, a: bv64)
    ensures MirrorFrom(x, 3, a) == a
  {
  }

  lemma MirrorFromTwo(x: bv64, a: bv64)
    ensures MirrorFrom(x, 2, a) == a | MirrorStep(x, 2)
  {
    MirrorFromEnd(x, a | MirrorStep(x, 2));
  }

  lemma MirrorFromOne(x: bv64, a: bv64)
    ensures MirrorFrom(x, 1, a) == a | MirrorStep(x, 1) | MirrorStep(x, 2)
  {
    MirrorFromTwo(x, a | MirrorStep(x, 1));
  }

  /** The loop runs over columns 0, 1 and 2. */
  lemma MirrorLoop(x: bv64)
    ensures MirrorFrom(x, 0, 0) == MirrorStep(x, 0) | MirrorStep(x, 1) | MirrorStep(x, 2)
  {
    MirrorFromOne(x, 0 | MirrorStep(x, 0));
  }

  lemma MirrorIsClosed(x: bv64)
    ensures Mirror(x) == MirrorClosed(x)
  {
    MirrorLoop(x);
  }

  /** Column `c` of the mirror image holds the playable cells of column
      `W - 1 - c`. */
  lemma MirrorColumnBits(x: bv64, c: bv8)
    requires c < W
    ensures ColumnBits(Mirror(x), c) == ColumnBits(x, W - 1 - c)
  {
    MirrorIsClosed(x);
    if c == 0 {
      MirrorColumn0(x, c);
    } else if c == 1 {
      MirrorColumn1(x, c);
    } else if c == 2 {
      MirrorColumn2(x, c);
    } else if c == 3 {
      MirrorColumn3(x, c);
    } else if c == 4 {
      MirrorColumn4(x, c);
    } else if c == 5 {
      MirrorColumn5(x, c);
    } else if c == 6 {
      MirrorColumn6(x, c);
    }
  }

  // The cases of `MirrorColumnBits`, one lemma per column: with the column fixed,
  // every shift in the proof is a constant, which the solver settles
  // quickly; one lemma over a symbolic column is far more costly.
  lemma MirrorColumn0(x: bv64, c: bv8)
    requires c == 0
    ensures ColumnBits(MirrorClosed(x), c) == ColumnBits(x, W - 1 - c)
  {
  }

  lemma MirrorColumn1(x: bv64, c: bv8)
    requires c == 1
    ensures ColumnBits(MirrorClosed(x), c) == ColumnBits(x, W - 1 - c)
  {
  }

  lemma MirrorColumn2(x: bv64, c: bv8)
    requires c == 2
    ensures ColumnBits(MirrorClosed(x), c) == ColumnBits(x, W - 1 - c)
  {
  }

  lemma MirrorColumn3(x: bv64, c: bv8)
    requires c == 3
    ensures ColumnBits(MirrorClosed(x), c) == ColumnBits(x, W - 1 - c)
  {
  }

  lemma MirrorColumn4(x: bv64, c: bv8)
    requires c == 4
    ensures ColumnBits(MirrorClosed(x), c) == ColumnBits(x, W - 1 - c)
  {
  }

  lemma MirrorColumn5(x: bv64, c: bv8)
    requires c == 5
    ensures ColumnBits(MirrorClosed(x), c) == ColumnBits(x, W - 1 - c)
  {
  }

  lemma MirrorColumn6(x: bv64, c: bv8)
    requires c == 6
    ensures ColumnBits(MirrorClosed(x), c) == ColumnBits(x, W - 1 - c)
  {
  }

  /** The mirror image lies on the board: sentinel bits, and bits past the
      last column, are dropped. */
  lemma MirrorOnBoard(x: bv64)
    ensures Subset(Mirror(x), BoardCells)
  {
    MirrorIsClosed(x);
  }

  /** Mirroring twice gives back the playable cells, so on masks within the
      board the mirror is an involution. */
  lemma MirrorTwice(x: bv64)
    ensures Mirror(Mirror(x)) == x & BoardCells
  {
    MirrorIsClosed(x);
    MirrorIsClosed(Mirror(x));
    MirrorClosedTwice(x);
  }

  lemma MirrorClosedTwice(x: bv64)
    ensures MirrorClosed(MirrorClosed(x)) == x & BoardCells
  {
  }

  /** Cell by cell, the mirror image swaps column `c` with `W - 1 - c`. */
  lemma MirrorCell(x: bv64, c: bv8, r: bv8)
    requires c < W
    ensures CellSet(Mirror(x), c, r) <==> CellSet(x, W - 1 - c, r)
  {
    MirrorColumnBits(x, c);
    assert ColumnField(Mirror(x), c) & 0x3f == ColumnField(x, W - 1 - c) & 0x3f;
  }

  /** The mirror image of a stacked column is stacked, at the same height. */
  lemma MirrorHeight(m: bv64, c: bv8)
    requires c < W
    ensures Height(Mirror(m), c) == Height(m, W - 1 - c)
    ensures Stacked(Mirror(m), c) == Stacked(m, W - 1 - c)
  {
    MirrorColumnBits(m, c);
  }

  // ---------------------------------------------------------------------
  // The key

  /** A word is determined by its unsigned value. */
  lemma ValueRoundTrip(a: bv64)
    ensures (a as int) as bv64 == a
  {
  }

  lemma ValueInjective(a: bv64, b: bv64)
    requires a as int == b as int
    ensures a == b
  {
    ValueRoundTrip(a);
    ValueRoundTrip(b);
  }

  /** The choice is the minimum of the two keys, whichever comes first. */
  lemma SmallerIsMin(a: bv64, b: bv64)
    ensures Smaller(a, b) as int <= a as int && Smaller(a, b) as int <= b as int
    ensures Smaller(a, b) == a || Smaller(a, b) == b
    ensures Smaller(a, b) == Smaller(b, a)
  {
    if a as int == b as int {
      ValueInjective(a, b);
    }
  }

  /** `GetKey` is the smaller of the position's own key and its mirror's. */
  lemma GetKeyIsMin(p: Position)
    ensures GetKey(p) as int <= Key(p) as int
    ensures GetKey(p) as int <= Key(MirrorPosition(p)) as int
    ensures GetKey(p) == Key(p) || GetKey(p) == Key(MirrorPosition(p))
  {
    SmallerIsMin(Key(p), Key(MirrorPosition(p)));
  }

  /** Mirroring a mask on the board twice gives it back. */
  lemma MirrorInvolution(x: bv64)
    requires Subset(x, BoardCells)
    ensures Mirror(Mirror(x)) == x
  {
    MirrorTwice(x);
  }

  /** Mirroring a position on the board twice gives it back. */
  lemma MirrorPositionTwice(p: Position)
    requires Subset(p.Board, BoardCells) && Subset(p.Mask, BoardCells)
    ensures MirrorPosition(MirrorPosition(p)) == p
  {
    MirrorInvolution(p.Board);
    MirrorInvolution(p.Mask);
  }

  /** A position and its mirror image share their key. */
  lemma MirrorSameKey(p: Position)
    requires Subset(p.Board, BoardCells) && Subset(p.Mask, BoardCells)
    ensures GetKey(MirrorPosition(p)) == GetKey(p)
  {
    MirrorPositionTwice(p);
    SmallerIsMin(Key(p), Key(MirrorPosition(p)));
  }
}

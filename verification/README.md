# Connect Four bitboard position

A Dafny model of the position engine of the `c4-solver` Connect Four solver
(`internal/position/position.go`). A position is two 64-bit masks and a move
counter:

- `Board` holds the stones of the player to move.
- `Mask` holds every stone on the board.
- `moves` counts the stones played so far.

The 6-row by 7-column board is stored column by column. Each column takes 7
bits: six playable cells and one sentinel bit on top, which keeps the
carries of the move trick inside the column. The sentinel stays empty only
while no full column is played; the as-written `IsPlayable` allows exactly
that (see Findings). Column `c`, row `r`
(row 0 at the bottom) is bit `r + 7c`.

The model covers these parts of the engine:

- the layout masks (`bottom_mask_col`, `top_mask_col`, `column_mask`,
  `bottom_mask`, `board_mask`);
- the empty position and both parsers: the 42-character board picture and
  the move string, with the five parse errors;
- `IsPlayable`, `Play`, `Possible` and `PossibleNonLosingMoves`;
- the open-three detector `compute_winning_position` and the queries built
  on it (`IsWinningMove`, `CanWinNext`, `ScoreMove`, with the
  clear-lowest-bit loop `count_ones`);
- the completed-four test (`IsWonPosition`, `compute_won_position`);
- the canonical key: the smaller of the key of the position and the key of
  its left-right mirror.

Every mask is a `bv64`, so Go's wrapping `uint64` arithmetic is Dafny's
modular `bv64` arithmetic. Go yields 0 for a shift of 64 or more; the model
writes this out (`Bits.GoShl`, `Bits.GoShr`). Column numbers are `bv8`. The
game's meaning is stated independently of the bit tricks:

- `Positions.Height` is the number of stones stacked in a column.
- `Positions.Valid` is the invariant of every position reached by legal
  play.
- `WinDetector.CompletesFour` says a stone on a cell would complete four in
  a line.
- `WonPosition.HasFour` says some four cells in a line are all set.

The lemmas connect each bit formula to these definitions.

Modules, in dependency order:

- `Bits`: Go shifts, bit sets, population count, `count_ones`.
- `Layout`: board geometry and masks.
- `Positions`: the position value and its invariant.
- `MoveEngine`: `IsPlayable`, `Play`, `Possible`.
- `WinDetector`: `compute_winning_position`.
- `Queries`: `IsWinningMove`, `CanWinNext`, `ScoreMove`,
  `PossibleNonLosingMoves`.
- `WonPosition`: `compute_won_position`, `IsWonPosition`.
- `CanonicalKey`: `GetKey` and the mirror.
- `Parsing`: both parsers and their errors.

The model follows the code where it departs from its own comments. Two
places do (see Findings):

- The doc comment of `IsPlayable` (internal/position/position.go:194-201)
  says it is true while the column has room. The code is true when the
  column is full.
- The comment on `Possible` (internal/position/position.go:236) calls it the
  mask of the possible moves. The code, because of Go's operator
  precedence, also offers the sentinel bit above a full column.

Each point has two members: one models the code as written, and a corrected
one states what the comment describes. As an example of the first point,
the move string `"343"` is rejected as written (`Parsing.ThreeMovesRejected`)
and parses to a three-move position with the corrected test
(`Parsing.ThreeMovesParse`).

## Model

| member | source | states |
|---|---|---|
| Bits.GoShl | internal/position/position.go:355-365 | Go's `<<` on a `uint64`: 0 once the shift count reaches 64 (as for `top_mask_col(9)`, whose count is 68) |
| Bits.GoShr | internal/position/position.go:180-183 | Go's `>>` on a `uint64`: 0 once the shift count reaches 64 |
| Bits.CountOnes | internal/position/position.go:315-322 | the clear-lowest-bit loop ends with the population count of the mask; the `uint8` counter never wraps, since a word has at most 64 set bits |
| Bits.PopcountClearLowest | internal/position/position.go:317-320 | `x & (x - 1)` removes exactly one set bit of a nonzero word |
| Bits.TwoOrMoreBits | internal/position/position.go:249 | `f & (f - 1) != 0` holds exactly when `f` has at least two set bits |
| Layout.BottomMaskCol | internal/position/position.go:359-361 | no contract of its own; `MoveEngine.BottomCell` states that for a board column it is the column's bottom cell |
| Layout.TopMaskCol | internal/position/position.go:355-357 | no contract of its own; `MoveEngine.TopOccupiedMeansFull` states that its bit is set exactly in a full column, and never past the board |
| Layout.ColumnMask | internal/position/position.go:363-365 | no contract of its own; a table whose equality with Go's formula is `Layout.ColumnMaskFormula` |
| Layout.BottomMask | internal/position/position.go:45-51 | no contract of its own; `Layout.BoardMaskLayout` states its value, the bottom cell of every column |
| Layout.BoardMask | internal/position/position.go:53-56 | no contract of its own; `Layout.BoardMaskLayout` states that it is exactly the 42 playable cells |
| Layout.ColumnMaskFormula | internal/position/position.go:363-365 | the per-column mask equals `((1 << H) - 1) << (col * (H + 1))` with Go's shift semantics, including 0 once the shift passes the word |
| Layout.ColumnMaskPastBoard | internal/position/position.go:363-365 | the mask of a column number 7 or more meets no playable cell |
| Layout.BoardMaskLayout | internal/position/position.go:45-56 | `bottom_mask() * 63` is the union of the seven column masks; it is exactly the bits below 49 that are not sentinels (`i % 7 < 6`), 42 cells in all; both values are the named constants |
| Layout.EmptyCellsCount | internal/position/position.go:54-56 | a board whose stones lie on playable cells has 42 less its stone count empty cells |
| Positions.NewPosition | internal/position/position.go:59-66 | the empty position satisfies the legal-play invariant and every column has height 0 |
| MoveEngine.IsPlayable | internal/position/position.go:202-204 | Go's `IsPlayable` as written; no contract of its own; `MoveEngine.IsPlayableMeansFull` states that it is true exactly on full columns |
| MoveEngine.HasRoom | internal/position/position.go:194-201 | the playability test its doc comment describes; no contract of its own; `MoveEngine.IsPlayableMeansFull` states that it is true exactly while the column has room |
| MoveEngine.Play | internal/position/position.go:226-234 | Go's `Play`; no contract of its own; its meaning is stated by `MoveEngine.PlayHandsOver`, `PlayPreservesValid`, `PlayLandsLowest`, `PlayRaisesColumn` and `PlayKeepsOthers` |
| MoveEngine.Possible | internal/position/position.go:237-239 | Go's `Possible` as written; no contract of its own; `MoveEngine.PossibleOnePerColumn` and `PossibleOffersSentinel` state what it holds |
| MoveEngine.PossibleIntended | internal/position/position.go:236-239 | `Possible` with the parentheses its comment implies; no contract of its own; `MoveEngine.PossibleIntendedPerColumn` and `PossibleIntendedOnBoard` state what it holds |
| MoveEngine.TopOccupiedMeansFull | internal/position/position.go:355-357 | for a stacked column, its top-cell bit is set exactly when it holds six stones; past the board the top-cell test is never true |
| MoveEngine.IsPlayableMeansFull | internal/position/position.go:194-204 | as written, `IsPlayable` is true exactly when the column is full and false for every column past the board; the corrected `HasRoom` is true exactly when the column has fewer than six stones |
| MoveEngine.EmptyBoardUnplayable | internal/position/position.go:194-204 | on the empty position `IsPlayable` is false for every column, while every board column has room |
| MoveEngine.PlayHandsOver | internal/position/position.go:226-234 | `Play` never clears an occupied bit and adds one to the counter; the new mover's stones lie within the old stones, and together with the old mover's stones they partition the old stones |
| MoveEngine.PlayPreservesValid | internal/position/position.go:226-234 | playing a column with room keeps the legal-play invariant: stones stacked on the board, mover within stones, counter equal to the stone count |
| MoveEngine.PlayLandsLowest | internal/position/position.go:226-234 | the stone lands on the lowest empty cell of the column, which was empty, and that is the only new bit |
| MoveEngine.PlayRaisesColumn | internal/position/position.go:226-234 | the played column grows by one stone |
| MoveEngine.PlayKeepsOthers | internal/position/position.go:226-234 | every other column is unchanged |
| MoveEngine.DropCounts | internal/position/position.go:231 | the carry trick on a stacked, non-full column adds exactly one stone |
| MoveEngine.PossibleOnePerColumn | internal/position/position.go:237-239 | for stacked stones on the board, the as-written `Possible` holds exactly one bit per column, at the column's height; for a full column that bit is the sentinel |
| MoveEngine.PossibleInColumns | internal/position/position.go:237-239 | the as-written `Possible` stays within the seven columns' bits (cells and sentinels) |
| MoveEngine.PossibleOffersSentinel | internal/position/position.go:237-239 | with the first column full, the as-written `Possible` contains bit 6, which is not a cell of the board; the corrected mask does not |
| MoveEngine.IntendedIsFiltered | internal/position/position.go:236-239 | the corrected mask is the as-written one filtered to playable cells |
| MoveEngine.PossibleIntendedPerColumn | internal/position/position.go:236-239 | the corrected mask holds the cell at the column's height for a column with room, and nothing for a full column |
| MoveEngine.PossibleIntendedOnBoard | internal/position/position.go:236-239 | the corrected mask holds only playable cells |
| WinDetector.Vertical | internal/position/position.go:281-282 | the vertical block; no contract of its own; `WinDetector.BlockCells` states the cells it marks |
| WinDetector.Horizontal | internal/position/position.go:284-290 | the horizontal block; no contract of its own; `WinDetector.BlockCells` states the cells it marks |
| WinDetector.Falling | internal/position/position.go:292-298 | the `H`-stride diagonal block; no contract of its own; `WinDetector.BlockCells` states the cells it marks |
| WinDetector.Rising | internal/position/position.go:300-306 | the `H + 2` stride diagonal block; no contract of its own; `WinDetector.BlockCells` states the cells it marks |
| WinDetector.ComputeWinningPosition | internal/position/position.go:280-309 | the result lies within `board_mask() ^ mask`; for a `mask` on the board, that means only empty playable cells. A sentinel bit set in `mask` (reachable by playing a full column, which the as-written `IsPlayable` allows) can appear in the result, as in Go |
| WinDetector.WinningPositions | internal/position/position.go:261-263 | the winning cells of the player to move; no contract of its own; read through `Queries.IsWinningMoveMeans` and `Queries.CanWinNextMeans` |
| WinDetector.OpponentWinningPosition | internal/position/position.go:265-267 | the winning cells of the other player; no contract of its own; read through the non-losing lemmas of `Queries` |
| WinDetector.BlockCells | internal/position/position.go:281-306 | each direction's shift block marks exactly the cells whose three neighbours complete a line in that direction: three stones below, or a horizontal or diagonal four through the cell |
| WinDetector.WinningCells | internal/position/position.go:269-309 | a cell is in the result exactly when it is empty and a stone there would complete a line of four: the three cells below it hold the player's stones (vertical), or three of the player's stones line up with it horizontally or on either diagonal |
| Queries.IsWinningMove | internal/position/position.go:213-215 | Go's `IsWinningMove`; no contract of its own; `Queries.IsWinningMoveMeans` states its meaning |
| Queries.CanWinNext | internal/position/position.go:218-220 | Go's `CanWinNext`; no contract of its own; `Queries.CanWinNextSomeColumn` and `Queries.CanWinNextMeans` state its meaning |
| Queries.IsWinningMoveMeans | internal/position/position.go:213-215 | in a legal position, `IsWinningMove(col)` holds exactly when the column has room and a stone at its height completes four; past the board it is false |
| Queries.OfferedWinningOnBoard | internal/position/position.go:213-220 | the winning cells the as-written `Possible` offers are all playable cells, so the missing filter does not affect the two win queries |
| Queries.CanWinNextSomeColumn | internal/position/position.go:218-220 | `CanWinNext` holds exactly when `IsWinningMove` holds for some board column |
| Queries.CanWinNextMeans | internal/position/position.go:218-220 | `CanWinNext` holds exactly when some column with room would complete four at its height |
| Queries.ScoreMove | internal/position/position.go:311-313 | the score counts the cells where the player, with the extra stone, would complete four; it is at most the number of empty cells |
| Queries.Kept | internal/position/position.go:247-255 | the forced-move choice keeps only offered cells |
| Queries.KeptCounts | internal/position/position.go:247-255 | the clear-lowest-bit test keeps every offered cell when no threat is offered, only the threat when one is offered, and nothing when two or more are |
| Queries.NonLosingSound | internal/position/position.go:242-259 | the filter keeps only offered cells and none just below a threat |
| Queries.PossibleNonLosingMoves | internal/position/position.go:242-259 | the non-losing moves are offered moves, and none lies just below a cell where the opponent would win |
| Queries.NonLosingNotBelow | internal/position/position.go:257-258 | the cell above a kept move is never one of the opponent's winning cells |
| Queries.TwoThreatsLose | internal/position/position.go:248-251 | with two or more offered opponent wins, no move is kept |
| Queries.OneThreatForced | internal/position/position.go:252-254 | with one offered opponent win, at most that cell is kept |
| Queries.NoThreatFree | internal/position/position.go:242-259 | with no offered opponent win, every offered cell not just below an opponent win is kept |
| Queries.PossibleNonLosingMovesIntended | internal/position/position.go:242-259 | over the corrected `Possible`, the filter keeps the same guarantees and only playable cells |
| Queries.NonLosingOffersSentinel | internal/position/position.go:237-259 | with the first column full, the as-written filter keeps the sentinel bit 6 as a move; the corrected one does not |
| WonPosition.WonHorizontal | internal/position/position.go:329-333 | the horizontal test; no contract of its own; `WonPosition.HorizontalFours` states its meaning |
| WonPosition.WonFalling | internal/position/position.go:335-339 | the falling-diagonal test; no contract of its own; `WonPosition.FallingFours` states its meaning |
| WonPosition.WonRising | internal/position/position.go:341-345 | the rising-diagonal test; no contract of its own; `WonPosition.RisingFours` states its meaning |
| WonPosition.WonVertical | internal/position/position.go:347-351 | the vertical test; no contract of its own; `WonPosition.VerticalFours` states its meaning |
| WonPosition.ComputeWonPosition | internal/position/position.go:328-353 | Go's `compute_won_position`; no contract of its own; `WonPosition.ComputeWonPositionMeans` states its meaning |
| WonPosition.IsWonPosition | internal/position/position.go:324-326 | Go's `IsWonPosition`; no contract of its own; `WonPosition.IsWonPositionMeans` and `IsWonPositionSwap` state its meaning |
| WonPosition.HorizontalFours | internal/position/position.go:329-333 | the horizontal test finds a set bit exactly when four stones lie in a row |
| WonPosition.FallingFours | internal/position/position.go:335-339 | the `H`-shift test finds four stones on a falling diagonal |
| WonPosition.RisingFours | internal/position/position.go:341-345 | the `H + 2` shift test finds four stones on a rising diagonal |
| WonPosition.VerticalFours | internal/position/position.go:347-351 | the 1-shift test finds four stones stacked in a column |
| WonPosition.ComputeWonPositionMeans | internal/position/position.go:328-353 | for stones on the board, the test is true exactly when four of them lie in a line in one of the four directions |
| WonPosition.IsWonPositionMeans | internal/position/position.go:324-326 | the position is won exactly when either player has four in a line |
| WonPosition.IsWonPositionSwap | internal/position/position.go:324-326 | the test does not depend on whose turn it is: swapping the mover's stones for the opponent's gives the same answer |
| WonPosition.NewPositionNotWon | internal/position/position.go:324-326 | the empty position is not won |
| CanonicalKey.GetKey | internal/position/position.go:158-170 | Go's `GetKey`; no contract of its own; `CanonicalKey.GetKeyIsMin` and `MirrorSameKey` state its meaning |
| CanonicalKey.Mirror | internal/position/position.go:172-192 | one word of `get_mirrored_bitmasks`; no contract of its own; `CanonicalKey.MirrorColumnBits`, `MirrorCell`, `MirrorOnBoard` and `MirrorInvolution` state its meaning |
| CanonicalKey.MirrorPosition | internal/position/position.go:163 | both mirrored words of a position; no contract of its own; `CanonicalKey.MirrorPositionTwice` states that it is an involution |
| CanonicalKey.MirrorStepFormula | internal/position/position.go:177-183 | each loop step of the mirror moves column `col` onto `W - 1 - col` and back, with Go's shift amounts |
| CanonicalKey.MirrorIsClosed | internal/position/position.go:172-192 | the mirror loop with its centre-column step equals a closed form of seven column moves |
| CanonicalKey.MirrorColumnBits | internal/position/position.go:172-192 | column `c` of the mirror holds the cells of column `W - 1 - c`; the centre column stays put |
| CanonicalKey.MirrorCell | internal/position/position.go:172-192 | cell (`c`, `r`) of the mirror is set exactly when cell (`W - 1 - c`, `r`) is |
| CanonicalKey.MirrorHeight | internal/position/position.go:172-192 | mirroring moves each column's height and stacking to the opposite column |
| CanonicalKey.MirrorOnBoard | internal/position/position.go:172-192 | the mirror holds only playable cells (sentinels are dropped) |
| CanonicalKey.MirrorTwice | internal/position/position.go:172-192 | mirroring twice gives back the playable cells of the word |
| CanonicalKey.MirrorInvolution | internal/position/position.go:172-192 | on words of playable cells the mirror is its own inverse |
| CanonicalKey.MirrorPositionTwice | internal/position/position.go:172-192 | mirroring a position twice gives it back |
| CanonicalKey.SmallerIsMin | internal/position/position.go:166-169 | the chosen key is one of the two keys and no larger than either, whichever order they are given in |
| CanonicalKey.GetKeyIsMin | internal/position/position.go:158-170 | the key is the smaller of `Board + Mask` and the mirrored sum |
| CanonicalKey.MirrorSameKey | internal/position/position.go:158-192 | a position and its mirror have the same key |
| Parsing.Lower | internal/position/position.go:89 | each ASCII upper-case letter becomes its lower-case letter (code point plus 32), and every other character is unchanged |
| Parsing.Cells | internal/position/position.go:89-95 | the filter keeps only `.`, `o` and `x`, never lengthens the input, and a single character is kept, lower-cased, exactly when it lowers to one of the three |
| Parsing.CellsConcat | internal/position/position.go:90-95 | the filter goes character by character in order: filtering a concatenation concatenates the filtered parts |
| Parsing.CellsOfCells | internal/position/position.go:89-95 | filtering a filtered picture changes nothing |
| Parsing.CharIndex | internal/position/position.go:111-112 | the picture position of a cell is the one whose row and column formulas give back that cell, top row first |
| Parsing.CharIndexBit | internal/position/position.go:111-114 | the bit index that the loop computes for a picture position is the cell's own bit |
| Parsing.BitIndexInjective | internal/position/position.go:111-114 | distinct picture positions set distinct bits |
| Parsing.BitIndexBound | internal/position/position.go:111-123 | every bit the loop sets is a playable cell |
| Parsing.PositionFromBoardString | internal/position/position.go:88-128 | it fails exactly when the filtered picture does not have 42 characters, with `InvalidBoardStringLength` carrying the actual and expected counts; otherwise each cell is occupied exactly when its character is not `.`, and belongs to the mover exactly when it is `x`; the mover's stones lie within the stones, the stones on the board, and the counter counts the stones |
| Parsing.MovesFrom | internal/position/position.go:134-151 | the loop of `PositionFromMoves` as written; no contract of its own; `Parsing.PositionFromMovesAsWritten` states its outcome |
| Parsing.PositionFromMoves | internal/position/position.go:130-152 | Go's `PositionFromMoves`; no contract of its own; `Parsing.PositionFromMovesAsWritten` and `ThreeMovesRejected` state its outcome |
| Parsing.MovesFromIntended | internal/position/position.go:134-151 | the same loop with the corrected playability test; no contract of its own; `Parsing.MovesFromIntendedValid` states its outcome |
| Parsing.PositionFromMovesIntended | internal/position/position.go:130-152 | `PositionFromMoves` with the corrected playability test; no contract of its own; `Parsing.PositionFromMovesIntendedValid` and `ThreeMovesParse` state its outcome |
| Parsing.PositionFromMovesAsWritten | internal/position/position.go:130-152 | as written, the empty string gives `InvalidColumn(-1, 0)`, a leading non-digit gives `InvalidCharacter` at index 0, and a leading digit `d` gives `InvalidFullColumnMove(d + 1, 0)`: no move string is ever accepted |
| Parsing.ThreeMovesRejected | internal/position/position.go:130-152 | as written, `"343"` is rejected with `InvalidFullColumnMove(4, 0)` |
| Parsing.MovesFromIntendedValid | internal/position/position.go:134-151 | run from a legal position over column digits 0 to 6, the corrected loop either fails or ends in a legal position with one more move per digit read |
| Parsing.PositionFromMovesIntendedValid | internal/position/position.go:130-152 | with the corrected playability test, every accepted string of column digits 0 to 6 yields a legal position whose counter is the string's length |
| Parsing.ThreeMovesParse | internal/position/position.go:130-152 | with the corrected playability test, `"343"` yields the three-move position with stones in columns 3, 4, 3 |

## Left out

- The `Error()` methods (internal/position/position_parsing_error.go:30-48) are string formatting and are not modelled. The five error structs are the `Parsing.ParseError` datatype.
- `strings.ToLower` is modelled as ASCII case folding (`Parsing.Lower`). No other character lowers to `.`, `o` or `x`, so the filter keeps the same characters.
- Strings are sequences of characters with positional indices. Go's `range` reports UTF-8 byte offsets instead. The two agree for the move parser's `InvalidCharacter` index, because every character before the offending one is an ASCII digit.
- `GetMoves` is a read of the `moves` field and has no separate member.
- `MinScore` and `MaxScore` are not modelled. No function of the engine uses them.
- `Play` mutates its receiver through a pointer. It is modelled as a function returning the new position.
- Column arguments are `bv8` rather than Go's `int`. The parser passes only digits 0 to 9, and the lemmas about columns past the board cover 7 to 255. Negative columns are not modelled.
- Parsing.PositionFromBoardString: the parser checks neither that stones are stacked nor whose turn it is, and neither does the model. Its contract states the cell-by-cell reading, not the legal-play invariant.
- Parsing.PositionFromMovesIntendedValid: requires every character to be a digit 0 to 6. With the corrected test, digits 7 to 9 reach `Play` with a column past the board: the top-cell test of such a column is never true, so they are accepted, and the result is not a legal position.
- WonPosition.ComputeWonPositionMeans: states the four-in-a-line meaning only for words whose bits are playable cells, which every position reached by play satisfies. For other words the shifts also see sentinel bits.
- WinDetector.WinningCells: states the cell meaning for a player's stones on the board only.
- CanonicalKey.MirrorSameKey: requires both masks to lie on the board. Mirroring drops sentinel bits, so the key of a position with sentinel bits set can change.
- Queries.IsWinningMoveMeans: stated for legal positions only (the legal-play invariant).
- The error `InvalidWinningMove` always carries index 0, and `InvalidColumn` carries column -1 and index 0. The model reproduces these values.

## Findings

| source | as written | input that shows it | evidently intended | confidence | as-written member | corrected member |
|---|---|---|---|---|---|---|
| internal/position/position.go:202-204 | `IsPlayable` tests `Mask & top_mask_col(col) != 0`, which is true when the column is full | the empty position, any column: `IsPlayable` is false, so `PositionFromMoves("343")` returns `InvalidFullColumnMove(4, 0)` and no move string is accepted | true while the top cell is empty, as its doc comment says | high; not executed | MoveEngine.EmptyBoardUnplayable, Parsing.PositionFromMovesAsWritten | MoveEngine.IsPlayableMeansFull, Parsing.PositionFromMovesIntendedValid |
| internal/position/position.go:237-239 | `Mask + bottom_mask()&board_mask()` parses as `Mask + (bottom_mask() & board_mask())` because `&` binds tighter than `+` in Go, so no playable-cell filter is applied | first column full (`Board = 0x15`, `Mask = 0x3f`, 6 moves): the result contains the sentinel bit 6, and `PossibleNonLosingMoves` offers it as a move | `(Mask + bottom_mask()) & board_mask()`: one playable cell per column with room | high; not executed | MoveEngine.PossibleOffersSentinel, Queries.NonLosingOffersSentinel | MoveEngine.PossibleIntendedPerColumn, Queries.PossibleNonLosingMovesIntended |

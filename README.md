# 2048 board engine in Dafny

This project models the board engine of a 2048 game written in Java: the `Grid` class, which owns a
square array of `Tile` objects and the score and carries out the four moves, and the `Tile` class, whose
`number` and `alreadyMerged` fields enforce the rule that a cell merges at most once per move.

The model has four modules:

- `Tiles` (tile.dfy) is `Tile.java`. It is a class with the fields `number` and `alreadyMerged` and the
  methods `SetNumber`, `CanMergeWith`, `MergeWith`, `SetUnMerged` and `NumberOfDigits`. It also holds the
  merge rule `Mergeable` and the tile values, which are 0 or a power of two.
- `Lines` (line.dfy) is the reference meaning of a move on one line.
  - The line is read from the edge the tiles move towards. `Pack` folds `Push` over the line, and `Push`
    either drops an empty cell, doubles an equal tile that has not merged yet, or appends the value.
  - `Collapse` pads the packed tiles with empty cells. `MergedFlags` gives the merge flags the move leaves
    behind, and `Gain` the points it earns.
  - `SlideLine` is the inner `while` loop of `Grid.move` on one line. `SlideLineResolves` proves that this
    loop, run on the tile at position k, resolves the line exactly as far as the reference has resolved it
    after k + 1 cells.
- `Boards` (board.dfy) works on the board as a value `g[x][y]`.
  - `Pass` collapses every line of a direction, `TotalGain` adds up the points, and `Available` is what the
    dry run looks for.
  - `SlideFrom` is the inner loop on the whole board. `SlideFromLines` reduces it to `SlideLine` on one line.
  - `ScanState` and the `Scan*` lemmas form the invariant of the two `for` loops of `Grid.move`. The lemmas
    about `Pass` (sum, score, tile values, empty cell, dry run) are in this module.
- `Grids` (grid.dfy) is `Grid.java` as a class.
  - The class holds a `tiles: array2<Tile?>` of Tile objects, together with the ghost views `board` and
    `marks` of their numbers and flags. It also holds `score`, `checkingAvailableMoves`, and `gameOver`,
    which stands for the game-over dialog.
  - `Move` keeps the three `int`/`bool` arguments, the dry-run field and its early return. `Move` and
    `MovesAvailable` call each other as they do in Java.
  - Every method is proved against the reference. A real move leaves `Pass(old board)` on the board, earns
    `TotalGain`, and reports a change exactly when the board changed. A dry run changes nothing and finds a
    move exactly when `Available` holds.

Two properties of the engine are proved about the reference:

- The dry run also counts an empty cell in front of an empty cell as a move, so a board without tiles
  of dimension at least 2 "has moves" although no move changes it; on a 1 x 1 board no cell has a cell
  in front, so nothing is found (`Boards.EmptyBoardAvailable`).
- On a board holding a tile, the dry runs find a move exactly when some direction changes the board
  (`Boards.AvailableIffChanges`).

## Model

| member | source | states |
|---|---|---|
| Tiles.Tile.constructor | src/models/Tile.java:38-44 | a new tile holds the given number and has not merged |
| Tiles.Tile.SetNumber | src/models/Tile.java:58-59 | the number becomes exactly the argument and the merge flag is unchanged |
| Tiles.Tile.CanMergeWith | src/models/Tile.java:85-87 | true exactly when the other tile exists, neither tile has merged, and the numbers are equal; the relation is symmetric |
| Tiles.Tile.MergeWith | src/models/Tile.java:89-96 | when the tiles may merge: the number doubles, the flag is set, the new number is returned, the other tile is unchanged, and afterwards this tile can merge with no tile in either direction; otherwise -1 is returned and nothing changes |
| Tiles.Tile.SetUnMerged | src/models/Tile.java:98-100 | the flag is cleared and the number is unchanged |
| Tiles.Tile.NumberOfDigits | src/models/Tile.java:76-83 | 0 for a number that is not positive; otherwise the count d of decimal digits, 10^(d-1) <= n < 10^d |
| Tiles.DoubleIsPowerOfTwo | src/models/Tile.java:91 | doubling a power of two gives a larger power of two |
| Lines.Pack | src/models/Grid.java:75-101 | the tiles a move leaves on a line are never empty, and tiles plus merges never exceed the cells of the line |
| Lines.MergedFlags | src/models/Grid.java:90-97 | a cell flagged as merged after the move holds a tile |
| Lines.SlideLine | src/models/Grid.java:75-101 | the inner loop on one line keeps its length; when the tile does not move, line, flags and points are unchanged; a dry run never moves a tile; only a dry run reports a move found |
| Lines.SlideLineResolves | src/models/Grid.java:75-101 | in a real move the loop for the tile at position k leaves the line and flags resolved up to k + 1, earns exactly the points of the merge at k, finds nothing, and the line stops being stable exactly when it moves something |
| Lines.SlideLineProbe | src/models/Grid.java:80-93 | in a dry run the loop changes nothing and finds a move exactly when the cell in front is empty or holds the same number |
| Lines.PartialStart | src/models/Grid.java:59-61 | before the loops nothing is resolved and no cell is flagged |
| Lines.PartialEnd | src/models/Grid.java:61-104 | once every position is resolved the line is the collapsed line with the reference flags |
| Lines.StablePrefix | src/models/Grid.java:75-101 | a stable prefix is resolved to itself, with no flag set |
| Lines.StableExtends | src/models/Grid.java:80-99 | one more cell keeps a stable prefix stable exactly when it is empty, first, or behind a different tile |
| Lines.SettleResolves | src/models/Grid.java:98-99 | a tile that stops at the edge or behind a tile it cannot merge with resolves its position without points |
| Lines.MergeAt | src/models/Grid.java:90-97 | a merge resolves the position: doubled tile in front, empty cell behind, flag set, points grow by the doubled value, and the line is no longer stable |
| Lines.CollapseSum | src/models/Grid.java:117-131 | a move keeps the sum of a line |
| Lines.GainNonNegative | src/models/Grid.java:117-122 | on non-negative numbers a move earns a non-negative amount |
| Lines.PackTileValues | src/models/Tile.java:89-93 | the tiles after a move are powers of two |
| Lines.CollapseTileValues | src/models/Grid.java:117-131 | a line of 0s and powers of two stays so after a move |
| Lines.CollapseFixedIffStable | src/models/Grid.java:75-101 | a move leaves a line as it is exactly when the line is stable |
| Lines.StablePack | src/models/Grid.java:75-101 | the tiles of a stable line are its leading cells, unmerged, followed only by empty cells |
| Lines.StableGainsNothing | src/models/Grid.java:117-122 | a stable line earns no points |
| Lines.FixedIsStable | src/models/Grid.java:75-101 | a line the move leaves as it is is stable |
| Lines.FixedPrefix | src/models/Grid.java:75-101 | the prefix of a fixed line is fixed and its last tile differs from the one behind it |
| Lines.FullPackIsFixed | src/models/Grid.java:75-101 | a line whose tiles fill it is left as it is |
| Lines.ChangedLineEndsEmpty | src/models/Grid.java:106-108 | a line the move changes ends in an empty cell |
| Lines.UnstableIsAvailable | src/models/Grid.java:80-93 | an unstable line has an empty or mergeable cell in front of a cell |
| Lines.FourEqualTiles | src/models/Grid.java:80-97 | 2,2,2,2 becomes 4,4,0,0 and earns 8: no tile merges twice |
| Lines.MergedTileDoesNotMergeAgain | src/models/Tile.java:85-93 | 0,2,2,4 becomes 4,4,0,0: the merged 4 does not merge with the sliding 4 |
| Boards.StepForward | src/models/Grid.java:72-88 | one step of the cursor goes one position towards the edge and leaves the board exactly from position 0 |
| Boards.ScanStep | src/models/Grid.java:61-70 | iteration (i, j), counting from index 0 up or, when reversed, from the last index down, picks the next unresolved position of its line, and no other line advances |
| Boards.ScanBounds | src/models/Grid.java:61-62 | before the loops no position is resolved and after them every position is |
| Boards.LineOfPass | src/models/Grid.java:75-101 | each line of the board after the move is the collapsed line |
| Boards.PassFixedIffStable | src/models/Grid.java:106-114 | a move leaves the board as it is exactly when every line is stable |
| Boards.FixedPassGainsNothing | src/models/Grid.java:106-114 | a move that changes nothing earns no points |
| Boards.PassLeavesEmptyCell | src/models/Grid.java:106-108 | a move that changes the board leaves an empty cell for the spawn |
| Boards.PassTileValues | src/models/Grid.java:117-131 | cells keep holding 0 or a power of two |
| Boards.TotalGainNonNegative | src/models/Grid.java:191-192 | the score never decreases |
| Boards.PassSum | src/models/Grid.java:117-131 | a move keeps the sum of all cells |
| Boards.SpawnSum | src/models/Grid.java:210-211 | the spawn adds exactly 2 or 4 to the sum |
| Boards.SumBoardSet | src/models/Grid.java:211 | writing one cell changes the sum by the new number minus the old |
| Boards.SpawnTileValues | src/models/Grid.java:210-211 | the spawn keeps the cells holding 0 or a power of two |
| Boards.AvailableIffChanges | src/models/Grid.java:196-201 | on a board with a tile, some dry run finds a move exactly when some direction changes the board |
| Boards.EmptyCellChanges | src/models/Grid.java:80-88 | a board with an empty cell and a tile has a direction that changes it |
| Boards.FullAvailableChanges | src/models/Grid.java:90-97 | on a full board a move the dry run finds is a merge that changes the board |
| Boards.ChangeIsAvailable | src/models/Grid.java:80-93 | a direction that changes the board has a move the dry run finds |
| Boards.EmptyBoardAvailable | src/models/Grid.java:80-83 | on an empty board of every dimension, the dry run finds a move exactly when the dimension is at least 2, though no direction changes the board |
| Boards.FullBoardWithoutPairs | src/models/Grid.java:196-201 | every full square board without two equal neighbours, in a row or a column, has no move in any direction and no direction changes it |
| Boards.NeighboursDiffer | src/models/Grid.java:80-90 | on such a board two adjacent cells hold different, non-empty numbers |
| Boards.NoPairAt | src/models/Grid.java:80-93 | on such a board no position of any line passes the dry run's test |
| Boards.CheckerboardIsOver | src/models/Grid.java:196-201 | the board 2 4 / 4 2 is over: no move, and no direction changes it |
| Boards.SlideFrom | src/models/Grid.java:75-101 | the inner loop on the board: when the tile does not move, board, flags and points are unchanged; a dry run never moves a tile; only a dry run reports a move found |
| Boards.SlideFromLines | src/models/Grid.java:75-101 | the inner loop on the board is the inner loop on its line, written back |
| Boards.SlideResolves | src/models/Grid.java:75-101 | in a real move the loop over the tile at position k resolves the line to k + 1 on the board |
| Boards.SlideProbe | src/models/Grid.java:80-93 | in a dry run the loop changes nothing and finds a move exactly when the cell in front is empty or mergeable |
| Boards.ScanBegin | src/models/Grid.java:59-61 | before the loops the scan state holds with nothing resolved |
| Boards.ScanAdvance | src/models/Grid.java:62-101 | one iteration keeps the scan state; a dry run finds a move only where there is one and changes nothing |
| Boards.ScanRowEnd | src/models/Grid.java:61-103 | the end of one row of iterations is the start of the next |
| Boards.ScanEnd | src/models/Grid.java:61-104 | after the loops a dry run has found no move, and a real move has made the reference pass, earned its points, and moved exactly when the board changed |
| Grids.Grid.constructor | src/models/Grid.java:25-36 | a new grid: every cell a fresh empty unmerged tile, score 0, no dry run |
| Grids.Grid.IncreaseScore | src/models/Grid.java:191-194 | the score grows by exactly the value |
| Grids.Grid.ChaneNumber | src/models/Grid.java:124-131 | a positive number moves into the next cell and its own cell empties, and the result is true; otherwise nothing changes and the flag is returned |
| Grids.Grid.Merge | src/models/Grid.java:117-122 | when the tiles may merge: the next tile doubles and is flagged, the score grows by the doubled value, the current cell empties, and nothing else changes; otherwise the -1 of mergeWith is added to the score and the current cell empties |
| Grids.Grid.SlideOnce | src/models/Grid.java:77-100 | one pass of the while loop is one step of the reference loop: it goes on after a slide, or stops after a merge, a blocked cell or a dry-run find |
| Grids.Grid.SlideTile | src/models/Grid.java:72-101 | the while loop leaves the board, flags, points, moved and found that the reference loop gives |
| Grids.Grid.ScanCell | src/models/Grid.java:63-101 | one iteration of the for loops keeps the scan state or finds a move in a dry run |
| Grids.Grid.ScanRowCells | src/models/Grid.java:62-103 | the inner for loop keeps the scan state from row i to row i + 1 |
| Grids.Grid.ScanBoard | src/models/Grid.java:59-104 | a dry run returns found exactly when the direction has a move and changes nothing; a real move leaves the reference pass, earns its points, and moved is true exactly when the board changed |
| Grids.Grid.Move | src/models/Grid.java:58-115 | false: nothing changed and nothing spawned; true in a real move: the reference pass plus one spawn, points added, flags cleared, gameOver set when no move is left; in a dry run: true exactly when the direction has a move, nothing changed |
| Grids.Grid.EndMove | src/models/Grid.java:106-112 | flags cleared, one 2 or 4 spawned on an empty cell, score unchanged, gameOver set exactly when no move is left |
| Grids.Grid.MoveUp | src/models/Grid.java:42-44 | the move of Move in direction Up; keeps the state valid between moves (0s and powers of two, no merge flag, non-negative score) and never lowers the score |
| Grids.Grid.MoveDown | src/models/Grid.java:46-48 | the move of Move in direction Down; keeps the state valid between moves (0s and powers of two, no merge flag, non-negative score) and never lowers the score |
| Grids.Grid.MoveLeft | src/models/Grid.java:50-52 | the move of Move in direction Left; keeps the state valid between moves (0s and powers of two, no merge flag, non-negative score) and never lowers the score |
| Grids.Grid.MoveRight | src/models/Grid.java:54-56 | the move of Move in direction Right; keeps the state valid between moves (0s and powers of two, no merge flag, non-negative score) and never lowers the score |
| Grids.Grid.MovesAvailable | src/models/Grid.java:196-201 | true exactly when some direction's dry run finds a move; the board, flags, score and gameOver are unchanged and the dry-run field is false afterwards |
| Grids.Grid.ClearMerged | src/models/Grid.java:248-256 | every flag is cleared and the numbers are unchanged |
| Grids.Grid.AddRandomTile | src/models/Grid.java:203-214 | exactly one previously empty cell now holds 2 or 4; flags unchanged |

## Left out

- Rendering and animation are not modelled: the label, box and colours of a tile, its `scale`, `draw`'s
  grid pane, `showMergeAnimation`, `showSpawnAnimation`, and the score label text in `increaseScore`.
- The game-over dialog (`showFinishAlert`, `makeFinishAlert`) is the field `gameOver`, set where the
  dialog would open. Starting a new menu from the dialog is not modelled.
- `draw` is not modelled: it wires the grid pane and makes the first two spawns. Its second spawn would
  never end on a 1 x 1 grid.
- Grids.Grid.AddRandomTile: the cell and the 2-or-4 roll are chosen nondeterministically rather than by
  `java.util.Random`, so the one-in-ten chance of a 4 is not modelled. The method requires an empty cell,
  which is exactly when Java's retry loop ends. `PassLeavesEmptyCell` proves every call from `Move` has one.
- Grids.Grid.IncreaseScore: the score is an unbounded integer. Java's 32-bit `int` would wrap only after
  about 2^31 points.
- Tiles.Tile.MergeWith: numbers are unbounded integers. Java's `number * 2` would wrap past 2^31 - 1, but
  a tile that large needs about 2^31 points of merges first, so the score (see IncreaseScore) wraps first.
- Tiles.Tile.NumberOfDigits: numbers are unbounded integers. For every `int` input, Java's loop gives the
  same count.
- Grids.Grid.Move: requires `Valid()`: no merge flag set, only 0s and powers of two on the board, and a
  non-negative score. These hold between moves: the constructor sets them up, and MoveUp, MoveDown,
  MoveLeft, MoveRight, Move and MovesAvailable keep them.
- Grids.Grid.Move: requires arguments that are one of the four directions. Those four are its only callers.
- Grids.Grid.SlideTile: the loop body of `move` is split across the methods SlideTile, SlideOnce,
  ScanCell, ScanRowCells, ScanBoard and EndMove, in the order Java runs them. Java's `return true` from
  inside the loops is SlideOnce's `found` result, passed outwards and returned by Move.
- `Tile.getNumber`, `getLabel`, `getBox` and `Grid.getScale` are plain reads of a field or presentation:
  the model reads `number` directly.
- `GameHandler`, `MainMenu` and `Controller` are JavaFX wiring and are not part of this model.

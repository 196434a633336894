/**
 * Grid.java: a dimension x dimension array of Tile objects, the score, and the
 * moves. Every method is proved against the reference pass of the Boards module.
 */
module Grids {
  import opened Tiles
  import opened Lines
  import opened Boards

  class Grid {
    const dimension: nat
    const tiles: array2<Tile?>
    /** The Tile objects of the array; the frame of the methods that change tiles. */
    ghost const tileSet: set<Tile>
    /** The cell each Tile object sits in. */
    ghost const cellOf: map<Tile, (int, int)>
    /** The numbers of the tiles: board[x][y] is tiles[x][y].number. */
    ghost var board: seq<seq<int>>
    /** The merge flags of the tiles: marks[x][y] is tiles[x][y].alreadyMerged. */
    ghost var marks: seq<seq<bool>>
    var checkingAvailableMoves: bool
    var score: int
    /** Set where Grid.java opens its game-over dialog. */
    var gameOver: bool

    /**
     * The array is square, every cell holds its own Tile (so no Tile sits in two
     * cells), and board and marks show the tiles' numbers and flags.
     */
    ghost predicate Wf()
      reads this, tiles, tileSet
    {
      tiles.Length0 == dimension && tiles.Length1 == dimension &&
      |board| == dimension && IsSquare(board) && |marks| == dimension && IsSquare(marks) &&
      forall x, y {:trigger tiles[x, y]} :: 0 <= x < dimension && 0 <= y < dimension ==>
        tiles[x, y] != null && tiles[x, y] in tileSet && tiles[x, y] in cellOf && cellOf[tiles[x, y]] == (x, y) &&
        tiles[x, y].number == board[x][y] && tiles[x, y].alreadyMerged == marks[x][y]
    }

    /**
     * The state between two moves, which the dry runs of movesAvailable see too:
     * tile values only, no merge flag, score not negative.
     */
    ghost predicate Valid()
      reads this, tiles, tileSet
    {
      Wf() && TileBoard(board) && NoFlags(marks) && score >= 0
    }

    /** A new grid: every cell an empty tile, score 0, no flag set. */
    constructor (dimension: nat)
      ensures Valid() && !checkingAvailableMoves && board == EmptyBoard(dimension) && score == 0 && !gameOver
      ensures fresh(tiles) && forall t :: t in tileSet ==> fresh(t)
    {
      var a := new Tile?[dimension, dimension]((_, _) => null);
      ghost var s: set<Tile> := {};
      ghost var m: map<Tile, (int, int)> := map[];
      for i := 0 to dimension
        invariant forall x, y :: 0 <= x < i && 0 <= y < dimension ==>
          a[x, y] != null && a[x, y] in s && a[x, y] in m && m[a[x, y]] == (x, y) &&
          a[x, y].number == 0 && !a[x, y].alreadyMerged
        invariant forall x, y :: i <= x < dimension && 0 <= y < dimension ==> a[x, y] == null
        invariant forall t :: t in s ==> fresh(t)
        invariant forall t :: t in m ==> fresh(t)
      {
        for j := 0 to dimension
          invariant forall x, y :: 0 <= x < dimension && 0 <= y < dimension && (x < i || (x == i && y < j)) ==>
            a[x, y] != null && a[x, y] in s && a[x, y] in m && m[a[x, y]] == (x, y) &&
            a[x, y].number == 0 && !a[x, y].alreadyMerged
          invariant forall x, y :: 0 <= x < dimension && 0 <= y < dimension && !(x < i || (x == i && y < j)) ==> a[x, y] == null
          invariant forall t :: t in s ==> fresh(t)
          invariant forall t :: t in m ==> fresh(t)
        {
          var t := new Tile(0);
          a[i, j] := t;
          s := s + {t};
          m := m[t := (i, j)];
        }
      }
      this.dimension := dimension;
      tiles := a;
      tileSet := s;
      cellOf := m;
      board := EmptyBoard(dimension);
      marks := seq(dimension, x => seq(dimension, y => false));
      checkingAvailableMoves := false;
      score := 0;
      gameOver := false;
    }

    /** score += value; the score label is presentation. */
    method IncreaseScore(value: int)
      modifies this`score
      ensures score == old(score) + value
    {
      score := score + value;
    }

    /**
     * Moves the number of the current tile into the next tile and empties the
     * current tile when it holds a positive number; returns true then, and the
     * given flag otherwise.
     */
    method ChaneNumber(moved: bool, nextTile: Tile, currentTile: Tile,
                       ghost nx: nat, ghost ny: nat, ghost cx: nat, ghost cy: nat) returns (r: bool)
      requires Wf() && nx < dimension && ny < dimension && cx < dimension && cy < dimension
      requires tiles[nx, ny] == nextTile && tiles[cx, cy] == currentTile && (nx != cx || ny != cy)
      modifies nextTile`number, currentTile`number, this`board
      ensures Wf() && marks == old(marks)
      ensures old(currentTile.number) > 0 ==>
        r && board == Set2(Set2(old(board), nx, ny, old(currentTile.number)), cx, cy, 0)
      ensures old(currentTile.number) <= 0 ==> r == moved && board == old(board)
    {
      r := moved;
      if currentTile.number > 0 {
        board := Set2(Set2(board, nx, ny, currentTile.number), cx, cy, 0);
        nextTile.SetNumber(currentTile.number);
        currentTile.SetNumber(0);
        r := true;
        forall x, y | 0 <= x < dimension && 0 <= y < dimension
          ensures tiles[x, y].number == board[x][y]
        {
          if (x != nx || y != ny) && (x != cx || y != cy) {
            assert tiles[x, y] != tiles[nx, ny] && tiles[x, y] != tiles[cx, cy];
          }
        }
      }
    }

    /**
     * Merges the current tile into the next tile at (nextRow, nextColumn): when
     * they may merge, the next tile doubles and is flagged, the score grows by
     * its new number and the current tile is emptied. Otherwise Tile.mergeWith
     * returns -1, which is added to the score, and the current tile is emptied too.
     */
    method Merge(currentTile: Tile, nextTile: Tile, nextRow: int, nextColumn: int,
                 ghost currentRow: nat, ghost currentColumn: nat)
      requires Wf() && 0 <= nextRow < dimension && 0 <= nextColumn < dimension
      requires currentRow < dimension && currentColumn < dimension
      requires tiles[nextRow, nextColumn] == nextTile && tiles[currentRow, currentColumn] == currentTile
      requires nextRow != currentRow || nextColumn != currentColumn
      modifies nextTile, currentTile`number, this`board, this`marks, this`score
      ensures Wf()
      ensures Mergeable(old(nextTile.number), old(nextTile.alreadyMerged), old(currentTile.number), old(currentTile.alreadyMerged)) ==>
        board == Set2(Set2(old(board), nextRow, nextColumn, 2 * old(nextTile.number)), currentRow, currentColumn, 0) &&
        marks == Set2(old(marks), nextRow, nextColumn, true) &&
        score == old(score) + 2 * old(nextTile.number)
      ensures !Mergeable(old(nextTile.number), old(nextTile.alreadyMerged), old(currentTile.number), old(currentTile.alreadyMerged)) ==>
        board == Set2(old(board), currentRow, currentColumn, 0) && marks == old(marks) && score == old(score) - 1
    {
      ghost var mergeable := nextTile.CanMergeWith(currentTile);
      if mergeable {
        board := Set2(Set2(board, nextRow, nextColumn, 2 * nextTile.number), currentRow, currentColumn, 0);
        marks := Set2(marks, nextRow, nextColumn, true);
      } else {
        board := Set2(board, currentRow, currentColumn, 0);
      }
      var value := nextTile.MergeWith(currentTile);
      IncreaseScore(value);
      currentTile.SetNumber(0);
      forall x, y | 0 <= x < dimension && 0 <= y < dimension
        ensures tiles[x, y].number == board[x][y] && tiles[x, y].alreadyMerged == marks[x][y]
      {
        if (x != nextRow || y != nextColumn) && (x != currentRow || y != currentColumn) {
          assert tiles[x, y] != tiles[nextRow, nextColumn] && tiles[x, y] != tiles[currentRow, currentColumn];
        }
      }
    }

    /**
     * One pass of the while loop of Grid.move: the tile at (row, column),
     * position c of line L in direction dir, looks at the cell in front at
     * (nextRow, nextColumn). An empty cell takes its number (stop is false, the
     * loop goes on); a mergeable tile takes the merge; any other tile, or a dry
     * run finding an empty or mergeable cell, stops the loop.
     */
    method SlideOnce(row: int, column: int, nextRow: int, nextColumn: int, moved: bool,
                     ghost dir: Direction, ghost L: nat, ghost c: nat, ghost r0: BoardOutcome) returns (moved': bool, stop: bool, found: bool)
      requires Wf() && L < dimension && 1 <= c < dimension
      requires row == CellRow(dir, dimension, L, c) && column == CellColumn(dir, dimension, L, c)
      requires nextRow == CellRow(dir, dimension, L, c - 1) && nextColumn == CellColumn(dir, dimension, L, c - 1)
      requires Settled(SlideFrom(board, marks, dir, L, c, checkingAvailableMoves), moved) == r0
      modifies tileSet, this`board, this`marks, this`score
      ensures Wf()
      ensures stop ==> Slide(board, marks, score - old(score), moved', found) == r0
      ensures !stop ==>
        score == old(score) && !found &&
        Settled(SlideFrom(board, marks, dir, L, c - 1, checkingAvailableMoves), moved') == r0
    {
      moved', stop, found := moved, true, false;
      var nextTile := tiles[nextRow, nextColumn];
      var currentTile := tiles[row, column];
      if nextTile.number == 0 {
        if checkingAvailableMoves {
          return moved, true, true;
        }
        SlideOver(board, marks, dir, L, c, moved);
        moved' := ChaneNumber(moved, nextTile, currentTile, nextRow, nextColumn, row, column);
        stop := false;
      } else if nextTile.CanMergeWith(currentTile) {
        if checkingAvailableMoves {
          return moved, true, true;
        }
        Merge(currentTile, nextTile, nextRow, nextColumn, row, column);
        moved' := true;
      }
    }

    /**
     * The while loop of Grid.move for the tile at (row0, column0), position k of
     * line L in direction dir: it slides the tile over empty cells, merges it
     * with an equal tile in front or stops, and in a dry run only reports whether
     * the cell in front is empty or mergeable. The new state is the one SlideFrom
     * gives for the old board and flags.
     */
    method SlideTile(row0: int, column0: int, rowChange: int, columnChange: int, moved0: bool,
                     ghost dir: Direction, ghost L: nat, ghost k: nat) returns (moved: bool, found: bool)
      requires Wf() && rowChange == RowChange(dir) && columnChange == ColumnChange(dir)
      requires L < dimension && k < dimension
      requires row0 == CellRow(dir, dimension, L, k) && column0 == CellColumn(dir, dimension, L, k)
      modifies tileSet, this`board, this`marks, this`score
      ensures Wf()
      ensures Slide(board, marks, score - old(score), moved, found)
           == Settled(SlideFrom(old(board), old(marks), dir, L, k, checkingAvailableMoves), moved0)
    {
      var d := dimension;
      moved, found := moved0, false;
      var row, column := row0, column0;
      var nextRow, nextColumn := row + rowChange, column + columnChange;
      ghost var c: nat := k;
      ghost var r0 := Settled(SlideFrom(board, marks, dir, L, k, checkingAvailableMoves), moved0);
      StepForward(dir, d, L, c);
      while 0 <= nextRow < d && 0 <= nextColumn < d
        invariant Wf() && c <= k && !found && score == old(score)
        invariant row == CellRow(dir, d, L, c) && column == CellColumn(dir, d, L, c)
        invariant nextRow == row + rowChange && nextColumn == column + columnChange
        invariant (0 <= nextRow < d && 0 <= nextColumn < d) <==> c >= 1
        invariant c >= 1 ==> nextRow == CellRow(dir, d, L, c - 1) && nextColumn == CellColumn(dir, d, L, c - 1)
        invariant Settled(SlideFrom(board, marks, dir, L, c, checkingAvailableMoves), moved) == r0
        decreases c
      {
        var stop;
        moved, stop, found := SlideOnce(row, column, nextRow, nextColumn, moved, dir, L, c, r0);
        if stop {
          return;
        }
        row, column := nextRow, nextColumn;
        nextRow, nextColumn := nextRow + rowChange, nextColumn + columnChange;
        c := c - 1;
        StepForward(dir, d, L, c);
      }
    }

    /**
     * What a call of Grid.move in direction dir promises. A dry run reports
     * whether the scan finds an empty or mergeable cell in front of a cell and
     * changes nothing. A real move makes the reference pass and earns its points;
     * when the board changed it returns true, clears the flags, spawns a tile on
     * an empty cell and sets gameOver when no move is left; otherwise it returns
     * false and leaves everything as it was.
     */
    twostate predicate MoveDone(dir: Direction, moved: bool)
      reads this
    {
      IsSquare(old(board)) &&
      (old(checkingAvailableMoves) ==>
        (moved <==> Available(old(board), dir)) &&
        board == old(board) && marks == old(marks) && score == old(score) && gameOver == old(gameOver)) &&
      (!old(checkingAvailableMoves) && !moved ==>
        Pass(old(board), dir) == old(board) &&
        board == old(board) && marks == old(marks) && score == old(score) && gameOver == old(gameOver)) &&
      (!old(checkingAvailableMoves) && moved ==>
        Pass(old(board), dir) != old(board) && Spawned(Pass(old(board), dir), board) &&
        score == old(score) + TotalGain(old(board), dir) &&
        (gameOver <==> old(gameOver) || !AnyAvailable(board)))
    }

    /**
     * Grid.move: scans the board, and then, if anything moved, clears the flags,
     * spawns a tile and looks for a move left. A dry run returns from inside the
     * scan at the first move it finds.
     */
    method Move(rowChange: int, columnChange: int, reverse: bool) returns (moved: bool)
      requires Valid() && IsDirection(rowChange, columnChange, reverse)
      modifies tileSet, this`board, this`marks, this`score, this`checkingAvailableMoves, this`gameOver
      ensures Valid() && checkingAvailableMoves == old(checkingAvailableMoves) && score >= old(score)
      ensures MoveDone(DirectionOf(rowChange, columnChange, reverse), moved)
      decreases if checkingAvailableMoves then 0 else 4
    {
      ghost var dir := DirectionOf(rowChange, columnChange, reverse);
      ghost var g0 := board;
      var found;
      moved, found := ScanBoard(rowChange, columnChange, reverse);
      TotalGainNonNegative(g0, dir);
      if found {
        moved := true;
      } else if moved {
        PassLeavesEmptyCell(g0, dir);
        PassTileValues(g0, dir);
        EndMove();
      }
    }

    /**
     * What Grid.move does after a move that changed the board: clears the merge
     * flags, spawns a tile, and sets gameOver when no direction has a move left.
     */
    method EndMove()
      requires Wf() && !checkingAvailableMoves && TileBoard(board) && HasEmptyCell(board) && score >= 0
      modifies tileSet, this`board, this`marks, this`score, this`checkingAvailableMoves, this`gameOver
      ensures Valid() && !checkingAvailableMoves && score == old(score)
      ensures Spawned(old(board), board) && (gameOver <==> old(gameOver) || !AnyAvailable(board))
      decreases 3
    {
      ClearMerged();
      AddRandomTile();
      SpawnTileValues(old(board), board);
      var hasMoves := MovesAvailable();
      if !hasMoves {
        gameOver := true;
      }
    }

    /**
     * The loops of Grid.move: every cell in the order the loops of Grid.java give
     * (from the last index down when reverse is set), the tile of each slid as far
     * as the inner loop takes it. found is the early return of a dry run, which
     * happens exactly when the direction has a move; a real move makes the
     * reference pass, earns its points, and has moved exactly when the board changed.
     */
    method ScanBoard(rowChange: int, columnChange: int, reverse: bool) returns (moved: bool, found: bool)
      requires Wf() && NoFlags(marks) && TileBoard(board) && IsDirection(rowChange, columnChange, reverse)
      modifies tileSet, this`board, this`marks, this`score
      ensures Wf() && IsSquare(old(board))
      ensures var dir := DirectionOf(rowChange, columnChange, reverse);
        if checkingAvailableMoves then
          found == Available(old(board), dir) && !moved &&
          board == old(board) && marks == old(marks) && score == old(score)
        else
          !found && board == Pass(old(board), dir) && score == old(score) + TotalGain(old(board), dir) &&
          (moved <==> Pass(old(board), dir) != old(board)) &&
          (!moved ==> marks == old(marks) && score == old(score))
    {
      ghost var dir := DirectionOf(rowChange, columnChange, reverse);
      ghost var g0, f0, s0 := board, marks, score;
      var d := dimension;
      moved, found := false, false;
      ScanBegin(g0, f0, dir, checkingAvailableMoves);
      for i := 0 to d
        invariant Wf()
        invariant ScanState(g0, f0, dir, i, 0, checkingAvailableMoves, board, marks, score - s0, moved)
        invariant checkingAvailableMoves ==> board == old(board) && marks == old(marks) && score == old(score) && !moved
      {
        moved, found := ScanRowCells(i, rowChange, columnChange, reverse, moved, g0, f0, s0);
        if found {
          return;
        }
      }
      ScanEnd(g0, f0, dir, checkingAvailableMoves, board, marks, score - s0, moved);
    }

    /** The inner for loop of Grid.move, over the cells (i, j) for every j. */
    method ScanRowCells(i: int, rowChange: int, columnChange: int, reverse: bool, moved0: bool,
                        ghost g0: seq<seq<int>>, ghost f0: seq<seq<bool>>, ghost s0: int) returns (moved: bool, found: bool)
      requires Wf() && IsDirection(rowChange, columnChange, reverse) && 0 <= i < dimension
      requires IsSquare(g0) && TileBoard(g0) && IsSquare(f0) && |f0| == |g0| && NoFlags(f0) && |g0| == dimension
      requires ScanState(g0, f0, DirectionOf(rowChange, columnChange, reverse), i, 0, checkingAvailableMoves,
                         board, marks, score - s0, moved0)
      modifies tileSet, this`board, this`marks, this`score
      ensures Wf()
      ensures found ==>
        checkingAvailableMoves && Available(g0, DirectionOf(rowChange, columnChange, reverse)) && !moved &&
        board == old(board) && marks == old(marks) && score == old(score)
      ensures !found ==>
        ScanState(g0, f0, DirectionOf(rowChange, columnChange, reverse), i + 1, 0, checkingAvailableMoves,
                  board, marks, score - s0, moved)
    {
      ghost var dir := DirectionOf(rowChange, columnChange, reverse);
      moved, found := moved0, false;
      for j := 0 to dimension
        invariant Wf()
        invariant ScanState(g0, f0, dir, i, j, checkingAvailableMoves, board, marks, score - s0, moved)
        invariant checkingAvailableMoves ==> board == old(board) && marks == old(marks) && score == old(score) && !moved
      {
        moved, found := ScanCell(i, j, rowChange, columnChange, reverse, moved, g0, f0, s0);
        if found {
          return;
        }
      }
      ScanRowEnd(g0, f0, dir, i, checkingAvailableMoves, board, marks, score - s0, moved);
    }

    /**
     * Iteration (i, j) of the loops of Grid.move: the cell it picks and the inner
     * loop over the tile there. found is the early return of a dry run, which
     * happens only where the direction has a move and after no change; otherwise
     * one more position of one line is resolved.
     */
    method ScanCell(i: int, j: int, rowChange: int, columnChange: int, reverse: bool, moved0: bool,
                    ghost g0: seq<seq<int>>, ghost f0: seq<seq<bool>>, ghost s0: int) returns (moved: bool, found: bool)
      requires Wf() && IsDirection(rowChange, columnChange, reverse) && 0 <= i < dimension && 0 <= j < dimension
      requires IsSquare(g0) && TileBoard(g0) && IsSquare(f0) && |f0| == |g0| && NoFlags(f0) && |g0| == dimension
      requires ScanState(g0, f0, DirectionOf(rowChange, columnChange, reverse), i, j, checkingAvailableMoves,
                         board, marks, score - s0, moved0)
      modifies tileSet, this`board, this`marks, this`score
      ensures Wf()
      ensures found ==>
        checkingAvailableMoves && Available(g0, DirectionOf(rowChange, columnChange, reverse)) && !moved &&
        board == old(board) && marks == old(marks) && score == old(score)
      ensures !found ==>
        ScanState(g0, f0, DirectionOf(rowChange, columnChange, reverse), i, j + 1, checkingAvailableMoves,
                  board, marks, score - s0, moved)
    {
      ghost var dir := DirectionOf(rowChange, columnChange, reverse);
      var d := dimension;
      var row, column;
      if reverse {
        row, column := d - 1 - i, d - 1 - j;
      } else {
        row, column := i, j;
      }
      assert row == ScanIndex(dir, d, i) && column == ScanIndex(dir, d, j);
      ScanPosition(dir, d, i, j);
      moved, found := SlideTile(row, column, rowChange, columnChange, moved0,
                                dir, LineIndex(dir, row, column), Position(dir, d, row, column));
      ScanAdvance(g0, f0, dir, i, j, checkingAvailableMoves, old(board), old(marks), old(score) - s0, moved0,
                  board, marks, score - old(score), moved, found);
    }

    method MoveUp() returns (moved: bool)
      requires Valid()
      modifies tileSet, this`board, this`marks, this`score, this`checkingAvailableMoves, this`gameOver
      ensures Valid() && checkingAvailableMoves == old(checkingAvailableMoves) && score >= old(score)
      ensures MoveDone(Up, moved)
      decreases if checkingAvailableMoves then 1 else 5
    {
      moved := Move(0, -1, false);
    }

    method MoveDown() returns (moved: bool)
      requires Valid()
      modifies tileSet, this`board, this`marks, this`score, this`checkingAvailableMoves, this`gameOver
      ensures Valid() && checkingAvailableMoves == old(checkingAvailableMoves) && score >= old(score)
      ensures MoveDone(Down, moved)
      decreases if checkingAvailableMoves then 1 else 5
    {
      moved := Move(0, 1, true);
    }

    method MoveLeft() returns (moved: bool)
      requires Valid()
      modifies tileSet, this`board, this`marks, this`score, this`checkingAvailableMoves, this`gameOver
      ensures Valid() && checkingAvailableMoves == old(checkingAvailableMoves) && score >= old(score)
      ensures MoveDone(Left, moved)
      decreases if checkingAvailableMoves then 1 else 5
    {
      moved := Move(-1, 0, false);
    }

    method MoveRight() returns (moved: bool)
      requires Valid()
      modifies tileSet, this`board, this`marks, this`score, this`checkingAvailableMoves, this`gameOver
      ensures Valid() && checkingAvailableMoves == old(checkingAvailableMoves) && score >= old(score)
      ensures MoveDone(Right, moved)
      decreases if checkingAvailableMoves then 1 else 5
    {
      moved := Move(1, 0, true);
    }

    /**
     * Grid.movesAvailable: the four dry runs, in the order Up, Down, Left, Right,
     * stopping at the first that finds a move. Nothing changes, and the dry-run
     * flag is off afterwards.
     */
    method MovesAvailable() returns (hasMoves: bool)
      requires Valid()
      modifies tileSet, this`board, this`marks, this`score, this`checkingAvailableMoves, this`gameOver
      ensures Valid() && !checkingAvailableMoves
      ensures hasMoves == AnyAvailable(old(board))
      ensures board == old(board) && marks == old(marks) && score == old(score) && gameOver == old(gameOver)
      decreases 2
    {
      checkingAvailableMoves := true;
      hasMoves := MoveUp();
      if !hasMoves {
        hasMoves := MoveDown();
      }
      if !hasMoves {
        hasMoves := MoveLeft();
      }
      if !hasMoves {
        hasMoves := MoveRight();
      }
      checkingAvailableMoves := false;
    }

    /** Grid.clearMerged: every tile of the array drops its merge flag; the numbers stay. */
    method ClearMerged()
      requires Wf()
      modifies tileSet, this`marks
      ensures Wf() && board == old(board) && NoFlags(marks)
    {
      for x := 0 to dimension
        invariant Wf() && board == old(board)
        invariant forall x', y' :: 0 <= x' < x && 0 <= y' < dimension ==> !marks[x'][y']
      {
        for y := 0 to dimension
          invariant Wf() && board == old(board)
          invariant forall x', y' :: 0 <= x' < dimension && 0 <= y' < dimension && (x' < x || (x' == x && y' < y)) ==>
            !marks[x'][y']
        {
          var tile := tiles[x, y];
          if tile != null {
            tile.SetUnMerged();
            marks := Set2(marks, x, y, false);
            forall x', y' | 0 <= x' < dimension && 0 <= y' < dimension
              ensures tiles[x', y'].alreadyMerged == marks[x'][y']
            {
              if x' != x || y' != y {
                assert tiles[x', y'] != tiles[x, y];
              }
            }
          }
        }
      }
    }

    /**
     * Grid.addRandomTile: puts a 4 (one roll in ten) or a 2 on an empty cell.
     * The random cell and roll are chosen here without a distribution; Java
     * draws cells until it meets an empty one, which ends only when there is one.
     */
    method AddRandomTile()
      requires Wf() && HasEmptyCell(board)
      modifies tileSet, this`board
      ensures Wf() && marks == old(marks) && Spawned(old(board), board)
    {
      ghost var ex, ey :| 0 <= ex < |board| && 0 <= ey < |board[ex]| && board[ex][ey] == 0;
      assert tiles[ex, ey].number == 0;
      var row, column :| 0 <= row < dimension && 0 <= column < dimension && tiles[row, column].number == 0;
      var roll :| 0 <= roll < 10;
      var number := if roll == 0 then 4 else 2;
      board := Set2(board, row, column, number);
      tiles[row, column].SetNumber(number);
      forall x, y | 0 <= x < dimension && 0 <= y < dimension
        ensures tiles[x, y].number == board[x][y]
      {
        if x != row || y != column {
          assert tiles[x, y] != tiles[row, column];
        }
      }
    }
  }
}

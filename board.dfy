/**
 * The board of Grid.java as a value: g[x][y] is the number of tiles[x][y]. The
 * first index runs across the screen (it is the column of the grid pane) and
 * the second one down it, so Left and Right change x and Up and Down change y.
 */
module Boards {
  import opened Tiles
  import opened Lines

  datatype Direction = Up | Down | Left | Right

  /** The arguments Grid.moveUp, moveDown, moveLeft and moveRight pass to Grid.move. */
  function RowChange(dir: Direction): int {
    match dir
    case Left => -1
    case Right => 1
    case _ => 0
  }

  function ColumnChange(dir: Direction): int {
    match dir
    case Up => -1
    case Down => 1
    case _ => 0
  }

  predicate Reverse(dir: Direction) {
    dir == Down || dir == Right
  }

  predicate IsDirection(rowChange: int, columnChange: int, reverse: bool) {
    (rowChange, columnChange, reverse) in {(0, -1, false), (0, 1, true), (-1, 0, false), (1, 0, true)}
  }

  /** The direction a triple of arguments of Grid.move stands for. */
  function DirectionOf(rowChange: int, columnChange: int, reverse: bool): (dir: Direction)
    requires IsDirection(rowChange, columnChange, reverse)
    ensures RowChange(dir) == rowChange && ColumnChange(dir) == columnChange && Reverse(dir) == reverse
  {
    if rowChange == -1 then Left
    else if rowChange == 1 then Right
    else if columnChange == -1 then Up
    else Down
  }

  // ---------------------------------------------------------------------------
  // Lines of a board. Line L in direction dir lists its cells from the edge the
  // tiles move towards (position 0) to the opposite edge.

  function CellRow(dir: Direction, d: nat, L: nat, q: nat): nat
    requires L < d && q < d
  {
    match dir
    case Left => q
    case Right => d - 1 - q
    case _ => L
  }

  function CellColumn(dir: Direction, d: nat, L: nat, q: nat): nat
    requires L < d && q < d
  {
    match dir
    case Up => q
    case Down => d - 1 - q
    case _ => L
  }

  function LineIndex(dir: Direction, x: nat, y: nat): nat {
    if dir == Left || dir == Right then y else x
  }

  function Position(dir: Direction, d: nat, x: nat, y: nat): nat
    requires x < d && y < d
  {
    match dir
    case Left => x
    case Right => d - 1 - x
    case Up => y
    case Down => d - 1 - y
  }

  /**
   * Stepping by the arguments of the direction moves one position towards the
   * destination edge, and from position 0 it leaves the board.
   */
  lemma StepForward(dir: Direction, d: nat, L: nat, q: nat)
    requires L < d && q < d
    ensures var x, y := CellRow(dir, d, L, q) + RowChange(dir), CellColumn(dir, d, L, q) + ColumnChange(dir);
      (0 <= x < d && 0 <= y < d <==> q >= 1) &&
      (q >= 1 ==> x == CellRow(dir, d, L, q - 1) && y == CellColumn(dir, d, L, q - 1))
  {
  }

  predicate IsSquare<T>(g: seq<seq<T>>) {
    forall x :: 0 <= x < |g| ==> |g[x]| == |g|
  }

  function LineOf<T>(g: seq<seq<T>>, dir: Direction, L: nat): (r: seq<T>)
    requires IsSquare(g) && L < |g|
    ensures |r| == |g|
  {
    seq(|g|, q requires 0 <= q < |g| => g[CellRow(dir, |g|, L, q)][CellColumn(dir, |g|, L, q)])
  }

  function LinesOf<T>(g: seq<seq<T>>, dir: Direction): (r: seq<seq<T>>)
    requires IsSquare(g)
    ensures |r| == |g| && IsSquare(r)
  {
    seq(|g|, L requires 0 <= L < |g| => LineOf(g, dir, L))
  }

  /** The board whose lines in direction dir are ls. */
  function FromLines<T>(dir: Direction, ls: seq<seq<T>>): (r: seq<seq<T>>)
    requires IsSquare(ls)
    ensures |r| == |ls| && IsSquare(r)
  {
    var d := |ls|;
    seq(d, x requires 0 <= x < d => seq(d, y requires 0 <= y < d => ls[LineIndex(dir, x, y)][Position(dir, d, x, y)]))
  }

  /** A board is the board of its own lines, in every direction. */
  lemma FromLinesOf<T>(g: seq<seq<T>>, dir: Direction)
    requires IsSquare(g)
    ensures FromLines(dir, LinesOf(g, dir)) == g
  {
    var r := FromLines(dir, LinesOf(g, dir));
    forall x | 0 <= x < |g| ensures r[x] == g[x] {
      forall y | 0 <= y < |g| ensures r[x][y] == g[x][y] {
      }
    }
  }

  /** The lines of a board built from lines are those lines. */
  lemma LinesOfFrom<T>(dir: Direction, ls: seq<seq<T>>)
    requires IsSquare(ls)
    ensures LinesOf(FromLines(dir, ls), dir) == ls
  {
    var r := LinesOf(FromLines(dir, ls), dir);
    forall L | 0 <= L < |ls| ensures r[L] == ls[L] {
    }
  }

  /** The cell at position q of line L. */
  lemma FromLinesAt<T>(dir: Direction, ls: seq<seq<T>>, L: nat, q: nat)
    requires IsSquare(ls) && L < |ls| && q < |ls|
    ensures FromLines(dir, ls)[CellRow(dir, |ls|, L, q)][CellColumn(dir, |ls|, L, q)] == ls[L][q]
  {
  }

  /** The board with cell (x, y) set to v. */
  function Set2<T>(g: seq<seq<T>>, x: nat, y: nat, v: T): (r: seq<seq<T>>)
    requires x < |g| && y < |g[x]|
    ensures |r| == |g| && forall i :: 0 <= i < |g| ==> |r[i]| == |g[i]|
  {
    g[x := g[x][y := v]]
  }

  /** Writing one cell of a board writes the one position of the one line it lies on. */
  lemma FromLinesUpdate<T>(dir: Direction, ls: seq<seq<T>>, L: nat, q: nat, v: T)
    requires IsSquare(ls) && L < |ls| && q < |ls|
    ensures Set2(FromLines(dir, ls), CellRow(dir, |ls|, L, q), CellColumn(dir, |ls|, L, q), v)
         == FromLines(dir, ls[L := ls[L][q := v]])
  {
    var d := |ls|;
    var a := Set2(FromLines(dir, ls), CellRow(dir, d, L, q), CellColumn(dir, d, L, q), v);
    var b := FromLines(dir, ls[L := ls[L][q := v]]);
    forall x | 0 <= x < d ensures a[x] == b[x] {
      forall y | 0 <= y < d ensures a[x][y] == b[x][y] {
      }
    }
  }

  // ---------------------------------------------------------------------------
  // The reference meaning of a move

  /** The lines in direction dir, each collapsed. */
  function Collapsed(g: seq<seq<int>>, dir: Direction): (r: seq<seq<int>>)
    requires IsSquare(g)
    ensures |r| == |g| && IsSquare(r)
    ensures forall L :: 0 <= L < |g| ==> r[L] == Collapse(LineOf(g, dir, L))
  {
    seq(|g|, L requires 0 <= L < |g| => Collapse(LineOf(g, dir, L)))
  }

  /** The board after a move in direction dir, before the spawn: every line collapsed. */
  function Pass(g: seq<seq<int>>, dir: Direction): (r: seq<seq<int>>)
    requires IsSquare(g)
    ensures |r| == |g| && IsSquare(r)
  {
    FromLines(dir, Collapsed(g, dir))
  }

  /** The points the move earns on each line in direction dir. */
  function LineGains(g: seq<seq<int>>, dir: Direction): (r: seq<int>)
    requires IsSquare(g)
    ensures |r| == |g| && forall L :: 0 <= L < |g| ==> r[L] == Gain(LineOf(g, dir, L))
  {
    seq(|g|, L requires 0 <= L < |g| => Gain(LineOf(g, dir, L)))
  }

  /** The points a move in direction dir earns. */
  function TotalGain(g: seq<seq<int>>, dir: Direction): int
    requires IsSquare(g)
  {
    Sum(LineGains(g, dir))
  }

  /** What the dry run of Grid.move in direction dir finds: an empty or mergeable cell in front of a cell. */
  predicate Available(g: seq<seq<int>>, dir: Direction)
    requires IsSquare(g)
  {
    exists L :: 0 <= L < |g| && LineAvailable(LineOf(g, dir, L))
  }

  /** What Grid.movesAvailable computes. */
  predicate AnyAvailable(g: seq<seq<int>>)
    requires IsSquare(g)
  {
    Available(g, Up) || Available(g, Down) || Available(g, Left) || Available(g, Right)
  }

  function SumBoard(g: seq<seq<int>>): int {
    Sum(RowSums(g))
  }

  predicate HasTile(g: seq<seq<int>>) {
    exists x, y :: 0 <= x < |g| && 0 <= y < |g[x]| && g[x][y] != 0
  }

  predicate HasEmptyCell(g: seq<seq<int>>) {
    exists x, y :: 0 <= x < |g| && 0 <= y < |g[x]| && g[x][y] == 0
  }

  predicate TileBoard(g: seq<seq<int>>) {
    forall x, y :: 0 <= x < |g| && 0 <= y < |g[x]| ==> IsTileValue(g[x][y])
  }

  /** The spawn of Grid.addRandomTile: c is p with a 2 or a 4 put on one empty cell. */
  predicate Spawned(p: seq<seq<int>>, c: seq<seq<int>>) {
    exists x, y :: 0 <= x < |p| && 0 <= y < |p[x]| && p[x][y] == 0 &&
      (c == Set2(p, x, y, 2) || c == Set2(p, x, y, 4))
  }

  // ---------------------------------------------------------------------------
  // Properties of a move

  lemma LineOfPass(g: seq<seq<int>>, dir: Direction, L: nat)
    requires IsSquare(g) && L < |g|
    ensures LineOf(Pass(g, dir), dir, L) == Collapse(LineOf(g, dir, L))
  {
    LinesOfFrom(dir, Collapsed(g, dir));
    assert LineOf(Pass(g, dir), dir, L) == LinesOf(Pass(g, dir), dir)[L];
  }

  /** A move leaves the board as it is exactly when each of its lines is stable. */
  lemma PassFixedIffStable(g: seq<seq<int>>, dir: Direction)
    requires IsSquare(g)
    ensures Pass(g, dir) == g <==> forall L :: 0 <= L < |g| ==> Stable(LineOf(g, dir, L))
  {
    var cs := Collapsed(g, dir);
    if Pass(g, dir) == g {
      forall L | 0 <= L < |g| ensures Stable(LineOf(g, dir, L)) {
        LineOfPass(g, dir, L);
        CollapseFixedIffStable(LineOf(g, dir, L));
      }
    }
    if forall L :: 0 <= L < |g| ==> Stable(LineOf(g, dir, L)) {
      forall L | 0 <= L < |g| ensures cs[L] == LinesOf(g, dir)[L] {
        CollapseFixedIffStable(LineOf(g, dir, L));
      }
      assert cs == LinesOf(g, dir);
      FromLinesOf(g, dir);
    }
  }

  /** A move that leaves the board as it is earns no points. */
  lemma FixedPassGainsNothing(g: seq<seq<int>>, dir: Direction)
    requires IsSquare(g) && Pass(g, dir) == g
    ensures TotalGain(g, dir) == 0
  {
    PassFixedIffStable(g, dir);
    var gains := LineGains(g, dir);
    forall L | 0 <= L < |g| ensures gains[L] == 0 {
      StableGainsNothing(LineOf(g, dir, L));
    }
    SumZeros(gains);
  }

  /** A move that changes the board leaves an empty cell, so the spawn after it finds one. */
  lemma PassLeavesEmptyCell(g: seq<seq<int>>, dir: Direction)
    requires IsSquare(g) && Pass(g, dir) != g
    ensures HasEmptyCell(Pass(g, dir))
  {
    PassFixedIffStable(g, dir);
    var L :| 0 <= L < |g| && !Stable(LineOf(g, dir, L));
    var line := LineOf(g, dir, L);
    CollapseFixedIffStable(line);
    ChangedLineEndsEmpty(line);
    LineOfPass(g, dir, L);
    var d := |g|;
    assert Pass(g, dir)[CellRow(dir, d, L, d - 1)][CellColumn(dir, d, L, d - 1)] == 0 by {
      assert LineOf(Pass(g, dir), dir, L)[d - 1] == 0;
    }
  }

  /** Cells keep holding 0 or a power of two. */
  lemma PassTileValues(g: seq<seq<int>>, dir: Direction)
    requires IsSquare(g) && TileBoard(g)
    ensures TileBoard(Pass(g, dir))
  {
    var d := |g|;
    var p := Pass(g, dir);
    forall x, y | 0 <= x < d && 0 <= y < d ensures IsTileValue(p[x][y]) {
      var L, q := LineIndex(dir, x, y), Position(dir, d, x, y);
      var line := LineOf(g, dir, L);
      forall i | 0 <= i < d ensures IsTileValue(line[i]) {
        assert line[i] == g[CellRow(dir, d, L, i)][CellColumn(dir, d, L, i)];
      }
      CollapseTileValues(line);
      assert p[x][y] == Collapse(line)[q];
    }
  }

  /** Score never decreases: a move over tile values earns a non-negative amount. */
  lemma TotalGainNonNegative(g: seq<seq<int>>, dir: Direction)
    requires IsSquare(g) && TileBoard(g)
    ensures TotalGain(g, dir) >= 0
  {
    var d := |g|;
    var gains := LineGains(g, dir);
    forall L | 0 <= L < d ensures gains[L] >= 0 {
      var line := LineOf(g, dir, L);
      forall i | 0 <= i < d ensures line[i] >= 0 {
        assert line[i] == g[CellRow(dir, d, L, i)][CellColumn(dir, d, L, i)];
      }
      GainNonNegative(line);
    }
    SumNonNegative(gains);
  }

  /** A move keeps the sum of all cells. */
  lemma PassSum(g: seq<seq<int>>, dir: Direction)
    requires IsSquare(g)
    ensures SumBoard(Pass(g, dir)) == SumBoard(g)
  {
    var d := |g|;
    var ls := LinesOf(g, dir);
    var cs := Collapsed(g, dir);
    SumFromLines(dir, cs);
    FromLinesOf(g, dir);
    SumFromLines(dir, ls);
    forall L | 0 <= L < d ensures RowSums(cs)[L] == RowSums(ls)[L] {
      CollapseSum(LineOf(g, dir, L));
    }
    assert RowSums(cs) == RowSums(ls);
  }

  /** The spawn adds exactly 2 or 4 to the sum of all cells. */
  lemma SpawnSum(p: seq<seq<int>>, c: seq<seq<int>>)
    requires Spawned(p, c)
    ensures SumBoard(c) == SumBoard(p) + 2 || SumBoard(c) == SumBoard(p) + 4
  {
    var x, y :| 0 <= x < |p| && 0 <= y < |p[x]| && p[x][y] == 0 && (c == Set2(p, x, y, 2) || c == Set2(p, x, y, 4));
    if c == Set2(p, x, y, 2) {
      SumBoardSet(p, x, y, 2);
    } else {
      SumBoardSet(p, x, y, 4);
    }
  }

  /** Writing v into one cell changes the sum of the board by v minus the old number. */
  lemma SumBoardSet(p: seq<seq<int>>, x: nat, y: nat, v: int)
    requires x < |p| && y < |p[x]|
    ensures SumBoard(Set2(p, x, y, v)) == SumBoard(p) - p[x][y] + v
  {
    var c := Set2(p, x, y, v);
    assert c[x] == p[x][y := v];
    SumUpdate(p[x], y, v);
    var rows := RowSums(p);
    SumUpdate(rows, x, Sum(c[x]));
    assert RowSums(c) == rows[x := Sum(c[x])];
  }

  /** The spawn keeps the cells holding 0 or a power of two. */
  lemma SpawnTileValues(p: seq<seq<int>>, c: seq<seq<int>>)
    requires TileBoard(p) && Spawned(p, c)
    ensures TileBoard(c)
  {
    var x, y :| 0 <= x < |p| && 0 <= y < |p[x]| && p[x][y] == 0 && (c == Set2(p, x, y, 2) || c == Set2(p, x, y, 4));
    assert IsTileValue(4) by {
      assert IsPowerOfTwo(2);
    }
  }

  // ---------------------------------------------------------------------------
  // The dry run against the reference

  /**
   * Some direction changes the board exactly when the dry run finds a move,
   * provided the board holds a tile. The dry run also counts an empty cell in
   * front of an empty cell, so on a board without tiles it finds a move that
   * changes nothing (see EmptyBoardAvailable).
   */
  lemma AvailableIffChanges(g: seq<seq<int>>)
    requires IsSquare(g) && HasTile(g)
    ensures AnyAvailable(g) <==> exists dir :: Pass(g, dir) != g
  {
    if exists dir :: Pass(g, dir) != g {
      var dir :| Pass(g, dir) != g;
      ChangeIsAvailable(g, dir);
    }
    if AnyAvailable(g) {
      if HasEmptyCell(g) {
        EmptyCellChanges(g);
      } else {
        var dir := if Available(g, Up) then Up else if Available(g, Down) then Down
                   else if Available(g, Left) then Left else Right;
        FullAvailableChanges(g, dir);
      }
    }
  }

  /** A board with an empty cell and a tile has a direction that changes it. */
  lemma EmptyCellChanges(g: seq<seq<int>>)
    requires IsSquare(g) && HasTile(g) && HasEmptyCell(g)
    ensures exists dir :: Pass(g, dir) != g
  {
    var zx, zy :| 0 <= zx < |g| && 0 <= zy < |g[zx]| && g[zx][zy] == 0;
    var wx, wy :| 0 <= wx < |g| && 0 <= wy < |g[wx]| && g[wx][wy] != 0;
    var dir := Boundary(g, zx, zy, wx, wy);
  }

  /** On a board without empty cells, a move the dry run finds is a pair of equal tiles, which merge. */
  lemma FullAvailableChanges(g: seq<seq<int>>, dir: Direction)
    requires IsSquare(g) && !HasEmptyCell(g) && Available(g, dir)
    ensures Pass(g, dir) != g
  {
    var L :| 0 <= L < |g| && LineAvailable(LineOf(g, dir, L));
    var line := LineOf(g, dir, L);
    var k :| 0 <= k < |g| && PairAvailable(line, k);
    assert line[k] == g[CellRow(dir, |g|, L, k)][CellColumn(dir, |g|, L, k)];
    assert line[k - 1] == g[CellRow(dir, |g|, L, k - 1)][CellColumn(dir, |g|, L, k - 1)];
    assert !Stable(line);
    PassFixedIffStable(g, dir);
  }

  lemma ChangeIsAvailable(g: seq<seq<int>>, dir: Direction)
    requires IsSquare(g) && Pass(g, dir) != g
    ensures Available(g, dir) && AnyAvailable(g)
  {
    PassFixedIffStable(g, dir);
    var L :| 0 <= L < |g| && !Stable(LineOf(g, dir, L));
    UnstableIsAvailable(LineOf(g, dir, L));
  }

  /**
   * An empty cell and a tile somewhere on the board give a tile right behind an
   * empty cell in some direction; that line is not stable.
   */
  lemma Boundary(g: seq<seq<int>>, zx: nat, zy: nat, wx: nat, wy: nat) returns (dir: Direction)
    requires IsSquare(g) && zx < |g| && zy < |g| && wx < |g| && wy < |g|
    requires g[zx][zy] == 0 && g[wx][wy] != 0
    ensures Pass(g, dir) != g
    decreases (if zx < wx then wx - zx else zx - wx) + (if zy < wy then wy - zy else zy - wy)
  {
    var d := |g|;
    var nx, ny, L, k;
    if zx < wx {
      nx, ny, dir, L, k := zx + 1, zy, Left, zy, zx + 1;
    } else if zx > wx {
      nx, ny, dir, L, k := zx - 1, zy, Right, zy, d - zx;
    } else if zy < wy {
      nx, ny, dir, L, k := zx, zy + 1, Up, zx, zy + 1;
    } else {
      nx, ny, dir, L, k := zx, zy - 1, Down, zx, d - zy;
    }
    if g[nx][ny] == 0 {
      dir := Boundary(g, nx, ny, wx, wy);
    } else {
      var line := LineOf(g, dir, L);
      assert line[k - 1] == g[zx][zy] && line[k] == g[nx][ny];
      assert !Stable(line);
      PassFixedIffStable(g, dir);
    }
  }

  /**
   * On a board without tiles no move changes the board, yet from dimension 2 up
   * the dry run finds a move: an empty cell in front of an empty cell.
   */
  lemma EmptyBoardAvailable(d: nat)
    ensures AnyAvailable(EmptyBoard(d)) <==> d >= 2
    ensures forall dir :: Pass(EmptyBoard(d), dir) == EmptyBoard(d)
  {
    var g := EmptyBoard(d);
    forall dir ensures Pass(g, dir) == g {
      forall L | 0 <= L < d ensures Stable(LineOf(g, dir, L)) {
        EmptyLine(g, dir, L);
      }
      PassFixedIffStable(g, dir);
    }
    if d >= 2 {
      EmptyLine(g, Up, 0);
      assert PairAvailable(LineOf(g, Up, 0), 1);
    } else {
      forall dir, L, k | 0 <= L < d && 0 <= k < d ensures !PairAvailable(LineOf(g, dir, L), k) {
      }
    }
  }

  /** Every line of the board without tiles is empty. */
  lemma EmptyLine(g: seq<seq<int>>, dir: Direction, L: nat)
    requires g == EmptyBoard(|g|) && L < |g|
    ensures forall q :: 0 <= q < |g| ==> LineOf(g, dir, L)[q] == 0
  {
  }

  /** No two cells next to each other, across or down, hold the same number. */
  predicate NoEqualNeighbours(g: seq<seq<int>>)
    requires IsSquare(g)
  {
    (forall x, y {:trigger g[x][y]} :: 0 <= x < |g| && 0 <= y < |g| - 1 ==> g[x][y] != g[x][y + 1]) &&
    (forall x, y {:trigger g[x][y]} :: 0 <= x < |g| - 1 && 0 <= y < |g| ==> g[x][y] != g[x + 1][y])
  }

  /** A full board without equal neighbours has no move: the game is over. */
  lemma FullBoardWithoutPairs(g: seq<seq<int>>)
    requires IsSquare(g) && !HasEmptyCell(g) && NoEqualNeighbours(g)
    ensures !AnyAvailable(g)
    ensures forall dir :: Pass(g, dir) == g
  {
    forall dir, L, k | 0 <= L < |g| && 0 <= k < |g| ensures !PairAvailable(LineOf(g, dir, L), k) {
      NoPairAt(g, dir, L, k);
    }
    forall dir ensures Pass(g, dir) == g {
      if Pass(g, dir) != g {
        ChangeIsAvailable(g, dir);
      }
    }
  }

  /** Two cells next to each other on a full board without equal neighbours hold different tiles. */
  lemma NeighboursDiffer(g: seq<seq<int>>, x: nat, y: nat, x': nat, y': nat)
    requires IsSquare(g) && !HasEmptyCell(g) && NoEqualNeighbours(g)
    requires x < |g| && y < |g| && x' < |g| && y' < |g|
    requires (x' == x && (y' == y + 1 || y == y' + 1)) || (y' == y && (x' == x + 1 || x == x' + 1))
    ensures g[x][y] != 0 && g[x][y] != g[x'][y']
  {
    if x' == x && y' == y + 1 {
      assert g[x][y] != g[x][y + 1];
    } else if x' == x {
      assert g[x][y'] != g[x][y' + 1];
    } else if x' == x + 1 {
      assert g[x][y] != g[x + 1][y];
    } else {
      assert g[x'][y] != g[x' + 1][y];
    }
  }

  /** Position k of a line of a full board without equal neighbours offers no move. */
  lemma NoPairAt(g: seq<seq<int>>, dir: Direction, L: nat, k: nat)
    requires IsSquare(g) && !HasEmptyCell(g) && NoEqualNeighbours(g) && L < |g| && k < |g|
    ensures !PairAvailable(LineOf(g, dir, L), k)
  {
    if k >= 1 {
      var d := |g|;
      var line := LineOf(g, dir, L);
      var x, y := CellRow(dir, d, L, k), CellColumn(dir, d, L, k);
      var px, py := CellRow(dir, d, L, k - 1), CellColumn(dir, d, L, k - 1);
      assert line[k - 1] == g[px][py] && line[k] == g[x][y];
      NeighboursDiffer(g, px, py, x, y);
    }
  }

  /** The two-by-two board 2 4 / 4 2 is over. */
  lemma CheckerboardIsOver()
    ensures var g := [[2, 4], [4, 2]];
      IsSquare(g) && !AnyAvailable(g) && forall dir :: Pass(g, dir) == g
  {
    var g := [[2, 4], [4, 2]];
    FullBoardWithoutPairs(g);
  }

  // ---------------------------------------------------------------------------
  // Sums

  lemma {:induction false} SumNonNegative(s: seq<int>)
    requires forall i :: 0 <= i < |s| ==> s[i] >= 0
    ensures Sum(s) >= 0
  {
    if s != [] {
      SumNonNegative(s[..|s| - 1]);
    }
  }

  lemma {:induction false} SumUpdate(s: seq<int>, i: nat, v: int)
    requires i < |s|
    ensures Sum(s[i := v]) == Sum(s) - s[i] + v
  {
    var n := |s|;
    if i < n - 1 {
      assert s[i := v][..n - 1] == s[..n - 1][i := v];
      SumUpdate(s[..n - 1], i, v);
    } else {
      assert s[i := v][..n - 1] == s[..n - 1];
    }
  }

  lemma {:induction false} SumFront(x: int, s: seq<int>)
    ensures Sum([x] + s) == x + Sum(s)
  {
    if s != [] {
      assert ([x] + s)[..|s|] == [x] + s[..|s| - 1];
      SumFront(x, s[..|s| - 1]);
    }
  }

  function Reversed(s: seq<int>): (r: seq<int>)
    ensures |r| == |s|
  {
    seq(|s|, i requires 0 <= i < |s| => s[|s| - 1 - i])
  }

  lemma {:induction false} SumReversed(s: seq<int>)
    ensures Sum(Reversed(s)) == Sum(s)
  {
    if s != [] {
      var n := |s|;
      assert Reversed(s) == [s[n - 1]] + Reversed(s[..n - 1]);
      SumFront(s[n - 1], Reversed(s[..n - 1]));
      SumReversed(s[..n - 1]);
    }
  }

  /** Summing two sequences position by position sums their sums. */
  lemma {:induction false} SumAdd(a: seq<int>, b: seq<int>, c: seq<int>)
    requires |a| == |b| == |c|
    requires forall i :: 0 <= i < |c| ==> c[i] == a[i] + b[i]
    ensures Sum(c) == Sum(a) + Sum(b)
  {
    if c != [] {
      var n := |c|;
      SumAdd(a[..n - 1], b[..n - 1], c[..n - 1]);
    }
  }

  lemma {:induction false} SumZeros(s: seq<int>)
    requires forall i :: 0 <= i < |s| ==> s[i] == 0
    ensures Sum(s) == 0
  {
    if s != [] {
      SumZeros(s[..|s| - 1]);
    }
  }

  function Transpose(m: seq<seq<int>>): (r: seq<seq<int>>)
    requires IsSquare(m)
    ensures |r| == |m| && IsSquare(r)
  {
    seq(|m|, x requires 0 <= x < |m| => seq(|m|, y requires 0 <= y < |m| => m[y][x]))
  }

  function RowSums(m: seq<seq<int>>): (r: seq<int>)
    ensures |r| == |m| && forall x :: 0 <= x < |m| ==> r[x] == Sum(m[x])
  {
    seq(|m|, x requires 0 <= x < |m| => Sum(m[x]))
  }

  function Column(m: seq<seq<int>>, y: nat): (r: seq<int>)
    requires forall x :: 0 <= x < |m| ==> y < |m[x]|
    ensures |r| == |m| && forall x :: 0 <= x < |m| ==> r[x] == m[x][y]
  {
    seq(|m|, x requires 0 <= x < |m| => m[x][y])
  }

  function ColumnSums(m: seq<seq<int>>, n: nat): (r: seq<int>)
    requires forall x :: 0 <= x < |m| ==> n <= |m[x]|
    ensures |r| == n && forall y :: 0 <= y < n ==> r[y] == Sum(Column(m, y))
  {
    seq(n, y requires 0 <= y < n => Sum(Column(m, y)))
  }

  /** The sum of row sums equals the sum of column sums, for n columns. */
  lemma {:induction false} Fubini(m: seq<seq<int>>, n: nat)
    requires forall x :: 0 <= x < |m| ==> |m[x]| == n
    ensures Sum(RowSums(m)) == Sum(ColumnSums(m, n))
    decreases n
  {
    var rows := |m|;
    if n == 0 {
      SumZeros(RowSums(m));
    } else {
      var m' := seq(rows, x requires 0 <= x < rows => m[x][..n - 1]);
      Fubini(m', n - 1);
      var last := Column(m, n - 1);
      forall x | 0 <= x < rows ensures RowSums(m)[x] == RowSums(m')[x] + last[x] {
        assert m[x][..n - 1] == m'[x];
      }
      SumAdd(RowSums(m'), last, RowSums(m));
      ColumnSumsInit(m, m', n);
    }
  }

  lemma ColumnSumsInit(m: seq<seq<int>>, m': seq<seq<int>>, n: nat)
    requires n >= 1 && |m'| == |m|
    requires forall x :: 0 <= x < |m| ==> |m[x]| == n && m'[x] == m[x][..n - 1]
    ensures Sum(ColumnSums(m, n)) == Sum(ColumnSums(m', n - 1)) + Sum(Column(m, n - 1))
  {
    var cols := ColumnSums(m, n);
    forall y | 0 <= y < n - 1 ensures cols[y] == ColumnSums(m', n - 1)[y] {
      assert Column(m, y) == Column(m', y);
    }
    assert cols[..n - 1] == ColumnSums(m', n - 1);
  }

  lemma SumTranspose(m: seq<seq<int>>)
    requires IsSquare(m)
    ensures SumBoard(Transpose(m)) == SumBoard(m)
  {
    var d := |m|;
    Fubini(m, d);
    var t := Transpose(m);
    forall y | 0 <= y < d ensures Sum(t[y]) == ColumnSums(m, d)[y] {
      assert t[y] == Column(m, y);
    }
    assert RowSums(t) == ColumnSums(m, d);
    assert SumBoard(t) == Sum(RowSums(t));
    assert SumBoard(m) == Sum(RowSums(m));
  }

  /** The sum of a board built from lines is the sum of the lines, whatever the direction. */
  lemma SumFromLines(dir: Direction, ls: seq<seq<int>>)
    requires IsSquare(ls)
    ensures SumBoard(FromLines(dir, ls)) == SumBoard(ls)
  {
    FromLinesShape(dir, ls);
    match dir {
      case Up =>
      case Down =>
        SumRevLines(ls);
      case Left =>
        SumTranspose(ls);
      case Right =>
        SumRevLines(ls);
        SumTranspose(RevLines(ls));
    }
  }

  function RevLines(ls: seq<seq<int>>): (r: seq<seq<int>>)
    requires IsSquare(ls)
    ensures |r| == |ls| && IsSquare(r)
  {
    seq(|ls|, L requires 0 <= L < |ls| => Reversed(ls[L]))
  }

  lemma SumRevLines(ls: seq<seq<int>>)
    requires IsSquare(ls)
    ensures SumBoard(RevLines(ls)) == SumBoard(ls)
  {
    var rev := RevLines(ls);
    forall L | 0 <= L < |ls| ensures RowSums(rev)[L] == RowSums(ls)[L] {
      SumReversed(ls[L]);
    }
    assert RowSums(rev) == RowSums(ls);
    assert SumBoard(rev) == Sum(RowSums(rev));
    assert SumBoard(ls) == Sum(RowSums(ls));
  }

  /** The board built from lines is the lines themselves, turned and mirrored as the direction says. */
  lemma FromLinesShape(dir: Direction, ls: seq<seq<int>>)
    requires IsSquare(ls)
    ensures FromLines(dir, ls) == match dir
      case Up => ls
      case Down => RevLines(ls)
      case Left => Transpose(ls)
      case Right => Transpose(RevLines(ls))
  {
    var g := FromLines(dir, ls);
    var base := match dir
      case Up => ls
      case Down => RevLines(ls)
      case Left => Transpose(ls)
      case Right => Transpose(RevLines(ls));
    forall x | 0 <= x < |ls| ensures g[x] == base[x] {
      forall y | 0 <= y < |ls| ensures g[x][y] == base[x][y] {
      }
    }
  }

  // ---------------------------------------------------------------------------
  // The board while Grid.move runs its loops

  /**
   * How many leading positions of line L the loops of Grid.move have resolved
   * when they are about to scan the cell of iteration (i, j); (d, 0) is the end.
   */
  function Done(dir: Direction, d: nat, i: nat, j: nat, L: nat): (n: nat)
    requires L < d && ((i < d && j <= d) || (i == d && j == 0))
    ensures n <= d
  {
    match dir
    case Left => i + (if L < j then 1 else 0)
    case Right => i + (if d - 1 - L < j then 1 else 0)
    case Up => if L < i then d else if L == i then j else 0
    case Down => if d - 1 - L < i then d else if d - 1 - L == i then j else 0
  }

  /** The cell the loops of Grid.move scan at iteration (i, j). */
  function ScanIndex(dir: Direction, d: nat, i: nat): nat
    requires i < d
  {
    if Reverse(dir) then d - 1 - i else i
  }

  /**
   * Iteration (i, j) scans the next unresolved position of its line and resolves
   * it; every other line stays as it was. Iteration (i, d) is iteration (i + 1, 0).
   */
  lemma ScanStep(dir: Direction, d: nat, i: nat, j: nat)
    requires i < d && j < d
    ensures var x, y := ScanIndex(dir, d, i), ScanIndex(dir, d, j);
      var L := LineIndex(dir, x, y);
      L < d && Position(dir, d, x, y) == Done(dir, d, i, j, L) &&
      CellRow(dir, d, L, Position(dir, d, x, y)) == x && CellColumn(dir, d, L, Position(dir, d, x, y)) == y &&
      forall L' :: 0 <= L' < d ==> Done(dir, d, i, j + 1, L') == Done(dir, d, i, j, L') + (if L' == L then 1 else 0)
  {
  }

  lemma ScanBounds(dir: Direction, d: nat, i: nat)
    requires i < d
    ensures forall L :: 0 <= L < d ==> Done(dir, d, i, d, L) == Done(dir, d, i + 1, 0, L)
    ensures forall L :: 0 <= L < d ==> Done(dir, d, 0, 0, L) == 0 && Done(dir, d, d, 0, L) == d
  {
  }

  /** The lines of the original board g0 once the loops have reached iteration (i, j). */
  function PartialLines(g0: seq<seq<int>>, dir: Direction, i: nat, j: nat): (r: seq<seq<int>>)
    requires IsSquare(g0) && ((i < |g0| && j <= |g0|) || (i == |g0| && j == 0))
    ensures |r| == |g0| && IsSquare(r)
  {
    var d := |g0|;
    seq(d, L requires 0 <= L < d => PartialLine(LineOf(g0, dir, L), Done(dir, d, i, j, L)))
  }

  function PartialFlagLines(g0: seq<seq<int>>, dir: Direction, i: nat, j: nat): (r: seq<seq<bool>>)
    requires IsSquare(g0) && ((i < |g0| && j <= |g0|) || (i == |g0| && j == 0))
    ensures |r| == |g0| && IsSquare(r)
  {
    var d := |g0|;
    seq(d, L requires 0 <= L < d => PartialFlags(LineOf(g0, dir, L), Done(dir, d, i, j, L)))
  }

  /** The cells of line L of g0 that the loops have resolved by iteration (i, j), as they were before. */
  function Resolved(g0: seq<seq<int>>, dir: Direction, i: nat, j: nat, L: nat): (r: seq<int>)
    requires IsSquare(g0) && L < |g0| && ((i < |g0| && j <= |g0|) || (i == |g0| && j == 0))
    ensures |r| == Done(dir, |g0|, i, j, L)
  {
    LineOf(g0, dir, L)[..Done(dir, |g0|, i, j, L)]
  }

  /** The points earned on each line once the loops have reached iteration (i, j). */
  function PartialGains(g0: seq<seq<int>>, dir: Direction, i: nat, j: nat): (r: seq<int>)
    requires IsSquare(g0) && ((i < |g0| && j <= |g0|) || (i == |g0| && j == 0))
    ensures |r| == |g0| && forall L :: 0 <= L < |g0| ==> r[L] == Gain(Resolved(g0, dir, i, j, L))
  {
    seq(|g0|, L requires 0 <= L < |g0| => Gain(Resolved(g0, dir, i, j, L)))
  }

  /** The points earned once the loops have reached iteration (i, j). */
  function PartialGain(g0: seq<seq<int>>, dir: Direction, i: nat, j: nat): int
    requires IsSquare(g0) && ((i < |g0| && j <= |g0|) || (i == |g0| && j == 0))
  {
    Sum(PartialGains(g0, dir, i, j))
  }

  /** Some cell has changed once the loops have reached iteration (i, j). */
  predicate PartialMoved(g0: seq<seq<int>>, dir: Direction, i: nat, j: nat)
    requires IsSquare(g0) && ((i < |g0| && j <= |g0|) || (i == |g0| && j == 0))
  {
    exists L :: 0 <= L < |g0| && !Stable(Resolved(g0, dir, i, j, L))
  }

  /** The dry run has found nothing once it has reached iteration (i, j). */
  predicate NothingFound(g0: seq<seq<int>>, dir: Direction, i: nat, j: nat)
    requires IsSquare(g0) && ((i < |g0| && j <= |g0|) || (i == |g0| && j == 0))
  {
    forall L, q :: 0 <= L < |g0| && 0 <= q < Done(dir, |g0|, i, j, L) ==> !PairAvailable(LineOf(g0, dir, L), q)
  }

  /** Before the loops nothing is resolved, earned, changed or found. */
  lemma PartialStartBoard(g0: seq<seq<int>>, dir: Direction)
    requires IsSquare(g0) && |g0| > 0
    ensures FromLines(dir, PartialLines(g0, dir, 0, 0)) == g0
    ensures forall L, q :: 0 <= L < |g0| && 0 <= q < |g0| ==> !PartialFlagLines(g0, dir, 0, 0)[L][q]
    ensures PartialGain(g0, dir, 0, 0) == 0
    ensures !PartialMoved(g0, dir, 0, 0)
    ensures NothingFound(g0, dir, 0, 0)
  {
    var d := |g0|;
    ScanBounds(dir, d, 0);
    forall L | 0 <= L < d ensures PartialLines(g0, dir, 0, 0)[L] == LinesOf(g0, dir)[L] {
      PartialStart(LineOf(g0, dir, L));
    }
    assert PartialLines(g0, dir, 0, 0) == LinesOf(g0, dir);
    FromLinesOf(g0, dir);
    forall L | 0 <= L < d ensures forall q :: 0 <= q < d ==> !PartialFlagLines(g0, dir, 0, 0)[L][q] {
      PartialStart(LineOf(g0, dir, L));
    }
    var gains := PartialGains(g0, dir, 0, 0);
    forall L | 0 <= L < d ensures gains[L] == 0 && Stable(Resolved(g0, dir, 0, 0, L)) {
      assert Resolved(g0, dir, 0, 0, L) == [];
    }
    SumZeros(gains);
  }

  /** After the loops every line is collapsed: the move is the reference pass. */
  lemma PartialEndBoard(g0: seq<seq<int>>, dir: Direction)
    requires IsSquare(g0)
    ensures FromLines(dir, PartialLines(g0, dir, |g0|, 0)) == Pass(g0, dir)
    ensures PartialGain(g0, dir, |g0|, 0) == TotalGain(g0, dir)
    ensures PartialMoved(g0, dir, |g0|, 0) <==> Pass(g0, dir) != g0
    ensures NothingFound(g0, dir, |g0|, 0) <==> !Available(g0, dir)
  {
    PartialEndLines(g0, dir);
    PartialEndGain(g0, dir);
    PartialEndMoved(g0, dir);
    PartialEndFound(g0, dir);
  }

  lemma PartialEndGain(g0: seq<seq<int>>, dir: Direction)
    requires IsSquare(g0)
    ensures PartialGain(g0, dir, |g0|, 0) == TotalGain(g0, dir)
  {
    forall L | 0 <= L < |g0| ensures PartialGains(g0, dir, |g0|, 0)[L] == LineGains(g0, dir)[L] {
      PartialEndLine(g0, dir, L);
    }
    assert PartialGains(g0, dir, |g0|, 0) == LineGains(g0, dir);
  }

  lemma PartialEndMoved(g0: seq<seq<int>>, dir: Direction)
    requires IsSquare(g0)
    ensures PartialMoved(g0, dir, |g0|, 0) <==> Pass(g0, dir) != g0
  {
    forall L | 0 <= L < |g0| ensures Resolved(g0, dir, |g0|, 0, L) == LineOf(g0, dir, L) {
      PartialEndLine(g0, dir, L);
    }
    PassFixedIffStable(g0, dir);
  }

  /** After the loops every position of every line has been resolved. */
  lemma PartialEndLine(g0: seq<seq<int>>, dir: Direction, L: nat)
    requires IsSquare(g0) && L < |g0|
    ensures Done(dir, |g0|, |g0|, 0, L) == |g0|
    ensures Resolved(g0, dir, |g0|, 0, L) == LineOf(g0, dir, L)
    ensures PartialLines(g0, dir, |g0|, 0)[L] == Collapsed(g0, dir)[L]
  {
    PartialEnd(LineOf(g0, dir, L));
  }

  lemma PartialEndLines(g0: seq<seq<int>>, dir: Direction)
    requires IsSquare(g0)
    ensures PartialLines(g0, dir, |g0|, 0) == Collapsed(g0, dir)
  {
    forall L | 0 <= L < |g0| ensures PartialLines(g0, dir, |g0|, 0)[L] == Collapsed(g0, dir)[L] {
      PartialEndLine(g0, dir, L);
    }
  }

  lemma PartialEndFound(g0: seq<seq<int>>, dir: Direction)
    requires IsSquare(g0)
    ensures NothingFound(g0, dir, |g0|, 0) <==> !Available(g0, dir)
  {
    forall L | 0 <= L < |g0| ensures Done(dir, |g0|, |g0|, 0, L) == |g0| {
      PartialEndLine(g0, dir, L);
    }
  }

  /** Iteration (i, j) of the loops resolves one more position of one line and leaves the rest. */
  lemma ScanStepBoard(g0: seq<seq<int>>, dir: Direction, i: nat, j: nat, L: nat, k: nat)
    requires IsSquare(g0) && i < |g0| && j < |g0|
    requires L == LineIndex(dir, ScanIndex(dir, |g0|, i), ScanIndex(dir, |g0|, j))
    requires k == Position(dir, |g0|, ScanIndex(dir, |g0|, i), ScanIndex(dir, |g0|, j))
    ensures L < |g0| && k < |g0| && k == Done(dir, |g0|, i, j, L)
    ensures PartialLines(g0, dir, i, j)[L] == PartialLine(LineOf(g0, dir, L), k)
    ensures PartialFlagLines(g0, dir, i, j)[L] == PartialFlags(LineOf(g0, dir, L), k)
    ensures PartialLines(g0, dir, i, j + 1) == PartialLines(g0, dir, i, j)[L := PartialLine(LineOf(g0, dir, L), k + 1)]
    ensures PartialFlagLines(g0, dir, i, j + 1) == PartialFlagLines(g0, dir, i, j)[L := PartialFlags(LineOf(g0, dir, L), k + 1)]
    ensures PartialGain(g0, dir, i, j + 1) ==
      PartialGain(g0, dir, i, j) - Gain(LineOf(g0, dir, L)[..k]) + Gain(LineOf(g0, dir, L)[..k + 1])
    ensures !Stable(LineOf(g0, dir, L)[..k]) ==> PartialMoved(g0, dir, i, j)
    ensures PartialMoved(g0, dir, i, j + 1) <==> PartialMoved(g0, dir, i, j) || !Stable(LineOf(g0, dir, L)[..k + 1])
    ensures NothingFound(g0, dir, i, j + 1) <==> NothingFound(g0, dir, i, j) && !PairAvailable(LineOf(g0, dir, L), k)
  {
    ScanStep(dir, |g0|, i, j);
    ScanStepLines(g0, dir, i, j, L, k);
    ScanStepGain(g0, dir, i, j, L, k);
    ScanStepMoved(g0, dir, i, j, L, k);
    ScanStepFound(g0, dir, i, j, L, k);
  }

  lemma ScanStepLines(g0: seq<seq<int>>, dir: Direction, i: nat, j: nat, L: nat, k: nat)
    requires IsSquare(g0) && i < |g0| && j < |g0|
    requires L < |g0| && k == Done(dir, |g0|, i, j, L) && k < |g0|
    requires forall L' :: 0 <= L' < |g0| ==> Done(dir, |g0|, i, j + 1, L') == Done(dir, |g0|, i, j, L') + (if L' == L then 1 else 0)
    ensures PartialLines(g0, dir, i, j + 1) == PartialLines(g0, dir, i, j)[L := PartialLine(LineOf(g0, dir, L), k + 1)]
    ensures PartialFlagLines(g0, dir, i, j + 1) == PartialFlagLines(g0, dir, i, j)[L := PartialFlags(LineOf(g0, dir, L), k + 1)]
  {
    ScanStepNumbers(g0, dir, i, j, L, k);
    ScanStepFlags(g0, dir, i, j, L, k);
  }

  lemma ScanStepNumbers(g0: seq<seq<int>>, dir: Direction, i: nat, j: nat, L: nat, k: nat)
    requires IsSquare(g0) && i < |g0| && j < |g0|
    requires L < |g0| && k == Done(dir, |g0|, i, j, L) && k < |g0|
    requires forall L' :: 0 <= L' < |g0| ==> Done(dir, |g0|, i, j + 1, L') == Done(dir, |g0|, i, j, L') + (if L' == L then 1 else 0)
    ensures PartialLines(g0, dir, i, j + 1) == PartialLines(g0, dir, i, j)[L := PartialLine(LineOf(g0, dir, L), k + 1)]
  {
    var a, b := PartialLines(g0, dir, i, j + 1), PartialLines(g0, dir, i, j)[L := PartialLine(LineOf(g0, dir, L), k + 1)];
    forall L' | 0 <= L' < |g0| ensures a[L'] == b[L'] {
      if L' != L {
        assert Done(dir, |g0|, i, j + 1, L') == Done(dir, |g0|, i, j, L');
      }
    }
  }

  lemma ScanStepFlags(g0: seq<seq<int>>, dir: Direction, i: nat, j: nat, L: nat, k: nat)
    requires IsSquare(g0) && i < |g0| && j < |g0|
    requires L < |g0| && k == Done(dir, |g0|, i, j, L) && k < |g0|
    requires forall L' :: 0 <= L' < |g0| ==> Done(dir, |g0|, i, j + 1, L') == Done(dir, |g0|, i, j, L') + (if L' == L then 1 else 0)
    ensures PartialFlagLines(g0, dir, i, j + 1) == PartialFlagLines(g0, dir, i, j)[L := PartialFlags(LineOf(g0, dir, L), k + 1)]
  {
    var a, b := PartialFlagLines(g0, dir, i, j + 1), PartialFlagLines(g0, dir, i, j)[L := PartialFlags(LineOf(g0, dir, L), k + 1)];
    forall L' | 0 <= L' < |g0| ensures a[L'] == b[L'] {
      if L' != L {
        assert Done(dir, |g0|, i, j + 1, L') == Done(dir, |g0|, i, j, L');
      }
    }
  }

  lemma ScanStepGain(g0: seq<seq<int>>, dir: Direction, i: nat, j: nat, L: nat, k: nat)
    requires IsSquare(g0) && i < |g0| && j < |g0|
    requires L < |g0| && k == Done(dir, |g0|, i, j, L) && k < |g0|
    requires forall L' :: 0 <= L' < |g0| ==> Done(dir, |g0|, i, j + 1, L') == Done(dir, |g0|, i, j, L') + (if L' == L then 1 else 0)
    ensures PartialGain(g0, dir, i, j + 1) ==
      PartialGain(g0, dir, i, j) - Gain(LineOf(g0, dir, L)[..k]) + Gain(LineOf(g0, dir, L)[..k + 1])
  {
    var d := |g0|;
    var line := LineOf(g0, dir, L);
    var gains := PartialGains(g0, dir, i, j);
    var gains' := PartialGains(g0, dir, i, j + 1);
    var updated := gains[L := Gain(line[..k + 1])];
    forall L' | 0 <= L' < d ensures gains'[L'] == updated[L'] {
      ScanStepGainAt(g0, dir, i, j, L, k, L');
    }
    assert gains' == updated;
    SumUpdate(gains, L, Gain(line[..k + 1]));
  }

  /** One line's gain after the step: the stepped line gains one cell, every other line keeps its gain. */
  lemma ScanStepGainAt(g0: seq<seq<int>>, dir: Direction, i: nat, j: nat, L: nat, k: nat, L': nat)
    requires IsSquare(g0) && i < |g0| && j < |g0|
    requires L < |g0| && k == Done(dir, |g0|, i, j, L) && k < |g0| && L' < |g0|
    requires Done(dir, |g0|, i, j + 1, L') == Done(dir, |g0|, i, j, L') + (if L' == L then 1 else 0)
    ensures Gain(Resolved(g0, dir, i, j + 1, L')) ==
      if L' == L then Gain(LineOf(g0, dir, L)[..k + 1]) else Gain(Resolved(g0, dir, i, j, L'))
  {
  }

  lemma ScanStepMoved(g0: seq<seq<int>>, dir: Direction, i: nat, j: nat, L: nat, k: nat)
    requires IsSquare(g0) && i < |g0| && j < |g0|
    requires L < |g0| && k == Done(dir, |g0|, i, j, L) && k < |g0|
    requires forall L' :: 0 <= L' < |g0| ==> Done(dir, |g0|, i, j + 1, L') == Done(dir, |g0|, i, j, L') + (if L' == L then 1 else 0)
    ensures !Stable(LineOf(g0, dir, L)[..k]) ==> PartialMoved(g0, dir, i, j)
    ensures PartialMoved(g0, dir, i, j + 1) <==> PartialMoved(g0, dir, i, j) || !Stable(LineOf(g0, dir, L)[..k + 1])
  {
    var line := LineOf(g0, dir, L);
    assert Resolved(g0, dir, i, j, L) == line[..k];
    assert Resolved(g0, dir, i, j + 1, L) == line[..k + 1];
    if PartialMoved(g0, dir, i, j + 1) && Stable(line[..k + 1]) {
      ScanStepMovedBefore(g0, dir, i, j, L, k);
    }
    if PartialMoved(g0, dir, i, j) {
      ScanStepStillMoved(g0, dir, i, j, L, k);
    }
  }

  /** A change found after iteration (i, j) on a line still stable there was found before it. */
  lemma ScanStepMovedBefore(g0: seq<seq<int>>, dir: Direction, i: nat, j: nat, L: nat, k: nat)
    requires IsSquare(g0) && i < |g0| && j < |g0|
    requires L < |g0| && k == Done(dir, |g0|, i, j, L) && k < |g0|
    requires forall L' :: 0 <= L' < |g0| ==> Done(dir, |g0|, i, j + 1, L') == Done(dir, |g0|, i, j, L') + (if L' == L then 1 else 0)
    requires PartialMoved(g0, dir, i, j + 1) && Stable(Resolved(g0, dir, i, j + 1, L))
    ensures PartialMoved(g0, dir, i, j)
  {
    var L' :| 0 <= L' < |g0| && !Stable(Resolved(g0, dir, i, j + 1, L'));
    assert L' != L;
    assert Resolved(g0, dir, i, j, L') == Resolved(g0, dir, i, j + 1, L');
  }

  /** A line that has stopped being stable stays so, and so does the move. */
  lemma ScanStepStillMoved(g0: seq<seq<int>>, dir: Direction, i: nat, j: nat, L: nat, k: nat)
    requires IsSquare(g0) && i < |g0| && j < |g0|
    requires L < |g0| && k == Done(dir, |g0|, i, j, L) && k < |g0|
    requires forall L' :: 0 <= L' < |g0| ==> Done(dir, |g0|, i, j + 1, L') == Done(dir, |g0|, i, j, L') + (if L' == L then 1 else 0)
    requires PartialMoved(g0, dir, i, j)
    ensures PartialMoved(g0, dir, i, j + 1)
  {
    var L' :| 0 <= L' < |g0| && !Stable(Resolved(g0, dir, i, j, L'));
    var line := LineOf(g0, dir, L');
    var n := Done(dir, |g0|, i, j, L');
    if L' == L {
      UnstableExtends(line, n);
      assert Resolved(g0, dir, i, j + 1, L') == line[..n + 1];
    } else {
      assert Resolved(g0, dir, i, j + 1, L') == Resolved(g0, dir, i, j, L');
    }
  }

  lemma ScanStepFound(g0: seq<seq<int>>, dir: Direction, i: nat, j: nat, L: nat, k: nat)
    requires IsSquare(g0) && i < |g0| && j < |g0|
    requires L < |g0| && k == Done(dir, |g0|, i, j, L) && k < |g0|
    requires forall L' :: 0 <= L' < |g0| ==> Done(dir, |g0|, i, j + 1, L') == Done(dir, |g0|, i, j, L') + (if L' == L then 1 else 0)
    ensures NothingFound(g0, dir, i, j + 1) <==> NothingFound(g0, dir, i, j) && !PairAvailable(LineOf(g0, dir, L), k)
  {
    var d := |g0|;
    var line := LineOf(g0, dir, L);
    if NothingFound(g0, dir, i, j) && !PairAvailable(line, k) {
      forall L', q | 0 <= L' < d && 0 <= q < Done(dir, d, i, j + 1, L') ensures !PairAvailable(LineOf(g0, dir, L'), q) {
        if L' != L || q != k {
          assert q < Done(dir, d, i, j, L');
        }
      }
    }
  }

  /** The end of one row of iterations is the start of the next. */
  lemma ScanNextRow(g0: seq<seq<int>>, dir: Direction, i: nat)
    requires IsSquare(g0) && i < |g0|
    ensures PartialLines(g0, dir, i, |g0|) == PartialLines(g0, dir, i + 1, 0)
    ensures PartialFlagLines(g0, dir, i, |g0|) == PartialFlagLines(g0, dir, i + 1, 0)
    ensures PartialGain(g0, dir, i, |g0|) == PartialGain(g0, dir, i + 1, 0)
    ensures PartialMoved(g0, dir, i, |g0|) <==> PartialMoved(g0, dir, i + 1, 0)
    ensures NothingFound(g0, dir, i, |g0|) <==> NothingFound(g0, dir, i + 1, 0)
  {
    var d := |g0|;
    ScanBounds(dir, d, i);
    assert PartialLines(g0, dir, i, d) == PartialLines(g0, dir, i + 1, 0);
    assert PartialFlagLines(g0, dir, i, d) == PartialFlagLines(g0, dir, i + 1, 0);
    assert PartialGains(g0, dir, i, d) == PartialGains(g0, dir, i + 1, 0);
  }

  /** A move that leaves the board as it is sets no merge flag. */
  lemma FixedPassNoFlags(g0: seq<seq<int>>, dir: Direction)
    requires IsSquare(g0) && Pass(g0, dir) == g0
    ensures forall L, q :: 0 <= L < |g0| && 0 <= q < |g0| ==> !PartialFlagLines(g0, dir, |g0|, 0)[L][q]
  {
    var d := |g0|;
    if d > 0 {
      ScanBounds(dir, d, 0);
    }
    PassFixedIffStable(g0, dir);
    forall L, q | 0 <= L < d && 0 <= q < d ensures !PartialFlagLines(g0, dir, d, 0)[L][q] {
      var line := LineOf(g0, dir, L);
      PartialEnd(line);
      StablePack(line);
      assert PartialFlagLines(g0, dir, d, 0)[L] == MergedFlags(line);
    }
  }

  // ---------------------------------------------------------------------------
  // The board while the inner loop of Grid.move slides one tile

  /** Writing two cells of line L of a board writes the two positions of that line. */
  lemma LineWrite2<T>(dir: Direction, ls: seq<seq<T>>, L: nat, cur: seq<T>, p: nat, v: T, q: nat, w: T)
    requires IsSquare(ls) && L < |ls| && |cur| == |ls| && p < |ls| && q < |ls|
    ensures IsSquare(ls[L := cur])
    ensures Set2(Set2(FromLines(dir, ls[L := cur]), CellRow(dir, |ls|, L, p), CellColumn(dir, |ls|, L, p), v),
                 CellRow(dir, |ls|, L, q), CellColumn(dir, |ls|, L, q), w)
         == FromLines(dir, ls[L := cur[p := v][q := w]])
  {
    var ls1 := ls[L := cur];
    FromLinesUpdate(dir, ls1, L, p, v);
    var ls2 := ls1[L := cur[p := v]];
    FromLinesUpdate(dir, ls2, L, q, w);
    assert ls2[L := ls2[L][q := w]] == ls[L := cur[p := v][q := w]];
  }

  /** The outcome of the inner loop of Grid.move on a whole board. */
  type BoardOutcome = Outcome<seq<seq<int>>, seq<seq<bool>>>

  /**
   * The inner loop of Grid.move on board b with flags f, for the tile now at
   * position c of line L in direction dir. The cell in front is position c - 1;
   * there is none at c == 0. An empty cell in front takes the tile, which goes on
   * from there (a tile holding 0 or less changes nothing, as in chaneNumber); a
   * mergeable cell in front takes the merged tile and ends the loop; any other
   * cell ends it. A dry run stops at the first empty or mergeable cell and reports it.
   */
  function SlideFrom(b: seq<seq<int>>, f: seq<seq<bool>>, dir: Direction, L: nat, c: nat, checking: bool): (r: BoardOutcome)
    requires IsSquare(b) && IsSquare(f) && |f| == |b| && L < |b| && c < |b|
    ensures !r.moved ==> r.board == b && r.marks == f && r.gain == 0
    ensures checking ==> !r.moved
    ensures r.found ==> checking
    decreases c
  {
    var d := |b|;
    var x, y := CellRow(dir, d, L, c), CellColumn(dir, d, L, c);
    if c == 0 then Slide(b, f, 0, false, false)
    else
      var nx, ny := CellRow(dir, d, L, c - 1), CellColumn(dir, d, L, c - 1);
      if b[nx][ny] == 0 then
        if checking then Slide(b, f, 0, false, true)
        else if b[x][y] > 0 then
          SlideFrom(Set2(Set2(b, nx, ny, b[x][y]), x, y, 0), f, dir, L, c - 1, checking).(moved := true)
        else
          SlideFrom(b, f, dir, L, c - 1, checking)
      else if Mergeable(b[nx][ny], f[nx][ny], b[x][y], f[x][y]) then
        if checking then Slide(b, f, 0, false, true)
        else Slide(Set2(Set2(b, nx, ny, 2 * b[nx][ny]), x, y, 0), Set2(f, nx, ny, true), 2 * b[nx][ny], true, false)
      else
        Slide(b, f, 0, false, false)
  }

  /** The outcome of the loop for a tile, given whether the move had moved anything before it. */
  function Settled(r: BoardOutcome, moved: bool): BoardOutcome {
    r.(moved := moved || r.moved)
  }

  /** One pass of the inner loop over an empty cell in front, in a real move. */
  lemma SlideOver(b: seq<seq<int>>, f: seq<seq<bool>>, dir: Direction, L: nat, c: nat, moved: bool)
    requires IsSquare(b) && IsSquare(f) && |f| == |b| && L < |b| && 1 <= c < |b|
    requires b[CellRow(dir, |b|, L, c - 1)][CellColumn(dir, |b|, L, c - 1)] == 0
    ensures var x, y := CellRow(dir, |b|, L, c), CellColumn(dir, |b|, L, c);
      var nx, ny := CellRow(dir, |b|, L, c - 1), CellColumn(dir, |b|, L, c - 1);
      var b' := if b[x][y] > 0 then Set2(Set2(b, nx, ny, b[x][y]), x, y, 0) else b;
      Settled(SlideFrom(b, f, dir, L, c, false), moved) == Settled(SlideFrom(b', f, dir, L, c - 1, false), moved || b[x][y] > 0)
  {
  }

  /** The outcome of the inner loop on line L, written back into the board of lines ls and flags fls. */
  function Lifted(dir: Direction, ls: seq<seq<int>>, fls: seq<seq<bool>>, L: nat, r: Outcome<seq<int>, seq<bool>>): BoardOutcome
    requires IsSquare(ls) && IsSquare(fls) && L < |ls| && L < |fls| && |r.board| == |ls| && |r.marks| == |fls|
  {
    Slide(FromLines(dir, ls[L := r.board]), FromLines(dir, fls[L := r.marks]), r.gain, r.moved, r.found)
  }

  /**
   * The inner loop on a board built from lines is the inner loop on line L,
   * whose outcome is written back into line L of the numbers and of the flags.
   */
  lemma {:induction false} SlideFromLines(dir: Direction, ls: seq<seq<int>>, fls: seq<seq<bool>>, L: nat, c: nat, checking: bool)
    requires IsSquare(ls) && IsSquare(fls) && |fls| == |ls| && L < |ls| && c < |ls|
    ensures SlideFrom(FromLines(dir, ls), FromLines(dir, fls), dir, L, c, checking)
      == Lifted(dir, ls, fls, L, SlideLine(ls[L], fls[L], c, checking))
    decreases c
  {
    var cur := ls[L];
    if c >= 1 && cur[c - 1] == 0 && !checking {
      var next := if cur[c] > 0 then cur[c - 1 := cur[c]][c := 0] else cur;
      SlideFromLines(dir, ls[L := next], fls, L, c - 1, false);
      SlideIntoLifted(dir, ls, fls, L, c, next);
    } else if c >= 1 && cur[c - 1] != 0 && Mergeable(cur[c - 1], fls[L][c - 1], cur[c], fls[L][c]) && !checking {
      SlideMergesInto(dir, ls, fls, L, c);
    } else {
      SlideStops(dir, ls, fls, L, c, checking);
    }
  }

  /** The step of SlideFromLines over an empty cell in front, given the claim for the rest of the loop. */
  lemma SlideIntoLifted(dir: Direction, ls: seq<seq<int>>, fls: seq<seq<bool>>, L: nat, c: nat, next: seq<int>)
    requires IsSquare(ls) && IsSquare(fls) && |fls| == |ls| && L < |ls| && 1 <= c < |ls| && ls[L][c - 1] == 0
    requires next == if ls[L][c] > 0 then ls[L][c - 1 := ls[L][c]][c := 0] else ls[L]
    requires SlideFrom(FromLines(dir, ls[L := next]), FromLines(dir, fls), dir, L, c - 1, false)
      == Lifted(dir, ls[L := next], fls, L, SlideLine(next, fls[L], c - 1, false))
    ensures SlideFrom(FromLines(dir, ls), FromLines(dir, fls), dir, L, c, false)
      == Lifted(dir, ls, fls, L, SlideLine(ls[L], fls[L], c, false))
  {
    SlideInto(dir, ls, fls, L, c);
    var r := SlideLine(next, fls[L], c - 1, false);
    assert ls[L := next][L := r.board] == ls[L := r.board];
  }

  /** The tile goes on into the empty cell in front, on the board as on the line. */
  lemma SlideInto(dir: Direction, ls: seq<seq<int>>, fls: seq<seq<bool>>, L: nat, c: nat)
    requires IsSquare(ls) && IsSquare(fls) && |fls| == |ls| && L < |ls| && 1 <= c < |ls| && ls[L][c - 1] == 0
    ensures var cur := ls[L];
      var next := if cur[c] > 0 then cur[c - 1 := cur[c]][c := 0] else cur;
      IsSquare(ls[L := next]) &&
      SlideFrom(FromLines(dir, ls), FromLines(dir, fls), dir, L, c, false)
      == (var r := SlideFrom(FromLines(dir, ls[L := next]), FromLines(dir, fls), dir, L, c - 1, false);
          if cur[c] > 0 then r.(moved := true) else r) &&
      SlideLine(cur, fls[L], c, false)
      == (var r := SlideLine(next, fls[L], c - 1, false); if cur[c] > 0 then r.(moved := true) else r)
  {
    var cur := ls[L];
    var b, f := FromLines(dir, ls), FromLines(dir, fls);
    assert ls[L := cur] == ls;
    FromLinesAt(dir, ls, L, c);
    FromLinesAt(dir, ls, L, c - 1);
    SlideFromEmpty(b, f, dir, L, c);
    if cur[c] > 0 {
      LineWrite2(dir, ls, L, cur, c - 1, cur[c], c, 0);
    }
  }

  /** One pass of the inner loop of a real move over an empty cell in front. */
  lemma SlideFromEmpty(b: seq<seq<int>>, f: seq<seq<bool>>, dir: Direction, L: nat, c: nat)
    requires IsSquare(b) && IsSquare(f) && |f| == |b| && L < |b| && 1 <= c < |b|
    requires b[CellRow(dir, |b|, L, c - 1)][CellColumn(dir, |b|, L, c - 1)] == 0
    ensures var x, y := CellRow(dir, |b|, L, c), CellColumn(dir, |b|, L, c);
      var nx, ny := CellRow(dir, |b|, L, c - 1), CellColumn(dir, |b|, L, c - 1);
      SlideFrom(b, f, dir, L, c, false) ==
        if b[x][y] > 0 then SlideFrom(Set2(Set2(b, nx, ny, b[x][y]), x, y, 0), f, dir, L, c - 1, false).(moved := true)
        else SlideFrom(b, f, dir, L, c - 1, false)
  {
  }

  /** The tile merges into the cell in front, on the board as on the line. */
  lemma SlideMergesInto(dir: Direction, ls: seq<seq<int>>, fls: seq<seq<bool>>, L: nat, c: nat)
    requires IsSquare(ls) && IsSquare(fls) && |fls| == |ls| && L < |ls| && 1 <= c < |ls| && ls[L][c - 1] != 0
    requires Mergeable(ls[L][c - 1], fls[L][c - 1], ls[L][c], fls[L][c])
    ensures SlideFrom(FromLines(dir, ls), FromLines(dir, fls), dir, L, c, false)
      == Lifted(dir, ls, fls, L, SlideLine(ls[L], fls[L], c, false))
  {
    var cur := ls[L];
    assert ls[L := cur] == ls;
    FromLinesAt(dir, ls, L, c);
    FromLinesAt(dir, ls, L, c - 1);
    FromLinesAt(dir, fls, L, c);
    FromLinesAt(dir, fls, L, c - 1);
    LineWrite2(dir, ls, L, cur, c - 1, 2 * cur[c - 1], c, 0);
    FromLinesUpdate(dir, fls, L, c - 1, true);
  }

  /** The loop stops without changing anything, on the board as on the line. */
  lemma SlideStops(dir: Direction, ls: seq<seq<int>>, fls: seq<seq<bool>>, L: nat, c: nat, checking: bool)
    requires IsSquare(ls) && IsSquare(fls) && |fls| == |ls| && L < |ls| && c < |ls|
    requires c >= 1 && !checking ==> ls[L][c - 1] != 0 && !Mergeable(ls[L][c - 1], fls[L][c - 1], ls[L][c], fls[L][c])
    ensures SlideFrom(FromLines(dir, ls), FromLines(dir, fls), dir, L, c, checking)
      == Lifted(dir, ls, fls, L, SlideLine(ls[L], fls[L], c, checking))
  {
    assert ls[L := ls[L]] == ls && fls[L := fls[L]] == fls;
    FromLinesAt(dir, ls, L, c);
    FromLinesAt(dir, fls, L, c);
    if c >= 1 {
      FromLinesAt(dir, ls, L, c - 1);
      FromLinesAt(dir, fls, L, c - 1);
    }
  }

  /** The loop of a real move over the tile at position k, with the line resolved up to k. */
  lemma SlideResolves(dir: Direction, ls: seq<seq<int>>, fls: seq<seq<bool>>, L: nat, line: seq<int>, k: nat)
    requires IsSquare(ls) && IsSquare(fls) && |fls| == |ls| && L < |ls| && |line| == |ls| && k < |ls|
    requires ls[L] == PartialLine(line, k) && fls[L] == PartialFlags(line, k) && line[k] >= 0
    ensures var r := SlideFrom(FromLines(dir, ls), FromLines(dir, fls), dir, L, k, false);
      r.board == FromLines(dir, ls[L := PartialLine(line, k + 1)]) &&
      r.marks == FromLines(dir, fls[L := PartialFlags(line, k + 1)]) &&
      r.gain == Gain(line[..k + 1]) - Gain(line[..k]) && !r.found &&
      (!Stable(line[..k + 1]) <==> !Stable(line[..k]) || r.moved)
  {
    InFlightBegin(line, k);
    SlideLineResolves(line, k, k, ls[L], fls[L]);
    SlideFromLines(dir, ls, fls, L, k, false);
  }

  /**
   * In a dry run the loop changes nothing and finds a move exactly when the cell
   * in front of position k is empty or holds the same number, no flag being set.
   */
  lemma SlideProbe(dir: Direction, ls: seq<seq<int>>, fls: seq<seq<bool>>, L: nat, k: nat)
    requires IsSquare(ls) && IsSquare(fls) && |fls| == |ls| && L < |ls| && k < |ls|
    requires forall q :: 0 <= q < |ls| ==> !fls[L][q]
    ensures var r := SlideFrom(FromLines(dir, ls), FromLines(dir, fls), dir, L, k, true);
      r.found == PairAvailable(ls[L], k) && r.board == FromLines(dir, ls) &&
      r.marks == FromLines(dir, fls) && r.gain == 0 && !r.moved
  {
    SlideLineProbe(ls[L], fls[L], k);
    SlideFromLines(dir, ls, fls, L, k, true);
    assert ls[L := ls[L]] == ls && fls[L := fls[L]] == fls;
  }

  // ---------------------------------------------------------------------------
  // The loops of Grid.move, one iteration at a time

  predicate NoFlags(f: seq<seq<bool>>) {
    forall x, y :: 0 <= x < |f| && 0 <= y < |f[x]| ==> !f[x][y]
  }

  /**
   * The state of Grid.move on the original board g0 with flags f0 (none set)
   * when it is about to scan iteration (i, j): numbers b, flags f, points gain
   * earned since the start and the local moved. A dry run has changed nothing
   * and found nothing yet; a real move has resolved what the reference pass
   * resolves by then.
   */
  predicate ScanState(g0: seq<seq<int>>, f0: seq<seq<bool>>, dir: Direction, i: nat, j: nat, checking: bool,
                      b: seq<seq<int>>, f: seq<seq<bool>>, gain: int, moved: bool)
    requires IsSquare(g0) && ((i < |g0| && j <= |g0|) || (i == |g0| && j == 0))
  {
    if checking then
      b == g0 && f == f0 && gain == 0 && !moved && NothingFound(g0, dir, i, j)
    else
      b == FromLines(dir, PartialLines(g0, dir, i, j)) && f == FromLines(dir, PartialFlagLines(g0, dir, i, j)) &&
      gain == PartialGain(g0, dir, i, j) && moved == PartialMoved(g0, dir, i, j)
  }

  /** Two boards of flags of the same size with no flag set are the same. */
  lemma NoFlagsEqual(f: seq<seq<bool>>, f': seq<seq<bool>>)
    requires IsSquare(f) && IsSquare(f') && |f| == |f'| && NoFlags(f) && NoFlags(f')
    ensures f == f'
  {
    forall x | 0 <= x < |f| ensures f[x] == f'[x] {
      forall y | 0 <= y < |f| ensures f[x][y] == f'[x][y] {
      }
    }
  }

  /** A board of flags none of which is set is the board of the lines of such flags. */
  lemma NoFlagsFromLines(dir: Direction, fls: seq<seq<bool>>, f: seq<seq<bool>>)
    requires IsSquare(fls) && IsSquare(f) && |f| == |fls|
    requires forall L, q :: 0 <= L < |fls| && 0 <= q < |fls| ==> !fls[L][q]
    ensures NoFlags(f) <==> f == FromLines(dir, fls)
  {
    var r := FromLines(dir, fls);
    if NoFlags(f) {
      forall x | 0 <= x < |f| ensures f[x] == r[x] {
        forall y | 0 <= y < |f| ensures f[x][y] == r[x][y] {
        }
      }
    }
  }

  /** Before the first iteration, with no flag set. */
  lemma ScanBegin(g0: seq<seq<int>>, f: seq<seq<bool>>, dir: Direction, checking: bool)
    requires IsSquare(g0) && IsSquare(f) && |f| == |g0| && NoFlags(f)
    ensures ScanState(g0, f, dir, 0, 0, checking, g0, f, 0, false)
  {
    if |g0| == 0 {
      assert g0 == [] && f == [];
      assert PartialLines(g0, dir, 0, 0) == [] && PartialFlagLines(g0, dir, 0, 0) == [];
      assert FromLines(dir, PartialLines(g0, dir, 0, 0)) == [];
      assert FromLines(dir, PartialFlagLines(g0, dir, 0, 0)) == [];
    } else {
      PartialStartBoard(g0, dir);
      NoFlagsFromLines(dir, PartialFlagLines(g0, dir, 0, 0), f);
    }
  }

  /** Iteration (i, j) picks the cell at position k of line L. */
  lemma ScanPosition(dir: Direction, d: nat, i: nat, j: nat)
    requires i < d && j < d
    ensures var x, y := ScanIndex(dir, d, i), ScanIndex(dir, d, j);
      var L, k := LineIndex(dir, x, y), Position(dir, d, x, y);
      L < d && k < d && CellRow(dir, d, L, k) == x && CellColumn(dir, d, L, k) == y
  {
    ScanStep(dir, d, i, j);
  }

  /**
   * What the inner loop does at iteration (i, j), the slide of the tile at
   * position k of line L, keeps the state: a dry run finds a move only where
   * there is one and changes nothing, and a real move resolves one more position.
   */
  lemma ScanAdvance(g0: seq<seq<int>>, f0: seq<seq<bool>>, dir: Direction, i: nat, j: nat, checking: bool,
                    b: seq<seq<int>>, f: seq<seq<bool>>, gain: int, moved: bool,
                    b': seq<seq<int>>, f': seq<seq<bool>>, gain': int, moved': bool, found': bool)
    requires IsSquare(g0) && TileBoard(g0) && IsSquare(f0) && |f0| == |g0| && NoFlags(f0) && i < |g0| && j < |g0|
    requires ScanState(g0, f0, dir, i, j, checking, b, f, gain, moved)
    requires var x, y := ScanIndex(dir, |g0|, i), ScanIndex(dir, |g0|, j);
      var L, k := LineIndex(dir, x, y), Position(dir, |g0|, x, y);
      L < |g0| && k < |g0| && IsSquare(b) && IsSquare(f) && |b| == |g0| && |f| == |g0| &&
      Slide(b', f', gain', moved', found') == Settled(SlideFrom(b, f, dir, L, k, checking), moved)
    ensures found' ==> checking && Available(g0, dir) && b' == b && f' == f && gain' == 0 && !moved'
    ensures !found' ==> ScanState(g0, f0, dir, i, j + 1, checking, b', f', gain + gain', moved')
  {
    var d := |g0|;
    ScanStep(dir, d, i, j);
    var x, y := ScanIndex(dir, d, i), ScanIndex(dir, d, j);
    var L, k := LineIndex(dir, x, y), Position(dir, d, x, y);
    ScanStepBoard(g0, dir, i, j, L, k);
    if checking {
      ScanProbes(g0, f, dir, L, k);
    } else {
      assert LineOf(g0, dir, L)[k] == g0[x][y];
      ScanSlides(g0, dir, i, j, L, k);
    }
  }

  lemma ScanProbes(g0: seq<seq<int>>, f: seq<seq<bool>>, dir: Direction, L: nat, k: nat)
    requires IsSquare(g0) && IsSquare(f) && |f| == |g0| && NoFlags(f) && L < |g0| && k < |g0|
    ensures var r := SlideFrom(g0, f, dir, L, k, true);
      r.board == g0 && r.marks == f && r.gain == 0 && !r.moved &&
      (r.found <==> PairAvailable(LineOf(g0, dir, L), k)) &&
      (r.found ==> Available(g0, dir))
  {
    FromLinesOf(g0, dir);
    FromLinesOf(f, dir);
    SlideProbe(dir, LinesOf(g0, dir), LinesOf(f, dir), L, k);
  }

  lemma ScanSlides(g0: seq<seq<int>>, dir: Direction, i: nat, j: nat, L: nat, k: nat)
    requires IsSquare(g0) && i < |g0| && j < |g0| && L < |g0| && k < |g0|
    requires k == Done(dir, |g0|, i, j, L) && LineOf(g0, dir, L)[k] >= 0
    requires PartialLines(g0, dir, i, j)[L] == PartialLine(LineOf(g0, dir, L), k)
    requires PartialFlagLines(g0, dir, i, j)[L] == PartialFlags(LineOf(g0, dir, L), k)
    requires PartialLines(g0, dir, i, j + 1) == PartialLines(g0, dir, i, j)[L := PartialLine(LineOf(g0, dir, L), k + 1)]
    requires PartialFlagLines(g0, dir, i, j + 1) == PartialFlagLines(g0, dir, i, j)[L := PartialFlags(LineOf(g0, dir, L), k + 1)]
    requires PartialGain(g0, dir, i, j + 1) ==
      PartialGain(g0, dir, i, j) - Gain(LineOf(g0, dir, L)[..k]) + Gain(LineOf(g0, dir, L)[..k + 1])
    requires !Stable(LineOf(g0, dir, L)[..k]) ==> PartialMoved(g0, dir, i, j)
    requires PartialMoved(g0, dir, i, j + 1) <==> PartialMoved(g0, dir, i, j) || !Stable(LineOf(g0, dir, L)[..k + 1])
    ensures var r := SlideFrom(FromLines(dir, PartialLines(g0, dir, i, j)), FromLines(dir, PartialFlagLines(g0, dir, i, j)), dir, L, k, false);
      !r.found && r.board == FromLines(dir, PartialLines(g0, dir, i, j + 1)) &&
      r.marks == FromLines(dir, PartialFlagLines(g0, dir, i, j + 1)) &&
      PartialGain(g0, dir, i, j) + r.gain == PartialGain(g0, dir, i, j + 1) &&
      (PartialMoved(g0, dir, i, j) || r.moved <==> PartialMoved(g0, dir, i, j + 1))
  {
    SlideResolves(dir, PartialLines(g0, dir, i, j), PartialFlagLines(g0, dir, i, j), L, LineOf(g0, dir, L), k);
  }

  /** The end of one row of iterations is the start of the next. */
  lemma ScanRowEnd(g0: seq<seq<int>>, f0: seq<seq<bool>>, dir: Direction, i: nat, checking: bool,
                   b: seq<seq<int>>, f: seq<seq<bool>>, gain: int, moved: bool)
    requires IsSquare(g0) && i < |g0|
    requires ScanState(g0, f0, dir, i, |g0|, checking, b, f, gain, moved)
    ensures ScanState(g0, f0, dir, i + 1, 0, checking, b, f, gain, moved)
  {
    ScanNextRow(g0, dir, i);
  }

  /**
   * After the last iteration a dry run has found no move at all, and a real move
   * has made the reference pass, earned its points, and set its local moved
   * exactly when the board changed; when it did not, nothing has changed.
   */
  lemma ScanEnd(g0: seq<seq<int>>, f0: seq<seq<bool>>, dir: Direction, checking: bool,
                b: seq<seq<int>>, f: seq<seq<bool>>, gain: int, moved: bool)
    requires IsSquare(g0) && IsSquare(f0) && |f0| == |g0| && NoFlags(f0)
    requires ScanState(g0, f0, dir, |g0|, 0, checking, b, f, gain, moved)
    ensures checking ==> !Available(g0, dir)
    ensures !checking ==> b == Pass(g0, dir) && gain == TotalGain(g0, dir) && (moved <==> Pass(g0, dir) != g0)
    ensures !checking && !moved ==> b == g0 && f == f0 && gain == 0
  {
    PartialEndBoard(g0, dir);
    if !checking && !moved {
      FixedPassNoFlags(g0, dir);
      FixedPassGainsNothing(g0, dir);
      NoFlagsFromLines(dir, PartialFlagLines(g0, dir, |g0|, 0), f0);
    }
  }

  /** The board of a grid before its first spawn. */
  function EmptyBoard(d: nat): (r: seq<seq<int>>)
    ensures |r| == d && IsSquare(r)
  {
    seq(d, x => seq(d, y => 0))
  }
}

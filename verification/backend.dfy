/**
 * The server engine: one game of 2048 per session, with the same moves as
 * the browser engine written with per-line merge flags, a ten-deep undo
 * history, and the monotonicity measure of the server's AI.  Every random
 * draw is a parameter in [0, 1).
 */
module BackEnd {
  import opened Lines
  import opened Board

  // ---------------------------------------------------------------------
  // The merge loops with their merge flags
  // ---------------------------------------------------------------------

  /**
   * The merge toward the front, with a flag per index that marks a tile made
   * by a merge.  A flag is only ever set at the index just scanned, so the
   * indices the scan still tests carry no flag and the flags never block a
   * merge: the result is the flagless pass.
   */
  method MergeFlaggedFromFront(tiles: seq<nat>, size: nat) returns (row: seq<nat>, gain: nat)
    requires |tiles| <= size
    ensures row == MergeLeft(tiles) && gain == MergeGain(tiles)
  {
    row, gain := tiles, 0;
    var merged := seq(size, _ => false);
    var j := 0;
    while j < |row| - 1
      invariant 0 <= j <= |row| <= size && |merged| == size
      invariant forall k :: j <= k < size ==> !merged[k]
      invariant row[..j] + MergeLeft(row[j..]) == MergeLeft(tiles)
      invariant gain + MergeGain(row[j..]) == MergeGain(tiles)
      decreases |row| - j
    {
      ghost var before := row;
      if row[j] == row[j + 1] && !merged[j] && !merged[j + 1] {
        row := row[j := row[j] * 2];
        gain := gain + row[j];
        merged := merged[j := true];
        row := row[..j + 1] + row[j + 2..];
        FrontMergeStep(before, j, row);
      } else {
        FrontSkipStep(row, j);
      }
      j := j + 1;
    }
    assert MergeLeft(row[j..]) == row[j..] && MergeGain(row[j..]) == 0;
    assert row[..j] + row[j..] == row;
  }

  /**
   * The merge toward the back with merge flags: a flag is set at the index
   * just scanned and the scan then moves two places down, so the flags are
   * never tested where they are set.
   */
  method MergeFlaggedFromBack(tiles: seq<nat>, size: nat) returns (row: seq<nat>, gain: nat)
    requires |tiles| <= size
    ensures row == MergeRight(tiles) && gain == MergeRightGain(tiles)
  {
    row, gain := tiles, 0;
    var merged := seq(size, _ => false);
    var j: int := |row| - 1;
    assert row[..j + 1] == row;
    while j > 0
      invariant -1 <= j < |row| <= size && |merged| == size
      invariant forall k :: 0 <= k <= j ==> !merged[k]
      invariant MergeRight(row[..j + 1]) + row[j + 1..] == MergeRight(tiles)
      invariant MergeRightGain(row[..j + 1]) + gain == MergeRightGain(tiles)
      decreases j
    {
      ghost var before := row;
      if row[j] == row[j - 1] && !merged[j] && !merged[j - 1] {
        row := row[j := row[j] * 2];
        gain := gain + row[j];
        merged := merged[j := true];
        row := row[..j - 1] + row[j..];
        BackMergeStep(before, j, row);
        j := j - 1;
      } else {
        BackSkipStep(row, j);
      }
      j := j - 1;
    }
    assert MergeRight(row[..j + 1]) == row[..j + 1] && MergeRightGain(row[..j + 1]) == 0;
    assert row[..j + 1] + row[j + 1..] == row;
  }

  /** A line of a left or up move: the tiles, the flagged merge from the front, zeros appended. */
  method SlideFlaggedLeft(line: seq<nat>, size: nat) returns (newLine: seq<nat>, inc: nat)
    requires |line| == size
    ensures Slid(newLine, inc) == SlideLeft(line)
  {
    newLine := Compact(line);
    newLine, inc := MergeFlaggedFromFront(newLine, size);
    newLine := PadEnd(newLine, size);
  }

  /** A line of a right or down move: the tiles, the flagged merge from the back, zeros inserted in front. */
  method SlideFlaggedRight(line: seq<nat>, size: nat) returns (newLine: seq<nat>, inc: nat)
    requires |line| == size
    ensures Slid(newLine, inc) == SlideRight(line)
  {
    newLine := Compact(line);
    newLine, inc := MergeFlaggedFromBack(newLine, size);
    newLine := PadStart(newLine, size);
  }

  /** Column j of an up move: the flagged slide of the column towards the top. */
  method SlideColumnUp(g: Grid, j: nat, size: nat) returns (newCol: seq<nat>, inc: nat)
    requires IsGrid(g, size) && j < size
    ensures Slid(newCol, inc) == SlideToward(Column(g, j), Up)
  {
    newCol, inc := SlideFlaggedLeft(Column(g, j), size);
  }

  /** Column j of a down move: the flagged slide of the column towards the bottom. */
  method SlideColumnDown(g: Grid, j: nat, size: nat) returns (newCol: seq<nat>, inc: nat)
    requires IsGrid(g, size) && j < size
    ensures Slid(newCol, inc) == SlideToward(Column(g, j), Down)
  {
    newCol, inc := SlideFlaggedRight(Column(g, j), size);
  }

  /** The loop of move_left: each row slid with the flagged merge, the points added up. */
  method SweepRowsLeft(grid: Grid, size: nat) returns (g: Grid, gained: nat, moved: bool)
    requires IsGrid(grid, size)
    ensures RowsDone(grid, Left, size, g, gained, moved)
  {
    g, gained, moved := grid, 0, false;
    var i := 0;
    while i < size
      invariant i <= size && RowsDone(grid, Left, i, g, gained, moved)
    {
      RowsDoneShape(grid, Left, i, g, gained, moved);
      var original := g[i];
      var newRow, inc := SlideFlaggedLeft(original, size);
      RowStep(grid, Left, i, g, gained, moved, newRow, inc);
      gained := gained + inc;
      if newRow != original {
        moved := true;
      }
      g := g[i := newRow];
      i := i + 1;
    }
  }

  /** The loop of move_right: each row slid with the flagged merge from the back, the points added up. */
  method SweepRowsRight(grid: Grid, size: nat) returns (g: Grid, gained: nat, moved: bool)
    requires IsGrid(grid, size)
    ensures RowsDone(grid, Right, size, g, gained, moved)
  {
    g, gained, moved := grid, 0, false;
    var i := 0;
    while i < size
      invariant i <= size && RowsDone(grid, Right, i, g, gained, moved)
    {
      RowsDoneShape(grid, Right, i, g, gained, moved);
      var original := g[i];
      var newRow, inc := SlideFlaggedRight(original, size);
      RowStep(grid, Right, i, g, gained, moved, newRow, inc);
      gained := gained + inc;
      if newRow != original {
        moved := true;
      }
      g := g[i := newRow];
      i := i + 1;
    }
  }

  /** The loop of move_up: each column slid towards the top and written back, the points added up. */
  method SweepColumnsUp(grid: Grid, size: nat) returns (g: Grid, gained: nat, moved: bool)
    requires IsGrid(grid, size)
    ensures ColumnsDone(grid, Up, size, g, gained, moved)
  {
    g, gained, moved := grid, 0, false;
    ColumnsStart(grid, Up);
    var j := 0;
    while j < size
      invariant j <= size && ColumnsDone(grid, Up, j, g, gained, moved)
    {
      ColumnsDoneShape(grid, Up, j, g, gained, moved);
      var newCol, inc := SlideColumnUp(g, j, size);
      var g', moved' := WriteColumn(g, j, newCol, moved);
      ColumnStep(grid, Up, j, g, gained, moved, newCol, inc, g', moved');
      g, gained, moved := g', gained + inc, moved';
      j := j + 1;
    }
  }

  /** The loop of move_down: each column slid towards the bottom and written back, the points added up. */
  method SweepColumnsDown(grid: Grid, size: nat) returns (g: Grid, gained: nat, moved: bool)
    requires IsGrid(grid, size)
    ensures ColumnsDone(grid, Down, size, g, gained, moved)
  {
    g, gained, moved := grid, 0, false;
    ColumnsStart(grid, Down);
    var j := 0;
    while j < size
      invariant j <= size && ColumnsDone(grid, Down, j, g, gained, moved)
    {
      ColumnsDoneShape(grid, Down, j, g, gained, moved);
      var newCol, inc := SlideColumnDown(g, j, size);
      var g', moved' := WriteColumn(g, j, newCol, moved);
      ColumnStep(grid, Down, j, g, gained, moved, newCol, inc, g', moved');
      g, gained, moved := g', gained + inc, moved';
      j := j + 1;
    }
  }

  // ---------------------------------------------------------------------
  // The game
  // ---------------------------------------------------------------------

  /** One server-side game: its board, its score and its undo history. */
  class Game2048 {
    const gridSize: nat
    var grid: Grid
    var score: nat
    var gameHistory: seq<Snapshot>

    /** An empty board of the given size (4 unless the caller says otherwise), score 0, no history. */
    constructor (gridSize: nat)
      ensures this.gridSize == gridSize && Valid()
      ensures grid == EmptyGrid(gridSize) && score == 0 && gameHistory == []
    {
      this.gridSize := gridSize;
      grid := EmptyGrid(gridSize);
      score := 0;
      gameHistory := [];
    }

    /** The board is gridSize by gridSize, and so is every saved board; at most ten are saved. */
    ghost predicate Valid()
      reads this
    {
      IsGrid(grid, gridSize) && |gameHistory| <= HistoryLimit &&
      forall k :: 0 <= k < |gameHistory| ==> IsGrid(gameHistory[k].grid, gridSize)
    }

    /** A new game: empty board, score and history cleared, two tiles spawned. */
    method InitializeGame(cell1: real, tile1: real, cell2: real, tile2: real)
      requires IsDraw(cell1) && IsDraw(cell2)
      modifies this`grid, this`score, this`gameHistory
      ensures Valid() && score == 0 && gameHistory == []
      ensures grid == Spawn(Spawn(EmptyGrid(gridSize), cell1, tile1), cell2, tile2)
    {
      grid := EmptyGrid(gridSize);
      score := 0;
      gameHistory := [];
      AddRandomTile(cell1, tile1);
      AddRandomTile(cell2, tile2);
    }

    /** Spawn a 2 (or, one time in ten, a 4) on an empty cell chosen by the draw, if there is one. */
    method AddRandomTile(cell: real, tile: real)
      requires Valid() && IsDraw(cell)
      modifies this`grid
      ensures Valid() && grid == Spawn(old(grid), cell, tile)
    {
      var emptyCells := CollectEmptyCells(grid, gridSize);
      if |emptyCells| > 0 {
        var (i, j) := emptyCells[Pick(cell, |emptyCells|)];
        assert (i, j) in EmptyCells(grid);
        var row: seq<nat> := grid[i][j := NewTile(tile)];
        grid := grid[i := row];
      }
    }

    /** Push a copy of the board and score; past ten entries the oldest is dropped. */
    method SaveState()
      requires Valid()
      modifies this`gameHistory
      ensures Valid()
      ensures gameHistory == Record(old(gameHistory), Snapshot(grid, score))
    {
      var state := Snapshot(grid, score);
      gameHistory := gameHistory + [state];
      if |gameHistory| > HistoryLimit {
        gameHistory := gameHistory[1..];
      }
    }

    /** Pop the newest saved board and score back into place; false when there is none. */
    method UndoMove() returns (undone: bool)
      requires Valid()
      modifies this`grid, this`score, this`gameHistory
      ensures Valid()
      ensures undone == (old(gameHistory) != [])
      ensures !undone ==> grid == old(grid) && score == old(score) && gameHistory == []
      ensures undone ==>
        var last := old(gameHistory)[|old(gameHistory)| - 1];
        gameHistory == old(gameHistory)[..|old(gameHistory)| - 1] &&
        grid == last.grid && score == last.score
    {
      if |gameHistory| > 0 {
        var lastState := gameHistory[|gameHistory| - 1];
        gameHistory := gameHistory[..|gameHistory| - 1];
        grid := lastState.grid;
        score := lastState.score;
        return true;
      }
      return false;
    }

    method MoveLeft() returns (moved: bool)
      requires Valid()
      modifies this`grid, this`score
      ensures Valid()
      ensures grid == MoveGrid(old(grid), Left) && score == old(score) + MoveGain(old(grid), Left)
      ensures moved == Changes(old(grid), Left)
    {
      var newGrid, gained;
      newGrid, gained, moved := SweepRowsLeft(grid, gridSize);
      RowsFinished(grid, Left, newGrid, gained, moved);
      grid, score := newGrid, score + gained;
    }

    method MoveRight() returns (moved: bool)
      requires Valid()
      modifies this`grid, this`score
      ensures Valid()
      ensures grid == MoveGrid(old(grid), Right) && score == old(score) + MoveGain(old(grid), Right)
      ensures moved == Changes(old(grid), Right)
    {
      var newGrid, gained;
      newGrid, gained, moved := SweepRowsRight(grid, gridSize);
      RowsFinished(grid, Right, newGrid, gained, moved);
      grid, score := newGrid, score + gained;
    }

    method MoveUp() returns (moved: bool)
      requires Valid()
      modifies this`grid, this`score
      ensures Valid()
      ensures grid == MoveGrid(old(grid), Up) && score == old(score) + MoveGain(old(grid), Up)
      ensures moved == Changes(old(grid), Up)
    {
      var newGrid, gained;
      newGrid, gained, moved := SweepColumnsUp(grid, gridSize);
      ColumnsFinished(grid, Up, newGrid, gained, moved);
      grid, score := newGrid, score + gained;
    }

    method MoveDown() returns (moved: bool)
      requires Valid()
      modifies this`grid, this`score
      ensures Valid()
      ensures grid == MoveGrid(old(grid), Down) && score == old(score) + MoveGain(old(grid), Down)
      ensures moved == Changes(old(grid), Down)
    {
      var newGrid, gained;
      newGrid, gained, moved := SweepColumnsDown(grid, gridSize);
      ColumnsFinished(grid, Down, newGrid, gained, moved);
      grid, score := newGrid, score + gained;
    }

    /** Try the direction's move; an unknown direction moves nothing. */
    method Dispatch(direction: string) returns (moved: bool)
      requires Valid()
      modifies this`grid, this`score
      ensures Valid()
      ensures ParseDirection(direction).None? ==> !moved && grid == old(grid) && score == old(score)
      ensures ParseDirection(direction).Some? ==>
        var d := ParseDirection(direction).value;
        grid == MoveGrid(old(grid), d) && score == old(score) + MoveGain(old(grid), d) &&
        moved == Changes(old(grid), d)
    {
      moved := false;
      if direction == "left" {
        moved := MoveLeft();
      } else if direction == "right" {
        moved := MoveRight();
      } else if direction == "up" {
        moved := MoveUp();
      } else if direction == "down" {
        moved := MoveDown();
      }
    }

    /**
     * One move: save the state, move, then spawn a tile if anything moved or
     * drop the saved state if nothing did.
     */
    method MakeMove(direction: string, cell: real, tile: real) returns (moved: bool)
      requires Valid() && IsDraw(cell)
      modifies this`grid, this`score, this`gameHistory
      ensures Valid()
      ensures moved == (ParseDirection(direction).Some? && Changes(old(grid), ParseDirection(direction).value))
      ensures moved ==>
        var d := ParseDirection(direction).value;
        grid == Spawn(MoveGrid(old(grid), d), cell, tile) &&
        score == old(score) + MoveGain(old(grid), d) &&
        gameHistory == Record(old(gameHistory), Snapshot(old(grid), old(score)))
      ensures moved ==> OneTileAdded(MoveGrid(old(grid), ParseDirection(direction).value), grid)
      ensures !moved ==>
        grid == old(grid) && score == old(score) &&
        gameHistory == if |old(gameHistory)| < HistoryLimit then old(gameHistory) else old(gameHistory)[1..]
    {
      SaveState();
      moved := Dispatch(direction);
      if moved {
        AddRandomTile(cell, tile);
        CommittedMoveAddsTile(old(grid), ParseDirection(direction).value, cell, tile);
      } else {
        if ParseDirection(direction).Some? {
          StillMoveScoresNothing(old(grid), ParseDirection(direction).value);
        }
        UnmovedHistory(old(gameHistory), Snapshot(old(grid), old(score)));
        if |gameHistory| > 0 {
          gameHistory := gameHistory[..|gameHistory| - 1];
        }
      }
    }

    /** Over when no cell is empty and no two neighbours, across or down, are equal. */
    method IsGameOver() returns (over: bool)
      requires Valid()
      ensures over == Stuck(grid)
    {
      over := ScanGameOver(grid, gridSize);
    }

    /** The board, the score and whether the game is over. */
    method GetGameState() returns (state: GameView)
      requires Valid()
      ensures state == GameView(grid, score, Stuck(grid))
    {
      var over := IsGameOver();
      state := GameView(grid, score, over);
    }
  }

  /**
   * A move that moves, then an undo, gives back the board and the score from
   * before the move.  The history comes back too, except that a full history
   * has lost its oldest entry to the save.
   */
  method MoveThenUndo(game: Game2048, direction: string, cell: real, tile: real) returns (moved: bool)
    requires game.Valid() && IsDraw(cell)
    modifies game
    ensures game.Valid()
    ensures game.grid == old(game.grid) && game.score == old(game.score)
    ensures game.gameHistory ==
      if |old(game.gameHistory)| < HistoryLimit then old(game.gameHistory) else old(game.gameHistory)[1..]
  {
    moved := game.MakeMove(direction, cell, tile);
    if moved {
      UnmovedHistory(old(game.gameHistory), Snapshot(old(game.grid), old(game.score)));
      var undone := game.UndoMove();
    }
  }

  // ---------------------------------------------------------------------
  // Monotonicity, the AI's measure of how orderly the lines are
  // ---------------------------------------------------------------------

  /** Among the first k cells of a line, the steps up from one cell to the next. */
  function Rises(line: seq<nat>, k: nat): nat
    requires k <= |line|
  {
    if k <= 1 then 0 else Rises(line, k - 1) + (if line[k - 1] > line[k - 2] then 1 else 0)
  }

  /** Among the first k cells of a line, the steps down from one cell to the next. */
  function Falls(line: seq<nat>, k: nat): nat
    requires k <= |line|
  {
    if k <= 1 then 0 else Falls(line, k - 1) + (if line[k - 1] < line[k - 2] then 1 else 0)
  }

  function Max(a: nat, b: nat): nat
  {
    if a >= b then a else b
  }

  /** A line scores the larger of its count of steps up and its count of steps down. */
  function LineMonotonicity(line: seq<nat>): nat
  {
    Max(Rises(line, |line|), Falls(line, |line|))
  }

  function RowsMonotonicity(g: Grid, i: nat): nat
    requires Square(g) && i <= |g|
  {
    if i == 0 then 0 else RowsMonotonicity(g, i - 1) + LineMonotonicity(g[i - 1])
  }

  function ColumnsMonotonicity(g: Grid, j: nat): nat
    requires Square(g) && j <= |g|
  {
    if j == 0 then 0 else ColumnsMonotonicity(g, j - 1) + LineMonotonicity(Column(g, j - 1))
  }

  /** The grid's score: the line scores of all rows and all columns added up. */
  function Monotonicity(g: Grid): nat
    requires Square(g)
  {
    RowsMonotonicity(g, |g|) + ColumnsMonotonicity(g, |g|)
  }

  /**
   * The scoring loops over rows, then over columns (the column count is read
   * from the first row, so the grid must have one).
   */
  method CalculateMonotonicity(grid: Grid) returns (monotonicity: nat)
    requires Square(grid) && |grid| > 0
    ensures monotonicity == Monotonicity(grid)
  {
    monotonicity := 0;
    var i := 0;
    while i < |grid|
      invariant i <= |grid| && monotonicity == RowsMonotonicity(grid, i)
    {
      var increasing, decreasing := 0, 0;
      var j := 1;
      while j < |grid[i]|
        invariant 1 <= j <= |grid[i]|
        invariant increasing == Rises(grid[i], j) && decreasing == Falls(grid[i], j)
      {
        if grid[i][j] > grid[i][j - 1] {
          increasing := increasing + 1;
        } else if grid[i][j] < grid[i][j - 1] {
          decreasing := decreasing + 1;
        }
        j := j + 1;
      }
      monotonicity := monotonicity + Max(increasing, decreasing);
      i := i + 1;
    }
    var j := 0;
    while j < |grid[0]|
      invariant j <= |grid[0]|
      invariant monotonicity == RowsMonotonicity(grid, |grid|) + ColumnsMonotonicity(grid, j)
    {
      var increasing, decreasing := 0, 0;
      ghost var column := Column(grid, j);
      i := 1;
      while i < |grid|
        invariant 1 <= i <= |grid|
        invariant increasing == Rises(column, i) && decreasing == Falls(column, i)
      {
        assert column[i] == grid[i][j] && column[i - 1] == grid[i - 1][j];
        if grid[i][j] > grid[i - 1][j] {
          increasing := increasing + 1;
        } else if grid[i][j] < grid[i - 1][j] {
          decreasing := decreasing + 1;
        }
        i := i + 1;
      }
      monotonicity := monotonicity + Max(increasing, decreasing);
      j := j + 1;
    }
  }

  lemma {:induction false} StepsBound(line: seq<nat>, k: nat)
    requires 1 <= k <= |line|
    ensures Rises(line, k) + Falls(line, k) <= k - 1
  {
    if k > 1 {
      StepsBound(line, k - 1);
    }
  }

  /** A line of n >= 1 cells scores at most n - 1. */
  lemma LineMonotonicityBound(line: seq<nat>)
    requires |line| >= 1
    ensures LineMonotonicity(line) <= |line| - 1
  {
    StepsBound(line, |line|);
  }

  lemma {:induction false} RowsBound(g: Grid, i: nat)
    requires Square(g) && |g| >= 1 && i <= |g|
    ensures RowsMonotonicity(g, i) <= i * (|g| - 1)
  {
    if i > 0 {
      RowsBound(g, i - 1);
      LineMonotonicityBound(g[i - 1]);
      var n := |g| - 1;
      assert i * n == (i - 1) * n + n;
    }
  }

  lemma {:induction false} ColumnsBound(g: Grid, j: nat)
    requires Square(g) && |g| >= 1 && j <= |g|
    ensures ColumnsMonotonicity(g, j) <= j * (|g| - 1)
  {
    if j > 0 {
      ColumnsBound(g, j - 1);
      LineMonotonicityBound(Column(g, j - 1));
      var n := |g| - 1;
      assert j * n == (j - 1) * n + n;
    }
  }

  /** An n by n grid scores between 0 and 2 n (n - 1). */
  lemma MonotonicityBound(g: Grid)
    requires Square(g)
    ensures 0 <= Monotonicity(g) <= 2 * (|g| * (|g| - 1))
  {
    if |g| >= 1 {
      RowsBound(g, |g|);
      ColumnsBound(g, |g|);
    }
  }

  lemma {:induction false} FlatLine(line: seq<nat>, k: nat)
    requires k <= |line| && forall a, b :: 0 <= a < |line| && 0 <= b < |line| ==> line[a] == line[b]
    ensures Rises(line, k) == 0 && Falls(line, k) == 0
  {
    if k > 1 {
      FlatLine(line, k - 1);
    }
  }

  lemma {:induction false} FlatRows(g: Grid, v: nat, i: nat)
    requires Square(g) && i <= |g|
    requires forall a, b :: 0 <= a < |g| && 0 <= b < |g| ==> g[a][b] == v
    ensures RowsMonotonicity(g, i) == 0
  {
    if i > 0 {
      FlatRows(g, v, i - 1);
      FlatLine(g[i - 1], |g|);
    }
  }

  lemma {:induction false} FlatColumns(g: Grid, v: nat, j: nat)
    requires Square(g) && j <= |g|
    requires forall a, b :: 0 <= a < |g| && 0 <= b < |g| ==> g[a][b] == v
    ensures ColumnsMonotonicity(g, j) == 0
  {
    if j > 0 {
      FlatColumns(g, v, j - 1);
      FlatLine(Column(g, j - 1), |g|);
    }
  }

  /** A grid whose cells all hold the same value scores 0. */
  lemma FlatGridScoresZero(g: Grid, v: nat)
    requires Square(g)
    requires forall a, b :: 0 <= a < |g| && 0 <= b < |g| ==> g[a][b] == v
    ensures Monotonicity(g) == 0
  {
    FlatRows(g, v, |g|);
    FlatColumns(g, v, |g|);
  }
}

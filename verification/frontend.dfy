/**
 * The browser engine: the local game state the page plays on when no server
 * is reachable, with its human board, its undo history and the AI board of
 * the versus mode.  Every random draw is a parameter in [0, 1).
 */
module FrontEnd {
  import opened Lines
  import opened Board
  import opened Heuristic

  // ---------------------------------------------------------------------
  // The loops of the four moves, written once for the human and the AI board
  // ---------------------------------------------------------------------

  /**
   * The merge toward the front: scanning from the first tile, two equal
   * neighbours become one doubled tile, the second is cut out of the list and
   * the scan goes on after the doubled tile.
   */
  method MergeFromFront(tiles: seq<nat>) returns (row: seq<nat>, gain: nat)
    ensures row == MergeLeft(tiles) && gain == MergeGain(tiles)
  {
    row, gain := tiles, 0;
    var j := 0;
    while j < |row| - 1
      invariant 0 <= j <= |row|
      invariant row[..j] + MergeLeft(row[j..]) == MergeLeft(tiles)
      invariant gain + MergeGain(row[j..]) == MergeGain(tiles)
      decreases |row| - j
    {
      ghost var before := row;
      if row[j] == row[j + 1] {
        row := row[j := row[j] * 2];
        gain := gain + row[j];
        row := row[..j + 1] + row[j + 2..];
        FrontMergeStep(before, j, row);
      } else {
        FrontSkipStep(row, j);
      }
      j := j + 1;
    }
    assert MergeLeft(row[j..]) == row[j..] && MergeGain(row[j..]) == 0;
    assert row[..j] + row[j..] == row;
  }

  /**
   * The merge toward the back: scanning from the last tile, two equal
   * neighbours become one doubled tile, the first of them is cut out and the
   * scan skips the pair.
   */
  method MergeFromBack(tiles: seq<nat>) returns (row: seq<nat>, gain: nat)
    ensures row == MergeRight(tiles) && gain == MergeRightGain(tiles)
  {
    row, gain := tiles, 0;
    var j: int := |row| - 1;
    assert row[..j + 1] == row;
    while j > 0
      invariant -1 <= j < |row|
      invariant MergeRight(row[..j + 1]) + row[j + 1..] == MergeRight(tiles)
      invariant MergeRightGain(row[..j + 1]) + gain == MergeRightGain(tiles)
      decreases j
    {
      ghost var before := row;
      if row[j] == row[j - 1] {
        row := row[j := row[j] * 2];
        gain := gain + row[j];
        row := row[..j - 1] + row[j..];
        BackMergeStep(before, j, row);
        j := j - 1;
      } else {
        BackSkipStep(row, j);
      }
      j := j - 1;
    }
    assert MergeRight(row[..j + 1]) == row[..j + 1] && MergeRightGain(row[..j + 1]) == 0;
    assert row[..j + 1] + row[j + 1..] == row;
  }

  /** Write row i back cell by cell, noting whether any cell changed. */
  method WriteRow(g: Grid, i: nat, row: seq<nat>, moved: bool) returns (r: Grid, moved': bool)
    requires Square(g) && i < |g| && |row| == |g|
    ensures r == g[i := row]
    ensures moved' == (moved || row != g[i])
  {
    r, moved' := g, moved;
    var j := 0;
    assert row[..0] + g[i][0..] == g[i];
    while j < |row|
      invariant j <= |row| && |r| == |g|
      invariant r[i] == row[..j] + g[i][j..]
      invariant forall k :: 0 <= k < |g| && k != i ==> r[k] == g[k]
      invariant moved' == (moved || exists b :: 0 <= b < j && row[b] != g[i][b])
    {
      if r[i][j] != row[j] {
        moved' := true;
      }
      SpliceStep(row, g[i], j);
      r := r[i := r[i][j := row[j]]];
      j := j + 1;
    }
    assert row[..j] + g[i][j..] == row;
    assert r == g[i := row];
    if row != g[i] {
      var b :| 0 <= b < |row| && row[b] != g[i][b];
    }
  }

  /** Overwriting entry j of a half-written row writes one more entry. */
  lemma SpliceStep(row: seq<nat>, prev: seq<nat>, j: nat)
    requires j < |row| == |prev|
    ensures (row[..j] + prev[j..])[j := row[j]] == row[..j + 1] + prev[j + 1..]
  {
  }

  /** The column loop: the non-empty cells of column j, top to bottom. */
  method CollectColumn(g: Grid, j: nat, size: nat) returns (col: seq<nat>)
    requires IsGrid(g, size) && j < size
    ensures col == Compact(Column(g, j))
  {
    col := [];
    var i := 0;
    while i < size
      invariant i <= size
      invariant col == Compact(Column(g, j)[..i])
    {
      assert Column(g, j)[..i + 1] == Column(g, j)[..i] + [g[i][j]];
      CompactAppend(Column(g, j)[..i], [g[i][j]]);
      if g[i][j] != 0 {
        col := col + [g[i][j]];
      }
      i := i + 1;
    }
    assert Column(g, j)[..size] == Column(g, j);
  }

  /** The empty board a game starts from, built row by row. */
  method ZeroGrid(size: nat) returns (g: Grid)
    ensures g == EmptyGrid(size)
  {
    g := [];
    var i := 0;
    while i < size
      invariant i <= size && |g| == i
      invariant forall a :: 0 <= a < i ==> g[a] == Zeros(size)
    {
      var row: seq<nat> := [];
      var j := 0;
      while j < size
        invariant j <= size && row == Zeros(j)
      {
        row := row + [0];
        j := j + 1;
      }
      g := g + [row];
      i := i + 1;
    }
    assert IsGrid(g, size);
    GridsEqual(g, EmptyGrid(size), size);
  }

  /** One row of a left move: squeeze out the empty cells, merge from the front, pad the end. */
  method SlideRowLeft(line: seq<nat>, size: nat) returns (row: seq<nat>, inc: nat)
    requires |line| == size
    ensures Slid(row, inc) == SlideLeft(line)
  {
    row := Compact(line);
    row, inc := MergeFromFront(row);
    row := PadEnd(row, size);
  }

  /** One row of a right move: squeeze out the empty cells, merge from the back, pad the start. */
  method SlideRowRight(line: seq<nat>, size: nat) returns (row: seq<nat>, inc: nat)
    requires |line| == size
    ensures Slid(row, inc) == SlideRight(line)
  {
    row := Compact(line);
    row, inc := MergeFromBack(row);
    row := PadStart(row, size);
  }

  /** One column of an up move: gather its tiles, merge them from the top, pad the bottom. */
  method SlideColumnUp(g: Grid, j: nat, size: nat) returns (col: seq<nat>, inc: nat)
    requires IsGrid(g, size) && j < size
    ensures Slid(col, inc) == SlideToward(Column(g, j), Up)
  {
    col := CollectColumn(g, j, size);
    col, inc := MergeFromFront(col);
    col := PadEnd(col, size);
  }

  /** One column of a down move: gather its tiles, merge them from the bottom, pad the top. */
  method SlideColumnDown(g: Grid, j: nat, size: nat) returns (col: seq<nat>, inc: nat)
    requires IsGrid(g, size) && j < size
    ensures Slid(col, inc) == SlideToward(Column(g, j), Down)
  {
    col := CollectColumn(g, j, size);
    col, inc := MergeFromBack(col);
    col := PadStart(col, size);
  }

  /** Left: squeeze each row, merge it from the front, pad its end, write it back. */
  method ShiftRowsLeft(g: Grid, size: nat) returns (r: Grid, gain: nat, moved: bool)
    requires IsGrid(g, size)
    ensures r == MoveGrid(g, Left) && gain == MoveGain(g, Left)
    ensures moved == Changes(g, Left)
  {
    r, gain, moved := SweepRowsLeft(g, size);
    RowsFinished(g, Left, r, gain, moved);
  }

  /** The loop of ShiftRowsLeft: every row in turn. */
  method SweepRowsLeft(g: Grid, size: nat) returns (r: Grid, gain: nat, moved: bool)
    requires IsGrid(g, size)
    ensures RowsDone(g, Left, size, r, gain, moved)
  {
    r, gain, moved := g, 0, false;
    var i := 0;
    while i < size
      invariant i <= size && RowsDone(g, Left, i, r, gain, moved)
    {
      RowsDoneShape(g, Left, i, r, gain, moved);
      var row, inc := SlideRowLeft(r[i], size);
      RowStep(g, Left, i, r, gain, moved, row, inc);
      gain := gain + inc;
      r, moved := WriteRow(r, i, row, moved);
      i := i + 1;
    }
  }

  /** Right: squeeze each row, merge it from the back, pad its start, write it back. */
  method ShiftRowsRight(g: Grid, size: nat) returns (r: Grid, gain: nat, moved: bool)
    requires IsGrid(g, size)
    ensures r == MoveGrid(g, Right) && gain == MoveGain(g, Right)
    ensures moved == Changes(g, Right)
  {
    r, gain, moved := SweepRowsRight(g, size);
    RowsFinished(g, Right, r, gain, moved);
  }

  /** The loop of ShiftRowsRight: every row in turn. */
  method SweepRowsRight(g: Grid, size: nat) returns (r: Grid, gain: nat, moved: bool)
    requires IsGrid(g, size)
    ensures RowsDone(g, Right, size, r, gain, moved)
  {
    r, gain, moved := g, 0, false;
    var i := 0;
    while i < size
      invariant i <= size && RowsDone(g, Right, i, r, gain, moved)
    {
      RowsDoneShape(g, Right, i, r, gain, moved);
      var row, inc := SlideRowRight(r[i], size);
      RowStep(g, Right, i, r, gain, moved, row, inc);
      gain := gain + inc;
      r, moved := WriteRow(r, i, row, moved);
      i := i + 1;
    }
  }

  /** Up: gather each column's tiles, merge them from the top, pad the bottom, write the column back. */
  method ShiftColumnsUp(g: Grid, size: nat) returns (r: Grid, gain: nat, moved: bool)
    requires IsGrid(g, size)
    ensures r == MoveGrid(g, Up) && gain == MoveGain(g, Up)
    ensures moved == Changes(g, Up)
  {
    r, gain, moved := SweepColumnsUp(g, size);
    ColumnsFinished(g, Up, r, gain, moved);
  }

  /** The loop of ShiftColumnsUp: every column in turn. */
  method SweepColumnsUp(g: Grid, size: nat) returns (r: Grid, gain: nat, moved: bool)
    requires IsGrid(g, size)
    ensures ColumnsDone(g, Up, size, r, gain, moved)
  {
    r, gain, moved := g, 0, false;
    ColumnsStart(g, Up);
    var j := 0;
    while j < size
      invariant j <= size && ColumnsDone(g, Up, j, r, gain, moved)
    {
      ColumnsDoneShape(g, Up, j, r, gain, moved);
      var col, inc := SlideColumnUp(r, j, size);
      var r', moved' := WriteColumn(r, j, col, moved);
      ColumnStep(g, Up, j, r, gain, moved, col, inc, r', moved');
      r, gain, moved := r', gain + inc, moved';
      j := j + 1;
    }
  }

  /** Down: gather each column's tiles, merge them from the bottom, pad the top, write the column back. */
  method ShiftColumnsDown(g: Grid, size: nat) returns (r: Grid, gain: nat, moved: bool)
    requires IsGrid(g, size)
    ensures r == MoveGrid(g, Down) && gain == MoveGain(g, Down)
    ensures moved == Changes(g, Down)
  {
    r, gain, moved := SweepColumnsDown(g, size);
    ColumnsFinished(g, Down, r, gain, moved);
  }

  /** The loop of ShiftColumnsDown: every column in turn. */
  method SweepColumnsDown(g: Grid, size: nat) returns (r: Grid, gain: nat, moved: bool)
    requires IsGrid(g, size)
    ensures ColumnsDone(g, Down, size, r, gain, moved)
  {
    r, gain, moved := g, 0, false;
    ColumnsStart(g, Down);
    var j := 0;
    while j < size
      invariant j <= size && ColumnsDone(g, Down, j, r, gain, moved)
    {
      ColumnsDoneShape(g, Down, j, r, gain, moved);
      var col, inc := SlideColumnDown(r, j, size);
      var r', moved' := WriteColumn(r, j, col, moved);
      ColumnStep(g, Down, j, r, gain, moved, col, inc, r', moved');
      r, gain, moved := r', gain + inc, moved';
      j := j + 1;
    }
  }

  // ---------------------------------------------------------------------
  // The local game state
  // ---------------------------------------------------------------------

  /** The AI's board in versus mode: a grid and a score, nothing else. */
  class AiGame {
    var grid: Grid
    var score: nat

    constructor ()
      ensures grid == [] && score == 0
    {
      grid := [];
      score := 0;
    }
  }

  /** What the AI reports after playing: its move and its board. */
  datatype AiMove = AiMove(move: Direction, gameState: GameView)

  /**
   * The local game state of the page: the human board, its score and its
   * undo history, the AI difficulty and, in versus mode, the AI board.
   */
  class EnhancedGameState {
    var gridSize: nat
    var grid: Grid
    var score: nat
    var gameHistory: seq<Snapshot>
    var aiDifficulty: string
    var aiGame: AiGame?

    /** The state before any game is created: size 4, no grid, medium difficulty, no AI board. */
    constructor ()
      ensures gridSize == 4 && grid == [] && score == 0 && gameHistory == []
      ensures aiDifficulty == "medium" && aiGame == null
    {
      gridSize := 4;
      grid := [];
      score := 0;
      gameHistory := [];
      aiDifficulty := "medium";
      aiGame := null;
    }

    /** The human board is gridSize by gridSize, and so is every saved board; at most ten are saved. */
    ghost predicate Valid()
      reads this
    {
      IsGrid(grid, gridSize) && |gameHistory| <= HistoryLimit &&
      forall k :: 0 <= k < |gameHistory| ==> IsGrid(gameHistory[k].grid, gridSize)
    }

    /** There is an AI board, of the human board's size. */
    ghost predicate AiReady()
      reads this, aiGame
    {
      aiGame != null && IsGrid(aiGame.grid, gridSize)
    }

    /** A new game: empty board of the given size, two tiles spawned, score and history cleared. */
    method CreateLocalGame(size: nat, cell1: real, tile1: real, cell2: real, tile2: real) returns (view: GameView)
      requires IsDraw(cell1) && IsDraw(cell2)
      modifies this`gridSize, this`grid, this`score, this`gameHistory
      ensures Valid() && gridSize == size && score == 0 && gameHistory == []
      ensures grid == Spawn(Spawn(EmptyGrid(size), cell1, tile1), cell2, tile2)
      ensures view == GameView(grid, 0, false)
    {
      gridSize := size;
      grid := [];
      score := 0;
      gameHistory := [];
      grid := ZeroGrid(size);
      AddRandomTileLocal(cell1, tile1);
      AddRandomTileLocal(cell2, tile2);
      view := GameView(grid, score, false);
    }

    /** Spawn a 2 (or, one time in ten, a 4) on an empty cell picked by the draw, if there is one. */
    method AddRandomTileLocal(cell: real, tile: real)
      requires Valid() && IsDraw(cell)
      modifies this`grid
      ensures Valid() && grid == Spawn(old(grid), cell, tile)
    {
      var emptyCells := CollectEmptyCells(grid, gridSize);
      if |emptyCells| > 0 {
        var randomCell := emptyCells[Pick(cell, |emptyCells|)];
        assert randomCell in EmptyCells(grid);
        var row: seq<nat> := grid[randomCell.0][randomCell.1 := NewTile(tile)];
        grid := grid[randomCell.0 := row];
      }
    }

    /**
     * One human move: save the board, move, then spawn a tile if anything
     * moved or drop the saved board if nothing did.  The dispatch on the
     * direction is the one of TestLocalMove: an unknown direction moves nothing.
     */
    method MakeLocalMove(direction: string, cell: real, tile: real) returns (moved: bool, gameState: GameView)
      requires Valid() && IsDraw(cell)
      modifies this`grid, this`score, this`gameHistory
      ensures Valid()
      ensures moved == (ParseDirection(direction).Some? && Changes(old(grid), ParseDirection(direction).value))
      ensures moved ==>
        var d := ParseDirection(direction).value;
        grid == Spawn(MoveGrid(old(grid), d), cell, tile) &&
        score == old(score) + MoveGain(old(grid), d) &&
        gameHistory == Record(old(gameHistory), Snapshot(old(grid), old(score)))
      ensures moved ==> OneTileAdded(MoveGrid(old(grid), ParseDirection(direction).value), grid)
      ensures !moved ==>
        grid == old(grid) && score == old(score) &&
        gameHistory == if |old(gameHistory)| < HistoryLimit then old(gameHistory) else old(gameHistory)[1..]
      ensures gameState == GameView(grid, score, Stuck(grid))
    {
      gameHistory := gameHistory + [Snapshot(grid, score)];
      if |gameHistory| > HistoryLimit {
        gameHistory := gameHistory[1..];
      }
      moved := TestLocalMove(direction);
      if moved {
        ghost var d := ParseDirection(direction).value;
        assert score == old(score) + MoveGain(old(grid), d);
        AddRandomTileLocal(cell, tile);
        CommittedMoveAddsTile(old(grid), d, cell, tile);
      } else {
        if ParseDirection(direction).Some? {
          StillMoveScoresNothing(old(grid), ParseDirection(direction).value);
        }
        UnmovedHistory(old(gameHistory), Snapshot(old(grid), old(score)));
        gameHistory := gameHistory[..|gameHistory| - 1];
      }
      var over := IsGameOverLocal();
      gameState := GameView(grid, score, over);
    }

    method MoveLeftLocal() returns (moved: bool)
      requires Valid()
      modifies this`grid, this`score
      ensures Valid()
      ensures grid == MoveGrid(old(grid), Left) && score == old(score) + MoveGain(old(grid), Left)
      ensures moved == Changes(old(grid), Left)
    {
      var g, gain;
      g, gain, moved := ShiftRowsLeft(grid, gridSize);
      grid, score := g, score + gain;
    }

    method MoveRightLocal() returns (moved: bool)
      requires Valid()
      modifies this`grid, this`score
      ensures Valid()
      ensures grid == MoveGrid(old(grid), Right) && score == old(score) + MoveGain(old(grid), Right)
      ensures moved == Changes(old(grid), Right)
    {
      var g, gain;
      g, gain, moved := ShiftRowsRight(grid, gridSize);
      grid, score := g, score + gain;
    }

    method MoveUpLocal() returns (moved: bool)
      requires Valid()
      modifies this`grid, this`score
      ensures Valid()
      ensures grid == MoveGrid(old(grid), Up) && score == old(score) + MoveGain(old(grid), Up)
      ensures moved == Changes(old(grid), Up)
    {
      var g, gain;
      g, gain, moved := ShiftColumnsUp(grid, gridSize);
      grid, score := g, score + gain;
    }

    method MoveDownLocal() returns (moved: bool)
      requires Valid()
      modifies this`grid, this`score
      ensures Valid()
      ensures grid == MoveGrid(old(grid), Down) && score == old(score) + MoveGain(old(grid), Down)
      ensures moved == Changes(old(grid), Down)
    {
      var g, gain;
      g, gain, moved := ShiftColumnsDown(grid, gridSize);
      grid, score := g, score + gain;
    }

    /** Pop the newest saved board and score back into place; nothing to undo gives no state. */
    method UndoLocalMove() returns (gameState: Option<GameView>)
      requires gameHistory == [] || Valid()
      modifies this`grid, this`score, this`gameHistory
      ensures old(Valid()) ==> Valid()
      ensures old(gameHistory) == [] ==>
        gameState == None && grid == old(grid) && score == old(score) && gameHistory == []
      ensures old(gameHistory) != [] ==>
        var previous := old(gameHistory)[|old(gameHistory)| - 1];
        gameHistory == old(gameHistory)[..|old(gameHistory)| - 1] &&
        grid == previous.grid && score == previous.score &&
        gameState == Some(GameView(grid, score, Stuck(grid)))
    {
      if |gameHistory| > 0 {
        var previousState := gameHistory[|gameHistory| - 1];
        gameHistory := gameHistory[..|gameHistory| - 1];
        grid := previousState.grid;
        score := previousState.score;
        var over := IsGameOverLocal();
        return Some(GameView(grid, score, over));
      }
      return None;
    }

    /** Over when no cell is empty and no two neighbours, across or down, are equal. */
    method IsGameOverLocal() returns (over: bool)
      requires Valid()
      ensures over == Stuck(grid)
    {
      over := ScanGameOver(grid, gridSize);
    }

    /** Try a move on the board itself; an unknown direction moves nothing. */
    method TestLocalMove(direction: string) returns (moved: bool)
      requires ParseDirection(direction).None? || Valid()
      modifies this`grid, this`score
      ensures old(Valid()) ==> Valid()
      ensures ParseDirection(direction).None? ==> !moved && grid == old(grid) && score == old(score)
      ensures ParseDirection(direction).Some? ==>
        var d := ParseDirection(direction).value;
        grid == MoveGrid(old(grid), d) && score == old(score) + MoveGain(old(grid), d) &&
        moved == Changes(old(grid), d)
    {
      if direction == "left" {
        moved := MoveLeftLocal();
      } else if direction == "right" {
        moved := MoveRightLocal();
      } else if direction == "up" {
        moved := MoveUpLocal();
      } else if direction == "down" {
        moved := MoveDownLocal();
      } else {
        moved := false;
      }
    }

    /** Try a direction on a copy of the board: whether it moves; the board is put back. */
    method ProbeLocalMove(direction: Direction) returns (moved: bool)
      requires Valid()
      modifies this`grid, this`score
      ensures Valid() && grid == old(grid) && score == old(score)
      ensures moved == Changes(grid, direction)
    {
      var gridCopy, scoreCopy := grid, score;
      ParseName(direction);
      moved := TestLocalMove(Name(direction));
      grid, score := gridCopy, scoreCopy;
    }

    /** A random move among those that change the board, tried in the order up, down, left, right. */
    method GetLocalHint(pick: real) returns (hint: Option<Direction>)
      requires Valid() && IsDraw(pick)
      modifies this`grid, this`score
      ensures Valid()
      ensures grid == old(grid) && score == old(score)
      ensures hint == Hint(grid, pick)
    {
      var validMoves: seq<Direction> := [];
      var directions := Order;
      for k := 0 to 4
        invariant Valid() && grid == old(grid) && score == old(score)
        invariant validMoves == ValidMovesFrom(grid, k)
      {
        var direction := directions[k];
        var moved := ProbeLocalMove(direction);
        assert ValidMovesFrom(grid, k + 1) == ValidMovesFrom(grid, k) + if moved then [direction] else [];
        if moved {
          validMoves := validMoves + [direction];
        }
      }
      if |validMoves| > 0 {
        hint := Some(validMoves[Pick(pick, |validMoves|)]);
      } else {
        hint := None;
      }
    }
  
    // -------------------------------------------------------------------
    // Versus mode: the AI board
    // -------------------------------------------------------------------

    /**
     * A versus game: a new human game, then an AI board of the same size
     * with two tiles of its own, and the difficulty the AI will play at.
     */
    method CreateLocalVSGame(size: nat, difficulty: string,
                             cell1: real, tile1: real, cell2: real, tile2: real,
                             cell3: real, tile3: real, cell4: real, tile4: real)
      returns (humanState: GameView, aiState: GameView)
      requires IsDraw(cell1) && IsDraw(cell2) && IsDraw(cell3) && IsDraw(cell4)
      modifies this
      ensures Valid() && AiReady() && fresh(aiGame)
      ensures gridSize == size && score == 0 && gameHistory == [] && aiDifficulty == difficulty
      ensures grid == Spawn(Spawn(EmptyGrid(size), cell1, tile1), cell2, tile2)
      ensures aiGame.grid == Spawn(Spawn(EmptyGrid(size), cell3, tile3), cell4, tile4) && aiGame.score == 0
      ensures humanState == GameView(grid, 0, false) && aiState == GameView(aiGame.grid, 0, false)
    {
      humanState := CreateLocalGame(size, cell1, tile1, cell2, tile2);
      aiGame := new AiGame();
      var empty := ZeroGrid(size);
      aiGame.grid := empty;
      AddRandomTileAI(cell3, tile3);
      AddRandomTileAI(cell4, tile4);
      aiDifficulty := difficulty;
      aiState := GameView(aiGame.grid, aiGame.score, false);
    }

    /** Spawn a tile on the AI board, as AddRandomTileLocal does on the human one. */
    method AddRandomTileAI(cell: real, tile: real)
      requires AiReady() && IsDraw(cell)
      modifies aiGame`grid
      ensures AiReady() && aiGame.grid == Spawn(old(aiGame.grid), cell, tile)
    {
      var emptyCells := CollectEmptyCells(aiGame.grid, gridSize);
      if |emptyCells| > 0 {
        var randomCell := emptyCells[Pick(cell, |emptyCells|)];
        assert randomCell in EmptyCells(aiGame.grid);
        var row: seq<nat> := aiGame.grid[randomCell.0][randomCell.1 := NewTile(tile)];
        aiGame.grid := aiGame.grid[randomCell.0 := row];
      }
    }

    /**
     * The AI's turn: pick a direction as the scan below does, play it on the
     * AI board and spawn a tile.  The board it reports is never marked over.
     */
    method GetLocalAIMove(difficulty: string, bonus: seq<real>, cell: real, tile: real) returns (result: Option<AiMove>)
      requires AiReady() && AreDraws(bonus) && IsDraw(cell)
      modifies aiGame
      ensures AiReady()
      ensures AiChoice(old(aiGame.grid), difficulty, bonus).None? ==>
        result == None && aiGame.grid == old(aiGame.grid) && aiGame.score == old(aiGame.score)
      ensures AiChoice(old(aiGame.grid), difficulty, bonus).Some? ==>
        var d := AiChoice(old(aiGame.grid), difficulty, bonus).value;
        aiGame.grid == Spawn(MoveGrid(old(aiGame.grid), d), cell, tile) &&
        aiGame.score == old(aiGame.score) + MoveGain(old(aiGame.grid), d) &&
        result == Some(AiMove(d, GameView(aiGame.grid, aiGame.score, false)))
      ensures AiChoice(old(aiGame.grid), difficulty, bonus).Some? ==>
        OneTileAdded(MoveGrid(old(aiGame.grid), AiChoice(old(aiGame.grid), difficulty, bonus).value), aiGame.grid)
    {
      var bestMove := ScanAIMoves(difficulty, bonus);
      if bestMove.Some? {
        AiChoiceMoves(aiGame.grid, difficulty, bonus);
        ParseName(bestMove.value);
        var moved := MakeAILocalMove(Name(bestMove.value));
        if moved {
          AddRandomTileAI(cell, tile);
          CommittedMoveAddsTile(old(aiGame.grid), bestMove.value, cell, tile);
        }
        result := Some(AiMove(bestMove.value, GameView(aiGame.grid, aiGame.score, false)));
      } else {
        result := None;
      }
    }

    /**
     * The AI's scan: try each direction in the order up, down, left, right on
     * the AI board, rate each one that moves, keep it when its rating is
     * strictly above the best so far, and put the board back.
     */
    method ScanAIMoves(difficulty: string, bonus: seq<real>) returns (bestMove: Option<Direction>)
      requires AiReady() && AreDraws(bonus)
      modifies aiGame
      ensures AiReady() && aiGame.grid == old(aiGame.grid) && aiGame.score == old(aiGame.score)
      ensures bestMove == AiChoice(aiGame.grid, difficulty, bonus)
    {
      var directions := Order;
      bestMove := None;
      var bestScore: real := -1.0;
      ghost var moves, ratings := Moving(aiGame.grid), Ratings(aiGame.grid, difficulty, bonus);
      ghost var bestIndex: Option<nat> := None;
      for k := 0 to 4
        invariant AiReady() && aiGame.grid == old(aiGame.grid) && aiGame.score == old(aiGame.score)
        invariant bestIndex.Some? ==> bestIndex.value < 4
        invariant bestMove == if bestIndex.None? then None else Some(Order[bestIndex.value])
        invariant BestFrom(moves, ratings, k, bestScore, bestIndex) == BestFrom(moves, ratings, 0, -1.0, None)
      {
        var direction := directions[k];
        var moved, score := RateAIMove(direction, difficulty, bonus[k]);
        assert moved == moves[k] && (moved ==> score == ratings[k]);
        if moved {
          if score > bestScore {
            bestScore := score;
            bestMove := Some(direction);
            bestIndex := Some(k);
          }
        }
      }
    }

    /**
     * One direction of the AI's scan: play it on the AI board, rate it when
     * it moves (the points, ten per empty cell, the random bonus), then put
     * the board and the score back.
     */
    method RateAIMove(direction: Direction, difficulty: string, r: real) returns (moved: bool, score: real)
      requires AiReady()
      modifies aiGame
      ensures AiReady() && aiGame.grid == old(aiGame.grid) && aiGame.score == old(aiGame.score)
      ensures moved == Changes(aiGame.grid, direction)
      ensures moved ==> score == Rating(aiGame.grid, direction, difficulty, r)
    {
      var gridCopy, scoreCopy := aiGame.grid, aiGame.score;
      ParseName(direction);
      moved := MakeAILocalMove(Name(direction));
      score := 0.0;
      if moved {
        score := (aiGame.score - scoreCopy) as real;
        var emptyCells := CountEmptyCellsAI();
        score := score + (emptyCells * 10) as real;
        if difficulty == "easy" {
          score := score + r * 100.0;
        } else if difficulty == "medium" {
          score := score + r * 50.0;
        }
      }
      aiGame.grid, aiGame.score := gridCopy, scoreCopy;
    }

    /**
     * A move on the AI board, through the same loops as the human moves and
     * with the human board's size; an unknown direction moves nothing.
     */
    method MakeAILocalMove(direction: string) returns (moved: bool)
      requires AiReady()
      modifies aiGame
      ensures AiReady()
      ensures ParseDirection(direction).None? ==>
        !moved && aiGame.grid == old(aiGame.grid) && aiGame.score == old(aiGame.score)
      ensures ParseDirection(direction).Some? ==>
        var d := ParseDirection(direction).value;
        aiGame.grid == MoveGrid(old(aiGame.grid), d) &&
        aiGame.score == old(aiGame.score) + MoveGain(old(aiGame.grid), d) &&
        moved == Changes(old(aiGame.grid), d)
    {
      moved := false;
      var grid := aiGame.grid;
      var size := gridSize;
      var gain := 0;
      if direction == "left" {
        grid, gain, moved := ShiftRowsLeft(grid, size);
      } else if direction == "right" {
        grid, gain, moved := ShiftRowsRight(grid, size);
      } else if direction == "up" {
        grid, gain, moved := ShiftColumnsUp(grid, size);
      } else if direction == "down" {
        grid, gain, moved := ShiftColumnsDown(grid, size);
      }
      aiGame.grid, aiGame.score := grid, aiGame.score + gain;
    }

    /** The number of empty cells on the AI board. */
    method CountEmptyCellsAI() returns (count: nat)
      requires AiReady()
      ensures count == |EmptyCells(aiGame.grid)|
    {
      count := 0;
      var i := 0;
      while i < gridSize
        invariant i <= gridSize
        invariant count == |EmptyInRows(aiGame.grid, i)|
      {
        var j := 0;
        while j < gridSize
          invariant j <= gridSize
          invariant count == |EmptyInRows(aiGame.grid, i)| + |EmptyInRow(aiGame.grid, i, j)|
        {
          if aiGame.grid[i][j] == 0 {
            count := count + 1;
          }
          j := j + 1;
        }
        i := i + 1;
      }
    }
  }

  /**
   * A move that moves, then an undo, gives back the board and the score from
   * before the move.  The history comes back too, except that a full history
   * has lost its oldest entry to the push.
   */
  method MoveThenUndo(game: EnhancedGameState, direction: string, cell: real, tile: real) returns (moved: bool)
    requires game.Valid() && IsDraw(cell)
    modifies game
    ensures game.Valid()
    ensures game.grid == old(game.grid) && game.score == old(game.score)
    ensures game.gameHistory ==
      if |old(game.gameHistory)| < HistoryLimit then old(game.gameHistory) else old(game.gameHistory)[1..]
  {
    var view;
    moved, view := game.MakeLocalMove(direction, cell, tile);
    if moved {
      UnmovedHistory(old(game.gameHistory), Snapshot(old(game.grid), old(game.score)));
      var undone := game.UndoLocalMove();
    }
  }
}

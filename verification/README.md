# 2048 engine core in Dafny

This project models the game engine of a 2048 game that exists twice: once in
the browser (`FrontEnd.js`, the local game state that `EnhancedGameState`
plays on when no server is reachable, with a versus mode against a greedy
AI) and once on the server (`BackEnd.py`, class `Game2048`, plus the
monotonicity measure of the server's AI player).

The board is an n-by-n grid of naturals, 0 meaning an empty cell. A move
slides every row (left, right) or column (up, down) independently: squeeze
out the empty cells, make one merge pass that starts at the wall the tiles
move toward, and pad with empty cells on the far side. The score grows by
the value of every tile made by a merge. Before a move the engines push a
copy of the board and score onto an undo history of at most ten entries;
a move that changes nothing pops it again. A move that changes something
spawns a 2 (nine times in ten) or a 4 on a random empty cell.

Layout:

- `lines.dfy` (`Lines`): the per-line algorithm as functions (`Compact`,
  `MergeLeft`/`MergeGain`, `MergeRight`/`MergeRightGain`, `SlideLeft`,
  `SlideRight`), what the merge pass means (a grouping of the tiles into
  single tiles and equal pairs), the mirror relation between the two
  directions, and the padding loops.
- `board.dfy` (`Board`): grids, directions, the whole-board move
  `MoveGrid`/`MoveGain`, the game-over predicate `Stuck`, the empty-cell
  list, the random spawn, the undo history, and the loops both engines
  share (empty-cell listing, column write-back, game-over scan) together
  with the progress predicates of the move loops.
- `heuristic.dfy` (`Heuristic`): the browser AI's greedy one-ply choice and
  the hint, as functions.
- `frontend.dfy` (`FrontEnd`): the browser engine's loops and the classes
  `EnhancedGameState` (its `localGameState` fields flattened into the class)
  and `AiGame`.
- `backend.dfy` (`BackEnd`): the server engine's loops with their `merged`
  flags, class `Game2048`, and `CalculateMonotonicity`.

Every random draw (`Math.random()`, `random.random()`, `random.choice`) is
a real parameter in [0, 1); an index among m choices is `floor(r * m)`,
and the new tile is 2 when its draw is below 0.9 and 4 otherwise.
Each loop method of both engines is proved equal to the same functions
`MoveGrid` and `MoveGain`, so the browser moves, the AI board's moves and
the server moves (with or without merge flags) give identical boards,
scores and "moved" results on every grid.

## Model

| member | source | states |
|---|---|---|
| Lines.Compact | FrontEnd.js:354 | the squeezed line holds only tiles and is no longer than the line |
| Lines.CompactConserves | BackEnd.py:64 | squeezing out the empty cells keeps the line's tile total |
| Lines.MergeLeftConserves | FrontEnd.js:357-363 | the merge pass keeps the tile total and makes tiles only out of tiles |
| Lines.GainShortens | FrontEnd.js:357-363 | a pass that scores points makes the line shorter |
| Lines.MergeLeftNothingToMerge | FrontEnd.js:357-363 | a pass over tiles with no equal neighbours changes nothing and scores 0 |
| Lines.Pairing | FrontEnd.js:357-363 | every squeezed line has a grouping into single tiles and equal pairs that passes over no possible merge |
| Lines.MergePassMeaning | FrontEnd.js:357-363 | for any such grouping the pass leaves exactly the groups' values and scores exactly the total of the merged tiles: each tile merges at most once and a merged tile never merges again |
| Lines.MergeRightMirrorsLeft | FrontEnd.js:387-395 | the pass from the far end (with its double step past a merge) is the front pass on the reversed tiles, reversed back, with the same score |
| Lines.SlideLeftMeaning | FrontEnd.js:351-369 | a left or up slide puts the grouping's values at the front and empty cells behind, and scores the merged tiles |
| Lines.SlideRightMirrorsLeft | FrontEnd.js:381-400 | a right or down slide is a left slide of the reversed line, reversed back, with the same score |
| Lines.SlideLeftConserves | FrontEnd.js:351-369 | a left slide keeps the line's tile total |
| Lines.SlideRightConserves | FrontEnd.js:381-400 | a right slide keeps the line's tile total |
| Lines.SlideLeftStill | FrontEnd.js:370-376 | a left slide that leaves the line unchanged scores nothing |
| Lines.SlideRightStill | FrontEnd.js:401-407 | a right slide that leaves the line unchanged scores nothing |
| Lines.CompactShortens | FrontEnd.js:354 | dropping the empty cells either leaves the line as it was or makes it shorter |
| Lines.MergeLeftShortens | FrontEnd.js:357-363 | a merge pass either leaves the tiles as they were or makes the line shorter |
| Lines.SlideLeftLeavesRoom | FrontEnd.js:353-379 | a left slide that changes the line leaves its last cell empty |
| Lines.SlideRightLeavesRoom | FrontEnd.js:384-410 | a right slide that changes the line leaves its first cell empty |
| Lines.SlideLeftBlocked | BackEnd.py:64-75 | a full line with no equal neighbours does not move under a left slide and scores 0 |
| Lines.SlideRightBlocked | BackEnd.py:85-97 | the same for a right slide |
| Lines.SlideLeftExamples | FrontEnd.js:351-369 | [2,2,4,0] becomes [4,4,0,0] for 4 points; [2,2,2,2] becomes [4,4,0,0] for 8 |
| Lines.SlideRightExamples | FrontEnd.js:381-400 | [2,2,2,0] becomes [0,0,2,4] for 4 points; [2,2,2,2] becomes [0,0,4,4] for 8 |
| Lines.SlideRightShortExamples | BackEnd.py:81-101 | on a line of three, [2,2,2] becomes [0,2,4] for 4 points; [0,0,0,2] stays and scores 0 |
| Lines.PadEnd | FrontEnd.js:366-368 | the merged line followed by as many empty cells as make it full |
| Lines.PadStart | FrontEnd.js:397-399 | as many empty cells as make it full, then the merged line |
| Board.EmptyGrid | BackEnd.py:15 | an n-by-n grid all of whose cells are empty |
| Board.ParseDirection | FrontEnd.js:319-332 | a string names a move exactly when it is "up", "down", "left" or "right"; any other string names none |
| Board.ParseName | BackEnd.py:153-160 | each direction's token reads back as that direction |
| Board.Rank | FrontEnd.js:529 | a direction's rank is its place in the order up, down, left, right |
| Board.RankOfOrder | FrontEnd.js:529 | the rank of the k-th direction of the order is k, so the order lists each direction once |
| Board.MovedLine | FrontEnd.js:351-481 | each line of the moved grid is that line of the grid, slid |
| Board.MoveConservesLines | BackEnd.py:60-146 | a move keeps the tile total of every line it works on |
| Board.StillMoveScoresNothing | FrontEnd.js:351-481 | a move that changes no cell scores nothing |
| Board.StuckBlocksMoves | BackEnd.py:171-190 | when the game is over, every direction leaves the grid as it is and scores nothing |
| Board.EmptyInRows | BackEnd.py:30-33 | the empty cells of the first rows, each once, in row-major order |
| Board.EmptyCells | FrontEnd.js:291-298 | every empty cell, each once, in the order the nested loops find them |
| Board.EmptyCellsExist | FrontEnd.js:300 | the list of empty cells is non-empty exactly when the grid has an empty cell |
| Board.Pick | FrontEnd.js:301 | floor(r * m) is a valid index among m choices |
| Board.SpawnFillsOneEmptyCell | FrontEnd.js:300-303 | a spawn turns exactly one empty cell into a 2 or a 4 and leaves every other cell; on a full grid it changes nothing |
| Board.SomeLineMoved | FrontEnd.js:353-379 | a move that changes the board changes one of the lines it works on |
| Board.MovedLineHasRoom | FrontEnd.js:353-379 | a line that the move changed ends with an empty cell at the end it slid away from |
| Board.MoveLeavesRoom | FrontEnd.js:334-335 | a move that changes the board leaves an empty cell, so the spawn after it always has room |
| Board.CommittedMoveAddsTile | FrontEnd.js:334-335 | the spawn after a move that changed the board adds exactly one 2 or 4 on an empty cell of the moved board |
| Board.TwoStartingTiles | BackEnd.py:19-25 | a new game on a board of side at least 2 has exactly two tiles, each a 2 or a 4, and every other cell empty |
| Board.RecordKeepsNewest | BackEnd.py:39-49 | a save onto at most ten entries keeps at most ten, drops only the oldest, and puts the new entry last |
| Board.UnmovedHistory | FrontEnd.js:308-316 | popping right after a push restores the history, except that a full history has lost its oldest entry |
| Board.RecordAllKeepsNewest | FrontEnd.js:313-316 | after any run of saves the history is exactly the newest ten entries (or all of them when fewer) |
| Board.CollectEmptyCells | BackEnd.py:29-33 | the nested loops list exactly the empty cells, in row-major order |
| Board.WriteColumn | BackEnd.py:119-122 | the write-back replaces column j and nothing else, and flags a move exactly when some cell of the column differs |
| Board.ScanGameOver | FrontEnd.js:498-524 | over exactly when no cell is empty and no cell equals its right or lower neighbour |
| Board.RowsFinished | FrontEnd.js:353-377 | a loop that has slid every row has computed the moved grid, the move's points and whether the grid changed |
| Board.ColumnsFinished | FrontEnd.js:414-443 | the same for a loop over every column |
| Heuristic.RatingNonNegative | FrontEnd.js:624-635 | the rating of a direction (points, ten per empty cell, random bonus) is never negative |
| Heuristic.BestFrom | FrontEnd.js:617-641 | the scan's winner is the one it started with or a later candidate that moves |
| Heuristic.BestFromScanned | FrontEnd.js:637-640 | the scan with strict comparison ends on no candidate when none moves, and otherwise on the first of the best moving candidates |
| Heuristic.AiChoiceIsFirstBest | FrontEnd.js:611-647 | the AI plays nothing exactly when no direction moves; otherwise a moving direction rated strictly above every earlier moving one and at least as high as every later one |
| Heuristic.AiChoiceMoves | FrontEnd.js:648-653 | the direction the AI plays changes the board |
| Heuristic.OnlyMoveIsChosen | FrontEnd.js:614-640 | when exactly one direction moves, the AI plays it whatever the random bonuses |
| Heuristic.HardIgnoresDraws | FrontEnd.js:630-635 | on any difficulty other than "easy" or "medium" the AI's choice does not depend on the draws |
| Heuristic.ValidMovesFrom | FrontEnd.js:531-541 | the hint's candidates are exactly the directions that move among the first k of the order up, down, left, right |
| Heuristic.AppendInOrder | FrontEnd.js:538-540 | pushing a direction that comes after every listed one keeps the list in the order up, down, left, right |
| Heuristic.ChosenInOrder | FrontEnd.js:529-541 | a scan of the order that keeps the flagged directions lists them in the order's sequence, each once, all before position k |
| Heuristic.ValidMovesAreChosen | FrontEnd.js:531-541 | the hint's candidates are the scan of the order kept by whether each direction moves |
| Heuristic.ValidMovesInOrder | FrontEnd.js:529-541 | the hint's candidates come in the order up, down, left, right, each at most once |
| Heuristic.HintIsAMove | FrontEnd.js:526-548 | the hint is none exactly when no direction moves, and otherwise a direction that moves |
| FrontEnd.MergeFromFront | FrontEnd.js:357-363 | the splice loop computes the front merge pass and its points |
| FrontEnd.MergeFromBack | FrontEnd.js:387-395 | the splice loop with its double decrement computes the far-end merge pass and its points |
| FrontEnd.WriteRow | FrontEnd.js:371-376 | the write-back replaces row i and nothing else, and flags a move exactly when some cell differs |
| FrontEnd.CollectColumn | FrontEnd.js:415-420 | the column loop gathers the column's tiles, top to bottom |
| FrontEnd.ZeroGrid | FrontEnd.js:271-277 | the nested loops build the empty n-by-n grid |
| FrontEnd.SlideRowLeft | FrontEnd.js:354-368 | one row of a left move is the left slide of that row |
| FrontEnd.SlideRowRight | FrontEnd.js:384-399 | one row of a right move is the right slide of that row |
| FrontEnd.SlideColumnUp | FrontEnd.js:415-434 | one column of an up move is the column slid toward the top |
| FrontEnd.SlideColumnDown | FrontEnd.js:450-470 | one column of a down move is the column slid toward the bottom |
| FrontEnd.SweepRowsLeft | FrontEnd.js:353-377 | after the loop every row is slid left, the points are added up and the moved flag is set |
| FrontEnd.SweepRowsRight | FrontEnd.js:383-408 | the same, sliding right |
| FrontEnd.SweepColumnsUp | FrontEnd.js:414-443 | the same for every column, sliding up |
| FrontEnd.SweepColumnsDown | FrontEnd.js:449-479 | the same for every column, sliding down |
| FrontEnd.ShiftRowsLeft | FrontEnd.js:351-379 | the left move gives the moved grid and its points, and reports a move exactly when a cell changed |
| FrontEnd.ShiftRowsRight | FrontEnd.js:381-410 | the same for right |
| FrontEnd.ShiftColumnsUp | FrontEnd.js:412-445 | the same for up |
| FrontEnd.ShiftColumnsDown | FrontEnd.js:447-481 | the same for down |
| FrontEnd.AiGame.constructor | FrontEnd.js:566-569 | the AI board starts with no grid and score 0 |
| FrontEnd.EnhancedGameState.constructor | FrontEnd.js:136-148 | the local state starts at size 4, no grid, score 0, no history, "medium" difficulty, no AI board |
| FrontEnd.EnhancedGameState.CreateLocalGame | FrontEnd.js:265-288 | a new game: empty board of the given size with two tiles spawned, score 0, empty history, reported as not over |
| FrontEnd.EnhancedGameState.AddRandomTileLocal | FrontEnd.js:290-304 | the board becomes its spawn, keeping its size |
| FrontEnd.EnhancedGameState.MakeLocalMove | FrontEnd.js:306-349 | moved exactly when the direction is known and changes the board; then the board is the moved board plus a spawn, the score grows by the move's points and the old board and score are saved, and the spawn turns exactly one empty cell of the moved board into a 2 or a 4; otherwise board and score stay and the history comes back without its oldest entry if it was full; the history never exceeds ten |
| FrontEnd.EnhancedGameState.MoveLeftLocal | FrontEnd.js:351-379 | the board becomes the left-moved board, the score grows by the move's points, the result says whether a cell changed |
| FrontEnd.EnhancedGameState.MoveRightLocal | FrontEnd.js:381-410 | the same for right |
| FrontEnd.EnhancedGameState.MoveUpLocal | FrontEnd.js:412-445 | the same for up |
| FrontEnd.EnhancedGameState.MoveDownLocal | FrontEnd.js:447-481 | the same for down |
| FrontEnd.EnhancedGameState.UndoLocalMove | FrontEnd.js:483-496 | with no history nothing changes and no state is returned, even before the first game; otherwise the newest entry is popped and its board and score restored |
| FrontEnd.EnhancedGameState.IsGameOverLocal | FrontEnd.js:498-524 | over exactly when the board is stuck |
| FrontEnd.EnhancedGameState.TestLocalMove | FrontEnd.js:550-559 | a known direction makes its move on the board; any other string changes nothing and reports no move, even before the first game |
| FrontEnd.EnhancedGameState.ProbeLocalMove | FrontEnd.js:533-544 | a trial move reports whether the direction changes the board, and the board and score are put back |
| FrontEnd.EnhancedGameState.GetLocalHint | FrontEnd.js:526-548 | board and score are left as they were (and the state stays well formed), and the hint is the draw's pick among the directions that move |
| FrontEnd.EnhancedGameState.CreateLocalVSGame | FrontEnd.js:561-593 | a new human game plus a fresh AI board of the same size with two tiles of its own, score 0, and the given difficulty |
| FrontEnd.EnhancedGameState.AddRandomTileAI | FrontEnd.js:595-609 | the AI board becomes its spawn |
| FrontEnd.EnhancedGameState.GetLocalAIMove | FrontEnd.js:611-666 | no move and no change when no direction moves; otherwise the AI board gets the chosen move and a spawn that fills exactly one empty cell of the moved board with a 2 or a 4, its score the move's points, and the report is never marked over |
| FrontEnd.EnhancedGameState.ScanAIMoves | FrontEnd.js:613-646 | the trial scan leaves the AI board and score as they were and ends on the AI's choice |
| FrontEnd.EnhancedGameState.RateAIMove | FrontEnd.js:618-645 | a trial move reports whether the direction moves and, if it does, its rating; the AI board and score are put back |
| FrontEnd.EnhancedGameState.MakeAILocalMove | FrontEnd.js:668-756 | a known direction makes its move on the AI board at the human board's size; any other string changes nothing |
| FrontEnd.EnhancedGameState.CountEmptyCellsAI | FrontEnd.js:758-766 | the count is the number of empty cells of the AI board |
| FrontEnd.MoveThenUndo | FrontEnd.js:483-496 | an undo right after a move gives back the board and score from before the move |
| BackEnd.MergeFlaggedFromFront | BackEnd.py:65-73 | the loop with merge flags computes the flagless front merge pass and its points: the flags never block a merge |
| BackEnd.MergeFlaggedFromBack | BackEnd.py:86-95 | the same for the pass from the far end |
| BackEnd.SlideFlaggedLeft | BackEnd.py:64-75 | one row of move_left is the left slide of that row |
| BackEnd.SlideFlaggedRight | BackEnd.py:85-97 | one row of move_right is the right slide of that row |
| BackEnd.SlideColumnUp | BackEnd.py:107-118 | one column of move_up is the column slid toward the top |
| BackEnd.SlideColumnDown | BackEnd.py:129-141 | one column of move_down is the column slid toward the bottom |
| BackEnd.SweepRowsLeft | BackEnd.py:62-78 | after the loop every row is slid left, the points are added up and the moved flag is set |
| BackEnd.SweepRowsRight | BackEnd.py:83-100 | the same, sliding right |
| BackEnd.SweepColumnsUp | BackEnd.py:105-122 | the same for every column, sliding up |
| BackEnd.SweepColumnsDown | BackEnd.py:127-145 | the same for every column, sliding down |
| BackEnd.Game2048.constructor | BackEnd.py:13-17 | an empty board of the given size, score 0, no history |
| BackEnd.Game2048.InitializeGame | BackEnd.py:19-25 | empty board with two tiles spawned, score 0, empty history |
| BackEnd.Game2048.AddRandomTile | BackEnd.py:27-37 | the board becomes its spawn |
| BackEnd.Game2048.SaveState | BackEnd.py:39-49 | the board and score are saved, evicting the oldest past ten |
| BackEnd.Game2048.UndoMove | BackEnd.py:51-58 | false and no change on an empty history; otherwise true, the newest entry popped and its board and score restored |
| BackEnd.Game2048.MoveLeft | BackEnd.py:60-79 | the board becomes the left-moved board, the score grows by the move's points, the result says whether a cell changed |
| BackEnd.Game2048.MoveRight | BackEnd.py:81-101 | the same for right |
| BackEnd.Game2048.MoveUp | BackEnd.py:103-123 | the same for up |
| BackEnd.Game2048.MoveDown | BackEnd.py:125-146 | the same for down |
| BackEnd.Game2048.Dispatch | BackEnd.py:152-160 | a known direction makes its move; any other string changes nothing and reports no move |
| BackEnd.Game2048.MakeMove | BackEnd.py:148-169 | moved exactly when the direction is known and changes the board; then the moved board plus a spawn that fills exactly one of its empty cells with a 2 or a 4, the points added and the old state saved; otherwise board and score stay and the saved entry is popped |
| BackEnd.Game2048.IsGameOver | BackEnd.py:171-190 | over exactly when no cell is empty and no cell equals its right or lower neighbour |
| BackEnd.Game2048.GetGameState | BackEnd.py:192-198 | the board, the score and whether the board is stuck |
| BackEnd.MoveThenUndo | BackEnd.py:148-169 | undo_move right after make_move gives back the board and score from before the move |
| BackEnd.CalculateMonotonicity | BackEnd.py:292-316 | the loops add up, over every row and every column, the larger of its steps up and its steps down |
| BackEnd.LineMonotonicityBound | BackEnd.py:298-304 | a line of n cells scores at most n - 1 |
| BackEnd.RowsBound | BackEnd.py:297-304 | the rows of an n-by-n grid score at most n (n - 1) together |
| BackEnd.ColumnsBound | BackEnd.py:307-314 | the columns of an n-by-n grid score at most n (n - 1) together |
| BackEnd.MonotonicityBound | BackEnd.py:292-316 | an n-by-n grid scores between 0 and 2 n (n - 1) |
| BackEnd.FlatGridScoresZero | BackEnd.py:292-316 | a grid whose cells all hold the same value scores 0 |

## Left out

- The HTTP client `Game2048API` and `makeRequest` in `FrontEnd.js`, and the Flask app, its routes and its global game tables in `BackEnd.py`: network I/O, not game logic.
- The async wrappers of `EnhancedGameState` that try the server first and the `useBackend` switch: network orchestration.
- The best score kept in `localStorage`, the timers, `isVSMode` and the time limit fields of the local state: browser storage and UI timing.
- `AIPlayer.get_best_move`, `minimax`, `evaluate_grid` and `calculate_smoothness`: floating point (`math.inf`, `math.log2`), `random.randint` noise and an exponential search.
- The random sources themselves: every draw is a parameter in [0, 1), and `random.choice` is modelled as an index picked by such a draw.
- Number widths: scores and tiles are unbounded naturals. JavaScript numbers and Python integers do not wrap at the sizes a game reaches.
- The moves add a line's points to the score once, after the line's merge loop, rather than after each merge. The final score is the same; only states in the middle of a move differ, and nothing can observe them.
- Python's `self.grid[i] = new_row` and `self.grid[k][j] = ...` and JavaScript's `grid[i][j] = row[j]` change the grid in place; the model runs each move's loop on a grid value and stores the result once. Aliasing between `grid` and other references to the same lists is not modelled (the history stores deep copies in both engines).
- Loop bodies that the source writes inline are separate methods in the model: the per-line merge, pad and write-back loops, the per-direction trial of the hint (`ProbeLocalMove`) and of the AI (`RateAIMove`), and the line loops of each move (`Sweep*`).
- FrontEnd.EnhancedGameState.GetLocalAIMove: requires an AI board of exactly the human board's size (`AiReady`). With no AI board the source throws a `TypeError`; with a smaller one (a single game started at a larger size after a versus game) it reaches past the AI board's rows and throws. With a larger one (a versus game at size 5 followed by a single game at size 4) the source does not fail: every AI loop runs over the top-left `gridSize` by `gridSize` window only, and a left or right move writes back the first `gridSize` cells of a slide of the whole row, so the row `[0, 2, 4, 8, 16]` moved left becomes `[2, 4, 8, 16, 16]` and a tile is duplicated. That window behaviour is not modelled.
- FrontEnd.EnhancedGameState.ScanAIMoves: requires an AI board of exactly the human board's size; the missing, smaller and larger AI boards behave as described for `GetLocalAIMove`, and the window behaviour is not modelled.
- FrontEnd.EnhancedGameState.RateAIMove: requires an AI board of exactly the human board's size; the missing, smaller and larger AI boards behave as described for `GetLocalAIMove`, and the window behaviour is not modelled.
- FrontEnd.EnhancedGameState.MakeAILocalMove: requires an AI board of exactly the human board's size; on a larger AI board the source moves only the top-left window and can duplicate a tile from outside it (see `GetLocalAIMove`), which is not modelled.
- FrontEnd.EnhancedGameState.AddRandomTileAI: requires an AI board of exactly the human board's size; on a larger AI board the source only ever fills a cell of the top-left window, which is not modelled.
- FrontEnd.EnhancedGameState.CountEmptyCellsAI: requires an AI board of exactly the human board's size; on a larger AI board the source counts the empty cells of the top-left window only, which is not modelled.
- Heuristic.AiChoice: takes one bonus draw per direction, indexed by the direction's place in the order up, down, left, right, whether or not that direction moves, and whatever the difficulty; the source calls `Math.random` only for a direction that moves and only at the "easy" and "medium" difficulties. With independent draws both give each choice the same probability, but the same stream of draws can pick differently.
- Heuristic.Rating: ratings are exact reals; the source adds the points, the empty-cell bonus and the random bonus as IEEE doubles, and rounding near ties is not modelled.
- Heuristic.Bonus: the random bonus is the exact real product of the draw and 100 or 50, not the rounded double product.
- BackEnd.CalculateMonotonicity: requires a non-empty square grid; the source reads `grid[0]` and fails on an empty grid, and is only ever called on the game's square board.
- The EnhancedGameState methods that read the board (`MakeLocalMove`, the four `Move*Local` methods, `IsGameOverLocal`, `AddRandomTileLocal`, `ProbeLocalMove` and `GetLocalHint`) require a board of `gridSize` by `gridSize` cells (`Valid`). Before the first game the board is empty while `gridSize` is 4, and each of them throws a `TypeError` in the source when it reads `grid[0]`. `UndoLocalMove` and `TestLocalMove` need `Valid` only where the source reads the board: an undo with no saved state returns nothing, and a test with an unknown direction reports no move, before the first game as after it.

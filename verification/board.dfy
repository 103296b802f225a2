/**
 * The 2048 board shared by both engines: an n-by-n grid of tiles (0 for an
 * empty cell), the four moves on it, the game-over test, the random tile
 * spawn, the ten-deep undo history, and the loops both engines run the same
 * way.
 */
module Board {
  import opened Lines

  datatype Option<T> = None | Some(value: T)

  type Grid = seq<seq<nat>>

  /** `g` has `n` rows of `n` cells each. */
  predicate IsGrid(g: Grid, n: nat)
  {
    |g| == n && forall i :: 0 <= i < n ==> |g[i]| == n
  }

  predicate Square(g: Grid)
  {
    IsGrid(g, |g|)
  }

  /** An n-by-n grid of empty cells. */
  function EmptyGrid(n: nat): (g: Grid)
    ensures IsGrid(g, n)
    ensures forall i, j :: 0 <= i < n && 0 <= j < n ==> g[i][j] == 0
  {
    seq(n, _ => Zeros(n))
  }

  function Column(g: Grid, j: nat): (col: seq<nat>)
    requires Square(g) && j < |g|
    ensures |col| == |g|
  {
    seq(|g|, i requires 0 <= i < |g| => g[i][j])
  }

  /** Two n-by-n grids that agree on every cell are the same grid. */
  lemma GridsEqual(a: Grid, b: Grid, n: nat)
    requires IsGrid(a, n) && IsGrid(b, n)
    requires forall i, j :: 0 <= i < n && 0 <= j < n ==> a[i][j] == b[i][j]
    ensures a == b
  {
    forall i | 0 <= i < n
      ensures a[i] == b[i]
    {
    }
  }

  // ---------------------------------------------------------------------
  // Directions
  // ---------------------------------------------------------------------

  datatype Direction = Up | Down | Left | Right

  /** The token a direction travels as. */
  function Name(d: Direction): string
  {
    match d
    case Up => "up"
    case Down => "down"
    case Left => "left"
    case Right => "right"
  }

  /** A direction token as the engines' dispatch reads it; any other string names no move. */
  function ParseDirection(s: string): (d: Option<Direction>)
    ensures d.Some? ==> Name(d.value) == s
    ensures d.None? ==> forall e: Direction :: Name(e) != s
  {
    if s == "up" then Some(Up)
    else if s == "down" then Some(Down)
    else if s == "left" then Some(Left)
    else if s == "right" then Some(Right)
    else None
  }

  /** Every direction's token reads back as that direction. */
  lemma ParseName(d: Direction)
    ensures ParseDirection(Name(d)) == Some(d)
  {
  }

  /** The order in which the hint and the AI try the directions. */
  const Order: seq<Direction> := [Up, Down, Left, Right]

  lemma OrderListsAll(d: Direction)
    ensures d in Order
  {
  }

  /** A direction's place in Order. */
  function Rank(d: Direction): (k: nat)
    ensures k < |Order| && Order[k] == d
  {
    match d
    case Up => 0
    case Down => 1
    case Left => 2
    case Right => 3
  }

  /** Rank undoes indexing into Order. */
  lemma RankOfOrder(k: nat)
    requires k < |Order|
    ensures Rank(Order[k]) == k
  {
    assert k == 0 || k == 1 || k == 2 || k == 3;
  }

  // ---------------------------------------------------------------------
  // The four moves
  // ---------------------------------------------------------------------

  /** Left and right move rows; up and down move columns. */
  predicate Horizontal(d: Direction)
  {
    d == Left || d == Right
  }

  /** Left and up slide toward index 0 of the line; right and down away from it. */
  function SlideToward(line: seq<nat>, d: Direction): (r: Slid)
    ensures |r.line| == |line|
  {
    if d == Left || d == Up then SlideLeft(line) else SlideRight(line)
  }

  /** The k-th line a move in direction d works on. */
  function LineOf(g: Grid, d: Direction, k: nat): seq<nat>
    requires Square(g) && k < |g|
  {
    if Horizontal(d) then g[k] else Column(g, k)
  }

  /** The grid after a move: every line slid independently. */
  function MoveGrid(g: Grid, d: Direction): (r: Grid)
    requires Square(g)
    ensures IsGrid(r, |g|)
  {
    if Horizontal(d) then
      seq(|g|, i requires 0 <= i < |g| => SlideToward(g[i], d).line)
    else
      seq(|g|, i requires 0 <= i < |g| =>
        seq(|g|, j requires 0 <= j < |g| => SlideToward(Column(g, j), d).line[i]))
  }

  /** Points scored on the first k lines of a move. */
  function GainUpTo(g: Grid, d: Direction, k: nat): nat
    requires Square(g) && k <= |g|
  {
    if k == 0 then 0 else GainUpTo(g, d, k - 1) + SlideToward(LineOf(g, d, k - 1), d).gain
  }

  /** Points scored by a move: the total of the tiles its merges make. */
  function MoveGain(g: Grid, d: Direction): nat
    requires Square(g)
  {
    GainUpTo(g, d, |g|)
  }

  /** A move in direction d changes at least one cell. */
  predicate Changes(g: Grid, d: Direction)
    requires Square(g)
  {
    MoveGrid(g, d) != g
  }

  /** Each line of the moved grid is the slid line of the grid. */
  lemma MovedLine(g: Grid, d: Direction, k: nat)
    requires Square(g) && k < |g|
    ensures LineOf(MoveGrid(g, d), d, k) == SlideToward(LineOf(g, d, k), d).line
  {
  }

  /** A move keeps the tile total of every line it works on. */
  lemma MoveConservesLines(g: Grid, d: Direction, k: nat)
    requires Square(g) && k < |g|
    ensures Sum(LineOf(MoveGrid(g, d), d, k)) == Sum(LineOf(g, d, k))
  {
    MovedLine(g, d, k);
    if d == Left || d == Up {
      SlideLeftConserves(LineOf(g, d, k));
    } else {
      SlideRightConserves(LineOf(g, d, k));
    }
  }

  lemma {:induction false} GainUpToZero(g: Grid, d: Direction, k: nat)
    requires Square(g) && k <= |g|
    requires forall m :: 0 <= m < k ==> SlideToward(LineOf(g, d, m), d).gain == 0
    ensures GainUpTo(g, d, k) == 0
  {
    if k > 0 {
      GainUpToZero(g, d, k - 1);
    }
  }

  /** A move that changes no cell scores nothing. */
  lemma StillMoveScoresNothing(g: Grid, d: Direction)
    requires Square(g) && !Changes(g, d)
    ensures MoveGain(g, d) == 0
  {
    forall m | 0 <= m < |g|
      ensures SlideToward(LineOf(g, d, m), d).gain == 0
    {
      MovedLine(g, d, m);
      if d == Left || d == Up {
        SlideLeftStill(LineOf(g, d, m));
      } else {
        SlideRightStill(LineOf(g, d, m));
      }
    }
    GainUpToZero(g, d, |g|);
  }

  // ---------------------------------------------------------------------
  // Game over
  // ---------------------------------------------------------------------

  predicate HasEmptyCell(g: Grid)
    requires Square(g)
  {
    exists i, j :: 0 <= i < |g| && 0 <= j < |g| && g[i][j] == 0
  }

  /** Cell (i, j) equals its right or its lower neighbour. */
  predicate MergeableAt(g: Grid, i: nat, j: nat)
    requires Square(g) && i < |g| && j < |g|
  {
    (j + 1 < |g| && g[i][j] == g[i][j + 1]) || (i + 1 < |g| && g[i][j] == g[i + 1][j])
  }

  predicate HasEqualNeighbours(g: Grid)
    requires Square(g)
  {
    exists i, j :: 0 <= i < |g| && 0 <= j < |g| && MergeableAt(g, i, j)
  }

  /** Game over: no empty cell and no cell equal to its right or lower neighbour. */
  predicate Stuck(g: Grid)
    requires Square(g)
  {
    !HasEmptyCell(g) && !HasEqualNeighbours(g)
  }

  /** When the game is over, no move changes the grid or scores. */
  lemma StuckBlocksMoves(g: Grid, d: Direction)
    requires Square(g) && Stuck(g)
    ensures MoveGrid(g, d) == g && MoveGain(g, d) == 0
  {
    var n := |g|;
    forall k | 0 <= k < n
      ensures SlideToward(LineOf(g, d, k), d) == Slid(LineOf(g, d, k), 0)
    {
      var line := LineOf(g, d, k);
      assert AllTiles(line);
      assert NoEqualNeighbours(line) by {
        forall m | 1 <= m < |line|
          ensures line[m - 1] != line[m]
        {
          if Horizontal(d) {
            assert !MergeableAt(g, k, m - 1);
          } else {
            assert !MergeableAt(g, m - 1, k);
          }
        }
      }
      if d == Left || d == Up {
        SlideLeftBlocked(line);
      } else {
        SlideRightBlocked(line);
      }
    }
    forall i, j | 0 <= i < n && 0 <= j < n
      ensures MoveGrid(g, d)[i][j] == g[i][j]
    {
      if Horizontal(d) {
        MovedLine(g, d, i);
      } else {
        MovedLine(g, d, j);
      }
    }
    GridsEqual(MoveGrid(g, d), g, n);
    StillMoveScoresNothing(g, d);
  }

  // ---------------------------------------------------------------------
  // Empty cells and the random tile
  // ---------------------------------------------------------------------

  /** Row-major order on cells. */
  predicate Before(p: (nat, nat), q: (nat, nat))
  {
    p.0 < q.0 || (p.0 == q.0 && p.1 < q.1)
  }

  predicate RowMajor(cells: seq<(nat, nat)>)
  {
    forall a, b :: 0 <= a < b < |cells| ==> Before(cells[a], cells[b])
  }

  /** The empty cells of row i left of column j, left to right. */
  function EmptyInRow(g: Grid, i: nat, j: nat): (cells: seq<(nat, nat)>)
    requires Square(g) && i < |g| && j <= |g|
    ensures RowMajor(cells)
    ensures forall p :: p in cells <==> p.0 == i && p.1 < j && g[i][p.1] == 0
  {
    if j == 0 then []
    else EmptyInRow(g, i, j - 1) + (if g[i][j - 1] == 0 then [(i, j - 1)] else [])
  }

  /** The empty cells of the first i rows, in row-major order. */
  function EmptyInRows(g: Grid, i: nat): (cells: seq<(nat, nat)>)
    requires Square(g) && i <= |g|
    ensures RowMajor(cells)
    ensures forall p :: p in cells <==> p.0 < i && p.1 < |g| && g[p.0][p.1] == 0
  {
    if i == 0 then [] else EmptyInRows(g, i - 1) + EmptyInRow(g, i - 1, |g|)
  }

  /** Every empty cell once, in the order the engines' nested loops list them. */
  function EmptyCells(g: Grid): (cells: seq<(nat, nat)>)
    requires Square(g)
    ensures RowMajor(cells)
    ensures forall p :: p in cells <==> p.0 < |g| && p.1 < |g| && g[p.0][p.1] == 0
  {
    EmptyInRows(g, |g|)
  }

  lemma EmptyCellsExist(g: Grid)
    requires Square(g)
    ensures EmptyCells(g) != [] <==> HasEmptyCell(g)
  {
    var cells := EmptyCells(g);
    if HasEmptyCell(g) {
      var i, j :| 0 <= i < |g| && 0 <= j < |g| && g[i][j] == 0;
      assert (i, j) in cells;
    }
    if cells != [] {
      var p := cells[0];
      assert p in cells;
      var i, j := p.0, p.1;
      assert 0 <= i < |g| && 0 <= j < |g| && g[i][j] == 0;
    }
  }

  /** A random draw: a real number in [0, 1), as Math.random() and random.random() give. */
  predicate IsDraw(r: real)
  {
    0.0 <= r < 1.0
  }

  /** floor(r * m): the index a draw picks among m choices. */
  function Pick(r: real, m: nat): (k: nat)
    requires IsDraw(r) && m > 0
    ensures k < m
  {
    var x := r * (m as real);
    assert 0.0 <= x < m as real;
    x.Floor
  }

  /** The new tile: 2 when the draw is below 0.9, otherwise 4. */
  function NewTile(r: real): nat
  {
    if r < 0.9 then 2 else 4
  }

  /** Put a new tile on the empty cell the first draw picks; a full grid stays as it is. */
  function Spawn(g: Grid, cell: real, tile: real): (r: Grid)
    requires Square(g) && IsDraw(cell)
    ensures IsGrid(r, |g|)
  {
    var cells := EmptyCells(g);
    if cells == [] then g
    else
      var p := cells[Pick(cell, |cells|)];
      assert p in cells;
      var row: seq<nat> := g[p.0][p.1 := NewTile(tile)];
      g[p.0 := row]
  }

  /** r is g with the empty cell (i, j) turned into a 2 or a 4. */
  predicate FilledAt(g: Grid, r: Grid, i: nat, j: nat)
    requires Square(g) && IsGrid(r, |g|) && i < |g| && j < |g|
  {
    g[i][j] == 0 && (r[i][j] == 2 || r[i][j] == 4) &&
    forall a, b :: 0 <= a < |g| && 0 <= b < |g| && (a != i || b != j) ==> r[a][b] == g[a][b]
  }

  /** A spawn turns exactly one empty cell into a 2 or a 4, and does nothing on a full grid. */
  lemma SpawnFillsOneEmptyCell(g: Grid, cell: real, tile: real)
    requires Square(g) && IsDraw(cell)
    ensures !HasEmptyCell(g) ==> Spawn(g, cell, tile) == g
    ensures HasEmptyCell(g) ==> exists i, j :: 0 <= i < |g| && 0 <= j < |g| && FilledAt(g, Spawn(g, cell, tile), i, j)
  {
    EmptyCellsExist(g);
    var cells := EmptyCells(g);
    if cells != [] {
      var p := cells[Pick(cell, |cells|)];
      assert p in cells;
      assert FilledAt(g, Spawn(g, cell, tile), p.0, p.1);
    }
  }

  /** after is before with exactly one of its empty cells turned into a 2 or a 4. */
  predicate OneTileAdded(before: Grid, after: Grid)
    requires Square(before) && IsGrid(after, |before|)
  {
    exists i, j :: 0 <= i < |before| && 0 <= j < |before| && FilledAt(before, after, i, j)
  }

  /** A move that changes the grid changes one of the lines it works on. */
  lemma SomeLineMoved(g: Grid, d: Direction) returns (k: nat)
    requires Square(g) && Changes(g, d)
    ensures k < |g| && LineOf(MoveGrid(g, d), d, k) != LineOf(g, d, k)
  {
    var m := MoveGrid(g, d);
    var i :| 0 <= i < |g| && m[i] != g[i];
    var j :| 0 <= j < |g| && m[i][j] != g[i][j];
    if Horizontal(d) {
      k := i;
    } else {
      k := j;
      assert Column(m, j)[i] != Column(g, j)[i];
    }
  }

  /** A line that the move changed ends up with an empty cell at the end it slid away from. */
  lemma MovedLineHasRoom(g: Grid, d: Direction, k: nat)
    requires Square(g) && k < |g| && LineOf(MoveGrid(g, d), d, k) != LineOf(g, d, k)
    ensures HasEmptyCell(MoveGrid(g, d))
  {
    var m := MoveGrid(g, d);
    MovedLine(g, d, k);
    var line := LineOf(g, d, k);
    var c: nat;
    if d == Left || d == Up {
      SlideLeftLeavesRoom(line);
      c := |g| - 1;
    } else {
      SlideRightLeavesRoom(line);
      c := 0;
    }
    assert LineOf(m, d, k)[c] == 0;
    if Horizontal(d) {
      assert m[k][c] == 0;
    } else {
      assert m[c][k] == 0;
    }
  }

  /** A move that changes the grid leaves an empty cell, so the spawn after it has room. */
  lemma MoveLeavesRoom(g: Grid, d: Direction)
    requires Square(g) && Changes(g, d)
    ensures HasEmptyCell(MoveGrid(g, d))
  {
    var k := SomeLineMoved(g, d);
    MovedLineHasRoom(g, d, k);
  }

  /** The spawn that follows a move which changed the grid always adds exactly one tile. */
  lemma CommittedMoveAddsTile(g: Grid, d: Direction, cell: real, tile: real)
    requires Square(g) && IsDraw(cell) && Changes(g, d)
    ensures OneTileAdded(MoveGrid(g, d), Spawn(MoveGrid(g, d), cell, tile))
  {
    MoveLeavesRoom(g, d);
    SpawnFillsOneEmptyCell(MoveGrid(g, d), cell, tile);
  }

  /** r holds a 2 or a 4 at two different cells and nothing anywhere else. */
  predicate TwoTilesAt(r: Grid, i1: nat, j1: nat, i2: nat, j2: nat)
    requires Square(r) && i1 < |r| && j1 < |r| && i2 < |r| && j2 < |r|
  {
    (i1 != i2 || j1 != j2) &&
    (r[i1][j1] == 2 || r[i1][j1] == 4) && (r[i2][j2] == 2 || r[i2][j2] == 4) &&
    forall a, b :: 0 <= a < |r| && 0 <= b < |r| && (a != i1 || b != j1) && (a != i2 || b != j2) ==> r[a][b] == 0
  }

  /** A new game on a board of side at least 2 starts with exactly two tiles, each a 2 or a 4. */
  lemma TwoStartingTiles(n: nat, c1: real, t1: real, c2: real, t2: real)
    requires n >= 2 && IsDraw(c1) && IsDraw(c2)
    ensures var r := Spawn(Spawn(EmptyGrid(n), c1, t1), c2, t2);
      exists i1, j1, i2, j2 :: 0 <= i1 < n && 0 <= j1 < n && 0 <= i2 < n && 0 <= j2 < n && TwoTilesAt(r, i1, j1, i2, j2)
  {
    var e := EmptyGrid(n);
    assert HasEmptyCell(e) by {
      assert e[0][0] == 0;
    }
    SpawnFillsOneEmptyCell(e, c1, t1);
    var g1 := Spawn(e, c1, t1);
    var i1, j1 :| 0 <= i1 < n && 0 <= j1 < n && FilledAt(e, g1, i1, j1);
    RoomAfterOneTile(e, g1, i1, j1);
    SpawnFillsOneEmptyCell(g1, c2, t2);
    var r := Spawn(g1, c2, t2);
    var i2, j2 :| 0 <= i2 < n && 0 <= j2 < n && FilledAt(g1, r, i2, j2);
    TilesOnEmptyGrid(e, g1, r, i1, j1, i2, j2);
  }

  /** One tile on an empty grid of side at least 2 leaves an empty cell. */
  lemma RoomAfterOneTile(e: Grid, g1: Grid, i1: nat, j1: nat)
    requires |e| >= 2 && e == EmptyGrid(|e|) && IsGrid(g1, |e|) && i1 < |e| && j1 < |e|
    requires FilledAt(e, g1, i1, j1)
    ensures HasEmptyCell(g1)
  {
    if i1 == 0 && j1 == 0 {
      assert g1[0][1] == 0;
    } else {
      assert g1[0][0] == 0;
    }
  }

  /** Two tiles put one after the other on an empty grid sit at two cells. */
  lemma TilesOnEmptyGrid(e: Grid, g1: Grid, r: Grid, i1: nat, j1: nat, i2: nat, j2: nat)
    requires e == EmptyGrid(|e|) && IsGrid(g1, |e|) && IsGrid(r, |e|)
    requires i1 < |e| && j1 < |e| && i2 < |e| && j2 < |e|
    requires FilledAt(e, g1, i1, j1) && FilledAt(g1, r, i2, j2)
    ensures TwoTilesAt(r, i1, j1, i2, j2)
  {
  }

  // ---------------------------------------------------------------------
  // Undo history
  // ---------------------------------------------------------------------

  /** A deep copy of the grid and the score, taken before a move. */
  datatype Snapshot = Snapshot(grid: Grid, score: nat)

  const HistoryLimit: nat := 10

  /** Push a snapshot, then drop the oldest entry if there are more than ten. */
  function Record(h: seq<Snapshot>, s: Snapshot): seq<Snapshot>
  {
    var pushed := h + [s];
    if |pushed| > HistoryLimit then pushed[1..] else pushed
  }

  /** Pushes a snapshot for each move in turn. */
  function RecordAll(h: seq<Snapshot>, ss: seq<Snapshot>): seq<Snapshot>
    decreases |ss|
  {
    if ss == [] then h else RecordAll(Record(h, ss[0]), ss[1..])
  }

  /** A history of at most ten entries keeps at most ten, the newest last. */
  lemma RecordKeepsNewest(h: seq<Snapshot>, s: Snapshot)
    requires |h| <= HistoryLimit
    ensures |Record(h, s)| == if |h| < HistoryLimit then |h| + 1 else HistoryLimit
    ensures Record(h, s) == (h + [s])[|h| + 1 - |Record(h, s)|..]
    ensures Record(h, s)[|Record(h, s)| - 1] == s
  {
  }

  /**
   * A move that moves nothing pops the snapshot it pushed; when ten entries
   * were there already, the push had evicted the oldest, which stays lost.
   */
  lemma UnmovedHistory(h: seq<Snapshot>, s: Snapshot)
    requires |h| <= HistoryLimit
    ensures var r := Record(h, s); r != [] && r[..|r| - 1] == if |h| < HistoryLimit then h else h[1..]
  {
  }

  /** The newest entries of s: the last ten, or all of them when there are fewer. */
  function Newest(s: seq<Snapshot>): seq<Snapshot>
  {
    if |s| <= HistoryLimit then s else s[|s| - HistoryLimit..]
  }

  /** Trimming before appending more and trimming again keeps the same entries. */
  lemma NewestAppend(a: seq<Snapshot>, b: seq<Snapshot>)
    ensures Newest(Newest(a) + b) == Newest(a + b)
  {
    if |a| > HistoryLimit {
      var t := a[|a| - HistoryLimit..];
      var ab := a + b;
      assert |t + b| > HistoryLimit - 1;
      if |t + b| > HistoryLimit {
        var n := |t + b| - HistoryLimit;
        assert (t + b)[n..] == ab[|ab| - HistoryLimit..] by {
          forall k | 0 <= k < HistoryLimit
            ensures (t + b)[n..][k] == ab[|ab| - HistoryLimit..][k]
          {
            assert (t + b)[n..][k] == (t + b)[n + k];
          }
        }
      } else {
        assert t + b == ab[|ab| - HistoryLimit..];
      }
    }
  }

  /** After any run of moves the history holds the newest entries, up to ten of them. */
  lemma {:induction false} RecordAllKeepsNewest(h: seq<Snapshot>, ss: seq<Snapshot>)
    requires |h| <= HistoryLimit
    ensures RecordAll(h, ss) == Newest(h + ss)
    ensures |ss| >= HistoryLimit ==> RecordAll(h, ss) == ss[|ss| - HistoryLimit..]
    decreases |ss|
  {
    if ss == [] {
      assert h + ss == h;
    } else {
      var h1 := Record(h, ss[0]);
      RecordIsNewest(h, ss[0]);
      RecordAllKeepsNewest(h1, ss[1..]);
      NewestAppend(h + [ss[0]], ss[1..]);
      assert h + [ss[0]] + ss[1..] == h + ss;
    }
    if |ss| >= HistoryLimit {
      NewestOfLong(h, ss);
    }
  }

  lemma RecordIsNewest(h: seq<Snapshot>, s: Snapshot)
    requires |h| <= HistoryLimit
    ensures Record(h, s) == Newest(h + [s])
  {
  }

  lemma NewestOfLong(h: seq<Snapshot>, ss: seq<Snapshot>)
    requires |ss| >= HistoryLimit
    ensures Newest(h + ss) == ss[|ss| - HistoryLimit..]
  {
    var all := h + ss;
    assert all[|all| - HistoryLimit..] == ss[|ss| - HistoryLimit..];
  }

  // ---------------------------------------------------------------------
  // What the engines report after an operation
  // ---------------------------------------------------------------------

  datatype GameView = GameView(grid: Grid, score: nat, gameOver: bool)

  // ---------------------------------------------------------------------
  // Loops both engines run the same way
  // ---------------------------------------------------------------------

  /** The nested loops that list the empty cells before a tile is spawned. */
  method CollectEmptyCells(g: Grid, size: nat) returns (cells: seq<(nat, nat)>)
    requires IsGrid(g, size)
    ensures cells == EmptyCells(g)
  {
    cells := [];
    var i := 0;
    while i < size
      invariant i <= size
      invariant cells == EmptyInRows(g, i)
    {
      var j := 0;
      while j < size
        invariant j <= size
        invariant cells == EmptyInRows(g, i) + EmptyInRow(g, i, j)
      {
        assert EmptyInRow(g, i, j + 1) == EmptyInRow(g, i, j) + if g[i][j] == 0 then [(i, j)] else [];
        if g[i][j] == 0 {
          cells := cells + [(i, j)];
        }
        j := j + 1;
      }
      assert EmptyInRows(g, i + 1) == EmptyInRows(g, i) + EmptyInRow(g, i, size);
      i := i + 1;
    }
  }

  /** The grid g with column j replaced by col. */
  function WithColumn(g: Grid, j: nat, col: seq<nat>): (r: Grid)
    requires Square(g) && j < |g| && |col| == |g|
    ensures IsGrid(r, |g|)
  {
    seq(|g|, a requires 0 <= a < |g| => g[a][j := col[a]])
  }

  /** Write a new column j back cell by cell, noting whether any cell changed. */
  method WriteColumn(g: Grid, j: nat, col: seq<nat>, moved: bool) returns (r: Grid, moved': bool)
    requires Square(g) && j < |g| && |col| == |g|
    ensures r == WithColumn(g, j, col)
    ensures moved' == (moved || col != Column(g, j))
  {
    var n := |g|;
    r, moved' := g, moved;
    var i := 0;
    while i < n
      invariant i <= n && IsGrid(r, n)
      invariant forall a, b :: 0 <= a < n && 0 <= b < n ==> r[a][b] == if b == j && a < i then col[a] else g[a][b]
      invariant moved' == (moved || exists a :: 0 <= a < i && g[a][j] != col[a])
    {
      if r[i][j] != col[i] {
        moved' := true;
      }
      r := r[i := r[i][j := col[i]]];
      i := i + 1;
    }
    GridsEqual(r, WithColumn(g, j, col), n);
    if col != Column(g, j) {
      var a :| 0 <= a < n && col[a] != Column(g, j)[a];
    }
  }

  /** The game-over scan: first for an empty cell, then for equal neighbours across or down. */
  method ScanGameOver(grid: Grid, gridSize: nat) returns (over: bool)
    requires IsGrid(grid, gridSize)
    ensures over == Stuck(grid)
  {
    var i := 0;
    while i < gridSize
      invariant i <= gridSize
      invariant forall a, b :: 0 <= a < i && 0 <= b < gridSize ==> grid[a][b] != 0
    {
      var j := 0;
      while j < gridSize
        invariant j <= gridSize
        invariant forall b :: 0 <= b < j ==> grid[i][b] != 0
      {
        if grid[i][j] == 0 {
          return false;
        }
        j := j + 1;
      }
      i := i + 1;
    }
    i := 0;
    while i < gridSize
      invariant i <= gridSize
      invariant forall a, b :: 0 <= a < i && 0 <= b < gridSize ==> !MergeableAt(grid, a, b)
    {
      var j := 0;
      while j < gridSize
        invariant j <= gridSize
        invariant forall b :: 0 <= b < j ==> !MergeableAt(grid, i, b)
      {
        var current := grid[i][j];
        if j < gridSize - 1 && grid[i][j + 1] == current {
          assert MergeableAt(grid, i, j);
          return false;
        }
        if i < gridSize - 1 && grid[i + 1][j] == current {
          assert MergeableAt(grid, i, j);
          return false;
        }
        j := j + 1;
      }
      i := i + 1;
    }
    return true;
  }

  // What the loops over the lines of a move know part way through

  /** The first i rows of g, each slid in direction d. */
  function SlidRows(g: Grid, d: Direction, i: nat): (rows: Grid)
    requires Square(g) && i <= |g|
    ensures |rows| == i && forall k :: 0 <= k < i ==> |rows[k]| == |g|
  {
    if i == 0 then [] else SlidRows(g, d, i - 1) + [SlideToward(g[i - 1], d).line]
  }

  /** Row k of the first i slid rows is row k slid. */
  lemma {:induction false} SlidRowsAt(g: Grid, d: Direction, i: nat)
    requires Square(g) && i <= |g|
    ensures forall k :: 0 <= k < i ==> SlidRows(g, d, i)[k] == SlideToward(g[k], d).line
  {
    if i > 0 {
      SlidRowsAt(g, d, i - 1);
    }
  }

  /** After the first i rows: those rows slid, the others untouched. */
  predicate RowsDone(g: Grid, d: Direction, i: nat, r: Grid, gain: nat, moved: bool)
    requires Square(g) && i <= |g|
  {
    |r| == |g| && r[..i] == SlidRows(g, d, i) &&
    (forall k :: i <= k < |g| ==> r[k] == g[k]) &&
    gain == GainUpTo(g, d, i) &&
    moved == (SlidRows(g, d, i) != g[..i])
  }

  lemma RowsDoneShape(g: Grid, d: Direction, i: nat, r: Grid, gain: nat, moved: bool)
    requires Square(g) && i < |g| && RowsDone(g, d, i, r, gain, moved)
    ensures IsGrid(r, |g|) && r[i] == g[i]
  {
    forall k | 0 <= k < i
      ensures |r[k]| == |g|
    {
      assert r[k] == r[..i][k];
    }
  }

  /** Two sequences differ on their first i + 1 entries when they differ on the first i or at i. */
  lemma PrefixDiffers<T>(a: seq<T>, b: seq<T>, i: nat)
    requires i < |a| && i < |b|
    ensures (a[..i + 1] != b[..i + 1]) == (a[..i] != b[..i] || a[i] != b[i])
  {
    assert a[..i + 1] == a[..i] + [a[i]] && b[..i + 1] == b[..i] + [b[i]];
    if a[..i] != b[..i] {
      var k :| 0 <= k < i && a[..i][k] != b[..i][k];
      assert a[..i + 1][k] != b[..i + 1][k];
    }
  }

  lemma RowStep(g: Grid, d: Direction, i: nat, r: Grid, gain: nat, moved: bool, row: seq<nat>, inc: nat)
    requires Square(g) && Horizontal(d) && i < |g| && RowsDone(g, d, i, r, gain, moved)
    requires Slid(row, inc) == SlideToward(g[i], d)
    ensures RowsDone(g, d, i + 1, r[i := row], gain + inc, moved || row != g[i])
  {
    var s := SlidRows(g, d, i);
    var s' := SlidRows(g, d, i + 1);
    assert s' == s + [row];
    assert r[i := row][..i + 1] == s' by {
      assert r[i := row][..i + 1] == r[..i] + [row];
    }
    assert gain + inc == GainUpTo(g, d, i + 1) by {
      assert LineOf(g, d, i) == g[i];
    }
    PrefixDiffers(s', g, i);
    assert s'[..i + 1] == s' && s'[..i] == s;
  }

  lemma RowsFinished(g: Grid, d: Direction, r: Grid, gain: nat, moved: bool)
    requires Square(g) && Horizontal(d) && RowsDone(g, d, |g|, r, gain, moved)
    ensures r == MoveGrid(g, d) && gain == MoveGain(g, d) && moved == Changes(g, d)
  {
    SlidRowsAt(g, d, |g|);
    assert r[..|g|] == r && g[..|g|] == g;
    var m := MoveGrid(g, d);
    assert forall k :: 0 <= k < |g| ==> m[k] == SlideToward(g[k], d).line;
  }

  /** The first j columns of g, each slid in direction d. */
  function SlidColumns(g: Grid, d: Direction, j: nat): (cols: Grid)
    requires Square(g) && j <= |g|
    ensures |cols| == j && forall b :: 0 <= b < j ==> |cols[b]| == |g|
  {
    if j == 0 then [] else SlidColumns(g, d, j - 1) + [SlideToward(Column(g, j - 1), d).line]
  }

  /** Column b of the first j slid columns is column b slid. */
  lemma {:induction false} SlidColumnsAt(g: Grid, d: Direction, j: nat)
    requires Square(g) && j <= |g|
    ensures forall b :: 0 <= b < j ==> SlidColumns(g, d, j)[b] == SlideToward(Column(g, b), d).line
  {
    if j > 0 {
      SlidColumnsAt(g, d, j - 1);
    }
  }

  /** The grid g with its first |cs| columns replaced by cs. */
  function PartlyMoved(g: Grid, cs: Grid): (r: Grid)
    requires Square(g) && |cs| <= |g| && forall b :: 0 <= b < |cs| ==> |cs[b]| == |g|
    ensures IsGrid(r, |g|)
  {
    seq(|g|, a requires 0 <= a < |g| =>
      seq(|g|, b requires 0 <= b < |g| => if b < |cs| then cs[b][a] else g[a][b]))
  }

  /** Some column of cs differs from the same column of g. */
  predicate ColumnsDiffer(g: Grid, cs: Grid)
    requires Square(g) && |cs| <= |g| && forall b :: 0 <= b < |cs| ==> |cs[b]| == |g|
  {
    exists b :: 0 <= b < |cs| && cs[b] != Column(g, b)
  }

  /** After the first j columns: those columns slid, the others untouched. */
  predicate ColumnsDone(g: Grid, d: Direction, j: nat, r: Grid, gain: nat, moved: bool)
    requires Square(g) && j <= |g|
  {
    r == PartlyMoved(g, SlidColumns(g, d, j)) &&
    gain == GainUpTo(g, d, j) &&
    moved == ColumnsDiffer(g, SlidColumns(g, d, j))
  }

  lemma ColumnsStart(g: Grid, d: Direction)
    requires Square(g)
    ensures ColumnsDone(g, d, 0, g, 0, false)
  {
    GridsEqual(g, PartlyMoved(g, SlidColumns(g, d, 0)), |g|);
  }

  lemma ColumnsDoneShape(g: Grid, d: Direction, j: nat, r: Grid, gain: nat, moved: bool)
    requires Square(g) && j < |g| && ColumnsDone(g, d, j, r, gain, moved)
    ensures IsGrid(r, |g|) && Column(r, j) == Column(g, j)
  {
  }

  lemma ColumnStep(g: Grid, d: Direction, j: nat, r: Grid, gain: nat, moved: bool, col: seq<nat>, inc: nat, r': Grid, moved': bool)
    requires Square(g) && !Horizontal(d) && j < |g| && ColumnsDone(g, d, j, r, gain, moved)
    requires Slid(col, inc) == SlideToward(Column(g, j), d)
    requires r' == WithColumn(r, j, col) && moved' == (moved || col != Column(r, j))
    ensures ColumnsDone(g, d, j + 1, r', gain + inc, moved')
  {
    var cs := SlidColumns(g, d, j);
    assert SlidColumns(g, d, j + 1) == cs + [col];
    assert gain + inc == GainUpTo(g, d, j + 1) by {
      assert LineOf(g, d, j) == Column(g, j);
    }
    WriteNextColumn(g, cs, col);
    ColumnsDoneShape(g, d, j, r, gain, moved);
    DifferNextColumn(g, cs, col);
  }

  /** Writing column |cs| into a grid whose first |cs| columns are cs. */
  lemma WriteNextColumn(g: Grid, cs: Grid, col: seq<nat>)
    requires Square(g) && |cs| < |g| && |col| == |g| && forall b :: 0 <= b < |cs| ==> |cs[b]| == |g|
    ensures WithColumn(PartlyMoved(g, cs), |cs|, col) == PartlyMoved(g, cs + [col])
  {
    GridsEqual(WithColumn(PartlyMoved(g, cs), |cs|, col), PartlyMoved(g, cs + [col]), |g|);
  }

  lemma DifferNextColumn(g: Grid, cs: Grid, col: seq<nat>)
    requires Square(g) && |cs| < |g| && |col| == |g| && forall b :: 0 <= b < |cs| ==> |cs[b]| == |g|
    ensures ColumnsDiffer(g, cs + [col]) == (ColumnsDiffer(g, cs) || col != Column(g, |cs|))
  {
    var cs' := cs + [col];
    if ColumnsDiffer(g, cs) {
      var b :| 0 <= b < |cs| && cs[b] != Column(g, b);
      assert cs'[b] != Column(g, b);
    }
    if col != Column(g, |cs|) {
      assert cs'[|cs|] != Column(g, |cs|);
    }
  }

  lemma ColumnsFinished(g: Grid, d: Direction, r: Grid, gain: nat, moved: bool)
    requires Square(g) && !Horizontal(d) && ColumnsDone(g, d, |g|, r, gain, moved)
    ensures r == MoveGrid(g, d) && gain == MoveGain(g, d) && moved == Changes(g, d)
  {
    var m, cs := MoveGrid(g, d), SlidColumns(g, d, |g|);
    SlidColumnsAt(g, d, |g|);
    forall a, b | 0 <= a < |g| && 0 <= b < |g|
      ensures r[a][b] == m[a][b]
    {
      assert m[a][b] == SlideToward(Column(g, b), d).line[a] == cs[b][a];
    }
    GridsEqual(r, m, |g|);
    AllColumnsDiffer(g, cs);
  }

  /** With every column replaced, some column differs exactly when the grid does. */
  lemma AllColumnsDiffer(g: Grid, cs: Grid)
    requires Square(g) && |cs| == |g| && forall b :: 0 <= b < |cs| ==> |cs[b]| == |g|
    ensures ColumnsDiffer(g, cs) == (PartlyMoved(g, cs) != g)
  {
    var r := PartlyMoved(g, cs);
    if ColumnsDiffer(g, cs) {
      var b :| 0 <= b < |g| && cs[b] != Column(g, b);
      var a :| 0 <= a < |g| && cs[b][a] != Column(g, b)[a];
      assert r[a][b] != g[a][b];
    } else {
      forall a, b | 0 <= a < |g| && 0 <= b < |g|
        ensures r[a][b] == g[a][b]
      {
        assert cs[b] == Column(g, b);
      }
      GridsEqual(r, g, |g|);
    }
  }
}

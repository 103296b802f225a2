/**
 * How the browser engine picks a move without looking ahead: the greedy
 * one-ply choice of the AI board, and the hint, which picks any move that
 * changes the board.  Both try the directions in the order up, down, left,
 * right.
 */
module Heuristic {
  import opened Board

  /** One draw per direction, in the order up, down, left, right. */
  predicate AreDraws(bonus: seq<real>)
  {
    |bonus| == 4 && forall k :: 0 <= k < 4 ==> IsDraw(bonus[k])
  }

  /** The random part of a rating: below 100 on "easy", below 50 on "medium", nothing otherwise. */
  function Bonus(difficulty: string, r: real): real
  {
    if difficulty == "easy" then r * 100.0
    else if difficulty == "medium" then r * 50.0
    else 0.0
  }

  /**
   * The AI's rating of a direction: the points the move scores, ten for
   * every empty cell it leaves (before a new tile is spawned), and the
   * random bonus drawn with r.
   */
  function Rating(g: Grid, d: Direction, difficulty: string, r: real): real
    requires Square(g)
  {
    MoveGain(g, d) as real + (10 * |EmptyCells(MoveGrid(g, d))|) as real + Bonus(difficulty, r)
  }

  lemma RatingNonNegative(g: Grid, d: Direction, difficulty: string, r: real)
    requires Square(g) && IsDraw(r)
    ensures Rating(g, d, difficulty, r) >= 0.0
  {
  }

  /** Whether each direction of the order moves the grid. */
  function Moving(g: Grid): seq<bool>
    requires Square(g)
  {
    seq(4, k requires 0 <= k < 4 => Changes(g, Order[k]))
  }

  /** The rating of each direction of the order. */
  function Ratings(g: Grid, difficulty: string, bonus: seq<real>): seq<real>
    requires Square(g) && |bonus| == 4
  {
    seq(4, k requires 0 <= k < 4 => Rating(g, Order[k], difficulty, bonus[k]))
  }

  /**
   * The scan over the candidates from the k-th on: a candidate that moves
   * replaces the best so far only when its rating is strictly greater.  The
   * result is the index of the winner.
   */
  function BestFrom(moves: seq<bool>, ratings: seq<real>, k: nat, bestScore: real, best: Option<nat>): (c: Option<nat>)
    requires |moves| == |ratings| && k <= |moves|
    ensures c == best || (c.Some? && k <= c.value < |moves| && moves[c.value])
    decreases |moves| - k
  {
    if k == |moves| then best
    else if moves[k] && ratings[k] > bestScore then BestFrom(moves, ratings, k + 1, ratings[k], Some(k))
    else BestFrom(moves, ratings, k + 1, bestScore, best)
  }

  /** The direction the AI plays: the scan started with no move and a best score of -1. */
  function AiChoice(g: Grid, difficulty: string, bonus: seq<real>): Option<Direction>
    requires Square(g) && |bonus| == 4
  {
    match BestFrom(Moving(g), Ratings(g, difficulty, bonus), 0, -1.0, None)
    case None => None
    case Some(k) => Some(Order[k])
  }

  /**
   * Candidate p beats every earlier moving candidate strictly and every
   * later one of the first k at least as well.
   */
  predicate FirstBest(moves: seq<bool>, ratings: seq<real>, p: nat, k: nat)
    requires |moves| == |ratings| && p < |moves| && k <= |moves|
  {
    (forall q :: 0 <= q < p && moves[q] ==> ratings[q] < ratings[p]) &&
    (forall q :: p < q < k && moves[q] ==> ratings[q] <= ratings[p])
  }

  /** What the scan knows after the first k candidates. */
  predicate Scanned(moves: seq<bool>, ratings: seq<real>, k: nat, bestScore: real, best: Option<nat>)
    requires |moves| == |ratings| && k <= |moves|
  {
    (best.None? ==> bestScore == -1.0 && forall q :: 0 <= q < k ==> !moves[q]) &&
    (best.Some? ==>
      (best.value < k && moves[best.value] && bestScore == ratings[best.value] &&
       FirstBest(moves, ratings, best.value, k)))
  }

  /** Every moving candidate is rated at least 0. */
  predicate RatedNonNegative(moves: seq<bool>, ratings: seq<real>)
    requires |moves| == |ratings|
  {
    forall q :: 0 <= q < |moves| && moves[q] ==> ratings[q] >= 0.0
  }

  /** A moving candidate rated above the best so far becomes the best. */
  lemma ScanTakes(moves: seq<bool>, ratings: seq<real>, k: nat, bestScore: real, best: Option<nat>)
    requires |moves| == |ratings| && k < |moves|
    requires Scanned(moves, ratings, k, bestScore, best)
    requires moves[k] && ratings[k] > bestScore
    ensures Scanned(moves, ratings, k + 1, ratings[k], Some(k))
  {
  }

  /** Any other candidate leaves the best as it was. */
  lemma ScanSkips(moves: seq<bool>, ratings: seq<real>, k: nat, bestScore: real, best: Option<nat>)
    requires |moves| == |ratings| && k < |moves| && RatedNonNegative(moves, ratings)
    requires Scanned(moves, ratings, k, bestScore, best)
    requires !(moves[k] && ratings[k] > bestScore)
    ensures Scanned(moves, ratings, k + 1, bestScore, best)
  {
  }

  lemma {:induction false} BestFromScanned(moves: seq<bool>, ratings: seq<real>, k: nat, bestScore: real, best: Option<nat>)
    requires |moves| == |ratings| && k <= |moves| && RatedNonNegative(moves, ratings)
    requires Scanned(moves, ratings, k, bestScore, best)
    ensures var c := BestFrom(moves, ratings, k, bestScore, best);
      (c.None? ==> forall q :: 0 <= q < |moves| ==> !moves[q]) &&
      (c.Some? ==> c.value < |moves| && moves[c.value] && FirstBest(moves, ratings, c.value, |moves|))
    decreases |moves| - k
  {
    if k < |moves| {
      if moves[k] && ratings[k] > bestScore {
        ScanTakes(moves, ratings, k, bestScore, best);
        BestFromScanned(moves, ratings, k + 1, ratings[k], Some(k));
      } else {
        ScanSkips(moves, ratings, k, bestScore, best);
        BestFromScanned(moves, ratings, k + 1, bestScore, best);
      }
    }
  }

  /**
   * The AI plays nothing exactly when no direction moves; otherwise it plays
   * a direction that moves, rated strictly above every earlier moving
   * direction and at least as high as every later one: the first of the
   * best.
   */
  lemma AiChoiceIsFirstBest(g: Grid, difficulty: string, bonus: seq<real>)
    requires Square(g) && AreDraws(bonus)
    ensures AiChoice(g, difficulty, bonus).None? <==> forall q :: 0 <= q < 4 ==> !Changes(g, Order[q])
    ensures AiChoice(g, difficulty, bonus).Some? ==>
      exists p :: 0 <= p < 4 && AiChoice(g, difficulty, bonus) == Some(Order[p]) &&
        Changes(g, Order[p]) && FirstBest(Moving(g), Ratings(g, difficulty, bonus), p, 4)
  {
    var moves, ratings := Moving(g), Ratings(g, difficulty, bonus);
    RatingsNonNegative(g, difficulty, bonus);
    BestFromScanned(moves, ratings, 0, -1.0, None);
    var c := BestFrom(moves, ratings, 0, -1.0, None);
    if c.Some? {
      var p := c.value;
      assert AiChoice(g, difficulty, bonus) == Some(Order[p]) && moves[p] == Changes(g, Order[p]);
    } else {
      assert forall q :: 0 <= q < 4 ==> moves[q] == Changes(g, Order[q]);
    }
  }

  lemma RatingsNonNegative(g: Grid, difficulty: string, bonus: seq<real>)
    requires Square(g) && AreDraws(bonus)
    ensures RatedNonNegative(Moving(g), Ratings(g, difficulty, bonus))
  {
    forall q | 0 <= q < 4
      ensures Ratings(g, difficulty, bonus)[q] >= 0.0
    {
      RatingNonNegative(g, Order[q], difficulty, bonus[q]);
    }
  }

  /** The direction the AI plays moves the board. */
  lemma AiChoiceMoves(g: Grid, difficulty: string, bonus: seq<real>)
    requires Square(g) && AreDraws(bonus) && AiChoice(g, difficulty, bonus).Some?
    ensures Changes(g, AiChoice(g, difficulty, bonus).value)
  {
    AiChoiceIsFirstBest(g, difficulty, bonus);
  }

  /** When exactly one direction moves, the AI plays it whatever the draws. */
  lemma OnlyMoveIsChosen(g: Grid, difficulty: string, bonus: seq<real>, k: nat)
    requires Square(g) && AreDraws(bonus) && k < 4
    requires Changes(g, Order[k]) && forall q :: 0 <= q < 4 && q != k ==> !Changes(g, Order[q])
    ensures AiChoice(g, difficulty, bonus) == Some(Order[k])
  {
    AiChoiceIsFirstBest(g, difficulty, bonus);
  }

  /** Any difficulty other than "easy" or "medium" makes the AI deterministic. */
  lemma HardIgnoresDraws(g: Grid, difficulty: string, b1: seq<real>, b2: seq<real>)
    requires Square(g) && |b1| == 4 && |b2| == 4
    requires difficulty != "easy" && difficulty != "medium"
    ensures AiChoice(g, difficulty, b1) == AiChoice(g, difficulty, b2)
  {
    var r1, r2 := Ratings(g, difficulty, b1), Ratings(g, difficulty, b2);
    forall k | 0 <= k < 4
      ensures r1[k] == r2[k]
    {
      assert Bonus(difficulty, b1[k]) == 0.0 == Bonus(difficulty, b2[k]);
    }
    assert r1 == r2;
  }

  // ---------------------------------------------------------------------
  // The hint
  // ---------------------------------------------------------------------

  /** The moving directions among the first k of the order, in that order. */
  function ValidMovesFrom(g: Grid, k: nat): (moves: seq<Direction>)
    requires Square(g) && k <= 4
    ensures forall d :: d in moves <==> d in Order[..k] && Changes(g, d)
  {
    if k == 0 then []
    else ValidMovesFrom(g, k - 1) + (if Changes(g, Order[k - 1]) then [Order[k - 1]] else [])
  }

  /** Directions listed in the order up, down, left, right, each at most once. */
  predicate InOrder(moves: seq<Direction>)
  {
    forall i, j :: 0 <= i < j < |moves| ==> Rank(moves[i]) < Rank(moves[j])
  }

  /** A direction ranked after every listed one can be appended in order. */
  lemma AppendInOrder(moves: seq<Direction>, d: Direction)
    requires InOrder(moves)
    requires forall i :: 0 <= i < |moves| ==> Rank(moves[i]) < Rank(d)
    ensures InOrder(moves + [d])
  {
    var ext := moves + [d];
    forall i, j | 0 <= i < j < |ext|
      ensures Rank(ext[i]) < Rank(ext[j])
    {
      assert ext[i] == moves[i];
    }
  }

  /** The directions among the first k of the order whose flag is set, in that order. */
  function Chosen(moving: seq<bool>, k: nat): seq<Direction>
    requires |moving| == 4 && k <= 4
  {
    if k == 0 then []
    else Chosen(moving, k - 1) + (if moving[k - 1] then [Order[k - 1]] else [])
  }

  lemma {:induction false} ChosenInOrder(moving: seq<bool>, k: nat)
    requires |moving| == 4 && k <= 4
    ensures InOrder(Chosen(moving, k))
    ensures forall i :: 0 <= i < |Chosen(moving, k)| ==> Rank(Chosen(moving, k)[i]) < k
  {
    if k > 0 {
      ChosenInOrder(moving, k - 1);
      var earlier := Chosen(moving, k - 1);
      var d := Order[k - 1];
      RankOfOrder(k - 1);
      if moving[k - 1] {
        var moves := earlier + [d];
        AppendInOrder(earlier, d);
        forall i | 0 <= i < |moves|
          ensures Rank(moves[i]) < k
        {
          if i < |earlier| {
            assert moves[i] == earlier[i];
          }
        }
      }
    }
  }

  lemma {:induction false} ValidMovesAreChosen(g: Grid, k: nat)
    requires Square(g) && k <= 4
    ensures ValidMovesFrom(g, k) == Chosen(Moving(g), k)
  {
    if k > 0 {
      ValidMovesAreChosen(g, k - 1);
      assert Moving(g)[k - 1] == Changes(g, Order[k - 1]);
    }
  }

  /** The moving directions come in the order up, down, left, right, each at most once. */
  lemma ValidMovesInOrder(g: Grid, k: nat)
    requires Square(g) && k <= 4
    ensures InOrder(ValidMovesFrom(g, k))
  {
    ValidMovesAreChosen(g, k);
    ChosenInOrder(Moving(g), k);
  }

  function ValidMoves(g: Grid): seq<Direction>
    requires Square(g)
  {
    ValidMovesFrom(g, 4)
  }

  /** The hint: a move picked by the draw among the moving directions, or none. */
  function Hint(g: Grid, pick: real): Option<Direction>
    requires Square(g) && IsDraw(pick)
  {
    var moves := ValidMoves(g);
    if |moves| > 0 then Some(moves[Pick(pick, |moves|)]) else None
  }

  /** The hint is none exactly when no direction moves, and otherwise a direction that moves. */
  lemma HintIsAMove(g: Grid, pick: real)
    requires Square(g) && IsDraw(pick)
    ensures Hint(g, pick).None? <==> forall d :: !Changes(g, d)
    ensures Hint(g, pick).Some? ==> Changes(g, Hint(g, pick).value)
  {
    var moves := ValidMoves(g);
    assert Order[..4] == Order;
    if moves != [] {
      assert moves[Pick(pick, |moves|)] in moves;
    } else {
      forall d
        ensures !Changes(g, d)
      {
        OrderListsAll(d);
      }
    }
  }
}

/**
 * The slide-and-merge step of 2048 on one line of the board: a row for a
 * left or right move, a column for an up or down move.  A cell holding 0 is
 * empty.  Both engines run the same three steps on every line: squeeze out
 * the empty cells, make one merge pass starting at the wall the tiles move
 * toward, and pad with empty cells on the far side.
 */
module Lines {

  /** Total of the tile values on a line. */
  function Sum(s: seq<nat>): nat
  {
    if s == [] then 0 else s[0] + Sum(s[1..])
  }

  /** `k` empty cells. */
  function Zeros(k: nat): seq<nat>
  {
    seq(k, _ => 0)
  }

  /** The line read from its far end. */
  function Rev(s: seq<nat>): seq<nat>
  {
    seq(|s|, k requires 0 <= k < |s| => s[|s| - 1 - k])
  }

  /** Every cell of the line holds a tile. */
  predicate AllTiles(s: seq<nat>)
  {
    forall k :: 0 <= k < |s| ==> s[k] > 0
  }

  /** No two neighbouring cells of the line hold the same value. */
  predicate NoEqualNeighbours(s: seq<nat>)
  {
    forall k :: 1 <= k < |s| ==> s[k - 1] != s[k]
  }

  // ---------------------------------------------------------------------
  // Squeezing out the empty cells
  // ---------------------------------------------------------------------

  /** The tiles of a line in their order, with the empty cells removed. */
  function Compact(s: seq<nat>): (c: seq<nat>)
    ensures |c| <= |s|
    ensures AllTiles(c)
  {
    if s == [] then []
    else if s[0] == 0 then Compact(s[1..])
    else [s[0]] + Compact(s[1..])
  }

  /** Squeezing keeps the tile total. */
  lemma {:induction false} CompactConserves(s: seq<nat>)
    ensures Sum(Compact(s)) == Sum(s)
  {
    if s != [] {
      CompactConserves(s[1..]);
    }
  }

  lemma {:induction false} SumAppend(a: seq<nat>, b: seq<nat>)
    ensures Sum(a + b) == Sum(a) + Sum(b)
  {
    if a == [] {
      assert a + b == b;
    } else {
      assert (a + b)[1..] == a[1..] + b;
      SumAppend(a[1..], b);
    }
  }

  lemma {:induction false} SumZeros(k: nat)
    ensures Sum(Zeros(k)) == 0
  {
    if k > 0 {
      assert Zeros(k)[1..] == Zeros(k - 1);
      SumZeros(k - 1);
    }
  }

  lemma {:induction false} CompactAppend(a: seq<nat>, b: seq<nat>)
    ensures Compact(a + b) == Compact(a) + Compact(b)
  {
    if a == [] {
      assert a + b == b;
    } else {
      assert (a + b)[1..] == a[1..] + b;
      CompactAppend(a[1..], b);
    }
  }

  lemma {:induction false} CompactOfTiles(s: seq<nat>)
    requires AllTiles(s)
    ensures Compact(s) == s
  {
    if s != [] {
      CompactOfTiles(s[1..]);
    }
  }

  lemma {:induction false} CompactZeros(k: nat)
    ensures Compact(Zeros(k)) == []
  {
    if k > 0 {
      assert Zeros(k)[1..] == Zeros(k - 1);
      CompactZeros(k - 1);
    }
  }

  lemma RevAppend(a: seq<nat>, b: seq<nat>)
    ensures Rev(a + b) == Rev(b) + Rev(a)
  {
  }

  lemma RevRev(s: seq<nat>)
    ensures Rev(Rev(s)) == s
  {
  }

  lemma {:induction false} CompactRev(s: seq<nat>)
    ensures Compact(Rev(s)) == Rev(Compact(s))
  {
    if s != [] {
      assert s == [s[0]] + s[1..];
      RevAppend([s[0]], s[1..]);
      assert Rev([s[0]]) == [s[0]];
      CompactAppend(Rev(s[1..]), [s[0]]);
      CompactRev(s[1..]);
      if s[0] != 0 {
        RevAppend([s[0]], Compact(s[1..]));
      }
    }
  }

  // ---------------------------------------------------------------------
  // The merge pass toward the front of the line (left or up)
  // ---------------------------------------------------------------------

  /**
   * One merge pass over squeezed tiles, from the front: two equal neighbours
   * become one tile of twice the value, and the scan goes on with the tile
   * after the pair, so a tile made by a merge never merges again.
   */
  function MergeLeft(c: seq<nat>): (m: seq<nat>)
    ensures |m| <= |c|
    decreases |c|
  {
    if |c| >= 2 && c[0] == c[1] then [2 * c[0]] + MergeLeft(c[2..])
    else if c == [] then []
    else [c[0]] + MergeLeft(c[1..])
  }

  /** The pass keeps the tile total, and makes tiles only out of tiles. */
  lemma {:induction false} MergeLeftConserves(c: seq<nat>)
    ensures Sum(MergeLeft(c)) == Sum(c)
    ensures AllTiles(c) ==> AllTiles(MergeLeft(c))
    decreases |c|
  {
    if |c| >= 2 && c[0] == c[1] {
      assert c[1..][1..] == c[2..];
      MergeLeftConserves(c[2..]);
    } else if c != [] {
      MergeLeftConserves(c[1..]);
    }
  }

  /** The points one merge pass scores: the total of the tiles it makes. */
  function MergeGain(c: seq<nat>): nat
    decreases |c|
  {
    if |c| >= 2 && c[0] == c[1] then 2 * c[0] + MergeGain(c[2..])
    else if c == [] then 0
    else MergeGain(c[1..])
  }

  /** A pass that scores something makes the line shorter. */
  lemma {:induction false} GainShortens(c: seq<nat>)
    requires MergeGain(c) > 0
    ensures |MergeLeft(c)| < |c|
    decreases |c|
  {
    if |c| >= 2 && c[0] == c[1] {
    } else if c != [] {
      GainShortens(c[1..]);
    }
  }

  /** A pass over tiles with no equal neighbours merges nothing. */
  lemma {:induction false} MergeLeftNothingToMerge(c: seq<nat>)
    requires NoEqualNeighbours(c)
    ensures MergeLeft(c) == c && MergeGain(c) == 0
    decreases |c|
  {
    if c != [] {
      MergeLeftNothingToMerge(c[1..]);
    }
  }

  /** A squeeze that changes the line makes it shorter. */
  lemma {:induction false} CompactShortens(s: seq<nat>)
    ensures Compact(s) == s || |Compact(s)| < |s|
  {
    if s != [] && s[0] != 0 {
      CompactShortens(s[1..]);
      assert s == [s[0]] + s[1..];
    }
  }

  /** A pass that changes the tiles makes the line shorter. */
  lemma {:induction false} MergeLeftShortens(c: seq<nat>)
    ensures MergeLeft(c) == c || |MergeLeft(c)| < |c|
    decreases |c|
  {
    if |c| >= 2 && c[0] == c[1] {
    } else if c != [] {
      MergeLeftShortens(c[1..]);
      assert c == [c[0]] + c[1..];
    }
  }

  // ---------------------------------------------------------------------
  // What the merge pass means: the one way of cutting the tiles into
  // single tiles and equal pairs in which no merge was passed over
  // ---------------------------------------------------------------------

  /** A piece of the squeezed line: a tile left alone, or two equal tiles merged. */
  datatype Group = Single(v: nat) | Pair(v: nat)

  /** The tiles a group was made from. */
  function Tiles(g: Group): seq<nat>
  {
    if g.Single? then [g.v] else [g.v, g.v]
  }

  /** The tile a group leaves on the board. */
  function Value(g: Group): nat
  {
    if g.Single? then g.v else 2 * g.v
  }

  function Flatten(gs: seq<Group>): seq<nat>
  {
    if gs == [] then [] else Tiles(gs[0]) + Flatten(gs[1..])
  }

  function Values(gs: seq<Group>): seq<nat>
  {
    if gs == [] then [] else [Value(gs[0])] + Values(gs[1..])
  }

  /** Total of the tiles made by merging. */
  function PairTotal(gs: seq<Group>): nat
  {
    if gs == [] then 0
    else (if gs[0].Pair? then Value(gs[0]) else 0) + PairTotal(gs[1..])
  }

  /** No tile left alone is followed by a group starting with an equal tile. */
  predicate NoSkippedMerge(gs: seq<Group>)
  {
    forall k :: 1 <= k < |gs| ==> gs[k - 1].Single? ==> gs[k - 1].v != gs[k].v
  }

  lemma FlattenHead(gs: seq<Group>)
    requires gs != []
    ensures Flatten(gs) != [] && Flatten(gs)[0] == gs[0].v
  {
  }

  /** The grouping that the merge pass makes, built from the front. */
  function Pairing(c: seq<nat>): (gs: seq<Group>)
    ensures Flatten(gs) == c
    ensures NoSkippedMerge(gs)
    ensures c != [] ==> gs != [] && gs[0].v == c[0]
    decreases |c|
  {
    if |c| >= 2 && c[0] == c[1] then
      assert c == [c[0], c[0]] + c[2..];
      [Pair(c[0])] + Pairing(c[2..])
    else if c == [] then []
    else
      assert c == [c[0]] + c[1..];
      [Single(c[0])] + Pairing(c[1..])
  }

  /**
   * Any grouping of the tiles into single tiles and equal pairs that passes
   * over no possible merge describes the merge pass exactly: the pass leaves
   * the groups' values and scores the total of the merged tiles.  So every
   * tile takes part in at most one merge, and the grouping is unique.
   */
  lemma {:induction false} MergePassMeaning(c: seq<nat>, gs: seq<Group>)
    requires Flatten(gs) == c && NoSkippedMerge(gs)
    ensures MergeLeft(c) == Values(gs)
    ensures MergeGain(c) == PairTotal(gs)
    decreases |gs|
  {
    if gs != [] {
      var g, rest := gs[0], gs[1..];
      assert NoSkippedMerge(rest) by {
        forall k | 1 <= k < |rest| ensures rest[k - 1].Single? ==> rest[k - 1].v != rest[k].v {
          assert rest[k - 1] == gs[k] && rest[k] == gs[k + 1];
        }
      }
      MergePassMeaning(Flatten(rest), rest);
      if g.Pair? {
        assert c[0] == c[1] == g.v;
        assert c[2..] == Flatten(rest);
      } else {
        assert c[1..] == Flatten(rest);
        if rest != [] {
          FlattenHead(rest);
          assert c[1] == rest[0].v;
          assert gs[0].v != gs[1].v;
        }
      }
    }
  }

  // ---------------------------------------------------------------------
  // The merge pass toward the back of the line (right or down)
  // ---------------------------------------------------------------------

  /** One merge pass from the far end of the squeezed tiles. */
  function MergeRight(c: seq<nat>): (m: seq<nat>)
    ensures |m| <= |c|
    decreases |c|
  {
    if |c| >= 2 && c[|c| - 1] == c[|c| - 2] then MergeRight(c[..|c| - 2]) + [2 * c[|c| - 1]]
    else if c == [] then []
    else MergeRight(c[..|c| - 1]) + [c[|c| - 1]]
  }

  function MergeRightGain(c: seq<nat>): nat
    decreases |c|
  {
    if |c| >= 2 && c[|c| - 1] == c[|c| - 2] then MergeRightGain(c[..|c| - 2]) + 2 * c[|c| - 1]
    else if c == [] then 0
    else MergeRightGain(c[..|c| - 1])
  }

  /** The pass from the far end is the pass from the front on the reversed tiles. */
  lemma {:induction false} MergeRightMirrorsLeft(c: seq<nat>)
    ensures MergeRight(c) == Rev(MergeLeft(Rev(c)))
    ensures MergeRightGain(c) == MergeGain(Rev(c))
    decreases |c|
  {
    var n := |c|;
    var r := Rev(c);
    if n >= 2 && c[n - 1] == c[n - 2] {
      assert r[2..] == Rev(c[..n - 2]);
      MergeRightMirrorsLeft(c[..n - 2]);
      RevAppend([2 * c[n - 1]], MergeLeft(r[2..]));
    } else if n > 0 {
      assert r[1..] == Rev(c[..n - 1]);
      MergeRightMirrorsLeft(c[..n - 1]);
      RevAppend([c[n - 1]], MergeLeft(r[1..]));
    }
  }

  // ---------------------------------------------------------------------
  // The whole step on one line
  // ---------------------------------------------------------------------

  /** A line after a move, with the points the move scored on it. */
  datatype Slid = Slid(line: seq<nat>, gain: nat)

  /** Left (or up): squeeze, merge from the front, pad the end with empty cells. */
  function SlideLeft(line: seq<nat>): (r: Slid)
    ensures |r.line| == |line|
  {
    var m := MergeLeft(Compact(line));
    Slid(m + Zeros(|line| - |m|), MergeGain(Compact(line)))
  }

  /** Right (or down): squeeze, merge from the far end, pad the start with empty cells. */
  function SlideRight(line: seq<nat>): (r: Slid)
    ensures |r.line| == |line|
  {
    var m := MergeRight(Compact(line));
    Slid(Zeros(|line| - |m|) + m, MergeRightGain(Compact(line)))
  }

  /**
   * A left slide leaves the values of the merge grouping of the line's tiles
   * at the front, empty cells behind them, and scores the merged tiles.
   */
  lemma SlideLeftMeaning(line: seq<nat>, gs: seq<Group>)
    requires Flatten(gs) == Compact(line) && NoSkippedMerge(gs)
    ensures |Values(gs)| <= |line| && SlideLeft(line).line == Values(gs) + Zeros(|line| - |Values(gs)|)
    ensures SlideLeft(line).gain == PairTotal(gs)
  {
    MergePassMeaning(Compact(line), gs);
  }

  /** A right slide is a left slide of the reversed line, reversed back. */
  lemma SlideRightMirrorsLeft(line: seq<nat>)
    ensures SlideRight(line).line == Rev(SlideLeft(Rev(line)).line)
    ensures SlideRight(line).gain == SlideLeft(Rev(line)).gain
  {
    var c := Compact(line);
    CompactRev(line);
    MergeRightMirrorsLeft(c);
    var m := MergeLeft(Rev(c));
    RevAppend(m, Zeros(|line| - |m|));
  }

  /** A slide keeps the line's tile total. */
  lemma SlideLeftConserves(line: seq<nat>)
    ensures Sum(SlideLeft(line).line) == Sum(line)
  {
    var m := MergeLeft(Compact(line));
    SumAppend(m, Zeros(|line| - |m|));
    SumZeros(|line| - |m|);
    MergeLeftConserves(Compact(line));
    CompactConserves(line);
  }

  lemma {:induction false} SumRev(s: seq<nat>)
    ensures Sum(Rev(s)) == Sum(s)
  {
    if s != [] {
      assert s == [s[0]] + s[1..];
      RevAppend([s[0]], s[1..]);
      assert Rev([s[0]]) == [s[0]];
      SumAppend(Rev(s[1..]), [s[0]]);
      SumRev(s[1..]);
    }
  }

  lemma SlideRightConserves(line: seq<nat>)
    ensures Sum(SlideRight(line).line) == Sum(line)
  {
    SlideRightMirrorsLeft(line);
    SlideLeftConserves(Rev(line));
    SumRev(SlideLeft(Rev(line)).line);
    SumRev(line);
  }

  /** A left slide that changes the line leaves its last cell empty. */
  lemma SlideLeftLeavesRoom(line: seq<nat>)
    requires SlideLeft(line).line != line
    ensures |line| > 0 && SlideLeft(line).line[|line| - 1] == 0
  {
    var c := Compact(line);
    var m := MergeLeft(c);
    CompactShortens(line);
    MergeLeftShortens(c);
    assert |m| == |line| ==> SlideLeft(line).line == m + [] == line;
  }

  /** A right slide that changes the line leaves its first cell empty. */
  lemma SlideRightLeavesRoom(line: seq<nat>)
    requires SlideRight(line).line != line
    ensures |line| > 0 && SlideRight(line).line[0] == 0
  {
    SlideRightMirrorsLeft(line);
    RevRev(line);
    assert SlideLeft(Rev(line)).line != Rev(line);
    SlideLeftLeavesRoom(Rev(line));
  }

  /** A left slide that leaves the line as it was scores nothing. */
  lemma SlideLeftStill(line: seq<nat>)
    requires SlideLeft(line).line == line
    ensures SlideLeft(line).gain == 0
  {
    var c := Compact(line);
    var m := MergeLeft(c);
    CompactAppend(m, Zeros(|line| - |m|));
    CompactZeros(|line| - |m|);
    MergeLeftConserves(c);
    CompactOfTiles(m);
    assert |m| == |c|;
    if MergeGain(c) > 0 {
      GainShortens(c);
    }
  }

  lemma SlideRightStill(line: seq<nat>)
    requires SlideRight(line).line == line
    ensures SlideRight(line).gain == 0
  {
    SlideRightMirrorsLeft(line);
    RevRev(SlideLeft(Rev(line)).line);
    SlideLeftStill(Rev(line));
  }

  /** A full line with no equal neighbours does not move and scores nothing. */
  lemma SlideLeftBlocked(line: seq<nat>)
    requires AllTiles(line) && NoEqualNeighbours(line)
    ensures SlideLeft(line) == Slid(line, 0)
  {
    CompactOfTiles(line);
    MergeLeftNothingToMerge(line);
  }

  lemma SlideRightBlocked(line: seq<nat>)
    requires AllTiles(line) && NoEqualNeighbours(line)
    ensures SlideRight(line) == Slid(line, 0)
  {
    SlideRightMirrorsLeft(line);
    SlideLeftBlocked(Rev(line));
    RevRev(line);
  }

  /** Worked examples of a left (or up) slide. */
  lemma SlideLeftExamples()
    ensures SlideLeft([2, 2, 4, 0]) == Slid([4, 4, 0, 0], 4)
    ensures SlideLeft([2, 2, 2, 2]) == Slid([4, 4, 0, 0], 8)
  {
  }

  /** Worked examples of a right (or down) slide. */
  lemma SlideRightExamples()
    ensures SlideRight([2, 2, 2, 0]) == Slid([0, 0, 2, 4], 4)
    ensures SlideRight([2, 2, 2, 2]) == Slid([0, 0, 4, 4], 8)
  {
  }

  /** A right slide of a line of three, and of a line that is already packed to the right. */
  lemma SlideRightShortExamples()
    ensures SlideRight([2, 2, 2]) == Slid([0, 2, 4], 4)
    ensures SlideRight([0, 0, 0, 2]) == Slid([0, 0, 0, 2], 0)
  {
  }

  // ---------------------------------------------------------------------
  // One step of the merge loops of both engines
  // ---------------------------------------------------------------------

  /** Doubling the front tile of an equal pair and cutting out the second keeps the merge pass. */
  lemma FrontMergeStep(row: seq<nat>, j: nat, next: seq<nat>)
    requires j + 1 < |row| && row[j] == row[j + 1]
    requires next == row[..j] + [2 * row[j]] + row[j + 2..]
    ensures next[..j + 1] + MergeLeft(next[j + 1..]) == row[..j] + MergeLeft(row[j..])
    ensures 2 * row[j] + MergeGain(next[j + 1..]) == MergeGain(row[j..])
  {
    var tail := row[j..];
    assert tail[0] == tail[1] && tail[2..] == row[j + 2..];
    assert MergeLeft(tail) == [2 * row[j]] + MergeLeft(row[j + 2..]);
    assert next[..j + 1] == row[..j] + [2 * row[j]];
    assert next[j + 1..] == row[j + 2..];
  }

  /** Stepping past a tile unlike its successor keeps the merge pass. */
  lemma FrontSkipStep(row: seq<nat>, j: nat)
    requires j + 1 < |row| && row[j] != row[j + 1]
    ensures row[..j + 1] + MergeLeft(row[j + 1..]) == row[..j] + MergeLeft(row[j..])
    ensures MergeGain(row[j + 1..]) == MergeGain(row[j..])
  {
    assert row[j..][1..] == row[j + 1..];
    assert row[..j + 1] == row[..j] + [row[j]];
  }

  /** Doubling the back tile of an equal pair and cutting out the first keeps the merge pass. */
  lemma BackMergeStep(row: seq<nat>, j: nat, next: seq<nat>)
    requires 1 <= j < |row| && row[j] == row[j - 1]
    requires next == row[..j - 1] + [2 * row[j]] + row[j + 1..]
    ensures MergeRight(next[..j - 1]) + next[j - 1..] == MergeRight(row[..j + 1]) + row[j + 1..]
    ensures MergeRightGain(next[..j - 1]) + 2 * row[j] == MergeRightGain(row[..j + 1])
  {
    assert row[..j + 1][..j - 1] == row[..j - 1];
    assert next[..j - 1] == row[..j - 1];
    assert next[j - 1..] == [2 * row[j]] + row[j + 1..];
  }

  /** Stepping past a tile unlike its predecessor keeps the merge pass. */
  lemma BackSkipStep(row: seq<nat>, j: nat)
    requires 1 <= j < |row| && row[j] != row[j - 1]
    ensures MergeRight(row[..j]) + row[j..] == MergeRight(row[..j + 1]) + row[j + 1..]
    ensures MergeRightGain(row[..j]) == MergeRightGain(row[..j + 1])
  {
    assert row[..j + 1][..j] == row[..j];
    assert row[j..] == [row[j]] + row[j + 1..];
  }

  // ---------------------------------------------------------------------
  // The padding loops both engines run
  // ---------------------------------------------------------------------

  /** Pushes empty cells onto the end of a merged line until it is full again. */
  method PadEnd(row: seq<nat>, size: nat) returns (r: seq<nat>)
    requires |row| <= size
    ensures r == row + Zeros(size - |row|)
  {
    r := row;
    while |r| < size
      invariant |row| <= |r| <= size
      invariant r == row + Zeros(|r| - |row|)
    {
      r := r + [0];
    }
  }

  /** Pushes empty cells onto the front of a merged line until it is full again. */
  method PadStart(row: seq<nat>, size: nat) returns (r: seq<nat>)
    requires |row| <= size
    ensures r == Zeros(size - |row|) + row
  {
    r := row;
    while |r| < size
      invariant |row| <= |r| <= size
      invariant r == Zeros(|r| - |row|) + row
    {
      r := [0] + r;
    }
  }
}

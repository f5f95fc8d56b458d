/** The heuristic computer player: win now, else block, else centre, else a
    random empty corner, else a random empty side, else the lowest empty
    cell. No rule writes to the real board: the win and block tests write to
    a copy, and the other rules only read the board. */
module Selector {
  import opened Engine

  function Opponent(p: Player): (q: Player)
    ensures q != p
  {
    if p == X then O else X
  }

  /** The board with `p` written at `i` (a copy; `b` itself is a value). */
  function Place(b: Board, i: Index, p: Player): (r: Board)
    ensures r[i] == Mark(p)
    ensures forall j: Index :: j != i ==> r[j] == b[j]
  {
    b[i := Mark(p)]
  }

  /** Putting `p` at `i` yields a board with some winner. As in the source,
      the test is for any winner, not for `p` in particular. */
  predicate MakesWinner(b: Board, p: Player, i: Index)
  {
    CalculateWinner(Place(b, i, p)).Some?
  }

  /** The first candidate, in list order, that passes `test`. */
  function FirstPassing(cands: seq<Index>, test: Index -> bool): (r: Option<Index>)
    decreases |cands|
    ensures r.None? <==> forall m :: 0 <= m < |cands| ==> !test(cands[m])
    ensures r.Some? ==>
      exists k :: 0 <= k < |cands| && cands[k] == r.value && test(r.value) &&
        forall m :: 0 <= m < k ==> !test(cands[m])
  {
    if cands == [] then None
    else if test(cands[0]) then Some(cands[0])
    else
      var r := FirstPassing(cands[1..], test);
      assert forall m :: 1 <= m < |cands| ==> cands[m] == cands[1..][m - 1];
      r
  }

  /** On strictly ascending candidates, the first one that passes is the
      least one that passes. */
  lemma FirstPassingIsLeast(cands: seq<Index>, test: Index -> bool)
    requires forall m, n :: 0 <= m < n < |cands| ==> cands[m] < cands[n]
    ensures var r := FirstPassing(cands, test);
      r.Some? ==> forall j :: j in cands && j < r.value ==> !test(j)
  {
    var r := FirstPassing(cands, test);
    if r.Some? {
      var k :| 0 <= k < |cands| && cands[k] == r.value &&
        forall m :: 0 <= m < k ==> !test(cands[m]);
      forall j | j in cands && j < r.value ensures !test(j) {
        var m :| 0 <= m < |cands| && cands[m] == j;
        assert m < k;
      }
    }
  }

  /** The lowest empty cell at which `p` makes a winner, if there is one:
      the source's scan of the empty cells in ascending order, each tried on
      a copy of the board. */
  function TryWinningMove(b: Board, p: Player): (r: Option<Index>)
    ensures r.None? <==> forall j: Index :: b[j] == Empty ==> !MakesWinner(b, p, j)
    ensures r.Some? ==> b[r.value] == Empty && MakesWinner(b, p, r.value)
    ensures r.Some? ==>
      forall j: Index :: j < r.value && b[j] == Empty ==> !MakesWinner(b, p, j)
  {
    var cands := EmptyIndices(b);
    var test := (i: Index) => MakesWinner(b, p, i);
    FirstPassingIsLeast(cands, test);
    assert forall j: Index :: b[j] == Empty <==> j in cands;
    FirstPassing(cands, test)
  }

  /** The lowest empty cell at which the opponent of `p` makes a winner. */
  function TryBlockingMove(b: Board, p: Player): (r: Option<Index>)
    ensures r.None? <==> forall j: Index :: b[j] == Empty ==> !MakesWinner(b, Opponent(p), j)
    ensures r.Some? ==> b[r.value] == Empty && MakesWinner(b, Opponent(p), r.value)
    ensures r.Some? ==>
      forall j: Index :: j < r.value && b[j] == Empty ==> !MakesWinner(b, Opponent(p), j)
  {
    TryWinningMove(b, Opponent(p))
  }

  /** The corner positions and the side positions, in the order the source
      filters them. */
  const CORNERS: seq<Index> := [0, 2, 6, 8]
  const SIDES: seq<Index> := [1, 3, 5, 7]

  /** The candidates whose cell is empty, in their original order: a
      candidate is kept exactly when its cell is empty, the list never grows,
      and an ascending candidate list stays ascending (so for `CORNERS` and
      `SIDES` the result is fixed by its members). */
  function EmptyAmong(b: Board, cands: seq<Index>): (r: seq<Index>)
    ensures forall i :: i in r <==> i in cands && b[i] == Empty
    ensures |r| <= |cands|
    ensures (forall m, n :: 0 <= m < n < |cands| ==> cands[m] < cands[n]) ==>
      forall m, n :: 0 <= m < n < |r| ==> r[m] < r[n]
  {
    if cands == [] then []
    else
      var rest := EmptyAmong(b, cands[1..]);
      assert (forall m, n :: 0 <= m < n < |cands| ==> cands[m] < cands[n]) ==>
        forall k :: 0 <= k < |rest| ==> cands[0] < rest[k] by {
        forall k | 0 <= k < |rest| ensures rest[k] in cands[1..] {
          assert rest[k] in rest;
        }
      }
      (if b[cands[0]] == Empty then [cands[0]] else []) + rest
  }

  /** A strictly ascending list whose entries all equal `c`, and which holds
      `c`, is `[c]`. */
  lemma AscendingConstantIsSingleton(r: seq<Index>, c: Index)
    requires forall m, n :: 0 <= m < n < |r| ==> r[m] < r[n]
    requires forall k :: 0 <= k < |r| ==> r[k] == c
    requires c in r
    ensures r == [c]
  {
    assert |r| > 0;
    if |r| >= 2 {
      FirstTwoDiffer(r);
      assert false;
    }
  }

  lemma FirstTwoDiffer(r: seq<Index>)
    requires |r| >= 2 && forall m, n :: 0 <= m < n < |r| ==> r[m] < r[n]
    ensures r[0] != r[1]
  {
  }

  /** With a single empty corner the filtered list is that corner alone, so
      the only roll that fits picks it. */
  lemma SingleEmptyCorner(b: Board, c: Index)
    requires c in CORNERS && b[c] == Empty
    requires forall d :: d in CORNERS && d != c ==> b[d] != Empty
    ensures EmptyAmong(b, CORNERS) == [c]
    ensures forall cornerRoll: nat, sideRoll: nat :: RollsFit(b, cornerRoll, sideRoll) ==> cornerRoll == 0
  {
    var r := EmptyAmong(b, CORNERS);
    assert c in r;
    forall k | 0 <= k < |r| ensures r[k] == c {
      assert r[k] in r;
    }
    AscendingConstantIsSingleton(r, c);
  }

  /** `roll` stands for `Math.floor(Math.random() * n)`: a position in a
      non-empty candidate list of length `n` (any value when `n` is 0, since
      it is then not used). */
  predicate RollFits(roll: nat, n: nat)
  {
    n == 0 || roll < n
  }

  /** The random choices the selector needs fit the board. */
  predicate RollsFit(b: Board, cornerRoll: nat, sideRoll: nat)
  {
    RollFits(cornerRoll, |EmptyAmong(b, CORNERS)|) && RollFits(sideRoll, |EmptyAmong(b, SIDES)|)
  }

  lemma EveryCellIsCentreCornerOrSide(i: Index)
    ensures i == 4 || i in CORNERS || i in SIDES
  {
  }

  /** Centre, else the empty corner at position `cornerRoll`, else the empty
      side at position `sideRoll`; nothing only on a full board. */
  function ChooseStrategicMove(b: Board, cornerRoll: nat, sideRoll: nat): (r: Option<Index>)
    requires RollsFit(b, cornerRoll, sideRoll)
    ensures r.None? <==> IsFull(b)
    ensures r.Some? ==> b[r.value] == Empty
    ensures b[4] == Empty ==> r == Some(4)
    ensures b[4] != Empty && (exists c :: c in CORNERS && b[c] == Empty) ==>
      r.Some? && r.value in CORNERS
    ensures b[4] != Empty && (forall c :: c in CORNERS ==> b[c] != Empty) && r.Some? ==>
      r.value in SIDES
  {
    if b[4] == Empty then Some(4)
    else
      var corners := EmptyAmong(b, CORNERS);
      if |corners| > 0 then
        assert corners[cornerRoll] in corners;
        Some(corners[cornerRoll])
      else
        var sides := EmptyAmong(b, SIDES);
        if |sides| > 0 then
          assert sides[sideRoll] in sides;
          Some(sides[sideRoll])
        else
          assert IsFull(b) by {
            forall i: Index ensures b[i] != Empty {
              EveryCellIsCentreCornerOrSide(i);
              if i in CORNERS {
                assert i !in corners;
              } else if i in SIDES {
                assert i !in sides;
              }
            }
          }
          None
  }

  /** Every empty corner is the choice of some roll once the centre is taken,
      and every empty side once the centre and the corners are taken. */
  lemma {:induction false} EveryCandidateReachable(b: Board, i: Index)
    requires b[i] == Empty && b[4] != Empty
    requires i in CORNERS || (i in SIDES && forall c :: c in CORNERS ==> b[c] != Empty)
    ensures exists cornerRoll: nat, sideRoll: nat ::
      RollsFit(b, cornerRoll, sideRoll) && ChooseStrategicMove(b, cornerRoll, sideRoll) == Some(i)
  {
    var corners := EmptyAmong(b, CORNERS);
    var sides := EmptyAmong(b, SIDES);
    if i in CORNERS {
      assert i in corners;
      var k :| 0 <= k < |corners| && corners[k] == i;
      assert RollsFit(b, k, 0);
      assert ChooseStrategicMove(b, k, 0) == Some(i);
    } else {
      assert i in sides;
      var k :| 0 <= k < |sides| && sides[k] == i;
      assert RollsFit(b, 0, k);
      assert ChooseStrategicMove(b, 0, k) == Some(i);
    }
  }

  /** The fallback rule: the lowest empty cell, nothing on a full board. */
  function LowestEmpty(b: Board): (r: Option<Index>)
    ensures r.None? <==> IsFull(b)
    ensures r.Some? ==> b[r.value] == Empty && forall j: Index :: j < r.value ==> b[j] != Empty
  {
    var empties := EmptyIndices(b);
    if |empties| > 0 then Some(empties[0]) else None
  }

  /** The computer's move for `p`: win, else block, else strategy, else the
      lowest empty cell. It is nothing exactly when the board is full, and
      otherwise an empty cell. */
  function ComputeBestMove(b: Board, p: Player, cornerRoll: nat, sideRoll: nat): (r: Option<Index>)
    requires RollsFit(b, cornerRoll, sideRoll)
    ensures r.None? <==> IsFull(b)
    ensures r.Some? ==> b[r.value] == Empty
  {
    var winIdx := TryWinningMove(b, p);
    if winIdx.Some? then winIdx
    else
      var blockIdx := TryBlockingMove(b, p);
      if blockIdx.Some? then blockIdx
      else
        var strat := ChooseStrategicMove(b, cornerRoll, sideRoll);
        if strat.Some? then strat
        else LowestEmpty(b)
  }

  /** The fixed priority of the selector, stated on what each rule means:
      the lowest cell that makes a winner for `p`; else the lowest cell that
      makes a winner for the opponent; else the centre; else an empty corner;
      else an empty side. */
  lemma BestMovePriority(b: Board, p: Player, cornerRoll: nat, sideRoll: nat)
    requires RollsFit(b, cornerRoll, sideRoll)
    ensures var r := ComputeBestMove(b, p, cornerRoll, sideRoll);
      && ((exists i: Index :: b[i] == Empty && MakesWinner(b, p, i)) ==>
            r.Some? && MakesWinner(b, p, r.value) &&
            forall j: Index :: j < r.value && b[j] == Empty ==> !MakesWinner(b, p, j))
      && ((forall i: Index :: b[i] == Empty ==> !MakesWinner(b, p, i)) &&
          (exists i: Index :: b[i] == Empty && MakesWinner(b, Opponent(p), i)) ==>
            r.Some? && MakesWinner(b, Opponent(p), r.value) &&
            forall j: Index :: j < r.value && b[j] == Empty ==> !MakesWinner(b, Opponent(p), j))
      && ((forall i: Index :: b[i] == Empty ==> !MakesWinner(b, p, i) && !MakesWinner(b, Opponent(p), i)) ==>
            (b[4] == Empty ==> r == Some(4)) &&
            (b[4] != Empty && (exists c :: c in CORNERS && b[c] == Empty) ==>
               r.Some? && r.value in CORNERS) &&
            (b[4] != Empty && (forall c :: c in CORNERS ==> b[c] != Empty) && !IsFull(b) ==>
               r.Some? && r.value in SIDES))
  {
    var r := ComputeBestMove(b, p, cornerRoll, sideRoll);
    var winIdx := TryWinningMove(b, p);
    if winIdx.Some? {
      assert r == winIdx;
    } else {
      var blockIdx := TryBlockingMove(b, p);
      if blockIdx.Some? {
        assert r == blockIdx;
      } else {
        var strat := ChooseStrategicMove(b, cornerRoll, sideRoll);
        assert strat.Some? ==> r == strat;
      }
    }
  }

  /** On a board without a winner, a cell that makes a winner for `p`
      makes `p` the winner, through a line that passes through that cell. */
  lemma {:induction false} NewWinnerIsMover(b: Board, i: Index, p: Player)
    requires CalculateWinner(b).None? && b[i] == Empty && MakesWinner(b, p, i)
    ensures var w := CalculateWinner(Place(b, i, p)).value;
      w.player == p && (i == w.line.a || i == w.line.b || i == w.line.c)
  {
    var b' := Place(b, i, p);
    var l := CalculateWinner(b').value.line;
    assert !Completes(b, l);
  }

  /** When the computer can win at once, its move gives it the win. */
  lemma BestMoveWinsWhenPossible(b: Board, p: Player, cornerRoll: nat, sideRoll: nat)
    requires RollsFit(b, cornerRoll, sideRoll)
    requires CalculateWinner(b).None?
    requires exists i: Index :: b[i] == Empty && MakesWinner(b, p, i)
    ensures var r := ComputeBestMove(b, p, cornerRoll, sideRoll);
      r.Some? && CalculateWinner(Place(b, r.value, p)) ==
        Some(WinnerInfo(p, CalculateWinner(Place(b, r.value, p)).value.line))
  {
    var r := ComputeBestMove(b, p, cornerRoll, sideRoll);
    NewWinnerIsMover(b, r.value, p);
  }

  /** On a board that already has a winner, every placement keeps that winner,
      so the "winning move" test picks the lowest empty cell whatever the
      symbol: the test means "wins for `p`" only on undecided boards. */
  lemma {:induction false} WonBoardTakesFirstEmpty(b: Board, p: Player)
    requires CalculateWinner(b).Some? && !IsFull(b)
    ensures TryWinningMove(b, p) == Some(EmptyIndices(b)[0])
  {
    var cands := EmptyIndices(b);
    var i := cands[0];
    var l := CalculateWinner(b).value.line;
    CompleteLineAvoidsEmpty(b, l, i);
    var b' := Place(b, i, p);
    assert b'[l.a] == b[l.a] && b'[l.b] == b[l.b] && b'[l.c] == b[l.c];
    assert Completes(b', l);
    assert MakesWinner(b, p, i);
  }


  /** A board with a single mark has no winner. */
  lemma SingleMarkNoWinner(i: Index, p: Player)
    ensures CalculateWinner(Place(EmptyBoard(), i, p)).None?
  {
    var b := Place(EmptyBoard(), i, p);
    forall l | l in LINES ensures !Completes(b, l) {
    }
  }

  /** On the empty board no cell makes a winner for either symbol. */
  lemma EmptyBoardNoWinningMove(p: Player)
    ensures TryWinningMove(EmptyBoard(), p).None?
  {
    forall j: Index ensures !MakesWinner(EmptyBoard(), p, j) {
      SingleMarkNoWinner(j, p);
    }
  }

  /** On the empty board no cell wins or blocks, so the selector takes the
      centre, whichever symbol it plays. */
  lemma EmptyBoardOpening(p: Player, cornerRoll: nat, sideRoll: nat)
    requires RollsFit(EmptyBoard(), cornerRoll, sideRoll)
    ensures ComputeBestMove(EmptyBoard(), p, cornerRoll, sideRoll) == Some(4)
  {
    EmptyBoardNoWinningMove(p);
    EmptyBoardNoWinningMove(Opponent(p));
  }

  /** A cell at which `p` completes a line for itself is a winning move. */
  lemma CompletingMoveWins(b: Board, p: Player, i: Index, l: Line)
    requires l in LINES && b[i] == Empty
    requires forall j: Index :: j == l.a || j == l.b || j == l.c ==> j == i || b[j] == Mark(p)
    requires i == l.a || i == l.b || i == l.c
    ensures MakesWinner(b, p, i)
  {
    assert Completes(Place(b, i, p), l);
  }

  /** With the cells before `i` all occupied, a winning move at `i` is the
      one the scan finds. */
  lemma LowestWinningMove(b: Board, p: Player, i: Index)
    requires b[i] == Empty && MakesWinner(b, p, i)
    requires forall j: Index :: j < i ==> b[j] != Empty
    ensures TryWinningMove(b, p) == Some(i)
  {
  }

  /** Scenario: X can complete the top row, and does, whatever the random
      choices. */
  lemma ScenarioTakesWin(b: Board, cornerRoll: nat, sideRoll: nat)
    requires b == [Mark(X), Mark(X), Empty, Mark(O), Mark(O), Empty, Empty, Empty, Empty]
    requires RollsFit(b, cornerRoll, sideRoll)
    ensures ComputeBestMove(b, X, cornerRoll, sideRoll) == Some(2)
  {
    assert TryWinningMove(b, X) == Some(2) by {
      CompletingMoveWins(b, X, 2, LINES[0]);
      LowestWinningMove(b, X, 2);
    }
  }

  /** With at most one mark of `q` and two of its opponent on the board, no
      placement of `q` makes a winner. */
  lemma FewMarksNoWinningMove(b: Board, q: Player, j: Index)
    requires b[j] == Empty && Count(b, q) < 2 && Count(b, Opponent(q)) < 3
    ensures !MakesWinner(b, q, j)
  {
    CountPlace(b, j, q, X);
    CountPlace(b, j, q, O);
    FewMarksNoWinner(Place(b, j, q));
  }

  /** ... and so the scan for a winning move of `q` finds nothing. */
  lemma FewMarksNoWinningMoves(b: Board, q: Player)
    requires Count(b, q) < 2 && Count(b, Opponent(q)) < 3
    ensures TryWinningMove(b, q).None?
  {
    forall j: Index | b[j] == Empty ensures !MakesWinner(b, q, j) {
      FewMarksNoWinningMove(b, q, j);
    }
  }

  /** Scenario: X cannot win at once and blocks O's top row, whatever the
      random choices. */
  lemma ScenarioBlocks(b: Board, cornerRoll: nat, sideRoll: nat)
    requires b == [Mark(O), Mark(O), Empty, Mark(X), Empty, Empty, Empty, Empty, Empty]
    requires RollsFit(b, cornerRoll, sideRoll)
    ensures ComputeBestMove(b, X, cornerRoll, sideRoll) == Some(2)
  {
    ScenarioBlocksNoWin(b);
    ScenarioBlocksThreat(b);
  }

  lemma ScenarioBlocksNoWin(b: Board)
    requires b == [Mark(O), Mark(O), Empty, Mark(X), Empty, Empty, Empty, Empty, Empty]
    ensures TryWinningMove(b, X).None?
  {
    assert Count([Mark(O), Mark(O), Empty, Mark(X), Empty, Empty, Empty, Empty, Empty], X) == 1;
    assert Count([Mark(O), Mark(O), Empty, Mark(X), Empty, Empty, Empty, Empty, Empty], O) == 2;
    FewMarksNoWinningMoves(b, X);
  }

  lemma ScenarioBlocksThreat(b: Board)
    requires b == [Mark(O), Mark(O), Empty, Mark(X), Empty, Empty, Empty, Empty, Empty]
    ensures TryWinningMove(b, O) == Some(2)
  {
    CompletingMoveWins(b, O, 2, LINES[0]);
    LowestWinningMove(b, O, 2);
  }
}

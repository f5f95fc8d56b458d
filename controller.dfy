/** The game controller as a state machine over values: the state the app
    keeps (board, whose turn, mode, human symbol), the values it derives
    from it, and one function per transition. The class `Game` in module
    `App` performs these transitions in place. */
module Controller {
  import opened Engine
  import opened Selector

  /** Player against player, or player against the computer. */
  datatype Mode = Pvp | Cpu

  datatype State = State(squares: Board, xIsNext: bool, mode: Mode, playerSymbol: Player)

  /** Empty board, X to move, player-vs-player, human holds X. */
  function InitialState(): (s: State)
    ensures s.squares == EmptyBoard() && s.xIsNext && s.mode == Pvp && s.playerSymbol == X
  {
    State(EmptyBoard(), true, Pvp, X)
  }

  function CurrentPlayer(s: State): (p: Player)
    ensures p == X <==> s.xIsNext
  {
    if s.xIsNext then X else O
  }

  /** The computer holds the symbol the human does not. */
  function CpuSymbol(s: State): (p: Player)
    ensures p != s.playerSymbol
  {
    Opponent(s.playerSymbol)
  }

  function Winner(s: State): Option<WinnerInfo>
  {
    CalculateWinner(s.squares)
  }

  predicate Draw(s: State)
  {
    IsDraw(s.squares)
  }

  /** In computer mode, the computer is to move in an undecided game. */
  predicate IsCpuTurn(s: State)
  {
    s.mode == Cpu && CurrentPlayer(s) == CpuSymbol(s) && Winner(s).None? && !Draw(s)
  }

  /** The board accepts clicks: undecided game, not the computer's turn. */
  predicate CanInteract(s: State)
  {
    Winner(s).None? && !Draw(s) && !IsCpuTurn(s)
  }

  /** The guard of a human move, as the source writes it. */
  predicate PlayRejected(s: State, i: Index)
  {
    s.squares[i] != Empty || Winner(s).Some? || Draw(s) ||
    (s.mode == Cpu && CurrentPlayer(s) == CpuSymbol(s))
  }

  /** A human click on cell `i`. It takes effect exactly when the board
      accepts clicks and the cell is empty; then it writes the current
      player's symbol into that cell alone, passes the turn, and keeps the
      mode and the human symbol. Otherwise nothing changes. */
  function Play(s: State, i: Index): (t: State)
    ensures t != s <==> CanInteract(s) && s.squares[i] == Empty
    ensures t != s ==>
      t.squares[i] == Mark(CurrentPlayer(s)) &&
      (forall j: Index :: j != i ==> t.squares[j] == s.squares[j]) &&
      t.xIsNext == !s.xIsNext && t.mode == s.mode && t.playerSymbol == s.playerSymbol
  {
    if PlayRejected(s, i) then s
    else s.(squares := Place(s.squares, i, CurrentPlayer(s)), xIsNext := !s.xIsNext)
  }

  /** The guard of the deferred computer move, evaluated on the board as it
      is when the timer fires. */
  predicate CpuMoveDiscarded(b: Board, idx: Index)
  {
    b[idx] != Empty || CalculateWinner(b).Some? || IsFull(b)
  }

  /** The body of the deferred computer move: `idx` and `cpuSymbol` are the
      values captured when the move was scheduled. The symbol is written at
      `idx` only if that cell is still empty and the game undecided; the turn
      flips in every case, also when the write is discarded. */
  function CpuStep(s: State, idx: Index, cpuSymbol: Player): (t: State)
    ensures t.xIsNext == !s.xIsNext && t.mode == s.mode && t.playerSymbol == s.playerSymbol
    ensures CpuMoveDiscarded(s.squares, idx) ==> t.squares == s.squares
    ensures !CpuMoveDiscarded(s.squares, idx) ==>
      t.squares[idx] == Mark(cpuSymbol) && s.squares[idx] == Empty &&
      forall j: Index :: j != idx ==> t.squares[j] == s.squares[j]
  {
    var next := if CpuMoveDiscarded(s.squares, idx) then s.squares
                else Place(s.squares, idx, cpuSymbol);
    s.(squares := next, xIsNext := !s.xIsNext)
  }

  /** The move the app schedules while rendering a state: the selector's
      choice for the computer's symbol, when it is the computer's turn.
      One is scheduled exactly on the computer's turn, and it names an
      empty cell. */
  function ScheduledCpuMove(s: State, cornerRoll: nat, sideRoll: nat): (r: Option<Index>)
    requires RollsFit(s.squares, cornerRoll, sideRoll)
    ensures r.Some? <==> IsCpuTurn(s)
    ensures r.Some? ==> s.squares[r.value] == Empty
  {
    if IsCpuTurn(s) then ComputeBestMove(s.squares, CpuSymbol(s), cornerRoll, sideRoll)
    else None
  }

  /** Reset: empty board, X to move, mode and human symbol kept. */
  function ResetGame(s: State): (t: State)
    ensures t.squares == EmptyBoard() && t.xIsNext
    ensures t.mode == s.mode && t.playerSymbol == s.playerSymbol
    ensures Winner(t).None? && !Draw(t)
  {
    EmptyBoardUndecided();
    s.(squares := EmptyBoard(), xIsNext := true)
  }

  /** Mode change: the new mode, then a reset; the human symbol is kept. */
  function ModeChange(s: State, newMode: Mode): (t: State)
    ensures t.squares == EmptyBoard() && t.xIsNext
    ensures t.mode == newMode && t.playerSymbol == s.playerSymbol
    ensures Winner(t).None? && !Draw(t)
  {
    ResetGame(s.(mode := newMode))
  }

  /** Symbol change: the new human symbol, an empty board and X to move;
      the mode is kept. */
  function SymbolChange(s: State, newSymbol: Player): (t: State)
    ensures t.squares == EmptyBoard() && t.xIsNext
    ensures t.mode == s.mode && t.playerSymbol == newSymbol
    ensures Winner(t).None? && !Draw(t)
  {
    EmptyBoardUndecided();
    s.(playerSymbol := newSymbol, squares := EmptyBoard(), xIsNext := true)
  }

  // ---------------------------------------------------------------------
  // Properties of the transitions

  /** Clicking the same cell twice has the effect of clicking it once: a
      repeated click, like any rejected click, changes nothing. */
  lemma PlayIdempotent(s: State, i: Index)
    ensures Play(Play(s, i), i) == Play(s, i)
  {
    var t := Play(s, i);
    if t != s {
      assert t.squares[i] != Empty;
    }
  }

  /** The human's click guard and the derived `CanInteract` agree: in computer
      mode the source tests only whose turn it is, and the winner and draw
      tests of `IsCpuTurn` are already covered by the other disjuncts. */
  lemma RejectedMeansNoInteraction(s: State, i: Index)
    ensures PlayRejected(s, i) <==> !CanInteract(s) || s.squares[i] != Empty
  {
  }

  /** The move scheduled on the computer's turn names an empty cell of an
      undecided board, so when the timer fires on that same state the move is
      written, the turn passes to the human, and it is no longer the
      computer's turn. */
  lemma FreshCpuStepTakesEffect(s: State, cornerRoll: nat, sideRoll: nat)
    requires RollsFit(s.squares, cornerRoll, sideRoll)
    requires IsCpuTurn(s)
    ensures var idx := ScheduledCpuMove(s, cornerRoll, sideRoll).value;
      var t := CpuStep(s, idx, CpuSymbol(s));
      && !CpuMoveDiscarded(s.squares, idx)
      && t.squares == Place(s.squares, idx, CpuSymbol(s))
      && CurrentPlayer(t) == t.playerSymbol
      && !IsCpuTurn(t)
  {
  }

  /** The turn flip of a discarded computer move: the board stays as it was,
      but the turn passes anyway. */
  lemma DiscardedCpuStepFlipsTurn(s: State, idx: Index, cpuSymbol: Player)
    requires CpuMoveDiscarded(s.squares, idx)
    ensures var t := CpuStep(s, idx, cpuSymbol);
      t.squares == s.squares && CurrentPlayer(t) != CurrentPlayer(s)
  {
  }

  /** A deferred computer move scheduled before a reset fires afterwards on
      the fresh board, where its guard lets it through: the stale symbol is
      written and the turn passes, so the new game does not start with X to
      move on an empty board. */
  lemma StaleCpuStepAfterReset(s: State, idx: Index, cpuSymbol: Player)
    ensures var t := CpuStep(ResetGame(s), idx, cpuSymbol);
      t.squares == Place(EmptyBoard(), idx, cpuSymbol) && !t.xIsNext
  {
    EmptyBoardUndecided();
  }

  /** After a symbol change to O in computer mode, the computer (X) is to
      move at once, and on the empty board it takes the centre. */
  lemma CpuOpensAfterSymbolO(s: State, cornerRoll: nat, sideRoll: nat)
    requires s.mode == Cpu
    requires RollsFit(EmptyBoard(), cornerRoll, sideRoll)
    ensures IsCpuTurn(SymbolChange(s, O))
    ensures ScheduledCpuMove(SymbolChange(s, O), cornerRoll, sideRoll) == Some(4)
  {
    EmptyBoardOpening(X, cornerRoll, sideRoll);
  }

  // ---------------------------------------------------------------------
  // Turn balance: X moves first and the players alternate, so the number of
  // X marks equals the number of O marks, plus one while O is to move.

  predicate Balanced(s: State)
  {
    Count(s.squares, X) == Count(s.squares, O) + (if s.xIsNext then 0 else 1)
  }

  lemma InitialBalanced()
    ensures Balanced(InitialState())
  {
    CountEmpty(EmptyBoard(), X);
    CountEmpty(EmptyBoard(), O);
  }

  /** Reset, mode change and symbol change all start a balanced game. */
  lemma ResetsBalanced(s: State, m: Mode, p: Player)
    ensures Balanced(ResetGame(s)) && Balanced(ModeChange(s, m)) && Balanced(SymbolChange(s, p))
  {
    CountEmpty(EmptyBoard(), X);
    CountEmpty(EmptyBoard(), O);
  }

  /** A human move keeps the turn balance. */
  lemma PlayKeepsBalance(s: State, i: Index)
    requires Balanced(s)
    ensures Balanced(Play(s, i))
  {
    if !PlayRejected(s, i) {
      CountPlace(s.squares, i, CurrentPlayer(s), X);
      CountPlace(s.squares, i, CurrentPlayer(s), O);
    }
  }

  /** A computer move that fires on the state it was scheduled from keeps the
      turn balance. */
  lemma FreshCpuStepKeepsBalance(s: State, cornerRoll: nat, sideRoll: nat)
    requires RollsFit(s.squares, cornerRoll, sideRoll)
    requires Balanced(s) && IsCpuTurn(s)
    ensures Balanced(CpuStep(s, ScheduledCpuMove(s, cornerRoll, sideRoll).value, CpuSymbol(s)))
  {
    var idx := ScheduledCpuMove(s, cornerRoll, sideRoll).value;
    CountPlace(s.squares, idx, CpuSymbol(s), X);
    CountPlace(s.squares, idx, CpuSymbol(s), O);
  }

  /** A discarded computer move breaks the turn balance, because the turn
      flips without a mark being written. */
  lemma DiscardedCpuStepUnbalances(s: State, idx: Index, cpuSymbol: Player)
    requires Balanced(s) && CpuMoveDiscarded(s.squares, idx)
    ensures !Balanced(CpuStep(s, idx, cpuSymbol))
  {
  }

  /** A stale O move that fires after a reset leaves a game in which O has
      moved first. */
  lemma StaleCpuStepAfterResetUnbalances(s: State, idx: Index)
    ensures !Balanced(CpuStep(ResetGame(s), idx, O))
  {
    EmptyBoardUndecided();
    CountEmpty(EmptyBoard(), X);
    CountEmpty(EmptyBoard(), O);
    CountPlace(EmptyBoard(), idx, O, X);
    CountPlace(EmptyBoard(), idx, O, O);
  }

  /** The computer's answer to an opening X in the corner is the centre,
      whatever the random choices. */
  lemma AnswerToCornerOpening(b: Board, cornerRoll: nat, sideRoll: nat)
    requires b == [Mark(X), Empty, Empty, Empty, Empty, Empty, Empty, Empty, Empty]
    requires RollsFit(b, cornerRoll, sideRoll)
    ensures ComputeBestMove(b, O, cornerRoll, sideRoll) == Some(4)
  {
    CornerOpeningNoWin(b);
  }

  lemma CornerOpeningNoWin(b: Board)
    requires b == [Mark(X), Empty, Empty, Empty, Empty, Empty, Empty, Empty, Empty]
    ensures TryWinningMove(b, O).None? && TryWinningMove(b, X).None? && b[4] == Empty
  {
    assert Count([Mark(X), Empty, Empty, Empty, Empty, Empty, Empty, Empty, Empty], X) == 1;
    assert Count([Mark(X), Empty, Empty, Empty, Empty, Empty, Empty, Empty, Empty], O) == 0;
    FewMarksNoWinningMoves(b, O);
    FewMarksNoWinningMoves(b, X);
  }

  /** With X on 0 and 1 and O in the centre, the computer (O) blocks at 2,
      whatever the random choices. */
  lemma AnswerToTopRowThreat(b: Board, cornerRoll: nat, sideRoll: nat)
    requires b == [Mark(X), Mark(X), Empty, Empty, Mark(O), Empty, Empty, Empty, Empty]
    requires RollsFit(b, cornerRoll, sideRoll)
    ensures ComputeBestMove(b, O, cornerRoll, sideRoll) == Some(2)
  {
    TopRowThreatNoWin(b);
    TopRowThreatBlock(b);
  }

  lemma TopRowThreatNoWin(b: Board)
    requires b == [Mark(X), Mark(X), Empty, Empty, Mark(O), Empty, Empty, Empty, Empty]
    ensures TryWinningMove(b, O).None? && CalculateWinner(b).None? && !IsFull(b)
  {
    assert Count([Mark(X), Mark(X), Empty, Empty, Mark(O), Empty, Empty, Empty, Empty], X) == 2;
    assert Count([Mark(X), Mark(X), Empty, Empty, Mark(O), Empty, Empty, Empty, Empty], O) == 1;
    FewMarksNoWinningMoves(b, O);
    FewMarksNoWinner(b);
    assert b[2] == Empty;
  }

  lemma TopRowThreatBlock(b: Board)
    requires b == [Mark(X), Mark(X), Empty, Empty, Mark(O), Empty, Empty, Empty, Empty]
    ensures TryWinningMove(b, X) == Some(2)
  {
    CompletingMoveWins(b, X, 2, LINES[0]);
    LowestWinningMove(b, X, 2);
  }

  /** End to end: in a fresh computer game with the human on X, the human
      plays 0, the computer answers in the centre, the human plays 1, and the
      computer then blocks the top row at 2. */
  lemma ScenarioCpuBlocksTopRow()
    ensures var s0 := ModeChange(InitialState(), Cpu);
      var s1 := Play(s0, 0);
      && IsCpuTurn(s1)
      && (forall cr: nat, sr: nat :: RollsFit(s1.squares, cr, sr) ==> ScheduledCpuMove(s1, cr, sr) == Some(4))
      && var s2 := CpuStep(s1, 4, CpuSymbol(s1));
      var s3 := Play(s2, 1);
      && CanInteract(s2)
      && IsCpuTurn(s3)
      && (forall cr: nat, sr: nat :: RollsFit(s3.squares, cr, sr) ==> ScheduledCpuMove(s3, cr, sr) == Some(2))
  {
    var s0 := ModeChange(InitialState(), Cpu);
    var s1 := Play(s0, 0);
    ScenarioFirstMove(s0, s1);
    forall cr: nat, sr: nat | RollsFit(s1.squares, cr, sr)
      ensures ScheduledCpuMove(s1, cr, sr) == Some(4)
    {
      AnswerToCornerOpening(s1.squares, cr, sr);
    }
    var s2 := CpuStep(s1, 4, CpuSymbol(s1));
    ScenarioCpuAnswer(s1, s2);
    var s3 := Play(s2, 1);
    ScenarioSecondMove(s2, s3);
    forall cr: nat, sr: nat | RollsFit(s3.squares, cr, sr)
      ensures ScheduledCpuMove(s3, cr, sr) == Some(2)
    {
      AnswerToTopRowThreat(s3.squares, cr, sr);
    }
  }

  lemma ScenarioFirstMove(s0: State, s1: State)
    requires s0 == ModeChange(InitialState(), Cpu) && s1 == Play(s0, 0)
    ensures s1 == State([Mark(X), Empty, Empty, Empty, Empty, Empty, Empty, Empty, Empty], false, Cpu, X)
    ensures IsCpuTurn(s1)
  {
    assert CanInteract(s0);
    SingleMarkNoWinner(0, X);
    assert s1.squares == Place(EmptyBoard(), 0, X);
    assert s1.squares[1] == Empty;
  }

  lemma ScenarioCpuAnswer(s1: State, s2: State)
    requires s1 == State([Mark(X), Empty, Empty, Empty, Empty, Empty, Empty, Empty, Empty], false, Cpu, X)
    requires s2 == CpuStep(s1, 4, CpuSymbol(s1))
    ensures s2 == State([Mark(X), Empty, Empty, Empty, Mark(O), Empty, Empty, Empty, Empty], true, Cpu, X)
    ensures CanInteract(s2)
  {
    SingleMarkNoWinner(0, X);
    assert Place(EmptyBoard(), 0, X) == s1.squares;
    assert s1.squares[1] == Empty;
    assert s2.squares == [Mark(X), Empty, Empty, Empty, Mark(O), Empty, Empty, Empty, Empty];
    CentreAnswerUndecided(s2.squares);
  }

  lemma CentreAnswerUndecided(b: Board)
    requires b == [Mark(X), Empty, Empty, Empty, Mark(O), Empty, Empty, Empty, Empty]
    ensures CalculateWinner(b).None? && !IsFull(b)
  {
    assert Count([Mark(X), Empty, Empty, Empty, Mark(O), Empty, Empty, Empty, Empty], X) == 1;
    assert Count([Mark(X), Empty, Empty, Empty, Mark(O), Empty, Empty, Empty, Empty], O) == 1;
    FewMarksNoWinner(b);
    assert b[1] == Empty;
  }

  lemma ScenarioSecondMove(s2: State, s3: State)
    requires s2 == State([Mark(X), Empty, Empty, Empty, Mark(O), Empty, Empty, Empty, Empty], true, Cpu, X)
    requires CanInteract(s2)
    requires s3 == Play(s2, 1)
    ensures s3 == State([Mark(X), Mark(X), Empty, Empty, Mark(O), Empty, Empty, Empty, Empty], false, Cpu, X)
    ensures IsCpuTurn(s3)
  {
    assert s3.squares == [Mark(X), Mark(X), Empty, Empty, Mark(O), Empty, Empty, Empty, Empty];
    TopRowThreatNoWin(s3.squares);
  }
}

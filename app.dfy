/** The app's game state held in place: four fields that the event handlers
    and the deferred computer move overwrite. Each method does what the
    source's handler does, and its contract ties the new state to the
    corresponding transition of `Controller` applied to the old one. */
module App {
  import opened Engine
  import opened Selector
  import opened Controller

  class Game {
    var squares: Board
    var xIsNext: bool
    var mode: Mode
    var playerSymbol: Player

    /** The fields as a state value. */
    function Snapshot(): State
      reads this
    {
      State(squares, xIsNext, mode, playerSymbol)
    }

    constructor ()
      ensures Snapshot() == InitialState()
      ensures Balanced(Snapshot())
    {
      squares := EmptyBoard();
      xIsNext := true;
      mode := Pvp;
      playerSymbol := X;
      InitialBalanced();
    }

    /** A click on cell `i`. */
    method HandlePlay(i: Index)
      modifies this
      ensures Snapshot() == Play(old(Snapshot()), i)
      ensures Balanced(old(Snapshot())) ==> Balanced(Snapshot())
    {
      ghost var before := Snapshot();
      var winnerInfo := CalculateWinner(squares);
      var isDraw := winnerInfo.None? && IsFull(squares);
      var currentPlayer := if xIsNext then X else O;
      var cpuSymbol := Opponent(playerSymbol);
      if squares[i] != Empty || winnerInfo.Some? || isDraw || (mode == Cpu && currentPlayer == cpuSymbol) {
        return;
      }
      var next := squares[i := Mark(currentPlayer)];
      squares := next;
      xIsNext := !xIsNext;
      if Balanced(before) {
        PlayKeepsBalance(before, i);
      }
    }

    /** The move to schedule after rendering the current state: the
        selector's choice for the computer, on the computer's turn only. */
    method PendingCpuMove(cornerRoll: nat, sideRoll: nat) returns (idx: Option<Index>)
      requires RollsFit(squares, cornerRoll, sideRoll)
      ensures idx == ScheduledCpuMove(Snapshot(), cornerRoll, sideRoll)
      ensures idx.Some? <==> IsCpuTurn(Snapshot())
      ensures idx.Some? ==> squares[idx.value] == Empty
    {
      var winnerInfo := CalculateWinner(squares);
      var isDraw := winnerInfo.None? && IsFull(squares);
      var currentPlayer := if xIsNext then X else O;
      var cpuSymbol := Opponent(playerSymbol);
      var isCpuTurn := mode == Cpu && currentPlayer == cpuSymbol && winnerInfo.None? && !isDraw;
      idx := None;
      if isCpuTurn {
        idx := ComputeBestMove(squares, cpuSymbol, cornerRoll, sideRoll);
      }
    }

    /** The timer body of a scheduled computer move, with the cell and the
        symbol it captured when scheduled. */
    method CpuTimeout(idx: Index, cpuSymbol: Player)
      modifies this
      ensures Snapshot() == CpuStep(old(Snapshot()), idx, cpuSymbol)
    {
      var prev := squares;
      if !(prev[idx] != Empty || CalculateWinner(prev).Some? || IsFull(prev)) {
        var next := prev[idx := Mark(cpuSymbol)];
        squares := next;
      }
      xIsNext := !xIsNext;
    }

    method ResetGame()
      modifies this
      ensures Snapshot() == Controller.ResetGame(old(Snapshot()))
      ensures Balanced(Snapshot())
    {
      squares := EmptyBoard();
      xIsNext := true;
      ResetsBalanced(old(Snapshot()), mode, playerSymbol);
    }

    method HandleModeChange(newMode: Mode)
      modifies this
      ensures Snapshot() == ModeChange(old(Snapshot()), newMode)
      ensures Balanced(Snapshot())
    {
      mode := newMode;
      ResetGame();
    }

    method HandleSymbolChange(newSymbol: Player)
      modifies this
      ensures Snapshot() == SymbolChange(old(Snapshot()), newSymbol)
      ensures Balanced(Snapshot())
    {
      playerSymbol := newSymbol;
      squares := EmptyBoard();
      xIsNext := true;
      ResetsBalanced(old(Snapshot()), mode, newSymbol);
    }
  }
}

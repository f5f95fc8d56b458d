# Tic Tac Toe game logic in Dafny

This project models the game logic of a browser Tic Tac Toe app. The app has a
player-vs-player mode and a player-vs-computer mode. In the second mode a
heuristic opponent plays. All of the logic sits in
`tic_tac_toe_frontend/src/App.js`. The model has three layers over a nine-cell,
row-major board whose cells are empty, X or O:

- **Engine** (`engine.dfy`): the fixed list of eight winning lines,
  `CalculateWinner`, `EmptyIndices` and the draw test. All are pure functions
  of a board value.
- **Selector** (`selector.dfy`): the computer's move choice. It tries, in this
  order: win now, block the opponent, take the centre, take a random empty
  corner, take a random empty side, take the lowest empty cell. No rule writes to
  the real board: the win and block tests write to a copy, and the other rules
  only read the board.
- **Controller** (`controller.dfy`, `app.dfy`): the app's four state variables
  (`squares`, `xIsNext`, `mode`, `playerSymbol`) and the transitions on them.
  These are the click handler, the deferred computer move, reset, mode change
  and symbol change.
  - `Controller` states each transition as a function on a `State` value and
    proves the properties about those functions.
  - `App.Game` is a class holding the four fields. Its methods overwrite the
    fields as the handlers do. Each method's contract equates the new
    `Snapshot()` with the matching `Controller` function applied to the old
    one.

The app computes its derived values from that state: `isDraw`,
`currentPlayer`, `cpuSymbol`, `isCpuTurn` and `canInteract`. In the model
`isDraw` is `Engine.IsDraw` on a board, and `Controller.Draw` applies it to a
state's board. `CurrentPlayer` and `CpuSymbol` are functions that return a
`Player`. `IsCpuTurn` and `CanInteract` are predicates on a `State`.

Modelling choices:

- **Randomness.** `Math.random` picks among the empty corners and sides. Here
  the caller supplies it as `cornerRoll` / `sideRoll`. A roll stands for
  `Math.floor(Math.random() * n)`, a position in the list of `n` empty
  candidates, and `RollsFit` requires that it is in range.
  `EveryCandidateReachable` proves that any empty corner (or side) can be
  chosen by some roll.
- **The timer.** The app schedules a `setTimeout` during render whenever it is
  the computer's turn. The model splits this in two:
  - `ScheduledCpuMove` / `Game.PendingCpuMove` is the render-time choice.
  - `CpuStep` / `Game.CpuTimeout` is the timer body.
  
  The timer body receives the cell and the computer symbol that its closure
  captured. It re-reads the board and the turn as they are when it fires,
  as the state-updater callbacks in the source do.
- **Turn flip after a discarded computer move.** The source flips `xIsNext`
  even when its guard throws the board write away. The model does the same.
  `DiscardedCpuStepFlipsTurn` and `DiscardedCpuStepUnbalances` state what
  follows from this.
- **A computer move whose timer fires after a reset.** Such a move is meant
  to be ignored. Nothing calls `clearTimeout`, though, and the code's guard
  only checks that the cell is empty, that there is no winner and that the
  board is not full. A fresh board passes all three checks. So the stale move
  is written to the new board and the turn passes: in the new game the
  computer has the first mark. The model follows the code.
  `StaleCpuStepAfterReset` and `StaleCpuStepAfterResetUnbalances` prove the
  consequence.
- **`tryWinningMove` tests for any winner, not a winner for `player`.** On a
  board with no winner yet, such a move does make `player` the winner
  (`NewWinnerIsMover`). On a board that already has a winner, the test picks
  the lowest empty cell whatever the symbol (`WonBoardTakesFirstEmpty`).
- **Copies.** The source copies the board (`slice()`) before every
  hypothetical write. Here boards are values, so the input board can never
  change.

`Balanced` is the turn invariant: the X count equals the O count, plus one
while O is to move. The start state, reset, mode change, symbol change, a
human move and a computer move that fires on the state it was scheduled from
all keep it.

## Model

| member | source | states |
|---|---|---|
| `Engine.EmptyBoard` | tic_tac_toe_frontend/src/App.js:119 | every one of the nine cells of the initial board is empty |
| `Engine.WinnerFrom` | tic_tac_toe_frontend/src/App.js:26-31 | the scan from line k on is empty exactly when no line from k on is complete; otherwise it reports the first complete line from k and the symbol in its cells |
| `Engine.CalculateWinner` | tic_tac_toe_frontend/src/App.js:25-32 | there is a winner exactly when some line of LINES has three equal non-empty cells; the reported line is in LINES and all its cells hold the reported player's mark |
| `Engine.WinnerIsFirstCompleteLine` | tic_tac_toe_frontend/src/App.js:14-32 | the reported line is the first complete line in LINES order |
| `Engine.EmptyFrom` | tic_tac_toe_frontend/src/App.js:35 | lists exactly the empty cells at or above k, strictly ascending |
| `Engine.EmptyIndices` | tic_tac_toe_frontend/src/App.js:34-36 | a cell is listed exactly when it is empty; the list is strictly ascending and its entries are in 0..8; the list is empty exactly when every cell is occupied |
| `Engine.DrawMeansNoMoveLeft` | tic_tac_toe_frontend/src/App.js:125 | a draw is exactly a board with no winner and no empty cell; a board with an empty cell or with a winner is never a draw |
| `Engine.CompleteLineAvoidsEmpty` | tic_tac_toe_frontend/src/App.js:27 | an empty cell is never part of a complete line |
| `Engine.EmptyBoardUndecided` | tic_tac_toe_frontend/src/App.js:119-125 | the empty board has no winner and is not a draw |
| `Engine.Count` | tic_tac_toe_frontend/src/App.js:140-143 | the number of a symbol's marks, never more than the number of cells; it is the measure the turn invariant `Balanced` is stated in, since each accepted move writes one mark and flips the turn |
| `Engine.CountPlace` | tic_tac_toe_frontend/src/App.js:140-141 | writing a symbol into an empty cell adds one mark of that symbol and none of the other |
| `Engine.CountEmpty` | tic_tac_toe_frontend/src/App.js:119 | an all-empty board holds no marks |
| `Engine.LineCellsDistinct` | tic_tac_toe_frontend/src/App.js:14-23 | the three cells of every line are distinct |
| `Engine.CompleteLineHasThreeMarks` | tic_tac_toe_frontend/src/App.js:27 | a complete line puts at least three marks of its symbol on the board |
| `Engine.FewMarksNoWinner` | tic_tac_toe_frontend/src/App.js:25-32 | a board with fewer than three marks of each symbol has no winner |
| `Selector.Opponent` | tic_tac_toe_frontend/src/App.js:48 | the opponent's symbol differs from the player's |
| `Selector.Place` | tic_tac_toe_frontend/src/App.js:40-41 | the copy holds the player's mark at the chosen cell and equals the board everywhere else |
| `Selector.FirstPassing` | tic_tac_toe_frontend/src/App.js:39-44 | nothing exactly when no candidate passes the test; otherwise a candidate that passes, with no earlier candidate in the list passing |
| `Selector.FirstPassingIsLeast` | tic_tac_toe_frontend/src/App.js:39-44 | on strictly ascending candidates, no candidate below the one found passes the test |
| `Selector.TryWinningMove` | tic_tac_toe_frontend/src/App.js:38-45 | nothing exactly when no empty cell makes a winner; otherwise the lowest empty cell at which the player's mark makes a winner |
| `Selector.NewWinnerIsMover` | tic_tac_toe_frontend/src/App.js:42 | on a board with no winner, a cell that makes a winner makes the mover the winner through a line containing that cell |
| `Selector.WonBoardTakesFirstEmpty` | tic_tac_toe_frontend/src/App.js:38-45 | on a board that already has a winner, the winning-move test picks the lowest empty cell for either symbol |
| `Selector.TryBlockingMove` | tic_tac_toe_frontend/src/App.js:47-50 | nothing exactly when no empty cell makes a winner for the opponent; otherwise the lowest such cell |
| `Selector.EmptyAmong` | tic_tac_toe_frontend/src/App.js:56-59 | keeps exactly the candidates whose cell is empty, never lengthens the list and keeps an ascending list ascending, so for the ascending corner and side lists the result is the `filter` result |
| `Selector.SingleEmptyCorner` | tic_tac_toe_frontend/src/App.js:56-57 | with one empty corner the filtered list is that corner alone, and the only roll that fits is 0 |
| `Selector.EveryCellIsCentreCornerOrSide` | tic_tac_toe_frontend/src/App.js:54-59 | centre, corners and sides together cover every cell |
| `Selector.ChooseStrategicMove` | tic_tac_toe_frontend/src/App.js:52-62 | the centre if it is empty; otherwise an empty corner if there is one; otherwise an empty side; nothing exactly when the board is full; the result is always an empty cell |
| `Selector.EveryCandidateReachable` | tic_tac_toe_frontend/src/App.js:56-60 | every empty corner, and (with no empty corner) every empty side, is chosen by some roll once the centre is taken |
| `Selector.LowestEmpty` | tic_tac_toe_frontend/src/App.js:74-76 | the lowest empty cell; nothing exactly when the board is full |
| `Selector.ComputeBestMove` | tic_tac_toe_frontend/src/App.js:64-77 | nothing exactly when the board has no empty cell; otherwise an empty cell |
| `Selector.BestMovePriority` | tic_tac_toe_frontend/src/App.js:64-73 | the move is the lowest winning cell if one exists; else the lowest cell where the opponent would win; else the centre if empty; else an empty corner if any; else an empty side |
| `Selector.BestMoveWinsWhenPossible` | tic_tac_toe_frontend/src/App.js:65-67 | on an undecided board where the computer can win at once, its move makes it the winner |
| `Selector.SingleMarkNoWinner` | tic_tac_toe_frontend/src/App.js:25-32 | a board with one mark has no winner |
| `Selector.EmptyBoardNoWinningMove` | tic_tac_toe_frontend/src/App.js:38-45 | on the empty board no cell is a winning move for either symbol |
| `Selector.EmptyBoardOpening` | tic_tac_toe_frontend/src/App.js:54 | on the empty board the computer takes the centre |
| `Selector.CompletingMoveWins` | tic_tac_toe_frontend/src/App.js:40-42 | a cell that completes a line of the player's marks makes a winner |
| `Selector.LowestWinningMove` | tic_tac_toe_frontend/src/App.js:39-43 | when the cells below a winning cell are all occupied, it is the one the scan returns |
| `Selector.FewMarksNoWinningMove` | tic_tac_toe_frontend/src/App.js:40-42 | with at most one own mark and two opposing marks, no placement makes a winner |
| `Selector.FewMarksNoWinningMoves` | tic_tac_toe_frontend/src/App.js:38-45 | with at most one own mark and two opposing marks, there is no winning move |
| `Selector.ScenarioTakesWin` | tic_tac_toe_frontend/src/App.js:65-67 | on X X _ / O O _ / _ _ _ the computer playing X takes cell 2, for every fitting roll |
| `Selector.ScenarioBlocks` | tic_tac_toe_frontend/src/App.js:65-70 | on O O _ / X _ _ / _ _ _ the computer playing X blocks at cell 2, for every fitting roll |
| `Selector.ScenarioBlocksNoWin` | tic_tac_toe_frontend/src/App.js:65-67 | on that board X has no winning move |
| `Selector.ScenarioBlocksThreat` | tic_tac_toe_frontend/src/App.js:69-70 | on that board O's winning cell is 2 |
| `Controller.InitialState` | tic_tac_toe_frontend/src/App.js:119-122 | empty board, X to move, player-vs-player mode, human on X |
| `Controller.CurrentPlayer` | tic_tac_toe_frontend/src/App.js:126 | X is to move exactly when `xIsNext` holds |
| `Controller.CpuSymbol` | tic_tac_toe_frontend/src/App.js:127 | the computer never has the human's symbol |
| `Controller.Play` | tic_tac_toe_frontend/src/App.js:138-144 | the state changes exactly when the board accepts clicks and the cell is empty; then only that cell changes, to the current player's mark, the turn flips, and mode and human symbol stay; otherwise nothing changes |
| `Controller.PlayIdempotent` | tic_tac_toe_frontend/src/App.js:138-144 | a second click on the same cell changes nothing |
| `Controller.RejectedMeansNoInteraction` | tic_tac_toe_frontend/src/App.js:128-139 | the click guard rejects exactly when `canInteract` is false or the cell is occupied |
| `Controller.CpuStep` | tic_tac_toe_frontend/src/App.js:151-158 | the captured symbol is written at the captured cell only if that cell is empty, there is no winner and the board is not full, and nothing else changes; the turn flips in every case; mode and human symbol stay |
| `Controller.ScheduledCpuMove` | tic_tac_toe_frontend/src/App.js:147-150 | a move is scheduled exactly on the computer's turn, and it names an empty cell |
| `Controller.FreshCpuStepTakesEffect` | tic_tac_toe_frontend/src/App.js:147-158 | a scheduled move that fires on the same state is written, hands the turn to the human, and ends the computer's turn |
| `Controller.DiscardedCpuStepFlipsTurn` | tic_tac_toe_frontend/src/App.js:152-158 | a discarded computer move leaves the board as it was but passes the turn |
| `Controller.StaleCpuStepAfterReset` | tic_tac_toe_frontend/src/App.js:151-166 | a computer move scheduled before a reset is written onto the fresh board, and O is then to move |
| `Controller.ResetGame` | tic_tac_toe_frontend/src/App.js:163-166 | empty board, X to move, mode and human symbol kept; afterwards there is no winner and no draw |
| `Controller.ModeChange` | tic_tac_toe_frontend/src/App.js:168-172 | the new mode, empty board, X to move, human symbol kept; no winner and no draw |
| `Controller.SymbolChange` | tic_tac_toe_frontend/src/App.js:174-181 | the new human symbol, empty board, X to move, mode kept; no winner and no draw |
| `Controller.CpuOpensAfterSymbolO` | tic_tac_toe_frontend/src/App.js:177-180 | in computer mode, choosing O makes it the computer's turn at once, and it takes the centre |
| `Controller.InitialBalanced` | tic_tac_toe_frontend/src/App.js:119-120 | the initial state satisfies the turn invariant |
| `Controller.ResetsBalanced` | tic_tac_toe_frontend/src/App.js:163-181 | reset, mode change and symbol change establish the turn invariant |
| `Controller.PlayKeepsBalance` | tic_tac_toe_frontend/src/App.js:138-144 | a human move preserves the turn invariant |
| `Controller.FreshCpuStepKeepsBalance` | tic_tac_toe_frontend/src/App.js:147-158 | a computer move fired on the state it was scheduled from preserves the turn invariant |
| `Controller.DiscardedCpuStepUnbalances` | tic_tac_toe_frontend/src/App.js:153-158 | a discarded computer move breaks the turn invariant |
| `Controller.StaleCpuStepAfterResetUnbalances` | tic_tac_toe_frontend/src/App.js:151-166 | a stale O move after a reset leaves a game where O moved first |
| `Controller.AnswerToCornerOpening` | tic_tac_toe_frontend/src/App.js:64-73 | after X opens in corner 0, the computer playing O takes the centre, for every fitting roll |
| `Controller.AnswerToTopRowThreat` | tic_tac_toe_frontend/src/App.js:64-70 | with X on 0 and 1 and O in the centre, the computer playing O blocks at 2, for every fitting roll |
| `Controller.TopRowThreatNoWin` | tic_tac_toe_frontend/src/App.js:65-67 | on that board O has no winning move, there is no winner and the board is not full |
| `Controller.TopRowThreatBlock` | tic_tac_toe_frontend/src/App.js:69-70 | on that board X's winning cell is 2 |
| `Controller.ScenarioCpuBlocksTopRow` | tic_tac_toe_frontend/src/App.js:138-172 | in a fresh computer game with the human on X: human plays 0, computer answers 4, human plays 1, computer then plays 2; both computer moves are the same for every fitting roll |
| `Controller.ScenarioFirstMove` | tic_tac_toe_frontend/src/App.js:138-144 | the first click of that game writes X at 0 and makes it the computer's turn |
| `Controller.ScenarioCpuAnswer` | tic_tac_toe_frontend/src/App.js:151-158 | the computer's answer writes O at 4 and gives the board back to the human |
| `Controller.ScenarioSecondMove` | tic_tac_toe_frontend/src/App.js:138-144 | the second click writes X at 1 and makes it the computer's turn |
| `App.Game.constructor` | tic_tac_toe_frontend/src/App.js:119-122 | the fields hold the initial state, which satisfies the turn invariant |
| `App.Game.HandlePlay` | tic_tac_toe_frontend/src/App.js:138-144 | the new fields are `Play` of the old ones; the turn invariant is preserved |
| `App.Game.PendingCpuMove` | tic_tac_toe_frontend/src/App.js:147-150 | returns a move exactly on the computer's turn, and only an empty cell |
| `App.Game.CpuTimeout` | tic_tac_toe_frontend/src/App.js:151-158 | the new fields are `CpuStep` of the old ones with the captured cell and symbol |
| `App.Game.ResetGame` | tic_tac_toe_frontend/src/App.js:163-166 | the new fields are `ResetGame` of the old ones; the turn invariant holds |
| `App.Game.HandleModeChange` | tic_tac_toe_frontend/src/App.js:168-172 | the new fields are `ModeChange` of the old ones; the turn invariant holds |
| `App.Game.HandleSymbolChange` | tic_tac_toe_frontend/src/App.js:174-181 | the new fields are `SymbolChange` of the old ones; the turn invariant holds |

## Left out

- The `Square` and `Board` components, JSX markup, status strings, CSS classes and aria labels (App.js:79-114, 130-134, 183-251): presentation only.
- `useState` / `useMemo` and React's re-rendering: the state is four class fields, and the derived values are functions of them.
- The 220 ms delay and the timer queue: the model does not track how many timers are pending. Every render on the computer's turn schedules one, and each firing is one `CpuTimeout` call.
- `Math.random` itself: a foreign random source. The caller supplies its outcome as a roll; uniformity is not stated.
- `tic_tac_toe_frontend/src/App.test.js`: it checks only that the header text and the Reset button render.
- The mode and symbol are closed enumerations (`Mode`, `Player`). The `<select>` values `'pvp'`/`'cpu'` and `'X'`/`'O'` are not modelled as strings.

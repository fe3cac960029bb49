# Tic-tac-toe game engine

A Dafny model of the game logic of a React tic-tac-toe app (`src/index.js`):

- **Winner check** (`calculateWinner`). The board's eight lines are checked in a fixed order: three rows, three columns, two diagonals. The check reports the first line whose three squares hold the same mark, together with that mark, or nothing.
- **The `Game` component's state**: the move history (a list of boards), the current step, whose turn it is, and the highlighted winning line. Three transitions change it:
  - a click on a square (`handleClick`);
  - time travel to a step of the history (`jumpTo`);
  - a reset to the constructor's state (`resetGame`).
- **The status line** shown above the move list.

Files:

- `winner.dfy`, module `Winner`: squares, boards, lines, the winner check and counting helpers. The winner check appears twice. `WinnerOf` is the specification: it is `WinnerFrom(squares, 0)`, and the recursion over the lines is in `WinnerFrom`. `CalculateWinner` is the source's indexed loop with early return, proved equal to it.
- `game.dfy`, module `GameEngine`: the component's `this.state` as a `GameState` value, and its invariant `Consistent`. The class `Game` holds that state in a field that the three transitions reassign, as `setState` does. `Consistent` covers:
  - the history's shape;
  - the step is a valid index into the history;
  - the turn matches the step's parity;
  - the highlight is the current board's winning line.
- `scenarios.dfy`, module `Scenarios`: a client of `Game` that plays a top-row win for X. It shows that a later click is ignored, that jumping back to step 1 clears the highlight and gives O the move, and that a reset restores the initial state. It also has a full board with no winner whose status reports a draw.

## Model

| member | source | states |
|---|---|---|
| `Winner.WinnerFrom` | src/index.js:207-216 | scanning the lines from number `i` on finds a line exactly when one of them wins, and then reports the first winning one with the mark in its first square |
| `Winner.WinnerOf` | src/index.js:196-217 | the winner is reported iff some row, column or diagonal has one non-empty mark in all three squares; the report is the first such line in the listed order, and its mark is not empty |
| `Winner.WinnerOfFirstWin` | src/index.js:197-215 | whichever line is first to win decides the report: that line and the mark in its squares |
| `Winner.CalculateWinner` | src/index.js:196-217 | the loop with early return computes exactly the specified winner |
| `Winner.Count` | src/index.js:148 | counting the squares that hold a value: zero iff none does, all of them iff every square does |
| `Winner.CountUpdate` | src/index.js:88 | writing a mark into a square moves exactly one square from the count of its old content to the count of the new mark |
| `Winner.ThreeMarksCount` | src/index.js:209 | three distinct squares with the same mark make that mark count at least three |
| `Winner.WinNeedsThreeMarks` | src/index.js:197-209 | every winning line needs three marks of one player on the board |
| `Winner.Joined` | src/index.js:148 | `squares.join('')` has one character per non-empty square, each `X` or `O` |
| `GameEngine.Highlight` | src/index.js:109-110 | the highlight is empty iff the board has no winning line, and otherwise it is the first winning line in the listed order, held by one player |
| `GameEngine.InitialStateConsistent` | src/index.js:63-72 | the constructor's state is consistent: one empty board, step 0, X to move, no highlight |
| `GameEngine.AppendMove` | src/index.js:78-94 | cutting the history after the current step and appending a legal move keeps the history well formed |
| `GameEngine.MoveKeepsConsistent` | src/index.js:84-104 | an accepted click leads from a consistent state to a consistent one; the kept highlight is right because a won board refuses moves |
| `GameEngine.HistoryCounts` | src/index.js:64-67 | the board at step `k` has `k` marks, X holding `(k+1)/2` and O `k/2`, and `9-k` empty squares |
| `GameEngine.NoWinBeforeFifthMove` | src/index.js:84-88 | no board before the fifth move has a winner |
| `GameEngine.HistoryAtMostTen` | src/index.js:84-95 | a history never holds more than ten boards |
| `GameEngine.StatusOf` | src/index.js:144-153 | `Winner: ` and the first winning line's mark when a line is held; otherwise `Game finished. Nobody won!` when every square is filled; otherwise `Next player: ` and the mark of the player to move |
| `GameEngine.DrawAfterNineMoves` | src/index.js:144-153 | in a reachable state the status reports a draw iff nobody has won and the step is 9 |
| `GameEngine.Game.constructor` | src/index.js:61-75 | the new game is in the initial state, and the reset snapshot is that same state |
| `GameEngine.Game.HandleClick` | src/index.js:77-105 | the whole state is unchanged if the current board is won or the square is taken. Otherwise the history becomes the boards up to the current step plus the current board with the mover's mark in square `i`, the step goes up by one, the turn flips, and the highlight becomes the new board's winning line if it has one (else it is kept). The invariant is preserved |
| `GameEngine.Game.JumpTo` | src/index.js:107-118 | the history is untouched; the step becomes `move`, the turn is X's iff `move` is even, and the highlight is the winning line of the board at `move` or none. The invariant is preserved |
| `GameEngine.Game.ResetGame` | src/index.js:120-122 | whatever was played, the state becomes exactly the constructor's state |
| `Scenarios.Play` | src/index.js:84-97 | within the first four moves a click on an empty square is always played: the step advances, the turn flips, earlier boards stay, and the new board has the mover's mark in that square |
| `Scenarios.FirstRound` | src/index.js:77-105 | X on 0 then O on 4 gives the board with exactly those two marks, after X's first board |
| `Scenarios.Opening` | src/index.js:77-105 | X on 0 and 1, O on 4 and 5 give the board one move short of the top row |
| `Scenarios.TopRowWin` | src/index.js:77-122 | X completes the top row and `winningPositions` becomes `[0,1,2]` with status `Winner: X`; a further click leaves the whole state unchanged; jumping to step 1 shows X's first board, clears the highlight and gives O the move; the reset game ends in the initial state |
| `Scenarios.FullBoardWithoutWinner` | src/index.js:144-153 | the full board X 0,1,5,6,8 / O 2,3,4,7 has no winning line and its status is the draw text, whoever is to move |

## Left out

- Rendering is not modelled: `Square`, `Board`, the JSX markup, the styling of the winning squares and of the current move, and the move-list buttons with their labels ("Go to move #n", "Go to game start") (src/index.js:9-58, 130-142, 155-173). The labels are string glue with no logic.
- `WinningSound` and the `react-sound` widget (src/index.js:177-194) are not modelled. They are a foreign audio library with playback side effects.
- `ReactDOM.render` and the CSS import (src/index.js:1-4, 221-224) are host I/O and are not modelled.
- React's `setState` scheduling is not modelled. The two `setState` calls in `handleClick` are applied one after the other, which is the same state as React's merge. The `this.startingState` snapshot is a `const` field, which is sound because no transition mutates a state object in place.
- Board copying: the source copies the board with `slice()` and then writes one square. Here this is a sequence update. The copy is private, so no aliasing is lost.
- History entries: the source wraps each board as `{ squares }`. Here the history is a sequence of boards.
- `GameEngine.Game.HandleClick`: cell indices outside 0..8 are excluded by the `Index` type. The UI never produces them.
- `GameEngine.Game.JumpTo`: requires `move < |history|`. The move list only offers valid steps.
- Details the model keeps from the code:
  - the draw text is `Game finished. Nobody won!` (src/index.js:149);
  - the turn is the stored flag `turnForX` (src/index.js:71, 96, 116), kept in step with the parity by `Consistent`;
  - a click that does not win leaves `winningPositions` as it was (src/index.js:99-104), and the invariant shows it is already `None`.
- The scenario played through `Game` stops at the top-row win. The draw position is stated on the board value, not reached by nine clicks through `Game`.

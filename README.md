# Tic-tac-toe screen: game state machine

A model in Dafny of the game logic of a React Native tic-tac-toe screen
(`src/App.tsx`). The screen keeps three pieces of state: a board of nine
cells (`'empty'`, `'X'` or `'O'`), a turn flag `isCross`, and the recorded
result `gameWinner` (`''`, `'X'`, `'O'` or `'Draw'`). Three handlers work on
that state:

- `checkWinner` scans a fixed table of eight winning triples (three rows,
  three columns, two diagonals) in order, records the mark of the first
  triple whose cells are equal and not empty, and otherwise records a draw
  when no cell is empty;
- `onBoxPress` accepts a press only on an empty cell while no result is
  recorded, writes `'X'` when `isCross` is set and `'O'` otherwise into a
  copy of the board, flips the turn and runs `checkWinner`; every other
  press is rejected with the same notice;
- `reloadGame` restores the start state.

The model follows the code as written, including two behaviours that differ
from the game one would expect:

- `isCross` starts cleared, so O moves first.
- `checkWinner` reads the board captured when the handler was created, that
  is, the board *before* the press it is called from. The result therefore
  lags one accepted press behind: a line completed by a press is recorded on
  the next accepted press (by the other player), if there is one. When the
  completing press is the one that fills the last empty cell there is none:
  the win is never recorded, and every further press is rejected until a
  restart. Nor is a line completed by the press that records the other
  player's lagging win: that press finishes the game, so only the earlier
  winner is announced. For the same reason a full board is never recorded as a draw,
  because the board the check sees still has the pressed cell empty; a game
  that fills the board with no complete line is stuck in the same way.

Files:

- `board.dfy` (module `Board`): cells, marks, the result, the table of
  lines, the specification function `Evaluate` of `checkWinner`, its
  characterisation lemmas, and `CheckWinner`, the loop of `checkWinner`
  proved equal to `Evaluate`.
- `game.dfy` (module `Game`): the whole state as a value, a press as the
  function `Step`, sequences of presses (`Run`, `Moves`), and the class
  `Screen` holding the state in fields (the board as an array that a press
  replaces by an edited copy), whose methods are proved to follow `Step`
  and `Initial`.
- `play.dfy` (module `Play`): properties of whole games.
- `scenarios.dfy` (module `Scenarios`): concrete games that show the
  one-press lag, the missing draw, a win on the last cell that is never
  recorded, and a rejected second press.

## Model

| member | source | states |
|---|---|---|
| `Board.LinesTable` | src/App.tsx:37-46 | The table of winning triples is the three rows, then the three columns, then the two diagonals of the row-major grid, eight in all. |
| `Board.LineWon` | src/App.tsx:51-53 | A line is complete exactly when its three cells all hold X or all hold O. |
| `Board.Evaluate` | src/App.tsx:48-65 | The check reports a win only for the owner of the first complete line in table order, a draw only on a board with no empty cell, and nothing only on a board with an empty cell. |
| `Board.ScanFromMeaning` | src/App.tsx:48-65 | The scan from line k reports a win exactly when some line from k on is complete, and then the owner of the first such line; Draw exactly when no line from k on is complete and no cell is empty; no result otherwise. |
| `Board.EvaluateWonIff` | src/App.tsx:37-57 | checkWinner records mark m exactly when the first complete line of the table, in table order, is held by m; a complete line has a non-empty first cell, so three empty cells never win. |
| `Board.WonIff` | src/App.tsx:48-59 | A win is recorded exactly when some line of the table is complete. |
| `Board.DrawIff` | src/App.tsx:61-65 | Draw is recorded exactly when no line is complete and the board has no empty cell. |
| `Board.PendingIff` | src/App.tsx:48-65 | Nothing is recorded (gameWinner left as it is) exactly when no line is complete and some cell is empty. |
| `Board.ScanSkips` | src/App.tsx:48-59 | Incomplete lines ahead of line k do not change the outcome of the scan. |
| `Board.CheckWinner` | src/App.tsx:36-66 | The loop over the table, with early return on the first complete line and the draw test after it, computes exactly `Evaluate` of the board it is given. |
| `Game.Initial` | src/App.tsx:15-17 | The start state: nine empty cells, isCross false, no result. |
| `Game.MarkFor` | src/App.tsx:72 | The mark written is X exactly when isCross is set. |
| `Game.Announce` | src/App.tsx:55-64 | The notice after a check: none when nothing is recorded, the draw notice exactly for a draw, the win notice for mark m exactly when m won; never the rejection notice. |
| `Game.Accepts` | src/App.tsx:70 | A press is accepted exactly when its cell holds neither X nor O and the recorded result is neither a win of either mark nor a draw. |
| `Game.Step` | src/App.tsx:69-79 | A press is accepted exactly when the cell is empty and no result is recorded; a rejected press changes nothing and shows the rejection notice; an accepted press writes the mark for isCross into that cell only, keeps the board at nine cells, flips isCross, and records what the check finds on the board before the press. |
| `Game.Screen.constructor` | src/App.tsx:15-17 | The component starts in `Initial()` with a fresh board array. |
| `Game.Screen.ReloadGame` | src/App.tsx:20-24 | Whatever the prior state, the component is back in `Initial()` with a fresh board array. |
| `Game.Screen.OnBoxPress` | src/App.tsx:69-79 | The new state and the notice are exactly those of `Step` on the old state; the board array is either the old one (rejected press) or a fresh copy. |
| `Play.PressNeverDraws` | src/App.tsx:61-75 | No press records a Draw or shows the draw notice: the check runs on a board whose pressed cell is still empty. |
| `Play.RunNeverDraws` | src/App.tsx:61-75 | No sequence of presses from a state without a draw ever records one. |
| `Play.FinishedGameIsFrozen` | src/App.tsx:70-78 | Once a result is recorded, any sequence of presses leaves board, turn flag and result unchanged and writes no mark. |
| `Play.FullBoardIsFrozen` | src/App.tsx:70-78 | On a board with no empty cell every press is rejected: any sequence of presses leaves the state unchanged and writes no mark. |
| `Play.LastPressWinNeverRecorded` | src/App.tsx:48-78 | The press that fills the last empty cell of a board with no complete line records nothing, even if it completes a line, and the full board then stays unchanged and unfinished through any further presses. |
| `Play.MarksAreNeverOverwritten` | src/App.tsx:70-72 | A marked cell keeps its mark through any sequence of presses. |
| `Play.MarksAlternateFrom` | src/App.tsx:72-74 | From turn flag c, the k-th accepted press writes the mark for c when k is even and the other mark when k is odd. |
| `Play.TurnFlipsPerMove` | src/App.tsx:74 | After a sequence of presses the turn flag is the initial one flipped once per accepted press. |
| `Play.OFirstThenAlternate` | src/App.tsx:15-74 | From the start or a restart the 1st, 3rd, 5th, ... accepted press writes O and the 2nd, 4th, ... writes X; isCross is set exactly after an odd number of accepted presses. |
| `Play.StepKeepsBalance` | src/App.tsx:70-74 | A press keeps the invariant "as many Os as Xs when isCross is clear, one O more when it is set". |
| `Play.RunKeepsBalance` | src/App.tsx:70-74 | Any sequence of presses keeps the same invariant. |
| `Play.ReachableIsBalanced` | src/App.tsx:15-74 | Every state reached from the start or a restart satisfies the invariant. |
| `Play.StepKeepsWinOnBoard` | src/App.tsx:48-57 | A press keeps the invariant "a recorded win of m is a complete line of m on the current board": the line a press records was complete on the board before it, so the pressed cell is not on it. |
| `Play.RunKeepsWinOnBoard` | src/App.tsx:48-78 | Any sequence of presses keeps the same invariant. |
| `Play.ReachableWinIsOnBoard` | src/App.tsx:15-78 | In every state reached from the start or a restart, a recorded win of m is a complete line of m on the board. |
| `Play.ReachableNoLineIsPending` | src/App.tsx:15-78 | In every state reached from the start or a restart, a board with no complete line has no result recorded. |
| `Play.QuietStep` | src/App.tsx:69-75 | An accepted press on a board with no complete line writes the mark, flips the turn and records nothing. |
| `Play.RunAppend` | src/App.tsx:69-79 | Running two sequences of presses one after the other is running their concatenation. |
| `Scenarios.WinIsRecordedOnePressLate` | src/App.tsx:69-75 | After presses 0, 3, 1, 4, 2 O holds the top row but nothing is recorded and cell 5 is still accepted; the following press, by X, records O's win and itself completes X's middle row, which is never recorded. |
| `Scenarios.FullBoardIsNeverADraw` | src/App.tsx:61-77 | After presses 0, 1, 2, 4, 3, 5, 7, 6, 8 the board is full with no complete line (a draw by the table) yet nothing is recorded, and every further press is rejected. |
| `Scenarios.LastPressWinIsLost` | src/App.tsx:48-78 | After presses 0, 1, 2, 4, 3, 5, 7, 8, 6 O holds the left column and the board is full, yet nothing is recorded, and no further sequence of presses changes the state. |
| `Scenarios.RepeatedCellIsRejected` | src/App.tsx:70-78 | After presses 0, 1, 2 (cell 2 holds O), a second press on cell 2 is rejected and changes nothing. |

## Left out

- `showMessage` and its choice between an Android toast and an alert dialog (src/App.tsx:27-33): platform I/O. The notice is returned as a `Message` value instead.
- Rendering (`renderBox`, the subtitle text, the styles; src/App.tsx:82-172): presentation only.
- React's hook scheduling: each press is one atomic step. The stale board read by `checkWinner` is kept, as a snapshot taken before the write.
- Indices outside 0..8: presses only come from the nine rendered cells, so the index is typed `Pos` (0..8).
- `src/component/icon.tsx`: a UI component with no game logic; it is not part of this model.
- Replaying a recorded sequence of presses after a restart is deterministic by construction (`Run` is a function of the state and the presses), so no separate lemma states it.

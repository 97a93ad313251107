# Tic-tac-toe game logic in Dafny

This project models the game logic of a single-page tic-tac-toe component
(`src/app/index.tsx`). The logic has four parts:

- The outcome evaluator (`getWinnerAndLine` and the `winningCombinations`
  table). It scans the eight lines in a fixed order: rows, then columns,
  then diagonals. It returns the mark and the line of the first line whose
  three squares are marked alike, or no winner and no line.
- The status text. A winner comes first, then a draw (every square marked),
  then whose turn it is.
- The state: the board and the `xIsNext` turn flag. A click on a square is
  ignored once there is a winner or when the square is already marked.
  Otherwise it writes the mover's mark into a fresh copy of the board and
  passes the turn. A reset brings back nine empty squares with X to move,
  which is also the state at start-up.
- The highlight test that marks a square as part of the winning line.

Modules:

- `Evaluator` (evaluator.dfy) holds the cells, the board, the line table and
  the search. `Outcome` is the search as a function. `GetWinnerAndLine` is the
  component's loop with early return, proved equal to it.
- `GameStatus` (status.dfy) holds the status text.
- `Game` (game.dfy) holds `State`, the pure transition `Click`, and the
  class `Game`. Its `board` is an `array<Cell>` and its turn flag is a field.
  `HandleClick` and `ResetGame` are proved against `Click` and `Initial`.
- `Play` (play.dfy) holds what stays true over a whole session of clicks and
  resets. X has as many marks as O or one more. The turn flag matches the
  counts. Only the player who moved last can hold a complete line.
- `Scenarios` (scenarios.dfy) holds concrete games: an opening move, a win
  on the top row, a click after the win, and a drawn game.

Two consequences of the code are worth stating:

- When two lines are complete on the same board, the evaluator returns the
  earlier one in table order, even when it belongs to the other mark
  (`Scenarios.EarlierLineTakesPrecedence`).
- One move can complete two lines at once. Every complete line then belongs
  to the player who just moved (`Play.ClickWinnerIsMover`,
  `Play.WinnerMovedLast`).

## Model

| member | source | states |
|---|---|---|
| Evaluator.TableLayout | src/app/index.tsx:24-31 | the table has eight entries: the rows top to bottom, then the columns left to right, then the two diagonals; each entry lists three distinct squares in increasing order, and no entry appears twice |
| Evaluator.Complete | src/app/index.tsx:18 | the test on one line: its first square is marked and the other two hold the same mark; `FirstComplete`, `Outcome` and `CompleteLineFound` state what the search does with it |
| Evaluator.FirstComplete | src/app/index.tsx:17-20 | the scan from entry k stops at the first complete entry: no entry before it is complete, and it is complete unless the table is exhausted |
| Evaluator.Outcome | src/app/index.tsx:16-31 | no winner exactly when no line; no line exactly when none of the eight entries is complete; a returned line is a table entry with no complete entry before it, and its three squares hold the winner's mark, which is not empty |
| Evaluator.GetWinnerAndLine | src/app/index.tsx:16-22 | the loop with early return gives the same answer as `Outcome` on every board |
| Evaluator.CompleteLineFound | src/app/index.tsx:17-19 | a complete entry is never skipped: there is a winner, and the returned line is that entry or an earlier one |
| Evaluator.EarliestLineReturned | src/app/index.tsx:17-19 | a complete entry with no complete entry before it is exactly the returned line, with its mark as winner |
| Evaluator.IsWinning | src/app/index.tsx:95 | a square is highlighted exactly when there is a line and it is one of that line's three squares; `HighlightMarksWinner` proves every highlighted square holds the winner's mark and nothing is highlighted without a winner |
| Evaluator.HighlightMarksWinner | src/app/index.tsx:95 | a highlighted square holds the winner's mark; with no winner no square is highlighted |
| GameStatus.TurnMark | src/app/index.tsx:77 | the mover's mark is never empty and is X exactly when `xIsNext` holds |
| GameStatus.Full | src/app/index.tsx:59 | every square is marked, as `board.every(Boolean)`; `StatusDraw` ties it to the draw text |
| GameStatus.Status | src/app/index.tsx:57-62 | the status text, a winner first, then a draw, then whose turn; `StatusWins`, `StatusDraw` and `StatusTurn` prove each text appears exactly when its condition holds |
| GameStatus.StatusWins | src/app/index.tsx:57-58 | the status is "X wins!" (or "O wins!") exactly when the evaluator reports X (or O), whether or not the board is full |
| GameStatus.StatusDraw | src/app/index.tsx:59 | the status is "It's a draw!" exactly when every square is marked and none of the eight lines is complete |
| GameStatus.StatusTurn | src/app/index.tsx:61 | the status is "X's turn." (or "O's turn.") exactly when there is no winner, some square is empty and `xIsNext` holds (or does not) |
| Game.Initial | src/app/index.tsx:51-52 | the start-up state has nine empty squares and X to move |
| Game.Accepts | src/app/index.tsx:71-72 | a click is acted on exactly when the evaluator reports no winner and the square is empty; `Click` and `ClickFillsOneSquare` state what an accepted and a rejected click do |
| Game.Click | src/app/index.tsx:70-84 | a rejected click changes nothing; an accepted one puts the mover's mark at the index, keeps every other square and negates the turn flag |
| Game.Game.constructor | src/app/index.tsx:51-52 | a new game holds a fresh nine-square array in the start-up state |
| Game.Game.ResetGame | src/app/index.tsx:65-68 | from any prior state, the game holds a fresh nine-square array in the start-up state |
| Game.Game.HandleClick | src/app/index.tsx:70-84 | the new state is `Click` of the old one; an accepted click installs a fresh array, and a rejected one keeps the same array |
| Play.InitialConsistent | src/app/index.tsx:51-52 | the start-up state satisfies the play invariant |
| Play.ClickFillsOneSquare | src/app/index.tsx:71-78 | an accepted click lowers the count of empty squares by one and raises the mover's count by one; a rejected click leaves the state as it was |
| Play.ClickWinnerIsMover | src/app/index.tsx:17-19 | after an accepted click, any winner is the player who just moved, the winning line runs through the clicked square, and the other player holds no line |
| Play.ClickKeepsConsistent | src/app/index.tsx:70-84 | a click keeps the play invariant: mark counts, turn flag and line ownership agree |
| Play.StepKeepsConsistent | src/app/index.tsx:65-84 | a click or a reset keeps the play invariant |
| Play.ReplayConsistent | src/app/index.tsx:51-84 | every state reached from a consistent one (in particular from start-up) by any sequence of clicks and resets is consistent |
| Play.WinnerMovedLast | src/app/index.tsx:53-58 | in a consistent state a winner X means O is to move, and a winner O means X is to move |
| Scenarios.FirstMove | src/app/index.tsx:70-82 | from start-up, a click on square 0 gives X there, O to move, and the status "O's turn." |
| Scenarios.TopRowWin | src/app/index.tsx:70-82 | clicks 0, 3, 1, 4, 2 from start-up give X on the top row and O on squares 3 and 4, with O to move |
| Scenarios.TopRowOutcome | src/app/index.tsx:16-22 | that board yields winner X on line 0, 1, 2 and the status "X wins!" |
| Scenarios.AfterWin | src/app/index.tsx:58-72 | after that win, a click on empty square 5 changes nothing; the start-up state shows "X's turn." |
| Scenarios.Draw | src/app/index.tsx:70-82 | clicks 0 1 2 4 3 5 7 6 8 are all accepted and fill the board as X O X / X O O / O X X |
| Scenarios.DrawOutcome | src/app/index.tsx:57-59 | that full board without a complete line shows "It's a draw!" |
| Scenarios.EarlierLineTakesPrecedence | src/app/index.tsx:17-19 | on a board with the top row all O and the middle row all X, the evaluator reports O and the top row |

## Left out

- Rendering: the `Square` component, the JSX tree and the style class strings (lines 40-47, 86-102) are presentation only.
- React hooks: `useState`, `useMemo` and `useCallback` are not modelled. The state is two plain fields. The outcome and the status are recomputed from the board on every read, so memoisation plays no part.
- Handler closure: `handleClick` tests the `board` and `xIsNext` captured when the handler was created, but writes through functional updates of `prevBoard` and `prevXIsNext`. The model handles one click at a time with a re-render between clicks, where the two are the same value. Two clicks batched before a re-render are not modelled.
- Out-of-range indices: the source never checks the index, and JavaScript would extend the array. The model requires an index in 0..8.
- Loose equality: the `==` at line 18 is modelled as equality on `Cell`. On `'X' | 'O' | null` the two agree.
- The status text for a null winner (`${null}`) is never built, because that branch needs a winner. `MarkText` therefore requires a non-empty cell.

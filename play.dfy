/** Facts about games played from the initial state by clicks and resets:
    turns alternate, each accepted click fills one square, and only the
    player who moved last can hold a complete line. */
module Play {
  import opened Evaluator
  import opened GameStatus
  import opened Game

  /** Number of squares holding c. */
  function Count(cells: seq<Cell>, c: Cell): (n: nat)
    ensures n <= |cells|
  {
    if cells == [] then 0
    else (if cells[0] == c then 1 else 0) + Count(cells[1..], c)
  }

  /** Overwriting one square moves one unit of count from its old content
      to its new content. */
  lemma {:induction false} CountUpdate(cells: seq<Cell>, i: nat, v: Cell, c: Cell)
    requires i < |cells|
    ensures Count(cells[i := v], c) ==
      Count(cells, c) - (if cells[i] == c then 1 else 0) + (if v == c then 1 else 0)
  {
    if i > 0 {
      assert cells[i := v][1..] == cells[1..][i - 1 := v];
      CountUpdate(cells[1..], i - 1, v, c);
    } else {
      assert cells[i := v][1..] == cells[1..];
    }
  }

  /** Some line of the table is complete with mark m. */
  predicate HasLine(board: Board, m: Cell) {
    exists k :: 0 <= k < |WinningCombinations| &&
      Complete(board, WinningCombinations[k]) && board[WinningCombinations[k].a] == m
  }

  /** What holds of every state reached by play: X has as many marks as O
      or one more, the flag says X moves exactly when the counts are equal,
      and a complete line belongs to the player who moved last. */
  predicate Consistent(s: State) {
    var nx, no := Count(s.board, X), Count(s.board, O);
    (nx == no || nx == no + 1) &&
    (s.xIsNext <==> nx == no) &&
    (HasLine(s.board, X) ==> !s.xIsNext) &&
    (HasLine(s.board, O) ==> s.xIsNext)
  }

  lemma InitialConsistent()
    ensures Consistent(Initial())
  {
  }

  /** An accepted click fills exactly one empty square; a rejected click
      fills none. */
  lemma ClickFillsOneSquare(s: State, index: Index)
    ensures Accepts(s, index) ==>
      Count(Click(s, index).board, Empty) == Count(s.board, Empty) - 1 &&
      Count(Click(s, index).board, TurnMark(s.xIsNext)) == Count(s.board, TurnMark(s.xIsNext)) + 1
    ensures !Accepts(s, index) ==> Click(s, index) == s
  {
    if Accepts(s, index) {
      CountUpdate(s.board, index, TurnMark(s.xIsNext), Empty);
      CountUpdate(s.board, index, TurnMark(s.xIsNext), TurnMark(s.xIsNext));
    }
  }

  /** A click on a board without a winner can only complete lines through
      the clicked square, so a new winner is the player who just moved and
      the winning line runs through that square. */
  lemma ClickWinnerIsMover(s: State, index: Index)
    requires Accepts(s, index)
    ensures var r := Outcome(Click(s, index).board);
      r.winner == Empty || (r.winner == TurnMark(s.xIsNext) && IsWinning(r.line, index))
    ensures !HasLine(Click(s, index).board, TurnMark(!s.xIsNext))
  {
  }

  /** Clicks keep a consistent state consistent. */
  lemma ClickKeepsConsistent(s: State, index: Index)
    requires Consistent(s)
    ensures Consistent(Click(s, index))
  {
    if Accepts(s, index) {
      var p := TurnMark(s.xIsNext);
      var q := TurnMark(!s.xIsNext);
      ClickFillsOneSquare(s, index);
      CountUpdate(s.board, index, p, q);
      ClickWinnerIsMover(s, index);
    }
  }

  /** Consequence for the display: in a consistent state at most one player
      holds a line, so the winner the status names is the one who moved last. */
  lemma WinnerMovedLast(s: State)
    requires Consistent(s)
    ensures Outcome(s.board).winner == X ==> !s.xIsNext
    ensures Outcome(s.board).winner == O ==> s.xIsNext
  {
  }

  /** The two things a user can do: click a square or start a new game. */
  datatype Action = ClickAt(index: Index) | NewGame

  /** The state after one action. */
  function Step(s: State, a: Action): State {
    match a
    case ClickAt(i) => Click(s, i)
    case NewGame => Initial()
  }

  /** The state after performing the actions in order, starting from s. */
  function Replay(s: State, actions: seq<Action>): State
    decreases |actions|
  {
    if actions == [] then s else Replay(Step(s, actions[0]), actions[1..])
  }

  /** Every action keeps a consistent state consistent. */
  lemma StepKeepsConsistent(s: State, a: Action)
    requires Consistent(s)
    ensures Consistent(Step(s, a))
  {
    match a
    case ClickAt(i) => ClickKeepsConsistent(s, i);
    case NewGame => InitialConsistent();
  }

  /** Every state a session can reach from a consistent state, in particular
      from start-up, is consistent. */
  lemma {:induction false} ReplayConsistent(s: State, actions: seq<Action>)
    requires Consistent(s)
    ensures Consistent(Replay(s, actions))
    decreases |actions|
  {
    if actions != [] {
      StepKeepsConsistent(s, actions[0]);
      ReplayConsistent(Step(s, actions[0]), actions[1..]);
    }
  }
}

/** The status line shown under the board, derived from the board and the
    turn flag on every read. */
module GameStatus {
  import opened Evaluator

  /** The mark of the player to move. */
  function TurnMark(xIsNext: bool): (c: Cell)
    ensures c != Empty
    ensures c == X <==> xIsNext
  {
    if xIsNext then X else O
  }

  /** How a mark is written in the status text. */
  function MarkText(c: Cell): string
    requires c != Empty
  {
    if c == X then "X" else "O"
  }

  /** Every square is marked. */
  predicate Full(board: Board) {
    forall i :: 0 <= i < |board| ==> board[i] != Empty
  }

  /** A winner first, then a draw, then whose turn it is. */
  function Status(board: Board, xIsNext: bool): string {
    var info := Outcome(board);
    if info.winner != Empty then MarkText(info.winner) + " wins!"
    else if Full(board) then "It's a draw!"
    else MarkText(TurnMark(xIsNext)) + "'s turn."
  }

  /** The status names the winner whenever there is one, full board or not,
      and names a winner only when the evaluator found one. */
  lemma StatusWins(board: Board, xIsNext: bool)
    ensures Status(board, xIsNext) == "X wins!" <==> Outcome(board).winner == X
    ensures Status(board, xIsNext) == "O wins!" <==> Outcome(board).winner == O
  {
  }

  /** A draw is reported exactly when every square is marked and none of the
      eight lines is complete. */
  lemma StatusDraw(board: Board, xIsNext: bool)
    ensures Status(board, xIsNext) == "It's a draw!" <==>
      Full(board) &&
      forall k :: 0 <= k < |WinningCombinations| ==> !Complete(board, WinningCombinations[k])
  {
  }

  /** Otherwise the status names the player to move. */
  lemma StatusTurn(board: Board, xIsNext: bool)
    ensures Status(board, xIsNext) == "X's turn." <==>
      Outcome(board).winner == Empty && !Full(board) && xIsNext
    ensures Status(board, xIsNext) == "O's turn." <==>
      Outcome(board).winner == Empty && !Full(board) && !xIsNext
  {
  }
}

/** Concrete sessions played from start-up, one click at a time. */
module Scenarios {
  import opened Evaluator
  import opened GameStatus
  import opened Game

  /** None of the eight lines is complete, written out line by line. It says
      the same as "no table entry is complete" in the contract of `Outcome`,
      and exists only so that the proofs on literal boards stay cheap. */
  predicate NoLine(b: Board) {
    !Complete(b, Line(0, 1, 2)) && !Complete(b, Line(3, 4, 5)) && !Complete(b, Line(6, 7, 8)) &&
    !Complete(b, Line(0, 3, 6)) && !Complete(b, Line(1, 4, 7)) && !Complete(b, Line(2, 5, 8)) &&
    !Complete(b, Line(0, 4, 8)) && !Complete(b, Line(2, 4, 6))
  }

  /** Checking the eight lines one by one is the same as the search finding none. */
  lemma NoLineNoWinner(b: Board)
    requires NoLine(b)
    ensures Outcome(b) == WinningInfo(Empty, None)
  {
  }

  /** A click on an empty square of a board without a complete line is accepted. */
  lemma Accepted(s: State, i: Index)
    requires s.board[i] == Empty && NoLine(s.board)
    ensures Click(s, i) == State(s.board[i := TurnMark(s.xIsNext)], !s.xIsNext)
  {
  }

  /** X opens in the corner; O is to move. */
  lemma FirstMove()
    ensures Click(Initial(), 0) == State([X, Empty, Empty, Empty, Empty, Empty, Empty, Empty, Empty], false)
    ensures Status([X, Empty, Empty, Empty, Empty, Empty, Empty, Empty, Empty], false) == "O's turn."
  {
  }

  /** X plays 0, 1, 2 and O plays 3, 4: X takes the top row. */
  lemma TopRowWin()
    ensures Click(Click(Click(Click(Click(Initial(), 0), 3), 1), 4), 2) == State([X, X, X, O, O, Empty, Empty, Empty, Empty], false)
  {
  }

  /** The top row is reported as X's win. */
  lemma TopRowOutcome()
    ensures Outcome([X, X, X, O, O, Empty, Empty, Empty, Empty]) == WinningInfo(X, Some(Line(0, 1, 2)))
    ensures Status([X, X, X, O, O, Empty, Empty, Empty, Empty], false) == "X wins!"
  {
  }

  /** After that win, a click on an empty square changes nothing, and a new
      game brings back nine empty squares with X to move. */
  lemma AfterWin()
    ensures Click(State([X, X, X, O, O, Empty, Empty, Empty, Empty], false), 5) == State([X, X, X, O, O, Empty, Empty, Empty, Empty], false)
    ensures Status(Initial().board, Initial().xIsNext) == "X's turn."
  {
  }

  /** Nine clicks, 0 1 2 4 3 5 7 6 8, that fill the board without completing a line. */
  lemma Draw()
    ensures Click(Click(Click(Click(Click(Click(Click(Click(Click(Initial(), 0), 1), 2), 4), 3), 5), 7), 6), 8) == State([X, O, X, X, O, O, O, X, X], false)
  {
    DrawOpening();
    DrawEnding();
  }

  lemma DrawOpening()
    ensures Click(Click(Click(Click(Click(Initial(), 0), 1), 2), 4), 3) == State([X, O, X, X, O, Empty, Empty, Empty, Empty], false)
  {
  }

  lemma DrawEnding()
    ensures Click(Click(Click(Click(State([X, O, X, X, O, Empty, Empty, Empty, Empty], false), 5), 7), 6), 8) == State([X, O, X, X, O, O, O, X, X], false)
  {
    var s0 := State([X, O, X, X, O, Empty, Empty, Empty, Empty], false);
    var s1 := Click(s0, 5);
    assert s1 == State([X, O, X, X, O, O, Empty, Empty, Empty], true) by { Accepted(s0, 5); }
    var s2 := Click(s1, 7);
    assert s2 == State([X, O, X, X, O, O, Empty, X, Empty], false) by { Accepted(s1, 7); }
    var s3 := Click(s2, 6);
    assert s3 == State([X, O, X, X, O, O, O, X, Empty], true) by { Accepted(s2, 6); }
    var s4 := Click(s3, 8);
    assert s4 == State([X, O, X, X, O, O, O, X, X], false) by { Accepted(s3, 8); }
  }

  /** The filled board is reported as a draw. */
  lemma DrawOutcome()
    ensures Status([X, O, X, X, O, O, O, X, X], false) == "It's a draw!"
  {
  }

  /** On a board where two lines are complete, the one earlier in the table
      is reported, even when it belongs to the other player. */
  lemma EarlierLineTakesPrecedence()
    ensures Complete([O, O, O, X, X, X, Empty, Empty, Empty], Line(3, 4, 5))
    ensures Outcome([O, O, O, X, X, X, Empty, Empty, Empty]) == WinningInfo(O, Some(Line(0, 1, 2)))
  {
  }
}

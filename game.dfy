/** The game state manager: the board and the turn flag, the move that a
    click on a square makes, and the reset. */
module Game {
  import opened Evaluator
  import opened GameStatus

  /** A snapshot of the two pieces of state the component keeps. */
  datatype State = State(board: Board, xIsNext: bool)

  const EmptyBoard: Board := [Empty, Empty, Empty, Empty, Empty, Empty, Empty, Empty, Empty]

  /** The state at start-up, and after every reset: nine empty squares, X to move. */
  function Initial(): (s: State)
    ensures forall i :: 0 <= i < 9 ==> s.board[i] == Empty
    ensures s.xIsNext
  {
    State(EmptyBoard, true)
  }

  /** A click is acted on only while there is no winner and the square is empty. */
  predicate Accepts(s: State, index: Index) {
    Outcome(s.board).winner == Empty && s.board[index] == Empty
  }

  /** The state after a click on the square at index. */
  function Click(s: State, index: Index): (r: State)
    ensures !Accepts(s, index) ==> r == s
    ensures Accepts(s, index) ==>
      r.board[index] == TurnMark(s.xIsNext) &&
      (forall j :: 0 <= j < 9 && j != index ==> r.board[j] == s.board[j]) &&
      r.xIsNext == !s.xIsNext
  {
    if Accepts(s, index) then State(s.board[index := TurnMark(s.xIsNext)], !s.xIsNext)
    else s
  }

  /** The component itself: the board is an array that every accepted move
      replaces with a fresh copy; the array it replaces is never written. */
  class Game {
    var board: array<Cell>
    var xIsNext: bool

    ghost predicate Valid()
      reads this
    {
      board.Length == 9
    }

    /** The current state as a value. */
    function Snapshot(): State
      reads this, board
      requires Valid()
    {
      State(board[..], xIsNext)
    }

    constructor ()
      ensures Valid() && fresh(board)
      ensures Snapshot() == Initial()
    {
      var cells := new Cell[9](_ => Empty);
      assert cells[..] == EmptyBoard;
      board := cells;
      xIsNext := true;
    }

    /** Start a new game from whatever state the game is in. */
    method ResetGame()
      modifies this
      ensures Valid() && fresh(board)
      ensures Snapshot() == Initial()
    {
      board := new Cell[9](_ => Empty);
      xIsNext := true;
      assert board[..] == EmptyBoard;
    }

    /** A click on the square at index: ignored after a win or on a marked
        square; otherwise the square gets the mover's mark in a copy of the
        board and the turn passes to the other player. */
    method HandleClick(index: Index)
      requires Valid()
      modifies this
      ensures Valid()
      ensures Snapshot() == Click(old(Snapshot()), index)
      ensures Accepts(old(Snapshot()), index) ==> fresh(board)
      ensures !Accepts(old(Snapshot()), index) ==> board == old(board)
    {
      var info := GetWinnerAndLine(board[..]);
      if info.winner != Empty || board[index] != Empty {
        return;
      }
      var newBoard := new Cell[9];
      for i := 0 to 9
        modifies newBoard
        invariant forall j :: 0 <= j < i ==> newBoard[j] == board[j]
      {
        newBoard[i] := board[i];
      }
      newBoard[index] := TurnMark(xIsNext);
      assert newBoard[..] == board[..][index := TurnMark(xIsNext)];
      board := newBoard;
      xIsNext := !xIsNext;
    }
  }
}

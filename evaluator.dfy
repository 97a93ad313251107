/** The outcome evaluator: the fixed table of eight winning lines and the
    search that maps a board to its winner and winning line. */
module Evaluator {

  datatype Option<T> = None | Some(value: T)

  /** One square: empty (JavaScript's `null`) or a player's mark. */
  datatype Cell = Empty | X | O

  /** A square's position, 0..8 in row-major order. */
  type Index = i: int | 0 <= i < 9

  /** The nine squares, row by row. */
  type Board = b: seq<Cell> | |b| == 9
    witness [Empty, Empty, Empty, Empty, Empty, Empty, Empty, Empty, Empty]

  /** A triple of positions that wins when its three squares agree. */
  datatype Line = Line(a: Index, b: Index, c: Index)

  /** The evaluator's answer; a winner of Empty stands for JavaScript's `null`. */
  datatype WinningInfo = WinningInfo(winner: Cell, line: Option<Line>)

  /** Rows top to bottom, then columns left to right, then the two diagonals. */
  const WinningCombinations: seq<Line> := [
    Line(0, 1, 2), Line(3, 4, 5), Line(6, 7, 8),
    Line(0, 3, 6), Line(1, 4, 7), Line(2, 5, 8),
    Line(0, 4, 8), Line(2, 4, 6)
  ]

  /** The table holds the three rows top to bottom, then the three columns
      left to right, then the two diagonals; each entry lists three distinct
      squares in increasing order, and no entry appears twice. */
  lemma TableLayout()
    ensures |WinningCombinations| == 8
    ensures forall k :: 0 <= k < 3 ==> WinningCombinations[k] == Line(3 * k, 3 * k + 1, 3 * k + 2)
    ensures forall k :: 3 <= k < 6 ==> WinningCombinations[k] == Line(k - 3, k, k + 3)
    ensures WinningCombinations[6] == Line(0, 4, 8) && WinningCombinations[7] == Line(2, 4, 6)
    ensures forall k :: 0 <= k < |WinningCombinations| ==>
      WinningCombinations[k].a < WinningCombinations[k].b < WinningCombinations[k].c
    ensures forall i, j :: 0 <= i < j < |WinningCombinations| ==> WinningCombinations[i] != WinningCombinations[j]
  {
  }

  /** The test applied to each line: its first square is marked and the
      other two hold the same mark. */
  predicate Complete(board: Board, l: Line) {
    board[l.a] != Empty && board[l.a] == board[l.b] && board[l.a] == board[l.c]
  }

  /** Position in the table of the first complete line at or after k, or
      the table's length when there is none. */
  function FirstComplete(board: Board, k: nat): (j: nat)
    requires k <= |WinningCombinations|
    ensures k <= j <= |WinningCombinations|
    ensures forall i :: k <= i < j ==> !Complete(board, WinningCombinations[i])
    ensures j < |WinningCombinations| ==> Complete(board, WinningCombinations[j])
    decreases |WinningCombinations| - k
  {
    if k == |WinningCombinations| then k
    else if Complete(board, WinningCombinations[k]) then k
    else FirstComplete(board, k + 1)
  }

  /** What the search of the table returns for a board. */
  function Outcome(board: Board): (r: WinningInfo)
    ensures r.winner == Empty <==> r.line == None
    ensures r.line == None <==>
      forall k :: 0 <= k < |WinningCombinations| ==> !Complete(board, WinningCombinations[k])
    ensures r.line.Some? ==>
      exists j :: 0 <= j < |WinningCombinations| && r.line.value == WinningCombinations[j] &&
        (forall i :: 0 <= i < j ==> !Complete(board, WinningCombinations[i]))
    ensures r.line.Some? ==>
      var l := r.line.value;
      r.winner != Empty && board[l.a] == r.winner && board[l.b] == r.winner && board[l.c] == r.winner
  {
    var j := FirstComplete(board, 0);
    if j < |WinningCombinations| then
      var l := WinningCombinations[j];
      WinningInfo(board[l.a], Some(l))
    else
      WinningInfo(Empty, None)
  }

  /** The component's loop over the table, returning at the first complete line. */
  method GetWinnerAndLine(board: Board) returns (info: WinningInfo)
    ensures info == Outcome(board)
  {
    for k := 0 to |WinningCombinations|
      invariant forall i :: 0 <= i < k ==> !Complete(board, WinningCombinations[i])
    {
      var l := WinningCombinations[k];
      if board[l.a] != Empty && board[l.a] == board[l.b] && board[l.a] == board[l.c] {
        return WinningInfo(board[l.a], Some(l));
      }
    }
    return WinningInfo(Empty, None);
  }

  /** Whether the square at index is drawn as part of the winning line. */
  predicate IsWinning(line: Option<Line>, index: Index) {
    match line
    case None => false
    case Some(l) => index == l.a || index == l.b || index == l.c
  }

  /** A complete line is never passed over: the search returns it or a
      complete line that comes before it in the table. */
  lemma CompleteLineFound(board: Board, k: nat)
    requires k < |WinningCombinations| && Complete(board, WinningCombinations[k])
    ensures Outcome(board).winner != Empty
    ensures exists j :: 0 <= j <= k && Outcome(board).line == Some(WinningCombinations[j])
  {
  }

  /** A complete line with no complete line before it is exactly what the
      search returns. */
  lemma EarliestLineReturned(board: Board, k: nat)
    requires k < |WinningCombinations| && Complete(board, WinningCombinations[k])
    requires forall i :: 0 <= i < k ==> !Complete(board, WinningCombinations[i])
    ensures Outcome(board) ==
      WinningInfo(board[WinningCombinations[k].a], Some(WinningCombinations[k]))
  {
  }

  /** Highlighted squares carry the winner's mark, and nothing is
      highlighted when there is no winner. */
  lemma HighlightMarksWinner(board: Board, index: Index)
    ensures IsWinning(Outcome(board).line, index) ==>
      Outcome(board).winner != Empty && board[index] == Outcome(board).winner
    ensures Outcome(board).winner == Empty ==> !IsWinning(Outcome(board).line, index)
  {
  }
}

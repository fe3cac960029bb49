/**
  The squares of a tic-tac-toe board, the eight winning lines and the
  winner check (`calculateWinner` in src/index.js).
 */
module Winner {

  /** A square is empty (`null` in the source) or holds a player's mark. */
  datatype Cell = Empty | X | O

  datatype Option<T> = None | Some(value: T)

  /** Squares are numbered 0..8, row by row. */
  type Index = i: int | 0 <= i < 9

  /** A board always has exactly nine squares. */
  type Board = b: seq<Cell> | |b| == 9
    witness [Empty, Empty, Empty, Empty, Empty, Empty, Empty, Empty, Empty]

  const EMPTY_BOARD: Board := [Empty, Empty, Empty, Empty, Empty, Empty, Empty, Empty, Empty]

  /** Three square indices that form a row, a column or a diagonal. */
  datatype Line = Line(a: Index, b: Index, c: Index)

  /** The winning lines in the order they are checked: rows, columns, diagonals. */
  const WINNING_LINES: seq<Line> := [
    Line(0, 1, 2),
    Line(3, 4, 5),
    Line(6, 7, 8),
    Line(0, 3, 6),
    Line(1, 4, 7),
    Line(2, 5, 8),
    Line(0, 4, 8),
    Line(2, 4, 6)
  ]

  /** What the winner check reports: the winning mark and its line. */
  datatype Win = Win(name: Cell, winningPositions: Line)

  /** All three squares of `l` hold the same mark. */
  predicate LineWins(squares: Board, l: Line) {
    squares[l.a] != Empty && squares[l.a] == squares[l.b] && squares[l.a] == squares[l.c]
  }

  /** Some row, column or diagonal is held entirely by one player. */
  predicate HasWinningLine(squares: Board) {
    exists k :: 0 <= k < |WINNING_LINES| && LineWins(squares, WINNING_LINES[k])
  }

  /** Line number `k` wins and no line checked from `from` up to `k` does. */
  predicate IsFirstWinFrom(squares: Board, from: nat, k: int) {
    && from <= k < |WINNING_LINES|
    && LineWins(squares, WINNING_LINES[k])
    && forall j :: from <= j < k ==> !LineWins(squares, WINNING_LINES[j])
  }

  /** Line number `k` is the first winning line in the listed order. */
  predicate IsFirstWin(squares: Board, k: int) {
    IsFirstWinFrom(squares, 0, k)
  }

  /** The report for line number `k`: the mark in its first square, and the line. */
  function WinAt(squares: Board, k: int): Win
    requires 0 <= k < |WINNING_LINES|
  {
    Win(squares[WINNING_LINES[k].a], WINNING_LINES[k])
  }

  /** The winner check restricted to the lines from number `i` on. */
  function WinnerFrom(squares: Board, i: nat): (r: Option<Win>)
    requires i <= |WINNING_LINES|
    ensures r.Some? <==> exists k :: i <= k < |WINNING_LINES| && LineWins(squares, WINNING_LINES[k])
    ensures r.Some? ==> exists k :: IsFirstWinFrom(squares, i, k) && r.value == WinAt(squares, k)
    decreases |WINNING_LINES| - i
  {
    if i == |WINNING_LINES| then None
    else if LineWins(squares, WINNING_LINES[i]) then Some(WinAt(squares, i))
    else WinnerFrom(squares, i + 1)
  }

  /**
    The winner of a board: none exactly when no line is held by one player,
    otherwise the mark and the first winning line in the listed order.
   */
  function WinnerOf(squares: Board): (r: Option<Win>)
    ensures r.Some? <==> HasWinningLine(squares)
    ensures r.Some? ==> exists k :: IsFirstWin(squares, k) && r.value == WinAt(squares, k)
    ensures r.Some? ==> r.value.name != Empty && LineWins(squares, r.value.winningPositions)
  {
    WinnerFrom(squares, 0)
  }

  /** Whatever line is first to win determines the winner, mark and line. */
  lemma WinnerOfFirstWin(squares: Board, k: int)
    requires IsFirstWin(squares, k)
    ensures WinnerOf(squares) == Some(WinAt(squares, k))
  {
    assert HasWinningLine(squares) by {
      assert LineWins(squares, WINNING_LINES[k]);
    }
    var k' :| IsFirstWin(squares, k') && WinnerOf(squares).value == WinAt(squares, k');
    assert IsFirstWin(squares, k');
    assert IsFirstWinFrom(squares, 0, k');
    assert LineWins(squares, WINNING_LINES[k]) && LineWins(squares, WINNING_LINES[k']);
  }

  /** The loop of `calculateWinner`: scan the lines in order, return at the first match. */
  method CalculateWinner(squares: Board) returns (r: Option<Win>)
    ensures r == WinnerOf(squares)
  {
    for i := 0 to |WINNING_LINES|
      invariant WinnerFrom(squares, i) == WinnerOf(squares)
    {
      var l := WINNING_LINES[i];
      if squares[l.a] != Empty && squares[l.a] == squares[l.b] && squares[l.a] == squares[l.c] {
        return Some(Win(squares[l.a], l));
      }
    }
    return None;
  }

  /** The number of squares of `cells` that hold `c`. */
  function Count(cells: seq<Cell>, c: Cell): (n: nat)
    ensures n <= |cells|
    ensures n == 0 <==> forall i :: 0 <= i < |cells| ==> cells[i] != c
    ensures n == |cells| <==> forall i :: 0 <= i < |cells| ==> cells[i] == c
  {
    if cells == [] then 0
    else (if cells[0] == c then 1 else 0) + Count(cells[1..], c)
  }

  /** Writing `m` into square `i` moves one square from the count of its old content to that of `m`. */
  lemma {:induction false} CountUpdate(cells: seq<Cell>, i: nat, m: Cell, c: Cell)
    requires i < |cells|
    ensures Count(cells[i := m], c)
            == Count(cells, c) - (if cells[i] == c then 1 else 0) + (if m == c then 1 else 0)
  {
    if i == 0 {
      assert cells[i := m][1..] == cells[1..];
    } else {
      CountUpdate(cells[1..], i - 1, m, c);
      assert cells[i := m][1..] == cells[1..][i - 1 := m];
    }
  }

  /** Three distinct squares holding the mark `c` make `c` count at least three times. */
  lemma ThreeMarksCount(cells: seq<Cell>, c: Cell, a: nat, b: nat, d: nat)
    requires a < |cells| && b < |cells| && d < |cells|
    requires a != b && b != d && a != d
    requires c != Empty && cells[a] == c && cells[b] == c && cells[d] == c
    ensures Count(cells, c) >= 3
  {
    var once := cells[a := Empty];
    var twice := once[b := Empty];
    CountUpdate(cells, a, Empty, c);
    CountUpdate(once, b, Empty, c);
    assert twice[d] == c;
  }

  /** A winning line needs three marks of one player on the board. */
  lemma WinNeedsThreeMarks(squares: Board)
    requires HasWinningLine(squares)
    ensures Count(squares, X) >= 3 || Count(squares, O) >= 3
  {
    var k :| 0 <= k < |WINNING_LINES| && LineWins(squares, WINNING_LINES[k]);
    var l := WINNING_LINES[k];
    assert l.a != l.b && l.b != l.c && l.a != l.c;
    ThreeMarksCount(squares, squares[l.a], l.a, l.b, l.c);
  }

  /** The text a square shows: its mark, or nothing when empty. */
  function CellText(c: Cell): string {
    match c
    case Empty => ""
    case X => "X"
    case O => "O"
  }

  /** `squares.join('')`: the marks of the squares, empty squares contributing nothing. */
  function Joined(cells: seq<Cell>): (s: string)
    ensures |s| == |cells| - Count(cells, Empty)
    ensures forall j :: 0 <= j < |s| ==> s[j] in "XO"
  {
    if cells == [] then ""
    else CellText(cells[0]) + Joined(cells[1..])
  }
}

/**
  The `Game` component of src/index.js without its rendering: the game state
  (move history, current step, whose turn, highlighted winning line), the
  three transitions that change it, and the status line derived from it.
 */
module GameEngine {
  import opened Winner

  /** The component's `this.state`. */
  datatype GameState = GameState(
    history: seq<Board>,
    stepNumber: nat,
    winningPositions: Option<Line>,
    turnForX: bool)

  /** The state the constructor builds: one empty board, step 0, no highlight, X to move. */
  const INITIAL_STATE: GameState := GameState([EMPTY_BOARD], 0, None, true)

  /** The mark of the player whose turn it is. */
  function MarkFor(turnForX: bool): Cell {
    if turnForX then X else O
  }

  /** The highlight a board calls for: its first winning line, or none. */
  function Highlight(squares: Board): (r: Option<Line>)
    ensures r.None? <==> !HasWinningLine(squares)
    ensures r.Some? ==> LineWins(squares, r.value)
    ensures r.Some? ==> exists k :: IsFirstWin(squares, k) && r.value == WINNING_LINES[k]
  {
    match WinnerOf(squares)
    case Some(w) => Some(w.winningPositions)
    case None => None
  }

  /**
    `next` follows `prev` by the move made at step `step`: `prev` had no winner,
    and one of its empty squares received the mark of the player whose turn
    the parity of `step` gives.
   */
  predicate IsMove(prev: Board, next: Board, step: nat) {
    && !HasWinningLine(prev)
    && exists i: Index :: prev[i] == Empty && next == prev[i := MarkFor(step % 2 == 0)]
  }

  /** A history starts from the empty board and grows one move at a time. */
  predicate WellFormedHistory(h: seq<Board>) {
    && |h| >= 1
    && h[0] == EMPTY_BOARD
    && forall k :: 0 < k < |h| ==> IsMove(h[k - 1], h[k], k - 1)
  }

  /** The invariant every reachable state keeps. */
  predicate Consistent(s: GameState) {
    && WellFormedHistory(s.history)
    && s.stepNumber < |s.history|
    && s.turnForX == (s.stepNumber % 2 == 0)
    && s.winningPositions == Highlight(s.history[s.stepNumber])
  }

  /** The constructor's state is consistent: the empty board has no winner. */
  lemma InitialStateConsistent()
    ensures Consistent(INITIAL_STATE)
  {
    if HasWinningLine(EMPTY_BOARD) {
      WinNeedsThreeMarks(EMPTY_BOARD);
    }
  }

  /** Dropping the boards after step `n` and appending a move made at step `n` keeps a history well formed. */
  lemma AppendMove(h: seq<Board>, n: nat, squares: Board)
    requires WellFormedHistory(h) && n < |h|
    requires IsMove(h[n], squares, n)
    ensures WellFormedHistory(h[..n + 1] + [squares])
  {
    var h' := h[..n + 1] + [squares];
    forall k | 0 < k < |h'|
      ensures IsMove(h'[k - 1], h'[k], k - 1)
    {
      if k <= n {
        assert h'[k - 1] == h[k - 1] && h'[k] == h[k];
      }
    }
  }

  /**
    A move accepted at square `i` leads from a consistent state to a consistent one:
    the new board is a legal move, step and turn advance together, and as the
    previous board had no winner its highlight was empty, so keeping it unless
    the new board wins gives the new board's highlight.
   */
  lemma MoveKeepsConsistent(s: GameState, i: Index, s': GameState)
    requires Consistent(s)
    requires !HasWinningLine(s.history[s.stepNumber]) && s.history[s.stepNumber][i] == Empty
    requires var squares := s.history[s.stepNumber][i := MarkFor(s.turnForX)];
      && s'.history == s.history[..s.stepNumber + 1] + [squares]
      && s'.stepNumber == s.stepNumber + 1
      && s'.turnForX == !s.turnForX
      && s'.winningPositions == if HasWinningLine(squares) then Highlight(squares) else s.winningPositions
    ensures Consistent(s')
  {
    var squares := s.history[s.stepNumber][i := MarkFor(s.turnForX)];
    assert IsMove(s.history[s.stepNumber], squares, s.stepNumber);
    AppendMove(s.history, s.stepNumber, squares);
  }

  /** How the halves in the counts below change from one step to the next. */
  lemma NextParity(n: nat)
    ensures n % 2 == 0 ==> (n + 2) / 2 == (n + 1) / 2 + 1 && (n + 1) / 2 == n / 2
    ensures n % 2 != 0 ==> (n + 2) / 2 == (n + 1) / 2 && (n + 1) / 2 == n / 2 + 1
  {
  }

  /**
    The board after `k` moves holds `k` marks, alternating from X: X has
    the extra one after an odd number of moves.
   */
  lemma {:induction false} HistoryCounts(h: seq<Board>, k: nat)
    requires WellFormedHistory(h) && k < |h|
    ensures Count(h[k], X) == (k + 1) / 2
    ensures Count(h[k], O) == k / 2
    ensures Count(h[k], Empty) == 9 - k
  {
    if k > 0 {
      var prev := h[k - 1];
      var m := MarkFor((k - 1) % 2 == 0);
      HistoryCounts(h, k - 1);
      assert IsMove(prev, h[k], k - 1);
      var i: Index :| prev[i] == Empty && h[k] == prev[i := m];
      CountUpdate(prev, i, m, X);
      CountUpdate(prev, i, m, O);
      CountUpdate(prev, i, m, Empty);
      NextParity(k - 1);
    }
  }

  /** Nobody can have won before the fifth move: X needs three marks, and has them only after five moves. */
  lemma NoWinBeforeFifthMove(h: seq<Board>, k: nat)
    requires WellFormedHistory(h) && k < |h| && k < 5
    ensures !HasWinningLine(h[k])
  {
    HistoryCounts(h, k);
    if HasWinningLine(h[k]) {
      WinNeedsThreeMarks(h[k]);
    }
  }

  /** A game lasts at most nine moves, so the history never holds more than ten boards. */
  lemma HistoryAtMostTen(h: seq<Board>)
    requires WellFormedHistory(h)
    ensures |h| <= 10
  {
    HistoryCounts(h, |h| - 1);
  }

  /** The status line shown above the move list. */
  function StatusOf(squares: Board, turnForX: bool): (s: string)
    ensures forall k :: IsFirstWin(squares, k) ==>
      s == "Winner: " + CellText(squares[WINNING_LINES[k].a])
    ensures !HasWinningLine(squares) && (forall i :: 0 <= i < 9 ==> squares[i] != Empty) ==>
      s == "Game finished. Nobody won!"
    ensures !HasWinningLine(squares) && (exists i :: 0 <= i < 9 && squares[i] == Empty) ==>
      s == "Next player: " + CellText(MarkFor(turnForX))
  {
    var winner := WinnerOf(squares);
    if winner.Some? then
      assert forall k :: IsFirstWin(squares, k) ==> winner == Some(WinAt(squares, k)) by {
        forall k | IsFirstWin(squares, k) {
          WinnerOfFirstWin(squares, k);
        }
      }
      "Winner: " + CellText(winner.value.name)
    else if |Joined(squares)| == 9 then
      "Game finished. Nobody won!"
    else
      "Next player: " + (if turnForX then "X" else "O")
  }

  /**
    In a reachable state the status reports a draw exactly when nobody has won
    and all nine moves have been played.
   */
  lemma DrawAfterNineMoves(s: GameState)
    requires Consistent(s)
    ensures StatusOf(s.history[s.stepNumber], s.turnForX) == "Game finished. Nobody won!"
            <==> !HasWinningLine(s.history[s.stepNumber]) && s.stepNumber == 9
  {
    var squares := s.history[s.stepNumber];
    HistoryCounts(s.history, s.stepNumber);
    if HasWinningLine(squares) {
      var w := WinnerOf(squares).value;
      assert StatusOf(squares, s.turnForX) == "Winner: " + CellText(w.name);
      assert StatusOf(squares, s.turnForX)[..8] == "Winner: ";
    } else if s.stepNumber < 9 {
      assert StatusOf(squares, s.turnForX)[..13] == "Next player: ";
    }
  }

  class Game {
    /** The component's state, replaced by each transition. */
    var state: GameState
    /** The snapshot of the constructor's state that a reset restores. */
    const startingState: GameState

    ghost predicate Valid()
      reads this
    {
      Consistent(state) && startingState == INITIAL_STATE
    }

    constructor ()
      ensures Valid() && state == INITIAL_STATE
    {
      state := INITIAL_STATE;
      startingState := INITIAL_STATE;
      InitialStateConsistent();
    }

    /** The board shown at the current step. */
    function Current(): Board
      reads this
      requires Valid()
    {
      state.history[state.stepNumber]
    }

    /**
      A click on square `i`: ignored when the current board is already won or
      the square is taken; otherwise the history after the current step is
      dropped, the board with the mover's mark in square `i` is appended, the
      step advances and the turn passes.
     */
    method HandleClick(i: Index)
      requires Valid()
      modifies this
      ensures Valid()
      ensures var current := old(state.history[state.stepNumber]);
        if HasWinningLine(current) || current[i] != Empty then
          state == old(state)
        else
          var squares := current[i := MarkFor(old(state.turnForX))];
          && state.history == old(state.history[..state.stepNumber + 1]) + [squares]
          && state.stepNumber == old(state.stepNumber) + 1
          && state.turnForX == !old(state.turnForX)
          && state.winningPositions
             == if HasWinningLine(squares) then Highlight(squares) else old(state.winningPositions)
    {
      var history := state.history[..state.stepNumber + 1];
      var current := history[|history| - 1];
      var squares := current;
      var winner := CalculateWinner(squares);
      if winner.Some? || squares[i] != Empty {
        return;
      }
      squares := squares[i := if state.turnForX then X else O];
      ghost var prev := state;
      state := state.(
        history := history + [squares],
        stepNumber := |history|,
        turnForX := !state.turnForX);
      var newWinner := CalculateWinner(squares);
      if newWinner.Some? {
        state := state.(winningPositions := Some(newWinner.value.winningPositions));
      }
      MoveKeepsConsistent(prev, i, state);
    }

    /**
      Travel to step `move` of the history: the history is kept, the step and
      the turn follow `move`, and the highlight is that of the board there.
     */
    method JumpTo(move: nat)
      requires Valid() && move < |state.history|
      modifies this
      ensures Valid()
      ensures state.history == old(state.history)
      ensures state.stepNumber == move
      ensures state.turnForX == (move % 2 == 0)
      ensures state.winningPositions == Highlight(state.history[move])
    {
      var squares := state.history[move];
      var winner := CalculateWinner(squares);
      var winningPositions := if winner.Some? then Some(winner.value.winningPositions) else None;
      state := state.(
        stepNumber := move,
        winningPositions := winningPositions,
        turnForX := move % 2 == 0);
    }

    /** Start over: restore the constructor's state, whatever was played. */
    method ResetGame()
      requires Valid()
      modifies this
      ensures Valid() && state == INITIAL_STATE
    {
      state := startingState;
      InitialStateConsistent();
    }
  }
}

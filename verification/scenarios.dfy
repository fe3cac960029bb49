/**
  A game played through the `Game` class, showing what its contracts let a
  caller conclude: a win on the top row that freezes the board, travel back
  in time, and a reset.
 */
module Scenarios {
  import opened Winner
  import opened GameEngine

  /** A click on an empty square, within the first four moves, is played. */
  method Play(g: Game, i: Index)
    requires g.Valid() && g.state.stepNumber < 4
    requires g.Current()[i] == Empty
    modifies g
    ensures g.Valid()
    ensures g.state.stepNumber == old(g.state.stepNumber) + 1
    ensures g.state.turnForX == !old(g.state.turnForX)
    ensures forall k :: 0 <= k <= old(g.state.stepNumber) ==> g.state.history[k] == old(g.state.history[k])
    ensures g.Current() == old(g.Current())[i := MarkFor(old(g.state.turnForX))]
  {
    NoWinBeforeFifthMove(g.state.history, g.state.stepNumber);
    g.HandleClick(i);
  }

  /** X plays 0, O plays 4. */
  method FirstRound() returns (g: Game)
    ensures fresh(g) && g.Valid()
    ensures g.state.stepNumber == 2
    ensures g.state.history[1] == EMPTY_BOARD[0 := X]
    ensures g.Current() == EMPTY_BOARD[0 := X][4 := O]
  {
    g := new Game();
    Play(g, 0);
    ghost var move1 := g.Current();
    assert move1 == EMPTY_BOARD[0 := X] && move1[4] == Empty;
    Play(g, 4);
    assert g.state.history[1] == move1;
  }

  /** Then X plays 1, O plays 5: X threatens the top row. */
  method Opening() returns (g: Game)
    ensures fresh(g) && g.Valid()
    ensures g.state.stepNumber == 4
    ensures g.state.history[1] == EMPTY_BOARD[0 := X]
    ensures g.Current() == EMPTY_BOARD[0 := X][4 := O][1 := X][5 := O]
  {
    g := FirstRound();
    Play(g, 1);
    Play(g, 5);
  }

  /**
    X takes the top row; a further click is ignored; jumping back to step 1
    clears the win and gives O the move; a reset restores the initial state.
   */
  method TopRowWin() returns (g: Game)
    ensures fresh(g) && g.Valid() && g.state == INITIAL_STATE
  {
    g := Opening();
    ghost var move1 := g.state.history[1];
    NoWinBeforeFifthMove(g.state.history, 4);
    g.HandleClick(2);
    var won := g.Current();
    assert won[0] == X && won[1] == X && won[2] == X;
    assert IsFirstWin(won, 0);
    WinnerOfFirstWin(won, 0);
    assert g.state.winningPositions == Some(Line(0, 1, 2));
    assert StatusOf(won, g.state.turnForX) == "Winner: X";
    assert g.state.history[1] == move1;

    ghost var before := g.state;
    g.HandleClick(3);
    assert g.state == before;
    assert g.state.stepNumber == 5 && |g.state.history| == 6;

    g.JumpTo(1);
    NoWinBeforeFifthMove(g.state.history, 1);
    assert g.Current() == EMPTY_BOARD[0 := X];
    assert g.state.winningPositions == None && !g.state.turnForX;

    g.ResetGame();
    assert g.state == INITIAL_STATE;
  }

  /**
    X on 0, 1, 5, 6, 8 and O on 2, 3, 4, 7: every square is taken, no line is
    held by one player, and the status reports a draw whoever is to move.
   */
  lemma FullBoardWithoutWinner(turnForX: bool)
    ensures var squares: Board := [X, X, O, O, O, X, X, O, X];
      && !HasWinningLine(squares)
      && StatusOf(squares, turnForX) == "Game finished. Nobody won!"
  {
    var squares: Board := [X, X, O, O, O, X, X, O, X];
    forall k | 0 <= k < |WINNING_LINES|
      ensures !LineWins(squares, WINNING_LINES[k])
    {
      assert k < 4 || k >= 4;
    }
    assert Count(squares, Empty) == 0;
  }
}

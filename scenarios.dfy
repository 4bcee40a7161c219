/**
 Concrete games played on the model, press by press: a win that is recorded
 one press late, a full board that never becomes a draw, a win completed by
 the board-filling press that is never recorded, and a rejected second press
 on a marked cell.
 */
module Scenarios {
  import opened Board
  import opened Game
  import opened Play

  /** Both games open with O on cell 0. */
  const AfterFirstPress: State := State(
    [Filled(O), Empty, Empty,
     Empty, Empty, Empty,
     Empty, Empty, Empty],
    true, Pending)

  /** The states of a game in which O takes the top row: presses 0, 3, 1, 4, 2
      (after the first, which both games share). */
  const WinAfter2: State := State(
    [Filled(O), Empty, Empty,
     Filled(X), Empty, Empty,
     Empty, Empty, Empty],
    false, Pending)
  const WinAfter3: State := State(
    [Filled(O), Filled(O), Empty,
     Filled(X), Empty, Empty,
     Empty, Empty, Empty],
    true, Pending)
  const WinAfter4: State := State(
    [Filled(O), Filled(O), Empty,
     Filled(X), Filled(X), Empty,
     Empty, Empty, Empty],
    false, Pending)
  const WinAfter5: State := State(
    [Filled(O), Filled(O), Filled(O),
     Filled(X), Filled(X), Empty,
     Empty, Empty, Empty],
    true, Pending)

  /** The states of a game that fills the board with no complete line:
      presses 0, 1, 2, 4, 3, 5, 7, 6, 8
      (after the first, which both games share). */
  const DrawAfter2: State := State(
    [Filled(O), Filled(X), Empty,
     Empty, Empty, Empty,
     Empty, Empty, Empty],
    false, Pending)
  const DrawAfter3: State := State(
    [Filled(O), Filled(X), Filled(O),
     Empty, Empty, Empty,
     Empty, Empty, Empty],
    true, Pending)
  const DrawAfter4: State := State(
    [Filled(O), Filled(X), Filled(O),
     Empty, Filled(X), Empty,
     Empty, Empty, Empty],
    false, Pending)
  const DrawAfter5: State := State(
    [Filled(O), Filled(X), Filled(O),
     Filled(O), Filled(X), Empty,
     Empty, Empty, Empty],
    true, Pending)
  const DrawAfter6: State := State(
    [Filled(O), Filled(X), Filled(O),
     Filled(O), Filled(X), Filled(X),
     Empty, Empty, Empty],
    false, Pending)
  const DrawAfter7: State := State(
    [Filled(O), Filled(X), Filled(O),
     Filled(O), Filled(X), Filled(X),
     Empty, Filled(O), Empty],
    true, Pending)
  const DrawAfter8: State := State(
    [Filled(O), Filled(X), Filled(O),
     Filled(O), Filled(X), Filled(X),
     Filled(X), Filled(O), Empty],
    false, Pending)
  const DrawAfter9: State := State(
    [Filled(O), Filled(X), Filled(O),
     Filled(O), Filled(X), Filled(X),
     Filled(X), Filled(O), Filled(O)],
    true, Pending)

  /** The last two states of a game that follows the one above up to its
      seventh press and then plays 8 and 6: presses 0, 1, 2, 4, 3, 5, 7, 8, 6.
      The ninth press, by O, completes the left column and fills the board. */
  const StuckAfter8: State := State(
    [Filled(O), Filled(X), Filled(O),
     Filled(O), Filled(X), Filled(X),
     Empty, Filled(O), Filled(X)],
    false, Pending)
  const StuckAfter9: State := State(
    [Filled(O), Filled(X), Filled(O),
     Filled(O), Filled(X), Filled(X),
     Filled(O), Filled(O), Filled(X)],
    true, Pending)

  /** One lemma per press: each accepted press of the two games, on its own. */
  lemma FirstPress()
    ensures Step(Initial(), 0).0 == AfterFirstPress
  {
    assert Initial().board == [Empty, Empty, Empty, Empty, Empty, Empty, Empty, Empty, Empty];
  }

  lemma WinPress2()
    ensures Step(AfterFirstPress, 3).0 == WinAfter2
  {
  }

  lemma WinPress3()
    ensures Step(WinAfter2, 1).0 == WinAfter3
  {
  }

  lemma WinPress4()
    ensures Step(WinAfter3, 4).0 == WinAfter4
  {
  }

  lemma WinPress5()
    ensures Step(WinAfter4, 2).0 == WinAfter5
  {
  }

  lemma DrawPress2()
    ensures Step(AfterFirstPress, 1).0 == DrawAfter2
  {
  }

  lemma DrawPress3()
    ensures Step(DrawAfter2, 2).0 == DrawAfter3
  {
  }

  lemma DrawPress4()
    ensures Step(DrawAfter3, 4).0 == DrawAfter4
  {
  }

  lemma DrawPress5()
    ensures Step(DrawAfter4, 3).0 == DrawAfter5
  {
  }

  lemma DrawPress6()
    ensures Step(DrawAfter5, 5).0 == DrawAfter6
  {
  }

  lemma DrawPress7()
    ensures Step(DrawAfter6, 7).0 == DrawAfter7
  {
  }

  lemma DrawPress8()
    ensures Step(DrawAfter7, 6).0 == DrawAfter8
  {
  }

  lemma DrawPress9()
    ensures Step(DrawAfter8, 8).0 == DrawAfter9
  {
  }

  lemma StuckPress8()
    ensures Step(DrawAfter7, 8).0 == StuckAfter8
  {
  }

  lemma StuckPress9()
    ensures Step(StuckAfter8, 6).0 == StuckAfter9
  {
  }

  lemma WinGameReached()
    ensures Run(Initial(), [0, 3, 1, 4, 2]) == WinAfter5
  {
    FirstPress();
    WinPress2();
    WinPress3();
    WinPress4();
    WinPress5();
    assert Run(WinAfter4, [2]) == Run(WinAfter5, []);
    assert Run(WinAfter3, [4, 2]) == Run(WinAfter4, [2]);
    assert Run(WinAfter2, [1, 4, 2]) == Run(WinAfter3, [4, 2]);
    assert Run(AfterFirstPress, [3, 1, 4, 2]) == Run(WinAfter2, [1, 4, 2]);
    assert Run(Initial(), [0, 3, 1, 4, 2]) == Run(AfterFirstPress, [3, 1, 4, 2]);
  }

  /** O completes the top row with its third mark, but the check ran on the
      board before that press: nothing is recorded and the game goes on. The
      next accepted press, by X, is the one that records O's win; that same
      press completes X's middle row, which is never recorded, since the game
      is now finished. */
  lemma WinIsRecordedOnePressLate()
    ensures Evaluate(Run(Initial(), [0, 3, 1, 4, 2]).board) == Won(O)
    ensures Run(Initial(), [0, 3, 1, 4, 2]).winner == Pending
    ensures Accepts(Run(Initial(), [0, 3, 1, 4, 2]), 5)
    ensures Run(Initial(), [0, 3, 1, 4, 2, 5]).winner == Won(O)
    ensures Run(Initial(), [0, 3, 1, 4, 2, 5]).board[5] == Filled(X)
    ensures LineWon(Run(Initial(), [0, 3, 1, 4, 2, 5]).board, 1)
    ensures LineOwner(Run(Initial(), [0, 3, 1, 4, 2, 5]).board, 1) == X
  {
    WinGameReached();
    RunAppend(Initial(), [0, 3, 1, 4, 2], [5]);
    assert [0, 3, 1, 4, 2] + [5] == [0, 3, 1, 4, 2, 5];
    assert Run(WinAfter5, [5]) == Run(Step(WinAfter5, 5).0, []);
    assert FirstWon(WinAfter5.board, 0);
    EvaluateWonIff(WinAfter5.board, O);
  }

  lemma DrawGameReached()
    ensures Run(Initial(), [0, 1, 2, 4, 3, 5, 7, 6, 8]) == DrawAfter9
  {
    FirstPress();
    DrawPress2();
    DrawPress3();
    DrawPress4();
    DrawPress5();
    DrawPress6();
    DrawPress7();
    DrawPress8();
    DrawPress9();
    assert Run(DrawAfter8, [8]) == Run(DrawAfter9, []);
    assert Run(DrawAfter7, [6, 8]) == Run(DrawAfter8, [8]);
    assert Run(DrawAfter6, [7, 6, 8]) == Run(DrawAfter7, [6, 8]);
    assert Run(DrawAfter5, [5, 7, 6, 8]) == Run(DrawAfter6, [7, 6, 8]);
    assert Run(DrawAfter4, [3, 5, 7, 6, 8]) == Run(DrawAfter5, [5, 7, 6, 8]);
    assert Run(DrawAfter3, [4, 3, 5, 7, 6, 8]) == Run(DrawAfter4, [3, 5, 7, 6, 8]);
    assert Run(DrawAfter2, [2, 4, 3, 5, 7, 6, 8]) == Run(DrawAfter3, [4, 3, 5, 7, 6, 8]);
    assert Run(AfterFirstPress, [1, 2, 4, 3, 5, 7, 6, 8]) == Run(DrawAfter2, [2, 4, 3, 5, 7, 6, 8]);
    assert Run(Initial(), [0, 1, 2, 4, 3, 5, 7, 6, 8]) == Run(AfterFirstPress, [1, 2, 4, 3, 5, 7, 6, 8]);
  }

  /** Nine presses fill the board with no complete line. The check of the
      ninth press saw an empty cell, so no Draw is recorded, and from then on
      every press is rejected as a filled cell: the game never ends. */
  lemma FullBoardIsNeverADraw(index: Pos)
    ensures Empty !in Run(Initial(), [0, 1, 2, 4, 3, 5, 7, 6, 8]).board
    ensures Evaluate(Run(Initial(), [0, 1, 2, 4, 3, 5, 7, 6, 8]).board) == Draw
    ensures Run(Initial(), [0, 1, 2, 4, 3, 5, 7, 6, 8]).winner == Pending
    ensures Step(Run(Initial(), [0, 1, 2, 4, 3, 5, 7, 6, 8]), index) ==
      (Run(Initial(), [0, 1, 2, 4, 3, 5, 7, 6, 8]), AlreadyFilled)
  {
    DrawGameReached();
    FullBoardIsComplete();
    FullBoardRejects(index);
  }

  lemma FullBoardIsComplete()
    ensures Empty !in DrawAfter9.board
    ensures Evaluate(DrawAfter9.board) == Draw
  {
    assert NoLineWon(DrawAfter9.board);
    DrawIff(DrawAfter9.board);
  }

  lemma FullBoardRejects(index: Pos)
    ensures Step(DrawAfter9, index) == (DrawAfter9, AlreadyFilled)
  {
    assert DrawAfter9.board[index] != Empty;
  }

  lemma StuckGameReached()
    ensures Run(Initial(), [0, 1, 2, 4, 3, 5, 7, 8, 6]) == StuckAfter9
  {
    FirstPress();
    DrawPress2();
    DrawPress3();
    DrawPress4();
    DrawPress5();
    DrawPress6();
    DrawPress7();
    StuckPress8();
    StuckPress9();
    assert Run(StuckAfter8, [6]) == Run(StuckAfter9, []);
    assert Run(DrawAfter7, [8, 6]) == Run(StuckAfter8, [6]);
    assert Run(DrawAfter6, [7, 8, 6]) == Run(DrawAfter7, [8, 6]);
    assert Run(DrawAfter5, [5, 7, 8, 6]) == Run(DrawAfter6, [7, 8, 6]);
    assert Run(DrawAfter4, [3, 5, 7, 8, 6]) == Run(DrawAfter5, [5, 7, 8, 6]);
    assert Run(DrawAfter3, [4, 3, 5, 7, 8, 6]) == Run(DrawAfter4, [3, 5, 7, 8, 6]);
    assert Run(DrawAfter2, [2, 4, 3, 5, 7, 8, 6]) == Run(DrawAfter3, [4, 3, 5, 7, 8, 6]);
    assert Run(AfterFirstPress, [1, 2, 4, 3, 5, 7, 8, 6]) == Run(DrawAfter2, [2, 4, 3, 5, 7, 8, 6]);
    assert Run(Initial(), [0, 1, 2, 4, 3, 5, 7, 8, 6]) == Run(AfterFirstPress, [1, 2, 4, 3, 5, 7, 8, 6]);
  }

  /** O's ninth press completes the left column, but its check saw the board
      before the press, with no complete line: nothing is recorded. The board
      is now full, so every later press is rejected and the win is never
      recorded. */
  lemma LastPressWinIsLost(presses: seq<Pos>)
    ensures Evaluate(Run(Initial(), [0, 1, 2, 4, 3, 5, 7, 8, 6]).board) == Won(O)
    ensures Run(Initial(), [0, 1, 2, 4, 3, 5, 7, 8, 6]).winner == Pending
    ensures Run(Run(Initial(), [0, 1, 2, 4, 3, 5, 7, 8, 6]), presses) ==
      Run(Initial(), [0, 1, 2, 4, 3, 5, 7, 8, 6])
  {
    StuckGameReached();
    StuckBoardIsWon();
    StuckBoardIsFrozen(presses);
  }

  lemma StuckBoardIsWon()
    ensures Evaluate(StuckAfter9.board) == Won(O)
  {
    assert FirstWon(StuckAfter9.board, 3);
    EvaluateWonIff(StuckAfter9.board, O);
  }

  lemma StuckBoardIsFrozen(presses: seq<Pos>)
    ensures Run(StuckAfter9, presses) == StuckAfter9
  {
    assert NoLineWon(StuckAfter8.board);
    StuckPress9();
    LastPressWinNeverRecorded(StuckAfter8, 6, presses);
  }

  /** A second press on a cell already marked is rejected and changes nothing. */
  lemma RepeatedCellIsRejected()
    ensures Run(Initial(), [0, 1, 2]).board[2] == Filled(O)
    ensures Step(Run(Initial(), [0, 1, 2]), 2) == (Run(Initial(), [0, 1, 2]), AlreadyFilled)
  {
    FirstPress();
    DrawPress2();
    DrawPress3();
    assert Run(DrawAfter2, [2]) == Run(DrawAfter3, []);
    assert Run(AfterFirstPress, [1, 2]) == Run(DrawAfter2, [2]);
    assert Run(Initial(), [0, 1, 2]) == Run(AfterFirstPress, [1, 2]);
  }
}

/**
 Properties of whole games: what holds along any sequence of presses. The
 concrete games that show them are in module `Scenarios`.
 */
module Play {
  import opened Board
  import opened Game

  /** Number of cells holding mark `m`. */
  function Count(b: seq<Cell>, m: Mark): nat
    decreases |b|
  {
    if b == [] then 0
    else (if b[0] == Filled(m) then 1 else 0) + Count(b[1..], m)
  }

  /** Writing `m` into an empty cell adds one `m` and leaves the count of every
      other mark alone. */
  lemma {:induction false} CountWrite(b: seq<Cell>, i: nat, m: Mark, n: Mark)
    requires i < |b| && b[i] == Empty
    ensures Count(b[i := Filled(m)], n) == Count(b, n) + (if n == m then 1 else 0)
    decreases |b|
  {
    if i > 0 {
      assert b[i := Filled(m)][1..] == b[1..][i - 1 := Filled(m)];
      CountWrite(b[1..], i - 1, m, n);
    }
  }

  /** A board holding no `m` counts zero of it. */
  lemma {:induction false} CountAbsent(b: seq<Cell>, m: Mark)
    requires Filled(m) !in b
    ensures Count(b, m) == 0
    decreases |b|
  {
    if b != [] {
      assert forall c :: c in b[1..] ==> c in b;
      CountAbsent(b[1..], m);
    }
  }

  /** A press never records a Draw and never shows the draw notice: an accepted
      press runs the check on a board whose pressed cell is still empty. */
  lemma {:induction false} PressNeverDraws(s: State, index: Pos)
    requires Valid(s) && s.winner != Draw
    ensures Step(s, index).0.winner != Draw
    ensures Step(s, index).1 != DrawMessage
  {
    if Accepts(s, index) {
      assert s.board[index] in s.board;
      DrawIff(s.board);
    }
  }

  /** From the start (or a restart) no sequence of presses ever records a Draw. */
  lemma {:induction false} RunNeverDraws(s: State, presses: seq<Pos>)
    requires Valid(s) && s.winner != Draw
    ensures Run(s, presses).winner != Draw
    decreases |presses|
  {
    if presses != [] {
      PressNeverDraws(s, presses[0]);
      RunNeverDraws(Step(s, presses[0]).0, presses[1..]);
    }
  }

  /** Once a result is recorded every press is rejected: no sequence of presses
      changes the board, the turn flag or the result until a restart. */
  lemma {:induction false} FinishedGameIsFrozen(s: State, presses: seq<Pos>)
    requires Valid(s) && s.winner != Pending
    ensures Run(s, presses) == s
    ensures Moves(s, presses) == []
    decreases |presses|
  {
    if presses != [] {
      FinishedGameIsFrozen(s, presses[1..]);
    }
  }

  /** A board with no empty cell rejects every press: whatever result is
      recorded, no sequence of presses changes the state until a restart. */
  lemma {:induction false} FullBoardIsFrozen(s: State, presses: seq<Pos>)
    requires Valid(s) && Empty !in s.board
    ensures Run(s, presses) == s
    ensures Moves(s, presses) == []
    decreases |presses|
  {
    if presses != [] {
      assert s.board[presses[0]] in s.board;
      FullBoardIsFrozen(s, presses[1..]);
    }
  }

  /** The press that fills the last empty cell runs the check on a board
      with no complete line, so it records nothing, even when it completes a
      line itself; the board is then full, and the game stays unfinished
      through every later press: that win is never recorded. */
  lemma LastPressWinNeverRecorded(s: State, index: Pos, presses: seq<Pos>)
    requires Valid(s) && Accepts(s, index) && NoLineWon(s.board)
    requires forall j :: 0 <= j < 9 && j != index ==> s.board[j] != Empty
    ensures Empty !in Step(s, index).0.board
    ensures Step(s, index).0.winner == Pending
    ensures Run(Step(s, index).0, presses) == Step(s, index).0
  {
    var t := Step(s, index).0;
    QuietStep(s, index, s.board[index := Filled(MarkFor(s.isCross))]);
    assert forall j :: 0 <= j < 9 ==> t.board[j] != Empty;
    FullBoardIsFrozen(t, presses);
  }

  /** A cell once marked keeps its mark through any sequence of presses. */
  lemma {:induction false} MarksAreNeverOverwritten(s: State, presses: seq<Pos>, j: Pos)
    requires Valid(s) && s.board[j] != Empty
    ensures Run(s, presses).board[j] == s.board[j]
    decreases |presses|
  {
    if presses != [] {
      MarksAreNeverOverwritten(Step(s, presses[0]).0, presses[1..], j);
    }
  }

  /** Starting with turn flag `c`, the accepted presses alternate marks: the
      k-th (from 0) writes the mark for `c` when k is even, the other mark when
      k is odd. */
  lemma {:induction false} MarksAlternateFrom(s: State, presses: seq<Pos>, k: nat)
    requires Valid(s) && k < |Moves(s, presses)|
    ensures Moves(s, presses)[k] == MarkFor(s.isCross != (k % 2 == 1))
    decreases |presses|
  {
    var t := Step(s, presses[0]).0;
    var rest := Moves(t, presses[1..]);
    if !Accepts(s, presses[0]) {
      assert Moves(s, presses) == rest;
      MarksAlternateFrom(t, presses[1..], k);
    } else {
      assert Moves(s, presses) == [MarkFor(s.isCross)] + rest;
      if k > 0 {
        assert t.isCross == !s.isCross;
        assert (k % 2 == 1) == !((k - 1) % 2 == 1);
        MarksAlternateFrom(t, presses[1..], k - 1);
      }
    }
  }

  /** The final turn flag is the initial one flipped once per accepted press. */
  lemma {:induction false} TurnFlipsPerMove(s: State, presses: seq<Pos>)
    requires Valid(s)
    ensures Run(s, presses).isCross == (s.isCross != (|Moves(s, presses)| % 2 == 1))
    decreases |presses|
  {
    if presses != [] {
      TurnFlipsPerMove(Step(s, presses[0]).0, presses[1..]);
    }
  }

  /** From the start or a restart, O moves first: the 1st, 3rd, 5th, ...
      accepted press writes O and the 2nd, 4th, ... writes X; the turn flag
      is set exactly when an odd number of presses were accepted. */
  lemma OFirstThenAlternate(presses: seq<Pos>)
    ensures forall k :: 0 <= k < |Moves(Initial(), presses)| ==>
      Moves(Initial(), presses)[k] == (if k % 2 == 0 then O else X)
    ensures Run(Initial(), presses).isCross == (|Moves(Initial(), presses)| % 2 == 1)
  {
    forall k | 0 <= k < |Moves(Initial(), presses)|
      ensures Moves(Initial(), presses)[k] == (if k % 2 == 0 then O else X)
    {
      MarksAlternateFrom(Initial(), presses, k);
    }
    TurnFlipsPerMove(Initial(), presses);
  }

  /** The invariant the alternation keeps on the board: with the flag clear
      there are as many Os as Xs, with it set one O more. */
  predicate Balanced(s: State)
  {
    Count(s.board, O) == Count(s.board, X) + (if s.isCross then 1 else 0)
  }

  lemma {:induction false} StepKeepsBalance(s: State, index: Pos)
    requires Valid(s) && Balanced(s)
    ensures Balanced(Step(s, index).0)
  {
    if Accepts(s, index) {
      var m := MarkFor(s.isCross);
      assert Step(s, index).0.board == s.board[index := Filled(m)];
      CountWrite(s.board, index, m, O);
      CountWrite(s.board, index, m, X);
    }
  }

  /** Every state reached from the start or a restart is balanced. */
  lemma {:induction false} RunKeepsBalance(s: State, presses: seq<Pos>)
    requires Valid(s) && Balanced(s)
    ensures Balanced(Run(s, presses))
    decreases |presses|
  {
    if presses != [] {
      StepKeepsBalance(s, presses[0]);
      RunKeepsBalance(Step(s, presses[0]).0, presses[1..]);
    }
  }

  lemma ReachableIsBalanced(presses: seq<Pos>)
    ensures Balanced(Run(Initial(), presses))
  {
    assert Filled(O) !in Initial().board && Filled(X) !in Initial().board;
    CountAbsent(Initial().board, O);
    CountAbsent(Initial().board, X);
    RunKeepsBalance(Initial(), presses);
  }

  /** A recorded win is a real line: the winner holds a complete line of the
      current board. */
  predicate WinIsOnBoard(s: State)
    requires Valid(s)
  {
    s.winner.Won? ==>
      exists k :: 0 <= k < |Lines| && LineWon(s.board, k) && LineOwner(s.board, k) == s.winner.winner
  }

  /** A press keeps a recorded win on the board. The win a press records is a
      complete line of the board before the press; its three cells are marked,
      so the pressed cell, which was empty, is not one of them, and the write
      leaves the line as it was. */
  lemma {:induction false} StepKeepsWinOnBoard(s: State, index: Pos)
    requires Valid(s) && WinIsOnBoard(s)
    ensures WinIsOnBoard(Step(s, index).0)
  {
    var t := Step(s, index).0;
    if Accepts(s, index) && Evaluate(s.board).Won? {
      var m := Evaluate(s.board).winner;
      EvaluateWonIff(s.board, m);
      var k: nat :| FirstWon(s.board, k) && LineOwner(s.board, k) == m;
      var (a, b, c) := Lines[k];
      assert index != a && index != b && index != c;
      assert t.board[a] == s.board[a] && t.board[b] == s.board[b] && t.board[c] == s.board[c];
      assert LineWon(t.board, k) && LineOwner(t.board, k) == t.winner.winner;
    }
  }

  /** Any sequence of presses keeps a recorded win on the board. */
  lemma {:induction false} RunKeepsWinOnBoard(s: State, presses: seq<Pos>)
    requires Valid(s) && WinIsOnBoard(s)
    ensures WinIsOnBoard(Run(s, presses))
    decreases |presses|
  {
    if presses != [] {
      StepKeepsWinOnBoard(s, presses[0]);
      RunKeepsWinOnBoard(Step(s, presses[0]).0, presses[1..]);
    }
  }

  /** In every state reached from the start or a restart, a recorded win of
      mark `m` is a complete line of `m` on the board. */
  lemma ReachableWinIsOnBoard(presses: seq<Pos>)
    ensures WinIsOnBoard(Run(Initial(), presses))
  {
    RunKeepsWinOnBoard(Initial(), presses);
  }

  /** In every state reached from the start or a restart, a board with no
      complete line has no result recorded. */
  lemma ReachableNoLineIsPending(presses: seq<Pos>)
    ensures NoLineWon(Run(Initial(), presses).board) ==> Run(Initial(), presses).winner == Pending
  {
    ReachableWinIsOnBoard(presses);
    RunNeverDraws(Initial(), presses);
  }

  /** An accepted press on a board with no complete line records nothing. */
  lemma QuietStep(s: State, index: Pos, after: seq<Cell>)
    requires Valid(s) && Accepts(s, index) && NoLineWon(s.board)
    requires after == s.board[index := Filled(MarkFor(s.isCross))]
    ensures Step(s, index).0 == State(after, !s.isCross, Pending)
  {
    assert s.board[index] in s.board;
    PendingIff(s.board);
    assert Step(s, index).0.board == after;
  }

  /** Pressing `p` then `q` is running the presses of both in turn. */
  lemma {:induction false} RunAppend(s: State, p: seq<Pos>, q: seq<Pos>)
    requires Valid(s)
    ensures Run(s, p + q) == Run(Run(s, p), q)
    decreases |p|
  {
    if p != [] {
      assert (p + q)[1..] == p[1..] + q;
      RunAppend(Step(s, p[0]).0, p[1..], q);
    } else {
      assert p + q == q;
    }
  }
}

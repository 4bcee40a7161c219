/**
 The game screen's state machine: the three pieces of state the screen keeps
 (the board, the turn flag `isCross`, the recorded result) and the two
 handlers that change them, a press on a cell and the restart button.

 `Step` is the press as a function of the whole state; the class `Screen`
 holds the state in fields and its methods are proved to follow `Step` and
 `Initial`.
 */
module Game {
  import opened Board

  /** The notice the screen shows after a press: none, a win, a draw, or the
      rejection notice. */
  datatype Message = Silent | WinMessage(mark: Mark) | DrawMessage | AlreadyFilled

  datatype State = State(board: seq<Cell>, isCross: bool, winner: Outcome)

  predicate Valid(s: State)
  {
    |s.board| == 9
  }

  /** The state at start-up and after a restart: nine empty cells, the turn
      flag cleared, no result. */
  function Initial(): (s: State)
    ensures Valid(s)
    ensures forall i :: 0 <= i < 9 ==> s.board[i] == Empty
    ensures !s.isCross && s.winner == Pending
  {
    State(seq(9, _ => Empty), false, Pending)
  }

  /** The mark the next accepted press writes: X when the flag is set, else O. */
  function MarkFor(isCross: bool): (m: Mark)
    ensures m == X <==> isCross
  {
    if isCross then X else O
  }

  /** The notice checkWinner shows for what it found. */
  function Announce(found: Outcome): (msg: Message)
    ensures msg != AlreadyFilled
    ensures msg == Silent <==> found == Pending
    ensures msg == DrawMessage <==> found == Draw
    ensures forall m :: msg == WinMessage(m) <==> found == Won(m)
  {
    match found
    case Pending => Silent
    case Won(m) => WinMessage(m)
    case Draw => DrawMessage
  }

  /** A press is accepted when its cell is empty and no result is recorded:
      a cell holding X or O, a recorded win of either mark and a recorded draw
      each make the press rejected. */
  predicate Accepts(s: State, index: Pos)
    requires Valid(s)
    ensures Accepts(s, index) <==>
      && s.board[index] != Filled(X) && s.board[index] != Filled(O)
      && s.winner != Won(X) && s.winner != Won(O) && s.winner != Draw
  {
    assert s.board[index] != Empty ==>
      s.board[index] == Filled(s.board[index].mark) && (s.board[index].mark == X || s.board[index].mark == O);
    assert s.winner.Won? ==>
      s.winner == Won(s.winner.winner) && (s.winner.winner == X || s.winner.winner == O);
    s.board[index] == Empty && s.winner == Pending
  }

  /** One press on cell `index`. An accepted press writes the current mark into
      that cell and flips the turn; the win check then runs on the board as it
      was BEFORE the write, and records what it finds, if anything. Any other
      press leaves the state as it is and shows the rejection notice. */
  function Step(s: State, index: Pos): (r: (State, Message))
    requires Valid(s)
    ensures Valid(r.0)
    ensures r.1 != AlreadyFilled <==> Accepts(s, index)
    ensures !Accepts(s, index) ==> r.0 == s
    ensures Accepts(s, index) ==>
      && r.0.board[index] == Filled(MarkFor(s.isCross))
      && (forall j :: 0 <= j < 9 && j != index ==> r.0.board[j] == s.board[j])
      && r.0.isCross == !s.isCross
      && r.0.winner == Evaluate(s.board)
      && r.1 == Announce(Evaluate(s.board))
  {
    if Accepts(s, index) then
      var found := Evaluate(s.board);
      var winner := if found == Pending then s.winner else found;
      (State(s.board[index := Filled(MarkFor(s.isCross))], !s.isCross, winner), Announce(found))
    else
      (s, AlreadyFilled)
  }

  /** The state after a sequence of presses, one atomic step each. */
  function Run(s: State, presses: seq<Pos>): (r: State)
    requires Valid(s)
    ensures Valid(r)
    decreases |presses|
  {
    if presses == [] then s
    else Run(Step(s, presses[0]).0, presses[1..])
  }

  /** The marks written by the accepted presses of a sequence, in order. */
  function Moves(s: State, presses: seq<Pos>): seq<Mark>
    requires Valid(s)
    decreases |presses|
  {
    if presses == [] then []
    else
      var rest := Moves(Step(s, presses[0]).0, presses[1..]);
      if Accepts(s, presses[0]) then [MarkFor(s.isCross)] + rest else rest
  }

  /** The screen component. `cells` is the board array the component holds;
      a press replaces it with an edited copy and a restart with a fresh one. */
  class Screen {
    var cells: array<Cell>
    var isCross: bool
    var gameWinner: Outcome

    ghost predicate Valid()
      reads this
    {
      cells.Length == 9
    }

    /** The abstract state the fields hold. */
    function Current(): State
      reads this, cells
    {
      State(cells[..], isCross, gameWinner)
    }

    constructor ()
      ensures Valid() && fresh(cells)
      ensures Current() == Initial()
    {
      cells := new Cell[9](_ => Empty);
      isCross := false;
      gameWinner := Pending;
    }

    /** The restart button: whatever the prior state, back to Initial(). */
    method ReloadGame()
      modifies this
      ensures Valid() && fresh(cells)
      ensures Current() == Initial()
    {
      isCross := false;
      gameWinner := Pending;
      cells := new Cell[9](_ => Empty);
    }

    /** A press on cell `index`, as the screen handles it. */
    method OnBoxPress(index: Pos) returns (msg: Message)
      requires Valid()
      modifies this
      ensures Valid()
      ensures (Current(), msg) == Step(old(Current()), index)
      ensures cells == old(cells) || fresh(cells)
    {
      if cells[index] == Empty && gameWinner == Pending {
        // the board the win check sees: the one before this press
        var stale := cells[..];
        var next := new Cell[9](i => if 0 <= i < 9 then stale[i] else Empty);
        next[index] := Filled(MarkFor(isCross));
        cells := next;
        isCross := !isCross;
        var found := CheckWinner(stale);
        if found != Pending {
          gameWinner := found;
        }
        msg := Announce(found);
        assert cells[..] == stale[index := Filled(MarkFor(!isCross))];
      } else {
        msg := AlreadyFilled;
      }
    }
  }
}

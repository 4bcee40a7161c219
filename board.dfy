/**
 The board of the tic-tac-toe screen and its win/draw scan.

 The screen keeps nine cells in row-major order (index = row * 3 + col).
 A cell holds the string 'empty', 'X' or 'O'; here that is `Empty` or
 `Filled(X)` / `Filled(O)`. The recorded result is the string '' (no result
 yet), 'X' or 'O' (that mark won) or 'Draw'; here `Pending`, `Won(m)` and
 `Draw`.
 */
module Board {

  datatype Mark = X | O

  datatype Cell = Empty | Filled(mark: Mark)

  datatype Outcome = Pending | Won(winner: Mark) | Draw

  /** A board position, 0..8. */
  type Pos = i: int | 0 <= i < 9

  /** The fixed table of winning triples, scanned in this order:
      three rows, three columns, two diagonals. */
  const Lines: seq<(Pos, Pos, Pos)> :=
    [(0, 1, 2), (3, 4, 5), (6, 7, 8),
     (0, 3, 6), (1, 4, 7), (2, 5, 8),
     (0, 4, 8), (2, 4, 6)]

  /** The table holds the three rows, then the three columns, then the two
      diagonals of the row-major 3 x 3 grid. */
  lemma LinesTable()
    ensures |Lines| == 8
    ensures forall k :: 0 <= k < 3 ==> Lines[k] == (3 * k, 3 * k + 1, 3 * k + 2)
    ensures forall k :: 3 <= k < 6 ==> Lines[k] == (k - 3, k, k + 3)
    ensures Lines[6] == (0, 4, 8) && Lines[7] == (2, 4, 6)
  {
  }

  /** Line `k` is complete: its first cell is not empty and all three are
      equal, that is, all three hold X or all three hold O. */
  predicate LineWon(b: seq<Cell>, k: nat)
    requires |b| == 9 && k < |Lines|
    ensures LineWon(b, k) <==>
      var (p, q, r) := Lines[k];
      (b[p] == b[q] == b[r] == Filled(X)) || (b[p] == b[q] == b[r] == Filled(O))
  {
    var (p, q, r) := Lines[k];
    assert b[p] != Empty ==> b[p] == Filled(b[p].mark) && (b[p].mark == X || b[p].mark == O);
    b[p] != Empty && b[p] == b[q] && b[p] == b[r]
  }

  /** The mark occupying all three cells of a complete line `k`. */
  function LineOwner(b: seq<Cell>, k: nat): Mark
    requires |b| == 9 && k < |Lines| && LineWon(b, k)
  {
    b[Lines[k].0].mark
  }

  /** Line `k` is complete and no earlier line of the table is. */
  predicate FirstWon(b: seq<Cell>, k: nat)
    requires |b| == 9
  {
    k < |Lines| && LineWon(b, k) && forall i :: 0 <= i < k ==> !LineWon(b, i)
  }

  /** No line of the table is complete. */
  predicate NoLineWon(b: seq<Cell>)
    requires |b| == 9
  {
    forall k :: 0 <= k < |Lines| ==> !LineWon(b, k)
  }

  /** The scan of the table from line `k` on: the owner of the first complete
      line, else Draw when no cell is empty, else Pending. */
  function ScanFrom(b: seq<Cell>, k: nat): Outcome
    requires |b| == 9 && k <= |Lines|
    decreases |Lines| - k
  {
    if k == |Lines| then
      if Empty in b then Pending else Draw
    else if LineWon(b, k) then
      Won(LineOwner(b, k))
    else
      ScanFrom(b, k + 1)
  }

  /** What checkWinner decides about board `b`: a win only for the owner of
      a complete line, a draw only on a board with no empty cell, nothing only
      on a board with an empty cell. */
  function Evaluate(b: seq<Cell>): (r: Outcome)
    requires |b| == 9
    ensures r.Won? ==> exists k :: FirstWon(b, k) && LineOwner(b, k) == r.winner
    ensures r == Draw ==> Empty !in b
    ensures r == Pending ==> Empty in b
  {
    ScanFromMeaning(b, 0);
    ScanFrom(b, 0)
  }

  /** The scan from line `k` reports a win exactly when a line from `k` on is
      complete, and then the owner of the first such line; Draw exactly when no
      line from `k` on is complete and no cell is empty; Pending otherwise. */
  lemma {:induction false} ScanFromMeaning(b: seq<Cell>, k: nat)
    requires |b| == 9 && k <= |Lines|
    ensures ScanFrom(b, k).Won? <==> exists j :: k <= j < |Lines| && LineWon(b, j)
    ensures ScanFrom(b, k).Won? ==>
      exists j :: k <= j < |Lines| && LineWon(b, j) && LineOwner(b, j) == ScanFrom(b, k).winner &&
        forall i :: k <= i < j ==> !LineWon(b, i)
    ensures ScanFrom(b, k) == Draw <==>
      (forall j :: k <= j < |Lines| ==> !LineWon(b, j)) && Empty !in b
    ensures ScanFrom(b, k) == Pending <==>
      (forall j :: k <= j < |Lines| ==> !LineWon(b, j)) && Empty in b
    decreases |Lines| - k
  {
    if k == |Lines| {
    } else if LineWon(b, k) {
      assert ScanFrom(b, k) == Won(LineOwner(b, k));
    } else {
      ScanFromMeaning(b, k + 1);
      assert ScanFrom(b, k) == ScanFrom(b, k + 1);
    }
  }

  /** Evaluate reports mark `m` exactly when the first complete line of the
      table, in table order, is held by `m`. Since a complete line starts with
      a non-empty cell, three empty cells never count as a win. */
  lemma {:induction false} EvaluateWonIff(b: seq<Cell>, m: Mark)
    requires |b| == 9
    ensures Evaluate(b) == Won(m) <==> exists k :: FirstWon(b, k) && LineOwner(b, k) == m
  {
    ScanFromMeaning(b, 0);
    if k :| FirstWon(b, k) && LineOwner(b, k) == m {
      ScanSkips(b, k);
    }
  }

  /** A win is reported exactly when some line of the table is complete. */
  lemma {:induction false} WonIff(b: seq<Cell>)
    requires |b| == 9
    ensures Evaluate(b).Won? <==> !NoLineWon(b)
  {
    ScanFromMeaning(b, 0);
  }

  /** Draw is recorded exactly when no line is complete and no cell is empty. */
  lemma {:induction false} DrawIff(b: seq<Cell>)
    requires |b| == 9
    ensures Evaluate(b) == Draw <==> NoLineWon(b) && Empty !in b
  {
    ScanFromMeaning(b, 0);
  }

  /** No result is recorded exactly when no line is complete and some cell is empty. */
  lemma {:induction false} PendingIff(b: seq<Cell>)
    requires |b| == 9
    ensures Evaluate(b) == Pending <==> NoLineWon(b) && Empty in b
  {
    ScanFromMeaning(b, 0);
  }

  /** Lines before `k` that are not complete do not change the scan. */
  lemma {:induction false} ScanSkips(b: seq<Cell>, k: nat)
    requires |b| == 9 && k <= |Lines|
    requires forall i :: 0 <= i < k ==> !LineWon(b, i)
    ensures Evaluate(b) == ScanFrom(b, k)
    decreases k
  {
    if k > 0 {
      ScanSkips(b, k - 1);
    }
  }

  /** The loop of checkWinner: the first complete line in table order decides;
      with none, a board with no empty cell is a Draw; otherwise nothing is
      recorded (Pending). */
  method CheckWinner(b: seq<Cell>) returns (r: Outcome)
    requires |b| == 9
    ensures r == Evaluate(b)
  {
    for k := 0 to |Lines|
      invariant forall i :: 0 <= i < k ==> !LineWon(b, i)
    {
      var (p, q, s) := Lines[k];
      if b[p] != Empty && b[p] == b[q] && b[p] == b[s] {
        ScanSkips(b, k);
        return Won(b[p].mark);
      }
    }
    ScanSkips(b, |Lines|);
    if Empty !in b {
      return Draw;
    }
    return Pending;
  }
}

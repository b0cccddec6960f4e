/**
 * The board and the outcome evaluator (`calculateWinner` in src/App.js).
 * A cell is empty or holds one of the two marks; the JavaScript `null`
 * of an empty square becomes the constructor `Empty`.
 */
module Rules {

  datatype Cell = Empty | X | O

  /** A symbol a player places: a cell value other than `Empty`. */
  type Mark = c: Cell | c != Empty witness X

  /** A square of the 3x3 grid, numbered row by row. */
  type Index = i: nat | i < 9

  type Board = b: seq<Cell> | |b| == 9
    witness [Empty, Empty, Empty, Empty, Empty, Empty, Empty, Empty, Empty]

  const EmptyBoard: Board := [Empty, Empty, Empty, Empty, Empty, Empty, Empty, Empty, Empty]

  /** The eight winning lines, in the order the evaluator scans them:
      the three rows, the three columns, then the two diagonals. */
  const Lines: seq<(Index, Index, Index)> := [
    (0, 1, 2), (3, 4, 5), (6, 7, 8),
    (0, 3, 6), (1, 4, 7), (2, 5, 8),
    (0, 4, 8), (2, 4, 6)
  ]

  /** Line `k` holds three equal non-empty cells. */
  predicate Complete(b: Board, k: nat)
    requires k < |Lines|
  {
    var (p, q, r) := Lines[k];
    b[p] != Empty && b[p] == b[q] && b[p] == b[r]
  }

  /** Square `i` is one of the three squares of line `k`. */
  predicate OnLine(k: nat, i: Index)
    requires k < |Lines|
  {
    Lines[k].0 == i || Lines[k].1 == i || Lines[k].2 == i
  }

  /** Every cell is occupied. */
  predicate Full(b: Board)
  {
    forall i :: 0 <= i < 9 ==> b[i] != Empty
  }

  /** The number of cells of `s` that hold `c`. */
  function Count(s: seq<Cell>, c: Cell): nat
  {
    if s == [] then 0 else (if s[0] == c then 1 else 0) + Count(s[1..], c)
  }

  /**
   * The outcome of scanning the lines from line `k` on: the symbol of the
   * first complete line, or `Empty` when none of them is complete.
   */
  function WinnerFrom(b: Board, k: nat): Cell
    requires k <= |Lines|
    decreases |Lines| - k
  {
    if k == |Lines| then Empty
    else if Complete(b, k) then b[Lines[k].0]
    else WinnerFrom(b, k + 1)
  }

  /**
   * A symbol reported by the scan from line `k` on is that of a complete
   * line; no symbol is reported exactly when none of those lines is complete.
   */
  lemma {:induction false} WinnerFromSound(b: Board, k: nat)
    requires k <= |Lines|
    ensures WinnerFrom(b, k) != Empty ==>
      exists j :: k <= j < |Lines| && Complete(b, j) && b[Lines[j].0] == WinnerFrom(b, k)
    ensures WinnerFrom(b, k) == Empty <==> forall j :: k <= j < |Lines| ==> !Complete(b, j)
    decreases |Lines| - k
  {
    if k < |Lines| {
      WinnerFromSound(b, k + 1);
    }
  }

  /** The winner of a board: `Empty` stands for `null`, "no winner". */
  function Winner(b: Board): Cell
  {
    WinnerFrom(b, 0)
  }

  /** The evaluator's scan: the loop over the lines with its early return. */
  method CalculateWinner(b: Board) returns (w: Cell)
    ensures w == Winner(b)
  {
    for k := 0 to |Lines|
      invariant WinnerFrom(b, 0) == WinnerFrom(b, k)
    {
      var (p, q, r) := Lines[k];
      if b[p] != Empty && b[p] == b[q] && b[p] == b[r] {
        return b[p];
      }
    }
    return Empty;
  }

  /** When line `k` is the first complete line, its symbol is the winner. */
  lemma {:induction false} WinnerIsFirstCompleteLine(b: Board, k: nat)
    requires k < |Lines| && Complete(b, k)
    requires forall j :: 0 <= j < k ==> !Complete(b, j)
    ensures Winner(b) == b[Lines[k].0]
  {
    var i := 0;
    while i < k
      invariant 0 <= i <= k
      invariant WinnerFrom(b, 0) == WinnerFrom(b, i)
    {
      i := i + 1;
    }
  }

  /** The three squares of every line are distinct. */
  lemma LinesHaveThreeSquares()
    ensures forall k :: 0 <= k < |Lines| ==>
      Lines[k].0 != Lines[k].1 && Lines[k].1 != Lines[k].2 && Lines[k].0 != Lines[k].2
  {
    forall k | 0 <= k < |Lines|
      ensures Lines[k].0 != Lines[k].1 && Lines[k].1 != Lines[k].2 && Lines[k].0 != Lines[k].2
    {
      assert k in {0, 1, 2, 3, 4, 5, 6, 7};
    }
  }

  /** A symbol that occupies at most one square cannot be the winner. */
  lemma LoneMarkCannotWin(b: Board, i: Index, s: Mark)
    requires forall j :: 0 <= j < 9 && j != i ==> b[j] != s
    ensures Winner(b) != s
  {
    LinesHaveThreeSquares();
    WinnerFromSound(b, 0);
  }

  /** The empty board has no winner. */
  lemma NoWinnerOnEmptyBoard()
    ensures Winner(EmptyBoard) == Empty
  {
    assert forall j :: 0 <= j < |Lines| ==> !Complete(EmptyBoard, j);
    WinnerFromSound(EmptyBoard, 0);
  }

  /**
   * On a board without a winner, placing `s` in the empty square `i` makes
   * `s` the winner exactly when it completes a line through `i`.
   */
  lemma PlacingWinsIffCompletesLine(b: Board, i: Index, s: Mark)
    requires Winner(b) == Empty && b[i] == Empty
    ensures Winner(b[i := s]) == s <==>
      exists k :: 0 <= k < |Lines| && OnLine(k, i) && Complete(b[i := s], k)
  {
    var b' := b[i := s];
    WinnerFromSound(b, 0);
    WinnerFromSound(b', 0);
    // A line that avoids `i` reads the same on both boards, and none is complete on `b`.
    forall k | 0 <= k < |Lines| && !OnLine(k, i)
      ensures Complete(b', k) == Complete(b, k)
    {
    }
    if exists k :: 0 <= k < |Lines| && OnLine(k, i) && Complete(b', k) {
      var w := Winner(b');
      var j :| 0 <= j < |Lines| && Complete(b', j) && b'[Lines[j].0] == w;
      assert OnLine(j, i);
    }
  }

  /**
   * Once `s` is the winner, writing `s` into an empty square keeps it the
   * winner: the scan still stops at a line whose symbol is `s`.
   */
  lemma {:induction false} PlacingWinnerKeepsWinner(b: Board, i: Index, s: Mark, k: nat)
    requires k <= |Lines| && WinnerFrom(b, k) == s && b[i] == Empty
    ensures WinnerFrom(b[i := s], k) == s
    decreases |Lines| - k
  {
    var b' := b[i := s];
    if !Complete(b', k) {
      assert !Complete(b, k);
      PlacingWinnerKeepsWinner(b, i, s, k + 1);
    } else if !OnLine(k, i) {
      assert Complete(b, k);
    }
  }

  /** The number of cells holding `c` after one cell of `s` is overwritten. */
  lemma {:induction false} CountUpdate(s: seq<Cell>, i: nat, v: Cell, c: Cell)
    requires i < |s|
    ensures Count(s[i := v], c) ==
      Count(s, c) - (if s[i] == c then 1 else 0) + (if v == c then 1 else 0)
  {
    if i == 0 {
      assert s[i := v][1..] == s[1..];
    } else {
      assert s[i := v][1..] == s[1..][i - 1 := v];
      CountUpdate(s[1..], i - 1, v, c);
    }
  }

  /** A value that occurs in no cell is counted zero times. */
  lemma {:induction false} CountAbsent(s: seq<Cell>, c: Cell)
    requires forall i :: 0 <= i < |s| ==> s[i] != c
    ensures Count(s, c) == 0
  {
    if s != [] {
      CountAbsent(s[1..], c);
    }
  }
}

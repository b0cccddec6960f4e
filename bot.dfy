/**
 * The rule-based opponent (`getBotMove` and its helper `findWinningMove`
 * in src/App.js): win if possible, otherwise block, otherwise take the
 * centre, a corner, or the lowest free square.
 */
module Bot {
  import opened Wrappers
  import opened Rules

  /** The corners, in the order the bot tries them. */
  const Corners: seq<Index> := [0, 2, 6, 8]

  /** Placing `s` in the empty square `i` makes the evaluator report `s`. */
  predicate Wins(b: Board, i: Index, s: Mark)
  {
    b[i] == Empty && Winner(b[i := s]) == s
  }

  /** The lowest square from `from` on where `s` would win. */
  function FirstWinningMove(b: Board, s: Mark, from: nat): (r: Option<Index>)
    requires from <= 9
    ensures r.Some? ==>
      from <= r.value && Wins(b, r.value, s) &&
      forall j :: from <= j < r.value ==> !Wins(b, j, s)
    ensures r.None? ==> forall j :: from <= j < 9 ==> !Wins(b, j, s)
    decreases 9 - from
  {
    if from == 9 then None
    else if Wins(b, from, s) then Some(from)
    else FirstWinningMove(b, s, from + 1)
  }

  /** The first empty corner from position `k` of `Corners` on. */
  function FirstEmptyCorner(b: Board, k: nat): (r: Option<Index>)
    requires k <= |Corners|
    ensures r.Some? ==>
      exists p :: k <= p < |Corners| && Corners[p] == r.value && b[Corners[p]] == Empty &&
        forall q :: k <= q < p ==> b[Corners[q]] != Empty
    ensures r.None? ==> forall q :: k <= q < |Corners| ==> b[Corners[q]] != Empty
    decreases |Corners| - k
  {
    if k == |Corners| then None
    else if b[Corners[k]] == Empty then Some(Corners[k])
    else FirstEmptyCorner(b, k + 1)
  }

  /** The lowest empty square from `from` on. */
  function FirstEmpty(b: Board, from: nat): (r: Option<Index>)
    requires from <= 9
    ensures r.Some? ==>
      from <= r.value && b[r.value] == Empty &&
      forall j :: from <= j < r.value ==> b[j] != Empty
    ensures r.None? ==> forall j :: from <= j < 9 ==> b[j] != Empty
    decreases 9 - from
  {
    if from == 9 then None
    else if b[from] == Empty then Some(from)
    else FirstEmpty(b, from + 1)
  }

  /**
   * The square the bot playing `bot` against `human` takes, by the first
   * rule that applies: win, block, centre, corner, any free square.
   * It never picks an occupied square and gives up only on a full board.
   */
  function BotMove(b: Board, bot: Mark, human: Mark): (r: Option<Index>)
    ensures r.Some? ==> b[r.value] == Empty
    ensures r.None? <==> Full(b)
  {
    var win := FirstWinningMove(b, bot, 0);
    if win.Some? then win
    else
      var block := FirstWinningMove(b, human, 0);
      if block.Some? then block
      else if b[4] == Empty then Some(4)
      else
        var corner := FirstEmptyCorner(b, 0);
        if corner.Some? then corner else FirstEmpty(b, 0)
  }

  /** `findWinningMove`: try every empty square on a copy of the board. */
  method FindWinningMove(b: Board, s: Mark) returns (r: Option<Index>)
    ensures r == FirstWinningMove(b, s, 0)
  {
    for i := 0 to 9
      invariant FirstWinningMove(b, s, 0) == FirstWinningMove(b, s, i)
    {
      if b[i] == Empty {
        var copy := b[i := s];
        var w := CalculateWinner(copy);
        if w == s {
          return Some(i);
        }
      }
    }
    return None;
  }

  /** `getBotMove`, with both symbols passed explicitly. */
  method GetBotMove(b: Board, bot: Mark, human: Mark) returns (r: Option<Index>)
    ensures r == BotMove(b, bot, human)
  {
    var win := FindWinningMove(b, bot);
    if win.Some? {
      return win;
    }
    var block := FindWinningMove(b, human);
    if block.Some? {
      return block;
    }
    if b[4] == Empty {
      return Some(4);
    }
    for k := 0 to |Corners|
      invariant FirstEmptyCorner(b, 0) == FirstEmptyCorner(b, k)
    {
      if b[Corners[k]] == Empty {
        return Some(Corners[k]);
      }
    }
    for i := 0 to 9
      invariant FirstEmpty(b, 0) == FirstEmpty(b, i)
    {
      if b[i] == Empty {
        return Some(i);
      }
    }
    return None;
  }

  /** Rule 1: the lowest winning square is taken. */
  lemma BotTakesLowestWin(b: Board, bot: Mark, human: Mark, i: Index)
    requires Wins(b, i, bot)
    requires forall j :: 0 <= j < i ==> !Wins(b, j, bot)
    ensures BotMove(b, bot, human) == Some(i)
  {
    var win := FirstWinningMove(b, bot, 0);
    assert win.Some? by {
      assert Wins(b, i, bot);
    }
  }

  /** Rule 2: with no win available, the lowest square where the opponent would win is blocked. */
  lemma BotBlocksLowestThreat(b: Board, bot: Mark, human: Mark, i: Index)
    requires forall j :: 0 <= j < 9 ==> !Wins(b, j, bot)
    requires Wins(b, i, human)
    requires forall j :: 0 <= j < i ==> !Wins(b, j, human)
    ensures BotMove(b, bot, human) == Some(i)
  {
    var block := FirstWinningMove(b, human, 0);
    assert block.Some? by {
      assert Wins(b, i, human);
    }
  }

  /** No win and no threat anywhere on the board. */
  predicate Quiet(b: Board, bot: Mark, human: Mark)
  {
    forall j :: 0 <= j < 9 ==> !Wins(b, j, bot) && !Wins(b, j, human)
  }

  /** Rule 3: with neither a win nor a block, a free centre is taken. */
  lemma BotTakesCentre(b: Board, bot: Mark, human: Mark)
    requires Quiet(b, bot, human) && b[4] == Empty
    ensures BotMove(b, bot, human) == Some(4)
  {
  }

  /** Rule 4: otherwise the first empty corner in the order 0, 2, 6, 8. */
  lemma BotTakesFirstCorner(b: Board, bot: Mark, human: Mark, p: nat)
    requires Quiet(b, bot, human) && b[4] != Empty
    requires p < |Corners| && b[Corners[p]] == Empty
    requires forall q :: 0 <= q < p ==> b[Corners[q]] != Empty
    ensures BotMove(b, bot, human) == Some(Corners[p])
  {
  }

  /** Rule 5: otherwise the lowest empty square. */
  lemma BotTakesLowestFree(b: Board, bot: Mark, human: Mark, i: Index)
    requires Quiet(b, bot, human) && b[4] != Empty
    requires forall q :: 0 <= q < |Corners| ==> b[Corners[q]] != Empty
    requires b[i] == Empty && forall j :: 0 <= j < i ==> b[j] != Empty
    ensures BotMove(b, bot, human) == Some(i)
  {
  }

  /** On a board `s` has already won, every empty square is a winning move for `s`. */
  lemma EveryFreeSquareWinsForWinner(b: Board, i: Index, s: Mark)
    requires Winner(b) == s && b[i] == Empty
    ensures Wins(b, i, s)
  {
    PlacingWinnerKeepsWinner(b, i, s, 0);
  }

  /**
   * The other symbol does not win on such a board just by completing a
   * line: with X already holding the top row, O completing the middle row
   * at 5 is not a winning move, since the scan reports the top row first.
   */
  lemma CompletingLaterLineIsNoWin()
    ensures !Wins([X, X, X, O, O, Empty, Empty, Empty, Empty], 5, O)
  {
    var b: Board := [X, X, X, O, O, Empty, Empty, Empty, Empty];
    WinnerIsFirstCompleteLine(b[5 := O], 0);
  }

  /** On the empty board the bot opens in the centre. */
  lemma BotOpensInCentre(bot: Mark, human: Mark)
    ensures BotMove(EmptyBoard, bot, human) == Some(4)
  {
    forall j: Index, s: Mark
      ensures !Wins(EmptyBoard, j, s)
    {
      LoneMarkCannotWin(EmptyBoard[j := s], j, s);
    }
    assert Quiet(EmptyBoard, bot, human);
    BotTakesCentre(EmptyBoard, bot, human);
  }

  /** Two of the bot's own marks on the top row: it completes the row. */
  lemma BotCompletesTopRow()
    ensures BotMove([X, X, Empty, Empty, Empty, Empty, Empty, Empty, Empty], X, O) == Some(2)
  {
    var b: Board := [X, X, Empty, Empty, Empty, Empty, Empty, Empty, Empty];
    WinnerIsFirstCompleteLine(b[2 := X], 0);
    BotTakesLowestWin(b, X, O, 2);
  }

  /** Two opposing marks on the top row: the bot blocks it. */
  lemma BotBlocksTopRow()
    ensures BotMove([O, O, Empty, Empty, Empty, Empty, Empty, Empty, Empty], X, O) == Some(2)
  {
    var b: Board := [O, O, Empty, Empty, Empty, Empty, Empty, Empty, Empty];
    forall j: Index
      ensures !Wins(b, j, X)
    {
      LoneMarkCannotWin(b[j := X], j, X);
    }
    WinnerIsFirstCompleteLine(b[2 := O], 0);
    BotBlocksLowestThreat(b, X, O, 2);
  }
}

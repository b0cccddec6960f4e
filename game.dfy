/**
 * The game state held by the `App` component of src/App.js and its click
 * handler: a move by the player to move, or in player-vs-bot mode a move by
 * the human (always X) followed at once by the bot's reply (always O).
 */
module Game {
  import opened Wrappers
  import opened Rules
  import Bot

  /** `'ongoing'`, the winner's symbol, or `'draw'`. */
  datatype Status = Ongoing | Won(winner: Mark) | Draw

  /** `'pvp'` (player vs player) or `'pvb'` (player vs bot). */
  datatype Mode = PvP | PvB

  datatype State = State(board: Board, currentPlayer: Mark, status: Status, mode: Mode)

  /** The state `reset` restores: an empty board, X to move, game on. */
  function Initial(mode: Mode): State
  {
    State(EmptyBoard, X, Ongoing, mode)
  }

  function Other(p: Mark): (q: Mark)
    ensures q != p
  {
    if p == X then O else X
  }

  /** A click the handler ignores: the game is over, the square is taken,
      or it is the bot's turn in player-vs-bot mode. */
  predicate Ignored(g: State, index: Index)
  {
    g.status != Ongoing || g.board[index] != Empty || (g.mode == PvB && g.currentPlayer != X)
  }

  /** The state after the square `index` is clicked. */
  function Click(g: State, index: Index): (g': State)
    ensures g'.mode == g.mode
    ensures forall i :: 0 <= i < 9 && g.board[i] != Empty ==> g'.board[i] == g.board[i]
  {
    if g.status != Ongoing || g.board[index] != Empty then g
    else match g.mode
      case PvP =>
        var next := g.board[index := g.currentPlayer];
        var w := Winner(next);
        if w != Empty then g.(board := next, status := Won(w))
        else if Full(next) then g.(board := next, status := Draw)
        else g.(board := next, currentPlayer := Other(g.currentPlayer))
      case PvB =>
        if g.currentPlayer != X then g
        else
          var afterHuman := g.board[index := X];
          var hw := Winner(afterHuman);
          if hw != Empty then g.(board := afterHuman, status := Won(hw))
          else if Full(afterHuman) then g.(board := afterHuman, status := Draw)
          else match Bot.BotMove(afterHuman, O, X)
            case None =>
              g.(board := afterHuman, status := if Full(afterHuman) then Draw else g.status)
            case Some(k) =>
              var afterBot := afterHuman[k := O];
              var bw := Winner(afterBot);
              if bw != Empty then g.(board := afterBot, status := Won(bw))
              else if Full(afterBot) then g.(board := afterBot, status := Draw)
              else g.(board := afterBot, currentPlayer := X)
  }

  /**
   * The states a game can reach from a reset: X moves first and the marks
   * alternate, the status agrees with the board, and in player-vs-bot mode
   * the human is always the one to move.
   */
  predicate Consistent(g: State)
  {
    var nx, no := Count(g.board, X), Count(g.board, O);
    && (nx == no || nx == no + 1)
    && (g.status == Ongoing ==>
          Winner(g.board) == Empty && !Full(g.board) && (g.currentPlayer == X <==> nx == no))
    && (g.status.Won? ==> Winner(g.board) == g.status.winner)
    && (g.status == Draw ==> Winner(g.board) == Empty && Full(g.board))
    && (g.mode == PvB ==> g.currentPlayer == X)
  }

  /** The status a board settles to once a mark has been placed. */
  function Outcome(b: Board): Status
  {
    var w := Winner(b);
    if w != Empty then Won(w) else if Full(b) then Draw else Ongoing
  }

  /** An ignored click changes nothing. */
  lemma IgnoredClickChangesNothing(g: State, index: Index)
    requires Ignored(g, index)
    ensures Click(g, index) == g
  {
  }

  /**
   * Player vs player: the player to move takes the square and no other
   * square changes; the game is then won, drawn, or the turn passes.
   */
  lemma PvPClick(g: State, index: Index)
    requires g.mode == PvP && !Ignored(g, index)
    ensures Click(g, index).board[index] == g.currentPlayer
    ensures forall i :: 0 <= i < 9 && i != index ==> Click(g, index).board[i] == g.board[i]
    ensures Click(g, index).status == Outcome(Click(g, index).board)
    ensures Click(g, index).currentPlayer ==
      if Click(g, index).status == Ongoing then Other(g.currentPlayer) else g.currentPlayer
  {
  }

  /**
   * Player vs bot, a human move that ends the game: X takes the square and
   * the game is won or drawn without a reply.
   */
  lemma PvBClickEndsGame(g: State, index: Index)
    requires g.mode == PvB && !Ignored(g, index)
    requires Outcome(g.board[index := X]) != Ongoing
    ensures Click(g, index).board == g.board[index := X]
    ensures Click(g, index).status == Outcome(g.board[index := X])
    ensures Click(g, index).currentPlayer == X
  {
  }

  /**
   * Player vs bot, a human move that does not end the game: the bot always
   * has a reply, and exactly one O lands, on the square it chooses.
   */
  lemma {:induction false} PvBClickReplies(g: State, index: Index)
    requires g.mode == PvB && !Ignored(g, index)
    requires Outcome(g.board[index := X]) == Ongoing
    ensures Bot.BotMove(g.board[index := X], O, X).Some?
    ensures var k := Bot.BotMove(g.board[index := X], O, X).value;
      && k != index && g.board[k] == Empty
      && Click(g, index).board == g.board[index := X][k := O]
      && Click(g, index).status == Outcome(Click(g, index).board)
      && Click(g, index).currentPlayer == X
    ensures Count(Click(g, index).board, X) == Count(g.board, X) + 1
    ensures Count(Click(g, index).board, O) == Count(g.board, O) + 1
  {
    var afterHuman := g.board[index := X];
    var k := Bot.BotMove(afterHuman, O, X).value;
    CountUpdate(g.board, index, X, X);
    CountUpdate(g.board, index, X, O);
    CountUpdate(afterHuman, k, O, X);
    CountUpdate(afterHuman, k, O, O);
  }

  /** Every click that is not ignored fills at least one empty square. */
  lemma {:induction false} ClickMakesProgress(g: State, index: Index)
    requires !Ignored(g, index)
    ensures Count(Click(g, index).board, Empty) < Count(g.board, Empty)
  {
    var afterMove := g.board[index := g.currentPlayer];
    CountUpdate(g.board, index, g.currentPlayer, Empty);
    if g.mode == PvB && Outcome(afterMove) == Ongoing {
      var k := Bot.BotMove(afterMove, O, X).value;
      CountUpdate(afterMove, k, O, Empty);
    }
  }

  /** The initial state is consistent. */
  lemma InitialIsConsistent(mode: Mode)
    ensures Consistent(Initial(mode))
  {
    NoWinnerOnEmptyBoard();
    CountAbsent(EmptyBoard, X);
    CountAbsent(EmptyBoard, O);
    assert EmptyBoard[0] == Empty;
  }

  /** Every click keeps a consistent state consistent. */
  lemma {:induction false} ClickPreservesConsistent(g: State, index: Index)
    requires Consistent(g)
    ensures Consistent(Click(g, index))
  {
    if Ignored(g, index) {
      IgnoredClickChangesNothing(g, index);
    } else if g.mode == PvP {
      PvPClickPreservesConsistent(g, index);
    } else if Outcome(g.board[index := X]) != Ongoing {
      PvBClickEndsGame(g, index);
      CountUpdate(g.board, index, X, X);
      CountUpdate(g.board, index, X, O);
    } else {
      PvBClickReplies(g, index);
    }
  }

  /** A legal player-vs-player click keeps the state consistent. */
  lemma {:induction false} PvPClickPreservesConsistent(g: State, index: Index)
    requires Consistent(g) && g.mode == PvP && !Ignored(g, index)
    ensures Consistent(Click(g, index))
  {
    var p := g.currentPlayer;
    assert g.board[index := p] == Click(g, index).board by {
      PvPClick(g, index);
    }
    CountUpdate(g.board, index, p, X);
    CountUpdate(g.board, index, p, O);
  }

  /** The component's state, updated in place by its handlers. */
  class App {
    var board: Board
    var currentPlayer: Mark
    var status: Status
    var mode: Mode

    function Snapshot(): State
      reads this
    {
      State(board, currentPlayer, status, mode)
    }

    /** The state the component starts in: player vs player, reset. */
    constructor ()
      ensures Snapshot() == Initial(PvP)
    {
      board := EmptyBoard;
      currentPlayer := X;
      status := Ongoing;
      mode := PvP;
    }

    /** `reset`: empty board, X to move, game on; the mode is kept. */
    method Reset()
      modifies this
      ensures Snapshot() == Initial(old(mode))
    {
      board := EmptyBoard;
      currentPlayer := X;
      status := Ongoing;
    }

    /** `handleModeChange`: switch mode, then reset. */
    method ChangeMode(newMode: Mode)
      modifies this
      ensures Snapshot() == Initial(newMode)
    {
      mode := newMode;
      Reset();
    }

    /** `handleSquareClick`. */
    method HandleSquareClick(index: Index)
      modifies this
      ensures Snapshot() == Click(old(Snapshot()), index)
    {
      if status != Ongoing {
        return;
      }
      if board[index] != Empty {
        return;
      }

      if mode == PvP {
        var player: Cell := currentPlayer;
        var nextBoard: Board := board[index := player];
        board := nextBoard;
        var winner := CalculateWinner(nextBoard);
        if winner != Empty {
          status := Won(winner);
          return;
        }
        if Full(nextBoard) {
          status := Draw;
          return;
        }
        currentPlayer := Other(currentPlayer);
        return;
      }

      if mode == PvB {
        if currentPlayer != X {
          return;
        }
        var afterHuman: Board := board[index := X];
        var humanWinner := CalculateWinner(afterHuman);
        if humanWinner != Empty {
          board := afterHuman;
          status := Won(humanWinner);
          return;
        }
        if Full(afterHuman) {
          board := afterHuman;
          status := Draw;
          return;
        }

        var botIndex := Bot.GetBotMove(afterHuman, O, X);
        // A board that is not full always leaves the bot a square, so the
        // handler's branch for a missing bot move cannot be taken here.
        assert botIndex.Some?;
        var afterBot := afterHuman[botIndex.value := O];

        var botWinner := CalculateWinner(afterBot);
        board := afterBot;
        if botWinner != Empty {
          status := Won(botWinner);
          return;
        }
        if Full(afterBot) {
          status := Draw;
          return;
        }

        currentPlayer := X;
      }
    }
  }
}

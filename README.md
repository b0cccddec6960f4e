# Tic-tac-toe game logic, modelled in Dafny

This project models the game logic of a React tic-tac-toe app (`src/App.js`).
It covers three parts:

- the outcome evaluator `calculateWinner`, which scans the eight lines (rows, then columns, then diagonals) and reports the symbol of the first complete line, or `null`;
- the rule-based opponent `getBotMove` with its helper `findWinningMove`: win, else block, else centre, else the first free corner (0, 2, 6, 8), else the lowest free square, else `null`;
- the state transition of the click handler `handleSquareClick` over the board, the player to move, the status (`'ongoing'`, a winner, `'draw'`) and the mode (`'pvp'` or `'pvb'`).

Files:

- `rules.dfy` (module `Rules`): cells, boards, lines and the evaluator.
- `bot.dfy` (module `Bot`): the opponent.
- `game.dfy` (module `Game`): the game state and the click handler.
- `wrappers.dfy` (module `Wrappers`): `Option`.

A cell is `Empty | X | O`. The JavaScript `null` of an empty square is `Empty`, and JavaScript truthiness (`!b[i]`, `board[a] &&`) becomes a comparison with `Empty`. A board is a `seq<Cell>` of length 9. `calculateWinner` returns a `Cell`, where `Empty` stands for `null`. `getBotMove` returns an `Option<Index>`.

Each loop of the source is a method proved equal to a recursive specification function, and the lemmas are stated about those functions:

- `CalculateWinner` is proved equal to `Winner`.
- `FindWinningMove` is proved equal to `FirstWinningMove`.
- `GetBotMove` is proved equal to `BotMove`.

The component's state is the class `Game.App`. Its handler `HandleSquareClick` is proved to produce the state that the function `Click` computes from the old state. `Click` and the reset state are proved to keep the game invariant `Consistent`:

- X moves first and the marks alternate.
- The stored status agrees with the board.
- In player-vs-bot mode the human is always the one to move.

## Model

| member | source | states |
|---|---|---|
| `Rules.WinnerFrom` | src/App.js:12-17 | The scan from line `k` on: the symbol of the first complete line, or `Empty` for `null` (its properties are stated by `WinnerFromSound` and `WinnerIsFirstCompleteLine`). |
| `Rules.Winner` | src/App.js:6-18 | `calculateWinner` as a function: the scan from the first line. |
| `Rules.Complete` | src/App.js:13 | The line condition: the line's first cell is non-empty and equal to its other two cells. |
| `Rules.Full` | src/App.js:139 | `every(cell => cell !== null)`: no square is empty; also used at lines 162, 173 and 185. |
| `Rules.PlacingWinnerKeepsWinner` | src/App.js:12-17 | Writing the current winner's symbol into an empty square leaves it the winner. |
| `Rules.WinnerFromSound` | src/App.js:7-17 | A symbol reported by the scan from line `k` on is the symbol of a complete line. No symbol is reported exactly when none of those lines is complete. |
| `Rules.CalculateWinner` | src/App.js:6-18 | The loop over the lines with its early return computes `Winner`: the first complete line's symbol, or no winner. |
| `Rules.WinnerIsFirstCompleteLine` | src/App.js:7-15 | If several lines are complete, the winner is the symbol of the first one in the order rows, columns, diagonals. |
| `Rules.LinesHaveThreeSquares` | src/App.js:7-11 | Each of the eight lines covers three distinct squares. |
| `Rules.LoneMarkCannotWin` | src/App.js:12-17 | A symbol that occupies at most one square is never reported as the winner. |
| `Rules.NoWinnerOnEmptyBoard` | src/App.js:12-17 | The evaluator reports no winner on an empty board. |
| `Rules.PlacingWinsIffCompletesLine` | src/App.js:26-29 | On a board with no winner, writing `s` into an empty square makes `s` the winner exactly when it completes a line through that square. |
| `Bot.Wins` | src/App.js:26-29 | The test inside `findWinningMove`: the square is empty, and on a copy with the symbol written there the evaluator reports that symbol. |
| `Bot.FirstWinningMove` | src/App.js:24-33 | A result is an empty square where the symbol would win, and no lower square would win. No result means no empty square wins. |
| `Bot.FindWinningMove` | src/App.js:24-33 | The loop over copies of the board returns `FirstWinningMove`. |
| `Bot.FirstEmptyCorner` | src/App.js:47-48 | A result is the first empty corner in the order 0, 2, 6, 8. No result means all four corners are taken. |
| `Bot.FirstEmpty` | src/App.js:51 | A result is the lowest empty square. No result means every square is taken. |
| `Bot.BotMove` | src/App.js:22-54 | A chosen square is always empty. There is no move exactly when the board is full. |
| `Bot.GetBotMove` | src/App.js:22-54 | The method with its loops returns `BotMove`. |
| `Bot.BotTakesLowestWin` | src/App.js:35-37 | If the bot can win, it takes the lowest winning square. |
| `Bot.BotBlocksLowestThreat` | src/App.js:39-41 | If the bot cannot win but the opponent could, it blocks the lowest such square. |
| `Bot.BotTakesCentre` | src/App.js:43-44 | With no win and no block, the bot takes a free centre (4). |
| `Bot.BotTakesFirstCorner` | src/App.js:46-48 | Failing that, it takes the first empty corner in the order 0, 2, 6, 8. |
| `Bot.BotTakesLowestFree` | src/App.js:50-51 | Failing that, it takes the lowest empty square. |
| `Bot.EveryFreeSquareWinsForWinner` | src/App.js:24-33 | On a board `s` has already won, every empty square is a winning move for `s`. |
| `Bot.CompletingLaterLineIsNoWin` | src/App.js:12-14 | With X holding the top row, O completing the middle row is not a winning move for O, because the top row is scanned first. |
| `Bot.BotOpensInCentre` | src/App.js:43-44 | On an empty board the bot plays 4. |
| `Bot.BotCompletesTopRow` | src/App.js:35-37 | With `X, X` in squares 0 and 1, the bot playing X completes the row at 2. |
| `Bot.BotBlocksTopRow` | src/App.js:39-41 | With `O, O` in squares 0 and 1, the bot playing X against O blocks at 2. |
| `Game.Initial` | src/App.js:114-123 | The state set at start-up and by `reset`: an empty board, X to move, game ongoing, with the given mode. |
| `Game.Other` | src/App.js:143 | The turn updater `prev => (prev === 'X' ? 'O' : 'X')`: the result is always the other symbol. |
| `Game.Ignored` | src/App.js:126-150 | The early returns at lines 126, 127 and 150: the game is over, the square is taken, or in player-vs-bot mode it is not X's turn. |
| `Game.Outcome` | src/App.js:134-142 | The chain winner, else `'draw'` on a full board, else still ongoing; it recurs at lines 156-165 and 179-188. |
| `Game.Click` | src/App.js:125-193 | The transition keeps the mode and never erases or changes an occupied square. |
| `Game.IgnoredClickChangesNothing` | src/App.js:126-150 | The state is unchanged if the game is over, if the square is taken, or if it is the bot's turn in player-vs-bot mode. |
| `Game.PvPClick` | src/App.js:130-144 | In player-vs-player mode a legal click writes the current player into the square and changes no other square. The status becomes the winner, else draw on a full board, else ongoing. The turn passes only while the game goes on. |
| `Game.PvBClickEndsGame` | src/App.js:152-166 | In player-vs-bot mode, if X's move wins or fills the board, the game ends with that board and there is no bot reply. |
| `Game.PvBClickReplies` | src/App.js:168-191 | Otherwise the bot always has a move, to an empty square other than the one clicked. Exactly one X and exactly one O are added. The status follows the board after the reply, and X is to move. |
| `Game.ClickMakesProgress` | src/App.js:125-193 | Every click that is not ignored fills at least one empty square. |
| `Game.InitialIsConsistent` | src/App.js:114-123 | The initial and reset states satisfy the game invariant. |
| `Game.ClickPreservesConsistent` | src/App.js:125-193 | Every click keeps the game invariant. The invariant covers alternating marks with X first, a status that matches the board, and the human always to move in player-vs-bot mode. |
| `Game.App.constructor` | src/App.js:114-117 | The component starts with an empty board, X to move, game ongoing, player-vs-player mode. |
| `Game.App.Reset` | src/App.js:119-123 | Reset empties the board, gives the move to X and sets the status to ongoing. The mode is kept. |
| `Game.App.ChangeMode` | src/App.js:196-199 | Changing the mode sets the new mode and then resets. |
| `Game.App.HandleSquareClick` | src/App.js:125-193 | The handler updates the fields to exactly the state `Click` gives for the old state. By `ClickPreservesConsistent`, it therefore keeps the game invariant. |

## Left out

- The React components `ModeSelector`, `StatusDisplay`, `Square` and `Board`, and the JSX returned by `App` (src/App.js:56-111, 201-214): these are presentation only.
- The CSS import, and the default arguments `'O'` and `'X'` of `getBotMove`: both symbols are passed explicitly.
- React's state hooks: each setter is modelled as an immediate field update. The handler reads only the state from before the click, and it calls each setter at most once per path, so batching does not change the outcome.
- Boards of the wrong length or with foreign values: a board has exactly 9 cells of type `Cell`. `handleSquareClick` is only called with an index from 0 to 8, because the only callers are the nine squares.
- Game.App.HandleSquareClick: the source has a branch for `getBotMove` returning `null` after a human move that neither wins nor fills the board (src/App.js:170-175). That branch can never be taken, because `BotMove` returns no move only on a full board. `Click` models the branch as written. The method replaces it with a proved assertion that a bot move exists.
- How a winning move is detected: a winning move is one after which `calculateWinner` reports the mover, as in the source, not one that completes a line. The two agree whenever the board has no winner yet (`Rules.PlacingWinsIffCompletesLine`). On a board that already has a winner, every empty square counts as a winning move for the symbol that has already won (`Bot.EveryFreeSquareWinsForWinner`). For the other symbol, only a square that completes a line scanned before the existing winner's line counts (`Bot.CompletingLaterLineIsNoWin`). The handler never asks the bot for a move on such a board, because it stops as soon as a winner exists (src/App.js:126, 156-166).
- The status is a stored field of the state, as in the component, and is not recomputed from the board. `Consistent` states how the stored status agrees with the board in every state a game can reach.

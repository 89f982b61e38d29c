# Tic-tac-toe engine

This is a model of the game engine in `index.js`. The engine has three parts:

- `Player`: an immutable name and mark.
- `Gameboard`: a row-major array of nine cells that only `placeMark` can write.
- `GameController`: holds the player list, the current player's index and the game-over flag. It runs `startGame` and `playTurn`. It checks a win before a draw, and passes the turn only when a move ends neither way.

The two emoji marks are the constructors `MarkA` and `MarkB` of `Board.Cell`. The empty string is `Empty`.

There are two layers:

- **Pure rules.** Module `Game` describes each controller operation as a function on an immutable `State`: `Start`, `Play` and `Run`, the last of which plays a sequence of moves. It also proves what holds in every game. `Board.Place` and module `Rules` do the same for the board and for win/draw evaluation.
- **Objects.** `Board.Gameboard` is a class over an `array<Cell>`. `Controller.GameController` is a class that owns a `Gameboard`. Each of their methods updates fields in place, and its postcondition ties the new state to the pure function for the same operation. The controller's `Valid()` says the state it holds can be reached by `startGame` followed by `playTurn` calls. So every rule of `Game.Invariant` holds for it too.

The controller's `updateMessage` calls to the display are returned as a `Game.Event`:

- `Turn(player)` is the turn announcement;
- `Victory(player)` is the congratulation;
- `Draw` is the draw message.

Nothing stands for the `renderBoard` calls; the board they would draw is the board in the returned state.

Files:

- `wrappers.dfy`: `Option`.
- `board.dfy`: cells, `Place`, `Full` and the `Gameboard` class.
- `rules.dfy`: the winning lines, `Wins`, `IsDraw`, and a geometric reference definition proved equal to the table.
- `game.dfy`: states, `Start`, `Play`, `Run`, the invariant and the lemmas about whole games.
- `scenarios.dfy`: complete concrete games.
- `controller.dfy`: the `GameController` class.

## Model

| member | source | states |
|---|---|---|
| Board.Full | index.js:28 | true exactly when no cell of the board is empty |
| Board.Place | index.js:12-22 | accepted exactly when the index is on the board and the cell is empty; on success only cell `i` changes and it gets the mark; on refusal the board is unchanged; a marked cell is never overwritten |
| Board.Gameboard.constructor | index.js:8 | the board starts as nine empty cells |
| Board.Gameboard.GetBoard | index.js:10 | returns the nine cells as a value, which the caller cannot write through |
| Board.Gameboard.PlaceMark | index.js:12-22 | the result and the new cells are those of `Place` on the old cells, so only an empty in-range cell is written |
| Board.Gameboard.ResetBoard | index.js:24-26 | the board becomes a fresh array of nine empty cells, so it is idempotent |
| Board.Gameboard.IsFull | index.js:28 | true exactly when every cell of the array is marked |
| Rules.AllMarked | index.js:73 | `every`: true exactly when every index of the line is on the board and holds the mark |
| Rules.SomeLineMarked | index.js:72-74 | `some`: true exactly when some line of the list is entirely the mark |
| Rules.Wins | index.js:70-75 | `checkWinCondition`: on a board of nine cells, some entry of the line table is entirely the mark exactly when some row, column or diagonal of the 3x3 grid is |
| Rules.TableIsThreeInARow | index.js:38-47 | every complete entry of the winning-line table is a row, a column or a diagonal of the 3x3 grid |
| Rules.ThreeInARowIsInTable | index.js:38-47 | every complete row, column and diagonal is in the table |
| Rules.DrawIsFullWithoutLine | index.js:77-83 | `checkDrawCondition` (`Rules.IsDraw`): on a board of nine cells, every cell is marked and neither player's mark has a row, column or diagonal |
| Rules.PlacingCompletesOnlyOwnLines | index.js:70-75 | writing one mark cannot complete a line of a different mark |
| Rules.NoWinOnEmptyBoard | index.js:25 | no player has a line on a freshly reset board |
| Game.CurrentPlayer | index.js:64 | `getCurrentPlayer()` is one of the two players; which mark it holds follows from the invariant and is stated by `Controller.GameController.GetCurrentPlayer` |
| Game.NameOr | index.js:51-52 | a present non-empty name is kept; an absent or empty name becomes the fallback |
| Game.Start | index.js:49-62 | two players, with the given or default names; player 0 holds MarkA and player 1 MarkB; index 0; not over; an empty board; the turn of player 0 is announced |
| Game.StartSatisfiesInvariant | index.js:49-62 | a new game satisfies the game invariant |
| Game.Play | index.js:85-114 | accepted exactly when the game is running and the cell is on the board and empty; a refusal changes nothing and announces nothing; otherwise only the mover's mark is written; a line means over and a victory for the mover, even on a full board; a draw is checked after that; otherwise the turn passes to the other player; the index changes exactly on an accepted, non-terminal move |
| Game.Run | index.js:85-114 | playing a sequence of moves keeps the two players and a valid index |
| Game.RunConcat | index.js:85-114 | playing `a` then `b` is playing `a + b` |
| Game.PlayKeepsTurnBalance | index.js:95-113 | an accepted move adds one mark of the mover; it passes the turn unless it ends the game, so the players keep alternating with player 0 first |
| Game.PlayPreservesInvariant | index.js:85-114 | one move keeps the invariant: marks A/B are held by players 0/1; never two winners; a running game has no line and a free cell; a finished game was won by the current player or is a draw; players alternate, player 0 first |
| Game.RunPreservesInvariant | index.js:85-114 | any sequence of moves keeps the invariant |
| Game.ReachableSatisfiesInvariant | index.js:49-114 | every state reached by `startGame` and `playTurn` calls satisfies the invariant |
| Game.PlayStaysReachable | index.js:85-114 | one more move from a reachable state gives a reachable state |
| Game.DrawAgreesWithFull | index.js:77-83 | in a running game, once the mover has no line after a move, the draw test holds exactly when the board is full: the other mark cannot have a line |
| Game.NeverTwoWinners | index.js:77-83 | in no game do both marks complete a line, so the draw check never meets two winners |
| Game.MarksPersist | index.js:12-22 | a marked cell keeps its mark for the rest of the game |
| Game.FinishedGameIsFrozen | index.js:86-91 | once the game is over, no sequence of moves changes anything |
| Game.AcceptedMoveFillsOneCell | index.js:12-22 | an accepted move turns exactly one empty cell into a mark |
| Game.AcceptedMovesBounded | index.js:85-114 | when both players hold a real mark, the number of accepted moves (`Game.AcceptedMoves`) is at most the number of empty cells |
| Game.GameAcceptsAtMostNineMoves | index.js:49-114 | a game accepts at most nine moves |
| Scenarios.QuietMove | index.js:109-113 | a move that makes no line on a board that still has a free cell passes the turn |
| Scenarios.WinningMove | index.js:95-101 | a move that completes a row, column or diagonal ends the game with a victory for the mover |
| Scenarios.DrawingMove | index.js:103-107 | a move that fills the board without a line for either mark ends the game in a draw |
| Scenarios.StartWithoutNames | index.js:51-52 | starting with absent or empty names, including `start("", "")`, gives "Player 1" and "Player 2" |
| Scenarios.TopRowWin | index.js:85-114 | moves 0, 4, 1, 3, 2 give "Player 1" the top row and the board [A, A, A, B, B, _, _, _, _] |
| Scenarios.FullBoardDraw | index.js:103-107 | moves 0, 1, 2, 4, 3, 5, 7, 6, 8 fill the board with no line: a draw |
| Scenarios.FullBoardDiagonalWin | index.js:95-101 | moves 0, 1, 2, 3, 4, 5, 7, 6, 8 fill the board and complete the diagonal 0, 4, 8: a victory, not a draw |
| Scenarios.OccupiedCellRefused | index.js:86-91 | playing on an occupied cell is refused, changes nothing and keeps the turn |
| Controller.GameController.constructor | index.js:34-36 | no players, not over, an empty board |
| Controller.GameController.GetCurrentPlayer | index.js:64 | the current player is one of the two players; player 0 moves with MarkA, player 1 with MarkB |
| Controller.GameController.IsGameOver | index.js:116 | once started, the game is over exactly when a mark has a row, column or diagonal, or the board is full |
| Controller.GameController.CheckWinCondition | index.js:70-75 | true exactly when some row, column or diagonal of the current board is entirely the mark |
| Controller.GameController.CheckDrawCondition | index.js:77-83 | true exactly when every cell is marked and neither player's mark has a row, column or diagonal |
| Controller.GameController.SwitchPlayer | index.js:66-68 | the index becomes (index + 1) mod the number of players; nothing else changes |
| Controller.GameController.StartGame | index.js:49-62 | the new fields and board are those of `Game.Start`, and its turn announcement is returned; the board array is fresh, so the caller may go on to `playTurn`; the controller stays in a reachable state |
| Controller.GameController.PlayTurn | index.js:85-114 | the result, the event and the new fields and board are those of `Game.Play` on the old state; the controller stays in a reachable state |
| Controller.StartPlayRestart | index.js:49-114 | a caller can start a game, play cell 0, have a second move on cell 0 refused, restart and play cell 0 again |

## Left out

- DisplayController is not part of this model. The board rendering, the message area, the buttons, reading the name inputs with `trim`, and `parseInt` of a cell's data attribute are all left out. The controller's `updateMessage` calls become the returned `Event`s; its `renderBoard` calls have no counterpart beyond the board in the returned state.
- The emoji marks and the message strings are not modelled as text. The marks are the constructors `MarkA` and `MarkB`, and the messages are the constructors of `Event`.
- JavaScript's `name || "Player 1"` also replaces `undefined` and `null`. The model's `Option` covers both with `None`. A name made only of spaces is truthy and is kept, as in the code; stripping spaces happens in the display code.
- `placeMark` with a non-integer or non-numeric index (`NaN`, `1.5`, a string) is not modelled: indices are `int`. For integers the range test matches the code.
- Calling `getCurrentPlayer` before `startGame` returns `undefined`, since `playersList` is empty. Calling `playTurn` before `startGame` then throws a TypeError when it calls `.getMark()` on that `undefined`. Both are excluded by the precondition `HasStarted()` on those members, and by `Started` in `Game`.
- Before `startGame`, `currentPlayerIdx` and `gameIsOver` are `undefined`. The model starts them at 0 and `false`. `isGameOver()` before a start therefore reads as `false` rather than `undefined`, which is equally falsy.
- Game.Play: the turn passes by `(current + 1) % |players|`, which is `1 - current` for the two players `startGame` creates. The model does not consider player lists of other lengths, which the code never builds.

## Worked games

Three games worked out on the code:

- Moves 0, 4, 1, 3, 2 leave [A, A, A, B, B, _, _, _, _]: MarkA takes cells 0, 1 and 2 and wins on the top row (`Scenarios.TopRowWin`).
- Moves 0, 1, 2, 3, 4, 5, 7, 6, 8 fill the board and win on the diagonal 0, 4, 8, so they are a victory, not a draw (`Scenarios.FullBoardDiagonalWin`).
- Moves 0, 1, 2, 4, 3, 5, 7, 6, 8 fill the board with no line for either mark: a draw (`Scenarios.FullBoardDraw`).

The draw test asks that the board is full and that neither player's mark has a line. In a running game, after a move on which the mover has no line, this is the same as asking that the board is full (`Game.DrawAgreesWithFull`).

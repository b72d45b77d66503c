# Tic-tac-toe game engine, modelled in Dafny

This project models the engine of a browser tic-tac-toe game (`script.js`): the nine-square
board and the session state (`gameState`, `currentPlayer`, `gameActive`, `scores`), the table of
eight winning lines and the first-line-wins scan, move application with win/draw bookkeeping and
turn passing, the click guard, the round and full resets, and the computer opponent: a
depth-scored exhaustive minimax, the lowest-index best-move search, and the easy → medium → hard
difficulty cascade.

Files:

- `wrappers.dfy` — `Option`, for the `null`/`undefined` results.
- `rules.dfy` — players, squares, the board, `WinningConditions`, the winner scan as a
  specification (`Winner`) and as the loop of `checkWinnerForMinimax`, and the empty-square
  list `emptyCells`.
- `search.dfy` — the computer's mark `AI` (fixed to O, as `aiPlayer` is), the minimax score
  `Value` and the in-place search `Minimax`, which places a mark on the shared array, recurses
  and clears the square again, proved to return `Value` of its input and to leave the array
  exactly as it found it. The loop of `findBestMove` is specified as `BestMove`.
- `selector.dfy` — the difficulty cascade of `getAIMove` as `AIChoice`, with the random draws
  as inputs.
- `controller.dfy` — the session as a value (`Session`, with `AfterMove` for `makeMove` and
  `Click` for `handleCellClick`), lemmas about those transitions, and the class `Game`. The
  class holds the same state in fields and a nine-element array, and each of its methods is
  proved to follow the value-level transition.

The code returns no error values. It does not check ranges, and it has no notion of a move out
of turn. Its only check is the guard at `script.js:85`, which silently ignores a click on a filled square or after
the round has ended. `Click` models that guard and returns the session unchanged in those cases.

Termination of the search: each recursive call is made on a board with one fewer empty square
(`Search.PlaceShrinks`). `Value`, `Scan` and `Minimax` all decrease on the set of empty squares.

## Model

| member | source | states |
|---|---|---|
| `Rules.EmptyIndices` | script.js:185-188 | `emptyCells` holds exactly the empty squares, and it is empty iff the board is full |
| `Rules.EmptyIndicesFrom` | script.js:185-188 | the squares from `i` on that are empty, with no others, in strictly ascending order |
| `Rules.UniformIsOwned` | script.js:270 | the scan's test on a line (first square non-empty, the other two equal to it) holds iff X or O holds all three squares |
| `Rules.WinnerFromIsFirstUniform` | script.js:268-274 | the scan from table position `k` reports none iff no later line is uniform, and reports `p` iff some later line is owned by `p` and no line between `k` and it is uniform |
| `Rules.WinnerIsFirstOwnedLine` | script.js:267-275 | the winner is `p` iff some line of the table is all `p` and every earlier line fails the test; the result is null iff no line is uniformly marked |
| `Rules.WinnerOwnsALine` | script.js:270-271 | a reported winner holds all three squares of some winning line |
| `Rules.CheckWinnerForMinimax` | script.js:267-275 | the loop over the line table returns exactly the first-line winner `Winner` of the array's contents |
| `Search.PlaceShrinks` | script.js:245-247 | filling an empty square removes exactly that square from the empty set, so each recursive call has one fewer empty square |
| `Search.Minimax` | script.js:234-264 | the in-place search returns the depth-scored minimax value of the board it was given and leaves every square as it found it |
| `Search.MoveScoreBounds` | script.js:219-220 | every score `findBestMove` compares (its mark on an empty square, then the search at depth 0) lies in [-10, 10] |
| `Search.ValueBounds` | script.js:237-263 | when the depth plus the number of empty squares is at most 10 (every call the game makes), the score lies in `[depth - 10, 10 - depth]` |
| `Search.ScanBounds` | script.js:241-263 | the running maximum or minimum over the children stays in `[depth - 10, 10 - depth]` |
| `Search.ScanIsBest` | script.js:241-263 | the loop's result is the starting best or the score of some empty square from `i` on, and is at least as good for the mover as every such square and as the starting best |
| `Search.ValueIsBestChild` | script.js:241-263 | on a live board the score equals one child's score and is the maximum over all children on the computer's ply and the minimum on the opponent's |
| `Search.ScanBestIsLowestArgmax` | script.js:217-228 | the running `bestMove`/`bestScore` of the loop keeps "lowest empty square with the maximum score so far" up to the end |
| `Search.BestMoveIsLowestArgmax` | script.js:213-231 | `findBestMove` returns nothing iff the board is full; otherwise an empty square whose score is the maximum over all empty squares and is strictly greater than that of every lower empty square |
| `Selector.RandomPick` | script.js:196 | `emptyCells[Math.floor(r * emptyCells.length)]` for `r` in [0, 1) is an element of `emptyCells` |
| `Selector.AIChoiceIsLegal` | script.js:184-210 | `getAIMove` returns null iff no square is empty, otherwise an empty square; on hard (or an unrecognised setting) it returns exactly `findBestMove`'s square |
| `Selector.CascadeFallsThrough` | script.js:192-209 | easy that misses its 0.6 draw behaves as medium, and medium that misses its 0.3 draw behaves as hard |
| `Controller.MakeMoveEffects` | script.js:103-119 | `makeMove(i, p)` puts `p` on square `i` and changes no other square. A win ends the round and adds one to exactly the winner's counter. A full board without a line ends the round with the counters unchanged. Otherwise the turn passes to the other player |
| `Controller.AfterMoveKeepsSquare` | script.js:104 | a move leaves every other square as it was |
| `Controller.AfterMoveKeepsConsistent` | script.js:108-118 | a move made in a live round leaves the round live exactly when there is no line and a free square |
| `Controller.AfterMoveCreditsAtMostOne` | script.js:137-149 | a move credits at most one round, and none if the round is still live afterwards |
| `Controller.IgnoredClickChangesNothing` | script.js:85-87 | a click on a filled square or after the round has ended leaves board, turn, round state and scores unchanged |
| `Controller.ClickKeepsConsistent` | script.js:81-100 | every click, with or without the computer's reply, keeps "live iff no line and a free square" |
| `Controller.ClickKeepsPlayersMark` | script.js:89-97 | an accepted click leaves the clicking player's mark on the square; the computer's reply goes elsewhere |
| `Controller.ClickCreditsAtMostOne` | script.js:89-97 | one click credits at most one round in total |
| `Controller.ClickReturnsTurnToPerson` | script.js:89-97 | against the computer, X's accepted click in a live round comes back to X whenever the round is still live, because the computer has replied in between |
| `Controller.ClickKeepsFilled` | script.js:85-97 | a square already holding a mark keeps it through a click, the computer's reply included |
| `Controller.MoveCompletesOnlyMoversLines` | script.js:103-110 | a move onto an empty square of a board with no winner completes lines only for the player who moved |
| `Controller.AfterMoveKeepsUnambiguous` | script.js:103-119 | a move accepted in a live round leaves lines for at most one player |
| `Controller.ClickKeepsUnambiguous` | script.js:81-100 | clicks, the computer's reply included, preserve "live iff no line and a free square" together with "at most one player has a line" |
| `Controller.NewRoundIsConsistent` | script.js:278-281 | the session every round starts with (empty board, X to move, live) satisfies both invariants, the base case for `ClickKeepsUnambiguous` |
| `Controller.WinnerIsOnlyLineOwner` | script.js:108-111 | in a consistent, unambiguous session the reported winner has a line and the other player has none |
| `Controller.Game.constructor` | script.js:17-28 | the session starts with an empty board, X to move, the round live, two-player mode, medium difficulty and both scores 0; that session is consistent and unambiguous |
| `Controller.Game.SetMode` | script.js:53-66 | the mode buttons set the mode and start a new round, keeping the scores; the session is consistent and unambiguous |
| `Controller.Game.SetDifficulty` | script.js:70-77 | the difficulty buttons set the difficulty |
| `Controller.Game.HandleCellClick` | script.js:81-100 | the session after a click is `Click` of the session before it: the guard, the move, and the computer's reply |
| `Controller.Game.MakeMove` | script.js:103-119 | the session after the move is `AfterMove` of the session before it |
| `Controller.Game.CheckWinner` | script.js:122-134 | returns the first-line winner of the session's board |
| `Controller.Game.HandleWin` | script.js:137-149 | ends the round and adds one to the winner's counter |
| `Controller.Game.HandleDraw` | script.js:152-155 | ends the round |
| `Controller.Game.GetAIMove` | script.js:184-210 | returns the cascade's choice `AIChoice` for the board, the difficulty and the draws, and leaves the board unchanged |
| `Controller.Game.FindBestMove` | script.js:213-231 | returns `BestMove` of the board after trying and clearing every empty square, and leaves the board unchanged |
| `Controller.Game.ResetGame` | script.js:278-290 | a fresh empty board, X to move, the round live, the scores kept; the session is consistent and unambiguous |
| `Controller.Game.RestartGame` | script.js:303-307 | both scores zero, then a new round as `ResetGame`, consistent and unambiguous |

## Left out

- Everything that touches the page: square text and CSS classes, winning-line highlighting in
  `checkWinner`, the status line, `updatePlayerDisplay`, `updateStatus`, `updateScoreboard`.
  These are presentation only. `checkWinner` is modelled by its return value.
- Event wiring (`init`, `initGameModes`, `initDifficulty`). The mode and difficulty buttons are
  the setters `Game.SetMode` and `Game.SetDifficulty`. The `parseInt` of `data-index` is not
  modelled: the clicked square arrives as an index 0-8, which is what every square's
  `data-index` holds.
- The `setTimeout` delays. The computer's reply is applied at once, inside `HandleCellClick`.
  In the page, another click or a reset during the delay is also accepted. For example, a
  click made while the computer is still to move is placed with O's mark. That interleaving is
  not modelled.
- `Math.random`. Each of its draws is an input (`Draws`): a real number in [0, 1). The
  comparisons with 0.6 and 0.3 and `Math.floor` are on exact reals, not on IEEE doubles. Only
  that the random choice is an empty square is proved.
- The `-Infinity`/`Infinity` starting values in `minimax` and `findBestMove`. They are modelled
  as "no best yet" (`None`), which the first child's score replaces, exactly as `Math.max`,
  `Math.min` and `score > -Infinity` do.
- The branch of `resetGame` (script.js:292-299) that lets the computer open when it plays X. The
  computer's mark is the constant O, so the branch never runs.
- Indices outside 0-8. Such a click is already ignored by the guard at `script.js:85`, because
  `gameState[index]` is `undefined`, which is not `''`. Called directly, `makeMove` would throw
  a TypeError at `cells[index].textContent` (`script.js:105`). Every caller passes a square
  0-8, and the model's index type is 0-8.
- Whole-game claims that need the full search tree: that hard against hard always draws, and
  that the best opening move is square 0.

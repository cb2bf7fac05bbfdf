# Bingo game engine

A Dafny model of the session engine of a multiplayer bingo server: the
`GameLogic` registry of games (`gamelogic.ts`) and the shapes it works on
(`types.ts`). A game is created inactive and empty. Players join while it is
inactive; each gets a freshly dealt board, and its stake goes into the pot.
Starting the game begins the draw. Each tick draws one number of the game
type's range that has not been drawn yet, then checks the players in
insertion order. The first player whose board completes one of the game
type's patterns, tried in configuration order, becomes the winner. That
player is paid `floor(pot * 0.8 * 0.97)` and the draw stops. Resetting stops
the draw, clears it and deals every player a new board. Players can be
removed at any time.

The model has four modules:

- `Types` (`types.dfy`): the six game types, the configuration table, boards
  and the player record.
- `Generator` (`generator.dfy`): `generateBoardNumbers`. A board is a
  sequence of optional numbers, because the 90-ball board is a sparse array
  with holes.
- `WinDetector` (`windetector.dfy`): `checkPattern` and `checkWin` as pure
  functions.
- `Engine` (`engine.dfy`):
  - a `Game` class whose fields the operations update in place;
  - the `GameLogic` class holding the registry `map<string, Game>`;
  - the pure functions and lemmas that specify them.

The state of one game is also a value, `GameState`. Each method states its new
state as a function of the old one (`Enrolled`, `Settle`, `Drawn`, `Cleared`,
`Crowned`). The invariant `Consistent` holds between operations, and a lemma
per operation shows that the operation keeps it. `Consistent` covers these
facts:

- the order lists each stored player once;
- every player is stored under its own id and holds a board of its game's
  shape;
- the draw holds distinct numbers of the range, and the current number is the
  last one drawn;
- a drawing game is active, and an inactive game has no draw and no winner;
- a game with a winner no longer draws, and its pattern is one of the
  configured ones;
- a drawing game that can be won always has a number left to draw.

The player map is a JavaScript `Map`, which iterates in insertion order. The
model stores it as a `map` plus an `order` sequence of ids. Re-joining with an
id that is already present keeps that id's place.

Behaviour of the code as written that the model proves:

- **90-ball** (`NinetyBallReportsOnlyOneLine`): "one-line" is tried first, so
  checkWin only ever reports "one-line". A board with two complete lines, or a
  full house, is reported as "one-line".
- **Blank 90-ball row** (`DealRowZeroBoard`, `BlankRowIsALine`,
  `DealtBoardWinsAtOnce`, `BlankRowCrownedAtFirstDraw`): with one of its
  legal choices per column, the 90-ball generator deals a board whose second
  and third rows hold no numbers. A row without numbers is a complete line,
  whatever has been called. When the first player in insertion order holds
  such a board, that player is therefore crowned with "one-line" at the first
  draw, whatever number is drawn.
- **75-ball and 50-ball** (`FiveByFiveNeverReportsFullHouse`): "row" is tried
  before "full-house", so "full-house" is never reported.
- **"pattern" game type** (`PatternTypeNeverWins`): none of its pattern names
  is handled by `checkPattern`, so it never has a winner.

## Model

| member | source | states |
|---|---|---|
| Types.TypeIdInjective | types.ts:31-37 | the six tags of the union are distinct: two game types with the same tag are the same type |
| Types.Config | types.ts:60-109 | the configuration table: each entry's id is its type's tag; a board has at least one cell and no more cells than the range has numbers; each type has a non-empty list of named patterns |
| Generator.DrawDistinct | gamelogic.ts:91-94 | the Set-filling retry loop: `count` numbers of [lo, hi], pairwise distinct, provided the interval holds that many |
| Generator.CellsFilledWith | gamelogic.ts:95 | the numbers of a distinct draw, pushed onto the board, fill its cells with distinct numbers of the interval |
| Generator.Pigeonhole | gamelogic.ts:145-147 | while fewer numbers than the range have been drawn, some number of the range is still undrawn, so the retry loop can finish |
| Generator.Exhausted | gamelogic.ts:145-147 | once the draw holds as many distinct numbers of the range as the range has, every number of the range has been drawn |
| Generator.GenerateFiveByFive | gamelogic.ts:54-65 | the 5x5 board: positions 5c..5c+4 hold five distinct numbers of column c's range |
| Generator.FiveByFiveBands | gamelogic.ts:54-65 | a dealt 5x5 board has 25 cells, and band c holds five distinct numbers of [w*c+1, w*c+w], with w = 15 for 75-ball and pattern and w = 10 for 50-ball |
| Generator.SetSparse | gamelogic.ts:83 | assigning index k of a sparse array sets that cell, extends the length to k+1 when needed and leaves every other index as it was |
| Generator.IndexOf | gamelogic.ts:82 | `indexOf`: the first position that holds the value |
| Generator.RowOrders | gamelogic.ts:79 | the shuffled row list is one of six different orderings, each listing the rows 0, 1 and 2 once |
| Generator.PlaceColumn90 | gamelogic.ts:80-85 | the row loop of one 90-ball column: the i-th number goes to row positions[i] of that column, and every other cell stays as it was |
| Generator.PlacedColumnIsComplete | gamelogic.ts:70-85 | after placing 1 to 3 distinct numbers of [10c+1, min(10c+10, 90)], column c is complete and earlier columns are untouched |
| Generator.FillColumn90 | gamelogic.ts:70-86 | one iteration of the 90-ball column loop, given its random choices (a count of 1 to 3, distinct numbers of the band, one of the six row shuffles): the numbers are placed at the first count rows of the shuffle, and a board whose first c columns are complete becomes one whose first c+1 are |
| Generator.GenerateBoardNumbers | gamelogic.ts:45-109 | the board has its game type's shape: 5x5 bands for 75-ball, 50-ball and pattern; 1 to 3 numbers per 90-ball column, in range and in distinct rows; 9 distinct numbers of [1, 30] for 30-ball; 45 distinct numbers of [1, 90] for coverall |
| Generator.ShapeInRange | gamelogic.ts:45-109 | every number on a dealt board lies in [1, range] of its game type, so it can be drawn |
| Generator.NinetyInRange | gamelogic.ts:68-87 | every number on a 90-ball board lies in [1, 90] |
| Generator.FiveByFiveInRange | gamelogic.ts:49-66 | every number on a 5x5 board lies in [1, range] of its game type |
| WinDetector.Marked | gamelogic.ts:186-188 | the marked set holds exactly the called numbers that appear on the board |
| WinDetector.MarkedCell | gamelogic.ts:186-188 | a board cell is marked exactly when it holds a number that has been called |
| WinDetector.CheckPattern | gamelogic.ts:201-317 | the pattern rules, one per name. "row" and "column": every cell of some row or column is marked, where a cell past the end of the board counts as done. "diagonal": only on a square grid, every cell of the main or the anti-diagonal marked. "four-corners": only on boards of at least 25 cells, cells 0, 4, 20 and 24 marked. "full-house" and "full-board": every present number marked, holes skipped. "one-line" and "two-lines": only in the 90-ball game, at least one or two rows of the 9-by-3 grid whose non-blank cells are all marked, where a hole and 0 are blank. Any other name never holds |
| WinDetector.FirstPatternIndex | gamelogic.ts:192-196 | the loop over the patterns: the first pattern the board completes, or none when it completes none |
| WinDetector.CheckWin | gamelogic.ts:185-199 | a reported pattern is one of the game type's configured patterns |
| WinDetector.CheckWinFirstMatch | gamelogic.ts:185-199 | a reported pattern is the first configured pattern the board completes; nothing is reported exactly when the board completes none |
| WinDetector.CheckWinIgnoresOwnMarks | gamelogic.ts:185-188 | the player's stored marks play no part: only the board and the called numbers decide |
| WinDetector.RowsAreBands | gamelogic.ts:210-236 | on a 5x5 board, "row" holds exactly when some band 5c..5c+4 is fully marked, and "column" exactly when some position i is marked in every band |
| WinDetector.FiveByFiveNeverReportsFullHouse | gamelogic.ts:209-275 | on a dealt 75-ball or 50-ball board, "row" completes no later than "full-house", so checkWin never reports "full-house" |
| WinDetector.FullHouseCompletesLines | gamelogic.ts:274-289 | a board with every number marked has all three 90-ball lines complete |
| WinDetector.NinetyBallReportsOnlyOneLine | gamelogic.ts:277-310 | for 90-ball, checkWin reports "one-line" or nothing, never "two-lines" or "full-house" |
| WinDetector.BlankRowIsALine | gamelogic.ts:279-290 | a 90-ball row with no numbers is a complete line, so the board reports "one-line" |
| Generator.DealRowZeroBoard | gamelogic.ts:68-87 | the 90-ball column loop, choosing in every column one number, 10c+1, at the top row, deals the board whose numbers all lie in row 0 |
| WinDetector.DealtBoardWinsAtOnce | gamelogic.ts:277-290 | that board reports "one-line" whatever has been called, the empty draw included |
| WinDetector.PatternTypeNeverWins | gamelogic.ts:209-317 | no pattern of the "pattern" game type is recognised, so its boards never win |
| WinDetector.FullCardWins | gamelogic.ts:274-275 | once every number on a board is called, the board wins in every game type except "pattern"; 30-ball reports "full-house" and coverall "full-board" |
| Engine.Winnings | gamelogic.ts:325 | the payout is the floor of pot * 0.776, and for a non-negative pot it lies between 0 and the pot |
| Engine.PayoutExamples | gamelogic.ts:325 | a pot of 1000 pays 776, and a pot of 25 pays 19 |
| Engine.Award | gamelogic.ts:326-327 | the winner's balance and total winnings grow by the amount; the same players remain, and every other player is unchanged |
| Engine.FirstWinner | gamelogic.ts:173-182 | the position found is a winning player with no winner before it; with no position found, no player wins |
| Engine.FirstWinnerUnique | gamelogic.ts:173-182 | any position that is a first winner is the position FirstWinner names |
| Engine.FindWinner | gamelogic.ts:173-182 | the loop over the players in insertion order stops at the first winning player, which is the one FirstWinner names |
| Engine.Without | gamelogic.ts:384 | `Map.delete` on the insertion order: exactly the other ids remain, still distinct; an absent id changes nothing |
| Engine.WithoutKeepsOrder | gamelogic.ts:384 | `Map.delete` keeps the insertion order of the ids that remain: any two of them stand in the same relative order as before |
| Engine.Recipients | gamelogic.ts:341-356 | a broadcast reaches exactly the players that have a socket and are connected |
| Engine.Settle | gamelogic.ts:169-183 | the winner check keeps the order, the same player ids, the draw and the pot, and changes nothing once a winner exists |
| Engine.SettleChoosesFirstWinner | gamelogic.ts:169-183 | with no winner yet, a winner is set exactly when some player's board wins; it is the first such player in insertion order, its board reports the recorded pattern, it alone is paid the winnings, and the draw stops |
| Engine.BlankRowCrownedAtFirstDraw | gamelogic.ts:138-183 | with no winner yet, when the 90-ball board of the first player in insertion order has a row without numbers, the winner check after a draw crowns that player with "one-line", whatever number was drawn |
| Engine.SettleOnce | gamelogic.ts:171 | the engine's own winner check pays once: a second check after a winner is set changes nothing (the client claim path is not covered, see Left out) |

| Engine.ExhaustedDrawHasWinner | gamelogic.ts:145-153 | once every number of the range is drawn, some player has won, except in the "pattern" game type; so a game that can be won stops drawing before the retry loop would run forever |
| Engine.DrawFitsAppend | gamelogic.ts:145-150 | appending a number of the range not drawn before keeps the draw distinct and in range, with that number as the current one |
| Engine.WinnerKeepsConsistent | gamelogic.ts:173-181 | a winner check that finds a winner restores the invariant after a draw |
| Engine.NoWinnerKeepsConsistent | gamelogic.ts:169-183 | a winner check that finds none keeps the invariant while numbers remain |
| Engine.DrawKeepsConsistent | gamelogic.ts:138-154 | a draw followed by the winner check keeps the invariant |
| Engine.StopKeepsConsistent | gamelogic.ts:156-167 | stopping the draw keeps the invariant |
| Engine.JoinKeepsConsistent | gamelogic.ts:34-43 | a join into an inactive game, with a dealt board, keeps the invariant |
| Engine.LeaveKeepsConsistent | gamelogic.ts:380-385 | removing a player keeps the invariant |
| Engine.ResetKeepsConsistent | gamelogic.ts:358-378 | a reset with every player redealt keeps the invariant |
| Engine.Redeal | gamelogic.ts:371-375 | every player is kept as it was, except for a fresh board of the game's shape and no marks |
| Engine.Game.constructor | gamelogic.ts:9-21 | a new game is inactive and not drawing, with no players, no draw, no current number, no winner, an empty pattern and an empty pot |
| Engine.Game.Enroll | gamelogic.ts:38-40 | the player is stored under its id (appended to the order when new), the stake goes into the pot, and the invariant holds |
| Engine.Game.Restart | gamelogic.ts:364-375 | the draw, current number and winner are cleared, the game is inactive, the players are redealt, and the invariant holds |
| Engine.GameLogic.constructor | gamelogic.ts:4 | the registry starts empty |
| Engine.GameLogic.CreateGame | gamelogic.ts:7-24 | a fresh game in its initial state is stored under its id; every other entry of the registry stays |
| Engine.GameLogic.JoinGame | gamelogic.ts:34-43 | succeeds exactly when the game exists and is inactive; otherwise nothing changes; on success the player, with a fresh board of the game's shape, is enrolled and the invariant holds |
| Engine.GameLogic.StartGame | gamelogic.ts:111-125 | succeeds exactly when the game exists and is inactive; the game then becomes active and drawing, and nothing else changes |
| Engine.GameLogic.StopCalling | gamelogic.ts:156-167 | the game, if present, stops drawing; nothing else changes; the game's invariant is kept |
| Engine.GameLogic.DeclareWinner | gamelogic.ts:320-327 | the winner is paid the winnings of the current pot; nothing else changes |
| Engine.GameLogic.Crown | gamelogic.ts:175-180 | the winner and its pattern are recorded, the winner is paid, and the draw stops |
| Engine.GameLogic.CheckWinners | gamelogic.ts:169-183 | the new state is Settle of the old one |
| Engine.GameLogic.CallNextNumber | gamelogic.ts:138-154 | a game that is missing, inactive or not drawing is unchanged; otherwise exactly one number of [1, range], not drawn before, is appended and becomes current, the winner check follows, and the invariant holds |
| Engine.GameLogic.ResetGame | gamelogic.ts:358-378 | succeeds exactly when the game exists; the draw stops, the draw and winner are cleared, the game is inactive, every player is redealt, and the invariant holds |
| Engine.GameLogic.RemovePlayer | gamelogic.ts:380-385 | reports whether the game held the player; the player is gone from the map and from the order, and the invariant holds |

## Left out

- Timers: `startCallingNumbers`, `setInterval`, `setTimeout` and the `callIntervals` map are not modelled. A tick of the draw timer is an explicit `CallNextNumber` call. `StartGame` sets `isCalling`, which is the only effect the timers have on a game. Two ticks never overlap.
- Randomness and the clock:
  - `Math.random` becomes a nondeterministic choice (`:|`) of a value the source could produce.
  - Game ids built from `Date.now()` are passed to `CreateGame` as a parameter.
  - `startTime` is not modelled.
- Rejection loops: each retry loop that redraws until it finds a value it has not seen is modelled as one choice among the values not yet taken. Repeats in the source change nothing.
- Engine.Winnings: the payout is computed as `floor(pot * 776 / 1000)`. The source multiplies in floating point, and its rounding of `0.8 * 0.97` is not modelled.
- Engine.GameLogic.CallNextNumber: requires that a drawing game still has an undrawn number. The source's retry loop never ends once every number is drawn. `ExhaustedDrawHasWinner` shows that this cannot happen in a game that keeps the invariant and can be won. For the "pattern" game type, or a game with no players, the precondition is a real restriction.
- Engine.GameLogic.JoinGame, StartGame, CallNextNumber, ResetGame, RemovePlayer: the invariant is stated and kept per game (`Valid(gameId)`). Each operation's frame is that one game, so the other games are untouched.
- Engine.Redeal: walks the insertion order, which lists every key of the player map. This stands for iterating over the `Map` itself.
- Player objects:
  - A player is a value stored in its game's map, so an update replaces the stored record.
  - The source mutates the `Player` object the caller passed in, which the caller can still see. That aliasing is not modelled.
  - The winner is recorded by id, not by object.
  - The socket handle is only the flag `hasSocket`.
- `broadcastToGame`: `Recipients` models who receives a message. JSON encoding, sending and the error log are I/O and are not modelled. The `winner` message of `declareWinner` is not modelled either.
- `getGame` and `getAllGames` are plain reads of the registry and have no members.
- The client claim path (`wshandler.ts:270-312`, handleClaimWin) is not modelled: it pays `floor(pot * 0.8 * 0.97)` and sets the winner (`wshandler.ts:293-297`) without checking for an existing winner or for an active game, so a board can be paid more than once, and a board with a blank row can be crowned in a game that is not active, which breaks the invariant that an inactive game has no winner. The model covers only the engine's own winner check.
- `wshandler.ts`, `server.ts` and `admin.ts` (sockets, HTTP routes, admin commands, the client-side claim path) are not part of this model.
- Amounts (stake, pot, balance, total winnings) are whole numbers. In the source they are JavaScript numbers taken from the client's message without a check, so a fractional stake is possible there.
- Concurrency and JavaScript number overflow are not modelled. Integers are unbounded.

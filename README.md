# Monster Mayhem: the server's game-state engine in Dafny

Monster Mayhem is a browser game for three players on a 10×10 board. Each
player places vampires, werewolves and ghosts and moves them. When a monster
moves onto a cell held by another player's monster, a conflict is resolved:
vampire beats ghost, werewolf beats vampire, and ghost beats werewolf. Every
player has a monster counter. A player whose counter reaches 10 loses.

`server.js` holds one global match. This project models that match and the
handlers that change it:

- **Board** (`board.dfy`). The grid is a value of ten rows of ten cells. A cell
  is empty or holds one `Monster(kind, owner)`. The module also holds the cell
  write and the distance check of a move.
- **Combat** (`combat.dfy`). The `conflictRules` table and the three branches of
  `resolveConflict`. `Holder` says what stays on the contested cell. `Losers`
  says whose counters rise.
- **JsObject** (`jsobject.dfy`). A plain JavaScript object used as a
  dictionary: keys in insertion order plus a map. It models `players` and
  `gameState.monsterCounts`. Both `Object.keys` and `for…in` enumerate in that
  order.
- **Standings** (`standings.dfy`). It has:
  - the counters, including the NaN that `undefined++` stores;
  - `checkGameEndConditions` as the function `EndEvents`;
  - the turn order as a sorted permutation;
  - the broadcast events.
- **Server** (`server.dfy`). The class `Game` holds the fields of the match:
  `grid`, `players`, `monsterCounts`, `playerOrder` and `readyCount`. It also
  holds a ghost log of every `io.emit`. Each handler is a method with a
  `modifies` clause. Its postcondition gives the new state in terms of the old
  state and the functions above.
  - `Valid()` is kept by every handler. It says the board and both
    dictionaries are well formed. It says the connected players are exactly
    the keys whose counters are numbers. It also says that 'game started'
    appears in the log once if `readyCount` has reached 3, and not at all
    otherwise.

Points where the code behaves differently from what a reader might expect:

- A placement raises the placer's own counter (server.js:52). So the counter
  counts placements plus conflict losses, and a player's tenth placement makes
  that player lose.
- A conflict never clears the mover's source cell. When the mover wins, it
  stands on both cells (`ConflictWinCopiesMover`). When it loses or ties, it
  stays on `from`.
- When the incoming kind does not beat the resident's, the resident is removed
  and the *incoming* owner's counter rises (server.js:117-119).
- On a conflict move the end check runs twice: once inside `resolveConflict`
  and once in `handleMovement`. The same 'game over' event can therefore be
  broadcast twice. Nothing stops a repeated terminal event: the code has no
  Lobby/Active/Finished state, so none is modelled and any handler may run at
  any time.
- Repeated 'player ready' calls from one player count again each time
  (server.js:170-171). 'game started' still goes out at most once, on the call
  that makes the count exactly 3.
- 'disconnect' does not lower `readyCount` and leaves the player's monsters
  on the board. Suppose a later conflict raises the counter of that gone
  owner. `monsterCounts[owner]++` then re-adds the key holding NaN. NaN never
  compares `>= 10` or `< 10`. This is modelled as `Count.NotANumber`.
- The edge of a new player is `|players| % 4` taken before the player is
  added. The object literal is evaluated before the assignment stores it.

## Model

| member | source | states |
|---|---|---|
| Board.EmptyGrid | server.js:15 | every cell of the initial 10×10 board is empty |
| Board.Write | server.js:51 | a cell write puts the new occupant in that cell and leaves every other cell as it was |
| Board.Relocation | server.js:89-90 | a relocation leaves `from` empty and the mover on `to` only, with nothing else changed; when `from == to` the monster is erased |
| Board.DistanceSymmetric | server.js:76-78 | the distance check gives the same answer with `from` and `to` swapped |
| Board.DistanceValid | server.js:75-78 | the distance check accepts exactly the same column, the same row, or one of the eight squares one or two diagonal steps away |
| Combat.Prey | server.js:108-112 | exactly vampire, werewolf and ghost have an entry in the rules table, and each names another of the three kinds |
| Combat.Duel | server.js:102-114 | the branch taken: both removed exactly when the kinds are equal, an incoming win exactly when the table says the incoming kind beats the resident's, which only known kinds can do |
| Combat.BeatsIsThreeCycle | server.js:108-112 | vampire beats ghost, werewolf beats vampire, ghost beats werewolf; only these kinds take part, no kind beats itself, and never both ways |
| Combat.DuelBetweenKnownKinds | server.js:102-120 | between two different known kinds, the move one way wins exactly when the move the other way loses, and there is never a tie |
| Combat.UnknownKindLoses | server.js:108-119 | a kind outside the table loses every conflict against a different kind, moving or resident |
| Combat.Holder | server.js:102-118 | after a conflict the contested cell holds the incoming monster exactly when its kind beats the resident's, and is empty otherwise |
| Combat.Losers | server.js:102-120 | equal kinds charge both owners, incoming first; an incoming win charges the resident's owner; any other case charges the incoming owner |
| JsObject.Empty | server.js:13 | a new object has no keys |
| JsObject.Put | server.js:26-31 | assignment keeps the key order valid; a new key is enumerated last and an existing key keeps its place |
| JsObject.Without | server.js:197-198 | the key order after removing a key lists exactly the other keys, still without repeats |
| JsObject.Delete | server.js:197-198 | `delete` removes the key from the entries and from the order and keeps the order valid; other keys keep their values and their places in the `for…in` order; deleting an absent key changes nothing |
| Standings.Bump | server.js:52 | `++` stores `Incremented`: it raises a numeric counter by exactly one, stores NaN for an absent key or a NaN, and changes no other key |
| Standings.BumpAll | server.js:104-105 | successive increments keep the object well formed, leave every bumped key present and add no other key |
| Standings.BumpAllNumeric | server.js:104-105 | after several increments a numeric counter has risen by the number of times its key was bumped |
| Standings.BumpAllOthers | server.js:116-119 | a key that is not bumped keeps its counter |
| Standings.BumpAllNoneDecreased | server.js:104-119 | increments never remove a counter, lower a numeric counter, or turn a number into NaN |
| Standings.BumpAllKeepsMatch | server.js:104-105 | increments keep the connected players as exactly the holders of numeric counters |
| Standings.PutKeepsMatch | server.js:26-31 | a joining player gets a numeric counter, and the players and numeric counters still match |
| Standings.DeleteKeepsMatch | server.js:197-198 | a leaving player takes its counter along, and the players and numeric counters still match |
| Standings.FirstLoserIndex | server.js:141-146 | gives the position in `for…in` order of the first counter at or above 10, with every counter before it below the limit, or the number of keys when there is none |
| Standings.FirstLoserIndexIs | server.js:141-146 | only one position can be the first counter at the limit |
| Standings.Survivors | server.js:149 | the filter keeps exactly the connected players whose counter is a number below 10, without repeats |
| Standings.EndEvents | server.js:139-153 | one end check broadcasts at most one event, and only a 'game over' one (a loss or a win), never 'game started' or 'update grid' |
| Standings.EndEventsLoses | server.js:141-146 | the check broadcasts exactly one "loses" event for p iff p is the first key in `for…in` order whose counter is at or above 10 |
| Standings.EndEventsWins | server.js:148-152 | the check broadcasts exactly one "wins" event for p iff no counter is at the limit and p is the only connected player below it |
| Standings.InsertPermutes | server.js:37-41 | inserting a player into the order adds it and loses nothing |
| Standings.InsertSorted | server.js:37-41 | inserting into an order sorted by counter keeps it sorted |
| Standings.SortedCons | server.js:37-41 | an order sorted by counter stays sorted when an id with a counter no larger than its head is put in front |
| Standings.SortByCount | server.js:36-41 | the sort result is a permutation of the player keys, sorted by `SortKey`, that is `count \|\| 0`: a number is its own key, NaN and an absent key sort as 0 |
| Standings.StartedCountAppend | server.js:173 | the number of 'game started' events in a log is additive over concatenation |
| Server.Accepted | server.js:69-83 | a move gets past both early returns exactly when `from` holds the mover's own monster and the target is in the same row or column or a short diagonal step away; so a zero-length move of one's own monster always does |
| Server.Contested | server.js:86 | a conflict is only started against a monster of another player: an empty target or the mover's own monster is never contested |
| Server.ConflictEffect | server.js:102-120 | the branches of `resolveConflict` apply `Holder` and `Losers`, and the new counters decrease none and keep numeric counters matched to players |
| Server.ConflictCounters | server.js:102-120 | for two connected owners, equal kinds raise both counters by one; otherwise only the resident's owner pays when the incoming kind wins, and only the incoming owner pays in every other case |
| Server.ConflictWinCopiesMover | server.js:86-87 | a won conflict leaves the mover on both `from` and `to` |
| Server.Game.constructor | server.js:13-20 | the match starts with an empty board, no players, no counters, an empty turn order, a ready count of 0 and nothing broadcast |
| Server.Game.Emit | server.js:55 | a broadcast appends exactly one event to the log |
| Server.Game.SetCell | server.js:51 | the board becomes the old board with that one cell written |
| Server.Game.InitPlayer | server.js:25-33 | a new player is added last, not ready, on edge `\|players\| % 4` (in 0..3), with counter 0, and the turn order is recomputed |
| Server.Game.UpdatePlayerOrder | server.js:36-41 | the turn order becomes a permutation of the player keys sorted by counter; ties are left open |
| Server.Game.CheckGameEndConditions | server.js:139-153 | the loop appends exactly `EndEvents` of the current state to the log, and changes nothing else |
| Server.Game.HandlePlacement | server.js:45-61 | the cell is overwritten whatever it held, the placer's counter is bumped once, and the log gets the board followed by the end check's events |
| Server.Game.ResolveConflict | server.js:99-124 | only the contested cell changes, to `Holder`; the counters of `Losers` are bumped; the log gets the end check's events |
| Server.Game.HandleMovement | server.js:64-97 | a rejected move changes nothing and broadcasts nothing; a relocation moves the monster and leaves counters alone; a conflict resolves without clearing `from` and broadcasts end events, then the board, then end events again; no counter ever decreases |
| Server.Game.HandleEndTurn | server.js:127-137 | the turn order is recomputed and the end check's events are logged; nothing else changes |
| Server.Game.PlayerReady | server.js:165-177 | the ready flag is set, the ready count rises by one even on a repeat call, and 'game started' is logged exactly when the count becomes 3, so at most once ever |
| Server.Game.Disconnect | server.js:191-202 | the player and its counter are deleted and the turn order is recomputed; the board, the ready count and the log are unchanged |

## Left out

- Transport: the Express app, static files, `server.listen` and the
  socket.io connection plumbing. `io.emit` is modelled only as an append to a
  ghost event log. The 'game over' message text is modelled by the player id
  it names.
- The 'register' handler (server.js:159-163) and the display name. The name
  only appears in log lines and messages; `Player` does not carry it.
- The `isUpdating` guard. Handlers run one at a time to completion in this
  model, so the guard is always clear on entry and no intent is dropped.
- `console.log` output.
- UpdatePlayerOrder: promises only a permutation sorted by counter, because
  the `Math.random` tie-break is not modelled. Players with equal counters may
  come in any order. The ECMAScript standard leaves the result of sorting with
  an inconsistent comparator to the implementation. So sortedness is an
  assumption about the engine, not a guarantee of the standard. The
  comparator is consistent between players whose counters differ, and V8's
  sort keeps such players in order.
- The grid as a shared JavaScript array. The model keeps the board as a value
  that each handler replaces. The array's aliasing with the payload of
  'update grid' is not modelled: the event records a snapshot taken at the
  emit.
- Coordinates are required to be integers in 0..9, and a monster's type is
  required to be a string. In the source, reading an out-of-range row throws,
  and writing an out-of-range column silently adds a property to a row array.
  Neither is modelled.
- HandleMovement: requires `to` on the board even for a move that the source
  rejects before reading the target cell. A move from an empty cell or from another
  player's monster returns at server.js:70-72, and a move failing the distance
  check returns at server.js:80-83. So an off-board `to` on such a move is a
  silent no-op in the source, which this model does not cover.
- The handlers of 'player ready', 'end turn' and 'disconnect' require a
  connected player: they read `players[id]`, which would throw otherwise.
  Placement and movement do not read `players`, so they have no such
  requirement.
- Numeric-looking socket ids. `for…in` would enumerate those keys first. The
  model uses insertion order, which is what socket.io's random ids get.
- `public/js/game.js` is browser UI and is not part of this model.

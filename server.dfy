/** The single global match of server.js: the board, the players, their
    counters, the turn order and the ready count, and the handlers that
    change them. Each handler runs to completion before the next one starts,
    so the `isUpdating` guard is always clear on entry and is not modelled. */
module Server {
  import opened Board
  import opened Combat
  import opened JsObject
  import opened Standings

  /** An entry of `players`. The display name set by 'register' is not
      modelled. */
  datatype Player = Player(id: PlayerId, edge: nat, ready: bool)

  /** The mover's own monster is on `from` and the distance check passes:
      `handleMovement` goes past its two early returns. An accepted target
      shares a row or a column with `from` or is a short diagonal step away,
      and a zero-length move of one's own monster is always accepted. */
  predicate Accepted(g: Grid, playerId: PlayerId, from: Pos, to: Pos)
    requires WellFormed(g) && OnBoard(from)
    ensures Accepted(g, playerId, from, to) <==>
      At(g, from).Some? && At(g, from).value.owner == playerId &&
      (from.x == to.x || from.y == to.y || to in DiagonalTargets(from))
    ensures from == to ==>
      (Accepted(g, playerId, from, to) <==> At(g, from).Some? && At(g, from).value.owner == playerId)
  {
    At(g, from).Some? && At(g, from).value.owner == playerId && DistanceValid(from, to)
  }

  /** The target holds a monster of another player. An empty cell and a
      cell holding the mover's own monster are never contested, so the
      source cell of an accepted move is not contested either. */
  predicate Contested(g: Grid, playerId: PlayerId, to: Pos)
    requires WellFormed(g) && OnBoard(to)
    ensures At(g, to).None? ==> !Contested(g, playerId, to)
    ensures At(g, to).Some? && At(g, to).value.owner == playerId ==> !Contested(g, playerId, to)
    ensures Contested(g, playerId, to) ==> At(g, to).Some?
  {
    At(g, to).Some? && At(g, to).value.owner != playerId
  }

  /** The branches of `resolveConflict` apply `Holder` and `Losers`. */
  lemma ConflictEffect(t: Dict<Count>, incoming: Monster, resident: Monster, players: set<PlayerId>)
    requires Ok(t) && CountsMatch(t.entries, players)
    ensures var after := BumpAll(t, Losers(incoming, resident));
      after == (if incoming.kind == resident.kind then Bump(Bump(t, incoming.owner), resident.owner)
                else if Prey(incoming.kind) == Some(resident.kind) then Bump(t, resident.owner)
                else Bump(t, incoming.owner)) &&
      NoneDecreased(t.entries, after.entries) && CountsMatch(after.entries, players)
    ensures Holder(incoming, resident) ==
      if incoming.kind != resident.kind && Prey(incoming.kind) == Some(resident.kind) then Some(incoming) else None
  {
    var losers := Losers(incoming, resident);
    BumpAllNoneDecreased(t, losers);
    BumpAllKeepsMatch(t, losers, players);
    if incoming.kind == resident.kind {
      assert losers[1..] == [resident.owner];
      var once := Bump(t, incoming.owner);
      assert BumpAll(once, [resident.owner]) == BumpAll(Bump(once, resident.owner), []);
    }
  }

  /** The counters after a conflict between monsters of two connected
      players: equal kinds cost each owner one, otherwise exactly one owner
      pays, the resident's when the incoming kind beats it and the incoming
      monster's owner in every other case. */
  lemma {:induction false} ConflictCounters(t: Dict<Count>, incoming: Monster, resident: Monster)
    requires Ok(t) && incoming.owner != resident.owner
    requires incoming.owner in t.entries && t.entries[incoming.owner].Num?
    requires resident.owner in t.entries && t.entries[resident.owner].Num?
    ensures var after := BumpAll(t, Losers(incoming, resident)).entries;
      var i, r := t.entries[incoming.owner].value, t.entries[resident.owner].value;
      incoming.owner in after && resident.owner in after &&
      after[incoming.owner] == Num(i + if Duel(incoming.kind, resident.kind) == IncomingWins then 0 else 1) &&
      after[resident.owner] == Num(r + if Duel(incoming.kind, resident.kind) == IncomingLoses then 0 else 1)
  {
    var losers := Losers(incoming, resident);
    var outcome := Duel(incoming.kind, resident.kind);
    BumpAllNumeric(t, losers, incoming.owner);
    BumpAllNumeric(t, losers, resident.owner);
    if outcome == BothRemoved {
      assert losers == [incoming.owner, resident.owner];
    } else if outcome == IncomingWins {
      assert losers == [resident.owner];
    } else {
      assert losers == [incoming.owner];
    }
  }

  /** A move that wins a conflict leaves the mover both on `from` and on
      `to`: the source cell is never cleared on a conflict. */
  lemma ConflictWinCopiesMover(g: Grid, from: Pos, to: Pos, mover: Monster, resident: Monster)
    requires WellFormed(g) && OnBoard(from) && OnBoard(to) && from != to
    requires At(g, from) == Some(mover) && At(g, to) == Some(resident)
    requires Duel(mover.kind, resident.kind) == IncomingWins
    ensures var after := Write(g, to, Holder(mover, resident));
      At(after, from) == Some(mover) && At(after, to) == Some(mover)
  {
  }

  class Game {
    /** `gameState.grid`, rows indexed by y. */
    var grid: Grid
    var players: Dict<Player>
    var monsterCounts: Dict<Count>
    var playerOrder: seq<PlayerId>
    var readyCount: nat
    /** Everything `io.emit` has broadcast so far. */
    ghost var events: seq<Event>

    ghost predicate Valid()
      reads this
    {
      Consistent() && Announced()
    }

    /** The board has its ten rows of ten cells, both dictionaries are well
        formed, and the connected players are exactly the holders of numeric
        counters. */
    ghost predicate Consistent()
      reads this`grid, this`players, this`monsterCounts
    {
      WellFormed(grid) &&
      Ok(players) && Ok(monsterCounts) &&
      CountsMatch(monsterCounts.entries, players.entries.Keys)
    }

    /** 'game started' has gone out once exactly when the ready count has
        reached the quota, and never otherwise. */
    ghost predicate Announced()
      reads this`events, this`readyCount
    {
      StartedCount(events) == if readyCount >= TotalPlayers then 1 else 0
    }

    /** The state at process start (server.js lines 13-20). */
    constructor ()
      ensures Valid()
      ensures grid == EmptyGrid()
      ensures players == Empty() && monsterCounts == Empty()
      ensures playerOrder == [] && readyCount == 0 && events == []
    {
      grid := EmptyGrid();
      players := Empty();
      monsterCounts := Empty();
      playerOrder := [];
      readyCount := 0;
      events := [];
    }

    /** `io.emit(…)` */
    ghost method Emit(e: Event)
      modifies this`events
      ensures events == old(events) + [e]
      ensures StartedCount(events) == StartedCount(old(events)) + if e == GameStarted then 1 else 0
    {
      StartedCountAppend(events, [e]);
      events := events + [e];
    }

    /** `gameState.grid[p.y][p.x] = c` */
    method SetCell(p: Pos, c: Cell)
      requires WellFormed(grid) && OnBoard(p)
      modifies this`grid
      ensures grid == Write(old(grid), p, c)
    {
      grid := Write(grid, p, c);
    }

    /** `initPlayer`: a fresh player, not ready, on edge `|players| % 4`
        taken before it joins, with a counter of 0, and a new turn order. */
    method InitPlayer(id: PlayerId)
      requires Valid() && id !in players.entries
      modifies this`players, this`monsterCounts, this`playerOrder
      ensures Valid()
      ensures players == Put(old(players), id, Player(id, |old(players).keys| % 4, false))
      ensures 0 <= players.entries[id].edge < 4
      ensures monsterCounts == Put(old(monsterCounts), id, Num(0))
      ensures IsTurnOrder(playerOrder, players.keys, monsterCounts.entries)
    {
      PutKeepsMatch(monsterCounts, players, id, Player(id, |players.keys| % 4, false), 0);
      players := Put(players, id, Player(id, |players.keys| % 4, false));
      monsterCounts := Put(monsterCounts, id, Num(0));
      UpdatePlayerOrder();
    }

    /** `updatePlayerOrder`: the connected players, sorted by counter; the
        order among equal counters is left open (the source breaks ties at
        random). */
    method UpdatePlayerOrder()
      requires Valid()
      modifies this`playerOrder
      ensures Valid()
      ensures IsTurnOrder(playerOrder, players.keys, monsterCounts.entries)
    {
      playerOrder := SortByCount(players.keys, monsterCounts.entries);
    }

    /** `checkGameEndConditions`: scans the counters in `for…in` order and
        stops at the first one at the limit; otherwise announces the winner
        when exactly one connected player is below the limit. */
    method CheckGameEndConditions()
      requires Valid()
      modifies this`events
      ensures Valid()
      ensures events == old(events) + EndEvents(monsterCounts, players.keys)
    {
      var keys := monsterCounts.keys;
      for i := 0 to |keys|
        invariant forall j :: 0 <= j < i ==> !AtLimit(monsterCounts.entries[keys[j]])
      {
        if AtLimit(monsterCounts.entries[keys[i]]) {
          FirstLoserIndexIs(keys, monsterCounts.entries, i);
          Emit(PlayerLoses(keys[i]));
          return;
        }
      }
      FirstLoserIndexIs(keys, monsterCounts.entries, |keys|);
      var active := Survivors(players.keys, monsterCounts.entries);
      if |active| == 1 {
        Emit(PlayerWins(active[0]));
      }
    }

    /** `handlePlacement`: overwrites the cell whatever it held, raises the
        placer's counter by one, broadcasts the board and checks for the end
        of the game. */
    method HandlePlacement(playerId: PlayerId, kind: string, p: Pos)
      requires Valid() && OnBoard(p)
      modifies this`grid, this`monsterCounts, this`events
      ensures Valid()
      ensures grid == Write(old(grid), p, Some(Monster(kind, playerId)))
      ensures monsterCounts == Bump(old(monsterCounts), playerId)
      ensures NoneDecreased(old(monsterCounts).entries, monsterCounts.entries)
      ensures events == old(events) + [GridUpdated(grid)] + EndEvents(monsterCounts, players.keys)
    {
      SetCell(p, Some(Monster(kind, playerId)));
      monsterCounts := Bump(monsterCounts, playerId);
      assert monsterCounts == BumpAll(old(monsterCounts), [playerId]);
      BumpAllNoneDecreased(old(monsterCounts), [playerId]);
      BumpAllKeepsMatch(old(monsterCounts), [playerId], players.entries.Keys);
      Emit(GridUpdated(grid));
      CheckGameEndConditions();
    }

    /** `resolveConflict`: the incoming monster meets the resident of `to`.
        Only `to` changes; the counters of the losers rise; the end of the
        game is checked. */
    method ResolveConflict(to: Pos, incoming: Monster)
      requires Valid() && OnBoard(to) && At(grid, to).Some?
      modifies this`grid, this`monsterCounts, this`events
      ensures Valid()
      ensures var resident := At(old(grid), to).value;
        grid == Write(old(grid), to, Holder(incoming, resident)) &&
        monsterCounts == BumpAll(old(monsterCounts), Losers(incoming, resident))
      ensures NoneDecreased(old(monsterCounts).entries, monsterCounts.entries)
      ensures events == old(events) + EndEvents(monsterCounts, players.keys)
    {
      var resident := grid[to.y][to.x].value;
      ConflictEffect(monsterCounts, incoming, resident, players.entries.Keys);
      var cell: Cell;
      if incoming.kind == resident.kind {
        cell := None;
        monsterCounts := Bump(monsterCounts, incoming.owner);
        monsterCounts := Bump(monsterCounts, resident.owner);
      } else if Prey(incoming.kind) == Some(resident.kind) {
        cell := Some(incoming);
        monsterCounts := Bump(monsterCounts, resident.owner);
      } else {
        cell := None;
        monsterCounts := Bump(monsterCounts, incoming.owner);
      }
      SetCell(to, cell);
      CheckGameEndConditions();
    }

    /** `handleMovement`. A move from an empty cell, from another player's
        monster, or that fails the distance check changes nothing and
        broadcasts nothing. Onto an empty cell or the mover's own monster it
        relocates the mover. Onto another player's monster it resolves the
        conflict and leaves the mover on `from`; the end of the game is then
        checked twice, before and after the board is broadcast. */
    method HandleMovement(playerId: PlayerId, from: Pos, to: Pos)
      requires Valid() && OnBoard(from) && OnBoard(to)
      modifies this`grid, this`monsterCounts, this`events
      ensures Valid()
      ensures NoneDecreased(old(monsterCounts).entries, monsterCounts.entries)
      ensures !Accepted(old(grid), playerId, from, to) ==>
        grid == old(grid) && monsterCounts == old(monsterCounts) && events == old(events)
      ensures Accepted(old(grid), playerId, from, to) && !Contested(old(grid), playerId, to) ==>
        grid == Write(Write(old(grid), to, At(old(grid), from)), from, None) &&
        monsterCounts == old(monsterCounts) &&
        events == old(events) + [GridUpdated(grid)] + EndEvents(monsterCounts, players.keys)
      ensures Accepted(old(grid), playerId, from, to) && Contested(old(grid), playerId, to) ==>
        var mover, resident := At(old(grid), from).value, At(old(grid), to).value;
        grid == Write(old(grid), to, Holder(mover, resident)) &&
        monsterCounts == BumpAll(old(monsterCounts), Losers(mover, resident)) &&
        events == old(events) + EndEvents(monsterCounts, players.keys) + [GridUpdated(grid)] +
          EndEvents(monsterCounts, players.keys)
    {
      var moving := grid[from.y][from.x];
      if moving.None? || moving.value.owner != playerId {
        return;
      }
      var dx := Abs(from.x - to.x);
      var dy := Abs(from.y - to.y);
      var distanceValid := dx == 0 || dy == 0 || (dx <= 2 && dy <= 2 && dx == dy);
      if !distanceValid {
        return;
      }
      var target := grid[to.y][to.x];
      if target.Some? && target.value.owner != playerId {
        ResolveConflict(to, moving.value);
      } else {
        SetCell(to, moving);
        SetCell(from, None);
        NoneDecreasedReflexive(monsterCounts.entries);
      }
      ghost var counted := monsterCounts;
      Emit(GridUpdated(grid));
      CheckGameEndConditions();
      assert monsterCounts == counted;
    }

    /** `handleEndTurn`: recomputes the turn order and checks for the end of
        the game; it does not rotate any current player. */
    method HandleEndTurn(playerId: PlayerId)
      requires Valid() && playerId in players.entries
      modifies this`playerOrder, this`events
      ensures Valid()
      ensures IsTurnOrder(playerOrder, players.keys, monsterCounts.entries)
      ensures events == old(events) + EndEvents(monsterCounts, players.keys)
    {
      UpdatePlayerOrder();
      CheckGameEndConditions();
    }

    /** The 'player ready' handler: sets the flag and counts one more ready
        player even when the flag was already set; 'game started' goes out on
        the call that brings the count to the quota, and only then. */
    method PlayerReady(id: PlayerId)
      requires Valid() && id in players.entries
      modifies this`players, this`readyCount, this`events
      ensures Valid()
      ensures players == Put(old(players), id, old(players).entries[id].(ready := true))
      ensures players.keys == old(players).keys
      ensures readyCount == old(readyCount) + 1
      ensures events == old(events) + if readyCount == TotalPlayers then [GameStarted] else []
      ensures StartedCount(events) <= 1
    {
      players := Put(players, id, players.entries[id].(ready := true));
      readyCount := readyCount + 1;
      if readyCount == TotalPlayers {
        Emit(GameStarted);
      }
    }

    /** The 'disconnect' handler: the player and its counter leave, its
        monsters stay on the board, the ready count is not lowered, and the
        turn order is recomputed. */
    method Disconnect(id: PlayerId)
      requires Valid() && id in players.entries
      modifies this`players, this`monsterCounts, this`playerOrder
      ensures Valid()
      ensures players == Delete(old(players), id)
      ensures monsterCounts == Delete(old(monsterCounts), id)
      ensures IsTurnOrder(playerOrder, players.keys, monsterCounts.entries)
    {
      DeleteKeepsMatch(monsterCounts, players, id);
      players := Delete(players, id);
      monsterCounts := Delete(monsterCounts, id);
      UpdatePlayerOrder();
    }
  }
}

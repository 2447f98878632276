/** Per-player bookkeeping of the match: the monster counters
    (`gameState.monsterCounts`), the end-of-game rule
    (`checkGameEndConditions`), the turn order (`updatePlayerOrder`) and the
    events the server broadcasts. */
module Standings {
  import opened Board
  import opened JsObject

  /** A counter at or above this ends the game for its player. */
  const LossLimit: nat := 10

  /** Number of ready players that starts the game (`gameState.totalPlayers`). */
  const TotalPlayers: nat := 3

  /** A value of `monsterCounts`: a number, or NaN once `undefined++` has run
      on the key of a player who already disconnected. */
  datatype Count = Num(value: nat) | NotANumber

  /** The events `io.emit` broadcasts to every client. */
  datatype Event =
    | GridUpdated(board: Grid)     // 'update grid'
    | GameStarted                  // 'game started'
    | PlayerLoses(id: PlayerId)    // 'game over', "Player … loses"
    | PlayerWins(id: PlayerId)     // 'game over', "Player … wins"

  /** `monsterCounts[id] >= 10` for a present counter; NaN compares false. */
  predicate AtLimit(c: Count) {
    c.Num? && c.value >= LossLimit
  }

  /** `monsterCounts[id] < 10`; an absent key and NaN both compare false. */
  predicate BelowLimit(counts: map<PlayerId, Count>, id: PlayerId) {
    id in counts && counts[id].Num? && counts[id].value < LossLimit
  }

  /** The value `monsterCounts[id]++` stores. */
  function Incremented(counts: map<PlayerId, Count>, id: PlayerId): Count {
    if id in counts && counts[id].Num? then Num(counts[id].value + 1) else NotANumber
  }

  /** `monsterCounts[id]++`: a numeric counter rises by exactly one; an absent
      key is added, last, holding NaN; NaN stays NaN; no other key changes. */
  function Bump(t: Dict<Count>, id: PlayerId): (r: Dict<Count>)
    requires Ok(t)
    ensures Ok(r)
    ensures r.entries.Keys == t.entries.Keys + {id}
    ensures forall k :: k in t.entries && k != id ==> r.entries[k] == t.entries[k]
    ensures id in t.entries && t.entries[id].Num? ==> r.entries[id] == Num(t.entries[id].value + 1)
    ensures !(id in t.entries && t.entries[id].Num?) ==> r.entries[id] == NotANumber
  {
    Put(t, id, Incremented(t.entries, id))
  }

  /** The increments of `ids`, one after the other: afterwards every bumped
      key is present, and no other key is added. */
  function BumpAll(t: Dict<Count>, ids: seq<PlayerId>): (r: Dict<Count>)
    requires Ok(t)
    ensures Ok(r)
    ensures forall k :: k in r.entries <==> k in t.entries || k in ids
    decreases |ids|
  {
    if ids == [] then t else BumpAll(Bump(t, ids[0]), ids[1..])
  }

  /** A numeric counter rises by the number of times its key is bumped. */
  lemma {:induction false} BumpAllNumeric(t: Dict<Count>, ids: seq<PlayerId>, k: PlayerId)
    requires Ok(t) && k in t.entries && t.entries[k].Num?
    ensures k in BumpAll(t, ids).entries
    ensures BumpAll(t, ids).entries[k] == Num(t.entries[k].value + multiset(ids)[k])
    decreases |ids|
  {
    if ids != [] {
      var once := Bump(t, ids[0]);
      assert once.entries[k].value == t.entries[k].value + multiset{ids[0]}[k];
      BumpAllNumeric(once, ids[1..], k);
      assert multiset(ids) == multiset{ids[0]} + multiset(ids[1..]) by {
        assert ids == [ids[0]] + ids[1..];
      }
    }
  }

  /** A key that is not bumped keeps its counter. */
  lemma {:induction false} BumpAllOthers(t: Dict<Count>, ids: seq<PlayerId>, k: PlayerId)
    requires Ok(t) && k in t.entries && k !in ids
    ensures k in BumpAll(t, ids).entries && BumpAll(t, ids).entries[k] == t.entries[k]
    decreases |ids|
  {
    if ids != [] {
      BumpAllOthers(Bump(t, ids[0]), ids[1..], k);
    }
  }

  /** No counter is removed, none that is a number decreases or becomes NaN. */
  ghost predicate NoneDecreased(before: map<PlayerId, Count>, after: map<PlayerId, Count>) {
    forall k :: k in before ==>
      k in after && (before[k].Num? ==> after[k].Num? && before[k].value <= after[k].value)
  }

  lemma NoneDecreasedReflexive(counts: map<PlayerId, Count>)
    ensures NoneDecreased(counts, counts)
  {
  }

  lemma {:induction false} BumpAllNoneDecreased(t: Dict<Count>, ids: seq<PlayerId>)
    requires Ok(t)
    ensures NoneDecreased(t.entries, BumpAll(t, ids).entries)
    decreases |ids|
  {
    if ids != [] {
      BumpAllNoneDecreased(Bump(t, ids[0]), ids[1..]);
    }
  }

  /** The counters of connected players are numbers and they are the only
      numeric counters; any other key holds NaN. */
  ghost predicate CountsMatch(counts: map<PlayerId, Count>, players: set<PlayerId>) {
    (forall id :: id in players ==> id in counts) &&
    (forall id :: id in counts ==> (counts[id].Num? <==> id in players))
  }

  lemma {:induction false} BumpAllKeepsMatch(t: Dict<Count>, ids: seq<PlayerId>, players: set<PlayerId>)
    requires Ok(t) && CountsMatch(t.entries, players)
    ensures CountsMatch(BumpAll(t, ids).entries, players)
    decreases |ids|
  {
    if ids != [] {
      BumpAllKeepsMatch(Bump(t, ids[0]), ids[1..], players);
    }
  }

  /** A player who leaves takes its counter along. */
  lemma DeleteKeepsMatch<V>(t: Dict<Count>, players: Dict<V>, id: PlayerId)
    requires Ok(t) && Ok(players) && CountsMatch(t.entries, players.entries.Keys)
    ensures CountsMatch(Delete(t, id).entries, Delete(players, id).entries.Keys)
  {
  }

  /** A player who joins gets a numeric counter. */
  lemma PutKeepsMatch<V>(t: Dict<Count>, players: Dict<V>, id: PlayerId, p: V, n: nat)
    requires Ok(t) && Ok(players) && CountsMatch(t.entries, players.entries.Keys)
    ensures CountsMatch(Put(t, id, Num(n)).entries, Put(players, id, p).entries.Keys)
  {
  }

  /** Position of the first key, in `for…in` order, whose counter is at the
      limit; `|keys|` when there is none. */
  function FirstLoserIndex(keys: seq<PlayerId>, counts: map<PlayerId, Count>): (i: nat)
    requires forall k :: k in keys ==> k in counts
    ensures i <= |keys|
    ensures forall j :: 0 <= j < i ==> !AtLimit(counts[keys[j]])
    ensures i < |keys| ==> AtLimit(counts[keys[i]])
  {
    if keys == [] then 0
    else if AtLimit(counts[keys[0]]) then 0
    else 1 + FirstLoserIndex(keys[1..], counts)
  }

  /** Only one position can be the first at the limit. */
  lemma FirstLoserIndexIs(keys: seq<PlayerId>, counts: map<PlayerId, Count>, i: nat)
    requires forall k :: k in keys ==> k in counts
    requires i <= |keys|
    requires forall j :: 0 <= j < i ==> !AtLimit(counts[keys[j]])
    requires i < |keys| ==> AtLimit(counts[keys[i]])
    ensures FirstLoserIndex(keys, counts) == i
  {
  }

  /** `Object.keys(players).filter(id => monsterCounts[id] < 10)` */
  function Survivors(ids: seq<PlayerId>, counts: map<PlayerId, Count>): (r: seq<PlayerId>)
    ensures forall id :: id in r <==> id in ids && BelowLimit(counts, id)
    ensures Distinct(ids) ==> Distinct(r)
  {
    if ids == [] then []
    else
      var rest := Survivors(ids[1..], counts);
      assert Distinct(ids) ==> ids[0] !in ids[1..];
      if BelowLimit(counts, ids[0]) then [ids[0]] + rest else rest
  }

  /** What one run of `checkGameEndConditions` broadcasts: the first player
      at the limit loses; otherwise, if exactly one player is below the
      limit, that player wins; otherwise nothing. */
  function EndEvents(counts: Dict<Count>, players: seq<PlayerId>): (r: seq<Event>)
    requires Ok(counts)
    ensures |r| <= 1
    ensures forall e :: e in r ==> e.PlayerLoses? || e.PlayerWins?
  {
    var i := FirstLoserIndex(counts.keys, counts.entries);
    if i < |counts.keys| then [PlayerLoses(counts.keys[i])]
    else
      var active := Survivors(players, counts.entries);
      if |active| == 1 then [PlayerWins(active[0])] else []
  }

  /** `p` is the first key in `for…in` order whose counter is at the limit. */
  ghost predicate FirstAtLimit(keys: seq<PlayerId>, counts: map<PlayerId, Count>, p: PlayerId)
    requires forall k :: k in keys ==> k in counts
  {
    exists i :: 0 <= i < |keys| && keys[i] == p && AtLimit(counts[keys[i]]) &&
      forall j :: 0 <= j < i ==> !AtLimit(counts[keys[j]])
  }

  /** A "loses" event is broadcast, alone, exactly for the first player in
      `for…in` order whose counter reached the limit. */
  lemma EndEventsLoses(counts: Dict<Count>, players: seq<PlayerId>, p: PlayerId)
    requires Ok(counts)
    ensures EndEvents(counts, players) == [PlayerLoses(p)] <==> FirstAtLimit(counts.keys, counts.entries, p)
  {
    var i := FirstLoserIndex(counts.keys, counts.entries);
    if FirstAtLimit(counts.keys, counts.entries, p) {
      var j :| 0 <= j < |counts.keys| && counts.keys[j] == p && AtLimit(counts.entries[counts.keys[j]]) &&
        forall l :: 0 <= l < j ==> !AtLimit(counts.entries[counts.keys[l]]);
      FirstLoserIndexIs(counts.keys, counts.entries, j);
    }
  }

  /** A "wins" event is broadcast, alone, exactly when no counter is at the
      limit and `p` is the one connected player below it. */
  lemma EndEventsWins(counts: Dict<Count>, players: seq<PlayerId>, p: PlayerId)
    requires Ok(counts) && Distinct(players)
    ensures EndEvents(counts, players) == [PlayerWins(p)] <==>
      (forall k :: k in counts.keys ==> !AtLimit(counts.entries[k])) &&
      p in players && BelowLimit(counts.entries, p) &&
      (forall q :: q in players && BelowLimit(counts.entries, q) ==> q == p)
  {
    var keys := counts.keys;
    var i := FirstLoserIndex(keys, counts.entries);
    var active := Survivors(players, counts.entries);
    if (forall k :: k in keys ==> !AtLimit(counts.entries[k])) &&
      p in players && BelowLimit(counts.entries, p) &&
      (forall q :: q in players && BelowLimit(counts.entries, q) ==> q == p)
    {
      assert p in active;
      forall j | 0 <= j < |active|
        ensures active[j] == p
      {
        assert active[j] in active;
      }
      assert (set x | x in active) == {p};
      DistinctCard(active);
    }
  }

  /** `monsterCounts[id] || 0`: the sort key of a player in the turn order.
      A number is its own key; NaN and an absent key are falsy and sort as 0. */
  function SortKey(counts: map<PlayerId, Count>, id: PlayerId): nat {
    if id in counts && counts[id].Num? then counts[id].value else 0
  }

  predicate SortedByCount(s: seq<PlayerId>, counts: map<PlayerId, Count>) {
    forall i, j :: 0 <= i < j < |s| ==> SortKey(counts, s[i]) <= SortKey(counts, s[j])
  }

  /** A turn order: the given ids, rearranged so that counters never
      decrease along it. Players with equal counters may come in any order. */
  ghost predicate IsTurnOrder(order: seq<PlayerId>, ids: seq<PlayerId>, counts: map<PlayerId, Count>) {
    multiset(order) == multiset(ids) && SortedByCount(order, counts)
  }

  /** `id` inserted into an order after the ids with a smaller counter. */
  function Insert(id: PlayerId, s: seq<PlayerId>, counts: map<PlayerId, Count>): seq<PlayerId> {
    if s == [] then [id]
    else if SortKey(counts, id) <= SortKey(counts, s[0]) then [id] + s
    else [s[0]] + Insert(id, s[1..], counts)
  }

  /** Inserting adds `id` and loses nothing. */
  lemma {:induction false} InsertPermutes(id: PlayerId, s: seq<PlayerId>, counts: map<PlayerId, Count>)
    ensures multiset(Insert(id, s, counts)) == multiset(s) + multiset{id}
  {
    if s != [] && SortKey(counts, s[0]) < SortKey(counts, id) {
      InsertPermutes(id, s[1..], counts);
      assert s == [s[0]] + s[1..];
    }
  }

  /** Inserting into a sorted order keeps it sorted. */
  lemma {:induction false} InsertSorted(id: PlayerId, s: seq<PlayerId>, counts: map<PlayerId, Count>)
    requires SortedByCount(s, counts)
    ensures SortedByCount(Insert(id, s, counts), counts)
    ensures Insert(id, s, counts)[0] == id || (s != [] && Insert(id, s, counts)[0] == s[0])
  {
    if s == [] {
    } else if SortKey(counts, id) <= SortKey(counts, s[0]) {
      SortedCons(id, s, counts);
    } else {
      var rest := Insert(id, s[1..], counts);
      InsertSorted(id, s[1..], counts);
      SortedCons(s[0], rest, counts);
    }
  }

  lemma SortedCons(id: PlayerId, s: seq<PlayerId>, counts: map<PlayerId, Count>)
    requires SortedByCount(s, counts)
    requires s != [] ==> SortKey(counts, id) <= SortKey(counts, s[0])
    ensures SortedByCount([id] + s, counts)
  {
    var r := [id] + s;
    forall i, j | 0 <= i < j < |r|
      ensures SortKey(counts, r[i]) <= SortKey(counts, r[j])
    {
      if i == 0 {
        assert r[j] == s[j - 1];
        assert SortKey(counts, s[0]) <= SortKey(counts, s[j - 1]) || j == 1;
      } else {
        assert r[i] == s[i - 1] && r[j] == s[j - 1];
      }
    }
  }

  /** One ordering that `Object.keys(players).sort(…)` may produce. */
  function SortByCount(ids: seq<PlayerId>, counts: map<PlayerId, Count>): (r: seq<PlayerId>)
    ensures IsTurnOrder(r, ids, counts)
  {
    if ids == [] then []
    else
      var rest := SortByCount(ids[1..], counts);
      var r := Insert(ids[0], rest, counts);
      InsertPermutes(ids[0], rest, counts);
      InsertSorted(ids[0], rest, counts);
      assert ids == [ids[0]] + ids[1..];
      assert multiset(ids) == multiset{ids[0]} + multiset(ids[1..]);
      assert multiset(r) == multiset(ids);
      r
  }

  /** How many times 'game started' occurs in an event log. */
  function StartedCount(events: seq<Event>): nat {
    if events == [] then 0
    else (if events[0] == GameStarted then 1 else 0) + StartedCount(events[1..])
  }

  lemma {:induction false} StartedCountAppend(a: seq<Event>, b: seq<Event>)
    ensures StartedCount(a + b) == StartedCount(a) + StartedCount(b)
  {
    if a != [] {
      assert (a + b)[1..] == a[1..] + b;
      StartedCountAppend(a[1..], b);
    } else {
      assert a + b == b;
    }
  }
}

/** The outcome of a conflict, when a monster moves onto a cell held by
    another player's monster (`resolveConflict` in server.js). */
module Combat {
  import opened Board

  const Vampire := "vampire"
  const Werewolf := "werewolf"
  const Ghost := "ghost"

  /** The three kinds the rules table knows. A client may send any string as
      a monster's type. */
  predicate Known(kind: string) {
    kind == Vampire || kind == Werewolf || kind == Ghost
  }

  /** `conflictRules[kind]`: the kind that `kind` beats, undefined for any
      kind outside the table. Exactly the three known kinds have a prey,
      and it is another known kind. */
  function Prey(kind: string): (r: Option<string>)
    ensures r.Some? <==> Known(kind)
    ensures r.Some? ==> Known(r.value) && r.value != kind
  {
    if kind == Vampire then Some(Ghost)
    else if kind == Werewolf then Some(Vampire)
    else if kind == Ghost then Some(Werewolf)
    else None
  }

  predicate Beats(a: string, b: string) {
    Prey(a) == Some(b)
  }

  /** The beats relation is the cycle vampire > ghost > werewolf > vampire:
      only known kinds take part, no kind beats itself and of two kinds at
      most one beats the other. */
  lemma BeatsIsThreeCycle(a: string, b: string)
    ensures Beats(Vampire, Ghost) && Beats(Werewolf, Vampire) && Beats(Ghost, Werewolf)
    ensures Beats(a, b) ==> Known(a) && Known(b) && a != b && !Beats(b, a)
  {
  }

  /** The three branches of `resolveConflict`, in the order it tests them. */
  datatype Outcome =
    | BothRemoved    // same type
    | IncomingWins   // the rules table says the incoming type beats the resident's
    | IncomingLoses  // every other case

  /** Which branch `resolveConflict` takes. Only the incoming-beats-resident
      direction of the table is consulted: equal kinds remove both, the
      incoming monster wins exactly when its kind beats the resident's, and
      only known kinds can win. */
  function Duel(incoming: string, resident: string): (r: Outcome)
    ensures r == BothRemoved <==> incoming == resident
    ensures r == IncomingWins <==> Beats(incoming, resident)
    ensures r == IncomingWins ==> Known(incoming) && Known(resident)
  {
    if incoming == resident then BothRemoved
    else if Prey(incoming) == Some(resident) then IncomingWins
    else IncomingLoses
  }

  /** Between two different known kinds exactly one side wins: whoever moves
      onto the other either wins, or the reverse move would win. */
  lemma DuelBetweenKnownKinds(a: string, b: string)
    requires Known(a) && Known(b) && a != b
    ensures Duel(a, b) == IncomingWins <==> Duel(b, a) == IncomingLoses
    ensures Duel(a, b) != BothRemoved
  {
  }

  /** A kind outside the table never wins a conflict against a different
      kind, in either role. */
  lemma UnknownKindLoses(a: string, b: string)
    requires a != b && !(Known(a) && Known(b))
    ensures Duel(a, b) == IncomingLoses && Duel(b, a) == IncomingLoses
  {
  }

  /** What the contested cell holds after the conflict: the incoming monster
      when it wins, otherwise nothing. It never holds the resident. */
  function Holder(incoming: Monster, resident: Monster): (c: Cell)
    ensures c.Some? <==> incoming.kind != resident.kind && Beats(incoming.kind, resident.kind)
    ensures c.Some? ==> c.value == incoming
  {
    match Duel(incoming.kind, resident.kind)
    case IncomingWins => Some(incoming)
    case _ => None
  }

  /** The owners whose counter the conflict raises, in the order the source
      raises them: both owners on equal types, the resident's owner when the
      incoming monster wins, and the incoming monster's owner otherwise,
      although then it is the resident that leaves the cell. */
  function Losers(incoming: Monster, resident: Monster): (r: seq<PlayerId>)
    ensures |r| == if incoming.kind == resident.kind then 2 else 1
    ensures incoming.kind == resident.kind ==> r == [incoming.owner, resident.owner]
    ensures Holder(incoming, resident).Some? ==> r == [resident.owner]
    ensures incoming.kind != resident.kind && Holder(incoming, resident).None? ==> r == [incoming.owner]
  {
    match Duel(incoming.kind, resident.kind)
    case BothRemoved => [incoming.owner, resident.owner]
    case IncomingWins => [resident.owner]
    case IncomingLoses => [incoming.owner]
  }
}

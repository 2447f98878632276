/** The 10x10 board of the single match (`gameState.grid` in server.js) as a
    value, the cell write every handler performs, and the geometry rule a
    move has to pass. */
module Board {

  datatype Option<+T> = None | Some(value: T)

  /** Players are identified by their socket id, an opaque string. */
  type PlayerId = string

  /** Side length of the square board. */
  const Size: int := 10

  /** A board coordinate; rows are indexed by `y`, columns by `x`. */
  datatype Pos = Pos(x: int, y: int)

  /** A monster as stored in a cell: the client-chosen `type` string and the
      socket id of the player who placed it. */
  datatype Monster = Monster(kind: string, owner: PlayerId)

  /** A cell is `null` or one monster. */
  type Cell = Option<Monster>

  /** A board snapshot: `Size` rows of `Size` cells, as `io.emit` sends it. */
  type Grid = seq<seq<Cell>>

  predicate OnBoard(p: Pos) {
    0 <= p.x < Size && 0 <= p.y < Size
  }

  predicate WellFormed(g: Grid) {
    |g| == Size && forall y :: 0 <= y < |g| ==> |g[y]| == Size
  }

  /** `grid[p.y][p.x]` */
  function At(g: Grid, p: Pos): Cell
    requires WellFormed(g) && OnBoard(p)
  {
    g[p.y][p.x]
  }

  /** The board every match starts with: ten rows of ten `null`s. */
  function EmptyGrid(): (g: Grid)
    ensures WellFormed(g)
    ensures forall q :: OnBoard(q) ==> At(g, q) == None
  {
    seq(Size, _ => seq(Size, _ => None))
  }

  /** `grid[p.y][p.x] = c`: the written cell holds `c`, every other cell
      keeps its occupant. */
  function Write(g: Grid, p: Pos, c: Cell): (r: Grid)
    requires WellFormed(g) && OnBoard(p)
    ensures WellFormed(r)
    ensures At(r, p) == c
    ensures forall q :: OnBoard(q) && q != p ==> At(r, q) == At(g, q)
  {
    g[p.y := g[p.y][p.x := c]]
  }

  /** A relocation writes the mover at `to` and then clears `from`: the mover
      is on `to` only, `from` is empty and nothing else changes. When `from`
      and `to` coincide the clear comes last, so a zero-length move erases the
      monster. */
  lemma Relocation(g: Grid, from: Pos, to: Pos, m: Monster)
    requires WellFormed(g) && OnBoard(from) && OnBoard(to)
    ensures var r := Write(Write(g, to, Some(m)), from, None);
      At(r, from) == None &&
      (to != from ==> At(r, to) == Some(m)) &&
      forall q :: OnBoard(q) && q != from && q != to ==> At(r, q) == At(g, q)
  {
  }

  function Abs(n: int): nat {
    if n < 0 then -n else n
  }

  /** The eight squares one or two diagonal steps away from `p`. */
  function DiagonalTargets(p: Pos): set<Pos> {
    {Pos(p.x + 1, p.y + 1), Pos(p.x + 1, p.y - 1), Pos(p.x - 1, p.y + 1), Pos(p.x - 1, p.y - 1),
     Pos(p.x + 2, p.y + 2), Pos(p.x + 2, p.y - 2), Pos(p.x - 2, p.y + 2), Pos(p.x - 2, p.y - 2)}
  }

  /** The distance check of a move: along a row or a column at any range, or
      diagonally by at most two squares. It accepts exactly the targets in
      the same column, in the same row, or among the eight short diagonal
      targets. Nothing checks the cells in between. */
  predicate DistanceValid(from: Pos, to: Pos)
    ensures DistanceValid(from, to) <==> from.x == to.x || from.y == to.y || to in DiagonalTargets(from)
  {
    var dx := Abs(from.x - to.x);
    var dy := Abs(from.y - to.y);
    assert dx != 0 && dy != 0 && dx <= 2 && dx == dy ==>
      to == Pos(from.x + (to.x - from.x), from.y + (to.y - from.y));
    dx == 0 || dy == 0 || (dx <= 2 && dy <= 2 && dx == dy)
  }

  /** The distance check does not depend on the direction of the move. */
  lemma DistanceSymmetric(a: Pos, b: Pos)
    ensures DistanceValid(a, b) <==> DistanceValid(b, a)
  {
  }
}

/** The map model: a column-major grid of terrain cells and the roster of
    actors standing on it (the `Map` interface of src/simulation.ts). */
module Board {
  import opened Wrappers
  import opened Geometry

  datatype Cell = Empty | Block | Finish

  datatype Kind = Player | Target | Enemy

  /** One actor. `x` is the column and `y` the row, both counted from 0.
      Health is an unbounded integer: it can drop below zero within one
      actor's step before the dead are removed. */
  datatype Actor = Actor(kind: Kind, health: int, face: Face, x: int, y: int, order: int)

  /** A map snapshot. `grid[x][y]` is the cell in column `x`, row `y`. */
  datatype Map = Map(width: nat, height: nat, grid: seq<seq<Cell>>, actors: seq<Actor>)

  /** The grid has `width` columns of `height` cells each. */
  predicate ValidGrid(m: Map)
  {
    |m.grid| == m.width && forall x :: 0 <= x < |m.grid| ==> |m.grid[x]| == m.height
  }

  predicate InBounds(m: Map, x: int, y: int)
  {
    0 <= x < m.width && 0 <= y < m.height
  }

  predicate IsAt(a: Actor, x: int, y: int)
  {
    a.x == x && a.y == y
  }

  /** The index of the first actor of the roster standing on cell `(x, y)`:
      the actor a `for (const actor of actors)` search with `break` finds. */
  function ActorAt(s: seq<Actor>, x: int, y: int): (r: Option<nat>)
    ensures r.Some? ==> r.value < |s| && IsAt(s[r.value], x, y)
    ensures r.Some? ==> forall j :: 0 <= j < r.value ==> !IsAt(s[j], x, y)
    ensures r.None? <==> forall j :: 0 <= j < |s| ==> !IsAt(s[j], x, y)
  {
    if s == [] then None
    else if IsAt(s[0], x, y) then Some(0)
    else match ActorAt(s[1..], x, y)
      case None => None
      case Some(i) => Some(i + 1)
  }

  /** `actors.some((a) => a.x == x && a.y == y)`. */
  predicate Occupied(s: seq<Actor>, x: int, y: int)
  {
    exists j :: 0 <= j < |s| && IsAt(s[j], x, y)
  }

  /** The index of the first actor with the given order:
      `actors.find((actor) => actor.order == order)`. */
  function IndexOfOrder(s: seq<Actor>, o: int): (r: Option<nat>)
    ensures r.Some? ==> r.value < |s| && s[r.value].order == o
    ensures r.Some? ==> forall j :: 0 <= j < r.value ==> s[j].order != o
    ensures r.None? <==> o !in Orders(s)
  {
    if s == [] then None
    else if s[0].order == o then Some(0)
    else match IndexOfOrder(s[1..], o)
      case None => None
      case Some(i) => Some(i + 1)
  }

  /** The orders of the roster, in roster order: `actors.map((a) => a.order)`. */
  function OrdersOf(s: seq<Actor>): (r: seq<int>)
    ensures |r| == |s| && forall i :: 0 <= i < |s| ==> r[i] == s[i].order
  {
    seq(|s|, i requires 0 <= i < |s| => s[i].order)
  }

  function Orders(s: seq<Actor>): set<int>
  {
    set i | 0 <= i < |s| :: s[i].order
  }

  /** Orders strictly ascend along the roster (so they are also unique). */
  predicate StrictlyAscending(s: seq<Actor>)
  {
    forall i, j :: 0 <= i < j < |s| ==> s[i].order < s[j].order
  }

  predicate UniqueOrders(s: seq<Actor>)
  {
    forall i, j :: 0 <= i < |s| && 0 <= j < |s| && i != j ==> s[i].order != s[j].order
  }

  predicate SameCell(a: Actor, b: Actor)
  {
    a.x == b.x && a.y == b.y
  }

  /** No two actors of the roster stand on the same cell. */
  predicate DistinctCells(s: seq<Actor>)
  {
    forall i, j :: 0 <= i < j < |s| ==> !SameCell(s[i], s[j])
  }

  /** Every actor stands inside the grid, off the blocks, on a cell of its
      own. */
  predicate Separated(m: Map)
    requires ValidGrid(m)
  {
    (forall i :: 0 <= i < |m.actors| ==>
       InBounds(m, m.actors[i].x, m.actors[i].y) && m.grid[m.actors[i].x][m.actors[i].y] != Block) &&
    DistinctCells(m.actors)
  }

  /** The number of living `player` actors:
      `actors.filter((a) => a.type == 'player').length`. */
  function PlayerCount(s: seq<Actor>): (n: nat)
    ensures n <= |s|
    ensures n == 0 <==> forall i :: 0 <= i < |s| ==> s[i].kind != Player
  {
    if s == [] then 0 else (if s[0].kind == Player then 1 else 0) + PlayerCount(s[1..])
  }

  /** The search loop over the roster for the actor on a cell, as the engine
      writes it wherever it looks for one (printing, shooting, probing). */
  method FirstActorAt(s: seq<Actor>, x: int, y: int) returns (r: Option<nat>)
    ensures r == ActorAt(s, x, y)
  {
    var k := 0;
    while k < |s|
      invariant 0 <= k <= |s|
      invariant forall j :: 0 <= j < k ==> !IsAt(s[j], x, y)
    {
      if IsAt(s[k], x, y) {
        return Some(k);
      }
      k := k + 1;
    }
    return None;
  }
}

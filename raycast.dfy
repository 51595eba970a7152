/** The ray the engine casts when an actor shoots (a queued `S`, or an
    enemy's automatic fire): step cell by cell in the shooter's facing until
    the ray leaves the grid, meets a block, or meets an actor; the first
    actor met loses one health point. */
module RayCast {
  import opened Wrappers
  import opened Geometry
  import opened Board

  /** The cell `k` steps ahead of `(x, y)` in facing `f`. */
  function Ahead(x: int, y: int, f: Face, k: int): (int, int)
  {
    match f
    case North => (x, y - k)
    case East => (x + k, y)
    case South => (x, y + k)
    case West => (x - k, y)
  }

  /** Stepping once and then `k - 1` more times is stepping `k` times. */
  lemma AheadFromNext(x: int, y: int, f: Face)
    ensures Ahead(x, y, f, 1) == Move1(x, y, f)
    ensures forall k {:trigger Ahead(x, y, f, k)} ::
      Ahead(x, y, f, k) == Ahead(Move1(x, y, f).0, Move1(x, y, f).1, f, k - 1)
  {
  }

  /** A cell the ray passes through: inside the grid, not a block, and no
      actor on it. */
  predicate Free(m: Map, p: (int, int))
    requires ValidGrid(m)
  {
    InBounds(m, p.0, p.1) && m.grid[p.0][p.1] != Block && ActorAt(m.actors, p.0, p.1).None?
  }

  /** How many more steps in facing `f` stay inside the grid; it bounds every
      scan. */
  function Remaining(m: Map, x: int, y: int, f: Face): nat
  {
    match f
    case North => if y > 0 then y else 0
    case East => if m.width > x then m.width - x else 0
    case South => if m.height > y then m.height - y else 0
    case West => if x > 0 then x else 0
  }

  /** The number of free cells in a row ahead of `(x, y)`: the ray stops at
      the cell after them. */
  function FreeRun(m: Map, x: int, y: int, f: Face): nat
    requires ValidGrid(m)
    decreases Remaining(m, x, y, f)
  {
    var p := Move1(x, y, f);
    if Free(m, p) then 1 + FreeRun(m, p.0, p.1, f) else 0
  }

  /** Every cell of the free run is free, and the cell after it is not. */
  lemma {:induction false} FreeRunFree(m: Map, x: int, y: int, f: Face)
    requires ValidGrid(m)
    ensures var d := FreeRun(m, x, y, f);
      (forall k :: 1 <= k <= d ==> Free(m, Ahead(x, y, f, k))) && !Free(m, Ahead(x, y, f, d + 1))
    decreases Remaining(m, x, y, f)
  {
    var p := Move1(x, y, f);
    AheadFromNext(x, y, f);
    if Free(m, p) {
      FreeRunFree(m, p.0, p.1, f);
    }
  }

  /** The actor on the cell where a ray stops, if the ray stops on an actor
      rather than at the edge or at a block. */
  function StopActor(m: Map, c: (int, int)): Option<nat>
    requires ValidGrid(m)
  {
    if InBounds(m, c.0, c.1) && m.grid[c.0][c.1] != Block then ActorAt(m.actors, c.0, c.1) else None
  }

  /** The bullet loop: the index of the actor the ray from `(x, y)` hits, if
      any. */
  function RayHit(m: Map, x: int, y: int, f: Face): (r: Option<nat>)
    requires ValidGrid(m)
    ensures r.Some? ==> r.value < |m.actors|
    decreases Remaining(m, x, y, f)
  {
    var p := Move1(x, y, f);
    if !InBounds(m, p.0, p.1) then None
    else if m.grid[p.0][p.1] == Block then None
    else match ActorAt(m.actors, p.0, p.1)
      case Some(i) => Some(i)
      case None => RayHit(m, p.0, p.1, f)
  }

  /** The ray hits the first actor on the first non-free cell ahead, and
      nothing when that cell is off the grid or a block. */
  lemma {:induction false} RayHitFirstOnRay(m: Map, x: int, y: int, f: Face)
    requires ValidGrid(m)
    ensures RayHit(m, x, y, f) == StopActor(m, Ahead(x, y, f, FreeRun(m, x, y, f) + 1))
    decreases Remaining(m, x, y, f)
  {
    var p := Move1(x, y, f);
    AheadFromNext(x, y, f);
    if Free(m, p) {
      RayHitFirstOnRay(m, p.0, p.1, f);
    }
  }

  /** A ray never hits an actor standing where it starts: the shooter
      cannot hit itself. */
  lemma RayMissesOrigin(m: Map, x: int, y: int, f: Face)
    requires ValidGrid(m)
    ensures RayHit(m, x, y, f).Some? ==> !IsAt(m.actors[RayHit(m, x, y, f).value], x, y)
  {
    RayHitFirstOnRay(m, x, y, f);
  }

  /** A shot from `(x, y)` in facing `f`: the hit actor loses one health point. */
  function Fire(m: Map, x: int, y: int, f: Face): Map
    requires ValidGrid(m)
  {
    match RayHit(m, x, y, f)
    case Some(j) => m.(actors := m.actors[j := m.actors[j].(health := m.actors[j].health - 1)])
    case None => m
  }

  /** A shot changes only the health of the first actor on the ray, by
      exactly one; a ray that leaves the grid or meets a block changes
      nothing. No position, facing, grid cell or roster entry changes. */
  lemma FireEffect(m: Map, x: int, y: int, f: Face)
    requires ValidGrid(m)
    ensures var r := Fire(m, x, y, f);
      r.width == m.width && r.height == m.height && r.grid == m.grid && |r.actors| == |m.actors| &&
      forall i :: 0 <= i < |m.actors| ==> r.actors[i] == m.actors[i].(health := r.actors[i].health)
    ensures var hit := StopActor(m, Ahead(x, y, f, FreeRun(m, x, y, f) + 1));
      (hit.None? ==> Fire(m, x, y, f) == m) &&
      (hit.Some? ==>
         Fire(m, x, y, f).actors[hit.value].health == m.actors[hit.value].health - 1 &&
         forall i :: 0 <= i < |m.actors| && i != hit.value ==> Fire(m, x, y, f).actors[i] == m.actors[i])
  {
    RayHitFirstOnRay(m, x, y, f);
  }

  /** The bullet loop as the engine runs it. */
  method FireRay(m: Map, x: int, y: int, f: Face) returns (r: Map)
    requires ValidGrid(m)
    ensures r == Fire(m, x, y, f)
  {
    var pos := (x, y);
    while true
      invariant RayHit(m, pos.0, pos.1, f) == RayHit(m, x, y, f)
      decreases Remaining(m, pos.0, pos.1, f)
    {
      pos := Move1(pos.0, pos.1, f);
      if pos.0 < 0 || pos.1 < 0 || pos.0 >= m.width || pos.1 >= m.height {
        return m;
      }
      if m.grid[pos.0][pos.1] == Block {
        return m;
      }
      var hit := FirstActorAt(m.actors, pos.0, pos.1);
      if hit.Some? {
        var j := hit.value;
        return m.(actors := m.actors[j := m.actors[j].(health := m.actors[j].health - 1)]);
      }
    }
  }
}

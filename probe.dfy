/** The probe reporter: what a player "sees" in each of four directions. */
module Probe {
  import opened Wrappers
  import opened Geometry
  import opened Text
  import opened Board
  import opened RayCast

  /** One probe result before it is written out: the obstacle prefix, the
      number of free cells passed, and where a finish cell was seen. */
  datatype Reading = Reading(prefix: string, distance: nat, finish: Option<nat>)

  /** `E` for a target or an enemy, `P` for a player. */
  function PrefixOf(k: Kind): string
  {
    match k
    case Player => "P"
    case Target => "E"
    case Enemy => "E"
  }

  /** The probe loop from `(x, y)` having passed `distance` free cells, with
      `finish` the distance recorded at the latest finish cell so far. */
  function Scan(m: Map, f: Face, x: int, y: int, distance: nat, finish: Option<nat>): Reading
    requires ValidGrid(m)
    decreases Remaining(m, x, y, f)
  {
    var p := Move1(x, y, f);
    if !InBounds(m, p.0, p.1) then Reading("", distance, finish)
    else if m.grid[p.0][p.1] == Block then Reading("", distance, finish)
    else
      var finish' := if m.grid[p.0][p.1] == Finish then Some(distance) else finish;
      match ActorAt(m.actors, p.0, p.1)
      case Some(i) => Reading(PrefixOf(m.actors[i].kind), distance, finish')
      case None => Scan(m, f, p.0, p.1, distance + 1, finish')
  }

  function ProbeReading(m: Map, f: Face, x: int, y: int): Reading
    requires ValidGrid(m)
  {
    Scan(m, f, x, y, 0, None)
  }

  /** The written form: prefix, distance, and `/F<k>` when a finish was seen. */
  function ReadingText(r: Reading): string
  {
    var base := r.prefix + NatToString(r.distance);
    if r.finish.Some? then base + "/F" + NatToString(r.finish.value) else base
  }

  /** An in-bounds finish cell. */
  predicate FinishAt(m: Map, p: (int, int))
    requires ValidGrid(m)
  {
    InBounds(m, p.0, p.1) && m.grid[p.0][p.1] == Finish
  }

  /** The prefix a probe reports for the cell where it stops. */
  function StopPrefix(m: Map, c: (int, int)): string
    requires ValidGrid(m)
  {
    match StopActor(m, c)
    case Some(i) => PrefixOf(m.actors[i].kind)
    case None => ""
  }

  /** Among the first `n` cells ahead, the number of cells before the last
      finish cell, if there is one. */
  function LastFinish(m: Map, x: int, y: int, f: Face, n: nat): Option<nat>
    requires ValidGrid(m)
  {
    if n == 0 then None
    else if FinishAt(m, Ahead(x, y, f, n)) then Some(n - 1)
    else LastFinish(m, x, y, f, n - 1)
  }

  /** The marker names a finish cell among the first `n` with no finish
      after it, and there is none exactly when none of them is a finish. */
  lemma {:induction false} LastFinishFacts(m: Map, x: int, y: int, f: Face, n: nat)
    requires ValidGrid(m)
    ensures var r := LastFinish(m, x, y, f, n);
      r.Some? ==> r.value < n && FinishAt(m, Ahead(x, y, f, r.value + 1)) &&
                  forall j :: r.value + 1 < j <= n ==> !FinishAt(m, Ahead(x, y, f, j))
    ensures var r := LastFinish(m, x, y, f, n);
      r.None? <==> forall j :: 1 <= j <= n ==> !FinishAt(m, Ahead(x, y, f, j))
  {
    if n > 0 && !FinishAt(m, Ahead(x, y, f, n)) {
      LastFinishFacts(m, x, y, f, n - 1);
    }
  }

  /** The marker a scan holds after looking at the next cell: the marker seen
      further on, shifted by that cell, or that cell itself. */
  function Shifted(later: Option<nat>, here: bool): Option<nat>
  {
    match later
    case Some(k) => Some(k + 1)
    case None => if here then Some(0) else None
  }

  /** Looking `n + 1` cells ahead is looking at the next cell and then `n`
      cells ahead of it. */
  lemma {:induction false} LastFinishFromNext(m: Map, x: int, y: int, f: Face, n: nat)
    requires ValidGrid(m)
    ensures var p := Move1(x, y, f);
      LastFinish(m, x, y, f, n + 1) == Shifted(LastFinish(m, p.0, p.1, f, n), FinishAt(m, p))
  {
    var p := Move1(x, y, f);
    AheadFromNext(x, y, f);
    if n > 0 {
      LastFinishFromNext(m, x, y, f, n - 1);
      assert Ahead(x, y, f, n + 1) == Ahead(p.0, p.1, f, n);
    }
  }

  /** The marker a scan that has passed `distance` cells ends with, given the
      last finish ahead of it and the marker it started with. */
  function Marker(last: Option<nat>, distance: nat, finish: Option<nat>): Option<nat>
  {
    match last
    case Some(k) => Some(distance + k)
    case None => finish
  }

  /** A scan from a free next cell is the scan from that cell. */
  lemma ScanStep(m: Map, f: Face, x: int, y: int, distance: nat, finish: Option<nat>)
    requires ValidGrid(m)
    requires Free(m, Move1(x, y, f))
    ensures var p := Move1(x, y, f);
      var finish' := if m.grid[p.0][p.1] == Finish then Some(distance) else finish;
      Scan(m, f, x, y, distance, finish) == Scan(m, f, p.0, p.1, distance + 1, finish') &&
      FreeRun(m, x, y, f) == 1 + FreeRun(m, p.0, p.1, f)
  {
  }

  /** A scan adds the free run ahead to the distance and stops with the
      prefix of the stop cell. */
  lemma {:induction false} ScanDistance(m: Map, f: Face, x: int, y: int, distance: nat, finish: Option<nat>)
    requires ValidGrid(m)
    ensures var r := Scan(m, f, x, y, distance, finish);
      var d := FreeRun(m, x, y, f);
      r.distance == distance + d && r.prefix == StopPrefix(m, Ahead(x, y, f, d + 1))
    decreases Remaining(m, x, y, f)
  {
    var p := Move1(x, y, f);
    AheadFromNext(x, y, f);
    if Free(m, p) {
      var finish' := if m.grid[p.0][p.1] == Finish then Some(distance) else finish;
      ScanStep(m, f, x, y, distance, finish);
      ScanDistance(m, f, p.0, p.1, distance + 1, finish');
    }
  }

  lemma MarkerShift(later: Option<nat>, here: bool, distance: nat, finish: Option<nat>)
    ensures Marker(Shifted(later, here), distance, finish) ==
            Marker(later, distance + 1, if here then Some(distance) else finish)
  {
  }

  /** A scan records the distance at the last finish cell up to the stop
      cell, and keeps the old marker when there is none. */
  lemma {:induction false} ScanFinish(m: Map, f: Face, x: int, y: int, distance: nat, finish: Option<nat>)
    requires ValidGrid(m)
    ensures Scan(m, f, x, y, distance, finish).finish ==
      Marker(LastFinish(m, x, y, f, FreeRun(m, x, y, f) + 1), distance, finish)
    decreases Remaining(m, x, y, f)
  {
    var p := Move1(x, y, f);
    if Free(m, p) {
      var finish' := if m.grid[p.0][p.1] == Finish then Some(distance) else finish;
      ScanStep(m, f, x, y, distance, finish);
      ScanFinish(m, f, p.0, p.1, distance + 1, finish');
      ScanFinishStep(m, f, x, y, distance, finish);
    } else {
      ScanFinishStop(m, f, x, y, distance, finish);
    }
  }

  /** The marker of a scan that passes a free next cell follows from the
      marker of the scan from that cell. */
  lemma ScanFinishStep(m: Map, f: Face, x: int, y: int, distance: nat, finish: Option<nat>)
    requires ValidGrid(m)
    requires Free(m, Move1(x, y, f))
    requires var p := Move1(x, y, f);
      var finish' := if m.grid[p.0][p.1] == Finish then Some(distance) else finish;
      Scan(m, f, p.0, p.1, distance + 1, finish').finish ==
      Marker(LastFinish(m, p.0, p.1, f, FreeRun(m, p.0, p.1, f) + 1), distance + 1, finish')
    ensures Scan(m, f, x, y, distance, finish).finish ==
      Marker(LastFinish(m, x, y, f, FreeRun(m, x, y, f) + 1), distance, finish)
  {
    var p := Move1(x, y, f);
    var finish' := if m.grid[p.0][p.1] == Finish then Some(distance) else finish;
    ScanStep(m, f, x, y, distance, finish);
    var d := FreeRun(m, x, y, f);
    LastFinishFromNext(m, x, y, f, d);
    var later := LastFinish(m, p.0, p.1, f, d);
    assert FinishAt(m, p) == (m.grid[p.0][p.1] == Finish);
    MarkerShift(later, FinishAt(m, p), distance, finish);
  }

  /** A scan that stops at the next cell records a finish there, if any. */
  lemma ScanFinishStop(m: Map, f: Face, x: int, y: int, distance: nat, finish: Option<nat>)
    requires ValidGrid(m)
    requires !Free(m, Move1(x, y, f))
    ensures Scan(m, f, x, y, distance, finish).finish ==
      Marker(LastFinish(m, x, y, f, FreeRun(m, x, y, f) + 1), distance, finish)
  {
    var p := Move1(x, y, f);
    AheadFromNext(x, y, f);
    assert FreeRun(m, x, y, f) == 0;
    assert LastFinish(m, x, y, f, 1) == if FinishAt(m, p) then Some(0) else None;
  }

  /** A probe's distance is the number of free cells before the ray stops;
      its prefix names the actor it stops on (empty at a block or the edge);
      it reports a finish exactly when one lies among the cells up to the
      stop cell, and then the finish is the last such cell, given as the
      number of free cells before it. */
  lemma ProbeReadingFacts(m: Map, f: Face, x: int, y: int)
    requires ValidGrid(m)
    ensures var r := ProbeReading(m, f, x, y);
      var d := FreeRun(m, x, y, f);
      r.distance == d &&
      r.prefix == StopPrefix(m, Ahead(x, y, f, d + 1)) &&
      r.finish == LastFinish(m, x, y, f, d + 1)
  {
    ScanDistance(m, f, x, y, 0, None);
    ScanFinish(m, f, x, y, 0, None);
  }

  /** `probe` as the engine runs it. */
  method Probe(m: Map, f: Face, x: int, y: int) returns (output: string)
    requires ValidGrid(m)
    ensures output == ReadingText(ProbeReading(m, f, x, y))
  {
    var finishTile := -1;
    var prefix := "";
    var distance := 0;
    var pos := (x, y);
    while true
      invariant -1 <= finishTile
      invariant Scan(m, f, pos.0, pos.1, distance, if finishTile >= 0 then Some(finishTile) else None)
                == ProbeReading(m, f, x, y)
      invariant prefix == ""
      decreases Remaining(m, pos.0, pos.1, f)
    {
      pos := Move1(pos.0, pos.1, f);
      if pos.0 < 0 || pos.1 < 0 || pos.0 >= m.width || pos.1 >= m.height {
        break;
      }
      if m.grid[pos.0][pos.1] == Block {
        break;
      }
      if m.grid[pos.0][pos.1] == Finish {
        finishTile := distance;
      }
      var hit := FirstActorAt(m.actors, pos.0, pos.1);
      if hit.Some? {
        prefix := PrefixOf(m.actors[hit.value].kind);
        break;
      }
      distance := distance + 1;
    }
    output := prefix;
    output := output + NatToString(distance);
    if finishTile >= 0 {
      output := output + "/F" + NatToString(finishTile);
    }
  }

  /** The four readings of an actor, in the order they are reported. */
  datatype Readings = Readings(front: Reading, back: Reading, left: Reading, right: Reading)

  function ReadingsOf(m: Map, a: Actor): Readings
    requires ValidGrid(m)
  {
    Readings(ProbeReading(m, a.face, a.x, a.y),
             ProbeReading(m, RotateCW(RotateCW(a.face)), a.x, a.y),
             ProbeReading(m, RotateCCW(a.face), a.x, a.y),
             ProbeReading(m, RotateCW(a.face), a.x, a.y))
  }

  function ReadingsText(r: Readings): string
  {
    "front: " + ReadingText(r.front) + " back: " + ReadingText(r.back) +
    " left: " + ReadingText(r.left) + " right: " + ReadingText(r.right)
  }

  /** `getProbeString`: the report for the first actor with this order, and
      nothing when no actor has it. */
  function ProbeString(m: Map, order: int): (r: Option<string>)
    requires ValidGrid(m)
    ensures r.None? <==> order !in Orders(m.actors)
    ensures r.Some? ==> exists i :: 0 <= i < |m.actors| && m.actors[i].order == order &&
                                     r.value == ReadingsText(ReadingsOf(m, m.actors[i]))
  {
    match IndexOfOrder(m.actors, order)
    case Some(i) => Some(ReadingsText(ReadingsOf(m, m.actors[i])))
    case None => None
  }

  /** `getProbeString` as the engine runs it: four probes, concatenated. */
  method GetProbeString(m: Map, order: int) returns (r: Option<string>)
    requires ValidGrid(m)
    ensures r == ProbeString(m, order)
  {
    var found := IndexOfOrder(m.actors, order);
    if found.None? {
      return None;
    }
    var player := m.actors[found.value];
    var front := Probe(m, player.face, player.x, player.y);
    var back := Probe(m, RotateCW(RotateCW(player.face)), player.x, player.y);
    var left := Probe(m, RotateCW(RotateCW(RotateCW(player.face))), player.x, player.y);
    var right := Probe(m, RotateCW(player.face), player.x, player.y);
    r := Some("front: " + front + " back: " + back + " left: " + left + " right: " + right);
  }

  /** Left, back and right are the front readings after turning left, turning
      twice and turning right. */
  lemma ReadingsTurn(m: Map, a: Actor)
    requires ValidGrid(m)
    ensures ReadingsOf(m, a).left == ReadingsOf(m, a.(face := RotateCCW(a.face))).front
    ensures ReadingsOf(m, a).right == ReadingsOf(m, a.(face := RotateCW(a.face))).front
    ensures ReadingsOf(m, a).back == ReadingsOf(m, a.(face := RotateCW(RotateCW(a.face)))).front
    ensures ReadingsOf(m, a).front == ReadingsOf(m, a.(face := RotateCW(a.face))).left
  {
    RotateCCWInvertsCW(a.face);
  }

  /** A row `_ _ f` probed east from its first cell: two free cells, and the
      finish cell lies after one free cell. */
  lemma FinishExample()
    ensures var m := Map(3, 1, [[Empty], [Empty], [Finish]], []);
      ValidGrid(m) && ReadingText(ProbeReading(m, East, 0, 0)) == "2/F1"
  {
    var m := Map(3, 1, [[Empty], [Empty], [Finish]], []);
    assert ProbeReading(m, East, 0, 0) == Reading("", 2, Some(1)) by {
      assert Scan(m, East, 2, 0, 2, Some(1)) == Reading("", 2, Some(1));
      assert Scan(m, East, 1, 0, 1, None) == Scan(m, East, 2, 0, 2, Some(1));
      assert Scan(m, East, 0, 0, 0, None) == Scan(m, East, 1, 0, 1, None);
    }
    assert NatToString(2) == "2";
    assert NatToString(1) == "1";
  }
}

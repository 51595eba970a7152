/** What one action, one actor's step, one turn and a whole run do. */
module SimulationProofs {
  import opened Wrappers
  import opened Geometry
  import opened Board
  import opened RayCast
  import opened Probe
  import opened Simulation
  import opened Codec
  import opened CodecProofs

  // ---------------------------------------------------------------------
  // Single actions

  /** `r` differs from `m` at most in actor `i`. */
  predicate OnlyActorChanged(m: Map, r: Map, i: nat)
  {
    r.width == m.width && r.height == m.height && r.grid == m.grid && |r.actors| == |m.actors| &&
    forall j :: 0 <= j < |m.actors| && j != i ==> r.actors[j] == m.actors[j]
  }

  /** Two maps on the same grid whose rosters hold the same positions. */
  predicate SamePositions(m: Map, r: Map)
  {
    r.width == m.width && r.height == m.height && r.grid == m.grid && |r.actors| == |m.actors| &&
    forall j :: 0 <= j < |m.actors| ==> IsAt(r.actors[j], m.actors[j].x, m.actors[j].y)
  }

  /** `L` and `R` change only the acting actor's facing, by a quarter turn. */
  lemma TurnsChangeOnlyFace(m: Map, i: nat)
    requires ValidGrid(m)
    requires i < |m.actors|
    ensures Resolve(m, i, TurnRight).Some? && Resolve(m, i, TurnLeft).Some?
    ensures var r := Resolve(m, i, TurnRight).value;
      OnlyActorChanged(m, r, i) && r.actors[i] == m.actors[i].(face := RotateCW(m.actors[i].face))
    ensures var l := Resolve(m, i, TurnLeft).value;
      OnlyActorChanged(m, l, i) && l.actors[i] == m.actors[i].(face := RotateCCW(m.actors[i].face))
  {
  }

  /** `L` undoes `R`, and `R` undoes `L`. */
  lemma LeftUndoesRight(m: Map, i: nat)
    requires ValidGrid(m)
    requires i < |m.actors|
    ensures Resolve(m, i, TurnRight).Some? && Resolve(Resolve(m, i, TurnRight).value, i, TurnLeft) == Some(m)
    ensures Resolve(m, i, TurnLeft).Some? && Resolve(Resolve(m, i, TurnLeft).value, i, TurnRight) == Some(m)
  {
    var a := m.actors[i];
    RotateCCWInvertsCW(a.face);
    assert m.actors[i := a.(face := RotateCW(a.face))][i := a] == m.actors;
    assert m.actors[i := a.(face := RotateCCW(a.face))][i := a] == m.actors;
  }

  /** `M`: a move off the grid crashes; onto a block or an occupied cell it
      costs the mover one health point and leaves it in place; onto a free
      cell it moves the mover there with its health and facing unchanged.
      Nobody else changes. */
  lemma MoveOutcome(m: Map, i: nat)
    requires ValidGrid(m)
    requires i < |m.actors|
    ensures var a := m.actors[i];
      var p := Move1(a.x, a.y, a.face);
      var r := Resolve(m, i, Move);
      (r.None? <==> !InBounds(m, p.0, p.1)) &&
      (r.Some? ==>
         OnlyActorChanged(m, r.value, i) &&
         r.value.actors[i].kind == a.kind && r.value.actors[i].face == a.face &&
         r.value.actors[i].order == a.order) &&
      (r.Some? && !Free(m, p) ==>
         r.value.actors[i].health == a.health - 1 && IsAt(r.value.actors[i], a.x, a.y)) &&
      (r.Some? && Free(m, p) ==>
         r.value.actors[i].health == a.health && IsAt(r.value.actors[i], p.0, p.1))
  {
    var a := m.actors[i];
    var p := Move1(a.x, a.y, a.face);
    if InBounds(m, p.0, p.1) {
      assert Occupied(m.actors, p.0, p.1) <==> ActorAt(m.actors, p.0, p.1).Some?;
    }
  }

  /** `S` fires the actor's ray; the shot never hits the shooter. `W`
      changes nothing. */
  lemma ShootAndWait(m: Map, i: nat)
    requires ValidGrid(m)
    requires i < |m.actors|
    ensures var a := m.actors[i];
      Resolve(m, i, Shoot) == Some(Fire(m, a.x, a.y, a.face)) &&
      Resolve(m, i, Shoot).value.actors[i] == a
    ensures Resolve(m, i, Wait) == Some(m)
  {
    var a := m.actors[i];
    FireEffect(m, a.x, a.y, a.face);
    RayMissesOrigin(m, a.x, a.y, a.face);
  }

  /** An enemy's automatic fire is its shot, and it turns nobody, even
      when it misses; any other actor does not fire. */
  lemma EnemyFireFacts(m: Map, i: nat)
    requires ValidGrid(m)
    requires i < |m.actors|
    ensures var a := m.actors[i];
      var r := EnemyFire(m, i);
      (a.kind == Enemy ==> r == Fire(m, a.x, a.y, a.face)) &&
      (a.kind != Enemy ==> r == m) &&
      SamePositions(m, r) &&
      forall j :: 0 <= j < |m.actors| ==> r.actors[j].face == m.actors[j].face
  {
    var a := m.actors[i];
    FireEffect(m, a.x, a.y, a.face);
  }

  // ---------------------------------------------------------------------
  // Removing the dead

  /** The orders of the survivors were orders of the roster. */
  lemma RemoveDeadOrders(s: seq<Actor>)
    ensures Orders(RemoveDead(s)) <= Orders(s)
  {
    var r := RemoveDead(s);
    forall o | o in Orders(r) ensures o in Orders(s) {
      var k :| 0 <= k < |r| && r[k].order == o;
      assert r[k] in s;
      var j :| 0 <= j < |s| && s[j] == r[k];
    }
  }

  /** Survivors of a roster whose actors stand on distinct cells stand on
      distinct cells. */
  lemma {:induction false} RemoveDeadDistinct(s: seq<Actor>)
    requires DistinctCells(s)
    ensures DistinctCells(RemoveDead(s))
  {
    if s != [] {
      DistinctTail(s);
      RemoveDeadDistinct(s[1..]);
      if s[0].health > 0 {
        DistinctHead(s);
        DistinctPrepend(s[0], RemoveDead(s[1..]), s[1..]);
        assert RemoveDead(s) == [s[0]] + RemoveDead(s[1..]);
      } else {
        assert RemoveDead(s) == RemoveDead(s[1..]);
      }
    }
  }

  lemma DistinctTail(s: seq<Actor>)
    requires s != [] && DistinctCells(s)
    ensures DistinctCells(s[1..])
  {
    forall i, j | 0 <= i < j < |s[1..]| ensures !SameCell(s[1..][i], s[1..][j]) {
      assert s[1..][i] == s[i + 1] && s[1..][j] == s[j + 1];
    }
  }

  /** The head of a roster on distinct cells shares a cell with nobody behind it. */
  lemma DistinctHead(s: seq<Actor>)
    requires s != [] && DistinctCells(s)
    ensures forall b :: b in s[1..] ==> !SameCell(s[0], b)
  {
    forall b | b in s[1..] ensures !SameCell(s[0], b) {
      var k :| 0 <= k < |s[1..]| && s[1..][k] == b;
      assert s[k + 1] == b;
    }
  }

  /** An actor apart from every actor of `pool` can go in front of a roster
      on distinct cells drawn from `pool`. */
  lemma DistinctPrepend(a: Actor, rest: seq<Actor>, pool: seq<Actor>)
    requires DistinctCells(rest)
    requires forall b :: b in rest ==> b in pool
    requires forall b :: b in pool ==> !SameCell(a, b)
    ensures DistinctCells([a] + rest)
  {
    forall i, j | 0 <= i < j < |rest| + 1 ensures !SameCell(([a] + rest)[i], ([a] + rest)[j]) {
      assert ([a] + rest)[j] == rest[j - 1];
      if i > 0 {
        assert ([a] + rest)[i] == rest[i - 1];
      }
    }
  }

  /** Clearing the dead keeps every actor on its own cell. */
  lemma RemoveDeadSeparated(m: Map)
    requires ValidGrid(m)
    requires Separated(m)
    ensures Separated(m.(actors := RemoveDead(m.actors)))
  {
    var r := RemoveDead(m.actors);
    RemoveDeadDistinct(m.actors);
    forall i | 0 <= i < |r|
      ensures InBounds(m, r[i].x, r[i].y) && m.grid[r[i].x][r[i].y] != Block
    {
      assert r[i] in m.actors;
      var k :| 0 <= k < |m.actors| && m.actors[k] == r[i];
    }
  }

  // ---------------------------------------------------------------------
  // One actor's step

  lemma SamePositionsSeparated(m: Map, r: Map)
    requires ValidGrid(m)
    requires SamePositions(m, r)
    requires Separated(m)
    ensures ValidGrid(r) && Separated(r)
  {
  }

  /** Orders and kinds sit where they were. */
  predicate SameRoster(m: Map, r: Map)
  {
    |r.actors| == |m.actors| &&
    forall j :: 0 <= j < |m.actors| ==> r.actors[j].order == m.actors[j].order && r.actors[j].kind == m.actors[j].kind
  }

  /** A shot moves nobody and renames nobody. */
  lemma FireKeepsRoster(m: Map, x: int, y: int, f: Face)
    requires ValidGrid(m)
    ensures SamePositions(m, Fire(m, x, y, f)) && SameRoster(m, Fire(m, x, y, f))
  {
    FireEffect(m, x, y, f);
  }

  /** An action never changes an order or a kind, and keeps every actor on
      its own cell. */
  lemma ResolveKeepsRoster(m: Map, i: nat, act: Action)
    requires ValidGrid(m)
    requires i < |m.actors|
    ensures Resolve(m, i, act).Some? ==> SameRoster(m, Resolve(m, i, act).value)
    ensures Resolve(m, i, act).Some? && Separated(m) ==> Separated(Resolve(m, i, act).value)
  {
    var a := m.actors[i];
    match act
    case Shoot =>
      FireKeepsRoster(m, a.x, a.y, a.face);
      if Separated(m) {
        SamePositionsSeparated(m, Fire(m, a.x, a.y, a.face));
      }
    case Move =>
      MoveOutcome(m, i);
      var p := Move1(a.x, a.y, a.face);
      if Resolve(m, i, Move).Some? && Separated(m) {
        var r := Resolve(m, i, Move).value;
        if Free(m, p) {
          forall j, k | 0 <= j < k < |r.actors| ensures !SameCell(r.actors[j], r.actors[k]) {
            if j == i {
              assert !IsAt(m.actors[k], p.0, p.1);
            } else if k == i {
              assert !IsAt(m.actors[j], p.0, p.1);
            }
          }
        } else {
          assert SamePositions(m, r);
          SamePositionsSeparated(m, r);
        }
      }
    case TurnLeft =>
    case TurnRight =>
    case Wait =>
  }

  /** The end of a step keeps orders and cells apart and leaves only the
      living, drawn from the roster. */
  lemma SettleFacts(m: Map, i: nat)
    requires ValidGrid(m)
    requires i < |m.actors|
    ensures var r := Settle(m, i);
      |r.actors| <= |m.actors| && Orders(r.actors) <= Orders(m.actors) &&
      (Separated(m) ==> ValidGrid(r) && Separated(r))
  {
    var a := m.actors[i];
    FireKeepsRoster(m, a.x, a.y, a.face);
    var f := EnemyFire(m, i);
    assert SamePositions(m, f) && SameRoster(m, f);
    assert Orders(f.actors) == Orders(m.actors) by {
      forall o | o in Orders(f.actors) ensures o in Orders(m.actors) {
        var k :| 0 <= k < |f.actors| && f.actors[k].order == o;
      }
      forall o | o in Orders(m.actors) ensures o in Orders(f.actors) {
        var k :| 0 <= k < |m.actors| && m.actors[k].order == o;
      }
    }
    RemoveDeadOrders(f.actors);
    if Separated(m) {
      SamePositionsSeparated(m, f);
      RemoveDeadSeparated(f);
    }
  }

  /** The step of an actor no longer on the roster changes nothing and
      records nothing: a removed actor is skipped. */
  lemma AbsentActorSkipped(m: Map, pas: seq<PlayerAction>, t: nat, o: int)
    requires ValidGrid(m)
    requires o !in Orders(m.actors)
    ensures ActorStep(m, pas, t, o) == Stepped(m, None)
  {
  }

  /** After a step only the living remain, the roster does not grow, no
      order appears that was not there, and every actor keeps a cell of its
      own. */
  lemma StepFacts(m: Map, pas: seq<PlayerAction>, t: nat, o: int)
    requires ValidGrid(m)
    ensures var r := ActorStep(m, pas, t, o);
      r.Stepped? ==>
        (forall a :: a in r.board.actors ==> a.health > 0 || o !in Orders(m.actors)) &&
        |r.board.actors| <= |m.actors| && Orders(r.board.actors) <= Orders(m.actors) &&
        (Separated(m) ==> ValidGrid(r.board) && Separated(r.board))
  {
    match IndexOfOrder(m.actors, o)
    case None =>
    case Some(i) =>
      var q := QueueOf(pas, o);
      if q.Some? && |q.value| > t {
        ResolveKeepsRoster(m, i, q.value[t]);
        var m1 := Resolve(m, i, q.value[t]);
        if m1.Some? {
          SettleFacts(m1.value, i);
          assert Orders(m1.value.actors) == Orders(m.actors) by {
            forall o' | o' in Orders(m1.value.actors) ensures o' in Orders(m.actors) {
              var k :| 0 <= k < |m1.value.actors| && m1.value.actors[k].order == o';
            }
            forall o' | o' in Orders(m.actors) ensures o' in Orders(m1.value.actors) {
              var k :| 0 <= k < |m.actors| && m.actors[k].order == o';
            }
          }
        }
      } else {
        SettleFacts(m, i);
      }
  }

  /** A step records an entry exactly when the actor is on the roster and its
      queue is longer than the turn index; the entry holds its queued action,
      and its health and probe report as they were before it acted. */
  lemma StepEntry(m: Map, pas: seq<PlayerAction>, t: nat, o: int)
    requires ValidGrid(m)
    ensures var r := ActorStep(m, pas, t, o);
      var q := QueueOf(pas, o);
      r.Stepped? ==> (r.entry.Some? <==> o in Orders(m.actors) && q.Some? && t < |q.value|)
    ensures var r := ActorStep(m, pas, t, o);
      var q := QueueOf(pas, o);
      r.Stepped? && r.entry.Some? ==>
        o in Orders(m.actors) && q.Some? && t < |q.value| &&
        r.entry.value.action == q.value[t] &&
        r.entry.value.health == m.actors[IndexOfOrder(m.actors, o).value].health &&
        ProbeString(m, o) == Some(r.entry.value.probes)
  {
  }

  /** A step crashes exactly when the actor's queued action is a move whose
      target cell lies off the grid. */
  lemma StepCrash(m: Map, pas: seq<PlayerAction>, t: nat, o: int)
    requires ValidGrid(m)
    ensures ActorStep(m, pas, t, o).StepCrashed? <==>
      IndexOfOrder(m.actors, o).Some? && QueueOf(pas, o).Some? && t < |QueueOf(pas, o).value| &&
      QueueOf(pas, o).value[t] == Move &&
      var a := m.actors[IndexOfOrder(m.actors, o).value];
      !InBounds(m, Move1(a.x, a.y, a.face).0, Move1(a.x, a.y, a.face).1)
  {
    match IndexOfOrder(m.actors, o)
    case None =>
    case Some(i) =>
      var q := QueueOf(pas, o);
      if q.Some? && |q.value| > t {
        ResolveCrash(m, i, q.value[t]);
      }
  }

  /** Only a move off the grid fails to resolve. */
  lemma ResolveCrash(m: Map, i: nat, act: Action)
    requires ValidGrid(m)
    requires i < |m.actors|
    ensures var a := m.actors[i];
      Resolve(m, i, act).None? <==> act == Move && !InBounds(m, Move1(a.x, a.y, a.face).0, Move1(a.x, a.y, a.face).1)
  {
  }

  // ---------------------------------------------------------------------
  // A turn

  /** Over a turn the roster only shrinks, with no new orders, and every
      actor keeps a cell of its own. */
  lemma {:induction false} RunActorsFacts(m: Map, pas: seq<PlayerAction>, t: nat, orders: seq<int>,
                                          rec: map<int, PlayerTurnData>)
    requires ValidGrid(m)
    ensures var r := RunActors(m, pas, t, orders, rec);
      r.TurnDone? ==>
        |r.board.actors| <= |m.actors| && Orders(r.board.actors) <= Orders(m.actors) &&
        (Separated(m) ==> ValidGrid(r.board) && Separated(r.board))
    decreases |orders|
  {
    if |orders| > 0 {
      StepFacts(m, pas, t, orders[0]);
      match ActorStep(m, pas, t, orders[0])
      case StepCrashed =>
      case Stepped(m', e) =>
        RunActorsFacts(m', pas, t, orders[1..], if e.Some? then rec[orders[0] := e.value] else rec);
    }
  }

  // ---------------------------------------------------------------------
  // A run

  /** A recorded map on the run's grid. */
  predicate SameGrid(m: Map, b: Map)
  {
    b.grid == m.grid && b.width == m.width && b.height == m.height
  }

  /** Turn `k` of `ts` ran from its recorded map to the next recorded map,
      recorded an entry, and lost no friendly player. */
  predicate Chained(pas: seq<PlayerAction>, ts: seq<Turn>, k: nat)
    requires k + 1 < |ts|
  {
    ValidGrid(ts[k].board) &&
    RunTurn(ts[k].board, pas, k) == TurnDone(ts[k + 1].board, ts[k].player) &&
    |ts[k].player| > 0 && PlayerCount(ts[k + 1].board.actors) >= |pas|
  }

  /** How the last recorded turn ended the run: it ran to completion, and
      either a friendly player had died or nobody had a queued action. */
  predicate FinalTurn(pas: seq<PlayerAction>, ts: seq<Turn>, message: string)
  {
    |ts| > 0 && ValidGrid(ts[|ts| - 1].board) &&
    var last := RunTurn(ts[|ts| - 1].board, pas, |ts| - 1);
    last.TurnDone? && last.player == ts[|ts| - 1].player &&
    (if PlayerCount(last.board.actors) < |pas| then message == "Friendly player died"
     else |last.player| == 0 && message == "")
  }

  /** One turn of a run: a crash ends it, a lost friendly player or a turn
      without entries ends it after recording the turn, and otherwise the run
      goes on from the new map with the turn recorded. */
  lemma RunFromStep(m: Map, pas: seq<PlayerAction>, turns: seq<Turn>)
    requires ValidGrid(m)
    requires |turns| <= MaxQueue(pas)
    ensures var r := RunTurn(m, pas, |turns|);
      r.TurnCrashed? ==> RunFrom(m, pas, turns) == Crashed
    ensures var r := RunTurn(m, pas, |turns|);
      r.TurnDone? && PlayerCount(r.board.actors) < |pas| ==>
        RunFrom(m, pas, turns) ==
        Completed(SimulationResult(turns + [Turn(m, r.player)], "Friendly player died"))
    ensures var r := RunTurn(m, pas, |turns|);
      r.TurnDone? && PlayerCount(r.board.actors) >= |pas| && |r.player| == 0 ==>
        RunFrom(m, pas, turns) == Completed(SimulationResult(turns + [Turn(m, r.player)], ""))
    ensures var r := RunTurn(m, pas, |turns|);
      r.TurnDone? && PlayerCount(r.board.actors) >= |pas| && |r.player| > 0 ==>
        |turns| < MaxQueue(pas) && ValidGrid(r.board) && SameGrid(m, r.board) &&
        RunFrom(m, pas, turns) == RunFrom(r.board, pas, turns + [Turn(m, r.player)])
  {
    NonEmptyTurnBelowMax(m, pas, |turns|);
  }

  /** Whether turn `|turns|` from `m` hands the run on to a further turn. */
  predicate GoesOn(m: Map, pas: seq<PlayerAction>, turns: seq<Turn>)
    requires ValidGrid(m)
  {
    var r := RunTurn(m, pas, |turns|);
    r.TurnDone? && PlayerCount(r.board.actors) >= |pas| && |r.player| > 0
  }

  /** A completed run keeps the turns recorded so far, records at least one
      more (starting from the map it was given), and records at most
      (longest queue + 1) turns in all. */
  lemma {:induction false} RunFromPrefix(m: Map, pas: seq<PlayerAction>, turns: seq<Turn>)
    requires ValidGrid(m)
    requires |turns| <= MaxQueue(pas)
    ensures var out := RunFrom(m, pas, turns);
      out.Completed? ==>
        |turns| < |out.result.turns| <= MaxQueue(pas) + 1 &&
        out.result.turns[..|turns|] == turns && out.result.turns[|turns|].board == m
    decreases MaxQueue(pas) - |turns|
  {
    var t := |turns|;
    RunFromStep(m, pas, turns);
    var r := RunTurn(m, pas, t);
    if r.TurnDone? {
      var turns' := turns + [Turn(m, r.player)];
      assert turns'[..t] == turns && turns'[t].board == m;
      if GoesOn(m, pas, turns) {
        RunFromPrefix(r.board, pas, turns');
        var out := RunFrom(r.board, pas, turns');
        if out.Completed? {
          var ts := out.result.turns;
          assert ts[..t] == turns'[..t];
          assert ts[t] == turns'[t];
        }
      }
    }
  }

  /** Every map a completed run records from turn `|turns|` on lies on the
      grid it started with. */
  lemma {:induction false} RunFromGrid(m: Map, pas: seq<PlayerAction>, turns: seq<Turn>)
    requires ValidGrid(m)
    requires |turns| <= MaxQueue(pas)
    ensures var out := RunFrom(m, pas, turns);
      out.Completed? ==>
        forall k :: |turns| <= k < |out.result.turns| ==> SameGrid(m, out.result.turns[k].board)
    decreases MaxQueue(pas) - |turns|
  {
    var t := |turns|;
    RunFromStep(m, pas, turns);
    var r := RunTurn(m, pas, t);
    if GoesOn(m, pas, turns) {
      var turns' := turns + [Turn(m, r.player)];
      RunFromGrid(r.board, pas, turns');
      RunFromPrefix(r.board, pas, turns');
      var out := RunFrom(r.board, pas, turns');
      if out.Completed? {
        var ts := out.result.turns;
        forall k | t <= k < |ts| ensures SameGrid(m, ts[k].board) {
          if k == t {
            assert ts[t] == turns'[t];
          } else {
            assert SameGrid(r.board, ts[k].board);
          }
        }
      }
    }
  }

  /** A turn that goes on, recorded at `|turns|` and followed by the map it
      ran to, is chained to the next recorded turn. */
  lemma LinkNext(m: Map, pas: seq<PlayerAction>, turns: seq<Turn>, r: TurnOutcome, ts: seq<Turn>)
    requires ValidGrid(m)
    requires r == RunTurn(m, pas, |turns|)
    requires r.TurnDone? && |r.player| > 0 && PlayerCount(r.board.actors) >= |pas|
    requires |turns| + 1 < |ts| && ts[|turns|] == Turn(m, r.player) && ts[|turns| + 1].board == r.board
    ensures Chained(pas, ts, |turns|)
  {
  }

  /** Every turn of `ts` from `k` on but the last is chained to the next. */
  predicate ChainFrom(pas: seq<PlayerAction>, ts: seq<Turn>, k: nat)
  {
    forall j :: k <= j < |ts| - 1 ==> Chained(pas, ts, j)
  }

  /** A chain from turn `k + 1` extends back to a turn `k` chained to it. */
  lemma ChainBack(pas: seq<PlayerAction>, ts: seq<Turn>, k: nat)
    requires k + 1 < |ts|
    requires Chained(pas, ts, k)
    requires ChainFrom(pas, ts, k + 1)
    ensures ChainFrom(pas, ts, k)
  {
  }

  /** A run whose current turn does not go on records that turn last. */
  lemma StopChained(m: Map, pas: seq<PlayerAction>, turns: seq<Turn>)
    requires ValidGrid(m)
    requires |turns| <= MaxQueue(pas)
    requires !GoesOn(m, pas, turns)
    ensures var out := RunFrom(m, pas, turns);
      out.Completed? ==> |out.result.turns| == |turns| + 1 && ChainFrom(pas, out.result.turns, |turns|)
  {
    RunFromStep(m, pas, turns);
  }

  /** A run whose current turn does not go on ends as that turn says. */
  lemma StopFinal(m: Map, pas: seq<PlayerAction>, turns: seq<Turn>)
    requires ValidGrid(m)
    requires |turns| <= MaxQueue(pas)
    requires !GoesOn(m, pas, turns)
    ensures var out := RunFrom(m, pas, turns);
      out.Completed? ==> FinalTurn(pas, out.result.turns, out.result.errorMessage)
  {
    RunFromStep(m, pas, turns);
    var r := RunTurn(m, pas, |turns|);
    if r.TurnDone? {
      var message := if PlayerCount(r.board.actors) < |pas| then "Friendly player died" else "";
      LastTurnFinal(m, pas, turns, r, message);
    }
  }

  /** A turn that ends the run, recorded last, is the run's final turn. */
  lemma LastTurnFinal(m: Map, pas: seq<PlayerAction>, turns: seq<Turn>, r: TurnOutcome, message: string)
    requires ValidGrid(m)
    requires r == RunTurn(m, pas, |turns|) && r.TurnDone?
    requires if PlayerCount(r.board.actors) < |pas| then message == "Friendly player died"
             else |r.player| == 0 && message == ""
    ensures FinalTurn(pas, turns + [Turn(m, r.player)], message)
  {
    var ts := turns + [Turn(m, r.player)];
    assert ts[|ts| - 1] == Turn(m, r.player);
  }

  /** In a completed run, every turn from `|turns|` on but the last ran from
      its recorded map to the next recorded map, recorded an entry and lost
      no friendly player. */
  lemma {:induction false} RunFromChained(m: Map, pas: seq<PlayerAction>, turns: seq<Turn>)
    requires ValidGrid(m)
    requires |turns| <= MaxQueue(pas)
    ensures var out := RunFrom(m, pas, turns);
      out.Completed? ==> ChainFrom(pas, out.result.turns, |turns|)
    decreases MaxQueue(pas) - |turns|, 1
  {
    if GoesOn(m, pas, turns) {
      GoOnChained(m, pas, turns);
    } else {
      StopChained(m, pas, turns);
    }
  }

  /** A turn that goes on is chained to the next recorded turn, and the run
      after it is chained from there. */
  lemma {:induction false} GoOnChained(m: Map, pas: seq<PlayerAction>, turns: seq<Turn>)
    requires ValidGrid(m)
    requires |turns| <= MaxQueue(pas)
    requires GoesOn(m, pas, turns)
    ensures var out := RunFrom(m, pas, turns);
      out.Completed? ==> ChainFrom(pas, out.result.turns, |turns|)
    decreases MaxQueue(pas) - |turns|, 0
  {
    var t := |turns|;
    var r := RunTurn(m, pas, t);
    var turns' := turns + [Turn(m, r.player)];
    RunFromStep(m, pas, turns);
    RunFromChained(r.board, pas, turns');
    RunFromPrefix(r.board, pas, turns');
    var next := RunFrom(r.board, pas, turns');
    assert RunFrom(m, pas, turns) == next;
    if next.Completed? {
      var ts := next.result.turns;
      assert ts[t] == turns'[t];
      LinkNext(m, pas, turns, r, ts);
      ChainBack(pas, ts, t);
    }
  }

  /** The last turn a completed run records ended the run. */
  lemma {:induction false} RunFromFinal(m: Map, pas: seq<PlayerAction>, turns: seq<Turn>)
    requires ValidGrid(m)
    requires |turns| <= MaxQueue(pas)
    ensures var out := RunFrom(m, pas, turns);
      out.Completed? ==> FinalTurn(pas, out.result.turns, out.result.errorMessage)
    decreases MaxQueue(pas) - |turns|
  {
    var t := |turns|;
    RunFromStep(m, pas, turns);
    var r := RunTurn(m, pas, t);
    if GoesOn(m, pas, turns) {
      RunFromFinal(r.board, pas, turns + [Turn(m, r.player)]);
    } else {
      StopFinal(m, pas, turns);
    }
  }

  /** A completed run starts from the given map and records each turn's map
      before that turn; it ends as `FinalTurn` says, after at most (longest
      queue + 1) turns. */
  lemma RunShape(m: Map, pas: seq<PlayerAction>)
    requires ValidGrid(m)
    ensures var out := Run(m, pas);
      out.Completed? ==>
        var ts := out.result.turns;
        1 <= |ts| <= MaxQueue(pas) + 1 && ts[0].board == m &&
        (forall k :: 0 <= k < |ts| ==> SameGrid(m, ts[k].board)) &&
        ChainFrom(pas, ts, 0) &&
        FinalTurn(pas, ts, out.result.errorMessage)
  {
    RunFromPrefix(m, pas, []);
    RunFromGrid(m, pas, []);
    RunFromChained(m, pas, []);
    RunFromFinal(m, pas, []);
  }

  /** Along a chain of turns no turn adds an actor or an order, and maps
      whose actors stand on cells of their own lead to such maps. */
  lemma {:induction false} ChainFacts(pas: seq<PlayerAction>, ts: seq<Turn>, k: nat)
    requires k < |ts| && ChainFrom(pas, ts, k)
    requires ValidGrid(ts[k].board)
    ensures forall j :: k <= j < |ts| ==>
      ValidGrid(ts[j].board) &&
      |ts[j].board.actors| <= |ts[k].board.actors| && Orders(ts[j].board.actors) <= Orders(ts[k].board.actors) &&
      (Separated(ts[k].board) ==> Separated(ts[j].board))
    decreases |ts| - k
  {
    if k + 1 < |ts| {
      var b := ts[k].board;
      assert Chained(pas, ts, k);
      RunActorsFacts(b, pas, k, OrdersOf(b.actors), map[]);
      ChainFacts(pas, ts, k + 1);
    }
  }

  /** No turn of a completed run adds an actor or an order, so an actor once
      removed never returns; and from a map whose actors stand on cells of
      their own, every recorded map keeps them apart. */
  lemma RunKeepsRoster(m: Map, pas: seq<PlayerAction>)
    requires ValidGrid(m)
    ensures var out := Run(m, pas);
      out.Completed? ==>
        var ts := out.result.turns;
        forall k :: 0 <= k < |ts| ==>
          ValidGrid(ts[k].board) &&
          |ts[k].board.actors| <= |m.actors| && Orders(ts[k].board.actors) <= Orders(m.actors) &&
          (Separated(m) ==> Separated(ts[k].board))
    ensures var out := Run(m, pas);
      out.Completed? ==>
        var ts := out.result.turns;
        forall k, j :: 0 <= k <= j < |ts| ==>
          |ts[j].board.actors| <= |ts[k].board.actors| && Orders(ts[j].board.actors) <= Orders(ts[k].board.actors)
  {
    RunFromPrefix(m, pas, []);
    RunFromChained(m, pas, []);
    var out := Run(m, pas);
    if out.Completed? {
      var ts := out.result.turns;
      assert ts[0].board == m;
      ChainFacts(pas, ts, 0);
      ChainShrinks(pas, ts);
    }
  }

  /** Along a chain of turns from a map on a valid grid, a later roster is
      no larger than an earlier one and holds none of the orders the earlier
      one lacks. */
  lemma ChainShrinks(pas: seq<PlayerAction>, ts: seq<Turn>)
    requires 0 < |ts| && ChainFrom(pas, ts, 0) && ValidGrid(ts[0].board)
    ensures forall k, j :: 0 <= k <= j < |ts| ==>
      |ts[j].board.actors| <= |ts[k].board.actors| && Orders(ts[j].board.actors) <= Orders(ts[k].board.actors)
  {
    ChainFacts(pas, ts, 0);
    forall k | 0 <= k < |ts|
      ensures forall j :: k <= j < |ts| ==>
        |ts[j].board.actors| <= |ts[k].board.actors| && Orders(ts[j].board.actors) <= Orders(ts[k].board.actors)
    {
      ChainFacts(pas, ts, k);
    }
  }

  // ---------------------------------------------------------------------
  // Processing order

  /** The survivors of an ascending roster are ascending. */
  lemma {:induction false} RemoveDeadAscending(s: seq<Actor>)
    requires StrictlyAscending(s)
    ensures StrictlyAscending(RemoveDead(s))
  {
    if s != [] {
      AscendingTail(s);
      RemoveDeadAscending(s[1..]);
      if s[0].health > 0 {
        AscendingHead(s);
        AscendingPrepend(s[0], RemoveDead(s[1..]), s[1..]);
        assert RemoveDead(s) == [s[0]] + RemoveDead(s[1..]);
      } else {
        assert RemoveDead(s) == RemoveDead(s[1..]);
      }
    }
  }

  /** The head of an ascending roster has an order below everyone behind it. */
  lemma AscendingHead(s: seq<Actor>)
    requires s != [] && StrictlyAscending(s)
    ensures forall b :: b in s[1..] ==> s[0].order < b.order
  {
    forall b | b in s[1..] ensures s[0].order < b.order {
      var k :| 0 <= k < |s[1..]| && s[1..][k] == b;
      assert s[k + 1] == b;
    }
  }

  /** An actor below every actor of `pool` can go in front of an ascending
      roster drawn from `pool`. */
  lemma AscendingPrepend(a: Actor, rest: seq<Actor>, pool: seq<Actor>)
    requires StrictlyAscending(rest)
    requires forall b :: b in rest ==> b in pool
    requires forall b :: b in pool ==> a.order < b.order
    ensures StrictlyAscending([a] + rest)
  {
    forall i, j | 0 <= i < j < |rest| + 1 ensures ([a] + rest)[i].order < ([a] + rest)[j].order {
      assert ([a] + rest)[j] == rest[j - 1];
      if i > 0 {
        assert ([a] + rest)[i] == rest[i - 1];
      }
    }
  }

  /** A roster strictly ascending by order has no repeated order. */
  lemma AscendingUnique(s: seq<Actor>)
    requires StrictlyAscending(s)
    ensures UniqueOrders(s)
  {
  }

  /** Fire and the removal of the dead keep the roster ascending. */
  lemma SettleAscending(m: Map, i: nat)
    requires ValidGrid(m)
    requires i < |m.actors|
    requires StrictlyAscending(m.actors)
    ensures StrictlyAscending(Settle(m, i).actors)
  {
    var a := m.actors[i];
    FireKeepsRoster(m, a.x, a.y, a.face);
    var f := EnemyFire(m, i);
    assert SameRoster(m, f);
    RemoveDeadAscending(f.actors);
  }

  /** A step keeps the roster ascending by order. */
  lemma StepAscending(m: Map, pas: seq<PlayerAction>, t: nat, o: int)
    requires ValidGrid(m)
    requires StrictlyAscending(m.actors)
    ensures var r := ActorStep(m, pas, t, o);
      r.Stepped? ==> StrictlyAscending(r.board.actors)
  {
    match IndexOfOrder(m.actors, o)
    case None =>
    case Some(i) =>
      var q := QueueOf(pas, o);
      if q.Some? && |q.value| > t {
        ResolveKeepsRoster(m, i, q.value[t]);
        var m1 := Resolve(m, i, q.value[t]);
        if m1.Some? {
          assert SameRoster(m, m1.value);
          SettleAscending(m1.value, i);
        }
      } else {
        SettleAscending(m, i);
      }
  }

  /** A turn keeps the roster ascending by order. */
  lemma {:induction false} RunActorsAscending(m: Map, pas: seq<PlayerAction>, t: nat, orders: seq<int>,
                                              rec: map<int, PlayerTurnData>)
    requires ValidGrid(m)
    requires StrictlyAscending(m.actors)
    ensures var r := RunActors(m, pas, t, orders, rec);
      r.TurnDone? ==> StrictlyAscending(r.board.actors)
    decreases |orders|
  {
    if |orders| > 0 {
      StepAscending(m, pas, t, orders[0]);
      match ActorStep(m, pas, t, orders[0])
      case StepCrashed =>
      case Stepped(m', e) =>
        RunActorsAscending(m', pas, t, orders[1..], if e.Some? then rec[orders[0] := e.value] else rec);
    }
  }

  /** Along a chain of turns from an ascending roster, every roster is
      ascending. */
  lemma {:induction false} ChainAscending(pas: seq<PlayerAction>, ts: seq<Turn>, k: nat)
    requires k < |ts| && ChainFrom(pas, ts, k)
    requires ValidGrid(ts[k].board) && StrictlyAscending(ts[k].board.actors)
    ensures forall j :: k <= j < |ts| ==> StrictlyAscending(ts[j].board.actors)
    decreases |ts| - k
  {
    if k + 1 < |ts| {
      var b := ts[k].board;
      assert Chained(pas, ts, k);
      RunActorsAscending(b, pas, k, OrdersOf(b.actors), map[]);
      ChainAscending(pas, ts, k + 1);
    }
  }

  /** From a roster ascending by order, every recorded roster is ascending,
      so its orders are unique and each turn, which takes its processing
      order from the roster, processes the actors in ascending order. */
  lemma RunInOrder(m: Map, pas: seq<PlayerAction>)
    requires ValidGrid(m)
    requires StrictlyAscending(m.actors)
    ensures var out := Run(m, pas);
      out.Completed? ==>
        var ts := out.result.turns;
        forall k :: 0 <= k < |ts| ==>
          StrictlyAscending(ts[k].board.actors) && UniqueOrders(ts[k].board.actors) &&
          forall i, j :: 0 <= i < j < |ts[k].board.actors| ==>
            OrdersOf(ts[k].board.actors)[i] < OrdersOf(ts[k].board.actors)[j]
  {
    RunFromPrefix(m, pas, []);
    RunFromChained(m, pas, []);
    var out := Run(m, pas);
    if out.Completed? {
      var ts := out.result.turns;
      assert ts[0].board == m;
      ChainAscending(pas, ts, 0);
      forall k | 0 <= k < |ts| ensures UniqueOrders(ts[k].board.actors) {
        AscendingUnique(ts[k].board.actors);
      }
    }
  }

  /** A map read by `parseInput` keeps every actor on a cell of its own, in
      the grid and off the blocks, on every turn a run records. */
  lemma ParsedRunStaysSeparated(rows: seq<seq<string>>, pas: seq<PlayerAction>)
    requires DigitsReadable(rows)
    requires Parse(rows).Ok?
    ensures ValidGrid(Parse(rows).value)
    ensures var out := Run(Parse(rows).value, pas);
      out.Completed? ==> forall k :: 0 <= k < |out.result.turns| ==>
        ValidGrid(out.result.turns[k].board) && Separated(out.result.turns[k].board)
  {
    ParseSeparated(rows);
    RunKeepsRoster(Parse(rows).value, pas);
  }

  /** A map read by `parseInput` has each turn's actors in ascending order,
      with unique orders, on every turn a run records. */
  lemma ParsedRunInOrder(rows: seq<seq<string>>, pas: seq<PlayerAction>)
    requires DigitsReadable(rows)
    requires Parse(rows).Ok?
    ensures ValidGrid(Parse(rows).value)
    ensures var out := Run(Parse(rows).value, pas);
      out.Completed? ==> forall k :: 0 <= k < |out.result.turns| ==>
        StrictlyAscending(out.result.turns[k].board.actors) && UniqueOrders(out.result.turns[k].board.actors)
  {
    ParseSeparated(rows);
    ParseActors(rows);
    RunInOrder(Parse(rows).value, pas);
  }
}

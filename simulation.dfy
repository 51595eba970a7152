/** The turn loop (`simulate`): every turn records the map as it stands,
    then lets each actor of the roster, in roster order, apply its queued
    action, fire if it is an enemy, and clears the dead; the run ends when a
    friendly player has died or when a turn passes with no queued action. */
module Simulation {
  import opened Wrappers
  import opened Geometry
  import opened Board
  import opened RayCast
  import opened Probe

  /** `M`, `L`, `R`, `S` and `W`. */
  datatype Action = Move | TurnLeft | TurnRight | Shoot | Wait

  /** The queue of actions for the actor with this order. */
  datatype PlayerAction = PlayerAction(order: int, actions: seq<Action>)

  /** What a turn records about one queued actor, as it was before acting. */
  datatype PlayerTurnData = PlayerTurnData(action: Action, probes: string, health: int)

  /** A snapshot of the map before the turn, and the entries of the actors
      that had a queued action in it, keyed by order. */
  datatype Turn = Turn(board: Map, player: map<int, PlayerTurnData>)

  datatype SimulationResult = SimulationResult(turns: seq<Turn>, errorMessage: string)

  /** A run finishes with a result, or crashes when a move leads off the
      grid (the engine indexes the grid out of range there). */
  datatype Outcome = Completed(result: SimulationResult) | Crashed

  /** The queue of the first entry of `pas` with order `o`:
      `playerActions.find((x) => x.order == order)`. */
  function QueueOf(pas: seq<PlayerAction>, o: int): (r: Option<seq<Action>>)
    ensures r.None? <==> forall i :: 0 <= i < |pas| ==> pas[i].order != o
    ensures r.Some? ==> exists i :: 0 <= i < |pas| && pas[i].order == o && pas[i].actions == r.value &&
                                    forall j :: 0 <= j < i ==> pas[j].order != o
  {
    if pas == [] then None
    else if pas[0].order == o then Some(pas[0].actions)
    else
      QueueOf(pas[1..], o)
  }

  /** The length of the longest queue. */
  function MaxQueue(pas: seq<PlayerAction>): (n: nat)
    ensures forall i :: 0 <= i < |pas| ==> |pas[i].actions| <= n
    ensures n == 0 || exists i :: 0 <= i < |pas| && |pas[i].actions| == n
  {
    if pas == [] then 0
    else
      var rest := MaxQueue(pas[1..]);
      assert rest > 0 ==> exists i :: 1 <= i < |pas| && |pas[i].actions| == rest;
      if |pas[0].actions| > rest then |pas[0].actions| else rest
  }

  /** Every queue fits within the longest one. */
  lemma QueueWithinMax(pas: seq<PlayerAction>, o: int)
    ensures QueueOf(pas, o).Some? ==> |QueueOf(pas, o).value| <= MaxQueue(pas)
  {
  }

  /** Actor `i` applies `act`. `None` is a move onto a cell outside the grid,
      where the engine crashes. */
  function Resolve(m: Map, i: nat, act: Action): (r: Option<Map>)
    requires ValidGrid(m)
    requires i < |m.actors|
    ensures r.Some? ==> r.value.width == m.width && r.value.height == m.height &&
                        r.value.grid == m.grid && |r.value.actors| == |m.actors|
  {
    var a := m.actors[i];
    match act
    case TurnLeft => Some(m.(actors := m.actors[i := a.(face := RotateCCW(a.face))]))
    case TurnRight => Some(m.(actors := m.actors[i := a.(face := RotateCW(a.face))]))
    case Move =>
      var p := Move1(a.x, a.y, a.face);
      if !InBounds(m, p.0, p.1) then None
      else if m.grid[p.0][p.1] == Block || Occupied(m.actors, p.0, p.1) then
        Some(m.(actors := m.actors[i := a.(health := a.health - 1)]))
      else
        Some(m.(actors := m.actors[i := a.(x := p.0, y := p.1)]))
    case Shoot => FireEffect(m, a.x, a.y, a.face); Some(Fire(m, a.x, a.y, a.face))
    case Wait => Some(m)
  }

  /** The automatic fire of actor `i` when it is an enemy. A miss leaves its
      facing as it is. */
  function EnemyFire(m: Map, i: nat): (r: Map)
    requires ValidGrid(m)
    requires i < |m.actors|
    ensures r.width == m.width && r.height == m.height && r.grid == m.grid && |r.actors| == |m.actors|
  {
    var a := m.actors[i];
    FireEffect(m, a.x, a.y, a.face);
    if a.kind == Enemy then Fire(m, a.x, a.y, a.face) else m
  }

  /** `actors.filter((a) => a.health > 0)`. */
  function RemoveDead(s: seq<Actor>): (r: seq<Actor>)
    ensures |r| <= |s|
    ensures forall a :: a in r <==> a in s && a.health > 0
  {
    if s == [] then []
    else if s[0].health > 0 then [s[0]] + RemoveDead(s[1..])
    else RemoveDead(s[1..])
  }

  /** The end of an actor's step: enemy fire, then the dead are cleared. */
  function Settle(m: Map, i: nat): (r: Map)
    requires ValidGrid(m)
    requires i < |m.actors|
    ensures r.width == m.width && r.height == m.height && r.grid == m.grid
    ensures forall a :: a in r.actors ==> a.health > 0
  {
    var m' := EnemyFire(m, i);
    m'.(actors := RemoveDead(m'.actors))
  }

  /** An actor's step: the new map and the entry the turn records, or a crash. */
  datatype StepOutcome = Stepped(board: Map, entry: Option<PlayerTurnData>) | StepCrashed

  /** The text of a probe report, or the empty string for a missing order. */
  function ProbesOrEmpty(m: Map, o: int): string
    requires ValidGrid(m)
  {
    match ProbeString(m, o)
    case Some(s) => s
    case None => ""
  }

  /** The step of the actor with order `o` on turn `t`. A missing order (the
      actor has died) changes nothing. An actor whose queue is longer than
      `t` records an entry and applies its action, whatever its kind; then
      an enemy fires and the dead are removed. */
  function ActorStep(m: Map, pas: seq<PlayerAction>, t: nat, o: int): (r: StepOutcome)
    requires ValidGrid(m)
    ensures r.Stepped? ==> r.board.width == m.width && r.board.height == m.height && r.board.grid == m.grid
  {
    match IndexOfOrder(m.actors, o)
    case None => Stepped(m, None)
    case Some(i) =>
      var q := QueueOf(pas, o);
      if q.Some? && |q.value| > t then
        var entry := PlayerTurnData(q.value[t], ProbesOrEmpty(m, o), m.actors[i].health);
        match Resolve(m, i, q.value[t])
        case None => StepCrashed
        case Some(m1) => Stepped(Settle(m1, i), Some(entry))
      else Stepped(Settle(m, i), None)
  }

  /** The outcome of a whole turn: the map after every actor's step and the
      recorded entries, or a crash. */
  datatype TurnOutcome = TurnDone(board: Map, player: map<int, PlayerTurnData>) | TurnCrashed

  /** The steps of the actors with the given orders, in sequence, adding the
      entries to `rec`. Every recorded key was already there or belongs to
      an actor with a queue longer than `t`. */
  function RunActors(m: Map, pas: seq<PlayerAction>, t: nat, orders: seq<int>,
                     rec: map<int, PlayerTurnData>): (r: TurnOutcome)
    requires ValidGrid(m)
    ensures r.TurnDone? ==> r.board.width == m.width && r.board.height == m.height && r.board.grid == m.grid
    ensures r.TurnDone? ==> forall o :: o in r.player ==>
              o in rec || (QueueOf(pas, o).Some? && t < |QueueOf(pas, o).value|)
    decreases |orders|
  {
    if |orders| == 0 then TurnDone(m, rec)
    else match ActorStep(m, pas, t, orders[0])
      case StepCrashed => TurnCrashed
      case Stepped(m', e) =>
        RunActors(m', pas, t, orders[1..], if e.Some? then rec[orders[0] := e.value] else rec)
  }

  /** Turn `t` from map `m`: the processing order is fixed from the roster
      as the turn begins. */
  function RunTurn(m: Map, pas: seq<PlayerAction>, t: nat): (r: TurnOutcome)
    requires ValidGrid(m)
    ensures r.TurnDone? ==> r.board.width == m.width && r.board.height == m.height && r.board.grid == m.grid
    ensures r.TurnDone? ==> forall o :: o in r.player ==> QueueOf(pas, o).Some? && t < |QueueOf(pas, o).value|
  {
    RunActors(m, pas, t, OrdersOf(m.actors), map[])
  }

  /** A non-empty turn happens only while some queue is longer than the turn
      index. */
  lemma NonEmptyTurnBelowMax(m: Map, pas: seq<PlayerAction>, t: nat)
    requires ValidGrid(m)
    ensures RunTurn(m, pas, t).TurnDone? && |RunTurn(m, pas, t).player| > 0 ==> t < MaxQueue(pas)
  {
    var r := RunTurn(m, pas, t);
    if r.TurnDone? && t >= MaxQueue(pas) {
      forall o ensures o !in r.player {
        QueueWithinMax(pas, o);
      }
      assert r.player == map[];
    }
  }

  /** The run from map `m` after the turns recorded so far. */
  function RunFrom(m: Map, pas: seq<PlayerAction>, turns: seq<Turn>): Outcome
    requires ValidGrid(m)
    requires |turns| <= MaxQueue(pas)
    decreases MaxQueue(pas) - |turns|
  {
    var t := |turns|;
    NonEmptyTurnBelowMax(m, pas, t);
    match RunTurn(m, pas, t)
    case TurnCrashed => Crashed
    case TurnDone(m', rec) =>
      var turns' := turns + [Turn(m, rec)];
      if PlayerCount(m'.actors) < |pas| then Completed(SimulationResult(turns', "Friendly player died"))
      else if |rec| == 0 then Completed(SimulationResult(turns', ""))
      else RunFrom(m', pas, turns')
  }

  function Run(m: Map, pas: seq<PlayerAction>): Outcome
    requires ValidGrid(m)
  {
    RunFrom(m, pas, [])
  }

  /** The `L`, `R`, `M` and `S` branches of an actor's step, updating the
      acting actor (or, for a shot, the one it hits). */
  method ApplyAction(m: Map, i: nat, action: Action) returns (r: Option<Map>)
    requires ValidGrid(m)
    requires i < |m.actors|
    ensures r == Resolve(m, i, action)
  {
    var current := m;
    var actor := current.actors[i];
    if action == TurnLeft {
      current := current.(actors := current.actors[i := actor.(face := RotateCW(RotateCW(RotateCW(actor.face))))]);
    }
    if action == TurnRight {
      current := current.(actors := current.actors[i := actor.(face := RotateCW(actor.face))]);
    }
    if action == Move {
      var newpos := Move1(actor.x, actor.y, actor.face);
      if newpos.0 < 0 || newpos.1 < 0 || newpos.0 >= current.width || newpos.1 >= current.height {
        return None;
      }
      if current.grid[newpos.0][newpos.1] == Block || Occupied(current.actors, newpos.0, newpos.1) {
        current := current.(actors := current.actors[i := actor.(health := actor.health - 1)]);
      } else {
        current := current.(actors := current.actors[i := actor.(x := newpos.0, y := newpos.1)]);
      }
    }
    if action == Shoot {
      current := FireRay(current, actor.x, actor.y, actor.face);
    }
    return Some(current);
  }

  /** One actor's step as the engine runs it, updating a working copy. */
  method StepActor(m: Map, pas: seq<PlayerAction>, t: nat, order: int) returns (r: StepOutcome)
    requires ValidGrid(m)
    ensures r == ActorStep(m, pas, t, order)
  {
    var found := IndexOfOrder(m.actors, order);
    if found.None? {
      return Stepped(m, None);
    }
    var i := found.value;
    var current := m;
    var entry: Option<PlayerTurnData> := None;
    var playerAction := QueueOf(pas, order);
    if playerAction.Some? && |playerAction.value| > t {
      var action := playerAction.value[t];
      var probes := GetProbeString(current, order);
      entry := Some(PlayerTurnData(action, if probes.Some? then probes.value else "", current.actors[i].health));
      var applied := ApplyAction(current, i, action);
      if applied.None? {
        return StepCrashed;
      }
      current := applied.value;
    }
    var actor := current.actors[i];
    if actor.kind == Enemy {
      current := FireRay(current, actor.x, actor.y, actor.face);
    }
    current := current.(actors := RemoveDead(current.actors));
    return Stepped(current, entry);
  }

  /** `simulate`: the outer loop over turns and the inner loop over the
      processing order fixed at the start of each turn. */
  method Simulate(m: Map, pas: seq<PlayerAction>) returns (r: Outcome)
    requires ValidGrid(m)
    ensures r == Run(m, pas)
  {
    var currentMap := m;
    var turns: seq<Turn> := [];
    while true
      invariant ValidGrid(currentMap) && |turns| <= MaxQueue(pas)
      invariant RunFrom(currentMap, pas, turns) == Run(m, pas)
      decreases MaxQueue(pas) - |turns|
    {
      var start := currentMap;
      var player: map<int, PlayerTurnData> := map[];
      var actorList := OrdersOf(currentMap.actors);
      var k := 0;
      while k < |actorList|
        invariant 0 <= k <= |actorList|
        invariant ValidGrid(currentMap)
        invariant RunActors(currentMap, pas, |turns|, actorList[k..], player) == RunTurn(start, pas, |turns|)
      {
        var order := actorList[k];
        var step := StepActor(currentMap, pas, |turns|, order);
        if step.StepCrashed? {
          return Crashed;
        }
        currentMap := step.board;
        if step.entry.Some? {
          player := player[order := step.entry.value];
        }
        k := k + 1;
      }
      NonEmptyTurnBelowMax(start, pas, |turns|);
      turns := turns + [Turn(start, player)];
      if PlayerCount(currentMap.actors) < |pas| {
        return Completed(SimulationResult(turns, "Friendly player died"));
      }
      if |player| == 0 {
        return Completed(SimulationResult(turns, ""));
      }
    }
  }
}

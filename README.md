# sketchbot-helper simulation engine, in Dafny

This project models the simulation engine of sketchbot-helper (`src/simulation.ts`). The engine is a
deterministic, turn-based simulator on a rectangular grid of empty, block and finish cells. Players,
targets and enemies stand on the grid. Each actor has an order, a facing and a health.

The model covers five parts of the engine:

- **Map codec** (`codec.dfy`, `codec_proofs.dfy`). `parseInput` reads rows of tokens into a
  column-major grid and an actor list sorted by order. It rejects ragged rows, malformed tags, bad
  facings and repeated orders with an error message. `printMap` writes a map back as text.
- **Geometry** (`geometry.dfy`). `rotateCW` turns a facing; `move1` takes one step (north is `y - 1`).
- **Ray casting** (`raycast.dfy`). A shot steps cell by cell until it leaves the grid, meets a
  block, or meets an actor. The first actor met loses one health point.
- **Probes** (`probe.dfy`). `probe` reports the free distance along a ray, what stopped it, and the
  last finish cell passed. `getProbeString` joins the front, back, left and right readings.
- **Turn loop** (`simulation.dfy`, `simulation_proofs.dfy`). `simulate` records the map before each
  turn. Then actors act in roster order: each applies its queued `M`/`L`/`R`/`S`/`W` action, an
  enemy fires, and the dead are removed. The run ends when a friendly player has died, or after the
  first turn in which nobody had a queued action.

Shared definitions live in `wrappers.dfy` (`Option`, `Result`), `text.dfy` (decimal and hexadecimal
digits) and `board.dfy` (cells, actors, maps, lookups).

Each imperative routine of the engine appears twice. A recursive function states what it computes.
A method with the source's loops is proved equal to that function (`ParseInput`, `PrintMap`,
`FireRay`, `Probe`, `GetProbeString`, `Simulate` and others). The engine's guarantees are lemmas
about the functions. Maps, actors and turns are values, so a recorded turn is a snapshot, as the
engine's JSON clone makes it.

Points where the code's behaviour is easy to misread, and which the model reproduces:

- `probe` reassigns `finishTile` at every finish cell it passes (src/simulation.ts:305), so the
  reading reports the *last* finish passed. The marker counts the free cells before that finish
  cell: `_ _ f` seen east from (0,0) reads `2/F1` (`Probe.FinishExample`).
- A target tag with a bad facing is rejected with the message `player face invalid`, as the code
  writes it (`CodecProofs.TagErrors`).
- The `no rows` error cannot arise from text, because splitting text always gives one line at least.
  The model keeps the branch. Over token rows it fires exactly for zero rows (`CodecProofs.ParseShapeErrors`).

## Model

| member | source | states |
|---|---|---|
| Geometry.RotateCWFourTimes | src/simulation.ts:259-270 | `RotateCW` is `rotateCW`'s clockwise table north → east → south → west → north; four turns give back the facing they started from, and fewer do not |
| Geometry.RotateCCWInvertsCW | src/simulation.ts:165-170 | three clockwise turns (`L`) undo one clockwise turn (`R`), in both orders |
| Geometry.Move1UnitStep | src/simulation.ts:272-288 | `Move1` is `move1`'s one step by facing; it changes exactly one coordinate by exactly one, the opposite facing steps back, and north means y - 1 |
| Text.NatToStringShape | src/simulation.ts:125-127 | `NatToString`, the decimal `toString` of a count, writes at least one decimal digit, with no leading zero, and one digit exactly when the count is below 10 |
| Text.IntToStringFacts | src/simulation.ts:125-127 | `IntToString`, the decimal `toString` of an integer, writes a minus sign exactly when the number is negative, and 0..9 as their single digit |
| Text.NatToStringRoundTrip | src/simulation.ts:125-127 | reading the decimal digits written for a count gives back that count |
| Text.HexValue | src/simulation.ts:75-77 | a hexadecimal digit reads as a value below 16, and a decimal digit reads as its decimal value |
| Board.ActorAt | src/simulation.ts:121-130 | the result is the first actor standing on the cell, and there is none exactly when no actor stands on it |
| Board.FirstActorAt | src/simulation.ts:121-130 | the loop over the actors that stops at the first one on the cell returns that first actor's index |
| Board.IndexOfOrder | src/simulation.ts:153 | the lookup by order finds the first actor with that order, and finds none exactly when no actor has it |
| Board.PlayerCount | src/simulation.ts:245-247 | the count of living players is at most the number of actors, and is zero exactly when no actor is a player |
| Codec.CharsRoundTrip | src/simulation.ts:76-78 | the kind and facing letters that are written read back as the same kind and facing |
| Codec.ReadTag | src/simulation.ts:73-104 | an actor tag reads as an actor with its order and health read as hex digits, or fails with the kind's malformed-tag or face message |
| Codec.InsertByOrder | src/simulation.ts:108-111 | inserting into an ascending list keeps it strictly ascending and adds exactly the new actor, and fails exactly when its order is already present |
| Codec.SortByOrder | src/simulation.ts:108-111 | sorting gives a strictly ascending permutation of the actors, and fails with "order must be unique" exactly when two actors share an order |
| Codec.ParseInput | src/simulation.ts:43-114 | the parsing loops compute `Parse`, the recursive definition of `parseInput`'s outcome (the first structural error, or the column-major grid and the sorted actors) |
| Codec.RenderRows | src/simulation.ts:116-140 | the printed rows have the map's height and width, and each cell carries its first actor's tag or else its terrain letter |
| Codec.PrintCell | src/simulation.ts:120-134 | the per-cell loop writes the first actor's tag on the cell, or else the terrain letter |
| Codec.PrintRow | src/simulation.ts:119-136 | the loop over one row writes every cell's token of that row, each followed by a space |
| Codec.PrintMap | src/simulation.ts:116-140 | the printing loops produce `Render`, the definition of `printMap`'s text: the rendered rows, each token followed by a space and each row by a newline |
| CodecProofs.ScanFromMembers | src/simulation.ts:59-106 | scanning cells in column order collects exactly the actors declared by well-formed tags, in that order |
| CodecProofs.ScanFromErrors | src/simulation.ts:59-106 | the scan fails exactly when some cell holds a bad tag, and then with the first bad cell's error |
| CodecProofs.ParseShapeErrors | src/simulation.ts:48-51 | parsing fails with "no rows" exactly for zero rows, and with "not rectangular" exactly for ragged rows |
| CodecProofs.TagErrorMessages | src/simulation.ts:74-94 | the malformed-tag and face messages name the player, target or enemy kind as the code writes them |
| CodecProofs.TagErrors | src/simulation.ts:73-104 | a tag whose length is not 4 fails as malformed, a bad facing fails with its kind's face message, and a well-formed tag reads as an actor |
| CodecProofs.ParseBadTag | src/simulation.ts:59-104 | on rectangular rows with a bad tag, parsing fails with the error of the first bad cell in column order |
| CodecProofs.ParseDuplicateOrder | src/simulation.ts:108-111 | with well-formed tags, parsing fails exactly when two tags share an order, and then with "order must be unique" |
| CodecProofs.ParseGrid | src/simulation.ts:59-72 | a parsed map has the rows' width and height, and its grid[x][y] is the terrain of token (x, y), with actor cells empty |
| CodecProofs.ParseActors | src/simulation.ts:73-111 | the parsed actors are strictly ascending by order, each is declared by a tag at its own cell inside the grid, and every tag is among them |
| CodecProofs.ParseSeparated | src/simulation.ts:59-111 | every parsed actor stands inside the grid, off the blocks, on a cell no other actor shares |
| CodecProofs.ReadActorToken | src/simulation.ts:121-128 | a printed actor tag reads back as the same kind, order, facing and health |
| CodecProofs.RoundTrip | src/simulation.ts:116-140 | for a map with at least one row, unique orders, and every order and health one decimal digit, the printed rows parse, and printing the parsed map gives the same rows and the same text |
| RayCast.AheadFromNext | src/simulation.ts:186-188 | the cells along a ray are the cells along the ray that starts one step further |
| RayCast.FreeRunFree | src/simulation.ts:186-197 | all cells up to the free run's length are in the grid, free of blocks and actors, and the next cell is not |
| RayCast.RayHit | src/simulation.ts:184-207 | the actor the ray meets, if any, is one of the map's actors |
| RayCast.RayHitFirstOnRay | src/simulation.ts:184-207 | the ray meets the first actor on the first cell past the free run, and meets nobody if that cell is off the grid or a block |
| RayCast.RayMissesOrigin | src/simulation.ts:185-188 | the ray never meets an actor on the cell it starts from |
| RayCast.FireEffect | src/simulation.ts:184-207 | a shot changes only the health of the actor met, by exactly one; with no actor met nothing changes; grid, positions and facings never change |
| RayCast.FireRay | src/simulation.ts:184-207 | the stepping loop of a shot produces `Fire`, the definition of a shot: the actor `RayHit` finds past the `FreeRun` cells loses one health point |
| Probe.LastFinishFacts | src/simulation.ts:304-306 | the marker is the number of cells before the last finish cell among those passed, and there is none exactly when no finish is passed |
| Probe.ScanDistance | src/simulation.ts:296-316 | the probe's distance is the ray's free run, and its prefix is decided by the cell that stops it |
| Probe.ScanFinish | src/simulation.ts:296-316 | the probe's finish marker is the last finish cell among the free cells and the stop cell, counted as cells before it, or the earlier marker if there is none |
| Probe.ProbeReadingFacts | src/simulation.ts:290-324 | a reading's distance is the free run, its prefix is E, P or empty after the stopping cell, and its marker counts the free cells before the last finish passed |
| Probe.Probe | src/simulation.ts:290-324 | the probe loop writes the text of `ProbeReading`, the recursive definition `Scan` of the probe's distance, stop prefix and finish marker |
| Probe.ProbeString | src/simulation.ts:326-341 | there is no probe string exactly when no actor has the order, and otherwise it is `ReadingsText(ReadingsOf(...))`: the front, back, left and right readings of the actor with that order, in the `front: … back: … left: … right: …` layout |
| Probe.GetProbeString | src/simulation.ts:326-341 | the lookup and the four probes give `ProbeString`, with none for a missing order |
| Probe.ReadingsTurn | src/simulation.ts:329-339 | in `ReadingsOf`, the left, right and back readings are the front readings of the actor turned CW³, CW and CW² |
| Probe.FinishExample | src/simulation.ts:304-323 | on the row `_ _ f`, facing east from (0,0), the reading is "2/F1" |
| Simulation.QueueOf | src/simulation.ts:156 | the queue found is the first one with that order, and there is none exactly when none has it |
| Simulation.NonEmptyTurnBelowMax | src/simulation.ts:252-254 | a turn past the longest queue records no entry |
| Simulation.Resolve | src/simulation.ts:165-207 | an action that does not crash keeps the grid, the map size and the number of actors |
| Simulation.EnemyFire | src/simulation.ts:210-235 | automatic fire keeps the grid, the map size and the number of actors |
| Simulation.RemoveDead | src/simulation.ts:241 | the survivors are exactly the actors with positive health, with none added |
| Simulation.Settle | src/simulation.ts:210-241 | after enemy fire and the removal of the dead, every actor has positive health and the grid is unchanged |
| Simulation.ActorStep | src/simulation.ts:153-241 | a step that does not crash keeps the grid and the map size |
| Simulation.RunActors | src/simulation.ts:150-243 | a turn keeps the grid, and records entries only for actors with a queue longer than the turn number |
| Simulation.RunTurn | src/simulation.ts:148-243 | a turn runs the actors in the order `OrdersOf` lists the roster at its start (the `map` to orders), keeps the grid and records only queued actors |
| Simulation.ApplyAction | src/simulation.ts:165-207 | the action code computes `Resolve`, the definition of the five actions, with `None` for a move off the grid |
| Simulation.StepActor | src/simulation.ts:153-241 | one actor's step, with its probes, action, fire and removal of the dead, computes `ActorStep` |
| Simulation.Simulate | src/simulation.ts:142-257 | the turn loop returns `Run` (`RunFrom` from no recorded turns), the recursive definition of the turns and the final message, or crashes exactly when that run does |
| SimulationProofs.TurnsChangeOnlyFace | src/simulation.ts:165-170 | `R` and `L` change only the acting actor's facing, to its clockwise or counter-clockwise neighbour |
| SimulationProofs.LeftUndoesRight | src/simulation.ts:165-170 | `L` after `R`, and `R` after `L`, give back the map |
| SimulationProofs.MoveOutcome | src/simulation.ts:171-183 | a move crashes exactly off the grid; into a block or a cell `Occupied` finds an actor on (the `some` test) it costs the mover one health and it stays; otherwise it moves one step with health and facing kept; nobody else changes |
| SimulationProofs.ShootAndWait | src/simulation.ts:184-207 | `S` fires the shooter's ray and changes nothing of the shooter; `W` changes nothing |
| SimulationProofs.EnemyFireFacts | src/simulation.ts:210-240 | an enemy fires its ray and a non-enemy leaves the map alone; no position or facing changes, and an enemy whose shot misses does not turn |
| SimulationProofs.RemoveDeadOrders | src/simulation.ts:241 | removing the dead adds no order |
| SimulationProofs.RemoveDeadDistinct | src/simulation.ts:241 | actors on distinct cells stay on distinct cells after the dead are removed |
| SimulationProofs.RemoveDeadSeparated | src/simulation.ts:241 | removing the dead keeps every actor inside the grid, off the blocks and on a cell of its own |
| SimulationProofs.ResolveKeepsRoster | src/simulation.ts:165-207 | an action keeps every actor's order and kind in place, and actors on cells of their own stay so |
| SimulationProofs.SettleFacts | src/simulation.ts:210-241 | fire and removal of the dead add no order, keep all survivors alive, and keep actors on cells of their own |
| SimulationProofs.AbsentActorSkipped | src/simulation.ts:153-155 | an order no longer on the roster is skipped, with the map unchanged and no entry |
| SimulationProofs.StepFacts | src/simulation.ts:153-241 | a step never adds actors or orders, leaves only living actors when the stepping actor is on the roster, and keeps actors on cells of their own |
| SimulationProofs.StepEntry | src/simulation.ts:156-164 | an entry is recorded exactly for an actor on the roster with a queue longer than the turn number, with that action and the health and probes from before it acts |
| SimulationProofs.ResolveCrash | src/simulation.ts:171-174 | an action fails to resolve exactly when it is a move whose target cell is off the grid |
| SimulationProofs.StepCrash | src/simulation.ts:171-174 | a step crashes exactly when the queued action is a move to a cell off the grid |
| SimulationProofs.RunActorsFacts | src/simulation.ts:150-243 | over a turn the roster only shrinks, no order is added, and actors stay on cells of their own |
| SimulationProofs.RunFromStep | src/simulation.ts:244-254 | one turn of a run: a crash ends the run as crashed, a lost friendly player or a turn with no entries ends it after recording the turn, and otherwise the run goes on from the new map on the same grid |
| SimulationProofs.RunFromPrefix | src/simulation.ts:142-256 | a run keeps the turns already recorded, records the current map next, and records at most longest queue + 1 turns |
| SimulationProofs.RunFromGrid | src/simulation.ts:148-149 | every recorded map has the initial grid |
| SimulationProofs.RunFromChained | src/simulation.ts:148-254 | each recorded turn ran from its map to the next recorded map, recorded an entry, and lost no friendly player |
| SimulationProofs.RunFromFinal | src/simulation.ts:244-254 | the last turn ends the run with "Friendly player died" when fewer players live than there are queues, and otherwise with no entry and an empty message |
| SimulationProofs.RunShape | src/simulation.ts:142-257 | a completed run starts from the given map, has 1 to longest queue + 1 turns, keeps the grid, links each turn's map to the next, and stops as the engine says |
| SimulationProofs.ChainFacts | src/simulation.ts:150-243 | along the recorded turns no actor or order is added, and separated actors stay separated |
| SimulationProofs.RunKeepsRoster | src/simulation.ts:150-243 | no recorded map has more actors or other orders than the initial map, and a later recorded map has no more actors and no order missing from an earlier one, so a removed actor never returns |
| SimulationProofs.ParsedRunStaysSeparated | src/simulation.ts:171-183 | starting from a parsed map, every recorded map keeps each actor in the grid, off blocks, on a cell of its own |
| SimulationProofs.RemoveDeadAscending | src/simulation.ts:241 | removing the dead keeps a roster strictly ascending by order, since the filter keeps the survivors in roster order |
| SimulationProofs.StepAscending | src/simulation.ts:153-241 | one actor's step keeps the roster strictly ascending by order: actions and fire change no order in place, and the filter keeps the order |
| SimulationProofs.RunActorsAscending | src/simulation.ts:150-243 | a turn keeps the roster strictly ascending by order |
| SimulationProofs.ChainAscending | src/simulation.ts:148-254 | along the recorded turns, a roster ascending by order stays ascending |
| SimulationProofs.RunInOrder | src/simulation.ts:150-151 | from a roster ascending by order, every recorded roster is ascending with unique orders, so the processing order each turn takes from its roster is ascending |
| SimulationProofs.ParsedRunInOrder | src/simulation.ts:108-111 | starting from a parsed map, whose actors the sort leaves ascending, every recorded turn has its actors in ascending order with unique orders |

## Left out

- Text tokenisation (`trim`, `split`, `filter`, src/simulation.ts:44-45): parsing takes rows of tokens. The round trip is stated on these rows and on the printed text, not on re-splitting that text. Re-splitting loses rows of a zero-width map: with two or more rows `printMap` gives only newlines, which `trim` and `split` turn into a single empty row printed as one newline. A round trip through text therefore needs width 1 or more, which `Printable` does not demand.
- Tokens are sequences of Unicode code points, while `val.length` and `val.charAt` (src/simulation.ts:74-94) count UTF-16 code units. A tag holding a character outside the Basic Multilingual Plane is measured differently: `p1😀` is 4 units long in the engine, which reports `player face invalid`, but 3 characters in the model, which reports `malformed player tag`.
- Codec.ParseInput: requires hexadecimal digits at a tag's order and health positions. `parseInt` returning NaN for other characters is not modelled.
- Codec.SortByOrder: states the outcome of the JavaScript `sort` with the throwing comparator, not its algorithm. Any comparison sort must compare two actors that share an order, so it fails exactly when a repeated order exists.
- JSON deep cloning (src/simulation.ts:149): recorded maps are immutable values, which gives the same snapshot semantics.
- In-place mutation of actor objects: modelled as index updates on a value map. Object identity and aliasing are not modelled.
- Thrown exceptions: a parse error is an `Err` message. The out-of-range grid access on an off-grid move is the `Crashed` outcome, not a JavaScript exception.
- The `rotation` field of enemies: it is never read by the engine.
- JavaScript number semantics: health and orders are unbounded integers. Floating-point values cannot arise from single-digit tags and unit decrements.
- Enemy turning after a miss: commented out in the source (src/simulation.ts:236-239), so it is not modelled.
- pages/index.tsx is not part of this model. It is a user interface holding copies of these functions and an older engine.

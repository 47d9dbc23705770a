# Die to Live — a verified model of the simulation core

Die to Live is a tower-defense game. Zombies walk a fixed lane of fifteen
waypoints across a 15 x 15 grid towards the player's base. The player buys
towers (Arrow, Bomb, Ice, Minigun), drags them onto free cells off the lane,
and upgrades or sells them. The game moves through the phases BUILD, COMBAT,
PHASE2, GAME_OVER and WIN. If the base falls before wave 20 the game is over.
From wave 20 on the base gets a second chance instead: after a short
transition the game enters PHASE2, where clicking on zombies damages them
directly. Reaching wave 40 wins, but only from the ordinary waves: once
PHASE2 has begun the wave never advances again, so a game in PHASE2 can
neither be won nor reset (see the last item of the next section).

This project models the integer core of the game: the phase and wave state
machine, the tower economy, and the combat bookkeeping of one tick. Five
modules make it up:

- `Rules` (rules.dfy): the grid, the lane, the zombie kinds with their
  rewards, damage and health, and the wave-dependent choice of the next
  zombie's kind.
- `Towers` (towers.dfy):
  - the four tower kinds, their placement costs and upgrade tables;
  - `getUpgradeCost`/`upgrade`, written as the source's per-kind `if` chains
    and proved against reference tables;
  - the sell refund;
  - `Tower.update`, written as the source's scanning loop and proved against
    a first-nearest-in-reach function.
- `Sim` (sim.dfy): the whole mutable state of the game as one value `Snap`.
  Each block of `tick()` and each input handler is a function on it, and the
  invariant `Inv` describes every state a game can reach.
- `SimProofs` (sim_proofs.dfy):
  - `Inv` is kept by every step and every handler;
  - exact coin, level and counter deltas;
  - terminal states, spawning cadence, path progress and arrival at the base;
  - the tower loop fires each tower once;
  - concrete play scenarios.
- `Engine` (engine.dfy): the class `Game`. Its fields are the panel's fields,
  grouped as the source groups their declarations. Its methods are written
  as the source writes `tick()`, `spawnZombie()`, `handleBaseDestroyed()`,
  `startNextWave()`, `isValidPlacement()`, the mouse and key handlers and
  `resetGame()`. Each method is proved to leave the fields equal to the
  matching `Sim` function applied to the old fields. The constructor builds
  the path grid with the source's loop and proves that it marks exactly the
  in-bounds waypoints.

Zombie objects are modelled by handles. `store` maps every handle ever issued
to its zombie, and `zombies` is the live list of handles. A projectile holds
its target's handle, just as the source's projectile holds a Java reference
that stays usable after the zombie has left the live list.

What one tick cannot compute from the integer state is a parameter of type
`Sim.Oracle`:

- the outcome of each projectile's flight (reached its target, left the
  screen, still flying);
- whether each zombie reaches its next waypoint this tick;
- the random kind drawn from wave 15 on;
- the iteration order of the tower map;
- the distance from a tower's cell centre to each zombie.

A left click in PHASE2 takes, for each zombie, whether it lies within 30
pixels of the click.

## Behaviour of the code that the model keeps

- Coins can go negative. Affordability is checked when a tower is picked up
  (DieToLive.java:1159) but not when it is dropped (DieToLive.java:1171-1173),
  so an upgrade bought in between leaves too little for the drop
  (`SimProofs.NegativeCoinsScenario`: 100 coins end at -30).
- The PHASE2 click upgrade costs 50 coins every time, whatever the click
  level (DieToLive.java:1255-1259, `SimProofs.ClickUpgrade`).
- `resetGame()` (DieToLive.java:1301-1318) does not touch the pending-spawn
  counter, the spawn timer, the dragged tower, its drag point or the chosen
  tower kind (`SimProofs.ResetExact`).
- `hitTarget()` (DieToLive.java:913-929) does not check that its target is
  still alive. A projectile that reaches an already dead zombie damages it
  again and credits its reward again (`Sim.Hit`).
- `handleBaseDestroyed()` (DieToLive.java:319-327) does not look at the
  phase-2 flag, so the destruction of the base fires again while the
  transition runs, and each time the base is set back to 50 health
  (`SimProofs.Arrival`). The transition's progress is never reset when PHASE2
  begins (DieToLive.java:262-268).
- Suppose the last zombie of a wave dies in the same tick in which the
  phase-2 transition completes. The wave-clear check (DieToLive.java:219-224)
  pauses the game, and the phase-2 block (DieToLive.java:264-268) then enters
  PHASE2, so the tick ends in PHASE2 with the game paused
  (`SimProofs.ClearAndCommit`). The space key acts only in BUILD and COMBAT
  (DieToLive.java:1241-1247), and a paused game does not tick
  (DieToLive.java:179), so no input unpauses it (`SimProofs.PausedPhase2Stays`).
- PHASE2 is never left, paused or not. The phase is assigned only at
  DieToLive.java:221 (which needs COMBAT, line 219), 266 (into PHASE2), 279
  (which needs wave 40, line 278), 324 (which needs a wave below 20, line
  320), 337 and 1302. `startNextWave()` (line 337) is called only from BUILD
  (lines 1242-1243), `resetGame()` (line 1302) runs only in GAME_OVER or WIN
  (line 1284), and spawning needs COMBAT (line 227). So the wave stays
  frozen between 20 and 39, and neither WIN nor a reset can be reached
  (`SimProofs.Phase2Absorbing`; `Sim.Inv` records that a game in PHASE2 is
  below wave 40).

## Model

| member | source | states |
|---|---|---|
| Rules.SpawnKind | DieToLive.java:288-301 | below wave 5 always Basic; waves 5-9 Basic exactly on even waves, else Speedy; waves 10-14 rotate Basic/Speedy/Abnormal by wave mod 3; never Charged before wave 15; from wave 15 the random draw |
| Towers.CostTable | DieToLive.java:715-826 | each kind's upgrade-cost table has one entry per level above the first, and every entry is positive |
| Towers.NewTower | DieToLive.java:703-818 | a new tower is well formed, of the requested kind, at level 1 with no cooldown |
| Towers.UpgradeCost | DieToLive.java:715-826 | getUpgradeCost is the table's cost of the next level, 0 at the maximum level; never negative; positive exactly when a well-formed tower is below its maximum level |
| Towers.Upgrade | DieToLive.java:722-848 | when the next level exists and is affordable, coins drop by exactly getUpgradeCost and the tower gains one level with the table's damage; otherwise nothing changes; a well-formed tower stays well formed and within its maximum level |
| Towers.UpgradeSeries | DieToLive.java:1251-1254 | any number of upgrade attempts keeps the tower well formed, never passes the kind's maximum level, charges exactly the table's costs of the levels gained, and never takes a non-negative balance below zero |
| Towers.FullUpgradeCosts | DieToLive.java:715-826 | a full upgrade from level 1 costs 70 (Arrow), 0 (Bomb), 285 (Ice) and 1150 (Minigun) coins |
| Towers.Refund | DieToLive.java:1265 | the refund is sixty percent of the cost rounded toward zero, bounded from both sides |
| Towers.SellValues | DieToLive.java:1216 | selling refunds 18, 24, 15 and 180 coins for Arrow, Bomb, Ice and Minigun |
| Towers.NearestInRange | DieToLive.java:649-665 | None exactly when no distance is strictly within reach; otherwise the index of an in-reach distance no other in-reach distance undercuts, with every earlier in-reach distance strictly larger (the first nearest) |
| Towers.TowerUpdate | DieToLive.java:642-680 | a cooling tower counts down by one and does not fire; a ready tower fires exactly when some zombie is strictly within reach, at the first nearest one, with its own damage, and restarts its cooldown; a miss leaves it unchanged; only the cooldown ever changes; well-formedness (cooldown within 0..maxCooldown) is kept |
| Towers.UpdateTower | DieToLive.java:642-680 | the scanning loop with a running minimum computes TowerUpdate |
| Sim.RemoveFirst | DieToLive.java:920 | List.remove drops one occurrence: nothing new appears, every other element stays, the length drops by one when present, and on a list without repetitions the element is gone and none appear |
| Sim.Hit | DieToLive.java:913-929 | the target loses exactly the projectile's damage; its reward is credited exactly when that leaves it at or below zero health; it leaves the live list exactly when killed; nothing else changes; a handle with no zombie changes nothing |
| Sim.Resolved | DieToLive.java:198-207 | resolving the projectiles that reached their targets changes only zombies and coins, keeps every zombie object, and never lowers coins |
| Sim.Airborne | DieToLive.java:198-207 | the projectiles kept by the loop are among the old ones and are no more of them (how many exactly: SimProofs.AirborneCount) |
| Sim.Advanced | DieToLive.java:987-1001 | the path index never moves back, advances by at most one, advances exactly when the next waypoint is reached before the last, and never passes the last waypoint |
| Sim.Marched | DieToLive.java:236-251 | one zombie moves; only the zombie objects, the live list, the base health, the phase and the phase-2 flag can change; the phase changes only to GAME_OVER (paused, before wave 20); the flag is only raised, from wave 20 on |
| Sim.MarchedAll | DieToLive.java:236-252 | the zombie loop keeps every zombie object and every other field outside zombies, base health, phase and phase-2 flag; the phase only becomes GAME_OVER before wave 20; the flag only rises from wave 20 on |
| Sim.FiredAll | DieToLive.java:255-259 | the tower loop keeps the set of tower cells, changes nothing but towers and projectiles, and only appends projectiles |
| Sim.Clicked | DieToLive.java:1120-1139 | a zombie out of reach is untouched; one in reach loses exactly the click damage, pays 2 coins plus its reward exactly when killed, and leaves the live list exactly when killed; nothing else changes |
| Sim.ClickedAll | DieToLive.java:1118-1140 | the PHASE2 click changes only the zombie objects, coins and the live list, and keeps every handle; what it does to each is SimProofs.ClickedAllStore, ClickedAllCoins and ClickedAllLive |
| SimProofs.InitialInv | DieToLive.java:27-60 | the initial field values satisfy the game invariant |
| SimProofs.HitInv | DieToLive.java:913-929 | a hit keeps the invariant |
| SimProofs.ResolvedInv | DieToLive.java:198-207 | resolving any projectile sequence keeps the invariant |
| SimProofs.AirborneKeepsFlying | DieToLive.java:198-207 | every projectile still flying stays in the list |
| SimProofs.AirborneLength | DieToLive.java:198-207 | the list keeps its length exactly when every projectile is still flying |
| SimProofs.AirborneCount | DieToLive.java:198-207 | the loop keeps exactly as many projectiles as are still flying, so every one that reached its target or left the screen is removed (counted, since equal projectiles can repeat) |
| SimProofs.ProjectilesMovedInv | DieToLive.java:198-207 | the projectile loop keeps the invariant |
| SimProofs.WithSpawnInv | DieToLive.java:288-305 | a spawn on the 30th tick keeps the invariant (fresh handle, full health, first waypoint) |
| SimProofs.TimerInv | DieToLive.java:227-233 | a spawn timer within 0..29 keeps the invariant |
| SimProofs.SpawnCheckedInv | DieToLive.java:226-233 | the spawn block keeps the invariant |
| SimProofs.MarchedInv | DieToLive.java:236-251 | one pass of the zombie loop keeps the invariant |
| SimProofs.MarchedAllInv | DieToLive.java:236-252 | the zombie loop keeps the invariant |
| SimProofs.FireInv | DieToLive.java:642-680 | one tower update keeps the invariant |
| SimProofs.FiredAllInv | DieToLive.java:255-259 | the tower loop keeps the invariant |
| SimProofs.RampedInv | DieToLive.java:262-275 | below wave 40 the phase-2 block keeps the invariant (at wave 40 it can enter PHASE2, which the win check then overrides) |
| SimProofs.EndOfTickInv | DieToLive.java:262-281 | the phase-2 block and the win check keep the invariant |
| SimProofs.TickInv | DieToLive.java:196-282 | a whole tick keeps the invariant, whatever the oracle |
| SimProofs.EarlyTickLive | DieToLive.java:196-233 | after the projectile, wave-clear and spawn blocks every live zombie is a stored one |
| SimProofs.StepInv | DieToLive.java:179 | a game-loop step keeps the invariant |
| SimProofs.ClickedInv | DieToLive.java:1120-1139 | a click on one zombie keeps the invariant |
| SimProofs.ClickedAllInv | DieToLive.java:1118-1140 | the PHASE2 click keeps the invariant |
| SimProofs.DroppedInv | DieToLive.java:1169-1178 | a drop keeps the invariant: a placed tower stands in bounds, off the lane, well formed |
| SimProofs.LeftPressedInv | DieToLive.java:1109-1178 | a left press keeps the invariant |
| SimProofs.UpgradedSelectedInv | DieToLive.java:1206-1208 | an upgrade of the selected tower keeps the invariant |
| SimProofs.SoldSelectedInv | DieToLive.java:1213-1222 | a sale keeps the invariant (the selection is cleared with the tower) |
| SimProofs.NextWaveInv | DieToLive.java:332-339 | startNextWave keeps the invariant |
| SimProofs.KeyPressedInv | DieToLive.java:1227-1295 | every key keeps the invariant |
| SimProofs.ApplyInv | DieToLive.java:1104-1295 | every input command keeps the invariant |
| SimProofs.EarlyTickAccounting | DieToLive.java:196-233 | the projectile, wave-clear and spawn blocks keep the wave and the towers, never lower coins, keep issued handles plus pending spawns constant, and spawn at most one zombie |
| SimProofs.TickAccounting | DieToLive.java:196-282 | a tick keeps the wave, never lowers coins, keeps issued handles plus pending spawns constant, lowers the pending spawns by at most one, and keeps the set of tower cells |
| SimProofs.LateTickAccounting | DieToLive.java:235-281 | the zombie loop, tower loop, phase-2 block and win check change neither wave, coins, handles, pending spawns nor tower cells |
| SimProofs.EndOfTickAccounting | DieToLive.java:261-281 | the phase-2 block and win check change neither wave, coins, handles, pending spawns nor towers |
| SimProofs.TerminalStep | DieToLive.java:178-180 | in GAME_OVER and WIN the game loop changes nothing |
| SimProofs.TerminalTick | DieToLive.java:196-282 | even a tick run in GAME_OVER or WIN leaves the phase as it was and the game paused |
| SimProofs.WinForced | DieToLive.java:278-281 | from wave 40 on every tick ends in WIN, paused |
| SimProofs.WaveClearBonus | DieToLive.java:219-224 | clearing a wave pays exactly 30 + 15 x wave coins and pauses, and the tick ends in BUILD unless the phase-2 effect or the win check overrides it |
| SimProofs.SpawnEvery30 | DieToLive.java:227-233 | the spawn timer counts modulo 30; a zombie spawns (and the pending count drops by one) exactly on the 30th tick, appended to the live list with the wave's kind, full health, its kind's damage, at the first waypoint |
| SimProofs.MarchedAllStore | DieToLive.java:236-252 | the zombie loop advances each zombie of the list exactly once and leaves every other zombie alone |
| SimProofs.ResolvedKeepsProgress | DieToLive.java:913-929 | hits change no zombie's kind or path index |
| SimProofs.EarlyTickProgress | DieToLive.java:196-233 | the blocks before the zombie loop keep the live list free of repetitions and no zombie's path index changes |
| SimProofs.PathProgress | DieToLive.java:987-1001 | over a whole tick a zombie's path index rises by at most one and never passes the last waypoint |
| SimProofs.Arrival | DieToLive.java:242-251 | a zombie that reaches the last waypoint leaves the live list (the others stay, in order) and damages the base by exactly its damage; a destroyed base means GAME_OVER and pause before wave 20, and 50 health plus the phase-2 flag from wave 20 on; a zombie not arriving only advances |
| SimProofs.FiredAllTowers | DieToLive.java:255-259 | each tower in the visiting order is updated exactly once against the live list, the others are untouched, and at most one projectile per visit is added |
| SimProofs.EachTowerOnce | DieToLive.java:255-259 | when the order enumerates the map, every tower gets exactly one update and at most one projectile per tower is added |
| SimProofs.EnumerationLength | DieToLive.java:255 | an enumeration of the tower map has one entry per tower |
| SimProofs.DropPlaces | DieToLive.java:1169-1178 | a drop on a valid cell inserts a new tower of the dragged kind there and deducts exactly its placement cost; on an invalid cell neither towers nor coins change; the drag ends either way |
| SimProofs.PickUp | DieToLive.java:1148-1168 | outside PHASE2 with nothing dragged, a tower of the chosen kind is picked up exactly when the coins cover its cost, at the clicked cell, with no coins spent and no tower placed |
| SimProofs.UpgradeSelectedExact | DieToLive.java:1249-1254 | upgrading the selected tower below its maximum level when affordable changes only that tower, raises its level by one with the table's damage and deducts exactly the table's cost; otherwise nothing changes |
| SimProofs.SellSelectedExact | DieToLive.java:1263-1279 | selling refunds sixty percent of the kind's cost rounded down, removes exactly that tower, clears the selection, and changes nothing else |
| SimProofs.ClickUpgrade | DieToLive.java:1255-1259 | in PHASE2 with no tower selected, T with at least 50 coins raises click damage by exactly 3 for exactly 50 coins and keeps the invariant; with fewer it changes nothing |
| SimProofs.SpaceKey | DieToLive.java:1241-1247 | in BUILD space starts the next wave (wave + 1, 5 + wave pending, COMBAT, running); in COMBAT it toggles pause and nothing else; in any other phase it changes nothing |
| SimProofs.ResetExact | DieToLive.java:1301-1318 | R is ignored outside GAME_OVER and WIN; there it restores the initial values of everything except the pending-spawn counter, spawn timer, dragged tower, drag point and chosen kind |
| SimProofs.TerminalHandlers | DieToLive.java:1227-1295 | in GAME_OVER and WIN no input but R changes the phase, the pause or the wave |
| SimProofs.TerminalLeftPress | DieToLive.java:1104-1178 | in GAME_OVER and WIN a left press keeps phase, pause and wave |
| SimProofs.PausedPhase2Stays | DieToLive.java:1241-1247 | a paused game in PHASE2 does not tick, and no input unpauses it or leaves PHASE2 |
| SimProofs.Phase2Absorbing | DieToLive.java:179-339 | in PHASE2 neither a game-loop step nor any input command changes the phase or the wave |
| SimProofs.Phase2TickStays | DieToLive.java:196-282 | a tick in PHASE2 below wave 40 keeps the phase and the wave |
| SimProofs.Phase2InputStays | DieToLive.java:1104-1295 | no input command in PHASE2 changes the phase or the wave |
| SimProofs.ClearAndCommit | DieToLive.java:219-275 | a wave cleared in the tick that completes the phase-2 effect ends in PHASE2 with the game paused |
| SimProofs.ClickedAllStore | DieToLive.java:1120-1139 | over distinct handles the click hits every listed zombie within reach exactly once, by exactly the click damage, and leaves every other zombie untouched; the click damage does not change |
| SimProofs.ClickedAllCoins | DieToLive.java:1120-1139 | the click pays exactly 2 coins for each listed zombie within reach plus the reward of each one it kills |
| SimProofs.ClickedAllLive | DieToLive.java:1120-1139 | the click removes from the live list exactly the listed zombies within reach that it kills, and the list stays free of repetitions |
| SimProofs.PhaseTwoClick | DieToLive.java:1118-1140 | a left press in PHASE2 damages every live zombie within reach, not only the nearest, by exactly the click damage, leaves the others alone, pays exactly the per-zombie coins and rewards, and removes exactly the killed zombies |
| SimProofs.EarlyTickPhase | DieToLive.java:196-233 | the blocks before the zombie loop leave the phase-2 effect, the click damage and level, and the wave alone, and neither enter nor leave PHASE2 |
| SimProofs.LateTickPhase | DieToLive.java:235-259 | from wave 20 on the zombie and tower loops keep the phase-2 progress, click damage and level and the wave, never end the effect, and neither enter nor leave PHASE2 |
| SimProofs.Phase2Commit | DieToLive.java:262-268 | the tick in which the phase-2 effect completes enters PHASE2 with click damage 1 and click level 0 and ends the transition |
| SimProofs.Phase2Progress | DieToLive.java:262-264 | a tick of the phase-2 effect that does not complete it advances it by one step, keeps the click damage and level, and neither enters nor leaves PHASE2 |
| SimProofs.PlaceArrowScenario | DieToLive.java:1148-1178 | from a new game, pick up an Arrow, drag it to (2, 2) and drop it: one Arrow tower there and 70 coins left |
| SimProofs.PathDropScenario | DieToLive.java:1169-1178 | dropping on a lane cell places nothing and costs nothing |
| SimProofs.FirstWaveScenario | DieToLive.java:332-339 | space in a new game starts wave 1 with 6 zombies to spawn, in COMBAT, running |
| SimProofs.PlaceFirstArrow | DieToLive.java:1148-1178 | picking up and dropping an Arrow at (0, 0) of a new game leaves that tower and 70 coins |
| SimProofs.SelectAndPickUp | DieToLive.java:1179-1188 | selecting the tower with the right button and then pressing left picks up a second Arrow |
| SimProofs.UpgradeTwice | DieToLive.java:1248-1254 | two presses of T take the selected Arrow to level 3 with damage 8 for all 70 coins |
| SimProofs.DropSecondArrow | DieToLive.java:1169-1174 | dropping the second Arrow with no coins left still places it, leaving -30 coins |
| SimProofs.NegativeCoinsScenario | DieToLive.java:1159-1173 | the whole sequence from a new game ends with a second tower placed and the balance at -30 |
| SimProofs.BaseDestroyedScenarios | DieToLive.java:319-327 | a zombie destroying a base with 1 health means GAME_OVER in wave 19 and a base back at 50 with the phase-2 flag in wave 25 |
| Engine.BuildPathGrid | DieToLive.java:133-139 | the constructor's loop yields a fresh 15 x 15 grid that is true exactly at the in-bounds waypoints |
| Engine.MovedAt | DieToLive.java:198-207 | one pass of the projectile loop resolves a projectile that reached its target, drops it unless it is still flying, and leaves the others in order |
| Engine.ProjectileLoopStep | DieToLive.java:198-207 | one iterator pass extends the hit fold and the kept list by one projectile, so the loop invariant is preserved |
| Engine.Game.constructor | DieToLive.java:27-60 | a new game has the initial field values, satisfies the invariant, and its path grid marks exactly the lane |
| Engine.Game.IsValidPlacement | DieToLive.java:603-612 | a placement is valid exactly when the cell is in bounds, off the lane and free |
| Engine.Game.HitTarget | DieToLive.java:913-929 | computes Sim.Hit on the fields |
| Engine.Game.UpdateProjectiles | DieToLive.java:198-207 | the iterator loop computes Sim.ProjectilesMoved: hits resolved in list order, the still-flying projectiles kept in order |
| Engine.Game.MoveProjectile | DieToLive.java:199-206 | one iterator pass: resolve or remove the current projectile, and advance past it only when it stays |
| Engine.Game.SpawnZombie | DieToLive.java:288-305 | computes Sim.WithSpawn: one new zombie of the wave's kind, one fewer pending |
| Engine.Game.HandleBaseDestroyed | DieToLive.java:319-327 | computes Sim.BaseDestroyed |
| Engine.Game.UpdateZombies | DieToLive.java:236-252 | the iterator loop computes Sim.MarchedAll over the live list as it stood |
| Engine.Game.MoveZombie | DieToLive.java:238-251 | one pass of the zombie loop computes Sim.Marched |
| Engine.Game.UpdateTowers | DieToLive.java:255-259 | the map loop computes Sim.FiredAll in the map's order |
| Engine.Game.CheckWaveCleared | DieToLive.java:219-224 | computes Sim.WaveChecked |
| Engine.Game.CheckSpawn | DieToLive.java:227-233 | computes Sim.SpawnChecked |
| Engine.Game.FinishTick | DieToLive.java:262-281 | computes the phase-2 block and the win check, whose effect over a tick is SimProofs.Phase2Commit, Phase2Progress and WinForced |
| Engine.Game.Tick | DieToLive.java:196-282 | tick() computes Sim.Ticked, about which TickInv, TickAccounting, PathProgress and the other tick lemmas hold |
| Engine.Game.Step | DieToLive.java:179 | the game loop ticks only while not paused (Sim.Stepped) |
| Engine.Game.StartNextWave | DieToLive.java:332-339 | computes Sim.NextWave |
| Engine.Game.ClickDamage | DieToLive.java:1118-1140 | the click loop over a copy of the live list computes Sim.ClickedAll, so every live zombie within reach is hit exactly once (SimProofs.PhaseTwoClick) |
| Engine.Game.ClickZombie | DieToLive.java:1121-1139 | computes Sim.Clicked for one zombie |
| Engine.Game.PickUpTower | DieToLive.java:1148-1168 | picks up a new tower of the chosen kind at the cell exactly when affordable |
| Engine.Game.DropTower | DieToLive.java:1169-1178 | computes Sim.Dropped, using the path grid for the placement test |
| Engine.Game.MousePressedLeft | DieToLive.java:1109-1178 | computes Sim.LeftPressed |
| Engine.Game.MousePressedRight | DieToLive.java:1179-1188 | computes Sim.RightPressed |
| Engine.Game.MouseDragged | DieToLive.java:1096-1101 | computes Sim.DraggedTo |
| Engine.Game.UpgradeSelected | DieToLive.java:1206-1208 | computes Sim.UpgradedSelected |
| Engine.Game.SellSelected | DieToLive.java:1213-1222 | computes Sim.SoldSelected |
| Engine.Game.ResetGame | DieToLive.java:1301-1318 | computes Sim.ResetState |
| Engine.Game.UpgradeClick | DieToLive.java:1255-1259 | pays 50 coins, raises the click level by one and sets click damage to 1 + 3 x level; nothing else changes |
| Engine.Game.KeyPressed | DieToLive.java:1227-1295 | computes Sim.KeyPressed |

## Left out

- Rendering, fonts, images, the popup drawing and the hover cell are not modelled. A press is given as a cell plus a flag saying whether it falls outside an open popup. The popup's hit-testing becomes the commands `PopupUpgrade` and `PopupSell`.
- The game-loop thread `run()` is not modelled: its nanosecond clock, its double accumulator and its sleeps are timing plumbing. `Game.Step` is one pass of its inner `if (!isPaused) tick()`.
- Concurrency is not modelled. `tick()` runs on the game-loop thread (DieToLive.java:161, 179) while the mouse and key handlers run on the Swing event thread, with no synchronisation. A handler can therefore interleave with a tick: `towers.put` (DieToLive.java:1172) during the `towers.entrySet()` loop (DieToLive.java:255) can throw ConcurrentModificationException (the fail-fast check is best-effort between unsynchronised threads), which ends the game-loop thread. The model runs each input command (`Sim.Apply`) and each step (`Sim.Stepped`) atomically, one after the other.
- Floating-point geometry is not modelled: zombie and projectile positions, the square-root distances and the screen-width test. The outcomes come from `Sim.Oracle`: the flight of each projectile, whether a zombie reaches its next waypoint, and the distance from a tower to a zombie.
- Particles, blood effects and click effects are cosmetic, random and float valued, so they are not modelled.
- The random zombie kind from wave 15 on is a parameter, not a computed value.
- The iteration order of the tower `HashMap` is a parameter. `Tick` requires it to enumerate the map's keys.
- Sim.Ramped: the float `phase2EffectAlpha` grows by 0.02f per tick until it reaches 1.0f. The model counts ticks up to `RampSteps` = 51 instead: in binary32 the sum of fifty steps of 0.02f from 0f stays just below 1.0f, and the fifty-first reaches it. The float itself (its rounding, and its use as the effect's opacity) is not modelled.
- Java's 32-bit `int` fields (coins, base health, click damage and level, wave, counters) are modelled as unbounded integers. No wrap-around is modelled; overflow would need more than two billion coins or click levels, out of reach of any game that is played.
- The slow effect and the Ice tower's `freezeTime` are not modelled. `slowDown` is never called, so this is dead code.
- Towers.Refund computes sixty percent with exact integer arithmetic. The source multiplies by the double 0.6. The two agree on the four placement costs (`Towers.SellValues`).
- The selected tower instance is modelled by its position. With at most one tower per cell, `keyPressed`'s search for the selected instance by identity removes the tower at that position.
- The zombie loop's iterator removal in `tick()` is modelled as removal of the first equal handle. The live list has no repetitions (`Sim.Inv`), so this removes the zombie just visited. The projectile loop removes the visited projectile by its position in the list (`Engine.Game.MoveProjectile`), since equal projectiles can repeat.
- `Engine.Game.Valid` holds only the path grid. The invariant `Sim.Inv` is proved at the level of `Sim`: `SimProofs.StepInv` and `SimProofs.ApplyInv`, together with each method's `ensures`, show every method keeps `Inv(View())`.

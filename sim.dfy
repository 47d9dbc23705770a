/// The game state as one value (`Snap`) and every step of a tick and every
/// input handler as a function on it. These functions are the specification
/// the imperative `Engine.Game` class is proved against.
module Sim {
  import opened Rules
  import opened Towers

  datatype Phase = Build | Combat | Phase2 | GameOver | Win

  /** A zombie object: kind, current health, damage it deals to the base, last waypoint reached. */
  datatype Zombie = Zombie(kind: ZombieKind, health: int, damage: int, pathIndex: nat)

  /** A zombie as the Zombie constructor makes it: full health, at the first waypoint. */
  function Spawned(k: ZombieKind): Zombie {
    Zombie(k, MaxHealth(k), BaseDamage(k), 0)
  }

  /**
   * Ticks of the phase-2 effect before phase 2 begins: the source adds 0.02f per
   * tick, starting from 0f, until the float reaches 1.0f. In binary32 the sum of
   * fifty such steps rounds to just below 1.0f, so the test first holds after
   * the fifty-first; the sum only grows, so it holds on every later tick too.
   */
  const RampSteps: nat := 51

  /**
   * Every field of the game the simulation and the input handlers change.
   * `zombies` is the live list of zombie handles in list order; `store` holds
   * every zombie object ever spawned, so a projectile's handle stays usable
   * after its target has left the live list, as a Java reference does.
   * `selected` stands for the selected tower instance and its position;
   * `phase2Ramp` counts the ticks of the phase-2 effect.
   */
  datatype Snap = Snap(
    state: Phase, wave: nat, coins: int, baseHealth: int, paused: bool,
    selectedKind: TowerKind, towers: map<Cell, Tower>,
    draggedTower: Option<Tower>, dragPoint: Option<Cell>, selected: Option<Cell>,
    zombies: seq<nat>, store: map<nat, Zombie>, nextId: nat,
    zombiesToSpawn: int, spawnTimer: int, projectiles: seq<Projectile>,
    clickDamage: int, clickLevel: nat, phase2Transition: bool, phase2Ramp: nat)

  /** The field initialisers of a new game. */
  function Initial(): Snap {
    Snap(Build, 0, StartCoins, BaseHealth, true, Arrow, map[], None, None, None,
         [], map[], 0, 0, 0, [], 1, 0, false, 0)
  }

  predicate Distinct<T(==)>(xs: seq<T>) {
    forall i, j :: 0 <= i < j < |xs| ==> xs[i] != xs[j]
  }

  lemma DistinctCons<T>(a: T, xs: seq<T>)
    requires Distinct(xs) && a !in xs
    ensures Distinct([a] + xs)
  {
    var ys := [a] + xs;
    forall i, j | 0 <= i < j < |ys| ensures ys[i] != ys[j] {
      if i == 0 {
        assert ys[j] == xs[j - 1];
      } else {
        assert ys[i] == xs[i - 1] && ys[j] == xs[j - 1];
      }
    }
  }

  lemma DistinctTail<T>(xs: seq<T>)
    requires Distinct(xs) && xs != []
    ensures Distinct(xs[1..]) && xs[0] !in xs[1..]
  {
    forall j | 0 <= j < |xs| - 1 ensures xs[1..][j] != xs[0] {
      assert xs[1..][j] == xs[j + 1];
    }
  }

  /**
   * List.remove(Object): drop the first occurrence of x. Every other element
   * stays, nothing new appears, and on a list without repetitions x is gone
   * and none appear.
   */
  function RemoveFirst<T(==)>(xs: seq<T>, x: T): (r: seq<T>)
    ensures x !in xs ==> r == xs
    ensures x in xs ==> |r| == |xs| - 1
    ensures forall y :: y in r ==> y in xs
    ensures forall y :: y in xs && y != x ==> y in r
    ensures Distinct(xs) ==> Distinct(r) && x !in r
  {
    if xs == [] then []
    else if xs[0] == x then
      if Distinct(xs) then DistinctTail(xs); xs[1..] else xs[1..]
    else
      var rest := RemoveFirst(xs[1..], x);
      if Distinct(xs) then
        DistinctTail(xs);
        DistinctCons(xs[0], rest);
        [xs[0]] + rest
      else [xs[0]] + rest
  }

  /**
   * The invariant every tick and every handler keeps: live handles are
   * distinct, stored, below `nextId`, and name zombies that are alive and not
   * yet at the base; projectile targets are stored; each tower stands on an
   * in-bounds cell off the path and is well formed; a dragged tower is a fresh
   * tower with a drag point; the selected position holds a tower; the spawn
   * counters stay in range; click damage follows its level; phase 2 only
   * happens from wave 20 on; BUILD, GAME_OVER and WIN are paused; GAME_OVER
   * only happens before wave 20 and WIN only from wave 40 on.
   */
  ghost predicate Inv(s: Snap) {
    Distinct(s.zombies)
    && (forall id :: id in s.zombies ==>
          id in s.store && s.store[id].health > 0 && s.store[id].pathIndex < LastWaypoint)
    && (forall id :: id in s.store ==> id < s.nextId)
    && (forall p :: p in s.projectiles ==> p.target in s.store)
    && (forall c :: c in s.towers ==> InBounds(c) && !OnPath(c) && WellFormed(s.towers[c]))
    && (s.draggedTower.Some? <==> s.dragPoint.Some?)
    && (s.draggedTower.Some? ==> s.draggedTower.value == NewTower(s.draggedTower.value.kind))
    && (s.selected.Some? ==> s.selected.value in s.towers)
    && s.zombiesToSpawn >= 0 && 0 <= s.spawnTimer < 30
    && s.clickDamage == 1 + 3 * s.clickLevel
    && (s.phase2Transition ==> s.wave >= 20)
    && (s.state == Phase2 ==> 20 <= s.wave < 40)
    && (s.state == Build ==> s.paused)
    && (s.state == GameOver ==> s.paused && s.wave < 20)
    && (s.state == Win ==> s.paused && s.wave >= 40)
  }

  // ---------------------------------------------------------------- projectiles

  /** What a projectile does this tick: reaches its target, leaves the screen, or flies on. */
  datatype Flight = Reached | OffScreen | Flying

  /** `id` is the zombie the projectile `p` hit and brought to zero health or below. */
  predicate Killed(s: Snap, r: Snap, p: Projectile, id: nat) {
    id == p.target && p.target in s.store && id in r.store && r.store[id].health <= 0
  }

  /**
   * Projectile.hitTarget: the target loses exactly the projectile's damage; if
   * that leaves it at or below zero health its reward is credited and it
   * leaves the live list. A handle with no zombie behind it (the source's null
   * check) does nothing. The target is not required to be alive: a projectile
   * reaching an already dead zombie credits its reward again.
   */
  function Hit(s: Snap, p: Projectile): (r: Snap)
    ensures p.target !in s.store ==> r == s
    ensures r.store.Keys == s.store.Keys
    ensures forall id :: id in s.store && id != p.target ==> r.store[id] == s.store[id]
    ensures p.target in s.store ==>
              r.store[p.target] == s.store[p.target].(health := s.store[p.target].health - p.damage)
              && r.coins == s.coins + (if r.store[p.target].health <= 0
                                       then Reward(s.store[p.target].kind) else 0)
    ensures forall id :: id in s.zombies && !Killed(s, r, p, id) ==> id in r.zombies
    ensures Distinct(s.zombies) ==>
              Distinct(r.zombies)
              && forall id :: id in r.zombies <==> id in s.zombies && !Killed(s, r, p, id)
    ensures r.(store := s.store, coins := s.coins, zombies := s.zombies) == s
  {
    if p.target !in s.store then s
    else
      var z := s.store[p.target];
      var z' := z.(health := z.health - p.damage);
      if z'.health <= 0 then
        s.(store := s.store[p.target := z'], coins := s.coins + Reward(z.kind),
           zombies := RemoveFirst(s.zombies, p.target))
      else
        s.(store := s.store[p.target := z'])
  }

  /** The hits of the projectiles in list order: `flight(k)` is the outcome of the k-th. */
  function Resolved(s: Snap, ps: seq<Projectile>, flight: nat -> Flight): (r: Snap)
    ensures r.(store := s.store, coins := s.coins, zombies := s.zombies) == s
    ensures r.store.Keys == s.store.Keys
    ensures r.coins >= s.coins
    decreases |ps|
  {
    if ps == [] then s
    else
      var k := |ps| - 1;
      var r0 := Resolved(s, ps[..k], flight);
      if flight(k) == Reached then Hit(r0, ps[k]) else r0
  }

  /** The projectiles that neither reached their target nor left the screen, in order. */
  function Airborne(ps: seq<Projectile>, flight: nat -> Flight): (r: seq<Projectile>)
    ensures |r| <= |ps|
    ensures forall p :: p in r ==> p in ps
    decreases |ps|
  {
    if ps == [] then []
    else
      var k := |ps| - 1;
      Airborne(ps[..k], flight) + (if flight(k) == Flying then [ps[k]] else [])
  }

  /** The projectile loop of tick(). */
  function ProjectilesMoved(s: Snap, flight: nat -> Flight): Snap {
    Resolved(s, s.projectiles, flight).(projectiles := Airborne(s.projectiles, flight))
  }

  // ---------------------------------------------------------------- waves and spawning

  /** The wave-clear check of tick(). */
  function WaveChecked(s: Snap): Snap {
    if s.state == Combat && s.zombies == [] && s.zombiesToSpawn == 0 then
      s.(state := Build, coins := s.coins + 30 + 15 * s.wave, paused := true)
    else s
  }

  /** spawnZombie(): a fresh zombie of the wave's kind joins the end of the live list. */
  function WithSpawn(s: Snap, random: ZombieKind): Snap {
    s.(store := s.store[s.nextId := Spawned(SpawnKind(s.wave, random))],
       zombies := s.zombies + [s.nextId], nextId := s.nextId + 1,
       zombiesToSpawn := s.zombiesToSpawn - 1)
  }

  /** The spawn block of tick(): one zombie every 30 COMBAT ticks while some remain. */
  function SpawnChecked(s: Snap, random: ZombieKind): Snap {
    if s.state == Combat && s.zombiesToSpawn > 0 then
      var s1 := s.(spawnTimer := s.spawnTimer + 1);
      if s1.spawnTimer >= 30 then WithSpawn(s1, random).(spawnTimer := 0) else s1
    else s
  }

  /** startNextWave(): ignored in GAME_OVER and WIN. */
  function NextWave(s: Snap): Snap {
    if s.state == GameOver || s.state == Win then s
    else s.(wave := s.wave + 1, zombiesToSpawn := 5 + (s.wave + 1), state := Combat, paused := false)
  }

  // ---------------------------------------------------------------- zombies

  /**
   * The path-index part of Zombie.update: `reached` says whether the zombie got
   * to its next waypoint this tick. The index never moves back, moves at most
   * one step, and never passes the last waypoint.
   */
  function Advanced(z: Zombie, reached: bool): (r: Zombie)
    ensures r == z.(pathIndex := r.pathIndex)
    ensures z.pathIndex <= r.pathIndex <= z.pathIndex + 1
    ensures r.pathIndex > z.pathIndex <==> reached && z.pathIndex < LastWaypoint
    ensures z.pathIndex <= LastWaypoint ==> r.pathIndex <= LastWaypoint
  {
    if z.pathIndex < LastWaypoint && reached then z.(pathIndex := z.pathIndex + 1) else z
  }

  /** handleBaseDestroyed(): from wave 20 on a second chance and phase 2, before it game over. */
  function BaseDestroyed(s: Snap): Snap {
    if s.wave >= 20 then s.(phase2Transition := true, baseHealth := 50)
    else s.(state := GameOver, paused := true)
  }

  /**
   * One pass of the zombie loop of tick(): the zombie advances; at the last
   * waypoint it damages the base by its own damage and leaves the live list,
   * and a base at or below zero health is destroyed.
   */
  function Marched(s: Snap, id: nat, reached: bool): (r: Snap)
    requires id in s.store
    ensures r.store == s.store[id := Advanced(s.store[id], reached)]
    ensures r.(store := s.store, zombies := s.zombies, baseHealth := s.baseHealth, state := s.state,
               paused := s.paused, phase2Transition := s.phase2Transition) == s
    ensures (r.state == s.state && r.paused == s.paused) || (r.state == GameOver && r.paused && s.wave < 20)
    ensures r.phase2Transition != s.phase2Transition ==> r.phase2Transition && s.wave >= 20
  {
    var z := Advanced(s.store[id], reached);
    var s1 := s.(store := s.store[id := z]);
    if z.pathIndex >= LastWaypoint then
      var s2 := s1.(baseHealth := s1.baseHealth - z.damage, zombies := RemoveFirst(s1.zombies, id));
      if s2.baseHealth <= 0 then BaseDestroyed(s2) else s2
    else s1
  }

  /** The zombie loop of tick(), over the live list as it stood when the loop began. */
  function MarchedAll(s: Snap, ids: seq<nat>, reached: nat -> bool): (r: Snap)
    ensures r.store.Keys == s.store.Keys
    ensures r.(store := s.store, zombies := s.zombies, baseHealth := s.baseHealth, state := s.state,
               paused := s.paused, phase2Transition := s.phase2Transition) == s
    ensures (r.state == s.state && r.paused == s.paused) || (r.state == GameOver && r.paused && s.wave < 20)
    ensures r.phase2Transition != s.phase2Transition ==> r.phase2Transition && s.wave >= 20
    decreases |ids|
  {
    if ids == [] then s
    else
      var k := |ids| - 1;
      var r0 := MarchedAll(s, ids[..k], reached);
      if ids[k] in r0.store then Marched(r0, ids[k], reached(ids[k])) else r0
  }

  // ---------------------------------------------------------------- towers

  /** Tower.update for the tower at `pos`, against the current live list. */
  function Fire(s: Snap, pos: Cell, dist: (Cell, nat) -> real): Snap
    requires pos in s.towers
  {
    var f := TowerUpdate(s.towers[pos], pos, s.zombies, dist);
    s.(towers := s.towers[pos := f.tower],
       projectiles := s.projectiles + (if f.shot.Some? then [f.shot.value] else []))
  }

  /** The tower loop of tick(), visiting the towers in the map's iteration order `order`. */
  function FiredAll(s: Snap, order: seq<Cell>, dist: (Cell, nat) -> real): (r: Snap)
    ensures r.towers.Keys == s.towers.Keys
    ensures r.(towers := s.towers, projectiles := s.projectiles) == s
    ensures |s.projectiles| <= |r.projectiles| && r.projectiles[..|s.projectiles|] == s.projectiles
    decreases |order|
  {
    if order == [] then s
    else
      var k := |order| - 1;
      var r0 := FiredAll(s, order[..k], dist);
      if order[k] in r0.towers then Fire(r0, order[k], dist) else r0
  }

  /** An enumeration of the keys of a map: each key exactly once. */
  ghost predicate Enumerates(order: seq<Cell>, towers: map<Cell, Tower>) {
    Distinct(order) && forall c :: c in order <==> c in towers
  }

  // ---------------------------------------------------------------- end of tick

  /**
   * The phase-2 block of tick(). The progress is not reset when phase 2 begins
   * (the source never resets its alpha either), so a later destruction of the
   * base commits phase 2 again on the next tick.
   */
  function Ramped(s: Snap): Snap {
    if s.phase2Transition then
      var s1 := s.(phase2Ramp := s.phase2Ramp + 1);
      if s1.phase2Ramp >= RampSteps then
        s1.(phase2Transition := false, state := Phase2, clickDamage := 1, clickLevel := 0)
      else s1
    else s
  }

  /** The win check that ends every tick. */
  function WinChecked(s: Snap): Snap {
    if s.wave >= 40 then s.(state := Win, paused := true) else s
  }

  /**
   * What one tick cannot compute from the state: each projectile's outcome
   * (by position in the list), the random kind drawn from wave 15 on, whether
   * each zombie (by handle) reaches its next waypoint, the iteration order of
   * the tower map, and the distance from a tower's cell to a zombie.
   */
  datatype Oracle = Oracle(flight: nat -> Flight, random: ZombieKind, reached: nat -> bool,
                           order: seq<Cell>, dist: (Cell, nat) -> real)

  /** tick(), in the source's order (particles left out). */
  function Ticked(s: Snap, o: Oracle): Snap {
    var s1 := ProjectilesMoved(s, o.flight);
    var s2 := WaveChecked(s1);
    var s3 := SpawnChecked(s2, o.random);
    var s4 := MarchedAll(s3, s3.zombies, o.reached);
    var s5 := FiredAll(s4, o.order, o.dist);
    WinChecked(Ramped(s5))
  }

  /** One step of the game loop: tick() only while not paused. */
  function Stepped(s: Snap, o: Oracle): Snap {
    if s.paused then s else Ticked(s, o)
  }

  // ---------------------------------------------------------------- input handlers

  /** isValidPlacement(): in bounds, off the path, and not occupied. */
  predicate PlacementOk(s: Snap, c: Cell) {
    InBounds(c) && !OnPath(c) && c !in s.towers
  }

  /**
   * One zombie of the PHASE2 click: `near` says whether it lies within 30 px
   * of the click. A hit zombie loses the click damage and pays 2 coins; one
   * that falls to zero health or below also pays its reward and leaves the
   * live list.
   */
  function Clicked(s: Snap, id: nat, near: bool): (r: Snap)
    requires id in s.store
    ensures !near ==> r == s
    ensures r.store.Keys == s.store.Keys
    ensures near ==> r.store == s.store[id := s.store[id].(health := s.store[id].health - s.clickDamage)]
    ensures near ==> r.coins == s.coins + 2 + (if r.store[id].health <= 0 then Reward(s.store[id].kind) else 0)
    ensures near && r.store[id].health <= 0 ==> r.zombies == RemoveFirst(s.zombies, id)
    ensures near && r.store[id].health > 0 ==> r.zombies == s.zombies
    ensures r.(store := s.store, coins := s.coins, zombies := s.zombies) == s
  {
    if near then
      var z := s.store[id].(health := s.store[id].health - s.clickDamage);
      var s1 := s.(store := s.store[id := z], coins := s.coins + 2);
      if z.health <= 0 then
        s1.(coins := s1.coins + Reward(z.kind), zombies := RemoveFirst(s1.zombies, id))
      else s1
    else s
  }

  /** The PHASE2 click loop, over a copy of the live list. */
  function ClickedAll(s: Snap, ids: seq<nat>, near: nat -> bool): (r: Snap)
    ensures r.store.Keys == s.store.Keys
    ensures r.(store := s.store, coins := s.coins, zombies := s.zombies) == s
    decreases |ids|
  {
    if ids == [] then s
    else
      var k := |ids| - 1;
      var r0 := ClickedAll(s, ids[..k], near);
      if ids[k] in r0.store then Clicked(r0, ids[k], near(ids[k])) else r0
  }

  /**
   * mousePressed with the left button at cell `c`. `outsidePopup` says a popup
   * is open and the click falls outside it; `near` says which zombies lie
   * within 30 px of the click. In PHASE2 the click damages; otherwise it picks
   * up a tower of the selected kind when affordable, or drops the dragged one.
   */
  function LeftPressed(s: Snap, c: Cell, outsidePopup: bool, near: nat -> bool): Snap {
    var s0 := if outsidePopup then s.(selected := None) else s;
    if s0.state == Phase2 then ClickedAll(s0, s0.zombies, near)
    else if s0.draggedTower.None? then
      if s0.coins >= PlaceCost(s0.selectedKind) then
        s0.(draggedTower := Some(NewTower(s0.selectedKind)), dragPoint := Some(c))
      else s0
    else Dropped(s0)
  }

  /**
   * The drop branch of the left press: the dragged tower is placed at the drag
   * point if that cell is a valid placement, and its cost is paid without
   * checking the balance; the drag ends either way.
   */
  function Dropped(s: Snap): Snap
    requires s.draggedTower.Some?
  {
    var s1 := if s.dragPoint.Some? && PlacementOk(s, s.dragPoint.value) then
                s.(towers := s.towers[s.dragPoint.value := s.draggedTower.value],
                   coins := s.coins - s.draggedTower.value.cost)
              else s;
    s1.(draggedTower := None, dragPoint := None)
  }

  /** mousePressed with the right button: select the tower at `c`, if any. */
  function RightPressed(s: Snap, c: Cell): Snap {
    s.(selected := if c in s.towers then Some(c) else None)
  }

  /** mouseDragged: move the drag point while a tower is dragged. */
  function DraggedTo(s: Snap, c: Cell): Snap {
    if s.draggedTower.Some? then s.(dragPoint := Some(c)) else s
  }

  /** The upgrade button and the T key with a tower selected. */
  function UpgradedSelected(s: Snap): Snap {
    if s.selected.Some? && s.selected.value in s.towers then
      var t := s.towers[s.selected.value];
      var cost := UpgradeCost(t);
      if cost > 0 && s.coins >= cost then
        var u := Upgrade(t, s.coins);
        s.(towers := s.towers[s.selected.value := u.tower], coins := u.coins)
      else s
    else s
  }

  /** The sell button and the Z key: refund 60% of the cost and remove the tower. */
  function SoldSelected(s: Snap): Snap {
    if s.selected.Some? && s.selected.value in s.towers then
      var pos := s.selected.value;
      s.(coins := s.coins + Refund(s.towers[pos].cost), towers := s.towers - {pos}, selected := None)
    else s
  }

  /** resetGame(): what it restores; it leaves the spawn counters, drag state and chosen kind alone. */
  function ResetState(s: Snap): Snap {
    s.(state := Build, wave := 0, coins := StartCoins, baseHealth := BaseHealth,
       towers := map[], zombies := [], projectiles := [], selected := None, paused := true,
       phase2Transition := false, phase2Ramp := 0, clickDamage := 1, clickLevel := 0)
  }

  datatype Key = Digit(kind: TowerKind) | Space | KeyT | KeyZ | KeyR | Escape

  /** keyPressed. */
  function KeyPressed(s: Snap, k: Key): Snap {
    match k
    case Digit(kind) => s.(selectedKind := kind)
    case Space =>
      if s.state == Build then NextWave(s)
      else if s.state == Combat then s.(paused := !s.paused)
      else s
    case KeyT =>
      if s.selected.Some? then UpgradedSelected(s)
      else if s.state == Phase2 && s.coins >= 50 then
        s.(coins := s.coins - 50, clickLevel := s.clickLevel + 1,
           clickDamage := 1 + 3 * (s.clickLevel + 1))
      else s
    case KeyZ => if s.selected.Some? then SoldSelected(s) else s
    case KeyR => if s.state == GameOver || s.state == Win then ResetState(s) else s
    case Escape => s.(selected := None)
  }

  /** The input events the core consumes. */
  datatype Command =
    | LeftPress(cell: Cell, outsidePopup: bool, near: nat -> bool)
    | RightPress(cell: Cell)
    | DragTo(cell: Cell)
    | PopupUpgrade
    | PopupSell
    | Press(key: Key)

  function Apply(s: Snap, c: Command): Snap {
    match c
    case LeftPress(cell, outside, near) => LeftPressed(s, cell, outside, near)
    case RightPress(cell) => RightPressed(s, cell)
    case DragTo(cell) => DraggedTo(s, cell)
    case PopupUpgrade => UpgradedSelected(s)
    case PopupSell => SoldSelected(s)
    case Press(k) => KeyPressed(s, k)
  }
}

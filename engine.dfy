/// The game object: the fields of the panel that the simulation and the input
/// handlers change, and its methods written the way the source writes them,
/// each proved to compute the matching function of module Sim.
module Engine {
  import opened Rules
  import opened Towers
  import opened Sim
  import opened SimProofs

  /**
   * The path-grid loop of the constructor over a waypoint list: a fresh grid,
   * true exactly at the in-bounds waypoints.
   */
  method BuildPathGrid(path: seq<Cell>) returns (g: array2<bool>)
    ensures fresh(g) && g.Length0 == GridSize && g.Length1 == GridSize
    ensures forall x, y :: 0 <= x < GridSize && 0 <= y < GridSize ==> (g[x, y] <==> Cell(x, y) in path)
  {
    g := new bool[GridSize, GridSize]((x, y) => false);
    var i := 0;
    while i < |path|
      invariant 0 <= i <= |path|
      invariant forall x, y :: 0 <= x < GridSize && 0 <= y < GridSize ==> (g[x, y] <==> Cell(x, y) in path[..i])
    {
      var x, y := path[i].x, path[i].y;
      if 0 <= x < GridSize && 0 <= y < GridSize {
        g[x, y] := true;
      }
      assert path[..i + 1] == path[..i] + [path[i]];
      i := i + 1;
    }
    assert path[..i] == path;
  }

  lemma ResolvedStep(s: Snap, ps: seq<Projectile>, i: nat, flight: nat -> Flight)
    requires i < |ps|
    ensures Resolved(s, ps[..i + 1], flight)
            == if flight(i) == Reached then Hit(Resolved(s, ps[..i], flight), ps[i]) else Resolved(s, ps[..i], flight)
  {
    assert ps[..i + 1][..i] == ps[..i];
  }

  lemma AirborneStep(ps: seq<Projectile>, i: nat, flight: nat -> Flight)
    requires i < |ps|
    ensures Airborne(ps[..i + 1], flight) == Airborne(ps[..i], flight) + (if flight(i) == Flying then [ps[i]] else [])
  {
    assert ps[..i + 1][..i] == ps[..i];
  }

  /** Removing the element at index |a| of a + [x] + b leaves a + b. */
  lemma RemoveAt<T>(a: seq<T>, x: T, b: seq<T>)
    ensures (a + ([x] + b))[..|a|] + (a + ([x] + b))[|a| + 1..] == a + b
  {
    var xs := a + ([x] + b);
    assert xs[..|a|] == a;
    assert xs[|a| + 1..] == b;
  }

  /** The effect of one pass of the projectile loop on the projectile at index `j`. */
  function Moved(s: Snap, j: nat, f: Flight): Snap
    requires j < |s.projectiles|
  {
    var ps := s.projectiles;
    if f == Reached then Hit(s, ps[j]).(projectiles := ps[..j] + ps[j + 1..])
    else if f == OffScreen then s.(projectiles := ps[..j] + ps[j + 1..])
    else s
  }

  /**
   * One pass on the projectile at index |kept| of kept + [p] + rest: a hit
   * resolves it, and it stays in the list exactly when it is still flying.
   */
  lemma MovedAt(r: Snap, kept: seq<Projectile>, p: Projectile, rest: seq<Projectile>, f: Flight)
    ensures Moved(r.(projectiles := kept + ([p] + rest)), |kept|, f)
            == (if f == Reached then Hit(r, p) else r).(projectiles := kept + (if f == Flying then [p] else []) + rest)
  {
    var xs := kept + ([p] + rest);
    if f == Reached {
      RemoveAt(kept, p, rest);
      HitIgnoresProjectiles(r, p, xs);
    } else if f == OffScreen {
      RemoveAt(kept, p, rest);
    } else {
      assert kept + [p] + rest == xs;
    }
  }

  /** One pass of the projectile loop advances both folds by one projectile. */
  lemma ProjectileLoopStep(s0: Snap, ps: seq<Projectile>, i: nat, flight: nat -> Flight, v: Snap)
    requires i < |ps|
    requires v == Resolved(s0, ps[..i], flight).(projectiles := Airborne(ps[..i], flight) + ps[i..])
    ensures |Airborne(ps[..i], flight)| < |v.projectiles|
    ensures |Airborne(ps[..i + 1], flight)| == |Airborne(ps[..i], flight)| + (if flight(i) == Flying then 1 else 0)
    ensures Moved(v, |Airborne(ps[..i], flight)|, flight(i))
            == Resolved(s0, ps[..i + 1], flight).(projectiles := Airborne(ps[..i + 1], flight) + ps[i + 1..])
  {
    var kept := Airborne(ps[..i], flight);
    var r := Resolved(s0, ps[..i], flight);
    ResolvedStep(s0, ps, i, flight);
    AirborneStep(ps, i, flight);
    assert ps[i..] == [ps[i]] + ps[i + 1..];
    assert v == r.(projectiles := kept + ([ps[i]] + ps[i + 1..]));
    MovedAt(r, kept, ps[i], ps[i + 1..], flight(i));
  }

  /** The game-state variables: phase, wave, coins, base health, pause flag. */
  datatype Status = Status(state: Phase, wave: nat, coins: int, baseHealth: int, isPaused: bool)

  /** The tower system: chosen kind, placed towers, the dragged tower and the selection. */
  datatype TowerSystem = TowerSystem(selectedKind: TowerKind, towers: map<Cell, Tower>,
                                     draggedTower: Option<Tower>, dragPoint: Option<Cell>,
                                     selectedPos: Option<Cell>)

  /**
   * The zombie system: the live list (handles), every zombie object by handle,
   * the next handle, and the spawn counters.
   */
  datatype ZombieSystem = ZombieSystem(zombies: seq<nat>, store: map<nat, Zombie>, nextId: nat,
                                       zombiesToSpawn: int, zombieSpawnTimer: int)

  /** The phase-2 mechanics: click damage and level, the transition flag and its progress. */
  datatype Phase2Mechanics = Phase2Mechanics(clickDamage: int, clickUpgradeLevel: nat,
                                             phase2Transition: bool, phase2Ramp: nat)

  /** Hits change only zombies and coins, so the projectile list they run beside does not matter. */
  lemma HitIgnoresProjectiles(s: Snap, p: Projectile, ps: seq<Projectile>)
    ensures Hit(s.(projectiles := ps), p) == Hit(s, p).(projectiles := ps)
  {
  }

  /**
   * The panel's mutable fields, grouped as the source's field declarations
   * group them, with the path grid built once by the constructor.
   */
  class Game {
    var status: Status
    var towerSys: TowerSystem
    var zombieSys: ZombieSystem
    var projectiles: seq<Projectile>
    var phase2: Phase2Mechanics
    const pathGrid: array2<bool>

    /** The fields as one value of the model. */
    function View(): Snap
      reads this
    {
      Snap(status.state, status.wave, status.coins, status.baseHealth, status.isPaused,
           towerSys.selectedKind, towerSys.towers, towerSys.draggedTower, towerSys.dragPoint,
           towerSys.selectedPos,
           zombieSys.zombies, zombieSys.store, zombieSys.nextId, zombieSys.zombiesToSpawn,
           zombieSys.zombieSpawnTimer, projectiles,
           phase2.clickDamage, phase2.clickUpgradeLevel, phase2.phase2Transition, phase2.phase2Ramp)
    }

    /**
     * The path grid marks exactly the lane. No method writes the grid, so every
     * method keeps this; the game invariant `Inv(View())` is kept by every
     * method because each computes a function of module Sim that keeps it
     * (SimProofs.StepInv and SimProofs.ApplyInv).
     */
    ghost predicate Valid()
      reads pathGrid
    {
      pathGrid.Length0 == GridSize && pathGrid.Length1 == GridSize
      && (forall x, y :: 0 <= x < GridSize && 0 <= y < GridSize ==> (pathGrid[x, y] <==> OnPath(Cell(x, y))))
    }

    constructor()
      ensures Valid() && View() == Initial() && Inv(View())
      ensures fresh(pathGrid)
    {
      var grid := BuildPathGrid(Path);
      status := Status(Build, 0, StartCoins, BaseHealth, true);
      towerSys := TowerSystem(Arrow, map[], None, None, None);
      zombieSys := ZombieSystem([], map[], 0, 0, 0);
      projectiles := [];
      phase2 := Phase2Mechanics(1, 0, false, 0);
      pathGrid := grid;
      new;
      InitialInv();
    }

    /** isValidPlacement(): the grid bounds, the path grid, then occupancy. */
    function IsValidPlacement(p: Cell): (r: bool)
      reads this, pathGrid
      requires Valid()
      ensures r <==> InBounds(p) && !OnPath(p) && p !in towerSys.towers
    {
      if p.x < 0 || p.y < 0 || p.x >= GridSize || p.y >= GridSize then false
      else if pathGrid[p.x, p.y] then false
      else p !in towerSys.towers
    }

    // ------------------------------------------------------------ tick

    /** Projectile.hitTarget for the projectile `p`. */
    method HitTarget(p: Projectile)
      modifies this
      ensures View() == Hit(old(View()), p)
    {
      if p.target in zombieSys.store {
        var z := zombieSys.store[p.target];
        z := z.(health := z.health - p.damage);
        zombieSys := zombieSys.(store := zombieSys.store[p.target := z]);
        if z.health <= 0 {
          status := status.(coins := status.coins + Reward(z.kind));
          zombieSys := zombieSys.(zombies := RemoveFirst(zombieSys.zombies, p.target));
        }
      }
    }

    /**
     * The projectile loop: walk the list with an iterator, hit and remove the
     * projectiles that reached their target, remove those off the screen.
     */
    method UpdateProjectiles(flight: nat -> Flight)
      modifies this
      ensures View() == ProjectilesMoved(old(View()), flight)
    {
      ghost var s0 := View();
      var ps := projectiles;
      var i, j := 0, 0;
      while i < |ps|
        invariant 0 <= i <= |ps|
        invariant j == |Airborne(ps[..i], flight)|
        invariant View() == Resolved(s0, ps[..i], flight).(projectiles := Airborne(ps[..i], flight) + ps[i..])
      {
        ProjectileLoopStep(s0, ps, i, flight, View());
        j := MoveProjectile(j, flight(i));
        i := i + 1;
      }
      assert ps[..i] == ps;
    }

    /**
     * One pass of the projectile loop on the projectile at index `j`: a
     * projectile that reached its target hits it and is removed, one off the
     * screen is removed, one still flying stays and the iterator moves on.
     */
    method MoveProjectile(j: nat, f: Flight) returns (next: nat)
      requires j < |projectiles|
      modifies this
      ensures next == if f == Flying then j + 1 else j
      ensures View() == Moved(old(View()), j, f)
    {
      var p := projectiles[j];
      if f == Reached {
        HitTarget(p);
        projectiles := projectiles[..j] + projectiles[j + 1..];
        next := j;
      } else if f == OffScreen {
        projectiles := projectiles[..j] + projectiles[j + 1..];
        next := j;
      } else {
        next := j + 1;
      }
    }

    /** spawnZombie(): a zombie of the wave's kind joins the live list. */
    method SpawnZombie(random: ZombieKind)
      modifies this
      ensures View() == WithSpawn(old(View()), random)
    {
      var kind := SpawnKind(status.wave, random);
      var id := zombieSys.nextId;
      zombieSys := zombieSys.(store := zombieSys.store[id := Spawned(kind)], zombies := zombieSys.zombies + [id],
                              nextId := id + 1);
      zombieSys := zombieSys.(zombiesToSpawn := zombieSys.zombiesToSpawn - 1);
    }

    /** handleBaseDestroyed(). */
    method HandleBaseDestroyed()
      modifies this
      ensures View() == BaseDestroyed(old(View()))
    {
      if status.wave >= 20 {
        phase2 := phase2.(phase2Transition := true);
        status := status.(baseHealth := 50);
      } else {
        status := status.(state := GameOver, isPaused := true);
      }
    }

    /**
     * The zombie loop: each zombie of the live list moves, and one that
     * arrives damages the base and is removed (the list has no repetitions,
     * so removing by value removes the element just visited).
     */
    method UpdateZombies(reached: nat -> bool)
      requires forall id :: id in zombieSys.zombies ==> id in zombieSys.store
      modifies this
      ensures View() == MarchedAll(old(View()), old(zombieSys.zombies), reached)
    {
      ghost var s0 := View();
      var ids := zombieSys.zombies;
      var i := 0;
      while i < |ids|
        invariant 0 <= i <= |ids|
        invariant View() == MarchedAll(s0, ids[..i], reached)
        invariant zombieSys.store.Keys == s0.store.Keys
      {
        assert ids[..i + 1][..i] == ids[..i];
        MoveZombie(ids[i], reached(ids[i]));
        i := i + 1;
      }
      assert ids[..i] == ids;
    }

    /** One pass of the zombie loop: the zombie moves; at the base it hurts it and leaves. */
    method MoveZombie(id: nat, reached: bool)
      requires id in zombieSys.store
      modifies this
      ensures View() == Marched(old(View()), id, reached)
    {
      var z := Advanced(zombieSys.store[id], reached);
      zombieSys := zombieSys.(store := zombieSys.store[id := z]);
      if z.pathIndex >= LastWaypoint {
        status := status.(baseHealth := status.baseHealth - z.damage);
        zombieSys := zombieSys.(zombies := RemoveFirst(zombieSys.zombies, id));
        if status.baseHealth <= 0 {
          HandleBaseDestroyed();
        }
      }
    }

    /** The tower loop: Tower.update for every entry, in the map's iteration order. */
    method UpdateTowers(order: seq<Cell>, dist: (Cell, nat) -> real)
      requires forall c :: c in order ==> c in towerSys.towers
      modifies this
      ensures View() == FiredAll(old(View()), order, dist)
    {
      ghost var s0 := View();
      var i := 0;
      while i < |order|
        invariant 0 <= i <= |order|
        invariant View() == FiredAll(s0, order[..i], dist)
        invariant towerSys.towers.Keys == s0.towers.Keys
      {
        assert order[..i + 1][..i] == order[..i];
        var pos := order[i];
        var f := UpdateTower(towerSys.towers[pos], pos, zombieSys.zombies, dist);
        towerSys := towerSys.(towers := towerSys.towers[pos := f.tower]);
        if f.shot.Some? {
          projectiles := projectiles + [f.shot.value];
        }
        i := i + 1;
      }
      assert order[..i] == order;
    }

    /** The wave-clear check of tick(). */
    method CheckWaveCleared()
      modifies this
      ensures View() == WaveChecked(old(View()))
    {
      if status.state == Combat && zombieSys.zombies == [] && zombieSys.zombiesToSpawn == 0 {
        status := status.(state := Build, coins := status.coins + 30 + 15 * status.wave);
        status := status.(isPaused := true);
      }
    }

    /** The spawn block of tick(). */
    method CheckSpawn(random: ZombieKind)
      modifies this
      ensures View() == SpawnChecked(old(View()), random)
    {
      if status.state == Combat && zombieSys.zombiesToSpawn > 0 {
        zombieSys := zombieSys.(zombieSpawnTimer := zombieSys.zombieSpawnTimer + 1);
        if zombieSys.zombieSpawnTimer >= 30 {
          SpawnZombie(random);
          zombieSys := zombieSys.(zombieSpawnTimer := 0);
        }
      }
    }

    /** The phase-2 block and the win check that end tick(). */
    method FinishTick()
      modifies this
      ensures View() == WinChecked(Ramped(old(View())))
    {
      if phase2.phase2Transition {
        phase2 := phase2.(phase2Ramp := phase2.phase2Ramp + 1);
        if phase2.phase2Ramp >= RampSteps {
          phase2 := phase2.(phase2Transition := false);
          status := status.(state := Phase2);
          phase2 := phase2.(clickDamage := 1, clickUpgradeLevel := 0);
        }
      }
      if status.wave >= 40 {
        status := status.(state := Win, isPaused := true);
      }
    }

    /**
     * tick(): projectiles, the wave-clear check, spawning, zombies, towers,
     * the phase-2 effect and the win check, in that order. `o.order` is the
     * iteration order of the tower map.
     */
    method Tick(o: Oracle)
      requires Inv(View()) && Enumerates(o.order, towerSys.towers)
      modifies this
      ensures View() == Ticked(old(View()), o)
    {
      ghost var s := View();
      UpdateProjectiles(o.flight);
      CheckWaveCleared();
      CheckSpawn(o.random);
      EarlyTickLive(s, o);
      UpdateZombies(o.reached);
      UpdateTowers(o.order, o.dist);
      FinishTick();
    }

    /** One pass of the game loop: tick() unless paused. */
    method Step(o: Oracle)
      requires Inv(View()) && Enumerates(o.order, towerSys.towers)
      modifies this
      ensures View() == Stepped(old(View()), o)
    {
      if !status.isPaused {
        Tick(o);
      }
    }

    /** startNextWave(). */
    method StartNextWave()
      modifies this
      ensures View() == NextWave(old(View()))
    {
      if status.state == GameOver || status.state == Win {
        return;
      }
      status := status.(wave := status.wave + 1);
      zombieSys := zombieSys.(zombiesToSpawn := 5 + status.wave);
      status := status.(state := Combat, isPaused := false);
    }

    // ------------------------------------------------------------ input

    /** The PHASE2 click: every zombie of a copy of the live list within reach is damaged. */
    method ClickDamage(near: nat -> bool)
      requires forall id :: id in zombieSys.zombies ==> id in zombieSys.store
      modifies this
      ensures View() == ClickedAll(old(View()), old(zombieSys.zombies), near)
    {
      ghost var s0 := View();
      var ids := zombieSys.zombies;
      var i := 0;
      while i < |ids|
        invariant 0 <= i <= |ids|
        invariant View() == ClickedAll(s0, ids[..i], near)
        invariant zombieSys.store.Keys == s0.store.Keys
      {
        assert ids[..i + 1][..i] == ids[..i];
        ClickZombie(ids[i], near(ids[i]));
        i := i + 1;
      }
      assert ids[..i] == ids;
    }

    /** One zombie of the PHASE2 click. */
    method ClickZombie(id: nat, near: bool)
      requires id in zombieSys.store
      modifies this
      ensures View() == Clicked(old(View()), id, near)
    {
      if near {
        var z := zombieSys.store[id];
        z := z.(health := z.health - phase2.clickDamage);
        zombieSys := zombieSys.(store := zombieSys.store[id := z]);
        status := status.(coins := status.coins + 2);
        if z.health <= 0 {
          status := status.(coins := status.coins + Reward(z.kind));
          zombieSys := zombieSys.(zombies := RemoveFirst(zombieSys.zombies, id));
        }
      }
    }

    /** The pick-up branch of the left press: a new tower of the chosen kind, if affordable. */
    method PickUpTower(c: Cell)
      modifies this
      ensures View() == if old(status.coins) >= PlaceCost(old(towerSys.selectedKind))
                        then old(View()).(draggedTower := Some(NewTower(old(towerSys.selectedKind))), dragPoint := Some(c))
                        else old(View())
    {
      var cost := PlaceCost(towerSys.selectedKind);
      if status.coins >= cost {
        towerSys := towerSys.(draggedTower := Some(NewTower(towerSys.selectedKind)), dragPoint := Some(c));
      }
    }

    /** The drop branch of the left press: place on a valid cell and pay, then end the drag. */
    method DropTower()
      requires Valid() && towerSys.draggedTower.Some?
      modifies this
      ensures View() == Dropped(old(View()))
    {
      var t := towerSys;
      if t.dragPoint.Some? && IsValidPlacement(t.dragPoint.value) {
        towerSys := t.(towers := t.towers[t.dragPoint.value := t.draggedTower.value]);
        status := status.(coins := status.coins - t.draggedTower.value.cost);
      }
      towerSys := towerSys.(draggedTower := None, dragPoint := None);
    }

    /**
     * mousePressed with the left button at cell `c`: close the popup on a
     * click outside it, then click damage in PHASE2, pick-up with no tower
     * dragged, drop otherwise.
     */
    method MousePressedLeft(c: Cell, outsidePopup: bool, near: nat -> bool)
      requires Valid() && forall id :: id in zombieSys.zombies ==> id in zombieSys.store
      modifies this
      ensures View() == LeftPressed(old(View()), c, outsidePopup, near)
    {
      if outsidePopup {
        towerSys := towerSys.(selectedPos := None);
      }
      if status.state == Phase2 {
        ClickDamage(near);
      } else if towerSys.draggedTower.None? {
        PickUpTower(c);
      } else {
        DropTower();
      }
    }

    /** mousePressed with the right button: select the tower under the cursor, if any. */
    method MousePressedRight(c: Cell)
      modifies this
      ensures View() == RightPressed(old(View()), c)
    {
      towerSys := towerSys.(selectedPos := None);
      if c in towerSys.towers {
        towerSys := towerSys.(selectedPos := Some(c));
      }
    }

    /** mouseDragged. */
    method MouseDragged(c: Cell)
      modifies this
      ensures View() == DraggedTo(old(View()), c)
    {
      if towerSys.draggedTower.Some? {
        towerSys := towerSys.(dragPoint := Some(c));
      }
    }

    /** The upgrade gate of the popup button and the T key, then Tower.upgrade. */
    method UpgradeSelected()
      modifies this
      ensures View() == UpgradedSelected(old(View()))
    {
      if towerSys.selectedPos.Some? && towerSys.selectedPos.value in towerSys.towers {
        var pos := towerSys.selectedPos.value;
        var t := towerSys.towers[pos];
        var cost := UpgradeCost(t);
        if cost > 0 && status.coins >= cost {
          var u := Upgrade(t, status.coins);
          towerSys := towerSys.(towers := towerSys.towers[pos := u.tower]);
          status := status.(coins := u.coins);
        }
      }
    }

    /** The sell button and the Z key: refund, remove the tower, clear the selection. */
    method SellSelected()
      modifies this
      ensures View() == SoldSelected(old(View()))
    {
      if towerSys.selectedPos.Some? && towerSys.selectedPos.value in towerSys.towers {
        var pos := towerSys.selectedPos.value;
        status := status.(coins := status.coins + Refund(towerSys.towers[pos].cost));
        towerSys := towerSys.(towers := towerSys.towers - {pos}, selectedPos := None);
      }
    }

    /** resetGame(). */
    method ResetGame()
      modifies this
      ensures View() == ResetState(old(View()))
    {
      status := Status(Build, 0, StartCoins, BaseHealth, true);
      towerSys := towerSys.(towers := map[], selectedPos := None);
      zombieSys := zombieSys.(zombies := []);
      projectiles := [];
      phase2 := Phase2Mechanics(1, 0, false, 0);
    }

    /** The click upgrade of the T key in PHASE2. */
    method UpgradeClick()
      modifies this
      ensures View() == old(View()).(coins := old(status.coins) - 50,
                                     clickLevel := old(phase2.clickUpgradeLevel) + 1,
                                     clickDamage := 1 + 3 * (old(phase2.clickUpgradeLevel) + 1))
    {
      status := status.(coins := status.coins - 50);
      phase2 := phase2.(clickUpgradeLevel := phase2.clickUpgradeLevel + 1);
      phase2 := phase2.(clickDamage := 1 + 3 * phase2.clickUpgradeLevel);
    }

    /** keyPressed. */
    method KeyPressed(k: Key)
      modifies this
      ensures View() == Sim.KeyPressed(old(View()), k)
    {
      match k {
        case Digit(kind) =>
          towerSys := towerSys.(selectedKind := kind);
        case Space =>
          if status.state == Build {
            StartNextWave();
          } else if status.state == Combat {
            status := status.(isPaused := !status.isPaused);
          }
        case KeyT =>
          if towerSys.selectedPos.Some? {
            UpgradeSelected();
          } else if status.state == Phase2 && status.coins >= 50 {
            UpgradeClick();
          }
        case KeyZ =>
          if towerSys.selectedPos.Some? {
            SellSelected();
          }
        case KeyR =>
          if status.state == GameOver || status.state == Win {
            ResetGame();
          }
        case Escape =>
          towerSys := towerSys.(selectedPos := None);
      }
    }
  }
}

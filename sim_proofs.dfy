/// Properties of the game model across steps: the invariant every tick and
/// every handler keeps, the terminal states, wave and spawn accounting, the
/// tower loop, and a few concrete games.
module SimProofs {
  import opened Rules
  import opened Towers
  import opened Sim

  /** A new game satisfies the invariant. */
  lemma InitialInv()
    ensures Inv(Initial())
  {
  }

  lemma HitInv(s: Snap, p: Projectile)
    requires Inv(s)
    ensures Inv(Hit(s, p))
  {
    var r := Hit(s, p);
    forall id | id in r.zombies
      ensures id in r.store && r.store[id].health > 0 && r.store[id].pathIndex < LastWaypoint
    {
      assert id in s.zombies && !Killed(s, r, p, id);
    }
  }

  /** The projectile hits of one tick keep the invariant. */
  lemma {:induction false} ResolvedInv(s: Snap, ps: seq<Projectile>, flight: nat -> Flight)
    requires Inv(s)
    ensures Inv(Resolved(s, ps, flight))
    decreases |ps|
  {
    if ps != [] {
      var k := |ps| - 1;
      ResolvedInv(s, ps[..k], flight);
      if flight(k) == Reached {
        HitInv(Resolved(s, ps[..k], flight), ps[k]);
      }
    }
  }

  /** The projectile loop never drops a projectile that is still flying. */
  lemma {:induction false} AirborneKeepsFlying(ps: seq<Projectile>, flight: nat -> Flight)
    ensures forall i :: 0 <= i < |ps| && flight(i) == Flying ==> ps[i] in Airborne(ps, flight)
    decreases |ps|
  {
    if ps != [] {
      var k := |ps| - 1;
      var pre := ps[..k];
      AirborneKeepsFlying(pre, flight);
      assert Airborne(ps, flight) == Airborne(pre, flight) + (if flight(k) == Flying then [ps[k]] else []);
      forall i | 0 <= i < k && flight(i) == Flying
        ensures ps[i] in Airborne(ps, flight)
      {
        assert pre[i] == ps[i];
      }
    }
  }

  /** The projectile list keeps its length exactly when every projectile is still flying. */
  lemma {:induction false} AirborneLength(ps: seq<Projectile>, flight: nat -> Flight)
    ensures |Airborne(ps, flight)| == |ps| <==> forall i :: 0 <= i < |ps| ==> flight(i) == Flying
    decreases |ps|
  {
    if ps != [] {
      var k := |ps| - 1;
      var pre := ps[..k];
      AirborneLength(pre, flight);
      assert |Airborne(ps, flight)| == |Airborne(pre, flight)| + (if flight(k) == Flying then 1 else 0);
    }
  }

  /** The number of indices below `n` whose projectile is still flying. */
  function CountFlying(n: nat, flight: nat -> Flight): nat {
    if n == 0 then 0 else CountFlying(n - 1, flight) + (if flight(n - 1) == Flying then 1 else 0)
  }

  /**
   * The projectile loop keeps exactly as many projectiles as are still
   * flying: every one that reached its target or left the screen is dropped.
   */
  lemma {:induction false} AirborneCount(ps: seq<Projectile>, flight: nat -> Flight)
    ensures |Airborne(ps, flight)| == CountFlying(|ps|, flight)
    decreases |ps|
  {
    if ps != [] {
      var k := |ps| - 1;
      AirborneCount(ps[..k], flight);
    }
  }

  lemma ProjectilesMovedInv(s: Snap, flight: nat -> Flight)
    requires Inv(s)
    ensures Inv(ProjectilesMoved(s, flight))
  {
    ResolvedInv(s, s.projectiles, flight);
  }

  lemma DistinctSnoc<T>(xs: seq<T>, a: T)
    requires Distinct(xs) && a !in xs
    ensures Distinct(xs + [a])
  {
  }

  lemma WithSpawnInv(s: Snap, random: ZombieKind)
    requires Inv(s) && s.zombiesToSpawn > 0 && s.spawnTimer == 29
    ensures Inv(WithSpawn(s, random).(spawnTimer := 0))
  {
    var r := WithSpawn(s, random).(spawnTimer := 0);
    assert s.nextId !in s.zombies;
    DistinctSnoc(s.zombies, s.nextId);
    forall id | id in r.zombies
      ensures id in r.store && r.store[id].health > 0 && r.store[id].pathIndex < LastWaypoint
    {
      if id != s.nextId {
        assert id in s.zombies;
      }
    }
  }

  lemma TimerInv(s: Snap, t: int)
    requires Inv(s) && 0 <= t < 30
    ensures Inv(s.(spawnTimer := t))
  {
  }

  lemma SpawnCheckedInv(s: Snap, random: ZombieKind)
    requires Inv(s)
    ensures Inv(SpawnChecked(s, random))
  {
    if s.state == Combat && s.zombiesToSpawn > 0 {
      var s1 := s.(spawnTimer := s.spawnTimer + 1);
      if s1.spawnTimer >= 30 {
        WithSpawnInv(s, random);
        assert WithSpawn(s1, random).(spawnTimer := 0) == WithSpawn(s, random).(spawnTimer := 0);
      } else {
        TimerInv(s, s1.spawnTimer);
      }
    }
  }

  lemma MarchedInv(s: Snap, id: nat, reached: bool)
    requires Inv(s) && id in s.store
    ensures Inv(Marched(s, id, reached))
  {
  }

  lemma {:induction false} MarchedAllInv(s: Snap, ids: seq<nat>, reached: nat -> bool)
    requires Inv(s)
    ensures Inv(MarchedAll(s, ids, reached))
    decreases |ids|
  {
    if ids != [] {
      var k := |ids| - 1;
      MarchedAllInv(s, ids[..k], reached);
      var r0 := MarchedAll(s, ids[..k], reached);
      if ids[k] in r0.store {
        MarchedInv(r0, ids[k], reached(ids[k]));
      }
    }
  }

  lemma FireInv(s: Snap, pos: Cell, dist: (Cell, nat) -> real)
    requires Inv(s) && pos in s.towers
    ensures Inv(Fire(s, pos, dist))
  {
  }

  lemma {:induction false} FiredAllInv(s: Snap, order: seq<Cell>, dist: (Cell, nat) -> real)
    requires Inv(s)
    ensures Inv(FiredAll(s, order, dist))
    decreases |order|
  {
    if order != [] {
      var k := |order| - 1;
      FiredAllInv(s, order[..k], dist);
      var r0 := FiredAll(s, order[..k], dist);
      if order[k] in r0.towers {
        FireInv(r0, order[k], dist);
      }
    }
  }

  /**
   * Below wave 40 the phase-2 block keeps the invariant; at wave 40 it may
   * enter PHASE2 out of turn, which the win check that follows overrides.
   */
  lemma RampedInv(s: Snap)
    requires Inv(s) && s.wave < 40
    ensures Inv(Ramped(s))
  {
  }

  lemma EndOfTickInv(s: Snap)
    requires Inv(s)
    ensures Inv(WinChecked(Ramped(s)))
  {
    if s.wave < 40 {
      RampedInv(s);
    }
  }

  /** tick() keeps the invariant, whatever the oracle says. */
  lemma TickInv(s: Snap, o: Oracle)
    requires Inv(s)
    ensures Inv(Ticked(s, o))
  {
    var s1 := ProjectilesMoved(s, o.flight);
    ProjectilesMovedInv(s, o.flight);
    var s2 := WaveChecked(s1);
    var s3 := SpawnChecked(s2, o.random);
    SpawnCheckedInv(s2, o.random);
    var s4 := MarchedAll(s3, s3.zombies, o.reached);
    MarchedAllInv(s3, s3.zombies, o.reached);
    var s5 := FiredAll(s4, o.order, o.dist);
    FiredAllInv(s4, o.order, o.dist);
    EndOfTickInv(s5);
  }

  /** After the spawn block every live handle is stored: what the zombie loop relies on. */
  lemma EarlyTickLive(s: Snap, o: Oracle)
    requires Inv(s)
    ensures var s3 := SpawnChecked(WaveChecked(ProjectilesMoved(s, o.flight)), o.random);
            forall id :: id in s3.zombies ==> id in s3.store
  {
    ProjectilesMovedInv(s, o.flight);
    SpawnCheckedInv(WaveChecked(ProjectilesMoved(s, o.flight)), o.random);
  }

  lemma StepInv(s: Snap, o: Oracle)
    requires Inv(s)
    ensures Inv(Stepped(s, o))
  {
    if !s.paused {
      TickInv(s, o);
    }
  }

  // ---------------------------------------------------------------- input handlers

  lemma ClickedInv(s: Snap, id: nat, near: bool)
    requires Inv(s) && id in s.store
    ensures Inv(Clicked(s, id, near))
  {
  }

  lemma {:induction false} ClickedAllInv(s: Snap, ids: seq<nat>, near: nat -> bool)
    requires Inv(s)
    ensures Inv(ClickedAll(s, ids, near))
    decreases |ids|
  {
    if ids != [] {
      var k := |ids| - 1;
      ClickedAllInv(s, ids[..k], near);
      var r0 := ClickedAll(s, ids[..k], near);
      if ids[k] in r0.store {
        ClickedInv(r0, ids[k], near(ids[k]));
      }
    }
  }

  lemma DroppedInv(s: Snap)
    requires Inv(s) && s.draggedTower.Some?
    ensures Inv(Dropped(s))
  {
    var t := s.draggedTower.value;
    if s.dragPoint.Some? && PlacementOk(s, s.dragPoint.value) {
      var p := s.dragPoint.value;
      var s1 := s.(towers := s.towers[p := t], coins := s.coins - t.cost);
      forall c | c in s1.towers
        ensures InBounds(c) && !OnPath(c) && WellFormed(s1.towers[c])
      {
        if c != p {
          assert c in s.towers;
        }
      }
    }
  }

  lemma LeftPressedInv(s: Snap, c: Cell, outsidePopup: bool, near: nat -> bool)
    requires Inv(s)
    ensures Inv(LeftPressed(s, c, outsidePopup, near))
  {
    var s0 := if outsidePopup then s.(selected := None) else s;
    assert Inv(s0);
    if s0.state == Phase2 {
      ClickedAllInv(s0, s0.zombies, near);
    } else if s0.draggedTower.Some? {
      DroppedInv(s0);
    }
  }

  lemma UpgradedSelectedInv(s: Snap)
    requires Inv(s)
    ensures Inv(UpgradedSelected(s))
  {
  }

  lemma SoldSelectedInv(s: Snap)
    requires Inv(s)
    ensures Inv(SoldSelected(s))
  {
  }

  lemma NextWaveInv(s: Snap)
    requires Inv(s)
    ensures Inv(NextWave(s))
  {
  }

  lemma KeyPressedInv(s: Snap, k: Key)
    requires Inv(s)
    ensures Inv(KeyPressed(s, k))
  {
    match k
    case Space =>
      if s.state == Build {
        NextWaveInv(s);
      }
    case KeyT =>
      if s.selected.Some? {
        UpgradedSelectedInv(s);
      }
    case KeyZ =>
      if s.selected.Some? {
        SoldSelectedInv(s);
      }
    case _ =>
  }

  /** Every input handler keeps the invariant. */
  lemma ApplyInv(s: Snap, c: Command)
    requires Inv(s)
    ensures Inv(Apply(s, c))
  {
    match c
    case LeftPress(cell, outside, near) => LeftPressedInv(s, cell, outside, near);
    case Press(k) => KeyPressedInv(s, k);
    case PopupUpgrade => UpgradedSelectedInv(s);
    case PopupSell => SoldSelectedInv(s);
    case _ =>
  }

  // ---------------------------------------------------------------- what a tick keeps

  /** The first half of a tick: projectiles, wave clear and spawning. */
  lemma EarlyTickAccounting(s: Snap, o: Oracle)
    ensures var s3 := SpawnChecked(WaveChecked(ProjectilesMoved(s, o.flight)), o.random);
      s3.wave == s.wave && s3.coins >= s.coins && s3.towers == s.towers
      && s3.nextId + s3.zombiesToSpawn == s.nextId + s.zombiesToSpawn
      && s.zombiesToSpawn - 1 <= s3.zombiesToSpawn <= s.zombiesToSpawn
  {
    var s1 := ProjectilesMoved(s, o.flight);
    assert s1.wave == s.wave && s1.coins >= s.coins && s1.nextId == s.nextId
           && s1.zombiesToSpawn == s.zombiesToSpawn && s1.towers == s.towers;
  }

  /**
   * A tick never changes the wave number, never takes coins away, and spawns
   * only from the wave's remaining count: handles issued plus zombies still
   * to spawn stay constant, and at most one zombie spawns.
   */
  lemma TickAccounting(s: Snap, o: Oracle)
    ensures Ticked(s, o).wave == s.wave
    ensures Ticked(s, o).coins >= s.coins
    ensures Ticked(s, o).nextId + Ticked(s, o).zombiesToSpawn == s.nextId + s.zombiesToSpawn
    ensures s.zombiesToSpawn - 1 <= Ticked(s, o).zombiesToSpawn <= s.zombiesToSpawn
    ensures Ticked(s, o).towers.Keys == s.towers.Keys
  {
    EarlyTickAccounting(s, o);
    var s3 := SpawnChecked(WaveChecked(ProjectilesMoved(s, o.flight)), o.random);
    LateTickAccounting(s3, o);
  }

  /** The second half of a tick: zombies, towers, the phase-2 effect and the win check. */
  lemma LateTickAccounting(s3: Snap, o: Oracle)
    ensures var r := WinChecked(Ramped(FiredAll(MarchedAll(s3, s3.zombies, o.reached), o.order, o.dist)));
      r.wave == s3.wave && r.coins == s3.coins && r.nextId == s3.nextId
      && r.zombiesToSpawn == s3.zombiesToSpawn && r.towers.Keys == s3.towers.Keys
  {
    var s4 := MarchedAll(s3, s3.zombies, o.reached);
    assert s4.wave == s3.wave && s4.coins == s3.coins && s4.nextId == s3.nextId
           && s4.zombiesToSpawn == s3.zombiesToSpawn && s4.towers == s3.towers;
    var s5 := FiredAll(s4, o.order, o.dist);
    EndOfTickAccounting(s5);
  }

  /** The phase-2 effect and the win check touch no counter and no tower. */
  lemma EndOfTickAccounting(s: Snap)
    ensures var r := WinChecked(Ramped(s));
      r.wave == s.wave && r.coins == s.coins && r.nextId == s.nextId
      && r.zombiesToSpawn == s.zombiesToSpawn && r.towers == s.towers
  {
  }

  /** GAME_OVER and WIN are final: a step leaves them as they are. */
  lemma TerminalStep(s: Snap, o: Oracle)
    requires Inv(s) && (s.state == GameOver || s.state == Win)
    ensures Stepped(s, o) == s
  {
  }

  /** Even a tick forced on a finished game leaves it finished and paused. */
  lemma TerminalTick(s: Snap, o: Oracle)
    requires Inv(s) && (s.state == GameOver || s.state == Win)
    ensures Ticked(s, o).state == s.state && Ticked(s, o).paused
  {
    TickAccounting(s, o);
    var s1 := ProjectilesMoved(s, o.flight);
    var s2 := WaveChecked(s1);
    var s3 := SpawnChecked(s2, o.random);
    assert s3.state == s.state && s3.paused && s3.phase2Transition == s.phase2Transition;
    var s4 := MarchedAll(s3, s3.zombies, o.reached);
    assert s4.state == s.state && s4.paused;
    assert s.state == GameOver ==> !s4.phase2Transition;
    var s5 := FiredAll(s4, o.order, o.dist);
  }

  /** From wave 40 on every tick ends in WIN, paused. */
  lemma WinForced(s: Snap, o: Oracle)
    requires Inv(s) && s.wave >= 40
    ensures Ticked(s, o).state == Win && Ticked(s, o).paused
  {
    TickAccounting(s, o);
  }

  /**
   * The wave-clear bonus: when the projectiles leave no zombie alive in a
   * COMBAT wave with nothing left to spawn, the tick pays 30 + 15 * wave and
   * pauses the game. It ends in BUILD unless the phase-2 effect commits or
   * the wave count has reached 40 in the same tick.
   */
  lemma WaveClearBonus(s: Snap, o: Oracle)
    requires s.state == Combat && s.zombiesToSpawn == 0
    requires ProjectilesMoved(s, o.flight).zombies == []
    ensures Ticked(s, o).coins == ProjectilesMoved(s, o.flight).coins + 30 + 15 * s.wave
    ensures Ticked(s, o).paused
    ensures Ticked(s, o).state == Build || s.phase2Transition || s.wave >= 40
  {
    var s1 := ProjectilesMoved(s, o.flight);
    var s3 := SpawnChecked(WaveChecked(s1), o.random);
    assert s3 == s1.(state := Build, coins := s1.coins + 30 + 15 * s.wave, paused := true);
    assert MarchedAll(s3, s3.zombies, o.reached) == s3;
  }

  /**
   * The spawn timer: in COMBAT with zombies left to spawn, the timer counts
   * ticks modulo 30 and a zombie spawns exactly on the 30th. It takes the
   * wave's kind, full health, the first waypoint and the next handle, and
   * joins the end of the live list.
   */
  lemma SpawnEvery30(s: Snap, random: ZombieKind)
    requires Inv(s) && s.state == Combat && s.zombiesToSpawn > 0
    ensures SpawnChecked(s, random).spawnTimer == (s.spawnTimer + 1) % 30
    ensures SpawnChecked(s, random).zombiesToSpawn == s.zombiesToSpawn - 1 <==> s.spawnTimer == 29
    ensures s.spawnTimer == 29 ==>
              SpawnChecked(s, random).zombies == s.zombies + [s.nextId]
              && SpawnChecked(s, random).store[s.nextId] == Zombie(SpawnKind(s.wave, random),
                   MaxHealth(SpawnKind(s.wave, random)), BaseDamage(SpawnKind(s.wave, random)), 0)
    ensures s.spawnTimer < 29 ==> SpawnChecked(s, random) == s.(spawnTimer := s.spawnTimer + 1)
  {
  }

  /**
   * The zombie loop over a list of distinct handles moves each listed zombie
   * exactly once, by Advanced, and touches no other zombie.
   */
  lemma {:induction false} MarchedAllStore(s: Snap, ids: seq<nat>, reached: nat -> bool)
    requires Distinct(ids)
    ensures forall id :: id in s.store ==>
              MarchedAll(s, ids, reached).store[id]
              == if id in ids then Advanced(s.store[id], reached(id)) else s.store[id]
    decreases |ids|
  {
    if ids != [] {
      var k := |ids| - 1;
      var pre := ids[..k];
      assert Distinct(pre);
      assert ids[k] !in pre;
      assert forall id :: id in ids <==> id in pre || id == ids[k];
      MarchedAllStore(s, pre, reached);
    }
  }

  /** Projectile hits change zombies' health only, never their progress along the lane. */
  lemma {:induction false} ResolvedKeepsProgress(s: Snap, ps: seq<Projectile>, flight: nat -> Flight)
    ensures forall id :: id in s.store ==>
              Resolved(s, ps, flight).store[id].pathIndex == s.store[id].pathIndex
              && Resolved(s, ps, flight).store[id].kind == s.store[id].kind
    decreases |ps|
  {
    if ps != [] {
      ResolvedKeepsProgress(s, ps[..|ps| - 1], flight);
    }
  }

  /**
   * A zombie's path index never moves back and moves at most one waypoint a
   * tick; it never passes the last waypoint.
   */
  lemma EarlyTickProgress(s: Snap, o: Oracle, id: nat)
    requires Inv(s) && id in s.store
    ensures var s3 := SpawnChecked(WaveChecked(ProjectilesMoved(s, o.flight)), o.random);
            Distinct(s3.zombies) && id in s3.store && s3.store[id].pathIndex == s.store[id].pathIndex
  {
    var s1 := ProjectilesMoved(s, o.flight);
    ResolvedKeepsProgress(s, s.projectiles, o.flight);
    ProjectilesMovedInv(s, o.flight);
    SpawnCheckedInv(WaveChecked(s1), o.random);
  }

  lemma PathProgress(s: Snap, o: Oracle, id: nat)
    requires Inv(s) && id in s.store
    ensures id in Ticked(s, o).store
    ensures s.store[id].pathIndex <= Ticked(s, o).store[id].pathIndex <= s.store[id].pathIndex + 1
    ensures s.store[id].pathIndex <= LastWaypoint ==> Ticked(s, o).store[id].pathIndex <= LastWaypoint
  {
    var s3 := SpawnChecked(WaveChecked(ProjectilesMoved(s, o.flight)), o.random);
    EarlyTickProgress(s, o, id);
    var s4 := MarchedAll(s3, s3.zombies, o.reached);
    MarchedAllStore(s3, s3.zombies, o.reached);
    assert Ticked(s, o).store == s4.store;
  }

  /**
   * A zombie that reaches the last waypoint damages the base by its own
   * damage and leaves the live list; the base is destroyed at zero health or
   * below: before wave 20 the game is over, from wave 20 on the base is
   * restored to 50 and the phase-2 effect starts. A zombie that does not
   * arrive changes nothing but its path index.
   */
  lemma Arrival(s: Snap, id: nat, reached: bool)
    requires Inv(s) && id in s.zombies
    ensures var r := Marched(s, id, reached);
            var z := s.store[id];
            if z.pathIndex + 1 == LastWaypoint && reached then
              id !in r.zombies && |r.zombies| == |s.zombies| - 1
              && r.zombies == RemoveFirst(s.zombies, id)
              && (s.baseHealth - z.damage > 0 ==>
                    r.baseHealth == s.baseHealth - z.damage && r.state == s.state)
              && (s.baseHealth - z.damage <= 0 && s.wave < 20 ==> r.state == GameOver && r.paused)
              && (s.baseHealth - z.damage <= 0 && s.wave >= 20 ==>
                    r.baseHealth == 50 && r.phase2Transition && r.state == s.state)
            else
              r == s.(store := s.store[id := Advanced(z, reached)])
  {
  }

  /**
   * The tower loop over distinct positions updates each listed tower exactly
   * once, by Tower.update against the live list, leaves the others alone, and
   * adds at most one projectile per listed tower.
   */
  lemma {:induction false} FiredAllTowers(s: Snap, order: seq<Cell>, dist: (Cell, nat) -> real)
    requires Distinct(order)
    ensures forall c :: c in s.towers ==>
              FiredAll(s, order, dist).towers[c]
              == if c in order then TowerUpdate(s.towers[c], c, s.zombies, dist).tower else s.towers[c]
    ensures |FiredAll(s, order, dist).projectiles| <= |s.projectiles| + |order|
    decreases |order|
  {
    if order != [] {
      var k := |order| - 1;
      var pre := order[..k];
      assert Distinct(pre);
      assert order[k] !in pre;
      assert forall c :: c in order <==> c in pre || c == order[k];
      FiredAllTowers(s, pre, dist);
    }
  }

  /**
   * With the map's iteration order every tower of the game is updated exactly
   * once per tick.
   */
  lemma EachTowerOnce(s: Snap, order: seq<Cell>, dist: (Cell, nat) -> real)
    requires Enumerates(order, s.towers)
    ensures forall c :: c in s.towers ==>
              FiredAll(s, order, dist).towers[c] == TowerUpdate(s.towers[c], c, s.zombies, dist).tower
    ensures |FiredAll(s, order, dist).projectiles| <= |s.projectiles| + |s.towers|
  {
    FiredAllTowers(s, order, dist);
    EnumerationLength(order, s.towers);
  }

  lemma EnumerationLength(order: seq<Cell>, towers: map<Cell, Tower>)
    requires Enumerates(order, towers)
    ensures |order| == |towers|
  {
    DistinctCard(order);
    assert (set c | c in order) == towers.Keys;
  }

  lemma {:induction false} DistinctCard<T>(xs: seq<T>)
    requires Distinct(xs)
    ensures |set x | x in xs| == |xs|
    decreases |xs|
  {
    if xs != [] {
      DistinctTail(xs);
      DistinctCard(xs[1..]);
      assert (set x | x in xs) == {xs[0]} + (set x | x in xs[1..]);
    }
  }

  // ---------------------------------------------------------------- handlers

  /**
   * Dropping a dragged tower: on a valid cell the tower is placed and its
   * placement cost is paid (the balance is not checked again, so it can go
   * below zero); anywhere else nothing is placed and nothing is paid. The drag
   * ends either way.
   */
  lemma DropPlaces(s: Snap)
    requires Inv(s) && s.draggedTower.Some?
    ensures var r := Dropped(s);
            var k := s.draggedTower.value.kind;
            var p := s.dragPoint.value;
            r.draggedTower.None? && r.dragPoint.None?
            && (PlacementOk(s, p) ==>
                  r.towers == s.towers[p := NewTower(k)] && r.coins == s.coins - PlaceCost(k))
            && (!PlacementOk(s, p) ==> r.towers == s.towers && r.coins == s.coins)
  {
  }

  /**
   * A left press outside PHASE2 with no tower dragged picks up a tower of the
   * chosen kind exactly when its placement cost is affordable; nothing is paid
   * until it is dropped.
   */
  lemma PickUp(s: Snap, c: Cell, near: nat -> bool)
    requires Inv(s) && s.state != Phase2 && s.draggedTower.None?
    ensures var r := LeftPressed(s, c, false, near);
            (r.draggedTower.Some? <==> s.coins >= PlaceCost(s.selectedKind))
            && (r.draggedTower.Some? ==> r.draggedTower.value.kind == s.selectedKind && r.dragPoint == Some(c))
            && r.coins == s.coins && r.towers == s.towers
  {
  }

  /**
   * Upgrading the selected tower: below its kind's last level and with enough
   * coins it gains one level, takes that level's damage from the table and
   * costs the table's price; otherwise nothing changes.
   */
  lemma UpgradeSelectedExact(s: Snap)
    requires Inv(s) && s.selected.Some?
    ensures var p := s.selected.value;
            var t := s.towers[p];
            var r := UpgradedSelected(s);
            if t.level < MaxLevel(t.kind) && s.coins >= CostTable(t.kind)[t.level - 1] then
              r == s.(towers := r.towers, coins := r.coins)
              && r.towers == s.towers[p := r.towers[p]]
              && r.towers[p].level == t.level + 1
              && r.towers[p].damage == DamageTable(t.kind)[t.level]
              && r.coins == s.coins - CostTable(t.kind)[t.level - 1]
            else r == s
  {
  }

  /**
   * Selling the selected tower refunds 60% of its placement cost, rounded
   * down, removes it and clears the selection.
   */
  lemma SellSelectedExact(s: Snap)
    requires Inv(s) && s.selected.Some?
    ensures var p := s.selected.value;
            var r := SoldSelected(s);
            r.coins == s.coins + Refund(PlaceCost(s.towers[p].kind))
            && 5 * (r.coins - s.coins) <= 3 * PlaceCost(s.towers[p].kind) < 5 * (r.coins - s.coins) + 5
            && r.towers == s.towers - {p} && r.selected.None?
            && r == s.(towers := s.towers - {p}, coins := r.coins, selected := None)
  {
  }

  /**
   * The T key in PHASE2 with no tower selected buys one click level for a flat
   * 50 coins, raising the click damage by 3; without 50 coins nothing changes.
   */
  lemma ClickUpgrade(s: Snap)
    requires Inv(s) && s.state == Phase2 && s.selected.None?
    ensures var r := KeyPressed(s, KeyT);
            if s.coins >= 50 then
              r.clickDamage == s.clickDamage + 3 && r.coins == s.coins - 50 && Inv(r)
            else r == s
  {
  }

  /**
   * SPACE starts the next wave in BUILD (one more wave, 5 + wave zombies to
   * spawn, running) and toggles the pause in COMBAT; in every other state it
   * does nothing.
   */
  lemma SpaceKey(s: Snap)
    requires Inv(s)
    ensures var r := KeyPressed(s, Space);
            (s.state == Build ==>
               r.wave == s.wave + 1 && r.zombiesToSpawn == 5 + r.wave && r.state == Combat && !r.paused)
            && (s.state == Combat ==> r.paused == !s.paused && r.(paused := s.paused) == s)
            && (s.state != Build && s.state != Combat ==> r == s)
  {
  }

  /**
   * R restarts only a finished game. The restart restores the initial field
   * values except the chosen tower kind, the drag state, the spawn counters,
   * and the handle counter.
   */
  lemma ResetExact(s: Snap)
    ensures s.state != GameOver && s.state != Win ==> KeyPressed(s, KeyR) == s
    ensures s.state == GameOver || s.state == Win ==>
              KeyPressed(s, KeyR)
              == Initial().(selectedKind := s.selectedKind, draggedTower := s.draggedTower,
                            dragPoint := s.dragPoint, zombiesToSpawn := s.zombiesToSpawn,
                            spawnTimer := s.spawnTimer, store := s.store, nextId := s.nextId)
  {
  }

  /** No input but R leaves a finished game: its state and pause stay. */
  lemma TerminalHandlers(s: Snap, c: Command)
    requires Inv(s) && (s.state == GameOver || s.state == Win) && c != Press(KeyR)
    ensures Apply(s, c).state == s.state && Apply(s, c).paused && Apply(s, c).wave == s.wave
  {
    match c
    case LeftPress(cell, outside, near) => TerminalLeftPress(s, cell, outside, near);
    case Press(k) =>
    case _ =>
  }

  lemma TerminalLeftPress(s: Snap, c: Cell, outsidePopup: bool, near: nat -> bool)
    requires Inv(s) && (s.state == GameOver || s.state == Win)
    ensures var r := LeftPressed(s, c, outsidePopup, near);
            r.state == s.state && r.paused && r.wave == s.wave
  {
    var s0 := if outsidePopup then s.(selected := None) else s;
    if s0.draggedTower.Some? {
      assert Dropped(s0).(towers := s0.towers, coins := s0.coins, draggedTower := s0.draggedTower,
                          dragPoint := s0.dragPoint) == s0;
    }
  }

  /**
   * PHASE2 while paused is never left: a step does nothing, and no input
   * resumes it, since SPACE is ignored outside BUILD and COMBAT and R only
   * acts in GAME_OVER and WIN.
   */
  lemma PausedPhase2Stays(s: Snap, o: Oracle, c: Command)
    requires Inv(s) && s.state == Phase2 && s.paused
    ensures Stepped(s, o) == s
    ensures Apply(s, c).state == Phase2 && Apply(s, c).paused
  {
  }

  /**
   * PHASE2 is never left, paused or not: no tick and no input changes the
   * phase or the wave once it has begun. The wave advances only from BUILD,
   * the reset needs GAME_OVER or WIN, and the win check needs wave 40, which
   * a game in PHASE2 never reaches.
   */
  lemma Phase2Absorbing(s: Snap, o: Oracle, c: Command)
    requires Inv(s) && s.state == Phase2
    ensures Stepped(s, o).state == Phase2 && Stepped(s, o).wave == s.wave
    ensures Apply(s, c).state == Phase2 && Apply(s, c).wave == s.wave
  {
    Phase2TickStays(s, o);
    Phase2InputStays(s, c);
  }

  /** A tick in PHASE2 keeps the phase and the wave. */
  lemma Phase2TickStays(s: Snap, o: Oracle)
    requires s.state == Phase2 && 20 <= s.wave < 40
    ensures Ticked(s, o).state == Phase2 && Ticked(s, o).wave == s.wave
  {
    var s3 := SpawnChecked(WaveChecked(ProjectilesMoved(s, o.flight)), o.random);
    EarlyTickPhase(s, o);
    LateTickPhase(s3, o);
  }

  /** No input in PHASE2 changes the phase or the wave. */
  lemma Phase2InputStays(s: Snap, c: Command)
    requires s.state == Phase2
    ensures Apply(s, c).state == Phase2 && Apply(s, c).wave == s.wave
  {
    if c.LeftPress? {
      var s0 := if c.outsidePopup then s.(selected := None) else s;
      assert Apply(s, c) == ClickedAll(s0, s0.zombies, c.near);
    }
  }

  /**
   * A wave cleared in the very tick the phase-2 effect commits ends in PHASE2
   * and paused, the state PausedPhase2Stays shows is never left.
   */
  lemma ClearAndCommit(s: Snap, o: Oracle)
    requires s.state == Combat && s.zombiesToSpawn == 0 && s.wave < 40
    requires ProjectilesMoved(s, o.flight).zombies == []
    requires s.phase2Transition && s.phase2Ramp + 1 >= RampSteps
    ensures Ticked(s, o).state == Phase2 && Ticked(s, o).paused
  {
    var s1 := ProjectilesMoved(s, o.flight);
    var s3 := SpawnChecked(WaveChecked(s1), o.random);
    assert s3 == s1.(state := Build, coins := s1.coins + 30 + 15 * s.wave, paused := true);
    assert MarchedAll(s3, s3.zombies, o.reached) == s3;
  }

  // ---------------------------------------------------------------- concrete games

  // ---------------------------------------------------------------- the PHASE2 click

  /**
   * The click loop over a list of distinct handles hits every listed zombie
   * within reach exactly once, by exactly the click damage, and touches no
   * other zombie; the click damage itself does not change.
   */
  lemma {:induction false} ClickedAllStore(s: Snap, ids: seq<nat>, near: nat -> bool)
    requires Distinct(ids)
    ensures ClickedAll(s, ids, near).clickDamage == s.clickDamage
    ensures forall id :: id in s.store ==>
              ClickedAll(s, ids, near).store[id]
              == if id in ids && near(id) then s.store[id].(health := s.store[id].health - s.clickDamage)
                 else s.store[id]
    decreases |ids|
  {
    if ids != [] {
      var k := |ids| - 1;
      var pre := ids[..k];
      assert Distinct(pre);
      assert ids[k] !in pre;
      assert forall id :: id in ids <==> id in pre || id == ids[k];
      ClickedAllStore(s, pre, near);
    }
  }

  /** The zombie `id` is one of `ids`, within reach of the click, and the click damage kills it. */
  predicate ClickKills(s: Snap, ids: seq<nat>, near: nat -> bool, id: nat) {
    id in ids && id in s.store && near(id) && s.store[id].health - s.clickDamage <= 0
  }

  /**
   * The coins the click pays for the zombies of `ids`: 2 for each one within
   * reach, and the reward of each one it kills.
   */
  function ClickPay(s: Snap, ids: seq<nat>, near: nat -> bool): int
    decreases |ids|
  {
    if ids == [] then 0
    else
      var k := |ids| - 1;
      var id := ids[k];
      ClickPay(s, ids[..k], near)
      + (if id in s.store && near(id) then
           2 + (if s.store[id].health - s.clickDamage <= 0 then Reward(s.store[id].kind) else 0)
         else 0)
  }

  /** The click pays exactly ClickPay. */
  lemma {:induction false} ClickedAllCoins(s: Snap, ids: seq<nat>, near: nat -> bool)
    requires Distinct(ids)
    ensures ClickedAll(s, ids, near).coins == s.coins + ClickPay(s, ids, near)
    decreases |ids|
  {
    if ids != [] {
      var k := |ids| - 1;
      var pre := ids[..k];
      assert Distinct(pre);
      assert ids[k] !in pre;
      ClickedAllCoins(s, pre, near);
      ClickedAllStore(s, pre, near);
    }
  }

  /**
   * The click removes from the live list exactly the zombies it kills, and
   * the list keeps having no repetitions.
   */
  lemma {:induction false} ClickedAllLive(s: Snap, ids: seq<nat>, near: nat -> bool)
    requires Distinct(ids) && Distinct(s.zombies)
    ensures Distinct(ClickedAll(s, ids, near).zombies)
    ensures forall id :: id in ClickedAll(s, ids, near).zombies <==> id in s.zombies && !ClickKills(s, ids, near, id)
    decreases |ids|
  {
    if ids != [] {
      var k := |ids| - 1;
      var pre := ids[..k];
      assert Distinct(pre);
      assert ids[k] !in pre;
      assert forall id :: id in ids <==> id in pre || id == ids[k];
      ClickedAllLive(s, pre, near);
      ClickedAllStore(s, pre, near);
    }
  }

  /**
   * A left press in PHASE2 is an area click: every live zombie within reach
   * (not only the nearest) loses exactly the click damage, the others are
   * untouched, the coins rise by exactly ClickPay, and exactly the killed
   * zombies leave the live list.
   */
  lemma PhaseTwoClick(s: Snap, c: Cell, outsidePopup: bool, near: nat -> bool)
    requires Distinct(s.zombies) && s.state == Phase2
    ensures var r := LeftPressed(s, c, outsidePopup, near);
            (forall id :: id in s.store ==>
               r.store[id] == if id in s.zombies && near(id)
                              then s.store[id].(health := s.store[id].health - s.clickDamage)
                              else s.store[id])
            && r.coins == s.coins + ClickPay(s, s.zombies, near)
            && (forall id :: id in r.zombies <==> id in s.zombies && !ClickKills(s, s.zombies, near, id))
  {
    var s0 := if outsidePopup then s.(selected := None) else s;
    assert LeftPressed(s, c, outsidePopup, near) == ClickedAll(s0, s.zombies, near);
    ClickPayIgnoresSelection(s, s0, s.zombies, near);
    ClickedAllStore(s0, s.zombies, near);
    ClickedAllCoins(s0, s.zombies, near);
    ClickedAllLive(s0, s.zombies, near);
  }

  /** ClickPay reads only the zombie objects and the click damage. */
  lemma {:induction false} ClickPayIgnoresSelection(s: Snap, s0: Snap, ids: seq<nat>, near: nat -> bool)
    requires s0.store == s.store && s0.clickDamage == s.clickDamage
    ensures ClickPay(s0, ids, near) == ClickPay(s, ids, near)
    decreases |ids|
  {
    if ids != [] {
      ClickPayIgnoresSelection(s, s0, ids[..|ids| - 1], near);
    }
  }

  // ---------------------------------------------------------------- phase 2 begins

  /**
   * The blocks of a tick before the zombie loop leave the phase-2 effect, the
   * click damage and its level and the wave alone, and enter or leave PHASE2
   * never.
   */
  lemma EarlyTickPhase(s: Snap, o: Oracle)
    ensures var s3 := SpawnChecked(WaveChecked(ProjectilesMoved(s, o.flight)), o.random);
            s3.phase2Transition == s.phase2Transition && s3.phase2Ramp == s.phase2Ramp
            && s3.clickDamage == s.clickDamage && s3.clickLevel == s.clickLevel && s3.wave == s.wave
            && (s3.state == Phase2 <==> s.state == Phase2)
  {
    var s1 := ProjectilesMoved(s, o.flight);
    assert s1.(store := s.store, coins := s.coins, zombies := s.zombies, projectiles := s.projectiles) == s;
  }

  /**
   * The zombie and tower loops keep the phase-2 progress, the click damage
   * and its level and the wave, never end the effect, and from wave 20 on
   * keep PHASE2 as it is.
   */
  lemma LateTickPhase(s3: Snap, o: Oracle)
    requires s3.wave >= 20
    ensures var s5 := FiredAll(MarchedAll(s3, s3.zombies, o.reached), o.order, o.dist);
            s5.phase2Ramp == s3.phase2Ramp && (s3.phase2Transition ==> s5.phase2Transition)
            && s5.clickDamage == s3.clickDamage && s5.clickLevel == s3.clickLevel && s5.wave == s3.wave
            && (s5.state == Phase2 <==> s3.state == Phase2)
  {
    var s4 := MarchedAll(s3, s3.zombies, o.reached);
    assert s4.phase2Ramp == s3.phase2Ramp && s4.clickDamage == s3.clickDamage
           && s4.clickLevel == s3.clickLevel && s4.wave == s3.wave && s4.state == s3.state;
  }

  /**
   * The tick in which the phase-2 effect completes enters PHASE2, resets the
   * click damage to 1 and its level to 0, and ends the transition.
   */
  lemma Phase2Commit(s: Snap, o: Oracle)
    requires s.phase2Transition && s.phase2Ramp + 1 >= RampSteps && 20 <= s.wave < 40
    ensures var r := Ticked(s, o);
            r.state == Phase2 && r.clickDamage == 1 && r.clickLevel == 0 && !r.phase2Transition
  {
    var s3 := SpawnChecked(WaveChecked(ProjectilesMoved(s, o.flight)), o.random);
    EarlyTickPhase(s, o);
    LateTickPhase(s3, o);
    var s5 := FiredAll(MarchedAll(s3, s3.zombies, o.reached), o.order, o.dist);
    assert s5.phase2Transition && s5.phase2Ramp + 1 >= RampSteps && s5.wave < 40;
  }

  /**
   * A tick during the phase-2 effect that does not complete it advances the
   * effect by one step and neither enters nor leaves PHASE2 nor touches the
   * click damage.
   */
  lemma Phase2Progress(s: Snap, o: Oracle)
    requires s.phase2Transition && s.phase2Ramp + 1 < RampSteps && 20 <= s.wave < 40
    ensures var r := Ticked(s, o);
            r.phase2Transition && r.phase2Ramp == s.phase2Ramp + 1
            && r.clickDamage == s.clickDamage && r.clickLevel == s.clickLevel
            && (r.state == Phase2 <==> s.state == Phase2)
  {
    var s3 := SpawnChecked(WaveChecked(ProjectilesMoved(s, o.flight)), o.random);
    EarlyTickPhase(s, o);
    LateTickPhase(s3, o);
    var s5 := FiredAll(MarchedAll(s3, s3.zombies, o.reached), o.order, o.dist);
    assert s5.phase2Transition && s5.phase2Ramp + 1 < RampSteps && s5.wave < 40;
  }

  function NoneNear(id: nat): bool { false }

  /** From a new game: pick up an Arrow tower, drag it to (2, 2) and drop it there. */
  lemma PlaceArrowScenario()
    ensures var s1 := Apply(Initial(), LeftPress(Cell(0, 0), false, NoneNear));
            var s2 := Apply(s1, DragTo(Cell(2, 2)));
            var s3 := Apply(s2, LeftPress(Cell(2, 2), false, NoneNear));
            s3.towers == map[Cell(2, 2) := NewTower(Arrow)] && s3.coins == 70 && s3.draggedTower.None?
  {
  }

  /** Dropping a tower on the lane places nothing and costs nothing. */
  lemma PathDropScenario()
    ensures var s1 := Apply(Initial(), LeftPress(Cell(5, 7), false, NoneNear));
            var s2 := Apply(s1, LeftPress(Cell(5, 7), false, NoneNear));
            s1.draggedTower.Some? && s2.towers == map[] && s2.coins == 100 && s2.draggedTower.None?
  {
    assert OnPath(Cell(5, 7)) by {
      assert Path[9] == Cell(5, 7);
    }
  }

  /** SPACE on a new game starts wave 1 with six zombies to spawn. */
  lemma FirstWaveScenario()
    ensures var s := Apply(Initial(), Press(Space));
            s.wave == 1 && s.zombiesToSpawn == 6 && s.state == Combat && !s.paused
  {
  }

  /** The game of NegativeCoinsScenario after an Arrow tower is placed at (0, 0). */
  function OneArrow(): Snap {
    Initial().(towers := map[Cell(0, 0) := NewTower(Arrow)], coins := 70)
  }

  lemma PlaceFirstArrow()
    ensures Apply(Apply(Initial(), LeftPress(Cell(0, 0), false, NoneNear)), LeftPress(Cell(0, 0), false, NoneNear))
            == OneArrow()
  {
    assert !OnPath(Cell(0, 0));
  }

  lemma SelectAndPickUp()
    ensures Apply(Apply(OneArrow(), RightPress(Cell(0, 0))), LeftPress(Cell(1, 1), false, NoneNear))
            == OneArrow().(selected := Some(Cell(0, 0)), draggedTower := Some(NewTower(Arrow)),
                           dragPoint := Some(Cell(1, 1)))
  {
  }

  lemma UpgradeTwice(s: Snap)
    requires s == OneArrow().(selected := Some(Cell(0, 0)), draggedTower := Some(NewTower(Arrow)),
                              dragPoint := Some(Cell(1, 1)))
    ensures Apply(Apply(s, Press(KeyT)), Press(KeyT))
            == s.(towers := map[Cell(0, 0) := NewTower(Arrow).(level := 3, damage := 8)], coins := 0)
  {
    var s5 := Apply(s, Press(KeyT));
    assert s5 == s.(towers := map[Cell(0, 0) := NewTower(Arrow).(level := 2, damage := 4)], coins := 50);
  }

  lemma DropSecondArrow(s: Snap)
    requires s == OneArrow().(selected := Some(Cell(0, 0)), draggedTower := Some(NewTower(Arrow)),
                              dragPoint := Some(Cell(1, 1)),
                              towers := map[Cell(0, 0) := NewTower(Arrow).(level := 3, damage := 8)], coins := 0)
    ensures Apply(s, LeftPress(Cell(1, 1), false, NoneNear)).coins == -30
    ensures Cell(1, 1) in Apply(s, LeftPress(Cell(1, 1), false, NoneNear)).towers
  {
    assert !OnPath(Cell(1, 1));
  }

  /**
   * Coins can go below zero: a tower is picked up while affordable, the coins
   * are then spent on upgrading another tower, and the drop still charges
   * the full cost.
   */
  lemma NegativeCoinsScenario()
    ensures var s2 := Apply(Apply(Initial(), LeftPress(Cell(0, 0), false, NoneNear)),
                            LeftPress(Cell(0, 0), false, NoneNear));
            var s4 := Apply(Apply(s2, RightPress(Cell(0, 0))), LeftPress(Cell(1, 1), false, NoneNear));
            var s6 := Apply(Apply(s4, Press(KeyT)), Press(KeyT));
            var s7 := Apply(s6, LeftPress(Cell(1, 1), false, NoneNear));
            s2.coins == 70 && s4.draggedTower.Some? && s6.coins == 0 && s7.coins == -30
            && Cell(1, 1) in s7.towers
  {
    PlaceFirstArrow();
    SelectAndPickUp();
    var s4 := OneArrow().(selected := Some(Cell(0, 0)), draggedTower := Some(NewTower(Arrow)),
                          dragPoint := Some(Cell(1, 1)));
    UpgradeTwice(s4);
    DropSecondArrow(Apply(Apply(s4, Press(KeyT)), Press(KeyT)));
  }

  function Walker(pathIndex: nat): Zombie {
    Zombie(Basic, 20, 1, pathIndex)
  }

  /**
   * A zombie at the next-to-last waypoint reaching the base when the base has
   * 1 health left: game over in wave 19, a second chance and the phase-2
   * effect in wave 25.
   */
  lemma BaseDestroyedScenarios()
    ensures var s := Initial().(state := Combat, paused := false, wave := 19, baseHealth := 1,
                                zombies := [0], store := map[0 := Walker(LastWaypoint - 1)], nextId := 1);
            var r := Marched(s, 0, true);
            r.state == GameOver && r.paused && r.zombies == []
    ensures var s := Initial().(state := Combat, paused := false, wave := 25, baseHealth := 1,
                                zombies := [0], store := map[0 := Walker(LastWaypoint - 1)], nextId := 1);
            var r := Marched(s, 0, true);
            r.state == Combat && !r.paused && r.baseHealth == 50 && r.phase2Transition && r.zombies == []
  {
  }
}

/// Towers: the four kinds, their placement costs, their upgrade tables,
/// the per-kind getUpgradeCost/upgrade chains, the sell refund, and the
/// per-tick update that picks a target and fires.
module Towers {
  import opened Rules

  datatype TowerKind = Arrow | Bomb | Ice | Minigun

  /** One placed (or dragged) tower; `range` is in cells, `cooldown` in ticks. */
  datatype Tower = Tower(kind: TowerKind, damage: int, range: int, cost: int,
                         level: int, cooldown: int, maxCooldown: int)

  /** A projectile in flight: the handle of its target zombie and the damage it carries. */
  datatype Projectile = Projectile(target: nat, damage: int)

  /** The placement cost constants ARROW_COST, BOMB_COST, ICE_COST, MINIGUN_COST. */
  function PlaceCost(k: TowerKind): int {
    match k
    case Arrow => 30
    case Bomb => 40
    case Ice => 25
    case Minigun => 300
  }

  /** Damage at level 1, 2, ...: the reference table every level of a kind follows. */
  function DamageTable(k: TowerKind): seq<int> {
    match k
    case Arrow => [2, 4, 8]
    case Bomb => [5]
    case Ice => [1, 2, 4, 5, 10]
    case Minigun => [3, 7, 11, 14, 20]
  }

  /** Cost of going from level i+1 to level i+2: the reference upgrade-cost table. */
  function CostTable(k: TowerKind): (costs: seq<int>)
    ensures |costs| == |DamageTable(k)| - 1
    ensures forall i :: 0 <= i < |costs| ==> costs[i] > 0
  {
    match k
    case Arrow => [20, 50]
    case Bomb => []
    case Ice => [60, 45, 50, 130]
    case Minigun => [200, 250, 300, 400]
  }

  function MaxLevel(k: TowerKind): int {
    |DamageTable(k)|
  }

  /** A fresh tower of kind k, as its constructor builds it. */
  function NewTower(k: TowerKind): (t: Tower)
    ensures WellFormed(t) && t.kind == k && t.level == 1 && t.cooldown == 0
  {
    match k
    case Arrow => Tower(Arrow, 2, 5, PlaceCost(Arrow), 1, 0, 30)
    case Bomb => Tower(Bomb, 5, 4, PlaceCost(Bomb), 1, 0, 60)
    case Ice => Tower(Ice, 1, 4, PlaceCost(Ice), 1, 0, 20)
    case Minigun => Tower(Minigun, 3, 4, PlaceCost(Minigun), 1, 0, 5)
  }

  /**
   * A tower as the game can hold it: its level within the kind's table, its
   * damage the table's entry for that level, its fixed stats those of the kind
   * and its cooldown within 0..maxCooldown.
   */
  ghost predicate WellFormed(t: Tower) {
    1 <= t.level <= MaxLevel(t.kind)
    && t.damage == DamageTable(t.kind)[t.level - 1]
    && t.cost == PlaceCost(t.kind)
    && t.range == (if t.kind == Arrow then 5 else 4)
    && t.maxCooldown == (match t.kind
                         case Arrow => 30 case Bomb => 60 case Ice => 20 case Minigun => 5)
    && 0 <= t.cooldown <= t.maxCooldown
  }

  /** getUpgradeCost(): the cost of the next level, 0 at the maximum level. */
  function UpgradeCost(t: Tower): (c: int)
    ensures c == (if 1 <= t.level < MaxLevel(t.kind) then CostTable(t.kind)[t.level - 1] else 0)
    ensures c >= 0
    ensures WellFormed(t) ==> (c > 0 <==> t.level < MaxLevel(t.kind))
  {
    match t.kind
    case Arrow =>
      if t.level == 1 then 20 else if t.level == 2 then 50 else 0
    case Bomb => 0
    case Ice =>
      if t.level == 1 then 60 else if t.level == 2 then 45
      else if t.level == 3 then 50 else if t.level == 4 then 130 else 0
    case Minigun =>
      if t.level == 1 then 200 else if t.level == 2 then 250
      else if t.level == 3 then 300 else if t.level == 4 then 400 else 0
  }

  /** The tower and the coin balance after upgrade(). */
  datatype Upgraded = Upgraded(tower: Tower, coins: int)

  /**
   * upgrade(): when the next level exists and is affordable, pay for it and take
   * the next entry of the damage table; otherwise change nothing.
   */
  function Upgrade(t: Tower, coins: int): (r: Upgraded)
    ensures UpgradeCost(t) > 0 && coins >= UpgradeCost(t) ==>
              r.coins == coins - UpgradeCost(t)
              && r.tower == t.(level := t.level + 1, damage := DamageTable(t.kind)[t.level])
    ensures !(UpgradeCost(t) > 0 && coins >= UpgradeCost(t)) ==> r == Upgraded(t, coins)
    ensures WellFormed(t) ==> WellFormed(r.tower) && r.tower.level <= MaxLevel(t.kind)
  {
    match t.kind
    case Arrow =>
      if t.level == 1 && coins >= 20 then Upgraded(t.(damage := 4, level := 2), coins - 20)
      else if t.level == 2 && coins >= 50 then Upgraded(t.(damage := 8, level := 3), coins - 50)
      else Upgraded(t, coins)
    case Bomb => Upgraded(t, coins)
    case Ice =>
      if t.level == 1 && coins >= 60 then Upgraded(t.(damage := 2, level := 2), coins - 60)
      else if t.level == 2 && coins >= 45 then Upgraded(t.(damage := 4, level := 3), coins - 45)
      else if t.level == 3 && coins >= 50 then Upgraded(t.(damage := 5, level := 4), coins - 50)
      else if t.level == 4 && coins >= 130 then Upgraded(t.(damage := 10, level := 5), coins - 130)
      else Upgraded(t, coins)
    case Minigun =>
      if t.level == 1 && coins >= 200 then Upgraded(t.(damage := 7, level := 2), coins - 200)
      else if t.level == 2 && coins >= 250 then Upgraded(t.(damage := 11, level := 3), coins - 250)
      else if t.level == 3 && coins >= 300 then Upgraded(t.(damage := 14, level := 4), coins - 300)
      else if t.level == 4 && coins >= 400 then Upgraded(t.(damage := 20, level := 5), coins - 400)
      else Upgraded(t, coins)
  }

  /** `n` upgrade attempts in a row, each as a key press or a popup click performs it. */
  function UpgradeTimes(t: Tower, coins: int, n: nat): Upgraded {
    if n == 0 then Upgraded(t, coins)
    else
      var r := UpgradeTimes(t, coins, n - 1);
      Upgrade(r.tower, r.coins)
  }

  /** The total of the cost table from level `lo` up to level `hi`. */
  function CostBetween(k: TowerKind, lo: int, hi: int): int
    requires 1 <= lo <= hi <= MaxLevel(k)
    decreases hi - lo
  {
    if lo == hi then 0 else CostBetween(k, lo, hi - 1) + CostTable(k)[hi - 2]
  }

  /**
   * Any series of upgrades keeps the tower well formed, never passes the
   * kind's maximum level, raises the level one step per paid upgrade and
   * charges exactly the table's costs for the levels gained; a balance that
   * starts non-negative stays non-negative.
   */
  lemma {:induction false} UpgradeSeries(t: Tower, coins: int, n: nat)
    requires WellFormed(t)
    ensures var r := UpgradeTimes(t, coins, n);
            WellFormed(r.tower) && r.tower.kind == t.kind
            && t.level <= r.tower.level <= MaxLevel(t.kind)
            && coins - r.coins == CostBetween(t.kind, t.level, r.tower.level)
            && (coins >= 0 ==> r.coins >= 0)
  {
    if n > 0 {
      UpgradeSeries(t, coins, n - 1);
    }
  }

  /** Upgrading a tower from level 1 to its maximum costs 70, nothing, 285 and 1150 coins. */
  lemma FullUpgradeCosts()
    ensures CostBetween(Arrow, 1, MaxLevel(Arrow)) == 70
    ensures CostBetween(Bomb, 1, MaxLevel(Bomb)) == 0
    ensures CostBetween(Ice, 1, MaxLevel(Ice)) == 285
    ensures CostBetween(Minigun, 1, MaxLevel(Minigun)) == 1150
  {
    assert CostBetween(Arrow, 1, 2) == 20;
    assert CostBetween(Ice, 1, 4) == 155;
    assert CostBetween(Minigun, 1, 4) == 750;
  }

  /**
   * The sell refund `(int)(cost * 0.6)`: sixty percent of the cost, truncated
   * toward zero.
   */
  function Refund(cost: int): (r: int)
    ensures cost >= 0 ==> 0 <= 5 * r <= 3 * cost < 5 * r + 5
    ensures cost < 0 ==> 5 * r - 5 < 3 * cost <= 5 * r <= 0
  {
    if cost >= 0 then cost * 3 / 5 else -((-cost) * 3 / 5)
  }

  /** Selling a tower of each kind returns 18, 24, 15 and 180 coins. */
  lemma SellValues()
    ensures Refund(PlaceCost(Arrow)) == 18 && Refund(PlaceCost(Bomb)) == 24
    ensures Refund(PlaceCost(Ice)) == 15 && Refund(PlaceCost(Minigun)) == 180
  {
  }

  /** The firing radius `range * CELL_SIZE`, in pixels. */
  function Reach(t: Tower): real {
    (t.range * CellSize) as real
  }

  /**
   * Among the distances strictly below `reach`, the index of the first one of
   * minimal distance, or None when none is below `reach`.
   */
  function NearestInRange(ds: seq<real>, reach: real): (r: Option<nat>)
    ensures r.None? <==> forall i :: 0 <= i < |ds| ==> ds[i] >= reach
    ensures r.Some? ==> r.value < |ds| && ds[r.value] < reach
    ensures r.Some? ==> forall i :: 0 <= i < |ds| && ds[i] < reach ==> ds[r.value] <= ds[i]
    ensures r.Some? ==> forall i :: 0 <= i < r.value && ds[i] < reach ==> ds[r.value] < ds[i]
    decreases |ds|
  {
    if ds == [] then None
    else
      var k := |ds| - 1;
      var r0 := NearestInRange(ds[..k], reach);
      if ds[k] < reach && (r0.None? || ds[k] < ds[r0.value]) then Some(k) else r0
  }

  /** Scanning one more distance: the new one wins only when strictly within reach and strictly closer. */
  lemma NearestStep(ds: seq<real>, i: nat, reach: real)
    requires i < |ds|
    ensures var r0 := NearestInRange(ds[..i], reach);
      NearestInRange(ds[..i + 1], reach)
      == if ds[i] < reach && (r0.None? || ds[i] < ds[r0.value]) then Some(i) else r0
  {
    assert ds[..i + 1][..i] == ds[..i];
  }

  /** The distance from the centre of cell `pos` to each zombie of `ids`, in order. */
  function Distances(pos: Cell, ids: seq<nat>, dist: (Cell, nat) -> real): (ds: seq<real>)
    ensures |ds| == |ids|
  {
    seq(|ids|, i requires 0 <= i < |ids| => dist(pos, ids[i]))
  }

  /** The tower after one update and the projectile it fired, if any. */
  datatype Fired = Fired(tower: Tower, shot: Option<Projectile>)

  /**
   * Tower.update: a tower still cooling down counts down by one and does not
   * fire; a ready tower fires one projectile with its damage at the first
   * nearest zombie strictly within reach and restarts its cooldown, and when
   * no zombie is within reach it stays ready.
   */
  function TowerUpdate(t: Tower, pos: Cell, ids: seq<nat>, dist: (Cell, nat) -> real): (r: Fired)
    ensures r.tower == t.(cooldown := r.tower.cooldown)
    ensures t.cooldown > 0 ==> r.tower.cooldown == t.cooldown - 1 && r.shot.None?
    ensures t.cooldown <= 0 ==>
              (r.shot.Some? <==> exists i :: 0 <= i < |ids| && dist(pos, ids[i]) < Reach(t))
    ensures r.shot.Some? ==>
              r.tower.cooldown == t.maxCooldown && r.shot.value.damage == t.damage
              && r.shot.value.target in ids
              && NearestInRange(Distances(pos, ids, dist), Reach(t)).Some?
              && r.shot.value.target == ids[NearestInRange(Distances(pos, ids, dist), Reach(t)).value]
    ensures t.cooldown <= 0 && r.shot.None? ==> r.tower == t
    ensures WellFormed(t) ==> WellFormed(r.tower)
  {
    if t.cooldown > 0 then Fired(t.(cooldown := t.cooldown - 1), None)
    else
      var ds := Distances(pos, ids, dist);
      match NearestInRange(ds, Reach(t))
      case None =>
        assert forall i :: 0 <= i < |ids| ==> dist(pos, ids[i]) == ds[i];
        Fired(t, None)
      case Some(k) => Fired(t.(cooldown := t.maxCooldown), Some(Projectile(ids[k], t.damage)))
  }

  /**
   * Tower.update as the source runs it: count down, or scan the zombies in
   * list order keeping the closest one strictly within reach, then fire.
   */
  method UpdateTower(t: Tower, pos: Cell, ids: seq<nat>, dist: (Cell, nat) -> real)
    returns (r: Fired)
    ensures r == TowerUpdate(t, pos, ids, dist)
  {
    if t.cooldown > 0 {
      return Fired(t.(cooldown := t.cooldown - 1), None);
    }
    ghost var ds := Distances(pos, ids, dist);
    var target: Option<nat> := None;
    var minDistance: real := 0.0;
    var i := 0;
    while i < |ids|
      invariant 0 <= i <= |ids|
      invariant target == NearestInRange(ds[..i], Reach(t))
      invariant target.Some? ==> minDistance == ds[target.value]
    {
      var distance := dist(pos, ids[i]);
      NearestStep(ds, i, Reach(t));
      if distance < Reach(t) && (target.None? || distance < minDistance) {
        minDistance := distance;
        target := Some(i);
      }
      i := i + 1;
    }
    assert ds[..|ids|] == ds;
    match target
    case None =>
      r := Fired(t, None);
    case Some(k) =>
      r := Fired(t.(cooldown := t.maxCooldown), Some(Projectile(ids[k], t.damage)));
  }
}

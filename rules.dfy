/// Fixed data of the Die to Live simulation: the grid, the lane the zombies
/// walk, the zombie kinds and the wave-dependent choice of the next kind.
module Rules {

  datatype Option<T> = None | Some(value: T)

  const GridSize: int := 15      // the playfield is GridSize x GridSize cells
  const CellSize: int := 50      // pixels per cell
  const BaseHealth: int := 100   // base health at the start of a game
  const StartCoins: int := 100   // coins at the start of a game

  /** A grid cell, the model of a java.awt.Point used as a cell index. */
  datatype Cell = Cell(x: int, y: int)

  /** The waypoints of the lane, from the spawn point to the base. */
  const Path: seq<Cell> := [
    Cell(14, 7), Cell(13, 7), Cell(12, 7), Cell(11, 6), Cell(10, 5), Cell(9, 4),
    Cell(8, 4), Cell(7, 5), Cell(6, 6), Cell(5, 7), Cell(4, 7), Cell(3, 7),
    Cell(2, 7), Cell(1, 7), Cell(0, 7)
  ]

  /** Index of the final waypoint: a zombie whose path index reaches it is at the base. */
  const LastWaypoint: nat := |Path| - 1

  predicate InBounds(c: Cell) {
    0 <= c.x < GridSize && 0 <= c.y < GridSize
  }

  /** The cells the path grid marks: the waypoints that lie inside the grid. */
  predicate OnPath(c: Cell) {
    InBounds(c) && c in Path
  }

  datatype ZombieKind = Basic | Speedy | Abnormal | Charged

  /** Coins credited when a zombie of this kind is killed. */
  function Reward(k: ZombieKind): int {
    match k
    case Basic => 10
    case Speedy => 7
    case Abnormal => 15
    case Charged => 20
  }

  /** Damage a zombie of this kind deals to the base when it arrives. */
  function BaseDamage(k: ZombieKind): int {
    match k
    case Basic => 1
    case Speedy => 2
    case Abnormal => 3
    case Charged => 5
  }

  /** Health a zombie of this kind spawns with. */
  function MaxHealth(k: ZombieKind): int {
    match k
    case Basic => 20
    case Speedy => 15
    case Abnormal => 40
    case Charged => 60
  }

  /**
   * The kind of the next zombie of a wave. From wave 15 on the source draws the
   * kind at random; `random` stands for that draw.
   */
  function SpawnKind(wave: nat, random: ZombieKind): (k: ZombieKind)
    ensures wave < 5 ==> k == Basic
    ensures 5 <= wave < 10 ==> (k == Basic <==> wave % 2 == 0) && (k == Speedy <==> wave % 2 == 1)
    ensures 10 <= wave < 15 ==> (k == Basic <==> wave % 3 == 0) && (k == Speedy <==> wave % 3 == 1)
                                && (k == Abnormal <==> wave % 3 == 2)
    ensures wave < 15 ==> k != Charged
    ensures wave >= 15 ==> k == random
  {
    if wave < 5 then Basic
    else if wave < 10 then (if wave % 2 == 0 then Basic else Speedy)
    else if wave < 15 then
      (if wave % 3 == 0 then Basic else if wave % 3 == 1 then Speedy else Abnormal)
    else random
  }
}

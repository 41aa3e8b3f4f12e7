/** The enumerations and speed constants shared by every part of the game (src/enums.py). */
module Enums {
  import opened Wrappers

  /** Movement state of the player; it selects the animation that is played. */
  datatype PlayerState = Idle | Run | Jump | Fall

  /** Facing of a character or a bullet. */
  datatype Orientation = Right | Left

  /** One side of a character that currently touches a tile. */
  datatype Collision = Top | Bottom | Left | Right

  /** Which dust animation a particle effect plays. */
  datatype AnimationType = Jump | Land

  /** What one character of a level layout stands for. */
  datatype CellType = Empty | Wall | Player | Enemy | Coin | DeathBox

  // Speeds, in pixels (or animation frames) per frame; the enum's values verbatim.
  const PlayerAnimation: real := 0.15
  const ParticleAnimation: real := 0.5
  const DustAnimation: real := 0.15
  const PlayerMovement: int := 8
  const PlayerJump: int := -16
  const Gravity: real := 0.8
  const ShootDelay: real := 0.18
  const EnemyMovement: real := 3.5
  const EnemyAnimation: real := 0.15
  const BulletSpeed: int := 7

  /** Every collision flag there is. */
  function AllCollisions(): set<Collision>
  {
    {Collision.Top, Collision.Bottom, Collision.Left, Collision.Right}
  }

  /** Every player state there is. */
  function AllPlayerStates(): set<PlayerState>
  {
    {PlayerState.Idle, PlayerState.Run, PlayerState.Jump, PlayerState.Fall}
  }

  /** The collision flags are exactly four distinct members. */
  lemma CollisionsAreFour()
    ensures forall c: Collision :: c in AllCollisions()
    ensures |AllCollisions()| == 4
  {
    forall c: Collision ensures c in AllCollisions() {
      match c
      case Top =>
      case Bottom =>
      case Left =>
      case Right =>
    }
  }

  /** The player states are exactly four distinct members. */
  lemma PlayerStatesAreFour()
    ensures forall p: PlayerState :: p in AllPlayerStates()
    ensures |AllPlayerStates()| == 4
  {
    forall p: PlayerState ensures p in AllPlayerStates() {
      match p
      case Idle =>
      case Run =>
      case Jump =>
      case Fall =>
    }
  }

  /** The layout character of a cell type (the enum member's value). */
  function CellChar(t: CellType): char
  {
    match t
    case Empty => ' '
    case Wall => 'X'
    case Player => 'P'
    case Enemy => 'E'
    case Coin => 'C'
    case DeathBox => 'D'
  }

  /** `CellType(c)`: the member whose value is `c`; any other character has none (a ValueError). */
  function CellTypeOf(c: char): (r: Option<CellType>)
    ensures r.Some? <==> c in {' ', 'X', 'P', 'E', 'C', 'D'}
  {
    match c
    case ' ' => Some(CellType.Empty)
    case 'X' => Some(CellType.Wall)
    case 'P' => Some(CellType.Player)
    case 'E' => Some(CellType.Enemy)
    case 'C' => Some(CellType.Coin)
    case 'D' => Some(CellType.DeathBox)
    case _ => None
  }

  /** The lookup inverts the value table in both directions, so the table is injective. */
  lemma CellLookupInvertsTable(c: char, t: CellType)
    ensures CellTypeOf(c) == Some(t) <==> CellChar(t) == c
  {
  }

  lemma CellCharInjective(s: CellType, t: CellType)
    ensures CellChar(s) == CellChar(t) ==> s == t
  {
    CellLookupInvertsTable(CellChar(s), s);
    CellLookupInvertsTable(CellChar(s), t);
  }
}

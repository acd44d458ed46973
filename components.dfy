/**
 * Entities, enumerations and component records of the game
 * (include/tinyECS/components.hpp and the fields the modelled systems use).
 *
 * Texture identifiers stay integers, because the game code does arithmetic
 * on them (the face cycle adds one); their values follow the order of the
 * TEXTURE_ASSET_ID enumeration.
 */
module Components {

  /** An entity is an opaque id handed out by the ECS. */
  type Entity = nat

  type TextureId = int

  const BUNNY_IDLE_UP0: TextureId := 0
  const BUNNY_IDLE_UP1: TextureId := 1
  const BUNNY_IDLE_RIGHT0: TextureId := 2
  const BUNNY_IDLE_RIGHT1: TextureId := 3
  const BUNNY_IDLE_DOWN0: TextureId := 4
  const BUNNY_IDLE_DOWN1: TextureId := 5
  const BUNNY_IDLE_LEFT0: TextureId := 6
  const BUNNY_IDLE_LEFT1: TextureId := 7
  const BUNNY_UP_WALK0: TextureId := 8
  const BUNNY_UP_WALK1: TextureId := 9
  const BUNNY_RIGHT_WALK0: TextureId := 10
  const BUNNY_RIGHT_WALK1: TextureId := 11
  const BUNNY_DOWN_WALK0: TextureId := 12
  const BUNNY_DOWN_WALK1: TextureId := 13
  const BUNNY_LEFT_WALK0: TextureId := 14
  const BUNNY_LEFT_WALK1: TextureId := 15
  const WATER_BACKGROUND: TextureId := 16
  const ISLAND_BACKGROUND: TextureId := 17
  const ENEMY0: TextureId := 18
  const SQUARE_3_NORMAL: TextureId := 19
  const SQUARE_3_HOVER: TextureId := 20
  const SQUARE_3_CLICKED: TextureId := 21
  const PLAY_BUTTON_NORMAL: TextureId := 22
  const PLAY_BUTTON_CLICKED: TextureId := 23
  const LONG_BOX: TextureId := 24
  const LONG_BOX_CLICKED: TextureId := 25
  const BUNNY_FACE_NEUTRAL01: TextureId := 26
  const BUNNY_FACE_NEUTRAL09: TextureId := 34
  const BUNNY_FACE_ANGRY01: TextureId := 35
  const BUNNY_FACE_ANGRY05: TextureId := 39
  const TILE_CURSOR: TextureId := 40
  const BUNNY_JAILED: TextureId := 47
  const BUNNY_NOT_JAILED: TextureId := 48

  datatype Direction = UP | RIGHT | DOWN | LEFT

  datatype PlayerState = IDLE | WALKING | STATIONING | BUILDING

  /** The kinds of ship module; a cell of the ship grid holds one. */
  datatype ModuleType =
    | EMPTY | PLATFORM | STEERING_WHEEL | SIMPLE_CANNON | LASER_WEAPON
    | HELPER_BUNNY | BUBBLE_MOD | HEAL | FAST_CANNON

  datatype Effect = TEXTURED | OTHER_EFFECT
  datatype Geometry = SPRITE | OTHER_GEOMETRY

  datatype Vec2 = Vec2(x: real, y: real)

  /** A tson::Vector2i: an integer polygon vertex or grid position. */
  datatype Point = Point(x: int, y: int)

  datatype Motion = Motion(position: Vec2, velocity: Vec2)

  datatype RenderRequest = RenderRequest(usedTexture: TextureId)

  datatype Player = Player(direction: Direction, state: PlayerState)

  datatype PlayerAnimation = PlayerAnimation(currAnim: TextureId, timerMs: int)

  /** The ship: health, the module grid (rows of cells) and the inventory count per module kind. */
  datatype Ship = Ship(
    health: real,
    maxHealth: real,
    isExpanded: bool,
    modules: seq<seq<ModuleType>>,
    available: map<ModuleType, nat>)

  datatype Collision = Collision(other: Entity)

  datatype Enemy = Enemy(health: int)

  datatype Island = Island(polygon: seq<Point>)

  datatype Base = Base(polygon: seq<Point>, shipInBase: bool, dropOffTimer: real, bunnyCount: int, locked: bool)

  datatype WheelState = WheelState(isAutomated: bool)

  datatype CannonState = CannonState(isAutomated: bool, timerMs: real)

  datatype Projectile = Projectile(damage: real, aliveTimeMs: real)

  datatype Bunny = Bunny(
    onIsland: bool,
    isJailed: bool,
    onShip: bool,
    onModule: bool,
    onBase: bool,
    jailHealth: real)

  datatype WalkingPath = WalkingPath(path: seq<Point>)

  datatype Disaster = Disaster(aliveTimeMs: real)

  /** Components whose contents no modelled rule reads (grid lines, screen state, colours, markers). */
  datatype Tag = Tag
}

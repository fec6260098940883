/**
  * The constants, the tagged object union and the table record declared in phylib.h.
  * Distances are in millimetres and times in seconds; the C doubles are modelled as reals.
  */
module PhylibTypes {
  import opened Wrappers

  const BALL_RADIUS: real := 28.5
  const BALL_DIAMETER: real := 2.0 * BALL_RADIUS
  const HOLE_RADIUS: real := 2.0 * BALL_DIAMETER
  const TABLE_LENGTH: real := 2700.0
  const TABLE_WIDTH: real := TABLE_LENGTH / 2.0
  const SIM_RATE: real := 0.0001
  const VEL_EPSILON: real := 0.01
  const DRAG: real := 150.0
  const MAX_TIME: int := 600
  const MAX_OBJECTS: nat := 26

  // The values of the phylib_obj enum.
  const STILL_BALL: nat := 0
  const ROLLING_BALL: nat := 1
  const HOLE: nat := 2
  const HCUSHION: nat := 3
  const VCUSHION: nat := 4

  /** The C `unsigned char` that holds a ball number. */
  newtype Byte = x: int | 0 <= x < 256

  datatype Coord = Coord(x: real, y: real)

  /**
    * phylib_object: the enum tag together with the union member it selects.
    * Each constructor carries exactly the fields of its struct, so a still ball has no velocity.
    */
  datatype Object =
    | StillBall(number: Byte, pos: Coord)
    | RollingBall(number: Byte, pos: Coord, vel: Coord, acc: Coord)
    | Hole(pos: Coord)
    | HCushion(y: real)
    | VCushion(x: real)

  /** The `type` field of a phylib_object. */
  function Tag(o: Object): (t: nat)
    ensures t <= VCUSHION
    ensures t == STILL_BALL <==> o.StillBall?
    ensures t == ROLLING_BALL <==> o.RollingBall?
    ensures t == HOLE <==> o.Hole?
    ensures t == HCUSHION <==> o.HCushion?
    ensures t == VCUSHION <==> o.VCushion?
  {
    match o
    case StillBall(_, _) => STILL_BALL
    case RollingBall(_, _, _, _) => ROLLING_BALL
    case Hole(_) => HOLE
    case HCushion(_) => HCUSHION
    case VCushion(_) => VCUSHION
  }

  /** The slot array of a table: exactly MAX_OBJECTS slots, each NULL or holding one object. */
  type Slots = s: seq<Option<Object>> | |s| == MAX_OBJECTS witness seq(MAX_OBJECTS, i => None)

  /** The value held by a phylib_table: its time and its slots. */
  datatype TableValue = TableValue(time: real, objects: Slots)

  predicate IsRolling(slot: Option<Object>) {
    slot.Some? && slot.value.RollingBall?
  }

  predicate IsBall(slot: Option<Object>) {
    slot.Some? && (slot.value.StillBall? || slot.value.RollingBall?)
  }
}

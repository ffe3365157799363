/** Shared vocabulary of the G-code viewer worker (src/workers/gcview.worker.js):
    positions, emitted points, side-channel objects, mode commands, and the library
    routines (JavaScript built-ins and three.js) that the model keeps abstract. */
module GCode {

  datatype Option<T> = None | Some(value: T)

  datatype Vec2 = Vec2(x: real, y: real)
  datatype Vec3 = Vec3(x: real, y: real, z: real)

  /** Value of the A axis. A motion line with an A word adds `offsetG92.a`, a field the
      offset record does not have, so from then on the axis is NaN. */
  datatype AxisA = AValue(v: real) | NaN

  /** The g0 / g1 / g2 flags of a position record. At most one of them is ever set:
      G0 sets g0, G1 sets g1, an arc gets g2 inside addSegment, the start record none. */
  datatype Motion = Unmoved | Rapid | Feed | ArcMove

  /** The `g` number a point carries for a record with these flags. */
  function GNumber(m: Motion): int {
    match m
    case Rapid => 0
    case Feed => 1
    case ArcMove => 2
    case Unmoved => -1
  }

  /** `lastLine`: the position record of the last motion line. `t` starts as `false`
      in the source, which JavaScript arithmetic treats as 0. */
  datatype Position = Position(x: real, y: real, z: real, a: AxisA, e: real,
                               f: real, s: real, t: real, motion: Motion)
  {
    function Xyz(): Vec3 { Vec3(x, y, z) }
  }

  /** `offsetG92`; it has no `a` field. */
  datatype Offsets = Offsets(x: real, y: real, z: real, e: real)

  /** One entry of `linePoints`. */
  datatype LinePoint =
    | MovePoint(pos: Vec3, a: AxisA, g: int, timeMins: real)   // end of a G0/G1 move
    | ArcPoint(pos: Vec3, a: AxisA, timeMins: real)            // one of an arc's points; g is 2
    | FakePoint(pos: Vec3, a: AxisA, g: int)                   // marker of a line without motion
  {
    /** The `g` field of the pushed object. */
    function G(): int {
      match this
      case MovePoint(_, _, g, _) => g
      case ArcPoint(_, _, _) => 2
      case FakePoint(_, _, g) => g
    }
  }

  /** An entry of `extraObjects`: an M3..M8 marker, or the polyline of an arc. */
  datatype ExtraObject = Marker(pos: Vec3) | ArcLine(points: seq<Vec3>)

  /** What a mode word does when its handler runs. */
  datatype ModeCmd =
    | SetUnits(mm: bool)
    | SetRelative(relative: bool)
    | SetIjkRelative(ijkRelative: bool)
    | RecordEvent(key: string)
    | NoOp

  /** The arguments of `new THREE.ArcCurve(...)`. */
  datatype ArcCurve = ArcCurve(cx: real, cy: real, radius: real,
                               startAngle: real, endAngle: real, clockwise: bool)

  /** Routines the worker takes from JavaScript and three.js, kept uninterpreted:
      - normalise: the line-number strip, G0x collapse and spacing rewrites of one line;
      - stripInline: the removal of inline `(...)` comments (line 57);
      - stripTrailing: the removal of a trailing `;` or `(` comment (line 62);
      - parseFloat: number parsing of a token's value;
      - sqrt: Math.sqrt;
      - atanOfQuotient: Math.atan(n / d), IEEE division included;
      - curvePoint: THREE.ArcCurve.getPoint(t). */
  datatype Runtime = Runtime(
    normalise: string -> string,
    stripInline: string -> string,
    stripTrailing: string -> string,
    parseFloat: string -> real,
    sqrt: real -> real,
    atanOfQuotient: (real, real) -> real,
    curvePoint: (ArcCurve, real) -> Vec2)
}

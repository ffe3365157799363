/** The geometry of G2/G3 moves (gcview.worker.js:273-382 and 407-525): the centre of an
    R-form arc, the start and end angles handed to THREE.ArcCurve, the 21-point polyline
    that drawArc samples from it, and that polyline's length. Only the XY plane is modelled:
    `args.plane` is never set by the parser, so the G18 and G19 branches are unreachable. */
module ArcGeometry {
  import opened GCode

  /** Math.PI as a double. */
  const Pi: real := 3.141592653589793

  /** drawArc samples `ac.getPoints(20)`: 20 divisions, 21 points. */
  const Divisions: nat := 20

  function Sq(x: real): real { x * x }

  function SqDist(a: Vec3, b: Vec3): real {
    Sq(b.x - a.x) + Sq(b.y - a.y) + Sq(b.z - a.z)
  }

  /** Vector3.distanceTo. */
  function Distance(rt: Runtime, a: Vec3, b: Vec3): real {
    rt.sqrt(SqDist(a, b))
  }

  /** The root behaves like an exact square root at x. */
  predicate ExactRoot(rt: Runtime, x: real) {
    rt.sqrt(x) >= 0.0 && rt.sqrt(x) * rt.sqrt(x) == x
  }

  /** `n / q` for the chord q. A zero chord gives NaN in JavaScript; the model takes 0. */
  function DivChord(n: real, q: real): real {
    if q == 0.0 then 0.0 else n / q
  }

  function Midpoint(p1: Vec3, p2: Vec3): Vec3 {
    Vec3((p1.x + p2.x) / 2.0, (p1.y + p2.y) / 2.0, (p1.z + p2.z) / 2.0)
  }

  /** The chord length q of an R-form arc. */
  function Chord(rt: Runtime, p1: Vec3, p2: Vec3): real {
    rt.sqrt(SqDist(p1, p2))
  }

  /** r^2 - (q/2)^2: negative when the chord is longer than the diameter. */
  function Discriminant(rt: Runtime, p1: Vec3, p2: Vec3, r: real): real {
    r * r - Sq(Chord(rt, p1, p2) / 2.0)
  }

  /** `calc`: the square root of the discriminant, 0 where Math.sqrt would give NaN. */
  function Offset(rt: Runtime, p1: Vec3, p2: Vec3, r: real): real {
    var d := Discriminant(rt, p1, p2, r);
    if d < 0.0 then 0.0 else rt.sqrt(d)
  }

  /** pArc_1 (sign 1) and pArc_2 (sign -1) of the XY-plane branch. */
  function Candidate(rt: Runtime, p1: Vec3, p2: Vec3, r: real, sign: real): Vec3 {
    OffsetMidpoint(p1, p2, Chord(rt, p1, p2), Offset(rt, p1, p2, r), sign)
  }

  /** The chord's midpoint moved by sign * h along (y1 - y2, x2 - x1, z2 - z1) / q; over
      the reals `h * n / q` is `(h / q) * n`. */
  function OffsetMidpoint(p1: Vec3, p2: Vec3, q: real, h: real, sign: real): Vec3 {
    NormalOffset(p1, p2, sign * DivChord(h, q))
  }

  /** The midpoint moved t times along the chord's normal (y1 - y2, x2 - x1, z2 - z1). */
  function NormalOffset(p1: Vec3, p2: Vec3, t: real): Vec3 {
    var m := Midpoint(p1, p2);
    Vec3(m.x + t * (p1.y - p2.y), m.y + t * (p2.x - p1.x), m.z + t * (p2.z - p1.z))
  }

  /** The shoelace sum of the path p1 -> c -> p2 that orders the two candidates. */
  function Shoelace(p1: Vec3, p2: Vec3, c: Vec3): real {
    (p1.x - c.x) * (p1.y + c.y) + (c.x - p2.x) * (c.y + p2.y)
  }

  /** The (cw, ccw) pair: the candidate with the larger shoelace sum is taken as the
      clockwise centre, pArc_1 on a tie. */
  function OrderByTurn(p1: Vec3, p2: Vec3, c1: Vec3, c2: Vec3): (pair: (Vec3, Vec3))
    ensures Shoelace(p1, p2, pair.0) >= Shoelace(p1, p2, pair.1)
    ensures (pair.0 == c1 && pair.1 == c2) || (pair.0 == c2 && pair.1 == c1)
    ensures Shoelace(p1, p2, c1) == Shoelace(p1, p2, c2) ==> pair.0 == c1
  {
    if Shoelace(p1, p2, c1) >= Shoelace(p1, p2, c2) then (c1, c2) else (c2, c1)
  }

  /** A G2 with R >= 0 or a G3 with R < 0 takes the clockwise candidate. */
  predicate TakesCwCandidate(clockwise: bool, r: real) {
    (clockwise && r >= 0.0) || (!clockwise && r < 0.0)
  }

  /** The centre of an R-form arc from p1 to p2 (lines 407-509). */
  function RCentre(rt: Runtime, p1: Vec3, p2: Vec3, r: real, clockwise: bool): Vec3 {
    var pair := OrderByTurn(p1, p2, Candidate(rt, p1, p2, r, 1.0), Candidate(rt, p1, p2, r, -1.0));
    if TakesCwCandidate(clockwise, r) then pair.0 else pair.1
  }

  /** The angle drawArcFrom2PtsAndCenter gives point p on the circle around c: the
      arctangent of the slope of c - p, turned by pi when c - p points to +x. */
  function AngleOf(rt: Runtime, c: Vec3, p: Vec3): real {
    var dx := c.x - p.x;
    var dy := c.y - p.y;
    rt.atanOfQuotient(dy, dx) + (if dx >= 0.0 then Pi else 0.0)
  }

  /** Whether `Math.atan(dy / dx)` is a number: only 0 / 0 gives NaN, a non-zero dy over
      a zero dx gives an infinity, whose arctangent is a right angle. */
  predicate AngleDefined(c: Vec3, p: Vec3) {
    c.x != p.x || c.y != p.y
  }

  /** The ArcCurve of an arc from p1 to p2 around c: the radius is the distance from the
      centre to the start, and equal angles make a full turn. A NaN angle is equal to
      nothing under `===`, so a centre on either end in XY never makes a full turn. */
  function ArcCurveFor(rt: Runtime, p1: Vec3, p2: Vec3, c: Vec3, clockwise: bool): ArcCurve {
    var a1 := AngleOf(rt, c, p1);
    var a2 := AngleOf(rt, c, p2);
    var fullTurn := AngleDefined(c, p1) && AngleDefined(c, p2) && a1 == a2;
    ArcCurve(c.x, c.y, Distance(rt, c, p1), a1, if fullTurn then a2 + 2.0 * Pi else a2, clockwise)
  }

  /** Point i of drawArc's polyline: the curve at i/20 in XY, z interpolated linearly. */
  function ArcVertex(rt: Runtime, curve: ArcCurve, z1: real, z2: real, i: nat): Vec3 {
    var v := rt.curvePoint(curve, i as real / Divisions as real);
    Vec3(v.x, v.y, ((z2 - z1) / Divisions as real) * i as real + z1)
  }

  /** `userData.points` of the arc drawn by drawArc (lines 273-303). */
  function ArcPolyline(rt: Runtime, curve: ArcCurve, z1: real, z2: real): (pts: seq<Vec3>)
    ensures |pts| == Divisions + 1
  {
    seq(Divisions + 1, i requires 0 <= i <= Divisions => ArcVertex(rt, curve, z1, z2, i))
  }

  /** The summed lengths of consecutive segments of a polyline (the tad2 loop, lines 620-630). */
  function PolylineLength(rt: Runtime, pts: seq<Vec3>): real
    decreases |pts|
  {
    if |pts| < 2 then 0.0
    else PolylineLength(rt, pts[..|pts| - 1]) + Distance(rt, pts[|pts| - 2], pts[|pts| - 1])
  }

  // ---------------------------------------------------------------- properties

  /** Offsetting the midpoint of a planar chord by t times its normal lands on the circle
      of radius r through both ends when (t q)^2 + (q/2)^2 = r^2. */
  lemma NormalOffsetOnCircle(p1: Vec3, p2: Vec3, t: real, q: real, h: real, r: real)
    requires p1.z == p2.z
    requires q * q == SqDist(p1, p2)
    requires t * t * (q * q) == h * h
    requires h * h == r * r - (q * q) / 4.0
    ensures SqDist(NormalOffset(p1, p2, t), p1) == r * r && SqDist(NormalOffset(p1, p2, t), p2) == r * r
  {
    var dx := p2.x - p1.x;
    var dy := p2.y - p1.y;
    var c := NormalOffset(p1, p2, t);
    assert q * q == dx * dx + dy * dy;
    assert c.z == p1.z;
    assert p1.x - c.x == t * dy - dx / 2.0;
    assert p1.y - c.y == -dy / 2.0 - t * dx;
    assert p2.x - c.x == dx / 2.0 + t * dy;
    assert p2.y - c.y == dy / 2.0 - t * dx;
    assert Sq(t * dy - dx / 2.0) + Sq(-dy / 2.0 - t * dx) == (dx * dx + dy * dy) / 4.0 + t * t * (dx * dx + dy * dy);
    assert Sq(dx / 2.0 + t * dy) + Sq(dy / 2.0 - t * dx) == (dx * dx + dy * dy) / 4.0 + t * t * (dx * dx + dy * dy);
  }

  lemma SquareOfQuotient(h: real, q: real, sign: real)
    requires q != 0.0 && (sign == 1.0 || sign == -1.0)
    ensures var t := sign * DivChord(h, q); t * t * (q * q) == h * h
  {
    var t := sign * (h / q);
    assert t * q == sign * h;
    assert t * t * (q * q) == (t * q) * (t * q);
  }

  /** The offset midpoint lies on the circle of radius r through both ends of a planar
      chord of length q when h^2 + (q/2)^2 = r^2. */
  lemma OffsetMidpointOnCircle(p1: Vec3, p2: Vec3, q: real, h: real, sign: real, r: real)
    requires p1.z == p2.z && q != 0.0
    requires sign == 1.0 || sign == -1.0
    requires q * q == SqDist(p1, p2)
    requires h * h == r * r - (q * q) / 4.0
    ensures SqDist(OffsetMidpoint(p1, p2, q, h, sign), p1) == r * r
    ensures SqDist(OffsetMidpoint(p1, p2, q, h, sign), p2) == r * r
  {
    var t := sign * DivChord(h, q);
    SquareOfQuotient(h, q, sign);
    NormalOffsetOnCircle(p1, p2, t, q, h, r);
  }

  /** Both candidates lie on the circle of radius |R| through both ends when the move is
      planar, the chord is at most 2|R| and the roots are exact. */
  lemma CandidateOnCircle(rt: Runtime, p1: Vec3, p2: Vec3, r: real, sign: real)
    requires p1.z == p2.z && SqDist(p1, p2) > 0.0
    requires sign == 1.0 || sign == -1.0
    requires ExactRoot(rt, SqDist(p1, p2))
    requires Discriminant(rt, p1, p2, r) >= 0.0 && ExactRoot(rt, Discriminant(rt, p1, p2, r))
    ensures SqDist(Candidate(rt, p1, p2, r, sign), p1) == r * r
    ensures SqDist(Candidate(rt, p1, p2, r, sign), p2) == r * r
  {
    var q := Chord(rt, p1, p2);
    assert q * q == SqDist(p1, p2);
    assert q != 0.0;
    var h := Offset(rt, p1, p2, r);
    assert h * h == r * r - (q * q) / 4.0 by {
      assert Sq(q / 2.0) == (q * q) / 4.0;
    }
    OffsetMidpointOnCircle(p1, p2, q, h, sign, r);
  }

  /** The chosen R-form centre is at distance |R| from both ends of a planar move whose
      chord fits the circle. */
  lemma RCentreOnCircle(rt: Runtime, p1: Vec3, p2: Vec3, r: real, clockwise: bool)
    requires p1.z == p2.z && SqDist(p1, p2) > 0.0
    requires ExactRoot(rt, SqDist(p1, p2))
    requires Discriminant(rt, p1, p2, r) >= 0.0 && ExactRoot(rt, Discriminant(rt, p1, p2, r))
    ensures SqDist(RCentre(rt, p1, p2, r, clockwise), p1) == r * r
    ensures SqDist(RCentre(rt, p1, p2, r, clockwise), p2) == r * r
  {
    CandidateOnCircle(rt, p1, p2, r, 1.0);
    CandidateOnCircle(rt, p1, p2, r, -1.0);
  }

  /** With no offset, or no chord, both candidates are the chord's midpoint. */
  lemma OffsetMidpointDegenerate(p1: Vec3, p2: Vec3, q: real, h: real, sign: real)
    requires q == 0.0 || h == 0.0
    ensures OffsetMidpoint(p1, p2, q, h, sign) == Midpoint(p1, p2)
  {
    assert DivChord(h, q) == 0.0;
  }

  /** A chord longer than the diameter (the NaN case) puts the centre at the chord's
      midpoint, whatever the direction. */
  lemma ClampedCentreIsMidpoint(rt: Runtime, p1: Vec3, p2: Vec3, r: real, clockwise: bool)
    requires Discriminant(rt, p1, p2, r) < 0.0
    ensures RCentre(rt, p1, p2, r, clockwise) == Midpoint(p1, p2)
  {
    OffsetMidpointDegenerate(p1, p2, Chord(rt, p1, p2), 0.0, 1.0);
    OffsetMidpointDegenerate(p1, p2, Chord(rt, p1, p2), 0.0, -1.0);
  }

  /** G2 and G3 with the same R take the two different candidates; for R != 0, G2 with R
      and G3 with -R take the same one. */
  lemma RCentreDirections(rt: Runtime, p1: Vec3, p2: Vec3, r: real)
    ensures var c1 := Candidate(rt, p1, p2, r, 1.0);
            var c2 := Candidate(rt, p1, p2, r, -1.0);
            (RCentre(rt, p1, p2, r, true) == c1 && RCentre(rt, p1, p2, r, false) == c2)
            || (RCentre(rt, p1, p2, r, true) == c2 && RCentre(rt, p1, p2, r, false) == c1)
    ensures r != 0.0 ==> RCentre(rt, p1, p2, r, true) == RCentre(rt, p1, p2, -r, false)
  {
    assert (-r) * (-r) == r * r;
    assert Offset(rt, p1, p2, -r) == Offset(rt, p1, p2, r);
  }

  /** A move back to its own start (in XY) is drawn as a full circle, unless the centre
      sits on that point, where both angles are NaN. */
  lemma ClosedArcIsFullTurn(rt: Runtime, p1: Vec3, p2: Vec3, c: Vec3, clockwise: bool)
    requires p1.x == p2.x && p1.y == p2.y
    ensures var curve := ArcCurveFor(rt, p1, p2, c, clockwise);
            (curve.endAngle == curve.startAngle + 2.0 * Pi <==> AngleDefined(c, p1))
            && curve.radius == Distance(rt, c, p1)
            && curve.cx == c.x && curve.cy == c.y && curve.clockwise == clockwise
  {
    assert AngleOf(rt, c, p1) == AngleOf(rt, c, p2);
  }

  /** A centre on the start or the end in XY (an arc with neither I nor J, or I0 J0, puts
      it on the start) gives a NaN angle, so the curve ends at the end angle as computed,
      without the extra turn. */
  lemma CentreOnEndNoFullTurn(rt: Runtime, p1: Vec3, p2: Vec3, c: Vec3, clockwise: bool)
    requires !AngleDefined(c, p1) || !AngleDefined(c, p2)
    ensures ArcCurveFor(rt, p1, p2, c, clockwise).endAngle == AngleOf(rt, c, p2)
    ensures ArcCurveFor(rt, p1, p2, c, clockwise).startAngle == AngleOf(rt, c, p1)
  {
  }

  /** The polyline starts at z1 and ends at z2, and its z climbs (or falls) by the same
      step at each point; point i is the curve sampled at i/20. */
  lemma {:induction false} ArcPolylineShape(rt: Runtime, curve: ArcCurve, z1: real, z2: real)
    ensures var pts := ArcPolyline(rt, curve, z1, z2);
            pts[0].z == z1 && pts[Divisions].z == z2
            && (forall i :: 0 <= i < Divisions ==> pts[i + 1].z - pts[i].z == (z2 - z1) / 20.0)
            && (forall i :: 0 <= i <= Divisions ==>
                  Vec2(pts[i].x, pts[i].y) == rt.curvePoint(curve, i as real / 20.0))
  {
    var pts := ArcPolyline(rt, curve, z1, z2);
    assert pts[Divisions] == ArcVertex(rt, curve, z1, z2, 20);
    forall i | 0 <= i < Divisions
      ensures pts[i + 1].z - pts[i].z == (z2 - z1) / 20.0
    {
      assert pts[i] == ArcVertex(rt, curve, z1, z2, i);
      assert pts[i + 1] == ArcVertex(rt, curve, z1, z2, i + 1);
    }
  }

  /** With a non-negative root every polyline has a non-negative length, and extending it
      by one point adds the last segment. */
  lemma {:induction false} PolylineLengthNonNegative(rt: Runtime, pts: seq<Vec3>)
    requires forall x :: rt.sqrt(x) >= 0.0
    ensures PolylineLength(rt, pts) >= 0.0
    decreases |pts|
  {
    if |pts| >= 2 {
      PolylineLengthNonNegative(rt, pts[..|pts| - 1]);
      assert Distance(rt, pts[|pts| - 2], pts[|pts| - 1]) >= 0.0;
    }
  }
}

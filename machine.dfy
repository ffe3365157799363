/** The interpreter of src/workers/gcview.worker.js as functions over values: the state
    createObjectFromGCode closes over (`Scene`), what GCodeParser remembers between lines
    (`Memory`), the motion and mode handlers, one line of parseLine (`Step`), and parse
    over a whole program (`Run`, `Interpret`, `ProgressUpTo`). The imperative classes in
    module Interpreter are proved against these functions. */
module Machine {
  import opened GCode
  import opened Lexing
  import opened ArcGeometry

  // ---------------------------------------------------------------- state

  /** The variables of createObjectFromGCode that the handlers update. */
  datatype Scene = Scene(
    lastLine: Position,
    relative: bool,
    ijkRelative: bool,
    offsets: Offsets,
    isUnitsMm: bool,
    linePoints: seq<LinePoint>,
    extraObjects: map<string, seq<ExtraObject>>,
    totalDist: real,
    totalTime: real)

  /** What GCodeParser keeps from one line to the next: `lastArgs.cmd`, `lastFeedrate`,
      `lastsvalue` and `lasttool` (None for null / undefined). */
  datatype Memory = Memory(
    lastCmd: Option<string>,
    lastFeedrate: Option<real>,
    lastSValue: Option<real>,
    lastTool: Option<real>)

  datatype State = State(scene: Scene, memory: Memory)

  /** The parts of `args` a handler reads: the parameter words and the feedrate. */
  datatype Args = Args(words: map<char, real>, feedrate: Option<real>)

  /** The `data` object createObjectFromGCode returns. */
  datatype ViewData = ViewData(
    linePoints: seq<LinePoint>,
    extraObjects: map<string, seq<ExtraObject>>,
    inch: bool,
    totalDist: real,
    totalTime: real)

  /** The starting `lastLine` (lines 214-225). */
  const StartLine: Position := Position(0.0, 0.0, 0.0, AValue(0.0), 0.0, 0.0, 0.0, 0.0, Unmoved)

  const InitialScene: Scene := Scene(
    StartLine, false, true, Offsets(0.0, 0.0, 0.0, 0.0), true, [],
    map["G17" := [], "G18" := [], "G19" := []], 0.0, 0.0)

  const Initial: State := State(InitialScene, Memory(None, None, None, None))

  // ---------------------------------------------------------------- positions

  /** `absolute(v1, v2)` (lines 712-714). */
  function Absolute(relative: bool, last: real, v: real): real {
    if relative then last + v else v
  }

  /** `ijkabsolute(v1, v2)` (lines 717-719). */
  function IjkAbsolute(ijkRelative: bool, last: real, v: real): real {
    if ijkRelative then last + v else v
  }

  /** One coordinate of a motion target: the word made absolute plus the offset, or the
      last value when the word is absent. */
  function Axis(words: map<char, real>, key: char, relative: bool, last: real, offset: real): real {
    if key in words then Absolute(relative, last, words[key]) + offset else last
  }

  /** The `newLine` record of the G0, G1 and G2 handlers (lines 758-767, 781-790, 801-812).
      An A word adds the missing `offsetG92.a`, which makes the axis NaN. */
  function MoveTarget(sc: Scene, words: map<char, real>, motion: Motion): Position {
    var l := sc.lastLine;
    var o := sc.offsets;
    var rel := sc.relative;
    Position(
      Axis(words, 'x', rel, l.x, o.x),
      Axis(words, 'y', rel, l.y, o.y),
      Axis(words, 'z', rel, l.z, o.z),
      if 'a' in words then NaN else l.a,
      Axis(words, 'e', rel, l.e, o.e),
      Axis(words, 'f', rel, l.f, 0.0),
      Axis(words, 's', rel, l.s, 0.0),
      Axis(words, 't', rel, l.t, 0.0),
      motion)
  }

  // ---------------------------------------------------------------- segments

  /** The feedrate a time estimate divides by when a line has none (or none above 0):
      100 for a straight move or a whole arc, 1000 for one point of an arc. */
  const SegmentFallback: real := 100.0
  const ArcPointFallback: real := 1000.0

  /** The feedrate a time estimate divides by: the line's if positive, else the fallback;
      either way positive, so the division is defined. */
  function Fr(feedrate: Option<real>, fallback: real): (fr: real)
    requires fallback > 0.0
    ensures fr > 0.0
    ensures feedrate.Some? && feedrate.value > 0.0 ==> fr == feedrate.value
    ensures fr == fallback <==> feedrate.None? || feedrate.value <= 0.0 || feedrate.value == fallback
  {
    if feedrate.Some? && feedrate.value > 0.0 then feedrate.value else fallback
  }

  /** Minutes for a distance, with the 1.32 acceleration allowance: positive exactly when
      the distance is, 0 otherwise. */
  function TimeFor(dist: real, feedrate: Option<real>, fallback: real): (minutes: real)
    requires fallback > 0.0
    ensures minutes >= 0.0
    ensures minutes > 0.0 <==> dist > 0.0
    ensures dist > 0.0 ==> minutes * Fr(feedrate, fallback) == 1.32 * dist
  {
    if dist > 0.0 then dist / Fr(feedrate, fallback) * 1.32 else 0.0
  }

  /** `if (dist > 0) totalDist += dist`. */
  function AddDist(total: real, dist: real): real {
    if dist > 0.0 then total + dist else total
  }

  /** addFakeSegment (lines 721-748): a point at the last position, no time. */
  function AddFake(sc: Scene): Scene {
    var l := sc.lastLine;
    sc.(linePoints := sc.linePoints + [FakePoint(l.Xyz(), l.a, GNumber(l.motion))])
  }

  /** The end of addSegment shared by both kinds of move (lines 649-678): the distance is
      added when positive, and its time at the feedrate (or 100) is added to the total. */
  function AddMoveTotals(sc: Scene, dist: real, feedrate: Option<real>): Scene {
    sc.(totalDist := AddDist(sc.totalDist, dist),
        totalTime := sc.totalTime + TimeFor(dist, feedrate, SegmentFallback))
  }

  /** addSegment for a straight move (lines 642-704 with p2.arc unset): the totals for the
      straight distance, and one point carrying that move's time. */
  function StraightSegment(rt: Runtime, sc: Scene, p2: Position, feedrate: Option<real>): Scene {
    var dist := Distance(rt, sc.lastLine.Xyz(), p2.Xyz());
    var moved := AddMoveTotals(sc, dist, feedrate);
    moved.(linePoints := sc.linePoints + [MovePoint(p2.Xyz(), p2.a, GNumber(p2.motion), TimeFor(dist, feedrate, SegmentFallback))])
  }

  /** The G0 handler (rapid) and the G1 handler, which G73 also runs. */
  function Straight(rt: Runtime, sc: Scene, args: Args, rapid: bool): Scene {
    var p2 := MoveTarget(sc, args.words, if rapid then Rapid else Feed);
    StraightSegment(rt, sc, p2, args.feedrate).(lastLine := p2)
  }

  /** The IJK centre (lines 519-525, 810-812): each word made absolute against the start, the start's
      own coordinate where a word is missing. */
  function IjkCentre(sc: Scene, words: map<char, real>): Vec3 {
    var l := sc.lastLine;
    Vec3(if 'i' in words then IjkAbsolute(sc.ijkRelative, l.x, words['i']) else l.x,
         if 'j' in words then IjkAbsolute(sc.ijkRelative, l.y, words['j']) else l.y,
         if 'k' in words then IjkAbsolute(sc.ijkRelative, l.z, words['k']) else l.z)
  }

  /** An R word selects the R-form centre, otherwise the IJK centre is used. */
  function ArcCentre(rt: Runtime, sc: Scene, p2: Position, words: map<char, real>, clockwise: bool): Vec3 {
    if 'r' in words then RCentre(rt, sc.lastLine.Xyz(), p2.Xyz(), words['r'], clockwise)
    else IjkCentre(sc, words)
  }

  /** The centre as the file has it at line 411: `radius` is assigned there but never
      declared in addSegment, and the worker is an ES module (import at line 6), whose code is strict,
      so an R word raises a ReferenceError and parseLine stops before any centre exists.
      None stands for that exception. Everything else in this model uses ArcCentre, which
      treats `radius` as the local the R-form branch evidently means it to be. */
  function ArcCentreAsWritten(rt: Runtime, sc: Scene, p2: Position, words: map<char, real>, clockwise: bool): (c: Option<Vec3>)
    ensures c.None? <==> 'r' in words
    ensures c.Some? ==> c.value == ArcCentre(rt, sc, p2, words, clockwise)
  {
    if 'r' in words then None else Some(IjkCentre(sc, words))
  }

  /** The linePoints entries of an arc: one per polyline point, all with the same time. */
  function ArcPoints(pts: seq<Vec3>, a: AxisA, time: real): (ps: seq<LinePoint>)
    ensures |ps| == |pts|
  {
    seq(|pts|, i requires 0 <= i < |pts| => ArcPoint(pts[i], a, time))
  }

  lemma ArcPointsSnoc(pts: seq<Vec3>, i: nat, a: AxisA, time: real)
    requires i < |pts|
    ensures ArcPoints(pts[..i + 1], a, time) == ArcPoints(pts[..i], a, time) + [ArcPoint(pts[i], a, time)]
  {
    assert ArcPoints(pts[..i + 1], a, time)[..i] == ArcPoints(pts[..i], a, time);
  }

  /** `extraObjects[key].push(obj)`, creating the list when missing. */
  function AppendExtra(extra: map<string, seq<ExtraObject>>, key: string, obj: ExtraObject): map<string, seq<ExtraObject>> {
    extra[key := (if key in extra then extra[key] else []) + [obj]]
  }

  /** The curve drawArcFrom2PtsAndCenter passes to drawArc for a move from the last
      position to p2 (lines 384-529, 305-382). */
  function ArcCurveOf(rt: Runtime, sc: Scene, p2: Position, words: map<char, real>, clockwise: bool): ArcCurve {
    ArcCurveFor(rt, sc.lastLine.Xyz(), p2.Xyz(), ArcCentre(rt, sc, p2, words, clockwise), clockwise)
  }

  /** The loop of lines 566-607: a point per polyline point, each with the time of
      subDist at the feedrate or 1000. */
  function WithArcPoints(sc: Scene, pts: seq<Vec3>, a: AxisA, subDist: real, feedrate: Option<real>): Scene {
    var t := TimeFor(subDist, feedrate, ArcPointFallback);
    sc.(linePoints := sc.linePoints + ArcPoints(pts, a, t),
        totalTime := sc.totalTime + (|pts| as real) * t)
  }

  /** addSegment for an arc (lines 384-678 with p2.arc set): the polyline goes to
      extraObjects.G17, each of its points gets the time of chord/21 at the feedrate or
      1000, and the polyline's length is added once more at the feedrate or 100. */
  function ArcSegment(rt: Runtime, sc: Scene, p2: Position, words: map<char, real>,
                      feedrate: Option<real>, clockwise: bool): Scene {
    var p1 := sc.lastLine.Xyz();
    var pts := ArcPolyline(rt, ArcCurveOf(rt, sc, p2, words, clockwise), p1.z, p2.z);
    var drawn := sc.(extraObjects := AppendExtra(sc.extraObjects, "G17", ArcLine(pts)));
    var subDist := Distance(rt, p1, p2.Xyz()) / (|pts| as real);
    AddMoveTotals(WithArcPoints(drawn, pts, p2.a, subDist, feedrate), PolylineLength(rt, pts), feedrate)
  }

  /** The G2 handler (clockwise) and the G3 handler, which runs G2 with clockwise false. */
  function Arc(rt: Runtime, sc: Scene, args: Args, clockwise: bool): Scene {
    var p2 := MoveTarget(sc, args.words, ArcMove);
    ArcSegment(rt, sc, p2, args.words, args.feedrate, clockwise).(lastLine := p2)
  }

  /** The G92 offset of one axis (lines 856-859): 0 when the word is absent. */
  function G92Offset(words: map<char, real>, key: char, current: real): real {
    if key in words then (if words[key] == 0.0 then current else current - words[key]) else 0.0
  }

  /** The G92 handler (lines 845-870): new offsets, the position kept, one fake point. */
  function SetPosition(sc: Scene, words: map<char, real>): Scene {
    var l := sc.lastLine;
    AddFake(sc.(offsets := Offsets(G92Offset(words, 'x', l.x), G92Offset(words, 'y', l.y),
                                   G92Offset(words, 'z', l.z), G92Offset(words, 'e', l.e))))
  }

  /** `this.handlers[cmd] || this.handlers['default']`, then the handler's effect. M30 and
      the default handler both add a fake segment. */
  function Dispatch(rt: Runtime, sc: Scene, cmd: Option<string>, args: Args): Scene {
    if cmd == Some("G0") then Straight(rt, sc, args, true)
    else if cmd == Some("G1") || cmd == Some("G73") then Straight(rt, sc, args, false)
    else if cmd == Some("G2") then Arc(rt, sc, args, true)
    else if cmd == Some("G3") then Arc(rt, sc, args, false)
    else if cmd == Some("G92") then SetPosition(sc, args.words)
    else AddFake(sc)
  }

  // ---------------------------------------------------------------- one line

  /** A mode handler's effect (lines 883-1023). */
  function ApplyMode(sc: Scene, m: ModeCmd): Scene {
    match m
    case SetUnits(mm) => sc.(isUnitsMm := mm)
    case SetRelative(rel) => sc.(relative := rel)
    case SetIjkRelative(ijk) => sc.(ijkRelative := ijk)
    case RecordEvent(key) => sc.(extraObjects := AppendExtra(sc.extraObjects, key, Marker(sc.lastLine.Xyz())))
    case NoOp => sc
  }

  /** The token loop of lines 68-75: mode words run at once, in order; every other token is
      kept for the command. */
  function ModeSplit(sc: Scene, tokens: seq<string>): (Scene, seq<string>)
    decreases |tokens|
  {
    if tokens == [] then (sc, [])
    else
      var (sc1, pending) := ModeSplit(sc, tokens[..|tokens| - 1]);
      var t := tokens[|tokens| - 1];
      match ModeOf(Upper(t))
      case Some(m) => (ApplyMode(sc1, m), pending)
      case None => (sc1, pending + [t])
  }

  /** Lines 78-88: a leading G/M/T/S word is the command and the rest are parameters;
      otherwise the last command is reused and every token is a parameter. */
  function ResolveCommand(lastCmd: Option<string>, tokens: seq<string>): (Option<string>, seq<string>)
    requires tokens != []
  {
    var first := Upper(tokens[0]);
    if IsCommandWord(first) then (Some(first), tokens[1..]) else (lastCmd, tokens)
  }

  /** The command part of a line (lines 77-159), on the tokens the mode loop left. */
  function Command(rt: Runtime, sc: Scene, m: Memory, code: string, pending: seq<string>): State
    requires pending != []
  {
    var (cmd, params) := ResolveCommand(m.lastCmd, pending);
    var feed := LastSeen(ScanWord(code, 'F'), m.lastFeedrate, rt.parseFloat);
    var mem := Memory(cmd, feed,
                      LastSeen(ScanWord(code, 'S'), m.lastSValue, rt.parseFloat),
                      LastSeen(ScanWord(code, 'T'), m.lastTool, rt.parseFloat));
    State(Dispatch(rt, sc, cmd, Args(WordsOf(params, rt.parseFloat), feed)), mem)
  }

  /** parseLine (lines 31-178) on one raw line. A comment, or a line that is empty once its
      inline comments are gone, adds a fake segment; a line of mode words only adds nothing. */
  function Step(rt: Runtime, st: State, line: string): State {
    var text := rt.normalise(line);
    if IsCommentText(text) then st.(scene := AddFake(st.scene))
    else
      var inline := rt.stripInline(text);
      if inline == [] then st.(scene := AddFake(st.scene))
      else
        var code := rt.stripTrailing(inline);
        var (sc1, pending) := ModeSplit(st.scene, SplitWs(code));
        if pending == [] then st.(scene := sc1)
        else Command(rt, sc1, st.memory, code, pending)
  }

  // ---------------------------------------------------------------- a program

  /** The parse loop (lines 180-203) over the lines in order; no handler returns false, so
      it never stops early. */
  function Run(rt: Runtime, st: State, lines: seq<string>): State
    decreases |lines|
  {
    if lines == [] then st else Step(rt, Run(rt, st, lines[..|lines| - 1]), lines[|lines| - 1])
  }

  /** Index of the first line feed of s, or |s|. */
  function FirstNewline(s: string): (k: nat)
    ensures k <= |s|
  {
    if s == [] || s[0] == '\n' then 0 else 1 + FirstNewline(s[1..])
  }

  /** A piece before a line feed loses one carriage return at its end. */
  function DropCr(s: string): string {
    if |s| > 0 && s[|s| - 1] == '\r' then s[..|s| - 1] else s
  }

  /** `gcode.split(/\r{0,1}\n/)` (line 185). */
  function SplitLines(s: string): (lines: seq<string>)
    ensures |lines| >= 1
    decreases |s|
  {
    var k := FirstNewline(s);
    if k == |s| then [s] else [DropCr(s[..k])] + SplitLines(s[k + 1..])
  }

  function ResultOf(sc: Scene): ViewData {
    ViewData(sc.linePoints, sc.extraObjects, !sc.isUnitsMm, sc.totalDist, sc.totalTime)
  }

  /** createObjectFromGCode (lines 211-1042). */
  function Interpret(rt: Runtime, gcode: string): ViewData {
    ResultOf(Run(rt, Initial, SplitLines(gcode)).scene)
  }

  // ---------------------------------------------------------------- progress

  /** `((i / n) * 100).toFixed(0)` as a number: 100 i / n rounded half up. */
  function ProgressValue(i: nat, n: nat): int
    requires n > 0
  {
    (200 * i + n) / (2 * n)
  }

  /** The progress messages posted before line `count` of n: one every ten lines. */
  function ProgressUpTo(count: nat, n: nat): seq<int>
    requires n > 0
  {
    if count == 0 then []
    else ProgressUpTo(count - 1, n) + (if (count - 1) % 10 == 0 then [ProgressValue(count - 1, n)] else [])
  }
}

/** The interpreter as the program runs it: the variables createObjectFromGCode closes over
    are the fields of a `Toolpath`, which its handlers update in place, and `GCodeParser`
    keeps the last command, feedrate, S value and tool between lines. Each method is proved
    to leave exactly the state the functions of module Machine describe, so the properties
    of module MachineProperties hold of the objects. */
module Interpreter {
  import opened GCode
  import opened Lexing
  import opened ArcGeometry
  import opened Machine

  /** The parameter loop of lines 103-112: `args[key] = parseFloat(rest)` for each
      non-empty token, a later token overwriting an earlier one's key. */
  method ParamWords(params: seq<string>, parse: string -> real) returns (words: map<char, real>)
    ensures words == WordsOf(params, parse)
  {
    words := map[];
    var j := 0;
    while j < |params|
      invariant 0 <= j <= |params|
      invariant words == WordsOf(params[..j], parse)
    {
      assert params[..j + 1][..j] == params[..j];
      var token := params[j];
      if token != [] {
        words := words[LowerChar(token[0]) := parse(token[1..])];
      }
      j := j + 1;
    }
    assert params[..|params|] == params;
  }

  /** The length of a polyline, summed segment by segment (the tad2 loop, lines 620-630). */
  method ArcLength(rt: Runtime, pts: seq<Vec3>) returns (len: real)
    ensures len == PolylineLength(rt, pts)
  {
    len := 0.0;
    if |pts| < 2 {
      return;
    }
    var i := 0;
    while i < |pts| - 1
      invariant 0 <= i <= |pts| - 1
      invariant len == PolylineLength(rt, pts[..i + 1])
    {
      assert pts[..i + 2][..i + 1] == pts[..i + 1];
      len := len + Distance(rt, pts[i], pts[i + 1]);
      i := i + 1;
    }
    assert pts[..|pts|] == pts;
  }

  /** Running one more line of a program is one more Step. */
  lemma RunPrefix(rt: Runtime, st: State, lines: seq<string>, i: nat)
    requires i < |lines|
    ensures Run(rt, st, lines[..i + 1]) == Step(rt, Run(rt, st, lines[..i]), lines[i])
  {
    assert lines[..i + 1][..i] == lines[..i];
  }

  /** One more token of the mode loop: a mode word runs its handler, any other token is
      kept. */
  lemma ModeSplitStep(sc: Scene, tokens: seq<string>, i: nat)
    requires i < |tokens|
    ensures var (sc0, pending0) := ModeSplit(sc, tokens[..i]);
            var m := ModeOf(Upper(tokens[i]));
            ModeSplit(sc, tokens[..i + 1])
            == if m.Some? then (ApplyMode(sc0, m.value), pending0) else (sc0, pending0 + [tokens[i]])
  {
    assert tokens[..i + 1][..i] == tokens[..i];
  }

  /** Line i posts a progress value exactly when i is a multiple of 10. */
  lemma ProgressNext(i: nat, n: nat)
    requires i < n
    ensures ProgressUpTo(i + 1, n)
            == ProgressUpTo(i, n) + (if i % 10 == 0 then [ProgressValue(i, n)] else [])
  {
  }

  /** lastLine, relative, ijkrelative, offsetG92, isUnitsMm, linePoints, extraObjects,
      totalDist and totalTime of createObjectFromGCode (lines 214-271, 716). */
  class Toolpath {
    var lastLine: Position
    var relative: bool
    var ijkRelative: bool
    var offsets: Offsets
    var isUnitsMm: bool
    var linePoints: seq<LinePoint>
    var extraObjects: map<string, seq<ExtraObject>>
    var totalDist: real
    var totalTime: real

    function Snapshot(): Scene
      reads this
    {
      Scene(lastLine, relative, ijkRelative, offsets, isUnitsMm, linePoints, extraObjects,
            totalDist, totalTime)
    }

    constructor ()
      ensures Snapshot() == InitialScene
    {
      lastLine := StartLine;
      relative := false;
      ijkRelative := true;
      offsets := Offsets(0.0, 0.0, 0.0, 0.0);
      isUnitsMm := true;
      linePoints := [];
      extraObjects := map["G17" := [], "G18" := [], "G19" := []];
      totalDist := 0.0;
      totalTime := 0.0;
    }

    /** addFakeSegment (lines 721-748). */
    method AddFakeSegment()
      modifies this
      ensures Snapshot() == AddFake(old(Snapshot()))
    {
      linePoints := linePoints + [FakePoint(lastLine.Xyz(), lastLine.a, GNumber(lastLine.motion))];
    }

    /** The end of addSegment (lines 649-678). */
    method AddTotals(dist: real, feedrate: Option<real>) returns (timeMinutes: real)
      modifies this
      ensures timeMinutes == TimeFor(dist, feedrate, SegmentFallback)
      ensures Snapshot() == AddMoveTotals(old(Snapshot()), dist, feedrate)
    {
      if dist > 0.0 {
        totalDist := totalDist + dist;
      }
      timeMinutes := 0.0;
      if dist > 0.0 {
        var fr := if feedrate.Some? && feedrate.value > 0.0 then feedrate.value else SegmentFallback;
        timeMinutes := dist / fr * 1.32;
      }
      totalTime := totalTime + timeMinutes;
    }

    /** addSegment for a straight move (lines 642-704). */
    method AddStraightSegment(rt: Runtime, p2: Position, feedrate: Option<real>)
      modifies this
      ensures Snapshot() == StraightSegment(rt, old(Snapshot()), p2, feedrate)
    {
      var dist := Distance(rt, lastLine.Xyz(), p2.Xyz());
      var timeMinutes := AddTotals(dist, feedrate);
      linePoints := linePoints + [MovePoint(p2.Xyz(), p2.a, GNumber(p2.motion), timeMinutes)];
    }

    /** drawArc (lines 273-303): 21 points along the curve with z interpolated, pushed onto
        extraObjects.G17 as one polyline. */
    method DrawArc(rt: Runtime, curve: ArcCurve, z1: real, z2: real) returns (pts: seq<Vec3>)
      modifies this
      ensures pts == ArcPolyline(rt, curve, z1, z2)
      ensures Snapshot() == old(Snapshot()).(extraObjects := AppendExtra(old(extraObjects), "G17", ArcLine(pts)))
    {
      pts := [];
      var i := 0;
      while i <= Divisions
        invariant 0 <= i <= Divisions + 1 && |pts| == i
        invariant forall k :: 0 <= k < i ==> pts[k] == ArcVertex(rt, curve, z1, z2, k)
      {
        var v := rt.curvePoint(curve, i as real / Divisions as real);
        var z := ((z2 - z1) / Divisions as real) * i as real + z1;
        pts := pts + [Vec3(v.x, v.y, z)];
        i := i + 1;
      }
      extraObjects := AppendExtra(extraObjects, "G17", ArcLine(pts));
    }

    /** The loop of lines 566-607: one point per polyline point, each with the time of
        subDist at the feedrate (1000 when there is none). */
    method AddArcPoints(pts: seq<Vec3>, a: AxisA, subDist: real, feedrate: Option<real>)
      modifies this
      ensures Snapshot() == WithArcPoints(old(Snapshot()), pts, a, subDist, feedrate)
    {
      var t := TimeFor(subDist, feedrate, ArcPointFallback);
      var i := 0;
      while i < |pts|
        invariant 0 <= i <= |pts|
        invariant linePoints == old(linePoints) + ArcPoints(pts[..i], a, t)
        invariant totalTime == old(totalTime) + (i as real) * t
        invariant lastLine == old(lastLine) && relative == old(relative) && ijkRelative == old(ijkRelative)
        invariant offsets == old(offsets) && isUnitsMm == old(isUnitsMm)
        invariant extraObjects == old(extraObjects) && totalDist == old(totalDist)
      {
        var timeMinutes := TimeFor(subDist, feedrate, ArcPointFallback);
        totalTime := totalTime + timeMinutes;
        ArcPointsSnoc(pts, i, a, t);
        linePoints := linePoints + [ArcPoint(pts[i], a, timeMinutes)];
        i := i + 1;
      }
      assert pts[..|pts|] == pts;
    }

    /** addSegment for an arc (lines 384-678): the centre, the drawn polyline, one point per
        polyline point with the chord's share of time, then the polyline's length. */
    method AddArcSegment(rt: Runtime, p2: Position, words: map<char, real>, feedrate: Option<real>,
                         clockwise: bool)
      modifies this
      ensures Snapshot() == ArcSegment(rt, old(Snapshot()), p2, words, feedrate, clockwise)
    {
      var p1 := lastLine.Xyz();
      var curve := ArcCurveOf(rt, Snapshot(), p2, words, clockwise);
      var pts := DrawArc(rt, curve, p1.z, p2.z);
      var subDist := Distance(rt, p1, p2.Xyz()) / (|pts| as real);
      AddArcPoints(pts, p2.a, subDist, feedrate);
      var dist := ArcLength(rt, pts);
      var _ := AddTotals(dist, feedrate);
    }

    /** The G0 handler (rapid, lines 755-772) and the G1 handler (lines 773-795), which G73
        also runs. */
    method MoveStraight(rt: Runtime, args: Args, rapid: bool)
      modifies this
      ensures Snapshot() == Straight(rt, old(Snapshot()), args, rapid)
    {
      var newLine := MoveTarget(Snapshot(), args.words, if rapid then Rapid else Feed);
      AddStraightSegment(rt, newLine, args.feedrate);
      lastLine := newLine;
    }

    /** The G2 handler (lines 796-829), and G3 as G2 with clockwise false. */
    method MoveArc(rt: Runtime, args: Args, clockwise: bool)
      modifies this
      ensures Snapshot() == Arc(rt, old(Snapshot()), args, clockwise)
    {
      var newLine := MoveTarget(Snapshot(), args.words, ArcMove);
      AddArcSegment(rt, newLine, args.words, args.feedrate, clockwise);
      lastLine := newLine;
    }

    /** The G92 handler (lines 845-870). */
    method SetG92(args: Args)
      modifies this
      ensures Snapshot() == SetPosition(old(Snapshot()), args.words)
    {
      var l := lastLine;
      offsets := Offsets(G92Offset(args.words, 'x', l.x), G92Offset(args.words, 'y', l.y),
                         G92Offset(args.words, 'z', l.z), G92Offset(args.words, 'e', l.e));
      AddFakeSegment();
    }

    /** `this.handlers[cmd] || this.handlers['default']`, called with args. */
    method Handle(rt: Runtime, cmd: Option<string>, args: Args)
      modifies this
      ensures Snapshot() == Dispatch(rt, old(Snapshot()), cmd, args)
    {
      if cmd == Some("G0") {
        MoveStraight(rt, args, true);
      } else if cmd == Some("G1") || cmd == Some("G73") {
        MoveStraight(rt, args, false);
      } else if cmd == Some("G2") {
        MoveArc(rt, args, true);
      } else if cmd == Some("G3") {
        MoveArc(rt, args, false);
      } else if cmd == Some("G92") {
        SetG92(args);
      } else {
        AddFakeSegment();
      }
    }

    /** A mode handler (lines 883-1023). */
    method RunMode(m: ModeCmd)
      modifies this
      ensures Snapshot() == ApplyMode(old(Snapshot()), m)
    {
      match m
      case SetUnits(mm) => isUnitsMm := mm;
      case SetRelative(rel) => relative := rel;
      case SetIjkRelative(ijk) => ijkRelative := ijk;
      case RecordEvent(key) => extraObjects := AppendExtra(extraObjects, key, Marker(lastLine.Xyz()));
      case NoOp =>
    }
  }

  /** GCodeParser (lines 21-204): what it remembers between lines, the toolpath its
      handlers update, and the library routines it calls. */
  class GCodeParser {
    var lastCmd: Option<string>
    var lastFeedrate: Option<real>
    var lastSValue: Option<real>
    var lastTool: Option<real>
    const toolpath: Toolpath
    const rt: Runtime

    function Snapshot(): State
      reads this, toolpath
    {
      State(toolpath.Snapshot(), Memory(lastCmd, lastFeedrate, lastSValue, lastTool))
    }

    constructor (rt: Runtime, toolpath: Toolpath)
      ensures this.rt == rt && this.toolpath == toolpath
      ensures Snapshot() == State(toolpath.Snapshot(), Memory(None, None, None, None))
    {
      this.rt := rt;
      this.toolpath := toolpath;
      lastCmd := None;
      lastFeedrate := None;
      lastSValue := None;
      lastTool := None;
    }

    /** The token loop of lines 68-75: each mode word's handler runs at once, every other
        token is kept, in order. */
    method RunModeWords(tokens: seq<string>) returns (pending: seq<string>)
      modifies toolpath
      ensures (toolpath.Snapshot(), pending) == ModeSplit(old(toolpath.Snapshot()), tokens)
    {
      pending := [];
      var i := 0;
      while i < |tokens|
        invariant 0 <= i <= |tokens|
        invariant (toolpath.Snapshot(), pending) == ModeSplit(old(toolpath.Snapshot()), tokens[..i])
      {
        ModeSplitStep(old(toolpath.Snapshot()), tokens, i);
        var m := ModeOf(Upper(tokens[i]));
        if m.Some? {
          toolpath.RunMode(m.value);
        } else {
          pending := pending + [tokens[i]];
        }
        i := i + 1;
      }
      assert tokens[..|tokens|] == tokens;
    }

    /** parseLine (lines 31-178). */
    method ParseLine(line: string)
      modifies this, toolpath
      ensures Snapshot() == Step(rt, old(Snapshot()), line)
    {
      var text := rt.normalise(line);
      if IsCommentText(text) {
        toolpath.AddFakeSegment();
        return;
      }
      var inline := rt.stripInline(text);
      if inline == [] {
        toolpath.AddFakeSegment();
        return;
      }
      var code := rt.stripTrailing(inline);
      var tokens := SplitWs(code);
      var pending := RunModeWords(tokens);
      if pending == [] {
        return;
      }
      var cmd, params := lastCmd, pending;
      var first := Upper(pending[0]);
      if IsCommandWord(first) {
        cmd, params := Some(first), pending[1..];
      }
      var words := ParamWords(params, rt.parseFloat);
      lastCmd := cmd;
      var feedrate := LastSeen(ScanWord(code, 'F'), lastFeedrate, rt.parseFloat);
      lastFeedrate := feedrate;
      lastSValue := LastSeen(ScanWord(code, 'S'), lastSValue, rt.parseFloat);
      lastTool := LastSeen(ScanWord(code, 'T'), lastTool, rt.parseFloat);
      toolpath.Handle(rt, cmd, Args(words, feedrate));
    }

    /** `parseLine(lines[i], i)`: after the first i lines, the first i + 1. */
    method ParseLineOf(lines: seq<string>, i: nat, ghost start: State)
      requires i < |lines| && Snapshot() == Run(rt, start, lines[..i])
      modifies this, toolpath
      ensures Snapshot() == Run(rt, start, lines[..i + 1])
    {
      RunPrefix(rt, start, lines, i);
      ParseLine(lines[i]);
    }

    /** parse (lines 180-203): every line in order, a progress value before every tenth. */
    method Parse(gcode: string) returns (progress: seq<int>)
      modifies this, toolpath
      ensures Snapshot() == Run(rt, old(Snapshot()), SplitLines(gcode))
      ensures progress == ProgressUpTo(|SplitLines(gcode)|, |SplitLines(gcode)|)
    {
      var lines := SplitLines(gcode);
      progress := [];
      var i := 0;
      while i < |lines|
        invariant 0 <= i <= |lines|
        invariant Snapshot() == Run(rt, old(Snapshot()), lines[..i])
        invariant progress == ProgressUpTo(i, |lines|)
      {
        ProgressNext(i, |lines|);
        if i % 10 == 0 {
          progress := progress + [ProgressValue(i, |lines|)];
        }
        ParseLineOf(lines, i, old(Snapshot()));
        i := i + 1;
      }
      assert lines[..|lines|] == lines;
    }
  }

  /** createObjectFromGCode (lines 211-1042): a fresh toolpath and parser, every line
      parsed, the result assembled with `inch` set when the units ended up inches. The
      progress values are what the worker posts. */
  method CreateObjectFromGCode(rt: Runtime, gcode: string) returns (data: ViewData, progress: seq<int>)
    ensures data == Interpret(rt, gcode)
    ensures progress == ProgressUpTo(|SplitLines(gcode)|, |SplitLines(gcode)|)
  {
    var toolpath := new Toolpath();
    var parser := new GCodeParser(rt, toolpath);
    progress := parser.Parse(gcode);
    data := ViewData(toolpath.linePoints, toolpath.extraObjects, !toolpath.isUnitsMm,
                     toolpath.totalDist, toolpath.totalTime);
  }
}

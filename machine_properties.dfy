/** What the interpreter of module Machine guarantees: how positions and offsets evolve,
    how many points each line adds, what the mode words leave behind, the time and
    distance totals, the planes, the progress messages and the line split. */
module MachineProperties {
  import opened GCode
  import opened Lexing
  import opened ArcGeometry
  import opened Machine

  // ---------------------------------------------------------------- positions and offsets

  /** The A axis of a target is NaN exactly when the line has an A word or it already was:
      once NaN, it stays NaN. */
  lemma ANaNSticks(sc: Scene, words: map<char, real>, m: Motion)
    ensures MoveTarget(sc, words, m).a == NaN <==> ('a' in words || sc.lastLine.a == NaN)
    ensures 'a' !in words ==> MoveTarget(sc, words, m).a == sc.lastLine.a
  {
  }

  /** The distance, IJK and units modes of sc are those of sc1. */
  predicate SameModes(sc: Scene, sc1: Scene) {
    sc1.relative == sc.relative && sc1.ijkRelative == sc.ijkRelative && sc1.isUnitsMm == sc.isUnitsMm
  }

  /** G92 moves nothing: the position is kept, one fake point is added there, a named axis
      gets the offset `position - value` (the zero branch agrees), an unnamed one gets 0. */
  lemma SetPositionKeepsPosition(sc: Scene, words: map<char, real>)
    ensures var sc1 := SetPosition(sc, words);
            sc1.lastLine == sc.lastLine
            && sc1.linePoints == sc.linePoints
                 + [FakePoint(sc.lastLine.Xyz(), sc.lastLine.a, GNumber(sc.lastLine.motion))]
            && sc1.totalDist == sc.totalDist && sc1.totalTime == sc.totalTime
            && SameModes(sc, sc1) && sc1.extraObjects == sc.extraObjects
            && sc1.offsets.x == (if 'x' in words then sc.lastLine.x - words['x'] else 0.0)
            && sc1.offsets.y == (if 'y' in words then sc.lastLine.y - words['y'] else 0.0)
            && sc1.offsets.z == (if 'z' in words then sc.lastLine.z - words['z'] else 0.0)
            && sc1.offsets.e == (if 'e' in words then sc.lastLine.e - words['e'] else 0.0)
  {
  }

  /** After `G92 X<v>` at x0, an absolute move to X<w> lands at w + x0 - v: the machine
      treats the current position as v. */
  lemma G92Rebases(rt: Runtime, sc: Scene, g92: map<char, real>, args: Args, rapid: bool)
    requires !sc.relative && 'x' in g92 && 'x' in args.words
    ensures Straight(rt, SetPosition(sc, g92), args, rapid).lastLine.x
            == args.words['x'] + sc.lastLine.x - g92['x']
  {
    SetPositionKeepsPosition(sc, g92);
  }

  /** `G1 X5`, `G92 X0`, `G1 X5` from the origin in absolute mode ends at X 10. */
  lemma G92Example(rt: Runtime, sc: Scene)
    requires sc.lastLine.x == 0.0 && !sc.relative && sc.offsets.x == 0.0
    ensures var first := Straight(rt, sc, Args(map['x' := 5.0], None), false);
            var rebased := SetPosition(first, map['x' := 0.0]);
            Straight(rt, rebased, Args(map['x' := 5.0], None), false).lastLine.x == 10.0
  {
    var first := Straight(rt, sc, Args(map['x' := 5.0], None), false);
    assert first.lastLine.x == 5.0;
    G92Rebases(rt, first, map['x' := 0.0], Args(map['x' := 5.0], None), false);
  }

  /** In relative mode the G92 offset is added again on every move: two moves by d go
      2 (d + offset) from the start. */
  lemma RelativeMovesRepeatOffset(rt: Runtime, sc: Scene, d: real)
    requires sc.relative
    ensures var args := Args(map['x' := d], None);
            Straight(rt, Straight(rt, sc, args, false), args, false).lastLine.x
            == sc.lastLine.x + 2.0 * (d + sc.offsets.x)
  {
  }

  /** Axes without a word keep their value, whatever the mode. */
  lemma MissingWordsKeepAxes(sc: Scene, words: map<char, real>, m: Motion)
    requires 'x' !in words && 'y' !in words && 'z' !in words && 'e' !in words
    ensures MoveTarget(sc, words, m).Xyz() == sc.lastLine.Xyz()
    ensures MoveTarget(sc, words, m).e == sc.lastLine.e
  {
  }

  /** A word on G0/G1/G2 for x, y, z or e puts that axis at the word's value (added to the
      last value in relative mode) plus the axis's G92 offset; without the word the axis
      keeps its last value exactly. */
  lemma MoveTargetAxes(sc: Scene, words: map<char, real>, m: Motion)
    ensures var p := MoveTarget(sc, words, m);
            var l, o := sc.lastLine, sc.offsets;
            p.x == (if 'x' in words then (if sc.relative then l.x + words['x'] else words['x']) + o.x else l.x)
            && p.y == (if 'y' in words then (if sc.relative then l.y + words['y'] else words['y']) + o.y else l.y)
            && p.z == (if 'z' in words then (if sc.relative then l.z + words['z'] else words['z']) + o.z else l.z)
            && p.e == (if 'e' in words then (if sc.relative then l.e + words['e'] else words['e']) + o.e else l.e)
            && p.motion == m
  {
  }

  // ---------------------------------------------------------------- segments

  /** A fake point after a move carries that move's g: 0 after G0, 1 after G1/G73, 2 after
      G2/G3. */
  lemma FakePointRemembersMotion(rt: Runtime, sc: Scene, args: Args, rapid: bool, clockwise: bool)
    ensures var after := AddFake(Straight(rt, sc, args, rapid));
            after.linePoints[|after.linePoints| - 1].g == (if rapid then 0 else 1)
    ensures var after := AddFake(Arc(rt, sc, args, clockwise));
            after.linePoints[|after.linePoints| - 1].g == 2
  {
  }

  /** Totals never shrink: a move's time is never negative and a distance is only added
      when positive. */
  predicate TotalsGrow(sc: Scene, sc1: Scene) {
    sc1.totalDist >= sc.totalDist && sc1.totalTime >= sc.totalTime
  }

  /** The new points of a step, and nothing removed before them. */
  predicate AppendsPoints(sc: Scene, sc1: Scene, n: nat) {
    |sc1.linePoints| == |sc.linePoints| + n && sc1.linePoints[..|sc.linePoints|] == sc.linePoints
  }

  /** A G0/G1 adds one point at its target, with g 0 for G0 and 1 for G1, and the time of
      the straight distance at the feedrate (or 100); the distance and that time are added
      to the totals, and nothing is drawn. */
  lemma StraightAddsOnePoint(rt: Runtime, sc: Scene, args: Args, rapid: bool)
    ensures var sc1 := Straight(rt, sc, args, rapid);
            var dist := Distance(rt, sc.lastLine.Xyz(), sc1.lastLine.Xyz());
            var time := TimeFor(dist, args.feedrate, SegmentFallback);
            AppendsPoints(sc, sc1, 1) && TotalsGrow(sc, sc1)
            && sc1.linePoints[|sc.linePoints|]
               == MovePoint(sc1.lastLine.Xyz(), sc1.lastLine.a, if rapid then 0 else 1, time)
            && sc1.linePoints[|sc.linePoints|].G() == (if rapid then 0 else 1)
            && sc1.totalDist == AddDist(sc.totalDist, dist)
            && sc1.totalTime == sc.totalTime + time
            && sc1.extraObjects == sc.extraObjects
  {
    var sc1 := Straight(rt, sc, args, rapid);
    assert sc1.linePoints[..|sc.linePoints|] == sc.linePoints;
  }

  /** An arc adds 21 points, which are the points of the one polyline it adds to the G17
      list; the polyline runs from the start's z to the target's z. Each point has g 2, the
      target's A and the time of one 21st of the chord at the feedrate (or 1000). Only the
      polyline's length (not the chord) is added to the distance. */
  lemma ArcAddsItsPolyline(rt: Runtime, sc: Scene, args: Args, clockwise: bool)
    ensures var sc1 := Arc(rt, sc, args, clockwise);
            var old17 := if "G17" in sc.extraObjects then sc.extraObjects["G17"] else [];
            AppendsPoints(sc, sc1, 21) && TotalsGrow(sc, sc1)
            && "G17" in sc1.extraObjects && |sc1.extraObjects["G17"]| == |old17| + 1
            && sc1.extraObjects["G17"][..|old17|] == old17
            && var line := sc1.extraObjects["G17"][|old17|];
               line.ArcLine? && |line.points| == 21
               && line.points[0].z == sc.lastLine.z && line.points[20].z == sc1.lastLine.z
               && (forall i :: 0 <= i < 21 ==>
                     sc1.linePoints[|sc.linePoints| + i]
                     == ArcPoint(line.points[i], sc1.lastLine.a,
                                 TimeFor(Distance(rt, sc.lastLine.Xyz(), sc1.lastLine.Xyz()) / 21.0,
                                         args.feedrate, ArcPointFallback))
                     && sc1.linePoints[|sc.linePoints| + i].G() == 2)
               && sc1.totalDist == AddDist(sc.totalDist, PolylineLength(rt, line.points))
  {
    var sc1 := Arc(rt, sc, args, clockwise);
    var p2 := MoveTarget(sc, args.words, ArcMove);
    var pts := ArcDrawn(rt, sc, args.words, clockwise);
    ArcPolylineShape(rt, ArcCurveOf(rt, sc, p2, args.words, clockwise), sc.lastLine.z, p2.z);
    ArcExtra(rt, sc, args, clockwise);
    ArcLinePoints(rt, sc, args, clockwise);
    ArcTotalDist(rt, sc, args, clockwise);
    ArcTotalsGrow(rt, sc, args, clockwise);
    assert sc1.lastLine == p2;
    ArcEntries(sc, sc1, pts, p2.a,
               TimeFor(Distance(rt, sc.lastLine.Xyz(), p2.Xyz()) / 21.0, args.feedrate, ArcPointFallback));
  }

  /** The shape an arc leaves, whatever its polyline: the points appended after the old
      ones, and the polyline appended to the G17 list. */
  lemma ArcEntries(sc: Scene, sc1: Scene, pts: seq<Vec3>, a: AxisA, t: real)
    requires |pts| == 21
    requires sc1.linePoints == sc.linePoints + ArcPoints(pts, a, t)
    requires sc1.extraObjects == AppendExtra(sc.extraObjects, "G17", ArcLine(pts))
    ensures var old17 := if "G17" in sc.extraObjects then sc.extraObjects["G17"] else [];
            AppendsPoints(sc, sc1, 21)
            && "G17" in sc1.extraObjects && sc1.extraObjects["G17"] == old17 + [ArcLine(pts)]
            && (forall i :: 0 <= i < 21 ==>
                  sc1.linePoints[|sc.linePoints| + i] == ArcPoint(pts[i], a, t)
                  && sc1.linePoints[|sc.linePoints| + i].G() == 2)
  {
    assert sc1.linePoints[..|sc.linePoints|] == sc.linePoints;
    var added := ArcPoints(pts, a, t);
    forall i | 0 <= i < 21
      ensures sc1.linePoints[|sc.linePoints| + i] == ArcPoint(pts[i], a, t)
    {
      assert added[i] == ArcPoint(pts[i], a, t);
    }
  }

  lemma ArcTotalsGrow(rt: Runtime, sc: Scene, args: Args, clockwise: bool)
    ensures TotalsGrow(sc, Arc(rt, sc, args, clockwise))
  {
  }

  /** The linePoints an arc leaves: the old ones, then one entry per polyline point. */
  lemma ArcLinePoints(rt: Runtime, sc: Scene, args: Args, clockwise: bool)
    ensures var p2 := MoveTarget(sc, args.words, ArcMove);
            Arc(rt, sc, args, clockwise).linePoints
            == sc.linePoints + ArcPoints(ArcDrawn(rt, sc, args.words, clockwise), p2.a,
                                         TimeFor(Distance(rt, sc.lastLine.Xyz(), p2.Xyz()) / 21.0,
                                                 args.feedrate, ArcPointFallback))
  {
  }

  lemma ArcTotalDist(rt: Runtime, sc: Scene, args: Args, clockwise: bool)
    ensures Arc(rt, sc, args, clockwise).totalDist
            == AddDist(sc.totalDist, PolylineLength(rt, ArcDrawn(rt, sc, args.words, clockwise)))
  {
  }

  /** The arc's time is counted twice: with a positive feedrate F, a chord c and a polyline
      of length L, the total time grows by 1.32 (c + L) / F although the tool only travels L. */
  lemma ArcTimeCountsChordAndPolyline(rt: Runtime, sc: Scene, args: Args, clockwise: bool)
    requires args.feedrate.Some? && args.feedrate.value > 0.0
    requires var p2 := MoveTarget(sc, args.words, ArcMove);
             Distance(rt, sc.lastLine.Xyz(), p2.Xyz()) > 0.0
    ensures var p2 := MoveTarget(sc, args.words, ArcMove);
            var c := Distance(rt, sc.lastLine.Xyz(), p2.Xyz());
            var curve := ArcCurveOf(rt, sc, p2, args.words, clockwise);
            var len := PolylineLength(rt, ArcPolyline(rt, curve, sc.lastLine.z, p2.z));
            len > 0.0 ==>
              Arc(rt, sc, args, clockwise).totalTime == sc.totalTime + 1.32 * (c + len) / args.feedrate.value
  {
    var f := args.feedrate.value;
    var p2 := MoveTarget(sc, args.words, ArcMove);
    var c := Distance(rt, sc.lastLine.Xyz(), p2.Xyz());
    assert Fr(args.feedrate, ArcPointFallback) == f && Fr(args.feedrate, SegmentFallback) == f;
    ChordShare(c, f);
  }

  lemma ChordShare(c: real, f: real)
    requires c > 0.0 && f > 0.0
    ensures 21.0 * (c / 21.0 / f * 1.32) == 1.32 * c / f
  {
  }

  /** One segment handler: 21 points for G2/G3, one point for every other command. */
  lemma DispatchAppends(rt: Runtime, sc: Scene, cmd: Option<string>, args: Args)
    ensures var sc1 := Dispatch(rt, sc, cmd, args);
            AppendsPoints(sc, sc1, if cmd == Some("G2") || cmd == Some("G3") then 21 else 1)
            && TotalsGrow(sc, sc1)
  {
    if cmd == Some("G0") || cmd == Some("G1") || cmd == Some("G73") {
      StraightAddsOnePoint(rt, sc, args, cmd == Some("G0"));
    } else if cmd == Some("G2") || cmd == Some("G3") {
      ArcAddsItsPolyline(rt, sc, args, cmd == Some("G2"));
    } else {
      var sc1 := Dispatch(rt, sc, cmd, args);
      assert sc1.linePoints[..|sc.linePoints|] == sc.linePoints;
    }
  }

  // ---------------------------------------------------------------- mode words

  /** The tokens of a line that are not mode words, in order: the reference for what the
      mode loop leaves for the command. */
  function NonMode(tokens: seq<string>): seq<string>
    decreases |tokens|
  {
    if tokens == [] then []
    else
      var t := tokens[|tokens| - 1];
      NonMode(tokens[..|tokens| - 1]) + (if ModeOf(Upper(t)).None? then [t] else [])
  }

  /** How many tokens of a line record the event `key` (M3..M8). */
  function EventCount(tokens: seq<string>, key: string): nat
    decreases |tokens|
  {
    if tokens == [] then 0
    else
      var t := tokens[|tokens| - 1];
      EventCount(tokens[..|tokens| - 1], key) + (if ModeOf(Upper(t)) == Some(RecordEvent(key)) then 1 else 0)
  }

  function ExtraOf(sc: Scene, key: string): seq<ExtraObject> {
    if key in sc.extraObjects then sc.extraObjects[key] else []
  }

  /** n markers at p. */
  function Markers(n: nat, p: Vec3): (ms: seq<ExtraObject>)
    ensures |ms| == n
  {
    seq(n, i requires 0 <= i < n => Marker(p))
  }

  /** The mode loop leaves exactly the non-mode tokens, in order. */
  lemma {:induction false} ModeSplitPending(sc: Scene, tokens: seq<string>)
    ensures ModeSplit(sc, tokens).1 == NonMode(tokens)
    decreases |tokens|
  {
    if tokens != [] {
      ModeSplitPending(sc, tokens[..|tokens| - 1]);
    }
  }

  /** Mode words add no point, move nothing and leave the offsets and totals alone. */
  predicate KeepsMotion(sc: Scene, sc1: Scene) {
    sc1.linePoints == sc.linePoints && sc1.lastLine == sc.lastLine && sc1.offsets == sc.offsets
    && sc1.totalDist == sc.totalDist && sc1.totalTime == sc.totalTime
  }

  lemma {:induction false} ModeSplitKeepsMotion(sc: Scene, tokens: seq<string>)
    ensures KeepsMotion(sc, ModeSplit(sc, tokens).0)
    decreases |tokens|
  {
    if tokens != [] {
      var n := |tokens| - 1;
      ModeSplitKeepsMotion(sc, tokens[..n]);
      var m := ModeOf(Upper(tokens[n]));
      if m.Some? {
        ModeTouchesOnlyItsField(ModeSplit(sc, tokens[..n]).0, m.value);
      }
    }
  }

  /** Each M3..M8 word of a line adds a marker at the position before the line's move
      (mode words run before the command). */
  lemma {:induction false} ModeSplitMarkers(sc: Scene, tokens: seq<string>, key: string)
    ensures ExtraOf(ModeSplit(sc, tokens).0, key)
            == ExtraOf(sc, key) + Markers(EventCount(tokens, key), sc.lastLine.Xyz())
    decreases |tokens|
  {
    if tokens != [] {
      var front := tokens[..|tokens| - 1];
      ModeSplitMarkers(sc, front, key);
      ModeSplitKeepsMotion(sc, front);
      var m := ModeOf(Upper(tokens[|tokens| - 1]));
      if m.Some? {
        ApplyModeMarkers(ModeSplit(sc, front).0, m.value, key);
      }
      MarkersSnoc(EventCount(front, key), sc.lastLine.Xyz());
    }
  }

  lemma ApplyModeMarkers(sc: Scene, m: ModeCmd, key: string)
    ensures ExtraOf(ApplyMode(sc, m), key)
            == ExtraOf(sc, key) + (if m == RecordEvent(key) then [Marker(sc.lastLine.Xyz())] else [])
  {
  }

  lemma MarkersSnoc(n: nat, p: Vec3)
    ensures Markers(n + 1, p) == Markers(n, p) + [Marker(p)]
  {
  }

  /** A line whose tokens are all mode words adds no point and leaves the remembered command
      and values alone, so there can be fewer points than lines. */
  lemma ModeOnlyLineAddsNoPoint(rt: Runtime, st: State, line: string)
    requires !IsCommentText(rt.normalise(line))
    requires rt.stripInline(rt.normalise(line)) != []
    requires NonMode(SplitWs(rt.stripTrailing(rt.stripInline(rt.normalise(line))))) == []
    ensures Step(rt, st, line).scene.linePoints == st.scene.linePoints
    ensures Step(rt, st, line).memory == st.memory
  {
    var tokens := SplitWs(rt.stripTrailing(rt.stripInline(rt.normalise(line))));
    ModeSplitPending(st.scene, tokens);
    ModeSplitKeepsMotion(st.scene, tokens);
    assert KeepsMotion(st.scene, ModeSplit(st.scene, tokens).0);
  }

  /** A comment line, or one that is empty without its inline comments, adds one fake point
      at the last position and leaves everything else alone. */
  lemma CommentLineAddsFakePoint(rt: Runtime, st: State, line: string)
    requires IsCommentText(rt.normalise(line)) || rt.stripInline(rt.normalise(line)) == []
    ensures Step(rt, st, line) == st.(scene := AddFake(st.scene))
  {
  }

  /** A line that is one word and nothing else. */
  lemma OneWordLine(rt: Runtime, line: string, word: string)
    requires word == "M09" || word == "M9"
    requires rt.normalise(line) == word && rt.stripInline(word) == word && rt.stripTrailing(word) == word
    ensures !IsCommentText(rt.normalise(line))
    ensures SplitWs(rt.stripTrailing(rt.stripInline(rt.normalise(line)))) == [word]
    ensures Upper(word) == word
  {
    assert NoSpace(word);
    SplitWsOfWord(word);
  }

  lemma ModeSplitOfCommand(sc: Scene, t: string)
    requires ModeOf(Upper(t)) == None
    ensures ModeSplit(sc, [t]) == (sc, [t])
  {
    assert [t][..0] == [] && [t][0] == t;
    var empty: seq<string> := [];
    assert ModeSplit(sc, [t]) == (sc, empty + [t]);
    assert empty + [t] == [t];
  }

  /** `M09` is a mode word that does nothing: the line changes nothing. */
  lemma CoolantOffWithZero(rt: Runtime, st: State, line: string)
    requires rt.normalise(line) == "M09" && rt.stripInline("M09") == "M09" && rt.stripTrailing("M09") == "M09"
    ensures Step(rt, st, line) == st
  {
    OneWordLine(rt, line, "M09");
    assert ModeSplit(st.scene, ["M09"]) == (st.scene, []) by {
      assert ["M09"][..0] == [];
    }
  }

  lemma M9IsNoModeWord()
    ensures ModeOf("M9") == None
  {
    assert "M9" !in NoOpModeWords;
  }

  /** `M9` is not a mode word, so it becomes the command, falls to the default handler and
      adds a fake point. */
  lemma CoolantOffWithoutZero(rt: Runtime, st: State, line: string)
    requires rt.normalise(line) == "M9" && rt.stripInline("M9") == "M9" && rt.stripTrailing("M9") == "M9"
    ensures Step(rt, st, line).scene == AddFake(st.scene)
    ensures Step(rt, st, line).memory.lastCmd == Some("M9")
  {
    OneWordLine(rt, line, "M9");
    M9IsNoModeWord();
    ModeSplitOfCommand(st.scene, "M9");
    assert Step(rt, st, line) == Command(rt, st.scene, st.memory, "M9", ["M9"]);
    BareCommandWord(rt, st.scene, st.memory, "M9");
  }

  /** A line that is one command word with no parameters, and not a move or G92. */
  lemma BareCommandWord(rt: Runtime, sc: Scene, m: Memory, w: string)
    requires IsCommandWord(w) && Upper(w) == w
    requires w !in {"G0", "G1", "G73", "G2", "G3", "G92"}
    ensures Command(rt, sc, m, w, [w]).scene == AddFake(sc)
    ensures Command(rt, sc, m, w, [w]).memory.lastCmd == Some(w)
  {
    var empty: seq<string> := [];
    assert [w][0] == w && [w][1..] == empty;
    assert ResolveCommand(m.lastCmd, [w]) == (Some(w), empty);
  }

  /** Each mode handler sets only its own flag: G90/G91 only `relative`, G90.1/G91.1 only
      `ijkrelative`, G20/G21 only `isUnitsMm`; none of them moves, adds a point or touches
      the offsets or totals, and only M3..M8 touch extraObjects. */
  lemma ModeTouchesOnlyItsField(sc: Scene, m: ModeCmd)
    ensures var sc1 := ApplyMode(sc, m);
            KeepsMotion(sc, sc1)
            && (!m.RecordEvent? ==> sc1.extraObjects == sc.extraObjects)
            && (m.SetRelative? ==> sc1.relative == m.relative)
            && (!m.SetRelative? ==> sc1.relative == sc.relative)
            && (m.SetIjkRelative? ==> sc1.ijkRelative == m.ijkRelative)
            && (!m.SetIjkRelative? ==> sc1.ijkRelative == sc.ijkRelative)
            && (m.SetUnits? ==> sc1.isUnitsMm == m.mm)
            && (!m.SetUnits? ==> sc1.isUnitsMm == sc.isUnitsMm)
  {
  }

  /** The two distance modes are independent: G90/G91 and G90.1/G91.1 commute. */
  lemma DistanceModesCommute(sc: Scene, rel: bool, ijk: bool)
    ensures ApplyMode(ApplyMode(sc, SetRelative(rel)), SetIjkRelative(ijk))
            == ApplyMode(ApplyMode(sc, SetIjkRelative(ijk)), SetRelative(rel))
  {
  }

  /** G17, G18 and G19 are mode words whose handlers change nothing. */
  lemma PlaneWordsChangeNothing(sc: Scene, word: string)
    requires word in {"G17", "G18", "G19"}
    ensures ModeOf(word) == Some(NoOp)
    ensures ApplyMode(sc, ModeOf(word).value) == sc
  {
    assert word in NoOpModeWords;
  }

  /** G92, M30, an unknown command, or no command at all: one fake point at the unchanged
      position, carrying the last move's g; nothing else changes. */
  lemma DefaultHandlerAddsFakePoint(rt: Runtime, sc: Scene, cmd: Option<string>, args: Args)
    requires cmd !in {Some("G0"), Some("G1"), Some("G73"), Some("G2"), Some("G3")}
    ensures var sc1 := Dispatch(rt, sc, cmd, args);
            sc1.linePoints == sc.linePoints + [FakePoint(sc.lastLine.Xyz(), sc.lastLine.a, GNumber(sc.lastLine.motion))]
            && sc1.lastLine == sc.lastLine && sc1.extraObjects == sc.extraObjects
            && sc1.totalDist == sc.totalDist && sc1.totalTime == sc.totalTime
            && SameModes(sc, sc1)
            && (cmd != Some("G92") ==> sc1.offsets == sc.offsets)
  {
  }

  /** No handler run for a command changes a mode: relative, ijkRelative and isUnitsMm
      change only through mode words. */
  lemma DispatchKeepsModes(rt: Runtime, sc: Scene, cmd: Option<string>, args: Args)
    ensures SameModes(sc, Dispatch(rt, sc, cmd, args))
  {
    if cmd == Some("G0") || cmd == Some("G1") || cmd == Some("G73") {
      StraightKeepsModes(rt, sc, args, cmd == Some("G0"));
    } else if cmd == Some("G2") || cmd == Some("G3") {
      ArcKeepsModes(rt, sc, args, cmd == Some("G2"));
    } else if cmd == Some("G92") {
      SetPositionKeepsPosition(sc, args.words);
    }
  }

  lemma StraightKeepsModes(rt: Runtime, sc: Scene, args: Args, rapid: bool)
    ensures SameModes(sc, Straight(rt, sc, args, rapid))
  {
  }

  lemma ArcKeepsModes(rt: Runtime, sc: Scene, args: Args, clockwise: bool)
    ensures SameModes(sc, Arc(rt, sc, args, clockwise))
  {
  }

  /** A letter that never stands before a digit or a dot leaves the remembered value alone;
      one that does gives the parsed capture. */
  lemma LastSeenFromText(code: string, letter: char, last: Option<real>, parse: string -> real)
    ensures (forall k :: 0 <= k < |code| ==> !MatchesAt(code, k, letter))
            ==> LastSeen(ScanWord(code, letter), last, parse) == last
    ensures (exists k :: 0 <= k < |code| && MatchesAt(code, k, letter))
            ==> ScanWord(code, letter).Some?
                && LastSeen(ScanWord(code, letter), last, parse) == Some(parse(ScanWord(code, letter).value))
  {
    ScanWordLeftmost(code, letter);
  }

  /** F, S and T are last-seen-wins: a line with the word remembers its parsed capture (the
      run after the leftmost match, see ScanWordLeftmost), one without
      keeps the earlier one; the handler is given the remembered feedrate; and the command
      is remembered for the next line. */
  lemma CommandRemembers(rt: Runtime, sc: Scene, m: Memory, code: string, pending: seq<string>)
    requires pending != []
    ensures var st := Command(rt, sc, m, code, pending);
            ((forall k :: 0 <= k < |code| ==> !MatchesAt(code, k, 'F')) ==> st.memory.lastFeedrate == m.lastFeedrate)
            && ((forall k :: 0 <= k < |code| ==> !MatchesAt(code, k, 'S')) ==> st.memory.lastSValue == m.lastSValue)
            && ((forall k :: 0 <= k < |code| ==> !MatchesAt(code, k, 'T')) ==> st.memory.lastTool == m.lastTool)
            && ((exists k :: 0 <= k < |code| && MatchesAt(code, k, 'F'))
                ==> ScanWord(code, 'F').Some? && st.memory.lastFeedrate == Some(rt.parseFloat(ScanWord(code, 'F').value)))
            && ((exists k :: 0 <= k < |code| && MatchesAt(code, k, 'S'))
                ==> ScanWord(code, 'S').Some? && st.memory.lastSValue == Some(rt.parseFloat(ScanWord(code, 'S').value)))
            && ((exists k :: 0 <= k < |code| && MatchesAt(code, k, 'T'))
                ==> ScanWord(code, 'T').Some? && st.memory.lastTool == Some(rt.parseFloat(ScanWord(code, 'T').value)))
            && st.memory.lastCmd == ResolveCommand(m.lastCmd, pending).0
            && st.scene == Dispatch(rt, sc, st.memory.lastCmd,
                                    Args(WordsOf(ResolveCommand(m.lastCmd, pending).1, rt.parseFloat), st.memory.lastFeedrate))
  {
    LastSeenFromText(code, 'F', m.lastFeedrate, rt.parseFloat);
    LastSeenFromText(code, 'S', m.lastSValue, rt.parseFloat);
    LastSeenFromText(code, 'T', m.lastTool, rt.parseFloat);
  }

  /** Before any command, a line of coordinates only runs the default handler: one fake
      point, and still no command remembered. */
  lemma NoCommandYet(rt: Runtime, sc: Scene, m: Memory, code: string, pending: seq<string>)
    requires pending != [] && !IsCommandWord(Upper(pending[0])) && m.lastCmd == None
    ensures Command(rt, sc, m, code, pending).scene == AddFake(sc)
    ensures Command(rt, sc, m, code, pending).memory.lastCmd == None
  {
  }

  /** A line that starts with a coordinate repeats the last command, and its first token is
      read as a parameter; a line that starts with a G/M/T/S word makes that the command. */
  lemma CommandResolution(lastCmd: Option<string>, tokens: seq<string>)
    requires tokens != []
    ensures var (cmd, params) := ResolveCommand(lastCmd, tokens);
            (IsCommandWord(Upper(tokens[0])) ==> cmd == Some(Upper(tokens[0])) && [tokens[0]] + params == tokens)
            && (!IsCommandWord(Upper(tokens[0])) ==> cmd == lastCmd && params == tokens)
  {
  }

  // ---------------------------------------------------------------- whole lines

  /** sc1 keeps every point of sc, in place, and totals no smaller. */
  predicate Extends(sc: Scene, sc1: Scene) {
    |sc.linePoints| <= |sc1.linePoints| && sc1.linePoints[..|sc.linePoints|] == sc.linePoints
    && TotalsGrow(sc, sc1)
  }

  lemma ExtendsTransitive(a: Scene, b: Scene, c: Scene)
    requires Extends(a, b) && Extends(b, c)
    ensures Extends(a, c)
  {
    assert c.linePoints[..|a.linePoints|] == c.linePoints[..|b.linePoints|][..|a.linePoints|];
  }

  /** Every line appends 0, 1 or 21 points (nothing removed) and never lowers the totals;
      a remembered command or feedrate is never forgotten. */
  lemma StepAppends(rt: Runtime, st: State, line: string)
    ensures var st1 := Step(rt, st, line);
            (AppendsPoints(st.scene, st1.scene, 0) || AppendsPoints(st.scene, st1.scene, 1)
             || AppendsPoints(st.scene, st1.scene, 21))
            && TotalsGrow(st.scene, st1.scene)
            && (st.memory.lastCmd.Some? ==> st1.memory.lastCmd.Some?)
            && (st.memory.lastFeedrate.Some? ==> st1.memory.lastFeedrate.Some?)
  {
    var text := rt.normalise(line);
    if IsCommentText(text) || rt.stripInline(text) == [] {
      DispatchAppends(rt, st.scene, None, Args(map[], None));
    } else {
      var code := rt.stripTrailing(rt.stripInline(text));
      ModeSplitKeepsMotion(st.scene, SplitWs(code));
      var (sc1, pending) := ModeSplit(st.scene, SplitWs(code));
      if pending != [] {
        var (cmd, params) := ResolveCommand(st.memory.lastCmd, pending);
        var feed := LastSeen(ScanWord(code, 'F'), st.memory.lastFeedrate, rt.parseFloat);
        DispatchAppends(rt, sc1, cmd, Args(WordsOf(params, rt.parseFloat), feed));
      }
    }
  }

  lemma StepExtends(rt: Runtime, st: State, line: string)
    ensures Extends(st.scene, Step(rt, st, line).scene)
    ensures |Step(rt, st, line).scene.linePoints| <= |st.scene.linePoints| + 21
  {
    StepAppends(rt, st, line);
  }

  /** Over a program the points only grow, by at most 21 per line, and the totals never
      shrink. */
  lemma {:induction false} RunExtends(rt: Runtime, st: State, lines: seq<string>)
    ensures Extends(st.scene, Run(rt, st, lines).scene)
    ensures |Run(rt, st, lines).scene.linePoints| <= |st.scene.linePoints| + 21 * |lines|
    decreases |lines|
  {
    if lines == [] {
      assert st.scene.linePoints[..|st.scene.linePoints|] == st.scene.linePoints;
    } else {
      var front := lines[..|lines| - 1];
      RunExtends(rt, st, front);
      var mid := Run(rt, st, front);
      StepExtends(rt, mid, lines[|lines| - 1]);
      ExtendsTransitive(st.scene, mid.scene, Run(rt, st, lines).scene);
    }
  }

  // ---------------------------------------------------------------- across lines

  /** A line gets past the comment test and is not empty without its inline comments. */
  predicate HasCode(rt: Runtime, line: string) {
    !IsCommentText(rt.normalise(line)) && rt.stripInline(rt.normalise(line)) != []
  }

  /** The text whose tokens the mode loop sees, and that the F, S and T scans read. */
  function CodeOf(rt: Runtime, line: string): string {
    rt.stripTrailing(rt.stripInline(rt.normalise(line)))
  }

  /** The tokens of a line that the mode loop runs through; none for a comment or an
      empty line. */
  function LineTokens(rt: Runtime, line: string): seq<string> {
    if HasCode(rt, line) then SplitWs(CodeOf(rt, line)) else []
  }

  /** Every token of a program, line after line. */
  function ProgramTokens(rt: Runtime, lines: seq<string>): seq<string>
    decreases |lines|
  {
    if lines == [] then [] else ProgramTokens(rt, lines[..|lines| - 1]) + LineTokens(rt, lines[|lines| - 1])
  }

  predicate IsUnitsWord(t: string) {
    Upper(t) == "G20" || Upper(t) == "G21"
  }

  /** Token j is the last G20 or G21 (in either case) of ts. */
  predicate LastUnitsWord(ts: seq<string>, j: int) {
    0 <= j < |ts| && IsUnitsWord(ts[j]) && forall i :: j < i < |ts| ==> !IsUnitsWord(ts[i])
  }

  /** The last units word of ts exists and is G20. */
  predicate EndsInInches(ts: seq<string>) {
    exists j :: 0 <= j < |ts| && LastUnitsWord(ts, j) && Upper(ts[j]) == "G20"
  }

  /** Millimetres after the tokens ts, starting in mm: the last units word decides. */
  function UnitsAfter(ts: seq<string>, mm: bool): bool
    decreases |ts|
  {
    if ts == [] then mm
    else if IsUnitsWord(ts[|ts| - 1]) then Upper(ts[|ts| - 1]) == "G21"
    else UnitsAfter(ts[..|ts| - 1], mm)
  }

  lemma {:induction false} UnitsAfterAppend(a: seq<string>, b: seq<string>, mm: bool)
    ensures UnitsAfter(a + b, mm) == UnitsAfter(b, UnitsAfter(a, mm))
    decreases |b|
  {
    if b == [] {
      assert a + b == a;
    } else {
      var n := |b| - 1;
      assert (a + b)[..|a + b| - 1] == a + b[..n];
      assert (a + b)[|a + b| - 1] == b[n];
      UnitsAfterAppend(a, b[..n], mm);
    }
  }

  /** Without a units word the units stay as they were. */
  lemma {:induction false} UnitsAfterNone(ts: seq<string>, mm: bool)
    requires forall i :: 0 <= i < |ts| ==> !IsUnitsWord(ts[i])
    ensures UnitsAfter(ts, mm) == mm
    decreases |ts|
  {
    if ts != [] {
      var n := |ts| - 1;
      assert !IsUnitsWord(ts[n]);
      UnitsAfterNone(ts[..n], mm);
    }
  }

  /** Otherwise the last units word decides. */
  lemma {:induction false} UnitsAfterLast(ts: seq<string>, mm: bool, j: int)
    requires LastUnitsWord(ts, j)
    ensures UnitsAfter(ts, mm) == (Upper(ts[j]) == "G21")
    decreases |ts|
  {
    var n := |ts| - 1;
    if j < n {
      assert !IsUnitsWord(ts[n]);
      var front := ts[..n];
      assert front[j] == ts[j];
      assert LastUnitsWord(front, j) by {
        forall i | j < i < n
          ensures !IsUnitsWord(front[i])
        {
          assert front[i] == ts[i];
        }
      }
      UnitsAfterLast(front, mm, j);
    }
  }

  /** A sequence with a units word has a last one. */
  lemma {:induction false} LastUnitsWordExists(ts: seq<string>, i: int)
    requires 0 <= i < |ts| && IsUnitsWord(ts[i])
    ensures exists j :: LastUnitsWord(ts, j)
    decreases |ts| - i
  {
    if !LastUnitsWord(ts, i) {
      var k :| i < k < |ts| && IsUnitsWord(ts[k]);
      LastUnitsWordExists(ts, k);
    }
  }

  lemma ModeOfUnits(w: string)
    ensures (ModeOf(w).Some? && ModeOf(w).value.SetUnits?) <==> (w == "G20" || w == "G21")
    ensures ModeOf(w).Some? && ModeOf(w).value.SetUnits? ==> ModeOf(w).value.mm == (w == "G21")
  {
  }

  /** The mode loop leaves the units of the line's last units word, if any. */
  lemma {:induction false} ModeSplitUnits(sc: Scene, tokens: seq<string>)
    ensures ModeSplit(sc, tokens).0.isUnitsMm == UnitsAfter(tokens, sc.isUnitsMm)
    decreases |tokens|
  {
    if tokens != [] {
      var n := |tokens| - 1;
      ModeSplitUnits(sc, tokens[..n]);
      var w := Upper(tokens[n]);
      ModeOfUnits(w);
      if ModeOf(w).Some? {
        ModeTouchesOnlyItsField(ModeSplit(sc, tokens[..n]).0, ModeOf(w).value);
      }
    }
  }

  lemma StepUnits(rt: Runtime, st: State, line: string)
    ensures Step(rt, st, line).scene.isUnitsMm == UnitsAfter(LineTokens(rt, line), st.scene.isUnitsMm)
  {
    if HasCode(rt, line) {
      var code := CodeOf(rt, line);
      ModeSplitUnits(st.scene, SplitWs(code));
      var (sc1, pending) := ModeSplit(st.scene, SplitWs(code));
      if pending != [] {
        var (cmd, params) := ResolveCommand(st.memory.lastCmd, pending);
        var feed := LastSeen(ScanWord(code, 'F'), st.memory.lastFeedrate, rt.parseFloat);
        DispatchKeepsModes(rt, sc1, cmd, Args(WordsOf(params, rt.parseFloat), feed));
      }
    }
  }

  /** The units after a program are those of its last units word, whatever line it is on. */
  lemma {:induction false} RunUnits(rt: Runtime, st: State, lines: seq<string>)
    ensures Run(rt, st, lines).scene.isUnitsMm == UnitsAfter(ProgramTokens(rt, lines), st.scene.isUnitsMm)
    decreases |lines|
  {
    if lines != [] {
      var front := lines[..|lines| - 1];
      RunUnits(rt, st, front);
      StepUnits(rt, Run(rt, st, front), lines[|lines| - 1]);
      UnitsAfterAppend(ProgramTokens(rt, front), LineTokens(rt, lines[|lines| - 1]), st.scene.isUnitsMm);
    }
  }

  /** The result reports inches exactly when the program has a units word and the last one
      is G20 (in either case); with none, or with G21 last, it reports millimetres. */
  lemma InchReportsUnits(rt: Runtime, gcode: string)
    ensures var ts := ProgramTokens(rt, SplitLines(gcode));
            Interpret(rt, gcode).inch <==> EndsInInches(ts)
  {
    var lines := SplitLines(gcode);
    var sc := Run(rt, Initial, lines).scene;
    assert Interpret(rt, gcode).inch == !sc.isUnitsMm;
    RunUnits(rt, Initial, lines);
    assert sc.isUnitsMm == UnitsAfter(ProgramTokens(rt, lines), true);
    InchesAfter(ProgramTokens(rt, lines));
  }

  /** Starting in millimetres, the tokens leave inches exactly when their last units word
      is G20. */
  lemma InchesAfter(ts: seq<string>)
    ensures !UnitsAfter(ts, true) <==> EndsInInches(ts)
  {
    if exists i :: 0 <= i < |ts| && IsUnitsWord(ts[i]) {
      var i :| 0 <= i < |ts| && IsUnitsWord(ts[i]);
      LastUnitsWordExists(ts, i);
      var j :| LastUnitsWord(ts, j);
      UnitsAfterLast(ts, true, j);
      forall j' | LastUnitsWord(ts, j')
        ensures j' == j
      {
        assert IsUnitsWord(ts[j]) && IsUnitsWord(ts[j']);
        assert !(j' < j) && !(j < j');
      }
    } else {
      UnitsAfterNone(ts, true);
    }
  }

  /** The F capture of a line that reaches a handler; comments, empty lines and lines of
      mode words only never get to the scan. */
  function FeedWord(rt: Runtime, line: string): Option<string> {
    if HasCode(rt, line) && NonMode(SplitWs(CodeOf(rt, line))) != [] then ScanWord(CodeOf(rt, line), 'F')
    else None
  }

  /** Line j is the last line of the program with a feedrate word that reaches a handler. */
  predicate LastFeedLine(rt: Runtime, lines: seq<string>, j: int) {
    0 <= j < |lines| && FeedWord(rt, lines[j]).Some?
    && forall i :: j < i < |lines| ==> FeedWord(rt, lines[i]).None?
  }

  /** The parsed F value of a line that reaches a handler with one. */
  function ParsedFeed(rt: Runtime, line: string): Option<real> {
    var w := FeedWord(rt, line);
    if w.Some? then Some(rt.parseFloat(w.value)) else None
  }

  function Feeds(rt: Runtime, lines: seq<string>): (fs: seq<Option<real>>)
    ensures |fs| == |lines|
  {
    seq(|lines|, i requires 0 <= i < |lines| => ParsedFeed(rt, lines[i]))
  }

  /** Reference for last-seen-wins: the last value present in xs, or init. */
  function LastSome(xs: seq<Option<real>>, init: Option<real>): Option<real>
    decreases |xs|
  {
    if xs == [] then init
    else if xs[|xs| - 1].Some? then xs[|xs| - 1]
    else LastSome(xs[..|xs| - 1], init)
  }

  lemma {:induction false} LastSomeLast(xs: seq<Option<real>>, init: Option<real>)
    ensures (forall i :: 0 <= i < |xs| ==> xs[i].None?) ==> LastSome(xs, init) == init
    ensures forall j :: 0 <= j < |xs| && xs[j].Some? && (forall i :: j < i < |xs| ==> xs[i].None?)
                        ==> LastSome(xs, init) == xs[j]
    decreases |xs|
  {
    if xs != [] {
      var n := |xs| - 1;
      var front := xs[..n];
      LastSomeLast(front, init);
      assert forall i :: 0 <= i < n ==> front[i] == xs[i];
      forall j | 0 <= j < |xs| && xs[j].Some? && (forall i :: j < i < |xs| ==> xs[i].None?)
        ensures LastSome(xs, init) == xs[j]
      {
        assert j < n ==> xs[n].None?;
      }
    }
  }

  lemma StepFeedrate(rt: Runtime, st: State, line: string)
    ensures Step(rt, st, line).memory.lastFeedrate
            == if ParsedFeed(rt, line).Some? then ParsedFeed(rt, line) else st.memory.lastFeedrate
  {
    if HasCode(rt, line) {
      ModeSplitPending(st.scene, SplitWs(CodeOf(rt, line)));
    }
  }

  lemma {:induction false} RunFeeds(rt: Runtime, st: State, lines: seq<string>)
    ensures Run(rt, st, lines).memory.lastFeedrate == LastSome(Feeds(rt, lines), st.memory.lastFeedrate)
    decreases |lines|
  {
    if lines != [] {
      var n := |lines| - 1;
      var front := lines[..n];
      RunFeeds(rt, st, front);
      StepFeedrate(rt, Run(rt, st, front), lines[n]);
      assert Feeds(rt, lines)[..n] == Feeds(rt, front);
    }
  }

  /** Last-seen-wins across lines: the feedrate remembered after a program (and handed to
      the next line's handler) is the parsed capture of the last line that reaches a handler
      with an F word; without such a line it is the one remembered before. */
  lemma RunFeedrate(rt: Runtime, st: State, lines: seq<string>)
    ensures (forall j :: 0 <= j < |lines| ==> FeedWord(rt, lines[j]).None?)
            ==> Run(rt, st, lines).memory.lastFeedrate == st.memory.lastFeedrate
    ensures forall j :: LastFeedLine(rt, lines, j)
                        ==> Run(rt, st, lines).memory.lastFeedrate == Some(rt.parseFloat(FeedWord(rt, lines[j]).value))
  {
    RunFeeds(rt, st, lines);
    FeedsLast(rt, lines, st.memory.lastFeedrate);
  }

  lemma FeedsLast(rt: Runtime, lines: seq<string>, init: Option<real>)
    ensures (forall j :: 0 <= j < |lines| ==> FeedWord(rt, lines[j]).None?)
            ==> LastSome(Feeds(rt, lines), init) == init
    ensures forall j :: LastFeedLine(rt, lines, j)
                        ==> LastSome(Feeds(rt, lines), init) == Some(rt.parseFloat(FeedWord(rt, lines[j]).value))
  {
    var fs := Feeds(rt, lines);
    LastSomeLast(fs, init);
    assert forall i :: 0 <= i < |lines| ==> fs[i].None? == FeedWord(rt, lines[i]).None?;
    forall j | LastFeedLine(rt, lines, j)
      ensures LastSome(fs, init) == Some(rt.parseFloat(FeedWord(rt, lines[j]).value))
    {
      assert fs[j] == Some(rt.parseFloat(FeedWord(rt, lines[j]).value));
    }
  }

  // ---------------------------------------------------------------- planes

  /** `args.plane` is never set, so every arc is drawn in G17 and the G18 and G19 lists stay
      empty; the G17 list holds only 21-point polylines. */
  predicate PlanesInvariant(extra: map<string, seq<ExtraObject>>) {
    "G17" in extra && "G18" in extra && "G19" in extra
    && extra["G18"] == [] && extra["G19"] == []
    && forall o :: o in extra["G17"] ==> o.ArcLine? && |o.points| == 21
  }

  /** Adding a marker under an event key, or a 21-point polyline under G17, keeps it. */
  lemma AppendKeepsPlanes(extra: map<string, seq<ExtraObject>>, key: string, o: ExtraObject)
    requires PlanesInvariant(extra)
    requires key in {"m3", "m4", "m5", "m6", "m7", "m8"} || (key == "G17" && o.ArcLine? && |o.points| == 21)
    ensures PlanesInvariant(AppendExtra(extra, key, o))
  {
    var e1 := AppendExtra(extra, key, o);
    if key == "G17" {
      forall x: ExtraObject | x in e1["G17"]
        ensures x.ArcLine? && |x.points| == 21
      {
        if x != o {
          assert x in extra["G17"];
        }
      }
    }
  }

  lemma {:induction false} ModeSplitKeepsPlanes(sc: Scene, tokens: seq<string>)
    requires PlanesInvariant(sc.extraObjects)
    ensures PlanesInvariant(ModeSplit(sc, tokens).0.extraObjects)
    decreases |tokens|
  {
    if tokens != [] {
      var front := tokens[..|tokens| - 1];
      ModeSplitKeepsPlanes(sc, front);
      var sc0 := ModeSplit(sc, front).0;
      var m := ModeOf(Upper(tokens[|tokens| - 1]));
      if m.Some? && m.value.RecordEvent? {
        AppendKeepsPlanes(sc0.extraObjects, m.value.key, Marker(sc0.lastLine.Xyz()));
      }
    }
  }

  /** The polyline an arc command draws. */
  function ArcDrawn(rt: Runtime, sc: Scene, words: map<char, real>, clockwise: bool): seq<Vec3> {
    var p2 := MoveTarget(sc, words, ArcMove);
    ArcPolyline(rt, ArcCurveOf(rt, sc, p2, words, clockwise), sc.lastLine.z, p2.z)
  }

  lemma StraightKeepsExtra(rt: Runtime, sc: Scene, args: Args, rapid: bool)
    ensures Straight(rt, sc, args, rapid).extraObjects == sc.extraObjects
  {
  }

  lemma ArcExtra(rt: Runtime, sc: Scene, args: Args, clockwise: bool)
    ensures Arc(rt, sc, args, clockwise).extraObjects
            == AppendExtra(sc.extraObjects, "G17", ArcLine(ArcDrawn(rt, sc, args.words, clockwise)))
  {
  }

  /** Only G2 and G3 touch extraObjects: they add their polyline under G17. */
  lemma DispatchExtra(rt: Runtime, sc: Scene, cmd: Option<string>, args: Args)
    ensures Dispatch(rt, sc, cmd, args).extraObjects
            == if cmd == Some("G2") || cmd == Some("G3")
               then AppendExtra(sc.extraObjects, "G17", ArcLine(ArcDrawn(rt, sc, args.words, cmd == Some("G2"))))
               else sc.extraObjects
  {
    if cmd == Some("G0") || cmd == Some("G1") || cmd == Some("G73") {
      StraightKeepsExtra(rt, sc, args, cmd == Some("G0"));
    } else if cmd == Some("G2") || cmd == Some("G3") {
      ArcExtra(rt, sc, args, cmd == Some("G2"));
    }
  }

  lemma DispatchKeepsPlanes(rt: Runtime, sc: Scene, cmd: Option<string>, args: Args)
    requires PlanesInvariant(sc.extraObjects)
    ensures PlanesInvariant(Dispatch(rt, sc, cmd, args).extraObjects)
  {
    DispatchExtra(rt, sc, cmd, args);
    if cmd == Some("G2") || cmd == Some("G3") {
      var pts := ArcDrawn(rt, sc, args.words, cmd == Some("G2"));
      AppendKeepsPlanes(sc.extraObjects, "G17", ArcLine(pts));
    }
  }

  lemma StepKeepsPlanes(rt: Runtime, st: State, line: string)
    requires PlanesInvariant(st.scene.extraObjects)
    ensures PlanesInvariant(Step(rt, st, line).scene.extraObjects)
  {
    var text := rt.normalise(line);
    if !IsCommentText(text) && rt.stripInline(text) != [] {
      var code := rt.stripTrailing(rt.stripInline(text));
      ModeSplitKeepsPlanes(st.scene, SplitWs(code));
      var (sc1, pending) := ModeSplit(st.scene, SplitWs(code));
      if pending != [] {
        var (cmd, params) := ResolveCommand(st.memory.lastCmd, pending);
        var feed := LastSeen(ScanWord(code, 'F'), st.memory.lastFeedrate, rt.parseFloat);
        DispatchKeepsPlanes(rt, sc1, cmd, Args(WordsOf(params, rt.parseFloat), feed));
      }
    }
  }

  /** Whatever the program, the XZ and YZ lists come back empty and the XY list holds only
      21-point polylines. */
  lemma {:induction false} RunKeepsPlanes(rt: Runtime, lines: seq<string>)
    ensures PlanesInvariant(Run(rt, Initial, lines).scene.extraObjects)
    decreases |lines|
  {
    if lines != [] {
      RunKeepsPlanes(rt, lines[..|lines| - 1]);
      StepKeepsPlanes(rt, Run(rt, Initial, lines[..|lines| - 1]), lines[|lines| - 1]);
    }
  }

  // ---------------------------------------------------------------- progress

  lemma MulCancel(x: int, y: int, d: int)
    requires d > 0 && x * d < y * d
    ensures x < y
  {
  }

  lemma DivMonotone(a: nat, b: nat, d: nat)
    requires a <= b && d > 0
    ensures a / d <= b / d
  {
    assert (a / d) * d <= a;
    assert b < (b / d) * d + d;
    assert (b / d) * d + d == (b / d + 1) * d;
    MulCancel(a / d, b / d + 1, d);
  }

  lemma DivBelow(a: nat, q: nat, d: nat)
    requires d > 0 && a < q * d
    ensures a / d < q
  {
    assert (a / d) * d <= a;
    MulCancel(a / d, q, d);
  }

  /** Each progress value lies between 0 and 100 and grows with the line index. */
  lemma ProgressValueBounds(i: nat, j: nat, n: nat)
    requires i <= j < n
    ensures 0 <= ProgressValue(i, n) <= ProgressValue(j, n) <= 100
  {
    DivMonotone(200 * i + n, 200 * j + n, 2 * n);
    DivBelow(200 * j + n, 101, 2 * n);
  }

  /** One message for every tenth line, counting from the first: ceil(count / 10) in all,
      the first one 0, the k-th the value for line 10 k. */
  lemma {:induction false} ProgressShape(count: nat, n: nat)
    requires 0 < n && count <= n
    ensures |ProgressUpTo(count, n)| == (count + 9) / 10
    ensures forall k :: 0 <= k < |ProgressUpTo(count, n)| ==>
              ProgressUpTo(count, n)[k] == ProgressValue(10 * k, n)
    decreases count
  {
    if count > 0 {
      ProgressShape(count - 1, n);
    }
  }

  /** The messages start at 0, stay within 0..100 and never go down. */
  lemma ProgressSorted(n: nat)
    requires n > 0
    ensures var ps := ProgressUpTo(n, n);
            |ps| > 0 && ps[0] == 0
            && forall k, l :: 0 <= k <= l < |ps| ==> 0 <= ps[k] <= ps[l] <= 100
  {
    ProgressShape(n, n);
    ProgressStartsAtZero(n);
    var ps := ProgressUpTo(n, n);
    forall k, l | 0 <= k <= l < |ps|
      ensures 0 <= ps[k] <= ps[l] <= 100
    {
      TenthBelow(l, n);
      ProgressValueBounds(10 * k, 10 * l, n);
    }
  }

  lemma ProgressStartsAtZero(n: nat)
    requires n > 0
    ensures ProgressValue(0, n) == 0
  {
    DivBelow(n, 1, 2 * n);
  }

  lemma TenthBelow(l: nat, n: nat)
    requires l < (n + 9) / 10
    ensures 10 * l < n
  {
    assert 10 * ((n + 9) / 10) <= n + 9;
  }

  // ---------------------------------------------------------------- lines

  function NewlineCount(s: string): nat
    decreases |s|
  {
    if s == [] then 0 else (if s[0] == '\n' then 1 else 0) + NewlineCount(s[1..])
  }

  lemma {:induction false} NewlineCountAppend(a: string, b: string)
    ensures NewlineCount(a + b) == NewlineCount(a) + NewlineCount(b)
    decreases |a|
  {
    if a != [] {
      assert (a + b)[1..] == a[1..] + b;
      NewlineCountAppend(a[1..], b);
    } else {
      assert a + b == b;
    }
  }

  lemma {:induction false} FirstNewlineFacts(s: string)
    ensures NewlineCount(s[..FirstNewline(s)]) == 0
    ensures FirstNewline(s) < |s| ==> s[FirstNewline(s)] == '\n'
    decreases |s|
  {
    if s != [] && s[0] != '\n' {
      FirstNewlineFacts(s[1..]);
      assert s[..FirstNewline(s)][1..] == s[1..][..FirstNewline(s[1..])];
    }
  }

  lemma DropCrKeepsCount(s: string)
    ensures NewlineCount(DropCr(s)) == NewlineCount(s)
  {
    if |s| > 0 && s[|s| - 1] == '\r' {
      assert s == s[..|s| - 1] + [s[|s| - 1]];
      NewlineCountAppend(s[..|s| - 1], [s[|s| - 1]]);
      assert NewlineCount([s[|s| - 1]]) == 0 by {
        assert [s[|s| - 1]][1..] == [];
      }
    }
  }

  /** A line feed at k splits the count in two. */
  lemma NewlineAt(s: string, k: nat)
    requires k < |s| && s[k] == '\n'
    ensures NewlineCount(s) == NewlineCount(s[..k]) + 1 + NewlineCount(s[k + 1..])
  {
    assert s == s[..k] + s[k..];
    NewlineCountAppend(s[..k], s[k..]);
    assert s[k..][1..] == s[k + 1..];
  }

  /** The split gives one more line than there are line feeds. */
  lemma {:induction false} SplitLinesCount(s: string)
    ensures |SplitLines(s)| == NewlineCount(s) + 1
    decreases |s|
  {
    var k := FirstNewline(s);
    FirstNewlineFacts(s);
    if k == |s| {
      assert s[..k] == s;
    } else {
      SplitLinesCount(s[k + 1..]);
      NewlineAt(s, k);
    }
  }

  /** No line of the split holds a line feed. */
  lemma {:induction false} SplitLinesHaveNoFeed(s: string)
    ensures forall i :: 0 <= i < |SplitLines(s)| ==> NewlineCount(SplitLines(s)[i]) == 0
    decreases |s|
  {
    var k := FirstNewline(s);
    FirstNewlineFacts(s);
    if k == |s| {
      assert s[..k] == s;
    } else {
      SplitLinesHaveNoFeed(s[k + 1..]);
      DropCrKeepsCount(s[..k]);
      var rest := SplitLines(s[k + 1..]);
      assert SplitLines(s) == [DropCr(s[..k])] + rest;
      forall i | 0 <= i < |SplitLines(s)|
        ensures NewlineCount(SplitLines(s)[i]) == 0
      {
        if i > 0 {
          assert SplitLines(s)[i] == rest[i - 1];
        }
      }
    }
  }

  /** Reference definition: s with every "\r\n" replaced by "\n". */
  function CrlfToLf(s: string): string
    decreases |s|
  {
    if s == [] then []
    else if |s| >= 2 && s[0] == '\r' && s[1] == '\n' then "\n" + CrlfToLf(s[2..])
    else [s[0]] + CrlfToLf(s[1..])
  }

  lemma {:induction false} CrlfToLfWithoutFeed(s: string)
    requires FirstNewline(s) == |s|
    ensures CrlfToLf(s) == s
    decreases |s|
  {
    if s != [] {
      assert FirstNewline(s[1..]) == |s| - 1;
      CrlfToLfWithoutFeed(s[1..]);
      assert |s| >= 2 ==> s[1] != '\n';
    }
  }

  lemma DropCrCons(c: char, u: string)
    requires u != [] || c != '\r'
    ensures DropCr([c] + u) == [c] + DropCr(u)
  {
    if u != [] {
      assert ([c] + u)[..|u|] == [c] + u[..|u| - 1];
    }
  }

  /** One step of CrlfToLf on a text that does not start with "\r\n". */
  lemma CrlfToLfCons(s: string)
    requires s != [] && !(|s| >= 2 && s[0] == '\r' && s[1] == '\n')
    ensures CrlfToLf(s) == [s[0]] + CrlfToLf(s[1..])
  {
  }

  /** One step of CrlfToLf on a text that starts with "\r\n". */
  lemma CrlfToLfCrlf(s: string)
    requires |s| >= 2 && s[0] == '\r' && s[1] == '\n'
    ensures CrlfToLf(s) == "\n" + CrlfToLf(s[2..])
  {
  }

  /** Up to the first line feed the text is one line (less a carriage return before the
      feed); the "\r\n" or "\n" there becomes "\n". */
  lemma {:induction false} CrlfToLfAtFirstNewline(s: string)
    requires FirstNewline(s) < |s|
    ensures CrlfToLf(s) == DropCr(s[..FirstNewline(s)]) + "\n" + CrlfToLf(s[FirstNewline(s) + 1..])
    decreases |s|, 1
  {
    var k := FirstNewline(s);
    if k == 0 {
      assert s[0] == '\n';
      FeedFirst(s);
    } else if k == 1 && s[0] == '\r' {
      assert s[1] == '\n';
      CrlfFirst(s);
    } else {
      FeedLater(s);
    }
  }

  lemma FeedFirst(s: string)
    requires s != [] && s[0] == '\n'
    ensures CrlfToLf(s) == DropCr(s[..0]) + "\n" + CrlfToLf(s[1..])
  {
    CrlfToLfCons(s);
    assert s[..0] == [];
  }

  lemma CrlfFirst(s: string)
    requires |s| >= 2 && s[0] == '\r' && s[1] == '\n'
    ensures CrlfToLf(s) == DropCr(s[..1]) + "\n" + CrlfToLf(s[2..])
  {
    assert s[..1] == ['\r'];
    assert DropCr(s[..1]) == [];
    CrlfToLfCrlf(s);
  }

  lemma {:induction false} FeedLater(s: string)
    requires 0 < FirstNewline(s) < |s| && !(FirstNewline(s) == 1 && s[0] == '\r')
    ensures CrlfToLf(s) == DropCr(s[..FirstNewline(s)]) + "\n" + CrlfToLf(s[FirstNewline(s) + 1..])
    decreases |s|, 0
  {
    var k := FirstNewline(s);
    var t := s[1..];
    assert s[0] != '\n' && FirstNewline(t) == k - 1;
    assert s[0] == '\r' ==> t[0] != '\n';
    CrlfToLfAtFirstNewline(t);
    assert s == [s[0]] + t;
    ConsBeforeFeed(s[0], t, k);
  }

  /** A character that does not start a line break, put before a text whose first line
      feed is at k - 1, keeps the split at the feed. */
  lemma ConsBeforeFeed(c: char, t: string, k: nat)
    requires 0 < k <= |t| && c != '\n' && !(c == '\r' && t[0] == '\n') && (k == 1 ==> c != '\r')
    requires CrlfToLf(t) == DropCr(t[..k - 1]) + "\n" + CrlfToLf(t[k..])
    ensures CrlfToLf([c] + t) == DropCr(([c] + t)[..k]) + "\n" + CrlfToLf(([c] + t)[k + 1..])
  {
    ConsSlices(c, t, k);
    DropCrCons(c, t[..k - 1]);
    CrlfToLfCons([c] + t);
    ConsAppend(c, DropCr(t[..k - 1]), "\n", CrlfToLf(t[k..]));
  }

  /** The split loses nothing but the carriage returns of "\r\n" breaks: joining the lines
      with "\n" gives the text with each "\r\n" turned into "\n". */
  lemma {:induction false} SplitLinesJoin(s: string)
    ensures JoinWith(SplitLines(s), "\n") == CrlfToLf(s)
    decreases |s|
  {
    var k := FirstNewline(s);
    if k == |s| {
      assert s[..k] == s;
      CrlfToLfWithoutFeed(s);
    } else {
      var rest := SplitLines(s[k + 1..]);
      SplitLinesJoin(s[k + 1..]);
      CrlfToLfAtFirstNewline(s);
      assert SplitLines(s) == [DropCr(s[..k])] + rest;
      assert ([DropCr(s[..k])] + rest)[1..] == rest;
    }
  }

  // ---------------------------------------------------------------- lines by their text

  /** A line with no mode word leaves the scene to the command. */
  lemma {:induction false} ModeSplitWithoutModes(sc: Scene, tokens: seq<string>)
    requires forall i :: 0 <= i < |tokens| ==> ModeOf(Upper(tokens[i])).None?
    ensures ModeSplit(sc, tokens) == (sc, tokens)
    decreases |tokens|
  {
    if tokens != [] {
      var n := |tokens| - 1;
      assert ModeOf(Upper(tokens[n])).None?;
      ModeSplitWithoutModes(sc, tokens[..n]);
      assert tokens[..n] + [tokens[n]] == tokens;
    }
  }

  /** A line of coordinates only, after a G1 line: it repeats G1, so the tool moves to the
      target the words give (see MoveTargetAxes) and one point with g 1 is added there. */
  lemma CoordinateLineRepeatsMove(rt: Runtime, st: State, line: string)
    requires HasCode(rt, line)
    requires var ts := SplitWs(CodeOf(rt, line));
             ts != [] && (forall i :: 0 <= i < |ts| ==> ModeOf(Upper(ts[i])).None?) && !IsCommandWord(Upper(ts[0]))
    requires st.memory.lastCmd == Some("G1")
    ensures var st1 := Step(rt, st, line);
            var words := WordsOf(SplitWs(CodeOf(rt, line)), rt.parseFloat);
            st1.memory.lastCmd == Some("G1")
            && st1.scene == Straight(rt, st.scene, Args(words, st1.memory.lastFeedrate), false)
            && st1.scene.lastLine == MoveTarget(st.scene, words, Feed)
  {
    ModeSplitWithoutModes(st.scene, SplitWs(CodeOf(rt, line)));
  }

  /** A line whose text is one word: not a comment, and that word is its only token. */
  lemma OneWordText(rt: Runtime, line: string, word: string)
    requires word != [] && NoSpace(word) && !IsCommentText(word)
    requires rt.normalise(line) == word && rt.stripInline(word) == word && rt.stripTrailing(word) == word
    ensures HasCode(rt, line) && CodeOf(rt, line) == word && SplitWs(CodeOf(rt, line)) == [word]
  {
    SplitWsOfWord(word);
  }

  /** A line without mode words goes to the command part with all its tokens. */
  lemma PlainLineStep(rt: Runtime, st: State, line: string)
    requires HasCode(rt, line)
    requires var ts := SplitWs(CodeOf(rt, line));
             ts != [] && forall i :: 0 <= i < |ts| ==> ModeOf(Upper(ts[i])).None?
    ensures Step(rt, st, line) == Command(rt, st.scene, st.memory, CodeOf(rt, line), SplitWs(CodeOf(rt, line)))
  {
    ModeSplitWithoutModes(st.scene, SplitWs(CodeOf(rt, line)));
  }

  lemma G1Word()
    ensures NoSpace("G1") && !IsCommentText("G1") && Upper("G1") == "G1" && IsCommandWord("G1")
    ensures ModeOf("G1") == None
  {
    assert "G1" !in NoOpModeWords;
  }

  lemma X10Word()
    ensures NoSpace("X10") && !IsCommentText("X10") && Upper("X10") == "X10" && !IsCommandWord("X10")
    ensures ModeOf("X10") == None
  {
    assert "X10" !in NoOpModeWords;
  }

  /** The command part of a line whose only token is G1. */
  lemma G1Command(rt: Runtime, sc: Scene, m: Memory, code: string)
    ensures var st1 := Command(rt, sc, m, code, ["G1"]);
            st1.memory.lastCmd == Some("G1")
            && st1.scene == Straight(rt, sc, Args(map[], st1.memory.lastFeedrate), false)
  {
    G1Word();
    var empty: seq<string> := [];
    assert ["G1"][0] == "G1" && ["G1"][1..] == empty;
    assert ResolveCommand(m.lastCmd, ["G1"]) == (Some("G1"), empty);
  }

  /** A line that is the word `G1` alone: a G1 move with no axis words, so one point with
      g 1 where the tool already is; G1 is remembered. */
  lemma BareG1Line(rt: Runtime, st: State)
    requires rt.normalise("G1") == "G1" && rt.stripInline("G1") == "G1" && rt.stripTrailing("G1") == "G1"
    ensures var st1 := Step(rt, st, "G1");
            st1.memory.lastCmd == Some("G1")
            && st1.scene == Straight(rt, st.scene, Args(map[], st1.memory.lastFeedrate), false)
  {
    G1Word();
    OneWordText(rt, "G1", "G1");
    PlainLineStep(rt, st, "G1");
    G1Command(rt, st.scene, st.memory, "G1");
  }

  lemma X10Words(parse: string -> real)
    requires parse("10") == 10.0
    ensures WordsOf(["X10"], parse) == map['x' := 10.0]
  {
    assert ["X10"][..0] == [] && "X10"[1..] == "10";
  }

  lemma RunTwo(rt: Runtime, st: State, first: string, second: string)
    ensures Run(rt, st, [first, second]) == Step(rt, Step(rt, st, first), second)
  {
    var both := [first, second];
    assert both[..1] == [first] && both[1] == second;
    assert Run(rt, st, both) == Step(rt, Run(rt, st, [first]), second);
    assert [first][..0] == [] && [first][0] == first;
    assert Run(rt, st, [first]) == Step(rt, Run(rt, st, []), first);
  }

  /** `G1` alone from the start: one g 1 point at the origin, G1 remembered, and the
      modes and offsets still those of the start. */
  lemma G1FromStart(rt: Runtime)
    requires rt.normalise("G1") == "G1" && rt.stripInline("G1") == "G1" && rt.stripTrailing("G1") == "G1"
    ensures var st1 := Step(rt, Initial, "G1");
            st1.memory.lastCmd == Some("G1") && !st1.scene.relative && st1.scene.offsets.x == 0.0
            && st1.scene.lastLine.Xyz() == Vec3(0.0, 0.0, 0.0) && |st1.scene.linePoints| == 1
  {
    BareG1Line(rt, Initial);
  }

  /** `X10` after a G1 line in absolute mode without an X offset: a G1 move to X 10 that
      keeps y and z, adding one g 1 point there. */
  lemma X10AfterG1(rt: Runtime, st: State)
    requires rt.normalise("X10") == "X10" && rt.stripInline("X10") == "X10" && rt.stripTrailing("X10") == "X10"
    requires rt.parseFloat("10") == 10.0
    requires st.memory.lastCmd == Some("G1") && !st.scene.relative && st.scene.offsets.x == 0.0
    ensures var sc := Step(rt, st, "X10").scene;
            var target := Vec3(10.0, st.scene.lastLine.y, st.scene.lastLine.z);
            sc.lastLine.Xyz() == target && |sc.linePoints| == |st.scene.linePoints| + 1
            && sc.linePoints[|st.scene.linePoints|].MovePoint? && sc.linePoints[|st.scene.linePoints|].G() == 1
            && sc.linePoints[|st.scene.linePoints|].pos == target
  {
    X10Word();
    OneWordText(rt, "X10", "X10");
    X10Words(rt.parseFloat);
    CoordinateLineRepeatsMove(rt, st, "X10");
    StraightAddsOnePoint(rt, st.scene, Args(map['x' := 10.0], Step(rt, st, "X10").memory.lastFeedrate), false);
  }

  /** `G1` then `X10` from the start: the second line has no command, so it repeats G1;
      the tool ends at (10, 0, 0), and each line adds one point, the second a g 1 point
      at (10, 0, 0). */
  lemma G1ThenCoordinate(rt: Runtime)
    requires rt.normalise("G1") == "G1" && rt.stripInline("G1") == "G1" && rt.stripTrailing("G1") == "G1"
    requires rt.normalise("X10") == "X10" && rt.stripInline("X10") == "X10" && rt.stripTrailing("X10") == "X10"
    requires rt.parseFloat("10") == 10.0
    ensures var sc := Run(rt, Initial, ["G1", "X10"]).scene;
            |sc.linePoints| == 2 && sc.lastLine.Xyz() == Vec3(10.0, 0.0, 0.0)
            && sc.linePoints[1].MovePoint? && sc.linePoints[1].G() == 1
            && sc.linePoints[1].pos == Vec3(10.0, 0.0, 0.0)
  {
    RunTwo(rt, Initial, "G1", "X10");
    G1FromStart(rt);
    X10AfterG1(rt, Step(rt, Initial, "G1"));
  }

  // ---------------------------------------------------------------- the R form as written

  /** The parameter words of `G2 X10 Y0 R5`. */
  const RFormWords: map<char, real> := map['x' := 10.0, 'y' := 0.0, 'r' := 5.0]

  /** `G2 X10 Y0 R5` from the origin: as written the line raises a ReferenceError at line
      411; with the radius declared, the centre is the R-form centre of the chord from
      (0, 0, 0) to (10, 0, 0) with radius 5 (see ArcGeometry.RCentreOnCircle). */
  lemma RFormAsWrittenRaises(rt: Runtime, sc: Scene)
    requires sc.lastLine.Xyz() == Vec3(0.0, 0.0, 0.0) && !sc.relative
    requires sc.offsets == Offsets(0.0, 0.0, 0.0, 0.0)
    ensures ArcCentreAsWritten(rt, sc, MoveTarget(sc, RFormWords, ArcMove), RFormWords, true).None?
    ensures ArcCentre(rt, sc, MoveTarget(sc, RFormWords, ArcMove), RFormWords, true)
            == RCentre(rt, Vec3(0.0, 0.0, 0.0), Vec3(10.0, 0.0, 0.0), 5.0, true)
  {
    assert MoveTarget(sc, RFormWords, ArcMove).Xyz() == Vec3(10.0, 0.0, 0.0);
  }

  // ---------------------------------------------------------------- arcs without I and J

  /** An arc with neither R, I nor J words has its centre on the start in XY (arci and
      arcj default to the last x and y), so its start angle is NaN and, even when it ends
      where it began, it is not drawn as a full turn. */
  lemma ArcWithoutIjNoFullTurn(rt: Runtime, sc: Scene, args: Args, clockwise: bool)
    requires 'r' !in args.words && 'i' !in args.words && 'j' !in args.words
    ensures var p2 := MoveTarget(sc, args.words, ArcMove);
            var c := ArcCentre(rt, sc, p2, args.words, clockwise);
            !AngleDefined(c, sc.lastLine.Xyz())
            && ArcCurveOf(rt, sc, p2, args.words, clockwise).endAngle == AngleOf(rt, c, p2.Xyz())
  {
    var p2 := MoveTarget(sc, args.words, ArcMove);
    var c := ArcCentre(rt, sc, p2, args.words, clockwise);
    CentreOnEndNoFullTurn(rt, sc.lastLine.Xyz(), p2.Xyz(), c, clockwise);
  }
}

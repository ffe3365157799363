# G-code toolpath interpreter

This project models the G-code interpreter of the viewer's background worker,
`src/workers/gcview.worker.js`. It has two parts:

- **`GCodeParser`** normalises each line and runs the mode words on it at once.
  It then resolves the command, reusing the last one when the line starts with a
  coordinate. It collects the parameter words and remembers F, S and T last-seen-wins.
  Finally it calls the command's handler or the default handler.
- **`createObjectFromGCode`** holds the machine state those handlers update.
  G0, G1 and G73 add one point per move. G2 and G3 add a 21-point arc, drawn under
  `extraObjects.G17`. G92 rebases the offsets. M30 and the default handler add a
  "fake" point at the unchanged position. M3..M8 record events. The state also tracks
  the units and distance modes, and the distance and time totals.

The modules:

- `GCode` (gcode.dfy) is the shared vocabulary. Its `Runtime` record holds the library
  routines the model keeps abstract.
- `Lexing` (lexing.dfy) is the text handling: `split(/\s+/)`, the comment and
  command tests, the mode-handler table, the parameter words and the F/S/T scan.
- `ArcGeometry` (arc_geometry.dfy) covers the arc centre (R form and IJK form),
  the curve handed to drawArc, its 21-point polyline and the polyline's length.
- `Machine` (machine.dfy) is the interpreter as functions over values:
  - `Scene` holds the variables of createObjectFromGCode.
  - `Memory` is what the parser remembers between lines.
  - `Step` is one line of parseLine.
  - `Run` and `Interpret` run a whole program.
  - `ProgressUpTo` gives the progress values posted.
- `MachineProperties` (machine_properties.dfy) holds the lemmas about those functions.
- `Interpreter` (interpreter.dfy) is the imperative form:
  - class `Toolpath` has the fields the handlers update in place;
  - class `GCodeParser` has `lastArgs.cmd`, `lastFeedrate`, `lastsvalue` and `lasttool`;
  - `CreateObjectFromGCode` ties them together.

  Each method is proved to leave its object in the state the `Machine` function of
  the same operation computes.

Three behaviours of the code that are easy to miss, all kept in the model:

- A line made only of mode words, such as `G90` or `M3`, adds no point. Only the
  tokens left after the mode handlers reach the command part (gcview.worker.js:77).
- `M09` is a mode word whose handler does nothing (line 990). `M9` is not in the mode
  table, so it becomes the command, and the default handler (lines 875-879) adds a
  fake point.
- The progress value is `toFixed(0)` of the percentage (lines 190-191), which rounds
  half up rather than down.

## Model

| member | source | states |
|---|---|---|
| Lexing.SplitWsPieces | src/workers/gcview.worker.js:68 | `split(/\s+/)` gives at least one piece, and no piece contains whitespace |
| Lexing.SplitWsKeepsText | src/workers/gcview.worker.js:68 | the pieces, put back together, are the line with only its whitespace removed: nothing else is lost, added or reordered |
| Lexing.SplitWsOfWord | src/workers/gcview.worker.js:68 | a line without whitespace is a single token |
| Lexing.SplitWsJoin | src/workers/gcview.worker.js:68 | joining the pieces with one space gives the line with every maximal whitespace run collapsed to one space; as no piece holds whitespace, the pieces are exactly the runs between those spaces ("G1 X5" splits only as ["G1", "X5"]) |
| Lexing.SplitWsInnerPieces | src/workers/gcview.worker.js:68 | only the first and the last piece can be empty (a leading or trailing whitespace run); every piece in between is non-empty |
| Lexing.WordsOfLastWins | src/workers/gcview.worker.js:102-113 | a key is set iff some parameter token starts with that letter (either case); its value is parseFloat of the rest of the last such token |
| Lexing.NumRun | src/workers/gcview.worker.js:125 | the capture of `[\d.]+` is the longest prefix of digits and dots |
| Lexing.ScanWordLeftmost | src/workers/gcview.worker.js:125-154 | the F/S/T scan fails iff the letter, in either case, never stands before a digit or dot; otherwise it captures the run after the leftmost such letter |
| ArcGeometry.OrderByTurn | src/workers/gcview.worker.js:497-504 | the two candidate centres come back in some order, the cw one having the larger or equal shoelace sum; a tie names pArc_1 cw |
| ArcGeometry.ArcPolyline | src/workers/gcview.worker.js:287-292 | the arc's polyline (`getPoints(20)`) has 21 points |
| ArcGeometry.ArcPolylineShape | src/workers/gcview.worker.js:283-292 | the polyline's z runs from the start z to the end z in 20 equal steps; point i's x and y are the curve's point at i/20 |
| ArcGeometry.NormalOffsetOnCircle | src/workers/gcview.worker.js:487-496 | a point moved from the chord's midpoint along its normal by t, with t²q² = r² − q²/4, is at distance r from both ends |
| ArcGeometry.OffsetMidpointOnCircle | src/workers/gcview.worker.js:487-496 | both R-form candidates `mid ± calc·normal/q` lie at squared distance r² from both ends of an XY move |
| ArcGeometry.CandidateOnCircle | src/workers/gcview.worker.js:411-496 | with an exact square root and a non-negative discriminant, each candidate centre is at distance r from both ends of an XY move |
| ArcGeometry.RCentreOnCircle | src/workers/gcview.worker.js:407-509 | the R-form centre the arc uses is at distance r from the start and the end of an XY move |
| ArcGeometry.OffsetMidpointDegenerate | src/workers/gcview.worker.js:419-440 | a zero offset puts the candidate at the chord's midpoint |
| ArcGeometry.ClampedCentreIsMidpoint | src/workers/gcview.worker.js:434-440 | a negative discriminant (NaN square root) is clamped to 0, so the centre is the chord's midpoint |
| ArcGeometry.RCentreDirections | src/workers/gcview.worker.js:507-508 | G2 and G3 take opposite candidates; for r ≠ 0, G2 with R r and G3 with R −r take the same centre |
| ArcGeometry.ClosedArcIsFullTurn | src/workers/gcview.worker.js:329-368 | a move ending at its start's x and y draws a full turn (end angle = start angle + 2π) exactly when the centre is off the start in XY; with the centre on it, `atan(0/0)` is NaN and `NaN === NaN` fails, so no turn is added; the radius is the distance from the centre to the start, in the given direction |
| ArcGeometry.CentreOnEndNoFullTurn | src/workers/gcview.worker.js:329-380 | a centre on the start or the end in XY makes an angle NaN, so the curve never gets the extra 2π: it runs from the start angle to the end angle as computed |
| MachineProperties.ArcWithoutIjNoFullTurn | src/workers/gcview.worker.js:809-812 | an arc with no R, I or J word has its centre on the start in XY (arci and arcj default to the last x and y), so it is never drawn as a full turn |
| ArcGeometry.PolylineLengthNonNegative | src/workers/gcview.worker.js:620-630 | the summed length of the polyline (tad2) is never negative when square roots are not |
| Machine.Fr | src/workers/gcview.worker.js:569-574 | the feedrate divided by is always positive; it is the line's feedrate whenever that is positive, and it equals the fallback (100, or 1000 per arc point) exactly when the line has no positive feedrate or its feedrate is the fallback itself |
| Machine.TimeFor | src/workers/gcview.worker.js:656-671 | a time increment is never negative and is positive iff the distance is; for a positive distance it is 1.32 · distance / feedrate, the feedrate being the line's when positive, else the fallback (100 per straight move, 1000 per arc point) |
| Machine.ArcPoints | src/workers/gcview.worker.js:566-607 | an arc adds one linePoints entry per polyline point |
| Machine.ArcCentreAsWritten | src/workers/gcview.worker.js:407-411 | the R-form branch as written: an R word raises a ReferenceError (None) because `radius` is undeclared in strict module code; without an R word the IJK centre is the one the model uses |
| Machine.SplitLines | src/workers/gcview.worker.js:185 | `split(/\r{0,1}\n/)` always gives at least one line |
| MachineProperties.MoveTargetAxes | src/workers/gcview.worker.js:758-767 | each of x, y, z and e becomes `(relative ? last + v : v) + offsetG92` when its word is present and stays the last value when it is absent; the motion flag is the handler's |
| MachineProperties.MissingWordsKeepAxes | src/workers/gcview.worker.js:781-790 | a move without X, Y, Z and E words keeps the position and e exactly |
| MachineProperties.ANaNSticks | src/workers/gcview.worker.js:762 | the A axis is NaN after a move iff it was NaN before or the move has an A word (offsetG92 has no `a`); without an A word it is kept |
| MachineProperties.SetPositionKeepsPosition | src/workers/gcview.worker.js:845-870 | G92 keeps the position and the totals; each named axis offset becomes `current − v` (the `=== 0` branch gives the same value); each unnamed one becomes 0; one fake point is added at the current position; the distance, IJK and units modes and extraObjects are unchanged |
| MachineProperties.G92Rebases | src/workers/gcview.worker.js:845-870 | after `G92 Xv` an absolute `X w` move lands at `w + current − v` |
| MachineProperties.G92Example | src/workers/gcview.worker.js:856 | `G1 X5`, `G92 X0`, `G1 X5` ends at x = 10 |
| MachineProperties.RelativeMovesRepeatOffset | src/workers/gcview.worker.js:712-714 | in relative mode each move adds the G92 offset again: two moves by d go 2·(d + offset) |
| MachineProperties.FakePointRemembersMotion | src/workers/gcview.worker.js:730-738 | a fake point after G0, G1 or an arc carries g = 0, 1 or 2 |
| MachineProperties.StraightAddsOnePoint | src/workers/gcview.worker.js:642-704 | G0/G1 append exactly one move point, at the new position with its A, g 0 for G0 and 1 for G1, and the time 1.32·dist/F (F the feedrate or 100); earlier points are kept; dist is added to totalDist when positive and the time to totalTime; extraObjects is unchanged |
| MachineProperties.ArcAddsItsPolyline | src/workers/gcview.worker.js:529-607 | G2/G3 append one 21-point line under G17 (earlier entries kept), running from the start z to the end z; they append exactly 21 points, point i being an arc point (g 2) at the line's vertex i with the target's A and the time of chord/21 at the feedrate or 1000; totalDist grows by the polyline's length when positive |
| MachineProperties.ArcTimeCountsChordAndPolyline | src/workers/gcview.worker.js:558-672 | with a positive feedrate, an arc's time counts the chord (21 × chord/21) and the polyline's length once more: 1.32·(chord + length)/F |
| MachineProperties.DispatchAppends | src/workers/gcview.worker.js:750-880 | every handler appends 21 points for G2/G3 and 1 otherwise, keeping the earlier ones; the totals never decrease |
| MachineProperties.DefaultHandlerAddsFakePoint | src/workers/gcview.worker.js:845-879 | G92, M30 and any unknown or missing command add one fake point at the unchanged position; they change neither totals, nor extraObjects, nor the distance, IJK and units modes, and only G92 changes the offsets |
| MachineProperties.DispatchKeepsModes | src/workers/gcview.worker.js:750-880 | no command handler changes `relative`, `ijkrelative` or `isUnitsMm`; only mode words do |
| MachineProperties.ModeSplitPending | src/workers/gcview.worker.js:68-75 | the tokens left for the command are exactly the non-mode tokens, in order |
| MachineProperties.ModeSplitKeepsMotion | src/workers/gcview.worker.js:68-75 | running a line's mode words never moves, adds a point, or touches the offsets or totals |
| MachineProperties.ModeSplitMarkers | src/workers/gcview.worker.js:966-989 | each M3..M8 word appends, under its key, a marker at the position before the line's move, in order and without de-duplication |
| MachineProperties.ModeTouchesOnlyItsField | src/workers/gcview.worker.js:896-963 | G90/G91 set only `relative`, G90.1/G91.1 only `ijkrelative`, G20/G21 only `isUnitsMm`; only M3..M8 touch extraObjects |
| MachineProperties.DistanceModesCommute | src/workers/gcview.worker.js:931-963 | the distance mode and the IJK mode are independent: setting them in either order gives the same state |
| MachineProperties.PlaneWordsChangeNothing | src/workers/gcview.worker.js:884-894 | G17, G18 and G19 are mode words that change no state |
| MachineProperties.UnitsAfterNone | src/workers/gcview.worker.js:896-910 | tokens without a G20 or G21 word leave the units as they were |
| MachineProperties.UnitsAfterLast | src/workers/gcview.worker.js:896-910 | otherwise the last G20 or G21 word (either case) decides: millimetres iff it is G21 |
| MachineProperties.ModeSplitUnits | src/workers/gcview.worker.js:68-75 | running a line's mode words leaves the units of its last units word, or the units before |
| MachineProperties.StepUnits | src/workers/gcview.worker.js:31-178 | a line, whatever its command, leaves the units of the last units word among its tokens, or the units before (comment lines have no tokens) |
| MachineProperties.RunUnits | src/workers/gcview.worker.js:180-201 | after a program the units are those of the last units word over all its lines' tokens, or the starting units |
| MachineProperties.InchesAfter | src/workers/gcview.worker.js:896-910 | starting in millimetres, a token sequence ends in inches iff it has a units word and its last one is G20 |
| MachineProperties.InchReportsUnits | src/workers/gcview.worker.js:1026-1039 | the result's `inch` is true iff the program has a G20 or G21 word and the last one is G20; with none, or G21 last, it is false |
| MachineProperties.ModeOnlyLineAddsNoPoint | src/workers/gcview.worker.js:77 | a line made only of mode words adds no point and leaves the remembered command and F/S/T alone |
| MachineProperties.CommentLineAddsFakePoint | src/workers/gcview.worker.js:50-61 | a comment line, or one that is empty once inline comments are removed, adds exactly one fake point and changes nothing else |
| MachineProperties.CoolantOffWithZero | src/workers/gcview.worker.js:990 | a line `M09` changes nothing at all |
| MachineProperties.CoolantOffWithoutZero | src/workers/gcview.worker.js:875-879 | a line `M9` adds one fake point and becomes the remembered command |
| MachineProperties.BareCommandWord | src/workers/gcview.worker.js:114-117 | a lone command word other than a move or G92 adds one fake point and is remembered as the command |
| MachineProperties.CommandResolution | src/workers/gcview.worker.js:78-88 | a first token starting with G/M/T/S is the command and the rest are parameters; otherwise the last command is reused and every token is a parameter |
| MachineProperties.NoCommandYet | src/workers/gcview.worker.js:85-88 | coordinates with no earlier command go to the default handler: one fake point, and the command stays null |
| MachineProperties.CommandRemembers | src/workers/gcview.worker.js:114-156 | F, S and T are each kept when the line has no such word, and set to parseFloat of the capture after the leftmost match when it has one; the command is remembered; the handler sees the line's words and feedrate |
| MachineProperties.LastSeenFromText | src/workers/gcview.worker.js:125-133 | a letter that never stands before a digit or dot keeps the remembered value; otherwise the capture exists and the remembered value becomes its parsed value |
| MachineProperties.LastSomeLast | src/workers/gcview.worker.js:125-133 | the reference fold for last-seen-wins: with no value present it gives the initial one, otherwise the last present value |
| MachineProperties.StepFeedrate | src/workers/gcview.worker.js:114-133 | a line that reaches a handler with an F match sets the remembered feedrate to its parsed capture; every other line (comments, mode words only, no F) keeps it |
| MachineProperties.RunFeeds | src/workers/gcview.worker.js:180-201 | the feedrate remembered after a program is that fold over the lines' parsed F captures |
| MachineProperties.RunFeedrate | src/workers/gcview.worker.js:125-133 | last-seen-wins across lines: with no line reaching a handler with an F match the feedrate is unchanged; otherwise it is the parsed capture of the last such line |
| MachineProperties.StepAppends | src/workers/gcview.worker.js:31-178 | one line appends 0, 1 or 21 points, keeping the earlier ones; the totals never decrease; a remembered command or feedrate is never forgotten |
| MachineProperties.StepExtends | src/workers/gcview.worker.js:31-178 | a line only extends linePoints (at most 21 more) and never lowers a total |
| MachineProperties.RunExtends | src/workers/gcview.worker.js:188-201 | a program only extends linePoints, by at most 21 per line, and its totals never decrease |
| MachineProperties.AppendKeepsPlanes | src/workers/gcview.worker.js:249-300 | pushing a marker under m3..m8, or a 21-point line under G17, keeps the G17/G18/G19 shape |
| MachineProperties.ModeSplitKeepsPlanes | src/workers/gcview.worker.js:966-989 | mode words keep G18 and G19 empty and G17 made of 21-point arc lines |
| MachineProperties.DispatchExtra | src/workers/gcview.worker.js:750-880 | only G2 and G3 change extraObjects, each appending its drawn polyline under G17 |
| MachineProperties.DispatchKeepsPlanes | src/workers/gcview.worker.js:750-880 | handlers keep G18 and G19 empty and G17 made of 21-point arc lines |
| MachineProperties.StepKeepsPlanes | src/workers/gcview.worker.js:31-178 | one line keeps G18 and G19 empty and G17 made of 21-point arc lines |
| MachineProperties.RunKeepsPlanes | src/workers/gcview.worker.js:249-252 | for every program, G18 and G19 stay empty (arcs always take the G17 branch) and every G17 entry is a 21-point line |
| MachineProperties.ProgressValueBounds | src/workers/gcview.worker.js:190-191 | every progress value lies in 0..100 and grows with the line index |
| MachineProperties.ProgressShape | src/workers/gcview.worker.js:188-195 | before line c, ⌈c/10⌉ messages have been posted, the k-th carrying the value for line 10k |
| MachineProperties.ProgressSorted | src/workers/gcview.worker.js:188-195 | a whole program posts messages starting at 0, each within 0..100 and never decreasing |
| MachineProperties.SplitLinesCount | src/workers/gcview.worker.js:185 | the program has one more line than it has line feeds |
| MachineProperties.SplitLinesHaveNoFeed | src/workers/gcview.worker.js:185 | no line holds a line feed |
| MachineProperties.CrlfToLfAtFirstNewline | src/workers/gcview.worker.js:185 | up to the first line feed the text is one line, less a carriage return before the feed, and the break becomes one "\n" |
| MachineProperties.SplitLinesJoin | src/workers/gcview.worker.js:185 | joining the lines with "\n" gives the text with every "\r\n" turned into "\n": the split loses only the breaks' carriage returns, and nothing is added or reordered |
| MachineProperties.ModeSplitWithoutModes | src/workers/gcview.worker.js:68-75 | a line without mode words leaves the scene as it was and all its tokens to the command |
| MachineProperties.PlainLineStep | src/workers/gcview.worker.js:31-178 | such a line is handled by the command part with all its tokens |
| MachineProperties.CoordinateLineRepeatsMove | src/workers/gcview.worker.js:78-88 | a line of coordinates only (no mode word, first token not G/M/T/S) after G1 repeats G1: it keeps G1 remembered, performs a G1 move with the line's words and ends at MoveTarget of those words |
| MachineProperties.BareG1Line | src/workers/gcview.worker.js:78-117 | the line `G1` alone remembers G1 and performs a G1 move with no axis words |
| MachineProperties.G1FromStart | src/workers/gcview.worker.js:78-117 | `G1` from the start state adds one point at the origin, remembers G1 and keeps absolute mode and zero offsets |
| MachineProperties.X10AfterG1 | src/workers/gcview.worker.js:78-88 | `X10` after G1 in absolute mode without an X offset moves to x 10 keeping y and z, adding one g-1 move point there |
| MachineProperties.G1ThenCoordinate | src/workers/gcview.worker.js:78-88 | the program `G1`, `X10` ends at (10, 0, 0) with two points, the second a g-1 move point at (10, 0, 0) |
| MachineProperties.RFormAsWrittenRaises | src/workers/gcview.worker.js:407-411 | on `G2 X10 Y0 R5` from the origin the code as written raises at line 411, while the corrected model takes the R-form centre of the chord from (0, 0, 0) to (10, 0, 0) with radius 5 |
| Interpreter.ParamWords | src/workers/gcview.worker.js:102-113 | the parameter loop builds the key/value map that WordsOf describes |
| Interpreter.ArcLength | src/workers/gcview.worker.js:620-630 | the tad2 loop computes the polyline's length |
| Interpreter.Toolpath.constructor | src/workers/gcview.worker.js:214-271 | the starting state: origin, absolute, IJK relative, millimetres, no points, empty G17/G18/G19, zero totals |
| Interpreter.Toolpath.AddFakeSegment | src/workers/gcview.worker.js:721-748 | appends the fake point and changes nothing else |
| Interpreter.Toolpath.AddTotals | src/workers/gcview.worker.js:649-672 | adds the distance when positive and its time at the feedrate or 100; returns that time |
| Interpreter.Toolpath.AddStraightSegment | src/workers/gcview.worker.js:642-704 | the straight branch of addSegment |
| Interpreter.Toolpath.DrawArc | src/workers/gcview.worker.js:273-303 | returns the 21-point polyline and pushes it under G17, changing nothing else |
| Interpreter.Toolpath.AddArcPoints | src/workers/gcview.worker.js:566-607 | pushes one point per polyline point, each with the chord-share time, and adds those times to totalTime |
| Interpreter.Toolpath.AddArcSegment | src/workers/gcview.worker.js:384-678 | the arc branch of addSegment |
| Interpreter.Toolpath.MoveStraight | src/workers/gcview.worker.js:755-795 | the G0 and G1 handlers (G73 runs G1) |
| Interpreter.Toolpath.MoveArc | src/workers/gcview.worker.js:796-836 | the G2 handler, and G3 as G2 with clockwise false |
| Interpreter.Toolpath.SetG92 | src/workers/gcview.worker.js:845-870 | the G92 handler |
| Interpreter.Toolpath.Handle | src/workers/gcview.worker.js:114-156 | the command's handler when there is one, the default handler otherwise |
| Interpreter.Toolpath.RunMode | src/workers/gcview.worker.js:883-1023 | one mode handler |
| Interpreter.GCodeParser.constructor | src/workers/gcview.worker.js:21-29 | nothing remembered yet, over the given toolpath |
| Interpreter.GCodeParser.RunModeWords | src/workers/gcview.worker.js:68-75 | runs the mode words in order and returns the other tokens, as ModeSplit describes |
| Interpreter.GCodeParser.ParseLine | src/workers/gcview.worker.js:31-178 | parseLine: the new parser and toolpath state is Step of the old |
| Interpreter.GCodeParser.ParseLineOf | src/workers/gcview.worker.js:198 | parsing line i extends the run of lines 0..i−1 by that line |
| Interpreter.GCodeParser.Parse | src/workers/gcview.worker.js:180-203 | every line parsed in order, reaching Run of the split program; the progress values posted are ProgressUpTo |
| Interpreter.CreateObjectFromGCode | src/workers/gcview.worker.js:211-1042 | returns Interpret of the program, plus the progress messages |

## Left out

- The regular-expression rewrites of parseLine are abstract `Runtime` routines:
  - `normalise` covers the line-number strip, the G0x collapse and the spacing rules (lines 35-48);
  - `stripInline` removes inline `(...)` comments (line 57);
  - `stripTrailing` removes a trailing `;` or `(` comment (line 62).

  What they do to the text is not modelled.
- parseFloat, Math.sqrt, Math.atan of a quotient and THREE.ArcCurve.getPoint are also abstract `Runtime` routines. They are library code.
- Floating point is not modelled. Coordinates are exact reals. The Float32 buffer that the tad2 loop reads the polyline back from (lines 295, 621-623) is not modelled, so the length is summed over the exact points.
- NaN is modelled only for the A axis and for the full-turn test of an arc (see ArcGeometry.CentreOnEndNoFullTurn). When an angle is NaN the source's curve carries NaN angles, while the model keeps the abstract arctangent of 0/0 as the angle; the polyline drawn from such a curve is not modelled. In the source, a zero-length R-form chord divides by zero and gives NaN. The model uses a quotient of 0 there, so the centre is the chord's midpoint. NaN coming from parseFloat on malformed numbers is not modelled.
- The G18 and G19 branches of the arc code (lines 321-328, 347-350, 361-366, 372-377, 444-485) are not modelled. `args.plane` is never set, so they cannot run.
- The angle at line 455 is not modelled either. It is computed only in the G18 branch and never used.
- Rendering is not modelled: three.js materials, geometries and colours. An arc's entry in `extraObjects.G17` is modelled by its `userData.points`.
- Point records keep only position, A, g and time. The bookkeeping fields are not kept: `src`, `fake`, the `p2sub` record, and the `feedrate`/`dist`/`distSum`/`timeMins`/`timeMinsSum` fields written onto `p2` (lines 674-678). None of these reaches the result.
- I/O and transport are not modelled: `postMessage`, the message listener, `console` output and the unit-change log. The progress value is posted as the string `toFixed(0)` returns; the model uses its integer value. JSON serialisation, which drops the named keys of the `extraObjects` array, is not modelled either.
- `args.svalue` and `args.tool` are only remembered. No handler reads them.
- The `if (dist > 0) totalDist += dist` at lines 553-555 adds nothing. It reads `dist` before the function assigns it, so `dist` is undefined there.
- Two branches cannot happen and are not modelled:
  - the parse loop's early exit when a handler returns `false` (no handler does);
  - the "No handler" error (the default handler always exists).
- The module-level `lastLine` and the `delta` helper are not modelled. Nothing reads them.
- Lexing.SplitWsKeepsText: states only that the text is kept apart from its whitespace. Where the pieces split is stated by Lexing.SplitWsJoin and Lexing.SplitWsInnerPieces.
- Lexing.Upper: like Lexing.UpperChar and Lexing.LowerChar, it maps ASCII letters only. `toUpperCase()` and `toLowerCase()` (lines 69, 79 and 106) use full Unicode case mapping, so for example U+212A (Kelvin sign) lower-cases to "k" and "ß" upper-cases to "SS"; such lines are not modelled as the source treats them.
- Interpreter.Toolpath.AddArcSegment: like Machine.ArcCentre, it follows the corrected R form, which computes a centre. As written, an R word raises a ReferenceError at line 411 (see Findings), which Machine.ArcCentreAsWritten models.
- Machine.ArcPoints: its contract states only the number of entries. What each entry holds is stated by MachineProperties.ArcAddsItsPolyline.
- ArcGeometry.OffsetMidpointOnCircle: this is stated only for moves whose start and end z are equal. For a helical move the source's offset vector (lines 488-490) includes z and is not perpendicular to the chord, so the candidates are not equidistant from the two ends.
- ArcGeometry.CandidateOnCircle: this is stated only for moves in one z plane, as above. It also assumes `sqrt` is exact on the two values it uses.
- ArcGeometry.RCentreOnCircle: this is stated only for moves in one z plane, with `sqrt` exact, as above.
- MachineProperties.ArcTimeCountsChordAndPolyline: this is stated only for a positive feedrate and a positive chord and polyline length. The other cases are covered by TimeFor's contract.
- MachineProperties.ProgressValueBounds: the percentage is rounded exactly. Binary rounding of `i / n * 100` at exact halves is not modelled.

## Findings

| source | as written | input that shows it | evidently intended | confidence | as-written member | corrected member |
|---|---|---|---|---|---|---|
| src/workers/gcview.worker.js:411 | `radius = parseFloat(args.r)` assigns a variable that addSegment never declares (the only `var radius` is local to the arc-drawing helper at line 335); the file is an ES module (import at line 6), so its code is strict and the assignment raises a ReferenceError; no code in the file catches it, so it leaves parseLine, parse, createObjectFromGCode and the message listener (lines 1046-1052), and the worker posts no result at all for a program with an R-form arc | the line `G2 X10 Y0 R5` | a local `var radius`, so that the R-form centre is computed and the arc drawn | high; not executed | Machine.ArcCentreAsWritten, MachineProperties.RFormAsWrittenRaises | Machine.ArcCentre, ArcGeometry.RCentreOnCircle |

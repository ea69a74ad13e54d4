# Guidance planners and GGA parser of QtOpenGuidance, modelled in Dafny

This project models the decision logic of the guidance path-planning blocks of
QtOpenGuidance, an agricultural guidance application, together with its NMEA
GGA/GNS sentence parser:

- **Pass-direction generation** (`guidance_global_planner.dfy`, module
  `GuidanceGlobalPlanner`). `createPlanAB` builds the offset lines of an AB-line
  plan. With both pass counts zero every line may be followed either way:
  left lines 0..n-1, then right lines -1..-(n-1). Otherwise the centre line
  comes first, then the left and the right side, each driven by a four-state
  machine (`Forward`, `Reverse`, `ForwardMirrored`, `ReverseMirrored`) with a
  16-bit `passCounter`. `Step` is the source's `switch`. `Quota` and
  `Successor` are the transition table written separately, and
  `StepFollowsTable` proves the two agree. `PlanLines` is the reference
  definition and `CreatePlanAB` is the imperative loop proved equal to it. The
  line geometry is not modelled, only each line's index, `anyDirection` flag
  and reversal. Also `alphaShape`, which builds the field-optimisation
  request.
- **Global planner slots** (`global_planner.dfy`, class
  `GlobalPlanning.GlobalPlanner`). Covers the recorded AB polyline, the A/B
  points and AB segment, the implement segment from the edge poses,
  continuous recording, the planner settings and the pass settings with their
  zero normalisation. The class invariant `Valid()` is "both pass counts are
  zero or neither is". Calls to `createPlanAB` and `plan.expand`, and the
  polyline-simplification requests, are recorded in order in a ghost log
  `events`.
- **Local planner** (`local_planner.dfy`, module `LocalPlanning`). On each pose
  it scans for the primitive at minimum squared distance. The comparison is
  strict, so ties go to the first primitive. An `OnlyLines` plan stops at the
  first distance that does not improve. The chosen primitive is reversed when
  the heading differs from its angle by more than 95 degrees, and it is
  published only if it is `anyDirection`. `ValleyScansAgree` proves that the
  early exit picks the same primitive as the exhaustive scan whenever the
  distances fall and then never fall again. `EarlyExitCanMissNearest` shows
  that without this shape it can pick a different one. A primitive is
  abstracted to `(id, anyDirection, reversed)`. Distances, angles and heading
  are given reals.
- **NMEA GGA/GNS parser** (`nmea_parser_gga.dfy`, module `NmeaParserGga`). This
  is the framing of NMEA 0183 sentences. Received bytes are buffered, and each
  parse takes at most one line from the front. The parser class reads a line
  only once its line feed has arrived, as the source's comment intends.
  `ReadLine` and `FeedAsWritten` model what Qt's `readLineInto` does instead
  (see "## Findings"). The checksum is the XOR of the
  characters from index 1 up to the first `*`. The transmitted checksum is two
  hex digits after the `*`. A sentence is used only when it carries a
  checksum. A mismatch is only logged and the sentence is still used. The
  fields are split at commas, with a proved round trip between `Split` and
  `Join`. A GGA or GNS sentence with at least 14 fields emits, in this order:
  fix quality, satellites, HDOP, age of the differential data, position. The
  latitude is negated exactly for `S` and the longitude exactly for `W`.
  Values are kept as their field text.

Points to note about the source:

- The body of `createPlanAB` in `src/block/GuidanceGlobalPlanner.cpp` is
  commented out, and the constructor in that file does not match the one
  declared in `src/block/GlobalPlanner.h`. The commented body is modelled as
  the reference algorithm.
- A side line is reversed when the state at the **start** of its iteration is
  `Reverse` or `ForwardMirrored`. The line during which the machine enters one
  of those states is not itself reversed.
- In directional mode both sides number their lines +1..+(n-1), so right-side
  indices are not negated as they are in the undirected mode. The model keeps
  this as written, in `DirectedPlanLayout`.
- Counting the centre line, two forward and three reverse passes starting on
  the left read forward, forward, reverse, reverse, reverse
  (`TwoForwardThreeReverseExample`). This is because the left side's counter
  starts at 1.
- The pass-generation order (centre, then left, then right) is not valley
  shaped for a vehicle right of the centre line. The local planner's early
  exit is exact only under the valley condition.

## Model

| member | source | states |
|---|---|---|
| `GuidanceGlobalPlanner.CreatePlanAB` | src/block/GuidanceGlobalPlanner.cpp:43-243 | the lines appended, in order, are exactly `PlanLines`: undirected lines when both counts are zero, otherwise the centre line and the two sides generated from their start states |
| `GuidanceGlobalPlanner.AppendSide` | src/block/GuidanceGlobalPlanner.cpp:99-159 | one side loop appends lines 1..n-1, each reversed exactly in states Reverse and ForwardMirrored, while the state and counter follow `Step` |
| `GuidanceGlobalPlanner.Step` | src/block/GuidanceGlobalPlanner.cpp:107-156 | one iteration of the switch; the 16-bit `passCounter` stays below 2^16 |
| `GuidanceGlobalPlanner.StepFollowsTable` | src/block/GuidanceGlobalPlanner.cpp:107-156 | the state changes exactly when the incremented counter reaches the state's pass count, to the successor in the transition table, with the counter reset to 0 |
| `GuidanceGlobalPlanner.SideLinesAt` | src/block/GuidanceGlobalPlanner.cpp:99-159 | side line j has pass index j+1, is not `anyDirection`, and is reversed exactly when the state after j iterations is Reverse or ForwardMirrored |
| `GuidanceGlobalPlanner.UndirectedPlanLayout` | src/block/GuidanceGlobalPlanner.cpp:43-62 | with both counts zero: 2n-1 lines, all `anyDirection`, none reversed, left indices 0..n-1 then right indices -1..-(n-1) |
| `GuidanceGlobalPlanner.DirectedPlanLayout` | src/block/GuidanceGlobalPlanner.cpp:64-241 | otherwise: 2n-1 lines, the centre line first (index 0, one direction, not reversed), left lines with indices 1..n-1, right lines with indices +1..+(n-1), each reversed exactly when its side's state at the start of its iteration is Reverse or ForwardMirrored |
| `GuidanceGlobalPlanner.NoPathsLayout` | src/block/GuidanceGlobalPlanner.cpp:43-71 | with no paths to generate, an undirected plan is empty and a directed plan holds only the centre line |
| `GuidanceGlobalPlanner.UnmirroredClosed` | src/block/GuidanceGlobalPlanner.cpp:110-156 | without mirroring, a generator in Forward or Reverse stays in those two states for any number of iterations |
| `GuidanceGlobalPlanner.UnmirroredPlanStates` | src/block/GuidanceGlobalPlanner.cpp:80-179 | without mirroring, neither side's state ever leaves {Forward, Reverse} |
| `GuidanceGlobalPlanner.MirroredCycle` | src/block/GuidanceGlobalPlanner.cpp:110-156 | with mirroring, every state change follows the cycle Forward, Reverse, ReverseMirrored, ForwardMirrored, Forward |
| `GuidanceGlobalPlanner.CountsUp` | src/block/GuidanceGlobalPlanner.cpp:107-155 | below its pass count, a state entered with counter 0 keeps its state and its counter equals the iterations done |
| `GuidanceGlobalPlanner.RunLength` | src/block/GuidanceGlobalPlanner.cpp:107-155 | a state entered with counter 0 lasts exactly `forwardPasses` (Forward, ForwardMirrored) or `reversePasses` (Reverse, ReverseMirrored) lines, then hands over to its successor with counter 0 |
| `GuidanceGlobalPlanner.LeftStart` | src/block/GuidanceGlobalPlanner.cpp:78-97 | the left side's first line is reversed unless the vehicle starts on the left with a forward count other than 1; its counter starts at 1, or at 0 for an unmirrored start on the right; it starts in a mirrored state exactly for a mirrored start on the right |
| `GuidanceGlobalPlanner.RightStart` | src/block/GuidanceGlobalPlanner.cpp:162-179 | the right side's first line is reversed unless the vehicle starts on the right with a forward count other than 1; its counter starts at 1 on the starting side and at 0 otherwise; it starts in a mirrored state exactly for a mirrored start on the left |
| `GuidanceGlobalPlanner.RightStartMirrorsLeftStart` | src/block/GuidanceGlobalPlanner.cpp:80-179 | the right side starts as the left side does with `startRight` negated, except that with mirroring and a left start its counter is 0 where the left side's is 1 |
| `GuidanceGlobalPlanner.TwoForwardThreeReverseExample` | src/block/GuidanceGlobalPlanner.cpp:64-241 | two forward and three reverse passes, start left, no mirror, five paths: 9 lines; centre and left side reversed-flags F,F,T,T,T; right side T,T,T,F |
| `GuidanceGlobalPlanner.AlphaShape` | src/block/GuidanceGlobalPlanner.cpp:391-414 | a request exists exactly when at least 3 points are recorded; it holds the 2D projection of every point, in order, and the given alpha settings |
| `GlobalPlanning.GlobalPlanner.constructor` | src/block/GlobalPlanner.h:231-254 | the member initial values: origin points, identity orientation, zero pass counts, no mirror, maximum deviation 0.1, empty polyline, recording off, empty event log |
| `GlobalPlanning.GlobalPlanner.SetPose` | src/block/GlobalPlanner.h:86-106 | a local-offset pose changes nothing; otherwise the position and orientation are stored, the 2D position is appended exactly when recording is on, the plan is expanded at it, and nothing else changes |
| `GlobalPlanning.GlobalPlanner.SetPoseLeftEdge` | src/block/GlobalPlanner.h:108-120 | acts only with both local-offset and without-orientation flags; the segment's source becomes the 2D position with its target kept, and the plan is regenerated only if the source changed |
| `GlobalPlanning.GlobalPlanner.SetPoseRightEdge` | src/block/GlobalPlanner.h:122-134 | the same for the implement segment's target, keeping its source |
| `GlobalPlanning.GlobalPlanner.SetAPoint` | src/block/GlobalPlanner.h:140-150 | A becomes the current position and the polyline is exactly its 2D projection |
| `GlobalPlanning.GlobalPlanner.SetBPoint` | src/block/GlobalPlanner.h:152-162 | B becomes the current position, its 2D projection is appended, the AB segment runs from A to B, and the plan is regenerated once |
| `GlobalPlanning.GlobalPlanner.SetAdditionalPoint` | src/block/GlobalPlanner.h:164-167 | the polyline grows by exactly one point, the current 2D position, with the earlier points unchanged, and the plan is regenerated once |
| `GlobalPlanning.GlobalPlanner.SetAdditionalPointsContinous` | src/block/GlobalPlanner.h:169-175 | simplification with the stored tolerance is requested exactly on a switch from on to off; recording then equals the argument |
| `GlobalPlanning.GlobalPlanner.NewField` | src/block/GlobalPlanner.h:184-187 | the recorded polyline is emptied |
| `GlobalPlanning.GlobalPlanner.SetPlannerSettings` | src/block/GlobalPlanner.h:192-199 | reserve and tolerance are stored; simplification with the new tolerance is requested exactly when the polyline has more than 2 points |
| `GlobalPlanning.GlobalPlanner.SetPassSettings` | src/block/GlobalPlanner.h:201-212 | if either count is 0 both are stored as 0, otherwise both unchanged; `startRight` and `mirror` always stored; keeps "both zero or neither" |
| `GlobalPlanning.GlobalPlanner.DirectedQuotas` | src/block/GlobalPlanner.h:201-212 | under "both zero or neither", the generated plan is undirected exactly when either count is zero, and a directed plan has no direction state with a zero pass quota |
| `LocalPlanning.CreateReverse` | src/block/LocalPlanner.cpp:55-59 | the reversed copy is the same line (same id, same `anyDirection`) in the other direction |
| `LocalPlanning.CreateReverseInvolution` | src/block/LocalPlanner.cpp:55-59 | reversing twice gives back the original primitive |
| `LocalPlanning.Orient` | src/block/LocalPlanner.cpp:54-59 | the published primitive is the nearest one, reversed exactly when the heading and the primitive's angle differ by more than 95 degrees |
| `LocalPlanning.FirstMinimum` | src/block/LocalPlanner.cpp:33-43 | the exhaustive scan's choice is at a minimum distance, and every earlier distance is strictly larger |
| `LocalPlanning.DescentEnd` | src/block/LocalPlanner.cpp:33-48 | the early-exit scan's choice ends the strictly falling prefix: every earlier step falls, and the next distance, if any, is not smaller |
| `LocalPlanning.Nearest` | src/block/LocalPlanner.cpp:30-49 | the selected index is a position of the global plan |
| `LocalPlanning.ScanNearest` | src/block/LocalPlanner.cpp:33-49 | the loop from infinity with strict comparison and the `OnlyLines` break selects `DescentEnd` for `OnlyLines` plans and `FirstMinimum` otherwise |
| `LocalPlanning.ValleyScansAgree` | src/block/LocalPlanner.cpp:44-47 | on distances that fall and then never fall again, the early-exit scan and the exhaustive scan select the same primitive |
| `LocalPlanning.EarlyExitCanMissNearest` | src/block/LocalPlanner.cpp:44-47 | with distances 9, 16, 1 the early exit selects the first primitive while the nearest is the third |
| `LocalPlanning.LocalPlanner.constructor` | src/block/LocalPlanner.h:110-128 | initial state: not turning left or right, both skips 1, origin position, empty plans, nothing published |
| `LocalPlanning.LocalPlanner.SetPlan` | src/block/LocalPlanner.h:96-99 | the global plan is replaced wholesale; nothing else changes and nothing is published |
| `LocalPlanning.LocalPlanner.SetPose` | src/block/LocalPlanner.cpp:23-66 | a local-offset pose changes nothing; with an empty global plan only position and orientation change; otherwise the local plan becomes `OnlyLines` holding the oriented nearest primitive if it is `anyDirection`, else empty, and it is published exactly in the first case; the global plan is never modified; at most one primitive is ever published |
| `NmeaParserGga.XorAppend` | src/block/NmeaParserGGA.h:63-90 | the XOR checksum of a concatenation is the XOR of the parts' checksums |
| `NmeaParserGga.StarFrom` | src/block/NmeaParserGGA.h:66-85 | the first `*` at or after a position, or the end of the line |
| `NmeaParserGga.StarIndex` | src/block/NmeaParserGGA.h:66-85 | the first `*` after the leading character, which is never inspected, or the end of the line |
| `NmeaParserGga.HexByte` | src/block/NmeaParserGGA.h:73-77 | the two characters after the `*` read as hexadecimal: the first digit gives the upper four bits and the second the lower four; if either is not a hex digit the value is 0 |
| `NmeaParserGga.HexByteRoundTrip` | src/block/NmeaParserGGA.h:73-77 | reading back the two upper-case hex digits of any byte gives that byte |
| `NmeaParserGga.ScanChecksum` | src/block/NmeaParserGGA.h:62-90 | the computed checksum is the XOR of the characters from index 1 up to the first `*`; a transmitted checksum is read exactly when two characters follow the `*`; the line is cut at the `*` in all cases |
| `NmeaParserGga.Split` | src/block/NmeaParserGGA.h:92 | splitting at commas yields at least one field |
| `NmeaParserGga.SplitJoin` | src/block/NmeaParserGGA.h:92 | the fields joined with commas give the text back, no field contains a comma, and there is one field more than commas |
| `NmeaParserGga.JoinSplit` | src/block/NmeaParserGGA.h:92 | comma-free fields joined and split again give the same fields |
| `NmeaParserGga.DropTalker` | src/block/NmeaParserGGA.h:94-95 | removing the first three characters of the type field: a field of at most 3 characters becomes empty, a longer one keeps exactly its suffix after position 3 |
| `NmeaParserGga.EmitPositionEvents` | src/block/NmeaParserGGA.h:114-168 | stepping the field iterator emits fix quality, satellites, HDOP and age from fields 6, 7, 8 and 13, then the position from fields 2 to 5 and 9 |
| `NmeaParserGga.EmittedValues` | src/block/NmeaParserGGA.h:92-170 | values are emitted exactly for a line with a checksum whose type field without its first 3 characters is GGA or GNS and that has at least 14 fields; order fix quality, satellites, HDOP, age, position; latitude negated exactly for `S`, longitude exactly for `W` |
| `NmeaParserGga.NoChecksumNoEvents` | src/block/NmeaParserGGA.h:98 | a line without a transmitted checksum emits nothing |
| `NmeaParserGga.MismatchStillProcessed` | src/block/NmeaParserGGA.h:97-103 | whatever two checksum characters a line carries, it emits the same values: a mismatch changes only the log |
| `NmeaParserGga.ParseSentence` | src/block/NmeaParserGGA.h:47-171 | one line yields the XOR checksum of its payload, its transmitted checksum if present, and exactly `SentenceEvents` |
| `NmeaParserGga.NextLine` | src/block/NmeaParserGGA.h:52-60 | the line read the comment at line 58 describes: a line is available exactly when a line feed has arrived; it ends at the first line feed, which is consumed with it, and a carriage return before it is dropped |
| `NmeaParserGga.ReadLine` | src/block/NmeaParserGGA.h:52-60 | the line read as Qt performs it: a line is available exactly when the buffer is not empty; with a line feed it is `NextLine`'s line; without one it is the whole buffer less a trailing carriage return, and all of the buffer is consumed |
| `NmeaParserGga.SplitSentenceLostAsWritten` | src/block/NmeaParserGGA.h:41-174 | as written, a GGA sentence delivered in two chunks (`$GPGGA,` then the rest) leaves an empty buffer and emits nothing, while the same bytes in one chunk emit five values |
| `NmeaParserGga.SplitSentenceKept` | src/block/NmeaParserGGA.h:41-174 | with the intended line read, a sentence cut anywhere into two chunks leaves the same buffer and emits the same values as in one chunk |
| `NmeaParserGga.SplitExampleKept` | src/block/NmeaParserGGA.h:41-174 | with the intended line read, the example sentence split after `$GPGGA,` emits its five values |
| `NmeaParserGga.NmeaParser.constructor` | src/block/NmeaParserGGA.h:29-31 | an empty buffer and nothing emitted |
| `NmeaParserGga.NmeaParser.SetData` | src/block/NmeaParserGGA.h:41-44 | the chunk is appended to the buffer and exactly one parse follows; the new buffer and emitted values are those of `Feed` |
| `NmeaParserGga.NmeaParser.ParseData` | src/block/NmeaParserGGA.h:47-176 | without a complete line the buffer and the emitted values are unchanged; otherwise exactly the first line is removed from the front of the buffer and its values are emitted |

## Findings

| source | as written | input that shows it | evidently intended | confidence | as-written member | corrected member |
|---|---|---|---|---|---|---|
| src/block/NmeaParserGGA.h:56-174 | Qt's `readLineInto` also returns a final line that has no line feed, and `dataToParse.remove(0, textstream.pos())` then drops it, so a sentence split across two `setData` calls is parsed as two fragments and lost | `setData("$GPGGA,")`, then `setData(",,,,,,,,,,,,*7A\r\n")` | a line is read only once its line feed has arrived (the comment at line 58), so the fragment waits in the buffer and the whole sentence emits its five values | not executed; rests on Qt's `QTextStream` line reading, whose code is not part of this model | `NmeaParserGga.SplitSentenceLostAsWritten` | `NmeaParserGga.SplitSentenceKept` |

## Left out

- Offset-line geometry of `createPlanAB` is not modelled: the AB line extension, `QLineF::fromPolar`/`translated`, the implement width and centre offset. This is floating-point Qt geometry. So is the guard that the AB line has non-zero length (src/block/GuidanceGlobalPlanner.cpp:25). Each line's index, direction flag and reversal are modelled.
- The `planChanged` emission of `createPlanAB` is not modelled. In the model the plan is the method's result.
- The commented-out body of `createPlanAB` reads `pathsToGenerate`, which the current `src/block/GlobalPlanner.h` no longer declares. The model takes it as a natural-number parameter and does not model the 16-bit width of the loop index `i`.
- `plan.expand`, `PlanGlobal` and `PathPrimitive` are not modelled, because they are defined in `PlanGlobal.h` and `PathPrimitive.h`, which this model does not cover. `snap`/`snapPlanAB` and `createPlanPolyline` are not modelled: they compute line geometry. `openAbLine` and `saveAbLine` are not modelled: they do file I/O. Regeneration and expansion appear only as entries in the ghost event log.
- `setField` is not modelled. It only stores a shared pointer to a CGAL polygon with holes, which no modelled operation reads.
- `setRunNumber` and `setPassNumberTo` are not modelled. They are bookkeeping outside the planner's decisions.
- The asynchronous polyline simplification, the CGAL worker thread and `alphaShapeFinished` are not modelled. These are concurrency and a foreign library. A simplification request records only its tolerance. The live polyline pointer it hands over, and so the aliasing with later appends, is not modelled.
- All Qt3D marker, mesh and transform updates are not modelled, nor `widget->resetToolbar()` in `newField`. These are rendering and GUI.
- `GlobalPlanning.GlobalPlanner.constructor`: the constructor body, which builds Qt3D entities, is not modelled. Only the member initialisers are. The global plan's default `pathsInReserve` is a constructor parameter, because it is set in `PlanGlobal.h`, which this model does not cover.
- `LocalPlanning.LocalPlanner.constructor`: a default `Plan` is taken to be empty, and its type is a constructor parameter, because `Plan` is defined in `Plan.h`, which this model does not cover.
- `distanceToPointSquared`, `angleAtPoint` and `QQuaternion::toEulerAngles` are not computed. Their results are parameters. NaN and infinite distances are not modelled, so a nearest primitive is always found, whereas the source would dereference a null pointer.
- `LocalPlanning.LocalPlanner.SetPose` does not model shared ownership. Plans are values in the model. In the source the local plan's primitive vector is shared with receivers of earlier `planChanged` signals and is cleared in place.
- `turnLeftToggled`, `turnRightToggled`, `numSkipChanged` and `getNearestPrimitive` are declared but their bodies are not shown. The turning and skip fields are modelled only as initialised and left unchanged by the modelled slots.
- The `triggerPlanPose` signal of the local planner is never emitted in the code shown, so it is not modelled.
- NMEA numeric conversion is not modelled (`toDouble`/`toFloat` of DDMM.MMMMM, HDOP and similar), nor `qDebug` logging. Events carry the raw field text and the sign decision.
- Text decoding by `QTextStream` is not modelled. Each byte is taken as one character.
- `NmeaParserGga.NmeaParser.ParseData` and `NmeaParserGga.NmeaParser.SetData` read a line only once its line feed has arrived, as the comment at src/block/NmeaParserGGA.h:58 intends. Qt's `readLineInto` also returns an unterminated remainder and the source then drops it. That behaviour is modelled separately by `ReadLine` and `FeedAsWritten` (see "## Findings"), not by the class.
- `NmeaParserGga.HexByte` reads exactly two hexadecimal digits and gives 0 otherwise, as a failed `toUInt` does. Other forms that Qt's integer parser may accept, such as a leading sign or space, are not modelled. The transmitted value affects only the log.

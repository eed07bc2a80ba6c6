# Tripwire people counting, modelled in Dafny

This project models the counting engine of a video people counter. An object
tracker delivers numbered boxes for each sampled frame. The engine keeps one
`TrackerInfo` per track identity: a short history of anchor points, a
frames-since-last-seen counter and two "ready" flags. When the anchor moves
across a tripwire polyline, the engine classifies the move as inbound or
outbound and updates the flags through a small hysteresis, so that crossing
and immediately re-crossing cancels. A count is credited only when a track
has gone unseen for more than four seconds. At that point its pending flag
becomes one "in" or "out" count and one metrics record.

Two variants share this logic, and one `Crossing.CrossStep` covers both
through the `Tripwires` datatype:

- the single-line counter (`flow_count.py`) has one polyline and global
  counters;
- the multi-gate counter (`crowd_count.py`) has a list of named gates. Each
  gate has its own counters, and a track remembers the last gate it crossed.

Modules, following the source's structure:

| module | models |
|---|---|
| `Results` | `Option`, and `Result` with the Python exceptions the step can raise |
| `Geometry`, `GeometryLemmas` | `utils.py`: orientation, on-segment, segment intersection, the angle test, and the 0.0001 endpoint offset |
| `Hysteresis` | the in/out ready flags and their update rule |
| `TrackerInfo` | `TrackerInfo`, box anchors, the one-second history window, aging, staleness |
| `Crossing` | the per-detection sweep over one polyline or over every gate |
| `Sighting` | handling one tracked box, and one frame's worth of boxes |
| `Eviction` | stale identities, metrics records, cardinality facts |
| `FlowCount` | the single-line frame step, eviction and counting |
| `CrowdCount` | `GateInfo`, and the multi-gate frame step, eviction and counting |
| `Labels` | the overlay's text formats, each with a parser that reads it back |
| `Overlay` | the pending tallies, gate totals and captions the overlay shows |
| `Sampling` | which source frames reach the detector, and the working frame rate |

Geometry is exact over `real`. Pixel coordinates are `int`, and gate
endpoints are shifted by exactly 0.0001. The source's angle in degrees,
compared with 180, becomes a direction class: the move is Forward ("in")
exactly when the cross product of move and line is positive, or zero with a
positive dot product. That is the same as `atan2(cross, dot)` lying in
[0, 180).

## Model

| member | source | states |
|---|---|---|
| Geometry.Orientation | utils.py:29-32 | the orientation of a point triple is -1, 0 or 1 |
| Geometry.OrientationMatchesArea | utils.py:29-32 | orientation is 0 exactly for collinear points, 1 exactly for a negative signed area and -1 exactly for a positive one |
| Geometry.AngleClass | utils.py:5-22 | no class exactly when either vector is zero; Forward only with a non-negative cross product and always with a positive one, Reverse only with a non-positive one; with a zero cross product, Forward exactly when the dot product is positive |
| GeometryLemmas.OrientationSwap | utils.py:29-32 | swapping the first two points negates the orientation |
| GeometryLemmas.OrientationCyclic | utils.py:29-32 | rotating the triple keeps the orientation |
| GeometryLemmas.OrientationDegenerate | utils.py:29-32 | a triple with a repeated point is collinear |
| GeometryLemmas.OnSegmentEndpoints | utils.py:24-27 | both endpoints lie on the segment's box, and the test ignores endpoint order |
| GeometryLemmas.IntersectsSymmetric | utils.py:34-49 | the intersection test does not depend on which segment comes first |
| GeometryLemmas.IntersectsReversal | utils.py:34-49 | reversing either segment does not change the intersection test |
| GeometryLemmas.ProperCrossingIntersects | utils.py:42-43 | segments whose endpoints straddle each other's lines intersect |
| GeometryLemmas.TouchingCrossingIntersects | utils.py:38-43 | an endpoint of one segment on the other's line, with the other segment straddling its line, is reported as an intersection |
| GeometryLemmas.SharedEndpointIntersects | utils.py:45-48 | segments that share an endpoint intersect |
| GeometryLemmas.CollinearDisjointDoNotIntersect | utils.py:34-49 | collinear segments with disjoint bounding boxes do not intersect |
| GeometryLemmas.OffsetRegressionCase | flow_count.py:187-190 | of the two moves the source comments cite, only the first intersects the offset line, and both classify as outbound, so the move is counted once |
| GeometryLemmas.NudgeKeepsDirection | flow_count.py:190 | offsetting both endpoints by the same epsilon leaves the tripwire vector unchanged, so the offset segment has zero length exactly when the drawn one does |
| GeometryLemmas.CrossDotNotBothZero | utils.py:12-18 | for two non-zero vectors, cross and dot product are never both zero, so the angle is defined |
| GeometryLemmas.ReverseMoveFlipsClass | utils.py:5-22 | reversing the move flips the direction class |
| GeometryLemmas.ScaleKeepsClass | utils.py:12-13 | a positive rescaling of the move, or of the tripwire vector, keeps the class, so normalising both vectors does not matter |
| Hysteresis.Toggle | flow_count.py:194-207 | a Forward hit clears out-ready and sets in-ready unless out-ready was set; Reverse is the mirror image; at most one flag is ever set |
| Hysteresis.ToggleFollowsTable | crowd_count.py:109-122 | the update is the three-state table: idle, in-pending or out-pending, with an opposite hit returning to idle |
| Hysteresis.ToggleIsSaturatingStep | flow_count.py:194-207 | the flags behave as a level in {-1, 0, 1} moved one step by each hit and clamped |
| Hysteresis.ToggleAllAppend | flow_count.py:183-207 | applying two hit sequences in turn equals applying their concatenation |
| Hysteresis.ToggleAllExclusive | flow_count.py:194-207 | after any non-empty hit sequence at most one flag is set |
| Hysteresis.ForwardThenReverseCancels | flow_count.py:194-207 | crossing in and straight back out leaves no pending count |
| Hysteresis.ReverseThenForwardCancels | flow_count.py:194-207 | crossing out and straight back in leaves no pending count |
| Hysteresis.SameDirectionSaturates | flow_count.py:194-207 | two or more hits in one direction leave exactly that direction pending, whatever the start |
| Hysteresis.SaturatedIsFixed | flow_count.py:194-207 | further hits in the pending direction change nothing |
| TrackerInfo.NewTracker | tracker_info.py:2-6 | a new tracker has an empty history, a zero counter, no flag set and no gate |
| TrackerInfo.Anchor | flow_count.py:150 | the anchor is the floor midpoint of the box's x edges, shifted by the crop origin, on the box's top edge |
| TrackerInfo.AnchorTranslates | crowd_count.py:55-61 | cropping shifts the anchor by exactly the crop origin |
| TrackerInfo.PushHistory | flow_count.py:211-214 | the history becomes a suffix of old history plus the new point, ending in the new point and capped at ceil(fps); popping from an empty history is the only failure |
| TrackerInfo.PushHistoryLength | flow_count.py:211-214 | below the cap a push appends the point; at or above it the history keeps its length |
| TrackerInfo.OverfullHistoryStays | flow_count.py:211-214 | a non-empty history already at or above the cap keeps its length over any run of sightings and holds the latest points |
| TrackerInfo.HistoryIsRecentWindow | crowd_count.py:126-129 | from a history within the cap, after any run of sightings the history is exactly the last ceil(fps) points seen |
| TrackerInfo.Age | flow_count.py:121-123 | aging keeps the set of tracked identities |
| Crossing.TestSegment | flow_count.py:184-192 | a failure needs a zero-length segment or a zero-length move; a reported hit means the step intersects the offset segment |
| Crossing.TestSegmentAgrees | utils.py:51-56 | on a non-degenerate segment, the test succeeds and reports exactly the segment's contribution to the hit list |
| Crossing.SweepLine | flow_count.py:183-207 | the sweep only ever sets its hit flag, leaves the flags alone without a hit, and keeps them exclusive |
| Crossing.SweepLineIsPolylineFold | flow_count.py:183-209 | on a well-formed list, the index walk applies the hysteresis to the intersected segments in polyline order, with no early exit |
| Crossing.SweepFrom | flow_count.py:183-209 | the same statement from any starting segment |
| Crossing.OddLineRaises | flow_count.py:184-185 | an odd-length list with at least three numbers fails at its last slice, as the four-name unpacking does |
| Crossing.SweepGates | crowd_count.py:96-122 | the gate sweep keeps history and counter, records only a later gate, keeps flags exclusive, and changes nothing when no gate is hit |
| Crossing.SweepGatesAppliesAllHits | crowd_count.py:96-124 | the flags end as the hysteresis applied to every hit of every gate, in gate order |
| Crossing.SweepGatesKeepsGateWithoutHit | crowd_count.py:106-108 | without a hit, the tracker's gate stays as it was |
| Crossing.SweepGatesAttributesLastHit | crowd_count.py:106-108 | with any hit, the tracker's gate is the last gate hit |
| Crossing.CrossStep | flow_count.py:182-209 | one step over either kind of tripwire keeps history and counter, keeps the flags exclusive, and gives only valid gate indices |
| Crossing.CrossStepTotal | crowd_count.py:95-124 | on well-formed tripwires and a real move, the step never raises |
| Sighting.CrossIfMoved | flow_count.py:169-182 | with no history, or no movement, the tracker is untouched |
| Sighting.Sight | flow_count.py:160-214 | a sighting resets the counter and pushes the anchor into the history; with no movement the flags and gate are kept |
| Sighting.SightKeepsInvariant | flow_count.py:160-214 | a sighting keeps the bounded-history and exclusive-flags invariant |
| Sighting.SightTotal | crowd_count.py:74-129 | on well-formed tripwires and positive fps, a sighting never raises |
| Sighting.FirstSighting | flow_count.py:160-166 | the first sighting of an identity stores just its anchor, with nothing pending |
| Sighting.ObserveOne | flow_count.py:143-219 | an untracked box changes nothing; a tracked one adds or updates only its own identity |
| Sighting.ObserveOneKeepsInvariant | flow_count.py:143-219 | one box keeps the store invariant |
| Sighting.Observe | flow_count.py:143-219 | the frame's boxes add exactly their tracked identities, reset their counters, and leave every other tracker alone |
| Sighting.ObserveKeepsInvariant | crowd_count.py:53-133 | a frame's boxes keep the store invariant |
| Sighting.ObserveTotal | crowd_count.py:53-133 | on well-formed tripwires and positive fps, a frame's boxes never raise |
| Sighting.UntrackedBoxesIgnored | flow_count.py:152-219 | dropping the untracked boxes does not change the outcome |
| Sighting.Tracked | flow_count.py:152 | a box survives the filter exactly when it is tracked, and the filter never adds boxes |
| Eviction.Records | flow_count.py:226-257 | one record per set flag, tagged with the direction and the channel name |
| FlowCount.Evict | flow_count.py:221-258 | exactly the fresh trackers remain, unchanged, and counters never decrease |
| FlowCount.FinalizeOne | flow_count.py:223-258 | deleting one tracker credits each of its flags once and pushes a matching record |
| FlowCount.FinalizeInOrderCredits | flow_count.py:223-258 | deleting identities one at a time removes exactly them and credits each pending flag among them once |
| FlowCount.FinalizeInOrderRecords | flow_count.py:229-257 | the records pushed match the counts added, direction by direction, all on the counter's channel |
| FlowCount.FinalizeInOrderIsEvict | flow_count.py:222-258 | the sequential loop in any order of the stale identities gives the same state as the set-based eviction |
| FlowCount.EvictConservesPending | flow_count.py:221-258 | counts plus pending flags stay the same across eviction: each pending flag becomes exactly one count |
| FlowCount.EvictAddsAtMostOnePerTracker | flow_count.py:221-258 | eviction adds at most one count per removed tracker |
| FlowCount.FlowFrameTrackers | flow_count.py:115-258 | seen identities are live with a zero counter; unseen ones age by one and leave exactly when stale; counters never decrease |
| FlowCount.FlowFrameKeepsInvariant | flow_count.py:115-258 | on a well-formed line the frame step never raises and keeps the store invariant |
| FlowCount.PendingInCountedOnce | flow_count.py:222-241 | a lone in-pending tracker that goes stale adds one to the in count and disappears |
| FlowCount.CancelledCrossingNotCounted | flow_count.py:192-258 | a tracker whose crossings cancelled is evicted without affecting any count |
| FlowCount.FlowRunMonotone | flow_count.py:91-103 | over any run of frames, counts never decrease and the store invariant holds |
| CrowdCount.NewGate | crowd_count.py:271-278 | a new gate keeps its name and lines and starts at zero counts |
| CrowdCount.FinalizeOne | crowd_count.py:137-163 | deleting one tracker credits its flags to its gate only, pushes one record per credit, and keeps the gate list's shape |
| CrowdCount.FinalizeOneChannel | crowd_count.py:145-161 | records carry the tracker's gate name as channel |
| CrowdCount.CrowdEvict | crowd_count.py:135-163 | exactly the fresh trackers remain, unchanged; gates keep their names and lines and no gate count decreases |
| CrowdCount.FinalizeInOrderRemoves | crowd_count.py:137-163 | the sequential loop removes exactly the listed identities and keeps the number of gates |
| CrowdCount.FinalizeInOrderCreditsIn | crowd_count.py:142-151 | each gate's in count grows by the in-pending listed trackers attributed to it |
| CrowdCount.FinalizeInOrderCreditsOut | crowd_count.py:152-162 | each gate's out count grows by the out-pending listed trackers attributed to it |
| CrowdCount.FinalizeInOrderKeepsGates | crowd_count.py:137-163 | names and lines of the gates never change |
| CrowdCount.FinalizeInOrderIsEvict | crowd_count.py:136-163 | the loop in any order of the stale identities gives the set-based eviction |
| CrowdCount.TotalsOfUpdate | crowd_count.py:165-185 | replacing one gate changes the totals by that gate's difference |
| CrowdCount.TotalsAfterFinalizeOne | crowd_count.py:137-185 | the totals grow by the records pushed |
| CrowdCount.FinalizeOneConserves | crowd_count.py:137-194 | when pending trackers have gates, totals plus pending flags stay the same across one deletion |
| CrowdCount.FinalizeInOrderConserves | crowd_count.py:135-194 | the same across the loop, with records matching the totals' growth |
| CrowdCount.CrowdEvictConserves | crowd_count.py:135-194 | the same across set-based eviction |
| CrowdCount.CrowdOkGates | crowd_count.py:106-122 | under the store invariant every pending tracker has a valid gate |
| CrowdCount.CrowdFrameRaisesOnOddGate | crowd_count.py:168-174 | one gate list of odd length, three or more, makes every frame raise at the totals loop, whatever was detected |
| CrowdCount.WellFormedGatesDrawable | crowd_count.py:172-174 | every gate list of a well-formed gate set unpacks in the totals loop |
| CrowdCount.CrowdFrameKeepsInvariant | crowd_count.py:39-163 | on well-formed gates the frame step never raises, keeps the invariant and the gates' names and lines, and never lowers a count |
| CrowdCount.CancelledCrossingNotCounted | crowd_count.py:109-163 | deleting a tracker whose crossings cancelled changes no gate and pushes no record |
| CrowdCount.CrowdRunMonotone | crowd_count.py:230-239 | on any run of frames that does not raise, no gate count decreases, the gates keep their names and lines and the store invariant holds; with well-formed gates no run raises |
| Labels.NatToString | flow_count.py:284 | a count renders as a non-empty digit string with no leading zero |
| Labels.ParseNatToString | flow_count.py:284-285 | reading a rendered count gives the count back |
| Labels.NatToStringInjective | flow_count.py:284-285 | distinct counts render differently |
| Labels.PendingSuffix | crowd_count.py:197-198 | the suffix is empty exactly when nothing is pending, and starts with a plus otherwise |
| Labels.ParseCountLabelRoundTrip | flow_count.py:284-285 | a tally reads back as the total and pending count it was built from |
| Labels.CountLabelInjective | crowd_count.py:197-198 | distinct total/pending pairs give distinct tallies |
| Labels.ParseGateCaptionRoundTrip | crowd_count.py:181 | a gate caption reads back as the gate's two counts |
| Overlay.CountPending | flow_count.py:274-281 | the loop over the trackers, in any order, counts exactly the in-pending and out-pending trackers |
| Overlay.VisitedCounts | crowd_count.py:187-194 | counting over a duplicate-free list gives the number of pending trackers it names |
| Overlay.FlowTallies | flow_count.py:274-285 | the two tallies read back as the counts and pending numbers of the state |
| Overlay.FlowCaption | flow_count.py:263-272 | the caption fails exactly when a window of the line does not unpack; otherwise a caption exists exactly when the line has a segment to draw, and reads back as the two counts |
| Overlay.SumGates | crowd_count.py:165-185 | the loop computes the sums of the gate counts, and no gate exceeds its total |
| Overlay.TotalsBoundEach | crowd_count.py:184-185 | no gate count exceeds the total |
| Overlay.CrowdTallies | crowd_count.py:187-198 | the tallies read back as the gate totals and pending numbers |
| Overlay.Caption | crowd_count.py:172-181 | a gate's caption fails exactly when its list does not unpack; otherwise it exists exactly when the gate has a segment, and reads back as its counts |
| Overlay.CrowdCaptions | crowd_count.py:168-185 | the loop fails exactly when some gate's list does not unpack; otherwise one caption per gate, present exactly when that gate has a segment and reading back as that gate's counts |
| Sampling.Truncate | crowd_count.py:216 | int() on a real rounds toward zero |
| Sampling.FlowSampleInterval | flow_count.py:79 | the interval is never zero; zero means every frame |
| Sampling.CrowdSampleInterval | crowd_count.py:216-218 | the interval is at least 1, lies within 8 frames of fps/8, and is 1 below 16 fps |
| Sampling.CrowdRateBand | crowd_count.py:216-220 | with a source of at least 8 fps, the working rate is in [8, 16) |
| Sampling.SampledByMagnitude | flow_count.py:97 | whether a frame is sampled depends only on the interval's magnitude |
| Sampling.SampleFrames | flow_count.py:91-97 | the loop hands on frames 0, k, 2k, ... and skips none of them |
| Sampling.StaleIsFourSeconds | crowd_count.py:136 | a tracker stale in sampled frames has been unseen for more than four seconds of source video, whatever the interval |

## Left out

- The detector and the object tracker: their boxes and track identities are the input.
- Drawing: colours, rectangles, history trails, the white flash after a crossing (`cross_render`), and text positions. The overlay's text is modelled; its placement is not.
- Video capture, frame reading, the display and save threads, and the program's entry point. Frames become a sequence.
- The metrics database client. A record is a `CountEvent` with channel and direction. Measurement name, field and timestamp are omitted because the clock is outside the model.
- Float32 arithmetic, unit-vector normalisation and degrees. Geometry is over exact reals, and `GeometryLemmas.ScaleKeepsClass` shows that the normalisation cannot change the class.
- `adjust_box_within_bounds` in utils.py: the caller has it commented out.
- `gate_info.py`: it duplicates the `GateInfo` class in crowd_count.py, which is modelled.
- The `CrowdCount` constructor: it never sets `self.gates`, `target_area` or `db_config`, so the gates and the crop origin (which stands in for `target_area`) become inputs.
- The gate `tags` field: nothing in the counting logic reads it.
- The frame rate is a `real`. A NaN or infinite rate is not modelled.
- Sampling.StaleIsFourSeconds: requires a positive interval. The single-line counter accepts a negative `frameSkip`, which makes its working rate negative.
- TrackerInfo.Age: states only that identities are kept. What aging does to each counter is stated by `FlowCount.FlowFrameTrackers`.
- CrowdCount.FinalizeOne: an out-of-range gate index is treated as "no gate". The source stores a gate object, so that case cannot arise there. `CrowdCount.CrowdOkGates` shows that the invariant rules it out.
- The single-line counter's debug overlay (flow_count.py:263-272) is not part of `FlowCount.FlowFrame`. It is modelled on its own by `Overlay.FlowCaption`, which fails on an odd list of three or more numbers just as that branch does.
- A frame-rate change on reconnection (flow_count.py:57-59, 72, 82): the trackers and counts are kept while `write_fps` is recomputed. The model runs at one rate. `TrackerInfo.OverfullHistoryStays` states what a push does to a history left above a lowered cap: it keeps its length rather than shrinking back.
- FlowFrame, CrowdFrame, FlowRun and CrowdRun: these return the new state but not the records. The records of one eviction are stated by `FinalizeInOrderRecords` and `FinalizeInOrderConserves`.

Behaviour worth noting:

- A step that intersects a zero-length tripwire segment has no angle. The comparison with 180 then raises a `TypeError` rather than counting "no crossing". The model returns `Failure(AngleUndefined)`.
- A coordinate list of odd length, three or more, fails when its last slice is unpacked into four names (`Failure(UnpackMismatch)`). In the single-line detection pass this happens only when a tracked object moves. The multi-gate frame raises on every frame, at the totals loop after eviction, and so does the single-line debug overlay.
- With a non-positive frame rate, the first sighting pops from an empty history (`Failure(PopFromEmpty)`). These exceptions leave the frame step rather than being swallowed per detection.
- The single-line counter keeps global counters and no gate. The multi-gate counter credits the last gate a track crossed, even if its flags were set by crossings of other gates.

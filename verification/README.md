# PyQuishAI paths, markers, loot filter and hero formations, in Dafny

This project models six self-contained pieces of the Py4GW bot scripts and
widgets, and proves properties of them.

1. **`FollowPathAndAggro`** in `Bots/aC_Scripts/PyQuishAI.py` covers:
   - the tick-driven controller that walks a map's waypoint list and breaks off to fight the nearest enemy;
   - the debug index API (`set_active_index`, `force_move_to_index`, `seek_relative`, hold);
   - the path helpers `merge_map_segments`, `_segment_base_index` and `_clamp`;
   - the blessing debounce `trigger_blessing_at`.

   The controller is a state record (`PathAndAggro.Ctrl`). Each tick is a pure function that returns the new state and the calls it makes, in order (`PathAndAggro.Effect`).
2. **The marker INI builder** in `Bots/aC_Scripts/build_markers_ini.py`: colour normalisation, the data-shape checks, and the numbered line sections. The sections cover a map's path segments, bless links and inter-segment connectors. A section is a record with:
   - number, name, endpoints, colour and map id;
   - no formatted text.
3. **The path analysis** in `Bots/aC_Scripts/analyze_pyquishai_paths.py`: `flatten_map_path` with its warnings, `compute_segments`, and the `SegmentStats` properties.
4. **The path-length tool** in `Bots/aC_Scripts/calc_pyquishai_path_lengths.py`: the recursive `_merge_waypoints` and `_compute_distances`. Lemmas relate this flattener to the analysis flattener and to the marker builder's reading of the same data.
5. **`LootConfig`** in `Py4GWCoreLib/py4gwcorelib_src/Lootconfig.py` has:
   - six loot flags, six id sets and a pickup radius;
   - the keep-or-drop precedence and the list filtering of `GetfilteredLootArray`.
6. **The hero formation helpers** in `Widgets/HeroFormationFlagger.py`: offset normalisation, selection-index validation, placing a formation around the player, and flagging heroes.

Python values (lists, tuples, dictionaries with insertion order, numbers, strings) are the datatype `PyValue.Value`. What `float()` makes of a string is a parameter (`FloatParser`). What `int()` makes of one is also a parameter (`IntParser`).

The following arrive as parameters:
- everything read from the game: positions, agents, owners, rarities, hero slots, the clock;
- `math.hypot`.

Distances are compared through their squares over `real`. `int()` truncation toward zero is written out (`Geometry.Trunc`).

| file | module | models |
|---|---|---|
| wrappers.dfy | Wrappers | `Option` and `Result` |
| pyvalue.dfy | PyValue | Python values, `float()`, `len()`, iteration, dictionary lookup |
| geometry.dfy | Geometry | points, squared distances, `int()` on floats |
| lexorder.dfy | LexOrder | Python string order, `sorted`, `sorted(set(...))` |
| chain.dfy | Chains | concatenating per-index blocks, with or without a threaded counter |
| pathmerge.dfy | PathMerge | `_clamp`, `merge_map_segments`, `_segment_base_index` |
| blessing.dfy | Blessing | `trigger_blessing_at` and the blessing-point search of `update` |
| pathandaggro.dfy | PathAndAggro | the controller state, the debug API, the advance helpers |
| pathandaggro_tick.dfy | PathAndAggroTick | `_throttled_scan`, `_find_nearest_enemy`, `_advance_to_next_point`, `update` |
| marker_color.dfy | MarkerColor | `str.strip`, `color_arg` |
| marker_shape.dfy | MarkerShape | the shape checks, `float_pair`, `normalize_var_base_names`, `pick_map_data` |
| marker_sections.dfy | MarkerSections | the section builders, `process_module`, the loop of `main` |
| pathanalysis.dfy | PathAnalysis | `is_coordinate`, `flatten_map_path`, `compute_segments`, `SegmentStats` |
| pathlengths.dfy | PathLengths | `_is_coordinate`, `_merge_waypoints`, `_compute_distances` |
| loot.dfy | Loot | `LootConfig` and `GetfilteredLootArray` |
| formation.dfy | Formation | `_normalize_offsets`, `_load_legacy_formations`, `_ensure_valid_indices`, `_compute_rotated_positions`, `_flag_heroes` |

## Model

| member | source | states |
|---|---|---|
| PyValue.ToFloat | Bots/aC_Scripts/analyze_pyquishai_paths.py:104-109 | `float()` succeeds on every int, float and bool, giving its numeric value; on anything else but a string it raises |
| PyValue.Iterate | Bots/aC_Scripts/PyQuishAI.py:666 | `list.extend` appends exactly the items of a list or tuple, and raises exactly on values that are not a list, tuple, string or dictionary |
| PyValue.Len | Bots/aC_Scripts/PyQuishAI.py:227-228 | `len()` is defined exactly where iteration is, and counts what iteration yields |
| PyValue.KeyIndex | Bots/aC_Scripts/PyQuishAI.py:227 | a key is found exactly when the dictionary has it, at an entry carrying that key |
| Geometry.Trunc | Bots/aC_Scripts/PyQuishAI.py:594 | `int()` of a float truncates toward zero: never above a non-negative value and never below a negative one, within 1 |
| LexOrder.Sort | Widgets/HeroFormationFlagger.py:218 | `sorted` returns a sorted permutation of its input |
| LexOrder.SortUnique | Bots/aC_Scripts/build_markers_ini.py:122 | `sorted(set(...))` is strictly sorted and holds exactly the input's members |
| PathMerge.Clamp | Bots/aC_Scripts/PyQuishAI.py:176-177 | the result lies in `[low, high]`, is `n` itself inside the range, and is the nearer bound outside it |
| PathMerge.ClampIdempotent | Bots/aC_Scripts/PyQuishAI.py:176-177 | clamping an already clamped index changes nothing |
| PathMerge.ConcatPaths | Bots/aC_Scripts/PyQuishAI.py:662-667 | concatenating the segments' paths succeeds exactly when every segment's `path` (default `[]`) is iterable |
| PathMerge.MergeMapSegments | Bots/aC_Scripts/PyQuishAI.py:662-670 | a non-list gives `[]`; a list that is not all dictionaries comes back verbatim; a list of segment dictionaries merges exactly when every path is iterable |
| PathMerge.SegmentBaseIndex | Bots/aC_Scripts/PyQuishAI.py:221-229 | flat data and a non-positive segment number give 0; a segment number past the end raises (IndexError) |
| PathMerge.BaseSumBeyondEnd | Bots/aC_Scripts/PyQuishAI.py:221-229 | summing lengths over more segments than exist fails |
| PathMerge.PathLengthMatchesIteration | Bots/aC_Scripts/PyQuishAI.py:225-228 | `len(seg.get("path", []) or [])` counts exactly the points `merge_map_segments` appends for that segment |
| PathMerge.MergedIndexAgrees | Bots/aC_Scripts/PyQuishAI.py:221-229 | point `j` of segment `i` sits at position `base(i) + j` of the concatenation |
| PathMerge.BaseOfEndIsMergedLength | Bots/aC_Scripts/PyQuishAI.py:221-229 | the base index one past the last segment is the merged length |
| PathMerge.MergeAndBaseIndexAgree | Bots/aC_Scripts/PyQuishAI.py:221-229 | for segmented data that merges, `merged[_segment_base_index(data, i) + j]` is `data[i]["path"][j]`, and the base of `len(data)` is `len(merged)` |
| Blessing.TriggerBlessingAt | Bots/aC_Scripts/PyQuishAI.py:108-121 | it fires exactly for an untriggered point first seen at least 5000 ms earlier; firing adds the point to the triggered set; the first sighting only records its time, which later calls never move |
| Blessing.RunKeepsTriggered | Bots/aC_Scripts/PyQuishAI.py:108-121 | over any sequence of calls, a triggered point stays triggered |
| Blessing.FiresAtMostOnce | Bots/aC_Scripts/PyQuishAI.py:108-121 | over any sequence of calls a point fires at most once, never if it was already triggered, and every point that fired ends up triggered |
| Blessing.NearBlessingPoint | Bots/aC_Scripts/PyQuishAI.py:534-542 | the point chosen is untriggered and strictly within 2500, and every earlier point is triggered or out of range |
| PathAndAggro.New | Bots/aC_Scripts/PyQuishAI.py:232-266 | a fresh controller satisfies the invariant `Valid` (the handler walks the controller's own waypoint list, a pending forced index is in range, the current point is the waypoint at the handler's index, and combat mode has a target), in path mode, with no forced index, no hold and no current point |
| PathAndAggro.EnableHold | Bots/aC_Scripts/PyQuishAI.py:269 | hold is on; the cursor, the forced index, the reported index and the invariant are kept; releasing afterwards is the same as releasing directly |
| PathAndAggro.ReleaseHold | Bots/aC_Scripts/PyQuishAI.py:270-272 | hold is off and no forced index is pending; the invariant is kept |
| PathAndAggro.CurrentIndex | Bots/aC_Scripts/PyQuishAI.py:322-338 | the index is never negative; it is the handler's index when no index is forced, and the forced index when one is pending |
| PathAndAggro.SetActiveIndex | Bots/aC_Scripts/PyQuishAI.py:274-291 | with no waypoints it returns False and changes only the status; otherwise the handler and the reported index move to the clamped index, the forced index, hold and current point are cleared, following stops, and no move is issued |
| PathAndAggro.ForceMoveToIndex | Bots/aC_Scripts/PyQuishAI.py:340-360 | with no waypoints it returns False; otherwise it moves once to the clamped waypoint, leaves that index pending, reports it as current, and holds when `sticky` or already holding |
| PathAndAggro.SeekRelative | Bots/aC_Scripts/PyQuishAI.py:362-372 | with no waypoints it returns False; otherwise it force-moves to `clamp(current + delta)` |
| PathAndAggro.AdvanceIndexOnly | Bots/aC_Scripts/PyQuishAI.py:376-389 | at the last index it returns False and changes nothing; otherwise the handler's index becomes `get_current_index() + 1` and the current point that waypoint, with no call made; since the handler's index is that of the current point (`PathAndAggro.Valid`), this is the waypoint after the current point |
| PathAndAggro.AdvanceIndexAndMove | Bots/aC_Scripts/PyQuishAI.py:391-409 | at the last index it returns False and changes nothing; otherwise it steps the handler's index to `get_current_index() + 1`, as `_advance_index_only` does, and makes exactly one move, to that waypoint |
| PathAndAggro.AdvanceHelpersAgree | Bots/aC_Scripts/PyQuishAI.py:376-409 | the two helpers succeed together and step to the same index and point; only the second one moves |
| PathAndAggroTick.FindAgent | Bots/aC_Scripts/PyQuishAI.py:569 | the position found carries the requested id, and no position carries it when none is found |
| PathAndAggroTick.NearestEnemyIndex | Bots/aC_Scripts/PyQuishAI.py:425-434 | nothing is found exactly when no live enemy is within aggro range; otherwise the one found is such an enemy, no eligible enemy is nearer, and every earlier one is strictly farther (the stable sort's choice) |
| PathAndAggroTick.ThrottledScan | Bots/aC_Scripts/PyQuishAI.py:413-423 | when the player has moved at least 0.75 of the aggro range, or 500 ms have passed, it queries once and records the result, position and time; otherwise it returns the cached result and changes nothing |
| PathAndAggroTick.AdvanceToNextPoint | Bots/aC_Scripts/PyQuishAI.py:436-509 | in hold the handler is never advanced and hold stays; a pending forced index is moved to once and then cleared, with or without hold; when not following, the handler advances and the bot moves to the point it yields, or the handler is reset once it runs out, and either way the handler's index is put back onto the yielded point (the corrected behaviour, see Findings); when following, the bot advances within 375 if no enemy was scanned, else only within 250, and otherwise waits; a lost current point stops following; mode, targets and the invariant are kept |
| PathAndAggroTick.FlowOrArriveMeaning | Bots/aC_Scripts/PyQuishAI.py:493-509 | short of the last index the fluid advance moves to waypoint `get_current_index() + 1`; at the last one it stops following, arrives and makes no call; with no forced index this is the waypoint right after the current point |
| PathAndAggroTick.HandlerNext | Bots/aC_Scripts/PyQuishAI.py:462-482 | `path_handler.advance()` yields the handler's point and the bot moves to it; once exhausted, the handler is reset and its first point taken; the handler's index ends on the yielded point when synced, one past it as written |
| PathAndAggroTick.AdvanceToNextPointAsWritten | Bots/aC_Scripts/PyQuishAI.py:462-482 | as written, a yielded point leaves the handler's index one past it; every other branch is `AdvanceToNextPoint` |
| PathAndAggroTick.FollowStepOnPoint | Bots/aC_Scripts/PyQuishAI.py:483-509 | while following, with the player on the current point, one tick moves to the waypoint right after it and keeps following there |
| PathAndAggroTick.WalkVisitsEveryWaypoint | Bots/aC_Scripts/PyQuishAI.py:483-509 | following the path with the player reaching each point, `n` ticks make exactly the moves to the next `n` waypoints, in order, none skipped |
| PathAndAggroTick.SkipsSecondWaypointAsWritten | Bots/aC_Scripts/PyQuishAI.py:462-509 | on the path `[a, b, d]` the as-written advance moves to `a` and then straight to `d`; the corrected one moves to `a` and then `b` |
| PathAndAggroTick.AsWrittenBreaksValid | Bots/aC_Scripts/PyQuishAI.py:462-482 | on the path `[a, b, d]` a fresh controller satisfies the invariant; one as-written advance breaks it (the handler's index is no longer the current point's), and one corrected advance keeps it |
| PathAndAggroTick.CurrentWaypoint | Bots/aC_Scripts/PyQuishAI.py:308-320 | the current point when there is one, else the waypoint nearest the player, and `None` only when there is neither |
| PathAndAggroTick.NearestIndex | Bots/aC_Scripts/PyQuishAI.py:316-318 | the index is of a waypoint no other is nearer than, and the first such |
| PathAndAggroTick.PathTick | Bots/aC_Scripts/PyQuishAI.py:544-554 | a scanned enemy switches to combat and latches it as target, without advancing in the same tick; otherwise path mode stays; no target or move command is issued; the invariant is kept (with the corrected advance of ## Findings; the advance as written breaks it, `PathAndAggroTick.AsWrittenBreaksValid`) |
| PathAndAggroTick.CombatReach | Bots/aC_Scripts/PyQuishAI.py:556-567 | within 312 of the current waypoint (or of the nearest one) and short of the last, the index steps on by one without a move; otherwise the cursor and current point stay; mode, targets, hold and the remembered commands never change |
| PathAndAggroTick.Engage | Bots/aC_Scripts/PyQuishAI.py:589-600 | `ChangeTarget` is issued exactly when the target differs from the last one, and `Move` exactly when the truncated position differs from the last move; both are remembered |
| PathAndAggroTick.CombatTick | Bots/aC_Scripts/PyQuishAI.py:556-600 | a missing or dead target returns to path mode; a command issued differs from the last one remembered and becomes it; staying in combat means a live target, with each command issued exactly when it is new |
| PathAndAggroTick.Pursue | Bots/aC_Scripts/PyQuishAI.py:575-600 | a failed re-scan returns to path mode without commands; otherwise each command is issued exactly when it is new |
| PathAndAggroTick.QueryThen | Bots/aC_Scripts/PyQuishAI.py:575-598 | the enemy query in front of the commands changes which commands are issued in no way |
| PathAndAggroTick.Approach | Bots/aC_Scripts/PyQuishAI.py:581-600 | an unreadable enemy position returns to path mode with no call; otherwise each command is issued exactly when it is new |
| PathAndAggroTick.BlessingCheck | Bots/aC_Scripts/PyQuishAI.py:533-542 | at most one blessing is asked for, for a point not yet triggered, which then becomes triggered; nothing but the blessing state and the status changes |
| PathAndAggroTick.Update | Bots/aC_Scripts/PyQuishAI.py:525-602 | while looting only the status changes; the invariant (with the corrected advance of ## Findings) and the waypoint list are kept; every target or move command issued differs from the last one and is remembered |
| PathAndAggroTick.NoRepeatedCommands | Bots/aC_Scripts/PyQuishAI.py:589-598 | a target or move command issued in one tick is never issued again in the next |
| PathAndAggroTick.RunTicks | Bots/aC_Scripts/PyQuishAI.py:525-602 | any number of ticks keep the invariant (with the corrected advance of ## Findings) |
| PathAndAggroTick.PinnedTick | Bots/aC_Scripts/PyQuishAI.py:439-449 | one quiet tick in hold keeps the index pinned and never advances the handler |
| PathAndAggroTick.HoldPinsCursor | Bots/aC_Scripts/PyQuishAI.py:439-449 | any number of quiet ticks in hold keep the index pinned and never advance the handler |
| PathAndAggroTick.ForcedHoldStays | Bots/aC_Scripts/PyQuishAI.py:340-360 | after a sticky forced move, quiet ticks keep the bot holding on the clamped waypoint, and the handler is never advanced |
| MarkerColor.SkipSpaces | Bots/aC_Scripts/build_markers_ini.py:80 | everything skipped is whitespace, and the stop is at the end or at a non-space |
| MarkerColor.TrimSpaces | Bots/aC_Scripts/build_markers_ini.py:80 | everything cut is whitespace, and what is kept does not end in whitespace |
| MarkerColor.StripBounds | Bots/aC_Scripts/build_markers_ini.py:80 | all that `strip()` removes is whitespace, and the part kept neither starts nor ends with whitespace |
| MarkerColor.Strip | Bots/aC_Scripts/build_markers_ini.py:80 | the result is no longer than the input and neither starts nor ends with whitespace |
| MarkerColor.StripUnchanged | Bots/aC_Scripts/build_markers_ini.py:80 | a string with no outer whitespace is its own strip |
| MarkerColor.StripIdempotent | Bots/aC_Scripts/build_markers_ini.py:80 | stripping twice is stripping once |
| MarkerColor.UpperDigit | Bots/aC_Scripts/build_markers_ini.py:86 | an upper-cased hex digit is an upper-case hex digit, and upper-case digits are unchanged |
| MarkerColor.Upper | Bots/aC_Scripts/build_markers_ini.py:86 | same length, each digit upper-cased in place |
| MarkerColor.ColorArg | Bots/aC_Scripts/build_markers_ini.py:72-95 | every accepted colour is `0x` and eight upper-case hex digits; `#RRGGBB` is accepted exactly when it has six hex digits, as `0xFF` and those digits; otherwise exactly eight digits with an optional lower-case `0x` are accepted; an error carries the stripped text |
| MarkerColor.NormalColorOf | Bots/aC_Scripts/build_markers_ini.py:86-91 | `0x` and eight upper-case digits is the normal form |
| MarkerColor.HashColor | Bots/aC_Scripts/build_markers_ini.py:81-86 | the `#` branch accepts exactly six hex digits, gives an opaque normal colour, and otherwise the `#` error |
| MarkerColor.PlainColor | Bots/aC_Scripts/build_markers_ini.py:88-95 | the other branch accepts exactly the eight-digit forms, gives their digits upper-cased, and otherwise the plain error |
| MarkerColor.NormalColorsAreFixedPoints | Bots/aC_Scripts/build_markers_ini.py:72-95 | `color_arg` returns a string unchanged exactly when it is already in normal form |
| MarkerColor.ColorArgIdempotent | Bots/aC_Scripts/build_markers_ini.py:80-91 | normalising an accepted colour a second time gives it back |
| MarkerColor.ColorArgIgnoresCase | Bots/aC_Scripts/build_markers_ini.py:88-91 | eight hex digits give the same colour whatever their case |
| MarkerShape.SegPath | Bots/aC_Scripts/build_markers_ini.py:56-63 | the path of a segment dictionary is a list of pairs |
| MarkerShape.FloatPair | Bots/aC_Scripts/build_markers_ini.py:45-46 | on a pair it converts the two numbers in order |
| MarkerShape.Points | Bots/aC_Scripts/build_markers_ini.py:247 | one point per pair, in order, each of the pair's two numbers |
| MarkerShape.PointsAreFloatPairs | Bots/aC_Scripts/build_markers_ini.py:247 | the points are `float_pair` of each item |
| MarkerShape.IdsBases | Bots/aC_Scripts/build_markers_ini.py:118-121 | a name is collected exactly when some variable `<name>_ids` holds a dictionary |
| MarkerShape.BaseNames | Bots/aC_Scripts/build_markers_ini.py:113-122 | the map names are strictly sorted, so without repeats, and are exactly the collected ones |
| MarkerShape.PickMapData | Bots/aC_Scripts/build_markers_ini.py:124-147 | nothing unless `ids` is a dictionary with both ids; the explorable data is kept exactly when it has one of the two accepted shapes; the outpost path is kept when it is a list of pairs and is otherwise empty |
| MarkerSections.NumberedAppend | Bots/aC_Scripts/build_markers_ini.py:192 | two consecutively numbered runs, the second starting where the first ends, are one consecutive run |
| MarkerSections.LineColorShift | Bots/aC_Scripts/build_markers_ini.py:174-175 | toggling the colour flag shifts the alternation by one line |
| MarkerSections.LineRun | Bots/aC_Scripts/build_markers_ini.py:167-195 | the loop makes one section per consecutive pair, numbered and named on from both counters |
| MarkerSections.LineRunDraws | Bots/aC_Scripts/build_markers_ini.py:171-193 | line `k` runs from point `k` to point `k + 1`, and the colours alternate from the starting flag |
| MarkerSections.LineSections | Bots/aC_Scripts/build_markers_ini.py:151-195 | `max(0, n - 1)` sections numbered consecutively from the counter, named `_wpNNN` on from the waypoint counter; both counters advance by that count |
| MarkerSections.LineSectionsIsLoop | Bots/aC_Scripts/build_markers_ini.py:167-195 | the closed form equals the toggling loop: line `k` joins points `k` and `k + 1`, in colour A exactly when `k` is even |
| MarkerSections.ConnectorSection | Bots/aC_Scripts/build_markers_ini.py:197-219 | a connector-coloured section at the given number, and the counter after it |
| MarkerSections.NormalizeSegments | Bots/aC_Scripts/build_markers_ini.py:245-249 | the first pass keeps one converted segment per input segment |
| MarkerSections.NormalizeSegmentsFails | Bots/aC_Scripts/build_markers_ini.py:245-249 | the first pass fails exactly when some segment's `bless` cannot be converted |
| MarkerSections.NormalizeSegmentsConverts | Bots/aC_Scripts/build_markers_ini.py:245-249 | where it succeeds, segment `i` becomes its path's points and its converted bless |
| MarkerSections.BlessLink | Bots/aC_Scripts/build_markers_ini.py:255-274 | a bless link exists exactly when the segment has a bless and a point, from the bless to the first point |
| MarkerSections.ConnectorLink | Bots/aC_Scripts/build_markers_ini.py:289-312 | a connector exists exactly when the connector end exists, from the last point of this path to that end |
| MarkerSections.SegmentSections | Bots/aC_Scripts/build_markers_ini.py:252-312 | a segment contributes its bless link, `max(0, len(path) - 1)` lines and at most one connector, numbered consecutively, all for this map |
| MarkerSections.SegmentOpensWithBless | Bots/aC_Scripts/build_markers_ini.py:255-274 | a segment's block opens with a bless link exactly when the segment has a bless and a point |
| MarkerSections.SegmentClosesWithConnector | Bots/aC_Scripts/build_markers_ini.py:289-312 | a block closes with a connector exactly when a next segment exists, this path is non-empty and the next segment has a bless or a point; it runs from the last point to the next bless, else the next first point |
| MarkerSections.SegmentLinesArePrefixed | Bots/aC_Scripts/build_markers_ini.py:276-287 | every path line of a segment's block is named after that segment |
| MarkerSections.BlocksKeep | Bots/aC_Scripts/build_markers_ini.py:252-312 | every block is consecutively numbered and tagged with the map id and map name |
| MarkerSections.EmitFrom | Bots/aC_Scripts/build_markers_ini.py:252-312 | the blocks of all segments, each numbered from where the one before ends, form one consecutive run for this map |
| MarkerSections.SectionsForExplorable | Bots/aC_Scripts/build_markers_ini.py:221-329 | consecutive numbering from the counter, which is returned past the sections, all for this map; only a list of segment dictionaries can make it raise (through a `bless` that does not convert); a flat list of pairs gives exactly its alternating path lines, named as segment 1; any other shape gives nothing |
| MarkerSections.SectionsForOutpost | Bots/aC_Scripts/build_markers_ini.py:331-353 | nothing for an invalid outpost; otherwise `max(0, n - 1)` alternating lines named `_outpost_wpNNN` on the outpost map, numbered consecutively |
| MarkerSections.ToInt | Bots/aC_Scripts/build_markers_ini.py:376-377 | `int()` keeps integers, truncates floats toward zero, and raises on anything but a number or a string |
| MarkerSections.SectionsForBase | Bots/aC_Scripts/build_markers_ini.py:373-390 | one map's sections are numbered consecutively and named after it, and only exist when both ids convert |
| MarkerSections.ProcessBases | Bots/aC_Scripts/build_markers_ini.py:372-392 | the sections of all map names are numbered consecutively from the counter, which is returned past them, each for one of those names |
| MarkerSections.ProcessModule | Bots/aC_Scripts/build_markers_ini.py:355-392 | `next_index == start + len(sections)`, consecutive numbering, every section for one of the module's map names, and nothing when it has none |
| MarkerSections.BuildMarkers | Bots/aC_Scripts/build_markers_ini.py:412-441 | over all modules, the output is numbered consecutively from `max(0, start_index)`, so no section number is negative, and the counter is returned past it; the output and the counter are what `Gathered` collects: each imported module on which `process_module` succeeds adds its sections, and the others add nothing |
| MarkerSections.GatheredModule | Bots/aC_Scripts/build_markers_ini.py:412-441 | module `i`'s sections, when it was imported and `process_module` succeeds on it with the counter the modules before it leave, come next in the output right after theirs; a missing or failing module adds nothing and leaves the counter alone; what is gathered up to module `i` is a prefix of the whole output |
| MarkerSections.GatheredNumbered | Bots/aC_Scripts/build_markers_ini.py:412-441 | the gathered output is numbered consecutively from the starting counter, which ends past it |
| MarkerSections.GatherFromAppend | Bots/aC_Scripts/build_markers_ini.py:412-441 | running the loop over two runs of modules is running it over the first, then over the second from where it stopped |
| PathAnalysis.CountCoords | Bots/aC_Scripts/analyze_pyquishai_paths.py:99-109 | no more coordinates than items |
| PathAnalysis.Scan | Bots/aC_Scripts/analyze_pyquishai_paths.py:162-168 | one coordinate or one warning per item, the coordinates being the items `is_coordinate` accepts, and every warning about a position of the list |
| PathAnalysis.CountGrows | Bots/aC_Scripts/analyze_pyquishai_paths.py:162-168 | a longer prefix holds at least as many coordinates, one more when the extra item is one |
| PathAnalysis.ScanKeeps | Bots/aC_Scripts/analyze_pyquishai_paths.py:162-168 | every coordinate item is kept, normalised, at the position the coordinates before it leave for it |
| PathAnalysis.ScanWarns | Bots/aC_Scripts/analyze_pyquishai_paths.py:162-168 | every other item gets a warning naming its index, in order |
| PathAnalysis.WarnedStep | Bots/aC_Scripts/analyze_pyquishai_paths.py:163-166 | scanning one more item never moves an earlier warning |
| PathAnalysis.ScanKeepsOrder | Bots/aC_Scripts/analyze_pyquishai_paths.py:162-168 | kept coordinates keep the order of the items they come from |
| PathAnalysis.SegmentPath | Bots/aC_Scripts/analyze_pyquishai_paths.py:145-148 | a path is only found in a dictionary with a `path` key |
| PathAnalysis.ScanSegment | Bots/aC_Scripts/analyze_pyquishai_paths.py:144-159 | a segment without a list path gives one warning and nothing else; otherwise one coordinate or one warning per point, the warnings naming the segment |
| PathAnalysis.ScanSegments | Bots/aC_Scripts/analyze_pyquishai_paths.py:142-160 | every warning of the first `n` segments is about one of them |
| PathAnalysis.SegmentWarningsGather | Bots/aC_Scripts/analyze_pyquishai_paths.py:142-160 | the warnings gathered from `n` segments are about those segments |
| PathAnalysis.GatherSegmentWarnings | Bots/aC_Scripts/analyze_pyquishai_paths.py:142-160 | warnings that are each about their own segment or an earlier one are, gathered, about the first `n` |
| PathAnalysis.SegmentWarningsOfOne | Bots/aC_Scripts/analyze_pyquishai_paths.py:144-159 | a segment only warns about itself |
| PathAnalysis.SegmentWarningsJoin | Bots/aC_Scripts/analyze_pyquishai_paths.py:142-160 | appending warnings about the first `n` segments to warnings about fewer stays about the first `n` |
| PathAnalysis.SegmentsInOrder | Bots/aC_Scripts/analyze_pyquishai_paths.py:142-160 | segment `i`'s coordinates and warnings sit right after everything the earlier segments produced |
| PathAnalysis.FlattenMapPath | Bots/aC_Scripts/analyze_pyquishai_paths.py:116-168 | anything but a list or tuple gives no coordinates and exactly one warning naming its type; an empty list gives nothing; a flat list gives one coordinate or one warning per item; segmented data warns only about existing segments |
| PathAnalysis.FlattenTupleAsList | Bots/aC_Scripts/analyze_pyquishai_paths.py:134-135 | a tuple flattens exactly as the list of the same items |
| PathAnalysis.ComputeSegments | Bots/aC_Scripts/analyze_pyquishai_paths.py:171-191 | `waypoint_count` is the number of points; there are `max(0, n - 1)` steps, step `i` going from point `i` to point `i + 1`; the total is the sum of the step distances |
| PathAnalysis.ArgMax | Bots/aC_Scripts/analyze_pyquishai_paths.py:54 | no position without steps; otherwise the first step no other is longer than |
| PathAnalysis.ArgMin | Bots/aC_Scripts/analyze_pyquishai_paths.py:60 | no position without steps; otherwise the first step no other is shorter than |
| PathAnalysis.MaxSegment | Bots/aC_Scripts/analyze_pyquishai_paths.py:50-54 | `None` exactly without steps; otherwise a step no other is longer than |
| PathAnalysis.MinSegment | Bots/aC_Scripts/analyze_pyquishai_paths.py:56-60 | `None` exactly without steps; otherwise a step no other is shorter than |
| PathAnalysis.AverageSegment | Bots/aC_Scripts/analyze_pyquishai_paths.py:62-66 | 0.0 without steps; otherwise the value that, times the step count, gives the total |
| PathAnalysis.TotalBounds | Bots/aC_Scripts/analyze_pyquishai_paths.py:176-180 | a sum of `n` distances between `lo` and `hi` lies between `n * lo` and `n * hi` |
| PathAnalysis.AverageBetweenMinAndMax | Bots/aC_Scripts/analyze_pyquishai_paths.py:50-66 | for computed statistics, the average lies between the shortest and the longest step |
| PathAnalysis.AverageWithin | Bots/aC_Scripts/analyze_pyquishai_paths.py:62-66 | the average of steps between `lo` and `hi` lies between them |
| PathAnalysis.ShareBounds | Bots/aC_Scripts/analyze_pyquishai_paths.py:66 | sharing a total within `n * lo .. n * hi` over `n` gives a value within `lo .. hi` |
| PathLengths.MergeSequence | Bots/aC_Scripts/calc_pyquishai_path_lengths.py:88-96 | a list or tuple gives each item's contribution in order: a pair itself, anything else what it holds |
| PathLengths.MergeValues | Bots/aC_Scripts/calc_pyquishai_path_lengths.py:82-86 | a dictionary without `path` gives what its values hold, in insertion order |
| PathLengths.MergePathOnly | Bots/aC_Scripts/calc_pyquishai_path_lengths.py:79-81 | a dictionary with `path` gives what that path holds; its other keys, `bless` among them, never matter |
| PathLengths.MergeScalar | Bots/aC_Scripts/calc_pyquishai_path_lengths.py:98 | a scalar holds no pairs |
| PathLengths.MergeAppend | Bots/aC_Scripts/calc_pyquishai_path_lengths.py:88-96 | merging a list is merging its halves and joining the results |
| PathLengths.MergeTupleAsList | Bots/aC_Scripts/calc_pyquishai_path_lengths.py:88 | a tuple merges as the list of the same items |
| PathLengths.MergePairList | Bots/aC_Scripts/calc_pyquishai_path_lengths.py:67-96 | a flat list of pairs merges to exactly the points the marker builder reads from it |
| PathLengths.MergeSegmentList | Bots/aC_Scripts/calc_pyquishai_path_lengths.py:79-96 | a list of segment dictionaries merges to each segment's path points, segment by segment |
| PathLengths.ComputeDistances | Bots/aC_Scripts/calc_pyquishai_path_lengths.py:124-131 | `max(0, n - 1)` entries, entry `i` joining point `i` to point `i + 1` with its distance |
| PathLengths.ScanOfPairs | Bots/aC_Scripts/calc_pyquishai_path_lengths.py:67-74 | the analysis keeps every pair of a run of pairs, in order, and warns about none |
| PathLengths.PointsSnoc | Bots/aC_Scripts/build_markers_ini.py:247 | the points of a list of pairs are those of all items but the last, then the last one's |
| PathLengths.FlattenersAgreeOnPairs | Bots/aC_Scripts/calc_pyquishai_path_lengths.py:77-98 | on a flat list of pairs the analysis flattener and this one give the same points, with no warning |
| PathLengths.FlattenersAgreeOnSegments | Bots/aC_Scripts/calc_pyquishai_path_lengths.py:77-98 | on a non-empty list of segment dictionaries the two flatteners again agree, with no warning |
| PathLengths.FlattenersDifferOnTriples | Bots/aC_Scripts/calc_pyquishai_path_lengths.py:67-74 | where they part: a three-number list is a coordinate to the analysis but holds no pair here |
| Loot.WithMembers | Py4GWCoreLib/py4gwcorelib_src/Lootconfig.py:44-135 | one set replaced; the other five, the flags and the radius are untouched |
| Loot.Reset | Py4GWCoreLib/py4gwcorelib_src/Lootconfig.py:20-33 | all six flags off, all six sets empty, radius Earshot |
| Loot.SetProperties | Py4GWCoreLib/py4gwcorelib_src/Lootconfig.py:35-41 | exactly the six flags are assigned; the sets and radius are unchanged |
| Loot.Add | Py4GWCoreLib/py4gwcorelib_src/Lootconfig.py:44-45 | afterwards the id is in that set, which gained just it, and nothing else changed |
| Loot.Remove | Py4GWCoreLib/py4gwcorelib_src/Lootconfig.py:47-48 | afterwards the id is not in that set, which lost just it; an absent id changes nothing |
| Loot.Clear | Py4GWCoreLib/py4gwcorelib_src/Lootconfig.py:50-51 | afterwards that set holds nothing; the rest is unchanged |
| Loot.RemoveUndoesAdd | Py4GWCoreLib/py4gwcorelib_src/Lootconfig.py:44-135 | removing a freshly added id gives back the original configuration |
| Loot.ConfigExt | Py4GWCoreLib/py4gwcorelib_src/Lootconfig.py:20-33 | the sets, flags and radius determine the configuration |
| Loot.SetPickupRadius | Py4GWCoreLib/py4gwcorelib_src/Lootconfig.py:141-150 | a value `float()` rejects changes nothing; a negative one becomes 0; a non-negative radius stays non-negative |
| Loot.KeepPrecedence | Py4GWCoreLib/py4gwcorelib_src/Lootconfig.py:208-246 | item-id whitelist keeps, then item-id blacklist drops, then model whitelist keeps, then model blacklist drops, and only then the rarity decides |
| Loot.WhitelistingNeverDrops | Py4GWCoreLib/py4gwcorelib_src/Lootconfig.py:208-216 | whitelisting any id never drops a kept item |
| Loot.BlacklistingNeverKeeps | Py4GWCoreLib/py4gwcorelib_src/Lootconfig.py:211-220 | blacklisting any id never keeps a dropped item |
| Loot.DyeListsIgnored | Py4GWCoreLib/py4gwcorelib_src/Lootconfig.py:203-246 | the dye sets play no part in the decision |
| Loot.ResetKeepsOnlyUncoloured | Py4GWCoreLib/py4gwcorelib_src/Lootconfig.py:222-246 | a fresh configuration keeps exactly the items of none of the five rarities |
| Loot.Select | Py4GWCoreLib/py4gwcorelib_src/Lootconfig.py:194-200 | no more elements than the input |
| Loot.SelectMembers | Py4GWCoreLib/py4gwcorelib_src/Lootconfig.py:194-200 | an element is selected exactly when it is in the input and passes the test |
| Loot.SelectIsSubsequence | Py4GWCoreLib/py4gwcorelib_src/Lootconfig.py:194-200 | what is selected is an order-preserving subsequence of the input |
| Loot.SubsequenceOfLonger | Py4GWCoreLib/py4gwcorelib_src/Lootconfig.py:203 | a subsequence stays one when the longer list grows |
| Loot.SubsequenceDropLast | Py4GWCoreLib/py4gwcorelib_src/Lootconfig.py:203 | a subsequence without its last element is still one |
| Loot.SelectSelect | Py4GWCoreLib/py4gwcorelib_src/Lootconfig.py:194-200 | filtering twice is filtering once by both tests |
| Loot.SelectStep | Py4GWCoreLib/py4gwcorelib_src/Lootconfig.py:203 | filtering one more element adds it exactly when it passes |
| Loot.RemoveFirst | Py4GWCoreLib/py4gwcorelib_src/Lootconfig.py:212 | `list.remove` shortens the list by one |
| Loot.RemoveFirstAfter | Py4GWCoreLib/py4gwcorelib_src/Lootconfig.py:212 | `list.remove` takes out the first occurrence |
| Loot.FilterLoot | Py4GWCoreLib/py4gwcorelib_src/Lootconfig.py:203-246 | the loop leaves exactly the kept agents, in their order, a subsequence of the array |
| Loot.RemoveRejected | Py4GWCoreLib/py4gwcorelib_src/Lootconfig.py:203-246 | removing each rejected agent while iterating over a copy is filtering the array, and `remove` always finds its agent |
| Loot.RemoveStep | Py4GWCoreLib/py4gwcorelib_src/Lootconfig.py:203-246 | the agent looked at is the first occurrence of itself after the kept prefix, so one turn moves the boundary one place on |
| Loot.FilteredLootArray | Py4GWCoreLib/py4gwcorelib_src/Lootconfig.py:152-246 | nothing on an invalid map; otherwise exactly the agents in range, owned as the mode requires, and kept, in their order: an order-preserving subsequence of the ground items |
| Loot.WantedMembers | Py4GWCoreLib/py4gwcorelib_src/Lootconfig.py:194-246 | an agent survives the three filters exactly when it is on the ground and passes each |
| Formation.Names | Widgets/HeroFormationFlagger.py:217-218 | the names of a table, one per entry, in order |
| Formation.NormalizePair | Widgets/HeroFormationFlagger.py:63 | a pair converts only when both subscripts exist |
| Formation.NormalizeKeepsFirstTwo | Widgets/HeroFormationFlagger.py:62-65 | a sequence of two or more numbers gives its first two as floats |
| Formation.NormalizeRejectsShort | Widgets/HeroFormationFlagger.py:63 | a sequence shorter than two raises |
| Formation.NormalizeList | Widgets/HeroFormationFlagger.py:62-65 | one point per pair |
| Formation.NormalizeListPointwise | Widgets/HeroFormationFlagger.py:62-65 | the comprehension raises exactly when some pair does, and otherwise converts each pair in place |
| Formation.NormalizeOffsets | Widgets/HeroFormationFlagger.py:59-66 | every formation name keeps its place |
| Formation.NormalizeKeepsCounts | Widgets/HeroFormationFlagger.py:59-66 | every formation keeps one offset per pair its source yields, each converted |
| Formation.LoadLegacy | Widgets/HeroFormationFlagger.py:159-189 | a missing file, a failed import or a non-dictionary gives `{}`; a non-empty result is the normalised table |
| Formation.LoadLegacyOutcome | Widgets/HeroFormationFlagger.py:174-189 | a table that normalises loads normalised; one that raises loads as `{}` |
| Formation.PyAt | Widgets/HeroFormationFlagger.py:216 | indexing succeeds exactly for `-len <= i < len`, and non-negative indices pick that element |
| Formation.Lookup | Widgets/HeroFormationFlagger.py:217 | a non-empty table found is the one stored under the key |
| Formation.LookupFinds | Widgets/HeroFormationFlagger.py:217 | the first entry carrying a name is what that name finds |
| Formation.EnsureValidIndices | Widgets/HeroFormationFlagger.py:205-226 | with no sources, `(None, [])` and both indices 0; otherwise a dataset index past the end resets to 0 and one below `-len` raises; the names are the chosen table's, sorted; the formation index resets to 0 when out of range or there are no names; negative indices stay |
| Formation.IndicesInRange | Widgets/HeroFormationFlagger.py:213-226 | from non-negative indices, both come out in range and the dataset name is that index's |
| Formation.EnsureValidIndicesIdempotent | Widgets/HeroFormationFlagger.py:205-226 | running the check on its own output changes nothing |
| Formation.PlaceAhead | Widgets/HeroFormationFlagger.py:249-256 | an offset straight ahead lands `scale * y` along the player's facing |
| Formation.PlaceAside | Widgets/HeroFormationFlagger.py:249-256 | an offset to the side lands `scale * x` along the facing turned a quarter clockwise |
| Formation.PlaceLinear | Widgets/HeroFormationFlagger.py:249-256 | placement is linear in the offset |
| Formation.PlaceKeepsDistance | Widgets/HeroFormationFlagger.py:249-256 | with a unit facing vector an offset lands at its scaled length from the player: a pure rotation |
| Formation.RotationSquares | Widgets/HeroFormationFlagger.py:253-254 | the rotation multiplies squared length by `cos^2 + sin^2` |
| Formation.ComputeRotatedPositions | Widgets/HeroFormationFlagger.py:229-258 | nothing for a non-positive limit or a missing player; otherwise `min(hero_limit, len(offsets))` positions, position `i` being offset `i` placed around the player |
| Formation.Orders | Widgets/HeroFormationFlagger.py:290-297 | at most one order per position, and never for agent id 0 |
| Formation.OrdersCoverAll | Widgets/HeroFormationFlagger.py:290-297 | every position is flagged exactly when every party slot `1..n` holds a hero |
| Formation.OrdersPairSlots | Widgets/HeroFormationFlagger.py:291-296 | an order is issued exactly for each position `i` whose party slot `i + 1` holds a hero, sending that hero to that position |
| Formation.OrdersNone | Widgets/HeroFormationFlagger.py:290-297 | with no hero in any slot nothing is flagged |
| Formation.FlagHeroes | Widgets/HeroFormationFlagger.py:290-297 | the orders issued in order, and the count returned is their number, at most `len(positions)` |

## Left out

- Floating point: Python floats are exact reals here. `math.hypot` is a parameter, and `math.isclose` is not used. The `:.6f` text of the INI sections and every other message text (status messages, warnings, log lines) are not modelled. Warnings and statuses are records naming what they report.
- `float()` raising OverflowError on huge integers, and NaN or infinity, are not modelled. `float()` of a string is a parameter.
- The game API (`Player`, `Agent`, `AgentArray`, `Party`, `Item`, `Map`, `GLOBAL_CACHE`, `Get_Blessed`) is not modelled. It becomes parameters (`World`, `Ground`, `Pose`, `heroAt`) or effect records.
- `AgentArray.Sort.ByDistance` at the end of `GetfilteredLootArray` is not modelled. `Loot.FilteredLootArray` states the result before that sort.
- `GetWhitelist`, `GetBlacklist` and the other `Get*list` methods return `list(set)`, whose order Python leaves open. They are not modelled; membership is `Loot.Contains`.
- `loot_gold_coins` is stored and never read by the filter, as in `Py4GWCoreLib/py4gwcorelib_src/Lootconfig.py`. `ModelID.Gold_Coins` is a parameter of `Loot.Ground`. Rarity is one value per item, so one `Item.Rarity.Is*` check holds at most.
- Loot.Reset: `Range.Earshot.value` is not part of this model. The constant 1012 is taken from the game's Earshot range.
- The `Routines.Movement.PathHandler` and `FollowXY` handlers and the `Timer` class are not part of this model:
  - the path handler is a cursor whose `advance` returns the point at its index and then moves the index on by one, and whose `reset` puts the index back to 0 (the handler's source is not available, so this is an assumption);
  - the follow handler is its two flags;
  - a `Timer` is assumed to be the time of its last reset, or `None` when it was never started; `HasElapsed(ms)` holds when at least `ms` milliseconds have passed since then, and never for a timer that was not started (`PathAndAggro.HasElapsed`);
  - `follow_handler.update()` is not modelled.
- PathAndAggro.CurrentIndex: the fallbacks of `get_current_index` after the handler's index (the current point's position, the nearest waypoint) are never reached, because the cursor always has an index. They are not modelled.
- `get_waypoints` reads the handler's point list when the controller has none. Here the controller's own list is used, and the cursor walks that same list (`PathAndAggro.Valid`).
- PathAndAggro.COMBAT_REACH_DIST: it is 312, since `int(250 * 1.25)` truncates 312.5, not the 312.5 the product suggests.
- Blessing.TriggerBlessingAt: the debounce only needs 5 s since the first sighting. The player need not stay near the point in between, as the code has it.
- `time.time()` is an integer millisecond clock. Sub-millisecond differences in the 5.0 s debounce are not modelled.
- The statistics logging (`_maybe_log_stats`, the fetch and call counters) is not modelled, since it is logging only.
- Not modelled, none of it being decision logic:
  - the state machine, `InitializeStateMachine`, `pause_all`/`resume_all`;
  - `load_map_script`, `_compute_map_stats`;
  - the window and the overlays (`DrawWindow`, `map_info_ui.py`, `draw_widget`, `_draw_preview`);
  - INI persistence of window settings;
  - the `LootConfig` and `CacheData` singletons;
  - `HeroAI/cache_data.py`.
- Module loading and file I/O (`safe_import`, `iter_py_files`, `_load_module_points`, the `main` functions, argparse, JSON and INI writing) are not modelled. A loaded module is its namespace as ordered entries. A failed import is `None`.
- `FANDOM_FORMATIONS` data and `reload_legacy_formations` are not modelled: the tables are inputs to `Formation.EnsureValidIndices`.
- PathAndAggroTick.Update: the bot's `update` also calls `follow_handler.update()` each tick. That handler is not part of this model.
- PathAndAggroTick.AdvanceToNextPoint: at the end of the path the corrected advance differs from the code as written. After arriving at the final waypoint, whenever following stops, the corrected handler yields that waypoint again and the bot re-issues a move to it. As written, the handler runs past its end, is reset, and the bot starts the path again from the first waypoint.
- Blessing.NearBlessingPoint: each blessing point is one `(x, y)` pair. `load_map_script` appends a segment's `bless` value whole (PyQuishAI.py:620-624), and the map window reads that value as a list of points (973-976). Such an entry makes `update` raise `TypeError`, either at the `in blessing_triggered` test (537) or inside `Utils.Distance` (539). That failure is not modelled.
- PathAndAggroTick.BlessingCheck: like `Blessing.NearBlessingPoint`, it takes blessing points as single pairs. The `TypeError` a list-valued `bless` entry raises in `update` is not modelled.

## Findings

| source | as written | input that shows it | evidently intended | confidence | as-written member | corrected member |
|---|---|---|---|---|---|---|
| Bots/aC_Scripts/PyQuishAI.py:462-482 | when not following, `path_handler.advance()` moves the handler's index past the point it yields, and the branch leaves it there; the fluid advance (493-509) then steps to `get_current_index() + 1`, one waypoint too far | path `[a, b, d]`, the bot reaching each point it is sent to: it moves to `a`, then straight to `d`, and `b` is never visited | after `advance()` the handler's index is set onto the yielded point, as `force_move_to_index` and the advance helpers keep it, so every waypoint is visited in turn | medium, not executed; the `PathHandler` source is not available, and the row assumes its `advance` returns the point at its index and then increments the index | PathAndAggroTick.AdvanceToNextPointAsWritten, PathAndAggroTick.SkipsSecondWaypointAsWritten, PathAndAggroTick.AsWrittenBreaksValid | PathAndAggroTick.AdvanceToNextPoint, PathAndAggroTick.WalkVisitsEveryWaypoint |

/**
  The state of `FollowPathAndAggro` (`PyQuishAI.py`) and its debug-control
  API: the tick-driven controller that walks the merged waypoint list and
  breaks off to fight the nearest enemy.

  The collaborators the controller drives are modelled as plain data:
  - the `PathHandler` cursor (not part of this model) is an iterator over the
    same waypoint list: `advance()` yields the point at `index` and moves
    `index` on; `reset()` puts `index` back to 0; the index `PyQuishAI.py` probes
    for with `hasattr` is the `index` field, so it is always available;
  - the `FollowXY` movement handler (not part of this model) is its two
    flags; `move_to_waypoint` is assumed to start following afresh;
  - every call the controller makes on a collaborator is returned as an
    `Effect`, in the order it is made.
 */
module PathAndAggro {
  import opened Wrappers
  import opened Geometry
  import PathMerge
  import Blessing

  /** `ARRIVAL_TOLERANCE` */
  const ARRIVAL_TOLERANCE: real := 250.0
  /** `early_advance_dist = int(ARRIVAL_TOLERANCE * 1.5)` */
  const EARLY_ADVANCE_DIST: real := 375.0
  /** `combat_reach_dist = int(ARRIVAL_TOLERANCE * 1.25)`, truncated from 312.5 */
  const COMBAT_REACH_DIST: real := 312.0
  /** `_scan_interval_ms` */
  const SCAN_INTERVAL_MS: int := 500

  /** An agent id; id 0 is falsy, so `PyQuishAI.py` treats it as "no target". */
  type AgentId = int

  datatype Mode = PathMode | CombatMode

  /** The `PathHandler` cursor over the waypoint list. */
  datatype Cursor = Cursor(points: seq<Point>, index: nat)

  /** `path_handler.advance()`: the next point in order, or `None` once the path is exhausted. */
  function CursorAdvance(c: Cursor): (Option<Point>, Cursor) {
    if c.index < |c.points| then (Some(c.points[c.index]), c.(index := c.index + 1))
    else (None, c)
  }

  /** `follow_handler._following` and `follow_handler.arrived`. */
  datatype Follower = Follower(following: bool, arrived: bool)

  /** The handler after `move_to_waypoint(...)`. */
  const MOVING := Follower(true, false)

  /** A started `Timer` remembers the time of its last reset; `None` has not been started. */
  type Timer = Option<int>

  /** `timer.HasElapsed(ms)` at time `now`. */
  predicate HasElapsed(t: Timer, now: int, ms: int) {
    t.Some? && now - t.value >= ms
  }

  /** The calls the controller makes on the game and on its collaborators. */
  datatype Effect =
    | MoveTo(p: Point)                // follow_handler.move_to_waypoint(*p)
    | ChangeTarget(id: AgentId)       // Player.ChangeTarget(id)
    | PlayerMove(x: int, y: int)      // Player.Move(x, y)
    | GetBlessed                      // Get_Blessed()
    | PathAdvance                     // path_handler.advance()
    | PathReset                       // path_handler.reset()
    | EnemyQuery                      // AgentArray.GetEnemyArray() via _find_nearest_enemy

  /** `status_message`; waypoint indices are 0-based here and shown 1-based by `PyQuishAI.py`. */
  datatype Status =
    | WaitingToBegin
    | NoWaypoints
    | NoWaypointsToSeek
    | ActiveIndexSet(index: int, count: int)
    | ForcedMove(index: int, count: int, point: Point, held: bool)
    | Flowing(index: int, count: int, point: Point)
    | HoldingAt(index: int, count: int, point: Point)
    | MovingToForced(index: int, count: int, point: Point)
    | NoValidNext
    | PathResetMoving(point: Point)
    | MovingTo(point: Point)
    | LostPathPoint
    | ArrivedFinal
    | WaitingForLooting
    | NearBlessing(point: Point)
    | SwitchingToCombat
    | WaypointReachedInCombat
    | CombatDone
    | NoEnemiesThrottled
    | EnemyFetchFailed
    | ClosingIn(x: int, y: int)

  /**
    The controller's fields. `bless` and `blessPoints` are the module-level
    `blessing_triggered` / `blessing_timers` and `blessing_points` that
    `update` reads.
   */
  datatype Ctrl = Ctrl(
    waypoints: seq<Point>,
    cursor: Cursor,
    follower: Follower,
    aggroRange: real,
    mode: Mode,
    currentPoint: Option<Point>,
    forcedIndex: Option<int>,
    hold: bool,
    lastScanned: Option<AgentId>,
    lastScanPos: Point,
    scanTimer: Timer,
    target: Option<AgentId>,
    enemyCheckTimer: Timer,
    lastTargetId: Option<AgentId>,
    lastMoveTarget: Option<(int, int)>,
    bless: Blessing.BlessState,
    blessPoints: seq<Point>,
    status: Status)

  /** Python truthiness of an optional agent id. */
  predicate IsTarget(id: Option<AgentId>) {
    id.Some? && id.value != 0
  }

  /**
    What every operation keeps: the cursor walks the controller's own
    waypoint list and stays within it, a pending forced index is a valid
    position, the current point is the waypoint at the handler's index (so
    the index-based advance steps to the waypoint after it), and combat mode
    always has a target.
   */
  predicate Valid(c: Ctrl) {
    && c.cursor.points == c.waypoints
    && c.cursor.index <= |c.waypoints|
    && (c.forcedIndex.Some? ==> 0 <= c.forcedIndex.value < |c.waypoints|)
    && (c.currentPoint.Some? ==>
          c.cursor.index < |c.waypoints| && c.currentPoint.value == c.waypoints[c.cursor.index])
    && (c.mode == CombatMode ==> IsTarget(c.target))
  }

  /** `FollowPathAndAggro(path_handler, follow_handler, aggro_range, waypoints=...)` */
  function New(waypoints: seq<Point>, aggroRange: real, playerPos: Point, scanTimer: Timer,
               bless: Blessing.BlessState, blessPoints: seq<Point>): (c: Ctrl)
    ensures Valid(c)
    ensures c.mode == PathMode && c.forcedIndex.None? && !c.hold && c.currentPoint.None?
  {
    Ctrl(waypoints, Cursor(waypoints, 0), Follower(false, false), aggroRange, PathMode,
         None, None, false, None, playerPos, scanTimer, None, None, None, None,
         bless, blessPoints, WaitingToBegin)
  }

  /** The result of a debug-API call: the new state, the returned flag, and the calls made. */
  datatype Call = Call(ctrl: Ctrl, ok: bool, effects: seq<Effect>)

  /** `enable_hold()` */
  function EnableHold(c: Ctrl): (r: Ctrl)
    ensures r.hold && r.forcedIndex == c.forcedIndex && r.cursor == c.cursor && r.mode == c.mode
    ensures CurrentIndex(r) == CurrentIndex(c)
    ensures ReleaseHold(r) == ReleaseHold(c)
    ensures Valid(c) ==> Valid(r)
  {
    c.(hold := true)
  }

  /** `release_hold()`: leaves hold mode and drops any pending forced index. */
  function ReleaseHold(c: Ctrl): (r: Ctrl)
    ensures !r.hold && r.forcedIndex.None?
    ensures Valid(c) ==> Valid(r)
  {
    c.(hold := false, forcedIndex := None)
  }

  /**
    `get_current_index()`: a pending forced index (clamped), else the
    handler's index. The Python code's later fallbacks (the current point's
    position, the waypoint nearest the player) are never reached because the
    handler always has an index.
   */
  function CurrentIndex(c: Ctrl): (r: int)
    ensures r >= 0
    ensures c.forcedIndex.None? ==> r == c.cursor.index
    ensures Valid(c) && c.forcedIndex.Some? ==> r == c.forcedIndex.value
  {
    match c.forcedIndex
    case Some(f) =>
      var n := |c.waypoints|;
      PathMerge.Clamp(f, 0, if n - 1 > 0 then n - 1 else 0)
    case None => c.cursor.index
  }

  /**
    `set_active_index(idx)`: repositions the handler at the clamped index,
    clears the forced index, the hold and the current point, stops following
    and issues no move.
   */
  function SetActiveIndex(c: Ctrl, idx: int): (r: Call)
    ensures |c.waypoints| == 0 ==> r == Call(c.(status := NoWaypoints), false, [])
    ensures |c.waypoints| > 0 ==>
      var i := PathMerge.Clamp(idx, 0, |c.waypoints| - 1);
      && r.ok && r.effects == []
      && r.ctrl.cursor.index == i && CurrentIndex(r.ctrl) == i
      && r.ctrl.forcedIndex.None? && !r.ctrl.hold && r.ctrl.currentPoint.None?
      && !r.ctrl.follower.following && !r.ctrl.follower.arrived
    ensures Valid(c) ==> Valid(r.ctrl)
  {
    var n := |c.waypoints|;
    if n == 0 then Call(c.(status := NoWaypoints), false, [])
    else
      var i := PathMerge.Clamp(idx, 0, n - 1);
      var c1 := ReleaseHold(c.(cursor := c.cursor.(index := i), forcedIndex := None));
      Call(c1.(currentPoint := None, follower := Follower(false, false), status := ActiveIndexSet(i, n)), true, [])
  }

  /**
    `force_move_to_index(idx, sticky)`: moves at once to the clamped index,
    leaves it pending as the forced index, and with `sticky` enters hold.
   */
  function ForceMoveToIndex(c: Ctrl, idx: int, sticky: bool): (r: Call)
    ensures |c.waypoints| == 0 ==> r == Call(c.(status := NoWaypoints), false, [])
    ensures |c.waypoints| > 0 ==>
      var i := PathMerge.Clamp(idx, 0, |c.waypoints| - 1);
      && r.ok && r.effects == [MoveTo(c.waypoints[i])]
      && r.ctrl.forcedIndex == Some(i) && CurrentIndex(r.ctrl) == i && r.ctrl.cursor.index == i
      && r.ctrl.currentPoint == Some(c.waypoints[i])
      && r.ctrl.hold == (c.hold || sticky)
      && r.ctrl.mode == c.mode
    ensures Valid(c) ==> Valid(r.ctrl)
  {
    var n := |c.waypoints|;
    if n == 0 then Call(c.(status := NoWaypoints), false, [])
    else
      var i := PathMerge.Clamp(idx, 0, n - 1);
      var pt := c.waypoints[i];
      var c1 := c.(cursor := c.cursor.(index := i), forcedIndex := Some(i));
      var c2 := if sticky then EnableHold(c1) else c1;
      Call(c2.(follower := MOVING, currentPoint := Some(pt), status := ForcedMove(i, n, pt, c2.hold)),
           true, [MoveTo(pt)])
  }

  /**
    `seek_relative(delta, sticky)`: `force_move_to_index` to the current index
    plus `delta`, clamped.
   */
  function SeekRelative(c: Ctrl, delta: int, sticky: bool): (r: Call)
    ensures |c.waypoints| == 0 ==> r == Call(c.(status := NoWaypointsToSeek), false, [])
    ensures |c.waypoints| > 0 ==>
      var i := PathMerge.Clamp(CurrentIndex(c) + delta, 0, |c.waypoints| - 1);
      && r.ok && r.effects == [MoveTo(c.waypoints[i])]
      && r.ctrl.forcedIndex == Some(i) && r.ctrl.hold == (c.hold || sticky)
    ensures Valid(c) ==> Valid(r.ctrl)
  {
    var n := |c.waypoints|;
    if n == 0 then Call(c.(status := NoWaypointsToSeek), false, [])
    else
      var cur := CurrentIndex(c);
      var target := PathMerge.Clamp(cur + delta, 0, n - 1);
      assert PathMerge.Clamp(target, 0, n - 1) == target;
      ForceMoveToIndex(c, target, sticky)
  }

  /**
    `_advance_index_only()`: steps the index past the current one without a
    move; `false` and no change when the current index is the last.
   */
  function AdvanceIndexOnly(c: Ctrl): (r: Call)
    ensures r.effects == []
    ensures CurrentIndex(c) + 1 >= |c.waypoints| ==> r == Call(c, false, [])
    ensures CurrentIndex(c) + 1 < |c.waypoints| ==>
      var nxt := CurrentIndex(c) + 1;
      && r.ok
      && r.ctrl == c.(cursor := c.cursor.(index := nxt), currentPoint := Some(c.waypoints[nxt]))
    ensures Valid(c) ==> Valid(r.ctrl)
  {
    var n := |c.waypoints|;
    if n == 0 then Call(c, false, [])
    else
      var nxt := CurrentIndex(c) + 1;
      if nxt >= n then Call(c, false, [])
      else Call(c.(cursor := c.cursor.(index := nxt), currentPoint := Some(c.waypoints[nxt])), true, [])
  }

  /**
    `_advance_index_and_move()`: as `_advance_index_only`, and also moves to
    the new current point.
   */
  function AdvanceIndexAndMove(c: Ctrl): (r: Call)
    ensures CurrentIndex(c) + 1 >= |c.waypoints| ==> r == Call(c, false, [])
    ensures CurrentIndex(c) + 1 < |c.waypoints| ==>
      var nxt := CurrentIndex(c) + 1;
      && r.ok && r.effects == [MoveTo(c.waypoints[nxt])]
      && r.ctrl.cursor == c.cursor.(index := nxt)
      && r.ctrl.currentPoint == Some(c.waypoints[nxt])
      && r.ctrl.follower == MOVING
      && r.ctrl.forcedIndex == c.forcedIndex && r.ctrl.hold == c.hold && r.ctrl.mode == c.mode
    ensures Valid(c) ==> Valid(r.ctrl)
  {
    var n := |c.waypoints|;
    if n == 0 then Call(c, false, [])
    else
      var nxt := CurrentIndex(c) + 1;
      if nxt >= n then Call(c, false, [])
      else
        var pt := c.waypoints[nxt];
        Call(c.(cursor := c.cursor.(index := nxt), currentPoint := Some(pt), follower := MOVING,
                status := Flowing(nxt, n, pt)), true, [MoveTo(pt)])
  }

  /** Both advance helpers step to the same place; only one of them moves. */
  lemma AdvanceHelpersAgree(c: Ctrl)
    ensures AdvanceIndexOnly(c).ok == AdvanceIndexAndMove(c).ok
    ensures AdvanceIndexOnly(c).ctrl.cursor == AdvanceIndexAndMove(c).ctrl.cursor
    ensures AdvanceIndexOnly(c).ctrl.currentPoint == AdvanceIndexAndMove(c).ctrl.currentPoint
    ensures AdvanceIndexOnly(c).effects == []
    ensures AdvanceIndexAndMove(c).ok ==> |AdvanceIndexAndMove(c).effects| == 1
  {
  }
}

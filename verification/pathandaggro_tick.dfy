/**
  One tick of `FollowPathAndAggro.update()` (`PyQuishAI.py`): the blessing
  check, the throttled enemy scan, the path-following branch with its fluid
  advance, and the combat branch with its de-duplicated commands.

  The game world a tick reads (`Player.GetXY()`, the agent array, the
  looting flag of the cache, the clock) is the `World` argument.
 */
module PathAndAggroTick {
  import opened Wrappers
  import opened Geometry
  import opened PathAndAggro
  import PathMerge
  import Blessing

  /** An agent as the game reports it. */
  datatype AgentInfo = AgentInfo(id: AgentId, pos: Point, alive: bool, hostile: bool)

  /** What one tick reads from the game. */
  datatype World = World(now: int, pos: Point, looting: bool, agents: seq<AgentInfo>)

  datatype Step = Step(ctrl: Ctrl, effects: seq<Effect>)

  /** The first agent with the given id. */
  function FindAgent(agents: seq<AgentInfo>, id: AgentId): (r: Option<nat>)
    ensures r.Some? ==> r.value < |agents| && agents[r.value].id == id
    ensures r.None? ==> forall i :: 0 <= i < |agents| ==> agents[i].id != id
  {
    if |agents| == 0 then None
    else if agents[0].id == id then Some(0)
    else
      match FindAgent(agents[1..], id)
      case None => None
      case Some(i) => Some(i + 1)
  }

  /** `Agent.IsAlive(id)`; an id the game no longer reports is not alive. */
  predicate IsAlive(w: World, id: AgentId) {
    var i := FindAgent(w.agents, id);
    i.Some? && w.agents[i.value].alive
  }

  /** `Agent.GetXY(id)`; `None` where the call raises. */
  function AgentPos(w: World, id: AgentId): Option<Point> {
    match FindAgent(w.agents, id)
    case None => None
    case Some(i) => Some(w.agents[i].pos)
  }

  /** A live enemy within `range` of `pos`: the filter of `_find_nearest_enemy`. */
  predicate Eligible(a: AgentInfo, pos: Point, range: real) {
    a.hostile && a.alive && DistLe(pos, a.pos, range)
  }

  /**
    `_find_nearest_enemy()`: the position of the nearest eligible enemy; among
    equally near ones the first (the distance sort is stable).
   */
  function NearestEnemyIndex(agents: seq<AgentInfo>, pos: Point, range: real): (r: Option<nat>)
    ensures r.None? <==> forall j :: 0 <= j < |agents| ==> !Eligible(agents[j], pos, range)
    ensures r.Some? ==> r.value < |agents| && Eligible(agents[r.value], pos, range)
    ensures r.Some? ==> forall j :: 0 <= j < |agents| && Eligible(agents[j], pos, range) ==>
      DistSq(pos, agents[r.value].pos) <= DistSq(pos, agents[j].pos)
    ensures r.Some? ==> forall j :: 0 <= j < r.value && Eligible(agents[j], pos, range) ==>
      DistSq(pos, agents[j].pos) > DistSq(pos, agents[r.value].pos)
  {
    if |agents| == 0 then None
    else
      var rest := NearestEnemyIndex(agents[1..], pos, range);
      assert forall j :: 1 <= j < |agents| ==> agents[1..][j - 1] == agents[j];
      if !Eligible(agents[0], pos, range) then
        if rest.None? then None else Some(rest.value + 1)
      else if rest.None? || DistSq(pos, agents[0].pos) <= DistSq(pos, agents[rest.value + 1].pos) then Some(0)
      else Some(rest.value + 1)
  }

  function FindNearestEnemy(agents: seq<AgentInfo>, pos: Point, range: real): Option<AgentId> {
    match NearestEnemyIndex(agents, pos, range)
    case None => None
    case Some(i) => Some(agents[i].id)
  }

  /** The scan gate: moved at least `0.75 * aggro_range`, or 500 ms since the last scan. */
  predicate ScanDue(c: Ctrl, w: World) {
    DistGe(w.pos, c.lastScanPos, c.aggroRange * 0.75) || HasElapsed(c.scanTimer, w.now, SCAN_INTERVAL_MS)
  }

  /**
    `_throttled_scan()`: re-queries the enemies only when the gate is open,
    otherwise returns the cached result; the result is `lastScanned`.
   */
  function ThrottledScan(c: Ctrl, w: World): (r: Step)
    ensures ScanDue(c, w) ==>
      && r.effects == [EnemyQuery]
      && r.ctrl == c.(lastScanned := FindNearestEnemy(w.agents, w.pos, c.aggroRange),
                      lastScanPos := w.pos, scanTimer := Some(w.now))
    ensures !ScanDue(c, w) ==> r == Step(c, [])
    ensures r.effects == [] || r.effects == [EnemyQuery]
  {
    if ScanDue(c, w) then
      Step(c.(lastScanned := FindNearestEnemy(w.agents, w.pos, c.aggroRange),
              lastScanPos := w.pos, scanTimer := Some(w.now)), [EnemyQuery])
    else Step(c, [])
  }

  /** Move to the waypoint a pending forced index names and clear it. */
  function MoveToForced(c: Ctrl, held: bool): (r: Step)
    requires c.forcedIndex.Some? && |c.waypoints| > 0
  {
    var n := |c.waypoints|;
    var i := PathMerge.Clamp(c.forcedIndex.value, 0, n - 1);
    var pt := c.waypoints[i];
    var st := if held then HoldingAt(i, n, pt) else MovingToForced(i, n, pt);
    Step(c.(cursor := c.cursor.(index := i), currentPoint := Some(pt), follower := MOVING,
            status := st, forcedIndex := None), [MoveTo(pt)])
  }

  /** The advance-and-move of the following branch; at the final waypoint it arrives instead. */
  function FlowOrArrive(c: Ctrl): Step {
    var a := AdvanceIndexAndMove(c);
    if a.ok then Step(a.ctrl, a.effects)
    else Step(c.(follower := Follower(false, true), status := ArrivedFinal), [])
  }

  /** With the path clear, advance already within 375; otherwise only within 250. */
  predicate CloseEnough(c: Ctrl, pos: Point)
    requires c.currentPoint.Some?
  {
    var d := c.currentPoint.value;
    (c.lastScanned.None? && DistLe(pos, d, EARLY_ADVANCE_DIST)) || DistLe(pos, d, ARRIVAL_TOLERANCE)
  }

  /** The handler after it yielded `pt`: following afresh, with `pt` the current point. */
  function Yielded(c: Ctrl, pt: Point, cur: Cursor, sync: bool, st: Status, fx: seq<Effect>): Step
    requires cur.index > 0
  {
    var at := if sync then cur.(index := cur.index - 1) else cur;
    Step(c.(cursor := at, currentPoint := Some(pt), follower := MOVING, status := st), fx + [MoveTo(pt)])
  }

  /**
    The not-following branch of `_advance_to_next_point()`: the handler's
    next point, or once it is exhausted a reset and its first point. With
    `sync` the handler's index is then put back onto the point it yielded, as
    every other place that sets the current point does; without it the
    index is one past the current point (see ## Findings in README.md).
   */
  function HandlerNext(c: Ctrl, sync: bool): (r: Step)
    ensures var (p, cur) := CursorAdvance(c.cursor);
      if p.Some? then
        && r.effects == [PathAdvance, MoveTo(p.value)] && r.ctrl.currentPoint == p
        && r.ctrl.cursor.index == (if sync then c.cursor.index else c.cursor.index + 1)
      else
        && |r.effects| >= 2 && r.effects[..2] == [PathAdvance, PathReset]
        && r.ctrl.cursor.index == (if sync || |c.cursor.points| == 0 then 0 else 1)
  {
    var (p, cur) := CursorAdvance(c.cursor);
    if p.Some? then Yielded(c, p.value, cur, sync, MovingTo(p.value), [PathAdvance])
    else
      var (retry, cur1) := CursorAdvance(cur.(index := 0));
      if retry.Some? then
        Yielded(c, retry.value, cur1, sync, PathResetMoving(retry.value), [PathAdvance, PathReset, PathAdvance])
      else Step(c.(cursor := cur1, status := NoValidNext), [PathAdvance, PathReset, PathAdvance])
  }

  /**
    `_advance_to_next_point()`, with the handler's index kept on the current
    point after `advance()`.
   */
  function AdvanceToNextPoint(c: Ctrl, pos: Point): (r: Step)
    ensures r.ctrl.waypoints == c.waypoints && r.ctrl.aggroRange == c.aggroRange
    // hold: never advances the handler; a pending forced index is moved to once and cleared
    ensures c.hold ==> PathAdvance !in r.effects && r.ctrl.hold
    ensures c.hold && (c.forcedIndex.None? || |c.waypoints| == 0) ==> r == Step(c, [])
    ensures c.forcedIndex.Some? && |c.waypoints| > 0 ==>
      var i := PathMerge.Clamp(c.forcedIndex.value, 0, |c.waypoints| - 1);
      && r.effects == [MoveTo(c.waypoints[i])]
      && r.ctrl.forcedIndex.None? && r.ctrl.cursor.index == i
      && r.ctrl.currentPoint == Some(c.waypoints[i]) && r.ctrl.hold == c.hold
    // not following: the handler's next point, or after a reset its first point
    ensures !c.hold && c.forcedIndex.None? && !c.follower.following ==>
      var (p, cur) := CursorAdvance(c.cursor);
      if p.Some? then
        r.effects == [PathAdvance, MoveTo(p.value)] && r.ctrl.currentPoint == p
        && r.ctrl.cursor.index == c.cursor.index
      else |r.effects| >= 2 && r.effects[..2] == [PathAdvance, PathReset] && r.ctrl.cursor.index == 0
    // following: the fluid advance within 375 on a clear path, else within 250
    ensures !c.hold && c.forcedIndex.None? && c.follower.following && c.currentPoint.Some? ==>
      (CloseEnough(c, pos) ==> r == FlowOrArrive(c)) && (!CloseEnough(c, pos) ==> r == Step(c, []))
    ensures !c.hold && c.forcedIndex.None? && c.follower.following && c.currentPoint.None? ==>
      r == Step(c.(status := LostPathPoint, follower := c.follower.(following := false)), [])
    ensures r.ctrl.mode == c.mode && r.ctrl.target == c.target && r.ctrl.lastScanned == c.lastScanned
    ensures r.ctrl.lastTargetId == c.lastTargetId && r.ctrl.lastMoveTarget == c.lastMoveTarget
    ensures forall e :: e in r.effects ==> e.MoveTo? || e.PathAdvance? || e.PathReset?
    ensures Valid(c) ==> Valid(r.ctrl)
  {
    var n := |c.waypoints|;
    if c.hold then
      if c.forcedIndex.Some? && n > 0 then MoveToForced(c, true) else Step(c, [])
    else if c.forcedIndex.Some? && n > 0 then MoveToForced(c, false)
    else if !c.follower.following then HandlerNext(c, true)
    else if c.currentPoint.None? then
      Step(c.(status := LostPathPoint, follower := c.follower.(following := false)), [])
    else if CloseEnough(c, pos) then FlowOrArrive(c)
    else Step(c, [])
  }

  /** `_advance_to_next_point()` as written: the handler's index is left one past the point it yielded. */
  function AdvanceToNextPointAsWritten(c: Ctrl, pos: Point): (r: Step)
    ensures !c.hold && c.forcedIndex.None? && !c.follower.following ==>
      var (p, cur) := CursorAdvance(c.cursor);
      p.Some? ==> r.ctrl.currentPoint == p && r.ctrl.cursor.index == c.cursor.index + 1
    ensures c.hold || c.forcedIndex.Some? || c.follower.following ==> r == AdvanceToNextPoint(c, pos)
  {
    if !c.hold && c.forcedIndex.None? && !c.follower.following then HandlerNext(c, false)
    else AdvanceToNextPoint(c, pos)
  }

  /** One tick of the advance with the player standing on the current point. */
  function TickOnPoint(c: Ctrl): Step {
    AdvanceToNextPoint(c, if c.currentPoint.Some? then c.currentPoint.value else c.lastScanPos)
  }

  /** `n` ticks of `step`, their calls concatenated. */
  function Walk(step: Ctrl -> Step, c: Ctrl, n: nat): (r: Step)
    decreases n
  {
    if n == 0 then Step(c, [])
    else
      var s := step(c);
      var t := Walk(step, s.ctrl, n - 1);
      Step(t.ctrl, s.effects + t.effects)
  }

  /** One move to each of the `n` waypoints from index `i` on, in order. */
  function MovesFrom(w: seq<Point>, i: nat, n: nat): seq<Effect>
    requires i + n <= |w|
    decreases n
  {
    if n == 0 then [] else [MoveTo(w[i])] + MovesFrom(w, i + 1, n - 1)
  }

  /** `MovesFrom(w, i, n)` is the `n` moves to `w[i]`, ..., `w[i + n - 1]`. */
  lemma {:induction false} MovesFromAt(w: seq<Point>, i: nat, n: nat)
    requires i + n <= |w|
    ensures |MovesFrom(w, i, n)| == n
    ensures forall j :: 0 <= j < n ==> MovesFrom(w, i, n)[j] == MoveTo(w[i + j])
    decreases n
  {
    if n > 0 {
      MovesFromAt(w, i + 1, n - 1);
    }
  }

  /** Following the path, with the current point the waypoint at the handler's index. */
  predicate OnPath(c: Ctrl) {
    Valid(c) && !c.hold && c.forcedIndex.None? && c.follower.following && c.currentPoint.Some?
  }

  /** `s`, a tick from `c` on the path, moves to the next waypoint and stays on the path there. */
  predicate StepsOn(c: Ctrl, s: Step) {
    && c.cursor.index + 1 < |c.waypoints|
    && s.effects == [MoveTo(c.waypoints[c.cursor.index + 1])]
    && OnPath(s.ctrl) && s.ctrl.cursor.index == c.cursor.index + 1 && s.ctrl.waypoints == c.waypoints
  }

  /** One tick standing on the current point, while following: the move to the next waypoint. */
  lemma FollowStepOnPoint(c: Ctrl)
    requires OnPath(c) && c.cursor.index + 1 < |c.waypoints|
    ensures StepsOn(c, TickOnPoint(c))
  {
  }

  /** Any tick that moves to the next waypoint on the path, repeated `n` times, moves to the next `n` waypoints. */
  lemma {:induction false} WalkOfStepsOn(step: Ctrl -> Step, c: Ctrl, n: nat)
    requires forall d :: OnPath(d) && d.cursor.index + 1 < |d.waypoints| ==> StepsOn(d, step(d))
    requires OnPath(c) && c.cursor.index + n < |c.waypoints|
    ensures Walk(step, c, n).effects == MovesFrom(c.waypoints, c.cursor.index + 1, n)
    decreases n
  {
    if n > 0 {
      var s := step(c);
      assert StepsOn(c, s);
      WalkOfStepsOn(step, s.ctrl, n - 1);
    }
  }

  /**
    Following the path with nothing in the way, the controller moves to every
    waypoint after the current one, in order, none skipped: `n` ticks issue
    exactly the moves to the next `n` waypoints.
   */
  lemma WalkVisitsEveryWaypoint(c: Ctrl, n: nat)
    requires OnPath(c) && c.cursor.index + n < |c.waypoints|
    ensures Walk(TickOnPoint, c, n).effects == MovesFrom(c.waypoints, c.cursor.index + 1, n)
  {
    forall d | OnPath(d) && d.cursor.index + 1 < |d.waypoints|
      ensures StepsOn(d, TickOnPoint(d))
    {
      FollowStepOnPoint(d);
    }
    WalkOfStepsOn(TickOnPoint, c, n);
  }

  /**
    The skip the handler index causes as written: on the path `[a, b, d]`,
    the first tick moves to `a`, and arriving there the fluid advance moves
    straight on to `d`. The corrected advance moves to `b`.
   */
  lemma SkipsSecondWaypointAsWritten(scanTimer: Timer, bless: Blessing.BlessState)
    ensures var a, b, d := Point(0.0, 0.0), Point(1000.0, 0.0), Point(2000.0, 0.0);
      var c := New([a, b, d], 1000.0, a, scanTimer, bless, []);
      var s1 := AdvanceToNextPointAsWritten(c, a);
      && s1.effects == [PathAdvance, MoveTo(a)]
      && AdvanceToNextPointAsWritten(s1.ctrl, a).effects == [MoveTo(d)]
      && Walk(TickOnPoint, c, 2).effects == [PathAdvance, MoveTo(a), MoveTo(b)]
  {
  }

  /**
    As written, the invariant does not survive the first tick: the handler's
    index is left one past the current point, so `Valid`, which every tick of
    the corrected controller keeps, holds only for the corrected advance.
   */
  lemma AsWrittenBreaksValid(scanTimer: Timer, bless: Blessing.BlessState)
    ensures var a, b, d := Point(0.0, 0.0), Point(1000.0, 0.0), Point(2000.0, 0.0);
      var c := New([a, b, d], 1000.0, a, scanTimer, bless, []);
      && Valid(c)
      && !Valid(AdvanceToNextPointAsWritten(c, a).ctrl)
      && Valid(AdvanceToNextPoint(c, a).ctrl)
  {
  }

  /** The fluid advance moves to the next waypoint, or at the last one stops and arrives. */
  lemma FlowOrArriveMeaning(c: Ctrl)
    requires Valid(c)
    ensures CurrentIndex(c) + 1 < |c.waypoints| ==>
      FlowOrArrive(c).effects == [MoveTo(c.waypoints[CurrentIndex(c) + 1])]
      && FlowOrArrive(c).ctrl.cursor.index == CurrentIndex(c) + 1
    // the waypoint moved to is the one right after the current point
    ensures c.forcedIndex.None? && c.currentPoint.Some? ==>
      exists k :: 0 <= k < |c.waypoints| && c.currentPoint.value == c.waypoints[k]
        && (k + 1 < |c.waypoints| ==> FlowOrArrive(c).effects == [MoveTo(c.waypoints[k + 1])])
        && (k + 1 >= |c.waypoints| ==> FlowOrArrive(c).effects == [])
    ensures CurrentIndex(c) + 1 >= |c.waypoints| ==>
      FlowOrArrive(c).effects == [] && FlowOrArrive(c).ctrl.follower == Follower(false, true)
      && FlowOrArrive(c).ctrl.status == ArrivedFinal
  {
    if c.forcedIndex.None? && c.currentPoint.Some? {
      var k := c.cursor.index;
      assert c.currentPoint.value == c.waypoints[k];
    }
  }

  /** `get_current_waypoint()`: the current point, else the waypoint nearest the player. */
  function CurrentWaypoint(c: Ctrl, pos: Point): (r: Option<Point>)
    ensures r.None? <==> c.currentPoint.None? && |c.waypoints| == 0
    ensures c.currentPoint.Some? ==> r == c.currentPoint
    ensures c.currentPoint.None? && r.Some? ==>
      r.value in c.waypoints && forall i :: 0 <= i < |c.waypoints| ==> DistSq(pos, r.value) <= DistSq(pos, c.waypoints[i])
  {
    if c.currentPoint.Some? then c.currentPoint
    else if |c.waypoints| > 0 then Some(c.waypoints[NearestIndex(c.waypoints, pos)])
    else None
  }

  /** `min(range(len(wps)), key=distance)`: the first waypoint of least distance. */
  function NearestIndex(pts: seq<Point>, pos: Point): (r: nat)
    requires |pts| > 0
    ensures r < |pts|
    ensures forall i :: 0 <= i < |pts| ==> DistSq(pos, pts[r]) <= DistSq(pos, pts[i])
    ensures forall i :: 0 <= i < r ==> DistSq(pos, pts[i]) > DistSq(pos, pts[r])
  {
    if |pts| == 1 then 0
    else
      var j := NearestIndex(pts[1..], pos) + 1;
      assert forall i :: 1 <= i < |pts| ==> pts[1..][i - 1] == pts[i];
      if DistSq(pos, pts[0]) <= DistSq(pos, pts[j]) then 0 else j
  }

  /** The path branch of `update()`: a scanned enemy switches to combat, else follow the path. */
  function PathTick(c: Ctrl, w: World): (r: Step)
    requires c.mode == PathMode
    ensures r.ctrl.waypoints == c.waypoints && r.ctrl.aggroRange == c.aggroRange
    ensures var s := ThrottledScan(c, w);
      IsTarget(s.ctrl.lastScanned) ==>
        && r.ctrl.mode == CombatMode && r.ctrl.target == s.ctrl.lastScanned
        && r.effects == s.effects && r.ctrl.cursor == c.cursor && r.ctrl.currentPoint == c.currentPoint
    ensures var s := ThrottledScan(c, w);
      !IsTarget(s.ctrl.lastScanned) ==> r.ctrl.mode == PathMode
    ensures forall e :: e in r.effects ==> !e.ChangeTarget? && !e.PlayerMove?
    ensures r.ctrl.lastTargetId == c.lastTargetId && r.ctrl.lastMoveTarget == c.lastMoveTarget
    ensures Valid(c) ==> Valid(r.ctrl)
  {
    var s := ThrottledScan(c, w);
    if IsTarget(s.ctrl.lastScanned) then
      Step(s.ctrl.(target := s.ctrl.lastScanned, enemyCheckTimer := Some(w.now), mode := CombatMode,
                   status := SwitchingToCombat), s.effects)
    else
      var a := AdvanceToNextPoint(s.ctrl, w.pos);
      Step(a.ctrl, s.effects + a.effects)
  }

  /** The waypoint bookkeeping at the start of a combat tick. */
  function CombatReach(c: Ctrl, pos: Point): (r: Ctrl)
    ensures Valid(c) ==> Valid(r)
    ensures r.mode == c.mode && r.target == c.target && r.lastScanned == c.lastScanned
    ensures r.lastTargetId == c.lastTargetId && r.lastMoveTarget == c.lastMoveTarget
    ensures r.forcedIndex == c.forcedIndex && r.hold == c.hold && r.follower == c.follower
    ensures r.waypoints == c.waypoints && r.aggroRange == c.aggroRange
    // within reach of the current waypoint, and short of the last one: step the index on
    ensures var wp := CurrentWaypoint(c, pos);
      wp.Some? && DistLe(pos, wp.value, COMBAT_REACH_DIST) && CurrentIndex(c) + 1 < |c.waypoints| ==>
        r.cursor.index == CurrentIndex(c) + 1 && r.currentPoint == Some(c.waypoints[CurrentIndex(c) + 1])
    ensures var wp := CurrentWaypoint(c, pos);
      !(wp.Some? && DistLe(pos, wp.value, COMBAT_REACH_DIST) && CurrentIndex(c) + 1 < |c.waypoints|) ==>
        r.cursor == c.cursor && r.currentPoint == c.currentPoint
  {
    match CurrentWaypoint(c, pos)
    case None => c
    case Some(wp) =>
      if DistLe(pos, wp, COMBAT_REACH_DIST) then
        var a := AdvanceIndexOnly(c);
        if a.ok then a.ctrl.(status := WaypointReachedInCombat) else a.ctrl
      else c
  }

  /**
    Target the scanned enemy at `p` and walk to it; `Player.ChangeTarget` and
    `Player.Move` are issued only when they differ from the last ones issued.
   */
  function Engage(c: Ctrl, p: Point): (r: Step)
    requires IsTarget(c.target)
    ensures r.ctrl == c.(lastTargetId := c.target, lastMoveTarget := Some((Trunc(p.x), Trunc(p.y))),
                         status := ClosingIn(Trunc(p.x), Trunc(p.y)))
    ensures ChangeTarget(c.target.value) in r.effects <==> c.target != c.lastTargetId
    ensures PlayerMove(Trunc(p.x), Trunc(p.y)) in r.effects <==> Some((Trunc(p.x), Trunc(p.y))) != c.lastMoveTarget
    ensures forall e :: e in r.effects ==> e == ChangeTarget(c.target.value) || e == PlayerMove(Trunc(p.x), Trunc(p.y))
  {
    var t := c.target.value;
    var retarget := if Some(t) != c.lastTargetId then [ChangeTarget(t)] else [];
    var mv := (Trunc(p.x), Trunc(p.y));
    var approach := if Some(mv) != c.lastMoveTarget then [PlayerMove(mv.0, mv.1)] else [];
    Step(c.(lastTargetId := Some(t), lastMoveTarget := Some(mv), status := ClosingIn(mv.0, mv.1)),
         retarget + approach)
  }

  /**
    The combat branch of `update()`: back to path mode when the target is
    gone, dead or no longer scanned; otherwise target and approach it, each
    command only when it differs from the last one issued.
   */
  function CombatTick(c: Ctrl, w: World): (r: Step)
    requires c.mode == CombatMode
    ensures r.ctrl.waypoints == c.waypoints && r.ctrl.aggroRange == c.aggroRange
    ensures forall id :: ChangeTarget(id) in r.effects ==> Some(id) != c.lastTargetId && r.ctrl.lastTargetId == Some(id)
    ensures forall x, y :: PlayerMove(x, y) in r.effects ==>
      Some((x, y)) != c.lastMoveTarget && r.ctrl.lastMoveTarget == Some((x, y))
    ensures r.ctrl.mode == CombatMode ==>
      && IsTarget(r.ctrl.target) && IsTarget(c.target) && IsAlive(w, c.target.value)
      && r.ctrl.lastTargetId == r.ctrl.target
      && (r.ctrl.target != c.lastTargetId <==> ChangeTarget(r.ctrl.target.value) in r.effects)
      && r.ctrl.lastMoveTarget.Some?
      && (r.ctrl.lastMoveTarget != c.lastMoveTarget <==>
            PlayerMove(r.ctrl.lastMoveTarget.value.0, r.ctrl.lastMoveTarget.value.1) in r.effects)
    ensures r.ctrl.mode == PathMode ==>
      forall e :: e in r.effects ==> !e.ChangeTarget? && !e.PlayerMove?
    ensures !IsTarget(c.target) || !IsAlive(w, c.target.value) ==>
      r.ctrl.mode == PathMode && r.ctrl.target.None?
    ensures forall e :: e in r.effects ==> !e.MoveTo? && !e.PathAdvance?
    ensures r.ctrl.lastTargetId != c.lastTargetId ==> r.ctrl.lastTargetId == r.ctrl.target
    ensures r.ctrl.lastMoveTarget != c.lastMoveTarget ==> r.ctrl.mode == CombatMode
    ensures Valid(c) ==> Valid(r.ctrl)
  {
    var c1 := CombatReach(c, w.pos);
    if !IsTarget(c1.target) || !IsAlive(w, c1.target.value) then
      Step(c1.(mode := PathMode, target := None, status := CombatDone), [])
    else Pursue(c1, w)
  }

  /**
    The rest of a combat tick once the target is alive: re-scan, then target
    and approach the scanned enemy, or go back to path mode.
   */
  function Pursue(c: Ctrl, w: World): (r: Step)
    requires c.mode == CombatMode && IsTarget(c.target)
    ensures r.ctrl.waypoints == c.waypoints && r.ctrl.aggroRange == c.aggroRange
    ensures forall id :: ChangeTarget(id) in r.effects ==> Some(id) != c.lastTargetId && r.ctrl.lastTargetId == Some(id)
    ensures forall x, y :: PlayerMove(x, y) in r.effects ==>
      Some((x, y)) != c.lastMoveTarget && r.ctrl.lastMoveTarget == Some((x, y))
    ensures r.ctrl.mode == CombatMode ==>
      && IsTarget(r.ctrl.target)
      && r.ctrl.lastTargetId == r.ctrl.target
      && (r.ctrl.target != c.lastTargetId <==> ChangeTarget(r.ctrl.target.value) in r.effects)
      && r.ctrl.lastMoveTarget.Some?
      && (r.ctrl.lastMoveTarget != c.lastMoveTarget <==>
            PlayerMove(r.ctrl.lastMoveTarget.value.0, r.ctrl.lastMoveTarget.value.1) in r.effects)
    ensures r.ctrl.mode == PathMode ==>
      forall e :: e in r.effects ==> !e.ChangeTarget? && !e.PlayerMove?
    ensures forall e :: e in r.effects ==> !e.MoveTo? && !e.PathAdvance?
    ensures r.ctrl.lastTargetId != c.lastTargetId ==> r.ctrl.lastTargetId == r.ctrl.target
    ensures r.ctrl.lastMoveTarget != c.lastMoveTarget ==> r.ctrl.mode == CombatMode
    ensures Valid(c) ==> Valid(r.ctrl)
  {
    var s := ThrottledScan(c, w);
    var c2 := s.ctrl.(target := s.ctrl.lastScanned);
    if !IsTarget(c2.target) then
      Step(c2.(mode := PathMode, status := NoEnemiesThrottled), s.effects)
    else
      var a := Approach(c2, w);
      QueryThen(s.effects, a.effects);
      Step(a.ctrl, s.effects + a.effects)
  }

  /** An optional enemy query in front changes which targets and moves are issued in no way. */
  lemma QueryThen(q: seq<Effect>, es: seq<Effect>)
    requires q == [] || q == [EnemyQuery]
    requires forall e :: e in es ==> e.ChangeTarget? || e.PlayerMove?
    ensures forall id :: ChangeTarget(id) in q + es <==> ChangeTarget(id) in es
    ensures forall x, y :: PlayerMove(x, y) in q + es <==> PlayerMove(x, y) in es
    ensures forall e :: e in q + es ==> !e.MoveTo? && !e.PathAdvance?
  {
  }

  /** Target and walk to the scanned enemy, or go back to path mode when its position cannot be read. */
  function Approach(c: Ctrl, w: World): (r: Step)
    requires c.mode == CombatMode && IsTarget(c.target)
    ensures r.ctrl.waypoints == c.waypoints && r.ctrl.aggroRange == c.aggroRange
    ensures forall e :: e in r.effects ==> e.ChangeTarget? || e.PlayerMove?
    ensures forall id :: ChangeTarget(id) in r.effects ==> Some(id) != c.lastTargetId && r.ctrl.lastTargetId == Some(id)
    ensures forall x, y :: PlayerMove(x, y) in r.effects ==>
      Some((x, y)) != c.lastMoveTarget && r.ctrl.lastMoveTarget == Some((x, y))
    ensures r.ctrl.mode == CombatMode ==>
      && r.ctrl.target == c.target
      && r.ctrl.lastTargetId == r.ctrl.target
      && (r.ctrl.target != c.lastTargetId <==> ChangeTarget(r.ctrl.target.value) in r.effects)
      && r.ctrl.lastMoveTarget.Some?
      && (r.ctrl.lastMoveTarget != c.lastMoveTarget <==>
            PlayerMove(r.ctrl.lastMoveTarget.value.0, r.ctrl.lastMoveTarget.value.1) in r.effects)
    ensures r.ctrl.mode == PathMode ==> r == Step(c.(mode := PathMode, target := None, status := EnemyFetchFailed), [])
    ensures Valid(c) ==> Valid(r.ctrl)
  {
    match AgentPos(w, c.target.value)
    case None => Step(c.(mode := PathMode, target := None, status := EnemyFetchFailed), [])
    case Some(p) => Engage(c, p)
  }

  /** The blessing check at the top of `update()`. */
  function BlessingCheck(c: Ctrl, w: World): (r: Step)
    ensures r.effects == [] || r.effects == [GetBlessed]
    ensures Valid(c) ==> Valid(r.ctrl)
    ensures r.ctrl == c.(bless := r.ctrl.bless, status := r.ctrl.status)
    ensures r.effects == [GetBlessed] ==>
      exists p :: p in c.blessPoints && p !in c.bless.triggered && r.ctrl.bless.triggered == c.bless.triggered + {p}
  {
    match Blessing.NearBlessingPoint(c.blessPoints, c.bless.triggered, w.pos)
    case None => Step(c, [])
    case Some(i) =>
      var p := c.blessPoints[i];
      var t := Blessing.TriggerBlessingAt(c.bless, p, w.now);
      Step(c.(bless := t.state, status := NearBlessing(p)), if t.fired then [GetBlessed] else [])
  }

  /** `update()`, without the statistics logging and the handler's own `update()`. */
  function Update(c: Ctrl, w: World): (r: Step)
    ensures w.looting ==> r == Step(c.(status := WaitingForLooting), [])
    ensures Valid(c) ==> Valid(r.ctrl)
    ensures r.ctrl.waypoints == c.waypoints && r.ctrl.aggroRange == c.aggroRange
    ensures forall id :: ChangeTarget(id) in r.effects ==> Some(id) != c.lastTargetId && r.ctrl.lastTargetId == Some(id)
    ensures forall x, y :: PlayerMove(x, y) in r.effects ==>
      Some((x, y)) != c.lastMoveTarget && r.ctrl.lastMoveTarget == Some((x, y))
  {
    if w.looting then Step(c.(status := WaitingForLooting), [])
    else
      var b := BlessingCheck(c, w);
      var s := if b.ctrl.mode == PathMode then PathTick(b.ctrl, w) else CombatTick(b.ctrl, w);
      Step(s.ctrl, b.effects + s.effects)
  }

  /**
    Consecutive ticks never repeat a `Player.ChangeTarget` or `Player.Move`:
    a command issued in one tick is remembered and suppressed in the next.
   */
  lemma NoRepeatedCommands(c: Ctrl, w1: World, w2: World)
    ensures var s1 := Update(c, w1); var s2 := Update(s1.ctrl, w2);
      && (forall id :: ChangeTarget(id) in s1.effects ==> ChangeTarget(id) !in s2.effects)
      && (forall x, y :: PlayerMove(x, y) in s1.effects ==> PlayerMove(x, y) !in s2.effects)
  {
  }

  /** `update()` over a sequence of world snapshots; the calls of every tick, in order. */
  function RunTicks(c: Ctrl, ws: seq<World>): (r: Step)
    ensures Valid(c) ==> Valid(r.ctrl)
    decreases |ws|
  {
    if |ws| == 0 then Step(c, [])
    else
      var s := Update(c, ws[0]);
      var rest := RunTicks(s.ctrl, ws[1..]);
      Step(rest.ctrl, s.effects + rest.effects)
  }

  /** No live enemy within `range` of the player. */
  predicate Quiet(w: World, range: real) {
    FindNearestEnemy(w.agents, w.pos, range).None?
  }

  /** Held on waypoint `k` in path mode with no enemy remembered. */
  predicate Pinned(c: Ctrl, k: nat) {
    && Valid(c) && c.hold && c.mode == PathMode && !IsTarget(c.lastScanned)
    && c.cursor.index == k && (c.forcedIndex.Some? ==> c.forcedIndex.value == k)
  }

  /** One quiet tick in hold neither advances the handler nor moves the index. */
  lemma PinnedTick(c: Ctrl, w: World, k: nat)
    requires Pinned(c, k) && Quiet(w, c.aggroRange)
    ensures Pinned(Update(c, w).ctrl, k)
    ensures PathAdvance !in Update(c, w).effects
  {
    if !w.looting {
      var b := BlessingCheck(c, w);
      assert b.ctrl.mode == PathMode && Pinned(b.ctrl, k);
      var sc := ThrottledScan(b.ctrl, w);
      assert !IsTarget(sc.ctrl.lastScanned);
      var a := AdvanceToNextPoint(sc.ctrl, w.pos);
      assert PathAdvance !in a.effects;
      if sc.ctrl.forcedIndex.Some? && |sc.ctrl.waypoints| > 0 {
        assert PathMerge.Clamp(k, 0, |sc.ctrl.waypoints| - 1) == k;
      }
      assert Pinned(a.ctrl, k);
    }
  }

  /** Any number of quiet ticks in hold keep the index pinned and never advance the handler. */
  lemma {:induction false} HoldPinsCursor(c: Ctrl, ws: seq<World>, k: nat)
    requires Pinned(c, k)
    requires forall i :: 0 <= i < |ws| ==> Quiet(ws[i], c.aggroRange)
    ensures Pinned(RunTicks(c, ws).ctrl, k)
    ensures PathAdvance !in RunTicks(c, ws).effects
    decreases |ws|
  {
    if |ws| > 0 {
      PinnedTick(c, ws[0], k);
      var s := Update(c, ws[0]);
      assert forall i :: 0 <= i < |ws[1..]| ==> ws[1..][i] == ws[i + 1];
      HoldPinsCursor(s.ctrl, ws[1..], k);
    }
  }

  /**
    After a sticky `force_move_to_index(k)`, quiet ticks keep the bot on the
    clamped waypoint `k`: the handler is never advanced and its index stays put.
   */
  lemma ForcedHoldStays(c: Ctrl, k: int, ws: seq<World>)
    requires Valid(c) && c.mode == PathMode && !IsTarget(c.lastScanned) && |c.waypoints| > 0
    requires forall i :: 0 <= i < |ws| ==> Quiet(ws[i], c.aggroRange)
    ensures var r := RunTicks(ForceMoveToIndex(c, k, true).ctrl, ws);
      && r.ctrl.cursor.index == PathMerge.Clamp(k, 0, |c.waypoints| - 1)
      && r.ctrl.hold && PathAdvance !in r.effects
  {
    var f := ForceMoveToIndex(c, k, true).ctrl;
    var i := PathMerge.Clamp(k, 0, |c.waypoints| - 1);
    assert Pinned(f, i);
    HoldPinsCursor(f, ws, i);
  }
}

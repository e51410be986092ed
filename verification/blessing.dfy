/**
  The mid-map rally-point debounce of `PyQuishAI.py`: `trigger_blessing_at`
  records the first time a blessing point is seen, asks for a blessing once
  five seconds have passed since then, and never asks again for that point.
  Time is an integer number of milliseconds (`PyQuishAI.py` reads `time.time()`).
 */
module Blessing {
  import opened Wrappers
  import opened Geometry

  /** The 5.0 second debounce, in milliseconds. */
  const DEBOUNCE_MS: int := 5000

  /** `update` looks for blessing points strictly closer than this. */
  const BLESS_RADIUS: real := 2500.0

  /** `blessing_triggered` and `blessing_timers`. */
  datatype BlessState = BlessState(triggered: set<Point>, firstSeen: map<Point, int>)

  datatype Trigger = Trigger(state: BlessState, fired: bool)

  /** `trigger_blessing_at(point)` at time `now`; `fired` is the call to `Get_Blessed()`. */
  function TriggerBlessingAt(st: BlessState, point: Point, now: int): (r: Trigger)
    // it fires only for an untriggered point first seen at least 5 s ago ...
    ensures r.fired ==> point !in st.triggered && point in st.firstSeen && now - st.firstSeen[point] >= DEBOUNCE_MS
    // ... and always does so once that is the case
    ensures point !in st.triggered && point in st.firstSeen && now - st.firstSeen[point] >= DEBOUNCE_MS ==> r.fired
    ensures r.state.triggered == if r.fired then st.triggered + {point} else st.triggered
    // the first sighting only records its time; later calls never move it
    ensures point !in st.triggered && point !in st.firstSeen ==> r.state.firstSeen == st.firstSeen[point := now]
    ensures point in st.triggered || point in st.firstSeen ==> r.state.firstSeen == st.firstSeen
  {
    if point in st.triggered then Trigger(st, false)
    else if point !in st.firstSeen then Trigger(st.(firstSeen := st.firstSeen[point := now]), false)
    else if now - st.firstSeen[point] < DEBOUNCE_MS then Trigger(st, false)
    else Trigger(st.(triggered := st.triggered + {point}), true)
  }

  /** The points that fire over a sequence of calls `(point, now)`, in firing order. */
  function Run(st: BlessState, calls: seq<(Point, int)>): (BlessState, seq<Point>)
    decreases |calls|
  {
    if |calls| == 0 then (st, [])
    else
      var t := TriggerBlessingAt(st, calls[0].0, calls[0].1);
      var (final, fires) := Run(t.state, calls[1..]);
      (final, if t.fired then [calls[0].0] + fires else fires)
  }

  /** Triggered points stay triggered. */
  lemma {:induction false} RunKeepsTriggered(st: BlessState, calls: seq<(Point, int)>)
    ensures st.triggered <= Run(st, calls).0.triggered
    decreases |calls|
  {
    if |calls| > 0 {
      var t := TriggerBlessingAt(st, calls[0].0, calls[0].1);
      RunKeepsTriggered(t.state, calls[1..]);
    }
  }

  /**
    Over any sequence of calls a point fires at most once, never if it had
    already fired, and whatever fired ends up in `blessing_triggered`.
   */
  lemma {:induction false} FiresAtMostOnce(st: BlessState, calls: seq<(Point, int)>, p: Point)
    ensures multiset(Run(st, calls).1)[p] <= 1
    ensures p in st.triggered ==> p !in Run(st, calls).1
    ensures p in Run(st, calls).1 ==> p in Run(st, calls).0.triggered
    decreases |calls|
  {
    if |calls| > 0 {
      var t := TriggerBlessingAt(st, calls[0].0, calls[0].1);
      FiresAtMostOnce(t.state, calls[1..], p);
      RunKeepsTriggered(t.state, calls[1..]);
    }
  }

  /**
    The point `update` passes to `trigger_blessing_at`: the first blessing
    point not yet triggered that is strictly within `BLESS_RADIUS`.
   */
  function NearBlessingPoint(points: seq<Point>, triggered: set<Point>, pos: Point): (r: Option<nat>)
    ensures r.Some? ==> r.value < |points| && points[r.value] !in triggered && DistLt(pos, points[r.value], BLESS_RADIUS)
    ensures forall i :: 0 <= i < (if r.Some? then r.value else |points|) ==>
      points[i] in triggered || !DistLt(pos, points[i], BLESS_RADIUS)
  {
    if |points| == 0 then None
    else if points[0] !in triggered && DistLt(pos, points[0], BLESS_RADIUS) then Some(0)
    else
      match NearBlessingPoint(points[1..], triggered, pos)
      case None => None
      case Some(i) => Some(i + 1)
  }
}

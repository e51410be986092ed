/**
  `analyze_pyquishai_paths.py`: flattening a map's path data into coordinates,
  with one warning for everything skipped, and the step statistics of the
  flattened path.

  Warnings are records naming what was skipped rather than message text.
  `math.hypot` is the parameter `dist`, and float sums are sums of reals.
 */
module PathAnalysis {
  import opened Wrappers
  import opened PyValue
  import opened Geometry
  import Chains

  /** `is_coordinate(c)`: a list or tuple of at least two items, the first two accepted by `float()`. */
  predicate IsCoordinate(v: Value, parse: FloatParser) {
    IsSeq(v) && |v.items| >= 2 && ToFloat(v.items[0], parse).Some? && ToFloat(v.items[1], parse).Some?
  }

  /** `normalise_coordinate(c)` */
  function Normalise(v: Value, parse: FloatParser): Point
    requires IsCoordinate(v, parse)
  {
    Point(ToFloat(v.items[0], parse).value, ToFloat(v.items[1], parse).value)
  }

  /** Where a skipped item sat: an entry of a flat list, or a point of segment `segment`. */
  datatype Place = Entry | SegmentPoint(segment: nat)

  /** The three warnings `flatten_map_path` appends. */
  datatype Warning =
    | NotAList(typeName: string)
    | MissingPath(segment: nat)
    | NotACoordinate(place: Place, index: nat)

  datatype Flattened = Flattened(coords: seq<Point>, warnings: seq<Warning>)

  /** Every warning is about an item below `n` at `place`. */
  predicate PointWarnings(ws: seq<Warning>, place: Place, n: nat) {
    forall k :: 0 <= k < |ws| ==> ws[k].NotACoordinate? && ws[k].place == place && ws[k].index < n
  }

  /** Every warning is about one of the first `n` segments: a missing path, or a point of it. */
  predicate SegmentWarnings(ws: seq<Warning>, n: nat) {
    forall k :: 0 <= k < |ws| ==>
      || (ws[k].MissingPath? && ws[k].segment < n)
      || (ws[k].NotACoordinate? && ws[k].place.SegmentPoint? && ws[k].place.segment < n)
  }

  /** `type(v).__name__` */
  function TypeName(v: Value): string {
    match v
    case PyNone => "NoneType"
    case Bool(_) => "bool"
    case Int(_) => "int"
    case Float(_) => "float"
    case Str(_) => "str"
    case List(_) => "list"
    case Tuple(_) => "tuple"
    case Dict(_) => "dict"
  }

  /** How many of `items` are coordinates. */
  function CountCoords(items: seq<Value>, parse: FloatParser): (r: nat)
    ensures r <= |items|
  {
    if |items| == 0 then 0
    else CountCoords(items[..|items| - 1], parse) + (if IsCoordinate(items[|items| - 1], parse) then 1 else 0)
  }

  /**
    The `for i, point in enumerate(items)` loop both branches run: a coordinate
    is normalised and appended, anything else is skipped with a warning at `place`.
   */
  function Scan(items: seq<Value>, parse: FloatParser, place: Place): (r: Flattened)
    ensures |r.coords| == CountCoords(items, parse)
    ensures |r.coords| + |r.warnings| == |items|
    ensures PointWarnings(r.warnings, place, |items|)
  {
    if |items| == 0 then Flattened([], [])
    else
      var n := |items| - 1;
      var f := Scan(items[..n], parse, place);
      if IsCoordinate(items[n], parse) then Flattened(f.coords + [Normalise(items[n], parse)], f.warnings)
      else Flattened(f.coords, f.warnings + [NotACoordinate(place, n)])
  }

  /** Counting coordinates over a longer prefix never gives fewer. */
  lemma {:induction false} CountGrows(items: seq<Value>, parse: FloatParser, i: nat, j: nat)
    requires i <= j <= |items|
    ensures CountCoords(items[..i], parse) + (if i < j && IsCoordinate(items[i], parse) then 1 else 0)
            <= CountCoords(items[..j], parse)
  {
    if i < j {
      assert items[..j][..j - 1] == items[..j - 1];
      CountGrows(items, parse, i, j - 1);
      if i == j - 1 {
        assert items[..j][j - 1] == items[i];
      }
    }
  }

  /** The coordinate at position `i` is the `c`-th coordinate kept, `c` counting the coordinates before it. */
  predicate KeptAt(items: seq<Value>, parse: FloatParser, place: Place, i: nat)
    requires i < |items| && IsCoordinate(items[i], parse)
  {
    var r := Scan(items, parse, place);
    var c := CountCoords(items[..i], parse);
    c < |r.coords| && r.coords[c] == Normalise(items[i], parse)
  }

  /** Any other item at position `i` gives the `(i - c)`-th warning, naming `i`. */
  predicate WarnedAt(items: seq<Value>, parse: FloatParser, place: Place, i: nat)
    requires i < |items|
  {
    var r := Scan(items, parse, place);
    var c := CountCoords(items[..i], parse);
    c <= i && i - c < |r.warnings| && r.warnings[i - c] == NotACoordinate(place, i)
  }

  /** Every coordinate is kept, in the place the coordinates before it leave for it. */
  lemma {:induction false} ScanKeeps(items: seq<Value>, parse: FloatParser, place: Place)
    ensures forall i :: 0 <= i < |items| && IsCoordinate(items[i], parse) ==> KeptAt(items, parse, place, i)
  {
    if |items| > 0 {
      var n := |items| - 1;
      var pre := items[..n];
      ScanKeeps(pre, parse, place);
      forall i | 0 <= i < |items| && IsCoordinate(items[i], parse)
        ensures KeptAt(items, parse, place, i)
      {
        if i < n {
          assert pre[..i] == items[..i] && pre[i] == items[i];
          assert KeptAt(pre, parse, place, i);
        } else {
          assert items[..i] == pre;
        }
      }
    }
  }

  /** Every other item is warned about, in order, and skipped. */
  lemma {:induction false} ScanWarns(items: seq<Value>, parse: FloatParser, place: Place)
    ensures forall i :: 0 <= i < |items| && !IsCoordinate(items[i], parse) ==> WarnedAt(items, parse, place, i)
  {
    if |items| > 0 {
      ScanWarns(items[..|items| - 1], parse, place);
      forall i | 0 <= i < |items| && !IsCoordinate(items[i], parse)
        ensures WarnedAt(items, parse, place, i)
      {
        WarnedStep(items, parse, place, i);
      }
    }
  }

  /** A warning given for the items but the last stays where it is once the last item is scanned. */
  lemma WarnedStep(items: seq<Value>, parse: FloatParser, place: Place, i: nat)
    requires i < |items| && !IsCoordinate(items[i], parse)
    requires i < |items| - 1 ==> WarnedAt(items[..|items| - 1], parse, place, i)
    ensures WarnedAt(items, parse, place, i)
  {
    var n := |items| - 1;
    var pre := items[..n];
    var f, r := Scan(pre, parse, place), Scan(items, parse, place);
    assert r.warnings == if IsCoordinate(items[n], parse) then f.warnings else f.warnings + [NotACoordinate(place, n)];
    if i < n {
      assert pre[..i] == items[..i] && pre[i] == items[i];
      var c := CountCoords(items[..i], parse);
      assert r.warnings[i - c] == f.warnings[i - c];
    } else {
      assert items[..i] == pre;
    }
  }

  /** Kept coordinates keep the order of the items they come from. */
  lemma ScanKeepsOrder(items: seq<Value>, parse: FloatParser, place: Place, i: nat, j: nat)
    requires i < j < |items| && IsCoordinate(items[i], parse) && IsCoordinate(items[j], parse)
    ensures var r := Scan(items, parse, place);
      var p, q := CountCoords(items[..i], parse), CountCoords(items[..j], parse);
      p < q < |r.coords| && r.coords[p] == Normalise(items[i], parse) && r.coords[q] == Normalise(items[j], parse)
  {
    ScanKeeps(items, parse, place);
    assert KeptAt(items, parse, place, i) && KeptAt(items, parse, place, j);
    CountGrows(items, parse, i, j);
  }

  /** `segment.get("path")` with a tuple read as a list: the path's items, or `None` when it is not a list. */
  function SegmentPath(seg: Value): (r: Option<seq<Value>>)
    ensures r.Some? ==> seg.Dict? && HasKey(seg.entries, "path")
  {
    if !seg.Dict? then None
    else
      match Get(seg.entries, "path")
      case Some(p) => if IsSeq(p) then Some(p.items) else None
      case None => None
  }

  /** One pass of the segment loop for segment `index`. */
  function ScanSegment(seg: Value, index: nat, parse: FloatParser): (r: Flattened)
    // without a list `path`, one warning and nothing else
    ensures SegmentPath(seg).None? ==> r == Flattened([], [MissingPath(index)])
    // with one, one coordinate or one warning per point, the warnings naming this segment
    ensures SegmentPath(seg).Some? ==>
      && |r.coords| + |r.warnings| == |SegmentPath(seg).value|
      && PointWarnings(r.warnings, SegmentPoint(index), |SegmentPath(seg).value|)
  {
    match SegmentPath(seg)
    case None => Flattened([], [MissingPath(index)])
    case Some(path) => Scan(path, parse, SegmentPoint(index))
  }

  /** The coordinates segment `k` contributes. */
  function CoordsOf(segs: seq<Value>, parse: FloatParser): nat -> seq<Point> {
    (k: nat) => if k < |segs| then ScanSegment(segs[k], k, parse).coords else []
  }

  /** The warnings segment `k` contributes. */
  function WarningsOf(segs: seq<Value>, parse: FloatParser): nat -> seq<Warning> {
    (k: nat) => if k < |segs| then ScanSegment(segs[k], k, parse).warnings else []
  }

  /** What the segment loop has collected after the first `n` segments. */
  function ScanSegments(segs: seq<Value>, parse: FloatParser, n: nat): (r: Flattened)
    requires n <= |segs|
    ensures SegmentWarnings(r.warnings, n)
  {
    SegmentWarningsGather(segs, parse, n);
    Flattened(Chains.Gather(CoordsOf(segs, parse), n), Chains.Gather(WarningsOf(segs, parse), n))
  }

  /** The warnings of the first `n` segments are about those segments. */
  lemma SegmentWarningsGather(segs: seq<Value>, parse: FloatParser, n: nat)
    requires n <= |segs|
    ensures SegmentWarnings(Chains.Gather(WarningsOf(segs, parse), n), n)
  {
    var wf := WarningsOf(segs, parse);
    forall k: nat | k < n
      ensures SegmentWarnings(wf(k), k + 1)
    {
      SegmentWarningsOfOne(segs[k], k, parse);
    }
    GatherSegmentWarnings(wf, n);
  }

  /** Parts that each warn only about segments up to their own gather to warnings about the first `n`. */
  lemma {:induction false} GatherSegmentWarnings(wf: nat -> seq<Warning>, n: nat)
    requires forall k: nat :: k < n ==> SegmentWarnings(wf(k), k + 1)
    ensures SegmentWarnings(Chains.Gather(wf, n), n)
  {
    if n > 0 {
      GatherSegmentWarnings(wf, n - 1);
      SegmentWarningsJoin(Chains.Gather(wf, n - 1), wf(n - 1), n - 1, n);
    }
  }

  /** What one segment warns about is about that segment. */
  lemma SegmentWarningsOfOne(seg: Value, index: nat, parse: FloatParser)
    ensures SegmentWarnings(ScanSegment(seg, index, parse).warnings, index + 1)
  {
  }

  /** Warnings about the first `m` segments followed by warnings about the first `n >= m`. */
  lemma SegmentWarningsJoin(a: seq<Warning>, b: seq<Warning>, m: nat, n: nat)
    requires m <= n && SegmentWarnings(a, m) && SegmentWarnings(b, n)
    ensures SegmentWarnings(a + b, n)
  {
  }

  /**
    Segments are collected in order: segment `i`'s coordinates and warnings sit
    right after everything the segments before it produced.
   */
  lemma SegmentsInOrder(segs: seq<Value>, parse: FloatParser, i: nat, n: nat)
    requires i < n <= |segs|
    ensures var before := ScanSegments(segs, parse, i);
      var g := ScanSegment(segs[i], i, parse);
      var all := ScanSegments(segs, parse, n);
      && |before.coords| + |g.coords| <= |all.coords|
      && all.coords[|before.coords|..|before.coords| + |g.coords|] == g.coords
      && |before.warnings| + |g.warnings| <= |all.warnings|
      && all.warnings[|before.warnings|..|before.warnings| + |g.warnings|] == g.warnings
  {
    var g := ScanSegment(segs[i], i, parse);
    var cf, wf := CoordsOf(segs, parse), WarningsOf(segs, parse);
    assert cf(i) == g.coords && wf(i) == g.warnings;
    var before, all := ScanSegments(segs, parse, i), ScanSegments(segs, parse, n);
    assert before.coords == Chains.Gather(cf, i) && before.warnings == Chains.Gather(wf, i);
    assert all.coords == Chains.Gather(cf, n) && all.warnings == Chains.Gather(wf, n);
    Chains.GatherSlice(cf, i, n);
    assert all.coords[|before.coords|..|before.coords| + |g.coords|] == g.coords;
    Chains.GatherSlice(wf, i, n);
    assert all.warnings[|before.warnings|..|before.warnings| + |g.warnings|] == g.warnings;
  }

  /** `all(isinstance(segment, dict) for segment in items)` */
  predicate AllDicts(items: seq<Value>) {
    forall k :: 0 <= k < |items| ==> items[k].Dict?
  }

  /** The list is read as segments: non-empty and all dictionaries. */
  predicate IsSegmented(items: seq<Value>) {
    |items| > 0 && AllDicts(items)
  }

  /** `flatten_map_path(data)` */
  function FlattenMapPath(data: Value, parse: FloatParser): (r: Flattened)
    // anything but a list or tuple: no coordinates and exactly one warning, naming its type
    ensures !IsSeq(data) ==> r == Flattened([], [NotAList(TypeName(data))])
    // an empty list is neither segmented nor has entries to warn about
    ensures IsSeq(data) && |data.items| == 0 ==> r == Flattened([], [])
    // a flat list: one coordinate or one entry warning per item
    ensures IsSeq(data) && !IsSegmented(data.items) ==>
      && |r.coords| + |r.warnings| == |data.items|
      && |r.coords| == CountCoords(data.items, parse)
      && PointWarnings(r.warnings, Entry, |data.items|)
    // segments: warnings only about segments that exist
    ensures IsSeq(data) && IsSegmented(data.items) ==> SegmentWarnings(r.warnings, |data.items|)
  {
    var d := if data.Tuple? then List(data.items) else data;
    if !d.List? then Flattened([], [NotAList(TypeName(d))])
    else if IsSegmented(d.items) then ScanSegments(d.items, parse, |d.items|)
    else Scan(d.items, parse, Entry)
  }

  /** A tuple is flattened exactly as the list of the same items. */
  lemma FlattenTupleAsList(items: seq<Value>, parse: FloatParser)
    ensures FlattenMapPath(Tuple(items), parse) == FlattenMapPath(List(items), parse)
  {
  }

  /** One computed step of `compute_segments`. */
  datatype Step = Step(fromIndex: nat, toIndex: nat, from: Point, to: Point, distance: real)

  /** `SegmentStats`: the waypoint count, the running total and the steps. */
  datatype SegmentStats = SegmentStats(waypointCount: nat, totalDistance: real, segments: seq<Step>)

  /** The sum of the step distances, added in order. */
  function Total(steps: seq<Step>): real {
    if |steps| == 0 then 0.0 else Total(steps[..|steps| - 1]) + steps[|steps| - 1].distance
  }

  /** `compute_segments(points)`, with `dist` standing for `math.hypot` of the difference. */
  method ComputeSegments(points: seq<Point>, dist: (Point, Point) -> real) returns (r: SegmentStats)
    ensures r.waypointCount == |points|
    ensures |r.segments| == if |points| == 0 then 0 else |points| - 1
    ensures forall i :: 0 <= i < |r.segments| ==>
      r.segments[i] == Step(i, i + 1, points[i], points[i + 1], dist(points[i], points[i + 1]))
    ensures r.totalDistance == Total(r.segments)
  {
    var count := if |points| == 0 then 0 else |points| - 1;
    var segments: seq<Step> := [];
    var total := 0.0;
    var idx := 0;
    while idx < count
      invariant idx <= count
      invariant |segments| == idx
      invariant forall i :: 0 <= i < idx ==>
        segments[i] == Step(i, i + 1, points[i], points[i + 1], dist(points[i], points[i + 1]))
      invariant total == Total(segments)
    {
      var d := dist(points[idx], points[idx + 1]);
      var step := Step(idx, idx + 1, points[idx], points[idx + 1], d);
      assert (segments + [step])[..idx] == segments;
      total := total + d;
      segments := segments + [step];
      idx := idx + 1;
    }
    r := SegmentStats(|points|, total, segments);
  }

  /** `segment_count` */
  function SegmentCount(s: SegmentStats): nat {
    |s.segments|
  }

  /** The position `max(steps, key=distance)` picks: the first step of greatest distance. */
  function ArgMax(steps: seq<Step>): (r: Option<nat>)
    ensures r.None? <==> |steps| == 0
    ensures r.Some? ==> r.value < |steps|
    ensures r.Some? ==> forall k :: 0 <= k < |steps| ==> steps[k].distance <= steps[r.value].distance
    ensures r.Some? ==> forall k :: 0 <= k < r.value ==> steps[k].distance < steps[r.value].distance
  {
    if |steps| == 0 then None
    else
      var n := |steps| - 1;
      match ArgMax(steps[..n])
      case None => Some(0)
      case Some(i) => if steps[n].distance > steps[i].distance then Some(n) else Some(i)
  }

  /** The position `min(steps, key=distance)` picks: the first step of least distance. */
  function ArgMin(steps: seq<Step>): (r: Option<nat>)
    ensures r.None? <==> |steps| == 0
    ensures r.Some? ==> r.value < |steps|
    ensures r.Some? ==> forall k :: 0 <= k < |steps| ==> steps[r.value].distance <= steps[k].distance
    ensures r.Some? ==> forall k :: 0 <= k < r.value ==> steps[r.value].distance < steps[k].distance
  {
    if |steps| == 0 then None
    else
      var n := |steps| - 1;
      match ArgMin(steps[..n])
      case None => Some(0)
      case Some(i) => if steps[n].distance < steps[i].distance then Some(n) else Some(i)
  }

  /** `max_segment`: `None` without steps. */
  function MaxSegment(s: SegmentStats): (r: Option<Step>)
    ensures r.None? <==> |s.segments| == 0
    ensures r.Some? ==> r.value in s.segments
    ensures r.Some? ==> forall k :: 0 <= k < |s.segments| ==> s.segments[k].distance <= r.value.distance
  {
    match ArgMax(s.segments)
    case None => None
    case Some(i) => Some(s.segments[i])
  }

  /** `min_segment`: `None` without steps. */
  function MinSegment(s: SegmentStats): (r: Option<Step>)
    ensures r.None? <==> |s.segments| == 0
    ensures r.Some? ==> r.value in s.segments
    ensures r.Some? ==> forall k :: 0 <= k < |s.segments| ==> r.value.distance <= s.segments[k].distance
  {
    match ArgMin(s.segments)
    case None => None
    case Some(i) => Some(s.segments[i])
  }

  /** `average_segment`: `0.0` without steps, else the total shared out over the steps. */
  function AverageSegment(s: SegmentStats): (r: real)
    ensures |s.segments| == 0 ==> r == 0.0
    ensures |s.segments| > 0 ==> r * (|s.segments| as real) == s.totalDistance
  {
    if |s.segments| == 0 then 0.0 else s.totalDistance / (|s.segments| as real)
  }

  /** A sum of distances between `lo` and `hi` lies between `n * lo` and `n * hi`. */
  lemma {:induction false} TotalBounds(steps: seq<Step>, lo: real, hi: real)
    requires forall k :: 0 <= k < |steps| ==> lo <= steps[k].distance <= hi
    ensures (|steps| as real) * lo <= Total(steps) <= (|steps| as real) * hi
  {
    if |steps| > 0 {
      var n := |steps| - 1;
      TotalBounds(steps[..n], lo, hi);
      assert steps[n] == steps[|steps| - 1];
    }
  }

  /** When the total is the sum of the steps, the average lies between the shortest and the longest step. */
  lemma AverageBetweenMinAndMax(s: SegmentStats)
    requires |s.segments| > 0 && s.totalDistance == Total(s.segments)
    ensures MinSegment(s).value.distance <= AverageSegment(s) <= MaxSegment(s).value.distance
  {
    AverageWithin(s, MinSegment(s).value.distance, MaxSegment(s).value.distance);
  }

  /** The average of steps whose distances lie between `lo` and `hi` lies there too. */
  lemma AverageWithin(s: SegmentStats, lo: real, hi: real)
    requires |s.segments| > 0 && s.totalDistance == Total(s.segments)
    requires forall k :: 0 <= k < |s.segments| ==> lo <= s.segments[k].distance <= hi
    ensures lo <= AverageSegment(s) <= hi
  {
    TotalBounds(s.segments, lo, hi);
    ShareBounds(s.totalDistance, |s.segments| as real, lo, hi);
  }

  /** `lo <= t / n <= hi` follows from `n * lo <= t <= n * hi` for positive `n`. */
  lemma ShareBounds(t: real, n: real, lo: real, hi: real)
    requires n > 0.0 && n * lo <= t <= n * hi
    ensures lo <= t / n <= hi
  {
  }
}

/**
  `calc_pyquishai_path_lengths.py`: collecting every coordinate pair of a
  map's data, however deeply it is nested, and the step distances along the
  result.

  `_is_coordinate` is the test `is_tuple_pair` of the marker builder: a list or
  tuple of exactly two ints or floats. `math.hypot` is the parameter `dist`.
 */
module PathLengths {
  import opened Wrappers
  import opened PyValue
  import opened Geometry
  import opened MarkerShape
  import Chains
  import PathAnalysis

  /** `(float(x), float(y))` of a coordinate pair. */
  function Pair(v: Value): Point
    requires IsTuplePair(v)
  {
    Point(NumberValue(v.items[0]), NumberValue(v.items[1]))
  }

  /** `_merge_waypoints(data)` */
  function Merge(data: Value): seq<Point>
    decreases data
  {
    if data.Dict? then
      match KeyIndex(data.entries, "path")
      case Some(i) => Merge(data.entries[i].1)
      case None =>
        Chains.Gather((k: nat) => if k < |data.entries| then Merge(data.entries[k].1) else [], |data.entries|)
    else if IsSeq(data) then
      Chains.Gather((k: nat) => if k < |data.items| then
                                  (if IsTuplePair(data.items[k]) then [Pair(data.items[k])] else Merge(data.items[k]))
                                else [], |data.items|)
    else []
  }

  /** What an item of a list or tuple contributes: itself if it is a pair, else the pairs it holds. */
  function Contribution(v: Value): seq<Point> {
    if IsTuplePair(v) then [Pair(v)] else Merge(v)
  }

  /** The contribution of each item. */
  function Contributions(items: seq<Value>): nat -> seq<Point> {
    Chains.Lift(Contribution, items)
  }

  /** The pairs each value of a dictionary holds. */
  function Holdings(entries: seq<(string, Value)>): nat -> seq<Point> {
    (k: nat) => if k < |entries| then Merge(entries[k].1) else []
  }

  /** A list or a tuple gives its items' contributions, in order. */
  lemma MergeSequence(data: Value)
    requires IsSeq(data)
    ensures Merge(data) == Chains.Gather(Contributions(data.items), |data.items|)
  {
    var items := data.items;
    forall k: nat | k < |items|
      ensures Contributions(items)(k) == Contribution(items[k])
    {
    }
    Chains.GatherExt((k: nat) => if k < |items| then
                                   (if IsTuplePair(items[k]) then [Pair(items[k])] else Merge(items[k]))
                                 else [], Contributions(items), |items|);
  }

  /** A dictionary without `path` gives the pairs its values hold, in insertion order. */
  lemma MergeValues(entries: seq<(string, Value)>)
    requires !HasKey(entries, "path")
    ensures Merge(Dict(entries)) == Chains.Gather(Holdings(entries), |entries|)
  {
    Chains.GatherExt((k: nat) => if k < |entries| then Merge(entries[k].1) else [], Holdings(entries), |entries|);
  }

  /**
    A dictionary with `path` gives what its path holds and nothing else: its
    other keys, `bless` among them, are never looked at.
   */
  lemma MergePathOnly(entries: seq<(string, Value)>, other: seq<(string, Value)>)
    requires HasKey(entries, "path")
    requires Get(other, "path") == Get(entries, "path")
    ensures Merge(Dict(entries)) == Merge(Get(entries, "path").value)
    ensures Merge(Dict(other)) == Merge(Dict(entries))
  {
  }

  /** Anything but a dictionary, a list or a tuple holds no pairs. */
  lemma MergeScalar(data: Value)
    requires !data.Dict? && !IsSeq(data)
    ensures Merge(data) == []
  {
  }

  /** Merging a list is merging its two halves and joining the results: items are taken in order. */
  lemma MergeAppend(a: seq<Value>, b: seq<Value>)
    ensures Merge(List(a + b)) == Merge(List(a)) + Merge(List(b))
  {
    MergeSequence(List(a + b));
    MergeSequence(List(a));
    MergeSequence(List(b));
    Chains.GatherLiftAppend(Contribution, a, b);
  }

  /** A tuple merges exactly as the list of the same items. */
  lemma MergeTupleAsList(items: seq<Value>)
    ensures Merge(Tuple(items)) == Merge(List(items))
  {
    MergeSequence(List(items));
    MergeSequence(Tuple(items));
  }

  /** A flat list of pairs merges to its points: the marker builder's reading of the same list. */
  lemma MergePairList(v: Value)
    requires IsListOfTuplePairs(v)
    ensures Merge(v) == Points(v)
  {
    MergeSequence(v);
    forall k: nat | k < |v.items|
      ensures Contributions(v.items)(k) == [Points(v)[k]]
    {
      assert Contributions(v.items)(k) == Contribution(v.items[k]);
    }
    Chains.GatherSingletons(Contributions(v.items), |v.items|, Points(v));
  }

  /** A list of segment dictionaries merges to the points of each segment's path, segment by segment. */
  lemma MergeSegmentList(v: Value)
    requires IsListOfSegmentDicts(v)
    ensures Merge(v) == Chains.Gather((k: nat) => if k < |v.items| then Points(SegPath(v.items[k])) else [], |v.items|)
  {
    MergeSequence(v);
    forall k: nat | k < |v.items|
      ensures Contributions(v.items)(k) == Points(SegPath(v.items[k]))
    {
      var seg := v.items[k];
      assert Contributions(v.items)(k) == Contribution(seg);
      assert !IsTuplePair(seg);
      MergePathOnly(seg.entries, seg.entries);
      MergePairList(SegPath(seg));
    }
    Chains.GatherExt(Contributions(v.items),
                     (k: nat) => if k < |v.items| then Points(SegPath(v.items[k])) else [], |v.items|);
  }

  /** `_compute_distances` entry: the step from `start` to `end`. */
  datatype SegmentDistance = SegmentDistance(index: nat, start: Point, end: Point, distance: real)

  /** `_compute_distances(points)`, with `dist` standing for `math.hypot` of the difference. */
  method ComputeDistances(points: seq<Point>, dist: (Point, Point) -> real) returns (r: seq<SegmentDistance>)
    ensures |r| == if |points| == 0 then 0 else |points| - 1
    ensures forall i :: 0 <= i < |r| ==>
      r[i] == SegmentDistance(i, points[i], points[i + 1], dist(points[i], points[i + 1]))
  {
    var count := if |points| == 0 then 0 else |points| - 1;
    r := [];
    var index := 0;
    while index < count
      invariant index <= count && |r| == index
      invariant forall i :: 0 <= i < index ==>
        r[i] == SegmentDistance(i, points[i], points[i + 1], dist(points[i], points[i + 1]))
    {
      r := r + [SegmentDistance(index, points[index], points[index + 1], dist(points[index], points[index + 1]))];
      index := index + 1;
    }
  }

  /** The analysis scan of a run of pairs keeps every one of them and warns about none. */
  lemma {:induction false} ScanOfPairs(items: seq<Value>, parse: FloatParser, place: PathAnalysis.Place)
    requires IsListOfTuplePairs(List(items))
    ensures PathAnalysis.Scan(items, parse, place) == PathAnalysis.Flattened(Points(List(items)), [])
  {
    if |items| > 0 {
      var n := |items| - 1;
      var pre := items[..n];
      PointsSnoc(items);
      ScanOfPairs(pre, parse, place);
      assert PathAnalysis.IsCoordinate(items[n], parse);
      var f := PathAnalysis.Scan(pre, parse, place);
      assert PathAnalysis.Scan(items, parse, place)
          == PathAnalysis.Flattened(f.coords + [PathAnalysis.Normalise(items[n], parse)], f.warnings);
      assert PathAnalysis.Normalise(items[n], parse) == Points(List(items))[n];
    }
  }

  /** The points of a list of pairs are those of all but its last item, then the last item's. */
  lemma PointsSnoc(items: seq<Value>)
    requires IsListOfTuplePairs(List(items)) && |items| > 0
    ensures IsListOfTuplePairs(List(items[..|items| - 1]))
    ensures Points(List(items)) == Points(List(items[..|items| - 1])) + [Points(List(items))[|items| - 1]]
  {
    var pre := items[..|items| - 1];
    assert forall k :: 0 <= k < |pre| ==> pre[k] == items[k];
    var all, front := Points(List(items)), Points(List(pre));
    assert forall k :: 0 <= k < |front| ==> front[k] == all[k];
  }

  /** On a flat list of pairs the two flatteners agree, and the analysis raises no warning. */
  lemma FlattenersAgreeOnPairs(v: Value, parse: FloatParser)
    requires IsListOfTuplePairs(v)
    ensures PathAnalysis.FlattenMapPath(v, parse) == PathAnalysis.Flattened(Merge(v), [])
  {
    MergePairList(v);
    if |v.items| > 0 {
      assert !v.items[0].Dict?;
    }
    ScanOfPairs(v.items, parse, PathAnalysis.Entry);
  }

  /** On a non-empty list of segment dictionaries the two flatteners agree, again without warnings. */
  lemma FlattenersAgreeOnSegments(v: Value, parse: FloatParser)
    requires IsListOfSegmentDicts(v) && |v.items| > 0
    ensures PathAnalysis.FlattenMapPath(v, parse) == PathAnalysis.Flattened(Merge(v), [])
  {
    var segs := v.items;
    var n := |segs|;
    var points := (k: nat) => if k < n then Points(SegPath(segs[k])) else [];
    MergeSegmentList(v);
    forall k: nat | k < n
      ensures PathAnalysis.CoordsOf(segs, parse)(k) == points(k)
      ensures PathAnalysis.WarningsOf(segs, parse)(k) == []
    {
      var path := SegPath(segs[k]);
      assert PathAnalysis.SegmentPath(segs[k]) == Some(path.items);
      ScanOfPairs(path.items, parse, PathAnalysis.SegmentPoint(k));
    }
    Chains.GatherExt(PathAnalysis.CoordsOf(segs, parse), points, n);
    Chains.GatherNothing(PathAnalysis.WarningsOf(segs, parse), n);
    assert PathAnalysis.AllDicts(segs);
  }

  /**
    Where the two flatteners part: the analysis takes any list of at least two
    numbers as a coordinate, this one only a pair, and looks inside anything else.
   */
  lemma FlattenersDifferOnTriples(parse: FloatParser)
    ensures var v := List([List([Int(1), Int(2), Int(3)])]);
      PathAnalysis.FlattenMapPath(v, parse) == PathAnalysis.Flattened([Point(1.0, 2.0)], [])
      && Merge(v) == []
  {
    var t := List([Int(1), Int(2), Int(3)]);
    var v := List([t]);
    assert PathAnalysis.IsCoordinate(t, parse);
    assert [t][..0] == [];
    MergeSequence(v);
    MergeSequence(t);
    assert Merge(Int(1)) == [] && Merge(Int(2)) == [] && Merge(Int(3)) == [];
    Chains.GatherNothing(Contributions(t.items), 3);
    assert Contributions(v.items)(0) == [];
    Chains.GatherNothing(Contributions(v.items), 1);
  }
}

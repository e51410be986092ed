/**
  The data-shape checks of `build_markers_ini.py` and the per-map lookup in a
  map-data module: which variables name a map (`normalize_var_base_names`)
  and what `pick_map_data` finds under each name.

  A map-data module is its namespace, `vars(mod)`, as ordered entries.
 */
module MarkerShape {
  import opened Wrappers
  import opened PyValue
  import opened Geometry
  import LexOrder

  /** `is_tuple_pair(v)`: a list or tuple of exactly two numbers. */
  predicate IsTuplePair(v: Value) {
    IsSeq(v) && |v.items| == 2 && IsNumber(v.items[0]) && IsNumber(v.items[1])
  }

  /** `is_list_of_tuple_pairs(v)`: a list (not a tuple) whose items are all pairs. */
  predicate IsListOfTuplePairs(v: Value) {
    v.List? && forall i :: 0 <= i < |v.items| ==> IsTuplePair(v.items[i])
  }

  /** `is_segment_dict(d)`: a dictionary whose `path` is a list of pairs. */
  predicate IsSegmentDict(d: Value) {
    d.Dict? && HasKey(d.entries, "path") && IsListOfTuplePairs(Get(d.entries, "path").value)
  }

  /** `d["path"]` of a segment dictionary. */
  function SegPath(d: Value): (r: Value)
    requires IsSegmentDict(d)
    ensures IsListOfTuplePairs(r)
  {
    Get(d.entries, "path").value
  }

  /** `d["bless"]` if present. */
  function SegBless(d: Value): Option<Value>
    requires IsSegmentDict(d)
  {
    Get(d.entries, "bless")
  }

  /** `is_list_of_segment_dicts(v)` */
  predicate IsListOfSegmentDicts(v: Value) {
    v.List? && forall i :: 0 <= i < |v.items| ==> IsSegmentDict(v.items[i])
  }

  /** `float_pair(t)`: `None` where indexing or `float()` raises. */
  function FloatPair(t: Value, parse: FloatParser): (r: Option<Point>)
    ensures IsTuplePair(t) ==> r == Some(Point(NumberValue(t.items[0]), NumberValue(t.items[1])))
  {
    match Index(t, 0)
    case None => None
    case Some(a) =>
      match Index(t, 1)
      case None => None
      case Some(b) =>
        match ToFloat(a, parse)
        case None => None
        case Some(x) =>
          match ToFloat(b, parse)
          case None => None
          case Some(y) => Some(Point(x, y))
  }

  /** `[float_pair(p) for p in v]` for a list of pairs, which never raises. */
  function Points(v: Value): (r: seq<Point>)
    requires IsListOfTuplePairs(v)
    ensures |r| == |v.items|
    ensures forall i :: 0 <= i < |r| ==>
      r[i] == Point(NumberValue(v.items[i].items[0]), NumberValue(v.items[i].items[1]))
  {
    seq(|v.items|, i requires 0 <= i < |v.items| =>
      Point(NumberValue(v.items[i].items[0]), NumberValue(v.items[i].items[1])))
  }

  /** `Points` is `float_pair` applied to every item. */
  lemma PointsAreFloatPairs(v: Value, parse: FloatParser, i: nat)
    requires IsListOfTuplePairs(v) && i < |v.items|
    ensures FloatPair(v.items[i], parse) == Some(Points(v)[i])
  {
  }

  /** `name.endswith("_ids")` */
  predicate EndsWithIds(name: string) {
    |name| >= 4 && name[|name| - 4..] == "_ids"
  }

  /** The names `k[:-4]` of the `*_ids` variables holding a dictionary, in namespace order. */
  function IdsBases(ns: seq<(string, Value)>): (r: seq<string>)
    ensures forall b :: b in r <==> exists i :: 0 <= i < |ns| && EndsWithIds(ns[i].0) && ns[i].1.Dict?
                                              && b == ns[i].0[..|ns[i].0| - 4]
  {
    if |ns| == 0 then []
    else
      var rest := IdsBases(ns[1..]);
      assert forall i :: 1 <= i < |ns| ==> ns[1..][i - 1] == ns[i];
      if EndsWithIds(ns[0].0) && ns[0].1.Dict? then [ns[0].0[..|ns[0].0| - 4]] + rest else rest
  }

  /** `normalize_var_base_names(mod)`: those names, without repeats, in sorted order. */
  function BaseNames(ns: seq<(string, Value)>): (r: seq<string>)
    ensures LexOrder.StrictlySorted(r)
    ensures forall b :: b in r <==> b in IdsBases(ns)
  {
    LexOrder.SortUnique(IdsBases(ns))
  }

  /** `getattr(mod, name, None)` */
  function Attr(ns: seq<(string, Value)>, name: string): Value {
    GetOr(ns, name, PyNone)
  }

  /** What `pick_map_data` returns when `ids` qualifies; `data` is `None` for an unsupported shape. */
  datatype MapData = MapData(data: Option<Value>, outpost: Value, ids: seq<(string, Value)>)

  /** `ids` is a dictionary with both `map_id` and `outpost_id`. */
  predicate GoodIds(ids: Value) {
    ids.Dict? && HasKey(ids.entries, "map_id") && HasKey(ids.entries, "outpost_id")
  }

  /** `pick_map_data(mod, base)`; `None` stands for `(None, None, None)`. */
  function PickMapData(ns: seq<(string, Value)>, base: string): (r: Option<MapData>)
    ensures r.None? <==> !GoodIds(Attr(ns, base + "_ids"))
    ensures r.Some? ==> r.value.ids == Attr(ns, base + "_ids").entries
    // the explorable data is kept exactly when it has one of the two accepted shapes
    ensures r.Some? ==> var d := Attr(ns, base);
      r.value.data == if IsListOfSegmentDicts(d) || IsListOfTuplePairs(d) then Some(d) else None
    // the outpost path is kept when it is a list of pairs, and is otherwise empty
    ensures r.Some? ==> var o := Attr(ns, base + "_outpost_path");
      r.value.outpost == if IsListOfTuplePairs(o) then o else List([])
    ensures r.Some? ==> IsListOfTuplePairs(r.value.outpost)
  {
    var data := Attr(ns, base);
    var outpost := Attr(ns, base + "_outpost_path");
    var ids := Attr(ns, base + "_ids");
    if !GoodIds(ids) then None
    else
      var d := if IsListOfSegmentDicts(data) || IsListOfTuplePairs(data) then Some(data) else None;
      var o := if IsListOfTuplePairs(outpost) then outpost else List([]);
      Some(MapData(d, o, ids.entries))
  }
}

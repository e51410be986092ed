/**
  The helpers of the hero formation flagger (`Widgets/HeroFormationFlagger.py`):
  reading formation tables, keeping the two selection indices valid, placing
  the formation around the player, and flagging heroes.

  The player's agent id, position and facing, and the party's hero agent ids,
  are read from the game there; here they are parameters.
 */
module Formation {
  import opened Wrappers
  import opened PyValue
  import opened Geometry
  import LexOrder

  /** A formation table: names with their offsets, in insertion order. */
  type Formations = seq<(string, seq<Point>)>

  /** The formation names of a table, in insertion order. */
  function Names<T>(entries: seq<(string, T)>): (r: seq<string>)
    ensures |r| == |entries|
    ensures forall i :: 0 <= i < |r| ==> r[i] == entries[i].0
  {
    seq(|entries|, i requires 0 <= i < |entries| => entries[i].0)
  }

  /**
    `(float(pair[0]), float(pair[1]))`: `None` where the subscript or the
    conversion raises.
   */
  function NormalizePair(pair: Value, parse: FloatParser): (r: Option<Point>)
    ensures r.Some? ==> Index(pair, 0).Some? && Index(pair, 1).Some?
  {
    if Index(pair, 0).None? || Index(pair, 1).None? then None
    else
      var x := ToFloat(Index(pair, 0).value, parse);
      var y := ToFloat(Index(pair, 1).value, parse);
      if x.None? || y.None? then None else Some(Point(x.value, y.value))
  }

  /** A list or tuple of two or more numbers gives its first two, as floats; the rest is dropped. */
  lemma NormalizeKeepsFirstTwo(pair: Value, parse: FloatParser)
    requires IsSeq(pair) && |pair.items| >= 2
    requires IsNumber(pair.items[0]) && IsNumber(pair.items[1])
    ensures NormalizePair(pair, parse) == Some(Point(NumberValue(pair.items[0]), NumberValue(pair.items[1])))
  {
  }

  /** A pair with fewer than two components raises. */
  lemma NormalizeRejectsShort(pair: Value, parse: FloatParser)
    requires IsSeq(pair) && |pair.items| < 2
    ensures NormalizePair(pair, parse) == None
  {
  }

  /** The list comprehension over one formation's offsets. */
  function NormalizeList(pairs: seq<Value>, parse: FloatParser): (r: Option<seq<Point>>)
    ensures r.Some? ==> |r.value| == |pairs|
  {
    if |pairs| == 0 then Some([])
    else
      match (NormalizeList(pairs[..|pairs| - 1], parse), NormalizePair(pairs[|pairs| - 1], parse))
      case (Some(done), Some(p)) => Some(done + [p])
      case _ => None
  }

  /** The comprehension fails exactly when some pair fails, and otherwise converts each pair in place. */
  lemma {:induction false} NormalizeListPointwise(pairs: seq<Value>, parse: FloatParser)
    ensures NormalizeList(pairs, parse).None? <==> exists i :: 0 <= i < |pairs| && NormalizePair(pairs[i], parse).None?
    ensures NormalizeList(pairs, parse).Some? ==>
      forall i :: 0 <= i < |pairs| ==> Some(NormalizeList(pairs, parse).value[i]) == NormalizePair(pairs[i], parse)
  {
    if |pairs| > 0 {
      var pre := pairs[..|pairs| - 1];
      NormalizeListPointwise(pre, parse);
      assert forall i :: 0 <= i < |pre| ==> pre[i] == pairs[i];
      if NormalizeList(pairs, parse).None? && NormalizeList(pre, parse).Some? {
        assert NormalizePair(pairs[|pairs| - 1], parse).None?;
      }
    }
  }

  /**
    `_normalize_offsets(raw)` over the entries of `raw`: every name keeps its
    place and gets its converted offsets; `None` where Python raises.
   */
  function NormalizeOffsets(raw: seq<(string, Value)>, parse: FloatParser): (r: Option<Formations>)
    ensures r.Some? ==> Names(r.value) == Names(raw)
  {
    if |raw| == 0 then Some([])
    else
      var (name, offsets) := raw[|raw| - 1];
      match NormalizeOffsets(raw[..|raw| - 1], parse)
      case None => None
      case Some(done) =>
        match Iterate(offsets)
        case None => None
        case Some(pairs) =>
          match NormalizeList(pairs, parse)
          case None => None
          case Some(points) =>
            assert Names(done + [(name, points)]) == Names(raw[..|raw| - 1]) + [name];
            assert Names(raw) == Names(raw[..|raw| - 1]) + [name];
            Some(done + [(name, points)])
  }

  /** Each formation keeps as many offsets as its source iterable yields. */
  lemma {:induction false} NormalizeKeepsCounts(raw: seq<(string, Value)>, parse: FloatParser, i: nat)
    requires NormalizeOffsets(raw, parse).Some? && i < |raw|
    ensures Iterate(raw[i].1).Some?
    ensures |NormalizeOffsets(raw, parse).value[i].1| == |Iterate(raw[i].1).value|
    ensures Some(NormalizeOffsets(raw, parse).value[i].1) == NormalizeList(Iterate(raw[i].1).value, parse)
  {
    var n := |raw| - 1;
    var pre := raw[..n];
    if i < n {
      NormalizeKeepsCounts(pre, parse, i);
      var done := NormalizeOffsets(pre, parse).value;
      assert NormalizeOffsets(raw, parse).value[i] == done[i];
    }
  }

  /**
    `_load_legacy_formations()`: `formations` is the module's `formations`
    attribute, `None` when the file is missing or fails to import. Anything
    but a dictionary, or one `_normalize_offsets` raises on, gives `{}`.
   */
  function LoadLegacy(formations: Option<Value>, parse: FloatParser): (r: Formations)
    ensures formations.None? || !formations.value.Dict? ==> r == []
    ensures r != [] ==>
      formations.Some? && formations.value.Dict? && Some(r) == NormalizeOffsets(formations.value.entries, parse)
  {
    if formations.None? || !formations.value.Dict? then []
    else
      match NormalizeOffsets(formations.value.entries, parse)
      case None => []
      case Some(r) => r
  }

  /** A table that normalises loads as normalised; one that raises loads as empty. */
  lemma LoadLegacyOutcome(entries: seq<(string, Value)>, parse: FloatParser)
    ensures NormalizeOffsets(entries, parse).Some? ==>
      LoadLegacy(Some(Dict(entries)), parse) == NormalizeOffsets(entries, parse).value
    ensures NormalizeOffsets(entries, parse).None? ==> LoadLegacy(Some(Dict(entries)), parse) == []
  {
  }

  /** Python's `s[i]`, negative indices counting from the end; `None` is an IndexError. */
  function PyAt<T>(s: seq<T>, i: int): (r: Option<T>)
    ensures r.Some? <==> -|s| <= i < |s|
    ensures 0 <= i < |s| ==> r == Some(s[i])
  {
    if 0 <= i < |s| then Some(s[i])
    else if -|s| <= i < 0 then Some(s[|s| + i])
    else None
  }

  /** `dict.get(key, {})` on a table of tables. */
  function Lookup(sets: seq<(string, Formations)>, key: string): (r: Formations)
    ensures r != [] ==> exists i :: 0 <= i < |sets| && sets[i] == (key, r)
  {
    if |sets| == 0 then []
    else if sets[0].0 == key then sets[0].1
    else Lookup(sets[1..], key)
  }

  /** Looking up a name that no earlier entry carries finds its own table. */
  lemma {:induction false} LookupFinds(sets: seq<(string, Formations)>, i: nat)
    requires i < |sets| && forall j :: 0 <= j < i ==> sets[j].0 != sets[i].0
    ensures Lookup(sets, sets[i].0) == sets[i].1
  {
    if i > 0 {
      assert sets[1..][i - 1] == sets[i];
      LookupFinds(sets[1..], i - 1);
    }
  }

  /** The two indices after `_ensure_valid_indices`, and what it returns. */
  datatype Selection = Selection(
    datasetIndex: int,
    formationIndex: int,
    datasetName: Option<string>,
    formationNames: seq<string>)

  /**
    `_ensure_valid_indices()`: `sets` is `FORMATION_SETS`, the indices are the
    two selected ones. `None` is the IndexError a dataset index below
    `-len(sets)` raises; a negative index is never corrected.
   */
  function EnsureValidIndices(sets: seq<(string, Formations)>, dataset: int, formation: int): (r: Option<Selection>)
    ensures |sets| == 0 ==> r == Some(Selection(0, 0, None, []))
    ensures |sets| > 0 ==> (r.None? <==> dataset < -|sets|)
    ensures r.Some? && |sets| > 0 ==>
      && r.value.datasetName.Some?
      && r.value.datasetName.value in Names(sets)
      && r.value.datasetIndex == (if dataset >= |sets| then 0 else dataset)
      && -|sets| <= r.value.datasetIndex < |sets|
      && LexOrder.Sorted(r.value.formationNames)
      && multiset(r.value.formationNames) == multiset(Names(Lookup(sets, r.value.datasetName.value)))
      && r.value.formationIndex ==
           (if r.value.formationNames == [] || formation >= |r.value.formationNames| then 0 else formation)
  {
    if |sets| == 0 then Some(Selection(0, 0, None, []))
    else
      var d := if dataset >= |sets| then 0 else dataset;
      match PyAt(Names(sets), d)
      case None => None
      case Some(name) =>
        var names := LexOrder.Sort(Names(Lookup(sets, name)));
        var f := if names != [] then (if formation >= |names| then 0 else formation) else 0;
        Some(Selection(d, f, Some(name), names))
  }

  /** Non-negative indices come out in range: the dataset one always, the formation one when there are names. */
  lemma IndicesInRange(sets: seq<(string, Formations)>, dataset: int, formation: int)
    requires |sets| > 0 && dataset >= 0 && formation >= 0
    ensures EnsureValidIndices(sets, dataset, formation).Some?
    ensures var s := EnsureValidIndices(sets, dataset, formation).value;
      && 0 <= s.datasetIndex < |sets| && s.datasetName == Some(sets[s.datasetIndex].0)
      && (s.formationNames != [] ==> 0 <= s.formationIndex < |s.formationNames|)
  {
  }

  /** Running the check again on its own output changes nothing. */
  lemma EnsureValidIndicesIdempotent(sets: seq<(string, Formations)>, dataset: int, formation: int)
    requires EnsureValidIndices(sets, dataset, formation).Some?
    ensures var s := EnsureValidIndices(sets, dataset, formation).value;
      EnsureValidIndices(sets, s.datasetIndex, s.formationIndex) == Some(s)
  {
  }

  /** Where the player stands and which way it faces: `(cos, sin)` of its rotation. */
  datatype Pose = Pose(playerId: int, base: Point, cos: real, sin: real)

  /**
    Where one offset lands: scaled, then turned so that positive y points
    along the player's facing and positive x to its right.
   */
  function Place(pose: Pose, scale: real, offset: Point): Point {
    var sx := offset.x * scale;
    var sy := offset.y * scale;
    Point(pose.base.x + (sx * pose.sin + sy * pose.cos), pose.base.y + (-sx * pose.cos + sy * pose.sin))
  }

  /** Straight ahead: an offset `(0, y)` lands `scale * y` along the facing. */
  lemma PlaceAhead(pose: Pose, scale: real, y: real)
    ensures Place(pose, scale, Point(0.0, y))
      == Point(pose.base.x + scale * y * pose.cos, pose.base.y + scale * y * pose.sin)
  {
    var p := Place(pose, scale, Point(0.0, y));
    var sy := y * scale;
    assert p.x == pose.base.x + (0.0 * pose.sin + sy * pose.cos);
    assert p.y == pose.base.y + (-0.0 * pose.cos + sy * pose.sin);
    assert sy == scale * y;
  }

  /** To the side: an offset `(x, 0)` lands `scale * x` along the facing turned a quarter clockwise. */
  lemma PlaceAside(pose: Pose, scale: real, x: real)
    ensures Place(pose, scale, Point(x, 0.0))
      == Point(pose.base.x + scale * x * pose.sin, pose.base.y - scale * x * pose.cos)
  {
    var p := Place(pose, scale, Point(x, 0.0));
    var sx := x * scale;
    assert p.x == pose.base.x + (sx * pose.sin + 0.0 * pose.cos);
    assert p.y == pose.base.y + (-sx * pose.cos + 0.0 * pose.sin);
    assert sx == scale * x;
  }

  /** Placing is linear in the offset: the displacement of a sum is the sum of the displacements. */
  lemma PlaceLinear(pose: Pose, scale: real, a: Point, b: Point)
    ensures var pa := Place(pose, scale, a);
      var pb := Place(pose, scale, b);
      var ps := Place(pose, scale, Point(a.x + b.x, a.y + b.y));
      ps.x - pose.base.x == (pa.x - pose.base.x) + (pb.x - pose.base.x)
      && ps.y - pose.base.y == (pa.y - pose.base.y) + (pb.y - pose.base.y)
  {
  }

  /** With a unit facing vector, an offset lands at its scaled length from the player: a pure rotation. */
  lemma {:induction false} PlaceKeepsDistance(pose: Pose, scale: real, offset: Point)
    requires pose.cos * pose.cos + pose.sin * pose.sin == 1.0
    ensures DistSq(Place(pose, scale, offset), pose.base)
      == scale * scale * DistSq(offset, Point(0.0, 0.0))
  {
    var sx := offset.x * scale;
    var sy := offset.y * scale;
    var c := pose.cos;
    var s := pose.sin;
    RotationSquares(sx, sy, c, s);
    assert sx * sx + sy * sy == scale * scale * (offset.x * offset.x + offset.y * offset.y);
  }

  /** `(x s + y c)^2 + (-x c + y s)^2 == (x^2 + y^2)(c^2 + s^2)` */
  lemma RotationSquares(x: real, y: real, c: real, s: real)
    ensures (x * s + y * c) * (x * s + y * c) + (-x * c + y * s) * (-x * c + y * s)
      == (x * x + y * y) * (c * c + s * s)
  {
  }

  /**
    `_compute_rotated_positions(offsets, scale, hero_limit)`: nothing for a
    non-positive limit or a missing player, else the first
    `min(hero_limit, len(offsets))` offsets placed around the player.
   */
  method ComputeRotatedPositions(offsets: seq<Point>, scale: real, heroLimit: int, pose: Pose)
    returns (r: seq<Point>)
    ensures heroLimit <= 0 || pose.playerId == 0 ==> r == []
    ensures heroLimit > 0 && pose.playerId != 0 ==>
      |r| == (if heroLimit < |offsets| then heroLimit else |offsets|)
    ensures forall i :: 0 <= i < |r| ==> i < |offsets| && r[i] == Place(pose, scale, offsets[i])
  {
    if heroLimit <= 0 {
      return [];
    }
    if pose.playerId == 0 {
      return [];
    }
    var maxHeroes := if heroLimit < |offsets| then heroLimit else |offsets|;
    r := [];
    var i := 0;
    while i < maxHeroes
      invariant i <= maxHeroes && |r| == i
      invariant forall k :: 0 <= k < i ==> r[k] == Place(pose, scale, offsets[k])
    {
      var offset := offsets[i];
      var scaledX := offset.x * scale;
      var scaledY := offset.y * scale;
      var rotatedX := scaledX * pose.sin + scaledY * pose.cos;
      var rotatedY := -scaledX * pose.cos + scaledY * pose.sin;
      assert Point(pose.base.x + rotatedX, pose.base.y + rotatedY) == Place(pose, scale, offset);
      r := r + [Point(pose.base.x + rotatedX, pose.base.y + rotatedY)];
      i := i + 1;
    }
  }

  /** One `FlagHero(agent_id, x, y)` call. */
  datatype FlagOrder = FlagOrder(agentId: int, at: Point)

  /**
    The flag orders for `positions`, where `heroAt(k)` is the hero agent id at
    party position `k` (`0` for none): position `i` goes to party position `i + 1`.
   */
  function Orders(positions: seq<Point>, heroAt: int -> int): (r: seq<FlagOrder>)
    ensures |r| <= |positions|
    ensures forall k :: 0 <= k < |r| ==> r[k].agentId != 0
  {
    if |positions| == 0 then []
    else
      var n := |positions| - 1;
      var id := heroAt(n + 1);
      Orders(positions[..n], heroAt) + if id != 0 then [FlagOrder(id, positions[n])] else []
  }

  /** Every position is flagged exactly when every party position holds a hero. */
  lemma {:induction false} OrdersCoverAll(positions: seq<Point>, heroAt: int -> int)
    ensures |Orders(positions, heroAt)| == |positions| <==> forall k :: 1 <= k <= |positions| ==> heroAt(k) != 0
  {
    if |positions| > 0 {
      var n := |positions| - 1;
      OrdersCoverAll(positions[..n], heroAt);
      if heroAt(n + 1) == 0 {
        assert |Orders(positions, heroAt)| == |Orders(positions[..n], heroAt)|;
      }
    }
  }

  /** Each order sends the hero at party position `i + 1` to position `i`, and every such hero gets one. */
  lemma {:induction false} OrdersPairSlots(positions: seq<Point>, heroAt: int -> int, o: FlagOrder)
    ensures o in Orders(positions, heroAt) <==>
      exists i :: 0 <= i < |positions| && heroAt(i + 1) != 0 && o == FlagOrder(heroAt(i + 1), positions[i])
  {
    if |positions| > 0 {
      var n := |positions| - 1;
      var pre := positions[..n];
      OrdersPairSlots(pre, heroAt, o);
      assert forall i :: 0 <= i < n ==> pre[i] == positions[i];
      var id := heroAt(n + 1);
      assert Orders(positions, heroAt) == Orders(pre, heroAt) + if id != 0 then [FlagOrder(id, positions[n])] else [];
      if (exists i :: 0 <= i < |positions| && heroAt(i + 1) != 0 && o == FlagOrder(heroAt(i + 1), positions[i])) {
        var i :| 0 <= i < |positions| && heroAt(i + 1) != 0 && o == FlagOrder(heroAt(i + 1), positions[i]);
        if i < n {
          assert 0 <= i < |pre| && heroAt(i + 1) != 0 && o == FlagOrder(heroAt(i + 1), pre[i]);
        }
      }
    }
  }

  /** With no hero in any slot, nothing is flagged. */
  lemma {:induction false} OrdersNone(positions: seq<Point>, heroAt: int -> int)
    requires forall k :: 1 <= k <= |positions| ==> heroAt(k) == 0
    ensures Orders(positions, heroAt) == []
  {
    if |positions| > 0 {
      OrdersNone(positions[..|positions| - 1], heroAt);
    }
  }

  /**
    `_flag_heroes(positions)`: the flag orders it issues, in order, and the
    count it returns.
   */
  method FlagHeroes(positions: seq<Point>, heroAt: int -> int) returns (flagged: int, orders: seq<FlagOrder>)
    ensures orders == Orders(positions, heroAt)
    ensures flagged == |orders| && 0 <= flagged <= |positions|
  {
    flagged := 0;
    orders := [];
    var index := 1;
    while index <= |positions|
      invariant 1 <= index <= |positions| + 1
      invariant orders == Orders(positions[..index - 1], heroAt)
      invariant flagged == |orders|
    {
      var pos := positions[index - 1];
      var agentId := heroAt(index);
      if agentId != 0 {
        orders := orders + [FlagOrder(agentId, pos)];
        flagged := flagged + 1;
      }
      assert positions[..index][..index - 1] == positions[..index - 1];
      index := index + 1;
    }
    assert positions[..index - 1] == positions;
  }
}

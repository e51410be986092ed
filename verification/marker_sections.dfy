/**
  The line sections `build_markers_ini.py` writes to `markers.ini`, as
  records: a section number (`[customlineNNN]`), a name, two endpoints, a
  colour and a map id. The `:.6f` text of each section is not modelled.

  The section counter is threaded through every builder; every builder
  returns its sections numbered consecutively from the counter it was given,
  together with the counter after them.
 */
module MarkerSections {
  import opened Wrappers
  import opened PyValue
  import opened Geometry
  import opened MarkerShape
  import Chains

  /** Which of the four colour arguments a section is drawn in. */
  datatype Hue = ColorA | ColorB | BlessHue | ConnectorHue

  /** `--color-a`, `--color-b`, `--bless-color` and `--connector-color`. */
  datatype Palette = Palette(a: string, b: string, bless: string, connector: string)

  /** The `color = ...` text written for a hue. */
  function ColorText(pal: Palette, h: Hue): string {
    match h
    case ColorA => pal.a
    case ColorB => pal.b
    case BlessHue => pal.bless
    case ConnectorHue => pal.connector
  }

  /** `{base}_segNN` or `{base}_outpost`. */
  datatype Prefix = SegmentPrefix(base: string, seg: int) | OutpostPrefix(base: string)

  /** The `name = ...` of a section. */
  datatype Label =
    | Waypoint(prefix: Prefix, wp: int)        // {prefix}_wpNNN
    | BlessToFirst(base: string, seg: int)     // {base}_segNN_bless_to_wp001
    | SegmentConnector(base: string, seg: int) // {base}_segNN_to_seg(NN+1)_connector

  function LabelBase(l: Label): string {
    match l
    case Waypoint(p, _) => p.base
    case BlessToFirst(b, _) => b
    case SegmentConnector(b, _) => b
  }

  datatype Section = Section(number: int, name: Label, p1: Point, p2: Point, hue: Hue, mapId: int)

  /** Section `k` is `[customline{start + k}]`. */
  predicate Numbered(secs: seq<Section>, start: int) {
    forall k :: 0 <= k < |secs| ==> secs[k].number == start + k
  }

  lemma NumberedAppend(a: seq<Section>, b: seq<Section>, start: int)
    requires Numbered(a, start) && Numbered(b, start + |a|)
    ensures Numbered(a + b, start)
  {
  }

  /** The number of lines drawn through `n` points: `len(range(n - 1))`. */
  function LineCount(n: nat): nat {
    if n == 0 then 0 else n - 1
  }

  /** The colour of line `k` when line 0 has colour A exactly if `useA`. */
  function LineColor(k: nat, useA: bool): Hue {
    if (k % 2 == 0) == useA then ColorA else ColorB
  }

  lemma LineColorShift(k: nat, useA: bool)
    ensures LineColor(k + 1, useA) == LineColor(k, !useA)
  {
  }

  /** The loop of `line_sections_from_waypoints` from point 0 of `pts`, with the colour toggle at `useA`. */
  function LineRun(prefix: Prefix, pts: seq<Point>, mapId: int, start: int, wp: int, useA: bool)
    : (r: seq<Section>)
    ensures |r| == LineCount(|pts|)
    ensures forall k :: 0 <= k < |r| ==>
      r[k].number == start + k && r[k].name == Waypoint(prefix, wp + k) && r[k].mapId == mapId
    decreases |pts|
  {
    if |pts| < 2 then []
    else
      var head := Section(start, Waypoint(prefix, wp), pts[0], pts[1], if useA then ColorA else ColorB, mapId);
      var rest := LineRun(prefix, pts[1..], mapId, start + 1, wp + 1, !useA);
      assert forall k :: 1 <= k < 1 + |rest| ==> ([head] + rest)[k] == rest[k - 1];
      [head] + rest
  }

  /** Line `k` runs from point `k` to point `k + 1`, and the toggle alternates the colours. */
  lemma {:induction false} LineRunDraws(prefix: Prefix, pts: seq<Point>, mapId: int, start: int, wp: int,
                                        useA: bool)
    ensures var r := LineRun(prefix, pts, mapId, start, wp, useA);
      forall k :: 0 <= k < |r| ==> r[k].p1 == pts[k] && r[k].p2 == pts[k + 1] && r[k].hue == LineColor(k, useA)
    decreases |pts|
  {
    var r := LineRun(prefix, pts, mapId, start, wp, useA);
    if |pts| >= 2 {
      var rest := LineRun(prefix, pts[1..], mapId, start + 1, wp + 1, !useA);
      LineRunDraws(prefix, pts[1..], mapId, start + 1, wp + 1, !useA);
      forall k | 0 <= k < |r|
        ensures r[k].p1 == pts[k] && r[k].p2 == pts[k + 1] && r[k].hue == LineColor(k, useA)
      {
        if k > 0 {
          assert r[k] == rest[k - 1];
          assert pts[1..][k - 1] == pts[k] && pts[1..][k] == pts[k + 1];
          LineColorShift(k - 1, useA);
        }
      }
    }
  }

  /** The result of `line_sections_from_waypoints`: sections, next section index, next waypoint index. */
  datatype Lines = Lines(sections: seq<Section>, next: int, nextWp: int)

  /**
    `line_sections_from_waypoints(prefix, points, map_id, start, color_a, color_b, start_wp)`:
    one section per pair of consecutive points, numbered on from both counters.
   */
  function LineSections(prefix: Prefix, pts: seq<Point>, mapId: int, start: int, startWp: int): (r: Lines)
    ensures |r.sections| == LineCount(|pts|)
    ensures r.next == start + |r.sections| && r.nextWp == startWp + |r.sections|
    ensures Numbered(r.sections, start)
    ensures forall k :: 0 <= k < |r.sections| ==>
      r.sections[k].name == Waypoint(prefix, startWp + k) && r.sections[k].mapId == mapId
  {
    var n := LineCount(|pts|);
    var secs := seq(n, k requires 0 <= k < n =>
      Section(start + k, Waypoint(prefix, startWp + k), pts[k], pts[k + 1], if k % 2 == 0 then ColorA else ColorB, mapId));
    Lines(secs, start + n, startWp + n)
  }

  /**
    The toggling loop computes the same sections: line `k` runs from point `k`
    to point `k + 1`, in colour A when `k` is even and B when it is odd.
   */
  lemma LineSectionsIsLoop(prefix: Prefix, pts: seq<Point>, mapId: int, start: int, startWp: int)
    ensures LineSections(prefix, pts, mapId, start, startWp).sections == LineRun(prefix, pts, mapId, start, startWp, true)
  {
    LineRunDraws(prefix, pts, mapId, start, startWp, true);
  }

  /** `add_connector_section(index, prefix, start_pt, end_pt, map_id, connector_color)` */
  function ConnectorSection(index: int, base: string, seg: int, startPt: Point, endPt: Point,
                            mapId: int): (r: (Section, int))
    ensures r.1 == r.0.number + 1 && r.0.number == index
    ensures r.0.hue == ConnectorHue && r.0.name.SegmentConnector?
  {
    (Section(index, SegmentConnector(base, seg), startPt, endPt, ConnectorHue, mapId), index + 1)
  }

  /** A segment after the first pass of `sections_for_explorable`. */
  datatype Seg = Seg(path: seq<Point>, bless: Option<Point>)

  /** The first pass: every path converted, and `bless` where present; `None` where `float_pair` raises. */
  function NormalizeSegments(items: seq<Value>, parse: FloatParser): (r: Option<seq<Seg>>)
    requires forall i :: 0 <= i < |items| ==> IsSegmentDict(items[i])
    ensures r.Some? ==> |r.value| == |items|
  {
    if |items| == 0 then Some([])
    else
      var seg := items[0];
      var path := Points(SegPath(seg));
      var bless := if SegBless(seg).Some? then FloatPair(SegBless(seg).value, parse) else None;
      assert forall i :: 0 <= i < |items| - 1 ==> items[1..][i] == items[i + 1];
      var rest := NormalizeSegments(items[1..], parse);
      if SegBless(seg).Some? && bless.None? then None
      else if rest.None? then None
      else Some([Seg(path, bless)] + rest.value)
  }

  /** A `bless` that cannot be converted. */
  predicate BadBless(item: Value, parse: FloatParser)
    requires IsSegmentDict(item)
  {
    SegBless(item).Some? && FloatPair(SegBless(item).value, parse).None?
  }

  /** Segment `i` converted: its points, and its bless where it has one. */
  predicate Converted(item: Value, seg: Seg, parse: FloatParser)
    requires IsSegmentDict(item)
  {
    seg.path == Points(SegPath(item))
    && seg.bless == (if SegBless(item).Some? then FloatPair(SegBless(item).value, parse) else None)
  }

  /** The first pass fails exactly when some segment's bless cannot be converted. */
  lemma {:induction false} NormalizeSegmentsFails(items: seq<Value>, parse: FloatParser)
    requires forall i :: 0 <= i < |items| ==> IsSegmentDict(items[i])
    ensures NormalizeSegments(items, parse).None? <==> exists i :: 0 <= i < |items| && BadBless(items[i], parse)
  {
    if |items| > 0 {
      var tail := items[1..];
      assert forall i :: 0 <= i < |tail| ==> tail[i] == items[i + 1];
      NormalizeSegmentsFails(tail, parse);
      if exists i :: 0 <= i < |tail| && BadBless(tail[i], parse) {
        var i :| 0 <= i < |tail| && BadBless(tail[i], parse);
        assert BadBless(items[i + 1], parse);
      }
      if exists i :: 0 <= i < |items| && BadBless(items[i], parse) {
        var i :| 0 <= i < |items| && BadBless(items[i], parse);
        if i > 0 {
          assert BadBless(tail[i - 1], parse);
        }
      }
    }
  }

  /** Where it succeeds, the first pass converts every segment in place. */
  lemma {:induction false} NormalizeSegmentsConverts(items: seq<Value>, parse: FloatParser)
    requires forall i :: 0 <= i < |items| ==> IsSegmentDict(items[i])
    ensures var r := NormalizeSegments(items, parse);
      r.Some? ==> forall i :: 0 <= i < |items| ==> Converted(items[i], r.value[i], parse)
  {
    var r := NormalizeSegments(items, parse);
    if |items| > 0 && r.Some? {
      var tail := items[1..];
      assert forall i :: 0 <= i < |tail| ==> tail[i] == items[i + 1];
      NormalizeSegmentsConverts(tail, parse);
      var rest := NormalizeSegments(tail, parse).value;
      assert r.value == [r.value[0]] + rest;
      forall i | 0 <= i < |items|
        ensures Converted(items[i], r.value[i], parse)
      {
        if i > 0 {
          assert r.value[i] == rest[i - 1] && items[i] == tail[i - 1];
        }
      }
    }
  }

  function Last(s: seq<Point>): Point
    requires |s| > 0
  {
    s[|s| - 1]
  }

  /** Where the connector after segment `i` ends: the next segment's bless, else its first point. */
  function ConnectorEnd(segs: seq<Seg>, i: nat): Option<Point>
    requires i < |segs|
  {
    if i + 1 >= |segs| || |segs[i].path| == 0 then None
    else if segs[i + 1].bless.Some? then segs[i + 1].bless
    else if |segs[i + 1].path| > 0 then Some(segs[i + 1].path[0])
    else None
  }

  /** How many sections segment `i` contributes: bless link, path lines, connector. */
  function SegmentCount(segs: seq<Seg>, i: nat): nat
    requires i < |segs|
  {
    var path := segs[i].path;
    (if segs[i].bless.Some? && |path| > 0 then 1 else 0)
    + LineCount(|path|)
    + (if i + 1 < |segs| && |path| > 0 && (segs[i + 1].bless.Some? || |segs[i + 1].path| > 0) then 1 else 0)
  }

  /** The `bless -> first waypoint` line of a segment that has a bless and a point. */
  function BlessLink(base: string, seg: Seg, idx: int, mapId: int, start: int): (r: seq<Section>)
    ensures |r| == if seg.bless.Some? && |seg.path| > 0 then 1 else 0
    ensures |r| == 1 ==> r[0] == Section(start, BlessToFirst(base, idx), seg.bless.value, seg.path[0], BlessHue, mapId)
  {
    if seg.bless.Some? && |seg.path| > 0
    then [Section(start, BlessToFirst(base, idx), seg.bless.value, seg.path[0], BlessHue, mapId)]
    else []
  }

  /** The connector after segment `i`, where `ConnectorEnd` gives it an end. */
  function ConnectorLink(base: string, segs: seq<Seg>, i: nat, mapId: int, start: int): (r: seq<Section>)
    requires i < |segs|
    ensures |r| == if ConnectorEnd(segs, i).Some? then 1 else 0
    ensures |r| == 1 ==> |segs[i].path| > 0
    ensures |r| == 1 ==>
      r[0] == Section(start, SegmentConnector(base, i + 1), Last(segs[i].path), ConnectorEnd(segs, i).value,
                      ConnectorHue, mapId)
  {
    match ConnectorEnd(segs, i)
    case None => []
    case Some(e) => [ConnectorSection(start, base, i + 1, Last(segs[i].path), e, mapId).0]
  }

  /**
    The second pass of `sections_for_explorable` for segment `i` (shown as
    segment `i + 1`): the bless link, the path lines (none for fewer than two
    points, as the `len(path) >= 2` guard has it), the connector.
   */
  function SegmentSections(base: string, segs: seq<Seg>, i: nat, mapId: int, start: int): (r: seq<Section>)
    requires i < |segs|
    ensures |r| == SegmentCount(segs, i)
    ensures Numbered(r, start)
    ensures forall k :: 0 <= k < |r| ==> r[k].mapId == mapId && LabelBase(r[k].name) == base
  {
    var seg := segs[i];
    var bl := BlessLink(base, seg, i + 1, mapId, start);
    var lines := LineSections(SegmentPrefix(base, i + 1), seg.path, mapId, start + |bl|, 1).sections;
    var conn := ConnectorLink(base, segs, i, mapId, start + |bl| + |lines|);
    NumberedAppend(bl, lines, start);
    NumberedAppend(bl + lines, conn, start);
    bl + lines + conn
  }

  /** A bless link opens a segment's block exactly when the segment has a bless and a point. */
  lemma SegmentOpensWithBless(base: string, segs: seq<Seg>, i: nat, mapId: int, start: int)
    requires i < |segs|
    ensures var r := SegmentSections(base, segs, i, mapId, start); var path := segs[i].path;
      && ((|r| > 0 && r[0].name.BlessToFirst?) <==> segs[i].bless.Some? && |path| > 0)
      && (|r| > 0 && r[0].name.BlessToFirst? ==>
            r[0] == Section(start, BlessToFirst(base, i + 1), segs[i].bless.value, path[0], BlessHue, mapId))
  {
    var seg := segs[i];
    var bl := BlessLink(base, seg, i + 1, mapId, start);
    var lines := LineSections(SegmentPrefix(base, i + 1), seg.path, mapId, start + |bl|, 1).sections;
    var conn := ConnectorLink(base, segs, i, mapId, start + |bl| + |lines|);
    var r := bl + lines + conn;
    assert r == SegmentSections(base, segs, i, mapId, start);
    if |r| > 0 {
      if |bl| == 0 {
        assert r[0] == if |lines| > 0 then lines[0] else conn[0];
      } else {
        assert r[0] == bl[0];
      }
    }
  }

  /**
    A connector closes a segment's block exactly when there is a next segment,
    this path is non-empty, and the next segment has a bless or a point; it
    runs from this path's last point to the next bless, else the next first point.
   */
  lemma SegmentClosesWithConnector(base: string, segs: seq<Seg>, i: nat, mapId: int, start: int)
    requires i < |segs|
    ensures var r := SegmentSections(base, segs, i, mapId, start); var path := segs[i].path;
      (|r| > 0 && r[|r| - 1].name.SegmentConnector?) <==>
        i + 1 < |segs| && |path| > 0 && (segs[i + 1].bless.Some? || |segs[i + 1].path| > 0)
    ensures var r := SegmentSections(base, segs, i, mapId, start); var path := segs[i].path;
      |r| > 0 && r[|r| - 1].name.SegmentConnector? ==>
        && |path| > 0 && i + 1 < |segs|
        && r[|r| - 1].p1 == path[|path| - 1]
        && r[|r| - 1].p2 == (if segs[i + 1].bless.Some? then segs[i + 1].bless.value else segs[i + 1].path[0])
        && r[|r| - 1].hue == ConnectorHue && r[|r| - 1].name == SegmentConnector(base, i + 1)
  {
    var seg := segs[i];
    var bl := BlessLink(base, seg, i + 1, mapId, start);
    var lines := LineSections(SegmentPrefix(base, i + 1), seg.path, mapId, start + |bl|, 1).sections;
    var conn := ConnectorLink(base, segs, i, mapId, start + |bl| + |lines|);
    var r := bl + lines + conn;
    assert r == SegmentSections(base, segs, i, mapId, start);
    if |r| > 0 {
      if |conn| == 0 {
        assert r[|r| - 1] == if |lines| > 0 then lines[|lines| - 1] else bl[0];
      } else {
        assert r[|r| - 1] == conn[0];
      }
    }
  }

  /** Between the links are the segment's path lines, named `{base}_segNN_wpMMM` for this segment. */
  lemma SegmentLinesArePrefixed(base: string, segs: seq<Seg>, i: nat, mapId: int, start: int)
    requires i < |segs|
    ensures var r := SegmentSections(base, segs, i, mapId, start);
      forall k :: 0 <= k < |r| && r[k].name.Waypoint? ==> r[k].name.prefix == SegmentPrefix(base, i + 1)
  {
    var seg := segs[i];
    var bl := BlessLink(base, seg, i + 1, mapId, start);
    var lines := LineSections(SegmentPrefix(base, i + 1), seg.path, mapId, start + |bl|, 1).sections;
    var conn := ConnectorLink(base, segs, i, mapId, start + |bl| + |lines|);
    var r := bl + lines + conn;
    assert r == SegmentSections(base, segs, i, mapId, start);
    forall k | 0 <= k < |r|
      ensures r[k].name.Waypoint? ==> r[k].name.prefix == SegmentPrefix(base, i + 1)
    {
      if k < |bl| { assert r[k] == bl[k]; }
      else if k < |bl| + |lines| { assert r[k] == lines[k - |bl|]; }
      else { assert r[k] == conn[k - |bl| - |lines|]; }
    }
  }


  /** Segment `j`'s block, built from counter `c`, as a block function for `Chains`. */
  function Blocks(base: string, segs: seq<Seg>, mapId: int): (nat, int) -> seq<Section> {
    (j: nat, c: int) => if j < |segs| then SegmentSections(base, segs, j, mapId, c) else []
  }

  /** The map id and map name every section of a block carries. */
  function Tagged(base: string, mapId: int): Section -> bool {
    (s: Section) => s.mapId == mapId && LabelBase(s.name) == base
  }

  function Number(s: Section): int {
    s.number
  }

  lemma BlocksKeep(base: string, segs: seq<Seg>, mapId: int)
    ensures forall j: nat, d: int :: j < |segs| ==>
      Chains.Every(Blocks(base, segs, mapId)(j, d), Tagged(base, mapId))
      && Chains.Counted(Blocks(base, segs, mapId)(j, d), Number, d)
  {
    forall j: nat, d: int | j < |segs|
      ensures Chains.Every(Blocks(base, segs, mapId)(j, d), Tagged(base, mapId))
              && Chains.Counted(Blocks(base, segs, mapId)(j, d), Number, d)
    {
      var b := SegmentSections(base, segs, j, mapId, d);
      assert Blocks(base, segs, mapId)(j, d) == b;
    }
  }

  /**
    The second pass from segment `i` on: each segment's block in turn, each
    numbered from where the one before it ends.
   */
  function EmitFrom(base: string, segs: seq<Seg>, i: nat, mapId: int, start: int): (r: seq<Section>)
    requires i <= |segs|
    ensures Numbered(r, start)
    ensures forall k :: 0 <= k < |r| ==> r[k].mapId == mapId && LabelBase(r[k].name) == base
  {
    var r := Chains.Chain(Blocks(base, segs, mapId), i, |segs|, start);
    BlocksKeep(base, segs, mapId);
    Chains.ChainKeeps(Blocks(base, segs, mapId), i, |segs|, start, Tagged(base, mapId), Number);
    assert forall k :: 0 <= k < |r| ==> Tagged(base, mapId)(r[k]) && Number(r[k]) == start + k;
    r
  }

  /**
    `sections_for_explorable(base, data, map_id, start, ...)`: `None` where a
    `bless` cannot be converted (`build_markers_ini.py` raises).
   */
  function SectionsForExplorable(base: string, data: Value, mapId: int, start: int,
                                 parse: FloatParser): (r: Option<(seq<Section>, int)>)
    ensures r.Some? ==> Numbered(r.value.0, start) && r.value.1 == start + |r.value.0|
    ensures r.Some? ==> forall k :: 0 <= k < |r.value.0| ==>
      r.value.0[k].mapId == mapId && LabelBase(r.value.0[k].name) == base
    // only segmented data can fail, and only on a bless
    ensures r.None? ==> IsListOfSegmentDicts(data)
    // a flat list is one segment of alternating path lines, with no bless link and no connector
    ensures IsListOfTuplePairs(data) && !IsListOfSegmentDicts(data) ==>
      && r.Some? && |r.value.0| == LineCount(|data.items|)
      && forall k :: 0 <= k < |r.value.0| ==>
           && r.value.0[k].name == Waypoint(SegmentPrefix(base, 1), k + 1)
           && r.value.0[k].hue == (if k % 2 == 0 then ColorA else ColorB)
    ensures !IsListOfTuplePairs(data) && !IsListOfSegmentDicts(data) ==> r == Some(([], start))
  {
    if IsListOfSegmentDicts(data) then
      match NormalizeSegments(data.items, parse)
      case None => None
      case Some(segs) =>
        var secs := EmitFrom(base, segs, 0, mapId, start);
        Some((secs, start + |secs|))
    else if IsListOfTuplePairs(data) then
      var l := LineSections(SegmentPrefix(base, 1), Points(data), mapId, start, 1);
      Some((l.sections, l.next))
    else Some(([], start))
  }

  /** `sections_for_outpost(base, outpost, outpost_id, start, color_a, color_b)` */
  function SectionsForOutpost(base: string, outpost: Value, outpostId: int, start: int): (r: (seq<Section>, int))
    ensures Numbered(r.0, start) && r.1 == start + |r.0|
    ensures !IsListOfTuplePairs(outpost) ==> r == ([], start)
    ensures IsListOfTuplePairs(outpost) ==>
      && |r.0| == LineCount(|outpost.items|)
      && forall k :: 0 <= k < |r.0| ==>
           && r.0[k].name == Waypoint(OutpostPrefix(base), k + 1)
           && r.0[k].mapId == outpostId
           && r.0[k].hue == (if k % 2 == 0 then ColorA else ColorB)
  {
    if !Truthy(outpost) || !IsListOfTuplePairs(outpost) then ([], start)
    else
      var l := LineSections(OutpostPrefix(base), Points(outpost), outpostId, start, 1);
      (l.sections, l.next)
  }

  /** What Python's `int()` makes of a string: the integer, or `None` where it raises ValueError. */
  type IntParser = string -> Option<int>

  /** Python's `int(v)`: `None` where it raises. */
  function ToInt(v: Value, parseInt: IntParser): (r: Option<int>)
    ensures v.Int? ==> r == Some(v.i)
    ensures v.Float? ==> r == Some(Trunc(v.f))
    ensures r.Some? ==> IsNumber(v) || v.Str?
  {
    match v
    case Bool(b) => Some(if b then 1 else 0)
    case Int(i) => Some(i)
    case Float(f) => Some(Trunc(f))
    case Str(s) => parseInt(s)
    case _ => None
  }

  /** The sections for one map name, after the `ids` check; `None` where `build_markers_ini.py` raises. */
  function SectionsForBase(base: string, m: MapData, start: int, parse: FloatParser,
                           parseInt: IntParser): (r: Option<(seq<Section>, int)>)
    requires GoodIds(Dict(m.ids))
    ensures r.Some? ==> Numbered(r.value.0, start) && r.value.1 == start + |r.value.0|
    ensures r.Some? ==> forall k :: 0 <= k < |r.value.0| ==> LabelBase(r.value.0[k].name) == base
    ensures r.Some? ==> ToInt(Get(m.ids, "map_id").value, parseInt).Some?
                        && ToInt(Get(m.ids, "outpost_id").value, parseInt).Some?
  {
    match ToInt(Get(m.ids, "map_id").value, parseInt)
    case None => None
    case Some(mapId) =>
      match ToInt(Get(m.ids, "outpost_id").value, parseInt)
      case None => None
      case Some(outpostId) =>
        var expl := if m.data.Some? then SectionsForExplorable(base, m.data.value, mapId, start, parse)
                    else Some(([], start));
        match expl
        case None => None
        case Some((es, s1)) =>
          var (os, s2) := SectionsForOutpost(base, m.outpost, outpostId, s1);
          NumberedAppend(es, os, start);
          Some((es + os, s2))
  }

  /** The loop of `process_module` over the remaining map names. */
  function ProcessBases(ns: seq<(string, Value)>, bases: seq<string>, start: int,
                        parse: FloatParser, parseInt: IntParser): (r: Option<(seq<Section>, int)>)
    ensures r.Some? ==> Numbered(r.value.0, start) && r.value.1 == start + |r.value.0|
    ensures r.Some? ==> forall k :: 0 <= k < |r.value.0| ==> LabelBase(r.value.0[k].name) in bases
  {
    if |bases| == 0 then Some(([], start))
    else
      var here: Option<(seq<Section>, int)> := match PickMapData(ns, bases[0])
        case None => Some(([], start))
        case Some(m) => SectionsForBase(bases[0], m, start, parse, parseInt);
      match here
      case None => None
      case Some((hs, s1)) =>
        match ProcessBases(ns, bases[1..], s1, parse, parseInt)
        case None => None
        case Some((rs, s2)) =>
          NumberedAppend(hs, rs, start);
          assert forall k :: 0 <= k < |rs| ==> LabelBase(rs[k].name) in bases;
          Some((hs + rs, s2))
  }

  /**
    `process_module(mod, path, start, ...)`: `None` where it raises. Every
    section is drawn for one of the module's map names.
   */
  function ProcessModule(ns: seq<(string, Value)>, start: int, parse: FloatParser,
                         parseInt: IntParser): (r: Option<(seq<Section>, int)>)
    ensures r.Some? ==> Numbered(r.value.0, start) && r.value.1 == start + |r.value.0|
    ensures r.Some? ==> forall k :: 0 <= k < |r.value.0| ==> LabelBase(r.value.0[k].name) in BaseNames(ns)
    ensures |BaseNames(ns)| == 0 ==> r == Some(([], start))
  {
    ProcessBases(ns, BaseNames(ns), start, parse, parseInt)
  }

  /** One turn of the loop of `main`: an imported module that does not raise adds what `process_module` draws. */
  function AddModule(acc: (seq<Section>, int), m: Option<seq<(string, Value)>>,
                     parse: FloatParser, parseInt: IntParser): (r: (seq<Section>, int))
  {
    var here: Option<(seq<Section>, int)> :=
      if m.None? then None else ProcessModule(m.value, acc.1, parse, parseInt);
    match here
    case None => acc
    case Some((secs, next)) => (acc.0 + secs, next)
  }

  /** `AddModule` only appends, whatever was gathered before. */
  lemma AddModulePrefix(p: seq<Section>, acc: (seq<Section>, int), m: Option<seq<(string, Value)>>,
                        parse: FloatParser, parseInt: IntParser)
    ensures var r := AddModule(acc, m, parse, parseInt);
      AddModule((p + acc.0, acc.1), m, parse, parseInt) == (p + r.0, r.1)
  {
    var here: Option<(seq<Section>, int)> :=
      if m.None? then None else ProcessModule(m.value, acc.1, parse, parseInt);
    if here.Some? {
      assert (p + acc.0) + here.value.0 == p + (acc.0 + here.value.0);
    }
  }

  /** `AddModule` keeps the output numbered on from `start`. */
  lemma AddModuleNumbered(acc: (seq<Section>, int), m: Option<seq<(string, Value)>>, start: int,
                          parse: FloatParser, parseInt: IntParser)
    requires Numbered(acc.0, start) && acc.1 == start + |acc.0|
    ensures var r := AddModule(acc, m, parse, parseInt);
      Numbered(r.0, start) && r.1 == start + |r.0|
  {
    var here: Option<(seq<Section>, int)> :=
      if m.None? then None else ProcessModule(m.value, acc.1, parse, parseInt);
    if here.Some? {
      NumberedAppend(acc.0, here.value.0, start);
    }
  }

  /** The loop of `main` run over `modules` from `acc`. */
  function GatherFrom(acc: (seq<Section>, int), modules: seq<Option<seq<(string, Value)>>>,
                      parse: FloatParser, parseInt: IntParser): (seq<Section>, int)
    decreases |modules|
  {
    if |modules| == 0 then acc
    else AddModule(GatherFrom(acc, modules[..|modules| - 1], parse, parseInt), modules[|modules| - 1], parse, parseInt)
  }

  /**
    What the loop of `main` gathers from `modules` with the counter at
    `start`: each imported module that does not raise adds the sections
    `process_module` draws for it, numbered on from those before it.
   */
  function Gathered(modules: seq<Option<seq<(string, Value)>>>, start: int,
                    parse: FloatParser, parseInt: IntParser): (r: (seq<Section>, int))
  {
    GatherFrom(([], start), modules, parse, parseInt)
  }

  /** Gathering keeps the output numbered on from `start`. */
  lemma {:induction false} GatheredNumbered(modules: seq<Option<seq<(string, Value)>>>, start: int,
                                            parse: FloatParser, parseInt: IntParser)
    ensures var r := Gathered(modules, start, parse, parseInt);
      Numbered(r.0, start) && r.1 == start + |r.0|
    decreases |modules|
  {
    if |modules| > 0 {
      var pre := modules[..|modules| - 1];
      GatheredNumbered(pre, start, parse, parseInt);
      AddModuleNumbered(Gathered(pre, start, parse, parseInt), modules[|modules| - 1], start, parse, parseInt);
    }
  }

  /** What was gathered before only stands in front of what is gathered next. */
  lemma {:induction false} GatherFromPrefix(p: seq<Section>, acc: (seq<Section>, int),
                                            ns: seq<Option<seq<(string, Value)>>>,
                                            parse: FloatParser, parseInt: IntParser)
    ensures var r := GatherFrom(acc, ns, parse, parseInt);
      GatherFrom((p + acc.0, acc.1), ns, parse, parseInt) == (p + r.0, r.1)
    decreases |ns|
  {
    if |ns| > 0 {
      var ns0 := ns[..|ns| - 1];
      GatherFromPrefix(p, acc, ns0, parse, parseInt);
      AddModulePrefix(p, GatherFrom(acc, ns0, parse, parseInt), ns[|ns| - 1], parse, parseInt);
    }
  }

  /** Running the loop over two runs of modules is running it over the first, then the second. */
  lemma {:induction false} GatherFromAppend(acc: (seq<Section>, int), ms: seq<Option<seq<(string, Value)>>>,
                                            ns: seq<Option<seq<(string, Value)>>>,
                                            parse: FloatParser, parseInt: IntParser)
    ensures GatherFrom(acc, ms + ns, parse, parseInt)
         == GatherFrom(GatherFrom(acc, ms, parse, parseInt), ns, parse, parseInt)
    decreases |ns|
  {
    if |ns| == 0 {
      assert ms + ns == ms;
    } else {
      var ns0 := ns[..|ns| - 1];
      assert (ms + ns)[..|ms + ns| - 1] == ms + ns0;
      assert (ms + ns)[|ms + ns| - 1] == ns[|ns| - 1];
      GatherFromAppend(acc, ms, ns0, parse, parseInt);
    }
  }

  /**
    Module `i`: when it was imported and `process_module` succeeds on it,
    its sections come next in the output, right after those of the modules
    before it; otherwise it adds nothing and leaves the counter alone.
   */
  lemma GatheredModule(modules: seq<Option<seq<(string, Value)>>>, i: nat, start: int,
                       parse: FloatParser, parseInt: IntParser)
    requires i < |modules|
    ensures var (pre, s1) := Gathered(modules[..i], start, parse, parseInt);
      var (upto, s2) := Gathered(modules[..i + 1], start, parse, parseInt);
      var all := Gathered(modules, start, parse, parseInt).0;
      && |upto| <= |all| && upto == all[..|upto|]
      && (modules[i].Some? && ProcessModule(modules[i].value, s1, parse, parseInt).Some? ==>
            upto == pre + ProcessModule(modules[i].value, s1, parse, parseInt).value.0)
      && (modules[i].None? || ProcessModule(modules[i].value, s1, parse, parseInt).None? ==>
            (upto, s2) == (pre, s1))
  {
    var head, tail := modules[..i + 1], modules[i + 1..];
    assert head[..i] == modules[..i];
    assert modules == head + tail;
    var g := Gathered(head, start, parse, parseInt);
    GatherFromAppend(([], start), head, tail, parse, parseInt);
    GatherFromPrefix(g.0, ([], g.1), tail, parse, parseInt);
    assert g.0 + [] == g.0;
  }

  /**
    The loop of `main` over the imported map-data modules (`None` where the
    import failed): a module that raises is skipped and leaves the counter
    alone, so the output is numbered consecutively from `max(0, start_index)`.
   */
  method BuildMarkers(modules: seq<Option<seq<(string, Value)>>>, startIndex: int,
                      parse: FloatParser, parseInt: IntParser) returns (all: seq<Section>, next: int)
    ensures var first := if startIndex < 0 then 0 else startIndex;
      Numbered(all, first) && next == first + |all|
    ensures forall k :: 0 <= k < |all| ==> all[k].number >= 0
    ensures (all, next) == Gathered(modules, if startIndex < 0 then 0 else startIndex, parse, parseInt)
  {
    var first := if startIndex < 0 then 0 else startIndex;
    all := [];
    next := first;
    var i := 0;
    while i < |modules|
      invariant 0 <= i <= |modules|
      invariant (all, next) == Gathered(modules[..i], first, parse, parseInt)
      invariant Numbered(all, first) && next == first + |all|
    {
      assert modules[..i + 1][..i] == modules[..i];
      GatheredNumbered(modules[..i + 1], first, parse, parseInt);
      if modules[i].Some? {
        match ProcessModule(modules[i].value, next, parse, parseInt)
        case None =>
        case Some((secs, n)) =>
          NumberedAppend(all, secs, first);
          all := all + secs;
          next := n;
      }
      i := i + 1;
    }
    assert modules[..i] == modules;
  }
}

/**
  Path merging and indexing in `PyQuishAI.py`: `merge_map_segments` turns a
  map's path data into the flat waypoint list the bot walks,
  `_segment_base_index` translates a segment number into a position in that
  list, and `_clamp` bounds every index that comes from the debug controls.
 */
module PathMerge {
  import opened Wrappers
  import opened PyValue

  /** `max(low, min(high, n))` */
  function Clamp(n: int, low: int, high: int): (r: int)
    ensures low <= high ==> low <= r <= high
    ensures low <= n <= high ==> r == n
    ensures n <= low ==> r == low
    ensures low <= high <= n ==> r == high
  {
    var m := if high <= n then high else n;
    if m < low then low else m
  }

  /** Clamping twice into the same range is clamping once. */
  lemma ClampIdempotent(n: int, low: int, high: int)
    requires low <= high
    ensures Clamp(Clamp(n, low, high), low, high) == Clamp(n, low, high)
  {
  }

  /** `isinstance(data, list) and all(isinstance(x, dict) for x in data)` */
  predicate IsSegmentList(data: Value) {
    data.List? && forall i :: 0 <= i < |data.items| ==> data.items[i].Dict?
  }

  /** `segment.get("path", [])`, what `merge_map_segments` extends with. */
  function SegmentPath(seg: Value): Value
    requires seg.Dict?
  {
    GetOr(seg.entries, "path", List([]))
  }

  /** The in-order concatenation of every segment's path; `None` where `extend` raises. */
  function ConcatPaths(segs: seq<Value>): (r: Option<seq<Value>>)
    requires forall i :: 0 <= i < |segs| ==> segs[i].Dict?
    ensures r.Some? <==> forall i :: 0 <= i < |segs| ==> Iterate(SegmentPath(segs[i])).Some?
  {
    if |segs| == 0 then Some([])
    else
      var tail := ConcatPaths(segs[1..]);
      assert forall i :: 1 <= i < |segs| ==> segs[1..][i - 1] == segs[i];
      match Iterate(SegmentPath(segs[0]))
      case None => None
      case Some(head) =>
        if tail.None? then None else Some(head + tail.value)
  }

  /** `merge_map_segments(data)`: `None` where Python raises TypeError. */
  function MergeMapSegments(data: Value): (r: Option<seq<Value>>)
    ensures !data.List? ==> r == Some([])
    ensures data.List? && !IsSegmentList(data) ==> r == Some(data.items)
    ensures IsSegmentList(data) ==>
      (r.Some? <==> forall i :: 0 <= i < |data.items| ==> Iterate(SegmentPath(data.items[i])).Some?)
  {
    if IsSegmentList(data) then ConcatPaths(data.items)
    else if data.List? then Some(data.items)
    else Some([])
  }

  /** `len(seg.get("path", []) or [])`: `None` where `len` raises TypeError. */
  function PathLength(seg: Value): Option<nat>
    requires seg.Dict?
  {
    var pts := GetOr(seg.entries, "path", List([]));
    if !Truthy(pts) then Some(0) else Len(pts)
  }

  /** The summed path lengths of segments `0 .. k-1`; `None` where Python raises. */
  function BaseSum(segs: seq<Value>, k: int): Option<nat>
    requires forall i :: 0 <= i < |segs| ==> segs[i].Dict?
    decreases |segs|
  {
    if k <= 0 then Some(0)
    else if |segs| == 0 then None   // map_path[k] is an IndexError
    else
      match PathLength(segs[0])
      case None => None
      case Some(n) =>
        match BaseSum(segs[1..], k - 1)
        case None => None
        case Some(rest) => Some(n + rest)
  }

  /** `_segment_base_index(map_path, seg_idx)`: `None` where Python raises. */
  function SegmentBaseIndex(data: Value, segIdx: int): (r: Option<nat>)
    ensures !IsSegmentList(data) ==> r == Some(0)
    ensures segIdx <= 0 ==> r == Some(0)
    ensures IsSegmentList(data) && segIdx > |data.items| ==> r.None?
  {
    if !IsSegmentList(data) then Some(0)
    else BaseSumBeyondEnd(data.items, segIdx); BaseSum(data.items, segIdx)
  }

  lemma {:induction false} BaseSumBeyondEnd(segs: seq<Value>, k: int)
    requires forall i :: 0 <= i < |segs| ==> segs[i].Dict?
    ensures k > |segs| ==> BaseSum(segs, k).None?
    decreases |segs|
  {
    if k > |segs| && |segs| > 0 {
      BaseSumBeyondEnd(segs[1..], k - 1);
    }
  }

  /** Where a segment's path is iterable, `len` of it (after `or []`) counts what `extend` appends. */
  lemma PathLengthMatchesIteration(seg: Value)
    requires seg.Dict?
    requires Iterate(SegmentPath(seg)).Some?
    ensures PathLength(seg) == Some(|Iterate(SegmentPath(seg)).value|)
  {
  }

  /**
    Merging and indexing agree: point `j` of segment `i` sits at
    `base(i) + j` of the merged list, and `base(n)` is the merged length.
   */
  lemma {:induction false} MergedIndexAgrees(segs: seq<Value>, i: nat, j: nat)
    requires forall k :: 0 <= k < |segs| ==> segs[k].Dict?
    requires ConcatPaths(segs).Some?
    requires i < |segs| && j < |Iterate(SegmentPath(segs[i])).value|
    ensures BaseSum(segs, i).Some?
    ensures BaseSum(segs, i).value + j < |ConcatPaths(segs).value|
    ensures ConcatPaths(segs).value[BaseSum(segs, i).value + j] == Iterate(SegmentPath(segs[i])).value[j]
    decreases i
  {
    var head := Iterate(SegmentPath(segs[0])).value;
    PathLengthMatchesIteration(segs[0]);
    if i > 0 {
      assert segs[1..][i - 1] == segs[i];
      MergedIndexAgrees(segs[1..], i - 1, j);
    }
  }

  lemma {:induction false} BaseOfEndIsMergedLength(segs: seq<Value>)
    requires forall k :: 0 <= k < |segs| ==> segs[k].Dict?
    requires ConcatPaths(segs).Some?
    ensures BaseSum(segs, |segs|) == Some(|ConcatPaths(segs).value|)
    decreases |segs|
  {
    if |segs| > 0 {
      PathLengthMatchesIteration(segs[0]);
      BaseOfEndIsMergedLength(segs[1..]);
    }
  }

  /**
    For segmented map data that merges without error, `merged[base(i) + j]`
    is point `j` of segment `i`, and `base(len(data))` is the merged length.
   */
  lemma MergeAndBaseIndexAgree(data: Value, i: nat, j: nat)
    requires IsSegmentList(data) && MergeMapSegments(data).Some?
    requires i < |data.items| && j < |Iterate(SegmentPath(data.items[i])).value|
    ensures SegmentBaseIndex(data, i).Some?
    ensures SegmentBaseIndex(data, i).value + j < |MergeMapSegments(data).value|
    ensures MergeMapSegments(data).value[SegmentBaseIndex(data, i).value + j]
         == Iterate(SegmentPath(data.items[i])).value[j]
    ensures SegmentBaseIndex(data, |data.items|) == Some(|MergeMapSegments(data).value|)
  {
    MergedIndexAgrees(data.items, i, j);
    BaseOfEndIsMergedLength(data.items);
  }
}

/**
  The Python values found in map-data modules (the `PyQuishAI_maps` scripts) and the
  handful of built-ins the path tools apply to them: truthiness, `len`,
  iteration, `dict.get`, indexing and `float()`.

  Floats are modelled as reals (no NaN or infinity), dictionary keys are
  strings, and a dictionary keeps its entries in insertion order.
 */
module PyValue {
  import opened Wrappers

  datatype Value =
    | PyNone
    | Bool(b: bool)
    | Int(i: int)
    | Float(f: real)
    | Str(s: string)
    | List(items: seq<Value>)
    | Tuple(items: seq<Value>)
    | Dict(entries: seq<(string, Value)>)

  /** What Python's `float()` makes of a string: the number, or `None` where it raises ValueError. */
  type FloatParser = string -> Option<real>

  /** `isinstance(v, (list, tuple))` */
  predicate IsSeq(v: Value) {
    v.List? || v.Tuple?
  }

  /** `isinstance(v, (int, float))`; a Python bool is an int. */
  predicate IsNumber(v: Value) {
    v.Bool? || v.Int? || v.Float?
  }

  /** The numeric value of an int, float or bool. */
  function NumberValue(v: Value): real
    requires IsNumber(v)
  {
    match v
    case Bool(b) => if b then 1.0 else 0.0
    case Int(i) => i as real
    case Float(f) => f
  }

  /** Python's `float(v)`: `None` where it raises TypeError or ValueError. */
  function ToFloat(v: Value, parse: FloatParser): (r: Option<real>)
    ensures IsNumber(v) ==> r == Some(NumberValue(v))
    ensures r.Some? ==> IsNumber(v) || v.Str?
  {
    match v
    case Str(s) => parse(s)
    case _ => if IsNumber(v) then Some(NumberValue(v)) else None
  }

  /** Python truthiness: `None`, `False`, zero and empty containers are false. */
  predicate Truthy(v: Value) {
    match v
    case PyNone => false
    case Bool(b) => b
    case Int(i) => i != 0
    case Float(f) => f != 0.0
    case Str(s) => |s| > 0
    case List(items) => |items| > 0
    case Tuple(items) => |items| > 0
    case Dict(entries) => |entries| > 0
  }

  /** `key in d` for a dictionary's entries. */
  predicate HasKey(entries: seq<(string, Value)>, key: string) {
    exists i :: 0 <= i < |entries| && entries[i].0 == key
  }

  /** Position of `key` among the entries (keys of a Python dict are distinct). */
  function KeyIndex(entries: seq<(string, Value)>, key: string): (r: Option<nat>)
    ensures r.Some? <==> HasKey(entries, key)
    ensures r.Some? ==> r.value < |entries| && entries[r.value].0 == key
  {
    if |entries| == 0 then None
    else if entries[0].0 == key then Some(0)
    else
      match KeyIndex(entries[1..], key)
      case None =>
        assert !HasKey(entries, key) by {
          forall i | 0 <= i < |entries| ensures entries[i].0 != key {
            if i > 0 { assert entries[1..][i - 1] == entries[i]; }
          }
        }
        None
      case Some(j) =>
        assert entries[1..][j] == entries[j + 1];
        Some(j + 1)
  }

  /** `d.get(key)`: the value stored under `key`, if any. */
  function Get(entries: seq<(string, Value)>, key: string): (r: Option<Value>)
    ensures r.Some? <==> HasKey(entries, key)
  {
    match KeyIndex(entries, key)
    case None => None
    case Some(i) => Some(entries[i].1)
  }

  /** `d.get(key, default)` */
  function GetOr(entries: seq<(string, Value)>, key: string, default: Value): Value {
    match Get(entries, key)
    case None => default
    case Some(v) => v
  }

  /** The values of a dictionary, in insertion order (`d.values()`). */
  function Values(entries: seq<(string, Value)>): (r: seq<Value>)
    ensures |r| == |entries|
    ensures forall i :: 0 <= i < |entries| ==> r[i] == entries[i].1
  {
    seq(|entries|, i requires 0 <= i < |entries| => entries[i].1)
  }

  /** One character of a string, as the one-character string Python yields. */
  function CharValue(c: char): Value {
    Str([c])
  }

  /**
    What `list.extend(v)` appends: the items of a list or tuple, the characters
    of a string, the keys of a dictionary; `None` where Python raises TypeError.
   */
  function Iterate(v: Value): (r: Option<seq<Value>>)
    ensures IsSeq(v) ==> r == Some(v.items)
    ensures r.Some? <==> IsSeq(v) || v.Str? || v.Dict?
  {
    match v
    case List(items) => Some(items)
    case Tuple(items) => Some(items)
    case Str(s) => Some(seq(|s|, i requires 0 <= i < |s| => CharValue(s[i])))
    case Dict(entries) => Some(seq(|entries|, i requires 0 <= i < |entries| => Str(entries[i].0)))
    case _ => None
  }

  /** Python's `len(v)`: `None` where it raises TypeError. */
  function Len(v: Value): (r: Option<nat>)
    ensures r.Some? <==> Iterate(v).Some?
    ensures r.Some? ==> r.value == |Iterate(v).value|
  {
    match v
    case List(items) => Some(|items|)
    case Tuple(items) => Some(|items|)
    case Str(s) => Some(|s|)
    case Dict(entries) => Some(|entries|)
    case _ => None
  }

  /** `v[i]` for a non-negative integer index: `None` where Python raises. */
  function Index(v: Value, i: nat): (r: Option<Value>)
    ensures IsSeq(v) && i < |v.items| ==> r == Some(v.items[i])
  {
    match v
    case List(items) => if i < |items| then Some(items[i]) else None
    case Tuple(items) => if i < |items| then Some(items[i]) else None
    case Str(s) => if i < |s| then Some(CharValue(s[i])) else None
    // keys of a model dictionary are strings, so an integer subscript is a KeyError
    case _ => None
  }
}

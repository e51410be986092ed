/**
  Python's ordering of strings (code point by code point, a proper prefix
  first) and `sorted(...)` / `sorted(set(...))` over lists of strings.
 */
module LexOrder {

  /** `a <= b` on Python strings. */
  predicate LexLe(a: string, b: string)
    decreases |a|
  {
    |a| == 0 || (|b| > 0 && (a[0] < b[0] || (a[0] == b[0] && LexLe(a[1..], b[1..]))))
  }

  lemma {:induction false} LexLeTotal(a: string, b: string)
    ensures LexLe(a, b) || LexLe(b, a)
    decreases |a|
  {
    if |a| > 0 && |b| > 0 && a[0] == b[0] {
      LexLeTotal(a[1..], b[1..]);
    }
  }

  lemma {:induction false} LexLeAntisymmetric(a: string, b: string)
    requires LexLe(a, b) && LexLe(b, a)
    ensures a == b
    decreases |a|
  {
    if |a| > 0 {
      LexLeAntisymmetric(a[1..], b[1..]);
      assert a == [a[0]] + a[1..];
      assert b == [b[0]] + b[1..];
    }
  }

  lemma {:induction false} LexLeTransitive(a: string, b: string, c: string)
    requires LexLe(a, b) && LexLe(b, c)
    ensures LexLe(a, c)
    decreases |a|
  {
    if |a| > 0 && a[0] == b[0] && b[0] == c[0] {
      LexLeTransitive(a[1..], b[1..], c[1..]);
    }
  }

  /** Every earlier element is `<=` every later one. */
  predicate Sorted(s: seq<string>) {
    forall i, j :: 0 <= i < j < |s| ==> LexLe(s[i], s[j])
  }

  /** Sorted and without repetitions. */
  predicate StrictlySorted(s: seq<string>) {
    Sorted(s) && forall i, j :: 0 <= i < j < |s| ==> s[i] != s[j]
  }

  /** Insert `x` into a sorted list after every element `<= x`. */
  function Insert(x: string, s: seq<string>): (r: seq<string>)
    requires Sorted(s)
    ensures Sorted(r)
    ensures multiset(r) == multiset(s) + multiset{x}
  {
    if |s| == 0 then [x]
    else if LexLe(s[0], x) then
      var rest := Insert(x, s[1..]);
      assert s == [s[0]] + s[1..];
      BoundKept(x, s[1..], rest, s[0]);
      SortedCons(s[0], rest);
      [s[0]] + rest
    else
      LexLeTotal(s[0], x);
      forall k | 0 <= k < |s| ensures LexLe(x, s[k]) {
        if k > 0 { LexLeTransitive(x, s[0], s[k]); }
      }
      SortedCons(x, s);
      [x] + s
  }

  /** A first element below every other keeps a sorted list sorted. */
  lemma SortedCons(y: string, t: seq<string>)
    requires Sorted(t)
    requires forall k :: 0 <= k < |t| ==> LexLe(y, t[k])
    ensures Sorted([y] + t)
  {
    var r := [y] + t;
    forall i, j | 0 <= i < j < |r| ensures LexLe(r[i], r[j]) {
      assert r[j] == t[j - 1];
      if i > 0 {
        assert r[i] == t[i - 1];
      }
    }
  }

  /** A bound below `x` and below every element of `t` is below every element of `t` with `x` added. */
  lemma BoundKept(x: string, t: seq<string>, r: seq<string>, y: string)
    requires multiset(r) == multiset(t) + multiset{x} && LexLe(y, x)
    requires forall k :: 0 <= k < |t| ==> LexLe(y, t[k])
    ensures forall k :: 0 <= k < |r| ==> LexLe(y, r[k])
  {
    forall k | 0 <= k < |r| ensures LexLe(y, r[k]) {
      assert r[k] in multiset(r);
      if r[k] != x {
        assert r[k] in multiset(t);
        var m :| 0 <= m < |t| && t[m] == r[k];
      }
    }
  }

  /** Python's `sorted(names)` (insertion sort; equal strings are identical). */
  function Sort(s: seq<string>): (r: seq<string>)
    ensures Sorted(r)
    ensures multiset(r) == multiset(s)
  {
    if |s| == 0 then []
    else
      assert s == [s[0]] + s[1..];
      Insert(s[0], Sort(s[1..]))
  }

  /** Python's `sorted(set(names))`. */
  function SortUnique(s: seq<string>): (r: seq<string>)
    ensures StrictlySorted(r)
    ensures forall x :: x in r <==> x in s
  {
    var sorted := Sort(s);
    forall x ensures x in sorted <==> x in s {
      assert x in sorted <==> x in multiset(sorted);
      assert x in s <==> x in multiset(s);
    }
    Dedup(sorted)
  }

  /** Drop the repetitions of a sorted list, which sit next to each other. */
  function Dedup(s: seq<string>): (r: seq<string>)
    requires Sorted(s)
    ensures StrictlySorted(r)
    ensures forall x :: x in r <==> x in s
    ensures |r| > 0 ==> |s| > 0 && r[0] == s[0]
  {
    if |s| <= 1 then s
    else
      var rest := Dedup(s[1..]);
      if s[0] == s[1] then
        assert forall x :: x in s <==> x in s[1..] by {
          assert s == [s[0]] + s[1..];
        }
        rest
      else
        assert s == [s[0]] + s[1..];
        forall k | 0 <= k < |rest| ensures LexLe(s[0], rest[k]) && s[0] != rest[k] {
          assert rest[k] in s[1..];
          var m :| 0 <= m < |s[1..]| && s[1..][m] == rest[k];
          assert s[1..][m] == s[m + 1];
          if s[0] == rest[k] {
            // s[0] <= s[1] <= s[m + 1] == s[0] forces s[0] == s[1]
            LexLeAntisymmetric(s[0], s[1]);
          }
        }
        [s[0]] + rest
  }
}

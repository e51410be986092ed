/**
  Blocks laid end to end, each built from the counter the block before it
  leaves: the shape of a loop that threads a running index through calls that
  each return their output and the index after it.
 */
module Chains {
  /** Blocks `f(i, c)`, `f(i + 1, c')`, ... up to `n`, where `c'` is `c` plus the length of the block before. */
  function Chain<T>(f: (nat, int) -> seq<T>, i: nat, n: nat, c: int): (r: seq<T>)
    ensures |r| == Offset(f, i, n, c)
    decreases n - i
  {
    if i >= n then [] else f(i, c) + Chain(f, i + 1, n, c + |f(i, c)|)
  }

  /** The total length of the blocks from `i` up to `j`: where block `j` starts. */
  function Offset<T>(f: (nat, int) -> seq<T>, i: nat, j: nat, c: int): nat
    decreases j - i
  {
    if i >= j then 0 else |f(i, c)| + Offset(f, i + 1, j, c + |f(i, c)|)
  }

  /** The chain up to `n` is the chain up to `j` followed by the chain from `j`, started where the first ends. */
  lemma {:induction false} ChainSplit<T>(f: (nat, int) -> seq<T>, i: nat, j: nat, n: nat, c: int)
    requires i <= j <= n
    ensures Chain(f, i, n, c) == Chain(f, i, j, c) + Chain(f, j, n, c + Offset(f, i, j, c))
    decreases j - i
  {
    if i < j {
      var h := f(i, c);
      ChainSplit(f, i + 1, j, n, c + |h|);
      assert c + Offset(f, i, j, c) == c + |h| + Offset(f, i + 1, j, c + |h|);
    }
  }

  /** Block `j` sits, unchanged, at its offset, built from the counter advanced by that offset. */
  lemma ChainContains<T>(f: (nat, int) -> seq<T>, i: nat, j: nat, n: nat, c: int)
    requires i <= j < n
    ensures var off := Offset(f, i, j, c); var b := f(j, c + off); var r := Chain(f, i, n, c);
      off + |b| <= |r| && r[off .. off + |b|] == b
  {
    var off := Offset(f, i, j, c);
    var b := f(j, c + off);
    ChainSplit(f, i, j, n, c);
    var before, from := Chain(f, i, j, c), Chain(f, j, n, c + off);
    assert from == b + Chain(f, j + 1, n, c + off + |b|);
    assert Chain(f, i, n, c) == before + b + Chain(f, j + 1, n, c + off + |b|);
    assert |before| == off;
  }

  /** Every item satisfies `p`. */
  predicate Every<T>(s: seq<T>, p: T -> bool) {
    forall k :: 0 <= k < |s| ==> p(s[k])
  }

  /** Item `k` carries the number `c + k`. */
  predicate Counted<T>(s: seq<T>, num: T -> int, c: int) {
    forall k :: 0 <= k < |s| ==> num(s[k]) == c + k
  }

  /**
    When every block satisfies `p` and is numbered from the counter it is
    given, so is the whole chain.
   */
  lemma {:induction false} ChainKeeps<T>(f: (nat, int) -> seq<T>, i: nat, n: nat, c: int, p: T -> bool, num: T -> int)
    requires forall j: nat, d: int :: i <= j < n ==> Every(f(j, d), p) && Counted(f(j, d), num, d)
    ensures Every(Chain(f, i, n, c), p) && Counted(Chain(f, i, n, c), num, c)
    decreases n - i
  {
    if i < n {
      var h := f(i, c);
      var rest := Chain(f, i + 1, n, c + |h|);
      ChainKeeps(f, i + 1, n, c + |h|, p, num);
      assert Chain(f, i, n, c) == h + rest;
      assert Every(h, p) && Counted(h, num, c);
    }
  }

  /** `f(0) + f(1) + ... + f(n - 1)`: the output of a loop that extends a list with `f(k)` for each `k`. */
  function Gather<T>(f: nat -> seq<T>, n: nat): seq<T> {
    if n == 0 then [] else Gather(f, n - 1) + f(n - 1)
  }

  /** Part `i` sits right after the parts before it, whatever follows. */
  lemma {:induction false} GatherSlice<T>(f: nat -> seq<T>, i: nat, n: nat)
    requires i < n
    ensures var a := |Gather(f, i)|;
      a + |f(i)| <= |Gather(f, n)| && Gather(f, n)[a..a + |f(i)|] == f(i)
  {
    var a := |Gather(f, i)|;
    if n == i + 1 {
      assert Gather(f, n) == Gather(f, i) + f(i);
    } else {
      GatherSlice(f, i, n - 1);
      var prev := Gather(f, n - 1);
      assert Gather(f, n) == prev + f(n - 1);
      assert Gather(f, n)[a..a + |f(i)|] == prev[a..a + |f(i)|];
    }
  }

  /** Gathering depends only on the parts below `n`. */
  lemma {:induction false} GatherExt<T>(f: nat -> seq<T>, g: nat -> seq<T>, n: nat)
    requires forall k: nat :: k < n ==> f(k) == g(k)
    ensures Gather(f, n) == Gather(g, n)
  {
    if n > 0 {
      GatherExt(f, g, n - 1);
    }
  }

  /** Parts of one element each gather to the sequence of those elements. */
  lemma {:induction false} GatherSingletons<T>(f: nat -> seq<T>, n: nat, s: seq<T>)
    requires |s| == n && forall k: nat :: k < n ==> f(k) == [s[k]]
    ensures Gather(f, n) == s
  {
    if n > 0 {
      GatherSingletons(f, n - 1, s[..n - 1]);
      assert s == s[..n - 1] + [s[n - 1]];
    }
  }

  /** Gathering `m + n` parts is gathering the first `m`, then the `n` after them. */
  lemma {:induction false} GatherSplit<T>(f: nat -> seq<T>, a: nat -> seq<T>, b: nat -> seq<T>, m: nat, n: nat)
    requires forall k: nat :: k < m ==> f(k) == a(k)
    requires forall k: nat :: k < n ==> f(m + k) == b(k)
    ensures Gather(f, m + n) == Gather(a, m) + Gather(b, n)
  {
    if n == 0 {
      GatherExt(f, a, m);
    } else {
      GatherSplit(f, a, b, m, n - 1);
      assert f(m + n - 1) == b(n - 1);
    }
  }

  /** `h` applied to the items of `s`, as parts: `Gather(Lift(h, s), |s|)` is `h(s[0]) + h(s[1]) + ...`. */
  function Lift<U, T>(h: U -> seq<T>, s: seq<U>): nat -> seq<T> {
    (k: nat) => if k < |s| then h(s[k]) else []
  }

  /** Lifted parts of `a + b` gather to those of `a`, then those of `b`. */
  lemma {:induction false} GatherLiftAppend<U, T>(h: U -> seq<T>, a: seq<U>, b: seq<U>)
    ensures Gather(Lift(h, a + b), |a + b|) == Gather(Lift(h, a), |a|) + Gather(Lift(h, b), |b|)
  {
    var f := Lift(h, a + b);
    forall k: nat | k < |b|
      ensures f(|a| + k) == Lift(h, b)(k)
    {
      assert (a + b)[|a| + k] == b[k];
    }
    forall k: nat | k < |a|
      ensures f(k) == Lift(h, a)(k)
    {
      assert (a + b)[k] == a[k];
    }
    GatherSplit(f, Lift(h, a), Lift(h, b), |a|, |b|);
  }

  /** Empty parts gather to nothing. */
  lemma {:induction false} GatherNothing<T>(f: nat -> seq<T>, n: nat)
    requires forall k: nat :: k < n ==> f(k) == []
    ensures Gather(f, n) == []
  {
    if n > 0 {
      GatherNothing(f, n - 1);
    }
  }
}

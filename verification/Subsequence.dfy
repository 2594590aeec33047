/** Parts of a sequence picked by index or by flag. */
module Subsequence {

  function Select<T>(s: seq<T>, ix: seq<nat>): (r: seq<T>)
    requires forall k | 0 <= k < |ix| :: ix[k] < |s|
  {
    seq(|ix|, k requires 0 <= k < |ix| => s[ix[k]])
  }

  predicate Consecutive(ix: seq<nat>) {
    forall k | 0 < k < |ix| :: ix[k] == ix[k - 1] + 1
  }

  /** The elements whose flag is set, in order. */
  function Filter<T>(s: seq<T>, keep: seq<bool>): (r: seq<T>)
    requires |s| == |keep|
  {
    if s == [] then []
    else
      var n := |s| - 1;
      Filter(s[..n], keep[..n]) + if keep[n] then [s[n]] else []
  }

  /** `ix` lists the positions of the set flags, all of them, in increasing order. */
  predicate Marks(ix: seq<nat>, keep: seq<bool>) {
    && (forall k | 0 <= k < |ix| :: ix[k] < |keep| && keep[ix[k]])
    && (forall j, k | 0 <= j < k < |ix| :: ix[j] < ix[k])
    && (forall i {:trigger i in ix} | 0 <= i < |keep| && keep[i] :: i in ix)
  }

  /** The positions whose flag is set, in increasing order. */
  function Indices(keep: seq<bool>): (ix: seq<nat>)
    ensures forall k | 0 <= k < |ix| :: ix[k] < |keep|
  {
    if keep == [] then []
    else
      var n := |keep| - 1;
      Indices(keep[..n]) + if keep[n] then [n] else []
  }

  lemma MarksSnoc(ix: seq<nat>, keep: seq<bool>, b: bool)
    requires Marks(ix, keep)
    ensures Marks(ix + if b then [|keep|] else [], keep + [b])
  {
    var all := ix + if b then [|keep|] else [];
    forall i | 0 <= i < |keep| + 1 && (keep + [b])[i] ensures i in all {
      if i < |keep| {
        assert keep[i] && i in ix;
      } else {
        assert all[|ix|] == i;
      }
    }
  }

  lemma {:induction false} IndicesMark(keep: seq<bool>)
    ensures Marks(Indices(keep), keep)
  {
    if keep != [] {
      var n := |keep| - 1;
      IndicesMark(keep[..n]);
      MarksSnoc(Indices(keep[..n]), keep[..n], keep[n]);
      assert keep == keep[..n] + [keep[n]];
      assert keep[n] || Indices(keep[..n]) + [] == Indices(keep[..n]);
    }
  }

  /** The set flags have no gap. */
  predicate Contiguous(keep: seq<bool>) {
    forall i, j, k | 0 <= i < j < k < |keep| && keep[i] && keep[k] :: keep[j]
  }

  lemma SliceOfPrefix<T>(s: seq<T>, n: nat, lo: nat, hi: nat)
    requires lo <= hi <= n <= |s|
    ensures s[..n][lo..hi] == s[lo..hi]
  {
  }

  lemma SliceSnoc<T>(s: seq<T>, lo: nat, hi: nat)
    requires lo <= hi < |s|
    ensures s[lo..hi + 1] == s[lo..hi] + [s[hi]]
  {
  }

  lemma FilterSnoc<T>(s: seq<T>, keep: seq<bool>, x: T, b: bool)
    requires |s| == |keep|
    ensures Filter(s + [x], keep + [b]) == Filter(s, keep) + if b then [x] else []
  {
    assert (s + [x])[..|s|] == s && (keep + [b])[..|s|] == keep;
  }

  lemma SelectSnoc<T>(s: seq<T>, ix: seq<nat>, n: nat)
    requires n < |s| && forall k | 0 <= k < |ix| :: ix[k] < n
    ensures Select(s, ix) == Select(s[..n], ix)
    ensures Select(s, ix + [n]) == Select(s[..n], ix) + [s[n]]
  {
  }

  lemma {:induction false} FilterIsSelection<T>(s: seq<T>, keep: seq<bool>)
    requires |s| == |keep|
    ensures Filter(s, keep) == Select(s, Indices(keep))
  {
    if s != [] {
      var n := |s| - 1;
      FilterIsSelection(s[..n], keep[..n]);
      SelectSnoc(s, Indices(keep[..n]), n);
    }
  }

  lemma {:induction false} FilterAll<T>(s: seq<T>, keep: seq<bool>)
    requires |s| == |keep| && forall i | 0 <= i < |keep| :: keep[i]
    ensures Filter(s, keep) == s
  {
    if s != [] {
      var n := |s| - 1;
      FilterAll(s[..n], keep[..n]);
      assert s == s[..n] + [s[n]];
    }
  }

  lemma {:induction false} FilterMembers<T>(s: seq<T>, keep: seq<bool>, x: T)
    requires |s| == |keep|
    ensures x in Filter(s, keep) <==> exists i :: 0 <= i < |s| && keep[i] && s[i] == x
  {
    FilterIsSelection(s, keep);
    IndicesMark(keep);
    var ix := Indices(keep);
    if x in Filter(s, keep) {
      var k :| 0 <= k < |ix| && Select(s, ix)[k] == x;
      assert keep[ix[k]] && s[ix[k]] == x;
    }
    if i :| 0 <= i < |s| && keep[i] && s[i] == x {
      assert i in ix;
      var k :| 0 <= k < |ix| && ix[k] == i;
      assert Select(s, ix)[k] == x;
    }
  }

  lemma {:induction false} ConsecutiveRun(ix: seq<nat>, p: nat, d: nat)
    requires Consecutive(ix) && p + d < |ix|
    ensures ix[p + d] == ix[p] + d
  {
    if d > 0 {
      ConsecutiveRun(ix, p, d - 1);
      assert ix[p + d] == ix[p + d - 1] + 1;
    }
  }

  lemma MarkAfter(ix: seq<nat>, keep: seq<bool>, i: nat, j: nat, k: nat)
    requires Marks(ix, keep) && Consecutive(ix)
    requires i < j < k < |keep| && keep[i] && keep[k]
    ensures keep[j]
  {
    assert i in ix && k in ix;
    var p: nat :| p < |ix| && ix[p] == i;
    var q: nat :| q < |ix| && ix[q] == k;
    assert p < q;
    ConsecutiveRun(ix, p, q - p);
    ConsecutiveRun(ix, p, j - i);
  }

  lemma NoMarkBetween(ix: seq<nat>, keep: seq<bool>, k: nat)
    requires Marks(ix, keep) && Contiguous(keep) && 0 < k < |ix|
    ensures ix[k] == ix[k - 1] + 1
  {
    var next := ix[k - 1] + 1;
    assert ix[k - 1] < ix[k];
    assert keep[ix[k - 1]] && keep[ix[k]];
    assert keep[next];
    assert next in ix;
    var q :| 0 <= q < |ix| && ix[q] == next;
    assert k - 1 < q;
  }

  /** Positions picked by flags are consecutive exactly when the flags have no gap. */
  lemma ConsecutiveIffContiguous(ix: seq<nat>, keep: seq<bool>)
    requires Marks(ix, keep)
    ensures Consecutive(ix) <==> Contiguous(keep)
  {
    if Consecutive(ix) {
      forall i, j, k | 0 <= i < j < k < |keep| && keep[i] && keep[k] ensures keep[j] {
        MarkAfter(ix, keep, i, j, k);
      }
    }
    if Contiguous(keep) {
      forall k | 0 < k < |ix| ensures ix[k] == ix[k - 1] + 1 {
        NoMarkBetween(ix, keep, k);
      }
    }
  }
}

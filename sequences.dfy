/** Sequence helpers shared by the whole pipeline: sums and order-preserving filters. */
module Sequences {
  import opened Wrappers

  /** Sum of a sequence, peeled from the end so that prefixes fold naturally. */
  function Sum(s: seq<real>): real
  {
    if s == [] then 0.0 else Sum(s[..|s| - 1]) + s[|s| - 1]
  }

  /** Arithmetic mean, as NumPy's `mean` of a non-empty column. */
  function Mean(s: seq<real>): real
    requires |s| > 0
  {
    Sum(s) / |s| as real
  }

  lemma SumAppend(s: seq<real>, x: real)
    ensures Sum(s + [x]) == Sum(s) + x
  {
    assert (s + [x])[..|s|] == s;
  }

  /** A sum of non-negative terms is non-negative, and it is zero exactly when every term is. */
  lemma {:induction false} SumNonNegative(s: seq<real>)
    requires forall i :: 0 <= i < |s| ==> s[i] >= 0.0
    ensures Sum(s) >= 0.0
    ensures Sum(s) == 0.0 <==> forall i :: 0 <= i < |s| ==> s[i] == 0.0
  {
    if s != [] {
      var init := s[..|s| - 1];
      SumNonNegative(init);
      assert forall i :: 0 <= i < |init| ==> init[i] == s[i];
    }
  }

  /** Positions of the elements `f` keeps, in increasing order (the surviving index of `dropna` or of a mask). */
  function Kept<T, U>(s: seq<T>, f: T -> Option<U>): (ks: seq<nat>)
    ensures forall k :: 0 <= k < |ks| ==> ks[k] < |s| && f(s[ks[k]]).Some?
    ensures forall k, l :: 0 <= k < l < |ks| ==> ks[k] < ks[l]
    ensures forall i :: 0 <= i < |s| && f(s[i]).Some? ==> i in ks
    decreases |s|
  {
    if s == [] then []
    else
      var init := s[..|s| - 1];
      var rest := Kept(init, f);
      assert forall i :: 0 <= i < |init| ==> init[i] == s[i];
      rest + (if f(s[|s| - 1]).Some? then [|s| - 1] else [])
  }

  /** The kept elements, transformed by `f`, in their original order. */
  function FilterMap<T, U>(s: seq<T>, f: T -> Option<U>): (r: seq<U>)
    ensures |r| == |Kept(s, f)|
    ensures forall k :: 0 <= k < |r| ==> f(s[Kept(s, f)[k]]) == Some(r[k])
    decreases |s|
  {
    if s == [] then []
    else
      var init := s[..|s| - 1];
      var rest := FilterMap(init, f);
      assert forall i :: 0 <= i < |init| ==> init[i] == s[i];
      assert Kept(s, f) == Kept(init, f) + (if f(s[|s| - 1]).Some? then [|s| - 1] else []);
      match f(s[|s| - 1])
      case Some(v) => rest + [v]
      case None => rest
  }

  /** Filtering distributes over concatenation. */
  lemma {:induction false} FilterMapAppend<T, U>(a: seq<T>, b: seq<T>, f: T -> Option<U>)
    ensures FilterMap(a + b, f) == FilterMap(a, f) + FilterMap(b, f)
    decreases |b|
  {
    if b != [] {
      var b' := b[..|b| - 1];
      assert (a + b)[..|a + b| - 1] == a + b';
      FilterMapAppend(a, b', f);
    } else {
      assert a + b == a;
    }
  }

  /** Nothing survives a filter that rejects every element. */
  lemma {:induction false} FilterMapNone<T, U>(s: seq<T>, f: T -> Option<U>)
    requires forall i :: 0 <= i < |s| ==> f(s[i]).None?
    ensures FilterMap(s, f) == []
    decreases |s|
  {
    if s != [] {
      var init := s[..|s| - 1];
      assert forall i :: 0 <= i < |init| ==> init[i] == s[i];
      FilterMapNone(init, f);
    }
  }

  /** A mean of non-negative terms is non-negative, and it is zero exactly when every term is. */
  lemma MeanNonNegative(s: seq<real>)
    requires |s| > 0 && forall i :: 0 <= i < |s| ==> s[i] >= 0.0
    ensures Mean(s) >= 0.0
    ensures Mean(s) == 0.0 <==> forall i :: 0 <= i < |s| ==> s[i] == 0.0
  {
    SumNonNegative(s);
  }

  /** A mean of non-negative terms is positive exactly when some term is. */
  lemma MeanPositive(s: seq<real>)
    requires |s| > 0 && forall i :: 0 <= i < |s| ==> s[i] >= 0.0
    ensures Mean(s) > 0.0 <==> exists i :: 0 <= i < |s| && s[i] > 0.0
  {
    MeanNonNegative(s);
  }

  /** A strictly increasing sequence of positions, all in `[lo, n)`, has at most `n - lo` entries. */
  lemma {:induction false} IncreasingPositionsBound(ks: seq<nat>, lo: nat, n: nat)
    requires forall k :: 0 <= k < |ks| ==> lo <= ks[k] < n
    requires forall k, l :: 0 <= k < l < |ks| ==> ks[k] < ks[l]
    ensures lo <= n ==> |ks| <= n - lo
    ensures lo >= n ==> ks == []
    decreases |ks|
  {
    if ks != [] {
      var init := ks[..|ks| - 1];
      var last := ks[|ks| - 1];
      IncreasingPositionsBound(init, lo, last);
    }
  }

  /** A strictly increasing sequence of positions in `[lo, n)` that holds every position of `[lo, n)` has exactly `n - lo` entries. */
  lemma {:induction false} IncreasingPositionsCover(ks: seq<nat>, lo: nat, n: nat)
    requires lo <= n
    requires forall k :: 0 <= k < |ks| ==> lo <= ks[k] < n
    requires forall k, l :: 0 <= k < l < |ks| ==> ks[k] < ks[l]
    requires forall i :: lo <= i < n ==> i in ks
    ensures |ks| == n - lo
    decreases n
  {
    if n == lo {
      IncreasingPositionsBound(ks, lo, n);
    } else {
      var last := |ks| - 1;
      assert n - 1 in ks;
      var j :| 0 <= j < |ks| && ks[j] == n - 1;
      assert ks[last] == n - 1;
      var init := ks[..last];
      forall i | lo <= i < n - 1 ensures i in init {
        assert i in ks;
        var h :| 0 <= h < |ks| && ks[h] == i;
        assert h != last;
        assert init[h] == i;
      }
      forall k | 0 <= k < |init| ensures lo <= init[k] < n - 1 {
        assert ks[k] < ks[last];
      }
      IncreasingPositionsCover(init, lo, n - 1);
    }
  }
}

/**
 The reduction step of `detect_pitch`: the pitch tracker yields one estimate
 per analysis frame; NaN entries, if any, are dropped and the median of the
 rest is the detected pitch. The tracker itself is outside the model; its
 output is the input here, with `None` standing for NaN.
 */
module PitchEstimator {
  import opened Wrappers

  /** `f0_series[~np.isnan(f0_series)]`: the defined estimates, in frame order. */
  function DefinedEstimates(frames: seq<Option<real>>): (d: seq<real>)
    ensures |d| <= |frames|
    ensures forall x :: multiset(d)[x] == multiset(frames)[Some(x)]
  {
    if |frames| == 0 then []
    else
      var rest := DefinedEstimates(frames[1..]);
      assert frames == [frames[0]] + frames[1..];
      match frames[0]
      case Some(x) => [x] + rest
      case None => rest
  }

  /** No estimate survives exactly when every frame is undefined. */
  lemma DefinedEstimatesEmpty(frames: seq<Option<real>>)
    ensures |DefinedEstimates(frames)| == 0 <==> forall i :: 0 <= i < |frames| ==> frames[i].None?
  {
    var d := DefinedEstimates(frames);
    if |d| > 0 {
      assert multiset(d)[d[0]] > 0;
      assert Some(d[0]) in frames;
    }
  }

  /** Every defined estimate comes from some frame. */
  lemma DefinedEstimateHasFrame(frames: seq<Option<real>>, x: real)
    requires x in DefinedEstimates(frames)
    ensures exists i :: 0 <= i < |frames| && frames[i] == Some(x)
  {
    assert multiset(DefinedEstimates(frames))[x] > 0;
    assert Some(x) in multiset(frames);
  }

  /** Ascending order: each value is at most the next. */
  predicate Sorted(s: seq<real>) {
    forall i :: 0 < i < |s| ==> s[i - 1] <= s[i]
  }

  /** Inserts `x` into a sorted sequence, keeping it sorted. */
  function Insert(x: real, s: seq<real>): (r: seq<real>)
    requires Sorted(s)
    ensures Sorted(r)
    ensures multiset(r) == multiset(s) + multiset{x}
  {
    if |s| == 0 || x <= s[0] then [x] + s
    else
      var t := Insert(x, s[1..]);
      assert s == [s[0]] + s[1..];
      SortedAt(s, 0, 0);
      forall i | 0 <= i < |s[1..]|
        ensures s[0] <= s[1..][i]
      {
        SortedAt(s, 0, i + 1);
      }
      BoundedBelow(s[0], t, s[1..], x);
      [s[0]] + t
  }

  /** A lower bound of `s` and of `x` bounds every value of a sequence holding `s` and `x`. */
  lemma BoundedBelow(v: real, t: seq<real>, s: seq<real>, x: real)
    requires forall i :: 0 <= i < |s| ==> v <= s[i]
    requires v <= x
    requires multiset(t) == multiset(s) + multiset{x}
    ensures forall i :: 0 <= i < |t| ==> v <= t[i]
  {
    forall i | 0 <= i < |t|
      ensures v <= t[i]
    {
      assert t[i] in multiset(t);
      if t[i] != x {
        assert t[i] in multiset(s);
      }
    }
  }

  /** The values of `s` in ascending order. */
  function Sort(s: seq<real>): (r: seq<real>)
    ensures Sorted(r)
    ensures multiset(r) == multiset(s)
    ensures |r| == |s|
  {
    if |s| == 0 then []
    else
      assert s == [s[0]] + s[1..];
      Insert(s[0], Sort(s[1..]))
  }

  /** The first value of a sorted sequence is at most every value it holds. */
  lemma HeadIsLeast(a: seq<real>, x: real)
    requires Sorted(a) && x in multiset(a)
    ensures a[0] <= x
  {
    var j :| 0 <= j < |a| && a[j] == x;
    SortedAt(a, 0, j);
  }

  /** Removing equal first values from equal multisets leaves equal multisets. */
  lemma TailsSameValues(a: seq<real>, b: seq<real>)
    requires |a| > 0 && |b| > 0 && a[0] == b[0]
    requires multiset(a) == multiset(b)
    ensures multiset(a[1..]) == multiset(b[1..])
  {
    assert a == [a[0]] + a[1..];
    assert b == [b[0]] + b[1..];
    assert multiset(a[1..]) == multiset(a) - multiset{a[0]};
    assert multiset(b[1..]) == multiset(b) - multiset{b[0]};
  }

  lemma SortedTail(a: seq<real>)
    requires Sorted(a) && |a| > 0
    ensures Sorted(a[1..])
  {
  }

  /** Two sorted sequences holding the same values are equal. */
  lemma {:induction false} SortedUnique(a: seq<real>, b: seq<real>)
    requires Sorted(a) && Sorted(b)
    requires multiset(a) == multiset(b)
    ensures a == b
  {
    assert |a| == |b| by {
      assert |multiset(a)| == |multiset(b)|;
    }
    if |a| > 0 {
      assert a[0] in multiset(a) && b[0] in multiset(b);
      HeadIsLeast(a, b[0]);
      HeadIsLeast(b, a[0]);
      TailsSameValues(a, b);
      SortedTail(a);
      SortedTail(b);
      SortedUnique(a[1..], b[1..]);
      assert a == [a[0]] + a[1..];
      assert b == [b[0]] + b[1..];
    }
  }

  /** In a sorted sequence every earlier value is at most every later one. */
  lemma {:induction false} SortedAt(t: seq<real>, i: nat, j: nat)
    requires Sorted(t) && i <= j < |t|
    ensures t[i] <= t[j]
    decreases j - i
  {
    if i < j {
      SortedAt(t, i, j - 1);
    }
  }

  /** `np.median`: the middle value, or the mean of the two middle values when the count is even. */
  function Median(s: seq<real>): (m: real)
    requires |s| > 0
    ensures Sort(s)[(|s| - 1) / 2] <= m <= Sort(s)[|s| / 2]
    ensures |s| % 2 == 1 ==> m == Sort(s)[|s| / 2]
    ensures |s| % 2 == 0 ==> m == (Sort(s)[|s| / 2 - 1] + Sort(s)[|s| / 2]) / 2.0
  {
    var t := Sort(s);
    var n := |t|;
    var lo, hi := (n - 1) / 2, n / 2;
    SortedAt(t, lo, hi);
    if n % 2 == 1 then t[hi] else (t[lo] + t[hi]) / 2.0
  }

  /** At least half of the values are at most the median, and at least half are at least it. */
  lemma MedianSplitsValues(s: seq<real>)
    requires |s| > 0
    ensures forall i :: 0 <= i <= (|s| - 1) / 2 ==> Sort(s)[i] <= Median(s)
    ensures forall i :: |s| / 2 <= i < |s| ==> Median(s) <= Sort(s)[i]
  {
    var t, m := Sort(s), Median(s);
    forall i | 0 <= i <= (|s| - 1) / 2
      ensures t[i] <= m
    {
      SortedAt(t, i, (|s| - 1) / 2);
    }
    forall i | |s| / 2 <= i < |s|
      ensures m <= t[i]
    {
      SortedAt(t, |s| / 2, i);
    }
  }

  /** The least value of a non-empty sequence. */
  function Minimum(s: seq<real>): (m: real)
    requires |s| > 0
    ensures m in s
    ensures forall i :: 0 <= i < |s| ==> m <= s[i]
  {
    if |s| == 1 then s[0]
    else
      var r := Minimum(s[1..]);
      assert r in s;
      if s[0] <= r then s[0] else r
  }

  /** The greatest value of a non-empty sequence. */
  function Maximum(s: seq<real>): (m: real)
    requires |s| > 0
    ensures m in s
    ensures forall i :: 0 <= i < |s| ==> s[i] <= m
  {
    if |s| == 1 then s[0]
    else
      var r := Maximum(s[1..]);
      assert r in s;
      if s[0] >= r then s[0] else r
  }

  lemma MinimumAtMost(s: seq<real>, x: real)
    requires x in multiset(s)
    ensures Minimum(s) <= x
  {
    var i :| 0 <= i < |s| && s[i] == x;
  }

  lemma MaximumAtLeast(s: seq<real>, x: real)
    requires x in multiset(s)
    ensures x <= Maximum(s)
  {
    var i :| 0 <= i < |s| && s[i] == x;
  }

  /** The median lies between the least and the greatest value. */
  lemma MedianBetweenExtremes(s: seq<real>)
    requires |s| > 0
    ensures Minimum(s) <= Median(s) <= Maximum(s)
  {
    var t := Sort(s);
    var n := |t|;
    assert t[0] in multiset(t) && t[n - 1] in multiset(t);
    MinimumAtMost(s, t[0]);
    MaximumAtLeast(s, t[n - 1]);
    SortedAt(t, 0, (n - 1) / 2);
    SortedAt(t, n / 2, n - 1);
  }

  /** The median depends only on the values, not on their order. */
  lemma MedianIgnoresOrder(a: seq<real>, b: seq<real>)
    requires |a| > 0
    requires multiset(a) == multiset(b)
    ensures |b| == |a|
    ensures Median(a) == Median(b)
  {
    assert |multiset(a)| == |multiset(b)|;
    SortedUnique(Sort(a), Sort(b));
  }

  /** `detect_pitch` after the tracker: `None` when no frame has an estimate, else their median. */
  function DetectPitch(frames: seq<Option<real>>): (r: Option<real>)
    ensures r.None? <==> forall i :: 0 <= i < |frames| ==> frames[i].None?
    ensures r.Some? <==> |DefinedEstimates(frames)| > 0
    ensures r.Some? ==> r.value == Median(DefinedEstimates(frames))
    ensures r.Some? ==> exists i :: 0 <= i < |frames| && frames[i].Some? && frames[i].value <= r.value
    ensures r.Some? ==> exists i :: 0 <= i < |frames| && frames[i].Some? && r.value <= frames[i].value
  {
    var d := DefinedEstimates(frames);
    DefinedEstimatesEmpty(frames);
    if |d| == 0 then None
    else
      MedianBetweenExtremes(d);
      DefinedEstimateHasFrame(frames, Minimum(d));
      DefinedEstimateHasFrame(frames, Maximum(d));
      Some(Median(d))
  }

  /** Reordering the frames, or adding and removing undefined ones, leaves the result unchanged. */
  lemma DetectPitchIgnoresOrderAndGaps(f: seq<Option<real>>, g: seq<Option<real>>)
    requires forall x :: multiset(f)[Some(x)] == multiset(g)[Some(x)]
    ensures DetectPitch(f) == DetectPitch(g)
  {
    var a, b := DefinedEstimates(f), DefinedEstimates(g);
    assert multiset(a) == multiset(b) by {
      forall x ensures multiset(a)[x] == multiset(b)[x] {}
    }
    DefinedEstimatesEmpty(f);
    DefinedEstimatesEmpty(g);
    if |a| > 0 {
      MedianIgnoresOrder(a, b);
    }
  }

  /** If every defined estimate lies in a band, so does the detected pitch. */
  lemma DetectPitchWithinBand(frames: seq<Option<real>>, lo: real, hi: real)
    requires forall i :: 0 <= i < |frames| && frames[i].Some? ==> lo <= frames[i].value <= hi
    ensures DetectPitch(frames).Some? ==> lo <= DetectPitch(frames).value <= hi
  {
  }
}

/** The resequencing update kept and repeated at every opening of the store: it converges. */
module Settling {
  import opened Resequencing

  /** What `k` openings leave when each rewrites the table as long as it holds duplicates. */
  function Settling(s: seq<int>, k: nat): (r: seq<int>)
    ensures |r| == |s|
  {
    if k == 0 then s
    else
      var t := Settling(s, k - 1);
      if Distinct(t) then t else Updated(t)
  }

  /** The numbers that do not have exactly so many rows up to them. */
  function Unsettled(v: seq<int>): set<int> {
    set x | 0 < x < |v| && |UpTo(v, x)| != x
  }

  ghost predicate Within(v: seq<int>) {
    forall i :: 0 <= i < |v| ==> 1 <= v[i] <= |v|
  }

  lemma FilledEnds(s: seq<int>, x: int)
    ensures Filled(s, 0, x) == |UpTo(s, x)| && Filled(s, |s|, x) == |UpTo(Updated(s), x)|
  {
  }

  lemma SettledStays(s: seq<int>, x: int)
    requires |UpTo(s, x)| == x
    ensures |UpTo(Updated(s), x)| == x
  {
    hide Filled, UpTo, Updated;
    FilledEnds(s, x);
    ThresholdKept(s, 0, |s|, x);
  }

  /** The rows from `i` on with the number `y`. */
  function Waiting(s: seq<int>, i: int, y: int): set<int>
    requires 0 <= i <= |s|
  {
    set l | i <= l < |s| && s[l] == y
  }

  lemma WaitingStep(s: seq<int>, i: int, y: int)
    requires 0 <= i < |s|
    ensures |Waiting(s, i, y)| == |Waiting(s, i + 1, y)| + if s[i] == y then 1 else 0
  {
    if s[i] == y {
      assert Waiting(s, i, y) == Waiting(s, i + 1, y) + {i};
    } else {
      assert Waiting(s, i, y) == Waiting(s, i + 1, y);
    }
  }

  lemma WaitingAtStart(s: seq<int>, y: int)
    ensures |Waiting(s, 0, y)| == |UpTo(s, y)| - |UpTo(s, y - 1)|
  {
    assert UpTo(s, y) == UpTo(s, y - 1) + Waiting(s, 0, y);
  }

  /** A row counts all rows up to its number but the later ones that share it. */
  lemma RankFromAbove(v: seq<int>, i: int)
    requires 0 <= i < |v|
    ensures Rank(v, i) == |UpTo(v, v[i])| - |Waiting(v, i + 1, v[i])|
  {
    assert UpTo(v, v[i]) == Below(v, i) + Waiting(v, i + 1, v[i]);
  }

  lemma LiveWaiting(s: seq<int>, i: int, y: int)
    requires 0 <= i < |s|
    ensures Waiting(Live(s, i), i + 1, y) == Waiting(s, i + 1, y)
  {
    hide Live, Updated;
    LiveAll(s, i);
  }

  /** The lowest over-full number: as many of the rows on it leave upwards as are too many. */
  lemma {:induction false} OverfullDrains(s: seq<int>, a: int, i: nat)
    requires i <= |s| && |UpTo(s, a)| > a && |UpTo(s, a - 1)| <= a - 1
    ensures a <= Filled(s, i, a) <= a + |Waiting(s, i, a)|
  {
    hide Live, Updated, UpTo, Waiting, Rank;
    FilledEnds(s, a);
    FilledEnds(s, a - 1);
    if i == 0 {
      WaitingAtStart(s, a);
    } else {
      var j := i - 1;
      OverfullDrains(s, a, j);
      WaitingStep(s, j, a);
      ThresholdKept(s, 0, j, a);
      ThresholdStep(s, j, a);
      FilledStep(s, j, a);
      NeverCrossed(s, j, a - 1);
      RowUpdate(s, j);
      RankFromAbove(Live(s, j), j);
      LiveWaiting(s, j, a);
    }
  }

  lemma LowestOverfullSettles(s: seq<int>, a: int)
    requires |UpTo(s, a)| > a && |UpTo(s, a - 1)| <= a - 1
    ensures |UpTo(Updated(s), a)| == a
  {
    hide UpTo, Updated;
    OverfullDrains(s, a, |s|);
    FilledEnds(s, a);
    assert Waiting(s, |s|, a) == {};
  }

  /** The highest under-full number: the first rows above it fall below until it is filled. */
  lemma {:induction false} UnderfullFills(s: seq<int>, b: int, i: nat)
    requires i <= |s| && |UpTo(s, b)| < b && |UpTo(s, b + 1)| >= b + 1
    ensures b - |Waiting(s, i, b + 1)| <= Filled(s, i, b) <= b
    ensures Filled(s, i, b) < b ==> forall l :: 0 <= l < i ==> Updated(s)[l] != b + 1
  {
    hide Live, Updated, UpTo, Waiting, Rank;
    FilledEnds(s, b);
    FilledEnds(s, b + 1);
    if i == 0 {
      WaitingAtStart(s, b + 1);
    } else {
      var j := i - 1;
      UnderfullFills(s, b, j);
      WaitingStep(s, j, b + 1);
      ThresholdStep(s, j, b);
      FilledStep(s, j, b);
      NeverCrossed(s, j, b);
      NeverCrossed(s, j, b + 1);
      RowUpdate(s, j);
      if s[j] == b + 1 && Filled(s, j, b) < b {
        LiveAll(s, j);
        RankFromBelow(Live(s, j), j);
        assert Ties(Live(s, j), j) == {};
      }
    }
  }

  lemma HighestUnderfullSettles(s: seq<int>, b: int)
    requires |UpTo(s, b)| < b && |UpTo(s, b + 1)| >= b + 1
    ensures |UpTo(Updated(s), b)| == b
  {
    hide UpTo, Updated;
    UnderfullFills(s, b, |s|);
    FilledEnds(s, b);
    assert Waiting(s, |s|, b + 1) == {};
  }

  lemma {:induction false} LowestOverfull(v: seq<int>, x: nat) returns (a: nat)
    requires |UpTo(v, x)| > x && |UpTo(v, 0)| == 0
    ensures 0 < a <= x && |UpTo(v, a)| > a && |UpTo(v, a - 1)| <= a - 1
  {
    hide UpTo;
    if |UpTo(v, x - 1)| <= x - 1 {
      a := x;
    } else {
      a := LowestOverfull(v, x - 1);
    }
  }

  lemma {:induction false} HighestUnderfull(v: seq<int>, x: nat) returns (b: nat)
    requires x < |v| && |UpTo(v, x)| < x && |UpTo(v, |v|)| == |v|
    ensures x <= b < |v| && |UpTo(v, b)| < b && |UpTo(v, b + 1)| >= b + 1
    decreases |v| - x
  {
    hide UpTo;
    if |UpTo(v, x + 1)| >= x + 1 {
      b := x;
    } else {
      b := HighestUnderfull(v, x + 1);
    }
  }

  lemma WithinEnds(v: seq<int>)
    requires Within(v)
    ensures |UpTo(v, 0)| == 0 && |UpTo(v, |v|)| == |v|
  {
    assert UpTo(v, 0) == {};
    assert UpTo(v, |v|) == Indices(|v|);
  }

  /** Numbers within 1..n are distinct exactly when each has exactly so many rows up to it. */
  lemma DistinctIffSettled(v: seq<int>)
    requires Within(v)
    ensures Distinct(v) <==> Unsettled(v) == {}
  {
    hide UpTo, Distinct;
    if Distinct(v) {
      forall x | 0 < x < |v|
        ensures |UpTo(v, x)| == x
      {
        DistinctIsExact(v, x);
      }
    } else {
      var i, j := Duplicate(v);
      WithinEnds(v);
      TwoOnOne(v, i, j);
      var y := v[i];
      assert Unsettled(v) == {} ==> (0 < y < |v| ==> |UpTo(v, y)| == y) && (1 < y ==> |UpTo(v, y - 1)| == y - 1) by {
        assert Unsettled(v) == {} ==> (0 < y < |v| ==> y !in Unsettled(v)) && (1 < y ==> y - 1 !in Unsettled(v));
      }
    }
  }

  lemma Duplicate(v: seq<int>) returns (i: int, j: int)
    requires !Distinct(v)
    ensures 0 <= i < j < |v| && v[i] == v[j]
  {
    i, j :| 0 <= i < j < |v| && v[i] == v[j];
  }

  lemma TwoOnOne(v: seq<int>, i: int, j: int)
    requires 0 <= i < j < |v| && v[i] == v[j]
    ensures |UpTo(v, v[i])| >= |UpTo(v, v[i] - 1)| + 2
  {
    assert i !in UpTo(v, v[i] - 1) && j !in UpTo(v, v[i] - 1) + {i};
    SubsetSize(UpTo(v, v[i] - 1) + {i} + {j}, UpTo(v, v[i]));
  }

  /** Each repetition settles at least one more number, and none gets lost. */
  lemma UpdateSettlesOne(s: seq<int>)
    requires Within(s) && !Distinct(s)
    ensures |Unsettled(Updated(s))| < |Unsettled(s)|
  {
    hide UpTo, Distinct, Updated;
    DistinctIffSettled(s);
    WithinEnds(s);
    forall x | x in Unsettled(Updated(s))
      ensures x in Unsettled(s)
    {
      if |UpTo(s, x)| == x {
        SettledStays(s, x);
      }
    }
    var x :| x in Unsettled(s);
    var y;
    if |UpTo(s, x)| > x {
      y := LowestOverfull(s, x);
      LowestOverfullSettles(s, y);
    } else {
      y := HighestUnderfull(s, x);
      HighestUnderfullSettles(s, y);
    }
    assert y in Unsettled(s) && y !in Unsettled(Updated(s));
    SubsetSize(Unsettled(Updated(s)) + {y}, Unsettled(s));
  }

  lemma {:induction false} SettlingProgress(s: seq<int>, k: nat)
    requires k >= 1
    ensures Distinct(Settling(s, k)) || (Within(Settling(s, k)) && |Unsettled(Settling(s, k))| <= |s| - k)
  {
    hide Distinct, Updated, Unsettled, Within;
    var t := Settling(s, k - 1);
    if !Distinct(t) {
      UpdatedIsWithin(t);
      if k == 1 {
        var i, j := Duplicate(t);
        AtMostAllUnsettled(Updated(t));
      } else {
        SettlingProgress(s, k - 1);
        UpdateSettlesOne(t);
      }
    }
  }

  lemma UpdatedIsWithin(s: seq<int>)
    ensures Within(Updated(s))
  {
    hide Updated;
    UpdatedWithin(s);
  }

  lemma AtMostAllUnsettled(v: seq<int>)
    requires |v| > 0
    ensures |Unsettled(v)| <= |v| - 1
  {
    hide UpTo;
    SubsetSize(Unsettled(v) + {0}, Indices(|v|));
  }

  /** A new row on top of numbers within 1..n unsettles at most one number more. */
  lemma AppendUnsettlesOne(s: seq<int>, x: int)
    requires Within(s) && x <= |s| + 1 && forall i :: 0 <= i < |s| ==> s[i] < x
    ensures |Unsettled(s + [x])| <= |Unsettled(s)| + 1
  {
    hide UpTo;
    forall y | y in Unsettled(s + [x])
      ensures y in Unsettled(s) + {|s|}
    {
      if y < |s| {
        AppendUpTo(s, x, y);
      }
    }
    SubsetSize(Unsettled(s + [x]), Unsettled(s) + {|s|});
  }

  lemma AppendUpTo(s: seq<int>, x: int, y: int)
    requires forall i :: 0 <= i < |s| ==> s[i] < x
    ensures y < x ==> UpTo(s + [x], y) == UpTo(s, y)
    ensures x <= y ==> |UpTo(s, y)| == |s|
  {
    if x <= y {
      assert UpTo(s, y) == Indices(|s|);
    }
  }

  /** Repeated at every opening, the kept update makes `n` rows distinct by opening number `n` at the latest. */
  lemma SettlesWithinN(s: seq<int>, k: nat)
    requires k >= |s|
    ensures Distinct(Settling(s, k))
  {
    hide Distinct, Settling, Unsettled, Within;
    if |s| == 0 {
      NothingToSettle(s, k);
    } else {
      SettlingProgress(s, k);
      if Within(Settling(s, k)) {
        DistinctIffSettled(Settling(s, k));
      }
    }
  }

  lemma NothingToSettle(s: seq<int>, k: nat)
    requires |s| == 0
    ensures Distinct(Settling(s, k))
  {
  }

  /** Three openings can be needed for three rows: 10, 3, 3 becomes 3, 2, 3, then 2, 2, 3. */
  lemma BoundIsTight()
    ensures !Distinct(Settling([10, 3, 3], 2))
  {
    var s, t := [10, 3, 3], [3, 2, 3];
    TieOvertakes();
    assert !Distinct(s) by { assert s[1] == s[2]; }
    assert !Distinct(t) by { assert t[0] == t[2]; }
    assert Settling(s, 1) == t;
    assert Below(t, 0) == {0, 1};
    assert Live(t, 1) == [2, 2, 3];
    assert Below(Live(t, 1), 1) == {0, 1};
    assert Live(t, 2) == [2, 2, 3];
    assert Below(Live(t, 2), 2) == {0, 1, 2};
    assert Live(t, 3) == [2, 2, 3];
    assert Settling(s, 2) == [2, 2, 3];
    assert Settling(s, 2)[0] == Settling(s, 2)[1];
  }
}

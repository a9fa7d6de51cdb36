/**
 The resequencing update on plain numbers. Each row's sequence becomes the number of rows at or before it, but the
 rows are rewritten one after the other in rowid order, and every count sees the rows rewritten so far.
 */
module Resequencing {

  /** The order the update counts in: by sequence, ties by rowid. */
  predicate AtOrBefore(v: seq<int>, j: int, i: int)
    requires 0 <= i < |v| && 0 <= j < |v|
  {
    v[j] < v[i] || (v[j] == v[i] && j <= i)
  }

  function Below(v: seq<int>, i: int): set<int>
    requires 0 <= i < |v|
  {
    set j | 0 <= j < |v| && AtOrBefore(v, j, i)
  }

  /** The correlated subquery: how many rows are at or before row `i`. */
  function Rank(v: seq<int>, i: int): nat
    requires 0 <= i < |v|
  {
    |Below(v, i)|
  }

  function Ranks(v: seq<int>): (r: seq<int>)
    ensures |r| == |v|
  {
    seq(|v|, i requires 0 <= i < |v| => Rank(v, i))
  }

  /** The table when the first `i` rows have been rewritten. */
  function Live(s: seq<int>, i: nat): (r: seq<int>)
    requires i <= |s|
    ensures |r| == |s|
  {
    if i == 0 then s else Live(s, i - 1)[i - 1 := Rank(Live(s, i - 1), i - 1)]
  }

  function Updated(s: seq<int>): (r: seq<int>)
    ensures |r| == |s|
  {
    Live(s, |s|)
  }

  function EarlierUpTo(v: seq<int>, i: int, x: int): set<int>
    requires 0 <= i <= |v|
  {
    set j | 0 <= j < i && v[j] <= x
  }

  /** For every row as many earlier rows have a rank up to its sequence as have a sequence up to its sequence. */
  predicate RanksCannotOvertake(s: seq<int>) {
    forall i :: 0 <= i < |s| ==> |EarlierUpTo(Ranks(s), i, s[i])| == |EarlierUpTo(s, i, s[i])|
  }

  predicate Distinct(s: seq<int>) {
    forall i, j :: 0 <= i < j < |s| ==> s[i] != s[j]
  }

  // ---------------------------------------------------------------- index sets

  lemma {:induction false} SubsetSize(a: set<int>, b: set<int>)
    requires a <= b
    ensures |a| <= |b|
    ensures |a| == |b| ==> a == b
  {
    assert b == a + (b - a);
    assert |b| == |a| + |b - a|;
  }

  function Indices(n: nat): (s: set<int>)
    ensures forall i :: i in s <==> 0 <= i < n
    ensures |s| == n
  {
    if n == 0 then {} else Indices(n - 1) + {n - 1}
  }

  /** Rows with distinct numbers between `lo` and `hi`: no more of them than numbers. */
  lemma {:induction false} DistinctBound(t: seq<int>, a: set<int>, lo: int, hi: int)
    requires Distinct(t) && lo <= hi
    requires forall j :: j in a ==> 0 <= j < |t| && lo < t[j] <= hi
    ensures |a| <= hi - lo
    decreases hi - lo
  {
    if lo == hi {
      assert forall j :: j in a ==> false;
      assert a == {};
    } else if exists j :: j in a && t[j] == hi {
      var j :| j in a && t[j] == hi;
      DistinctBound(t, a - {j}, lo, hi - 1);
    } else {
      DistinctBound(t, a, lo, hi - 1);
    }
  }

  function UpTo(v: seq<int>, x: int): set<int> {
    set j | 0 <= j < |v| && v[j] <= x
  }

  lemma UpToMonotone(v: seq<int>, x: int, y: int)
    requires x <= y
    ensures |UpTo(v, x)| <= |UpTo(v, y)|
  {
    SubsetSize(UpTo(v, x), UpTo(v, y));
  }

  function Over(t: seq<int>, x: int): set<int> {
    set j | 0 <= j < |t| && x < t[j]
  }

  lemma UpToOver(t: seq<int>, x: int)
    ensures |UpTo(t, x)| + |Over(t, x)| == |t|
  {
    assert Indices(|t|) == UpTo(t, x) + Over(t, x);
  }

  /** Distinct numbers within 1..n: exactly `x` of them are at most `x`, and the others over it. */
  lemma DistinctIsExact(t: seq<int>, x: int)
    requires Distinct(t) && 0 <= x <= |t|
    requires forall i :: 0 <= i < |t| ==> 1 <= t[i] <= |t|
    ensures |UpTo(t, x)| == x && |Over(t, x)| == |t| - x
  {
    hide Distinct;
    DistinctBound(t, UpTo(t, x), 0, x);
    DistinctBound(t, Over(t, x), x, |t|);
    UpToOver(t, x);
  }

  // ---------------------------------------------------------------- one row

  lemma RankBounds(v: seq<int>, i: int)
    requires 0 <= i < |v|
    ensures |UpTo(v, v[i] - 1)| + 1 <= Rank(v, i) <= |UpTo(v, v[i])|
    ensures 1 <= Rank(v, i) <= |v|
  {
    SubsetSize(UpTo(v, v[i] - 1) + {i}, Below(v, i));
    SubsetSize(Below(v, i), UpTo(v, v[i]));
    SubsetSize(Below(v, i), Indices(|v|));
  }

  lemma {:induction false} LiveKeeps(s: seq<int>, i: nat, j: int)
    requires i <= |s| && 0 <= j < |s|
    ensures Live(s, i)[j] == if j < i then Updated(s)[j] else s[j]
    ensures j == i ==> Live(s, i + 1)[j] == Rank(Live(s, i), i) == Updated(s)[j]
  {
    LiveFrozen(s, if j < i then j + 1 else i, j);
    LiveStart(s, i, j);
    if j < i {
      LiveFrozen(s, i, j);
    }
    if j == i {
      LiveFrozen(s, i + 1, j);
    }
  }

  lemma {:induction false} LiveStart(s: seq<int>, i: nat, j: int)
    requires i <= |s| && 0 <= j < |s|
    ensures i <= j ==> Live(s, i)[j] == s[j]
  {
    if 0 < i <= j {
      LiveStart(s, i - 1, j);
    }
  }

  lemma {:induction false} LiveFrozen(s: seq<int>, i: nat, j: int)
    requires i <= |s| && 0 <= j < |s|
    ensures j < i ==> Live(s, i)[j] == Updated(s)[j]
    decreases |s| - i
  {
    if j < i < |s| {
      LiveFrozen(s, i + 1, j);
    }
  }

  /** Where row `i` ends, given the table it is rewritten in. */
  lemma RowUpdate(s: seq<int>, i: int)
    requires 0 <= i < |s|
    ensures Live(s, i)[i] == s[i] && Updated(s)[i] == Rank(Live(s, i), i)
    ensures 1 <= Updated(s)[i] <= |s|
  {
    LiveKeeps(s, i, i);
    RankBounds(Live(s, i), i);
  }

  // ---------------------------------------------------------------- crossing a threshold

  predicate CrossesUp(s: seq<int>, i: int, x: int)
    requires 0 <= i < |s|
  {
    s[i] <= x < Updated(s)[i]
  }

  predicate CrossesDown(s: seq<int>, i: int, x: int)
    requires 0 <= i < |s|
  {
    Updated(s)[i] <= x < s[i]
  }

  function Filled(s: seq<int>, i: nat, x: int): nat
    requires i <= |s|
  {
    |UpTo(Live(s, i), x)|
  }

  /** Changing one number changes how many are at most `x` by one, or not at all. */
  lemma UpToUpdate(v: seq<int>, i: nat, y: int, x: int)
    requires i < |v|
    ensures v[i] <= x < y ==> |UpTo(v[i := y], x)| == |UpTo(v, x)| - 1
    ensures y <= x < v[i] ==> |UpTo(v[i := y], x)| == |UpTo(v, x)| + 1
    ensures (v[i] <= x <==> y <= x) ==> |UpTo(v[i := y], x)| == |UpTo(v, x)|
  {
    if v[i] <= x < y {
      assert UpTo(v[i := y], x) == UpTo(v, x) - {i};
    } else if y <= x < v[i] {
      assert UpTo(v[i := y], x) == UpTo(v, x) + {i};
    } else {
      assert UpTo(v[i := y], x) == UpTo(v, x);
    }
  }

  lemma FilledStep(s: seq<int>, i: nat, x: int)
    requires i < |s|
    ensures CrossesUp(s, i, x) ==> Filled(s, i + 1, x) == Filled(s, i, x) - 1
    ensures CrossesDown(s, i, x) ==> Filled(s, i + 1, x) == Filled(s, i, x) + 1
    ensures !CrossesUp(s, i, x) && !CrossesDown(s, i, x) ==> Filled(s, i + 1, x) == Filled(s, i, x)
  {
    hide UpTo, Rank, Updated;
    RowUpdate(s, i);
    UpToUpdate(Live(s, i), i, Updated(s)[i], x);
  }

  /** A number that is over-full is only ever left upwards, and one that is under-full only downwards. */
  lemma ThresholdStep(s: seq<int>, i: nat, x: int)
    requires i < |s|
    ensures Filled(s, i, x) >= x ==> Filled(s, i + 1, x) >= x && !CrossesDown(s, i, x)
    ensures Filled(s, i, x) <= x ==> Filled(s, i + 1, x) <= x && !CrossesUp(s, i, x)
  {
    hide UpTo, Live, Updated;
    RowUpdate(s, i);
    FilledStep(s, i, x);
    RankBounds(Live(s, i), i);
    if s[i] <= x {
      UpToMonotone(Live(s, i), s[i], x);
    } else {
      UpToMonotone(Live(s, i), x, s[i] - 1);
    }
  }

  lemma {:induction false} ThresholdKept(s: seq<int>, i: nat, k: nat, x: int)
    requires i <= k <= |s|
    ensures Filled(s, i, x) >= x ==> Filled(s, k, x) >= x
    ensures Filled(s, i, x) <= x ==> Filled(s, k, x) <= x
  {
    hide Filled;
    if i < k {
      ThresholdKept(s, i, k - 1, x);
      ThresholdStep(s, k - 1, x);
    }
  }

  /** While a number is over-full (under-full) at time `i`, no row rewritten before crossed it downwards (upwards). */
  lemma NoCrossingBefore(s: seq<int>, i: nat, b: nat, x: int)
    requires b < i <= |s|
    ensures Filled(s, i, x) > x ==> !CrossesDown(s, b, x)
    ensures Filled(s, i, x) < x ==> !CrossesUp(s, b, x) && Filled(s, b, x) < x
  {
    hide Filled;
    ThresholdKept(s, b, i, x);
    ThresholdStep(s, b, x);
  }

  /** From the start: a number not under-full is never crossed downwards, one not over-full never upwards. */
  lemma NeverCrossed(s: seq<int>, b: nat, x: int)
    requires b < |s|
    ensures Filled(s, 0, x) >= x ==> !CrossesDown(s, b, x)
    ensures Filled(s, 0, x) <= x ==> !CrossesUp(s, b, x)
  {
    hide Filled;
    ThresholdKept(s, 0, b, x);
    ThresholdStep(s, b, x);
  }

  // ---------------------------------------------------------------- the update keeps the order or loses uniqueness

  /** No low row can stay low once an earlier row of the order has climbed over `x`. */
  lemma {:induction false} UpCase(s: seq<int>, a: int, b: int, x: int)
    requires 0 <= a < |s| && 0 <= b < |s| && a != b && AtOrBefore(s, a, b)
    requires Distinct(Updated(s)) && CrossesUp(s, a, x) && s[b] <= x
    ensures x < Updated(s)[b]
    decreases |s| - a
  {
    hide Live, Updated, Distinct;
    var t, v := Updated(s), Live(s, a);
    if t[b] <= x {
      var others := Below(v, a) - {a};
      RowUpdate(s, a);
      RowUpdate(s, b);
      LiveAll(s, a);
      if l :| l in others && t[l] > x {
        UpCase(s, l, b, x);
      } else {
        UpdatedWithin(s);
        DistinctIsExact(t, x);
        assert Below(v, a) == others + {a};
        SubsetSize(others, UpTo(t, x));
        assert b in others;
        ClimbersLeaveNoOneBelow(s, a, b);
      }
    }
  }

  /** A row rewritten before `a` that was after it and is now at or before it: `a` cannot climb over where it was. */
  lemma ClimbersLeaveNoOneBelow(s: seq<int>, a: int, b: int)
    requires 0 <= b < a < |s| && Updated(s)[b] <= s[a] < s[b]
    ensures Updated(s)[a] <= s[a]
  {
    hide Live, Updated;
    RowUpdate(s, a);
    RankBounds(Live(s, a), a);
    NoCrossingBefore(s, a, b, s[a]);
  }

  lemma LiveAll(s: seq<int>, i: nat)
    requires i <= |s|
    ensures forall j :: 0 <= j < |s| ==> Live(s, i)[j] == if j < i then Updated(s)[j] else s[j]
  {
    forall j | 0 <= j < |s|
      ensures Live(s, i)[j] == if j < i then Updated(s)[j] else s[j]
    {
      LiveKeeps(s, i, j);
    }
  }

  lemma UpdatedWithin(s: seq<int>)
    ensures forall i :: 0 <= i < |s| ==> 1 <= Updated(s)[i] <= |s|
  {
    forall i | 0 <= i < |s|
      ensures 1 <= Updated(s)[i] <= |s|
    {
      RowUpdate(s, i);
    }
  }

  /** The rows behind row `i`. */
  function Behind(v: seq<int>, i: int): set<int>
    requires 0 <= i < |v|
  {
    set j | 0 <= j < |v| && !AtOrBefore(v, j, i)
  }

  lemma BehindCount(v: seq<int>, i: int)
    requires 0 <= i < |v|
    ensures |Behind(v, i)| == |v| - Rank(v, i)
  {
    assert Indices(|v|) == Below(v, i) + Behind(v, i);
  }

  /** No high row can stay high once a later row of the order has fallen to `x`. */
  lemma {:induction false} DownCase(s: seq<int>, a: int, b: int, x: int)
    requires 0 <= a < |s| && 0 <= b < |s| && a != b && AtOrBefore(s, a, b)
    requires Distinct(Updated(s)) && CrossesDown(s, b, x) && x < s[a]
    ensures Updated(s)[a] <= x
    decreases |s| - b
  {
    hide Live, Updated, Distinct;
    var t, v := Updated(s), Live(s, b);
    if x < t[a] {
      var later := Behind(v, b);
      BehindCount(v, b);
      RowUpdate(s, b);
      LiveAll(s, b);
      if m :| m in later && t[m] <= x {
        DownCase(s, a, m, x);
      } else {
        UpdatedWithin(s);
        DistinctIsExact(t, x);
        assert later <= Over(t, x);
        SubsetSize(later, Over(t, x));
        assert a in later;
        FallersPassNoOne(s, a, b);
      }
    }
  }

  /** A row rewritten before `b` that was at or before it and is now after it: `b` cannot fall below its sequence. */
  lemma FallersPassNoOne(s: seq<int>, a: int, b: int)
    requires 0 <= a < b < |s| && s[a] <= s[b] < Updated(s)[a] && Distinct(Updated(s))
    ensures s[b] <= Updated(s)[b]
  {
    hide Live, Updated, Distinct;
    RowUpdate(s, b);
    RankBounds(Live(s, b), b);
    if Filled(s, b, s[b] - 1) < s[b] - 1 {
      NoCrossingBefore(s, b, a, s[b] - 1);
      assert s[a] == s[b];
      RowUpdate(s, a);
      RankOfTied(s, a);
    }
  }

  /** The earlier rows with the number of row `i`. */
  function Ties(v: seq<int>, i: int): set<int>
    requires 0 <= i < |v|
  {
    set l | 0 <= l < i && v[l] == v[i]
  }

  lemma RankFromBelow(v: seq<int>, i: int)
    requires 0 <= i < |v|
    ensures Rank(v, i) == |UpTo(v, v[i] - 1)| + |Ties(v, i)| + 1
  {
    assert Below(v, i) == UpTo(v, v[i] - 1) + Ties(v, i) + {i};
  }

  lemma AtMostOne(t: seq<int>, ties: set<int>, y: int)
    requires Distinct(t) && forall l :: l in ties ==> 0 <= l < |t| && t[l] == y
    ensures |ties| <= 1
  {
    DistinctBound(t, ties, y - 1, y);
  }

  /** With distinct results at most one row before `a` was given the sequence of `a`. */
  lemma RankOfTied(s: seq<int>, a: int)
    requires 0 <= a < |s| && Distinct(Updated(s))
    ensures Rank(Live(s, a), a) <= Filled(s, a, s[a] - 1) + 2
  {
    hide Live, Updated;
    var v := Live(s, a);
    LiveAll(s, a);
    RankFromBelow(v, a);
    AtMostOne(Updated(s), Ties(v, a), s[a]);
  }

  lemma DistinctKeepsOrder(s: seq<int>, a: int, b: int)
    requires 0 <= a < |s| && 0 <= b < |s| && a != b && AtOrBefore(s, a, b) && Distinct(Updated(s))
    ensures Updated(s)[a] < Updated(s)[b]
  {
    hide Updated, Filled;
    var x := Updated(s)[b];
    if x < Updated(s)[a] {
      NeverCrossed(s, a, x);
      NeverCrossed(s, b, x);
      if Filled(s, 0, x) >= x {
        UpCase(s, a, b, x);
      } else {
        DownCase(s, a, b, x);
      }
    } else {
      DistinctAt(Updated(s), a, b);
    }
  }

  lemma DistinctAt(t: seq<int>, a: int, b: int)
    requires 0 <= a < |t| && 0 <= b < |t| && a != b && Distinct(t)
    ensures t[a] != t[b]
  {
  }

  /** Distinct results are the ranks. */
  lemma DistinctAreRanks(s: seq<int>)
    requires Distinct(Updated(s))
    ensures Updated(s) == Ranks(s)
  {
    hide Updated, Distinct;
    var t := Updated(s);
    forall b | 0 <= b < |s|
      ensures t[b] == Rank(s, b)
    {
      forall a | 0 <= a < |s|
        ensures t[a] <= t[b] <==> AtOrBefore(s, a, b)
      {
        if a != b {
          if AtOrBefore(s, a, b) {
            DistinctKeepsOrder(s, a, b);
          } else {
            DistinctKeepsOrder(s, b, a);
          }
        }
      }
      assert UpTo(t, t[b]) == Below(s, b);
      UpdatedWithin(s);
      DistinctIsExact(t, t[b]);
    }
  }

  // ---------------------------------------------------------------- ranks

  /** The formula on a fixed table orders rows exactly as (sequence, rowid) does, one number a row. */
  lemma RankOrder(s: seq<int>, a: int, b: int)
    requires 0 <= a < |s| && 0 <= b < |s|
    ensures 1 <= Rank(s, a) <= |s|
    ensures Rank(s, a) <= Rank(s, b) <==> AtOrBefore(s, a, b)
    ensures Rank(s, a) == Rank(s, b) <==> a == b
  {
    RankBounds(s, a);
    if a != b {
      if AtOrBefore(s, a, b) {
        SubsetSize(Below(s, a) + {b}, Below(s, b));
      } else {
        SubsetSize(Below(s, b) + {a}, Below(s, a));
      }
    }
  }

  lemma RanksDistinct(s: seq<int>)
    ensures Distinct(Ranks(s)) && forall i :: 0 <= i < |s| ==> 1 <= Ranks(s)[i] <= |s|
  {
    hide Rank;
    forall i | 0 <= i < |s|
      ensures 1 <= Ranks(s)[i] <= |s|
    {
      RankOrder(s, i, i);
    }
    forall i, j | 0 <= i < j < |s|
      ensures Ranks(s)[i] != Ranks(s)[j]
    {
      RankOrder(s, i, j);
    }
  }

  function LaterUnder(v: seq<int>, i: int): set<int>
    requires 0 <= i < |v|
  {
    set j | i < j < |v| && v[j] < v[i]
  }

  lemma RankSplits(v: seq<int>, i: int)
    requires 0 <= i < |v|
    ensures Rank(v, i) == |EarlierUpTo(v, i, v[i])| + 1 + |LaterUnder(v, i)|
  {
    assert Below(v, i) == EarlierUpTo(v, i, v[i]) + {i} + LaterUnder(v, i);
  }

  /** As long as the rows so far were given their ranks, row `i` is given its rank exactly under the condition. */
  lemma RowIsRankIff(s: seq<int>, i: int)
    requires 0 <= i < |s|
    requires forall j :: 0 <= j < i ==> Updated(s)[j] == Ranks(s)[j]
    ensures Updated(s)[i] == Ranks(s)[i] <==> |EarlierUpTo(Ranks(s), i, s[i])| == |EarlierUpTo(s, i, s[i])|
  {
    hide Live, Updated, Rank;
    var v := Live(s, i);
    RowUpdate(s, i);
    LiveAll(s, i);
    RankSplits(v, i);
    RankSplits(s, i);
    assert EarlierUpTo(v, i, s[i]) == EarlierUpTo(Ranks(s), i, s[i]);
    assert LaterUnder(v, i) == LaterUnder(s, i);
  }

  lemma {:induction false} RanksSoFar(s: seq<int>, i: nat)
    requires i <= |s| && RanksCannotOvertake(s)
    ensures forall j :: 0 <= j < i ==> Updated(s)[j] == Ranks(s)[j]
  {
    hide Updated, Ranks;
    if i > 0 {
      RanksSoFar(s, i - 1);
      RowIsRankIff(s, i - 1);
    }
  }

  /**
   The exact condition. The row-by-row update leaves distinct sequences exactly when it computes the ranks, and that
   is so exactly when no earlier row's rank overtakes a sequence; otherwise the unique index cannot be built.
   */
  lemma UpdateSucceedsIff(s: seq<int>)
    ensures Updated(s) == Ranks(s) <==> RanksCannotOvertake(s)
    ensures Distinct(Updated(s)) <==> RanksCannotOvertake(s)
  {
    hide Updated, Ranks, Distinct;
    RanksDistinct(s);
    if RanksCannotOvertake(s) {
      RanksSoFar(s, |s|);
      assert Updated(s) == Ranks(s);
    } else {
      if Distinct(Updated(s)) {
        DistinctAreRanks(s);
      }
      if Updated(s) == Ranks(s) {
        forall i | 0 <= i < |s|
          ensures |EarlierUpTo(Ranks(s), i, s[i])| == |EarlierUpTo(s, i, s[i])|
        {
          RowIsRankIff(s, i);
        }
      }
    }
  }

  /** Three rows of sequence 1 become 1, 2, 2: the second row, once rewritten, no longer counts before the third. */
  lemma TiesStayTied()
    ensures Updated([1, 1, 1]) == [1, 2, 2]
    ensures !RanksCannotOvertake([1, 1, 1])
  {
    var s := [1, 1, 1];
    assert Below(s, 0) == {0};
    assert Live(s, 1) == [1, 1, 1];
    assert Below(Live(s, 1), 1) == {0, 1};
    assert Live(s, 2) == [1, 2, 1];
    assert Below(Live(s, 2), 2) == {0, 2};
    assert Live(s, 3) == [1, 2, 2];
    assert !Distinct(Updated(s)) by {
      assert Updated(s)[1] == Updated(s)[2];
    }
    UpdateSucceedsIff(s);
  }

  /** Sequences 10, 3, 3 become 3, 2, 3: the first row's rank overtakes the sequence of the other two. */
  lemma TieOvertakes()
    ensures Updated([10, 3, 3]) == [3, 2, 3]
  {
    var s := [10, 3, 3];
    assert Below(s, 0) == {0, 1, 2};
    assert Live(s, 1) == [3, 3, 3];
    assert Below(Live(s, 1), 1) == {0, 1};
    assert Live(s, 2) == [3, 2, 3];
    assert Below(Live(s, 2), 2) == {0, 1, 2};
    assert Live(s, 3) == [3, 2, 3];
  }

  // ---------------------------------------------------------------- a failure outlives new rows

  lemma RanksBelowNew(s: seq<int>, x: int)
    requires forall i :: 0 <= i < |s| ==> s[i] < x
    ensures forall j :: 0 <= j < |s| ==> Ranks(s + [x])[j] == Ranks(s)[j]
  {
    forall j | 0 <= j < |s|
      ensures Rank(s + [x], j) == Rank(s, j)
    {
      assert Below(s + [x], j) == Below(s, j);
    }
  }

  /** A table whose update fails still fails with a new row on top. */
  lemma AppendKeepsFailure(s: seq<int>, x: int)
    requires !RanksCannotOvertake(s) && forall i :: 0 <= i < |s| ==> s[i] < x
    ensures !RanksCannotOvertake(s + [x])
  {
    hide Ranks;
    RanksBelowNew(s, x);
    var r := s + [x];
    var i :| 0 <= i < |s| && |EarlierUpTo(Ranks(s), i, s[i])| != |EarlierUpTo(s, i, s[i])|;
    assert EarlierUpTo(Ranks(r), i, r[i]) == EarlierUpTo(Ranks(s), i, s[i]);
    assert EarlierUpTo(r, i, r[i]) == EarlierUpTo(s, i, s[i]);
  }
}

/** Properties of the value-level compression: exact token totals, stable pins, and the pipeline's guarantees. */
module CompressionFacts {
  import opened Wrappers
  import opened Text
  import opened Sorting
  import opened Compression

  // ---------------------------------------------------------------- shape

  /** Same roles and explicit pins; only contents may differ. */
  ghost predicate SameShape(a: seq<Message>, b: seq<Message>) {
    |a| == |b| && forall i :: 0 <= i < |a| ==> a[i].role == b[i].role && a[i].pinned == b[i].pinned
  }

  lemma {:induction false} FirstUserShape(a: seq<Message>, b: seq<Message>)
    requires SameShape(a, b)
    ensures FirstUser(a) == FirstUser(b)
  {
    var i, j := FirstUser(a), FirstUser(b);
    assert i < |a| ==> b[i].role == "user";
    assert j < |b| ==> a[j].role == "user";
  }

  lemma PinsFollowShape(a: seq<Message>, b: seq<Message>, keepRecent: nat)
    requires SameShape(a, b)
    ensures PinnedIndices(a, keepRecent) == PinnedIndices(b, keepRecent)
  {
    FirstUserShape(a, b);
    var p, q := PinnedIndices(a, keepRecent), PinnedIndices(b, keepRecent);
    forall j | 0 <= j < |p| ensures p[j] in q {
      assert p[j] in p;
    }
    forall j | 0 <= j < |q| ensures q[j] in p {
      assert q[j] in q;
    }
    IncreasingUnique(p, q);
  }

  // ---------------------------------------------------------------- forgetting keeps the total exact

  function KeptSum(ms: seq<Message>, drop: seq<nat>, n: nat): nat
    requires n <= |ms|
  {
    if n == 0 then 0 else KeptSum(ms, drop, n - 1) + if n - 1 in drop then 0 else Tokens(ms[n - 1])
  }

  lemma {:induction false} SelectSum(ms: seq<Message>, idx: seq<nat>)
    requires Within(idx, |ms|)
    ensures SumTokens(Select(ms, idx)) == TokensOf(ms, idx)
  {
    if |idx| > 0 {
      var rest := idx[..|idx| - 1];
      SelectSum(ms, rest);
      assert Select(ms, idx)[..|rest|] == Select(ms, rest);
    }
  }

  function KeptList(drop: seq<nat>, n: nat): seq<nat> {
    if n == 0 then [] else if n - 1 in drop then KeptList(drop, n - 1) else KeptList(drop, n - 1) + [n - 1]
  }

  lemma {:induction false} KeptListIs(drop: seq<nat>, n: nat)
    ensures KeptList(drop, n) == IndicesWhere(n, NotIn(drop))
  {
    if n > 0 {
      KeptListIs(drop, n - 1);
    }
  }

  lemma {:induction false} KeptTokens(ms: seq<Message>, drop: seq<nat>, n: nat)
    requires n <= |ms|
    ensures Within(KeptList(drop, n), n)
    ensures TokensOf(ms, KeptList(drop, n)) == KeptSum(ms, drop, n)
  {
    if n > 0 {
      hide Tokens, TokensOf;
      KeptTokens(ms, drop, n - 1);
      TokensSnoc(ms, KeptList(drop, n - 1), n - 1);
    }
  }

  lemma TokensSnoc(ms: seq<Message>, idx: seq<nat>, x: nat)
    requires Within(idx, |ms|) && x < |ms|
    ensures TokensOf(ms, idx + [x]) == TokensOf(ms, idx) + Tokens(ms[x])
  {
    assert (idx + [x])[..|idx|] == idx;
  }

  lemma {:induction false} KeptSumNone(ms: seq<Message>, n: nat)
    requires n <= |ms|
    ensures KeptSum(ms, [], n) == SumTokens(ms[..n])
  {
    if n > 0 {
      KeptSumNone(ms, n - 1);
      assert ms[..n][..n - 1] == ms[..n - 1];
    }
  }

  lemma {:induction false} KeptSumDrop(ms: seq<Message>, drop: seq<nat>, x: nat, n: nat)
    requires n <= |ms| && x !in drop
    ensures KeptSum(ms, drop + [x], n) == KeptSum(ms, drop, n) - if x < n then Tokens(ms[x]) else 0
  {
    if n > 0 {
      KeptSumDrop(ms, drop, x, n - 1);
    }
  }

  lemma {:induction false} KeptSumAll(ms: seq<Message>, drop: seq<nat>)
    requires Within(drop, |ms|) && NoDuplicates(drop)
    ensures KeptSum(ms, drop, |ms|) == SumTokens(ms) - TokensOf(ms, drop)
  {
    if |drop| == 0 {
      KeptSumNone(ms, |ms|);
      assert ms[..|ms|] == ms;
    } else {
      var rest, x := drop[..|drop| - 1], drop[|drop| - 1];
      KeptSumAll(ms, rest);
      KeptSumDrop(ms, rest, x, |ms|);
      assert drop == rest + [x];
    }
  }

  lemma DroppedDistinct(ms: seq<Message>, pinned: seq<nat>, total: int, target: int, score: (nat, Message, nat) -> real)
    ensures NoDuplicates(Dropped(ms, pinned, total, target, score))
    ensures forall i :: i in Dropped(ms, pinned, total, target, score) ==> i < |ms| && i !in pinned
  {
    SortNoDuplicates(Unpinned(ms, pinned), LessImportant(ms, score));
    var order := DropOrder(ms, pinned, score);
    var drop := Dropped(ms, pinned, total, target, score);
    forall i | i in drop
      ensures i < |ms| && i !in pinned
    {
      assert i in order;
    }
  }

  /** When the total handed in is exact, so is the total handed back: the clamp at zero never acts. */
  lemma ForgetTotalExact(ms: seq<Message>, pinned: seq<nat>, target: int, world: World)
    ensures var f := Forget(ms, pinned, SumTokens(ms), target, world);
            && f.tokensAfter == SumTokens(Select(ms, f.kept))
            && f.tokensAfter == SumTokens(ms) - TokensOf(ms, Dropped(ms, pinned, SumTokens(ms), target, world.score))
  {
    var drop := Dropped(ms, pinned, SumTokens(ms), target, world.score);
    DroppedDistinct(ms, pinned, SumTokens(ms), target, world.score);
    KeptSumAll(ms, drop);
    KeptTokens(ms, drop, |ms|);
    KeptListIs(drop, |ms|);
    SelectSum(ms, IndicesWhere(|ms|, NotIn(drop)));
  }

  /** The flag says exactly that the survivors are over the target and all of them pinned. */
  lemma ForgetFlagIff(ms: seq<Message>, pinned: seq<nat>, target: int, world: World)
    ensures var f := Forget(ms, pinned, SumTokens(ms), target, world);
            f.overTargetPinnedOnly <==>
              SumTokens(Select(ms, f.kept)) > target && forall j :: 0 <= j < |f.kept| ==> f.kept[j] in pinned
  {
    hide SumTokens, TokensOf, Dropped, LostWithoutCopy;
    ForgetTotalExact(ms, pinned, target, world);
    var f := Forget(ms, pinned, SumTokens(ms), target, world);
    var drop := Dropped(ms, pinned, SumTokens(ms), target, world.score);
    forall i: nat | i < |ms|
      ensures i in f.kept <==> i !in drop
    {
      assert i !in drop ==> NotIn(drop)(i);
      if i in f.kept {
        var j :| 0 <= j < |f.kept| && f.kept[j] == i;
        assert NotIn(drop)(f.kept[j]);
      }
    }
    if forall j :: 0 <= j < |f.kept| ==> f.kept[j] in pinned {
      forall i | 0 <= i < |ms|
        ensures i in pinned || i in drop
      {
        assert i !in drop ==> i in f.kept;
      }
    } else {
      var j :| 0 <= j < |f.kept| && f.kept[j] !in pinned;
      assert f.kept[j] in f.kept;
    }
  }

  // ---------------------------------------------------------------- forgetting commutes with pinning

  lemma {:induction false} Gap(s: seq<nat>, a: nat, b: nat)
    requires StrictlyIncreasing(s) && a <= b < |s|
    ensures s[b] - s[a] >= b - a
  {
    if a < b {
      Gap(s, a, b - 1);
    }
  }

  lemma {:induction false} TailKept(kept: seq<nat>, n: nat, m: nat)
    requires StrictlyIncreasing(kept) && Within(kept, n) && m <= n
    requires forall i: nat :: n - m <= i < n ==> i in kept
    ensures m <= |kept|
    ensures forall j: nat :: |kept| - m <= j < |kept| ==> kept[j] == n - (|kept| - j)
  {
    if m > 0 {
      TailKept(kept, n, m - 1);
      assert n - m in kept;
      var j :| 0 <= j < |kept| && kept[j] == n - m;
      var next := |kept| - (m - 1);
      if m > 1 {
        assert kept[next] == n - m + 1;
        Gap(kept, j, next);
      } else {
        Gap(kept, j, |kept| - 1);
      }
      assert j == |kept| - m;
    }
  }

  /** The recent window of the shortened list is the recent window of the full one. */
  lemma WindowKept(kept: seq<nat>, n: nat, keepRecent: nat, j: nat)
    requires StrictlyIncreasing(kept) && Within(kept, n) && j < |kept|
    requires forall i: nat :: InRecentWindow(n, keepRecent, i) ==> i in kept
    ensures InRecentWindow(|kept|, keepRecent, j) <==> InRecentWindow(n, keepRecent, kept[j])
  {
    var m := Min(keepRecent, n);
    TailKept(kept, n, m);
    Gap(kept, 0, |kept| - 1);
    if m > 0 && j < |kept| - m {
      assert kept[j] < kept[|kept| - m];
    }
  }

  lemma FirstUserKept(ms: seq<Message>, kept: seq<nat>)
    requires StrictlyIncreasing(kept) && Within(kept, |ms|)
    requires FirstUser(ms) < |ms| ==> FirstUser(ms) in kept
    ensures forall j: nat :: j < |kept| ==> (j == FirstUser(Select(ms, kept)) <==> kept[j] == FirstUser(ms))
    ensures FirstUser(ms) < |ms| ==> FirstUser(Select(ms, kept)) < |kept|
  {
    var f := FirstUser(ms);
    var sel := Select(ms, kept);
    var g := FirstUser(sel);
    if f < |ms| {
      var j :| 0 <= j < |kept| && kept[j] == f;
      assert sel[j].role == "user";
      assert g < |kept| ==> ms[kept[g]].role == "user";
      assert g == j;
    } else {
      assert forall j :: 0 <= j < |kept| ==> sel[j].role == ms[kept[j]].role;
    }
  }

  /**
   Recomputing the pins on what is left after dropping unpinned messages gives exactly the old pins, renumbered:
   no pinned message is lost, none is added.
   */
  lemma ForgettingCommutesWithPinning(ms: seq<Message>, drop: seq<nat>, keepRecent: nat)
    requires forall i: nat :: i in drop ==> !IsPinned(ms, keepRecent, i)
    ensures var kept := IndicesWhere(|ms|, NotIn(drop));
            && Within(kept, |ms|) && StrictlyIncreasing(kept)
            && (forall i: nat :: IsPinned(ms, keepRecent, i) ==> i in kept)
            && (forall j: nat :: j < |kept| ==> (IsPinned(Select(ms, kept), keepRecent, j) <==> IsPinned(ms, keepRecent, kept[j])))
  {
    hide FirstUser, InRecentWindow;
    var kept := IndicesWhere(|ms|, NotIn(drop));
    WindowIsPinned(ms, keepRecent);
    FirstUserKept(ms, kept);
    forall j: nat | j < |kept|
      ensures IsPinned(Select(ms, kept), keepRecent, j) <==> IsPinned(ms, keepRecent, kept[j])
    {
      WindowKept(kept, |ms|, keepRecent, j);
    }
  }

  lemma WindowIsPinned(ms: seq<Message>, keepRecent: nat)
    ensures forall i: nat :: InRecentWindow(|ms|, keepRecent, i) ==> IsPinned(ms, keepRecent, i)
  {
  }
}

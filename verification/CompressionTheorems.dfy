/** What a caller of `compress` can rely on, for every input and every answer of the environment. */
module CompressionTheorems {
  import opened Wrappers
  import opened Text
  import opened Sorting
  import opened Compression
  import opened CompressionFacts

  // ---------------------------------------------------------------- head/tail truncation

  lemma ElisionNoteLength(elided: nat)
    ensures |ElisionNote(elided)| == 32 + |Decimal(elided)|
  {
  }

  /** The length guard in numbers: from 1835 characters on there is something to gain. */
  lemma HeadTailGuard(content: string)
    ensures HeadTail(content).None? <==> EstimateTokens(content) <= 512 || |content| <= 1834
    ensures HeadTail(content).Some? ==> |HeadTail(content).value| == 1832 + |Decimal(|content| - 1800)| < |content|
  {
    hide EstimateTokens;
    if |content| > 1800 {
      var elided := |content| - 1800;
      DecimalLength(elided);
      ElisionNoteLength(elided);
    }
  }

  /**
   An accepted replacement keeps both ends, says how many characters it left out, is shorter, and never has a
   higher estimate.
   */
  lemma HeadTailShrinks(content: string)
    requires HeadTail(content).Some?
    ensures var r := HeadTail(content).value;
            && |r| < |content|
            && EstimateTokens(r) <= EstimateTokens(content)
            && |r| >= 1832 && r[..1200] == content[..1200] && r[|r| - 600..] == content[|content| - 600..]
            && ParseDecimal(r[1214..|r| - 618]) == |content| - 1800
  {
    hide Decimal, ParseDecimal;
    var r := HeadTail(content).value;
    var n := |content|;
    var head, middle, tail := content[..1200], content[1200..n - 600], content[n - 600..];
    var note := ElisionNote(n - 1800);
    assert content == head + middle + tail;
    assert r == head + note + tail;
    HeadTailGuard(content);
    ElisionNoteLength(n - 1800);
    SplicingShrinks(head, middle, tail, note);
    assert note[14..|note| - 18] == Decimal(n - 1800);
    assert r[1214..|r| - 618] == note[14..|note| - 18];
    DecimalRoundTrip(n - 1800);
  }

  // ---------------------------------------------------------------- shape is kept by every rewriting

  lemma StageKeeps(ms: seq<Message>, plan: Plan, total: int, target: int)
    requires |plan| == |ms|
    ensures SameShape(ms, Stage(ms, plan, total, target))
    ensures forall i :: 0 <= i < |ms| && plan[i].None? ==> Stage(ms, plan, total, target)[i] == ms[i]
  {
  }

  /** Same shape, and pinned messages untouched. */
  ghost predicate PinnedUntouched(a: seq<Message>, b: seq<Message>, pinned: seq<nat>) {
    SameShape(a, b) && forall i :: 0 <= i < |a| && i in pinned ==> a[i] == b[i]
  }

  lemma DeterministicKeeps(ms: seq<Message>, pinned: seq<nat>, target: int)
    ensures PinnedUntouched(ms, Deterministic(ms, pinned, target).ms, pinned)
  {
    hide Stage, HeadTail, Digest, Strip, Cut;
    var p1 := RunStage(Progress(ms, []), TruncatePlan(ms, pinned), Truncated, target);
    StageKeeps(ms, TruncatePlan(ms, pinned), SumTokens(ms), target);
    var p2 := RunStage(p1, DedupPlan(p1.ms, pinned), Deduplicated, target);
    StageKeeps(p1.ms, DedupPlan(p1.ms, pinned), SumTokens(p1.ms), target);
    StageKeeps(p2.ms, DigestPlan(p2.ms, pinned), SumTokens(p2.ms), target);
  }

  lemma {:induction false} SummariesKeep(ms: seq<Message>, pinned: seq<nat>, reply: seq<(int, string)>)
    ensures PinnedUntouched(ms, ApplySummaries(ms, pinned, reply), pinned)
  {
    if |reply| > 0 {
      SummariesKeep(ms, pinned, reply[..|reply| - 1]);
    }
  }

  /** Only the recent window without the intent is ever touched by the last resort. */
  ghost predicate OnlyRecentTouched(a: seq<Message>, b: seq<Message>, keepRecent: nat, intent: nat) {
    && SameShape(a, b)
    && forall i :: 0 <= i < |a| && (!InRecentWindow(|a|, keepRecent, i) || i == intent) ==> a[i] == b[i]
  }

  lemma {:induction false} LastResortKeeps(ms: seq<Message>, keepRecent: nat, intent: nat, total: int, target: int)
    ensures OnlyRecentTouched(ms, LastResort(ms, keepRecent, intent, total, target), keepRecent, intent)
    decreases TotalLength(ms)
  {
    hide HeadTail, InRecentWindow;
    var plan := RecentPlan(ms, keepRecent, intent);
    var cut := Cut(ms, plan, total, target, 0);
    RecentPlanShortens(ms, keepRecent, intent);
    RewritingShortens(ms, plan, cut);
    if total > target && Touched(plan, cut) {
      StageKeeps(ms, plan, total, target);
      LastResortKeeps(Rewritten(ms, plan, cut), keepRecent, intent, TotalAt(ms, plan, total, cut), target);
    }
  }

  lemma RecentPlanShortens(ms: seq<Message>, keepRecent: nat, intent: nat)
    ensures Shortens(ms, RecentPlan(ms, keepRecent, intent))
  {
  }

  // ---------------------------------------------------------------- how the last resort ends

  /** Nothing in the recent window, the intent apart, can be shortened any further. */
  ghost predicate Exhausted(ms: seq<Message>, keepRecent: nat, intent: nat) {
    forall i: nat :: i < |ms| && InRecentWindow(|ms|, keepRecent, i) && i != intent ==>
      EstimateTokens(ms[i].content) <= 512 || |ms[i].content| <= 1834
  }

  lemma {:induction false} LastResortEnds(ms: seq<Message>, keepRecent: nat, intent: nat, target: int)
    ensures var r := LastResort(ms, keepRecent, intent, SumTokens(ms), target);
            SumTokens(r) <= target || Exhausted(r, keepRecent, intent)
    decreases TotalLength(ms)
  {
    hide HeadTail, InRecentWindow, EstimateTokens, SumTokens;
    var total := SumTokens(ms);
    var plan := RecentPlan(ms, keepRecent, intent);
    var cut := Cut(ms, plan, total, target, 0);
    RecentPlanShortens(ms, keepRecent, intent);
    RewritingShortens(ms, plan, cut);
    if total > target {
      if Touched(plan, cut) {
        LastResortEnds(Rewritten(ms, plan, cut), keepRecent, intent, target);
      } else {
        assert cut == |ms|;
        forall i: nat | i < |ms| && InRecentWindow(|ms|, keepRecent, i) && i != intent
          ensures EstimateTokens(ms[i].content) <= 512 || |ms[i].content| <= 1834
        {
          HeadTailGuard(ms[i].content);
          assert plan[i].None?;
        }
      }
    }
  }

  // ---------------------------------------------------------------- the pipeline, phase by phase

  /** The messages and stages when stages 1 and 2 are over. */
  function Prepared(ms: seq<Message>, limits: Limits, world: World): Progress
    requires limits.Valid()
  {
    var pinned := PinnedIndices(ms, limits.keepRecent);
    Summarise(Deterministic(ms, pinned, limits.Target()), pinned, limits.Target(), limits, world)
  }

  lemma PreparedKeeps(ms: seq<Message>, limits: Limits, world: World)
    requires limits.Valid()
    ensures PinnedUntouched(ms, Prepared(ms, limits, world).ms, PinnedIndices(ms, limits.keepRecent))
  {
    hide Deterministic, ApplySummaries, PinnedIndices, AsksOracle, BuildSummaryRequest;
    var pinned := PinnedIndices(ms, limits.keepRecent);
    var p1 := Deterministic(ms, pinned, limits.Target());
    DeterministicKeeps(ms, pinned, limits.Target());
    if world.reply.Some? {
      SummariesKeep(p1.ms, pinned, world.reply.value);
    }
  }

  /** Indices of the prepared messages that survive stage 3. */
  function Survivors(p: Progress, pinned: seq<nat>, target: int, limits: Limits, world: World): (kept: seq<nat>)
    ensures Within(kept, |p.ms|)
  {
    if Forgets(p, target, limits) then Forget(p.ms, pinned, SumTokens(p.ms), target, world).kept
    else seq(|p.ms|, (i: nat) => i)
  }

  lemma ForgettingIsSelection(p: Progress, pinned: seq<nat>, target: int, limits: Limits, world: World)
    requires pinned == PinnedIndices(p.ms, limits.keepRecent)
    ensures var kept := Survivors(p, pinned, target, limits, world);
            var q := Forgetting(p, pinned, target, limits, world).ms;
            && StrictlyIncreasing(kept) && q == Select(p.ms, kept)
            && (forall i: nat :: IsPinned(p.ms, limits.keepRecent, i) ==> i in kept)
            && (forall j: nat :: j < |kept| ==> (IsPinned(q, limits.keepRecent, j) <==> IsPinned(p.ms, limits.keepRecent, kept[j])))
            && (forall j: nat :: j < |kept| ==> (InRecentWindow(|q|, limits.keepRecent, j) <==> InRecentWindow(|p.ms|, limits.keepRecent, kept[j])))
            && (forall j: nat :: j < |kept| ==> (j == FirstUser(q) <==> kept[j] == FirstUser(p.ms)))
            && (FirstUser(p.ms) < |p.ms| ==> FirstUser(q) < |q|)
  {
    hide FirstUser, SumTokens, Dropped, InRecentWindow, TokensOf, LostWithoutCopy;
    var kept := Survivors(p, pinned, target, limits, world);
    if Forgets(p, target, limits) {
      var drop := Dropped(p.ms, pinned, SumTokens(p.ms), target, world.score);
      DroppedDistinct(p.ms, pinned, SumTokens(p.ms), target, world.score);
      ForgettingCommutesWithPinning(p.ms, drop, limits.keepRecent);
    } else {
      assert Select(p.ms, kept) == p.ms;
      forall i: nat | i < |p.ms|
        ensures i in kept
      {
        assert kept[i] == i;
      }
    }
    WindowIsPinned(p.ms, limits.keepRecent);
    IntentIsPinned(p.ms, limits.keepRecent);
    FirstUserKept(p.ms, kept);
    forall j: nat | j < |kept|
      ensures InRecentWindow(|kept|, limits.keepRecent, j) <==> InRecentWindow(|p.ms|, limits.keepRecent, kept[j])
    {
      WindowKept(kept, |p.ms|, limits.keepRecent, j);
    }
  }

  lemma IntentIsPinned(ms: seq<Message>, keepRecent: nat)
    ensures FirstUser(ms) < |ms| ==> IsPinned(ms, keepRecent, FirstUser(ms))
  {
  }

  lemma FinishKeeps(p: Progress, pinned: seq<nat>, target: int, limits: Limits)
    ensures OnlyRecentTouched(p.ms, Finish(p, pinned, target, limits).ms, limits.keepRecent, FirstUser(p.ms))
  {
    hide LastResort, SumTokens, FirstUser;
    LastResortKeeps(p.ms, limits.keepRecent, FirstUser(p.ms), SumTokens(p.ms), target);
  }

  // ---------------------------------------------------------------- theorems

  /**
   `idx` shows how the output was selected from the input: in order, with roles and explicit pins kept, without
   losing any pinned message; the intent is byte-identical and so is every pinned message outside the recent window.
   */
  ghost predicate SelectsFrom(before: seq<Message>, after: seq<Message>, idx: seq<nat>, keepRecent: nat) {
    && StrictlyIncreasing(idx) && Within(idx, |before|) && |idx| == |after|
    && (forall j :: 0 <= j < |idx| ==> after[j].role == before[idx[j]].role && after[j].pinned == before[idx[j]].pinned)
    && (forall i: nat :: IsPinned(before, keepRecent, i) ==> i in idx)
    && (forall j :: 0 <= j < |idx| && idx[j] == FirstUser(before) ==> after[j] == before[idx[j]])
    && (forall j :: 0 <= j < |idx| && IsPinned(before, keepRecent, idx[j]) && !InRecentWindow(|before|, keepRecent, idx[j]) ==>
          after[j] == before[idx[j]])
  }

  /** Rewriting unpinned messages, selecting, then touching only the recent window is a selection in this sense. */
  lemma SelectionComposes(ms: seq<Message>, a: seq<Message>, b: seq<Message>, c: seq<Message>, idx: seq<nat>, k: nat)
    requires PinnedUntouched(ms, a, PinnedIndices(ms, k))
    requires StrictlyIncreasing(idx) && Within(idx, |a|) && b == Select(a, idx)
    requires forall i: nat :: IsPinned(a, k, i) ==> i in idx
    requires forall j: nat :: j < |idx| ==> (InRecentWindow(|b|, k, j) <==> InRecentWindow(|a|, k, idx[j]))
    requires forall j: nat :: j < |idx| ==> (j == FirstUser(b) <==> idx[j] == FirstUser(a))
    requires OnlyRecentTouched(b, c, k, FirstUser(b))
    ensures SelectsFrom(ms, c, idx, k)
  {
    hide FirstUser, InRecentWindow, PinnedIndices, IsPinned;
    PinnedAgree(ms, a, k);
    FirstUserShape(ms, a);
    IntentIsPinned(ms, k);
    forall j | 0 <= j < |idx|
      ensures c[j].role == ms[idx[j]].role && c[j].pinned == ms[idx[j]].pinned
      ensures idx[j] == FirstUser(ms) ==> c[j] == ms[idx[j]]
      ensures IsPinned(ms, k, idx[j]) && !InRecentWindow(|ms|, k, idx[j]) ==> c[j] == ms[idx[j]]
    {
      assert b[j] == a[idx[j]];
    }
  }

  /** Where the messages of a run's output come from: their indices in the input. */
  function Provenance(ms: seq<Message>, limits: Limits, world: World): seq<nat>
    requires limits.Valid()
  {
    if !limits.Triggers(SumTokens(ms)) then seq(|ms|, (i: nat) => i)
    else Survivors(Prepared(ms, limits, world), PinnedIndices(ms, limits.keepRecent), limits.Target(), limits, world)
  }

  lemma IntentAndPinsSurvive(ms: seq<Message>, limits: Limits, world: World)
    requires limits.Valid()
    ensures SelectsFrom(ms, Compressed(ms, limits, world).messages, Provenance(ms, limits, world), limits.keepRecent)
  {
    hide FirstUser, SumTokens, InRecentWindow, PinnedIndices, Deterministic, Summarise, Forgetting, Finish, Survivors,
         BuildSummaryRequest, IsPinned, Forget, SelectsFrom, OnlyRecentTouched, PinnedUntouched;
    var k := limits.keepRecent;
    if !limits.Triggers(SumTokens(ms)) {
      IdentitySelects(ms, Provenance(ms, limits, world), k);
      return;
    }
    var target := limits.Target();
    var pinned := PinnedIndices(ms, k);
    var p2 := Prepared(ms, limits, world);
    PreparedKeeps(ms, limits, world);
    ShapeOf(ms, p2.ms, pinned);
    PinsFollowShape(ms, p2.ms, k);
    ForgettingIsSelection(p2, pinned, target, limits, world);
    var p3 := Forgetting(p2, pinned, target, limits, world);
    var pinned' := if Forgets(p2, target, limits) then PinnedIndices(p3.ms, k) else pinned;
    FinishKeeps(p3, pinned', target, limits);
    SelectionComposes(ms, p2.ms, p3.ms, Finish(p3, pinned', target, limits).ms, Provenance(ms, limits, world), k);
  }

  lemma ShapeOf(a: seq<Message>, b: seq<Message>, pinned: seq<nat>)
    requires PinnedUntouched(a, b, pinned)
    ensures SameShape(a, b)
  {
  }

  lemma IdentitySelects(ms: seq<Message>, idx: seq<nat>, k: nat)
    requires |idx| == |ms| && forall i: nat :: i < |ms| ==> idx[i] == i
    ensures SelectsFrom(ms, ms, idx, k)
  {
    hide FirstUser, InRecentWindow;
    assert forall i: nat :: i < |ms| ==> idx[i] in idx;
  }

  lemma PinnedAgree(a: seq<Message>, b: seq<Message>, keepRecent: nat)
    requires SameShape(a, b)
    ensures forall i: nat :: IsPinned(a, keepRecent, i) <==> IsPinned(b, keepRecent, i)
  {
    hide FirstUser, InRecentWindow;
    FirstUserShape(a, b);
  }

  /** The pins a report lists are the pins of the very messages it returns. */
  lemma ReportedPinsAreCurrent(ms: seq<Message>, limits: Limits, world: World)
    requires limits.Valid()
    ensures var r := Compressed(ms, limits, world); r.pinned == PinnedIndices(r.messages, limits.keepRecent)
  {
    hide FirstUser, SumTokens, InRecentWindow, PinnedIndices, Deterministic, Summarise, Forget, Finish, BuildSummaryRequest;
    if limits.Triggers(SumTokens(ms)) {
      var k, target := limits.keepRecent, limits.Target();
      var pinned := PinnedIndices(ms, k);
      var p2 := Prepared(ms, limits, world);
      PreparedKeeps(ms, limits, world);
      PinsFollowShape(ms, p2.ms, k);
      var p3 := Forgetting(p2, pinned, target, limits, world);
      var pinned' := if Forgets(p2, target, limits) then PinnedIndices(p3.ms, k) else pinned;
      FinishKeeps(p3, pinned', target, limits);
      PinsFollowShape(p3.ms, Finish(p3, pinned', target, limits).ms, k);
    }
  }

  /** After forgetting, missing the target means that only pinned messages are left. */
  lemma ForgettingEmpties(p: Progress, pinned: seq<nat>, target: int, limits: Limits, world: World)
    requires pinned == PinnedIndices(p.ms, limits.keepRecent) && limits.enableForget
    ensures var q := Forgetting(p, pinned, target, limits, world).ms;
            SumTokens(q) <= target || Unpinned(q, PinnedIndices(q, limits.keepRecent)) == []
  {
    hide FirstUser, InRecentWindow, SumTokens, TokensOf, LostWithoutCopy, IsPinned, Unpinned;
    var k := limits.keepRecent;
    var q := Forgetting(p, pinned, target, limits, world).ms;
    if Forgets(p, target, limits) && SumTokens(q) > target {
      ForgettingIsSelection(p, pinned, target, limits, world);
      ForgetTotalExact(p.ms, pinned, target, world);
      var order := DropOrder(p.ms, pinned, world.score);
      var drop := Dropped(p.ms, pinned, SumTokens(p.ms), target, world.score);
      assert drop == order;
      var kept := Survivors(p, pinned, target, limits, world);
      NoneUnpinned(q, k, kept, p.ms, drop);
    }
  }

  lemma NoneUnpinned(q: seq<Message>, k: nat, kept: seq<nat>, ms: seq<Message>, drop: seq<nat>)
    requires |q| == |kept|
    requires forall j: nat :: j < |kept| ==> kept[j] < |ms| && kept[j] !in drop
    requires forall i: nat :: i < |ms| && i !in PinnedIndices(ms, k) ==> i in drop
    requires forall j: nat :: j < |kept| ==> (IsPinned(q, k, j) <==> IsPinned(ms, k, kept[j]))
    ensures Unpinned(q, PinnedIndices(q, k)) == []
  {
    hide IsPinned;
    NoIndices(|q|, NotIn(PinnedIndices(q, k)));
  }

  /**
   Outcome of a triggered run with forgetting enabled, whatever the summariser answers: the target is met, or
   every surviving message is pinned and nothing recent but the intent can be shortened any further.
   */
  lemma CompressionOutcome(ms: seq<Message>, limits: Limits, world: World)
    requires limits.Valid() && limits.enableForget && limits.Triggers(SumTokens(ms))
    ensures var r := Compressed(ms, limits, world);
            || r.tokensAfter <= limits.Target()
            || ((forall i: nat :: i < |r.messages| ==> IsPinned(r.messages, limits.keepRecent, i))
                && Exhausted(r.messages, limits.keepRecent, FirstUser(r.messages)))
  {
    hide FirstUser, SumTokens, InRecentWindow, Deterministic, Summarise, Forgetting, BuildSummaryRequest, Forget, LastResort, Exhausted;
    var k, target := limits.keepRecent, limits.Target();
    var pinned := PinnedIndices(ms, k);
    var p2 := Prepared(ms, limits, world);
    PreparedKeeps(ms, limits, world);
    PinsFollowShape(ms, p2.ms, k);
    ForgettingEmpties(p2, pinned, target, limits, world);
    var p3 := Forgetting(p2, pinned, target, limits, world);
    NoForgetting(p2, pinned, target, limits, world);
    var pinned' := PinnedIndices(p3.ms, k);
    if SumTokens(p3.ms) > target {
      var intent := FirstUser(p3.ms);
      LastResortEnds(p3.ms, k, intent, target);
      LastResortKeeps(p3.ms, k, intent, SumTokens(p3.ms), target);
      var r := LastResort(p3.ms, k, intent, SumTokens(p3.ms), target);
      FirstUserShape(p3.ms, r);
      PinnedAgree(p3.ms, r, k);
      AllPinned(p3.ms, k);
    }
  }

  lemma NoForgetting(p: Progress, pinned: seq<nat>, target: int, limits: Limits, world: World)
    ensures !Forgets(p, target, limits) ==> Forgetting(p, pinned, target, limits, world) == p
  {
  }

  lemma AllPinned(ms: seq<Message>, k: nat)
    requires Unpinned(ms, PinnedIndices(ms, k)) == []
    ensures forall i: nat :: i < |ms| ==> IsPinned(ms, k, i)
  {
    forall i: nat | i < |ms|
      ensures IsPinned(ms, k, i)
    {
      assert i !in Unpinned(ms, PinnedIndices(ms, k));
    }
  }
}

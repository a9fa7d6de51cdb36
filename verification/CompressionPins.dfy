/** What decides the fate of the pinned messages, and with them the outcome of a run: read off the input. */
module CompressionPins {
  import opened Wrappers
  import opened Text
  import opened Sorting
  import opened Compression
  import opened CompressionFacts
  import opened CompressionTheorems

  // ---------------------------------------------------------------- weighing the pinned messages

  function PinnedTokens(ms: seq<Message>, keepRecent: nat): nat {
    PinnedWithin(ms, keepRecent);
    TokensOf(ms, PinnedIndices(ms, keepRecent))
  }

  lemma PinnedWithin(ms: seq<Message>, keepRecent: nat)
    ensures Within(PinnedIndices(ms, keepRecent), |ms|)
  {
    var p := PinnedIndices(ms, keepRecent);
    forall j | 0 <= j < |p|
      ensures p[j] < |ms|
    {
      assert p[j] in p;
    }
  }

  lemma {:induction false} SameTokens(a: seq<Message>, b: seq<Message>, idx: seq<nat>)
    requires Within(idx, |a|) && |a| == |b| && forall j :: 0 <= j < |idx| ==> a[idx[j]] == b[idx[j]]
    ensures TokensOf(a, idx) == TokensOf(b, idx)
  {
    hide Tokens;
    if |idx| > 0 {
      SameTokens(a, b, idx[..|idx| - 1]);
    }
  }

  lemma {:induction false} FewerWeighLess(ms: seq<Message>, a: seq<nat>, b: seq<nat>)
    requires StrictlyIncreasing(a) && StrictlyIncreasing(b) && Within(a, |ms|) && Within(b, |ms|)
    requires forall j :: 0 <= j < |a| ==> a[j] in b
    ensures TokensOf(ms, a) <= TokensOf(ms, b)
    decreases |b|
  {
    hide Tokens;
    if |a| > 0 {
      var x, y := a[|a| - 1], b[|b| - 1];
      assert x in b;
      if x == y {
        FewerWeighLess(ms, a[..|a| - 1], b[..|b| - 1]);
      } else {
        FewerWeighLess(ms, a, b[..|b| - 1]);
      }
    }
  }

  // ---------------------------------------------------------------- when the last resort does anything

  /** Stage 4 can shorten this message: it is recent, not the intent, and worth truncating. */
  predicate Shortenable(ms: seq<Message>, keepRecent: nat, i: nat) {
    && i < |ms| && InRecentWindow(|ms|, keepRecent, i) && i != FirstUser(ms)
    && EstimateTokens(ms[i].content) > 512 && |ms[i].content| > 1834
  }

  lemma {:induction false} NothingBefore(ms: seq<Message>, plan: Plan, total: int, i: nat)
    requires |plan| == |ms| && i <= |ms| && forall j :: 0 <= j < i ==> plan[j].None?
    ensures TotalAt(ms, plan, total, i) == total
  {
    hide TotalAt;
    if i == 0 {
      TotalStart(ms, plan, total);
    } else {
      NothingBefore(ms, plan, total, i - 1);
      TotalStep(ms, plan, total, i - 1);
    }
  }

  lemma FirstPlanned(plan: Plan, i: nat) returns (f: nat)
    requires i < |plan| && plan[i].Some?
    ensures f <= i && plan[f].Some? && forall j :: 0 <= j < f ==> plan[j].None?
  {
    if j :| 0 <= j < i && plan[j].Some? {
      f := FirstPlanned(plan, j);
    } else {
      f := i;
    }
  }

  /** A stage entered over the target carries out at least the first entry of its plan. */
  lemma FirstIsCarriedOut(ms: seq<Message>, plan: Plan, total: int, target: int, i: nat)
    requires |plan| == |ms| && total > target && i < |ms| && plan[i].Some?
    ensures Touched(plan, Cut(ms, plan, total, target, 0))
  {
    hide TotalAt;
    var f := FirstPlanned(plan, i);
    var c := Cut(ms, plan, total, target, 0);
    if c <= f {
      NothingBefore(ms, plan, total, c);
    }
  }

  lemma {:induction false} LastResortShortens(ms: seq<Message>, keepRecent: nat, intent: nat, total: int, target: int)
    ensures TotalLength(LastResort(ms, keepRecent, intent, total, target)) <= TotalLength(ms)
    decreases TotalLength(ms)
  {
    hide HeadTail, InRecentWindow;
    var plan := RecentPlan(ms, keepRecent, intent);
    var cut := Cut(ms, plan, total, target, 0);
    RecentPlanShortens(ms, keepRecent, intent);
    RewritingShortens(ms, plan, cut);
    if total > target && Touched(plan, cut) {
      LastResortShortens(Rewritten(ms, plan, cut), keepRecent, intent, TotalAt(ms, plan, total, cut), target);
    }
  }

  /** Entered over the target, stage 4 changes something exactly when there is something it can shorten. */
  lemma LastResortActsIff(ms: seq<Message>, keepRecent: nat, total: int, target: int)
    requires total > target
    ensures LastResort(ms, keepRecent, FirstUser(ms), total, target) != ms
       <==> exists i :: 0 <= i < |ms| && Shortenable(ms, keepRecent, i)
  {
    hide HeadTail, InRecentWindow, EstimateTokens, Cut, TotalAt, FirstUser;
    var intent := FirstUser(ms);
    var plan := RecentPlan(ms, keepRecent, intent);
    var cut := Cut(ms, plan, total, target, 0);
    forall i | 0 <= i < |ms|
      ensures plan[i].Some? <==> Shortenable(ms, keepRecent, i)
    {
      HeadTailGuard(ms[i].content);
    }
    RecentPlanShortens(ms, keepRecent, intent);
    RewritingShortens(ms, plan, cut);
    if i :| 0 <= i < |ms| && Shortenable(ms, keepRecent, i) {
      FirstIsCarriedOut(ms, plan, total, target, i);
      LastResortShortens(Rewritten(ms, plan, cut), keepRecent, intent, TotalAt(ms, plan, total, cut), target);
    }
  }

  // ---------------------------------------------------------------- stage 3 leaves the pinned messages or meets the target

  /** When stage 4 runs, what is left is exactly the pinned messages of the input, as they were. */
  ghost predicate OnlyPinnedLeft(ms: seq<Message>, limits: Limits, p3: Progress, idx: seq<nat>) {
    var pinned := PinnedIndices(ms, limits.keepRecent);
    Within(pinned, |ms|) && idx == pinned && p3.ms == Select(ms, pinned)
    && SumTokens(p3.ms) == PinnedTokens(ms, limits.keepRecent)
  }

  ghost predicate AllArePinned(ms: seq<Message>, keepRecent: nat) {
    forall i: nat :: i < |ms| ==> IsPinned(ms, keepRecent, i)
  }

  lemma PinnedOnly(ms: seq<Message>, p: Progress, q: Progress, idx: seq<nat>, limits: Limits)
    requires PinnedUntouched(ms, p.ms, PinnedIndices(ms, limits.keepRecent))
    requires StrictlyIncreasing(idx) && Within(idx, |p.ms|) && q.ms == Select(p.ms, idx)
    requires forall i: nat :: IsPinned(p.ms, limits.keepRecent, i) ==> i in idx
    requires forall j: nat :: j < |idx| ==> (IsPinned(q.ms, limits.keepRecent, j) <==> IsPinned(p.ms, limits.keepRecent, idx[j]))
    ensures PinnedTokens(ms, limits.keepRecent) <= SumTokens(q.ms)
    ensures AllArePinned(q.ms, limits.keepRecent) ==> OnlyPinnedLeft(ms, limits, q, idx)
  {
    hide FirstUser, InRecentWindow, Tokens, IsPinned, SumTokens;
    var k := limits.keepRecent;
    var pinned := PinnedIndices(ms, k);
    PinnedWithin(ms, k);
    PinnedAgree(ms, p.ms, k);
    PinnedMembers(pinned, ms, k);
    SameTokens(ms, p.ms, pinned);
    SelectSum(p.ms, idx);
    FewerWeighLess(p.ms, pinned, idx);
    if AllArePinned(q.ms, k) {
      IncreasingUnique(idx, pinned);
    }
  }

  lemma PinnedMembers(pinned: seq<nat>, ms: seq<Message>, keepRecent: nat)
    requires pinned == PinnedIndices(ms, keepRecent)
    ensures forall j :: 0 <= j < |pinned| ==> pinned[j] in pinned && IsPinned(ms, keepRecent, pinned[j])
  {
    hide IsPinned;
    forall j | 0 <= j < |pinned|
      ensures pinned[j] in pinned && IsPinned(ms, keepRecent, pinned[j])
    {
      assert pinned[j] in pinned;
    }
  }

  lemma UnpinnedNoneIff(ms: seq<Message>, keepRecent: nat)
    ensures Unpinned(ms, PinnedIndices(ms, keepRecent)) == [] <==> AllArePinned(ms, keepRecent)
  {
    if Unpinned(ms, PinnedIndices(ms, keepRecent)) == [] {
      AllPinned(ms, keepRecent);
    } else {
      assert Unpinned(ms, PinnedIndices(ms, keepRecent))[0] in Unpinned(ms, PinnedIndices(ms, keepRecent));
    }
  }

  /** Stage 4 runs exactly when the pinned messages of the input exceed the target and nothing else can be left. */
  predicate ReachesLastResort(ms: seq<Message>, limits: Limits)
    requires limits.Valid()
  {
    && limits.Triggers(SumTokens(ms))
    && PinnedTokens(ms, limits.keepRecent) > limits.Target()
    && (limits.enableForget || forall i: nat :: i < |ms| ==> IsPinned(ms, limits.keepRecent, i))
  }

  lemma LeftAfterForgetting(ms: seq<Message>, p2: Progress, target: int, limits: Limits, world: World)
    requires PinnedUntouched(ms, p2.ms, PinnedIndices(ms, limits.keepRecent))
    ensures var pinned := PinnedIndices(ms, limits.keepRecent);
            var p3 := Forgetting(p2, pinned, target, limits, world);
            && PinnedTokens(ms, limits.keepRecent) <= SumTokens(p3.ms)
            && (AllArePinned(p3.ms, limits.keepRecent) ==>
                  OnlyPinnedLeft(ms, limits, p3, Survivors(p2, pinned, target, limits, world)))
            && (limits.enableForget ==> SumTokens(p3.ms) <= target || AllArePinned(p3.ms, limits.keepRecent))
            && (!limits.enableForget ==> (AllArePinned(p3.ms, limits.keepRecent) <==> AllArePinned(ms, limits.keepRecent)))
  {
    hide FirstUser, SumTokens, InRecentWindow, PinnedIndices, IsPinned, Forgetting, Survivors, Unpinned,
         PinnedTokens, PinnedUntouched, OnlyPinnedLeft;
    var k := limits.keepRecent;
    var pinned := PinnedIndices(ms, k);
    ShapeOf(ms, p2.ms, pinned);
    PinsFollowShape(ms, p2.ms, k);
    PinnedAgree(ms, p2.ms, k);
    var p3 := Forgetting(p2, pinned, target, limits, world);
    ForgettingIsSelection(p2, pinned, target, limits, world);
    PinnedOnly(ms, p2, p3, Survivors(p2, pinned, target, limits, world), limits);
    UnpinnedNoneIff(p3.ms, k);
    NoForgetting(p2, pinned, target, limits, world);
    if limits.enableForget {
      ForgettingEmpties(p2, pinned, target, limits, world);
    }
  }

  lemma OnlyPinnedTokens(ms: seq<Message>, limits: Limits, p3: Progress, idx: seq<nat>)
    requires OnlyPinnedLeft(ms, limits, p3, idx)
    ensures SumTokens(p3.ms) == PinnedTokens(ms, limits.keepRecent)
  {
  }

  lemma AfterForgetting(ms: seq<Message>, limits: Limits, world: World)
    requires limits.Valid() && limits.Triggers(SumTokens(ms))
    ensures var p2 := Prepared(ms, limits, world);
            var p3 := Forgetting(p2, PinnedIndices(ms, limits.keepRecent), limits.Target(), limits, world);
            && (SumTokens(p3.ms) > limits.Target() && Unpinned(p3.ms, PinnedIndices(p3.ms, limits.keepRecent)) == []
                <==> ReachesLastResort(ms, limits))
            && (ReachesLastResort(ms, limits) ==> OnlyPinnedLeft(ms, limits, p3, Provenance(ms, limits, world)))
            && (PinnedTokens(ms, limits.keepRecent) <= limits.Target() && limits.enableForget ==> SumTokens(p3.ms) <= limits.Target())
  {
    hide FirstUser, SumTokens, InRecentWindow, PinnedIndices, IsPinned, Prepared, Forgetting, Survivors, Unpinned,
         PinnedTokens, OnlyPinnedLeft, Limits.Triggers, Limits.Target;
    var p2 := Prepared(ms, limits, world);
    var pinned := PinnedIndices(ms, limits.keepRecent);
    var p3 := Forgetting(p2, pinned, limits.Target(), limits, world);
    PreparedKeeps(ms, limits, world);
    LeftAfterForgetting(ms, p2, limits.Target(), limits, world);
    UnpinnedNoneIff(p3.ms, limits.keepRecent);
    if AllArePinned(p3.ms, limits.keepRecent) {
      OnlyPinnedTokens(ms, limits, p3, Survivors(p2, pinned, limits.Target(), limits, world));
    }
  }

  // ---------------------------------------------------------------- the run

  /** The output of a run whose pinned messages exceed the target: the pinned messages, shortened from the oldest recent on. */
  function LastResortOf(ms: seq<Message>, keepRecent: nat, target: int): seq<Message> {
    PinnedWithin(ms, keepRecent);
    var left := Select(ms, PinnedIndices(ms, keepRecent));
    LastResort(left, keepRecent, FirstUser(left), PinnedTokens(ms, keepRecent), target)
  }

  /**
   A triggered run reaches the last resort exactly when the pinned messages alone exceed the target (and, without
   forgetting, are all there is). What it returns then does not depend on the summariser, the scores or the cold
   store. In every other run with forgetting enabled the target is met.
   */
  lemma PinnedDecide(ms: seq<Message>, limits: Limits, world: World)
    requires limits.Valid()
    ensures ReachesLastResort(ms, limits) ==>
              && Compressed(ms, limits, world).messages == LastResortOf(ms, limits.keepRecent, limits.Target())
              && Provenance(ms, limits, world) == PinnedIndices(ms, limits.keepRecent)
    ensures limits.Triggers(SumTokens(ms)) && limits.enableForget && !ReachesLastResort(ms, limits) ==>
              Compressed(ms, limits, world).tokensAfter <= limits.Target()
  {
    hide FirstUser, SumTokens, InRecentWindow, PinnedIndices, IsPinned, Deterministic, Summarise, Forgetting, Survivors,
         Unpinned, PinnedTokens, LastResort, BuildSummaryRequest, Forget, IntentTooBig, Provenance;
    if limits.Triggers(SumTokens(ms)) {
      CurrentPins(ms, limits, world);
      AfterForgetting(ms, limits, world);
    }
  }

  /** Stage 4 always sees the pins of the messages it works on. */
  lemma CurrentPins(ms: seq<Message>, limits: Limits, world: World)
    requires limits.Valid() && limits.Triggers(SumTokens(ms))
    ensures var p2 := Prepared(ms, limits, world);
            var p3 := Forgetting(p2, PinnedIndices(ms, limits.keepRecent), limits.Target(), limits, world);
            var p4 := Finish(p3, PinnedIndices(p3.ms, limits.keepRecent), limits.Target(), limits);
            && Compressed(ms, limits, world).messages == p4.ms
            && Compressed(ms, limits, world).tokensAfter == SumTokens(p4.ms)
            && Compressed(ms, limits, world).stages == p4.stages
  {
    hide FirstUser, SumTokens, InRecentWindow, PinnedIndices, Deterministic, Summarise, Forget, Finish, BuildSummaryRequest;
    PreparedKeeps(ms, limits, world);
    PinsFollowShape(ms, Prepared(ms, limits, world).ms, limits.keepRecent);
  }

  /** Some pinned message of the input comes back changed. */
  ghost predicate RewritesAPin(ms: seq<Message>, limits: Limits, world: World)
    requires limits.Valid()
  {
    var r, idx := Compressed(ms, limits, world).messages, Provenance(ms, limits, world);
    exists j :: 0 <= j < |idx| && j < |r| && idx[j] < |ms| && IsPinned(ms, limits.keepRecent, idx[j]) && r[j] != ms[idx[j]]
  }

  /**
   The head comment's promise that pinned messages stay untouched, exactly: it is broken when the pinned messages
   alone exceed the target, forgetting is enabled or there is nothing else, and some recent message other than the
   intent weighs more than 512 tokens and has more than 1834 characters.
   */
  lemma PinnedRewrittenIff(ms: seq<Message>, limits: Limits, world: World)
    requires limits.Valid()
    ensures RewritesAPin(ms, limits, world)
       <==> ReachesLastResort(ms, limits) && exists i :: 0 <= i < |ms| && Shortenable(ms, limits.keepRecent, i)
  {
    hide FirstUser, SumTokens, InRecentWindow, IsPinned, Provenance, Compressed, LastResort, PinnedTokens, PinnedIndices,
         Shortenable, ReachesLastResort;
    var k, target := limits.keepRecent, limits.Target();
    var pinned := PinnedIndices(ms, k);
    PinnedDecide(ms, limits, world);
    if ReachesLastResort(ms, limits) {
      PinnedWithin(ms, k);
      PinnedMembers(pinned, ms, k);
      var left := Select(ms, pinned);
      ReachedMeans(ms, limits);
      LastResortActsIff(left, k, PinnedTokens(ms, k), target);
      ShortenableKept(ms, k);
      var r := LastResortOf(ms, k, target);
      assert r == left <==> forall j :: 0 <= j < |left| ==> r[j] == left[j];
    } else {
      NotReachedKeeps(ms, limits, world);
    }
  }

  lemma ReachedMeans(ms: seq<Message>, limits: Limits)
    requires limits.Valid() && ReachesLastResort(ms, limits)
    ensures PinnedTokens(ms, limits.keepRecent) > limits.Target()
  {
  }

  /** What stage 4 can shorten among the pinned messages is what it could shorten in the input. */
  lemma ShortenableKept(ms: seq<Message>, k: nat)
    requires Within(PinnedIndices(ms, k), |ms|)
    ensures var left := Select(ms, PinnedIndices(ms, k));
            (exists j :: 0 <= j < |left| && Shortenable(left, k, j)) <==> exists i :: 0 <= i < |ms| && Shortenable(ms, k, i)
  {
    hide FirstUser, InRecentWindow, EstimateTokens;
    var pinned := PinnedIndices(ms, k);
    var left := Select(ms, pinned);
    WindowIsPinned(ms, k);
    IntentIsPinned(ms, k);
    FirstUserKept(ms, pinned);
    forall j | 0 <= j < |left|
      ensures Shortenable(left, k, j) <==> Shortenable(ms, k, pinned[j])
    {
      WindowKept(pinned, |ms|, k, j);
    }
    if i :| 0 <= i < |ms| && Shortenable(ms, k, i) {
      assert i in pinned;
      var j :| 0 <= j < |pinned| && pinned[j] == i;
      assert Shortenable(left, k, j);
    }
  }

  lemma NotReachedKeeps(ms: seq<Message>, limits: Limits, world: World)
    requires limits.Valid() && !ReachesLastResort(ms, limits)
    ensures !RewritesAPin(ms, limits, world)
  {
    hide FirstUser, SumTokens, InRecentWindow, IsPinned, PinnedTokens, PinnedIndices, ReachesLastResort, Deterministic,
         Summarise, Forgetting, Prepared, Survivors, LastResort, Unpinned, BuildSummaryRequest, Forget;
    if limits.Triggers(SumTokens(ms)) {
      var k, target := limits.keepRecent, limits.Target();
      var pinned := PinnedIndices(ms, k);
      var p2 := Prepared(ms, limits, world);
      PreparedKeeps(ms, limits, world);
      PinsFollowShape(ms, p2.ms, k);
      ForgettingIsSelection(p2, pinned, target, limits, world);
      CurrentPins(ms, limits, world);
      AfterForgetting(ms, limits, world);
      PinnedMembers(pinned, ms, k);
      PinnedIn(ms, k);
    }
  }

  lemma PinnedIn(ms: seq<Message>, keepRecent: nat)
    ensures forall i: nat :: IsPinned(ms, keepRecent, i) ==> i in PinnedIndices(ms, keepRecent)
  {
    hide IsPinned;
  }

  /** With forgetting, a run misses the target exactly when the pinned messages alone do so after the last resort. */
  lemma TargetMissedIff(ms: seq<Message>, limits: Limits, world: World)
    requires limits.Valid() && limits.enableForget && limits.Triggers(SumTokens(ms))
    ensures Compressed(ms, limits, world).tokensAfter > limits.Target()
       <==> PinnedTokens(ms, limits.keepRecent) > limits.Target()
            && SumTokens(LastResortOf(ms, limits.keepRecent, limits.Target())) > limits.Target()
  {
    hide SumTokens, Compressed, LastResortOf, PinnedTokens, IsPinned, Limits.Triggers, Limits.Target;
    PinnedDecide(ms, limits, world);
    AfterIsSum(ms, limits, world);
  }

  lemma AfterIsSum(ms: seq<Message>, limits: Limits, world: World)
    requires limits.Valid()
    ensures Compressed(ms, limits, world).tokensAfter == SumTokens(Compressed(ms, limits, world).messages)
  {
    hide SumTokens, PinnedIndices, Deterministic, Summarise, Forgetting, Finish, BuildSummaryRequest, IntentTooBig;
  }

  /** One explicitly pinned recent message of 4000 letters in a window of 1000 tokens comes back shortened. */
  lemma PinnedCanBeRewritten(enableForget: bool, world: World)
    ensures var ms := [Message("assistant", seq(4000, _ => 'a'), true)];
            RewritesAPin(ms, Limits(1000, 0.5, 0.25, 1, false, enableForget), world)
  {
    hide FirstUser, RewritesAPin, PinnedTokens, HeadTail;
    var m := Message("assistant", seq(4000, _ => 'a'), true);
    var ms, limits := [m], Limits(1000, 0.5, 0.25, 1, false, enableForget);
    AsciiCountAll(m.content);
    assert Tokens(m) == 1000;
    OneMessage(m, 1);
    PinnedRewrittenIff(ms, limits, world);
    assert Shortenable(ms, 1, 0);
  }

  lemma OneMessage(m: Message, keepRecent: nat)
    requires m.pinned
    ensures SumTokens([m]) == PinnedTokens([m], keepRecent) == Tokens(m)
    ensures AllArePinned([m], keepRecent)
    ensures m.role != "user" ==> FirstUser([m]) == 1
  {
    hide Tokens;
    AllIndices(1, (i: nat) => IsPinned([m], keepRecent, i));
    assert PinnedIndices([m], keepRecent) == [0];
    TokensSnoc([m], [], 0);
    assert [m][..0] == [];
  }

  // ---------------------------------------------------------------- what the last resort leaves of a text

  /** The message as it was, or shorter with its first 1200 and its last 600 characters. */
  ghost predicate KeepsEnds(a: Message, b: Message) {
    || b == a
    || (b.role == a.role && b.pinned == a.pinned
        && 1832 <= |b.content| < |a.content| && Tokens(b) <= Tokens(a) && Tokens(a) > 512
        && b.content[..1200] == a.content[..1200] && b.content[|b.content| - 600..] == a.content[|a.content| - 600..])
  }

  lemma TruncatedKeepsEnds(m: Message)
    requires HeadTail(m.content).Some?
    ensures KeepsEnds(m, m.(content := HeadTail(m.content).value))
  {
    hide EstimateTokens, HeadTail;
    HeadTailShrinks(m.content);
    HeadTailGuard(m.content);
  }

  lemma {:induction false} LastResortKeepsEnds(ms: seq<Message>, keepRecent: nat, intent: nat, total: int, target: int, i: nat)
    requires i < |ms|
    ensures KeepsEnds(ms[i], LastResort(ms, keepRecent, intent, total, target)[i])
    decreases TotalLength(ms)
  {
    hide HeadTail, InRecentWindow, EstimateTokens, Cut, TotalAt;
    var plan := RecentPlan(ms, keepRecent, intent);
    var cut := Cut(ms, plan, total, target, 0);
    RecentPlanShortens(ms, keepRecent, intent);
    RewritingShortens(ms, plan, cut);
    if total > target && Touched(plan, cut) {
      var next := Rewritten(ms, plan, cut);
      LastResortKeepsEnds(next, keepRecent, intent, TotalAt(ms, plan, total, cut), target, i);
      if plan[i].Some? {
        TruncatedKeepsEnds(ms[i]);
      }
    }
  }

  /** In a run that reaches the last resort every returned message is a pinned one of the input with both its ends. */
  lemma PinnedKeepEnds(ms: seq<Message>, limits: Limits, world: World)
    requires limits.Valid() && ReachesLastResort(ms, limits)
    ensures var r, idx := Compressed(ms, limits, world).messages, PinnedIndices(ms, limits.keepRecent);
            && |r| == |idx| && Within(idx, |ms|) && Provenance(ms, limits, world) == idx
            && forall j :: 0 <= j < |r| ==> KeepsEnds(ms[idx[j]], r[j])
  {
    hide FirstUser, SumTokens, InRecentWindow, IsPinned, Provenance, Compressed, LastResort, PinnedTokens, PinnedIndices,
         ReachesLastResort, KeepsEnds;
    var k, target := limits.keepRecent, limits.Target();
    PinnedDecide(ms, limits, world);
    PinnedWithin(ms, k);
    var left := Select(ms, PinnedIndices(ms, k));
    forall j | 0 <= j < |left|
      ensures KeepsEnds(left[j], LastResortOf(ms, k, target)[j])
    {
      LastResortKeepsEnds(left, k, FirstUser(left), PinnedTokens(ms, k), target, j);
    }
  }
}

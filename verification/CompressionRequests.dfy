/** The summary request a run leaves behind, and exactly when it no longer describes the returned messages. */
module CompressionRequests {
  import opened Wrappers
  import opened Text
  import opened Sorting
  import opened Compression
  import opened CompressionFacts
  import opened CompressionTheorems
  import opened CompressionStages
  import opened CompressionPins

  // ---------------------------------------------------------------- what changes the total

  lemma {:induction false} TokensOfPositive(ms: seq<Message>, idx: seq<nat>)
    requires Within(idx, |ms|)
    ensures TokensOf(ms, idx) >= |idx|
  {
    if |idx| > 0 {
      TokensOfPositive(ms, idx[..|idx| - 1]);
    }
  }

  lemma NothingToRequest(ms: seq<Message>, pinned: seq<nat>, total: int, target: int)
    requires Unpinned(ms, pinned) == []
    ensures BuildSummaryRequest(ms, pinned, total, target) == SummaryRequest(total, target, [])
  {
  }

  lemma UnpinnedByLength(a: seq<Message>, b: seq<Message>, pinned: seq<nat>)
    requires |a| == |b|
    ensures Unpinned(a, pinned) == Unpinned(b, pinned)
  {
  }

  lemma FinishRequest(p: Progress, pinned: seq<nat>, target: int, limits: Limits)
    ensures var q := Finish(p, pinned, target, limits).ms;
            && SumTokens(q) <= SumTokens(p.ms)
            && (SumTokens(q) == SumTokens(p.ms) ==>
                  BuildSummaryRequest(q, pinned, SumTokens(q), target) == BuildSummaryRequest(p.ms, pinned, SumTokens(q), target))
  {
    hide SumTokens, BuildSummaryRequest, LastResort, FirstUser, Unpinned;
    var q := Finish(p, pinned, target, limits).ms;
    LastResortNeverGrows(p.ms, limits.keepRecent, FirstUser(p.ms), SumTokens(p.ms), target);
    if Unpinned(p.ms, pinned) == [] {
      UnpinnedByLength(p.ms, q, pinned);
      NothingToRequest(p.ms, pinned, SumTokens(q), target);
      NothingToRequest(q, pinned, SumTokens(q), target);
    }
  }

  lemma ForgettingChangesTotal(p: Progress, pinned: seq<nat>, target: int, limits: Limits, world: World)
    ensures var q := Forgetting(p, pinned, target, limits, world).ms;
            SumTokens(q) <= SumTokens(p.ms) && (SumTokens(q) == SumTokens(p.ms) ==> q == p.ms)
  {
    hide SumTokens, TokensOf, Dropped, LostWithoutCopy;
    var drop := Dropped(p.ms, pinned, SumTokens(p.ms), target, world.score);
    ForgetTotalExact(p.ms, pinned, target, world);
    TokensOfPositive(p.ms, drop);
    if drop == [] {
      ForgetNothing(p.ms, pinned, SumTokens(p.ms), target, world, p.ms);
    }
  }

  // ---------------------------------------------------------------- when the last resort lowers the total

  /** Truncating this recent message, the intent apart, gains at least one token. */
  predicate Lightenable(ms: seq<Message>, keepRecent: nat, i: nat) {
    && i < |ms| && InRecentWindow(|ms|, keepRecent, i) && i != FirstUser(ms)
    && HeadTail(ms[i].content).Some?
    && EstimateTokens(HeadTail(ms[i].content).value) < EstimateTokens(ms[i].content)
  }

  lemma CutPaysOff(head: string, middle: string, tail: string, note: string)
    requires AllAscii(note) && |note| + 4 <= |middle|
    ensures EstimateTokens(head + note + tail) < EstimateTokens(head + middle + tail) || |head + middle + tail| < 8
  {
    AsciiCountConcat(head, note);
    AsciiCountConcat(head + note, tail);
    AsciiCountConcat(head, middle);
    AsciiCountConcat(head + middle, tail);
    AsciiCountAll(note);
  }

  /** A truncation that gains nothing is not repeated: it left out fewer than 100 characters. */
  lemma GainlessIsFinal(content: string)
    requires HeadTail(content).Some? && EstimateTokens(HeadTail(content).value) == EstimateTokens(content)
    ensures HeadTail(HeadTail(content).value).None?
  {
    hide Decimal, EstimateTokens, HeadTail;
    var v, n := HeadTail(content).value, |content|;
    HeadTailGuard(content);
    HeadTailGuard(v);
    DecimalLength(n - 1800);
    if n >= 1900 {
      var head, middle, tail := content[..1200], content[1200..n - 600], content[n - 600..];
      ElisionNoteLength(n - 1800);
      HeadTailParts(content);
      CutPaysOff(head, middle, tail, ElisionNote(n - 1800));
    }
  }

  lemma HeadTailParts(content: string)
    requires HeadTail(content).Some?
    ensures var n := |content|;
            && n > 1800
            && content == content[..1200] + content[1200..n - 600] + content[n - 600..]
            && HeadTail(content).value == content[..1200] + ElisionNote(n - 1800) + content[n - 600..]
  {
    hide EstimateTokens, Decimal, ElisionNote;
  }

  ghost predicate Gainless(ms: seq<Message>, plan: Plan)
    requires |plan| == |ms|
  {
    forall i :: 0 <= i < |ms| && plan[i].Some? ==> EstimateTokens(plan[i].value) == Tokens(ms[i])
  }

  lemma {:induction false} GainlessKeepsTotal(ms: seq<Message>, plan: Plan, total: int, cut: nat)
    requires |plan| == |ms| && cut <= |ms| && Gainless(ms, plan)
    ensures TotalAt(ms, plan, total, cut) == total
  {
    hide EstimateTokens, TotalAt;
    if cut == 0 {
      TotalStart(ms, plan, total);
    } else {
      GainlessKeepsTotal(ms, plan, total, cut - 1);
      TotalStep(ms, plan, total, cut - 1);
    }
  }

  /** Without a gain anywhere, the rounds end as heavy as they began. */
  lemma {:induction false} GainlessRounds(ms: seq<Message>, keepRecent: nat, intent: nat, total: int, target: int)
    requires Gainless(ms, RecentPlan(ms, keepRecent, intent))
    ensures SumTokens(LastResort(ms, keepRecent, intent, total, target)) == SumTokens(ms)
    decreases TotalLength(ms)
  {
    hide HeadTail, InRecentWindow, EstimateTokens, SumTokens;
    var plan := RecentPlan(ms, keepRecent, intent);
    var cut := Cut(ms, plan, total, target, 0);
    RecentPlanShortens(ms, keepRecent, intent);
    RewritingShortens(ms, plan, cut);
    GainlessKeepsTotal(ms, plan, total, cut);
    if total > target && Touched(plan, cut) {
      var next := Rewritten(ms, plan, cut);
      forall i | 0 <= i < |ms| && RecentPlan(next, keepRecent, intent)[i].Some?
        ensures EstimateTokens(RecentPlan(next, keepRecent, intent)[i].value) == Tokens(next[i])
      {
        if plan[i].Some? {
          GainlessIsFinal(ms[i].content);
        }
      }
      GainlessRounds(next, keepRecent, intent, TotalAt(ms, plan, total, cut), target);
    }
  }

  lemma {:induction false} OneGainLowers(ms: seq<Message>, plan: Plan, total: int, x: nat, cut: nat)
    requires |plan| == |ms| && x < cut <= |ms| && Lightens(ms, plan)
    requires plan[x].Some? && EstimateTokens(plan[x].value) < Tokens(ms[x])
    ensures TotalAt(ms, plan, total, cut) < total
  {
    hide EstimateTokens, TotalAt, SumTokens;
    TotalStep(ms, plan, total, cut - 1);
    if x == cut - 1 {
      LighteningTotal(ms, plan, total, x);
    } else {
      OneGainLowers(ms, plan, total, x, cut - 1);
    }
  }

  lemma LighteningTotal(ms: seq<Message>, plan: Plan, total: int, cut: nat)
    requires |plan| == |ms| && cut <= |ms| && Lightens(ms, plan)
    ensures TotalAt(ms, plan, total, cut) <= total
  {
    LighteningShrinks(ms, plan, cut);
  }

  /** Entered over the target, stage 4 lowers the total exactly when some recent message but the intent can be lightened. */
  lemma LastResortLightensIff(ms: seq<Message>, keepRecent: nat, target: int)
    requires SumTokens(ms) > target
    ensures SumTokens(LastResort(ms, keepRecent, FirstUser(ms), SumTokens(ms), target)) < SumTokens(ms)
       <==> exists i :: 0 <= i < |ms| && Lightenable(ms, keepRecent, i)
  {
    hide HeadTail, InRecentWindow, EstimateTokens, SumTokens, FirstUser, TotalAt, Cut;
    var total, intent := SumTokens(ms), FirstUser(ms);
    var plan := RecentPlan(ms, keepRecent, intent);
    var cut := Cut(ms, plan, total, target, 0);
    RecentLightens(ms, keepRecent, intent);
    if i :| 0 <= i < |ms| && Lightenable(ms, keepRecent, i) {
      FirstIsCarriedOut(ms, plan, total, target, i);
      var next := Rewritten(ms, plan, cut);
      NextTotal(ms, plan, total, cut);
      LastResortNeverGrows(next, keepRecent, intent, TotalAt(ms, plan, total, cut), target);
      if cut == |ms| {
        OneGainLowers(ms, plan, total, i, cut);
      }
    } else {
      forall i | 0 <= i < |ms| && plan[i].Some?
        ensures EstimateTokens(plan[i].value) == Tokens(ms[i])
      {
        assert !Lightenable(ms, keepRecent, i);
      }
      GainlessRounds(ms, keepRecent, intent, total, target);
    }
  }

  lemma NextTotal(ms: seq<Message>, plan: Plan, total: int, cut: nat)
    requires |plan| == |ms| && total == SumTokens(ms)
    ensures SumTokens(Rewritten(ms, plan, cut)) == TotalAt(ms, plan, total, cut)
  {
  }

  // ---------------------------------------------------------------- the stale request

  /**
   The summariser is asked but leaves its request behind, and a later stage changes what the request describes:
   either nothing but pinned messages exists and the last resort gains something, or the summariser gives no answer
   and forgetting drops a message.
   */
  ghost predicate StaleGuard(ms: seq<Message>, limits: Limits, world: World)
    requires limits.Valid()
  {
    var pinned := PinnedIndices(ms, limits.keepRecent);
    && limits.Triggers(SumTokens(ms))
    && SumTokens(Deterministic(ms, pinned, limits.Target()).ms) > limits.Target() && limits.enableLlm && world.hermesAvailable
    && if AllArePinned(ms, limits.keepRecent) then exists i :: 0 <= i < |ms| && Lightenable(ms, limits.keepRecent, i)
       else world.reply.None? && limits.enableForget
  }

  /** Stage 1 leaves a conversation of pinned messages alone. */
  lemma AllPinnedUntouched(ms: seq<Message>, keepRecent: nat, target: int)
    requires AllArePinned(ms, keepRecent)
    ensures Deterministic(ms, PinnedIndices(ms, keepRecent), target).ms == ms
  {
    hide IsPinned, Deterministic;
    DeterministicKeeps(ms, PinnedIndices(ms, keepRecent), target);
    PinnedIn(ms, keepRecent);
  }

  lemma RequestEmptyIff(ms: seq<Message>, pinned: seq<nat>, total: int, target: int)
    ensures BuildSummaryRequest(ms, pinned, total, target).indices == [] <==> Unpinned(ms, pinned) == []
  {
    hide HeavierFirst, Unpinned;
    RequestNamesTheHeaviest(ms, pinned, total, target);
  }

  /** A request is left behind exactly when the summariser was asked and had nothing to answer or did not. */
  lemma PendingIff(p: Progress, pinned: seq<nat>, target: int, limits: Limits, world: World)
    ensures PendingRequest(p, pinned, target, limits, world).Some?
       <==> AsksOracle(p, target, limits, world) && (Unpinned(p.ms, pinned) == [] || world.reply.None?)
    ensures PendingRequest(p, pinned, target, limits, world).Some? ==>
              && Summarise(p, pinned, target, limits, world) == p
              && PendingRequest(p, pinned, target, limits, world).value == BuildSummaryRequest(p.ms, pinned, SumTokens(p.ms), target)
              && SumTokens(p.ms) > target
  {
    hide BuildSummaryRequest, Unpinned, SumTokens, ApplySummaries;
    RequestEmptyIff(p.ms, pinned, SumTokens(p.ms), target);
  }

  /** Entered over the target with an unpinned message left, forgetting lowers the total. */
  lemma ForgettingLowersIff(p: Progress, pinned: seq<nat>, target: int, limits: Limits, world: World)
    requires SumTokens(p.ms) > target
    ensures var q := Forgetting(p, pinned, target, limits, world);
            SumTokens(q.ms) < SumTokens(p.ms) <==> limits.enableForget && Unpinned(p.ms, pinned) != []
  {
    hide SumTokens, TokensOf, LostWithoutCopy, LessImportant;
    var drop := Dropped(p.ms, pinned, SumTokens(p.ms), target, world.score);
    ForgetTotalExact(p.ms, pinned, target, world);
    TokensOfPositive(p.ms, drop);
    DroppedDistinct(p.ms, pinned, SumTokens(p.ms), target, world.score);
    if Unpinned(p.ms, pinned) != [] {
      var order := DropOrder(p.ms, pinned, world.score);
      SomeIsDropped(p.ms, pinned, target, world, order);
    } else {
      NothingIsDropped(p.ms, pinned, target, world);
      NothingWeighs(p.ms, drop);
    }
  }

  lemma NothingIsDropped(ms: seq<Message>, pinned: seq<nat>, target: int, world: World)
    requires Unpinned(ms, pinned) == []
    ensures Dropped(ms, pinned, SumTokens(ms), target, world.score) == []
  {
    hide SumTokens, LessImportant;
  }

  lemma NothingWeighs(ms: seq<Message>, drop: seq<nat>)
    requires drop == []
    ensures TokensOf(ms, drop) == 0
  {
  }

  lemma SomeIsDropped(ms: seq<Message>, pinned: seq<nat>, target: int, world: World, order: seq<nat>)
    requires SumTokens(ms) > target && Unpinned(ms, pinned) != [] && order == DropOrder(ms, pinned, world.score)
    ensures Dropped(ms, pinned, SumTokens(ms), target, world.score) != []
  {
    hide SumTokens, LessImportant;
    assert Unpinned(ms, pinned)[0] in Unpinned(ms, pinned);
    assert Unpinned(ms, pinned)[0] in order;
    NothingWeighs(ms, order[..0]);
    assert DropCount(ms, order, SumTokens(ms), target, 0) > 0;
  }

  /** How the total moves from an unanswered summariser to the end of the run. */
  lemma TotalMovesIff(p: Progress, pinned: seq<nat>, target: int, limits: Limits, world: World)
    requires SumTokens(p.ms) > target && pinned == PinnedIndices(p.ms, limits.keepRecent)
    ensures var p3 := Forgetting(p, pinned, target, limits, world);
            var p4 := Finish(p3, PinnedIndices(p3.ms, limits.keepRecent), target, limits);
            (SumTokens(p4.ms) < SumTokens(p.ms)
             <==> if AllArePinned(p.ms, limits.keepRecent) then exists i :: 0 <= i < |p.ms| && Lightenable(p.ms, limits.keepRecent, i)
                  else limits.enableForget)
  {
    hide SumTokens, Forgetting, IsPinned, PinnedIndices, Unpinned, LastResort, FirstUser, BuildSummaryRequest;
    var k := limits.keepRecent;
    var p3 := Forgetting(p, pinned, target, limits, world);
    var pinned' := PinnedIndices(p3.ms, k);
    ForgettingLowersIff(p, pinned, target, limits, world);
    ForgettingChangesTotal(p, pinned, target, limits, world);
    UnpinnedNoneIff(p.ms, k);
    FinishRequest(p3, pinned', target, limits);
    if AllArePinned(p.ms, k) {
      LastResortLightensIff(p.ms, k, target);
    }
  }

  /** What the stages after an unanswered summariser leave, and the request that came with it. */
  lemma UnansweredRequest(ms: seq<Message>, limits: Limits, world: World, p: Progress)
    requires limits.Valid() && limits.Triggers(SumTokens(ms))
    requires var pinned := PinnedIndices(ms, limits.keepRecent);
             && p == Deterministic(ms, pinned, limits.Target())
             && PendingRequest(p, pinned, limits.Target(), limits, world).Some?
    ensures var pinned := PinnedIndices(ms, limits.keepRecent);
            var p3 := Forgetting(p, pinned, limits.Target(), limits, world);
            var p4 := Finish(p3, PinnedIndices(p3.ms, limits.keepRecent), limits.Target(), limits);
            var r := Compressed(ms, limits, world);
            && r.messages == p4.ms && r.tokensAfter == SumTokens(p4.ms)
            && r.summaryRequest == Some(BuildSummaryRequest(p.ms, pinned, SumTokens(p.ms), limits.Target()))
  {
    hide SumTokens, PinnedIndices, Deterministic, Summarise, PendingRequest, Forgetting, Finish, IntentTooBig, AsksOracle,
         BuildSummaryRequest, Limits.Triggers, Limits.Target;
    PendingIff(p, PinnedIndices(ms, limits.keepRecent), limits.Target(), limits, world);
    CurrentPins(ms, limits, world);
  }

  lemma RequestTotal(ms: seq<Message>, pinned: seq<nat>, total: int, target: int)
    ensures BuildSummaryRequest(ms, pinned, total, target).currentTokens == total
  {
  }

  /** A request left behind is stale exactly when the total has moved since. */
  lemma UnansweredIsStaleIff(ms: seq<Message>, limits: Limits, world: World, p: Progress)
    requires limits.Valid() && limits.Triggers(SumTokens(ms))
    requires var pinned := PinnedIndices(ms, limits.keepRecent);
             && pinned == PinnedIndices(p.ms, limits.keepRecent)
             && p == Deterministic(ms, pinned, limits.Target())
             && PendingRequest(p, pinned, limits.Target(), limits, world).Some?
    ensures var r := Compressed(ms, limits, world);
            && r.summaryRequest.Some?
            && (r.summaryRequest.value != BuildSummaryRequest(r.messages, r.pinned, r.tokensAfter, limits.Target())
                <==> if AllArePinned(p.ms, limits.keepRecent) then exists i :: 0 <= i < |p.ms| && Lightenable(p.ms, limits.keepRecent, i)
                     else limits.enableForget)
  {
    hide SumTokens, PinnedIndices, Deterministic, PendingRequest, Forgetting, Finish, BuildSummaryRequest, Compressed,
         Lightenable, AllArePinned, Limits.Triggers, Limits.Target;
    var k, target := limits.keepRecent, limits.Target();
    var pinned := PinnedIndices(ms, k);
    var r := Compressed(ms, limits, world);
    UnansweredRequest(ms, limits, world, p);
    ReportedPinsAreCurrent(ms, limits, world);
    PendingIff(p, pinned, target, limits, world);
    TotalMovesIff(p, pinned, target, limits, world);
    var p3 := Forgetting(p, pinned, target, limits, world);
    ForgettingChangesTotal(p, pinned, target, limits, world);
    FinishRequest(p3, PinnedIndices(p3.ms, k), target, limits);
    FinishPins(p3, PinnedIndices(p3.ms, k), target, limits);
    RequestTotal(p.ms, pinned, SumTokens(p.ms), target);
    RequestTotal(r.messages, r.pinned, r.tokensAfter, target);
  }

  lemma FinishPins(p: Progress, pinned: seq<nat>, target: int, limits: Limits)
    ensures PinnedIndices(Finish(p, pinned, target, limits).ms, limits.keepRecent) == PinnedIndices(p.ms, limits.keepRecent)
  {
    hide FirstUser, Finish, PinnedIndices;
    FinishKeeps(p, pinned, target, limits);
    PinsFollowShape(p.ms, Finish(p, pinned, target, limits).ms, limits.keepRecent);
  }

  /** Every other request is built from the returned messages. */
  lemma FreshRequest(ms: seq<Message>, limits: Limits, world: World)
    requires limits.Valid()
    requires var pinned := PinnedIndices(ms, limits.keepRecent);
             limits.Triggers(SumTokens(ms)) ==>
               PendingRequest(Deterministic(ms, pinned, limits.Target()), pinned, limits.Target(), limits, world).None?
    ensures var r := Compressed(ms, limits, world);
            && (limits.Triggers(SumTokens(ms)) && r.tokensAfter > limits.Target() ==> r.summaryRequest.Some?)
            && (r.summaryRequest.Some? ==>
                  r.summaryRequest.value == BuildSummaryRequest(r.messages, r.pinned, r.tokensAfter, limits.Target()))
  {
    hide SumTokens, PinnedIndices, Deterministic, Summarise, PendingRequest, Forgetting, Finish, IntentTooBig,
         BuildSummaryRequest, Limits.Triggers, Limits.Target;
  }

  /**
   A run over the target always carries a summary request. It describes the returned messages unless the summariser
   was asked and left it behind, and the last resort (all messages pinned) or forgetting (otherwise) lowered the
   total since: exactly then it is stale.
   */
  lemma RequestIsStaleIff(ms: seq<Message>, limits: Limits, world: World)
    requires limits.Valid()
    ensures var r := Compressed(ms, limits, world);
            && (limits.Triggers(SumTokens(ms)) && r.tokensAfter > limits.Target() ==> r.summaryRequest.Some?)
            && (r.summaryRequest.Some? && r.summaryRequest.value != BuildSummaryRequest(r.messages, r.pinned, r.tokensAfter, limits.Target())
                <==> StaleGuard(ms, limits, world))
  {
    hide SumTokens, PinnedIndices, Deterministic, PendingRequest, BuildSummaryRequest, Lightenable, Unpinned,
         AllArePinned, Compressed, Limits.Triggers, Limits.Target;
    var k, target := limits.keepRecent, limits.Target();
    var pinned := PinnedIndices(ms, k);
    var p := Deterministic(ms, pinned, target);
    if limits.Triggers(SumTokens(ms)) {
      DeterministicKeeps(ms, pinned, target);
      PinsFollowShape(ms, p.ms, k);
      PendingIff(p, pinned, target, limits, world);
      UnpinnedNoneIff(p.ms, k);
      SamePins(ms, p.ms, k);
      if PendingRequest(p, pinned, target, limits, world).Some? {
        if AllArePinned(ms, k) {
          AllPinnedUntouched(ms, k, target);
        }
        UnansweredIsStaleIff(ms, limits, world, p);
      } else {
        FreshRequest(ms, limits, world);
      }
    } else {
      FreshRequest(ms, limits, world);
    }
  }

  lemma SamePins(a: seq<Message>, b: seq<Message>, keepRecent: nat)
    requires SameShape(a, b)
    ensures AllArePinned(a, keepRecent) <==> AllArePinned(b, keepRecent)
  {
    hide IsPinned;
    PinnedAgree(a, b, keepRecent);
  }

  /** A long prompt and a short answer, no reply: the request still names the answer that forgetting then drops. */
  lemma RequestCanBeStale(score: (nat, Message, nat) -> real, backsUp: (nat, string) -> bool)
    ensures var ms := [Message("user", seq(4000, _ => 'a'), false), Message("assistant", "noted", false)];
            var r := Compressed(ms, Limits(1000, 0.5, 0.25, 0, true, true), World(true, None, score, backsUp));
            && r.summaryRequest.Some?
            && r.summaryRequest.value != BuildSummaryRequest(r.messages, r.pinned, r.tokensAfter, 250)
  {
    hide EstimateTokens, SumTokens, Deterministic, Compressed, BuildSummaryRequest;
    var prompt, answer := Message("user", seq(4000, _ => 'a'), false), Message("assistant", "noted", false);
    var ms, limits := [prompt, answer], Limits(1000, 0.5, 0.25, 0, true, true);
    var pinned := PinnedIndices(ms, 0);
    LongPrompt(prompt);
    assert ms[0].role == "user";
    assert FirstUser(ms) == 0;
    assert IsPinned(ms, 0, 0) && !IsPinned(ms, 0, 1);
    DeterministicKeeps(ms, pinned, 250);
    SumAtLeast(ms, 0);
    SumAtLeast(Deterministic(ms, pinned, 250).ms, 0);
    assert limits.Target() == 250;
    RequestIsStaleIff(ms, limits, World(true, None, score, backsUp));
  }

  lemma LongPrompt(m: Message)
    requires m.content == seq(4000, _ => 'a')
    ensures Tokens(m) == 1000
  {
    AsciiCountAll(m.content);
  }
}

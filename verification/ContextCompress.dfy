/**
 Context compression as it runs: message objects whose content is overwritten in place while a running token
 total is carried along, proved against the value-level `Compression`.
 */
module ContextCompress {
  import opened Wrappers
  import opened Text
  import opened Sorting
  import opened Compression
  import opened CompressionFacts
  import opened CompressionTheorems

  class Msg {
    const role: string
    const pinned: bool
    var content: string

    constructor (m: Message)
      ensures Val() == m
    {
      role, content, pinned := m.role, m.content, m.pinned;
    }

    function Val(): Message
      reads this
    {
      Message(role, content, pinned)
    }
  }

  function Values(msgs: seq<Msg>): (r: seq<Message>)
    reads msgs
    ensures |r| == |msgs|
  {
    seq(|msgs|, i requires 0 <= i < |msgs| reads msgs => msgs[i].Val())
  }

  ghost predicate Distinct(msgs: seq<Msg>) {
    forall i, j :: 0 <= i < j < |msgs| ==> msgs[i] != msgs[j]
  }

  /** Overwriting one content changes one value. */
  method Overwrite(msgs: seq<Msg>, i: nat, content: string)
    requires Distinct(msgs) && i < |msgs|
    modifies msgs[i]
    ensures Values(msgs) == old(Values(msgs))[i := old(Values(msgs))[i].(content := content)]
  {
    msgs[i].content := content;
  }

  method StageTruncate(msgs: seq<Msg>, pinned: seq<nat>, total0: int, target: int) returns (total: int, changed: bool)
    requires Distinct(msgs)
    modifies msgs
    ensures var was := old(Values(msgs)); var plan := TruncatePlan(was, pinned);
            && Values(msgs) == Stage(was, plan, total0, target)
            && total == total0 - SumTokens(was) + SumTokens(Values(msgs))
            && changed == Touched(plan, Cut(was, plan, total0, target, 0))
  {
    hide Strip, EstimateTokens, HeadTail, Digest, DuplicateNote, SumTokens, Rewritten, TotalAt, Cut, Stage;
    ghost var was := Values(msgs);
    ghost var plan := TruncatePlan(was, pinned);
    total, changed := total0, false;
    var idx := 0;
    TotalStart(was, plan, total0);
    while idx < |msgs|
      invariant 0 <= idx <= |msgs|
      invariant Values(msgs) == Rewritten(was, plan, idx)
      invariant total == TotalAt(was, plan, total0, idx)
      invariant forall j :: 0 <= j < idx ==> TotalAt(was, plan, total0, j) > target
      invariant changed == Touched(plan, idx)
    {
      if total <= target {
        break;
      }
      RewrittenStep(was, plan, idx);
      TotalStep(was, plan, total0, idx);
      assert Values(msgs)[idx] == was[idx];
      if idx !in pinned {
        var replacement := HeadTail(msgs[idx].content);
        if replacement.Some? {
          total := total - EstimateTokens(msgs[idx].content) + EstimateTokens(replacement.value);
          Overwrite(msgs, idx, replacement.value);
          changed := true;
        }
      }
      idx := idx + 1;
    }
    CutIs(was, plan, total0, target, idx);
  }

  /** `seen` gives, for every long enough trimmed text so far, the first index that holds it. */
  ghost predicate Seen(ms: seq<Message>, seen: map<string, nat>, n: nat)
    requires n <= |ms|
  {
    && (forall t :: t in seen ==> seen[t] < n && Strip(ms[seen[t]].content) == t)
    && (forall j :: 0 <= j < n && |Strip(ms[j].content)| >= DEDUP_MIN_CHARS ==>
          Strip(ms[j].content) in seen && seen[Strip(ms[j].content)] <= j)
  }

  lemma SeenFirst(ms: seq<Message>, seen: map<string, nat>, idx: nat)
    requires idx < |ms| && Seen(ms, seen, idx)
    ensures var t := Strip(ms[idx].content);
            if |t| < DEDUP_MIN_CHARS then Seen(ms, seen, idx + 1)
            else if t in seen then Seen(ms, seen, idx + 1) && FirstSame(ms, idx, 0) == seen[t] < idx
            else Seen(ms, seen[t := idx], idx + 1) && FirstSame(ms, idx, 0) == idx
  {
    hide Strip;
  }

  lemma DedupPlanAt(ms: seq<Message>, pinned: seq<nat>, i: nat)
    requires i < |ms|
    ensures DedupPlan(ms, pinned)[i] ==
              if |Strip(ms[i].content)| < DEDUP_MIN_CHARS || FirstSame(ms, i, 0) == i || i in pinned then None
              else Some(DuplicateNote(FirstSame(ms, i, 0)))
  {
    hide Strip, FirstSame, DuplicateNote;
  }

  lemma TouchedNothing(plan: Plan)
    ensures !Touched(plan, 0)
  {
  }

  lemma TouchedStep(plan: Plan, cut: nat)
    requires cut < |plan|
    ensures Touched(plan, cut + 1) == (Touched(plan, cut) || plan[cut].Some?)
  {
  }

  lemma SeenNothing(ms: seq<Message>)
    ensures Seen(ms, map[], 0)
  {
  }

  method StageDedup(msgs: seq<Msg>, pinned: seq<nat>, total0: int, target: int) returns (total: int, changed: bool)
    requires Distinct(msgs)
    modifies msgs
    ensures var was := old(Values(msgs)); var plan := DedupPlan(was, pinned);
            && Values(msgs) == Stage(was, plan, total0, target)
            && total == total0 - SumTokens(was) + SumTokens(Values(msgs))
            && changed == Touched(plan, Cut(was, plan, total0, target, 0))
  {
    hide Strip, EstimateTokens, HeadTail, Digest, DuplicateNote, SumTokens, Rewritten, TotalAt, Cut, Stage, Seen, FirstSame, DedupPlan, Touched;
    ghost var was := Values(msgs);
    ghost var plan := DedupPlan(was, pinned);
    ghost var cut := 0;
    total, changed := total0, false;
    var seen: map<string, nat> := map[];
    SeenNothing(was);
    TouchedNothing(plan);
    TotalStart(was, plan, total0);
    for idx := 0 to |msgs|
      invariant Values(msgs) == Rewritten(was, plan, cut)
      invariant total == TotalAt(was, plan, total0, cut)
      invariant cut <= idx && (cut < idx ==> total <= target)
      invariant forall j :: 0 <= j < cut ==> TotalAt(was, plan, total0, j) > target
      invariant changed == Touched(plan, cut)
      invariant Seen(was, seen, idx)
    {
      RewrittenRest(was, plan, cut, idx);
      assert Values(msgs)[idx] == was[idx];
      var trimmed := Strip(msgs[idx].content);
      if cut == idx && total > target {
        RewrittenStep(was, plan, idx);
        TotalStep(was, plan, total0, idx);
      }
      ghost var reached := cut == idx && total > target;
      SeenFirst(was, seen, idx);
      DedupPlanAt(was, pinned, idx);
      TouchedStep(plan, idx);
      if |trimmed| >= DEDUP_MIN_CHARS {
        if trimmed in seen {
          if total > target && idx !in pinned {
            var replacement := DuplicateNote(seen[trimmed]);
            total := total - EstimateTokens(msgs[idx].content) + EstimateTokens(replacement);
            Overwrite(msgs, idx, replacement);
            changed := true;
          }
        } else {
          seen := seen[trimmed := idx];
        }
      }
      if reached {
        cut := idx + 1;
      }
    }
    CutIs(was, plan, total0, target, cut);
  }

  method StageDigest(msgs: seq<Msg>, pinned: seq<nat>, total0: int, target: int) returns (total: int, changed: bool)
    requires Distinct(msgs)
    modifies msgs
    ensures var was := old(Values(msgs)); var plan := DigestPlan(was, pinned);
            && Values(msgs) == Stage(was, plan, total0, target)
            && total == total0 - SumTokens(was) + SumTokens(Values(msgs))
            && changed == Touched(plan, Cut(was, plan, total0, target, 0))
  {
    hide Strip, EstimateTokens, HeadTail, Digest, DuplicateNote, SumTokens, Rewritten, TotalAt, Cut, Stage;
    ghost var was := Values(msgs);
    ghost var plan := DigestPlan(was, pinned);
    total, changed := total0, false;
    var idx := 0;
    TotalStart(was, plan, total0);
    while idx < |msgs|
      invariant 0 <= idx <= |msgs|
      invariant Values(msgs) == Rewritten(was, plan, idx)
      invariant total == TotalAt(was, plan, total0, idx)
      invariant forall j :: 0 <= j < idx ==> TotalAt(was, plan, total0, j) > target
      invariant changed == Touched(plan, idx)
    {
      if total <= target {
        break;
      }
      RewrittenStep(was, plan, idx);
      TotalStep(was, plan, total0, idx);
      assert Values(msgs)[idx] == was[idx];
      if idx !in pinned {
        var tokens := EstimateTokens(msgs[idx].content);
        var replacement := Digest(msgs[idx].Val());
        var newTokens := EstimateTokens(replacement);
        if newTokens < tokens {
          total := total - tokens + newTokens;
          Overwrite(msgs, idx, replacement);
          changed := true;
        }
      }
      idx := idx + 1;
    }
    CutIs(was, plan, total0, target, idx);
  }

  /** One pass of the last resort over the recent window, stopping as soon as the target is met. */
  method TruncateRound(msgs: seq<Msg>, keepRecent: nat, intent: nat, total0: int, target: int)
    returns (total: int, progressed: bool)
    requires Distinct(msgs)
    modifies msgs
    ensures var was := old(Values(msgs)); var plan := RecentPlan(was, keepRecent, intent);
            var cut := Cut(was, plan, total0, target, 0);
            && Values(msgs) == Rewritten(was, plan, cut)
            && total == TotalAt(was, plan, total0, cut)
            && progressed == Touched(plan, cut)
  {
    hide Strip, EstimateTokens, HeadTail, Digest, DuplicateNote, SumTokens, Rewritten, TotalAt, Cut, Stage;
    ghost var was := Values(msgs);
    ghost var plan := RecentPlan(was, keepRecent, intent);
    total, progressed := total0, false;
    var start := Max(0, |msgs| - keepRecent);
    var idx := start;
    TotalStart(was, plan, total0);
    UntouchedPrefix(was, plan, total0, start);
    if total0 <= target {
      CutIs(was, plan, total0, target, 0);
      return;
    }
    while idx < |msgs|
      invariant start <= idx <= |msgs|
      invariant Values(msgs) == Rewritten(was, plan, idx)
      invariant total == TotalAt(was, plan, total0, idx)
      invariant forall j :: 0 <= j < idx ==> TotalAt(was, plan, total0, j) > target
      invariant progressed == Touched(plan, idx)
    {
      if total <= target {
        break;
      }
      RewrittenStep(was, plan, idx);
      TotalStep(was, plan, total0, idx);
      assert Values(msgs)[idx] == was[idx];
      if idx != intent {
        var replacement := HeadTail(msgs[idx].content);
        if replacement.Some? {
          total := total - EstimateTokens(msgs[idx].content) + EstimateTokens(replacement.value);
          Overwrite(msgs, idx, replacement.value);
          progressed := true;
        }
      }
      idx := idx + 1;
    }
    CutIs(was, plan, total0, target, idx);
  }

  /** `_stage_truncate_pinned_recent`: rounds until the target is met or nothing shortens any more. */
  method StageTruncatePinnedRecent(msgs: seq<Msg>, keepRecent: nat, total0: int, target: int, intent: nat)
    returns (total: int, changed: bool)
    requires Distinct(msgs)
    modifies msgs
    ensures var was := old(Values(msgs));
            && Values(msgs) == LastResort(was, keepRecent, intent, total0, target)
            && total == total0 - SumTokens(was) + SumTokens(Values(msgs))
            && changed == (Values(msgs) != was)
  {
    ghost var was := Values(msgs);
    total, changed := total0, false;
    var progressed := true;
    while total > target && progressed
      invariant total == total0 - SumTokens(was) + SumTokens(Values(msgs))
      invariant progressed ==> LastResort(was, keepRecent, intent, total0, target)
                               == LastResort(Values(msgs), keepRecent, intent, total, target)
      invariant !progressed ==> LastResort(was, keepRecent, intent, total0, target) == Values(msgs)
      invariant changed ==> TotalLength(Values(msgs)) < TotalLength(was)
      invariant !changed ==> Values(msgs) == was
      decreases progressed, TotalLength(Values(msgs))
    {
      ghost var now := Values(msgs);
      ghost var plan := RecentPlan(now, keepRecent, intent);
      RewritingShortens(now, plan, Cut(now, plan, total, target, 0));
      total, progressed := TruncateRound(msgs, keepRecent, intent, total, target);
      changed := changed || progressed;
    }
  }

  lemma {:induction false} UntouchedPrefix(ms: seq<Message>, plan: Plan, total: int, cut: nat)
    requires |plan| == |ms| && cut <= |ms|
    requires forall i :: 0 <= i < cut ==> plan[i].None?
    ensures forall j :: 0 <= j <= cut ==> Rewritten(ms, plan, j) == ms && TotalAt(ms, plan, total, j) == total
  {
    forall j | 0 <= j <= cut
      ensures Rewritten(ms, plan, j) == ms && TotalAt(ms, plan, total, j) == total
    {
      assert Rewritten(ms, plan, j) == ms;
    }
  }

  // ---------------------------------------------------------------- pinned indices

  /** `_pinned_indices`: explicit pins, then the intent, then the recent window, then sorted. */
  method CollectPinned(msgs: seq<Msg>, keepRecent: nat) returns (pinned: seq<nat>)
    ensures pinned == PinnedIndices(Values(msgs), keepRecent)
  {
    hide FirstUser;
    ghost var ms := Values(msgs);
    pinned := [];
    for idx := 0 to |msgs|
      invariant NoDuplicates(pinned)
      invariant forall i: nat :: i in pinned <==> i < idx && ms[i].pinned
    {
      assert ms[idx].pinned == msgs[idx].pinned;
      if msgs[idx].pinned {
        pinned := Append(pinned, idx);
      }
    }
    var firstUser := FirstUser(Values(msgs));
    if firstUser < |msgs| && firstUser !in pinned {
      pinned := Append(pinned, firstUser);
    }
    var start := Max(0, |msgs| - keepRecent);
    for idx := start to |msgs|
      invariant NoDuplicates(pinned)
      invariant forall i: nat :: i in pinned <==> i < |ms| && (ms[i].pinned || i == FirstUser(ms) || start <= i < idx)
    {
      if idx !in pinned {
        pinned := Append(pinned, idx);
      }
    }
    ghost var collected := pinned;
    pinned := Sort(pinned, NatLe());
    SortedIndicesUnique(collected, PinnedIndices(ms, keepRecent));
  }

  function Append(s: seq<nat>, x: nat): (r: seq<nat>)
    requires NoDuplicates(s) && x !in s
    ensures NoDuplicates(r) && forall i :: i in r <==> i in s || i == x
  {
    s + [x]
  }

  /** Sorting indices without repetition gives the strictly increasing sequence of the same indices. */
  lemma SortedIndicesUnique(s: seq<nat>, r: seq<nat>)
    requires NoDuplicates(s) && StrictlyIncreasing(r)
    requires forall i: nat :: i in s <==> i in r
    ensures Sort(s, NatLe()) == r
  {
    var t := Sort(s, NatLe());
    SortSorted(s, NatLe());
    SortMembers(s, NatLe());
    SortNoDuplicates(s, NatLe());
    forall i, j | 0 <= i < j < |t|
      ensures t[i] < t[j]
    {
      assert NatLe()(t[i], t[j]);
    }
    forall j | 0 <= j < |t|
      ensures t[j] in r
    {
      assert t[j] in t;
    }
    IncreasingUnique(t, r);
  }

  // ---------------------------------------------------------------- summaries

  method WriteSummaries(msgs: seq<Msg>, pinned: seq<nat>, reply: seq<(int, string)>, total0: int) returns (total: int)
    requires Distinct(msgs)
    modifies msgs
    ensures CarriesSummaries(old(Values(msgs)), Values(msgs), pinned, reply)
    ensures Values(msgs) == ApplySummaries(old(Values(msgs)), pinned, reply)
    ensures total == total0 - SumTokens(old(Values(msgs))) + SumTokens(Values(msgs))
  {
    hide EstimateTokens, SumTokens, CarriesSummaries;
    ghost var was := Values(msgs);
    total := total0;
    for k := 0 to |reply|
      invariant Values(msgs) == ApplySummaries(was, pinned, reply[..k])
      invariant total == total0 - SumTokens(was) + SumTokens(Values(msgs))
    {
      assert reply[..k + 1][..k] == reply[..k];
      var (idx, summary) := reply[k];
      if 0 <= idx < |msgs| && idx !in pinned {
        ghost var now := Values(msgs);
        assert now[idx] == msgs[idx].Val();
        SumUpdate(now, idx, now[idx].(content := summary));
        total := total - EstimateTokens(msgs[idx].content) + EstimateTokens(summary);
        Overwrite(msgs, idx, summary);
      }
    }
    assert reply[..|reply|] == reply;
    SummariesAreCarried(was, pinned, reply);
  }

  // ---------------------------------------------------------------- forgetting

  /** `apply_hybrid_forget`: the surviving message objects, and what the caller is told. */
  method HybridForget(msgs: seq<Msg>, pinned: seq<nat>, total0: int, target: int, world: World)
    returns (kept: seq<Msg>, total: int, dropped: seq<nat>, withoutBackup: bool, overPinnedOnly: bool)
    ensures var f := Forget(Values(msgs), pinned, total0, target, world);
            && kept == Select(msgs, f.kept)
            && total == f.tokensAfter && dropped == f.dropped
            && withoutBackup == f.droppedWithoutBackup && overPinnedOnly == f.overTargetPinnedOnly
  {
    ghost var ms := Values(msgs);
    ghost var f := Forget(ms, pinned, total0, target, world);
    if total0 <= target {
      ForgetNothing(ms, pinned, total0, target, world, msgs);
      return msgs, total0, [], false, false;
    }
    var removable := Unpinned(Values(msgs), pinned);
    if removable == [] {
      ForgetNothing(ms, pinned, total0, target, world, msgs);
      return msgs, total0, [], false, true;
    }
    var order := DropOrder(Values(msgs), pinned, world.score);
    assert removable[0] in removable && removable[0] in order;
    var drop, current;
    drop, current, withoutBackup := DropLoop(msgs, order, total0, target, world);
    assert drop == Dropped(ms, pinned, total0, target, world.score) && drop != [];
    kept := Select(msgs, IndicesWhere(|msgs|, NotIn(drop)));
    total := Max(0, current);
    dropped := IndicesWhere(|msgs|, In(drop));
    overPinnedOnly := current > target && forall i :: 0 <= i < |msgs| ==> i in pinned || i in drop;
  }

  /** Takes messages off in the given order until the target is met, backing up what deserves it. */
  method DropLoop(msgs: seq<Msg>, order: seq<nat>, total0: int, target: int, world: World)
    returns (drop: seq<nat>, current: int, withoutBackup: bool)
    requires Within(order, |msgs|)
    ensures drop == order[..DropCount(Values(msgs), order, total0, target, 0)]
    ensures current == total0 - TokensOf(Values(msgs), drop)
    ensures withoutBackup == LostWithoutCopy(Values(msgs), drop, world.backsUp)
    ensures total0 > target && |order| > 0 ==> drop != []
  {
    hide EstimateTokens, IsTrueJunk, IsDegenerate, LostWithoutCopy;
    ghost var ms := Values(msgs);
    current := total0;
    var n := 0;
    withoutBackup := false;
    LostStart(ms, world.backsUp);
    while n < |order|
      invariant 0 <= n <= |order|
      invariant current == total0 - TokensOf(ms, order[..n])
      invariant forall j :: 0 <= j < n ==> total0 - TokensOf(ms, order[..j]) > target
      invariant withoutBackup == LostWithoutCopy(ms, order[..n], world.backsUp)
    {
      if current <= target {
        break;
      }
      var idx := order[n];
      assert order[..n + 1][..n] == order[..n];
      assert order[..n + 1] == order[..n] + [idx];
      assert ms[idx] == msgs[idx].Val();
      LostStep(ms, order[..n], idx, world.backsUp);
      if !IsTrueJunk(msgs[idx].content) && !IsDegenerate(msgs[idx].content) {
        if !world.backsUp(idx, msgs[idx].content) {
          withoutBackup := true;
        }
      }
      current := current - EstimateTokens(msgs[idx].content);
      n := n + 1;
    }
    drop := order[..n];
    assert n == DropCount(ms, order, total0, target, 0);
  }

  lemma LostStart(ms: seq<Message>, backsUp: (nat, string) -> bool)
    ensures !LostWithoutCopy(ms, [], backsUp)
  {
  }

  lemma LostStep(ms: seq<Message>, drop: seq<nat>, idx: nat, backsUp: (nat, string) -> bool)
    requires idx < |ms|
    ensures LostWithoutCopy(ms, drop + [idx], backsUp)
         == (LostWithoutCopy(ms, drop, backsUp) || (NeedsBackup(ms[idx].content) && !backsUp(idx, ms[idx].content)))
  {
    hide NeedsBackup;
  }

  // ---------------------------------------------------------------- the pipeline

  method BuildMessages(ms: seq<Message>) returns (msgs: seq<Msg>)
    ensures fresh(msgs) && Distinct(msgs) && Values(msgs) == ms
  {
    msgs := [];
    for i := 0 to |ms|
      invariant |msgs| == i && fresh(msgs) && Distinct(msgs)
      invariant forall j :: 0 <= j < i ==> msgs[j].Val() == ms[j]
    {
      var m := new Msg(ms[i]);
      msgs := msgs + [m];
    }
  }

  method RunDeterministic(msgs: seq<Msg>, pinned: seq<nat>, total0: int, target: int)
    returns (total: int, stages: seq<StageName>)
    requires Distinct(msgs) && total0 == SumTokens(Values(msgs))
    modifies msgs
    ensures Progress(Values(msgs), stages) == Deterministic(old(Values(msgs)), pinned, target)
    ensures total == SumTokens(Values(msgs))
  {
    hide Stage, Cut, Touched, TruncatePlan, DedupPlan, DigestPlan, SumTokens, Values;
    ghost var ms := Values(msgs);
    var changed;
    stages := [];
    total, changed := StageTruncate(msgs, pinned, total0, target);
    stages := stages + Named(Truncated, changed);
    ghost var p1 := RunStage(Progress(ms, []), TruncatePlan(ms, pinned), Truncated, target);
    assert Progress(Values(msgs), stages) == p1;
    StageIdle(p1, DedupPlan(p1.ms, pinned), Deduplicated, target);
    if total > target {
      total, changed := StageDedup(msgs, pinned, total, target);
      stages := stages + Named(Deduplicated, changed);
    }
    ghost var p2 := RunStage(p1, DedupPlan(p1.ms, pinned), Deduplicated, target);
    assert Progress(Values(msgs), stages) == p2;
    StageIdle(p2, DigestPlan(p2.ms, pinned), Digested, target);
    if total > target {
      total, changed := StageDigest(msgs, pinned, total, target);
      stages := stages + Named(Digested, changed);
    }
  }

  /** A stage entered at or under the target does nothing. */
  lemma StageIdle(p: Progress, plan: Plan, name: StageName, target: int)
    requires |plan| == |p.ms|
    ensures SumTokens(p.ms) <= target ==> RunStage(p, plan, name, target) == p
  {
    TotalStart(p.ms, plan, SumTokens(p.ms));
  }

  /** What the rest of the pipeline relies on when messages have been dropped. */
  lemma ForgottenMessages(msgs: seq<Msg>, ms: seq<Message>, pinned: seq<nat>, target: int, limits: Limits, world: World, p: Progress)
    requires ms == Values(msgs) && p.ms == ms && pinned == PinnedIndices(ms, limits.keepRecent)
    requires Distinct(msgs) && Forgets(p, target, limits)
    ensures var f := Forget(ms, pinned, SumTokens(ms), target, world);
            var q := Forgetting(p, pinned, target, limits, world).ms;
            && Distinct(Select(msgs, f.kept)) && Values(Select(msgs, f.kept)) == q
            && (forall m :: m in Select(msgs, f.kept) ==> m in msgs)
            && f.tokensAfter == SumTokens(q)
            && (f.overTargetPinnedOnly ==> SumTokens(q) > target && Unpinned(q, PinnedIndices(q, limits.keepRecent)) == [])
  {
    hide FirstUser, InRecentWindow, SumTokens, TokensOf, Dropped, LostWithoutCopy, IsPinned, PinnedIndices;
    var f := Forget(ms, pinned, SumTokens(ms), target, world);
    ForgetTotalExact(ms, pinned, target, world);
    if f.overTargetPinnedOnly {
      ForgettingEmpties(p, pinned, target, limits.(enableForget := true), world);
    }
  }

  /** Stage 3 and the recomputed pins. */
  method ForgetPhase(msgs: seq<Msg>, pinned0: seq<nat>, total0: int, stages0: seq<StageName>, target: int, limits: Limits, world: World)
    returns (messages: seq<Msg>, total: int, pinned: seq<nat>, stages: seq<StageName>, withoutBackup: bool, overPinnedOnly: bool)
    requires Distinct(msgs) && total0 == SumTokens(Values(msgs))
    requires pinned0 == PinnedIndices(Values(msgs), limits.keepRecent)
    ensures var p2 := Progress(Values(msgs), stages0); var p3 := Forgetting(p2, pinned0, target, limits, world);
            && Distinct(messages) && (forall i :: 0 <= i < |messages| ==> messages[i] in msgs)
            && Values(messages) == p3.ms && stages == p3.stages && total == SumTokens(p3.ms)
            && pinned == (if Forgets(p2, target, limits) then PinnedIndices(p3.ms, limits.keepRecent) else pinned0)
            && withoutBackup == (Forgets(p2, target, limits) && Forget(p2.ms, pinned0, total0, target, world).droppedWithoutBackup)
            && (overPinnedOnly ==> total > target && Unpinned(p3.ms, pinned) == [])
  {
    hide Values, SumTokens, PinnedIndices, Unpinned, Forget;
    ghost var p2 := Progress(Values(msgs), stages0);
    messages, total, pinned, stages := msgs, total0, pinned0, stages0;
    withoutBackup, overPinnedOnly := false, false;
    if total > target && limits.enableForget {
      var dropped;
      messages, total, dropped, withoutBackup, overPinnedOnly := HybridForget(msgs, pinned, total, target, world);
      if dropped != [] {
        stages := stages + [Forgot];
      }
      ForgottenMessages(msgs, p2.ms, pinned0, target, limits, world, p2);
      pinned := CollectPinned(messages, limits.keepRecent);
    }
  }

  /** Stage 4 and the report. */
  method FinishPhase(messages: seq<Msg>, pinned: seq<nat>, before: int, total0: int, stages0: seq<StageName>,
                     request0: Option<SummaryRequest>, target: int, limits: Limits, withoutBackup: bool, overPinnedOnly0: bool)
    returns (report: Report)
    requires Distinct(messages) && total0 == SumTokens(Values(messages)) && target >= 0
    requires overPinnedOnly0 ==> total0 > target && Unpinned(Values(messages), pinned) == []
    modifies messages
    ensures report == Reported(Progress(old(Values(messages)), stages0), request0, pinned, before, target, limits, withoutBackup)
  {
    hide Values, SumTokens, LastResort, FirstUser, BuildSummaryRequest;
    ghost var p3 := Progress(Values(messages), stages0);
    var total, stages, request, overPinnedOnly := total0, stages0, request0, overPinnedOnly0;
    var intent := FirstUser(Values(messages));
    AllPinnedIff(p3.ms, pinned);
    if total > target && (overPinnedOnly || forall i :: 0 <= i < |messages| ==> i in pinned) {
      var changed;
      LastResortKeeps(p3.ms, limits.keepRecent, intent, total, target);
      total, changed := StageTruncatePinnedRecent(messages, limits.keepRecent, total, target, intent);
      if changed {
        stages := stages + [TruncatedPinnedRecent];
      }
      overPinnedOnly := false;
      FirstUserShape(p3.ms, Values(messages));
    }
    ghost var p4 := Finish(p3, pinned, target, limits);
    assert Values(messages) == p4.ms && stages == p4.stages && total == SumTokens(p4.ms) && !overPinnedOnly;
    var forced := false;
    if total > target {
      if request.None? {
        request := Some(BuildSummaryRequest(Values(messages), pinned, total, target));
      }
      var intentTokens := if intent < |messages| then Tokens(Values(messages)[intent]) else 0;
      if intentTokens > target {
        forced, overPinnedOnly := true, true;
      }
    }
    return Report(Values(messages), before, total, stages, request, pinned, withoutBackup, overPinnedOnly, forced);
  }

  lemma AllPinnedIff(ms: seq<Message>, pinned: seq<nat>)
    ensures Unpinned(ms, pinned) == [] <==> forall i :: 0 <= i < |ms| ==> i in pinned
  {
    if forall i :: 0 <= i < |ms| ==> i in pinned {
      NoIndices(|ms|, NotIn(pinned));
    }
    assert Unpinned(ms, pinned) == [] ==> forall i :: 0 <= i < |ms| ==> i in Unpinned(ms, pinned) || i in pinned;
  }

  method CountTokens(msgs: seq<Msg>) returns (total: int)
    ensures total == SumTokens(Values(msgs))
  {
    ghost var ms := Values(msgs);
    total := 0;
    for i := 0 to |msgs|
      invariant total == SumTokens(ms[..i])
    {
      assert ms[..i + 1][..i] == ms[..i];
      assert ms[i] == msgs[i].Val();
      total := total + EstimateTokens(msgs[i].content);
    }
    assert ms[..|ms|] == ms;
  }

  /** Stage 2: ask the summariser, and keep the request when it does not answer. */
  method SummarisePhase(msgs: seq<Msg>, pinned: seq<nat>, total0: int, stages0: seq<StageName>, target: int,
                        limits: Limits, world: World)
    returns (total: int, stages: seq<StageName>, request: Option<SummaryRequest>)
    requires Distinct(msgs) && total0 == SumTokens(Values(msgs))
    modifies msgs
    ensures var p1 := Progress(old(Values(msgs)), stages0);
            && Progress(Values(msgs), stages) == Summarise(p1, pinned, target, limits, world)
            && request == PendingRequest(p1, pinned, target, limits, world)
            && total == SumTokens(Values(msgs))
  {
    hide Values, SumTokens, BuildSummaryRequest, ApplySummaries;
    total, stages, request := total0, stages0, None;
    if total > target && limits.enableLlm && world.hermesAvailable {
      request := Some(BuildSummaryRequest(Values(msgs), pinned, total, target));
      if |request.value.indices| > 0 && world.reply.Some? {
        total := WriteSummaries(msgs, pinned, world.reply.value, total);
        stages := stages + [Summarised];
        request := None;
      }
    }
  }

  /**
   `compress`. The running total that every stage carried along is the exact sum over the messages returned:
   `Compressed` recomputes it from scratch.
   */
  method Compress(ms: seq<Message>, limits: Limits, world: World) returns (report: Report)
    requires limits.Valid()
    ensures report == Compressed(ms, limits, world)
  {
    hide Values, SumTokens, Deterministic, Summarise, PendingRequest, Forgetting, Reported, PinnedIndices, Forgets, Settled;
    var msgs := BuildMessages(ms);
    var before := CountTokens(msgs);
    var pinned := CollectPinned(msgs, limits.keepRecent);
    if before as real / limits.contextLimit as real < limits.triggerRatio {
      return Report(Values(msgs), before, before, [], None, pinned, false, false, false);
    }
    report := RunPipeline(msgs, ms, pinned, before, limits, world);
  }

  /** Stages 3 and 4 and the report. */
  method SettlePhase(msgs: seq<Msg>, pinned: seq<nat>, before: int, total0: int, stages0: seq<StageName>,
                     request: Option<SummaryRequest>, target: int, limits: Limits, world: World)
    returns (report: Report)
    requires Distinct(msgs) && total0 == SumTokens(Values(msgs)) && target >= 0
    requires pinned == PinnedIndices(Values(msgs), limits.keepRecent)
    modifies msgs
    ensures report == Settled(Progress(old(Values(msgs)), stages0), request, pinned, before, target, limits, world)
  {
    hide Values, SumTokens, Forgetting, Forget, Reported, PinnedIndices, Forgets, Unpinned, Distinct;
    var messages, total, pinned', stages, withoutBackup, overPinnedOnly :=
      ForgetPhase(msgs, pinned, total0, stages0, target, limits, world);
    report := FinishPhase(messages, pinned', before, total, stages, request, target, limits, withoutBackup, overPinnedOnly);
  }

  /** What follows once the trigger has fired. */
  method RunPipeline(msgs: seq<Msg>, ghost ms: seq<Message>, pinned: seq<nat>, before: int, limits: Limits, world: World)
    returns (report: Report)
    requires limits.Valid() && Distinct(msgs) && Values(msgs) == ms && before == SumTokens(ms)
    requires pinned == PinnedIndices(ms, limits.keepRecent) && limits.Triggers(SumTokens(ms))
    modifies msgs
    ensures report == Compressed(ms, limits, world)
  {
    hide Values, SumTokens, Deterministic, Summarise, PendingRequest, Settled, PinnedIndices, Distinct;
    var target := limits.Target();
    var total, stages := RunDeterministic(msgs, pinned, before, target);
    var request;
    total, stages, request := SummarisePhase(msgs, pinned, total, stages, target, limits, world);
    PreparedKeeps(ms, limits, world);
    PinsFollowShape(ms, Prepared(ms, limits, world).ms, limits.keepRecent);
    TargetNotNegative(limits);
    report := SettlePhase(msgs, pinned, before, total, stages, request, target, limits, world);
  }

  lemma TargetNotNegative(limits: Limits)
    requires limits.Valid()
    ensures limits.Target() >= 0
  {
  }
}

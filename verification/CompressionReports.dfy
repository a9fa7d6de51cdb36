/** What a run's report tells: the texts it returns, the stages it names and the flags it sets, read off the input. */
module CompressionReports {
  import opened Wrappers
  import opened Text
  import opened Sorting
  import opened Compression
  import opened CompressionFacts
  import opened CompressionTheorems
  import opened CompressionStages
  import opened CompressionPins
  import opened CompressionRequests
  import opened CompressionMirror

  // ---------------------------------------------------------------- limits, pins and digests in numbers

  /** The trigger and the target in tokens. */
  lemma LimitsInTokens(limits: Limits, tokens: nat)
    requires limits.Valid()
    ensures limits.Triggers(tokens) <==> tokens as real >= limits.triggerRatio * limits.contextLimit as real
    ensures limits.Target() as real <= limits.targetRatio * limits.contextLimit as real < limits.Target() as real + 1.0
  {
    var n, t := limits.contextLimit as real, tokens as real;
    var u := t / n;
    assert t == u * n;
    if u < limits.triggerRatio {
      assert u * n < limits.triggerRatio * n;
    } else {
      assert u * n >= limits.triggerRatio * n;
    }
  }

  /** A message is pinned when it says so, is the first of the user, or has fewer than `keepRecent` messages behind it. */
  lemma PinnedMeans(ms: seq<Message>, keepRecent: nat, i: nat)
    requires i < |ms|
    ensures i in PinnedIndices(ms, keepRecent) <==>
              || ms[i].pinned
              || (ms[i].role == "user" && forall j :: 0 <= j < i ==> ms[j].role != "user")
              || |ms| - i <= keepRecent
  {
    var f := FirstUser(ms);
    assert f < i ==> ms[f].role == "user";
  }

  /** A digest shows the role, the first line up to 120 characters, and the weight of the message it stands for. */
  lemma DigestShows(m: Message) returns (n: nat)
    ensures n <= 120 && n <= |m.content| && '\n' !in m.content[..n]
    ensures n == 120 || n == |m.content| || m.content[n] == '\n'
    ensures var d, r := Digest(m), |m.role|;
            && |d| >= r + n + 36
            && d[..17] == "[cluxion digest] " && d[17..17 + r] == m.role && d[17 + r..19 + r] == ": "
            && d[19 + r..19 + r + n] == m.content[..n]
            && ParseDecimal(d[21 + r + n..|d| - 15]) == EstimateTokens(m.content)
  {
    hide Decimal, ParseDecimal, FirstLine, EstimateTokens;
    var line := FirstLine(m.content);
    n := Min(DIGEST_LINE_CHARS, |line|);
    assert line[..n] == m.content[..n];
    var number := Decimal(EstimateTokens(m.content));
    var d := "[cluxion digest] " + m.role + ": " + m.content[..n] + " [" + number + " tokens elided]";
    assert Digest(m) == d;
    DigestParts(m.role, m.content[..n], number);
    DecimalRoundTrip(EstimateTokens(m.content));
  }

  lemma DigestParts(role: string, line: string, number: string)
    requires |number| > 0
    ensures var d, r, n := "[cluxion digest] " + role + ": " + line + " [" + number + " tokens elided]", |role|, |line|;
            && |d| >= r + n + 37
            && d[..17] == "[cluxion digest] " && d[17..17 + r] == role && d[17 + r..19 + r] == ": "
            && d[19 + r..19 + r + n] == line && d[21 + r + n..|d| - 15] == number
  {
    var d, r, n := "[cluxion digest] " + role + ": " + line + " [" + number + " tokens elided]", |role|, |line|;
    assert d[17..17 + r] == role;
    assert d[19 + r..19 + r + n] == line;
  }

  // ---------------------------------------------------------------- the texts of a run

  /** Short of the last resort, a run returns messages as stages 1 and 2 left them. */
  lemma ReturnedMessages(ms: seq<Message>, limits: Limits, world: World)
    requires limits.Valid() && limits.Triggers(SumTokens(ms)) && !ReachesLastResort(ms, limits)
    ensures var p, idx := Prepared(ms, limits, world).ms, Provenance(ms, limits, world);
            Within(idx, |p|) && Compressed(ms, limits, world).messages == Select(p, idx)
  {
    hide FirstUser, SumTokens, InRecentWindow, PinnedIndices, IsPinned, Prepared, Forgetting, Survivors, Unpinned,
         PinnedTokens, OnlyPinnedLeft, ReachesLastResort, Compressed, LastResort, Limits.Triggers, Limits.Target;
    PreparedKeeps(ms, limits, world);
    PinsFollowShape(ms, Prepared(ms, limits, world).ms, limits.keepRecent);
    ForgettingIsSelection(Prepared(ms, limits, world), PinnedIndices(ms, limits.keepRecent), limits.Target(), limits, world);
    CurrentPins(ms, limits, world);
    AfterForgetting(ms, limits, world);
  }

  /** The summariser is enabled and there, is asked about something, and answers. */
  predicate Answered(ms: seq<Message>, limits: Limits, world: World)
    requires limits.Valid()
  {
    && SumTokens(Deterministic(ms, PinnedIndices(ms, limits.keepRecent), limits.Target()).ms) > limits.Target()
    && limits.enableLlm && world.hermesAvailable && world.reply.Some?
    && exists i :: 0 <= i < |ms| && !IsPinned(ms, limits.keepRecent, i)
  }

  lemma AnsweredIff(ms: seq<Message>, limits: Limits, world: World)
    requires limits.Valid()
    ensures var pinned := PinnedIndices(ms, limits.keepRecent);
            (Answered(ms, limits, world)
             <==> OracleAnswers(Deterministic(ms, pinned, limits.Target()), pinned, limits.Target(), limits, world))
  {
    hide SumTokens, PinnedIndices, Deterministic, BuildSummaryRequest, Unpinned, IsPinned, Limits.Target;
    var k, target := limits.keepRecent, limits.Target();
    var pinned := PinnedIndices(ms, k);
    var p := Deterministic(ms, pinned, target);
    DeterministicKeeps(ms, pinned, target);
    PinsFollowShape(ms, p.ms, k);
    PinnedAgree(ms, p.ms, k);
    RequestEmptyIff(p.ms, pinned, SumTokens(p.ms), target);
    UnpinnedNoneIff(p.ms, k);
  }

  /** The text of message `i` when the deterministic stages are over. */
  function StageOneText(ms: seq<Message>, limits: Limits, i: nat): string
    requires limits.Valid() && i < |ms|
  {
    var pinned := PinnedIndices(ms, limits.keepRecent);
    DeterministicKeeps(ms, pinned, limits.Target());
    Deterministic(ms, pinned, limits.Target()).ms[i].content
  }

  /**
   What the returned message `j` says. Short of the last resort: its own text when it is pinned; else the last summary
   the reply gives for it, if the summariser answered and gave one; else what the deterministic stages left of it.
   */
  ghost predicate SaysWhatItShould(ms: seq<Message>, r: seq<Message>, idx: seq<nat>, limits: Limits, world: World, j: int)
    requires limits.Valid() && 0 <= j < |idx| == |r| && idx[j] < |ms|
  {
    var i := idx[j];
    && r[j].role == ms[i].role && r[j].pinned == ms[i].pinned
    && (IsPinned(ms, limits.keepRecent, i) ==> r[j].content == ms[i].content)
    && (Answered(ms, limits, world) && !IsPinned(ms, limits.keepRecent, i) ==>
          forall p :: LastFor(world.reply.value, i, p) ==> r[j].content == world.reply.value[p].1)
    && (!Answered(ms, limits, world) || (forall p :: 0 <= p < |world.reply.value| ==> world.reply.value[p].0 != i) ==>
          r[j].content == StageOneText(ms, limits, i))
  }

  lemma ReturnedTexts(ms: seq<Message>, limits: Limits, world: World)
    requires limits.Valid() && limits.Triggers(SumTokens(ms)) && !ReachesLastResort(ms, limits)
    ensures var r, idx := Compressed(ms, limits, world).messages, Provenance(ms, limits, world);
            && |r| == |idx| && Within(idx, |ms|)
            && forall j :: 0 <= j < |r| ==> SaysWhatItShould(ms, r, idx, limits, world, j)
  {
    hide FirstUser, SumTokens, InRecentWindow, IsPinned, Deterministic, Provenance, Compressed, PinnedIndices,
         BuildSummaryRequest, ReachesLastResort, Limits.Triggers, Limits.Target, ApplySummaries, OracleAnswers;
    AnsweredIff(ms, limits, world);
    var k, target := limits.keepRecent, limits.Target();
    var pinned := PinnedIndices(ms, k);
    var p1, p2 := Deterministic(ms, pinned, target), Prepared(ms, limits, world);
    ReturnedMessages(ms, limits, world);
    PreparedKeeps(ms, limits, world);
    DeterministicKeeps(ms, pinned, target);
    PinnedIn(ms, k);
    PinnedMembers(pinned, ms, k);
    if world.reply.Some? {
      SummariesAreCarried(p1.ms, pinned, world.reply.value);
    }
  }

  // ---------------------------------------------------------------- the backup flag

  /** Neither blank, nor short, nor one character repeated, nor a remnant of an earlier compression. */
  ghost predicate WorthKeeping(content: string) {
    var t := Strip(content);
    && |t| >= 16 && (exists k :: 0 <= k < |t| && t[k] != t[0])
    && (forall i :: !OccursAt(t, "[cluxion: duplicate", i)) && (forall i :: !OccursAt(t, "[cluxion digest]", i))
  }

  lemma NeedsBackupIff(content: string)
    ensures NeedsBackup(content) <==> WorthKeeping(content)
  {
    hide Strip, OccursAt;
    var t := Strip(content);
    forall m: string
      ensures Contains(t, m) <==> exists i :: OccursAt(t, m, i)
    {
      OccursInside(t, m);
    }
  }

  lemma OccursInside(w: string, m: string)
    ensures forall i :: OccursAt(w, m, i) ==> 0 <= i <= |w|
  {
  }

  /**
   The flag is set exactly when some message that is not returned deserved a copy, by its text when forgetting began,
   and the cold store did not take that text.
   */
  lemma LostFlagIff(ms: seq<Message>, limits: Limits, world: World)
    requires limits.Valid() && limits.Triggers(SumTokens(ms))
    ensures var p, idx := Prepared(ms, limits, world).ms, Provenance(ms, limits, world);
            && |p| == |ms|
            && (Compressed(ms, limits, world).droppedWithoutBackup <==>
                exists i :: 0 <= i < |ms| && i !in idx && WorthKeeping(p[i].content) && !world.backsUp(i, p[i].content))
  {
    hide FirstUser, SumTokens, InRecentWindow, PinnedIndices, Deterministic, Summarise, Finish, BuildSummaryRequest,
         NeedsBackup, WorthKeeping, TokensOf, Dropped, Limits.Triggers, Limits.Target;
    var pinned := PinnedIndices(ms, limits.keepRecent);
    var p2 := Prepared(ms, limits, world);
    PreparedKeeps(ms, limits, world);
    forall i | 0 <= i < |p2.ms|
      ensures NeedsBackup(p2.ms[i].content) <==> WorthKeeping(p2.ms[i].content)
    {
      NeedsBackupIff(p2.ms[i].content);
    }
    if Forgets(p2, limits.Target(), limits) {
      KeptOrDropped(|p2.ms|, Dropped(p2.ms, pinned, SumTokens(p2.ms), limits.Target(), world.score));
    } else {
      AllOfThem(Provenance(ms, limits, world), |ms|);
    }
  }

  lemma KeptOrDropped(n: nat, drop: seq<nat>)
    ensures forall i: nat :: i < n ==> (i in IndicesWhere(n, NotIn(drop)) <==> i !in drop)
  {
    var kept := IndicesWhere(n, NotIn(drop));
    assert forall j :: 0 <= j < |kept| ==> NotIn(drop)(kept[j]);
  }

  lemma AllOfThem(idx: seq<nat>, n: nat)
    requires |idx| == n && forall i: nat :: i < n ==> idx[i] == i
    ensures forall i: nat :: i < n ==> i in idx
  {
    forall i: nat | i < n
      ensures i in idx
    {
      assert idx[i] == i;
    }
  }

  // ---------------------------------------------------------------- a run that is not triggered

  /** Below the trigger a report returns the conversation as it came. */
  lemma QuietRun(ms: seq<Message>, limits: Limits, world: World)
    requires limits.Valid() && SumTokens(ms) as real < limits.triggerRatio * limits.contextLimit as real
    ensures var r := Compressed(ms, limits, world);
            && r.messages == ms && r.tokensBefore == r.tokensAfter == SumTokens(ms) && r.stages == []
            && r.summaryRequest.None? && !r.droppedWithoutBackup && !r.overTargetPinnedOnly && !r.forcedOverTarget
  {
    LimitsInTokens(limits, SumTokens(ms));
  }

  // ---------------------------------------------------------------- the stages a report names

  /** A stage whose entries all change their message is named exactly when the messages changed. */
  lemma TouchedIff(ms: seq<Message>, plan: Plan, total: int, target: int)
    requires |plan| == |ms|
    requires forall i :: 0 <= i < |ms| && plan[i].Some? ==> plan[i].value != ms[i].content
    ensures Touched(plan, Cut(ms, plan, total, target, 0)) <==> Stage(ms, plan, total, target) != ms
  {
    hide TotalAt;
    var cut := Cut(ms, plan, total, target, 0);
    var r := Stage(ms, plan, total, target);
    if i: nat :| i < cut && i < |plan| && plan[i].Some? {
      assert r[i].content == plan[i].value;
    } else {
      assert r == ms;
    }
  }

  lemma TruncationChanges(ms: seq<Message>, pinned: seq<nat>)
    ensures var plan := TruncatePlan(ms, pinned);
            forall i :: 0 <= i < |ms| && plan[i].Some? ==> plan[i].value != ms[i].content
  {
    hide EstimateTokens, HeadTail;
    forall i | 0 <= i < |ms| && HeadTail(ms[i].content).Some?
      ensures HeadTail(ms[i].content).value != ms[i].content
    {
      HeadTailShrinks(ms[i].content);
    }
  }

  lemma DigestChanges(ms: seq<Message>, pinned: seq<nat>)
    ensures var plan := DigestPlan(ms, pinned);
            forall i :: 0 <= i < |ms| && plan[i].Some? ==> plan[i].value != ms[i].content
  {
    hide EstimateTokens, Digest;
  }

  /** Deduplication reaches an unpinned text of at least 40 characters that occurred before. */
  ghost predicate ReachesDuplicate(p1: seq<Message>, pinned: seq<nat>, target: int) {
    exists i, f :: 0 <= f < i < |p1| && i < DedupReach(p1, pinned, target) && i !in pinned
      && |Strip(p1[i].content)| >= 40 && Strip(p1[f].content) == Strip(p1[i].content)
  }

  lemma DedupTouchedIff(p1: seq<Message>, pinned: seq<nat>, target: int)
    ensures Touched(DedupPlan(p1, pinned), DedupReach(p1, pinned, target)) <==> ReachesDuplicate(p1, pinned, target)
  {
    hide Strip, DuplicateNote, SumTokens, Cut;
    var plan, c := DedupPlan(p1, pinned), DedupReach(p1, pinned, target);
    if i: nat :| i < c && i < |p1| && plan[i].Some? {
      var f := FirstSame(p1, i, 0);
      assert f < i && Strip(p1[f].content) == Strip(p1[i].content);
    }
    if ReachesDuplicate(p1, pinned, target) {
      var i, f :| 0 <= f < i < |p1| && i < c && i !in pinned && |Strip(p1[i].content)| >= 40
                  && Strip(p1[f].content) == Strip(p1[i].content);
      assert FirstSame(p1, i, 0) <= f;
      assert plan[i].Some?;
    }
  }

  function Listed(a: bool, b: bool, c: bool, d: bool, e: bool, f: bool): seq<StageName> {
    Named(Truncated, a) + Named(Deduplicated, b) + Named(Digested, c) + Named(Summarised, d) + Named(Forgot, e)
    + Named(TruncatedPinnedRecent, f)
  }

  /** The first three names. */
  lemma FirstStages(ms: seq<Message>, pinned: seq<nat>, target: int)
    ensures var p1, p2, p3 := Truncation(ms, pinned, target), PythonInput(ms, pinned, target), Deterministic(ms, pinned, target);
            p3.stages == Named(Truncated, p1 != ms) + Named(Deduplicated, ReachesDuplicate(p1, pinned, target)) + Named(Digested, p3.ms != p2)
  {
    hide SumTokens, Stage, Cut, TruncatePlan, DedupPlan, DigestPlan, Touched, ReachesDuplicate;
    var p1, p2 := Truncation(ms, pinned, target), PythonInput(ms, pinned, target);
    TruncationChanges(ms, pinned);
    TouchedIff(ms, TruncatePlan(ms, pinned), SumTokens(ms), target);
    DedupTouchedIff(p1, pinned, target);
    DigestChanges(p2, pinned);
    TouchedIff(p2, DigestPlan(p2, pinned), SumTokens(p2), target);
  }

  /** Stage 3 is named exactly when it returns fewer messages than it was given. */
  lemma ForgotIff(p: Progress, pinned: seq<nat>, target: int, limits: Limits, world: World)
    ensures var q := Forgetting(p, pinned, target, limits, world);
            q.stages == p.stages + Named(Forgot, |q.ms| < |p.ms|)
  {
    hide SumTokens, TokensOf, LostWithoutCopy, Dropped;
    if Forgets(p, target, limits) {
      var drop := Dropped(p.ms, pinned, SumTokens(p.ms), target, world.score);
      SplitCount(drop, |p.ms|);
    }
  }

  lemma {:induction false} SplitCount(drop: seq<nat>, n: nat)
    ensures |IndicesWhere(n, NotIn(drop))| + |IndicesWhere(n, In(drop))| == n
  {
    if n > 0 {
      SplitCount(drop, n - 1);
    }
  }

  /**
   The stages of a triggered run, in pipeline order, each named exactly when it did something: truncation and digests
   when they changed a text, deduplication when it reached a repeated long text, the summariser when it answered,
   forgetting when messages are missing, and the last resort when a pinned message was rewritten.
   */
  lemma StagesTellTheTruth(ms: seq<Message>, limits: Limits, world: World)
    requires limits.Valid() && limits.Triggers(SumTokens(ms))
    ensures var pinned, target, r := PinnedIndices(ms, limits.keepRecent), limits.Target(), Compressed(ms, limits, world);
            var p1, p2 := Truncation(ms, pinned, target), PythonInput(ms, pinned, target);
            r.stages == Listed(p1 != ms, ReachesDuplicate(p1, pinned, target), Deterministic(ms, pinned, target).ms != p2,
                               Answered(ms, limits, world), |r.messages| < |ms|, RewritesAPin(ms, limits, world))
  {
    hide FirstUser, SumTokens, InRecentWindow, PinnedIndices, Deterministic, Truncation, PythonInput, Forgetting, Forgets, LastResort,
         BuildSummaryRequest, ReachesDuplicate, RewritesAPin, IntentTooBig, Forget, Unpinned, ApplySummaries, Limits.Triggers, Limits.Target,
         Answered, OracleAnswers;
    AnsweredIff(ms, limits, world);
    var k, target := limits.keepRecent, limits.Target();
    var pinned := PinnedIndices(ms, k);
    var p := Prepared(ms, limits, world);
    FirstStages(ms, pinned, target);
    PreparedKeeps(ms, limits, world);
    PinsFollowShape(ms, p.ms, k);
    ForgotIff(p, pinned, target, limits, world);
    NoForgetting(p, pinned, target, limits, world);
    FinishNamed(ms, limits, world);
  }

  /** Stage 4 is named exactly when a pinned message of the input comes back changed. */
  lemma FinishNamed(ms: seq<Message>, limits: Limits, world: World)
    requires limits.Valid() && limits.Triggers(SumTokens(ms))
    ensures var p3 := Forgetting(Prepared(ms, limits, world), PinnedIndices(ms, limits.keepRecent), limits.Target(), limits, world);
            var p4 := Finish(p3, PinnedIndices(p3.ms, limits.keepRecent), limits.Target(), limits);
            && p4.stages == p3.stages + Named(TruncatedPinnedRecent, RewritesAPin(ms, limits, world))
            && |p4.ms| == |p3.ms|
            && Compressed(ms, limits, world).messages == p4.ms && Compressed(ms, limits, world).stages == p4.stages
  {
    hide FirstUser, SumTokens, InRecentWindow, PinnedIndices, Prepared, Forgetting, LastResort, RewritesAPin, Unpinned,
         PinnedTokens, ReachesLastResort, Shortenable, Compressed, Limits.Triggers, Limits.Target, Provenance;
    var k, target := limits.keepRecent, limits.Target();
    CurrentPins(ms, limits, world);
    AfterForgetting(ms, limits, world);
    PinnedRewrittenIff(ms, limits, world);
    if ReachesLastResort(ms, limits) {
      PinnedWithin(ms, k);
      ReachedMeans(ms, limits);
      LastResortActsIff(Select(ms, PinnedIndices(ms, k)), k, PinnedTokens(ms, k), target);
      ShortenableKept(ms, k);
    }
  }
}

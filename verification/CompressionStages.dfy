/** What the single stages promise: recoverable duplicates, no growth, and the least possible forgetting. */
module CompressionStages {
  import opened Wrappers
  import opened Text
  import opened Sorting
  import opened Compression
  import opened CompressionFacts
  import opened CompressionTheorems

  // ---------------------------------------------------------------- deduplication

  /** The index a duplicate note names. */
  function NamedIndex(note: string): int
    requires |note| >= 40
  {
    ParseDecimal(note[32..|note| - 8])
  }

  lemma NoteNames(first: nat)
    ensures |DuplicateNote(first)| == 40 + |Decimal(first)|
    ensures NamedIndex(DuplicateNote(first)) == first
    ensures AllAscii(DuplicateNote(first))
  {
    hide Decimal, ParseDecimal;
    var note := DuplicateNote(first);
    assert note[32..|note| - 8] == Decimal(first);
    DecimalRoundTrip(first);
  }

  /**
   Deduplication is recoverable: each replaced message names an earlier message, untouched by the stage, whose
   trimmed text is the trimmed text that was replaced.
   */
  lemma DedupIsRecoverable(ms: seq<Message>, pinned: seq<nat>, total: int, target: int, i: nat)
    requires i < |ms|
    ensures var plan := DedupPlan(ms, pinned);
            var after := Stage(ms, plan, total, target);
            || after[i] == ms[i]
            || (i !in pinned && |after[i].content| >= 40
                && var f := NamedIndex(after[i].content);
                   && 0 <= f < i && after[f] == ms[f]
                   && Strip(after[f].content) == Strip(ms[i].content))
  {
    hide Strip, Cut, ParseDecimal, DuplicateNote, NamedIndex;
    var f := FirstSame(ms, i, 0);
    NoteNames(f);
    assert FirstSame(ms, f, 0) == f by {
      FirstOfFirst(ms, i);
    }
  }

  lemma FirstOfFirst(ms: seq<Message>, i: nat)
    requires i < |ms|
    ensures FirstSame(ms, FirstSame(ms, i, 0), 0) == FirstSame(ms, i, 0)
  {
    hide Strip;
  }

  // ---------------------------------------------------------------- growth

  ghost predicate Lightens(ms: seq<Message>, plan: Plan)
    requires |plan| == |ms|
  {
    forall i :: 0 <= i < |ms| && plan[i].Some? ==> EstimateTokens(plan[i].value) <= Tokens(ms[i])
  }

  lemma {:induction false} LighteningShrinks(ms: seq<Message>, plan: Plan, cut: nat)
    requires |plan| == |ms| && cut <= |ms| && Lightens(ms, plan)
    ensures SumTokens(Rewritten(ms, plan, cut)) <= SumTokens(ms)
  {
    hide EstimateTokens, SumTokens;
    if cut == 0 {
      TotalStart(ms, plan, 0);
    } else {
      LighteningShrinks(ms, plan, cut - 1);
      TotalStep(ms, plan, 0, cut - 1);
    }
  }

  lemma TruncateLightens(ms: seq<Message>, pinned: seq<nat>)
    ensures Lightens(ms, TruncatePlan(ms, pinned))
  {
    hide EstimateTokens, HeadTail;
    forall i | 0 <= i < |ms| && HeadTail(ms[i].content).Some?
      ensures EstimateTokens(HeadTail(ms[i].content).value) <= Tokens(ms[i])
    {
      HeadTailShrinks(ms[i].content);
    }
  }

  lemma RecentLightens(ms: seq<Message>, keepRecent: nat, intent: nat)
    ensures Lightens(ms, RecentPlan(ms, keepRecent, intent))
  {
    hide EstimateTokens, HeadTail, InRecentWindow;
    forall i | 0 <= i < |ms| && HeadTail(ms[i].content).Some?
      ensures EstimateTokens(HeadTail(ms[i].content).value) <= Tokens(ms[i])
    {
      HeadTailShrinks(ms[i].content);
    }
  }

  /** A text worth deduplicating weighs at least ten tokens, and a note naming an index below 1000 at most ten. */
  lemma NoteWeight(first: nat, content: string)
    requires |Strip(content)| >= DEDUP_MIN_CHARS
    ensures EstimateTokens(DuplicateNote(first)) == (40 + |Decimal(first)|) / 4
    ensures 10 <= EstimateTokens(content)
    ensures first < 1000 ==> EstimateTokens(DuplicateNote(first)) <= EstimateTokens(content)
  {
    NoteNames(first);
    AsciiCountAll(DuplicateNote(first));
    DecimalLength(first);
    StripPlace(content);
    EstimateBounds(content);
  }

  /** Every note the stage would write names an index of at most three digits. */
  ghost predicate NamesLowIndices(ms: seq<Message>, pinned: seq<nat>) {
    forall i :: 0 <= i < |ms| && DedupPlan(ms, pinned)[i].Some? ==> FirstSame(ms, i, 0) < 1000
  }

  lemma ShortNamesLow(ms: seq<Message>, pinned: seq<nat>)
    requires |ms| <= 1001
    ensures NamesLowIndices(ms, pinned)
  {
    hide Strip;
  }

  lemma DedupLightens(ms: seq<Message>, pinned: seq<nat>)
    requires NamesLowIndices(ms, pinned)
    ensures Lightens(ms, DedupPlan(ms, pinned))
  {
    hide EstimateTokens, Strip, DuplicateNote;
    forall i | 0 <= i < |ms| && DedupPlan(ms, pinned)[i].Some?
      ensures EstimateTokens(DedupPlan(ms, pinned)[i].value) <= Tokens(ms[i])
    {
      NoteWeight(FirstSame(ms, i, 0), ms[i].content);
    }
  }

  /** Deduplicating does not make the conversation heavier. */
  ghost predicate DedupShrinks(ms: seq<Message>, pinned: seq<nat>, target: int) {
    SumTokens(Stage(ms, DedupPlan(ms, pinned), SumTokens(ms), target)) <= SumTokens(ms)
  }

  /** While every named index is below 1000, conversations of any length never grow in the stage. */
  lemma DedupNeverGrows(ms: seq<Message>, pinned: seq<nat>, target: int)
    requires NamesLowIndices(ms, pinned)
    ensures DedupShrinks(ms, pinned, target)
  {
    hide NamesLowIndices;
    DedupLightens(ms, pinned);
    LighteningShrinks(ms, DedupPlan(ms, pinned), Cut(ms, DedupPlan(ms, pinned), SumTokens(ms), target, 0));
  }

  function Filler(): Message {
    Message("assistant", "", false)
  }

  function Repeated(): Message {
    Message("assistant", seq(40, _ => 'a'), false)
  }

  /** Two copies of a 40-character text at indices 1000 and 1001: the note that names #1000 is heavier than the text. */
  function GrowingConversation(n: nat): (ms: seq<Message>)
    ensures |ms| == n
  {
    seq(n, i => if i == 1000 || i == 1001 then Repeated() else Filler())
  }

  lemma NothingIsPinned(n: nat)
    ensures PinnedIndices(GrowingConversation(n), 0) == []
  {
    var ms := GrowingConversation(n);
    assert |"assistant"| != |"user"|;
    forall i | 0 <= i < n
      ensures |ms[i].role| == |"assistant"| && !ms[i].pinned
    {
      assert ms[i] == Repeated() || ms[i] == Filler();
    }
    assert FirstUser(ms) == n;
    NoIndices(n, (i: nat) => IsPinned(ms, 0, i));
  }

  lemma StripOfRepeated()
    ensures Strip(Repeated().content) == Repeated().content
    ensures Strip("") == ""
    ensures EstimateTokens(Repeated().content) == 10
    ensures EstimateTokens("") == 1
  {
    var s := Repeated().content;
    assert SkipSpaces(s, 0) == 0;
    assert TrimEnd(s, 0, 40) == 40;
    AsciiCountAll(s);
  }

  lemma GrowingPlan(n: nat)
    requires n >= 1002
    ensures var plan := DedupPlan(GrowingConversation(n), []);
            && plan[1001] == Some(DuplicateNote(1000))
            && forall i :: 0 <= i < n && i != 1001 ==> plan[i].None?
  {
    hide Strip, DuplicateNote;
    var ms := GrowingConversation(n);
    StripOfRepeated();
    assert ms[1000] == Repeated() && ms[1001] == Repeated();
    assert |Repeated().content| == 40;
    forall i | 0 <= i < 1000
      ensures ms[i] == Filler()
    {
    }
    assert FirstSame(ms, 1001, 0) == 1000;
    assert FirstSame(ms, 1000, 0) == 1000;
  }

  lemma {:induction false} SumPositive(ms: seq<Message>)
    ensures SumTokens(ms) >= |ms|
  {
    if |ms| > 0 {
      SumPositive(ms[..|ms| - 1]);
    }
  }

  function Grown(n: nat): (ms: seq<Message>)
    requires n >= 1002
    ensures |ms| == n
  {
    var ms := GrowingConversation(n);
    ms[1001 := ms[1001].(content := DuplicateNote(1000))]
  }

  lemma GrownIsHeavier(n: nat)
    requires n >= 1002
    ensures SumTokens(Grown(n)) == SumTokens(GrowingConversation(n)) + 1
  {
    hide SumTokens, EstimateTokens, DuplicateNote, Strip;
    var ms := GrowingConversation(n);
    SumUpdate(ms, 1001, ms[1001].(content := DuplicateNote(1000)));
    StripOfRepeated();
    assert ms[1001] == Repeated() && |Repeated().content| == 40;
    NoteWeight(1000, ms[1001].content);
    DecimalLength(1000);
    FourDigits();
  }

  lemma FourDigits()
    ensures |Decimal(1000)| == 4
  {
  }

  /** A target below the number of messages is never met by rewriting, so the whole plan is carried out. */
  lemma StageIsWhole(ms: seq<Message>, plan: Plan, target: int)
    requires |plan| == |ms| && target < |ms|
    ensures Stage(ms, plan, SumTokens(ms), target) == Rewritten(ms, plan, |ms|)
  {
    hide SumTokens;
    forall c: nat | c <= |ms|
      ensures TotalAt(ms, plan, SumTokens(ms), c) > target
    {
      SumPositive(Rewritten(ms, plan, c));
    }
    CutIs(ms, plan, SumTokens(ms), target, |ms|);
  }

  lemma GrowingStage(n: nat, target: int)
    requires n >= 1002 && target < n
    ensures var ms := GrowingConversation(n); Stage(ms, DedupPlan(ms, []), SumTokens(ms), target) == Grown(n)
  {
    hide Strip, DuplicateNote, SumTokens, Stage;
    var ms := GrowingConversation(n);
    GrowingPlan(n);
    StageIsWhole(ms, DedupPlan(ms, []), target);
    assert Rewritten(ms, DedupPlan(ms, []), n) == Grown(n);
  }

  /** Exactly the conversations of more than 1001 messages can grow in the stage: the named index needs four digits. */
  lemma DedupGrowthIff(n: nat)
    ensures n <= 1001 <==>
              forall ms, keepRecent, target :: |ms| == n ==> DedupShrinks(ms, PinnedIndices(ms, keepRecent), target)
  {
    hide DedupShrinks;
    if n <= 1001 {
      forall ms: seq<Message>, keepRecent: nat, target: int | |ms| == n
        ensures DedupShrinks(ms, PinnedIndices(ms, keepRecent), target)
      {
        ShortNamesLow(ms, PinnedIndices(ms, keepRecent));
        DedupNeverGrows(ms, PinnedIndices(ms, keepRecent), target);
      }
    } else {
      GrowsInStage(n);
      assert !DedupShrinks(GrowingConversation(n), PinnedIndices(GrowingConversation(n), 0), 0);
    }
  }

  lemma GrowsInStage(n: nat)
    requires n >= 1002
    ensures !DedupShrinks(GrowingConversation(n), PinnedIndices(GrowingConversation(n), 0), 0)
  {
    hide SumTokens, Stage, DedupPlan, PinnedIndices, Grown;
    NothingIsPinned(n);
    GrowingStage(n, 0);
    GrownIsHeavier(n);
  }

  lemma {:induction false} LastResortNeverGrows(ms: seq<Message>, keepRecent: nat, intent: nat, total: int, target: int)
    ensures SumTokens(LastResort(ms, keepRecent, intent, total, target)) <= SumTokens(ms)
    decreases TotalLength(ms)
  {
    hide HeadTail, InRecentWindow, SumTokens, EstimateTokens;
    var plan := RecentPlan(ms, keepRecent, intent);
    var cut := Cut(ms, plan, total, target, 0);
    RecentPlanShortens(ms, keepRecent, intent);
    RewritingShortens(ms, plan, cut);
    RecentLightens(ms, keepRecent, intent);
    LighteningShrinks(ms, plan, cut);
    if total > target && Touched(plan, cut) {
      LastResortNeverGrows(Rewritten(ms, plan, cut), keepRecent, intent, TotalAt(ms, plan, total, cut), target);
    }
  }

  lemma DigestLightens(ms: seq<Message>, pinned: seq<nat>)
    ensures Lightens(ms, DigestPlan(ms, pinned))
  {
    hide EstimateTokens, Digest;
  }

  lemma RunStageShrinks(p: Progress, plan: Plan, name: StageName, target: int)
    requires |plan| == |p.ms| && Lightens(p.ms, plan)
    ensures SumTokens(RunStage(p, plan, name, target).ms) <= SumTokens(p.ms)
    ensures |RunStage(p, plan, name, target).ms| == |p.ms|
  {
    LighteningShrinks(p.ms, plan, Cut(p.ms, plan, SumTokens(p.ms), target, 0));
  }

  /** The messages the deduplication of a run works on. */
  function Truncation(ms: seq<Message>, pinned: seq<nat>, target: int): seq<Message> {
    RunStage(Progress(ms, []), TruncatePlan(ms, pinned), Truncated, target).ms
  }

  lemma DeterministicShrinks(ms: seq<Message>, pinned: seq<nat>, target: int)
    requires NamesLowIndices(Truncation(ms, pinned, target), pinned)
    ensures SumTokens(Deterministic(ms, pinned, target).ms) <= SumTokens(ms)
  {
    hide RunStage, SumTokens, TruncatePlan, DedupPlan, DigestPlan, Lightens, NamesLowIndices;
    var p0 := Progress(ms, []);
    TruncateLightens(ms, pinned);
    RunStageShrinks(p0, TruncatePlan(ms, pinned), Truncated, target);
    var p1 := RunStage(p0, TruncatePlan(ms, pinned), Truncated, target);
    DedupLightens(p1.ms, pinned);
    RunStageShrinks(p1, DedupPlan(p1.ms, pinned), Deduplicated, target);
    var p2 := RunStage(p1, DedupPlan(p1.ms, pinned), Deduplicated, target);
    DigestLightens(p2.ms, pinned);
    RunStageShrinks(p2, DigestPlan(p2.ms, pinned), Digested, target);
  }

  /**
   Without the summariser's text, a run whose duplicates all name indices below 1000 never ends heavier than it
   began, whatever its length.
   */
  lemma RunNeverGrows(ms: seq<Message>, limits: Limits, world: World)
    requires limits.Valid() && world.reply.None?
    requires var pinned := PinnedIndices(ms, limits.keepRecent);
             limits.Triggers(SumTokens(ms)) ==> NamesLowIndices(Truncation(ms, pinned, limits.Target()), pinned)
    ensures var r := Compressed(ms, limits, world); r.tokensBefore == SumTokens(ms) && r.tokensAfter <= r.tokensBefore
  {
    hide SumTokens, Deterministic, BuildSummaryRequest, PinnedIndices, Forget, LastResort, TokensOf, Dropped, Unpinned, FirstUser,
         NamesLowIndices, Truncation;
    if limits.Triggers(SumTokens(ms)) {
      var target := limits.Target();
      var pinned := PinnedIndices(ms, limits.keepRecent);
      var p := Deterministic(ms, pinned, target);
      DeterministicShrinks(ms, pinned, target);
      ForgetTotalExact(p.ms, pinned, target, world);
      var q := Forgetting(p, pinned, target, limits, world);
      LastResortNeverGrows(q.ms, limits.keepRecent, FirstUser(q.ms), SumTokens(q.ms), target);
    }
  }

  // ---------------------------------------------------------------- a run that grows

  /** The digest of a short line is no lighter than the line. */
  lemma DigestOfShortLine(m: Message)
    requires '\n' !in m.content && |m.content| <= DIGEST_LINE_CHARS
    ensures EstimateTokens(Digest(m)) >= Tokens(m)
  {
    hide Decimal;
    assert FirstLine(m.content) == m.content;
    assert m.content[..|m.content|] == m.content;
    var head := "[cluxion digest] " + m.role + ": ";
    var tail := " [" + Decimal(Tokens(m)) + " tokens elided]";
    assert Digest(m) == head + m.content + tail;
    EstimateGrows(head, m.content, tail);
  }

  lemma EstimateGrows(head: string, s: string, tail: string)
    ensures EstimateTokens(head + s + tail) >= EstimateTokens(s)
  {
    AsciiCountConcat(head, s);
    AsciiCountConcat(head + s, tail);
  }

  lemma NothingPlanned(ms: seq<Message>, plan: Plan, total: int, target: int)
    requires |plan| == |ms| && forall i :: 0 <= i < |ms| ==> plan[i].None?
    ensures Stage(ms, plan, total, target) == ms
  {
  }

  predicate ShortLine(s: string) {
    |s| <= 44 && '\n' !in s && forall i :: 0 <= i < |s| ==> IsAscii(s[i])
  }

  lemma NoteIsShortLine(first: nat)
    requires first <= 1000
    ensures ShortLine(DuplicateNote(first))
  {
    hide Decimal;
    NoteNames(first);
    DecimalLength(first);
    DigitsOnly(first);
    OneLine("[cluxion: duplicate of message #", Decimal(first), " elided]");
    LengthOfThousand(first);
  }

  lemma {:induction false} DigitsOnly(n: nat)
    ensures '\n' !in Decimal(n)
  {
    if n >= 10 {
      DigitsOnly(n / 10);
    }
  }

  lemma OneLine(a: string, b: string, c: string)
    requires '\n' !in a && '\n' !in b && '\n' !in c
    ensures '\n' !in a + b + c
  {
  }

  lemma LengthOfThousand(first: nat)
    requires first <= 1000
    ensures |Decimal(first)| <= 4
  {
    DecimalLength(first / 10);
  }

  lemma GrowingLines(n: nat)
    requires n >= 1002
    ensures forall i :: 0 <= i < n ==> ShortLine(GrowingConversation(n)[i].content) && ShortLine(Grown(n)[i].content)
  {
    hide DuplicateNote;
    NoteIsShortLine(1000);
    assert ShortLine(Repeated().content) && ShortLine(Filler().content);
  }

  /** Nothing in this conversation, before or after deduplication, is worth truncating or digesting. */
  lemma GrowingIsLight(n: nat, target: int)
    requires n >= 1002
    ensures var ms := GrowingConversation(n); Stage(ms, TruncatePlan(ms, []), SumTokens(ms), target) == ms
    ensures Stage(Grown(n), DigestPlan(Grown(n), []), SumTokens(Grown(n)), target) == Grown(n)
  {
    hide EstimateTokens, SumTokens, Digest, Decimal, Stage, HeadTail, Grown, GrowingConversation;
    var ms := GrowingConversation(n);
    GrowingLines(n);
    forall i | 0 <= i < n
      ensures HeadTail(ms[i].content).None?
      ensures EstimateTokens(Digest(Grown(n)[i])) >= Tokens(Grown(n)[i])
    {
      assert ShortLine(ms[i].content) && ShortLine(Grown(n)[i].content);
      HeadTailGuard(ms[i].content);
      DigestOfShortLine(Grown(n)[i]);
    }
    NothingPlanned(ms, TruncatePlan(ms, []), SumTokens(ms), target);
    NothingPlanned(Grown(n), DigestPlan(Grown(n), []), SumTokens(Grown(n)), target);
  }

  lemma DeterministicGrows(n: nat, target: int)
    requires n >= 1002 && target < n
    ensures Deterministic(GrowingConversation(n), [], target).ms == Grown(n)
  {
    hide Stage, SumTokens, TruncatePlan, DedupPlan, DigestPlan, Grown, GrowingConversation;
    GrowingIsLight(n, target);
    GrowingStage(n, target);
  }

  function GrowingLimits(n: nat): Limits {
    Limits(n, 0.5, 0.25, 0, false, false)
  }

  lemma GrowingLimitsApply(n: nat, total: nat)
    requires 1002 <= n <= total
    ensures var limits := GrowingLimits(n); limits.Valid() && limits.Triggers(total) && limits.Target() < n
  {
    assert total as real / n as real >= 1.0;
  }

  lemma SomeUnpinned(ms: seq<Message>)
    requires |ms| > 0
    ensures Unpinned(ms, []) != []
  {
    assert 0 in Unpinned(ms, []);
  }

  /** A run on that conversation, without summariser and without forgetting, ends one token heavier than it began. */
  lemma RunCanGrow(n: nat, world: World)
    requires n >= 1002
    ensures GrowingLimits(n).Valid()
    ensures var r := Compressed(GrowingConversation(n), GrowingLimits(n), world); r.tokensAfter == r.tokensBefore + 1
  {
    hide SumTokens, Deterministic, PinnedIndices, Unpinned, Grown, GrowingConversation, BuildSummaryRequest, LastResort, FirstUser,
         IntentTooBig, Forget, Limits.Target, Limits.Triggers;
    var ms, limits := GrowingConversation(n), GrowingLimits(n);
    SumPositive(ms);
    GrowingLimitsApply(n, SumTokens(ms));
    NothingIsPinned(n);
    DeterministicGrows(n, limits.Target());
    GrownIsHeavier(n);
    SomeUnpinned(Grown(n));
  }

  ghost predicate RunShrinks(ms: seq<Message>, limits: Limits, world: World)
    requires limits.Valid()
  {
    Compressed(ms, limits, world).tokensAfter <= Compressed(ms, limits, world).tokensBefore
  }

  /** Without the summariser's text: runs of every input of a given length are growth-free exactly up to 1001 messages. */
  lemma RunGrowthIff(n: nat, world: World)
    requires world.reply.None?
    ensures n <= 1001 <==> forall ms, limits: Limits :: |ms| == n && limits.Valid() ==> RunShrinks(ms, limits, world)
  {
    hide Compressed;
    if n <= 1001 {
      forall ms: seq<Message>, limits: Limits | |ms| == n && limits.Valid()
        ensures RunShrinks(ms, limits, world)
      {
        ShortNamesLow(Truncation(ms, PinnedIndices(ms, limits.keepRecent), limits.Target()), PinnedIndices(ms, limits.keepRecent));
        RunNeverGrows(ms, limits, world);
      }
    } else {
      RunCanGrow(n, world);
      assert !RunShrinks(GrowingConversation(n), GrowingLimits(n), world);
    }
  }

  // ---------------------------------------------------------------- forgetting the least

  lemma LessImportantIsTotal(ms: seq<Message>, score: (nat, Message, nat) -> real)
    ensures TotalPreorder(LessImportant(ms, score))
  {
  }

  /**
   Forgetting drops the least important unpinned messages and no more of them than it takes: every one dropped
   comes before every one kept, the last one was still needed, and stopping early means the target is met.
   */
  lemma ForgettingDropsTheLeast(ms: seq<Message>, pinned: seq<nat>, total: int, target: int, world: World)
    ensures var drop := Dropped(ms, pinned, total, target, world.score);
            && (forall i: nat :: i in drop ==> i < |ms| && i !in pinned)
            && (forall i: nat, j: nat :: i in drop && j < |ms| && j !in pinned && j !in drop ==>
                  var si, sj := world.score(i, ms[i], |ms|), world.score(j, ms[j], |ms|);
                  si < sj || (si == sj && i < j))
            && (drop != [] ==> total - TokensOf(ms, drop[..|drop| - 1]) > target)
            && (total - TokensOf(ms, drop) <= target || forall i: nat :: i < |ms| && i !in pinned ==> i in drop)
  {
    hide TokensOf, LessImportant, Unpinned;
    var le := LessImportant(ms, world.score);
    var order := DropOrder(ms, pinned, world.score);
    var drop := Dropped(ms, pinned, total, target, world.score);
    DroppedDistinct(ms, pinned, total, target, world.score);
    LessImportantIsTotal(ms, world.score);
    SortSorted(Unpinned(ms, pinned), le);
    forall i: nat, j: nat | i in drop && j < |ms| && j !in pinned && j !in drop
      ensures world.score(i, ms[i], |ms|) < world.score(j, ms[j], |ms|)
           || (world.score(i, ms[i], |ms|) == world.score(j, ms[j], |ms|) && i < j)
    {
      PrefixIsLeast(order, |drop|, le, i, j);
      LessImportantMeans(ms, world.score, i, j);
    }
    if drop != [] {
      assert drop[..|drop| - 1] == order[..|drop| - 1];
    }
  }

  lemma LessImportantMeans(ms: seq<Message>, score: (nat, Message, nat) -> real, i: nat, j: nat)
    requires i < |ms| && j < |ms| && LessImportant(ms, score)(i, j)
    ensures score(i, ms[i], |ms|) < score(j, ms[j], |ms|) || (score(i, ms[i], |ms|) == score(j, ms[j], |ms|) && i <= j)
  {
  }

  lemma PrefixIsLeast(order: seq<nat>, c: nat, le: (nat, nat) -> bool, i: nat, j: nat)
    requires c <= |order| && Sorted(order, le)
    requires i in order[..c] && j in order && j !in order[..c]
    ensures le(i, j) && i != j
  {
    var a :| 0 <= a < c && order[a] == i;
    var b :| 0 <= b < |order| && order[b] == j;
    assert b < c ==> order[b] in order[..c];
  }

  // ---------------------------------------------------------------- the summary request

  lemma HeavierFirstIsTotal(ms: seq<Message>)
    ensures TotalPreorder(HeavierFirst(ms))
  {
    hide Tokens;
  }

  /** The host is asked about the (at most eight) heaviest unpinned messages. */
  lemma RequestNamesTheHeaviest(ms: seq<Message>, pinned: seq<nat>, total: int, target: int)
    ensures BuildSummaryRequest(ms, pinned, total, target).currentTokens == total
    ensures BuildSummaryRequest(ms, pinned, total, target).targetTokens == target
    ensures var r := BuildSummaryRequest(ms, pinned, total, target).indices;
            && |r| == Min(8, |Unpinned(ms, pinned)|) && NoDuplicates(r)
            && (forall i: nat :: i in r ==> i < |ms| && i !in pinned)
            && (forall i: nat, j: nat :: i in r && j < |ms| && j !in pinned && j !in r ==>
                  Tokens(ms[i]) > Tokens(ms[j]) || (Tokens(ms[i]) == Tokens(ms[j]) && i < j))
  {
    hide Tokens, HeavierFirst, Unpinned;
    var le := HeavierFirst(ms);
    var unpinned := Unpinned(ms, pinned);
    var all := Sort(unpinned, le);
    var r := BuildSummaryRequest(ms, pinned, total, target).indices;
    HeavierFirstIsTotal(ms);
    SortSorted(unpinned, le);
    SortMembers(unpinned, le);
    SortNoDuplicates(unpinned, le);
    forall i: nat | i in r
      ensures i < |ms| && i !in pinned
    {
      assert i in all;
    }
    forall i: nat, j: nat | i in r && j < |ms| && j !in pinned && j !in r
      ensures Tokens(ms[i]) > Tokens(ms[j]) || (Tokens(ms[i]) == Tokens(ms[j]) && i < j)
    {
      PrefixIsLeast(all, |r|, le, i, j);
      HeavierMeans(ms, i, j);
    }
  }

  lemma HeavierMeans(ms: seq<Message>, i: nat, j: nat)
    requires i < |ms| && j < |ms| && HeavierFirst(ms)(i, j)
    ensures Tokens(ms[i]) > Tokens(ms[j]) || (Tokens(ms[i]) == Tokens(ms[j]) && i <= j)
  {
    hide Tokens;
  }

  // ---------------------------------------------------------------- flags

  lemma {:induction false} SumAtLeast(ms: seq<Message>, i: nat)
    requires i < |ms|
    ensures SumTokens(ms) >= Tokens(ms[i])
  {
    if i < |ms| - 1 {
      SumAtLeast(ms[..|ms| - 1], i);
    }
  }

  /**
   `forced_over_target` can be read off the input: the run is triggered and the first user message alone is over
   the target. `over_target_pinned_only` never says anything else.
   */
  lemma ForcedFlagIff(ms: seq<Message>, limits: Limits, world: World)
    requires limits.Valid()
    ensures var r := Compressed(ms, limits, world);
            && r.overTargetPinnedOnly == r.forcedOverTarget
            && (r.forcedOverTarget <==> limits.Triggers(SumTokens(ms)) && IntentTooBig(ms, limits.Target()))
            && (r.forcedOverTarget ==> r.tokensAfter > limits.Target())
  {
    hide FirstUser, SumTokens, InRecentWindow, PinnedIndices, Deterministic, Summarise, Forgetting, Finish, BuildSummaryRequest, Tokens;
    if limits.Triggers(SumTokens(ms)) {
      var k, target := limits.keepRecent, limits.Target();
      var pinned := PinnedIndices(ms, k);
      var p2 := Prepared(ms, limits, world);
      PreparedKeeps(ms, limits, world);
      PinsFollowShape(ms, p2.ms, k);
      FirstUserShape(ms, p2.ms);
      IntentIsPinned(ms, k);
      ForgettingIsSelection(p2, pinned, target, limits, world);
      var p3 := Forgetting(p2, pinned, target, limits, world);
      var pinned' := if Forgets(p2, target, limits) then PinnedIndices(p3.ms, k) else pinned;
      FinishKeeps(p3, pinned', target, limits);
      var q := Finish(p3, pinned', target, limits).ms;
      FirstUserShape(p3.ms, q);
      var f := FirstUser(q);
      if f < |q| {
        SumAtLeast(q, f);
        assert q[f] == ms[FirstUser(ms)];
      }
    }
  }
}

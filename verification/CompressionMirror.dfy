/** The deterministic stages of the Rust mirror, and exactly where they part from those of the Python pipeline. */
module CompressionMirror {
  import opened Wrappers
  import opened Text
  import opened Sorting
  import opened Compression
  import opened CompressionFacts
  import opened CompressionTheorems
  import opened CompressionStages
  import opened CompressionPins
  import opened CompressionRequests

  // ---------------------------------------------------------------- the mirror's rules

  /** The truncation rule, which has no length guard. */
  function MirrorHeadTail(content: string): Option<string> {
    if EstimateTokens(content) <= TRUNCATE_MIN_TOKENS || |content| <= TRUNCATE_HEAD_CHARS + TRUNCATE_TAIL_CHARS then None
    else Some(content[..TRUNCATE_HEAD_CHARS]
              + ElisionNote(|content| - TRUNCATE_HEAD_CHARS - TRUNCATE_TAIL_CHARS)
              + content[|content| - TRUNCATE_TAIL_CHARS..])
  }

  predicate Separator(c: char) {
    28 <= c as int <= 31
  }

  /** The code points `trim` removes: those of `strip` without the separators U+001C to U+001F. */
  predicate MirrorSpace(c: char) {
    IsSpace(c) && !Separator(c)
  }

  function MirrorSkip(s: string, i: nat): (r: nat)
    requires i <= |s|
    ensures i <= r <= |s| && forall k :: i <= k < r ==> MirrorSpace(s[k])
    ensures r < |s| ==> !MirrorSpace(s[r])
    decreases |s| - i
  {
    if i < |s| && MirrorSpace(s[i]) then MirrorSkip(s, i + 1) else i
  }

  function MirrorEnd(s: string, lo: nat, hi: nat): (r: nat)
    requires lo <= hi <= |s|
    ensures lo <= r <= hi && forall k :: r <= k < hi ==> MirrorSpace(s[k])
    ensures lo < r ==> !MirrorSpace(s[r - 1])
  {
    if lo < hi && MirrorSpace(s[hi - 1]) then MirrorEnd(s, lo, hi - 1) else hi
  }

  function MirrorTrim(s: string): string {
    var lo := MirrorSkip(s, 0);
    s[lo..MirrorEnd(s, lo, |s|)]
  }

  function MirrorTruncatePlan(ms: seq<Message>, pinned: seq<nat>): (p: Plan)
    ensures |p| == |ms|
  {
    seq(|ms|, i requires 0 <= i < |ms| => if i in pinned then None else MirrorHeadTail(ms[i].content))
  }

  function MirrorFirstSame(ms: seq<Message>, i: nat, j: nat): (f: nat)
    requires j <= i < |ms|
    requires forall k :: 0 <= k < j ==> MirrorTrim(ms[k].content) != MirrorTrim(ms[i].content)
    ensures f <= i && MirrorTrim(ms[f].content) == MirrorTrim(ms[i].content)
    ensures forall k :: 0 <= k < f ==> MirrorTrim(ms[k].content) != MirrorTrim(ms[i].content)
    decreases i - j
  {
    if MirrorTrim(ms[j].content) == MirrorTrim(ms[i].content) then j else MirrorFirstSame(ms, i, j + 1)
  }

  function MirrorDedupPlan(ms: seq<Message>, pinned: seq<nat>): (p: Plan)
    ensures |p| == |ms|
  {
    seq(|ms|, i requires 0 <= i < |ms| =>
      if |MirrorTrim(ms[i].content)| < DEDUP_MIN_CHARS || MirrorFirstSame(ms, i, 0) == i || i in pinned then None
      else Some(DuplicateNote(MirrorFirstSame(ms, i, 0))))
  }

  /** Stage 1 of the mirror. */
  function MirrorDeterministic(ms: seq<Message>, pinned: seq<nat>, target: int): Progress {
    var p1 := RunStage(Progress(ms, []), MirrorTruncatePlan(ms, pinned), Truncated, target);
    var p2 := RunStage(p1, MirrorDedupPlan(p1.ms, pinned), Deduplicated, target);
    RunStage(p2, DigestPlan(p2.ms, pinned), Digested, target)
  }

  // ---------------------------------------------------------------- rule by rule

  /** The two truncation rules answer alike except for heavy messages of 1801 to 1834 characters. */
  lemma TruncationRulesAgreeIff(content: string)
    ensures MirrorHeadTail(content) == HeadTail(content) <==> !(EstimateTokens(content) > 512 && 1801 <= |content| <= 1834)
  {
    HeadTailGuard(content);
  }

  /** A heavy message the mirror rewrites and Python keeps; a text that already is its own excerpt is no difference. */
  predicate InTheGap(content: string) {
    && EstimateTokens(content) > 512 && 1801 <= |content| <= 1834
    && content[1200..|content| - 600] != ElisionNote(|content| - 1800)
  }

  /** What a plan entry makes of a message's text. */
  function Effect(entry: Option<string>, content: string): string {
    if entry.Some? then entry.value else content
  }

  lemma TruncationEffectIff(content: string)
    ensures Effect(MirrorHeadTail(content), content) == Effect(HeadTail(content), content) <==> !InTheGap(content)
  {
    hide EstimateTokens, ElisionNote, HeadTail;
    TruncationRulesAgreeIff(content);
    HeadTailGuard(content);
    if EstimateTokens(content) > 512 && 1801 <= |content| <= 1834 {
      var n := |content|;
      var note := ElisionNote(n - 1800);
      ElisionNoteLength(n - 1800);
      var r := content[..1200] + note + content[n - 600..];
      assert content == content[..1200] + content[1200..n - 600] + content[n - 600..];
      assert r[1200..|r| - 600] == note;
    }
  }

  /** The text `trim` leaves does not begin or end with a separator. */
  predicate TrimsAgree(s: string) {
    var t := MirrorTrim(s);
    t == "" || (!Separator(t[0]) && !Separator(t[|t| - 1]))
  }

  /** `strip` removes at least what `trim` does. */
  lemma StripWithinTrim(s: string)
    ensures var a, c := MirrorSkip(s, 0), SkipSpaces(s, 0);
            a <= c && (c < |s| ==> a < MirrorEnd(s, a, |s|) && c < TrimEnd(s, c, |s|) <= MirrorEnd(s, a, |s|))
  {
  }

  lemma TrimsDiffer(s: string)
    requires !TrimsAgree(s)
    ensures MirrorTrim(s) != Strip(s)
  {
    StripPlace(s);
  }

  /** Exactly then `strip` leaves the same text. */
  lemma TrimsAgreeIff(s: string)
    ensures MirrorTrim(s) == Strip(s) <==> TrimsAgree(s)
  {
    if TrimsAgree(s) {
      var a, c := MirrorSkip(s, 0), SkipSpaces(s, 0);
      var b, d := MirrorEnd(s, a, |s|), TrimEnd(s, c, |s|);
      StripWithinTrim(s);
      if a < b {
        assert c == a;
        assert d == b;
      }
    } else {
      TrimsDiffer(s);
    }
  }

  /** Which earlier message a deduplication rule names for message `i`, if any. */
  function Original(long: bool, first: nat, i: nat): Option<nat> {
    if long && first < i then Some(first) else None
  }

  /**
   The two deduplication rules see message `i` alike: it repeats the same earlier message for both, or none; or it
   repeats one for a single rule and already reads as the note that rule would write.
   */
  predicate DuplicatesAgree(ms: seq<Message>, i: nat)
    requires i < |ms|
  {
    var p := Original(|Strip(ms[i].content)| >= DEDUP_MIN_CHARS, FirstSame(ms, i, 0), i);
    var q := Original(|MirrorTrim(ms[i].content)| >= DEDUP_MIN_CHARS, MirrorFirstSame(ms, i, 0), i);
    || p == q
    || (p.Some? && q.None? && ms[i].content == DuplicateNote(p.value))
    || (p.None? && q.Some? && ms[i].content == DuplicateNote(q.value))
  }

  lemma NotesDiffer(a: nat, b: nat)
    requires a != b
    ensures DuplicateNote(a) != DuplicateNote(b)
  {
    hide DuplicateNote, NamedIndex;
    NoteNames(a);
    NoteNames(b);
  }

  lemma DedupEffectIff(ms: seq<Message>, pinned: seq<nat>, i: nat)
    requires i < |ms| && i !in pinned
    ensures Effect(DedupPlan(ms, pinned)[i], ms[i].content) == Effect(MirrorDedupPlan(ms, pinned)[i], ms[i].content)
       <==> DuplicatesAgree(ms, i)
  {
    hide Strip, MirrorTrim, DuplicateNote;
    var a, b := FirstSame(ms, i, 0), MirrorFirstSame(ms, i, 0);
    if a != b {
      NotesDiffer(a, b);
    }
  }

  // ---------------------------------------------------------------- stage by stage

  /** Two plans do the same to the messages a stage reaches. */
  ghost predicate AlikeBefore(ms: seq<Message>, a: Plan, b: Plan, cut: nat)
    requires |a| == |ms| == |b|
  {
    forall i :: 0 <= i < cut && i < |ms| ==> Effect(a[i], ms[i].content) == Effect(b[i], ms[i].content)
  }

  lemma RewrittenAlike(ms: seq<Message>, a: Plan, b: Plan, cut: nat)
    requires |a| == |ms| == |b| && AlikeBefore(ms, a, b, cut)
    ensures Rewritten(ms, a, cut) == Rewritten(ms, b, cut)
  {
  }

  lemma TotalsAlike(ms: seq<Message>, a: Plan, b: Plan, total: int, cut: nat)
    requires |a| == |ms| == |b| && AlikeBefore(ms, a, b, cut)
    ensures forall c :: 0 <= c <= cut ==> TotalAt(ms, a, total, c) == TotalAt(ms, b, total, c)
  {
    hide SumTokens;
    forall c | 0 <= c <= cut
      ensures TotalAt(ms, a, total, c) == TotalAt(ms, b, total, c)
    {
      RewrittenAlike(ms, a, b, c);
    }
  }

  /** A stage run with two plans gives the same messages exactly when the plans agree on every message it reaches. */
  lemma StagesAgreeIff(ms: seq<Message>, a: Plan, b: Plan, total: int, target: int)
    requires |a| == |ms| == |b|
    ensures Stage(ms, a, total, target) == Stage(ms, b, total, target) <==> AlikeBefore(ms, a, b, Cut(ms, a, total, target, 0))
  {
    hide SumTokens, TotalAt;
    var c := Cut(ms, a, total, target, 0);
    if AlikeBefore(ms, a, b, c) {
      TotalsAlike(ms, a, b, total, c);
      CutIsOf(ms, b, total, target, c);
      RewrittenAlike(ms, a, b, c);
    } else {
      var x: nat :| x < c && Effect(a[x], ms[x].content) != Effect(b[x], ms[x].content);
      var f := FirstDifference(ms, a, b, x);
      TotalsAlike(ms, a, b, total, f);
      var d := Cut(ms, b, total, target, 0);
      assert d > f;
      assert Stage(ms, a, total, target)[f] != Stage(ms, b, total, target)[f];
    }
  }

  lemma CutIsOf(ms: seq<Message>, plan: Plan, total: int, target: int, c: nat)
    requires |plan| == |ms| && c <= |ms|
    requires c == |ms| || TotalAt(ms, plan, total, c) <= target
    requires forall j :: 0 <= j < c ==> TotalAt(ms, plan, total, j) > target
    ensures Cut(ms, plan, total, target, 0) == c
  {
    hide TotalAt;
  }

  lemma {:induction false} FirstDifference(ms: seq<Message>, a: Plan, b: Plan, x: nat) returns (f: nat)
    requires |a| == |ms| == |b| && x < |ms| && Effect(a[x], ms[x].content) != Effect(b[x], ms[x].content)
    ensures f <= x && Effect(a[f], ms[f].content) != Effect(b[f], ms[f].content) && AlikeBefore(ms, a, b, f)
  {
    if y: nat :| y < x && Effect(a[y], ms[y].content) != Effect(b[y], ms[y].content) {
      f := FirstDifference(ms, a, b, y);
    } else {
      f := x;
    }
  }

  // ---------------------------------------------------------------- the whole of stage 1

  function MirrorTruncation(ms: seq<Message>, pinned: seq<nat>, target: int): seq<Message> {
    RunStage(Progress(ms, []), MirrorTruncatePlan(ms, pinned), Truncated, target).ms
  }

  function Deduplication(p1: seq<Message>, plan: Plan, target: int): seq<Message>
    requires |plan| == |p1|
  {
    Stage(p1, plan, SumTokens(p1), target)
  }

  /** The messages are the same after truncation, after deduplication and after the digests. */
  ghost predicate SameAfterEveryStage(ms: seq<Message>, pinned: seq<nat>, target: int) {
    var p, q := Truncation(ms, pinned, target), MirrorTruncation(ms, pinned, target);
    && p == q
    && Deduplication(p, DedupPlan(p, pinned), target) == Deduplication(q, MirrorDedupPlan(q, pinned), target)
    && Deterministic(ms, pinned, target).ms == MirrorDeterministic(ms, pinned, target).ms
  }

  /** How many messages truncation and deduplication reach before the target is met. */
  function TruncationReach(ms: seq<Message>, pinned: seq<nat>, target: int): nat {
    Cut(ms, TruncatePlan(ms, pinned), SumTokens(ms), target, 0)
  }

  function DedupReach(p1: seq<Message>, pinned: seq<nat>, target: int): nat {
    Cut(p1, DedupPlan(p1, pinned), SumTokens(p1), target, 0)
  }

  ghost predicate NoGapReached(ms: seq<Message>, pinned: seq<nat>, target: int) {
    forall i :: 0 <= i < TruncationReach(ms, pinned, target) && i < |ms| && i !in pinned ==> !InTheGap(ms[i].content)
  }

  ghost predicate DuplicatesAgreeAsReached(p1: seq<Message>, pinned: seq<nat>, target: int) {
    forall i :: 0 <= i < DedupReach(p1, pinned, target) && i < |p1| && i !in pinned ==> DuplicatesAgree(p1, i)
  }

  lemma TruncationsAgreeIff(ms: seq<Message>, pinned: seq<nat>, target: int)
    ensures Truncation(ms, pinned, target) == MirrorTruncation(ms, pinned, target) <==> NoGapReached(ms, pinned, target)
  {
    hide HeadTail, MirrorHeadTail, InTheGap, SumTokens, Cut, Stage;
    var a, b := TruncatePlan(ms, pinned), MirrorTruncatePlan(ms, pinned);
    forall i | 0 <= i < |ms| && i !in pinned
      ensures Effect(b[i], ms[i].content) == Effect(a[i], ms[i].content) <==> !InTheGap(ms[i].content)
    {
      TruncationEffectIff(ms[i].content);
    }
    StagesAgreeIff(ms, a, b, SumTokens(ms), target);
  }

  lemma DedupsAgreeIff(p1: seq<Message>, pinned: seq<nat>, target: int)
    ensures Deduplication(p1, DedupPlan(p1, pinned), target) == Deduplication(p1, MirrorDedupPlan(p1, pinned), target)
       <==> DuplicatesAgreeAsReached(p1, pinned, target)
  {
    hide DuplicatesAgree, SumTokens, Cut, Stage, Strip, MirrorTrim;
    var a, b := DedupPlan(p1, pinned), MirrorDedupPlan(p1, pinned);
    forall i | 0 <= i < |p1| && i !in pinned
      ensures Effect(a[i], p1[i].content) == Effect(b[i], p1[i].content) <==> DuplicatesAgree(p1, i)
    {
      DedupEffectIff(p1, pinned, i);
    }
    StagesAgreeIff(p1, a, b, SumTokens(p1), target);
  }

  /**
   The promise of identical stage-1 output, over conversations: the two pipelines agree after every stage exactly
   when truncation reaches no unpinned message in the gap, and deduplication none whose duplicates they see differently.
   */
  lemma BackendsAgreeIff(ms: seq<Message>, pinned: seq<nat>, target: int)
    ensures SameAfterEveryStage(ms, pinned, target)
       <==> NoGapReached(ms, pinned, target) && DuplicatesAgreeAsReached(Truncation(ms, pinned, target), pinned, target)
  {
    hide Stage, Cut, SumTokens, TruncatePlan, MirrorTruncatePlan, DedupPlan, MirrorDedupPlan, DigestPlan, NoGapReached,
         DuplicatesAgreeAsReached;
    TruncationsAgreeIff(ms, pinned, target);
    DedupsAgreeIff(Truncation(ms, pinned, target), pinned, target);
  }

  // ---------------------------------------------------------------- what the digests leave of a difference

  /** The part of a message's first line that its digest shows. */
  function Excerpt(m: Message): string {
    var line := FirstLine(m.content);
    line[..Min(DIGEST_LINE_CHARS, |line|)]
  }

  lemma {:induction false} DecimalDigits(n: nat)
    ensures forall i :: 0 <= i < |Decimal(n)| ==> '0' <= Decimal(n)[i] <= '9'
  {
    if n >= 10 {
      DecimalDigits(n / 10);
    }
  }

  /** A text before a bracketed number can be told from the number. */
  lemma NumberedTextsDiffer(a: string, d: string, b: string, e: string)
    requires a + " [" + d == b + " [" + e
    requires (forall i :: 0 <= i < |d| ==> '0' <= d[i] <= '9') && forall i :: 0 <= i < |e| ==> '0' <= e[i] <= '9'
    ensures a == b && d == e
  {
    var x, y := a + " [" + d, b + " [" + e;
    assert x[|a| + 1] == '[' && y[|b| + 1] == '[';
    assert forall k :: |a| + 2 <= k < |x| ==> x[k] == d[k - |a| - 2];
    assert forall k :: |b| + 2 <= k < |y| ==> y[k] == e[k - |b| - 2];
    assert |a| == |b|;
    assert a == x[..|a|] && b == y[..|b|];
    assert d == x[|a| + 2..] && e == y[|b| + 2..];
  }

  lemma DigestsEqualIff(m: Message, v: Message)
    requires m.role == v.role
    ensures Digest(m) == Digest(v) <==> Excerpt(m) == Excerpt(v) && Tokens(m) == Tokens(v)
  {
    hide Decimal, Tokens, FirstLine;
    var head, tail := "[cluxion digest] " + m.role + ": ", " tokens elided]";
    var x, y := Excerpt(m) + " [" + Decimal(Tokens(m)), Excerpt(v) + " [" + Decimal(Tokens(v));
    assert Digest(m) == head + x + tail && Digest(v) == head + y + tail;
    if Digest(m) == Digest(v) {
      assert x == Digest(m)[|head|..|Digest(m)| - |tail|] && y == Digest(v)[|head|..|Digest(v)| - |tail|];
      DecimalDigits(Tokens(m));
      DecimalDigits(Tokens(v));
      NumberedTextsDiffer(Excerpt(m), Decimal(Tokens(m)), Excerpt(v), Decimal(Tokens(v)));
      DecimalRoundTrip(Tokens(m));
      DecimalRoundTrip(Tokens(v));
    }
  }

  /** Message `i` is digested before the target is met. */
  predicate GetsDigest(p2: seq<Message>, pinned: seq<nat>, target: int, i: nat)
    requires i < |p2|
  {
    i < Cut(p2, DigestPlan(p2, pinned), SumTokens(p2), target, 0) && DigestPlan(p2, pinned)[i].Some?
  }

  /**
   The digests leave message `i` the same for both: equal texts are digested alike; unequal ones both, to the same
   excerpt and weight, or only one of them, to the text of the other.
   */
  predicate SameInTheEnd(p: seq<Message>, q: seq<Message>, pinned: seq<nat>, target: int, i: nat)
    requires i < |p| == |q|
  {
    var a, b := GetsDigest(p, pinned, target, i), GetsDigest(q, pinned, target, i);
    if p[i].content == q[i].content then a <==> b
    else
      || (a && b && Excerpt(p[i]) == Excerpt(q[i]) && Tokens(p[i]) == Tokens(q[i]))
      || (a && !b && Digest(p[i]) == q[i].content)
      || (!a && b && Digest(q[i]) == p[i].content)
  }

  lemma DigestStageAt(p: seq<Message>, pinned: seq<nat>, target: int, i: nat)
    requires i < |p|
    ensures Stage(p, DigestPlan(p, pinned), SumTokens(p), target)[i]
         == if GetsDigest(p, pinned, target, i) then p[i].(content := Digest(p[i])) else p[i]
    ensures GetsDigest(p, pinned, target, i) ==> Digest(p[i]) != p[i].content
  {
    hide SumTokens, Cut, Digest, EstimateTokens;
  }

  lemma SameInTheEndIff(p: seq<Message>, q: seq<Message>, pinned: seq<nat>, target: int, i: nat)
    requires i < |p| == |q| && p[i].role == q[i].role && p[i].pinned == q[i].pinned
    ensures Stage(p, DigestPlan(p, pinned), SumTokens(p), target)[i] == Stage(q, DigestPlan(q, pinned), SumTokens(q), target)[i]
       <==> SameInTheEnd(p, q, pinned, target, i)
  {
    hide SumTokens, Stage, Digest, GetsDigest, Excerpt, Tokens, DigestPlan;
    DigestStageAt(p, pinned, target, i);
    DigestStageAt(q, pinned, target, i);
    DigestsEqualIff(p[i], q[i]);
    assert p[i].content == q[i].content ==> p[i] == q[i];
  }

  lemma TwoStagesKeep(ms: seq<Message>, pinned: seq<nat>, target: int)
    ensures SameShape(ms, PythonInput(ms, pinned, target)) && SameShape(ms, MirrorInput(ms, pinned, target))
  {
    hide Stage, SumTokens, TruncatePlan, MirrorTruncatePlan, DedupPlan, MirrorDedupPlan;
    var p, q := Truncation(ms, pinned, target), MirrorTruncation(ms, pinned, target);
    StageKeeps(ms, TruncatePlan(ms, pinned), SumTokens(ms), target);
    StageKeeps(ms, MirrorTruncatePlan(ms, pinned), SumTokens(ms), target);
    StageKeeps(p, DedupPlan(p, pinned), SumTokens(p), target);
    StageKeeps(q, MirrorDedupPlan(q, pinned), SumTokens(q), target);
  }

  /** What the digests of the two backends start from. */
  function PythonInput(ms: seq<Message>, pinned: seq<nat>, target: int): seq<Message> {
    var p := Truncation(ms, pinned, target);
    Deduplication(p, DedupPlan(p, pinned), target)
  }

  function MirrorInput(ms: seq<Message>, pinned: seq<nat>, target: int): seq<Message> {
    var q := MirrorTruncation(ms, pinned, target);
    Deduplication(q, MirrorDedupPlan(q, pinned), target)
  }

  /** The outputs of stage 1 agree exactly when every message the digests start from ends up the same for both. */
  lemma OutputsAgreeIff(ms: seq<Message>, pinned: seq<nat>, target: int)
    ensures |PythonInput(ms, pinned, target)| == |MirrorInput(ms, pinned, target)| == |ms|
    ensures Deterministic(ms, pinned, target).ms == MirrorDeterministic(ms, pinned, target).ms
       <==> forall i :: 0 <= i < |ms| ==> SameInTheEnd(PythonInput(ms, pinned, target), MirrorInput(ms, pinned, target), pinned, target, i)
  {
    hide Stage, SumTokens, TruncatePlan, MirrorTruncatePlan, DedupPlan, MirrorDedupPlan, DigestPlan, SameInTheEnd;
    var p, q := PythonInput(ms, pinned, target), MirrorInput(ms, pinned, target);
    TwoStagesKeep(ms, pinned, target);
    var a, b := Stage(p, DigestPlan(p, pinned), SumTokens(p), target), Stage(q, DigestPlan(q, pinned), SumTokens(q), target);
    assert Deterministic(ms, pinned, target).ms == a && MirrorDeterministic(ms, pinned, target).ms == b;
    assert a == b <==> forall i :: 0 <= i < |ms| ==> a[i] == b[i];
    forall i | 0 <= i < |ms|
      ensures a[i] == b[i] <==> SameInTheEnd(p, q, pinned, target, i)
    {
      SameInTheEndIff(p, q, pinned, target, i);
    }
  }

  // ---------------------------------------------------------------- a promise that can be checked on the input

  lemma TrimIs(s: string, i: nat, j: nat)
    requires i <= j < |s| && !MirrorSpace(s[i]) && !MirrorSpace(s[j])
    requires (forall k :: 0 <= k < i ==> MirrorSpace(s[k])) && forall k :: j < k < |s| ==> MirrorSpace(s[k])
    ensures MirrorTrim(s) == s[i..j + 1]
  {
    assert MirrorSkip(s, 0) == i;
    assert MirrorEnd(s, i, |s|) == j + 1;
  }

  /** Neither removed by `trim` nor a separator. */
  predicate Solid(c: char) {
    !MirrorSpace(c) && !Separator(c)
  }

  /** What `trim` leaves begins and ends at the outermost characters it does not remove. */
  lemma TrimEnds(s: string)
    ensures var a := MirrorSkip(s, 0); var b := MirrorEnd(s, a, |s|);
            && (a < |s| ==> a < b && MirrorTrim(s) != "" && MirrorTrim(s)[0] == s[a])
            && (a < b ==> MirrorTrim(s) != "" && MirrorTrim(s)[|MirrorTrim(s)| - 1] == s[b - 1])
  {
    hide MirrorSpace;
  }

  lemma TruncatedFront(content: string, v: string) returns (i: nat)
    requires HeadTail(content) == Some(v) && TrimsAgree(content)
    ensures i <= 1201 < |v| && Solid(v[i]) && forall k :: 0 <= k < i ==> MirrorSpace(v[k])
  {
    hide HeadTail, EstimateTokens, MirrorSpace, Separator, MirrorTrim, ElisionNote;
    var a := MirrorSkip(content, 0);
    TrimEnds(content);
    SpliceIs(content, v);
    NoteBrackets(v, |content| - 1800);
    if a < 1200 {
      i := a;
    } else {
      i := 1201;
    }
  }

  lemma TruncatedBack(content: string, v: string) returns (j: nat)
    requires HeadTail(content) == Some(v) && TrimsAgree(content)
    ensures 1201 <= j < |v| && Solid(v[j]) && forall k :: j < k < |v| ==> MirrorSpace(v[k])
  {
    hide HeadTail, EstimateTokens, MirrorSpace, Separator, MirrorTrim, ElisionNote;
    var n := |content|;
    var a := MirrorSkip(content, 0);
    TrimEnds(content);
    var b := MirrorEnd(content, a, n);
    SpliceIs(content, v);
    NoteBrackets(v, n - 1800);
    if a < b && n - 600 < b {
      j := b - 1 - (n - |v|);
      assert v[j] == content[b - 1];
    } else {
      j := |v| - 602;
      assert forall k :: n - 600 <= k < n ==> MirrorSpace(content[k]);
    }
  }

  /** A truncated text begins and ends, for `trim`, with the same character as before or with a bracket of the note. */
  lemma TruncationKeepsTrims(content: string)
    requires HeadTail(content).Some? && TrimsAgree(content)
    ensures TrimsAgree(HeadTail(content).value)
  {
    hide HeadTail, EstimateTokens, MirrorSpace, Separator, MirrorTrim;
    var v := HeadTail(content).value;
    var i := TruncatedFront(content, v);
    var j := TruncatedBack(content, v);
    TrimIs(v, i, j);
  }

  /** Character by character, what a truncated text consists of. */
  lemma SpliceIs(content: string, v: string)
    requires HeadTail(content) == Some(v)
    ensures 1834 < |content| && |v| >= 1832 + 1 && |v| < |content|
    ensures forall k :: 0 <= k < 1200 ==> v[k] == content[k]
    ensures forall k :: |v| - 600 <= k < |v| ==> v[k] == content[k + |content| - |v|]
    ensures v[1200..|v| - 600] == ElisionNote(|content| - 1800)
  {
    hide EstimateTokens, ElisionNote;
    HeadTailGuard(content);
    ElisionNoteLength(|content| - 1800);
    var note := ElisionNote(|content| - 1800);
    assert v == content[..1200] + note + content[|content| - 600..];
  }

  lemma NoteBrackets(v: string, e: nat)
    requires |v| >= 1833 && v[1200..|v| - 600] == ElisionNote(e)
    ensures v[1200] == '\n' && Solid(v[1201]) && Solid(v[|v| - 602]) && v[|v| - 601] == '\n'
    ensures MirrorSpace('\n')
  {
    var w := v[1200..|v| - 600];
    assert v[1200] == w[0] && v[1201] == w[1] && v[|v| - 602] == w[|w| - 2] && v[|v| - 601] == w[|w| - 1];
  }

  lemma DedupRulesAgree(ms: seq<Message>, pinned: seq<nat>)
    requires forall i :: 0 <= i < |ms| ==> TrimsAgree(ms[i].content)
    ensures MirrorDedupPlan(ms, pinned) == DedupPlan(ms, pinned)
  {
    hide Strip, MirrorTrim, TrimsAgree;
    forall i | 0 <= i < |ms|
      ensures MirrorTrim(ms[i].content) == Strip(ms[i].content)
    {
      TrimsAgreeIff(ms[i].content);
    }
    forall i | 0 <= i < |ms|
      ensures MirrorFirstSame(ms, i, 0) == FirstSame(ms, i, 0)
    {
    }
  }

  lemma TruncationKeepsAllTrims(ms: seq<Message>, pinned: seq<nat>, target: int)
    requires forall i :: 0 <= i < |ms| ==> TrimsAgree(ms[i].content)
    ensures forall i :: 0 <= i < |ms| ==> TrimsAgree(Truncation(ms, pinned, target)[i].content)
  {
    hide Cut, HeadTail, TrimsAgree;
    forall i | 0 <= i < |ms|
      ensures TrimsAgree(Truncation(ms, pinned, target)[i].content)
    {
      if HeadTail(ms[i].content).Some? {
        TruncationKeepsTrims(ms[i].content);
      }
    }
  }

  lemma TruncatePlansAgree(ms: seq<Message>, pinned: seq<nat>)
    requires forall i :: 0 <= i < |ms| && i !in pinned ==> !(EstimateTokens(ms[i].content) > 512 && 1801 <= |ms[i].content| <= 1834)
    ensures MirrorTruncatePlan(ms, pinned) == TruncatePlan(ms, pinned)
  {
    hide HeadTail, MirrorHeadTail, EstimateTokens;
    forall i | 0 <= i < |ms| && i !in pinned
      ensures MirrorHeadTail(ms[i].content) == HeadTail(ms[i].content)
    {
      TruncationRulesAgreeIff(ms[i].content);
    }
  }

  /**
   Read off the input: when no text's trimmed form begins or ends with a separator and no unpinned message is heavy
   with 1801 to 1834 characters, stage 1 is identical in both backends, stage names included, at every target.
   */
  lemma BackendsAgree(ms: seq<Message>, pinned: seq<nat>, target: int)
    requires forall i :: 0 <= i < |ms| ==> TrimsAgree(ms[i].content)
    requires forall i :: 0 <= i < |ms| && i !in pinned ==> !(EstimateTokens(ms[i].content) > 512 && 1801 <= |ms[i].content| <= 1834)
    ensures MirrorDeterministic(ms, pinned, target) == Deterministic(ms, pinned, target)
  {
    hide TrimsAgree, RunStage, TruncatePlan, MirrorTruncatePlan, DedupPlan, MirrorDedupPlan, DigestPlan, EstimateTokens;
    TruncatePlansAgree(ms, pinned);
    TruncationKeepsAllTrims(ms, pinned, target);
    SameLength(ms, pinned, target);
    DedupRulesAgree(Truncation(ms, pinned, target), pinned);
  }

  lemma SameLength(ms: seq<Message>, pinned: seq<nat>, target: int)
    ensures |Truncation(ms, pinned, target)| == |ms|
  {
  }

  // ---------------------------------------------------------------- two conversations on which the outputs differ

  function Accents(): string {
    seq(1810, _ => '\U{00E9}')
  }

  lemma {:induction false} NoAscii(s: string)
    requires forall i :: 0 <= i < |s| ==> !IsAscii(s[i])
    ensures AsciiCount(s) == 0
  {
    if |s| > 0 {
      NoAscii(s[1..]);
    }
  }

  lemma AccentsAreInTheGap()
    ensures EstimateTokens(Accents()) == 1810 && InTheGap(Accents())
    ensures HeadTail(Accents()).None?
    ensures MirrorHeadTail(Accents()).Some? && |MirrorHeadTail(Accents()).value| == 1834
  {
    hide MirrorHeadTail, HeadTail;
    var s := Accents();
    NoAscii(s);
    HeadTailGuard(s);
    ElisionNoteLength(10);
    DecimalLength(10);
    assert s[1200..|s| - 600][2] != ElisionNote(10)[2];
    MirrorLength(s);
  }

  lemma MirrorLength(s: string)
    requires EstimateTokens(s) > 512 && |s| > 1800
    ensures MirrorHeadTail(s).Some? && |MirrorHeadTail(s).value| == 1832 + |Decimal(|s| - 1800)|
  {
    hide EstimateTokens, ElisionNote;
    ElisionNoteLength(|s| - 1800);
  }

  lemma AccentsExcerpt()
    ensures MirrorHeadTail(Accents()).Some? && EstimateTokens(MirrorHeadTail(Accents()).value) == 1808
  {
    hide EstimateTokens;
    var s, note := Accents(), ElisionNote(10);
    AccentsAreInTheGap();
    ElisionNoteLength(10);
    DecimalLength(10);
    ExcerptWeight(s[..1200], note, s[|s| - 600..]);
  }

  lemma ExcerptWeight(head: string, note: string, tail: string)
    requires forall i :: 0 <= i < |head| ==> !IsAscii(head[i])
    requires forall i :: 0 <= i < |tail| ==> !IsAscii(tail[i])
    requires AllAscii(note) && |head| > 0
    ensures EstimateTokens(head + note + tail) == |head| + |tail| + |note| / 4
  {
    AsciiCountConcat(head, note);
    AsciiCountConcat(head + note, tail);
    NoAscii(head);
    NoAscii(tail);
    AsciiCountAll(note);
  }

  lemma StageOnOne(m: Message, plan: Plan, target: int)
    requires |plan| == 1
    ensures Stage([m], plan, SumTokens([m]), target)
         == [if Tokens(m) > target then m.(content := Effect(plan[0], m.content)) else m]
  {
    hide Tokens;
    assert [m][..0] == [];
    TotalStart([m], plan, Tokens(m));
    assert Rewritten([m], plan, 1) == [m.(content := Effect(plan[0], m.content))];
    CutIs([m], plan, Tokens(m), target, if Tokens(m) > target then 1 else 0);
  }

  lemma DigestIsShort(m: Message)
    ensures |Digest(m)| <= 157 + |m.role| + Tokens(m) / 10
  {
    hide Tokens, FirstLine;
    DecimalLength(Tokens(m));
  }

  lemma NobodyPinned(ms: seq<Message>)
    requires forall i :: 0 <= i < |ms| ==> !ms[i].pinned && |ms[i].role| == 9
    ensures PinnedIndices(ms, 0) == []
  {
    assert FirstUser(ms) == |ms|;
    NoIndices(|ms|, (i: nat) => IsPinned(ms, 0, i));
  }

  lemma GapInStageOne()
    ensures var ms := [Message("assistant", Accents(), false)];
            && PinnedIndices(ms, 0) == [] && SumTokens(ms) == 1810
            && Deterministic(ms, [], 1809).ms != MirrorDeterministic(ms, [], 1809).ms
  {
    hide Stage, SumTokens, EstimateTokens, HeadTail, MirrorHeadTail, Digest, Strip, MirrorTrim, PinnedIndices;
    var m := Message("assistant", Accents(), false);
    NobodyPinned([m]);
    AccentsAreInTheGap();
    AccentsExcerpt();
    var v := m.(content := MirrorHeadTail(m.content).value);
    StageOnOne(m, TruncatePlan([m], []), 1809);
    StageOnOne(m, DedupPlan([m], []), 1809);
    StageOnOne(m, DigestPlan([m], []), 1809);
    StageOnOne(m, MirrorTruncatePlan([m], []), 1809);
    StageOnOne(v, MirrorDedupPlan([v], []), 1809);
    StageOnOne(v, DigestPlan([v], []), 1809);
    assert m.(content := Accents()) == m;
    DigestIsShort(m);
    SumOfOne(m);
  }

  lemma SumOfOne(m: Message)
    ensures SumTokens([m]) == EstimateTokens(m.content)
  {
    assert [m][..0] == [];
  }

  /** The mirror's `compress`. */
  function MirrorCompressed(ms: seq<Message>, limits: Limits): seq<Message>
    requires limits.Valid()
  {
    if limits.Triggers(SumTokens(ms)) then
      MirrorDeterministic(ms, PinnedIndices(ms, limits.keepRecent), limits.Target()).ms
    else ms
  }

  /** With something unpinned and both flags off, a triggered run of either backend is its stage 1. */
  lemma StageOneRuns(ms: seq<Message>, limits: Limits, world: World)
    requires limits.Valid() && !limits.enableLlm && !limits.enableForget && limits.Triggers(SumTokens(ms))
    requires |ms| > 0 && PinnedIndices(ms, limits.keepRecent) == []
    ensures Compressed(ms, limits, world).messages == Deterministic(ms, [], limits.Target()).ms
    ensures MirrorCompressed(ms, limits) == MirrorDeterministic(ms, [], limits.Target()).ms
  {
    hide Compressed, Deterministic, MirrorDeterministic, SumTokens, PinnedTokens, Shortenable, Limits.Triggers, Limits.Target;
    OnlyStageOneIff(ms, limits, world);
    PinnedIn(ms, limits.keepRecent);
    assert !IsPinned(ms, limits.keepRecent, 0);
  }

  /** One message of 1810 accented letters, target 1809: the mirror truncates it and stops, Python digests it. */
  lemma GapShows(world: World)
    ensures var ms, limits := [Message("assistant", Accents(), false)], Limits(2010, 0.5, 0.9, 0, false, false);
            limits.Valid() && Compressed(ms, limits, world).messages != MirrorCompressed(ms, limits)
  {
    hide Compressed, MirrorCompressed, Deterministic, MirrorDeterministic, SumTokens, PinnedIndices, Accents;
    var ms, limits := [Message("assistant", Accents(), false)], Limits(2010, 0.5, 0.9, 0, false, false);
    GapInStageOne();
    assert limits.Target() == 1809;
    StageOneRuns(ms, limits, world);
  }

  // ---------------------------------------------------------------- a difference that does not show in the end

  /** 34 plain letters between accented ones: its excerpt is as long and as heavy as itself. */
  function Mixed(): string {
    seq(1200, _ => '\U{00E9}') + seq(34, _ => 'a') + seq(600, _ => '\U{00E9}')
  }

  lemma MixedParts()
    ensures var s := Mixed();
            && |s| == 1834 && s[1200] == 'a' && EstimateTokens(s) == 1808
            && (forall k :: 0 <= k < 1200 ==> s[k] == '\U{00E9}') && (forall k :: 1234 <= k < 1834 ==> s[k] == '\U{00E9}')
  {
    hide EstimateTokens;
    ExcerptWeight(seq(1200, _ => '\U{00E9}'), seq(34, _ => 'a'), seq(600, _ => '\U{00E9}'));
  }

  lemma MixedExcerpt()
    ensures InTheGap(Mixed()) && HeadTail(Mixed()).None? && MirrorHeadTail(Mixed()).Some?
    ensures var v := MirrorHeadTail(Mixed()).value;
            v != Mixed() && |v| >= 1200 && v[..1200] == Mixed()[..1200] && EstimateTokens(v) == 1808
  {
    hide EstimateTokens, HeadTail, Mixed;
    var s, note := Mixed(), ElisionNote(34);
    MixedParts();
    HeadTailGuard(s);
    ElisionNoteLength(34);
    DecimalLength(34);
    assert note[0] != s[1200..1234][0];
    TruncationEffectIff(s);
    ExcerptWeight(s[..1200], note, s[1234..]);
  }

  /** The digest of a text with a long first line shows only its first 120 characters and its weight. */
  lemma DigestOfLongLine(m: Message)
    requires |m.content| >= 120 && forall k :: 0 <= k < 120 ==> m.content[k] != '\n'
    ensures Digest(m) == "[cluxion digest] " + m.role + ": " + m.content[..120] + " [" + Decimal(Tokens(m)) + " tokens elided]"
  {
    hide Decimal, Tokens;
    var line := FirstLine(m.content);
    assert |line| >= 120;
    assert line[..120] == m.content[..120];
  }

  lemma HiddenInStageOne()
    ensures var ms := [Message("assistant", Mixed(), false)];
            && PinnedIndices(ms, 0) == [] && SumTokens(ms) == 1808
            && Truncation(ms, [], 100) != MirrorTruncation(ms, [], 100)
            && Deterministic(ms, [], 100).ms == MirrorDeterministic(ms, [], 100).ms
  {
    hide Stage, SumTokens, EstimateTokens, HeadTail, MirrorHeadTail, Digest, Strip, MirrorTrim, PinnedIndices, Mixed;
    var m := Message("assistant", Mixed(), false);
    NobodyPinned([m]);
    MixedParts();
    MixedExcerpt();
    var v := m.(content := MirrorHeadTail(m.content).value);
    assert m.(content := m.content) == m;
    StageOnOne(m, TruncatePlan([m], []), 100);
    StageOnOne(m, DedupPlan([m], []), 100);
    StageOnOne(m, DigestPlan([m], []), 100);
    StageOnOne(m, MirrorTruncatePlan([m], []), 100);
    StageOnOne(v, MirrorDedupPlan([v], []), 100);
    StageOnOne(v, DigestPlan([v], []), 100);
    SameDigest(m, v);
    SumOfOne(m);
  }

  /** Truncation differs, the digests of both versions are equal: the outputs agree although the stages do not. */
  lemma DigestCanHideTheGap(world: World)
    ensures var ms, limits := [Message("assistant", Mixed(), false)], Limits(1000, 0.5, 0.1, 0, false, false);
            && limits.Valid() && limits.Target() == 100
            && Truncation(ms, PinnedIndices(ms, 0), 100) != MirrorTruncation(ms, PinnedIndices(ms, 0), 100)
            && Compressed(ms, limits, world).messages == MirrorCompressed(ms, limits)
  {
    hide Compressed, MirrorCompressed, Deterministic, MirrorDeterministic, Truncation, MirrorTruncation, SumTokens,
         PinnedIndices, Mixed;
    var ms, limits := [Message("assistant", Mixed(), false)], Limits(1000, 0.5, 0.1, 0, false, false);
    HiddenInStageOne();
    assert limits.Target() == 100;
    StageOneRuns(ms, limits, world);
  }

  lemma SameDigest(m: Message, v: Message)
    requires m.content == Mixed() && |m.role| == 9 && v.role == m.role
    requires |v.content| >= 1200 && v.content[..1200] == Mixed()[..1200] && Tokens(v) == 1808
    ensures Digest(m) == Digest(v) && EstimateTokens(Digest(m)) < 1808
  {
    hide Digest, Mixed, Tokens, Decimal;
    MixedParts();
    WeightIs(m);
    assert m.content[..120] == v.content[..120] by {
      assert m.content[..1200][..120] == v.content[..1200][..120];
    }
    assert forall k :: 0 <= k < 120 ==> v.content[k] == v.content[..1200][k];
    DigestOfLongLine(m);
    DigestOfLongLine(v);
    DigestIsShort(m);
    EstimateBounds(Digest(m));
  }

  lemma WeightIs(m: Message)
    ensures Tokens(m) == EstimateTokens(m.content)
  {
  }

  // ---------------------------------------------------------------- separators

  /** A text of 40 letters, and the same followed by U+001C. */
  function Marked(): Message {
    Message("assistant", Repeated().content + ['\U{001C}'], false)
  }

  lemma MarkedLetters()
    ensures var s := Marked().content;
            |s| == 41 && Separator(s[40]) && (forall i :: 0 <= i < 40 ==> s[i] == 'a') && s[..40] == Repeated().content
  {
  }

  lemma StripIs(s: string, j: nat)
    requires 0 < j < |s| && !IsSpace(s[0]) && !IsSpace(s[j]) && forall k :: j < k < |s| ==> IsSpace(s[k])
    ensures Strip(s) == s[..j + 1]
  {
    assert SkipSpaces(s, 0) == 0;
    assert TrimEnd(s, 0, |s|) == j + 1;
  }

  lemma FirstNote()
    ensures DuplicateNote(0) == "[cluxion: duplicate of message #0 elided]"
  {
    assert Decimal(0) == "0";
  }

  lemma MarkedTexts()
    ensures Strip(Marked().content) == Repeated().content
    ensures MirrorTrim(Marked().content) == Marked().content
    ensures MirrorTrim(Repeated().content) == Repeated().content
    ensures |DuplicateNote(0)| == 41 && DuplicateNote(0)[0] == '['
  {
    hide Strip, MirrorTrim, Marked;
    var s, r := Marked().content, Repeated().content;
    MarkedLetters();
    StripIs(s, 39);
    TrimIs(s, 0, 40);
    TrimIs(r, 0, 39);
    assert s[0..41] == s && r[0..40] == r;
    FirstNote();
  }

  lemma MarkedLines()
    ensures ShortLine(Marked().content) && ShortLine(Repeated().content) && ShortLine(DuplicateNote(0))
  {
    hide Marked, DuplicateNote;
    MarkedLetters();
    NoteIsShortLine(0);
    SeparatorIsAscii(Marked().content);
  }

  lemma SeparatorIsAscii(s: string)
    requires |s| == 41 && Separator(s[40]) && forall i :: 0 <= i < 40 ==> s[i] == 'a'
    ensures ShortLine(s) && ShortLine(s[..40])
  {
  }

  /** In a conversation of short lines neither truncation nor the digests do anything. */
  lemma ShortLinesStay(ms: seq<Message>, target: int)
    requires forall i :: 0 <= i < |ms| ==> ShortLine(ms[i].content)
    ensures Stage(ms, TruncatePlan(ms, []), SumTokens(ms), target) == ms
    ensures Stage(ms, MirrorTruncatePlan(ms, []), SumTokens(ms), target) == ms
    ensures Stage(ms, DigestPlan(ms, []), SumTokens(ms), target) == ms
  {
    hide EstimateTokens, SumTokens, Digest, Stage, HeadTail, MirrorHeadTail;
    forall i | 0 <= i < |ms|
      ensures HeadTail(ms[i].content).None? && MirrorHeadTail(ms[i].content).None?
      ensures EstimateTokens(Digest(ms[i])) >= Tokens(ms[i])
    {
      assert ShortLine(ms[i].content);
      HeadTailGuard(ms[i].content);
      TruncationRulesAgreeIff(ms[i].content);
      DigestOfShortLine(ms[i]);
    }
    NothingPlanned(ms, TruncatePlan(ms, []), SumTokens(ms), target);
    NothingPlanned(ms, MirrorTruncatePlan(ms, []), SumTokens(ms), target);
    NothingPlanned(ms, DigestPlan(ms, []), SumTokens(ms), target);
  }

  function MarkedPair(): seq<Message> {
    [Repeated(), Marked()]
  }

  function MarkedAfter(): seq<Message> {
    [Repeated(), Marked().(content := DuplicateNote(0))]
  }

  lemma MarkedPairs()
    ensures |MarkedPair()| == |MarkedAfter()| == 2
    ensures forall i :: 0 <= i < 2 ==> ShortLine(MarkedPair()[i].content) && ShortLine(MarkedAfter()[i].content)
    ensures PinnedIndices(MarkedPair(), 0) == []
    ensures DedupPlan(MarkedPair(), []) == [None, Some(DuplicateNote(0))] && MirrorDedupPlan(MarkedPair(), []) == [None, None]
  {
    hide DedupPlan, MirrorDedupPlan, PinnedIndices, ShortLine, DuplicateNote;
    MarkedLines();
    NobodyPinned(MarkedPair());
    MarkedPlans();
  }

  lemma MarkedInStageOne(target: int)
    requires target <= 1
    ensures Deterministic(MarkedPair(), [], target).ms == MarkedAfter() != MarkedPair()
    ensures MirrorDeterministic(MarkedPair(), [], target).ms == MarkedPair()
  {
    hide Stage, SumTokens, PinnedIndices, TruncatePlan, MirrorTruncatePlan, DigestPlan, DedupPlan, MirrorDedupPlan,
         DuplicateNote, ShortLine, MarkedPair, MarkedAfter;
    MarkedPairs();
    ShortLinesStay(MarkedPair(), target);
    ShortLinesStay(MarkedAfter(), target);
    MarkedDedups(target);
  }

  lemma MarkedDedups(target: int)
    requires target <= 1
    ensures Stage(MarkedPair(), DedupPlan(MarkedPair(), []), SumTokens(MarkedPair()), target) == MarkedAfter() != MarkedPair()
    ensures Stage(MarkedPair(), MirrorDedupPlan(MarkedPair(), []), SumTokens(MarkedPair()), target) == MarkedPair()
  {
    hide Stage, SumTokens, DedupPlan, MirrorDedupPlan, DuplicateNote, Strip, MirrorTrim;
    var ms := MarkedPair();
    MarkedPairs();
    StageIsWhole(ms, DedupPlan(ms, []), target);
    assert Rewritten(ms, DedupPlan(ms, []), 2) == MarkedAfter();
    NothingPlanned(ms, MirrorDedupPlan(ms, []), SumTokens(ms), target);
    MarkedTexts();
    assert MarkedPair()[1].content[0] == 'a';
  }

  lemma MarkedWeight()
    ensures SumTokens(MarkedPair()) >= 10
  {
    hide EstimateTokens, SumTokens;
    StripOfRepeated();
    SumAtLeast(MarkedPair(), 0);
  }

  /** Python sees the marked text as a duplicate, the mirror does not. */
  lemma SeparatorShows(world: World)
    ensures var ms, limits := MarkedPair(), Limits(20, 0.5, 0.05, 0, false, false);
            && limits.Valid()
            && Compressed(ms, limits, world).messages == MarkedAfter() != ms
            && MirrorCompressed(ms, limits) == ms
  {
    hide Compressed, MirrorCompressed, Deterministic, MirrorDeterministic, SumTokens, PinnedIndices, MarkedPair, MarkedAfter;
    var ms, limits := MarkedPair(), Limits(20, 0.5, 0.05, 0, false, false);
    MarkedPairs();
    MarkedWeight();
    MarkedInStageOne(limits.Target());
    StageOneRuns(ms, limits, world);
  }

  lemma MarkedPlans()
    ensures var ms := [Repeated(), Marked()];
            && DedupPlan(ms, []) == [None, Some(DuplicateNote(0))]
            && MirrorDedupPlan(ms, []) == [None, None]
  {
    hide Strip, MirrorTrim, DuplicateNote, ShortLine;
    var ms := [Repeated(), Marked()];
    MarkedTexts();
    StripOfRepeated();
    assert |Repeated().content| == 40 && |Marked().content| == 41;
    assert FirstSame(ms, 0, 0) == 0 && FirstSame(ms, 1, 0) == 0;
    assert MirrorFirstSame(ms, 0, 0) == 0 && MirrorFirstSame(ms, 1, 0) == 1;
  }

  // ---------------------------------------------------------------- switching the other stages off

  /**
   Switching the summariser and forgetting off is said to leave stage 1 alone. It does so exactly unless every
   message is pinned, together they exceed the target, and a recent one can be shortened: stage 4 has no switch.
   */
  lemma OnlyStageOneIff(ms: seq<Message>, limits: Limits, world: World)
    requires limits.Valid() && !limits.enableLlm && !limits.enableForget && limits.Triggers(SumTokens(ms))
    ensures var pinned := PinnedIndices(ms, limits.keepRecent);
            (Compressed(ms, limits, world).messages == Deterministic(ms, pinned, limits.Target()).ms
             <==> !(ReachesLastResort(ms, limits) && exists i :: 0 <= i < |ms| && Shortenable(ms, limits.keepRecent, i)))
  {
    hide SumTokens, PinnedIndices, Deterministic, Unpinned, LastResort, FirstUser, IsPinned, Compressed, Shortenable,
         PinnedTokens, BuildSummaryRequest, Limits.Triggers, Limits.Target;
    var k, target := limits.keepRecent, limits.Target();
    var pinned := PinnedIndices(ms, k);
    var p := Deterministic(ms, pinned, target);
    CurrentPins(ms, limits, world);
    AfterForgetting(ms, limits, world);
    assert Forgetting(Prepared(ms, limits, world), pinned, target, limits, world) == p;
    if ReachesLastResort(ms, limits) {
      AllPinnedUntouched(ms, k, target);
      LastResortActsIff(ms, k, SumTokens(ms), target);
    }
  }
}

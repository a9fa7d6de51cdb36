/**
 What context compression computes, on values: the per-message rewriting rules, the oldest-first stages with
 their stopping point, forgetting, and the whole pipeline. `ContextCompress` runs it in place.
 */
module Compression {
  import opened Wrappers
  import opened Text
  import opened Sorting

  const TRUNCATE_MIN_TOKENS := 512
  const TRUNCATE_HEAD_CHARS := 1200
  const TRUNCATE_TAIL_CHARS := 600
  const DEDUP_MIN_CHARS := 40
  const DIGEST_LINE_CHARS := 120
  const SUMMARY_REQUEST_LIMIT := 8

  datatype Message = Message(role: string, content: string, pinned: bool)

  function Tokens(m: Message): (t: nat)
    ensures t >= 1
  {
    EstimateTokens(m.content)
  }

  function SumTokens(ms: seq<Message>): nat {
    if |ms| == 0 then 0 else SumTokens(ms[..|ms| - 1]) + Tokens(ms[|ms| - 1])
  }

  // ---------------------------------------------------------------- rewriting one message

  function ElisionNote(elided: nat): (s: string)
    ensures AllAscii(s)
  {
    "\n[...cluxion: " + Decimal(elided) + " chars elided...]\n"
  }

  /** `_apply_head_tail_truncate`. */
  function HeadTail(content: string): Option<string> {
    if EstimateTokens(content) <= TRUNCATE_MIN_TOKENS then None
    else if |content| <= TRUNCATE_HEAD_CHARS + TRUNCATE_TAIL_CHARS then None
    else
      var elided := |content| - TRUNCATE_HEAD_CHARS - TRUNCATE_TAIL_CHARS;
      var result := content[..TRUNCATE_HEAD_CHARS] + ElisionNote(elided) + content[|content| - TRUNCATE_TAIL_CHARS..];
      if |result| >= |content| then None else Some(result)
  }

  function DuplicateNote(first: nat): string {
    "[cluxion: duplicate of message #" + Decimal(first) + " elided]"
  }

  /** The text before the first newline. */
  function FirstLine(s: string): (r: string)
    ensures r <= s && '\n' !in r
    ensures r == s || s[|r|] == '\n'
  {
    if |s| == 0 || s[0] == '\n' then "" else [s[0]] + FirstLine(s[1..])
  }

  function Digest(m: Message): string {
    var line := FirstLine(m.content);
    "[cluxion digest] " + m.role + ": " + line[..Min(DIGEST_LINE_CHARS, |line|)] + " [" + Decimal(Tokens(m)) + " tokens elided]"
  }

  // ---------------------------------------------------------------- which messages are pinned

  /** The index of the first user message, or the length when there is none. */
  function FirstUser(ms: seq<Message>): (i: nat)
    ensures i <= |ms|
    ensures i < |ms| ==> ms[i].role == "user"
    ensures forall j :: 0 <= j < i ==> ms[j].role != "user"
  {
    if |ms| == 0 then 0
    else
      var i := FirstUser(ms[..|ms| - 1]);
      if i < |ms| - 1 || ms[|ms| - 1].role == "user" then i else |ms|
  }

  predicate InRecentWindow(n: nat, keepRecent: nat, i: nat) {
    Max(0, n - keepRecent) <= i < n
  }

  /** Explicitly pinned, or the first user message (the intent), or among the last `keepRecent`. */
  predicate IsPinned(ms: seq<Message>, keepRecent: nat, i: nat) {
    i < |ms| && (ms[i].pinned || i == FirstUser(ms) || InRecentWindow(|ms|, keepRecent, i))
  }

  function NatLe(): (nat, nat) -> bool {
    (a: nat, b: nat) => a <= b
  }

  ghost predicate StrictlyIncreasing(s: seq<nat>) {
    forall i, j :: 0 <= i < j < |s| ==> s[i] < s[j]
  }

  // ---------------------------------------------------------------- oldest-first stages

  /** What a stage would put in place of each message; `None` leaves the message alone. */
  type Plan = seq<Option<string>>

  /** The plan carried out on the messages before index `cut`. */
  function Rewritten(ms: seq<Message>, plan: Plan, cut: nat): (r: seq<Message>)
    requires |plan| == |ms|
    ensures |r| == |ms|
  {
    seq(|ms|, i requires 0 <= i < |ms| =>
      if i < cut && plan[i].Some? then ms[i].(content := plan[i].value) else ms[i])
  }

  /** A running total that was `total` for `ms`, after the plan was carried out up to `cut`. */
  function TotalAt(ms: seq<Message>, plan: Plan, total: int, cut: nat): int
    requires |plan| == |ms|
  {
    total - SumTokens(ms) + SumTokens(Rewritten(ms, plan, cut))
  }

  /** The first index from `i` on before which the stage stops: the target is met, or the messages are used up. */
  function Cut(ms: seq<Message>, plan: Plan, total: int, target: int, i: nat): (c: nat)
    requires |plan| == |ms| && i <= |ms|
    ensures i <= c <= |ms|
    ensures c == |ms| || TotalAt(ms, plan, total, c) <= target
    ensures forall j :: i <= j < c ==> TotalAt(ms, plan, total, j) > target
    decreases |ms| - i
  {
    if i == |ms| || TotalAt(ms, plan, total, i) <= target then i else Cut(ms, plan, total, target, i + 1)
  }

  function Stage(ms: seq<Message>, plan: Plan, total: int, target: int): (r: seq<Message>)
    requires |plan| == |ms|
    ensures |r| == |ms|
  {
    Rewritten(ms, plan, Cut(ms, plan, total, target, 0))
  }

  predicate Touched(plan: Plan, cut: nat) {
    exists i :: 0 <= i < cut && i < |plan| && plan[i].Some?
  }

  function TruncatePlan(ms: seq<Message>, pinned: seq<nat>): (p: Plan)
    ensures |p| == |ms|
  {
    seq(|ms|, i requires 0 <= i < |ms| => if i in pinned then None else HeadTail(ms[i].content))
  }

  /** The least index holding the same trimmed text as message `i`. */
  function FirstSame(ms: seq<Message>, i: nat, j: nat): (f: nat)
    requires j <= i < |ms|
    requires forall k :: 0 <= k < j ==> Strip(ms[k].content) != Strip(ms[i].content)
    ensures f <= i && Strip(ms[f].content) == Strip(ms[i].content)
    ensures forall k :: 0 <= k < f ==> Strip(ms[k].content) != Strip(ms[i].content)
    decreases i - j
  {
    if Strip(ms[j].content) == Strip(ms[i].content) then j else FirstSame(ms, i, j + 1)
  }

  function DedupPlan(ms: seq<Message>, pinned: seq<nat>): (p: Plan)
    ensures |p| == |ms|
  {
    seq(|ms|, i requires 0 <= i < |ms| =>
      if |Strip(ms[i].content)| < DEDUP_MIN_CHARS || FirstSame(ms, i, 0) == i || i in pinned then None
      else Some(DuplicateNote(FirstSame(ms, i, 0))))
  }

  function DigestPlan(ms: seq<Message>, pinned: seq<nat>): (p: Plan)
    ensures |p| == |ms|
  {
    seq(|ms|, i requires 0 <= i < |ms| =>
      if i in pinned || EstimateTokens(Digest(ms[i])) >= Tokens(ms[i]) then None else Some(Digest(ms[i])))
  }

  // ---------------------------------------------------------------- sums under rewriting

  lemma {:induction false} SumUpdate(ms: seq<Message>, i: nat, m: Message)
    requires i < |ms|
    ensures SumTokens(ms[i := m]) == SumTokens(ms) - Tokens(ms[i]) + Tokens(m)
  {
    var last := |ms| - 1;
    if i == last {
      assert ms[i := m][..last] == ms[..last];
    } else {
      assert ms[i := m][..last] == ms[..last][i := m];
      SumUpdate(ms[..last], i, m);
    }
  }

  lemma RewrittenStep(ms: seq<Message>, plan: Plan, cut: nat)
    requires |plan| == |ms| && cut < |ms|
    ensures Rewritten(ms, plan, cut)[cut] == ms[cut]
    ensures plan[cut].None? ==> Rewritten(ms, plan, cut + 1) == Rewritten(ms, plan, cut)
    ensures plan[cut].Some? ==>
              Rewritten(ms, plan, cut + 1) == Rewritten(ms, plan, cut)[cut := ms[cut].(content := plan[cut].value)]
  {
  }

  lemma RewrittenRest(ms: seq<Message>, plan: Plan, cut: nat, i: nat)
    requires |plan| == |ms| && cut <= i < |ms|
    ensures Rewritten(ms, plan, cut)[i] == ms[i]
  {
  }

  lemma TotalStep(ms: seq<Message>, plan: Plan, total: int, cut: nat)
    requires |plan| == |ms| && cut < |ms|
    ensures TotalAt(ms, plan, total, cut + 1)
         == TotalAt(ms, plan, total, cut) + if plan[cut].Some? then EstimateTokens(plan[cut].value) - Tokens(ms[cut]) else 0
  {
    RewrittenStep(ms, plan, cut);
    if plan[cut].Some? {
      SumUpdate(Rewritten(ms, plan, cut), cut, ms[cut].(content := plan[cut].value));
    }
  }

  lemma TotalStart(ms: seq<Message>, plan: Plan, total: int)
    requires |plan| == |ms|
    ensures Rewritten(ms, plan, 0) == ms
    ensures TotalAt(ms, plan, total, 0) == total
  {
    assert Rewritten(ms, plan, 0) == ms;
  }

  /** The stopping point is the only index with these two properties. */
  lemma CutIs(ms: seq<Message>, plan: Plan, total: int, target: int, c: nat)
    requires |plan| == |ms| && c <= |ms|
    requires c == |ms| || TotalAt(ms, plan, total, c) <= target
    requires forall j :: 0 <= j < c ==> TotalAt(ms, plan, total, j) > target
    ensures Cut(ms, plan, total, target, 0) == c
    ensures Stage(ms, plan, total, target) == Rewritten(ms, plan, c)
    ensures TotalAt(ms, plan, total, c) == total - SumTokens(ms) + SumTokens(Rewritten(ms, plan, c))
  {
  }

  // ---------------------------------------------------------------- selecting by index

  /** The indices below `n` that satisfy `p`, in order. */
  function IndicesWhere(n: nat, p: nat -> bool): (r: seq<nat>)
    ensures StrictlyIncreasing(r)
    ensures forall j :: 0 <= j < |r| ==> r[j] < n && p(r[j])
    ensures forall i: nat :: i < n && p(i) ==> i in r
  {
    if n == 0 then []
    else
      var r := IndicesWhere(n - 1, p);
      if p(n - 1) then r + [n - 1] else r
  }

  function In(s: seq<nat>): nat -> bool {
    (i: nat) => i in s
  }

  function NotIn(s: seq<nat>): nat -> bool {
    (i: nat) => i !in s
  }

  ghost predicate Within(idx: seq<nat>, n: nat) {
    forall j :: 0 <= j < |idx| ==> idx[j] < n
  }

  function Select<T>(s: seq<T>, idx: seq<nat>): (r: seq<T>)
    requires Within(idx, |s|)
    ensures |r| == |idx|
    ensures forall j :: 0 <= j < |idx| ==> r[j] == s[idx[j]]
  {
    seq(|idx|, j requires 0 <= j < |idx| => s[idx[j]])
  }

  /** Two strictly increasing sequences with the same members are the same sequence. */
  lemma {:induction false} IncreasingUnique(a: seq<nat>, b: seq<nat>)
    requires StrictlyIncreasing(a) && StrictlyIncreasing(b)
    requires forall j :: 0 <= j < |a| ==> a[j] in b
    requires forall j :: 0 <= j < |b| ==> b[j] in a
    ensures a == b
  {
    if |a| > 0 {
      var x, y := a[|a| - 1], b[|b| - 1];
      assert x in b && y in a && x == y;
      IncreasingUnique(a[..|a| - 1], b[..|b| - 1]);
    }
  }

  /** `_pinned_indices`. */
  function PinnedIndices(ms: seq<Message>, keepRecent: nat): (r: seq<nat>)
    ensures StrictlyIncreasing(r)
    ensures forall i: nat :: i in r <==> IsPinned(ms, keepRecent, i)
  {
    IndicesWhere(|ms|, (i: nat) => IsPinned(ms, keepRecent, i))
  }

  function Unpinned(ms: seq<Message>, pinned: seq<nat>): (r: seq<nat>)
    ensures StrictlyIncreasing(r)
    ensures forall i: nat :: i in r <==> i < |ms| && i !in pinned
  {
    IndicesWhere(|ms|, NotIn(pinned))
  }

  // ---------------------------------------------------------------- the summary request and the oracle's reply

  datatype SummaryRequest = SummaryRequest(currentTokens: int, targetTokens: int, indices: seq<nat>)

  /** Heaviest first, ties by index. */
  function HeavierFirst(ms: seq<Message>): (nat, nat) -> bool {
    (a: nat, b: nat) =>
      var ta := if a < |ms| then Tokens(ms[a]) else 0;
      var tb := if b < |ms| then Tokens(ms[b]) else 0;
      ta > tb || (ta == tb && a <= b)
  }

  function BuildSummaryRequest(ms: seq<Message>, pinned: seq<nat>, total: int, target: int): SummaryRequest {
    var candidates := Sort(Unpinned(ms, pinned), HeavierFirst(ms));
    SummaryRequest(total, target, candidates[..Min(SUMMARY_REQUEST_LIMIT, |candidates|)])
  }

  predicate Addressable(ms: seq<Message>, pinned: seq<nat>, idx: int) {
    0 <= idx < |ms| && idx !in pinned
  }

  /** Replies are applied in order; a reply for a pinned or missing message is ignored. */
  function ApplySummaries(ms: seq<Message>, pinned: seq<nat>, reply: seq<(int, string)>): (r: seq<Message>)
    ensures |r| == |ms|
  {
    if |reply| == 0 then ms
    else
      var before := ApplySummaries(ms, pinned, reply[..|reply| - 1]);
      var (idx, summary) := reply[|reply| - 1];
      if Addressable(ms, pinned, idx) then before[idx := before[idx].(content := summary)] else before
  }

  /** Entry `p` is the last of the reply for message `i`. */
  ghost predicate LastFor(reply: seq<(int, string)>, i: int, p: int) {
    0 <= p < |reply| && reply[p].0 == i && forall q :: p < q < |reply| ==> reply[q].0 != i
  }

  /**
   The reply is carried out on unpinned messages and on nothing else: each has the last summary given for it, and its
   old text when there is none.
   */
  ghost predicate CarriesSummaries(before: seq<Message>, after: seq<Message>, pinned: seq<nat>, reply: seq<(int, string)>) {
    && |after| == |before|
    && (forall i :: 0 <= i < |before| ==> after[i].role == before[i].role && after[i].pinned == before[i].pinned)
    && (forall i :: 0 <= i < |before| && i in pinned ==> after[i].content == before[i].content)
    && (forall i, p :: 0 <= i < |before| && i !in pinned && LastFor(reply, i, p) ==> after[i].content == reply[p].1)
    && (forall i :: 0 <= i < |before| && (forall p :: 0 <= p < |reply| ==> reply[p].0 != i) ==>
          after[i].content == before[i].content)
  }

  lemma {:induction false} SummariesAreCarried(ms: seq<Message>, pinned: seq<nat>, reply: seq<(int, string)>)
    ensures CarriesSummaries(ms, ApplySummaries(ms, pinned, reply), pinned, reply)
  {
    if |reply| > 0 {
      var rest, last := reply[..|reply| - 1], |reply| - 1;
      SummariesAreCarried(ms, pinned, rest);
      var before, after := ApplySummaries(ms, pinned, rest), ApplySummaries(ms, pinned, reply);
      forall i, p | 0 <= i < |ms| && i !in pinned && LastFor(reply, i, p)
        ensures after[i].content == reply[p].1
      {
        assert p < last ==> reply[last].0 != i && LastFor(rest, i, p) && rest[p] == reply[p];
      }
      forall i | 0 <= i < |ms| && forall p :: 0 <= p < |reply| ==> reply[p].0 != i
        ensures after[i].content == ms[i].content
      {
        assert reply[last].0 != i;
        assert forall p :: 0 <= p < |rest| ==> rest[p].0 == reply[p].0;
      }
    }
  }

  // ---------------------------------------------------------------- forgetting

  function JunkMarkers(): seq<string> {
    ["[cluxion: duplicate", "[cluxion digest]"]
  }

  predicate IsTrueJunk(content: string) {
    var stripped := Strip(content);
    stripped == "" || Contains(stripped, JunkMarkers()[0]) || Contains(stripped, JunkMarkers()[1])
  }

  predicate IsDegenerate(content: string) {
    var stripped := Strip(content);
    |stripped| < 16 || forall i :: 0 <= i < |stripped| ==> stripped[i] == stripped[0]
  }

  /** Dropping this message calls for a cold copy first. */
  predicate NeedsBackup(content: string) {
    !IsTrueJunk(content) && !IsDegenerate(content)
  }

  /** What the environment answers: the summariser, the importance score, and the cold store handed a message's text. */
  datatype World = World(
    hermesAvailable: bool,
    reply: Option<seq<(int, string)>>,
    score: (nat, Message, nat) -> real,
    backsUp: (nat, string) -> bool)

  /** Least important first, ties by index. */
  function LessImportant(ms: seq<Message>, score: (nat, Message, nat) -> real): (nat, nat) -> bool {
    (a: nat, b: nat) =>
      var sa := if a < |ms| then score(a, ms[a], |ms|) else 0.0;
      var sb := if b < |ms| then score(b, ms[b], |ms|) else 0.0;
      sa < sb || (sa == sb && a <= b)
  }

  function DropOrder(ms: seq<Message>, pinned: seq<nat>, score: (nat, Message, nat) -> real): (r: seq<nat>)
    ensures forall i: nat :: i in r <==> i < |ms| && i !in pinned
    ensures Within(r, |ms|)
  {
    var r := Sort(Unpinned(ms, pinned), LessImportant(ms, score));
    SortMembers(Unpinned(ms, pinned), LessImportant(ms, score));
    assert forall j :: 0 <= j < |r| ==> r[j] in r;
    r
  }

  function TokensOf(ms: seq<Message>, idx: seq<nat>): nat
    requires Within(idx, |ms|)
  {
    if |idx| == 0 then 0 else TokensOf(ms, idx[..|idx| - 1]) + Tokens(ms[idx[|idx| - 1]])
  }

  /** How many messages, least important first, have to go. */
  function DropCount(ms: seq<Message>, order: seq<nat>, total: int, target: int, k: nat): (c: nat)
    requires Within(order, |ms|) && k <= |order|
    ensures k <= c <= |order|
    ensures c == |order| || total - TokensOf(ms, order[..c]) <= target
    ensures forall j :: k <= j < c ==> total - TokensOf(ms, order[..j]) > target
    decreases |order| - k
  {
    if k == |order| || total - TokensOf(ms, order[..k]) <= target then k else DropCount(ms, order, total, target, k + 1)
  }

  datatype Forgotten = Forgotten(
    kept: seq<nat>,
    tokensAfter: int,
    dropped: seq<nat>,
    droppedWithoutBackup: bool,
    overTargetPinnedOnly: bool)

  function Dropped(ms: seq<Message>, pinned: seq<nat>, total: int, target: int, score: (nat, Message, nat) -> real): (r: seq<nat>)
    ensures Within(r, |ms|)
  {
    var order := DropOrder(ms, pinned, score);
    order[..DropCount(ms, order, total, target, 0)]
  }

  predicate LostWithoutCopy(ms: seq<Message>, drop: seq<nat>, backsUp: (nat, string) -> bool) {
    exists i :: 0 <= i < |ms| && i in drop && NeedsBackup(ms[i].content) && !backsUp(i, ms[i].content)
  }

  /** `apply_hybrid_forget`; the surviving messages are given by their old indices. */
  function Forget(ms: seq<Message>, pinned: seq<nat>, total: int, target: int, world: World): (f: Forgotten)
    ensures Within(f.kept, |ms|) && StrictlyIncreasing(f.kept)
  {
    var drop := Dropped(ms, pinned, total, target, world.score);
    var after := total - TokensOf(ms, drop);
    Forgotten(
      IndicesWhere(|ms|, NotIn(drop)),
      if drop == [] then total else Max(0, after),
      IndicesWhere(|ms|, In(drop)),
      LostWithoutCopy(ms, drop, world.backsUp),
      after > target && forall i :: 0 <= i < |ms| ==> i in pinned || i in drop)
  }

  lemma {:induction false} AllIndices(n: nat, p: nat -> bool)
    requires forall i: nat :: i < n ==> p(i)
    ensures |IndicesWhere(n, p)| == n
    ensures forall j: nat :: j < n ==> IndicesWhere(n, p)[j] == j
  {
    if n > 0 {
      AllIndices(n - 1, p);
    }
  }

  lemma {:induction false} NoIndices(n: nat, p: nat -> bool)
    requires forall i: nat :: i < n ==> !p(i)
    ensures IndicesWhere(n, p) == []
  {
    if n > 0 {
      NoIndices(n - 1, p);
    }
  }

  /** With nothing to drop every message stays where it is. */
  lemma ForgetNothing<T>(ms: seq<Message>, pinned: seq<nat>, total: int, target: int, world: World, s: seq<T>)
    requires Dropped(ms, pinned, total, target, world.score) == [] && |s| == |ms|
    ensures var f := Forget(ms, pinned, total, target, world);
            Select(s, f.kept) == s && f.dropped == [] && f.tokensAfter == total && !f.droppedWithoutBackup
  {
    var drop := Dropped(ms, pinned, total, target, world.score);
    AllIndices(|ms|, NotIn(drop));
    NoIndices(|ms|, In(drop));
  }

  // ---------------------------------------------------------------- last resort

  /** The candidates of stage 4: the recent window without the intent. */
  function RecentPlan(ms: seq<Message>, keepRecent: nat, intent: nat): (p: Plan)
    ensures |p| == |ms|
  {
    seq(|ms|, i requires 0 <= i < |ms| =>
      if InRecentWindow(|ms|, keepRecent, i) && i != intent then HeadTail(ms[i].content) else None)
  }

  function TotalLength(ms: seq<Message>): nat {
    if |ms| == 0 then 0 else TotalLength(ms[..|ms| - 1]) + |ms[|ms| - 1].content|
  }

  lemma {:induction false} LengthUpdate(ms: seq<Message>, i: nat, m: Message)
    requires i < |ms|
    ensures TotalLength(ms[i := m]) == TotalLength(ms) - |ms[i].content| + |m.content|
  {
    var last := |ms| - 1;
    if i == last {
      assert ms[i := m][..last] == ms[..last];
    } else {
      assert ms[i := m][..last] == ms[..last][i := m];
      LengthUpdate(ms[..last], i, m);
    }
  }

  ghost predicate Shortens(ms: seq<Message>, plan: Plan)
    requires |plan| == |ms|
  {
    forall i :: 0 <= i < |ms| && plan[i].Some? ==> |plan[i].value| < |ms[i].content|
  }

  /** A shortening plan that touches anything makes the text strictly shorter. */
  lemma {:induction false} RewritingShortens(ms: seq<Message>, plan: Plan, cut: nat)
    requires |plan| == |ms| && cut <= |ms| && Shortens(ms, plan)
    ensures TotalLength(Rewritten(ms, plan, cut)) <= TotalLength(ms)
    ensures Touched(plan, cut) ==> TotalLength(Rewritten(ms, plan, cut)) < TotalLength(ms)
    ensures !Touched(plan, cut) ==> Rewritten(ms, plan, cut) == ms
  {
    if cut == 0 {
      assert Rewritten(ms, plan, 0) == ms;
    } else {
      RewritingShortens(ms, plan, cut - 1);
      RewrittenStep(ms, plan, cut - 1);
      if plan[cut - 1].Some? {
        LengthUpdate(Rewritten(ms, plan, cut - 1), cut - 1, ms[cut - 1].(content := plan[cut - 1].value));
        assert Touched(plan, cut);
      } else if Touched(plan, cut) {
        assert Touched(plan, cut - 1);
      }
    }
  }

  /** Rounds over the candidates until the target is met or a round changes nothing. */
  function LastResort(ms: seq<Message>, keepRecent: nat, intent: nat, total: int, target: int): (r: seq<Message>)
    ensures |r| == |ms|
    decreases TotalLength(ms)
  {
    var plan := RecentPlan(ms, keepRecent, intent);
    var cut := Cut(ms, plan, total, target, 0);
    RewritingShortens(ms, plan, cut);
    if total <= target || !Touched(plan, cut) then ms
    else LastResort(Rewritten(ms, plan, cut), keepRecent, intent, TotalAt(ms, plan, total, cut), target)
  }

  // ---------------------------------------------------------------- the pipeline

  datatype StageName = Truncated | Deduplicated | Digested | Summarised | Forgot | TruncatedPinnedRecent

  datatype Limits = Limits(
    contextLimit: nat,
    triggerRatio: real,
    targetRatio: real,
    keepRecent: nat,
    enableLlm: bool,
    enableForget: bool)
  {
    /** What the payload readers guarantee: a positive window and ratios strictly between 0 and 1. */
    predicate Valid() {
      contextLimit > 0 && 0.0 < triggerRatio < 1.0 && 0.0 < targetRatio < 1.0
    }

    function Target(): nat
      requires Valid()
    {
      (targetRatio * contextLimit as real).Floor
    }

    predicate Triggers(tokens: nat)
      requires Valid()
    {
      !(tokens as real / contextLimit as real < triggerRatio)
    }
  }

  datatype Report = Report(
    messages: seq<Message>,
    tokensBefore: int,
    tokensAfter: int,
    stages: seq<StageName>,
    summaryRequest: Option<SummaryRequest>,
    pinned: seq<nat>,
    droppedWithoutBackup: bool,
    overTargetPinnedOnly: bool,
    forcedOverTarget: bool)

  datatype Progress = Progress(ms: seq<Message>, stages: seq<StageName>)

  function Named(name: StageName, changed: bool): seq<StageName> {
    if changed then [name] else []
  }

  function RunStage(p: Progress, plan: Plan, name: StageName, target: int): Progress
    requires |plan| == |p.ms|
  {
    var total := SumTokens(p.ms);
    Progress(Stage(p.ms, plan, total, target), p.stages + Named(name, Touched(plan, Cut(p.ms, plan, total, target, 0))))
  }

  /** Stage 1: truncate, deduplicate, digest; a stage entered at or under the target changes nothing. */
  function Deterministic(ms: seq<Message>, pinned: seq<nat>, target: int): Progress {
    var p1 := RunStage(Progress(ms, []), TruncatePlan(ms, pinned), Truncated, target);
    var p2 := RunStage(p1, DedupPlan(p1.ms, pinned), Deduplicated, target);
    RunStage(p2, DigestPlan(p2.ms, pinned), Digested, target)
  }

  predicate AsksOracle(p: Progress, target: int, limits: Limits, world: World) {
    SumTokens(p.ms) > target && limits.enableLlm && world.hermesAvailable
  }

  predicate OracleAnswers(p: Progress, pinned: seq<nat>, target: int, limits: Limits, world: World) {
    && AsksOracle(p, target, limits, world)
    && |BuildSummaryRequest(p.ms, pinned, SumTokens(p.ms), target).indices| > 0
    && world.reply.Some?
  }

  /** Stage 2. */
  function Summarise(p: Progress, pinned: seq<nat>, target: int, limits: Limits, world: World): Progress {
    if OracleAnswers(p, pinned, target, limits, world) then
      Progress(ApplySummaries(p.ms, pinned, world.reply.value), p.stages + [Summarised])
    else p
  }

  /** The request an unanswered oracle leaves behind. */
  function PendingRequest(p: Progress, pinned: seq<nat>, target: int, limits: Limits, world: World): Option<SummaryRequest> {
    if AsksOracle(p, target, limits, world) && !OracleAnswers(p, pinned, target, limits, world) then
      Some(BuildSummaryRequest(p.ms, pinned, SumTokens(p.ms), target))
    else None
  }

  predicate Forgets(p: Progress, target: int, limits: Limits) {
    SumTokens(p.ms) > target && limits.enableForget
  }

  /** Stage 3. */
  function Forgetting(p: Progress, pinned: seq<nat>, target: int, limits: Limits, world: World): Progress {
    if Forgets(p, target, limits) then
      var f := Forget(p.ms, pinned, SumTokens(p.ms), target, world);
      Progress(Select(p.ms, f.kept), p.stages + Named(Forgot, f.dropped != []))
    else p
  }

  /** Stage 4 runs only when nothing but pinned messages is left and the target is still missed. */
  function Finish(p: Progress, pinned: seq<nat>, target: int, limits: Limits): Progress {
    var total := SumTokens(p.ms);
    if total > target && Unpinned(p.ms, pinned) == [] then
      var r := LastResort(p.ms, limits.keepRecent, FirstUser(p.ms), total, target);
      Progress(r, p.stages + Named(TruncatedPinnedRecent, r != p.ms))
    else p
  }

  predicate IntentTooBig(ms: seq<Message>, target: int) {
    FirstUser(ms) < |ms| && Tokens(ms[FirstUser(ms)]) > target
  }

  /** `compress` on parsed messages. */
  function Compressed(ms: seq<Message>, limits: Limits, world: World): Report
    requires limits.Valid()
  {
    var before := SumTokens(ms);
    var target := limits.Target();
    var pinned := PinnedIndices(ms, limits.keepRecent);
    if !limits.Triggers(before) then Report(ms, before, before, [], None, pinned, false, false, false)
    else
      var p1 := Deterministic(ms, pinned, target);
      var p2 := Summarise(p1, pinned, target, limits, world);
      var pending := PendingRequest(p1, pinned, target, limits, world);
      Settled(p2, pending, pinned, before, target, limits, world)
  }

  /** Stages 3 and 4 and the final report, after the summariser had its turn. */
  function Settled(p2: Progress, pending: Option<SummaryRequest>, pinned: seq<nat>, before: int, target: int,
                   limits: Limits, world: World): Report {
    var p3 := Forgetting(p2, pinned, target, limits, world);
    var pinned' := if Forgets(p2, target, limits) then PinnedIndices(p3.ms, limits.keepRecent) else pinned;
    var lost := Forgets(p2, target, limits) && Forget(p2.ms, pinned, SumTokens(p2.ms), target, world).droppedWithoutBackup;
    Reported(p3, pending, pinned', before, target, limits, lost)
  }

  function Reported(p3: Progress, pending: Option<SummaryRequest>, pinned: seq<nat>, before: int, target: int,
                    limits: Limits, lost: bool): Report {
    var p4 := Finish(p3, pinned, target, limits);
    var after := SumTokens(p4.ms);
    var forced := after > target && IntentTooBig(p4.ms, target);
    Report(
      p4.ms, before, after, p4.stages,
      if after > target && pending.None? then Some(BuildSummaryRequest(p4.ms, pinned, after, target)) else pending,
      pinned, lost, forced, forced)
  }
}

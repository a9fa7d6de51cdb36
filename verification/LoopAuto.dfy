/**
 The autonomous drain loop: claim a step, call the runner until it reports completion, record, repeat, then brief.
 It is the only writer of the store while it runs; the runner and both clocks are arbitrary.
 */
module LoopAuto {
  import opened Wrappers
  import opened Text
  import opened Dispatch
  import opened DispatchRuns
  import opened DispatchStore

  datatype Marker = Complete | Remains(rest: string) | NoMarker

  /** One call of the runner: an exception (an `Exception` or something more drastic), a failed call, or output. */
  datatype Outcome =
    | Raised(isException: bool, message: string)
    | Bad(error: string)
    | Output(text: string, marker: Marker, taskComplete: bool)

  /** The n-th runner call, the n-th reading of the monotonic clock, the n-th reading of the wall clock. */
  datatype World = World(runner: nat -> Outcome, monotonic: nat -> real, wall: nat -> real)

  datatype Options = Options(workId: string, timeoutSeconds: real, maxSegmentRetries: int, maxIterations: int, preflightOk: bool)

  datatype LoopStatus =
    | PreflightFailed
    | DispatchError
    | LoopError
    | IterationCapExceeded
    | NoProgress
    | SegmentFailed
    | BriefingNotReady
    | BriefingFailed
    | Completed
    | CompletedUnmarked

  datatype StepRecord = StepRecord(stepId: string, segmentId: string, succeeded: bool, attempts: nat)

  datatype LoopResult = LoopResult(
    ok: bool,
    status: LoopStatus,
    processed: nat,
    failed: nat,
    briefing: string,
    records: seq<StepRecord>)

  /** A run returns a result, or lets an exception that is no `Exception` pass through. */
  datatype Ending = Returned(result: LoopResult) | Propagated

  /** `_finalize`: every caller passes an error text exactly when the status is not one of the two complete ones. */
  function Finalized(status: LoopStatus, processed: nat, failed: nat, briefing: string, records: seq<StepRecord>): LoopResult {
    LoopResult((status.Completed? || status.CompletedUnmarked?) && failed == 0, status, processed, failed, briefing, records)
  }

  function CountRecords(records: seq<StepRecord>, succeeded: bool): nat {
    if |records| == 0 then 0
    else CountRecords(records[..|records| - 1], succeeded) + if records[|records| - 1].succeeded == succeeded then 1 else 0
  }

  /** `_fail`: the counters are recomputed from the records. */
  function Broken(status: LoopStatus, records: seq<StepRecord>): LoopResult {
    LoopResult(false, status, CountRecords(records, true), CountRecords(records, false), "", records)
  }

  /** What the attempts on one segment come to. */
  datatype SegmentOutcome =
    | Done(text: string, attempts: nat)
    | GaveUp(text: string, error: string, attempts: nat)
    | Crashed(isException: bool, message: string)

  /** The text of the last output among the calls from `lo` up to `hi`, or nothing. */
  function LastText(world: World, lo: nat, hi: nat): string {
    if hi <= lo then ""
    else
      match world.runner(hi - 1)
      case Output(text, _, _) => text
      case _ => LastText(world, lo, hi - 1)
  }

  lemma {:induction false} LastTextMeans(world: World, lo: nat, hi: nat)
    ensures || (LastText(world, lo, hi) == "" && forall c: nat :: lo <= c < hi ==> !world.runner(c).Output?)
            || (exists c: nat :: lo <= c < hi && world.runner(c).Output? && world.runner(c).text == LastText(world, lo, hi)
                  && forall d: nat :: c < d < hi ==> !world.runner(d).Output?)
  {
    if lo < hi && !world.runner(hi - 1).Output? {
      LastTextMeans(world, lo, hi - 1);
    }
  }

  /** Why the last of the calls from `lo` up to `hi` did not complete the segment. */
  function LastError(world: World, lo: nat, hi: nat): string {
    if hi <= lo then ""
    else
      match world.runner(hi - 1)
      case Raised(_, _) => ""
      case Bad(error) => error
      case Output(_, marker, _) =>
        match marker
        case Complete => ""
        case Remains(rest) => rest
        case NoMarker => "missing completion marker after " + Decimal(hi - lo) + " attempts"
  }

  /** Each call follows a look at the clock, taken before the deadline. */
  ghost predicate CallsInTime(world: World, deadline: real, calls0: nat, calls: nat, ticks0: nat) {
    forall t: nat :: ticks0 <= t < ticks0 + (calls - calls0) ==> world.monotonic(t) < deadline
  }

  /** How a segment worked on with the calls from `calls0` up to `calls` came to its outcome. */
  ghost predicate SegmentTold(options: Options, world: World, segment: SegmentOutcome, calls0: nat, calls: nat) {
    && calls0 <= calls <= calls0 + Max(0, options.maxSegmentRetries + 1)
    && match segment
       case Done(text, attempts) =>
         && calls > calls0 && attempts == calls - calls0
         && world.runner(calls - 1).Output? && world.runner(calls - 1).marker.Complete? && world.runner(calls - 1).text == text
       case GaveUp(text, error, attempts) =>
         && attempts == calls - calls0 && text == LastText(world, calls0, calls) && error == LastError(world, calls0, calls)
       case Crashed(isException, message) =>
         calls > calls0 && world.runner(calls - 1) == Raised(isException, message)
  }

  /** `_queue_state_signature` of a claimed step. */
  datatype Signature = Signature(remaining: nat, stepId: string, segmentId: string, checksum: string)

  /**
   The inner loop: at most `maxSegmentRetries + 1` calls, none once the deadline has passed. `calls` and `ticks`
   count runner calls and readings of the monotonic clock.
   */
  method RunSegment(options: Options, world: World, deadline: real, calls0: nat, ticks0: nat)
    returns (segment: SegmentOutcome, calls: nat, ticks: nat)
    ensures calls0 <= calls <= calls0 + Max(0, options.maxSegmentRetries + 1)
    ensures segment.Done? ==>
              && calls > calls0 && segment.attempts == calls - calls0
              && world.runner(calls - 1).Output? && world.runner(calls - 1).marker.Complete?
              && world.runner(calls - 1).text == segment.text
    ensures segment.GaveUp? ==>
              && segment.attempts == calls - calls0
              && (forall c :: calls0 <= c < calls ==> !(world.runner(c).Output? && world.runner(c).marker.Complete?))
              && (segment.attempts > options.maxSegmentRetries || (ticks > ticks0 && world.monotonic(ticks - 1) >= deadline))
    ensures segment.Crashed? ==> calls > calls0 && world.runner(calls - 1) == Raised(segment.isException, segment.message)
    ensures SegmentTold(options, world, segment, calls0, calls)
    ensures CallsInTime(world, deadline, calls0, calls, ticks0)
    ensures ticks >= ticks0
  {
    calls, ticks := calls0, ticks0;
    var attempts := 0;
    var text, lastError := "", "";
    while true
      invariant calls == calls0 + attempts && ticks >= ticks0
      invariant attempts <= Max(0, options.maxSegmentRetries + 1)
      invariant CallsInTime(world, deadline, calls0, calls, ticks0) && ticks == ticks0 + attempts
      invariant text == LastText(world, calls0, calls) && lastError == LastError(world, calls0, calls)
      invariant forall c :: calls0 <= c < calls ==>
                  !world.runner(c).Raised? && !(world.runner(c).Output? && world.runner(c).marker.Complete?)
      decreases Max(0, options.maxSegmentRetries + 1) - attempts
    {
      if attempts > options.maxSegmentRetries {
        break;
      }
      ticks := ticks + 1;
      if world.monotonic(ticks - 1) >= deadline {
        break;
      }
      attempts := attempts + 1;
      var outcome := world.runner(calls);
      calls := calls + 1;
      match outcome
      case Raised(isException, message) =>
        return Crashed(isException, message), calls, ticks;
      case Bad(error) =>
        lastError := error;
      case Output(output, marker, _) =>
        text := output;
        match marker
        case Complete =>
          return Done(text, attempts), calls, ticks;
        case Remains(rest) =>
          lastError := rest;
        case NoMarker =>
          lastError := "missing completion marker after " + Decimal(attempts) + " attempts";
    }
    return GaveUp(text, lastError, attempts), calls, ticks;
  }

  // ---------------------------------------------------------------- conditions on a bundle's steps

  ghost predicate UniqueIds(steps: seq<Step>) {
    forall i, j :: 0 <= i < j < |steps| ==> steps[i].stepId != steps[j].stepId
  }

  ghost predicate NonEmptyIds(steps: seq<Step>) {
    forall i :: 0 <= i < |steps| ==> steps[i].stepId != ""
  }

  ghost predicate NoneRunning(steps: seq<Step>) {
    forall i :: 0 <= i < |steps| ==> !steps[i].status.Running?
  }

  /** Nothing but work to do and work done. */
  ghost predicate Fresh(steps: seq<Step>) {
    forall i :: 0 <= i < |steps| ==> steps[i].status.Queued? || steps[i].status.RetryWait? || steps[i].status.Succeeded?
  }

  ghost predicate SameIds(a: seq<Step>, b: seq<Step>) {
    |a| == |b| && forall i :: 0 <= i < |a| ==> a[i].stepId == b[i].stepId
  }

  // ---------------------------------------------------------------- claiming and recording one step

  /** Nothing but a claim happened to the step. */
  ghost predicate OnlyClaimed(s: Step, t: Step) {
    t == s.(status := Running, updatedAt := t.updatedAt)
  }

  /** The step a claim took, seen from the state it left behind. */
  ghost predicate JustClaimed(before: seq<Step>, after: seq<Step>, k: nat) {
    && k < |before| == |after| && SameIds(before, after)
    && !before[k].status.Terminal() && OnlyClaimed(before[k], after[k])
    && (forall i :: 0 <= i < |before| && i != k ==> after[i] == before[i])
  }

  lemma ClaimEffect(steps: seq<Step>, now: real, stamp: real)
    ensures var k := ClaimIndex(steps, now, 0); var after := AfterClaim(steps, now, stamp);
            if k < |steps| then
              && NextAnswer(steps, now, stamp) == NextReply(Some(Public(steps[k])), Remaining(after), false)
              && JustClaimed(steps, after, k)
              && SucceededCount(after) == SucceededCount(steps)
              && (!steps[k].status.Unknown? ==> Remaining(after) == Remaining(steps))
              && Remaining(after) >= 1
            else
              && NextAnswer(steps, now, stamp) == NextReply(None, Remaining(steps), AllSucceeded(steps))
              && after == steps
  {
    var k := ClaimIndex(steps, now, 0);
    if k < |steps| {
      CountsUpdate(steps, k, Claimed(steps[k], stamp));
      SomeOpen(AfterClaim(steps, now, stamp), k);
    }
  }

  /** With unique ids a report for the running step `k` lands on step `k`. */
  lemma RecordEffect(steps: seq<Step>, k: nat, report: Report, stamp: real)
    requires k < |steps| && steps[k].status.Running? && UniqueIds(steps) && report.stepId == steps[k].stepId
    ensures var after := AfterRecord(steps, report, stamp);
            && after == steps[k := Recorded(steps[k], report, stamp)]
            && StepIndex(after, report.stepId, 0) == k && after[k].status == report.Status()
            && SameIds(steps, after)
            && SucceededCount(after) == SucceededCount(steps) + (if report.succeeded then 1 else 0)
            && Remaining(after) == Remaining(steps) - (if report.Status().Terminal() then 1 else 0)
  {
    hide Remaining, SucceededCount, StepIndex;
    FirstStep(steps, report.stepId, k);
    CountsUpdate(steps, k, Recorded(steps[k], report, stamp));
    FirstStep(AfterRecord(steps, report, stamp), report.stepId, k);
  }

  // ---------------------------------------------------------------- what a run stores in the steps

  ghost predicate SameWork(s: Step, t: Step) {
    s.stepId == t.stepId && s.segmentId == t.segmentId && s.checksum == t.checksum && s.content == t.content
  }

  ghost predicate Completes(world: World, c: nat, text: string) {
    world.runner(c).Output? && world.runner(c).marker.Complete? && world.runner(c).text == text
  }

  /** The step became succeeded with the text of a completing call and without an error. */
  ghost predicate StepCompleted(world: World, s: Step, t: Step, calls: nat) {
    && SameWork(s, t) && !s.status.Terminal() && t.status.Succeeded? && t.error == ""
    && exists c: nat :: c < calls && Completes(world, c, t.result)
  }

  ghost predicate StepTold(world: World, s: Step, t: Step, calls: nat) {
    t == s || StepCompleted(world, s, t, calls)
  }

  /** Every step is as it was, or was completed by one of the calls. */
  ghost predicate StepsTold(world: World, b0: seq<Step>, b1: seq<Step>, calls: nat) {
    |b0| == |b1| && forall i :: 0 <= i < |b0| ==> StepTold(world, b0[i], b1[i], calls)
  }

  /** All steps but `k` are told. */
  ghost predicate OthersTold(world: World, b0: seq<Step>, b1: seq<Step>, calls: nat, k: nat) {
    |b0| == |b1| && k < |b0| && forall i :: 0 <= i < |b0| && i != k ==> StepTold(world, b0[i], b1[i], calls)
  }

  /** The step failed with the last output of its attempts and the reason the last of them gave. */
  ghost predicate StepFailed(options: Options, world: World, t: Step, calls: nat) {
    && t.status.Failed?
    && exists c: nat :: FailedFrom(options, world, t, c, calls)
  }

  ghost predicate FailedFrom(options: Options, world: World, t: Step, c: nat, calls: nat) {
    && c <= calls <= c + Max(0, options.maxSegmentRetries + 1)
    && t.result == LastText(world, c, calls)
    && t.error == (if LastError(world, c, calls) == "" then "segment_failed" else LastError(world, c, calls))
  }

  /** The last call raised an exception, and the step was parked with its message, or left alone for want of an id. */
  ghost predicate StepCrashed(world: World, s: Step, t: Step, calls: nat) {
    && calls > 0 && world.runner(calls - 1).Raised?
    && if s.stepId == "" then OnlyClaimed(s, t)
       else t.status.RetryWait? && t.result == "" && t.error == "loop_auto crashed mid-step: " + world.runner(calls - 1).message
  }

  ghost predicate Crash(ending: Ending) {
    ending.Propagated? || ending.result.status.LoopError?
  }

  /** The run ended on step `k`: the others are told, and this one failed, crashed, or was only claimed at the cap. */
  ghost predicate EndsOnStep(options: Options, world: World, ending: Ending, b0: seq<Step>, b1: seq<Step>, calls: nat, k: nat) {
    && OthersTold(world, b0, b1, calls, k)
    && SameWork(b0[k], b1[k]) && !b0[k].status.Terminal()
    && if Crash(ending) then StepCrashed(world, b0[k], b1[k], calls)
       else if ending.result.status.SegmentFailed? then StepFailed(options, world, b1[k], calls)
       else ending.result.status.IterationCapExceeded? && OnlyClaimed(b0[k], b1[k])
  }

  lemma MoreCallsTell(world: World, b0: seq<Step>, cur: seq<Step>, calls0: nat, calls: nat)
    requires StepsTold(world, b0, cur, calls0) && calls0 <= calls
    ensures StepsTold(world, b0, cur, calls)
  {
  }

  /** A step just claimed had not been touched before. */
  lemma ClaimTells(world: World, b0: seq<Step>, cur: seq<Step>, mid: seq<Step>, k: nat, calls0: nat, calls: nat)
    requires StepsTold(world, b0, cur, calls0) && calls0 <= calls && JustClaimed(cur, mid, k)
    ensures OthersTold(world, b0, mid, calls, k) && OnlyClaimed(b0[k], mid[k]) && !b0[k].status.Terminal()
  {
    MoreCallsTell(world, b0, cur, calls0, calls);
    forall i | 0 <= i < |b0| && i != k
      ensures StepTold(world, b0[i], mid[i], calls)
    {
      assert StepTold(world, b0[i], cur[i], calls);
    }
    assert StepTold(world, b0[k], cur[k], calls);
  }

  lemma OthersAfter(world: World, b0: seq<Step>, mid: seq<Step>, k: nat, calls: nat, t: Step)
    requires OthersTold(world, b0, mid, calls, k)
    ensures OthersTold(world, b0, mid[k := t], calls, k)
  {
    hide StepTold;
  }

  lemma AllTold(world: World, b0: seq<Step>, b1: seq<Step>, k: nat, calls: nat)
    requires OthersTold(world, b0, b1, calls, k) && StepTold(world, b0[k], b1[k], calls)
    ensures StepsTold(world, b0, b1, calls)
  {
    hide StepTold;
  }

  /** What a segment's outcome, once recorded, makes of the claimed step. */
  lemma SegmentTells(options: Options, world: World, b0: seq<Step>, cur: seq<Step>, mid: seq<Step>, k: nat, segment: SegmentOutcome,
                     stamp: real, calls0: nat, calls: nat)
    requires UniqueIds(mid) && StepsTold(world, b0, cur, calls0) && JustClaimed(cur, mid, k)
    requires SegmentTold(options, world, segment, calls0, calls)
    ensures var after := AfterSegment(mid, cur[k].stepId, segment, stamp);
            && OthersTold(world, b0, after, calls, k) && SameWork(b0[k], after[k]) && !b0[k].status.Terminal()
            && match segment
               case Done(_, _) => StepsTold(world, b0, after, calls)
               case GaveUp(_, _, _) => StepFailed(options, world, after[k], calls)
               case Crashed(_, _) => StepCrashed(world, b0[k], after[k], calls)
  {
    hide UniqueIds, StepTold, StepsTold, OthersTold, AfterRecord, LastText, LastError;
    ClaimTells(world, b0, cur, mid, k, calls0, calls);
    ClaimKeepsWork(cur, mid, k);
    OthersLength(world, b0, mid, calls, k);
    var report := SegmentReport(cur[k].stepId, segment);
    if report.Some? {
      RecordEffect(mid, k, report.value, stamp);
      var t := Recorded(mid[k], report.value, stamp);
      OthersAfter(world, b0, mid, k, calls, t);
      match segment
      case Done(text, _) =>
        assert Completes(world, calls - 1, text);
        StepIsTold(world, b0[k], t, calls);
        AllTold(world, b0, mid[k := t], k, calls);
      case GaveUp(_, _, _) =>
        assert FailedFrom(options, world, t, calls0, calls);
      case Crashed(_, _) =>
    }
  }

  lemma ClaimKeepsWork(cur: seq<Step>, mid: seq<Step>, k: nat)
    requires JustClaimed(cur, mid, k)
    ensures k < |mid| && mid[k].status.Running? && mid[k].stepId == cur[k].stepId
  {
  }

  lemma OthersLength(world: World, b0: seq<Step>, b1: seq<Step>, calls: nat, k: nat)
    requires OthersTold(world, b0, b1, calls, k)
    ensures |b0| == |b1| && k < |b0|
  {
  }

  lemma StepIsTold(world: World, s: Step, t: Step, calls: nat)
    requires StepCompleted(world, s, t, calls)
    ensures StepTold(world, s, t, calls)
  {
  }

  // ---------------------------------------------------------------- what a run reports

  /** A record names a step of the bundle that ended the way the record says. */
  ghost predicate RecordFits(r: StepRecord, b0: seq<Step>, b1: seq<Step>, i: int) {
    && 0 <= i < |b0| && i < |b1| && r.stepId == b0[i].stepId && r.segmentId == b0[i].segmentId
    && !b0[i].status.Terminal() && if r.succeeded then b1[i].status.Succeeded? else b1[i].status.Failed?
  }

  ghost predicate RecordsFit(records: seq<StepRecord>, b0: seq<Step>, b1: seq<Step>) {
    forall r :: 0 <= r < |records| ==> FitsSome(records[r], b0, b1)
  }

  ghost predicate FitsSome(r: StepRecord, b0: seq<Step>, b1: seq<Step>) {
    exists i :: RecordFits(r, b0, b1, i)
  }

  function Attempts(records: seq<StepRecord>): nat {
    if |records| == 0 then 0 else Attempts(records[..|records| - 1]) + records[|records| - 1].attempts
  }

  lemma CountSnoc(records: seq<StepRecord>, r: StepRecord)
    ensures CountRecords(records + [r], true) == CountRecords(records, true) + if r.succeeded then 1 else 0
    ensures CountRecords(records + [r], false) == CountRecords(records, false) + if r.succeeded then 0 else 1
    ensures Attempts(records + [r]) == Attempts(records) + r.attempts
  {
    assert (records + [r])[..|records|] == records;
  }

  /** A step that had already been recorded stays as it was while another is worked on. */
  lemma RecordsStay(records: seq<StepRecord>, world: World, b0: seq<Step>, cur: seq<Step>, after: seq<Step>, k: nat)
    requires RecordsFit(records, b0, cur) && |b0| == |cur| == |after| && k < |cur| && !cur[k].status.Terminal()
    requires forall i :: 0 <= i < |cur| && i != k ==> after[i] == cur[i]
    ensures RecordsFit(records, b0, after)
  {
    forall r | 0 <= r < |records|
      ensures FitsSome(records[r], b0, after)
    {
      assert FitsSome(records[r], b0, cur);
      var i :| RecordFits(records[r], b0, cur, i);
      assert RecordFits(records[r], b0, after, i);
    }
  }

  /** The runner's last words: the briefing is the text of the last call and complete exactly when that says so. */
  ghost predicate LastCallTold(world: World, ending: Ending, calls: nat) {
    && (Crash(ending) ==>
          && calls > 0 && world.runner(calls - 1).Raised? && (ending.Propagated? <==> !world.runner(calls - 1).isException))
    && (ending.Returned? && (ending.result.status.Completed? || ending.result.status.CompletedUnmarked?) ==>
          && calls > 0 && world.runner(calls - 1).Output? && ending.result.briefing == world.runner(calls - 1).text
          && (ending.result.status.Completed? <==> world.runner(calls - 1).taskComplete))
    && (ending.Returned? && ending.result.status.BriefingFailed? ==> calls > 0 && world.runner(calls - 1).Bad?)
    && (ending.Returned? && !ending.result.status.Completed? && !ending.result.status.CompletedUnmarked? ==> ending.result.briefing == "")
  }

  /** The counters and the records of a result: a record a segment, and every runner call accounted for. */
  ghost predicate CountersTold(ending: Ending, calls: nat) {
    ending.Returned? ==>
      var r := ending.result;
      && CountRecords(r.records, true) == r.processed && CountRecords(r.records, false) == r.failed
      && r.failed == (if r.status.SegmentFailed? then 1 else 0)
      && (!r.status.LoopError? ==>
            calls == Attempts(r.records)
                     + if r.status.Completed? || r.status.CompletedUnmarked? || r.status.BriefingFailed? then 1 else 0)
  }

  // ---------------------------------------------------------------- the loop invariant

  /** What holds of the stored steps `cur` after `rounds` completed segments, starting from `b0`. */
  ghost predicate Drained(b0: seq<Step>, cur: seq<Step>, rounds: nat, previous: Option<Signature>) {
    && SameIds(b0, cur)
    && SucceededCount(cur) == SucceededCount(b0) + rounds
    && (NoneRunning(b0) ==> NoneRunning(cur))
    && (Fresh(b0) ==> Fresh(cur) && Remaining(cur) + rounds == Remaining(b0))
    && (previous.Some? ==>
          var k := StepIndex(cur, previous.value.stepId, 0);
          k < |cur| && cur[k].status.Succeeded?)
  }

  lemma DrainStart(b0: seq<Step>)
    ensures Drained(b0, b0, 0, None)
  {
  }

  lemma UniqueFollowsIds(a: seq<Step>, b: seq<Step>)
    requires SameIds(a, b)
    ensures UniqueIds(a) ==> UniqueIds(b)
    ensures NonEmptyIds(a) ==> NonEmptyIds(b)
  {
  }

  /** A step just claimed is never the one recorded in the round before. */
  lemma ClaimIsProgress(b0: seq<Step>, cur: seq<Step>, mid: seq<Step>, k: nat, rounds: nat, previous: Option<Signature>, s: Signature)
    requires UniqueIds(b0) && Drained(b0, cur, rounds, previous) && JustClaimed(cur, mid, k) && s.stepId == cur[k].stepId
    ensures previous != Some(s)
  {
    UniqueFollowsIds(b0, cur);
    FirstStep(cur, cur[k].stepId, k);
  }

  /** A completed round keeps the invariant. */
  lemma RoundCompletes(b0: seq<Step>, cur: seq<Step>, mid: seq<Step>, k: nat, rounds: nat, previous: Option<Signature>,
                       s: Signature, report: Report, stamp: real)
    requires UniqueIds(b0) && Drained(b0, cur, rounds, previous) && JustClaimed(cur, mid, k)
    requires SucceededCount(mid) == SucceededCount(cur)
    requires !cur[k].status.Unknown? ==> Remaining(mid) == Remaining(cur)
    requires s.stepId == cur[k].stepId == report.stepId && report.succeeded
    ensures Drained(b0, AfterRecord(mid, report, stamp), rounds + 1, Some(s))
  {
    hide Remaining, SucceededCount, AfterRecord, StepIndex;
    UniqueFollowsIds(b0, cur);
    UniqueFollowsIds(cur, mid);
    RecordEffect(mid, k, report, stamp);
  }

  /** A round that ends in failure or a crash leaves its step failed or parked, never running. */
  lemma RoundEnds(b0: seq<Step>, cur: seq<Step>, mid: seq<Step>, k: nat, rounds: nat, previous: Option<Signature>,
                  report: Report, stamp: real)
    requires UniqueIds(b0) && Drained(b0, cur, rounds, previous) && JustClaimed(cur, mid, k)
    requires SucceededCount(mid) == SucceededCount(cur)
    requires cur[k].stepId == report.stepId && !report.succeeded
    ensures var after := AfterRecord(mid, report, stamp);
            && SucceededCount(after) == SucceededCount(b0) + rounds
            && (NoneRunning(b0) ==> NoneRunning(after))
            && k < |after| && after[k].status == report.Status() && after[k].stepId == report.stepId
            && !AllSucceeded(after)
  {
    hide Remaining, SucceededCount, AfterRecord, StepIndex;
    UniqueFollowsIds(b0, cur);
    UniqueFollowsIds(cur, mid);
    RecordEffect(mid, k, report, stamp);
  }

  /** With nothing running and nothing failed, an empty-handed claim means that all is done. */
  lemma NothingLeft(cur: seq<Step>, now: real)
    requires Fresh(cur) && ClaimIndex(cur, now, 0) == |cur|
    ensures AllSucceeded(cur)
  {
    assert forall i :: 0 <= i < |cur| ==> !Claimable(cur[i], now);
  }

  /** Exactly one step is running. */
  ghost predicate OneRunning(steps: seq<Step>, k: nat) {
    k < |steps| && steps[k].status.Running? && forall i :: 0 <= i < |steps| && i != k ==> !steps[i].status.Running?
  }

  /** The only step left running has no id. */
  ghost predicate LeftToTheLease(steps: seq<Step>) {
    exists k: nat :: OneRunning(steps, k) && steps[k].stepId == ""
  }

  /** The last operation parked step `k`. */
  ghost predicate LastParked(trace: seq<Op>, steps: seq<Step>, k: nat) {
    && |trace| > 0 && trace[|trace| - 1].Record?
    && k < |steps| && steps[k].status.RetryWait? && steps[k].stepId == trace[|trace| - 1].report.stepId
  }

  ghost predicate AlwaysCompletes(world: World, deadline: real) {
    && (forall n: nat :: world.runner(n).Output? && world.runner(n).marker.Complete?)
    && (forall n: nat :: world.monotonic(n) < deadline)
  }

  /** The runner always completes, the deadline never comes, and the limits allow for the work there is. */
  ghost predicate Favourable(options: Options, world: World, steps: seq<Step>) {
    && AlwaysCompletes(world, world.monotonic(0) + options.timeoutSeconds)
    && options.maxSegmentRetries >= 0 && options.maxIterations >= Remaining(steps)
    && UniqueIds(steps) && Fresh(steps)
  }

  function CallBound(options: Options): nat {
    Max(0, options.maxIterations) * Max(0, options.maxSegmentRetries + 1) + 1
  }

  lemma RunOne(st: Bundles, op: Op)
    ensures Run(st, [op]) == Apply(st, op) && Run(st, []) == st
  {
    RunSnoc(st, [], op);
    assert [] + [op] == [op];
  }

  lemma RunSnoc(st: Bundles, trace: seq<Op>, op: Op)
    ensures Run(st, trace + [op]) == Apply(Run(st, trace), op)
  {
    assert (trace + [op])[..|trace|] == trace;
  }

  // ---------------------------------------------------------------- call accounting

  ghost predicate Within(calls: nat, rounds: nat, perRound: nat) {
    calls <= rounds * perRound
  }

  lemma OneMoreRound(calls: nat, rounds: nat, perRound: nat, after: nat)
    requires Within(calls, rounds, perRound) && after <= calls + perRound
    ensures Within(after, rounds + 1, perRound)
  {
  }

  lemma RoundsBound(calls: nat, rounds: nat, perRound: nat, options: Options)
    requires Within(calls, rounds, perRound) && rounds <= Max(0, options.maxIterations)
    requires perRound == Max(0, options.maxSegmentRetries + 1)
    ensures calls + 1 <= CallBound(options)
  {
    assert rounds * perRound <= Max(0, options.maxIterations) * perRound;
  }

  // ---------------------------------------------------------------- the loop

  /** What the steps and the result of a run say of what the runner did. */
  ghost predicate ResultsTold(options: Options, world: World, b0: seq<Step>, b1: seq<Step>, ending: Ending, calls: nat) {
    && LastCallTold(world, ending, calls) && CountersTold(ending, calls)
    && (UniqueIds(b0) ==> EndTold(options, world, b0, b1, ending, calls))
  }

  /**
   With unique ids every step is as it was or was completed by a call, except the one the run ended on: it failed,
   crashed, or was only claimed. The records fit the steps.
   */
  ghost predicate EndTold(options: Options, world: World, b0: seq<Step>, b1: seq<Step>, ending: Ending, calls: nat) {
    && (ending.Returned? ==> RecordsFit(ending.result.records, b0, b1))
    && (ending.Returned? && (ending.result.status.SegmentFailed? || ending.result.status.IterationCapExceeded?) ==>
          exists k :: EndsOnStep(options, world, ending, b0, b1, calls, k))
    && (Crash(ending) ==>
          || (AllSucceeded(b1) && StepsTold(world, b0, b1, calls))
          || exists k :: EndsOnStep(options, world, ending, b0, b1, calls, k))
    && (ending.Returned? && !(ending.result.status.SegmentFailed? || ending.result.status.IterationCapExceeded? || Crash(ending)) ==>
          StepsTold(world, b0, b1, calls))
  }

  /** With the preflight passed the run reached the bundle; the briefing was made exactly if every step had succeeded. */
  ghost predicate StatusTold(options: Options, b1: seq<Step>, ending: Ending) {
    ending.Returned? && options.preflightOk ==>
      && !ending.result.status.PreflightFailed? && !ending.result.status.DispatchError?
      && (ending.result.status.BriefingNotReady? ==> !AllSucceeded(b1))
      && (ending.result.status.BriefingFailed? ==> AllSucceeded(b1))
  }

  /** What a run guarantees about the bundle it drained, from its steps before and after. */
  ghost predicate LoopGuarantee(options: Options, world: World, b0: seq<Step>, b1: seq<Step>, ending: Ending, calls: nat, trace: seq<Op>) {
    DrainGuarantee(options, world, b0, b1, ending, trace) && ResultsTold(options, world, b0, b1, ending, calls)
  }

  /** Its part about statuses and counts. */
  ghost predicate DrainGuarantee(options: Options, world: World, b0: seq<Step>, b1: seq<Step>, ending: Ending, trace: seq<Op>) {
    // ok means that every stored step succeeded
    && (ending.Returned? && ending.result.ok ==> AllSucceeded(b1))
    && StatusTold(options, b1, ending)
    && (UniqueIds(b0) ==>
          // the loop never stops for lack of progress, and counts exactly the steps it completed
          && (ending.Returned? ==> !ending.result.status.NoProgress?)
          && (ending.Returned? ==> ending.result.processed == SucceededCount(b1) - SucceededCount(b0)))
    && (UniqueIds(b0) && NoneRunning(b0) ==>
          // nothing is left running, except the one step claimed when the iteration cap is hit
          && (ending.Returned? && ending.result.status.IterationCapExceeded? ==> exists k :: OneRunning(b1, k))
          && (ending.Returned? && !ending.result.status.IterationCapExceeded? && !ending.result.status.LoopError? ==> NoneRunning(b1))
          // and a crash in a segment parks its step, unless that step has no id: then it is left to the lease
          && (ending.Propagated? || ending.result.status.LoopError? ==>
                || AllSucceeded(b1)
                || (NoneRunning(b1) && exists k :: LastParked(trace, b1, k))
                || (!NonEmptyIds(b0) && LeftToTheLease(b1))))
    // with a favourable world and enough room the drain completes
    && (options.preflightOk && Favourable(options, world, b0) ==> ending.Returned? && ending.result.ok)
  }

  /** The report that ends a segment; a crashed step without an id is left to the lease. */
  function SegmentReport(stepId: string, segment: SegmentOutcome): Option<Report> {
    match segment
    case Done(text, _) => Some(Report(stepId, text, "", true, false))
    case GaveUp(text, error, _) => Some(Report(stepId, text, if error == "" then "segment_failed" else error, false, false))
    case Crashed(_, message) =>
      if stepId == "" then None else Some(Report(stepId, "", "loop_auto crashed mid-step: " + message, false, true))
  }

  function SegmentOps(workId: string, stepId: string, segment: SegmentOutcome, stamp: real): seq<Op> {
    match SegmentReport(stepId, segment)
    case None => []
    case Some(report) => [Record(workId, report, stamp)]
  }

  /** Works on a claimed step and records what came of it; a crash parks the step before it is passed on. */
  method WorkOn(store: Store, options: Options, world: World, deadline: real, stepId: string, calls0: nat, ticks0: nat, stamp: real)
    returns (segment: SegmentOutcome, calls: nat, ticks: nat)
    requires options.workId in store.bundles
    modifies store
    ensures store.bundles == Run(old(store.bundles), SegmentOps(options.workId, stepId, segment, stamp))
    ensures SegmentTold(options, world, segment, calls0, calls) && ticks >= ticks0
    ensures CallsInTime(world, deadline, calls0, calls, ticks0)
    ensures AlwaysCompletes(world, deadline) && options.maxSegmentRetries >= 0 ==> segment.Done?
  {
    ghost var st := store.bundles;
    segment, calls, ticks := RunSegment(options, world, deadline, calls0, ticks0);
    assert segment.GaveUp? && calls > calls0 ==> !(world.runner(calls0).Output? && world.runner(calls0).marker.Complete?);
    var report := SegmentReport(stepId, segment);
    if report.Some? {
      var reply := store.Record(options.workId, report.value, stamp);
      RunOne(st, Op.Record(options.workId, report.value, stamp));
    }
  }

  /** The records and the steps agree with the calls made so far. */
  ghost predicate Recounted(world: World, b0: seq<Step>, cur: seq<Step>, records: seq<StepRecord>, calls: nat) {
    && Attempts(records) == calls && CountRecords(records, false) == 0
    && (UniqueIds(b0) ==> StepsTold(world, b0, cur, calls) && RecordsFit(records, b0, cur))
  }

  lemma RecountStart(world: World, b0: seq<Step>)
    ensures Recounted(world, b0, b0, [], 0)
  {
  }

  /** What holds of the steps while a claimed one is worked on. */
  lemma RecountClaim(options: Options, world: World, b0: seq<Step>, cur: seq<Step>, mid: seq<Step>, k: nat, records: seq<StepRecord>,
                     calls: nat, ending: Ending, rounds: nat)
    requires Recounted(world, b0, cur, records, calls) && JustClaimed(cur, mid, k) && CountRecords(records, true) == rounds
    requires ending.Returned? && (ending.result.status.IterationCapExceeded? || (ending.result.status.NoProgress? && !UniqueIds(b0)))
    requires ending.result == Finalized(ending.result.status, rounds, 0, "", records)
    ensures ResultsTold(options, world, b0, mid, ending, calls)
  {
    hide UniqueIds, StepTold, StepsTold, OthersTold, RecordsFit, Attempts, CountRecords;
    if UniqueIds(b0) {
      ClaimTells(world, b0, cur, mid, k, calls, calls);
      OthersLength(world, b0, mid, calls, k);
      RecordsStay(records, world, b0, cur, mid, k);
      assert EndsOnStep(options, world, ending, b0, mid, calls, k);
    }
  }

  /** The other steps once a segment's report is stored. */
  lemma AfterSegmentOthers(cur: seq<Step>, mid: seq<Step>, k: nat, segment: SegmentOutcome, stamp: real)
    requires UniqueIds(mid) && JustClaimed(cur, mid, k)
    ensures var after := AfterSegment(mid, cur[k].stepId, segment, stamp);
            && |after| == |cur|
            && (forall i :: 0 <= i < |cur| && i != k ==> after[i] == cur[i])
            && (segment.Done? ==> after[k].status.Succeeded?) && (segment.GaveUp? ==> after[k].status.Failed?)
  {
    hide UniqueIds, AfterRecord, StepIndex, Remaining, SucceededCount;
    var report := SegmentReport(cur[k].stepId, segment);
    if report.Some? {
      RecordEffect(mid, k, report.value, stamp);
    }
  }

  lemma FitsNew(records: seq<StepRecord>, b0: seq<Step>, b1: seq<Step>, r: StepRecord, k: nat)
    requires RecordsFit(records, b0, b1) && RecordFits(r, b0, b1, k)
    ensures RecordsFit(records + [r], b0, b1)
  {
    hide RecordFits, FitsSome;
    FitsOne(r, b0, b1, k);
  }

  lemma FitsOne(r: StepRecord, b0: seq<Step>, b1: seq<Step>, k: nat)
    requires RecordFits(r, b0, b1, k)
    ensures FitsSome(r, b0, b1)
  {
  }

  /** A completed segment is counted, recorded and stored with the text that completed it. */
  lemma RecountRound(options: Options, world: World, b0: seq<Step>, cur: seq<Step>, mid: seq<Step>, k: nat, records: seq<StepRecord>,
                     calls0: nat, calls: nat, segment: SegmentOutcome, stamp: real, r: StepRecord)
    requires Recounted(world, b0, cur, records, calls0) && JustClaimed(cur, mid, k) && (UniqueIds(b0) ==> UniqueIds(mid))
    requires SegmentTold(options, world, segment, calls0, calls) && segment.Done?
    requires r == StepRecord(cur[k].stepId, cur[k].segmentId, true, segment.attempts)
    ensures Recounted(world, b0, AfterSegment(mid, cur[k].stepId, segment, stamp), records + [r], calls)
  {
    hide UniqueIds, StepTold, StepsTold, OthersTold, RecordsFit, Attempts, CountRecords, AfterSegment;
    CountSnoc(records, r);
    if UniqueIds(b0) {
      SegmentTells(options, world, b0, cur, mid, k, segment, stamp, calls0, calls);
      AfterSegmentOthers(cur, mid, k, segment, stamp);
      var after := AfterSegment(mid, cur[k].stepId, segment, stamp);
      OthersLength(world, b0, after, calls, k);
      ClaimTells(world, b0, cur, mid, k, calls0, calls);
      ClaimIds(b0, cur, mid, k);
      RecordsStay(records, world, b0, cur, after, k);
      FitsNew(records, b0, after, r, k);
    }
  }

  lemma ClaimIds(b0: seq<Step>, cur: seq<Step>, mid: seq<Step>, k: nat)
    requires JustClaimed(cur, mid, k) && k < |b0| && OnlyClaimed(b0[k], mid[k])
    ensures b0[k].stepId == cur[k].stepId && b0[k].segmentId == cur[k].segmentId
  {
  }

  /** How a run ends on a segment that was not completed. */
  function SegmentEnding(segment: SegmentOutcome, rounds: nat, records: seq<StepRecord>, s: Step): Ending {
    match segment
    case Crashed(isException, _) => if isException then Returned(Broken(LoopError, records)) else Propagated
    case Done(_, attempts) => Returned(Finalized(SegmentFailed, rounds, 1, "", records + [StepRecord(s.stepId, s.segmentId, false, attempts)]))
    case GaveUp(_, _, attempts) => Returned(Finalized(SegmentFailed, rounds, 1, "", records + [StepRecord(s.stepId, s.segmentId, false, attempts)]))
  }

  lemma RecountEnd(options: Options, world: World, b0: seq<Step>, cur: seq<Step>, mid: seq<Step>, k: nat, records: seq<StepRecord>,
                   calls0: nat, calls: nat, segment: SegmentOutcome, stamp: real, rounds: nat)
    requires Recounted(world, b0, cur, records, calls0) && JustClaimed(cur, mid, k) && (UniqueIds(b0) ==> UniqueIds(mid))
    requires SegmentTold(options, world, segment, calls0, calls) && !segment.Done? && CountRecords(records, true) == rounds
    ensures ResultsTold(options, world, b0, AfterSegment(mid, cur[k].stepId, segment, stamp), SegmentEnding(segment, rounds, records, cur[k]), calls)
  {
    hide UniqueIds, StepTold, StepsTold, OthersTold, RecordsFit, Attempts, CountRecords, AfterSegment, StepFailed, StepCrashed;
    var ending := SegmentEnding(segment, rounds, records, cur[k]);
    var after := AfterSegment(mid, cur[k].stepId, segment, stamp);
    if segment.GaveUp? {
      CountSnoc(records, StepRecord(cur[k].stepId, cur[k].segmentId, false, segment.attempts));
    }
    if UniqueIds(b0) {
      SegmentTells(options, world, b0, cur, mid, k, segment, stamp, calls0, calls);
      AfterSegmentOthers(cur, mid, k, segment, stamp);
      OthersLength(world, b0, after, calls, k);
      ClaimTells(world, b0, cur, mid, k, calls0, calls);
      ClaimIds(b0, cur, mid, k);
      RecordsStay(records, world, b0, cur, after, k);
      if segment.GaveUp? {
        FitsNew(records, b0, after, StepRecord(cur[k].stepId, cur[k].segmentId, false, segment.attempts), k);
      }
      assert EndsOnStep(options, world, ending, b0, after, calls, k);
    }
  }

  lemma RecountBriefing(options: Options, world: World, b0: seq<Step>, cur: seq<Step>, records: seq<StepRecord>, calls0: nat, calls: nat,
                        ending: Ending)
    requires Recounted(world, b0, cur, records, calls0) && calls0 <= calls
    requires LastCallTold(world, ending, calls) && CountersTold(ending, calls)
    requires ending.Returned? ==>
               ending.result.records == records && !ending.result.status.SegmentFailed? && !ending.result.status.IterationCapExceeded?
    requires Crash(ending) ==> AllSucceeded(cur)
    ensures ResultsTold(options, world, b0, cur, ending, calls)
  {
    hide UniqueIds, StepsTold, RecordsFit, Attempts, CountRecords, AllSucceeded, LastCallTold, CountersTold;
    if UniqueIds(b0) {
      MoreCallsTell(world, b0, cur, calls0, calls);
    }
  }

  ghost predicate LoopState(options: Options, world: World, st0: Bundles, st: Bundles, trace: seq<Op>, rounds: nat, records: seq<StepRecord>,
                            previous: Option<Signature>, calls: nat)
    requires options.workId in st0
  {
    && options.workId in st
    && st == Run(st0, trace)
    && st == st0[options.workId := st[options.workId]]
    && SameIds(st0[options.workId].steps, st[options.workId].steps)
    && rounds <= Max(0, options.maxIterations)
    && CountRecords(records, true) == rounds && |records| == rounds
    && Within(calls, rounds, Max(0, options.maxSegmentRetries + 1))
    && Recounted(world, st0[options.workId].steps, st[options.workId].steps, records, calls)
    && (UniqueIds(st0[options.workId].steps) ==> Drained(st0[options.workId].steps, st[options.workId].steps, rounds, previous))
  }

  ghost predicate Guaranteed(options: Options, world: World, st0: Bundles, st: Bundles, ending: Ending, calls: nat, trace: seq<Op>)
    requires options.workId in st0
  {
    && options.workId in st
    && st == Run(st0, trace)
    && st == st0[options.workId := st[options.workId]]
    && calls <= CallBound(options)
    && LoopGuarantee(options, world, st0[options.workId].steps, st[options.workId].steps, ending, calls, trace)
  }

  /** The state right after a claim that took step `k`. */
  ghost predicate ClaimState(options: Options, world: World, st0: Bundles, st1: Bundles, st2: Bundles, trace: seq<Op>, rounds: nat,
                             records: seq<StepRecord>, previous: Option<Signature>, calls: nat, k: nat, now: real, stamp: real)
    requires options.workId in st0
  {
    && LoopState(options, world, st0, st1, trace, rounds, records, previous, calls)
    && st2 == st1[options.workId := st1[options.workId].(steps := AfterClaim(st1[options.workId].steps, now, stamp))]
    && ClaimIndex(st1[options.workId].steps, now, 0) == k < |st1[options.workId].steps|
  }

  lemma EndCalls(options: Options, rounds: nat, calls0: nat, calls: nat)
    requires Within(calls0, rounds, Max(0, options.maxSegmentRetries + 1))
    requires calls <= calls0 + Max(0, options.maxSegmentRetries + 1)
    requires rounds < options.maxIterations || calls == calls0
    requires rounds <= Max(0, options.maxIterations)
    ensures calls <= CallBound(options)
  {
    var perRound := Max(0, options.maxSegmentRetries + 1);
    if rounds < options.maxIterations {
      OneMoreRound(calls0, rounds, perRound, calls);
      RoundsBound(calls, rounds + 1, perRound, options);
    } else {
      RoundsBound(calls, rounds, perRound, options);
    }
  }

  /** Stopping right after a claim: at the iteration cap, or because the queue looked the same twice. */
  lemma StopAfterClaim(options: Options, world: World, st0: Bundles, st1: Bundles, st2: Bundles, trace: seq<Op>, rounds: nat,
                       records: seq<StepRecord>, previous: Option<Signature>, calls: nat, k: nat, now: real, stamp: real,
                       status: LoopStatus, s: Signature)
    requires options.workId in st0
    requires ClaimState(options, world, st0, st1, st2, trace, rounds, records, previous, calls, k, now, stamp)
    requires s.stepId == st1[options.workId].steps[k].stepId
    requires (status.IterationCapExceeded? && rounds >= options.maxIterations) || (status.NoProgress? && previous == Some(s))
    ensures Guaranteed(options, world, st0, st2, Returned(Finalized(status, rounds, 0, "", records)), calls,
                       trace + [Claim(options.workId, now, stamp)])
  {
    hide Remaining, SucceededCount, AfterClaim, StepIndex, Within, CallBound, ClaimIndex, NextAnswer, Recounted, ResultsTold,
         CountRecords;
    var b0, cur, mid := st0[options.workId].steps, st1[options.workId].steps, st2[options.workId].steps;
    RunSnoc(st0, trace, Claim(options.workId, now, stamp));
    ClaimEffect(cur, now, stamp);
    EndCalls(options, rounds, calls, calls);
    if UniqueIds(b0) {
      ClaimIsProgress(b0, cur, mid, k, rounds, previous, s);
      assert NoneRunning(b0) ==> OneRunning(mid, k);
    }
    RecountClaim(options, world, b0, cur, mid, k, records, calls, Returned(Finalized(status, rounds, 0, "", records)), rounds);
  }

  /** How a run may end on a segment that was not completed. */
  ghost predicate EndsOn(segment: SegmentOutcome, ending: Ending, rounds: nat) {
    && !segment.Done?
    && (segment.GaveUp? ==> ending.Returned? && ending.result.status.SegmentFailed?)
    && (segment.Crashed? && ending.Returned? ==> ending.result.status.LoopError?)
    && (ending.Returned? ==>
          && !ending.result.ok && ending.result.processed == rounds
          && !ending.result.status.NoProgress? && !ending.result.status.IterationCapExceeded?)
  }

  /** A step without an id crashed: nothing is recorded for it. */
  lemma UnreportedGuarantee(options: Options, world: World, b0: seq<Step>, cur: seq<Step>, mid: seq<Step>, k: nat, rounds: nat,
                            previous: Option<Signature>, ending: Ending, trace: seq<Op>)
    requires UniqueIds(b0) ==> Drained(b0, cur, rounds, previous)
    requires JustClaimed(cur, mid, k) && SucceededCount(mid) == SucceededCount(cur) && SameIds(b0, cur)
    requires cur[k].stepId == "" && !Favourable(options, world, b0)
    requires ending.Returned? ==>
               && !ending.result.ok && ending.result.processed == rounds && ending.result.status.LoopError?
    ensures DrainGuarantee(options, world, b0, mid, ending, trace)
  {
    hide Remaining, SucceededCount, StepIndex, Favourable, UniqueIds;
    assert b0[k].stepId == "";
    if UniqueIds(b0) && NoneRunning(b0) {
      assert OneRunning(mid, k);
      assert LeftToTheLease(mid);
    }
  }

  lemma EndsOnMeans(segment: SegmentOutcome, ending: Ending, rounds: nat)
    requires EndsOn(segment, ending, rounds)
    ensures !segment.Done?
  {
  }

  /** The steps after a failed or crashed segment meet the guarantee. */
  lemma SegmentEndGuarantee(options: Options, world: World, b0: seq<Step>, cur: seq<Step>, mid: seq<Step>, k: nat, rounds: nat,
                            previous: Option<Signature>, segment: SegmentOutcome, ending: Ending, stamp: real, trace: seq<Op>, w: string)
    requires UniqueIds(b0) ==> Drained(b0, cur, rounds, previous)
    requires JustClaimed(cur, mid, k) && SucceededCount(mid) == SucceededCount(cur) && SameIds(b0, cur)
    requires EndsOn(segment, ending, rounds) && !Favourable(options, world, b0)
    ensures var report := SegmentReport(cur[k].stepId, segment);
            && (report.None? ==> DrainGuarantee(options, world, b0, mid, ending, trace))
            && (report.Some? ==> DrainGuarantee(options, world, b0, AfterRecord(mid, report.value, stamp), ending,
                                               trace + [Record(w, report.value, stamp)]))
  {
    hide Remaining, SucceededCount, AfterRecord, StepIndex, Favourable, UniqueIds;
    var report := SegmentReport(cur[k].stepId, segment);
    if report.None? {
      UnreportedGuarantee(options, world, b0, cur, mid, k, rounds, previous, ending, trace);
    } else if UniqueIds(b0) {
      RoundEnds(b0, cur, mid, k, rounds, previous, report.value, stamp);
      var after := AfterRecord(mid, report.value, stamp);
      assert segment.Crashed? ==> LastParked(trace + [Record(w, report.value, stamp)], after, k);
    }
  }

  /** The steps once a segment's report, if any, is stored. */
  function AfterSegment(mid: seq<Step>, stepId: string, segment: SegmentOutcome, stamp: real): seq<Step> {
    match SegmentReport(stepId, segment)
    case None => mid
    case Some(report) => AfterRecord(mid, report, stamp)
  }

  /** The stored bundles after a claim. */
  lemma ClaimStored(options: Options, world: World, st0: Bundles, st1: Bundles, st2: Bundles, trace: seq<Op>, rounds: nat,
                    records: seq<StepRecord>, previous: Option<Signature>, calls: nat, k: nat, now: real, stamp: real)
    requires options.workId in st0
    requires ClaimState(options, world, st0, st1, st2, trace, rounds, records, previous, calls, k, now, stamp)
    ensures var w := options.workId;
            && w in st1 && w in st2 && st2 == st0[w := st2[w]] && st2 == Run(st0, trace + [Claim(w, now, stamp)])
            && SameIds(st0[w].steps, st1[w].steps)
            && JustClaimed(st1[w].steps, st2[w].steps, k)
            && (UniqueIds(st0[w].steps) ==> UniqueIds(st2[w].steps))
            && Recounted(world, st0[w].steps, st1[w].steps, records, calls)
            && SucceededCount(st2[w].steps) == SucceededCount(st1[w].steps)
            && (!st1[w].steps[k].status.Unknown? ==> Remaining(st2[w].steps) == Remaining(st1[w].steps))
  {
    hide Remaining, SucceededCount, ClaimIndex, NextAnswer, Drained, UniqueIds, Within, SameIds, Recounted;
    var w := options.workId;
    RunSnoc(st0, trace, Claim(w, now, stamp));
    ClaimEffect(st1[w].steps, now, stamp);
    ClaimKeepsIds(st1[w].steps, st2[w].steps, k);
    UniqueFollowsIds(st0[w].steps, st1[w].steps);
    UniqueFollowsIds(st1[w].steps, st2[w].steps);
  }

  /** The stored bundles after a segment's report. */
  lemma SegmentStored(st0: Bundles, st2: Bundles, trace: seq<Op>, w: string, stepId: string, segment: SegmentOutcome, stamp: real)
    requires w in st0 && w in st2 && st2 == st0[w := st2[w]] && st2 == Run(st0, trace)
    ensures var ops := SegmentOps(w, stepId, segment, stamp); var st3 := Run(st2, ops);
            && w in st3 && st3 == st0[w := st3[w]] && st3 == Run(st0, trace + ops)
            && st3[w].steps == AfterSegment(st2[w].steps, stepId, segment, stamp)
  {
    hide SegmentReport, AfterRecord, Run;
    match SegmentReport(stepId, segment)
    case None =>
      assert trace + [] == trace;
      RunOne(st2, Briefed(w));
    case Some(report) =>
      var op := Record(w, report, stamp);
      RunSnoc(st0, trace, op);
      RunOne(st2, op);
  }

  /** A segment that failed or crashed ends the run. */
  lemma StopAfterSegment(options: Options, world: World, st0: Bundles, st1: Bundles, st2: Bundles, st3: Bundles, trace: seq<Op>,
                         rounds: nat, records: seq<StepRecord>, previous: Option<Signature>, calls0: nat, calls: nat,
                         k: nat, now: real, stamp: real, segment: SegmentOutcome, stamp': real, ending: Ending)
    requires options.workId in st0
    requires ClaimState(options, world, st0, st1, st2, trace, rounds, records, previous, calls0, k, now, stamp)
    requires rounds < options.maxIterations && SegmentTold(options, world, segment, calls0, calls)
    requires st3 == Run(st2, SegmentOps(options.workId, st1[options.workId].steps[k].stepId, segment, stamp'))
    requires ending == SegmentEnding(segment, rounds, records, st1[options.workId].steps[k]) && CountRecords(records, true) == rounds
    requires EndsOn(segment, ending, rounds) && !Favourable(options, world, st0[options.workId].steps)
    ensures Guaranteed(options, world, st0, st3, ending, calls,
                       trace + [Claim(options.workId, now, stamp)]
                       + SegmentOps(options.workId, st1[options.workId].steps[k].stepId, segment, stamp'))
  {
    hide Remaining, SucceededCount, AfterClaim, StepIndex, Within, CallBound, ClaimIndex, NextAnswer, AfterRecord,
         DrainGuarantee, ResultsTold, Drained, Favourable, UniqueIds, EndsOn, SegmentReport, SameIds, Run, JustClaimed,
         Recounted, CountRecords;
    var w := options.workId;
    var cur, mid := st1[w].steps, st2[w].steps;
    var trace' := trace + [Claim(w, now, stamp)];
    ClaimStored(options, world, st0, st1, st2, trace, rounds, records, previous, calls0, k, now, stamp);
    SegmentStored(st0, st2, trace', w, cur[k].stepId, segment, stamp');
    EndCalls(options, rounds, calls0, calls);
    EndsOnMeans(segment, ending, rounds);
    SegmentEndGuarantee(options, world, st0[w].steps, cur, mid, k, rounds, previous, segment, ending, stamp', trace', w);
    RecountEnd(options, world, st0[w].steps, cur, mid, k, records, calls0, calls, segment, stamp', rounds);
    if SegmentReport(cur[k].stepId, segment).None? {
      assert trace' + [] == trace';
    }
  }

  /** A completed segment starts the next round. */
  lemma NextRound(options: Options, world: World, st0: Bundles, st1: Bundles, st2: Bundles, st3: Bundles, trace: seq<Op>,
                  rounds: nat, records: seq<StepRecord>, previous: Option<Signature>, calls0: nat, calls: nat,
                  k: nat, now: real, stamp: real, segment: SegmentOutcome, stamp': real, s: Signature, r: StepRecord)
    requires options.workId in st0
    requires ClaimState(options, world, st0, st1, st2, trace, rounds, records, previous, calls0, k, now, stamp)
    requires rounds < options.maxIterations && SegmentTold(options, world, segment, calls0, calls)
    requires segment.Done? && s.stepId == st1[options.workId].steps[k].stepId
    requires r == StepRecord(s.stepId, st1[options.workId].steps[k].segmentId, true, segment.attempts)
    requires st3 == Run(st2, SegmentOps(options.workId, s.stepId, segment, stamp'))
    ensures LoopState(options, world, st0, st3,
                      trace + [Claim(options.workId, now, stamp)] + SegmentOps(options.workId, s.stepId, segment, stamp'),
                      rounds + 1, records + [r], Some(s), calls)
  {
    hide Remaining, SucceededCount, AfterClaim, StepIndex, Within, ClaimIndex, NextAnswer, AfterRecord, Drained, UniqueIds,
         Run, JustClaimed, SegmentOps, Recounted;
    var w := options.workId;
    var b0, cur, mid := st0[w].steps, st1[w].steps, st2[w].steps;
    ClaimStored(options, world, st0, st1, st2, trace, rounds, records, previous, calls0, k, now, stamp);
    SegmentStored(st0, st2, trace + [Claim(w, now, stamp)], w, s.stepId, segment, stamp');
    OneMoreRound(calls0, rounds, Max(0, options.maxSegmentRetries + 1), calls);
    var report := SegmentReport(s.stepId, segment).value;
    ClaimKeepsIds(cur, mid, k);
    RecordKeepsIds(mid, report, stamp');
    RecountRound(options, world, b0, cur, mid, k, records, calls0, calls, segment, stamp', r);
    if UniqueIds(b0) {
      RoundCompletes(b0, cur, mid, k, rounds, previous, s, report, stamp');
    }
    assert (records + [r])[..|records|] == records;
  }

  lemma ClaimKeepsIds(cur: seq<Step>, mid: seq<Step>, k: nat)
    requires JustClaimed(cur, mid, k)
    ensures SameIds(cur, mid)
  {
  }

  lemma RecordKeepsIds(steps: seq<Step>, report: Report, stamp: real)
    ensures SameIds(steps, AfterRecord(steps, report, stamp))
  {
  }

  /** Leaving the loop: no step was claimable, or the deadline has passed. */
  lemma StopAtBriefing(options: Options, world: World, st0: Bundles, st: Bundles, trace: seq<Op>, rounds: nat,
                       records: seq<StepRecord>, previous: Option<Signature>, calls0: nat, calls: nat, ending: Ending)
    requires options.workId in st0
    requires LoopState(options, world, st0, st, trace, rounds, records, previous, calls0)
    requires calls == calls0 || calls == calls0 + 1
    requires calls > calls0 ==> AllSucceeded(st[options.workId].steps)
    requires ending.Propagated? ==> AllSucceeded(st[options.workId].steps)
    requires LastCallTold(world, ending, calls) && CountersTold(ending, calls)
    requires ending.Returned? ==> ending.result.records == records && !ending.result.status.SegmentFailed?
    requires ending.Returned? ==>
               && ending.result.processed == rounds
               && (ending.result.ok ==> AllSucceeded(st[options.workId].steps))
               && (ending.result.status.LoopError? ==> AllSucceeded(st[options.workId].steps))
               && !ending.result.status.NoProgress? && !ending.result.status.IterationCapExceeded?
    requires StatusTold(options, st[options.workId].steps, ending)
    requires Favourable(options, world, st0[options.workId].steps) ==> ending.Returned? && ending.result.ok
    ensures Guaranteed(options, world, st0, st, ending, calls, trace)
  {
    hide Remaining, SucceededCount, AllSucceeded, Within, CallBound, Favourable, UniqueIds, NonEmptyIds, Recounted, ResultsTold,
         StatusTold, LastCallTold, CountersTold;
    RecountBriefing(options, world, st0[options.workId].steps, st[options.workId].steps, records, calls0, calls, ending);
    RoundsBound(calls0, rounds, Max(0, options.maxSegmentRetries + 1), options);
  }

  /** What one pass of the outer loop decides. */
  datatype Verdict = Continue | Leave | Stop(ending: Ending)

  lemma LeavingIsDone(options: Options, world: World, st0: Bundles, st: Bundles, trace: seq<Op>, rounds: nat,
                      records: seq<StepRecord>, previous: Option<Signature>, calls: nat, now: real)
    requires options.workId in st0
    requires LoopState(options, world, st0, st, trace, rounds, records, previous, calls)
    requires Favourable(options, world, st0[options.workId].steps)
    requires ClaimIndex(st[options.workId].steps, now, 0) == |st[options.workId].steps|
    ensures AllSucceeded(st[options.workId].steps)
  {
    NothingLeft(st[options.workId].steps, now);
  }

  /** A late clock, or an incomplete segment, means that the world was not favourable. */
  lemma NotFavourable(options: Options, world: World, steps: seq<Step>, deadline: real, tick: nat)
    requires deadline == world.monotonic(0) + options.timeoutSeconds && world.monotonic(tick) >= deadline
    ensures !Favourable(options, world, steps)
  {
  }

  lemma FavourableCompletes(options: Options, world: World, steps: seq<Step>, deadline: real)
    requires deadline == world.monotonic(0) + options.timeoutSeconds && Favourable(options, world, steps)
    ensures AlwaysCompletes(world, deadline) && options.maxSegmentRetries >= 0
  {
  }

  lemma StateFacts(options: Options, world: World, st0: Bundles, st: Bundles, trace: seq<Op>, rounds: nat,
                   records: seq<StepRecord>, previous: Option<Signature>, calls: nat)
    requires options.workId in st0
    requires LoopState(options, world, st0, st, trace, rounds, records, previous, calls)
    ensures options.workId in st && CountRecords(records, true) == rounds && rounds <= Max(0, options.maxIterations)
    ensures CountRecords(records, false) == 0 && Attempts(records) == calls
    ensures UniqueIds(st0[options.workId].steps) ==> Drained(st0[options.workId].steps, st[options.workId].steps, rounds, previous)
  {
  }

  lemma NoneAvailableIff(steps: seq<Step>, now: real)
    ensures ClaimIndex(steps, now, 0) == |steps| <==> forall i :: 0 <= i < |steps| ==> !Available(steps[i], now)
  {
    assert forall i :: 0 <= i < |steps| ==> (Available(steps[i], now) <==> Claimable(steps[i], now));
  }

  lemma ClaimReply(steps: seq<Step>, now: real, stamp: real)
    ensures var k := ClaimIndex(steps, now, 0); var r := NextAnswer(steps, now, stamp);
            && (r.step.Some? <==> k < |steps|)
            && (r.step.Some? ==> r.step.value.stepId == steps[k].stepId && r.step.value.segmentId == steps[k].segmentId)
  {
  }

  /**
   One pass: claim, check the cap and the signature, work, record. A pass either ends the run or completes its
   segment, so `iterations`, the passes completed so far, is also the number of segments processed.
   */
  method Round(store: Store, options: Options, world: World, deadline: real, ghost st0: Bundles, ghost trace0: seq<Op>,
               iterations: nat, records0: seq<StepRecord>, previous0: Option<Signature>, calls0: nat, ticks0: nat, walls: nat)
    returns (verdict: Verdict, records: seq<StepRecord>, previous: Option<Signature>, calls: nat, ticks: nat, ghost trace: seq<Op>)
    requires deadline == world.monotonic(0) + options.timeoutSeconds && options.workId in st0
    requires LoopState(options, world, st0, store.bundles, trace0, iterations, records0, previous0, calls0)
    requires options.workId in store.bundles
    modifies store
    ensures verdict.Continue? ==>
              && iterations < options.maxIterations
              && LoopState(options, world, st0, store.bundles, trace, iterations + 1, records, previous, calls)
    ensures verdict.Leave? ==>
              && store.bundles == old(store.bundles) && calls == calls0 && records == records0 && previous == previous0
              && (Favourable(options, world, st0[options.workId].steps) ==> AllSucceeded(store.bundles[options.workId].steps))
    ensures verdict.Stop? ==> Guaranteed(options, world, st0, store.bundles, verdict.ending, calls, trace)
    ensures verdict.Leave? <==>
              world.monotonic(ticks0) >= deadline
              || forall i :: 0 <= i < |old(store.bundles)[options.workId].steps| ==>
                   !Available(old(store.bundles)[options.workId].steps[i], world.wall(walls))
    ensures CallsInTime(world, deadline, calls0, calls, ticks0 + 1)
  {
    hide LoopState, Guaranteed, Favourable, CountRecords, NextAnswer, AfterClaim, ClaimIndex, SegmentOps,
         Run, Remaining, AllSucceeded, Drained, UniqueIds;
    var w := options.workId;
    ghost var st1 := store.bundles;
    ghost var b0 := st0[w].steps;
    StateFacts(options, world, st0, st1, trace0, iterations, records0, previous0, calls0);
    records, previous, calls, ticks, trace := records0, previous0, calls0, ticks0 + 1, trace0;
    if world.monotonic(ticks0) >= deadline {
      NotFavourable(options, world, b0, deadline, ticks0);
      return Leave, records, previous, calls, ticks, trace;
    }
    var now, stamp := world.wall(walls), world.wall(walls + 1);
    ghost var k := ClaimIndex(st1[w].steps, now, 0);
    var reply := store.Next(w, now, stamp);
    ClaimReply(st1[w].steps, now, stamp);
    NoneAvailableIff(st1[w].steps, now);
    if reply.value.step.None? {
      ClaimedNothing(st1, w, now, stamp);
      if Favourable(options, world, b0) {
        LeavingIsDone(options, world, st0, st1, trace, iterations, records, previous, calls, now);
      }
      return Leave, records, previous, calls, ticks, trace;
    }
    var step := reply.value.step.value;
    var s := Signature(reply.value.remaining, step.stepId, step.segmentId, step.checksum);
    ghost var st2 := store.bundles;
    trace := trace0 + [Claim(w, now, stamp)];
    if iterations >= options.maxIterations {
      StopAfterClaim(options, world, st0, st1, st2, trace0, iterations, records, previous, calls, k, now, stamp, IterationCapExceeded, s);
      return Stop(Returned(Finalized(IterationCapExceeded, iterations, 0, "", records))), records, previous, calls, ticks, trace;
    }
    if previous == Some(s) {
      StopAfterClaim(options, world, st0, st1, st2, trace0, iterations, records, previous, calls, k, now, stamp, NoProgress, s);
      return Stop(Returned(Finalized(NoProgress, iterations, 0, "", records))), records, previous, calls, ticks, trace;
    }
    previous := Some(s);
    var segment;
    var stamp' := world.wall(walls + 2);
    segment, calls, ticks := WorkOn(store, options, world, deadline, step.stepId, calls0, ticks, stamp');
    trace := trace + SegmentOps(w, step.stepId, segment, stamp');
    if segment.Done? {
      var r := StepRecord(step.stepId, step.segmentId, true, segment.attempts);
      NextRound(options, world, st0, st1, st2, store.bundles, trace0, iterations, records0, previous0, calls0, calls, k, now, stamp, segment, stamp', s, r);
      records := records0 + [r];
      return Continue, records, previous, calls, ticks, trace;
    }
    var ending;
    if segment.GaveUp? {
      records := records0 + [StepRecord(step.stepId, step.segmentId, false, segment.attempts)];
      ending := Returned(Finalized(SegmentFailed, iterations, 1, "", records));
    } else if segment.isException {
      ending := Returned(Broken(LoopError, records));
    } else {
      ending := Propagated;
    }
    if Favourable(options, world, b0) {
      FavourableCompletes(options, world, b0, deadline);
    }
    StopAfterSegment(options, world, st0, st1, st2, store.bundles, trace0, iterations, records0, previous0, calls0, calls,
                     k, now, stamp, segment, stamp', ending);
    return Stop(ending), records, previous, calls, ticks, trace;
  }

  lemma ClaimedNothing(st: Bundles, w: string, now: real, stamp: real)
    requires w in st && ClaimIndex(st[w].steps, now, 0) == |st[w].steps|
    ensures st[w := st[w].(steps := AfterClaim(st[w].steps, now, stamp))] == st
  {
  }

  /** `run_loop_auto` from the first claim on. */
  method Drain(store: Store, options: Options, world: World, deadline: real)
    returns (ending: Ending, calls: nat, ghost trace: seq<Op>)
    requires options.preflightOk && options.workId in store.bundles
    requires deadline == world.monotonic(0) + options.timeoutSeconds
    modifies store
    ensures Guaranteed(options, world, old(store.bundles), store.bundles, ending, calls, trace)
    ensures world.monotonic(1) >= deadline ==> trace == []
  {
    hide LoopState, Guaranteed, Favourable, CountRecords, AllSucceeded;
    ghost var st0 := store.bundles;
    var w := options.workId;
    var ticks, iterations := 1, 0;
    var records: seq<StepRecord> := [];
    var previous: Option<Signature> := None;
    calls, trace := 0, [];
    StateAtStart(options, world, st0);
    while true
      invariant LoopState(options, world, st0, store.bundles, trace, iterations, records, previous, calls)
      invariant w in store.bundles
      invariant iterations > 0 ==> world.monotonic(1) < deadline
      invariant iterations == 0 ==> ticks == 1 && trace == []
      decreases Max(0, options.maxIterations) - iterations
    {
      ghost var before := trace;
      var verdict;
      verdict, records, previous, calls, ticks, trace :=
        Round(store, options, world, deadline, st0, trace, iterations, records, previous, calls, ticks, 3 * iterations);
      if verdict.Stop? {
        return verdict.ending, calls, trace;
      }
      if verdict.Leave? {
        ending, calls := Conclude(store, options, world, st0, before, iterations, records, previous, calls);
        return ending, calls, before;
      }
      iterations := iterations + 1;
      StateFacts(options, world, st0, store.bundles, trace, iterations, records, previous, calls);
    }
  }

  lemma StateAtStart(options: Options, world: World, st0: Bundles)
    requires options.workId in st0
    ensures LoopState(options, world, st0, st0, [], 0, [], None, 0)
  {
    DrainStart(st0[options.workId].steps);
    RecountStart(world, st0[options.workId].steps);
    assert st0 == st0[options.workId := st0[options.workId]];
  }

  /** The briefing after the loop. */
  method Conclude(store: Store, options: Options, world: World, ghost st0: Bundles, ghost trace: seq<Op>, iterations: nat,
                  records: seq<StepRecord>, ghost previous: Option<Signature>, calls0: nat)
    returns (ending: Ending, calls: nat)
    requires options.workId in st0 && options.workId in store.bundles
    requires LoopState(options, world, st0, store.bundles, trace, iterations, records, previous, calls0)
    requires Favourable(options, world, st0[options.workId].steps) ==> AllSucceeded(store.bundles[options.workId].steps)
    ensures Guaranteed(options, world, st0, store.bundles, ending, calls, trace)
  {
    hide LoopState, Guaranteed, CountRecords, Attempts, AllSucceeded, Remaining, UniqueIds, Fresh, Missing, Blocks;
    calls := calls0;
    StateFacts(options, world, st0, store.bundles, trace, iterations, records, previous, calls0);
    var brief := store.BuildBriefing(options.workId);
    if brief.value.NotReady? {
      ending := Returned(Finalized(BriefingNotReady, iterations, 0, "", records));
    } else {
      var outcome := world.runner(calls0);
      calls := calls0 + 1;
      match outcome
      case Raised(isException, _) =>
        ending := if isException then Returned(Broken(LoopError, records)) else Propagated;
      case Bad(_) =>
        ending := Returned(Finalized(BriefingFailed, iterations, 0, "", records));
      case Output(text, _, taskComplete) =>
        ending := Returned(Finalized(if taskComplete then Completed else CompletedUnmarked, iterations, 0, text, records));
    }
    StopAtBriefing(options, world, st0, store.bundles, trace, iterations, records, previous, calls0, calls, ending);
  }

  /** `run_loop_auto`; `trace` shows that the store was only changed through the protocol's operations. */
  method RunLoopAuto(store: Store, options: Options, world: World)
    returns (ending: Ending, calls: nat, ghost trace: seq<Op>)
    modifies store
    ensures store.bundles == Run(old(store.bundles), trace)
    ensures calls <= CallBound(options)
    ensures world.monotonic(1) >= world.monotonic(0) + options.timeoutSeconds ==> trace == []
    ensures !options.preflightOk ==>
              store.bundles == old(store.bundles) && calls == 0 && ending == Returned(LoopResult(false, LoopStatus.PreflightFailed, 0, 0, "", []))
    ensures options.workId !in old(store.bundles) ==>
              && store.bundles == old(store.bundles)
              && ending == Returned(Broken(if options.preflightOk then DispatchError else PreflightFailed, []))
    ensures options.workId in old(store.bundles) ==>
              && options.workId in store.bundles
              && store.bundles == old(store.bundles)[options.workId := store.bundles[options.workId]]
              && LoopGuarantee(options, world, old(store.bundles)[options.workId].steps, store.bundles[options.workId].steps, ending, calls, trace)
  {
    calls, trace := 0, [];
    if !options.preflightOk {
      UntouchedGuarantee(options, world, store.bundles, PreflightFailed);
      return Returned(Broken(PreflightFailed, [])), calls, trace;
    }
    // Without a bundle the first claim, or the briefing when the deadline is past already, fails the same way.
    if options.workId !in store.bundles {
      return Returned(Broken(DispatchError, [])), calls, trace;
    }
    var deadline := world.monotonic(0) + options.timeoutSeconds;
    ending, calls, trace := Drain(store, options, world, deadline);
  }

  lemma UntouchedGuarantee(options: Options, world: World, st: Bundles, status: LoopStatus)
    requires status.PreflightFailed? && !options.preflightOk
    ensures options.workId in st ==>
              LoopGuarantee(options, world, st[options.workId].steps, st[options.workId].steps, Returned(Broken(status, [])), 0, [])
    ensures options.workId in st ==> st[options.workId := st[options.workId]] == st
  {
  }
}
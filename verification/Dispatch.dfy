/**
 The dispatch bundle and what the four store operations make of it: persist, claim the next step, record a
 result, brief. Each operation is one locked section; `DispatchStore` runs them against the stored bundles.
 */
module Dispatch {
  import opened Wrappers
  import Owners

  const RUNNING_LEASE_SECONDS := 600.0

  /** The five states of a step; a stored status may be any other text. */
  datatype Status = Queued | Running | RetryWait | Succeeded | Failed | Unknown(text: string)
  {
    predicate Terminal() {
      Succeeded? || Failed?
    }

    predicate Open() {
      Queued? || RetryWait? || Running?
    }
  }

  datatype Step = Step(
    stepId: string,
    segmentId: string,
    checksum: string,
    content: string,
    status: Status,
    result: string,
    error: string,
    updatedAt: Option<real>)

  /** The parsed `owner` field: missing, not an object of exactly three strings, or those strings. */
  datatype OwnerField = NoOwner | Malformed | Given(owner: Owners.Owner)

  datatype Version = MissingVersion | Version1 | Version2 | OtherVersion

  datatype Bundle = Bundle(version: Version, owner: OwnerField, steps: seq<Step>)

  datatype StoreError = BundleNotFound | StepNotFound | InvalidOwner

  // ---------------------------------------------------------------- owner and identity

  /** `_owner_from_bundle`: `None` for an ownerless bundle of schema version 1. */
  function OwnerOf(b: Bundle): (r: Result<Option<Owners.Owner>, StoreError>)
    ensures r == Ok(None) <==> (b.version.MissingVersion? || b.version.Version1?) && b.owner.NoOwner?
    ensures r.Ok? && r.value.Some? <==>
              b.version.Version2? && b.owner.Given? && b.owner.owner.cwd != "" && b.owner.owner.scope != ""
    ensures r.Ok? && r.value.Some? ==> r.value.value == b.owner.owner
  {
    if b.version.OtherVersion? then Err(InvalidOwner)
    else if b.owner.NoOwner? then if b.version.Version2? then Err(InvalidOwner) else Ok(None)
    else if !b.version.Version2? || b.owner.Malformed? then Err(InvalidOwner)
    else if b.owner.owner.cwd == "" || b.owner.owner.scope == "" then Err(InvalidOwner)
    else Ok(Some(b.owner.owner))
  }

  function Identity(b: Bundle): (r: seq<(string, string)>)
    ensures |r| == |b.steps|
  {
    seq(|b.steps|, i requires 0 <= i < |b.steps| => (b.steps[i].stepId, b.steps[i].checksum))
  }

  datatype Decision = Written | Idempotent | OwnerConflict | Conflict

  /** `_persist_under_lock`: nothing is ever written over an existing bundle. */
  function PersistDecision(stored: Option<Bundle>, b: Bundle): Result<Decision, StoreError> {
    match OwnerOf(b)
    case Err(e) => Err(e)
    case Ok(newOwner) =>
      if stored.None? then Ok(Written)
      else
        match OwnerOf(stored.value)
        case Err(e) => Err(e)
        case Ok(oldOwner) =>
          if oldOwner.None? || newOwner.None? || oldOwner != newOwner then Ok(OwnerConflict)
          else if Identity(stored.value) == Identity(b) then Ok(Idempotent)
          else Ok(Conflict)
  }

  // ---------------------------------------------------------------- claiming

  predicate StaleRunning(s: Step, now: real) {
    s.status.Running? && now - (if s.updatedAt.Some? then s.updatedAt.value else 0.0) > RUNNING_LEASE_SECONDS
  }

  predicate Claimable(s: Step, now: real) {
    s.status.Queued? || s.status.RetryWait? || StaleRunning(s, now)
  }

  /** The first claimable step from `i` on, or the number of steps. */
  function ClaimIndex(steps: seq<Step>, now: real, i: nat): (k: nat)
    requires i <= |steps|
    ensures i <= k <= |steps|
    ensures k < |steps| ==> Claimable(steps[k], now)
    ensures forall j :: i <= j < k ==> !Claimable(steps[j], now)
    decreases |steps| - i
  {
    if i == |steps| || Claimable(steps[i], now) then i else ClaimIndex(steps, now, i + 1)
  }

  function Remaining(steps: seq<Step>): (n: nat)
    ensures n <= |steps|
  {
    if |steps| == 0 then 0
    else Remaining(steps[..|steps| - 1]) + if steps[|steps| - 1].status.Open() then 1 else 0
  }

  function SucceededCount(steps: seq<Step>): (n: nat)
    ensures n <= |steps|
  {
    if |steps| == 0 then 0
    else SucceededCount(steps[..|steps| - 1]) + if steps[|steps| - 1].status.Succeeded? then 1 else 0
  }

  predicate AllSucceeded(steps: seq<Step>) {
    forall i :: 0 <= i < |steps| ==> steps[i].status.Succeeded?
  }

  function Claimed(s: Step, stamp: real): Step {
    s.(status := Running, updatedAt := Some(stamp))
  }

  function AfterClaim(steps: seq<Step>, now: real, stamp: real): (r: seq<Step>)
    ensures |r| == |steps|
  {
    var k := ClaimIndex(steps, now, 0);
    if k < |steps| then steps[k := Claimed(steps[k], stamp)] else steps
  }

  /** What a worker is handed: the step without its progress fields. */
  datatype PublicStep = PublicStep(stepId: string, segmentId: string, checksum: string, content: string)

  function Public(s: Step): PublicStep {
    PublicStep(s.stepId, s.segmentId, s.checksum, s.content)
  }

  datatype NextReply = NextReply(step: Option<PublicStep>, remaining: nat, synthesisReady: bool)

  function NextAnswer(steps: seq<Step>, now: real, stamp: real): NextReply {
    var k := ClaimIndex(steps, now, 0);
    if k < |steps| then NextReply(Some(Public(steps[k])), Remaining(AfterClaim(steps, now, stamp)), false)
    else NextReply(None, Remaining(steps), AllSucceeded(steps))
  }

  // ---------------------------------------------------------------- recording

  datatype Report = Report(stepId: string, result: string, error: string, succeeded: bool, retryable: bool)
  {
    function Status(): Status {
      if succeeded then Succeeded else if retryable then RetryWait else Failed
    }
  }

  /** The first step with this id from `i` on, or the number of steps. */
  function StepIndex(steps: seq<Step>, stepId: string, i: nat): (k: nat)
    requires i <= |steps|
    ensures i <= k <= |steps|
    ensures k < |steps| ==> steps[k].stepId == stepId
    ensures forall j :: i <= j < k ==> steps[j].stepId != stepId
    decreases |steps| - i
  {
    if i == |steps| || steps[i].stepId == stepId then i else StepIndex(steps, stepId, i + 1)
  }

  function Recorded(s: Step, r: Report, stamp: real): Step {
    s.(status := r.Status(), result := r.result, error := r.error, updatedAt := Some(stamp))
  }

  /** The step a report actually changes: the first with its id, unless that one is terminal already. */
  predicate TakesEffect(steps: seq<Step>, r: Report) {
    var k := StepIndex(steps, r.stepId, 0);
    k < |steps| && !steps[k].status.Terminal()
  }

  function AfterRecord(steps: seq<Step>, r: Report, stamp: real): (s: seq<Step>)
    ensures |s| == |steps|
  {
    var k := StepIndex(steps, r.stepId, 0);
    if TakesEffect(steps, r) then steps[k := Recorded(steps[k], r, stamp)] else steps
  }

  datatype RecordReply =
    | Stored(status: Status, idempotent: bool, remaining: nat, synthesisReady: bool)
    | AlreadyRecorded(status: Status, result: string, error: string)

  function RecordAnswer(steps: seq<Step>, r: Report, stamp: real): Result<RecordReply, StoreError> {
    var k := StepIndex(steps, r.stepId, 0);
    if k == |steps| then Err(StepNotFound)
    else if !steps[k].status.Terminal() then
      var after := AfterRecord(steps, r, stamp);
      Ok(Stored(r.Status(), false, Remaining(after), AllSucceeded(after)))
    else if steps[k].status == r.Status() && steps[k].result == r.result && steps[k].error == r.error then
      Ok(Stored(steps[k].status, true, Remaining(steps), AllSucceeded(steps)))
    else
      Ok(AlreadyRecorded(steps[k].status, steps[k].result, steps[k].error))
  }

  // ---------------------------------------------------------------- briefing

  /** One block of the final prompt. */
  datatype Block = Block(stepId: string, segmentId: string, checksum: string, result: string)

  function BlockOf(s: Step): Block {
    Block(s.stepId, s.segmentId, s.checksum, s.result)
  }

  function Blocks(steps: seq<Step>): (r: seq<Block>)
    ensures |r| == |steps|
  {
    seq(|steps|, i requires 0 <= i < |steps| => BlockOf(steps[i]))
  }

  function Missing(steps: seq<Step>): seq<string> {
    if |steps| == 0 then []
    else
      var rest := Missing(steps[..|steps| - 1]);
      var last := steps[|steps| - 1];
      if last.status.Succeeded? then rest else rest + [last.stepId]
  }

  datatype Briefing = NotReady(missing: seq<string>) | Ready(blocks: seq<Block>)

  function Brief(steps: seq<Step>): (r: Briefing)
    ensures r.Ready? <==> AllSucceeded(steps)
  {
    MissingIff(steps);
    if Missing(steps) != [] then NotReady(Missing(steps)) else Ready(Blocks(steps))
  }

  lemma {:induction false} MissingIff(steps: seq<Step>)
    ensures Missing(steps) == [] <==> AllSucceeded(steps)
  {
    if |steps| > 0 {
      var rest := steps[..|steps| - 1];
      MissingIff(rest);
      assert AllSucceeded(steps) <==> AllSucceeded(rest) && steps[|rest|].status.Succeeded?;
    }
  }

  // ---------------------------------------------------------------- counting under update

  lemma {:induction false} CountsUpdate(steps: seq<Step>, k: nat, s: Step)
    requires k < |steps|
    ensures Remaining(steps[k := s]) ==
              Remaining(steps) - (if steps[k].status.Open() then 1 else 0) + (if s.status.Open() then 1 else 0)
    ensures SucceededCount(steps[k := s]) ==
              SucceededCount(steps) - (if steps[k].status.Succeeded? then 1 else 0) + (if s.status.Succeeded? then 1 else 0)
  {
    var last := |steps| - 1;
    if k == last {
      assert steps[k := s][..last] == steps[..last];
    } else {
      assert steps[k := s][..last] == steps[..last][k := s];
      CountsUpdate(steps[..last], k, s);
    }
  }

  lemma {:induction false} SomeOpen(steps: seq<Step>, k: nat)
    requires k < |steps| && steps[k].status.Open()
    ensures Remaining(steps) >= 1
  {
    if k < |steps| - 1 {
      SomeOpen(steps[..|steps| - 1], k);
    }
  }

  lemma {:induction false} SucceededAll(steps: seq<Step>)
    ensures SucceededCount(steps) == |steps| <==> AllSucceeded(steps)
  {
    if |steps| > 0 {
      var rest := steps[..|steps| - 1];
      SucceededAll(rest);
      assert AllSucceeded(steps) <==> AllSucceeded(rest) && steps[|rest|].status.Succeeded?;
    }
  }

  // ---------------------------------------------------------------- what the replies say

  /** The positions, in stored order, of the steps that have not succeeded. */
  ghost predicate Unfinished(steps: seq<Step>, idx: seq<nat>) {
    && (forall a, b :: 0 <= a < b < |idx| ==> idx[a] < idx[b])
    && (forall a :: 0 <= a < |idx| ==> idx[a] < |steps| && !steps[idx[a]].status.Succeeded?)
    && (forall i: nat :: i < |steps| && !steps[i].status.Succeeded? ==> i in idx)
  }

  lemma {:induction false} MissingMeans(steps: seq<Step>) returns (idx: seq<nat>)
    ensures Unfinished(steps, idx) && |Missing(steps)| == |idx|
    ensures forall a :: 0 <= a < |idx| ==> idx[a] < |steps| && Missing(steps)[a] == steps[idx[a]].stepId
  {
    hide Unfinished;
    if |steps| == 0 {
      idx := [];
      NoneUnfinished(steps);
    } else {
      var last := |steps| - 1;
      var rest := MissingMeans(steps[..last]);
      idx := if steps[last].status.Succeeded? then rest else rest + [last];
      UnfinishedSnoc(steps, rest, idx);
    }
  }

  lemma NoneUnfinished(steps: seq<Step>)
    requires |steps| == 0
    ensures Unfinished(steps, [])
  {
  }

  lemma UnfinishedSnoc(steps: seq<Step>, rest: seq<nat>, idx: seq<nat>)
    requires |steps| > 0 && Unfinished(steps[..|steps| - 1], rest)
    requires idx == if steps[|steps| - 1].status.Succeeded? then rest else rest + [|steps| - 1]
    ensures Unfinished(steps, idx)
  {
    forall i: nat | i < |steps| && !steps[i].status.Succeeded?
      ensures i in idx
    {
      if i < |steps| - 1 {
        assert steps[..|steps| - 1][i] == steps[i];
      }
    }
  }

  /**
   A briefing that is ready holds one block a step, in stored order, with the step's own ids, checksum and recorded
   result; one that is not lists exactly the ids of the steps that have not succeeded, in stored order.
   */
  lemma BriefingShows(steps: seq<Step>) returns (idx: seq<nat>)
    ensures Unfinished(steps, idx)
    ensures match Brief(steps)
            case Ready(blocks) =>
              && idx == [] && |blocks| == |steps|
              && forall i :: 0 <= i < |steps| ==>
                   && blocks[i].stepId == steps[i].stepId && blocks[i].segmentId == steps[i].segmentId
                   && blocks[i].checksum == steps[i].checksum && blocks[i].result == steps[i].result
            case NotReady(missing) =>
              && idx != [] && |missing| == |idx|
              && forall a :: 0 <= a < |idx| ==> missing[a] == steps[idx[a]].stepId
  {
    idx := MissingMeans(steps);
    MissingIff(steps);
  }

  /** What is still open, counted. */
  lemma {:induction false} RemainingIsCount(steps: seq<Step>)
    ensures Remaining(steps)
         == |set i | 0 <= i < |steps| && (steps[i].status.Queued? || steps[i].status.Running? || steps[i].status.RetryWait?)|
  {
    if |steps| > 0 {
      var last := |steps| - 1;
      var rest := steps[..last];
      RemainingIsCount(rest);
      var a := set i | 0 <= i < |rest| && (rest[i].status.Queued? || rest[i].status.Running? || rest[i].status.RetryWait?);
      var b := set i | 0 <= i < |steps| && (steps[i].status.Queued? || steps[i].status.Running? || steps[i].status.RetryWait?);
      if steps[last].status.Open() {
        assert b == a + {last};
      } else {
        assert b == a;
      }
    }
  }

  /** The step is queued, parked, or running since more than 600 seconds (or without a time stamp). */
  predicate Available(s: Step, now: real) {
    || s.status.Queued? || s.status.RetryWait?
    || (s.status.Running? && now - (if s.updatedAt.Some? then s.updatedAt.value else 0.0) > 600.0)
  }

  /**
   A claim hands out the first available step with its ids, checksum and prompt text, and marks it running from now
   on; nothing else changes. Without one it is empty-handed and says whether every step has succeeded.
   */
  lemma ClaimHandsOut(steps: seq<Step>, now: real, stamp: real, k: nat)
    requires k <= |steps| && (k < |steps| ==> Available(steps[k], now))
    requires forall j :: 0 <= j < k ==> !Available(steps[j], now)
    ensures var r, after := NextAnswer(steps, now, stamp), AfterClaim(steps, now, stamp);
            && r.remaining == Remaining(after)
            && if k == |steps| then
                 r.step.None? && after == steps && (r.synthesisReady <==> forall i :: 0 <= i < |steps| ==> steps[i].status.Succeeded?)
               else
                 && r.step.Some? && !r.synthesisReady
                 && r.step.value.stepId == steps[k].stepId && r.step.value.segmentId == steps[k].segmentId
                 && r.step.value.checksum == steps[k].checksum && r.step.value.content == steps[k].content
                 && after == steps[k := after[k]] && after[k].status.Running? && after[k].updatedAt == Some(stamp)
                 && after[k].stepId == steps[k].stepId && after[k].segmentId == steps[k].segmentId
                 && after[k].checksum == steps[k].checksum && after[k].content == steps[k].content
                 && after[k].result == steps[k].result && after[k].error == steps[k].error
  {
    hide Remaining;
    assert forall j :: 0 <= j < |steps| ==> (Available(steps[j], now) <==> Claimable(steps[j], now));
    assert ClaimIndex(steps, now, 0) == k;
  }

  /**
   A report is stored on the first step with its id, unless that one is terminal: `succeeded`, or `retry_wait` when it
   may be retried, or `failed`, with its result, its error and the time; nothing else changes. The reply tells the
   status, what remains open and whether all steps have succeeded.
   */
  lemma RecordStores(steps: seq<Step>, r: Report, stamp: real, k: nat)
    requires k <= |steps| && (k < |steps| ==> steps[k].stepId == r.stepId)
    requires forall j :: 0 <= j < k ==> steps[j].stepId != r.stepId
    ensures var after, reply := AfterRecord(steps, r, stamp), RecordAnswer(steps, r, stamp);
            if k == |steps| then reply == Err(StepNotFound) && after == steps
            else if steps[k].status.Succeeded? || steps[k].status.Failed? then after == steps && reply.Ok?
            else
              && after == steps[k := after[k]]
              && (if r.succeeded then after[k].status.Succeeded? else if r.retryable then after[k].status.RetryWait? else after[k].status.Failed?)
              && after[k].result == r.result && after[k].error == r.error && after[k].updatedAt == Some(stamp)
              && after[k].stepId == steps[k].stepId && after[k].segmentId == steps[k].segmentId
              && after[k].checksum == steps[k].checksum && after[k].content == steps[k].content
              && reply == Ok(Stored(after[k].status, false, Remaining(after), forall i :: 0 <= i < |after| ==> after[i].status.Succeeded?))
  {
    hide Remaining;
    assert StepIndex(steps, r.stepId, 0) == k;
  }
}

/** The store: bundles by work id, changed in place one locked operation at a time. */
module DispatchStore {
  import opened Wrappers
  import opened Dispatch

  class Store {
    var bundles: map<string, Bundle>

    constructor ()
      ensures bundles == map[]
    {
      bundles := map[];
    }

    function Lookup(workId: string): Option<Bundle>
      reads this
    {
      if workId in bundles then Some(bundles[workId]) else None
    }

    /** `persist_dispatch_bundle`: an existing bundle, with all its progress, is never replaced. */
    method Persist(workId: string, bundle: Bundle) returns (r: Result<Decision, StoreError>)
      modifies this
      ensures r == PersistDecision(old(Lookup(workId)), bundle)
      ensures bundles == if r == Ok(Written) then old(bundles)[workId := bundle] else old(bundles)
    {
      var newOwner := OwnerOf(bundle);
      if newOwner.Err? {
        return Err(newOwner.error);
      }
      if workId in bundles {
        var existing := bundles[workId];
        var oldOwner := OwnerOf(existing);
        if oldOwner.Err? {
          return Err(oldOwner.error);
        }
        if oldOwner.value.None? || newOwner.value.None? || oldOwner.value != newOwner.value {
          return Ok(OwnerConflict);
        }
        return Ok(if Identity(existing) == Identity(bundle) then Idempotent else Conflict);
      }
      bundles := bundles[workId := bundle];
      return Ok(Written);
    }

    /**
     `next_dispatch_step`: `now` was read before the lock was waited for, `stamp` is read inside it. The first
     claimable step becomes running, and nothing else changes.
     */
    method Next(workId: string, now: real, stamp: real) returns (r: Result<NextReply, StoreError>)
      modifies this
      ensures r == if workId in old(bundles) then Ok(NextAnswer(old(bundles)[workId].steps, now, stamp)) else Err(BundleNotFound)
      ensures bundles ==
                if workId in old(bundles) then
                  old(bundles)[workId := old(bundles)[workId].(steps := AfterClaim(old(bundles)[workId].steps, now, stamp))]
                else old(bundles)
    {
      if workId !in bundles {
        return Err(BundleNotFound);
      }
      var bundle := bundles[workId];
      var steps := bundle.steps;
      var i := 0;
      while i < |steps|
        invariant 0 <= i <= |steps|
        invariant forall j :: 0 <= j < i ==> !Claimable(steps[j], now)
      {
        if steps[i].status.Queued? || steps[i].status.RetryWait? || StaleRunning(steps[i], now) {
          FirstClaim(steps, now, i);
          steps := steps[i := steps[i].(status := Running, updatedAt := Some(stamp))];
          bundles := bundles[workId := bundle.(steps := steps)];
          return Ok(NextReply(Some(Public(steps[i])), Remaining(steps), false));
        }
        i := i + 1;
      }
      assert bundles[workId := bundle.(steps := steps)] == bundles;
      return Ok(NextReply(None, Remaining(steps), AllSucceeded(steps)));
    }

    /** `record_dispatch_result`: terminal steps are only ever echoed, never changed. */
    method Record(workId: string, report: Report, stamp: real) returns (r: Result<RecordReply, StoreError>)
      modifies this
      ensures r == if workId in old(bundles) then RecordAnswer(old(bundles)[workId].steps, report, stamp) else Err(BundleNotFound)
      ensures bundles ==
                if workId in old(bundles) then
                  old(bundles)[workId := old(bundles)[workId].(steps := AfterRecord(old(bundles)[workId].steps, report, stamp))]
                else old(bundles)
    {
      if workId !in bundles {
        return Err(BundleNotFound);
      }
      var bundle := bundles[workId];
      var steps := bundle.steps;
      var i := 0;
      while i < |steps|
        invariant 0 <= i <= |steps|
        invariant forall j :: 0 <= j < i ==> steps[j].stepId != report.stepId
      {
        if steps[i].stepId == report.stepId {
          FirstStep(steps, report.stepId, i);
          var status := if report.succeeded then Succeeded else if report.retryable then RetryWait else Failed;
          if steps[i].status.Succeeded? || steps[i].status.Failed? {
            assert bundles[workId := bundle.(steps := steps)] == bundles;
            if steps[i].status == status && steps[i].result == report.result && steps[i].error == report.error {
              return Ok(Stored(status, true, Remaining(steps), AllSucceeded(steps)));
            }
            return Ok(AlreadyRecorded(steps[i].status, steps[i].result, steps[i].error));
          }
          steps := steps[i := steps[i].(status := status, result := report.result, error := report.error, updatedAt := Some(stamp))];
          bundles := bundles[workId := bundle.(steps := steps)];
          return Ok(Stored(status, false, Remaining(steps), AllSucceeded(steps)));
        }
        i := i + 1;
      }
      assert bundles[workId := bundle.(steps := steps)] == bundles;
      return Err(StepNotFound);
    }

    /** `build_briefing_payload`. */
    method BuildBriefing(workId: string) returns (r: Result<Briefing, StoreError>)
      ensures r == if workId in bundles then Ok(Brief(bundles[workId].steps)) else Err(BundleNotFound)
    {
      if workId !in bundles {
        return Err(BundleNotFound);
      }
      var steps := bundles[workId].steps;
      var missing, blocks := [], [];
      for i := 0 to |steps|
        invariant missing == Missing(steps[..i]) && blocks == Blocks(steps[..i])
      {
        assert steps[..i + 1][..i] == steps[..i];
        if !steps[i].status.Succeeded? {
          missing := missing + [steps[i].stepId];
        }
        blocks := blocks + [BlockOf(steps[i])];
      }
      assert steps[..|steps|] == steps;
      return Ok(if missing != [] then NotReady(missing) else Ready(blocks));
    }
  }

  lemma FirstClaim(steps: seq<Step>, now: real, i: nat)
    requires i < |steps| && Claimable(steps[i], now)
    requires forall j :: 0 <= j < i ==> !Claimable(steps[j], now)
    ensures ClaimIndex(steps, now, 0) == i
  {
  }

  lemma FirstStep(steps: seq<Step>, stepId: string, i: nat)
    requires i < |steps| && steps[i].stepId == stepId
    requires forall j :: 0 <= j < i ==> steps[j].stepId != stepId
    ensures StepIndex(steps, stepId, 0) == i
  {
  }
}

/**
 Whole runs of the dispatch protocol: any number of workers interleave persist, next, record and brief, each one
 an atomic step on the shared bundles. What holds over every such run.
 */
module DispatchRuns {
  import opened Wrappers
  import opened Dispatch

  type Bundles = map<string, Bundle>

  datatype Op =
    | Persist(workId: string, bundle: Bundle)
    | Claim(workId: string, now: real, stamp: real)
    | Record(workId: string, report: Report, stamp: real)
    | Briefed(workId: string)

  /** The effect of one operation, exactly as the methods of `DispatchStore.Store` state it. */
  function Apply(st: Bundles, op: Op): Bundles {
    match op
    case Persist(w, b) =>
      if PersistDecision(if w in st then Some(st[w]) else None, b) == Ok(Written) then st[w := b] else st
    case Claim(w, now, stamp) =>
      if w in st then st[w := st[w].(steps := AfterClaim(st[w].steps, now, stamp))] else st
    case Record(w, report, stamp) =>
      if w in st then st[w := st[w].(steps := AfterRecord(st[w].steps, report, stamp))] else st
    case Briefed(_) => st
  }

  function Run(st: Bundles, ops: seq<Op>): Bundles {
    if |ops| == 0 then st else Apply(Run(st, ops[..|ops| - 1]), ops[|ops| - 1])
  }

  lemma RunStep(st: Bundles, ops: seq<Op>, i: nat)
    requires i < |ops|
    ensures Run(st, ops[..i + 1]) == Apply(Run(st, ops[..i]), ops[i])
  {
    assert ops[..i + 1][..i] == ops[..i];
  }

  // ---------------------------------------------------------------- one step

  /** The step operation `op` records terminally, if any: one that was not terminal before. */
  predicate Settles(st: Bundles, op: Op, w: string, k: nat) {
    && op.Record? && op.workId == w && w in st
    && op.report.Status().Terminal()
    && TakesEffect(st[w].steps, op.report)
    && StepIndex(st[w].steps, op.report.stepId, 0) == k
  }

  predicate SettlesAny(st: Bundles, op: Op, w: string) {
    && op.Record? && op.workId == w && w in st
    && op.report.Status().Terminal()
    && TakesEffect(st[w].steps, op.report)
  }

  /** A `retry_wait` record that takes effect on step `k`. */
  predicate Releases(st: Bundles, op: Op, w: string, k: nat) {
    && op.Record? && op.workId == w && w in st
    && op.report.Status().RetryWait?
    && TakesEffect(st[w].steps, op.report)
    && StepIndex(st[w].steps, op.report.stepId, 0) == k
  }

  predicate ClaimsStep(st: Bundles, op: Op, w: string, k: nat) {
    && op.Claim? && op.workId == w && w in st
    && k < |st[w].steps| && ClaimIndex(st[w].steps, op.now, 0) == k
  }

  /** What no operation changes about a stored bundle. */
  ghost predicate SameIdentity(a: Bundle, b: Bundle) {
    && a.version == b.version && a.owner == b.owner
    && |a.steps| == |b.steps|
    && forall i :: 0 <= i < |a.steps| ==>
         && a.steps[i].stepId == b.steps[i].stepId && a.steps[i].checksum == b.steps[i].checksum
         && a.steps[i].segmentId == b.steps[i].segmentId && a.steps[i].content == b.steps[i].content
  }

  ghost predicate SameOutcome(a: Step, b: Step) {
    a.status == b.status && a.result == b.result && a.error == b.error
  }

  lemma StepKeeps(st: Bundles, op: Op, w: string)
    requires w in st
    ensures w in Apply(st, op) && SameIdentity(st[w], Apply(st, op)[w])
    ensures forall k :: 0 <= k < |st[w].steps| && st[w].steps[k].status.Terminal() ==>
              Apply(st, op)[w].steps[k] == st[w].steps[k]
  {
  }

  // ---------------------------------------------------------------- identity and frozen outcomes

  /**
   Once written, a bundle's owner and its ordered step ids and checksums never change, and a terminal step keeps
   status, result and error for ever, whatever is interleaved.
   */
  lemma {:induction false} StoredBundleIsStable(st: Bundles, ops: seq<Op>, w: string)
    requires w in st
    ensures w in Run(st, ops) && SameIdentity(st[w], Run(st, ops)[w])
    ensures forall k :: 0 <= k < |st[w].steps| && st[w].steps[k].status.Terminal() ==>
              SameOutcome(st[w].steps[k], Run(st, ops)[w].steps[k])
  {
    if |ops| > 0 {
      var mid := Run(st, ops[..|ops| - 1]);
      StoredBundleIsStable(st, ops[..|ops| - 1], w);
      StepKeeps(mid, ops[|ops| - 1], w);
    }
  }

  /** The same ordered step ids and checksums. */
  ghost predicate SameSteps(a: Bundle, b: Bundle) {
    && |a.steps| == |b.steps|
    && forall i :: 0 <= i < |a.steps| ==> a.steps[i].stepId == b.steps[i].stepId && a.steps[i].checksum == b.steps[i].checksum
  }

  lemma SameStepsIff(a: Bundle, b: Bundle)
    ensures SameSteps(a, b) <==> Identity(a) == Identity(b)
  {
    if Identity(a) == Identity(b) {
      assert |Identity(a)| == |Identity(b)|;
      forall i | 0 <= i < |a.steps|
        ensures a.steps[i].stepId == b.steps[i].stepId && a.steps[i].checksum == b.steps[i].checksum
      {
        assert Identity(a)[i] == Identity(b)[i];
      }
    }
  }

  /** Persisting over a stored bundle changes nothing, and says exactly why. */
  lemma RepersistKeepsProgress(st: Bundles, w: string, b: Bundle)
    requires w in st
    ensures Apply(st, Persist(w, b)) == st
    ensures var d := PersistDecision(Some(st[w]), b);
            && d != Ok(Written)
            && (d == Ok(Idempotent) <==>
                  OwnerOf(b).Ok? && OwnerOf(b).value.Some? && OwnerOf(st[w]) == OwnerOf(b) && SameSteps(st[w], b))
            && (d == Ok(Conflict) <==>
                  OwnerOf(b).Ok? && OwnerOf(b).value.Some? && OwnerOf(st[w]) == OwnerOf(b) && !SameSteps(st[w], b))
            && (d == Ok(OwnerConflict) <==>
                  OwnerOf(b).Ok? && OwnerOf(st[w]).Ok? && (OwnerOf(b).value.None? || OwnerOf(st[w]) != OwnerOf(b)))
            && (d.Err? <==> OwnerOf(b).Err? || OwnerOf(st[w]).Err?)
  {
    hide OwnerOf;
    assert SameSteps(st[w], b) <==> Identity(st[w]) == Identity(b) by {
      SameStepsIff(st[w], b);
    }
  }

  /** A persist that writes. */
  predicate Writes(st: Bundles, op: Op, w: string) {
    op.Persist? && op.workId == w && PersistDecision(if w in st then Some(st[w]) else None, op.bundle) == Ok(Written)
  }

  function WrittenTimes(st: Bundles, ops: seq<Op>, w: string): nat {
    if |ops| == 0 then 0
    else
      var before := ops[..|ops| - 1];
      WrittenTimes(st, before, w) + if Writes(Run(st, before), ops[|ops| - 1], w) then 1 else 0
  }

  lemma PresenceStep(st: Bundles, op: Op, w: string)
    ensures w in Apply(st, op) <==> w in st || Writes(st, op, w)
    ensures w in st ==> !Writes(st, op, w)
  {
    hide OwnerOf, AfterClaim, AfterRecord;
    if w in st && op.Persist? && op.workId == w {
      RepersistKeepsProgress(st, w, op.bundle);
    }
  }

  /** However many workers persist a bundle, in any run it is written exactly once if it comes to be stored, and never twice. */
  lemma {:induction false} WrittenOnce(st: Bundles, ops: seq<Op>, w: string)
    ensures WrittenTimes(st, ops, w) == if w in Run(st, ops) && w !in st then 1 else 0
    ensures w in st ==> w in Run(st, ops)
  {
    hide Apply, Writes;
    if |ops| > 0 {
      WrittenOnce(st, ops[..|ops| - 1], w);
      PresenceStep(Run(st, ops[..|ops| - 1]), ops[|ops| - 1], w);
    }
  }

  // ---------------------------------------------------------------- at most one terminal record

  function Settlements(st: Bundles, ops: seq<Op>, w: string, k: nat): nat {
    if |ops| == 0 then 0
    else
      var before := ops[..|ops| - 1];
      Settlements(st, before, w, k) + if Settles(Run(st, before), ops[|ops| - 1], w, k) then 1 else 0
  }

  /** Over any run a step is recorded terminally at most once, and then it is terminal. */
  lemma {:induction false} SettledOnce(st: Bundles, ops: seq<Op>, w: string, k: nat)
    requires w in st && k < |st[w].steps|
    ensures w in Run(st, ops) && k < |Run(st, ops)[w].steps|
    ensures Settlements(st, ops, w, k) <= 1
    ensures Settlements(st, ops, w, k) == 1 ==> Run(st, ops)[w].steps[k].status.Terminal()
    ensures st[w].steps[k].status.Terminal() ==> Settlements(st, ops, w, k) == 0 && Run(st, ops)[w].steps[k].status.Terminal()
  {
    if |ops| > 0 {
      var mid := Run(st, ops[..|ops| - 1]);
      SettledOnce(st, ops[..|ops| - 1], w, k);
      StepKeeps(mid, ops[|ops| - 1], w);
    }
  }

  /**
   Recording is idempotent: once a report has settled its step, any later report for that id changes nothing. It is
   acknowledged when it says the same again, and otherwise refused with what is stored.
   */
  lemma RecordingIsIdempotent(steps: seq<Step>, first: Report, again: Report, stamp: real, later: real)
    requires TakesEffect(steps, first) && first.Status().Terminal() && again.stepId == first.stepId
    ensures var after := AfterRecord(steps, first, stamp);
            && AfterRecord(after, again, later) == after
            && RecordAnswer(after, again, later) ==
                 if again.Status() == first.Status() && again.result == first.result && again.error == first.error then
                   Ok(Stored(first.Status(), true, Remaining(after), AllSucceeded(after)))
                 else Ok(AlreadyRecorded(first.Status(), first.result, first.error))
  {
    hide Remaining, AllSucceeded;
    var k := StepIndex(steps, first.stepId, 0);
    var after := AfterRecord(steps, first, stamp);
    assert after[k].stepId == first.stepId && forall j :: 0 <= j < k ==> after[j].stepId != first.stepId;
    assert StepIndex(after, first.stepId, 0) == k;
  }

  // ---------------------------------------------------------------- remaining work is conserved

  /** No report can reach a step of unknown status: an earlier step has its id. */
  predicate UnknownsOutOfReach(b: Bundle) {
    forall k :: 0 <= k < |b.steps| && b.steps[k].status.Unknown? ==> StepIndex(b.steps, b.steps[k].stepId, 0) != k
  }

  function SettlementsOn(st: Bundles, ops: seq<Op>, w: string): nat {
    if |ops| == 0 then 0
    else
      var before := ops[..|ops| - 1];
      SettlementsOn(st, before, w) + if SettlesAny(Run(st, before), ops[|ops| - 1], w) then 1 else 0
  }

  lemma SameStepIndex(a: seq<Step>, b: seq<Step>, stepId: string)
    requires |a| == |b| && forall i :: 0 <= i < |a| ==> a[i].stepId == b[i].stepId
    ensures StepIndex(a, stepId, 0) == StepIndex(b, stepId, 0)
  {
    var i, j := StepIndex(a, stepId, 0), StepIndex(b, stepId, 0);
    assert i < |a| ==> b[i].stepId == stepId;
    assert j < |b| ==> a[j].stepId == stepId;
  }

  /** No operation stores an unknown status. */
  lemma UnknownsStayOutOfReach(st: Bundles, op: Op, w: string)
    requires w in st && UnknownsOutOfReach(st[w])
    ensures w in Apply(st, op) && UnknownsOutOfReach(Apply(st, op)[w])
  {
    var a, b := st[w].steps, Apply(st, op)[w].steps;
    forall k | 0 <= k < |b| && b[k].status.Unknown?
      ensures StepIndex(b, b[k].stepId, 0) != k
    {
      assert a[k] == b[k];
      SameStepIndex(a, b, b[k].stepId);
    }
  }

  lemma RemainingStep(st: Bundles, op: Op, w: string)
    requires w in st && UnknownsOutOfReach(st[w])
    ensures w in Apply(st, op)
    ensures Remaining(Apply(st, op)[w].steps) == Remaining(st[w].steps) - if SettlesAny(st, op, w) then 1 else 0
  {
    hide Remaining, StepIndex, ClaimIndex;
    var steps := st[w].steps;
    if op.Claim? && op.workId == w {
      var k := ClaimIndex(steps, op.now, 0);
      if k < |steps| {
        CountsUpdate(steps, k, Claimed(steps[k], op.stamp));
      }
    } else if op.Record? && op.workId == w {
      var k := StepIndex(steps, op.report.stepId, 0);
      if k < |steps| {
        CountsUpdate(steps, k, Recorded(steps[k], op.report, op.stamp));
      }
    }
  }

  /** Work is conserved: what remains plus what has been recorded terminally is constant over the run. */
  ghost predicate Conserved(st: Bundles, ops: seq<Op>, w: string)
    requires w in st
  {
    w in Run(st, ops) && Remaining(Run(st, ops)[w].steps) + SettlementsOn(st, ops, w) == Remaining(st[w].steps)
  }

  lemma {:induction false} RunConserves(st: Bundles, ops: seq<Op>, w: string)
    requires w in st && UnknownsOutOfReach(st[w])
    ensures Conserved(st, ops, w) && UnknownsOutOfReach(Run(st, ops)[w])
  {
    hide UnknownsOutOfReach, Apply, Remaining;
    if |ops| > 0 {
      RunConserves(st, ops[..|ops| - 1], w);
      UnknownsStayOutOfReach(Run(st, ops[..|ops| - 1]), ops[|ops| - 1], w);
      RemainingStep(Run(st, ops[..|ops| - 1]), ops[|ops| - 1], w);
    }
  }

  /** Parking a reachable step of unknown status makes remaining grow. */
  lemma UnknownBreaksTheCount(st: Bundles, w: string, k: nat)
    requires w in st && k < |st[w].steps|
    requires st[w].steps[k].status.Unknown? && StepIndex(st[w].steps, st[w].steps[k].stepId, 0) == k
    ensures !Conserved(st, [Record(w, Report(st[w].steps[k].stepId, "", "", false, true), 0.0)], w)
  {
    hide StepIndex, Remaining;
    var steps := st[w].steps;
    var report := Report(steps[k].stepId, "", "", false, true);
    var ops := [Record(w, report, 0.0)];
    assert ops[..0] == [];
    assert Run(st, ops) == Apply(st, ops[0]);
    CountsUpdate(steps, k, Recorded(steps[k], report, 0.0));
  }

  /** Work is conserved over every run exactly when no step of unknown status is the first with its id. */
  lemma RemainingIsConservedIff(st: Bundles, w: string)
    requires w in st
    ensures (forall ops :: Conserved(st, ops, w)) <==> UnknownsOutOfReach(st[w])
  {
    hide Conserved;
    if UnknownsOutOfReach(st[w]) {
      forall ops
        ensures Conserved(st, ops, w)
      {
        RunConserves(st, ops, w);
      }
    } else {
      var k: nat :| k < |st[w].steps| && st[w].steps[k].status.Unknown?
                    && StepIndex(st[w].steps, st[w].steps[k].stepId, 0) == k;
      UnknownBreaksTheCount(st, w, k);
    }
  }

  // ---------------------------------------------------------------- the lease

  /** `now` is read before the lock is waited for, so only stamps are in lock order; each is at or after its `now`. */
  ghost predicate ClockOk(ops: seq<Op>) {
    && (forall i :: 0 <= i < |ops| && ops[i].Claim? ==> ops[i].now <= ops[i].stamp)
    && (forall i, j :: 0 <= i < j < |ops| && Stamped(ops[i]) && Stamped(ops[j]) ==> ops[i].stamp <= ops[j].stamp)
  }

  predicate Stamped(op: Op) {
    op.Claim? || op.Record?
  }

  /** Step `k` is out of reach before the lease of the claim stamped `since` has run out. */
  ghost predicate Leased(st: Bundles, w: string, k: nat, since: real) {
    && w in st && k < |st[w].steps|
    && var s := st[w].steps[k];
       && !s.status.Queued? && !s.status.RetryWait?
       && (s.status.Running? ==> s.updatedAt.Some? && s.updatedAt.value >= since)
  }

  lemma {:induction false} LeaseHolds(st: Bundles, ops: seq<Op>, w: string, k: nat, i: nat, n: nat)
    requires ClockOk(ops) && i < n <= |ops|
    requires ClaimsStep(Run(st, ops[..i]), ops[i], w, k)
    requires forall m :: i < m < n ==> !Releases(Run(st, ops[..m]), ops[m], w, k)
    ensures Leased(Run(st, ops[..n]), w, k, ops[i].stamp)
    decreases n
  {
    hide Apply, Releases, Leased, Run;
    RunStep(st, ops, n - 1);
    if n == i + 1 {
      LeaseStart(Run(st, ops[..i]), ops[i], w, k);
    } else {
      LeaseHolds(st, ops, w, k, i, n - 1);
      LeaseStep(Run(st, ops[..n - 1]), ops[n - 1], w, k, ops[i].stamp);
    }
  }

  lemma LeaseStart(st: Bundles, op: Op, w: string, k: nat)
    requires ClaimsStep(st, op, w, k)
    ensures Leased(Apply(st, op), w, k, op.stamp)
  {
  }

  lemma LeaseStep(st: Bundles, op: Op, w: string, k: nat, since: real)
    requires Leased(st, w, k, since) && !Releases(st, op, w, k)
    requires Stamped(op) ==> since <= op.stamp
    ensures Leased(Apply(st, op), w, k, since)
  {
  }

  /**
   Lease exclusivity: if a step is claimed twice, then it was released to `retry_wait` in between, or the second
   claim looked at the clock more than 600 seconds after the first.
   */
  lemma LeaseIsExclusive(st: Bundles, ops: seq<Op>, w: string, k: nat, i: nat, j: nat)
    requires ClockOk(ops) && i < j < |ops|
    requires ClaimsStep(Run(st, ops[..i]), ops[i], w, k)
    requires ClaimsStep(Run(st, ops[..j]), ops[j], w, k)
    ensures (exists m :: i < m < j && Releases(Run(st, ops[..m]), ops[m], w, k))
         || (ops[j].now - ops[i].stamp > 600.0 && ops[j].stamp - ops[i].stamp > 600.0)
  {
    if forall m :: i < m < j ==> !Releases(Run(st, ops[..m]), ops[m], w, k) {
      LeaseHolds(st, ops, w, k, i, j);
    }
  }

  predicate ClaimsFrom(op: Op, w: string) {
    op.Claim? && op.workId == w
  }

  function ClaimCount(ops: seq<Op>, w: string, n: nat): nat
    requires n <= |ops|
  {
    if n == 0 then 0 else ClaimCount(ops, w, n - 1) + if ClaimsFrom(ops[n - 1], w) then 1 else 0
  }

  /** What a claim on the bundle hands out, if anything. */
  ghost function Served(st: Bundles, op: Op, w: string): set<nat> {
    if ClaimsFrom(op, w) && w in st && ClaimIndex(st[w].steps, op.now, 0) < |st[w].steps| then
      {ClaimIndex(st[w].steps, op.now, 0)}
    else {}
  }

  /** The steps handed out by the first `n` operations. */
  ghost function HandedOut(st: Bundles, ops: seq<Op>, w: string, n: nat): set<nat>
    requires n <= |ops|
  {
    if n == 0 then {} else HandedOut(st, ops, w, n - 1) + Served(Run(st, ops[..n - 1]), ops[n - 1], w)
  }

  lemma {:induction false} HandedOutBefore(st: Bundles, ops: seq<Op>, w: string, n: nat, j: nat) returns (i: nat)
    requires n <= |ops| && j in HandedOut(st, ops, w, n)
    ensures i < n && ClaimsStep(Run(st, ops[..i]), ops[i], w, j)
  {
    hide Run, ClaimIndex;
    if j in HandedOut(st, ops, w, n - 1) {
      i := HandedOutBefore(st, ops, w, n - 1, j);
    } else {
      i := n - 1;
    }
  }

  /** A record that takes effect on step `k`. */
  predicate RecordsStep(st: Bundles, op: Op, w: string, k: nat) {
    op.Record? && op.workId == w && w in st && TakesEffect(st[w].steps, op.report)
    && StepIndex(st[w].steps, op.report.stepId, 0) == k
  }

  /**
   A run in which step `k` could be claimed all along and no one touches it: every claim on the bundle finds it
   claimable, none takes it, no report settles or releases it, no earlier step is released, and no lease given in
   the run expires in the run.
   */
  ghost predicate PassedOver(st: Bundles, ops: seq<Op>, w: string, k: nat) {
    && w in st && k < |st[w].steps| && ClockOk(ops)
    && (forall i :: 0 <= i < |ops| && ClaimsFrom(ops[i], w) ==> Available(st[w].steps[k], ops[i].now))
    && (forall i, j :: 0 <= i < j < |ops| && ClaimsFrom(ops[i], w) && ClaimsFrom(ops[j], w) ==> ops[j].now - ops[i].stamp <= 600.0)
    && (forall i :: 0 <= i < |ops| ==> !ClaimsStep(Run(st, ops[..i]), ops[i], w, k) && !RecordsStep(Run(st, ops[..i]), ops[i], w, k))
    && (forall i, j: nat :: 0 <= i < |ops| && j < k ==> !Releases(Run(st, ops[..i]), ops[i], w, j))
  }

  lemma {:induction false} PassedOverStays(st: Bundles, ops: seq<Op>, w: string, k: nat, n: nat)
    requires PassedOver(st, ops, w, k) && n <= |ops|
    ensures var mid := Run(st, ops[..n]); w in mid && k < |mid[w].steps| && mid[w].steps[k] == st[w].steps[k]
  {
    hide ClockOk, ClaimIndex, StepIndex, Releases;
    if n > 0 {
      PassedOverStays(st, ops, w, k, n - 1);
      RunStep(st, ops, n - 1);
      var mid, op := Run(st, ops[..n - 1]), ops[n - 1];
      assert !ClaimsStep(mid, op, w, k) && !RecordsStep(mid, op, w, k);
    } else {
      assert ops[..0] == [];
    }
  }

  /** A claim in such a run takes an earlier step, and one that was not handed out before. */
  lemma ClaimTakesEarlier(st: Bundles, ops: seq<Op>, w: string, k: nat, n: nat)
    requires PassedOver(st, ops, w, k) && n < |ops| && ClaimsFrom(ops[n], w)
    ensures var mid := Run(st, ops[..n]);
            w in mid && k < |mid[w].steps| && ClaimIndex(mid[w].steps, ops[n].now, 0) < k
  {
    hide Run, Releases, RecordsStep, ClockOk;
    var mid, op := Run(st, ops[..n]), ops[n];
    PassedOverStays(st, ops, w, k, n);
    assert Claimable(mid[w].steps[k], op.now);
    assert !ClaimsStep(mid, op, w, k);
  }

  lemma NotTwice(st: Bundles, ops: seq<Op>, w: string, k: nat, i: nat, n: nat, j: nat)
    requires PassedOver(st, ops, w, k) && i < n < |ops| && j < k
    requires ClaimsStep(Run(st, ops[..i]), ops[i], w, j)
    ensures !ClaimsStep(Run(st, ops[..n]), ops[n], w, j)
  {
    hide Run, Releases, RecordsStep, ClockOk, ClaimIndex;
    if ClaimsStep(Run(st, ops[..n]), ops[n], w, j) {
      LeaseIsExclusive(st, ops, w, j, i, n);
    }
  }

  lemma {:induction false} EachClaimTakesAnother(st: Bundles, ops: seq<Op>, w: string, k: nat, n: nat)
    requires PassedOver(st, ops, w, k) && n <= |ops|
    ensures |HandedOut(st, ops, w, n)| == ClaimCount(ops, w, n)
    ensures forall j :: j in HandedOut(st, ops, w, n) ==> j < k
  {
    hide Run, PassedOver, ClaimIndex;
    if n > 0 {
      EachClaimTakesAnother(st, ops, w, k, n - 1);
      var mid, op := Run(st, ops[..n - 1]), ops[n - 1];
      if ClaimsFrom(op, w) {
        ClaimTakesEarlier(st, ops, w, k, n - 1);
        var j := ClaimIndex(mid[w].steps, op.now, 0);
        assert Served(mid, op, w) == {j};
        if j in HandedOut(st, ops, w, n - 1) {
          var i := HandedOutBefore(st, ops, w, n - 1, j);
          NotTwice(st, ops, w, k, i, n - 1, j);
        }
      }
    }
  }

  lemma {:induction false} BelowBound(s: set<nat>, k: nat)
    requires forall j :: j in s ==> j < k
    ensures |s| <= k
  {
    if k > 0 {
      BelowBound(s - {k - 1}, k - 1);
      assert k - 1 in s ==> |s - {k - 1}| == |s| - 1;
      assert k - 1 !in s ==> s - {k - 1} == s;
    } else {
      assert s == {};
    }
  }

  /**
   Nothing stays lost: a step that is queued, parked or past its lease is passed over by at most as many claims as
   there are steps before it. So an abandoned step is handed out again by claim number `k + 1` at the latest.
   */
  lemma ClaimableStepIsServed(st: Bundles, ops: seq<Op>, w: string, k: nat)
    requires PassedOver(st, ops, w, k)
    ensures ClaimCount(ops, w, |ops|) <= k
  {
    hide PassedOver;
    EachClaimTakesAnother(st, ops, w, k, |ops|);
    BelowBound(HandedOut(st, ops, w, |ops|), k);
  }

  // ---------------------------------------------------------------- briefing

  /** A briefing that is ready shows every step's recorded result in stored order, and stays the same ever after. */
  lemma BriefingIsFinal(st: Bundles, ops: seq<Op>, w: string)
    requires w in st && Brief(st[w].steps).Ready?
    ensures w in Run(st, ops) && Brief(Run(st, ops)[w].steps) == Brief(st[w].steps) == Ready(Blocks(st[w].steps))
  {
    StoredBundleIsStable(st, ops, w);
    MissingIff(st[w].steps);
    var later := Run(st, ops)[w].steps;
    MissingIff(later);
    assert forall i :: 0 <= i < |later| ==> later[i].status == st[w].steps[i].status;
    assert Blocks(later) == Blocks(st[w].steps);
  }

  lemma {:induction false} SettledBy(st: Bundles, ops: seq<Op>, w: string, k: nat) returns (m: nat)
    requires w in st && k < |st[w].steps| && !st[w].steps[k].status.Terminal()
    requires w in Run(st, ops) && k < |Run(st, ops)[w].steps| && Run(st, ops)[w].steps[k].status.Terminal()
    ensures m < |ops| && Settles(Run(st, ops[..m]), ops[m], w, k)
    ensures SameOutcome(Run(st, ops)[w].steps[k], Recorded(Run(st, ops[..m])[w].steps[k], ops[m].report, ops[m].stamp))
  {
    if |ops| > 0 {
      var n := |ops| - 1;
      var mid := Run(st, ops[..n]);
      StoredBundleIsStable(st, ops[..n], w);
      StepKeeps(mid, ops[n], w);
      if mid[w].steps[k].status.Terminal() {
        m := SettledBy(st, ops[..n], w, k);
        assert ops[..n][..m] == ops[..m];
      } else {
        m := n;
        TurnsTerminal(mid, ops[n], w, k);
      }
    }
  }

  lemma TurnsTerminal(st: Bundles, op: Op, w: string, k: nat)
    requires w in st && k < |st[w].steps| && !st[w].steps[k].status.Terminal() && Apply(st, op)[w].steps[k].status.Terminal()
    ensures Settles(st, op, w, k)
    ensures Apply(st, op)[w].steps[k] == Recorded(st[w].steps[k], op.report, op.stamp)
  {
  }

  /**
   A ready briefing shows, for every step that the run settled, the result of the report that settled it, and for the
   others the result they were stored with; all in stored order under the ids and checksums first stored.
   */
  lemma BriefingShowsTheReports(st: Bundles, ops: seq<Op>, w: string, k: nat) returns (m: nat)
    requires w in st && w in Run(st, ops) && Brief(Run(st, ops)[w].steps).Ready? && k < |st[w].steps|
    ensures var blocks := Brief(Run(st, ops)[w].steps).blocks;
            && |blocks| == |st[w].steps|
            && blocks[k].stepId == st[w].steps[k].stepId && blocks[k].segmentId == st[w].steps[k].segmentId
            && blocks[k].checksum == st[w].steps[k].checksum
            && if st[w].steps[k].status.Terminal() then blocks[k].result == st[w].steps[k].result
               else m < |ops| && Settles(Run(st, ops[..m]), ops[m], w, k) && ops[m].report.succeeded && blocks[k].result == ops[m].report.result
  {
    hide Run, Settles, Brief, SameIdentity;
    var steps := Run(st, ops)[w].steps;
    StoredBundleIsStable(st, ops, w);
    SameIdentityAt(st[w], Run(st, ops)[w], k);
    var idx := BriefingShows(steps);
    m := 0;
    if !st[w].steps[k].status.Terminal() {
      assert steps[k].status.Succeeded?;
      m := SettledBy(st, ops, w, k);
    }
  }

  lemma SameIdentityAt(a: Bundle, b: Bundle, k: nat)
    requires SameIdentity(a, b) && k < |a.steps|
    ensures |a.steps| == |b.steps|
    ensures a.steps[k].stepId == b.steps[k].stepId && a.steps[k].checksum == b.steps[k].checksum
    ensures a.steps[k].segmentId == b.steps[k].segmentId && a.steps[k].content == b.steps[k].content
  {
  }
}

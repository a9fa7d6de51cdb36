/** Replay of the ledger: what the fold knows after any run, and how the retry budget and backoff play out. */
module LedgerRuns {
  import opened Wrappers
  import opened Owners
  import opened Ledger

  function Run(log: seq<Event>, ops: seq<Op>): seq<Event> {
    if |ops| == 0 then log else Append(Run(log, ops[..|ops| - 1]), ops[|ops| - 1])
  }

  /** Folding after an append is folding before it with one key updated. */
  lemma AppendUpdatesOneKey(log: seq<Event>, op: Op)
    ensures EventOf(log, op).Ok? ==>
              var e := EventOf(log, op).value.entry; Latest(Append(log, op)) == Latest(log)[e.workId := e]
    ensures EventOf(log, op).Err? ==> Append(log, op) == log
    ensures Append(log, op)[..|log|] == log
  {
    if EventOf(log, op).Ok? {
      assert Append(log, op)[..|log|] == log;
    }
  }

  // ---------------------------------------------------------------- owners and counters

  /** The starts of `w` since it was last enqueued. */
  function StartsSince(log: seq<Event>, w: string): nat {
    if |log| == 0 then 0
    else
      var rest, e := log[..|log| - 1], log[|log| - 1].entry;
      if e.workId != w then StartsSince(rest, w)
      else if e.status.Queued? then 0
      else StartsSince(rest, w) + if e.status.Running? then 1 else 0
  }

  /** The attempts `w` was last enqueued with. */
  function Budget(log: seq<Event>, w: string): int {
    if |log| == 0 then 1
    else
      var rest, e := log[..|log| - 1], log[|log| - 1].entry;
      if e.workId == w && e.status.Queued? then e.maxAttempts else Budget(rest, w)
  }

  ghost predicate OneOwner(log: seq<Event>) {
    forall i :: 0 <= i < |log| ==> OwnedAlike(log, i)
  }

  /** Event `i` is about its own item, whose valid owner is that of the latest entry of the id. */
  ghost predicate OwnedAlike(log: seq<Event>, i: nat)
    requires i < |log|
  {
    var e := log[i].entry;
    && e.item.workId == e.workId
    && LedgerOwner(e.item).Ok?
    && e.workId in Latest(log)
    && LedgerOwner(Latest(log)[e.workId].item) == LedgerOwner(e.item)
  }

  ghost predicate Counted(log: seq<Event>) {
    forall w :: w in Latest(log) ==>
      var e := Latest(log)[w];
      && e.workId == w == e.item.workId
      && e.attempt == StartsSince(log, w)
      && e.maxAttempts == Budget(log, w) >= 1
  }

  lemma OwnersStep(log: seq<Event>, op: Op)
    requires OneOwner(log) && Counted(log) && LatestOwned(log)
    ensures OneOwner(Append(log, op)) && LatestOwned(Append(log, op))
  {
    hide OwnersConflict, OwnerOfObject;
    AppendUpdatesOneKey(log, op);
    if EventOf(log, op).Ok? {
      var r, e := Append(log, op), EventOf(log, op).value.entry;
      assert Latest(r) == Latest(log)[e.workId := e];
      EventOwner(log, op);
      forall i | 0 <= i < |r|
        ensures OwnedAlike(r, i)
      {
        if i < |log| {
          assert OwnedAlike(log, i);
          assert r[i] == log[i];
        } else {
          assert r[i].entry == e;
        }
      }
    }
  }

  ghost predicate LatestOwned(log: seq<Event>) {
    forall w :: w in Latest(log) ==> LedgerOwner(Latest(log)[w].item).Ok?
  }

  /** An accepted event has a valid owner, the one its id has had so far. */
  lemma EventOwner(log: seq<Event>, op: Op)
    requires EventOf(log, op).Ok? && Counted(log) && LatestOwned(log)
    ensures var e := EventOf(log, op).value.entry;
            && e.item.workId == e.workId && LedgerOwner(e.item).Ok?
            && (e.workId in Latest(log) ==> LedgerOwner(Latest(log)[e.workId].item) == LedgerOwner(e.item))
  {
    hide OwnerOfObject, StartsSince, Budget;
  }

  lemma CountStep(log: seq<Event>, op: Op)
    requires Counted(log)
    ensures Counted(Append(log, op))
  {
    hide EnqueueError;
    AppendUpdatesOneKey(log, op);
    if EventOf(log, op).Ok? {
      var r, e := Append(log, op), EventOf(log, op).value.entry;
      assert Latest(r) == Latest(log)[e.workId := e];
      forall w | w in Latest(r)
        ensures var f := Latest(r)[w];
                f.workId == w == f.item.workId && f.attempt == StartsSince(r, w) && f.maxAttempts == Budget(r, w) >= 1
      {
        assert r[|r| - 1].entry == e;
      }
    }
  }

  /**
   After any run from an empty ledger all events of a work id carry one and the same valid owner, and the folded
   entry's attempt is the number of starts since the last enqueue, its budget that enqueue's.
   */
  lemma {:induction false} ReplayIsFaithful(ops: seq<Op>)
    ensures var log := Run([], ops);
            && Counted(log) && LatestOwned(log) && OneOwner(log)
            && (forall i, j :: 0 <= i < |log| && 0 <= j < |log| && log[i].entry.workId == log[j].entry.workId ==>
                  LedgerOwner(log[i].entry.item) == LedgerOwner(log[j].entry.item) && LedgerOwner(log[i].entry.item).Ok?)
  {
    hide OwnersConflict, OwnerOfObject, LedgerOwner;
    if |ops| > 0 {
      var log := Run([], ops[..|ops| - 1]);
      ReplayIsFaithful(ops[..|ops| - 1]);
      CountStep(log, ops[|ops| - 1]);
      OwnersStep(log, ops[|ops| - 1]);
    }
    SameOwners(Run([], ops));
  }

  lemma SameOwners(log: seq<Event>)
    requires OneOwner(log)
    ensures forall i, j :: 0 <= i < |log| && 0 <= j < |log| && log[i].entry.workId == log[j].entry.workId ==>
              LedgerOwner(log[i].entry.item) == LedgerOwner(log[j].entry.item) && LedgerOwner(log[i].entry.item).Ok?
  {
    hide LedgerOwner, Latest;
    forall i, j | 0 <= i < |log| && 0 <= j < |log| && log[i].entry.workId == log[j].entry.workId
      ensures LedgerOwner(log[i].entry.item) == LedgerOwner(log[j].entry.item) && LedgerOwner(log[i].entry.item).Ok?
    {
      assert OwnedAlike(log, i) && OwnedAlike(log, j);
    }
  }

  /**
   The retry budget over arbitrary interleavings: a retryable failure parks the work while it has been started
   fewer times since its last enqueue than that enqueue allows, and is its death otherwise.
   */
  lemma FailureObeysTheBudget(ops: seq<Op>, w: string, reason: string, retryable: bool, base: real, now: real)
    requires w in Latest(Run([], ops))
    ensures var log := Run([], ops);
            var after := Latest(Append(log, FailedOp(w, reason, retryable, base, now)))[w];
            && after.status == (if retryable && StartsSince(log, w) < Budget(log, w) then RetryWait else Dead)
            && after.attempt == StartsSince(log, w)
  {
    var log := Run([], ops);
    ReplayIsFaithful(ops);
    AppendUpdatesOneKey(log, FailedOp(w, reason, retryable, base, now));
  }

  /** Owner isolation: after any run an enqueue is refused exactly when its owner is invalid or not the id's owner so far. */
  lemma EnqueueRespectsOwners(ops: seq<Op>, item: Item, maxAttempts: int, now: real)
    ensures var log := Run([], ops);
            EventOf(log, Enqueued(item, maxAttempts, now)).Ok? <==>
              && LedgerOwner(item).Ok?
              && forall i :: 0 <= i < |log| && log[i].entry.workId == item.workId ==>
                   LedgerOwner(log[i].entry.item) == LedgerOwner(item)
  {
    hide OwnerOfObject, Budget, StartsSince;
    var log := Run([], ops);
    ReplayIsFaithful(ops);
    assert forall i :: 0 <= i < |log| ==> OwnedAlike(log, i);
    if item.workId in Latest(log) {
      var i := LatestIsLogged(log, item.workId);
      assert OwnedAlike(log, i);
    }
  }

  lemma {:induction false} LatestIsLogged(log: seq<Event>, w: string) returns (i: nat)
    requires w in Latest(log)
    ensures i < |log| && log[i].entry == Latest(log)[w] && log[i].entry.workId == w
  {
    var last := |log| - 1;
    if log[last].entry.workId == w {
      i := last;
    } else {
      i := LatestIsLogged(log[..last], w);
    }
  }

  // ---------------------------------------------------------------- what an entry tells

  function Subject(op: Op): string {
    match op
    case Enqueued(item, _, _) => item.workId
    case Started(w, _) => w
    case Finished(w, _, _) => w
    case FailedOp(w, _, _, _, _) => w
  }

  /** Operation `m` of the run is the last that was accepted for this id. */
  ghost predicate LastOn(ops: seq<Op>, w: string, m: int) {
    && 0 <= m < |ops| && Subject(ops[m]) == w && EventOf(Run([], ops[..m]), ops[m]).Ok?
    && forall n :: m < n < |ops| ==> !(Subject(ops[n]) == w && EventOf(Run([], ops[..n]), ops[n]).Ok?)
  }

  /** The entry an operation leaves, given the id's entry before it. */
  ghost predicate Tells(e: Entry, op: Op, was: Option<Entry>) {
    && e.workId == Subject(op) == e.item.workId
    && match op
       case Enqueued(item, maxAttempts, _) =>
         e.status.Queued? && e.item == item && e.attempt == 0 && e.maxAttempts == Max(1, maxAttempts) && e.nextAfter == 0.0
         && e.reason == "queued"
       case Started(_, _) =>
         e.status.Running? && was.Some? && e.item == was.value.item && e.attempt == was.value.attempt + 1
         && e.maxAttempts == was.value.maxAttempts && e.nextAfter == 0.0 && e.reason == "started"
       case Finished(_, reason, _) =>
         e.status.Succeeded? && was.Some? && e.item == was.value.item && e.attempt == was.value.attempt
         && e.maxAttempts == was.value.maxAttempts && e.nextAfter == 0.0 && e.reason == reason
       case FailedOp(_, reason, retryable, base, now) =>
         && was.Some? && e.item == was.value.item && e.attempt == was.value.attempt && e.maxAttempts == was.value.maxAttempts
         && e.reason == reason
         && (if retryable && e.attempt < e.maxAttempts then
               e.status.RetryWait?
               && e.nextAfter == (if now + base * Power2(Max(0, e.attempt - 1)) as real < 0.0 then 0.0
                                  else now + base * Power2(Max(0, e.attempt - 1)) as real)
             else e.status.Dead? && e.nextAfter == 0.0)
  }

  lemma AppendTells(log: seq<Event>, op: Op)
    requires Counted(log) && EventOf(log, op).Ok?
    ensures var w, r := Subject(op), Append(log, op);
            && w in Latest(r) && Tells(Latest(r)[w], op, if w in Latest(log) then Some(Latest(log)[w]) else None)
            && (forall v :: v != w ==> ((v in Latest(r) <==> v in Latest(log)) && (v in Latest(r) ==> Latest(r)[v] == Latest(log)[v])))
            && r[..|log|] == log && |r| == |log| + 1
            && r[|log|].createdAt == op.now && r[|log|].entry == Latest(r)[w]
  {
    hide EnqueueError, StartsSince, Budget;
    AppendUpdatesOneKey(log, op);
    assert Append(log, op)[..|log|] == log;
  }

  /**
   The latest entry of an id tells the last operation that was accepted for it, over any run: its status, reason and
   retry time, the item of the enqueue before it, and the counters of the entry before it.
   */
  lemma {:induction false} EntriesTellTheLastOperation(ops: seq<Op>, w: string) returns (m: nat)
    requires w in Latest(Run([], ops))
    ensures LastOn(ops, w, m)
    ensures var before := Latest(Run([], ops[..m]));
            Tells(Latest(Run([], ops))[w], ops[m], if w in before then Some(before[w]) else None)
  {
    hide Tells, EventOf, Append, Counted, LatestOwned, OneOwner, Latest;
    NothingLogged();
    assert |ops| > 0;
    var n := |ops| - 1;
    var log := Run([], ops[..n]);
    ReplayIsFaithful(ops[..n]);
    if Subject(ops[n]) == w && EventOf(log, ops[n]).Ok? {
      m := n;
      AppendTells(log, ops[n]);
    } else {
      OthersStay(log, ops[n], w);
      m := EntriesTellTheLastOperation(ops[..n], w);
      StillLast(ops, w, m);
    }
  }

  lemma NothingLogged()
    ensures Latest([]) == map[]
  {
  }

  lemma StillLast(ops: seq<Op>, w: string, m: nat)
    requires |ops| > 0 && LastOn(ops[..|ops| - 1], w, m)
    requires !(Subject(ops[|ops| - 1]) == w && EventOf(Run([], ops[..|ops| - 1]), ops[|ops| - 1]).Ok?)
    ensures LastOn(ops, w, m) && ops[..|ops| - 1][..m] == ops[..m] && ops[..|ops| - 1][m] == ops[m]
  {
    hide EventOf, Run;
    var n := |ops| - 1;
    assert forall k :: 0 <= k < n ==> ops[..n][..k] == ops[..k] && ops[..n][k] == ops[k];
  }

  lemma OthersStay(log: seq<Event>, op: Op, w: string)
    requires Counted(log) && !(Subject(op) == w && EventOf(log, op).Ok?) && w in Latest(Append(log, op))
    ensures w in Latest(log) && Latest(Append(log, op))[w] == Latest(log)[w]
  {
    hide Tells, EventOf;
    if EventOf(log, op).Ok? {
      AppendTells(log, op);
    } else {
      AppendUpdatesOneKey(log, op);
    }
  }

  // ---------------------------------------------------------------- the retry cycle

  /** An enqueue followed by `k` rounds of start and retryable failure, with arbitrary times. */
  function Cycle(item: Item, maxAttempts: int, base: real, times: nat -> real, k: nat): seq<Op> {
    if k == 0 then [Enqueued(item, maxAttempts, times(0))]
    else
      Cycle(item, maxAttempts, base, times, k - 1)
      + [Started(item.workId, times(2 * k - 1)), FailedOp(item.workId, "failed", true, base, times(2 * k))]
  }

  lemma {:induction false} RunTwo(log: seq<Event>, ops: seq<Op>, a: Op, b: Op)
    ensures Run(log, ops + [a, b]) == Append(Append(Run(log, ops), a), b)
  {
    hide Append, EventOf;
    assert (ops + [a, b])[..|ops| + 1] == ops + [a];
    assert (ops + [a])[..|ops|] == ops;
  }

  /** The delay before the retry after failure number `k`. */
  function Delay(base: real, k: nat): real
    requires k >= 1
  {
    base * Power2(k - 1) as real
  }

  /**
   From any ledger that accepts the enqueue, `k` start-and-fail rounds leave the work waiting while `k` is below
   the budget and dead from failure number `maxAttempts` on; failure `k` waits for `base * 2^(k-1)`.
   */
  lemma {:induction false} DeadExactlyAtTheBudget(log: seq<Event>, item: Item, maxAttempts: int, base: real, times: nat -> real, k: nat)
    requires EnqueueError(Latest(log), item).None? && maxAttempts >= 1
    ensures var after := Latest(Run(log, Cycle(item, maxAttempts, base, times, k)));
            && item.workId in after
            && var e := after[item.workId];
               && e.workId == item.workId && e.attempt == k && e.maxAttempts == maxAttempts && e.item == item
               && (e.status.Dead? <==> k >= maxAttempts)
               && (0 < k < maxAttempts ==>
                     && e.status.RetryWait?
                     && (base >= 0.0 && times(2 * k) >= 0.0 ==> e.nextAfter == times(2 * k) + Delay(base, k)))
  {
    var w := item.workId;
    if k == 0 {
      hide EnqueueError, Latest;
      var op := Enqueued(item, maxAttempts, times(0));
      assert [op][..0] == [];
      assert Run(log, [op]) == Append(Run(log, []), op);
      AppendUpdatesOneKey(log, op);
    } else {
      hide EnqueueError, Latest, Run, Append, EventOf, Delay;
      DeadExactlyAtTheBudget(log, item, maxAttempts, base, times, k - 1);
      var before := Run(log, Cycle(item, maxAttempts, base, times, k - 1));
      var a, b := Started(w, times(2 * k - 1)), FailedOp(w, "failed", true, base, times(2 * k));
      RunTwo(log, Cycle(item, maxAttempts, base, times, k - 1), a, b);
      RoundStep(before, Latest(before)[w], times(2 * k - 1), times(2 * k), base);
    }
  }

  /** One start and one retryable failure of work whose latest entry is `e`. */
  lemma RoundStep(log: seq<Event>, e: Entry, started: real, failed: real, base: real)
    requires e.workId == e.item.workId && e.workId in Latest(log) && Latest(log)[e.workId] == e
    requires e.attempt >= 0 && e.maxAttempts >= 1
    ensures var r := Append(Append(log, Started(e.workId, started)), FailedOp(e.workId, "failed", true, base, failed));
            && e.workId in Latest(r)
            && var f := Latest(r)[e.workId];
               && f.workId == e.workId && f.item == e.item && f.attempt == e.attempt + 1 && f.maxAttempts == e.maxAttempts
               && f.status == (if f.attempt < e.maxAttempts then RetryWait else Dead)
               && (f.status.RetryWait? && base >= 0.0 && failed >= 0.0 ==> f.nextAfter == failed + Delay(base, f.attempt))
  {
    var a, b := Started(e.workId, started), FailedOp(e.workId, "failed", true, base, failed);
    AppendUpdatesOneKey(log, a);
    AppendUpdatesOneKey(Append(log, a), b);
    DelayNotNegative(base, e.attempt + 1);
  }

  lemma DelayNotNegative(base: real, k: nat)
    requires k >= 1
    ensures base >= 0.0 ==> Delay(base, k) >= 0.0
  {
  }

  /** The waiting time the log has ordered: from each retry event to the retry time it stores. */
  function Waiting(log: seq<Event>): real {
    if |log| == 0 then 0.0
    else
      var e := log[|log| - 1];
      Waiting(log[..|log| - 1]) + if e.entry.status.RetryWait? then e.entry.nextAfter - e.createdAt else 0.0
  }

  lemma WaitingSnoc(log: seq<Event>, e: Event)
    ensures Waiting(log + [e]) == Waiting(log) + if e.entry.status.RetryWait? then e.entry.nextAfter - e.createdAt else 0.0
  {
    assert (log + [e])[..|log|] == log;
  }

  /** What one round adds to the waiting time. */
  lemma RoundWaits(log: seq<Event>, e: Entry, started: real, failed: real, base: real)
    requires e.workId == e.item.workId && e.workId in Latest(log) && Latest(log)[e.workId] == e
    requires e.attempt >= 0 && e.maxAttempts >= 1 && base >= 0.0 && failed >= 0.0
    ensures var r := Append(Append(log, Started(e.workId, started)), FailedOp(e.workId, "failed", true, base, failed));
            Waiting(r) == Waiting(log) + if e.attempt + 1 < e.maxAttempts then Delay(base, e.attempt + 1) else 0.0
  {
    hide Waiting, Power2;
    var a, b := Started(e.workId, started), FailedOp(e.workId, "failed", true, base, failed);
    var mid := Append(log, a);
    AppendUpdatesOneKey(log, a);
    WaitingSnoc(log, EventOf(log, a).value);
    WaitingSnoc(mid, EventOf(mid, b).value);
    DelayNotNegative(base, e.attempt + 1);
  }

  lemma DelayAdds(base: real, k: nat)
    requires k >= 1
    ensures base * (Power2(k - 1) as real - 1.0) + Delay(base, k) == base * (Power2(k) as real - 1.0)
  {
    assert Power2(k) == 2 * Power2(k - 1);
  }

  lemma EnqueueWaitsNot(log: seq<Event>, item: Item, maxAttempts: int, base: real, times: nat -> real)
    requires EnqueueError(Latest(log), item).None?
    ensures Waiting(Run(log, Cycle(item, maxAttempts, base, times, 0))) == Waiting(log)
  {
    hide Latest, EnqueueError, Waiting;
    var op := Enqueued(item, maxAttempts, times(0));
    assert [op][..0] == [];
    assert Run(log, [op]) == Append(Run(log, []), op);
    WaitingSnoc(log, EventOf(log, op).value);
  }

  lemma RoundOfCycleWaits(log: seq<Event>, item: Item, maxAttempts: int, base: real, times: nat -> real, k: nat)
    requires EnqueueError(Latest(log), item).None? && maxAttempts >= 1 && k >= 1
    requires base >= 0.0 && times(2 * k) >= 0.0
    ensures Waiting(Run(log, Cycle(item, maxAttempts, base, times, k)))
         == Waiting(Run(log, Cycle(item, maxAttempts, base, times, k - 1))) + if k < maxAttempts then Delay(base, k) else 0.0
  {
    hide EnqueueError, Latest, Run, Append, EventOf, Waiting, Delay;
    DeadExactlyAtTheBudget(log, item, maxAttempts, base, times, k - 1);
    var before := Run(log, Cycle(item, maxAttempts, base, times, k - 1));
    var a, b := Started(item.workId, times(2 * k - 1)), FailedOp(item.workId, "failed", true, base, times(2 * k));
    RunTwo(log, Cycle(item, maxAttempts, base, times, k - 1), a, b);
    RoundWaits(before, Latest(before)[item.workId], times(2 * k - 1), times(2 * k), base);
  }

  /**
   All the waiting a work item can be made to do: after `k` rounds the retry events in the log order waiting times
   that sum to `base * (2^k - 1)`, and to `base * (2^(maxAttempts-1) - 1)` from the last allowed failure on.
   */
  lemma {:induction false} BackoffSum(log: seq<Event>, item: Item, maxAttempts: int, base: real, times: nat -> real, k: nat)
    requires EnqueueError(Latest(log), item).None? && maxAttempts >= 1
    requires base >= 0.0 && forall n :: times(n) >= 0.0
    ensures Waiting(Run(log, Cycle(item, maxAttempts, base, times, k)))
         == Waiting(log) + base * (Power2(Min(k, maxAttempts - 1)) as real - 1.0)
  {
    hide EnqueueError, Latest, Run, Waiting, Delay, Cycle;
    if k == 0 {
      EnqueueWaitsNot(log, item, maxAttempts, base, times);
    } else {
      hide Power2;
      BackoffSum(log, item, maxAttempts, base, times, k - 1);
      RoundOfCycleWaits(log, item, maxAttempts, base, times, k);
      DelayAdds(base, k);
    }
  }
}

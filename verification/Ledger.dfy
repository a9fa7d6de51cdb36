/** The durable ledger: an append-only log of work events, folded into the latest entry per work id. */
module Ledger {
  import opened Wrappers
  import opened Sorting
  import opened Owners

  datatype WorkStatus = Queued | Running | RetryWait | Succeeded | Failed | Dead

  datatype Item = Item(workId: string, priority: int, metadata: Metadata)

  datatype Entry = Entry(
    workId: string,
    status: WorkStatus,
    attempt: int,
    maxAttempts: int,
    nextAfter: real,
    reason: string,
    item: Item)

  datatype Event = Event(createdAt: real, entry: Entry)

  datatype LedgerError = InvalidLedgerOwner | LedgerOwnerConflict | UnknownWork

  datatype RetryDecision = RetryDecision(retryable: bool, nextAfter: real, attempt: int, reason: string)

  /** `_owner_from_metadata`: here metadata that is no object is malformed. */
  function LedgerOwner(item: Item): (r: Result<Option<Owner>, OwnerError>)
    ensures item.metadata.Null? || item.metadata.NotObject? ==> r.Err?
    ensures item.metadata.Object? ==> r == OwnerOfObject(item.metadata)
  {
    if item.metadata.Object? then OwnerOfObject(item.metadata) else Err(InvalidOwner)
  }

  /** `_latest_unlocked` as a fold: later events of an id replace earlier ones. */
  function Latest(log: seq<Event>): map<string, Entry> {
    if |log| == 0 then map[]
    else
      var e := log[|log| - 1].entry;
      Latest(log[..|log| - 1])[e.workId := e]
  }

  /** `_event`: attempts, budget and retry time are clamped on the way into the log. */
  function NewEvent(item: Item, status: WorkStatus, attempt: int, maxAttempts: int, nextAfter: real, reason: string, now: real): Event {
    Event(now, Entry(item.workId, status, Max(0, attempt), Max(1, maxAttempts), if nextAfter < 0.0 then 0.0 else nextAfter, reason, item))
  }

  function Power2(n: nat): nat {
    if n == 0 then 1 else 2 * Power2(n - 1)
  }

  // ---------------------------------------------------------------- one operation

  datatype Op =
    | Enqueued(item: Item, maxAttempts: int, now: real)
    | Started(workId: string, now: real)
    | Finished(workId: string, reason: string, now: real)
    | FailedOp(workId: string, reason: string, retryable: bool, base: real, now: real)

  function EnqueueError(latest: map<string, Entry>, item: Item): Option<LedgerError> {
    if LedgerOwner(item).Err? then Some(InvalidLedgerOwner)
    else if item.workId !in latest then None
    else if LedgerOwner(latest[item.workId].item).Err? then Some(InvalidLedgerOwner)
    else if OwnersConflict(LedgerOwner(latest[item.workId].item).value, LedgerOwner(item).value) then Some(LedgerOwnerConflict)
    else None
  }

  predicate CanRetry(e: Entry, retryable: bool) {
    retryable && e.attempt < e.maxAttempts
  }

  function RetryTime(e: Entry, retryable: bool, base: real, now: real): real {
    if CanRetry(e, retryable) then now + base * Power2(Max(0, e.attempt - 1)) as real else 0.0
  }

  /** The event an operation appends, if it is accepted. */
  function EventOf(log: seq<Event>, op: Op): Result<Event, LedgerError> {
    var latest := Latest(log);
    match op
    case Enqueued(item, maxAttempts, now) =>
      if EnqueueError(latest, item).Some? then Err(EnqueueError(latest, item).value)
      else Ok(NewEvent(item, Queued, 0, maxAttempts, 0.0, "queued", now))
    case Started(w, now) =>
      if w !in latest then Err(UnknownWork)
      else Ok(NewEvent(latest[w].item, Running, latest[w].attempt + 1, latest[w].maxAttempts, 0.0, "started", now))
    case Finished(w, reason, now) =>
      if w !in latest then Err(UnknownWork)
      else Ok(NewEvent(latest[w].item, Succeeded, latest[w].attempt, latest[w].maxAttempts, 0.0, reason, now))
    case FailedOp(w, reason, retryable, base, now) =>
      if w !in latest then Err(UnknownWork)
      else
        var e := latest[w];
        Ok(NewEvent(e.item, if CanRetry(e, retryable) then RetryWait else Dead, e.attempt, e.maxAttempts,
                    RetryTime(e, retryable, base, now), reason, now))
  }

  function Append(log: seq<Event>, op: Op): seq<Event> {
    if EventOf(log, op).Ok? then log + [EventOf(log, op).value] else log
  }

  // ---------------------------------------------------------------- due retries

  /** Code-point order on strings. */
  predicate LexLe(a: string, b: string) {
    |a| == 0 || (|b| > 0 && (a[0] < b[0] || (a[0] == b[0] && LexLe(a[1..], b[1..]))))
  }

  predicate DueOrder(a: Entry, b: Entry) {
    a.item.priority < b.item.priority || (a.item.priority == b.item.priority && LexLe(a.workId, b.workId))
  }

  predicate Due(e: Entry, now: real) {
    e.status.RetryWait? && e.nextAfter <= now
  }

  /** Work ids in order of first appearance, as the folded dictionary iterates them. */
  function Ids(log: seq<Event>): (r: seq<string>)
    ensures forall w :: w in r <==> w in Latest(log)
    ensures NoDuplicates(r)
  {
    if |log| == 0 then []
    else
      var r := Ids(log[..|log| - 1]);
      var w := log[|log| - 1].entry.workId;
      if w in r then r else r + [w]
  }

  class DurableWorkLedger {
    var log: seq<Event>

    constructor ()
      ensures log == []
    {
      log := [];
    }

    method LatestUnlocked() returns (states: map<string, Entry>)
      ensures states == Latest(log)
    {
      states := map[];
      for i := 0 to |log|
        invariant states == Latest(log[..i])
      {
        assert log[..i + 1][..i] == log[..i];
        states := states[log[i].entry.workId := log[i].entry];
      }
      assert log[..|log|] == log;
    }

    method RecordEnqueued(item: Item, maxAttempts: int, now: real) returns (r: Result<Entry, LedgerError>)
      modifies this
      ensures var op := Enqueued(item, maxAttempts, now);
              && log == Append(old(log), op)
              && r == match EventOf(old(log), op) { case Ok(e) => Ok(e.entry) case Err(x) => Err(x) }
    {
      var owner := LedgerOwner(item);
      if owner.Err? {
        return Err(InvalidLedgerOwner);
      }
      var latest := LatestUnlocked();
      if item.workId in latest {
        var existing := LedgerOwner(latest[item.workId].item);
        if existing.Err? {
          return Err(InvalidLedgerOwner);
        }
        if OwnersConflict(existing.value, owner.value) {
          return Err(LedgerOwnerConflict);
        }
      }
      var event := NewEvent(item, Queued, 0, maxAttempts, 0.0, "queued", now);
      log := log + [event];
      return Ok(event.entry);
    }

    method RecordStarted(workId: string, now: real) returns (r: Result<Entry, LedgerError>)
      modifies this
      ensures var op := Started(workId, now);
              && log == Append(old(log), op)
              && r == match EventOf(old(log), op) { case Ok(e) => Ok(e.entry) case Err(x) => Err(x) }
    {
      var latest := LatestUnlocked();
      if workId !in latest {
        return Err(UnknownWork);
      }
      var entry := latest[workId];
      var event := NewEvent(entry.item, Running, entry.attempt + 1, entry.maxAttempts, 0.0, "started", now);
      log := log + [event];
      return Ok(event.entry);
    }

    method RecordFinished(workId: string, reason: string, now: real) returns (r: Result<Entry, LedgerError>)
      modifies this
      ensures var op := Finished(workId, reason, now);
              && log == Append(old(log), op)
              && r == match EventOf(old(log), op) { case Ok(e) => Ok(e.entry) case Err(x) => Err(x) }
    {
      var latest := LatestUnlocked();
      if workId !in latest {
        return Err(UnknownWork);
      }
      var entry := latest[workId];
      var event := NewEvent(entry.item, Succeeded, entry.attempt, entry.maxAttempts, 0.0, reason, now);
      log := log + [event];
      return Ok(event.entry);
    }

    /** The decision carries the retry time as computed, before the log clamps it at zero. */
    method RecordFailed(workId: string, reason: string, retryable: bool, base: real, now: real)
      returns (r: Result<RetryDecision, LedgerError>)
      modifies this
      ensures log == Append(old(log), FailedOp(workId, reason, retryable, base, now))
      ensures r == if workId !in Latest(old(log)) then Err(UnknownWork)
                   else var e := Latest(old(log))[workId];
                        Ok(RetryDecision(CanRetry(e, retryable), RetryTime(e, retryable, base, now), e.attempt, reason))
    {
      var latest := LatestUnlocked();
      if workId !in latest {
        return Err(UnknownWork);
      }
      var entry := latest[workId];
      var canRetry := retryable && entry.attempt < entry.maxAttempts;
      var delay := base * Power2(Max(0, entry.attempt - 1)) as real;
      var nextAfter := if canRetry then now + delay else 0.0;
      assert canRetry == CanRetry(entry, retryable);
      assert nextAfter == RetryTime(entry, retryable, base, now);
      log := log + [NewEvent(entry.item, if canRetry then RetryWait else Dead, entry.attempt, entry.maxAttempts, nextAfter, reason, now)];
      return Ok(RetryDecision(canRetry, nextAfter, entry.attempt, reason));
    }

    /** `ready_to_retry`: exactly the entries whose retry time has come, each once, in (priority, work id) order. */
    method ReadyToRetry(now: real) returns (ready: seq<Entry>)
      ensures forall e :: e in ready <==>
                e.workId in Latest(log) && Latest(log)[e.workId] == e && e.status.RetryWait? && e.nextAfter <= now
      ensures forall i, j :: 0 <= i < j < |ready| ==>
                || ready[i].item.priority < ready[j].item.priority
                || (ready[i].item.priority == ready[j].item.priority && LexLe(ready[i].workId, ready[j].workId))
      ensures NoDuplicates(ready)
    {
      var latest := LatestUnlocked();
      var ids := Ids(log);
      var due: seq<Entry> := [];
      LatestKeys(log);
      for i := 0 to |ids|
        invariant forall e :: e in due <==> e.workId in ids[..i] && latest[e.workId] == e && Due(e, now)
        invariant NoDuplicates(due)
      {
        assert ids[i] !in ids[..i];
        assert ids[..i + 1] == ids[..i] + [ids[i]] && ids[i] in ids;
        var e := latest[ids[i]];
        if Due(e, now) {
          due := due + [e];
        }
      }
      assert ids[..|ids|] == ids;
      var le := (a: Entry, b: Entry) => DueOrder(a, b);
      ready := Sort(due, le);
      SortMembers(due, le);
      SortNoDuplicates(due, le);
      DueOrderIsTotal();
      SortSorted(due, le);
      assert forall i, j :: 0 <= i < j < |ready| ==> le(ready[i], ready[j]);
    }
  }

  lemma {:induction false} LatestKeys(log: seq<Event>)
    ensures forall w :: w in Latest(log) ==> Latest(log)[w].workId == w
  {
    if |log| > 0 {
      LatestKeys(log[..|log| - 1]);
    }
  }

  /** Shorter by an end, or smaller at the first difference. */
  lemma {:induction false} LexMeans(a: string, b: string)
    ensures LexLe(a, b) <==>
              exists n :: 0 <= n <= |a| && n <= |b| && a[..n] == b[..n] && (n == |a| || (n < |b| && a[n] < b[n]))
  {
    if |a| > 0 && |b| > 0 && a[0] == b[0] {
      LexMeans(a[1..], b[1..]);
      if n :| 0 <= n <= |a| - 1 && n <= |b| - 1 && a[1..][..n] == b[1..][..n]
              && (n == |a| - 1 || (n < |b| - 1 && a[1..][n] < b[1..][n])) {
        assert a[..n + 1] == [a[0]] + a[1..][..n] && b[..n + 1] == [b[0]] + b[1..][..n];
      }
      if n :| 0 <= n <= |a| && n <= |b| && a[..n] == b[..n] && (n == |a| || (n < |b| && a[n] < b[n])) {
        assert n > 0;
        assert a[1..][..n - 1] == a[..n][1..] && b[1..][..n - 1] == b[..n][1..];
      }
    } else if |a| == 0 {
      assert a[..0] == b[..0];
    } else if |b| > 0 && a[0] < b[0] {
      assert a[..0] == b[..0];
    } else if n :| 0 <= n <= |a| && n <= |b| && a[..n] == b[..n] && (n == |a| || (n < |b| && a[n] < b[n])) {
      assert n > 0 ==> a[..n][0] == b[..n][0];
    }
  }

  lemma {:induction false} LexTotal(a: string, b: string)
    ensures LexLe(a, b) || LexLe(b, a)
  {
    if |a| > 0 && |b| > 0 {
      LexTotal(a[1..], b[1..]);
    }
  }

  lemma {:induction false} LexTransitive(a: string, b: string, c: string)
    requires LexLe(a, b) && LexLe(b, c)
    ensures LexLe(a, c)
  {
    if |a| > 0 && a[0] == b[0] == c[0] {
      LexTransitive(a[1..], b[1..], c[1..]);
    }
  }

  lemma DueOrderIsTotal()
    ensures TotalPreorder((a: Entry, b: Entry) => DueOrder(a, b))
  {
    forall a: Entry, b: Entry
      ensures DueOrder(a, b) || DueOrder(b, a)
    {
      LexTotal(a.workId, b.workId);
    }
    forall a: Entry, b: Entry, c: Entry | DueOrder(a, b) && DueOrder(b, c)
      ensures DueOrder(a, c)
    {
      if LexLe(a.workId, b.workId) && LexLe(b.workId, c.workId) {
        LexTransitive(a.workId, b.workId, c.workId);
      }
    }
  }
}

/** The table-backed queue: rows in rowid order, admission sequences, owner isolation, and the resequencing migration. */
module SqlQueue {
  import opened Wrappers
  import opened Owners
  import Resequencing
  import Settling

  datatype RowStatus = Pending | Running

  /** `metadata` is `None` when the stored JSON does not parse. */
  datatype Row = Row(
    workId: string,
    prompt: string,
    surface: string,
    priority: int,
    status: RowStatus,
    metadata: Option<Metadata>,
    sequence: int)

  datatype Request = Request(workId: string, prompt: string, surface: string, priority: int, metadata: Metadata)

  datatype EnqueueReply = Accepted(sequence: int) | InvalidQueueOwner | QueueOwnerConflict | MissingField

  /** `_queue_owner_from_metadata`: null metadata is ownerless here. */
  function QueueOwner(m: Metadata): (r: Result<Option<Owner>, OwnerError>)
    ensures m.Null? ==> r == Ok(None)
    ensures m.NotObject? ==> r.Err?
    ensures m.Object? ==> r == OwnerOfObject(m)
  {
    match m
    case Null => Ok(None)
    case NotObject => Err(InvalidOwner)
    case Object(_, _, _) => OwnerOfObject(m)
  }

  function StoredOwner(row: Row): Result<Option<Owner>, OwnerError> {
    if row.metadata.None? then Err(InvalidOwner) else QueueOwner(row.metadata.value)
  }

  // ---------------------------------------------------------------- the table

  /** The row of this work id, or the number of rows. */
  function RowOf(rows: seq<Row>, workId: string): (k: nat)
    ensures k <= |rows|
    ensures k < |rows| ==> rows[k].workId == workId
    ensures k == |rows| ==> forall i :: 0 <= i < |rows| ==> rows[i].workId != workId
  {
    if |rows| == 0 then 0
    else
      var k := RowOf(rows[..|rows| - 1], workId);
      if k < |rows| - 1 then k
      else if rows[|rows| - 1].workId == workId then |rows| - 1
      else |rows|
  }

  /** `COALESCE(MAX(sequence), 0)`. */
  function MaxSequence(rows: seq<Row>): (m: int)
    ensures |rows| == 0 ==> m == 0
    ensures forall i :: 0 <= i < |rows| ==> rows[i].sequence <= m
    ensures |rows| > 0 ==> exists i :: 0 <= i < |rows| && rows[i].sequence == m
  {
    if |rows| == 0 then 0 else MaxOfFirst(rows, |rows|)
  }

  function MaxOfFirst(rows: seq<Row>, n: nat): (m: int)
    requires 0 < n <= |rows|
    ensures forall i :: 0 <= i < n ==> rows[i].sequence <= m
    ensures exists i :: 0 <= i < n && rows[i].sequence == m
  {
    if n == 1 then rows[0].sequence else Max(MaxOfFirst(rows, n - 1), rows[n - 1].sequence)
  }

  /** A request that is refused before the store is even opened. */
  predicate WellFormed(q: Request) {
    q.workId != "" && q.prompt != "" && QueueOwner(q.metadata).Ok?
  }

  function EnqueueAnswer(rows: seq<Row>, q: Request): EnqueueReply {
    if q.workId == "" || q.prompt == "" then MissingField
    else if QueueOwner(q.metadata).Err? then InvalidQueueOwner
    else
      var k := RowOf(rows, q.workId);
      if k == |rows| then Accepted(MaxSequence(rows) + 1)
      else if StoredOwner(rows[k]).Err? then InvalidQueueOwner
      else if OwnersConflict(StoredOwner(rows[k]).value, QueueOwner(q.metadata).value) then QueueOwnerConflict
      else Accepted(rows[k].sequence)
  }

  /** The row an accepted request leaves behind; a requeue keeps the stored sequence. */
  function Admitted(q: Request, sequence: int): Row {
    Row(q.workId, q.prompt, if q.surface == "" then "api" else q.surface, q.priority, Pending, Some(q.metadata), sequence)
  }

  function AfterEnqueue(rows: seq<Row>, q: Request): seq<Row> {
    match EnqueueAnswer(rows, q)
    case Accepted(sequence) =>
      var k := RowOf(rows, q.workId);
      if k == |rows| then rows + [Admitted(q, sequence)] else rows[k := Admitted(q, sequence)]
    case _ => rows
  }

  /** `ORDER BY priority, sequence`, ties in rowid order. */
  predicate Precedes(rows: seq<Row>, i: nat, j: nat)
    requires i < |rows| && j < |rows|
  {
    var a, b := rows[i], rows[j];
    a.priority < b.priority
    || (a.priority == b.priority && (a.sequence < b.sequence || (a.sequence == b.sequence && i < j)))
  }

  /** The first pending row among the first `n` in queue order, or the number of rows. */
  function FirstPending(rows: seq<Row>, n: nat): (k: nat)
    requires n <= |rows|
    ensures k < n || k == |rows|
    ensures k < |rows| ==> rows[k].status.Pending?
    ensures forall i :: 0 <= i < n && rows[i].status.Pending? ==> k < |rows| && (i == k || Precedes(rows, k, i))
  {
    if n == 0 then |rows|
    else
      var k := FirstPending(rows, n - 1);
      if !rows[n - 1].status.Pending? then k
      else if k == |rows| || Precedes(rows, n - 1, k) then n - 1
      else k
  }

  function AfterDequeue(rows: seq<Row>): (r: seq<Row>)
    ensures |r| == |rows|
  {
    var k := FirstPending(rows, |rows|);
    if k < |rows| then rows[k := rows[k].(status := Running)] else rows
  }

  // ---------------------------------------------------------------- resequencing

  function Sequences(rows: seq<Row>): (s: seq<int>)
    ensures |s| == |rows|
  {
    seq(|rows|, i requires 0 <= i < |rows| => rows[i].sequence)
  }

  function WithSequences(rows: seq<Row>, s: seq<int>): (r: seq<Row>)
    requires |s| == |rows|
    ensures |r| == |rows|
  {
    seq(|rows|, i requires 0 <= i < |rows| => rows[i].(sequence := s[i]))
  }

  /** What the update statement leaves: it rewrites the rows one by one, and each count sees the rows before it. */
  function Resequenced(rows: seq<Row>): (r: seq<Row>)
    ensures |r| == |rows|
  {
    WithSequences(rows, Resequencing.Updated(Sequences(rows)))
  }

  /** The unique index can be built. */
  predicate SequencesUnique(rows: seq<Row>) {
    forall i, j :: 0 <= i < j < |rows| ==> rows[i].sequence != rows[j].sequence
  }

  datatype Backend = Python | Mirror

  /** What opening the store leaves: a failed migration is rolled back in Python and kept in the mirror. */
  function Opened(rows: seq<Row>, backend: Backend): (r: seq<Row>)
    ensures |r| == |rows|
  {
    if SequencesUnique(rows) then rows
    else if backend.Mirror? || SequencesUnique(Resequenced(rows)) then Resequenced(rows)
    else rows
  }

  /** The atomic steps of the calls: every call opens the store before its one transaction, if it has one. */
  datatype Op = Open(backend: Backend) | Enqueue(q: Request) | Dequeue

  function Apply(rows: seq<Row>, op: Op): seq<Row> {
    match op
    case Open(backend) => Opened(rows, backend)
    case Enqueue(q) => AfterEnqueue(rows, q)
    case Dequeue => AfterDequeue(rows)
  }

  function Run(rows: seq<Row>, ops: seq<Op>): seq<Row> {
    if |ops| == 0 then rows else Apply(Run(rows, ops[..|ops| - 1]), ops[|ops| - 1])
  }

  lemma RunTwo(rows: seq<Row>, a: Op, b: Op)
    ensures Run(rows, [a, b]) == Apply(Apply(rows, a), b)
    ensures Run(rows, []) == rows
  {
    assert [a, b][..1] == [a] && [a][..0] == [];
    assert Run(rows, [a]) == Apply(Run(rows, []), a);
    assert Run(rows, [a, b]) == Apply(Run(rows, [a]), b);
  }

  class Queue {
    const backend: Backend
    var rows: seq<Row>

    constructor (backend: Backend)
      ensures rows == [] && this.backend == backend
    {
      this.backend := backend;
      rows := [];
    }

    /** `_open_db`; `peek` and `status` do no more to the table. */
    method OpenStore() returns (indexed: bool)
      modifies this
      ensures rows == Opened(old(rows), backend)
      ensures indexed <==> SequencesUnique(rows)
    {
      UpdateIsUniqueIff(rows);
      if backend.Python? {
        indexed := EnsureUniqueSequences();
      } else {
        indexed := EnsureUniqueSequencesMirror();
      }
    }

    /** `_enqueue`: the store is opened, then one immediate transaction; a refused request changes nothing in it. */
    method Enqueue(q: Request) returns (reply: EnqueueReply)
      modifies this
      ensures reply == EnqueueAnswer(Opened(old(rows), backend), q)
      ensures rows == Run(old(rows), if WellFormed(q) then [Open(backend), Op.Enqueue(q)] else [])
    {
      RunTwo(rows, Open(backend), Op.Enqueue(q));
      if q.workId == "" || q.prompt == "" {
        return MissingField;
      }
      var newOwner := QueueOwner(q.metadata);
      if newOwner.Err? {
        return InvalidQueueOwner;
      }
      var indexed := OpenStore();
      var k := RowOf(rows, q.workId);
      if k < |rows| {
        var existing := StoredOwner(rows[k]);
        if existing.Err? {
          return InvalidQueueOwner;
        }
        if OwnersConflict(existing.value, newOwner.value) {
          return QueueOwnerConflict;
        }
      }
      var sequence := MaxSequence(rows) + 1;
      if k == |rows| {
        rows := rows + [Admitted(q, sequence)];
      } else {
        rows := rows[k := Admitted(q, rows[k].sequence)];
      }
      return Accepted(rows[k].sequence);
    }

    /** `_dequeue`: opens the store and claims the first pending row in (priority, sequence) order. */
    method Dequeue() returns (r: Option<Row>)
      modifies this
      ensures rows == Run(old(rows), [Open(backend), Op.Dequeue])
      ensures var table := Opened(old(rows), backend);
              var k := FirstPending(table, |table|);
              r == if k < |table| then Some(table[k]) else None
    {
      RunTwo(rows, Open(backend), Op.Dequeue);
      var indexed := OpenStore();
      var k := FirstPending(rows, |rows|);
      if k == |rows| {
        return None;
      }
      r := Some(rows[k]);
      rows := rows[k := rows[k].(status := Running)];
    }

    /** The update statement, in rowid order over the table it is changing. */
    method Resequence()
      modifies this
      ensures rows == Resequenced(old(rows))
    {
      ghost var s := Sequences(rows);
      assert rows == WithSequences(old(rows), s);
      for i := 0 to |rows|
        invariant |rows| == |old(rows)|
        invariant rows == WithSequences(old(rows), Resequencing.Live(s, i))
      {
        assert Sequences(rows) == Resequencing.Live(s, i);
        rows := rows[i := rows[i].(sequence := Resequencing.Rank(Sequences(rows), i))];
      }
    }

    /**
     `_ensure_unique_sequence_index`: resequence only when the index cannot be built as things are; when it cannot be
     built afterwards either, the update is rolled back and the store goes on without the index.
     */
    method EnsureUniqueSequences() returns (indexed: bool)
      modifies this
      ensures indexed <==> SequencesUnique(old(rows)) || Resequencing.RanksCannotOvertake(Sequences(old(rows)))
      ensures indexed ==> SequencesUnique(rows)
      ensures rows == if SequencesUnique(old(rows)) || !indexed then old(rows)
                      else WithSequences(old(rows), Resequencing.Ranks(Sequences(old(rows))))
    {
      if SequencesUnique(rows) {
        return true;
      }
      var before := rows;
      Resequence();
      UpdateIsUniqueIff(before);
      indexed := SequencesUnique(rows);
      if !indexed {
        rows := before;
      }
    }

    /** The mirror commits the update before it tries the index again. */
    method EnsureUniqueSequencesMirror() returns (indexed: bool)
      modifies this
      ensures indexed <==> SequencesUnique(old(rows)) || Resequencing.RanksCannotOvertake(Sequences(old(rows)))
      ensures indexed <==> SequencesUnique(rows)
      ensures rows == if SequencesUnique(old(rows)) then old(rows) else Resequenced(old(rows))
    {
      if SequencesUnique(rows) {
        return true;
      }
      UpdateIsUniqueIff(rows);
      Resequence();
      indexed := SequencesUnique(rows);
    }
  }

  /** Unique sequences within 1..n. */
  ghost predicate Dense(rows: seq<Row>) {
    SequencesUnique(rows) && forall i :: 0 <= i < |rows| ==> 1 <= rows[i].sequence <= |rows|
  }

  /** Numbers 1..n. */
  ghost function Numbers(n: nat): (s: set<int>)
    ensures |s| == n && forall x :: x in s <==> 1 <= x <= n
  {
    if n == 0 then {} else Numbers(n - 1) + {n}
  }

  ghost function SequencesOf(rows: seq<Row>): (s: set<int>)
    ensures forall x :: x in s <==> exists i :: 0 <= i < |rows| && rows[i].sequence == x
  {
    set i | 0 <= i < |rows| :: rows[i].sequence
  }

  lemma SequencesSnoc(rows: seq<Row>)
    requires |rows| > 0
    ensures SequencesOf(rows) == SequencesOf(rows[..|rows| - 1]) + {rows[|rows| - 1].sequence}
  {
    var rest, last := rows[..|rows| - 1], rows[|rows| - 1];
    forall x
      ensures x in SequencesOf(rows) <==> x in SequencesOf(rest) + {last.sequence}
    {
      if x in SequencesOf(rest) {
        var i :| 0 <= i < |rest| && rest[i].sequence == x;
        assert rows[i].sequence == x;
      }
      if x in SequencesOf(rows) {
        var i :| 0 <= i < |rows| && rows[i].sequence == x;
        assert i < |rest| ==> rest[i].sequence == x;
      }
    }
  }

  lemma {:induction false} UniqueCount(rows: seq<Row>)
    requires SequencesUnique(rows)
    ensures |SequencesOf(rows)| == |rows|
  {
    if |rows| > 0 {
      UniqueCount(rows[..|rows| - 1]);
      SequencesSnoc(rows);
      assert rows[|rows| - 1].sequence !in SequencesOf(rows[..|rows| - 1]);
    }
  }

  lemma SubsetOfSameSize(a: set<int>, b: set<int>)
    requires a <= b && |a| == |b|
    ensures a == b
  {
    assert b == a + (b - a);
    assert |b - a| == 0;
  }

  /** The rows of a dense table carry exactly the sequences 1..n. */
  lemma DenseIsExact(rows: seq<Row>)
    requires Dense(rows)
    ensures SequencesOf(rows) == Numbers(|rows|)
    ensures MaxSequence(rows) == |rows|
  {
    UniqueCount(rows);
    SubsetOfSameSize(SequencesOf(rows), Numbers(|rows|));
    assert |rows| in Numbers(|rows|) || |rows| == 0;
  }

  /** The index can be built after the update exactly when no rank overtakes a sequence, and then the ranks are stored. */
  lemma UpdateIsUniqueIff(rows: seq<Row>)
    ensures SequencesUnique(Resequenced(rows)) <==> Resequencing.RanksCannotOvertake(Sequences(rows))
    ensures SequencesUnique(Resequenced(rows)) ==>
              Resequenced(rows) == WithSequences(rows, Resequencing.Ranks(Sequences(rows)))
  {
    hide Resequencing.Updated, Resequencing.RanksCannotOvertake;
    var t := Resequencing.Updated(Sequences(rows));
    Resequencing.UpdateSucceedsIff(Sequences(rows));
    UniqueMeansDistinct(rows, t);
  }

  lemma UniqueMeansDistinct(rows: seq<Row>, t: seq<int>)
    requires |t| == |rows|
    ensures SequencesUnique(WithSequences(rows, t)) <==> Resequencing.Distinct(t)
  {
    var r := WithSequences(rows, t);
    assert forall i :: 0 <= i < |t| ==> r[i].sequence == t[i];
    if SequencesUnique(r) {
      assert forall i, j :: 0 <= i < j < |t| ==> r[i].sequence != r[j].sequence;
    }
  }

  /**
   A migration that succeeds is a bijection of the rows onto 1..n that keeps the (sequence, rowid) order: dequeuing
   serves the same row as before. It succeeds exactly when no rank overtakes a sequence.
   */
  lemma MigrationKeepsOrder(rows: seq<Row>)
    ensures SequencesUnique(Resequenced(rows)) <==> Resequencing.RanksCannotOvertake(Sequences(rows))
    ensures SequencesUnique(Resequenced(rows)) ==>
              var r := Resequenced(rows);
              && Dense(r) && SequencesOf(r) == Numbers(|rows|)
              && (forall i, j :: 0 <= i < |rows| && 0 <= j < |rows| ==> (Precedes(r, i, j) <==> Precedes(rows, i, j)))
              && FirstPending(r, |rows|) == FirstPending(rows, |rows|)
  {
    hide Resequencing.Rank, Resequencing.Updated, Resequencing.RanksCannotOvertake, Dense, Precedes, SequencesOf;
    var r := Resequenced(rows);
    UpdateIsUniqueIff(rows);
    if SequencesUnique(r) {
      RanksDense(rows);
      forall i, j | 0 <= i < |rows| && 0 <= j < |rows|
        ensures Precedes(r, i, j) <==> Precedes(rows, i, j)
      {
        RanksPrecede(rows, i, j);
      }
      DenseIsExact(r);
      SameFirst(rows, r, |rows|);
    }
  }

  lemma RanksDense(rows: seq<Row>)
    ensures Dense(WithSequences(rows, Resequencing.Ranks(Sequences(rows))))
  {
    hide Resequencing.Ranks;
    Resequencing.RanksDistinct(Sequences(rows));
    UniqueMeansDistinct(rows, Resequencing.Ranks(Sequences(rows)));
  }

  lemma RanksPrecede(rows: seq<Row>, i: nat, j: nat)
    requires i < |rows| && j < |rows|
    ensures Precedes(WithSequences(rows, Resequencing.Ranks(Sequences(rows))), i, j) <==> Precedes(rows, i, j)
  {
    hide Resequencing.Rank;
    Resequencing.RankOrder(Sequences(rows), i, j);
    Resequencing.RankOrder(Sequences(rows), j, i);
  }

  /**
   A failed migration that the mirror commits may change which row is served next: pending rows of sequences 10 and 3
   with a running row of sequence 3 between them are left with 3 and 3, and the first now wins the tie.
   */
  lemma FailedMigrationMayReorder(a: Row, b: Row, c: Row)
    requires a.priority == b.priority == c.priority && a.status.Pending? && b.status.Running? && c.status.Pending?
    requires a.sequence == 10 && b.sequence == 3 && c.sequence == 3
    ensures var rows := [a, b, c];
            && !SequencesUnique(Resequenced(rows))
            && FirstPending(rows, 3) == 2 && FirstPending(Resequenced(rows), 3) == 0
  {
    var rows := [a, b, c];
    Resequencing.TieOvertakes();
    assert Sequences(rows) == [10, 3, 3];
    assert Resequenced(rows) == [a.(sequence := 3), b.(sequence := 2), c.(sequence := 3)];
    assert !SequencesUnique(Resequenced(rows)) by {
      assert Resequenced(rows)[0].sequence == Resequenced(rows)[2].sequence;
    }
    FirstOfThree(rows);
    FirstOfThree(Resequenced(rows));
  }

  lemma FirstOfThree(rows: seq<Row>)
    requires |rows| == 3 && rows[0].status.Pending? && rows[1].status.Running? && rows[2].status.Pending?
    ensures FirstPending(rows, 3) == if Precedes(rows, 2, 0) then 2 else 0
  {
    assert FirstPending(rows, 0) == 3;
    assert FirstPending(rows, 1) == 0;
    assert FirstPending(rows, 2) == 0;
  }

  lemma {:induction false} SameFirst(a: seq<Row>, b: seq<Row>, n: nat)
    requires n <= |a| == |b|
    requires forall i :: 0 <= i < |a| ==> a[i].status == b[i].status
    requires forall i, j :: 0 <= i < |a| && 0 <= j < |a| ==> (Precedes(b, i, j) <==> Precedes(a, i, j))
    ensures FirstPending(a, n) == FirstPending(b, n)
  {
    if n > 0 {
      SameFirst(a, b, n - 1);
    }
  }

  // ---------------------------------------------------------------- whole runs

  ghost predicate UniqueIds(rows: seq<Row>) {
    forall i, j :: 0 <= i < j < |rows| ==> rows[i].workId != rows[j].workId
  }

  /** Rows are never removed: what row `i` keeps from one table to a later one. */
  ghost predicate RowsKept(a: seq<Row>, b: seq<Row>) {
    && |a| <= |b|
    && forall i :: 0 <= i < |a| ==> a[i].workId == b[i].workId && StoredOwner(a[i]) == StoredOwner(b[i])
  }

  lemma EnqueueEffect(rows: seq<Row>, q: Request)
    ensures !EnqueueAnswer(rows, q).Accepted? ==> AfterEnqueue(rows, q) == rows
    ensures EnqueueAnswer(rows, q).Accepted? ==>
              var k, sequence := RowOf(rows, q.workId), EnqueueAnswer(rows, q).sequence;
              && QueueOwner(q.metadata).Ok?
              && (k == |rows| ==> sequence == MaxSequence(rows) + 1 && AfterEnqueue(rows, q) == rows + [Admitted(q, sequence)])
              && (k < |rows| ==>
                    && sequence == rows[k].sequence && StoredOwner(rows[k]) == QueueOwner(q.metadata)
                    && AfterEnqueue(rows, q) == rows[k := Admitted(q, sequence)])
  {
    hide MaxSequence, RowOf, QueueOwner, StoredOwner, OwnersConflict, Admitted;
    var k := RowOf(rows, q.workId);
    if k < |rows| && StoredOwner(rows[k]).Ok? && QueueOwner(q.metadata).Ok? {
      ConflictIff(StoredOwner(rows[k]), QueueOwner(q.metadata));
    }
  }

  lemma ConflictIff(a: Result<Option<Owner>, OwnerError>, b: Result<Option<Owner>, OwnerError>)
    requires a.Ok? && b.Ok?
    ensures OwnersConflict(a.value, b.value) <==> a != b
  {
  }

  lemma ClaimKeepsOwner(row: Row)
    ensures StoredOwner(row.(status := Running)) == StoredOwner(row)
  {
  }

  lemma AdmittedOwner(q: Request, sequence: int)
    ensures StoredOwner(Admitted(q, sequence)) == QueueOwner(q.metadata)
  {
  }

  lemma OpeningKeeps(rows: seq<Row>, backend: Backend)
    ensures forall i :: 0 <= i < |rows| ==> Opened(rows, backend)[i] == rows[i].(sequence := Opened(rows, backend)[i].sequence)
  {
    hide Resequencing.Updated, SequencesUnique;
  }

  lemma OpeningKeepsOwner(row: Row, sequence: int)
    ensures StoredOwner(row.(sequence := sequence)) == StoredOwner(row)
  {
  }

  lemma ApplyKeepsRows(rows: seq<Row>, op: Op)
    requires UniqueIds(rows)
    ensures UniqueIds(Apply(rows, op)) && RowsKept(rows, Apply(rows, op))
  {
    hide FirstPending, QueueOwner, EnqueueAnswer, AfterEnqueue, StoredOwner, MaxSequence, Opened;
    match op
    case Open(backend) =>
      OpeningKeeps(rows, backend);
      forall i | 0 <= i < |rows|
        ensures StoredOwner(Opened(rows, backend)[i]) == StoredOwner(rows[i])
      {
        OpeningKeepsOwner(rows[i], Opened(rows, backend)[i].sequence);
      }
    case Enqueue(q) =>
      EnqueueEffect(rows, q);
      AdmittedOwner(q, MaxSequence(rows) + 1);
      AdmittedOwner(q, if RowOf(rows, q.workId) < |rows| then rows[RowOf(rows, q.workId)].sequence else 0);
    case Dequeue =>
      var k := FirstPending(rows, |rows|);
      if k < |rows| {
        ClaimKeepsOwner(rows[k]);
      }
  }

  /** Over any interleaving of openings (by either backend) and transactions, rows keep their ids and their owners. */
  lemma {:induction false} RunsKeepRows(rows: seq<Row>, ops: seq<Op>)
    requires UniqueIds(rows)
    ensures UniqueIds(Run(rows, ops)) && RowsKept(rows, Run(rows, ops))
  {
    hide Apply, StoredOwner;
    if |ops| > 0 {
      RunsKeepRows(rows, ops[..|ops| - 1]);
      ApplyKeepsRows(Run(rows, ops[..|ops| - 1]), ops[|ops| - 1]);
    }
  }

  // ---------------------------------------------------------------- sequences over a run

  /** The sequences after opening. */
  function OpenedSequences(s: seq<int>, backend: Backend): (r: seq<int>)
    ensures |r| == |s|
  {
    if Resequencing.Distinct(s) then s
    else if backend.Mirror? || Resequencing.Distinct(Resequencing.Updated(s)) then Resequencing.Updated(s)
    else s
  }

  lemma UniqueIsDistinct(rows: seq<Row>)
    ensures SequencesUnique(rows) <==> Resequencing.Distinct(Sequences(rows))
  {
    assert forall i :: 0 <= i < |rows| ==> Sequences(rows)[i] == rows[i].sequence;
    if SequencesUnique(rows) {
      assert forall i, j :: 0 <= i < j < |rows| ==> rows[i].sequence != rows[j].sequence;
    }
  }

  lemma OpeningSequences(rows: seq<Row>, backend: Backend)
    ensures Sequences(Opened(rows, backend)) == OpenedSequences(Sequences(rows), backend)
  {
    hide Resequencing.Updated, Resequencing.Distinct, SequencesUnique;
    UniqueIsDistinct(rows);
    UniqueIsDistinct(Resequenced(rows));
    assert Sequences(Resequenced(rows)) == Resequencing.Updated(Sequences(rows));
  }

  /** A transaction leaves all sequences alone, or adds one that exceeds them all by at least one. */
  lemma TransactionSequences(rows: seq<Row>, op: Op)
    requires !op.Open?
    ensures var s, t := Sequences(rows), Sequences(Apply(rows, op));
            t == s || t == s + [MaxSequence(rows) + 1]
  {
    hide FirstPending, QueueOwner, EnqueueAnswer, AfterEnqueue, StoredOwner, MaxSequence;
    var r := Apply(rows, op);
    if op.Enqueue? {
      EnqueueEffect(rows, op.q);
      if |r| == |rows| {
        assert forall i :: 0 <= i < |rows| ==> r[i].sequence == rows[i].sequence;
      } else {
        assert Sequences(r) == Sequences(rows) + [MaxSequence(rows) + 1];
      }
    } else {
      assert forall i :: 0 <= i < |rows| ==> r[i].sequence == rows[i].sequence;
    }
  }

  /** Rows from `n` on came later: their sequences exceed those of all rows before them. */
  ghost predicate Climbs(s: seq<int>, n: nat) {
    forall i, j :: 0 <= i < j < |s| && n <= j ==> s[i] < s[j]
  }

  /** The sequences of the first rows, with only larger ones added since. */
  ghost predicate Extends(s: seq<int>, t: seq<int>) {
    |s| <= |t| && t[..|s|] == s && Climbs(t, |s|)
  }

  lemma ExtendsStep(rows: seq<Row>, op: Op, s: seq<int>)
    requires !op.Open? && Extends(s, Sequences(rows))
    ensures Extends(s, Sequences(Apply(rows, op)))
  {
    hide MaxSequence, Apply;
    TransactionSequences(rows, op);
    MaxIsMax(rows);
  }

  lemma MaxIsMax(rows: seq<Row>)
    ensures forall i :: 0 <= i < |rows| ==> Sequences(rows)[i] <= MaxSequence(rows)
  {
    hide MaxSequence;
  }

  /** Only the first rows can share sequences. */
  lemma ExtendsDistinct(s: seq<int>, t: seq<int>)
    requires Extends(s, t)
    ensures Resequencing.Distinct(t) <==> Resequencing.Distinct(s)
  {
    forall i, j | 0 <= i < j < |s|
      ensures s[i] == t[i] && s[j] == t[j]
    {
    }
    if Resequencing.Distinct(t) {
      assert forall i, j :: 0 <= i < j < |s| ==> t[i] != t[j];
    }
  }

  /** Once unique, sequences stay as they are, whoever opens the store. */
  lemma {:induction false} UniqueRunsKeepSequences(rows: seq<Row>, ops: seq<Op>)
    requires SequencesUnique(rows)
    ensures Extends(Sequences(rows), Sequences(Run(rows, ops))) && SequencesUnique(Run(rows, ops))
  {
    hide Apply, Opened, Resequencing.Distinct, SequencesUnique, Extends;
    UniqueIsDistinct(rows);
    UniqueIsDistinct(Run(rows, ops));
    if |ops| > 0 {
      var mid, op := Run(rows, ops[..|ops| - 1]), ops[|ops| - 1];
      UniqueRunsKeepSequences(rows, ops[..|ops| - 1]);
      if op.Open? {
        OpenUnique(mid, op.backend);
      } else {
        ExtendsStep(mid, op, Sequences(rows));
      }
    } else {
      ExtendsSelf(Sequences(rows));
    }
    ExtendsDistinct(Sequences(rows), Sequences(Run(rows, ops)));
  }

  lemma ExtendsSelf(s: seq<int>)
    ensures Extends(s, s)
  {
  }

  lemma OpenUnique(rows: seq<Row>, backend: Backend)
    requires SequencesUnique(rows)
    ensures Apply(rows, Open(backend)) == rows
  {
    hide SequencesUnique;
  }

  /** Every opening is Python's, and the first thing that happens is one. */
  ghost predicate PythonCalls(ops: seq<Op>) {
    && (forall i :: 0 <= i < |ops| && ops[i].Open? ==> ops[i].backend.Python?)
    && (|ops| > 0 ==> ops[0].Open?)
  }

  /** The sequences the first opening by Python leaves, for good. */
  function FirstOpening(s: seq<int>): (r: seq<int>)
    ensures |r| == |s|
  {
    if !Resequencing.Distinct(s) && Resequencing.RanksCannotOvertake(s) then Resequencing.Ranks(s) else s
  }

  lemma FirstOpeningIs(s: seq<int>)
    ensures OpenedSequences(s, Python) == FirstOpening(s)
    ensures Resequencing.Distinct(FirstOpening(s)) <==> Resequencing.Distinct(s) || Resequencing.RanksCannotOvertake(s)
  {
    hide Resequencing.Updated, Resequencing.Ranks, Resequencing.Distinct, Resequencing.RanksCannotOvertake;
    Resequencing.UpdateSucceedsIff(s);
  }

  /** A table that extends what the first opening left, and whose migration fails if its sequences are not unique. */
  ghost predicate OpenedBefore(s: seq<int>, t: seq<int>) {
    && Extends(FirstOpening(s), t)
    && (Resequencing.Distinct(t) || !Resequencing.RanksCannotOvertake(t))
  }

  lemma PythonStep(rows: seq<Row>, op: Op, s: seq<int>)
    requires OpenedBefore(s, Sequences(rows)) && (op.Open? ==> op.backend.Python?)
    ensures OpenedBefore(s, Sequences(Apply(rows, op)))
  {
    hide Apply, Opened, MaxSequence, FirstOpening, Extends, Resequencing.Distinct, Resequencing.RanksCannotOvertake;
    var t := Sequences(rows);
    if op.Open? {
      ReopenedIs(rows);
    } else {
      ExtendsStep(rows, op, FirstOpening(s));
      TransactionSequences(rows, op);
      MaxIsMax(rows);
      ExtendsDistinct(FirstOpening(s), t);
      ExtendsDistinct(FirstOpening(s), Sequences(Apply(rows, op)));
      if Sequences(Apply(rows, op)) != t && !Resequencing.Distinct(t) {
        Resequencing.AppendKeepsFailure(t, MaxSequence(rows) + 1);
      }
    }
  }

  lemma ReopenedIs(rows: seq<Row>)
    requires Resequencing.Distinct(Sequences(rows)) || !Resequencing.RanksCannotOvertake(Sequences(rows))
    ensures Sequences(Apply(rows, Open(Python))) == Sequences(rows)
  {
    hide Opened, Resequencing.Distinct, Resequencing.RanksCannotOvertake, Resequencing.Ranks;
    OpeningSequences(rows, Python);
    FirstOpeningIs(Sequences(rows));
  }

  lemma {:induction false} PythonRunsFrom(rows: seq<Row>, ops: seq<Op>)
    requires PythonCalls(ops) && |ops| > 0
    ensures OpenedBefore(Sequences(rows), Sequences(Run(rows, ops)))
  {
    hide Apply, OpenedBefore;
    if |ops| == 1 {
      assert ops[..0] == [];
      FirstStep(rows, ops[0]);
    } else {
      var before := ops[..|ops| - 1];
      assert before[0] == ops[0];
      PythonRunsFrom(rows, before);
      PythonStep(Run(rows, before), ops[|ops| - 1], Sequences(rows));
    }
  }

  lemma FirstStep(rows: seq<Row>, op: Op)
    requires op.Open? && op.backend.Python?
    ensures OpenedBefore(Sequences(rows), Sequences(Apply(rows, op)))
  {
    hide Opened, FirstOpening, Extends, Resequencing.Distinct, Resequencing.RanksCannotOvertake;
    var s := Sequences(rows);
    OpeningSequences(rows, Python);
    FirstOpeningIs(s);
    ExtendsSelf(FirstOpening(s));
    if !Resequencing.Distinct(FirstOpening(s)) {
      FirstOpeningFails(s);
    }
  }

  lemma FirstOpeningFails(s: seq<int>)
    requires !Resequencing.Distinct(FirstOpening(s))
    ensures FirstOpening(s) == s && !Resequencing.RanksCannotOvertake(s)
  {
    hide Resequencing.Distinct, Resequencing.RanksCannotOvertake, Resequencing.Ranks;
    FirstOpeningIs(s);
  }

  /**
   Python's calls, from any table: as soon as there was one, sequences are unique exactly when they were or no rank
   overtakes one. In the second case the first opening stores the ranks; otherwise every row keeps its sequence. Rows
   added since exceed all before them.
   */
  lemma PythonRuns(rows: seq<Row>, ops: seq<Op>)
    requires PythonCalls(ops) && |ops| > 0
    ensures var s, r := Sequences(rows), Run(rows, ops);
            && (SequencesUnique(r) <==> SequencesUnique(rows) || Resequencing.RanksCannotOvertake(s))
            && |rows| <= |r| && Climbs(Sequences(r), |rows|)
            && Sequences(r)[..|rows|] ==
                 (if !SequencesUnique(rows) && Resequencing.RanksCannotOvertake(s) then Resequencing.Ranks(s) else s)
  {
    hide Run, SequencesUnique, PythonCalls, Climbs, Resequencing.Distinct, Resequencing.RanksCannotOvertake, Resequencing.Ranks;
    var s, t := Sequences(rows), Sequences(Run(rows, ops));
    PythonRunsFrom(rows, ops);
    UniqueIsDistinct(rows);
    UniqueIsDistinct(Run(rows, ops));
    FirstOpeningIs(s);
    ExtendsDistinct(FirstOpening(s), t);
  }

  // ---------------------------------------------------------------- the mirror settles

  function MirrorOpenings(ops: seq<Op>): nat {
    if |ops| == 0 then 0
    else MirrorOpenings(ops[..|ops| - 1]) + if ops[|ops| - 1] == Open(Mirror) then 1 else 0
  }

  /** After `k` openings by the mirror: unique, or at most so many numbers are still to be settled. */
  ghost predicate Advanced(t: seq<int>, k: nat) {
    || Resequencing.Distinct(t)
    || k == 0
    || (Settling.Within(t) && |Settling.Unsettled(t)| <= |t| - k)
  }

  lemma AdvanceByOpening(rows: seq<Row>, backend: Backend, k: nat)
    requires Advanced(Sequences(rows), k)
    ensures Advanced(Sequences(Apply(rows, Open(backend))), k + if backend.Mirror? then 1 else 0)
  {
    hide Opened, Resequencing.Distinct, Resequencing.Updated, Settling.Within, Settling.Unsettled;
    var s := Sequences(rows);
    OpeningSequences(rows, backend);
    if backend.Mirror? && !Resequencing.Distinct(s) {
      Settling.UpdatedIsWithin(s);
      if k == 0 {
        var i, j := Settling.Duplicate(s);
        Settling.AtMostAllUnsettled(Resequencing.Updated(s));
      } else {
        Settling.UpdateSettlesOne(s);
      }
    }
  }

  lemma AdvanceByTransaction(rows: seq<Row>, op: Op, k: nat)
    requires Advanced(Sequences(rows), k) && !op.Open?
    ensures Advanced(Sequences(Apply(rows, op)), k)
  {
    hide Apply, MaxSequence, Resequencing.Distinct, Settling.Unsettled;
    var s := Sequences(rows);
    TransactionSequences(rows, op);
    MaxIsMax(rows);
    if Sequences(Apply(rows, op)) == s + [MaxSequence(rows) + 1] {
      AppendDistinct(s, MaxSequence(rows) + 1);
      if Settling.Within(s) {
        MaxWithin(rows);
        Settling.AppendUnsettlesOne(s, MaxSequence(rows) + 1);
      }
    }
  }

  lemma MaxWithin(rows: seq<Row>)
    requires Settling.Within(Sequences(rows))
    ensures 0 <= MaxSequence(rows) <= |rows|
  {
    if |rows| > 0 {
      var i :| 0 <= i < |rows| && rows[i].sequence == MaxSequence(rows);
      assert Sequences(rows)[i] == MaxSequence(rows);
    }
  }

  lemma AppendDistinct(s: seq<int>, x: int)
    requires forall i :: 0 <= i < |s| ==> s[i] < x
    ensures Resequencing.Distinct(s) ==> Resequencing.Distinct(s + [x])
  {
  }

  lemma {:induction false} MirrorAdvances(rows: seq<Row>, ops: seq<Op>)
    ensures Advanced(Sequences(Run(rows, ops)), MirrorOpenings(ops))
  {
    hide Apply, Advanced;
    if |ops| > 0 {
      var mid, op := Run(rows, ops[..|ops| - 1]), ops[|ops| - 1];
      MirrorAdvances(rows, ops[..|ops| - 1]);
      if op.Open? {
        AdvanceByOpening(mid, op.backend, MirrorOpenings(ops[..|ops| - 1]));
      } else {
        AdvanceByTransaction(mid, op, MirrorOpenings(ops[..|ops| - 1]));
      }
    } else {
      NotYet(Sequences(rows));
    }
  }

  lemma NotYet(s: seq<int>)
    ensures Advanced(s, 0)
  {
  }

  /**
   The mirror rewrites a table with duplicates at every opening, and that converges: once it has opened the store as
   often as there are rows, sequences are unique, whatever was enqueued, dequeued or opened by Python in between.
   */
  lemma MirrorSettles(rows: seq<Row>, ops: seq<Op>)
    requires MirrorOpenings(ops) >= |Run(rows, ops)|
    ensures SequencesUnique(Run(rows, ops))
  {
    hide Run, SequencesUnique, Resequencing.Distinct, Settling.Within, Settling.Unsettled;
    var t := Sequences(Run(rows, ops));
    MirrorAdvances(rows, ops);
    UniqueIsDistinct(Run(rows, ops));
    if |t| == 0 {
      NoRows(t);
    } else if Settling.Within(t) {
      Settling.DistinctIffSettled(t);
    }
  }

  lemma NoRows(s: seq<int>)
    requires |s| == 0
    ensures Resequencing.Distinct(s)
  {
  }

  // ---------------------------------------------------------------- dense tables

  /**
   Over any run from a dense table (an empty one, or one whose migration succeeded) the n rows carry exactly the
   sequences 1..n, and every row keeps its sequence.
   */
  lemma {:induction false} RunsStayDense(rows: seq<Row>, ops: seq<Op>)
    requires Dense(rows)
    ensures var r := Run(rows, ops);
            Dense(r) && SequencesOf(r) == Numbers(|r|) && Extends(Sequences(rows), Sequences(r))
  {
    hide Apply, Dense, Extends, SequencesOf;
    if |ops| > 0 {
      var mid := Run(rows, ops[..|ops| - 1]);
      RunsStayDense(rows, ops[..|ops| - 1]);
      DenseStep(mid, ops[|ops| - 1]);
    }
    DenseIsExact(Run(rows, ops));
    DenseIsUnique(rows);
    UniqueRunsKeepSequences(rows, ops);
  }

  lemma DenseIsUnique(rows: seq<Row>)
    requires Dense(rows)
    ensures SequencesUnique(rows)
  {
  }

  lemma DenseStep(rows: seq<Row>, op: Op)
    requires Dense(rows)
    ensures Dense(Apply(rows, op))
  {
    hide Apply, MaxSequence, Dense, SequencesUnique;
    DenseIsExact(rows);
    DenseIsUnique(rows);
    DenseFollowsSequences(rows, Apply(rows, op));
    if op.Open? {
      OpenUnique(rows, op.backend);
    } else {
      TransactionSequences(rows, op);
    }
  }

  lemma DenseFollowsSequences(a: seq<Row>, b: seq<Row>)
    requires Dense(a)
    ensures Sequences(b) == Sequences(a) || Sequences(b) == Sequences(a) + [|a| + 1] ==> Dense(b)
  {
    if Sequences(b) == Sequences(a) || Sequences(b) == Sequences(a) + [|a| + 1] {
      forall i | 0 <= i < |b|
        ensures b[i].sequence == if i < |a| then a[i].sequence else |a| + 1
      {
        assert Sequences(b)[i] == b[i].sequence;
        assert i < |a| ==> Sequences(a)[i] == a[i].sequence;
      }
    }
  }

  /** The row holds what the request asked for. */
  ghost predicate Carries(row: Row, q: Request) {
    && row.prompt == q.prompt && row.priority == q.priority && row.metadata == Some(q.metadata)
    && row.surface == if q.surface == "" then "api" else q.surface
  }

  ghost predicate SamePayload(a: Row, b: Row) {
    a.prompt == b.prompt && a.priority == b.priority && a.metadata == b.metadata && a.surface == b.surface
  }

  /**
   Owner isolation: a request is accepted exactly when it is complete, its owner is valid, and its id is new or
   stored for the same owner. A refusal changes nothing; an acceptance changes only its own row, which then carries what
   was requested, and tells its sequence.
   */
  lemma EnqueueTouchesOneRow(rows: seq<Row>, q: Request)
    requires UniqueIds(rows)
    ensures EnqueueAnswer(rows, q).Accepted? <==>
              && q.workId != "" && q.prompt != "" && QueueOwner(q.metadata).Ok?
              && forall i :: 0 <= i < |rows| && rows[i].workId == q.workId ==> StoredOwner(rows[i]) == QueueOwner(q.metadata)
    ensures !EnqueueAnswer(rows, q).Accepted? ==> AfterEnqueue(rows, q) == rows
    ensures EnqueueAnswer(rows, q).Accepted? ==>
              var r := AfterEnqueue(rows, q); var k := RowOf(r, q.workId);
              && k < |r| && r[k].status.Pending? && r[k].sequence == EnqueueAnswer(rows, q).sequence
              && r[k].workId == q.workId && Carries(r[k], q)
              && (k < |rows| ==> r[k].sequence == rows[k].sequence)
              && (k == |rows| ==> forall i :: 0 <= i < |rows| ==> rows[i].sequence < r[k].sequence)
              && (k == |rows| && Dense(rows) ==> r[k].sequence == |rows| + 1)
              && forall i :: 0 <= i < |rows| && i != k ==> r[i] == rows[i]
  {
    hide MaxSequence, EnqueueAnswer, AfterEnqueue, QueueOwner, StoredOwner, Dense;
    if Dense(rows) {
      DenseIsExact(rows);
    }
    EnqueueEffect(rows, q);
    AcceptedIff(rows, q);
    OnlyRowOf(rows, q.workId);
    if EnqueueAnswer(rows, q).Accepted? {
      OnlyRow(AfterEnqueue(rows, q), RowOf(rows, q.workId), q.workId);
    }
  }

  /** Every refusal gives its reason: a missing field, an owner that does not parse, or a stored owner that differs. */
  lemma RefusalTells(rows: seq<Row>, q: Request)
    requires UniqueIds(rows)
    ensures EnqueueAnswer(rows, q).MissingField? <==> q.workId == "" || q.prompt == ""
    ensures EnqueueAnswer(rows, q).InvalidQueueOwner? <==>
              && q.workId != "" && q.prompt != ""
              && (|| QueueOwner(q.metadata).Err?
                  || exists i :: 0 <= i < |rows| && rows[i].workId == q.workId && StoredOwner(rows[i]).Err?)
    ensures EnqueueAnswer(rows, q).QueueOwnerConflict? <==>
              && q.workId != "" && q.prompt != "" && QueueOwner(q.metadata).Ok?
              && exists i :: 0 <= i < |rows| && rows[i].workId == q.workId
                             && StoredOwner(rows[i]).Ok? && StoredOwner(rows[i]) != QueueOwner(q.metadata)
  {
    hide MaxSequence, QueueOwner, StoredOwner;
    OnlyRowOf(rows, q.workId);
    var k := RowOf(rows, q.workId);
    if k < |rows| && StoredOwner(rows[k]).Ok? && QueueOwner(q.metadata).Ok? {
      ConflictIff(StoredOwner(rows[k]), QueueOwner(q.metadata));
    }
  }

  lemma OnlyRowOf(rows: seq<Row>, w: string)
    requires UniqueIds(rows)
    ensures forall i :: 0 <= i < |rows| && rows[i].workId == w ==> i == RowOf(rows, w)
  {
    var k := RowOf(rows, w);
    assert k < |rows| ==> rows[k].workId == w;
  }

  lemma AcceptedIff(rows: seq<Row>, q: Request)
    ensures var k := RowOf(rows, q.workId);
            EnqueueAnswer(rows, q).Accepted? <==>
              && q.workId != "" && q.prompt != "" && QueueOwner(q.metadata).Ok?
              && (k < |rows| ==> StoredOwner(rows[k]) == QueueOwner(q.metadata))
  {
    hide QueueOwner, StoredOwner, RowOf, MaxSequence;
  }

  lemma OnlyRow(rows: seq<Row>, k: nat, w: string)
    requires k < |rows| && rows[k].workId == w && forall i :: 0 <= i < |rows| && i != k ==> rows[i].workId != w
    ensures RowOf(rows, w) == k
  {
  }

  predicate Accepts(rows: seq<Row>, op: Op, w: string) {
    op.Enqueue? && op.q.workId == w && EnqueueAnswer(rows, op.q).Accepted?
  }

  predicate HandsOut(rows: seq<Row>, op: Op, w: string) {
    op.Dequeue? && FirstPending(rows, |rows|) < |rows| && rows[FirstPending(rows, |rows|)].workId == w
  }

  function AcceptedTimes(rows: seq<Row>, ops: seq<Op>, w: string): nat {
    if |ops| == 0 then 0
    else
      var before := ops[..|ops| - 1];
      AcceptedTimes(rows, before, w) + if Accepts(Run(rows, before), ops[|ops| - 1], w) then 1 else 0
  }

  function HandedOutTimes(rows: seq<Row>, ops: seq<Op>, w: string): nat {
    if |ops| == 0 then 0
    else
      var before := ops[..|ops| - 1];
      HandedOutTimes(rows, before, w) + if HandsOut(Run(rows, before), ops[|ops| - 1], w) then 1 else 0
  }

  ghost predicate IsPending(rows: seq<Row>, w: string) {
    exists i :: 0 <= i < |rows| && rows[i].workId == w && rows[i].status.Pending?
  }

  lemma HandOutStep(rows: seq<Row>, op: Op, w: string)
    requires UniqueIds(rows)
    ensures HandsOut(rows, op, w) ==> IsPending(rows, w) && !IsPending(Apply(rows, op), w)
    ensures !HandsOut(rows, op, w) && !Accepts(rows, op, w) ==> (IsPending(Apply(rows, op), w) ==> IsPending(rows, w))
  {
    hide MaxSequence, RowOf, Opened;
    var r := Apply(rows, op);
    match op
    case Open(backend) =>
      OpeningKeeps(rows, backend);
      assert forall i :: 0 <= i < |rows| ==> r[i].workId == rows[i].workId && r[i].status == rows[i].status;
    case Dequeue =>
      assert forall i :: 0 <= i < |rows| ==> r[i].workId == rows[i].workId && (r[i].status.Pending? ==> rows[i].status.Pending?);
    case Enqueue(_) =>
      if !Accepts(rows, op, w) {
        forall i | 0 <= i < |r| && r[i].workId == w && r[i].status.Pending?
          ensures IsPending(rows, w)
        {
          assert i < |rows| && r[i] == rows[i];
        }
      }
  }

  /** From any store, an id is handed out at most as often as it was accepted, and once more if it was pending. */
  lemma {:induction false} HandedOutAtMostAccepted(rows: seq<Row>, ops: seq<Op>, w: string)
    requires UniqueIds(rows)
    ensures HandedOutTimes(rows, ops, w) + (if IsPending(Run(rows, ops), w) then 1 else 0)
         <= AcceptedTimes(rows, ops, w) + (if IsPending(rows, w) then 1 else 0)
  {
    if |ops| > 0 {
      HandedOutAtMostAccepted(rows, ops[..|ops| - 1], w);
      RunsKeepRows(rows, ops[..|ops| - 1]);
      HandOutStep(Run(rows, ops[..|ops| - 1]), ops[|ops| - 1], w);
    }
  }

  /** What a dequeue serves: a pending row that no other pending row precedes, and only that row changes. */
  lemma DequeueServesTheFirst(rows: seq<Row>)
    ensures var k := FirstPending(rows, |rows|);
            if k == |rows| then
              AfterDequeue(rows) == rows && forall i :: 0 <= i < |rows| ==> rows[i].status.Running?
            else
              && rows[k].status.Pending?
              && (forall i :: 0 <= i < |rows| && rows[i].status.Pending? && i != k ==>
                    rows[k].priority < rows[i].priority
                    || (rows[k].priority == rows[i].priority && rows[k].sequence <= rows[i].sequence))
              && AfterDequeue(rows)[k].status.Running?
              && forall i :: 0 <= i < |rows| && i != k ==> AfterDequeue(rows)[i] == rows[i]
  {
  }

  // ---------------------------------------------------------------- what the rows carry over a run

  /** Step `m` of the run accepts a request for this id, and no later step does. */
  ghost predicate LastAccepted(rows: seq<Row>, ops: seq<Op>, w: string, m: int) {
    && 0 <= m < |ops| && Accepts(Run(rows, ops[..m]), ops[m], w)
    && forall n :: m < n < |ops| ==> !Accepts(Run(rows, ops[..n]), ops[n], w)
  }

  ghost predicate NeverAccepted(rows: seq<Row>, ops: seq<Op>, w: string) {
    forall n :: 0 <= n < |ops| ==> !Accepts(Run(rows, ops[..n]), ops[n], w)
  }

  /** Row `i` carries the last accepted request for its id, and what it began with when there was none. */
  ghost predicate CarriesTheLast(rows: seq<Row>, ops: seq<Op>, i: nat)
    requires i < |Run(rows, ops)|
  {
    var row := Run(rows, ops)[i];
    && (forall m :: LastAccepted(rows, ops, row.workId, m) ==> ops[m].Enqueue? && Carries(row, ops[m].q))
    && (NeverAccepted(rows, ops, row.workId) ==> i < |rows| && SamePayload(row, rows[i]))
  }

  lemma AcceptedStep(rows: seq<Row>, op: Op, i: nat)
    requires UniqueIds(rows) && i < |Apply(rows, op)|
    ensures var row := Apply(rows, op)[i];
            if Accepts(rows, op, row.workId) then op.Enqueue? && Carries(row, op.q)
            else i < |rows| && row.workId == rows[i].workId && SamePayload(row, rows[i])
  {
    hide MaxSequence, FirstPending, EnqueueAnswer, AfterEnqueue, QueueOwner, StoredOwner, Opened;
    match op
    case Open(backend) =>
      OpeningKeeps(rows, backend);
    case Dequeue =>
    case Enqueue(q) =>
      EnqueueTouchesOneRow(rows, q);
      if EnqueueAnswer(rows, q).Accepted? {
        OtherIds(rows, q, i);
      }
  }

  /** After an acceptance only its own row has the id. */
  lemma OtherIds(rows: seq<Row>, q: Request, i: nat)
    requires UniqueIds(rows) && EnqueueAnswer(rows, q).Accepted? && i < |AfterEnqueue(rows, q)|
    ensures var r := AfterEnqueue(rows, q);
            if i == RowOf(r, q.workId) then r[i].workId == q.workId else i < |rows| && r[i].workId != q.workId
  {
    hide MaxSequence, EnqueueAnswer, AfterEnqueue, QueueOwner, StoredOwner;
    EnqueueEffect(rows, q);
    OnlyRowOf(rows, q.workId);
    OnlyRow(AfterEnqueue(rows, q), RowOf(rows, q.workId), q.workId);
  }

  lemma CarriesAccepted(rows: seq<Row>, ops: seq<Op>, i: nat)
    requires |ops| > 0 && i < |Run(rows, ops)|
    requires Accepts(Run(rows, ops[..|ops| - 1]), ops[|ops| - 1], Run(rows, ops)[i].workId)
    requires ops[|ops| - 1].Enqueue? && Carries(Run(rows, ops)[i], ops[|ops| - 1].q)
    ensures CarriesTheLast(rows, ops, i)
  {
    hide Run, Accepts, Carries, SamePayload;
  }

  lemma CarriesKept(rows: seq<Row>, ops: seq<Op>, i: nat)
    requires |ops| > 0 && i < |Run(rows, ops)| && i < |Run(rows, ops[..|ops| - 1])|
    requires !Accepts(Run(rows, ops[..|ops| - 1]), ops[|ops| - 1], Run(rows, ops)[i].workId)
    requires Run(rows, ops)[i].workId == Run(rows, ops[..|ops| - 1])[i].workId
    requires SamePayload(Run(rows, ops)[i], Run(rows, ops[..|ops| - 1])[i])
    requires CarriesTheLast(rows, ops[..|ops| - 1], i)
    ensures CarriesTheLast(rows, ops, i)
  {
    hide Run, Accepts, Carries, SamePayload, NeverAccepted;
    EarlierAcceptance(rows, ops, Run(rows, ops)[i].workId);
    var before := ops[..|ops| - 1];
    var mid, row := Run(rows, before)[i], Run(rows, ops)[i];
    PayloadFollows(mid, row);
    forall m | LastAccepted(rows, ops, row.workId, m)
      ensures ops[m].Enqueue? && Carries(row, ops[m].q)
    {
      assert LastAccepted(rows, before, mid.workId, m);
      assert before[m].Enqueue? && Carries(mid, before[m].q);
    }
    if NeverAccepted(rows, ops, row.workId) {
      assert SamePayload(mid, rows[i]);
    }
  }

  lemma CarriesFromStart(rows: seq<Row>, i: nat)
    requires i < |rows|
    ensures CarriesTheLast(rows, [], i)
  {
  }

  /** Over any run from any store every row carries the last accepted request for its id. */
  lemma {:induction false} RowsCarryTheLast(rows: seq<Row>, ops: seq<Op>, i: nat)
    requires UniqueIds(rows) && i < |Run(rows, ops)|
    ensures CarriesTheLast(rows, ops, i)
  {
    hide Apply, Accepts, Carries, SamePayload, CarriesTheLast;
    if |ops| == 0 {
      CarriesFromStart(rows, i);
    } else {
      var n := |ops| - 1;
      RunsKeepRows(rows, ops[..n]);
      AcceptedStep(Run(rows, ops[..n]), ops[n], i);
      if Accepts(Run(rows, ops[..n]), ops[n], Run(rows, ops)[i].workId) {
        CarriesAccepted(rows, ops, i);
      } else {
        RowsCarryTheLast(rows, ops[..n], i);
        CarriesKept(rows, ops, i);
      }
    }
  }

  lemma PayloadFollows(a: Row, b: Row)
    requires SamePayload(b, a)
    ensures forall q :: Carries(a, q) ==> Carries(b, q)
    ensures forall c :: SamePayload(a, c) ==> SamePayload(b, c)
  {
  }

  /** A last step that accepts nothing for an id leaves its last acceptance where it was. */
  lemma EarlierAcceptance(rows: seq<Row>, ops: seq<Op>, w: string)
    requires |ops| > 0 && !Accepts(Run(rows, ops[..|ops| - 1]), ops[|ops| - 1], w)
    ensures forall m :: LastAccepted(rows, ops, w, m) ==> LastAccepted(rows, ops[..|ops| - 1], w, m) && ops[..|ops| - 1][m] == ops[m]
    ensures NeverAccepted(rows, ops, w) ==> NeverAccepted(rows, ops[..|ops| - 1], w)
  {
    hide Run, Accepts;
    var n := |ops| - 1;
    assert forall m :: 0 <= m < n ==> ops[..n][..m] == ops[..m] && ops[..n][m] == ops[m];
  }

  /**
   What a dequeue serves after any run: the first pending row, with the prompt, priority, metadata and surface of the
   last accepted request for its id, or those it was stored with when none was accepted.
   */
  lemma ServedAsRequested(rows: seq<Row>, ops: seq<Op>)
    requires UniqueIds(rows)
    ensures var r := Run(rows, ops);
            var k := FirstPending(r, |r|);
            k < |r| ==> r[k].status.Pending? && CarriesTheLast(rows, ops, k)
  {
    hide Run, CarriesTheLast;
    var r := Run(rows, ops);
    var k := FirstPending(r, |r|);
    if k < |r| {
      RowsCarryTheLast(rows, ops, k);
    }
  }
}

/** The bounded in-memory queue: a binary heap that evicts its worst entry, seen as "the k best offers". */
module WorkQueue {
  import opened Wrappers
  import opened Sorting

  /** A queued item; entries compare by priority, then by admission sequence, never by the item. */
  datatype Entry = Entry(priority: int, sequence: nat, workId: string)

  predicate Before(a: Entry, b: Entry) {
    a.priority < b.priority || (a.priority == b.priority && a.sequence < b.sequence)
  }

  predicate NotAfter(a: Entry, b: Entry) {
    a.priority < b.priority || (a.priority == b.priority && a.sequence <= b.sequence)
  }

  // ---------------------------------------------------------------- binary heap on a sequence

  function Parent(i: nat): nat
    requires i >= 1
  {
    (i - 1) / 2
  }

  /** Position `j` is not before position `p`. */
  ghost predicate Under(h: seq<Entry>, p: nat, j: nat) {
    p < |h| && j < |h| ==> NotAfter(h[p], h[j])
  }

  ghost predicate HeapFrom(h: seq<Entry>, lo: nat) {
    forall i :: 1 <= i < |h| && lo <= Parent(i) ==> Under(h, Parent(i), i)
  }

  ghost predicate IsHeap(h: seq<Entry>) {
    HeapFrom(h, 0)
  }

  lemma {:induction false} RootIsLeast(h: seq<Entry>, i: nat)
    requires IsHeap(h) && i < |h|
    ensures NotAfter(h[0], h[i])
  {
    if i > 0 {
      RootIsLeast(h, Parent(i));
      assert Under(h, Parent(i), i);
    }
  }

  function Swapped(h: seq<Entry>, i: nat, j: nat): (r: seq<Entry>)
    requires i < |h| && j < |h|
    ensures |r| == |h| && multiset(r) == multiset(h)
    ensures r[i] == h[j] && r[j] == h[i]
    ensures forall k :: 0 <= k < |h| && k != i && k != j ==> r[k] == h[k]
  {
    h[i := h[j]][j := h[i]]
  }

  method HeapPush(h: seq<Entry>, e: Entry) returns (r: seq<Entry>)
    requires IsHeap(h)
    ensures IsHeap(r) && multiset(r) == multiset(h) + multiset{e}
  {
    r := h + [e];
    var i := |h|;
    while i > 0 && !NotAfter(r[Parent(i)], r[i])
      invariant 0 <= i < |r| && multiset(r) == multiset(h) + multiset{e}
      invariant HeapExceptAbove(r, i)
    {
      SiftUpStep(r, i);
      r := Swapped(r, i, Parent(i));
      i := Parent(i);
    }
    assert i > 0 ==> Under(r, Parent(i), i);
  }

  /** A heap but for the entry at `i`, which may be before its parent. */
  ghost predicate HeapExceptAbove(r: seq<Entry>, i: nat) {
    && (forall j :: 1 <= j < |r| && j != i ==> Under(r, Parent(j), j))
    && (forall j :: 1 <= j < |r| && Parent(j) == i && i > 0 ==> Under(r, Parent(i), j))
  }

  lemma SiftUpStep(r: seq<Entry>, i: nat)
    requires 0 < i < |r| && HeapExceptAbove(r, i) && !NotAfter(r[Parent(i)], r[i])
    ensures HeapExceptAbove(Swapped(r, i, Parent(i)), Parent(i))
  {
    var p := Parent(i);
    var s := Swapped(r, i, p);
    forall j | 1 <= j < |s| && j != p
      ensures Under(s, Parent(j), j)
    {
      assert j != i ==> Under(r, Parent(j), j);
      assert Parent(j) == i ==> Under(r, p, j);
    }
    forall j | 1 <= j < |s| && Parent(j) == p && p > 0
      ensures Under(s, Parent(p), j)
    {
      assert Under(r, Parent(p), p);
      assert j != i ==> Under(r, p, j);
    }
  }

  /** A heap from `start` on but for the entry at `i`, which may be after its children. */
  ghost predicate HeapExceptBelow(r: seq<Entry>, start: nat, i: nat) {
    && (forall j :: 1 <= j < |r| && start <= Parent(j) != i ==> Under(r, Parent(j), j))
    && (forall j :: 1 <= j < |r| && Parent(j) == i && i > start && start <= Parent(i) ==> Under(r, Parent(i), j))
  }

  lemma SiftDownStep(r: seq<Entry>, start: nat, i: nat, child: nat)
    requires start <= i < child < |r| && Parent(child) == i && HeapExceptBelow(r, start, i)
    requires forall j :: 1 <= j < |r| && Parent(j) == i ==> Under(r, child, j)
    requires !NotAfter(r[i], r[child])
    ensures HeapExceptBelow(Swapped(r, i, child), start, child)
  {
    var s := Swapped(r, i, child);
    forall j | 1 <= j < |s| && start <= Parent(j) != child
      ensures Under(s, Parent(j), j)
    {
      if Parent(j) == i {
        assert Under(r, child, j);
      } else if j == i {
        assert Under(r, Parent(i), child);
      } else {
        assert Under(r, Parent(j), j);
      }
    }
    forall j | 1 <= j < |s| && Parent(j) == child && child > start && start <= Parent(child)
      ensures Under(s, Parent(child), j)
    {
      assert Under(r, Parent(j), j);
    }
  }

  /** Restores the heap below `start`, everything after it being one already. */
  method SiftDown(h: seq<Entry>, start: nat) returns (r: seq<Entry>)
    requires start < |h| && HeapFrom(h, start + 1)
    ensures HeapFrom(r, start) && multiset(r) == multiset(h) && |r| == |h|
  {
    r := h;
    var i := start;
    while 2 * i + 1 < |r|
      invariant start <= i < |r| == |h| && multiset(r) == multiset(h)
      invariant HeapExceptBelow(r, start, i)
      decreases |r| - i
    {
      var child := 2 * i + 1;
      if child + 1 < |r| && NotAfter(r[child + 1], r[child]) {
        child := child + 1;
      }
      assert forall j :: 1 <= j < |r| && Parent(j) == i ==> Under(r, child, j);
      if NotAfter(r[i], r[child]) {
        assert forall j :: 1 <= j < |r| && Parent(j) == i ==> Under(r, child, j) && Under(r, i, j);
        return;
      }
      SiftDownStep(r, start, i, child);
      r := Swapped(r, i, child);
      i := child;
    }
  }

  method HeapPop(h: seq<Entry>) returns (least: Entry, r: seq<Entry>)
    requires IsHeap(h) && |h| > 0
    ensures IsHeap(r) && multiset(h) == multiset(r) + multiset{least}
    ensures forall e :: e in h ==> NotAfter(least, e)
  {
    forall i | 0 <= i < |h|
      ensures NotAfter(h[0], h[i])
    {
      RootIsLeast(h, i);
    }
    least := h[0];
    var last := h[|h| - 1];
    r := h[..|h| - 1];
    assert h == r + [last];
    if |r| > 0 {
      assert r == [least] + r[1..];
      r := r[0 := last];
      assert r == [last] + r[1..];
      r := SiftDown(r, 0);
    }
  }

  method Heapify(h: seq<Entry>) returns (r: seq<Entry>)
    ensures IsHeap(r) && multiset(r) == multiset(h)
  {
    r := h;
    var i := |h| / 2;
    while i > 0
      invariant 0 <= i <= |h| / 2 && |r| == |h| && HeapFrom(r, i) && multiset(r) == multiset(h)
    {
      i := i - 1;
      r := SiftDown(r, i);
    }
  }

  // ---------------------------------------------------------------- contents and offers

  /** Admitted entries: each once, with a sequence number below `n` of its own. */
  ghost predicate Admitted(s: multiset<Entry>, n: nat) {
    && (forall x :: x in s ==> s[x] == 1 && x.sequence < n)
    && (forall x, y :: x in s && y in s && x.sequence == y.sequence ==> x == y)
  }

  ghost predicate IsWorst(s: multiset<Entry>, w: Entry) {
    w in s && forall x :: x in s ==> NotAfter(x, w)
  }

  ghost predicate IsLeast(s: multiset<Entry>, w: Entry) {
    w in s && forall x :: x in s ==> NotAfter(w, x)
  }

  lemma {:induction false} ExtremesExist(s: multiset<Entry>)
    requires |s| > 0
    ensures exists w :: IsWorst(s, w)
    ensures exists w :: IsLeast(s, w)
    decreases |s|
  {
    var x :| x in s;
    var rest := s - multiset{x};
    assert s == rest + multiset{x};
    if |rest| == 0 {
      assert IsWorst(s, x) && IsLeast(s, x);
    } else {
      ExtremesExist(rest);
      var w :| IsWorst(rest, w);
      var l :| IsLeast(rest, l);
      ExtremesExtend(rest, x, w, l);
    }
  }

  lemma ExtremesExtend(rest: multiset<Entry>, x: Entry, w: Entry, l: Entry)
    requires IsWorst(rest, w) && IsLeast(rest, l)
    ensures IsWorst(rest + multiset{x}, if NotAfter(x, w) then w else x)
    ensures IsLeast(rest + multiset{x}, if NotAfter(l, x) then l else x)
  {
  }

  ghost function Worst(s: multiset<Entry>): (w: Entry)
    requires |s| > 0
    ensures IsWorst(s, w)
  {
    ExtremesExist(s);
    var w :| IsWorst(s, w);
    w
  }

  ghost function Least(s: multiset<Entry>): (w: Entry)
    requires |s| > 0
    ensures IsLeast(s, w)
  {
    ExtremesExist(s);
    var w :| IsLeast(s, w);
    w
  }

  /** Admitting `e` to a queue of capacity `k`: only work of strictly lower priority is evicted. */
  ghost function Offer(s: multiset<Entry>, k: nat, e: Entry): multiset<Entry>
    requires k >= 1
  {
    if |s| < k then s + multiset{e}
    else if e.priority >= Worst(s).priority then s
    else s - multiset{Worst(s)} + multiset{e}
  }

  datatype Admission = Queued | Refused | QueuedAfterEviction(evicted: string)

  ghost function Answer(s: multiset<Entry>, k: nat, e: Entry): Admission
    requires k >= 1
  {
    if |s| < k then Queued
    else if e.priority >= Worst(s).priority then Refused
    else QueuedAfterEviction(Worst(s).workId)
  }

  /** The order in which the contents come out. */
  ghost function DrainOrder(s: multiset<Entry>): seq<Entry>
    decreases |s|
  {
    if |s| == 0 then [] else [Least(s)] + DrainOrder(s - multiset{Least(s)})
  }

  function Ids(s: seq<Entry>): (r: seq<string>)
    ensures |r| == |s|
  {
    seq(|s|, i requires 0 <= i < |s| => s[i].workId)
  }

  // ---------------------------------------------------------------- the queue

  class AgentWorkQueue {
    const maxSize: nat
    var sequence: nat
    var heap: seq<Entry>

    ghost predicate Valid()
      reads this
    {
      maxSize >= 1 && |heap| <= maxSize && IsHeap(heap) && Admitted(multiset(heap), sequence)
    }

    ghost function Contents(): multiset<Entry>
      reads this
    {
      multiset(heap)
    }

    constructor (maxSize: nat)
      requires maxSize >= 1
      ensures Valid() && this.maxSize == maxSize && sequence == 0 && Contents() == multiset{}
    {
      this.maxSize := maxSize;
      sequence, heap := 0, [];
    }

    /** `enqueue`: a full queue evicts only strictly lower-priority work. */
    method Enqueue(priority: int, workId: string) returns (r: Admission)
      requires Valid()
      modifies this
      ensures Valid() && sequence == old(sequence) + 1
      ensures Contents() == Offer(old(Contents()), maxSize, Entry(priority, old(sequence), workId))
      ensures r == Answer(old(Contents()), maxSize, Entry(priority, old(sequence), workId))
    {
      ghost var was := multiset(heap);
      var entry := Entry(priority, sequence, workId);
      OfferAdmitted(was, maxSize, entry);
      assert |was| == |heap|;
      sequence := sequence + 1;
      if |heap| < maxSize {
        heap := HeapPush(heap, entry);
        HeapSize(heap);
        return Queued;
      }
      var worst := WorstIndex();
      OneWorst(was, heap[worst], entry.sequence);
      if entry.priority >= heap[worst].priority {
        return Refused;
      }
      var evicted := heap[worst].workId;
      var replaced := heap[worst := entry];
      assert multiset(replaced) == was - multiset{heap[worst]} + multiset{entry};
      heap := Heapify(replaced);
      HeapSize(heap);
      return QueuedAfterEviction(evicted);
    }

    /** `dequeue`. */
    method Dequeue() returns (r: Option<Entry>)
      requires Valid()
      modifies this`heap
      ensures Valid()
      ensures r.None? <==> |old(Contents())| == 0
      ensures r.Some? ==> r.value == Least(old(Contents())) && Contents() == old(Contents()) - multiset{r.value}
      ensures r.None? ==> Contents() == old(Contents())
    {
      ghost var was := multiset(heap);
      assert |was| == |heap|;
      if |heap| == 0 {
        return None;
      }
      var least, rest := HeapPop(heap);
      heap := rest;
      HeapSize(heap);
      assert multiset(heap) == was - multiset{least};
      assert IsLeast(was, least);
      OneLeast(was, least, sequence);
      return Some(least);
    }

    /** `peek_order`: exactly the ids in the order in which dequeuing will hand them out. */
    method PeekOrder() returns (r: seq<string>)
      requires Valid()
      ensures |r| == |DrainOrder(Contents())| && forall i :: 0 <= i < |r| ==> r[i] == DrainOrder(Contents())[i].workId
    {
      var sorted := Sort(heap, (a: Entry, b: Entry) => NotAfter(a, b));
      SortedIsDrainOrder(heap, sorted, sequence);
      r := Ids(sorted);
    }

    method WorstIndex() returns (w: nat)
      requires |heap| > 0
      ensures w < |heap| && IsWorst(multiset(heap), heap[w])
    {
      w := 0;
      for i := 1 to |heap|
        invariant w < |heap| && forall j :: 0 <= j < i ==> NotAfter(heap[j], heap[w])
      {
        if !NotAfter(heap[i], heap[w]) {
          w := i;
        }
      }
    }
  }

  lemma HeapSize(h: seq<Entry>)
    ensures |multiset(h)| == |h|
  {
  }

  lemma OneWorst(s: multiset<Entry>, w: Entry, n: nat)
    requires Admitted(s, n) && IsWorst(s, w)
    ensures |s| > 0 && Worst(s) == w
  {
    assert s[w] == 1;
    assert multiset{w} <= s;
  }

  lemma OneLeast(s: multiset<Entry>, w: Entry, n: nat)
    requires Admitted(s, n) && IsLeast(s, w)
    ensures |s| > 0 && Least(s) == w
  {
    assert s[w] == 1;
    assert multiset{w} <= s;
  }

  lemma OfferAdmitted(s: multiset<Entry>, k: nat, e: Entry)
    requires k >= 1 && Admitted(s, e.sequence) && |s| <= k
    ensures Admitted(Offer(s, k, e), e.sequence + 1) && |Offer(s, k, e)| <= k
  {
  }

  /**
   The answer tells what happened: room and nothing lost, or full of work that is no less urgent and nothing changed,
   or the id of the last entry in line, which had strictly lower priority and made way.
   */
  lemma AnswerTells(s: multiset<Entry>, k: nat, e: Entry)
    requires k >= 1 && |s| <= k
    ensures match Answer(s, k, e)
            case Queued => |s| < k && Offer(s, k, e) == s + multiset{e}
            case Refused => |s| == k && Offer(s, k, e) == s && forall x :: x in s ==> x.priority <= e.priority
            case QueuedAfterEviction(id) =>
              |s| == k
              && exists w :: w in s && w.workId == id && e.priority < w.priority && Offer(s, k, e) == s - multiset{w} + multiset{e}
                   && forall x :: x in s ==> x.priority < w.priority || (x.priority == w.priority && x.sequence <= w.sequence)
  {
    if |s| == k {
      assert IsWorst(s, Worst(s));
    }
  }

  // ---------------------------------------------------------------- the k best offers

  /** The `i`-th offer as the queue admits it. */
  function EntryOf(offers: seq<(int, string)>, i: nat): (e: Entry)
    requires i < |offers|
    ensures e.priority == offers[i].0 && e.workId == offers[i].1 && e.sequence == i
  {
    Entry(offers[i].0, i, offers[i].1)
  }

  function Offered(offers: seq<(int, string)>): seq<Entry> {
    seq(|offers|, i requires 0 <= i < |offers| => EntryOf(offers, i))
  }

  /** The contents after a run of enqueues into an empty queue. */
  ghost function AfterOffers(k: nat, offers: seq<(int, string)>): multiset<Entry>
    requires k >= 1
  {
    if |offers| == 0 then multiset{}
    else Offer(AfterOffers(k, offers[..|offers| - 1]), k, EntryOf(offers, |offers| - 1))
  }

  /** `s` is the `k` least of `all` (or everything). */
  ghost predicate TopK(s: multiset<Entry>, all: multiset<Entry>, k: nat) {
    && s <= all && |s| == Min(k, |all|)
    && forall x, y :: x in s && y in all - s ==> Before(x, y)
  }

  lemma RoomKeepsTopK(s: multiset<Entry>, all: multiset<Entry>, k: nat, e: Entry)
    requires TopK(s, all, k) && |s| < k
    ensures TopK(s + multiset{e}, all + multiset{e}, k)
  {
    assert |all - s| == 0;
    assert all == s + (all - s) == s;
    assert (all + multiset{e}) - (s + multiset{e}) == multiset{};
  }

  lemma RefusalKeepsTopK(s: multiset<Entry>, all: multiset<Entry>, k: nat, e: Entry, w: Entry)
    requires TopK(s, all, k) && |s| == k && Admitted(all, e.sequence) && IsWorst(s, w) && e.priority >= w.priority
    ensures TopK(s, all + multiset{e}, k)
  {
    var rest := all - s;
    assert (all + multiset{e}) - s == rest + multiset{e};
    forall x, y | x in s && y in rest + multiset{e}
      ensures Before(x, y)
    {
      assert x in all;
      assert y == e || y in rest;
    }
  }

  lemma EvictionKeepsTopK(s: multiset<Entry>, all: multiset<Entry>, k: nat, e: Entry, w: Entry)
    requires TopK(s, all, k) && |s| == k >= 1 && Admitted(all, e.sequence) && IsWorst(s, w) && e.priority < w.priority
    ensures TopK(s - multiset{w} + multiset{e}, all + multiset{e}, k)
  {
    var rest := all - s;
    assert s[w] == 1 by {
      assert w in all && s[w] <= all[w];
    }
    assert (all + multiset{e}) - (s - multiset{w} + multiset{e}) == rest + multiset{w};
    forall x, y | x in s - multiset{w} + multiset{e} && y in rest + multiset{w}
      ensures Before(x, y)
    {
      EvictionOrder(s, rest, all, e, w, x, y);
    }
  }

  lemma EvictionOrder(s: multiset<Entry>, rest: multiset<Entry>, all: multiset<Entry>, e: Entry, w: Entry, x: Entry, y: Entry)
    requires s <= all && Admitted(all, e.sequence) && IsWorst(s, w) && e.priority < w.priority && s[w] == 1
    requires forall a, b :: a in s && b in rest ==> Before(a, b)
    requires x in s - multiset{w} + multiset{e} && y in rest + multiset{w}
    ensures Before(x, y)
  {
    assert x == e || (x in s && x != w);
    assert y == w || y in rest;
    assert x in s ==> x in all;
    assert w in all;
    assert y in rest ==> Before(w, y);
  }

  lemma OfferKeepsTopK(s: multiset<Entry>, all: multiset<Entry>, k: nat, e: Entry)
    requires k >= 1 && TopK(s, all, k) && Admitted(all, e.sequence)
    ensures TopK(Offer(s, k, e), all + multiset{e}, k)
  {
    hide TopK, Admitted;
    TopKSize(s, all, k);
    if |s| < k {
      RoomKeepsTopK(s, all, k, e);
    } else if e.priority >= Worst(s).priority {
      RefusalKeepsTopK(s, all, k, e, Worst(s));
    } else {
      EvictionKeepsTopK(s, all, k, e, Worst(s));
    }
  }

  lemma TopKSize(s: multiset<Entry>, all: multiset<Entry>, k: nat)
    requires TopK(s, all, k)
    ensures |s| <= k
  {
  }

  lemma AllAdmitted(offers: seq<(int, string)>)
    ensures Admitted(multiset(Offered(offers)), |offers|)
  {
    var all := Offered(offers);
    assert NoDuplicates(all);
    MultiplicityOne(all);
  }

  /** After any run of enqueues the queue holds exactly the `k` lexicographically least entries ever offered. */
  lemma {:induction false} QueueHoldsTheBest(k: nat, offers: seq<(int, string)>)
    requires k >= 1
    ensures TopK(AfterOffers(k, offers), multiset(Offered(offers)), k)
    ensures Admitted(AfterOffers(k, offers), |offers|)
  {
    if |offers| > 0 {
      hide TopK, Admitted, Offer, EntryOf, Offered;
      var before := offers[..|offers| - 1];
      var e := EntryOf(offers, |offers| - 1);
      QueueHoldsTheBest(k, before);
      TopKSize(AfterOffers(k, before), multiset(Offered(before)), k);
      AllAdmitted(before);
      OfferKeepsTopK(AfterOffers(k, before), multiset(Offered(before)), k, e);
      OfferedSnoc(offers);
      OfferAdmitted(AfterOffers(k, before), k, e);
    }
  }

  lemma OfferedSnoc(offers: seq<(int, string)>)
    requires |offers| > 0
    ensures var e := EntryOf(offers, |offers| - 1);
            && multiset(Offered(offers)) == multiset(Offered(offers[..|offers| - 1])) + multiset{e}
            && e.sequence == |offers| - 1
  {
    assert Offered(offers) == Offered(offers[..|offers| - 1]) + [EntryOf(offers, |offers| - 1)];
  }

  lemma WithoutLeast(s: multiset<Entry>, l: Entry, n: nat)
    requires Admitted(s, n) && IsLeast(s, l)
    ensures var rest := s - multiset{l};
            && s == rest + multiset{l} && |rest| == |s| - 1 && Admitted(rest, n)
            && forall x :: x in rest ==> Before(l, x)
  {
    assert s[l] == 1;
  }

  /** Strictly increasing. */
  ghost predicate InOrder(s: seq<Entry>) {
    forall i, j :: 0 <= i < j < |s| ==> Before(s[i], s[j])
  }

  lemma InOrderCons(l: Entry, r: seq<Entry>)
    requires InOrder(r) && forall x :: x in multiset(r) ==> Before(l, x)
    ensures InOrder([l] + r)
  {
    hide Before;
    forall j | 0 <= j < |r|
      ensures Before(l, r[j])
    {
      assert r[j] in multiset(r);
    }
  }

  lemma DrainStep(s: multiset<Entry>, l: Entry)
    requires |s| > 0 && Least(s) == l
    ensures DrainOrder(s) == [l] + DrainOrder(s - multiset{l})
  {
  }

  /** Draining hands the contents out in strictly increasing order, each entry once. */
  lemma {:induction false} DrainIsSorted(s: multiset<Entry>, n: nat)
    requires Admitted(s, n)
    ensures multiset(DrainOrder(s)) == s && |DrainOrder(s)| == |s|
    ensures InOrder(DrainOrder(s))
    decreases |s|
  {
    if |s| > 0 {
      hide Admitted, IsLeast, Before, InOrder, DrainOrder;
      var l := Least(s);
      var rest := s - multiset{l};
      DrainStep(s, l);
      WithoutLeast(s, l, n);
      DrainIsSorted(rest, n);
      InOrderCons(l, DrainOrder(rest));
    }
  }

  /** The drained run: the `k` best offers, best first, and nothing that was turned away precedes any of them. */
  lemma DrainedRunIsTheBest(k: nat, offers: seq<(int, string)>)
    requires k >= 1
    ensures var out, all := DrainOrder(AfterOffers(k, offers)), multiset(Offered(offers));
            && |out| == Min(k, |offers|) && multiset(out) <= all
            && InOrder(out)
            && (forall i, y :: 0 <= i < |out| && y in all - multiset(out) ==> Before(out[i], y))
  {
    hide DrainOrder, Before, Admitted, AfterOffers;
    QueueHoldsTheBest(k, offers);
    DrainIsSorted(AfterOffers(k, offers), |offers|);
    var out, all := DrainOrder(AfterOffers(k, offers)), multiset(Offered(offers));
    assert |all| == |Offered(offers)|;
    forall i, y | 0 <= i < |out| && y in all - multiset(out)
      ensures Before(out[i], y)
    {
      assert out[i] in multiset(out);
    }
  }

  /** A sorted list of the contents is the drain order. */
  lemma {:induction false} SortedIsDrainOrder(h: seq<Entry>, sorted: seq<Entry>, n: nat)
    requires Admitted(multiset(h), n)
    requires sorted == Sort(h, (a: Entry, b: Entry) => NotAfter(a, b))
    ensures sorted == DrainOrder(multiset(h))
  {
    hide Admitted, DrainOrder;
    var le := (a: Entry, b: Entry) => NotAfter(a, b);
    SortSorted(h, le);
    assert forall i, j :: 0 <= i < j < |sorted| ==> le(sorted[i], sorted[j]);
    InOrderIsDrainOrder(sorted, n);
  }

  ghost predicate NeverDescends(s: seq<Entry>) {
    forall i, j :: 0 <= i < j < |s| ==> NotAfter(s[i], s[j])
  }

  lemma FirstIsLeast(s: seq<Entry>)
    requires |s| > 0 && NeverDescends(s)
    ensures IsLeast(multiset(s), s[0]) && NeverDescends(s[1..])
    ensures multiset(s[1..]) == multiset(s) - multiset{s[0]}
  {
    assert s == [s[0]] + s[1..];
    forall x | x in multiset(s)
      ensures NotAfter(s[0], x)
    {
      assert x in s;
    }
  }

  lemma TailAdmitted(s: seq<Entry>, n: nat)
    requires |s| > 0 && NeverDescends(s) && Admitted(multiset(s), n)
    ensures Admitted(multiset(s[1..]), n) && |multiset(s)| > 0
    ensures Least(multiset(s)) == s[0]
  {
    hide Admitted, NeverDescends, IsLeast;
    FirstIsLeast(s);
    OneLeast(multiset(s), s[0], n);
    WithoutLeast(multiset(s), s[0], n);
  }

  lemma DrainCons(s: seq<Entry>)
    requires |s| > 0 && |multiset(s)| > 0 && NeverDescends(s)
    requires Least(multiset(s)) == s[0] && DrainOrder(multiset(s[1..])) == s[1..]
    ensures DrainOrder(multiset(s)) == s
  {
    hide NeverDescends, DrainOrder, IsLeast;
    FirstIsLeast(s);
    DrainStep(multiset(s), s[0]);
  }

  lemma {:induction false} InOrderIsDrainOrder(s: seq<Entry>, n: nat)
    requires Admitted(multiset(s), n) && NeverDescends(s)
    ensures s == DrainOrder(multiset(s))
  {
    if |s| > 0 {
      hide Admitted, NeverDescends, IsLeast, DrainOrder;
      TailAdmitted(s, n);
      FirstIsLeast(s);
      InOrderIsDrainOrder(s[1..], n);
      DrainCons(s);
    }
  }
}

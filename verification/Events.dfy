/** Time order over a whole session: the k-way merge, the sort it must agree with, and the timeline
    both of them induce. */
module Events {
  import opened Types
  import opened Sessions

  /** Time first, then instrument, then row. */
  predicate Before(a: Event, b: Event) {
    a.ts < b.ts || (a.ts == b.ts && (a.instrument < b.instrument || (a.instrument == b.instrument && a.row < b.row)))
  }

  ghost predicate InOrder(evs: seq<Event>) {
    forall i, j :: 0 <= i < j < |evs| ==> Before(evs[i], evs[j])
  }

  ghost predicate IsEvent(s: Session, e: Event) {
    e.instrument in s.columns && e.row < |s.columns[e.instrument]| && e.ts == s.columns[e.instrument][e.row].ts
  }

  /** Every observation of the session exactly once, in time order. */
  ghost predicate IsEventOrder(s: Session, evs: seq<Event>) {
    InOrder(evs) && forall e :: e in evs <==> IsEvent(s, e)
  }

  ghost predicate SameEvents(a: seq<Event>, b: seq<Event>) {
    forall e :: e in a <==> e in b
  }

  lemma SameLast(a: seq<Event>, b: seq<Event>)
    requires InOrder(a) && InOrder(b) && SameEvents(a, b) && a != []
    ensures b != [] && a[|a| - 1] == b[|b| - 1]
  {
    assert a[|a| - 1] in b;
    assert b[|b| - 1] in a;
  }

  /** Apart from its last event, everything in `a` is in `b` before its last event. */
  lemma EarlierIsEarlier(a: seq<Event>, b: seq<Event>, e: Event)
    requires InOrder(a) && InOrder(b) && SameEvents(a, b) && a != [] && e in a[..|a| - 1]
    ensures b != [] && e in b[..|b| - 1]
  {
    SameLast(a, b);
    var i :| 0 <= i < |a| - 1 && a[i] == e;
    assert a[i] in b;
    var j :| 0 <= j < |b| && b[j] == e;
    assert b[..|b| - 1][j] == e;
  }

  /** There is only one such sequence, so any two ways of producing it agree. */
  lemma {:induction false} OrderUnique(a: seq<Event>, b: seq<Event>)
    requires InOrder(a) && InOrder(b) && SameEvents(a, b)
    ensures a == b
  {
    assert b != [] ==> b[0] in a;
    if a != [] {
      SameLast(a, b);
      var n, m := |a| - 1, |b| - 1;
      forall e ensures e in a[..n] <==> e in b[..m] {
        if e in a[..n] { EarlierIsEarlier(a, b, e); }
        if e in b[..m] { EarlierIsEarlier(b, a, e); }
      }
      OrderUnique(a[..n], b[..m]);
      assert a == a[..n] + [a[n]] && b == b[..m] + [b[m]];
    }
  }

  /** Earlier times come first; within a time, lower instruments; within an instrument, earlier rows. */
  lemma OrderLaw(s: Session, evs: seq<Event>, i: nat, j: nat)
    requires IsEventOrder(s, evs) && i < j < |evs|
    ensures evs[i].ts <= evs[j].ts
    ensures evs[i].ts == evs[j].ts ==> evs[i].instrument <= evs[j].instrument
    ensures evs[i].ts == evs[j].ts && evs[i].instrument == evs[j].instrument ==> evs[i].row < evs[j].row
  {
    assert Before(evs[i], evs[j]);
  }

  // ----- the sort -----------------------------------------------------------------------------

  function Insert(evs: seq<Event>, e: Event): seq<Event> {
    if evs == [] then [e]
    else if Before(evs[|evs| - 1], e) then evs + [e]
    else Insert(evs[..|evs| - 1], e) + [evs[|evs| - 1]]
  }

  lemma Total(a: Event, b: Event)
    ensures a != b ==> Before(a, b) || Before(b, a)
  {
  }

  lemma {:induction false} InsertAdds(evs: seq<Event>, e: Event)
    ensures forall x :: x in Insert(evs, e) <==> x in evs || x == e
  {
    hide Before;
    if evs != [] && !Before(evs[|evs| - 1], e) {
      InsertAdds(evs[..|evs| - 1], e);
      assert evs == evs[..|evs| - 1] + [evs[|evs| - 1]];
    }
  }

  lemma AllBefore(r: seq<Event>, evs: seq<Event>, e: Event, last: Event)
    requires (forall x :: x in r <==> x in evs || x == e) && InOrder(evs + [last]) && Before(e, last)
    ensures forall i :: 0 <= i < |r| ==> Before(r[i], last)
  {
    hide Before;
    forall i | 0 <= i < |r| ensures Before(r[i], last) {
      assert r[i] in r;
      if r[i] in evs {
        var j :| 0 <= j < |evs| && evs[j] == r[i];
        assert (evs + [last])[j] == r[i] && (evs + [last])[|evs|] == last;
      }
    }
  }

  lemma {:induction false} InsertInOrder(evs: seq<Event>, e: Event)
    requires InOrder(evs) && e !in evs
    ensures InOrder(Insert(evs, e)) && forall x :: x in Insert(evs, e) <==> x in evs || x == e
  {
    InsertAdds(evs, e);
    if evs != [] {
      var n := |evs| - 1;
      assert evs == evs[..n] + [evs[n]];
      if Before(evs[n], e) {
        AppendInOrder(evs, e);
      } else {
        InsertInOrder(evs[..n], e);
        Total(evs[n], e);
        AllBefore(Insert(evs[..n], e), evs[..n], e, evs[n]);
      }
    }
  }

  lemma AppendInOrder(evs: seq<Event>, e: Event)
    requires InOrder(evs) && evs != [] && Before(evs[|evs| - 1], e)
    ensures InOrder(evs + [e])
  {
  }

  /** Collects every row of every instrument and sorts by (time, instrument, row).  The library sort is
      modelled by insertion; `OrderUnique` shows that the choice of sort does not matter. */
  method BuildEventOrder(s: Session) returns (order: seq<Event>, timeline: seq<int>)
    requires Sorted(s)
    ensures IsEventOrder(s, order) && IsTimeline(s, timeline)
  {
    order := [];
    var k := 0;
    while k < |s.ids|
      invariant 0 <= k <= |s.ids| && InOrder(order)
      invariant forall e :: e in order <==> IsEvent(s, e) && e.instrument in s.ids[..k]
    {
      var id := s.ids[k];
      assert id !in s.ids[..k];
      order := AddRows(s, order, id);
      assert s.ids[..k + 1] == s.ids[..k] + [id];
      k := k + 1;
    }
    assert s.ids[..k] == s.ids;
    timeline := DistinctTimes(s, order);
  }

  method AddRows(s: Session, before: seq<Event>, id: int) returns (order: seq<Event>)
    requires id in s.columns && InOrder(before) && forall e :: e in before ==> e.instrument != id
    ensures InOrder(order)
    ensures forall e :: e in order <==> e in before || (IsEvent(s, e) && e.instrument == id)
  {
    order := before;
    var i := 0;
    while i < |s.columns[id]|
      invariant 0 <= i <= |s.columns[id]| && InOrder(order)
      invariant forall e :: e in order <==> e in before || (IsEvent(s, e) && e.instrument == id && e.row < i)
    {
      var e := Event(s.columns[id][i].ts, id, i);
      InsertInOrder(order, e);
      order := Insert(order, e);
      i := i + 1;
    }
  }

  method DistinctTimes(s: Session, order: seq<Event>) returns (timeline: seq<int>)
    requires IsEventOrder(s, order)
    ensures IsTimeline(s, timeline)
  {
    hide TimesOf, InOrder;
    timeline := [];
    NoTimes(order);
    for i := 0 to |order|
      invariant TimesOf(order[..i], timeline)
    {
      assert order[..i + 1] == order[..i] + [order[i]];
      PrefixInOrder(order, i + 1);
      TimesOfStep(order[..i], order[i], timeline);
      if timeline == [] || timeline[|timeline| - 1] != order[i].ts {
        timeline := timeline + [order[i].ts];
      }
    }
    assert order[..|order|] == order;
    TimesAreTimeline(s, order, timeline);
  }

  lemma PrefixInOrder(evs: seq<Event>, n: nat)
    requires InOrder(evs) && n <= |evs|
    ensures InOrder(evs[..n])
  {
  }

  /** `ts` lists the distinct times of `evs`, ascending. */
  ghost predicate TimesOf(evs: seq<Event>, ts: seq<int>) {
    Ascending(ts) && forall t :: t in ts <==> HasTime(evs, t)
  }

  ghost predicate HasTime(evs: seq<Event>, t: int) {
    exists i :: 0 <= i < |evs| && evs[i].ts == t
  }

  lemma TimesOfStep(evs: seq<Event>, e: Event, ts: seq<int>)
    requires TimesOf(evs, ts) && InOrder(evs + [e])
    ensures TimesOf(evs + [e], if ts == [] || ts[|ts| - 1] != e.ts then ts + [e.ts] else ts)
    ensures ts == [] <==> evs == []
    ensures ts != [] ==> ts[|ts| - 1] <= e.ts
  {
    var all := evs + [e];
    assert all[|evs|] == e;
    assert forall i :: 0 <= i < |evs| ==> all[i] == evs[i];
    forall t ensures HasTime(all, t) <==> HasTime(evs, t) || t == e.ts {
      if HasTime(evs, t) {
        var i :| 0 <= i < |evs| && evs[i].ts == t;
        assert all[i].ts == t;
      }
    }
    forall i | 0 <= i < |ts| ensures ts[i] <= e.ts {
      assert ts[i] in ts;
      var j :| 0 <= j < |evs| && evs[j].ts == ts[i];
      assert Before(all[j], all[|evs|]);
    }
    assert evs != [] ==> HasTime(evs, evs[0].ts);
    assert ts != [] ==> ts[0] in ts;
    if ts != [] { assert ts[|ts| - 1] in ts; }
  }

  lemma TimesAreTimeline(s: Session, order: seq<Event>, ts: seq<int>)
    requires IsEventOrder(s, order) && TimesOf(order, ts)
    ensures IsTimeline(s, ts)
  {
    forall t ensures HasTime(order, t) <==> Prints(s, t) {
      if HasTime(order, t) {
        var i :| 0 <= i < |order| && order[i].ts == t;
        assert order[i] in order;
        assert PrintsAt(s, order[i].instrument, t);
      }
      if Prints(s, t) {
        var id :| PrintsAt(s, id, t);
        var r :| 0 <= r < |s.columns[id]| && s.columns[id][r].ts == t;
        assert Event(t, id, r) in order;
        var i :| 0 <= i < |order| && order[i] == Event(t, id, r);
      }
    }
  }

  // ----- the merge ----------------------------------------------------------------------------

  /** One instrument's unread tail. */
  datatype Run = Run(instrument: int, row: nat, end: nat, ts: int)

  predicate RunBefore(a: Run, b: Run) {
    a.ts < b.ts || (a.ts == b.ts && a.instrument < b.instrument)
  }

  ghost predicate RunOk(s: Session, r: Run) {
    && r.instrument in s.columns && r.row < r.end && r.end == |s.columns[r.instrument]|
    && r.ts == s.columns[r.instrument][r.row].ts
  }

  ghost predicate HeapOk(s: Session, heap: seq<Run>) {
    && (forall i :: 0 <= i < |heap| ==> RunOk(s, heap[i]))
    && (forall i, j :: 0 <= i < j < |heap| ==> heap[i].instrument != heap[j].instrument)
  }

  /** Which run the library heap hands out: the least one.  Its array layout is not modelled. */
  function LeastRun(heap: seq<Run>): (i: nat)
    requires heap != []
    ensures i < |heap|
  {
    if |heap| == 1 then 0
    else
      var j := LeastRun(heap[..|heap| - 1]);
      if RunBefore(heap[|heap| - 1], heap[j]) then |heap| - 1 else j
  }

  lemma {:induction false} LeastRunIsLeast(heap: seq<Run>, k: int)
    requires heap != [] && 0 <= k < |heap|
    ensures !RunBefore(heap[k], heap[LeastRun(heap)])
  {
    var n := |heap| - 1;
    if n > 0 {
      LeastRunIsLeast(heap[..n], if k < n then k else 0);
      LeastRunIsLeast(heap[..n], LeastRun(heap[..n]));
    }
  }

  function Unread(r: Run): nat { if r.row < r.end then r.end - r.row else 0 }

  function RunsLeft(heap: seq<Run>): nat {
    if heap == [] then 0 else RunsLeft(heap[..|heap| - 1]) + Unread(heap[|heap| - 1])
  }

  function EventOf(r: Run): Event { Event(r.ts, r.instrument, r.row) }

  /** The heap after its least run has given up one event. */
  function Popped(s: Session, heap: seq<Run>): seq<Run>
    requires heap != []
  {
    var i := LeastRun(heap);
    var r := heap[i];
    if r.row + 1 < r.end && r.row + 1 < |Quotes(s, r.instrument)| then
      heap[i := r.(row := r.row + 1, ts := Quotes(s, r.instrument)[r.row + 1].ts)]
    else heap[..i] + heap[i + 1..]
  }

  lemma {:induction false} RunsLeftConcat(a: seq<Run>, b: seq<Run>)
    ensures RunsLeft(a + b) == RunsLeft(a) + RunsLeft(b)
  {
    if b == [] {
      assert a + b == a;
    } else {
      assert (a + b)[..|a + b| - 1] == a + b[..|b| - 1];
      RunsLeftConcat(a, b[..|b| - 1]);
    }
  }

  lemma RunsLeftAround(heap: seq<Run>, i: nat)
    requires i < |heap|
    ensures RunsLeft(heap) == RunsLeft(heap[..i]) + Unread(heap[i]) + RunsLeft(heap[i + 1..])
  {
    hide Unread;
    assert heap == heap[..i + 1] + heap[i + 1..] && heap[..i + 1][..i] == heap[..i];
    RunsLeftConcat(heap[..i + 1], heap[i + 1..]);
  }

  lemma PoppedSmaller(s: Session, heap: seq<Run>)
    requires heap != [] && HeapOk(s, heap)
    ensures RunsLeft(Popped(s, heap)) < RunsLeft(heap)
  {
    hide RunsLeft, LeastRun, EventOf;
    var i := LeastRun(heap);
    var h' := Popped(s, heap);
    assert RunOk(s, heap[i]);
    RunsLeftAround(heap, i);
    if |h'| == |heap| {
      RunsLeftAround(h', i);
      assert h'[..i] == heap[..i] && h'[i + 1..] == heap[i + 1..];
    } else {
      RunsLeftConcat(heap[..i], heap[i + 1..]);
    }
  }

  /** Everything the merge will still emit, in the order it emits it. */
  ghost function Merge(s: Session, heap: seq<Run>): seq<Event>
    requires HeapOk(s, heap)
    decreases RunsLeft(heap)
  {
    if heap == [] then []
    else
      PoppedSmaller(s, heap);
      PoppedOk(s, heap);
      [EventOf(heap[LeastRun(heap)])] + Merge(s, Popped(s, heap))
  }

  lemma ReplacedOk(s: Session, heap: seq<Run>, i: nat, r: Run)
    requires HeapOk(s, heap) && i < |heap| && RunOk(s, r) && r.instrument == heap[i].instrument
    ensures HeapOk(s, heap[i := r])
  {
    hide RunOk;
  }

  lemma RemovedOk(s: Session, heap: seq<Run>, i: nat)
    requires HeapOk(s, heap) && i < |heap|
    ensures HeapOk(s, heap[..i] + heap[i + 1..])
  {
    hide RunOk;
  }

  lemma PoppedOk(s: Session, heap: seq<Run>)
    requires heap != [] && HeapOk(s, heap)
    ensures HeapOk(s, Popped(s, heap))
  {
    hide LeastRun, HeapOk;
    var i := LeastRun(heap);
    RunFine(s, heap, i);
    var r := heap[i];
    if r.row + 1 < r.end && r.row + 1 < |Quotes(s, r.instrument)| {
      ReplacedOk(s, heap, i, r.(row := r.row + 1, ts := Quotes(s, r.instrument)[r.row + 1].ts));
    } else {
      RemovedOk(s, heap, i);
    }
  }

  lemma RunFine(s: Session, heap: seq<Run>, i: nat)
    requires HeapOk(s, heap) && i < |heap|
    ensures RunOk(s, heap[i])
  {
  }

  /** The event belongs to the unread tail of run `i`. */
  ghost predicate InRun(heap: seq<Run>, i: int, e: Event) {
    0 <= i < |heap| && heap[i].instrument == e.instrument && heap[i].row <= e.row
  }

  /** The event belongs to the unread tail of some run. */
  ghost predicate Ahead(s: Session, heap: seq<Run>, e: Event) {
    IsEvent(s, e) && exists i :: InRun(heap, i, e)
  }

  /** Where run `j` of the heap is once the least run has given up an event. */
  function Shifted(s: Session, heap: seq<Run>, j: int): int
    requires heap != []
  {
    if |Popped(s, heap)| == |heap| || j < LeastRun(heap) then j else j - 1
  }

  lemma StillAhead(s: Session, heap: seq<Run>, e: Event, j: int)
    requires heap != [] && HeapOk(s, heap) && InRun(heap, j, e) && IsEvent(s, e) && e != EventOf(heap[LeastRun(heap)])
    ensures InRun(Popped(s, heap), Shifted(s, heap, j), e)
  {
    hide LeastRun;
  }

  lemma WasAhead(s: Session, heap: seq<Run>, e: Event, j': int)
    requires heap != [] && HeapOk(s, heap) && InRun(Popped(s, heap), j', e)
    ensures var j := if |Popped(s, heap)| == |heap| || j' < LeastRun(heap) then j' else j' + 1;
            InRun(heap, j, e) && e != EventOf(heap[LeastRun(heap)])
  {
    hide LeastRun, RunOk;
  }

  lemma PoppedAhead(s: Session, heap: seq<Run>, e: Event)
    requires heap != [] && HeapOk(s, heap)
    ensures Ahead(s, heap, e) <==> Ahead(s, Popped(s, heap), e) || e == EventOf(heap[LeastRun(heap)])
    ensures Ahead(s, Popped(s, heap), e) ==> e != EventOf(heap[LeastRun(heap)])
  {
    hide InRun, Popped, EventOf;
    LeastIsEvent(s, heap);
    if Ahead(s, heap, e) && e != EventOf(heap[LeastRun(heap)]) {
      var j :| InRun(heap, j, e);
      StillAhead(s, heap, e, j);
    }
    if Ahead(s, Popped(s, heap), e) {
      var j :| InRun(Popped(s, heap), j, e);
      WasAhead(s, heap, e, j);
    }
  }

  lemma LeastIsEvent(s: Session, heap: seq<Run>)
    requires heap != [] && HeapOk(s, heap)
    ensures var e := EventOf(heap[LeastRun(heap)]); IsEvent(s, e) && InRun(heap, LeastRun(heap), e)
  {
  }

  lemma LeastIsFirst(s: Session, heap: seq<Run>, e: Event)
    requires Sorted(s) && heap != [] && HeapOk(s, heap) && Ahead(s, heap, e) && e != EventOf(heap[LeastRun(heap)])
    ensures Before(EventOf(heap[LeastRun(heap)]), e)
  {
    var j :| InRun(heap, j, e);
    LeastRunIsLeast(heap, j);
    assert s.columns[e.instrument][heap[j].row].ts <= s.columns[e.instrument][e.row].ts;
  }

  /** The merge emits exactly the unread events, in time order. */
  lemma {:induction false} MergeMeaning(s: Session, heap: seq<Run>)
    requires Sorted(s) && HeapOk(s, heap)
    ensures InOrder(Merge(s, heap)) && forall e :: e in Merge(s, heap) <==> Ahead(s, heap, e)
    decreases RunsLeft(heap)
  {
    if heap != [] {
      PoppedSmaller(s, heap);
      PoppedOk(s, heap);
      var h' := Popped(s, heap);
      MergeMeaning(s, h');
      var first, rest := EventOf(heap[LeastRun(heap)]), Merge(s, h');
      forall e ensures e in Merge(s, heap) <==> Ahead(s, heap, e) {
        PoppedAhead(s, heap, e);
      }
      forall j | 0 <= j < |rest| ensures Before(first, rest[j]) {
        assert rest[j] in rest;
        PoppedAhead(s, heap, rest[j]);
        LeastIsFirst(s, heap, rest[j]);
      }
    }
  }

  lemma MergeStep(s: Session, heap: seq<Run>)
    requires HeapOk(s, heap)
    ensures heap == [] ==> Merge(s, heap) == []
    ensures heap != [] ==> HeapOk(s, Popped(s, heap)) && Merge(s, heap) != []
                           && Merge(s, heap)[0] == EventOf(heap[LeastRun(heap)]) && Merge(s, heap)[1..] == Merge(s, Popped(s, heap))
  {
    hide HeapOk, Popped, EventOf, LeastRun;
    if heap != [] {
      PoppedOk(s, heap);
      PoppedSmaller(s, heap);
    }
  }

  /** Every instrument's first row, none yet read. */
  ghost predicate Full(s: Session, heap: seq<Run>, k: nat) {
    k <= |s.ids| && |heap| == k && HeapOk(s, heap) && forall i :: 0 <= i < k ==> heap[i].instrument == s.ids[i] && heap[i].row == 0
  }

  lemma EmptyHeap(s: Session)
    ensures Full(s, [], 0)
  {
  }

  lemma FullNext(s: Session, heap: seq<Run>, k: nat)
    requires Sorted(s) && Full(s, heap, k) && k < |s.ids|
    ensures Quotes(s, s.ids[k]) != []
    ensures Full(s, heap + [Run(s.ids[k], 0, |Quotes(s, s.ids[k])|, Quotes(s, s.ids[k])[0].ts)], k + 1)
  {
  }

  method BuildHeap(s: Session) returns (heap: seq<Run>)
    requires Sorted(s)
    ensures Full(s, heap, |s.ids|)
  {
    hide Full, Sorted, Quotes;
    heap := [];
    EmptyHeap(s);
    for k := 0 to |s.ids|
      invariant Full(s, heap, k)
    {
      FullNext(s, heap, k);
      var cols := Quotes(s, s.ids[k]);
      heap := heap + [Run(s.ids[k], 0, |cols|, cols[0].ts)];
    }
  }

  /** Merging from the start emits every event of the session in order. */
  lemma FullHeapMerges(s: Session, heap: seq<Run>)
    requires Sorted(s) && Full(s, heap, |s.ids|)
    ensures HeapOk(s, heap) && IsEventOrder(s, Merge(s, heap))
  {
    hide Merge, InOrder;
    MergeMeaning(s, heap);
    forall e | IsEvent(s, e) ensures Ahead(s, heap, e) {
      var i :| 0 <= i < |s.ids| && s.ids[i] == e.instrument;
      assert InRun(heap, i, e);
    }
  }

  /** Walks a session in time order: along the cached index when there is one, else by merging. */
  class EventCursor {
    const s: Session
    var orderPos: nat
    var heap: seq<Run>
    var now: int
    var emitted: nat

    ghost predicate Valid()
      reads this
    {
      Sorted(s) && orderPos <= |s.order| && HeapOk(s, heap)
    }

    /** Events still to come. */
    ghost function Rest(): seq<Event>
      reads this
      requires Valid()
    {
      if s.order != [] then s.order[orderPos..] else Merge(s, heap)
    }

    constructor (s: Session)
      requires Sorted(s) && (s.order != [] ==> IsEventOrder(s, s.order))
      ensures Valid() && this.s == s && emitted == 0
      ensures IsEventOrder(s, Rest())
    {
      hide IsEventOrder, HeapOk, Sorted, Merge;
      this.s, orderPos, now, emitted := s, 0, 0, 0;
      heap := [];
      new;
      EmptyHeap(s);
      if s.order != [] {
        assert s.order[0..] == s.order;
        return;
      }
      heap := BuildHeap(s);
      FullHeapMerges(s, heap);
    }

    method Next() returns (ev: Option<Event>)
      requires Valid()
      modifies this
      ensures Valid()
      ensures old(Rest()) == [] ==> ev == None && Rest() == [] && emitted == old(emitted)
      ensures old(Rest()) != [] ==>
                ev == Some(old(Rest())[0]) && Rest() == old(Rest())[1..] && now == ev.value.ts && emitted == old(emitted) + 1
    {
      hide Merge, HeapOk, Popped, EventOf, LeastRun;
      if s.order != [] {
        if orderPos >= |s.order| { return None; }
        ev := Some(s.order[orderPos]);
        orderPos := orderPos + 1;
      } else {
        MergeStep(s, heap);
        if heap == [] { return None; }
        ev := Some(EventOf(heap[LeastRun(heap)]));
        heap := Popped(s, heap);
      }
      now := ev.value.ts;
      emitted := emitted + 1;
    }
  }

  /** The k-way merge and the sorted index are the same sequence. */
  lemma MergeEqualsSort(s: Session, heap: seq<Run>, order: seq<Event>)
    requires Sorted(s) && HeapOk(s, heap) && IsEventOrder(s, order)
    requires forall id :: id in s.columns ==> exists i :: 0 <= i < |heap| && heap[i].instrument == id && heap[i].row == 0
    ensures Merge(s, heap) == order
  {
    MergeMeaning(s, heap);
    forall e ensures e in Merge(s, heap) <==> e in order {
      if IsEvent(s, e) {
        var i :| 0 <= i < |heap| && heap[i].instrument == e.instrument && heap[i].row == 0;
        assert InRun(heap, i, e);
      }
    }
    OrderUnique(Merge(s, heap), order);
  }

  /** Seen before the first step; a real observation is later. */
  const NO_TIME: int := -0x8000_0000_0000_0000

  lemma StepTimes(s: Session, order: seq<Event>, i: nat, ts: seq<int>)
    requires IsEventOrder(s, order) && i < |order| && TimesOf(order[..i], ts) && forall t :: Prints(s, t) ==> t > NO_TIME
    ensures TimesOf(order[..i + 1], if order[i].ts != LastTime(ts) then ts + [order[i].ts] else ts)
  {
    assert order[..i + 1] == order[..i] + [order[i]];
    TimesOfStep(order[..i], order[i], ts);
    assert order[i] in order && PrintsAt(s, order[i].instrument, order[i].ts);
    assert Prints(s, order[i].ts);
  }

  function LastTime(ts: seq<int>): int {
    if ts == [] then NO_TIME else ts[|ts| - 1]
  }

  lemma NoTimes(order: seq<Event>)
    ensures TimesOf(order[..0], [])
  {
  }

  /** Walks the whole cursor, keeping each distinct time once. */
  method DeriveSteps(s: Session) returns (steps: seq<int>)
    requires Sorted(s) && (s.order != [] ==> IsEventOrder(s, s.order))
    requires forall t :: Prints(s, t) ==> t > NO_TIME
    ensures IsTimeline(s, steps)
  {
    hide Sorted, TimesOf, IsEventOrder, IsTimeline, Merge, Prints;
    var cursor := new EventCursor(s);
    ghost var order := cursor.Rest();
    var seen := NO_TIME;
    steps := [];
    ghost var i := 0;
    NoTimes(order);
    var ev := cursor.Next();
    while ev.Some?
      invariant cursor.Valid() && fresh(cursor)
      invariant 0 <= i <= |order| && TimesOf(order[..i], steps)
      invariant if ev.Some? then i < |order| && ev.value == order[i] && cursor.Rest() == order[i + 1..] else i == |order|
      invariant seen == LastTime(steps)
      decreases |order| - i
    {
      StepTimes(s, order, i, steps);
      if ev.value.ts != seen {
        seen := ev.value.ts;
        steps := steps + [seen];
      }
      i := i + 1;
      ev := cursor.Next();
    }
    assert order[..i] == order;
    TimesAreTimeline(s, order, steps);
  }

  /** The steps of a replay: the source's own timeline, or one derived by walking the cursor. */
  method ReplaySteps(s: Session) returns (steps: seq<int>)
    requires Sorted(s) && (s.order != [] ==> IsEventOrder(s, s.order)) && (s.timeline != [] ==> IsTimeline(s, s.timeline))
    requires forall t :: Prints(s, t) ==> t > NO_TIME
    ensures IsTimeline(s, steps)
  {
    if s.timeline != [] {
      steps := s.timeline;
    } else {
      steps := DeriveSteps(s);
    }
  }
}

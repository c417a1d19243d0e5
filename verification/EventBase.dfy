/** event.c: adding, deleting, activating and finalizing events, and timeouts. */
module EventBase {
  import opened Bytes
  import opened Queues
  import opened EventQueues
  import opened MinHeap

  function Keys(evs: seq<Ev>): (k: seq<int>)
    ensures |k| == |evs|
    ensures forall e :: 0 <= e < |evs| ==> k[e] == evs[e].deadline
  {
    seq(|evs|, i requires 0 <= i < |evs| => evs[i].deadline)
  }

  /** The heap holds the pending timeouts that are not common ones. */
  ghost predicate HeapHolds(evs: seq<Ev>, pos: seq<int>)
  {
    && |pos| == |evs|
    && forall e :: 0 <= e < |evs| ==> (pos[e] != -1 <==> evs[e].timeout && evs[e].list.None?)
  }

  ghost predicate InList(evs: seq<Ev>, e: nat, i: nat)
  {
    e < |evs| && evs[e].timeout && evs[e].list == Some(i)
  }

  ghost predicate ListOk(evs: seq<Ev>, q: seq<nat>, i: nat)
  {
    NoDup(q) && Sorted(evs, q) && forall e :: e in q <==> InList(evs, e, i)
  }

  /** Each common timeout's queue is sorted and holds the pending timeouts with its tag. */
  ghost predicate ListsOk(evs: seq<Ev>, lists: seq<seq<nat>>)
  {
    forall i :: 0 <= i < |lists| ==> ListOk(evs, lists[i], i)
  }

  ghost predicate InActive(evs: seq<Ev>, e: nat, p: nat)
  {
    e < |evs| && evs[e].active && evs[e].pri == p
  }

  ghost predicate QueueOk(evs: seq<Ev>, q: seq<nat>, p: nat)
  {
    NoDup(q) && forall e :: e in q <==> InActive(evs, e, p)
  }

  /** Each active queue holds the active callbacks of its priority. */
  ghost predicate ActiveOk(evs: seq<Ev>, active: seq<seq<nat>>)
  {
    forall p :: 0 <= p < |active| ==> QueueOk(evs, active[p], p)
  }

  ghost predicate IsLater(evs: seq<Ev>, e: nat)
  {
    e < |evs| && evs[e].later
  }

  ghost predicate LaterOk(evs: seq<Ev>, later: seq<nat>)
  {
    NoDup(later) && forall e :: e in later <==> IsLater(evs, e)
  }

  predicate HasPeriod(v: Ev)
  {
    v.period != 0 || v.periodList.Some?
  }

  /** The flags of one event go together. */
  ghost predicate EvOk(v: Ev, nLists: nat, nQueues: nat)
  {
    && v.pri < nQueues
    && !(v.active && v.later)
    && (v.finalizing ==> !v.inserted && !v.timeout)
    && (v.closure == Finalizer ==> v.finalizing)
    && (v.closure == Persist ==> v.persist)
    && (v.list.Some? ==> v.list.value < nLists)
    && (v.closure == Persist && HasPeriod(v) ==> v.list == v.periodList)
    && (v.timerOf.Some? ==>
          && v.timerOf.value < nLists && v.internal && v.isEvent && !v.persist && !v.io
          && v.closure == Plain && !v.later && !v.finalizing && v.list.None?)
    && (!v.isEvent ==> !v.timeout && !v.inserted && (v.closure == Self || v.closure == Finalizer))
  }

  ghost predicate FlagsOk(evs: seq<Ev>, nLists: nat, nQueues: nat)
  {
    forall e :: 0 <= e < |evs| ==> EvOk(evs[e], nLists, nQueues)
  }

  ghost predicate TimersOk(evs: seq<Ev>, timers: seq<nat>)
  {
    && (forall i :: 0 <= i < |timers| ==> timers[i] < |evs| && evs[timers[i]].timerOf == Some(i))
    && (forall e :: 0 <= e < |evs| && evs[e].timerOf.Some? ==>
          evs[e].timerOf.value < |timers| && timers[evs[e].timerOf.value] == e)
  }

  /** The timer of a queue whose first deadline is d: in the heap in time, or active. */
  ghost predicate Due(v: Ev, d: int)
  {
    (v.timeout && v.deadline <= d) || v.active
  }

  ghost predicate Covered(evs: seq<Ev>, q: seq<nat>, timer: nat, running: int)
  {
    q != [] && q[0] < |evs| && timer < |evs| ==> running == timer || Due(evs[timer], evs[q[0]].deadline)
  }

  /** No timeout is lost: the timer of each common timeout with pending events - x
      excepted - is in the heap in time, or active, or being run. */
  ghost predicate CoveredBut(evs: seq<Ev>, lists: seq<seq<nat>>, timers: seq<nat>, running: int, x: int)
  {
    && |lists| == |timers|
    && forall i :: 0 <= i < |lists| && i != x ==> Covered(evs, lists[i], timers[i], running)
  }

  // What a change to one event leaves alone.

  lemma SameTimes(evs: seq<Ev>, e: nat, v: Ev, lists: seq<seq<nat>>, pos: seq<int>)
    requires e < |evs|
    requires v.timeout == evs[e].timeout && v.list == evs[e].list && v.deadline == evs[e].deadline
    ensures HeapHolds(evs, pos) ==> HeapHolds(evs[e := v], pos)
    ensures ListsOk(evs, lists) ==> ListsOk(evs[e := v], lists)
    ensures Keys(evs[e := v]) == Keys(evs)
  {
    var es := evs[e := v];
    if ListsOk(evs, lists) {
      forall i | 0 <= i < |lists|
        ensures ListOk(es, lists[i], i)
      {
        assert ListOk(evs, lists[i], i);
        assert forall x :: InList(es, x, i) <==> InList(evs, x, i);
      }
    }
    assert Keys(es) == Keys(evs);
  }

  lemma SameActive(evs: seq<Ev>, e: nat, v: Ev, active: seq<seq<nat>>)
    requires e < |evs| && ActiveOk(evs, active) && v.active == evs[e].active && v.pri == evs[e].pri
    ensures ActiveOk(evs[e := v], active)
  {
    var es := evs[e := v];
    forall p | 0 <= p < |active|
      ensures QueueOk(es, active[p], p)
    {
      assert forall x :: InActive(es, x, p) <==> InActive(evs, x, p);
    }
  }

  lemma SameLater(evs: seq<Ev>, e: nat, v: Ev, later: seq<nat>)
    requires e < |evs| && LaterOk(evs, later) && v.later == evs[e].later
    ensures LaterOk(evs[e := v], later)
  {
    var es := evs[e := v];
    assert forall x :: IsLater(es, x) <==> IsLater(evs, x);
  }

  lemma SameFlags(evs: seq<Ev>, e: nat, v: Ev, timers: seq<nat>, nq: nat)
    requires e < |evs| && FlagsOk(evs, |timers|, nq) && TimersOk(evs, timers)
    requires EvOk(v, |timers|, nq) && v.timerOf == evs[e].timerOf
    ensures FlagsOk(evs[e := v], |timers|, nq) && TimersOk(evs[e := v], timers)
  {
  }

  function TimerIndex(v: Ev): int
  {
    if v.timerOf.Some? then v.timerOf.value else -1
  }

  /** A change to an event affects at most the queue it is the timer of. */
  lemma SameCovered(evs: seq<Ev>, e: nat, v: Ev, lists: seq<seq<nat>>, timers: seq<nat>, running: int, x: int)
    requires e < |evs| && CoveredBut(evs, lists, timers, running, x) && TimersOk(evs, timers)
    requires x == -1 || TimerIndex(evs[e]) == -1 || x == TimerIndex(evs[e])
    requires v.deadline == evs[e].deadline || forall i :: 0 <= i < |lists| && lists[i] != [] ==> lists[i][0] != e
    ensures CoveredBut(evs[e := v], lists, timers, running, if TimerIndex(evs[e]) == -1 then x else TimerIndex(evs[e]))
  {
    var es := evs[e := v];
    var y := if TimerIndex(evs[e]) == -1 then x else TimerIndex(evs[e]);
    forall i | 0 <= i < |lists| && i != y
      ensures Covered(es, lists[i], timers[i], running)
    {
      assert Covered(evs, lists[i], timers[i], running);
      assert timers[i] != e;
    }
  }

  /** A timer that is due settles its queue. */
  lemma NowCovered(evs: seq<Ev>, lists: seq<seq<nat>>, timers: seq<nat>, running: int, x: int)
    requires CoveredBut(evs, lists, timers, running, x)
    requires 0 <= x < |lists| ==> Covered(evs, lists[x], timers[x], running)
    ensures CoveredBut(evs, lists, timers, running, -1)
  {
  }

  class Base {
    var evs: seq<Ev>
    const heap: Heap                      // timeheap
    var lists: seq<seq<nat>>              // the events of each common_timeout_list
    const timers: seq<nat>                // the timeout_event of each common_timeout_list
    var active: seq<seq<nat>>             // activequeues
    var later: seq<nat>                   // active_later_queue
    var eventCount: int
    var eventCountActive: int
    var nDeferreds: nat                   // n_deferreds_queued
    var running: int                      // current_event, or -1
    var runningPriority: int
    var eventContinue: bool

    ghost predicate Core()
      reads this`evs, this`lists, this`active, this`later, this`eventCount, this`eventCountActive, heap
    {
      && |lists| == |timers|
      && heap.Valid(Keys(evs))
      && HeapHolds(evs, heap.pos)
      && ListsOk(evs, lists)
      && ActiveOk(evs, active)
      && LaterOk(evs, later)
      && FlagsOk(evs, |timers|, |active|)
      && TimersOk(evs, timers)
      && eventCount == TotalWeight(evs)
      && eventCountActive == TotalLen(active) + |later|
    }

    ghost predicate CoveredExcept(x: int)
      reads this`evs, this`lists, this`running
    {
      CoveredBut(evs, lists, timers, running, x)
    }

    ghost predicate Valid()
      reads this`evs, this`lists, this`active, this`later, this`eventCount, this`eventCountActive, this`running, heap
    {
      Core() && CoveredExcept(-1)
    }

    /** A base with nQueues priorities and common timeouts with the given timers, none
        of whose events has been added. */
    constructor (nQueues: nat, evs: seq<Ev>, timers: seq<nat>)
      requires FlagsOk(evs, |timers|, nQueues) && TimersOk(evs, timers)
      requires forall e :: 0 <= e < |evs| ==> Idle(evs[e])
      ensures Valid() && this.evs == evs && this.timers == timers && |active| == nQueues
      ensures fresh(heap) && heap.n == 0 && heap.p == [] && running == -1
      ensures forall i :: 0 <= i < |lists| ==> lists[i] == []
    {
      this.evs, this.timers := evs, timers;
      lists, active, later := seq(|timers|, _ => []), seq(nQueues, _ => []), [];
      eventCount, eventCountActive, nDeferreds := 0, 0, 0;
      running, runningPriority, eventContinue := -1, -1, false;
      heap := new Heap(|evs|);
      IdleWeight(evs);
      new;
      NoLen(active);
    }

    /** Changes fields that no queue depends on. */
    method SetEv(e: nat, v: Ev, ghost x: int)
      requires Core() && e < |evs| && CoveredExcept(x)
      requires SameQueues(evs[e], v) && EvOk(v, |timers|, |active|) && v.timerOf == evs[e].timerOf
      modifies this`evs
      ensures Core() && CoveredExcept(x) && evs == old(evs)[e := v]
    {
      hide HeapHolds, ListsOk, LaterOk, FlagsOk, TimersOk, Keys, ActiveOk, EvOk, TotalWeight, TotalLen;
      WeightUpdate(evs, e, v);
      Untouched(evs, e, v, lists, heap.pos, active, later);
      SameFlags(evs, e, v, timers, |active|);
      evs := evs[e := v];
    }

    /** event_queue_insert_inserted and event_queue_remove_inserted */
    method SetInserted(e: nat, b: bool, ghost x: int)
      requires Core() && e < |evs| && evs[e].inserted == !b && CoveredExcept(x)
      requires EvOk(evs[e].(inserted := b), |timers|, |active|)
      modifies this`evs, this`eventCount
      ensures Core() && CoveredExcept(x) && evs == old(evs)[e := old(evs[e]).(inserted := b)]
    {
      hide HeapHolds, ListsOk, LaterOk, FlagsOk, TimersOk, Keys, ActiveOk, EvOk, TotalWeight, TotalLen;
      var v := evs[e].(inserted := b);
      WeightUpdate(evs, e, v);
      Untouched(evs, e, v, lists, heap.pos, active, later);
      SameFlags(evs, e, v, timers, |active|);
      eventCount := eventCount + if v.internal then 0 else if b then 1 else -1;
      evs := evs[e := v];
    }

    /** event_queue_remove_active */
    method RemoveActive(e: nat, ghost x: int)
      requires Core() && e < |evs| && evs[e].active && CoveredExcept(x) && Matches(x, evs[e])
      modifies this`evs, this`active, this`eventCount, this`eventCountActive
      ensures Core() && evs == old(evs)[e := old(evs[e]).(active := false)]
      ensures CoveredExcept(Exempt(x, old(evs[e])))
      ensures |active| == |old(active)| && old(evs[e]).pri < |active|
      ensures active == old(active)[old(evs[e]).pri := Remove(old(active)[old(evs[e]).pri], e)]
      ensures eventCountActive == old(eventCountActive) - 1
    {
      hide HeapHolds, ListsOk, LaterOk, FlagsOk, TimersOk, CoveredBut, Keys, ActiveOk, EvOk, TotalWeight, TotalLen, Remove;
      var v := evs[e];
      var v' := v.(active := false);
      FlagsAt(evs, |timers|, |active|, e);
      QueueAt(evs, active, v.pri, e);
      RemoveFacts(active[v.pri], e);
      LenUpdate(active, v.pri, Remove(active[v.pri], e));
      WeightUpdate(evs, e, v');
      Deactivate(evs, active, e);
      Untouched(evs, e, v', lists, heap.pos, active, later);
      SameFlags(evs, e, v', timers, |active|);
      SameCovered(evs, e, v', lists, timers, running, x);
      eventCount := eventCount - if v.internal then 0 else 1;
      evs := evs[e := v'];
      eventCountActive := eventCountActive - 1;
      active := active[v.pri := Remove(active[v.pri], e)];
    }

    /** event_queue_insert_active */
    method InsertActive(e: nat, ghost x: int)
      requires Core() && e < |evs| && !evs[e].active && !evs[e].later && CoveredExcept(x) && Matches(x, evs[e])
      modifies this`evs, this`active, this`eventCount, this`eventCountActive
      ensures Core() && evs == old(evs)[e := old(evs[e]).(active := true)]
      ensures CoveredExcept(if TimerIndex(old(evs[e])) == -1 then x else -1)
      ensures |active| == |old(active)| && old(evs[e]).pri < |active|
      ensures active == old(active)[old(evs[e]).pri := old(active)[old(evs[e]).pri] + [e]]
      ensures eventCountActive == old(eventCountActive) + 1
    {
      hide HeapHolds, ListsOk, LaterOk, FlagsOk, TimersOk, CoveredBut, Keys, ActiveOk, EvOk, TotalWeight, TotalLen;
      var v := evs[e];
      var v' := v.(active := true);
      FlagsAt(evs, |timers|, |active|, e);
      LenUpdate(active, v.pri, active[v.pri] + [e]);
      WeightUpdate(evs, e, v');
      Activate(evs, active, e);
      Untouched(evs, e, v', lists, heap.pos, active, later);
      SameFlags(evs, e, v', timers, |active|);
      SameCovered(evs, e, v', lists, timers, running, x);
      TimerAt(evs, timers, e);
      if v.timerOf.Some? {
        ActiveCovered(evs[e := v'], lists, timers, running, TimerIndex(v), e);
      }
      eventCount := eventCount + if v.internal then 0 else 1;
      evs := evs[e := v'];
      eventCountActive := eventCountActive + 1;
      active := active[v.pri := active[v.pri] + [e]];
    }

    /** event_queue_remove_active_later */
    method RemoveLater(e: nat, ghost x: int)
      requires Core() && e < |evs| && evs[e].later && CoveredExcept(x)
      modifies this`evs, this`later, this`eventCount, this`eventCountActive
      ensures Core() && CoveredExcept(x) && evs == old(evs)[e := old(evs[e]).(later := false)]
      ensures later == Remove(old(later), e) && |later| == |old(later)| - 1
      ensures eventCountActive == old(eventCountActive) - 1
    {
      hide HeapHolds, ListsOk, LaterOk, FlagsOk, TimersOk, CoveredBut, Keys, ActiveOk, EvOk, TotalWeight, TotalLen, Remove;
      var v := evs[e];
      var v' := v.(later := false);
      FlagsAt(evs, |timers|, |active|, e);
      WeightUpdate(evs, e, v');
      NotLater(evs, later, e);
      Untouched(evs, e, v', lists, heap.pos, active, later);
      SameFlags(evs, e, v', timers, |active|);
      SameCovered(evs, e, v', lists, timers, running, x);
      eventCount := eventCount - if v.internal then 0 else 1;
      evs := evs[e := v'];
      eventCountActive := eventCountActive - 1;
      later := Remove(later, e);
    }

    /** event_queue_insert_active_later */
    method InsertLater(e: nat, ghost x: int)
      requires Core() && e < |evs| && !evs[e].active && !evs[e].later && evs[e].timerOf.None? && CoveredExcept(x)
      modifies this`evs, this`later, this`eventCount, this`eventCountActive
      ensures Core() && CoveredExcept(x) && evs == old(evs)[e := old(evs[e]).(later := true)]
      ensures later == old(later) + [e]
      ensures eventCountActive == old(eventCountActive) + 1
    {
      hide HeapHolds, ListsOk, LaterOk, FlagsOk, TimersOk, CoveredBut, Keys, ActiveOk, EvOk, TotalWeight, TotalLen;
      var v := evs[e];
      var v' := v.(later := true);
      FlagsAt(evs, |timers|, |active|, e);
      WeightUpdate(evs, e, v');
      NowLater(evs, later, e);
      Untouched(evs, e, v', lists, heap.pos, active, later);
      SameFlags(evs, e, v', timers, |active|);
      SameCovered(evs, e, v', lists, timers, running, x);
      eventCount := eventCount + if v.internal then 0 else 1;
      evs := evs[e := v'];
      eventCountActive := eventCountActive + 1;
      later := later + [e];
    }
  
    /** event_queue_remove_timeout, for a timeout in the heap */
    method RemoveFromHeap(e: nat, ghost x: int)
      requires Core() && e < |evs| && evs[e].timeout && evs[e].list.None? && CoveredExcept(x) && Matches(x, evs[e])
      modifies this`evs, this`eventCount, heap
      ensures Core() && evs == old(evs)[e := old(evs[e]).(timeout := false)]
      ensures CoveredExcept(Exempt(x, old(evs[e])))
      ensures heap.n == old(heap.n) - 1 && |heap.p| == |old(heap.p)|
    {
      hide HeapHolds, ListsOk, LaterOk, FlagsOk, TimersOk, CoveredBut, ActiveOk, EvOk, TotalWeight, TotalLen, PlacesOk, Ordered, SameBut;
      var v := evs[e];
      var v' := v.(timeout := false);
      HeapAt(evs, heap.pos, e);
      FlagsAt(evs, |timers|, |active|, e);
      WeightUpdate(evs, e, v');
      Untouched(evs, e, v', lists, heap.pos, active, later);
      SameFlags(evs, e, v', timers, |active|);
      SameCovered(evs, e, v', lists, timers, running, x);
      NotInLists(evs, e, v', lists);
      heap.Erase(e, Keys(evs));
      assert Keys(evs[e := v']) == Keys(evs);
      HeapLeft(evs, old(heap.pos), heap.pos, e);
      eventCount := eventCount - if v.internal then 0 else 1;
      evs := evs[e := v'];
    }

    /** event_queue_remove_timeout, for a common timeout */
    method RemoveFromList(e: nat)
      requires Core() && e < |evs| && evs[e].timeout && evs[e].list.Some? && CoveredExcept(-1)
      modifies this`evs, this`lists, this`eventCount
      ensures Core() && CoveredExcept(-1) && evs == old(evs)[e := old(evs[e]).(timeout := false)]
      ensures var i := old(evs[e]).list.value;
              && i < |old(lists)| && lists == old(lists)[i := Remove(old(lists)[i], e)]
              && |lists[i]| == |old(lists)[i]| - 1
    {
      hide HeapHolds, ListsOk, LaterOk, FlagsOk, TimersOk, CoveredBut, ActiveOk, EvOk, TotalWeight, TotalLen, Remove;
      var v := evs[e];
      var v' := v.(timeout := false);
      var i := v.list.value;
      FlagsAt(evs, |timers|, |active|, e);
      WeightUpdate(evs, e, v');
      Untouched(evs, e, v', lists, heap.pos, active, later);
      SameFlags(evs, e, v', timers, |active|);
      Unlist(evs, e, lists, heap.pos);
      UnlistCovered(evs, e, lists, timers, running);
      SameCovered(evs, e, v', lists[i := Remove(lists[i], e)], timers, running, -1);
      eventCount := eventCount - if v.internal then 0 else 1;
      evs := evs[e := v'];
      lists := lists[i := Remove(lists[i], e)];
    }
  
    /** event_queue_insert_timeout, for a timeout that goes into the heap */
    method InsertIntoHeap(e: nat, v': Ev, ghost x: int)
      requires Core() && e < |evs| && !evs[e].timeout && CoveredExcept(x) && Matches(x, evs[e])
      requires Retimed(evs[e], v') && v'.list.None? && EvOk(v', |timers|, |active|) && heap.n < |heap.p|
      modifies this`evs, this`eventCount, heap
      ensures Core() && evs == old(evs)[e := v']
      ensures CoveredExcept(Exempt(x, old(evs[e])))
      ensures heap.n == old(heap.n) + 1 && |heap.p| == |old(heap.p)|
    {
      hide HeapHolds, ListsOk, LaterOk, FlagsOk, TimersOk, CoveredBut, ActiveOk, EvOk, TotalWeight, TotalLen, PlacesOk, Ordered, SameBut;
      var v := evs[e];
      HeapAt(evs, heap.pos, e);
      WeightUpdate(evs, e, v');
      Untouched(evs, e, v', lists, heap.pos, active, later);
      SameFlags(evs, e, v', timers, |active|);
      NotInLists(evs, e, v', lists);
      SameCovered(evs, e, v', lists, timers, running, x);
      NewKey(heap, Keys(evs), e, v'.deadline);
      assert Keys(evs[e := v']) == Keys(evs)[e := v'.deadline];
      heap.Push(e, Keys(evs[e := v']));
      HeapJoined(evs, old(heap.pos), heap.pos, e, v');
      eventCount := eventCount + if v.internal then 0 else 1;
      evs := evs[e := v'];
    }

    /** event_queue_insert_timeout, for a common timeout; says whether the event is now
        the first of its queue. */
    method InsertIntoList(e: nat, v': Ev) returns (first: bool)
      requires Core() && e < |evs| && !evs[e].timeout && CoveredExcept(-1)
      requires Retimed(evs[e], v') && v'.list.Some? && v'.list.value < |lists| && EvOk(v', |timers|, |active|)
      modifies this`evs, this`lists, this`eventCount
      ensures Core() && evs == old(evs)[e := v']
      ensures var i := v'.list.value;
              && |lists| == |old(lists)| && lists[i] != [] && first == (lists[i][0] == e)
              && CoveredExcept(if first then i else -1)
              && (first <==> old(lists[i]) == [] || v'.deadline < old(evs)[old(lists[i])[0]].deadline)
    {
      hide HeapHolds, ListsOk, LaterOk, FlagsOk, TimersOk, CoveredBut, ActiveOk, EvOk, TotalWeight, TotalLen, InsertAt, PlacesOk, Ordered;
      var v := evs[e];
      var i := v'.list.value;
      HeapAt(evs, heap.pos, e);
      ListAt(evs, lists, i, e);
      var at := FindPlace(evs, lists[i], v'.deadline);
      WeightUpdate(evs, e, v');
      Untouched(evs, e, v', lists, heap.pos, active, later);
      SameFlags(evs, e, v', timers, |active|);
      NotTimed(evs, e, lists);
      SameCovered(evs, e, v', lists, timers, running, -1);
      TimerNoList(v', |timers|, |active|);
      NewKey(heap, Keys(evs), e, v'.deadline);
      assert Keys(evs[e := v']) == Keys(evs)[e := v'.deadline];
      HeapUnmoved(evs, heap.pos, e, v');
      Enlist(evs, e, v', lists, i, at);
      InsertAtIndex(lists[i], at, e, 0);
      EnlistCovered(evs[e := v'], lists, timers, running, i, at, e);
      first := at == 0;
      eventCount := eventCount + if v.internal then 0 else 1;
      evs := evs[e := v'];
      lists := lists[i := InsertAt(lists[i], at, e)];
    }
  }

  /** v has a pending timeout, and is in the other queues if and only if u is. */
  predicate Retimed(u: Ev, v: Ev)
  {
    && v.timeout && v.active == u.active && v.pri == u.pri && v.later == u.later
    && v.inserted == u.inserted && v.internal == u.internal && v.timerOf == u.timerOf
  }

  lemma TimerNoList(v: Ev, nl: nat, nq: nat)
    requires EvOk(v, nl, nq) && v.list.Some?
    ensures TimerIndex(v) == -1
  {
  }

  /** The deadline of an event outside the heap may change. */
  lemma NewKey(heap: Heap, key: seq<int>, e: nat, d: int)
    requires heap.Valid(key) && e < |key| && heap.pos[e] == -1
    ensures heap.Valid(key[e := d])
  {
    assert forall i :: 0 <= i < heap.n ==> heap.p[i] != e;
  }

  lemma HeapJoined(evs: seq<Ev>, was: seq<int>, pos: seq<int>, e: nat, v: Ev)
    requires HeapHolds(evs, was) && e < |evs| && SameBut(was, pos, e) && pos[e] != -1 && v.timeout && v.list.None?
    ensures HeapHolds(evs[e := v], pos)
  {
  }

  lemma HeapUnmoved(evs: seq<Ev>, pos: seq<int>, e: nat, v: Ev)
    requires HeapHolds(evs, pos) && e < |evs| && pos[e] == -1 && v.list.Some?
    ensures HeapHolds(evs[e := v], pos)
  {
  }

  lemma ListAt(evs: seq<Ev>, lists: seq<seq<nat>>, i: nat, e: nat)
    requires ListsOk(evs, lists) && i < |lists| && e < |evs|
    ensures NoDup(lists[i]) && Sorted(evs, lists[i])
    ensures e in lists[i] <==> evs[e].timeout && evs[e].list == Some(i)
  {
    assert ListOk(evs, lists[i], i);
    assert InList(evs, e, i) <==> e in lists[i];
  }

  lemma NotTimed(evs: seq<Ev>, e: nat, lists: seq<seq<nat>>)
    requires ListsOk(evs, lists) && e < |evs| && !evs[e].timeout
    ensures forall i :: 0 <= i < |lists| ==> e !in lists[i]
    ensures forall i :: 0 <= i < |lists| && lists[i] != [] ==> lists[i][0] != e
  {
    forall i | 0 <= i < |lists|
      ensures e !in lists[i]
    {
      ListAt(evs, lists, i, e);
    }
    forall i | 0 <= i < |lists| && lists[i] != []
      ensures lists[i][0] != e
    {
      assert lists[i][0] in lists[i];
    }
  }

  lemma {:induction false} SortedSame(evs: seq<Ev>, q: seq<nat>, e: nat, v: Ev)
    requires Sorted(evs, q) && e < |evs| && e !in q
    ensures Sorted(evs[e := v], q)
  {
    assert forall i :: 0 <= i < |q| ==> q[i] in q && evs[e := v][q[i]] == evs[q[i]];
  }

  lemma Enlist(evs: seq<Ev>, e: nat, v: Ev, lists: seq<seq<nat>>, i: nat, at: nat)
    requires ListsOk(evs, lists) && e < |evs| && !evs[e].timeout && i < |lists| && at <= |lists[i]|
    requires v.timeout && v.list == Some(i) && Sorted(evs, lists[i])
    requires forall j :: 0 <= j < at ==> evs[lists[i][j]].deadline <= v.deadline
    requires forall j :: at <= j < |lists[i]| ==> v.deadline < evs[lists[i][j]].deadline
    ensures ListsOk(evs[e := v], lists[i := InsertAt(lists[i], at, e)])
  {
    hide InsertAt, Sorted, NoDup;
    var es, ls := evs[e := v], lists[i := InsertAt(lists[i], at, e)];
    NotTimed(evs, e, lists);
    forall j | 0 <= j < |ls|
      ensures ListOk(es, ls[j], j)
    {
      assert ListOk(evs, lists[j], j);
      SortedSame(evs, lists[j], e, v);
      InsertMembers(lists[i], at, e);
      if j == i {
        SameDeadlines(evs, lists[i], e, v);
        InsertNoDup(lists[i], at, e);
        InsertSorted(es, lists[i], at, e);
      }
      forall x: nat
        ensures x in ls[j] <==> InList(es, x, j)
      {
        assert x in lists[j] <==> InList(evs, x, j);
      }
    }
  }

  lemma SameDeadlines(evs: seq<Ev>, q: seq<nat>, e: nat, v: Ev)
    requires Sorted(evs, q) && e < |evs| && e !in q
    ensures forall j :: 0 <= j < |q| ==> q[j] < |evs| && evs[e := v][q[j]] == evs[q[j]]
  {
    assert forall j :: 0 <= j < |q| ==> q[j] in q;
  }

  lemma EnlistCovered(evs: seq<Ev>, lists: seq<seq<nat>>, timers: seq<nat>, running: int, i: nat, at: nat, e: nat)
    requires CoveredBut(evs, lists, timers, running, -1) && i < |lists| && at <= |lists[i]|
    ensures CoveredBut(evs, lists[i := InsertAt(lists[i], at, e)], timers, running, if at == 0 then i else -1)
  {
    hide InsertAt;
    InsertAtIndex(lists[i], at, e, 0);
    assert Covered(evs, lists[i], timers[i], running);
    assert at > 0 ==> Covered(evs, InsertAt(lists[i], at, e), timers[i], running);
  }

  /** x may be exempted while e is being changed. */
  predicate Matches(x: int, v: Ev)
  {
    x == -1 || TimerIndex(v) == -1 || x == TimerIndex(v)
  }

  function Exempt(x: int, v: Ev): int
  {
    if TimerIndex(v) == -1 then x else TimerIndex(v)
  }

  predicate SameQueues(a: Ev, b: Ev)
  {
    && a.timeout == b.timeout && a.list == b.list && a.deadline == b.deadline
    && a.active == b.active && a.pri == b.pri && a.later == b.later
    && a.inserted == b.inserted && a.internal == b.internal
  }

  lemma Untouched(evs: seq<Ev>, e: nat, v: Ev, lists: seq<seq<nat>>, pos: seq<int>, active: seq<seq<nat>>, later: seq<nat>)
    requires e < |evs|
    ensures v.timeout == evs[e].timeout && v.list == evs[e].list && v.deadline == evs[e].deadline ==>
              && (HeapHolds(evs, pos) ==> HeapHolds(evs[e := v], pos))
              && (ListsOk(evs, lists) ==> ListsOk(evs[e := v], lists))
              && Keys(evs[e := v]) == Keys(evs)
    ensures v.active == evs[e].active && v.pri == evs[e].pri && ActiveOk(evs, active) ==> ActiveOk(evs[e := v], active)
    ensures v.later == evs[e].later && LaterOk(evs, later) ==> LaterOk(evs[e := v], later)
  {
    hide HeapHolds, ListsOk, ActiveOk, LaterOk;
    if v.timeout == evs[e].timeout && v.list == evs[e].list && v.deadline == evs[e].deadline {
      SameTimes(evs, e, v, lists, pos);
    }
    if v.active == evs[e].active && v.pri == evs[e].pri && ActiveOk(evs, active) {
      SameActive(evs, e, v, active);
    }
    if v.later == evs[e].later && LaterOk(evs, later) {
      SameLater(evs, e, v, later);
    }
  }

  lemma NotLater(evs: seq<Ev>, later: seq<nat>, e: nat)
    requires LaterOk(evs, later) && e < |evs| && evs[e].later
    ensures LaterOk(evs[e := evs[e].(later := false)], Remove(later, e)) && |Remove(later, e)| == |later| - 1
  {
    var es := evs[e := evs[e].(later := false)];
    assert IsLater(evs, e);
    RemoveFacts(later, e);
    forall x: nat
      ensures x in Remove(later, e) <==> IsLater(es, x)
    {
      assert x in later <==> IsLater(evs, x);
    }
  }

  lemma NowLater(evs: seq<Ev>, later: seq<nat>, e: nat)
    requires LaterOk(evs, later) && e < |evs| && !evs[e].later
    ensures LaterOk(evs[e := evs[e].(later := true)], later + [e])
  {
    var es := evs[e := evs[e].(later := true)];
    assert !IsLater(evs, e);
    AppendFacts(later, e);
    forall x: nat
      ensures x in later + [e] <==> IsLater(es, x)
    {
      assert x in later <==> IsLater(evs, x);
    }
  }

  lemma Activate(evs: seq<Ev>, active: seq<seq<nat>>, e: nat)
    requires ActiveOk(evs, active) && e < |evs| && !evs[e].active && evs[e].pri < |active|
    ensures ActiveOk(evs[e := evs[e].(active := true)], active[evs[e].pri := active[evs[e].pri] + [e]])
  {
    var es := evs[e := evs[e].(active := true)];
    var r := active[evs[e].pri := active[evs[e].pri] + [e]];
    QueueAt(evs, active, evs[e].pri, e);
    AppendFacts(active[evs[e].pri], e);
    forall p | 0 <= p < |r|
      ensures QueueOk(es, r[p], p)
    {
      forall x: nat
        ensures x in r[p] <==> InActive(es, x, p)
      {
        assert x in active[p] <==> InActive(evs, x, p);
      }
    }
  }

  lemma TimerAt(evs: seq<Ev>, timers: seq<nat>, e: nat)
    requires TimersOk(evs, timers) && e < |evs|
    ensures evs[e].timerOf.Some? ==> evs[e].timerOf.value < |timers| && timers[evs[e].timerOf.value] == e
  {
  }

  lemma HeapAt(evs: seq<Ev>, pos: seq<int>, e: nat)
    requires HeapHolds(evs, pos) && e < |evs|
    ensures |pos| == |evs| && (pos[e] != -1 <==> evs[e].timeout && evs[e].list.None?)
  {
  }

  /** An event without a common timeout is in no list, before or after v. */
  lemma NotInLists(evs: seq<Ev>, e: nat, v: Ev, lists: seq<seq<nat>>)
    requires e < |evs| && ListsOk(evs, lists)
    requires (evs[e].list.None? || !evs[e].timeout) && (v.list.None? || !v.timeout)
    ensures ListsOk(evs[e := v], lists)
    ensures forall i :: 0 <= i < |lists| && lists[i] != [] ==> lists[i][0] != e
  {
    var es := evs[e := v];
    forall i | 0 <= i < |lists|
      ensures ListOk(es, lists[i], i) && e !in lists[i]
    {
      assert ListOk(evs, lists[i], i);
      assert !InList(evs, e, i);
      assert forall x :: InList(es, x, i) <==> InList(evs, x, i);
      assert forall j :: 0 <= j < |lists[i]| ==> lists[i][j] in lists[i];
    }
  }

  lemma HeapLeft(evs: seq<Ev>, was: seq<int>, pos: seq<int>, e: nat)
    requires HeapHolds(evs, was) && e < |evs| && SameBut(was, pos, e) && pos[e] == -1
    ensures HeapHolds(evs[e := evs[e].(timeout := false)], pos)
  {
  }

  lemma Unlist(evs: seq<Ev>, e: nat, lists: seq<seq<nat>>, pos: seq<int>)
    requires e < |evs| && evs[e].timeout && evs[e].list.Some? && evs[e].list.value < |lists|
    requires ListsOk(evs, lists) && HeapHolds(evs, pos)
    ensures var v := evs[e].(timeout := false); var i := evs[e].list.value;
            && e in lists[i] && |Remove(lists[i], e)| == |lists[i]| - 1
            && ListsOk(evs[e := v], lists[i := Remove(lists[i], e)])
            && HeapHolds(evs[e := v], pos) && Keys(evs[e := v]) == Keys(evs)
  {
    var v, i := evs[e].(timeout := false), evs[e].list.value;
    var es, ls := evs[e := v], lists[i := Remove(lists[i], e)];
    assert InList(evs, e, i);
    RemoveFacts(lists[i], e);
    RemoveSorted(evs, lists[i], e);
    forall j | 0 <= j < |ls|
      ensures ListOk(es, ls[j], j)
    {
      assert ListOk(evs, lists[j], j);
      forall x: nat
        ensures x in ls[j] <==> InList(es, x, j)
      {
        assert x in lists[j] <==> InList(evs, x, j);
      }
      assert Sorted(evs, ls[j]);
    }
    assert Keys(es) == Keys(evs);
  }

  /** Taking an event out of a queue only moves the queue's first deadline back. */
  lemma UnlistCovered(evs: seq<Ev>, e: nat, lists: seq<seq<nat>>, timers: seq<nat>, running: int)
    requires e < |evs| && evs[e].timeout && evs[e].list.Some? && evs[e].list.value < |lists|
    requires ListsOk(evs, lists) && CoveredBut(evs, lists, timers, running, -1)
    ensures CoveredBut(evs, lists[evs[e].list.value := Remove(lists[evs[e].list.value], e)], timers, running, -1)
  {
    var i := evs[e].list.value;
    var q, r := lists[i], Remove(lists[i], e);
    assert InList(evs, e, i);
    assert ListOk(evs, q, i);
    RemoveSorted(evs, q, e);
    assert Covered(evs, q, timers[i], running);
    assert Covered(evs, r, timers[i], running);
  }

  /** A queue whose timer is active is covered. */
  lemma ActiveCovered(evs: seq<Ev>, lists: seq<seq<nat>>, timers: seq<nat>, running: int, x: int, e: nat)
    requires CoveredBut(evs, lists, timers, running, x) && e < |evs| && evs[e].active
    requires 0 <= x < |timers| ==> timers[x] == e
    ensures CoveredBut(evs, lists, timers, running, -1)
  {
  }

  ghost predicate Idle(v: Ev)
  {
    !v.inserted && !v.timeout && !v.active && !v.later
  }

  lemma {:induction false} IdleWeight(evs: seq<Ev>)
    requires forall e :: 0 <= e < |evs| ==> Idle(evs[e])
    ensures TotalWeight(evs) == 0
  {
    if evs != [] {
      IdleWeight(evs[1..]);
    }
  }

  lemma FlagsAt(evs: seq<Ev>, nl: nat, nq: nat, e: nat)
    requires FlagsOk(evs, nl, nq) && e < |evs|
    ensures EvOk(evs[e], nl, nq) && evs[e].pri < nq
    ensures EvOk(evs[e].(active := false), nl, nq) && EvOk(evs[e].(later := false), nl, nq)
    ensures !evs[e].later ==> EvOk(evs[e].(active := true), nl, nq)
    ensures EvOk(evs[e].(timeout := false), nl, nq) && (evs[e].list.Some? ==> evs[e].list.value < nl)
    ensures evs[e].list.Some? ==> TimerIndex(evs[e]) == -1
    ensures !evs[e].active && evs[e].timerOf.None? ==> EvOk(evs[e].(later := true), nl, nq)
  {
  }

  lemma QueueAt(evs: seq<Ev>, active: seq<seq<nat>>, p: nat, e: nat)
    requires ActiveOk(evs, active) && p < |active| && e < |evs|
    ensures NoDup(active[p]) && (e in active[p] <==> evs[e].active && evs[e].pri == p)
  {
    assert InActive(evs, e, p) <==> e in active[p];
  }

  lemma Deactivate(evs: seq<Ev>, active: seq<seq<nat>>, e: nat)
    requires ActiveOk(evs, active) && e < |evs| && evs[e].active && evs[e].pri < |active|
    ensures ActiveOk(evs[e := evs[e].(active := false)], active[evs[e].pri := Remove(active[evs[e].pri], e)])
  {
    var es := evs[e := evs[e].(active := false)];
    var r := active[evs[e].pri := Remove(active[evs[e].pri], e)];
    QueueAt(evs, active, evs[e].pri, e);
    RemoveFacts(active[evs[e].pri], e);
    forall p | 0 <= p < |r|
      ensures QueueOk(es, r[p], p)
    {
      forall x: nat
        ensures x in r[p] <==> InActive(es, x, p)
      {
        assert x in active[p] <==> InActive(evs, x, p);
      }
    }
  }
}

/** event.c: the operations on events, each one step under the base's lock. */
module EventOps {
  import opened Bytes
  import opened Queues
  import opened EventQueues
  import opened MinHeap
  import opened EventBase

  function Deleted(v: Ev): Ev
  {
    v.(timeout := false, active := false, later := false, inserted := false)
  }

  /** The active queues once e, if it is active, has left its own. */
  function Unqueued(active: seq<seq<nat>>, e: nat, v: Ev): seq<seq<nat>>
  {
    if v.active && v.pri < |active| then active[v.pri := Remove(active[v.pri], e)] else active
  }

  lemma ClearInserted(v: Ev, nl: nat, nq: nat)
    requires EvOk(v, nl, nq)
    ensures EvOk(v.(inserted := false), nl, nq)
  {
  }

  /** event_queue_remove_timeout */
  method RemoveTimeout(b: Base, e: nat, ghost x: int)
    requires b.Core() && e < |b.evs| && b.evs[e].timeout && b.CoveredExcept(x) && Matches(x, b.evs[e])
    requires b.evs[e].list.Some? ==> x == -1
    modifies b`evs, b`lists, b`eventCount, b.heap
    ensures b.Core() && b.evs == old(b.evs)[e := old(b.evs[e]).(timeout := false)]
    ensures b.CoveredExcept(Exempt(x, old(b.evs[e])))
    ensures b.lists == ListsWithout(old(b.lists), e, old(b.evs[e]))
    ensures b.heap.n == old(b.heap.n) - HeapShare(old(b.evs[e])) && |b.heap.p| == |old(b.heap.p)|
  {
    hide b.Core, b.CoveredExcept, Remove, EvOk;
    InListRange(b, e);
    if b.evs[e].list.Some? {
      b.RemoveFromList(e);
    } else {
      b.RemoveFromHeap(e, x);
    }
  }

  /** The queues once e has left its one. */
  function ListsWithout(lists: seq<seq<nat>>, e: nat, v: Ev): seq<seq<nat>>
  {
    if v.timeout && v.list.Some? && v.list.value < |lists|
    then lists[v.list.value := Remove(lists[v.list.value], e)] else lists
  }

  function HeapShare(v: Ev): nat
  {
    if v.timeout && v.list.None? then 1 else 0
  }

  lemma InListRange(b: Base, e: nat)
    requires b.Core() && e < |b.evs|
    ensures b.evs[e].list.Some? ==> b.evs[e].list.value < |b.lists| && TimerIndex(b.evs[e]) == -1
    ensures EvOk(b.evs[e], |b.timers|, |b.active|) && |b.timers| == |b.lists|
  {
    FlagsAt(b.evs, |b.timers|, |b.active|, e);
  }

  /** event_del_nolock_. A finalizing event is left alone; any other event leaves every
      queue. Deleting a timer leaves the queue it serves uncovered. */
  method Del(b: Base, e: nat)
    requires b.Valid() && e < |b.evs|
    modifies b`evs, b`lists, b`active, b`later, b`eventCount, b`eventCountActive, b.heap
    ensures b.Core() && b.CoveredExcept(TimerIndex(old(b.evs[e])))
    ensures var v := old(b.evs[e]);
            if v.finalizing then b.evs == old(b.evs) && b.lists == old(b.lists) && b.heap.n == old(b.heap.n)
            else && b.evs == old(b.evs)[e := Deleted(v)]
                 && b.lists == ListsWithout(old(b.lists), e, v)
                 && b.heap.n == old(b.heap.n) - HeapShare(v)
    ensures |b.active| == |old(b.active)| && |b.heap.p| == |old(b.heap.p)|
    ensures var v := old(b.evs[e]);
            && b.eventCountActive == old(b.eventCountActive) - (if !v.finalizing && (v.active || v.later) then 1 else 0)
            && (!v.later ==> b.later == old(b.later))
            && b.active == if v.finalizing then old(b.active) else Unqueued(old(b.active), e, v)
  {
    hide b.Core, b.CoveredExcept, Remove, EvOk, ListsWithout, Unqueued, HeapShare, TimerIndex, Deleted;
    InListRange(b, e);
    var v := b.evs[e];
    if v.finalizing {
      TimerNotFinalizing(v, |b.timers|, |b.active|);
      return;
    }
    ghost var was := b.evs;
    SameQueue(b.active, e, v);
    DropTimeout(b, e);
    Unqueue(b, e, if v.timeout then TimerIndex(v) else -1);
    Uninsert(b, e, TimerIndex(v));
    DeletedAt(was, e, b.evs);
  }

  lemma SameQueue(active: seq<seq<nat>>, e: nat, v: Ev)
    ensures var u := v.(timeout := false);
            && Unqueued(active, e, u) == Unqueued(active, e, v) && TimerIndex(u) == TimerIndex(v)
            && TimerIndex(u.(active := false, later := false)) == TimerIndex(v)
  {
  }

  lemma DeletedAt(evs: seq<Ev>, e: nat, evs': seq<Ev>)
    requires e < |evs|
    requires var v1 := evs[e].(timeout := false);
             var v2 := v1.(active := false, later := false);
             evs' == evs[e := v1][e := v2][e := v2.(inserted := false)]
    ensures evs' == evs[e := Deleted(evs[e])]
  {
    var v1 := evs[e].(timeout := false);
    var v2 := v1.(active := false, later := false);
    Overwrite(evs, e, v1, v2);
    Overwrite(evs, e, v2, Deleted(evs[e]));
  }

  /** event_del_nolock_: out of the heap or the queue of its timeout. */
  method DropTimeout(b: Base, e: nat)
    requires b.Valid() && e < |b.evs|
    modifies b`evs, b`lists, b`eventCount, b.heap
    ensures b.Core() && b.evs == old(b.evs)[e := old(b.evs[e]).(timeout := false)]
    ensures b.CoveredExcept(if old(b.evs[e]).timeout then TimerIndex(old(b.evs[e])) else -1)
    ensures b.lists == ListsWithout(old(b.lists), e, old(b.evs[e]))
    ensures b.heap.n == old(b.heap.n) - HeapShare(old(b.evs[e])) && |b.heap.p| == |old(b.heap.p)|
  {
    hide b.Core, b.CoveredExcept, Remove, EvOk;
    var v := b.evs[e];
    Overwrite(b.evs, e, v, v);
    InListRange(b, e);
    if v.timeout {
      RemoveTimeout(b, e, -1);
    }
  }

  /** event_del_nolock_: out of the active or the later queue. */
  method Unqueue(b: Base, e: nat, ghost x: int)
    requires b.Core() && e < |b.evs| && b.CoveredExcept(x) && (x != -1 ==> x == TimerIndex(b.evs[e]))
    modifies b`evs, b`active, b`later, b`eventCount, b`eventCountActive
    ensures b.Core() && b.CoveredExcept(TimerIndex(old(b.evs[e])))
    ensures b.evs == old(b.evs)[e := old(b.evs[e]).(active := false, later := false)]
    ensures |b.active| == |old(b.active)|
    ensures var v := old(b.evs[e]);
            && b.eventCountActive == old(b.eventCountActive) - (if v.active || v.later then 1 else 0)
            && (!v.later ==> b.later == old(b.later))
            && b.active == Unqueued(old(b.active), e, v)
  {
    hide b.Core, b.CoveredExcept, Remove, EvOk;
    InListRange(b, e);
    var v := b.evs[e];
    Overwrite(b.evs, e, v, v);
    if v.active {
      NotBoth(v, |b.timers|, |b.active|);
      b.RemoveActive(e, x);
    } else if v.later {
      b.RemoveLater(e, x);
      Widen(b, x, TimerIndex(v));
    } else {
      Widen(b, x, TimerIndex(v));
    }
  }

  /** event_del_nolock_: out of the I/O map. */
  method Uninsert(b: Base, e: nat, ghost x: int)
    requires b.Core() && e < |b.evs| && b.CoveredExcept(x)
    modifies b`evs, b`eventCount
    ensures b.Core() && b.CoveredExcept(x) && b.evs == old(b.evs)[e := old(b.evs[e]).(inserted := false)]
  {
    hide b.Core, b.CoveredExcept, EvOk;
    InListRange(b, e);
    Overwrite(b.evs, e, b.evs[e], b.evs[e]);
    if b.evs[e].inserted {
      ClearInserted(b.evs[e], |b.timers|, |b.active|);
      b.SetInserted(e, false, x);
    }
  }

  lemma TimerNotFinalizing(v: Ev, nl: nat, nq: nat)
    requires EvOk(v, nl, nq) && v.finalizing
    ensures TimerIndex(v) == -1
  {
  }

  lemma Widen(b: Base, x: int, y: int)
    requires b.CoveredExcept(x) && (x == -1 || x == y)
    ensures b.CoveredExcept(y)
  {
  }

  lemma Overwrite(evs: seq<Ev>, e: nat, u: Ev, v: Ev)
    requires e < |evs|
    ensures evs[e := u][e := v] == evs[e := v] && evs[e := evs[e]] == evs
  {
  }

  function Queued(v: Ev): Ev
  {
    if v.finalizing then v else v.(active := true, later := false)
  }

  /** event_callback_activate_nolock_: unless it is finalizing, the callback ends up in
      the active queue; the result says whether it was in no queue before. */
  method ActivateCallback(b: Base, e: nat, ghost x: int) returns (r: int)
    requires b.Core() && e < |b.evs| && b.CoveredExcept(x) && (x != -1 ==> x == TimerIndex(b.evs[e]))
    modifies b`evs, b`active, b`later, b`eventCount, b`eventCountActive
    ensures b.Valid() && b.evs == old(b.evs)[e := Queued(old(b.evs[e]))]
    ensures |b.active| == |old(b.active)|
    ensures var v := old(b.evs[e]);
            && r == (if v.finalizing || v.active || v.later then 0 else 1)
            && b.eventCountActive == old(b.eventCountActive) + r
            && (if v.finalizing || v.active then b.active == old(b.active) && b.later == old(b.later)
                else && v.pri < |old(b.active)| && b.active == old(b.active)[v.pri := old(b.active)[v.pri] + [e]]
                     && b.later == if v.later then Remove(old(b.later), e) else old(b.later))
  {
    hide b.Core, b.CoveredExcept, EvOk, Remove;
    InListRange(b, e);
    var v := b.evs[e];
    Overwrite(b.evs, e, v.(later := false), Queued(v));
    if v.finalizing {
      TimerNotFinalizing(v, |b.timers|, |b.active|);
      return 0;
    }
    if v.active {
      StillActive(b, e, x);
      NotBoth(v, |b.timers|, |b.active|);
      return 0;
    }
    r := 1;
    if v.later {
      b.RemoveLater(e, x);
      r := 0;
    }
    b.InsertActive(e, x);
  }

  lemma NotBoth(v: Ev, nl: nat, nq: nat)
    requires EvOk(v, nl, nq) && v.active
    ensures v.(active := true, later := false) == v
  {
  }

  function Reason(v: Ev, res: bool): bool
  {
    (v.resTimeout && (v.active || v.later)) || res
  }

  function Activated(v: Ev, res: bool): Ev
  {
    if v.finalizing then v else Queued(v.(resTimeout := Reason(v, res)))
  }

  /** An event that is finalizing stays as it is; any other is active, and not waiting, for
      the given reason and those for which it was queued. */
  predicate Fired(v: Ev, u: Ev, res: bool)
  {
    && (v.finalizing ==> u == v)
    && (!v.finalizing ==> u.active && !u.later && (u.resTimeout <==> res || (v.resTimeout && (v.active || v.later))))
    && u == v.(active := u.active, later := u.later, resTimeout := u.resTimeout)
  }

  lemma ActivatedIs(v: Ev, res: bool)
    ensures Fired(v, Activated(v, res), res)
  {
  }

  lemma FiredAt(evs: seq<Ev>, e: nat, res: bool, evs': seq<Ev>)
    requires e < |evs|
    requires var v := evs[e]; var w := v.(resTimeout := Reason(v, res));
             evs' == if v.finalizing then evs else evs[e := w][e := Queued(w)]
    ensures evs' == evs[e := Activated(evs[e], res)] && Fired(evs[e], evs'[e], res)
  {
    ActivatedIs(evs[e], res);
    var w := evs[e].(resTimeout := Reason(evs[e], res));
    Overwrite(evs, e, w, Queued(w));
    Overwrite(evs, e, evs[e], evs[e]);
  }

  lemma ResOk(v: Ev, nl: nat, nq: nat, res: bool)
    requires EvOk(v, nl, nq)
    ensures EvOk(v.(resTimeout := res), nl, nq)
  {
  }

  /** event_active_nolock_: the event is active afterwards unless it is finalizing, and
      its reasons add up while it is queued. */
  method Active(b: Base, e: nat, res: bool, ghost x: int)
    requires b.Core() && e < |b.evs| && b.CoveredExcept(x) && (x != -1 ==> x == TimerIndex(b.evs[e]))
    modifies b`evs, b`active, b`later, b`eventCount, b`eventCountActive, b`eventContinue
    ensures b.Valid() && b.evs == old(b.evs)[e := Activated(old(b.evs[e]), res)] && Fired(old(b.evs[e]), b.evs[e], res)
    ensures |b.active| == |old(b.active)|
    ensures var v := old(b.evs[e]);
            if v.finalizing || v.active then b.active == old(b.active)
            else v.pri < |old(b.active)| && b.active == old(b.active)[v.pri := old(b.active)[v.pri] + [e]]
    ensures b.eventContinue == (old(b.eventContinue) ||
                                (!old(b.evs[e]).finalizing && !old(b.evs[e]).active && old(b.evs[e]).pri < b.runningPriority))
  {
    hide b.Core, b.CoveredExcept, EvOk, Queued, Reason, Fired, Activated;
    InListRange(b, e);
    var v := b.evs[e];
    ghost var evs := b.evs;
    if v.finalizing {
      TimerNotFinalizing(v, |b.timers|, |b.active|);
      FiredAt(evs, e, res, b.evs);
      return;
    }
    ResOk(v, |b.timers|, |b.active|, Reason(v, res));
    b.SetEv(e, v.(resTimeout := Reason(v, res)), x);
    if !v.active && v.pri < b.runningPriority {
      b.eventContinue := true;
    }
    var _ := ActivateCallback(b, e, x);
    FiredAt(evs, e, res, b.evs);
  }

  lemma StillActive(b: Base, e: nat, x: int)
    requires b.Core() && e < |b.evs| && b.evs[e].active && b.CoveredExcept(x)
    requires x != -1 ==> x == TimerIndex(b.evs[e])
    ensures b.CoveredExcept(-1)
  {
    TimerAt(b.evs, b.timers, e);
    if x != -1 {
      ActiveCovered(b.evs, b.lists, b.timers, b.running, x, e);
    }
  }

  /** The event once its timeout, and an activation because of it, are gone. */
  function Untimed(v: Ev): Ev
  {
    v.(timeout := false, active := v.active && !v.resTimeout)
  }

  /** event_add_nolock_: drops a pending timeout, and an activation because of it. */
  method Untime(b: Base, e: nat, ghost x: int)
    requires b.Core() && e < |b.evs| && b.CoveredExcept(x) && (x != -1 ==> x == TimerIndex(b.evs[e]))
    modifies b`evs, b`lists, b`active, b`eventCount, b`eventCountActive, b.heap
    ensures b.Core() && b.CoveredExcept(TimerIndex(old(b.evs[e])))
    ensures b.evs == old(b.evs)[e := Untimed(old(b.evs[e]))]
    ensures b.lists == ListsWithout(old(b.lists), e, old(b.evs[e]))
    ensures b.heap.n == old(b.heap.n) - HeapShare(old(b.evs[e])) && |b.heap.p| == |old(b.heap.p)|
    ensures |b.active| == |old(b.active)|
    ensures b.eventCountActive <= old(b.eventCountActive)
  {
    hide b.Core, b.CoveredExcept, Remove, EvOk;
    InListRange(b, e);
    var v := b.evs[e];
    Overwrite(b.evs, e, v, v);
    ghost var y := x;
    if v.timeout {
      RemoveTimeout(b, e, x);
      y := TimerIndex(v);
    }
    if v.active && v.resTimeout {
      b.RemoveActive(e, y);
    } else {
      Widen(b, y, TimerIndex(v));
    }
  }

  /** min_heap_reserve_ on the base's heap */
  method ReserveHeap(b: Base, size: nat, mallocOk: bool) returns (ok: bool)
    requires b.Core()
    modifies b.heap`p
    ensures b.Core() && (ok <==> size <= |b.heap.p|) && (ok <==> size <= |old(b.heap.p)| || mallocOk)
    ensures |b.heap.p| == if ok then GrownTo(|old(b.heap.p)|, size) else |old(b.heap.p)|
  {
    hide HeapHolds, ListsOk, LaterOk, FlagsOk, TimersOk, ActiveOk, TotalWeight, TotalLen, PlacesOk, Ordered;
    ok := b.heap.Reserve(size, Keys(b.evs), mallocOk);
  }

  lemma HeadOf(b: Base, i: nat)
    requires b.Core() && i < |b.lists| && b.lists[i] != []
    ensures i < |b.timers| && b.timers[i] < |b.evs| && b.lists[i][0] < |b.evs|
    ensures TimerIndex(b.evs[b.timers[i]]) == i && b.evs[b.timers[i]].list.None? && b.lists[i][0] != b.timers[i]
    ensures !b.evs[b.timers[i]].finalizing && b.evs[b.lists[i][0]].timeout && b.evs[b.lists[i][0]].list == Some(i)
  {
    var h, t := b.lists[i][0], b.timers[i];
    assert ListOk(b.evs, b.lists[i], i);
    assert h in b.lists[i] && InList(b.evs, h, i);
    FlagsAt(b.evs, |b.timers|, |b.active|, t);
  }

  lemma HeapRoom(b: Base)
    requires b.Core()
    ensures b.heap.n <= |b.heap.p|
  {
  }

  /** A timer set for the queue's first deadline covers the queue. */
  lemma Scheduled(b: Base, i: nat)
    requires b.CoveredExcept(i) && i < |b.lists| && b.lists[i] != [] && i < |b.timers|
    requires b.timers[i] < |b.evs| && b.lists[i][0] < |b.evs| && b.evs[b.timers[i]].timeout
    requires b.evs[b.timers[i]].deadline == b.evs[b.lists[i][0]].deadline
    ensures b.CoveredExcept(-1)
  {
    assert Covered(b.evs, b.lists[i], b.timers[i], b.running);
    NowCovered(b.evs, b.lists, b.timers, b.running, i);
  }

  /** common_timeout_schedule: puts the timer of queue i into the heap for the queue's
      first deadline. This fails only if the heap must grow for it and cannot. */
  method ScheduleTimer(b: Base, i: nat, mallocOk: bool) returns (ok: bool)
    requires b.Core() && i < |b.lists| && b.lists[i] != [] && b.CoveredExcept(i)
    modifies b`evs, b`lists, b`active, b`eventCount, b`eventCountActive, b.heap
    ensures b.Core() && b.lists == old(b.lists) && |b.active| == |old(b.active)|
    ensures b.timers[i] < |old(b.evs)|
    ensures ok <==> old(b.evs)[b.timers[i]].timeout || old(b.heap.n < |b.heap.p|) || mallocOk
    ensures ok ==>
              && b.Valid() && OthersSame(old(b.evs), b.evs, b.timers[i]) && b.lists[i][0] < |b.evs|
              && b.evs[b.timers[i]].timeout && b.evs[b.timers[i]].list.None?
              && b.evs[b.timers[i]].timerOf == old(b.evs)[b.timers[i]].timerOf
              && (b.evs[b.timers[i]].active ==> old(b.evs)[b.timers[i]].active)
              && b.evs[b.timers[i]].deadline == b.evs[b.lists[i][0]].deadline
    ensures !ok ==> b.CoveredExcept(i) && b.evs == old(b.evs)
    ensures b.eventCountActive <= old(b.eventCountActive)
    ensures old(b.heap.n < |b.heap.p|) ==>
              |b.heap.p| == |old(b.heap.p)| && b.heap.n == old(b.heap.n) + if old(b.evs)[b.timers[i]].timeout then 0 else 1
  {
    hide b.Core, b.CoveredExcept, Remove, EvOk;
    HeadOf(b, i);
    var t := b.timers[i];
    var d := b.evs[b.lists[i][0]].deadline;
    ghost var v := b.evs[t];
    if !b.evs[t].timeout {
      ok := ReserveHeap(b, b.heap.n + 1, mallocOk);
      if !ok {
        return;
      }
    }
    HeapRoom(b);
    Untime(b, t, i);
    InListRange(b, t);
    TimedOk(b.evs[t], Tv(d, None, true), d, |b.timers|, |b.active|);
    HeadOf(b, i);
    b.InsertIntoHeap(t, Timed(b.evs[t], Tv(d, None, true), d), i);
    Scheduled(b, i);
    ok := true;
  }

  ghost predicate OthersSame(was: seq<Ev>, now: seq<Ev>, t: nat)
  {
    |was| == |now| && forall e :: 0 <= e < |was| && e != t ==> now[e] == was[e]
  }

  /** A struct timeval as event_add_nolock_ gets it; list is its common timeout. */
  datatype Tv = Tv(us: int, list: Option<nat>, absolute: bool)

  predicate Remembers(v: Ev, tv: Tv)
  {
    v.closure == Persist && !tv.absolute
  }

  /** The event with its new timeout; a persistent event remembers the interval. */
  function Timed(v: Ev, tv: Tv, d: int): Ev
  {
    v.(timeout := true, deadline := d, list := tv.list,
       period := if Remembers(v, tv) then tv.us else v.period,
       periodList := if Remembers(v, tv) then tv.list else v.periodList)
  }

  function DeadlineOf(tv: Tv, now: int): int
  {
    if tv.absolute then tv.us else now + tv.us
  }

  /** Whether the caller may give the event this timeout: a common timeout must be one
      of the base's, and an absolute time for a persistent event keeps its tag. */
  predicate Acceptable(v: Ev, tv: Tv, nl: nat)
  {
    && (tv.list.Some? ==> tv.list.value < nl)
    && (tv.absolute && v.closure == Persist && HasPeriod(v) ==> tv.list == v.periodList)
  }

  /** What a new timeout makes of an event: it is pending at an absolute time, or so long
      after now; a persistent event takes a relative time as its interval; one that is
      active because of its old timeout is not any more. Nothing else changes. */
  predicate PendingAt(v: Ev, u: Ev, tv: Tv, now: int)
  {
    && u.timeout && u.list == tv.list && u.deadline == (if tv.absolute then tv.us else now + tv.us)
    && (v.closure == Persist && !tv.absolute ==> u.period == tv.us && u.periodList == tv.list)
    && (v.closure != Persist || tv.absolute ==> u.period == v.period && u.periodList == v.periodList)
    && (u.active <==> v.active && !v.resTimeout)
    && u == v.(timeout := u.timeout, list := u.list, deadline := u.deadline, period := u.period, periodList := u.periodList, active := u.active)
  }

  lemma TimedIs(v: Ev, tv: Tv, now: int)
    ensures PendingAt(v, Timed(Untimed(v), tv, DeadlineOf(tv, now)), tv, now)
  {
  }

  lemma TimedOk(v: Ev, tv: Tv, d: int, nl: nat, nq: nat)
    requires EvOk(v, nl, nq) && v.isEvent && !v.finalizing && Acceptable(v, tv, nl)
    requires v.timerOf.Some? ==> tv.list.None?
    ensures EvOk(Timed(v, tv, d), nl, nq)
  {
  }

  lemma TimedShape(v: Ev, tv: Tv, d: int)
    ensures Retimed(v, Timed(v, tv, d)) && Timed(v, tv, d).list == tv.list && Timed(v, tv, d).deadline == d
  {
  }

  lemma UntimedOk(v: Ev, tv: Tv, nl: nat, nq: nat)
    requires EvOk(v, nl, nq) && Acceptable(v, tv, nl)
    ensures EvOk(Untimed(v), nl, nq) && Acceptable(Untimed(v), tv, nl) && !Untimed(v).timeout
    ensures Untimed(v).timerOf == v.timerOf && Untimed(v).isEvent == v.isEvent && Untimed(v).finalizing == v.finalizing
  {
  }

  lemma SameLists(lists: seq<seq<nat>>, e: nat, v: Ev)
    ensures |ListsWithout(lists, e, v)| == |lists|
    ensures forall i :: 0 <= i < |lists| && lists[i] == [] ==> ListsWithout(lists, e, v)[i] == []
  {
  }

  /** The heap has to grow for a new timeout of e, and cannot. */
  predicate NoRoom(b: Base, e: nat, mallocOk: bool)
    requires e < |b.evs|
    reads b`evs, b.heap
  {
    !mallocOk && b.heap.n - HeapShare(b.evs[e]) >= |b.heap.p|
  }

  /** event_add_nolock_, the timeout part: sets the deadline and enters the event in
      its queue, or - when the heap cannot grow - in none. */
  method SetTimeout(b: Base, e: nat, tv: Tv, now: int, mallocOk: bool) returns (first: bool)
    requires b.Valid() && e < |b.evs| && b.evs[e].timerOf.None? && b.evs[e].isEvent && !b.evs[e].finalizing
    requires Acceptable(b.evs[e], tv, |b.lists|)
    modifies b`evs, b`lists, b`active, b`eventCount, b`eventCountActive, b.heap
    ensures |b.active| == |old(b.active)| && |b.lists| == |old(b.lists)|
    ensures b.evs == old(b.evs)[e := Timed(Untimed(old(b.evs[e])), tv, DeadlineOf(tv, now))]
    ensures PendingAt(old(b.evs[e]), b.evs[e], tv, now)
    ensures tv.list.None? ==> !first && (b.Valid() <==> !old(NoRoom(b, e, mallocOk)))
    ensures tv.list.None? ==> b.lists == ListsWithout(old(b.lists), e, old(b.evs[e]))
    ensures tv.list.None? && old(b.heap.n < |b.heap.p|) ==>
              |b.heap.p| == |old(b.heap.p)| && b.heap.n == old(b.heap.n) - HeapShare(old(b.evs[e])) + 1
    ensures tv.list.Some? ==>
              && b.Core() && b.lists[tv.list.value] != [] && first == (b.lists[tv.list.value][0] == e)
              && (old(b.lists)[tv.list.value] == [] ==> first)
              && b.CoveredExcept(if first then tv.list.value else -1)
              && b.heap.n == old(b.heap.n) - HeapShare(old(b.evs[e])) && |b.heap.p| == |old(b.heap.p)|
    ensures b.eventCountActive <= old(b.eventCountActive)
  {
    hide b.Core, b.CoveredExcept, Remove, EvOk, Untimed, Timed, Retimed, ListsWithout, Acceptable, PendingAt;
    InListRange(b, e);
    var v := b.evs[e];
    TimedIs(v, tv, now);
    var d := DeadlineOf(tv, now);
    UntimedOk(v, tv, |b.timers|, |b.active|);
    ghost var evs := b.evs;
    Untime(b, e, -1);
    SameLists(old(b.lists), e, v);
    var v1 := b.evs[e];
    var v2 := Timed(v1, tv, d);
    TimedOk(v1, tv, d, |b.timers|, |b.active|);
    TimedShape(v1, tv, d);
    Overwrite(evs, e, v1, v2);
    first := false;
    match tv.list {
      case None =>
        var ok := ReserveHeap(b, b.heap.n + 1, mallocOk);
        if ok {
          b.InsertIntoHeap(e, v2, -1);
        } else {
          NotHeld(b, e);
          b.eventCount := b.eventCount + if v.internal then 0 else 1;
          b.evs := b.evs[e := v2];
          Unheld(b, e);
        }
      case Some(i) =>
        first := b.InsertIntoList(e, v2);
    }
  }

  lemma NotHeld(b: Base, e: nat)
    requires b.Core() && e < |b.evs| && !b.evs[e].timeout
    ensures e < |b.heap.pos| && b.heap.pos[e] == -1
  {
  }

  /** A pending timeout that is in no queue. */
  lemma Unheld(b: Base, e: nat)
    requires e < |b.evs| && b.evs[e].timeout && b.evs[e].list.None?
    requires e < |b.heap.pos| && b.heap.pos[e] == -1
    ensures !b.Core()
  {
  }

  /** The one way to lose a timeout: an event with a pending common timeout gets
      another timeout, and the heap has to grow for it - or for the idle timer of its
      new, empty queue - but cannot. Any other new timeout has its place reserved. */
  predicate Loses(b: Base, e: nat, tv: Tv, mallocOk: bool)
    requires |b.timers| == |b.lists| && e < |b.evs| && Acceptable(b.evs[e], tv, |b.lists|)
    reads b, b.heap
  {
    && !mallocOk && b.heap.n == |b.heap.p| && b.evs[e].timeout && b.evs[e].list.Some?
    && (tv.list.Some? ==> b.lists[tv.list.value] == [] && TimerIdle(b, tv.list.value))
  }

  predicate TimerIdle(b: Base, i: nat)
    requires i < |b.timers|
    reads b`evs, b`running
  {
    var t := b.timers[i];
    t < |b.evs| && !b.evs[t].timeout && !b.evs[t].active && b.running != t
  }

  /** event_add_nolock_ with a timeout, once it has made sure of its place */
  method AddTimeout(b: Base, e: nat, tv: Tv, now: int, mallocOk: bool)
    requires b.Valid() && e < |b.evs| && b.evs[e].timerOf.None? && b.evs[e].isEvent && !b.evs[e].finalizing
    requires Acceptable(b.evs[e], tv, |b.lists|) && (!b.evs[e].timeout ==> b.heap.n < |b.heap.p|)
    modifies b`evs, b`lists, b`active, b`eventCount, b`eventCountActive, b.heap
    ensures |b.active| == |old(b.active)| && |b.lists| == |old(b.lists)|
    ensures |b.evs| == |old(b.evs)| && b.evs[e] == Timed(Untimed(old(b.evs[e])), tv, DeadlineOf(tv, now))
    ensures PendingAt(old(b.evs[e]), b.evs[e], tv, now) && OthersKept(old(b.evs), b.evs, e)
    ensures b.Valid() <==> !old(Loses(b, e, tv, mallocOk))
    ensures b.eventCountActive <= old(b.eventCountActive)
    ensures tv.list.None? ==> b.evs == old(b.evs)[e := b.evs[e]]
    ensures !old(b.evs[e]).timeout ==> old(b.heap.n < |b.heap.p|) && |b.heap.p| == |old(b.heap.p)|
    ensures !old(b.evs[e]).timeout && tv.list.None? ==> b.heap.n == old(b.heap.n) + 1 && b.lists == old(b.lists)
    ensures !old(b.evs[e]).timeout && tv.list.Some? && old(b.lists)[tv.list.value] == [] && old(TimerIdle(b, tv.list.value)) ==>
              b.heap.n == old(b.heap.n) + 1
  {
    hide b.Core, b.CoveredExcept, Remove, EvOk, Untimed, Timed, Acceptable, PendingAt;
    HeapRoom(b);
    InListRange(b, e);
    AcceptableRange(b.evs[e], tv, |b.lists|);
    if tv.list.Some? {
      BeforeAdd(b, e, tv.list.value);
    }
    ghost var was := b.evs;
    var first := SetTimeout(b, e, tv, now, mallocOk);
    if first {
      var i := tv.list.value;
      HeadOf(b, i);
      NotScheduled(b, i);
      var ok := ScheduleTimer(b, i, mallocOk);
      assert ok ==> b.evs[b.timers[i]].timerOf.Some? by {
        HeadOf(b, i);
      }
    }
  }

  /** Events other than e are as they were, but a timer may have been set. */
  ghost predicate OthersKept(was: seq<Ev>, now: seq<Ev>, e: nat)
  {
    && |was| == |now|
    && (forall x :: 0 <= x < |now| && x != e && was[x].timerOf.None? ==> now[x] == was[x])
    && (forall x :: 0 <= x < |now| && x != e && was[x].timerOf.Some? ==>
          now[x].timerOf == was[x].timerOf && (now[x].active ==> was[x].active))
  }

  lemma AcceptableRange(v: Ev, tv: Tv, nl: nat)
    requires Acceptable(v, tv, nl)
    ensures tv.list.Some? ==> tv.list.value < nl
  {
  }

  /** If queue i has events and its timer is not in the heap, the timer is not idle. */
  lemma BeforeAdd(b: Base, e: nat, i: nat)
    requires b.Valid() && i < |b.lists| && e < |b.evs| && b.evs[e].timerOf.None?
    ensures i < |b.timers| && b.timers[i] < |b.evs| && b.timers[i] != e && b.evs[b.timers[i]].timerOf == Some(i)
    ensures TimerIdle(b, i) ==> b.lists[i] == []
  {
    if b.lists[i] != [] {
      HeadOf(b, i);
      assert Covered(b.evs, b.lists[i], b.timers[i], b.running);
    }
  }

  /** A queue with events and an idle timer is not covered; one whose timer is not idle
      but not in the heap is. */
  lemma NotScheduled(b: Base, i: nat)
    requires b.Core() && i < |b.lists| && b.lists[i] != []
    ensures TimerIdle(b, i) ==> !b.CoveredExcept(-1)
    ensures b.CoveredExcept(i) && !TimerIdle(b, i) && !b.evs[b.timers[i]].timeout ==> b.CoveredExcept(-1)
  {
    HeadOf(b, i);
    if b.CoveredExcept(-1) {
      assert Covered(b.evs, b.lists[i], b.timers[i], b.running);
    }
  }
}

/** event.c: how long to wait, which timeouts have expired, and what happens to them. */
module EventTimeouts {
  import opened Bytes
  import opened Queues
  import opened EventQueues
  import opened MinHeap
  import opened EventBase
  import opened EventOps

  /** With no callback queued, no event is active. */
  lemma NoneActive(b: Base, e: nat)
    requires b.Core() && b.eventCountActive == 0 && e < |b.evs|
    ensures !b.evs[e].active && !b.evs[e].later
  {
    var v := b.evs[e];
    FlagsAt(b.evs, |b.timers|, |b.active|, e);
    if v.active {
      LenAtLeast(b.active, v.pri);
      QueueAt(b.evs, b.active, v.pri, e);
    }
    assert IsLater(b.evs, e) <==> e in b.later;
  }

  /** Every pending timeout, common or not, has one in the heap that is no later - if no
      callback is queued or running. */
  lemma HeapInTime(b: Base, e: nat) returns (t: nat)
    requires b.Valid() && b.eventCountActive == 0 && b.running == -1
    requires e < |b.evs| && b.evs[e].timeout
    ensures t < |b.evs| && b.evs[t].timeout && b.evs[t].list.None? && b.evs[t].deadline <= b.evs[e].deadline
  {
    t := e;
    if b.evs[e].list.Some? {
      InListRange(b, e);
      var i := b.evs[e].list.value;
      ListAt(b.evs, b.lists, i, e);
      HeadOf(b, i);
      t := b.timers[i];
      NoneActive(b, t);
      assert Covered(b.evs, b.lists[i], t, b.running);
      var j :| 0 <= j < |b.lists[i]| && b.lists[i][j] == e;
    }
  }

  /** timeout_next, called when no callback is queued: the wait is as long as some
      pending timeout allows, and no longer than any of them allows. */
  method TimeoutNext(b: Base, now: int) returns (wait: Option<int>)
    requires b.Valid() && b.eventCountActive == 0 && b.running == -1
    ensures wait.None? <==> forall e :: 0 <= e < |b.evs| ==> !b.evs[e].timeout
    ensures wait.Some? ==>
              && (exists e :: 0 <= e < |b.evs| && b.evs[e].timeout && wait.value == Max(0, b.evs[e].deadline - now))
              && (forall e :: 0 <= e < |b.evs| && b.evs[e].timeout ==> wait.value <= Max(0, b.evs[e].deadline - now))
  {
    hide b.CoveredExcept, ListsOk, ActiveOk, LaterOk, FlagsOk, TimersOk, TotalWeight, TotalLen;
    if b.heap.n == 0 {
      forall e | 0 <= e < |b.evs|
        ensures !b.evs[e].timeout
      {
        if b.evs[e].timeout {
          var _ := HeapInTime(b, e);
        }
      }
      return None;
    }
    var top := b.heap.Top(Keys(b.evs));
    wait := Some(if b.evs[top].deadline <= now then 0 else b.evs[top].deadline - now);
    forall e | 0 <= e < |b.evs| && b.evs[e].timeout
      ensures wait.value <= Max(0, b.evs[e].deadline - now)
    {
      var t := HeapInTime(b, e);
      assert b.heap.pos[t] != -1;
    }
    assert b.evs[top].timeout;
  }

  /** What timeout_process makes of an event: an expired one becomes active. */
  function Expired(v: Ev): Ev
  {
    Activated(Deleted(v), true)
  }

  /** An expired event is not added any more, and active because of its timeout. */
  predicate RanOut(v: Ev, u: Ev)
  {
    && !u.timeout && !u.inserted && !u.later && u.active && u.resTimeout
    && u == v.(timeout := false, inserted := false, later := false, active := true, resTimeout := true)
  }

  lemma ExpiredIs(v: Ev)
    requires !v.finalizing
    ensures RanOut(v, Expired(v))
  {
  }

  lemma AllRanOut(b: Base)
    requires b.Core()
    ensures forall e :: 0 <= e < |b.evs| && b.evs[e].timeout ==> RanOut(b.evs[e], Expired(b.evs[e]))
  {
    hide Expired, RanOut;
    forall e | 0 <= e < |b.evs| && b.evs[e].timeout
      ensures RanOut(b.evs[e], Expired(b.evs[e]))
    {
      InListRange(b, e);
      ExpiredIs(b.evs[e]);
    }
  }

  predicate Expires(v: Ev, now: int)
  {
    v.timeout && v.list.None? && v.deadline <= now
  }

  /** The active queues after e has expired: it is last in its own, once. */
  function Requeued(active: seq<seq<nat>>, e: nat, v: Ev): seq<seq<nat>>
  {
    var qs := Unqueued(active, e, v);
    if v.pri < |qs| then qs[v.pri := qs[v.pri] + [e]] else qs
  }

  /** The same for several events, one after the other. */
  function AllRequeued(active: seq<seq<nat>>, evs: seq<Ev>, log: seq<nat>): seq<seq<nat>>
  {
    if log == [] then active
    else
      var e := log[|log| - 1];
      var qs := AllRequeued(active, evs, log[..|log| - 1]);
      if e < |evs| then Requeued(qs, e, evs[e]) else qs
  }

  lemma RequeuedSnoc(active: seq<seq<nat>>, evs: seq<Ev>, log: seq<nat>, e: nat)
    requires e < |evs|
    ensures AllRequeued(active, evs, log + [e]) == Requeued(AllRequeued(active, evs, log), e, evs[e])
  {
    assert (log + [e])[..|log|] == log;
  }

  /** The first of the heap expires: it leaves every queue and becomes active. */
  method ExpireTop(b: Base, e: nat)
    requires b.Valid() && e < |b.evs| && b.evs[e].timeout && b.evs[e].list.None?
    modifies b`evs, b`lists, b`active, b`later, b`eventCount, b`eventCountActive, b`eventContinue, b.heap
    ensures b.Valid() && b.evs == old(b.evs)[e := Expired(old(b.evs[e]))]
    ensures b.heap.n == old(b.heap.n) - 1 && b.lists == old(b.lists) && |b.active| == |old(b.active)|
    ensures !b.evs[e].timeout && b.evs[e].active
    ensures b.active == Requeued(old(b.active), e, old(b.evs[e]))
  {
    hide b.Core, b.CoveredExcept, EvOk, Deleted, Activated, Remove, Unqueued;
    var v := b.evs[e];
    InListRange(b, e);
    TimedNotFinal(v, |b.timers|, |b.active|);
    Overwrite(b.evs, e, Deleted(v), Expired(v));
    ExpiredShape(v);
    Del(b, e);
    Active(b, e, true, TimerIndex(v));
  }

  lemma TimedNotFinal(v: Ev, nl: nat, nq: nat)
    requires EvOk(v, nl, nq) && v.timeout
    ensures !v.finalizing
  {
  }

  lemma ExpiredShape(v: Ev)
    requires !v.finalizing
    ensures TimerIndex(Deleted(v)) == TimerIndex(v) && !Expired(v).timeout && Expired(v).active
    ensures !Deleted(v).active && !Deleted(v).finalizing && Deleted(v).pri == v.pri
    ensures Expired(v).timerOf == v.timerOf
  {
  }

  /** timeout_process: every timeout in the heap that has expired, and no other, is
      taken out and activated, once each and in the order of their deadlines. The heap
      shrinks each time, because no event in it is finalizing. */
  method TimeoutProcess(b: Base, now: int) returns (ghost log: seq<nat>)
    requires b.Valid()
    modifies b`evs, b`lists, b`active, b`later, b`eventCount, b`eventCountActive, b`eventContinue, b.heap
    ensures b.Valid() && b.lists == old(b.lists) && |b.active| == |old(b.active)|
    ensures |b.evs| == |old(b.evs)|
    ensures forall e :: 0 <= e < |b.evs| ==>
              b.evs[e] == if Expires(old(b.evs)[e], now) then Expired(old(b.evs)[e]) else old(b.evs)[e]
    ensures forall e :: 0 <= e < |b.evs| ==>
              var v := old(b.evs)[e];
              if v.timeout && v.list.None? && v.deadline <= now then RanOut(v, b.evs[e]) else b.evs[e] == v
    ensures forall e :: 0 <= e < |b.evs| ==> !Expires(b.evs[e], now)
    ensures Sorted(old(b.evs), log) && NoDup(log)
    ensures forall e: nat :: e in log <==> e < |old(b.evs)| && Expires(old(b.evs)[e], now)
    ensures b.active == AllRequeued(old(b.active), old(b.evs), log)
  {
    hide b.CoveredExcept, ListsOk, ActiveOk, LaterOk, FlagsOk, TimersOk, TotalWeight, TotalLen, Expired, PlacesOk, Ordered, EvOk;
    hide AllRequeued, Requeued, Sorted, NoDup, RanOut;
    ghost var was := b.evs;
    AllRanOut(b);
    log := [];
    NothingYet(b, log);
    while b.heap.n > 0
      invariant b.Valid() && b.lists == old(b.lists) && |b.active| == |old(b.active)| && |b.evs| == |was|
      invariant forall e :: 0 <= e < |was| ==>
        (b.evs[e] == was[e] || (Expires(was[e], now) && b.evs[e] == Expired(was[e]) && !b.evs[e].timeout))
      invariant b.active == AllRequeued(old(b.active), was, log) && ExpiredSoFar(was, b.evs, log, now)
      decreases b.heap.n
    {
      var e := b.heap.Top(Keys(b.evs));
      if b.evs[e].deadline > now {
        NoneDue(b, e, now);
        break;
      }
      assert b.evs[e].timeout && b.evs[e].list.None?;
      NextExpires(was, b.evs, b.heap.pos, log, e, now);
      RequeuedSnoc(old(b.active), was, log, e);
      ExpireTop(b, e);
      log := log + [e];
    }
    if b.heap.n == 0 {
      EmptyHeap(b);
    }
    assert forall x :: 0 <= x < |b.evs| ==> !Expires(b.evs[x], now);
  }

  /** These events have expired, in the order of their deadlines, and what is left in the
      heap is no earlier. */
  ghost predicate ExpiredSoFar(was: seq<Ev>, evs: seq<Ev>, log: seq<nat>, now: int)
  {
    && |was| == |evs| && Sorted(was, log) && NoDup(log)
    && (forall e :: e in log ==> e < |was| && Expires(was[e], now) && !evs[e].timeout)
    && (forall e :: 0 <= e < |was| && e !in log ==> evs[e] == was[e])
    && (forall e, x :: e in log && 0 <= x < |evs| && e < |was| && evs[x].timeout && evs[x].list.None? ==> was[e].deadline <= evs[x].deadline)
  }

  lemma NothingYet(b: Base, log: seq<nat>)
    requires log == []
    ensures AllRequeued(b.active, b.evs, log) == b.active && forall now :: ExpiredSoFar(b.evs, b.evs, log, now)
  {
  }

  lemma NextExpires(was: seq<Ev>, evs: seq<Ev>, pos: seq<int>, log: seq<nat>, e: nat, now: int)
    requires ExpiredSoFar(was, evs, log, now) && HeapHolds(evs, pos)
    requires e < |evs| && Expires(evs[e], now)
    requires forall x :: 0 <= x < |pos| && pos[x] != -1 ==> evs[e].deadline <= evs[x].deadline
    ensures evs[e] == was[e] && ExpiredSoFar(was, evs[e := Expired(was[e])], log + [e], now)
  {
    assert e !in log;
    var l := log + [e];
    assert forall x :: x in l <==> x in log || x == e;
  }

  lemma NoneDue(b: Base, top: nat, now: int)
    requires b.Core() && top < |b.evs| && b.evs[top].deadline > now
    requires forall x :: 0 <= x < |b.heap.pos| && b.heap.pos[x] != -1 ==> Keys(b.evs)[top] <= Keys(b.evs)[x]
    ensures forall x :: 0 <= x < |b.evs| ==> !Expires(b.evs[x], now)
  {
  }

  lemma EmptyHeap(b: Base)
    requires b.Core() && b.heap.n == 0
    ensures forall e :: 0 <= e < |b.evs| && b.evs[e].timeout ==> b.evs[e].list.Some?
  {
  }

  predicate ExpiresIn(v: Ev, i: nat, now: int)
  {
    v.timeout && v.list == Some(i) && v.deadline <= now
  }

  /** The first event of queue i expires. */
  method ExpireHead(b: Base, i: nat) returns (ghost e: nat)
    requires b.Valid() && i < |b.lists| && b.lists[i] != []
    modifies b`evs, b`lists, b`active, b`later, b`eventCount, b`eventCountActive, b`eventContinue, b.heap
    ensures b.Valid() && e < |old(b.evs)| && e == old(b.lists[i])[0] && old(b.evs)[e].list == Some(i)
    ensures b.evs == old(b.evs)[e := Expired(old(b.evs)[e])] && !b.evs[e].timeout && old(b.evs)[e].timeout
    ensures b.lists == old(b.lists)[i := old(b.lists[i])[1..]]
    ensures b.heap.n == old(b.heap.n) && |b.heap.p| == |old(b.heap.p)| && |b.active| == |old(b.active)|
    ensures old(b.evs)[e].timerOf.None?
  {
    hide b.Core, b.CoveredExcept, EvOk, Deleted, Activated;
    HeadOf(b, i);
    var h := b.lists[i][0];
    e := h;
    var v := b.evs[h];
    InListRange(b, h);
    TimedNotFinal(v, |b.timers|, |b.active|);
    Overwrite(b.evs, h, Deleted(v), Expired(v));
    ExpiredShape(v);
    Del(b, h);
    Active(b, h, true, -1);
  }

  /** The timer of queue i has to be set again, for an event that has not expired, but the
      heap has to grow for it and cannot. */
  ghost predicate TimerLost(b: Base, i: nat, now: int, mallocOk: bool)
    requires i < |b.timers| && b.timers[i] < |b.evs|
    reads b, b.heap
  {
    && !mallocOk && b.heap.n >= |b.heap.p| && !b.evs[b.timers[i]].timeout && !b.evs[b.timers[i]].active
    && exists e :: 0 <= e < |b.evs| && InList(b.evs, e, i) && b.evs[e].deadline > now
  }

  /** common_timeout_callback: activates the events of queue i that have expired, and
      sets the timer for the first one left; so the queue no longer depends on its
      timer being run, unless there is no memory for it. */
  method CommonTimeoutCallback(b: Base, i: nat, now: int, mallocOk: bool) returns (lost: bool)
    requires b.Valid() && i < |b.lists| && b.running == b.timers[i]
    modifies b`evs, b`lists, b`active, b`later, b`eventCount, b`eventCountActive, b`eventContinue, b.heap
    ensures b.Core() && b.CoveredExcept(-1) && |b.active| == |old(b.active)| && |b.lists| == |old(b.lists)|
    ensures b.timers[i] < |old(b.evs)| && (lost <==> old(TimerLost(b, i, now, mallocOk)))
    ensures CoveredBut(b.evs, b.lists, b.timers, -1, -1) <==> !lost
    ensures |b.evs| == |old(b.evs)|
    ensures forall e :: 0 <= e < |b.evs| && e != b.timers[i] ==>
              b.evs[e] == if ExpiresIn(old(b.evs)[e], i, now) then Expired(old(b.evs)[e]) else old(b.evs)[e]
    ensures forall e :: 0 <= e < |b.evs| && e != b.timers[i] ==>
              var v := old(b.evs)[e];
              if v.timeout && v.list == Some(i) && v.deadline <= now then RanOut(v, b.evs[e]) else b.evs[e] == v
    ensures forall e :: 0 <= e < |b.evs| ==> !ExpiresIn(b.evs[e], i, now)
    ensures old(b.evs)[b.timers[i]].timerOf.Some? && (b.evs[b.timers[i]].active ==> old(b.evs)[b.timers[i]].active)
  {
    hide b.Core, b.CoveredExcept, Expired, EvOk, Remove, RanOut;
    ghost var was := b.evs;
    AllRanOut(b);
    TimerKnown(b, i);
    HeadKnown(b, i);
    while b.lists[i] != [] && b.evs[b.lists[i][0]].deadline <= now
      invariant b.Valid() && |b.lists| == |old(b.lists)| && |b.active| == |old(b.active)| && |b.evs| == |was|
      invariant b.heap.n == old(b.heap.n) && |b.heap.p| == |old(b.heap.p)|
      invariant b.lists[i] != [] ==> b.lists[i][0] < |b.evs|
      invariant was[b.timers[i]].timerOf.Some? && b.evs[b.timers[i]] == was[b.timers[i]]
      invariant forall e :: 0 <= e < |was| ==>
        (b.evs[e] == was[e] || (ExpiresIn(was[e], i, now) && b.evs[e] == Expired(was[e]) && !b.evs[e].timeout))
      decreases |b.lists[i]|
    {
      var _ := ExpireHead(b, i);
      HeadKnown(b, i);
    }
    NoneExpired(b, i, now);
    SomeLeft(was, b, i, now);
    lost := false;
    if b.lists[i] != [] {
      Widen(b, -1, i);
      var ok := ScheduleTimer(b, i, mallocOk);
      if ok {
        NotNeeded(b, i);
      } else {
        RunningCovers(b, i);
        lost := !b.evs[b.timers[i]].active;
        if lost {
          Uncovered(b, i);
        } else {
          NotNeeded(b, i);
        }
      }
    } else {
      NotNeeded(b, i);
    }
  }

  /** The queue that is left has an event exactly if one had not expired. */
  lemma SomeLeft(was: seq<Ev>, b: Base, i: nat, now: int)
    requires b.Core() && i < |b.lists| && |was| == |b.evs|
    requires forall e :: 0 <= e < |was| ==>
               (b.evs[e] == was[e] || (ExpiresIn(was[e], i, now) && b.evs[e] == Expired(was[e]) && !b.evs[e].timeout))
    requires forall e :: 0 <= e < |b.evs| ==> !ExpiresIn(b.evs[e], i, now)
    ensures b.lists[i] != [] <==> exists e :: 0 <= e < |was| && InList(was, e, i) && was[e].deadline > now
  {
    if b.lists[i] != [] {
      HeadOf(b, i);
      var e := b.lists[i][0];
      assert InList(was, e, i);
    }
    if e :| 0 <= e < |was| && InList(was, e, i) && was[e].deadline > now {
      assert b.evs[e] == was[e];
      ListAt(b.evs, b.lists, i, e);
    }
  }

  lemma Uncovered(b: Base, i: nat)
    requires b.Core() && i < |b.lists| && b.lists[i] != []
    requires i < |b.timers| && b.timers[i] < |b.evs| && !b.evs[b.timers[i]].timeout && !b.evs[b.timers[i]].active
    ensures !CoveredBut(b.evs, b.lists, b.timers, -1, -1)
  {
    HeadOf(b, i);
    assert !Covered(b.evs, b.lists[i], b.timers[i], -1);
  }

  lemma TimerKnown(b: Base, i: nat)
    requires b.Core() && i < |b.lists|
    ensures i < |b.timers| && b.timers[i] < |b.evs| && b.evs[b.timers[i]].timerOf.Some?
  {
  }

  lemma HeadKnown(b: Base, i: nat)
    requires b.Core() && i < |b.lists|
    ensures b.lists[i] != [] ==> b.lists[i][0] < |b.evs|
  {
    if b.lists[i] != [] {
      HeadOf(b, i);
    }
  }

  /** If the first of a sorted queue has not expired, none has. */
  lemma NoneExpired(b: Base, i: nat, now: int)
    requires b.Core() && i < |b.lists|
    requires b.lists[i] != [] ==> b.lists[i][0] < |b.evs| && b.evs[b.lists[i][0]].deadline > now
    ensures forall e :: 0 <= e < |b.evs| ==> !ExpiresIn(b.evs[e], i, now)
  {
    forall e | 0 <= e < |b.evs|
      ensures !ExpiresIn(b.evs[e], i, now)
    {
      ListAt(b.evs, b.lists, i, e);
      if e in b.lists[i] {
        var j :| 0 <= j < |b.lists[i]| && b.lists[i][j] == e;
      }
    }
  }

  /** Once queue i is covered by its timer's place, or empty, the timer may stop running. */
  lemma NotNeeded(b: Base, i: nat)
    requires b.Core() && b.CoveredExcept(-1) && i < |b.lists| && b.running == b.timers[i]
    requires b.lists[i] != [] ==>
               && b.timers[i] < |b.evs| && b.lists[i][0] < |b.evs|
               && Due(b.evs[b.timers[i]], b.evs[b.lists[i][0]].deadline)
    ensures CoveredBut(b.evs, b.lists, b.timers, -1, -1)
  {
    forall j | 0 <= j < |b.lists|
      ensures Covered(b.evs, b.lists[j], b.timers[j], -1)
    {
      assert Covered(b.evs, b.lists[j], b.timers[j], b.running);
      assert TimersOk(b.evs, b.timers);
      assert b.evs[b.timers[j]].timerOf == Some(j) && b.evs[b.timers[i]].timerOf == Some(i);
    }
  }

  lemma RunningCovers(b: Base, i: nat)
    requires b.CoveredExcept(i) && i < |b.lists| && b.running == b.timers[i]
    ensures b.CoveredExcept(-1)
  {
    assert Covered(b.evs, b.lists[i], b.timers[i], b.running);
  }
}

/** event.c: the timeouts and active queues as the event loop sees them. */
module EventLoop {
  import opened Bytes
  import opened Queues
  import opened EventQueues
  import opened MinHeap
  import opened EventBase
  import opened EventOps

  const MAX_DEFERREDS_QUEUED := 32

  /** Whether event_add_nolock_ hands the event to the I/O map. */
  predicate Registers(v: Ev)
  {
    v.io && !(v.inserted || v.active || v.later)
  }

  function Registered(v: Ev): Ev
  {
    v.(inserted := v.inserted || Registers(v))
  }

  lemma RegisteredOk(v: Ev, nl: nat, nq: nat)
    requires EvOk(v, nl, nq) && v.isEvent && !v.finalizing && v.timerOf.None?
    ensures EvOk(v.(inserted := true), nl, nq)
  {
  }

  /** Whether event_add_nolock_ succeeds and yet leaves a timeout where nobody looks. */
  predicate AddLoses(b: Base, e: nat, tv: Option<Tv>, mapOk: bool, mallocOk: bool)
    requires |b.timers| == |b.lists| && e < |b.evs| && (tv.Some? ==> Acceptable(b.evs[e], tv.value, |b.lists|))
    reads b, b.heap
  {
    !b.evs[e].finalizing && (Registers(b.evs[e]) ==> mapOk) && tv.Some? && Loses(b, e, tv.value, mallocOk)
  }

  /** What event_add makes of an event: one that waits for I/O is handed to the map, unless
      it is there or queued; with a timeout it is pending at an absolute time, or so long
      after now, and a persistent event takes a relative time as its interval; one that is
      active because of its old timeout is not any more. Nothing else changes. */
  predicate Added(v: Ev, u: Ev, tv: Option<Tv>, now: int)
  {
    && (u.inserted <==> v.inserted || (v.io && !v.active && !v.later))
    && (tv.None? ==> u == v.(inserted := u.inserted))
    && (tv.Some? ==>
          && u.timeout && u.list == tv.value.list
          && u.deadline == (if tv.value.absolute then tv.value.us else now + tv.value.us)
          && (if v.closure == Persist && !tv.value.absolute
              then u.period == tv.value.us && u.periodList == tv.value.list
              else u.period == v.period && u.periodList == v.periodList)
          && (u.active <==> v.active && !v.resTimeout)
          && u == v.(inserted := u.inserted, timeout := true, list := u.list, deadline := u.deadline,
                     period := u.period, periodList := u.periodList, active := u.active))
  }

  /** event_add_nolock_, the I/O part. */
  method Register(b: Base, e: nat, mapOk: bool) returns (ok: bool)
    requires b.Valid() && e < |b.evs| && b.evs[e].timerOf.None? && b.evs[e].isEvent && !b.evs[e].finalizing
    modifies b`evs, b`eventCount
    ensures b.Valid() && (ok <==> !Registers(old(b.evs[e])) || mapOk)
    ensures b.evs == if ok then old(b.evs)[e := Registered(old(b.evs[e]))] else old(b.evs)
  {
    hide b.Core, b.CoveredExcept, EvOk;
    var v := b.evs[e];
    Overwrite(b.evs, e, v, v);
    ok := true;
    if Registers(v) {
      if !mapOk {
        return false;
      }
      InListRange(b, e);
      RegisteredOk(v, |b.timers|, |b.active|);
      b.SetInserted(e, true, -1);
    }
  }

  /** event_add_nolock_: its result, and the one case in which the base is not consistent
      afterwards. */
  method Add(b: Base, e: nat, tv: Option<Tv>, now: int, mapOk: bool, mallocOk: bool) returns (r: int)
    requires b.Valid() && e < |b.evs| && b.evs[e].timerOf.None? && b.evs[e].isEvent
    requires tv.Some? ==> Acceptable(b.evs[e], tv.value, |b.lists|)
    modifies b`evs, b`lists, b`active, b`eventCount, b`eventCountActive, b.heap
    ensures var v := old(b.evs[e]);
            r == if v.finalizing || (v.io && !v.inserted && !v.active && !v.later && !mapOk)
                    || (tv.Some? && !v.timeout && !mallocOk && old(b.heap.n == |b.heap.p|)) then -1 else 0
    ensures r == -1 ==> b.Valid() && b.evs == old(b.evs)
    ensures |b.active| == |old(b.active)| && |b.lists| == |old(b.lists)| && OthersKept(old(b.evs), b.evs, e)
    ensures r == 0 ==> Added(old(b.evs[e]), b.evs[e], tv, now)
    ensures b.Valid() <==> !old(AddLoses(b, e, tv, mapOk, mallocOk))
    ensures r == 0 && tv.Some? && !old(b.evs[e]).timeout ==>
              && |b.heap.p| == GrownTo(|old(b.heap.p)|, old(b.heap.n) + 1)
              && (tv.value.list.None? ==>
                    b.heap.n == old(b.heap.n) + 1 && b.lists == old(b.lists) && b.evs == old(b.evs)[e := b.evs[e]])
              && (tv.value.list.Some? && old(b.lists)[tv.value.list.value] == [] && old(TimerIdle(b, tv.value.list.value)) ==>
                    b.heap.n == old(b.heap.n) + 1)
    ensures b.eventCountActive <= old(b.eventCountActive)
  {
    hide b.Core, b.CoveredExcept, EvOk, Untimed, Timed, Acceptable, Added, DeadlineOf, Registered, GrownTo;
    var v := b.evs[e];
    HeapRoom(b);
    if v.finalizing {
      return -1;
    }
    if tv.Some? && !v.timeout {
      var ok := ReserveHeap(b, b.heap.n + 1, mallocOk);
      if !ok {
        return -1;
      }
    }
    if tv.Some? && tv.value.list.Some? {
      AcceptableRange(v, tv.value, |b.lists|);
      BeforeAdd(b, e, tv.value.list.value);
    }
    ghost var was := b.evs;
    var ok := Register(b, e, mapOk);
    if !ok {
      return -1;
    }
    Overwrite(was, e, b.evs[e], b.evs[e]);
    r := 0;
    if tv.Some? {
      StillAcceptable(v, tv.value, |b.lists|);
      AddTimeout(b, e, tv.value, now, mallocOk);
    }
    AddedIs(v, tv, now);
  }

  lemma AddedIs(v: Ev, tv: Option<Tv>, now: int)
    ensures Added(v, if tv.None? then Registered(v) else Timed(Untimed(Registered(v)), tv.value, DeadlineOf(tv.value, now)), tv, now)
  {
    if tv.Some? {
      TimedIs(Registered(v), tv.value, now);
    }
  }

  lemma StillAcceptable(v: Ev, tv: Tv, nl: nat)
    requires Acceptable(v, tv, nl)
    ensures Acceptable(Registered(v), tv, nl) && Registered(v).timeout == v.timeout && Registered(v).list == v.list
    ensures Registered(v).timerOf == v.timerOf && Registered(v).isEvent == v.isEvent && Registered(v).finalizing == v.finalizing
  {
  }

  /** event_finalize_nolock_ and event_callback_finalize_nolock_: the event leaves every
      queue but the active one, and no operation brings it back. */
  method Finalize(b: Base, e: nat)
    requires b.Valid() && e < |b.evs| && b.evs[e].timerOf.None?
    modifies b`evs, b`lists, b`active, b`later, b`eventCount, b`eventCountActive, b`eventContinue, b.heap
    ensures b.Valid() && |b.active| == |old(b.active)| && |b.lists| == |old(b.lists)| && OthersKept(old(b.evs), b.evs, e)
    ensures b.evs[e].finalizing && b.evs[e].closure == Finalizer && !b.evs[e].timeout && !b.evs[e].inserted
    ensures !old(b.evs[e]).finalizing ==>
              b.evs[e] == old(b.evs[e]).(finalizing := true, closure := Finalizer, timeout := false, inserted := false,
                                         later := false, active := true, resTimeout := false)
  {
    hide b.Core, b.CoveredExcept, EvOk, Deleted, Activated, Remove;
    var v := b.evs[e];
    Del(b, e);
    SameLists(old(b.lists), e, v);
    DeletedShape(v);
    if !v.finalizing {
      FinalIs(v);
    }
    var v1 := b.evs[e];
    Active(b, e, false, -1);
    ActivatedShape(v1);
    InListRange(b, e);
    var v2 := b.evs[e];
    FinalOk(v2, |b.timers|, |b.active|);
    b.SetEv(e, v2.(finalizing := true, closure := Finalizer), -1);
  }

  lemma FinalIs(v: Ev)
    requires !v.finalizing
    ensures Activated(Deleted(v), false).(finalizing := true, closure := Finalizer)
            == v.(finalizing := true, closure := Finalizer, timeout := false, inserted := false,
                  later := false, active := true, resTimeout := false)
  {
  }

  lemma DeletedShape(v: Ev)
    ensures var u := Deleted(v); u.timerOf == v.timerOf && !u.timeout && !u.inserted && u.finalizing == v.finalizing
  {
  }

  lemma ActivatedShape(v: Ev)
    ensures var u := Activated(v, false);
            && u.timerOf == v.timerOf && u.timeout == v.timeout && u.inserted == v.inserted && u.finalizing == v.finalizing
            && (!v.finalizing ==> u.active)
  {
  }

  lemma FinalOk(v: Ev, nl: nat, nq: nat)
    requires EvOk(v, nl, nq) && v.timerOf.None? && !v.timeout && !v.inserted
    ensures EvOk(v.(finalizing := true, closure := Finalizer), nl, nq)
  {
  }

  /** event_callback_activate_later_nolock_ */
  method ActivateLater(b: Base, e: nat) returns (r: int)
    requires b.Valid() && e < |b.evs| && b.evs[e].timerOf.None?
    modifies b`evs, b`later, b`eventCount, b`eventCountActive
    ensures b.Valid()
    ensures var v := old(b.evs[e]);
            if v.active || v.later then r == 0 && b.evs == old(b.evs) && b.later == old(b.later)
            else r == 1 && b.evs == old(b.evs)[e := v.(later := true)] && b.later == old(b.later) + [e]
    ensures b.eventCountActive == old(b.eventCountActive) + r
  {
    hide b.Core, b.CoveredExcept, EvOk;
    if b.evs[e].active || b.evs[e].later {
      return 0;
    }
    b.InsertLater(e, -1);
    r := 1;
  }

  /** An event that is not active waits, for the given reason and those for which it was
      queued. */
  predicate Awaits(v: Ev, u: Ev, res: bool)
  {
    && (u.later <==> v.later || !v.active) && (u.resTimeout <==> res || (v.resTimeout && (v.active || v.later)))
    && u == v.(later := u.later, resTimeout := u.resTimeout)
  }

  lemma AwaitsIs(v: Ev, res: bool)
    ensures v.active || v.later ==> Awaits(v, v.(resTimeout := Reason(v, res)), res)
    ensures !v.active && !v.later ==> Awaits(v, v.(resTimeout := Reason(v, res), later := true), res)
  {
  }

  /** event_active_later_nolock_: the event waits, and its reasons add up. */
  method ActiveLater(b: Base, e: nat, res: bool)
    requires b.Valid() && e < |b.evs| && b.evs[e].timerOf.None?
    modifies b`evs, b`later, b`eventCount, b`eventCountActive
    ensures b.Valid()
    ensures b.evs == old(b.evs)[e := b.evs[e]] && Awaits(old(b.evs[e]), b.evs[e], res)
    ensures var v := old(b.evs[e]); b.later == old(b.later) + if v.active || v.later then [] else [e]
  {
    hide b.Core, b.CoveredExcept, EvOk, Reason, Awaits;
    InListRange(b, e);
    var v := b.evs[e];
    ghost var evs, v' := b.evs, v.(resTimeout := Reason(v, res));
    ResOk(v, |b.timers|, |b.active|, Reason(v, res));
    b.SetEv(e, v.(resTimeout := Reason(v, res)), -1);
    var _ := ActivateLater(b, e);
    AwaitsAt(evs, e, v, v', res, b.evs);
  }

  lemma AwaitsAt(evs: seq<Ev>, e: nat, v: Ev, v': Ev, res: bool, evs': seq<Ev>)
    requires e < |evs| && evs[e] == v && v' == v.(resTimeout := Reason(v, res))
    requires evs' == if v'.active || v'.later then evs[e := v'] else evs[e := v'][e := v'.(later := true)]
    ensures |evs'| == |evs| && evs' == evs[e := evs'[e]] && Awaits(v, evs'[e], res)
  {
    Overwrite(evs, e, v', v');
    Overwrite(evs, e, v', v'.(later := true));
    AwaitsIs(v, res);
  }

  /** event_deferred_cb_schedule_: past the limit, callbacks wait for the next pass. */
  method ScheduleDeferred(b: Base, e: nat) returns (r: int)
    requires b.Valid() && e < |b.evs| && b.evs[e].timerOf.None?
    modifies b`evs, b`active, b`later, b`eventCount, b`eventCountActive, b`nDeferreds
    ensures b.Valid() && |b.active| == |old(b.active)| && OthersKept(old(b.evs), b.evs, e)
    ensures Work(b) <= old(Work(b))
    ensures var v, waits := old(b.evs[e]), old(b.nDeferreds) > MAX_DEFERREDS_QUEUED;
            && b.evs == old(b.evs)[e := b.evs[e]] && Postponed(v, b.evs[e], waits)
            && (r == if v.active || v.later || (v.finalizing && !waits) then 0 else 1)
            && b.nDeferreds == old(b.nDeferreds) + if waits then 0 else r
    ensures old(b.nDeferreds) > MAX_DEFERREDS_QUEUED ==>
              b.active == old(b.active) && b.later == old(b.later) + if r == 0 then [] else [e]
    ensures old(b.nDeferreds) <= MAX_DEFERREDS_QUEUED ==>
              var v := old(b.evs[e]);
              if v.active || v.finalizing then b.active == old(b.active) && b.later == old(b.later)
              else && v.pri < |old(b.active)| && b.active == old(b.active)[v.pri := old(b.active)[v.pri] + [e]]
                   && b.later == if v.later then Remove(old(b.later), e) else old(b.later)
  {
    hide b.Core, b.CoveredExcept, EvOk, Remove, TotalLen, OthersKept, Queued, Postponed;
    ghost var was := b.evs;
    PostponedIs(b.evs[e]);
    Overwrite(b.evs, e, b.evs[e], b.evs[e]);
    if b.nDeferreds > MAX_DEFERREDS_QUEUED {
      r := ActivateLater(b, e);
    } else {
      TotalAt(b);
      r := ActivateCallback(b, e, -1);
      TotalAt(b);
      if r != 0 {
        b.nDeferreds := b.nDeferreds + 1;
      }
    }
    OneKept(was, e, b.evs[e]);
  }

  lemma OneKept(evs: seq<Ev>, e: nat, v: Ev)
    requires e < |evs|
    ensures OthersKept(evs, evs[e := v], e)
  {
  }

  /** A deferred callback is active at once or waits, unless it is active already or, when
      it need not wait, its event is being finalized. */
  predicate Postponed(v: Ev, u: Ev, waits: bool)
  {
    && u == v.(active := u.active, later := u.later)
    && if waits then u.active == v.active && (u.later <==> v.later || !v.active)
       else if v.finalizing then u.active == v.active && u.later == v.later
       else u.active && !u.later
  }

  lemma PostponedIs(v: Ev)
    ensures Postponed(v, Queued(v), false) && (v.active || v.later ==> Postponed(v, v, true))
    ensures !v.active && !v.later ==> Postponed(v, v.(later := true), true)
  {
  }

  lemma PostponedShape(v: Ev, u: Ev, waits: bool)
    requires Postponed(v, u, waits)
    ensures u.timerOf == v.timerOf && (v.finalizing || u.active || u.later) && u == v.(active := u.active, later := u.later)
  {
  }

  /** How many callbacks are active. */
  ghost function Pending(b: Base): nat
    reads b`active
  {
    TotalLen(b.active)
  }

  /** How many more may be deferred in this pass. */
  ghost function Slack(b: Base): nat
    reads b`nDeferreds
  {
    if b.nDeferreds > MAX_DEFERREDS_QUEUED then 0 else MAX_DEFERREDS_QUEUED + 1 - b.nDeferreds
  }

  /** How many callbacks can still run in this pass, if no callback does more than defer
      others: those that are active, those that may be deferred, and those that wait while
      they could be activated. */
  ghost function Work(b: Base): nat
    reads b`active, b`later, b`nDeferreds
  {
    Pending(b) + Slack(b) + if b.nDeferreds > MAX_DEFERREDS_QUEUED then 0 else |b.later|
  }

  lemma TotalAt(b: Base)
    requires b.Core()
    ensures b.eventCountActive == TotalLen(b.active) + |b.later|
  {
  }
}

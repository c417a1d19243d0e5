/** event.c: running the active callbacks. A callback may do anything to the base that
    the public functions allow; what it does is given as a script. */
module EventActive {
  import opened Bytes
  import opened Queues
  import opened EventQueues
  import opened EventBase
  import opened EventOps
  import opened EventLoop
  import opened EventTimeouts

  /** A periodic event is pending again: one period after its last deadline, if that is why
      it runs and that time is not over, and one period from now if not. */
  predicate SetAgain(v: Ev, u: Ev, now: int)
  {
    && u.timeout && u.list == v.periodList
    && (v.resTimeout && v.deadline + v.period >= now ==> u.deadline == v.deadline + v.period)
    && (!v.resTimeout || v.deadline + v.period < now ==> u.deadline == now + v.period)
    && (u.inserted <==> v.inserted || (v.io && !v.active && !v.later)) && (u.active <==> v.active && !v.resTimeout)
    && u == v.(inserted := u.inserted, timeout := true, list := u.list, deadline := u.deadline, active := u.active)
  }

  /** event_persist_closure: its assertion about the common timeout holds. Unless there is
      no memory for it, the event is pending again. */
  method PersistClosure(b: Base, e: nat, now: int, mapOk: bool, mallocOk: bool)
    requires b.Valid() && e < |b.evs| && b.evs[e].timerOf.None? && b.evs[e].isEvent && b.evs[e].closure == Persist
    modifies b`evs, b`lists, b`active, b`eventCount, b`eventCountActive, b.heap
    ensures b.Valid() && |b.active| == |old(b.active)| && |b.lists| == |old(b.lists)|
    ensures OthersKept(old(b.evs), b.evs, e) && b.eventCountActive <= old(b.eventCountActive)
    ensures b.evs[e].timerOf.None?
    ensures var v := old(b.evs[e]);
            if HasPeriod(v) && !v.finalizing && (Registers(v) ==> mapOk) && (v.timeout || mallocOk || old(b.heap.n < |b.heap.p|))
            then SetAgain(v, b.evs[e], now)
            else b.evs == old(b.evs)
  {
    hide b.Core, b.CoveredExcept, EvOk, Timed, Untimed, Registered, Registers, OthersKept, Acceptable, Added, SetAgain;
    var v := b.evs[e];
    SelfKept(b.evs, e);
    if HasPeriod(v) {
      InListRange(b, e);
      SameTag(v, |b.timers|, |b.active|);
      assert v.list == v.periodList;
      var runAt := (if v.resTimeout then v.deadline else now) + v.period;
      if runAt < now {
        runAt := now + v.period;
      }
      if v.timeout && v.list.Some? {
        StillListed(b, e);
      }
      HeapRoom(b);
      RegistersIs(v);
      ghost var was := b.evs;
      var r := Add(b, e, Some(Tv(runAt, v.list, true)), now, mapOk, mallocOk);
      if r == 0 {
        SameSize(was, b.evs, e);
        AgainIs(v, b.evs[e], runAt, now);
      }
    }
  }

  lemma SameSize(was: seq<Ev>, now: seq<Ev>, e: nat)
    requires OthersKept(was, now, e)
    ensures |was| == |now|
  {
  }

  lemma RegistersIs(v: Ev)
    ensures Registers(v) <==> v.io && !v.inserted && !v.active && !v.later
  {
  }

  lemma AgainIs(v: Ev, u: Ev, runAt: int, now: int)
    requires Added(v, u, Some(Tv(runAt, v.periodList, true)), now)
    requires runAt == var d := (if v.resTimeout then v.deadline else now) + v.period; if d < now then now + v.period else d
    ensures SetAgain(v, u, now) && u.timerOf == v.timerOf
  {
  }

  lemma StillListed(b: Base, e: nat)
    requires b.Core() && e < |b.evs| && b.evs[e].timeout && b.evs[e].list.Some?
    ensures b.evs[e].list.value < |b.lists| && b.lists[b.evs[e].list.value] != []
  {
    InListRange(b, e);
    ListAt(b.evs, b.lists, b.evs[e].list.value, e);
  }

  lemma SelfKept(evs: seq<Ev>, e: nat)
    ensures OthersKept(evs, evs, e)
  {
  }

  lemma SameTag(v: Ev, nl: nat, nq: nat)
    requires EvOk(v, nl, nq) && v.closure == Persist && HasPeriod(v)
    ensures v.list == v.periodList
    ensures forall us :: Acceptable(v, Tv(us, v.list, true), nl)
  {
  }

  /** event_queue_make_later_events_active: callbacks that had to wait are queued, and
      none is lost or added. */
  method MakeLaterActive(b: Base)
    requires b.Valid()
    modifies b`evs, b`active, b`later, b`eventCount, b`eventCountActive, b`nDeferreds
    ensures b.Valid() && b.later == [] && |b.active| == |old(b.active)| && |b.evs| == |old(b.evs)|
    ensures b.eventCountActive == old(b.eventCountActive)
    ensures forall e :: 0 <= e < |b.evs| ==>
              b.evs[e] == var v := old(b.evs)[e]; if v.later then v.(later := false, active := true) else v
    ensures forall p :: 0 <= p < |b.active| ==> b.active[p] == old(b.active)[p] + OfPriority(old(b.later), old(b.evs), p)
    ensures b.nDeferreds == old(b.nDeferreds) + Selves(old(b.later), old(b.evs))
  {
    hide b.Core, b.CoveredExcept, EvOk, Remove, OfPriority, Selves;
    while b.later != []
      invariant b.Valid() && |b.active| == |old(b.active)| && |b.evs| == |old(b.evs)|
      invariant b.eventCountActive == old(b.eventCountActive)
      invariant forall e :: 0 <= e < |b.evs| ==>
        (b.evs[e] == old(b.evs)[e]
         || (old(b.evs)[e].later && b.evs[e] == old(b.evs)[e].(later := false, active := true)))
      invariant forall p :: 0 <= p < |b.active| ==>
        b.active[p] + OfPriority(b.later, old(b.evs), p) == old(b.active)[p] + OfPriority(old(b.later), old(b.evs), p)
      invariant b.nDeferreds + Selves(b.later, old(b.evs)) == old(b.nDeferreds) + Selves(old(b.later), old(b.evs))
      decreases |b.later|
    {
      LaterHead(b);
      var e := b.later[0];
      ghost var active, later := b.active, b.later;
      b.RemoveLater(e, -1);
      HeadRemoved(later);
      SelvesStep(later, old(b.evs));
      b.InsertActive(e, -1);
      forall p | 0 <= p < |active|
        ensures active[p] + OfPriority(later, old(b.evs), p) == b.active[p] + OfPriority(b.later, old(b.evs), p)
      {
        Moved(active[p], later, old(b.evs), p);
      }
      b.nDeferreds := b.nDeferreds + if b.evs[e].closure == Self then 1 else 0;
    }
    NoLater(b);
    NothingLeft(old(b.evs));
  }

  lemma SelvesStep(q: seq<nat>, evs: seq<Ev>)
    requires q != [] && q[0] < |evs|
    ensures Selves(q, evs) == (if evs[q[0]].closure == Self then 1 else 0) + Selves(q[1..], evs)
  {
  }

  lemma NothingLeft(evs: seq<Ev>)
    ensures Selves([], evs) == 0 && forall p :: OfPriority([], evs, p) == []
  {
  }

  /** Those of q with priority p, in order. */
  ghost function OfPriority(q: seq<nat>, evs: seq<Ev>, p: nat): seq<nat>
  {
    if q == [] then [] else (if q[0] < |evs| && evs[q[0]].pri == p then [q[0]] else []) + OfPriority(q[1..], evs, p)
  }

  /** How many of q are deferred callbacks. */
  ghost function Selves(q: seq<nat>, evs: seq<Ev>): nat
  {
    if q == [] then 0 else (if q[0] < |evs| && evs[q[0]].closure == Self then 1 else 0) + Selves(q[1..], evs)
  }

  lemma HeadRemoved(q: seq<nat>)
    requires q != []
    ensures Remove(q, q[0]) == q[1..]
  {
  }

  lemma {:induction false} PriorityStep(q: seq<nat>, evs: seq<Ev>, p: nat)
    requires q != [] && q[0] < |evs|
    ensures OfPriority(q, evs, p) == (if evs[q[0]].pri == p then [q[0]] else []) + OfPriority(q[1..], evs, p)
  {
  }

  lemma Regroup(a: seq<nat>, m: seq<nat>, c: seq<nat>)
    ensures a + (m + c) == (a + m) + c && a + [] == a
  {
  }

  lemma {:induction false} Moved(a: seq<nat>, later: seq<nat>, evs: seq<Ev>, p: nat)
    requires later != [] && later[0] < |evs|
    ensures var e := later[0];
            a + OfPriority(later, evs, p) == (if evs[e].pri == p then a + [e] else a) + OfPriority(later[1..], evs, p)
  {
    hide OfPriority;
    PriorityStep(later, evs, p);
    Regroup(a, if evs[later[0]].pri == p then [later[0]] else [], OfPriority(later[1..], evs, p));
  }

  lemma LaterHead(b: Base)
    requires b.Core() && b.later != []
    ensures b.later[0] < |b.evs| && b.evs[b.later[0]].later && !b.evs[b.later[0]].active
  {
    var e := b.later[0];
    assert e in b.later && IsLater(b.evs, e);
    FlagsAt(b.evs, |b.timers|, |b.active|, e);
  }

  lemma NoLater(b: Base)
    requires b.Core() && b.later == []
    ensures forall e :: 0 <= e < |b.evs| ==> !b.evs[e].later
  {
    forall e | 0 <= e < |b.evs|
      ensures !b.evs[e].later
    {
      assert IsLater(b.evs, e) <==> e in b.later;
    }
  }

  /** What a callback may do. */
  datatype Action =
    | AddEvent(ev: nat, tv: Option<Tv>, mapOk: bool, mallocOk: bool)   // event_add
    | DelEvent(ev: nat)                                                // event_del
    | ActivateEvent(ev: nat, res: bool)                                // event_active
    | LaterEvent(ev: nat, res: bool)                                   // event_active_later_
    | FinalizeEvent(ev: nat)                                           // event_finalize
    | Defer(ev: nat)                                                   // event_deferred_cb_schedule_

  /** The timers of common timeouts are out of the caller's reach. */
  predicate Legal(b: Base, a: Action)
    reads b`evs, b`lists
  {
    LegalOn(b.evs, |b.lists|, a)
  }

  predicate LegalOn(evs: seq<Ev>, nl: nat, a: Action)
  {
    && a.ev < |evs| && evs[a.ev].timerOf.None?
    && (a.AddEvent? ==> evs[a.ev].isEvent && (a.tv.Some? ==> !a.tv.value.absolute && Acceptable(evs[a.ev], a.tv.value, nl)))
  }

  /** An action that loses a timeout. */
  predicate ActionLoses(b: Base, a: Action)
    requires |b.timers| == |b.lists| && Legal(b, a)
    reads b, b.heap
  {
    a.AddEvent? && AddLoses(b, a.ev, a.tv, a.mapOk, a.mallocOk)
  }

  /** Any action but event_add keeps the base consistent. */
  method Change(b: Base, a: Action, now: int)
    requires b.Valid() && Legal(b, a) && !a.AddEvent?
    modifies b`evs, b`lists, b`active, b`later, b`eventCount, b`eventCountActive, b`eventContinue, b`nDeferreds, b.heap
    ensures b.Valid() && |b.active| == |old(b.active)| && |b.evs| == |old(b.evs)|
    ensures a.Defer? ==> TimerSet(b.evs) <= old(TimerSet(b.evs)) && Work(b) <= old(Work(b))
    ensures OthersKept(old(b.evs), b.evs, a.ev) && forall room :: Done(old(b.evs)[a.ev], b.evs[a.ev], a, now, room)
  {
    hide b.Core, b.CoveredExcept, EvOk, Remove, TotalLen, Deleted, Activated, Work, Fired, Awaits, Done, OthersKept, TimerSet;
    InListRange(b, a.ev);
    ghost var was, v := b.evs, b.evs[a.ev];
    if a.DelEvent? {
      Del(b, a.ev);
      TookOne(was, b.evs, a.ev);
    } else if a.FinalizeEvent? {
      Finalize(b, a.ev);
      SameSize(was, b.evs, a.ev);
    } else if a.Defer? {
      Postpone(b, a, now);
      return;
    } else {
      Trigger(b, a, now);
      return;
    }
    DoneRest(v, b.evs[a.ev], a, now);
  }

  /** The actions that make an event active, now or later. */
  method Trigger(b: Base, a: Action, now: int)
    requires b.Valid() && Legal(b, a) && (a.ActivateEvent? || a.LaterEvent?)
    modifies b`evs, b`active, b`later, b`eventCount, b`eventCountActive, b`eventContinue
    ensures b.Valid() && |b.active| == |old(b.active)| && |b.evs| == |old(b.evs)|
    ensures OthersKept(old(b.evs), b.evs, a.ev) && forall room :: Done(old(b.evs)[a.ev], b.evs[a.ev], a, now, room)
  {
    hide b.Core, b.CoveredExcept, EvOk, Remove, TotalLen, Activated, Fired, Awaits, Done, OthersKept;
    InListRange(b, a.ev);
    ghost var was, v := b.evs, b.evs[a.ev];
    if a.ActivateEvent? {
      ActivatedIs(v, a.res);
      Active(b, a.ev, a.res, -1);
    } else {
      ActiveLater(b, a.ev, a.res);
    }
    TookOne(was, b.evs, a.ev);
    DoneRest(v, b.evs[a.ev], a, now);
  }

  /** event_deferred_cb_schedule_, as an action. */
  method Postpone(b: Base, a: Action, now: int)
    requires b.Valid() && Legal(b, a) && a.Defer?
    modifies b`evs, b`active, b`later, b`eventCount, b`eventCountActive, b`nDeferreds
    ensures b.Valid() && |b.active| == |old(b.active)| && |b.evs| == |old(b.evs)|
    ensures TimerSet(b.evs) <= old(TimerSet(b.evs)) && Work(b) <= old(Work(b))
    ensures OthersKept(old(b.evs), b.evs, a.ev) && forall room :: Done(old(b.evs)[a.ev], b.evs[a.ev], a, now, room)
  {
    hide b.Core, b.CoveredExcept, EvOk, Remove, TotalLen, Work, Done, OthersKept, TimerSet, Postponed;
    InListRange(b, a.ev);
    ghost var was, v, waits := b.evs, b.evs[a.ev], b.nDeferreds > MAX_DEFERREDS_QUEUED;
    var _ := ScheduleDeferred(b, a.ev);
    PostponedShape(v, b.evs[a.ev], waits);
    TookOne(was, b.evs, a.ev);
    KeptTimers(was, b.evs, a.ev);
    DoneRest(v, b.evs[a.ev], a, now);
  }

  /** The base is consistent afterwards if and only if the action lost no timeout. */
  method Perform(b: Base, a: Action, now: int) returns (lost: bool)
    requires b.Valid() && Legal(b, a)
    modifies b`evs, b`lists, b`active, b`later, b`eventCount, b`eventCountActive, b`eventContinue, b`nDeferreds, b.heap
    ensures lost <==> old(ActionLoses(b, a))
    ensures (b.Valid() <==> !lost) && |b.active| == |old(b.active)| && |b.evs| == |old(b.evs)|
    ensures a.Defer? ==> TimerSet(b.evs) <= old(TimerSet(b.evs)) && Work(b) <= old(Work(b))
    ensures OthersKept(old(b.evs), b.evs, a.ev) && Done(old(b.evs)[a.ev], b.evs[a.ev], a, now, old(b.heap.n < |b.heap.p|))
  {
    hide b.Core, b.CoveredExcept, EvOk, AddLoses, Work, Added, Done, OthersKept, TimerSet;
    InListRange(b, a.ev);
    HeapRoom(b);
    lost := ActionLoses(b, a);
    if !a.AddEvent? {
      Change(b, a, now);
      return;
    }
    ghost var was, v, room := b.evs, b.evs[a.ev], b.heap.n < |b.heap.p|;
    var r := Add(b, a.ev, a.tv, now, a.mapOk, a.mallocOk);
    SameSize(was, b.evs, a.ev);
    DoneAdd(v, b.evs[a.ev], a, now, room, r);
  }

  lemma KeptTimers(was: seq<Ev>, now: seq<Ev>, e: nat)
    requires e < |was| && OthersKept(was, now, e) && was[e].timerOf.None? && now[e].timerOf.None?
    ensures TimerSet(now) <= TimerSet(was)
  {
  }

  lemma DoneAdd(v: Ev, u: Ev, a: Action, now: int, room: bool, r: int)
    requires a.AddEvent?
    requires r == if v.finalizing || (v.io && !v.inserted && !v.active && !v.later && !a.mapOk)
                     || (a.tv.Some? && !v.timeout && !a.mallocOk && !room) then -1 else 0
    requires (r == -1 ==> u == v) && (r == 0 ==> Added(v, u, a.tv, now))
    ensures Done(v, u, a, now, room)
  {
    hide Added;
  }

  lemma DoneRest(v: Ev, u: Ev, a: Action, now: int)
    requires a.DelEvent? ==> u == if v.finalizing then v else Deleted(v)
    requires a.ActivateEvent? ==> Fired(v, u, a.res)
    requires a.LaterEvent? ==> Awaits(v, u, a.res)
    requires a.FinalizeEvent? ==> u.finalizing && u.closure == Finalizer
    requires a.FinalizeEvent? && !v.finalizing ==>
               u == v.(finalizing := true, closure := Finalizer, timeout := false, inserted := false,
                       later := false, active := true, resTimeout := false)
    requires a.Defer? ==> (v.finalizing || u.active || u.later) && u == v.(active := u.active, later := u.later)
    requires !a.AddEvent?
    ensures forall room :: Done(v, u, a, now, room)
  {
    hide Fired, Awaits;
  }

  /** What an action makes of its event; `room` says that the heap need not grow. */
  predicate Done(v: Ev, u: Ev, a: Action, now: int, room: bool)
  {
    match a
    case AddEvent(_, tv, mapOk, mallocOk) =>
      if v.finalizing || (v.io && !v.inserted && !v.active && !v.later && !mapOk) || (tv.Some? && !v.timeout && !mallocOk && !room)
      then u == v else Added(v, u, tv, now)
    case DelEvent(_) =>
      if v.finalizing then u == v else u == v.(timeout := false, active := false, later := false, inserted := false)
    case ActivateEvent(_, res) => Fired(v, u, res)
    case LaterEvent(_, res) => Awaits(v, u, res)
    case FinalizeEvent(_) =>
      && u.finalizing && u.closure == Finalizer
      && (!v.finalizing ==> u == v.(finalizing := true, closure := Finalizer, timeout := false, inserted := false,
                                    later := false, active := true, resTimeout := false))
    case Defer(_) =>
      (v.finalizing || u.active || u.later) && u == v.(active := u.active, later := u.later)
  }

  /** The timers of queues that are about to run. */
  ghost function TimerSet(evs: seq<Ev>): set<nat>
  {
    set e: nat | e < |evs| && evs[e].timerOf.Some? && evs[e].active
  }

  /** How many callbacks can still run in this pass, if no callback does more than defer
      others: when the timer of a queue runs, it may activate any event. */
  ghost function Load(b: Base): nat
    reads b`evs, b`active, b`later, b`nDeferreds
  {
    Work(b) + |TimerSet(b.evs)| * |b.evs|
  }

  /** What happens while one callback runs, and right after it: what it does, the time,
      whether the I/O map takes a periodic event back and there is memory for timers,
      whether event_base_loopbreak was called, and whether the time for this pass is
      over. While the timer of a queue runs, the actions are those of other threads: the
      first `before` of them come before it has the lock. */
  datatype Turn = Turn(actions: seq<Action>, before: nat, now: int, mapOk: bool, mallocOk: bool, stop: bool, late: bool)

  predicate OnlyDefers(t: Turn)
  {
    forall i :: 0 <= i < |t.actions| ==> t.actions[i].Defer?
  }

  /** An action, if it is legal, was taken. */
  ghost predicate Did(was: seq<Ev>, now: seq<Ev>, a: Action, time: int, nl: nat)
  {
    if LegalOn(was, nl, a) then OthersKept(was, now, a.ev) && exists room :: Done(was[a.ev], now[a.ev], a, time, room)
    else now == was
  }

  /** The events before and after each of the first actions: all of them, unless one lost a
      timeout. */
  ghost predicate DidAll(trace: seq<seq<Ev>>, actions: seq<Action>, time: int, nl: nat, lost: bool)
  {
    && 0 < |trace| <= |actions| + 1 && (!lost ==> |trace| == |actions| + 1)
    && forall k :: 0 <= k < |trace| - 1 ==> Did(trace[k], trace[k + 1], actions[k], time, nl)
  }

  ghost function End(trace: seq<seq<Ev>>): seq<Ev>
    requires trace != []
  {
    trace[|trace| - 1]
  }

  /** The actions of a callback, in order; illegal ones are not taken. They end with one that
      loses a timeout. */
  method PerformAll(b: Base, t: Turn) returns (lost: bool, ghost trace: seq<seq<Ev>>)
    requires b.Valid()
    modifies b`evs, b`lists, b`active, b`later, b`eventCount, b`eventCountActive, b`eventContinue, b`nDeferreds, b.heap
    ensures (b.Valid() <==> !lost) && |b.active| == |old(b.active)| && |b.evs| == |old(b.evs)|
    ensures lost ==> exists a :: a in t.actions && Starved(a)
    ensures OnlyDefers(t) ==> !lost && TimerSet(b.evs) <= old(TimerSet(b.evs)) && Work(b) <= old(Work(b))
    ensures DidAll(trace, t.actions, t.now, |b.timers|, lost) && trace[0] == old(b.evs) && End(trace) == b.evs
  {
    hide b.Core, b.CoveredExcept, TimerSet, Work, Loses, Did, Done, OthersKept;
    lost, trace := false, [b.evs];
    for i := 0 to |t.actions|
      invariant |trace| == i + 1 && trace[0] == old(b.evs) && End(trace) == b.evs
      invariant forall k :: 0 <= k < i ==> Did(trace[k], trace[k + 1], t.actions[k], t.now, |b.timers|)
      invariant b.Valid() && |b.active| == |old(b.active)| && |b.evs| == |old(b.evs)|
      invariant OnlyDefers(t) ==> TimerSet(b.evs) <= old(TimerSet(b.evs)) && Work(b) <= old(Work(b))
    {
      ListCount(b);
      ghost var was, room := b.evs, b.heap.n < |b.heap.p|;
      NotLegal(was, t.actions[i], t.now, |b.timers|);
      if Legal(b, t.actions[i]) {
        NeedsMemory(b, t.actions[i]);
        lost := Perform(b, t.actions[i], t.now);
        IsDone(was, b.evs, t.actions[i], t.now, |b.timers|, room);
      }
      trace := trace + [b.evs];
      if lost {
        assert t.actions[i] in t.actions;
        return;
      }
    }
  }

  lemma NotLegal(evs: seq<Ev>, a: Action, time: int, nl: nat)
    ensures !LegalOn(evs, nl, a) ==> Did(evs, evs, a, time, nl)
  {
  }

  lemma IsDone(was: seq<Ev>, now: seq<Ev>, a: Action, time: int, nl: nat, room: bool)
    requires LegalOn(was, nl, a) && OthersKept(was, now, a.ev) && Done(was[a.ev], now[a.ev], a, time, room)
    ensures Did(was, now, a, time, nl)
  {
  }

  /** An addition for which there was no memory. */
  ghost predicate Starved(a: Action)
  {
    a.AddEvent? && !a.mallocOk
  }

  lemma NeedsMemory(b: Base, a: Action)
    requires b.Core() && Legal(b, a)
    ensures |b.timers| == |b.lists| && (ActionLoses(b, a) ==> Starved(a))
  {
  }

  /** event_process_active_single_queue: takes the first callback off the queue. */
  method Take(b: Base, e: nat)
    requires b.Valid() && e < |b.evs| && b.evs[e].active
    modifies b`evs, b`lists, b`active, b`later, b`eventCount, b`eventCountActive, b.heap
    ensures b.Core() && b.CoveredExcept(TimerIndex(old(b.evs[e]))) && |b.active| == |old(b.active)|
    ensures e < |b.evs| && b.evs == old(b.evs)[e := b.evs[e]] && !b.evs[e].active && SameKind(old(b.evs[e]), b.evs[e])
    ensures |b.lists| == |old(b.lists)|
    ensures Pending(b) < old(Pending(b)) && b.later == old(b.later)
    ensures var v := old(b.evs[e]);
            if v.isEvent && !v.persist && !v.finalizing
            then b.evs[e] == v.(timeout := false, active := false, later := false, inserted := false)
            else b.evs[e] == v.(active := false) && b.lists == old(b.lists) && unchanged(b.heap)
  {
    hide b.Core, b.CoveredExcept, EvOk, Remove, TotalLen;
    InListRange(b, e);
    NotBoth(b.evs[e], |b.timers|, |b.active|);
    TotalAt(b);
    if b.evs[e].isEvent && !(b.evs[e].persist || b.evs[e].finalizing) {
      Del(b, e);
    } else {
      b.RemoveActive(e, -1);
    }
    TotalAt(b);
  }

  predicate SameKind(u: Ev, v: Ev)
  {
    && u.timerOf == v.timerOf && u.isEvent == v.isEvent && u.closure == v.closure && u.finalizing == v.finalizing
    && u.internal == v.internal && u.pri == v.pri
  }

  lemma QueueHead(b: Base, q: nat)
    requires b.Core() && q < |b.active| && b.active[q] != []
    ensures var e := b.active[q][0]; e < |b.evs| && b.evs[e].active && b.evs[e].pri == q
  {
    var e := b.active[q][0];
    assert QueueOk(b.evs, b.active[q], q);
    assert e in b.active[q] && InActive(b.evs, e, q);
  }

  /** What the kind of a callback says about it; these are the assertions of
      event_process_active_single_queue. */
  lemma KindFacts(v: Ev, nl: nat, nq: nat)
    requires EvOk(v, nl, nq)
    ensures v.closure == Finalizer ==> v.finalizing && v.timerOf.None?
    ensures v.closure == Persist ==> v.isEvent && v.timerOf.None?
    ensures v.closure == Plain || v.closure == Signal ==> v.isEvent
    ensures v.timerOf.Some? ==> v.closure == Plain && v.timerOf.value < nl
  {
  }

  /** Starting to run e covers the queue whose timer e is. */
  lemma StartRunning(b: Base, e: nat)
    requires b.Core() && e < |b.evs| && b.running == e
    requires CoveredBut(b.evs, b.lists, b.timers, -1, TimerIndex(b.evs[e]))
    ensures b.CoveredExcept(-1)
    ensures b.evs[e].timerOf.Some? ==> b.evs[e].timerOf.value < |b.lists| && b.timers[b.evs[e].timerOf.value] == e
  {
    TimerAt(b.evs, b.timers, e);
    forall i | 0 <= i < |b.lists|
      ensures Covered(b.evs, b.lists[i], b.timers[i], e)
    {
      if i != TimerIndex(b.evs[e]) {
        assert Covered(b.evs, b.lists[i], b.timers[i], -1);
      }
    }
  }

  /** A callback that is no timer may stop running. */
  lemma StopRunning(b: Base, e: int)
    requires b.Core() && b.CoveredExcept(-1) && b.running == e
    requires 0 <= e < |b.evs| ==> b.evs[e].timerOf.None?
    ensures CoveredBut(b.evs, b.lists, b.timers, -1, -1)
  {
    forall i | 0 <= i < |b.lists|
      ensures Covered(b.evs, b.lists[i], b.timers[i], -1)
    {
      assert Covered(b.evs, b.lists[i], b.timers[i], e);
      assert TimersOk(b.evs, b.timers);
    }
  }

  /** A persistent event with a period is set again, if event_add takes it; any other is as
      it was. */
  predicate Prepared(v: Ev, u: Ev, t: Turn, room: bool)
  {
    if v.closure == Persist && HasPeriod(v) && !v.finalizing && (Registers(v) ==> t.mapOk) && (v.timeout || t.mallocOk || room)
    then SetAgain(v, u, t.now) else u == v
  }

  /** What is done before the callback proper: a periodic event is set again, a finalizer
      no longer counts as running. */
  method Prepare(b: Base, e: nat, t: Turn)
    requires b.Valid() && e < |b.evs| && b.running == e && b.evs[e].timerOf.None?
    modifies b`evs, b`lists, b`active, b`eventCount, b`eventCountActive, b`running, b.heap
    ensures b.Valid() && |b.active| == |old(b.active)| && |b.evs| == |old(b.evs)|
    ensures b.running == if old(b.evs[e]).closure == Finalizer then -1 else e
    ensures TimerSet(b.evs) <= old(TimerSet(b.evs)) && Work(b) <= old(Work(b))
    ensures OthersKept(old(b.evs), b.evs, e) && Prepared(old(b.evs[e]), b.evs[e], t, old(b.heap.n < |b.heap.p|))
  {
    hide b.Core, b.CoveredExcept, EvOk, TotalLen, HasPeriod, Registers, CoveredBut, SetAgain;
    SelfKept(b.evs, e);
    InListRange(b, e);
    KindFacts(b.evs[e], |b.timers|, |b.active|);
    TotalAt(b);
    if b.evs[e].closure == Persist {
      PersistClosure(b, e, t.now, t.mapOk, t.mallocOk);
      TotalAt(b);
    } else if b.evs[e].closure == Finalizer {
      StopRunning(b, e);
      b.running := -1;
      Idle(b);
    }
  }

  /** The callback that is running does its work, and current_event is cleared. */
  method RunBody(b: Base, e: nat, t: Turn) returns (lost: bool, ghost trace: seq<seq<Ev>>)
    requires b.Valid() && e < |b.evs| && b.running == e && b.evs[e].timerOf.None?
    modifies b`evs, b`lists, b`active, b`later, b`eventCount, b`eventCountActive, b`eventContinue, b`nDeferreds, b`running, b.heap
    ensures (b.Valid() <==> !lost) && b.running == -1 && |b.active| == |old(b.active)| && |b.evs| == |old(b.evs)|
    ensures lost ==> exists a :: a in t.actions && Starved(a)
    ensures OnlyDefers(t) ==> !lost && TimerSet(b.evs) <= old(TimerSet(b.evs)) && Work(b) <= old(Work(b))
    ensures DidAll(trace, t.actions, t.now, |b.timers|, lost) && |trace[0]| == |b.evs| && End(trace) == b.evs
    ensures OthersKept(old(b.evs), trace[0], e) && Prepared(old(b.evs[e]), trace[0][e], t, old(b.heap.n < |b.heap.p|))
  {
    hide b.Core, b.CoveredExcept, EvOk, CoveredBut, Work, TimerSet, OthersKept, Prepared, Did;
    IsTimer(b, e);
    Prepare(b, e, t);
    lost, trace := PerformAll(b, t);
    if lost {
      StillLost(b);
    } else {
      IsTimer(b, e);
      StopRunning(b, b.running);
    }
    b.running := -1;
    Idle(b);
  }

  /** A base that has lost a timeout while a callback runs has lost it afterwards, too. */
  lemma StillLost(b: Base)
    requires !b.Valid()
    ensures !b.Core() || !CoveredBut(b.evs, b.lists, b.timers, -1, -1)
  {
    if CoveredBut(b.evs, b.lists, b.timers, -1, -1) {
      forall i | 0 <= i < |b.lists|
        ensures Covered(b.evs, b.lists[i], b.timers[i], b.running)
      {
        assert Covered(b.evs, b.lists[i], b.timers[i], -1);
      }
    }
  }

  /** Which events are timers never changes. */
  lemma IsTimer(b: Base, e: nat)
    requires b.Core() && e < |b.evs|
    ensures b.evs[e].timerOf.Some? <==> e in b.timers
  {
    TimerAt(b.evs, b.timers, e);
    assert TimersOk(b.evs, b.timers);
  }

  lemma Idle(b: Base)
    ensures CoveredBut(b.evs, b.lists, b.timers, b.running, -1) <==> b.CoveredExcept(-1)
  {
  }

  /** Memory ran out while a callback ran, or for what was done around it. */
  ghost predicate StarvedTurn(t: Turn)
  {
    !t.mallocOk || exists a :: a in t.actions && Starved(a)
  }

  lemma ListCount(b: Base)
    requires b.Core()
    ensures |b.lists| == |b.timers|
  {
  }

  /** The timer of a queue runs, and other threads go on before and after it. */
  method RunTimer(b: Base, i: nat, t: Turn) returns (lost: bool, ghost before: seq<seq<Ev>>, ghost after: seq<seq<Ev>>)
    requires b.Valid() && i < |b.timers| && b.running == b.timers[i]
    modifies b`evs, b`lists, b`active, b`later, b`eventCount, b`eventCountActive, b`eventContinue, b`nDeferreds, b`running, b.heap
    ensures (b.Valid() <==> !lost) && b.running == -1 && |b.active| == |old(b.active)| && |b.evs| == |old(b.evs)|
    ensures lost ==> StarvedTurn(t)
    ensures OnlyDefers(t) ==> TimerSet(b.evs) <= old(TimerSet(b.evs)) && Work(b) <= old(Work(b)) + |b.evs|
    ensures var k := if t.before < |t.actions| then t.before else |t.actions|;
            && DidAll(before, t.actions[..k], t.now, |b.timers|, lost) && before[0] == old(b.evs)
            && (!lost ==>
                  && DidAll(after, t.actions[k..], t.now, |b.timers|, false) && End(after) == b.evs
                  && Served(End(before), after[0], i, b.timers[i], t.now))
  {
    hide b.Core, b.CoveredExcept, EvOk, TotalLen, CoveredBut, Expired, Work, TimerSet, Did, Served;
    var k := if t.before < |t.actions| then t.before else |t.actions|;
    assert forall a :: a in t.actions[..k] || a in t.actions[k..] ==> a in t.actions;
    after := [];
    lost, before := PerformAll(b, t.(actions := t.actions[..k]));
    if lost {
      StillLost(b);
      b.running := -1;
      Idle(b);
      return;
    }
    lost := ServeQueue(b, i, t.now, t.mallocOk);
    if !lost {
      lost, after := PerformAll(b, t.(actions := t.actions[k..]));
    }
  }

  /** The callback of the timer proper. */
  method ServeQueue(b: Base, i: nat, now: int, mallocOk: bool) returns (lost: bool)
    requires b.Valid() && i < |b.timers| && b.running == b.timers[i]
    modifies b`evs, b`lists, b`active, b`later, b`eventCount, b`eventCountActive, b`eventContinue, b`running, b.heap
    ensures (b.Valid() <==> !lost) && b.running == -1 && |b.active| == |old(b.active)| && |b.evs| == |old(b.evs)|
    ensures lost ==> !mallocOk
    ensures TimerSet(b.evs) <= old(TimerSet(b.evs)) && Work(b) <= old(Work(b)) + |b.evs|
    ensures Served(old(b.evs), b.evs, i, b.timers[i], now)
  {
    hide b.Core, b.CoveredExcept, EvOk, TotalLen, CoveredBut, Expired, Work, TimerSet, Served;
    ListCount(b);
    ghost var was, nq := b.evs, |b.active|;
    SlackInWork(b);
    AllFlags(b);
    lost := CommonTimeoutCallback(b, i, now, mallocOk);
    TimersStill(was, b.evs, b.timers[i], i, now, |b.timers|, nq);
    AreServed(was, b.evs, i, b.timers[i], now);
    WorkMost(b);
    b.running := -1;
    Idle(b);
  }

  /** The events of queue i that are due have expired, and no other has changed but its
      timer. */
  ghost predicate Served(was: seq<Ev>, now: seq<Ev>, i: nat, timer: nat, time: int)
  {
    && |was| == |now|
    && forall e :: 0 <= e < |now| && e != timer ==>
         if was[e].timeout && was[e].list == Some(i) && was[e].deadline <= time then RanOut(was[e], now[e]) else now[e] == was[e]
  }

  lemma AreServed(was: seq<Ev>, now: seq<Ev>, i: nat, timer: nat, time: int)
    requires |was| == |now|
    requires forall e :: 0 <= e < |now| && e != timer ==>
               if was[e].timeout && was[e].list == Some(i) && was[e].deadline <= time then RanOut(was[e], now[e]) else now[e] == was[e]
    ensures Served(was, now, i, timer, time)
  {
  }

  /** event_process_active_single_queue: one callback. */
  method RunOne(b: Base, q: nat, t: Turn) returns (e: nat, lost: bool, ghost trace: seq<seq<Ev>>)
    requires b.Valid() && q < |b.active| && b.active[q] != [] && b.running == -1
    modifies b`evs, b`lists, b`active, b`later, b`eventCount, b`eventCountActive, b`eventContinue, b`nDeferreds, b`running, b.heap
    ensures (b.Valid() <==> !lost) && b.running == -1 && |b.active| == |old(b.active)| && |b.evs| == |old(b.evs)|
    ensures lost ==> StarvedTurn(t)
    ensures e == old(b.active[q])[0] && e < |old(b.evs)| && old(b.evs)[e].pri == q
    ensures old(b.evs)[e].timerOf.None? ==>
              && DidAll(trace, t.actions, t.now, |b.timers|, lost) && |trace[0]| == |b.evs| && End(trace) == b.evs
              && var v, u := old(b.evs)[e], trace[0][e];
              && OthersKept(old(b.evs), trace[0], e)
              && (v.isEvent && !v.persist && !v.finalizing ==>
                    u == v.(timeout := false, active := false, later := false, inserted := false))
              && (!v.isEvent || v.persist || v.finalizing ==>
                    if v.closure == Persist && (v.period != 0 || v.periodList.Some?) && !v.finalizing
                       && (v.io && !v.inserted ==> t.mapOk) && (v.timeout || t.mallocOk || old(b.heap.n < |b.heap.p|))
                    then
                      && u.timeout && u.list == v.periodList && (u.inserted <==> v.inserted || v.io)
                      && u.deadline == (if v.resTimeout && v.deadline + v.period >= t.now then v.deadline + v.period else t.now + v.period)
                      && u == v.(active := false, timeout := true, list := u.list, inserted := u.inserted, deadline := u.deadline)
                    else u == v.(active := false))
    ensures OnlyDefers(t) ==> TimerSet(b.evs) <= old(TimerSet(b.evs)) && Load(b) < old(Load(b)) && (old(TimerSet(b.evs)) == {} ==> !lost)
  {
    hide b.Core, b.CoveredExcept, EvOk, TotalLen, CoveredBut, Expired, TimerSet, Prepared, OthersKept, Did, Served;
    QueueHead(b, q);
    trace := [];
    e := b.active[q][0];
    InListRange(b, e);
    ghost var v, room := b.evs[e], b.heap.n < |b.heap.p|;
    TakenFacts(v, t, room, |b.timers|, |b.active|);
    ghost var was, set0 := b.evs, TimerSet(b.evs);
    Take(b, e);
    TimerTaken(was, b.evs, e);
    Exposed(b, TimerIndex(b.evs[e]));
    b.running := e;
    StartRunning(b, e);
    InListRange(b, e);
    KindFacts(b.evs[e], |b.timers|, |b.active|);
    if b.evs[e].timerOf.Some? {
      ghost var before, after;
      lost, before, after := RunTimer(b, b.evs[e].timerOf.value, t);
      if OnlyDefers(t) {
        Smaller(TimerSet(b.evs), set0, e, |b.evs|);
      }
    } else {
      TookOne(was, b.evs, e);
      ghost var mid := b.evs;
      lost, trace := RunBody(b, e, t);
      KeptThrough(was, mid, trace[0], e);
      if OnlyDefers(t) {
        NotMore(TimerSet(b.evs), set0);
        MulLe(|TimerSet(b.evs)|, |set0|, |b.evs|);
      }
    }
  }

  /** What an event becomes that is deleted before it runs, or only taken off its queue. */
  lemma TakenFacts(v: Ev, t: Turn, room: bool, nl: nat, nq: nat)
    requires EvOk(v, nl, nq) && v.active
    ensures v.isEvent && !v.persist && !v.finalizing ==>
              forall u, r :: Prepared(v.(timeout := false, active := false, later := false, inserted := false), u, t, r) ==>
                u == v.(timeout := false, active := false, later := false, inserted := false)
    ensures !v.isEvent || v.persist || v.finalizing ==>
              forall u :: Prepared(v.(active := false), u, t, room) ==>
                if v.closure == Persist && (v.period != 0 || v.periodList.Some?) && !v.finalizing
                   && (v.io && !v.inserted ==> t.mapOk) && (v.timeout || t.mallocOk || room)
                then
                  && u.timeout && u.list == v.periodList && (u.inserted <==> v.inserted || v.io)
                  && u.deadline == (if v.resTimeout && v.deadline + v.period >= t.now then v.deadline + v.period else t.now + v.period)
                  && u == v.(active := false, timeout := true, list := u.list, inserted := u.inserted, deadline := u.deadline)
                else u == v.(active := false)
  {
  }

  lemma TookOne(was: seq<Ev>, now: seq<Ev>, e: nat)
    requires e < |was| == |now| && now == was[e := now[e]]
    ensures OthersKept(was, now, e)
  {
  }

  lemma KeptThrough(was: seq<Ev>, mid: seq<Ev>, now: seq<Ev>, e: nat)
    requires OthersKept(was, mid, e) && OthersKept(mid, now, e)
    ensures OthersKept(was, now, e)
  {
  }

  lemma TimerTaken(was: seq<Ev>, now: seq<Ev>, e: nat)
    requires e < |was| == |now| && now == was[e := now[e]] && !now[e].active && now[e].timerOf == was[e].timerOf && was[e].active
    ensures TimerSet(now) <= TimerSet(was)
    ensures was[e].timerOf.Some? ==> e in TimerSet(was) && e !in TimerSet(now)
  {
  }

  lemma {:induction false} NotMore(a: set<nat>, b: set<nat>)
    requires a <= b
    ensures |a| <= |b|
  {
    if a != {} {
      var x :| x in a;
      NotMore(a - {x}, b - {x});
    }
  }

  lemma Smaller(a: set<nat>, b: set<nat>, e: nat, n: nat)
    requires a <= b && e in b && e !in a
    ensures |a| * n + n <= |b| * n
  {
    NotMore(a, b - {e});
    MulLe(|a| + 1, |b|, n);
    assert (|a| + 1) * n == |a| * n + n;
  }

  lemma MulLe(x: nat, y: nat, n: nat)
    requires x <= y
    ensures x * n <= y * n
  {
  }

  lemma AllFlags(b: Base)
    requires b.Core()
    ensures FlagsOk(b.evs, |b.timers|, |b.active|)
  {
  }

  lemma SlackInWork(b: Base)
    ensures Slack(b) <= Work(b)
  {
  }

  ghost function Elements(q: seq<nat>): set<nat>
  {
    set x | x in q
  }

  lemma {:induction false} ElementsSize(q: seq<nat>)
    requires NoDup(q)
    ensures |Elements(q)| == |q|
  {
    if q != [] {
      var r, x := q[..|q| - 1], q[|q| - 1];
      ElementsSize(r);
      assert q == r + [x];
      assert x !in r && Elements(q) == Elements(r) + {x};
    }
  }

  lemma {:induction false} LenSnoc(qs: seq<seq<nat>>, q: seq<nat>)
    ensures TotalLen(qs + [q]) == TotalLen(qs) + |q|
  {
    if qs == [] {
      assert qs + [q] == [q];
    } else {
      LenSnoc(qs[1..], q);
      assert (qs + [q])[1..] == qs[1..] + [q];
    }
  }

  ghost function Below(n: nat): (s: set<nat>)
    ensures |s| == n && forall x: nat :: x in s <==> x < n
  {
    if n == 0 then {} else Below(n - 1) + {n - 1}
  }

  /** The active callbacks of the first p priorities. */
  ghost function Upper(evs: seq<Ev>, p: nat): set<nat>
  {
    set e: nat | e < |evs| && evs[e].active && evs[e].pri < p
  }

  lemma {:induction false} UpperSize(evs: seq<Ev>, active: seq<seq<nat>>, p: nat)
    requires ActiveOk(evs, active) && p <= |active|
    ensures TotalLen(active[..p]) == |Upper(evs, p)|
  {
    if p == 0 {
      assert Upper(evs, 0) == {};
    } else {
      var q := active[p - 1];
      UpperSize(evs, active, p - 1);
      LenSnoc(active[..p - 1], q);
      assert active[..p] == active[..p - 1] + [q];
      assert QueueOk(evs, q, p - 1);
      ElementsSize(q);
      forall e: nat
        ensures e in Elements(q) <==> InActive(evs, e, p - 1)
      {
      }
      assert Upper(evs, p) == Upper(evs, p - 1) + Elements(q);
    }
  }

  /** No callback is queued twice, so there are no more than there are events. */
  lemma ActiveMost(b: Base)
    requires b.Core()
    ensures TotalLen(b.active) + |b.later| <= |b.evs|
  {
    var n := |b.active|;
    UpperSize(b.evs, b.active, n);
    assert b.active[..n] == b.active;
    ElementsSize(b.later);
    var up, l := Upper(b.evs, n), Elements(b.later);
    forall e: nat | e in l
      ensures e < |b.evs| && !b.evs[e].active
    {
      assert IsLater(b.evs, e);
      assert EvOk(b.evs[e], |b.timers|, n);
    }
    assert up * l == {};
    NotMore(up + l, Below(|b.evs|));
  }

  lemma WorkMost(b: Base)
    requires b.Core()
    ensures Work(b) <= |b.evs| + Slack(b)
  {
    hide TotalLen;
    ActiveMost(b);
    TotalAt(b);
  }

  lemma LoadMost(b: Base)
    ensures Load(b) <= Pending(b) + |b.later| + MAX_DEFERREDS_QUEUED + 1 + |TimerSet(b.evs)| * |b.evs|
  {
  }

  lemma LoadPending(b: Base)
    ensures Load(b) >= Pending(b)
  {
  }

  /** Serving a queue makes no timer active: the events of a queue are no timers. */
  lemma TimersStill(was: seq<Ev>, now: seq<Ev>, timer: nat, i: nat, t: int, nl: nat, nq: nat)
    requires |was| == |now| && timer < |was| && FlagsOk(was, nl, nq) && (now[timer].active ==> was[timer].active)
    requires was[timer].timerOf.Some?
    requires forall e :: 0 <= e < |was| && e != timer ==> now[e] == if ExpiresIn(was[e], i, t) then Expired(was[e]) else was[e]
    ensures TimerSet(now) <= TimerSet(was)
  {
  }

  lemma Exposed(b: Base, x: int)
    requires b.CoveredExcept(x) && b.running == -1
    ensures CoveredBut(b.evs, b.lists, b.timers, -1, x)
  {
  }

  /** A callback that ran. */
  datatype Ran = Ran(ev: nat, pri: nat, internal: bool)

  function Real(log: seq<Ran>): nat
  {
    if log == [] then 0 else (if log[0].internal then 0 else 1) + Real(log[1..])
  }

  lemma {:induction false} RealSnoc(log: seq<Ran>, r: Ran)
    ensures Real(log + [r]) == Real(log) + if r.internal then 0 else 1
  {
    if log == [] {
      assert log + [r] == [r];
    } else {
      RealSnoc(log[1..], r);
      assert (log + [r])[1..] == log[1..] + [r];
    }
  }

  lemma {:induction false} AllInternal(log: seq<Ran>)
    requires Real(log) == 0
    ensures forall i :: 0 <= i < |log| ==> log[i].internal
  {
    if log != [] {
      AllInternal(log[1..]);
      assert forall i :: 1 <= i < |log| ==> log[i] == log[1..][i - 1];
    }
  }

  ghost predicate AllDefer(script: seq<Turn>)
  {
    forall i :: 0 <= i < |script| ==> OnlyDefers(script[i])
  }

  /** event_process_active_single_queue, for the queue whose priority is the running one. A
      run whose script ends is cut short there, as if by event_base_loopbreak. */
  method ProcessQueue(b: Base, q: nat, maxToProcess: int, timed: bool, script: seq<Turn>)
    returns (count: int, log: seq<Ran>, ranOut: bool, lost: bool)
    requires b.Valid() && q < |b.active| && b.running == -1 && b.runningPriority == q
    modifies b`evs, b`lists, b`active, b`later, b`eventCount, b`eventCountActive, b`eventContinue, b`nDeferreds, b`running, b.heap
    ensures (b.Valid() <==> !lost) && b.running == -1 && |b.active| == |old(b.active)|
    ensures lost ==> count == -1 && exists t :: t in script && StarvedTurn(t)
    ensures |log| <= |script| && forall i :: 0 <= i < |log| ==> log[i].pri == q
    ensures count == -1 || count == Real(log)
    ensures old(b.active[q]) != [] && (script != [] || count != -1) ==> log != []
    ensures log != [] ==> old(b.active[q]) != [] && log[0].ev == old(b.active[q])[0]
    ensures Real(log) <= Max(1, maxToProcess)
    ensures count >= 0 ==> b.active[q] == [] || b.eventContinue || Real(log) >= maxToProcess || (timed && Real(log) > 0)
    ensures ranOut ==> count == -1 && |log| == |script| && Pending(b) > 0
    ensures |b.evs| == |old(b.evs)|
    ensures AllDefer(script) ==> TimerSet(b.evs) <= old(TimerSet(b.evs)) && |log| + Load(b) <= old(Load(b)) && (old(TimerSet(b.evs)) == {} ==> !lost)
  {
    hide b.Core, b.CoveredExcept, TimerSet, Load, OnlyDefers, Real;
    log, ranOut, lost := [], false, false;
    NoneRan();
    var c := 0;
    while b.active[q] != []
      invariant b.Valid() && b.running == -1 && |b.active| == |old(b.active)|
      invariant |log| <= |script| && c == Real(log) && forall i :: 0 <= i < |log| ==> log[i].pri == q
      invariant c < Max(1, maxToProcess) && !lost
      invariant if log == [] then b.active == old(b.active) else old(b.active[q]) != [] && log[0].ev == old(b.active[q])[0]
      invariant |b.evs| == |old(b.evs)|
      invariant AllDefer(script) ==> TimerSet(b.evs) <= old(TimerSet(b.evs)) && |log| + Load(b) <= old(Load(b))
      decreases |script| - |log|
    {
      if |log| == |script| {
        LenAtLeast(b.active, q);
        return -1, log, true, false;
      }
      QueueHead(b, q);
      var t := script[|log|];
      var r := Ran(b.active[q][0], q, b.evs[b.active[q][0]].internal);
      RealSnoc(log, r);
      assert t in script;
      var ran;
      ghost var trace;
      ran, lost, trace := RunOne(b, q, t);
      log := log + [r];
      c := c + if r.internal then 0 else 1;
      if t.stop || lost {
        return -1, log, false, lost;
      }
      if c >= maxToProcess || (c > 0 && timed && t.late) || b.eventContinue {
        break;
      }
    }
    count := c;
  }

  lemma NoneRan()
    ensures Real([]) == 0
  {
  }

  /** All callbacks in the log that are not libevent's own have the same priority. */
  ghost predicate OnePriority(log: seq<Ran>)
  {
    forall i, j :: 0 <= i < |log| && 0 <= j < |log| && !log[i].internal && !log[j].internal ==> log[i].pri == log[j].pri
  }

  /** The first callback in the log was the first one in the most important queue that
      was not empty. */
  ghost predicate FirstRan(active: seq<seq<nat>>, log: seq<Ran>)
  {
    log != [] ==>
      && log[0].pri < |active| && active[log[0].pri] != [] && log[0].ev == active[log[0].pri][0]
      && forall p :: 0 <= p < log[0].pri ==> active[p] == []
  }

  /** event_process_active: a pass starts with the most important callback, and runs
      callbacks of at most one priority, libevent's own aside. If callbacks only defer
      callbacks, it ends after at most as many turns as there were active and waiting
      callbacks plus MAX_DEFERREDS_QUEUED + 1, whatever they defer, and as many more as
      there are events for each queue whose timer was about to run. */
  method ProcessActive(b: Base, maxcb: int, limitAfterPrio: int, timed: bool, script: seq<Turn>)
    returns (c: int, log: seq<Ran>, ranOut: bool, lost: bool)
    requires b.Valid() && b.running == -1
    modifies b
    modifies b.heap
    ensures (b.Valid() <==> !lost) && b.running == -1 && b.runningPriority == -1 && |b.active| == |old(b.active)|
    ensures lost ==> exists t :: t in script && StarvedTurn(t)
    ensures OnePriority(log) && |log| <= |script|
    ensures FirstRan(old(b.active), log) && (log == [] ==> script == [] || forall p :: 0 <= p < |b.active| ==> old(b.active)[p] == [])
    ensures forall k :: 0 <= k < |log| && !log[k].internal && log[k].pri >= limitAfterPrio ==> Real(log) <= Max(1, maxcb)
    ensures AllDefer(script) ==>
              && |log| <= old(Load(b)) && (ranOut ==> |script| < old(Load(b))) && (old(TimerSet(b.evs)) == {} ==> !lost)
    ensures old(Load(b)) <= old(Pending(b) + |b.later|) + MAX_DEFERREDS_QUEUED + 1 + old(|TimerSet(b.evs)| * |b.evs|)
  {
    hide b.Core, b.CoveredExcept, TimerSet, Load, OnlyDefers, AllDefer, Real, OnePriority, StarvedTurn, FirstRan;
    LoadMost(b);
    NoFirst(b.active);
    c, log, ranOut, lost := 0, [], false, false;
    NoneRan();
    var i := 0;
    while i < |b.active|
      invariant b.Valid() && b.running == -1 && |b.active| == |old(b.active)|
      invariant c == 0 && Real(log) == 0 && |log| <= |script| && !ranOut && !lost && i <= |b.active|
      invariant FirstRan(old(b.active), log)
      invariant log == [] ==> b.active == old(b.active) && forall p :: 0 <= p < i ==> old(b.active)[p] == []
      invariant AllDefer(script) ==> TimerSet(b.evs) <= old(TimerSet(b.evs)) && |log| + Load(b) <= old(Load(b))
      decreases |b.active| - i
    {
      if b.active[i] != [] {
        b.runningPriority := i;
        var part;
        DeferRest(script, |log|);
        assert forall t :: t in script[|log|..] ==> t in script;
        c, part, ranOut, lost := ProcessQueue(b, i, if i < limitAfterPrio then INT_MAX else maxcb, timed && i >= limitAfterPrio, script[|log|..]);
        RealConcat(log, part);
        OnePart(log, part, i);
        FirstPart(old(b.active), log, part, i);
        LoadPending(b);
        AtMost(log, part, i, if i < limitAfterPrio then INT_MAX else maxcb, limitAfterPrio, maxcb);
        log := log + part;
        if c != 0 {
          break;
        }
      }
      i := i + 1;
    }
    NoneReal(log);
    b.runningPriority := -1;
  }

  lemma NoFirst(active: seq<seq<nat>>)
    ensures FirstRan(active, [])
  {
  }

  lemma FirstPart(active: seq<seq<nat>>, log: seq<Ran>, part: seq<Ran>, p: nat)
    requires FirstRan(active, log) && forall i :: 0 <= i < |part| ==> part[i].pri == p
    requires log == [] && part != [] ==>
               p < |active| && active[p] != [] && part[0].ev == active[p][0] && forall q :: 0 <= q < p ==> active[q] == []
    ensures FirstRan(active, log + part)
  {
  }

  lemma AtMost(log: seq<Ran>, part: seq<Ran>, p: nat, most: int, limit: int, maxcb: int)
    requires Real(log) == 0 && Real(part) <= Max(1, most) && (p < limit || most == maxcb)
    requires forall i :: 0 <= i < |part| ==> part[i].pri == p
    ensures forall k :: 0 <= k < |log + part| && !(log + part)[k].internal && (log + part)[k].pri >= limit ==>
              Real(log + part) <= Max(1, maxcb)
  {
    RealConcat(log, part);
    AllInternal(log);
  }

  lemma DeferRest(script: seq<Turn>, n: nat)
    requires n <= |script|
    ensures AllDefer(script) ==> AllDefer(script[n..])
  {
  }

  lemma {:induction false} RealConcat(a: seq<Ran>, c: seq<Ran>)
    ensures Real(a + c) == Real(a) + Real(c)
  {
    if a == [] {
      assert a + c == c;
    } else {
      RealConcat(a[1..], c);
      assert (a + c)[1..] == a[1..] + c;
    }
  }

  lemma OnePart(log: seq<Ran>, part: seq<Ran>, p: nat)
    requires Real(log) == 0 && forall i :: 0 <= i < |part| ==> part[i].pri == p
    ensures OnePriority(log + part)
  {
    AllInternal(log);
  }

  lemma NoneReal(log: seq<Ran>)
    ensures Real(log) == 0 ==> OnePriority(log)
  {
    if Real(log) == 0 {
      AllInternal(log);
    }
  }

  /** What the event loop, or another thread between its steps, may do. */
  datatype LoopStep =
    | Call(action: Action, now: int)
    | Begin                                                                       // an iteration of event_base_loop begins
    | Expire(time: int)                                                           // timeout_process
    | Resume                                                                      // event_queue_make_later_events_active
    | Pass(maxcb: int, limitAfterPrio: int, timed: bool, script: seq<Turn>)       // event_process_active

  ghost predicate StarvedStep(s: LoopStep)
  {
    (s.Call? && Starved(s.action)) || (s.Pass? && exists t :: t in s.script && StarvedTurn(t))
  }

  /** event_base_loop, at the start of each iteration */
  method BeginIteration(b: Base)
    requires b.Valid()
    modifies b`eventContinue, b`nDeferreds
    ensures b.Valid() && !b.eventContinue && Slack(b) == MAX_DEFERREDS_QUEUED + 1
  {
    b.eventContinue, b.nDeferreds := false, 0;
  }

  /** One step. The base is consistent afterwards if and only if the step lost no timeout:
      an action meets the condition of event_add, or a timer that of its callback. */
  method OneStep(b: Base, s: LoopStep) returns (lost: bool, ghost log: seq<Ran>)
    requires b.Valid() && b.running == -1
    modifies b, b.heap
    ensures (b.Valid() <==> !lost) && b.running == -1
    ensures lost ==> StarvedStep(s)
    ensures Stepped(s, old(Snap(b)), Snap(b), log)
  {
    hide b.Core, b.CoveredExcept, TotalWeight, TotalLen, Loses, Did, Done, OthersKept, RanOut, FirstRan, OnePriority, StarvedTurn, LegalOn;
    lost, log := false, [];
    match s {
      case Call(action, now) =>
        ListCount(b);
        ghost var was, room := b.evs, b.heap.n < |b.heap.p|;
        NotLegal(was, action, now, |b.timers|);
        if Legal(b, action) {
          NeedsMemory(b, action);
          lost := Perform(b, action, now);
          IsDone(was, b.evs, action, now, |b.timers|, room);
        }
      case Begin =>
        BeginIteration(b);
      case Expire(now) =>
        ghost var _ := TimeoutProcess(b, now);
      case Resume =>
        MakeLaterActive(b);
      case Pass(maxcb, limitAfterPrio, timed, script) =>
        var c, ran, ranOut;
        c, ran, ranOut, lost := ProcessActive(b, maxcb, limitAfterPrio, timed, script);
        log := ran;
    }
  }

  /** What a step shows: the events, how many common timeouts there are, the active queues,
      whether a restart is asked for, and how many callbacks were deferred. */
  datatype Shot = Shot(evs: seq<Ev>, nl: nat, active: seq<seq<nat>>, restart: bool, deferred: nat)

  ghost function Snap(b: Base): Shot
    reads b
  {
    Shot(b.evs, |b.timers|, b.active, b.eventContinue, b.nDeferreds)
  }

  /** What each step does: a call takes effect if it is legal; an iteration begins without
      a restart or deferred callbacks; exactly the timeouts of the heap that are due expire;
      all that waits is active; and a pass begins with the most important callback. */
  ghost predicate Stepped(s: LoopStep, was: Shot, now: Shot, log: seq<Ran>)
  {
    match s
    case Call(a, time) => Did(was.evs, now.evs, a, time, was.nl)
    case Begin => now == was.(restart := false, deferred := 0)
    case Expire(time) =>
      && |now.evs| == |was.evs|
      && forall e :: 0 <= e < |now.evs| ==>
           if was.evs[e].timeout && was.evs[e].list.None? && was.evs[e].deadline <= time then RanOut(was.evs[e], now.evs[e])
           else now.evs[e] == was.evs[e]
    case Resume =>
      && |now.evs| == |was.evs|
      && forall e :: 0 <= e < |now.evs| ==>
           now.evs[e] == if was.evs[e].later then was.evs[e].(later := false, active := true) else was.evs[e]
    case Pass(_, _, _, script) =>
      && OnePriority(log) && FirstRan(was.active, log)
      && (log == [] ==> script == [] || forall p :: 0 <= p < |was.active| ==> was.active[p] == [])
  }

  /** A trace of the run: what it shows before and after each of the steps done. */
  ghost predicate IsRun(trace: seq<Shot>, logs: seq<seq<Ran>>, steps: seq<LoopStep>)
  {
    && |trace| == |steps| + 1 && |logs| == |steps|
    && forall k :: 0 <= k < |steps| ==> Stepped(steps[k], trace[k], trace[k + 1], logs[k])
  }

  lemma RunNext(trace: seq<Shot>, logs: seq<seq<Ran>>, steps: seq<LoopStep>, k: nat, shot: Shot, log: seq<Ran>)
    requires k < |steps| && IsRun(trace, logs, steps[..k]) && Stepped(steps[k], trace[k], shot, log)
    ensures IsRun(trace + [shot], logs + [log], steps[..k + 1])
  {
    hide Stepped;
    var now, trace', logs' := steps[..k + 1], trace + [shot], logs + [log];
    forall i | 0 <= i < k + 1
      ensures Stepped(now[i], trace'[i], trace'[i + 1], logs'[i])
    {
      if i < k {
        assert steps[..k][i] == now[i] && trace[i] == trace'[i] && trace[i + 1] == trace'[i + 1] && logs[i] == logs'[i];
      }
    }
  }

  /** Over every run, up to the first step that loses a timeout, if there is one: the counts
      agree with the flags, no finalizing event is pending, and every common timeout with
      pending events has a timer that is pending in time or active. A run in which memory
      does not run out loses none. The trace shows what each step did. */
  method RunLoop(b: Base, steps: seq<LoopStep>) returns (lost: bool, done: nat, ghost trace: seq<Shot>, ghost logs: seq<seq<Ran>>)
    requires b.Valid() && b.running == -1
    modifies b, b.heap
    ensures b.running == -1 && (b.Valid() <==> !lost)
    ensures if lost then done < |steps| && StarvedStep(steps[done]) else done == |steps|
    ensures IsRun(trace, logs, steps[..done]) && trace[0] == old(Snap(b)) && (!lost ==> trace[done] == Snap(b))
    ensures !lost ==>
              && b.eventCount == TotalWeight(b.evs) && b.eventCountActive == TotalLen(b.active) + |b.later|
              && (forall e :: 0 <= e < |b.evs| && b.evs[e].finalizing ==> !b.evs[e].inserted && !b.evs[e].timeout)
              && (forall i :: 0 <= i < |b.lists| && b.lists[i] != [] ==>
                    && i < |b.timers| && b.timers[i] < |b.evs| && b.lists[i][0] < |b.evs|
                    && Due(b.evs[b.timers[i]], b.evs[b.lists[i][0]].deadline))
  {
    hide b.Core, b.CoveredExcept, TotalWeight, TotalLen, IsRun, Stepped;
    lost, done, trace, logs := false, 0, [Snap(b)], [];
    RunStarts(trace, logs, steps);
    while done < |steps|
      invariant done <= |steps| && b.Valid() && b.running == -1 && !lost
      invariant IsRun(trace, logs, steps[..done]) && |trace| == done + 1 && trace[0] == old(Snap(b)) && trace[done] == Snap(b)
    {
      ghost var log;
      lost, log := OneStep(b, steps[done]);
      if lost {
        return;
      }
      RunNext(trace, logs, steps, done, Snap(b), log);
      trace, logs := trace + [Snap(b)], logs + [log];
      done := done + 1;
    }
    Consistent(b);
  }

  lemma RunStarts(trace: seq<Shot>, logs: seq<seq<Ran>>, steps: seq<LoopStep>)
    requires |trace| == 1 && logs == []
    ensures IsRun(trace, logs, steps[..0])
  {
  }

  lemma Consistent(b: Base)
    requires b.Valid() && b.running == -1
    ensures b.eventCount == TotalWeight(b.evs) && b.eventCountActive == TotalLen(b.active) + |b.later|
    ensures forall e :: 0 <= e < |b.evs| && b.evs[e].finalizing ==> !b.evs[e].inserted && !b.evs[e].timeout
    ensures forall i :: 0 <= i < |b.lists| && b.lists[i] != [] ==>
              && i < |b.timers| && b.timers[i] < |b.evs| && b.lists[i][0] < |b.evs|
              && Due(b.evs[b.timers[i]], b.evs[b.lists[i][0]].deadline)
  {
    forall i | 0 <= i < |b.lists| && b.lists[i] != []
      ensures && i < |b.timers| && b.timers[i] < |b.evs| && b.lists[i][0] < |b.evs|
              && Due(b.evs[b.timers[i]], b.evs[b.lists[i][0]].deadline)
    {
      HeadOf(b, i);
      assert Covered(b.evs, b.lists[i], b.timers[i], b.running);
    }
    forall e | 0 <= e < |b.evs| && b.evs[e].finalizing
      ensures !b.evs[e].inserted && !b.evs[e].timeout
    {
      assert EvOk(b.evs[e], |b.timers|, |b.active|);
    }
  }
}

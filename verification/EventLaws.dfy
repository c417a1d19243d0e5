/** event.c: what the operations on timeouts come to when one follows another. */
module EventLaws {
  import opened Bytes
  import opened Queues
  import opened EventQueues
  import opened EventBase
  import opened EventOps
  import opened EventLoop
  import opened EventTimeouts
  import opened EventActive

  /** A timeout of its own, added at `now`: at time t the event has expired if and only if
      the interval is over. */
  method AddThenExpire(b: Base, e: nat, us: int, now: int, t: int, mapOk: bool, mallocOk: bool) returns (r: int, lost: bool)
    requires b.Valid() && e < |b.evs| && b.evs[e].timerOf.None? && b.evs[e].isEvent
    modifies b`evs, b`lists, b`active, b`later, b`eventCount, b`eventCountActive, b`eventContinue, b.heap
    ensures |b.evs| == |old(b.evs)|
    ensures r == 0 && !lost ==>
              && b.Valid() && (b.evs[e].timeout <==> t < now + us)
              && (t >= now + us ==> b.evs[e].active && b.evs[e].resTimeout && !b.evs[e].inserted)
  {
    hide b.Core, b.CoveredExcept, EvOk, AddLoses, OthersKept, Expired;
    InListRange(b, e);
    var tv := Tv(us, None, false);
    lost := AddLoses(b, e, Some(tv), mapOk, mallocOk);
    ghost var was := b.evs;
    r := Add(b, e, Some(tv), now, mapOk, mallocOk);
    SameSize(was, b.evs, e);
    if r == 0 && !lost {
      ghost var _ := TimeoutProcess(b, t);
    }
  }

  /** The same for a common timeout, when the timer of its queue runs at time t. */
  method AddThenServe(b: Base, e: nat, i: nat, us: int, now: int, t: int, mapOk: bool, mallocOk: bool) returns (r: int, lost: bool)
    requires b.Valid() && e < |b.evs| && b.evs[e].timerOf.None? && b.evs[e].isEvent
    requires i < |b.lists| && b.running == b.timers[i]
    modifies b`evs, b`lists, b`active, b`later, b`eventCount, b`eventCountActive, b`eventContinue, b.heap
    ensures |b.evs| == |old(b.evs)|
    ensures r == 0 && !lost ==>
              && (b.evs[e].timeout <==> t < now + us)
              && (t >= now + us ==> b.evs[e].active && b.evs[e].resTimeout && !b.evs[e].inserted)
  {
    hide b.Core, b.CoveredExcept, EvOk, AddLoses, OthersKept, Expired;
    InListRange(b, e);
    TimerKnown(b, i);
    var tv := Tv(us, Some(i), false);
    lost := AddLoses(b, e, Some(tv), mapOk, mallocOk);
    ghost var was := b.evs;
    r := Add(b, e, Some(tv), now, mapOk, mallocOk);
    SameSize(was, b.evs, e);
    if r == 0 && !lost {
      TimerKnown(b, i);
      var _ := CommonTimeoutCallback(b, i, t, mallocOk);
    }
  }

  /** The timer of a queue runs, or an event loop goes round once: timeouts expire at one
      time, and the callback runs at another and does nothing. */
  datatype Round = Round(expire: int, run: int)

  function Quiet(now: int): Turn
  {
    Turn([], 0, now, true, true, false, false)
  }

  /** Event e is a persistent one with an interval, and the only one that is added, in a
      base without common timeouts. */
  ghost predicate Alone(b: Base, e: nat)
    reads b`evs, b`running
  {
    && b.timers == [] && b.running == -1 && e < |b.evs|
    && b.evs[e].isEvent && b.evs[e].closure == Persist && !b.evs[e].finalizing && b.evs[e].period > 0
    && b.evs[e].timeout && b.evs[e].list.None? && b.evs[e].periodList.None? && !b.evs[e].active
    && forall x :: 0 <= x < |b.evs| && x != e ==> !b.evs[x].timeout && !b.evs[x].active
  }

  lemma NoTimers(b: Base)
    requires b.Core() && b.timers == []
    ensures forall x :: 0 <= x < |b.evs| ==> b.evs[x].timerOf.None?
  {
    assert TimersOk(b.evs, b.timers);
    forall x | 0 <= x < |b.evs|
      ensures b.evs[x].timerOf.None?
    {
      TimerAt(b.evs, b.timers, x);
    }
  }

  lemma EmptyQueues(b: Base)
    requires b.Core() && forall x :: 0 <= x < |b.evs| ==> !b.evs[x].active
    ensures forall p :: 0 <= p < |b.active| ==> b.active[p] == []
  {
    forall p | 0 <= p < |b.active|
      ensures b.active[p] == []
    {
      assert QueueOk(b.evs, b.active[p], p);
      assert forall x: nat :: x in b.active[p] ==> InActive(b.evs, x, p);
      assert Elements(b.active[p]) == {};
      ElementsSize(b.active[p]);
    }
  }

  lemma JustOne(log: seq<nat>, e: nat)
    requires NoDup(log) && forall x: nat :: x in log <==> x == e
    ensures log == [e]
  {
    assert Elements(log) == {e};
    ElementsSize(log);
    assert log[0] in log;
  }

  lemma OneQueued(active: seq<seq<nat>>, evs: seq<Ev>, e: nat)
    requires e < |evs| && !evs[e].active && evs[e].pri < |active| && active[evs[e].pri] == []
    ensures AllRequeued(active, evs, [e]) == active[evs[e].pri := [e]]
  {
    assert [e][..0] == [];
    assert AllRequeued(active, evs, []) == active;
    assert [] + [e] == [e];
  }

  /** One round: the event runs once its deadline has come, and is pending again one
      interval after the deadline, or after now if that is later. */
  method GoRound(b: Base, e: nat, round: Round)
    requires b.Valid() && Alone(b, e) && b.evs[e].deadline <= round.expire
    modifies b, b.heap
    ensures b.Valid() && Alone(b, e)
    ensures var v := old(b.evs[e]);
            && b.evs[e].period == v.period
            && b.evs[e].deadline == if v.deadline + v.period >= round.run then v.deadline + v.period else round.run + v.period
  {
    hide b.Core, b.CoveredExcept, EvOk, OthersKept, Expired, AllRequeued, NoDup, Sorted, OnlyDefers;
    InListRange(b, e);
    NoTimers(b);
    EmptyQueues(b);
    ghost var was, active := b.evs, b.active;
    ghost var log := TimeoutProcess(b, round.expire);
    JustOne(log, e);
    OneQueued(active, was, e);
    NoTimers(b);
    ghost var mid := b.evs;
    var ran, lost;
    ghost var trace;
    ran, lost, trace := RunOne(b, b.evs[e].pri, Quiet(round.run));
    AllSame(mid, b.evs, e);
  }

  lemma AllSame(was: seq<Ev>, now: seq<Ev>, e: nat)
    requires OthersKept(was, now, e) && forall x :: 0 <= x < |was| ==> was[x].timerOf.None?
    ensures |was| == |now| && forall x :: 0 <= x < |was| && x != e ==> now[x] == was[x]
  {
  }

  /** Rounds in which every deadline has come, and no callback runs later than the next one. */
  ghost predicate OnTime(rounds: seq<Round>, deadline: int, period: int)
  {
    forall k :: 0 <= k < |rounds| ==> deadline + k * period <= rounds[k].expire && rounds[k].run <= deadline + (k + 1) * period
  }

  /** An event that always runs in time keeps its beat, whenever exactly it ran: after k
      rounds it is pending k intervals after its first deadline. */
  method KeepsBeat(b: Base, e: nat, rounds: seq<Round>)
    requires b.Valid() && Alone(b, e) && OnTime(rounds, b.evs[e].deadline, b.evs[e].period)
    modifies b, b.heap
    ensures b.Valid() && Alone(b, e) && b.evs[e].deadline == old(b.evs[e].deadline + |rounds| * b.evs[e].period)
  {
    hide b.Core, b.CoveredExcept;
    ghost var d, p := b.evs[e].deadline, b.evs[e].period;
    for k := 0 to |rounds|
      invariant b.Valid() && Alone(b, e) && b.evs[e].deadline == d + k * p && b.evs[e].period == p
    {
      GoRound(b, e, rounds[k]);
      assert d + (k + 1) * p == d + k * p + p;
    }
  }

  /** Adding the event with a relative timeout is where this begins: it is pending one
      interval from now, and remembers the interval. */
  method AddPeriodic(b: Base, e: nat, us: int, now: int, rounds: seq<Round>)
    requires b.Valid() && b.timers == [] && b.running == -1 && e < |b.evs| && us > 0
    requires b.evs[e].isEvent && b.evs[e].closure == Persist && !b.evs[e].finalizing
    requires forall x :: 0 <= x < |b.evs| ==> !b.evs[x].timeout && !b.evs[x].active
    requires OnTime(rounds, now + us, us)
    modifies b, b.heap
    ensures b.Valid() && Alone(b, e) && b.evs[e].deadline == now + (|rounds| + 1) * us
  {
    hide b.Core, b.CoveredExcept, EvOk, OthersKept;
    NoTimers(b);
    InListRange(b, e);
    ghost var was := b.evs;
    var tv := Tv(us, None, false);
    var r := Add(b, e, Some(tv), now, true, true);
    AllSame(was, b.evs, e);
    KeepsBeat(b, e, rounds);
    assert now + us + |rounds| * us == now + (|rounds| + 1) * us;
  }
}

/** event.c: the events and callbacks of an event_base, and the queues they are in. */
module EventQueues {
  import opened Bytes
  import opened Queues

  datatype Closure = Signal | Persist | Plain | Self | Finalizer

  /** A struct event, or (if !isEvent) a bare struct event_callback. Times are in
      microseconds; `list` is the common timeout whose tag the time carries. */
  datatype Ev = Ev(
    pri: nat, internal: bool, isEvent: bool, persist: bool, io: bool, closure: Closure,
    timerOf: Option<nat>,                   // the common timeout it is the timeout_event of
    inserted: bool, timeout: bool, active: bool, later: bool, finalizing: bool,
    deadline: int, list: Option<nat>,       // ev_timeout
    period: int, periodList: Option<nat>,   // ev_io_timeout
    resTimeout: bool)                       // ev_res & EV_TIMEOUT

  /** What an event contributes to event_count. */
  function Weight(ev: Ev): nat
  {
    if ev.internal then 0 else Bit(ev.inserted) + Bit(ev.timeout) + Bit(ev.active) + Bit(ev.later)
  }

  function TotalWeight(evs: seq<Ev>): nat
  {
    if evs == [] then 0 else Weight(evs[0]) + TotalWeight(evs[1..])
  }

  lemma {:induction false} WeightUpdate(evs: seq<Ev>, e: nat, v: Ev)
    requires e < |evs|
    ensures TotalWeight(evs[e := v]) == TotalWeight(evs) - Weight(evs[e]) + Weight(v)
  {
    if e == 0 {
      assert evs[0 := v][1..] == evs[1..];
    } else {
      WeightUpdate(evs[1..], e - 1, v);
      assert evs[e := v][1..] == evs[1..][e - 1 := v];
    }
  }

  /** The deadlines do not decrease along the queue. */
  ghost predicate Sorted(evs: seq<Ev>, q: seq<nat>)
  {
    && (forall i :: 0 <= i < |q| ==> q[i] < |evs|)
    && (forall i, j :: 0 <= i < j < |q| ==> evs[q[i]].deadline <= evs[q[j]].deadline)
  }

  lemma {:induction false} RemoveSorted(evs: seq<Ev>, q: seq<nat>, e: nat)
    requires Sorted(evs, q) && e in q
    ensures Sorted(evs, Remove(q, e))
    ensures Remove(q, e) != [] ==> evs[q[0]].deadline <= evs[Remove(q, e)[0]].deadline
  {
    var r := Remove(q, e);
    if q[0] != e {
      var t := Remove(q[1..], e);
      RemoveSorted(evs, q[1..], e);
      RemoveSubset(q[1..], e);
      forall i | 0 <= i < |t|
        ensures evs[q[0]].deadline <= evs[t[i]].deadline
      {
        assert t[i] in q[1..];
        var j :| 0 <= j < |q[1..]| && q[1..][j] == t[i];
        assert t[i] == q[j + 1];
      }
      SortedCons(evs, q[0], t);
    }
  }

  lemma SortedCons(evs: seq<Ev>, e: nat, t: seq<nat>)
    requires Sorted(evs, t) && e < |evs| && forall i :: 0 <= i < |t| ==> evs[e].deadline <= evs[t[i]].deadline
    ensures Sorted(evs, [e] + t)
  {
  }

  /** insert_common_timeout_inorder: the place to insert, searching from the end. */
  method FindPlace(evs: seq<Ev>, q: seq<nat>, d: int) returns (i: nat)
    requires Sorted(evs, q)
    ensures i <= |q|
    ensures forall j :: 0 <= j < i ==> evs[q[j]].deadline <= d
    ensures forall j :: i <= j < |q| ==> d < evs[q[j]].deadline
  {
    i := |q|;
    while i > 0
      invariant i <= |q|
      invariant forall j :: i <= j < |q| ==> d < evs[q[j]].deadline
    {
      if d >= evs[q[i - 1]].deadline {
        return;
      }
      i := i - 1;
    }
  }

  lemma InsertSorted(evs: seq<Ev>, q: seq<nat>, i: nat, e: nat)
    requires Sorted(evs, q) && e < |evs| && i <= |q|
    requires forall j :: 0 <= j < i ==> evs[q[j]].deadline <= evs[e].deadline
    requires forall j :: i <= j < |q| ==> evs[e].deadline < evs[q[j]].deadline
    ensures Sorted(evs, InsertAt(q, i, e))
  {
    var r := InsertAt(q, i, e);
    hide InsertAt;
    InsertAtIndex(q, i, e, 0);
    forall a | 0 <= a < |r|
      ensures r[a] < |evs|
    {
      InsertAtIndex(q, i, e, a);
    }
    forall a, b | 0 <= a < b < |r|
      ensures evs[r[a]].deadline <= evs[r[b]].deadline
    {
      InsertAtIndex(q, i, e, a);
      InsertAtIndex(q, i, e, b);
    }
  }
}

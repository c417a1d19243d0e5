/** event.c: an event base on which event_add loses a timeout. */
module EventCases {
  import opened Bytes
  import opened EventQueues
  import opened EventBase
  import opened EventOps
  import opened EventLoop

  /** Event 0 is to get a common timeout, whose timer is event 1; the others are to get
      timeouts of their own. */
  function Sample(i: nat): Ev
  {
    Ev(0, i == 1, true, false, false, Plain, if i == 1 then Some(0) else None, false, false, false, false, false, 0, None, 0, None, false)
  }

  function Samples(): seq<Ev>
  {
    seq(9, i requires 0 <= i < 9 => Sample(i))
  }

  lemma SamplesOk(evs: seq<Ev>)
    requires evs == Samples()
    ensures |evs| == 9 && FlagsOk(evs, 1, 1) && TimersOk(evs, [1]) && forall e :: 0 <= e < |evs| ==> evs[e] == Sample(e) && Idle(evs[e])
  {
  }

  /** Events 2 to 8 are added, and then event 0: eight timeouts fill the first array that
      the heap allocates. */
  method FullBase() returns (b: Base)
    ensures fresh(b) && fresh(b.heap) && b.Valid() && |b.evs| == 9 && |b.lists| == 1
    ensures b.heap.n == |b.heap.p| && b.evs[0].timeout && b.evs[0].list == Some(0)
    ensures b.evs[0].timerOf.None? && b.evs[0].isEvent && !b.evs[0].finalizing && !b.evs[0].io && b.evs[0].closure == Plain
  {
    hide FlagsOk, TimersOk, Samples, b.Core, b.CoveredExcept, AddLoses;
    SamplesOk(Samples());
    b := new Base(1, Samples(), [1]);
    InListRange(b, 0);
    var own, common := Tv(10, None, false), Tv(10, Some(0), false);
    for i := 2 to 9
      invariant b.Valid() && |b.evs| == 9 && |b.lists| == 1 && b.lists[0] == [] && b.running == -1
      invariant forall e :: 0 <= e < 9 && (e < 2 || i <= e) ==> b.evs[e] == Sample(e)
      invariant b.heap.n == i - 2 && |b.heap.p| == if i == 2 then 0 else 8
    {
      WithMemory(b, i, own);
      var _ := Add(b, i, Some(own), 0, true, true);
    }
    WithMemory(b, 0, common);
    var _ := Add(b, 0, Some(common), 0, true, true);
  }

  lemma WithMemory(b: Base, e: nat, tv: Tv)
    requires b.Core() && e < |b.evs| && b.evs[e] == Sample(e) && !tv.absolute && (tv.list.Some? ==> tv.list.value < |b.lists|)
    ensures Acceptable(b.evs[e], tv, |b.lists|) && |b.timers| == |b.lists|
    ensures !AddLoses(b, e, Some(tv), true, true) && b.heap.n <= |b.heap.p|
  {
  }

  /** Giving event 0 a timeout of its own while the heap cannot grow: event_add reports
      success, but afterwards the event says it has a timeout and is in no queue. */
  method LostTimeout() returns (b: Base, r: int)
    ensures r == 0 && !b.Valid()
    ensures b.evs != [] && b.evs[0].timeout && b.evs[0].list.None?
  {
    hide b.Core, b.CoveredExcept;
    b := FullBase();
    InListRange(b, 0);
    r := Add(b, 0, Some(Tv(5, None, false)), 0, true, false);
  }
}

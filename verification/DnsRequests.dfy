/** evdns.c: the queues of DNS requests and the counters kept beside them. */
module DnsRequests {
  import opened Bytes
  import opened Queues
  import opened DnsServers

  /** struct request: its transaction id, the nameserver it is with, how often it has
      been sent, whether it still has to be, whether it probes a nameserver, and whether it
      is in a queue at all. */
  datatype Req = Req(transId: nat, ns: Option<nat>, sent: nat, transmitMe: bool, probe: bool, queued: bool)

  ghost predicate Waits(reqs: seq<Req>, i: nat)
  {
    i < |reqs| && reqs[i].queued && reqs[i].ns.None?
  }

  ghost predicate InBucket(reqs: seq<Req>, i: nat, b: nat, n: nat)
    requires n > 0
  {
    i < |reqs| && reqs[i].queued && reqs[i].ns.Some? && reqs[i].transId % n == b
  }

  ghost predicate BucketOk(reqs: seq<Req>, q: seq<nat>, b: nat, n: nat)
    requires n > 0
  {
    NoDup(q) && forall i :: i in q <==> InBucket(reqs, i, b, n)
  }

  /** Each request with a nameserver is in the bucket of its transaction id. */
  ghost predicate BucketsOk(reqs: seq<Req>, heads: seq<seq<nat>>)
  {
    |heads| > 0 && forall b :: 0 <= b < |heads| ==> BucketOk(reqs, heads[b], b, |heads|)
  }

  /** Each request without one is waiting. */
  ghost predicate WaitingOk(reqs: seq<Req>, waiting: seq<nat>)
  {
    NoDup(waiting) && forall i :: i in waiting <==> Waits(reqs, i)
  }

  predicate With(r: Req, s: nat)
  {
    r.queued && r.ns == Some(s)
  }

  function CountWith(reqs: seq<Req>, s: nat): nat
  {
    if reqs == [] then 0 else (if With(reqs[0], s) then 1 else 0) + CountWith(reqs[1..], s)
  }

  lemma {:induction false} CountUpdate(reqs: seq<Req>, i: nat, r: Req, s: nat)
    requires i < |reqs|
    ensures CountWith(reqs[i := r], s) == CountWith(reqs, s) - (if With(reqs[i], s) then 1 else 0) + (if With(r, s) then 1 else 0)
  {
    if i == 0 {
      assert reqs[0 := r][1..] == reqs[1..];
    } else {
      CountUpdate(reqs[1..], i - 1, r, s);
      assert reqs[i := r][1..] == reqs[1..][i - 1 := r];
    }
  }

  lemma {:induction false} CountSnoc(reqs: seq<Req>, r: Req, s: nat)
    ensures CountWith(reqs + [r], s) == CountWith(reqs, s) + (if With(r, s) then 1 else 0)
  {
    if reqs == [] {
      assert reqs + [r] == [r];
    } else {
      CountSnoc(reqs[1..], r, s);
      assert (reqs + [r])[1..] == reqs[1..] + [r];
    }
  }

  /** Each nameserver counts the requests it has, and requests are with servers that
      exist. */
  ghost predicate ServersOk(reqs: seq<Req>, servers: seq<Server>)
  {
    && (forall s :: 0 <= s < |servers| ==> servers[s].inflight == CountWith(reqs, s))
    && (forall i :: 0 <= i < |reqs| && reqs[i].ns.Some? ==> reqs[i].ns.value < |servers|)
  }

  /** A request that joins a bucket. */
  lemma BucketJoin(reqs: seq<Req>, heads: seq<seq<nat>>, i: nat, r: Req)
    requires BucketsOk(reqs, heads) && i < |reqs| && r.queued && r.ns.Some? && !(reqs[i].queued && reqs[i].ns.Some?)
    ensures var b := r.transId % |heads|;
            BucketsOk(reqs[i := r], heads[b := heads[b] + [i]]) && TotalLen(heads[b := heads[b] + [i]]) == TotalLen(heads) + 1
  {
    var n := |heads|;
    var b := r.transId % n;
    var rs, hs := reqs[i := r], heads[b := heads[b] + [i]];
    LenUpdate(heads, b, heads[b] + [i]);
    forall c | 0 <= c < n
      ensures BucketOk(rs, hs[c], c, n)
    {
      assert BucketOk(reqs, heads[c], c, n);
      assert !InBucket(reqs, i, c, n);
      AppendFacts(heads[c], i);
      forall x: nat
        ensures x in hs[c] <==> InBucket(rs, x, c, n)
      {
        assert x in heads[c] <==> InBucket(reqs, x, c, n);
      }
    }
  }

  /** A request that leaves its bucket. */
  lemma BucketLeave(reqs: seq<Req>, heads: seq<seq<nat>>, i: nat, r: Req)
    requires BucketsOk(reqs, heads) && i < |reqs| && reqs[i].queued && reqs[i].ns.Some? && !(r.queued && r.ns.Some?)
    ensures var b := reqs[i].transId % |heads|;
            && i in heads[b]
            && BucketsOk(reqs[i := r], heads[b := Remove(heads[b], i)])
            && TotalLen(heads[b := Remove(heads[b], i)]) == TotalLen(heads) - 1
  {
    var n := |heads|;
    var b := reqs[i].transId % n;
    assert BucketOk(reqs, heads[b], b, n) && InBucket(reqs, i, b, n);
    RemoveFacts(heads[b], i);
    LenUpdate(heads, b, Remove(heads[b], i));
    var rs, hs := reqs[i := r], heads[b := Remove(heads[b], i)];
    forall c | 0 <= c < n
      ensures BucketOk(rs, hs[c], c, n)
    {
      assert BucketOk(reqs, heads[c], c, n);
      forall x: nat
        ensures x in hs[c] <==> InBucket(rs, x, c, n)
      {
        assert x in heads[c] <==> InBucket(reqs, x, c, n);
      }
    }
  }

  /** A request that stays where it is, or stays out. */
  lemma BucketStay(reqs: seq<Req>, heads: seq<seq<nat>>, i: nat, r: Req)
    requires BucketsOk(reqs, heads) && i < |reqs|
    requires (r.queued && r.ns.Some?) == (reqs[i].queued && reqs[i].ns.Some?)
    requires r.queued && r.ns.Some? ==> r.transId == reqs[i].transId
    ensures BucketsOk(reqs[i := r], heads)
  {
    var rs, n := reqs[i := r], |heads|;
    forall c | 0 <= c < n
      ensures BucketOk(rs, heads[c], c, n)
    {
      assert BucketOk(reqs, heads[c], c, n);
      assert forall x :: InBucket(rs, x, c, n) <==> InBucket(reqs, x, c, n);
    }
  }

  lemma WaitingStep(reqs: seq<Req>, waiting: seq<nat>, i: nat, r: Req)
    requires WaitingOk(reqs, waiting) && i < |reqs|
    ensures var was, now := reqs[i].queued && reqs[i].ns.None?, r.queued && r.ns.None?;
            && (was == now ==> WaitingOk(reqs[i := r], waiting))
            && (!was && now ==> WaitingOk(reqs[i := r], waiting + [i]))
            && (was && !now ==> WaitingOk(reqs[i := r], Remove(waiting, i)) && |Remove(waiting, i)| == |waiting| - 1)
  {
    var rs := reqs[i := r];
    var was, now := reqs[i].queued && reqs[i].ns.None?, r.queued && r.ns.None?;
    assert i in waiting <==> Waits(reqs, i);
    if was && !now {
      RemoveFacts(waiting, i);
    } else if !was && now {
      AppendFacts(waiting, i);
    }
    var w := if was && !now then Remove(waiting, i) else if !was && now then waiting + [i] else waiting;
    forall x: nat
      ensures x in w <==> Waits(rs, x)
    {
      assert x in waiting <==> Waits(reqs, x);
    }
  }

  /** The servers' counts when a request moves. */
  function Recount(servers: seq<Server>, s: Option<nat>, delta: int): seq<Server>
  {
    if s.Some? && s.value < |servers|
    then servers[s.value := servers[s.value].(inflight := servers[s.value].inflight + delta)] else servers
  }

  function OneMore(servers: seq<Server>, s: nat): seq<Server>
    requires s < |servers|
  {
    servers[s := servers[s].(inflight := servers[s].inflight + 1)]
  }

  lemma RecountMore(servers: seq<Server>, s: nat)
    requires s < |servers|
    ensures Recount(servers, Some(s), 1) == OneMore(servers, s)
  {
  }

  function Place(r: Req): Option<nat>
  {
    if r.queued then r.ns else None
  }

  lemma ServersStep(reqs: seq<Req>, servers: seq<Server>, i: nat, r: Req)
    requires ServersOk(reqs, servers) && i < |reqs| && (r.ns.Some? ==> r.ns.value < |servers|)
    ensures ServersOk(reqs[i := r], Recount(Recount(servers, Place(reqs[i]), -1), Place(r), 1))
  {
    var ss := Recount(Recount(servers, Place(reqs[i]), -1), Place(r), 1);
    forall s | 0 <= s < |ss|
      ensures ss[s].inflight == CountWith(reqs[i := r], s)
    {
      CountUpdate(reqs, i, r, s);
    }
  }

  lemma {:induction false} RecountGood(servers: seq<Server>, s: Option<nat>, delta: int)
    ensures GoodCount(Recount(servers, s, delta)) == GoodCount(servers) && |Recount(servers, s, delta)| == |servers|
    ensures forall x :: 0 <= x < |servers| ==>
              var r := Recount(servers, s, delta)[x]; r.up == servers[x].up && r.timedOut == servers[x].timedOut
  {
    if s.Some? && s.value < |servers| {
      GoodUpdate(servers, s.value, servers[s.value].(inflight := servers[s.value].inflight + delta));
    }
  }

  /** The server whose turn it is was picked, and the next one has its turn next: if any are
      up, the round goes on with the others of them; if none is, it goes on all the same. */
  ghost predicate Picked(servers: seq<Server>, head: nat, s: nat, head': nat)
  {
    && head < |servers| && s < |servers| && head' < |servers| && s == Turn(servers, head) && head' == Onward(servers, head)
    && (GoodCount(servers) == 0 ==> s == head' == Next(head, |servers|))
    && (GoodCount(servers) > 0 ==>
          && servers[s].up && Ups(servers, head) != [] && s == Ups(servers, head)[0]
          && Ups(servers, head') == Ups(servers, head)[1..] + [s])
  }

  class Resolver {
    var reqs: seq<Req>
    var servers: seq<Server>
    var head: nat                  // server_head
    var heads: seq<seq<nat>>       // req_heads
    var waiting: seq<nat>          // req_waiting_head
    var inflight: int              // global_requests_inflight
    var nWaiting: int              // global_requests_waiting
    var good: int                  // global_good_nameservers
    var maxInflight: int           // global_max_requests_inflight

    ghost predicate Valid()
      reads this
    {
      && BucketsOk(reqs, heads) && WaitingOk(reqs, waiting) && ServersOk(reqs, servers)
      && inflight == TotalLen(heads) && nWaiting == |waiting| && good == GoodCount(servers)
      && (servers != [] ==> head < |servers|)
    }

    constructor (servers: seq<Server>, maxInflight: int)
      requires forall s :: 0 <= s < |servers| ==> servers[s].inflight == 0
      ensures Valid() && reqs == [] && waiting == [] && inflight == 0 && this.servers == servers && this.maxInflight == maxInflight
    {
      this.servers, this.maxInflight := servers, maxInflight;
      reqs, head, heads, waiting, inflight, nWaiting := [], 0, [[]], [], 0, 0;
      good := GoodCount(servers);
    }

    /** nameserver_pick */
    method PickServer() returns (s: Option<nat>)
      requires Valid()
      modifies this`head
      ensures Valid() && (s.None? <==> servers == [])
      ensures s.Some? ==> s.value < |servers| && (good > 0 ==> servers[s.value].up)
      ensures if s.None? then head == old(head) else Picked(servers, old(head), s.value, head)
    {
      hide BucketsOk, WaitingOk, ServersOk, Ups, Turn, Onward;
      if servers == [] {
        return None;
      }
      var p;
      p, head := Pick(servers, head);
      s := Some(p);
    }
  
    /** Enters request i, which is in no queue, as r: into a bucket if it has a
        nameserver, into the waiting queue if not. */
    method Enter(i: nat, r: Req)
      requires Valid() && i < |reqs| && !reqs[i].queued && r.queued && (r.ns.Some? ==> r.ns.value < |servers|)
      modifies this`reqs, this`servers, this`heads, this`waiting, this`inflight, this`nWaiting
      ensures Valid() && reqs == old(reqs)[i := r] && NoneUp(old(servers), servers) && SameUp(old(servers), servers)
      ensures servers == if r.ns.Some? then OneMore(old(servers), r.ns.value) else old(servers)
      ensures r.ns.Some? ==> waiting == old(waiting) && inflight == old(inflight) + 1
      ensures r.ns.None? ==> waiting == old(waiting) + [i] && heads == old(heads) && inflight == old(inflight)
    {
      hide BucketsOk, WaitingOk, ServersOk, TotalLen, GoodCount, Recount;
      WaitingStep(reqs, waiting, i, r);
      ServersStep(reqs, servers, i, r);
      RecountGood(servers, Place(reqs[i]), -1);
      RecountGood(Recount(servers, Place(reqs[i]), -1), Place(r), 1);
      NoRecount(servers, -1);
      HeadsSome(reqs, heads);
      if r.ns.Some? {
        BucketJoin(reqs, heads, i, r);
        RecountMore(servers, r.ns.value);
        var b := r.transId % |heads|;
        heads := heads[b := heads[b] + [i]];
        inflight := inflight + 1;
        servers := Recount(servers, r.ns, 1);
      } else {
        NoRecount(servers, 1);
        BucketStay(reqs, heads, i, r);
        waiting := waiting + [i];
        nWaiting := nWaiting + 1;
      }
      reqs := reqs[i := r];
    }

    /** Takes request i out of the queue it is in. */
    method TakeOut(i: nat)
      requires Valid() && i < |reqs| && reqs[i].queued
      modifies this`reqs, this`servers, this`heads, this`waiting, this`inflight, this`nWaiting
      ensures Valid() && reqs == old(reqs)[i := old(reqs[i]).(queued := false)] && NoneUp(old(servers), servers)
      ensures SameUp(old(servers), servers) && (old(reqs[i]).ns.None? ==> servers == old(servers))
      ensures old(reqs[i]).ns.Some? ==> waiting == old(waiting) && inflight == old(inflight) - 1
      ensures old(reqs[i]).ns.None? ==>
                && i in old(waiting) && waiting == Remove(old(waiting), i) && |waiting| == |old(waiting)| - 1
                && heads == old(heads) && inflight == old(inflight)
    {
      hide BucketsOk, WaitingOk, ServersOk, TotalLen, GoodCount, Recount;
      var r := reqs[i].(queued := false);
      InQueue(reqs, waiting, servers, i);
      WaitingStep(reqs, waiting, i, r);
      ServersStep(reqs, servers, i, r);
      RecountGood(servers, Place(reqs[i]), -1);
      NoRecount(Recount(servers, Place(reqs[i]), -1), 1);
      HeadsSome(reqs, heads);
      if r.ns.Some? {
        BucketLeave(reqs, heads, i, r);
        var b := reqs[i].transId % |heads|;
        heads := heads[b := Remove(heads[b], i)];
        inflight := inflight - 1;
        servers := Recount(servers, r.ns, -1);
      } else {
        NoRecount(servers, -1);
        BucketStay(reqs, heads, i, r);
        waiting := Remove(waiting, i);
        nWaiting := nWaiting - 1;
      }
      reqs := reqs[i := r];
    }
  }

  lemma NoRecount(servers: seq<Server>, delta: int)
    ensures Recount(servers, None, delta) == servers
  {
  }

  lemma HeadsSome(reqs: seq<Req>, heads: seq<seq<nat>>)
    requires BucketsOk(reqs, heads)
    ensures |heads| > 0
  {
  }

  lemma InQueue(reqs: seq<Req>, waiting: seq<nat>, servers: seq<Server>, i: nat)
    requires WaitingOk(reqs, waiting) && ServersOk(reqs, servers) && i < |reqs|
    ensures reqs[i].queued && reqs[i].ns.None? ==> i in waiting
    ensures reqs[i].ns.Some? ==> reqs[i].ns.value < |servers|
  {
    assert Waits(reqs, i) <==> i in waiting;
  }
}

/** evdns.c: submitting, finishing and moving DNS requests. */
module DnsQueue {
  import opened Bytes
  import opened Queues
  import opened DnsServers
  import opened DnsRequests

  lemma {:induction false} CountPositive(reqs: seq<Req>, i: nat, s: nat)
    requires i < |reqs| && With(reqs[i], s)
    ensures CountWith(reqs, s) > 0
  {
    if i > 0 {
      CountPositive(reqs[1..], i - 1, s);
    }
  }

  /** request_swap_ns: its assertion that the old nameserver counts a request holds. */
  method SwapNs(v: Resolver, i: nat, s: Option<nat>)
    requires v.Valid() && i < |v.reqs| && v.reqs[i].queued && v.reqs[i].ns.Some?
    requires s.Some? ==> s.value < |v.servers|
    modifies v`reqs, v`servers
    ensures v.Valid() && |v.servers| == |old(v.servers)|
    ensures v.reqs == old(v.reqs)[i := old(v.reqs[i]).(ns := if s.Some? then s else old(v.reqs[i]).ns)]
    ensures SameUp(old(v.servers), v.servers)
  {
    hide BucketsOk, WaitingOk, TotalLen, GoodCount, Recount;
    assert v.reqs[i := v.reqs[i]] == v.reqs;
    if s.Some? && v.reqs[i].ns != s {
      var r := v.reqs[i].(ns := s);
      CountPositive(v.reqs, i, v.reqs[i].ns.value);
      assert v.servers[v.reqs[i].ns.value].inflight > 0;
      WaitingStep(v.reqs, v.waiting, i, r);
      BucketStay(v.reqs, v.heads, i, r);
      ServersStep(v.reqs, v.servers, i, r);
      RecountGood(v.servers, v.reqs[i].ns, -1);
      RecountGood(Recount(v.servers, v.reqs[i].ns, -1), s, 1);
      v.servers := Recount(Recount(v.servers, v.reqs[i].ns, -1), s, 1);
      v.reqs := v.reqs[i := r];
    }
  }

  /** Whether a server is believed to be up, and how many requests timed out, changes nothing
      about the requests. */
  lemma ServerStep(reqs: seq<Req>, servers: seq<Server>, s: nat, v: Server)
    requires ServersOk(reqs, servers) && s < |servers| && v.inflight == servers[s].inflight
    ensures ServersOk(reqs, servers[s := v])
  {
  }

  method CountTimeouts(v: Resolver, s: nat, n: nat)
    requires v.Valid() && s < |v.servers|
    modifies v`servers
    ensures v.Valid() && v.servers == old(v.servers)[s := old(v.servers[s]).(timedOut := n)]
  {
    hide BucketsOk, WaitingOk, ServersOk, TotalLen, GoodCount;
    var r := v.servers[s].(timedOut := n);
    ServerStep(v.reqs, v.servers, s, r);
    GoodUpdate(v.servers, s, r);
    v.servers := v.servers[s := r];
  }

  method SetUp(v: Resolver, s: nat, up: bool)
    requires v.Valid() && s < |v.servers| && v.servers[s].up == !up
    modifies v`servers, v`good
    ensures v.Valid() && v.servers == old(v.servers)[s := old(v.servers[s]).(up := up)]
    ensures v.good == old(v.good) + if up then 1 else -1
  {
    hide BucketsOk, WaitingOk, ServersOk, TotalLen, GoodCount;
    ServerStep(v.reqs, v.servers, s, v.servers[s].(up := up));
    GoodUpdate(v.servers, s, v.servers[s].(up := up));
    v.good := v.good + if up then 1 else -1;
    v.servers := v.servers[s := v.servers[s].(up := up)];
  }

  /** A request that could still go to another server, but is with s. */
  predicate Stuck(r: Req, s: nat)
  {
    r.queued && r.sent == 0 && r.ns == Some(s)
  }

  /** Requests change nothing but their nameserver. */
  ghost predicate OnlyMoved(was: seq<Req>, now: seq<Req>)
  {
    |was| == |now| && forall i :: 0 <= i < |was| ==> now[i].(ns := was[i].ns) == was[i] && now[i].ns.Some? == was[i].ns.Some?
  }

  lemma MovedOne(was: seq<Req>, now: seq<Req>, i: nat, s: Option<nat>)
    requires OnlyMoved(was, now) && i < |now| && s.Some? && now[i].ns.Some?
    ensures OnlyMoved(was, now[i := now[i].(ns := s)])
  {
  }

  lemma MovedNone(reqs: seq<Req>)
    ensures OnlyMoved(reqs, reqs)
  {
  }

  lemma MemberAt(v: Resolver, b: nat, k: nat)
    requires v.Valid() && b < |v.heads| && k < |v.heads[b]|
    ensures v.heads[b][k] < |v.reqs| && v.reqs[v.heads[b][k]].queued && v.reqs[v.heads[b][k]].ns.Some?
  {
    assert BucketOk(v.reqs, v.heads[b], b, |v.heads|);
    assert v.heads[b][k] in v.heads[b];
    assert InBucket(v.reqs, v.heads[b][k], b, |v.heads|);
  }

  /** All servers but s are up or down as before, and no timeouts are counted. */
  ghost predicate OthersUp(was: seq<Server>, now: seq<Server>, s: nat)
  {
    |was| == |now| && forall x :: 0 <= x < |was| ==> (x != s ==> now[x].up == was[x].up) && now[x].timedOut == was[x].timedOut
  }

  /** What was with s and could go to another server is with one that is up, and everything
      else is as before. */
  ghost predicate MovedOff(was: seq<Req>, now: seq<Req>, servers: seq<Server>, s: nat)
  {
    |was| == |now| && forall i :: 0 <= i < |was| ==>
      if Stuck(was[i], s) then now[i] == was[i] || (now[i].ns.Some? && now[i].ns.value < |servers| && servers[now[i].ns.value].up)
      else now[i] == was[i]
  }

  /** nameserver_failed, one bucket: requests not yet sent go to servers that are up. */
  method MoveBucket(v: Resolver, b: nat, s: nat)
    requires v.Valid() && b < |v.heads| && s < |v.servers| && !v.servers[s].up && v.good > 0
    modifies v`reqs, v`servers, v`head
    ensures v.Valid() && OnlyMoved(old(v.reqs), v.reqs) && OthersUp(old(v.servers), v.servers, s) && !v.servers[s].up
    ensures forall k :: 0 <= k < |v.heads[b]| ==> v.heads[b][k] < |v.reqs| && !Stuck(v.reqs[v.heads[b][k]], s)
    ensures forall i :: 0 <= i < |v.reqs| && !Stuck(old(v.reqs)[i], s) ==> !Stuck(v.reqs[i], s)
    ensures MovedOff(old(v.reqs), v.reqs, v.servers, s)
  {
    hide BucketsOk, WaitingOk, ServersOk, TotalLen, GoodCount, OnlyMoved, MovedOff, Picked;
    ghost var was := v.reqs;
    MovedNone(was);
    SameSize(was, v.reqs);
    OffNone(was, v.servers, s);
    for k := 0 to |v.heads[b]|
      invariant v.Valid() && OnlyMoved(was, v.reqs) && |v.reqs| == |was| && OthersUp(old(v.servers), v.servers, s) && !v.servers[s].up
      invariant forall j :: 0 <= j < k ==> v.heads[b][j] < |v.reqs| && !Stuck(v.reqs[v.heads[b][j]], s)
      invariant forall i :: 0 <= i < |v.reqs| && !Stuck(was[i], s) ==> !Stuck(v.reqs[i], s)
      invariant MovedOff(was, v.reqs, v.servers, s)
    {
      MemberAt(v, b, k);
      var i := v.heads[b][k];
      if Stuck(v.reqs[i], s) {
        var p := v.PickServer();
        MovedOne(was, v.reqs, i, p);
        ghost var reqs, servers := v.reqs, v.servers;
        SwapNs(v, i, p);
        OffOne(was, reqs, servers, s, i, p.value, v.servers);
      }
    }
  }

  lemma OffNone(reqs: seq<Req>, servers: seq<Server>, s: nat)
    ensures MovedOff(reqs, reqs, servers, s)
  {
  }

  lemma OffOne(was: seq<Req>, now: seq<Req>, servers: seq<Server>, s: nat, i: nat, p: nat, servers': seq<Server>)
    requires MovedOff(was, now, servers, s) && i < |now| && Stuck(now[i], s) && p < |servers| && servers[p].up && SameUp(servers, servers')
    ensures MovedOff(was, now[i := now[i].(ns := Some(p))], servers', s)
  {
  }

  lemma OffTrans(a: seq<Req>, b: seq<Req>, c: seq<Req>, servers: seq<Server>, servers': seq<Server>, s: nat)
    requires MovedOff(a, b, servers, s) && MovedOff(b, c, servers', s) && |servers| == |servers'| && s < |servers| && !servers[s].up
    requires forall x :: 0 <= x < |servers| ==> servers'[x].up == servers[x].up
    ensures MovedOff(a, c, servers', s)
  {
  }

  lemma SameSize(was: seq<Req>, now: seq<Req>)
    requires OnlyMoved(was, now)
    ensures |was| == |now|
  {
  }

  lemma MovedTrans(a: seq<Req>, b: seq<Req>, c: seq<Req>)
    requires OnlyMoved(a, b) && OnlyMoved(b, c)
    ensures OnlyMoved(a, c)
  {
    forall i | 0 <= i < |a|
      ensures c[i].(ns := a[i].ns) == a[i]
    {
      assert b[i].(ns := a[i].ns) == a[i] && c[i].(ns := b[i].ns) == b[i];
    }
  }

  /** nameserver_failed: the server counts as down, and if another one is up, every
      request that has not been sent yet is with a server other than this one. */
  method NameserverFailed(v: Resolver, s: nat)
    requires v.Valid() && s < |v.servers|
    modifies v`reqs, v`servers, v`head, v`good
    ensures v.Valid() && OnlyMoved(old(v.reqs), v.reqs) && OthersUp(old(v.servers), v.servers, s)
    ensures !v.servers[s].up
    ensures old(v.servers[s]).up && v.good > 0 ==> forall i :: 0 <= i < |v.reqs| ==> !Stuck(v.reqs[i], s)
    ensures MovedOff(old(v.reqs), v.reqs, v.servers, s) && (!old(v.servers[s]).up || v.good == 0 ==> v.reqs == old(v.reqs) && v.head == old(v.head))
  {
    hide BucketsOk, WaitingOk, ServersOk, TotalLen, GoodCount, OnlyMoved, MovedOff;
    ghost var was := v.reqs;
    OffNone(was, v.servers, s);
    MovedNone(was);
    if !v.servers[s].up {
      return;
    }
    SetUp(v, s, false);
    OffNone(was, v.servers, s);
    if v.good == 0 {
      return;
    }
    NonNegative(v);
    for b := 0 to |v.heads|
      invariant v.good > 0
      invariant v.Valid() && OnlyMoved(was, v.reqs) && OthersUp(old(v.servers), v.servers, s) && !v.servers[s].up
      invariant forall c, k :: 0 <= c < b && 0 <= k < |v.heads[c]| ==> v.heads[c][k] < |v.reqs| && !Stuck(v.reqs[v.heads[c][k]], s)
      invariant MovedOff(was, v.reqs, v.servers, s)
    {
      ghost var mid, servers := v.reqs, v.servers;
      MoveBucket(v, b, s);
      OffTrans(was, mid, v.reqs, servers, v.servers, s);
      SameSize(mid, v.reqs);
      MovedTrans(was, mid, v.reqs);
    }
    NobodyStuck(v, s);
  }

  lemma NonNegative(v: Resolver)
    requires v.Valid()
    ensures v.good >= 0
  {
  }

  lemma NobodyStuck(v: Resolver, s: nat)
    requires v.Valid()
    requires forall c, k :: 0 <= c < |v.heads| && 0 <= k < |v.heads[c]| ==> v.heads[c][k] < |v.reqs| && !Stuck(v.reqs[v.heads[c][k]], s)
    ensures forall i :: 0 <= i < |v.reqs| ==> !Stuck(v.reqs[i], s)
  {
    forall i | 0 <= i < |v.reqs|
      ensures !Stuck(v.reqs[i], s)
    {
      if v.reqs[i].queued && v.reqs[i].ns.Some? {
        var b := v.reqs[i].transId % |v.heads|;
        assert InBucket(v.reqs, i, b, |v.heads|);
        assert BucketOk(v.reqs, v.heads[b], b, |v.heads|);
        var k :| 0 <= k < |v.heads[b]| && v.heads[b][k] == i;
      }
    }
  }

  /** What happens to a packet: it is sent, has to wait for the socket, or the socket
      reports an error. */
  datatype Outcome = Sent | Choked | Error

  function Resend(r: Req): Req
  {
    r.(sent := r.sent + 1, transmitMe := false)
  }

  /** What becomes of a request that is sent, but for its nameserver. */
  function Tried(r: Req, outcome: Outcome): Req
  {
    if outcome == Choked then r.(transmitMe := true) else Resend(r)
  }

  /** evdns_request_transmit: a packet that has to wait is marked, any other counts as sent,
      and an error takes the nameserver down. */
  method Transmit(v: Resolver, i: nat, outcome: Outcome)
    requires v.Valid() && i < |v.reqs| && v.reqs[i].queued && v.reqs[i].ns.Some?
    modifies v`reqs, v`servers, v`head, v`good
    ensures v.Valid() && NoneUp(old(v.servers), v.servers)
    ensures OnlyMoved(old(v.reqs)[i := Tried(old(v.reqs[i]), outcome)], v.reqs)
    ensures outcome != Error ==> v.reqs == old(v.reqs)[i := Tried(old(v.reqs[i]), outcome)] && v.head == old(v.head) && v.servers == old(v.servers)
    ensures |v.reqs| == |old(v.reqs)| && v.reqs[i].sent == old(v.reqs[i]).sent + Bit(outcome != Choked) && v.reqs[i].transmitMe == (outcome == Choked)
    ensures outcome == Error ==> old(v.reqs[i]).ns.value < |v.servers| && !v.servers[old(v.reqs[i]).ns.value].up
    ensures Kept(old(v.reqs), v.reqs) && v.reqs[i].ns.Some?
  {
    hide BucketsOk, WaitingOk, ServersOk, TotalLen, GoodCount, OnlyMoved;
    InQueue(v.reqs, v.waiting, v.servers, i);
    ghost var was := v.reqs;
    MovedNone(was);
    if outcome == Error {
      NameserverFailed(v, v.reqs[i].ns.value);
    }
    TriedMoved(was, v.reqs, i, outcome);
    MovedSent(was, v.reqs, i);
    Touch(v, i, Tried(v.reqs[i], outcome));
  }

  lemma TriedMoved(was: seq<Req>, now: seq<Req>, i: nat, o: Outcome)
    requires OnlyMoved(was, now) && i < |was|
    ensures |was| == |now| && now[i].queued == was[i].queued && now[i].ns.Some? == was[i].ns.Some?
    ensures OnlyMoved(was[i := Tried(was[i], o)], now[i := Tried(now[i], o)]) && Kept(was, now[i := Tried(now[i], o)])
  {
    forall x | 0 <= x < |was|
      ensures now[x].queued == was[x].queued && now[x].transId == was[x].transId && now[x].sent == was[x].sent
      ensures now[x].probe == was[x].probe
    {
      assert now[x].(ns := was[x].ns) == was[x];
    }
  }

  /** No request is lost or put back: each stays in a queue or out of it, and one that is
      with a nameserver stays with one, under the same transaction id. */
  ghost predicate Kept(was: seq<Req>, now: seq<Req>)
  {
    |was| == |now| && forall i :: 0 <= i < |was| ==>
      && now[i].queued == was[i].queued && now[i].probe == was[i].probe
      && (was[i].queued && was[i].ns.Some? ==> now[i].ns.Some? && now[i].transId == was[i].transId)
  }

  lemma KeptOne(was: seq<Req>, now: seq<Req>, i: nat, r: Req, next: seq<Req>)
    requires Kept(was, now) && i < |now| && now[i].queued && now[i].ns.None? && r.queued && r.probe == now[i].probe
    requires Kept(now[i := r], next)
    ensures Kept(was, next)
  {
    forall x | 0 <= x < |was|
      ensures next[x].queued == was[x].queued && next[x].probe == was[x].probe
      ensures was[x].queued && was[x].ns.Some? ==> next[x].ns.Some? && next[x].transId == was[x].transId
    {
      assert now[i := r][x].queued == now[x].queued && now[i := r][x].probe == now[x].probe;
    }
  }

  /** Changes what no queue depends on. */
  method Touch(v: Resolver, i: nat, r: Req)
    requires v.Valid() && i < |v.reqs| && v.reqs[i].queued && v.reqs[i].ns.Some?
    requires r.queued && r.ns == v.reqs[i].ns && r.transId == v.reqs[i].transId
    modifies v`reqs
    ensures v.Valid() && v.reqs == old(v.reqs)[i := r]
  {
    hide BucketsOk, WaitingOk, TotalLen, GoodCount, CountWith;
    BucketStay(v.reqs, v.heads, i, r);
    WaitingStep(v.reqs, v.waiting, i, r);
    SameCounts(v.reqs, v.servers, i, r);
    v.reqs := v.reqs[i := r];
  }

  lemma SameCounts(reqs: seq<Req>, servers: seq<Server>, i: nat, r: Req)
    requires ServersOk(reqs, servers) && i < |reqs| && r.ns == reqs[i].ns && r.queued == reqs[i].queued
    ensures ServersOk(reqs[i := r], servers)
  {
    forall s | 0 <= s < |servers|
      ensures servers[s].inflight == CountWith(reqs[i := r], s)
    {
      CountUpdate(reqs, i, r, s);
    }
  }

  /** What becomes of a request when everything that still has to be sent is tried. */
  function Swept(r: Req, outcome: Outcome): Req
  {
    if r.queued && r.ns.Some? && r.transmitMe then Tried(r, outcome) else r
  }

  /** So far, the requests of the buckets below b and the first k of bucket b were tried. */
  ghost predicate SweptTo(was: seq<Req>, now: seq<Req>, heads: seq<seq<nat>>, b: nat, k: nat, outcomes: nat -> Outcome)
  {
    && |was| == |now| && b <= |heads| && (b < |heads| ==> k <= |heads[b]|) && (b == |heads| ==> k == 0)
    && forall i :: 0 <= i < |was| ==>
         && now[i].ns.Some? == was[i].ns.Some?
         && now[i].(ns := was[i].ns) == if Before(was[i], i, heads, b, k) then Swept(was[i], outcomes(i)) else was[i]
  }

  ghost predicate Before(r: Req, i: nat, heads: seq<seq<nat>>, b: nat, k: nat)
    requires b <= |heads| && (b < |heads| ==> k <= |heads[b]|)
  {
    r.queued && r.ns.Some? && |heads| > 0 && (r.transId % |heads| < b || (b < |heads| && i in heads[b][..k]))
  }

  lemma SweepNone(was: seq<Req>, heads: seq<seq<nat>>, outcomes: nat -> Outcome)
    requires |heads| > 0
    ensures SweptTo(was, was, heads, 0, 0, outcomes)
  {
  }

  /** The k-th request of bucket b is as it was. */
  lemma SweepOne(v: Resolver, was: seq<Req>, b: nat, k: nat, outcomes: nat -> Outcome)
    requires v.Valid() && b < |v.heads| && k < |v.heads[b]| && SweptTo(was, v.reqs, v.heads, b, k, outcomes)
    ensures var i := v.heads[b][k];
            && i < |v.reqs| && v.reqs[i].queued && v.reqs[i].ns.Some? && v.reqs[i].transId % |v.heads| == b
            && i !in v.heads[b][..k]
            && (!v.reqs[i].transmitMe ==> SweptTo(was, v.reqs, v.heads, b, k + 1, outcomes))
  {
    MemberAt(v, b, k);
    var i := v.heads[b][k];
    assert BucketOk(v.reqs, v.heads[b], b, |v.heads|);
    assert v.heads[b][..k + 1] == v.heads[b][..k] + [i];
    assert InBucket(v.reqs, i, b, |v.heads|) by { assert i in v.heads[b]; }
    assert v.reqs[i].(ns := was[i].ns) == was[i];
  }

  lemma SweepTried(was: seq<Req>, mid: seq<Req>, now: seq<Req>, heads: seq<seq<nat>>, b: nat, k: nat, outcomes: nat -> Outcome)
    requires b < |heads| && k < |heads[b]| && SweptTo(was, mid, heads, b, k, outcomes)
    requires var i := heads[b][k];
             && i < |mid| && mid[i].queued && mid[i].ns.Some? && mid[i].transId % |heads| == b && i !in heads[b][..k]
             && mid[i].transmitMe && OnlyMoved(mid[i := Tried(mid[i], outcomes(i))], now)
    ensures SweptTo(was, now, heads, b, k + 1, outcomes)
  {
    var i := heads[b][k];
    assert heads[b][..k + 1] == heads[b][..k] + [i];
    assert mid[i].(ns := was[i].ns) == was[i];
    var rs := mid[i := Tried(mid[i], outcomes(i))];
    forall x | 0 <= x < |was|
      ensures now[x].ns.Some? == was[x].ns.Some?
      ensures now[x].(ns := was[x].ns) == if Before(was[x], x, heads, b, k + 1) then Swept(was[x], outcomes(x)) else was[x]
    {
      assert now[x].(ns := rs[x].ns) == rs[x];
      assert now[x].(ns := was[x].ns) == rs[x].(ns := was[x].ns);
    }
  }

  lemma SweepNext(v: Resolver, was: seq<Req>, b: nat, outcomes: nat -> Outcome)
    requires v.Valid() && b < |v.heads| && SweptTo(was, v.reqs, v.heads, b, |v.heads[b]|, outcomes)
    ensures SweptTo(was, v.reqs, v.heads, b + 1, 0, outcomes)
  {
    var n := |v.heads|;
    assert BucketOk(v.reqs, v.heads[b], b, n);
    assert v.heads[b][..|v.heads[b]|] == v.heads[b];
    forall i | 0 <= i < |was|
      ensures Before(was[i], i, v.heads, b + 1, 0) == Before(was[i], i, v.heads, b, |v.heads[b]|)
    {
      assert i in v.heads[b] <==> InBucket(v.reqs, i, b, n);
      assert v.reqs[i].(ns := was[i].ns).transId == was[i].transId && v.reqs[i].(ns := was[i].ns).queued == was[i].queued;
    }
  }

  lemma SweepAll(v: Resolver, was: seq<Req>, outcomes: nat -> Outcome)
    requires v.Valid() && SweptTo(was, v.reqs, v.heads, |v.heads|, 0, outcomes)
    ensures Kept(was, v.reqs)
    ensures forall i :: 0 <= i < |v.reqs| ==> v.reqs[i].(ns := was[i].ns) == Swept(was[i], outcomes(i))
  {
    forall i | 0 <= i < |was|
      ensures v.reqs[i].(ns := was[i].ns) == Swept(was[i], outcomes(i))
      ensures v.reqs[i].queued == was[i].queued && v.reqs[i].transId == was[i].transId && v.reqs[i].probe == was[i].probe
    {
      var r := v.reqs[i].(ns := was[i].ns);
      assert r.queued == v.reqs[i].queued && r.transId == v.reqs[i].transId && r.probe == v.reqs[i].probe;
    }
  }

  ghost predicate NoErrors(outcomes: nat -> Outcome)
  {
    forall i :: outcomes(i) != Error
  }

  ghost predicate SameNs(was: seq<Req>, now: seq<Req>)
  {
    |was| == |now| && forall i :: 0 <= i < |was| ==> now[i].ns == was[i].ns
  }

  /** evdns_transmit: each request in flight that still has to be sent is tried once, and
      nothing else changes but nameservers, when one fails. */
  method TransmitAll(v: Resolver, outcomes: nat -> Outcome)
    requires v.Valid()
    modifies v`reqs, v`servers, v`head, v`good
    ensures v.Valid() && NoneUp(old(v.servers), v.servers) && Kept(old(v.reqs), v.reqs)
    ensures forall i :: 0 <= i < |v.reqs| ==> v.reqs[i].(ns := old(v.reqs)[i].ns) == Swept(old(v.reqs)[i], outcomes(i))
    ensures NoErrors(outcomes) ==> v.head == old(v.head) && v.servers == old(v.servers) && SameNs(old(v.reqs), v.reqs)
  {
    hide BucketsOk, WaitingOk, ServersOk, TotalLen, GoodCount, OnlyMoved, Kept, SweptTo;
    ghost var was := v.reqs;
    HeadsSome(v.reqs, v.heads);
    SweepNone(was, v.heads, outcomes);
    for b := 0 to |v.heads|
      invariant v.Valid() && NoneUp(old(v.servers), v.servers) && SweptTo(was, v.reqs, v.heads, b, 0, outcomes)
      invariant NoErrors(outcomes) ==> v.head == old(v.head) && v.servers == old(v.servers) && SameNs(was, v.reqs)
    {
      for k := 0 to |v.heads[b]|
        invariant v.Valid() && NoneUp(old(v.servers), v.servers) && SweptTo(was, v.reqs, v.heads, b, k, outcomes)
        invariant NoErrors(outcomes) ==> v.head == old(v.head) && v.servers == old(v.servers) && SameNs(was, v.reqs)
      {
        SweepOne(v, was, b, k, outcomes);
        var i := v.heads[b][k];
        if v.reqs[i].transmitMe {
          ghost var mid := v.reqs;
          Transmit(v, i, outcomes(i));
          SweepTried(was, mid, v.reqs, v.heads, b, k, outcomes);
        }
      }
      SweepNext(v, was, b, outcomes);
    }
    SweepAll(v, was, outcomes);
  }

  /** evdns_requests_pump_waiting_queue: requests leave the waiting queue in the order in
      which they entered it, and stay in flight. It stops only when the limit is reached,
      nothing is waiting, or there is no nameserver. */
  method Pump(v: Resolver, ids: nat -> nat, outcomes: nat -> nat -> Outcome)
    requires v.Valid()
    modifies v
    ensures v.Valid() && |v.reqs| == |old(v.reqs)| && NoneUp(old(v.servers), v.servers) && v.maxInflight == old(v.maxInflight)
    ensures v.inflight >= v.maxInflight || v.waiting == [] || v.servers == []
    ensures |v.waiting| <= |old(v.waiting)| && v.waiting == old(v.waiting)[|old(v.waiting)| - |v.waiting|..]
    ensures v.inflight == old(v.inflight) + |old(v.waiting)| - |v.waiting| && Kept(old(v.reqs), v.reqs)
    ensures v.inflight <= Max(old(v.inflight), v.maxInflight)
    ensures NeverErrors(outcomes) ==>
              && SameUp(old(v.servers), v.servers)
              && InTurn(old(v.waiting), |old(v.waiting)| - |v.waiting|, v.reqs, old(v.servers), old(v.head), v.head, ids)
  {
    hide BucketsOk, WaitingOk, ServersOk, TotalLen, GoodCount, Kept, InTurn, Picked, Sends, NoneUp, SameUp;
    ghost var size := |v.reqs|;
    KeptSelf(v.reqs);
    TurnsNone(v, ids);
    UpSelf(v.servers);
    WaitersDistinct(v.reqs, v.waiting);
    while v.inflight < v.maxInflight && v.nWaiting != 0
      invariant v.Valid() && |v.reqs| == size && NoneUp(old(v.servers), v.servers) && v.maxInflight == old(v.maxInflight)
      invariant |v.waiting| <= |old(v.waiting)| && v.waiting == old(v.waiting)[|old(v.waiting)| - |v.waiting|..]
      invariant v.inflight == old(v.inflight) + |old(v.waiting)| - |v.waiting| && Kept(old(v.reqs), v.reqs)
      invariant v.inflight <= Max(old(v.inflight), v.maxInflight)
      invariant NeverErrors(outcomes) ==>
        && SameUp(old(v.servers), v.servers)
        && InTurn(old(v.waiting), |old(v.waiting)| - |v.waiting|, v.reqs, old(v.servers), old(v.head), v.head, ids)
      decreases |v.waiting|
    {
      ghost var hd, was, n, servers := v.head, v.reqs, |old(v.waiting)| - |v.waiting|, v.servers;
      var s := v.PickServer();
      if s.None? {
        return;
      }
      PickedTurn(old(v.servers), v.servers, hd, s.value, v.head);
      Dispatch(v, s.value, ids(|v.waiting| - 1), outcomes(|v.waiting| - 1));
      NoneUpTrans(old(v.servers), servers, v.servers);
      KeptTrans(old(v.reqs), was, v.reqs);
      if NeverErrors(outcomes) {
        SameUpTrans(old(v.servers), servers, v.servers);
        TurnsOne(old(v.waiting), n, was, old(v.servers), old(v.head), hd, ids, s.value, v.reqs);
      }
    }
  }

  /** The first request that is waiting goes to server s, and what still has to be sent is
      tried. */
  method Dispatch(v: Resolver, s: nat, id: nat, outcomes: nat -> Outcome)
    requires v.Valid() && v.waiting != [] && s < |v.servers|
    modifies v
    ensures v.Valid() && |v.reqs| == |old(v.reqs)| && NoneUp(old(v.servers), v.servers) && v.maxInflight == old(v.maxInflight)
    ensures v.waiting == old(v.waiting)[1..] && v.inflight == old(v.inflight) + 1 && Kept(old(v.reqs), v.reqs)
    ensures old(v.waiting)[0] < |v.reqs|
    ensures forall x :: 0 <= x < |v.reqs| && x != old(v.waiting)[0] ==> v.reqs[x].(ns := old(v.reqs)[x].ns) == Swept(old(v.reqs)[x], outcomes(x))
    ensures NoErrors(outcomes) ==>
              && SameUp(old(v.servers), v.servers) && v.head == old(v.head)
              && Sends(old(v.reqs), v.reqs, old(v.waiting)[0], s, id)
  {
    hide BucketsOk, WaitingOk, ServersOk, TotalLen, GoodCount, OnlyMoved, Kept, SameNs, Swept, Tried;
    var i := v.waiting[0];
    FirstWaits(v.reqs, v.waiting);
    ghost var was := v.reqs;
    v.TakeOut(i);
    var r := v.reqs[i].(ns := Some(s), transId := id, queued := true);
    v.Enter(i, r);
    assert v.reqs == was[i := r];
    Transmit(v, i, outcomes(i));
    ghost var mid := v.reqs;
    TransmitAll(v, outcomes);
    KeptSize(mid, v.reqs);
    SweptAfter(was[i := r], i, outcomes, mid, v.reqs);
    KeptTrans(was[i := r], mid, v.reqs);
    KeptSelf(was);
    KeptOne(was, was, i, r, v.reqs);
    if NoErrors(outcomes) {
      SameNsTried(was[i := r], i, outcomes(i), mid, v.reqs);
    }
  }

  lemma SweptAfter(rs: seq<Req>, i: nat, outcomes: nat -> Outcome, mid: seq<Req>, now: seq<Req>)
    requires i < |rs| && OnlyMoved(rs[i := Tried(rs[i], outcomes(i))], mid) && |now| == |mid|
    requires forall x :: 0 <= x < |mid| ==> now[x].(ns := mid[x].ns) == Swept(mid[x], outcomes(x))
    ensures forall x :: 0 <= x < |rs| && x != i ==> now[x].(ns := rs[x].ns) == Swept(rs[x], outcomes(x))
  {
    forall x | 0 <= x < |rs| && x != i
      ensures now[x].(ns := rs[x].ns) == Swept(rs[x], outcomes(x))
    {
      assert mid[x].(ns := rs[x].ns) == rs[x] && now[x].(ns := mid[x].ns) == Swept(mid[x], outcomes(x));
    }
  }

  /** Request i is with server s under its new id, and no other request moves. */
  ghost predicate Sends(was: seq<Req>, now: seq<Req>, i: nat, s: nat, id: nat)
  {
    && i < |was| == |now| && now[i].queued && now[i].ns == Some(s) && now[i].transId == id
    && forall x :: 0 <= x < |was| && x != i ==> now[x].ns == was[x].ns
  }

  lemma SameNsTried(rs: seq<Req>, i: nat, o: Outcome, mid: seq<Req>, now: seq<Req>)
    requires i < |rs| && mid == rs[i := Tried(rs[i], o)] && SameNs(mid, now) && Kept(rs, now) && rs[i].queued && rs[i].ns.Some?
    ensures now[i].queued && now[i].ns == rs[i].ns && now[i].transId == rs[i].transId
    ensures forall x :: 0 <= x < |rs| ==> now[x].ns == rs[x].ns
  {
  }

  lemma UpSelf(servers: seq<Server>)
    ensures NoneUp(servers, servers) && SameUp(servers, servers)
  {
  }

  lemma NoneUpTrans(a: seq<Server>, b: seq<Server>, c: seq<Server>)
    requires NoneUp(a, b) && NoneUp(b, c)
    ensures NoneUp(a, c)
  {
  }

  lemma SameUpTrans(a: seq<Server>, b: seq<Server>, c: seq<Server>)
    requires SameUp(a, b) && SameUp(b, c)
    ensures SameUp(a, c)
  {
  }

  ghost predicate NeverErrors(outcomes: nat -> nat -> Outcome)
  {
    forall n :: NoErrors(outcomes(n))
  }

  /** The first n of the requests that were waiting are with the servers whose turn it was,
      one after the other, under the ids that were drawn for them. */
  ghost predicate InTurn(waiting: seq<nat>, n: nat, reqs: seq<Req>, servers: seq<Server>, head: nat, head': nat, ids: nat -> nat)
  {
    && n <= |waiting| && (n > 0 ==> head < |servers|)
    && (if head < |servers| then head' == HeadAt(servers, head, n) else head' == head)
    && forall k :: 0 <= k < n ==>
         && waiting[k] < |reqs| && reqs[waiting[k]].queued && reqs[waiting[k]].ns == Some(Turn(servers, HeadAt(servers, head, k)))
         && reqs[waiting[k]].transId == ids(|waiting| - k - 1)
  }

  lemma TurnsNone(v: Resolver, ids: nat -> nat)
    ensures InTurn(v.waiting, 0, v.reqs, v.servers, v.head, v.head, ids)
  {
  }

  lemma WaitersDistinct(reqs: seq<Req>, waiting: seq<nat>)
    requires WaitingOk(reqs, waiting)
    ensures NoDup(waiting)
  {
  }

  lemma PickedTurn(was: seq<Server>, now: seq<Server>, head: nat, s: nat, head': nat)
    requires Picked(now, head, s, head')
    ensures head < |now| && s == Turn(now, head) && head' == Onward(now, head)
    ensures SameUp(was, now) ==> s == Turn(was, head) && head' == Onward(was, head)
  {
    if SameUp(was, now) {
      SameTurn(was, now, head);
    }
  }

  lemma TurnsOne(waiting: seq<nat>, n: nat, was: seq<Req>, servers: seq<Server>, head: nat, hd: nat, ids: nat -> nat,
                 s: nat, now: seq<Req>)
    requires InTurn(waiting, n, was, servers, head, hd, ids) && NoDup(waiting) && n < |waiting| && head < |servers|
    requires hd < |servers| && s == Turn(servers, hd) && Sends(was, now, waiting[n], s, ids(|waiting| - n - 1)) && Kept(was, now)
    ensures InTurn(waiting, n + 1, now, servers, head, Onward(servers, hd), ids)
  {
    hide Turn, Onward;
    forall k | 0 <= k < n + 1
      ensures waiting[k] < |now| && now[waiting[k]].queued && now[waiting[k]].ns == Some(Turn(servers, HeadAt(servers, head, k)))
      ensures now[waiting[k]].transId == ids(|waiting| - k - 1)
    {
      assert k < n ==> waiting[k] != waiting[n];
    }
  }

  lemma KeptSelf(reqs: seq<Req>)
    ensures Kept(reqs, reqs)
  {
  }

  lemma FirstWaits(reqs: seq<Req>, waiting: seq<nat>)
    requires WaitingOk(reqs, waiting) && waiting != []
    ensures waiting[0] < |reqs| && reqs[waiting[0]].queued && reqs[waiting[0]].ns.None?
  {
    assert waiting[0] in waiting;
    assert Waits(reqs, waiting[0]);
  }

  /** How many probes are in flight. */
  ghost function Probes(reqs: seq<Req>): nat
  {
    if reqs == [] then 0 else Bit(InFlightProbe(reqs[0])) + Probes(reqs[1..])
  }

  predicate InFlightProbe(r: Req)
  {
    r.queued && r.ns.Some? && r.probe
  }

  /** How many other requests are. */
  ghost function Others(inflight: int, reqs: seq<Req>): int
  {
    inflight - Probes(reqs)
  }

  lemma {:induction false} ProbesUpdate(reqs: seq<Req>, i: nat, r: Req)
    requires i < |reqs|
    ensures Probes(reqs[i := r]) == Probes(reqs) - Bit(InFlightProbe(reqs[i])) + Bit(InFlightProbe(r))
  {
    if i == 0 {
      assert reqs[0 := r][1..] == reqs[1..];
    } else {
      ProbesUpdate(reqs[1..], i - 1, r);
      assert reqs[i := r][1..] == reqs[1..][i - 1 := r];
    }
  }

  lemma {:induction false} ProbesSnoc(reqs: seq<Req>, r: Req)
    ensures Probes(reqs + [r]) == Probes(reqs) + Bit(InFlightProbe(r))
  {
    if reqs == [] {
      assert reqs + [r] == [r];
    } else {
      ProbesSnoc(reqs[1..], r);
      assert (reqs + [r])[1..] == reqs[1..] + [r];
    }
  }

  lemma {:induction false} ProbesKept(was: seq<Req>, now: seq<Req>)
    requires Kept(was, now)
    ensures Probes(now) >= Probes(was)
  {
    if was != [] {
      ProbesKept(was[1..], now[1..]);
    }
  }

  /** request_finished, and evdns_cancel_request: the request leaves its queue, and
      another one may take its place. */
  method Finish(v: Resolver, i: nat, ids: nat -> nat, outcomes: nat -> nat -> Outcome)
    requires v.Valid() && i < |v.reqs| && v.reqs[i].queued
    modifies v
    ensures v.Valid() && NoneUp(old(v.servers), v.servers)
    ensures Kept(old(v.reqs)[i := old(v.reqs[i]).(queued := false)], v.reqs)
    ensures v.inflight >= v.maxInflight || v.waiting == [] || v.servers == []
    ensures var w := if old(v.reqs[i]).ns.Some? then old(v.waiting) else Remove(old(v.waiting), i);
            |v.waiting| <= |w| && v.waiting == w[|w| - |v.waiting|..]
    ensures var w := if old(v.reqs[i]).ns.Some? then old(v.waiting) else Remove(old(v.waiting), i);
            v.inflight == old(v.inflight) - (if old(v.reqs[i]).ns.Some? then 1 else 0) + |w| - |v.waiting|
    ensures v.maxInflight == old(v.maxInflight) && Others(v.inflight, v.reqs) <= Max(old(Others(v.inflight, v.reqs)), v.maxInflight)
    ensures v.inflight <= Max(old(v.inflight) - Bit(old(v.reqs[i]).ns.Some?), v.maxInflight)
  {
    hide BucketsOk, WaitingOk, ServersOk, TotalLen, GoodCount, Kept, Probes, InTurn, SameUp, NoneUp, NeverErrors, Remove;
    ghost var was, servers := v.reqs, v.servers;
    ProbesUpdate(was, i, was[i].(queued := false));
    v.TakeOut(i);
    ghost var mid, servers' := v.reqs, v.servers;
    Pump(v, ids, outcomes);
    NoneUpTrans(servers, servers', v.servers);
    ProbesKept(mid, v.reqs);
  }

  /** nameserver_up: a server that was down is up, its probe is cancelled, if there is one,
      and the count of good servers follows. No other server comes up with it. */
  method NameserverUp(v: Resolver, s: nat, probe: Option<nat>, ids: nat -> nat, outcomes: nat -> nat -> Outcome)
    requires v.Valid() && s < |v.servers| && (probe.Some? ==> probe.value < |v.reqs| && v.reqs[probe.value].queued)
    modifies v
    ensures v.Valid() && |v.servers| == |old(v.servers)| && v.servers[s].up && v.maxInflight == old(v.maxInflight)
    ensures forall x :: 0 <= x < |v.servers| && v.servers[x].up ==> x == s || old(v.servers)[x].up
    ensures old(v.servers[s]).up ==> v.servers == old(v.servers) && v.good == old(v.good) && v.reqs == old(v.reqs)
    ensures !old(v.servers[s]).up && probe.Some? ==>
              Kept(old(v.reqs)[probe.value := old(v.reqs)[probe.value].(queued := false)], v.reqs)
    ensures !old(v.servers[s]).up && probe.None? ==> v.reqs == old(v.reqs)
    ensures Others(v.inflight, v.reqs) <= Max(old(Others(v.inflight, v.reqs)), v.maxInflight)
    ensures !old(v.servers[s]).up ==> v.servers[s].timedOut == 0
  {
    hide BucketsOk, WaitingOk, ServersOk, TotalLen, GoodCount, Kept, Probes;
    if v.servers[s].up {
      return;
    }
    if probe.Some? {
      Finish(v, probe.value, ids, outcomes);
    }
    SetUp(v, s, true);
    CountTimeouts(v, s, 0);
  }

  lemma NewReq(reqs: seq<Req>, heads: seq<seq<nat>>, waiting: seq<nat>, servers: seq<Server>, r: Req)
    requires BucketsOk(reqs, heads) && WaitingOk(reqs, waiting) && ServersOk(reqs, servers) && !r.queued && r.ns.None?
    ensures BucketsOk(reqs + [r], heads) && WaitingOk(reqs + [r], waiting) && ServersOk(reqs + [r], servers)
  {
    var rs, n := reqs + [r], |heads|;
    forall b | 0 <= b < n
      ensures BucketOk(rs, heads[b], b, n)
    {
      assert BucketOk(reqs, heads[b], b, n);
      assert forall x :: InBucket(rs, x, b, n) <==> InBucket(reqs, x, b, n);
    }
    assert forall x :: Waits(rs, x) <==> Waits(reqs, x);
    forall s | 0 <= s < |servers|
      ensures servers[s].inflight == CountWith(rs, s)
    {
      CountSnoc(reqs, r, s);
    }
  }

  /** request_submit */
  method Launch(v: Resolver, r: Req, outcome: Outcome) returns (i: nat)
    requires v.Valid() && r.queued && (r.ns.Some? ==> r.ns.value < |v.servers|)
    modifies v
    ensures v.Valid() && i == |old(v.reqs)| && |v.reqs| == i + 1 && v.reqs[i].queued && v.reqs[i].ns.Some? == r.ns.Some?
    ensures v.reqs[i].probe == r.probe && Others(v.inflight, v.reqs) <= old(Others(v.inflight, v.reqs)) + Bit(r.ns.Some? && !r.probe)
    ensures v.waiting == if r.ns.Some? then old(v.waiting) else old(v.waiting) + [i]
    ensures Kept(old(v.reqs), v.reqs[..i]) && |v.servers| == |old(v.servers)|
    ensures v.maxInflight == old(v.maxInflight) && v.inflight == old(v.inflight) + if r.ns.Some? then 1 else 0
    ensures r.ns.Some? ==>
              v.reqs[i].transId == r.transId && v.reqs[i].sent == r.sent + Bit(outcome != Choked) && v.reqs[i].transmitMe == (outcome == Choked)
    ensures r.ns.None? ==> v.reqs == old(v.reqs) + [r] && v.head == old(v.head) && v.servers == old(v.servers)
    ensures r.ns.Some? && outcome != Error ==>
              v.reqs == old(v.reqs) + [Tried(r, outcome)] && v.head == old(v.head) && v.servers == OneMore(old(v.servers), r.ns.value)
  {
    hide BucketsOk, WaitingOk, ServersOk, TotalLen, GoodCount, OnlyMoved;
    i := |v.reqs|;
    var idle := r.(ns := None, queued := false);
    NewReq(v.reqs, v.heads, v.waiting, v.servers, idle);
    ghost var was := v.reqs;
    v.reqs := v.reqs + [idle];
    v.Enter(i, r);
    ghost var mid := v.reqs;
    assert mid[..i] == was && mid == was + [r];
    ProbesSnoc(was, r);
    if r.ns.Some? {
      Transmit(v, i, outcome);
      ProbesKept(mid, v.reqs);
    }
  }

  /** request_new: a request that may go out now gets an id and a nameserver. */
  method NewRequest(v: Resolver, id: nat) returns (r: Req)
    requires v.Valid()
    modifies v`head
    ensures v.Valid() && (r.ns.Some? ==> r.ns.value < |v.servers|)
    ensures r.ns.Some? <==> v.inflight < v.maxInflight && v.servers != []
    ensures r == Req(if v.inflight < v.maxInflight then id else 0xffff, r.ns, 0, false, false, true)
    ensures if r.ns.Some? then Picked(v.servers, old(v.head), r.ns.value, v.head) else v.head == old(v.head)
  {
    hide BucketsOk, WaitingOk, ServersOk, TotalLen, GoodCount, Picked;
    r := Req(0xffff, None, 0, false, false, true);
    if v.inflight < v.maxInflight {
      var s := v.PickServer();
      r := Req(id, s, 0, false, false, true);
    }
  }

  /** request_new and request_submit: a new request goes out at once if the limit allows
      it and there is a nameserver, and waits otherwise. */
  method Submit(v: Resolver, id: nat, outcome: Outcome) returns (i: nat)
    requires v.Valid()
    modifies v
    ensures v.Valid() && i == |old(v.reqs)| && |v.reqs| == i + 1
    ensures v.reqs[i].queued && !v.reqs[i].probe && (v.reqs[i].ns.Some? <==> old(v.inflight < v.maxInflight) && old(v.servers) != [])
    ensures v.waiting == if v.reqs[i].ns.Some? then old(v.waiting) else old(v.waiting) + [i]
    ensures Kept(old(v.reqs), v.reqs[..i]) && |v.servers| == |old(v.servers)|
    ensures v.maxInflight == old(v.maxInflight) && v.inflight == old(v.inflight) + if v.reqs[i].ns.Some? then 1 else 0
    ensures Others(v.inflight, v.reqs) <= Max(old(Others(v.inflight, v.reqs)), v.maxInflight)
    ensures if v.reqs[i].ns.None? then v.reqs[i].sent == 0 && v.head == old(v.head) && v.reqs[..i] == old(v.reqs)
            else v.reqs[i].transId == id && v.reqs[i].sent == Bit(outcome != Choked) && v.reqs[i].transmitMe == (outcome == Choked)
    ensures v.reqs[i].ns.Some? && outcome != Error ==>
              && v.reqs[..i] == old(v.reqs) && Picked(old(v.servers), old(v.head), v.reqs[i].ns.value, v.head)
              && v.servers == OneMore(old(v.servers), v.reqs[i].ns.value)
  {
    hide BucketsOk, WaitingOk, ServersOk, TotalLen, GoodCount, Kept, Others, Picked, OneMore;
    var r := NewRequest(v, id);
    OthersMost(v.inflight, v.reqs);
    i := Launch(v, r, outcome);
  }

  /** As many new requests as there are servers up, below the limit and without errors: each
      of these servers gets exactly one, and the round begins anew. */
  method SubmitRound(v: Resolver, ids: nat -> nat, outcomes: nat -> Outcome)
    requires v.Valid() && v.servers != [] && v.inflight + v.good <= v.maxInflight && NoErrors(outcomes)
    modifies v
    ensures v.Valid() && v.good == old(v.good)
    ensures v.waiting == old(v.waiting) && v.inflight == old(v.inflight) + v.good
    ensures old(v.head) < |v.servers| == |old(v.servers)| && v.head < |v.servers|
    ensures var us := Ups(old(v.servers), old(v.head));
            && |us| == v.good && AllUps(old(v.servers), us) && Ups(v.servers, v.head) == us
            && OneEach(old(v.reqs), v.reqs, us, ids)
    ensures forall s :: 0 <= s < |v.servers| ==> v.servers[s] == old(v.servers)[s].(inflight := old(v.servers)[s].inflight + Bit(old(v.servers)[s].up))
  {
    hide BucketsOk, WaitingOk, ServersOk, TotalLen, GoodCount, Kept, Others, Ups, AllUps, Picked, OneMore, Loaded, OneEach;
    UpsAll(v.servers, v.head);
    UpsCount(v.servers, v.head);
    ghost var was, us := v.servers, Ups(v.servers, v.head);
    Loaded0(was, us);
    EachNone(v.reqs, ids);
    assert us[..0] == [] && us[0..] + us[..0] == us;
    for k := 0 to v.good
      invariant v.Valid() && v.good == |us| && v.maxInflight == old(v.maxInflight) && v.inflight == old(v.inflight) + k
      invariant v.waiting == old(v.waiting) && OneEach(old(v.reqs), v.reqs, us[..k], ids) && |v.servers| == |was|
      invariant v.head < |v.servers| && Loaded(was, v.servers, us, k) && Ups(v.servers, v.head) == us[k..] + us[..k]
    {
      ghost var servers, head, reqs := v.servers, v.head, v.reqs;
      var i := Submit(v, ids(k), outcomes(k));
      NextInRound(was, servers, us, k, head, v.reqs[i].ns.value, v.head, v.servers);
      UpsCount(v.servers, v.head);
      EachNext(old(v.reqs), reqs, v.reqs, us, k, ids);
    }
    LoadedAll(was, v.servers, us);
    assert us[|us|..] + us[..|us|] == us && us[..|us|] == us;
  }

  /** One new request for each of the servers, in order. */
  ghost predicate OneEach(was: seq<Req>, now: seq<Req>, us: seq<nat>, ids: nat -> nat)
  {
    && |now| == |was| + |us| && now[..|was|] == was
    && forall i :: |was| <= i < |now| ==> now[i].queued && now[i].ns == Some(us[i - |was|]) && now[i].transId == ids(i - |was|)
  }

  lemma EachNone(reqs: seq<Req>, ids: nat -> nat)
    ensures OneEach(reqs, reqs, [], ids)
  {
  }

  lemma EachNext(was: seq<Req>, mid: seq<Req>, now: seq<Req>, us: seq<nat>, k: nat, ids: nat -> nat)
    requires k < |us| && OneEach(was, mid, us[..k], ids) && |now| == |mid| + 1 && now[..|mid|] == mid
    requires now[|mid|].queued && now[|mid|].ns == Some(us[k]) && now[|mid|].transId == ids(k)
    ensures OneEach(was, now, us[..k + 1], ids)
  {
    assert us[..k + 1] == us[..k] + [us[k]];
    assert now[..|was|] == mid[..|was|];
    assert forall i :: 0 <= i < |mid| ==> now[i] == mid[i];
  }

  /** The first k servers of the round have one request more. */
  ghost predicate Loaded(was: seq<Server>, now: seq<Server>, us: seq<nat>, k: nat)
  {
    && k <= |us| && |was| == |now|
    && forall s :: 0 <= s < |was| ==> now[s] == was[s].(inflight := was[s].inflight + Bit(s in us[..k]))
  }

  lemma Loaded0(servers: seq<Server>, us: seq<nat>)
    ensures Loaded(servers, servers, us, 0)
  {
  }

  lemma LoadedAll(was: seq<Server>, now: seq<Server>, us: seq<nat>)
    requires Loaded(was, now, us, |us|) && AllUps(was, us)
    ensures forall s :: 0 <= s < |now| ==> now[s] == was[s].(inflight := was[s].inflight + Bit(was[s].up))
  {
    assert us[..|us|] == us;
  }

  lemma NextInRound(was: seq<Server>, servers: seq<Server>, us: seq<nat>, k: nat, head: nat, s: nat, head': nat, now: seq<Server>)
    requires Loaded(was, servers, us, k) && AllUps(was, us) && k < |us| && head < |servers| && Ups(servers, head) == us[k..] + us[..k]
    requires Picked(servers, head, s, head') && now == OneMore(servers, s)
    ensures s == us[k] && Loaded(was, now, us, k + 1) && head' < |now| && Ups(now, head') == us[k + 1..] + us[..k + 1]
  {
    hide UpFrom;
    UpsCount(servers, head);
    SameUps(servers, now, head', |servers|);
    assert us[..k + 1] == us[..k] + [us[k]];
    assert us[k] !in us[..k];
  }

  /** nameserver_send_probe: a request to a given server, whatever the limit. */
  method Probe(v: Resolver, s: nat, id: nat, outcome: Outcome) returns (i: nat)
    requires v.Valid() && s < |v.servers|
    modifies v
    ensures v.Valid() && i == |old(v.reqs)| && |v.reqs| == i + 1 && v.reqs[i].queued && v.reqs[i].ns.Some?
    ensures v.waiting == old(v.waiting) && Kept(old(v.reqs), v.reqs[..i]) && |v.servers| == |old(v.servers)|
    ensures v.maxInflight == old(v.maxInflight) && v.inflight == old(v.inflight) + 1
    ensures v.reqs[i].probe && Others(v.inflight, v.reqs) <= old(Others(v.inflight, v.reqs))
    ensures v.reqs[i].transId == id && v.reqs[i].sent == Bit(outcome != Choked) && v.reqs[i].transmitMe == (outcome == Choked)
    ensures outcome != Error ==> v.reqs[i].ns == Some(s) && v.reqs[..i] == old(v.reqs) && v.servers == OneMore(old(v.servers), s)
    ensures outcome != Error ==>
              if old(v.inflight < v.maxInflight) then exists p :: Picked(old(v.servers), old(v.head), p, v.head) else v.head == old(v.head)
  {
    hide BucketsOk, WaitingOk, ServersOk, TotalLen, GoodCount, Kept, Others, Picked, OneMore;
    var r := NewRequest(v, id);
    i := Launch(v, r.(ns := Some(s), transId := id, probe := true), outcome);
  }

  /** One request ends, and then another one is submitted; w and f are how many wait and how
      many are in flight in between. */
  method Replace(v: Resolver, i: nat, r: Req, ids: nat -> nat, outcomes: nat -> nat -> Outcome, outcome: Outcome)
    returns (n: nat, ghost w: nat, ghost f: int, ghost others: int)
    requires v.Valid() && i < |v.reqs| && v.reqs[i].queued && v.reqs[i].ns.Some?
    requires r.queued && !r.probe && (r.ns.Some? ==> r.ns.value < |v.servers|)
    modifies v
    ensures v.Valid() && n == |old(v.reqs)| && |v.reqs| == n + 1 && v.reqs[n].queued && v.reqs[n].ns.Some? == r.ns.Some?
    ensures Kept(old(v.reqs)[i := old(v.reqs[i]).(queued := false)], v.reqs[..n])
    ensures v.maxInflight == old(v.maxInflight) && |v.servers| == |old(v.servers)|
    ensures f == old(v.inflight) - 1 + |old(v.waiting)| - w && w <= |old(v.waiting)| && (f >= v.maxInflight || w == 0 || v.servers == [])
    ensures f <= Max(old(v.inflight) - 1, v.maxInflight) && v.inflight == f + Bit(r.ns.Some?)
    ensures others <= f && others <= Max(old(Others(v.inflight, v.reqs)), v.maxInflight)
    ensures Others(v.inflight, v.reqs) <= others + Bit(r.ns.Some?)
    ensures (r.ns.None? ==> v.reqs[n] == r) && !v.reqs[n].probe
    ensures r.ns.Some? && outcome != Error ==> v.reqs[n] == Tried(r, outcome)
  {
    hide BucketsOk, WaitingOk, ServersOk, TotalLen, GoodCount, Kept, Others, NoneUp, Remove, Max;
    ghost var was, servers := v.reqs[i := v.reqs[i].(queued := false)], v.servers;
    Finish(v, i, ids, outcomes);
    ghost var mid := v.reqs;
    w, f, others := |v.waiting|, v.inflight, Others(v.inflight, v.reqs);
    NoneUpSize(servers, v.servers);
    OthersMost(v.inflight, v.reqs);
    KeptSize(was, mid);
    n := Launch(v, r, outcome);
    KeptTrans(was, mid, v.reqs[..n]);
  }

  /** search_try_next: the request for the next name is made before the old one is
      finished. It is left waiting although it could go out if and only if the old request
      had the last place and no other request was waiting. */
  method SearchNext(v: Resolver, i: nat, id: nat, ids: nat -> nat, outcomes: nat -> nat -> Outcome, outcome: Outcome) returns (n: nat)
    requires v.Valid() && i < |v.reqs| && v.reqs[i].queued && v.reqs[i].ns.Some?
    modifies v
    ensures v.Valid() && n == |old(v.reqs)| && |v.reqs| == n + 1 && v.reqs[n].queued && !v.reqs[n].probe
    ensures Kept(old(v.reqs)[i := old(v.reqs[i]).(queued := false)], v.reqs[..n])
    ensures v.maxInflight == old(v.maxInflight) && v.inflight <= Max(old(v.inflight), v.maxInflight + 1)
    ensures Others(v.inflight, v.reqs) <= Max(old(Others(v.inflight, v.reqs)), v.maxInflight + 1)
    ensures v.reqs[n].ns.Some? <==> old(v.inflight < v.maxInflight) && old(v.servers) != []
    ensures v.reqs[n].ns.None? && v.inflight < v.maxInflight && v.servers != [] <==>
              old(v.inflight == v.maxInflight && v.waiting == [] && v.servers != [])
    ensures v.reqs[n].ns.Some? && outcome != Error ==>
              && v.reqs[n].transId == id && v.reqs[n].sent == Bit(outcome != Choked)
              && old(v.head) < |old(v.servers)| && v.reqs[n].ns.value == Turn(old(v.servers), old(v.head))
  {
    hide BucketsOk, WaitingOk, ServersOk, TotalLen, GoodCount, Kept, Others, Max, Picked;
    var r := NewRequest(v, id);
    if r.ns.Some? {
      PickedTurn(v.servers, v.servers, old(v.head), r.ns.value, v.head);
    }
    ghost var w0, i0, others0 := |v.waiting|, v.inflight, Others(v.inflight, v.reqs);
    ghost var w1, i1, others1;
    n, w1, i1, others1 := Replace(v, i, r, ids, outcomes, outcome);
    SearchNumbers(v.maxInflight, w0, i0, others0, w1, i1, others1, Others(v.inflight, v.reqs), r.ns.Some?, v.servers != []);
  }

  /** The numbers before a search goes on, after the old request has ended, and at the end. */
  lemma SearchNumbers(max: int, w0: nat, i0: int, others0: int, w1: nat, i1: int, others1: int, others2: int, some: bool, have: bool)
    requires some <==> i0 < max && have
    requires i1 == i0 - 1 + w0 - w1 && w1 <= w0 && (i1 >= max || w1 == 0 || !have) && i1 <= Max(i0 - 1, max)
    requires others1 <= i1 && others1 <= Max(others0, max) && others2 <= others1 + Bit(some)
    ensures i1 + Bit(some) <= Max(i0, max + 1) && others2 <= Max(others0, max + 1)
    ensures !some && i1 + Bit(some) < max && have <==> i0 == max && w0 == 0 && have
  {
  }

  lemma NoneUpSize(was: seq<Server>, now: seq<Server>)
    requires NoneUp(was, now)
    ensures |was| == |now|
  {
  }

  lemma OthersMost(inflight: int, reqs: seq<Req>)
    ensures Others(inflight, reqs) <= inflight
  {
  }

  lemma KeptSize(was: seq<Req>, now: seq<Req>)
    requires Kept(was, now)
    ensures |was| == |now|
  {
  }

  lemma KeptTrans(a: seq<Req>, b: seq<Req>, c: seq<Req>)
    requires Kept(a, b) && Kept(b, c)
    ensures Kept(a, c)
  {
  }

  /** With a limit of one, the second name of a search waits although nothing is in flight
      whose end would let it go: until another request comes and goes. */
  method StuckSearch() returns (v: Resolver)
    ensures v.Valid() && v.inflight == 0 && v.maxInflight == 1 && |v.reqs| == 2 && v.reqs[1].queued && v.reqs[1].ns.None?
  {
    hide BucketsOk, WaitingOk, ServersOk, TotalLen, GoodCount, Kept;
    v := new Resolver([Server(true, 0, 0)], 1);
    var i := Submit(v, 7, Sent);
    var n := SearchNext(v, i, 8, x => x, x => y => Sent, Sent);
  }

  /** request_reissue: pointless exactly if no other nameserver was found, which cannot be
      if the old one is down and another is up. */
  method Reissue(v: Resolver, i: nat) returns (pointless: bool)
    requires v.Valid() && i < |v.reqs| && v.reqs[i].queued && v.reqs[i].ns.Some?
    modifies v`reqs, v`servers, v`head
    ensures v.Valid() && |v.reqs| == |old(v.reqs)| && v.reqs[i].queued && v.reqs[i].ns.Some?
    ensures v.reqs == old(v.reqs)[i := v.reqs[i]] && v.reqs[i].transId == old(v.reqs[i]).transId && v.reqs[i].probe == old(v.reqs[i]).probe
    ensures pointless <==> v.reqs[i].ns == old(v.reqs[i]).ns
    ensures !pointless ==> v.reqs[i].sent == 0 && v.reqs[i].transmitMe
    ensures pointless ==> v.reqs == old(v.reqs)
    ensures old(v.reqs[i]).ns.value < |old(v.servers)|
    ensures v.good > 0 && !old(v.servers)[old(v.reqs[i]).ns.value].up ==> !pointless
    ensures Picked(old(v.servers), old(v.head), v.reqs[i].ns.value, v.head) && SameUp(old(v.servers), v.servers)
  {
    hide BucketsOk, WaitingOk, TotalLen, GoodCount, CountWith, Picked;
    var last := v.reqs[i].ns;
    var s := v.PickServer();
    SwapNs(v, i, s);
    if v.reqs[i].ns == last {
      return true;
    }
    Touch(v, i, v.reqs[i].(sent := 0, transmitMe := true));
    pointless := false;
  }

  /** evdns_request_timeout_callback. After `retries` transmissions the request ends and its
      nameserver counts as failed. Otherwise it is sent again, by way of whatever server is
      next; s is the server it is with then, which counts as failed after more than
      `patience` timeouts in a row. */
  method TimedOut(v: Resolver, i: nat, retries: int, patience: int, ids: nat -> nat, outcomes: nat -> nat -> Outcome, outcome: Outcome)
    returns (gaveUp: bool, s: nat)
    requires v.Valid() && i < |v.reqs| && v.reqs[i].queued && v.reqs[i].ns.Some?
    modifies v
    ensures v.Valid() && v.maxInflight == old(v.maxInflight) && s < |v.servers| == |old(v.servers)|
    ensures gaveUp <==> old(v.reqs[i]).sent >= retries
    ensures gaveUp ==>
              && s == old(v.reqs[i]).ns.value && !v.servers[s].up
              && Kept(old(v.reqs)[i := old(v.reqs[i]).(queued := false)], v.reqs)
    ensures !gaveUp ==>
              && Kept(old(v.reqs), v.reqs) && i < |v.reqs| && v.inflight == old(v.inflight)
              && v.reqs[i].sent == old(v.reqs[i]).sent + Bit(outcome != Choked)
              && (if old(v.servers)[s].timedOut + 1 > patience then !v.servers[s].up && v.servers[s].timedOut == 0
                  else v.reqs[i].ns == Some(s) && v.servers[s].timedOut == old(v.servers)[s].timedOut + 1)
    ensures !gaveUp && outcome != Error ==> old(v.head) < |v.servers| && s == Turn(old(v.servers), old(v.head))
    ensures Others(v.inflight, v.reqs) <= Max(old(Others(v.inflight, v.reqs)), v.maxInflight)
  {
    hide BucketsOk, WaitingOk, ServersOk, TotalLen, GoodCount, OnlyMoved, Kept, Probes, Picked, Turn, MovedOff;
    InQueue(v.reqs, v.waiting, v.servers, i);
    gaveUp := v.reqs[i].sent >= retries;
    if gaveUp {
      s := v.reqs[i].ns.value;
      Finish(v, i, ids, outcomes);
      ghost var mid := v.reqs;
      NameserverFailed(v, s);
      MovedKept(mid, v.reqs);
      ProbesKept(mid, v.reqs);
      KeptTrans(old(v.reqs)[i := old(v.reqs[i]).(queued := false)], mid, v.reqs);
      return;
    }
    s := SendAgain(v, i, outcome);
    ghost var mid := v.reqs;
    ProbesKept(old(v.reqs), mid);
    var n := v.servers[s].timedOut + 1;
    if n <= patience {
      CountTimeouts(v, s, n);
      return;
    }
    CountTimeouts(v, s, 0);
    NameserverFailed(v, s);
    MovedKept(mid, v.reqs);
    MovedSent(mid, v.reqs, i);
    ProbesKept(mid, v.reqs);
    KeptTrans(old(v.reqs), mid, v.reqs);
  }

  lemma MovedSent(was: seq<Req>, now: seq<Req>, i: nat)
    requires OnlyMoved(was, now) && i < |was|
    ensures |now| == |was| && now[i].sent == was[i].sent
  {
    assert now[i].(ns := was[i].ns) == was[i];
  }

  /** Another server, if there is one, and the packet once more. */
  method SendAgain(v: Resolver, i: nat, outcome: Outcome) returns (s: nat)
    requires v.Valid() && i < |v.reqs| && v.reqs[i].queued && v.reqs[i].ns.Some?
    modifies v`reqs, v`servers, v`head, v`good
    ensures v.Valid() && NoneUp(old(v.servers), v.servers) && s < |v.servers|
    ensures Kept(old(v.reqs), v.reqs) && |v.reqs| == |old(v.reqs)| && v.reqs[i].ns == Some(s)
    ensures v.reqs[i].sent == old(v.reqs[i]).sent + Bit(outcome != Choked) && v.reqs[i].transmitMe == (outcome == Choked)
    ensures outcome != Error ==> Picked(old(v.servers), old(v.head), s, v.head)
    ensures outcome != Error ==> old(v.head) < |v.servers| && s == Turn(old(v.servers), old(v.head))
  {
    hide BucketsOk, WaitingOk, ServersOk, TotalLen, GoodCount, OnlyMoved, Picked, MovedOff;
    InQueue(v.reqs, v.waiting, v.servers, i);
    var p := v.PickServer();
    PickedTurn(v.servers, v.servers, old(v.head), p.value, v.head);
    SwapNs(v, i, p);
    ghost var mid := v.reqs;
    Transmit(v, i, outcome);
    MovedSent(mid[i := Tried(mid[i], outcome)], v.reqs, i);
    InQueue(v.reqs, v.waiting, v.servers, i);
    s := v.reqs[i].ns.value;
  }

  /** request_find_from_trans_id: looks in one bucket only, and finds a request with that
      id if there is one in flight. */
  method Find(v: Resolver, id: nat) returns (r: Option<nat>)
    requires v.Valid()
    ensures r.Some? ==> r.value < |v.reqs| && v.reqs[r.value].queued && v.reqs[r.value].ns.Some? && v.reqs[r.value].transId == id
    ensures r.None? ==> forall i :: 0 <= i < |v.reqs| && v.reqs[i].queued && v.reqs[i].ns.Some? ==> v.reqs[i].transId != id
  {
    var b := id % |v.heads|;
    assert BucketOk(v.reqs, v.heads[b], b, |v.heads|);
    for k := 0 to |v.heads[b]|
      invariant forall j :: 0 <= j < k ==> v.heads[b][j] < |v.reqs| && v.reqs[v.heads[b][j]].transId != id
    {
      MemberAt(v, b, k);
      if v.reqs[v.heads[b][k]].transId == id {
        return Some(v.heads[b][k]);
      }
    }
    forall i | 0 <= i < |v.reqs| && v.reqs[i].queued && v.reqs[i].ns.Some?
      ensures v.reqs[i].transId != id
    {
      if v.reqs[i].transId == id {
        assert InBucket(v.reqs, i, b, |v.heads|);
      }
    }
    r := None;
  }

  function Off(r: Req): Req
  {
    if r.queued && r.ns.Some? then r.(queued := false) else r
  }

  function AllOff(reqs: seq<Req>): (rs: seq<Req>)
    ensures |rs| == |reqs| && forall i :: 0 <= i < |reqs| ==> rs[i] == Off(reqs[i])
  {
    seq(|reqs|, i requires 0 <= i < |reqs| => Off(reqs[i]))
  }

  /** Between two tables of buckets: each request in flight is in exactly one of them. */
  ghost predicate Split(reqs: seq<Req>, left: seq<Req>, moved: seq<Req>)
  {
    && |left| == |reqs| == |moved|
    && forall i :: 0 <= i < |reqs| ==>
         (left[i] == reqs[i] && moved[i] == Off(reqs[i])) || (left[i] == Off(reqs[i]) && moved[i] == reqs[i])
  }

  lemma EmptyBuckets(reqs: seq<Req>, heads: seq<seq<nat>>)
    requires |heads| > 0 && forall b :: 0 <= b < |heads| ==> heads[b] == []
    ensures BucketsOk(AllOff(reqs), heads)
  {
    var rs, n := AllOff(reqs), |heads|;
    forall b | 0 <= b < n
      ensures BucketOk(rs, heads[b], b, n)
    {
      assert forall x :: !InBucket(rs, x, b, n);
    }
  }

  lemma SplitStep(reqs: seq<Req>, left: seq<Req>, moved: seq<Req>, i: nat)
    requires Split(reqs, left, moved) && i < |reqs| && left[i].queued && left[i].ns.Some?
    ensures left[i] == reqs[i] && !(moved[i].queued && moved[i].ns.Some?)
    ensures Split(reqs, left[i := Off(reqs[i])], moved[i := reqs[i]])
  {
  }

  lemma AllMoved(reqs: seq<Req>, left: seq<Req>, moved: seq<Req>, heads: seq<seq<nat>>)
    requires Split(reqs, left, moved) && BucketsOk(left, heads) && forall b :: 0 <= b < |heads| ==> heads[b] == []
    ensures moved == reqs
  {
    forall i | 0 <= i < |reqs|
      ensures moved[i] == reqs[i]
    {
      var n := |heads|;
      assert BucketOk(left, heads[left[i].transId % n], left[i].transId % n, n);
      assert !InBucket(left, i, left[i].transId % n, n);
    }
  }

  lemma HeadOfBucket(left: seq<Req>, heads: seq<seq<nat>>, b: nat)
    requires BucketsOk(left, heads) && b < |heads| && heads[b] != []
    ensures var i := heads[b][0];
            && i < |left| && left[i].queued && left[i].ns.Some? && left[i].transId % |heads| == b
            && Remove(heads[b], i) == heads[b][1..]
  {
    var i := heads[b][0];
    assert BucketOk(left, heads[b], b, |heads|) && i in heads[b];
    assert InBucket(left, i, b, |heads|);
  }

  /** evdns_base_set_max_requests_inflight: every request in flight moves to its bucket in
      the new table. */
  method SetMax(v: Resolver, maxinflight: int, mallocOk: bool) returns (ok: bool)
    requires v.Valid()
    modifies v`heads, v`maxInflight
    ensures v.Valid() && ok == mallocOk
    ensures ok ==> v.maxInflight == (if maxinflight < 1 then 1 else maxinflight) && |v.heads| == (v.maxInflight + 4) / 5
    ensures !ok ==> v.heads == old(v.heads) && v.maxInflight == old(v.maxInflight)
  {
    hide BucketsOk, WaitingOk, ServersOk, TotalLen, GoodCount, Split, Remove, AllOff;
    var m := if maxinflight < 1 then 1 else maxinflight;
    var n := (m + 4) / 5;
    if !mallocOk {
      return false;
    }
    var nOld := |v.heads|;
    var oldHeads, newHeads: seq<seq<nat>> := v.heads, seq(n, _ => []);
    ghost var left, moved := v.reqs, AllOff(v.reqs);
    EmptyBuckets(v.reqs, newHeads);
    NoLen(newHeads);
    NoneMoved(v.reqs);
    for b := 0 to nOld
      invariant |oldHeads| == nOld && |newHeads| == n && |left| == |v.reqs| == |moved|
      invariant Split(v.reqs, left, moved) && BucketsOk(left, oldHeads) && BucketsOk(moved, newHeads)
      invariant TotalLen(oldHeads) + TotalLen(newHeads) == v.inflight
      invariant forall c :: 0 <= c < b ==> oldHeads[c] == []
    {
      while oldHeads[b] != []
        invariant |oldHeads| == nOld && |newHeads| == n && |left| == |v.reqs| == |moved|
        invariant Split(v.reqs, left, moved) && BucketsOk(left, oldHeads) && BucketsOk(moved, newHeads)
        invariant TotalLen(oldHeads) + TotalLen(newHeads) == v.inflight
        invariant forall c :: 0 <= c < b ==> oldHeads[c] == []
        decreases |oldHeads[b]|
      {
        HeadOfBucket(left, oldHeads, b);
        var i := oldHeads[b][0];
        var c := v.reqs[i].transId % n;
        SplitStep(v.reqs, left, moved, i);
        BucketLeave(left, oldHeads, i, Off(v.reqs[i]));
        BucketJoin(moved, newHeads, i, v.reqs[i]);
        oldHeads := oldHeads[b := Remove(oldHeads[b], i)];
        newHeads := newHeads[c := newHeads[c] + [i]];
        left, moved := left[i := Off(v.reqs[i])], moved[i := v.reqs[i]];
      }
    }
    AllMoved(v.reqs, left, moved, oldHeads);
    NoLen(oldHeads);
    v.heads := newHeads;
    v.maxInflight := m;
    ok := true;
  }

  lemma NoneMoved(reqs: seq<Req>)
    ensures Split(reqs, reqs, AllOff(reqs))
  {
  }

  /** What may happen to a resolver. */
  datatype Step =
    | Ask(id: nat, outcome: Outcome)
    | End(i: nat, ids: nat -> nat, outcomes: nat -> nat -> Outcome)   // a reply, a timeout or a cancellation
    | Search(k: nat, sid: nat, sids: nat -> nat, souts: nat -> nat -> Outcome, sout: Outcome)
    | Test(server: nat, pid: nat, pout: Outcome)               // a probe
    | Fail(s: nat)
    | Up(s: nat, probe: Option<nat>, uids: nat -> nat, uouts: nat -> nat -> Outcome)
    | Retry(j: nat)
    | Timeout(n: nat, limits: (int, int), tids: nat -> nat, touts: nat -> nat -> Outcome, tout: Outcome)
    | Heard(from: nat)                                         // a packet from a server
    | Resume(routs: nat -> Outcome)                            // a socket can be written again
    | Limit(m: int, mallocOk: bool)

  function Ended(t: Step): set<nat>
  {
    if t.End? then {t.i} else if t.Search? then {t.k} else if t.Timeout? then {t.n}
    else if t.Up? && t.probe.Some? then {t.probe.value} else {}
  }

  function AllEnded(steps: seq<Step>): set<nat>
  {
    if steps == [] then {} else Ended(steps[0]) + AllEnded(steps[1..])
  }

  function NewLimit(t: Step, limit: int): int
  {
    if t.Limit? && t.mallocOk then Max(1, t.m) else limit
  }

  /** Whether a search goes on to its next name. */
  predicate Searches(steps: seq<Step>)
  {
    exists i :: 0 <= i < |steps| && steps[i].Search?
  }

  /** The highest limit in force during some steps. */
  function Peak(steps: seq<Step>, limit: int): int
  {
    if steps == [] then limit else Max(limit, Peak(steps[1..], NewLimit(steps[0], limit)))
  }

  /** Requests are added, and those that end leave their queues; no other does. */
  ghost predicate NoneLost(was: seq<Req>, now: seq<Req>, ended: set<nat>)
  {
    && |was| <= |now|
    && (forall i :: 0 <= i < |was| ==> (was[i].queued && i !in ended ==> now[i].queued) && (!was[i].queued ==> !now[i].queued))
    && (forall i :: |was| <= i < |now| && i !in ended ==> now[i].queued)
  }

  lemma NoneLostTrans(a: seq<Req>, b: seq<Req>, c: seq<Req>, e: set<nat>, f: set<nat>)
    requires NoneLost(a, b, e) && NoneLost(b, c, f)
    ensures NoneLost(a, c, e + f)
  {
  }

  /** The requests, the servers, whose turn it is, and the limit. */
  datatype View = View(reqs: seq<Req>, servers: seq<Server>, head: nat, limit: int)

  ghost function Look(v: Resolver): View
    reads v
  {
    View(v.reqs, v.servers, v.head, v.maxInflight)
  }

  ghost predicate InFlight(w: View, i: nat)
  {
    i < |w.reqs| && w.reqs[i].queued && w.reqs[i].ns.Some?
  }

  /** One request more, with the given id; it is with server s, or the server whose turn it
      was, unless it waits or its socket failed. */
  ghost predicate OneNew(was: View, now: View, id: nat, s: Option<nat>, outcome: Outcome)
  {
    && |now.reqs| == |was.reqs| + 1
    && var r := now.reqs[|was.reqs|];
       && r.queued && r.probe == s.Some?
       && (r.ns.Some? && outcome != Error ==>
             && r.transId == id && r.sent == Bit(outcome != Choked)
             && r.ns == if s.Some? then s else if was.head < |was.servers| then Some(Turn(was.servers, was.head)) else None)
  }

  /** What each step does, if it can be done. */
  ghost predicate Happened(t: Step, was: View, now: View)
  {
    match t
    case Ask(id, outcome) => OneNew(was, now, id, None, outcome)
    case End(i, _, _) => |now.reqs| == |was.reqs| && (i < |was.reqs| ==> !now.reqs[i].queued)
    case Search(i, id, _, _, outcome) =>
      InFlight(was, i) ==> OneNew(was, now, id, None, outcome) && !now.reqs[i].queued
    case Test(s, id, outcome) => s < |was.servers| ==> OneNew(was, now, id, Some(s), outcome)
    case Fail(s) => s < |was.servers| ==> |now.servers| == |was.servers| && !now.servers[s].up && MovedOff(was.reqs, now.reqs, now.servers, s)
    case Up(s, probe, _, _) =>
      s < |was.servers| && (probe.Some? ==> probe.value < |was.reqs| && was.reqs[probe.value].queued) ==>
        |now.servers| == |was.servers| && now.servers[s].up
    case Retry(i) =>
      InFlight(was, i) && was.head < |was.servers| ==> |now.reqs| == |was.reqs| && now.reqs[i].ns == Some(Turn(was.servers, was.head))
    case Timeout(i, limits, _, _, outcome) =>
      InFlight(was, i) ==>
        && |now.reqs| == |was.reqs|
        && if was.reqs[i].sent >= limits.0 then !now.reqs[i].queued
           else now.reqs[i].queued && now.reqs[i].sent == was.reqs[i].sent + Bit(outcome != Choked)
    case Heard(s) => now == if s < |was.servers| then was.(servers := was.servers[s := was.servers[s].(timedOut := 0)]) else was
    case Resume(outcomes) =>
      |now.reqs| == |was.reqs| && forall i :: 0 <= i < |was.reqs| ==> now.reqs[i].(ns := was.reqs[i].ns) == Swept(was.reqs[i], outcomes(i))
    case Limit(_, _) => now == was.(limit := NewLimit(t, was.limit))
  }

  method Perform(v: Resolver, t: Step)
    requires v.Valid()
    modifies v
    ensures v.Valid() && StepOk(t, old(Look(v)), old(Others(v.inflight, v.reqs)), Look(v), Others(v.inflight, v.reqs))
  {
    hide BucketsOk, WaitingOk, ServersOk, TotalLen, GoodCount, Others, StepOk;
    if t.Ask? || t.Test? {
      Begin(v, t);
    } else if t.End? {
      Conclude(v, t);
    } else if t.Search? {
      Continue(v, t);
    } else if t.Timeout? {
      Expire(v, t);
    } else if t.Fail? || t.Up? || t.Heard? {
      Judge(v, t);
    } else {
      Rearrange(v, t);
    }
  }

  /** The steps that begin a request. */
  method Begin(v: Resolver, t: Step)
    requires v.Valid() && (t.Ask? || t.Test?)
    modifies v
    ensures v.Valid() && StepOk(t, old(Look(v)), old(Others(v.inflight, v.reqs)), Look(v), Others(v.inflight, v.reqs))
  {
    hide BucketsOk, WaitingOk, ServersOk, TotalLen, GoodCount, Others, Kept, NoneLost, NoneUp, OthersUp, OnlyMoved, Remove;
    hide Picked, OneMore, InTurn, MovedOff, SameUp, SameNs, Turn, Swept, NoErrors, NeverErrors, Stuck, Tried;
    ghost var was, n := v.reqs, |v.reqs|;
    LostNone(was, was, Ended(t));
    match t {
      case Ask(id, outcome) =>
        var i := Submit(v, id, outcome);
        if v.reqs[i].ns.Some? && outcome != Error {
          PickedTurn(old(v.servers), old(v.servers), old(v.head), v.reqs[i].ns.value, v.head);
        }
        LostNone(was, v.reqs[..n], {});
        LostNew(was, v.reqs, {});
      case Test(s, id, outcome) =>
        if s < |v.servers| {
          var _ := Probe(v, s, id, outcome);
          LostNone(was, v.reqs[..n], {});
          LostNew(was, v.reqs, {});
        }
    }
  }

  /** A request ends. */
  method Conclude(v: Resolver, t: Step)
    requires v.Valid() && t.End?
    modifies v
    ensures v.Valid() && StepOk(t, old(Look(v)), old(Others(v.inflight, v.reqs)), Look(v), Others(v.inflight, v.reqs))
  {
    hide BucketsOk, WaitingOk, ServersOk, TotalLen, GoodCount, Others, Kept, NoneLost, NoneUp, OthersUp, OnlyMoved, Remove;
    hide Picked, OneMore, InTurn, MovedOff, SameUp, SameNs, Turn, Swept, NoErrors, NeverErrors, Stuck, Tried;
    ghost var was := v.reqs;
    LostNone(was, was, Ended(t));
    match t {
      case End(i, ids, outcomes) =>
        if i < |v.reqs| && v.reqs[i].queued {
          Finish(v, i, ids, outcomes);
          LostOne(was, i, v.reqs);
        }
    }
  }

  /** A search goes on to its next name. */
  method Continue(v: Resolver, t: Step)
    requires v.Valid() && t.Search?
    modifies v
    ensures v.Valid() && StepOk(t, old(Look(v)), old(Others(v.inflight, v.reqs)), Look(v), Others(v.inflight, v.reqs))
  {
    hide BucketsOk, WaitingOk, ServersOk, TotalLen, GoodCount, Others, Kept, NoneLost, NoneUp, OthersUp, OnlyMoved, Remove;
    hide Picked, OneMore, InTurn, MovedOff, SameUp, SameNs, Turn, Swept, NoErrors, NeverErrors, Stuck, Tried;
    ghost var was, n := v.reqs, |v.reqs|;
    LostNone(was, was, Ended(t));
    match t {
      case Search(i, id, ids, outcomes, outcome) =>
        if i < |v.reqs| && v.reqs[i].queued && v.reqs[i].ns.Some? {
          var _ := SearchNext(v, i, id, ids, outcomes, outcome);
          LostOne(was, i, v.reqs[..n]);
          assert v.reqs[i] == v.reqs[..n][i];
          LostNew(was, v.reqs, {i});
        }
    }
  }

  /** A request times out: it ends, or is sent again. */
  method Expire(v: Resolver, t: Step)
    requires v.Valid() && t.Timeout?
    modifies v
    ensures v.Valid() && StepOk(t, old(Look(v)), old(Others(v.inflight, v.reqs)), Look(v), Others(v.inflight, v.reqs))
  {
    hide BucketsOk, WaitingOk, ServersOk, TotalLen, GoodCount, Others, Kept, NoneLost, NoneUp, OthersUp, OnlyMoved, Remove;
    hide Picked, OneMore, InTurn, MovedOff, SameUp, SameNs, Turn, Swept, NoErrors, NeverErrors, Stuck, Tried;
    ghost var was := v.reqs;
    LostNone(was, was, Ended(t));
    match t {
      case Timeout(i, limits, ids, outcomes, outcome) =>
        if i < |v.reqs| && v.reqs[i].queued && v.reqs[i].ns.Some? {
          var gaveUp, _ := TimedOut(v, i, limits.0, limits.1, ids, outcomes, outcome);
          if gaveUp {
            LostOne(was, i, v.reqs);
          } else {
            LostNone(was, v.reqs, {i});
            KeptAt(was, v.reqs, i);
          }
        }
    }
  }

  /** Those that change what is known of a server. */
  method Judge(v: Resolver, t: Step)
    requires v.Valid() && (t.Fail? || t.Up? || t.Heard?)
    modifies v
    ensures v.Valid() && StepOk(t, old(Look(v)), old(Others(v.inflight, v.reqs)), Look(v), Others(v.inflight, v.reqs))
  {
    hide BucketsOk, WaitingOk, ServersOk, TotalLen, GoodCount, Others, Kept, NoneLost, NoneUp, OthersUp, OnlyMoved, Remove;
    hide Picked, OneMore, InTurn, MovedOff, SameUp, SameNs, Turn, Swept, NoErrors, NeverErrors, Stuck, Tried;
    ghost var was := v.reqs;
    LostNone(was, was, Ended(t));
    match t {
      case Fail(s) =>
        if s < |v.servers| {
          NameserverFailed(v, s);
          SameServers(old(v.servers), v.servers, s);
          MovedKept(was, v.reqs);
          LostNone(was, v.reqs, {});
          OthersKept(v.inflight, was, v.reqs);
        }
      case Up(s, probe, ids, outcomes) =>
        if s < |v.servers| && (probe.Some? ==> probe.value < |v.reqs| && v.reqs[probe.value].queued) {
          ghost var down := !v.servers[s].up;
          NameserverUp(v, s, probe, ids, outcomes);
          if down && probe.Some? {
            LostOne(was, probe.value, v.reqs);
          }
        }
      case Heard(s) =>
        if s < |v.servers| {
          CountTimeouts(v, s, 0);
        }
    }
  }

  /** Those that move requests, or send those that wait for a socket, or change the limit. */
  method Rearrange(v: Resolver, t: Step)
    requires v.Valid() && (t.Retry? || t.Resume? || t.Limit?)
    modifies v
    ensures v.Valid() && StepOk(t, old(Look(v)), old(Others(v.inflight, v.reqs)), Look(v), Others(v.inflight, v.reqs))
  {
    hide BucketsOk, WaitingOk, ServersOk, TotalLen, GoodCount, Others, Kept, NoneLost, NoneUp, OthersUp, OnlyMoved, Remove;
    hide Picked, OneMore, InTurn, MovedOff, SameUp, SameNs, Turn, Swept, NoErrors, NeverErrors, Stuck, Tried;
    ghost var was := v.reqs;
    LostNone(was, was, Ended(t));
    match t {
      case Retry(i) =>
        if i < |v.reqs| && v.reqs[i].queued && v.reqs[i].ns.Some? {
          var _ := Reissue(v, i);
          PickedTurn(old(v.servers), old(v.servers), old(v.head), v.reqs[i].ns.value, v.head);
          OneKept(was, v.reqs, i);
          LostNone(was, v.reqs, {});
          OthersKept(v.inflight, was, v.reqs);
        }
      case Resume(outcomes) =>
        TransmitAll(v, outcomes);
        KeptSize(was, v.reqs);
        LostNone(was, v.reqs, {});
        OthersKept(v.inflight, was, v.reqs);
      case Limit(m, mallocOk) =>
        var _ := SetMax(v, m, mallocOk);
    }
  }

  /** A step loses no request, sets the limit it says, has no more in flight than the limit
      allows, and does what it is for. */
  ghost predicate StepOk(t: Step, was: View, others0: int, now: View, others1: int)
  {
    && NoneLost(was.reqs, now.reqs, Ended(t)) && now.limit == NewLimit(t, was.limit)
    && others1 <= Max(others0, now.limit + Bit(t.Search?)) && Happened(t, was, now)
  }

  lemma KeptAt(was: seq<Req>, now: seq<Req>, i: nat)
    requires Kept(was, now) && i < |was|
    ensures |now| == |was| && now[i].queued == was[i].queued
  {
  }

  lemma SameServers(was: seq<Server>, now: seq<Server>, s: nat)
    requires OthersUp(was, now, s)
    ensures |now| == |was|
  {
  }

  lemma LostNone(was: seq<Req>, now: seq<Req>, e: set<nat>)
    requires was == now || Kept(was, now)
    ensures NoneLost(was, now, e)
  {
  }

  lemma LostOne(was: seq<Req>, i: nat, now: seq<Req>)
    requires i < |was| && Kept(was[i := was[i].(queued := false)], now)
    ensures NoneLost(was, now, {i}) && |now| == |was| && !now[i].queued
  {
  }

  lemma LostNew(was: seq<Req>, now: seq<Req>, e: set<nat>)
    requires |now| == |was| + 1 && NoneLost(was, now[..|was|], e) && now[|was|].queued
    ensures NoneLost(was, now, e)
  {
    assert forall x :: 0 <= x < |was| ==> now[x] == now[..|was|][x];
  }

  lemma OneKept(was: seq<Req>, now: seq<Req>, i: nat)
    requires i < |was| == |now| && now == was[i := now[i]] && now[i].queued && was[i].queued && now[i].ns.Some?
    requires now[i].transId == was[i].transId && now[i].probe == was[i].probe
    ensures Kept(was, now)
  {
  }

  lemma OthersKept(inflight: int, was: seq<Req>, now: seq<Req>)
    requires Kept(was, now)
    ensures Others(inflight, now) <= Others(inflight, was)
  {
    ProbesKept(was, now);
  }

  lemma MovedKept(was: seq<Req>, now: seq<Req>)
    requires OnlyMoved(was, now)
    ensures Kept(was, now)
  {
    forall x | 0 <= x < |was|
      ensures now[x].queued == was[x].queued && now[x].transId == was[x].transId && now[x].probe == was[x].probe
    {
      assert now[x].(ns := was[x].ns) == was[x];
    }
  }

  /** Over any run, whatever servers fail and packets are lost: every request that has not
      ended is in exactly one queue, and, besides probes, there are never more in flight
      than the highest limit allowed and one for all searches, or than there were before. The
      trace shows what each step did. */
  method Run(v: Resolver, steps: seq<Step>) returns (ghost trace: seq<View>)
    requires v.Valid()
    modifies v
    ensures v.Valid() && NoneLost(old(v.reqs), v.reqs, AllEnded(steps))
    ensures Others(v.inflight, v.reqs) <= Max(old(Others(v.inflight, v.reqs)), Peak(steps, old(v.maxInflight)) + Bit(Searches(steps)))
    ensures IsRun(trace, steps) && trace[0] == old(Look(v)) && trace[|steps|] == Look(v)
    decreases steps
  {
    hide BucketsOk, WaitingOk, ServersOk, TotalLen, GoodCount, NoneLost, Others, IsRun, Happened, Max, Peak, Searches;
    trace := [Look(v)];
    RunStarts(trace);
    if steps == [] {
      NoneLostSelf(v.reqs);
      NoMore(Others(v.inflight, v.reqs), v.maxInflight);
    } else {
      ghost var others := Others(v.inflight, v.reqs);
      Perform(v, steps[0]);
      ghost var mid, others' := v.reqs, Others(v.inflight, v.reqs);
      ghost var rest := Run(v, steps[1..]);
      RunBefore(trace[0], rest, steps);
      trace := trace + rest;
      NoneLostTrans(old(v.reqs), mid, v.reqs, Ended(steps[0]), AllEnded(steps[1..]));
      StillMost(steps, old(v.maxInflight), others, others', Others(v.inflight, v.reqs));
    }
  }

  lemma NoMore(o: int, limit: int)
    ensures o <= Max(o, Peak([], limit) + Bit(Searches([])))
  {
  }

  lemma StillMost(steps: seq<Step>, limit: int, o0: int, o1: int, o2: int)
    requires steps != [] && o1 <= Max(o0, NewLimit(steps[0], limit) + Bit(steps[0].Search?))
    requires o2 <= Max(o1, Peak(steps[1..], NewLimit(steps[0], limit)) + Bit(Searches(steps[1..])))
    ensures o2 <= Max(o0, Peak(steps, limit) + Bit(Searches(steps)))
  {
    PeakAtLeast(steps[1..], NewLimit(steps[0], limit));
    assert Searches(steps[1..]) || steps[0].Search? ==> Searches(steps);
  }

  /** A trace of the run: what is seen before and after each step. */
  ghost predicate IsRun(trace: seq<View>, steps: seq<Step>)
  {
    |trace| == |steps| + 1 && forall k :: 0 <= k < |steps| ==> Happened(steps[k], trace[k], trace[k + 1])
  }

  lemma RunStarts(trace: seq<View>)
    requires |trace| == 1
    ensures IsRun(trace, [])
  {
  }

  lemma RunBefore(w: View, rest: seq<View>, steps: seq<Step>)
    requires steps != [] && IsRun(rest, steps[1..]) && Happened(steps[0], w, rest[0])
    ensures IsRun([w] + rest, steps) && ([w] + rest)[|steps|] == rest[|steps| - 1]
  {
    hide Happened;
    var trace := [w] + rest;
    forall k | 0 <= k < |steps|
      ensures Happened(steps[k], trace[k], trace[k + 1])
    {
      if k > 0 {
        assert steps[1..][k - 1] == steps[k] && rest[k - 1] == trace[k] && rest[k] == trace[k + 1];
      }
    }
  }

  lemma PeakAtLeast(steps: seq<Step>, limit: int)
    ensures Peak(steps, limit) >= limit
  {
  }

  lemma NoneLostSelf(reqs: seq<Req>)
    ensures NoneLost(reqs, reqs, {})
  {
  }
}

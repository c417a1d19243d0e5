/** evdns.c: the circular list of nameservers and the choice among them. */
module DnsServers {
  import opened Queues

  /** struct nameserver: whether it is believed to be up, how many requests are with it, and
      how many have timed out in a row. */
  datatype Server = Server(up: bool, inflight: int, timedOut: nat)

  function GoodCount(servers: seq<Server>): nat
  {
    if servers == [] then 0 else (if servers[0].up then 1 else 0) + GoodCount(servers[1..])
  }

  /** No server that was down is up, and no timeouts are counted. */
  ghost predicate NoneUp(was: seq<Server>, now: seq<Server>)
  {
    |was| == |now| && forall x :: 0 <= x < |now| ==> (now[x].up ==> was[x].up) && now[x].timedOut == was[x].timedOut
  }

  /** All servers are up or down as before, and no timeouts are counted. */
  ghost predicate SameUp(was: seq<Server>, now: seq<Server>)
  {
    |was| == |now| && forall x :: 0 <= x < |now| ==> now[x].up == was[x].up && now[x].timedOut == was[x].timedOut
  }

  lemma {:induction false} GoodUpdate(servers: seq<Server>, s: nat, v: Server)
    requires s < |servers|
    ensures GoodCount(servers[s := v]) == GoodCount(servers) - (if servers[s].up then 1 else 0) + (if v.up then 1 else 0)
  {
    if s == 0 {
      assert servers[0 := v][1..] == servers[1..];
    } else {
      GoodUpdate(servers[1..], s - 1, v);
      assert servers[s := v][1..] == servers[1..][s - 1 := v];
    }
  }

  /** The number of the server behind number h. */
  function Next(h: nat, n: nat): (r: nat)
    requires h < n
    ensures r < n
  {
    if h + 1 == n then 0 else h + 1
  }

  function IfUp(servers: seq<Server>, h: nat): seq<nat>
    requires h < |servers|
  {
    if servers[h].up then [h] else []
  }

  /** Which of the k servers from h on are up, in order. */
  function UpFrom(servers: seq<Server>, h: nat, k: nat): (us: seq<nat>)
    requires h < |servers|
    ensures forall x :: 0 <= x < |us| ==> us[x] < |servers|
    decreases k
  {
    if k == 0 then [] else IfUp(servers, h) + UpFrom(servers, Next(h, |servers|), k - 1)
  }

  /** Once round the list. */
  function Ups(servers: seq<Server>, h: nat): (us: seq<nat>)
    requires h < |servers|
    ensures forall x :: 0 <= x < |us| ==> us[x] < |servers|
  {
    UpFrom(servers, h, |servers|)
  }

  /** The server k places behind h. */
  function Along(h: nat, n: nat, k: nat): (r: nat)
    requires h < n && k <= n
    ensures r < n
  {
    if h + k < n then h + k else h + k - n
  }

  lemma {:induction false} UpFromSnoc(servers: seq<Server>, h: nat, k: nat)
    requires h < |servers| && k < |servers|
    ensures UpFrom(servers, h, k + 1) == UpFrom(servers, h, k) + IfUp(servers, Along(h, |servers|, k))
    decreases k
  {
    hide IfUp;
    if k > 0 {
      var h' := Next(h, |servers|);
      UpFromSnoc(servers, h', k - 1);
    } else {
      assert IfUp(servers, h) + [] == [] + IfUp(servers, h);
    }
  }

  /** Moving on by one server moves it to the end of the round. */
  lemma Rotate(servers: seq<Server>, h: nat)
    requires h < |servers|
    ensures IfUp(servers, h) <= Ups(servers, h)
    ensures Ups(servers, Next(h, |servers|)) == Ups(servers, h)[|IfUp(servers, h)|..] + IfUp(servers, h)
  {
    hide IfUp;
    var n, h' := |servers|, Next(h, |servers|);
    UpFromSnoc(servers, h', n - 1);
    assert Ups(servers, h) == IfUp(servers, h) + UpFrom(servers, h', n - 1);
    assert Along(h', n, n - 1) == h;
  }

  lemma {:induction false} Straight(servers: seq<Server>, h: nat, k: nat)
    requires h < |servers| && h + k <= |servers|
    ensures NoDup(UpFrom(servers, h, k))
    ensures forall s :: s in UpFrom(servers, h, k) <==> h <= s < h + k && servers[s].up
    decreases k
  {
    if k > 1 {
      Straight(servers, h + 1, k - 1);
    } else if k == 1 {
      assert UpFrom(servers, Next(h, |servers|), 0) == [];
    }
  }

  ghost predicate AllUps(servers: seq<Server>, us: seq<nat>)
  {
    NoDup(us) && forall s :: s in us <==> 0 <= s < |servers| && servers[s].up
  }

  lemma RotatedUps(servers: seq<Server>, us: seq<nat>, u: seq<nat>)
    requires AllUps(servers, us) && u <= us && |u| <= 1
    ensures AllUps(servers, us[|u|..] + u)
  {
    assert us == u + us[|u|..];
  }

  /** From wherever it starts, a round meets every server that is up exactly once. */
  lemma {:induction false} UpsAll(servers: seq<Server>, h: nat)
    requires h < |servers|
    ensures AllUps(servers, Ups(servers, h))
  {
    if h == 0 {
      Straight(servers, 0, |servers|);
    } else {
      UpsAll(servers, h - 1);
      Rotate(servers, h - 1);
      RotatedUps(servers, Ups(servers, h - 1), IfUp(servers, h - 1));
    }
  }

  lemma {:induction false} GoodUps(servers: seq<Server>, h: nat, k: nat)
    requires h < |servers| && h + k == |servers|
    ensures |UpFrom(servers, h, k)| == GoodCount(servers[h..])
    decreases k
  {
    if k > 1 {
      GoodUps(servers, h + 1, k - 1);
      assert servers[h..][1..] == servers[h + 1..];
    } else if k == 1 {
      assert servers[h..][1..] == [];
    }
  }

  lemma {:induction false} UpsCount(servers: seq<Server>, h: nat)
    requires h < |servers|
    ensures |Ups(servers, h)| == GoodCount(servers)
  {
    if h == 0 {
      GoodUps(servers, 0, |servers|);
      assert servers[0..] == servers;
    } else {
      UpsCount(servers, h - 1);
      Rotate(servers, h - 1);
    }
  }

  lemma {:induction false} SameUps(was: seq<Server>, now: seq<Server>, h: nat, k: nat)
    requires SameUp(was, now) && h < |was|
    ensures UpFrom(now, h, k) == UpFrom(was, h, k)
    decreases k
  {
    if k > 0 {
      SameUps(was, now, Next(h, |was|), k - 1);
    }
  }

  /** Whose turn it is: the first server that is up, or, if none is, the next one. */
  function Turn(servers: seq<Server>, head: nat): (s: nat)
    requires head < |servers|
    ensures s < |servers|
  {
    if Ups(servers, head) == [] then Next(head, |servers|) else Ups(servers, head)[0]
  }

  /** The head of the list when a server has had its turn. */
  function Onward(servers: seq<Server>, head: nat): (h: nat)
    requires head < |servers|
    ensures h < |servers|
  {
    if Ups(servers, head) == [] then Next(head, |servers|) else Next(Turn(servers, head), |servers|)
  }

  /** The head of the list after k turns. */
  function HeadAt(servers: seq<Server>, head: nat, k: nat): (h: nat)
    requires head < |servers|
    ensures h < |servers|
  {
    if k == 0 then head else Onward(servers, HeadAt(servers, head, k - 1))
  }

  lemma SameTurn(was: seq<Server>, now: seq<Server>, head: nat)
    requires SameUp(was, now) && head < |was|
    ensures Turn(now, head) == Turn(was, head) && Onward(now, head) == Onward(was, head)
  {
    SameUps(was, now, head, |was|);
  }

  /** nameserver_pick, on a list with a server in it: the first server that is up, and
      the list's head moves behind it; the search of all servers never fails. */
  method Pick(servers: seq<Server>, head: nat) returns (picked: nat, head': nat)
    requires head < |servers|
    ensures picked < |servers| && head' < |servers|
    ensures picked == Turn(servers, head) && head' == Onward(servers, head)
    ensures GoodCount(servers) == 0 ==> picked == head' == Next(head, |servers|)
    ensures GoodCount(servers) > 0 ==>
              && servers[picked].up && Ups(servers, head) != [] && picked == Ups(servers, head)[0]
              && Ups(servers, head') == Ups(servers, head)[1..] + [picked]
  {
    hide UpFrom, Ups, GoodCount;
    UpsCount(servers, head);
    if GoodCount(servers) == 0 {
      head' := Next(head, |servers|);
      return head', head';
    }
    head' := head;
    ghost var k := 0;
    FewUps(servers, head, 0);
    while true
      invariant head' < |servers| && 0 <= k < |servers| && head' == Along(head, |servers|, k)
      invariant Ups(servers, head') == Ups(servers, head)
      invariant UpFrom(servers, head, k) == []
      decreases |servers| - k
    {
      Rotate(servers, head');
      if servers[head'].up {
        FirstOf(servers, head');
        picked := head';
        head' := Next(head', |servers|);
        return;
      }
      UpFromSnoc(servers, head, k);
      FewUps(servers, head, k + 1);
      head' := Next(head', |servers|);
      k := k + 1;
      assert head' != head;
    }
  }

  lemma FirstOf(servers: seq<Server>, h: nat)
    requires h < |servers| && servers[h].up
    ensures Ups(servers, h) != [] && Ups(servers, h)[0] == h
  {
  }

  lemma FewUps(servers: seq<Server>, h: nat, k: nat)
    requires h < |servers| && k <= |servers| && Ups(servers, h) != []
    ensures k == 0 ==> UpFrom(servers, h, k) == []
    ensures UpFrom(servers, h, k) == [] ==> k < |servers|
  {
  }

  /** As many picks as there are servers up pick each of them exactly once. */
  method PickRound(servers: seq<Server>, head: nat) returns (picks: seq<nat>, head': nat)
    requires head < |servers|
    ensures head' < |servers| && picks == Ups(servers, head) && AllUps(servers, picks)
  {
    hide UpFrom, Ups, AllUps;
    UpsAll(servers, head);
    UpsCount(servers, head);
    ghost var us := Ups(servers, head);
    picks, head' := [], head;
    for i := 0 to GoodCount(servers)
      invariant head' < |servers| && picks == us[..i] && Ups(servers, head') == us[i..] + us[..i]
    {
      var p;
      p, head' := Pick(servers, head');
      picks := picks + [p];
      assert us[..i + 1] == us[..i] + [us[i]];
    }
    assert us[..|us|] == us;
  }
}

/** bufferevent_ratelim.c and bufferevent.c: suspending and unsuspending bufferevents,
    alone and in rate-limiting groups. */
module RateLimit {
  import opened Bytes
  import opened Queues
  import opened TokenBucket

  datatype Reason = Watermark | Bandwidth | Group | Lookup | Filter   // BEV_SUSPEND_*

  /** One direction of a bufferevent: whether it is enabled, whether the backend is
      doing it, and why it is suspended. */
  datatype Side = Side(enabled: bool, on: bool, suspended: set<Reason>)

  datatype Bev = Bev(r: Side, w: Side, cfg: Option<Cfg>, bucket: Bucket, timer: bool, group: Option<nat>) {
    function Get(d: Dir): Side
    {
      if d == Read then r else w
    }

    function Put(d: Dir, s: Side): Bev
    {
      if d == Read then this.(r := s) else this.(w := s)
    }
  }

  /** struct bufferevent_rate_limit_group */
  datatype Grp = Grp(members: seq<nat>, cfg: Cfg, bucket: Bucket, minShare: nat,
                     rSuspended: bool, wSuspended: bool, rPending: bool, wPending: bool) {
    function Suspended(d: Dir): bool
    {
      if d == Read then rSuspended else wSuspended
    }

    function Pending(d: Dir): bool
    {
      if d == Read then rPending else wPending
    }

    function Put(d: Dir, suspended: bool, pending: bool): Grp
    {
      if d == Read then this.(rSuspended := suspended, rPending := pending)
      else this.(wSuspended := suspended, wPending := pending)
    }
  }

  /** bufferevent_suspend_read_ and bufferevent_suspend_write_ */
  function Suspend(s: Side, what: Reason): Side
  {
    Side(s.enabled, if s.suspended == {} then false else s.on, s.suspended + {what})
  }

  /** bufferevent_unsuspend_read_ and bufferevent_unsuspend_write_ */
  function Unsuspend(s: Side, what: Reason): Side
  {
    var rest := s.suspended - {what};
    Side(s.enabled, if rest == {} && s.enabled then true else s.on, rest)
  }

  /** The backend is on exactly if the side is enabled and no reason to suspend it is
      left. */
  predicate SideOk(s: Side)
  {
    s.on == (s.enabled && s.suspended == {})
  }

  lemma SuspendOk(s: Side, what: Reason)
    requires SideOk(s)
    ensures SideOk(Suspend(s, what)) && SideOk(Unsuspend(s, what))
    ensures what in Suspend(s, what).suspended && what !in Unsuspend(s, what).suspended
  {
  }

  /** An exhausted bucket suspends its side, and a side suspended for its bucket has a
      timer. */
  predicate BucketOk(v: Bev, d: Dir)
  {
    && (v.cfg.Some? && v.bucket.Limit(d) <= 0 ==> Bandwidth in v.Get(d).suspended)
    && (Bandwidth in v.Get(d).suspended ==> v.timer && v.cfg.Some?)
  }

  predicate BevOk(v: Bev)
  {
    && SideOk(v.r) && SideOk(v.w)
    && (v.cfg.Some? ==> v.cfg.value.Valid() && v.bucket.Within(v.cfg.value))
    && BucketOk(v, Read) && BucketOk(v, Write)
  }

  /** The least that a group which is not suspended has; a group without a minimum share is
      woken with an empty bucket. */
  function Least(g: Grp): nat
  {
    Min(1, g.minShare)
  }

  /** An exhausted group is suspended; only a group that is not suspended can have
      members left to wake. */
  predicate GrpSide(g: Grp, d: Dir)
  {
    (g.bucket.Limit(d) < Least(g) ==> g.Suspended(d)) && (g.Pending(d) ==> !g.Suspended(d))
  }

  ghost predicate GrpOk(g: Grp)
  {
    && g.cfg.Valid() && g.bucket.Within(g.cfg) && NoDup(g.members)
    && g.minShare <= g.cfg.readRate && g.minShare <= g.cfg.writeRate
    && GrpSide(g, Read) && GrpSide(g, Write)
  }

  /** A member suspended for its group will be woken: the group is suspended, or knows
      that it has members left to wake. */
  predicate Watched(v: Bev, groups: seq<Grp>, d: Dir)
  {
    Group in v.Get(d).suspended ==>
      v.group.Some? && v.group.value < |groups| && (groups[v.group.value].Suspended(d) || groups[v.group.value].Pending(d))
  }

  ghost predicate BevsOk(bevs: seq<Bev>)
  {
    forall i :: 0 <= i < |bevs| ==> BevOk(bevs[i])
  }

  ghost predicate WatchedAll(bevs: seq<Bev>, groups: seq<Grp>)
  {
    forall i :: 0 <= i < |bevs| ==> Watched(bevs[i], groups, Read) && Watched(bevs[i], groups, Write)
  }

  ghost predicate GroupsOk(groups: seq<Grp>)
  {
    forall g :: 0 <= g < |groups| ==> GrpOk(groups[g])
  }

  ghost predicate IsMember(bevs: seq<Bev>, i: nat, g: nat)
  {
    i < |bevs| && bevs[i].group == Some(g)
  }

  /** Bufferevents and groups agree on who is in which group. */
  ghost predicate MembersOk(bevs: seq<Bev>, groups: seq<Grp>)
  {
    && (forall g :: 0 <= g < |groups| ==> forall i :: i in groups[g].members <==> IsMember(bevs, i, g))
    && (forall i :: 0 <= i < |bevs| && bevs[i].group.Some? ==> bevs[i].group.value < |groups|)
  }

  /** Everything about the bufferevents, given the groups. */
  ghost predicate AllOk(bevs: seq<Bev>, groups: seq<Grp>)
  {
    BevsOk(bevs) && MembersOk(bevs, groups) && WatchedAll(bevs, groups)
  }

  lemma BevStep(bevs: seq<Bev>, groups: seq<Grp>, i: nat, v: Bev)
    requires AllOk(bevs, groups) && i < |bevs| && BevOk(v) && v.group == bevs[i].group
    requires Watched(v, groups, Read) && Watched(v, groups, Write)
    ensures AllOk(bevs[i := v], groups)
  {
    hide BevOk, Watched;
    var bs := bevs[i := v];
    forall g | 0 <= g < |groups|
      ensures forall j :: j in groups[g].members <==> IsMember(bs, j, g)
    {
      assert forall j :: IsMember(bs, j, g) <==> IsMember(bevs, j, g);
    }
  }

  lemma BevAt(bevs: seq<Bev>, groups: seq<Grp>, i: nat)
    requires AllOk(bevs, groups) && i < |bevs|
    ensures BevOk(bevs[i]) && Watched(bevs[i], groups, Read) && Watched(bevs[i], groups, Write)
    ensures bevs[i].group.Some? ==> bevs[i].group.value < |groups| && i in groups[bevs[i].group.value].members
  {
    if bevs[i].group.Some? {
      assert IsMember(bevs, i, bevs[i].group.value);
    }
  }

  /** A group may change as long as its members' flags stay watched. */
  lemma GroupStep(bevs: seq<Bev>, groups: seq<Grp>, g: nat, grp: Grp)
    requires AllOk(bevs, groups) && g < |groups| && grp.members == groups[g].members
    requires forall d :: groups[g].Suspended(d) || groups[g].Pending(d) ==> grp.Suspended(d) || grp.Pending(d)
    ensures AllOk(bevs, groups[g := grp])
  {
    hide BevOk;
    var gs := groups[g := grp];
    forall i | 0 <= i < |bevs|
      ensures Watched(bevs[i], gs, Read) && Watched(bevs[i], gs, Write)
    {
      assert Watched(bevs[i], groups, Read) && Watched(bevs[i], groups, Write);
    }
  }

  lemma MemberOf(bevs: seq<Bev>, groups: seq<Grp>, g: nat, k: nat)
    requires AllOk(bevs, groups) && g < |groups| && k < |groups[g].members|
    ensures groups[g].members[k] < |bevs| && bevs[groups[g].members[k]].group == Some(g)
  {
    assert groups[g].members[k] in groups[g].members;
    assert IsMember(bevs, groups[g].members[k], g);
  }

  /** Suspending or unsuspending a side for its group leaves the bucket's business alone. */
  lemma SideStep(v: Bev, groups: seq<Grp>, d: Dir, s: Side)
    requires BevOk(v) && SideOk(s) && (Bandwidth in s.suspended <==> Bandwidth in v.Get(d).suspended)
    requires Watched(v, groups, Read) && Watched(v, groups, Write) && Watched(v.Put(d, s), groups, d)
    ensures BevOk(v.Put(d, s)) && Watched(v.Put(d, s), groups, Read) && Watched(v.Put(d, s), groups, Write)
    ensures v.Put(d, s).group == v.group && v.Put(d, s).Get(d) == s
  {
  }

  class Limiter {
    var bevs: seq<Bev>
    var groups: seq<Grp>

    ghost predicate Valid()
      reads this
    {
      AllOk(bevs, groups) && GroupsOk(groups)
    }

    constructor ()
      ensures Valid() && bevs == [] && groups == []
    {
      bevs, groups := [], [];
    }

    /** Suspends or wakes side d of bufferevent i for its group. */
    method Mark(i: nat, d: Dir, on: bool, ghost gs: seq<Grp>)
      requires AllOk(bevs, gs) && i < |bevs|
      requires on ==> bevs[i].group.Some? && bevs[i].group.value < |gs|
                      && (gs[bevs[i].group.value].Suspended(d) || gs[bevs[i].group.value].Pending(d))
      modifies this`bevs
      ensures AllOk(bevs, gs) && |bevs| == |old(bevs)|
      ensures bevs == old(bevs)[i := old(bevs[i]).Put(d, if on then Suspend(old(bevs[i]).Get(d), Group) else Unsuspend(old(bevs[i]).Get(d), Group))]
      ensures Group in bevs[i].Get(d).suspended <==> on
    {
      hide AllOk, BevOk, Suspend, Unsuspend;
      var v := bevs[i];
      BevAt(bevs, gs, i);
      Sides(v, d);
      SuspendOk(v.Get(d), Group);
      OtherReasons(v.Get(d), Group, Bandwidth);
      var s := if on then Suspend(v.Get(d), Group) else Unsuspend(v.Get(d), Group);
      SideStep(v, gs, d, s);
      BevStep(bevs, gs, i, v.Put(d, s));
      bevs := bevs[i := v.Put(d, s)];
    }
  
    /** bev_group_suspend_reading_ and bev_group_suspend_writing_, for a group whose new
        bucket is given; the members in `busy` cannot be locked. */
    method GroupSuspend(g: nat, d: Dir, bucket: Bucket, busy: set<nat>)
      requires Valid() && g < |groups| && bucket.Within(groups[g].cfg)
      requires forall x :: x != d ==> bucket.Limit(x) == groups[g].bucket.Limit(x)
      modifies this`bevs, this`groups
      ensures Valid() && |bevs| == |old(bevs)|
      ensures groups == old(groups)[g := old(groups[g]).(bucket := bucket).Put(d, true, false)]
      ensures forall i :: 0 <= i < |bevs| && bevs[i].group == Some(g) && i !in busy ==> Group in bevs[i].Get(d).suspended
      ensures SameExcept(old(bevs), bevs, g, d) && Untouched(old(bevs), bevs, busy)
    {
      hide AllOk, GroupsOk, BevOk, GrpOk;
      var grp := groups[g].(bucket := bucket).Put(d, true, false);
      GrpAt(groups, g);
      SuspendedOk(groups[g], d, bucket);
      GroupStep(bevs, groups, g, grp);
      GroupsStep(groups, g, grp);
      groups := groups[g := grp];
      ghost var was := bevs;
      SameSelf(bevs, g, d);
      for k := 0 to |grp.members|
        invariant Valid() && |bevs| == |was| && groups == old(groups)[g := grp]
        invariant SameExcept(was, bevs, g, d) && Untouched(was, bevs, busy)
        invariant forall j :: 0 <= j < k && grp.members[j] !in busy ==>
          grp.members[j] < |bevs| && Group in bevs[grp.members[j]].Get(d).suspended
      {
        var i := grp.members[k];
        MemberOf(bevs, groups, g, k);
        if i !in busy {
          MarkedSame(bevs[i].Get(d));
          SameStep(was, bevs, g, d, i, Suspend(bevs[i].Get(d), Group));
          Mark(i, d, true, groups);
        }
      }
      Everyone(bevs, groups, g);
    }
  
    /** FOREACH_RANDOM_ORDER, one of its two loops: wakes the members from number `from`
        up to number `to`, and says whether one of them could not be locked. */
    method Wake(g: nat, d: Dir, from: nat, to: nat, busy: set<nat>, ghost gs: seq<Grp>)
      returns (again: bool, log: seq<nat>)
      requires AllOk(bevs, gs) && g < |gs| && from <= to <= |gs[g].members|
      requires g < |groups| && groups[g].members == gs[g].members
      modifies this`bevs
      ensures AllOk(bevs, gs) && |bevs| == |old(bevs)|
      ensures SameExcept(old(bevs), bevs, g, d) && Untouched(old(bevs), bevs, busy)
      ensures log == gs[g].members[from..to]
      ensures again <==> exists i :: i in busy && i in gs[g].members[from..to]
      ensures forall k :: from <= k < to && gs[g].members[k] !in busy ==>
                gs[g].members[k] < |bevs| && Group !in bevs[gs[g].members[k]].Get(d).suspended
      ensures forall i :: 0 <= i < |bevs| && Group !in old(bevs)[i].Get(d).suspended ==> Group !in bevs[i].Get(d).suspended
    {
      hide AllOk, BevOk, SameExcept, Suspend, Unsuspend;
      var ms := groups[g].members;
      ghost var was := bevs;
      SameSelf(bevs, g, d);
      again, log := false, [];
      for k := from to to
        invariant AllOk(bevs, gs) && |bevs| == |was| && SameExcept(was, bevs, g, d) && Untouched(was, bevs, busy)
        invariant log == ms[from..k]
        invariant again <==> exists j :: j in busy && j in ms[from..k]
        invariant forall j :: from <= j < k && ms[j] !in busy ==> ms[j] < |bevs| && Group !in bevs[ms[j]].Get(d).suspended
        invariant forall i :: 0 <= i < |bevs| && Group !in was[i].Get(d).suspended ==> Group !in bevs[i].Get(d).suspended
      {
        var i := ms[k];
        MemberOf(bevs, gs, g, k);
        log := log + [i];
        assert ms[from..k + 1] == ms[from..k] + [i];
        if i !in busy {
          MarkedSame(bevs[i].Get(d));
          SameStep(was, bevs, g, d, i, Unsuspend(bevs[i].Get(d), Group));
          Mark(i, d, false, gs);
        } else {
          again := true;
        }
      }
    }

    /** bev_group_unsuspend_reading_ and bev_group_unsuspend_writing_, starting at member
        number `which`: every member that can be locked is woken, and the group remembers
        whether one could not. */
    method GroupUnsuspend(g: nat, d: Dir, which: nat, busy: set<nat>) returns (log: seq<nat>, again: bool)
      requires Valid() && g < |groups| && groups[g].bucket.Limit(d) >= Least(groups[g])
      requires which < |groups[g].members| || (which == 0 && groups[g].members == [])
      modifies this`bevs, this`groups
      ensures Valid() && |bevs| == |old(bevs)|
      ensures SameExcept(old(bevs), bevs, g, d) && Untouched(old(bevs), bevs, busy)
      ensures groups == old(groups)[g := old(groups[g]).Put(d, false, again)]
      ensures again <==> exists i :: i in busy && i in old(groups[g]).members
      ensures log == old(groups[g]).members[which..] + old(groups[g]).members[..which]
      ensures Awake(bevs, g, d, busy)
    {
      hide AllOk, GroupsOk, BevOk, GrpOk, SameExcept, Awake;
      ghost var was, grp := bevs, groups[g];
      ghost var gs := groups[g := grp.Put(d, false, true)];
      var ms := groups[g].members;
      PutTwice(groups, g, d, grp.Pending(d));
      GroupStep(bevs, groups, g, grp.Put(d, false, true));
      groups := groups[g := groups[g].Put(d, false, groups[g].Pending(d))];
      var a, log1 := Wake(g, d, which, |ms|, busy, gs);
      ghost var mid := bevs;
      var c, log2 := Wake(g, d, 0, which, busy, gs);
      SameTrans(was, mid, bevs, g, d);
      log := log1 + log2;
      again := a || c;
      Halves(ms, which);
      GrpAt(old(groups), g);
      AwakeOk(grp, d, again);
      GroupsStep(old(groups), g, grp.Put(d, false, again));
      AllVisited(mid, bevs, gs, g, d, which, busy);
      if !again {
        AllAwake(bevs, gs, g, d, busy);
      }
      ReplaceTwice(old(groups), g, groups[g], grp.Put(d, false, again));
      ReplaceTwice(old(groups), g, gs[g], grp.Put(d, false, again));
      groups := groups[g := groups[g].Put(d, false, again)];
    }
  }

  lemma Halves(ms: seq<nat>, k: nat)
    requires k <= |ms|
    ensures ms[k..|ms|] == ms[k..] && ms[0..k] == ms[..k]
    ensures forall i :: i in ms <==> i in ms[k..] || i in ms[..k]
  {
    assert ms == ms[..k] + ms[k..];
  }

  lemma PutTwice(groups: seq<Grp>, g: nat, d: Dir, p: bool)
    requires g < |groups|
    ensures forall q, x :: groups[g].Put(d, false, q).Put(d, false, x) == groups[g].Put(d, false, x)
    ensures groups[g].Put(d, false, true).members == groups[g].members
    ensures forall x :: groups[g].Suspended(x) || groups[g].Pending(x) ==>
              groups[g].Put(d, false, true).Suspended(x) || groups[g].Put(d, false, true).Pending(x)
  {
  }

  lemma ReplaceTwice(groups: seq<Grp>, g: nat, y: Grp, z: Grp)
    requires g < |groups|
    ensures groups[g := y][g := z] == groups[g := z]
  {
  }

  /** The members of g that could be locked are not suspended for it. */
  ghost predicate Awake(bevs: seq<Bev>, g: nat, d: Dir, busy: set<nat>)
  {
    forall i :: 0 <= i < |bevs| && bevs[i].group == Some(g) && i !in busy ==> Group !in bevs[i].Get(d).suspended
  }

  /** The two loops together reach every member. */
  lemma AllVisited(mid: seq<Bev>, bevs: seq<Bev>, groups: seq<Grp>, g: nat, d: Dir, which: nat, busy: set<nat>)
    requires AllOk(bevs, groups) && g < |groups| && which <= |groups[g].members| && |mid| == |bevs|
    requires forall k :: which <= k < |groups[g].members| && groups[g].members[k] !in busy ==>
               groups[g].members[k] < |mid| && Group !in mid[groups[g].members[k]].Get(d).suspended
    requires forall i :: 0 <= i < |bevs| && Group !in mid[i].Get(d).suspended ==> Group !in bevs[i].Get(d).suspended
    requires forall k :: 0 <= k < which && groups[g].members[k] !in busy ==>
               groups[g].members[k] < |bevs| && Group !in bevs[groups[g].members[k]].Get(d).suspended
    ensures Awake(bevs, g, d, busy)
  {
    Everyone(bevs, groups, g);
  }

  lemma SameTrans(a: seq<Bev>, b: seq<Bev>, c: seq<Bev>, g: nat, d: Dir)
    requires SameExcept(a, b, g, d) && SameExcept(b, c, g, d)
    ensures SameExcept(a, c, g, d)
  {
  }

  lemma AwakeOk(g: Grp, d: Dir, pending: bool)
    requires GrpOk(g) && g.bucket.Limit(d) >= Least(g)
    ensures GrpOk(g.Put(d, false, pending))
  {
    var o := if d == Read then Write else Read;
    assert GrpSide(g, o);
  }

  /** If no member is left to wake, the group need not remember any. */
  lemma AllAwake(bevs: seq<Bev>, groups: seq<Grp>, g: nat, d: Dir, busy: set<nat>)
    requires AllOk(bevs, groups) && g < |groups| && Awake(bevs, g, d, busy)
    requires forall i :: i in busy ==> i !in groups[g].members
    ensures AllOk(bevs, groups[g := groups[g].Put(d, false, false)])
  {
    hide BevOk;
    var gs := groups[g := groups[g].Put(d, false, false)];
    forall i | 0 <= i < |bevs|
      ensures Watched(bevs[i], gs, Read) && Watched(bevs[i], gs, Write)
    {
      BevAt(bevs, groups, i);
    }
  }

  /** A rotation visits every member exactly once. */
  lemma RotationVisitsOnce(members: seq<nat>, which: nat)
    requires NoDup(members) && which <= |members|
    ensures NoDup(members[which..] + members[..which]) && |members[which..] + members[..which]| == |members|
    ensures forall i :: i in members <==> i in members[which..] + members[..which]
  {
    var r := members[which..] + members[..which];
    forall i, j | 0 <= i < j < |r|
      ensures r[i] != r[j]
    {
      var n := |members| - which;
      assert r[i] == if i < n then members[which + i] else members[i - n];
      assert r[j] == if j < n then members[which + j] else members[j - n];
    }
    assert members == members[..which] + members[which..];
  }

  /** Members of g may differ in the flag of direction d; nobody else differs. */
  ghost predicate SameExcept(was: seq<Bev>, now: seq<Bev>, g: nat, d: Dir)
  {
    && |was| == |now|
    && (forall i :: 0 <= i < |was| && was[i].group != Some(g) ==> now[i] == was[i])
    && (forall i :: 0 <= i < |was| ==> now[i] == was[i].Put(d, now[i].Get(d)) && SameButGroup(was[i].Get(d), now[i].Get(d)))
  }

  /** Nothing changes about the bufferevents that cannot be locked. */
  ghost predicate Untouched(was: seq<Bev>, now: seq<Bev>, busy: set<nat>)
  {
    |was| == |now| && forall i :: 0 <= i < |was| && i in busy ==> now[i] == was[i]
  }

  predicate SameButGroup(s: Side, t: Side)
  {
    s.enabled == t.enabled && s.suspended - {Group} == t.suspended - {Group}
  }

  lemma MarkedSame(s: Side)
    ensures SameButGroup(s, Suspend(s, Group)) && SameButGroup(s, Unsuspend(s, Group))
  {
  }

  lemma SameSelf(bevs: seq<Bev>, g: nat, d: Dir)
    ensures SameExcept(bevs, bevs, g, d)
  {
  }

  lemma SameStep(was: seq<Bev>, now: seq<Bev>, g: nat, d: Dir, i: nat, s: Side)
    requires SameExcept(was, now, g, d) && i < |now| && now[i].group == Some(g) && SameButGroup(now[i].Get(d), s)
    ensures SameExcept(was, now[i := now[i].Put(d, s)], g, d)
  {
  }

  /** What others than the rate limiter want of one direction of a bufferevent: whether it
      is enabled, and why it is suspended besides bandwidth. */
  datatype Wish = Wish(enabled: bool, held: set<Reason>)

  function WishOf(s: Side): Wish
  {
    Wish(s.enabled, s.suspended - {Bandwidth, Group})
  }

  predicate SameWish(u: Bev, v: Bev)
  {
    WishOf(v.r) == WishOf(u.r) && WishOf(v.w) == WishOf(u.w)
  }

  ghost predicate KeepsWishes(was: seq<Bev>, now: seq<Bev>)
  {
    |now| == |was| && forall i :: 0 <= i < |was| ==> SameWish(was[i], now[i])
  }

  /** Nothing changes about the own limit of a bufferevent. */
  predicate SameLimit(u: Bev, v: Bev)
  {
    && v.cfg == u.cfg && v.bucket == u.bucket && v.timer == u.timer
    && (Bandwidth in v.r.suspended <==> Bandwidth in u.r.suspended)
    && (Bandwidth in v.w.suspended <==> Bandwidth in u.w.suspended)
  }

  lemma WishKept(s: Side, what: Reason)
    requires what == Bandwidth || what == Group
    ensures WishOf(Suspend(s, what)) == WishOf(s) && WishOf(Unsuspend(s, what)) == WishOf(s)
  {
  }

  lemma SameButGroupWish(s: Side, t: Side)
    requires SameButGroup(s, t)
    ensures WishOf(s) == WishOf(t) && (Bandwidth in t.suspended <==> Bandwidth in s.suspended)
  {
    assert s.suspended - {Bandwidth, Group} == (s.suspended - {Group}) - {Bandwidth};
    assert t.suspended - {Bandwidth, Group} == (t.suspended - {Group}) - {Bandwidth};
    assert Bandwidth in s.suspended <==> Bandwidth in s.suspended - {Group};
    assert Bandwidth in t.suspended <==> Bandwidth in t.suspended - {Group};
  }

  lemma SameExceptAt(was: seq<Bev>, now: seq<Bev>, g: nat, d: Dir, i: nat)
    requires SameExcept(was, now, g, d) && i < |was|
    ensures SameWish(was[i], now[i]) && SameLimit(was[i], now[i]) && now[i].group == was[i].group
    ensures forall x :: x != d ==> now[i].Get(x) == was[i].Get(x)
    ensures was[i].group != Some(g) ==> now[i] == was[i]
  {
    SameButGroupWish(was[i].Get(d), now[i].Get(d));
  }

  lemma SameExceptKeeps(was: seq<Bev>, now: seq<Bev>, g: nat, d: Dir)
    requires SameExcept(was, now, g, d)
    ensures KeepsWishes(was, now)
  {
    forall i | 0 <= i < |was|
      ensures SameWish(was[i], now[i])
    {
      SameExceptAt(was, now, g, d, i);
    }
  }

  lemma GrpAt(groups: seq<Grp>, g: nat)
    requires GroupsOk(groups) && g < |groups|
    ensures GrpOk(groups[g])
  {
  }

  lemma GroupsStep(groups: seq<Grp>, g: nat, grp: Grp)
    requires GroupsOk(groups) && g < |groups| && GrpOk(grp)
    ensures GroupsOk(groups[g := grp])
  {
  }

  lemma SuspendedOk(g: Grp, d: Dir, bucket: Bucket)
    requires GrpOk(g) && bucket.Within(g.cfg) && forall x :: x != d ==> bucket.Limit(x) == g.bucket.Limit(x)
    ensures var grp := g.(bucket := bucket).Put(d, true, false);
            && GrpOk(grp) && grp.members == g.members
            && forall x :: g.Suspended(x) || g.Pending(x) ==> grp.Suspended(x) || grp.Pending(x)
  {
    var o := if d == Read then Write else Read;
    assert GrpSide(g, o);
    assert bucket.Limit(o) == g.bucket.Limit(o);
  }

  /** The members of a group, all of them. */
  lemma Everyone(bevs: seq<Bev>, groups: seq<Grp>, g: nat)
    requires AllOk(bevs, groups) && g < |groups|
    ensures forall i :: 0 <= i < |bevs| && bevs[i].group == Some(g) ==>
              exists k :: 0 <= k < |groups[g].members| && groups[g].members[k] == i
  {
    forall i | 0 <= i < |bevs| && bevs[i].group == Some(g)
      ensures exists k :: 0 <= k < |groups[g].members| && groups[g].members[k] == i
    {
      assert IsMember(bevs, i, g);
      assert i in groups[g].members;
    }
  }

  lemma Sides(v: Bev, d: Dir)
    requires BevOk(v)
    ensures SideOk(v.Get(d)) && BucketOk(v, d)
  {
  }

  lemma OtherReasons(s: Side, what: Reason, other: Reason)
    requires what != other
    ensures other in Suspend(s, what).suspended <==> other in s.suspended
    ensures other in Unsuspend(s, what).suspended <==> other in s.suspended
  {
  }
}

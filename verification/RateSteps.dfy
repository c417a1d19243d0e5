/** bufferevent_ratelim.c: the steps that charge and refill buckets. */
module RateSteps {
  import opened Bytes
  import opened Queues
  import opened TokenBucket
  import opened RateLimit

  function Other(d: Dir): Dir
  {
    if d == Read then Write else Read
  }

  /** Replaces bufferevent i by one that differs in nothing its group cares about. */
  method SetBev(l: Limiter, i: nat, v: Bev)
    requires l.Valid() && i < |l.bevs| && BevOk(v) && SameGroupFlags(l.bevs[i], v)
    modifies l`bevs
    ensures l.Valid() && l.bevs == old(l.bevs)[i := v]
  {
    hide AllOk, GroupsOk, BevOk;
    BevAt(l.bevs, l.groups, i);
    BevStep(l.bevs, l.groups, i, v);
    l.bevs := l.bevs[i := v];
  }

  predicate SameGroupFlags(u: Bev, v: Bev)
  {
    && u.group == v.group
    && (Group in u.r.suspended <==> Group in v.r.suspended)
    && (Group in u.w.suspended <==> Group in v.w.suspended)
  }

  /** The own bucket of a bufferevent after a charge. */
  function OwnCharged(v: Bev, d: Dir, bytes: int): Bev
  {
    if v.cfg.None? then v
    else
      var v1 := v.(bucket := v.bucket.With(d, v.bucket.Limit(d) - bytes));
      if v1.bucket.Limit(d) <= 0 then v1.Put(d, Suspend(v1.Get(d), Bandwidth)).(timer := true)
      else if Bandwidth in v1.Get(d).suspended then
        v1.(timer := v1.timer && Bandwidth in v1.Get(Other(d)).suspended).Put(d, Unsuspend(v1.Get(d), Bandwidth))
      else v1
  }

  lemma OwnChargedOk(v: Bev, d: Dir, bytes: int)
    requires BevOk(v) && (v.cfg.Some? ==> v.bucket.Takes(v.cfg.value, d, bytes))
    ensures BevOk(OwnCharged(v, d, bytes)) && SameGroupFlags(v, OwnCharged(v, d, bytes))
  {
    SuspendOk(v.Get(d), Bandwidth);
    OtherReasons(v.Get(d), Bandwidth, Group);
  }

  /** The own bucket of a bufferevent after an update. */
  function OwnUpdated(v: Bev, ms: nat): Bev
    requires v.cfg.Some? ==> v.cfg.value.msec != 0
  {
    if v.cfg.None? then v else v.(bucket := Updated(v.bucket, v.cfg.value, TickOf(ms, v.cfg.value)))
  }

  lemma OwnUpdatedOk(v: Bev, ms: nat)
    requires BevOk(v)
    ensures BevOk(OwnUpdated(v, ms)) && SameGroupFlags(v, OwnUpdated(v, ms))
  {
    if v.cfg.Some? {
      var n := Credited(v.bucket.last, TickOf(ms, v.cfg.value));
      RefillUp(v.bucket.read, v.cfg.value.readMax, v.cfg.value.readRate, n);
      RefillUp(v.bucket.write, v.cfg.value.writeMax, v.cfg.value.writeRate, n);
    }
  }

  /** The bucket is updated; a side stays suspended for it, and the timer set, exactly as long
      as it is exhausted. Nothing else changes but whether the backend is on. */
  predicate Refilled(u: Bev, v: Bev, ms: nat)
  {
    && SameWish(u, v) && SameGroupFlags(u, v)
    && if u.cfg.None? then v == u.(timer := false)
       else
         && u.cfg.value.msec != 0
         && v.cfg == u.cfg && v.bucket == Updated(u.bucket, u.cfg.value, TickOf(ms, u.cfg.value))
         && (forall d :: Bandwidth in v.Get(d).suspended <==> Bandwidth in u.Get(d).suspended && v.bucket.Limit(d) <= 0)
         && (v.timer <==> Bandwidth in v.r.suspended || Bandwidth in v.w.suspended)
  }

  /** bev_refill_callback_: the sides whose bucket has recovered are woken, and the timer
      is set again exactly if one has not. */
  method RefillTimer(l: Limiter, i: nat, ms: nat)
    requires l.Valid() && i < |l.bevs|
    modifies l`bevs
    ensures l.Valid() && |l.bevs| == |old(l.bevs)|
    ensures l.bevs == old(l.bevs)[i := l.bevs[i]] && Refilled(old(l.bevs[i]), l.bevs[i], ms)
  {
    hide AllOk, GroupsOk, Updated, WishOf, Recovered;
    BevAt(l.bevs, l.groups, i);
    var v := l.bevs[i];
    if v.cfg.None? {
      SetBev(l, i, v.(timer := false));
      return;
    }
    OwnUpdatedOk(v, ms);
    var b, _ := Update(v.bucket, v.cfg.value, TickOf(ms, v.cfg.value));
    var r, w := Recovered(v.r, b.read), Recovered(v.w, b.write);
    RecoveredOk(v.r, b.read);
    RecoveredOk(v.w, b.write);
    var again := Bandwidth in r.suspended || Bandwidth in w.suspended;
    SetBev(l, i, v.(r := r, w := w, bucket := b, timer := again));
  }

  lemma RefilledWish(u: Bev, v: Bev, ms: nat)
    requires Refilled(u, v, ms)
    ensures SameWish(u, v)
  {
  }

  /** bev_refill_callback_: wakes a side if its bucket has recovered. */
  function Recovered(s: Side, limit: int): Side
  {
    if Bandwidth in s.suspended && limit > 0 then Unsuspend(s, Bandwidth) else s
  }

  lemma RecoveredOk(s: Side, limit: int)
    requires SideOk(s)
    ensures SideOk(Recovered(s, limit))
    ensures Group in Recovered(s, limit).suspended <==> Group in s.suspended
    ensures Bandwidth in Recovered(s, limit).suspended <==> Bandwidth in s.suspended && limit <= 0
    ensures WishOf(Recovered(s, limit)) == WishOf(s)
  {
    WishKept(s, Bandwidth);
    SuspendOk(s, Bandwidth);
    OtherReasons(s, Bandwidth, Group);
  }

  /** A group that is charged, suspended or woken from here on. */
  method ChargeGroup(l: Limiter, g: nat, d: Dir, bytes: int, which: nat, busy: set<nat>)
    requires l.Valid() && g < |l.groups| && l.groups[g].bucket.Takes(l.groups[g].cfg, d, bytes)
    requires which < |l.groups[g].members| || (which == 0 && l.groups[g].members == [])
    modifies l`bevs, l`groups
    ensures l.Valid() && |l.bevs| == |old(l.bevs)| && |l.groups| == |old(l.groups)|
    ensures SameExcept(old(l.bevs), l.bevs, g, d) && Untouched(old(l.bevs), l.bevs, busy)
    ensures l.groups == old(l.groups)[g := l.groups[g]] && GroupDebited(old(l.groups[g]), l.groups[g], d, bytes)
    ensures MembersFollow(old(l.groups[g]), l.groups[g], old(l.bevs), l.bevs, g, d, busy)
  {
    hide AllOk, GroupsOk, GrpOk, SameExcept;
    GrpAt(l.groups, g);
    var grp := l.groups[g];
    var b := grp.bucket.With(d, grp.bucket.Limit(d) - bytes);
    ChargedGroup(grp, d, bytes);
    if b.Limit(d) <= 0 {
      l.GroupSuspend(g, d, b, busy);
    } else {
      SameSelf(l.bevs, g, d);
      GroupStep(l.bevs, l.groups, g, grp.(bucket := b));
      GroupsStep(l.groups, g, grp.(bucket := b));
      l.groups := l.groups[g := grp.(bucket := b)];
      if grp.Suspended(d) {
        var _, _ := l.GroupUnsuspend(g, d, which, busy);
      }
    }
  }

  /** A charge takes the bytes out of the bucket of a group, which is then suspended exactly
      if it is exhausted. */
  predicate GroupDebited(u: Grp, v: Grp, d: Dir, bytes: int)
  {
    && v.members == u.members && v.cfg == u.cfg && v.minShare == u.minShare
    && v.bucket.Limit(d) == u.bucket.Limit(d) - bytes && v.bucket.Limit(Other(d)) == u.bucket.Limit(Other(d))
    && v.bucket.last == u.bucket.last && (v.Suspended(d) <==> v.bucket.Limit(d) <= 0)
    && v.Suspended(Other(d)) == u.Suspended(Other(d)) && v.Pending(Other(d)) == u.Pending(Other(d))
  }

  /** The members that can be locked are suspended with their group and woken with it. */
  ghost predicate MembersFollow(u: Grp, v: Grp, was: seq<Bev>, now: seq<Bev>, g: nat, d: Dir, busy: set<nat>)
  {
    if u.Suspended(d) || v.Suspended(d) then
      forall i :: 0 <= i < |now| && now[i].group == Some(g) && i !in busy ==> (Group in now[i].Get(d).suspended <==> v.Suspended(d))
    else now == was
  }

  lemma ChargedGroup(g: Grp, d: Dir, bytes: int)
    requires GrpOk(g) && g.bucket.Takes(g.cfg, d, bytes)
    ensures var b := g.bucket.With(d, g.bucket.Limit(d) - bytes);
            && b.Within(g.cfg) && (forall x :: x != d ==> b.Limit(x) == g.bucket.Limit(x))
            && b.Limit(d) == g.bucket.Limit(d) - bytes
            && (b.Limit(d) > 0 ==> GrpOk(g.(bucket := b)))
  {
    assert GrpSide(g, Read) && GrpSide(g, Write);
  }

  /** Both buckets stay in their ranges. */
  predicate Chargeable(v: Bev, groups: seq<Grp>, d: Dir, bytes: int)
  {
    && (v.cfg.Some? ==> v.bucket.Takes(v.cfg.value, d, bytes))
    && (v.group.Some? && v.group.value < |groups| ==> groups[v.group.value].bucket.Takes(groups[v.group.value].cfg, d, bytes))
  }

  predicate Starts(g: Grp, which: nat)
  {
    which < |g.members| || (which == 0 && g.members == [])
  }

  /** bufferevent_decrement_read_buckets_ and bufferevent_decrement_write_buckets_; a
      negative number of bytes is given back. */
  method Charge(l: Limiter, i: nat, d: Dir, bytes: int, which: nat, busy: set<nat>)
    requires l.Valid() && i < |l.bevs| && Chargeable(l.bevs[i], l.groups, d, bytes)
    requires l.bevs[i].group.Some? && l.bevs[i].group.value < |l.groups| ==> Starts(l.groups[l.bevs[i].group.value], which)
    modifies l`bevs, l`groups
    ensures l.Valid() && |l.bevs| == |old(l.bevs)| && |l.groups| == |old(l.groups)|
    ensures Debited(old(l.bevs[i]), l.bevs[i], d, bytes)
    ensures old(l.bevs[i]).group.None? ==> l.bevs == old(l.bevs)[i := l.bevs[i]] && l.groups == old(l.groups)
    ensures old(l.bevs[i]).group.None? ==> SameGroupFlags(old(l.bevs[i]), l.bevs[i])
    ensures old(l.bevs[i]).group.Some? && old(l.bevs[i]).group.value < |l.groups| ==>
              var g := old(l.bevs[i]).group.value;
              && l.groups == old(l.groups)[g := l.groups[g]] && GroupDebited(old(l.groups)[g], l.groups[g], d, bytes)
              && SameExcept(old(l.bevs)[i := l.bevs[i]], l.bevs, g, d)
              && MembersFollow(old(l.groups)[g], l.groups[g], old(l.bevs)[i := l.bevs[i]], l.bevs, g, d, busy)
    ensures KeepsWishes(old(l.bevs), l.bevs)
  {
    hide AllOk, GroupsOk, BevOk, SameExcept, OwnCharged, Suspend, Unsuspend, Debited, SameWish, SameLimit, GroupDebited;
    BevAt(l.bevs, l.groups, i);
    var v := l.bevs[i];
    OwnChargedOk(v, d, bytes);
    OwnDebited(v, d, bytes);
    SetBev(l, i, OwnCharged(v, d, bytes));
    ghost var was := l.bevs;
    OneKeeps(old(l.bevs), i, was[i]);
    if v.group.Some? {
      ChargeGroup(l, v.group.value, d, bytes, which, busy);
      SameExceptAt(was, l.bevs, v.group.value, d, i);
      SameExceptKeeps(was, l.bevs, v.group.value, d);
      KeepsTwice(old(l.bevs), was, l.bevs);
      DebitedStill(v, was[i], l.bevs[i], d, bytes);
      SameFrom(was, l.bevs, v.group.value, d, i);
      assert was[i := l.bevs[i]] == old(l.bevs)[i := l.bevs[i]];
    }
  }

  /** A charge takes the bytes out of the bucket of a bufferevent that has one. Its side is
      then suspended for its bucket exactly if that is exhausted, and the timer is stopped
      when the last side recovers. Nothing else that suspends the side is touched, nor
      whether it is enabled. */
  predicate Debited(u: Bev, v: Bev, d: Dir, bytes: int)
  {
    && v.cfg == u.cfg && v.group == u.group && v.Get(Other(d)) == u.Get(Other(d)) && SameWish(u, v)
    && if u.cfg.None? then SameLimit(u, v)
       else
         && v.bucket.Limit(d) == u.bucket.Limit(d) - bytes && v.bucket.Limit(Other(d)) == u.bucket.Limit(Other(d))
         && v.bucket.last == u.bucket.last && (Bandwidth in v.Get(d).suspended <==> v.bucket.Limit(d) <= 0)
         && (v.timer <==> if v.bucket.Limit(d) <= 0 then true
                          else if Bandwidth in u.Get(d).suspended then u.timer && Bandwidth in u.Get(Other(d)).suspended
                          else u.timer)
  }

  lemma OwnDebited(v: Bev, d: Dir, bytes: int)
    requires BevOk(v)
    ensures Debited(v, OwnCharged(v, d, bytes), d, bytes) && SameWish(v, OwnCharged(v, d, bytes))
  {
    WishKept(v.Get(d), Bandwidth);
  }

  lemma DebitedStill(u: Bev, v: Bev, v': Bev, d: Dir, bytes: int)
    requires Debited(u, v, d, bytes) && SameWish(v, v') && SameLimit(v, v') && v'.group == v.group
    requires forall x :: x != d ==> v'.Get(x) == v.Get(x)
    ensures Debited(u, v', d, bytes)
  {
  }

  lemma OneKeeps(bevs: seq<Bev>, i: nat, v: Bev)
    requires i < |bevs| && SameWish(bevs[i], v)
    ensures KeepsWishes(bevs, bevs[i := v])
  {
  }

  lemma KeepsTwice(a: seq<Bev>, b: seq<Bev>, c: seq<Bev>)
    requires KeepsWishes(a, b) && KeepsWishes(b, c)
    ensures KeepsWishes(a, c)
  {
  }

  lemma SameFrom(was: seq<Bev>, now: seq<Bev>, g: nat, d: Dir, i: nat)
    requires SameExcept(was, now, g, d) && i < |was|
    ensures SameExcept(was[i := now[i]], now, g, d)
  {
  }

  /** bufferevent_get_rlim_max_ */
  method GetMax(l: Limiter, i: nat, d: Dir, maxSingle: nat, ms: nat) returns (m: int)
    requires l.Valid() && i < |l.bevs|
    modifies l`bevs
    ensures l.Valid() && |l.bevs| == |old(l.bevs)|
    ensures l.bevs[i].bucket == OwnUpdated(old(l.bevs[i]), ms).bucket && l.bevs[i].cfg == old(l.bevs[i]).cfg
    ensures l.bevs == old(l.bevs)[i := l.bevs[i]] && SameWish(old(l.bevs[i]), l.bevs[i])
    ensures SameLimit(OwnUpdated(old(l.bevs[i]), ms), l.bevs[i]) && l.bevs[i].group == old(l.bevs[i]).group
    ensures m >= 0
    ensures l.bevs[i].cfg.Some? ==> m <= Positive(l.bevs[i].bucket.Limit(d))
    ensures l.bevs[i].cfg.None? ==> m <= maxSingle
    ensures l.bevs[i].group.Some? && l.bevs[i].group.value < |l.groups| ==>
              var g := l.groups[l.bevs[i].group.value];
              if g.Suspended(d) then m == 0 && Group in l.bevs[i].Get(d).suspended
              else m <= Max(g.bucket.Limit(d), g.minShare)
    ensures var own := if l.bevs[i].cfg.Some? then l.bevs[i].bucket.Limit(d) else maxSingle;
            && (l.bevs[i].group.None? ==> m == Positive(own))
            && (l.bevs[i].group.Some? ==>
                  && l.bevs[i].group.value < |l.groups|
                  && var g := l.groups[l.bevs[i].group.value];
                     g.Suspended(d) ||
                     (g.members != [] && m == Positive(Min(own, Max(g.bucket.Limit(d) / |g.members|, g.minShare)))))
  {
    hide AllOk, GroupsOk, BevOk, Updated, Suspend, Unsuspend, WishOf;
    BevAt(l.bevs, l.groups, i);
    m := maxSingle;
    var v := l.bevs[i];
    if v.cfg.Some? {
      CfgAt(v);
      OwnUpdatedOk(v, ms);
      var b, _ := Update(v.bucket, v.cfg.value, TickOf(ms, v.cfg.value));
      SetBev(l, i, v.(bucket := b));
      m := b.Limit(d);
    }
    if v.group.Some? {
      BevAt(l.bevs, l.groups, i);
      var g := l.groups[v.group.value];
      var share := 0;
      if g.Suspended(d) {
        WishKept(l.bevs[i].Get(d), Group);
        OtherReasons(l.bevs[i].Get(d), Group, Bandwidth);
        l.Mark(i, d, true, l.groups);
      } else {
        ShareAt(l, v.group.value, d);
        share := g.bucket.Limit(d) / |g.members|;
        ShareBound(g.bucket.Limit(d), |g.members|);
        if share < g.minShare {
          share := g.minShare;
        }
      }
      if m > share {
        m := share;
      }
    }
    if m < 0 {
      m := 0;
    }
  }

  lemma CfgAt(v: Bev)
    requires BevOk(v) && v.cfg.Some?
    ensures v.cfg.value.Valid() && v.bucket.Within(v.cfg.value)
  {
  }

  lemma UsableCfg(v: Bev)
    requires BevOk(v)
    ensures v.cfg.Some? ==> v.cfg.value.msec != 0
  {
  }

  lemma ShareAt(l: Limiter, g: nat, d: Dir)
    requires l.Valid() && g < |l.groups| && !l.groups[g].Suspended(d)
    ensures l.groups[g].bucket.Limit(d) >= Least(l.groups[g])
  {
    GrpAt(l.groups, g);
    assert GrpSide(l.groups[g], d);
  }

  lemma ShareBound(x: int, n: nat)
    requires x >= 0 && n > 0
    ensures 0 <= x / n <= x
  {
    DivLess(x, n, 0);
    DivLess(x, n, x + 1);
    MulLe(x + 1, 1, n);
  }

  lemma GroupUpdatedOk(g: Grp, ms: nat)
    requires GrpOk(g)
    ensures GrpOk(g.(bucket := Updated(g.bucket, g.cfg, TickOf(ms, g.cfg))))
  {
    var n := Credited(g.bucket.last, TickOf(ms, g.cfg));
    RefillUp(g.bucket.read, g.cfg.readMax, g.cfg.readRate, n);
    RefillUp(g.bucket.write, g.cfg.writeMax, g.cfg.writeRate, n);
    assert GrpSide(g, Read) && GrpSide(g, Write);
  }

  /** The group had members to wake and is now free to wake them. */
  predicate Wakes(was: Grp, now: Grp, d: Dir)
  {
    (was.Pending(d) || was.Suspended(d)) && !now.Suspended(d)
  }

  lemma AwakeStill(was: seq<Bev>, now: seq<Bev>, g: nat, busy: set<nat>)
    requires SameExcept(was, now, g, Write) && Awake(was, g, Read, busy)
    ensures Awake(now, g, Read, busy)
  {
    forall i | 0 <= i < |now| && now[i].group == Some(g) && i !in busy
      ensures Group !in now[i].Get(Read).suspended
    {
      assert now[i] == was[i].Put(Write, now[i].Get(Write));
    }
  }

  /** bev_group_refill_callback_, one direction */
  method WakeGroup(l: Limiter, g: nat, d: Dir, which: nat, busy: set<nat>)
    requires l.Valid() && g < |l.groups|
    requires which < |l.groups[g].members| || (which == 0 && l.groups[g].members == [])
    modifies l`bevs, l`groups
    ensures l.Valid() && |l.bevs| == |old(l.bevs)| && |l.groups| == |old(l.groups)|
    ensures var u, v := old(l.groups[g]), l.groups[g];
            && v.bucket == u.bucket && v.members == u.members && v.minShare == u.minShare
            && (v.Suspended(d) <==> u.Suspended(d) && u.bucket.Limit(d) < u.minShare)
            && v.Suspended(Other(d)) == u.Suspended(Other(d)) && v.Pending(Other(d)) == u.Pending(Other(d))
    ensures l.groups == old(l.groups)[g := l.groups[g]] && l.groups[g].cfg == old(l.groups[g]).cfg
    ensures Wakes(old(l.groups[g]), l.groups[g], d) ==> Awake(l.bevs, g, d, busy)
    ensures SameExcept(old(l.bevs), l.bevs, g, d) && Untouched(old(l.bevs), l.bevs, busy)
  {
    hide AllOk, GroupsOk, SameExcept, Awake, BevOk;
    SameSelf(l.bevs, g, d);
    GrpAt(l.groups, g);
    var grp := l.groups[g];
    assert GrpSide(grp, d);
    if grp.Pending(d) || (grp.Suspended(d) && grp.bucket.Limit(d) >= grp.minShare) {
      var _, _ := l.GroupUnsuspend(g, d, which, busy);
    }
  }

  /** bev_group_refill_callback_: a suspended direction of the group stays suspended
      exactly as long as its bucket holds less than one share; otherwise every member
      that can be locked is woken. */
  method GroupRefill(l: Limiter, g: nat, ms: nat, first: nat, second: nat, busy: set<nat>)
    requires l.Valid() && g < |l.groups|
    requires Max(first, second) < |l.groups[g].members| || (first == second == 0 && l.groups[g].members == [])
    modifies l`bevs, l`groups
    ensures l.Valid() && |l.bevs| == |old(l.bevs)| && |l.groups| == |old(l.groups)|
    ensures l.groups == old(l.groups)[g := l.groups[g]] && KeepsWishes(old(l.bevs), l.bevs)
    ensures Untouched(old(l.bevs), l.bevs, busy)
    ensures forall i :: 0 <= i < |l.bevs| ==>
              && SameLimit(old(l.bevs)[i], l.bevs[i]) && l.bevs[i].group == old(l.bevs)[i].group
              && (old(l.bevs)[i].group != Some(g) ==> l.bevs[i] == old(l.bevs)[i])
    ensures var u, v := old(l.groups[g]), l.groups[g];
            && v.members == u.members && v.cfg == u.cfg && v.minShare == u.minShare
            && v.bucket == Updated(u.bucket, u.cfg, TickOf(ms, u.cfg))
            && (forall d :: v.Suspended(d) <==> u.Suspended(d) && v.bucket.Limit(d) < u.minShare)
            && (forall d :: Wakes(u, v, d) ==> Awake(l.bevs, g, d, busy))
            && (forall d :: Credited(u.bucket.last, TickOf(ms, u.cfg)) * u.cfg.Rate(d) >= u.minShare - u.bucket.Limit(d) ==> !v.Suspended(d))
  {
    hide AllOk, GroupsOk, Updated, GrpOk, Awake, SameExcept;
    GrpAt(l.groups, g);
    var grp := l.groups[g];
    GrpCfg(grp);
    GroupUpdatedOk(grp, ms);
    EnoughTicks(grp, TickOf(ms, grp.cfg), Read);
    EnoughTicks(grp, TickOf(ms, grp.cfg), Write);
    var b, _ := Update(grp.bucket, grp.cfg, TickOf(ms, grp.cfg));
    GroupStep(l.bevs, l.groups, g, grp.(bucket := b));
    GroupsStep(l.groups, g, grp.(bucket := b));
    l.groups := l.groups[g := grp.(bucket := b)];
    WakeGroup(l, g, Read, first, busy);
    ghost var mid := l.bevs;
    WakeGroup(l, g, Write, second, busy);
    if Awake(mid, g, Read, busy) {
      AwakeStill(mid, l.bevs, g, busy);
    }
    SameBoth(old(l.bevs), mid, l.bevs, g);
  }

  lemma SameBoth(was: seq<Bev>, mid: seq<Bev>, now: seq<Bev>, g: nat)
    requires SameExcept(was, mid, g, Read) && SameExcept(mid, now, g, Write)
    ensures KeepsWishes(was, now)
    ensures forall i :: 0 <= i < |was| ==> SameLimit(was[i], now[i]) && now[i].group == was[i].group
    ensures forall i :: 0 <= i < |was| && was[i].group != Some(g) ==> now[i] == was[i]
  {
    hide SameExcept, SameWish;
    SameExceptKeeps(was, mid, g, Read);
    SameExceptKeeps(mid, now, g, Write);
    KeepsTwice(was, mid, now);
    forall i | 0 <= i < |was|
      ensures SameLimit(was[i], now[i]) && now[i].group == was[i].group && (was[i].group != Some(g) ==> now[i] == was[i])
    {
      SameExceptAt(was, mid, g, Read, i);
      SameExceptAt(mid, now, g, Write, i);
    }
  }

  lemma GrpCfg(g: Grp)
    requires GrpOk(g)
    ensures g.cfg.Valid() && g.bucket.Within(g.cfg)
  {
  }

  /** After enough ticks a group's bucket holds a share. */
  lemma EnoughTicks(g: Grp, now: nat, d: Dir)
    requires GrpOk(g)
    ensures Credited(g.bucket.last, now) * g.cfg.Rate(d) >= g.minShare - g.bucket.Limit(d) ==>
              Updated(g.bucket, g.cfg, now).Limit(d) >= g.minShare
  {
  }

  /** ev_token_bucket_init_: a new bucket holds one tick's worth; one that is given new
      limits is only clipped. */
  function Initialized(b: Bucket, cfg: Cfg, now: nat, reinitialize: bool): Bucket
  {
    if reinitialize then Bucket(Min(b.read, cfg.readMax), Min(b.write, cfg.writeMax), b.last)
    else Bucket(cfg.readRate, cfg.writeRate, now)
  }

  lemma InitializedIs(b: Bucket, cfg: Cfg, now: nat, d: Dir)
    ensures var c := Initialized(b, cfg, now, false); c.Limit(d) == cfg.Rate(d) && c.last == now
    ensures var c := Initialized(b, cfg, now, true);
            c.last == b.last && c.Limit(d) <= cfg.Maximum(d) && c.Limit(d) <= b.Limit(d) && (c.Limit(d) == cfg.Maximum(d) || c.Limit(d) == b.Limit(d))
  {
  }

  function Judged(s: Side, limit: int): Side
  {
    if limit > 0 then Unsuspend(s, Bandwidth) else Suspend(s, Bandwidth)
  }

  /** bufferevent_set_rate_limit; `same` says that cfg is the configuration in use. It
      aborts, before anything is changed, exactly if the tick cannot be computed: so it can
      for every configuration in use. */
  method SetRateLimit(l: Limiter, i: nat, cfg: Option<Cfg>, same: bool, ms: nat) returns (aborted: bool)
    requires l.Valid() && i < |l.bevs| && (cfg.Some? ==> cfg.value.Accepted())
    requires same ==> l.bevs[i].cfg == cfg
    modifies l`bevs
    ensures l.Valid() && |l.bevs| == |old(l.bevs)|
    ensures aborted <==> cfg.Some? && TickAt(ms, cfg.value).None?
    ensures l.bevs == old(l.bevs)[i := l.bevs[i]] && SameWish(old(l.bevs[i]), l.bevs[i]) && SameGroupFlags(old(l.bevs[i]), l.bevs[i])
    ensures if aborted then l.bevs == old(l.bevs) else l.bevs[i].cfg == cfg
    ensures cfg.None? ==> Bandwidth !in l.bevs[i].r.suspended && Bandwidth !in l.bevs[i].w.suspended && !l.bevs[i].timer
    ensures cfg.Some? && same ==> l.bevs == old(l.bevs)
    ensures cfg.Some? && !same && !aborted ==>
              && l.bevs[i].bucket == Initialized(old(l.bevs[i]).bucket, cfg.value, TickOf(ms, cfg.value), old(l.bevs[i]).cfg.Some?)
              && (forall d :: Bandwidth in l.bevs[i].Get(d).suspended <==> l.bevs[i].bucket.Limit(d) <= 0)
              && (l.bevs[i].timer <==> l.bevs[i].bucket.read <= 0 || l.bevs[i].bucket.write <= 0)
  {
    hide AllOk, GroupsOk, WishOf;
    BevAt(l.bevs, l.groups, i);
    var v := l.bevs[i];
    WishKept(v.r, Bandwidth);
    WishKept(v.w, Bandwidth);
    SuspendOk(v.r, Bandwidth);
    SuspendOk(v.w, Bandwidth);
    OtherReasons(v.r, Bandwidth, Group);
    OtherReasons(v.w, Bandwidth, Group);
    if cfg.None? {
      SetBev(l, i, v.(cfg := None, r := Unsuspend(v.r, Bandwidth), w := Unsuspend(v.w, Bandwidth), timer := false));
      return false;
    }
    var tick := TickAt(ms, cfg.value);
    if tick.None? {
      return true;
    }
    aborted := false;
    if same {
      return;
    }
    var b := Initialized(v.bucket, cfg.value, tick.value, v.cfg.Some?);
    var r, w := Judged(v.r, b.read), Judged(v.w, b.write);
    SetBev(l, i, v.(cfg := cfg, bucket := b, r := r, w := w, timer := b.read <= 0 || b.write <= 0));
  }

  /** How many ticks an update at time ms, in ticks of cfg, credits to a bucket that was
      last updated at time t0, in ticks of `was`. */
  function Earned(was: Cfg, t0: nat, cfg: Cfg, ms: nat): nat
    requires was.msec > 0 && cfg.msec > 0
  {
    Credited(t0 / was.msec, ms / cfg.msec)
  }

  /** That the counter has 32 bits only makes no difference. */
  lemma EarnedIs(last: nat, now: nat)
    ensures Credited(last % TWO32, now % TWO32) == Credited(last, now)
  {
    ModSub(now, last);
  }

  /** A bucket that is given a new configuration keeps the tick of its last update, although
      that was counted in ticks of another length. With longer ticks the counter falls
      behind it, and the bucket is not refilled at all until time (t0 / p0 + 1) * p1, where
      it was last updated at t0. */
  lemma StallUntil(was: Cfg, t0: nat, cfg: Cfg, ms: nat)
    requires 0 < was.msec <= cfg.msec && t0 <= ms
    requires t0 / was.msec - t0 / cfg.msec <= INT_MAX + 1 && ms / cfg.msec - t0 / was.msec <= INT_MAX
    ensures Earned(was, t0, cfg, ms) > 0 <==> ms >= (t0 / was.msec + 1) * cfg.msec
  {
    var n, last := ms / cfg.msec, t0 / was.msec;
    DivMono(t0, ms, cfg.msec);
    DivAtLeast(ms, cfg.msec, last + 1);
  }

  lemma DivMono(x: nat, y: nat, m: nat)
    requires m > 0 && x <= y
    ensures x / m <= y / m
  {
    DivAtLeast(y, m, x / m);
    assert x == x / m * m + x % m;
  }

  lemma DivAtLeast(x: nat, m: nat, k: nat)
    requires m > 0
    ensures x / m >= k <==> x >= k * m
  {
    DivLess(x, m, k);
    assert m * k == k * m;
  }

  /** With shorter ticks the counter runs ahead, and the bucket is credited for time that
      has not passed: besides the ticks from t0 on, exactly those by which the two ways of
      counting differ at t0. They are some if and only if t0 is that far from the beginning
      of the clock. */
  lemma Windfall(was: Cfg, t0: nat, cfg: Cfg, ms: nat)
    requires 0 < cfg.msec <= was.msec && t0 <= ms && ms / cfg.msec - t0 / was.msec <= INT_MAX
    ensures Earned(was, t0, cfg, ms) == (ms / cfg.msec - t0 / cfg.msec) + (t0 / cfg.msec - t0 / was.msec)
    ensures ms / cfg.msec >= t0 / cfg.msec >= t0 / was.msec
    ensures t0 / cfg.msec > t0 / was.msec <==> t0 >= (t0 / was.msec + 1) * cfg.msec
  {
    var p := cfg.msec;
    DivLonger(t0, p, was.msec);
    DivMono(t0, ms, p);
    Ahead(was, t0, cfg, ms);
    DivAtLeast(t0, p, t0 / was.msec + 1);
  }

  lemma Ahead(was: Cfg, t0: nat, cfg: Cfg, ms: nat)
    requires was.msec > 0 && cfg.msec > 0 && 0 <= ms / cfg.msec - t0 / was.msec <= INT_MAX
    ensures Earned(was, t0, cfg, ms) == ms / cfg.msec - t0 / was.msec
  {
  }

  lemma DivLonger(x: nat, m: nat, k: nat)
    requires 0 < m <= k
    ensures x / k <= x / m
  {
    var q := x / k;
    assert x == q * k + x % k;
    MulLe(q, m, k);
    DivAtLeast(x, m, q);
  }

  /** bufferevent_set_rate_limit on a bufferevent that already has a limit, and a refill
      later: what the bucket then holds, and whether it is still suspended, depends on the
      ticks that are earned across the change. */
  method ChangeAndRefill(l: Limiter, i: nat, cfg: Cfg, ms: nat, later: nat, ghost t0: nat)
    requires l.Valid() && i < |l.bevs| && cfg.Valid() && l.bevs[i].cfg.Some? && l.bevs[i].cfg.value.msec > 0
    requires l.bevs[i].bucket.last == TickOf(t0, l.bevs[i].cfg.value)
    modifies l`bevs
    ensures l.Valid() && |l.bevs| == |old(l.bevs)|
    ensures var u, v := old(l.bevs[i]), l.bevs[i];
            var n := Earned(u.cfg.value, t0, cfg, later);
            && v.cfg == Some(cfg)
            && forall d ::
                 && v.bucket.Limit(d) == Refill(Min(u.bucket.Limit(d), cfg.Maximum(d)), cfg.Maximum(d), cfg.Rate(d), n)
                 && (Bandwidth in v.Get(d).suspended <==> v.bucket.Limit(d) <= 0)
  {
    hide AllOk, GroupsOk, Credited, Updated, Initialized, Refill;
    EarnedIs(t0 / l.bevs[i].cfg.value.msec, later / cfg.msec);
    ghost var b := l.bevs[i].bucket;
    var _ := SetRateLimit(l, i, Some(cfg), false, ms);
    RefillTimer(l, i, later);
    forall d
      ensures l.bevs[i].bucket.Limit(d) == Refill(Min(b.Limit(d), cfg.Maximum(d)), cfg.Maximum(d), cfg.Rate(d), Credited(b.last, TickOf(later, cfg)))
      ensures Bandwidth in l.bevs[i].Get(d).suspended <==> l.bevs[i].bucket.Limit(d) <= 0
    {
      Changed(b, cfg, ms, TickOf(later, cfg), d);
    }
  }

  lemma Changed(b: Bucket, cfg: Cfg, ms: nat, now: nat, d: Dir)
    requires cfg.msec != 0
    ensures var c := Initialized(b, cfg, TickOf(ms, cfg), true);
            && c.last == b.last && c.Limit(d) == Min(b.Limit(d), cfg.Maximum(d))
            && Updated(c, cfg, now).Limit(d) == Refill(c.Limit(d), cfg.Maximum(d), cfg.Rate(d), Credited(b.last, now)) >= c.Limit(d)
  {
    RefillUp(Min(b.Limit(d), cfg.Maximum(d)), cfg.Maximum(d), cfg.Rate(d), Credited(b.last, now));
  }

  /** A minute of the clock in milliseconds, and a time in the year 2023. */
  const MINUTE := 60000
  const MOMENT := 1_700_000_000_000

  /** A bufferevent with ticks of one second uses up its bucket and is then given ticks of
      one minute: a whole year later it is still suspended. */
  method StalledBucket() returns (l: Limiter)
    ensures l.Valid() && |l.bevs| == 1 && l.bevs[0].bucket.Limit(Read) == 0 && Bandwidth in l.bevs[0].Get(Read).suspended
    ensures l.bevs[0].cfg == Some(Cfg(10, 10, 10, 10, MINUTE))
  {
    hide AllOk, GroupsOk, TickOf, Updated;
    var second, minute := Cfg(10, 10, 10, 10, 1000), Cfg(10, 10, 10, 10, MINUTE);
    l := new Limiter();
    NewBev(l, true, true);
    var _ := SetRateLimit(l, 0, Some(second), false, MOMENT);
    Charge(l, 0, Read, 10, 0, {});
    assert Earned(second, MOMENT, minute, MOMENT + 365 * 24 * 60 * MINUTE) == 0;
    ChangeAndRefill(l, 0, minute, MOMENT, MOMENT + 365 * 24 * 60 * MINUTE, MOMENT);
  }

  /** The other way round: with a second instead of a minute, a bucket that was used up is
      full again at once, without any time going by. */
  method FloodedBucket() returns (l: Limiter, before: int)
    ensures l.Valid() && |l.bevs| == 1 && before == 0 && l.bevs[0].bucket.Limit(Read) == 1_000_000
    ensures Bandwidth !in l.bevs[0].Get(Read).suspended
  {
    hide AllOk, GroupsOk, TickOf, Updated;
    var second, minute := Cfg(10, 1_000_000, 10, 1_000_000, 1000), Cfg(10, 1_000_000, 10, 1_000_000, MINUTE);
    l := new Limiter();
    NewBev(l, true, true);
    var _ := SetRateLimit(l, 0, Some(minute), false, MOMENT);
    Charge(l, 0, Read, 10, 0, {});
    before := l.bevs[0].bucket.Limit(Read);
    assert Earned(minute, MOMENT, second, MOMENT) == MOMENT / 1000 - MOMENT / MINUTE;
    ChangeAndRefill(l, 0, second, MOMENT, MOMENT, MOMENT);
  }

  /** ev_token_bucket_cfg_new followed by bufferevent_set_rate_limit: what is refused, and
      when the library divides by zero. */
  method SetNewLimit(l: Limiter, i: nat, readRate: nat, readMax: nat, writeRate: nat, writeMax: nat, sec: nat, usec: nat, ms: nat)
    returns (accepted: bool, aborted: bool)
    requires l.Valid() && i < |l.bevs| && usec < 1_000_000
    modifies l`bevs
    ensures l.Valid() && |l.bevs| == |old(l.bevs)|
    ensures accepted <==> 1 <= readRate <= readMax <= RATE_LIMIT_MAX && 1 <= writeRate <= writeMax <= RATE_LIMIT_MAX
    ensures aborted <==> accepted && Micros(sec, usec) % (1000 * TWO32) < 1000
    ensures !accepted || aborted ==> l.bevs == old(l.bevs)
  {
    hide AllOk, GroupsOk, Initialized, MsecPerTick, Micros;
    var cfg := CfgNew(readRate, readMax, writeRate, writeMax, Timeval(sec, usec));
    if cfg.None? {
      return false, false;
    }
    UsableIff(readRate, readMax, writeRate, writeMax, sec, usec, ms);
    accepted := true;
    aborted := SetRateLimit(l, i, cfg, false, ms);
  }

  /** Ticks of 999 microseconds, of 2^29 seconds, and of 2^32 milliseconds. */
  method ZeroTicks() returns (l: Limiter, a: bool, b: bool, c: bool)
    ensures a && b && c && l.Valid() && |l.bevs| == 1 && l.bevs[0].cfg.None?
  {
    hide AllOk, GroupsOk;
    l := new Limiter();
    NewBev(l, true, true);
    var ok;
    ok, a := SetNewLimit(l, 0, 10, 10, 10, 10, 0, 999, MOMENT);
    ok, b := SetNewLimit(l, 0, 10, 10, 10, 10, 536_870_912, 0, MOMENT);
    ok, c := SetNewLimit(l, 0, 10, 10, 10, 10, 4_294_967, 296_000, MOMENT);
  }

  /** bufferevent_remove_from_rate_limit_group */
  method RemoveFromGroup(l: Limiter, i: nat)
    requires l.Valid() && i < |l.bevs|
    modifies l`bevs, l`groups
    ensures l.Valid() && |l.bevs| == |old(l.bevs)| && |l.groups| == |old(l.groups)|
    ensures l.bevs[i].group.None? && Group !in l.bevs[i].r.suspended && Group !in l.bevs[i].w.suspended
    ensures l.bevs == old(l.bevs)[i := l.bevs[i]] && SameWish(old(l.bevs[i]), l.bevs[i]) && SameLimit(old(l.bevs[i]), l.bevs[i])
    ensures old(l.bevs[i]).group.None? ==> l.groups == old(l.groups)
    ensures old(l.bevs[i]).group.Some? && old(l.bevs[i]).group.value < |l.groups| ==>
              var g := old(l.bevs[i]).group.value;
              l.groups == old(l.groups)[g := old(l.groups)[g].(members := Remove(old(l.groups)[g].members, i))]
  {
    hide AllOk, GroupsOk, BevOk, Suspend, Unsuspend, WishOf;
    BevAt(l.bevs, l.groups, i);
    var v := l.bevs[i];
    var v' := v.(group := None, r := Unsuspend(v.r, Group), w := Unsuspend(v.w, Group));
    LeftOk(v);
    if v.group.Some? {
      var g := v.group.value;
      var grp := l.groups[g];
      GrpAt(l.groups, g);
      var ms := Remove(grp.members, i);
      MembersDistinct(grp);
      RemoveFacts(grp.members, i);
      FewerMembers(grp, ms);
      GroupsStep(l.groups, g, grp.(members := ms));
      Leave(l.bevs, l.groups, i, v', ms);
      l.groups := l.groups[g := grp.(members := ms)];
    } else {
      LoneStep(l.bevs, l.groups, i, v');
    }
    l.bevs := l.bevs[i := v'];
  }

  lemma MembersDistinct(g: Grp)
    requires GrpOk(g)
    ensures NoDup(g.members)
  {
  }

  lemma FewerMembers(g: Grp, ms: seq<nat>)
    requires GrpOk(g) && NoDup(ms)
    ensures GrpOk(g.(members := ms))
  {
    assert GrpSide(g, Read) && GrpSide(g, Write);
  }

  lemma LeftOk(v: Bev)
    requires BevOk(v)
    ensures var u := v.(group := None, r := Unsuspend(v.r, Group), w := Unsuspend(v.w, Group));
            && BevOk(u) && Group !in u.r.suspended && Group !in u.w.suspended && u.group.None?
            && SameWish(v, u) && SameLimit(v, u)
  {
    WishKept(v.r, Group);
    WishKept(v.w, Group);
    SuspendOk(v.r, Group);
    SuspendOk(v.w, Group);
    OtherReasons(v.r, Group, Bandwidth);
    OtherReasons(v.w, Group, Bandwidth);
  }

  lemma LoneStep(bevs: seq<Bev>, groups: seq<Grp>, i: nat, v: Bev)
    requires AllOk(bevs, groups) && i < |bevs| && BevOk(v) && v.group.None? && bevs[i].group.None?
    requires Group !in v.r.suspended && Group !in v.w.suspended
    ensures AllOk(bevs[i := v], groups)
  {
    hide BevOk;
    BevStep(bevs, groups, i, v);
  }

  lemma Leave(bevs: seq<Bev>, groups: seq<Grp>, i: nat, v: Bev, ms: seq<nat>)
    requires AllOk(bevs, groups) && i < |bevs| && BevOk(v) && v.group.None?
    requires Group !in v.r.suspended && Group !in v.w.suspended
    requires bevs[i].group.Some? && bevs[i].group.value < |groups|
    requires forall x :: x in ms <==> x in groups[bevs[i].group.value].members && x != i
    ensures var g := bevs[i].group.value; AllOk(bevs[i := v], groups[g := groups[g].(members := ms)])
  {
    hide BevOk;
    var g := bevs[i].group.value;
    var bs, gs := bevs[i := v], groups[g := groups[g].(members := ms)];
    forall h | 0 <= h < |gs|
      ensures forall j :: j in gs[h].members <==> IsMember(bs, j, h)
    {
      assert forall j :: j in groups[h].members <==> IsMember(bevs, j, h);
      assert forall j :: IsMember(bs, j, h) <==> IsMember(bevs, j, h) && j != i;
    }
    forall j | 0 <= j < |bs|
      ensures Watched(bs[j], gs, Read) && Watched(bs[j], gs, Write)
    {
      assert j != i ==> Watched(bevs[j], groups, Read) && Watched(bevs[j], groups, Write);
    }
  }

  /** bufferevent_add_to_rate_limit_group: a new member of a suspended group is
      suspended with it. */
  method AddToGroup(l: Limiter, i: nat, g: nat)
    requires l.Valid() && i < |l.bevs| && g < |l.groups|
    modifies l`bevs, l`groups
    ensures l.Valid() && |l.bevs| == |old(l.bevs)| && |l.groups| == |old(l.groups)| && l.bevs[i].group == Some(g)
    ensures l.bevs == old(l.bevs)[i := l.bevs[i]] && SameWish(old(l.bevs[i]), l.bevs[i]) && SameLimit(old(l.bevs[i]), l.bevs[i])
    ensures if old(l.bevs[i]).group == Some(g) then l.bevs == old(l.bevs) && l.groups == old(l.groups)
            else
              && l.groups[g] == old(l.groups[g]).(members := [i] + old(l.groups[g]).members)
              && forall d :: Group in l.bevs[i].Get(d).suspended <==> l.groups[g].Suspended(d)
  {
    hide AllOk, GroupsOk, BevOk, Suspend, Unsuspend, WishOf;
    if l.bevs[i].group == Some(g) {
      return;
    }
    BevAt(l.bevs, l.groups, i);
    if l.bevs[i].group.Some? {
      RemoveFromGroup(l, i);
    }
    Enroll(l, i, g);
    var v, grp := l.bevs[i], l.groups[g];
    if grp.rSuspended {
      WishKept(v.r, Group);
      OtherReasons(v.r, Group, Bandwidth);
      l.Mark(i, Read, true, l.groups);
    }
    if grp.wSuspended {
      WishKept(v.w, Group);
      OtherReasons(v.w, Group, Bandwidth);
      l.Mark(i, Write, true, l.groups);
    }
  }

  /** The bufferevent becomes the first member of the group. */
  method Enroll(l: Limiter, i: nat, g: nat)
    requires l.Valid() && i < |l.bevs| && g < |l.groups| && l.bevs[i].group.None?
    modifies l`bevs, l`groups
    ensures l.Valid() && l.bevs == old(l.bevs)[i := old(l.bevs[i]).(group := Some(g))]
    ensures l.groups == old(l.groups)[g := old(l.groups[g]).(members := [i] + old(l.groups[g]).members)]
    ensures Group !in l.bevs[i].r.suspended && Group !in l.bevs[i].w.suspended
  {
    hide AllOk, GroupsOk, BevOk;
    var v, grp := l.bevs[i], l.groups[g];
    BevAt(l.bevs, l.groups, i);
    GrpAt(l.groups, g);
    NotYet(l.bevs, l.groups, i, g);
    FewerMembers(grp, [i] + grp.members);
    GroupsStep(l.groups, g, grp.(members := [i] + grp.members));
    JoinOk(v, g);
    Join(l.bevs, l.groups, i, g);
    l.bevs := l.bevs[i := v.(group := Some(g))];
    l.groups := l.groups[g := grp.(members := [i] + grp.members)];
  }

  lemma NotYet(bevs: seq<Bev>, groups: seq<Grp>, i: nat, g: nat)
    requires AllOk(bevs, groups) && i < |bevs| && g < |groups| && bevs[i].group.None? && NoDup(groups[g].members)
    ensures i !in groups[g].members && NoDup([i] + groups[g].members)
    ensures Group !in bevs[i].r.suspended && Group !in bevs[i].w.suspended
  {
    assert !IsMember(bevs, i, g);
    assert Watched(bevs[i], groups, Read) && Watched(bevs[i], groups, Write);
  }

  lemma JoinOk(v: Bev, g: nat)
    requires BevOk(v)
    ensures BevOk(v.(group := Some(g)))
  {
  }

  lemma Join(bevs: seq<Bev>, groups: seq<Grp>, i: nat, g: nat)
    requires AllOk(bevs, groups) && i < |bevs| && g < |groups| && bevs[i].group.None? && BevOk(bevs[i].(group := Some(g)))
    requires Group !in bevs[i].r.suspended && Group !in bevs[i].w.suspended
    ensures AllOk(bevs[i := bevs[i].(group := Some(g))], groups[g := groups[g].(members := [i] + groups[g].members)])
  {
    hide BevOk;
    var bs, gs := bevs[i := bevs[i].(group := Some(g))], groups[g := groups[g].(members := [i] + groups[g].members)];
    forall h | 0 <= h < |gs|
      ensures forall j :: j in gs[h].members <==> IsMember(bs, j, h)
    {
      assert forall j :: j in groups[h].members <==> IsMember(bevs, j, h);
      assert forall j :: IsMember(bs, j, h) <==> IsMember(bevs, j, h) || (j == i && h == g);
    }
    forall j | 0 <= j < |bs|
      ensures Watched(bs[j], gs, Read) && Watched(bs[j], gs, Write)
    {
      assert j != i ==> Watched(bevs[j], groups, Read) && Watched(bevs[j], groups, Write);
    }
  }

  /** bufferevent_enable, bufferevent_disable, and suspending for the other reasons. */
  datatype Switch = Enable | Disable | Hold(why: Reason) | Release(why: Reason)

  function Switched(s: Side, x: Switch): Side
  {
    match x
    case Enable => s.(enabled := true, on := s.on || s.suspended == {})
    case Disable => s.(enabled := false, on := false)
    case Hold(why) => Suspend(s, why)
    case Release(why) => Unsuspend(s, why)
  }

  /** What is wanted of a side after the switch. */
  function Obeyed(w: Wish, x: Switch): Wish
  {
    match x
    case Enable => w.(enabled := true)
    case Disable => w.(enabled := false)
    case Hold(why) => w.(held := w.held + ({why} - {Bandwidth, Group}))
    case Release(why) => w.(held := w.held - {why})
  }

  lemma SwitchedIs(s: Side, x: Switch)
    requires x.Hold? || x.Release? ==> x.why != Bandwidth && x.why != Group
    ensures WishOf(Switched(s, x)) == Obeyed(WishOf(s), x)
  {
  }

  method Flip(l: Limiter, i: nat, d: Dir, x: Switch)
    requires l.Valid() && i < |l.bevs|
    requires x.Hold? || x.Release? ==> x.why != Bandwidth && x.why != Group
    modifies l`bevs
    ensures l.Valid() && |l.bevs| == |old(l.bevs)| && l.bevs == old(l.bevs)[i := old(l.bevs[i]).Put(d, l.bevs[i].Get(d))]
    ensures WishOf(l.bevs[i].Get(d)) == Obeyed(WishOf(old(l.bevs[i]).Get(d)), x) && SameGroupFlags(old(l.bevs[i]), l.bevs[i])
    ensures SameLimit(old(l.bevs[i]), l.bevs[i])
  {
    hide AllOk, GroupsOk, Suspend, Unsuspend, WishOf;
    BevAt(l.bevs, l.groups, i);
    var v := l.bevs[i];
    SwitchedIs(v.Get(d), x);
    if x.Hold? || x.Release? {
      SuspendOk(v.Get(d), x.why);
      OtherReasons(v.Get(d), x.why, Bandwidth);
      OtherReasons(v.Get(d), x.why, Group);
    }
    SetBev(l, i, v.Put(d, Switched(v.Get(d), x)));
  }

  /** A bufferevent without rate limit, and a bufferevent_rate_limit_group_new. */
  method NewBev(l: Limiter, r: bool, w: bool)
    requires l.Valid()
    modifies l`bevs
    ensures l.Valid() && l.bevs == old(l.bevs) + [Bev(Side(r, r, {}), Side(w, w, {}), None, Bucket(0, 0, 0), false, None)]
  {
    var v := Bev(Side(r, r, {}), Side(w, w, {}), None, Bucket(0, 0, 0), false, None);
    var bs := l.bevs + [v];
    forall g | 0 <= g < |l.groups|
      ensures forall j :: j in l.groups[g].members <==> IsMember(bs, j, g)
    {
      assert forall j :: IsMember(bs, j, g) <==> IsMember(l.bevs, j, g);
    }
    l.bevs := bs;
  }

  /** bufferevent_rate_limit_group_new and bufferevent_rate_limit_group_set_min_share; it
      aborts exactly if the tick cannot be computed. */
  method NewGroup(l: Limiter, cfg: Cfg, ms: nat, share: nat) returns (aborted: bool)
    requires l.Valid() && cfg.Accepted()
    modifies l`groups
    ensures l.Valid() && (aborted <==> TickAt(ms, cfg).None?)
    ensures aborted ==> l.groups == old(l.groups)
    ensures !aborted ==> |l.groups| == |old(l.groups)| + 1 && l.groups[..|old(l.groups)|] == old(l.groups)
    ensures !aborted ==>
            var g := l.groups[|old(l.groups)|];
            && g.members == [] && g.cfg == cfg && g.bucket == Bucket(cfg.readRate, cfg.writeRate, TickOf(ms, cfg))
            && g.minShare <= share && (g.minShare == share || g.minShare == cfg.readRate || g.minShare == cfg.writeRate)
  {
    hide BevOk;
    var tick := TickAt(ms, cfg);
    if tick.None? {
      return true;
    }
    aborted := false;
    var m := share;
    if m > cfg.readRate {
      m := cfg.readRate;
    }
    if m > cfg.writeRate {
      m := cfg.writeRate;
    }
    var g := Grp([], cfg, Bucket(cfg.readRate, cfg.writeRate, tick.value), m, false, false, false, false);
    ghost var n := |l.groups|;
    var gs := l.groups + [g];
    forall j
      ensures !IsMember(l.bevs, j, n)
    {
    }
    forall i | 0 <= i < |l.bevs|
      ensures Watched(l.bevs[i], gs, Read) && Watched(l.bevs[i], gs, Write)
    {
      assert Watched(l.bevs[i], l.groups, Read) && Watched(l.bevs[i], l.groups, Write);
    }
    l.groups := gs;
  }

  /** What every step keeps, spelled out: an exhausted bucket suspends its side, a side
      suspended for its bucket has its timer pending, one suspended for its group has a
      group that is suspended or has members left to wake, and the backend is on exactly
      if the side is enabled and nothing suspends it. */
  ghost predicate NothingLost(l: Limiter, i: nat, d: Dir)
    requires i < |l.bevs|
    reads l
  {
    var v := l.bevs[i];
    && (v.cfg.Some? && v.bucket.Limit(d) <= 0 ==> Bandwidth in v.Get(d).suspended)
    && (Bandwidth in v.Get(d).suspended ==> v.timer)
    && (Group in v.Get(d).suspended ==>
          && v.group.Some? && v.group.value < |l.groups| && i in l.groups[v.group.value].members
          && (l.groups[v.group.value].Suspended(d) || l.groups[v.group.value].Pending(d)))
    && (v.Get(d).on <==> v.Get(d).enabled && v.Get(d).suspended == {})
  }

  lemma NoLostWakeup(l: Limiter, i: nat, d: Dir)
    requires l.Valid() && i < |l.bevs|
    ensures NothingLost(l, i, d)
  {
    BevAt(l.bevs, l.groups, i);
    Sides(l.bevs[i], d);
  }

  /** What may happen to bufferevents and their groups. `busy` are the ones another thread
      has locked. */
  datatype Step =
    | Open(r: bool, w: bool)
    | OpenGroup(gcfg: Cfg, gtime: nat, share: nat)
    | Tick(bev: nat, time: nat)                                                  // the timer of a bufferevent
    | GroupTick(g: nat, gnow: nat, first: nat, second: nat, busy: set<nat>)      // the timer of a group
    | Transfer(from: nat, d: Dir, bytes: int, which: nat, others: set<nat>)
    | Query(q: nat, qd: Dir, most: nat, qtime: nat)
    | Configure(i: nat, cfg: Option<Cfg>, ctime: nat)
    | Enter(j: nat, into: nat)
    | Exit(k: nat)
    | Turn(t: nat, td: Dir, x: Switch)

  /** The configuration that a step brings in, if it does. */
  function Brings(p: Step): Option<Cfg>
  {
    if p.OpenGroup? then Some(p.gcfg) else if p.Configure? then p.cfg else None
  }

  /** What is wanted of direction d of bufferevent i after a step. */
  function Turned(w: Wish, p: Step, i: nat, d: Dir): Wish
  {
    if p.Turn? && p.t == i && p.td == d then Obeyed(w, p.x) else w
  }

  function Wished(w: Wish, steps: seq<Step>, i: nat, d: Dir): Wish
  {
    if steps == [] then w else Turned(Wished(w, steps[..|steps| - 1], i, d), steps[|steps| - 1], i, d)
  }

  ghost predicate WishesObeyed(was: seq<Bev>, now: seq<Bev>, p: Step)
  {
    |was| <= |now| && forall i, d :: 0 <= i < |was| ==> WishOf(now[i].Get(d)) == Turned(WishOf(was[i].Get(d)), p, i, d)
  }

  /** The step switches nothing on or off. */
  predicate Quiet(p: Step, n: nat)
  {
    p.Turn? ==> p.t >= n || ((p.x.Hold? || p.x.Release?) && (p.x.why == Bandwidth || p.x.why == Group))
  }

  lemma KeptObeyed(was: seq<Bev>, now: seq<Bev>, p: Step)
    requires KeepsWishes(was, now) && Quiet(p, |was|)
    ensures WishesObeyed(was, now, p)
  {
    forall i, d | 0 <= i < |was|
      ensures WishOf(now[i].Get(d)) == Turned(WishOf(was[i].Get(d)), p, i, d)
    {
      assert SameWish(was[i], now[i]);
    }
  }

  lemma KeepsSelf(bevs: seq<Bev>)
    ensures KeepsWishes(bevs, bevs)
  {
  }

  /** The bufferevents and their groups. */
  datatype State = State(bevs: seq<Bev>, groups: seq<Grp>)

  ghost function Now(l: Limiter): State
    reads l
  {
    State(l.bevs, l.groups)
  }

  predicate CanCharge(s: State, p: Step)
    requires p.Transfer?
  {
    && p.from < |s.bevs| && Chargeable(s.bevs[p.from], s.groups, p.d, p.bytes)
    && var g := s.bevs[p.from].group; g.Some? && g.value < |s.groups| ==> Starts(s.groups[g.value], p.which)
  }

  /** What each step of the rate limiter does, if it can be done; nothing otherwise. */
  ghost predicate Regulated(p: Step, was: State, now: State, aborted: bool)
  {
    match p
    case OpenGroup(cfg, _, _) =>
      if cfg.Accepted() && !aborted
      then now.bevs == was.bevs && |now.groups| == |was.groups| + 1 && now.groups[..|was.groups|] == was.groups && now.groups[|was.groups|].cfg == cfg
      else now == was
    case Tick(i, ms) =>
      if i < |was.bevs| then OnlyBev(was, now, i) && Refilled(was.bevs[i], now.bevs[i], ms) else now == was
    case GroupTick(g, ms, first, second, _) =>
      if g < |was.groups| && Starts(was.groups[g], first) && Starts(was.groups[g], second) && was.groups[g].cfg.msec != 0
      then
        && |now.groups| == |was.groups| && now.groups == was.groups[g := now.groups[g]]
        && now.groups[g].bucket == Updated(was.groups[g].bucket, was.groups[g].cfg, TickOf(ms, was.groups[g].cfg))
        && (forall d :: now.groups[g].Suspended(d) <==> was.groups[g].Suspended(d) && now.groups[g].bucket.Limit(d) < was.groups[g].minShare)
      else now == was
    case Transfer(i, d, bytes, _, _) =>
      if CanCharge(was, p) then
        && |now.bevs| == |was.bevs| && Debited(was.bevs[i], now.bevs[i], d, bytes)
        && var g := was.bevs[i].group;
           g.Some? && g.value < |was.groups| ==>
             |now.groups| == |was.groups| && now.groups == was.groups[g.value := now.groups[g.value]] && GroupDebited(was.groups[g.value], now.groups[g.value], d, bytes)
      else now == was
    case Query(i, _, _, ms) =>
      if i < |was.bevs| && (was.bevs[i].cfg.Some? ==> was.bevs[i].cfg.value.msec != 0)
      then OnlyBev(was, now, i) && SameLimit(OwnUpdated(was.bevs[i], ms), now.bevs[i]) else now == was
    case Configure(i, cfg, _) =>
      if i < |was.bevs| && (cfg.Some? ==> cfg.value.Accepted()) && !aborted
      then OnlyBev(was, now, i) && now.bevs[i].cfg == cfg && SameGroupFlags(was.bevs[i], now.bevs[i]) else now == was
    case Enter(i, g) =>
      if i < |was.bevs| && g < |was.groups|
      then |now.bevs| == |was.bevs| && now.bevs == was.bevs[i := now.bevs[i]] && now.bevs[i].group == Some(g) && SameLimit(was.bevs[i], now.bevs[i])
      else now == was
    case Exit(i) =>
      if i < |was.bevs|
      then |now.bevs| == |was.bevs| && now.bevs == was.bevs[i := now.bevs[i]] && now.bevs[i].group.None? && SameLimit(was.bevs[i], now.bevs[i])
      else now == was
    case Open(r, w) =>
      now == was.(bevs := was.bevs + [Bev(Side(r, r, {}), Side(w, w, {}), None, Bucket(0, 0, 0), false, None)])
    case Turn(i, d, _) =>
      |now.bevs| == |was.bevs| && now.groups == was.groups && (i < |was.bevs| ==> SameLimit(was.bevs[i], now.bevs[i]))
  }

  ghost predicate OnlyBev(was: State, now: State, i: nat)
  {
    i < |was.bevs| == |now.bevs| && now == was.(bevs := was.bevs[i := now.bevs[i]])
  }

  method Perform(l: Limiter, p: Step) returns (aborted: bool)
    requires l.Valid()
    modifies l
    ensures l.Valid()
    ensures aborted ==> Brings(p).Some? && Brings(p).value.msec == 0
    ensures WishesObeyed(old(l.bevs), l.bevs, p) && Regulated(p, old(Now(l)), Now(l), aborted)
  {
    hide AllOk, GroupsOk, BevOk, GrpOk, Updated, Initialized, SameWish, WishesObeyed;
    aborted := false;
    KeepsSelf(l.bevs);
    match p
    case Open(r, w) =>
      NewBev(l, r, w);
      OpenObeyed(old(l.bevs), l.bevs, p);
    case Turn(i, d, x) =>
      if i < |l.bevs| && (x.Hold? || x.Release? ==> x.why != Bandwidth && x.why != Group) {
        Flip(l, i, d, x);
        TurnObeyed(old(l.bevs), l.bevs, i, d, x);
      } else {
        KeptObeyed(l.bevs, l.bevs, p);
      }
    case _ =>
      aborted := Regulate(l, p);
      KeptObeyed(old(l.bevs), l.bevs, p);
  }

  lemma OpenObeyed(was: seq<Bev>, now: seq<Bev>, p: Step)
    requires !p.Turn? && was <= now
    ensures WishesObeyed(was, now, p)
  {
  }

  lemma TurnObeyed(was: seq<Bev>, now: seq<Bev>, i: nat, d: Dir, x: Switch)
    requires i < |was| == |now| && now == was[i := was[i].Put(d, now[i].Get(d))]
    requires WishOf(now[i].Get(d)) == Obeyed(WishOf(was[i].Get(d)), x)
    ensures WishesObeyed(was, now, Turn(i, d, x))
  {
  }

  /** The steps of the rate limiter: none of them touches what others want of a
      bufferevent. */
  method Regulate(l: Limiter, p: Step) returns (aborted: bool)
    requires l.Valid() && !p.Open? && !p.Turn?
    modifies l
    ensures l.Valid() && KeepsWishes(old(l.bevs), l.bevs) && Regulated(p, old(Now(l)), Now(l), aborted)
    ensures aborted ==> Brings(p).Some? && Brings(p).value.msec == 0
  {
    hide AllOk, GroupsOk, BevOk, GrpOk, SameExcept, Awake, Updated, Initialized, SameWish, SameLimit, KeepsWishes, Debited, GroupDebited;
    hide Refilled, SameGroupFlags, OwnUpdated, MembersFollow, Untouched, TickOf;
    aborted := false;
    KeepsSelf(l.bevs);
    if p.OpenGroup? && p.gcfg.Accepted() {
      aborted := NewGroup(l, p.gcfg, p.gtime, p.share);
    } else if p.Tick? && p.bev < |l.bevs| {
      RefillTimer(l, p.bev, p.time);
      RefilledWish(old(l.bevs[p.bev]), l.bevs[p.bev], p.time);
      OneKeeps(old(l.bevs), p.bev, l.bevs[p.bev]);
    } else if p.GroupTick? && p.g < |l.groups| && Starts(l.groups[p.g], p.first) && Starts(l.groups[p.g], p.second) {
      GrpAt(l.groups, p.g);
      GrpCfg(l.groups[p.g]);
      GroupRefill(l, p.g, p.gnow, p.first, p.second, p.busy);
    } else if p.Transfer? && CanCharge(State(l.bevs, l.groups), p) {
      Charge(l, p.from, p.d, p.bytes, p.which, p.others);
    } else if p.Query? && p.q < |l.bevs| {
      BevAt(l.bevs, l.groups, p.q);
      UsableCfg(l.bevs[p.q]);
      var _ := GetMax(l, p.q, p.qd, p.most, p.qtime);
      OneKeeps(old(l.bevs), p.q, l.bevs[p.q]);
    } else if p.Configure? && p.i < |l.bevs| && (p.cfg.Some? ==> p.cfg.value.Accepted()) {
      aborted := SetRateLimit(l, p.i, p.cfg, l.bevs[p.i].cfg == p.cfg, p.ctime);
      OneKeeps(old(l.bevs), p.i, l.bevs[p.i]);
    } else if p.Enter? && p.j < |l.bevs| && p.into < |l.groups| {
      AddToGroup(l, p.j, p.into);
      OneKeeps(old(l.bevs), p.j, l.bevs[p.j]);
    } else if p.Exit? && p.k < |l.bevs| {
      RemoveFromGroup(l, p.k);
      OneKeeps(old(l.bevs), p.k, l.bevs[p.k]);
    }
  }

  /** Whatever happens in whatever order, and whichever locks are taken: no bufferevent is
      ever suspended with nothing left that would wake it. The run goes on up to a step that
      brings in a configuration that cannot be used. Whether a direction is enabled, and what
      else than bandwidth suspends it, is exactly as the switches turned along the way say. The
      trace shows what each step did. */
  method Run(l: Limiter, steps: seq<Step>) returns (done: nat, ghost trace: seq<State>)
    requires l.Valid()
    modifies l
    ensures l.Valid()
    ensures done <= |steps| && (done < |steps| ==> Brings(steps[done]).Some? && Brings(steps[done]).value.msec == 0)
    ensures forall i, d :: 0 <= i < |l.bevs| ==> NothingLost(l, i, d)
    ensures IsRun(trace, steps[..done]) && trace[0] == old(Now(l)) && (done == |steps| ==> trace[done] == Now(l))
    ensures |old(l.bevs)| <= |l.bevs|
    ensures forall i, d :: 0 <= i < |old(l.bevs)| ==> WishOf(l.bevs[i].Get(d)) == Wished(WishOf(old(l.bevs)[i].Get(d)), steps[..done], i, d)
  {
    hide AllOk, GroupsOk, NothingLost, WishesObeyed, WishOf, Turned, IsRun, Regulated;
    ghost var was := l.bevs;
    done, trace := 0, [Now(l)];
    RunStarts(trace, steps);
    var aborted := false;
    while done < |steps| && !aborted
      invariant l.Valid() && done <= |steps|
      invariant aborted ==> done < |steps| && Brings(steps[done]).Some? && Brings(steps[done]).value.msec == 0
      invariant AllWished(was, l.bevs, steps[..done])
      invariant IsRun(trace, steps[..done]) && |trace| == done + 1 && trace[0] == old(Now(l)) && (!aborted ==> trace[done] == Now(l))
      decreases |steps| - done, !aborted
    {
      ghost var mid := l.bevs;
      aborted := Perform(l, steps[done]);
      if !aborted {
        WishedNext(was, mid, l.bevs, steps, done);
        RunNext(trace, steps, done, Now(l));
        trace := trace + [Now(l)];
        done := done + 1;
      } else {
        WishedStill(was, mid, l.bevs, steps[..done], steps[done]);
      }
    }
    forall i, d | 0 <= i < |l.bevs|
      ensures NothingLost(l, i, d)
    {
      NoLostWakeup(l, i, d);
    }
  }

  /** A trace of the run: the state before and after each of the steps done. */
  ghost predicate IsRun(trace: seq<State>, steps: seq<Step>)
  {
    |trace| == |steps| + 1 && forall k :: 0 <= k < |steps| ==> Regulated(steps[k], trace[k], trace[k + 1], false)
  }

  lemma RunStarts(trace: seq<State>, steps: seq<Step>)
    requires |trace| == 1
    ensures IsRun(trace, steps[..0])
  {
  }

  lemma RunNext(trace: seq<State>, steps: seq<Step>, k: nat, s: State)
    requires k < |steps| && IsRun(trace, steps[..k]) && Regulated(steps[k], trace[k], s, false)
    ensures IsRun(trace + [s], steps[..k + 1])
  {
    hide Regulated;
    var now, trace' := steps[..k + 1], trace + [s];
    forall i | 0 <= i < k + 1
      ensures Regulated(now[i], trace'[i], trace'[i + 1], false)
    {
      if i < k {
        assert steps[..k][i] == now[i] && trace[i] == trace'[i] && trace[i + 1] == trace'[i + 1];
      }
    }
  }

  ghost predicate AllWished(was: seq<Bev>, now: seq<Bev>, steps: seq<Step>)
  {
    |was| <= |now| && forall i, d :: 0 <= i < |was| ==> WishOf(now[i].Get(d)) == Wished(WishOf(was[i].Get(d)), steps, i, d)
  }

  lemma WishedNext(was: seq<Bev>, mid: seq<Bev>, now: seq<Bev>, steps: seq<Step>, k: nat)
    requires k < |steps| && AllWished(was, mid, steps[..k]) && WishesObeyed(mid, now, steps[k])
    ensures AllWished(was, now, steps[..k + 1])
  {
    hide WishOf, Turned;
    assert steps[..k + 1][..k] == steps[..k];
  }

  lemma WishedStill(was: seq<Bev>, mid: seq<Bev>, now: seq<Bev>, steps: seq<Step>, p: Step)
    requires AllWished(was, mid, steps) && WishesObeyed(mid, now, p) && !p.Turn?
    ensures AllWished(was, now, steps)
  {
    hide WishOf;
  }

  /** What a bufferevent does with its bandwidth: it asks how much it may move in a
      direction and then moves at most that, or its timer runs. */
  datatype Act =
    | Send(ms: nat, dir: Dir, want: nat, most: nat, which: nat, busy: set<nat>)
    | Wake(ms: nat)

  /** What has been sent so far is paid for: by what the bucket held, and by the ticks
      credited since. */
  predicate Paid(limit0: int, limit: int, bytes: nat, ticks: nat, rate: nat)
  {
    bytes + limit <= limit0 + ticks * rate && bytes <= Positive(limit0) + ticks * rate
  }

  /** A charge that exhausts the bucket, and the timer: the backend is off in between, and
      then on again, if the bucket has recovered, exactly if the direction is enabled and
      nothing but its bucket suspended it. */
  method ExhaustThenRefill(l: Limiter, i: nat, d: Dir, bytes: int, ms: nat, which: nat, busy: set<nat>) returns (between: bool)
    requires l.Valid() && i < |l.bevs| && Chargeable(l.bevs[i], l.groups, d, bytes)
    requires l.bevs[i].group.Some? && l.bevs[i].group.value < |l.groups| ==> Starts(l.groups[l.bevs[i].group.value], which)
    requires l.bevs[i].cfg.Some? && l.bevs[i].cfg.value.msec > 0 && l.bevs[i].bucket.Limit(d) - bytes <= 0
    modifies l`bevs, l`groups
    ensures l.Valid() && |l.bevs| == |old(l.bevs)| && !between
    ensures var u, v := old(l.bevs[i]), l.bevs[i];
            var n := Credited(u.bucket.last, TickOf(ms, u.cfg.value));
            && v.bucket.Limit(d) == Refill(u.bucket.Limit(d) - bytes, u.cfg.value.Maximum(d), u.cfg.value.Rate(d), n)
            && (v.bucket.Limit(d) <= 0 ==> !v.Get(d).on && v.timer)
            && (v.bucket.Limit(d) > 0 && u.group.None? ==> (v.Get(d).on <==> u.Get(d).enabled && u.Get(d).suspended <= {Bandwidth}))
            && (v.bucket.Limit(d) > 0 && u.group.Some? ==>
                  (v.Get(d).on <==> u.Get(d).enabled && u.Get(d).suspended <= {Bandwidth, Group} && Group !in v.Get(d).suspended))
  {
    hide AllOk, GroupsOk, BevOk, Updated, SameExcept, WishOf, Refill, Credited, TickOf;
    ghost var u := l.bevs[i];
    Charge(l, i, d, bytes, which, busy);
    ghost var mid := l.bevs[i];
    BevAt(l.bevs, l.groups, i);
    Sides(mid, d);
    between := l.bevs[i].Get(d).on;
    RefillTimer(l, i, ms);
    BevAt(l.bevs, l.groups, i);
    Sides(l.bevs[i], d);
    UpdatedIs(mid.bucket, mid.cfg.value, d, TickOf(ms, mid.cfg.value));
    OnlyBandwidth(u.Get(d), l.bevs[i].Get(d));
    if u.group.None? {
      NeverGroup(old(l.bevs), old(l.groups), i, d);
    }
  }

  lemma UpdatedIs(b: Bucket, cfg: Cfg, d: Dir, now: nat)
    requires b.Within(cfg)
    ensures Updated(b, cfg, now).Limit(d) == Refill(b.Limit(d), cfg.Maximum(d), cfg.Rate(d), Credited(b.last, now))
  {
  }

  lemma OnlyBandwidth(s: Side, t: Side)
    requires WishOf(s) == WishOf(t)
    ensures t.enabled == s.enabled
    ensures s.suspended <= {Bandwidth, Group} <==> t.suspended <= {Bandwidth, Group}
    ensures Bandwidth !in t.suspended && Group !in t.suspended ==> (t.suspended == {} <==> t.suspended <= {Bandwidth, Group})
  {
    assert s.suspended <= {Bandwidth, Group} <==> s.suspended - {Bandwidth, Group} == {};
    assert t.suspended <= {Bandwidth, Group} <==> t.suspended - {Bandwidth, Group} == {};
  }

  lemma NeverGroup(bevs: seq<Bev>, groups: seq<Grp>, i: nat, d: Dir)
    requires AllOk(bevs, groups) && i < |bevs| && bevs[i].group.None?
    ensures Group !in bevs[i].Get(d).suspended
    ensures bevs[i].Get(d).suspended <= {Bandwidth} <==> bevs[i].Get(d).suspended <= {Bandwidth, Group}
  {
    BevAt(bevs, groups, i);
  }

  lemma PaidCredit(limit0: int, limit: int, bytes: nat, ticks: nat, rate: nat, limit': int, n: nat)
    requires Paid(limit0, limit, bytes, ticks, rate) && limit' <= limit + n * rate
    ensures Paid(limit0, limit', bytes, ticks + n, rate)
  {
    assert (ticks + n) * rate == ticks * rate + n * rate;
  }

  lemma PaidSend(limit0: int, limit: int, bytes: nat, ticks: nat, rate: nat, more: nat)
    requires Paid(limit0, limit, bytes, ticks, rate) && more <= Positive(limit)
    ensures Paid(limit0, limit - more, bytes + more, ticks, rate)
  {
  }

  method SendOnce(l: Limiter, i: nat, a: Act) returns (sent: nat)
    requires l.Valid() && i < |l.bevs| && l.bevs[i].cfg.Some? && a.Send?
    modifies l`bevs, l`groups
    ensures l.Valid() && |l.bevs| == |old(l.bevs)| && l.bevs[i].cfg == old(l.bevs[i]).cfg
    ensures var b := OwnUpdated(old(l.bevs[i]), a.ms).bucket;
            && sent <= Positive(b.Limit(a.dir)) && l.bevs[i].bucket == b.With(a.dir, b.Limit(a.dir) - sent)
  {
    hide AllOk, GroupsOk, BevOk, SameExcept, Updated, Suspend, Unsuspend;
    var m := GetMax(l, i, a.dir, a.most, a.ms);
    sent := if a.want < m then a.want else m;
    BevAt(l.bevs, l.groups, i);
    CfgAt(l.bevs[i]);
    var g := l.bevs[i].group;
    if g.Some? {
      GrpAt(l.groups, g.value);
      GrpCfg(l.groups[g.value]);
      if !Starts(l.groups[g.value], a.which) {
        sent := 0;
        SameBucket(l.bevs[i].bucket, a.dir);
        return;
      }
      ShareRoom(l.groups[g.value], a.dir, sent);
    }
    Charge(l, i, a.dir, sent, a.which, a.busy);
  }

  lemma SameBucket(b: Bucket, d: Dir)
    ensures b.With(d, b.Limit(d) - 0) == b
  {
  }

  lemma ShareRoom(g: Grp, d: Dir, sent: nat)
    requires GrpOk(g) && (if g.Suspended(d) then sent == 0 else sent <= Max(g.bucket.Limit(d), g.minShare))
    ensures g.bucket.Limit(d) - sent >= -RATE_LIMIT_MAX - 1
  {
    assert GrpSide(g, d);
  }

  /** The clock does not go back. */
  predicate Ordered(acts: seq<Act>)
  {
    forall x, y :: 0 <= x < y < |acts| ==> acts[x].ms <= acts[y].ms
  }

  /** Over any run of a bufferevent that moves no more than it is allowed - and so over any
      window of one - at most the bucket's maximum goes through in a direction, and one
      rate per credited tick, whatever happens in the other direction and in its group; and,
      by the clock, one rate for each tick between the first act and the last. */
  method Spend(l: Limiter, i: nat, d: Dir, acts: seq<Act>) returns (bytes: nat, ticks: nat)
    requires l.Valid() && i < |l.bevs| && l.bevs[i].cfg.Some?
    modifies l`bevs, l`groups
    ensures l.Valid() && |l.bevs| == |old(l.bevs)| && l.bevs[i].cfg == old(l.bevs[i]).cfg
    ensures var cfg := old(l.bevs[i]).cfg.value;
            && bytes <= Positive(old(l.bevs[i]).bucket.Limit(d)) + ticks * cfg.Rate(d)
            && bytes <= cfg.Maximum(d) + ticks * cfg.Rate(d)
            && (cfg.msec > 0 && acts != [] && Ordered(acts) ==>
                  bytes <= cfg.Maximum(d) + (acts[|acts| - 1].ms / cfg.msec - acts[0].ms / cfg.msec) * cfg.Rate(d))
  {
    hide AllOk, GroupsOk, BevOk, Updated, Paid, ByClock, Ordered, TickOf, Credited, Positive;
    var cfg := l.bevs[i].cfg.value;
    ghost var limit0 := l.bevs[i].bucket.Limit(d);
    bytes, ticks := 0, 0;
    PaidNothing(limit0, cfg.Rate(d));
    BevAt(l.bevs, l.groups, i);
    CfgAt(l.bevs[i]);
    for k := 0 to |acts|
      invariant l.Valid() && |l.bevs| == |old(l.bevs)| && l.bevs[i].cfg == Some(cfg)
      invariant Paid(limit0, l.bevs[i].bucket.Limit(d), bytes, ticks, cfg.Rate(d))
      invariant Clock(cfg, d, l.bevs[i].bucket, bytes, acts, k)
    {
      var b, now := l.bevs[i].bucket, TickOf(acts[k].ms, cfg);
      var sent := ActOnce(l, i, d, acts[k]);
      PaidStep(limit0, b, cfg, d, now, bytes, ticks, sent);
      ClockStep(cfg, d, b, bytes, acts, k, l.bevs[i].bucket, sent);
      bytes, ticks := bytes + sent, ticks + Credited(b.last, now);
    }
    PaidAll(limit0, l.bevs[i].bucket.Limit(d), bytes, ticks, cfg.Rate(d), cfg.Maximum(d));
    ClockEnds(cfg, d, l.bevs[i].bucket, bytes, acts);
  }

  /** One act, and what it moves in direction d. */
  method ActOnce(l: Limiter, i: nat, d: Dir, a: Act) returns (sent: nat)
    requires l.Valid() && i < |l.bevs| && l.bevs[i].cfg.Some?
    modifies l`bevs, l`groups
    ensures l.Valid() && |l.bevs| == |old(l.bevs)| && l.bevs[i].cfg == old(l.bevs[i]).cfg
    ensures var u, v := old(l.bevs[i]), l.bevs[i].bucket;
            && u.cfg.value.Valid() && u.bucket.Within(u.cfg.value)
            && var b := Updated(u.bucket, u.cfg.value, TickOf(a.ms, u.cfg.value));
               sent <= Positive(b.Limit(d)) && v.Limit(d) == b.Limit(d) - sent && v.last == b.last
  {
    hide AllOk, GroupsOk, BevOk, Updated, TickOf;
    BevAt(l.bevs, l.groups, i);
    CfgAt(l.bevs[i]);
    sent := 0;
    if a.Wake? {
      RefillTimer(l, i, a.ms);
    } else {
      var moved := SendOnce(l, i, a);
      if a.dir == d {
        sent := moved;
      }
    }
  }

  lemma PaidStep(limit0: int, b: Bucket, cfg: Cfg, d: Dir, now: nat, bytes: nat, ticks: nat, sent: nat)
    requires Paid(limit0, b.Limit(d), bytes, ticks, cfg.Rate(d)) && sent <= Positive(Updated(b, cfg, now).Limit(d))
    ensures Paid(limit0, Updated(b, cfg, now).Limit(d) - sent, bytes + sent, ticks + Credited(b.last, now), cfg.Rate(d))
  {
    hide Updated, Paid, Credited;
    var n, limit := Credited(b.last, now), Updated(b, cfg, now).Limit(d);
    UpdatedLimit(b, cfg, d, now);
    PaidCredit(limit0, b.Limit(d), bytes, ticks, cfg.Rate(d), limit, n);
    PaidSend(limit0, limit, bytes, ticks + n, cfg.Rate(d), sent);
  }

  /** What has been sent from time ms0 up to time ms is paid for by a full bucket and the
      ticks that have gone by, and no tick that has gone by is still to be credited. */
  ghost predicate ByClock(cfg: Cfg, d: Dir, limit: int, last: nat, bytes: nat, ms0: nat, ms: nat)
  {
    && cfg.msec > 0 && last < TWO32 && Settled(last, ms / cfg.msec) && ms0 / cfg.msec <= ms / cfg.msec
    && Paid(cfg.Maximum(d), limit, bytes, ms / cfg.msec - ms0 / cfg.msec, cfg.Rate(d))
  }

  ghost predicate Clock(cfg: Cfg, d: Dir, b: Bucket, bytes: nat, acts: seq<Act>, k: nat)
    requires k <= |acts|
  {
    if k == 0 then bytes == 0
    else Ordered(acts) ==> ByClock(cfg, d, b.Limit(d), b.last, bytes, acts[0].ms, acts[k - 1].ms)
  }

  lemma ClockStep(cfg: Cfg, d: Dir, b: Bucket, bytes: nat, acts: seq<Act>, k: nat, b': Bucket, sent: nat)
    requires k < |acts| && cfg.Valid() && b.Within(cfg) && Clock(cfg, d, b, bytes, acts, k)
    requires var u := Updated(b, cfg, TickOf(acts[k].ms, cfg));
             sent <= Positive(u.Limit(d)) && b'.Limit(d) == u.Limit(d) - sent && b'.last == u.last
    ensures Clock(cfg, d, b', bytes + sent, acts, k + 1)
  {
    hide Updated, ByClock, TickOf, Ordered, Positive;
    var u := Updated(b, cfg, TickOf(acts[k].ms, cfg));
    if k == 0 {
      ClockStarts(cfg, d, b, acts[0].ms);
      ClockSends(cfg, d, u.Limit(d), u.last, bytes, acts[0].ms, acts[0].ms, sent);
    } else if Ordered(acts) {
      OrderedAt(acts, k);
      ClockGoesOn(cfg, d, b, bytes, acts[0].ms, acts[k - 1].ms, acts[k].ms);
      ClockSends(cfg, d, u.Limit(d), u.last, bytes, acts[0].ms, acts[k].ms, sent);
    }
  }

  lemma ClockStarts(cfg: Cfg, d: Dir, b: Bucket, ms: nat)
    requires cfg.Valid() && b.Within(cfg)
    ensures var u := Updated(b, cfg, TickOf(ms, cfg)); ByClock(cfg, d, u.Limit(d), u.last, 0, ms, ms)
  {
    hide Updated, Settled;
    UpdatedMost(b, cfg, d, TickOf(ms, cfg));
    UpdatedLast(b, cfg, TickOf(ms, cfg));
    Settles(b.last, ms / cfg.msec);
  }

  lemma ClockGoesOn(cfg: Cfg, d: Dir, b: Bucket, bytes: nat, ms0: nat, ms1: nat, ms2: nat)
    requires cfg.Valid() && ByClock(cfg, d, b.Limit(d), b.last, bytes, ms0, ms1) && ms1 <= ms2
    ensures var u := Updated(b, cfg, TickOf(ms2, cfg)); ByClock(cfg, d, u.Limit(d), u.last, bytes, ms0, ms2)
  {
    hide Updated, Settled, Paid, Credited;
    var now, t0, t1, t2 := TickOf(ms2, cfg), ms0 / cfg.msec, ms1 / cfg.msec, ms2 / cfg.msec;
    var n := Credited(b.last, now);
    DivMono(ms1, ms2, cfg.msec);
    SettledAt(b.last, t1, t2);
    Settles(b.last, t2);
    UpdatedLast(b, cfg, now);
    UpdatedLimit(b, cfg, d, now);
    PaidCredit(cfg.Maximum(d), b.Limit(d), bytes, t1 - t0, cfg.Rate(d), Updated(b, cfg, now).Limit(d), n);
    PaidMore(cfg.Maximum(d), Updated(b, cfg, now).Limit(d), bytes, t1 - t0 + n, cfg.Rate(d), t2 - t0);
  }

  lemma PaidMore(limit0: int, limit: int, bytes: nat, ticks: nat, rate: nat, more: nat)
    requires Paid(limit0, limit, bytes, ticks, rate) && ticks <= more
    ensures Paid(limit0, limit, bytes, more, rate)
  {
    MulLe(rate, ticks, more);
  }

  lemma ClockSends(cfg: Cfg, d: Dir, limit: int, last: nat, bytes: nat, ms0: nat, ms: nat, sent: nat)
    requires ByClock(cfg, d, limit, last, bytes, ms0, ms) && sent <= Positive(limit)
    ensures ByClock(cfg, d, limit - sent, last, bytes + sent, ms0, ms)
  {
    hide Settled, Paid;
    PaidSend(cfg.Maximum(d), limit, bytes, ms / cfg.msec - ms0 / cfg.msec, cfg.Rate(d), sent);
  }

  lemma ClockEnds(cfg: Cfg, d: Dir, b: Bucket, bytes: nat, acts: seq<Act>)
    requires cfg.msec > 0 && Clock(cfg, d, b, bytes, acts, |acts|)
    ensures acts != [] && Ordered(acts) ==> bytes <= cfg.Maximum(d) + (acts[|acts| - 1].ms / cfg.msec - acts[0].ms / cfg.msec) * cfg.Rate(d)
  {
    hide Settled, Ordered;
  }

  lemma OrderedAt(acts: seq<Act>, k: nat)
    requires Ordered(acts) && 0 < k < |acts|
    ensures acts[k - 1].ms <= acts[k].ms
  {
  }

  lemma PaidNothing(limit0: int, rate: nat)
    ensures Paid(limit0, limit0, 0, 0, rate)
  {
  }

  lemma PaidAll(limit0: int, limit: int, bytes: nat, ticks: nat, rate: nat, maximum: nat)
    requires Paid(limit0, limit, bytes, ticks, rate) && limit0 <= maximum
    ensures bytes <= Positive(limit0) + ticks * rate && bytes <= maximum + ticks * rate
  {
  }
}

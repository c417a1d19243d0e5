/** evmap.c: which events watch which descriptor, and the changelist that saves up
    changes of interest until the next dispatch. */
module Evmap {
  import opened Bytes
  import opened EpollTable

  const WORD_SIZE := 8
  const MAX_COUNT := 0xFFFF

  /** An event that watches a descriptor for some kinds of readiness. */
  datatype Event = Event(id: nat, kinds: Kinds)

  /** struct evmap_io, with the changelist's fdinfo that follows it. */
  datatype Io = Io(nread: nat, nwrite: nat, nclose: nat, events: seq<Event>, idxplus1: nat)

  datatype Kind = Read | Write | Closed

  predicate Has(k: Kinds, x: Kind)
  {
    match x
    case Read => k.r
    case Write => k.w
    case Closed => k.c
  }

  /** How many events watch for a kind. */
  function Count(evs: seq<Event>, x: Kind): nat
  {
    if evs == [] then 0 else Bit(Has(evs[0].kinds, x)) + Count(evs[1..], x)
  }

  /** The kinds some event watches for. */
  function Union(evs: seq<Event>): Kinds
  {
    Kinds(Count(evs, Read) > 0, Count(evs, Write) > 0, Count(evs, Closed) > 0)
  }

  function Without(evs: seq<Event>, i: nat): seq<Event>
    requires i < |evs|
  {
    evs[..i] + evs[i + 1..]
  }

  lemma {:induction false} CountWithout(evs: seq<Event>, i: nat, x: Kind)
    requires i < |evs|
    ensures Count(evs, x) == Bit(Has(evs[i].kinds, x)) + Count(Without(evs, i), x)
  {
    if i == 0 {
      assert Without(evs, 0) == evs[1..];
    } else {
      CountWithout(evs[1..], i - 1, x);
      assert Without(evs, i)[1..] == Without(evs[1..], i - 1);
    }
  }

  lemma CountCons(ev: Event, evs: seq<Event>, x: Kind)
    ensures Count([ev] + evs, x) == Bit(Has(ev.kinds, x)) + Count(evs, x)
  {
    assert ([ev] + evs)[1..] == evs;
  }

  /** The counters agree with the list (evmap_io_check_integrity_fn). */
  predicate Counted(io: Io)
  {
    && io.nread == Count(io.events, Read) <= MAX_COUNT
    && io.nwrite == Count(io.events, Write) <= MAX_COUNT
    && io.nclose == Count(io.events, Closed) <= MAX_COUNT
  }

  function Wanted(io: Io): Kinds
  {
    Kinds(io.nread > 0, io.nwrite > 0, io.nclose > 0)
  }

  /** Without a record the kernel has the interest wanted; with one, the record knows
      the interest the kernel has and asks for the one wanted. */
  ghost predicate Settled(idxplus1: nat, fd: int, want: Kinds, changes: seq<Record>, have: Kinds)
  {
    if idxplus1 == 0 then have == want
    else
      && idxplus1 <= |changes|
      && var ch := changes[idxplus1 - 1];
      && ch.fd == fd && ch.had == have && Possible(ch) && Target(ch) == want
  }

  /** The descriptors other than x are settled on what their counters say. */
  ghost predicate OthersOk(entries: seq<Option<Io>>, changes: seq<Record>, interest: map<int, Kinds>, x: int)
  {
    forall fd :: 0 <= fd < |entries| && fd != x && entries[fd].Some? ==>
      var io := entries[fd].value;
      Counted(io) && Settled(io.idxplus1, fd, Wanted(io), changes, Have(interest, fd))
  }

  /** event_changelist_assert_ok: records and descriptors point at each other. */
  ghost predicate RecordsOk(entries: seq<Option<Io>>, changes: seq<Record>)
  {
    forall i :: 0 <= i < |changes| ==>
      && 0 <= changes[i].fd < |entries| && entries[changes[i].fd].Some?
      && entries[changes[i].fd].value.idxplus1 == i + 1
  }

  ghost predicate KernelOk(entries: seq<Option<Io>>, interest: map<int, Kinds>)
  {
    forall fd :: fd in interest ==> 0 <= fd < |entries| && entries[fd].Some?
  }

  function Plus(a: Kinds, b: Kinds): Kinds
  {
    Kinds(a.r || b.r, a.w || b.w, a.c || b.c)
  }

  function Minus(a: Kinds, b: Kinds): Kinds
  {
    Kinds(a.r && !b.r, a.w && !b.w, a.c && !b.c)
  }

  /** event_changelist_add_: an add replaces whatever was there. */
  function RecordAdd(ch: Record, kinds: Kinds): Record
  {
    ch.(rc := if kinds.r then Add else ch.rc,
        wc := if kinds.w then Add else ch.wc,
        cc := if kinds.c then Add else ch.cc)
  }

  function DelChange(had: bool): Change
  {
    if had then Del else Keep
  }

  /** event_changelist_del_: deleting what the kernel never had only undoes an add. */
  function RecordDel(ch: Record, kinds: Kinds): Record
  {
    ch.(rc := if kinds.r then DelChange(ch.had.r) else ch.rc,
        wc := if kinds.w then DelChange(ch.had.w) else ch.wc,
        cc := if kinds.c then DelChange(ch.had.c) else ch.cc)
  }

  lemma RecordTargets(ch: Record, kinds: Kinds)
    requires Possible(ch)
    ensures Possible(RecordAdd(ch, kinds)) && Target(RecordAdd(ch, kinds)) == Plus(Target(ch), kinds)
    ensures Possible(RecordDel(ch, kinds)) && Target(RecordDel(ch, kinds)) == Minus(Target(ch), kinds)
  {
  }

  /** A new record for x disturbs no other descriptor. */
  lemma NewRecord(entries: seq<Option<Io>>, changes: seq<Record>, interest: map<int, Kinds>, x: int, had: Kinds)
    requires OthersOk(entries, changes, interest, x) && RecordsOk(entries, changes)
    requires 0 <= x < |entries| && entries[x].Some? && entries[x].value.idxplus1 == 0
    ensures var es := entries[x := Some(entries[x].value.(idxplus1 := |changes| + 1))];
            var cs := changes + [Record(x, had, Keep, Keep, Keep)];
            OthersOk(es, cs, interest, x) && RecordsOk(es, cs)
  {
    var es := entries[x := Some(entries[x].value.(idxplus1 := |changes| + 1))];
    var cs := changes + [Record(x, had, Keep, Keep, Keep)];
    forall fd | 0 <= fd < |es| && fd != x && es[fd].Some?
      ensures var io := es[fd].value;
              Counted(io) && Settled(io.idxplus1, fd, Wanted(io), cs, Have(interest, fd))
    {
      assert es[fd] == entries[fd];
    }
  }

  /** Nor does a change to the record of x. */
  lemma ChangeRecord(entries: seq<Option<Io>>, changes: seq<Record>, interest: map<int, Kinds>, x: int, ch: Record)
    requires OthersOk(entries, changes, interest, x) && RecordsOk(entries, changes)
    requires 0 <= x < |entries| && entries[x].Some? && 0 < entries[x].value.idxplus1 <= |changes|
    requires ch.fd == x == changes[entries[x].value.idxplus1 - 1].fd
    ensures var cs := changes[entries[x].value.idxplus1 - 1 := ch];
            OthersOk(entries, cs, interest, x) && RecordsOk(entries, cs)
  {
    var cs := changes[entries[x].value.idxplus1 - 1 := ch];
    forall fd | 0 <= fd < |entries| && fd != x && entries[fd].Some?
      ensures var io := entries[fd].value;
              Counted(io) && Settled(io.idxplus1, fd, Wanted(io), cs, Have(interest, fd))
    {
      var io := entries[fd].value;
      assert io.idxplus1 != 0 ==> changes[io.idxplus1 - 1].fd == fd;
    }
  }

  /** Nor does new interest in x. */
  lemma NewInterest(entries: seq<Option<Io>>, changes: seq<Record>, was: map<int, Kinds>, now: map<int, Kinds>, x: int)
    requires OthersOk(entries, changes, was, x)
    requires forall fd :: fd != x ==> Have(now, fd) == Have(was, fd)
    ensures OthersOk(entries, changes, now, x)
  {
  }

  /** Nor do the counters of x. */
  lemma NewCounts(entries: seq<Option<Io>>, changes: seq<Record>, interest: map<int, Kinds>, x: int, io: Io)
    requires OthersOk(entries, changes, interest, x) && RecordsOk(entries, changes) && KernelOk(entries, interest)
    requires 0 <= x < |entries| && entries[x].Some? && io.idxplus1 == entries[x].value.idxplus1
    ensures var es := entries[x := Some(io)];
            OthersOk(es, changes, interest, x) && RecordsOk(es, changes) && KernelOk(es, interest)
  {
    var es := entries[x := Some(io)];
    forall fd | 0 <= fd < |es| && fd != x && es[fd].Some?
      ensures var io := es[fd].value;
              Counted(io) && Settled(io.idxplus1, fd, Wanted(io), changes, Have(interest, fd))
    {
      assert es[fd] == entries[fd];
    }
  }

  /** All descriptors are settled once x is. */
  lemma AllOk(entries: seq<Option<Io>>, changes: seq<Record>, interest: map<int, Kinds>, x: int)
    requires OthersOk(entries, changes, interest, x) && 0 <= x < |entries| && entries[x].Some?
    requires var io := entries[x].value;
             Counted(io) && Settled(io.idxplus1, x, Wanted(io), changes, Have(interest, x))
    ensures OthersOk(entries, changes, interest, -1)
  {
  }

  lemma OneOk(entries: seq<Option<Io>>, changes: seq<Record>, interest: map<int, Kinds>, x: int)
    requires OthersOk(entries, changes, interest, -1) && 0 <= x < |entries| && entries[x].Some?
    ensures var io := entries[x].value;
            Counted(io) && Settled(io.idxplus1, x, Wanted(io), changes, Have(interest, x))
    ensures OthersOk(entries, changes, interest, x)
  {
  }

  /** The size the map grows to for a slot. */
  function Grown(n: nat, slot: nat): (m: nat)
    requires n > 0
    ensures m > slot
    decreases if slot < n then 0 else slot - n + 1
  {
    if slot < n then n else Grown(2 * n, slot)
  }

  predicate CanGrow(n: nat, slot: nat)
  {
    slot <= INT_MAX / 2 && Grown(if n == 0 then 32 else n, slot) <= INT_MAX / WORD_SIZE
  }

  /** The event lists of a map, without counters and changelist indices. */
  function Lists(entries: seq<Option<Io>>): (ls: seq<Option<seq<Event>>>)
    ensures |ls| == |entries|
  {
    seq(|entries|, i requires 0 <= i < |entries| => if entries[i].Some? then Some(entries[i].value.events) else None)
  }

  /** The map after evmap_make_space. */
  function WithSpace<T>(es: seq<Option<T>>, slot: nat, ok: bool): (r: seq<Option<T>>)
    ensures |es| <= |r|
  {
    if slot < |es| || !ok || !CanGrow(|es|, slot) then es
    else es + seq(Grown(if |es| == 0 then 32 else |es|, slot) - |es|, _ => None)
  }

  /** The event lists after evmap_io_add_, and its result. An event that would push a
      counter past 16 bits is refused. */
  function AddSpec(ls: seq<Option<seq<Event>>>, fd: int, ev: Event, spaceOk: bool, ctorOk: bool)
    : (r: (seq<Option<seq<Event>>>, int))
  {
    if fd < 0 then (ls, 0)
    else
      var ls' := WithSpace(ls, fd, spaceOk);
      if fd >= |ls'| || (ls'[fd].None? && !ctorOk) then (ls', -1)
      else
        var evs := if ls'[fd].Some? then ls'[fd].value else [];
        if TooMany([ev] + evs) then (ls'[fd := Some(evs)], -1)
        else (ls'[fd := Some([ev] + evs)], if Union([ev] + evs) == Union(evs) then 0 else 1)
  }

  predicate TooMany(evs: seq<Event>)
  {
    Count(evs, Read) > MAX_COUNT || Count(evs, Write) > MAX_COUNT || Count(evs, Closed) > MAX_COUNT
  }

  /** New empty slots are harmless. */
  lemma MoreSpace(entries: seq<Option<Io>>, changes: seq<Record>, interest: map<int, Kinds>, slot: nat, ok: bool)
    requires OthersOk(entries, changes, interest, -1) && RecordsOk(entries, changes) && KernelOk(entries, interest)
    ensures var es := WithSpace(entries, slot, ok);
            OthersOk(es, changes, interest, -1) && RecordsOk(es, changes) && KernelOk(es, interest)
    ensures Lists(WithSpace(entries, slot, ok)) == WithSpace(Lists(entries), slot, ok)
  {
    var es := WithSpace(entries, slot, ok);
    assert forall i :: 0 <= i < |entries| ==> es[i] == entries[i];
    assert forall i :: |entries| <= i < |es| ==> es[i] == None;
  }

  /** A slot for a descriptor nobody watches yet. */
  lemma NewSlot(entries: seq<Option<Io>>, changes: seq<Record>, interest: map<int, Kinds>, x: int)
    requires OthersOk(entries, changes, interest, -1) && RecordsOk(entries, changes) && KernelOk(entries, interest)
    requires 0 <= x < |entries| && entries[x].None?
    ensures var es := entries[x := Some(Io(0, 0, 0, [], 0))];
            OthersOk(es, changes, interest, -1) && RecordsOk(es, changes) && KernelOk(es, interest)
    ensures Lists(entries[x := Some(Io(0, 0, 0, [], 0))]) == Lists(entries)[x := Some([])]
  {
    var es := entries[x := Some(Io(0, 0, 0, [], 0))];
    forall fd | 0 <= fd < |es| && es[fd].Some?
      ensures var io := es[fd].value;
              Counted(io) && Settled(io.idxplus1, fd, Wanted(io), changes, Have(interest, fd))
    {
      assert fd != x ==> es[fd] == entries[fd];
    }
  }

  lemma ListsUpdate(entries: seq<Option<Io>>, x: int, io: Io)
    requires 0 <= x < |entries|
    ensures Lists(entries[x := Some(io)]) == Lists(entries)[x := Some(io.events)]
  {
  }

  lemma ListsSame(entries: seq<Option<Io>>, x: int, io: Io)
    requires 0 <= x < |entries| && entries[x].Some? && entries[x].value.events == io.events
    ensures Lists(entries[x := Some(io)]) == Lists(entries)
  {
  }

  /** The counters after an event joins. */
  function Joined(io: Io, ev: Event): Io
  {
    Io(io.nread + Bit(ev.kinds.r), io.nwrite + Bit(ev.kinds.w), io.nclose + Bit(ev.kinds.c),
       [ev] + io.events, io.idxplus1)
  }

  /** The kinds for which a counter leaves zero. */
  function Fresh(io: Io, ev: Event): Kinds
  {
    Kinds(ev.kinds.r && io.nread == 0, ev.kinds.w && io.nwrite == 0, ev.kinds.c && io.nclose == 0)
  }

  lemma JoinedCounts(io: Io, ev: Event)
    requires Counted(io)
    ensures var io' := Joined(io, ev);
            && Wanted(io') == Plus(Wanted(io), Fresh(io, ev)) == Union([ev] + io.events)
            && (Counted(io') <==> !TooMany([ev] + io.events))
            && (TooMany([ev] + io.events) <==>
                io'.nread > MAX_COUNT || io'.nwrite > MAX_COUNT || io'.nclose > MAX_COUNT)
    ensures Wanted(io) == Union(io.events)
    ensures Fresh(io, ev) == NONE <==> Union([ev] + io.events) == Union(io.events)
  {
    CountCons(ev, io.events, Read);
    CountCons(ev, io.events, Write);
    CountCons(ev, io.events, Closed);
  }

  /** The counters after event number i leaves. */
  function Left(io: Io, i: nat): Io
    requires Counted(io) && i < |io.events|
  {
    CountWithout(io.events, i, Read);
    CountWithout(io.events, i, Write);
    CountWithout(io.events, i, Closed);
    var k := io.events[i].kinds;
    Io(io.nread - Bit(k.r), io.nwrite - Bit(k.w), io.nclose - Bit(k.c), Without(io.events, i), io.idxplus1)
  }

  /** The kinds for which a counter reaches zero. */
  function Gone(io: Io, i: nat): Kinds
    requires i < |io.events|
  {
    var k := io.events[i].kinds;
    Kinds(k.r && io.nread == 1, k.w && io.nwrite == 1, k.c && io.nclose == 1)
  }

  lemma LeftCounts(io: Io, i: nat)
    requires Counted(io) && i < |io.events|
    ensures Counted(Left(io, i)) && Wanted(Left(io, i)) == Minus(Wanted(io), Gone(io, i))
    ensures Gone(io, i) == NONE <==> Union(Without(io.events, i)) == Union(io.events)
  {
    CountWithout(io.events, i, Read);
    CountWithout(io.events, i, Write);
    CountWithout(io.events, i, Closed);
  }

  /** The kinds that the events of a map watch fd for. */
  function WatchedBy(ls: seq<Option<seq<Event>>>, fd: int): Kinds
  {
    if 0 <= fd < |ls| && ls[fd].Some? then Union(ls[fd].value) else NONE
  }

  /** With the first i changes applied, the kernel has the interest these ask for, and
      what it had before for the others. */
  ghost predicate Applied(changes: seq<Record>, i: nat, was: map<int, Kinds>, now: map<int, Kinds>)
    requires i <= |changes|
  {
    && (forall j :: 0 <= j < i ==> Have(now, changes[j].fd) == Target(changes[j]))
    && (forall j :: i <= j < |changes| ==> Have(now, changes[j].fd) == changes[j].had)
    && (forall fd :: (forall j :: 0 <= j < |changes| ==> changes[j].fd != fd) ==> Have(now, fd) == Have(was, fd))
  }

  /** Every record knows what the kernel has, and can be applied. */
  ghost predicate Informed(changes: seq<Record>, interest: map<int, Kinds>)
  {
    && (forall i :: 0 <= i < |changes| ==> Possible(changes[i]) && changes[i].had == Have(interest, changes[i].fd))
    && (forall i, j :: 0 <= i < j < |changes| ==> changes[i].fd != changes[j].fd)
  }

  lemma RecordsInformed(entries: seq<Option<Io>>, changes: seq<Record>, interest: map<int, Kinds>)
    requires OthersOk(entries, changes, interest, -1) && RecordsOk(entries, changes)
    ensures Informed(changes, interest)
  {
    forall i | 0 <= i < |changes|
      ensures Possible(changes[i]) && changes[i].had == Have(interest, changes[i].fd)
    {
      OneOk(entries, changes, interest, changes[i].fd);
    }
    forall i, j | 0 <= i < j < |changes|
      ensures changes[i].fd != changes[j].fd
    {
      assert entries[changes[i].fd].value.idxplus1 == i + 1;
      assert entries[changes[j].fd].value.idxplus1 == j + 1;
    }
  }

  function Cleared(e: Option<Io>): Option<Io>
  {
    if e.Some? then Some(e.value.(idxplus1 := 0)) else e
  }

  /** After all changes are applied, clearing the changelist leaves every descriptor
      settled. */
  lemma Flushed(entries: seq<Option<Io>>, changes: seq<Record>, was: map<int, Kinds>, now: map<int, Kinds>,
                es: seq<Option<Io>>)
    requires OthersOk(entries, changes, was, -1) && RecordsOk(entries, changes)
    requires Applied(changes, |changes|, was, now)
    requires |es| == |entries| && forall fd :: 0 <= fd < |es| ==> es[fd] == Cleared(entries[fd])
    ensures OthersOk(es, [], now, -1)
  {
    forall fd | 0 <= fd < |es| && es[fd].Some?
      ensures var io := es[fd].value;
              Counted(io) && Settled(io.idxplus1, fd, Wanted(io), [], Have(now, fd))
    {
      OneOk(entries, changes, was, fd);
      var io := entries[fd].value;
      if io.idxplus1 == 0 {
        assert forall j :: 0 <= j < |changes| ==> changes[j].fd != fd;
      } else {
        assert changes[io.idxplus1 - 1].fd == fd;
      }
    }
  }

  class Base {
    var entries: seq<Option<Io>>     // event_io_map, nentries long
    var changes: seq<Record>         // the changelist, n_changes long
    var changesSize: nat
    const coalesce: bool             // whether the backend uses the changelist
    const kernel: Kernel

    /** Every descriptor is consistent, x with the interest `want`. */
    ghost predicate ValidFor(x: int, want: Kinds)
      reads this, kernel
    {
      && OthersOk(entries, changes, kernel.interest, x)
      && RecordsOk(entries, changes)
      && KernelOk(entries, kernel.interest)
      && |changes| <= changesSize
      && (!coalesce ==> changes == [])
      && 0 <= x < |entries| && entries[x].Some?
      && Settled(entries[x].value.idxplus1, x, want, changes, Have(kernel.interest, x))
    }

    ghost predicate Valid()
      reads this, kernel
    {
      && OthersOk(entries, changes, kernel.interest, -1)
      && RecordsOk(entries, changes)
      && KernelOk(entries, kernel.interest)
      && |changes| <= changesSize
      && (!coalesce ==> changes == [])
    }

    constructor (coalesce: bool)
      ensures Valid() && this.coalesce == coalesce && entries == [] && fresh(kernel)
    {
      entries, changes, changesSize := [], [], 0;
      this.coalesce := coalesce;
      kernel := new Kernel();
    }

    /** Only the changelist index of x may differ. */
    twostate predicate SameLists(x: int)
      requires 0 <= x < |old(entries)| && old(entries[x]).Some?
      reads this
    {
      && |entries| == |old(entries)| && entries[x].Some?
      && entries == old(entries)[x := Some(old(entries[x]).value.(idxplus1 := entries[x].value.idxplus1))]
    }

    /** event_changelist_get_or_construct: the index of the record of fd. */
    method GetOrConstruct(fd: int, had: Kinds) returns (i: nat)
      requires ValidFor(fd, had) && coalesce
      modifies this`entries, this`changes, this`changesSize
      ensures ValidFor(fd, had) && SameLists(fd)
      ensures entries[fd].value.idxplus1 == i + 1
    {
      hide OthersOk, RecordsOk;
      var io := entries[fd].value;
      if io.idxplus1 == 0 {
        if |changes| == changesSize {
          changesSize := if changesSize < 64 then 64 else changesSize * 2;
        }
        NewRecord(entries, changes, kernel.interest, fd, had);
        i := |changes|;
        entries := entries[fd := Some(io.(idxplus1 := i + 1))];
        changes := changes + [Record(fd, had, Keep, Keep, Keep)];
      } else {
        i := io.idxplus1 - 1;
        assert changes[i].fd == fd;
      }
    }

    /** event_changelist_add_ */
    method ChangelistAdd(fd: int, had: Kinds, kinds: Kinds)
      requires ValidFor(fd, had) && coalesce
      modifies this`entries, this`changes, this`changesSize
      ensures ValidFor(fd, Plus(had, kinds)) && SameLists(fd)
    {
      hide OthersOk, RecordsOk, Possible, Target, Plus;
      var i := GetOrConstruct(fd, had);
      RecordTargets(changes[i], kinds);
      ChangeRecord(entries, changes, kernel.interest, fd, RecordAdd(changes[i], kinds));
      changes := changes[i := RecordAdd(changes[i], kinds)];
    }

    /** event_changelist_del_ */
    method ChangelistDel(fd: int, had: Kinds, kinds: Kinds)
      requires ValidFor(fd, had) && coalesce
      modifies this`entries, this`changes, this`changesSize
      ensures ValidFor(fd, Minus(had, kinds)) && SameLists(fd)
    {
      hide OthersOk, RecordsOk, Possible, Target, Minus;
      var i := GetOrConstruct(fd, had);
      RecordTargets(changes[i], kinds);
      ChangeRecord(entries, changes, kernel.interest, fd, RecordDel(changes[i], kinds));
      changes := changes[i := RecordDel(changes[i], kinds)];
    }
  
    /** epoll_nochangelist_add */
    method DirectAdd(fd: int, had: Kinds, kinds: Kinds)
      requires ValidFor(fd, had) && !coalesce
      modifies kernel
      ensures ValidFor(fd, Plus(had, kinds))
    {
      hide OthersOk, RecordsOk;
      var ch := Record(fd, had, if kinds.r then Add else Keep, if kinds.w then Add else Keep, if kinds.c then Add else Keep);
      ghost var was := kernel.interest;
      var _ := ApplyOneChange(kernel, ch);
      NewInterest(entries, changes, was, kernel.interest, fd);
    }

    /** epoll_nochangelist_del */
    method DirectDel(fd: int, had: Kinds, kinds: Kinds)
      requires ValidFor(fd, had) && !coalesce
      modifies kernel
      ensures ValidFor(fd, Minus(had, kinds))
    {
      hide OthersOk, RecordsOk;
      var ch := Record(fd, had, if kinds.r then Del else Keep, if kinds.w then Del else Keep, if kinds.c then Del else Keep);
      ghost var was := kernel.interest;
      var _ := ApplyOneChange(kernel, ch);
      NewInterest(entries, changes, was, kernel.interest, fd);
    }

    /** evmap_make_space */
    method MakeSpace(slot: nat, mallocOk: bool) returns (ok: bool)
      requires Valid()
      modifies this`entries
      ensures Valid() && entries == WithSpace(old(entries), slot, mallocOk)
      ensures ok <==> slot < |entries|
    {
      MoreSpace(entries, changes, kernel.interest, slot, mallocOk);
      if |entries| <= slot {
        var n := if |entries| == 0 then 32 else |entries|;
        if slot > INT_MAX / 2 {
          return false;
        }
        while n <= slot
          invariant n > 0 && |entries| <= n
          invariant Grown(n, slot) == Grown(if |entries| == 0 then 32 else |entries|, slot)
          decreases slot - n
        {
          n := 2 * n;
        }
        if n > INT_MAX / WORD_SIZE || !mallocOk {
          return false;
        }
        entries := entries + seq(n - |entries|, _ => None);
      }
      ok := true;
    }
  
    /** evsel->add */
    method BackendAdd(fd: int, had: Kinds, kinds: Kinds)
      requires ValidFor(fd, had)
      modifies this`entries, this`changes, this`changesSize, kernel
      ensures ValidFor(fd, Plus(had, kinds)) && SameLists(fd)
    {
      if coalesce {
        ChangelistAdd(fd, had, kinds);
      } else {
        DirectAdd(fd, had, kinds);
        assert entries[fd := Some(entries[fd].value)] == entries;
      }
    }

    /** evsel->del */
    method BackendDel(fd: int, had: Kinds, kinds: Kinds)
      requires ValidFor(fd, had)
      modifies this`entries, this`changes, this`changesSize, kernel
      ensures ValidFor(fd, Minus(had, kinds)) && SameLists(fd)
    {
      if coalesce {
        ChangelistDel(fd, had, kinds);
      } else {
        DirectDel(fd, had, kinds);
        assert entries[fd := Some(entries[fd].value)] == entries;
      }
    }

    /** evmap_io_add_: finds or makes the slot of fd. */
    method Slot(fd: nat, spaceOk: bool, ctorOk: bool) returns (ok: bool)
      requires Valid()
      modifies this`entries
      ensures Valid()
      ensures ok <==> fd < |entries| && entries[fd].Some?
      ensures var ls := WithSpace(Lists(old(entries)), fd, spaceOk);
              && (ok <==> fd < |ls| && (ls[fd].Some? || ctorOk))
              && Lists(entries) == (if ok && ls[fd].None? then ls[fd := Some([])] else ls)
    {
      hide OthersOk, RecordsOk, KernelOk, WithSpace;
      MoreSpace(entries, changes, kernel.interest, fd, spaceOk);
      ok := MakeSpace(fd, spaceOk);
      if ok && entries[fd].None? {
        if !ctorOk {
          return false;
        }
        NewSlot(entries, changes, kernel.interest, fd);
        entries := entries[fd := Some(Io(0, 0, 0, [], 0))];
      }
    }

    /** Writes the counters and the event list of fd. */
    method SetCounts(fd: int, io: Io)
      requires ValidFor(fd, Wanted(io)) && Counted(io)
      modifies this`entries
      ensures Valid() && Lists(entries) == Lists(old(entries))[fd := Some(io.events)]
    {
      hide OthersOk, RecordsOk, KernelOk, Settled, Lists, Count;
      var io' := io.(idxplus1 := entries[fd].value.idxplus1);
      NewCounts(entries, changes, kernel.interest, fd, io');
      ListsUpdate(entries, fd, io');
      entries := entries[fd := Some(io')];
      AllOk(entries, changes, kernel.interest, fd);
    }

    /** evmap_io_add_, once the slot is there */
    method AddToSlot(fd: nat, ev: Event) returns (r: int)
      requires Valid() && fd < |entries| && entries[fd].Some?
      modifies this`entries, this`changes, this`changesSize, kernel
      ensures Valid()
      ensures var evs := old(entries[fd]).value.events;
              if TooMany([ev] + evs) then r == -1 && Lists(entries) == Lists(old(entries))
              else && Lists(entries) == Lists(old(entries))[fd := Some([ev] + evs)]
                   && r == if Union([ev] + evs) == Union(evs) then 0 else 1
    {
      hide OthersOk, RecordsOk, KernelOk, Counted, Settled, Lists, TooMany, Union, Wanted, Plus;
      var io := entries[fd].value;
      OneOk(entries, changes, kernel.interest, fd);
      JoinedCounts(io, ev);
      var io' := Joined(io, ev);
      if io'.nread > MAX_COUNT || io'.nwrite > MAX_COUNT || io'.nclose > MAX_COUNT {
        return -1;
      }
      r := 0;
      var res := Fresh(io, ev);
      if res != NONE {
        BackendAdd(fd, Wanted(io), res);
        ListsSame(old(entries), fd, entries[fd].value);
        r := 1;
      }
      SetCounts(fd, io');
    }
  
    /** evmap_io_add_ */
    method IoAdd(fd: int, ev: Event, spaceOk: bool, ctorOk: bool) returns (r: int)
      requires Valid()
      modifies this`entries, this`changes, this`changesSize, kernel
      ensures Valid()
      ensures (Lists(entries), r) == AddSpec(Lists(old(entries)), fd, ev, spaceOk, ctorOk)
    {
      hide OthersOk, RecordsOk, KernelOk, WithSpace, TooMany, Union, Count;
      if fd < 0 {
        return 0;
      }
      var ok := Slot(fd, spaceOk, ctorOk);
      if !ok {
        return -1;
      }
      ghost var ls := WithSpace(Lists(old(entries)), fd, spaceOk);
      ghost var evs := if ls[fd].Some? then ls[fd].value else [];
      assert Lists(entries) == ls[fd := Some(evs)];
      assert Lists(entries)[fd] == Some(entries[fd].value.events);
      assert ls[fd := Some(evs)][fd := Some([ev] + evs)] == ls[fd := Some([ev] + evs)];
      r := AddToSlot(fd, ev);
    }

    /** evmap_io_del_ of the event at place i of the list of fd; refused for a descriptor
        beyond the table. The assertions that no counter goes below zero hold. */
    method IoDel(fd: int, i: nat) returns (r: int)
      requires Valid() && (0 <= fd < |entries| ==> entries[fd].Some? && i < |entries[fd].value.events|)
      modifies this`entries, this`changes, this`changesSize, kernel
      ensures Valid()
      ensures fd < 0 ==> r == 0 && Lists(entries) == Lists(old(entries))
      ensures fd >= |old(entries)| ==> r == -1 && Lists(entries) == Lists(old(entries))
      ensures 0 <= fd < |old(entries)| ==>
                var evs := old(entries[fd]).value.events;
                && Lists(entries) == Lists(old(entries))[fd := Some(Without(evs, i))]
                && r == if Union(Without(evs, i)) == Union(evs) then 0 else 1
    {
      hide OthersOk, RecordsOk, KernelOk, Counted, Settled, Lists, Union, Wanted;
      if fd < 0 {
        return 0;
      }
      if fd >= |entries| {
        return -1;
      }
      var io := entries[fd].value;
      OneOk(entries, changes, kernel.interest, fd);
      LeftCounts(io, i);
      r := 0;
      var res := Gone(io, i);
      if res != NONE {
        BackendDel(fd, Wanted(io), res);
        ListsSame(old(entries), fd, entries[fd].value);
        r := 1;
      }
      SetCounts(fd, Left(io, i));
    }
  
    /** epoll_apply_changes: no change is impossible, and none fails. */
    method ApplyChanges() returns (r: int)
      requires Valid()
      modifies kernel
      ensures r == 0 && Applied(changes, |changes|, old(kernel.interest), kernel.interest)
      ensures KernelOk(entries, kernel.interest)
    {
      hide OthersOk;
      ghost var was := kernel.interest;
      RecordsInformed(entries, changes, was);
      r := 0;
      for i := 0 to |changes|
        invariant r == 0 && Applied(changes, i, was, kernel.interest)
        invariant KernelOk(entries, kernel.interest)
      {
        var outcome := ApplyOneChange(kernel, changes[i]);
        if outcome != Done {
          r := -1;
        }
      }
    }

    /** event_changelist_remove_all_: its assertion that every descriptor points back
        at its record holds. */
    method RemoveAll()
      requires RecordsOk(entries, changes)
      requires forall fd :: 0 <= fd < |entries| && entries[fd].Some? && entries[fd].value.idxplus1 != 0 ==>
                 var i := entries[fd].value.idxplus1 - 1; i < |changes| && changes[i].fd == fd
      modifies this`entries, this`changes
      ensures changes == [] && |entries| == |old(entries)|
      ensures forall fd :: 0 <= fd < |entries| ==> entries[fd] == Cleared(old(entries)[fd])
    {
      ghost var es := entries;
      for i := 0 to |changes|
        invariant changes == old(changes) && |entries| == |es|
        invariant forall fd :: 0 <= fd < |es| ==>
          entries[fd] == if es[fd].Some? && 0 < es[fd].value.idxplus1 <= i then Cleared(es[fd]) else es[fd]
      {
        var fd := changes[i].fd;
        assert entries[fd].value.idxplus1 == i + 1;
        entries := entries[fd := Some(entries[fd].value.(idxplus1 := 0))];
      }
      changes := [];
    }
  
    /** What epoll_dispatch does before it waits. */
    method Dispatch() returns (r: int)
      requires Valid()
      modifies this`entries, this`changes, kernel
      ensures Valid() && r == 0 && changes == [] && Lists(entries) == Lists(old(entries))
      ensures forall fd :: Have(kernel.interest, fd) == WatchedBy(Lists(entries), fd)
    {
      hide RecordsOk, Applied;
      ghost var es, was := entries, kernel.interest;
      r := ApplyChanges();
      assert forall fd :: 0 <= fd < |entries| && entries[fd].Some? && entries[fd].value.idxplus1 != 0 ==>
        var i := entries[fd].value.idxplus1 - 1; i < |changes| && changes[i].fd == fd;
      ghost var cs := changes;
      RemoveAll();
      Flushed(es, cs, was, kernel.interest, entries);
      NoRecords(entries);
      SettledKernel(entries, kernel.interest);
    }
  }

  lemma NoRecords(entries: seq<Option<Io>>)
    ensures RecordsOk(entries, [])
  {
  }

  /** With an empty changelist the kernel has exactly the interest the events want. */
  lemma SettledKernel(entries: seq<Option<Io>>, interest: map<int, Kinds>)
    requires OthersOk(entries, [], interest, -1) && KernelOk(entries, interest)
    ensures forall fd :: Have(interest, fd) == WatchedBy(Lists(entries), fd)
  {
    forall fd
      ensures Have(interest, fd) == WatchedBy(Lists(entries), fd)
    {
      if 0 <= fd < |entries| && entries[fd].Some? {
        OneOk(entries, [], interest, fd);
      }
    }
  }

  datatype MapOp =
    | AddEvent(fd: int, ev: Event, spaceOk: bool, ctorOk: bool)
    | DelEvent(fd: int, at: nat)
    | Flush

  /** The event lists after one operation; only an event that is in the list of a
      descriptor is deleted from it. */
  function OpSpec(ls: seq<Option<seq<Event>>>, op: MapOp): seq<Option<seq<Event>>>
  {
    match op
    case AddEvent(fd, ev, spaceOk, ctorOk) => AddSpec(ls, fd, ev, spaceOk, ctorOk).0
    case DelEvent(fd, at) =>
      if 0 <= fd < |ls| && ls[fd].Some? && at < |ls[fd].value|
      then ls[fd := Some(Without(ls[fd].value, at))] else ls
    case Flush => ls
  }

  function RunSpec(ls: seq<Option<seq<Event>>>, ops: seq<MapOp>): seq<Option<seq<Event>>>
    decreases |ops|
  {
    if ops == [] then ls else RunSpec(OpSpec(ls, ops[0]), ops[1..])
  }

  /** Any run keeps records, counters and kernel consistent, and what is watched does
      not depend on whether changes are saved up. */
  method RunOps(base: Base, ops: seq<MapOp>)
    requires base.Valid()
    modifies base, base.kernel
    ensures base.Valid() && Lists(base.entries) == RunSpec(Lists(old(base.entries)), ops)
    decreases ops
  {
    hide OthersOk, RecordsOk, KernelOk, AddSpec;
    if ops != [] {
      match ops[0] {
        case AddEvent(fd, ev, spaceOk, ctorOk) =>
          var _ := base.IoAdd(fd, ev, spaceOk, ctorOk);
        case DelEvent(fd, at) =>
          if 0 <= fd < |base.entries| && base.entries[fd].Some? && at < |base.entries[fd].value.events| {
            var _ := base.IoDel(fd, at);
          }
        case Flush =>
          var _ := base.Dispatch();
      }
      RunOps(base, ops[1..]);
    }
  }

  /** Saving changes up and sending each one straight to the kernel have the same
      effect by the next dispatch: the kernel watches each descriptor for exactly the
      kinds its events ask for. */
  method CoalescedIsImmediate(saving: Base, direct: Base, ops: seq<MapOp>)
    requires saving.Valid() && direct.Valid() && saving != direct && saving.kernel != direct.kernel
    requires saving.coalesce && !direct.coalesce && Lists(saving.entries) == Lists(direct.entries)
    modifies saving, saving.kernel, direct, direct.kernel
    ensures saving.Valid() && direct.Valid() && Lists(saving.entries) == Lists(direct.entries)
    ensures forall fd :: Have(saving.kernel.interest, fd) == Have(direct.kernel.interest, fd)
    ensures forall fd :: Have(direct.kernel.interest, fd) == WatchedBy(Lists(direct.entries), fd)
  {
    hide OthersOk, RecordsOk, KernelOk, Lists, WatchedBy;
    RunOps(saving, ops);
    RunOps(direct, ops);
    SettledKernel(direct.entries, direct.kernel.interest);
    var _ := saving.Dispatch();
  }
}

/** Measuring and making room at the end of an evbuffer: evbuffer_expand_fast_. */
module EvbufferSpace {
  import opened Bytes
  import opened EvbufferCore

  ghost function Sum(ns: seq<nat>): nat
  {
    if ns == [] then 0 else ns[0] + Sum(ns[1..])
  }

  lemma {:induction false} SumSnoc(ns: seq<nat>, n: nat)
    ensures Sum(ns + [n]) == Sum(ns) + n
  {
    if ns == [] {
      assert ns + [n] == [n];
    } else {
      SumSnoc(ns[1..], n);
      assert (ns + [n])[1..] == ns[1..] + [n];
    }
  }

  /** From number f on, the chains have sp[0], sp[1], ... writable bytes. */
  ghost predicate Offers(cs: seq<Chain>, f: nat, sp: seq<nat>)
    reads cs`mem, cs`misalign, cs`off
  {
    && f + |sp| <= |cs|
    && forall j :: f <= j < f + |sp| ==> cs[j].Ok() && cs[j].SpaceLen() == sp[j - f]
  }

  lemma OffersNil(cs: seq<Chain>, f: nat)
    requires f <= |cs|
    ensures Offers(cs, f, []) && Sum([]) == 0
  {
  }

  lemma {:induction false} OffersSnoc(cs: seq<Chain>, f: nat, sp: seq<nat>)
    requires Offers(cs, f, sp) && f + |sp| < |cs| && cs[f + |sp|].Ok()
    ensures Offers(cs, f, sp + [cs[f + |sp|].SpaceLen()])
    ensures Sum(sp + [cs[f + |sp|].SpaceLen()]) == Sum(sp) + cs[f + |sp|].SpaceLen()
  {
    hide Sum;
    var n := cs[f + |sp|].SpaceLen();
    SumSnoc(sp, n);
    var t := sp + [n];
    forall j | f <= j < f + |t|
      ensures cs[j].Ok() && cs[j].SpaceLen() == t[j - f]
    {
      assert j < f + |sp| ==> t[j - f] == sp[j - f];
    }
  }

  /** A leading chain without room may be left out. */
  lemma {:induction false} OffersTail(cs: seq<Chain>, f: nat, sp: seq<nat>)
    requires Offers(cs, f, sp) && sp != []
    ensures Offers(cs, f + 1, sp[1..]) && Sum(sp) == sp[0] + Sum(sp[1..])
    ensures cs[f].Ok() && sp[0] == cs[f].SpaceLen()
  {
    var t := sp[1..];
    forall j | f + 1 <= j < f + 1 + |t|
      ensures cs[j].Ok() && cs[j].SpaceLen() == t[j - f - 1]
    {
      assert t[j - f - 1] == sp[j - f];
    }
  }

  twostate lemma OffersSame(cs: seq<Chain>, new f: nat, new sp: seq<nat>)
    requires old(Offers(cs, f, sp))
    requires forall j :: f <= j < f + |sp| ==> cs[j].SameBytes()
    ensures Offers(cs, f, sp)
  {
    forall j | f <= j < f + |sp|
      ensures cs[j].Ok() && cs[j].SpaceLen() == sp[j - f]
    {
      assert old(cs[j].Ok()) && old(cs[j].SpaceLen()) == sp[j - f];
    }
  }

  /** The first chain with writable space is the last chain with data, or the one
      behind it; from there on sp lists the writable bytes of the chains. */
  ghost predicate Room(buf: Evbuffer, sp: seq<nat>)
    reads buf, buf.chains
  {
    && buf.k < |buf.chains| && buf.chains[buf.k].Ok()
    && Offers(buf.chains, if buf.chains[buf.k].SpaceLen() == 0 then buf.k + 1 else buf.k, sp)
  }

  /** evbuffer_expand_fast_: an empty chain is realigned. */
  method RealignEmpty(buf: Evbuffer, c: Chain, ghost i: nat)
    requires buf.Valid() && i < |buf.chains| && c == buf.chains[i] && c.off == 0
    modifies c`misalign
    ensures buf.Valid() && c.Ok() && c.SpaceLen() == |c.mem|
  {
    hide Distinct, Linked, Holds, LastWithData, Kept, Flatten, SlotAt;
    HoldsAt(buf.chains, buf.datas, i);
    c.misalign := 0;
    assert c.Data() == buf.datas[i];
    HoldsUpdate(buf.chains, buf.datas, i);
    assert buf.datas[i := buf.datas[i]] == buf.datas;
  }

  /** The room a chain has once it is realigned if it is empty. */
  ghost function Usable(c: Chain): nat
    reads c`mem, c`misalign, c`off
  {
    if c.off == 0 then |c.mem| else if c.Ok() then c.SpaceLen() else 0
  }

  /** evbuffer_expand_fast_: one chain's room, and whether the chain counts as used. */
  method MeasureChain(buf: Evbuffer, chain: Chain, ghost i: nat) returns (space: nat, counted: bool)
    requires buf.Valid() && buf.k <= i < |buf.chains| && chain == buf.chains[i]
    modifies chain`misalign
    ensures buf.Valid() && chain.Ok() && space == chain.SpaceLen()
    ensures counted <==> space > 0 || chain.off == 0
    ensures counted <== i > buf.k
    ensures space == old(Usable(chain))
  {
    hide Distinct, Linked, Holds, LastWithData, Kept, Flatten, SlotAt;
    HoldsAt(buf.chains, buf.datas, i);
    if chain.off != 0 {
      BehindLwd(buf.datas, buf.k, i);
      space := chain.SpaceLen();
      counted := space > 0;
    } else {
      RealignEmpty(buf, chain, i);
      space, counted := |chain.mem|, true;
    }
  }

  /** Whether the first chains from number i on, as many as `left` of which may be used,
      have the room needed; if not, how much is missing. */
  datatype Found = Enough | Lacking(missing: nat, allUsed: bool)

  ghost function Search(cs: seq<Chain>, i: nat, left: nat, need: nat): Found
    requires left > 0
    reads cs`mem, cs`misalign, cs`off
    decreases |cs| - i
  {
    if i >= |cs| then Lacking(need, false)
    else
      var s := Usable(cs[i]);
      var l := if s > 0 || cs[i].off == 0 then left - 1 else left;
      if s >= need then Enough
      else if l == 0 then Lacking(need - s, true)
      else Search(cs, i + 1, l, need - s)
  }

  /** evbuffer_expand_fast_, the loop: how much room the first n chains with room have. */
  method MeasureSpace(buf: Evbuffer, datlen: nat, n: nat)
    returns (enough: bool, avail: nat, used: nat, ghost sp: seq<nat>)
    requires buf.Valid() && buf.chains != [] && buf.k < |buf.chains| && n >= 2
    modifies ChainSet(buf.chains)`misalign
    ensures buf.Valid()
    ensures sp != [] && Offers(buf.chains, buf.k, sp) && avail == Sum(sp)
    ensures used <= n && |sp| <= used + (if sp[0] == 0 then 1 else 0)
    ensures if enough then avail >= datlen
            else avail < datlen && (used == n || buf.k + |sp| == |buf.chains|)
    ensures old(Search(buf.chains, buf.k, n, datlen)) == if enough then Enough else Lacking(datlen - avail, used == n)
    ensures sp[0] == old(Usable(buf.chains[buf.k])) && (datlen == 0 ==> enough && |sp| == 1)
  {
    hide Distinct, Linked, Holds, LastWithData, Kept, Flatten, SlotAt, Offers, Sum, Search;
    ghost var cs, ds, k := buf.chains, buf.datas, buf.k;
    buf.DerefLwd();
    avail, used, sp := 0, 0, [];
    var chain := buf.Deref(buf.lwd);
    OffersNil(cs, k);
    while chain != null
      invariant buf.Valid() && buf.chains == cs && buf.datas == ds && buf.k == k < |cs|
      invariant k + |sp| <= |cs| && chain == ChainAt(cs, k + |sp|)
      invariant Offers(cs, k, sp) && avail == Sum(sp)
      invariant if sp == [] then used == 0 else |sp| <= used + (if sp[0] == 0 then 1 else 0) && avail < datlen
      invariant used < n
      invariant forall j :: k + |sp| <= j < |cs| ==> cs[j].SameBytes()
      invariant sp != [] ==> sp[0] == old(Usable(cs[k])) && datlen > 0
      invariant avail <= datlen && old(Search(cs, k, n, datlen)) == old(Search(cs, k + |sp|, n - used, datlen - avail))
      decreases |cs| - |sp|
    {
      ghost var i := k + |sp|;
      LinkedAt(buf.first, cs, i);
      DistinctRange(cs, k, i);
      assert chain in ChainSet(cs);
      label Before:
      SearchStep(cs, i, n - used, datlen - avail);
      var space, counted := MeasureChain(buf, chain, i);
      OffersSame@Before(cs, k, sp);
      OffersSnoc(cs, k, sp);
      avail := avail + space;
      if counted {
        used := used + 1;
      }
      sp := sp + [space];
      if avail >= datlen {
        return true, avail, used, sp;
      }
      if used == n {
        break;
      }
      chain := chain.next;
    }
    SearchStep(cs, k + |sp|, n - used, datlen - avail);
    enough := false;
  }

  twostate lemma SearchStep(cs: seq<Chain>, new i: nat, new left: int, new need: int)
    ensures left > 0 && need >= 0 ==>
              if i >= |cs| then old(Search(cs, i, left, need)) == Lacking(need, false)
              else
                var s := old(Usable(cs[i]));
                var l := if s > 0 || old(cs[i].off) == 0 then left - 1 else left;
                old(Search(cs, i, left, need)) == if s >= need then Enough else if l == 0 then Lacking(need - s, true) else old(Search(cs, i + 1, l, need - s))
  {
  }

  lemma DistinctRange(cs: seq<Chain>, a: nat, i: nat)
    requires Distinct(cs) && a <= i < |cs|
    ensures forall j :: a <= j < |cs| && j != i ==> cs[j] != cs[i]
  {
  }

  lemma BehindLwd(ds: seq<seq<byte>>, k: nat, i: nat)
    requires LastWithData(ds, k) && k <= i < |ds| && ds[i] != []
    ensures i == k
  {
  }

  /** What the chains from the last one with data on offer, seen from the first
      writable chain. */
  lemma RoomFrom(buf: Evbuffer, all: seq<nat>) returns (sp: seq<nat>)
    requires Offers(buf.chains, buf.k, all) && all != []
    ensures Room(buf, sp) && Sum(sp) == Sum(all)
    ensures |sp| == |all| - if all[0] == 0 then 1 else 0
  {
    OffersTail(buf.chains, buf.k, all);
    sp := if all[0] == 0 then all[1..] else all;
  }

  /** evbuffer_expand_fast_: hangs an empty chain behind the last one. */
  method AppendEmpty(buf: Evbuffer, tmp: Chain)
    requires buf.Valid() && buf.chains != []
    requires tmp !in buf.chains && tmp.next == null && tmp.Ok() && tmp.off == 0
    modifies buf, ChainSet(buf.chains)`next
    ensures buf.Valid() && buf.SameFlags()
    ensures buf.chains == old(buf.chains) + [tmp] && buf.k == old(buf.k)
    ensures buf.Contents() == old(buf.Contents())
  {
    hide Distinct, Linked, Holds, LastWithData, Kept, Flatten, SlotAt;
    ghost var cs, ds, k := buf.chains, buf.datas, buf.k;
    LastIsSlot(buf);
    OneChain(tmp);
    SnocEmpty(ds, k, tmp.Data());
    ListSnoc(cs, ds, tmp);
    SlotPrefix(cs, [tmp], k);
    assert buf.last in ChainSet(cs);
    buf.JoinAt(NextOf(buf.last), tmp, [tmp]);
    buf.SetHeader(tmp, buf.lwd, buf.totalLen, cs + [tmp], ds + [tmp.Data()], k);
  }

  lemma LastIsSlot(buf: Evbuffer)
    requires buf.Valid() && buf.chains != []
    ensures buf.last != null && buf.last in buf.chains && NextOf(buf.last) == SlotAt(buf.chains, |buf.chains|)
  {
  }

  lemma SnocEmpty(ds: seq<seq<byte>>, k: nat, d: seq<byte>)
    requires LastWithData(ds, k) && ds != [] && d == []
    ensures LastWithData(ds + [d], k) && Flatten(ds + [d]) == Flatten(ds)
  {
    FlattenConcat(ds, [d]);
    FlattenSingle(d);
  }

  /** evbuffer_expand_fast_, the last case: all empty chains give way to a new one. */
  method ReplaceEmpty(buf: Evbuffer, size: nat, mallocOk: bool) returns (tmp: Chain?)
    requires buf.Valid()
    modifies buf, ChainSet(buf.chains)`next
    ensures buf.Valid() && buf.SameFlags() && buf.k == old(buf.k)
    ensures buf.Contents() == old(buf.Contents())
    ensures tmp == null <==> !mallocOk || size > MAX_ALLOC
    ensures tmp == null ==> buf.chains <= old(buf.chains)
    ensures tmp != null ==>
              && fresh(tmp) && tmp.bufferLen <= MAX_ALLOC && buf.chains == old(buf.chains[..Kept(buf.datas, buf.k)]) + [tmp]
              && tmp.Ok() && size <= tmp.SpaceLen() && 0 < tmp.SpaceLen()
  {
    hide Distinct, Linked, Holds, LastWithData, Kept, Flatten, SlotAt;
    var slot := buf.FreeTrailingEmptyChains();
    tmp := ChainNew(size, mallocOk);
    if tmp == null {
      buf.last := if slot.First? then null else slot.chain;
      SlotIsLast(buf, slot);
    } else {
      buf.LinkAtEnd(slot, tmp);
    }
  }

  lemma SlotIsLast(buf: Evbuffer, slot: Slot)
    requires slot == SlotAt(buf.chains, |buf.chains|)
    ensures (if slot.First? then null else slot.chain) == if buf.chains == [] then null else buf.chains[|buf.chains| - 1]
  {
  }

  /** The room behind the last chain with data and in the empty chain that follows. */
  lemma RoomOfTwo(buf: Evbuffer, tmp: Chain, old_: seq<Chain>, ds: seq<seq<byte>>) returns (sp: seq<nat>)
    requires buf.Valid() && LastWithData(ds, buf.k) && |old_| == |ds|
    requires buf.chains == old_[..Kept(ds, buf.k)] + [tmp] && tmp.Ok() && 0 < tmp.SpaceLen()
    ensures Room(buf, sp) && |sp| <= 2 && Sum(sp) >= tmp.SpaceLen()
    ensures buf.k < |old_| && old_[buf.k].Ok() && ds[buf.k] != [] ==>
              Sum(sp) >= old_[buf.k].SpaceLen() + tmp.SpaceLen()
  {
    var k := buf.k;
    HoldsAt(buf.chains, buf.datas, k);
    var all := if Kept(ds, k) == k then [tmp.SpaceLen()] else [buf.chains[k].SpaceLen(), tmp.SpaceLen()];
    assert |all| == 2 ==> all[1..] == [tmp.SpaceLen()];
    assert Offers(buf.chains, k, all);
    sp := RoomFrom(buf, all);
  }

  /** evbuffer_chain_insert_new */
  method InsertNew(buf: Evbuffer, datlen: nat, mallocOk: bool) returns (chain: Chain?, ghost sp: seq<nat>)
    requires buf.Valid()
    modifies buf, ChainSet(buf.chains)`next
    ensures buf.Valid() && buf.OnlyNewChains() && buf.SameFlags()
    ensures buf.Contents() == old(buf.Contents())
    ensures chain == null <==> !mallocOk || datlen > MAX_ALLOC
    ensures chain != null ==>
              && buf.last == chain && chain.Ok() && chain.off == 0 && datlen <= chain.SpaceLen()
              && Room(buf, sp) && 0 < |sp| <= 2 && Sum(sp) >= datlen
  {
    hide Distinct, Linked, Holds, LastWithData, Kept, Flatten, SlotAt, Offers, Sum, Room;
    ghost var cs, ds := buf.chains, buf.datas;
    sp := [];
    chain := ChainNew(datlen, mallocOk);
    if chain != null {
      buf.ChainInsert(chain);
      SumNil();
      sp := RoomOfTwo(buf, chain, cs, ds);
    }
  }

  lemma SumNil()
    ensures Sum([]) == 0
  {
  }

  /** evbuffer_expand_fast_: one more chain for what is missing. */
  method AddChain(buf: Evbuffer, missing: nat, mallocOk: bool, ghost all: seq<nat>) returns (ok: bool, ghost sp: seq<nat>)
    requires buf.Valid() && all != [] && Offers(buf.chains, buf.k, all) && buf.k + |all| == |buf.chains|
    modifies buf, ChainSet(buf.chains)`next
    ensures buf.Valid() && buf.OnlyNewChains() && buf.SameFlags()
    ensures buf.Contents() == old(buf.Contents())
    ensures ok <==> mallocOk && missing <= MAX_ALLOC
    ensures ok ==> Room(buf, sp) && |sp| == |all| + (if all[0] == 0 then 0 else 1) && Sum(sp) >= Sum(all) + missing
  {
    hide Distinct, Linked, Holds, LastWithData, Kept, Flatten, SlotAt, Offers, Sum, Room;
    ghost var cs, k := buf.chains, buf.k;
    sp := [];
    var tmp := ChainNew(missing, mallocOk);
    ok := tmp != null;
    if ok {
      label Before:
      AppendEmpty(buf, tmp);
      OffersSame@Before(cs, k, all);
      OffersMore(cs, k, all, tmp);
      sp := RoomFrom(buf, all + [tmp.SpaceLen()]);
    }
  }

  /** evbuffer_expand_fast_ finds the room, or can allocate what is missing. */
  ghost predicate CanExpand(buf: Evbuffer, datlen: nat, n: nat, mallocOk: bool)
    requires buf.Valid() && n >= 2
    reads buf, buf.chains
  {
    if buf.last == null || buf.last.immutable then mallocOk && datlen <= MAX_ALLOC
    else
      match Search(buf.chains, buf.k, n, datlen)
      case Enough => true
      case Lacking(missing, allUsed) =>
        mallocOk && (if allUsed then datlen - (if buf.chains[buf.k].off == 0 then 0 else Usable(buf.chains[buf.k])) else missing) <= MAX_ALLOC
  }

  /** evbuffer_expand_fast_: room for datlen bytes in at most n chains, or - if and only if
      it is not there and cannot be allocated - failure. */
  method ExpandFast(buf: Evbuffer, datlen: nat, n: nat, mallocOk: bool) returns (ok: bool, ghost sp: seq<nat>)
    requires buf.Valid() && n >= 2
    modifies buf, ChainSet(buf.chains)`next, ChainSet(buf.chains)`misalign
    ensures buf.Valid() && buf.OnlyNewChains() && buf.SameFlags()
    ensures buf.Contents() == old(buf.Contents())
    ensures ok ==> Room(buf, sp) && |sp| <= n && Sum(sp) >= datlen
    ensures ok <==> old(CanExpand(buf, datlen, n, mallocOk))
    ensures datlen == 0 && old(buf.last != null && !buf.last.immutable) ==>
              (&& ok && buf.chains == old(buf.chains) && buf.k == old(buf.k)
               && old(buf.k < |buf.chains|) && Offers(buf.chains, buf.k, [old(Usable(buf.chains[buf.k]))]))
    ensures old(buf.last == null || buf.last.immutable) ==> ok == (mallocOk && datlen <= MAX_ALLOC) && (ok ==> sp != [])
  {
    hide Distinct, Linked, Holds, LastWithData, Kept, Flatten, SlotAt, Offers, Sum, Room, Usable, Search;
    SumNil();
    ghost var cs, ds, k := buf.chains, buf.datas, buf.k;
    sp := [];
    if buf.last == null || buf.last.immutable {
      var chain;
      chain, sp := InsertNew(buf, datlen, mallocOk);
      return chain != null, sp;
    }
    buf.DerefLwd();
    var enough, avail, used;
    ghost var all;
    enough, avail, used, all := MeasureSpace(buf, datlen, n);
    if enough {
      sp := RoomFrom(buf, all);
      assert datlen == 0 ==> all == [all[0]];
      return true, sp;
    }
    if used < n {
      ok, sp := AddChain(buf, datlen - avail, mallocOk, all);
      return;
    }
    buf.DerefLwd();
    HoldsAt(cs, ds, k);
    OffersTail(cs, k, all);
    var chain := buf.Deref(buf.lwd);
    avail := if chain.off == 0 then 0 else chain.SpaceLen();
    assert datlen >= avail;
    var tmp := ReplaceEmpty(buf, datlen - avail, mallocOk);
    if tmp == null {
      return false, [];
    }
    sp := RoomOfTwo(buf, tmp, cs, ds);
    ok := true;
  }

  lemma {:induction false} OffersMore(cs: seq<Chain>, f: nat, sp: seq<nat>, c: Chain)
    requires Offers(cs, f, sp) && f + |sp| == |cs| && c.Ok()
    ensures Offers(cs + [c], f, sp + [c.SpaceLen()])
    ensures Sum(sp + [c.SpaceLen()]) == Sum(sp) + c.SpaceLen()
  {
    assert forall j :: 0 <= j < |cs| ==> (cs + [c])[j] == cs[j];
    OffersSnoc(cs + [c], f, sp);
  }
}

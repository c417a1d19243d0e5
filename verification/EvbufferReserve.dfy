/** evbuffer_reserve_space, and what a caller gets by writing into reserved space and
    committing it. */
module EvbufferReserve {
  import opened Bytes
  import opened EvbufferCore
  import opened EvbufferSpace
  import opened EvbufferCommit

  const MAX_TO_COPY := 4096   // MAX_TO_COPY_IN_EXPAND

  ghost function Lens(vecs: seq<Iovec>): seq<nat>
  {
    if vecs == [] then [] else [vecs[0].len] + Lens(vecs[1..])
  }

  lemma {:induction false} LensSnoc(vecs: seq<Iovec>, v: Iovec)
    ensures Lens(vecs + [v]) == Lens(vecs) + [v.len]
  {
    if vecs == [] {
      assert vecs + [v] == [v];
    } else {
      LensSnoc(vecs[1..], v);
      assert (vecs + [v])[1..] == vecs[1..] + [v];
    }
  }

  lemma {:induction false} SumSplit(ns: seq<nat>, i: nat)
    requires i <= |ns|
    ensures Sum(ns[..i]) <= Sum(ns)
    ensures i < |ns| ==> Sum(ns[..i + 1]) == Sum(ns[..i]) + ns[i]
    ensures i == |ns| ==> Sum(ns[..i]) == Sum(ns)
  {
    if i > 0 {
      SumSplit(ns[1..], i - 1);
      assert ns[..i][1..] == ns[1..][..i - 1];
      assert i < |ns| ==> ns[..i + 1][1..] == ns[1..][..i];
    } else if ns != [] {
      assert ns[..1][1..] == [];
    }
  }

  lemma NoVecs(sp: seq<nat>)
    ensures Lens([]) == sp[..0] && Sum(sp[..0]) == 0
  {
  }

  lemma OffersAt(cs: seq<Chain>, f: nat, sp: seq<nat>, i: nat)
    requires Offers(cs, f, sp) && f <= i < f + |sp|
    ensures i < |cs| && cs[i].Ok() && cs[i].SpaceLen() == sp[i - f]
  {
  }

  lemma FitsNone(cs: seq<Chain>, f: nat)
    requires f <= |cs|
    ensures Fits(cs, f, [], 0)
  {
  }

  lemma FitsSnoc(cs: seq<Chain>, f: nat, vecs: seq<Iovec>, v: Iovec)
    requires Fits(cs, f, vecs, 0) && f + |vecs| < |cs| && InSpace(cs[f + |vecs|], v)
    ensures Fits(cs, f, vecs + [v], 0)
  {
    var all := vecs + [v];
    forall j | f <= j < f + |all|
      ensures InSpace(cs[j], all[j - f])
    {
      assert j < f + |vecs| ==> all[j - f] == vecs[j - f];
    }
  }

  /** What evbuffer_reserve_space can do; Aborted is a failed EVUTIL_ASSERT. */
  datatype Reserved = Refused | Aborted | Offered(vecs: seq<Iovec>)

  /** evbuffer_read_setup_vecs_, not exact: the writable space of the first chains that
      together have howmuch bytes. */
  method SetupVecs(buf: Evbuffer, howmuch: nat, n: nat, ghost sp: seq<nat>) returns (r: Reserved)
    requires buf.Valid() && Room(buf, sp) && |sp| <= n && Sum(sp) >= howmuch
    ensures !r.Refused? && (r.Aborted? <==> FirstWritable(buf) == |buf.chains|)
    ensures r.Offered? ==> |r.vecs| <= |sp| && Fits(buf.chains, FirstWritable(buf), r.vecs, 0)
    ensures r.Offered? ==> Lens(r.vecs) <= sp && Sum(Lens(r.vecs)) >= howmuch
  {
    hide Distinct, Linked, Holds, LastWithData, Kept, Flatten, SlotAt, Sum, Lens, Offers, Fits;
    ghost var cs, ds, f := buf.chains, buf.datas, FirstWritable(buf);
    buf.DerefLwd();
    LinkedAt(buf.first, cs, buf.k);
    var chain := buf.Deref(buf.lwd);
    if chain.SpaceLen() == 0 {
      chain := chain.next;
    }
    if chain == null {
      return Aborted;
    }
    var vecs: seq<Iovec> := [];
    var soFar := 0;
    NoVecs(sp);
    FitsNone(cs, f);
    while |vecs| < n && soFar < howmuch
      invariant |vecs| <= |sp| && chain == ChainAt(cs, f + |vecs|)
      invariant Lens(vecs) == sp[..|vecs|] && soFar == Sum(sp[..|vecs|])
      invariant f + |vecs| <= |cs| && Fits(cs, f, vecs, 0)
      decreases n - |vecs|
    {
      SumSplit(sp, |vecs|);
      ghost var i := f + |vecs|;
      OffersAt(cs, f, sp, i);
      LinkedAt(buf.first, cs, i);
      var avail := chain.SpaceLen();
      var v := Iovec(chain, chain.misalign + chain.off, avail);
      LensSnoc(vecs, v);
      FitsSnoc(cs, f, vecs, v);
      assert sp[..|vecs| + 1] == sp[..|vecs|] + [avail];
      vecs := vecs + [v];
      soFar := soFar + avail;
      chain := chain.next;
    }
    SumSplit(sp, |vecs|);
    r := Offered(vecs);
  }

  /** No chain behind the last byte of data has room, and the last one is not a
      reference chain: the state in which a reservation of nothing aborts. */
  ghost predicate Full(buf: Evbuffer)
    reads buf, buf.chains
  {
    && buf.k + 1 == |buf.chains| && !buf.chains[buf.k].immutable && Usable(buf.chains[buf.k]) == 0
  }

  /** evbuffer_reserve_space with two or more vectors */
  method ReserveMany(buf: Evbuffer, size: nat, n: nat, mallocOk: bool) returns (r: Reserved)
    requires buf.Valid() && n >= 2
    modifies buf, ChainSet(buf.chains)`next, ChainSet(buf.chains)`misalign
    ensures buf.Valid() && buf.OnlyNewChains() && buf.SameFlags()
    ensures buf.Contents() == old(buf.Contents())
    ensures r.Refused? <==> !old(CanExpand(buf, size, n, mallocOk))
    ensures r.Aborted? <==> size == 0 && old(Full(buf))
    ensures r.Offered? ==>
              && |r.vecs| <= n && Sum(Lens(r.vecs)) >= size
              && buf.k < |buf.chains| && buf.chains[buf.k].Ok()
              && Fits(buf.chains, FirstWritable(buf), r.vecs, 0)
  {
    hide Distinct, Linked, Holds, LastWithData, Kept, Flatten, SlotAt, Sum, Lens, Fits, Usable;
    ghost var cs, k := buf.chains, buf.k;
    buf.DerefLwd();
    SumNil();
    var ok;
    ghost var sp;
    ok, sp := ExpandFast(buf, size, n, mallocOk);
    if !ok {
      return Refused;
    }
    r := SetupVecs(buf, size, n, sp);
  }

  /** A longer chain takes the place of chain number i. */
  method ReplaceChain(buf: Evbuffer, slot: Slot, chain: Chain, tmp: Chain, ghost i: nat)
    requires Distinct(buf.chains) && Linked(buf.first, buf.chains) && tmp !in buf.chains
    requires i < |buf.chains| && chain == buf.chains[i] && slot == SlotAt(buf.chains, i)
    modifies buf`first, ChainSet(buf.chains)`next, tmp`next
    ensures Linked(buf.first, buf.chains[i := tmp])
  {
    ghost var cs := buf.chains;
    ghost var new_ := cs[i := tmp];
    assert i > 0 ==> cs[i - 1] in ChainSet(cs);
    buf.Store(slot, tmp);
    tmp.next := chain.next;
    forall j | 0 <= j < |new_|
      ensures new_[j].next == ChainAt(new_, j + 1)
    {
      if j != i {
        assert new_[j] == cs[j] && cs[j] in cs;
        assert j + 1 != i && i > 0 ==> cs[j] != cs[i - 1];
        assert old(cs[j].next) == ChainAt(cs, j + 1);
      } else {
        assert i > 0 ==> cs[i] != cs[i - 1];
        assert old(cs[j].next) == ChainAt(cs, j + 1) == ChainAt(new_, j + 1);
      }
    }
  }

  lemma ListReplace(cs: seq<Chain>, ds: seq<seq<byte>>, i: nat, tmp: Chain)
    requires Distinct(cs) && Holds(cs, ds) && i < |cs| && tmp !in cs
    requires tmp.Ok() && tmp.Data() == ds[i]
    ensures Distinct(cs[i := tmp]) && Holds(cs[i := tmp], ds)
    ensures SlotAt(cs[i := tmp], i) == SlotAt(cs, i)
  {
  }

  /** evbuffer_expand_singlechain: the last chain with data moves to a larger one. */
  method ResizeLast(buf: Evbuffer, chain: Chain, datlen: nat, mallocOk: bool) returns (tmp: Chain?)
    requires buf.Valid() && buf.k < |buf.chains| && chain == buf.chains[buf.k] && chain.Ok()
    modifies buf, ChainSet(buf.chains)`next
    ensures buf.Valid() && buf.SameFlags() && buf.Contents() == old(buf.Contents())
    ensures tmp == null <==> !mallocOk || chain.off + datlen > MAX_ALLOC
    ensures tmp == null ==> buf.chains == old(buf.chains)
    ensures tmp != null ==>
              && fresh(tmp) && tmp.bufferLen <= MAX_ALLOC && old(buf.k < |buf.chains|) && buf.k == old(buf.k)
              && buf.chains == old(buf.chains)[buf.k := tmp]
              && tmp.Ok() && datlen <= tmp.SpaceLen()
  {
    hide Distinct, Linked, Holds, LastWithData, Kept, Flatten, SlotAt;
    ghost var cs, ds, k := buf.chains, buf.datas, buf.k;
    HoldsAt(cs, ds, k);
    tmp := ChainNew(chain.off + datlen, mallocOk);
    if tmp == null {
      return;
    }
    tmp.Fill(chain.Slice(0, chain.off));
    var last := if buf.last == chain then tmp else buf.last;
    DistinctAt(cs, |cs| - 1, k);
    ListReplace(cs, ds, k, tmp);
    ReplaceChain(buf, buf.lwd, chain, tmp, k);
    buf.SetHeader(last, buf.lwd, buf.totalLen, cs[k := tmp], ds, k);
  }

  /** The branch of evbuffer_expand_singlechain that passes over the last chain with
      data, although it has room, for the one behind it. */
  ghost predicate PassesOver(buf: Evbuffer, datlen: nat)
    reads buf, buf.chains
  {
    && buf.k + 1 < |buf.chains| && buf.chains[buf.k].Ok() && buf.chains[buf.k + 1].Ok()
    && var c := buf.chains[buf.k];
    && c.off > 0 && 0 < c.SpaceLen() < datlen && !c.ShouldRealign(datlen)
    && (c.SpaceLen() < |c.mem| / 8 || c.off > MAX_TO_COPY || datlen >= CHAIN_MAX - c.off)
    && buf.chains[buf.k + 1].SpaceLen() >= datlen
  }

  lemma RoomHead(buf: Evbuffer, sp: seq<nat>)
    requires Room(buf, sp)
    ensures buf.k < |buf.chains| && buf.chains[buf.k].Ok()
  {
  }

  /** How much evbuffer_expand_singlechain has to allocate, if no chain will do. */
  ghost function SingleAlloc(buf: Evbuffer, datlen: nat): Option<nat>
    reads buf, buf.chains
  {
    var cs, k := buf.chains, buf.k;
    if k < |cs| && Spare(cs[k]) > 0 then AllocAt(cs, k, datlen)
    else if k + 1 < |cs| then AllocAt(cs, k + 1, datlen)
    else Some(datlen)
  }

  /** The same, when the first writable chain is number i. */
  ghost function AllocAt(cs: seq<Chain>, i: nat, datlen: nat): Option<nat>
    requires i < |cs|
    reads cs
  {
    var c := cs[i];
    if c.immutable then Some(datlen)
    else if datlen <= Spare(c) then None
    else if c.off == 0 then Some(datlen)
    else if c.Ok() && c.ShouldRealign(datlen) then None
    else if Spare(c) >= |c.mem| / 8 && c.off <= MAX_TO_COPY && datlen < CHAIN_MAX - c.off then Some(c.off + datlen)
    else if i + 1 < |cs| && datlen <= Spare(cs[i + 1]) then None
    else Some(datlen)
  }

  ghost function Spare(c: Chain): nat
    reads c
  {
    if c.Ok() then c.SpaceLen() else 0
  }

  ghost predicate CanExpandSingle(buf: Evbuffer, datlen: nat, mallocOk: bool)
    reads buf, buf.chains
  {
    var size := SingleAlloc(buf, datlen);
    size.None? || (mallocOk && size.value <= MAX_ALLOC)
  }

  /** evbuffer_expand_singlechain, when the first writable chain has data and too little
      room: the chain is realigned, or the one behind it is used, or it moves to a larger
      one; or else a new chain is needed. */
  method ExpandFull(buf: Evbuffer, chain: Chain, datlen: nat, mallocOk: bool) returns (done: bool, c: Chain?, ghost j: nat)
    requires buf.Valid() && buf.k < |buf.chains| && chain == buf.chains[buf.k] && chain.Ok()
    requires !chain.immutable && chain.off != 0 && 0 < chain.SpaceLen() < datlen
    modifies buf, ChainSet(buf.chains)
    ensures buf.Valid() && buf.OnlyNewChains() && buf.SameFlags() && buf.Contents() == old(buf.Contents())
    ensures !done ==>
              && unchanged(buf) && unchanged(old(buf.chains))
              && old(!PassesOver(buf, datlen)) && old(AllocAt(buf.chains, buf.k, datlen)) == Some(datlen)
    ensures done && c != null ==>
              && j < |buf.chains| && c == buf.chains[j] && c.Ok() && datlen <= c.SpaceLen()
              && buf.k < |buf.chains| && buf.chains[buf.k].Ok() && FirstWritable(buf) == buf.k == old(buf.k)
              && (if old(PassesOver(buf, datlen)) then buf.chains == old(buf.chains) && j == buf.k + 1 else j == buf.k)
    ensures done ==>
              (c != null <==> var want := old(AllocAt(buf.chains, buf.k, datlen)); want.None? || (mallocOk && want.value <= MAX_ALLOC))
  {
    hide Distinct, Linked, Holds, LastWithData, Kept, Flatten, SlotAt;
    ghost var cs, ds, k := buf.chains, buf.datas, buf.k;
    LinkedAt(buf.first, cs, k);
    if chain.ShouldRealign(datlen) {
      buf.AlignLast(chain);
      return true, chain, k;
    }
    if chain.SpaceLen() < |chain.mem| / 8 || chain.off > MAX_TO_COPY || datlen >= CHAIN_MAX - chain.off {
      if chain.next != null {
        HoldsAt(cs, ds, k + 1);
        if chain.next.SpaceLen() >= datlen {
          return true, chain.next, k + 1;
        }
      }
      return false, null, k;
    }
    c := ResizeLast(buf, chain, datlen, mallocOk);
    done, j := true, k;
  }

  /** evbuffer_expand_singlechain: the chain that gets the room is the first writable
      one, the last one, or the one behind a chain that was passed over. It fails if and
      only if no chain will do and none can be allocated. */
  method ExpandSingle(buf: Evbuffer, datlen: nat, mallocOk: bool) returns (c: Chain?, ghost j: nat)
    requires buf.Valid()
    modifies buf, ChainSet(buf.chains)
    ensures buf.Valid() && buf.OnlyNewChains() && buf.SameFlags()
    ensures buf.Contents() == old(buf.Contents())
    ensures c != null ==>
              && j < |buf.chains| && c == buf.chains[j] && c.Ok() && datlen <= c.SpaceLen()
              && buf.k < |buf.chains| && buf.chains[buf.k].Ok()
    ensures c != null && old(PassesOver(buf, datlen)) ==>
              buf.chains == old(buf.chains) && buf.k == old(buf.k) && j == buf.k + 1 && FirstWritable(buf) == buf.k
    ensures c != null && !old(PassesOver(buf, datlen)) ==> j == |buf.chains| - 1 || j == FirstWritable(buf)
    ensures c != null <==> old(CanExpandSingle(buf, datlen, mallocOk))
  {
    hide Distinct, Linked, Holds, LastWithData, Kept, Flatten, SlotAt, Room, Sum;
    ghost var cs, ds, k := buf.chains, buf.datas, buf.k;
    buf.DerefLwd();
    var chain := buf.Deref(buf.lwd);
    ghost var i := k;
    if chain != null {
      HoldsAt(cs, ds, k);
      LinkedAt(buf.first, cs, k);
      if chain.SpaceLen() == 0 {
        chain, i := chain.next, k + 1;
      }
    }
    if chain != null && !chain.immutable {
      HoldsAt(cs, ds, i);
      if chain.SpaceLen() >= datlen {
        return chain, i;
      }
      if chain.off != 0 {
        BehindLwd(ds, k, i);
        var done;
        done, c, j := ExpandFull(buf, chain, datlen, mallocOk);
        if done {
          return;
        }
      }
    }
    ghost var sp;
    c, sp := InsertNew(buf, datlen, mallocOk);
    j := if buf.chains == [] then 0 else |buf.chains| - 1;
    if c != null {
      RoomHead(buf, sp);
    }
  }

  /** The space of one chain can be committed exactly if it is the last chain or the
      first writable one. */
  lemma OneVec(buf: Evbuffer, j: nat, len: nat)
    requires buf.Valid() && j < |buf.chains| && buf.k < |buf.chains| && buf.chains[buf.k].Ok()
    requires buf.chains[j].Ok() && len <= buf.chains[j].SpaceLen()
    ensures var c := buf.chains[j];
            Accepts(buf, [Iovec(c, c.misalign + c.off, len)]) <==> j == |buf.chains| - 1 || j == FirstWritable(buf)
  {
    hide Linked, Holds, LastWithData, Kept, Flatten, SlotAt;
    var c, f := buf.chains[j], FirstWritable(buf);
    var vecs := [Iovec(c, c.misalign + c.off, len)];
    DistinctAt(buf.chains, j, |buf.chains| - 1);
    if f < |buf.chains| {
      DistinctAt(buf.chains, j, f);
      assert Fits(buf.chains, f, vecs, 0) <==> InSpace(buf.chains[f], vecs[f - f]);
    }
  }

  /** evbuffer_reserve_space with one vector. A caller who writes no more than it was
      offered can commit what it wrote, unless the space belongs to a chain that is
      neither the last one nor the first writable one. */
  method ReserveOne(buf: Evbuffer, size: nat, mallocOk: bool) returns (r: Reserved)
    requires buf.Valid()
    modifies buf, ChainSet(buf.chains)
    ensures buf.Valid() && buf.OnlyNewChains() && buf.SameFlags()
    ensures buf.Contents() == old(buf.Contents())
    ensures !r.Aborted? && (r.Offered? ==> |r.vecs| == 1 && size <= r.vecs[0].len)
    ensures r.Offered? ==> AtSpace(buf, r.vecs[0])
    ensures r.Offered? ==>
              forall len :: 0 <= len <= r.vecs[0].len ==>
                (Accepts(buf, [Iovec(r.vecs[0].chain, r.vecs[0].at, len)])
                 <==> !old(PassesOver(buf, size) && buf.k + 2 < |buf.chains|))
    ensures r.Refused? <==> !old(CanExpandSingle(buf, size, mallocOk))
  {
    hide Distinct, Linked, Holds, LastWithData, Kept, Flatten, SlotAt, PassesOver, Accepts;
    var c;
    ghost var j;
    c, j := ExpandSingle(buf, size, mallocOk);
    if c == null {
      return Refused;
    }
    var v := Iovec(c, c.misalign + c.off, c.SpaceLen());
    forall len: nat | len <= v.len
      ensures Accepts(buf, [Iovec(c, v.at, len)]) <==> !old(PassesOver(buf, size) && buf.k + 2 < |buf.chains|)
    {
      OneVec(buf, j, len);
    }
    r := Offered([v]);
  }

  /** A vector in the space behind the data of a chain. */
  ghost predicate AtSpace(buf: Evbuffer, v: Iovec)
    reads buf, buf.chains, v.chain
  {
    && v.chain in buf.chains && v.chain.Ok() && v.at == v.chain.misalign + v.chain.off && v.len <= v.chain.SpaceLen()
    && buf.k < |buf.chains| && buf.chains[buf.k].Ok()
  }

  /** Which chain is written to first does not depend on the bytes in the chains. */
  twostate lemma SameWritable(buf: Evbuffer)
    requires buf.k < |buf.chains| && buf.chains[buf.k].Ok() && old(buf.k < |buf.chains| && buf.chains[buf.k].Ok())
    requires buf.k == old(buf.k) && buf.chains == old(buf.chains)
    requires forall c :: c in buf.chains ==> |c.mem| == old(|c.mem|) && c.misalign == old(c.misalign) && c.off == old(c.off)
    ensures FirstWritable(buf) == old(FirstWritable(buf))
  {
  }

  /** A signed size as the size_t it is converted to. */
  function Unsigned(size: int): (n: nat)
    requires -SSIZE_MAX - 1 <= size <= SSIZE_MAX
    ensures n <= SIZE_MAX && n == size % (SIZE_MAX + 1)
  {
    if size < 0 then size + SIZE_MAX + 1 else size
  }

  ghost predicate Refuses(buf: Evbuffer, size: int, n: int, mallocOk: bool)
    requires buf.Valid() && -SSIZE_MAX - 1 <= size <= SSIZE_MAX
    reads buf, buf.chains
  {
    || buf.freezeEnd || n < 1 || (n >= 2 && size < 0)
    || (n == 1 && !CanExpandSingle(buf, Unsigned(size), mallocOk))
    || (n >= 2 && !CanExpand(buf, size, n, mallocOk))
  }

  /** evbuffer_reserve_space: when it refuses, when it aborts, what it offers. */
  method Reserve(buf: Evbuffer, size: int, n: int, mallocOk: bool) returns (r: Reserved)
    requires buf.Valid() && -SSIZE_MAX - 1 <= size <= SSIZE_MAX
    modifies buf, ChainSet(buf.chains)
    ensures buf.Valid() && buf.OnlyNewChains() && buf.SameFlags()
    ensures buf.Contents() == old(buf.Contents())
    ensures r.Refused? <==> old(Refuses(buf, size, n, mallocOk))
    ensures r.Aborted? <==> !buf.freezeEnd && n >= 2 && size == 0 && old(Full(buf))
    ensures r.Offered? ==> |r.vecs| <= n && Sum(Lens(r.vecs)) >= Unsigned(size)
  {
    hide Distinct, Linked, Holds, LastWithData, Kept, Flatten, SlotAt, Full, Fits, Accepts, PassesOver, CanExpandSingle, CanExpand;
    if buf.freezeEnd || n < 1 {
      return Refused;
    }
    if n == 1 {
      r := ReserveOne(buf, Unsigned(size), mallocOk);
      assert r.Offered? ==> r.vecs == [r.vecs[0]];
    } else if size < 0 {
      var _, _ := ExpandFast(buf, Unsigned(size), n, mallocOk);
      r := Refused;
    } else {
      r := ReserveMany(buf, size, n, mallocOk);
    }
  }

  /** A negative size is refused, because no chain is that large. */
  lemma NegativeRefused(buf: Evbuffer, size: int, mallocOk: bool)
    requires buf.Valid() && -SSIZE_MAX - 1 <= size < 0 && Bounded(buf.chains)
    ensures !CanExpandSingle(buf, Unsigned(size), mallocOk)
  {
    hide Distinct, Linked, Holds, LastWithData, Kept, Flatten, SlotAt;
    assert forall j :: 0 <= j < |buf.chains| ==> Spare(buf.chains[j]) <= buf.chains[j].bufferLen <= MAX_ALLOC;
  }

  /** A caller writes behind the data of chain number i. */
  method WriteSpace(buf: Evbuffer, chain: Chain, d: seq<byte>, ghost i: nat)
    requires buf.Valid() && i < |buf.chains| && chain == buf.chains[i] && chain.Ok() && |d| <= chain.SpaceLen()
    modifies chain`mem
    ensures buf.Valid() && chain.Ok() && |chain.mem| == old(|chain.mem|)
    ensures chain.mem[chain.misalign + chain.off..chain.misalign + chain.off + |d|] == d
  {
    hide Distinct, Linked, Holds, LastWithData, Kept, Flatten, SlotAt;
    HoldsAt(buf.chains, buf.datas, i);
    chain.Put(chain.misalign + chain.off, d);
    assert chain.Data() == buf.datas[i];
    HoldsUpdate(buf.chains, buf.datas, i);
    assert buf.datas[i := buf.datas[i]] == buf.datas;
  }

  /** evbuffer_reserve_space with one vector, a write of no more than was asked for, and
      evbuffer_commit_space of it: the bytes are appended if and only if the end is not
      frozen, the buffer can be expanded, and expansion did not pass over a chain with room
      to one that is not last. */
  method WriteOne(buf: Evbuffer, d: seq<byte>, size: nat, mallocOk: bool) returns (ok: bool)
    requires buf.Valid() && |d| <= size && buf.totalLen + |d| <= SIZE_MAX
    modifies buf, ChainSet(buf.chains)
    ensures buf.Valid() && buf.OnlyNewChains() && buf.SameFlags()
    ensures buf.Contents() == old(buf.Contents()) + if ok then d else []
    ensures ok <==> !buf.freezeEnd && old(CanExpandSingle(buf, size, mallocOk))
                    && !old(PassesOver(buf, size) && buf.k + 2 < |buf.chains|)
  {
    hide Distinct, Linked, Holds, LastWithData, Kept, Flatten, SlotAt, PassesOver, Accepts, CanExpandSingle, FirstWritable;
    ok := false;
    if buf.freezeEnd {
      return;
    }
    var r := ReserveOne(buf, size, mallocOk);
    if !r.Offered? {
      return;
    }
    assert forall c :: c in ChainSet(buf.chains) ==> c in old(buf.chains) || fresh(c);
    var v := Iovec(r.vecs[0].chain, r.vecs[0].at, |d|);
    ok := WriteVec(buf, v, d);
  }

  method WriteVec(buf: Evbuffer, v: Iovec, d: seq<byte>) returns (ok: bool)
    requires buf.Valid() && AtSpace(buf, v) && v.len == |d| && buf.totalLen + |d| <= SIZE_MAX
    modifies buf, ChainSet(buf.chains)
    ensures buf.Valid() && buf.SameFlags() && buf.chains == old(buf.chains)
    ensures buf.Contents() == old(buf.Contents()) + if ok then d else []
    ensures ok <==> !buf.freezeEnd && old(Accepts(buf, [v]))
  {
    hide Distinct, Linked, Holds, LastWithData, Kept, Flatten, SlotAt, Accepts, FirstWritable;
    ghost var j :| 0 <= j < |buf.chains| && buf.chains[j] == v.chain;
    assert v == Iovec(buf.chains[j], buf.chains[j].misalign + buf.chains[j].off, |d|);
    OneVec(buf, j, |d|);
    assert v.chain in ChainSet(buf.chains);
    label before:
    WriteSpace(buf, v.chain, d, j);
    SameWritable@before(buf);
    OneVec(buf, j, |d|);
    FlattenSingle(d);
    ok := CommitSpace(buf, [v], [d]);
  }

  /** Vector i holds the bytes pieces[i]. */
  ghost predicate Carries(vecs: seq<Iovec>, pieces: seq<seq<byte>>)
    reads set v | v in vecs :: v.chain
  {
    && |vecs| == |pieces|
    && forall i :: 0 <= i < |vecs| ==>
         vecs[i].at + vecs[i].len <= |vecs[i].chain.mem| && pieces[i] == Piece(vecs[i])
  }

  twostate lemma FitsSame(p: (seq<Chain>, seq<Iovec>), new f: nat)
    requires old(Fits(p.0, f, p.1, 0))
    requires forall c :: c in p.0 ==> |c.mem| == old(|c.mem|) && c.misalign == old(c.misalign) && c.off == old(c.off)
    ensures Fits(p.0, f, p.1, 0)
  {
    var cs, vecs := p.0, p.1;
    forall j | f <= j < f + |vecs|
      ensures InSpace(cs[j], vecs[j - f])
    {
      assert cs[j] in cs && old(InSpace(cs[j], vecs[j - f]));
      MemEmpty(cs[j].mem);
      MemEmpty(old(cs[j].mem));
    }
  }

  lemma MemEmpty(m: seq<byte>)
    ensures m == [] <==> |m| == 0
  {
  }

  /** Writing to the chain behind those of the vectors leaves the vectors' bytes alone. */
  twostate lemma CarriesSnoc(p: (seq<Chain>, seq<Iovec>, seq<seq<byte>>), new f: nat, new v: Iovec, new d: seq<byte>)
    requires old(Carries(p.1, p.2)) && old(Fits(p.0, f, p.1, 0)) && Distinct(p.0) && f + |p.1| < |p.0|
    requires forall c :: c in p.0 && c != p.0[f + |p.1|] ==> c.mem == old(c.mem)
    requires v.at + v.len <= |v.chain.mem| && Piece(v) == d
    ensures Carries(p.1 + [v], p.2 + [d])
  {
    var cs, vecs := p.0, p.1;
    forall i | 0 <= i < |vecs|
      ensures vecs[i].at + vecs[i].len <= |vecs[i].chain.mem| && p.2[i] == Piece(vecs[i])
    {
      assert old(InSpace(cs[f + i], vecs[f + i - f]));
      assert vecs[i].chain == cs[f + i] != cs[f + |vecs|];
    }
  }

  /** A caller fills the first vectors it was offered with pieces no longer than them,
      and sets each length to what it wrote. */
  method FillVecs(buf: Evbuffer, vecs: seq<Iovec>, pieces: seq<seq<byte>>, ghost f: nat) returns (out: seq<Iovec>)
    requires buf.Valid() && Fits(buf.chains, f, vecs, 0)
    requires |pieces| <= |vecs| && forall i :: 0 <= i < |pieces| ==> |pieces[i]| <= vecs[i].len
    modifies ChainSet(buf.chains)`mem
    ensures buf.Valid() && Fits(buf.chains, f, out, 0) && Carries(out, pieces)
    ensures forall c :: c in buf.chains ==> |c.mem| == old(|c.mem|)
  {
    hide Distinct, Linked, Holds, LastWithData, Kept, Flatten, SlotAt, Fits, Carries;
    ghost var cs := buf.chains;
    out := [];
    assert pieces[..0] == [];
    NoneFits(cs, f, vecs);
    for i := 0 to |pieces|
      invariant buf.Valid() && |out| == i
      invariant Fits(cs, f, vecs, 0) && Fits(cs, f, out, 0) && Carries(out, pieces[..i])
      invariant forall c :: c in cs ==> |c.mem| == old(|c.mem|)
    {
      FitsIn(cs, f, vecs, i);
      var chain := vecs[i].chain;
      assert chain in ChainSet(cs);
      label Before:
      WriteSpace(buf, chain, pieces[i], f + i);
      var v := Iovec(chain, vecs[i].at, |pieces[i]|);
      CarriesSnoc@Before((cs, out, pieces[..i]), f, v, pieces[i]);
      FitsSame@Before((cs, vecs), f);
      FitsSame@Before((cs, out), f);
      FitsSnoc(cs, f, out, v);
      assert pieces[..i + 1] == pieces[..i] + [pieces[i]];
      out := out + [v];
    }
    assert pieces[..|pieces|] == pieces;
  }

  lemma NoneFits(cs: seq<Chain>, f: nat, vecs: seq<Iovec>)
    requires Fits(cs, f, vecs, 0)
    ensures Fits(cs, f, [], 0) && Carries([], [])
  {
  }

  lemma FitsIn(cs: seq<Chain>, f: nat, vecs: seq<Iovec>, i: nat)
    requires Fits(cs, f, vecs, 0) && i < |vecs|
    ensures f + i < |cs| && InSpace(cs[f + i], vecs[i]) && cs[f + i] in cs
  {
    assert vecs[f + i - f] == vecs[i];
  }

  /** Whatever a caller writes into the first vectors that evbuffer_reserve_space with
      two or more vectors offered, committing it succeeds and appends exactly that. */
  method WriteAndCommit(buf: Evbuffer, vecs: seq<Iovec>, pieces: seq<seq<byte>>) returns (ok: bool)
    requires buf.Valid() && buf.k < |buf.chains| && buf.chains[buf.k].Ok()
    requires Fits(buf.chains, FirstWritable(buf), vecs, 0)
    requires |pieces| <= |vecs| && forall i :: 0 <= i < |pieces| ==> |pieces[i]| <= vecs[i].len
    requires buf.totalLen + |Flatten(pieces)| <= SIZE_MAX
    modifies buf, ChainSet(buf.chains)
    ensures buf.Valid() && buf.SameFlags() && buf.chains == old(buf.chains) && ok == !old(buf.freezeEnd)
    ensures buf.Contents() == old(buf.Contents()) + if ok then Flatten(pieces) else []
  {
    hide Distinct, Linked, Holds, LastWithData, Kept, Flatten, SlotAt, Fits;
    ghost var f := FirstWritable(buf);
    var out := FillVecs(buf, vecs, pieces, f);
    HoldsAt(buf.chains, buf.datas, buf.k);
    FitsAccepted(buf, out);
    ok := CommitSpace(buf, out, pieces);
  }

  lemma FitsAccepted(buf: Evbuffer, vecs: seq<Iovec>)
    requires buf.Valid() && buf.k < |buf.chains| && buf.chains[buf.k].Ok()
    requires Fits(buf.chains, FirstWritable(buf), vecs, 0)
    ensures Accepts(buf, vecs)
  {
    hide Distinct, Linked, Holds, LastWithData, Kept, Flatten, SlotAt;
    if |vecs| == 1 {
      FitsIn(buf.chains, FirstWritable(buf), vecs, 0);
    }
  }
}

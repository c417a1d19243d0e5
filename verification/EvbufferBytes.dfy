/** Operations of buffer.c that move bytes between an evbuffer and the caller. */
module EvbufferBytes {
  import opened Bytes
  import opened EvbufferCore

  /** evbuffer_add, first part: the last chain with data, or a new first chain. */
  method ChainForAdd(buf: Evbuffer, datlen: nat, mallocOk: bool) returns (chain: Chain?)
    requires buf.Valid()
    modifies buf, buf.chains`next
    ensures buf.Valid() && buf.OnlyNewChains() && buf.SameFlags()
    ensures buf.Contents() == old(buf.Contents())
    ensures chain != null ==>
              && buf.k < |buf.chains| && chain == buf.chains[buf.k]
              && chain.Ok() && buf.datas[buf.k] == chain.Data()
    ensures if old(buf.chains) == [] then chain != null ==> fresh(chain) && !chain.immutable && datlen <= chain.SpaceLen()
            else buf.chains == old(buf.chains) && buf.k == old(buf.k)
    ensures chain == null <==> old(buf.chains) == [] && (!mallocOk || datlen > MAX_ALLOC)
  {
    hide Distinct, Linked, Holds, LastWithData, Kept, Flatten, SlotAt;
    buf.DerefLwd();
    chain := if buf.Deref(buf.lwd) == null then buf.last else buf.Deref(buf.lwd);
    if chain == null {
      chain := ChainNew(datlen, mallocOk);
      if chain == null {
        return;
      }
      buf.ChainInsert(chain);
      buf.DerefLwd();
    }
    HoldsAt(buf.chains, buf.datas, buf.k);
  }

  lemma SplitAppend(s: seq<byte>, data: seq<byte>, n: nat)
    requires n <= |data|
    ensures s + data[..n] + data[n..] == s + data
    ensures n == 0 ==> s + data[n..] == s + data
  {
  }

  /** evbuffer_add, last part: fill up chain and put the rest into a new one. */
  method AddSpill(buf: Evbuffer, chain: Chain, data: seq<byte>, remain: nat, mallocOk: bool) returns (ok: bool)
    requires buf.Valid() && buf.k < |buf.chains| && chain == buf.chains[buf.k] && chain.Ok()
    requires remain <= |data| && remain == chain.SpaceLen()
    requires buf.totalLen + |data| <= SIZE_MAX
    modifies buf, buf.chains
    ensures buf.Valid() && buf.OnlyNewChains() && buf.SameFlags()
    ensures buf.Contents() == old(buf.Contents()) + (if ok then data else [])
    ensures ok <==> mallocOk && |data| <= MAX_ALLOC && old(|chain.mem|) <= MAX_ALLOC
    ensures ok ==>
              && buf.chains != []
              && var n := |buf.chains[|buf.chains| - 1].mem|;
                 n >= |data| && n >= if old(|chain.mem|) <= MAX_AUTO_SIZE / 2 then 2 * old(|chain.mem|) else old(|chain.mem|)
  {
    hide Distinct, Linked, Holds, LastWithData, Kept, Flatten, SlotAt;
    ok := false;
    var toAlloc := |chain.mem|;
    if toAlloc <= MAX_AUTO_SIZE / 2 {
      toAlloc := toAlloc * 2;
    }
    if |data| > toAlloc {
      toAlloc := |data|;
    }
    var tmp := ChainNew(toAlloc, mallocOk);
    if tmp == null {
      return;
    }
    if remain > 0 {
      buf.ExtendLast(chain, data[..remain]);
    }
    tmp.Fill(data[remain..]);
    SplitAppend(old(buf.Contents()), data, remain);
    buf.ChainInsert(tmp);
    ok := true;
  }

  /** There is room for n bytes behind the data of a chain, or in a new one behind it. */
  ghost predicate Stores(c: Chain, n: nat, mallocOk: bool)
    reads c`mem, c`misalign, c`off
  {
    || (!c.immutable && c.Ok() && (n <= c.SpaceLen() || c.ShouldRealign(n)))
    || (mallocOk && n <= MAX_ALLOC && c.bufferLen <= MAX_ALLOC)
  }

  /** There is room for n bytes behind the data, or room can be made. */
  ghost predicate CanAdd(buf: Evbuffer, n: nat, mallocOk: bool)
    requires buf.Valid()
    reads buf, buf.chains
  {
    if buf.chains == [] then mallocOk && n <= MAX_ALLOC
    else buf.k < |buf.chains| && Stores(buf.chains[buf.k], n, mallocOk)
  }

  lemma CanAllocate(buf: Evbuffer, n: nat)
    requires buf.Valid() && Bounded(buf.chains)
    ensures n <= MAX_ALLOC ==> CanAdd(buf, n, true)
  {
  }

  /** evbuffer_add: it appends all the data or nothing, and fails exactly if the end is
      frozen, the length would overflow, or there is no room and none can be made. */
  method Add(buf: Evbuffer, data: seq<byte>, mallocOk: bool) returns (ok: bool)
    requires buf.Valid()
    modifies buf, buf.chains
    ensures buf.Valid() && buf.OnlyNewChains() && buf.SameFlags()
    ensures buf.Contents() == old(buf.Contents()) + (if ok then data else [])
    ensures ok <==> !buf.freezeEnd && old(buf.totalLen) + |data| <= SIZE_MAX && old(CanAdd(buf, |data|, mallocOk))
  {
    hide Distinct, Linked, Holds, LastWithData, Kept, Flatten, SlotAt;
    ok := false;
    if buf.freezeEnd || |data| > SIZE_MAX - buf.totalLen {
      return;
    }
    var chain := ChainForAdd(buf, |data|, mallocOk);
    if chain == null {
      return;
    }
    var remain := 0;
    if !chain.immutable {
      remain := |chain.mem| - chain.misalign - chain.off;
      if remain >= |data| {
        buf.ExtendLast(chain, data);
        return true;
      } else if chain.ShouldRealign(|data|) {
        buf.AlignLast(chain);
        buf.ExtendLast(chain, data);
        return true;
      }
    }
    assert chain in old(buf.chains);
    ok := AddSpill(buf, chain, data, remain, mallocOk);
  }

  /** The bytes left when the first i chunks and r bytes of the next one are dropped. */
  lemma DropChunks(ds: seq<seq<byte>>, k: nat, i: nat, r: nat)
    requires LastWithData(ds, k) && i <= k < |ds| && r < |ds[i]|
    ensures var n := |Flatten(ds[..i])| + r;
            var ds' := ds[i..][0 := ds[i][r..]];
            && LastWithData(ds', k - i)
            && n <= |Flatten(ds)| && Flatten(ds') == Flatten(ds)[n..]
  {
    hide LastWithData, Flatten;
    DropLwd(ds, k, i, r);
    FlattenAt(ds, i);
    FlattenUpdate(ds[i..], 0, ds[i][r..]);
    FlattenPrefixEmpty(ds[i..]);
    assert ds[i..][1..] == ds[i + 1..];
    DropBytes(Flatten(ds[..i]), ds[i], Flatten(ds[i + 1..]), r);
  }

  lemma DropLwd(ds: seq<seq<byte>>, k: nat, i: nat, r: nat)
    requires LastWithData(ds, k) && i <= k < |ds| && r < |ds[i]|
    ensures LastWithData(ds[i..][0 := ds[i][r..]], k - i)
  {
  }

  lemma DropBytes(a: seq<byte>, b: seq<byte>, c: seq<byte>, r: nat)
    requires r <= |b|
    ensures [] + (b[r..] + c) == (a + (b + c))[|a| + r..]
  {
  }

  /** Bytes held before chain i, seen from chain k. */
  lemma BytesBefore(ds: seq<seq<byte>>, k: nat, i: nat)
    requires LastWithData(ds, k) && i <= k < |ds|
    ensures |Flatten(ds[..i + 1])| == |Flatten(ds[..i])| + |ds[i]|
    ensures |Flatten(ds[..i])| + |ds[i]| <= |Flatten(ds)|
    ensures i == k ==> |Flatten(ds[..i])| + |ds[i]| == |Flatten(ds)|
  {
    FlattenSnoc(ds, i);
    FlattenAt(ds, i);
    if i == k {
      FlattenEmpty(ds[k + 1..]);
    }
  }

  /** evbuffer_drain, the loop: skips the chains that are drained completely. */
  method SkipDrained(buf: Evbuffer, len: nat) returns (chain: Chain, lwd: Slot, remaining: nat, ghost i: nat)
    requires buf.Valid() && len < buf.totalLen
    ensures i <= buf.k < |buf.chains| == |buf.datas| && chain == buf.chains[i]
    ensures remaining < chain.off && len == |Flatten(buf.datas[..i])| + remaining
    ensures lwd == if i == buf.k then First else buf.lwd
  {
    hide Distinct, Linked, Holds, LastWithData, Kept, Flatten;
    buf.DerefLwd();
    ghost var cs, ds, k := buf.chains, buf.datas, buf.k;
    FlattenPrefixEmpty(ds);
    HoldsAt(cs, ds, 0);
    LinkedAt(buf.first, cs, 0);
    chain, lwd, remaining, i := buf.first, buf.lwd, len, 0;
    BytesBefore(ds, k, 0);
    while remaining >= chain.off
      invariant i <= k < |cs| == |ds| && chain == cs[i] && |ds[i]| == chain.off
      invariant len == |Flatten(ds[..i])| + remaining
      invariant |Flatten(ds[..i + 1])| == |Flatten(ds[..i])| + |ds[i]|
      invariant i == k ==> |Flatten(ds[..i])| + |ds[i]| == |Flatten(ds)|
      invariant lwd == if i == k then First else buf.lwd
      decreases k - i
    {
      LinkedAt(buf.first, cs, i);
      DistinctAt(cs, i, k);
      DistinctAt(cs, i, k - 1);
      var next := chain.next;
      remaining := remaining - chain.off;
      if chain == buf.Deref(lwd) {
        lwd := First;
      }
      if lwd == NextOf(chain) {
        lwd := First;
      }
      i := i + 1;
      chain := next;
      HoldsAt(cs, ds, i);
      BytesBefore(ds, k, i);
    }
  }

  /** evbuffer_drain */
  method Drain(buf: Evbuffer, len: nat) returns (ok: bool)
    requires buf.Valid()
    modifies buf, ChainSet(buf.chains)`misalign, ChainSet(buf.chains)`off
    ensures buf.Valid() && buf.SameFlags()
    ensures ChainSet(buf.chains) <= old(ChainSet(buf.chains))
    ensures ok <==> old(buf.totalLen) == 0 || !buf.freezeStart
    ensures var all := old(buf.Contents());
            buf.Contents() == if !ok then all else if len < |all| then all[len..] else []
  {
    hide Distinct, Linked, Holds, LastWithData, Kept, Flatten, SlotAt;
    if buf.totalLen == 0 {
      return true;
    }
    if buf.freezeStart {
      return false;
    }
    if len >= buf.totalLen {
      EmptyList();
      buf.first := null;
      buf.SetHeader(null, First, 0, [], [], 0);
    } else {
      var chain, lwd, remaining;
      ghost var i;
      chain, lwd, remaining, i := SkipDrained(buf, len);
      ghost var cs, ds := buf.chains[i..], buf.datas[i..];
      HoldsAt(buf.chains, buf.datas, i);
      DropChunks(buf.datas, buf.k, i, remaining);
      ListSuffix(buf.first, buf.chains, buf.datas, i);
      SlotSuffix(buf.chains, i, buf.k);
      assert chain in ChainSet(buf.chains);
      HoldsAt(cs, ds, 0);
      buf.first := chain;
      chain.DropFront(remaining);
      HoldsUpdate(cs, ds, 0);
      buf.SetHeader(buf.last, lwd, buf.totalLen - len, cs, ds[0 := ds[0][remaining..]], buf.k - i);
    }
    ok := true;
  }

  lemma PrependChunk(ds: seq<seq<byte>>, k: nat, d: seq<byte>)
    requires LastWithData(ds, k) && ds != []
    ensures LastWithData(ds[0 := d + ds[0]], k)
    ensures Flatten(ds[0 := d + ds[0]]) == d + Flatten(ds)
  {
    FlattenUpdate(ds, 0, d + ds[0]);
    FlattenPrefixEmpty(ds);
    FlattenAt(ds, 0);
  }

  /** memcpy in front of the data of the first chain. */
  method ExtendFirst(buf: Evbuffer, c: Chain, d: seq<byte>)
    requires buf.Valid() && buf.chains != [] && c == buf.chains[0] && !c.immutable
    requires |d| <= c.misalign && buf.totalLen + |d| <= SIZE_MAX
    modifies buf`totalLen, buf`datas, c`mem, c`misalign, c`off
    ensures buf.Valid() && buf.SameFlags()
    ensures buf.datas == old(buf.datas)[0 := d + old(buf.datas)[0]]
    ensures buf.Contents() == d + old(buf.Contents())
    ensures c.misalign == old(c.misalign) - |d| && c.off == old(c.off) + |d|
  {
    hide Distinct, Linked, Holds, LastWithData, Kept, Flatten, SlotAt;
    HoldsAt(buf.chains, buf.datas, 0);
    PrependChunk(buf.datas, buf.k, d);
    c.PushFront(d);
    buf.totalLen := buf.totalLen + |d|;
    HoldsUpdate(buf.chains, buf.datas, 0);
    buf.datas := buf.datas[0 := d + buf.datas[0]];
  }

  /** evbuffer_prepend: an empty chain counts as empty at the beginning. */
  method ShiftEmpty(buf: Evbuffer, c: Chain)
    requires buf.Valid() && buf.chains != [] && c == buf.chains[0] && !c.immutable
    modifies c`misalign
    ensures buf.Valid() && c.misalign == if c.off == 0 then |c.mem| else old(c.misalign)
  {
    hide Distinct, Linked, Holds, LastWithData, Kept, Flatten, SlotAt;
    if c.off == 0 {
      HoldsAt(buf.chains, buf.datas, 0);
      c.misalign := |c.mem|;
      assert c.Data() == buf.datas[0];
      HoldsUpdate(buf.chains, buf.datas, 0);
      assert buf.datas[0 := buf.datas[0]] == buf.datas;
    }
  }

  lemma ConsChunk(ds: seq<seq<byte>>, k: nat, d: seq<byte>)
    requires LastWithData(ds, k) && ds != [] && d != []
    ensures LastWithData([d] + ds, if k == 0 && ds[0] == [] then 0 else k + 1)
    ensures Flatten([d] + ds) == d + Flatten(ds)
  {
    assert ([d] + ds)[1..] == ds;
  }

  lemma ListCons(first: Chain?, cs: seq<Chain>, ds: seq<seq<byte>>, c: Chain, k: nat)
    requires Distinct(cs) && Linked(first, cs) && Holds(cs, ds)
    requires c !in cs && c.next == first && c.Ok() && k <= |cs|
    ensures Distinct([c] + cs) && Linked(c, [c] + cs) && Holds([c] + cs, [c.Data()] + ds)
    ensures SlotAt([c] + cs, 0) == First
    ensures SlotAt([c] + cs, k + 1) == if k == 0 then NextOf(c) else SlotAt(cs, k)
  {
    var all := [c] + cs;
    assert ChainAt(all, 1) == ChainAt(cs, 0);
    forall j | 0 <= j < |all|
      ensures all[j].next == ChainAt(all, j + 1)
    {
      if j > 0 {
        assert all[j] == cs[j - 1];
        assert ChainAt(all, j + 1) == ChainAt(cs, j);
      }
    }
  }

  /** evbuffer_prepend, last part: a new first chain with the data at its end. */
  method PrependChain(buf: Evbuffer, tmp: Chain, d: seq<byte>)
    requires buf.Valid() && buf.chains != [] && buf.totalLen + |d| <= SIZE_MAX
    requires tmp !in buf.chains && !tmp.immutable && 0 < |d| <= |tmp.mem| == tmp.bufferLen
    modifies buf, tmp
    ensures buf.Valid() && buf.SameFlags()
    ensures buf.chains == [tmp] + old(buf.chains)
    ensures buf.Contents() == d + old(buf.Contents())
  {
    hide Distinct, Linked, Holds, LastWithData, Kept, Flatten, SlotAt;
    ghost var cs, ds, k := buf.chains, buf.datas, buf.k;
    LinkedAt(buf.first, cs, 0);
    HoldsAt(cs, ds, 0);
    DerefFacts(buf);
    var chain := buf.first;
    var lwd := buf.lwd;
    if lwd == First && chain.off != 0 {
      lwd := NextOf(tmp);
    }
    tmp.next := chain;
    tmp.off := |d|;
    tmp.misalign := |tmp.mem| - |d|;
    tmp.Put(tmp.misalign, d);
    assert tmp.Data() == d;
    ListCons(chain, cs, ds, tmp, k);
    ConsChunk(ds, k, d);
    buf.first := tmp;
    buf.SetHeader(buf.last, lwd, buf.totalLen + |d|, [tmp] + cs, [d] + ds,
                  if k == 0 && ds[0] == [] then 0 else k + 1);
  }

  lemma DerefFacts(buf: Evbuffer)
    requires buf.Valid()
    ensures buf.lwd == First <==> buf.k == 0
  {
  }

  /** How many bytes fit in front of the data of a chain. */
  function FrontLen(c: Chain): nat
    reads c
  {
    if c.immutable then 0 else if c.off == 0 then |c.mem| else c.misalign
  }

  ghost predicate CanPrepend(buf: Evbuffer, n: nat, mallocOk: bool)
    reads buf, buf.chains
  {
    if buf.chains == [] then mallocOk && n <= MAX_ALLOC
    else n <= FrontLen(buf.chains[0]) || (mallocOk && n - FrontLen(buf.chains[0]) <= MAX_ALLOC)
  }

  /** evbuffer_prepend: it fails exactly if the start is frozen, the length would overflow,
      or there is no room and none can be made. In the last case as much of the end of the
      data as fits in front of the first chain is already in the buffer. */
  method Prepend(buf: Evbuffer, data: seq<byte>, mallocOk: bool) returns (ok: bool)
    requires buf.Valid()
    modifies buf, buf.chains
    ensures buf.Valid() && buf.OnlyNewChains() && buf.SameFlags()
    ensures ok ==> buf.Contents() == data + old(buf.Contents())
    ensures var early := buf.freezeStart || old(buf.totalLen) + |data| > SIZE_MAX;
            && (ok <==> data == [] || (!early && old(CanPrepend(buf, |data|, mallocOk))))
            && (!ok ==>
                  var n := if early || old(buf.chains) == [] then 0 else old(FrontLen(buf.chains[0]));
                  n <= |data| && buf.Contents() == data[|data| - n..] + old(buf.Contents()))
  {
    hide Distinct, Linked, Holds, LastWithData, Kept, Flatten, SlotAt;
    assert buf.Contents() == data[|data|..] + buf.Contents();
    if data == [] {
      return true;
    }
    if buf.freezeStart || |data| > SIZE_MAX - buf.totalLen {
      return false;
    }
    buf.DerefLwd();
    var chain := buf.first;
    if chain == null {
      LinkedNull(buf.first, buf.chains);
      chain := ChainNew(|data|, mallocOk);
      if chain == null {
        return false;
      }
      buf.ChainInsert(chain);
    }
    LinkedNull(buf.first, buf.chains);
    ok := PrependTo(buf, chain, data, mallocOk);
  }

  /** evbuffer_prepend, once the buffer has a first chain: as much as fits goes in front
      of that chain's data, the rest into a new one. */
  method PrependTo(buf: Evbuffer, chain: Chain, data: seq<byte>, mallocOk: bool) returns (ok: bool)
    requires buf.Valid() && buf.chains != [] && chain == buf.chains[0] && data != [] && buf.totalLen + |data| <= SIZE_MAX
    modifies buf, ChainSet(buf.chains)
    ensures buf.Valid() && buf.OnlyNewChains() && buf.SameFlags()
    ensures ok ==> buf.Contents() == data + old(buf.Contents())
    ensures ok <==> var n := old(FrontLen(chain)); |data| <= n || (mallocOk && |data| - n <= MAX_ALLOC)
    ensures !ok ==> var n := old(FrontLen(chain)); n <= |data| && buf.Contents() == data[|data| - n..] + old(buf.Contents())
  {
    hide Distinct, Linked, Holds, LastWithData, Kept, Flatten, SlotAt;
    ghost var all := buf.Contents();
    var n := |data|;
    assert data[n..] + all == all;
    assert chain in ChainSet(buf.chains);
    if !chain.immutable {
      ShiftEmpty(buf, chain);
      if chain.misalign >= |data| {
        ExtendFirst(buf, chain, data);
        return true;
      } else if chain.misalign > 0 {
        n := |data| - chain.misalign;
        ExtendFirst(buf, chain, data[n..]);
      }
    }
    var tmp := ChainNew(n, mallocOk);
    if tmp == null {
      return false;
    }
    PrependChain(buf, tmp, data[..n]);
    SplitFront(data, n, all);
    ok := true;
  }

  lemma SplitFront(data: seq<byte>, n: nat, all: seq<byte>)
    requires n <= |data|
    ensures data[..n] + (data[n..] + all) == data + all
  {
  }

  lemma LinkedNull(first: Chain?, cs: seq<Chain>)
    requires Linked(first, cs)
    ensures first == null <==> cs == []
    ensures first != null ==> first == cs[0]
  {
  }

  /** Reading n bytes of chain i from offset r continues a copy that began at
      position p and has copied m bytes. */
  lemma CopyStep(ds: seq<seq<byte>>, i: nat, r: nat, n: nat, p: nat, m: nat)
    requires i < |ds| && r + n <= |ds[i]|
    requires p + m == |Flatten(ds[..i])| + r
    ensures |Flatten(ds[..i + 1])| == |Flatten(ds[..i])| + |ds[i]| <= |Flatten(ds)|
    ensures p + m + n <= |Flatten(ds)|
    ensures Flatten(ds)[p..p + m] + ds[i][r..r + n] == Flatten(ds)[p..p + m + n]
  {
    hide Flatten;
    FlattenAt(ds, i);
    FlattenSnoc(ds, i);
    Middle(Flatten(ds[..i]), ds[i], Flatten(ds[i + 1..]), r, n);
    JoinSlices(Flatten(ds), p, m, n);
  }

  lemma Middle(a: seq<byte>, b: seq<byte>, c: seq<byte>, r: nat, n: nat)
    requires r + n <= |b|
    ensures (a + (b + c))[|a| + r..|a| + r + n] == b[r..r + n]
  {
  }

  lemma JoinSlices(s: seq<byte>, p: nat, m: nat, n: nat)
    requires p + m + n <= |s|
    ensures s[p..p + m] + s[p + m..p + m + n] == s[p..p + m + n]
  {
  }

  /** memcpy of n bytes of chain number i, from offset r, behind what has been copied. */
  method CopyPart(buf: Evbuffer, chain: Chain, r: nat, n: nat, bytes: seq<byte>, ghost i: nat, ghost p: nat)
    returns (bytes': seq<byte>)
    requires buf.Valid() && i < |buf.chains| && chain == buf.chains[i] && r + n <= |buf.datas[i]|
    requires p + |bytes| == |Flatten(buf.datas[..i])| + r && p + |bytes| <= |buf.Contents()|
    requires bytes == buf.Contents()[p..p + |bytes|]
    ensures |bytes'| == |bytes| + n && p + |bytes'| <= |buf.Contents()| && bytes' == buf.Contents()[p..p + |bytes'|]
    ensures |Flatten(buf.datas[..i + 1])| == |Flatten(buf.datas[..i])| + |buf.datas[i]|
  {
    hide Distinct, Linked, Holds, LastWithData, Kept, Flatten, SlotAt;
    HoldsAt(buf.chains, buf.datas, i);
    CopyStep(buf.datas, i, r, n, p, |bytes|);
    bytes' := bytes + chain.Slice(r, n);
  }

  /** evbuffer_copyout_from, the loop: the bytes it copies. */
  method Gather(buf: Evbuffer, start: EvbufferPtr, ghost i0: nat, datlen: nat) returns (bytes: seq<byte>)
    requires buf.Valid() && buf.PtrIn(start, i0)
    requires start.pos + datlen <= buf.totalLen
    ensures bytes == buf.Contents()[start.pos..start.pos + datlen]
  {
    hide Distinct, Linked, Holds, LastWithData, Kept, Flatten, SlotAt, buf.Contents;
    var chain: Chain?, r: nat, left: nat := start.chain, start.posInChain, datlen;
    bytes := [];
    ghost var i, p := i0, start.pos;
    ghost var cs, ds := buf.chains, buf.datas;
    Lengths(buf);
    while left > 0 && (AtEnd(buf, i); left >= chain.off - r)
      invariant i <= |cs| && chain == ChainAt(cs, i) && r <= (if i < |cs| then |ds[i]| else 0)
      invariant left == datlen - |bytes| && p + |bytes| == |Flatten(ds[..i])| + r
      invariant bytes == buf.Contents()[p..p + |bytes|]
      decreases |cs| - i
    {
      HoldsAt(cs, ds, i);
      LinkedAt(buf.first, cs, i);
      var copylen := chain.off - r;
      bytes := CopyPart(buf, chain, r, copylen, bytes, i, p);
      left := left - copylen;
      chain, r := chain.next, 0;
      i := i + 1;
    }
    if left > 0 {
      HoldsAt(cs, ds, i);
      bytes := CopyPart(buf, chain, r, left, bytes, i, p);
    }
  }

  lemma Lengths(buf: Evbuffer)
    requires buf.Valid()
    ensures |buf.Contents()| == buf.totalLen && |buf.chains| == |buf.datas|
  {
  }

  /** Behind the last chain there is nothing left to copy. */
  lemma AtEnd(buf: Evbuffer, i: nat)
    requires buf.Valid() && i <= |buf.chains|
    ensures i == |buf.chains| ==> |Flatten(buf.datas[..i])| == buf.totalLen
    ensures i < |buf.chains| ==> buf.chains[i].off == |buf.datas[i]|
  {
    assert i == |buf.datas| ==> buf.datas[..i] == buf.datas;
  }

  /** evbuffer_copyout_from; the position is the start of the buffer when `from` is None. */
  method CopyoutFrom(buf: Evbuffer, from: Option<EvbufferPtr>, ghost i0: nat, out: array<byte>, datlen: nat)
    returns (result: int)
    requires buf.Valid() && datlen <= out.Length
    requires from.Some? ==> buf.PtrIn(from.value, i0)
    modifies out
    ensures result == -1 || 0 <= result <= datlen
    ensures var p := if from.Some? then from.value.pos else 0;
            var n := if p + datlen > buf.totalLen then buf.totalLen - p else datlen;
            && (result == -1 <==> (from.Some? && datlen > SSIZE_MAX - p) || (n > 0 && buf.freezeStart))
            && (result != -1 ==> result == n && out[..n] == buf.Contents()[p..p + n])
    ensures var n := if result == -1 then 0 else result; out[n..] == old(out[n..])
  {
    hide Distinct, Linked, Holds, LastWithData, Kept, Flatten, SlotAt;
    var start := if from.Some? then from.value else EvbufferPtr(0, buf.first, 0);
    if from.Some? && datlen > SSIZE_MAX - start.pos {
      return -1;
    }
    PtrInRange(buf, start, if from.Some? then i0 else 0);
    var n := if datlen + start.pos > buf.totalLen then buf.totalLen - start.pos else datlen;
    if n == 0 {
      return 0;
    }
    if buf.freezeStart {
      return -1;
    }
    var bytes := Gather(buf, start, if from.Some? then i0 else 0, n);
    forall j | 0 <= j < n {
      out[j] := bytes[j];
    }
    result := n;
  }

  lemma PtrInRange(buf: Evbuffer, p: EvbufferPtr, i: nat)
    requires buf.Valid()
    requires buf.PtrIn(p, i) || (i == 0 && p == EvbufferPtr(0, buf.first, 0))
    ensures buf.PtrIn(p, i) && 0 <= p.pos <= buf.totalLen
  {
    assert buf.datas[..0] == [];
    if i < |buf.datas| {
      CopyStep(buf.datas, i, p.posInChain, 0, p.pos, 0);
    } else {
      assert buf.datas[..i] == buf.datas;
    }
  }

  /** evbuffer_remove */
  method Remove(buf: Evbuffer, out: array<byte>, datlen: nat) returns (n: int)
    requires buf.Valid() && datlen <= out.Length
    modifies buf, ChainSet(buf.chains)`misalign, ChainSet(buf.chains)`off, out
    ensures buf.Valid() && buf.SameFlags()
    ensures ChainSet(buf.chains) <= old(ChainSet(buf.chains))
    ensures n == -1 <==> buf.freezeStart && datlen > 0 && old(buf.totalLen) > 0
    ensures n == -1 ==> buf.Contents() == old(buf.Contents()) && out[..] == old(out[..])
    ensures n != -1 ==>
              && n == (if datlen < old(buf.totalLen) then datlen else old(buf.totalLen))
              && out[..n] + buf.Contents() == old(buf.Contents())
              && out[n..] == old(out[n..])
  {
    hide Distinct, Linked, Holds, LastWithData, Kept, Flatten, SlotAt;
    ghost var all := buf.Contents();
    n := CopyoutFrom(buf, None, 0, out, datlen);
    if n > 0 {
      var ok := Drain(buf, n);
      if !ok {
        n := -1;
      }
    }
    assert n >= 0 ==> all[..n] + all[n..] == all;
  }
}

/** Operations of buffer.c that move whole chains between two evbuffers. */
module EvbufferMove {
  import opened Bytes
  import opened EvbufferCore
  import opened EvbufferBytes

  /** No chain is in both lists. */
  ghost predicate Apart(a: Evbuffer, b: Evbuffer)
    reads a, b
  {
    forall c :: c in a.chains ==> c !in b.chains
  }

  lemma AppendChunks(ds: seq<seq<byte>>, k: nat, es: seq<seq<byte>>, j: nat)
    requires LastWithData(ds, k) && LastWithData(es, j) && Flatten(es) != []
    ensures es != [] && LastWithData(ds + es, |ds| + j)
    ensures Flatten(ds + es) == Flatten(ds) + Flatten(es)
  {
    FlattenConcat(ds, es);
    if j == 0 && es != [] {
      FlattenAt(es, 0);
      FlattenPrefixEmpty(es);
      FlattenEmpty(es[1..]);
    }
  }

  lemma SlotAppend(cs: seq<Chain>, more: seq<Chain>, j: nat)
    requires j <= |more|
    ensures SlotAt(cs + more, |cs| + j) == if j == 0 then SlotAt(cs, |cs|) else SlotAt(more, j)
  {
  }

  /** ZERO_CHAIN */
  method ZeroChain(buf: Evbuffer)
    modifies buf
    ensures buf.Valid() && buf.SameFlags() && buf.chains == [] && buf.Contents() == []
  {
    hide Distinct, Linked, Holds, LastWithData, Kept, Flatten, SlotAt;
    EmptyList();
    buf.first := null;
    buf.SetHeader(null, First, 0, [], [], 0);
  }

  /** COPY_CHAIN */
  method CopyChain(dst: Evbuffer, src: Evbuffer)
    requires src.Valid() && dst != src
    modifies dst
    ensures dst.Valid() && dst.SameFlags()
    ensures dst.chains == src.chains && dst.Contents() == src.Contents()
  {
    hide Distinct, Linked, Holds, LastWithData, Kept, Flatten, SlotAt;
    dst.first := src.first;
    dst.SetHeader(src.last, if src.lwd == First then First else src.lwd, src.totalLen,
                  src.chains, src.datas, src.k);
  }

  /** APPEND_CHAIN */
  method AppendChain(dst: Evbuffer, src: Evbuffer)
    requires dst.Valid() && src.Valid() && dst != src && Apart(src, dst)
    requires 0 < src.totalLen && dst.totalLen + src.totalLen <= SIZE_MAX
    modifies dst, dst.chains`next
    ensures dst.Valid() && dst.SameFlags()
    ensures forall c :: c in dst.chains ==> c in old(dst.chains) || c in src.chains
    ensures dst.Contents() == old(dst.Contents()) + src.Contents()
  {
    hide Distinct, Linked, Holds, LastWithData, Kept, Flatten, SlotAt;
    ghost var more, es, j := src.chains, src.datas, src.k;
    src.DerefLwd();
    DerefFacts(src);
    LinkedHead(src.first, more);
    ghost var cs0 := dst.chains;
    assert forall c :: c in more ==> c !in cs0;
    var chp := dst.FreeTrailingEmptyChains();
    ghost var cs, ds, k := dst.chains, dst.datas, dst.k;
    LinkedSame(more);
    AppendChunks(ds, k, es, j);
    SlotAppend(cs, more, j);
    ListAppend(cs, ds, more, es);
    dst.JoinAt(chp, src.first, more);
    dst.SetHeader(src.last, if src.lwd == First then chp else src.lwd, dst.totalLen + src.totalLen,
                  cs + more, ds + es, |ds| + j);
  }

  /** PREPEND_CHAIN */
  method PrependChains(dst: Evbuffer, src: Evbuffer)
    requires dst.Valid() && src.Valid() && dst != src && Apart(src, dst)
    requires 0 < src.totalLen && 0 < dst.totalLen && dst.totalLen + src.totalLen <= SIZE_MAX
    modifies dst, src`first, src.chains`next
    ensures dst.Valid() && dst.SameFlags()
    ensures dst.chains == src.chains + old(dst.chains)
    ensures dst.Contents() == src.Contents() + old(dst.Contents())
  {
    hide Distinct, Linked, Holds, LastWithData, Kept, Flatten, SlotAt;
    ghost var cs, ds, k := dst.chains, dst.datas, dst.k;
    ghost var more, es, j := src.chains, src.datas, src.k;
    EmptyList();
    AppendChunks(es, j, ds, k);
    AppendChunks([], 0, es, j);
    SlotAppend(more, cs, k);
    DerefFacts(dst);
    ListAppend(more, es, cs, ds);
    assert NextOf(src.last) == SlotAt(more, |more|) by { LastSlot(src); }
    src.JoinAt(NextOf(src.last), dst.first, cs);
    dst.first := src.first;
    var lwd := dst.lwd;
    if dst.lwd == First {
      lwd := NextOf(src.last);
    }
    dst.SetHeader(dst.last, lwd, dst.totalLen + src.totalLen, more + cs, es + ds, |es| + k);
  }

  lemma LastSlot(buf: Evbuffer)
    requires buf.Valid() && buf.chains != []
    ensures buf.last != null && NextOf(buf.last) == SlotAt(buf.chains, |buf.chains|)
  {
  }

  /** evbuffer_add_buffer. total_len is added without a check, so the sum must
      be a size_t. */
  method AddBuffer(dst: Evbuffer, src: Evbuffer) returns (ok: bool)
    requires dst.Valid() && src.Valid()
    requires src != dst ==> Apart(src, dst) && src.totalLen + dst.totalLen <= SIZE_MAX
    modifies src, dst, dst.chains`next
    ensures dst.Valid() && src.Valid() && src.SameFlags() && dst.SameFlags()
    ensures src != dst ==> Apart(src, dst)
    ensures forall c :: c in dst.chains + src.chains ==> c in old(dst.chains) || c in old(src.chains)
    ensures ok <==> src == dst || old(src.totalLen) == 0 || !(dst.freezeEnd || src.freezeStart)
    ensures if ok && src != dst
            then dst.Contents() == old(dst.Contents()) + old(src.Contents()) && src.Contents() == []
            else dst.Contents() == old(dst.Contents()) && src.Contents() == old(src.Contents())
  {
    hide Distinct, Linked, Holds, LastWithData, Kept, Flatten, SlotAt;
    if src.totalLen == 0 || dst == src {
      return true;
    }
    if dst.freezeEnd || src.freezeStart {
      return false;
    }
    if dst.totalLen == 0 {
      CopyChain(dst, src);
    } else {
      AppendChain(dst, src);
    }
    ZeroChain(src);
    ok := true;
  }

  /** evbuffer_prepend_buffer */
  method PrependBuffer(dst: Evbuffer, src: Evbuffer) returns (ok: bool)
    requires dst.Valid() && src.Valid()
    requires src != dst ==> Apart(src, dst) && src.totalLen + dst.totalLen <= SIZE_MAX
    modifies src, dst, src.chains`next
    ensures dst.Valid() && src.Valid() && src.SameFlags() && dst.SameFlags()
    ensures src != dst ==> Apart(src, dst)
    ensures forall c :: c in dst.chains + src.chains ==> c in old(dst.chains) || c in old(src.chains)
    ensures ok <==> src == dst || old(src.totalLen) == 0 || !(dst.freezeStart || src.freezeStart)
    ensures if ok && src != dst
            then dst.Contents() == old(src.Contents()) + old(dst.Contents()) && src.Contents() == []
            else dst.Contents() == old(dst.Contents()) && src.Contents() == old(src.Contents())
  {
    hide Distinct, Linked, Holds, LastWithData, Kept, Flatten, SlotAt;
    if src.totalLen == 0 || dst == src {
      return true;
    }
    if dst.freezeStart || src.freezeStart {
      return false;
    }
    if dst.totalLen == 0 {
      CopyChain(dst, src);
    } else {
      PrependChains(dst, src);
    }
    ZeroChain(src);
    ok := true;
  }

  /** evbuffer_remove_buffer, the loop: the chains that can be moved whole. */
  method SkipMoved(src: Evbuffer, datlen: nat)
    returns (chain: Chain, previous: Chain, lwd: Slot, rest: nat, nread: nat, ghost i: nat)
    requires src.Valid() && datlen < src.totalLen
    ensures i <= src.k < |src.chains| && chain == src.chains[i]
    ensures i > 0 ==> previous == src.chains[i - 1]
    ensures rest < chain.off && datlen == nread + rest && nread == |Flatten(src.datas[..i])|
    ensures lwd == if i == src.k then First else src.lwd
  {
    hide Distinct, Linked, Holds, LastWithData, Kept, Flatten;
    src.DerefLwd();
    ghost var cs, ds, k := src.chains, src.datas, src.k;
    FlattenPrefixEmpty(ds);
    HoldsAt(cs, ds, 0);
    LinkedAt(src.first, cs, 0);
    chain, previous, lwd, rest, nread, i := src.first, src.first, src.lwd, datlen, 0, 0;
    BytesBefore(ds, k, 0);
    while chain.off <= rest
      invariant i <= k < |cs| && chain == cs[i] && |ds[i]| == chain.off
      invariant i > 0 ==> previous == cs[i - 1]
      invariant nread == |Flatten(ds[..i])| && datlen == nread + rest
      invariant |Flatten(ds[..i + 1])| == |Flatten(ds[..i])| + |ds[i]|
      invariant i == k ==> |Flatten(ds[..i])| + |ds[i]| == |Flatten(ds)|
      invariant lwd == if i == k then First else src.lwd
      decreases k - i
    {
      LinkedAt(src.first, cs, i);
      DistinctAt(cs, i, k);
      DistinctAt(cs, i, k - 1);
      // The last chain with data is never detached.
      assert chain != src.Deref(lwd);
      nread := nread + chain.off;
      rest := rest - chain.off;
      previous := chain;
      if lwd == NextOf(chain) {
        lwd := First;
      }
      chain := chain.next;
      i := i + 1;
      HoldsAt(cs, ds, i);
      BytesBefore(ds, k, i);
    }
  }

  /** advance_last_with_data on the list cs, starting at slot number k0. */
  method AdvanceLastWithData(buf: Evbuffer, ghost cs: seq<Chain>, ghost ds: seq<seq<byte>>, ghost k0: nat)
    returns (lwd: Slot, n: nat, ghost k: nat)
    requires Linked(buf.first, cs) && Holds(cs, ds) && |cs| == |ds|
    requires k0 <= |cs| && buf.lwd == SlotAt(cs, k0)
    requires 0 < k0 < |cs| ==> ds[k0] != []
    requires k0 < |cs| || cs == []
    ensures k0 <= k <= |cs| && lwd == SlotAt(cs, k) && LastWithData(ds, k)
    ensures k == k0 || ds[k] != []
    ensures n == if buf.first == null then 0 else |cs| - 1 - k0
  {
    hide Distinct, Linked, Holds, Kept, Flatten;
    lwd, n, k := buf.lwd, 0, k0;
    LinkedHead(buf.first, cs);
    if cs != [] && k0 > 0 {
      LinkedAt(buf.first, cs, k0 - 1);
    }
    if buf.Deref(lwd) == null {
      return;
    }
    var chain := buf.Deref(lwd);
    ghost var i := k0;
    LinkedAt(buf.first, cs, i);
    while chain.next != null
      invariant n == i - k0
      invariant k0 <= k <= i < |cs| && chain == cs[i] && chain.next == ChainAt(cs, i + 1)
      invariant lwd == SlotAt(cs, k) && (k == k0 || ds[k] != [])
      invariant forall j :: k < j <= i ==> ds[j] == []
      decreases |cs| - i
    {
      var chainp := NextOf(chain);
      i := i + 1;
      chain := chain.next;
      LinkedAt(buf.first, cs, i);
      HoldsAt(cs, ds, i);
      if chain.off != 0 {
        lwd, k := chainp, i;
      }
      n := n + 1;
    }
  }

  /** The last chunk that is not empty, or -1. */
  ghost function LastFull(ds: seq<seq<byte>>): (j: int)
    ensures -1 <= j < |ds|
  {
    if ds == [] then -1 else if ds[|ds| - 1] != [] then |ds| - 1 else LastFull(ds[..|ds| - 1])
  }

  lemma {:induction false} LastFullFacts(ds: seq<seq<byte>>)
    ensures var j := LastFull(ds); (j >= 0 ==> ds[j] != []) && forall x :: j < x < |ds| ==> ds[x] == []
  {
    if ds != [] && ds[|ds| - 1] == [] {
      LastFullFacts(ds[..|ds| - 1]);
      assert forall x :: 0 <= x < |ds| - 1 ==> ds[..|ds| - 1][x] == ds[x];
    }
  }

  /** The chain that has the last data once some chains have been moved behind a buffer
      whose own such chain is `own`. */
  ghost function Landing(moved: seq<Chain>, es: seq<seq<byte>>, hasData: bool, own: Chain?): Chain?
    requires |moved| == |es|
  {
    var j := LastFull(es);
    if j >= 0 then moved[j] else if moved != [] && !hasData then moved[0] else own
  }

  lemma LandsAt(cs: seq<Chain>, ds: seq<seq<byte>>, k0: nat, moved: seq<Chain>, es: seq<seq<byte>>, k: nat)
    requires |cs| == |ds| && |moved| == |es| && moved != []
    requires if ds == [] then k0 == 0 else k0 == |ds| - 1 && ds[k0] != []
    requires LastWithData(ds + es, k) && k0 <= k && (k == k0 || (ds + es)[k] != [])
    ensures k < |cs + moved| && (cs + moved)[k] == Landing(moved, es, ds != [], ChainAt(cs, k0))
  {
    LastFullFacts(es);
    var j := LastFull(es);
    if j >= 0 {
      assert (ds + es)[|ds| + j] != [];
    }
  }

  lemma HasData(ds: seq<seq<byte>>, k: nat)
    requires LastWithData(ds, k)
    ensures Kept(ds, k) > 0 <==> |Flatten(ds)| > 0
    ensures Kept(ds, k) > 0 ==> k == Kept(ds, k) - 1 < |ds|
  {
    if Kept(ds, k) > 0 {
      FlattenAt(ds, k);
    } else {
      FlattenEmpty(ds);
    }
  }

  /** Hangs a detached list of chains behind dst's data. */
  method Attach(dst: Evbuffer, head: Chain, tail: Chain, nread: nat,
                ghost moved: seq<Chain>, ghost es: seq<seq<byte>>)
    requires dst.Valid() && moved != [] && tail == moved[|moved| - 1]
    requires Distinct(moved) && Linked(head, moved) && Holds(moved, es)
    requires forall c :: c in moved ==> c !in dst.chains
    requires nread == |Flatten(es)| && dst.totalLen + nread <= SIZE_MAX
    modifies dst, dst.chains`next
    ensures dst.Valid() && dst.SameFlags()
    ensures forall c :: c in dst.chains ==> c in old(dst.chains) || c in moved
    ensures dst.Contents() == old(dst.Contents()) + Flatten(es)
    ensures |moved| == |es| && dst.k < |dst.chains|
    ensures dst.chains[dst.k] == Landing(moved, es, old(dst.totalLen) > 0, old(ChainAt(dst.chains, dst.k)))
  {
    hide Distinct, Linked, Holds, LastWithData, Kept, Flatten;
    LinkedHead(head, moved);
    ghost var cs0 := dst.chains;
    HasData(dst.datas, dst.k);
    var chp := dst.FreeTrailingEmptyChains();
    LinkedSame(moved);
    ghost var cs, ds, k0 := dst.chains, dst.datas, dst.k;
    KeptLast(ds, k0);
    HoldsLen(moved, es);
    ListAppend(cs, ds, moved, es);
    SlotPrefix(cs, moved, k0);
    FlattenConcat(ds, es);
    dst.JoinAt(chp, head, moved);
    ghost var cs1, ds1 := cs + moved, ds + es;
    var lwd, n;
    ghost var k;
    lwd, n, k := AdvanceLastWithData(dst, cs1, ds1, k0);
    LandsAt(cs, ds, k0, moved, es, k);
    assert cs1 == cs + moved;
    dst.SetHeader(tail, lwd, dst.totalLen + nread, cs1, ds1, k);
  }

  lemma KeptLast(ds: seq<seq<byte>>, k: nat)
    requires LastWithData(ds, k) && Kept(ds, k) == |ds|
    ensures if ds == [] then k == 0 else k == |ds| - 1 && ds[k] != []
  {
  }

  /** Cuts the first i chains off src's list. */
  method Detach(src: Evbuffer, previous: Chain, ghost i: nat)
    requires src.Valid() && 0 < i < |src.chains| && previous == src.chains[i - 1]
    modifies src`first, previous`next
    ensures Linked(src.first, src.chains[..i]) && src.first == src.chains[0]
  {
    hide Distinct, Linked, Holds, LastWithData, Kept, Flatten;
    src.CutAt(NextOf(previous), i);
    LinkedHead(src.first, src.chains[..i]);
  }

  lemma DistinctCut(cs: seq<Chain>, i: nat)
    requires Distinct(cs) && 0 < i <= |cs|
    ensures forall c :: c in cs[i..] ==> c !in cs[..i]
    ensures forall c :: c in cs[i..] ==> c != cs[i - 1]
  {
  }

  /** The chunks before i, and the bytes behind them. */
  lemma SplitChunks(ds: seq<seq<byte>>, k: nat, i: nat)
    requires LastWithData(ds, k) && i <= k < |ds|
    ensures LastWithData(ds[i..], k - i)
    ensures var n := |Flatten(ds[..i])|;
            n <= |Flatten(ds)| && Flatten(ds[..i]) == Flatten(ds)[..n] && Flatten(ds[i..]) == Flatten(ds)[n..]
  {
    FlattenSplit(ds, i);
  }

  /** evbuffer_remove_buffer, middle part: moves whole chains from src to dst. */
  method MoveChains(src: Evbuffer, dst: Evbuffer, chain: Chain, previous: Chain, lwd: Slot, nread: nat, ghost i: nat)
    requires src.Valid() && dst.Valid() && src != dst && Apart(src, dst)
    requires 0 < i <= src.k < |src.chains| && chain == src.chains[i] && previous == src.chains[i - 1]
    requires lwd == (if i == src.k then First else src.lwd) && nread == |Flatten(src.datas[..i])|
    requires src.totalLen + dst.totalLen <= SIZE_MAX
    modifies src, dst, src.chains`next, dst.chains`next
    ensures src.Valid() && dst.Valid() && Apart(src, dst) && src.SameFlags() && dst.SameFlags()
    ensures src.chains != [] && chain == src.chains[0]
    ensures forall c :: c in src.chains ==> c in old(src.chains)
    ensures forall c :: c in dst.chains ==> c in old(dst.chains) || c in old(src.chains)
    ensures nread <= |old(src.Contents())|
    ensures src.Contents() == old(src.Contents())[nread..]
    ensures dst.Contents() == old(dst.Contents()) + old(src.Contents())[..nread]
    ensures i < |old(src.datas)| == |old(src.chains)| && dst.k < |dst.chains|
    ensures dst.chains[dst.k] ==
              Landing(old(src.chains)[..i], old(src.datas)[..i], old(dst.totalLen) > 0, old(ChainAt(dst.chains, dst.k)))
  {
    hide Distinct, Linked, Holds, LastWithData, Kept, Flatten, SlotAt, Landing;
    ghost var cs, ds, k := src.chains, src.datas, src.k;
    SplitChunks(ds, k, i);
    ListPrefix(cs, ds, i);
    ListSuffix(src.first, cs, ds, i);
    SlotSuffix(cs, i, k);
    DistinctCut(cs, i);
    ghost var front, back, ds0, ds1 := cs[..i], cs[i..], ds[..i], ds[i..];
    assert previous in cs && forall c :: c in front || c in back ==> c in cs;
    Detach(src, previous, i);
    Attach(dst, src.first, previous, nread, front, ds0);
    LinkedSame(back);
    KeepRest(src, chain, lwd, nread, back, ds1, k - i);
  }

  /** What is left of src's list once its first chains are gone. */
  method KeepRest(src: Evbuffer, chain: Chain, lwd: Slot, nread: nat, ghost cs: seq<Chain>, ghost ds: seq<seq<byte>>, ghost k: nat)
    requires Distinct(cs) && Linked(chain, cs) && Holds(cs, ds) && LastWithData(ds, k) && k <= |cs| && lwd == SlotAt(cs, k)
    requires nread <= src.totalLen && src.totalLen - nread == |Flatten(ds)| <= SIZE_MAX
    requires cs != [] && src.last == cs[|cs| - 1]
    modifies src
    ensures src.Valid() && src.SameFlags() && src.chains == cs && src.datas == ds
  {
    hide Distinct, Linked, Holds, LastWithData, Kept, Flatten, SlotAt;
    src.first := chain;
    src.SetHeader(src.last, lwd, src.totalLen - nread, cs, ds, k);
  }

  /** evbuffer_remove_buffer, last part: copies and drains the first bytes of src's
      first chain, whether or not the copy succeeded. */
  method MoveBytes(src: Evbuffer, dst: Evbuffer, chain: Chain, n: nat, mallocOk: bool) returns (added: bool)
    requires src.Valid() && dst.Valid() && src != dst && Apart(src, dst)
    requires src.chains != [] && chain == src.chains[0] && n < chain.off && !dst.freezeEnd
    requires src.totalLen + dst.totalLen <= SIZE_MAX
    modifies src, dst, chain`misalign, chain`off, ChainSet(dst.chains)
    ensures src.Valid() && dst.Valid() && Apart(src, dst) && src.SameFlags() && dst.SameFlags()
    ensures dst.OnlyNewChains() && src.chains == old(src.chains)
    ensures n <= |old(src.Contents())|
    ensures src.Contents() == old(src.Contents())[n..]
    ensures dst.Contents() == old(dst.Contents()) + (if added then old(src.Contents())[..n] else [])
    ensures added <==> old(CanAdd(dst, n, mallocOk))
  {
    hide Distinct, Linked, Holds, LastWithData, Kept, Flatten, SlotAt;
    HoldsAt(src.chains, src.datas, 0);
    FirstChunk(src.datas, src.k, n);
    assert chain in src.chains;
    added := Add(dst, chain.Slice(0, n), mallocOk);
    ValidSame(src);
    label Added:
    DrainFirst(src, chain, n);
    ValidSame@Added(dst);
  }

  /** Drains n bytes off the first chain, which keeps some. */
  method DrainFirst(src: Evbuffer, chain: Chain, n: nat)
    requires src.Valid() && src.chains != [] && chain == src.chains[0] && n < chain.off
    modifies src`last, src`lwd, src`totalLen, src`chains, src`datas, src`k, chain`misalign, chain`off
    ensures src.Valid() && src.SameFlags()
    ensures src.chains == old(src.chains)
    ensures n <= |old(src.Contents())| && src.Contents() == old(src.Contents())[n..]
  {
    hide Distinct, Linked, Holds, LastWithData, Kept, Flatten, SlotAt;
    ghost var cs, ds, k := src.chains, src.datas, src.k;
    HoldsAt(cs, ds, 0);
    FirstChunk(ds, k, n);
    chain.DropFront(n);
    HoldsUpdate(cs, ds, 0);
    src.SetHeader(src.last, src.lwd, src.totalLen - n, cs, ds[0 := ds[0][n..]], k);
  }

  lemma FirstChunk(ds: seq<seq<byte>>, k: nat, n: nat)
    requires LastWithData(ds, k) && ds != [] && n < |ds[0]|
    ensures LastWithData(ds[0 := ds[0][n..]], k)
    ensures n <= |Flatten(ds)| && ds[0][0..n] == Flatten(ds)[..n]
    ensures Flatten(ds[0 := ds[0][n..]]) == Flatten(ds)[n..]
  {
    FlattenPrefixEmpty(ds);
    FlattenAt(ds, 0);
    FlattenUpdate(ds, 0, ds[0][n..]);
  }

  /** How many chunks lie within the first n bytes. */
  ghost function Whole(ds: seq<seq<byte>>, n: nat): (i: nat)
    ensures i <= |ds| && |Flatten(ds[..i])| <= n
  {
    if ds == [] || |ds[0]| > n then FlattenPrefixEmpty(ds); 0
    else
      var i := 1 + Whole(ds[1..], n - |ds[0]|);
      assert ds[..i][0] == ds[0] && ds[..i][1..] == ds[1..][..i - 1];
      i
  }

  lemma {:induction false} WholeIs(ds: seq<seq<byte>>, n: nat, i: nat)
    requires i < |ds| && |Flatten(ds[..i])| <= n < |Flatten(ds[..i])| + |ds[i]|
    ensures Whole(ds, n) == i
  {
    if i > 0 {
      assert ds[..i][0] == ds[0] && ds[..i][1..] == ds[1..][..i - 1];
      WholeIs(ds[1..], n - |ds[0]|, i - 1);
    } else {
      FlattenPrefixEmpty(ds);
    }
  }

  /** How many bytes are in the chains that evbuffer_remove_buffer moves whole. */
  ghost function WholeBytes(src: Evbuffer, n: nat): (m: nat)
    reads src
    ensures m <= n
  {
    |Flatten(src.datas[..Whole(src.datas, n)])|
  }

  /** evbuffer_remove_buffer can copy the bytes that are left when it has moved whole
      chains: there are none, or there is room in the chain where the data then ends, or
      room can be made. */
  ghost predicate CanMove(src: Evbuffer, dst: Evbuffer, n: nat, mallocOk: bool)
    requires src.Valid() && dst.Valid()
    reads src, dst, src.chains, dst.chains
  {
    var i := Whole(src.datas, n);
    var rest := n - WholeBytes(src, n);
    rest == 0 ||
    var c := Landing(src.chains[..i], src.datas[..i], dst.totalLen > 0, ChainAt(dst.chains, dst.k));
    if c == null then mallocOk && rest <= MAX_ALLOC
    else (c in src.chains || c in dst.chains) && Stores(c, rest, mallocOk)
  }

  /** evbuffer_remove_buffer: moves the chains that are asked for whole, and leaves the
      chain of which `rest` bytes are asked for. */
  method MoveWhole(src: Evbuffer, dst: Evbuffer, datlen: nat, ghost mallocOk: bool)
    returns (chain: Chain, rest: nat, ghost nread: nat)
    requires dst.Valid() && src.Valid() && src != dst && Apart(src, dst)
    requires src.totalLen + dst.totalLen <= SIZE_MAX && datlen < src.totalLen
    modifies src, dst, src.chains`next, dst.chains`next
    ensures src.Valid() && dst.Valid() && Apart(src, dst) && src.SameFlags() && dst.SameFlags()
    ensures src.chains != [] && chain == src.chains[0] && rest < chain.off && datlen == nread + rest
    ensures forall c :: c in src.chains ==> c in old(src.chains)
    ensures forall c :: c in dst.chains ==> c in old(dst.chains) || c in old(src.chains)
    ensures nread <= |old(src.Contents())|
    ensures src.Contents() == old(src.Contents())[nread..]
    ensures dst.Contents() == old(dst.Contents()) + old(src.Contents())[..nread]
    ensures nread == old(WholeBytes(src, datlen))
    ensures rest == 0 || CanAdd(dst, rest, mallocOk) <==> old(CanMove(src, dst, datlen, mallocOk))
  {
    hide Distinct, Linked, Holds, LastWithData, Kept, Flatten, SlotAt, Stores, Landing;
    ghost var all := src.Contents();
    var previous, lwd, n;
    ghost var i;
    chain, previous, lwd, rest, n, i := SkipMoved(src, datlen);
    nread := n;
    LinkedHead(src.first, src.chains);
    DistinctAt(src.chains, i, 0);
    HoldsAt(src.chains, src.datas, i);
    WholeIs(src.datas, datlen, i);
    FlattenPrefixEmpty(src.datas);
    LandsIn(src, dst, i);
    if chain != src.first {
      MoveChains(src, dst, chain, previous, lwd, n, i);
    } else {
      assert all[0..] == all && dst.Contents() + all[..0] == dst.Contents();
    }
  }

  lemma LandsIn(src: Evbuffer, dst: Evbuffer, i: nat)
    requires src.Valid() && dst.Valid() && i <= |src.chains| == |src.datas|
    ensures var c := Landing(src.chains[..i], src.datas[..i], dst.totalLen > 0, ChainAt(dst.chains, dst.k));
            && (i == 0 ==> c == ChainAt(dst.chains, dst.k))
            && (c == null <==> i == 0 && dst.chains == [])
            && (c != null ==> c in src.chains || c in dst.chains)
  {
    var j := LastFull(src.datas[..i]);
    HasData(dst.datas, dst.k);
    if j >= 0 {
      assert src.chains[..i][j] == src.chains[j];
    }
  }

  lemma CanMoveNothing(src: Evbuffer, dst: Evbuffer, mallocOk: bool)
    requires src.Valid() && dst.Valid()
    ensures CanMove(src, dst, 0, mallocOk)
  {
  }

  /** While memory can be allocated, and for chains that could be, the copy succeeds. */
  lemma CanMoveBounded(src: Evbuffer, dst: Evbuffer, n: nat)
    requires src.Valid() && dst.Valid() && n < src.totalLen && Bounded(src.chains) && Bounded(dst.chains)
    ensures CanMove(src, dst, n, true)
  {
    var i := Whole(src.datas, n);
    LandsIn(src, dst, i);
    WholeWithin(src.datas, n);
    HoldsAt(src.chains, src.datas, i);
    assert src.chains[i] in src.chains;
  }

  lemma {:induction false} WholeWithin(ds: seq<seq<byte>>, n: nat)
    requires n < |Flatten(ds)|
    ensures var i := Whole(ds, n); i < |ds| && n < |Flatten(ds[..i])| + |ds[i]|
  {
    if |ds[0]| <= n {
      WholeWithin(ds[1..], n - |ds[0]|);
      var i := Whole(ds, n);
      assert ds[..i][0] == ds[0] && ds[..i][1..] == ds[1..][..i - 1];
    }
  }

  /** evbuffer_remove_buffer when src holds more than datlen bytes. The result of
      the inner evbuffer_add is ignored. */
  method RemovePart(src: Evbuffer, dst: Evbuffer, datlen: nat, mallocOk: bool) returns (ghost copied: bool)
    requires dst.Valid() && src.Valid() && src != dst && Apart(src, dst) && !dst.freezeEnd
    requires src.totalLen + dst.totalLen <= SIZE_MAX && datlen < src.totalLen
    modifies src, dst, ChainSet(src.chains), ChainSet(dst.chains)
    ensures dst.Valid() && src.Valid() && src.SameFlags() && dst.SameFlags() && Apart(src, dst)
    ensures forall c :: c in dst.chains + src.chains ==> c in old(dst.chains) || c in old(src.chains) || (fresh(c) && c.bufferLen <= MAX_ALLOC)
    ensures var all := old(src.Contents());
            && datlen < |all| && src.Contents() == all[datlen..]
            && (if copied then dst.Contents() == old(dst.Contents()) + all[..datlen]
                else var m := old(WholeBytes(src, datlen)); m < datlen && dst.Contents() == old(dst.Contents()) + all[..m])
    ensures copied <==> old(CanMove(src, dst, datlen, mallocOk))
  {
    hide Distinct, Linked, Holds, LastWithData, Kept, Flatten, SlotAt, CanAdd, CanMove, Whole;
    ghost var all := src.Contents();
    var chain, rest;
    ghost var nread;
    chain, rest, nread := MoveWhole(src, dst, datlen, mallocOk);
    SplitTwice(all, old(dst.Contents()), nread, rest);
    assert ChainSet(dst.chains) <= ChainSet(old(dst.chains)) + ChainSet(old(src.chains));
    assert chain in old(src.chains);
    var added := MoveBytes(src, dst, chain, rest, mallocOk);
    copied := added || rest == 0;
  }

  /** evbuffer_remove_buffer */
  method RemoveBuffer(src: Evbuffer, dst: Evbuffer, datlen: nat, mallocOk: bool)
    returns (result: int, ghost copied: bool)
    requires dst.Valid() && src.Valid()
    requires src != dst ==> Apart(src, dst) && src.totalLen + dst.totalLen <= SIZE_MAX
    modifies src, dst, src.chains, dst.chains
    ensures dst.Valid() && src.Valid() && src.SameFlags() && dst.SameFlags()
    ensures src != dst ==> Apart(src, dst)
    ensures forall c :: c in dst.chains + src.chains ==> c in old(dst.chains) || c in old(src.chains) || (fresh(c) && c.bufferLen <= MAX_ALLOC)
    ensures result == -1 <==> datlen > 0 && src != dst && (dst.freezeEnd || src.freezeStart)
    ensures result == -1 || src == dst ==>
              dst.Contents() == old(dst.Contents()) && src.Contents() == old(src.Contents())
    ensures result != -1 && src != dst ==>
              var all := old(src.Contents());
              && result == (if datlen < |all| then datlen else |all|)
              && src.Contents() == all[result..]
              && (if copied then dst.Contents() == old(dst.Contents()) + all[..result]
                  else var m := old(WholeBytes(src, datlen)); m < result && dst.Contents() == old(dst.Contents()) + all[..m])
    ensures copied <==> result == -1 || src == dst || datlen >= old(src.totalLen) || old(CanMove(src, dst, datlen, mallocOk))
  {
    hide Distinct, Linked, Holds, LastWithData, Kept, Flatten, SlotAt, CanMove, WholeBytes;
    ghost var all := src.Contents();
    copied := true;
    if datlen == 0 || dst == src {
      CanMoveNothing(src, dst, mallocOk);
      return 0, true;
    }
    if dst.freezeEnd || src.freezeStart {
      return -1, true;
    }
    if datlen >= src.totalLen {
      result := src.totalLen;
      var _ := AddBuffer(dst, src);
      assert all[..result] == all && all[result..] == [];
      return;
    }
    copied := RemovePart(src, dst, datlen, mallocOk);
    result := datlen;
  }
}

/** evbuffer_pullup: making the first bytes of an evbuffer contiguous. */
module EvbufferPullup {
  import opened Bytes
  import opened EvbufferCore
  import opened EvbufferBytes

  /** A list of chunks without the first r bytes of its first chunk. */
  ghost function Trim(ds: seq<seq<byte>>, r: nat): (t: seq<seq<byte>>)
    requires ds != [] ==> r <= |ds[0]|
    ensures |t| == |ds|
  {
    if ds == [] then [] else ds[0 := ds[0][r..]]
  }

  /** The bytes pulled into one chunk: m whole chunks and r bytes of the next. */
  ghost function Head(ds: seq<seq<byte>>, m: nat, r: nat): seq<byte>
    requires m <= |ds| && (m < |ds| ==> r <= |ds[m]|)
  {
    Flatten(ds[..m]) + (if m < |ds| then ds[m][..r] else [])
  }

  lemma PullBytes(ds: seq<seq<byte>>, m: nat, r: nat)
    requires m <= |ds| && (m < |ds| ==> r <= |ds[m]|)
    ensures Head(ds, m, r) + Flatten(Trim(ds[m..], r)) == Flatten(ds)
  {
    hide Flatten;
    if m < |ds| {
      var e := ds[m..];
      FlattenAt(ds, m);
      FlattenPrefixEmpty(e);
      FlattenUpdate(e, 0, ds[m][r..]);
      assert e[1..] == ds[m + 1..];
      Regroup(Flatten(ds[..m]), ds[m], r, Flatten(ds[m + 1..]));
    } else {
      EmptyList();
      assert ds[m..] == [] && ds[..m] == ds;
    }
  }

  lemma Regroup(p: seq<byte>, d: seq<byte>, r: nat, q: seq<byte>)
    requires r <= |d|
    ensures p + d[..r] + (d[r..] + q) == p + (d + q)
  {
  }

  lemma PullChunks(ds: seq<seq<byte>>, k: nat, m: nat, r: nat)
    requires LastWithData(ds, k) && m <= |ds| && (m < |ds| ==> r < |ds[m]|)
    requires Head(ds, m, r) != []
    ensures var t := [Head(ds, m, r)] + Trim(ds[m..], r);
            && Flatten(t) == Flatten(ds)
            && LastWithData(t, if k < m then 0 else k - m + 1)
  {
    PullBytes(ds, m, r);
    var h, t := Head(ds, m, r), Trim(ds[m..], r);
    assert ([h] + t)[1..] == t;
  }

  /** evbuffer_pullup, the loop: what is copied out of whole chains, and whether the
      last chain with data or the slot leading to it goes away. */
  method PullLoop(buf: Evbuffer, start: Chain, size: nat, ghost i: nat)
    returns (bytes: seq<byte>, chain: Chain?, rest: nat, lostChain: bool, lostSlot: bool, ghost m: nat)
    requires buf.Valid() && i < |buf.chains| && start == buf.chains[i]
    ensures i <= m <= |buf.chains| && chain == ChainAt(buf.chains, m)
    ensures bytes == Flatten(buf.datas[i..m]) && rest + |bytes| == size
    ensures chain != null ==> rest < |buf.datas[m]|
    ensures lostChain <==> i <= buf.k < m
    ensures lostSlot <==> i < buf.k <= m
  {
    hide Distinct, Linked, Holds, LastWithData, Kept, Flatten;
    ghost var cs, ds, k := buf.chains, buf.datas, buf.k;
    buf.DerefLwd();
    var lastWithData := buf.Deref(buf.lwd);
    bytes, chain, rest, lostChain, lostSlot, m := [], start, size, false, false, i;
    assert ds[i..i] == [];
    FlattenPrefixEmpty(ds);
    HoldsAt(cs, ds, i);
    assert ds[..0] == ds[i..i];
    while chain != null && rest >= chain.off
      invariant i <= m <= |cs| && chain == ChainAt(cs, m)
      invariant chain != null ==> |ds[m]| == chain.off
      invariant bytes == Flatten(ds[i..m]) && rest + |bytes| == size
      invariant lostChain <==> i <= k < m
      invariant lostSlot <==> i < k <= m
      decreases |cs| - m
    {
      LinkedAt(buf.first, cs, m);
      HoldsAt(cs, ds, m);
      DistinctAt(cs, m, k);
      if k > 0 {
        DistinctAt(cs, m, k - 1);
      }
      var next := chain.next;
      FlattenSnocAt(ds, i, m);
      bytes := bytes + chain.Slice(0, chain.off);
      rest := rest - chain.off;
      if chain == lastWithData {
        lostChain := true;
      }
      if buf.lwd == NextOf(chain) {
        lostSlot := true;
      }
      chain := next;
      m := m + 1;
      if chain != null {
        HoldsAt(cs, ds, m);
      }
    }
  }

  lemma FlattenSnocAt(ds: seq<seq<byte>>, i: nat, m: nat)
    requires i <= m < |ds|
    ensures Flatten(ds[i..m + 1]) == Flatten(ds[i..m]) + ds[m]
  {
    assert ds[i..m + 1] == ds[i..m] + [ds[m]];
    FlattenConcat(ds[i..m], [ds[m]]);
    FlattenSingle(ds[m]);
  }

  /** Makes tmp, which already holds the bytes pulled together, the first chain. */
  method FinishPull(buf: Evbuffer, tmp: Chain, chain: Chain?, rest: nat, lwd: Slot,
                    ghost cs: seq<Chain>, ghost ds: seq<seq<byte>>, ghost head: seq<byte>, ghost k: nat)
    requires tmp !in cs && tmp.Ok() && tmp.Data() == head
    requires Distinct(cs) && Linked(chain, cs) && Holds(cs, ds) && |cs| == |ds|
    requires ds != [] ==> rest < |ds[0]|
    requires LastWithData([head] + Trim(ds, rest), k) && k <= |cs| + 1 && lwd == SlotAt([tmp] + cs, k)
    requires buf.totalLen == |Flatten([head] + Trim(ds, rest))| <= SIZE_MAX
    requires cs != [] ==> buf.last == cs[|cs| - 1]
    modifies buf, tmp`next, ChainSet(cs)
    ensures buf.Valid() && buf.SameFlags()
    ensures buf.chains == [tmp] + cs && buf.datas == [head] + Trim(ds, rest)
  {
    hide Distinct, Linked, Holds, LastWithData, Kept, Flatten, SlotAt;
    LinkedNull(chain, cs);
    ghost var t := Trim(ds, rest);
    if chain != null {
      HoldsAt(cs, ds, 0);
      assert chain in ChainSet(cs);
      chain.DropFront(rest);
      HoldsUpdate(cs, ds, 0);
    }
    assert Holds(cs, t);
    tmp.next := chain;
    ListCons(chain, cs, t, tmp, 0);
    buf.first := tmp;
    buf.SetHeader(if chain == null then tmp else buf.last, lwd, buf.totalLen, [tmp] + cs, [head] + t, k);
  }

  lemma PulledSlot(cs: seq<Chain>, tmp: Chain, m: nat, k: nat)
    requires m <= k <= |cs|
    ensures SlotAt([tmp] + cs[m..], k - m + 1) == if k == m then NextOf(tmp) else SlotAt(cs, k)
    ensures SlotAt([tmp] + cs[m..], 0) == First
  {
  }

  /** The last chain with data lies at or behind the first chain not pulled whole. */
  lemma LwdBehind(ds: seq<seq<byte>>, k: nat, m: nat)
    requires LastWithData(ds, k) && m < |ds| && ds[m] != []
    ensures m <= k
  {
  }

  /** With more data than the first chain holds, the last chain with data is another. */
  lemma LwdNotFirst(ds: seq<seq<byte>>, k: nat)
    requires LastWithData(ds, k) && ds != [] && |ds[0]| < |Flatten(ds)|
    ensures 0 < k < |ds|
  {
    if k == 0 {
      FlattenPrefixEmpty(ds);
      FlattenAt(ds, 0);
      FlattenEmpty(ds[1..]);
    }
  }

  lemma HeadFacts(ds: seq<seq<byte>>, i: nat, m: nat, r: nat)
    requires i <= m <= |ds| && (m < |ds| ==> r <= |ds[m]|) && i <= 1
    ensures i == 0 ==> Flatten(ds[i..m]) + (if m < |ds| then ds[m][..r] else []) == Head(ds, m, r)
    ensures i == 1 ==> ds[0] + (Flatten(ds[i..m]) + (if m < |ds| then ds[m][..r] else [])) == Head(ds, m, r)
  {
    if i == 0 {
      assert ds[0..m] == ds[..m];
    } else {
      assert ds[..m][1..] == ds[1..m];
    }
  }

  /** The loop stops short of the end of the list, or exactly at the bytes asked for. */
  lemma PulledEnough(ds: seq<seq<byte>>, i: nat, m: nat, r: nat, size: nat)
    requires i <= m <= |ds| && i <= 1 && size <= |Flatten(ds)|
    requires r + |Flatten(ds[i..m])| == size - (if i == 0 then 0 else |ds[0]|)
    ensures m == |ds| ==> r == 0
  {
    if m == |ds| {
      assert ds[..m] == ds && ds[i..m] == ds[i..];
    }
  }

  /** evbuffer_pullup: the bytes to copy into tmp, the chain that stays behind it,
      and the new last_with_datap. */
  method PullPlan(buf: Evbuffer, tmp: Chain, reuse: bool, size: nat)
    returns (fill: seq<byte>, next: Chain?, rest: nat, lwd: Slot, ghost m: nat)
    requires buf.Valid() && buf.chains != [] && |buf.datas[0]| < size <= buf.totalLen
    requires reuse ==> tmp == buf.chains[0]
    ensures 1 <= m <= |buf.chains| && next == ChainAt(buf.chains, m)
    ensures m < |buf.chains| ==> rest < |buf.datas[m]|
    ensures Head(buf.datas, m, rest) == (if reuse then buf.datas[0] else []) + fill
    ensures |fill| == size - if reuse then |buf.datas[0]| else 0
    ensures lwd == if buf.k < m then First else SlotAt([tmp] + buf.chains[m..], buf.k - m + 1)
  {
    hide Distinct, Linked, Holds, LastWithData, Kept, Flatten, SlotAt;
    ghost var cs, ds, k := buf.chains, buf.datas, buf.k;
    LinkedAt(buf.first, cs, 0);
    HoldsAt(cs, ds, 0);
    LwdNotFirst(ds, k);
    var chain := buf.first;
    var lostChain, lostSlot;
    if reuse {
      fill, next, rest, lostChain, lostSlot, m := PullLoop(buf, chain.next, size - chain.off, 1);
    } else {
      fill, next, rest, lostChain, lostSlot, m := PullLoop(buf, chain, size, 0);
      FirstPulled(ds, m, rest, size);
    }
    PulledEnough(ds, if reuse then 1 else 0, m, rest, size);
    HeadFacts(ds, if reuse then 1 else 0, m, rest);
    if next != null {
      HoldsAt(cs, ds, m);
      LwdBehind(ds, k, m);
      fill := fill + next.Slice(0, rest);
      PulledSlot(cs, tmp, m, k);
    }
    lwd := if lostChain then First
           else if lostSlot then (if next != null && next.off - rest > 0 then NextOf(tmp) else First)
           else buf.lwd;
    assert !reuse ==> [] + fill == fill;
    assert k == 1 && reuse ==> buf.lwd == NextOf(tmp) by { SlotOne(cs); }
  }

  lemma SlotOne(cs: seq<Chain>)
    requires cs != []
    ensures SlotAt(cs, 1) == NextOf(cs[0])
  {
  }

  lemma FirstPulled(ds: seq<seq<byte>>, m: nat, r: nat, size: nat)
    requires m <= |ds| && ds != [] && |ds[0]| < size
    requires r + |Flatten(ds[0..m])| == size && (m < |ds| ==> r < |ds[m]|)
    ensures 1 <= m
  {
    assert ds[0..0] == [];
  }

  /** memcpy into the target chain, behind its data if it is the first one. */
  method Pour(tmp: Chain, fill: seq<byte>, reuse: bool)
    requires tmp.Ok() && !tmp.immutable && (if reuse then |fill| <= tmp.SpaceLen() else tmp.misalign == 0 && |fill| <= |tmp.mem|)
    modifies tmp`mem, tmp`off
    ensures tmp.Ok() && tmp.Data() == (if reuse then old(tmp.Data()) else []) + fill
  {
    if reuse {
      tmp.PushBack(fill);
    } else {
      tmp.Fill(fill);
      assert [] + fill == fill;
    }
  }

  /** evbuffer_pullup, from the point where the target chain tmp is chosen. */
  method PullInto(buf: Evbuffer, tmp: Chain, reuse: bool, size: nat)
    requires buf.Valid() && buf.chains != [] && |buf.datas[0]| < size <= buf.totalLen
    requires !tmp.immutable && tmp.Ok()
    requires if reuse then tmp == buf.chains[0] && |tmp.mem| - tmp.misalign >= size
             else tmp !in buf.chains && tmp.misalign == 0 && size <= |tmp.mem|
    modifies buf, tmp, ChainSet(buf.chains)
    ensures buf.Valid() && buf.SameFlags()
    ensures forall c :: c in buf.chains ==> c in old(buf.chains) || c == tmp
    ensures buf.Contents() == old(buf.Contents())
    ensures buf.chains != [] && |buf.datas[0]| >= size && buf.chains[0] == tmp && tmp.misalign == old(tmp.misalign)
  {
    hide Distinct, Linked, Holds, LastWithData, Kept, Flatten, SlotAt, Trim, Head;
    ghost var cs, ds, k := buf.chains, buf.datas, buf.k;
    HoldsAt(cs, ds, 0);
    var fill, next, rest, lwd;
    ghost var m;
    fill, next, rest, lwd, m := PullPlan(buf, tmp, reuse, size);
    ListSuffix(buf.first, cs, ds, m);
    PullChunks(ds, k, m, rest);
    SlotFirst([tmp] + cs[m..]);
    DistinctTail(cs, m);
    ghost var cs', ds', head := cs[m..], ds[m..], Head(ds, m, rest);
    Pour(tmp, fill, reuse);
    FinishPull(buf, tmp, next, rest, lwd, cs', ds', head, if k < m then 0 else k - m + 1);
  }

  /** The first chain has room for n bytes, or a chain that does can be made. */
  ghost predicate CanPull(buf: Evbuffer, n: nat, mallocOk: bool)
    reads buf, buf.chains
  {
    || (buf.chains != [] && buf.chains[0].misalign + n <= buf.chains[0].bufferLen)
    || (mallocOk && n <= MAX_ALLOC)
  }

  /** The n bytes from the first chain's data on are the last ones of its memory. */
  ghost predicate EndsAt(buf: Evbuffer, n: nat)
    reads buf, buf.chains
  {
    buf.chains != [] && buf.chains[0].misalign + n == buf.chains[0].bufferLen
  }

  /** evbuffer_pullup: on success the first `size` bytes are in the first chain; a
      negative size stands for the whole buffer. It fails exactly if there are no such
      bytes, or no room for them and none can be made. */
  method Pullup(buf: Evbuffer, size: int, mallocOk: bool) returns (ok: bool)
    requires buf.Valid()
    modifies buf, ChainSet(buf.chains)
    ensures buf.Valid() && buf.OnlyNewChains() && buf.SameFlags()
    ensures buf.Contents() == old(buf.Contents())
    ensures var n := if size < 0 then buf.totalLen else size;
            && (ok ==>
                  && 0 < n <= buf.totalLen && buf.chains != []
                  && n <= |buf.datas[0]| && buf.datas[0][..n] == buf.Contents()[..n])
            && (ok <==> 0 < n <= buf.totalLen && old(CanPull(buf, n, mallocOk)))
    ensures !ok ==> unchanged(buf)
    ensures ok && 0 <= size < MIN_BUFFER_SIZE - CHAIN_SIZE ==> (EndsAt(buf, size) <==> old(EndsAt(buf, size)))
    ensures ok && !mallocOk ==>
              && old(buf.chains != []) && buf.chains[0] == old(buf.chains[0]) && buf.chains[0].misalign == old(buf.chains[0].misalign)
  {
    hide Distinct, Linked, Holds, LastWithData, Kept, Flatten, SlotAt;
    var n := if size < 0 then buf.totalLen else size;
    if n == 0 || n > buf.totalLen {
      return false;
    }
    NotEmpty(buf);
    LinkedAt(buf.first, buf.chains, 0);
    HoldsAt(buf.chains, buf.datas, 0);
    var chain := buf.first;
    ok := true;
    if chain.off < n {
      if |chain.mem| - chain.misalign >= n {
        PullInto(buf, chain, true, n);
      } else {
        var tmp := ChainNew(n, mallocOk);
        if tmp == null {
          return false;
        }
        PullInto(buf, tmp, false, n);
      }
    }
    FirstPrefix(buf.datas, n);
  }

  lemma NotEmpty(buf: Evbuffer)
    requires buf.Valid() && buf.totalLen > 0
    ensures buf.chains != []
  {
  }

  lemma FirstPrefix(ds: seq<seq<byte>>, n: nat)
    requires ds != [] && n <= |ds[0]|
    ensures n <= |Flatten(ds)| && ds[0][..n] == Flatten(ds)[..n]
  {
  }

  lemma SlotFirst(cs: seq<Chain>)
    ensures SlotAt(cs, 0) == First
  {
  }

  lemma DistinctTail(cs: seq<Chain>, m: nat)
    requires Distinct(cs) && 1 <= m <= |cs|
    ensures cs[0] !in cs[m..] && forall c :: c in cs[m..] ==> c in cs
  {
  }
}

/** evbuffer_commit_space. */
module EvbufferCommit {
  import opened Bytes
  import opened EvbufferCore
  import opened EvbufferMove
  import opened EvbufferSpace

  /** struct evbuffer_iovec; the address is an index into a chain's memory. */
  datatype Iovec = Iovec(chain: Chain, at: nat, len: nat)

  /** v starts where the chain's data ends and stays inside its memory. */
  ghost predicate InSpace(c: Chain, v: Iovec)
    reads c`mem, c`misalign, c`off
  {
    v.chain == c && c.Ok() && v.at == c.misalign + c.off && v.len <= c.SpaceLen()
  }

  /** From vector i on, the vectors lie in the chains from number f + i on. */
  ghost predicate Fits(cs: seq<Chain>, f: nat, vecs: seq<Iovec>, i: nat)
    reads cs`mem, cs`misalign, cs`off
  {
    && f + |vecs| <= |cs|
    && forall j :: f + i <= j < f + |vecs| ==> InSpace(cs[j], vecs[j - f])
  }

  lemma ExtendBehind(ds: seq<seq<byte>>, k: nat, i: nat, d: seq<byte>)
    requires LastWithData(ds, k) && k <= i < |ds|
    ensures LastWithData(ds[i := ds[i] + d], if d == [] then k else i)
    ensures Flatten(ds[i := ds[i] + d]) == Flatten(ds) + d
  {
    FlattenUpdate(ds, i, ds[i] + d);
    FlattenAt(ds, i);
    FlattenEmpty(ds[i + 1..]);
  }

  /** evbuffer_commit_space, pass 2: len bytes of chain number i become data. */
  method CommitChain(buf: Evbuffer, chain: Chain, slot: Slot, len: nat, ghost i: nat)
    requires buf.Valid() && buf.k <= i < |buf.chains| && chain == buf.chains[i] && slot == SlotAt(buf.chains, i)
    requires chain.Ok() && len <= chain.SpaceLen() && buf.totalLen + len <= SIZE_MAX
    modifies buf`last, buf`lwd, buf`totalLen, buf`chains, buf`datas, buf`k, chain`off
    ensures buf.Valid() && buf.SameFlags() && buf.chains == old(buf.chains)
    ensures buf.k == (if len == 0 then old(buf.k) else i) && buf.first == old(buf.first)
    ensures var at := old(chain.misalign + chain.off);
            buf.Contents() == old(buf.Contents()) + chain.mem[at..at + len]
  {
    hide Distinct, Linked, Holds, LastWithData, Kept, Flatten, SlotAt;
    ghost var cs, ds, k := buf.chains, buf.datas, buf.k;
    HoldsAt(cs, ds, i);
    ghost var d := chain.mem[chain.misalign + chain.off..chain.misalign + chain.off + len];
    ExtendBehind(ds, k, i, d);
    chain.off := chain.off + len;
    assert chain.Data() == ds[i] + d;
    HoldsUpdate(cs, ds, i);
    buf.SetHeader(buf.last, if len > 0 then slot else buf.lwd, buf.totalLen + len,
                  cs, ds[i := ds[i] + d], if d == [] then k else i);
  }

  /** The bytes a vector holds. */
  ghost function Piece(v: Iovec): seq<byte>
    requires v.at + v.len <= |v.chain.mem|
    reads v.chain`mem
  {
    v.chain.mem[v.at..v.at + v.len]
  }

  /** evbuffer_commit_space, pass 1: are the vectors exactly at the ends of the data? */
  method CheckVecs(buf: Evbuffer, start: Chain?, vecs: seq<Iovec>, ghost f: nat) returns (ok: bool)
    requires buf.Valid() && f <= |buf.chains| && start == ChainAt(buf.chains, f)
    ensures ok <==> Fits(buf.chains, f, vecs, 0)
  {
    hide Distinct, Linked, Holds, LastWithData, Kept, Flatten, SlotAt;
    ghost var cs, ds := buf.chains, buf.datas;
    var chain := start;
    for i := 0 to |vecs|
      invariant f + i <= |cs| && chain == ChainAt(cs, f + i)
      invariant forall j :: f <= j < f + i ==> InSpace(cs[j], vecs[j - f])
    {
      if chain == null {
        return false;
      }
      HoldsAt(cs, ds, f + i);
      LinkedAt(buf.first, cs, f + i);
      if vecs[i].chain != chain || vecs[i].at != chain.misalign + chain.off || vecs[i].len > chain.SpaceLen() {
        assert !InSpace(cs[f + i], vecs[f + i - f]);
        return false;
      }
      chain := chain.next;
    }
    ok := true;
  }

  lemma FitsAt(cs: seq<Chain>, f: nat, vecs: seq<Iovec>, i: nat)
    requires Fits(cs, f, vecs, i) && i < |vecs|
    ensures f + i < |cs| && InSpace(cs[f + i], vecs[i])
    ensures vecs[i].at + vecs[i].len <= |vecs[i].chain.mem|
  {
    assert vecs[f + i - f] == vecs[i];
  }

  twostate lemma FitsNext(p: (seq<Chain>, seq<Iovec>), new f: nat, new i: nat)
    requires old(Fits(p.0, f, p.1, i)) && Distinct(p.0) && i < |p.1|
    requires forall c :: c in p.0 && c != p.0[f + i] ==> c.SameBytes()
    ensures Fits(p.0, f, p.1, i + 1)
  {
    var cs, vecs := p.0, p.1;
    forall j | f + (i + 1) <= j < f + |vecs|
      ensures InSpace(cs[j], vecs[j - f])
    {
      assert cs[j] in cs && cs[j] != cs[f + i];
      assert old(InSpace(cs[j], vecs[j - f]));
    }
  }

  /** evbuffer_commit_space, pass 2 */
  method CommitVecs(buf: Evbuffer, start: Slot, vecs: seq<Iovec>, ghost f: nat, ghost pieces: seq<seq<byte>>)
    requires buf.Valid() && buf.k <= f <= |buf.chains| && Fits(buf.chains, f, vecs, 0) && start == SlotAt(buf.chains, f)
    requires |pieces| == |vecs|
    requires forall i :: 0 <= i < |vecs| ==> vecs[i].at + vecs[i].len <= |vecs[i].chain.mem| && pieces[i] == Piece(vecs[i])
    requires buf.totalLen + |Flatten(pieces)| <= SIZE_MAX
    modifies buf, ChainSet(buf.chains)`off
    ensures buf.Valid() && buf.SameFlags() && buf.chains == old(buf.chains)
    ensures buf.Contents() == old(buf.Contents()) + Flatten(pieces)
  {
    hide Distinct, Linked, Holds, LastWithData, Kept, Flatten, SlotAt, Fits;
    ghost var cs, all := buf.chains, buf.Contents();
    var slot := start;
    FlattenPrefixEmpty(pieces);
    for i := 0 to |vecs|
      invariant buf.Valid() && buf.SameFlags() && buf.chains == cs && buf.first == old(buf.first)
      invariant buf.k <= f + i && Fits(cs, f, vecs, i) && f + i <= |cs| && slot == SlotAt(cs, f + i)
      invariant buf.Contents() == all + Flatten(pieces[..i])
    {
      FitsAt(cs, f, vecs, i);
      SlotLeads(buf, f + i);
      FlattenSnoc(pieces, i);
      FlattenSplit(pieces, i + 1);
      var chain := buf.Deref(slot);
      assert chain in ChainSet(cs);
      label Before:
      CommitChain(buf, chain, slot, vecs[i].len, f + i);
      FitsNext@Before((cs, vecs), f, i);
      slot := NextOf(chain);
      SlotNext(cs, f + i);
    }
    assert pieces[..|vecs|] == pieces;
  }

  lemma SlotLeads(buf: Evbuffer, i: nat)
    requires buf.Valid() && i < |buf.chains|
    ensures buf.Deref(SlotAt(buf.chains, i)) == buf.chains[i]
  {
  }

  lemma SlotNext(cs: seq<Chain>, i: nat)
    requires i < |cs|
    ensures SlotAt(cs, i + 1) == NextOf(cs[i])
  {
  }

  /** The number of the first chain with writable space. */
  ghost function FirstWritable(buf: Evbuffer): nat
    requires buf.k < |buf.chains| && buf.chains[buf.k].Ok()
    reads buf, buf.chains
  {
    if buf.chains[buf.k].SpaceLen() == 0 then buf.k + 1 else buf.k
  }

  /** The vectors evbuffer_commit_space accepts. */
  ghost predicate Accepts(buf: Evbuffer, vecs: seq<Iovec>)
    requires buf.Valid()
    reads buf, buf.chains
  {
    if |vecs| == 1 && buf.last != null && buf.last.Ok()
       && vecs[0].chain == buf.last && vecs[0].at == buf.last.misalign + buf.last.off
    then vecs[0].len <= buf.last.SpaceLen()
    else vecs == [] || (&& buf.k < |buf.chains| && buf.chains[buf.k].Ok()
                        && Fits(buf.chains, FirstWritable(buf), vecs, 0))
  }

  /** evbuffer_commit_space */
  method CommitSpace(buf: Evbuffer, vecs: seq<Iovec>, ghost pieces: seq<seq<byte>>) returns (ok: bool)
    requires buf.Valid() && |pieces| == |vecs|
    requires forall i :: 0 <= i < |vecs| ==> vecs[i].at + vecs[i].len <= |vecs[i].chain.mem| && pieces[i] == Piece(vecs[i])
    requires buf.totalLen + |Flatten(pieces)| <= SIZE_MAX
    modifies buf, ChainSet(buf.chains)`off
    ensures buf.Valid() && buf.SameFlags() && buf.chains == old(buf.chains)
    ensures ok <==> !buf.freezeEnd && old(Accepts(buf, vecs))
    ensures buf.Contents() == old(buf.Contents()) + (if ok then Flatten(pieces) else [])
  {
    hide Distinct, Linked, Holds, LastWithData, Kept, Flatten, SlotAt, Fits;
    if buf.freezeEnd {
      return false;
    }
    EmptyList();
    if |vecs| == 0 {
      assert pieces == [];
      return true;
    }
    buf.DerefLwd();
    if buf.chains != [] {
      LastIsSlot(buf);
      HoldsAt(buf.chains, buf.datas, |buf.chains| - 1);
      HoldsAt(buf.chains, buf.datas, buf.k);
    }
    if |vecs| == 1 && buf.last != null && vecs[0].chain == buf.last && vecs[0].at == buf.last.misalign + buf.last.off {
      if vecs[0].len > buf.last.SpaceLen() {
        return false;
      }
      OnePiece(pieces);
      CommitLast(buf, vecs[0].len);
      return true;
    }
    var firstp := buf.lwd;
    if buf.Deref(firstp) == null {
      return false;
    }
    ghost var f := buf.k;
    LinkedAt(buf.first, buf.chains, buf.k);
    if buf.Deref(firstp).SpaceLen() == 0 {
      SlotNext(buf.chains, f);
      firstp := NextOf(buf.Deref(firstp));
      f := f + 1;
    }
    ok := CheckVecs(buf, buf.Deref(firstp), vecs, f);
    if ok {
      CommitVecs(buf, firstp, vecs, f, pieces);
    }
  }

  lemma OnePiece(pieces: seq<seq<byte>>)
    requires |pieces| == 1
    ensures Flatten(pieces) == pieces[0]
  {
    assert pieces == [pieces[0]];
    FlattenSingle(pieces[0]);
  }

  /** evbuffer_commit_space when the one vector is the space of the last chain. */
  method CommitLast(buf: Evbuffer, len: nat)
    requires buf.Valid() && buf.chains != [] && buf.last != null && buf.last.Ok()
    requires len <= buf.last.SpaceLen() && buf.totalLen + len <= SIZE_MAX
    modifies buf, buf.last`off
    ensures buf.Valid() && buf.SameFlags() && buf.chains == old(buf.chains)
    ensures var at := old(buf.last.misalign + buf.last.off);
            buf.Contents() == old(buf.Contents()) + buf.last.mem[at..at + len]
  {
    hide Distinct, Linked, Holds, LastWithData, Kept, Flatten;
    ghost var cs, ds, k := buf.chains, buf.datas, buf.k;
    ghost var i := |cs| - 1;
    var last := buf.last;
    buf.DerefLwd();
    HoldsAt(cs, ds, i);
    ghost var d := last.mem[last.misalign + last.off..last.misalign + last.off + len];
    ExtendBehind(ds, k, i, d);
    last.off := last.off + len;
    assert last.Data() == ds[i] + d;
    HoldsUpdate(cs, ds, i);
    ghost var es := ds[i := ds[i] + d];
    var lwd := buf.lwd;
    if len > 0 {
      LwdData(ds, k);
      var n;
      ghost var k';
      lwd, n, k' := AdvanceLastWithData(buf, cs, es, k);
      LwdSame(es, k', i);
    }
    buf.SetHeader(last, lwd, buf.totalLen + len, cs, es, if d == [] then k else i);
  }

  lemma LwdData(ds: seq<seq<byte>>, k: nat)
    requires LastWithData(ds, k)
    ensures 0 < k ==> k < |ds| && ds[k] != []
  {
  }

  lemma LwdSame(ds: seq<seq<byte>>, k: nat, i: nat)
    requires LastWithData(ds, k) && LastWithData(ds, i) && i < |ds| && ds[i] != []
    ensures k == i
  {
  }
}

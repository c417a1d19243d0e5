/** Positions in an evbuffer and searching across its chains. */
module EvbufferSearch {
  import opened Bytes
  import opened EvbufferCore
  import opened EvbufferBytes

  const NOT_FOUND := EvbufferPtr(-1, null, 0)   // PTR_NOT_FOUND

  /** what occurs in s at position p. */
  ghost predicate MatchAt(s: seq<byte>, what: seq<byte>, p: int)
  {
    0 <= p && p + |what| <= |s| && s[p..p + |what|] == what
  }

  /** Byte number r of chain i is byte |Flatten(ds[..i])| + r of the contents. */
  lemma FlatAt(ds: seq<seq<byte>>, i: nat)
    requires i < |ds|
    ensures |Flatten(ds[..i + 1])| == |Flatten(ds[..i])| + |ds[i]| <= |Flatten(ds)|
    ensures var b := |Flatten(ds[..i])|; Flatten(ds)[b..b + |ds[i]|] == ds[i]
  {
    FlattenAt(ds, i);
    FlattenSnoc(ds, i);
  }

  lemma FlatEnd(ds: seq<seq<byte>>, i: nat)
    requires i == |ds|
    ensures Flatten(ds[..i]) == Flatten(ds)
  {
    assert ds[..i] == ds;
  }

  /** memchr: the index of the first byte equal to c. */
  method Memchr(s: seq<byte>, c: byte) returns (r: Option<nat>)
    ensures r.Some? ==> r.value < |s| && s[r.value] == c && c !in s[..r.value]
    ensures r.None? ==> c !in s
  {
    for j := 0 to |s|
      invariant c !in s[..j]
    {
      if s[j] == c {
        return Some(j);
      }
    }
    r := None;
  }

  /** memcmp on equally long byte strings. */
  method Memcmp(a: seq<byte>, b: seq<byte>) returns (r: int)
    requires |a| == |b|
    ensures r == 0 <==> a == b
    ensures r != 0 ==> exists j :: 0 <= j < |a| && a[..j] == b[..j] && r == (a[j] as int) - (b[j] as int)
  {
    for j := 0 to |a|
      invariant a[..j] == b[..j]
    {
      if a[j] != b[j] {
        return (a[j] as int) - (b[j] as int);
      }
    }
    r := 0;
  }

  datatype How = Set | Add

  /** evbuffer_ptr_set */
  method PtrSet(buf: Evbuffer, p: EvbufferPtr, position: nat, how: How, ghost i0: nat)
    returns (q: EvbufferPtr, ok: bool, ghost i: nat)
    requires buf.Valid() && position <= SIZE_MAX
    requires how.Add? ==> p.pos < 0 || buf.PtrIn(p, i0)
    ensures var target := (if how.Set? then 0 else p.pos) + position;
            && (ok <==> (how.Set? || p.pos >= 0) && target <= buf.totalLen)
            && (ok ==> q.pos == target && buf.PtrIn(q, i) && (q.chain != null ==> q.posInChain < |buf.datas[i]|))
    ensures !ok ==> q == p || q == NOT_FOUND
  {
    hide Distinct, Linked, Holds, LastWithData, Kept, Flatten, SlotAt;
    ghost var cs, ds := buf.chains, buf.datas;
    var chain: Chain?, left: nat, at: nat, target: nat;
    if how.Set? {
      LinkedHead(buf.first, cs);
      FlattenPrefixEmpty(ds);
      chain, left, at, target, i := buf.first, position, 0, position, 0;
    } else {
      i := i0;
      if p.pos < 0 {
        return p, false, i;
      }
      if SIZE_MAX - position < p.pos {
        return p, false, i;
      }
      chain, left, at, target := p.chain, position, p.posInChain, p.pos + position;
    }
    assert SIZE_MAX - left >= at;
    if chain != null {
      HoldsAt(cs, ds, i);
    } else {
      FlatEnd(ds, i);
    }
    while chain != null && at + left >= chain.off
      invariant i <= |ds| && chain == ChainAt(cs, i)
      invariant target == |Flatten(ds[..i])| + at + left
      invariant if chain != null then |ds[i]| == chain.off && at <= chain.off else |Flatten(ds[..i])| == buf.totalLen && at == 0
      decreases |ds| - i
    {
      LinkedAt(buf.first, cs, i);
      FlatAt(ds, i);
      left := left - (chain.off - at);
      chain, at, i := chain.next, 0, i + 1;
      if chain != null {
        HoldsAt(cs, ds, i);
      } else {
        FlatEnd(ds, i);
      }
    }
    if chain != null {
      FlatAt(ds, i);
      return EvbufferPtr(target, chain, at + left), true, i;
    } else if left == 0 {
      return EvbufferPtr(target, null, 0), true, i;
    }
    return NOT_FOUND, false, i;
  }

  /** evbuffer_ptr_memcmp */
  method PtrMemcmp(buf: Evbuffer, p: EvbufferPtr, mem: seq<byte>, ghost i0: nat) returns (r: int)
    requires buf.Valid() && |mem| <= SIZE_MAX && buf.PtrIn(p, i0)
    ensures r == 0 <==> MatchAt(buf.Contents(), mem, p.pos)
  {
    hide Distinct, Linked, Holds, LastWithData, Kept, Flatten, SlotAt, Agree;
    if p.pos < 0 || SIZE_MAX - |mem| < p.pos || p.pos + |mem| > buf.totalLen {
      return -1;
    }
    ghost var cs, ds, all := buf.chains, buf.datas, buf.Contents();
    ghost var i := i0;
    var chain: Chain?, at: nat, done: nat := p.chain, p.posInChain, 0;
    if chain == null {
      FlatEnd(ds, i);
    }
    AgreeEnds(all, mem, p.pos);
    while done < |mem| && chain != null
      invariant done <= |mem| && Agree(all, mem, p.pos, done)
      invariant done < |mem| ==> chain != null && buf.PtrIn(EvbufferPtr(p.pos + done, chain, at), i)
      decreases |mem| - done, |ds| - i
    {
      HoldsAt(cs, ds, i);
      LinkedAt(buf.first, cs, i);
      var n := if |mem| - done + at > chain.off then chain.off - at else |mem| - done;
      AgreeStep(ds, i, at, n, mem, p.pos, done);
      r := Memcmp(chain.Slice(at, n), mem[done..done + n]);
      if r != 0 {
        return;
      }
      done, at := done + n, 0;
      chain, i := chain.next, i + 1;
      if i == |ds| {
        FlatEnd(ds, i);
      }
    }
    r := 0;
  }

  /** The first n bytes of the pattern occur at p. */
  ghost predicate Agree(all: seq<byte>, mem: seq<byte>, p: nat, n: nat)
  {
    p + n <= |all| && n <= |mem| && all[p..p + n] == mem[..n]
  }

  lemma AgreeEnds(all: seq<byte>, mem: seq<byte>, p: nat)
    requires p + |mem| <= |all|
    ensures Agree(all, mem, p, 0) && (Agree(all, mem, p, |mem|) <==> MatchAt(all, mem, p))
  {
  }

  /** One more piece of the pattern compared with n bytes of chain i. */
  lemma AgreeStep(ds: seq<seq<byte>>, i: nat, r: nat, n: nat, mem: seq<byte>, p: nat, done: nat)
    requires i < |ds| && r + n <= |ds[i]| && p + done == |Flatten(ds[..i])| + r
    requires done + n <= |mem| && p + |mem| <= |Flatten(ds)| && Agree(Flatten(ds), mem, p, done)
    ensures |Flatten(ds[..i + 1])| == |Flatten(ds[..i])| + |ds[i]|
    ensures ds[i][r..r + n] == mem[done..done + n] ==> Agree(Flatten(ds), mem, p, done + n)
    ensures ds[i][r..r + n] != mem[done..done + n] ==> !MatchAt(Flatten(ds), mem, p)
  {
    CopyStep(ds, i, r, n, p, done);
    hide Flatten;
    var all, d := Flatten(ds), ds[i][r..r + n];
    assert mem[..done] + mem[done..done + n] == mem[..done + n];
    if MatchAt(all, mem, p) {
      SliceOfSlice(all, p, p + |mem|, 0, done + n);
      assert mem[0..done + n] == mem[..done] + d;
      assert d == mem[0..done + n][done..];
    }
  }

  /** what occurs nowhere in s at a position in [lo, hi). */
  ghost predicate NoMatch(s: seq<byte>, what: seq<byte>, lo: int, hi: int)
  {
    forall p :: lo <= p < hi ==> !MatchAt(s, what, p)
  }

  /** r is the least match of what that starts at or behind lo and ends by hi, or -1. */
  ghost predicate LeastMatch(s: seq<byte>, what: seq<byte>, lo: int, hi: int, r: int)
  {
    if r == -1 then
      forall p :: lo <= p <= hi - |what| ==> !MatchAt(s, what, p)
    else
      lo <= r <= hi - |what| && MatchAt(s, what, r) && NoMatch(s, what, lo, r)
  }

  lemma NoMatchJoin(s: seq<byte>, what: seq<byte>, lo: int, mid: int, hi: int)
    requires NoMatch(s, what, lo, mid) && NoMatch(s, what, mid, hi)
    ensures NoMatch(s, what, lo, hi)
  {
  }

  lemma NoMatchOne(s: seq<byte>, what: seq<byte>, p: int)
    requires !MatchAt(s, what, p)
    ensures NoMatch(s, what, p, p + 1)
  {
  }

  lemma NoMatchTrivial(s: seq<byte>, what: seq<byte>, lo: int)
    requires what != []
    ensures NoMatch(s, what, lo, lo) && NoMatch(s, what, |s|, lo)
  {
  }

  lemma FirstByte(s: seq<byte>, what: seq<byte>, p: int)
    requires what != []
    ensures MatchAt(s, what, p) ==> p < |s| && s[p] == what[0]
  {
    if MatchAt(s, what, p) {
      assert s[p..p + |what|][0] == s[p];
    }
  }

  /** No match starts in a stretch of a chain that lacks the pattern's first byte. */
  lemma NoMatchChain(ds: seq<seq<byte>>, i: nat, r: nat, n: nat, what: seq<byte>)
    requires i < |ds| && r + n <= |ds[i]| && what != [] && what[0] !in ds[i][r..r + n]
    ensures var b := |Flatten(ds[..i])|; NoMatch(Flatten(ds), what, b + r, b + r + n)
    ensures |Flatten(ds[..i + 1])| == |Flatten(ds[..i])| + |ds[i]| <= |Flatten(ds)|
  {
    FlatAt(ds, i);
    hide Flatten;
    var all, b := Flatten(ds), |Flatten(ds[..i])|;
    forall p | b + r <= p < b + r + n
      ensures !MatchAt(all, what, p)
    {
      assert all[p] == all[b..b + |ds[i]|][p - b] == ds[i][p - b];
      assert ds[i][p - b] == ds[i][r..r + n][p - b - r];
      FirstByte(all, what, p);
    }
  }

  /** A position in chain j is not behind the end of that chain. */
  lemma PtrInSame(buf: Evbuffer, p: EvbufferPtr, i: nat, j: nat)
    requires buf.Valid() && p.chain != null && j < |buf.chains| && p.chain == buf.chains[j] && buf.PtrIn(p, i)
    ensures p.pos <= |Flatten(buf.datas[..j + 1])|
  {
    FlatAt(buf.datas, i);
  }

  /** evbuffer_search_range, memchr: the next place in q's chain where the pattern could
      start, or the beginning of the next chain. */
  method NextCandidate(buf: Evbuffer, what: seq<byte>, q: EvbufferPtr, ghost i: nat)
    returns (found: bool, q': EvbufferPtr, ghost i': nat)
    requires buf.Valid() && buf.PtrIn(q, i) && q.chain != null && what != []
    ensures buf.PtrIn(q', i') && q.pos <= q'.pos
    ensures NoMatch(buf.Contents(), what, q.pos, q'.pos)
    ensures if found then i' == i && q'.posInChain < |buf.datas[i]| && q.posInChain <= q'.posInChain
            else i' == i + 1 && q'.pos == |Flatten(buf.datas[..i + 1])|
  {
    hide Distinct, Linked, Holds, LastWithData, Kept, Flatten, SlotAt, MatchAt, NoMatch;
    ghost var cs, ds := buf.chains, buf.datas;
    HoldsAt(cs, ds, i);
    LinkedAt(buf.first, cs, i);
    var chain, at := q.chain, q.posInChain;
    var p := Memchr(chain.Slice(at, chain.off - at), what[0]);
    if p.Some? {
      NoMatchChain(ds, i, at, p.value, what);
      return true, EvbufferPtr(q.pos + p.value, chain, at + p.value), i;
    }
    NoMatchChain(ds, i, at, chain.off - at, what);
    return false, EvbufferPtr(q.pos + (chain.off - at), chain.next, 0), i + 1;
  }

  /** evbuffer_search_range: one byte on, into the next chain at the end of this one. */
  method NextByte(buf: Evbuffer, q: EvbufferPtr, ghost i: nat) returns (q': EvbufferPtr, ghost i': nat)
    requires buf.Valid() && buf.PtrIn(q, i) && q.chain != null && q.posInChain < |buf.datas[i]|
    ensures buf.PtrIn(q', i') && q'.pos == q.pos + 1
    ensures if q.posInChain + 1 < |buf.datas[i]| then i' == i && q'.posInChain == q.posInChain + 1 else i' == i + 1
  {
    hide Distinct, Linked, Holds, LastWithData, Kept, Flatten, SlotAt;
    HoldsAt(buf.chains, buf.datas, i);
    LinkedAt(buf.first, buf.chains, i);
    FlatAt(buf.datas, i);
    if q.posInChain + 1 == q.chain.off {
      return EvbufferPtr(q.pos + 1, q.chain.next, 0), i + 1;
    }
    return EvbufferPtr(q.pos + 1, q.chain, q.posInChain + 1), i;
  }

  /** evbuffer_search_range: the least match at or behind start that ends by end.
      Patterns that are empty or longer than EV_SSIZE_MAX just yield start. */
  method SearchRange(buf: Evbuffer, what: seq<byte>, start: Option<EvbufferPtr>, end: Option<EvbufferPtr>,
                     ghost i0: nat, ghost iEnd: nat)
    returns (q: EvbufferPtr, ghost i: nat)
    requires buf.Valid()
    requires start.Some? ==> start.value == NOT_FOUND || buf.PtrIn(start.value, i0)
    requires end.Some? ==> end.value == NOT_FOUND || buf.PtrIn(end.value, iEnd)
    ensures |what| == 0 || |what| > SSIZE_MAX ==>
              q == if start.Some? then start.value else EvbufferPtr(0, buf.first, 0)
    ensures start.Some? && start.value == NOT_FOUND ==> q == NOT_FOUND
    ensures 0 < |what| <= SSIZE_MAX && (start.Some? ==> start.value != NOT_FOUND) ==>
              var all := buf.Contents();
              var lo := if start.Some? then start.value.pos else 0;
              var hi := if end.Some? then end.value.pos else |all|;
              && LeastMatch(all, what, lo, hi, q.pos)
              && (if q.pos == -1 then q == NOT_FOUND else buf.PtrIn(q, i))
  {
    hide Distinct, Linked, Holds, LastWithData, Kept, Flatten, SlotAt, MatchAt, NoMatch, LeastMatch;
    ghost var cs, ds, all := buf.chains, buf.datas, buf.Contents();
    q := if start.Some? then start.value else EvbufferPtr(0, buf.first, 0);
    i := if start.Some? then i0 else 0;
    var lastChain := if end.Some? then end.value.chain else null;
    if |what| == 0 || |what| > SSIZE_MAX || q.pos < 0 {
      return;
    }
    ghost var lo := q.pos;
    PtrInRange(buf, q, i);
    NoMatchTrivial(all, what, lo);
    while q.chain != null
      invariant buf.PtrIn(q, i) && lo <= q.pos
      invariant NoMatch(all, what, lo, q.pos)
      decreases |ds| - i, if i < |ds| then |ds[i]| - q.posInChain else 0
    {
      var chain := q.chain;
      ghost var mid := q.pos;
      var found;
      found, q, i := NextCandidate(buf, what, q, i);
      NoMatchJoin(all, what, lo, mid, q.pos);
      if found {
        var r := PtrMemcmp(buf, q, what, i);
        if r == 0 {
          if end.Some? && q.pos + |what| > end.value.pos {
            NothingUpTo(all, what, lo, q.pos, end.value.pos);
            return NOT_FOUND, i;
          }
          FoundAt(all, what, lo, q.pos, if end.Some? then end.value.pos else |all|);
          return;
        }
        NoMatchOne(all, what, q.pos);
        NoMatchJoin(all, what, lo, q.pos, q.pos + 1);
        q, i := NextByte(buf, q, i);
      } else if chain == lastChain {
        PtrInSame(buf, end.value, iEnd, i - 1);
        NothingUpTo(all, what, lo, q.pos, end.value.pos);
        return NOT_FOUND, i;
      }
    }
    FlatEnd(ds, i);
    if end.Some? && end.value != NOT_FOUND {
      PtrInRange(buf, end.value, iEnd);
    }
    NothingUpTo(all, what, lo, q.pos, if end.Some? then end.value.pos else |all|);
    q := NOT_FOUND;
  }

  lemma NothingUpTo(s: seq<byte>, what: seq<byte>, lo: int, mid: int, hi: int)
    requires NoMatch(s, what, lo, mid) && hi - |what| < mid
    ensures LeastMatch(s, what, lo, hi, -1)
  {
  }

  lemma FoundAt(s: seq<byte>, what: seq<byte>, lo: int, p: int, hi: int)
    requires NoMatch(s, what, lo, p) && MatchAt(s, what, p) && lo <= p
    requires hi == |s| || p + |what| <= hi
    ensures LeastMatch(s, what, lo, hi, p)
  {
  }

  /** The answer is a function of the bytes alone: it cannot depend on how they are
      split into chains. */
  lemma LeastMatchUnique(s: seq<byte>, what: seq<byte>, lo: nat, hi: int, r1: int, r2: int)
    requires what != [] && LeastMatch(s, what, lo, hi, r1) && LeastMatch(s, what, lo, hi, r2)
    ensures r1 == r2
  {
  }
}

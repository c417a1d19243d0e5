/** event_tagging.c: tagged records in evbuffers. */
module EvTagBuffer {
  import opened Bytes
  import opened EvbufferCore
  import opened EvbufferBytes
  import opened EvbufferPullup
  import opened EvTag

  datatype Record = Record(tag: nat, payload: seq<byte>)

  /** Tag and length are 32-bit numbers. */
  ghost predicate Fits(r: Record)
  {
    r.tag < TWO32 && |r.payload| < TWO32
  }

  lemma ShortInt(n: nat)
    requires n < TWO32
    ensures |Nibbles(n)| <= 8 && n < Pow16(8)
  {
    assert Pow16(8) == 16 * (16 * (16 * (16 * (16 * (16 * (16 * 16))))));
    NibblesFew(n, 8);
  }

  /** A record on the wire. */
  ghost function Wire(r: Record): seq<byte>
    requires Fits(r)
  {
    ShortInt(|r.payload|);
    TagBytes(r.tag) + (IntBytes(|r.payload|) + r.payload)
  }

  /** evtag_marshal. The results of its three calls of evbuffer_add are ignored; the ghost
      results say which succeeded. */
  method Marshal(buf: Evbuffer, tag: nat, data: seq<byte>, mallocOk: bool) returns (ghost ok1: bool, ghost ok2: bool, ghost ok3: bool)
    requires buf.Valid() && Fits(Record(tag, data))
    modifies buf, ChainSet(buf.chains)
    ensures buf.Valid() && buf.OnlyNewChains() && buf.SameFlags()
    ensures ok1 && ok2 && ok3 ==> buf.Contents() == old(buf.Contents()) + Wire(Record(tag, data))
    ensures |Nibbles(|data|)| <= 16 && buf.Contents() == old(buf.Contents()) + (if ok1 then TagBytes(tag) else []) +
              (if ok2 then IntBytes(|data|) else []) + (if ok3 then data else [])
    ensures buf.freezeEnd ==> !ok1 && !ok2 && !ok3
    ensures mallocOk && !buf.freezeEnd && Bounded(old(buf.chains)) && old(buf.totalLen) + |Wire(Record(tag, data))| <= SIZE_MAX ==>
              ok1 && ok2 && ok3
    ensures Bounded(old(buf.chains)) ==> Bounded(buf.chains)
  {
    hide Distinct, Linked, Holds, LastWithData, Kept, Flatten, SlotAt, TagBytes, IntBytes, Bounded, Nibbles, Pow16;
    ShortInt(|data|);
    WireLen(tag, data);
    var t := EncodeTag(tag);
    ghost var all := buf.Contents();
    var r1 := AddPart(buf, t, mallocOk);
    assert forall c :: c in ChainSet(buf.chains) ==> c in old(buf.chains) || fresh(c);
    var n := EncodeInt(|data|, 5);
    var r2 := AddPart(buf, n, mallocOk);
    assert forall c :: c in ChainSet(buf.chains) ==> c in old(buf.chains) || fresh(c);
    var r3 := AddPart(buf, data, mallocOk);
    ok1, ok2, ok3 := r1, r2, r3;
    Assemble(all, t, n, data);
  }

  method AddPart(buf: Evbuffer, d: seq<byte>, mallocOk: bool) returns (ok: bool)
    requires buf.Valid()
    modifies buf, ChainSet(buf.chains)
    ensures buf.Valid() && buf.OnlyNewChains() && buf.SameFlags() && (Bounded(old(buf.chains)) ==> Bounded(buf.chains))
    ensures buf.Contents() == old(buf.Contents()) + (if ok then d else [])
    ensures buf.freezeEnd ==> !ok
    ensures mallocOk && !buf.freezeEnd && Bounded(old(buf.chains)) && |d| <= MAX_ALLOC && old(buf.totalLen) + |d| <= SIZE_MAX ==> ok
  {
    hide Distinct, Linked, Holds, LastWithData, Kept, Flatten, SlotAt, CanAdd;
    if Bounded(buf.chains) {
      CanAllocate(buf, |d|);
    }
    ok := Add(buf, d, mallocOk);
  }

  lemma WireLen(tag: nat, data: seq<byte>)
    requires Fits(Record(tag, data))
    ensures |Nibbles(|data|)| <= 16
    ensures |Wire(Record(tag, data))| == |TagBytes(tag)| + |IntBytes(|data|)| + |data|
    ensures |IntBytes(|data|)| <= 9
  {
    hide TagBytes, IntBytes, Nibbles;
    ShortInt(|data|);
    WireSize(|data|);
  }

  lemma Assemble(all: seq<byte>, t: seq<byte>, n: seq<byte>, data: seq<byte>)
    ensures all + t + n + data == all + (t + (n + data))
  {
  }

  /** The first n bytes of a buffer, after evbuffer_pullup has made them contiguous. */
  method Front(buf: Evbuffer, n: nat, mallocOk: bool) returns (r: Option<seq<byte>>)
    requires buf.Valid()
    modifies buf, ChainSet(buf.chains)
    ensures buf.Valid() && buf.OnlyNewChains() && buf.SameFlags() && buf.Contents() == old(buf.Contents())
    ensures r.Some? ==> n <= buf.totalLen && r.value == buf.Contents()[..n] && buf.chains != []
    ensures r.Some? <==> 0 < n <= buf.totalLen && old(CanPull(buf, n, mallocOk))
    ensures r.Some? && n < MIN_BUFFER_SIZE - CHAIN_SIZE ==> (EndsAt(buf, n) <==> old(EndsAt(buf, n)))
    ensures r.Some? ==> forall m: nat :: m <= MAX_ALLOC ==> (CanPull(buf, m, mallocOk) <==> old(CanPull(buf, m, mallocOk)))
  {
    hide Distinct, Linked, Holds, LastWithData, Kept, Flatten, SlotAt;
    var ok := Pullup(buf, n, mallocOk);
    if !ok {
      return None;
    }
    HoldsAt(buf.chains, buf.datas, 0);
    LinkedHead(buf.first, buf.chains);
    var bytes := buf.first.Slice(0, n);
    assert bytes == buf.datas[0][..n];
    r := Some(bytes);
  }

  lemma {:induction false} TagPrefix(s: seq<byte>, i: nat, n: nat)
    requires n <= |s| && (n == |s| || n >= 5)
    ensures DecodedTag(s[..n], i) == DecodedTag(s, i)
    decreases |s| - i
  {
    if i < n && i <= 4 && s[i] >= 128 {
      TagPrefix(s, i + 1, n);
    }
  }

  /** How many bytes decode_tag_internal makes contiguous. */
  function TagRoom(buf: Evbuffer): nat
    reads buf
  {
    if buf.totalLen < 5 then buf.totalLen else 5
  }

  /** decode_tag_internal: the tag at the front of the buffer, unless there is no room to
      make its bytes contiguous. `stray` says that it reads a byte behind the memory of the
      first chain: it looks at a sixth byte, and the first five are the last ones there. */
  method PeekTag(buf: Evbuffer, mallocOk: bool) returns (r: Option<(nat, nat)>, stray: bool)
    requires buf.Valid()
    modifies buf, ChainSet(buf.chains)
    ensures buf.Valid() && buf.OnlyNewChains() && buf.SameFlags() && buf.Contents() == old(buf.Contents())
    ensures r.Some? ==> r == DecodedTag(buf.Contents(), 0) && 0 < r.value.1 <= buf.totalLen
    ensures r == if old(CanPull(buf, TagRoom(buf), mallocOk)) then DecodedTag(buf.Contents(), 0) else None
    ensures stray <==> Beyond(buf.Contents(), buf.totalLen) && old(EndsAt(buf, 5))
  {
    hide Distinct, Linked, Holds, LastWithData, Kept, Flatten, SlotAt, DecodedTag;
    var n := TagRoom(buf);
    TagPrefix(buf.Contents(), 0, n);
    TagBounds(buf.Contents(), 0);
    var front := Front(buf, n, mallocOk);
    if front.None? {
      return None, false;
    }
    var beyond;
    r, beyond := DecodeTag(front.value, buf.totalLen);
    LinkedHead(buf.first, buf.chains);
    stray := beyond && buf.first.misalign + 5 == buf.first.bufferLen;
  }

  /** Bytes added by reference, and one zero in another chain. */
  method Referenced(bytes: seq<byte>) returns (buf: Evbuffer)
    requires 0 < |bytes| < SIZE_MAX
    ensures fresh(buf) && (forall c :: c in buf.chains ==> fresh(c)) && buf.Valid()
    ensures buf.Contents() == bytes + [0] && EndsAt(buf, |bytes|)
  {
    hide Distinct, Linked, Holds, LastWithData, Kept, Flatten, SlotAt;
    buf := new Evbuffer();
    var c := new Chain(bytes, true, |bytes|);
    assert c.Data() == bytes;
    buf.ChainInsert(c);
    assert buf.chains == [c] && buf.datas == [bytes] && [] + bytes == bytes;
    AllKept(bytes, buf.k);
    var d := new Chain([0], true, 1);
    assert d.Data() == [0];
    buf.ChainInsert(d);
  }

  /** Five bytes in memory of that size, each of which says that the tag goes on: the loop
      reads behind that memory. */
  method StrayTag() returns (buf: Evbuffer, r: Option<(nat, nat)>, stray: bool)
    ensures buf.Valid() && r.None? && stray
  {
    hide Distinct, Linked, Holds, LastWithData, Kept, Flatten, SlotAt, DecodedTag;
    buf := Referenced(seq(5, _ => 128));
    NoTag(buf.Contents());
    r, stray := PeekTag(buf, true);
  }

  lemma AllKept(d: seq<byte>, k: nat)
    requires d != [] && LastWithData([d], k)
    ensures Kept([d], k) == 1
  {
  }

  lemma NoTag(s: seq<byte>)
    requires |s| >= 5 && forall i :: 0 <= i < 5 ==> s[i] >= 128
    ensures DecodedTag(s, 0).None?
  {
    assert DecodedTag(s, 5).None?;
    assert DecodedTag(s, 4).None?;
    assert DecodedTag(s, 3).None?;
    assert DecodedTag(s, 2).None?;
    assert DecodedTag(s, 1).None?;
  }

  lemma {:induction false} TagBounds(s: seq<byte>, i: nat)
    ensures s == [] ==> DecodedTag(s, i).None?
    ensures DecodedTag(s, i).Some? ==> 0 < DecodedTag(s, i).value.1 && i + DecodedTag(s, i).value.1 <= |s|
    decreases |s| - i
  {
    if i < |s| {
      TagBounds(s, i + 1);
    }
  }

  /** How many bytes the number at an offset takes, if it is all there. */
  ghost function IntRoom(s: seq<byte>): nat
  {
    if s == [] then 0
    else if DecodedInt(s, 8).None? then 1
    else (s[0] / 16 + 1) / 2 + 1
  }

  /** decode_int_internal, with a 32-bit result, at an offset: the number there, unless
      there is no room to make its bytes contiguous. The source adds the offset before it
      looks whether evbuffer_pullup failed; `stray` says that a failure goes unnoticed and
      it reads through a stray pointer. */
  method PeekInt(buf: Evbuffer, offset: nat, mallocOk: bool) returns (r: Option<(nat, nat)>, stray: bool)
    requires buf.Valid() && offset <= buf.totalLen && offset <= 5
    modifies buf, ChainSet(buf.chains)
    ensures buf.Valid() && buf.OnlyNewChains() && buf.SameFlags() && buf.Contents() == old(buf.Contents())
    ensures offset <= |buf.Contents()|
    ensures var s := buf.Contents()[offset..];
            var can := s == [] || old(CanPull(buf, offset + IntRoom(s), mallocOk));
            r == (if can then DecodedInt(s, 8) else None) && (stray <==> !can && offset > 0)
    ensures r.Some? ==> 0 < r.value.1 && offset + r.value.1 <= buf.totalLen
  {
    hide Distinct, Linked, Holds, LastWithData, Kept, Flatten, SlotAt, ValueAt;
    ghost var s := buf.Contents()[offset..];
    stray := false;
    if buf.totalLen <= offset {
      return None, false;
    }
    assert s != [];
    var one := Front(buf, offset + 1, mallocOk);
    if one.None? {
      return None, offset > 0;
    }
    var first := one.value[offset];
    assert first == s[0];
    var nibbles := first / 16 + 1;
    if nibbles > 8 || nibbles / 2 + 1 > buf.totalLen - offset {
      return None, false;
    }
    var len := nibbles / 2 + 1;
    assert forall c :: c in ChainSet(buf.chains) ==> c in old(buf.chains) || fresh(c);
    var all := Front(buf, offset + len, mallocOk);
    if all.None? {
      return None, offset > 0;
    }
    var data := all.value[offset..];
    assert data == s[..len];
    IntPrefix(s, len);
    r := DecodeInt(data, 8);
  }

  lemma IntPrefix(s: seq<byte>, len: nat)
    requires s != [] && len == (s[0] / 16 + 1) / 2 + 1 <= |s|
    ensures DecodedInt(s[..len], 8) == DecodedInt(s, 8)
  {
    ValuePrefix(s, len, 1, s[0] / 16 + 1);
  }

  lemma {:induction false} ValuePrefix(s: seq<byte>, len: nat, j: nat, k: nat)
    requires len <= |s| && k / 2 < len
    ensures ValueAt(s[..len], j, k) == ValueAt(s, j, k)
    decreases k + 1 - j
  {
    if j <= k {
      ValuePrefix(s, len, j + 1, k);
    }
  }

  /** What is left when evbuffer_drain is told to take n bytes; a frozen start makes it
      refuse, which is ignored here. */
  ghost function Drained(s: seq<byte>, n: nat, frozen: bool): seq<byte>
    requires n <= |s|
  {
    if frozen then s else s[n..]
  }

  /** What a header says: the tag, the payload's length, and how much of the buffer goes
      with it. With a frozen start nothing goes, and the length is taken from the bytes of
      the tag. */
  ghost function Header(s: seq<byte>, frozen: bool): Option<(nat, nat, nat)>
  {
    var t := DecodedTag(s, 0);
    if t.None? || t.value.1 > |s| then None
    else
      var n := DecodedInt(Drained(s, t.value.1, frozen), 8);
      if n.None? then None else Some((t.value.0, n.value.0, if frozen then 0 else t.value.1 + n.value.1))
  }

  /** A 32-bit length as the int it is returned as. */
  function AsInt(n: nat): int
  {
    if n < TWO31 then n else n - TWO32
  }

  lemma {:induction false} ValueBound(s: seq<byte>, j: nat, k: nat)
    requires k / 2 < |s|
    ensures ValueAt(s, j, k) < Pow16(if j > k then 0 else k + 1 - j)
    decreases k + 1 - j
  {
    if j <= k {
      ValueBound(s, j + 1, k);
    }
  }

  lemma {:induction false} Pow16Mono(a: nat, b: nat)
    requires a <= b
    ensures Pow16(a) <= Pow16(b)
  {
    if a < b {
      Pow16Mono(a, b - 1);
    }
  }

  lemma IntBound(s: seq<byte>)
    ensures DecodedInt(s, 8).Some? ==> DecodedInt(s, 8).value.0 < TWO32
  {
    if DecodedInt(s, 8).Some? {
      ValueBound(s, 1, s[0] / 16 + 1);
      Pow16Mono(s[0] / 16 + 1, 8);
      assert Pow16(8) == 16 * (16 * (16 * (16 * (16 * (16 * (16 * 16))))));
    }
  }

  /** evbuffer_drain of what is there. */
  method Skip(buf: Evbuffer, n: nat)
    requires buf.Valid() && n <= buf.totalLen
    modifies buf, ChainSet(buf.chains)
    ensures buf.Valid() && buf.OnlyNewChains() && buf.SameFlags()
    ensures n <= |old(buf.Contents())| && buf.Contents() == Drained(old(buf.Contents()), n, buf.freezeStart)
  {
    hide Distinct, Linked, Holds, LastWithData, Kept, Flatten, SlotAt;
    var _ := Drain(buf, n);
    assert forall c :: c in buf.chains ==> c in ChainSet(buf.chains);
  }

  /** decode_tag_internal with draining, as in evtag_decode_tag. */
  method TakeTag(buf: Evbuffer, mallocOk: bool) returns (t: Option<(nat, nat)>)
    requires buf.Valid()
    modifies buf, ChainSet(buf.chains)
    ensures buf.Valid() && buf.OnlyNewChains() && buf.SameFlags()
    ensures var s := old(buf.Contents());
            && (mallocOk || t.Some? ==> t == DecodedTag(s, 0))
            && (t.Some? ==> 0 < t.value.1 <= |s| && buf.Contents() == Drained(s, t.value.1, buf.freezeStart))
            && (t.None? ==> buf.Contents() == s)
  {
    hide Distinct, Linked, Holds, LastWithData, Kept, Flatten, SlotAt, DecodedTag, Drained;
    var stray;
    t, stray := PeekTag(buf, mallocOk);
    if t.Some? {
      assert forall c :: c in ChainSet(buf.chains) ==> c in old(buf.chains) || fresh(c);
      Skip(buf, t.value.1);
    }
  }

  /** evtag_decode_int */
  method TakeInt(buf: Evbuffer, mallocOk: bool) returns (n: Option<(nat, nat)>)
    requires buf.Valid()
    modifies buf, ChainSet(buf.chains)
    ensures buf.Valid() && buf.OnlyNewChains() && buf.SameFlags()
    ensures var s := old(buf.Contents());
            && (mallocOk || n.Some? ==> n == DecodedInt(s, 8))
            && (n.Some? ==> 0 < n.value.1 <= |s| && buf.Contents() == Drained(s, n.value.1, buf.freezeStart))
            && (n.None? ==> buf.Contents() == s)
  {
    hide Distinct, Linked, Holds, LastWithData, Kept, Flatten, SlotAt, DecodedInt, Drained;
    assert buf.Contents()[0..] == buf.Contents();
    var stray;
    n, stray := PeekInt(buf, 0, mallocOk);
    if n.Some? {
      assert forall c :: c in ChainSet(buf.chains) ==> c in old(buf.chains) || fresh(c);
      Skip(buf, n.value.1);
    }
  }

  /** evtag_unmarshal_header: what it returns and what is left, in every case in which
      there is memory. A header whose payload is not all there is consumed nevertheless, and
      so is a tag that no number follows. Without memory it fails at the latest there. */
  method UnmarshalHeader(buf: Evbuffer, mallocOk: bool) returns (r: int, tag: nat)
    requires buf.Valid()
    modifies buf, ChainSet(buf.chains)
    ensures buf.Valid() && buf.OnlyNewChains() && buf.SameFlags()
    ensures var s := old(buf.Contents());
            var h := Header(s, buf.freezeStart);
            if h.Some? && (mallocOk || r != -1) then
              && h.value.2 <= |s| && buf.Contents() == s[h.value.2..] && tag == h.value.0
              && r == if |buf.Contents()| < h.value.1 then -1 else AsInt(h.value.1)
            else
              && r == -1
              && (mallocOk ==> buf.Contents() == AfterTag(s, buf.freezeStart))
              && (buf.Contents() == s || buf.Contents() == AfterTag(s, buf.freezeStart)
                  || (h.Some? && h.value.2 <= |s| && buf.Contents() == s[h.value.2..]))
  {
    hide Distinct, Linked, Holds, LastWithData, Kept, Flatten, SlotAt, DecodedTag, DecodedInt, Header, AfterTag, Drained;
    ghost var s := buf.Contents();
    tag := 0;
    HeaderParts(s, buf.freezeStart);
    var t := TakeTag(buf, mallocOk);
    if t.None? {
      return -1, 0;
    }
    tag := t.value.0;
    assert forall c :: c in ChainSet(buf.chains) ==> c in old(buf.chains) || fresh(c);
    var n := TakeInt(buf, mallocOk);
    if n.None? {
      return -1, tag;
    }
    DrainedTwice(s, t.value.1, n.value.1, buf.freezeStart);
    r := if buf.totalLen < n.value.0 then -1 else AsInt(n.value.0);
  }

  /** What is left when a number does not follow the tag. */
  ghost function AfterTag(s: seq<byte>, frozen: bool): seq<byte>
  {
    var t := DecodedTag(s, 0);
    if t.Some? && t.value.1 <= |s| then Drained(s, t.value.1, frozen) else s
  }

  lemma HeaderParts(s: seq<byte>, frozen: bool)
    ensures DecodedTag(s, 0).None? ==> Header(s, frozen).None? && AfterTag(s, frozen) == s
    ensures DecodedTag(s, 0).Some? && DecodedTag(s, 0).value.1 <= |s| ==>
              var t := DecodedTag(s, 0).value;
              var rest := Drained(s, t.1, frozen);
              var n := DecodedInt(rest, 8);
              && AfterTag(s, frozen) == rest
              && Header(s, frozen) == if n.None? then None else Some((t.0, n.value.0, if frozen then 0 else t.1 + n.value.1))
  {
    hide DecodedTag, DecodedInt, Drained;
  }

  lemma DrainedTwice(s: seq<byte>, a: nat, b: nat, frozen: bool)
    requires a <= |s| && b <= |Drained(s, a, frozen)|
    ensures var n := if frozen then 0 else a + b;
            n <= |s| && Drained(Drained(s, a, frozen), b, frozen) == s[n..]
  {
    Twice(s, a, b);
  }

  lemma Twice(s: seq<byte>, a: nat, b: nat)
    ensures a + b <= |s| ==> s[a..][b..] == s[a + b..]
  {
  }

  /** evtag_peek_length: header and payload together, modulo 2^32. */
  method PeekLength(buf: Evbuffer, mallocOk: bool) returns (r: Option<nat>, stray: bool)
    requires buf.Valid()
    modifies buf, ChainSet(buf.chains)
    ensures buf.Valid() && buf.OnlyNewChains() && buf.SameFlags() && buf.Contents() == old(buf.Contents())
    ensures mallocOk ==>
              var h := Header(buf.Contents(), false);
              !stray && r == if h.Some? then Some((h.value.1 + h.value.2) % TWO32) else None
    ensures r.Some? ==> Header(buf.Contents(), false).Some?
  {
    hide Distinct, Linked, Holds, LastWithData, Kept, Flatten, SlotAt, DecodedTag, DecodedInt;
    TagBounds(buf.Contents(), 0);
    var t, _ := PeekTag(buf, mallocOk);
    if t.None? {
      return None, false;
    }
    assert forall c :: c in ChainSet(buf.chains) ==> c in old(buf.chains) || fresh(c);
    ShortTag(buf.Contents(), 0);
    var n;
    n, stray := PeekInt(buf, t.value.1, mallocOk);
    if n.None? {
      return None, stray;
    }
    r := Some((n.value.0 + n.value.1 + t.value.1) % TWO32);
  }

  lemma {:induction false} ShortTag(s: seq<byte>, i: nat)
    ensures DecodedTag(s, i).Some? ==> i + DecodedTag(s, i).value.1 <= 5
    decreases |s| - i
  {
    if i < |s| {
      ShortTag(s, i + 1);
    }
  }

  /** A 32-bit length as the size_t it is passed on as, by way of an int. */
  function AsSize(n: nat): int
  {
    if n < TWO31 then n else n - TWO32 + TWO64
  }

  /** What evbuffer_drain leaves. */
  function Left(s: seq<byte>, n: int): seq<byte>
  {
    if 0 <= n < |s| then s[n..] else []
  }

  /** What evtag_consume leaves. The length is passed on as an int, and that as a size: a
      payload of 2^31 bytes or more makes it drain far more than the record, and one of
      2^32 - 1 bytes is taken for an error, and not drained at all. */
  ghost function Consumed(s: seq<byte>, frozen: bool): seq<byte>
  {
    HeaderShort(s, frozen);
    var h := Header(s, frozen);
    if h.None? then AfterTag(s, frozen)
    else
      var rest := s[h.value.2..];
      if |rest| < h.value.1 || h.value.1 == TWO32 - 1 || frozen then rest else Left(rest, AsSize(h.value.1))
  }

  /** evtag_consume, in every case in which there is memory. A complete record goes, and
      nothing else, if and only if its payload is shorter than 2^31 bytes, or nothing follows
      it and it is shorter than 2^32 - 1 bytes. */
  method Consume(buf: Evbuffer) returns (ok: bool)
    requires buf.Valid()
    modifies buf, ChainSet(buf.chains)
    ensures buf.Valid() && buf.OnlyNewChains() && buf.SameFlags()
    ensures var s := old(buf.Contents());
            var h := Header(s, buf.freezeStart);
            && (ok <==> h.Some? && h.value.1 + h.value.2 <= |s| && h.value.1 != TWO32 - 1)
            && buf.Contents() == Consumed(s, buf.freezeStart)
            && (!buf.freezeStart && h.Some? && h.value.1 + h.value.2 <= |s| ==>
                  (buf.Contents() == s[h.value.1 + h.value.2..] <==>
                     h.value.1 < TWO31 || (h.value.1 + h.value.2 == |s| && h.value.1 != TWO32 - 1)))
  {
    hide Distinct, Linked, Holds, LastWithData, Kept, Flatten, SlotAt, Header, DecodedTag, AfterTag;
    ghost var s := buf.Contents();
    HeaderShort(s, buf.freezeStart);
    OneRecordIff(s);
    var r, _ := UnmarshalHeader(buf, true);
    if r == -1 {
      return false;
    }
    assert forall c :: c in ChainSet(buf.chains) ==> c in old(buf.chains) || fresh(c);
    ok := true;
    DrainUpTo(buf, if r < 0 then r + TWO64 else r);
  }

  /** When exactly one record goes. */
  lemma OneRecordIff(s: seq<byte>)
    ensures var h := Header(s, false);
            h.Some? && h.value.1 + h.value.2 <= |s| ==>
              (Consumed(s, false) == s[h.value.1 + h.value.2..] <==>
                 h.value.1 < TWO31 || (h.value.1 + h.value.2 == |s| && h.value.1 != TWO32 - 1))
  {
    hide Header;
    HeaderShort(s, false);
    var h := Header(s, false);
    if h.Some? {
      Twice(s, h.value.2, h.value.1);
    }
  }

  /** A record of 2^32 - 1 bytes, which evtag_marshal writes: consuming it leaves the whole
      payload. */
  lemma LargestStays(r: Record)
    requires Fits(r) && |r.payload| == TWO32 - 1
    ensures Consumed(Wire(r), false) == r.payload
  {
    hide Wire, Header;
    HeaderOf(r, []);
    assert Wire(r) + [] == Wire(r) && r.payload + [] == r.payload;
  }

  method DrainUpTo(buf: Evbuffer, n: nat)
    requires buf.Valid()
    modifies buf, ChainSet(buf.chains)
    ensures buf.Valid() && buf.OnlyNewChains() && buf.SameFlags()
    ensures buf.Contents() == if buf.freezeStart then old(buf.Contents()) else Left(old(buf.Contents()), n)
  {
    hide Distinct, Linked, Holds, LastWithData, Kept, Flatten, SlotAt;
    var _ := Drain(buf, n);
    assert forall c :: c in buf.chains ==> c in ChainSet(buf.chains);
  }

  /** Peeking at the length of a record and consuming it agree, if the payload is shorter
      than 2^31 bytes or nothing follows the record. */
  method PeekThenConsume(buf: Evbuffer) returns (n: Option<nat>, ok: bool)
    requires buf.Valid() && !buf.freezeStart
    modifies buf, ChainSet(buf.chains)
    ensures buf.Valid()
    ensures var s := old(buf.Contents());
            var h := Header(s, false);
            ok ==>
              && h.Some? && n == Some((h.value.1 + h.value.2) % TWO32)
              && (h.value.1 < TWO31 || h.value.1 + h.value.2 == |s| ==> |s| - |buf.Contents()| == h.value.1 + h.value.2)
              && (h.value.1 < TWO31 ==> |s| - |buf.Contents()| == n.value)
    ensures n.None? ==> !ok
  {
    hide Distinct, Linked, Holds, LastWithData, Kept, Flatten, SlotAt, Header, Consumed;
    var stray;
    n, stray := PeekLength(buf, true);
    assert forall c :: c in ChainSet(buf.chains) ==> c in old(buf.chains) || fresh(c);
    HeaderShort(buf.Contents(), false);
    ok := Consume(buf);
  }

  lemma HeaderShort(s: seq<byte>, frozen: bool)
    ensures Header(s, frozen).Some? ==>
              Header(s, frozen).value.2 <= |s| && Header(s, frozen).value.2 <= 10 && Header(s, frozen).value.1 < TWO32
  {
    hide DecodedTag, ValueAt;
    ShortTag(s, 0);
    TagBounds(s, 0);
    var t := DecodedTag(s, 0);
    if t.Some? {
      IntBound(Drained(s, t.value.1, frozen));
    }
  }

  lemma Parts(t: seq<byte>, n: seq<byte>, p: seq<byte>, more: seq<byte>)
    ensures var s := t + (n + p) + more;
            && s == t + (n + (p + more)) && s[|t|..] == n + (p + more) && s[|t| + |n|..] == p + more
  {
    var s := t + (n + p) + more;
    assert s == t + (n + (p + more));
    assert s[|t| + |n|..] == (n + (p + more))[|n|..];
  }

  /** Reading the header of a record, whatever follows the record. */
  lemma HeaderOf(r: Record, more: seq<byte>)
    requires Fits(r)
    ensures Header(Wire(r) + more, false).Some? && DecodedTag(Wire(r) + more, 0).Some?
    ensures DecodedTag(Wire(r) + more, 0).value.0 == r.tag
    ensures var h := Header(Wire(r) + more, false).value;
            && h.0 == r.tag && h.1 == |r.payload| && h.1 + h.2 == |Wire(r)|
            && (Wire(r) + more)[h.2..] == r.payload + more
  {
    hide TagBytes, IntBytes, DecodedTag, DecodedInt, Nibbles, Pow16;
    ShortInt(|r.payload|);
    var t, n, p := TagBytes(r.tag), IntBytes(|r.payload|), r.payload;
    Parts(t, n, p, more);
    TagRoundTrip(r.tag, n + (p + more));
    IntRoundTrip(|p|, 8, p + more);
  }

  /** A payload that evtag_unmarshal_string has room for: it asks for one byte more in int
      arithmetic, and what that gives for 2^31 - 1 bytes or more is negative and, as a size,
      more than there can be. */
  predicate Short(n: nat)
  {
    n < TWO31 - 1
  }

  /** evtag_unmarshal_string, in every case in which there is memory for pullups. With a
      frozen start the text is what was in the memory before. */
  method UnmarshalString(buf: Evbuffer, needTag: nat, mallocOk: bool) returns (ok: bool, text: seq<byte>)
    requires buf.Valid()
    modifies buf, ChainSet(buf.chains)
    ensures buf.Valid() && buf.OnlyNewChains() && buf.SameFlags()
    ensures var s := old(buf.Contents());
            var h := Header(s, buf.freezeStart);
            && (ok <==> h.Some? && h.value.0 == needTag && h.value.1 + h.value.2 <= |s| && Short(h.value.1) && mallocOk)
            && (h.Some? ==> h.value.2 <= |s|)
            && (ok ==> |text| == h.value.1)
            && (ok && !buf.freezeStart ==> text + buf.Contents() == s[h.value.2..])
            && (ok && buf.freezeStart ==> buf.Contents() == s)
            && (!ok ==> buf.Contents() == if h.Some? then s[h.value.2..] else AfterTag(s, buf.freezeStart))
  {
    hide Distinct, Linked, Holds, LastWithData, Kept, Flatten, SlotAt, Header, DecodedTag, AfterTag;
    ghost var s := buf.Contents();
    HeaderShort(s, buf.freezeStart);
    FrozenTakesNone(s);
    var n, tag := UnmarshalHeader(buf, true);
    if n == -1 || tag != needTag || !mallocOk || n < -1 || n == INT_MAX {
      return false, [];
    }
    assert forall c :: c in ChainSet(buf.chains) ==> c in old(buf.chains) || fresh(c);
    var out := new byte[n];
    var m := Remove(buf, out, n);
    assert forall c :: c in buf.chains ==> c in ChainSet(buf.chains);
    assert out[..] == out[..n];
    ok, text := true, out[..];
  }

  lemma FrozenTakesNone(s: seq<byte>)
    ensures Header(s, true).Some? ==> Header(s, true).value.2 == 0 && s[0..] == s
  {
  }

  /** evtag_peek, and evtag_unmarshal_string of that tag: a marshalled record is read back,
      and what follows it is left, if and only if its payload is shorter than 2^31 - 1
      bytes. */
  method ReadRecord(buf: Evbuffer, ghost r: Record, ghost more: seq<byte>) returns (got: Option<Record>)
    requires buf.Valid() && !buf.freezeStart
    requires Fits(r) && buf.Contents() == Wire(r) + more
    modifies buf, ChainSet(buf.chains)
    ensures buf.Valid() && buf.OnlyNewChains() && buf.SameFlags()
    ensures got == if Short(|r.payload|) then Some(r) else None
    ensures buf.Contents() == if Short(|r.payload|) then more else r.payload + more
  {
    hide Distinct, Linked, Holds, LastWithData, Kept, Flatten, SlotAt, Header, Wire, DecodedTag;
    HeaderOf(r, more);
    TagBounds(buf.Contents(), 0);
    var t, _ := PeekTag(buf, true);
    assert forall c :: c in ChainSet(buf.chains) ==> c in old(buf.chains) || fresh(c);
    var ok, text := UnmarshalString(buf, t.value.0, true);
    if !ok {
      return None;
    }
    Front2(r.payload, more, text, buf.Contents());
    got := Some(Record(t.value.0, text));
  }

  lemma Front2(a: seq<byte>, b: seq<byte>, x: seq<byte>, y: seq<byte>)
    requires a + b == x + y && |a| == |x|
    ensures a == x && b == y
  {
    assert (a + b)[..|a|] == a && (x + y)[..|a|] == x;
    assert (a + b)[|a|..] == b && (x + y)[|a|..] == y;
  }

  ghost function WireAll(rs: seq<Record>): seq<byte>
    requires forall i :: 0 <= i < |rs| ==> Fits(rs[i])
  {
    if rs == [] then [] else Wire(rs[0]) + WireAll(rs[1..])
  }

  /** How many records come before the first that cannot be read. */
  function Readable(rs: seq<Record>): (n: nat)
    ensures n <= |rs| && (forall i :: 0 <= i < n ==> Short(|rs[i].payload|)) && (n < |rs| ==> !Short(|rs[n].payload|))
  {
    if rs == [] || !Short(|rs[0].payload|) then 0 else 1 + Readable(rs[1..])
  }

  /** Any list of records, marshalled one after the other and followed by anything, is
      read back as it was, up to the first that cannot be read; if there is none, what
      follows is left. */
  method ReadAll(buf: Evbuffer, n: nat, ghost rs: seq<Record>, ghost more: seq<byte>) returns (got: seq<Record>)
    requires buf.Valid() && !buf.freezeStart && n == |rs|
    requires (forall i :: 0 <= i < |rs| ==> Fits(rs[i])) && buf.Contents() == WireAll(rs) + more
    modifies buf, ChainSet(buf.chains)
    ensures buf.Valid() && got == rs[..Readable(rs)]
    ensures Readable(rs) == |rs| ==> buf.Contents() == more
    decreases n
  {
    hide Distinct, Linked, Holds, LastWithData, Kept, Flatten, SlotAt, Wire;
    if n == 0 {
      assert WireAll(rs) + more == more;
      return [];
    }
    assert WireAll(rs) + more == Wire(rs[0]) + (WireAll(rs[1..]) + more);
    var r := ReadRecord(buf, rs[0], WireAll(rs[1..]) + more);
    if r.None? {
      return [];
    }
    assert forall c :: c in ChainSet(buf.chains) ==> c in old(buf.chains) || fresh(c);
    var rest := ReadAll(buf, n - 1, rs[1..], more);
    got := [r.value] + rest;
  }

  /** evtag_marshal of each record in turn. */
  method MarshalAll(buf: Evbuffer, rs: seq<Record>)
    requires buf.Valid() && !buf.freezeEnd && Bounded(buf.chains) && forall i :: 0 <= i < |rs| ==> Fits(rs[i])
    requires buf.totalLen + |WireAll(rs)| <= SIZE_MAX
    modifies buf, ChainSet(buf.chains)
    ensures buf.Valid() && buf.OnlyNewChains() && buf.SameFlags() && buf.Contents() == old(buf.Contents()) + WireAll(rs)
    decreases rs
  {
    hide Distinct, Linked, Holds, LastWithData, Kept, Flatten, SlotAt, Wire, WireAll, Bounded, Fits, TagBytes, IntBytes;
    ghost var all := buf.Contents();
    WireCons(all, rs);
    if rs == [] {
      return;
    }
    var r := rs[0];
    ghost var ok1, ok2, ok3 := Marshal(buf, r.tag, r.payload, true);
    assert forall c :: c in ChainSet(buf.chains) ==> c in old(buf.chains) || fresh(c);
    MarshalAll(buf, rs[1..]);
  }

  lemma WireCons(all: seq<byte>, rs: seq<Record>)
    requires forall i :: 0 <= i < |rs| ==> Fits(rs[i])
    ensures rs == [] ==> all + WireAll(rs) == all
    ensures rs != [] ==>
              && rs[0] == Record(rs[0].tag, rs[0].payload) && |WireAll(rs)| == |Wire(rs[0])| + |WireAll(rs[1..])|
              && (all + Wire(rs[0])) + WireAll(rs[1..]) == all + WireAll(rs)
  {
    hide Wire;
  }

  /** Any list of records, marshalled into a buffer and read back from it: they are the same
      if and only if no payload has 2^31 - 1 bytes or more. */
  method RecordsRoundTrip(rs: seq<Record>) returns (got: seq<Record>)
    requires (forall i :: 0 <= i < |rs| ==> Fits(rs[i])) && |WireAll(rs)| <= SIZE_MAX
    ensures got == rs[..Readable(rs)]
    ensures got == rs <==> forall i :: 0 <= i < |rs| ==> Short(|rs[i].payload|)
  {
    hide Wire;
    var buf := new Evbuffer();
    MarshalAll(buf, rs);
    assert [] + WireAll(rs) == WireAll(rs) + [];
    assert forall c :: c in ChainSet(buf.chains) ==> fresh(c);
    got := ReadAll(buf, |rs|, rs, []);
  }
}

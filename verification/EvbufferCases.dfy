/** buffer.c: buffers on which the conditions of the operations matter. */
module EvbufferCases {
  import opened Bytes
  import opened EvbufferCore
  import opened EvbufferBytes
  import opened EvbufferMove
  import opened EvbufferSpace
  import opened EvbufferCommit
  import opened EvbufferReserve

  /** A buffer with one chain of 976 bytes, the least that evbuffer_chain_new allocates,
      the first n of which hold data. */
  method OneChain(n: nat) returns (buf: Evbuffer, c: Chain)
    requires n <= 976
    ensures fresh(buf) && fresh(c) && buf.Valid() && buf.chains == [c] && buf.k == 0 && !buf.freezeStart && !buf.freezeEnd
    ensures !c.immutable && c.bufferLen == |c.mem| == 976 && c.misalign == 0 && c.off == n
    ensures |buf.Contents()| == n && forall i :: 0 <= i < n ==> buf.Contents()[i] == 0
  {
    buf := new Evbuffer();
    c := new Chain(seq(976, _ => 0), false, n);
    buf.ChainInsert(c);
  }

  /** evbuffer_remove_buffer drains the bytes even if it could not copy them: one of two
      bytes is lost when memory runs out. */
  method LostByte() returns (src: Evbuffer, dst: Evbuffer, result: int)
    ensures src.Valid() && dst.Valid() && result == 1 && |src.Contents()| == 1 && dst.Contents() == []
  {
    hide Distinct, Linked, Holds, LastWithData, Kept, SlotAt;
    var c;
    src, c := OneChain(2);
    dst := new Evbuffer();
    ghost var copied;
    result, copied := RemoveBuffer(src, dst, 1, false);
  }

  /** evbuffer_prepend fails half-way: one of two bytes fits before the data, and there is
      no memory for a chain to hold the other. It fails, and the byte that fitted stays. */
  method HalfPrepended() returns (buf: Evbuffer, ok: bool)
    ensures buf.Valid() && !ok && buf.Contents() == [8, 0]
  {
    hide Distinct, Linked, Holds, LastWithData, Kept, SlotAt;
    buf := new Evbuffer();
    var c := new Chain(seq(976, _ => 0), false, 1);
    c.misalign := 1;
    buf.ChainInsert(c);
    assert buf.Contents() == [0];
    ok := Prepend(buf, [7, 8], false);
  }

  /** Reserving nothing in two pieces aborts in a buffer whose one chain is full. */
  method AbortedReserve() returns (buf: Evbuffer, r: Reserved)
    ensures r.Aborted?
  {
    hide Distinct, Linked, Holds, LastWithData, Kept, Flatten, SlotAt;
    var c;
    buf, c := OneChain(976);
    r := Reserve(buf, 0, 2, true);
  }

  /** One byte of room is left, and two empty chains follow, as reservations in several
      pieces leave them. */
  method ThreeChains() returns (buf: Evbuffer)
    ensures fresh(buf) && (forall c :: c in buf.chains ==> fresh(c)) && buf.Valid()
    ensures PassesOver(buf, 2) && buf.k + 2 < |buf.chains|
  {
    hide Distinct, Linked, Holds, LastWithData, Kept, Flatten, SlotAt, PassesOver;
    var c;
    buf, c := OneChain(975);
    var d := AppendRoom(buf);
    var e := AppendRoom(buf);
    assert buf.chains == [c] + [d] + [e];
    TooNarrow(buf);
  }

  method AppendRoom(buf: Evbuffer) returns (d: Chain)
    requires buf.Valid() && buf.chains != []
    modifies buf, buf.chains`next
    ensures buf.Valid() && fresh(d) && buf.chains == old(buf.chains) + [d] && buf.k == old(buf.k)
    ensures !d.immutable && d.bufferLen == |d.mem| == 976 && d.misalign == 0 && d.off == 0
  {
    hide Distinct, Linked, Holds, LastWithData, Kept, Flatten, SlotAt;
    d := new Chain(seq(976, _ => 0), false, 0);
    AppendEmpty(buf, d);
  }

  lemma TooNarrow(buf: Evbuffer)
    requires |buf.chains| == 3 && buf.k == 0
    requires var c := buf.chains[0]; !c.immutable && c.bufferLen == |c.mem| == 976 && c.misalign == 0 && c.off == 975
    requires var d := buf.chains[1]; !d.immutable && d.bufferLen == |d.mem| == 976 && d.misalign == 0 && d.off == 0
    ensures PassesOver(buf, 2)
  {
  }

  /** Two bytes are offered in the first of the empty chains, but a commit of them is
      refused. */
  method RefusedCommit() returns (buf: Evbuffer, r: Reserved)
    ensures buf.Valid() && r.Offered? && |r.vecs| == 1 && r.vecs[0].len >= 2
    ensures !Accepts(buf, [Iovec(r.vecs[0].chain, r.vecs[0].at, 2)])
  {
    hide Distinct, Linked, Holds, LastWithData, Kept, Flatten, SlotAt, PassesOver, Accepts;
    buf := ThreeChains();
    r := ReserveOne(buf, 2, true);
  }
}

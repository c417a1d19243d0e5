/** Whole runs over two evbuffers. Whatever operations are applied to them in whatever
    order, their contents are those of two plain byte sequences; and no byte is lost or
    made up, unless a partial move runs out of memory. */
module EvbufferRun {
  import opened Bytes
  import opened EvbufferCore
  import opened EvbufferBytes
  import opened EvbufferMove
  import opened EvbufferPullup
  import opened EvbufferLines
  import opened EvbufferSpace
  import opened EvbufferCommit
  import opened EvbufferReserve

  /** What is done to one buffer. */
  datatype Local =
    | Put(data: seq<byte>, mallocOk: bool)                                       // evbuffer_add
    | Unread(data: seq<byte>, mallocOk: bool)                                    // evbuffer_prepend
    | Expand(room: nat, mallocOk: bool)                                          // evbuffer_expand_fast_
    | Grow(room: nat, mallocOk: bool)                                            // evbuffer_expand
    | Write(pieces: seq<seq<byte>>, size: nat, vecs: nat, mallocOk: bool)        // reserve, write, commit
    | WriteInOne(data: seq<byte>, size: nat, mallocOk: bool)                     // the same in one vector
    | Pull(upTo: int, mallocOk: bool)                                            // evbuffer_pullup
    | Take(len: nat)                                                             // evbuffer_remove
    | Skip(len: nat)                                                             // evbuffer_drain
    | Line(style: EolStyle, mallocOk: bool)                                      // evbuffer_readln

  /** What is done from one buffer to the other. */
  datatype Between =
    | Move(len: nat, mallocOk: bool)                                             // evbuffer_remove_buffer
    | MoveAll                                                                    // evbuffer_add_buffer
    | MoveFront                                                                  // evbuffer_prepend_buffer

  /** An operation on the second buffer or the first one; from the second one or to it. */
  datatype Op = On(second: bool, local: Local) | Over(back: bool, between: Between)

  /** What an operation does to the byte sequences. */
  datatype Effect =
    | AtEnd(d: seq<byte>)
    | AtStart(d: seq<byte>)
    | Drop(n: nat)
    | Shift(left: nat, arrived: nat)     // bytes that leave one buffer, and those that arrive
    | ShiftFront

  /** The contents of the two buffers. */
  datatype Flat = Flat(a: seq<byte>, b: seq<byte>)

  function Edited(s: seq<byte>, e: Effect): seq<byte>
  {
    match e
    case AtEnd(d) => s + d
    case AtStart(d) => d + s
    case Drop(n) => if n <= |s| then s[n..] else []
    case _ => s
  }

  /** The contents of source and destination after a move. */
  function Moved(s: seq<byte>, t: seq<byte>, e: Effect): (seq<byte>, seq<byte>)
  {
    match e
    case Shift(n, m) => if m <= n <= |s| then (s[n..], t + s[..m]) else (s, t)
    case ShiftFront => ([], s + t)
    case _ => (s, t)
  }

  function After(f: Flat, op: Op, e: Effect): Flat
  {
    match op
    case On(second, _) => if second then Flat(f.a, Edited(f.b, e)) else Flat(Edited(f.a, e), f.b)
    case Over(back, _) =>
      if back then var r := Moved(f.b, f.a, e); Flat(r.1, r.0)
      else var r := Moved(f.a, f.b, e); Flat(r.0, r.1)
  }

  /** What evbuffer_readln takes with a line. */
  ghost predicate LineTaken(s: seq<byte>, style: EolStyle, n: nat)
  {
    (n == 0 && IsEol(s, style, 0, None)) || exists p: nat, k: nat :: n == p + k && IsEol(s, style, 0, Some((p, k)))
  }

  /** What an operation on a buffer with contents s may do; `start` and `end` say whether
      its ends are frozen. */
  ghost predicate Does(op: Local, s: seq<byte>, e: Effect, start: bool, end: bool)
  {
    match op
    case Put(data, mallocOk) =>
      && (e == AtEnd(data) || e == AtEnd([]))
      && (end ==> e == AtEnd([]))
      && (!end && mallocOk && |data| <= MAX_ALLOC && |s| + |data| <= SIZE_MAX ==> e == AtEnd(data))
    case Unread(data, mallocOk) =>
      && e.AtStart? && (exists n :: 0 <= n <= |data| && e.d == data[n..])
      && (start ==> e == AtStart([]))
      && (!start && mallocOk && |data| <= MAX_ALLOC && |s| + |data| <= SIZE_MAX ==> e == AtStart(data))
    case Write(pieces, size, vecs, mallocOk) =>
      (e == AtEnd(Flatten(pieces)) || e == AtEnd([])) && (end ==> e == AtEnd([]))
    case WriteInOne(data, size, mallocOk) =>
      (e == AtEnd(data) || e == AtEnd([])) && (end ==> e == AtEnd([]))
    case Take(len) => e == Drop(if start then 0 else if len < |s| then len else |s|)
    case Skip(len) => e == Drop(if start then 0 else if len < |s| then len else |s|)
    case Line(style, mallocOk) =>
      e.Drop? && e.n <= |s| && (if start || !mallocOk then e.n == 0 else LineTaken(s, style, e.n))
    case _ => e == AtEnd([])
  }

  /** What a move of a source with contents s may do; `fixed` says that one of the ends is
      frozen. Bytes are lost only when memory runs out. */
  ghost predicate Shifts(op: Between, s: seq<byte>, e: Effect, fixed: bool)
  {
    match op
    case Move(len, mallocOk) =>
      && e.Shift? && e.left == (if fixed then 0 else if len < |s| then len else |s|)
      && e.arrived <= e.left && (mallocOk ==> e.arrived == e.left)
    case MoveAll => e == Shift(if fixed then 0 else |s|, if fixed then 0 else |s|)
    case MoveFront => e == if fixed && s != [] then AtEnd([]) else ShiftFront
  }

  ghost predicate Allowed(op: Op, f: Flat, e: Effect, fz: Frozen)
  {
    match op
    case On(second, local) =>
      if second then Does(local, f.b, e, fz.startB, fz.endB) else Does(local, f.a, e, fz.startA, fz.endA)
    case Over(back, between) =>
      if back then Shifts(between, f.b, e, fz.startB || (if between.MoveFront? then fz.startA else fz.endA))
      else Shifts(between, f.a, e, fz.startA || (if between.MoveFront? then fz.startB else fz.endB))
  }

  /** Which ends are frozen. */
  datatype Frozen = Frozen(startA: bool, endA: bool, startB: bool, endB: bool)

  ghost function Ends(a: Evbuffer, b: Evbuffer): Frozen
    reads a, b
  {
    Frozen(a.freezeStart, a.freezeEnd, b.freezeStart, b.freezeEnd)
  }

  /** Each of the effects is one its operation may have, starting with contents f. */
  ghost predicate Follows(f: Flat, ops: seq<Op>, es: seq<Effect>, fz: Frozen)
    decreases |ops|
  {
    && |es| == |ops|
    && (ops == [] ||
          (Allowed(ops[0], f, es[0], fz) && Follows(After(f, ops[0], es[0]), ops[1..], es[1..], fz)))
  }

  /** The contents after all of them. */
  function Final(f: Flat, ops: seq<Op>, es: seq<Effect>): Flat
    requires |es| == |ops|
    decreases |ops|
  {
    if ops == [] then f else Final(After(f, ops[0], es[0]), ops[1..], es[1..])
  }

  /** At most how many bytes an operation puts in. */
  ghost function Inflow(op: Op): nat
  {
    if op.Over? then 0
    else if op.local.Put? || op.local.Unread? || op.local.WriteInOne? then |op.local.data|
    else if op.local.Write? then |Flatten(op.local.pieces)|
    else 0
  }

  ghost function AllInflow(ops: seq<Op>): nat
  {
    if ops == [] then 0 else Inflow(ops[0]) + AllInflow(ops[1..])
  }

  /** The buffers are well formed, share no chain, and have no chain that is larger than
      any that can be allocated. */
  ghost predicate Pair(a: Evbuffer, b: Evbuffer)
    reads a, b, a.chains, b.chains
  {
    a != b && a.Valid() && b.Valid() && Apart(a, b) && Apart(b, a) && Bounded(a.chains) && Bounded(b.chains)
  }

  /** x's chains were there before or are new, so it still shares none with y. */
  twostate lemma StillPair(p: (Evbuffer, Evbuffer))
    requires old(Pair(p.0, p.1)) && p.0.Valid() && p.0.OnlyNewChains() && p.1.Valid() && p.1.chains == old(p.1.chains)
    requires forall c :: c in old(p.1.chains) ==> old(allocated(c))
    ensures Pair(p.0, p.1) && Pair(p.1, p.0)
  {
  }

  /** An operation on x leaves y alone. */
  method StepLocal(x: Evbuffer, y: Evbuffer, op: Local) returns (ghost e: Effect)
    requires Pair(x, y) && x.totalLen + y.totalLen + Inflow(On(false, op)) <= SIZE_MAX
    modifies x, ChainSet(x.chains)
    ensures Pair(x, y) && Pair(y, x) && x.OnlyNewChains() && x.SameFlags()
    ensures x.Contents() == Edited(old(x.Contents()), e)
    ensures Does(op, old(x.Contents()), e, x.freezeStart, x.freezeEnd)
  {
    hide Distinct, Linked, Holds, LastWithData, Kept, Flatten, SlotAt, IsEol;
    assert forall c :: c in x.chains ==> c in ChainSet(x.chains);
    match op {
      case Put(data, mallocOk) => e := StepPut(x, data, mallocOk);
      case Unread(data, mallocOk) => e := StepUnread(x, data, mallocOk);
      case Expand(room, mallocOk) =>
        var _, _ := ExpandFast(x, room, 2, mallocOk);
        e := AtEnd([]);
      case Grow(room, mallocOk) =>
        var _, _ := ExpandSingle(x, room, mallocOk);
        e := AtEnd([]);
      case Write(pieces, size, vecs, mallocOk) => e := StepWrite(x, pieces, size, vecs, mallocOk);
      case WriteInOne(data, size, mallocOk) =>
        e := AtEnd([]);
        if |data| <= size {
          var ok := WriteOne(x, data, size, mallocOk);
          e := AtEnd(if ok then data else []);
        }
      case Pull(upTo, mallocOk) =>
        var _ := Pullup(x, upTo, mallocOk);
        e := AtEnd([]);
      case Take(len) => e := StepTake(x, len);
      case Skip(len) => e := StepSkip(x, len);
      case Line(style, mallocOk) => e := StepLine(x, style, mallocOk);
    }
    ValidSame(y);
    StillPair((x, y));
  }

  method StepPut(x: Evbuffer, data: seq<byte>, mallocOk: bool) returns (ghost e: Effect)
    requires x.Valid() && Bounded(x.chains)
    modifies x, x.chains
    ensures x.Valid() && x.OnlyNewChains() && x.SameFlags()
    ensures x.Contents() == Edited(old(x.Contents()), e)
    ensures Does(Put(data, mallocOk), old(x.Contents()), e, x.freezeStart, x.freezeEnd)
  {
    hide Distinct, Linked, Holds, LastWithData, Kept, Flatten, SlotAt, CanAdd;
    CanAllocate(x, |data|);
    var ok := Add(x, data, mallocOk);
    e := AtEnd(if ok then data else []);
  }

  method StepUnread(x: Evbuffer, data: seq<byte>, mallocOk: bool) returns (ghost e: Effect)
    requires x.Valid()
    modifies x, x.chains
    ensures x.Valid() && x.OnlyNewChains() && x.SameFlags()
    ensures x.Contents() == Edited(old(x.Contents()), e)
    ensures Does(Unread(data, mallocOk), old(x.Contents()), e, x.freezeStart, x.freezeEnd)
  {
    hide Distinct, Linked, Holds, LastWithData, Kept, Flatten, SlotAt;
    ghost var all := x.Contents();
    ghost var n := if x.freezeStart || x.totalLen + |data| > SIZE_MAX || x.chains == [] then 0 else FrontLen(x.chains[0]);
    var ok := EvbufferBytes.Prepend(x, data, mallocOk);
    ghost var m := if ok then 0 else |data| - n;
    e := AtStart(data[m..]);
    assert data[0..] == data && data[|data|..] == [] && [] + all == all;
  }

  method StepWrite(x: Evbuffer, pieces: seq<seq<byte>>, size: nat, vecs: nat, mallocOk: bool) returns (ghost e: Effect)
    requires x.Valid() && x.totalLen + |Flatten(pieces)| <= SIZE_MAX
    modifies x, ChainSet(x.chains)
    ensures x.Valid() && x.OnlyNewChains() && x.SameFlags()
    ensures x.Contents() == Edited(old(x.Contents()), e)
    ensures Does(Write(pieces, size, vecs, mallocOk), old(x.Contents()), e, x.freezeStart, x.freezeEnd)
  {
    hide Distinct, Linked, Holds, LastWithData, Kept, Flatten, SlotAt, Fits, Full, CanExpand;
    e := AtEnd([]);
    assert x.Contents() + [] == x.Contents();
    if !x.freezeEnd && 0 < size && 2 <= vecs {
      var r := ReserveMany(x, size, vecs, mallocOk);
      if r.Offered? && |pieces| <= |r.vecs| && forall i :: 0 <= i < |pieces| ==> |pieces[i]| <= r.vecs[i].len {
        assert forall c :: c in ChainSet(x.chains) ==> c in old(x.chains) || fresh(c);
        var ok := WriteAndCommit(x, r.vecs, pieces);
        e := AtEnd(Flatten(pieces));
      }
    }
  }

  method StepTake(x: Evbuffer, len: nat) returns (ghost e: Effect)
    requires x.Valid()
    modifies x, x.chains
    ensures x.Valid() && x.OnlyNewChains() && x.SameFlags()
    ensures x.Contents() == Edited(old(x.Contents()), e)
    ensures Does(Take(len), old(x.Contents()), e, x.freezeStart, x.freezeEnd)
  {
    hide Distinct, Linked, Holds, LastWithData, Kept, Flatten, SlotAt;
    ghost var all := x.Contents();
    var out := new byte[len];
    var n := EvbufferBytes.Remove(x, out, len);
    e := Drop(if n == -1 then 0 else n);
    assert n != -1 ==> all[n..] == x.Contents();
    assert forall c :: c in x.chains ==> c in ChainSet(x.chains);
  }

  method StepSkip(x: Evbuffer, len: nat) returns (ghost e: Effect)
    requires x.Valid()
    modifies x, x.chains
    ensures x.Valid() && x.OnlyNewChains() && x.SameFlags()
    ensures x.Contents() == Edited(old(x.Contents()), e)
    ensures Does(Skip(len), old(x.Contents()), e, x.freezeStart, x.freezeEnd)
  {
    hide Distinct, Linked, Holds, LastWithData, Kept, Flatten, SlotAt;
    ghost var all := x.Contents();
    var ok := Drain(x, len);
    e := Drop(if x.freezeStart then 0 else if len < |all| then len else |all|);
    assert all[|all|..] == [] && all[0..] == all;
    assert forall c :: c in x.chains ==> c in ChainSet(x.chains);
  }

  method StepLine(x: Evbuffer, style: EolStyle, mallocOk: bool) returns (ghost e: Effect)
    requires x.Valid()
    modifies x, x.chains
    ensures x.Valid() && x.OnlyNewChains() && x.SameFlags()
    ensures x.Contents() == Edited(old(x.Contents()), e)
    ensures Does(Line(style, mallocOk), old(x.Contents()), e, x.freezeStart, x.freezeEnd)
  {
    hide Distinct, Linked, Holds, LastWithData, Kept, Flatten, SlotAt, IsEol;
    ghost var all := x.Contents();
    var line;
    ghost var eol;
    line, eol := Readln(x, style, mallocOk);
    ghost var n := if line.Some? then |line.value| + |eol| else 0;
    e := Drop(n);
    if line.Some? {
      assert all == (line.value + eol) + x.Contents();
    }
    assert all[0..] == all;
    assert forall c :: c in x.chains ==> c in ChainSet(x.chains);
  }

  /** A move from x to y. */
  method StepBetween(x: Evbuffer, y: Evbuffer, op: Between) returns (ghost e: Effect)
    requires Pair(x, y) && x.totalLen + y.totalLen <= SIZE_MAX
    modifies x, y, ChainSet(x.chains), ChainSet(y.chains)
    ensures Pair(x, y) && Pair(y, x) && x.SameFlags() && y.SameFlags()
    ensures forall c :: c in x.chains + y.chains ==> c in old(x.chains) || c in old(y.chains) || fresh(c)
    ensures (x.Contents(), y.Contents()) == Moved(old(x.Contents()), old(y.Contents()), e)
    ensures Shifts(op, old(x.Contents()), e, x.freezeStart || (if op.MoveFront? then y.freezeStart else y.freezeEnd))
  {
    hide Distinct, Linked, Holds, LastWithData, Kept, Flatten, SlotAt, CanMove, WholeBytes;
    ghost var s, t := x.Contents(), y.Contents();
    assert s[0..] == s && t + s[..0] == t && s[|s|..] == [] && s[..|s|] == s && [] + t == t;
    match op
    case Move(len, mallocOk) =>
      if len < x.totalLen {
        CanMoveBounded(x, y, len);
      }
      ghost var m := WholeBytes(x, len);
      var n;
      ghost var copied;
      n, copied := RemoveBuffer(x, y, len, mallocOk);
      e := if n == -1 then Shift(0, 0) else Shift(n, if copied then n else m);
    case MoveAll =>
      var ok := AddBuffer(y, x);
      e := if ok then Shift(|s|, |s|) else Shift(0, 0);
    case MoveFront =>
      var ok := PrependBuffer(y, x);
      e := if ok then ShiftFront else AtEnd([]);
  }

  ghost function Contents(a: Evbuffer, b: Evbuffer): Flat
    reads a, b
  {
    Flat(a.Contents(), b.Contents())
  }

  /** One operation of a run. */
  method Step(a: Evbuffer, b: Evbuffer, op: Op) returns (ghost e: Effect)
    requires Pair(a, b) && a.totalLen + b.totalLen + Inflow(op) <= SIZE_MAX
    modifies a, b, ChainSet(a.chains), ChainSet(b.chains)
    ensures Pair(a, b) && Ends(a, b) == old(Ends(a, b))
    ensures forall c :: c in a.chains + b.chains ==> c in old(a.chains) || c in old(b.chains) || fresh(c)
    ensures Contents(a, b) == After(old(Contents(a, b)), op, e) && Allowed(op, old(Contents(a, b)), e, Ends(a, b))
  {
    hide Distinct, Linked, Holds, LastWithData, Kept, Flatten, SlotAt, Does, Shifts, Edited, Moved, Bounded;
    match op
    case On(second, local) =>
      if second {
        e := StepLocal(b, a, local);
      } else {
        e := StepLocal(a, b, local);
      }
    case Over(back, between) =>
      if back {
        e := StepBetween(b, a, between);
      } else {
        e := StepBetween(a, b, between);
      }
  }

  lemma Grows(f: Flat, op: Op, e: Effect, fz: Frozen)
    requires Allowed(op, f, e, fz)
    ensures var g := After(f, op, e); |g.a| + |g.b| <= |f.a| + |f.b| + Inflow(op)
  {
  }

  /** Over every run, with every layout of chains: the contents of the buffers are those of
      two byte sequences to which each operation does what it may do to plain bytes. */
  method Run(a: Evbuffer, b: Evbuffer, ops: seq<Op>) returns (ghost es: seq<Effect>)
    requires Pair(a, b) && a.totalLen + b.totalLen + AllInflow(ops) <= SIZE_MAX
    modifies a, b, ChainSet(a.chains), ChainSet(b.chains)
    ensures Pair(a, b) && Ends(a, b) == old(Ends(a, b))
    ensures Follows(old(Contents(a, b)), ops, es, Ends(a, b)) && Contents(a, b) == Final(old(Contents(a, b)), ops, es)
    decreases ops
  {
    hide Distinct, Linked, Holds, LastWithData, Kept, Flatten, SlotAt, Allowed, After, Inflow, Bounded;
    es := [];
    if ops != [] {
      ghost var f := Contents(a, b);
      ghost var e := Step(a, b, ops[0]);
      Grows(f, ops[0], e, Ends(a, b));
      assert forall c :: c in ChainSet(a.chains) || c in ChainSet(b.chains) ==> c in a.chains + b.chains;
      ghost var rest := Run(a, b, ops[1..]);
      es := [e] + rest;
      assert es[1..] == rest;
    }
  }

  // What that says about the bytes.

  /** The bytes an operation brings in. */
  function Came(e: Effect): seq<byte>
  {
    if e.AtEnd? || e.AtStart? then e.d else []
  }

  /** The bytes it takes out for the caller. */
  function Taken(f: Flat, op: Op, e: Effect): seq<byte>
  {
    if op.On? && e.Drop? then
      var s := if op.second then f.b else f.a;
      if e.n <= |s| then s[..e.n] else s
    else []
  }

  /** The bytes it drops between the buffers. */
  function Lost(f: Flat, op: Op, e: Effect): seq<byte>
  {
    if op.Over? && e.Shift? then
      var s := if op.back then f.b else f.a;
      if e.arrived <= e.left <= |s| then s[e.arrived..e.left] else []
    else []
  }

  function AllCame(es: seq<Effect>): seq<byte>
  {
    if es == [] then [] else Came(es[0]) + AllCame(es[1..])
  }

  function AllTaken(f: Flat, ops: seq<Op>, es: seq<Effect>): seq<byte>
    requires |es| == |ops|
    decreases |ops|
  {
    if ops == [] then [] else Taken(f, ops[0], es[0]) + AllTaken(After(f, ops[0], es[0]), ops[1..], es[1..])
  }

  function AllLost(f: Flat, ops: seq<Op>, es: seq<Effect>): seq<byte>
    requires |es| == |ops|
    decreases |ops|
  {
    if ops == [] then [] else Lost(f, ops[0], es[0]) + AllLost(After(f, ops[0], es[0]), ops[1..], es[1..])
  }

  function Bag(f: Flat): multiset<byte>
  {
    multiset(f.a) + multiset(f.b)
  }

  lemma EditConserves(s: seq<byte>, e: Effect)
    requires e.Drop? ==> e.n <= |s|
    ensures multiset(s) + multiset(Came(e)) == multiset(Edited(s, e)) + multiset(if e.Drop? then s[..e.n] else [])
  {
    if e.Drop? {
      assert s == s[..e.n] + s[e.n..];
    }
  }

  lemma MoveConserves(s: seq<byte>, t: seq<byte>, e: Effect)
    requires e.ShiftFront? || e == AtEnd([]) || (e.Shift? && e.arrived <= e.left <= |s|)
    ensures var r := Moved(s, t, e);
            multiset(s) + multiset(t) == multiset(r.0) + multiset(r.1) + multiset(if e.Shift? then s[e.arrived..e.left] else [])
  {
    if e.Shift? {
      var x, y, z := s[..e.arrived], s[e.arrived..e.left], s[e.left..];
      assert s == x + y + z;
      assert multiset(s) == multiset(x) + multiset(y) + multiset(z);
    }
  }

  lemma OnConserves(f: Flat, op: Op, e: Effect)
    requires op.On? && (e.Drop? ==> e.n <= |if op.second then f.b else f.a|)
    ensures Bag(f) + multiset(Came(e)) == Bag(After(f, op, e)) + multiset(Taken(f, op, e))
  {
    hide Edited, Came;
    var s, t := if op.second then f.b else f.a, if op.second then f.a else f.b;
    EditConserves(s, e);
    var S, T, C, D, E := multiset(s), multiset(t), multiset(Came(e)), multiset(Taken(f, op, e)), multiset(Edited(s, e));
    assert S + C == E + D;
    assert Bag(f) == S + T && Bag(After(f, op, e)) == E + T;
    assert (S + T) + C == (S + C) + T;
    assert (E + D) + T == (E + T) + D;
  }

  lemma OverConserves(f: Flat, op: Op, e: Effect)
    requires op.Over?
    requires e.ShiftFront? || e == AtEnd([]) || (e.Shift? && e.arrived <= e.left <= |if op.back then f.b else f.a|)
    ensures Bag(f) == Bag(After(f, op, e)) + multiset(Lost(f, op, e))
  {
    hide Moved;
    var s, t := if op.back then f.b else f.a, if op.back then f.a else f.b;
    MoveConserves(s, t, e);
    var r := Moved(s, t, e);
    assert Bag(f) == multiset(s) + multiset(t) && Bag(After(f, op, e)) == multiset(r.0) + multiset(r.1);
  }

  lemma StepConserves(f: Flat, op: Op, e: Effect, fz: Frozen)
    requires Allowed(op, f, e, fz)
    ensures Bag(f) + multiset(Came(e)) == Bag(After(f, op, e)) + multiset(Taken(f, op, e)) + multiset(Lost(f, op, e))
  {
    hide Bag, After;
    var B, A, C, T, L := Bag(f), Bag(After(f, op, e)), multiset(Came(e)), multiset(Taken(f, op, e)), multiset(Lost(f, op, e));
    if op.On? {
      OnConserves(f, op, e);
      assert L == multiset{};
      assert A + T == A + T + L;
    } else {
      OverConserves(f, op, e);
      assert C == multiset{} && T == multiset{};
      assert B + C == B && A + T + L == A + L;
    }
  }

  lemma Sums(a: multiset<byte>, b: multiset<byte>, c: multiset<byte>, x: seq<byte>, y: seq<byte>,
             t: seq<byte>, u: seq<byte>, l: seq<byte>, m: seq<byte>)
    requires a + multiset(x) == b + multiset(t) + multiset(l) && b + multiset(y) == c + multiset(u) + multiset(m)
    ensures a + multiset(x + y) == c + multiset(t + u) + multiset(l + m)
  {
    var X, Y, T, U, L, M := multiset(x), multiset(y), multiset(t), multiset(u), multiset(l), multiset(m);
    calc {
      a + multiset(x + y);
      a + (X + Y);
      (a + X) + Y;
      (b + T + L) + Y;
      (b + Y) + T + L;
      (c + U + M) + T + L;
      c + (T + U) + (L + M);
      c + multiset(t + u) + multiset(l + m);
    }
  }

  /** Conservation: over every run, what was there and what came in is what is there, what
      was taken out and what was lost. */
  lemma {:induction false} Conservation(f: Flat, ops: seq<Op>, es: seq<Effect>, fz: Frozen)
    requires Follows(f, ops, es, fz)
    ensures Bag(f) + multiset(AllCame(es)) ==
              Bag(Final(f, ops, es)) + multiset(AllTaken(f, ops, es)) + multiset(AllLost(f, ops, es))
    decreases |ops|
  {
    hide Bag, After, Allowed, Came, Taken, Lost;
    if ops != [] {
      var g := After(f, ops[0], es[0]);
      StepConserves(f, ops[0], es[0], fz);
      Conservation(g, ops[1..], es[1..], fz);
      Sums(Bag(f), Bag(g), Bag(Final(f, ops, es)), Came(es[0]), AllCame(es[1..]),
           Taken(f, ops[0], es[0]), AllTaken(g, ops[1..], es[1..]), Lost(f, ops[0], es[0]), AllLost(g, ops[1..], es[1..]));
    }
  }

  /** A move that ran out of memory. */
  ghost predicate RanOut(op: Op)
  {
    op.Over? && op.between.Move? && !op.between.mallocOk
  }

  /** Bytes are lost only if a move ran out of memory. */
  lemma {:induction false} LostOnlyThen(f: Flat, ops: seq<Op>, es: seq<Effect>, fz: Frozen)
    requires Follows(f, ops, es, fz) && AllLost(f, ops, es) != []
    ensures exists op :: op in ops && RanOut(op)
    decreases |ops|
  {
    if Lost(f, ops[0], es[0]) != [] {
      assert RanOut(ops[0]);
    } else {
      LostOnlyThen(After(f, ops[0], es[0]), ops[1..], es[1..], fz);
    }
  }

  /** A pipeline: bytes enter at the end of the first buffer, move to the end of the second
      one, and leave at its front. */
  ghost predicate Pipeline(op: Op)
  {
    match op
    case On(second, local) =>
      if local.Put? || local.Write? || local.WriteInOne? then !second
      else if local.Unread? then false
      else second || local.Expand? || local.Grow? || local.Pull?
    case Over(back, between) => !back && !between.MoveFront?
  }

  lemma StepInOrder(f: Flat, op: Op, e: Effect, fz: Frozen)
    requires Allowed(op, f, e, fz) && Pipeline(op) && Lost(f, op, e) == []
    ensures var g := After(f, op, e); Taken(f, op, e) + (g.b + g.a) == (f.b + f.a) + Came(e)
  {
    var g := After(f, op, e);
    if e.Shift? {
      assert f.a == f.a[..e.left] + f.a[e.left..];
      assert (f.b + f.a[..e.left]) + f.a[e.left..] == f.b + f.a;
    } else if e.Drop? {
      assert f.b == f.b[..e.n] + f.b[e.n..];
    }
  }

  lemma Chain(all0: seq<byte>, all1: seq<byte>, all2: seq<byte>,
              put0: seq<byte>, put1: seq<byte>, taken0: seq<byte>, taken1: seq<byte>)
    requires taken0 + all1 == all0 + put0 && taken1 + all2 == all1 + put1
    ensures (taken0 + taken1) + all2 == all0 + (put0 + put1)
  {
    calc {
      (taken0 + taken1) + all2;
      taken0 + (taken1 + all2);
      taken0 + (all1 + put1);
      (taken0 + all1) + put1;
      (all0 + put0) + put1;
      all0 + (put0 + put1);
    }
  }

  /** Over every run of a pipeline in which no move ran out of memory, bytes leave in the
      order in which they entered: what left, then what is in the second buffer, then what
      is in the first one, is what was there at the start followed by what entered. */
  lemma {:induction false} InOrder(f: Flat, ops: seq<Op>, es: seq<Effect>, fz: Frozen)
    requires Follows(f, ops, es, fz) && forall op :: op in ops ==> Pipeline(op) && !RanOut(op)
    ensures var g := Final(f, ops, es); AllTaken(f, ops, es) + (g.b + g.a) == (f.b + f.a) + AllCame(es)
    decreases |ops|
  {
    if ops != [] {
      hide After, Taken, Came;
      assert ops[0] in ops && forall op :: op in ops[1..] ==> op in ops;
      var f1, g := After(f, ops[0], es[0]), Final(f, ops, es);
      NoneLost(f, ops[0], es[0], fz);
      StepInOrder(f, ops[0], es[0], fz);
      InOrder(f1, ops[1..], es[1..], fz);
      Chain(f.b + f.a, f1.b + f1.a, g.b + g.a, Came(es[0]), AllCame(es[1..]),
            Taken(f, ops[0], es[0]), AllTaken(f1, ops[1..], es[1..]));
    }
  }

  lemma NoneLost(f: Flat, op: Op, e: Effect, fz: Frozen)
    requires Allowed(op, f, e, fz) && !RanOut(op)
    ensures Lost(f, op, e) == []
  {
  }
}

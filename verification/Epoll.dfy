/** The table that turns a change of interest in a file descriptor into one epoll_ctl
    call, and the kernel's side of that call. */
module EpollTable {
  import opened Bytes

  /** A set over { EV_READ, EV_WRITE, EV_CLOSED }, or the epoll events for it. */
  datatype Kinds = Kinds(r: bool, w: bool, c: bool)

  const NONE := Kinds(false, false, false)

  /** EV_CHANGE_ADD and EV_CHANGE_DEL; Both is the nonsensical add+del. */
  datatype Change = Keep | Add | Del | Both

  datatype Op = NoOp | CtlAdd | CtlDel | CtlMod | Impossible

  datatype Entry = Entry(events: Kinds, op: Op)

  const Ar := Entry(Kinds(true, false, false), CtlAdd)
  const Aw := Entry(Kinds(false, true, false), CtlAdd)
  const Ac := Entry(Kinds(false, false, true), CtlAdd)
  const Arw := Entry(Kinds(true, true, false), CtlAdd)
  const Arc := Entry(Kinds(true, false, true), CtlAdd)
  const Awc := Entry(Kinds(false, true, true), CtlAdd)
  const Arwc := Entry(Kinds(true, true, true), CtlAdd)
  const Dr := Entry(Kinds(true, false, false), CtlDel)
  const Dw := Entry(Kinds(false, true, false), CtlDel)
  const Dc := Entry(Kinds(false, false, true), CtlDel)
  const Drw := Entry(Kinds(true, true, false), CtlDel)
  const Drc := Entry(Kinds(true, false, true), CtlDel)
  const Dwc := Entry(Kinds(false, true, true), CtlDel)
  const Drwc := Entry(Kinds(true, true, true), CtlDel)
  const Mr := Entry(Kinds(true, false, false), CtlMod)
  const Mw := Entry(Kinds(false, true, false), CtlMod)
  const Mc := Entry(Kinds(false, false, true), CtlMod)
  const Mrw := Entry(Kinds(true, true, false), CtlMod)
  const Mrc := Entry(Kinds(true, false, true), CtlMod)
  const Mwc := Entry(Kinds(false, true, true), CtlMod)
  const Mrwc := Entry(Kinds(true, true, true), CtlMod)
  const N := Entry(NONE, NoOp)
  const X := Entry(NONE, Impossible)

  // old = 0; one line per write change, one group per read change
  const ROW0: seq<seq<seq<Entry>>> := [
    [[N, Ac, Dc, X], [Ar, Arc, Ar, X], [Dr, Ac, Drc, X], [X, X, X, X]],
    [[Aw, Awc, Aw, X], [Arw, Arwc, Arw, X], [Aw, Awc, Aw, X], [X, X, X, X]],
    [[Dw, Ac, Dwc, X], [Ar, Arc, Ar, X], [Drw, Ac, Drwc, X], [X, X, X, X]],
    [[X, X, X, X], [X, X, X, X], [X, X, X, X], [X, X, X, X]]]
  // old = r
  const ROW1: seq<seq<seq<Entry>>> := [
    [[N, Mrc, Mr, X], [Mr, Mrc, Mr, X], [Dr, Mc, Drc, X], [X, X, X, X]],
    [[Mrw, Mrwc, Mrw, X], [Mrw, Mrwc, Mrw, X], [Mw, Mwc, Mw, X], [X, X, X, X]],
    [[Mr, Mrc, Mr, X], [Mr, Mrc, Mr, X], [Drw, Mc, Drwc, X], [X, X, X, X]],
    [[X, X, X, X], [X, X, X, X], [X, X, X, X], [X, X, X, X]]]
  // old = w
  const ROW2: seq<seq<seq<Entry>>> := [
    [[N, Mwc, Mw, X], [Mrw, Mrwc, Mrw, X], [Mw, Mwc, Mw, X], [X, X, X, X]],
    [[Mw, Mwc, Mw, X], [Mrw, Mrwc, Mrw, X], [Mw, Mwc, Mw, X], [X, X, X, X]],
    [[Dw, Mc, Dwc, X], [Mr, Mrc, Mr, X], [Drw, Mc, Drwc, X], [X, X, X, X]],
    [[X, X, X, X], [X, X, X, X], [X, X, X, X], [X, X, X, X]]]
  // old = rw
  const ROW3: seq<seq<seq<Entry>>> := [
    [[N, Mrwc, Mrw, X], [Mrw, Mrwc, Mrw, X], [Mw, Mwc, Mw, X], [X, X, X, X]],
    [[Mrw, Mrwc, Mrw, X], [Mrw, Mrwc, Mrw, X], [Mw, Mwc, Mw, X], [X, X, X, X]],
    [[Mr, Mrc, Mr, X], [Mr, Mrc, Mr, X], [Drw, Mc, Drwc, X], [X, X, X, X]],
    [[X, X, X, X], [X, X, X, X], [X, X, X, X], [X, X, X, X]]]
  // old = c
  const ROW4: seq<seq<seq<Entry>>> := [
    [[N, Mc, Dc, X], [Mrc, Mrc, Mr, X], [Mc, Mc, Drc, X], [X, X, X, X]],
    [[Mwc, Mwc, Mw, X], [Mrwc, Mrwc, Mrw, X], [Mwc, Mwc, Mw, X], [X, X, X, X]],
    [[Mc, Mc, Dwc, X], [Mrc, Mrc, Mr, X], [Mc, Mc, Drwc, X], [X, X, X, X]],
    [[X, X, X, X], [X, X, X, X], [X, X, X, X], [X, X, X, X]]]
  // old = cr
  const ROW5: seq<seq<seq<Entry>>> := [
    [[N, Mrc, Mr, X], [Mrc, Mrc, Mr, X], [Mc, Mc, Drc, X], [X, X, X, X]],
    [[Mrwc, Mrwc, Mrw, X], [Mrwc, Mrwc, Mrw, X], [Mwc, Mwc, Mw, X], [X, X, X, X]],
    [[Mrc, Mrc, Mr, X], [Mrc, Mrc, Mr, X], [Mc, Mc, Drwc, X], [X, X, X, X]],
    [[X, X, X, X], [X, X, X, X], [X, X, X, X], [X, X, X, X]]]
  // old = cw
  const ROW6: seq<seq<seq<Entry>>> := [
    [[N, Mwc, Mw, X], [Mrwc, Mrwc, Mrw, X], [Mwc, Mwc, Mw, X], [X, X, X, X]],
    [[Mwc, Mwc, Mw, X], [Mrwc, Mrwc, Mrw, X], [Mwc, Mwc, Mw, X], [X, X, X, X]],
    [[Mc, Mc, Dwc, X], [Mrc, Mrc, Mr, X], [Mc, Mc, Drwc, X], [X, X, X, X]],
    [[X, X, X, X], [X, X, X, X], [X, X, X, X], [X, X, X, X]]]
  // old = crw
  const ROW7: seq<seq<seq<Entry>>> := [
    [[N, Mrwc, Mrw, X], [Mrwc, Mrwc, Mrw, X], [Mwc, Mwc, Mw, X], [X, X, X, X]],
    [[Mrwc, Mrwc, Mrw, X], [Mrwc, Mrwc, Mrw, X], [Mwc, Mwc, Mw, X], [X, X, X, X]],
    [[Mrc, Mrc, Mr, X], [Mrc, Mrc, Mr, X], [Mc, Mc, Drwc, X], [X, X, X, X]],
    [[X, X, X, X], [X, X, X, X], [X, X, X, X], [X, X, X, X]]]

  /** The rows of epoll_op_table, 64 entries each. */
  function Row(h: nat): seq<seq<seq<Entry>>>
    requires h < 8
  {
    match h
    case 0 => ROW0
    case 1 => ROW1
    case 2 => ROW2
    case 3 => ROW3
    case 4 => ROW4
    case 5 => ROW5
    case 6 => ROW6
    case _ => ROW7
  }

  predicate Shaped(row: seq<seq<seq<Entry>>>)
  {
    && |row| == 4
    && (forall i :: 0 <= i < 4 ==> |row[i]| == 4)
    && (forall i, j :: 0 <= i < 4 && 0 <= j < 4 ==> |row[i][j]| == 4)
  }

  lemma RowShape(h: nat)
    requires h < 8
    ensures Shaped(Row(h))
  {
  }

  /** struct event_change */
  datatype Record = Record(fd: int, had: Kinds, rc: Change, wc: Change, cc: Change)

  function Bits(c: Change): nat
  {
    match c
    case Keep => 0
    case Add => 1
    case Del => 2
    case Both => 3
  }

  /** EPOLL_OP_TABLE_INDEX */
  function Index(ch: Record): (i: nat)
    ensures i < 512
  {
    Bits(ch.cc) + 4 * Bits(ch.rc) + 16 * Bits(ch.wc) + 64 * Bit(ch.had.r) + 128 * Bit(ch.had.w) + 256 * Bit(ch.had.c)
  }

  /** A record none of whose changes is add+del. */
  predicate Possible(ch: Record)
  {
    ch.rc != Both && ch.wc != Both && ch.cc != Both
  }

  function Changed(c: Change, was: bool): bool
  {
    c == Add || (c != Del && was)
  }

  /** The interest a record asks for. */
  function Target(ch: Record): Kinds
  {
    Kinds(Changed(ch.rc, ch.had.r), Changed(ch.wc, ch.had.w), Changed(ch.cc, ch.had.c))
  }

  /** What a table entry makes of the interest the kernel has. */
  function Effect(e: Entry, have: Kinds): Kinds
  {
    match e.op
    case NoOp => have
    case CtlDel => NONE
    case _ => e.events
  }

  /** The entry is right for the record. */
  predicate Right(ch: Record, e: Entry)
  {
    && (e.op == Impossible <==> !Possible(ch))
    && (e.events == NONE <==> e.op == NoOp || e.op == Impossible)
    && (e.op == NoOp <==> ch.rc == ch.wc == ch.cc == Keep)
    && (e.op == CtlAdd ==> ch.had == NONE)
    && (e.op == CtlMod ==> ch.had != NONE)
    && (Possible(ch) ==> Effect(e, ch.had) == Target(ch))
  }

  /** Entry number i of the flat table. */
  function At(i: nat): Entry
    requires i < 512
  {
    RowShape(i / 64);
    Row(i / 64)[i / 16 % 4][i / 4 % 4][i % 4]
  }

  lemma Digits(c: nat, r: nat, w: nat, h: nat)
    requires c < 4 && r < 4 && w < 4
    ensures var i := c + 4 * r + 16 * w + 64 * h;
            i % 4 == c && i / 4 % 4 == r && i / 16 % 4 == w && i / 64 == h
  {
    var i := c + 4 * r + 16 * w + 64 * h;
    assert i / 4 == r + 4 * w + 16 * h;
    assert i / 16 == w + 4 * h;
  }

  lemma Row0(ch: Record)
    requires ch.had == Kinds(false, false, false)
    ensures Right(ch, ROW0[Bits(ch.wc)][Bits(ch.rc)][Bits(ch.cc)])
  {
  }

  lemma Row1(ch: Record)
    requires ch.had == Kinds(true, false, false)
    ensures Right(ch, ROW1[Bits(ch.wc)][Bits(ch.rc)][Bits(ch.cc)])
  {
  }

  lemma Row2(ch: Record)
    requires ch.had == Kinds(false, true, false)
    ensures Right(ch, ROW2[Bits(ch.wc)][Bits(ch.rc)][Bits(ch.cc)])
  {
  }

  lemma Row3(ch: Record)
    requires ch.had == Kinds(true, true, false)
    ensures Right(ch, ROW3[Bits(ch.wc)][Bits(ch.rc)][Bits(ch.cc)])
  {
  }

  lemma Row4(ch: Record)
    requires ch.had == Kinds(false, false, true)
    ensures Right(ch, ROW4[Bits(ch.wc)][Bits(ch.rc)][Bits(ch.cc)])
  {
  }

  lemma Row5(ch: Record)
    requires ch.had == Kinds(true, false, true)
    ensures Right(ch, ROW5[Bits(ch.wc)][Bits(ch.rc)][Bits(ch.cc)])
  {
  }

  lemma Row6(ch: Record)
    requires ch.had == Kinds(false, true, true)
    ensures Right(ch, ROW6[Bits(ch.wc)][Bits(ch.rc)][Bits(ch.cc)])
  {
  }

  lemma Row7(ch: Record)
    requires ch.had == Kinds(true, true, true)
    ensures Right(ch, ROW7[Bits(ch.wc)][Bits(ch.rc)][Bits(ch.cc)])
  {
  }

  lemma RowRight(ch: Record, h: nat)
    requires h == Bit(ch.had.r) + 2 * Bit(ch.had.w) + 4 * Bit(ch.had.c)
    ensures Shaped(Row(h)) && Right(ch, Row(h)[Bits(ch.wc)][Bits(ch.rc)][Bits(ch.cc)])
  {
    hide Right, Shaped;
    RowShape(h);
    match h {
      case 0 => Row0(ch);
      case 1 => Row1(ch);
      case 2 => Row2(ch);
      case 3 => Row3(ch);
      case 4 => Row4(ch);
      case 5 => Row5(ch);
      case 6 => Row6(ch);
      case _ => Row7(ch);
    }
  }

  /** Every entry of the table is right for the records that select it: it is the
      impossible one exactly for add+del, it does nothing exactly if nothing changes,
      and otherwise it gives the kernel the interest the record asks for. */
  lemma TableRight(ch: Record)
    ensures Right(ch, At(Index(ch)))
  {
    hide Right, Row;
    var h := Bit(ch.had.r) + 2 * Bit(ch.had.w) + 4 * Bit(ch.had.c);
    Digits(Bits(ch.cc), Bits(ch.rc), Bits(ch.wc), h);
    RowRight(ch, h);
  }

  /** The interest registered for a descriptor. */
  function Have(interest: map<int, Kinds>, fd: int): Kinds
  {
    if fd in interest then interest[fd] else NONE
  }

  datatype Errno = Ok | ENOENT | EEXIST

  /** The kernel's side of epoll, for descriptors that stay open. */
  class Kernel {
    var interest: map<int, Kinds>

    constructor ()
      ensures interest == map[]
    {
      interest := map[];
    }

    /** epoll_ctl */
    method Ctl(op: Op, fd: int, events: Kinds) returns (err: Errno)
      requires op == CtlAdd || op == CtlMod || op == CtlDel
      modifies this
      ensures err == if fd in old(interest) then (if op == CtlAdd then EEXIST else Ok)
                     else (if op == CtlAdd then Ok else ENOENT)
      ensures interest == if err != Ok then old(interest)
                          else if op == CtlDel then old(interest) - {fd} else old(interest)[fd := events]
    {
      if op == CtlAdd {
        if fd in interest {
          return EEXIST;
        }
        interest := interest[fd := events];
      } else {
        if fd !in interest {
          return ENOENT;
        }
        interest := if op == CtlMod then interest[fd := events] else interest - {fd};
      }
      err := Ok;
    }
  }

  /** The outcome of applying a change; Aborted is a failed EVUTIL_ASSERT. */
  datatype Outcome = Done | Failed | Aborted

  /** epoll_apply_one_change: a change meets its assertion exactly if it is possible,
      never fails on open descriptors, and gives the descriptor - and no other - the
      interest asked for whenever the record knows the interest the kernel has. */
  method ApplyOneChange(kernel: Kernel, ch: Record) returns (r: Outcome)
    modifies kernel
    ensures r == if Possible(ch) then Done else Aborted
    ensures forall fd :: fd != ch.fd ==> Have(kernel.interest, fd) == Have(old(kernel.interest), fd)
    ensures forall fd :: fd in kernel.interest ==> fd in old(kernel.interest) || (fd == ch.fd && Possible(ch))
    ensures Possible(ch) && ch.had == Have(old(kernel.interest), ch.fd) ==>
              Have(kernel.interest, ch.fd) == Target(ch)
    ensures !Possible(ch) ==> kernel.interest == old(kernel.interest)
  {
    hide At;
    TableRight(ch);
    var e := At(Index(ch));
    if e.events == NONE {
      return if e.op == NoOp then Done else Aborted;
    }
    var err := kernel.Ctl(e.op, ch.fd, e.events);
    if err == Ok {
      return Done;
    }
    match e.op {
      case CtlMod =>
        var err' := kernel.Ctl(CtlAdd, ch.fd, e.events);
        return if err' == Ok then Done else Failed;
      case CtlAdd =>
        var err' := kernel.Ctl(CtlMod, ch.fd, e.events);
        return if err' == Ok then Done else Failed;
      case _ =>
        return Done;
    }
  }
}

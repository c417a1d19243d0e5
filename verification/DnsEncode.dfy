/** evdns.c: writing domain names into a message, with a table of the names already
    written. */
module DnsEncode {
  import opened Bytes
  import opened DnsName

  /** strchr(text, '.'): the place of the first dot, or the end. */
  function FirstDot(text: seq<byte>): (d: nat)
    ensures d <= |text| && (d < |text| ==> text[d] == DOT)
  {
    if text == [] || text[0] == DOT then 0 else 1 + FirstDot(text[1..])
  }

  /** The parts of a text between its dots. */
  function Labels(text: seq<byte>): (ls: seq<seq<byte>>)
    ensures ls != []
    decreases |text|
  {
    var d := FirstDot(text);
    if d == |text| then [text] else [text[..d]] + Labels(text[d + 1..])
  }

  lemma {:induction false} TextLabels(text: seq<byte>)
    ensures Text(Labels(text)) == text
    decreases |text|
  {
    var d := FirstDot(text);
    if d < |text| {
      TextLabels(text[d + 1..]);
      assert Labels(text)[1..] == Labels(text[d + 1..]);
      assert text == text[..d] + [DOT] + text[d + 1..];
    }
  }

  /** A name as section 2.3.4 of RFC 1035 wants it, without a trailing dot. */
  ghost predicate WellFormed(name: seq<byte>)
  {
    && |name| <= 255
    && (forall i :: 0 <= i < |name| ==> name[i] != 0)
    && (forall i :: 0 <= i < |Labels(name)| ==> 1 <= |Labels(name)[i]| <= 63)
  }

  /** From `from` to `to` the message holds these labels, one after the other. */
  ghost predicate Laid(msg: seq<byte>, from: nat, labels: seq<seq<byte>>, to: nat)
    decreases |labels|
  {
    if labels == [] then from == to
    else
      && from < |msg| && 0 < msg[from] < 64 && from + 1 + msg[from] <= |msg|
      && labels[0] == msg[from + 1..from + 1 + msg[from]]
      && Laid(msg, from + 1 + msg[from], labels[1..], to)
  }

  lemma {:induction false} LaidSpells(msg: seq<byte>, from: nat, ls: seq<seq<byte>>, to: nat, rest: seq<seq<byte>>)
    requires Laid(msg, from, ls, to) && Spells(msg, to, rest)
    ensures Spells(msg, from, ls + rest) && Behind(msg, from) == Behind(msg, to)
    decreases |ls|
  {
    if ls == [] {
      assert ls + rest == rest;
    } else {
      LaidSpells(msg, from + 1 + msg[from], ls[1..], to, rest);
      assert (ls + rest)[1..] == ls[1..] + rest && (ls + rest)[0] == ls[0];
    }
  }

  lemma {:induction false} LaidMore(msg: seq<byte>, more: seq<byte>, from: nat, ls: seq<seq<byte>>, to: nat)
    requires Laid(msg, from, ls, to)
    ensures Laid(msg + more, from, ls, to)
    decreases |ls|
  {
    if ls != [] {
      var m, n := msg + more, from + 1 + msg[from];
      assert m[from] == msg[from] && m[from + 1..n] == msg[from + 1..n];
      LaidMore(msg, more, n, ls[1..], to);
    }
  }

  /** A label is written at the end of the message. */
  lemma {:induction false} LaidSnoc(msg: seq<byte>, from: nat, ls: seq<seq<byte>>, l: seq<byte>)
    requires Laid(msg, from, ls, |msg|) && 0 < |l| < 64
    ensures Laid(msg + [|l|] + l, from, ls + [l], |msg| + 1 + |l|)
    decreases |ls|
  {
    var m := msg + [|l|] + l;
    if ls == [] {
      assert m[from] == |l| && m[from + 1..from + 1 + |l|] == l;
      assert (ls + [l])[1..] == [];
    } else {
      var n := from + 1 + msg[from];
      assert m[from] == msg[from] && m[from + 1..n] == msg[from + 1..n];
      LaidSnoc(msg, n, ls[1..], l);
      assert (ls + [l])[1..] == ls[1..] + [l] && (ls + [l])[0] == ls[0];
    }
  }

  datatype Entry = Entry(text: seq<byte>, pos: nat)

  /** Every text in the table stands where the table says. */
  ghost predicate TableOk(es: seq<Entry>, msg: seq<byte>)
  {
    forall i :: 0 <= i < |es| ==> Spells(msg, es[i].pos, Labels(es[i].text))
  }

  ghost predicate Below(es: seq<Entry>, n: nat)
  {
    forall i :: 0 <= i < |es| ==> es[i].pos < n
  }

  /** struct dnslabel_table */
  class Table {
    var entries: seq<Entry>

    constructor ()
      ensures entries == []
    {
      entries := [];
    }

    /** dnslabel_table_get_pos */
    method GetPos(text: seq<byte>) returns (pos: int, ghost i: nat)
      ensures pos >= -1
      ensures pos == -1 ==> forall k :: 0 <= k < |entries| ==> entries[k].text != text
      ensures pos != -1 ==> i < |entries| && entries[i] == Entry(text, pos) && forall k :: 0 <= k < i ==> entries[k].text != text
    {
      i := 0;
      for k := 0 to |entries|
        invariant forall m :: 0 <= m < k ==> entries[m].text != text
      {
        if entries[k].text == text {
          return entries[k].pos, k;
        }
      }
      pos := -1;
    }

    /** dnslabel_table_add; a full table, or a failing copy, leaves it as it is. */
    method Add(text: seq<byte>, pos: nat, strdupOk: bool) returns (ok: bool)
      modifies this
      ensures ok <==> |old(entries)| != MAX_LABELS && strdupOk
      ensures entries == if ok then old(entries) + [Entry(text, pos)] else old(entries)
    {
      if |entries| == MAX_LABELS || !strdupOk {
        return false;
      }
      entries := entries + [Entry(text, pos)];
      ok := true;
    }
  }

  /** The entries made for the name being written: pend[m] lists the labels written since
      entry m, and the labels of `rest` are still to come. */
  ghost predicate Pending(es: seq<Entry>, pend: seq<seq<seq<byte>>>, msg: seq<byte>, rest: seq<byte>)
  {
    && |es| == |pend|
    && forall m :: 0 <= m < |es| ==>
         Laid(msg, es[m].pos, pend[m], |msg|) && Labels(es[m].text) == pend[m] + Labels(rest) && |es[m].text| > |rest|
  }

  function Extended(pend: seq<seq<seq<byte>>>, l: seq<byte>): (r: seq<seq<seq<byte>>>)
    ensures |r| == |pend|
  {
    seq(|pend|, m requires 0 <= m < |pend| => pend[m] + [l])
  }

  /** Writing the next label of the name. */
  lemma PendingStep(es: seq<Entry>, pend: seq<seq<seq<byte>>>, msg: seq<byte>, rest: seq<byte>, d: nat)
    requires Pending(es, pend, msg, rest) && d == FirstDot(rest) < |rest| && 0 < d < 64
    ensures var l := rest[..d]; Pending(es, Extended(pend, l), msg + [|l|] + l, rest[d + 1..])
  {
    hide Laid, Labels, FirstDot;
    Unfold(rest);
    var l := rest[..d];
    var p, m' := Extended(pend, l), msg + [|l|] + l;
    forall m | 0 <= m < |es|
      ensures Laid(m', es[m].pos, p[m], |m'|) && Labels(es[m].text) == p[m] + Labels(rest[d + 1..])
    {
      LaidSnoc(msg, es[m].pos, pend[m], l);
      assert pend[m] + ([l] + Labels(rest[d + 1..])) == (pend[m] + [l]) + Labels(rest[d + 1..]);
    }
  }

  /** Once the rest of the name stands at the end of the message, so do all its entries. */
  lemma PendingDone(es: seq<Entry>, pend: seq<seq<seq<byte>>>, msg: seq<byte>, more: seq<byte>, rest: seq<byte>)
    requires Pending(es, pend, msg, rest) && Spells(msg + more, |msg|, Labels(rest))
    ensures TableOk(es, msg + more)
  {
    forall m | 0 <= m < |es|
      ensures Spells(msg + more, es[m].pos, Labels(es[m].text))
    {
      LaidMore(msg, more, es[m].pos, pend[m], |msg|);
      LaidSpells(msg + more, es[m].pos, pend[m], |msg|, Labels(rest));
    }
  }

  lemma TableMore(es: seq<Entry>, msg: seq<byte>, more: seq<byte>)
    requires TableOk(es, msg)
    ensures TableOk(es, msg + more)
  {
    forall i | 0 <= i < |es|
      ensures Spells(msg + more, es[i].pos, Labels(es[i].text))
    {
      SpellsMore(msg, more, es[i].pos, Labels(es[i].text));
    }
  }

  lemma PendingNew(es: seq<Entry>, pend: seq<seq<seq<byte>>>, msg: seq<byte>, rest: seq<byte>, e: Entry, l: seq<byte>)
    requires Pending(es, pend, msg, rest)
    requires Laid(msg, e.pos, [l], |msg|) && Labels(e.text) == [l] + Labels(rest) && |e.text| > |rest|
    ensures Pending(es + [e], pend + [[l]], msg, rest)
  {
  }

  /** The last label of a name and its terminator. */
  lemma LastLabel(msg: seq<byte>, l: seq<byte>)
    requires 0 < |l| < 64
    ensures var m := msg + [|l|] + l + [0]; Spells(m, |msg|, [l]) && Behind(m, |msg|) == |m|
  {
    var m := msg + [|l|] + l + [0];
    var n := |msg| + 1 + |l|;
    assert m[|msg|] == |l| && m[|msg| + 1..n] == l && m[n] == 0;
    assert Spells(m, n, []);
    assert [l][1..] == [];
  }

  /** The two bytes of a pointer to pos. */
  function Pointer(pos: nat): seq<byte>
  {
    [192 + pos / 256 % 64, pos % 256]
  }

  /** A pointer leads to the position it is made for exactly if that is below 0x4000. */
  lemma PointerExact(pos: nat)
    ensures Target(Pointer(pos)[0], Pointer(pos)[1]) == pos <==> pos < REACH
  {
    var q := pos / 256;
    assert pos == q * 256 + pos % 256;
    assert (192 + q % 64) % 64 == q % 64;
    assert q < 64 <==> q % 64 == q;
  }

  lemma PointerSpells(msg: seq<byte>, pos: nat, labels: seq<seq<byte>>)
    requires Spells(msg, pos, labels) && pos < REACH
    ensures var m := msg + Pointer(pos); Spells(m, |msg|, labels) && Behind(m, |msg|) == |m|
  {
    var m := msg + Pointer(pos);
    PointerExact(pos);
    SpellsMore(msg, Pointer(pos), pos, labels);
    assert m[|msg|] == Pointer(pos)[0] && m[|msg| + 1] == Pointer(pos)[1];
  }

  /** memcpy to the end of what has been written. */
  method Append(buf: array<byte>, j: nat, data: seq<byte>, ghost start: nat)
    requires start <= j && j + |data| <= buf.Length
    modifies buf
    ensures buf[..j + |data|] == old(buf[..j]) + data && buf[..start] == old(buf[..start])
  {
    for k := 0 to |data|
      invariant buf[..j + k] == old(buf[..j]) + data[..k]
    {
      buf[j + k] := data[k];
      assert buf[..j + k + 1] == buf[..j + k] + [data[k]];
    }
    assert data[..|data|] == data;
    assert buf[..start] == buf[..j + |data|][..start] == old(buf[..j])[..start];
  }

  /** The name stands at `start`, just in front of `end`, and the table knows where its
      parts are. */
  ghost predicate Written(msg: seq<byte>, start: nat, name: seq<byte>, es: seq<Entry>)
  {
    Spells(msg, start, Labels(name)) && Behind(msg, start) == |msg| && TableOk(es, msg)
  }

  /** What is known while a well-formed name is being written: `rest` is still to come. */
  ghost predicate Writing(msg: seq<byte>, start: nat, name: seq<byte>, rest: seq<byte>, done: seq<seq<byte>>,
                          es0: seq<Entry>, es: seq<Entry>, pend: seq<seq<seq<byte>>>)
  {
    && WellFormed(rest) && Laid(msg, start, done, |msg|) && Labels(name) == done + Labels(rest)
    && start <= |msg| && TableOk(es0, msg) && es0 <= es && Pending(es[|es0|..], pend, msg, rest)
  }

  lemma StartWriting(msg: seq<byte>, name: seq<byte>, es: seq<Entry>)
    requires WellFormed(name) && TableOk(es, msg)
    ensures Writing(msg, |msg|, name, name, [], es, es, [])
  {
    assert [] + Labels(name) == Labels(name);
    assert es[|es|..] == [];
  }

  /** A pointer finishes the name. */
  lemma FinishPointer(msg: seq<byte>, start: nat, name: seq<byte>, rest: seq<byte>, done: seq<seq<byte>>,
                      es0: seq<Entry>, es: seq<Entry>, pend: seq<seq<seq<byte>>>, i: nat)
    requires Writing(msg, start, name, rest, done, es0, es, pend)
    requires i < |es| && es[i].text == rest && es[i].pos < REACH
    ensures Written(msg + Pointer(es[i].pos), start, name, es)
  {
    var added, more := es[|es0|..], Pointer(es[i].pos);
    assert forall k :: |es0| <= k < |es| ==> es[k] == added[k - |es0|];
    assert i < |es0| && es0[i] == es[i];
    PointerSpells(msg, es[i].pos, Labels(rest));
    Finish(msg, start, name, rest, done, es0, es, pend, more);
  }

  lemma Finish(msg: seq<byte>, start: nat, name: seq<byte>, rest: seq<byte>, done: seq<seq<byte>>,
               es0: seq<Entry>, es: seq<Entry>, pend: seq<seq<seq<byte>>>, more: seq<byte>)
    requires Writing(msg, start, name, rest, done, es0, es, pend)
    requires Spells(msg + more, |msg|, Labels(rest)) && Behind(msg + more, |msg|) == |msg + more|
    ensures Written(msg + more, start, name, es)
  {
    var added := es[|es0|..];
    TableMore(es0, msg, more);
    PendingDone(added, pend, msg, more, rest);
    assert es == es0 + added;
    LaidMore(msg, more, start, done, |msg|);
    LaidSpells(msg + more, start, done, |msg|, Labels(rest));
  }

  lemma Unfold(rest: seq<byte>)
    ensures var d := FirstDot(rest);
            if d == |rest| then Labels(rest) == [rest] else Labels(rest) == [rest[..d]] + Labels(rest[d + 1..])
  {
    hide FirstDot;
  }

  lemma TailOk(rest: seq<byte>, t: seq<byte>, l: seq<byte>)
    requires WellFormed(rest) && Labels(rest) == [l] + Labels(t)
    requires |t| <= |rest| && t == rest[|rest| - |t|..]
    ensures WellFormed(t) && 0 < |l| < 64
  {
    hide Labels, FirstDot;
    var ls, lt := Labels(rest), Labels(t);
    assert ls[0] == l;
    forall i | 0 <= i < |lt|
      ensures 1 <= |lt[i]| <= 63
    {
      assert lt[i] == ls[i + 1];
    }
  }

  lemma OnlyLabel(rest: seq<byte>)
    requires WellFormed(rest) && Labels(rest) == [rest]
    ensures 0 < |rest| < 64
  {
    hide Labels, FirstDot;
    var ls := Labels(rest);
    assert ls[0] == rest;
  }

  lemma LabelsHead(rest: seq<byte>)
    requires WellFormed(rest)
    ensures var d := FirstDot(rest);
            && 0 < d < 64
            && (d == |rest| ==> Labels(rest) == [rest])
            && (d < |rest| ==> Labels(rest) == [rest[..d]] + Labels(rest[d + 1..]) && WellFormed(rest[d + 1..]))
  {
    hide Labels, FirstDot, WellFormed;
    Unfold(rest);
    var d := FirstDot(rest);
    if d < |rest| {
      TailOk(rest, rest[d + 1..], rest[..d]);
    } else {
      OnlyLabel(rest);
    }
  }

  /** One label is written, and perhaps entered in the table. */
  lemma NextLabel(msg: seq<byte>, start: nat, name: seq<byte>, rest: seq<byte>, done: seq<seq<byte>>,
                  es0: seq<Entry>, es: seq<Entry>, pend: seq<seq<seq<byte>>>, entered: bool)
    requires Writing(msg, start, name, rest, done, es0, es, pend) && FirstDot(rest) < |rest|
    ensures var d := FirstDot(rest);
            var l := rest[..d];
            Writing(msg + [|l|] + l, start, name, rest[d + 1..], done + [l], es0,
                    if entered then es + [Entry(rest, |msg|)] else es,
                    if entered then Extended(pend, l) + [[l]] else Extended(pend, l))
  {
    hide WellFormed, TableOk, Pending, Laid, Labels;
    var d := FirstDot(rest);
    var l, rest' := rest[..d], rest[d + 1..];
    var msg', added := msg + [|l|] + l, es[|es0|..];
    LabelsHead(rest);
    LaidSnoc(msg, start, done, l);
    TableMore(es0, msg, [|l|] + l);
    assert msg + ([|l|] + l) == msg';
    PendingStep(added, pend, msg, rest, d);
    assert done + ([l] + Labels(rest')) == (done + [l]) + Labels(rest');
    if entered {
      NoneLaid(msg);
      LaidSnoc(msg, |msg|, [], l);
      assert [] + [l] == [l];
      PendingNew(added, Extended(pend, l), msg', rest', Entry(rest, |msg|), l);
      assert (es + [Entry(rest, |msg|)])[|es0|..] == added + [Entry(rest, |msg|)];
    }
  }

  lemma NoneLaid(msg: seq<byte>)
    ensures Laid(msg, |msg|, [], |msg|)
  {
  }

  /** The last label and the terminator finish the name. */
  lemma FinishLabel(msg: seq<byte>, start: nat, name: seq<byte>, rest: seq<byte>, done: seq<seq<byte>>,
                    es0: seq<Entry>, es: seq<Entry>, pend: seq<seq<seq<byte>>>, entered: bool)
    requires Writing(msg, start, name, rest, done, es0, es, pend) && FirstDot(rest) == |rest|
    ensures Written(msg + [|rest|] + rest + [0], start, name, if entered then es + [Entry(rest, |msg|)] else es)
  {
    hide WellFormed, Pending, Laid, Labels, Writing, TableOk, FirstDot;
    RestOk(msg, start, name, rest, done, es0, es, pend);
    LabelsHead(rest);
    LastLabel(msg, rest);
    var more := [|rest|] + rest + [0];
    assert msg + more == msg + [|rest|] + rest + [0];
    Finish(msg, start, name, rest, done, es0, es, pend, more);
    TableSnoc(es, msg + more, Entry(rest, |msg|));
  }

  lemma TableSnoc(es: seq<Entry>, msg: seq<byte>, e: Entry)
    requires TableOk(es, msg) && Spells(msg, e.pos, Labels(e.text))
    ensures TableOk(es + [e], msg)
  {
  }

  lemma RestOk(msg: seq<byte>, start: nat, name: seq<byte>, rest: seq<byte>, done: seq<seq<byte>>,
               es0: seq<Entry>, es: seq<Entry>, pend: seq<seq<seq<byte>>>)
    requires Writing(msg, start, name, rest, done, es0, es, pend)
    ensures WellFormed(rest)
  {
  }

  /** What is known, if anything, while a name is being written. */
  ghost predicate Progress(wf: bool, msg: seq<byte>, start: nat, name: seq<byte>, rest: seq<byte>, done: seq<seq<byte>>,
                           es0: seq<Entry>, es: seq<Entry>, pend: seq<seq<seq<byte>>>)
  {
    && (WellFormed(name) ==> WellFormed(rest))
    && (wf ==> Writing(msg, start, name, rest, done, es0, es, pend))
  }

  ghost predicate Result(wf: bool, msg: seq<byte>, start: nat, name: seq<byte>, es: seq<Entry>)
  {
    wf ==> Written(msg, start, name, es)
  }

  /** dnsname_to_labels: the rest of the name is in the table. */
  method PutPointer(buf: array<byte>, bufLen: nat, j: nat, ref: nat, ghost start: nat, ghost name: seq<byte>, ghost rest: seq<byte>,
                    ghost done: seq<seq<byte>>, ghost es0: seq<Entry>, ghost es: seq<Entry>, ghost pend: seq<seq<seq<byte>>>,
                    ghost wf: bool, ghost at: nat) returns (r: int)
    requires start <= j <= bufLen <= buf.Length && at < |es| && es[at] == Entry(rest, ref)
    requires Progress(wf, buf[..j], start, name, rest, done, es0, es, pend)
    modifies buf
    ensures r == if j + 2 > bufLen then -2 else j + 2
    ensures buf[..start] == old(buf[..start])
    ensures r >= 0 && ref < REACH ==> Result(wf, buf[..r], start, name, es)
  {
    hide WellFormed, Writing, Written, Labels;
    if j + 2 > bufLen {
      return -2;
    }
    Append(buf, j, Pointer(ref), start);
    if wf && ref < REACH {
      FinishPointer(old(buf[..j]), start, name, rest, done, es0, es, pend, at);
    }
    r := j + 2;
  }

  /** dnsname_to_labels: one label that is not the last. */
  method PutLabel(buf: array<byte>, j: nat, d: nat, rest: seq<byte>, ghost start: nat, ghost name: seq<byte>,
                  ghost done: seq<seq<byte>>, ghost es0: seq<Entry>, ghost es: seq<Entry>, ghost pend: seq<seq<seq<byte>>>,
                  ghost wf: bool, ghost entered: bool)
    returns (ghost done': seq<seq<byte>>, ghost pend': seq<seq<seq<byte>>>)
    requires start <= j && j + d + 1 <= buf.Length && d == FirstDot(rest) < |rest| && d <= 63
    requires Progress(wf, buf[..j], start, name, rest, done, es0, es, pend)
    modifies buf
    ensures buf[..start] == old(buf[..start])
    ensures Progress(wf, buf[..j + d + 1], start, name, rest[d + 1..], done', es0,
                     if entered then es + [Entry(rest, j)] else es, pend')
  {
    hide WellFormed, Writing, Written, Labels, Extended;
    ghost var msg := buf[..j];
    var l := rest[..d];
    Append(buf, j, [d] + l, start);
    assert msg + ([d] + l) == msg + [d] + l;
    done', pend' := done + [l], if entered then Extended(pend, l) + [[l]] else Extended(pend, l);
    if WellFormed(name) {
      LabelsHead(rest);
    }
    if wf {
      NextLabel(msg, start, name, rest, done, es0, es, pend, entered);
    }
  }

  /** dnsname_to_labels: the last label, and the terminator if there is none yet. The
      terminator is written without regard to the length of the buffer; `outside` says that
      it goes behind the last byte. */
  method PutLast(buf: array<byte>, j: nat, rest: seq<byte>, ghost start: nat, ghost name: seq<byte>,
                 ghost done: seq<seq<byte>>, ghost es0: seq<Entry>, ghost es: seq<Entry>, ghost pend: seq<seq<seq<byte>>>,
                 ghost wf: bool, ghost entered: bool) returns (r: nat, outside: bool)
    requires start <= j && j + |rest| + 1 <= buf.Length && FirstDot(rest) == |rest| <= 63
    requires Progress(wf, buf[..j], start, name, rest, done, es0, es, pend)
    modifies buf
    ensures r == j + |rest| + 1 + if Ends(rest) then 1 else 0
    ensures outside <==> r > buf.Length
    ensures buf[..start] == old(buf[..start])
    ensures !outside ==> Result(wf, buf[..r], start, name, if entered then es + [Entry(rest, j)] else es)
  {
    hide WellFormed, Writing, Written, Labels;
    ghost var msg := buf[..j];
    Append(buf, j, [|rest|] + rest, start);
    assert msg + ([|rest|] + rest) == msg + [|rest|] + rest;
    r := j + |rest| + 1;
    assert buf[r - 1] == buf[..r][r - 1];
    if wf {
      RestOk(msg, start, name, rest, done, es0, es, pend);
      LastByte(msg, rest);
      FinishLabel(msg, start, name, rest, done, es0, es, pend, entered);
    }
    outside := false;
    if buf[r - 1] != 0 {
      outside := r == buf.Length;
      if !outside {
        Append(buf, r, [0], start);
      }
      r := r + 1;
    }
  }

  /** The text ends in a byte that is not taken for the terminator. */
  predicate Ends(text: seq<byte>)
  {
    text != [] && text[|text| - 1] != 0
  }

  ghost predicate InTable(es: seq<Entry>, text: seq<byte>)
  {
    exists k :: 0 <= k < |es| && es[k].text == text
  }

  /** The table has neither the name nor what follows one of its dots. */
  ghost predicate Fresh(es: seq<Entry>, name: seq<byte>)
    decreases |name|
  {
    !InTable(es, name) && (FirstDot(name) == |name| || Fresh(es, name[FirstDot(name) + 1..]))
  }

  ghost predicate ShortLabels(name: seq<byte>)
    decreases |name|
  {
    FirstDot(name) <= 63 && (FirstDot(name) == |name| || ShortLabels(name[FirstDot(name) + 1..]))
  }

  /** The terminator of the name is written at bufLen: the whole name is written out, its
      last label ends just there, and it does not end in a dot or a zero. */
  ghost predicate Overruns(es: seq<Entry>, name: seq<byte>, start: nat, bufLen: nat)
  {
    |name| <= 255 && ShortLabels(name) && Fresh(es, name) && start + |name| + 1 == bufLen && Ends(name) && name[|name| - 1] != DOT
  }

  /** The entries made for the name being written are longer than what is still to come. */
  ghost predicate Longer(es0: seq<Entry>, es: seq<Entry>, n: nat)
  {
    es0 <= es && forall k :: |es0| <= k < |es| ==> |es[k].text| > n
  }

  lemma FoundBefore(es0: seq<Entry>, es: seq<Entry>, rest: seq<byte>)
    requires Longer(es0, es, |rest|)
    ensures InTable(es, rest) ==> InTable(es0, rest)
    ensures InTable(es0, rest) ==> InTable(es, rest)
  {
    if InTable(es0, rest) {
      var k :| 0 <= k < |es0| && es0[k].text == rest;
      assert es[k].text == rest;
    }
  }

  /** What the rest of the name says about the whole. */
  ghost predicate Same(es0: seq<Entry>, name: seq<byte>, rest: seq<byte>)
  {
    && (Fresh(es0, name) <==> Fresh(es0, rest)) && (ShortLabels(name) <==> ShortLabels(rest))
    && (Ends(name) && name[|name| - 1] != DOT <==> Ends(rest) && rest[|rest| - 1] != DOT)
  }

  lemma SameNext(es0: seq<Entry>, name: seq<byte>, rest: seq<byte>)
    requires Same(es0, name, rest) && !InTable(es0, rest) && FirstDot(rest) < |rest| && FirstDot(rest) <= 63
    ensures Same(es0, name, rest[FirstDot(rest) + 1..])
  {
    hide Fresh, ShortLabels, InTable, FirstDot, Ends;
    FreshNext(es0, rest);
    EndsNext(rest, FirstDot(rest) + 1);
  }

  lemma FreshNext(es0: seq<Entry>, rest: seq<byte>)
    requires !InTable(es0, rest) && FirstDot(rest) < |rest| && FirstDot(rest) <= 63
    ensures Fresh(es0, rest) <==> Fresh(es0, rest[FirstDot(rest) + 1..])
    ensures ShortLabels(rest) <==> ShortLabels(rest[FirstDot(rest) + 1..])
  {
    hide InTable, FirstDot;
  }

  lemma EndsNext(rest: seq<byte>, n: nat)
    requires 0 < n <= |rest| && rest[n - 1] == DOT
    ensures Ends(rest) && rest[|rest| - 1] != DOT <==> Ends(rest[n..]) && rest[n..][|rest| - n - 1] != DOT
  {
  }

  /** dnsname_to_labels. On success a well-formed name stands at `start`, provided no
      pointer had to reach past 0x4000; and there is success if there is room for the
      name without compression. The terminator is written without a check: in one case,
      which is stated exactly, it goes to position bufLen. `outside` says that the buffer
      has no such position. */
  method ToLabels(buf: array<byte>, bufLen: nat, start: nat, name: seq<byte>, table: Table, strdupOk: nat -> bool)
    returns (r: int, outside: bool, ghost far: bool)
    requires start <= bufLen <= buf.Length
    modifies buf, table
    ensures r == -1 || r == -2 || (start <= r <= start + |name| + 2 && r <= bufLen + 1)
    ensures r == bufLen + 1 <==> Overruns(old(table.entries), name, start, bufLen)
    ensures outside <==> r > buf.Length
    ensures buf[..start] == old(buf[..start])
    ensures far ==> !Below(table.entries, REACH)
    ensures Below(old(table.entries), bufLen) ==> Below(table.entries, bufLen)
    ensures r >= 0 && !outside && !far && WellFormed(name) && TableOk(old(table.entries), old(buf[..start])) ==>
              Written(buf[..r], start, name, table.entries)
    ensures WellFormed(name) ==> r != -1 && (start + |name| + 1 <= bufLen ==> r >= 0)
    ensures |name| > 255 ==> r == -2 && table.entries == old(table.entries)
  {
    hide WellFormed, TableOk, Written, Labels, Progress, Below, FirstDot, Result, Known, InTable, Overruns, Ends;
    far, outside := false, false;
    SizeOf(name);
    if |name| > 255 {
      return -2, false, false;
    }
    ghost var es0, wf := table.entries, WellFormed(name) && TableOk(table.entries, buf[..start]);
    ghost var done: seq<seq<byte>>, pend: seq<seq<seq<byte>>> := [], [];
    var i: nat, j: nat := 0, start;
    Begin(wf, buf[..start], name, es0);
    while true
      invariant i <= |name| && j == start + i <= bufLen
      invariant buf[..start] == old(buf[..start])
      invariant Below(es0, bufLen) ==> Below(table.entries, bufLen)
      invariant Progress(wf, buf[..j], start, name, name[i..], done, es0, table.entries, pend)
      invariant Known(es0, table.entries, name, name[i..])
      decreases |name| - i
    {
      var rest := name[i..];
      ghost var es := table.entries;
      RestRoom(wf, buf[..j], start, name, rest, done, es0, es, pend);
      var ref, at := table.GetPos(rest);
      Decided(es0, es, name, rest, start, bufLen, ref, at);
      if ref >= 0 {
        r := PutPointer(buf, bufLen, j, ref, start, name, rest, done, es0, es, pend, wf, at);
        far := r >= 0 && ref >= REACH;
        if r >= 0 && !far {
          ResultOk(wf, buf[..r], start, name, es);
        }
        NotBelow(es, at, REACH);
        return;
      }
      var d := FirstDot(rest);
      if d > 63 {
        return -1, false, false;
      }
      if j + d + 1 > bufLen {
        return -2, false, false;
      }
      var entered := table.Add(rest, j, strdupOk(j));
      BelowSnoc(es, Entry(rest, j), bufLen);
      if d == |rest| {
        r, outside := PutLast(buf, j, rest, start, name, done, es0, es, pend, wf, entered);
        if !outside {
          ResultOk(wf, buf[..r], start, name, table.entries);
        }
        return;
      }
      done, pend := PutLabel(buf, j, d, rest, start, name, done, es0, es, pend, wf, entered);
      KnownNext(es0, es, name, rest, j);
      assert rest[d + 1..] == name[i + d + 1..];
      i := i + d + 1;
      j := j + d + 1;
    }
  }

  /** What a look at the table and the rest decides. */
  lemma Decided(es0: seq<Entry>, es: seq<Entry>, name: seq<byte>, rest: seq<byte>, start: nat, bufLen: nat, ref: int, at: nat)
    requires Known(es0, es, name, rest) && |rest| <= |name| <= 255
    requires ref == -1 ==> forall k :: 0 <= k < |es| ==> es[k].text != rest
    requires ref != -1 ==> at < |es| && es[at].text == rest
    ensures var j := start + |name| - |rest|;
            && (ref != -1 || FirstDot(rest) > 63 || j + FirstDot(rest) + 1 > bufLen ==> !Overruns(es0, name, start, bufLen))
            && (FirstDot(rest) == |rest| <= 63 && ref == -1 ==>
                  (Overruns(es0, name, start, bufLen) <==> j + |rest| + 1 == bufLen && Ends(rest)))
  {
    FoundBefore(es0, es, rest);
    Looked(es, rest, ref, at);
    if FirstDot(rest) == |rest| && rest != [] {
      NoDot(rest, |rest| - 1);
    }
  }

  /** What is known about the name when only the rest of it is still to be written. */
  ghost predicate Known(es0: seq<Entry>, es: seq<Entry>, name: seq<byte>, rest: seq<byte>)
  {
    Longer(es0, es, |rest|) && Same(es0, name, rest)
  }

  lemma KnownNext(es0: seq<Entry>, es: seq<Entry>, name: seq<byte>, rest: seq<byte>, j: nat)
    requires Known(es0, es, name, rest) && FirstDot(rest) < |rest| && FirstDot(rest) <= 63
    requires forall k :: 0 <= k < |es| ==> es[k].text != rest
    ensures var t := rest[FirstDot(rest) + 1..]; Known(es0, es, name, t) && Known(es0, es + [Entry(rest, j)], name, t)
  {
    FoundBefore(es0, es, rest);
    LongerSnoc(es0, es, Entry(rest, j), FirstDot(rest));
    SameNext(es0, name, rest);
  }

  lemma {:induction false} NoDot(text: seq<byte>, k: nat)
    requires k < FirstDot(text)
    ensures text[k] != DOT
  {
    if k > 0 {
      NoDot(text[1..], k - 1);
    }
  }

  lemma Looked(es: seq<Entry>, text: seq<byte>, pos: int, i: nat)
    requires pos == -1 ==> forall k :: 0 <= k < |es| ==> es[k].text != text
    requires pos != -1 ==> i < |es| && es[i].text == text
    ensures pos != -1 <==> InTable(es, text)
  {
  }

  lemma LongerSnoc(es0: seq<Entry>, es: seq<Entry>, e: Entry, d: nat)
    requires Longer(es0, es, |e.text|)
    ensures d < |e.text| ==> Longer(es0, es, |e.text| - d - 1) && Longer(es0, es + [e], |e.text| - d - 1)
  {
  }

  lemma BelowSnoc(es: seq<Entry>, e: Entry, n: nat)
    ensures Below(es, n) && e.pos < n ==> Below(es + [e], n)
  {
  }

  lemma NotBelow(es: seq<Entry>, at: nat, n: nat)
    requires at < |es|
    ensures es[at].pos >= n ==> !Below(es, n)
  {
  }

  lemma ResultOk(wf: bool, msg: seq<byte>, start: nat, name: seq<byte>, es: seq<Entry>)
    requires Result(wf, msg, start, name, es)
    ensures wf ==> Written(msg, start, name, es)
  {
  }

  lemma Begin(wf: bool, msg: seq<byte>, name: seq<byte>, es: seq<Entry>)
    requires wf ==> WellFormed(name) && TableOk(es, msg)
    ensures Progress(wf, msg, |msg|, name, name[0..], [], es, es, []) && Known(es, es, name, name[0..])
  {
    assert name[0..] == name;
    if wf {
      StartWriting(msg, name, es);
    }
  }

  lemma RestRoom(wf: bool, msg: seq<byte>, start: nat, name: seq<byte>, rest: seq<byte>, done: seq<seq<byte>>,
                 es0: seq<Entry>, es: seq<Entry>, pend: seq<seq<seq<byte>>>)
    requires Progress(wf, msg, start, name, rest, done, es0, es, pend)
    ensures WellFormed(name) ==> |rest| >= 1 && FirstDot(rest) <= 63
  {
    hide Writing;
    if WellFormed(name) {
      LabelsHead(rest);
    }
  }

  /** The last byte of the last label is not taken for a terminator. */
  lemma LastByte(msg: seq<byte>, rest: seq<byte>)
    requires WellFormed(rest)
    ensures rest != [] && var m := msg + [|rest|] + rest; m[|m| - 1] != 0
  {
    LabelsHead(rest);
  }

  lemma SizeOf(name: seq<byte>)
    ensures WellFormed(name) ==> |name| <= 255
    ensures forall es, start, n :: Overruns(es, name, start, n) ==> |name| <= 255
  {
  }

  /** In a buffer of 1500 bytes, as evdns_server_request_format_response has it, a name of
      one letter at 1498 gets its terminator behind the last byte. */
  method TerminatorBehind() returns (buf: array<byte>, r: int, outside: bool)
    ensures buf.Length == 1500 && r == 1501 && outside
  {
    buf := new byte[1500];
    var table := new Table();
    ghost var far;
    assert FirstDot([97]) == 1;
    assert Overruns([], [97], 1498, 1500);
    r, outside, far := ToLabels(buf, 1500, 1498, [97], table, j => true);
  }
}

/** Whole messages: names written one after the other with a shared table, other data
    between them, read back by name_parse. */
module DnsMessage {
  import opened Bytes
  import opened DnsName
  import opened DnsEncode

  datatype Item = Name(text: seq<byte>) | Raw(data: seq<byte>)

  /** Item number i of the message is where `at` says it is. */
  ghost predicate Placed(msg: seq<byte>, items: seq<Item>, at: seq<nat>, i: nat)
    requires |at| == |items| + 1 && i < |items|
  {
    items[i].Name? ==>
      && Spells(msg, at[i], Labels(items[i].text))
      && Behind(msg, at[i]) == at[i + 1]
  }

  ghost predicate AllPlaced(msg: seq<byte>, items: seq<Item>, at: seq<nat>)
  {
    |at| == |items| + 1 && forall i :: 0 <= i < |items| ==> Placed(msg, items, at, i)
  }

  /** Everything written so far is in its place, and the table is right. */
  ghost predicate Good(msg: seq<byte>, items: seq<Item>, at: seq<nat>, es: seq<Entry>)
  {
    AllPlaced(msg, items, at) && TableOk(es, msg) && at[|items|] == |msg|
  }

  lemma GoodRaw(msg: seq<byte>, items: seq<Item>, at: seq<nat>, es: seq<Entry>, data: seq<byte>)
    requires Good(msg, items, at, es)
    ensures Good(msg + data, items + [Raw(data)], at + [|msg| + |data|], es)
  {
    hide TableOk, Labels;
    TableMore(es, msg, data);
    Kept(msg, data, items, at, Raw(data), |msg| + |data|);
  }

  lemma GoodName(msg: seq<byte>, items: seq<Item>, at: seq<nat>, es: seq<Entry>, text: seq<byte>, more: seq<byte>, es': seq<Entry>)
    requires Good(msg, items, at, es) && Written(msg + more, |msg|, text, es')
    ensures Good(msg + more, items + [Name(text)], at + [|msg| + |more|], es')
  {
    hide TableOk, Labels, Spells, Behind;
    Kept(msg, more, items, at, Name(text), |msg| + |more|);
  }

  lemma Kept(msg: seq<byte>, more: seq<byte>, items: seq<Item>, at: seq<nat>, item: Item, end: nat)
    requires AllPlaced(msg, items, at)
    requires at[|items|] == |msg|
    requires item.Name? ==> Spells(msg + more, |msg|, Labels(item.text)) && Behind(msg + more, |msg|) == end
    ensures AllPlaced(msg + more, items + [item], at + [end])
  {
    hide Labels;
    var items', at' := items + [item], at + [end];
    forall i | 0 <= i < |items'|
      ensures Placed(msg + more, items', at', i)
    {
      if i < |items| {
        assert Placed(msg, items, at, i);
        if items[i].Name? {
          SpellsMore(msg, more, at[i], Labels(items[i].text));
        }
      }
    }
  }

  /** The room the items need without compression. */
  function Size(items: seq<Item>): nat
  {
    if items == [] then 0 else ItemSize(items[0]) + Size(items[1..])
  }

  function ItemSize(item: Item): nat
  {
    if item.Name? then |item.text| + 2 else |item.data|
  }

  /** Writes the items, as long as they and their terminators fit; if there is room for
      them without compression, they do. Where the buffer has at most 0x4000 bytes, as for
      every caller with a table, no pointer has to reach too far. */
  method WriteMessage(buf: array<byte>, bufLen: nat, items: seq<Item>, table: Table, strdupOk: nat -> bool)
    returns (ok: bool, len: nat, at: seq<nat>, ghost far: bool)
    requires bufLen <= buf.Length && table.entries == []
    requires forall i :: 0 <= i < |items| && items[i].Name? ==> WellFormed(items[i].text)
    modifies buf, table
    ensures ok ==> len <= bufLen
    ensures ok && !far ==> AllPlaced(buf[..len], items, at)
    ensures bufLen <= REACH ==> !far
    ensures Size(items) <= bufLen ==> ok
  {
    hide WellFormed, Good, Written, AllPlaced, TableOk, Size, Overruns;
    len, at, far := 0, [0], false;
    Nothing();
    NoSize(items);
    for i := 0 to |items|
      invariant len <= bufLen && len <= Size(items[..i])
      invariant !far ==> Good(buf[..len], items[..i], at, table.entries)
      invariant Below(table.entries, bufLen) && (bufLen <= REACH ==> !far)
    {
      ghost var msg, es := buf[..len], table.entries;
      SizeAt(items, i);
      var end: nat;
      match items[i] {
        case Raw(data) =>
          if len + |data| > bufLen {
            return false, len, at, far;
          }
          Append(buf, len, data, len);
          end := len + |data|;
          if !far {
            GoodRaw(msg, items[..i], at, es, data);
          }
        case Name(text) =>
          var r, outside;
          ghost var f;
          if !far {
            GoodTable(msg, items[..i], at, es);
          }
          r, outside, f := ToLabels(buf, bufLen, len, text, table, strdupOk);
          if r < 0 || r > bufLen {
            return false, len, at, far;
          }
          end := r;
          assert buf[..end] == msg + buf[len..end];
          if !far && !f {
            GoodName(msg, items[..i], at, es, text, buf[len..end], table.entries);
          }
          far := far || f;
      }
      assert items[..i + 1] == items[..i] + [items[i]];
      at := at + [end];
      len := end;
    }
    ok := true;
    assert items[..|items|] == items;
    if !far {
      GoodPlaced(buf[..len], items, at, table.entries);
    }
  }

  lemma NoSize(items: seq<Item>)
    ensures Size(items[..0]) == 0
  {
  }

  lemma {:induction false} SizeAt(items: seq<Item>, i: nat)
    requires i < |items|
    ensures Size(items[..i + 1]) == Size(items[..i]) + ItemSize(items[i]) <= Size(items)
  {
    if i == 0 {
      assert items[..1] == [items[0]];
    } else {
      SizeAt(items[1..], i - 1);
      assert items[..i + 1][1..] == items[1..][..i] && items[..i][1..] == items[1..][..i - 1];
    }
  }

  lemma Nothing()
    ensures Good([], [], [0], [])
  {
  }

  lemma GoodTable(msg: seq<byte>, items: seq<Item>, at: seq<nat>, es: seq<Entry>)
    requires Good(msg, items, at, es)
    ensures TableOk(es, msg)
  {
  }

  lemma GoodPlaced(msg: seq<byte>, items: seq<Item>, at: seq<nat>, es: seq<Entry>)
    requires Good(msg, items, at, es)
    ensures AllPlaced(msg, items, at)
  {
  }

  /** Reading a name back gives its text and the position behind it. */
  method ReadName(packet: seq<byte>, at: nat, nameOutLen: nat, ghost text: seq<byte>) returns (ok: bool, next: nat, name: seq<byte>)
    requires Spells(packet, at, Labels(text)) && WellFormed(text) && |text| < nameOutLen
    ensures ok && name == text && next == Behind(packet, at)
  {
    hide Spells, Behind, Labels, Leads, Text;
    TextLabels(text);
    ghost var h := SpellsLeads(packet, at, Labels(text));
    ghost var hops, ls;
    ok, next, name, hops, ls := NameParse(packet, at, nameOutLen);
    if ok {
      LeadsUnique(packet, at, h, Labels(text), hops, ls);
    }
  }

  /** Every list of well-formed names and other data, written to one message with a
      shared table, is read back as it was: each name where it was written, and the
      index after it where the next item begins. Any list that fits without compression is
      written. */
  method RoundTrip(buf: array<byte>, bufLen: nat, items: seq<Item>, table: Table, strdupOk: nat -> bool, nameOutLen: nat)
    returns (ok: bool, at: seq<nat>, names: seq<seq<byte>>, nexts: seq<nat>)
    requires bufLen <= buf.Length && bufLen <= REACH && table.entries == [] && nameOutLen > 255
    requires forall i :: 0 <= i < |items| && items[i].Name? ==> WellFormed(items[i].text)
    modifies buf, table
    ensures Size(items) <= bufLen ==> ok
    ensures ok ==> |at| == |items| + 1 && |names| == |nexts| == |items|
    ensures ok ==> forall i :: 0 <= i < |items| && items[i].Name? ==> names[i] == items[i].text && nexts[i] == at[i + 1]
  {
    hide WellFormed, Spells, Behind, Labels, Size;
    var len;
    ghost var far;
    ok, len, at, far := WriteMessage(buf, bufLen, items, table, strdupOk);
    names, nexts := [], [];
    if !ok {
      return;
    }
    var packet := buf[..len];
    for i := 0 to |items|
      invariant |names| == |nexts| == i
      invariant forall k :: 0 <= k < i && items[k].Name? ==> names[k] == items[k].text && nexts[k] == at[k + 1]
    {
      var name, next := [], at[i + 1];
      if items[i].Name? {
        assert Placed(packet, items, at, i);
        Short(items[i].text);
        var ok1;
        ok1, next, name := ReadName(packet, at[i], nameOutLen, items[i].text);
      }
      names, nexts := names + [name], nexts + [next];
    }
  }

  lemma Short(text: seq<byte>)
    requires WellFormed(text)
    ensures |text| <= 255
  {
  }
}

/** evdns.c: domain names in DNS messages, written as length-prefixed labels that may end
    in a pointer to an earlier name (sections 3.1 and 4.1.4 of RFC 1035). */
module DnsName {
  import opened Bytes

  const DOT: byte := 46
  const MAX_LABELS := 128
  const REACH := 0x4000   // how far a pointer reaches

  /** Where the two bytes of a pointer lead. */
  function Target(hi: byte, lo: byte): nat
  {
    (hi % 64) * 256 + lo
  }

  /** At position `at` of the message stands a name with these labels; pointers lead
      strictly backwards. */
  ghost predicate Spells(msg: seq<byte>, at: nat, labels: seq<seq<byte>>)
    decreases |labels|, at
  {
    && at < |msg|
    && if msg[at] == 0 then labels == []
       else if msg[at] >= 64 then
         && at + 1 < |msg| && Target(msg[at], msg[at + 1]) < at
         && Spells(msg, Target(msg[at], msg[at + 1]), labels)
       else
         && at + 1 + msg[at] <= |msg|
         && labels != [] && labels[0] == msg[at + 1..at + 1 + msg[at]]
         && Spells(msg, at + 1 + msg[at], labels[1..])
  }

  /** The position just behind the name that stands at `at`. */
  function Behind(msg: seq<byte>, at: nat): nat
    decreases |msg| - at
  {
    if at >= |msg| then at
    else if msg[at] == 0 then at + 1
    else if msg[at] >= 64 then at + 2
    else Behind(msg, at + 1 + msg[at])
  }

  /** More bytes behind a message do not change the names in it. */
  lemma {:induction false} SpellsMore(msg: seq<byte>, more: seq<byte>, at: nat, labels: seq<seq<byte>>)
    requires Spells(msg, at, labels)
    ensures Spells(msg + more, at, labels) && Behind(msg + more, at) == Behind(msg, at)
    decreases |labels|, at
  {
    var m := msg + more;
    assert m[at] == msg[at];
    if msg[at] == 0 {
    } else if msg[at] >= 64 {
      SpellsMore(msg, more, Target(msg[at], msg[at + 1]), labels);
    } else {
      var n := at + 1 + msg[at];
      assert m[at + 1..n] == msg[at + 1..n];
      SpellsMore(msg, more, n, labels[1..]);
    }
  }

  /** The text of a name: its labels with dots between them. */
  function Text(labels: seq<seq<byte>>): seq<byte>
  {
    if labels == [] then [] else if |labels| == 1 then labels[0] else labels[0] + [DOT] + Text(labels[1..])
  }

  lemma {:induction false} TextSnoc(labels: seq<seq<byte>>, l: seq<byte>)
    requires labels != []
    ensures Text(labels + [l]) == Text(labels) + [DOT] + l
  {
    assert (labels + [l])[1..] == labels[1..] + [l];
    if |labels| > 1 {
      TextSnoc(labels[1..], l);
      assert (labels[0] + [DOT]) + (Text(labels[1..]) + [DOT] + l) == (labels[0] + [DOT] + Text(labels[1..])) + [DOT] + l;
    }
  }

  lemma {:induction false} TextPrefix(labels: seq<seq<byte>>, k: nat)
    requires k <= |labels|
    ensures |Text(labels[..k])| <= |Text(labels)|
    decreases |labels| - k
  {
    if k < |labels| {
      TextPrefix(labels, k + 1);
      assert labels[..k + 1] == labels[..k] + [labels[k]];
      if k > 0 {
        TextSnoc(labels[..k], labels[k]);
      }
    } else {
      assert labels[..k] == labels;
    }
  }

  /** From position `at`, a reader that follows pointers wherever they lead, also forwards,
      comes to the end of a name with these labels after that many pointers. */
  ghost predicate Leads(msg: seq<byte>, at: nat, hops: nat, labels: seq<seq<byte>>)
    decreases |labels|, hops
  {
    && at < |msg|
    && if msg[at] == 0 then labels == [] && hops == 0
       else if msg[at] >= 64 then
         at + 1 < |msg| && hops > 0 && Leads(msg, Target(msg[at], msg[at + 1]), hops - 1, labels)
       else
         && at + 1 + msg[at] <= |msg|
         && labels != [] && labels[0] == msg[at + 1..at + 1 + msg[at]]
         && Leads(msg, at + 1 + msg[at], hops, labels[1..])
  }

  lemma {:induction false} LeadsUnique(msg: seq<byte>, at: nat, h: nat, a: seq<seq<byte>>, k: nat, b: seq<seq<byte>>)
    requires Leads(msg, at, h, a) && Leads(msg, at, k, b)
    ensures h == k && a == b
    decreases |a|, h
  {
    if msg[at] == 0 {
    } else if msg[at] >= 64 {
      LeadsUnique(msg, Target(msg[at], msg[at + 1]), h - 1, a, k - 1, b);
    } else {
      LeadsUnique(msg, at + 1 + msg[at], h, a[1..], k, b[1..]);
      assert a == [a[0]] + a[1..] && b == [b[0]] + b[1..];
    }
  }

  /** A name whose pointers lead backwards comes to an end. */
  lemma {:induction false} SpellsLeads(msg: seq<byte>, at: nat, labels: seq<seq<byte>>) returns (hops: nat)
    requires Spells(msg, at, labels)
    ensures Leads(msg, at, hops, labels)
    decreases |labels|, at
  {
    if msg[at] == 0 {
      hops := 0;
    } else if msg[at] >= 64 {
      hops := SpellsLeads(msg, Target(msg[at], msg[at + 1]), labels);
      hops := hops + 1;
    } else {
      hops := SpellsLeads(msg, at + 1 + msg[at], labels[1..]);
    }
  }

  ghost predicate Further(msg: seq<byte>, p: nat, hops: nat)
  {
    p < |msg| && exists n: nat, ls :: n > hops && Leads(msg, p, n, ls)
  }

  /** A reader that comes to an end has not met a pointer twice, so it has followed at
      most as many as there are bytes. */
  lemma {:induction false} FewHops(msg: seq<byte>, at: nat, hops: nat, labels: seq<seq<byte>>, met: set<nat>)
    requires Leads(msg, at, hops, labels) && forall p :: p in met ==> Further(msg, p, hops)
    ensures hops + |met| <= |msg|
    decreases |labels|, hops
  {
    if msg[at] == 0 {
      FewBelow(met, |msg|);
    } else if msg[at] >= 64 {
      NotMet(msg, at, hops, labels, met);
      FewHops(msg, Target(msg[at], msg[at + 1]), hops - 1, labels, met + {at});
    } else {
      FewHops(msg, at + 1 + msg[at], hops, labels[1..], met);
    }
  }

  lemma NotMet(msg: seq<byte>, at: nat, hops: nat, labels: seq<seq<byte>>, met: set<nat>)
    requires Leads(msg, at, hops, labels) && hops > 0 && forall p :: p in met ==> Further(msg, p, hops)
    ensures at !in met && forall p :: p in met + {at} ==> Further(msg, p, hops - 1)
  {
    if at in met {
      var n: nat, ls :| n > hops && Leads(msg, at, n, ls);
      LeadsUnique(msg, at, hops, labels, n, ls);
    }
  }

  lemma {:induction false} FewBelow(s: set<nat>, n: nat)
    requires forall p :: p in s ==> p < n
    ensures |s| <= n
  {
    if n == 0 {
      assert s == {};
    } else {
      FewBelow(s - {n - 1}, n - 1);
    }
  }

  /** The reader that started at idx has followed that many pointers, read these labels,
      and stands at j: what it finds there is the rest. */
  ghost predicate Came(msg: seq<byte>, idx: nat, hops: nat, done: seq<seq<byte>>, j: nat)
  {
    forall n: nat, ls :: Leads(msg, j, n, ls) ==> Leads(msg, idx, hops + n, done + ls)
  }

  lemma CameHop(msg: seq<byte>, idx: nat, hops: nat, done: seq<seq<byte>>, j: nat)
    requires Came(msg, idx, hops, done, j) && j + 1 < |msg| && msg[j] >= 64
    ensures Came(msg, idx, hops + 1, done, Target(msg[j], msg[j + 1]))
  {
    var t := Target(msg[j], msg[j + 1]);
    forall n: nat, ls | Leads(msg, t, n, ls)
      ensures Leads(msg, idx, hops + 1 + n, done + ls)
    {
      assert Leads(msg, j, n + 1, ls);
    }
  }

  lemma CameLabel(msg: seq<byte>, idx: nat, hops: nat, done: seq<seq<byte>>, j: nat)
    requires j < |msg| && 0 < msg[j] < 64 && j + 1 + msg[j] <= |msg| && Came(msg, idx, hops, done, j)
    ensures Came(msg, idx, hops, done + [msg[j + 1..j + 1 + msg[j]]], j + 1 + msg[j])
  {
    var l, t := msg[j + 1..j + 1 + msg[j]], j + 1 + msg[j];
    forall n: nat, ls | Leads(msg, t, n, ls)
      ensures Leads(msg, idx, hops + n, done + [l] + ls)
    {
      assert ([l] + ls)[1..] == ls;
      assert Leads(msg, j, n, [l] + ls);
      assert done + ([l] + ls) == done + [l] + ls;
    }
  }

  /** What is still ahead of a reader on its way through a name with these labels. */
  ghost predicate Ahead(msg: seq<byte>, hops: nat, labels: seq<seq<byte>>, h: nat, done: seq<seq<byte>>, j: nat)
  {
    h <= hops <= |msg| && done <= labels && Leads(msg, j, hops - h, labels[|done|..])
  }

  lemma AheadLabel(msg: seq<byte>, hops: nat, labels: seq<seq<byte>>, h: nat, done: seq<seq<byte>>, j: nat, there: bool)
    requires j < |msg| && 0 < msg[j] < 64 && NoEmpty(done)
    requires there ==> Ahead(msg, hops, labels, h, done, j)
    ensures there ==> j + 1 + msg[j] <= |msg|
    ensures done == [] <==> Text(done) == []
    ensures j + 1 + msg[j] <= |msg| ==>
              var l := msg[j + 1..j + 1 + msg[j]];
              && NoEmpty(done + [l])
              && Text(done + [l]) == (if done == [] then l else Text(done) + [DOT] + l)
              && (there ==> Ahead(msg, hops, labels, h, done + [l], j + 1 + msg[j]) && |Text(done + [l])| <= |Text(labels)|)
  {
    var k := |done|;
    if there {
      assert labels[k..][0] == labels[k] && labels[k..][1..] == labels[k + 1..];
      assert done + [labels[k]] == labels[..k + 1];
      TextPrefix(labels, k + 1);
    }
    if j + 1 + msg[j] <= |msg| && done != [] {
      TextSnoc(done, msg[j + 1..j + 1 + msg[j]]);
    }
  }

  ghost predicate NoEmpty(labels: seq<seq<byte>>)
  {
    forall i :: 0 <= i < |labels| ==> labels[i] != []
  }

  /** The name that name_parse should find, if there is one. */
  lemma Goal(msg: seq<byte>, idx: nat, room: nat) returns (there: bool, hops: nat, labels: seq<seq<byte>>)
    ensures there ==> Ahead(msg, hops, labels, 0, [], idx) && |Text(labels)| < room
    ensures !there ==> forall h, ls :: Leads(msg, idx, h, ls) ==> |Text(ls)| >= room
  {
    there, hops, labels := false, 0, [];
    if h, ls :| Leads(msg, idx, h, ls) && |Text(ls)| < room {
      there, hops, labels := true, h, ls;
      FewHops(msg, idx, h, ls, {});
      assert ls[0..] == ls;
    }
  }

  lemma Begin(msg: seq<byte>, idx: nat)
    ensures Came(msg, idx, 0, [], idx) && NoEmpty([]) && Text([]) == []
  {
    assert forall ls: seq<seq<byte>> :: [] + ls == ls;
  }

  /** What the byte at j says about the rest of the name. */
  lemma Here(msg: seq<byte>, idx: nat, h: nat, done: seq<seq<byte>>, j: nat, hops: nat, labels: seq<seq<byte>>, there: bool)
    requires Came(msg, idx, h, done, j) && (there ==> Ahead(msg, hops, labels, h, done, j))
    ensures there ==> j < |msg|
    ensures j < |msg| && msg[j] == 0 ==>
              Behind(msg, j) == j + 1 && Leads(msg, idx, h, done) && (there ==> done == labels)
    ensures j < |msg| && msg[j] >= 64 ==> Behind(msg, j) == j + 2 && (there ==> j + 1 < |msg|)
    ensures j + 1 < |msg| && msg[j] >= 64 ==>
              var t := Target(msg[j], msg[j + 1]);
              Came(msg, idx, h + 1, done, t) && (there ==> t < |msg| && h < |msg| && Ahead(msg, hops, labels, h + 1, done, t))
    ensures j < |msg| && 0 < msg[j] < 64 ==> Behind(msg, j) == Behind(msg, j + 1 + msg[j])
  {
    if j < |msg| && msg[j] == 0 {
      assert Leads(msg, j, 0, []);
      assert done + [] == done;
    } else if j + 1 < |msg| && msg[j] >= 64 {
      CameHop(msg, idx, h, done, j);
      assert there ==> Leads(msg, Target(msg[j], msg[j + 1]), hops - (h + 1), labels[|done|..]);
    }
  }

  /** name_parse: on any message it stops. It succeeds exactly if following the pointers
      from idx leads to the end of a name whose text fits with its terminator: the limit
      on the number of pointers refuses only names that have no end. The result is the
      text of that name, and the new index is just behind the name at idx. */
  method NameParse(packet: seq<byte>, idx: nat, nameOutLen: nat)
    returns (ok: bool, next: nat, name: seq<byte>, ghost hops: nat, ghost labels: seq<seq<byte>>)
    ensures ok ==> Leads(packet, idx, hops, labels) && name == Text(labels) && |name| < nameOutLen
    ensures ok ==> next == Behind(packet, idx)
    ensures !ok ==> forall h, ls :: Leads(packet, idx, h, ls) ==> |Text(ls)| >= nameOutLen
  {
    hide Leads, Behind, Text, Came, Ahead, NoEmpty;
    ghost var there, h0, ls0 := Goal(packet, idx, nameOutLen);
    var nameEnd: int, j: nat, ptrCount: nat := -1, idx, 0;
    ok, next, name, hops, labels := false, idx, [], 0, [];
    Begin(packet, idx);
    while true
      invariant Came(packet, idx, ptrCount, labels, j) && name == Text(labels) && NoEmpty(labels)
      invariant if nameEnd < 0 then Behind(packet, j) == Behind(packet, idx) else nameEnd == Behind(packet, idx)
      invariant there ==> Ahead(packet, h0, ls0, ptrCount, labels, j)
      invariant nameOutLen > 0 ==> |name| < nameOutLen
      invariant ptrCount <= |packet| && nameEnd >= -1 && !ok
      decreases |packet| - ptrCount, |packet| - j
    {
      Here(packet, idx, ptrCount, labels, j, h0, ls0, there);
      if j >= |packet| {
        return;
      }
      var labelLen := packet[j];
      if labelLen == 0 {
        j := j + 1;
        break;
      }
      if labelLen >= 64 {
        if j + 1 >= |packet| {
          return;
        }
        if nameEnd < 0 {
          nameEnd := j + 2;
        }
        j := Target(packet[j], packet[j + 1]);
        if j >= |packet| {
          return;
        }
        ptrCount := ptrCount + 1;
        if ptrCount > |packet| {
          return;
        }
        continue;
      }
      AheadLabel(packet, h0, ls0, ptrCount, labels, j, there);
      if name != [] {
        if |name| + 1 >= nameOutLen {
          return;
        }
        name := name + [DOT];
      }
      if |name| + labelLen >= nameOutLen {
        return;
      }
      if j + 1 + labelLen > |packet| {
        return;
      }
      CameLabel(packet, idx, ptrCount, labels, j);
      name := name + packet[j + 1..j + 1 + labelLen];
      labels := labels + [packet[j + 1..j + 1 + labelLen]];
      j := j + 1 + labelLen;
    }
    hops := ptrCount;
    if |name| >= nameOutLen {
      return;
    }
    next := if nameEnd < 0 then j else nameEnd;
    ok := true;
  }
}

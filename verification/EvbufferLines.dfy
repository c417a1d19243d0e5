/** evbuffer_search_eol and evbuffer_readln. */
module EvbufferLines {
  import opened Bytes
  import opened EvbufferCore
  import opened EvbufferBytes
  import opened EvbufferSearch

  const CR: byte := 13
  const LF: byte := 10
  const NUL: byte := 0

  datatype EolStyle = Any | CrlfStrict | Crlf | Lf | Nul

  /** What a scan over the bytes stops at: one given byte, or any of CR and LF. */
  datatype Stop = Chr(c: byte) | EolChar {
    predicate Hit(b: byte) {
      match this
      case Chr(c) => b == c
      case EolChar => b == CR || b == LF
    }
  }

  /** r is the first index at or behind lo at which the scan stops, or |s|. */
  ghost predicate FirstHit(s: seq<byte>, stop: Stop, lo: nat, r: nat)
  {
    && lo <= r <= |s|
    && (r < |s| ==> stop.Hit(s[r]))
    && (forall j :: lo <= j < r ==> !stop.Hit(s[j]))
  }

  /** n is the length of the longest run of CR and LF at p. */
  ghost predicate EolRun(s: seq<byte>, p: nat, n: nat)
  {
    && p + n <= |s|
    && (forall j :: p <= j < p + n ==> EolChar.Hit(s[j]))
    && (p + n < |s| ==> !EolChar.Hit(s[p + n]))
  }

  /** The line end of the given style that comes first at or behind lo: `Some((p, n))`
      when the line ends at p and the terminator has n bytes. */
  ghost predicate IsEol(s: seq<byte>, style: EolStyle, lo: nat, r: Option<(nat, nat)>)
  {
    match style
    case Any =>
      if r.None? then FirstHit(s, EolChar, lo, |s|)
      else r.value.0 < |s| && FirstHit(s, EolChar, lo, r.value.0) && EolRun(s, r.value.0, r.value.1)
    case CrlfStrict =>
      if r.None? then LeastMatch(s, [CR, LF], lo, |s|, -1)
      else r.value.1 == 2 && LeastMatch(s, [CR, LF], lo, |s|, r.value.0)
    case Crlf =>
      if r.None? then FirstHit(s, Chr(LF), lo, |s|)
      else
        var lf := r.value.0 + r.value.1 - 1;
        && 0 <= lf < |s| && FirstHit(s, Chr(LF), lo, lf)
        && r.value.1 == (if lf > lo && s[lf - 1] == CR then 2 else 1)
    case Lf =>
      if r.None? then FirstHit(s, Chr(LF), lo, |s|)
      else r.value.1 == 1 && r.value.0 < |s| && FirstHit(s, Chr(LF), lo, r.value.0)
    case Nul =>
      if r.None? then FirstHit(s, Chr(NUL), lo, |s|)
      else r.value.1 == 1 && r.value.0 < |s| && FirstHit(s, Chr(NUL), lo, r.value.0)
  }

  /** find_eol_char: scans in pieces of 128 bytes. */
  method FindEolChar(s: seq<byte>) returns (r: nat)
    ensures FirstHit(s, EolChar, 0, r)
  {
    r := 0;
    while r < |s|
      invariant forall j :: 0 <= j < r && j < |s| ==> !EolChar.Hit(s[j])
      decreases |s| - r
    {
      var chunk := if r + 128 < |s| then 128 else |s| - r;
      ghost var piece := s[r..r + chunk];
      var cr := Memchr(s[r..r + chunk], CR);
      var lf := Memchr(s[r..r + chunk], LF);
      assert forall j :: r <= j < r + chunk ==> s[j] == piece[j - r];
      if cr.Some? {
        if lf.Some? && lf.value < cr.value {
          return r + lf.value;
        }
        return r + cr.value;
      } else if lf.Some? {
        return r + lf.value;
      }
      r := r + 128;
    }
    r := |s|;
  }

  /** memchr or find_eol_char on one chain's bytes. */
  method Scan(s: seq<byte>, stop: Stop) returns (r: nat)
    ensures FirstHit(s, stop, 0, r)
  {
    if stop.EolChar? {
      r := FindEolChar(s);
    } else {
      var p := Memchr(s, stop.c);
      r := if p.Some? then p.value else |s|;
    }
  }

  /** No hit in the n bytes of chain i from offset r, and perhaps one behind them. */
  lemma HitInChain(ds: seq<seq<byte>>, i: nat, r: nat, n: nat, stop: Stop, lo: nat)
    requires i < |ds| && r + n <= |ds[i]| && lo <= |Flatten(ds[..i])| + r <= |Flatten(ds)|
    requires forall j :: lo <= j < |Flatten(ds[..i])| + r ==> !stop.Hit(Flatten(ds)[j])
    requires FirstHit(ds[i][r..], stop, 0, n)
    ensures |Flatten(ds[..i + 1])| == |Flatten(ds[..i])| + |ds[i]| <= |Flatten(ds)|
    ensures forall j :: lo <= j < |Flatten(ds[..i])| + r + n ==> !stop.Hit(Flatten(ds)[j])
    ensures r + n < |ds[i]| ==> FirstHit(Flatten(ds), stop, lo, |Flatten(ds[..i])| + r + n)
  {
    FlatAt(ds, i);
    hide Flatten;
    var all, b := Flatten(ds), |Flatten(ds[..i])|;
    forall j | b + r <= j < b + |ds[i]|
      ensures all[j] == ds[i][r..][j - b - r]
    {
      assert all[j] == all[b..b + |ds[i]|][j - b];
    }
  }

  /** evbuffer_strchr and evbuffer_find_eol_char */
  method FindFrom(buf: Evbuffer, start: EvbufferPtr, stop: Stop, ghost i0: nat)
    returns (r: Option<EvbufferPtr>, ghost i: nat)
    requires buf.Valid() && buf.PtrIn(start, i0)
    ensures r.None? ==> FirstHit(buf.Contents(), stop, start.pos, buf.totalLen)
    ensures r.Some? ==>
              && buf.PtrIn(r.value, i) && r.value.chain != null && r.value.posInChain < |buf.datas[i]|
              && r.value.pos < buf.totalLen && FirstHit(buf.Contents(), stop, start.pos, r.value.pos)
  {
    hide Distinct, Linked, Holds, LastWithData, Kept, Flatten, SlotAt;
    ghost var cs, ds, all := buf.chains, buf.datas, buf.Contents();
    PtrInRange(buf, start, i0);
    var chain: Chain?, at: nat, pos: nat := start.chain, start.posInChain, start.pos;
    i := i0;
    while chain != null
      invariant buf.PtrIn(EvbufferPtr(pos, chain, at), i) && start.pos <= pos <= buf.totalLen
      invariant forall j :: start.pos <= j < pos ==> !stop.Hit(all[j])
      decreases |ds| - i
    {
      HoldsAt(cs, ds, i);
      LinkedAt(buf.first, cs, i);
      var n := Scan(chain.Slice(at, chain.off - at), stop);
      assert ds[i][at..] == ds[i][at..at + (chain.off - at)];
      HitInChain(ds, i, at, n, stop, start.pos);
      if at + n < chain.off {
        return Some(EvbufferPtr(pos + n, chain, at + n)), i;
      }
      pos := pos + (chain.off - at);
      chain, at, i := chain.next, 0, i + 1;
    }
    FlatEnd(ds, i);
    r := None;
  }

  /** Byte at of chain i, as a byte of the contents. */
  lemma ByteAt(ds: seq<seq<byte>>, i: nat, at: nat)
    requires i < |ds| && at < |ds[i]|
    ensures var p := |Flatten(ds[..i])| + at; p < |Flatten(ds)| && Flatten(ds)[p] == ds[i][at]
  {
    FlatAt(ds, i);
    var b := |Flatten(ds[..i])|;
    assert Flatten(ds)[b + at] == Flatten(ds)[b..b + |ds[i]|][at];
  }

  /** evbuffer_strspn(ptr, "\r\n"): how many CR and LF follow. */
  method Strspn(buf: Evbuffer, start: EvbufferPtr, ghost i0: nat) returns (count: nat)
    requires buf.Valid() && buf.PtrIn(start, i0)
    ensures EolRun(buf.Contents(), start.pos, count)
  {
    hide Distinct, Linked, Holds, LastWithData, Kept, Flatten, SlotAt;
    ghost var cs, ds, all := buf.chains, buf.datas, buf.Contents();
    PtrInRange(buf, start, i0);
    count := 0;
    if start.chain == null {
      FlatEnd(ds, i0);
      return;
    }
    var chain: Chain, at: nat := start.chain, start.posInChain;
    ghost var i := i0;
    while true
      invariant buf.PtrIn(EvbufferPtr(start.pos + count, chain, at), i) && start.pos + count <= buf.totalLen
      invariant forall j :: start.pos <= j < start.pos + count ==> EolChar.Hit(all[j])
      decreases |ds| - i, |ds[i]| - at
    {
      HoldsAt(cs, ds, i);
      LinkedAt(buf.first, cs, i);
      if at < chain.off {
        ByteAt(ds, i, at);
        var b := chain.mem[chain.misalign + at];
        if b != CR && b != LF {
          return;
        }
        count, at := count + 1, at + 1;
      } else if chain.next == null {
        FlatAt(ds, i);
        FlatEnd(ds, i + 1);
        return;
      } else {
        FlatAt(ds, i);
        chain, at, i := chain.next, 0, i + 1;
      }
    }
  }

  /** evbuffer_ptr_subtract */
  method PtrSubtract(buf: Evbuffer, p: EvbufferPtr, howfar: nat, ghost i0: nat)
    returns (q: EvbufferPtr, ok: bool, ghost i: nat)
    requires buf.Valid() && howfar <= SIZE_MAX && (p.pos < 0 || buf.PtrIn(p, i0))
    ensures ok <==> howfar <= p.pos
    ensures ok ==> q.pos == p.pos - howfar && buf.PtrIn(q, i)
    ensures ok && howfar > 0 ==> q.chain != null && q.posInChain < |buf.datas[i]|
    ensures !ok ==> q == p
  {
    hide Distinct, Linked, Holds, LastWithData, Kept, Flatten, SlotAt;
    q, i := p, i0;
    if p.pos < 0 || howfar > p.pos {
      return p, false, i0;
    }
    PtrInRange(buf, p, i0);
    if p.chain != null && howfar <= p.posInChain {
      return EvbufferPtr(p.pos - howfar, p.chain, p.posInChain - howfar), true, i0;
    }
    q, ok, i := PtrSet(buf, p, p.pos - howfar, Set, i0);
    if q.chain == null {
      FlatEnd(buf.datas, i);
    }
  }

  /** evbuffer_search_eol */
  method SearchEol(buf: Evbuffer, start: Option<EvbufferPtr>, style: EolStyle, ghost i0: nat)
    returns (it: EvbufferPtr, eolLen: nat, ghost i: nat)
    requires buf.Valid()
    requires start.Some? ==> start.value == NOT_FOUND || buf.PtrIn(start.value, i0)
    ensures start.Some? && start.value.chain == null ==> it == NOT_FOUND && eolLen == 0
    ensures !(start.Some? && start.value == NOT_FOUND) ==>
              var lo := if start.Some? then start.value.pos else 0;
              if it == NOT_FOUND then IsEol(buf.Contents(), style, lo, None)
              else it.pos >= 0 && buf.PtrIn(it, i) && IsEol(buf.Contents(), style, lo, Some((it.pos, eolLen)))
  {
    hide Distinct, Linked, Holds, LastWithData, Kept, Flatten, SlotAt, LeastMatch, FirstHit, EolRun;
    i := i0;
    if start.Some? && start.value.chain == null {
      it, eolLen := NOT_FOUND, 0;
      if start.value != NOT_FOUND {
        NothingAtEnd(buf, start.value, i0, style);
      }
      return;
    }
    var from := if start.Some? then start.value else EvbufferPtr(0, buf.first, 0);
    PtrInRange(buf, from, if start.Some? then i0 else 0);
    ghost var j := if start.Some? then i0 else 0;
    eolLen := 0;
    var r;
    match style {
      case Any =>
        r, i := FindFrom(buf, from, EolChar, j);
        if r.None? {
          return NOT_FOUND, 0, i;
        }
        it := r.value;
        eolLen := Strspn(buf, it, i);
      case CrlfStrict =>
        it, i := SearchRange(buf, [CR, LF], Some(from), None, j, 0);
        if it.pos >= 0 {
          eolLen := 2;
        }
      case Crlf =>
        r, i := FindFrom(buf, from, Chr(LF), j);
        if r.None? {
          return NOT_FOUND, 0, i;
        }
        it := r.value;
        eolLen := 1;
        HitBehind(buf.Contents(), Chr(LF), from.pos, it.pos);
        if it.pos != from.pos {
          var it2, ok;
          ghost var i2;
          it2, ok, i2 := PtrSubtract(buf, it, 1, i);
          if ok {
            HoldsAt(buf.chains, buf.datas, i2);
            ByteAt(buf.datas, i2, it2.posInChain);
            if it2.chain.mem[it2.chain.misalign + it2.posInChain] == CR {
              it, eolLen, i := it2, 2, i2;
            }
          }
        }
      case Lf =>
        r, i := FindFrom(buf, from, Chr(LF), j);
        if r.None? {
          return NOT_FOUND, 0, i;
        }
        it, eolLen := r.value, 1;
      case Nul =>
        r, i := FindFrom(buf, from, Chr(NUL), j);
        if r.None? {
          return NOT_FOUND, 0, i;
        }
        it, eolLen := r.value, 1;
    }
  }

  lemma HitBehind(s: seq<byte>, stop: Stop, lo: nat, r: nat)
    requires FirstHit(s, stop, lo, r)
    ensures lo <= r
  {
  }

  lemma NothingAtEnd(buf: Evbuffer, p: EvbufferPtr, i: nat, style: EolStyle)
    requires buf.Valid() && buf.PtrIn(p, i) && p.chain == null
    ensures p.pos == buf.totalLen && IsEol(buf.Contents(), style, p.pos, None)
  {
    FlatEnd(buf.datas, i);
  }

  /** Where a line ends is a function of the bytes alone. */
  lemma EolUnique(s: seq<byte>, style: EolStyle, lo: nat, r1: Option<(nat, nat)>, r2: Option<(nat, nat)>)
    requires IsEol(s, style, lo, r1) && IsEol(s, style, lo, r2)
    ensures r1 == r2
  {
    match style
    case Any =>
      if r1.Some? && r2.Some? {
        RunUnique(s, r1.value.0, r1.value.1, r2.value.1);
      }
    case CrlfStrict =>
      LeastMatchUnique(s, [CR, LF], lo, |s|, if r1.None? then -1 else r1.value.0, if r2.None? then -1 else r2.value.0);
    case Crlf =>
      if r1.Some? && r2.Some? {
        FirstHitUnique(s, Chr(LF), lo, r1.value.0 + r1.value.1 - 1, r2.value.0 + r2.value.1 - 1);
      }
    case Lf =>
    case Nul =>
  }

  lemma FirstHitUnique(s: seq<byte>, stop: Stop, lo: nat, a: nat, b: nat)
    requires FirstHit(s, stop, lo, a) && FirstHit(s, stop, lo, b)
    ensures a == b
  {
  }

  lemma RunUnique(s: seq<byte>, p: nat, a: nat, b: nat)
    requires EolRun(s, p, a) && EolRun(s, p, b)
    ensures a == b
  {
  }

  /** A terminator is never empty and lies inside the bytes searched. */
  lemma EolInside(s: seq<byte>, style: EolStyle, lo: nat, p: nat, n: nat)
    requires IsEol(s, style, lo, Some((p, n)))
    ensures lo <= p && 1 <= n && p + n <= |s|
  {
    if style.Any? && n == 0 {
      assert EolChar.Hit(s[p]);
    }
  }

  /** evbuffer_readln */
  method Readln(buf: Evbuffer, style: EolStyle, mallocOk: bool) returns (line: Option<seq<byte>>, ghost eol: seq<byte>)
    requires buf.Valid()
    modifies buf, ChainSet(buf.chains)`misalign, ChainSet(buf.chains)`off
    ensures buf.Valid() && buf.SameFlags()
    ensures ChainSet(buf.chains) <= old(ChainSet(buf.chains))
    ensures line.None? ==> buf.Contents() == old(buf.Contents())
    ensures line.None? <==> buf.freezeStart || !mallocOk || IsEol(old(buf.Contents()), style, 0, None)
    ensures line.Some? ==>
              && line.value + (eol + buf.Contents()) == old(buf.Contents())
              && IsEol(old(buf.Contents()), style, 0, Some((|line.value|, |eol|)))
  {
    hide Distinct, Linked, Holds, LastWithData, Kept, Flatten, SlotAt, IsEol;
    ghost var all := buf.Contents();
    eol := [];
    if buf.freezeStart {
      return None, [];
    }
    var it, extra;
    ghost var i;
    it, extra, i := SearchEol(buf, None, style, 0);
    if it.pos < 0 {
      return None, [];
    }
    EolInside(all, style, 0, it.pos, extra);
    if !mallocOk {
      return None, [];
    }
    if IsEol(all, style, 0, None) {
      EolUnique(all, style, 0, None, Some((it.pos, extra)));
    }
    var text := TakeLine(buf, it.pos, extra);
    eol := all[it.pos..it.pos + extra];
    line := Some(text);
  }

  /** evbuffer_readln: takes the line and drains its end. */
  method TakeLine(buf: Evbuffer, n: nat, extra: nat) returns (line: seq<byte>)
    requires buf.Valid() && !buf.freezeStart && n + extra <= |buf.Contents()|
    modifies buf, ChainSet(buf.chains)`misalign, ChainSet(buf.chains)`off
    ensures buf.Valid() && buf.SameFlags()
    ensures ChainSet(buf.chains) <= old(ChainSet(buf.chains))
    ensures line == old(buf.Contents())[..n]
    ensures line + (old(buf.Contents())[n..n + extra] + buf.Contents()) == old(buf.Contents())
  {
    hide Distinct, Linked, Holds, LastWithData, Kept, Flatten, SlotAt;
    ghost var all := buf.Contents();
    var text := new byte[n];
    var m := Remove(buf, text, n);
    line := text[..m];
    Halves(all, line, buf.Contents());
    var _ := Drain(buf, extra);
    DropEol(all, n, extra, buf.Contents());
  }

  lemma Halves(all: seq<byte>, x: seq<byte>, y: seq<byte>)
    requires x + y == all
    ensures x == all[..|x|] && y == all[|x|..]
  {
  }

  lemma DropEol(all: seq<byte>, n: nat, e: nat, rest: seq<byte>)
    requires n + e <= |all| && rest == (if e < |all[n..]| then all[n..][e..] else [])
    ensures all[..n] + (all[n..n + e] + rest) == all
  {
  }

  /** lines, each with its terminator, are what repeated reading takes off s; rest is
      what stays because it holds no further line end. */
  ghost predicate Splits(s: seq<byte>, style: EolStyle, lines: seq<(seq<byte>, seq<byte>)>, rest: seq<byte>)
  {
    if lines == [] then
      s == rest && IsEol(s, style, 0, None)
    else
      var l, e := lines[0].0, lines[0].1;
      && l + e <= s
      && IsEol(s, style, 0, Some((|l|, |e|)))
      && Splits(s[|l| + |e|..], style, lines[1..], rest)
  }

  /** The bytes of all lines and terminators, in order. */
  ghost function Join(lines: seq<(seq<byte>, seq<byte>)>): seq<byte>
  {
    if lines == [] then [] else lines[0].0 + lines[0].1 + Join(lines[1..])
  }

  lemma PrefixParts(s: seq<byte>, l: seq<byte>, e: seq<byte>)
    requires l + e <= s
    ensures l == s[..|l|] && e == s[|l|..|l| + |e|]
    ensures l + e + s[|l| + |e|..] == s
  {
    assert s[..|l| + |e|] == l + e;
    assert (l + e)[..|l|] == l && (l + e)[|l|..] == e;
  }

  lemma SplitsHead(s: seq<byte>, style: EolStyle, lines: seq<(seq<byte>, seq<byte>)>, rest: seq<byte>)
    requires Splits(s, style, lines, rest)
    ensures if lines == [] then s == rest && IsEol(s, style, 0, None) && Join(lines) == []
            else var l, e := lines[0].0, lines[0].1;
                 && l + e <= s && IsEol(s, style, 0, Some((|l|, |e|)))
                 && Splits(s[|l| + |e|..], style, lines[1..], rest)
                 && Join(lines) == l + e + Join(lines[1..])
  {
  }

  lemma Reassociate(l: seq<byte>, j: seq<byte>, rest: seq<byte>)
    ensures l + j + rest == l + (j + rest)
  {
  }

  /** Reading lines loses nothing. */
  lemma {:induction false} SplitsLossless(s: seq<byte>, style: EolStyle, lines: seq<(seq<byte>, seq<byte>)>, rest: seq<byte>)
    requires Splits(s, style, lines, rest)
    ensures Join(lines) + rest == s
  {
    hide IsEol, Splits, Join;
    SplitsHead(s, style, lines, rest);
    if lines != [] {
      var l, e := lines[0].0, lines[0].1;
      SplitsLossless(s[|l| + |e|..], style, lines[1..], rest);
      PrefixParts(s, l, e);
      Reassociate(l + e, Join(lines[1..]), rest);
    }
  }

  /** The lines depend on the bytes only, not on the chains that hold them. */
  lemma {:induction false} SplitsUnique(s: seq<byte>, style: EolStyle, a: seq<(seq<byte>, seq<byte>)>, ra: seq<byte>,
                                        b: seq<(seq<byte>, seq<byte>)>, rb: seq<byte>)
    requires Splits(s, style, a, ra) && Splits(s, style, b, rb)
    ensures a == b && ra == rb
  {
    hide IsEol, Splits, Join;
    SplitsHead(s, style, a, ra);
    SplitsHead(s, style, b, rb);
    var ea := if a == [] then None else Some((|a[0].0|, |a[0].1|));
    var eb := if b == [] then None else Some((|b[0].0|, |b[0].1|));
    EolUnique(s, style, 0, ea, eb);
    if a != [] && b != [] {
      var n, m := |a[0].0|, |a[0].1|;
      SameHead(s, a[0], b[0]);
      SplitsUnique(s[n + m..], style, a[1..], ra, b[1..], rb);
      SameList(a, b);
    }
  }

  lemma SameHead(s: seq<byte>, a: (seq<byte>, seq<byte>), b: (seq<byte>, seq<byte>))
    requires a.0 + a.1 <= s && b.0 + b.1 <= s && |a.0| == |b.0| && |a.1| == |b.1|
    ensures a == b
  {
    PrefixParts(s, a.0, a.1);
    PrefixParts(s, b.0, b.1);
  }

  lemma SameList(a: seq<(seq<byte>, seq<byte>)>, b: seq<(seq<byte>, seq<byte>)>)
    requires a != [] && b != [] && a[0] == b[0] && a[1..] == b[1..]
    ensures a == b
  {
    assert a == [a[0]] + a[1..];
    assert b == [b[0]] + b[1..];
  }

  /** Calling evbuffer_readln until it finds no more line. */
  method ReadLines(buf: Evbuffer, style: EolStyle) returns (lines: seq<seq<byte>>, ghost split: seq<(seq<byte>, seq<byte>)>)
    requires buf.Valid() && !buf.freezeStart
    modifies buf, ChainSet(buf.chains)`misalign, ChainSet(buf.chains)`off
    ensures buf.Valid()
    ensures Splits(old(buf.Contents()), style, split, buf.Contents())
    ensures |lines| == |split| && forall i :: 0 <= i < |lines| ==> lines[i] == split[i].0
    decreases buf.totalLen
  {
    hide Distinct, Linked, Holds, LastWithData, Kept, Flatten, SlotAt, IsEol;
    var line;
    ghost var eol;
    ghost var all := buf.Contents();
    line, eol := Readln(buf, style, true);
    if line.None? {
      return [], [];
    }
    EolInside(all, style, 0, |line.value|, |eol|);
    ghost var rest := buf.Contents();
    assert all[|line.value| + |eol|..] == rest;
    assert line.value + eol <= all;
    var more;
    ghost var moreSplit;
    more, moreSplit := ReadLines(buf, style);
    lines, split := [line.value] + more, [(line.value, eol)] + moreSplit;
    assert split[1..] == moreSplit;
  }
}

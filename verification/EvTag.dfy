/** event_tagging.c: the wire format of tags, integers and tagged records. */
module EvTag {
  import opened Bytes

  /** A number's nibbles, the lowest first; at least one. */
  function Nibbles(n: nat): (ns: seq<nat>)
    ensures |ns| >= 1 && forall i :: 0 <= i < |ns| ==> ns[i] < 16
  {
    if n < 16 then [n] else [n % 16] + Nibbles(n / 16)
  }

  function Value(ns: seq<nat>): nat
  {
    if ns == [] then 0 else ns[0] + 16 * Value(ns[1..])
  }

  lemma {:induction false} NibblesValue(n: nat)
    ensures Value(Nibbles(n)) == n
  {
    if n >= 16 {
      NibblesValue(n / 16);
      assert Nibbles(n)[1..] == Nibbles(n / 16);
    } else {
      assert Nibbles(n)[1..] == [];
    }
  }

  function Pow16(k: nat): (p: nat)
    ensures p > 0
  {
    if k == 0 then 1 else 16 * Pow16(k - 1)
  }

  lemma {:induction false} NibblesFew(n: nat, k: nat)
    requires n < Pow16(k) && k > 0
    ensures |Nibbles(n)| <= k
  {
    if n >= 16 {
      NibblesFew(n / 16, k - 1);
    }
  }

  /** The integer as nibbles on the wire: how many less one, the nibbles, and padding. */
  function IntNibbles(n: nat): (ns: seq<nat>)
    ensures |ns| % 2 == 0 && |ns| >= 2
  {
    var ns := [|Nibbles(n)| - 1] + Nibbles(n);
    if |ns| % 2 == 0 then ns else ns + [0]
  }

  predicate AreNibbles(ns: seq<nat>)
  {
    forall i :: 0 <= i < |ns| ==> ns[i] < 16
  }

  /** Two nibbles to a byte, the first one high. */
  function Pack(ns: seq<nat>): (bs: seq<byte>)
    requires AreNibbles(ns)
    ensures |bs| == |ns| / 2
    ensures forall i :: 0 <= i < |bs| ==> bs[i] == ns[2 * i] * 16 + ns[2 * i + 1]
  {
    seq(|ns| / 2, i requires 0 <= i < |ns| / 2 => ns[2 * i] * 16 + ns[2 * i + 1])
  }

  /** The encoding of an integer below 16^16. */
  function IntBytes(n: nat): (bs: seq<byte>)
    requires |Nibbles(n)| <= 16
    ensures |bs| == |IntNibbles(n)| / 2
  {
    Pack(IntNibbles(n))
  }

  /** Nibble number j on the wire. */
  function NibbleAt(s: seq<byte>, j: nat): (x: nat)
    requires j / 2 < |s|
    ensures x < 16
  {
    if j % 2 == 1 then s[j / 2] % 16 else s[j / 2] / 16
  }

  lemma UnpackAt(ns: seq<nat>, more: seq<byte>, j: nat)
    requires AreNibbles(ns) && |ns| % 2 == 0 && j < |ns|
    ensures NibbleAt(Pack(ns) + more, j) == ns[j]
  {
    var i := j / 2;
    assert (Pack(ns) + more)[i] == ns[2 * i] * 16 + ns[2 * i + 1];
  }

  /** The byte with one of its nibbles replaced. */
  function WithNibble(b: byte, low: bool, x: nat): byte
    requires x < 16
  {
    if low then b / 16 * 16 + x else b % 16 + x * 16
  }

  lemma SetNibble(s: seq<byte>, j: nat, x: nat, i: nat)
    requires j / 2 < |s| && i / 2 < |s| && x < 16
    ensures NibbleAt(s[j / 2 := WithNibble(s[j / 2], j % 2 == 1, x)], i) == if i == j then x else NibbleAt(s, i)
  {
  }

  /** The nibbles written so far; the others are zero. */
  ghost predicate Filled(data: seq<byte>, ns: seq<nat>, off: nat)
  {
    && off <= |ns| + 1 && |ns| / 2 < |data|
    && forall j :: 0 <= j < 2 * |data| ==> NibbleAt(data, j) == if 1 <= j < off then ns[j - 1] else 0
  }

  lemma FilledStep(data: seq<byte>, ns: seq<nat>, off: nat)
    requires Filled(data, ns, off) && 1 <= off <= |ns| && ns[off - 1] < 16
    ensures Filled(data[off / 2 := WithNibble(data[off / 2], off % 2 == 1, ns[off - 1])], ns, off + 1)
  {
    var d := data[off / 2 := WithNibble(data[off / 2], off % 2 == 1, ns[off - 1])];
    forall j | 0 <= j < 2 * |d|
      ensures NibbleAt(d, j) == if 1 <= j < off + 1 then ns[j - 1] else 0
    {
      SetNibble(data, off, ns[off - 1], j);
    }
  }

  /** The first nibble is the count; then the bytes are the encoding. */
  lemma FilledAll(data: seq<byte>, n: nat, off: nat)
    requires Filled(data, Nibbles(n), off) && |Nibbles(n)| <= 16 && (off == |Nibbles(n)| + 1 || (n == 0 && off == 1))
    ensures var k := |Nibbles(n)|;
            && k / 2 < |data| && data[0 := WithNibble(data[0], false, k - 1)][..(k + 2) / 2] == IntBytes(n)
  {
    hide Pack, IntNibbles;
    var k, ws := |Nibbles(n)|, IntNibbles(n);
    var d := data[0 := WithNibble(data[0], false, k - 1)];
    WireSize(n);
    forall i | 0 <= i < (k + 2) / 2
      ensures d[i] == IntBytes(n)[i]
    {
      WireNibble(n, 2 * i);
      WireNibble(n, 2 * i + 1);
      SetNibble(data, 0, k - 1, 2 * i);
      SetNibble(data, 0, k - 1, 2 * i + 1);
      Reassemble(d, i);
    }
  }

  lemma WireSize(n: nat)
    ensures |IntNibbles(n)| / 2 == (|Nibbles(n)| + 2) / 2
  {
  }

  lemma WireNibble(n: nat, j: nat)
    requires j < |IntNibbles(n)|
    ensures var k := |Nibbles(n)|;
            IntNibbles(n)[j] == if j == 0 then k - 1 else if j <= k then Nibbles(n)[j - 1] else 0
  {
  }

  lemma Reassemble(d: seq<byte>, i: nat)
    requires i < |d|
    ensures d[i] == NibbleAt(d, 2 * i) * 16 + NibbleAt(d, 2 * i + 1)
  {
  }

  lemma NibblesTail(n: nat, ns: seq<nat>, off: nat)
    requires n > 0 && 1 <= off <= |ns| && Nibbles(n) == ns[off - 1..]
    ensures ns[off - 1] == n % 16
    ensures n / 16 > 0 ==> off + 1 <= |ns| && Nibbles(n / 16) == ns[off..]
    ensures n / 16 == 0 ==> off == |ns|
  {
    assert ns[off - 1..][0] == ns[off - 1] && ns[off - 1..][1..] == ns[off..];
  }

  /** ENCODE_INT_INTERNAL, into a buffer of the given size. */
  method EncodeInt(number: nat, size: nat) returns (bytes: seq<byte>)
    requires 2 <= size <= 9 && number < Pow16(2 * (size - 1))
    ensures |Nibbles(number)| <= 16 && bytes == IntBytes(number)
  {
    hide Filled, Nibbles, IntBytes, Pow16;
    NibblesFew(number, 2 * (size - 1));
    ghost var ns := Nibbles(number);
    var data := new byte[size](_ => 0);
    Blank(data[..], ns);
    var off: nat, n: nat := 1, number;
    assert ns[0..] == ns;
    while n != 0
      invariant off <= |ns| + 1 && data.Length == size && Filled(data[..], ns, off)
      invariant if n == 0 then (number == 0 && off == 1) || off == |ns| + 1 else 1 <= off <= |ns| && Nibbles(n) == ns[off - 1..]
      decreases n
    {
      NibblesTail(n, ns, off);
      FilledStep(data[..], ns, off);
      ghost var was := data[..];
      data[off / 2] := WithNibble(data[off / 2], off % 2 == 1, n % 16);
      assert data[..] == was[off / 2 := WithNibble(was[off / 2], off % 2 == 1, n % 16)];
      n := n / 16;
      off := off + 1;
    }
    FilledAll(data[..], number, off);
    ghost var was := data[..];
    OneNibble(number);
    var nibbles := if off > 2 then off - 2 else 0;
    data[0] := WithNibble(data[0], false, nibbles);
    assert data[..] == was[0 := WithNibble(was[0], false, nibbles)];
    bytes := data[..(off + 1) / 2];
    assert data[..(|ns| + 2) / 2] == data[..][..(|ns| + 2) / 2];
  }

  lemma Blank(data: seq<byte>, ns: seq<nat>)
    requires |ns| / 2 < |data| && forall i :: 0 <= i < |data| ==> data[i] == 0
    ensures Filled(data, ns, 1)
  {
  }

  lemma OneNibble(n: nat)
    ensures n == 0 ==> |Nibbles(n)| == 1
  {
  }

  /** The value of the nibbles from number j to number k on the wire. */
  function ValueAt(s: seq<byte>, j: nat, k: nat): nat
    requires k / 2 < |s|
    decreases k + 1 - j
  {
    if j > k then 0 else NibbleAt(s, j) + 16 * ValueAt(s, j + 1, k)
  }

  /** DECODE_INT_INTERNAL at the start of s: the number and how many bytes it takes. */
  method DecodeInt(s: seq<byte>, maxNibbles: nat) returns (r: Option<(nat, nat)>)
    ensures r == DecodedInt(s, maxNibbles)
  {
    if |s| == 0 {
      return None;
    }
    var nibbles := s[0] / 16 + 1;
    if nibbles > maxNibbles || nibbles / 2 + 1 > |s| {
      return None;
    }
    ghost var k := nibbles;
    var len := nibbles / 2 + 1;
    var number := 0;
    while nibbles > 0
      invariant 0 <= nibbles <= k && k / 2 < |s| && number == ValueAt(s, nibbles + 1, k)
    {
      number := number * 16 + NibbleAt(s, nibbles);
      nibbles := nibbles - 1;
    }
    r := Some((number, len));
  }

  function DecodedInt(s: seq<byte>, maxNibbles: nat): Option<(nat, nat)>
  {
    if |s| == 0 || s[0] / 16 + 1 > maxNibbles || (s[0] / 16 + 1) / 2 + 1 > |s| then None
    else Some((ValueAt(s, 1, s[0] / 16 + 1), (s[0] / 16 + 1) / 2 + 1))
  }

  lemma {:induction false} ValueNibbles(n: nat, ns: seq<nat>, more: seq<byte>, j: nat)
    requires ns == Nibbles(n) && |ns| <= 16 && 1 <= j <= |ns| + 1
    ensures |ns| / 2 < |IntBytes(n) + more| && ValueAt(IntBytes(n) + more, j, |ns|) == Value(ns[j - 1..])
    decreases |ns| + 1 - j
  {
    hide IntNibbles, Pack, IntBytes, Nibbles;
    WireSize(n);
    if j <= |ns| {
      ValueNibbles(n, ns, more, j + 1);
      WireNibble(n, j);
      WireAt(n, more, j);
      assert ns[j - 1..][1..] == ns[j..];
    }
  }

  lemma WireAt(n: nat, more: seq<byte>, j: nat)
    requires |Nibbles(n)| <= 16 && j < |IntNibbles(n)|
    ensures NibbleAt(IntBytes(n) + more, j) == IntNibbles(n)[j]
  {
    hide Nibbles;
    UnpackAt(IntNibbles(n), more, j);
  }

  /** Decoding the encoding of an integer, whatever follows it, gives the integer and
      takes exactly its bytes. */
  lemma IntRoundTrip(n: nat, maxNibbles: nat, more: seq<byte>)
    requires |Nibbles(n)| <= maxNibbles <= 16
    ensures DecodedInt(IntBytes(n) + more, maxNibbles) == Some((n, |IntBytes(n)|))
  {
    hide IntNibbles, Pack, IntBytes, Nibbles, ValueAt;
    var ns, s := Nibbles(n), IntBytes(n) + more;
    WireSize(n);
    WireNibble(n, 0);
    WireAt(n, more, 0);
    assert s[0] / 16 == |ns| - 1;
    ValueNibbles(n, ns, more, 1);
    assert ns[0..] == ns;
    NibblesValue(n);
  }

  /** A tag in groups of seven bits, the lowest first; the high bit says more follow. */
  function TagBytes(tag: nat): (bs: seq<byte>)
    ensures |bs| >= 1
  {
    if tag < 128 then [tag] else [128 + tag % 128] + TagBytes(tag / 128)
  }

  /** evtag_encode_tag */
  method EncodeTag(tag: nat) returns (bytes: seq<byte>)
    requires tag < TWO32
    ensures bytes == TagBytes(tag) && |bytes| <= 5
  {
    hide TagBytes;
    var t: nat, lower: nat := tag / 128, tag % 128;
    if t != 0 {
      lower := lower + 128;
    }
    var data := new byte[5](_ => 0);
    data[0] := lower;
    var n: nat := 1;
    TagStep(tag);
    assert data[..1] == [lower];
    while t != 0
      invariant 1 <= n <= 5 && t * Pow128(n) <= tag
      invariant TagBytes(tag) == data[..n] + (if t == 0 then [] else TagBytes(t))
      decreases t
    {
      TagFits(t, n, tag);
      TagStep(t);
      ghost var was, rest := data[..n], t;
      lower := t % 128;
      t := t / 128;
      if t != 0 {
        lower := lower + 128;
      }
      data[n] := lower;
      n := n + 1;
      assert data[..n] == was + [lower];
      Shrinks(rest, n, tag);
    }
    bytes := data[..n];
  }

  lemma TagStep(t: nat)
    ensures TagBytes(t) == [if t / 128 != 0 then t % 128 + 128 else t % 128] + (if t / 128 == 0 then [] else TagBytes(t / 128))
  {
  }

  function Pow128(n: nat): (p: nat)
    ensures p > 0
  {
    if n == 0 then 1 else 128 * Pow128(n - 1)
  }

  lemma TagFits(t: nat, n: nat, tag: nat)
    requires t > 0 && 1 <= n <= 5 && t * Pow128(n) <= tag < TWO32
    ensures n < 5
  {
    assert Pow128(5) == 128 * (128 * (128 * (128 * 128)));
  }

  lemma Shrinks(t: nat, n: nat, tag: nat)
    requires n > 0 && t * Pow128(n - 1) <= tag
    ensures t / 128 * Pow128(n) <= tag
  {
    var q, p := t / 128, Pow128(n - 1);
    assert q * (128 * p) == (q * 128) * p;
    MulLe(q * 128, t, p);
  }

  lemma MulLe(a: nat, b: nat, p: nat)
    requires a <= b
    ensures a * p <= b * p
  {
  }

  /** Reading a tag, from its byte number i on: the groups still to come, and how many
      bytes they take. A tag that does not fit in 32 bits is refused. */
  function DecodedTag(s: seq<byte>, i: nat): (r: Option<(nat, nat)>)
    decreases |s| - i
  {
    if i >= |s| || i > 4 || (i == 4 && s[i] % 128 > 15) then None
    else if s[i] < 128 then Some((s[i] as nat, 1))
    else
      var rest := DecodedTag(s, i + 1);
      if rest.None? then None else Some((s[i] % 128 + 128 * rest.value.0, rest.value.1 + 1))
  }

  /** Five bytes do not end the tag, and there is a sixth one. */
  predicate Beyond(s: seq<byte>, len: nat)
  {
    len > 5 && |s| >= 5 && (forall i :: 0 <= i < 5 ==> s[i] >= 128) && s[4] % 128 <= 15
  }

  /** decode_tag_internal on the first bytes of a buffer of length len, five at most. Its
      loop is bounded by len only: `beyond` says that it reads a sixth byte, behind the ones
      it is given, to refuse the tag whatever that byte is. */
  method DecodeTag(s: seq<byte>, len: nat) returns (r: Option<(nat, nat)>, beyond: bool)
    requires |s| == Min(len, 5)
    ensures r == DecodedTag(s, 0) && (beyond <==> Beyond(s, len))
  {
    hide DecodedTag, Pow128;
    var number: nat, count: nat := 0, 0;
    beyond := false;
    Unshifted(s);
    while count < len
      invariant count <= |s| && DecodedTag(s, 0) == Combined(number, count, DecodedTag(s, count))
      invariant (forall i :: 0 <= i < count ==> s[i] >= 128) && (count == 5 ==> s[4] % 128 <= 15)
      decreases len - count
    {
      TagCase(s, count);
      if count == |s| {
        return None, true;
      }
      var lower := s[count];
      if count == 4 && lower % 128 > 15 {
        return None, false;
      }
      Shift(s, count, number);
      number := number + lower % 128 * Pow128(count);
      count := count + 1;
      if lower < 128 {
        return Some((number, count)), false;
      }
    }
    TagCase(s, count);
    r := None;
  }

  /** What has been read of a tag, put together with what is still to come. */
  function Combined(number: nat, count: nat, rest: Option<(nat, nat)>): Option<(nat, nat)>
  {
    if rest.None? then None else Some((number + rest.value.0 * Pow128(count), count + rest.value.1))
  }

  lemma Unshifted(s: seq<byte>)
    ensures DecodedTag(s, 0) == Combined(0, 0, DecodedTag(s, 0))
  {
  }

  lemma TagCase(s: seq<byte>, i: nat)
    ensures i >= |s| || i > 4 || (i == 4 && s[i] % 128 > 15) ==> DecodedTag(s, i).None?
  {
  }

  /** One group of seven bits is read. */
  lemma Shift(s: seq<byte>, i: nat, number: nat)
    requires i < |s| && i <= 4 && (i == 4 ==> s[i] % 128 <= 15)
    ensures var n := number + s[i] % 128 * Pow128(i);
            Combined(number, i, DecodedTag(s, i)) == if s[i] < 128 then Some((n, i + 1)) else Combined(n, i + 1, DecodedTag(s, i + 1))
  {
    var d := DecodedTag(s, i + 1);
    if s[i] >= 128 && d.Some? {
      var x, y, p := s[i] % 128, d.value.0, Pow128(i);
      assert (x + 128 * y) * p == x * p + y * (128 * p);
    }
  }

  lemma {:induction false} TagFrom(t: nat, pre: seq<byte>, more: seq<byte>)
    requires |pre| <= 4 && t * Pow128(|pre|) < TWO32
    ensures DecodedTag(pre + TagBytes(t) + more, |pre|) == Some((t, |TagBytes(t)|))
    decreases t
  {
    var s, i := pre + TagBytes(t) + more, |pre|;
    assert s[i] == TagBytes(t)[0];
    assert Pow128(4) == 128 * (128 * (128 * 128));
    assert i == 4 ==> t < 16;
    if t >= 128 {
      var pre' := pre + [128 + t % 128];
      Shrinks(t, i + 1, t * Pow128(i));
      TagFrom(t / 128, pre', more);
      assert s == pre' + TagBytes(t / 128) + more;
    }
  }

  /** Decoding the encoding of a tag, whatever follows it, gives the tag and takes exactly
      its bytes. */
  lemma TagRoundTrip(tag: nat, more: seq<byte>)
    requires tag < TWO32
    ensures DecodedTag(TagBytes(tag) + more, 0) == Some((tag, |TagBytes(tag)|))
  {
    TagFrom(tag, [], more);
    assert [] + TagBytes(tag) + more == TagBytes(tag) + more;
  }
}

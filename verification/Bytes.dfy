/** Numbers and bytes, and the flat view of a sequence of chunks. */
module Bytes {
  datatype Option<+T> = None | Some(value: T)

  type byte = b: int | 0 <= b < 256

  const INT_MAX := 0x7FFF_FFFF
  const TWO31 := 0x8000_0000
  const TWO32 := 0x1_0000_0000
  const TWO64 := 0x1_0000_0000_0000_0000

  function Bit(b: bool): nat
  {
    if b then 1 else 0
  }

  function Min(x: int, y: int): int
  {
    if x < y then x else y
  }

  function Max(x: int, y: int): int
  {
    if x < y then y else x
  }

  /** The bytes of all chunks, in order. */
  ghost function Flatten(ss: seq<seq<byte>>): (r: seq<byte>)
  {
    if ss == [] then [] else ss[0] + Flatten(ss[1..])
  }

  lemma {:induction false} FlattenConcat(a: seq<seq<byte>>, b: seq<seq<byte>>)
    ensures Flatten(a + b) == Flatten(a) + Flatten(b)
  {
    if a == [] {
      assert a + b == b;
    } else {
      assert (a + b)[1..] == a[1..] + b;
      FlattenConcat(a[1..], b);
    }
  }

  lemma FlattenPrefixEmpty(ss: seq<seq<byte>>)
    ensures Flatten(ss[..0]) == []
  {
  }

  lemma FlattenSingle(d: seq<byte>)
    ensures Flatten([d]) == d
  {
    assert [d][1..] == [];
  }

  /** Splitting the chunks at k splits the bytes. */
  lemma FlattenSplit(ss: seq<seq<byte>>, k: nat)
    requires k <= |ss|
    ensures Flatten(ss) == Flatten(ss[..k]) + Flatten(ss[k..])
  {
    assert ss == ss[..k] + ss[k..];
    FlattenConcat(ss[..k], ss[k..]);
  }

  /** The chunks up to and including k. */
  lemma FlattenSnoc(ss: seq<seq<byte>>, k: nat)
    requires k < |ss|
    ensures Flatten(ss[..k + 1]) == Flatten(ss[..k]) + ss[k]
  {
    assert ss[..k + 1] == ss[..k] + [ss[k]];
    FlattenConcat(ss[..k], [ss[k]]);
    FlattenSingle(ss[k]);
  }

  /** Singling out chunk k. */
  lemma FlattenAt(ss: seq<seq<byte>>, k: nat)
    requires k < |ss|
    ensures Flatten(ss[k..]) == ss[k] + Flatten(ss[k + 1..])
    ensures Flatten(ss) == Flatten(ss[..k]) + (ss[k] + Flatten(ss[k + 1..]))
  {
    FlattenSplit(ss, k);
    assert ss[k..][1..] == ss[k + 1..];
  }

  /** Replacing chunk k replaces just its bytes. */
  lemma FlattenUpdate(ss: seq<seq<byte>>, k: nat, d: seq<byte>)
    requires k < |ss|
    ensures Flatten(ss[k := d]) == Flatten(ss[..k]) + (d + Flatten(ss[k + 1..]))
  {
    FlattenAt(ss[k := d], k);
    assert ss[k := d][..k] == ss[..k];
    assert ss[k := d][k + 1..] == ss[k + 1..];
  }

  lemma {:induction false} FlattenEmpty(ss: seq<seq<byte>>)
    requires forall i :: 0 <= i < |ss| ==> ss[i] == []
    ensures Flatten(ss) == []
  {
    if ss != [] {
      FlattenEmpty(ss[1..]);
    }
  }

  /** If every chunk from k on is empty, dropping them changes nothing. */
  lemma FlattenTrim(ss: seq<seq<byte>>, k: nat)
    requires k <= |ss|
    requires forall i :: k <= i < |ss| ==> ss[i] == []
    ensures Flatten(ss) == Flatten(ss[..k])
  {
    FlattenSplit(ss, k);
    FlattenEmpty(ss[k..]);
  }

  lemma SliceOfSlice<T>(s: seq<T>, a: nat, b: nat, r: nat, n: nat)
    requires a + r + n <= b <= |s|
    ensures s[a..b][r..r + n] == s[a + r..a + r + n]
  {
    var t := s[a..b];
    var u, v := t[r..r + n], s[a + r..a + r + n];
    forall j | 0 <= j < n
      ensures u[j] == v[j]
    {
      assert u[j] == t[r + j] == s[a + r + j];
    }
  }

  /** Dropping a and then b bytes drops a + b. */
  lemma SplitTwice<T>(s: seq<T>, p: seq<T>, a: nat, b: nat)
    requires a + b <= |s|
    ensures s[a..][b..] == s[a + b..]
    ensures p + s[..a] + s[a..][..b] == p + s[..a + b]
  {
  }
}

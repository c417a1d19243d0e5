/** arc4random.c: the RC4 state, and random numbers below a bound. */
module Arc4 {
  import opened Bytes

  ghost predicate Distinct(s: seq<byte>)
  {
    forall i, j :: 0 <= i < j < |s| ==> s[i] != s[j]
  }

  /** s lists the numbers from 0 to 255, each once. */
  ghost predicate IsPermutation(s: seq<byte>)
  {
    |s| == 256 && Distinct(s)
  }

  function Swap(s: seq<byte>, i: nat, j: nat): seq<byte>
    requires i < |s| && j < |s|
  {
    s[i := s[j]][j := s[i]]
  }

  lemma SwapDistinct(s: seq<byte>, i: nat, j: nat)
    requires Distinct(s) && i < |s| && j < |s|
    ensures Distinct(Swap(s, i, j)) && |Swap(s, i, j)| == |s|
  {
  }

  ghost function Elements(s: seq<byte>): set<byte>
  {
    set x | x in s
  }

  lemma {:induction false} SetSize(s: seq<byte>)
    requires Distinct(s)
    ensures |Elements(s)| == |s|
  {
    if s != [] {
      var t, e := s[..|s| - 1], s[|s| - 1];
      SetSize(t);
      assert e !in t;
      assert s == t + [e];
      assert Elements(s) == Elements(t) + {e};
    }
  }

  lemma {:induction false} Bounded(a: set<byte>, n: nat)
    requires n <= 256 && forall x :: x in a ==> x < n
    ensures |a| <= n && (|a| == n ==> forall x: byte :: x < n ==> x in a)
  {
    if n == 0 {
      assert forall x :: x !in a;
      assert a == {};
    } else {
      Bounded(a - {n - 1}, n - 1);
    }
  }

  /** Nothing is missing from a permutation. */
  lemma EveryByte(s: seq<byte>, b: byte)
    requires IsPermutation(s)
    ensures b in s
  {
    SetSize(s);
    Bounded(Elements(s), 256);
    assert b in Elements(s);
  }

  /** struct arc4_stream */
  class Stream {
    var i: byte
    var j: byte
    const s: array<byte>

    ghost predicate Valid()
      reads this, s
    {
      s.Length == 256 && IsPermutation(s[..])
    }

    /** arc4_init */
    constructor ()
      ensures Valid() && i == 0 && j == 0 && fresh(s) && forall n :: 0 <= n < 256 ==> s[n] == n
    {
      i, j := 0, 0;
      s := new byte[256](n => if 0 <= n < 256 then n else 0);
    }

    /** Exchanges two elements, as both functions below do. */
    method Exchange(a: byte, b: byte)
      requires Valid()
      modifies s
      ensures Valid() && s[..] == Swap(old(s[..]), a, b)
    {
      SwapDistinct(s[..], a, b);
      ghost var was := s[..];
      var sa := s[a];
      s[a] := s[b];
      s[b] := sa;
      assert s[..] == Swap(was, a, b);
    }

    /** What both functions below do to the state. */
    method Round(key: byte)
      requires Valid()
      modifies this, s
      ensures Valid() && |old(s[..])| == 256 && Stepped(old(i), old(j), old(s[..]), key) == (i, j, s[..])
    {
      hide IsPermutation;
      Size(s[..]);
      i := (i + 1) % 256;
      j := (j + s[i] + key) % 256;
      Exchange(i, j);
    }

    /** arc4_addrandom: mixes in data, over and over if it is short; the state stays a
        permutation. */
    method AddRandom(dat: seq<byte>)
      requires Valid() && dat != []
      modifies this, s
      ensures Valid() && i == (old(i) + 255) % 256
      ensures |old(s[..])| == 256 && Added(old(i), old(j), old(s[..]), dat) == (i, j, s[..])
    {
      hide IsPermutation, Mixed, Stepped;
      Size(s[..]);
      i := (i + 255) % 256;
      ghost var i0, j0, s0 := i, j, s[..];
      NothingMixed(i0, j0, s0, dat);
      for n := 0 to 256
        invariant Valid() && i == (old(i) + 255 + n) % 256
        invariant Mixed(i0, j0, s0, dat, n) == (i, j, s[..])
      {
        NextMod(old(i) + 255 + n);
        MixStep(i0, j0, s0, dat, n);
        Round(dat[n % |dat|]);
      }
      j := i;
    }

    /** arc4_getbyte */
    method GetByte() returns (b: byte)
      requires Valid()
      modifies this, s
      ensures Valid()
      ensures Stepped(old(i), old(j), old(s[..]), 0) == (i, j, s[..])
      ensures b == s[(s[i] as int + s[j]) % 256]
    {
      Round(0);
      b := s[(s[i] as int + s[j]) % 256];
    }
  }

  datatype Op = Mix(data: seq<byte>) | Draw

  /** The state and the bytes drawn after some operations. */
  datatype Churned = Churned(state: (byte, byte, seq<byte>), drawn: seq<byte>)

  ghost function After(t: (byte, byte, seq<byte>), ops: seq<Op>): (c: Churned)
    requires |t.2| == 256
    ensures |c.state.2| == 256
  {
    if ops == [] then Churned(t, []) else Next(After(t, ops[..|ops| - 1]), ops[|ops| - 1])
  }

  ghost function Next(c: Churned, op: Op): (c': Churned)
    requires |c.state.2| == 256
    ensures |c'.state.2| == 256
  {
    var (i, j, s) := c.state;
    match op
    case Mix(data) => if data == [] then c else c.(state := Added(i, j, s, data))
    case Draw =>
      var t := Stepped(i, j, s, 0);
      Churned(t, c.drawn + [t.2[(t.2[t.0] as int + t.2[t.1]) % 256]])
  }

  lemma AfterNext(t: (byte, byte, seq<byte>), ops: seq<Op>, k: nat)
    requires |t.2| == 256 && k < |ops|
    ensures After(t, ops[..k + 1]) == Next(After(t, ops[..k]), ops[k])
  {
    assert ops[..k + 1][..k] == ops[..k];
  }

  /** Whatever data is mixed in and however many bytes are drawn in between, the state
      stays a permutation: every byte value is in it, once. */
  method Churn(st: Stream, ops: seq<Op>) returns (drawn: seq<byte>)
    requires st.Valid()
    modifies st, st.s
    ensures st.Valid() && forall b: byte :: b in st.s[..]
    ensures |old(st.s[..])| == 256
    ensures After((old(st.i), old(st.j), old(st.s[..])), ops) == Churned((st.i, st.j, st.s[..]), drawn)
  {
    hide IsPermutation, Added, Stepped, After;
    Size(st.s[..]);
    ghost var t := (st.i, st.j, st.s[..]);
    drawn := [];
    NothingYet(t, ops);
    for k := 0 to |ops|
      invariant st.Valid() && After(t, ops[..k]) == Churned((st.i, st.j, st.s[..]), drawn)
    {
      AfterNext(t, ops, k);
      match ops[k] {
        case Mix(data) =>
          if data != [] {
            st.AddRandom(data);
          }
        case Draw =>
          var b := st.GetByte();
          drawn := drawn + [b];
      }
    }
    assert ops[..|ops|] == ops;
    forall b: byte
      ensures b in st.s[..]
    {
      EveryByte(st.s[..], b);
    }
  }

  lemma NothingYet(t: (byte, byte, seq<byte>), ops: seq<Op>)
    requires |t.2| == 256
    ensures After(t, ops[..0]) == Churned(t, [])
  {
  }

  lemma NextMod(a: nat)
    ensures (a % 256 + 1) % 256 == (a + 1) % 256
  {
  }

  lemma Size(s: seq<byte>)
    requires IsPermutation(s)
    ensures |s| == 256
  {
  }

  /** The state after one round with a byte of data; arc4_getbyte uses none. */
  ghost function Stepped(i: byte, j: byte, s: seq<byte>, key: byte): (t: (byte, byte, seq<byte>))
    requires |s| == 256
    ensures |t.2| == 256
  {
    var i' := (i + 1) % 256;
    var j' := (j + s[i'] + key) % 256;
    (i', j', Swap(s, i', j'))
  }

  /** The state after n rounds with the bytes of dat, taken again from the first one when
      they run out. */
  ghost function Mixed(i: byte, j: byte, s: seq<byte>, dat: seq<byte>, n: nat): (t: (byte, byte, seq<byte>))
    requires |s| == 256 && dat != []
    ensures |t.2| == 256
  {
    if n == 0 then (i, j, s)
    else var t := Mixed(i, j, s, dat, n - 1); Stepped(t.0, t.1, t.2, dat[(n - 1) % |dat|])
  }

  lemma NothingMixed(i: byte, j: byte, s: seq<byte>, dat: seq<byte>)
    requires |s| == 256 && dat != []
    ensures Mixed(i, j, s, dat, 0) == (i, j, s)
  {
  }

  lemma MixStep(i: byte, j: byte, s: seq<byte>, dat: seq<byte>, n: nat)
    requires |s| == 256 && dat != []
    ensures var t := Mixed(i, j, s, dat, n);
            Mixed(i, j, s, dat, n + 1) == Stepped(t.0, t.1, t.2, dat[n % |dat|])
            && Stepped(t.0, t.1, t.2, dat[n % |dat|]).0 == (t.0 + 1) % 256
  {
  }

  /** The state before a round. */
  ghost function Unstepped(i: byte, j: byte, s: seq<byte>, key: byte): (t: (byte, byte, seq<byte>))
    requires |s| == 256
    ensures |t.2| == 256
  {
    var s' := Swap(s, i, j);
    ((i + 255) % 256, (j + 512 - s'[i] - key) % 256, s')
  }

  lemma SwapTwice(s: seq<byte>, i: nat, j: nat)
    requires i < |s| && j < |s|
    ensures |Swap(s, i, j)| == |s| && Swap(Swap(s, i, j), i, j) == s && Swap(s, i, j)[j] == s[i]
  {
  }

  /** Every state has one predecessor. */
  lemma StepInverse(i: byte, j: byte, s: seq<byte>, key: byte)
    requires |s| == 256
    ensures var t := Stepped(i, j, s, key); Unstepped(t.0, t.1, t.2, key) == (i, j, s)
  {
    hide Swap;
    var t := Stepped(i, j, s, key);
    SwapTwice(s, t.0, t.1);
  }

  lemma UnstepInverse(i: byte, j: byte, s: seq<byte>, key: byte)
    requires |s| == 256
    ensures var t := Unstepped(i, j, s, key); Stepped(t.0, t.1, t.2, key) == (i, j, s)
  {
    hide Swap;
    SwapTwice(s, i, j);
  }

  /** The state before n rounds. */
  ghost function Unmixed(i: byte, j: byte, s: seq<byte>, dat: seq<byte>, n: nat): (t: (byte, byte, seq<byte>))
    requires |s| == 256 && dat != []
    ensures |t.2| == 256
    decreases n
  {
    if n == 0 then (i, j, s)
    else var t := Unstepped(i, j, s, dat[(n - 1) % |dat|]); Unmixed(t.0, t.1, t.2, dat, n - 1)
  }

  /** The rounds lose nothing, while j is kept: from where they end and the data, the state
      before them follows. */
  lemma {:induction false} MixedInverse(i: byte, j: byte, s: seq<byte>, dat: seq<byte>, n: nat)
    requires |s| == 256 && dat != []
    ensures var t := Mixed(i, j, s, dat, n); Unmixed(t.0, t.1, t.2, dat, n) == (i, j, s)
  {
    if n > 0 {
      hide Stepped, Unstepped;
      var x := Mixed(i, j, s, dat, n - 1);
      StepInverse(x.0, x.1, x.2, dat[(n - 1) % |dat|]);
      MixedInverse(i, j, s, dat, n - 1);
    }
  }

  /** And every state is where some rounds end. */
  lemma {:induction false} UnmixedInverse(i: byte, j: byte, s: seq<byte>, dat: seq<byte>, n: nat)
    requires |s| == 256 && dat != []
    ensures var t := Unmixed(i, j, s, dat, n); Mixed(t.0, t.1, t.2, dat, n) == (i, j, s)
    decreases n
  {
    if n > 0 {
      hide Stepped, Unstepped;
      var key := dat[(n - 1) % |dat|];
      var u := Unstepped(i, j, s, key);
      UnstepInverse(i, j, s, key);
      UnmixedInverse(u.0, u.1, u.2, dat, n - 1);
    }
  }

  lemma {:induction false} UnmixedPermutation(i: byte, j: byte, s: seq<byte>, dat: seq<byte>, n: nat)
    requires IsPermutation(s) && dat != []
    ensures IsPermutation(Unmixed(i, j, s, dat, n).2)
    decreases n
  {
    if n > 0 {
      var t := Unstepped(i, j, s, dat[(n - 1) % |dat|]);
      SwapDistinct(s, i, j);
      UnmixedPermutation(t.0, t.1, t.2, dat, n - 1);
    }
  }

  /** What arc4_addrandom makes of a state: 256 rounds from the position before i, and then
      j is overwritten with i. */
  ghost function Added(i: byte, j: byte, s: seq<byte>, dat: seq<byte>): (t: (byte, byte, seq<byte>))
    requires |s| == 256 && dat != []
    ensures |t.2| == 256
  {
    var t := Mixed((i + 255) % 256, j, s, dat, 256);
    (t.0, t.0, t.2)
  }

  /** The state before arc4_addrandom, if its rounds ended with j where the result says i. */
  ghost function Unadded(i: byte, j: byte, s: seq<byte>, dat: seq<byte>): (t: (byte, byte, seq<byte>))
    requires |s| == 256 && dat != []
    ensures |t.2| == 256
  {
    var t := Unmixed(i, j, s, dat, 256);
    ((t.0 + 1) % 256, t.1, t.2)
  }

  /** Overwriting j loses exactly one byte: a state r is the result of 256 states, one for
      each j the rounds could end with, and of no others. */
  lemma AddedFrom(a: (byte, byte, seq<byte>), r: (byte, byte, seq<byte>), dat: seq<byte>)
    requires |a.2| == 256 && |r.2| == 256 && dat != []
    ensures Added(a.0, a.1, a.2, dat) == r <==> r.1 == r.0 && exists v: byte :: a == Unadded(r.0, v, r.2, dat)
    ensures forall v: byte, w: byte :: Unadded(r.0, v, r.2, dat) == Unadded(r.0, w, r.2, dat) ==> v == w
    ensures IsPermutation(r.2) ==> forall v: byte :: IsPermutation(Unadded(r.0, v, r.2, dat).2)
  {
    hide Mixed, Unmixed, IsPermutation;
    MixedInverse((a.0 + 255) % 256, a.1, a.2, dat, 256);
    var t := Mixed((a.0 + 255) % 256, a.1, a.2, dat, 256);
    if Added(a.0, a.1, a.2, dat) == r {
      assert a == Unadded(r.0, t.1, r.2, dat);
    }
    forall v: byte
      ensures var u := Unmixed(r.0, v, r.2, dat, 256); Mixed(u.0, u.1, u.2, dat, 256) == (r.0, v, r.2)
      ensures IsPermutation(r.2) ==> IsPermutation(Unadded(r.0, v, r.2, dat).2)
    {
      UnmixedInverse(r.0, v, r.2, dat, 256);
      if IsPermutation(r.2) {
        UnmixedPermutation(r.0, v, r.2, dat, 256);
      }
    }
  }

  /** arc4random_uniform: the smallest number accepted, in 32-bit arithmetic. */
  function MinAccepted(bound: nat): nat
    requires 2 <= bound < TWO32
  {
    if bound > 0x8000_0000 then (1 + (TWO32 - 1 - bound)) % TWO32
    else ((0xffff_ffff - bound * 2 % TWO32) + 1) % TWO32 % bound
  }

  lemma MinIs(bound: nat)
    requires 2 <= bound < TWO32
    ensures MinAccepted(bound) == TWO32 % bound
  {
    if bound > 0x8000_0000 {
      ModIs(TWO32, bound, 1, TWO32 - bound);
    } else if bound == 0x8000_0000 {
      ModIs(TWO32, bound, 2, 0);
    } else {
      MinSmall(bound);
      AddTwice(TWO32 - 2 * bound, bound);
    }
  }

  lemma MinSmall(bound: nat)
    requires 2 <= bound < 0x8000_0000
    ensures MinAccepted(bound) == (TWO32 - 2 * bound) % bound
  {
    ModIs(bound * 2, TWO32, 0, bound * 2);
    ModIs(TWO32 - 2 * bound, TWO32, 0, TWO32 - 2 * bound);
  }

  lemma AddTwice(n: nat, m: nat)
    requires m > 0
    ensures (n + 2 * m) % m == n % m
  {
    AddOnce(n, m);
    AddOnce(n + m, m);
  }

  lemma AddOnce(n: nat, m: nat)
    requires m > 0
    ensures (n + m) % m == n % m
  {
    var q, r := n / m, n % m;
    Divides(n, m);
    assert n + m == (q + 1) * m + r;
    ModIs(n + m, m, q + 1, r);
  }

  lemma Divides(n: nat, m: nat)
    requires m > 0
    ensures n == n / m * m + n % m && n % m < m && n / m >= 0
  {
  }

  lemma Wide(x: int, m: nat)
    requires x >= 1
    ensures x * m >= m
  {
    assert x * m == m + (x - 1) * m;
  }

  lemma ModIs(n: nat, m: nat, q: nat, r: nat)
    requires m > 0 && n == q * m + r && r < m
    ensures n % m == r && n / m == q
  {
    Divides(n, m);
    var q', r' := n / m, n % m;
    assert (q - q') * m == q * m - q' * m == r' - r;
    if q' < q {
      Wide(q - q', m);
    } else if q' > q {
      assert (q' - q) * m == q' * m - q * m;
      Wide(q' - q, m);
    }
  }

  /** How many numbers from lo up to hi have the remainder v. */
  function CountOf(lo: nat, hi: nat, m: nat, v: nat): nat
    requires m > 0 && lo <= hi
    decreases hi - lo
  {
    if lo == hi then 0 else CountOf(lo, hi - 1, m, v) + if (hi - 1) % m == v then 1 else 0
  }

  lemma {:induction false} CountSplit(lo: nat, mid: nat, hi: nat, m: nat, v: nat)
    requires m > 0 && lo <= mid <= hi
    ensures CountOf(lo, hi, m, v) == CountOf(lo, mid, m, v) + CountOf(mid, hi, m, v)
    decreases hi - mid
  {
    if mid < hi {
      CountSplit(lo, mid, hi - 1, m, v);
    }
  }

  lemma {:induction false} CountFirst(k: nat, m: nat, v: nat)
    requires m > 0 && k <= m && v < m
    ensures CountOf(0, k, m, v) == if v < k then 1 else 0
  {
    if k > 0 {
      CountFirst(k - 1, m, v);
      ModIs(k - 1, m, 0, k - 1);
    }
  }

  /** Any m numbers in a row have each remainder once. */
  lemma {:induction false} CountWindow(lo: nat, m: nat, v: nat)
    requires m > 0 && v < m
    ensures CountOf(lo, lo + m, m, v) == 1
  {
    if lo == 0 {
      CountFirst(m, m, v);
    } else {
      hide CountOf;
      CountWindow(lo - 1, m, v);
      CountSplit(lo - 1, lo, lo - 1 + m, m, v);
      CountSplit(lo, lo - 1 + m, lo + m, m, v);
      AddOnce(lo - 1, m);
      CountOne(lo - 1, m, v);
      CountOne(lo - 1 + m, m, v);
    }
  }

  lemma CountOne(x: nat, m: nat, v: nat)
    requires m > 0
    ensures CountOf(x, x + 1, m, v) == if x % m == v then 1 else 0
  {
    assert CountOf(x, x, m, v) == 0;
  }

  lemma {:induction false} CountWindows(lo: nat, hi: nat, q: nat, m: nat, v: nat)
    requires m > 0 && v < m && hi == lo + q * m
    ensures hi >= lo && CountOf(lo, hi, m, v) == q
    decreases q
  {
    hide CountOf;
    if q > 0 {
      assert q * m == m + (q - 1) * m;
      CountWindow(lo, m, v);
      CountWindows(lo + m, hi, q - 1, m, v);
      CountSplit(lo, lo + m, hi, m, v);
    } else {
      CountNone(lo, m, v);
    }
  }

  lemma CountNone(lo: nat, m: nat, v: nat)
    requires m > 0
    ensures CountOf(lo, lo, m, v) == 0
  {
  }

  /** Every result below the bound has exactly floor(2^32 / bound) accepted words. */
  lemma Unbiased(bound: nat, v: nat)
    requires 2 <= bound < TWO32 && v < bound
    ensures MinAccepted(bound) <= TWO32 && CountOf(MinAccepted(bound), TWO32, bound, v) == TWO32 / bound
  {
    MinIs(bound);
    var q, r := TWO32 / bound, TWO32 % bound;
    assert TWO32 == r + q * bound;
    CountWindows(r, TWO32, q, bound, v);
  }

  /** arc4random_uniform, on the words that arc4random returns: the first accepted one,
      reduced. */
  method Uniform(bound: nat, words: seq<nat>) returns (v: Option<nat>)
    requires bound < TWO32 && forall i :: 0 <= i < |words| ==> words[i] < TWO32
    ensures bound < 2 ==> v == Some(0)
    ensures bound >= 2 && v.None? ==> forall i :: 0 <= i < |words| ==> words[i] < TWO32 % bound
    ensures bound >= 2 && v.Some? ==>
              exists k :: 0 <= k < |words| && v.value == words[k] % bound < bound && words[k] >= TWO32 % bound
                          && forall i :: 0 <= i < k ==> words[i] < TWO32 % bound
  {
    if bound < 2 {
      return Some(0);
    }
    MinIs(bound);
    var least := MinAccepted(bound);
    for k := 0 to |words|
      invariant forall i :: 0 <= i < k ==> words[i] < least
    {
      if words[k] >= least {
        return Some(words[k] % bound);
      }
    }
    v := None;
  }
}

/** The evbuffer of buffer.c: a byte queue kept as a singly linked list of
    chunks ("chains") with slack at both ends, a cached length, a pointer to the
    last chain, and a pointer to the link that leads to the last chain holding
    data. */
module EvbufferCore {
  import opened Bytes

  // LP64 values.
  const SIZE_MAX := 0xFFFF_FFFF_FFFF_FFFF
  const SSIZE_MAX := 0x7FFF_FFFF_FFFF_FFFF
  const CHAIN_MAX := SSIZE_MAX          // EVBUFFER_CHAIN_MAX
  const CHAIN_SIZE := 48                // sizeof(struct evbuffer_chain)
  const MAX_ALLOC := CHAIN_MAX - CHAIN_SIZE
  const MIN_BUFFER_SIZE := 1024
  const MAX_AUTO_SIZE := 4096           // EVBUFFER_CHAIN_MAX_AUTO_SIZE
  const MAX_TO_REALIGN := 2048          // MAX_TO_REALIGN_IN_EXPAND

  class Chain {
    var next: Chain?
    var mem: seq<byte>       // the memory behind `buffer`
    const bufferLen: nat     // how much that is
    const immutable: bool
    var misalign: nat
    var off: nat

    constructor (mem: seq<byte>, immutable: bool, off: nat)
      ensures this.mem == mem && bufferLen == |mem| && this.immutable == immutable
      ensures next == null && misalign == 0 && this.off == off
    {
      this.mem, bufferLen := mem, |mem|;
      this.immutable := immutable;
      next, misalign, this.off := null, 0, off;
    }

    /** A reference chain never has room behind its data, and is never drained down
        to nothing without being freed. */
    ghost predicate Ok()
      reads this`mem, this`misalign, this`off
    {
      && misalign + off <= |mem| == bufferLen
      && (immutable ==> misalign + off == |mem| && (off == 0 ==> mem == []))
    }

    ghost function Data(): seq<byte>
      requires Ok()
      reads this`mem, this`misalign, this`off
    {
      mem[misalign..misalign + off]
    }

    /** The n bytes at offset r of the data. */
    function Slice(r: nat, n: nat): (s: seq<byte>)
      requires Ok() && r + n <= off
      reads this`mem, this`misalign, this`off
      ensures s == Data()[r..r + n]
    {
      SliceOfSlice(mem, misalign, misalign + off, r, n);
      mem[misalign + r..misalign + r + n]
    }

    /** The chain still holds the same bytes in the same place. */
    twostate predicate SameBytes()
      reads this`mem, this`misalign, this`off
    {
      mem == old(mem) && misalign == old(misalign) && off == old(off)
    }

    /** CHAIN_SPACE_LEN */
    function SpaceLen(): nat
      requires Ok()
      reads this`mem, this`misalign, this`off
    {
      if immutable then 0 else |mem| - (misalign + off)
    }

    /** evbuffer_chain_should_realign */
    predicate ShouldRealign(datlen: nat)
      requires Ok()
      reads this`mem, this`misalign, this`off
    {
      |mem| - off >= datlen && off < |mem| / 2 && off <= MAX_TO_REALIGN
    }

    /** memcpy into the chain's memory at index at. */
    method Put(at: nat, d: seq<byte>)
      requires at + |d| <= |mem|
      modifies this`mem
      ensures mem == old(mem[..at]) + d + old(mem[at + |d|..])
    {
      mem := mem[..at] + d + mem[at + |d|..];
    }

    /** memcpy behind the data. */
    method PushBack(d: seq<byte>)
      requires Ok() && !immutable && |d| <= SpaceLen()
      modifies this`mem, this`off
      ensures Ok() && Data() == old(Data()) + d && off == old(off) + |d| && |mem| == old(|mem|)
    {
      Put(misalign + off, d);
      off := off + |d|;
    }

    /** memcpy in front of the data. */
    method PushFront(d: seq<byte>)
      requires Ok() && !immutable && |d| <= misalign
      modifies this`mem, this`misalign, this`off
      ensures Ok() && Data() == d + old(Data())
      ensures misalign == old(misalign) - |d| && off == old(off) + |d| && |mem| == old(|mem|)
    {
      Put(misalign - |d|, d);
      off := off + |d|;
      misalign := misalign - |d|;
    }

    /** Gives up the first n bytes of data. */
    method DropFront(n: nat)
      requires Ok() && (n < off || n == 0)
      modifies this`misalign, this`off
      ensures Ok() && Data() == old(Data())[n..] && off == old(off) - n
    {
      misalign := misalign + n;
      off := off - n;
    }

    /** memcpy into a new chain. */
    method Fill(d: seq<byte>)
      requires misalign == 0 && |d| <= |mem| == bufferLen && !immutable
      modifies this`mem, this`off
      ensures Ok() && Data() == d && off == |d| && |mem| == old(|mem|)
    {
      Put(0, d);
      off := |d|;
    }

    /** evbuffer_chain_align */
    method Align()
      requires Ok() && !immutable
      modifies this`misalign, this`mem
      ensures Ok() && misalign == 0 && Data() == old(Data()) && |mem| == old(|mem|)
    {
      mem := mem[misalign..misalign + off] + mem[off..];
      misalign := 0;
    }
  }

  /** The place a chain hangs from: the buffer's `first` field or the `next`
      field of another chain. This is what `last_with_datap` points at. */
  datatype Slot = First | NextOf(chain: Chain)

  /** evbuffer_chain_new: how many bytes to allocate. */
  method AllocSize(size: nat) returns (n: nat)
    requires size <= CHAIN_MAX
    ensures size <= n <= CHAIN_MAX
    ensures size >= CHAIN_MAX / 2 ==> n == size
    ensures size < CHAIN_MAX / 2 ==> n >= MIN_BUFFER_SIZE && (n == MIN_BUFFER_SIZE || n / 2 < size)
  {
    if size < CHAIN_MAX / 2 {
      n := MIN_BUFFER_SIZE;
      while n < size
        invariant MIN_BUFFER_SIZE <= n <= CHAIN_MAX
        invariant n == MIN_BUFFER_SIZE || n / 2 < size
        decreases size - n
      {
        n := n * 2;
      }
    } else {
      n := size;
    }
  }

  /** evbuffer_chain_new. `mallocOk` is the outcome of the allocation. */
  method ChainNew(size: nat, mallocOk: bool) returns (c: Chain?)
    ensures c == null <==> !mallocOk || size > MAX_ALLOC
    ensures c != null ==> fresh(c) && !c.immutable && c.next == null
    ensures c != null ==> c.misalign == 0 && c.off == 0
    ensures c != null ==> size <= c.bufferLen == |c.mem| <= MAX_ALLOC && MIN_BUFFER_SIZE - CHAIN_SIZE <= |c.mem|
  {
    if size > MAX_ALLOC {
      return null;
    }
    var toAlloc := AllocSize(size + CHAIN_SIZE);
    if !mallocOk {
      return null;
    }
    c := new Chain(seq(toAlloc - CHAIN_SIZE, _ => 0), false, 0);
  }

  /** struct evbuffer_ptr: a position in a buffer, and the chain it is in. */
  datatype EvbufferPtr = EvbufferPtr(pos: int, chain: Chain?, posInChain: nat)

  /** No chain is larger than evbuffer_chain_new can make one. */
  ghost predicate Bounded(cs: seq<Chain>)
  {
    forall c :: c in cs ==> c.bufferLen <= MAX_ALLOC
  }

  /** The chains of a list, as a frame. */
  ghost function ChainSet(cs: seq<Chain>): set<Chain>
  {
    set c | c in cs
  }

  /** No chain occurs twice. */
  ghost predicate Distinct(cs: seq<Chain>)
  {
    forall i, j :: 0 <= i < j < |cs| ==> cs[i] != cs[j]
  }

  /** Chain number i, or null behind the last one. */
  ghost function ChainAt(cs: seq<Chain>, i: nat): Chain?
  {
    if i < |cs| then cs[i] else null
  }

  /** Following `next` from `first` visits cs and then ends. */
  ghost predicate Linked(first: Chain?, cs: seq<Chain>)
    reads cs`next
  {
    && first == ChainAt(cs, 0)
    && (forall i :: 0 <= i < |cs| ==> cs[i].next == ChainAt(cs, i + 1))
  }

  /** Chain number i holds the bytes ds[i]. */
  ghost predicate Holds(cs: seq<Chain>, ds: seq<seq<byte>>)
    reads cs`mem, cs`misalign, cs`off
  {
    && |cs| == |ds|
    && (forall i :: 0 <= i < |cs| ==> cs[i].Ok() && ds[i] == cs[i].Data())
  }

  /** The slot that leads to chain number i (or to the end of the list). */
  ghost function SlotAt(cs: seq<Chain>, i: nat): Slot
    requires i <= |cs|
  {
    if i == 0 then First else NextOf(cs[i - 1])
  }

  /** Chain number k is the last one with data, or k is 0 if there is none. */
  ghost predicate LastWithData(ds: seq<seq<byte>>, k: nat)
  {
    && (if ds == [] then k == 0 else k < |ds|)
    && (0 < k ==> ds[k] != [])
    && (forall i :: k < i < |ds| ==> ds[i] == [])
  }

  /** How many chains evbuffer_free_trailing_empty_chains keeps. */
  ghost function Kept(ds: seq<seq<byte>>, k: nat): (n: nat)
    requires LastWithData(ds, k)
    ensures n <= |ds|
  {
    if ds == [] || ds[k] == [] then k else k + 1
  }

  lemma KeptFacts(ds: seq<seq<byte>>, k: nat)
    requires LastWithData(ds, k)
    ensures var n := Kept(ds, k); LastWithData(ds[..n], k) && Flatten(ds[..n]) == Flatten(ds)
    ensures var n := Kept(ds, k); Kept(ds[..n], k) == n
  {
    FlattenTrim(ds, Kept(ds, k));
  }

  lemma ListPrefix(cs: seq<Chain>, ds: seq<seq<byte>>, n: nat)
    requires n <= |cs| && Distinct(cs) && Holds(cs, ds)
    ensures Distinct(cs[..n]) && Holds(cs[..n], ds[..n])
  {
  }

  /** Dropping the first i chains. */
  lemma ListSuffix(first: Chain?, cs: seq<Chain>, ds: seq<seq<byte>>, i: nat)
    requires i <= |cs| && Distinct(cs) && Linked(first, cs) && Holds(cs, ds)
    ensures Distinct(cs[i..]) && Linked(ChainAt(cs, i), cs[i..]) && Holds(cs[i..], ds[i..])
  {
    forall j | 0 <= j < |cs[i..]|
      ensures cs[i..][j].next == ChainAt(cs[i..], j + 1)
    {
      assert cs[i..][j] == cs[i + j];
      assert ChainAt(cs[i..], j + 1) == ChainAt(cs, i + j + 1);
    }
  }

  /** The slot of chain k once the first i chains are gone. */
  lemma SlotSuffix(cs: seq<Chain>, i: nat, k: nat)
    requires i <= k <= |cs|
    ensures SlotAt(cs[i..], k - i) == if k == i then First else SlotAt(cs, k)
  {
  }

  lemma LinkedAt(first: Chain?, cs: seq<Chain>, i: nat)
    requires Linked(first, cs) && i < |cs|
    ensures first == cs[0] && cs[i].next == ChainAt(cs, i + 1)
  {
  }

  lemma LinkedHead(first: Chain?, cs: seq<Chain>)
    requires Linked(first, cs)
    ensures first == ChainAt(cs, 0)
  {
  }

  /** A list none of whose links changed is still linked. */
  twostate lemma LinkedSame(cs: seq<Chain>)
    requires old(Linked(ChainAt(cs, 0), cs)) && forall c :: c in cs ==> c.next == old(c.next)
    ensures Linked(ChainAt(cs, 0), cs)
  {
    forall i | 0 <= i < |cs|
      ensures cs[i].next == ChainAt(cs, i + 1)
    {
      assert cs[i] in cs;
      assert old(cs[i].next) == ChainAt(cs, i + 1);
    }
  }

  lemma DistinctAt(cs: seq<Chain>, i: nat, j: nat)
    requires Distinct(cs) && i < |cs| && j < |cs|
    ensures cs[i] == cs[j] <==> i == j
  {
  }

  lemma ListAppend(cs: seq<Chain>, ds: seq<seq<byte>>, more: seq<Chain>, moreData: seq<seq<byte>>)
    requires Distinct(cs) && Holds(cs, ds)
    requires Distinct(more) && Holds(more, moreData)
    requires forall c :: c in more ==> c !in cs
    ensures Distinct(cs + more) && Holds(cs + more, ds + moreData)
  {
    var all := cs + more;
    forall i, j | 0 <= i < j < |all|
      ensures all[i] != all[j]
    {
      if i < |cs| <= j {
        assert all[j] in more;
      }
    }
  }

  lemma ListSnoc(cs: seq<Chain>, ds: seq<seq<byte>>, c: Chain)
    requires Distinct(cs) && Holds(cs, ds)
    requires c.Ok() && c !in cs
    ensures Distinct(cs + [c]) && Holds(cs + [c], ds + [c.Data()])
  {
    ListAppend(cs, ds, [c], [c.Data()]);
  }

  lemma SlotPrefix(cs: seq<Chain>, more: seq<Chain>, i: nat)
    requires i <= |cs|
    ensures SlotAt(cs + more, i) == SlotAt(cs, i)
  {
  }

  /** Appending a chunk behind a list with no trailing empty chunk. */
  lemma LastWithDataSnoc(ds: seq<seq<byte>>, k: nat, d: seq<byte>)
    requires LastWithData(ds, k) && Kept(ds, k) == |ds|
    ensures LastWithData(ds + [d], if d == [] then k else |ds|)
    ensures Flatten(ds + [d]) == Flatten(ds) + d
  {
    FlattenConcat(ds, [d]);
    FlattenSingle(d);
  }

  lemma HoldsLen(cs: seq<Chain>, ds: seq<seq<byte>>)
    requires Holds(cs, ds)
    ensures |cs| == |ds|
  {
  }

  lemma HoldsAt(cs: seq<Chain>, ds: seq<seq<byte>>, i: nat)
    requires Holds(cs, ds) && i < |cs|
    ensures |cs| == |ds| && cs[i].Ok() && ds[i] == cs[i].Data()
  {
  }

  /** Rewriting one chain in place changes just that chain's bytes. */
  twostate lemma HoldsUpdate(cs: seq<Chain>, new ds: seq<seq<byte>>, new i: nat)
    requires old(Holds(cs, ds)) && Distinct(cs)
    requires i < |cs| && cs[i].Ok()
    requires forall c :: c in cs && c != cs[i] ==> c.SameBytes()
    ensures Holds(cs, ds[i := cs[i].Data()])
  {
    forall j | 0 <= j < |cs|
      ensures cs[j].Ok() && ds[i := cs[i].Data()][j] == cs[j].Data()
    {
      if j != i {
        assert cs[j] in cs && cs[j] != cs[i];
        assert old(cs[j].Ok()) && ds[j] == old(cs[j].Data());
      }
    }
  }

  /** Adding bytes to the last chunk with data adds them at the end. */
  lemma LastWithDataExtend(ds: seq<seq<byte>>, k: nat, d: seq<byte>)
    requires LastWithData(ds, k) && k < |ds|
    ensures LastWithData(ds[k := ds[k] + d], k)
    ensures Flatten(ds[k := ds[k] + d]) == Flatten(ds) + d
  {
    FlattenUpdate(ds, k, ds[k] + d);
    FlattenAt(ds, k);
    FlattenEmpty(ds[k + 1..]);
  }

  lemma EmptyList()
    ensures Distinct([]) && Linked(null, []) && Holds([], []) && LastWithData([], 0)
    ensures SlotAt([], 0) == First && Flatten([]) == []
  {
  }

  lemma OneChain(c: Chain)
    requires c.next == null && c.Ok()
    ensures Distinct([c]) && Linked(c, [c]) && Holds([c], [c.Data()])
  {
  }

  class Evbuffer {
    var first: Chain?
    var last: Chain?
    var lwd: Slot            // last_with_datap
    var totalLen: nat
    var freezeStart: bool
    var freezeEnd: bool

    ghost var chains: seq<Chain>       // the list, in order
    ghost var datas: seq<seq<byte>>    // the bytes each chain holds
    ghost var k: nat                   // the index of *last_with_datap

    /** The flat byte sequence the buffer stands for. */
    ghost function Contents(): seq<byte>
      reads this
    {
      Flatten(datas)
    }

    ghost function Repr(): set<object>
      reads this
    {
      {this as object} + (set c: Chain | c in chains :: c as object)
    }

    ghost predicate ValidExceptLast()
      reads this, chains
    {
      && |chains| == |datas|
      && Distinct(chains)
      && Linked(first, chains)
      && Holds(chains, datas)
      && LastWithData(datas, k)
      && k <= |chains| && lwd == SlotAt(chains, k)
      && totalLen == |Contents()| <= SIZE_MAX
    }

    ghost predicate Valid()
      reads this, chains
    {
      && ValidExceptLast()
      && last == (if chains == [] then null else chains[|chains| - 1])
    }

    /** p is a position of this buffer, in (or at the end of) chain number i. */
    ghost predicate PtrIn(p: EvbufferPtr, i: nat)
      reads this
    {
      && i <= |datas|
      && p.chain == ChainAt(chains, i)
      && p.posInChain <= (if i < |datas| then |datas[i]| else 0)
      && p.pos == |Flatten(datas[..i])| + p.posInChain
    }

    /** Every chain in the list was there before or has been allocated since. */
    twostate predicate OnlyNewChains()
      reads this
    {
      forall c :: c in chains ==> c in old(chains) || (fresh(c) && c.bufferLen <= MAX_ALLOC)
    }

    twostate predicate SameFlags()
      reads this
    {
      freezeStart == old(freezeStart) && freezeEnd == old(freezeEnd)
    }

    twostate predicate SameHeader()
      reads this
    {
      && first == old(first) && last == old(last) && lwd == old(lwd) && totalLen == old(totalLen)
      && chains == old(chains) && datas == old(datas) && k == old(k)
    }

    /** evbuffer_new */
    constructor ()
      ensures Valid() && fresh(Repr()) && Contents() == [] && chains == []
      ensures !freezeStart && !freezeEnd
    {
      first, last, lwd, totalLen := null, null, First, 0;
      freezeStart, freezeEnd := false, false;
      chains, datas, k := [], [], 0;
    }

    /** The chain a slot leads to. */
    function Deref(s: Slot): Chain?
      reads this`first, (if s.NextOf? then {s.chain} else {})`next
    {
      if s.First? then first else s.chain.next
    }

    /** Writes last, last_with_datap and total_len, once the links are in place. */
    method SetHeader(last: Chain?, lwd: Slot, totalLen: nat,
                     ghost cs: seq<Chain>, ghost ds: seq<seq<byte>>, ghost k: nat)
      requires Distinct(cs) && Linked(first, cs) && Holds(cs, ds) && LastWithData(ds, k)
      requires k <= |cs| && lwd == SlotAt(cs, k)
      requires totalLen == |Flatten(ds)| <= SIZE_MAX
      requires last == (if cs == [] then null else cs[|cs| - 1])
      modifies this`last, this`lwd, this`totalLen, this`chains, this`datas, this`k
      ensures Valid() && SameFlags()
      ensures this.chains == cs && this.datas == ds && this.k == k
      ensures this.first == old(this.first) && this.last == last && this.lwd == lwd
    {
      hide Distinct, Linked, Holds, LastWithData, Flatten, SlotAt;
      HoldsLen(cs, ds);
      this.last, this.lwd, this.totalLen := last, lwd, totalLen;
      this.chains, this.datas, this.k := cs, ds, k;
    }

    /** What *last_with_datap is. */
    lemma DerefLwd()
      requires ValidExceptLast()
      ensures if chains == [] then Deref(lwd) == null else k < |chains| && Deref(lwd) == chains[k]
      ensures chains == [] ==> datas == [] && k == Kept(datas, k) == 0 && lwd == First
    {
    }

    /** Assigns the place a slot stands for. */
    method Store(s: Slot, c: Chain?)
      modifies this`first, (if s.NextOf? then {s.chain} else {})`next
      ensures if s.First? then first == c else s.chain.next == c && first == old(first)
    {
      if s.First? {
        first := c;
      } else {
        s.chain.next := c;
      }
    }

    /** Storing null at slot number n cuts the list there. */
    method CutAt(s: Slot, ghost n: nat)
      requires Distinct(chains) && Linked(first, chains)
      requires n <= |chains| && s == SlotAt(chains, n)
      modifies this`first, (if s.NextOf? then {s.chain} else {})`next
      ensures Linked(first, chains[..n])
    {
      Store(s, null);
    }

    /** Storing the head of another list at the end of this one joins the two. */
    method JoinAt(s: Slot, c: Chain?, ghost more: seq<Chain>)
      requires Distinct(chains) && Distinct(chains + more) && Linked(first, chains) && Linked(c, more)
      requires s == SlotAt(chains, |chains|)
      modifies this`first, chains`next
      ensures Linked(first, chains + more)
    {
      ghost var all := chains + more;
      Store(s, c);
      forall i | 0 <= i < |all|
        ensures all[i].next == ChainAt(all, i + 1)
      {
        if i < |chains| {
          assert all[i] == chains[i];
          if i + 1 < |chains| {
            assert chains[i] != chains[|chains| - 1];
            assert old(chains[i].next) == ChainAt(chains, i + 1) == ChainAt(all, i + 1);
          } else {
            assert ChainAt(more, 0) == ChainAt(all, i + 1);
          }
        } else {
          ghost var j := i - |chains|;
          assert all[i] == more[j];
          assert chains != [] ==> all[|chains| - 1] == chains[|chains| - 1] != more[j];
          assert old(more[j].next) == ChainAt(more, j + 1) == ChainAt(all, i + 1);
        }
      }
      assert Linked(first, all);
    }

    /** The loop of evbuffer_free_trailing_empty_chains: the first slot whose chain
        is empty, or the end of the list. */
    method FindTrailing() returns (ch: Slot, ghost n: nat)
      requires ValidExceptLast()
      ensures n == Kept(datas, k) <= |chains| && ch == SlotAt(chains, n)
      ensures Deref(ch) == ChainAt(chains, n)
    {
      ch, n := lwd, k;
      while Deref(ch) != null && Deref(ch).off != 0
        invariant n <= |chains| && ch == SlotAt(chains, n)
        invariant n == k || (n == k + 1 && datas[k] != [])
        decreases |chains| - n
      {
        assert n < |chains| && Deref(ch) == chains[n];
        assert datas[n] != [];
        ch := NextOf(Deref(ch));
        n := n + 1;
      }
    }

    /** evbuffer_free_trailing_empty_chains; `last` is left for the caller to fix. */
    method FreeTrailingEmptyChains() returns (ch: Slot)
      requires ValidExceptLast()
      modifies this`first, this`chains, this`datas, chains`next
      ensures ValidExceptLast()
      ensures chains == old(chains[..Kept(datas, k)]) && datas == old(datas[..Kept(datas, k)])
      ensures Contents() == old(Contents())
      ensures ch == SlotAt(chains, |chains|) && Kept(datas, k) == |datas|
      ensures chains <= old(chains)
    {
      hide Distinct, Linked, Holds, LastWithData, Kept, Flatten;
      ghost var n: nat;
      ch, n := FindTrailing();
      KeptFacts(datas, k);
      ListPrefix(chains, datas, n);
      if Deref(ch) != null {
        CutAt(ch, n);
      } else {
        assert chains[..n] == chains;
      }
      chains, datas := chains[..n], datas[..n];
    }

    /** The second half of evbuffer_chain_insert: hangs c from the end of a list
        with no trailing empty chain. */
    method LinkAtEnd(ch: Slot, c: Chain)
      requires ValidExceptLast() && Kept(datas, k) == |datas|
      requires ch == SlotAt(chains, |chains|)
      requires c !in chains && c.next == null && c.Ok()
      requires totalLen + c.off <= SIZE_MAX
      modifies this`first, this`last, this`lwd, this`totalLen, this`chains, this`datas, this`k, chains`next
      ensures SameFlags()
      ensures Valid()
      ensures chains == old(chains) + [c] && datas == old(datas) + [c.Data()]
      ensures k == if c.off == 0 then old(k) else |old(chains)|
      ensures Contents() == old(Contents()) + c.Data()
    {
      hide Distinct, Linked, Holds, LastWithData, Kept, Flatten, SlotAt;
      ghost var d := c.Data();
      OneChain(c);
      LastWithDataSnoc(datas, k, d);
      ListSnoc(chains, datas, c);
      SlotPrefix(chains, [c], k);
      SlotPrefix(chains, [c], |chains|);
      JoinAt(ch, c, [c]);
      SetHeader(c, if c.off != 0 then ch else lwd, totalLen + c.off,
                chains + [c], datas + [d], if d == [] then k else |datas|);
    }

    /** evbuffer_chain_insert */
    method ChainInsert(c: Chain)
      requires Valid()
      requires c !in chains && c.next == null && c.Ok()
      requires totalLen + c.off <= SIZE_MAX
      modifies this`first, this`last, this`lwd, this`totalLen, this`chains, this`datas, this`k, chains`next
      ensures SameFlags()
      ensures Valid()
      ensures chains == old(chains[..Kept(datas, k)]) + [c]
      ensures datas == old(datas[..Kept(datas, k)]) + [c.Data()]
      ensures forall x :: x in chains ==> x in old(chains) || x == c
      ensures c.off == 0 ==> k == old(k)
      ensures Contents() == old(Contents()) + c.Data()
    {
      hide Distinct, Linked, Holds, LastWithData, Kept, Flatten;
      DerefLwd();
      if Deref(lwd) == null {
        assert datas[..0] == datas && chains[..0] == chains;
        LinkAtEnd(First, c);
      } else {
        var ch := FreeTrailingEmptyChains();
        LinkAtEnd(ch, c);
      }
    }

    /** memcpy behind the data of the last chain with data. */
    method ExtendLast(c: Chain, d: seq<byte>)
      requires ValidExceptLast() && k < |chains| && c == chains[k] && !c.immutable
      requires c.Ok() && |d| <= c.SpaceLen() && totalLen + |d| <= SIZE_MAX
      modifies this`totalLen, this`datas, c`mem, c`off
      ensures SameFlags()
      ensures ValidExceptLast()
      ensures datas == old(datas)[k := old(datas)[k] + d]
      ensures Contents() == old(Contents()) + d
    {
      hide Distinct, Linked, Holds, LastWithData, Kept, Flatten, SlotAt;
      HoldsAt(chains, datas, k);
      LastWithDataExtend(datas, k, d);
      c.PushBack(d);
      totalLen := totalLen + |d|;
      HoldsUpdate(chains, datas, k);
      datas := datas[k := datas[k] + d];
    }

    /** evbuffer_chain_align on the last chain with data. */
    method AlignLast(c: Chain)
      requires ValidExceptLast() && k < |chains| && c == chains[k] && !c.immutable && c.Ok()
      modifies c`mem, c`misalign
      ensures ValidExceptLast()
      ensures c.misalign == 0 && |c.mem| == old(|c.mem|)
    {
      hide Distinct, Linked, Holds, LastWithData, Kept, Flatten, SlotAt;
      HoldsAt(chains, datas, k);
      c.Align();
      HoldsUpdate(chains, datas, k);
      assert datas[k := datas[k]] == datas;
    }
  }

  /** A buffer nothing of which changed is still valid. */
  twostate lemma ValidSame(buf: Evbuffer)
    requires old(buf.Valid()) && buf.SameHeader()
    requires forall c :: c in buf.chains ==> c.SameBytes() && c.next == old(c.next)
    ensures buf.Valid()
  {
    var cs, ds := buf.chains, buf.datas;
    hide Distinct, LastWithData, Flatten, SlotAt;
    assert Linked(buf.first, cs) by {
      assert old(Linked(buf.first, cs));
      LinkedSame(cs);
    }
    assert Holds(cs, ds) by {
      forall i | 0 <= i < |cs|
        ensures cs[i].Ok() && ds[i] == cs[i].Data()
      {
        assert cs[i] in cs;
        assert old(cs[i].Ok()) && ds[i] == old(cs[i].Data());
      }
    }
  }
}

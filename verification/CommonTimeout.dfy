/** event.c: how a struct timeval says which common timeout it belongs to. The
    microseconds need 20 of tv_usec's 32 bits; the next 8 bits hold the index of the
    common timeout, and the upper 4 a magic number. Masks and shifts are written as
    division and remainder. */
module CommonTimeout {
  const IDX_UNIT := 0x10_0000      // 1 << COMMON_TIMEOUT_IDX_SHIFT
  const MAGIC_UNIT := 0x1000_0000
  const MAGIC := 5

  /** event_base_init_common_timeout: what it writes into tv_usec. */
  function Tagged(us: nat, idx: nat): nat
  {
    us + idx * IDX_UNIT + MAGIC * MAGIC_UNIT
  }

  /** tv_usec & MICROSECONDS_MASK */
  function Micros(usec: nat): nat
  {
    usec % IDX_UNIT
  }

  /** COMMON_TIMEOUT_IDX */
  function Idx(usec: nat): nat
  {
    usec / IDX_UNIT % 256
  }

  /** is_common_timeout */
  predicate IsCommon(usec: nat, n: nat)
  {
    usec / MAGIC_UNIT == MAGIC && Idx(usec) < n
  }

  /** is_same_common_timeout */
  predicate IsSame(a: nat, b: nat)
  {
    a / IDX_UNIT == b / IDX_UNIT
  }

  lemma TagParts(us: nat, idx: nat)
    requires us < 1000000 && idx < 256
    ensures Tagged(us, idx) / IDX_UNIT == idx + MAGIC * 256 && Tagged(us, idx) % IDX_UNIT == us
    ensures Tagged(us, idx) / MAGIC_UNIT == MAGIC
  {
    assert Tagged(us, idx) == us + (idx + MAGIC * 256) * IDX_UNIT;
  }

  /** A tagged time gives back its parts, an ordinary time is never taken for a common
      one, and times of the same common timeout compare like their microseconds. */
  lemma TagRoundTrip(us0: nat, us1: nat, idx0: nat, idx1: nat, n: nat)
    requires us0 < 1000000 && us1 < 1000000 && idx0 < 256 && idx1 < 256
    ensures Micros(Tagged(us0, idx0)) == us0 && Idx(Tagged(us0, idx0)) == idx0
    ensures IsCommon(Tagged(us0, idx0), n) <==> idx0 < n
    ensures !IsCommon(us0, n)
    ensures IsSame(Tagged(us0, idx0), Tagged(us1, idx1)) <==> idx0 == idx1
    ensures idx0 == idx1 ==> (Tagged(us0, idx0) < Tagged(us1, idx1) <==> us0 < us1)
  {
    TagParts(us0, idx0);
    TagParts(us1, idx1);
  }
}

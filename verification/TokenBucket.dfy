/** bufferevent_ratelim.c: token buckets. */
module TokenBucket {
  import opened Bytes

  const RATE_LIMIT_MAX := 0x7FFF_FFFF_FFFF_FFFF   // EV_RATE_LIMIT_MAX

  datatype Dir = Read | Write

  /** struct ev_token_bucket_cfg; `msec` is msec_per_tick */
  datatype Cfg = Cfg(readRate: nat, readMax: nat, writeRate: nat, writeMax: nat, msec: nat) {
    function Rate(d: Dir): nat
    {
      if d == Read then readRate else writeRate
    }

    function Maximum(d: Dir): nat
    {
      if d == Read then readMax else writeMax
    }

    /** What ev_token_bucket_cfg_new lets through. */
    predicate Accepted()
    {
      1 <= readRate <= readMax <= RATE_LIMIT_MAX && 1 <= writeRate <= writeMax <= RATE_LIMIT_MAX && msec < TWO32
    }

    /** What can be used as well. */
    predicate Valid()
    {
      Accepted() && msec != 0
    }
  }

  /** The length of a tick as a struct timeval; without one it is a second. */
  datatype TickLen = Default | Timeval(sec: int, usec: nat)

  /** msec_per_tick: an unsigned int that keeps the low 32 bits of the milliseconds. */
  function MsecPerTick(t: TickLen): (m: nat)
    ensures m < TWO32
  {
    match t
    case Default => 1000
    case Timeval(sec, usec) => (sec * 1000 + usec % 0x10_0000 / 1000) % TWO32
  }

  /** ev_token_bucket_cfg_new */
  function CfgNew(readRate: nat, readMax: nat, writeRate: nat, writeMax: nat, t: TickLen): (c: Option<Cfg>)
    ensures c.Some? ==> c.value.Accepted()
  {
    if readRate > readMax || writeRate > writeMax || readRate < 1 || writeRate < 1 || readMax > RATE_LIMIT_MAX || writeMax > RATE_LIMIT_MAX
    then None
    else Some(Cfg(readRate, readMax, writeRate, writeMax, MsecPerTick(t)))
  }

  /** ev_token_bucket_get_tick_: the tick that a time in milliseconds falls in. There is none
      if it divides by zero. */
  function TickAt(ms: nat, cfg: Cfg): Option<nat>
  {
    if cfg.msec == 0 then None else Some(TickOf(ms, cfg))
  }

  function TickOf(ms: nat, cfg: Cfg): (t: nat)
    requires cfg.msec != 0
    ensures t < TWO32
  {
    ms / cfg.msec % TWO32
  }

  /** The microseconds of a tick length in the usual form. */
  function Micros(sec: nat, usec: nat): nat
  {
    sec * 1_000_000 + usec
  }

  /** A tick length in the usual form can be used, at one time or at any, if and only if a
      millisecond or more is left of it when all multiples of 2^32 milliseconds are taken
      away. */
  lemma UsableIff(readRate: nat, readMax: nat, writeRate: nat, writeMax: nat, sec: nat, usec: nat, ms: nat)
    requires usec < 1_000_000 && CfgNew(readRate, readMax, writeRate, writeMax, Timeval(sec, usec)).Some?
    ensures var cfg := CfgNew(readRate, readMax, writeRate, writeMax, Timeval(sec, usec)).value;
            TickAt(ms, cfg).Some? <==> Micros(sec, usec) % (1000 * TWO32) >= 1000
  {
    hide MsecPerTick, Micros;
    MsecIs(sec, usec);
    MicrosLeft(sec, usec, sec * 1000 + usec / 1000, usec % 1000);
  }

  lemma MsecIs(sec: nat, usec: nat)
    requires usec < 1_000_000
    ensures MsecPerTick(Timeval(sec, usec)) == (sec * 1000 + usec / 1000) % TWO32
  {
    assert usec % 0x10_0000 == usec;
  }

  lemma MicrosLeft(sec: nat, usec: nat, m: nat, u: nat)
    requires m == sec * 1000 + usec / 1000 && u == usec % 1000
    ensures Micros(sec, usec) % (1000 * TWO32) == 1000 * (m % TWO32) + u
  {
    assert usec == 1000 * (usec / 1000) + u;
    assert Micros(sec, usec) == 1000 * m + u;
    Thousandfold(m, u, m / TWO32, m % TWO32);
  }

  lemma Thousandfold(m: nat, u: nat, q: nat, r: nat)
    requires m == TWO32 * q + r && r < TWO32 && u < 1000
    ensures (1000 * m + u) % (1000 * TWO32) == 1000 * r + u
  {
    Remainder(1000 * m + u, 1000 * TWO32, q, 1000 * r + u);
  }

  lemma Remainder(n: nat, m: nat, q: nat, r: nat)
    requires n == m * q + r && r < m
    ensures n % m == r
  {
    DivLess(n, m, q);
    DivLess(n, m, q + 1);
    assert n / m == q;
  }

  /** struct ev_token_bucket */
  datatype Bucket = Bucket(read: int, write: int, last: nat) {
    function Limit(d: Dir): int
    {
      if d == Read then read else write
    }

    function With(d: Dir, n: int): Bucket
    {
      if d == Read then this.(read := n) else this.(write := n)
    }

    /** Taking bytes out, or giving them back if the number is negative, keeps the limit in
        its range. */
    predicate Takes(cfg: Cfg, d: Dir, bytes: int)
    {
      -RATE_LIMIT_MAX - 1 <= Limit(d) - bytes <= cfg.Maximum(d)
    }

    /** No limit is above its maximum, nor below what an ev_ssize_t holds. */
    predicate Within(cfg: Cfg)
    {
      -RATE_LIMIT_MAX - 1 <= read <= cfg.readMax && -RATE_LIMIT_MAX - 1 <= write <= cfg.writeMax && last < TWO32
    }
  }

  /** The refill ev_token_bucket_update_ is meant to compute. */
  function Refill(limit: int, maximum: nat, rate: nat, n: nat): int
  {
    Min(maximum, limit + n * rate)
  }

  /** The refill as it is computed, without overflow, in 64-bit unsigned arithmetic. */
  function RefillNoOverflow(limit: int, maximum: nat, rate: nat, n: nat): int
    requires n > 0
  {
    if (maximum - limit) % TWO64 / n < rate then maximum else limit + n * rate % TWO64
  }

  /** The two agree on every bucket that is not above its maximum, and the product
      does not wrap where it is used. */
  lemma RefillExact(limit: int, maximum: nat, rate: nat, n: nat)
    requires -RATE_LIMIT_MAX - 1 <= limit <= maximum <= RATE_LIMIT_MAX && n > 0
    ensures RefillNoOverflow(limit, maximum, rate, n) == Refill(limit, maximum, rate, n)
  {
    var d := maximum - limit;
    assert d % TWO64 == d;
    DivLess(d, n, rate);
  }

  /** A bucket above its maximum, as giving bytes back may leave it, is not brought down to
      it: it goes on growing, exactly as long as the ticks' worth does not reach the number
      that the difference wraps around to. */
  lemma OverfullGrows(limit: int, maximum: nat, rate: nat, n: nat)
    requires maximum < limit <= RATE_LIMIT_MAX && n > 0
    ensures RefillNoOverflow(limit, maximum, rate, n) ==
              if n * rate <= TWO64 - (limit - maximum) then limit + n * rate else maximum
  {
    var d := TWO64 - (limit - maximum);
    assert (maximum - limit) % TWO64 == d;
    DivLess(d, n, rate);
  }

  lemma DivLess(d: nat, n: nat, rate: nat)
    requires n > 0
    ensures d / n < rate <==> d < n * rate
  {
    var q := d / n;
    assert d == q * n + d % n;
    if q < rate {
      MulLe(n, q + 1, rate);
    } else {
      MulLe(n, rate, q);
    }
  }

  lemma MulLe(n: nat, x: nat, y: nat)
    requires x <= y
    ensures n * x <= n * y
  {
  }

  /** Refilling in two steps is refilling at once. */
  lemma RefillTwice(limit: int, maximum: nat, rate: nat, n1: nat, n2: nat)
    ensures Refill(Refill(limit, maximum, rate, n1), maximum, rate, n2) == Refill(limit, maximum, rate, n1 + n2)
  {
    assert (n1 + n2) * rate == n1 * rate + n2 * rate;
  }

  /** How many ticks an update credits: none if the clock seems to have gone back. The
      tick counter wraps around at 2^32. */
  function Credited(last: nat, now: nat): (n: nat)
    ensures n <= INT_MAX
  {
    var n := (now - last) % TWO32;
    if n > INT_MAX then 0 else n
  }

  /** ev_token_bucket_update_: what the ticks since the last update are worth is added, and
      the tick of the update is remembered. */
  method Update(b: Bucket, cfg: Cfg, now: nat) returns (r: Bucket, happened: bool)
    requires cfg.Valid() && b.Within(cfg) && now < TWO32
    ensures r.Within(cfg) && r == Updated(b, cfg, now)
    ensures var n := (now - b.last) % TWO32;
            && (happened <==> 0 < n <= INT_MAX) && (!happened ==> r == b)
            && (happened ==>
                  && r.last == now
                  && r.read == Min(cfg.readMax, b.read + n * cfg.readRate)
                  && r.write == Min(cfg.writeMax, b.write + n * cfg.writeRate))
  {
    var n := (now - b.last) % TWO32;
    if n == 0 || n > INT_MAX {
      return b, false;
    }
    RefillExact(b.read, cfg.readMax, cfg.readRate, n);
    RefillExact(b.write, cfg.writeMax, cfg.writeRate, n);
    RefillUp(b.read, cfg.readMax, cfg.readRate, n);
    RefillUp(b.write, cfg.writeMax, cfg.writeRate, n);
    r := Bucket(RefillNoOverflow(b.read, cfg.readMax, cfg.readRate, n),
                RefillNoOverflow(b.write, cfg.writeMax, cfg.writeRate, n), now);
    happened := true;
  }

  lemma RefillUp(limit: int, maximum: nat, rate: nat, n: nat)
    requires limit <= maximum
    ensures limit <= Refill(limit, maximum, rate, n) <= maximum
  {
    assert n * rate >= 0;
  }

  /** The bucket after an update. */
  function Updated(b: Bucket, cfg: Cfg, now: nat): Bucket
  {
    var n := Credited(b.last, now);
    if n == 0 then b
    else Bucket(Refill(b.read, cfg.readMax, cfg.readRate, n), Refill(b.write, cfg.writeMax, cfg.writeRate, n), now)
  }

  lemma UpdatedLast(b: Bucket, cfg: Cfg, now: nat)
    ensures Updated(b, cfg, now).last == if Credited(b.last, now) > 0 then now else b.last
  {
  }

  /** A tick is credited once: a second update in it changes nothing. */
  lemma UpdateAgain(b: Bucket, cfg: Cfg, now: nat)
    ensures var u := Updated(b, cfg, now); Credited(u.last, now) == 0 && Updated(u, cfg, now) == u
  {
  }

  /** It does not matter how often a bucket is updated, as long as the clock does not go
      back, and less than half the range of the counter goes by in all. The ticks t0, t1
      and t2 are counted without wrapping around. */
  lemma UpdateInOrder(b: Bucket, cfg: Cfg, t0: nat, t1: nat, t2: nat)
    requires b.last == t0 % TWO32 && t0 <= t1 <= t2 <= t0 + INT_MAX
    ensures Updated(Updated(b, cfg, t1 % TWO32), cfg, t2 % TWO32) == Updated(b, cfg, t2 % TWO32)
  {
    hide Refill;
    Apart(t0, t1);
    Apart(t1, t2);
    Apart(t0, t2);
    RefillTwice(b.read, cfg.readMax, cfg.readRate, t1 - t0, t2 - t1);
    RefillTwice(b.write, cfg.writeMax, cfg.writeRate, t1 - t0, t2 - t1);
  }

  lemma Apart(s: nat, t: nat)
    requires s <= t <= s + INT_MAX
    ensures Credited(s % TWO32, t % TWO32) == t - s
  {
    ModSub(t, s);
  }

  lemma ModSub(x: nat, y: nat)
    ensures (x % TWO32 - y % TWO32) % TWO32 == (x - y) % TWO32
  {
    var k := x / TWO32 - y / TWO32;
    assert x - y == (x % TWO32 - y % TWO32) + k * TWO32;
  }

  /** The ticks that an update at tick t, counted without wrapping around, credits. */
  function CreditedAt(last: nat, t: nat): nat
  {
    Credited(last, t % TWO32)
  }

  /** From tick c on, no more ticks are credited than go by. */
  ghost predicate Settled(last: nat, c: nat)
  {
    forall t: nat :: t >= c ==> CreditedAt(last, t) <= t - c
  }

  /** So it is after every update, whether or not it found the clock in order. */
  lemma Settles(last: nat, c: nat)
    requires last < TWO32
    ensures Settled(if CreditedAt(last, c) > 0 then c % TWO32 else last, c)
  {
    var m := (c % TWO32 - last) % TWO32;
    var kept := if CreditedAt(last, c) > 0 then c % TWO32 else last;
    forall t: nat | t >= c
      ensures CreditedAt(kept, t) <= t - c
    {
      ModSub(t, c);
      if 0 < m <= INT_MAX {
        ModAtMost(t - c);
      } else {
        LaterTick(last, c, t, m);
      }
    }
  }

  lemma ModAtMost(k: nat)
    ensures k % TWO32 <= k
  {
  }

  lemma LaterTick(last: nat, c: nat, t: nat, m: nat)
    requires last < TWO32 && c <= t && m == (c % TWO32 - last) % TWO32 && (m == 0 || m > INT_MAX)
    ensures Credited(last, t % TWO32) <= t - c
  {
    ModAtMost(t - c);
    ModSub(t, c);
    WrapSub(t % TWO32, c % TWO32);
    WrapSub(c % TWO32, last);
    WrapSub(t % TWO32, last);
  }

  lemma WrapSub(x: nat, y: nat)
    requires x < TWO32 && y < TWO32
    ensures (x - y) % TWO32 == if x >= y then x - y else x - y + TWO32
  {
  }

  /** A transfer: the tick it happens in and the bytes it moves. */
  datatype Use = Use(now: nat, bytes: nat)

  /** The bucket after a transfer: an update, then the charge. */
  function Charged(b: Bucket, cfg: Cfg, d: Dir, u: Use): Bucket
  {
    var b' := Updated(b, cfg, u.now);
    b'.With(d, b'.Limit(d) - u.bytes)
  }

  /** Each transfer moves at most what the bucket allows just then. */
  predicate Obeys(b: Bucket, cfg: Cfg, d: Dir, uses: seq<Use>)
    decreases |uses|
  {
    uses == [] ||
    (&& uses[0].bytes <= Positive(Updated(b, cfg, uses[0].now).Limit(d))
     && Obeys(Charged(b, cfg, d, uses[0]), cfg, d, uses[1..]))
  }

  function Volume(uses: seq<Use>): nat
  {
    if uses == [] then 0 else uses[0].bytes + Volume(uses[1..])
  }

  /** The ticks credited along the way. */
  function Ticks(b: Bucket, cfg: Cfg, d: Dir, uses: seq<Use>): nat
    decreases |uses|
  {
    if uses == [] then 0
    else Credited(b.last, uses[0].now) + Ticks(Charged(b, cfg, d, uses[0]), cfg, d, uses[1..])
  }

  lemma UpdatedLimit(b: Bucket, cfg: Cfg, d: Dir, now: nat)
    ensures Updated(b, cfg, now).Limit(d) <= b.Limit(d) + Credited(b.last, now) * cfg.Rate(d)
  {
  }

  lemma ChargedLimit(b: Bucket, cfg: Cfg, d: Dir, u: Use)
    ensures Charged(b, cfg, d, u).Limit(d) == Updated(b, cfg, u.now).Limit(d) - u.bytes
  {
  }

  function Positive(x: int): nat
  {
    if x < 0 then 0 else x
  }

  lemma {:induction false} Budget(b: Bucket, cfg: Cfg, d: Dir, uses: seq<Use>)
    requires Obeys(b, cfg, d, uses)
    ensures Volume(uses) <= Positive(b.Limit(d)) + Ticks(b, cfg, d, uses) * cfg.Rate(d)
    decreases |uses|
  {
    hide Updated, Charged, Credited, Positive;
    if uses != [] {
      var u := uses[0];
      var n, rate, b' := Credited(b.last, u.now), cfg.Rate(d), Charged(b, cfg, d, u);
      var t := Ticks(b', cfg, d, uses[1..]);
      UpdatedLimit(b, cfg, d, u.now);
      ChargedLimit(b, cfg, d, u);
      Budget(b', cfg, d, uses[1..]);
      BudgetStep(b.Limit(d), Updated(b, cfg, u.now).Limit(d), u.bytes, n, t, rate, Volume(uses[1..]));
    }
  }

  lemma BudgetStep(limit: int, limit': int, bytes: nat, n: nat, t: nat, rate: nat, rest: nat)
    requires limit' <= limit + n * rate && bytes <= Positive(limit') && rest <= Positive(limit' - bytes) + t * rate
    ensures bytes + rest <= Positive(limit) + (n + t) * rate
  {
    assert (n + t) * rate == n * rate + t * rate;
  }

  /** The bucket after the first i transfers. */
  function BucketAt(b: Bucket, cfg: Cfg, d: Dir, uses: seq<Use>, i: nat): Bucket
    requires i <= |uses|
    decreases i
  {
    if i == 0 then b else BucketAt(Charged(b, cfg, d, uses[0]), cfg, d, uses[1..], i - 1)
  }

  lemma ChargedWithin(b: Bucket, cfg: Cfg, d: Dir, u: Use)
    requires cfg.Valid() && b.Within(cfg) && u.now < TWO32
    requires u.bytes <= Positive(Updated(b, cfg, u.now).Limit(d))
    ensures Charged(b, cfg, d, u).Within(cfg)
  {
    RefillUp(b.read, cfg.readMax, cfg.readRate, Credited(b.last, u.now));
    RefillUp(b.write, cfg.writeMax, cfg.writeRate, Credited(b.last, u.now));
  }

  lemma {:induction false} ObeysPrefix(b: Bucket, cfg: Cfg, d: Dir, uses: seq<Use>, j: nat)
    requires Obeys(b, cfg, d, uses) && j <= |uses|
    ensures Obeys(b, cfg, d, uses[..j])
    decreases j
  {
    hide Updated, Charged;
    if j > 0 {
      ObeysPrefix(Charged(b, cfg, d, uses[0]), cfg, d, uses[1..], j - 1);
      assert uses[..j][1..] == uses[1..][..j - 1];
    }
  }

  lemma {:induction false} ObeysSuffix(b: Bucket, cfg: Cfg, d: Dir, uses: seq<Use>, i: nat)
    requires cfg.Valid() && b.Within(cfg) && Obeys(b, cfg, d, uses) && i <= |uses|
    requires forall j :: 0 <= j < |uses| ==> uses[j].now < TWO32
    ensures BucketAt(b, cfg, d, uses, i).Within(cfg) && Obeys(BucketAt(b, cfg, d, uses, i), cfg, d, uses[i..])
    decreases i
  {
    hide Updated, Charged;
    if i > 0 {
      ChargedWithin(b, cfg, d, uses[0]);
      ObeysSuffix(Charged(b, cfg, d, uses[0]), cfg, d, uses[1..], i - 1);
      assert uses[1..][i - 1..] == uses[i..];
    } else {
      assert uses[0..] == uses;
    }
  }

  /** The transfers happen in the ticks of a clock that does not go back and is counted
      without wrapping around. */
  ghost predicate Clocked(uses: seq<Use>, clock: seq<nat>)
  {
    && |clock| == |uses| && (forall x :: 0 <= x < |uses| ==> uses[x].now == clock[x] % TWO32)
    && forall x, y :: 0 <= x < y < |clock| ==> clock[x] <= clock[y]
  }

  /** From a settled bucket on, the ticks credited are at most those that go by. */
  lemma {:induction false} TicksBound(b: Bucket, cfg: Cfg, d: Dir, uses: seq<Use>, clock: seq<nat>, c: nat)
    requires Clocked(uses, clock) && b.last < TWO32 && Settled(b.last, c) && (uses != [] ==> c <= clock[0])
    ensures Ticks(b, cfg, d, uses) <= if uses == [] then 0 else clock[|clock| - 1] - c
    decreases |uses|
  {
    hide Settled, Updated;
    if uses != [] {
      var u, n := uses[0], Credited(b.last, uses[0].now);
      assert CreditedAt(b.last, clock[0]) == n;
      SettledAt(b.last, c, clock[0]);
      Settles(b.last, clock[0]);
      UpdatedLast(b, cfg, u.now);
      TicksBound(Charged(b, cfg, d, u), cfg, d, uses[1..], clock[1..], clock[0]);
    }
  }

  /** If no two updates are more than half the range of the counter apart, then they are
      exactly those that go by. */
  lemma {:induction false} TicksExact(b: Bucket, cfg: Cfg, d: Dir, uses: seq<Use>, clock: seq<nat>, c: nat)
    requires Clocked(uses, clock) && b.last == c % TWO32 && (uses != [] ==> c <= clock[0] <= c + INT_MAX)
    requires forall x :: 0 <= x < |clock| - 1 ==> clock[x + 1] <= clock[x] + INT_MAX
    ensures Ticks(b, cfg, d, uses) == if uses == [] then 0 else clock[|clock| - 1] - c
    decreases |uses|
  {
    hide Updated;
    if uses != [] {
      Apart(c, clock[0]);
      UpdatedLast(b, cfg, uses[0].now);
      forall x | 0 <= x < |clock| - 2
        ensures clock[1..][x + 1] <= clock[1..][x] + INT_MAX
      {
        assert clock[(x + 1) + 1] <= clock[x + 1] + INT_MAX;
      }
      TicksExact(Charged(b, cfg, d, uses[0]), cfg, d, uses[1..], clock[1..], clock[0]);
    }
  }

  lemma SettledAt(last: nat, c: nat, t: nat)
    requires Settled(last, c) && t >= c
    ensures CreditedAt(last, t) <= t - c
  {
  }

  lemma Sliced(uses: seq<Use>, clock: seq<nat>, i: nat, j: nat)
    requires Clocked(uses, clock) && i <= j <= |uses|
    ensures Clocked(uses[i..j], clock[i..j])
  {
  }

  /** Once a transfer has been made at the start of a window, what follows in it is paid for
      by the bucket and by the ticks that go by. */
  lemma FirstAndRest(b: Bucket, cfg: Cfg, d: Dir, w: seq<Use>, clock: seq<nat>)
    requires cfg.Valid() && b.Within(cfg) && Obeys(b, cfg, d, w) && Clocked(w, clock) && w != []
    ensures Volume(w) <= cfg.Maximum(d) + (clock[|clock| - 1] - clock[0]) * cfg.Rate(d)
  {
    hide Updated, Settled, Ticks, Credited, Charged, Positive;
    var b', ticks := Charged(b, cfg, d, w[0]), Ticks(Charged(b, cfg, d, w[0]), cfg, d, w[1..]);
    UpdatedMost(b, cfg, d, w[0].now);
    ChargedLimit(b, cfg, d, w[0]);
    Budget(b', cfg, d, w[1..]);
    RestTicks(b, cfg, d, w, clock);
    FirstPlusRest(Updated(b, cfg, w[0].now).Limit(d), cfg.Maximum(d), w[0].bytes, ticks,
                  clock[|clock| - 1] - clock[0], cfg.Rate(d), Volume(w[1..]));
  }

  lemma FirstPlusRest(limit: int, maximum: nat, bytes: nat, t: nat, t': nat, rate: nat, rest: nat)
    requires limit <= maximum && bytes <= Positive(limit) && rest <= Positive(limit - bytes) + t * rate && t <= t'
    ensures bytes + rest <= maximum + t' * rate
  {
    MulLe(rate, t, t');
  }

  lemma RestTicks(b: Bucket, cfg: Cfg, d: Dir, w: seq<Use>, clock: seq<nat>)
    requires cfg.Valid() && b.Within(cfg) && Clocked(w, clock) && w != []
    ensures Ticks(Charged(b, cfg, d, w[0]), cfg, d, w[1..]) <= clock[|clock| - 1] - clock[0]
  {
    hide Updated, Settled, Ticks;
    Settles(b.last, clock[0]);
    UpdatedLast(b, cfg, w[0].now);
    Sliced(w, clock, 1, |w|);
    assert w[1..|w|] == w[1..] && clock[1..|w|] == clock[1..];
    TicksBound(Charged(b, cfg, d, w[0]), cfg, d, w[1..], clock[1..], clock[0]);
  }

  lemma UpdatedMost(b: Bucket, cfg: Cfg, d: Dir, now: nat)
    requires b.Within(cfg)
    ensures Updated(b, cfg, now).Limit(d) <= cfg.Maximum(d)
  {
    RefillUp(b.Limit(d), cfg.Maximum(d), cfg.Rate(d), Credited(b.last, now));
  }

  /** Over any window of a run in which every transfer obeys the limit, at most the
      bucket's maximum plus one rate per credited tick goes through; and, by the clock, one
      rate for each tick between the first transfer of the window and the last. */
  lemma WindowBound(b: Bucket, cfg: Cfg, d: Dir, uses: seq<Use>, clock: seq<nat>, i: nat, j: nat)
    requires cfg.Valid() && b.Within(cfg) && Obeys(b, cfg, d, uses) && i <= j <= |uses|
    requires forall x :: 0 <= x < |uses| ==> uses[x].now < TWO32
    ensures Volume(uses[i..j]) <= cfg.Maximum(d) + Ticks(BucketAt(b, cfg, d, uses, i), cfg, d, uses[i..j]) * cfg.Rate(d)
    ensures i < j && Clocked(uses, clock) ==> Volume(uses[i..j]) <= cfg.Maximum(d) + (clock[j - 1] - clock[i]) * cfg.Rate(d)
  {
    hide Updated, Charged, BucketAt, Obeys;
    var b' := BucketAt(b, cfg, d, uses, i);
    ObeysSuffix(b, cfg, d, uses, i);
    ObeysPrefix(b', cfg, d, uses[i..], j - i);
    assert uses[i..][..j - i] == uses[i..j];
    Budget(b', cfg, d, uses[i..j]);
    if i < j && Clocked(uses, clock) {
      Sliced(uses, clock, i, j);
      FirstAndRest(b', cfg, d, uses[i..j], clock[i..j]);
    }
  }
}

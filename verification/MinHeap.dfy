/** minheap-internal.h: the binary heap of pending timeouts, with each event's place in
    it kept in the event. Events are numbers; key[e] is the deadline of event e. */
module MinHeap {
  function Parent(i: nat): nat
    requires i > 0
  {
    (i - 1) / 2
  }

  /** The elements of p below n are events, and know their places - except the one in
      the hole h, where the element is e. */
  ghost predicate Placed(p: seq<nat>, n: nat, pos: seq<int>, h: nat, e: nat)
  {
    && n <= |p| && e < |pos|
    && (forall i :: 0 <= i < n && i != h ==> p[i] < |pos| && p[i] != e && pos[p[i]] == i)
  }

  /** No event thinks it is where it is not; x is exempt. */
  ghost predicate Known(p: seq<nat>, n: nat, pos: seq<int>, h: nat, x: nat)
  {
    && n <= |p|
    && (forall e :: 0 <= e < |pos| && e != x && pos[e] != -1 ==> 0 <= pos[e] < n && pos[e] != h && p[pos[e]] == e)
  }

  /** The key at place i, with e in the hole h. */
  function KeyAt(p: seq<nat>, key: seq<int>, h: nat, e: nat, i: nat): int
  {
    var x := if i == h || i >= |p| then e else p[i];
    if x < |key| then key[x] else 0
  }

  /** In order except, perhaps, for the hole and its parent. */
  ghost predicate OrderedAbove(p: seq<nat>, n: nat, key: seq<int>, h: nat, e: nat)
  {
    && (forall i :: 0 < i < n && i != h ==> KeyAt(p, key, h, e, Parent(i)) <= KeyAt(p, key, h, e, i))
    && (h > 0 ==> forall i :: 0 < i < n && Parent(i) == h ==> KeyAt(p, key, h, e, Parent(h)) <= KeyAt(p, key, h, e, i))
  }

  /** In order except, perhaps, for the hole and its children. */
  ghost predicate OrderedBelow(p: seq<nat>, n: nat, key: seq<int>, h: nat, e: nat)
  {
    && (forall i :: 0 < i < n && Parent(i) != h ==> KeyAt(p, key, h, e, Parent(i)) <= KeyAt(p, key, h, e, i))
    && (h > 0 ==> forall i :: 0 < i < n && Parent(i) == h ==> KeyAt(p, key, h, e, Parent(h)) <= KeyAt(p, key, h, e, i))
  }

  ghost predicate Ordered(p: seq<nat>, n: nat, key: seq<int>)
  {
    && n <= |p|
    && (forall i :: 0 <= i < n ==> p[i] < |key|)
    && (forall i :: 0 < i < n ==> key[p[Parent(i)]] <= key[p[i]])
  }

  /** The parent moves down into the hole. */
  lemma UpStep(p: seq<nat>, n: nat, key: seq<int>, h: nat, e: nat)
    requires n <= |p| && 0 < h < n && OrderedAbove(p, n, key, h, e)
    requires KeyAt(p, key, h, e, Parent(h)) > KeyAt(p, key, h, e, h)
    ensures OrderedAbove(p[h := p[Parent(h)]], n, key, Parent(h), e)
  {
    var u := Parent(h);
    var p' := p[h := p[u]];
    assert forall i :: 0 <= i < n && i != h && i != u ==> KeyAt(p', key, u, e, i) == KeyAt(p, key, h, e, i);
    assert KeyAt(p', key, u, e, h) == KeyAt(p, key, h, e, u);
    assert KeyAt(p', key, u, e, u) == KeyAt(p, key, h, e, h);
  }

  /** The smaller child c moves up into the hole. */
  lemma DownStep(p: seq<nat>, n: nat, key: seq<int>, h: nat, e: nat, c: nat)
    requires n <= |p| && h < c < n && Parent(c) == h && OrderedBelow(p, n, key, h, e)
    requires forall i :: 0 < i < n && Parent(i) == h ==> KeyAt(p, key, h, e, c) <= KeyAt(p, key, h, e, i)
    requires KeyAt(p, key, h, e, h) > KeyAt(p, key, h, e, c)
    ensures OrderedBelow(p[h := p[c]], n, key, c, e)
  {
    var p' := p[h := p[c]];
    assert forall i :: 0 <= i < n && i != h && i != c ==> KeyAt(p', key, c, e, i) == KeyAt(p, key, h, e, i);
    assert KeyAt(p', key, c, e, h) == KeyAt(p, key, h, e, c);
    assert KeyAt(p', key, c, e, c) == KeyAt(p, key, h, e, h);
  }

  lemma UpEnd(p: seq<nat>, n: nat, key: seq<int>, h: nat, e: nat)
    requires n <= |p| && h < n && OrderedAbove(p, n, key, h, e) && e < |key|
    requires forall i :: 0 <= i < n && i != h ==> p[i] < |key|
    requires h > 0 ==> KeyAt(p, key, h, e, Parent(h)) <= KeyAt(p, key, h, e, h)
    ensures Ordered(p[h := e], n, key)
  {
    var p' := p[h := e];
    assert forall i :: 0 <= i < n ==> key[p'[i]] == KeyAt(p, key, h, e, i);
  }

  lemma DownEnd(p: seq<nat>, n: nat, key: seq<int>, h: nat, e: nat)
    requires n <= |p| && h < |p| && OrderedBelow(p, n, key, h, e) && e < |key|
    requires forall i :: 0 <= i < n && i != h ==> p[i] < |key|
    requires forall i :: 0 < i < n && Parent(i) == h ==> KeyAt(p, key, h, e, h) <= KeyAt(p, key, h, e, i)
    ensures Ordered(p[h := e], n, key)
  {
    var p' := p[h := e];
    assert forall i :: 0 <= i < n ==> key[p'[i]] == KeyAt(p, key, h, e, i);
  }

  /** Everybody is where they think they are. */
  ghost predicate PlacesOk(p: seq<nat>, n: nat, pos: seq<int>)
  {
    && n <= |p|
    && (forall i :: 0 <= i < n ==> p[i] < |pos| && pos[p[i]] == i)
    && (forall e :: 0 <= e < |pos| && pos[e] != -1 ==> 0 <= pos[e] < n && p[pos[e]] == e)
  }

  /** Events other than x are in the heap if and only if they were. */
  ghost predicate SameBut(was: seq<int>, now: seq<int>, x: nat)
  {
    && |was| == |now|
    && (forall e :: 0 <= e < |now| && e != x ==> (now[e] == -1 <==> was[e] == -1))
  }

  /** The first element of a heap is minimal. */
  lemma {:induction false} TopMinimal(p: seq<nat>, n: nat, key: seq<int>, i: nat)
    requires Ordered(p, n, key) && i < n
    ensures key[p[0]] <= key[p[i]]
  {
    if i > 0 {
      TopMinimal(p, n, key, Parent(i));
    }
  }

  lemma Basics(p: seq<nat>, n: nat, pos: seq<int>, key: seq<int>, h: nat, e: nat)
    requires Placed(p, n, pos, h, e) && h <= n && |pos| == |key|
    ensures n <= |p| && e < |key| && (h > 0 ==> p[Parent(h)] < |key|)
    ensures SameBut(pos, pos, e)
    ensures forall i :: 0 <= i < n && i != h ==> p[i] < |key|
  {
  }

  lemma KeyFacts(p: seq<nat>, n: nat, pos: seq<int>, key: seq<int>, h: nat, e: nat, i: nat)
    requires Placed(p, n, pos, h, e) && |pos| == |key| && i < n && i != h
    ensures e < |key| && p[i] < |key| && KeyAt(p, key, h, e, h) == key[e] && KeyAt(p, key, h, e, i) == key[p[i]]
  {
  }

  /** The element at c moves to the hole h, and c becomes the hole. */
  lemma PlaceStep(was: seq<int>, p: seq<nat>, n: nat, pos: seq<int>, h: nat, e: nat, c: nat)
    requires Placed(p, n, pos, h, e) && Known(p, n, pos, h, e) && h < n && c < n && c != h && SameBut(was, pos, e)
    ensures p[c] < |pos|
    ensures var p', pos' := p[h := p[c]], pos[p[c] := h];
            Placed(p', n, pos', c, e) && Known(p', n, pos', c, e) && SameBut(was, pos', e)
  {
  }

  /** e goes into the hole. */
  lemma PlaceEnd(was: seq<int>, p: seq<nat>, n: nat, pos: seq<int>, h: nat, e: nat)
    requires Placed(p, n, pos, h, e) && Known(p, n, pos, h, e) && h < n && SameBut(was, pos, e)
    ensures forall i :: 0 <= i < n && i != h ==> p[i] < |pos|
    ensures PlacesOk(p[h := e], n, pos[e := h]) && SameBut(was, pos[e := h], e)
  {
  }

  lemma SameTrans(a: seq<int>, b: seq<int>, c: seq<int>, e: nat)
    requires SameBut(a, b, e) && SameBut(b, c, e)
    ensures SameBut(a, c, e)
  {
  }

  lemma MinChild(p: seq<nat>, n: nat, pos: seq<int>, key: seq<int>, h: nat, e: nat, c: nat)
    requires Placed(p, n, pos, h, e) && |pos| == |key| && h <= n
    requires c < n && (c == 2 * h + 1 || c == 2 * h + 2)
    requires forall i :: 0 <= i < n && i != h ==> p[i] < |key|
    requires 2 * h + 2 < n ==> key[p[c]] <= key[p[2 * h + 1]] && key[p[c]] <= key[p[2 * h + 2]]
    requires 2 * h + 2 >= n ==> c == 2 * h + 1
    ensures h < c && Parent(c) == h && KeyAt(p, key, h, e, h) == key[e] && KeyAt(p, key, h, e, c) == key[p[c]]
    ensures forall i :: 0 < i < n && Parent(i) == h ==> KeyAt(p, key, h, e, c) <= KeyAt(p, key, h, e, i)
  {
  }

  lemma NoChild(n: nat, h: nat)
    ensures 2 * (h + 1) > n ==> forall i :: 0 < i < n ==> Parent(i) != h
  {
  }

  /** The heap without its last element, which is to replace e. */
  lemma Vacate(p: seq<nat>, n: int, pos: seq<int>, key: seq<int>, e: nat)
    requires n >= -1 && PlacesOk(p, n + 1, pos) && |pos| == |key| && e < |pos| && pos[e] != -1
    ensures n >= 0 && Placed(p, n, pos[e := -1], pos[e], p[n]) && Known(p, n, pos[e := -1], pos[e], p[n])
    ensures 0 <= pos[e] <= n < |p| && p[n] < |pos| && pos[p[n]] == n && (e == p[n] <==> pos[e] == n)
    ensures pos[e] > 0 ==> p[Parent(pos[e])] < |key|
  {
  }

  lemma VacatedAbove(p: seq<nat>, n: nat, pos: seq<int>, key: seq<int>, e: nat)
    requires PlacesOk(p, n + 1, pos) && |pos| == |key| && e < |pos| && pos[e] > 0 && Ordered(p, n + 1, key)
    requires key[p[Parent(pos[e])]] > key[p[n]]
    ensures pos[e] < n && OrderedAbove(p, n, key, pos[e], p[n])
    ensures KeyAt(p, key, pos[e], p[n], Parent(pos[e])) > KeyAt(p, key, pos[e], p[n], pos[e])
  {
  }

  lemma VacatedBelow(p: seq<nat>, n: nat, pos: seq<int>, key: seq<int>, e: nat)
    requires PlacesOk(p, n + 1, pos) && |pos| == |key| && e < |pos| && pos[e] != -1 && Ordered(p, n + 1, key)
    requires pos[e] > 0 ==> key[p[Parent(pos[e])]] <= key[p[n]]
    ensures OrderedBelow(p, n, key, pos[e], p[n])
  {
  }

  /** If e is the last element itself, nothing needs to move. */
  lemma VacatedLast(p: seq<nat>, n: nat, pos: seq<int>, key: seq<int>, e: nat)
    requires PlacesOk(p, n + 1, pos) && |pos| == |key| && e < |pos| && Ordered(p, n + 1, key)
    ensures pos[e] == n ==> p[n] == e && PlacesOk(p[n := e], n, pos[e := -1]) && Ordered(p[n := e], n, key)
  {
  }

  lemma EraseEnd(was: seq<int>, pos: seq<int>, e: nat, last: nat)
    requires e < |was| && last < |was| && was[last] != -1
    requires if e == last then |pos| == |was| && forall x :: 0 <= x < |was| && x != e ==> pos[x] == was[x]
             else SameBut(was[e := -1], pos, last) && pos[last] != -1
    ensures SameBut(was, pos[e := -1], e)
    ensures e != last ==> pos[e := -1] == pos
    ensures e == last ==> pos[e := -1] == was[e := -1]
  {
  }

  /** How long min_heap_reserve_ makes an array that has to hold `size` elements. */
  function GrownTo(len: nat, size: nat): (a: nat)
    ensures a >= size && a >= len
  {
    if size <= len then len
    else
      var a := if len == 0 then 8 else 2 * len;
      if a < size then size else a
  }

  class Heap {
    var p: seq<nat>       // the array, as long as it is allocated
    var n: nat            // how many elements are in use
    var pos: seq<int>     // min_heap_idx of each event, -1 if it is not in the heap

    ghost predicate Valid(key: seq<int>)
      reads this
    {
      |pos| == |key| && PlacesOk(p, n, pos) && Ordered(p, n, key)
    }

    /** An empty heap, and k events that are not in it. */
    constructor (k: nat)
      ensures n == 0 && p == [] && pos == seq(k, _ => -1)
      ensures forall key: seq<int> :: |key| == k ==> Valid(key)
    {
      p, n, pos := [], 0, seq(k, _ => -1);
    }

    /** min_heap_shift_up_ */
    method ShiftUp(hole: nat, e: nat, key: seq<int>)
      requires |pos| == |key| && hole < n
      requires Placed(p, n, pos, hole, e) && Known(p, n, pos, hole, e) && OrderedAbove(p, n, key, hole, e)
      modifies this`p, this`pos
      ensures Valid(key) && SameBut(old(pos), pos, e) && pos[e] != -1 && |p| == |old(p)|
    {
      hide OrderedAbove, Ordered, Placed, Known, SameBut, PlacesOk, KeyAt;
      var h: nat := hole;
      Basics(p, n, pos, key, h, e);
      while h > 0 && key[p[Parent(h)]] > key[e]
        invariant h < n && |pos| == |key| && |p| == |old(p)| && SameBut(old(pos), pos, e)
        invariant Placed(p, n, pos, h, e) && Known(p, n, pos, h, e) && OrderedAbove(p, n, key, h, e)
        invariant n <= |p| && e < |key| && (h > 0 ==> p[Parent(h)] < |key|)
        decreases h
      {
        ghost var c := Parent(h);
        KeyFacts(p, n, pos, key, h, e, c);
        UpStep(p, n, key, h, e);
        PlaceStep(old(pos), p, n, pos, h, e, c);
        var u := p[Parent(h)];
        p, pos := p[h := u], pos[u := h];
        h := Parent(h);
        Basics(p, n, pos, key, h, e);
      }
      if h > 0 {
        KeyFacts(p, n, pos, key, h, e, Parent(h));
      }
      PlaceEnd(old(pos), p, n, pos, h, e);
      UpEnd(p, n, key, h, e);
      p, pos := p[h := e], pos[e := h];
    }
  
    /** min_heap_shift_up_unconditional_ */
    method ShiftUpUnconditional(hole: nat, e: nat, key: seq<int>)
      requires |pos| == |key| && 0 < hole < n
      requires Placed(p, n, pos, hole, e) && Known(p, n, pos, hole, e) && OrderedAbove(p, n, key, hole, e)
      requires KeyAt(p, key, hole, e, Parent(hole)) > KeyAt(p, key, hole, e, hole)
      modifies this`p, this`pos
      ensures Valid(key) && SameBut(old(pos), pos, e) && pos[e] != -1 && |p| == |old(p)|
    {
      hide OrderedAbove, Ordered, Placed, Known, SameBut, PlacesOk, KeyAt;
      Basics(p, n, pos, key, hole, e);
      UpStep(p, n, key, hole, e);
      PlaceStep(pos, p, n, pos, hole, e, Parent(hole));
      var u := p[Parent(hole)];
      p, pos := p[hole := u], pos[u := hole];
      ghost var mid := pos;
      ShiftUp(Parent(hole), e, key);
      SameTrans(old(pos), mid, pos, e);
    }

    /** min_heap_shift_down_; the hole may be the place just given up. */
    method ShiftDown(hole: nat, e: nat, key: seq<int>)
      requires |pos| == |key| && hole <= n && hole < |p|
      requires Placed(p, n, pos, hole, e) && Known(p, n, pos, hole, e) && OrderedBelow(p, n, key, hole, e)
      modifies this`p, this`pos
      ensures hole < n ==> Valid(key) && SameBut(old(pos), pos, e) && pos[e] != -1
      ensures hole == n ==> p == old(p)[n := e] && pos == old(pos)[e := n]
      ensures |p| == |old(p)|
    {
      hide OrderedBelow, Ordered, Placed, Known, SameBut, PlacesOk, KeyAt, Parent;
      var h: nat := hole;
      var c: nat := 2 * (h + 1);
      Basics(p, n, pos, key, h, e);
      while c <= n
        invariant h <= n && h < |p| && c == 2 * (h + 1) && |pos| == |key| && |p| == |old(p)| && SameBut(old(pos), pos, e)
        invariant if hole < n then h < n else h == n && p == old(p) && pos == old(pos)
        invariant Placed(p, n, pos, h, e) && Known(p, n, pos, h, e) && OrderedBelow(p, n, key, h, e)
        decreases n - h
      {
        Basics(p, n, pos, key, h, e);
        if c == n || key[p[c]] > key[p[c - 1]] {
          c := c - 1;
        }
        MinChild(p, n, pos, key, h, e, c);
        if !(key[e] > key[p[c]]) {
          break;
        }
        DownStep(p, n, key, h, e, c);
        PlaceStep(old(pos), p, n, pos, h, e, c);
        var u := p[c];
        p, pos := p[h := u], pos[u := h];
        h := c;
        c := 2 * (h + 1);
      }
      Basics(p, n, pos, key, h, e);
      NoChild(n, h);
      if h < n {
        PlaceEnd(old(pos), p, n, pos, h, e);
        DownEnd(p, n, key, h, e);
      }
      p, pos := p[h := e], pos[e := h];
    }

    /** min_heap_reserve_ */
    method Reserve(size: nat, key: seq<int>, mallocOk: bool) returns (ok: bool)
      requires Valid(key)
      modifies this`p
      ensures Valid(key) && (ok <==> size <= |p|) && (ok <==> size <= |old(p)| || mallocOk)
      ensures |p| == if ok then GrownTo(|old(p)|, size) else |old(p)|
    {
      if |p| < size {
        var a := if |p| == 0 then 8 else 2 * |p|;
        if a < size {
          a := size;
        }
        if !mallocOk {
          return false;
        }
        p := p + seq(a - |p|, _ => 0);
      }
      ok := true;
    }

    /** min_heap_push_, with room reserved */
    method Push(e: nat, key: seq<int>)
      requires Valid(key) && n < |p| && e < |pos| && pos[e] == -1
      modifies this
      ensures Valid(key) && n == old(n) + 1 && |p| == |old(p)|
      ensures SameBut(old(pos), pos, e) && pos[e] != -1
    {
      n := n + 1;
      ShiftUp(n - 1, e, key);
    }

    /** min_heap_top_ */
    method Top(key: seq<int>) returns (e: nat)
      requires Valid(key) && n > 0
      ensures e < |pos| && pos[e] == 0
      ensures forall x :: 0 <= x < |pos| && pos[x] != -1 ==> key[e] <= key[x]
    {
      e := p[0];
      forall x | 0 <= x < |pos| && pos[x] != -1
        ensures key[e] <= key[x]
      {
        TopMinimal(p, n, key, pos[x]);
      }
    }

    /** min_heap_erase_ */
    method Erase(e: nat, key: seq<int>)
      requires Valid(key) && e < |pos| && pos[e] != -1
      modifies this
      ensures Valid(key) && n == old(n) - 1 && |p| == |old(p)|
      ensures SameBut(old(pos), pos, e) && pos[e] == -1
    {
      hide OrderedAbove, OrderedBelow, Ordered, KeyAt, PlacesOk, Placed, Known, SameBut;
      Vacate(p, n - 1, pos, key, e);
      n := n - 1;
      var last := p[n];
      var hole: nat := pos[e];
      ghost var was := pos;
      pos := pos[e := -1];
      if hole > 0 && key[p[Parent(hole)]] > key[last] {
        VacatedAbove(p, n, was, key, e);
        ShiftUpUnconditional(hole, last, key);
      } else {
        VacatedBelow(p, n, was, key, e);
        VacatedLast(p, n, was, key, e);
        ShiftDown(hole, last, key);
      }
      EraseEnd(was, pos, e, last);
      pos := pos[e := -1];
    }
  }
}

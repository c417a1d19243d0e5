/** The queues that the source keeps as linked lists, as sequences without repetition. */
module Queues {
  ghost predicate NoDup(q: seq<nat>)
  {
    forall i, j :: 0 <= i < j < |q| ==> q[i] != q[j]
  }

  /** TAILQ_REMOVE */
  function Remove(q: seq<nat>, e: nat): seq<nat>
  {
    if q == [] then [] else if q[0] == e then q[1..] else [q[0]] + Remove(q[1..], e)
  }

  lemma {:induction false} RemoveFacts(q: seq<nat>, e: nat)
    requires NoDup(q) && e in q
    ensures |Remove(q, e)| == |q| - 1 && NoDup(Remove(q, e))
    ensures forall x :: x in Remove(q, e) <==> x in q && x != e
  {
    if q[0] == e {
      assert q == [e] + q[1..];
      assert forall x :: x in q[1..] ==> exists i :: 1 <= i < |q| && q[i] == x;
    } else {
      assert q == [q[0]] + q[1..];
      RemoveFacts(q[1..], e);
      assert q[0] !in q[1..];
    }
  }

  lemma AppendFacts(q: seq<nat>, e: nat)
    requires NoDup(q) && e !in q
    ensures NoDup(q + [e]) && forall x :: x in q + [e] <==> x in q || x == e
  {
  }

  /** How long several queues are together. */
  function TotalLen(qs: seq<seq<nat>>): nat
  {
    if qs == [] then 0 else |qs[0]| + TotalLen(qs[1..])
  }

  lemma {:induction false} LenUpdate(qs: seq<seq<nat>>, i: nat, q: seq<nat>)
    requires i < |qs|
    ensures TotalLen(qs[i := q]) == TotalLen(qs) - |qs[i]| + |q|
  {
    if i == 0 {
      assert qs[0 := q][1..] == qs[1..];
    } else {
      LenUpdate(qs[1..], i - 1, q);
      assert qs[i := q][1..] == qs[1..][i - 1 := q];
    }
  }

  lemma {:induction false} LenAtLeast(qs: seq<seq<nat>>, p: nat)
    requires p < |qs|
    ensures |qs[p]| <= TotalLen(qs)
  {
    if p > 0 {
      LenAtLeast(qs[1..], p - 1);
    }
  }

  lemma {:induction false} RemoveSubset(q: seq<nat>, e: nat)
    ensures forall x :: x in Remove(q, e) ==> x in q
  {
    if q != [] && q[0] != e {
      RemoveSubset(q[1..], e);
    }
  }

  function InsertAt(q: seq<nat>, i: nat, e: nat): seq<nat>
    requires i <= |q|
  {
    q[..i] + [e] + q[i..]
  }

  lemma InsertAtIndex(q: seq<nat>, i: nat, e: nat, j: nat)
    requires i <= |q| && j <= |q|
    ensures |InsertAt(q, i, e)| == |q| + 1
    ensures InsertAt(q, i, e)[j] == if j < i then q[j] else if j == i then e else q[j - 1]
  {
  }

  lemma InsertMembers(q: seq<nat>, i: nat, e: nat)
    requires i <= |q|
    ensures forall x :: x in InsertAt(q, i, e) <==> x in q || x == e
  {
    assert q == q[..i] + q[i..];
  }

  lemma InsertNoDup(q: seq<nat>, i: nat, e: nat)
    requires NoDup(q) && e !in q && i <= |q|
    ensures NoDup(InsertAt(q, i, e))
  {
    var r := InsertAt(q, i, e);
    hide InsertAt;
    InsertAtIndex(q, i, e, 0);
    forall a, b | 0 <= a < b < |r|
      ensures r[a] != r[b]
    {
      InsertAtIndex(q, i, e, a);
      InsertAtIndex(q, i, e, b);
    }
  }

  lemma {:induction false} NoLen(qs: seq<seq<nat>>)
    requires forall i :: 0 <= i < |qs| ==> qs[i] == []
    ensures TotalLen(qs) == 0
  {
    if qs != [] {
      NoLen(qs[1..]);
    }
  }
}

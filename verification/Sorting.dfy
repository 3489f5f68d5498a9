/** Sorting integers, as the standard library does for ids and dates. */
module Sorting {

  predicate Ascending(q: seq<int>) {
    forall i, j :: 0 <= i < j < |q| ==> q[i] <= q[j]
  }

  predicate StrictlyAscending(q: seq<int>) {
    forall i, j :: 0 <= i < j < |q| ==> q[i] < q[j]
  }

  function Insert(x: int, q: seq<int>): seq<int> {
    if q == [] || x <= q[0] then [x] + q else [q[0]] + Insert(x, q[1..])
  }

  function Sort(q: seq<int>): seq<int> {
    if q == [] then [] else Insert(q[0], Sort(q[1..]))
  }

  lemma {:induction false} InsertKeepsElements(x: int, q: seq<int>)
    ensures multiset(Insert(x, q)) == multiset(q) + multiset{x}
  {
    if q != [] && q[0] < x {
      InsertKeepsElements(x, q[1..]);
      assert q == [q[0]] + q[1..];
    }
  }

  lemma {:induction false} InsertAscending(x: int, q: seq<int>)
    requires Ascending(q)
    ensures Ascending(Insert(x, q))
  {
    if q != [] && q[0] < x {
      InsertAscending(x, q[1..]);
      InsertKeepsElements(x, q[1..]);
      var tail := Insert(x, q[1..]);
      forall i | 0 <= i < |tail| ensures q[0] <= tail[i] {
        assert tail[i] in multiset(tail);
        assert tail[i] == x || tail[i] in q[1..];
      }
    }
  }

  /** Sorting orders the list and keeps its elements. */
  lemma {:induction false} SortSorts(q: seq<int>)
    ensures Ascending(Sort(q)) && multiset(Sort(q)) == multiset(q)
  {
    if q != [] {
      SortSorts(q[1..]);
      InsertAscending(q[0], Sort(q[1..]));
      InsertKeepsElements(q[0], Sort(q[1..]));
      assert q == [q[0]] + q[1..];
    }
  }

  predicate NoRepeats(q: seq<int>) {
    forall i, j :: 0 <= i < j < |q| ==> q[i] != q[j]
  }

  /** Sorting a list without repeats gives a strictly ascending one with the same elements. */
  lemma SortDistinct(q: seq<int>)
    requires NoRepeats(q)
    ensures StrictlyAscending(Sort(q)) && |Sort(q)| == |q| && forall x :: x in Sort(q) <==> x in q
  {
    var r := Sort(q);
    SortSorts(q);
    assert |multiset(r)| == |multiset(q)|;
    forall x ensures x in r <==> x in q {
      assert x in multiset(r) <==> x in r;
      assert x in multiset(q) <==> x in q;
    }
    DistinctCounts(q);
    forall i, j | 0 <= i < j < |r| ensures r[i] < r[j] {
      if r[i] == r[j] {
        TwiceCounts(r, i, j);
      }
    }
  }

  lemma {:induction false} DistinctCounts(q: seq<int>)
    requires NoRepeats(q)
    ensures forall x :: multiset(q)[x] <= 1
  {
    if q != [] {
      DistinctCounts(q[1..]);
      assert q == [q[0]] + q[1..];
      assert q[0] !in q[1..];
    }
  }

  lemma TwiceCounts(r: seq<int>, i: nat, j: nat)
    requires i < j < |r| && r[i] == r[j]
    ensures multiset(r)[r[i]] >= 2
  {
    assert r == r[..j] + [r[j]] + r[j + 1..];
    assert r[i] in r[..j];
  }

  lemma TailMembers(q: seq<int>, x: int)
    requires StrictlyAscending(q) && q != []
    ensures x in q[1..] <==> x in q && x != q[0]
  {
    assert q == [q[0]] + q[1..];
    if x in q[1..] {
      var i :| 0 <= i < |q| - 1 && q[1..][i] == x;
      assert q[0] < q[i + 1];
    }
  }
}

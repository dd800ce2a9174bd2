/** Lists without repetitions, and how a set is listed in a given order. */
module Seqs {

  predicate NoDup<T(==)>(s: seq<T>)
  {
    forall i, j :: 0 <= i < j < |s| ==> s[i] != s[j]
  }

  /** The elements of `order` that lie in `s`, in the order of `order`. */
  function ListIn(order: seq<string>, s: set<string>): (r: seq<string>)
    ensures forall x :: x in r <==> x in order && x in s
    ensures NoDup(order) ==> NoDup(r)
  {
    if order == [] then []
    else
      var rest := ListIn(order[1..], s);
      assert forall x :: x in order[1..] ==> x in order;
      if order[0] in s then
        assert NoDup(order) ==> order[0] !in order[1..];
        [order[0]] + rest
      else rest
  }

  /** A list without repetitions has as many elements as its set. */
  lemma {:induction false} DistinctCardinality<T>(q: seq<T>)
    requires NoDup(q)
    ensures |(set x | x in q)| == |q|
  {
    if q != [] {
      var init := q[..|q| - 1];
      var last := q[|q| - 1];
      assert NoDup(init);
      DistinctCardinality(init);
      assert (set x | x in q) == (set x | x in init) + {last};
      assert last !in (set x | x in init);
    }
  }

  /** Listing a set in an order that contains each of its elements once
      yields exactly as many elements as the set has. */
  lemma ListInCardinality(order: seq<string>, s: set<string>)
    requires NoDup(order) && forall x :: x in s ==> x in order
    ensures |ListIn(order, s)| == |s|
  {
    var r := ListIn(order, s);
    DistinctCardinality(r);
    assert (set x | x in r) == s;
  }
}

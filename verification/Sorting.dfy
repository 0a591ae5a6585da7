/** Lists in the order of a ranking. */
module Sorting {
  predicate Ordered<T(!new)>(s: seq<T>, leq: (T, T) -> bool) {
    forall i, j | 0 <= i < j < |s| :: leq(s[i], s[j])
  }

  ghost predicate Ranks<T(!new)>(leq: (T, T) -> bool) {
    && (forall x, y :: leq(x, y) || leq(y, x))
    && (forall x, y, z :: leq(x, y) && leq(y, z) ==> leq(x, z))
  }

  /** A stable sort by insertion, standing for Array.prototype.sort. */
  method Sort<T(!new)>(s: seq<T>, leq: (T, T) -> bool) returns (sorted: seq<T>)
    requires Ranks(leq)
    ensures Ordered(sorted, leq) && multiset(sorted) == multiset(s)
  {
    sorted := [];
    for i := 0 to |s|
      invariant Ordered(sorted, leq) && multiset(sorted) == multiset(s[..i])
    {
      sorted := Insert(sorted, s[i], leq);
      assert s[..i + 1] == s[..i] + [s[i]];
    }
    assert s[..|s|] == s;
  }

  method Insert<T(!new)>(sorted: seq<T>, x: T, leq: (T, T) -> bool) returns (more: seq<T>)
    requires Ranks(leq) && Ordered(sorted, leq)
    ensures Ordered(more, leq) && multiset(more) == multiset(sorted) + multiset{x}
  {
    var k: nat := |sorted|;
    while k > 0 && !leq(sorted[k - 1], x)
      invariant k <= |sorted|
      invariant forall m | k <= m < |sorted| :: leq(x, sorted[m])
    {
      k := k - 1;
    }
    Inserted(sorted, leq, k, x);
    assert sorted == sorted[..k] + sorted[k..];
    more := sorted[..k] + [x] + sorted[k..];
  }

  lemma Inserted<T(!new)>(s: seq<T>, leq: (T, T) -> bool, k: nat, x: T)
    requires Ranks(leq) && Ordered(s, leq) && k <= |s|
    requires k > 0 ==> leq(s[k - 1], x)
    requires forall m | k <= m < |s| :: leq(x, s[m])
    ensures Ordered(s[..k] + [x] + s[k..], leq)
  {
    forall m | 0 <= m < k ensures leq(s[m], x) { assert m < k - 1 ==> leq(s[m], s[k - 1]); }
  }
}

/** Small shared vocabulary: optional values, and facts about finite sets of integers. */
module Common {

  datatype Option<+T> = None | Some(value: T) {
    function GetOr(default: T): T {
      if Some? then value else default
    }

    // JavaScript's `a || b` on nullable columns.
    function Or(other: Option<T>): Option<T> {
      if Some? then this else other
    }
  }

  predicate Ascending(s: seq<nat>) {
    forall i, j | 0 <= i < j < |s| :: s[i] < s[j]
  }

  ghost function Least(s: set<nat>): (m: nat)
    requires s != {}
    ensures m in s && forall x | x in s :: m <= x
  {
    var y :| y in s;
    assert forall x | x in s :: x == y || x in s - {y};
    if s == {y} then y
    else
      var r := Least(s - {y});
      if y < r then y else r
  }

  /** The members of s, smallest first. */
  ghost function SortedIds(s: set<nat>): (ids: seq<nat>)
    ensures Ascending(ids)
    ensures forall x :: x in ids <==> x in s
  {
    if s == {} then []
    else
      var m := Least(s);
      var rest := SortedIds(s - {m});
      assert forall i | 0 <= i < |rest| :: rest[i] in s - {m};
      [m] + rest
  }

  lemma {:induction false} AscendingUnique(a: seq<nat>, b: seq<nat>)
    requires Ascending(a) && Ascending(b) && forall x :: x in a <==> x in b
    ensures a == b
  {
    assert (a != [] ==> a[0] in a) && (b != [] ==> b[0] in b);
    if a != [] && b != [] {
      assert a[0] in b && b[0] in a;
      forall x ensures x in a[1..] <==> x in b[1..] {
        assert x in a[1..] <==> x in a && x != a[0];
        assert x in b[1..] <==> x in b && x != b[0];
      }
      AscendingUnique(a[1..], b[1..]);
      assert a == [a[0]] + a[1..] && b == [b[0]] + b[1..];
    }
  }

  lemma {:induction false} MaxExists(s: set<nat>) returns (m: nat)
    requires s != {}
    ensures m in s && forall x | x in s :: x <= m
  {
    var y :| y in s;
    if s == {y} {
      m := y;
    } else {
      var rest := s - {y};
      var r := MaxExists(rest);
      m := if r < y then y else r;
      forall x | x in s ensures x <= m {
        assert x == y || x in rest;
      }
    }
  }

  lemma SubsetSize<T>(a: set<T>, b: set<T>)
    requires a <= b
    ensures |a| <= |b|
  {
    if a != {} {
      var x :| x in a;
      SubsetSize(a - {x}, b - {x});
    }
  }

  /** SELECT ... ORDER BY id LIMIT n: the n smallest members of s, smallest first. */
  method FirstIds(s: set<nat>, n: nat) returns (ids: seq<nat>, picked: set<nat>)
    ensures Ascending(ids)
    ensures (forall x :: x in ids <==> x in picked) && picked <= s
    ensures |ids| == |picked| == if |s| < n then |s| else n
    ensures |ids| < n ==> picked == s
    ensures forall x, y | x in picked && y in s - picked :: x < y
  {
    ids := [];
    var rest := s;
    while rest != {} && |ids| < n
      invariant Ascending(ids)
      invariant forall x | x in ids :: x in s && x !in rest
      invariant rest <= s
      invariant forall x | x in s :: x in ids || x in rest
      invariant forall x, y | x in ids && y in rest :: x < y
      invariant |ids| + |rest| == |s| && |ids| <= n
      decreases n - |ids|
    {
      var m := Smallest(rest);
      assert Ascending(ids + [m]) by {
        forall i | 0 <= i < |ids| ensures ids[i] < m { assert ids[i] in ids; }
      }
      ids := ids + [m];
      rest := rest - {m};
    }
    picked := s - rest;
  }

  method Smallest(s: set<nat>) returns (m: nat)
    requires s != {}
    ensures m in s && forall x | x in s :: m <= x
  {
    m :| m in s;
    var rest := s - {m};
    while rest != {}
      invariant m in s && rest <= s
      invariant forall x | x in s :: x in rest || m <= x
      decreases rest
    {
      var x :| x in rest;
      if x < m { m := x; }
      rest := rest - {x};
    }
  }
}

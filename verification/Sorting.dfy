/** What sorting a list means.  The generator sorts with msort, which is verified on its own; here is the list that
  any sorting of distinct keys must produce. */
module Sorting {

  // le orders any two values, and transitively.
  ghost predicate TotalPreorder<A(!new)>(le: (A, A) -> bool) {
    && (forall x, y :: le(x, y) || le(y, x))
    && (forall x, y, z :: le(x, y) && le(y, z) ==> le(x, z))
  }

  ghost predicate Ordered<A>(s: seq<A>, le: (A, A) -> bool) {
    forall i, j | 0 <= i < j < |s| :: le(s[i], s[j])
  }

  function Insert<A>(x: A, s: seq<A>, le: (A, A) -> bool): (r: seq<A>)
    ensures multiset(r) == multiset{x} + multiset(s) && |r| == |s| + 1
  {
    if s == [] then [x]
    else if le(x, s[0]) then [x] + s
    else assert s == [s[0]] + s[1..]; [s[0]] + Insert(x, s[1..], le)
  }

  function Sort<A>(s: seq<A>, le: (A, A) -> bool): (r: seq<A>)
    ensures multiset(r) == multiset(s) && |r| == |s|
  {
    if s == [] then []
    else assert s == [s[0]] + s[1..]; Insert(s[0], Sort(s[1..], le), le)
  }

  lemma SameMembers<A>(a: seq<A>, b: seq<A>)
    requires multiset(a) == multiset(b)
    ensures forall x :: x in a <==> x in b
  {
    forall x ensures x in a <==> x in b {
      assert x in a <==> x in multiset(a);
      assert x in b <==> x in multiset(b);
    }
  }

  lemma OccursTwice<A>(b: seq<A>, i: nat, j: nat)
    requires i < j < |b|
    ensures b[i] == b[j] ==> multiset(b)[b[i]] >= 2
  {
    assert b == b[..j] + b[j..];
    assert b[i] in b[..j] && b[j] in b[j..];
  }

  ghost predicate AllDifferent<A>(s: seq<A>) {
    forall i, j | 0 <= i < j < |s| :: s[i] != s[j]
  }

  lemma {:induction false} OccursOnce<A>(a: seq<A>, x: A)
    requires AllDifferent(a)
    ensures multiset(a)[x] <= 1
  {
    if a != [] {
      var n := |a| - 1;
      assert a == a[..n] + [a[n]];
      OccursOnce(a[..n], x);
      assert a[n] !in a[..n];
    }
  }

  lemma DistinctPermute<A>(a: seq<A>, b: seq<A>)
    requires AllDifferent(a) && multiset(a) == multiset(b)
    ensures AllDifferent(b)
  {
    forall i, j | 0 <= i < j < |b| ensures b[i] != b[j] {
      OccursTwice(b, i, j);
      OccursOnce(a, b[i]);
    }
  }

  // Lists without repetition and with the same members are permutations of each other.
  lemma DistinctSame<A>(a: seq<A>, b: seq<A>)
    requires AllDifferent(a) && AllDifferent(b) && forall x :: x in a <==> x in b
    ensures multiset(a) == multiset(b) && |a| == |b|
  {
    forall x ensures multiset(a)[x] == multiset(b)[x] {
      OccursOnce(a, x);
      OccursOnce(b, x);
      assert x in a <==> x in multiset(a);
      assert x in b <==> x in multiset(b);
    }
    assert multiset(a) == multiset(b);
    assert |multiset(a)| == |multiset(b)|;
  }

  lemma {:induction false} InsertOrders<A(!new)>(x: A, s: seq<A>, le: (A, A) -> bool)
    requires TotalPreorder(le) && Ordered(s, le)
    ensures Ordered(Insert(x, s, le), le)
  {
    if s != [] && !le(x, s[0]) {
      InsertOrders(x, s[1..], le);
      var rest := Insert(x, s[1..], le);
      forall y | y in rest ensures le(s[0], y) {
        assert y in multiset(rest) && multiset(rest) == multiset{x} + multiset(s[1..]);
        assert y == x || y in s[1..];
      }
    }
  }

  lemma {:induction false} SortOrders<A(!new)>(s: seq<A>, le: (A, A) -> bool)
    requires TotalPreorder(le)
    ensures Ordered(Sort(s, le), le)
  {
    if s != [] {
      SortOrders(s[1..], le);
      InsertOrders(s[0], Sort(s[1..], le), le);
    }
  }

  // Distinct keys can be put in order in one way only.
  lemma {:induction false} OrderedUnique<A>(a: seq<A>, b: seq<A>, le: (A, A) -> bool)
    requires multiset(a) == multiset(b) && Ordered(a, le) && Ordered(b, le)
    requires forall x, y | x in a && y in a && le(x, y) && le(y, x) :: x == y
    ensures a == b
  {
    hide Ordered;
    if a == [] {
      assert |multiset(b)| == 0;
    } else {
      SameHeads(a, b, le);
      Tails(a, b, le);
      OrderedUnique(a[1..], b[1..], le);
      assert a == [a[0]] + a[1..] && b == [b[0]] + b[1..];
    }
  }

  lemma Tails<A>(a: seq<A>, b: seq<A>, le: (A, A) -> bool)
    requires a != [] && b != [] && a[0] == b[0] && multiset(a) == multiset(b)
    requires Ordered(a, le) && Ordered(b, le)
    requires forall x, y | x in a && y in a && le(x, y) && le(y, x) :: x == y
    ensures multiset(a[1..]) == multiset(b[1..]) && Ordered(a[1..], le) && Ordered(b[1..], le)
    ensures forall x, y | x in a[1..] && y in a[1..] && le(x, y) && le(y, x) :: x == y
  {
    hide Ordered;
    Tail(a, le);
    Tail(b, le);
  }

  lemma Tail<A>(a: seq<A>, le: (A, A) -> bool)
    requires a != [] && Ordered(a, le)
    ensures Ordered(a[1..], le) && multiset(a[1..]) == multiset(a) - multiset{a[0]}
    ensures forall x <- a[1..] :: x in a
  {
    assert a == [a[0]] + a[1..];
  }

  lemma SameHeads<A>(a: seq<A>, b: seq<A>, le: (A, A) -> bool)
    requires multiset(a) == multiset(b) && Ordered(a, le) && Ordered(b, le) && a != []
    requires forall x, y | x in a && y in a && le(x, y) && le(y, x) :: x == y
    ensures b != [] && a[0] == b[0]
  {
    SameMembers(a, b);
    assert a[0] in a && a[0] in b && b[0] in b && b[0] in a;
    var i :| 0 <= i < |b| && b[i] == a[0];
    var j :| 0 <= j < |a| && a[j] == b[0];
    assert i == 0 || le(b[0], b[i]);
    assert j == 0 || le(a[0], a[j]);
  }

  // ---- counting ----

  function Below(m: nat): (r: set<nat>)
    ensures |r| == m && forall x: nat :: x in r <==> x < m
  {
    if m == 0 then {} else Below(m - 1) + {m - 1}
  }

  ghost function Members(d: seq<nat>): set<nat> {
    set x <- d
  }

  lemma {:induction false} DistinctCount(d: seq<nat>)
    requires AllDifferent(d)
    ensures |Members(d)| == |d|
  {
    if d != [] {
      var k := |d| - 1;
      DistinctCount(d[..k]);
      assert d == d[..k] + [d[k]];
      assert Members(d) == Members(d[..k]) + {d[k]};
    }
  }

  // Different numbers below m: at most m of them, and if there are m, all of them.
  lemma Pigeonhole(d: seq<nat>, m: nat)
    requires AllDifferent(d) && forall x <- d :: x < m
    ensures |d| <= m && (|d| == m ==> forall c: nat | c < m :: c in d)
  {
    DistinctCount(d);
    Inside(Members(d), Below(m));
    if |d| == m { forall c: nat | c < m ensures c in d { assert c in Members(d); } }
  }

  lemma Inside(a: set<nat>, b: set<nat>)
    requires a <= b
    ensures |a| <= |b| && (|a| == |b| ==> a == b)
  {
    assert b == a + (b - a);
    assert |b| == |a| + |b - a|;
  }

  // Sets whose members correspond to each other have the same size.
  lemma {:induction false} Corresponding<A(!new), B(!new)>(a: set<A>, b: set<B>, rel: (A, B) -> bool)
    requires forall x <- a :: exists y <- b :: rel(x, y)
    requires forall y <- b :: exists x <- a :: rel(x, y)
    requires forall x, y, y' | x in a && y in b && y' in b && rel(x, y) && rel(x, y') :: y == y'
    requires forall x, x', y | x in a && x' in a && y in b && rel(x, y) && rel(x', y) :: x == x'
    ensures |a| == |b|
    decreases |a|
  {
    if a == {} {
      assert forall y :: y !in b;
    } else {
      var x :| x in a;
      var y :| y in b && rel(x, y);
      var a', b' := a - {x}, b - {y};
      forall u | u in a' ensures exists v <- b' :: rel(u, v) {
        var v :| v in b && rel(u, v);
        assert v in b';
      }
      forall v | v in b' ensures exists u <- a' :: rel(u, v) {
        var u :| u in a && rel(u, v);
        assert u in a';
      }
      Corresponding(a', b', rel);
      assert a == a' + {x} && b == b' + {y};
    }
  }
}

/** Powers of two and maxima. */
module Numbers {

  function Pow2(n: nat): (r: nat)
    ensures r > 0
  {
    if n == 0 then 1 else 2 * Pow2(n - 1)
  }

  lemma {:induction false} Pow2Grows(a: nat, b: nat)
    requires a <= b
    ensures Pow2(a) <= Pow2(b)
  {
    if a < b { Pow2Grows(a, b - 1); }
  }

  function Max(a: int, b: int): int {
    if a > b then a else b
  }

  function Sum(s: seq<int>): int {
    if s == [] then 0 else Sum(s[..|s| - 1]) + s[|s| - 1]
  }

  // The numbers at these places, added up.
  function SumAt(s: seq<int>, at: seq<nat>): int {
    if at == [] then 0
    else SumAt(s, at[..|at| - 1]) + if at[|at| - 1] < |s| then s[at[|at| - 1]] else 0
  }

  lemma {:induction false} SumAtConcat(s: seq<int>, a: seq<nat>, b: seq<nat>)
    ensures SumAt(s, a + b) == SumAt(s, a) + SumAt(s, b)
    decreases |b|
  {
    if b == [] {
      assert a + b == a;
    } else {
      var n := |b| - 1;
      assert (a + b)[..|a + b| - 1] == a + b[..n];
      SumAtConcat(s, a, b[..n]);
    }
  }

  // In whatever order.
  lemma {:induction false} SumAtPermuted(s: seq<int>, a: seq<nat>, b: seq<nat>)
    requires multiset(a) == multiset(b)
    ensures SumAt(s, a) == SumAt(s, b)
    decreases |a|
  {
    if a == [] {
      assert |multiset(b)| == 0;
    } else {
      var n := |a| - 1;
      assert a == a[..n] + [a[n]];
      assert a[n] in multiset(b);
      var j :| 0 <= j < |b| && b[j] == a[n];
      TakenOut(b, j);
      assert multiset(a[..n]) == multiset(a) - multiset{a[n]};
      assert multiset(b[..j] + b[j + 1..]) == multiset(b) - multiset{b[j]};
      SumAtPermuted(s, a[..n], b[..j] + b[j + 1..]);
      SumTakenOut(s, b, j);
      SumAtConcat(s, a[..n], [a[n]]);
    }
  }

  lemma SumTakenOut(s: seq<int>, b: seq<nat>, j: nat)
    requires j < |b|
    ensures SumAt(s, b) == SumAt(s, b[..j] + b[j + 1..]) + SumAt(s, [b[j]])
  {
    hide SumAt;
    assert b == b[..j] + [b[j]] + b[j + 1..];
    SumAtConcat(s, b[..j] + [b[j]], b[j + 1..]);
    SumAtConcat(s, b[..j], [b[j]]);
    SumAtConcat(s, b[..j], b[j + 1..]);
  }

  lemma TakenOut(b: seq<nat>, j: nat)
    requires j < |b|
    ensures b == b[..j] + [b[j]] + b[j + 1..]
    ensures multiset(b) == multiset(b[..j] + b[j + 1..]) + multiset{b[j]}
  {
    assert b == b[..j] + [b[j]] + b[j + 1..];
  }

  lemma {:induction false} SumIsAt(s: seq<int>, n: nat)
    requires n <= |s|
    ensures SumAt(s, seq(n, i requires 0 <= i < n => i)) == Sum(s[..n])
  {
    var at := seq(n, i requires 0 <= i < n => i);
    if n > 0 {
      SumIsAt(s, n - 1);
      assert at[..n - 1] == seq(n - 1, i requires 0 <= i < n - 1 => i);
      assert s[..n][..n - 1] == s[..n - 1];
    }
  }

  // The sum of a list that has been put in another order.
  lemma {:induction false} SumReordered(s: seq<int>, order: seq<nat>, r: seq<int>, n: nat)
    requires |r| == |order| && n <= |r| && forall k | 0 <= k < |r| :: order[k] < |s| && r[k] == s[order[k]]
    ensures Sum(r[..n]) == SumAt(s, order[..n])
  {
    if n > 0 {
      SumReordered(s, order, r, n - 1);
      assert r[..n][..n - 1] == r[..n - 1] && order[..n][..n - 1] == order[..n - 1];
    }
  }
}

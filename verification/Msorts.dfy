/** msort: merge sort of a linked list in the heap, by relinking, with thirty bins. */
module Msorts {
  import opened Numbers
  import opened Sorting

  class Node {
    var next: Node?
    const key: int

    constructor (key: int)
      ensures this.key == key && next == null
    {
      this.key, next := key, null;
    }
  }

  type Comparison = (int, int) -> int

  // What a comparison function must be for sorting to mean anything.
  ghost predicate Consistent(cmp: Comparison) {
    && (forall x, y :: cmp(x, y) <= 0 || cmp(y, x) <= 0)
    && (forall x, y, z :: cmp(x, y) <= 0 && cmp(y, z) <= 0 ==> cmp(x, z) <= 0)
  }

  // ---- lists in the heap ----

  ghost predicate Chain(s: seq<Node>)
    reads s
  {
    forall i | 0 <= i < |s| - 1 :: s[i].next == s[i + 1]
  }

  ghost predicate IsList(head: Node?, s: seq<Node>)
    reads s
  {
    && Chain(s)
    && if s == [] then head == null else head == s[0] && s[|s| - 1].next == null
  }

  // No node twice.
  ghost predicate Once(m: multiset<Node>) {
    forall x <- m :: m[x] == 1
  }

  ghost predicate InOrder(s: seq<Node>, cmp: Comparison) {
    forall i, j | 0 <= i < j < |s| :: cmp(s[i].key, s[j].key) <= 0
  }

  lemma TailIsList(head: Node?, s: seq<Node>)
    requires IsList(head, s) && head != null
    ensures s != [] && head == s[0] && IsList(head.next, s[1..]) && s == [head] + s[1..]
  {
    assert |s| > 1 ==> s[0].next == s[1];
  }

  lemma AppendChain(done: seq<Node>, s: seq<Node>)
    requires Chain(done) && Chain(s) && (done != [] && s != [] ==> done[|done| - 1].next == s[0])
    ensures Chain(done + s)
  {
  }

  // ---- merging, on sequences ----

  function Merged(a: seq<Node>, b: seq<Node>, cmp: Comparison): (r: seq<Node>)
    ensures |r| == |a| + |b|
    decreases |a| + |b|
  {
    if a == [] then b
    else if b == [] then a
    else if cmp(a[0].key, b[0].key) <= 0 then [a[0]] + Merged(a[1..], b, cmp)
    else [b[0]] + Merged(a, b[1..], cmp)
  }

  lemma {:induction false} MergedNodes(a: seq<Node>, b: seq<Node>, cmp: Comparison)
    ensures multiset(Merged(a, b, cmp)) == multiset(a) + multiset(b)
    decreases |a| + |b|
  {
    if a == [] || b == [] {
    } else if cmp(a[0].key, b[0].key) <= 0 {
      MergedNodes(a[1..], b, cmp);
      HeadFirst(a, Merged(a[1..], b, cmp), b);
    } else {
      MergedNodes(a, b[1..], cmp);
      HeadFirst(b, Merged(a, b[1..], cmp), a);
    }
  }

  lemma HeadFirst(a: seq<Node>, m: seq<Node>, b: seq<Node>)
    requires a != [] && multiset(m) == multiset(a[1..]) + multiset(b)
    ensures multiset([a[0]] + m) == multiset(a) + multiset(b)
  {
    assert a == [a[0]] + a[1..];
  }

  lemma MergedMembers(a: seq<Node>, b: seq<Node>, cmp: Comparison)
    ensures forall y <- Merged(a, b, cmp) :: y in a || y in b
  {
    MergedNodes(a, b, cmp);
    forall y | y in Merged(a, b, cmp) ensures y in a || y in b {
      assert y in multiset(Merged(a, b, cmp));
    }
  }

  lemma {:induction false} MergedInOrder(a: seq<Node>, b: seq<Node>, cmp: Comparison)
    requires Consistent(cmp) && InOrder(a, cmp) && InOrder(b, cmp)
    ensures InOrder(Merged(a, b, cmp), cmp)
    decreases |a| + |b|
  {
    if a == [] || b == [] {
    } else if cmp(a[0].key, b[0].key) <= 0 {
      MergedInOrder(a[1..], b, cmp);
      MergedMembers(a[1..], b, cmp);
      LeastFirst(a[0], Merged(a[1..], b, cmp), a, b, cmp);
    } else {
      MergedInOrder(a, b[1..], cmp);
      MergedMembers(a, b[1..], cmp);
      LeastFirst(b[0], Merged(a, b[1..], cmp), a, b, cmp);
    }
  }

  lemma LeastFirst(x: Node, rest: seq<Node>, a: seq<Node>, b: seq<Node>, cmp: Comparison)
    requires Consistent(cmp) && InOrder(a, cmp) && InOrder(b, cmp) && a != [] && b != [] && InOrder(rest, cmp)
    requires x == if cmp(a[0].key, b[0].key) <= 0 then a[0] else b[0]
    requires forall y <- rest :: y in a || y in b
    ensures InOrder([x] + rest, cmp)
  {
    forall y | y in rest ensures cmp(x.key, y.key) <= 0 {
      if y in a {
        var i :| 0 <= i < |a| && a[i] == y;
        assert cmp(a[0].key, a[i].key) <= 0;
      } else {
        var i :| 0 <= i < |b| && b[i] == y;
        assert cmp(b[0].key, b[i].key) <= 0;
      }
    }
  }

  // ---- merging, in the heap ----

  // What is left of two lists, behind what has been linked up.
  ghost predicate Merging(done: seq<Node>, a: Node?, ra: seq<Node>, b: Node?, rb: seq<Node>)
    reads done, ra, rb
  {
    && done != [] && Chain(done)
    && IsList(a, ra) && IsList(b, rb)
    && Once(multiset(done) + multiset(ra) + multiset(rb))
  }

  lemma NotIn(done: seq<Node>, ra: seq<Node>, rb: seq<Node>)
    requires Once(multiset(done) + multiset(ra) + multiset(rb))
    ensures forall x <- done :: x !in ra && x !in rb
    ensures forall i, j | 0 <= i < j < |done| :: done[i] != done[j]
  {
    var m := multiset(done) + multiset(ra) + multiset(rb);
    forall x | x in done ensures x !in ra && x !in rb {
      assert m[x] <= 1 && multiset(done)[x] >= 1;
    }
    forall i, j | 0 <= i < j < |done| ensures done[i] != done[j] {
      assert done == done[..j] + done[j..];
      assert done[i] in done[..j] && done[j] in done[j..];
      assert m[done[i]] <= 1;
    }
  }

  // The loop body of merge: the head of one list is linked behind the last node.
  method TakeHead(ptr: Node, x: Node, ghost done: seq<Node>, ghost rx: seq<Node>, ghost other: Node?,
                  ghost ry: seq<Node>)
    requires Merging(done, x, rx, other, ry) && ptr == done[|done| - 1]
    modifies ptr
    ensures Merging(done + [x], x.next, rx[1..], other, ry)
  {
    NotIn(done, rx, ry);
    TailIsList(x, rx);
    assert ptr in done && ptr !in rx && ptr !in ry;
    ptr.next := x;
    ChainKept(done, x);
    TailIsList(x, rx);
    Shift(done, x, rx, ry);
  }

  lemma ChainKept(done: seq<Node>, x: Node)
    requires done != [] && (forall i | 0 <= i < |done| - 1 :: done[i].next == done[i + 1]) && done[|done| - 1].next == x
    ensures Chain(done + [x])
  {
  }

  // Linked up so far, and left: together the nodes of both lists, and in the right order.
  ghost predicate MergeState(done: seq<Node>, ra: seq<Node>, rb: seq<Node>, sa: seq<Node>, sb: seq<Node>,
                             cmp: Comparison) {
    && done + Merged(ra, rb, cmp) == Merged(sa, sb, cmp)
    && multiset(done) + multiset(ra) + multiset(rb) == multiset(sa) + multiset(sb)
  }

  lemma MergeStarts(a: Node, sa: seq<Node>, b: Node, sb: seq<Node>, cmp: Comparison)
    requires IsList(a, sa) && IsList(b, sb) && Once(multiset(sa) + multiset(sb))
    ensures sa != [] && sb != []
    ensures cmp(a.key, b.key) <= 0 ==> Merging([a], a.next, sa[1..], b, sb) && MergeState([a], sa[1..], sb, sa, sb, cmp)
    ensures !(cmp(a.key, b.key) <= 0) ==>
      Merging([b], a, sa, b.next, sb[1..])
      && MergeState([b], sa, sb[1..], sa, sb, cmp)
  {
    TailIsList(a, sa);
    TailIsList(b, sb);
    assert multiset(sa) == multiset{a} + multiset(sa[1..]) && multiset(sb) == multiset{b} + multiset(sb[1..]);
    assert multiset([a]) + multiset(sa[1..]) + multiset(sb) == multiset(sa) + multiset(sb);
    assert multiset([b]) + multiset(sa) + multiset(sb[1..]) == multiset(sa) + multiset(sb);
  }

  lemma Shift(done: seq<Node>, x: Node, rx: seq<Node>, ry: seq<Node>)
    requires rx != [] && x == rx[0]
    ensures multiset(done + [x]) + multiset(rx[1..]) + multiset(ry) == multiset(done) + multiset(rx) + multiset(ry)
  {
    assert rx == [x] + rx[1..];
    assert multiset(done + [x]) + multiset(rx[1..]) == multiset(done) + multiset(rx);
  }

  lemma MergeSteps(done: seq<Node>, a: Node, ra: seq<Node>, b: Node, rb: seq<Node>, sa: seq<Node>, sb: seq<Node>,
                   cmp: Comparison)
    requires Merging(done, a, ra, b, rb) && MergeState(done, ra, rb, sa, sb, cmp)
    ensures ra != [] && rb != []
    ensures cmp(a.key, b.key) <= 0 ==> MergeState(done + [a], ra[1..], rb, sa, sb, cmp)
    ensures !(cmp(a.key, b.key) <= 0) ==> MergeState(done + [b], ra, rb[1..], sa, sb, cmp)
  {
    TailIsList(a, ra);
    TailIsList(b, rb);
    OneMore(done, ra, rb, cmp);
    Shift(done, a, ra, rb);
    Shift(done, b, rb, ra);
    assert multiset(done) + multiset(rb) + multiset(ra) == multiset(done) + multiset(ra) + multiset(rb);
    assert multiset(done + [b]) + multiset(ra) + multiset(rb[1..])
        == multiset(done + [b]) + multiset(rb[1..]) + multiset(ra);
  }

  lemma MergingSwap(done: seq<Node>, a: Node?, ra: seq<Node>, b: Node?, rb: seq<Node>)
    requires Merging(done, a, ra, b, rb)
    ensures Merging(done, b, rb, a, ra)
  {
    assert multiset(done) + multiset(ra) + multiset(rb) == multiset(done) + multiset(rb) + multiset(ra);
  }

  method Merge(a0: Node?, b0: Node?, cmp: Comparison, ghost sa: seq<Node>, ghost sb: seq<Node>) returns (head: Node?)
    requires IsList(a0, sa) && IsList(b0, sb) && Once(multiset(sa) + multiset(sb))
    modifies sa, sb
    ensures IsList(head, Merged(sa, sb, cmp))
  {
    hide Merging, MergeState, Once, Chain;
    var a, b := a0, b0;
    if a == null { return b; }
    if b == null { return a; }
    hide Merged, IsList;
    ghost var ra: seq<Node>, rb: seq<Node> := sa, sb;
    MergeStarts(a, sa, b, sb, cmp);
    var ptr: Node;
    if cmp(a.key, b.key) <= 0 {
      ptr := a;
      a, ra := a.next, ra[1..];
    } else {
      ptr := b;
      b, rb := b.next, rb[1..];
    }
    head := ptr;
    ghost var done: seq<Node> := [ptr];
    while a != null && b != null
      invariant Merging(done, a, ra, b, rb) && MergeState(done, ra, rb, sa, sb, cmp)
      invariant done != [] && ptr == done[|done| - 1] && head == done[0]
      decreases |ra| + |rb|
    {
      MergeSteps(done, a, ra, b, rb, sa, sb, cmp);
      MemberOf(done, ra, rb, sa, sb, ptr, cmp);
      if cmp(a.key, b.key) <= 0 {
        TakeHead(ptr, a, done, ra, b, rb);
        done := done + [a];
        ptr := a;
        a, ra := a.next, ra[1..];
      } else {
        MergingSwap(done, a, ra, b, rb);
        TakeHead(ptr, b, done, rb, a, ra);
        MergingSwap(done + [b], b.next, rb[1..], a, ra);
        done := done + [b];
        ptr := b;
        b, rb := b.next, rb[1..];
      }
    }
    MemberOf(done, ra, rb, sa, sb, ptr, cmp);
    LinkRest(ptr, done, a, ra, b, rb, head, sa, sb, cmp);
  }

  method LinkRest(ptr: Node, ghost done: seq<Node>, a: Node?, ghost ra: seq<Node>, b: Node?, ghost rb: seq<Node>,
                  ghost head: Node, ghost sa: seq<Node>, ghost sb: seq<Node>, cmp: Comparison)
    requires Merging(done, a, ra, b, rb) && MergeState(done, ra, rb, sa, sb, cmp) && (a == null || b == null)
    requires ptr == done[|done| - 1] && head == done[0]
    modifies ptr
    ensures IsList(head, Merged(sa, sb, cmp))
  {
    NotIn(done, ra, rb);
    assert ptr in done && ptr !in ra && ptr !in rb;
    if a != null { ptr.next := a; } else { ptr.next := b; }
    ListDone(done, a, ra, b, rb, head, Merged(sa, sb, cmp), cmp);
  }

  lemma MemberOf(done: seq<Node>, ra: seq<Node>, rb: seq<Node>, sa: seq<Node>, sb: seq<Node>, x: Node, cmp: Comparison)
    requires MergeState(done, ra, rb, sa, sb, cmp) && x in done
    ensures x in sa || x in sb
  {
    assert x in multiset(done) + multiset(ra) + multiset(rb);
  }

  lemma OneMore(done: seq<Node>, ra: seq<Node>, rb: seq<Node>, cmp: Comparison)
    requires ra != [] && rb != []
    ensures done + Merged(ra, rb, cmp)
         == if cmp(ra[0].key, rb[0].key) <= 0 then done + [ra[0]] + Merged(ra[1..], rb, cmp)
             else done + [rb[0]] + Merged(ra, rb[1..], cmp)
  {
  }

  lemma ListDone(done: seq<Node>, a: Node?, ra: seq<Node>, b: Node?, rb: seq<Node>, head: Node, result: seq<Node>,
                 cmp: Comparison)
    requires done != [] && Chain(done) && IsList(a, ra) && IsList(b, rb) && (a == null || b == null) && head == done[0]
    requires done[|done| - 1].next == if a != null then a else b
    requires result == done + Merged(ra, rb, cmp)
    ensures IsList(head, result)
  {
    var rest := Merged(ra, rb, cmp);
    assert rest == if a != null then ra else rb;
    AppendChain(done, rest);
  }

  // ---- the bins ----

  const LISTSIZE: nat := 30

  function Flat(bins: seq<seq<Node>>): seq<Node> {
    if bins == [] then [] else bins[0] + Flat(bins[1..])
  }

  lemma Together(e: multiset<Node>, a: multiset<Node>, b: multiset<Node>, c: multiset<Node>, d: multiset<Node>)
    requires a + b == c + d
    ensures e + a + b == e + c + d
  {
    assert e + a + b == e + (a + b);
  }

  lemma {:induction false} FlatUpdate(bins: seq<seq<Node>>, i: nat, s: seq<Node>)
    requires i < |bins|
    ensures multiset(Flat(bins[i := s])) + multiset(bins[i]) == multiset(Flat(bins)) + multiset(s)
    ensures |Flat(bins[i := s])| + |bins[i]| == |Flat(bins)| + |s|
  {
    if i == 0 {
      assert bins[i := s][1..] == bins[1..];
    } else {
      assert bins[i := s][1..] == bins[1..][i - 1 := s];
      FlatUpdate(bins[1..], i - 1, s);
      Together(multiset(bins[0]), multiset(Flat(bins[1..][i - 1 := s])), multiset(bins[i]), multiset(Flat(bins[1..])),
          multiset(s));
    }
  }

  ghost function Nodes(bins: seq<seq<Node>>): set<Node> {
    set b, x | b in bins && x in b :: x
  }

  // set[i] is the head of the list of bin i.
  ghost predicate BinsOK(heads: seq<Node?>, bins: seq<seq<Node>>)
    reads Nodes(bins)
  {
    |heads| == |bins| && forall i: nat | i < |bins| ::
        bins[i] in bins && (forall x <- bins[i] :: x in Nodes(bins)) && IsList(heads[i], bins[i])
  }

  // Bin i is empty or holds exactly 2^i nodes; bin `from` is the first of these.
  ghost predicate SizesOK(bins: seq<seq<Node>>, from: nat) {
    forall i: nat | i < |bins| :: bins[i] == [] || |bins[i]| == Pow2(from + i)
  }

  ghost predicate AllInOrder(bins: seq<seq<Node>>, cmp: Comparison) {
    forall b <- bins :: InOrder(b, cmp)
  }

  // So the bins can hold no more than 2^30 - 1 nodes.
  lemma {:induction false} Capacity(bins: seq<seq<Node>>, from: nat)
    requires SizesOK(bins, from)
    ensures |Flat(bins)| + Pow2(from) <= Pow2(from + |bins|)
  {
    if bins != [] {
      forall i: nat | i < |bins[1..]| ensures bins[1..][i] == [] || |bins[1..][i]| == Pow2(from + 1 + i) {
        assert bins[1..][i] == bins[i + 1];
      }
      Capacity(bins[1..], from + 1);
    }
  }

  // Nothing in bins other than the last.
  lemma {:induction false} OnlyLast(bins: seq<seq<Node>>)
    requires bins != [] && forall i | 0 <= i < |bins| - 1 :: bins[i] == []
    ensures Flat(bins) == bins[|bins| - 1]
  {
    if |bins| > 1 {
      OnlyLast(bins[1..]);
    } else {
      assert Flat(bins[1..]) == [];
    }
  }

  lemma Apart(bins: seq<seq<Node>>, eps: seq<Node>, i: nat, j: nat)
    requires i < |bins| && j < |bins| && i != j && Once(multiset(Flat(bins)) + multiset(eps))
    ensures forall x <- bins[j] :: x !in bins[i] && x !in eps
    ensures Once(multiset(eps) + multiset(bins[i]))
  {
    hide Flat;
    FlatUpdate(bins, i, []);
    FlatUpdate(bins[i := []], j, []);
    var f, f1, r := multiset(Flat(bins)), multiset(Flat(bins[i := []])), multiset(Flat(bins[i := []][j := []]));
    assert f == f1 + multiset(bins[i]) && f1 == r + multiset(bins[j]);
    OnceParts(f + multiset(eps), r, multiset(bins[j]), multiset(bins[i]), multiset(eps));
    forall x | x in bins[j] ensures x !in bins[i] && x !in eps { assert x in multiset(bins[j]); }
  }

  lemma OnceParts(m: multiset<Node>, r: multiset<Node>, a: multiset<Node>, b: multiset<Node>, c: multiset<Node>)
    requires Once(m) && m == r + a + b + c
    ensures forall x <- a :: x !in b && x !in c
    ensures Once(c + b)
  {
    forall x | x in a ensures x !in b && x !in c { assert x in m; }
    forall x | x in c + b ensures (c + b)[x] == 1 { assert x in m; }
  }

  // The nodes held when one more has been added to h of them: one more, unless all bins are full, in which case the
  // last bin is overwritten.
  function HeldNext(h: nat): nat {
    if h == Pow2(LISTSIZE) - 1 then Pow2(LISTSIZE - 1) else h + 1
  }

  function Held(n: nat): nat {
    if n == 0 then 0 else HeldNext(Held(n - 1))
  }

  // A list of fewer than 2^30 nodes is held in full; of a longer one nodes are lost.
  lemma {:induction false} HeldIsAll(n: nat)
    ensures Held(n) < Pow2(LISTSIZE)
    ensures Held(n) == n <==> n < Pow2(LISTSIZE)
    ensures Held(n) <= n
  {
    assert Pow2(LISTSIZE) == 2 * Pow2(LISTSIZE - 1);
    if n > 0 { HeldIsAll(n - 1); }
  }

  // The list ep and the bins while ep, which has 2^i nodes, is carried upwards from bin i.
  ghost predicate Carrying(ep: Node?, eps: seq<Node>, heads: seq<Node?>, bins: seq<seq<Node>>, i: nat, cmp: Comparison)
    reads eps, Nodes(bins)
  {
    && IsList(ep, eps) && BinsOK(heads, bins) && |bins| == LISTSIZE
    && i < LISTSIZE && |eps| == Pow2(i) && SizesOK(bins, 0)
    && (forall j | 0 <= j < i :: bins[j] == [])
    && InOrder(eps, cmp) && AllInOrder(bins, cmp)
    && Once(multiset(Flat(bins)) + multiset(eps))
  }

  // The body of the carry loop.
  method CarryStep(ep: Node?, bin: array<Node?>, i: nat, cmp: Comparison, ghost eps: seq<Node>,
                   ghost bins: seq<seq<Node>>)
    returns (ep': Node?, ghost eps': seq<Node>, ghost bins': seq<seq<Node>>)
    requires Consistent(cmp) && Carrying(ep, eps, bin[..], bins, i, cmp) && i < LISTSIZE - 1 && bin[i] != null
    modifies bin, eps, bins[i]
    ensures bins' == bins[i := []] && multiset(eps') == multiset(eps) + multiset(bins[i]) && bins[i] != []
    ensures Carrying(ep', eps', bin[..], bins', i + 1, cmp)
  {
    hide InOrder, Once, SizesOK, Merged, Flat;
    eps', bins' := Merged(eps, bins[i], cmp), bins[i := []];
    MergedNodes(eps, bins[i], cmp);
    assert InOrder(bins[i], cmp) by { assert bins[i] in bins; }
    MergedInOrder(eps, bins[i], cmp);
    CarriedSizes(bins, eps, i, cmp);
    forall j: nat | j < |bins| && j != i ensures forall x <- bins[j] :: x !in bins[i] && x !in eps {
      Apart(bins, eps, i, j);
    }
    Apart(bins, eps, i, i + 1);
    ghost var heads := bin[..];
    assert forall j: nat | j < |bins| :: bins[j] in bins && IsList(heads[j], bins[j]);
    ep' := Merge(ep, bin[i], cmp, eps, bins[i]);
    forall j: nat | j < |bins| && j != i ensures IsList(heads[j], bins[j]) {
      assert old(IsList(heads[j], bins[j]));
      forall k | 0 <= k < |bins[j]| ensures bins[j][k].next == old(bins[j][k].next) { assert bins[j][k] in bins[j]; }
    }
    bin[i] := null;
    BinsUpdated(heads, bin[..], bins, i, null, []);
  }

  // One bin is replaced.
  lemma BinsUpdated(heads: seq<Node?>, heads': seq<Node?>, bins: seq<seq<Node>>, i: nat, p: Node?, s: seq<Node>)
    requires |heads| == |bins| && i < |bins| && heads' == heads[i := p] && IsList(p, s)
    requires forall j: nat | j < |bins| && j != i :: IsList(heads[j], bins[j])
    ensures BinsOK(heads', bins[i := s])
  {
    var bins' := bins[i := s];
    forall j: nat | j < |bins'|
      ensures bins'[j] in bins' && (forall x <- bins'[j] :: x in Nodes(bins')) && IsList(heads'[j], bins'[j])
    {
      assert bins'[j] in bins';
    }
  }

  lemma CarriedSizes(bins: seq<seq<Node>>, eps: seq<Node>, i: nat, cmp: Comparison)
    requires |bins| == LISTSIZE && i < LISTSIZE && |eps| == Pow2(i) && SizesOK(bins, 0) && bins[i] != []
    requires AllInOrder(bins, cmp) && Once(multiset(Flat(bins)) + multiset(eps))
    ensures |Merged(eps, bins[i], cmp)| == Pow2(i + 1) && SizesOK(bins[i := []], 0) && AllInOrder(bins[i := []], cmp)
    ensures Once(multiset(Flat(bins[i := []])) + multiset(Merged(eps, bins[i], cmp)))
  {
    FlatUpdate(bins, i, []);
    MergedNodes(eps, bins[i], cmp);
    hide Flat, Merged;
    var f, f1, e, b := multiset(Flat(bins)), multiset(Flat(bins[i := []])), multiset(eps), multiset(bins[i]);
    assert f == f1 + b;
    assert f1 + (e + b) == f + e;
    var empty: seq<Node> := [];
    assert InOrder(empty, cmp);
    forall b | b in bins[i := []] ensures InOrder(b, cmp) { assert b == [] || b in bins; }
  }

  lemma {:induction false} FlatNodes(bins: seq<seq<Node>>)
    ensures forall x :: x in Flat(bins) <==> x in Nodes(bins)
  {
    if bins != [] {
      FlatNodes(bins[1..]);
      assert bins == [bins[0]] + bins[1..];
      assert Nodes(bins) == Nodes(bins[1..]) + (set x <- bins[0]);
    }
  }

  // Everything is still among the nodes of the beginning.
  lemma StillAmong(bins: seq<seq<Node>>, eps: seq<Node>, bins0: seq<seq<Node>>, eps0: seq<Node>)
    requires multiset(Flat(bins)) + multiset(eps) == multiset(Flat(bins0)) + multiset(eps0)
    ensures forall x | x in Nodes(bins) || x in eps :: x in Nodes(bins0) || x in eps0
  {
    hide Flat, Nodes;
    FlatNodes(bins);
    FlatNodes(bins0);
    forall x | x in Nodes(bins) || x in eps ensures x in Nodes(bins0) || x in eps0 {
      assert x in multiset(Flat(bins)) + multiset(eps);
      assert x in multiset(Flat(bins0)) || x in multiset(eps0);
    }
  }

  // What a list of bins is between insertions.
  ghost predicate BinList(heads: seq<Node?>, bins: seq<seq<Node>>, cmp: Comparison)
    reads Nodes(bins)
  {
    BinsOK(heads, bins) && |bins| == LISTSIZE && SizesOK(bins, 0) && AllInOrder(bins, cmp)
  }

  // The end of the carry: the list goes into bin i, which is empty, or is the last.
  lemma Stored(bins: seq<seq<Node>>, eps: seq<Node>, i: nat, cmp: Comparison)
    requires |bins| == LISTSIZE && i < LISTSIZE && |eps| == Pow2(i) && SizesOK(bins, 0)
      && (forall j | 0 <= j < i :: bins[j] == [])
    requires bins[i] == [] || i == LISTSIZE - 1
    requires InOrder(eps, cmp) && AllInOrder(bins, cmp)
    ensures SizesOK(bins[i := eps], 0) && AllInOrder(bins[i := eps], cmp)
    ensures multiset(Flat(bins[i := eps])) <= multiset(Flat(bins)) + multiset(eps)
    ensures |Flat(bins[i := eps])| == HeldNext(|Flat(bins)| + |eps| - 1)
  {
    hide InOrder, Flat;
    FlatUpdate(bins, i, eps);
    assert multiset(Flat(bins[i := eps])) + multiset(bins[i]) == multiset(Flat(bins)) + multiset(eps);
    forall b | b in bins[i := eps] ensures InOrder(b, cmp) { assert b == eps || b in bins; }
    Capacity(bins[i := eps], 0);
    if bins[i] != [] { OnlyLast(bins); }
  }

  // for(i=0; i<LISTSIZE-1 && set[i]!=0; i++) ...; set[i] = ep;
  method Carry(ep0: Node, bin: array<Node?>, cmp: Comparison, ghost eps0: seq<Node>, ghost bins0: seq<seq<Node>>)
    returns (ghost bins: seq<seq<Node>>)
    requires Consistent(cmp) && Carrying(ep0, eps0, bin[..], bins0, 0, cmp)
    modifies bin, eps0, Nodes(bins0)
    ensures BinList(bin[..], bins, cmp)
    ensures multiset(Flat(bins)) <= multiset(Flat(bins0)) + multiset(eps0)
    ensures |Flat(bins)| == HeldNext(|Flat(bins0)|)
  {
    hide InOrder, AllInOrder, Once, IsList, SizesOK, Flat, HeldNext, Consistent, Carrying, BinsOK, Nodes;
    CarryingFacts(ep0, eps0, bin[..], bins0, 0, cmp);
    var ep: Node?, i := ep0, 0;
    ghost var eps := eps0;
    bins := bins0;
    while i < LISTSIZE - 1 && bin[i] != null
      invariant i < LISTSIZE && Carrying(ep, eps, bin[..], bins, i, cmp)
      invariant multiset(Flat(bins)) + multiset(eps) == multiset(Flat(bins0)) + multiset(eps0)
      decreases LISTSIZE - i
    {
      StillAmong(bins, eps, bins0, eps0);
      CarryingFacts(ep, eps, bin[..], bins, i, cmp);
      FlatUpdate(bins, i, []);
      ghost var f, b, e := multiset(Flat(bins)), multiset(bins[i]), multiset(eps);
      ep, eps, bins := CarryStep(ep, bin, i, cmp, eps, bins);
      assert multiset(Flat(bins)) + b == f && multiset(eps) == e + b;
      assert multiset(Flat(bins)) + multiset(eps) == f + e;
      i := i + 1;
    }
    CarryingFacts(ep, eps, bin[..], bins, i, cmp);
    SameCount(bins, eps, bins0, eps0);
    bins := PutBin(ep, bin, i, cmp, eps, bins);
  }

  method PutBin(ep: Node?, bin: array<Node?>, i: nat, cmp: Comparison, ghost eps: seq<Node>,
                ghost bins0: seq<seq<Node>>)
    returns (ghost bins: seq<seq<Node>>)
    requires Carrying(ep, eps, bin[..], bins0, i, cmp) && (i == LISTSIZE - 1 || bin[i] == null)
    modifies bin
    ensures BinList(bin[..], bins, cmp)
    ensures multiset(Flat(bins)) <= multiset(Flat(bins0)) + multiset(eps)
    ensures |Flat(bins)| == HeldNext(|Flat(bins0)| + |eps| - 1)
  {
    hide InOrder, AllInOrder, Once, Chain, SizesOK, Flat, HeldNext;
    bins := bins0[i := eps];
    Stored(bins0, eps, i, cmp);
    ghost var heads := bin[..];
    bin[i] := ep;
    BinsUpdated(heads, bin[..], bins0, i, ep, eps);
  }

  lemma CarryingFacts(ep: Node?, eps: seq<Node>, heads: seq<Node?>, bins: seq<seq<Node>>, i: nat, cmp: Comparison)
    requires Carrying(ep, eps, heads, bins, i, cmp)
    ensures i < |heads| == |bins| == LISTSIZE && IsList(ep, eps) && (forall x <- bins[i] :: x in Nodes(bins))
    ensures |eps| == Pow2(i)
  {
    hide InOrder, Once, Chain;
  }

  lemma SameCount(bins: seq<seq<Node>>, eps: seq<Node>, bins0: seq<seq<Node>>, eps0: seq<Node>)
    requires multiset(Flat(bins)) + multiset(eps) == multiset(Flat(bins0)) + multiset(eps0)
    ensures |Flat(bins)| + |eps| == |Flat(bins0)| + |eps0|
  {
    assert |multiset(Flat(bins)) + multiset(eps)| == |multiset(Flat(bins0)) + multiset(eps0)|;
  }

  // ---- msort ----

  // The list not yet taken, and the bins.
  ghost predicate Running(list: Node?, rest: seq<Node>, heads: seq<Node?>, bins: seq<seq<Node>>, cmp: Comparison)
    reads rest, Nodes(bins)
  {
    IsList(list, rest) && BinList(heads, bins, cmp) && Once(multiset(Flat(bins)) + multiset(rest))
  }

  // A list that ends has no node twice.
  lemma {:induction false} NeverTwice(head: Node?, s: seq<Node>, i: nat, j: nat)
    requires IsList(head, s) && i < j < |s|
    ensures s[i] != s[j]
    decreases |s| - j
  {
    assert s[i].next == s[i + 1];
    if j + 1 < |s| {
      assert s[j].next == s[j + 1];
      NeverTwice(head, s, i + 1, j + 1);
    }
  }

  lemma {:induction false} DifferentOnce(s: seq<Node>)
    requires forall i, j | 0 <= i < j < |s| :: s[i] != s[j]
    ensures Once(multiset(s))
  {
    if s != [] {
      DifferentOnce(s[1..]);
      assert s == [s[0]] + s[1..];
      assert s[0] !in s[1..];
    }
  }

  // The node taken off the list belongs neither to the rest nor to a bin.
  lemma TakenNode(list: Node, rest: seq<Node>, heads: seq<Node?>, bins: seq<seq<Node>>, cmp: Comparison)
    requires Running(list, rest, heads, bins, cmp)
    ensures rest == [list] + rest[1..] && IsList(list.next, rest[1..]) && list !in rest[1..] && list !in Nodes(bins)
    ensures forall x <- rest[1..] :: x !in Nodes(bins)
    ensures Once(multiset(Flat(bins)) + multiset([list])) && Once(multiset(Flat(bins)) + multiset(rest[1..]))
    ensures multiset(rest) == multiset([list]) + multiset(rest[1..])
  {
    hide Chain, SizesOK, InOrder;
    TailIsList(list, rest);
    hide Flat, Nodes;
    FlatNodes(bins);
    var f, one, more := multiset(Flat(bins)), multiset([list]), multiset(rest[1..]);
    assert multiset(rest) == one + more;
    assert f + multiset(rest) == multiset{} + one + f + more;
    OnceParts(f + multiset(rest), multiset{}, one, f, more);
    assert f + multiset(rest) == multiset{} + more + one + f;
    OnceParts(f + multiset(rest), multiset{}, more, one, f);
    assert f + multiset(rest) == multiset{} + one + more + f;
    OnceParts(f + multiset(rest), multiset{}, one, more, f);
    assert list in one;
    forall x | x in rest[1..] ensures x !in Nodes(bins) { assert x in more; }
    assert list !in more && list !in f;
  }

  // The body of the outer loop.
  method TakeOne(list: Node, bin: array<Node?>, cmp: Comparison, ghost rest: seq<Node>, ghost bins: seq<seq<Node>>)
    returns (list': Node?, ghost bins': seq<seq<Node>>)
    requires Consistent(cmp) && Running(list, rest, bin[..], bins, cmp)
    modifies bin, rest, Nodes(bins)
    ensures rest != [] && Running(list', rest[1..], bin[..], bins', cmp)
    ensures |Flat(bins')| == HeldNext(|Flat(bins)|)
    ensures multiset(Flat(bins')) + multiset(rest[1..]) <= multiset(Flat(bins)) + multiset(rest)
  {
    hide Flat, InOrder, Once, HeldNext, Nodes, Consistent, SizesOK, AllInOrder;
    TakenNode(list, rest, bin[..], bins, cmp);
    list' := list.next;
    Detach(list, rest, bin[..], bins, cmp);
    bins' := Carry(list, bin, cmp, [list], bins);
    forall k | 0 <= k < |rest[1..]|
      ensures rest[1..][k].next == old(rest[1..][k].next)
    {
      assert rest[1..][k] in rest[1..];
    }
    FewerOnce(multiset(Flat(bins')), multiset(Flat(bins)), multiset([list]), multiset(rest[1..]), multiset(rest));
  }

  lemma FewerOnce(f': multiset<Node>, f: multiset<Node>, one: multiset<Node>, more: multiset<Node>,
                  rest: multiset<Node>)
    requires f' <= f + one && rest == one + more && Once(f + rest)
    ensures Once(f' + more) && f' + more <= f + rest
  {
    assert f' + more <= f + one + more;
    forall x | x in f' + more ensures (f' + more)[x] == 1 { assert x in f + rest; }
  }

  // NEXT(ep) = 0
  method Detach(list: Node, ghost rest: seq<Node>, heads: seq<Node?>, ghost bins: seq<seq<Node>>, cmp: Comparison)
    requires Running(list, rest, heads, bins, cmp)
    modifies list
    ensures Carrying(list, [list], heads, bins, 0, cmp)
    ensures forall x <- rest[1..] :: x.next == old(x.next)
  {
    hide Flat, InOrder, Once, SizesOK, Nodes;
    TakenNode(list, rest, heads, bins, cmp);
    list.next := null;
    forall j: nat | j < |bins|
      ensures bins[j] in bins && (forall x <- bins[j] :: x in Nodes(bins)) && IsList(heads[j], bins[j])
    {
      assert old(bins[j] in bins && (forall x <- bins[j] :: x in Nodes(bins)) && IsList(heads[j], bins[j]));
      forall k | 0 <= k < |bins[j]| ensures bins[j][k].next == old(bins[j][k].next) { assert bins[j][k] in bins[j]; }
    }
    assert InOrder([list], cmp) by { OneInOrder(list, cmp); }
  }

  lemma OneInOrder(x: Node, cmp: Comparison)
    ensures InOrder([x], cmp)
  {
  }

  // The bins from i on, and the list into which the others have been merged.
  ghost predicate Collecting(ep: Node?, eps: seq<Node>, heads: seq<Node?>, bins: seq<seq<Node>>, i: nat,
                             cmp: Comparison)
    reads eps, Nodes(bins)
  {
    && |heads| == LISTSIZE == |bins| + i
    && IsList(ep, eps) && BinsOK(heads[i..], bins)
    && InOrder(eps, cmp) && AllInOrder(bins, cmp)
    && Once(multiset(Flat(bins)) + multiset(eps))
  }

  // The last loop: all bins are merged.
  method Collect(bin: array<Node?>, cmp: Comparison, ghost bins0: seq<seq<Node>>)
    returns (ep: Node?, ghost eps: seq<Node>)
    requires Consistent(cmp) && bin.Length == LISTSIZE && BinList(bin[..], bins0, cmp) && Once(multiset(Flat(bins0)))
    modifies Nodes(bins0)
    ensures IsList(ep, eps) && InOrder(eps, cmp) && multiset(eps) == multiset(Flat(bins0))
  {
    hide InOrder, Once, Chain, SizesOK, Flat, AllInOrder, Consistent, Collecting, BinsOK;
    ep, eps := null, [];
    ghost var bins := bins0;
    CollectStarts(bin[..], bins0, cmp);
    for i := 0 to LISTSIZE
      invariant Collecting(ep, eps, bin[..], bins, i, cmp) && |bins| == LISTSIZE - i
      invariant multiset(Flat(bins)) + multiset(eps) == multiset(Flat(bins0))
    {
      AllAmong(bins, eps, bins0);
      ghost var f, e := multiset(Flat(bins)), multiset(eps);
      ep, eps, bins := CollectStep(ep, bin[..], i, cmp, eps, bins);
      assert multiset(Flat(bins)) + multiset(eps) == f + e;
    }
    CollectEnds(ep, eps, bin[..], bins, cmp);
  }

  lemma AllAmong(bins: seq<seq<Node>>, eps: seq<Node>, bins0: seq<seq<Node>>)
    requires multiset(Flat(bins)) + multiset(eps) == multiset(Flat(bins0))
    ensures (forall x <- Nodes(bins) :: x in Nodes(bins0)) && forall x <- eps :: x in Nodes(bins0)
  {
    StillAmong(bins, eps, bins0, []);
  }

  lemma CollectStarts(heads: seq<Node?>, bins: seq<seq<Node>>, cmp: Comparison)
    requires |heads| == LISTSIZE && BinList(heads, bins, cmp) && Once(multiset(Flat(bins)))
    ensures Collecting(null, [], heads, bins, 0, cmp)
    ensures var none: seq<Node> := []; multiset(Flat(bins)) + multiset(none) == multiset(Flat(bins))
  {
    assert heads[0..] == heads;
    var none: seq<Node> := [];
    assert multiset(Flat(bins)) + multiset(none) == multiset(Flat(bins));
  }

  lemma CollectEnds(ep: Node?, eps: seq<Node>, heads: seq<Node?>, bins: seq<seq<Node>>, cmp: Comparison)
    requires Collecting(ep, eps, heads, bins, LISTSIZE, cmp)
    ensures bins == [] && IsList(ep, eps) && InOrder(eps, cmp) && multiset(Flat(bins)) + multiset(eps) == multiset(eps)
  {
    assert bins == [];
    assert Flat(bins) == [];
  }

  // if( set[i] ) ep = merge(set[i],ep,cmp,offset)
  method CollectStep(ep: Node?, heads: seq<Node?>, i: nat, cmp: Comparison, ghost eps: seq<Node>,
                     ghost bins: seq<seq<Node>>)
    returns (ep': Node?, ghost eps': seq<Node>, ghost bins': seq<seq<Node>>)
    requires Consistent(cmp) && Collecting(ep, eps, heads, bins, i, cmp) && i < LISTSIZE
    modifies eps, Nodes(bins)
    ensures |bins'| == |bins| - 1 && Collecting(ep', eps', heads, bins', i + 1, cmp)
    ensures multiset(Flat(bins')) + multiset(eps') == multiset(Flat(bins)) + multiset(eps)
  {
    hide InOrder, Once, Merged, Flat, Consistent;
    bins' := bins[1..];
    CollectFacts(ep, heads, i, cmp, eps, bins);
    FirstBin(bins, eps, cmp);
    if heads[i] != null {
      eps' := Merged(bins[0], eps, cmp);
      ep' := Merge(heads[i], ep, cmp, bins[0], eps);
      MergedInOrder(bins[0], eps, cmp);
      forall j: nat | j < |bins'| ensures IsList(heads[i + 1..][j], bins'[j]) {
        assert old(IsList(heads[i + 1..][j], bins'[j]));
        forall k | 0 <= k < |bins'[j]|
          ensures bins'[j][k].next == old(bins'[j][k].next)
        {
          assert bins'[j][k] in bins'[j];
        }
      }
    } else {
      ep', eps' := ep, eps;
    }
  }

  lemma CollectFacts(ep: Node?, heads: seq<Node?>, i: nat, cmp: Comparison, eps: seq<Node>, bins: seq<seq<Node>>)
    requires Collecting(ep, eps, heads, bins, i, cmp) && i < LISTSIZE
    ensures bins != [] && IsList(heads[i], bins[0]) && InOrder(bins[0], cmp) && AllInOrder(bins[1..], cmp)
    ensures forall x <- bins[0] :: x in Nodes(bins)
    ensures BinsOK(heads[i + 1..], bins[1..])
    ensures forall j: nat | j < |bins[1..]| :: forall x <- bins[1..][j] :: x !in bins[0] && x !in eps
  {
    hide InOrder, Once, Merged, Flat, Chain;
    var rest, bins' := heads[i..], bins[1..];
    assert bins[0] in bins && IsList(rest[0], bins[0]);
    forall j: nat | j < |bins'| ensures bins'[j] in bins' && (forall x <- bins'[j] :: x in Nodes(bins'))
        && IsList(heads[i + 1..][j], bins'[j])
                                     && forall x <- bins'[j] :: x !in bins[0] && x !in eps {
      assert bins'[j] == bins[j + 1] && bins[j + 1] in bins && IsList(rest[j + 1], bins[j + 1]);
      Apart(bins, eps, 0, j + 1);
    }
    forall b | b in bins' ensures InOrder(b, cmp) { assert b in bins; }
  }

  lemma FirstBin(bins: seq<seq<Node>>, eps: seq<Node>, cmp: Comparison)
    requires bins != [] && Once(multiset(Flat(bins)) + multiset(eps))
    ensures Once(multiset(bins[0]) + multiset(eps))
    ensures multiset(Flat(bins[1..])) + multiset(Merged(bins[0], eps, cmp)) == multiset(Flat(bins)) + multiset(eps)
    ensures bins[0] == [] ==> Flat(bins[1..]) == Flat(bins)
    ensures Once(multiset(Flat(bins[1..])) + multiset(Merged(bins[0], eps, cmp)))
  {
    MergedNodes(bins[0], eps, cmp);
    hide Merged;
    var f, b, e := multiset(Flat(bins[1..])), multiset(bins[0]), multiset(eps);
    assert multiset(Flat(bins)) == b + f;
    assert f + (b + e) == (b + f) + e;
    assert (b + f) + e == f + multiset{} + b + e;
    OnceParts((b + f) + e, f, multiset{}, e, b);
    assert bins[0] == [] ==> [] + Flat(bins[1..]) == Flat(bins[1..]);
  }

  // msort: what comes out is a list in order, of nodes of the list that went in; all of them if and only if there were
  // fewer than 2^30.
  method Msort(list0: Node?, cmp: Comparison, ghost nodes: seq<Node>) returns (ep: Node?, ghost sorted: seq<Node>)
    requires Consistent(cmp) && IsList(list0, nodes)
    modifies nodes
    ensures IsList(ep, sorted) && InOrder(sorted, cmp)
    ensures multiset(sorted) <= multiset(nodes) && |sorted| == Held(|nodes|)
    ensures multiset(sorted) == multiset(nodes) <==> |nodes| < Pow2(LISTSIZE)
  {
    hide InOrder, Once, Chain, SizesOK, Flat, AllInOrder, Consistent, Running, Held, Nodes, BinsOK, BinList;
    var bin := new Node?[LISTSIZE](_ => null);
    var list := list0;
    ghost var rest: seq<Node>, bins: seq<seq<Node>> := nodes, seq(LISTSIZE, _ => []);
    MsortStarts(list0, nodes, bin[..], bins, cmp);
    while list != null
      invariant Running(list, rest, bin[..], bins, cmp) && bin.Length == LISTSIZE && fresh(bin)
      invariant |rest| <= |nodes| && |Flat(bins)| == Held(|nodes| - |rest|)
      invariant multiset(Flat(bins)) + multiset(rest) <= multiset(nodes)
      decreases |rest|
    {
      AmongNodes(bins, rest, nodes);
      HeldStep(|nodes| - |rest|);
      list, bins := TakeOne(list, bin, cmp, rest, bins);
      rest := rest[1..];
    }
    MsortEnds(rest, bin[..], bins, cmp);
    AmongNodes(bins, rest, nodes);
    ep, sorted := Collect(bin, cmp, bins);
    HeldIsAll(|nodes|);
    AllOrFewer(sorted, nodes, Flat(bins));
  }

  lemma HeldStep(n: nat)
    ensures Held(n + 1) == HeldNext(Held(n))
  {
  }

  lemma MsortStarts(list: Node?, nodes: seq<Node>, heads: seq<Node?>, bins: seq<seq<Node>>, cmp: Comparison)
    requires IsList(list, nodes) && heads == seq(LISTSIZE, _ => null) && bins == seq(LISTSIZE, _ => [])
    ensures Running(list, nodes, heads, bins, cmp) && |Flat(bins)| == Held(0)
    ensures multiset(Flat(bins)) + multiset(nodes) <= multiset(nodes)
  {
    OnlyLast(bins);
    forall i, j | 0 <= i < j < |nodes| ensures nodes[i] != nodes[j] { NeverTwice(list, nodes, i, j); }
    DifferentOnce(nodes);
    assert multiset(Flat(bins)) + multiset(nodes) == multiset(nodes);
    forall i: nat | i < |bins| ensures bins[i] in bins && IsList(heads[i], bins[i]) {}
  }

  lemma MsortEnds(rest: seq<Node>, heads: seq<Node?>, bins: seq<seq<Node>>, cmp: Comparison)
    requires Running(null, rest, heads, bins, cmp)
    ensures rest == [] && BinList(heads, bins, cmp) && Once(multiset(Flat(bins)))
  {
    assert rest == [];
    assert multiset(Flat(bins)) + multiset(rest) == multiset(Flat(bins));
  }

  lemma AmongNodes(bins: seq<seq<Node>>, rest: seq<Node>, nodes: seq<Node>)
    requires multiset(Flat(bins)) + multiset(rest) <= multiset(nodes)
    ensures (forall x <- Nodes(bins) :: x in nodes) && forall i | 0 <= i < |rest| :: rest[i] in nodes
  {
    FlatNodes(bins);
    forall x | x in Nodes(bins) ensures x in nodes { assert x in multiset(Flat(bins)) && x in multiset(nodes); }
    forall i | 0 <= i < |rest|
      ensures rest[i] in nodes
    {
      assert rest[i] in multiset(rest) && rest[i] in multiset(nodes);
    }
  }

  lemma AllOrFewer(sorted: seq<Node>, nodes: seq<Node>, flat: seq<Node>)
    requires multiset(sorted) == multiset(flat) && multiset(flat) <= multiset(nodes)
    ensures |sorted| == |flat| && (multiset(sorted) == multiset(nodes) <==> |sorted| == |nodes|)
  {
    assert |multiset(sorted)| == |sorted| && |multiset(nodes)| == |nodes| && |multiset(flat)| == |flat|;
    var more := multiset(nodes) - multiset(sorted);
    assert multiset(nodes) == multiset(sorted) + more;
    assert |more| == |nodes| - |sorted|;
  }

  // Where no two nodes compare equal there is only one such list, so that sorting means the same whoever does it.
  lemma MsortDetermined(a: seq<Node>, b: seq<Node>, cmp: Comparison)
    requires InOrder(a, cmp) && InOrder(b, cmp) && multiset(a) == multiset(b)
    requires forall x, y | x in a && y in a && cmp(x.key, y.key) <= 0 && cmp(y.key, x.key) <= 0 :: x == y
    ensures a == b
  {
    OrderedUnique<Node>(a, b, (x: Node, y: Node) => cmp(x.key, y.key) <= 0);
  }
}

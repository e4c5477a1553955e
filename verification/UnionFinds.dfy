/** Weighted quick-union and quick-find (set_qu_union.c, set_qf_union.c) over n elements: both keep the equivalence
  closure of the pairs that were joined. */
module UnionFinds {
  import opened Numbers

  type Pairs = seq<(nat, nat)>

  // ---- the equivalence closure ----

  ghost predicate Adjacent(pairs: Pairs, x: nat, y: nat) {
    x == y || (x, y) in pairs || (y, x) in pairs
  }

  ghost predicate IsPath(pairs: Pairs, path: seq<nat>, x: nat, y: nat) {
    && path != [] && path[0] == x && path[|path| - 1] == y
    && forall i: nat | i + 1 < |path| :: Adjacent(pairs, path[i], path[i + 1])
  }

  ghost predicate Connected(pairs: Pairs, x: nat, y: nat) {
    exists path :: IsPath(pairs, path, x, y)
  }

  lemma AdjacentConnected(pairs: Pairs, x: nat, y: nat)
    requires Adjacent(pairs, x, y)
    ensures Connected(pairs, x, y)
  {
    assert IsPath(pairs, [x, y], x, y);
  }

  lemma ConnectedTrans(pairs: Pairs, x: nat, y: nat, z: nat)
    requires Connected(pairs, x, y) && Connected(pairs, y, z)
    ensures Connected(pairs, x, z)
  {
    var p :| IsPath(pairs, p, x, y);
    var q :| IsPath(pairs, q, y, z);
    var r := p + q;
    forall i: nat | i + 1 < |r| ensures Adjacent(pairs, r[i], r[i + 1]) {
      if i + 1 < |p| {
        assert Adjacent(pairs, p[i], p[i + 1]);
      } else if i >= |p| {
        assert Adjacent(pairs, q[i - |p|], q[i - |p| + 1]);
      }
    }
    assert IsPath(pairs, r, x, z);
  }

  lemma ConnectedMore(pairs: Pairs, more: Pairs, x: nat, y: nat)
    requires Connected(pairs, x, y) && forall p <- pairs :: p in more
    ensures Connected(more, x, y)
  {
    var path :| IsPath(pairs, path, x, y);
    forall i: nat | i + 1 < |path| ensures Adjacent(more, path[i], path[i + 1]) {
      assert Adjacent(pairs, path[i], path[i + 1]);
    }
    assert IsPath(more, path, x, y);
  }

  // ---- names of classes ----

  // Elements have the same name if and only if they are connected.
  ghost predicate Means(name: seq<nat>, pairs: Pairs) {
    && (forall p <- pairs :: p.0 < |name| && p.1 < |name|)
    && (forall x: nat, y: nat | x < |name| && y < |name| :: name[x] == name[y] <==> Connected(pairs, x, y))
  }

  // Whoever had the name `from` gets the name `to`.
  function Relabelled(name: seq<nat>, from: nat, to: nat): (r: seq<nat>)
    ensures |r| == |name| && forall i | 0 <= i < |r| :: r[i] == if name[i] == from then to else name[i]
  {
    seq(|name|, i requires 0 <= i < |name| => if name[i] == from then to else name[i])
  }

  // Joining two elements is relabelling one class as the other.
  lemma JoinMeans(name: seq<nat>, pairs: Pairs, a: nat, b: nat, from: nat, to: nat)
    requires Means(name, pairs) && a < |name| && b < |name|
    requires (from == name[a] && to == name[b]) || (from == name[b] && to == name[a])
    ensures Means(Relabelled(name, from, to), pairs + [(a, b)])
  {
    var name', pairs' := Relabelled(name, from, to), pairs + [(a, b)];
    assert (a, b) in pairs';
    forall p | p in pairs ensures p in pairs' {}
    AdjacentConnected(pairs', a, b);
    AdjacentConnected(pairs', b, a);
    forall x: nat, y: nat | x < |name| && y < |name| ensures name'[x] == name'[y] <==> Connected(pairs', x, y) {
      if Connected(pairs', x, y) {
        var path :| IsPath(pairs', path, x, y);
        PathKeepsName(name, pairs, a, b, name', path, x, y);
      }
      if name'[x] == name'[y] { SameNameConnected(name, pairs, a, b, from, to, x, y); }
    }
  }

  lemma SameNameConnected(name: seq<nat>, pairs: Pairs, a: nat, b: nat, from: nat, to: nat, x: nat, y: nat)
    requires Means(name, pairs) && a < |name| && b < |name| && x < |name| && y < |name|
    requires (from == name[a] && to == name[b]) || (from == name[b] && to == name[a])
    requires Relabelled(name, from, to)[x] == Relabelled(name, from, to)[y]
    requires Connected(pairs + [(a, b)], a, b) && Connected(pairs + [(a, b)], b, a)
    ensures Connected(pairs + [(a, b)], x, y)
  {
    var pairs' := pairs + [(a, b)];
    forall u: nat, v: nat | u < |name| && v < |name| && name[u] == name[v] ensures Connected(pairs', u, v) {
      ConnectedMore(pairs, pairs', u, v);
    }
    if name[x] != name[y] {
      if name[x] == name[a] {
        ConnectedTrans(pairs', x, a, b);
        ConnectedTrans(pairs', x, b, y);
      } else {
        ConnectedTrans(pairs', x, b, a);
        ConnectedTrans(pairs', x, a, y);
      }
    }
  }

  lemma {:induction false} PathKeepsName(name: seq<nat>, pairs: Pairs, a: nat, b: nat, name': seq<nat>, path: seq<nat>,
      x: nat, y: nat)
    requires Means(name, pairs) && a < |name| == |name'| && b < |name|
    requires name'[a] == name'[b] && forall u, v | 0 <= u < |name| && 0 <= v < |name| && name[u] == name[v] ::
      name'[u] == name'[v]
    requires x < |name| && y < |name| && IsPath(pairs + [(a, b)], path, x, y)
    ensures name'[x] == name'[y]
    decreases |path|
  {
    if |path| > 1 {
      var z := path[1];
      assert Adjacent(pairs + [(a, b)], path[0], path[0 + 1]);
      StepInside(name, pairs, a, b, x, z);
      forall i: nat | i + 1 < |path[1..]| ensures Adjacent(pairs + [(a, b)], path[1..][i], path[1..][i + 1]) {
        assert Adjacent(pairs + [(a, b)], path[i + 1], path[i + 1 + 1]);
      }
      PathKeepsName(name, pairs, a, b, name', path[1..], z, y);
    }
  }

  lemma StepInside(name: seq<nat>, pairs: Pairs, a: nat, b: nat, x: nat, z: nat)
    requires Means(name, pairs) && a < |name| && b < |name| && x < |name| && Adjacent(pairs + [(a, b)], x, z)
    ensures z < |name| && (name[x] == name[z] || (x == a && z == b) || (x == b && z == a))
  {
    if Adjacent(pairs, x, z) { AdjacentConnected(pairs, x, z); }
  }

  lemma StartMeans(name: seq<nat>)
    requires forall i: nat | i < |name| :: name[i] == i
    ensures Means(name, [])
  {
    forall x: nat, y: nat | x < |name| && y < |name| ensures name[x] == name[y] <==> Connected([], x, y) {
      if x == y { AdjacentConnected([], x, y); }
      if Connected([], x, y) {
        var path :| IsPath([], path, x, y);
        NoPairsNoPath(path, x, y);
      }
    }
  }

  lemma {:induction false} NoPairsNoPath(path: seq<nat>, x: nat, y: nat)
    requires IsPath([], path, x, y)
    ensures x == y
    decreases |path|
  {
    if |path| > 1 {
      assert Adjacent([], path[0], path[0 + 1]);
      forall i: nat | i + 1 < |path[1..]|
        ensures Adjacent([], path[1..][i], path[1..][i + 1])
      {
        assert Adjacent([], path[i + 1], path[i + 1 + 1]);
      }
      NoPairsNoPath(path[1..], path[1], y);
    }
  }

  // ---- set_qf_union.c ----

  class QuickFind {
    const id: array<nat>
    ghost var pairs: Pairs

    // Flat: every element carries the name of its class, which is one of its members.
    ghost predicate Valid()
      reads this, id
    {
      (forall x | 0 <= x < id.Length :: id[x] < id.Length && id[id[x]] == id[x]) && Means(id[..], pairs)
    }

    // set_init
    constructor (n: nat)
      ensures Valid() && id.Length == n && pairs == [] && fresh(id)
    {
      id := new nat[n](i => i);
      pairs := [];
      new;
      StartMeans(id[..]);
    }

    // set_root: the loop runs once at most.
    method Root(elem: nat) returns (r: nat)
      requires Valid() && elem < id.Length
      ensures r == id[elem] < id.Length
    {
      r := elem;
      while id[r] != r
        invariant r < id.Length && (r == elem || r == id[elem])
        decreases r == elem
      {
        r := id[r];
      }
    }

    // set_union
    method Union(p0: nat, q0: nat)
      requires Valid() && p0 < id.Length && q0 < id.Length
      modifies this`pairs, id
      ensures Valid() && pairs == old(pairs) + [(p0, q0)]
      ensures id[..] == Relabelled(old(id[..]), old(id[p0]), old(id[q0]))
    {
      ghost var before := id[..];
      var p := Root(p0);
      var q := Root(q0);
      for i := 0 to id.Length
        invariant forall j | 0 <= j < i :: id[j] == if before[j] == p then q else before[j]
        invariant forall j | i <= j < id.Length :: id[j] == before[j]
        modifies id
      {
        if id[i] == p { id[i] := q; }
      }
      assert id[..] == Relabelled(before, p, q);
      JoinMeans(before, pairs, p0, q0, p, q);
      pairs := pairs + [(p0, q0)];
    }
  }

  // ---- set_qu_union.c ----

  // How many elements have the name r.
  function ClassSize(name: seq<nat>, r: nat): nat {
    if name == [] then 0 else ClassSize(name[..|name| - 1], r) + if name[|name| - 1] == r then 1 else 0
  }

  lemma {:induction false} ClassSizes(name: seq<nat>, from: nat, to: nat, r: nat)
    requires from != to
    ensures ClassSize(Relabelled(name, from, to), r)
         == if r == to then ClassSize(name, to) + ClassSize(name, from) else if r == from then 0 else ClassSize(name, r)
  {
    if name != [] {
      var n := |name| - 1;
      assert Relabelled(name, from, to)[..n] == Relabelled(name[..n], from, to);
      ClassSizes(name[..n], from, to, r);
    }
  }

  lemma {:induction false} ClassSizeAtMost(name: seq<nat>, r: nat)
    ensures ClassSize(name, r) <= |name|
  {
    if name != [] { ClassSizeAtMost(name[..|name| - 1], r); }
  }

  lemma {:induction false} SingleClass(n: nat, r: nat)
    requires r < n
    ensures ClassSize(seq(n, i => i), r) == 1
  {
    var s := seq(n, i => i);
    assert s[..n - 1] == seq(n - 1, i => i);
    if r < n - 1 { SingleClass(n - 1, r); } else { NoClass(n - 1, r); }
  }

  lemma {:induction false} NoClass(n: nat, r: nat)
    requires n <= r
    ensures ClassSize(seq(n, i => i), r) == 0
  {
    var s := seq(n, i => i);
    if n > 0 {
      assert s[..n - 1] == seq(n - 1, i => i);
      NoClass(n - 1, r);
    }
  }

  // Links lead to the element that names the class, and up in rank; a root is linked to itself.
  ghost predicate Forest(id: seq<nat>, name: seq<nat>, rank: seq<nat>) {
    && |id| == |name| == |rank|
    && forall x: nat | x < |id| :: Linked(id, name, rank, x)
  }

  ghost predicate Linked(id: seq<nat>, name: seq<nat>, rank: seq<nat>, x: nat)
    requires |id| == |name| == |rank| && x < |id|
  {
    && id[x] < |id| && name[x] < |id|
    && id[name[x]] == name[x] && name[id[x]] == name[x]
    && (if id[x] == x then name[x] == x else rank[x] < rank[id[x]])
    && rank[x] <= rank[name[x]]
  }

  // A root's size is at least 2^rank, and at least the number of members.
  ghost predicate Weighed(id: seq<nat>, sz: seq<nat>, name: seq<nat>, rank: seq<nat>, r: nat)
    requires |id| == |sz| == |name| == |rank| && r < |id|
  {
    id[r] == r ==> sz[r] >= Pow2(rank[r]) && sz[r] >= ClassSize(name, r)
  }

  ghost predicate Sized(id: seq<nat>, sz: seq<nat>, name: seq<nat>, rank: seq<nat>) {
    |id| == |sz| == |name| == |rank| && forall r: nat | r < |id| :: Weighed(id, sz, name, rank, r)
  }

  ghost predicate Exact(id: seq<nat>, sz: seq<nat>, name: seq<nat>) {
    |id| == |sz| && forall r: nat | r < |id| && id[r] == r :: sz[r] == ClassSize(name, r)
  }

  // Root c is hung under root r, which is at least as heavy.
  lemma HangForest(id: seq<nat>, sz: seq<nat>, name: seq<nat>, rank: seq<nat>, r: nat, c: nat)
    requires Forest(id, name, rank) && Sized(id, sz, name, rank)
    requires r < |id| && c < |id| && r != c && id[r] == r && id[c] == c && sz[r] >= sz[c]
    ensures var id', sz', name', rank' := id[c := r], sz[r := sz[r] + sz[c]], Relabelled(name, c, r),
      rank[r := Max(rank[r], rank[c] + 1)];
      Forest(id', name', rank') && Sized(id', sz', name', rank') && (Exact(id', sz', name') <==> Exact(id, sz, name))
  {
    var id', sz', name', rank' := id[c := r], sz[r := sz[r] + sz[c]], Relabelled(name, c, r),
        rank[r := Max(rank[r], rank[c] + 1)];
    assert Linked(id, name, rank, r) && Linked(id, name, rank, c);
    forall x: nat | x < |id| ensures Linked(id', name', rank', x) {
      assert Linked(id, name, rank, x);
      assert Linked(id, name, rank, id[x]) && Linked(id, name, rank, name[x]);
    }
    forall x: nat | x < |id| ensures Weighed(id', sz', name', rank', x) {
      assert Weighed(id, sz, name, rank, x) && Weighed(id, sz, name, rank, c);
      ClassSizes(name, c, r, x);
    }
    forall x: nat | x < |id|
      ensures ClassSize(name', x) == if x == r then ClassSize(name, r) + ClassSize(name, c)
        else if x == c then 0 else ClassSize(name, x)
    {
      ClassSizes(name, c, r, x);
    }
    assert Weighed(id, sz, name, rank, r) && Weighed(id, sz, name, rank, c);
    ExactStays(id, sz, name, id', sz', name', r, c);
  }

  lemma ExactStays(id: seq<nat>, sz: seq<nat>, name: seq<nat>, id': seq<nat>, sz': seq<nat>, name': seq<nat>, r: nat,
                   c: nat)
    requires |id| == |sz| && r < |id| && c < |id| && r != c && id[r] == r && id[c] == c
    requires id' == id[c := r] && sz' == sz[r := sz[r] + sz[c]]
    requires sz[r] >= ClassSize(name, r) && sz[c] >= ClassSize(name, c)
    requires forall x: nat | x < |id| ::
      ClassSize(name', x)
      == if x == r then ClassSize(name, r) + ClassSize(name, c) else if x == c then 0 else ClassSize(name, x)
    ensures Exact(id', sz', name') <==> Exact(id, sz, name)
  {
    hide ClassSize;
    if Exact(id', sz', name') {
      assert sz'[r] == ClassSize(name', r);
      forall x: nat | x < |id| && id[x] == x ensures sz[x] == ClassSize(name, x) {
        if x != r && x != c { assert id'[x] == x; }
      }
    }
    if Exact(id, sz, name) {
      assert sz[r] == ClassSize(name, r) && sz[c] == ClassSize(name, c);
      forall x: nat | x < |id'| && id'[x] == x ensures sz'[x] == ClassSize(name', x) {
        if x != r { assert id[x] == x && sz[x] == ClassSize(name, x); }
      }
    }
  }

  // A class joined with itself: its root counts it twice.
  lemma DoubledForest(id: seq<nat>, sz: seq<nat>, name: seq<nat>, rank: seq<nat>, r: nat)
    requires Forest(id, name, rank) && Sized(id, sz, name, rank) && r < |id| && id[r] == r
    ensures Sized(id, sz[r := sz[r] + sz[r]], name, rank) && !Exact(id, sz[r := sz[r] + sz[r]], name)
  {
    var sz' := sz[r := sz[r] + sz[r]];
    forall x: nat | x < |id| ensures Weighed(id, sz', name, rank, x) { assert Weighed(id, sz, name, rank, x); }
    assert Weighed(id, sz, name, rank, r);
    Pow2Grows(0, rank[r]);
    assert sz'[r] > ClassSize(name, r);
  }

  class QuickUnion {
    const id: array<nat>
    const sz: array<nat>
    ghost var name: seq<nat>     // the root of every element
    ghost var rank: seq<nat>     // an upper bound on the height of the tree below every element
    ghost var pairs: Pairs
    ghost var redundant: bool    // whether some call joined a pair that was joined already

    ghost predicate Valid()
      reads this, id, sz
    {
      && id != sz
      && Forest(id[..], name, rank) && Sized(id[..], sz[..], name, rank)
      && (redundant <==> !Exact(id[..], sz[..], name))
      && Means(name, pairs)
    }

    // set_init
    constructor (n: nat)
      ensures Valid() && id.Length == n && pairs == [] && !redundant && fresh(id) && fresh(sz)
    {
      id := new nat[n](i => i);
      sz := new nat[n](_ => 1);
      name := seq(n, i => i);
      rank := seq(n, _ => 0);
      pairs, redundant := [], false;
      new;
      assert id[..] == name;
      forall r: nat | r < n ensures ClassSize(name, r) == 1 { SingleClass(n, r); }
      forall x: nat | x < n ensures Linked(id[..], name, rank, x) && Weighed(id[..], sz[..], name, rank, x) {}
      StartMeans(name);
    }

    // set_root: terminates, because ranks increase; and the number of steps is at most the logarithm of the size at the
    // root, hence of the number of elements as long as no call was redundant.
    method Root(elem: nat) returns (r: nat, ghost steps: nat)
      requires Valid() && elem < id.Length
      ensures r < id.Length && r == name[elem] && id[r] == r
      ensures Pow2(steps) <= sz[r] && (!redundant ==> Pow2(steps) <= id.Length)
    {
      r, steps := elem, 0;
      assert Linked(id[..], name, rank, elem);
      ghost var top: int := rank[name[elem]];
      while id[r] != r
        invariant r < id.Length && name[r] == name[elem] && steps <= rank[r] <= top
        decreases top - rank[r]
      {
        assert Linked(id[..], name, rank, r) && Linked(id[..], name, rank, id[r]);
        r := id[r];
        steps := steps + 1;
      }
      assert Linked(id[..], name, rank, r) && Weighed(id[..], sz[..], name, rank, r);
      Pow2Grows(steps, rank[r]);
      ClassSizeAtMost(name, r);
    }

    // set_union: the heavier root, and of two equally heavy ones the first, names the joined class; the other one is
    // linked to it and nothing else changes.
    method Union(p0: nat, q0: nat)
      requires Valid() && p0 < id.Length && q0 < id.Length
      modifies this`name, this`rank, this`pairs, this`redundant, id, sz
      ensures Valid() && pairs == old(pairs) + [(p0, q0)]
      ensures redundant <==> old(redundant) || Connected(old(pairs), p0, q0)
      ensures old(name[p0]) < id.Length && old(name[q0]) < id.Length
      ensures var p, q := old(name[p0]), old(name[q0]);
        var (r, c) := if old(sz[p]) >= old(sz[q]) then (p, q) else (q, p);
        && name == Relabelled(old(name), c, r)
        && id[..] == old(id[..])[c := r]
        && sz[..] == old(sz[..])[r := old(sz[r]) + old(sz[c])]
    {
      hide Means, Forest, Sized, Exact;
      var p, steps1 := Root(p0);
      var q, steps2 := Root(q0);
      JoinNames(p0, q0);
      SameLength();
      if sz[p] >= sz[q] {
        Hang(p, q);
      } else {
        Hang(q, p);
      }
      pairs := pairs + [(p0, q0)];
    }

    lemma SameLength()
      requires Valid()
      ensures sz.Length == id.Length
    {
    }

    lemma JoinNames(p0: nat, q0: nat)
      requires Valid() && p0 < id.Length && q0 < id.Length
      ensures |name| == id.Length && (name[p0] == name[q0] <==> Connected(pairs, p0, q0))
      ensures Means(Relabelled(name, name[p0], name[q0]), pairs + [(p0, q0)])
      ensures Means(Relabelled(name, name[q0], name[p0]), pairs + [(p0, q0)])
    {
      JoinMeans(name, pairs, p0, q0, name[p0], name[q0]);
      JoinMeans(name, pairs, p0, q0, name[q0], name[p0]);
    }

    // id[c] = r; sz[r] += sz[c];
    method Hang(r: nat, c: nat)
      requires Valid() && r < id.Length && c < id.Length && id[r] == r && id[c] == c && sz[r] >= sz[c]
      modifies this`name, this`rank, this`redundant, id, sz
      ensures id != sz && Forest(id[..], name, rank) && Sized(id[..], sz[..], name, rank)
      ensures redundant <==> !Exact(id[..], sz[..], name)
      ensures redundant <==> old(redundant) || r == c
      ensures name == Relabelled(old(name), c, r)
      ensures id[..] == old(id[..])[c := r] && sz[..] == old(sz[..])[r := old(sz[r]) + old(sz[c])]
    {
      hide Means, Linked, Weighed, Exact;
      if r != c {
        HangForest(id[..], sz[..], name, rank, r, c);
        rank := rank[r := Max(rank[r], rank[c] + 1)];
      } else {
        DoubledForest(id[..], sz[..], name, rank, r);
        assert Relabelled(name, c, r) == name;
        assert id[..][c := r] == id[..];
        redundant := true;
      }
      name := Relabelled(name, c, r);
      id[c] := r;
      sz[r] := sz[r] + sz[c];
    }
  }

  // Both structures, having been given the same pairs, put the same elements together.
  lemma SameClasses(qu: QuickUnion, qf: QuickFind, x: nat, y: nat)
    requires qu.Valid() && qf.Valid() && qu.pairs == qf.pairs && qu.id.Length == qf.id.Length && x < qf.id.Length
      && y < qf.id.Length
    ensures qu.name[x] == qu.name[y] <==> qf.id[x] == qf.id[y]
  {
    assert Connected(qu.pairs, x, y) <==> qu.name[x] == qu.name[y];
    assert Connected(qf.pairs, x, y) <==> qf.id[..][x] == qf.id[..][y];
  }
}

/** Configurations and configuration lists: items with look-aheads and propagation links.

  Configurations live in a pool; a configuration's index in the pool stands for its address. */
module Configs {
  import opened Options
  import opened Grammars
  import opened FirstSets
  import opened Automata

  datatype Status = Complete | Incomplete

  // fplp and bplp are the forward and backward propagation links.
  datatype Config = Config(item: Item, fws: set<nat>, fplp: seq<nat>, bplp: seq<nat>, status: Status)

  type Pool = seq<Config>

  function ItemOf(cs: Pool, c: nat): Item {
    if c < |cs| then cs[c].item else Item(0, 0)
  }

  function ItemsOf(cs: Pool, ids: seq<nat>): seq<Item> {
    seq(|ids|, i requires 0 <= i < |ids| => ItemOf(cs, ids[i]))
  }

  ghost function ItemSet(cs: Pool, ids: seq<nat>): set<Item> {
    set c <- ids :: ItemOf(cs, c)
  }

  ghost predicate InPool(cs: Pool, ids: seq<nat>) {
    forall c <- ids :: c < |cs|
  }

  ghost predicate DistinctItems(cs: Pool, ids: seq<nat>) {
    forall i, j | 0 <= i < j < |ids| :: ItemOf(cs, ids[i]) != ItemOf(cs, ids[j])
  }

  ghost predicate ValidItems(g: Grammar, cs: Pool, ids: seq<nat>) {
    forall c <- ids :: ValidItem(g, ItemOf(cs, c))
  }

  function Lhs(g: Grammar, it: Item): nat {
    if it.rule < |g.rules| then g.rules[it.rule].lhs else 0
  }

  // Configuration c asks for the rules of the left-hand side of d: the two stand in one closure.
  ghost predicate Induces(g: Grammar, cs: Pool, c: nat, d: nat) {
    && ItemOf(cs, d).dot == 0
    && ItemOf(cs, d).rule < |g.rules|
    && Next(g, ItemOf(cs, c)) == Some(N(Lhs(g, ItemOf(cs, d))))
  }

  // What c hands to the configurations it induces.
  function HandedOn(g: Grammar, lambda: Lambdas, first: Firsts, it: Item): set<nat> {
    SeqFirst(lambda, first, Rest(g, it))
  }

  // Whatever follows c's rule also follows the rules c induces.
  predicate Transparent(g: Grammar, lambda: Lambdas, it: Item) {
    AllLambda(lambda, Rest(g, it))
  }

  // ---- what a closed configuration list has ----

  ghost predicate Introduced(g: Grammar, lambda: Lambdas, first: Firsts, cs: Pool, c: nat, r: nat, d: nat) {
    && c < |cs| && d < |cs|
    && cs[d].item == Item(r, 0)
    && HandedOn(g, lambda, first, cs[c].item) <= cs[d].fws
    && (Transparent(g, lambda, cs[c].item) ==> d in cs[c].fplp)
  }

  ghost predicate ClosedFor(g: Grammar, lambda: Lambdas, first: Firsts, cs: Pool, ids: seq<nat>, c: nat, r: nat) {
    exists d <- ids :: Introduced(g, lambda, first, cs, c, r, d)
  }

  ghost predicate ClosedAt(g: Grammar, lambda: Lambdas, first: Firsts, cs: Pool, ids: seq<nat>, c: nat) {
    forall r: nat | r < |g.rules| && Next(g, ItemOf(cs, c)) == Some(N(g.rules[r].lhs)) ::
        ClosedFor(g, lambda, first, cs, ids, c, r)
  }

  // Nothing but the basis and what earlier members of the list itself induce.
  ghost predicate Justified(g: Grammar, cs: Pool, ids: seq<nat>, basis: seq<nat>) {
    forall d <- ids | d !in basis :: exists c <- ids :: c < d && Induces(g, cs, c, d)
  }

  ghost predicate LinksSound(g: Grammar, lambda: Lambdas, cs: Pool, ids: seq<nat>) {
    forall c <- ids | c < |cs| :: forall d <- cs[c].fplp ::
        d in ids && Induces(g, cs, c, d) && Transparent(g, lambda, cs[c].item)
  }

  // Look-ahead t of d comes from a configuration that induces d.
  ghost predicate HasOrigin(g: Grammar, lambda: Lambdas, first: Firsts, cs: Pool, ids: seq<nat>, d: nat, t: nat) {
    exists c <- ids :: Induces(g, cs, c, d) && t in HandedOn(g, lambda, first, ItemOf(cs, c))
  }

  ghost predicate FwsSound(g: Grammar, lambda: Lambdas, first: Firsts, before: Pool, cs: Pool, ids: seq<nat>) {
    forall d <- ids | d < |cs| :: forall t <- cs[d].fws ::
      (d < |before| && t in before[d].fws) || HasOrigin(g, lambda, first, cs, ids, d, t)
  }

  // ---- how the pool changes while a list is closed ----

  ghost predicate GrewOne(x: Config, y: Config) {
    && x.item == y.item && x.fws <= y.fws
    && forall d <- x.fplp :: d in y.fplp
  }

  ghost predicate Grew(a: Pool, b: Pool) {
    |a| <= |b| && forall c | 0 <= c < |a| :: GrewOne(a[c], b[c])
  }

  lemma GrewTrans(a: Pool, b: Pool, c: Pool)
    requires Grew(a, b) && Grew(b, c)
    ensures Grew(a, c)
  {
    forall k | 0 <= k < |a| ensures GrewOne(a[k], c[k]) {
      assert GrewOne(a[k], b[k]) && GrewOne(b[k], c[k]);
    }
  }

  lemma ClosedForGrew(g: Grammar, lambda: Lambdas, first: Firsts, a: Pool, b: Pool, ids: seq<nat>, ids': seq<nat>,
                      c: nat, r: nat)
    requires ClosedFor(g, lambda, first, a, ids, c, r) && Grew(a, b) && forall d <- ids :: d in ids'
    ensures ClosedFor(g, lambda, first, b, ids', c, r)
  {
    var d :| d in ids && Introduced(g, lambda, first, a, c, r, d);
    assert GrewOne(a[c], b[c]) && GrewOne(a[d], b[d]);
    assert Introduced(g, lambda, first, b, c, r, d);
  }

  lemma ClosedAtGrew(g: Grammar, lambda: Lambdas, first: Firsts, a: Pool, b: Pool, ids: seq<nat>, ids': seq<nat>,
                     c: nat)
    requires c < |a| && ClosedAt(g, lambda, first, a, ids, c) && Grew(a, b) && forall d <- ids :: d in ids'
    ensures ClosedAt(g, lambda, first, b, ids', c)
  {
    assert GrewOne(a[c], b[c]);
    forall r: nat | r < |g.rules| && Next(g, ItemOf(b, c)) == Some(N(g.rules[r].lhs))
      ensures ClosedFor(g, lambda, first, b, ids', c, r)
    {
      assert Next(g, ItemOf(a, c)) == Some(N(g.rules[r].lhs));
      ClosedForGrew(g, lambda, first, a, b, ids, ids', c, r);
    }
  }

  // Distinct items of one grammar: there are only so many of them.
  lemma {:induction false} CountItems(g: Grammar, cs: Pool, ids: seq<nat>)
    requires DistinctItems(cs, ids) && ValidItems(g, cs, ids)
    ensures |ids| <= |AllItems(g)|
  {
    ItemSetSize(cs, ids);
    forall c | c in ids ensures ItemOf(cs, c) in AllItems(g) {}
    SubsetSize(ItemSet(cs, ids), AllItems(g));
  }

  lemma {:induction false} ItemSetSize(cs: Pool, ids: seq<nat>)
    requires DistinctItems(cs, ids)
    ensures |ItemSet(cs, ids)| == |ids|
  {
    if ids != [] {
      var n := |ids| - 1;
      ItemSetSize(cs, ids[..n]);
      assert ids == ids[..n] + [ids[n]];
      assert ItemSet(cs, ids) == ItemSet(cs, ids[..n]) + {ItemOf(cs, ids[n])};
    }
  }

  lemma SubsetSize<A>(a: set<A>, b: set<A>)
    requires a <= b
    ensures |a| <= |b|
  {
    assert b == a + (b - a);
  }

  // ---- the steps of Configlist_closure ----

  // The list as far as its first k members have been worked off.
  ghost predicate ClosedUpTo(g: Grammar, lambda: Lambdas, first: Firsts, before: Pool, cs: Pool, ids: seq<nat>,
                             basis: seq<nat>, k: nat) {
    && InPool(cs, ids) && DistinctItems(cs, ids) && ValidItems(g, cs, ids)
    && k <= |ids|
    && (forall i | 0 <= i < k :: ClosedAt(g, lambda, first, cs, ids, ids[i]))
    && Justified(g, cs, ids, basis)
    && LinksSound(g, lambda, cs, ids)
    && FwsSound(g, lambda, first, before, cs, ids)
  }

  // Justification, links and look-aheads survive a longer list and a grown pool, member by member.
  lemma InducesGrew(g: Grammar, lambda: Lambdas, first: Firsts, a: Pool, b: Pool, ids: seq<nat>, ids': seq<nat>)
    requires Grew(a, b) && InPool(a, ids) && forall d <- ids :: d in ids'
    ensures forall c, d | c in ids && d in ids && Induces(g, a, c, d) :: Induces(g, b, c, d)
    ensures forall d, t | d in ids && HasOrigin(g, lambda, first, a, ids, d, t) ::
      HasOrigin(g, lambda, first, b, ids', d, t)
  {
    forall c | c in ids ensures ItemOf(b, c) == ItemOf(a, c) {
      assert GrewOne(a[c], b[c]);
    }
    forall d, t | d in ids && HasOrigin(g, lambda, first, a, ids, d, t)
      ensures HasOrigin(g, lambda, first, b, ids', d, t)
    {
      var c :| c in ids && Induces(g, a, c, d) && t in HandedOn(g, lambda, first, ItemOf(a, c));
      assert Induces(g, b, c, d);
    }
  }

  // Configlist_add of an item that is not in the list yet.
  lemma AppendStep(g: Grammar, lambda: Lambdas, first: Firsts, before: Pool, cs: Pool, ids: seq<nat>, basis: seq<nat>,
                   k: nat, c: nat, r: nat)
    requires ClosedUpTo(g, lambda, first, before, cs, ids, basis, k) && |before| <= |cs|
    requires c in ids && r < |g.rules| && Next(g, ItemOf(cs, c)) == Some(N(g.rules[r].lhs))
    requires forall d <- ids :: ItemOf(cs, d) != Item(r, 0)
    ensures ClosedUpTo(g, lambda, first, before, cs + [Config(Item(r, 0), {}, [], [], Incomplete)], ids + [|cs|], basis,
      k)
    ensures Grew(cs, cs + [Config(Item(r, 0), {}, [], [], Incomplete)])
  {
    hide ClosedAt, HasOrigin, Next;
    var cs', ids' := cs + [Config(Item(r, 0), {}, [], [], Incomplete)], ids + [|cs|];
    assert Grew(cs, cs');
    forall i | 0 <= i < k ensures ClosedAt(g, lambda, first, cs', ids', ids'[i]) {
      assert ids'[i] in ids;
      ClosedAtGrew(g, lambda, first, cs, cs', ids, ids', ids[i]);
    }
    AppendJustified(g, lambda, first, cs, ids, basis, c, r);
    AppendLinks(g, lambda, first, before, cs, ids, c, r);
    AppendValid(g, cs, ids, r);
  }

  lemma AppendJustified(g: Grammar, lambda: Lambdas, first: Firsts, cs: Pool, ids: seq<nat>, basis: seq<nat>, c: nat,
                        r: nat)
    requires InPool(cs, ids) && Justified(g, cs, ids, basis)
    requires c in ids && r < |g.rules| && Next(g, ItemOf(cs, c)) == Some(N(g.rules[r].lhs))
    ensures Justified(g, cs + [Config(Item(r, 0), {}, [], [], Incomplete)], ids + [|cs|], basis)
  {
    hide HasOrigin;
    var cs', ids' := cs + [Config(Item(r, 0), {}, [], [], Incomplete)], ids + [|cs|];
    forall d | d in ids ensures d in ids' {}
    assert Grew(cs, cs');
    InducesGrew(g, lambda, first, cs, cs', ids, ids');
    hide Next;
    forall d | d in ids' && d !in basis ensures exists b <- ids' :: b < d && Induces(g, cs', b, d) {
      if d in ids {
        var b :| b in ids && b < d && Induces(g, cs, b, d);
        assert b in ids' && Induces(g, cs', b, d);
      } else {
        assert d == |cs| && c in ids' && Induces(g, cs', c, d);
      }
    }
  }

  lemma AppendLinks(g: Grammar, lambda: Lambdas, first: Firsts, before: Pool, cs: Pool, ids: seq<nat>, c: nat, r: nat)
    requires InPool(cs, ids) && LinksSound(g, lambda, cs, ids) && FwsSound(g, lambda, first, before, cs, ids)
    ensures LinksSound(g, lambda, cs + [Config(Item(r, 0), {}, [], [], Incomplete)], ids + [|cs|])
    ensures FwsSound(g, lambda, first, before, cs + [Config(Item(r, 0), {}, [], [], Incomplete)], ids + [|cs|])
  {
    hide HasOrigin;
    var cs', ids' := cs + [Config(Item(r, 0), {}, [], [], Incomplete)], ids + [|cs|];
    forall d | d in ids ensures d in ids' {}
    assert Grew(cs, cs');
    InducesGrew(g, lambda, first, cs, cs', ids, ids');
  }

  lemma AppendValid(g: Grammar, cs: Pool, ids: seq<nat>, r: nat)
    requires InPool(cs, ids) && DistinctItems(cs, ids) && ValidItems(g, cs, ids) && r < |g.rules|
    requires forall d <- ids :: ItemOf(cs, d) != Item(r, 0)
    ensures var cs', ids' := cs + [Config(Item(r, 0), {}, [], [], Incomplete)], ids + [|cs|];
      InPool(cs', ids') && DistinctItems(cs', ids') && ValidItems(g, cs', ids')
  {
    var cs', ids' := cs + [Config(Item(r, 0), {}, [], [], Incomplete)], ids + [|cs|];
    forall d | d in ids' ensures d < |cs'| && ItemOf(cs', d) == if d in ids then ItemOf(cs, d) else Item(r, 0) {}
    forall i, j | 0 <= i < j < |ids'| ensures ItemOf(cs', ids'[i]) != ItemOf(cs', ids'[j]) {
      assert ids'[i] in ids;
      if j < |ids| { assert ids'[j] in ids; }
    }
  }

  // The pool after c has handed its look-aheads, and perhaps a link, to d.
  function HandOver(g: Grammar, lambda: Lambdas, first: Firsts, cs: Pool, c: nat, d: nat): Pool
    requires c < |cs| && d < |cs|
  {
    var cs' := cs[d := cs[d].(fws := cs[d].fws + HandedOn(g, lambda, first, cs[c].item))];
    if Transparent(g, lambda, cs[c].item) then cs'[c := cs'[c].(fplp := [d] + cs'[c].fplp)] else cs'
  }

  lemma HandOverGrew(g: Grammar, lambda: Lambdas, first: Firsts, cs: Pool, c: nat, d: nat)
    requires c < |cs| && d < |cs|
    ensures Grew(cs, HandOver(g, lambda, first, cs, c, d))
    ensures |HandOver(g, lambda, first, cs, c, d)| == |cs|
    ensures forall r: nat | cs[d].item == Item(r, 0) ::
      Introduced(g, lambda, first, HandOver(g, lambda, first, cs, c, d), c, r, d)
  {
    var cs' := HandOver(g, lambda, first, cs, c, d);
    forall k | 0 <= k < |cs| ensures GrewOne(cs[k], cs'[k]) {}
  }

  lemma HandOverStep(g: Grammar, lambda: Lambdas, first: Firsts, before: Pool, cs: Pool, ids: seq<nat>, basis: seq<nat>,
                     k: nat, c: nat, d: nat)
    requires ClosedUpTo(g, lambda, first, before, cs, ids, basis, k)
    requires c in ids && d in ids && Induces(g, cs, c, d)
    ensures ClosedUpTo(g, lambda, first, before, HandOver(g, lambda, first, cs, c, d), ids, basis, k)
  {
    var cs' := HandOver(g, lambda, first, cs, c, d);
    HandOverGrew(g, lambda, first, cs, c, d);
    InducesGrew(g, lambda, first, cs, cs', ids, ids);
    forall i | 0 <= i < k ensures ClosedAt(g, lambda, first, cs', ids, ids[i]) {
      assert ids[i] in ids;
      ClosedAtGrew(g, lambda, first, cs, cs', ids, ids, ids[i]);
    }
    SameItems(cs, cs', ids);
    assert Justified(g, cs', ids, basis);
    HandOverLinks(g, lambda, first, cs, ids, c, d);
    HandOverFws(g, lambda, first, before, cs, ids, c, d);
  }

  lemma SameItems(a: Pool, b: Pool, ids: seq<nat>)
    requires Grew(a, b) && InPool(a, ids)
    ensures forall c <- ids :: ItemOf(b, c) == ItemOf(a, c)
    ensures DistinctItems(a, ids) ==> DistinctItems(b, ids)
    ensures forall g :: ValidItems(g, a, ids) ==> ValidItems(g, b, ids)
  {
    forall c | c in ids ensures ItemOf(b, c) == ItemOf(a, c) { assert GrewOne(a[c], b[c]); }
    if DistinctItems(a, ids) {
      forall i, j | 0 <= i < j < |ids| ensures ItemOf(b, ids[i]) != ItemOf(b, ids[j]) {
        assert ids[i] in ids && ids[j] in ids;
      }
    }
  }

  lemma HandOverLinks(g: Grammar, lambda: Lambdas, first: Firsts, cs: Pool, ids: seq<nat>, c: nat, d: nat)
    requires InPool(cs, ids) && LinksSound(g, lambda, cs, ids) && c in ids && d in ids && Induces(g, cs, c, d)
    ensures LinksSound(g, lambda, HandOver(g, lambda, first, cs, c, d), ids)
  {
    var cs' := HandOver(g, lambda, first, cs, c, d);
    HandOverGrew(g, lambda, first, cs, c, d);
    SameItems(cs, cs', ids);
    forall c', d' | c' in ids && c' < |cs'| && d' in cs'[c'].fplp
      ensures d' in ids && Induces(g, cs', c', d') && Transparent(g, lambda, cs'[c'].item)
    {
      assert d' in cs[c'].fplp || (c' == c && d' == d && Transparent(g, lambda, cs[c].item));
      assert d' in ids && Induces(g, cs, c', d');
    }
  }

  lemma HandOverFws(g: Grammar, lambda: Lambdas, first: Firsts, before: Pool, cs: Pool, ids: seq<nat>, c: nat, d: nat)
    requires InPool(cs, ids) && FwsSound(g, lambda, first, before, cs, ids) && c in ids && d in ids
      && Induces(g, cs, c, d)
    ensures FwsSound(g, lambda, first, before, HandOver(g, lambda, first, cs, c, d), ids)
  {
    var cs' := HandOver(g, lambda, first, cs, c, d);
    HandOverGrew(g, lambda, first, cs, c, d);
    InducesGrew(g, lambda, first, cs, cs', ids, ids);
    SameItems(cs, cs', ids);
    forall d', t | d' in ids && d' < |cs'| && t in cs'[d'].fws
      ensures (d' < |before| && t in before[d'].fws) || HasOrigin(g, lambda, first, cs', ids, d', t)
    {
      if t in cs[d'].fws {
        assert (d' < |before| && t in before[d'].fws) || HasOrigin(g, lambda, first, cs, ids, d', t);
      } else {
        assert d' == d && Induces(g, cs', c, d) && t in HandedOn(g, lambda, first, ItemOf(cs', c));
      }
    }
  }

  lemma GrewRefl(a: Pool)
    ensures Grew(a, a)
  {
  }

  lemma ClosedForIntro(g: Grammar, lambda: Lambdas, first: Firsts, cs: Pool, ids: seq<nat>, c: nat, r: nat, d: nat)
    requires d in ids && Introduced(g, lambda, first, cs, c, r, d)
    ensures ClosedFor(g, lambda, first, cs, ids, c, r)
  {
  }
}

/** Closing a configuration list, on values: what Configlist_closure keeps while it works. */
module Closures {
  import opened Options
  import opened Grammars
  import opened FirstSets
  import opened Automata
  import opened Configs

  // The list is what was added to the pool last, in order.
  ghost predicate AtEnd(cs: Pool, ids: seq<nat>) {
    |ids| <= |cs| && forall i | 0 <= i < |ids| :: ids[i] == |cs| - |ids| + i
  }

  lemma StillClosed(g: Grammar, lambda: Lambdas, first: Firsts, a: Pool, b: Pool, ids: seq<nat>, ids': seq<nat>, c: nat,
                    r: nat, A: nat)
    requires Grew(a, b) && ids <= ids'
    requires c < |a|
    ensures c < |b| && b[c].item == a[c].item
    ensures forall r': nat | r <= r' < |g.rules| && g.rules[r'].lhs == A
      && ClosedFor(g, lambda, first, a, ids, c, r') ::
      ClosedFor(g, lambda, first, b, ids', c, r')
  {
    assert GrewOne(a[c], b[c]);
    forall r': nat | r <= r' < |g.rules| && g.rules[r'].lhs == A && ClosedFor(g, lambda, first, a, ids, c, r')
      ensures ClosedFor(g, lambda, first, b, ids', c, r')
    {
      ClosedForGrew(g, lambda, first, a, b, ids, ids', c, r');
    }
  }

  lemma ClosingNext(g: Grammar, lambda: Lambdas, first: Firsts, before: Pool, old_: seq<nat>,
                    cs: Pool, ids: seq<nat>, basis: seq<nat>, k: nat)
    requires Closing(g, lambda, first, before, old_, cs, ids, basis, k) && k < |ids|
    requires forall r: nat | r < |g.rules| && Next(g, ItemOf(cs, ids[k])) == Some(N(g.rules[r].lhs)) ::
      ClosedFor(g, lambda, first, cs, ids, ids[k], r)
    ensures Closing(g, lambda, first, before, old_, cs, ids, basis, k + 1)
  {
    hide ClosedFor;
    assert ClosedAt(g, lambda, first, cs, ids, ids[k]);
  }

  // The list under construction, worked off up to its k-th member; the pool below the list is untouched.
  ghost predicate Closing(g: Grammar, lambda: Lambdas, first: Firsts, before: Pool, old_: seq<nat>,
                          cs: Pool, ids: seq<nat>, basis: seq<nat>, k: nat)
  {
    && AtEnd(cs, ids) && old_ <= ids
    && Grew(before, cs)
    && |old_| <= |before| && |cs| - |ids| == |before| - |old_|
    && cs[..|cs| - |ids|] == before[..|cs| - |ids|]
    && BackSame(before, cs)
    && ClosedUpTo(g, lambda, first, before, cs, ids, basis, k)
  }

  // No back links are added while a list is closed.
  ghost predicate BackSame(before: Pool, cs: Pool) {
    && |before| <= |cs|
    && (forall c | 0 <= c < |before| :: cs[c].bplp == before[c].bplp)
    && (forall c | |before| <= c < |cs| :: cs[c].bplp == [])
  }

  lemma ClosingValid(g: Grammar, lambda: Lambdas, first: Firsts, before: Pool, old_: seq<nat>,
                     cs: Pool, ids: seq<nat>, basis: seq<nat>, k: nat)
    requires Closing(g, lambda, first, before, old_, cs, ids, basis, k)
    ensures InPool(cs, ids) && DistinctItems(cs, ids) && ValidItems(g, cs, ids) && k <= |ids| && old_ <= ids
    ensures forall c <- ids :: |cs| - |ids| <= c < |cs|
  {
  }

  lemma ClosingAppend(g: Grammar, lambda: Lambdas, first: Firsts, before: Pool, old_: seq<nat>,
                      cs: Pool, ids: seq<nat>, basis: seq<nat>, k: nat, c: nat, r: nat)
    requires Closing(g, lambda, first, before, old_, cs, ids, basis, k) && c in ids && r < |g.rules|
    requires Next(g, ItemOf(cs, c)) == Some(N(g.rules[r].lhs)) && forall d <- ids :: ItemOf(cs, d) != Item(r, 0)
    ensures Closing(g, lambda, first, before, old_, cs + [Config(Item(r, 0), {}, [], [], Incomplete)], ids + [|cs|],
      basis, k)
    ensures Grew(cs, cs + [Config(Item(r, 0), {}, [], [], Incomplete)])
  {
    hide ClosedUpTo;
    AppendStep(g, lambda, first, before, cs, ids, basis, k, c, r);
    GrewTrans(before, cs, cs + [Config(Item(r, 0), {}, [], [], Incomplete)]);
  }

  lemma ClosingHandOver(g: Grammar, lambda: Lambdas, first: Firsts, before: Pool, old_: seq<nat>,
                        cs: Pool, ids: seq<nat>, basis: seq<nat>, k: nat, c: nat, r: nat, d: nat)
    requires Closing(g, lambda, first, before, old_, cs, ids, basis, k) && c in ids && d in ids && r < |g.rules|
    requires c < |cs| && d < |cs|
    requires Next(g, ItemOf(cs, c)) == Some(N(g.rules[r].lhs)) && ItemOf(cs, d) == Item(r, 0)
    ensures var cs' := HandOver(g, lambda, first, cs, c, d);
      Closing(g, lambda, first, before, old_, cs', ids, basis, k) && Grew(cs, cs')
          && ClosedFor(g, lambda, first, cs', ids, c, r)
  {
    hide ClosedUpTo, ClosedFor, Next;
    var cs' := HandOver(g, lambda, first, cs, c, d);
    assert Induces(g, cs, c, d);
    HandOverStep(g, lambda, first, before, cs, ids, basis, k, c, d);
    HandOverGrew(g, lambda, first, cs, c, d);
    ClosedForIntro(g, lambda, first, cs', ids, c, r, d);
    GrewTrans(before, cs, cs');
    HandOverKeepsRest(g, lambda, first, cs, c, d, |cs| - |ids|);
  }

  lemma HandOverKeepsRest(g: Grammar, lambda: Lambdas, first: Firsts, cs: Pool, c: nat, d: nat, n: nat)
    requires n <= c < |cs| && n <= d < |cs|
    ensures HandOver(g, lambda, first, cs, c, d)[..n] == cs[..n]
  {
  }
}

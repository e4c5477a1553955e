/** Where back links lead: from the configurations of a state to those of the state they move into. */
module Backlinks {
  import opened Options
  import opened Grammars
  import opened FirstSets
  import opened Automata
  import opened Sorting
  import opened Configs
  import opened Closures
  import opened Collection
  import opened Bases
  import opened Shifting

  // Configuration b of state p moves into state t.
  ghost predicate GoesInto(g: Grammar, cs: Pool, states: seq<State>, p: nat, b: nat, t: nat) {
    && p < |states| && t < |states| && b in states[p].cfp
    && Next(g, ItemOf(cs, b)).Some?
    && GotoIs(g, cs, states[p], Next(g, ItemOf(cs, b)).value, states[t])
  }

  ghost predicate LinkFrom(g: Grammar, cs: Pool, states: seq<State>, t: nat, b: nat) {
    exists p: nat :: GoesInto(g, cs, states, p, b, t)
  }

  ghost predicate LinksFrom(g: Grammar, cs: Pool, states: seq<State>, t: nat)
    requires t < |states|
  {
    forall y <- states[t].cfp | y < |cs| :: forall b <- cs[y].bplp :: LinkFrom(g, cs, states, t, b)
  }

  // No configuration belongs to two states.
  ghost predicate Separate(states: seq<State>) {
    forall s: nat, t: nat, c | s < t < |states| && c in states[s].cfp :: c !in states[t].cfp
  }

  ghost predicate BackFrom(g: Grammar, cs: Pool, states: seq<State>) {
    Separate(states) && forall t: nat | t < |states| :: LinksFrom(g, cs, states, t)
  }

  // The links of a basis lead to one state, of which it is the successor; or there are none.
  ghost predicate Origin(g: Grammar, cs: Pool, basis: seq<nat>, states: seq<State>) {
    || (forall c <- basis | c < |cs| :: cs[c].bplp == [])
    || (exists p: nat, x :: MovedFrom(g, cs, basis, states, p, x))
  }

  ghost predicate MovedFrom(g: Grammar, cs: Pool, basis: seq<nat>, states: seq<State>, p: nat, x: Symbol) {
    && p < |states|
    && ItemSet(cs, basis) == AdvanceAll(g, ItemSet(cs, states[p].cfp), x)
    && forall c <- basis | c < |cs| :: forall b <- cs[c].bplp :: b in states[p].cfp && Next(g, ItemOf(cs, b)) == Some(x)
  }

  ghost predicate ListsInPool(cs: Pool, states: seq<State>) {
    forall s: nat | s < |states| :: InPool(cs, states[s].bp) && InPool(cs, states[s].cfp)
  }

  lemma GoesKept(g: Grammar, cs: Pool, cs': Pool, states: seq<State>, states': seq<State>, p: nat, b: nat, t: nat)
    requires Kept(cs, cs') && Extends(states, states') && ListsInPool(cs, states) && GoesInto(g, cs, states, p, b, t)
    ensures GoesInto(g, cs', states', p, b, t)
  {
    assert SameLists(states[p], states'[p]) && SameLists(states[t], states'[t]);
    KeptGrew(cs, cs');
    KeptItems(cs, cs', states[p].cfp);
    KeptItems(cs, cs', states[t].bp);
  }

  ghost predicate BacksSame(cs: Pool, cs': Pool) {
    |cs| <= |cs'| && forall c | 0 <= c < |cs| :: cs'[c].bplp == cs[c].bplp
  }

  lemma BackKept(g: Grammar, cs: Pool, cs': Pool, states: seq<State>, states': seq<State>)
    requires Kept(cs, cs') && Extends(states, states') && |states| == |states'| && ListsInPool(cs, states)
    requires BacksSame(cs, cs') && BackFrom(g, cs, states)
    ensures BackFrom(g, cs', states')
  {
    hide GoesInto;
    forall s | 0 <= s < |states| ensures states'[s].cfp == states[s].cfp { assert SameLists(states[s], states'[s]); }
    forall t: nat, y, b | t < |states'| && y in states'[t].cfp && y < |cs'| && b in cs'[y].bplp
      ensures LinkFrom(g, cs', states', t, b)
    {
      assert LinksFrom(g, cs, states, t) && b in cs[y].bplp;
      var p: nat :| GoesInto(g, cs, states, p, b, t);
      GoesKept(g, cs, cs', states, states', p, b, t);
    }
  }

  // The known state gains links from the state that the basis was moved from, and from no other.
  lemma BackMerged(g: Grammar, lambda: Lambdas, first: Firsts, before: Pool, cs: Pool, basis: seq<nat>, bp: seq<nat>,
                   states: seq<State>, stp: nat)
    requires Ready(g, lambda, first, before, basis, states) && stp < |states|
    requires forall x :: x in basis <==> x in bp
    requires ItemsOf(before, bp) == ItemsOf(before, states[stp].bp)
    requires |cs| == |before| && Merging(before, cs, bp, states[stp].bp, |before| - |basis|, |bp|)
    requires BackFrom(g, before[..|before| - |basis|], states) && Origin(g, before, basis, states)
    ensures BackFrom(g, cs[..|before| - |basis|], states)
  {
    hide Good, Received, FreshConfig, StartConfig, MovedConfig, GoesInto, DistinctItems, MovedFrom;
    var n := |before| - |basis|;
    var a, b := before[..n], cs[..n];
    GoodBackLinks(g, lambda, first, a, states);
    assert Extends(states, states);
    forall t: nat, y, l | t < |states| && y in states[t].cfp && y < |b| && l in b[y].bplp
      ensures LinkFrom(g, b, states, t, l)
    {
      if l in Back(before, y) {
        assert LinksFrom(g, a, states, t) && l in a[y].bplp;
        var p: nat :| GoesInto(g, a, states, p, l, t);
        GoesKept(g, a, b, states, states, p, l, t);
      } else {
        assert l in Back(cs, y);
        var i :| 0 <= i < |bp| && states[stp].bp[i] == y && l in Back(before, bp[i]);
        assert bp[i] in basis && before[bp[i]].bplp != [];
        var p: nat, x :| MovedFrom(g, before, basis, states, p, x);
        MergedFrom(g, lambda, first, before, b, basis, bp, states, stp, p, x, bp[i], l);
        assert y in states[stp].cfp by {
          assert states[stp].bp[i] in states[stp].bp; assert StateOK(g, lambda, first, a, states[stp]);
        }
        assert t == stp;
      }
    }
  }

  lemma MergedFrom(g: Grammar, lambda: Lambdas, first: Firsts, before: Pool, b: Pool, basis: seq<nat>, bp: seq<nat>,
                   states: seq<State>, stp: nat, p: nat, x: Symbol, c: nat, l: nat)
    requires |basis| <= |before| && stp < |states| && ListsInPool(before[..|before| - |basis|], states)
    requires Kept(before[..|before| - |basis|], b) && (forall x :: x in basis <==> x in bp)
    requires ItemsOf(before, bp) == ItemsOf(before, states[stp].bp)
    requires MovedFrom(g, before, basis, states, p, x) && c in basis && c < |before| && l in before[c].bplp
    ensures LinkFrom(g, b, states, stp, l)
  {
    var a := before[..|before| - |basis|];
    KeptItems(a, b, states[p].cfp);
    KeptGrew(a, b);
    forall d | d in states[p].cfp ensures ItemOf(a, d) == ItemOf(before, d) {}
    assert ItemSet(a, states[p].cfp) == ItemSet(before, states[p].cfp);
    MergeSameItems(before, b, basis, bp, states[stp].bp, |before| - |basis|);
    assert GoesInto(g, b, states, p, l, stp);
  }

  // The new state has the links of its basis.
  lemma BackNew(g: Grammar, lambda: Lambdas, first: Firsts, before: Pool, cs: Pool, basis: seq<nat>, ids: seq<nat>,
                states: seq<State>, st: State)
    requires Ready(g, lambda, first, before, basis, states)
    requires Closing(g, lambda, first, before, basis, cs, ids, basis, |ids|)
    requires (forall c :: c in st.bp <==> c in basis) && (forall c :: c in st.cfp <==> c in ids)
    requires Kept(before[..|before| - |basis|], cs) && Received(before, basis, cs, st)
    requires forall c <- st.cfp :: c >= |before| - |basis|
    requires BackFrom(g, before[..|before| - |basis|], states) && Origin(g, before, basis, states)
    ensures BackFrom(g, cs, states + [st])
  {
    hide Good, FreshConfig, StartConfig, MovedConfig, LinksFrom, DistinctItems, ClosedUpTo;
    var n := |before| - |basis|;
    GoodBackLinks(g, lambda, first, before[..n], states);
    forall t: nat | t < |states|
      ensures LinksFrom(g, cs, states + [st], t)
    {
      OldLinks(g, before[..n], cs, states, st, t);
    }
    NewLinks(g, before, cs, basis, ids, states, st);
    SeparateSnoc(states, st, n);
  }

  lemma SeparateSnoc(states: seq<State>, st: State, n: nat)
    requires Separate(states) && (forall c <- st.cfp :: c >= n)
      && forall s: nat, c | s < |states| && c in states[s].cfp :: c < n
    ensures Separate(states + [st])
  {
  }

  // A state that was there has the links it had.
  lemma OldLinks(g: Grammar, a: Pool, cs: Pool, states: seq<State>, st: State, t: nat)
    requires t < |states| && ListsInPool(a, states) && Kept(a, cs) && a <= cs && LinksFrom(g, a, states, t)
    ensures LinksFrom(g, cs, states + [st], t)
  {
    hide GoesInto;
    assert Extends(states, states + [st]);
    forall y, l | y in states[t].cfp && y < |cs| && l in cs[y].bplp ensures LinkFrom(g, cs, states + [st], t, l) {
      assert y < |a| && cs[y] == a[y];
      var p: nat :| GoesInto(g, a, states, p, l, t);
      GoesKept(g, a, cs, states, states + [st], p, l, t);
    }
  }

  lemma NewLinks(g: Grammar, before: Pool, cs: Pool, basis: seq<nat>, ids: seq<nat>, states: seq<State>, st: State)
    requires AtEnd(before, basis) && AtEnd(cs, ids) && |cs| - |ids| == |before| - |basis| && BackSame(before, cs)
    requires ListsInPool(before[..|before| - |basis|], states) && Kept(before[..|before| - |basis|], cs)
    requires Received(before, basis, cs, st) && (forall c :: c in st.cfp <==> c in ids)
      && Origin(g, before, basis, states)
    ensures LinksFrom(g, cs, states + [st], |states|)
  {
    hide MovedFrom, Received, Kept, ListsInPool, LinkFrom;
    forall y, l | y in st.cfp && y < |cs| && l in cs[y].bplp ensures LinkFrom(g, cs, states + [st], |states|, l) {
      assert y < |before| && l in before[y].bplp;
      BelowBasis(before, basis, cs, ids, y);
      var p: nat, x :| MovedFrom(g, before, basis, states, p, x);
      NewFrom(g, before, cs, basis, states, st, p, x, y, l);
    }
  }

  lemma BelowBasis(before: Pool, basis: seq<nat>, cs: Pool, ids: seq<nat>, y: nat)
    requires AtEnd(before, basis) && AtEnd(cs, ids) && y in ids && y < |before| && |cs| - |ids| == |before| - |basis|
    ensures y in basis
  {
    var i :| 0 <= i < |ids| && ids[i] == y;
    assert basis[i] == y;
  }

  lemma NewFrom(g: Grammar, before: Pool, cs: Pool, basis: seq<nat>, states: seq<State>, st: State, p: nat, x: Symbol,
                y: nat, l: nat)
    requires |basis| <= |before| && ListsInPool(before[..|before| - |basis|], states)
      && Kept(before[..|before| - |basis|], cs)
    requires Received(before, basis, cs, st)
    requires MovedFrom(g, before, basis, states, p, x) && y in basis && y < |before| && l in before[y].bplp
    ensures LinkFrom(g, cs, states + [st], |states|, l)
  {
    var a := before[..|before| - |basis|];
    KeptItems(a, cs, states[p].cfp);
    KeptGrew(a, cs);
    forall d | d in states[p].cfp ensures ItemOf(a, d) == ItemOf(before, d) {}
    assert ItemSet(a, states[p].cfp) == ItemSet(before, states[p].cfp);
    assert GoesInto(g, cs, states + [st], p, l, |states|);
  }

  // A gathered group was moved from its state.
  lemma GroupOrigin(g: Grammar, lambda: Lambdas, first: Firsts, cs0: Pool, cs: Pool, ids: seq<nat>, src: seq<nat>,
                    x: Symbol, states: seq<State>, s: nat)
    requires Group(g, cs0, cs, ids, src, x) && s < |states| && AllOf(g, cs0, states[s].cfp, src, x)
    requires Good(g, lambda, first, cs0, states) && BackFrom(g, cs0, states)
    ensures Origin(g, cs, ids, states) && BackFrom(g, cs[..|cs0|], states)
  {
    hide Good, BackFrom;
    GoodBackLinks(g, lambda, first, cs0, states);
    forall c | 0 <= c < |cs0| ensures KeptOne(cs0[c], cs[..|cs0|][c]) {}
    BackKept(g, cs0, cs[..|cs0|], states, states);
    GroupItems(g, cs0, cs, ids, src, x, states[s].cfp);
    forall d | d in states[s].cfp ensures ItemOf(cs, d) == ItemOf(cs0, d) {}
    assert ItemSet(cs, states[s].cfp) == ItemSet(cs0, states[s].cfp);
    forall c, b | c in ids && c < |cs| && b in cs[c].bplp
      ensures b in states[s].cfp && Next(g, ItemOf(cs, b)) == Some(x)
    {
      var k :| 0 <= k < |ids| && ids[k] == c;
      assert cs[|cs0| + k] == MovedOver(cs0, src[k]) && src[k] in src;
    }
    assert MovedFrom(g, cs, ids, states, s, x);
  }

  // A list without links has an origin; where there is no state there is nothing to say.
  lemma BackStart(g: Grammar, cs: Pool)
    ensures BackFrom(g, cs, [])
  {
  }

  // Entering actions changes no links.
  lemma BackActions(g: Grammar, lambda: Lambdas, first: Firsts, cs: Pool, states: seq<State>, states': seq<State>)
    requires Good(g, lambda, first, cs, states) && Extends(states, states') && |states| == |states'|
      && BackFrom(g, cs, states)
    ensures BackFrom(g, cs, states')
  {
    hide Good, BackFrom;
    GoodBackLinks(g, lambda, first, cs, states);
    BackKept(g, cs, cs, states, states');
  }

  lemma BackMarked(g: Grammar, lambda: Lambdas, first: Firsts, cs: Pool, cs': Pool, states: seq<State>, s: nat)
    requires Good(g, lambda, first, cs, states) && s < |states| && MarkedIncomplete(cs, cs', states[s].cfp)
      && BackFrom(g, cs, states)
    ensures BackFrom(g, cs', states)
  {
    hide Good, BackFrom;
    GoodBackLinks(g, lambda, first, cs, states);
    forall c | 0 <= c < |cs| ensures KeptOne(cs[c], cs'[c]) {}
    assert Extends(states, states);
    BackKept(g, cs, cs', states, states);
  }

  lemma BackReached(g: Grammar, lambda: Lambdas, first: Firsts, before: Pool, cs: Pool, basis: seq<nat>, ids: seq<nat>,
                    states: seq<State>, st: State)
    requires Ready(g, lambda, first, before, basis, states)
    requires Closing(g, lambda, first, before, basis, cs, ids, basis, |ids|)
    requires st == State(Sort(basis, ByItem(before)), Sort(ids, ByItem(cs)), [])
    requires Reached(g, lambda, first, before, basis, states, cs, states + [st], |states|)
    requires forall c <- st.cfp :: c >= |before| - |basis|
    requires BackFrom(g, before[..|before| - |basis|], states) && Origin(g, before, basis, states)
    ensures BackFrom(g, cs, states + [st])
  {
    hide Good, BackFrom, Origin, ByItem, Sort, Received, ClosedUpTo, FreshConfig, StartConfig, MovedConfig;
    SortedInOrder(before, basis);
    ClosingValid(g, lambda, first, before, basis, cs, ids, basis, |ids|);
    SortedInOrder(cs, ids);
    BackNew(g, lambda, first, before, cs, basis, ids, states, st);
  }
}

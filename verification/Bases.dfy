/** From a configuration list to a state: recognising a basis that is known already, merging links into it, or
  making a new state. */
module Bases {
  import opened Grammars
  import opened FirstSets
  import opened Automata
  import opened Sorting
  import opened Configs
  import opened Closures
  import opened Collection

  // Configcmp on addresses.
  function ByItem(cs: Pool): (nat, nat) -> bool {
    (a: nat, b: nat) => ItemLe(ItemOf(cs, a), ItemOf(cs, b))
  }

  lemma ByItemPreorder(cs: Pool)
    ensures TotalPreorder(ByItem(cs))
  {
  }

  // Sorting a list of distinct items puts them in order, and keeps the members.
  lemma SortedInOrder(cs: Pool, ids: seq<nat>)
    requires DistinctItems(cs, ids)
    ensures var sorted := Sort(ids, ByItem(cs));
      InOrder(ItemsOf(cs, sorted)) && |sorted| == |ids| && forall c :: c in sorted <==> c in ids
  {
    var sorted := Sort(ids, ByItem(cs));
    ByItemPreorder(cs);
    SortOrders(ids, ByItem(cs));
    SameMembers(sorted, ids);
    DistinctPermuted(cs, ids, sorted);
  }

  lemma DistinctPermuted(cs: Pool, a: seq<nat>, b: seq<nat>)
    requires DistinctItems(cs, a) && multiset(a) == multiset(b)
    ensures DistinctItems(cs, b)
  {
    SameMembers(a, b);
    forall i, j | 0 <= i < j < |b| ensures ItemOf(cs, b[i]) != ItemOf(cs, b[j]) {
      assert b[i] in a && b[j] in a;
      assert AllDifferent(a);
      DistinctPermute(a, b);
    }
  }

  // ---- the basis handed to getstate ----

  ghost predicate FreshConfig(g: Grammar, cs: Pool, n: nat, c: nat) {
    && c < |cs| && ValidItem(g, cs[c].item) && cs[c].fplp == []
    && forall b <- cs[c].bplp :: b < n && b < |cs| && cs[c].item == Advance(cs[b].item)
  }

  // The start rules, with `$` behind them, for the first state; items with moved dots for all others.
  ghost predicate StartConfig(g: Grammar, cs: Pool, c: nat) {
    c < |cs| && cs[c].item.dot == 0 && Lhs(g, cs[c].item) == g.start && cs[c].fws <= {0}
  }

  ghost predicate MovedConfig(cs: Pool, c: nat) {
    c < |cs| && cs[c].item.dot > 0 && cs[c].fws == {}
  }

  ghost predicate Ready(g: Grammar, lambda: Lambdas, first: Firsts, cs: Pool, ids: seq<nat>, states: seq<State>) {
    && AtEnd(cs, ids) && DistinctItems(cs, ids)
    && (forall c <- ids :: FreshConfig(g, cs, |cs| - |ids|, c))
    && (if states == [] then forall c <- ids :: StartConfig(g, cs, c) else
        ids != []
        && forall c <- ids :: MovedConfig(cs, c))
    && Good(g, lambda, first, cs[..|cs| - |ids|], states)
  }

  // Configuration x of the basis has its place in state st: same item, and all its back links.
  ghost predicate HasPlace(before: Pool, cs: Pool, x: nat, st: State) {
    exists y <- st.bp :: x < |before| && y < |cs| && cs[y].item == before[x].item
        && forall b <- before[x].bplp :: b in cs[y].bplp
  }

  ghost predicate Received(before: Pool, basis: seq<nat>, cs: Pool, st: State) {
    && ItemSet(cs, st.bp) == ItemSet(before, basis)
    && forall x <- basis :: HasPlace(before, cs, x, st)
  }

  // ---- the case of a known basis ----

  function Back(cs: Pool, c: nat): seq<nat> {
    if c < |cs| then cs[c].bplp else []
  }

  // One pair: the old configuration y takes the links of the new x, and x loses its own.
  function MergeOne(cs: Pool, x: nat, y: nat): Pool
    requires x < |cs| && y < |cs| && x != y
  {
    cs[y := cs[y].(bplp := cs[x].bplp + cs[y].bplp)][x := cs[x].(fplp := [], bplp := [])]
  }

  // After k pairs: old configurations only gained links, the first k gained those of their partners, and
  // whatever was gained came from a partner.
  ghost predicate Merging(before: Pool, cs: Pool, bp: seq<nat>, ybp: seq<nat>, n: nat, k: nat) {
    && |cs| == |before| && |bp| == |ybp| && n <= |cs| && k <= |bp|
    && Kept(before[..n], cs[..n]) && StatusKept(before[..n], cs[..n])
    && (forall i | 0 <= i < k :: forall b <- Back(before, bp[i]) :: b in Back(cs, ybp[i]))
    && (forall i | k <= i < |bp| :: Back(cs, bp[i]) == Back(before, bp[i]))
    && (forall c: nat, b | c < n && b in Back(cs, c) :: b in Back(before, c) || FromPartner(before, bp, ybp, c, b))
  }

  ghost predicate FromPartner(before: Pool, bp: seq<nat>, ybp: seq<nat>, c: nat, b: nat) {
    exists i :: 0 <= i < |bp| && i < |ybp| && ybp[i] == c && b in Back(before, bp[i])
  }

  lemma MergeStart(cs: Pool, bp: seq<nat>, ybp: seq<nat>, n: nat)
    requires |bp| == |ybp| && n <= |cs|
    ensures Merging(cs, cs, bp, ybp, n, 0)
  {
  }

  lemma MergeStep(before: Pool, cs: Pool, bp: seq<nat>, ybp: seq<nat>, n: nat, k: nat)
    requires Merging(before, cs, bp, ybp, n, k) && k < |bp|
    requires forall i, j | 0 <= i < j < |bp| :: bp[i] != bp[j]
    requires forall x <- bp :: n <= x < |cs|
    requires forall y <- ybp :: y < n
    ensures bp[k] in bp && ybp[k] in ybp
    ensures Merging(before, MergeOne(cs, bp[k], ybp[k]), bp, ybp, n, k + 1)
  {
    var x, y := bp[k], ybp[k];
    assert x in bp && y in ybp;
    var cs' := MergeOne(cs, x, y);
    forall c | 0 <= c < n ensures KeptOne(before[..n][c], cs'[..n][c]) && cs'[c].status == before[c].status {
      assert KeptOne(before[..n][c], cs[..n][c]);
      assert before[..n][c].status == cs[..n][c].status;
    }
    forall i | 0 <= i <= k ensures forall b <- Back(before, bp[i]) :: b in Back(cs', ybp[i]) {
      assert ybp[i] in ybp;
    }
    forall i | k < i < |bp| ensures Back(cs', bp[i]) == Back(before, bp[i]) {
      assert bp[i] in bp && bp[i] != x;
    }
    forall c: nat, b | c < n && b in Back(cs', c) ensures b in Back(before, c) || FromPartner(before, bp, ybp, c, b) {
      if c == y && b in Back(cs, x) {
        assert ybp[k] == c && b in Back(before, bp[k]);
      } else {
        assert b in Back(cs, c);
      }
    }
  }

  lemma ItemSetMembers(cs: Pool, ids: seq<nat>)
    ensures forall it :: it in ItemsOf(cs, ids) <==> it in ItemSet(cs, ids)
  {
    forall it ensures it in ItemsOf(cs, ids) <==> it in ItemSet(cs, ids) {
      if it in ItemsOf(cs, ids) {
        var i :| 0 <= i < |ids| && ItemsOf(cs, ids)[i] == it;
        assert ids[i] in ids;
      }
      if it in ItemSet(cs, ids) {
        var c :| c in ids && ItemOf(cs, c) == it;
        var i :| 0 <= i < |ids| && ids[i] == c;
        assert ItemsOf(cs, ids)[i] == it;
      }
    }
  }

  // Comparing sorted bases item by item compares the item sets.
  lemma BasisCompare(cs: Pool, a: seq<nat>, b: seq<nat>)
    requires InOrder(ItemsOf(cs, a)) && InOrder(ItemsOf(cs, b))
    ensures ItemsOf(cs, a) == ItemsOf(cs, b) <==> ItemSet(cs, a) == ItemSet(cs, b)
  {
    ItemSetMembers(cs, a);
    ItemSetMembers(cs, b);
    if ItemSet(cs, a) == ItemSet(cs, b) { InOrderUnique(ItemsOf(cs, a), ItemsOf(cs, b)); }
  }

  lemma MergeEnds(g: Grammar, before: Pool, cs: Pool, basis: seq<nat>, bp: seq<nat>, st: State, n: nat)
    requires Merging(before, cs, bp, st.bp, n, |bp|)
    requires forall x :: x in basis <==> x in bp
    requires forall x <- basis :: n <= x && FreshConfig(g, before, n, x)
    requires forall y <- st.bp :: y < n
    requires ItemsOf(before, bp) == ItemsOf(before, st.bp)
    requires BackLinksOK(g, before[..n])
    ensures Kept(before[..n], cs[..n]) && StatusKept(before[..n], cs[..n])
    ensures BackLinksOK(g, cs[..n]) && Received(before, basis, cs[..n], st)
  {
    var cs' := cs[..n];
    KeptGrew(before[..n], cs');
    forall i | 0 <= i < |bp| ensures ItemOf(before, bp[i]) == ItemOf(before, st.bp[i]) {
      assert ItemsOf(before, bp)[i] == ItemsOf(before, st.bp)[i];
    }
    forall c: nat, b | c < |cs'| && b in cs'[c].bplp ensures BackLinkOK(cs', c, b) {
      assert cs'[c].bplp == Back(cs, c);
      if b in Back(before, c) {
        assert before[..n][c] == before[c] && b in before[..n][c].bplp;
        assert BackLinkOK(before[..n], c, b);
      } else {
        var i :| 0 <= i < |bp| && st.bp[i] == c && b in Back(before, bp[i]);
        assert bp[i] in basis && FreshConfig(g, before, n, bp[i]);
        assert b in before[bp[i]].bplp && b < n;
        assert ItemOf(before, bp[i]) == Advance(ItemOf(before, b)) && ItemOf(before, st.bp[i]) == ItemOf(before, bp[i]);
      }
      assert b < n && ItemOf(before[..n], c) == Advance(ItemOf(before[..n], b));
      assert ItemOf(cs', c) == ItemOf(before[..n], c) && ItemOf(cs', b) == ItemOf(before[..n], b);
    }
    forall x | x in basis ensures HasPlace(before, cs', x, st) {
      var i :| 0 <= i < |bp| && bp[i] == x;
      assert st.bp[i] in st.bp && FreshConfig(g, before, n, x);
      assert forall b <- Back(before, bp[i]) :: b in Back(cs, st.bp[i]);
    }
    MergeSameItems(before, cs', basis, bp, st.bp, n);
  }

  lemma MergeSameItems(before: Pool, cs': Pool, basis: seq<nat>, bp: seq<nat>, ybp: seq<nat>, n: nat)
    requires n <= |before| && Kept(before[..n], cs') && (forall y <- ybp :: y < n)
    requires forall x :: x in basis <==> x in bp
    requires ItemsOf(before, bp) == ItemsOf(before, ybp)
    ensures ItemSet(cs', ybp) == ItemSet(before, basis)
  {
    KeptItems(before[..n], cs', ybp);
    ItemSetMembers(before, bp);
    ItemSetMembers(before, ybp);
    forall c | c in ybp ensures ItemOf(before[..n], c) == ItemOf(before, c) {}
    assert ItemSet(before[..n], ybp) == ItemSet(before, ybp);
    assert ItemSet(before, bp) == ItemSet(before, basis);
  }

  // ---- the case of a new basis ----

  lemma ClosedAtSame(g: Grammar, lambda: Lambdas, first: Firsts, cs: Pool, ids: seq<nat>, ids': seq<nat>, c: nat)
    requires c < |cs| && ClosedAt(g, lambda, first, cs, ids, c) && forall d <- ids :: d in ids'
    ensures ClosedAt(g, lambda, first, cs, ids', c)
  {
    GrewRefl(cs);
    ClosedAtGrew(g, lambda, first, cs, cs, ids, ids', c);
  }

  lemma NewStateOK(g: Grammar, lambda: Lambdas, first: Firsts, before: Pool, cs: Pool, ids: seq<nat>, basis: seq<nat>,
                   st: State)
    requires ClosedUpTo(g, lambda, first, before, cs, ids, basis, |ids|)
    requires (forall c :: c in st.cfp <==> c in ids) && (forall c :: c in st.bp <==> c in basis)
      && (forall c <- basis :: c in ids)
    requires InOrder(ItemsOf(cs, st.cfp)) && InOrder(ItemsOf(cs, st.bp))
    ensures StateOK(g, lambda, first, cs, st)
  {
    hide ClosedAt;
    forall c | c in st.cfp
      ensures c < |cs| && ValidItem(g, ItemOf(cs, c)) && ClosedAt(g, lambda, first, cs, st.cfp, c)
    {
      assert c in ids;
      var i :| 0 <= i < |ids| && ids[i] == c;
      ClosedAtSame(g, lambda, first, cs, ids, st.cfp, c);
    }
    forall d | d in st.cfp && d !in st.bp ensures exists c <- st.cfp :: c < d && Induces(g, cs, c, d) {
      assert d in ids && d !in basis;
      var c :| c in ids && c < d && Induces(g, cs, c, d);
      assert c in st.cfp;
    }
    assert LinksSound(g, lambda, cs, st.cfp) by {
      forall c, d | c in st.cfp && c < |cs| && d in cs[c].fplp
        ensures d in st.cfp && Induces(g, cs, c, d) && Transparent(g, lambda, cs[c].item)
      {
        assert c in ids;
      }
    }
  }

  lemma NewInitialFws(g: Grammar, lambda: Lambdas, first: Firsts, before: Pool, cs: Pool, ids: seq<nat>,
                      basis: seq<nat>, s: nat, st: State)
    requires Grew(before, cs) && FwsSound(g, lambda, first, before, cs, ids)
    requires (forall c :: c in st.cfp <==> c in ids) && (forall c <- ids :: c in basis || c >= |before|)
    requires forall c <- basis :: if s == 0 then StartConfig(g, before, c) else MovedConfig(before, c)
    ensures InitialFws(g, lambda, first, cs, s, st)
  {
    forall d, t | d in st.cfp && d < |cs| && t in cs[d].fws
      ensures HasOrigin(g, lambda, first, cs, st.cfp, d, t)
           || (s == 0 && t == 0 && cs[d].item.dot == 0 && Lhs(g, cs[d].item) == g.start)
    {
      assert d in ids;
      if d < |before| && t in before[d].fws {
        assert d in basis && GrewOne(before[d], cs[d]);
      } else {
        assert HasOrigin(g, lambda, first, cs, ids, d, t);
        var c :| c in ids && Induces(g, cs, c, d) && t in HandedOn(g, lambda, first, ItemOf(cs, c));
        assert c in st.cfp;
      }
    }
  }

  lemma NewBackLinks(g: Grammar, before: Pool, cs: Pool, basis: seq<nat>)
    requires AtEnd(before, basis) && BackSame(before, cs) && Grew(before, cs)
    requires BackLinksOK(g, before[..|before| - |basis|])
    requires forall c <- basis :: FreshConfig(g, before, |before| - |basis|, c)
    ensures BackLinksOK(g, cs)
  {
    var n := |before| - |basis|;
    forall c: nat, b | c < |cs| && b in cs[c].bplp ensures BackLinkOK(cs, c, b) {
      assert c < |before| && b in before[c].bplp;
      if c < n {
        assert before[..n][c] == before[c] && b in before[..n][c].bplp;
        assert BackLinkOK(before[..n], c, b);
      } else {
        assert basis[c - n] in basis && FreshConfig(g, before, n, c);
      }
      assert GrewOne(before[c], cs[c]) && GrewOne(before[b], cs[b]);
    }
  }

  lemma PrefixKept(before: Pool, cs: Pool, n: nat)
    requires n <= |before| && n <= |cs| && cs[..n] == before[..n]
    ensures Kept(before[..n], cs) && StatusKept(before[..n], cs)
  {
    forall c | 0 <= c < n ensures KeptOne(before[..n][c], cs[c]) && cs[c].status == before[..n][c].status {
      assert cs[c] == cs[..n][c];
    }
  }

  lemma NewReceived(before: Pool, cs: Pool, basis: seq<nat>, st: State)
    requires Grew(before, cs) && BackSame(before, cs) && InPool(before, basis) && forall c :: c in st.bp <==> c in basis
    ensures Received(before, basis, cs, st)
  {
    forall c | c in basis ensures ItemOf(cs, c) == ItemOf(before, c) && HasPlace(before, cs, c, st) {
      assert GrewOne(before[c], cs[c]);
      assert c in st.bp && cs[c].bplp == before[c].bplp;
    }
  }

  // A state whose basis is not among the others joins them.
  lemma GoodSnoc(g: Grammar, lambda: Lambdas, first: Firsts, cs: Pool, states: seq<State>, st: State)
    requires Good(g, lambda, first, cs, states)
    requires StateOK(g, lambda, first, cs, st) && InitialFws(g, lambda, first, cs, |states|, st)
    requires forall s: nat | s < |states| :: !SameBasis(cs, states[s], st)
    requires states != [] ==> BasisAdvanced(cs, st)
    ensures Good(g, lambda, first, cs, states + [st])
  {
    hide StateOK, InitialFws, SameBasis, BasisAdvanced, BackLinksOK;
  }

  lemma NewBasisDiffers(g: Grammar, lambda: Lambdas, first: Firsts, before: Pool, cs: Pool, states: seq<State>,
                        bp: seq<nat>, n: nat, st: State)
    requires n <= |before| && Good(g, lambda, first, before[..n], states) && Grew(before, cs) && Kept(before[..n], cs)
    requires InPool(before, bp) && InOrder(ItemsOf(before, bp)) && st.bp == bp
    requires forall s: nat | s < |states| :: ItemsOf(before, states[s].bp) != ItemsOf(before, bp)
    ensures forall s: nat | s < |states| :: !SameBasis(cs, states[s], st)
  {
    forall s: nat | s < |states| ensures !SameBasis(cs, states[s], st) {
      StateInPool(g, lambda, first, before[..n], states[s]);
      forall c | c in states[s].bp ensures ItemOf(before, c) == ItemOf(before[..n], c) {}
      assert ItemsOf(before, states[s].bp) == ItemsOf(before[..n], states[s].bp) by {
        forall i | 0 <= i < |states[s].bp|
          ensures ItemsOf(before, states[s].bp)[i] == ItemsOf(before[..n], states[s].bp)[i]
        {
          assert states[s].bp[i] in states[s].bp;
        }
      }
      BasisCompare(before, states[s].bp, bp);
      KeptItems(before[..n], cs, states[s].bp);
      assert ItemSet(before, states[s].bp) == ItemSet(before[..n], states[s].bp);
      forall c | c in bp ensures ItemOf(cs, c) == ItemOf(before, c) { assert GrewOne(before[c], cs[c]); }
      assert ItemSet(cs, bp) == ItemSet(before, bp);
    }
  }

  // ---- why the recursion ends: there are only so many sets of items ----

  ghost function AllBases(g: Grammar): set<set<Item>> {
    set b: set<Item> | b <= AllItems(g)
  }

  ghost function Known(cs: Pool, states: seq<State>): set<set<Item>> {
    set st <- states :: ItemSet(cs, st.bp)
  }

  lemma KnownGrows(cs: Pool, cs': Pool, states: seq<State>, states': seq<State>)
    requires Kept(cs, cs') && Extends(states, states')
    requires forall s: nat | s < |states| :: InPool(cs, states[s].bp)
    ensures Known(cs, states) <= Known(cs', states')
  {
    forall b | b in Known(cs, states) ensures b in Known(cs', states') {
      var st :| st in states && ItemSet(cs, st.bp) == b;
      var s: nat :| s < |states| && states[s] == st;
      assert SameLists(states[s], states'[s]) && states'[s] in states';
      KeptItems(cs, cs', st.bp);
    }
  }

  lemma NewIsUnknown(g: Grammar, lambda: Lambdas, first: Firsts, cs: Pool, states: seq<State>, st: State)
    requires StateOK(g, lambda, first, cs, st) && forall s: nat | s < |states| :: !SameBasis(cs, states[s], st)
    ensures AllBases(g) - Known(cs, states + [st]) < AllBases(g) - Known(cs, states)
  {
    var b := ItemSet(cs, st.bp);
    forall it | it in b ensures it in AllItems(g) {
      var c :| c in st.bp && ItemOf(cs, c) == it;
      assert c in st.cfp;
    }
    assert st in states + [st];
    forall x | x in states ensures x in states + [st] {}
    assert b in Known(cs, states + [st]) && b in AllBases(g);
    forall s: nat | s < |states| ensures ItemSet(cs, states[s].bp) != b { assert !SameBasis(cs, states[s], st); }
    assert b !in Known(cs, states);
    assert Known(cs, states) <= Known(cs, states + [st]);
  }

  // ---- what getstate promises ----

  // From the pool below the list, and the states known, to the pool and states afterwards.
  ghost predicate Reached(g: Grammar, lambda: Lambdas, first: Firsts, before: Pool, basis: seq<nat>, states: seq<State>,
                          cs: Pool, states': seq<State>, stp: nat)
    requires |basis| <= |before|
  {
    && Good(g, lambda, first, cs, states')
    && Kept(before[..|before| - |basis|], cs) && StatusKept(before[..|before| - |basis|], cs)
    && states <= states'
    && stp < |states'| && Received(before, basis, cs, states'[stp])
    && (states == [] ==> stp == 0 && forall x <- basis ::
        x in states'[0].bp && x < |before| && x < |cs| && GrewOne(before[x], cs[x]))
  }

  lemma MergedReached(g: Grammar, lambda: Lambdas, first: Firsts, before: Pool, cs: Pool, basis: seq<nat>, bp: seq<nat>,
                      states: seq<State>, stp: nat)
    requires Ready(g, lambda, first, before, basis, states) && stp < |states|
    requires forall x :: x in basis <==> x in bp
    requires ItemsOf(before, bp) == ItemsOf(before, states[stp].bp)
    requires |cs| == |before| && Merging(before, cs, bp, states[stp].bp, |before| - |basis|, |bp|)
    ensures Reached(g, lambda, first, before, basis, states, cs[..|before| - |basis|], states, stp)
  {
    hide Merging, Received, StateOK, InitialFws, StatusKept;
    var n := |before| - |basis|;
    StateInPool(g, lambda, first, before[..n], states[stp]);
    forall x | x in basis ensures n <= x {
      var i :| 0 <= i < |basis| && basis[i] == x;
    }
    MergeEnds(g, before, cs, basis, bp, states[stp], n);
    GoodKept(g, lambda, first, before[..n], cs[..n], states, states);
  }

  lemma NewReached(g: Grammar, lambda: Lambdas, first: Firsts, before: Pool, cs: Pool, basis: seq<nat>, ids: seq<nat>,
                   states: seq<State>, st: State)
    requires Ready(g, lambda, first, before, basis, states)
    requires Closing(g, lambda, first, before, basis, cs, ids, basis, |ids|)
    requires st == State(Sort(basis, ByItem(before)), Sort(ids, ByItem(cs)), [])
    requires forall s: nat | s < |states| :: ItemsOf(before, states[s].bp) != ItemsOf(before, st.bp)
    ensures Reached(g, lambda, first, before, basis, states, cs, states + [st], |states|)
    ensures StateOK(g, lambda, first, cs, st)
    ensures AllBases(g) - Known(cs, states + [st]) < AllBases(g) - Known(cs[..|before| - |basis|], states)
  {
    hide ByItem, Reached, Known, AllBases, Good, InOrder, StateOK, ItemSet, Sort, Closing, StartConfig, MovedConfig,
        AtEnd;
    SortedState(g, lambda, first, before, cs, basis, ids, st);
    NewStateMade(g, lambda, first, before, cs, basis, ids, st);
    NewReachedRest(g, lambda, first, before, cs, basis, ids, states, st);
    NewPrefix(g, lambda, first, before, cs, basis, ids);
    KnownPrefix(before, cs, states, |before| - |basis|);
    NewIsUnknown(g, lambda, first, cs, states, st);
  }

  // Both lists of the new state are what was collected, in order.
  lemma SortedState(g: Grammar, lambda: Lambdas, first: Firsts, before: Pool, cs: Pool, basis: seq<nat>, ids: seq<nat>,
                    st: State)
    requires DistinctItems(before, basis) && Closing(g, lambda, first, before, basis, cs, ids, basis, |ids|)
    requires st == State(Sort(basis, ByItem(before)), Sort(ids, ByItem(cs)), [])
    ensures (forall c :: c in st.bp <==> c in basis) && (forall c :: c in st.cfp <==> c in ids)
    ensures InOrder(ItemsOf(before, st.bp)) && InOrder(ItemsOf(cs, st.cfp))
  {
    hide ByItem, InOrder, Sort, Closing;
    ClosingValid(g, lambda, first, before, basis, cs, ids, basis, |ids|);
    SortedInOrder(before, basis);
    SortedInOrder(cs, ids);
  }

  lemma NewPrefix(g: Grammar, lambda: Lambdas, first: Firsts, before: Pool, cs: Pool, basis: seq<nat>, ids: seq<nat>)
    requires Closing(g, lambda, first, before, basis, cs, ids, basis, |ids|)
    ensures |basis| <= |before| && |before| - |basis| <= |cs|
      && cs[..|before| - |basis|] == before[..|before| - |basis|]
  {
    hide ClosedUpTo;
  }

  lemma NewStateMade(g: Grammar, lambda: Lambdas, first: Firsts, before: Pool, cs: Pool, basis: seq<nat>, ids: seq<nat>,
                     st: State)
    requires Closing(g, lambda, first, before, basis, cs, ids, basis, |ids|) && forall c <- basis :: c < |before|
    requires (forall c :: c in st.bp <==> c in basis) && (forall c :: c in st.cfp <==> c in ids)
    requires InOrder(ItemsOf(before, st.bp)) && InOrder(ItemsOf(cs, st.cfp))
    ensures StateOK(g, lambda, first, cs, st)
  {
    hide ClosedUpTo, InOrder, StateOK, BackSame;
    forall c | c in basis ensures c in ids && ItemOf(cs, c) == ItemOf(before, c) {
      assert GrewOne(before[c], cs[c]);
    }
    SameItemLists(before, cs, st.bp);
    NewStateOK(g, lambda, first, before, cs, ids, basis, st);
  }

  lemma SameItemLists(a: Pool, b: Pool, ids: seq<nat>)
    requires forall c <- ids :: ItemOf(b, c) == ItemOf(a, c)
    ensures ItemsOf(b, ids) == ItemsOf(a, ids)
  {
    forall i | 0 <= i < |ids| ensures ItemsOf(b, ids)[i] == ItemsOf(a, ids)[i] { assert ids[i] in ids; }
  }

  lemma NewReachedRest(g: Grammar, lambda: Lambdas, first: Firsts, before: Pool, cs: Pool, basis: seq<nat>,
                       ids: seq<nat>, states: seq<State>, st: State)
    requires Ready(g, lambda, first, before, basis, states)
    requires Closing(g, lambda, first, before, basis, cs, ids, basis, |ids|)
    requires StateOK(g, lambda, first, cs, st)
    requires (forall c :: c in st.bp <==> c in basis) && (forall c :: c in st.cfp <==> c in ids)
    requires InOrder(ItemsOf(before, st.bp))
    requires forall s: nat | s < |states| :: ItemsOf(before, states[s].bp) != ItemsOf(before, st.bp)
    ensures Reached(g, lambda, first, before, basis, states, cs, states + [st], |states|)
    ensures (forall s: nat | s < |states| ::
      InPool(before[..|before| - |basis|], states[s].bp)
      && !SameBasis(cs, states[s], st))
    ensures Good(g, lambda, first, cs, states)
  {
    hide StateOK, Justified, LinksSound, ClosedAt, Received, Closing, FwsSound, FreshConfig;
    var n := |before| - |basis|;
    ClosingFacts(g, lambda, first, before, cs, basis, ids);
    PrefixKept(before, cs, n);
    NewBackLinks(g, before, cs, basis);
    GoodKept(g, lambda, first, before[..n], cs, states, states);
    NewInitialFws(g, lambda, first, before, cs, ids, basis, |states|, st);
    NewBasisDiffers(g, lambda, first, before, cs, states, st.bp, n, st);
    assert states != [] ==> BasisAdvanced(cs, st) by {
      if states != [] { NewAdvanced(before, cs, basis, st); }
    }
    GoodSnoc(g, lambda, first, cs, states, st);
    NewReceived(before, cs, basis, st);
    forall s: nat | s < |states|
      ensures InPool(before[..n], states[s].bp)
    {
      StateInPool(g, lambda, first, before[..n], states[s]);
    }
  }

  lemma ClosingFacts(g: Grammar, lambda: Lambdas, first: Firsts, before: Pool, cs: Pool, basis: seq<nat>,
                     ids: seq<nat>)
    requires Closing(g, lambda, first, before, basis, cs, ids, basis, |ids|) && AtEnd(before, basis)
    ensures |before| - |basis| <= |cs| && cs[..|before| - |basis|] == before[..|before| - |basis|]
    ensures Grew(before, cs) && BackSame(before, cs) && FwsSound(g, lambda, first, before, cs, ids)
    ensures forall c <- ids :: c in basis || c >= |before|
    ensures forall c <- basis :: GrewOne(before[c], cs[c])
  {
    hide FwsSound, BackSame, ClosedAt;
    forall c | c in ids ensures c in basis || c >= |before| {
      var i :| 0 <= i < |ids| && ids[i] == c;
      if i < |basis| { assert basis[i] == c; }
    }
  }

  lemma NewAdvanced(before: Pool, cs: Pool, basis: seq<nat>, st: State)
    requires Grew(before, cs) && basis != [] && (forall c :: c in st.bp <==> c in basis)
    requires forall c <- basis :: MovedConfig(before, c)
    ensures BasisAdvanced(cs, st)
  {
    assert basis[0] in st.bp;
    forall c | c in st.bp ensures c < |cs| && ItemOf(cs, c).dot > 0 { assert c in basis && MovedConfig(before, c); }
  }

  lemma KnownPrefix(before: Pool, cs: Pool, states: seq<State>, n: nat)
    requires n <= |before| && n <= |cs| && cs[..n] == before[..n]
    requires forall s: nat | s < |states| :: InPool(before[..n], states[s].bp)
    ensures Known(cs, states) == Known(cs[..n], states)
  {
    forall st | st in states ensures ItemSet(cs, st.bp) == ItemSet(cs[..n], st.bp) {
      var s: nat :| s < |states| && states[s] == st;
      forall c | c in st.bp ensures ItemOf(cs, c) == ItemOf(cs[..n], c) {}
    }
  }

  // ---- facts getstate needs along the way ----

  lemma ReadyBasis(g: Grammar, lambda: Lambdas, first: Firsts, cs: Pool, basis: seq<nat>, states: seq<State>,
                   bp: seq<nat>)
    requires Ready(g, lambda, first, cs, basis, states) && bp == Sort(basis, ByItem(cs))
    ensures |basis| <= |cs| && DistinctItems(cs, basis)
    ensures forall c :: c in bp <==> c in basis
    ensures forall x <- bp :: |cs| - |basis| <= x < |cs|
    ensures forall i, j | 0 <= i < j < |bp| :: bp[i] != bp[j]
  {
    hide Good, FreshConfig, StartConfig, MovedConfig, ByItem, Sort;
    SortedInOrder(cs, basis);
    forall x | x in bp ensures |cs| - |basis| <= x < |cs| {
      var i :| 0 <= i < |basis| && basis[i] == x;
    }
    forall i, j | 0 <= i < j < |bp| ensures bp[i] != bp[j] {
      assert ItemsOf(cs, bp)[i] != ItemsOf(cs, bp)[j];
    }
  }

  lemma KnownState(g: Grammar, lambda: Lambdas, first: Firsts, cs: Pool, basis: seq<nat>, states: seq<State>,
                   bp: seq<nat>, s: nat)
    requires Ready(g, lambda, first, cs, basis, states) && s < |states| && ItemsOf(cs, states[s].bp) == ItemsOf(cs, bp)
    ensures |bp| == |states[s].bp| && |basis| <= |cs| && forall y <- states[s].bp :: y < |cs| - |basis|
  {
    assert |ItemsOf(cs, states[s].bp)| == |ItemsOf(cs, bp)|;
    StateInPool(g, lambda, first, cs[..|cs| - |basis|], states[s]);
  }

  lemma ReadyCloses(g: Grammar, lambda: Lambdas, first: Firsts, cs: Pool, basis: seq<nat>, states: seq<State>)
    requires Ready(g, lambda, first, cs, basis, states)
    ensures Closing(g, lambda, first, cs, basis, cs, basis, basis, 0)
  {
    hide Good;
    GrewRefl(cs);
    forall c | c in basis ensures c < |cs| && ValidItem(g, ItemOf(cs, c)) && cs[c].fplp == [] {
      assert FreshConfig(g, cs, |cs| - |basis|, c);
    }
    assert LinksSound(g, lambda, cs, basis);
    assert FwsSound(g, lambda, first, cs, cs, basis);
  }

  lemma NewAbove(g: Grammar, lambda: Lambdas, first: Firsts, before: Pool, basis: seq<nat>, cs: Pool, ids: seq<nat>,
                 st: State)
    requires Closing(g, lambda, first, before, basis, cs, ids, basis, |ids|)
    requires st.cfp == Sort(ids, ByItem(cs))
    ensures |basis| <= |before| && |before| - |basis| <= |cs|
    ensures forall c <- st.cfp :: c >= |before| - |basis|
    ensures cs[..|before| - |basis|] == before[..|before| - |basis|]
  {
    hide ClosedUpTo, ByItem, Sort, Grew, BackSame;
    SameMembers(st.cfp, ids);
    forall c | c in st.cfp ensures c >= |before| - |basis| {
      var i :| 0 <= i < |ids| && ids[i] == c;
    }
  }

  lemma ReachedGood(g: Grammar, lambda: Lambdas, first: Firsts, before: Pool, basis: seq<nat>, states: seq<State>,
                    cs: Pool, states': seq<State>, stp: nat)
    requires |basis| <= |before| && Reached(g, lambda, first, before, basis, states, cs, states', stp)
    ensures Good(g, lambda, first, cs, states') && states <= states' && stp < |states'|
  {
  }
}

/** The states FindStates builds are the canonical LR(0) collection. */
module Canonical {
  import opened Options
  import opened Grammars
  import opened FirstSets
  import opened Automata
  import opened Configs
  import opened Collection
  import opened Backlinks
  import opened States

  // ---- the textbook notions, on sets of items ----

  ghost predicate ClosedSet(g: Grammar, items: set<Item>) {
    forall it, r: nat | it in items && r < |g.rules| && Next(g, it) == Some(N(g.rules[r].lhs)) :: Item(r, 0) in items
  }

  // `items` is the least closed set that contains the kernel.
  ghost predicate IsClosure(g: Grammar, kernel: set<Item>, items: set<Item>) {
    && kernel <= items && ClosedSet(g, items)
    && forall other: set<Item> | kernel <= other && ClosedSet(g, other) :: items <= other
  }

  // A family of kernels that contains the start kernel and with each kernel its nonempty successors.
  ghost predicate ClosedFamily(g: Grammar, family: set<Item> -> bool) {
    && family(StartItems(g))
    && forall kernel: set<Item>, items: set<Item>, x: Symbol |
         family(kernel) && IsClosure(g, kernel, items) && AdvanceAll(g, items, x) != {} ::
             family(AdvanceAll(g, items, x))
  }

  ghost function Kernel(cs: Pool, states: seq<State>, s: nat): set<Item>
    requires s < |states|
  {
    ItemSet(cs, states[s].bp)
  }

  ghost function Items(cs: Pool, states: seq<State>, s: nat): set<Item>
    requires s < |states|
  {
    ItemSet(cs, states[s].cfp)
  }

  // What FindStates ensures.
  ghost predicate Built(g: Grammar, lambda: Lambdas, first: Firsts, cs: Pool, states: seq<State>) {
    && Good(g, lambda, first, cs, states) && |states| > 0
    && (forall s: nat | s < |states| :: Done(g, cs, states, s))
    && (forall s: nat | 0 < s < |states| :: FoundFrom(g, cs, states, 0, s))
    && ItemSet(cs, states[0].bp) == StartItems(g)
    && (forall c <- states[0].bp :: c < |cs| && 0 in cs[c].fws)
    && BackFrom(g, cs, states)
  }

  // Every state is closed, and contains nothing that its kernel does not call for.
  lemma StateIsClosure(g: Grammar, lambda: Lambdas, first: Firsts, cs: Pool, st: State)
    requires StateOK(g, lambda, first, cs, st)
    ensures IsClosure(g, ItemSet(cs, st.bp), ItemSet(cs, st.cfp))
  {
    var items := ItemSet(cs, st.cfp);
    forall it, r: nat | it in items && r < |g.rules| && Next(g, it) == Some(N(g.rules[r].lhs))
      ensures Item(r, 0) in items
    {
      var c :| c in st.cfp && ItemOf(cs, c) == it;
      assert ClosedAt(g, lambda, first, cs, st.cfp, c);
      assert ClosedFor(g, lambda, first, cs, st.cfp, c, r);
      var d :| d in st.cfp && Introduced(g, lambda, first, cs, c, r, d);
      assert ItemOf(cs, d) == Item(r, 0);
    }
    forall other: set<Item> | ItemSet(cs, st.bp) <= other && ClosedSet(g, other)
      ensures items <= other
    {
      forall d | d in st.cfp ensures ItemOf(cs, d) in other {
        CalledFor(g, cs, st, other, d);
      }
    }
  }

  lemma {:induction false} CalledFor(g: Grammar, cs: Pool, st: State, other: set<Item>, d: nat)
    requires Justified(g, cs, st.cfp, st.bp) && ItemSet(cs, st.bp) <= other && ClosedSet(g, other) && d in st.cfp
    ensures ItemOf(cs, d) in other
    decreases d
  {
    if d in st.bp {
      assert ItemOf(cs, d) in ItemSet(cs, st.bp);
    } else {
      var c :| c in st.cfp && c < d && Induces(g, cs, c, d);
      CalledFor(g, cs, st, other, c);
      assert ItemOf(cs, d) == Item(ItemOf(cs, d).rule, 0);
    }
  }

  // The successor of a state over x, if it has one, is a state, and it is entered by a shift.
  lemma SuccessorExists(g: Grammar, lambda: Lambdas, first: Firsts, cs: Pool, states: seq<State>, s: nat, x: Symbol)
    requires Built(g, lambda, first, cs, states) && s < |states| && AdvanceAll(g, Items(cs, states, s), x) != {}
    ensures exists to: nat ::
      to < |states| && Kernel(cs, states, to) == AdvanceAll(g, Items(cs, states, s), x)
      && ShiftsOn(states[s].ap, x, to)
  {
    hide Good;
    var moved :| moved in AdvanceAll(g, Items(cs, states, s), x);
    var it :| it in Items(cs, states, s) && Next(g, it) == Some(x) && moved == Advance(it);
    var c :| c in states[s].cfp && ItemOf(cs, c) == it;
    assert Done(g, cs, states, s) && ShiftDone(g, cs, states, s, c);
    var to: nat :| ShiftTo(g, cs, states, s, c, x, to);
    assert GotoIs(g, cs, states[s], x, states[to]);
  }

  // Every state belongs to any family closed in this way ...
  lemma {:induction false} StateInFamily(g: Grammar, lambda: Lambdas, first: Firsts, cs: Pool, states: seq<State>,
      s: nat, family: set<Item> -> bool)
    requires Built(g, lambda, first, cs, states) && s < |states| && ClosedFamily(g, family)
    ensures family(Kernel(cs, states, s))
    decreases s
  {
    hide Good;
    if s > 0 {
      assert FoundFrom(g, cs, states, 0, s);
      var p: nat, i: nat :| FoundOver(g, cs, states, s, p, i);
      StateInFamily(g, lambda, first, cs, states, p, family);
      StateOfGood(g, lambda, first, cs, states, p);
      StateIsClosure(g, lambda, first, cs, states[p]);
      KernelNonempty(g, lambda, first, cs, states, s);
    }
  }

  lemma StateOfGood(g: Grammar, lambda: Lambdas, first: Firsts, cs: Pool, states: seq<State>, s: nat)
    requires Good(g, lambda, first, cs, states) && s < |states|
    ensures StateOK(g, lambda, first, cs, states[s])
  {
  }

  lemma KernelNonempty(g: Grammar, lambda: Lambdas, first: Firsts, cs: Pool, states: seq<State>, s: nat)
    requires Good(g, lambda, first, cs, states) && 0 < s < |states|
    ensures Kernel(cs, states, s) != {}
  {
    assert BasisAdvanced(cs, states[s]);
    assert states[s].bp[0] in states[s].bp;
    assert ItemOf(cs, states[s].bp[0]) in Kernel(cs, states, s);
  }

  // ... and the states form such a family themselves, without repetition: they are the canonical collection.
  lemma CanonicalCollection(g: Grammar, lambda: Lambdas, first: Firsts, cs: Pool, states: seq<State>)
    requires Built(g, lambda, first, cs, states)
    ensures forall s: nat | s < |states| :: IsClosure(g, Kernel(cs, states, s), Items(cs, states, s))
    ensures forall s: nat, t: nat | s < t < |states| :: Kernel(cs, states, s) != Kernel(cs, states, t)
    ensures ClosedFamily(g, kernel => exists s: nat :: s < |states| && kernel == Kernel(cs, states, s))
    ensures forall s: nat, family | s < |states| && ClosedFamily(g, family) :: family(Kernel(cs, states, s))
  {
    hide StateOK, InitialFws, BasisAdvanced;
    forall s: nat | s < |states| ensures IsClosure(g, Kernel(cs, states, s), Items(cs, states, s)) {
      StateOfGood(g, lambda, first, cs, states, s);
      StateIsClosure(g, lambda, first, cs, states[s]);
    }
    forall s: nat, t: nat | s < t < |states| ensures Kernel(cs, states, s) != Kernel(cs, states, t) {
      assert !SameBasis(cs, states[s], states[t]);
    }
    var family := kernel => exists s: nat :: s < |states| && kernel == Kernel(cs, states, s);
    assert Kernel(cs, states, 0) == StartItems(g);
    forall kernel: set<Item>, items: set<Item>, x: Symbol |
      family(kernel) && IsClosure(g, kernel, items) && AdvanceAll(g, items, x) != {}
      ensures family(AdvanceAll(g, items, x))
    {
      var s: nat :| s < |states| && kernel == Kernel(cs, states, s);
      assert items == Items(cs, states, s);
      SuccessorExists(g, lambda, first, cs, states, s, x);
    }
    forall s: nat, fam | s < |states| && ClosedFamily(g, fam) ensures fam(Kernel(cs, states, s)) {
      StateInFamily(g, lambda, first, cs, states, s, fam);
    }
  }
}

/** The order in which FindStates finds the states of the automaton, which is the order of their first numbers: depth
  first, over the symbols of a state in the order of its items. */
module Discovery {
  import opened Options
  import opened Grammars
  import opened FirstSets
  import opened Automata
  import opened Sorting
  import opened Configs
  import opened Collection
  import opened States
  import opened Canonical
  import opened Lalr
  import opened Propagation
  import opened Rulings

  // What the state leads to over x, if anything, is among the first n.
  ghost predicate LeadsAmong(g: Grammar, found: seq<set<Item>>, kernel: set<Item>, x: Symbol, n: nat) {
    n <= |found| && (ShiftsOver(g, kernel, x) ==> Goto(g, kernel, x) in found[..n])
  }

  // State n was found over x from state p.  What p leads to over sooner symbols had been found by then, and whatever
  // the states found between p and n lead to.
  ghost predicate FoundBy(g: Grammar, found: seq<set<Item>>, n: nat, p: nat, x: Symbol) {
    && p < n < |found| && ShiftsOver(g, found[p], x) && found[n] == Goto(g, found[p], x)
    && (forall y | Sooner(g, found[p], y, x) :: LeadsAmong(g, found, found[p], y, n))
    && (forall q: nat, y | p < q < n :: LeadsAmong(g, found, found[q], y, n))
  }

  ghost predicate FoundInTurn(g: Grammar, found: seq<set<Item>>, n: nat) {
    exists p: nat, x :: FoundBy(g, found, n, p, x)
  }

  // All states, each once, in the order of a depth-first search.
  ghost predicate DepthFirst(g: Grammar, found: seq<set<Item>>) {
    && found != [] && found[0] == StartItems(g) && AllDifferent(found)
    && (forall kernel :: kernel in found <==> InCollection(g, kernel))
    && forall n: nat | 0 < n < |found| :: FoundInTurn(g, found, n)
  }

  // ---- there is only one such order ----

  lemma {:induction false} LeastItem(items: set<Item>) returns (it: Item)
    requires items != {}
    ensures it in items && forall other <- items :: ItemLe(it, other)
    decreases |items|
  {
    var some :| some in items;
    var rest := items - {some};
    assert items == rest + {some};
    it := some;
    if rest != {} {
      var least := LeastItem(rest);
      if ItemLe(least, some) { it := least; }
    }
  }

  lemma FirstWith(g: Grammar, kernel: set<Item>, x: Symbol) returns (it: Item)
    requires ShiftsOver(g, kernel, x)
    ensures InClosure(g, kernel, it) && Next(g, it) == Some(x)
    ensures forall other | InClosure(g, kernel, other) && Next(g, other) == Some(x) :: ItemLe(it, other)
  {
    hide InClosure;
    var items := set it <- AllItems(g) | InClosure(g, kernel, it) && Next(g, it) == Some(x);
    var some :| InClosure(g, kernel, some) && Next(g, some) == Some(x);
    assert some in items;
    it := LeastItem(items);
    forall other | InClosure(g, kernel, other) && Next(g, other) == Some(x) ensures ItemLe(it, other) {
      assert other in items;
    }
  }

  lemma SoonerTotal(g: Grammar, kernel: set<Item>, x: Symbol, y: Symbol)
    requires ShiftsOver(g, kernel, x) && ShiftsOver(g, kernel, y) && x != y
    ensures Sooner(g, kernel, x, y) || Sooner(g, kernel, y, x)
  {
    hide InClosure, Sooner, ItemLe;
    var a := FirstWith(g, kernel, x);
    var b := FirstWith(g, kernel, y);
    if ItemLe(a, b) { SoonerFirst(g, kernel, a, x, b, y); } else { SoonerFirst(g, kernel, b, y, a, x); }
  }

  lemma SoonerFirst(g: Grammar, kernel: set<Item>, a: Item, x: Symbol, b: Item, y: Symbol)
    requires InClosure(g, kernel, a) && Next(g, a) == Some(x) && Next(g, b) == Some(y) && x != y
    requires forall other | InClosure(g, kernel, other) && Next(g, other) == Some(y) :: ItemLe(b, other)
    requires ItemLe(a, b) || !ItemLe(b, a)
    ensures Sooner(g, kernel, x, y)
  {
    hide InClosure;
    assert a != b;
  }

  lemma NextSame(g: Grammar, a: seq<set<Item>>, b: seq<set<Item>>, n: nat)
    requires DepthFirst(g, a) && DepthFirst(g, b) && 0 < n < |a| && n < |b| && a[..n] == b[..n]
    ensures a[n] == b[n]
  {
    hide InCollection, ShiftsOver, Goto, Sooner;
    assert FoundInTurn(g, a, n) && FoundInTurn(g, b, n);
    var p: nat, x :| FoundBy(g, a, n, p, x);
    var q: nat, y :| FoundBy(g, b, n, q, y);
    NoneMissing(g, a, b, n, p, x, q, y);
    NoneMissing(g, b, a, n, q, y, p, x);
    assert p == q && a[p] == a[..n][p] == b[p];
    if x != y { SoonerTotal(g, a[p], x, y); }
  }

  // The state that is found next was still missing.
  lemma NoneMissing(g: Grammar, a: seq<set<Item>>, b: seq<set<Item>>, n: nat, p: nat, x: Symbol, q: nat, y: Symbol)
    requires FoundBy(g, a, n, p, x) && FoundBy(g, b, n, q, y) && a[..n] == b[..n] && AllDifferent(b)
    ensures q <= p && (p == q ==> !Sooner(g, a[p], y, x))
  {
    hide ShiftsOver, Goto, Sooner;
    assert a[q] == a[..n][q] == b[q];
    assert Goto(g, a[q], y) == b[n] && b[n] !in b[..n];
    assert !LeadsAmong(g, a, a[q], y, n);
  }

  lemma {:induction false} SamePrefix(g: Grammar, a: seq<set<Item>>, b: seq<set<Item>>, n: nat)
    requires DepthFirst(g, a) && DepthFirst(g, b) && n <= |a| && n <= |b|
    ensures a[..n] == b[..n]
  {
    hide InCollection, FoundInTurn;
    if n > 0 {
      SamePrefix(g, a, b, n - 1);
      if n > 1 { NextSame(g, a, b, n - 1); }
      assert a[..n] == a[..n - 1] + [a[n - 1]] && b[..n] == b[..n - 1] + [b[n - 1]];
    }
  }

  // The numbers of the states follow from the grammar.
  lemma FoundOneWay(g: Grammar, a: seq<set<Item>>, b: seq<set<Item>>)
    requires DepthFirst(g, a) && DepthFirst(g, b)
    ensures a == b
  {
    hide InCollection, FoundInTurn;
    forall kernel ensures kernel in a <==> kernel in b {}
    DistinctSame(a, b);
    SamePrefix(g, a, b, |a|);
  }

  // ---- FindStates proceeds in this order ----

  ghost function KernelsFound(cs: Pool, states: seq<State>): (r: seq<set<Item>>)
    ensures |r| == |states|
  {
    seq(|states|, s requires 0 <= s < |states| => Kernel(cs, states, s))
  }

  // What a state leads to over the symbol behind the dot of an item, if it is known to lead below n.
  lemma LeadsByNumber(g: Grammar, lambda: Lambdas, first: Firsts, cs: Pool, states: seq<State>, s: nat, ids: seq<nat>,
                      it: Item, n: nat)
    requires Built(g, lambda, first, cs, states) && s < |states| && n <= |states|
    requires AllLeadBelow(g, cs, states, s, ids, n) && Next(g, it).Some? && exists c <- ids :: ItemOf(cs, c) == it
    ensures LeadsAmong(g, KernelsFound(cs, states), Kernel(cs, states, s), Next(g, it).value, n)
  {
    hide Built, GotoIs, InClosure, Goto;
    var found := KernelsFound(cs, states);
    var c :| c in ids && ItemOf(cs, c) == it;
    assert LeadsBelow(g, cs, states, s, c, n);
    var to: nat :| to < n && to < |states| && GotoIs(g, cs, states[s], Next(g, it).value, states[to]);
    GotoByNumber(g, lambda, first, cs, states, s, Next(g, it).value, to);
    assert found[..n][to] == found[to];
  }

  lemma GotoByNumber(g: Grammar, lambda: Lambdas, first: Firsts, cs: Pool, states: seq<State>, s: nat, x: Symbol,
                     to: nat)
    requires Built(g, lambda, first, cs, states) && s < |states| && to < |states|
    requires GotoIs(g, cs, states[s], x, states[to])
    ensures Kernel(cs, states, to) == Goto(g, Kernel(cs, states, s), x)
  {
    hide Built;
    StateKernel(g, lambda, first, cs, states, s);
  }

  lemma ItemListed(g: Grammar, lambda: Lambdas, first: Firsts, cs: Pool, states: seq<State>, s: nat, it: Item)
    returns (j: nat)
    requires Built(g, lambda, first, cs, states) && s < |states| && InClosure(g, Kernel(cs, states, s), it)
    ensures j < |states[s].cfp| && ItemOf(cs, states[s].cfp[j]) == it
  {
    hide Built, InClosure;
    StateKernel(g, lambda, first, cs, states, s);
    var c :| c in states[s].cfp && ItemOf(cs, c) == it;
    j :| 0 <= j < |states[s].cfp| && states[s].cfp[j] == c;
  }

  lemma StateInTurn(g: Grammar, lambda: Lambdas, first: Firsts, cs: Pool, states: seq<State>, n: nat, p: nat, i: nat)
    requires Built(g, lambda, first, cs, states) && FoundOver(g, cs, states, n, p, i)
    ensures FoundInTurn(g, KernelsFound(cs, states), n)
  {
    hide Built, GotoIs, InClosure, Goto, AllLeadBelow, Sooner, LeadsAmong;
    var found, cfp := KernelsFound(cs, states), states[p].cfp;
    var at := ItemOf(cs, cfp[i]);
    var x := Next(g, at).value;
    GotoByNumber(g, lambda, first, cs, states, p, x, n);
    assert ShiftsOver(g, found[p], x) by { OverAt(g, lambda, first, cs, states, p, i); }
    forall y | Sooner(g, found[p], y, x) ensures LeadsAmong(g, found, found[p], y, n) {
      SoonerLeads(g, lambda, first, cs, states, n, p, i, y);
    }
    forall q: nat, y | p < q < n ensures LeadsAmong(g, found, found[q], y, n) {
      if ShiftsOver(g, found[q], y) {
        var it :| InClosure(g, found[q], it) && Next(g, it) == Some(y);
        var j := ItemListed(g, lambda, first, cs, states, q, it);
        assert states[q].cfp[j] in states[q].cfp;
        LeadsByNumber(g, lambda, first, cs, states, q, states[q].cfp, it, n);
      } else {
        NotLeading(g, found, found[q], y, n);
      }
    }
    assert FoundBy(g, found, n, p, x);
  }

  lemma NotLeading(g: Grammar, found: seq<set<Item>>, kernel: set<Item>, x: Symbol, n: nat)
    requires !ShiftsOver(g, kernel, x) && n <= |found|
    ensures LeadsAmong(g, found, kernel, x, n)
  {
  }

  lemma OverAt(g: Grammar, lambda: Lambdas, first: Firsts, cs: Pool, states: seq<State>, p: nat, i: nat)
    requires Built(g, lambda, first, cs, states) && p < |states| && i < |states[p].cfp|
    requires Next(g, ItemOf(cs, states[p].cfp[i])).Some?
    ensures InClosure(g, Kernel(cs, states, p), ItemOf(cs, states[p].cfp[i]))
    ensures ShiftsOver(g, Kernel(cs, states, p), Next(g, ItemOf(cs, states[p].cfp[i])).value)
  {
    hide Built, InClosure;
    StateKernel(g, lambda, first, cs, states, p);
    assert states[p].cfp[i] in states[p].cfp;
    assert ItemOf(cs, states[p].cfp[i]) in Items(cs, states, p);
  }

  // A sooner symbol stands behind the dot of an earlier configuration.
  lemma SoonerLeads(g: Grammar, lambda: Lambdas, first: Firsts, cs: Pool, states: seq<State>, n: nat, p: nat, i: nat,
                    y: Symbol)
    requires Built(g, lambda, first, cs, states) && FoundOver(g, cs, states, n, p, i)
    requires Sooner(g, Kernel(cs, states, p), y, Next(g, ItemOf(cs, states[p].cfp[i])).value)
    ensures LeadsAmong(g, KernelsFound(cs, states), Kernel(cs, states, p), y, n)
  {
    hide Built, GotoIs, InClosure, AllLeadBelow, LeadsAmong;
    var cfp := states[p].cfp;
    var at := ItemOf(cs, cfp[i]);
    OverAt(g, lambda, first, cs, states, p, i);
    var it :| InClosure(g, Kernel(cs, states, p), it) && Next(g, it) == Some(y)
      && forall later | InClosure(g, Kernel(cs, states, p), later) && Next(g, later) == Next(g, at) ::
           it.rule < later.rule || (it.rule == later.rule && it.dot < later.dot);
    var j := ItemListed(g, lambda, first, cs, states, p, it);
    AskedOf(g, lambda, first, cs, states, p);
    assert ItemsOf(cs, cfp)[i] == at && ItemsOf(cs, cfp)[j] == it;
    assert j < i;
    assert cfp[..i][j] == cfp[j];
    assert cfp[j] in cfp[..i];
    LeadsByNumber(g, lambda, first, cs, states, p, cfp[..i], it, n);
  }

  lemma StatesDepthFirst(g: Grammar, lambda: Lambdas, first: Firsts, cs: Pool, states: seq<State>)
    requires Built(g, lambda, first, cs, states)
    ensures DepthFirst(g, KernelsFound(cs, states))
  {
    hide FoundBy, InCollection, FoundOver, Good, Done;
    var found := KernelsFound(cs, states);
    forall i, j | 0 <= i < j < |found| ensures found[i] != found[j] {
      if found[i] == found[j] { SameKernel(g, lambda, first, cs, states, i, j); }
    }
    forall kernel ensures kernel in found <==> InCollection(g, kernel) {
      if kernel in found {
        var k :| 0 <= k < |found| && found[k] == kernel;
        StateKernel(g, lambda, first, cs, states, k);
      }
      if InCollection(g, kernel) {
        var s := KernelState(g, lambda, first, cs, states, kernel);
        assert found[s] == kernel;
      }
    }
    forall n: nat | 0 < n < |found| ensures FoundInTurn(g, found, n) {
      assert FoundFrom(g, cs, states, 0, n);
      var p: nat, i: nat :| FoundOver(g, cs, states, n, p, i);
      StateInTurn(g, lambda, first, cs, states, n, p, i);
    }
  }
}

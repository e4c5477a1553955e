/** The look-aheads that the generator computes are those of the LALR(1) automaton. */
module Propagation {
  import opened Grammars
  import opened FirstSets
  import opened Automata
  import opened Configs
  import opened Collection
  import opened Backlinks
  import opened States
  import opened Canonical
  import opened Follow
  import opened Reductions
  import opened Soundness
  import opened Sufficiency
  import opened Lalr

  // ---- states and kernels ----

  lemma StateKernel(g: Grammar, lambda: Lambdas, first: Firsts, cs: Pool, states: seq<State>, s: nat)
    requires Built(g, lambda, first, cs, states) && s < |states|
    ensures InCollection(g, Kernel(cs, states, s))
    ensures forall it :: InClosure(g, Kernel(cs, states, s), it) <==> it in Items(cs, states, s)
    ensures forall x :: Goto(g, Kernel(cs, states, s), x) == AdvanceAll(g, Items(cs, states, s), x)
  {
    hide Built, IsClosure, ClosedFamily;
    CanonicalCollection(g, lambda, first, cs, states);
    ClosureIs(g, Kernel(cs, states, s), Items(cs, states, s));
  }

  lemma KernelState(g: Grammar, lambda: Lambdas, first: Firsts, cs: Pool, states: seq<State>, kernel: set<Item>)
    returns (s: nat)
    requires Built(g, lambda, first, cs, states) && InCollection(g, kernel)
    ensures s < |states| && Kernel(cs, states, s) == kernel
  {
    hide Built, IsClosure, ClosedFamily;
    CanonicalCollection(g, lambda, first, cs, states);
    var family := k => exists s: nat :: s < |states| && k == Kernel(cs, states, s);
    assert family(kernel);
    s :| s < |states| && Kernel(cs, states, s) == kernel;
  }

  lemma SameKernel(g: Grammar, lambda: Lambdas, first: Firsts, cs: Pool, states: seq<State>, s: nat, t: nat)
    requires Built(g, lambda, first, cs, states) && s < |states| && t < |states|
      && Kernel(cs, states, s) == Kernel(cs, states, t)
    ensures s == t
  {
    hide Built, IsClosure, ClosedFamily;
    CanonicalCollection(g, lambda, first, cs, states);
  }

  // ---- every look-ahead computed is one of the automaton ----

  lemma InitialLooks(g: Grammar, lambda: Lambdas, first: Firsts, cs: Pool, states: seq<State>, s: nat, c: nat, t: nat)
    requires Built(g, lambda, first, cs, states) && FirstExact(g, lambda, first)
    requires s < |states| && c in states[s].cfp && c < |cs| && t in cs[c].fws
    ensures LookIn(g, Kernel(cs, states, s), ItemOf(cs, c), t, 0)
  {
    hide BackFrom, Done, FoundFrom, InCollection, InClosure, CanBegin, SeqFirst, AllLambda, Nullable;
    StateKernel(g, lambda, first, cs, states, s);
    assert ItemOf(cs, c) in Items(cs, states, s);
    assert InitialFws(g, lambda, first, cs, s, states[s]);
    if HasOrigin(g, lambda, first, cs, states[s].cfp, c, t) {
      var b :| b in states[s].cfp && Induces(g, cs, b, c) && t in HandedOn(g, lambda, first, ItemOf(cs, b));
      assert ItemOf(cs, b) in Items(cs, states, s);
      assert Predicts(g, ItemOf(cs, b), ItemOf(cs, c)) && CanBegin(g, Rest(g, ItemOf(cs, b)), t);
    } else {
      assert StateOK(g, lambda, first, cs, states[s]) && ValidItem(g, ItemOf(cs, c));
      assert ItemOf(cs, c) == Item(ItemOf(cs, c).rule, 0);
      assert ItemOf(cs, c) in StartItems(g);
    }
  }

  // One link further: a link of the closure stays within the state, ...
  lemma ClosureLinkLooks(g: Grammar, lambda: Lambdas, first: Firsts, cs: Pool, states: seq<State>, p: nat, s: nat,
                         b: nat, c: nat)
    requires Good(g, lambda, first, cs, states) && Separate(states) && FirstExact(g, lambda, first)
    requires s < |states| && c in states[s].cfp && p < |states| && b in states[p].cfp && b < |cs| && c in cs[b].fplp
    ensures p == s && Predicts(g, ItemOf(cs, b), ItemOf(cs, c)) && Nullable(g, Rest(g, ItemOf(cs, b)))
  {
    hide Nullable, CanBegin, SeqFirst, AllLambda, InitialFws, ClosedAt, Justified, InOrder, BackLinksOK, SameBasis;
    assert StateOK(g, lambda, first, cs, states[p]);
    assert c in states[p].cfp && Induces(g, cs, b, c) && Transparent(g, lambda, cs[b].item);
    assert p == s;
  }

  // ... and a back link was made when the dot was moved.
  lemma BackLinkLooks(g: Grammar, lambda: Lambdas, first: Firsts, cs: Pool, states: seq<State>, s: nat, b: nat, c: nat)
    returns (p: nat)
    requires Built(g, lambda, first, cs, states) && s < |states| && c in states[s].cfp && c < |cs| && b in cs[c].bplp
    ensures p < |states| && b in states[p].cfp && Enters(g, Kernel(cs, states, p), ItemOf(cs, b), Kernel(cs, states, s),
      ItemOf(cs, c))
  {
    hide StateOK, InitialFws, SameBasis, Done, FoundFrom, Separate, Goto;
    assert LinksFrom(g, cs, states, s);
    p :| GoesInto(g, cs, states, p, b, s);
    assert BackLinkOK(cs, c, b);
    StateKernel(g, lambda, first, cs, states, p);
  }

  lemma {:induction false} FlowLooks(g: Grammar, lambda: Lambdas, first: Firsts, cs: Pool, states: seq<State>,
                                     linked: Pool, followed: Pool, s: nat, a: nat, c: nat, t: nat, n: nat)
    requires Analyzed(g, lambda, first, cs, states, linked, followed) && FirstExact(g, lambda, first)
    requires s < |states| && c in states[s].cfp && a < |linked| && t in linked[a].fws
      && FlowsIn(linked, states, a, c, n)
    ensures LookIn(g, Kernel(cs, states, s), ItemOf(cs, c), t, n)
    decreases n
  {
    hide Built, FirstExact, InCollection, InClosure, Spontaneous, Predicts, Nullable, Enters, OnlyFws, Arrives, Good,
        Separate;
    assert |linked| == |cs| && linked[a].fws == cs[a].fws;
    if n == 0 {
      InitialLooks(g, lambda, first, cs, states, s, c, t);
    } else {
      var b: nat :| b < |linked| && FlowsIn(linked, states, a, b, n - 1) && InStates(states, b) && c in linked[b].fplp;
      assert LinkedRight(cs, states, linked, b, c);
      var p: nat;
      if c in cs[b].fplp {
        p :| p < |states| && b in states[p].cfp;
        BuiltSeparate(g, lambda, first, cs, states);
        ClosureLinkLooks(g, lambda, first, cs, states, p, s, b, c);
      } else {
        p := BackLinkLooks(g, lambda, first, cs, states, s, b, c);
      }
      FlowLooks(g, lambda, first, cs, states, linked, followed, p, a, b, t, n - 1);
      StateKernel(g, lambda, first, cs, states, s);
      assert ItemOf(cs, c) in Items(cs, states, s);
    }
  }

  lemma BuiltSeparate(g: Grammar, lambda: Lambdas, first: Firsts, cs: Pool, states: seq<State>)
    requires Built(g, lambda, first, cs, states)
    ensures Good(g, lambda, first, cs, states) && Separate(states)
  {
  }

  // ---- every look-ahead of the automaton is computed ----

  lemma ClosePair(g: Grammar, lambda: Lambdas, first: Firsts, cs: Pool, states: seq<State>, linked: Pool,
                  followed: Pool, s: nat, from: Item, it: Item, t: nat)
    requires Analyzed(g, lambda, first, cs, states, linked, followed) && FirstExact(g, lambda, first)
    requires s < |states| && (from, t) in LaPairs(followed, states[s].cfp) && Predicts(g, from, it)
      && Nullable(g, Rest(g, from))
    ensures (it, t) in LaPairs(followed, states[s].cfp)
  {
    hide Built, Followed, FirstExact, Nullable, CanBegin, LaPairs;
    var c := PairOf(cs, states, linked, followed, s, from, t);
    ClosureServes(g, lambda, first, cs, states, linked, followed, s, c, t, it.rule, t);
    assert it == Item(it.rule, 0);
  }

  lemma MovePair(g: Grammar, lambda: Lambdas, first: Firsts, cs: Pool, states: seq<State>, linked: Pool, followed: Pool,
                 p: nat, from: Item, s: nat, it: Item, t: nat)
    requires Analyzed(g, lambda, first, cs, states, linked, followed)
    requires p < |states| && (from, t) in LaPairs(followed, states[p].cfp)
    requires s < |states| && Enters(g, Kernel(cs, states, p), from, Kernel(cs, states, s), it)
    ensures (it, t) in LaPairs(followed, states[s].cfp)
  {
    hide Built, Followed, LaPairs, Goto, ShiftsOn;
    var c := PairOf(cs, states, linked, followed, p, from, t);
    var to := MoveServes(g, lambda, first, cs, states, linked, followed, p, c, t, Next(g, from).value);
    StateKernel(g, lambda, first, cs, states, p);
    SameKernel(g, lambda, first, cs, states, to, s);
  }

  lemma {:induction false} LookFlows(g: Grammar, lambda: Lambdas, first: Firsts, cs: Pool, states: seq<State>,
                                     linked: Pool, followed: Pool, s: nat, it: Item, t: nat, n: nat)
    requires Analyzed(g, lambda, first, cs, states, linked, followed) && FirstExact(g, lambda, first)
    requires s < |states| && LookIn(g, Kernel(cs, states, s), it, t, n)
    ensures (it, t) in LaPairs(followed, states[s].cfp)
    decreases n
  {
    hide Analyzed, FirstExact, InCollection, Nullable, LaPairs, Enters, Predicts, LookIn;
    var kernel := Kernel(cs, states, s);
    assert Built(g, lambda, first, cs, states) by { AnalyzedBuilt(g, lambda, first, cs, states, linked, followed); }
    if n == 0 {
      LookStart(g, kernel, it, t);
      SpontaneousServed(g, lambda, first, cs, states, linked, followed, s, it, t);
    } else {
      var within, before, from := LookBack(g, kernel, it, t, n);
      if within {
        LookFlows(g, lambda, first, cs, states, linked, followed, s, from, t, n - 1);
        ClosePair(g, lambda, first, cs, states, linked, followed, s, from, it, t);
      } else {
        var p := KernelState(g, lambda, first, cs, states, before);
        LookFlows(g, lambda, first, cs, states, linked, followed, p, from, t, n - 1);
        MovePair(g, lambda, first, cs, states, linked, followed, p, from, s, it, t);
      }
    }
  }

  lemma AnalyzedBuilt(g: Grammar, lambda: Lambdas, first: Firsts, cs: Pool, states: seq<State>, linked: Pool,
                      followed: Pool)
    requires Analyzed(g, lambda, first, cs, states, linked, followed)
    ensures Built(g, lambda, first, cs, states)
  {
  }

  lemma PairOf(cs: Pool, states: seq<State>, linked: Pool, followed: Pool, s: nat, it: Item, t: nat) returns (c: nat)
    requires Followed(cs, states, linked, followed) && s < |states| && (it, t) in LaPairs(followed, states[s].cfp)
    ensures c in states[s].cfp && t in FwsOf(followed, c) && ItemOf(cs, c) == it
  {
    hide Followed;
    c :| c in states[s].cfp && t in FwsOf(followed, c) && ItemOf(followed, c) == it;
    FollowedItems(cs, states, linked, followed, c);
  }

  lemma SpontaneousServed(g: Grammar, lambda: Lambdas, first: Firsts, cs: Pool, states: seq<State>, linked: Pool,
                          followed: Pool, s: nat, it: Item, t: nat)
    requires Analyzed(g, lambda, first, cs, states, linked, followed) && FirstExact(g, lambda, first)
    requires s < |states| && Spontaneous(g, Kernel(cs, states, s), it, t)
    ensures (it, t) in LaPairs(followed, states[s].cfp)
  {
    hide Built, Followed, FirstExact, InCollection, InClosure, Nullable, CanBegin, LaPairs;
    var kernel := Kernel(cs, states, s);
    if kernel == StartItems(g) && it in kernel && t == 0 {
      FirstKernel(g, lambda, first, cs, states);
      SameKernel(g, lambda, first, cs, states, s, 0);
      StartServed(g, lambda, first, cs, states, linked, followed, it.rule);
    } else {
      var from :| InClosure(g, kernel, from) && Predicts(g, from, it) && CanBegin(g, Rest(g, from), t);
      StateKernel(g, lambda, first, cs, states, s);
      var c :| c in states[s].cfp && ItemOf(cs, c) == from;
      BeginServes(g, lambda, first, cs, states, linked, followed, s, c, it.rule, t);
      assert it == Item(it.rule, 0);
    }
  }

  lemma FirstKernel(g: Grammar, lambda: Lambdas, first: Firsts, cs: Pool, states: seq<State>)
    requires Built(g, lambda, first, cs, states)
    ensures |states| > 0 && Kernel(cs, states, 0) == StartItems(g)
  {
  }

  // The look-aheads of the items of a state are those of the LALR(1) automaton, no more and no fewer.
  lemma LookaheadsExact(g: Grammar, lambda: Lambdas, first: Firsts, cs: Pool, states: seq<State>, linked: Pool,
                        followed: Pool, s: nat, it: Item, t: nat)
    requires Analyzed(g, lambda, first, cs, states, linked, followed) && FirstExact(g, lambda, first) && s < |states|
    ensures LookAhead(g, Kernel(cs, states, s), it, t) <==> (it, t) in LaPairs(followed, states[s].cfp)
  {
    hide Built, FirstExact, LookIn, LaPairs;
    if LookAhead(g, Kernel(cs, states, s), it, t) {
      var n: nat :| LookIn(g, Kernel(cs, states, s), it, t, n);
      LookFlows(g, lambda, first, cs, states, linked, followed, s, it, t, n);
    }
    if (it, t) in LaPairs(followed, states[s].cfp) {
      var c := PairOf(cs, states, linked, followed, s, it, t);
      Member(states, s, c);
      var a := ArrivedFrom(cs, states, linked, followed, c, t);
      var n: nat :| FlowsIn(linked, states, a, c, n);
      FlowLooks(g, lambda, first, cs, states, linked, followed, s, a, c, t, n);
    }
  }
}

/** A state of the generator has two actions called for on one look-ahead just where the LALR(1) automaton has. */
module Clashes {
  import opened Options
  import opened Grammars
  import opened FirstSets
  import opened Automata
  import opened Sorting
  import opened Configs
  import opened ActionLists
  import opened Resolve
  import opened Collection
  import opened Canonical
  import opened Reductions
  import opened Soundness
  import opened Sufficiency
  import opened Lalr
  import opened Propagation

  lemma ReducesExact(g: Grammar, lambda: Lambdas, first: Firsts, cs: Pool, states: seq<State>, linked: Pool,
                     followed: Pool, s: nat, r: nat, t: nat)
    requires Analyzed(g, lambda, first, cs, states, linked, followed) && FirstExact(g, lambda, first) && s < |states|
    ensures Reduces(g, Kernel(cs, states, s), r, t) <==> CallsForReduce(g, followed, states[s].cfp, t, r)
  {
    hide Analyzed, FirstExact, LookAhead;
    if r < |g.rules| {
      LookaheadsExact(g, lambda, first, cs, states, linked, followed, s, Item(r, |g.rules[r].rhs|), t);
    }
  }

  // Who shifts over x.
  lemma ShiftsExact(g: Grammar, lambda: Lambdas, first: Firsts, cs: Pool, states: seq<State>, s: nat, x: Symbol)
    requires Built(g, lambda, first, cs, states) && s < |states|
    ensures ShiftsOver(g, Kernel(cs, states, s), x) <==> exists c <- states[s].cfp :: Next(g, ItemOf(cs, c)) == Some(x)
  {
    hide Built, InClosure;
    StateKernel(g, lambda, first, cs, states, s);
    if ShiftsOver(g, Kernel(cs, states, s), x) {
      var it :| InClosure(g, Kernel(cs, states, s), it) && Next(g, it) == Some(x);
      assert it in Items(cs, states, s);
    }
    if c :| c in states[s].cfp && Next(g, ItemOf(cs, c)) == Some(x) {
      assert ItemOf(cs, c) in Items(cs, states, s);
    }
  }

  // A symbol that is shifted over has all its actions.
  lemma ShiftOf(g: Grammar, lambda: Lambdas, first: Firsts, cs: Pool, states: seq<State>, s: nat, x: Symbol)
    returns (to: nat)
    requires Built(g, lambda, first, cs, states) && s < |states| && ShiftsOver(g, Kernel(cs, states, s), x)
    ensures to < |states| && ShiftsOn(states[s].ap, x, to)
      && Kernel(cs, states, to) == Goto(g, Kernel(cs, states, s), x)
  {
    hide Built, ShiftsOn, InClosure, Goto;
    ShiftsExact(g, lambda, first, cs, states, s, x);
    StateKernel(g, lambda, first, cs, states, s);
    var c :| c in states[s].cfp && Next(g, ItemOf(cs, c)) == Some(x);
    assert Advance(ItemOf(cs, c)) in AdvanceAll(g, Items(cs, states, s), x);
    SuccessorExists(g, lambda, first, cs, states, s, x);
    to :| to < |states| && Kernel(cs, states, to) == AdvanceAll(g, Items(cs, states, s), x)
        && ShiftsOn(states[s].ap, x, to);
  }

  // Successors over different symbols are different.
  lemma GotosDiffer(g: Grammar, kernel: set<Item>, x: Symbol, y: Symbol)
    requires ShiftsOver(g, kernel, x) && x != y
    ensures Goto(g, kernel, x) != Goto(g, kernel, y)
  {
    hide InClosure;
    var it :| InClosure(g, kernel, it) && Next(g, it) == Some(x);
    assert it in AllItems(g) && Advance(it) in Goto(g, kernel, x);
    forall other | Next(g, other) == Some(y) ensures Advance(other) != Advance(it) { assert other != it; }
    assert Advance(it) !in Goto(g, kernel, y);
  }

  lemma RepeatedTwice(ap: seq<Action>, a: Action, b: Action)
    requires a in ap && b in ap && a != b && a.sp == b.sp
    ensures !OneEach(ap)
  {
    var i :| 0 <= i < |ap| && ap[i] == a;
    var j :| 0 <= j < |ap| && ap[j] == b;
    assert ap[if i < j then i else j].sp == ap[if i < j then j else i].sp;
  }

  ghost predicate NoShiftClash(g: Grammar, kernel: set<Item>) {
    && (forall x, y, code | ShiftsOver(g, kernel, x) && ShiftsOver(g, kernel, y) && x != y && code in SymbolCodes(x) ::
          code !in SymbolCodes(y))
    && (forall x | ShiftsOver(g, kernel, x) :: AllDifferent(SymbolCodes(x)))
  }

  lemma ShiftClashSeen(g: Grammar, lambda: Lambdas, first: Firsts, cs: Pool, states: seq<State>, s: nat)
    requires Built(g, lambda, first, cs, states) && s < |states| && OneEach(states[s].ap)
    ensures NoShiftClash(g, Kernel(cs, states, s))
  {
    hide Built, ShiftsOver, Goto, OneEach, AllDifferent;
    var kernel, ap := Kernel(cs, states, s), states[s].ap;
    forall x | ShiftsOver(g, kernel, x) ensures AllDifferent(SymbolCodes(x)) {
      var to := ShiftOf(g, lambda, first, cs, states, s, x);
      if Repeated(ap) {
        var a, b :| a in ap && b in ap && a != b && a.sp == b.sp;
        RepeatedTwice(ap, a, b);
      }
    }
    forall x, y, code | ShiftsOver(g, kernel, x) && ShiftsOver(g, kernel, y) && x != y && code in SymbolCodes(x)
      ensures code !in SymbolCodes(y)
    {
      if code in SymbolCodes(y) {
        var to := ShiftOf(g, lambda, first, cs, states, s, x);
        var to' := ShiftOf(g, lambda, first, cs, states, s, y);
        GotosDiffer(g, kernel, x, y);
        assert HasShift(ap, code, to) && HasShift(ap, code, to');
        var a :| a in ap && a.sp == code && a.kind == SHIFT && a.x == to;
        var b :| b in ap && b.sp == code && b.kind == SHIFT && b.x == to';
        RepeatedTwice(ap, a, b);
      }
    }
  }

  lemma NoShiftClashSeen(g: Grammar, lambda: Lambdas, first: Firsts, cs: Pool, states: seq<State>, s: nat)
    requires Built(g, lambda, first, cs, states) && s < |states| && NoShiftClash(g, Kernel(cs, states, s))
    ensures OneEach(states[s].ap)
  {
    hide Built, ShiftsOver;
    var cfp, ap := states[s].cfp, states[s].ap;
    ActionsOfBuilt(g, lambda, first, cs, states, s);
    forall i, j | 0 <= i < j < |ap| ensures ap[i].sp != ap[j].sp {
      if ap[i].sp == ap[j].sp {
        var c, d :| c in cfp && d in cfp && ClashOn(Next(g, ItemOf(cs, c)), Next(g, ItemOf(cs, d)), ap[i].sp);
        ShiftsExact(g, lambda, first, cs, states, s, Next(g, ItemOf(cs, c)).value);
        ShiftsExact(g, lambda, first, cs, states, s, Next(g, ItemOf(cs, d)).value);
      }
    }
  }

  lemma ActionsOfBuilt(g: Grammar, lambda: Lambdas, first: Firsts, cs: Pool, states: seq<State>, s: nat)
    requires Built(g, lambda, first, cs, states) && s < |states|
    ensures ActionsOK(g, cs, states, s)
  {
    hide Good, ActionsOK, FoundFrom;
    assert Done(g, cs, states, s);
  }

  // Nothing is called for twice in the one if and only if nothing is in the other.
  lemma ClashesExact(g: Grammar, lambda: Lambdas, first: Firsts, cs: Pool, states: seq<State>, linked: Pool,
                     followed: Pool, s: nat)
    requires Analyzed(g, lambda, first, cs, states, linked, followed) && FirstExact(g, lambda, first) && s < |states|
    ensures Unclashed(g, followed, states[s]) <==> NoClash(g, Kernel(cs, states, s))
  {
    hide Analyzed, FirstExact, Built, Reduces, ShiftsOver, CallsForReduce, OneEach;
    var kernel, cfp := Kernel(cs, states, s), states[s].cfp;
    AnalyzedBuilt(g, lambda, first, cs, states, linked, followed);
    forall r: nat, t: nat ensures Reduces(g, kernel, r, t) <==> CallsForReduce(g, followed, cfp, t, r) {
      ReducesExact(g, lambda, first, cs, states, linked, followed, s, r, t);
    }
    if OneEach(states[s].ap) { ShiftClashSeen(g, lambda, first, cs, states, s); }
    if NoShiftClash(g, kernel) { NoShiftClashSeen(g, lambda, first, cs, states, s); }
    forall t: nat
      ensures HasLookahead(states[s].ap, t) <==> ShiftsCode(g, kernel, t)
    {
      CodesExact(g, lambda, first, cs, states, s, t);
    }
    if Unclashed(g, followed, states[s]) {
      forall r: nat, t: nat, x | Reduces(g, kernel, r, t) && ShiftsOver(g, kernel, x) ensures t !in SymbolCodes(x) {
        assert t in SymbolCodes(x) ==> ShiftsCode(g, kernel, t);
      }
    }
    if NoClash(g, kernel) {
      forall t: nat, r: nat, a | CallsForReduce(g, followed, cfp, t, r) && a in states[s].ap ensures a.sp != t {
        assert HasLookahead(states[s].ap, a.sp);
      }
    }
  }

  ghost predicate ShiftsCode(g: Grammar, kernel: set<Item>, t: nat) {
    exists x :: ShiftsOver(g, kernel, x) && t in SymbolCodes(x)
  }

  // What a state shifts on.
  lemma CodesExact(g: Grammar, lambda: Lambdas, first: Firsts, cs: Pool, states: seq<State>, s: nat, t: nat)
    requires Built(g, lambda, first, cs, states) && s < |states|
    ensures HasLookahead(states[s].ap, t) <==> ShiftsCode(g, Kernel(cs, states, s), t)
  {
    hide Built, ShiftsOver, Goto;
    if a :| a in states[s].ap && a.sp == t {
      var c := ShiftComesFrom(g, lambda, first, cs, states, s, a);
      ShiftsExact(g, lambda, first, cs, states, s, Next(g, ItemOf(cs, c)).value);
    }
    if x :| ShiftsOver(g, Kernel(cs, states, s), x) && t in SymbolCodes(x) {
      var to := ShiftOf(g, lambda, first, cs, states, s, x);
      assert HasShift(states[s].ap, t, to);
    }
  }

  // No state of the generator has two actions called for on a look-ahead if and only if the grammar is LALR(1).
  lemma UnclashedIsLalr1(g: Grammar, lambda: Lambdas, first: Firsts, cs: Pool, states: seq<State>, linked: Pool,
                         followed: Pool)
    requires Analyzed(g, lambda, first, cs, states, linked, followed) && FirstExact(g, lambda, first)
    ensures (forall s: nat | s < |states| :: Unclashed(g, followed, states[s])) <==> Lalr1(g)
  {
    hide Analyzed, FirstExact, Unclashed, NoClash, InCollection, Built;
    AnalyzedBuilt(g, lambda, first, cs, states, linked, followed);
    if forall s: nat | s < |states| :: Unclashed(g, followed, states[s]) {
      forall kernel | InCollection(g, kernel) ensures NoClash(g, kernel) {
        var s := KernelState(g, lambda, first, cs, states, kernel);
        ClashesExact(g, lambda, first, cs, states, linked, followed, s);
      }
    }
    if Lalr1(g) {
      forall s: nat | s < |states| ensures Unclashed(g, followed, states[s]) {
        StateKernel(g, lambda, first, cs, states, s);
        ClashesExact(g, lambda, first, cs, states, linked, followed, s);
      }
    }
  }
}

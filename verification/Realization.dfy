/** The rows that the generator arrives at are those of the LALR(1) automaton; where a look-ahead calls for several
  actions, one of them is there. */
module Realization {
  import opened Options
  import opened Grammars
  import opened FirstSets
  import opened Automata
  import opened Configs
  import opened ActionLists
  import opened Resolve
  import opened Collection
  import opened States
  import opened Canonical
  import opened Reductions
  import opened Compress
  import opened Report
  import opened Packing
  import opened Emission
  import opened Soundness
  import opened Sufficiency
  import opened Lalr
  import opened Propagation
  import opened Clashes

  ghost function KernelsByNumber(cs: Pool, states: seq<State>, order: seq<nat>): (r: seq<set<Item>>)
    ensures |r| == |order|
  {
    seq(|order|, k requires 0 <= k < |order| => if order[k] < |states| then Kernel(cs, states, order[k]) else {})
  }

  lemma KernelAt(cs: Pool, states: seq<State>, order: seq<nat>, num: seq<nat>, s: nat)
    requires Numbering(order, num) && |order| == |states| && s < |states|
    ensures num[s] < |order| && order[num[s]] == s
      && KernelsByNumber(cs, states, order)[num[s]] == Kernel(cs, states, s)
    ensures num[s] == 0 <==> s == 0
  {
    assert order[0] == 0;
  }

  // What is alive is called for.
  lemma LiveCalls(g: Grammar, lambda: Lambdas, first: Firsts, cs: Pool, states: seq<State>, linked: Pool,
                  followed: Pool, s: nat, resolved: seq<Action>, a: Action, order: seq<nat>, num: seq<nat>)
    requires Analyzed(g, lambda, first, cs, states, linked, followed) && FirstExact(g, lambda, first) && s < |states|
    requires Finished(g, followed, states[s], s == 0, resolved) && a in resolved && Live(a)
    requires Numbering(order, num) && |order| == |states|
    ensures num[s] < |order| && CallsFor(g, KernelsByNumber(cs, states, order), num[s], a.sp, RenameAct(num, ActOf(a)))
  {
    hide Analyzed, FirstExact, Built, Reduces, ShiftsOver, Goto, CallsForReduce, Deterministic, KernelsByNumber, Kernel;
    AnalyzedBuilt(g, lambda, first, cs, states, linked, followed);
    KernelAt(cs, states, order, num, s);
    assert Reductions.CalledFor(g, followed, states[s], s == 0, a);
    if a in states[s].ap {
      var to := ShiftLeads(g, lambda, first, cs, states, s, a);
      KernelAt(cs, states, order, num, a.x);
    } else if a.kind == REDUCE {
      ReducesExact(g, lambda, first, cs, states, linked, followed, s, a.x, a.sp);
    }
  }

  lemma ShiftLeads(g: Grammar, lambda: Lambdas, first: Firsts, cs: Pool, states: seq<State>, s: nat, a: Action)
    returns (to: nat)
    requires Built(g, lambda, first, cs, states) && s < |states| && a in states[s].ap
    ensures a.kind == SHIFT && to == a.x < |states| && Leads(g, Kernel(cs, states, s), a.sp, Kernel(cs, states, to))
  {
    hide Built, Goto, ShiftsOver;
    var c := ShiftComesFrom(g, lambda, first, cs, states, s, a);
    var x := Next(g, ItemOf(cs, c)).value;
    ShiftsExact(g, lambda, first, cs, states, s, x);
    StateKernel(g, lambda, first, cs, states, s);
    to := a.x;
    assert ShiftsOver(g, Kernel(cs, states, s), x) && Kernel(cs, states, to) == Goto(g, Kernel(cs, states, s), x);
  }

  // What is called for is served.
  lemma CallServed(g: Grammar, lambda: Lambdas, first: Firsts, cs: Pool, states: seq<State>, linked: Pool,
                   followed: Pool, s: nat, resolved: seq<Action>, code: nat, order: seq<nat>, num: seq<nat>)
    requires Analyzed(g, lambda, first, cs, states, linked, followed) && FirstExact(g, lambda, first) && s < |states|
    requires Finished(g, followed, states[s], s == 0, resolved) && Numbering(order, num) && |order| == |states|
    requires num[s] < |order| && Called(g, KernelsByNumber(cs, states, order), num[s], code)
    ensures Served(resolved, code)
  {
    hide Analyzed, FirstExact, Built, Reduces, ShiftsOver, Goto, CallsForReduce, Deterministic, KernelsByNumber, Kernel,
        Served;
    AnalyzedBuilt(g, lambda, first, cs, states, linked, followed);
    KernelAt(cs, states, order, num, s);
    var a :| CallsFor(g, KernelsByNumber(cs, states, order), num[s], code, a);
    match a
    case Shift(to) =>
      var x :| ShiftsOver(g, Kernel(cs, states, s), x) && code in SymbolCodes(x);
      var to' := ShiftOf(g, lambda, first, cs, states, s, x);
      assert HasShift(states[s].ap, code, to');
    case Reduce(r) => ReducesExact(g, lambda, first, cs, states, linked, followed, s, r, code);
    case Accept =>
  }

  // The answer of the final list on a symbol, by the kernels.
  lemma AnswerCalled(g: Grammar, lambda: Lambdas, first: Firsts, cs: Pool, states: seq<State>, linked: Pool,
                     followed: Pool, s: nat, resolved: seq<Action>, ap: seq<Action>, code: nat, order: seq<nat>,
                     num: seq<nat>)
    requires Analyzed(g, lambda, first, cs, states, linked, followed) && FirstExact(g, lambda, first) && s < |states|
    requires Finished(g, followed, states[s], s == 0, resolved) && Compressed(g, resolved, ap)
    requires Numbering(order, num) && |order| == |states| && code < g.nsymbol
    ensures num[s] < |order|
    ensures var kernels := KernelsByNumber(cs, states, order);
      if Called(g, kernels, num[s], code)
      then CallsFor(g, kernels, num[s], code,
             RenameAct(num, match Explicit(ap, code) case Some(a) => a case None => DefaultAct(g, ap)))
           && (code >= g.nterminal ==> Explicit(ap, code).Some?)
      else Explicit(ap, code).None?
  {
    hide Analyzed, FirstExact, CallsFor, KernelsByNumber, Finished, Compressed, Explicit, DefaultAct, Deterministic;
    KernelAt(cs, states, order, num, s);
    ExplicitMeans(resolved, code);
    if Served(resolved, code) {
      var a :| a in resolved && Live(a) && a.sp == code && Explicit(resolved, code) == Some(ActOf(a));
      LiveCalls(g, lambda, first, cs, states, linked, followed, s, resolved, a, order, num);
      CompressedAnswers(g, resolved, ap, code);
      if ActOf(a).Reduce? {
        ReducesTerminal(g, KernelsByNumber(cs, states, order), num[s], code, RenameAct(num, ActOf(a)));
      }
    } else {
      UnservedStays(g, resolved, ap, code);
      if Called(g, KernelsByNumber(cs, states, order), num[s], code) {
        CallServed(g, lambda, first, cs, states, linked, followed, s, resolved, code, order, num);
      }
    }
  }

  lemma ReducesTerminal(g: Grammar, kernels: seq<set<Item>>, k: nat, code: nat, a: Act)
    requires k < |kernels| && CallsFor(g, kernels, k, code, a) && a.Reduce?
    ensures code < g.nterminal
  {
  }

  lemma UnservedStays(g: Grammar, resolved: seq<Action>, ap: seq<Action>, code: nat)
    requires Compressed(g, resolved, ap) && code < g.nsymbol && Explicit(resolved, code).None?
    ensures Explicit(ap, code).None?
  {
    hide Explicit, Deterministic;
  }

  // The default is an error, or a reduction the state calls for.
  lemma DefaultCalled(g: Grammar, lambda: Lambdas, first: Firsts, cs: Pool, states: seq<State>, linked: Pool,
                      followed: Pool, s: nat, resolved: seq<Action>, ap: seq<Action>)
    requires Analyzed(g, lambda, first, cs, states, linked, followed) && FirstExact(g, lambda, first) && s < |states|
    requires Finished(g, followed, states[s], s == 0, resolved) && Compressed(g, resolved, ap)
    ensures match DefaultAct(g, ap)
            case Error => true
            case Reduce(r) => r < |g.rules| && g.rules[r].lhs != g.start
                && exists t: nat :: Reduces(g, Kernel(cs, states, s), r, t)
            case _ => false
  {
    hide Analyzed, FirstExact, Built, Explicit, CallsForReduce, Reduces, Deterministic, Kernel;
    if Explicit(ap, g.nsymbol).Some? {
      var a := DefaultComesFrom(g, lambda, first, cs, states, linked, followed, s, resolved, ap);
      assert Reductions.CalledFor(g, followed, states[s], s == 0, a);
      AnalyzedBuilt(g, lambda, first, cs, states, linked, followed);
      if a in states[s].ap { var c := ShiftComesFrom(g, lambda, first, cs, states, s, a); }
      ReducesExact(g, lambda, first, cs, states, linked, followed, s, a.x, a.sp);
      assert Reduces(g, Kernel(cs, states, s), a.x, a.sp);
    }
  }

  lemma DefaultComesFrom(g: Grammar, lambda: Lambdas, first: Firsts, cs: Pool, states: seq<State>, linked: Pool,
                         followed: Pool, s: nat, resolved: seq<Action>, ap: seq<Action>) returns (a: Action)
    requires Analyzed(g, lambda, first, cs, states, linked, followed) && s < |states|
    requires Finished(g, followed, states[s], s == 0, resolved) && Compressed(g, resolved, ap)
      && Explicit(ap, g.nsymbol).Some?
    ensures a in resolved && a.kind == REDUCE && DefaultAct(g, ap) == Reduce(a.x) && !IsStartRule(g, a.x)
    ensures a.x < |g.rules|
  {
    hide Analyzed, Explicit, Deterministic;
    if ap == resolved {
      ExplicitMeans(resolved, g.nsymbol);
      var b :| b in resolved && Live(b) && b.sp == g.nsymbol;
      LiveOnSymbol(g, lambda, first, cs, states, linked, followed, s, resolved, b);
      assert false;
    } else {
      var best: nat :| CompressedBy(resolved, ap, best, g.nsymbol) && !IsStartRule(g, best)
          && exists b <- resolved :: IsReduceBy(b, best);
      a :| a in resolved && IsReduceBy(a, best);
      assert Reductions.CalledFor(g, followed, states[s], s == 0, a);
      ReduceCalled(g, lambda, first, cs, states, linked, followed, s, a);
    }
  }

  lemma ReduceCalled(g: Grammar, lambda: Lambdas, first: Firsts, cs: Pool, states: seq<State>, linked: Pool,
                     followed: Pool, s: nat, a: Action)
    requires Analyzed(g, lambda, first, cs, states, linked, followed) && s < |states|
    requires Reductions.CalledFor(g, followed, states[s], s == 0, a) && a.kind == REDUCE
    ensures a.x < |g.rules|
  {
    hide Analyzed, Built;
    AnalyzedBuilt(g, lambda, first, cs, states, linked, followed);
    if a in states[s].ap { var c := ShiftComesFrom(g, lambda, first, cs, states, s, a); }
  }

  lemma RowRealized(g: Grammar, lambda: Lambdas, first: Firsts, cs: Pool, states: seq<State>, linked: Pool,
                    followed: Pool, s: nat, resolved: seq<Action>, ap: seq<Action>, order: seq<nat>, num: seq<nat>)
    requires Analyzed(g, lambda, first, cs, states, linked, followed) && FirstExact(g, lambda, first) && s < |states|
    requires Finished(g, followed, states[s], s == 0, resolved) && Compressed(g, resolved, ap)
    requires Numbering(order, num) && |order| == |states|
    ensures num[s] < |order| && RealizesRow(g, KernelsByNumber(cs, states, order), num[s], RowOf(g, ap, num))
  {
    hide Analyzed, FirstExact, CallsFor, KernelsByNumber, Kernel, Finished, Compressed, Explicit, DefaultAct, Called,
        Reduces;
    KernelAt(cs, states, order, num, s);
    DefaultCalled(g, lambda, first, cs, states, linked, followed, s, resolved, ap);
    var kernels, row := KernelsByNumber(cs, states, order), RowOf(g, ap, num);
    forall code: nat | code < g.nsymbol
      ensures code < g.nterminal ==>
        if Called(g, kernels, num[s], code) then CallsFor(g, kernels, num[s], code, TerminalAct(row, code))
            else code !in row.onTerminal
      ensures g.nterminal <= code ==>
        if Called(g, kernels, num[s], code) then code in row.onNonterminal
            && CallsFor(g, kernels, num[s], code, row.onNonterminal[code])
        else code !in row.onNonterminal
    {
      AnswerCalled(g, lambda, first, cs, states, linked, followed, s, resolved, ap, code, order, num);
    }
    assert kernels[num[s]] == Kernel(cs, states, s) && row.otherwise == DefaultAct(g, ap);
    assert g.nterminal <= g.nsymbol by { TerminalsFirst(g, lambda, first, cs, states, linked, followed); }
  }

  lemma TerminalsFirst(g: Grammar, lambda: Lambdas, first: Firsts, cs: Pool, states: seq<State>, linked: Pool,
                       followed: Pool)
    requires Analyzed(g, lambda, first, cs, states, linked, followed)
    ensures g.nterminal <= g.nsymbol
  {
  }

  // The rows realize the LALR(1) automaton.
  lemma RowsRealized(g: Grammar, lambda: Lambdas, first: Firsts, cs: Pool, states: seq<State>, linked: Pool,
                     followed: Pool, resolved: seq<seq<Action>>, aps: seq<seq<Action>>, order: seq<nat>, num: seq<nat>)
    requires Analyzed(g, lambda, first, cs, states, linked, followed) && FirstExact(g, lambda, first)
    requires FinalActions(g, followed, states, resolved, aps) && Numbering(order, num) && |order| == |states|
    ensures forall k | 0 <= k < |order| :: order[k] < |aps|
    ensures Realizes(g, KernelsByNumber(cs, states, order), RowsOf(g, aps, order, num))
  {
    hide Analyzed, FirstExact, Finished, Compressed, RealizesRow, Kernel, InCollection, RowOf, Built;
    AnalyzedBuilt(g, lambda, first, cs, states, linked, followed);
    FirstKernel(g, lambda, first, cs, states);
    var kernels := KernelsByNumber(cs, states, order);
    forall k: nat | k < |order| ensures order[k] < |aps| && RealizesRow(g, kernels, k, RowOf(g, aps[order[k]], num)) {
      RowRealized(g, lambda, first, cs, states, linked, followed, order[k], resolved[order[k]], aps[order[k]], order,
          num);
    }
    forall i, j | 0 <= i < j < |kernels| ensures kernels[i] != kernels[j] {
      if kernels[i] == kernels[j] { SameKernel(g, lambda, first, cs, states, order[i], order[j]); }
    }
    forall kernel ensures kernel in kernels <==> InCollection(g, kernel) {
      if kernel in kernels {
        var k :| 0 <= k < |kernels| && kernels[k] == kernel;
        StateKernel(g, lambda, first, cs, states, order[k]);
      }
      if InCollection(g, kernel) {
        var s := KernelState(g, lambda, first, cs, states, kernel);
        KernelAt(cs, states, order, num, s);
      }
    }
  }
}

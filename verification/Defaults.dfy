/** Default reductions do not change what is accepted, whatever the grammar: a token that a state has no action for can
  come next behind no stack that ends there, so no chain of defaults leads to its being shifted. */
module Defaults {
  import opened Options
  import opened Grammars
  import opened FirstSets
  import opened Automata
  import opened ActionLists
  import opened States
  import opened Canonical
  import opened Lalr
  import opened Contexts
  import opened Completeness
  import Lempar

  // ---- what can come next behind a prefix ----

  // The part of the rule behind the dot.
  function Remaining(g: Grammar, it: Item): seq<Symbol> {
    if ValidItem(g, it) then g.rules[it.rule].rhs[it.dot..] else []
  }

  ghost predicate CanCome(g: Grammar, prefix: seq<Symbol>, t: nat) {
    exists it, outer, rest, n: nat ::
      InContext(g, prefix, it, outer, rest, n) && CanBegin(g, Remaining(g, it) + rest, t)
  }

  // Whatever is expected behind a symbol is derived from what follows this symbol in its rule.
  lemma {:induction false} BehindLast(g: Grammar, prefix: seq<Symbol>, A: nat, after: seq<Symbol>, n: nat)
    returns (it: Item, outer: seq<Symbol>, rest: seq<Symbol>, m: nat)
    requires Expected(g, prefix, A, after, n) && prefix != []
    ensures InContext(g, prefix, it, outer, rest, m) && it.dot > 0
    ensures Derives(g, Remaining(g, it) + rest, [N(A)] + after)
    decreases n
  {
    hide Derives, Expected;
    if n == 0 { ExpectedStart(g, prefix, A, after); }
    var it0, outer0, rest0 := ExpectedBack(g, prefix, A, after, n);
    assert Remaining(g, it0) + rest0 == [N(A)] + after by { NextFirst(g, it0, rest0); }
    if it0.dot > 0 {
      it, outer, rest, m := it0, outer0, rest0, n - 1;
      DerivesRefl(g, [N(A)] + after);
    } else {
      assert outer0 == prefix && Remaining(g, it0) == g.rules[it0.rule].rhs;
      it, outer, rest, m := BehindLast(g, outer0, g.rules[it0.rule].lhs, rest0, n - 1);
      RuleInContext(g, it0.rule, rest0);
      DerivesTrans(g, Remaining(g, it) + rest, [N(g.rules[it0.rule].lhs)] + rest0, [N(A)] + after);
    }
  }

  lemma NextFirst(g: Grammar, it: Item, rest: seq<Symbol>)
    requires ValidItem(g, it) && Next(g, it).Some?
    ensures Remaining(g, it) + rest == [Next(g, it).value] + (Rest(g, it) + rest)
  {
    assert Remaining(g, it) == [Next(g, it).value] + Rest(g, it);
  }

  // What comes next behind a nonterminal can follow it where it is expected.
  lemma ComesBehind(g: Grammar, prefix: seq<Symbol>, A: nat, t: nat) returns (rest: seq<Symbol>, n: nat)
    requires CanCome(g, prefix + [N(A)], t)
    ensures Expected(g, prefix, A, rest, n) && CanBegin(g, rest, t) && n > 0
  {
    hide CanBegin, Expected;
    var longer := prefix + [N(A)];
    var it, outer, rest0, n0: nat :|
      InContext(g, longer, it, outer, rest0, n0) && CanBegin(g, Remaining(g, it) + rest0, t);
    if it.dot == 0 {
      assert outer == longer && Remaining(g, it) == g.rules[it.rule].rhs;
      var it1, outer1, rest1, n1 := BehindLast(g, longer, g.rules[it.rule].lhs, rest0, n0);
      RuleInContext(g, it.rule, rest0);
      BeginsEarlier(g, [N(g.rules[it.rule].lhs)] + rest0, Remaining(g, it) + rest0, t);
      BeginsEarlier(g, Remaining(g, it1) + rest1, [N(g.rules[it.rule].lhs)] + rest0, t);
      rest, n := ExpectedOneBack(g, prefix, A, it1, outer1, rest1, n1);
    } else {
      rest, n := ExpectedOneBack(g, prefix, A, it, outer, rest0, n0);
    }
  }

  lemma ExpectedOneBack(g: Grammar, prefix: seq<Symbol>, A: nat, it: Item, outer: seq<Symbol>, rest0: seq<Symbol>,
                        n0: nat)
    returns (rest: seq<Symbol>, n: nat)
    requires InContext(g, prefix + [N(A)], it, outer, rest0, n0) && it.dot > 0
    ensures rest == Remaining(g, it) + rest0 && Expected(g, prefix, A, rest, n) && n > 0
  {
    hide Expected;
    var from := Item(it.rule, it.dot - 1);
    rest, n := Remaining(g, it) + rest0, n0 + 1;
    var rhs := g.rules[it.rule].rhs;
    assert rhs[..it.dot] == rhs[..it.dot - 1] + [rhs[it.dot - 1]];
    assert (prefix + [N(A)])[..|prefix|] == prefix && (prefix + [N(A)])[|prefix|] == N(A);
    assert (outer + Past(g, it))[..|prefix|] == outer + Past(g, from);
    assert (outer + Past(g, it))[|prefix|] == rhs[it.dot - 1];
    assert Introduces(g, from, outer, rest0, prefix, A, rest);
    ExpectedNext(g, from, outer, rest0, n0, prefix, A, rest);
  }

  // ---- stacks ----

  // The states of the stack are those that a prefix leads through.
  ghost predicate Traced(g: Grammar, kernels: seq<set<Item>>, stack: seq<Lempar.Entry>, prefix: seq<Symbol>) {
    && |stack| == |prefix| + 1
    && forall i: nat | i < |stack| ::
         stack[i].stateno < |kernels| && kernels[stack[i].stateno] == GotoAll(g, prefix[..i])
  }

  lemma TracedTop(g: Grammar, kernels: seq<set<Item>>, stack: seq<Lempar.Entry>, prefix: seq<Symbol>)
    requires Traced(g, kernels, stack, prefix)
    ensures stack[|stack| - 1].stateno < |kernels| && kernels[stack[|stack| - 1].stateno] == GotoAll(g, prefix)
  {
    assert prefix[..|prefix|] == prefix;
  }

  lemma TracedPush(g: Grammar, kernels: seq<set<Item>>, stack: seq<Lempar.Entry>, prefix: seq<Symbol>,
                   e: Lempar.Entry, x: Symbol)
    requires Traced(g, kernels, stack, prefix)
    requires e.stateno < |kernels| && kernels[e.stateno] == Goto(g, GotoAll(g, prefix), x)
    ensures Traced(g, kernels, stack + [e], prefix + [x])
  {
    hide Goto, GotoAll;
    GotoSnoc(g, prefix, x);
    var longer := prefix + [x];
    forall i: nat | i < |stack + [e]|
      ensures (stack + [e])[i].stateno < |kernels| && kernels[(stack + [e])[i].stateno] == GotoAll(g, longer[..i])
    {
      if i < |stack| { assert longer[..i] == prefix[..i]; } else { assert longer[..i] == longer; }
    }
  }

  lemma TracedPop(g: Grammar, kernels: seq<set<Item>>, stack: seq<Lempar.Entry>, prefix: seq<Symbol>, m: nat)
    requires Traced(g, kernels, stack, prefix) && m <= |prefix|
    ensures Traced(g, kernels, stack[..m + 1], prefix[..m])
  {
    hide GotoAll;
    forall i: nat | i < m + 1 ensures prefix[..m][..i] == prefix[..i] {}
  }

  // All items of the state a prefix leads to are met there.
  lemma {:induction false} PrefixLed(g: Grammar, prefix: seq<Symbol>)
    ensures Led(g, GotoAll(g, prefix), prefix)
    decreases |prefix|
  {
    hide Led, Goto;
    if prefix == [] {
      StartLed(g);
    } else {
      var n := |prefix| - 1;
      var kernel := GotoAll(g, prefix[..n]);
      PrefixLed(g, prefix[..n]);
      assert kernel <= AllItems(g) by { LedItems(g, kernel, prefix[..n]); }
      ClosureOfIs(g, kernel);
      NextLed(g, kernel, prefix[..n], ClosureOf(g, kernel), prefix[n]);
      ClosureIs(g, kernel, ClosureOf(g, kernel));
      assert prefix[..n] + [prefix[n]] == prefix;
    }
  }

  lemma LedItems(g: Grammar, kernel: set<Item>, prefix: seq<Symbol>)
    requires Led(g, kernel, prefix)
    ensures kernel <= AllItems(g)
  {
  }

  lemma ItemMet(g: Grammar, prefix: seq<Symbol>, it: Item)
    requires InClosure(g, GotoAll(g, prefix), it)
    ensures Meets(g, prefix, it)
  {
    hide Meets, GotoAll, InClosure;
    PrefixLed(g, prefix);
    ClosureMet(g, GotoAll(g, prefix), prefix, it);
  }

  // ---- one action ----

  // The same row but for the default, which the first one has not.
  ghost predicate SameButDefault(g: Grammar, plain: StateRow, row: StateRow) {
    && plain.otherwise == Error && plain.onNonterminal == row.onNonterminal
    && forall t: nat | t < g.nterminal && TerminalAct(plain, t) != Error :: TerminalAct(row, t) == TerminalAct(plain, t)
  }

  ghost predicate SameButDefaults(g: Grammar, plain: seq<StateRow>, rows: seq<StateRow>) {
    |plain| == |rows| && forall k: nat | k < |plain| :: SameButDefault(g, plain[k], rows[k])
  }

  ghost predicate Setting(g: Grammar, kernels: seq<set<Item>>, plain: seq<StateRow>, rows: seq<StateRow>) {
    && g.WellFormed() && g.StartNotOnRhs()
    && Realizes(g, kernels, plain) && Realizes(g, kernels, rows) && SameButDefaults(g, plain, rows)
  }

  // An action called for is in both; one that is not is a default reduction, and not by a start rule.
  lemma ActSame(g: Grammar, kernels: seq<set<Item>>, plain: seq<StateRow>, rows: seq<StateRow>, k: nat, la: nat)
    requires Setting(g, kernels, plain, rows) && k < |kernels| && la < g.nterminal
    ensures k < |rows| == |plain|
    ensures Called(g, kernels, k, la) ==>
      TerminalAct(plain[k], la) == TerminalAct(rows[k], la) && CallsFor(g, kernels, k, la, TerminalAct(rows[k], la))
    ensures !Called(g, kernels, k, la) ==>
      match TerminalAct(rows[k], la)
      case Reduce(r) => r < |g.rules| && g.rules[r].lhs != g.start && exists t: nat :: Reduces(g, kernels[k], r, t)
      case Error => true
      case _ => false
  {
    hide CallsFor, Called, Reduces, InCollection;
    assert RealizesRow(g, kernels, k, plain[k]) && RealizesRow(g, kernels, k, rows[k]);
    assert SameButDefault(g, plain[k], rows[k]);
    if Called(g, kernels, k, la) { CallsSomething(g, kernels, k, la, TerminalAct(plain[k], la)); }
  }

  lemma CallsSomething(g: Grammar, kernels: seq<set<Item>>, k: nat, code: nat, a: Act)
    requires k < |kernels| && CallsFor(g, kernels, k, code, a)
    ensures a != Error && Called(g, kernels, k, code)
  {
    hide Leads, Reduces;
  }

  // Which symbol is shifted.
  lemma ShiftOver(g: Grammar, kernels: seq<set<Item>>, k: nat, code: nat, to: nat) returns (x: Symbol)
    requires g.WellFormed() && k < |kernels| && CallsFor(g, kernels, k, code, Shift(to))
    ensures to < |kernels| && ShiftsOver(g, kernels[k], x) && kernels[to] == Goto(g, kernels[k], x)
    ensures code in SymbolCodes(x) && (code >= g.nterminal ==> x == N(code)) && (code < g.nterminal ==> !x.N?)
  {
    hide InClosure, Goto;
    x :| ShiftsOver(g, kernels[k], x) && code in SymbolCodes(x) && kernels[to] == Goto(g, kernels[k], x);
    var it :| InClosure(g, kernels[k], it) && Next(g, it) == Some(x);
    assert g.rules[it.rule] in g.rules && x in g.rules[it.rule].rhs;
    assert g.ValidSymbol(x);
  }

  // What a state shifts can come next there.
  lemma ShiftedComes(g: Grammar, prefix: seq<Symbol>, x: Symbol, t: nat)
    requires ShiftsOver(g, GotoAll(g, prefix), x) && t in SymbolCodes(x) && !x.N?
    ensures CanCome(g, prefix, t)
  {
    hide InClosure, GotoAll, CanBegin, InContext, Expected;
    var it :| InClosure(g, GotoAll(g, prefix), it) && Next(g, it) == Some(x);
    ItemMet(g, prefix, it);
    var outer, rest, n: nat :| InContext(g, prefix, it, outer, rest, n);
    SymbolBegins(g, x, Rest(g, it) + rest, t);
    assert ValidItem(g, it) by { ContextValid(g, prefix, it, outer, rest, n); }
    NextFirst(g, it, rest);
  }

  lemma ContextValid(g: Grammar, prefix: seq<Symbol>, it: Item, outer: seq<Symbol>, rest: seq<Symbol>, n: nat)
    requires InContext(g, prefix, it, outer, rest, n)
    ensures ValidItem(g, it) && prefix == outer + Past(g, it) && Expected(g, outer, g.rules[it.rule].lhs, rest, n)
  {
  }

  // A complete rule on top of the stack: what is below it, and what it takes for t to call for its reduction.
  lemma CompleteOnTop(g: Grammar, prefix: seq<Symbol>, r: nat, t: nat)
    requires Reduces(g, GotoAll(g, prefix), r, t)
    ensures r < |g.rules| && |g.rules[r].rhs| <= |prefix|
    ensures prefix == prefix[..|prefix| - |g.rules[r].rhs|] + g.rules[r].rhs
  {
    hide GotoAll, Expected, CanBegin;
    var it := Item(r, |g.rules[r].rhs|);
    assert InClosure(g, GotoAll(g, prefix), it) by { LookInClosure(g, GotoAll(g, prefix), it, t); }
    ItemMet(g, prefix, it);
    var outer, rest, n: nat :| InContext(g, prefix, it, outer, rest, n);
    assert Past(g, it) == g.rules[r].rhs && prefix == outer + g.rules[r].rhs;
  }

  lemma LookInClosure(g: Grammar, kernel: set<Item>, it: Item, t: nat)
    requires LookAhead(g, kernel, it, t)
    ensures InClosure(g, kernel, it) && InCollection(g, kernel)
  {
    hide InClosure, InCollection;
  }

  // Behind its rule: the reduction is called for.
  lemma ReductionCalled(g: Grammar, prefix: seq<Symbol>, below: seq<Symbol>, r: nat, rest: seq<Symbol>, n: nat, t: nat)
    requires r < |g.rules| && prefix == below + g.rules[r].rhs && t < g.nterminal
    requires Expected(g, below, g.rules[r].lhs, rest, n) && CanBegin(g, rest, t)
    ensures Reduces(g, GotoAll(g, prefix), r, t) && CanCome(g, prefix, t)
  {
    hide GotoAll, Expected, CanBegin, LookAhead;
    var it := Item(r, |g.rules[r].rhs|);
    assert Past(g, it) == g.rules[r].rhs;
    assert InContext(g, prefix, it, below, rest, n);
    assert Remaining(g, it) + rest == rest;
    MetIsLook(g, prefix, it, t);
  }

  // ---- runs ----

  lemma ReducesOnly(g: Grammar, rows: seq<StateRow>, stack: seq<Lempar.Entry>, r: nat)
    ensures !Lempar.ReduceStack(g, rows, stack, r).Shifted?
  {
  }

  // A rule whose reduction the state on top calls for somewhere: its right-hand side is the end of the prefix.
  lemma Reduction(g: Grammar, kernels: seq<set<Item>>, plain: seq<StateRow>, rows: seq<StateRow>,
                  stack: seq<Lempar.Entry>, prefix: seq<Symbol>, la: nat, r: nat)
    returns (below: seq<Symbol>)
    requires Setting(g, kernels, plain, rows) && Traced(g, kernels, stack, prefix) && la < g.nterminal
    requires var k := stack[|stack| - 1].stateno; k < |rows| && TerminalAct(rows[k], la) == Reduce(r)
    requires Lempar.ReduceStack(g, rows, stack, r).Reduced?
    ensures r < |g.rules| && prefix == below + g.rules[r].rhs
    ensures exists kernel, t: nat :: Reduces(g, kernel, r, t)
    ensures Traced(g, kernels, Lempar.ReduceStack(g, rows, stack, r).stack, below + [N(g.rules[r].lhs)])
    ensures Lempar.ReduceStack(g, plain, stack, r) == Lempar.ReduceStack(g, rows, stack, r)
  {
    hide GotoAll, Reduces, Called, Realizes, CallsFor, SameButDefaults, Lempar.ReduceStack;
    var k := stack[|stack| - 1].stateno;
    TracedTop(g, kernels, stack, prefix);
    ActSame(g, kernels, plain, rows, k, la);
    assert exists t: nat :: Reduces(g, kernels[k], r, t) by {
      if Called(g, kernels, k, la) { CalledReduces(g, kernels, k, la, r); }
    }
    var t: nat :| Reduces(g, kernels[k], r, t);
    CompleteOnTop(g, prefix, r, t);
    below := prefix[..|prefix| - |g.rules[r].rhs|];
    GotoTraced(g, kernels, rows, stack, prefix, r, below);
    GotosSame(g, plain, rows, stack, r);
  }

  lemma CalledReduces(g: Grammar, kernels: seq<set<Item>>, k: nat, la: nat, r: nat)
    requires k < |kernels| && CallsFor(g, kernels, k, la, Reduce(r))
    ensures Reduces(g, kernels[k], r, la)
  {
    hide Reduces;
  }

  lemma GotosSame(g: Grammar, plain: seq<StateRow>, rows: seq<StateRow>, stack: seq<Lempar.Entry>, r: nat)
    requires SameButDefaults(g, plain, rows)
    ensures Lempar.ReduceStack(g, plain, stack, r) == Lempar.ReduceStack(g, rows, stack, r)
  {
    hide TerminalAct;
  }

  // The goto after a reduction.
  lemma GotoTraced(g: Grammar, kernels: seq<set<Item>>, rows: seq<StateRow>, stack: seq<Lempar.Entry>,
                   prefix: seq<Symbol>, r: nat, below: seq<Symbol>)
    requires g.WellFormed() && Realizes(g, kernels, rows) && Traced(g, kernels, stack, prefix) && r < |g.rules|
    requires prefix == below + g.rules[r].rhs && Lempar.ReduceStack(g, rows, stack, r).Reduced?
    ensures Traced(g, kernels, Lempar.ReduceStack(g, rows, stack, r).stack, below + [N(g.rules[r].lhs)])
  {
    hide GotoAll, Reduces, Called, RealizesRow, InCollection, Goto, CallsFor;
    var m := |below|;
    assert prefix[..m] == below;
    TracedPop(g, kernels, stack, prefix, m);
    TracedTop(g, kernels, stack[..m + 1], below);
    var s, A := stack[m].stateno, g.rules[r].lhs;
    assert stack[..m + 1][m] == stack[m] && |stack| - |g.rules[r].rhs| == m + 1;
    GotoCalled(g, kernels, rows, s, A, r);
    var to := rows[s].onNonterminal[A].state;
    var x := ShiftOver(g, kernels, s, A, to);
    TracedPush(g, kernels, stack[..m + 1], below, Lempar.Entry(to, A), x);
  }

  lemma GotoCalled(g: Grammar, kernels: seq<set<Item>>, rows: seq<StateRow>, s: nat, A: nat, r: nat)
    requires g.WellFormed() && Realizes(g, kernels, rows) && s < |rows| && r < |g.rules| && A == g.rules[r].lhs
    requires A in rows[s].onNonterminal
    ensures g.nterminal <= A && CallsFor(g, kernels, s, A, rows[s].onNonterminal[A])
  {
    hide CallsFor, Called, Reduces, InCollection;
    assert g.rules[r] in g.rules && RealizesRow(g, kernels, s, rows[s]);
  }

  // Where a token is read in the end, by whatever chain of reductions, it can come next, and no default was used.
  lemma {:induction false} ReadSame(g: Grammar, kernels: seq<set<Item>>, plain: seq<StateRow>, rows: seq<StateRow>,
                                    stack: seq<Lempar.Entry>, prefix: seq<Symbol>, la: nat, fuel: nat)
    requires Setting(g, kernels, plain, rows) && Traced(g, kernels, stack, prefix) && la < g.nterminal
    requires var res := Lempar.RunToken(g, rows, stack, la, fuel); res.Shifted? || res.Accepted?
    ensures CanCome(g, prefix, la)
    ensures Lempar.RunToken(g, plain, stack, la, fuel) == Lempar.RunToken(g, rows, stack, la, fuel)
    ensures var res := Lempar.RunToken(g, rows, stack, la, fuel);
      res.Shifted? ==> exists longer :: Traced(g, kernels, res.stack, longer)
    decreases fuel
  {
    hide Realizes, SameButDefaults, Traced, CanCome, GotoAll, Called, Reduces, Lempar.ReduceStack;
    TracedTop(g, kernels, stack, prefix);
    var k := stack[|stack| - 1].stateno;
    ActSame(g, kernels, plain, rows, k, la);
    match TerminalAct(rows[k], la)
    case Shift(to) =>
      ShiftReads(g, kernels, stack, prefix, la, to);
    case Reduce(r) =>
      var one := Lempar.ReduceStack(g, rows, stack, r);
      ReducesOnly(g, rows, stack, r);
      if one.Reduced? {
        var below := Reduction(g, kernels, plain, rows, stack, prefix, la, r);
        ReadSame(g, kernels, plain, rows, one.stack, below + [N(g.rules[r].lhs)], la, fuel - 1);
        var rest, n := ComesBehind(g, below, g.rules[r].lhs, la);
        ReductionCalled(g, prefix, below, r, rest, n, la);
        ReducesCalled(g, kernels, k, r, la);
      } else {
        AcceptReads(g, kernels, plain, rows, stack, prefix, la, r);
      }
    case _ =>
  }

  lemma ReducesCalled(g: Grammar, kernels: seq<set<Item>>, k: nat, r: nat, t: nat)
    requires k < |kernels| && Reduces(g, kernels[k], r, t)
    ensures Called(g, kernels, k, t)
  {
    hide Reduces;
    assert CallsFor(g, kernels, k, t, Reduce(r));
  }

  lemma ShiftReads(g: Grammar, kernels: seq<set<Item>>, stack: seq<Lempar.Entry>, prefix: seq<Symbol>, la: nat, to: nat)
    requires g.WellFormed() && Traced(g, kernels, stack, prefix) && la < g.nterminal
    requires CallsFor(g, kernels, stack[|stack| - 1].stateno, la, Shift(to))
    ensures CanCome(g, prefix, la) && exists longer :: Traced(g, kernels, stack + [Lempar.Entry(to, la)], longer)
  {
    hide GotoAll, CanCome, ShiftsOver, Goto, Leads;
    TracedTop(g, kernels, stack, prefix);
    var x := ShiftOver(g, kernels, stack[|stack| - 1].stateno, la, to);
    ShiftedComes(g, prefix, x, la);
    TracedPush(g, kernels, stack, prefix, Lempar.Entry(to, la), x);
  }

  lemma NeverStart(g: Grammar, it: Item)
    requires g.StartNotOnRhs()
    ensures Next(g, it) != Some(N(g.start))
  {
    if Next(g, it).Some? { assert g.rules[it.rule] in g.rules && Next(g, it).value in g.rules[it.rule].rhs; }
  }

  // The start symbol is expected at the beginning only, before `$`.
  lemma StartExpected(g: Grammar, before: seq<Symbol>, after: seq<Symbol>, n: nat)
    requires g.StartNotOnRhs() && Expected(g, before, g.start, after, n)
    ensures before == [] && after == [T(0)]
  {
    forall it: Item { NeverStart(g, it); }
  }

  lemma StartLooks(g: Grammar, kernel: set<Item>, it: Item, t: nat)
    requires g.StartNotOnRhs() && LookAhead(g, kernel, it, t) && ValidItem(g, it) && g.rules[it.rule].lhs == g.start
    ensures t == 0
  {
    hide LookAhead, Expected, CanBegin, GotoAll;
    LookaheadsAreContexts(g, kernel, it, t);
    var prefix :| GotoAll(g, prefix) == kernel && MeetsBefore(g, prefix, it, t);
    var outer, rest, n: nat :| InContext(g, prefix, it, outer, rest, n) && CanBegin(g, rest, t);
    StartExpected(g, outer, rest, n);
    OnlyFirst(g, t);
  }

  // Only the empty prefix leads to the first state.
  lemma OnlyEmpty(g: Grammar, prefix: seq<Symbol>, r: nat)
    requires GotoAll(g, prefix) == StartItems(g) && r < |g.rules| && g.rules[r].lhs == g.start
    ensures prefix == []
  {
    assert Item(r, 0) in StartItems(g);
  }

  // The accepting reduction is called for.
  lemma AcceptReads(g: Grammar, kernels: seq<set<Item>>, plain: seq<StateRow>, rows: seq<StateRow>,
                    stack: seq<Lempar.Entry>, prefix: seq<Symbol>, la: nat, r: nat)
    requires Setting(g, kernels, plain, rows) && Traced(g, kernels, stack, prefix) && la < g.nterminal
    requires var k := stack[|stack| - 1].stateno; k < |rows| && TerminalAct(rows[k], la) == Reduce(r)
    requires Lempar.ReduceStack(g, rows, stack, r).Accepted?
    ensures CanCome(g, prefix, la) && Lempar.ReduceStack(g, plain, stack, r).Accepted?
    ensures Called(g, kernels, stack[|stack| - 1].stateno, la)
  {
    hide GotoAll, Reduces, Called, InCollection, LookAhead, Goto, CanCome, Leads;
    var k := stack[|stack| - 1].stateno;
    TracedTop(g, kernels, stack, prefix);
    var m := |stack| - |g.rules[r].rhs| - 1;
    var s := stack[m].stateno;
    assert stack[..m + 1][m] == stack[m];
    GotoCalled(g, kernels, rows, s, g.rules[r].lhs, r);
    assert s == 0 && g.rules[r].lhs == g.start;
    ActSame(g, kernels, plain, rows, k, la);
    assert Reduces(g, kernels[k], r, la);
    CompleteOnTop(g, prefix, r, la);
    TracedPop(g, kernels, stack, prefix, m);
    TracedTop(g, kernels, stack[..m + 1], prefix[..m]);
    OnlyEmpty(g, prefix[..m], r);
    StartReduction(g, prefix, r, la);
  }

  lemma StartReduction(g: Grammar, prefix: seq<Symbol>, r: nat, t: nat)
    requires g.StartNotOnRhs() && Reduces(g, GotoAll(g, prefix), r, t) && prefix == g.rules[r].rhs
    requires g.rules[r].lhs == g.start
    ensures CanCome(g, prefix, t)
  {
    hide GotoAll, LookAhead, CanCome;
    StartLooks(g, GotoAll(g, prefix), Item(r, |g.rules[r].rhs|), t);
    DerivesRefl(g, [T(0)]);
    assert [T(0)] + [] == [T(0)];
    assert [] + g.rules[r].rhs == g.rules[r].rhs;
    assert Expected(g, [], g.start, [T(0)], 0);
    ReductionCalled(g, prefix, [], r, [T(0)], 0, t);
  }

  // ---- the other way round, and whole inputs ----

  // Without defaults whatever is read is read with them too.
  lemma {:induction false} PlainSame(g: Grammar, plain: seq<StateRow>, rows: seq<StateRow>, stack: seq<Lempar.Entry>,
                                     la: nat, fuel: nat)
    requires SameButDefaults(g, plain, rows) && la < g.nterminal
    requires var res := Lempar.RunToken(g, plain, stack, la, fuel); res.Shifted? || res.Accepted?
    ensures Lempar.RunToken(g, rows, stack, la, fuel) == Lempar.RunToken(g, plain, stack, la, fuel)
    decreases fuel
  {
    var one := Lempar.OneStep(g, plain, stack, la);
    if one.Reduced? { PlainSame(g, plain, rows, one.stack, la, fuel - 1); }
  }

  // Tokens that are thrown away are missing in the end.
  lemma {:induction false} KeptAll(g: Grammar, rows: seq<StateRow>, stack: seq<Lempar.Entry>, w: seq<nat>,
                                   kept: seq<nat>, fuel: nat)
    ensures var res := Lempar.RunInput(g, rows, stack, w, kept, fuel); res.Parsed? ==> |res.kept| <= |kept| + |w|
    decreases |w|
  {
    hide Lempar.RunToken;
    if w != [] {
      match Lempar.RunToken(g, rows, stack, w[0], fuel)
      case Shifted(st) => KeptAll(g, rows, st, w[1..], kept + [w[0]], fuel);
      case SyntaxError(st) => KeptAll(g, rows, st, w[1..], kept, fuel);
      case _ =>
    }
  }

  lemma {:induction false} InputSame(g: Grammar, kernels: seq<set<Item>>, plain: seq<StateRow>, rows: seq<StateRow>,
                                     stack: seq<Lempar.Entry>, prefix: seq<Symbol>, w: seq<nat>, kept: seq<nat>,
                                     fuel: nat)
    requires Setting(g, kernels, plain, rows) && Traced(g, kernels, stack, prefix) && Tokens(g, w)
    ensures Lempar.RunInput(g, rows, stack, w, kept, fuel) == Lempar.Parsed(kept + w)
       <==> Lempar.RunInput(g, plain, stack, w, kept, fuel) == Lempar.Parsed(kept + w)
    decreases |w|
  {
    hide Lempar.RunToken, Traced, Realizes, CanCome, SameButDefaults;
    var la := Cur(w);
    assert la < g.nterminal by { if w != [] { assert w[0] in w; } }
    var one, bare := Lempar.RunToken(g, rows, stack, la, fuel), Lempar.RunToken(g, plain, stack, la, fuel);
    if one.Shifted? || one.Accepted? { ReadSame(g, kernels, plain, rows, stack, prefix, la, fuel); }
    if bare.Shifted? || bare.Accepted? { PlainSame(g, plain, rows, stack, la, fuel); }
    if w != [] {
      assert kept + [w[0]] + w[1..] == kept + w;
      if one.Shifted? {
        var longer :| Traced(g, kernels, one.stack, longer);
        forall x | x in w[1..] ensures x in w {}
        InputSame(g, kernels, plain, rows, one.stack, longer, w[1..], kept + [w[0]], fuel);
      }
      if one.SyntaxError? { KeptAll(g, rows, one.stack, w[1..], kept, fuel); }
      if bare.SyntaxError? { KeptAll(g, plain, bare.stack, w[1..], kept, fuel); }
    } else {
      assert kept + w == kept;
    }
  }

  // Default reductions never change the language, whatever the grammar and however its conflicts were resolved.
  lemma DefaultsKeepLanguage(g: Grammar, kernels: seq<set<Item>>, plain: seq<StateRow>, rows: seq<StateRow>,
                            w: seq<nat>)
    requires Setting(g, kernels, plain, rows) && Tokens(g, w)
    ensures Lempar.Accepts(g, rows, w) <==> Lempar.Accepts(g, plain, w)
  {
    hide Lempar.RunInput, RealizesRow, InCollection, SameButDefaults, GotoAll;
    assert Traced(g, kernels, [Lempar.BOTTOM], []) by { BottomTraced(g, kernels, plain); }
    forall fuel: nat
      ensures Lempar.RunInput(g, rows, [Lempar.BOTTOM], w, [], fuel) == Lempar.Parsed(w)
         <==> Lempar.RunInput(g, plain, [Lempar.BOTTOM], w, [], fuel) == Lempar.Parsed(w)
    {
      InputSame(g, kernels, plain, rows, [Lempar.BOTTOM], [], w, [], fuel);
      assert [] + w == w;
    }
  }

  lemma BottomTraced(g: Grammar, kernels: seq<set<Item>>, rows: seq<StateRow>)
    requires Realizes(g, kernels, rows)
    ensures Traced(g, kernels, [Lempar.BOTTOM], [])
  {
    hide RealizesRow, InCollection;
    var none: seq<Symbol> := [];
    assert none[..0] == none;
  }
}

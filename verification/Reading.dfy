/** A token that can come next is read: the driver gets to it in finitely many reductions. */
module Reading {
  import opened Options
  import opened Grammars
  import opened FirstSets
  import opened Automata
  import opened ActionLists
  import opened Lalr
  import opened Contexts
  import opened Defaults
  import opened Leftmost
  import Lempar

  // ---- reductions in a row ----

  // m reductions lead from one stack to the other.
  ghost predicate Steps(g: Grammar, rows: seq<StateRow>, stack: seq<Lempar.Entry>, la: nat, m: nat,
                        last: seq<Lempar.Entry>)
    decreases m
  {
    if m == 0 then stack == last
    else
      var one := Lempar.OneStep(g, rows, stack, la);
      one.Reduced? && Steps(g, rows, one.stack, la, m - 1, last)
  }

  lemma {:induction false} StepsTrans(g: Grammar, rows: seq<StateRow>, a: seq<Lempar.Entry>, la: nat, m: nat,
                                      b: seq<Lempar.Entry>, n: nat, c: seq<Lempar.Entry>)
    requires Steps(g, rows, a, la, m, b) && Steps(g, rows, b, la, n, c)
    ensures Steps(g, rows, a, la, m + n, c)
    decreases m
  {
    hide Lempar.OneStep;
    if m > 0 { StepsTrans(g, rows, Lempar.OneStep(g, rows, a, la).stack, la, m - 1, b, n, c); }
  }

  // A run goes on where the reductions lead; it is not over before.
  lemma {:induction false} StepsRun(g: Grammar, rows: seq<StateRow>, stack: seq<Lempar.Entry>, la: nat, m: nat,
                                    last: seq<Lempar.Entry>, fuel: nat)
    requires Steps(g, rows, stack, la, m, last)
    ensures fuel <= m ==> Lempar.RunToken(g, rows, stack, la, fuel).OutOfFuel?
    ensures fuel > m ==> Lempar.RunToken(g, rows, stack, la, fuel) == Lempar.RunToken(g, rows, last, la, fuel - m)
    decreases m
  {
    hide Lempar.OneStep;
    if m > 0 && fuel > 0 { StepsRun(g, rows, Lempar.OneStep(g, rows, stack, la).stack, la, m - 1, last, fuel - 1); }
  }

  // A stack that comes again comes for ever.
  lemma {:induction false} NoCycle(g: Grammar, rows: seq<StateRow>, stack: seq<Lempar.Entry>, la: nat, m: nat,
                                   fuel: nat)
    requires Steps(g, rows, stack, la, m, stack) && m > 0
    ensures Lempar.RunToken(g, rows, stack, la, fuel).OutOfFuel?
    decreases fuel
  {
    hide Lempar.RunToken;
    StepsRun(g, rows, stack, la, m, stack, fuel);
    if fuel > m { NoCycle(g, rows, stack, la, m, fuel - m); }
  }

  // More fuel does not change what has come to an end.
  lemma {:induction false} FuelEnough(g: Grammar, rows: seq<StateRow>, stack: seq<Lempar.Entry>, la: nat, fuel: nat,
                                      more: nat)
    requires !Lempar.RunToken(g, rows, stack, la, fuel).OutOfFuel? && fuel <= more
    ensures Lempar.RunToken(g, rows, stack, la, more) == Lempar.RunToken(g, rows, stack, la, fuel)
    decreases fuel
  {
    hide Lempar.OneStep;
    var one := Lempar.OneStep(g, rows, stack, la);
    if one.Reduced? { FuelEnough(g, rows, one.stack, la, fuel - 1, more - 1); }
  }

  // ---- what is called for is done ----

  ghost predicate NoChoice(g: Grammar, kernels: seq<set<Item>>, rows: seq<StateRow>) {
    g.WellFormed() && g.StartNotOnRhs() && Lalr1(g) && Realizes(g, kernels, rows)
  }

  // In an LALR(1) grammar a state has no choice.
  lemma OnlyAct(g: Grammar, kernels: seq<set<Item>>, rows: seq<StateRow>, k: nat, la: nat, a: Act)
    requires NoChoice(g, kernels, rows) && k < |kernels| && la < g.nterminal && CallsFor(g, kernels, k, la, a)
    ensures k < |rows|
    ensures match a
            case Reduce(r) => TerminalAct(rows[k], la) == Reduce(r)
            case Shift(_) => TerminalAct(rows[k], la).Shift?
            case _ => false
  {
    hide Goto, LookAhead, InClosure, InCollection, ShiftsOver;
    assert RealizesRow(g, kernels, k, rows[k]);
    assert Called(g, kernels, k, la);
    assert NoClash(g, kernels[k]) by { assert kernels[k] in kernels; }
  }

  // The number of a state.
  lemma NumberOf(g: Grammar, kernels: seq<set<Item>>, rows: seq<StateRow>, kernel: set<Item>) returns (k: nat)
    requires Realizes(g, kernels, rows) && InCollection(g, kernel)
    ensures k < |kernels| && kernels[k] == kernel
  {
    hide RealizesRow, InCollection;
    assert kernel in kernels;
    k :| k < |kernels| && kernels[k] == kernel;
  }

  lemma SameNumber(g: Grammar, kernels: seq<set<Item>>, rows: seq<StateRow>, i: nat, j: nat)
    requires Realizes(g, kernels, rows) && i < |kernels| && j < |kernels| && kernels[i] == kernels[j]
    ensures i == j
  {
    hide RealizesRow, InCollection;
  }

  // What an expected nonterminal leads to.
  lemma GotoDone(g: Grammar, kernels: seq<set<Item>>, rows: seq<StateRow>, s: nat, it: Item, A: nat) returns (to: nat)
    requires NoChoice(g, kernels, rows) && s < |kernels| && Holds(g, kernels[s], it) && Next(g, it) == Some(N(A))
    ensures s < |rows| && A in rows[s].onNonterminal && rows[s].onNonterminal[A] == Shift(to)
    ensures to < |kernels| && kernels[to] == Goto(g, kernels[s], N(A))
  {
    hide Goto, LookAhead, InClosure, InCollection, Lalr1;
    NextState(g, kernels[s], it);
    var k := NumberOf(g, kernels, rows, Goto(g, kernels[s], N(A)));
    assert ShiftsOver(g, kernels[s], N(A)) && A in SymbolCodes(N(A));
    assert CallsFor(g, kernels, s, A, Shift(k));
    ValidNext(g, it, A);
    GotoIsShift(g, kernels, rows, s, A);
    to := rows[s].onNonterminal[A].state;
    var x := ShiftOver(g, kernels, s, A, to);
  }

  lemma ValidNext(g: Grammar, it: Item, A: nat)
    requires g.WellFormed() && g.StartNotOnRhs() && Next(g, it) == Some(N(A))
    ensures g.nterminal <= A < g.nsymbol && A != g.start
  {
    assert g.rules[it.rule] in g.rules && N(A) in g.rules[it.rule].rhs;
    assert g.ValidSymbol(N(A));
  }

  lemma GotoIsShift(g: Grammar, kernels: seq<set<Item>>, rows: seq<StateRow>, s: nat, A: nat)
    requires Realizes(g, kernels, rows) && s < |kernels| && g.nterminal <= A < g.nsymbol && A != g.start
    requires Called(g, kernels, s, A)
    ensures s < |rows| && A in rows[s].onNonterminal && rows[s].onNonterminal[A].Shift?
    ensures CallsFor(g, kernels, s, A, rows[s].onNonterminal[A])
  {
    hide Leads, LookAhead, InCollection;
    assert RealizesRow(g, kernels, s, rows[s]);
  }

  // The first state accepts.
  lemma AcceptDone(g: Grammar, kernels: seq<set<Item>>, rows: seq<StateRow>)
    requires NoChoice(g, kernels, rows)
    ensures g.start in rows[0].onNonterminal && rows[0].onNonterminal[g.start] == Accept
  {
    hide LookAhead, InCollection, Lalr1, ShiftsOver, Goto;
    assert RealizesRow(g, kernels, 0, rows[0]);
    assert CallsFor(g, kernels, 0, g.start, Accept);
    assert Called(g, kernels, 0, g.start);
    var a := rows[0].onNonterminal[g.start];
    if a.Shift? {
      var x := ShiftOver(g, kernels, 0, g.start, a.state);
      NotShifted(g, kernels[0]);
    }
  }

  lemma NotShifted(g: Grammar, kernel: set<Item>)
    requires g.StartNotOnRhs()
    ensures !ShiftsOver(g, kernel, N(g.start))
  {
    hide InClosure;
    forall it: Item { NeverStart(g, it); }
  }

  // The goto on A pushed on a stack.
  ghost function Pushed(rows: seq<StateRow>, stack: seq<Lempar.Entry>, A: nat): seq<Lempar.Entry> {
    if stack == [] || stack[|stack| - 1].stateno >= |rows| then stack
    else
      var row := rows[stack[|stack| - 1].stateno];
      stack + [Lempar.Entry(
        if A in row.onNonterminal && row.onNonterminal[A].Shift? then row.onNonterminal[A].state else 0, A)]
  }

  // The goto on an expected nonterminal.
  lemma PushTraced(g: Grammar, kernels: seq<set<Item>>, rows: seq<StateRow>, stack: seq<Lempar.Entry>,
                   prefix: seq<Symbol>, A: nat, rest: seq<Symbol>, n: nat)
    requires NoChoice(g, kernels, rows) && Traced(g, kernels, stack, prefix) && Expected(g, prefix, A, rest, n) && n > 0
    ensures Traced(g, kernels, Pushed(rows, stack, A), prefix + [N(A)])
    ensures |Pushed(rows, stack, A)| == |stack| + 1 && Pushed(rows, stack, A)[..|stack|] == stack
    ensures var s := stack[|stack| - 1].stateno;
      s < |rows| && A in rows[s].onNonterminal && rows[s].onNonterminal[A].Shift?
  {
    hide NoChoice, Expected, GotoAll, Holds;
    TracedTop(g, kernels, stack, prefix);
    var it, outer, rest' := ExpectedBack(g, prefix, A, rest, n);
    ExpectedIsHeld(g, outer, g.rules[it.rule].lhs, rest', n - 1, it.rule);
    IntroducedBy(g, it, outer, rest', prefix, A, rest);
    AlongRule(g, outer, it.rule, it.dot);
    var to := GotoDone(g, kernels, rows, stack[|stack| - 1].stateno, it, A);
    TracedPush(g, kernels, stack, prefix, Lempar.Entry(to, A), N(A));
  }

  // A reduction called for by what comes behind the rule is entered.
  lemma ReduceEntered(g: Grammar, kernels: seq<set<Item>>, rows: seq<StateRow>, stack: seq<Lempar.Entry>,
                      prefix: seq<Symbol>, la: nat, r: nat, below: seq<Symbol>, rest: seq<Symbol>, n: nat)
    requires NoChoice(g, kernels, rows) && Traced(g, kernels, stack, prefix) && la < g.nterminal && r < |g.rules|
    requires prefix == below + g.rules[r].rhs && Expected(g, below, g.rules[r].lhs, rest, n) && CanBegin(g, rest, la)
    ensures var k := stack[|stack| - 1].stateno; k < |rows| && TerminalAct(rows[k], la) == Reduce(r)
  {
    hide NoChoice, GotoAll, CanBegin, Expected, CallsFor, Reduces;
    var k := stack[|stack| - 1].stateno;
    TracedTop(g, kernels, stack, prefix);
    ReductionCalled(g, prefix, below, r, rest, n, la);
    assert CallsFor(g, kernels, k, la, Reduce(r)) by { ReduceCalls(g, kernels, k, la, r); }
    OnlyAct(g, kernels, rows, k, la, Reduce(r));
  }

  // What the reduction does to the stack.
  lemma ReducePushes(g: Grammar, rows: seq<StateRow>, stack: seq<Lempar.Entry>, la: nat, r: nat,
                     low: seq<Lempar.Entry>)
    requires stack != [] && stack[|stack| - 1].stateno < |rows| && r < |g.rules| && low != []
    requires TerminalAct(rows[stack[|stack| - 1].stateno], la) == Reduce(r)
    requires |g.rules[r].rhs| < |stack| && low == stack[..|stack| - |g.rules[r].rhs|]
    requires var s := low[|low| - 1].stateno; s < |rows| && g.rules[r].lhs in rows[s].onNonterminal
    ensures var a := rows[low[|low| - 1].stateno].onNonterminal[g.rules[r].lhs];
      && (a.Shift? ==> Lempar.OneStep(g, rows, stack, la) == Lempar.Reduced(Pushed(rows, low, g.rules[r].lhs)))
      && (a == Accept ==> Lempar.OneStep(g, rows, stack, la) == Lempar.Accepted)
  {
  }

  lemma ReduceDone(g: Grammar, kernels: seq<set<Item>>, rows: seq<StateRow>, stack: seq<Lempar.Entry>,
                   prefix: seq<Symbol>, la: nat, r: nat, below: seq<Symbol>, rest: seq<Symbol>, n: nat)
    requires NoChoice(g, kernels, rows) && Traced(g, kernels, stack, prefix) && la < g.nterminal && r < |g.rules|
    requires prefix == below + g.rules[r].rhs && Expected(g, below, g.rules[r].lhs, rest, n) && CanBegin(g, rest, la)
    ensures var k := stack[|stack| - 1].stateno; k < |rows| && TerminalAct(rows[k], la) == Reduce(r)
    ensures n == 0 ==> Lempar.OneStep(g, rows, stack, la) == Lempar.Accepted
    ensures n > 0 ==>
      var one := Lempar.OneStep(g, rows, stack, la);
      && one.Reduced? && Traced(g, kernels, one.stack, below + [N(g.rules[r].lhs)])
      && one.stack == Pushed(rows, stack[..|below| + 1], g.rules[r].lhs)
  {
    hide NoChoice, GotoAll, CanBegin, Expected, Lempar.OneStep, Pushed;
    ReduceEntered(g, kernels, rows, stack, prefix, la, r, below, rest, n);
    var m := |below|;
    var low := stack[..m + 1];
    assert prefix[..m] == below;
    TracedPop(g, kernels, stack, prefix, m);
    assert low[|low| - 1] == stack[m] && |stack| - |g.rules[r].rhs| == m + 1;
    if n == 0 {
      ExpectedStart(g, below, g.rules[r].lhs, rest);
      AcceptOnBottom(g, kernels, rows, low, below);
    } else {
      PushTraced(g, kernels, rows, low, below, g.rules[r].lhs, rest, n);
    }
    ReducePushes(g, rows, stack, la, r, low);
  }

  lemma AcceptOnBottom(g: Grammar, kernels: seq<set<Item>>, rows: seq<StateRow>, low: seq<Lempar.Entry>,
                       below: seq<Symbol>)
    requires NoChoice(g, kernels, rows) && Traced(g, kernels, low, below) && below == []
    ensures var s := low[|low| - 1].stateno; s < |rows| && g.start in rows[s].onNonterminal
    ensures rows[low[|low| - 1].stateno].onNonterminal[g.start] == Accept
  {
    hide GotoAll, Lalr1, RealizesRow, InCollection;
    TracedTop(g, kernels, low, below);
    FirstNumber(g, kernels, rows, low[0].stateno);
    AcceptDone(g, kernels, rows);
  }

  lemma ReduceCalls(g: Grammar, kernels: seq<set<Item>>, k: nat, la: nat, r: nat)
    requires k < |kernels| && Reduces(g, kernels[k], r, la)
    ensures CallsFor(g, kernels, k, la, Reduce(r))
  {
    hide Reduces;
  }

  lemma FirstNumber(g: Grammar, kernels: seq<set<Item>>, rows: seq<StateRow>, k: nat)
    requires Realizes(g, kernels, rows) && k < |kernels| && kernels[k] == GotoAll(g, [])
    ensures k == 0
  {
    hide RealizesRow, InCollection;
  }

  // ---- a token that can come next is read ----

  // Where the rest of an item and what is behind its rule lead to the token, the run reads it.
  lemma {:induction false} ReadRun(g: Grammar, kernels: seq<set<Item>>, rows: seq<StateRow>,
                                   stack: seq<Lempar.Entry>, prefix: seq<Symbol>, la: nat, it: Item,
                                   outer: seq<Symbol>, rest: seq<Symbol>, n: nat, d: nat) returns (fuel: nat)
    requires NoChoice(g, kernels, rows) && Traced(g, kernels, stack, prefix) && la < g.nterminal
    requires InContext(g, prefix, it, outer, rest, n) && LeftTo(g, Remaining(g, it) + rest, Some(la), d)
    ensures !Lempar.RunToken(g, rows, stack, la, fuel).OutOfFuel?
    decreases d, n
  {
    hide NoChoice, Traced, LeftTo, Expected, Lempar.OneStep;
    ContextValid(g, prefix, it, outer, rest, n);
    var ahead := Remaining(g, it) + rest;
    if Remaining(g, it) == [] {
      assert Past(g, it) == g.rules[it.rule].rhs && ahead == rest;
      LeftDerives(g, ahead, Some(la), d);
      ReduceDone(g, kernels, rows, stack, prefix, la, it.rule, outer, rest, n);
      fuel := 1;
      if n > 0 {
        var it', outer', rest' := NextContext(g, outer, g.rules[it.rule].lhs, rest, n);
        var one := Lempar.OneStep(g, rows, stack, la);
        var m := ReadRun(g, kernels, rows, one.stack, outer + [N(g.rules[it.rule].lhs)], la, it', outer', rest',
          n - 1, d);
        fuel := m + 1;
      }
    } else {
      NextFirst(g, it, rest);
      var x := Next(g, it).value;
      if d == 0 {
        LeftReads(g, ahead, la);
        ShiftDone(g, kernels, rows, stack, prefix, it, outer, rest, n, la);
        fuel := 1;
      } else {
        var r := LeftRule(g, ahead, Some(la), d);
        InContextPredicted(g, prefix, it, outer, rest, n, r);
        assert ahead[1..] == Rest(g, it) + rest;
        assert Remaining(g, Item(r, 0)) == g.rules[r].rhs;
        fuel := ReadRun(g, kernels, rows, stack, prefix, la, Item(r, 0), prefix, Rest(g, it) + rest, n + 1, d - 1);
      }
    }
  }

  // The rule that a nonterminal is expected in, moved over it.
  lemma NextContext(g: Grammar, before: seq<Symbol>, A: nat, after: seq<Symbol>, n: nat)
    returns (it: Item, outer: seq<Symbol>, rest: seq<Symbol>)
    requires Expected(g, before, A, after, n) && n > 0
    ensures InContext(g, before + [N(A)], it, outer, rest, n - 1) && Remaining(g, it) + rest == after
    ensures A != g.start || !g.StartNotOnRhs()
  {
    hide Expected;
    var from;
    from, outer, rest := ExpectedBack(g, before, A, after, n);
    it := Advance(from);
    assert Past(g, it) == Past(g, from) + [N(A)];
    assert before + [N(A)] == outer + Past(g, it);
    assert Remaining(g, it) == Rest(g, from);
    if g.StartNotOnRhs() { NeverStart(g, from); }
  }

  lemma InContextPredicted(g: Grammar, prefix: seq<Symbol>, it: Item, outer: seq<Symbol>, rest: seq<Symbol>, n: nat,
                           r: nat)
    requires InContext(g, prefix, it, outer, rest, n) && r < |g.rules| && Next(g, it) == Some(N(g.rules[r].lhs))
    ensures InContext(g, prefix, Item(r, 0), prefix, Rest(g, it) + rest, n + 1)
    ensures Expected(g, prefix, g.rules[r].lhs, Rest(g, it) + rest, n + 1)
  {
    hide Expected;
    MeetsPredicted(g, prefix, it, Item(r, 0), outer, rest, n);
    ContextValid(g, prefix, Item(r, 0), prefix, Rest(g, it) + rest, n + 1);
  }

  // A token behind the dot is shifted.
  lemma ShiftDone(g: Grammar, kernels: seq<set<Item>>, rows: seq<StateRow>, stack: seq<Lempar.Entry>,
                  prefix: seq<Symbol>, it: Item, outer: seq<Symbol>, rest: seq<Symbol>, n: nat, la: nat)
    requires NoChoice(g, kernels, rows) && Traced(g, kernels, stack, prefix) && la < g.nterminal
    requires InContext(g, prefix, it, outer, rest, n) && Next(g, it).Some? && la in SymbolCodes(Next(g, it).value)
    ensures !Lempar.OneStep(g, rows, stack, la).Reduced? && !Lempar.OneStep(g, rows, stack, la).OutOfFuel?
  {
    hide GotoAll, Goto, InCollection, InClosure, Lalr1, Realizes, CallsFor, Expected;
    var k, x := stack[|stack| - 1].stateno, Next(g, it).value;
    TracedTop(g, kernels, stack, prefix);
    ContextHeld(g, prefix, it, outer, rest, n);
    NextState(g, kernels[k], it);
    var to := NumberOf(g, kernels, rows, Goto(g, kernels[k], x));
    assert CallsFor(g, kernels, k, la, Shift(to)) by {
      assert ShiftsOver(g, kernels[k], x);
      LeadsBy(g, kernels, k, la, x, to);
    }
    OnlyAct(g, kernels, rows, k, la, Shift(to));
  }

  lemma LeadsBy(g: Grammar, kernels: seq<set<Item>>, k: nat, la: nat, x: Symbol, to: nat)
    requires k < |kernels| && to < |kernels| && ShiftsOver(g, kernels[k], x) && la in SymbolCodes(x)
    requires kernels[to] == Goto(g, kernels[k], x)
    ensures CallsFor(g, kernels, k, la, Shift(to))
  {
    hide ShiftsOver, Goto;
  }

  lemma ContextHeld(g: Grammar, prefix: seq<Symbol>, it: Item, outer: seq<Symbol>, rest: seq<Symbol>, n: nat)
    requires InContext(g, prefix, it, outer, rest, n)
    ensures Holds(g, GotoAll(g, prefix), it)
  {
    hide GotoAll, Holds, Expected;
    ContextValid(g, prefix, it, outer, rest, n);
    ExpectedIsHeld(g, outer, g.rules[it.rule].lhs, rest, n, it.rule);
    AlongRule(g, outer, it.rule, it.dot);
  }

  // A token that can come next is read in the end.
  lemma ComingIsRead(g: Grammar, kernels: seq<set<Item>>, rows: seq<StateRow>, stack: seq<Lempar.Entry>,
                     prefix: seq<Symbol>, la: nat) returns (fuel: nat)
    requires NoChoice(g, kernels, rows) && Traced(g, kernels, stack, prefix) && la < g.nterminal
    requires CanCome(g, prefix, la)
    ensures !Lempar.RunToken(g, rows, stack, la, fuel).OutOfFuel?
  {
    hide NoChoice, Traced, InContext, CanBegin, Lempar.RunToken;
    var it, outer, rest, n: nat :|
      InContext(g, prefix, it, outer, rest, n) && CanBegin(g, Remaining(g, it) + rest, la);
    var d := LeftBegins(g, Remaining(g, it) + rest, la);
    fuel := ReadRun(g, kernels, rows, stack, prefix, la, it, outer, rest, n, d);
  }
}

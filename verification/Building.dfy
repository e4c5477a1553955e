/** What can vanish is built above a stack by reductions that take nothing from the stack itself. */
module Building {
  import opened Options
  import opened Grammars
  import opened FirstSets
  import opened Automata
  import opened States
  import opened Lalr
  import opened Contexts
  import opened Defaults
  import opened Leftmost
  import opened Reading
  import Lempar

  // ---- reductions above a stack ----

  // The next reduction takes nothing from `base`.
  ghost predicate Above(g: Grammar, rows: seq<StateRow>, base: seq<Lempar.Entry>, extra: seq<Lempar.Entry>, la: nat) {
    var stack := base + extra;
    && stack != [] && stack[|stack| - 1].stateno < |rows|
    && match TerminalAct(rows[stack[|stack| - 1].stateno], la)
       case Reduce(r) => r < |g.rules| && |g.rules[r].rhs| <= |extra| && Lempar.OneStep(g, rows, stack, la).Reduced?
       case _ => false
  }

  // What one step leaves above the stack.
  ghost function OneAbove(g: Grammar, rows: seq<StateRow>, base: seq<Lempar.Entry>, extra: seq<Lempar.Entry>, la: nat)
    : seq<Lempar.Entry>
  {
    var one := Lempar.OneStep(g, rows, base + extra, la);
    if one.Reduced? && |base| <= |one.stack| then one.stack[|base|..] else extra
  }

  // m reductions that take nothing from `base`.
  ghost predicate StepsAbove(g: Grammar, rows: seq<StateRow>, base: seq<Lempar.Entry>, extra: seq<Lempar.Entry>,
                             la: nat, m: nat, last: seq<Lempar.Entry>)
    decreases m
  {
    if m == 0 then extra == last
    else
      Above(g, rows, base, extra, la) && StepsAbove(g, rows, base, OneAbove(g, rows, base, extra, la), la, m - 1, last)
  }

  // What a reduction of the upper part leaves there depends on the last state of the lower part only.
  lemma ReduceAbove(g: Grammar, rows: seq<StateRow>, base: seq<Lempar.Entry>, extra: seq<Lempar.Entry>, r: nat,
                    other: seq<Lempar.Entry>) returns (left: seq<Lempar.Entry>)
    requires base != [] && other != [] && base[|base| - 1].stateno == other[|other| - 1].stateno
    requires r < |g.rules| && |g.rules[r].rhs| <= |extra| && Lempar.ReduceStack(g, rows, base + extra, r).Reduced?
    ensures Lempar.ReduceStack(g, rows, base + extra, r) == Lempar.Reduced(base + left)
    ensures Lempar.ReduceStack(g, rows, other + extra, r) == Lempar.Reduced(other + left)
  {
    var part := extra[..|extra| - |g.rules[r].rhs|];
    var a, b := base + part, other + part;
    assert (base + extra)[..|base + extra| - |g.rules[r].rhs|] == a;
    assert (other + extra)[..|other + extra| - |g.rules[r].rhs|] == b;
    assert a[|a| - 1].stateno == b[|b| - 1].stateno;
    var s := a[|a| - 1].stateno;
    var e := Lempar.Entry(rows[s].onNonterminal[g.rules[r].lhs].state, g.rules[r].lhs);
    left := part + [e];
    assert a + [e] == base + left && b + [e] == other + left;
  }

  lemma SameTop(base: seq<Lempar.Entry>, other: seq<Lempar.Entry>, extra: seq<Lempar.Entry>)
    requires base != [] && other != [] && base[|base| - 1].stateno == other[|other| - 1].stateno
    ensures (base + extra)[|base + extra| - 1].stateno == (other + extra)[|other + extra| - 1].stateno
  {
  }

  // What happens above a stack depends on its last state only.
  lemma AboveAnywhere(g: Grammar, rows: seq<StateRow>, base: seq<Lempar.Entry>, other: seq<Lempar.Entry>,
                      extra: seq<Lempar.Entry>, la: nat)
    requires Above(g, rows, base, extra, la) && base != [] && other != []
    requires base[|base| - 1].stateno == other[|other| - 1].stateno
    ensures Above(g, rows, other, extra, la)
    ensures Lempar.OneStep(g, rows, base + extra, la) == Lempar.Reduced(base + OneAbove(g, rows, base, extra, la))
    ensures Lempar.OneStep(g, rows, other + extra, la) == Lempar.Reduced(other + OneAbove(g, rows, base, extra, la))
    ensures OneAbove(g, rows, other, extra, la) == OneAbove(g, rows, base, extra, la)
  {
    hide Lempar.ReduceStack;
    var stack := base + extra;
    var left := ReduceAbove(g, rows, base, extra, TerminalAct(rows[stack[|stack| - 1].stateno], la).rule, other);
    SameTop(base, other, extra);
  }

  lemma {:induction false} StepsAnywhere(g: Grammar, rows: seq<StateRow>, base: seq<Lempar.Entry>,
                                         other: seq<Lempar.Entry>, extra: seq<Lempar.Entry>, la: nat, m: nat,
                                         last: seq<Lempar.Entry>)
    requires StepsAbove(g, rows, base, extra, la, m, last) && base != [] && other != []
    requires base[|base| - 1].stateno == other[|other| - 1].stateno
    ensures StepsAbove(g, rows, other, extra, la, m, last)
    decreases m
  {
    hide Above, Lempar.OneStep;
    if m > 0 {
      AboveAnywhere(g, rows, base, other, extra, la);
      StepsAnywhere(g, rows, base, other, OneAbove(g, rows, base, extra, la), la, m - 1, last);
    }
  }

  lemma {:induction false} AboveSteps(g: Grammar, rows: seq<StateRow>, base: seq<Lempar.Entry>,
                                      extra: seq<Lempar.Entry>, la: nat, m: nat, last: seq<Lempar.Entry>)
    requires StepsAbove(g, rows, base, extra, la, m, last) && base != []
    ensures Steps(g, rows, base + extra, la, m, base + last)
    decreases m
  {
    hide Above, Lempar.OneStep;
    if m > 0 {
      AboveAnywhere(g, rows, base, base, extra, la);
      var one := Lempar.OneStep(g, rows, base + extra, la);
      AboveSteps(g, rows, base, one.stack[|base|..], la, m - 1, last);
      assert base + one.stack[|base|..] == one.stack;
    }
  }

  lemma {:induction false} StepsAboveSnoc(g: Grammar, rows: seq<StateRow>, base: seq<Lempar.Entry>,
                                          extra: seq<Lempar.Entry>, la: nat, m: nat, last: seq<Lempar.Entry>)
    requires StepsAbove(g, rows, base, extra, la, m, last) && Above(g, rows, base, last, la) && base != []
    ensures var one := Lempar.OneStep(g, rows, base + last, la); one.Reduced? && |base| <= |one.stack|
    ensures StepsAbove(g, rows, base, extra, la, m + 1, Lempar.OneStep(g, rows, base + last, la).stack[|base|..])
    decreases m
  {
    hide Above, Lempar.OneStep;
    AboveAnywhere(g, rows, base, base, last, la);
    if m > 0 {
      AboveAnywhere(g, rows, base, base, extra, la);
      StepsAboveSnoc(g, rows, base, Lempar.OneStep(g, rows, base + extra, la).stack[|base|..], la, m - 1, last);
    } else {
      assert StepsAbove(g, rows, base, Lempar.OneStep(g, rows, base + last, la).stack[|base|..], la, 0,
        Lempar.OneStep(g, rows, base + last, la).stack[|base|..]);
    }
  }

  lemma {:induction false} StepsAboveTrans(g: Grammar, rows: seq<StateRow>, base: seq<Lempar.Entry>,
                                           a: seq<Lempar.Entry>, la: nat, m: nat, b: seq<Lempar.Entry>, n: nat,
                                           c: seq<Lempar.Entry>)
    requires StepsAbove(g, rows, base, a, la, m, b) && StepsAbove(g, rows, base, b, la, n, c)
    ensures StepsAbove(g, rows, base, a, la, m + n, c)
    decreases m
  {
    hide Above, Lempar.OneStep;
    if m > 0 { StepsAboveTrans(g, rows, base, OneAbove(g, rows, base, a, la), la, m - 1, b, n, c); }
  }

  // What is above a stack is above a part of it.
  lemma {:induction false} StepsAbovePart(g: Grammar, rows: seq<StateRow>, base: seq<Lempar.Entry>,
                                          mid: seq<Lempar.Entry>, extra: seq<Lempar.Entry>, la: nat, m: nat,
                                          last: seq<Lempar.Entry>)
    requires StepsAbove(g, rows, base + mid, extra, la, m, last) && base != []
    ensures StepsAbove(g, rows, base, mid + extra, la, m, mid + last)
    decreases m
  {
    hide Above, Lempar.OneStep;
    if m > 0 {
      AbovePart(g, rows, base, mid, extra, la);
      StepsAbovePart(g, rows, base, mid, OneAbove(g, rows, base + mid, extra, la), la, m - 1, last);
    }
  }

  lemma AbovePart(g: Grammar, rows: seq<StateRow>, base: seq<Lempar.Entry>, mid: seq<Lempar.Entry>,
                  extra: seq<Lempar.Entry>, la: nat)
    requires Above(g, rows, base + mid, extra, la) && base != []
    ensures Above(g, rows, base, mid + extra, la)
    ensures var one := Lempar.OneStep(g, rows, base + (mid + extra), la);
      one.Reduced? && |base| <= |one.stack| && one == Lempar.OneStep(g, rows, base + mid + extra, la)
    ensures OneAbove(g, rows, base, mid + extra, la) == mid + OneAbove(g, rows, base + mid, extra, la)
  {
    hide Lempar.OneStep;
    assert base + mid + extra == base + (mid + extra);
    AboveAnywhere(g, rows, base + mid, base + mid, extra, la);
    var st := Lempar.OneStep(g, rows, base + mid + extra, la).stack;
    assert st == base + mid + st[|base + mid|..];
    assert st[|base|..] == mid + st[|base + mid|..];
  }

  // ---- what can vanish is built from nothing ----

  // If the rest of an item can vanish and the token can come behind its rule, the run gets to the end of the rule and
  // reduces it, taking nothing from below the rule.
  lemma {:induction false} EraseRun(g: Grammar, kernels: seq<set<Item>>, rows: seq<StateRow>,
                                    base: seq<Lempar.Entry>, extra: seq<Lempar.Entry>, prefix: seq<Symbol>, la: nat,
                                    it: Item, outer: seq<Symbol>, rest: seq<Symbol>, n: nat, d: nat)
    returns (m: nat, e: Lempar.Entry)
    requires NoChoice(g, kernels, rows) && Traced(g, kernels, base + extra, prefix) && la < g.nterminal && n > 0
    requires |base| == |outer| + 1
    requires InContext(g, prefix, it, outer, rest, n) && LeftTo(g, Remaining(g, it), None, d) && CanBegin(g, rest, la)
    ensures m > 0 && StepsAbove(g, rows, base, extra, la, m, [e])
    ensures base + [e] == Pushed(rows, base, g.rules[it.rule].lhs)
    ensures Traced(g, kernels, base + [e], outer + [N(g.rules[it.rule].lhs)])
    decreases d
  {
    hide NoChoice, LeftTo, Expected, CanBegin, StepsAbove, Pushed, Traced, InContext, Nullable;
    ContextValid(g, prefix, it, outer, rest, n);
    if Remaining(g, it) == [] {
      e := EraseEnds(g, kernels, rows, base, extra, prefix, la, it, outer, rest, n);
      m := 1;
    } else {
      LeftVanishing(g, Remaining(g, it), d);
      var r := LeftRule(g, Remaining(g, it), None, d);
      assert Remaining(g, it)[1..] == Rest(g, it) && Next(g, it) == Some(N(g.rules[r].lhs));
      var d1, d2 := LeftSplit(g, g.rules[r].rhs, Rest(g, it), d - 1);
      InContextPredicted(g, prefix, it, outer, rest, n, r);
      assert Remaining(g, Item(r, 0)) == g.rules[r].rhs && Remaining(g, Advance(it)) == Rest(g, it);
      LeftDerives(g, Rest(g, it), None, d2);
      CanBeginConcat(g, Rest(g, it), rest, la);
      TracedSize(g, kernels, base + extra, prefix);
      assert base + extra + [] == base + extra;
      var m1, e1 := EraseRun(g, kernels, rows, base + extra, [], prefix, la, Item(r, 0), prefix, Rest(g, it) + rest,
        n + 1, d1);
      MeetsAdvanced(g, prefix, it, outer, rest, n);
      assert base + extra + [e1] == base + (extra + [e1]);
      var m2;
      m2, e := EraseRun(g, kernels, rows, base, extra + [e1], prefix + [N(g.rules[r].lhs)], la, Advance(it), outer,
        rest, n, d2);
      StepsAbovePart(g, rows, base, extra, [], la, m1, [e1]);
      assert extra + [] == extra;
      StepsAboveTrans(g, rows, base, extra, la, m1, extra + [e1], m2, [e]);
      m := m1 + m2;
    }
  }

  lemma TracedSize(g: Grammar, kernels: seq<set<Item>>, stack: seq<Lempar.Entry>, prefix: seq<Symbol>)
    requires Traced(g, kernels, stack, prefix)
    ensures |stack| == |prefix| + 1
  {
  }

  lemma EraseEnds(g: Grammar, kernels: seq<set<Item>>, rows: seq<StateRow>, base: seq<Lempar.Entry>,
                  extra: seq<Lempar.Entry>, prefix: seq<Symbol>, la: nat, it: Item, outer: seq<Symbol>,
                  rest: seq<Symbol>, n: nat) returns (e: Lempar.Entry)
    requires NoChoice(g, kernels, rows) && Traced(g, kernels, base + extra, prefix) && la < g.nterminal && n > 0
    requires |base| == |outer| + 1 && InContext(g, prefix, it, outer, rest, n) && Remaining(g, it) == []
    requires CanBegin(g, rest, la)
    ensures StepsAbove(g, rows, base, extra, la, 1, [e])
    ensures base + [e] == Pushed(rows, base, g.rules[it.rule].lhs)
    ensures Traced(g, kernels, base + [e], outer + [N(g.rules[it.rule].lhs)])
  {
    hide NoChoice, Expected, CanBegin, GotoAll, Pushed, Lempar.OneStep;
    ContextValid(g, prefix, it, outer, rest, n);
    assert Past(g, it) == g.rules[it.rule].rhs;
    ReduceDone(g, kernels, rows, base + extra, prefix, la, it.rule, outer, rest, n);
    var st := Lempar.OneStep(g, rows, base + extra, la).stack;
    assert (base + extra)[..|outer| + 1] == base;
    TracedTop(g, kernels, base + extra, prefix);
    TracedPop(g, kernels, base + extra, prefix, |outer|);
    PushedLast(rows, base, g.rules[it.rule].lhs, st);
    e := st[|base|];
    assert st[|base|..] == [e];
  }

  lemma PushedLast(rows: seq<StateRow>, stack: seq<Lempar.Entry>, A: nat, st: seq<Lempar.Entry>)
    requires st == Pushed(rows, stack, A) && |st| > |stack|
    ensures |st| == |stack| + 1 && st == stack + [st[|stack|]]
  {
  }

  // ---- stacks for prefixes ----

  // Every prefix of it leads to a state of the automaton.
  ghost predicate AllStates(g: Grammar, prefix: seq<Symbol>) {
    forall i: nat | i <= |prefix| :: InCollection(g, GotoAll(g, prefix[..i]))
  }

  lemma {:induction false} ExpectedStates(g: Grammar, before: seq<Symbol>, A: nat, after: seq<Symbol>, n: nat)
    requires Expected(g, before, A, after, n)
    ensures AllStates(g, before)
    decreases n
  {
    hide Expected, InCollection, GotoAll;
    if n == 0 {
      ExpectedStart(g, before, A, after);
      StartState(g);
      assert GotoAll(g, []) == StartItems(g) by { EmptyGoto(g); }
    } else {
      var it, outer, rest := ExpectedBack(g, before, A, after, n);
      ExpectedStates(g, outer, g.rules[it.rule].lhs, rest, n - 1);
      IntroducedBy(g, it, outer, rest, before, A, after);
      ExpectedIsHeld(g, outer, g.rules[it.rule].lhs, rest, n - 1, it.rule);
      RuleStates(g, outer, it.rule, it.dot);
    }
  }

  lemma EmptyGoto(g: Grammar)
    ensures GotoAll(g, []) == StartItems(g)
  {
  }

  lemma RuleStates(g: Grammar, outer: seq<Symbol>, r: nat, d: nat)
    requires AllStates(g, outer) && r < |g.rules| && d <= |g.rules[r].rhs| && Holds(g, GotoAll(g, outer), Item(r, 0))
    ensures AllStates(g, outer + g.rules[r].rhs[..d])
  {
    hide InCollection, GotoAll, InClosure;
    var rhs := g.rules[r].rhs;
    forall i: nat | i <= |outer| + d ensures InCollection(g, GotoAll(g, (outer + rhs[..d])[..i])) {
      if i <= |outer| {
        assert (outer + rhs[..d])[..i] == outer[..i];
      } else {
        AlongRule(g, outer, r, i - |outer|);
        assert (outer + rhs[..d])[..i] == outer + rhs[..i - |outer|];
      }
    }
  }

  lemma ContextStates(g: Grammar, prefix: seq<Symbol>, it: Item, outer: seq<Symbol>, rest: seq<Symbol>, n: nat)
    requires InContext(g, prefix, it, outer, rest, n)
    ensures AllStates(g, prefix)
  {
    hide Expected, AllStates, Holds;
    ContextValid(g, prefix, it, outer, rest, n);
    ExpectedStates(g, outer, g.rules[it.rule].lhs, rest, n);
    ExpectedIsHeld(g, outer, g.rules[it.rule].lhs, rest, n, it.rule);
    RuleStates(g, outer, it.rule, it.dot);
  }

  lemma {:induction false} StackFor(g: Grammar, kernels: seq<set<Item>>, rows: seq<StateRow>, prefix: seq<Symbol>)
    returns (stack: seq<Lempar.Entry>)
    requires Realizes(g, kernels, rows) && AllStates(g, prefix)
    ensures Traced(g, kernels, stack, prefix)
    decreases |prefix|
  {
    hide Realizes, InCollection, Traced, Goto;
    if prefix == [] {
      BottomTraced(g, kernels, rows);
      stack := [Lempar.BOTTOM];
    } else {
      var n := |prefix| - 1;
      var shorter := prefix[..n];
      assert AllStates(g, shorter) by { FewerStates(g, prefix, n); }
      var below := StackFor(g, kernels, rows, shorter);
      assert prefix[..|prefix|] == prefix;
      var k := NumberOf(g, kernels, rows, GotoAll(g, prefix));
      TracedPush(g, kernels, below, shorter, Lempar.Entry(k, 0), prefix[n]);
      assert shorter + [prefix[n]] == prefix;
      stack := below + [Lempar.Entry(k, 0)];
    }
  }

  lemma FewerStates(g: Grammar, prefix: seq<Symbol>, n: nat)
    requires AllStates(g, prefix) && n <= |prefix|
    ensures AllStates(g, prefix[..n])
  {
    hide InCollection, GotoAll;
    forall i: nat | i <= n ensures prefix[..n][..i] == prefix[..i] {}
  }

}

/** States that spin: the run above such a state builds a tower of nonterminals that can vanish, and comes back to the
  state.  No state of an LALR(1) grammar does so without default reductions, or where everything can begin or vanish. */
module Spinning {
  import opened Grammars
  import opened FirstSets
  import opened Automata
  import opened Lalr
  import opened Contexts
  import opened Defaults
  import opened Reading
  import opened Building
  import opened Towers
  import Lempar

  ghost predicate Spins(g: Grammar, rows: seq<StateRow>, s: nat, la: nat) {
    exists m: nat, extra :: Returns(g, rows, s, la, m, extra)
  }

  // m reductions above the state take nothing from it, and the last of them leads to the state.
  ghost predicate Returns(g: Grammar, rows: seq<StateRow>, s: nat, la: nat, m: nat, extra: seq<Lempar.Entry>) {
    && m > 0 && extra != [] && extra[|extra| - 1].stateno == s
    && StepsAbove(g, rows, [Lempar.Entry(s, 0)], [], la, m, extra)
  }

  // The last state of the stack spins.
  ghost predicate SpinsOn(g: Grammar, rows: seq<StateRow>, stack: seq<Lempar.Entry>, la: nat) {
    stack != [] && Spins(g, rows, stack[|stack| - 1].stateno, la)
  }

  // On top of any stack it is as above the state alone.
  lemma ReturnsOn(g: Grammar, rows: seq<StateRow>, stack: seq<Lempar.Entry>, la: nat, m: nat, extra: seq<Lempar.Entry>)
    requires stack != [] && extra != [] && extra[|extra| - 1].stateno == stack[|stack| - 1].stateno
    requires StepsAbove(g, rows, stack, [], la, m, extra) && m > 0
    ensures SpinsOn(g, rows, stack, la)
  {
    hide StepsAbove;
    var s := stack[|stack| - 1].stateno;
    StepsAnywhere(g, rows, stack, [Lempar.Entry(s, 0)], [], la, m, extra);
    assert Returns(g, rows, s, la, m, extra);
  }

  // From a state that spins the run does not come to an end, whatever is below.
  lemma SpinIsEndless(g: Grammar, rows: seq<StateRow>, stack: seq<Lempar.Entry>, la: nat, fuel: nat)
    requires SpinsOn(g, rows, stack, la)
    ensures Lempar.RunToken(g, rows, stack, la, fuel).OutOfFuel?
  {
    hide StepsAbove, Lempar.RunToken;
    var s := stack[|stack| - 1].stateno;
    var m: nat, extra :| Returns(g, rows, s, la, m, extra);
    StepsAnywhere(g, rows, [Lempar.Entry(s, 0)], stack, [], la, m, extra);
    Grows(g, rows, stack, extra, la, m, fuel);
  }

  // ---- what one reduction does to the prefix ----

  // An LALR(1) grammar, and rows with or without defaults.
  ghost predicate Ready(g: Grammar, kernels: seq<set<Item>>, plain: seq<StateRow>, rows: seq<StateRow>) {
    Lalr1(g) && Setting(g, kernels, plain, rows)
  }

  lemma ReadyNoChoice(g: Grammar, kernels: seq<set<Item>>, plain: seq<StateRow>, rows: seq<StateRow>)
    requires Ready(g, kernels, plain, rows)
    ensures NoChoice(g, kernels, rows) && Setting(g, kernels, plain, rows)
  {
  }

  ghost predicate NoDefaults(rows: seq<StateRow>) {
    forall row <- rows :: row.otherwise == Error
  }

  // One step is a reduction by the rule.
  ghost predicate IsStep(g: Grammar, rows: seq<StateRow>, stack: seq<Lempar.Entry>, la: nat, r: nat) {
    && stack != [] && stack[|stack| - 1].stateno < |rows|
    && TerminalAct(rows[stack[|stack| - 1].stateno], la) == Reduce(r) && Lempar.OneStep(g, rows, stack, la).Reduced?
  }

  lemma StepIsReduce(g: Grammar, rows: seq<StateRow>, stack: seq<Lempar.Entry>, la: nat, r: nat)
    requires IsStep(g, rows, stack, la, r)
    ensures Lempar.ReduceStack(g, rows, stack, r) == Lempar.OneStep(g, rows, stack, la)
  {
  }

  lemma StepTakes(g: Grammar, rows: seq<StateRow>, base: seq<Lempar.Entry>, extra: seq<Lempar.Entry>, la: nat, r: nat)
    requires Above(g, rows, base, extra, la) && IsStep(g, rows, base + extra, la, r)
    ensures r < |g.rules| && |g.rules[r].rhs| <= |extra|
  {
  }

  lemma AboveIsStep(g: Grammar, rows: seq<StateRow>, base: seq<Lempar.Entry>, extra: seq<Lempar.Entry>, la: nat)
    returns (r: nat)
    requires Above(g, rows, base, extra, la)
    ensures IsStep(g, rows, base + extra, la, r) && r < |g.rules| && |g.rules[r].rhs| <= |extra|
  {
    hide Lempar.OneStep;
    var stack := base + extra;
    r := TerminalAct(rows[stack[|stack| - 1].stateno], la).rule;
  }

  // What a reduction leaves of the prefix.
  lemma StepBelow(g: Grammar, kernels: seq<set<Item>>, plain: seq<StateRow>, rows: seq<StateRow>,
                  stack: seq<Lempar.Entry>, prefix: seq<Symbol>, la: nat, r: nat) returns (below: seq<Symbol>)
    requires Ready(g, kernels, plain, rows) && la < g.nterminal && Traced(g, kernels, stack, prefix)
    requires IsStep(g, rows, stack, la, r)
    ensures r < |g.rules| && prefix == below + g.rules[r].rhs && SomewhereReduced(g, r)
    ensures Traced(g, kernels, Lempar.OneStep(g, rows, stack, la).stack, below + [N(g.rules[r].lhs)])
  {
    hide Traced, Setting, Reduces, Lempar.OneStep, Lempar.ReduceStack;
    StepIsReduce(g, rows, stack, la, r);
    below := Reduction(g, kernels, plain, rows, stack, prefix, la, r);
  }

  // One more reduction above a stack.
  lemma NextAbove(g: Grammar, kernels: seq<set<Item>>, plain: seq<StateRow>, rows: seq<StateRow>,
                  stack: seq<Lempar.Entry>, prefix: seq<Symbol>, la: nat, extra: seq<Lempar.Entry>, more: seq<Symbol>)
    returns (extra': seq<Lempar.Entry>, more': seq<Symbol>)
    requires Ready(g, kernels, plain, rows) && la < g.nterminal && |stack| == |prefix| + 1
    requires Traced(g, kernels, stack + extra, prefix + more) && Nullable(g, more) && Above(g, rows, stack, extra, la)
    ensures Lempar.OneStep(g, rows, stack + extra, la) == Lempar.Reduced(stack + extra')
    ensures extra' == OneAbove(g, rows, stack, extra, la)
    ensures Traced(g, kernels, stack + extra', prefix + more') && Nullable(g, more')
  {
    hide Ready, Nullable, Above, OneAbove, Traced, IsStep, Lempar.OneStep;
    var r := AboveIsStep(g, rows, stack, extra, la);
    AboveAnywhere(g, rows, stack, stack, extra, la);
    var below := StepBelow(g, kernels, plain, rows, stack + extra, prefix + more, la, r);
    TracedSize(g, kernels, stack + extra, prefix + more);
    var j := |more| - |g.rules[r].rhs|;
    extra', more' := OneAbove(g, rows, stack, extra, la), more[..j] + [N(g.rules[r].lhs)];
    SameParts(prefix, more, below, g.rules[r].rhs);
    VanishesReduced(g, more, r, j);
    assert prefix + more' == below + [N(g.rules[r].lhs)];
  }

  lemma SameParts(prefix: seq<Symbol>, more: seq<Symbol>, below: seq<Symbol>, rhs: seq<Symbol>)
    requires prefix + more == below + rhs && |rhs| <= |more|
    ensures below == prefix + more[..|more| - |rhs|] && rhs == more[|more| - |rhs|..]
  {
    assert (prefix + more)[..|below|] == below && (prefix + more)[|below|..] == rhs;
  }

  lemma VanishesReduced(g: Grammar, more: seq<Symbol>, r: nat, j: nat)
    requires Nullable(g, more) && j <= |more| && r < |g.rules| && more[j..] == g.rules[r].rhs
    ensures Nullable(g, more[..j] + [N(g.rules[r].lhs)])
  {
    hide Nullable;
    assert more[..j] + more[j..] == more;
    NullableConcat(g, more[..j], more[j..]);
    assert Nullable(g, [N(g.rules[r].lhs)]) by { RuleVanishes(g, r); }
    NullableConcat(g, more[..j], [N(g.rules[r].lhs)]);
  }

  lemma AboveFirst(g: Grammar, rows: seq<StateRow>, base: seq<Lempar.Entry>, extra: seq<Lempar.Entry>, la: nat, m: nat,
                   last: seq<Lempar.Entry>)
    requires StepsAbove(g, rows, base, extra, la, m, last) && m > 0
    ensures Above(g, rows, base, extra, la)
    ensures StepsAbove(g, rows, base, OneAbove(g, rows, base, extra, la), la, m - 1, last)
  {
    hide Above, OneAbove;
  }

  // What reductions build above a stack can vanish.
  lemma {:induction false} StepsTraced(g: Grammar, kernels: seq<set<Item>>, plain: seq<StateRow>, rows: seq<StateRow>,
                                       stack: seq<Lempar.Entry>, prefix: seq<Symbol>, la: nat,
                                       extra: seq<Lempar.Entry>, more: seq<Symbol>, m: nat, last: seq<Lempar.Entry>)
    returns (top: seq<Symbol>)
    requires Ready(g, kernels, plain, rows) && la < g.nterminal && |stack| == |prefix| + 1
    requires Traced(g, kernels, stack + extra, prefix + more) && Nullable(g, more)
    requires StepsAbove(g, rows, stack, extra, la, m, last)
    ensures Traced(g, kernels, stack + last, prefix + top) && Nullable(g, top)
    decreases m
  {
    hide Ready, Traced, Nullable, Above, OneAbove, Lempar.OneStep;
    if m == 0 {
      top := more;
    } else {
      AboveFirst(g, rows, stack, extra, la, m, last);
      var extra1, more1 := NextAbove(g, kernels, plain, rows, stack, prefix, la, extra, more);
      top := StepsTraced(g, kernels, plain, rows, stack, prefix, la, extra1, more1, m - 1, last);
    }
  }

  // ---- where no state spins ----

  // Without defaults a reduction is called for.
  lemma ReduceExplicit(g: Grammar, kernels: seq<set<Item>>, rows: seq<StateRow>, k: nat, la: nat, r: nat)
    requires Realizes(g, kernels, rows) && k < |rows| && la < g.nterminal && TerminalAct(rows[k], la) == Reduce(r)
    requires NoDefaults(rows)
    ensures k < |kernels| && Reduces(g, kernels[k], r, la)
  {
    hide Reduces, Leads, InCollection;
    assert RealizesRow(g, kernels, k, rows[k]) && rows[k] in rows;
  }

  // A stack that ends in the state, where the token comes behind the rule.
  lemma ReducedElsewhere(g: Grammar, kernels: seq<set<Item>>, rows: seq<StateRow>, k: nat, r: nat, la: nat)
    returns (other: seq<Lempar.Entry>, longer: seq<Symbol>)
    requires NoChoice(g, kernels, rows) && k < |kernels| && Reduces(g, kernels[k], r, la)
    ensures Traced(g, kernels, other, longer) && CanCome(g, longer, la) && other[|other| - 1].stateno == k
  {
    hide Lalr1, GotoAll, Realizes, LookAhead, InContext, CanBegin, AllStates;
    var it := Item(r, |g.rules[r].rhs|);
    LookaheadsAreContexts(g, kernels[k], it, la);
    longer :| GotoAll(g, longer) == kernels[k] && MeetsBefore(g, longer, it, la);
    var outer, rest, n: nat :| InContext(g, longer, it, outer, rest, n) && CanBegin(g, rest, la);
    ContextStates(g, longer, it, outer, rest, n);
    assert Remaining(g, it) + rest == rest;
    other := StackFor(g, kernels, rows, longer);
    TracedTop(g, kernels, other, longer);
    SameNumber(g, kernels, rows, other[|other| - 1].stateno, k);
  }

  // A state that spins calls for a reduction, without defaults on that token.
  lemma SpinReduces(g: Grammar, kernels: seq<set<Item>>, plain: seq<StateRow>, rows: seq<StateRow>, s: nat, la: nat)
    returns (r: nat, t: nat)
    requires Ready(g, kernels, plain, rows) && la < g.nterminal && Spins(g, rows, s, la)
    ensures s < |kernels| && Reduces(g, kernels[s], r, t) && (NoDefaults(rows) ==> t == la)
  {
    hide Ready, Realizes, SameButDefaults, Lempar.OneStep, StepsAbove, Reduces, Called;
    ReadyNoChoice(g, kernels, plain, rows);
    var m: nat, extra :| Returns(g, rows, s, la, m, extra);
    AboveFirst(g, rows, [Lempar.Entry(s, 0)], [], la, m, extra);
    SameLength(g, kernels, rows);
    r := TerminalAct(rows[s], la).rule;
    if NoDefaults(rows) {
      ReduceExplicit(g, kernels, rows, s, la, r);
      t := la;
    } else {
      ActSame(g, kernels, plain, rows, s, la);
      t :| Reduces(g, kernels[s], r, t);
    }
  }

  lemma SameLength(g: Grammar, kernels: seq<set<Item>>, rows: seq<StateRow>)
    requires Realizes(g, kernels, rows)
    ensures |kernels| == |rows|
  {
    hide RealizesRow, InCollection;
  }

  // Where everything can begin or vanish, a tower that comes back could be built on a token that can come behind it.
  lemma LeadingSpin(g: Grammar, kernels: seq<set<Item>>, plain: seq<StateRow>, rows: seq<StateRow>,
                    stack: seq<Lempar.Entry>, prefix: seq<Symbol>, la: nat, it: Item)
    requires Ready(g, kernels, plain, rows) && AllLead(g) && la < g.nterminal && Traced(g, kernels, stack, prefix)
    requires InClosure(g, GotoAll(g, prefix), it)
    ensures !Spins(g, rows, stack[|stack| - 1].stateno, la)
  {
    hide Ready, AllLead, StepsAbove, Traced, InClosure, GotoAll, Nullable, Tower, CanCome, Meets, Lempar.RunToken,
        NoChoice;
    ReadyNoChoice(g, kernels, plain, rows);
    TracedSize(g, kernels, stack, prefix);
    if Spins(g, rows, stack[|stack| - 1].stateno, la) {
      var m: nat, extra :| Returns(g, rows, stack[|stack| - 1].stateno, la, m, extra);
      StepsAnywhere(g, rows, [Lempar.Entry(stack[|stack| - 1].stateno, 0)], stack, [], la, m, extra);
      assert stack + [] == stack && prefix + [] == prefix;
      NoneVanishes(g);
      var none: seq<Symbol> := [];
      var more := StepsTraced(g, kernels, plain, rows, stack, prefix, la, [], none, m, extra);
      TracedSize(g, kernels, stack + extra, prefix + more);
      TracedTop(g, kernels, stack, prefix);
      TracedTop(g, kernels, stack + extra, prefix + more);
      ItemMet(g, prefix + more, it);
      var a := MetComes(g, prefix + more, it);
      VanishingTower(g, more);
      var n, tower := TowerRun(g, kernels, rows, stack, prefix, more, a);
      TracedSize(g, kernels, stack + tower, prefix + more);
      TracedTop(g, kernels, stack + tower, prefix + more);
      NoChoiceNumber(g, kernels, rows, stack[|stack| - 1].stateno, (stack + tower)[|stack + tower| - 1].stateno);
      var fuel := ComingIsRead(g, kernels, rows, stack, prefix, a);
      Grows(g, rows, stack, tower, a, n, fuel);
    }
  }

  lemma NoChoiceNumber(g: Grammar, kernels: seq<set<Item>>, rows: seq<StateRow>, i: nat, j: nat)
    requires NoChoice(g, kernels, rows) && i < |kernels| && j < |kernels| && kernels[i] == kernels[j]
    ensures i == j
  {
    hide Realizes, Lalr1;
    SameNumber(g, kernels, rows, i, j);
  }

  lemma NoSpin(g: Grammar, kernels: seq<set<Item>>, plain: seq<StateRow>, rows: seq<StateRow>, s: nat, la: nat)
    requires Ready(g, kernels, plain, rows) && la < g.nterminal && (NoDefaults(rows) || AllLead(g))
    ensures !Spins(g, rows, s, la)
  {
    hide Ready, NoChoice, Spins, NoDefaults, AllLead, Traced, CanCome, GotoAll, InClosure, Lempar.RunToken;
    ReadyNoChoice(g, kernels, plain, rows);
    if Spins(g, rows, s, la) {
      var r, t := SpinReduces(g, kernels, plain, rows, s, la);
      var stack, prefix := ReducedElsewhere(g, kernels, rows, s, r, t);
      TracedSize(g, kernels, stack, prefix);
      TracedTop(g, kernels, stack, prefix);
      if NoDefaults(rows) {
        var fuel := ComingIsRead(g, kernels, rows, stack, prefix, la);
        SpinIsEndless(g, rows, stack, la, fuel);
      } else {
        LookIsHeld(g, kernels[s], Item(r, |g.rules[r].rhs|), t);
        LeadingSpin(g, kernels, plain, rows, stack, prefix, la, Item(r, |g.rules[r].rhs|));
      }
    }
  }

  lemma LookIsHeld(g: Grammar, kernel: set<Item>, it: Item, t: nat)
    requires LookAhead(g, kernel, it, t)
    ensures InClosure(g, kernel, it)
  {
    hide InClosure, InCollection, Spontaneous;
    var n: nat :| LookIn(g, kernel, it, t, n);
  }
}

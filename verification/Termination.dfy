/** The driver on an LALR(1) grammar: the run on a token comes to an end if and only if it comes to no state that
  spins. */
module Termination {
  import opened Grammars
  import opened FirstSets
  import opened Automata
  import opened Sorting
  import opened Lalr
  import opened Contexts
  import opened Defaults
  import opened Completeness
  import opened Reading
  import opened Building
  import opened Towers
  import opened Spinning
  import Lempar

  // ---- towers without a state that spins are lower than there are states ----

  // No stack that the run on the token comes to ends in a state that spins on it.
  ghost predicate NeverSpins(g: Grammar, rows: seq<StateRow>, origin: seq<Lempar.Entry>, la: nat) {
    forall m: nat, last | Steps(g, rows, origin, la, m, last) :: !SpinsOn(g, rows, last, la)
  }

  lemma NeverSpinsLater(g: Grammar, rows: seq<StateRow>, origin: seq<Lempar.Entry>, la: nat, m: nat,
                        later: seq<Lempar.Entry>)
    requires NeverSpins(g, rows, origin, la) && Steps(g, rows, origin, la, m, later)
    ensures NeverSpins(g, rows, later, la)
  {
    hide Steps, SpinsOn;
    forall n: nat, last | Steps(g, rows, later, la, n, last) ensures !SpinsOn(g, rows, last, la) {
      StepsTrans(g, rows, origin, la, m, later, n, last);
    }
  }

  // The run from `origin` has come to the stack below the i uppermost entries, and built these entries above it.
  ghost predicate Level(g: Grammar, rows: seq<StateRow>, origin: seq<Lempar.Entry>, stack: seq<Lempar.Entry>, la: nat,
                        i: nat)
    requires i < |stack|
  {
    StackedFrom(g, rows, origin, stack[..|stack| - i], stack[|stack| - i..], la)
  }

  ghost predicate StackedFrom(g: Grammar, rows: seq<StateRow>, origin: seq<Lempar.Entry>, base: seq<Lempar.Entry>,
                            extra: seq<Lempar.Entry>, la: nat)
  {
    && (exists m: nat :: Steps(g, rows, origin, la, m, base))
    && (exists m: nat :: StepsAbove(g, rows, base, [], la, m, extra) && (extra != [] ==> m > 0))
  }

  // The state i entries below the top.
  function Top(stack: seq<Lempar.Entry>, i: nat): nat
    requires i < |stack|
  {
    stack[|stack| - 1 - i].stateno
  }

  // The `up` uppermost entries are a tower that the run has built, all of different states.
  ghost predicate Stacked(g: Grammar, rows: seq<StateRow>, origin: seq<Lempar.Entry>, stack: seq<Lempar.Entry>, la: nat,
                        up: nat)
  {
    && up < |stack|
    && (forall i: nat | i <= up :: Level(g, rows, origin, stack, la, i))
    && (forall i: nat, j: nat | i < j <= up :: Top(stack, i) != Top(stack, j))
  }

  lemma NothingStacked(g: Grammar, rows: seq<StateRow>, stack: seq<Lempar.Entry>, la: nat)
    requires stack != []
    ensures Stacked(g, rows, stack, stack, la, 0)
  {
    assert Steps(g, rows, stack, la, 0, stack);
    StepsNone(g, rows, stack, la);
    assert stack[..|stack|] == stack && stack[|stack|..] == [];
  }

  lemma RaisedLevel(g: Grammar, rows: seq<StateRow>, origin: seq<Lempar.Entry>, stack: seq<Lempar.Entry>, la: nat,
                    i: nat, m0: nat, e: Lempar.Entry)
    requires i < |stack| && Level(g, rows, origin, stack, la, i)
    requires StepsAbove(g, rows, stack, [], la, m0, [e]) && m0 > 0
    ensures Level(g, rows, origin, stack + [e], la, i + 1)
  {
    hide Steps, StepsAbove;
    var base, mid := stack[..|stack| - i], stack[|stack| - i..];
    var m: nat :| StepsAbove(g, rows, base, [], la, m, mid);
    assert base + mid == stack && mid + [] == mid;
    StepsAbovePart(g, rows, base, mid, [], la, m0, [e]);
    StepsAboveTrans(g, rows, base, [], la, m, mid, m0, mid + [e]);
    assert (stack + [e])[..|stack + [e]| - (i + 1)] == base && (stack + [e])[|stack + [e]| - (i + 1)..] == mid + [e];
  }

  lemma NewLevel(g: Grammar, rows: seq<StateRow>, origin: seq<Lempar.Entry>, stack: seq<Lempar.Entry>, la: nat, m0: nat,
                 e: Lempar.Entry)
    requires stack != [] && Level(g, rows, origin, stack, la, 0) && StepsAbove(g, rows, stack, [], la, m0, [e])
    ensures Level(g, rows, origin, stack + [e], la, 0)
  {
    hide Steps, StepsAbove;
    assert stack[..|stack| - 0] == stack && stack + [] == stack;
    var m: nat :| Steps(g, rows, origin, la, m, stack);
    AboveSteps(g, rows, stack, [], la, m0, [e]);
    StepsTrans(g, rows, origin, la, m, stack, m0, stack + [e]);
    var higher := stack + [e];
    assert higher[..|higher| - 0] == higher && higher[|higher| - 0..] == [];
    StepsNone(g, rows, higher, la);
  }

  // A state that came again would spin.
  lemma NewState(g: Grammar, rows: seq<StateRow>, origin: seq<Lempar.Entry>, stack: seq<Lempar.Entry>, la: nat, i: nat)
    requires 0 < i < |stack| && Level(g, rows, origin, stack, la, i) && NeverSpins(g, rows, origin, la)
    ensures Top(stack, i) != Top(stack, 0)
  {
    hide Steps, StepsAbove, Spins;
    var base, extra := stack[..|stack| - i], stack[|stack| - i..];
    var m: nat :| StepsAbove(g, rows, base, [], la, m, extra) && (extra != [] ==> m > 0);
    assert base[|base| - 1].stateno == Top(stack, i) && extra[|extra| - 1].stateno == Top(stack, 0);
    if Top(stack, i) == Top(stack, 0) { ReturnsOn(g, rows, base, la, m, extra); }
  }

  lemma Taller(g: Grammar, rows: seq<StateRow>, origin: seq<Lempar.Entry>, stack: seq<Lempar.Entry>, la: nat, up: nat,
               m0: nat, e: Lempar.Entry)
    requires Stacked(g, rows, origin, stack, la, up) && NeverSpins(g, rows, origin, la)
    requires StepsAbove(g, rows, stack, [], la, m0, [e]) && m0 > 0
    ensures Stacked(g, rows, origin, stack + [e], la, up + 1)
  {
    hide Level, NeverSpins, StepsAbove;
    var higher := stack + [e];
    forall i: nat | i <= up + 1 ensures Level(g, rows, origin, higher, la, i) {
      if i == 0 {
        NewLevel(g, rows, origin, stack, la, m0, e);
      } else {
        RaisedLevel(g, rows, origin, stack, la, i - 1, m0, e);
      }
    }
    forall i: nat, j: nat | i < j <= up + 1 ensures Top(higher, i) != Top(higher, j) {
      assert Top(higher, j) == Top(stack, j - 1);
      if i == 0 { NewState(g, rows, origin, higher, la, j); } else { assert Top(higher, i) == Top(stack, i - 1); }
    }
  }

  lemma TowerShort(g: Grammar, kernels: seq<set<Item>>, rows: seq<StateRow>, origin: seq<Lempar.Entry>,
                   stack: seq<Lempar.Entry>, prefix: seq<Symbol>, la: nat, up: nat)
    requires Traced(g, kernels, stack, prefix) && Stacked(g, rows, origin, stack, la, up)
    ensures up < |kernels|
  {
    hide Level, GotoAll;
    var numbers := seq(up + 1, i requires 0 <= i <= up => Top(stack, i));
    forall i, j | 0 <= i < j <= up ensures numbers[i] != numbers[j] {}
    forall x | x in numbers ensures x < |kernels| {
      var i: nat :| i <= up && numbers[i] == x;
      assert stack[|stack| - 1 - i].stateno < |kernels|;
    }
    Pigeonhole(numbers, |kernels|);
  }

  // ---- the run above a stack ----

  // The reduction of an empty rule above a stack.
  lemma EmptyAbove(g: Grammar, kernels: seq<set<Item>>, plain: seq<StateRow>, rows: seq<StateRow>,
                   stack: seq<Lempar.Entry>, prefix: seq<Symbol>, la: nat)
    returns (e: Lempar.Entry, A: nat)
    requires Ready(g, kernels, plain, rows) && la < g.nterminal && Traced(g, kernels, stack, prefix)
    requires Above(g, rows, stack, [], la)
    ensures StepsAbove(g, rows, stack, [], la, 1, [e]) && Traced(g, kernels, stack + [e], prefix + [N(A)])
    ensures Nullable(g, [N(A)])
  {
    hide Ready, Nullable, Above, OneAbove, Traced, IsStep, SomewhereReduced, Lempar.OneStep;
    TracedSize(g, kernels, stack, prefix);
    assert stack + [] == stack;
    var r := AboveIsStep(g, rows, stack, [], la);
    AboveAnywhere(g, rows, stack, stack, [], la);
    var below := StepBelow(g, kernels, plain, rows, stack, prefix, la, r);
    assert g.rules[r].rhs == [] && below == prefix;
    NoneVanishes(g);
    RuleVanishes(g, r);
    A := g.rules[r].lhs;
    var left := OneAbove(g, rows, stack, [], la);
    TracedSize(g, kernels, stack + left, prefix + [N(A)]);
    e := left[0];
    assert left == [e];
    OneStepAbove(g, rows, stack, [], la, left);
  }

  lemma OneStepAbove(g: Grammar, rows: seq<StateRow>, base: seq<Lempar.Entry>, extra: seq<Lempar.Entry>, la: nat,
                     left: seq<Lempar.Entry>)
    requires Above(g, rows, base, extra, la) && OneAbove(g, rows, base, extra, la) == left
    ensures StepsAbove(g, rows, base, extra, la, 1, left)
  {
    hide Above, OneAbove;
    assert StepsAbove(g, rows, base, left, la, 0, left);
  }

  // Above a stack the run comes to an end: its towers are lower than there are states, ...
  lemma {:induction false} LocalEnds(g: Grammar, kernels: seq<set<Item>>, plain: seq<StateRow>, rows: seq<StateRow>,
                                     origin: seq<Lempar.Entry>, stack: seq<Lempar.Entry>, prefix: seq<Symbol>, la: nat,
                                     up: nat)
    returns (m: nat, extra: seq<Lempar.Entry>, more: seq<Symbol>)
    requires Ready(g, kernels, plain, rows) && NeverSpins(g, rows, origin, la) && la < g.nterminal
    requires Traced(g, kernels, stack, prefix) && Stacked(g, rows, origin, stack, la, up) && up <= |kernels|
    ensures StepsAbove(g, rows, stack, [], la, m, extra) && !Above(g, rows, stack, extra, la)
    ensures Traced(g, kernels, stack + extra, prefix + more) && Nullable(g, more)
    decreases |kernels| - up, 0, 0
  {
    hide Ready, NeverSpins, Stacked, Nullable, Above, StepsAbove, Lempar.OneStep, GotoAll, Traced;
    if !Above(g, rows, stack, [], la) {
      m, extra, more := 0, [], [];
      StepsNone(g, rows, stack, la);
      NoneVanishes(g);
      assert stack + [] == stack && prefix + [] == prefix;
    } else {
      TowerShort(g, kernels, rows, origin, stack, prefix, la, up);
      var e, A := EmptyAbove(g, kernels, plain, rows, stack, prefix, la);
      TracedSize(g, kernels, stack, prefix);
      m, extra, more := LevelEnds(g, kernels, plain, rows, origin, stack, prefix, la, up, 1, e, A, []);
    }
  }

  // ... and on one level no nonterminal comes back.
  lemma {:induction false} LevelEnds(g: Grammar, kernels: seq<set<Item>>, plain: seq<StateRow>, rows: seq<StateRow>,
                                     origin: seq<Lempar.Entry>, stack: seq<Lempar.Entry>, prefix: seq<Symbol>, la: nat,
                                     up: nat, m0: nat, e: Lempar.Entry, A: nat, chain: seq<nat>)
    returns (m: nat, extra: seq<Lempar.Entry>, more: seq<Symbol>)
    requires Ready(g, kernels, plain, rows) && NeverSpins(g, rows, origin, la) && la < g.nterminal
    requires |stack| == |prefix| + 1 && Stacked(g, rows, origin, stack, la, up) && up < |kernels|
    requires Traced(g, kernels, stack + [e], prefix + [N(A)]) && Nullable(g, [N(A)])
    requires StepsAbove(g, rows, stack, [], la, m0, [e]) && m0 > 0
    requires UnitChain(g, chain) && |chain| <= g.nsymbol && (chain != [] ==> LeftSide(g, chain[|chain| - 1]) == A)
    ensures StepsAbove(g, rows, stack, [], la, m, extra) && !Above(g, rows, stack, extra, la)
    ensures Traced(g, kernels, stack + extra, prefix + more) && Nullable(g, more)
    decreases |kernels| - (up + 1), 1, g.nsymbol - |chain|
  {
    hide Ready, NeverSpins, Stacked, Nullable, Above, StepsAbove, Lempar.OneStep, GotoAll, Traced, UnitChain;
    Taller(g, rows, origin, stack, la, up, m0, e);
    var m1, extra1, more1 := LocalEnds(g, kernels, plain, rows, origin, stack + [e], prefix + [N(A)], la, up + 1);
    StepsAbovePart(g, rows, stack, [e], [], la, m1, extra1);
    assert [e] + [] == [e];
    StepsAboveTrans(g, rows, stack, [], la, m0, [e], m1, [e] + extra1);
    m, extra, more := m0 + m1, [e] + extra1, [N(A)] + more1;
    assert stack + [e] + extra1 == stack + extra && prefix + [N(A)] + more1 == prefix + more;
    NullableConcat(g, [N(A)], more1);
    if Above(g, rows, stack, extra, la) {
      var e', r := SameLevel(g, kernels, plain, rows, stack, prefix, la, e, A, extra1, more1);
      ReadyNoChoice(g, kernels, plain, rows);
      assert UnitChain(g, chain + [r]) by { LongerChain(g, chain, r); }
      ChainShort(g, kernels, rows, chain + [r]);
      StepsAboveSnoc(g, rows, stack, [], la, m, extra);
      m, extra, more := LevelEnds(g, kernels, plain, rows, origin, stack, prefix, la, up, m + 1, e', g.rules[r].lhs,
        chain + [r]);
    }
  }

  lemma LongerChain(g: Grammar, chain: seq<nat>, r: nat)
    requires UnitChain(g, chain) && UnitRule(g, r) && SomewhereReduced(g, r)
    requires chain != [] ==> Under(g, r) == LeftSide(g, chain[|chain| - 1])
    ensures UnitChain(g, chain + [r])
  {
    hide UnitRule, SomewhereReduced, Under;
  }

  // The next reduction replaces what is above the stack by one nonterminal.
  lemma SameLevel(g: Grammar, kernels: seq<set<Item>>, plain: seq<StateRow>, rows: seq<StateRow>,
                  stack: seq<Lempar.Entry>, prefix: seq<Symbol>, la: nat, e: Lempar.Entry, A: nat,
                  extra: seq<Lempar.Entry>, more: seq<Symbol>)
    returns (e': Lempar.Entry, r: nat)
    requires Ready(g, kernels, plain, rows) && la < g.nterminal && |stack| == |prefix| + 1
    requires Traced(g, kernels, stack + [e] + extra, prefix + [N(A)] + more) && Nullable(g, more)
    requires Nullable(g, [N(A)] + more)
    requires !Above(g, rows, stack + [e], extra, la) && Above(g, rows, stack, [e] + extra, la)
    ensures UnitRule(g, r) && Under(g, r) == A && SomewhereReduced(g, r)
    ensures Lempar.OneStep(g, rows, stack + ([e] + extra), la) == Lempar.Reduced(stack + [e'])
    ensures Traced(g, kernels, stack + [e'], prefix + [N(g.rules[r].lhs)]) && Nullable(g, [N(g.rules[r].lhs)])
  {
    hide Ready, GotoAll, Nullable, SomewhereReduced, Above, OneAbove, Lempar.OneStep, Traced, IsStep;
    var whole, longer := stack + [e] + extra, prefix + [N(A)] + more;
    assert stack + ([e] + extra) == whole;
    AboveAnywhere(g, rows, stack, stack, [e] + extra, la);
    var below;
    below, r := LastReduction(g, kernels, plain, rows, stack + [e], prefix + [N(A)], la, extra, more);
    TracedSize(g, kernels, whole, longer);
    StepTakes(g, rows, stack, [e] + extra, la, r);
    AllTaken(prefix, A, more, below, g.rules[r].rhs);
    RuleVanishes(g, r);
    var left := OneAbove(g, rows, stack, [e] + extra, la);
    TracedSize(g, kernels, stack + left, below + [N(g.rules[r].lhs)]);
    e' := left[0];
    assert left == [e'];
  }

  // The right-hand side is all that is above the prefix.
  lemma AllTaken(prefix: seq<Symbol>, A: nat, more: seq<Symbol>, below: seq<Symbol>, rhs: seq<Symbol>)
    requires prefix + [N(A)] + more == below + rhs && |more| < |rhs| <= |more| + 1
    ensures below == prefix && rhs == [N(A)] + more && rhs[1..] == more
  {
    var whole := prefix + [N(A)] + more;
    assert whole[..|prefix|] == prefix && whole[|prefix|..] == [N(A)] + more;
    assert (below + rhs)[..|below|] == below && (below + rhs)[|below|..] == rhs;
  }

  // Reductions above a stack come to an end.
  lemma AboveEnds(g: Grammar, kernels: seq<set<Item>>, plain: seq<StateRow>, rows: seq<StateRow>,
                  stack: seq<Lempar.Entry>, prefix: seq<Symbol>, la: nat)
    returns (m: nat, extra: seq<Lempar.Entry>, more: seq<Symbol>)
    requires Ready(g, kernels, plain, rows) && la < g.nterminal && Traced(g, kernels, stack, prefix)
    requires NeverSpins(g, rows, stack, la)
    ensures StepsAbove(g, rows, stack, [], la, m, extra) && !Above(g, rows, stack, extra, la)
    ensures Traced(g, kernels, stack + extra, prefix + more) && Nullable(g, more)
  {
    hide Ready, Traced, Stacked, NeverSpins, StepsAbove, Above, Nullable;
    TracedSize(g, kernels, stack, prefix);
    NothingStacked(g, rows, stack, la);
    m, extra, more := LocalEnds(g, kernels, plain, rows, stack, stack, prefix, la, 0);
  }

  // ---- every run comes to an end ----

  // What the next reduction takes from the stack itself.
  lemma TakenBelow(prefix: seq<Symbol>, more: seq<Symbol>, below: seq<Symbol>, rhs: seq<Symbol>)
    requires prefix + more == below + rhs && |rhs| > |more|
    ensures prefix != [] && |below| < |prefix|
    ensures |below| + 1 == |prefix| ==> rhs != [] && rhs[0] == prefix[|prefix| - 1] && rhs[1..] == more
  {
    assert (prefix + more)[|below|..] == rhs;
    if |below| + 1 == |prefix| { assert (prefix + more)[|below|..] == [prefix[|below|]] + more; }
  }

  // The reduction that takes something from the stack itself.
  lemma LastReduction(g: Grammar, kernels: seq<set<Item>>, plain: seq<StateRow>, rows: seq<StateRow>,
                      stack: seq<Lempar.Entry>, prefix: seq<Symbol>, la: nat, extra: seq<Lempar.Entry>,
                      more: seq<Symbol>)
    returns (below: seq<Symbol>, r: nat)
    requires Ready(g, kernels, plain, rows) && la < g.nterminal && |stack| == |prefix| + 1
    requires Traced(g, kernels, stack + extra, prefix + more) && !Above(g, rows, stack, extra, la)
    requires Lempar.OneStep(g, rows, stack + extra, la).Reduced?
    ensures r < |g.rules| && prefix + more == below + g.rules[r].rhs && |g.rules[r].rhs| > |more|
    ensures IsStep(g, rows, stack + extra, la, r)
    ensures Traced(g, kernels, Lempar.OneStep(g, rows, stack + extra, la).stack, below + [N(g.rules[r].lhs)])
    ensures SomewhereReduced(g, r)
  {
    hide Ready, Traced, SomewhereReduced, Lempar.ReduceStack;
    var whole := stack + extra;
    r := TerminalAct(rows[whole[|whole| - 1].stateno], la).rule;
    TracedSize(g, kernels, whole, prefix + more);
    below := StepBelow(g, kernels, plain, rows, whole, prefix + more, la, r);
  }

  // Where the last symbol is no nonterminal a reduction makes it one.
  function Kind(prefix: seq<Symbol>): nat {
    if prefix != [] && prefix[|prefix| - 1].N? then 0 else 1
  }

  ghost predicate EndsChain(g: Grammar, prefix: seq<Symbol>, chain: seq<nat>) {
    chain != [] ==>
      && prefix != [] && chain[|chain| - 1] < |g.rules|
      && prefix[|prefix| - 1] == N(LeftSide(g, chain[|chain| - 1]))
  }

  lemma NextChain(g: Grammar, kernels: seq<set<Item>>, rows: seq<StateRow>, prefix: seq<Symbol>, more: seq<Symbol>,
                  below: seq<Symbol>, la: nat, r: nat, chain: seq<nat>) returns (chain': seq<nat>)
    requires NoChoice(g, kernels, rows) && la < g.nterminal && r < |g.rules| && SomewhereReduced(g, r)
    requires UnitChain(g, chain) && EndsChain(g, prefix, chain) && |chain| <= g.nsymbol && Nullable(g, more)
    requires prefix != [] && |below| < |prefix|
    requires |below| + 1 == |prefix| ==>
      g.rules[r].rhs != [] && g.rules[r].rhs[0] == prefix[|prefix| - 1] && g.rules[r].rhs[1..] == more
    ensures UnitChain(g, chain') && EndsChain(g, below + [N(g.rules[r].lhs)], chain') && |chain'| <= g.nsymbol
    ensures |below| + 1 < |prefix| || Kind(prefix) > 0 || |chain'| > |chain|
  {
    hide NoChoice, SomewhereReduced, Nullable;
    chain' := [];
    if |below| + 1 == |prefix| && prefix[|prefix| - 1].N? {
      chain' := chain + [r];
      assert UnitChain(g, chain');
      ChainShort(g, kernels, rows, chain');
    }
  }

  lemma RunLast(g: Grammar, rows: seq<StateRow>, stack: seq<Lempar.Entry>, la: nat, fuel: nat)
    ensures var one := Lempar.OneStep(g, rows, stack, la);
      if one.Reduced?
      then Lempar.RunToken(g, rows, stack, la, fuel + 1) == Lempar.RunToken(g, rows, one.stack, la, fuel)
      else !Lempar.RunToken(g, rows, stack, la, fuel + 1).OutOfFuel?
  {
  }

  // The token comes to an end: it is shifted, accepted, or found wrong.
  lemma {:induction false} TokenEnds(g: Grammar, kernels: seq<set<Item>>, plain: seq<StateRow>, rows: seq<StateRow>,
                                     stack: seq<Lempar.Entry>, prefix: seq<Symbol>, la: nat, chain: seq<nat>)
    returns (fuel: nat)
    requires Ready(g, kernels, plain, rows) && la < g.nterminal && Traced(g, kernels, stack, prefix)
    requires NeverSpins(g, rows, stack, la)
    requires UnitChain(g, chain) && EndsChain(g, prefix, chain) && |chain| <= g.nsymbol
    ensures !Lempar.RunToken(g, rows, stack, la, fuel).OutOfFuel?
    decreases |stack|, Kind(prefix), g.nsymbol - |chain|
  {
    hide Ready, NeverSpins, GotoAll, Nullable, Above, StepsAbove, UnitChain, Lempar.OneStep, Steps;
    var m, extra, more := AboveEnds(g, kernels, plain, rows, stack, prefix, la);
    AboveSteps(g, rows, stack, [], la, m, extra);
    assert stack + [] == stack;
    var one := Lempar.OneStep(g, rows, stack + extra, la);
    fuel := m + 1;
    if one.Reduced? {
      var below, r := LastReduction(g, kernels, plain, rows, stack, prefix, la, extra, more);
      TakenBelow(prefix, more, below, g.rules[r].rhs);
      ReadyNoChoice(g, kernels, plain, rows);
      var chain' := NextChain(g, kernels, rows, prefix, more, below, la, r, chain);
      OneMore(g, rows, stack, la, m, stack + extra);
      NeverSpinsLater(g, rows, stack, la, m + 1, one.stack);
      var rest := TokenEnds(g, kernels, plain, rows, one.stack, below + [N(g.rules[r].lhs)], la, chain');
      fuel := m + 1 + rest;
    }
    RunLast(g, rows, stack + extra, la, fuel - m - 1);
    StepsRun(g, rows, stack, la, m, stack + extra, fuel);
  }

  lemma OneMore(g: Grammar, rows: seq<StateRow>, a: seq<Lempar.Entry>, la: nat, m: nat, b: seq<Lempar.Entry>)
    requires Steps(g, rows, a, la, m, b) && Lempar.OneStep(g, rows, b, la).Reduced?
    ensures Steps(g, rows, a, la, m + 1, Lempar.OneStep(g, rows, b, la).stack)
  {
    hide Lempar.OneStep;
    var c := Lempar.OneStep(g, rows, b, la).stack;
    assert Steps(g, rows, c, la, 0, c);
    assert Steps(g, rows, b, la, 1, c);
    StepsTrans(g, rows, a, la, m, b, 1, c);
  }

  // The run on a token ends if and only if it comes to no state that spins.
  lemma TokenEndsExactly(g: Grammar, kernels: seq<set<Item>>, plain: seq<StateRow>, rows: seq<StateRow>,
                         stack: seq<Lempar.Entry>, prefix: seq<Symbol>, la: nat)
    requires Ready(g, kernels, plain, rows) && la < g.nterminal && Traced(g, kernels, stack, prefix)
    ensures (exists fuel: nat :: !Lempar.RunToken(g, rows, stack, la, fuel).OutOfFuel?)
      <==> NeverSpins(g, rows, stack, la)
  {
    hide Ready, Traced, Steps, SpinsOn, Lempar.RunToken;
    if NeverSpins(g, rows, stack, la) {
      var fuel := TokenEnds(g, kernels, plain, rows, stack, prefix, la, []);
    } else {
      var m: nat, last :| Steps(g, rows, stack, la, m, last) && SpinsOn(g, rows, last, la);
      forall fuel: nat ensures Lempar.RunToken(g, rows, stack, la, fuel).OutOfFuel? {
        SpinAhead(g, rows, stack, la, m, last, fuel);
      }
    }
  }

  lemma SpinAhead(g: Grammar, rows: seq<StateRow>, stack: seq<Lempar.Entry>, la: nat, m: nat, last: seq<Lempar.Entry>,
                  fuel: nat)
    requires Steps(g, rows, stack, la, m, last) && SpinsOn(g, rows, last, la)
    ensures Lempar.RunToken(g, rows, stack, la, fuel).OutOfFuel?
  {
    hide SpinsOn, Steps, Lempar.RunToken;
    StepsRun(g, rows, stack, la, m, last, fuel);
    if fuel > m { SpinIsEndless(g, rows, last, la, fuel - m); }
  }

  // ---- whole inputs ----

  // Whatever is left of a token, the stack is still that of a prefix.
  lemma {:induction false} RunTraced(g: Grammar, kernels: seq<set<Item>>, plain: seq<StateRow>, rows: seq<StateRow>,
                                     stack: seq<Lempar.Entry>, prefix: seq<Symbol>, la: nat, fuel: nat)
    requires Ready(g, kernels, plain, rows) && la < g.nterminal && Traced(g, kernels, stack, prefix)
    ensures var res := Lempar.RunToken(g, rows, stack, la, fuel);
      res.Shifted? || res.SyntaxError? ==> exists longer :: Traced(g, kernels, res.stack, longer)
    decreases fuel
  {
    hide Lalr1, GotoAll, Realizes, CallsFor, SameButDefaults, Lempar.ReduceStack, Called, Reduces;
    TracedTop(g, kernels, stack, prefix);
    var k := stack[|stack| - 1].stateno;
    ActSame(g, kernels, plain, rows, k, la);
    match TerminalAct(rows[k], la)
    case Shift(to) => ShiftReads(g, kernels, stack, prefix, la, to);
    case Reduce(r) =>
      var one := Lempar.ReduceStack(g, rows, stack, r);
      ReducesOnly(g, rows, stack, r);
      ReduceNoError(g, rows, stack, r);
      if one.Reduced? && fuel > 0 {
        var below := Reduction(g, kernels, plain, rows, stack, prefix, la, r);
        RunTraced(g, kernels, plain, rows, one.stack, below + [N(g.rules[r].lhs)], la, fuel - 1);
      }
    case _ =>
  }

  lemma ReduceNoError(g: Grammar, rows: seq<StateRow>, stack: seq<Lempar.Entry>, r: nat)
    ensures !Lempar.ReduceStack(g, rows, stack, r).SyntaxError?
  {
  }

  // The run on one token leaves the stack for the next one.
  ghost predicate Leaves(g: Grammar, rows: seq<StateRow>, stack: seq<Lempar.Entry>, la: nat, next: seq<Lempar.Entry>) {
    exists fuel: nat :: LeavesIn(g, rows, stack, la, next, fuel)
  }

  ghost predicate LeavesIn(g: Grammar, rows: seq<StateRow>, stack: seq<Lempar.Entry>, la: nat, next: seq<Lempar.Entry>,
                           fuel: nat)
  {
    var one := Lempar.RunToken(g, rows, stack, la, fuel);
    (one.Shifted? || one.SyntaxError?) && one.stack == next
  }

  // On every token of the input, one after the other, the run comes to no state that spins on it.
  ghost predicate NowhereSpins(g: Grammar, rows: seq<StateRow>, stack: seq<Lempar.Entry>, w: seq<nat>)
    decreases |w|
  {
    && NeverSpins(g, rows, stack, Cur(w))
    && (w != [] ==> forall next | Leaves(g, rows, stack, w[0], next) :: NowhereSpins(g, rows, next, w[1..]))
  }

  // With fuel enough the run over an input comes to a result, and more fuel does not change it.
  lemma {:induction false} InputEnds(g: Grammar, kernels: seq<set<Item>>, plain: seq<StateRow>, rows: seq<StateRow>,
                                     stack: seq<Lempar.Entry>, prefix: seq<Symbol>, w: seq<nat>, kept: seq<nat>)
    returns (bound: nat, res: Lempar.InputResult)
    requires Ready(g, kernels, plain, rows) && NowhereSpins(g, rows, stack, w)
    requires Traced(g, kernels, stack, prefix) && Tokens(g, w)
    ensures !res.Unfinished?
    ensures forall fuel: nat | fuel >= bound :: Lempar.RunInput(g, rows, stack, w, kept, fuel) == res
    decreases |w|
  {
    hide Lalr1, Realizes, SameButDefaults, Traced, NeverSpins, Lempar.RunToken;
    var la := Cur(w);
    assert la < g.nterminal by { if w != [] { assert w[0] in w; } }
    var enough := TokenEnds(g, kernels, plain, rows, stack, prefix, la, []);
    RunTraced(g, kernels, plain, rows, stack, prefix, la, enough);
    var one := Lempar.RunToken(g, rows, stack, la, enough);
    forall fuel: nat | fuel >= enough ensures Lempar.RunToken(g, rows, stack, la, fuel) == one {
      FuelEnough(g, rows, stack, la, enough, fuel);
    }
    if w != [] && (one.Shifted? || one.SyntaxError?) {
      var longer :| Traced(g, kernels, one.stack, longer);
      assert Tokens(g, w[1..]) by { forall x | x in w[1..] ensures x in w {} }
      assert LeavesIn(g, rows, stack, w[0], one.stack, enough);
      var kept' := if one.Shifted? then kept + [w[0]] else kept;
      bound, res := InputEnds(g, kernels, plain, rows, one.stack, longer, w[1..], kept');
      bound := if bound > enough then bound else enough;
    } else {
      bound, res := enough, Lempar.RunInput(g, rows, stack, w, kept, enough);
    }
  }

  // Where a state spins no fuel is enough.
  lemma {:induction false} SpinUnfinished(g: Grammar, rows: seq<StateRow>, stack: seq<Lempar.Entry>, w: seq<nat>,
                                          kept: seq<nat>, fuel: nat)
    requires !NowhereSpins(g, rows, stack, w)
    ensures Lempar.RunInput(g, rows, stack, w, kept, fuel).Unfinished?
    decreases |w|
  {
    hide Steps, SpinsOn, Lempar.RunToken;
    if !NeverSpins(g, rows, stack, Cur(w)) {
      var m: nat, last :| Steps(g, rows, stack, Cur(w), m, last) && SpinsOn(g, rows, last, Cur(w));
      SpinAhead(g, rows, stack, Cur(w), m, last, fuel);
    } else {
      var next :| Leaves(g, rows, stack, w[0], next) && !NowhereSpins(g, rows, next, w[1..]);
      var enough: nat :| LeavesIn(g, rows, stack, w[0], next, enough);
      var one := Lempar.RunToken(g, rows, stack, w[0], enough);
      SameEnd(g, rows, stack, w[0], enough, fuel);
      SpinUnfinished(g, rows, next, w[1..], if one.Shifted? then kept + [w[0]] else kept, fuel);
    }
  }

  lemma SameEnd(g: Grammar, rows: seq<StateRow>, stack: seq<Lempar.Entry>, la: nat, a: nat, b: nat)
    requires !Lempar.RunToken(g, rows, stack, la, a).OutOfFuel?
    ensures var one := Lempar.RunToken(g, rows, stack, la, b);
      one.OutOfFuel? || one == Lempar.RunToken(g, rows, stack, la, a)
  {
    hide Lempar.RunToken;
    if !Lempar.RunToken(g, rows, stack, la, b).OutOfFuel? {
      if a <= b { FuelEnough(g, rows, stack, la, a, b); } else { FuelEnough(g, rows, stack, la, b, a); }
    }
  }

  // The run over the input comes to one result.
  ghost predicate Settles(g: Grammar, rows: seq<StateRow>, w: seq<nat>) {
    exists bound: nat, res :: SettlesAt(g, rows, w, bound, res)
  }

  ghost predicate SettlesAt(g: Grammar, rows: seq<StateRow>, w: seq<nat>, bound: nat, res: Lempar.InputResult) {
    && !res.Unfinished?
    && forall fuel: nat | fuel >= bound :: Lempar.RunInput(g, rows, [Lempar.BOTTOM], w, [], fuel) == res
  }

  // For an LALR(1) grammar the driver comes to an end on exactly those inputs on which no state spins.
  lemma DriverEnds(g: Grammar, kernels: seq<set<Item>>, plain: seq<StateRow>, rows: seq<StateRow>, w: seq<nat>)
    requires Ready(g, kernels, plain, rows) && Tokens(g, w)
    ensures Settles(g, rows, w) <==> NowhereSpins(g, rows, [Lempar.BOTTOM], w)
  {
    hide Lalr1, RealizesRow, InCollection, SameButDefaults, NowhereSpins, Lempar.RunInput;
    BottomTraced(g, kernels, rows);
    if NowhereSpins(g, rows, [Lempar.BOTTOM], w) {
      var bound, res := InputEnds(g, kernels, plain, rows, [Lempar.BOTTOM], [], w, []);
      assert SettlesAt(g, rows, w, bound, res);
    } else if Settles(g, rows, w) {
      var bound: nat, res :| SettlesAt(g, rows, w, bound, res);
      SpinUnfinished(g, rows, [Lempar.BOTTOM], w, [], bound);
    }
  }

  // So it does on every input, if no default reductions are used, or if every nonterminal can vanish or begin
  // something.
  lemma DriverAlwaysEnds(g: Grammar, kernels: seq<set<Item>>, plain: seq<StateRow>, rows: seq<StateRow>, w: seq<nat>)
    requires Ready(g, kernels, plain, rows) && (NoDefaults(rows) || AllLead(g)) && Tokens(g, w)
    ensures Settles(g, rows, w)
  {
    hide Ready, NoDefaults, AllLead, NowhereSpins, Settles;
    AnywhereSpins(g, kernels, plain, rows, [Lempar.BOTTOM], w);
    DriverEnds(g, kernels, plain, rows, w);
  }

  lemma {:induction false} AnywhereSpins(g: Grammar, kernels: seq<set<Item>>, plain: seq<StateRow>,
                                         rows: seq<StateRow>, stack: seq<Lempar.Entry>, w: seq<nat>)
    requires Ready(g, kernels, plain, rows) && (NoDefaults(rows) || AllLead(g)) && Tokens(g, w)
    ensures NowhereSpins(g, rows, stack, w)
    decreases |w|
  {
    hide Ready, NoDefaults, AllLead, Spins, Steps, Leaves;
    ReadyNoChoice(g, kernels, plain, rows);
    var la := Cur(w);
    assert la < g.nterminal by { TokenValid(g, kernels, plain, rows, w); }
    assert NeverSpins(g, rows, stack, la) by {
      forall s: nat ensures !Spins(g, rows, s, la) { NoSpin(g, kernels, plain, rows, s, la); }
    }
    if w != [] {
      assert Tokens(g, w[1..]) by { forall x | x in w[1..] ensures x in w {} }
      forall next | Leaves(g, rows, stack, w[0], next) ensures NowhereSpins(g, rows, next, w[1..]) {
        AnywhereSpins(g, kernels, plain, rows, next, w[1..]);
      }
    }
  }

  lemma TokenValid(g: Grammar, kernels: seq<set<Item>>, plain: seq<StateRow>, rows: seq<StateRow>, w: seq<nat>)
    requires Ready(g, kernels, plain, rows) && Tokens(g, w)
    ensures Cur(w) < g.nterminal
  {
    hide Lalr1, Realizes, SameButDefaults;
    if w != [] { assert w[0] in w; }
  }
}

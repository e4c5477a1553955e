/** In an LALR(1) grammar no nonterminal is reduced to itself; and what can vanish is built above a stack, on every
  token that can come behind it. */
module Towers {
  import opened Options
  import opened Grammars
  import opened FirstSets
  import opened Automata
  import opened Lalr
  import opened Contexts
  import opened Defaults
  import opened Leftmost
  import opened Reading
  import opened Building
  import opened Sorting
  import Lempar

  // ---- one nonterminal after the other in the same place ----

  // Its right-hand side is one nonterminal, and things that can vanish.
  ghost predicate UnitRule(g: Grammar, r: nat) {
    r < |g.rules| && g.rules[r].rhs != [] && g.rules[r].rhs[0].N? && Nullable(g, g.rules[r].rhs[1..])
  }

  // The nonterminal that the rule begins with.
  function Under(g: Grammar, r: nat): nat {
    if r < |g.rules| && g.rules[r].rhs != [] && g.rules[r].rhs[0].N? then g.rules[r].rhs[0].index else 0
  }

  function LeftSide(g: Grammar, r: nat): nat {
    if r < |g.rules| then g.rules[r].lhs else 0
  }

  // Some state reduces by the rule on some token.
  ghost predicate SomewhereReduced(g: Grammar, r: nat) {
    exists kernel, t: nat :: Reduces(g, kernel, r, t)
  }

  ghost predicate UnitChain(g: Grammar, chain: seq<nat>) {
    && (forall r <- chain :: UnitRule(g, r) && SomewhereReduced(g, r))
    && forall i | 0 < i < |chain| :: Under(g, chain[i]) == LeftSide(g, chain[i - 1])
  }

  // A rule of the chain, expected behind a prefix with the token behind it: the run climbs up to it.
  lemma {:induction false} Climb(g: Grammar, kernels: seq<set<Item>>, rows: seq<StateRow>, stack: seq<Lempar.Entry>,
                                 prefix: seq<Symbol>, la: nat, chain: seq<nat>, j: nat, rest: seq<Symbol>, n: nat)
    returns (m: nat)
    requires NoChoice(g, kernels, rows) && Traced(g, kernels, stack, prefix) && la < g.nterminal
    requires UnitChain(g, chain) && j < |chain|
    requires Expected(g, prefix, LeftSide(g, chain[j]), rest, n) && CanBegin(g, rest, la) && n > 0
    ensures Steps(g, rows, Pushed(rows, stack, LeftSide(g, chain[0])), la, m,
      Pushed(rows, stack, LeftSide(g, chain[j])))
    decreases j
  {
    hide NoChoice, Expected, Lempar.OneStep, CanBegin, GotoAll, Traced, Nullable, SomewhereReduced, Pushed;
    if j == 0 {
      m := 0;
    } else {
      var r := chain[j];
      assert r in chain && chain[j - 1] in chain;
      var m2 := ClimbOne(g, kernels, rows, stack, prefix, la, r, rest, n);
      UnderExpected(g, prefix, r, rest, n, la);
      var m1 := Climb(g, kernels, rows, stack, prefix, la, chain, j - 1, g.rules[r].rhs[1..] + rest, n + 1);
      m := m1 + m2;
      StepsTrans(g, rows, Pushed(rows, stack, LeftSide(g, chain[0])), la, m1,
        Pushed(rows, stack, LeftSide(g, chain[j - 1])), m2, Pushed(rows, stack, g.rules[r].lhs));
    }
  }

  // What the rule begins with is expected too.
  lemma UnderExpected(g: Grammar, prefix: seq<Symbol>, r: nat, rest: seq<Symbol>, n: nat, la: nat)
    requires UnitRule(g, r) && Expected(g, prefix, g.rules[r].lhs, rest, n) && CanBegin(g, rest, la)
    ensures Expected(g, prefix, Under(g, r), g.rules[r].rhs[1..] + rest, n + 1)
    ensures CanBegin(g, g.rules[r].rhs[1..] + rest, la)
  {
    hide CanBegin, Nullable, Expected;
    var it := Item(r, 0);
    assert prefix + Past(g, it) == prefix && Rest(g, it) == g.rules[r].rhs[1..];
    assert Introduces(g, it, prefix, rest, prefix, Under(g, r), g.rules[r].rhs[1..] + rest);
    ExpectedNext(g, it, prefix, rest, n, prefix, Under(g, r), g.rules[r].rhs[1..] + rest);
    CanBeginConcat(g, g.rules[r].rhs[1..], rest, la);
  }

  // From what the rule begins with to its left-hand side.
  lemma ClimbOne(g: Grammar, kernels: seq<set<Item>>, rows: seq<StateRow>, stack: seq<Lempar.Entry>,
                 prefix: seq<Symbol>, la: nat, r: nat, rest: seq<Symbol>, n: nat) returns (m: nat)
    requires NoChoice(g, kernels, rows) && Traced(g, kernels, stack, prefix) && la < g.nterminal && UnitRule(g, r)
    requires Expected(g, prefix, g.rules[r].lhs, rest, n) && CanBegin(g, rest, la) && n > 0
    ensures m > 0
    ensures Steps(g, rows, Pushed(rows, stack, Under(g, r)), la, m, Pushed(rows, stack, g.rules[r].lhs))
  {
    hide NoChoice, Expected, Lempar.OneStep, CanBegin, GotoAll, Nullable, Steps;
    var B := Under(g, r);
    var it := Item(r, 1);
    UnderExpected(g, prefix, r, rest, n, la);
    PushTraced(g, kernels, rows, stack, prefix, B, g.rules[r].rhs[1..] + rest, n + 1);
    assert Past(g, it) == [N(B)] && Remaining(g, it) == g.rules[r].rhs[1..];
    assert InContext(g, prefix + [N(B)], it, prefix, rest, n);
    var d := LeftVanishes(g, Remaining(g, it));
    var top := Pushed(rows, stack, B);
    PushedLast(rows, stack, B, top);
    var extra := [top[|stack|]];
    var e;
    m, e := EraseRun(g, kernels, rows, stack, extra, prefix + [N(B)], la, it, prefix, rest, n, d);
    AboveSteps(g, rows, stack, extra, la, m, [e]);
  }

  lemma UnderNotStart(g: Grammar, r: nat)
    requires g.StartNotOnRhs() && UnitRule(g, r)
    ensures Under(g, r) != g.start
  {
    hide Nullable;
    assert g.rules[r] in g.rules && g.rules[r].rhs[0] in g.rules[r].rhs;
  }

  // A prefix behind which the rule is expected with a token behind it.
  lemma ReducedContext(g: Grammar, r: nat) returns (prefix: seq<Symbol>, rest: seq<Symbol>, n: nat, la: nat)
    requires SomewhereReduced(g, r)
    ensures r < |g.rules| && Expected(g, prefix, g.rules[r].lhs, rest, n) && CanBegin(g, rest, la) && la < g.nterminal
  {
    hide InContext, CanBegin, LookAhead, GotoAll;
    var kernel;
    kernel, la :| Reduces(g, kernel, r, la);
    var it := Item(r, |g.rules[r].rhs|);
    LookaheadsAreContexts(g, kernel, it, la);
    var longer :| GotoAll(g, longer) == kernel && MeetsBefore(g, longer, it, la);
    prefix, rest, n :| InContext(g, longer, it, prefix, rest, n) && CanBegin(g, rest, la);
    ContextValid(g, longer, it, prefix, rest, n);
  }

  // Behind an expected nonterminal the token is read.
  lemma PushedIsRead(g: Grammar, kernels: seq<set<Item>>, rows: seq<StateRow>, stack: seq<Lempar.Entry>,
                     prefix: seq<Symbol>, la: nat, A: nat, rest: seq<Symbol>, n: nat) returns (fuel: nat)
    requires NoChoice(g, kernels, rows) && Traced(g, kernels, stack, prefix) && la < g.nterminal
    requires Expected(g, prefix, A, rest, n) && CanBegin(g, rest, la) && n > 0
    ensures !Lempar.RunToken(g, rows, Pushed(rows, stack, A), la, fuel).OutOfFuel?
  {
    hide NoChoice, Expected, CanBegin, Traced, InContext, Pushed, Lempar.RunToken;
    PushTraced(g, kernels, rows, stack, prefix, A, rest, n);
    var it, outer, rest' := NextContext(g, prefix, A, rest, n);
    fuel := ComingIsRead(g, kernels, rows, Pushed(rows, stack, A), prefix + [N(A)], la);
  }

  // A chain that goes round: the run goes round, but the token has to be read.
  lemma UnitCycle(g: Grammar, kernels: seq<set<Item>>, rows: seq<StateRow>, chain: seq<nat>)
    returns (top: seq<Lempar.Entry>, la: nat, m: nat, fuel: nat)
    requires NoChoice(g, kernels, rows) && UnitChain(g, chain) && chain != []
    requires Under(g, chain[0]) == LeftSide(g, chain[|chain| - 1])
    ensures Steps(g, rows, top, la, m, top) && m > 0 && !Lempar.RunToken(g, rows, top, la, fuel).OutOfFuel?
  {
    hide Lalr1, Realizes, Expected, Lempar.OneStep, CanBegin, GotoAll, Traced, Nullable, Steps, Pushed, InContext,
        SomewhereReduced, Lempar.RunToken, InCollection;
    var r, k := chain[0], |chain| - 1;
    assert r in chain && chain[k] in chain && chain[if k > 0 then 1 else 0] in chain;
    UnderNotStart(g, chain[if k > 0 then 1 else 0]);
    var prefix, rest, n;
    prefix, rest, n, la := ReducedContext(g, r);
    if n == 0 { ExpectedStart(g, prefix, g.rules[r].lhs, rest); }
    UnderExpected(g, prefix, r, rest, n, la);
    ExpectedStates(g, prefix, g.rules[r].lhs, rest, n);
    var stack := StackFor(g, kernels, rows, prefix);
    top := Pushed(rows, stack, g.rules[r].lhs);
    var m1 := Climb(g, kernels, rows, stack, prefix, la, chain, k, g.rules[r].rhs[1..] + rest, n + 1);
    var m2 := ClimbOne(g, kernels, rows, stack, prefix, la, r, rest, n);
    StepsTrans(g, rows, top, la, m1, Pushed(rows, stack, LeftSide(g, chain[k])), m2, top);
    m := m1 + m2;
    fuel := PushedIsRead(g, kernels, rows, stack, prefix, la, g.rules[r].lhs, rest, n);
  }

  // So no nonterminal comes back.
  lemma NoUnitCycle(g: Grammar, kernels: seq<set<Item>>, rows: seq<StateRow>, chain: seq<nat>)
    requires NoChoice(g, kernels, rows) && UnitChain(g, chain) && chain != []
    ensures Under(g, chain[0]) != LeftSide(g, chain[|chain| - 1])
  {
    hide NoChoice, Steps, Lempar.RunToken, SomewhereReduced, Nullable;
    assert chain[|chain| - 1] in chain;
    if Under(g, chain[0]) == LeftSide(g, chain[|chain| - 1]) {
      var top, la, m, fuel := UnitCycle(g, kernels, rows, chain);
      NoCycle(g, rows, top, la, m, fuel);
    }
  }

  function LeftSides(g: Grammar, chain: seq<nat>): (r: seq<nat>)
    ensures |r| == |chain|
  {
    seq(|chain|, i requires 0 <= i < |chain| => LeftSide(g, chain[i]))
  }

  // A chain is no longer than there are symbols.
  lemma ChainShort(g: Grammar, kernels: seq<set<Item>>, rows: seq<StateRow>, chain: seq<nat>)
    requires NoChoice(g, kernels, rows) && UnitChain(g, chain)
    ensures |chain| <= g.nsymbol
  {
    hide SomewhereReduced, Nullable, Lalr1, Realizes;
    var left := LeftSides(g, chain);
    forall i, j | 0 <= i < j < |left| ensures left[i] != left[j] {
      var part := chain[i + 1..j + 1];
      assert chain[i] in chain && chain[j] in chain;
      assert UnitChain(g, part) by { ChainPart(g, chain, i + 1, j + 1); }
      NoUnitCycle(g, kernels, rows, part);
    }
    forall x | x in left ensures x < g.nsymbol {
      var i :| 0 <= i < |left| && left[i] == x;
      assert chain[i] in chain && g.rules[chain[i]] in g.rules;
    }
    Pigeonhole(left, g.nsymbol);
  }

  lemma ChainPart(g: Grammar, chain: seq<nat>, i: nat, j: nat)
    requires UnitChain(g, chain) && i <= j <= |chain|
    ensures UnitChain(g, chain[i..j])
  {
    hide SomewhereReduced, UnitRule, Under;
    forall r | r in chain[i..j] ensures r in chain {}
    forall k | 0 < k < j - i ensures Under(g, chain[i..j][k]) == LeftSide(g, chain[i..j][k - 1]) {
      assert chain[i..j][k] == chain[i + k] && chain[i..j][k - 1] == chain[i + k - 1];
    }
  }

  // ---- towers of nonterminals that can vanish ----

  // Every nonterminal of a right-hand side can vanish, or some token can begin it.
  ghost predicate AllLead(g: Grammar) {
    forall rule <- g.rules :: forall x <- rule.rhs | x.N? :: Nullable(g, [x]) || Leading(g, [x])
  }

  ghost predicate Leading(g: Grammar, w: seq<Symbol>) {
    exists t: nat :: t < g.nterminal && CanBegin(g, w, t)
  }

  lemma LeadingOr(g: Grammar, a: seq<Symbol>, b: seq<Symbol>)
    requires Leading(g, a) || (Nullable(g, a) && Leading(g, b))
    ensures Leading(g, a + b)
  {
    hide CanBegin, Nullable;
    if t: nat :| t < g.nterminal && CanBegin(g, a, t) { CanBeginConcat(g, a, b, t); }
    if t: nat :| t < g.nterminal && CanBegin(g, b, t) { CanBeginConcat(g, a, b, t); }
  }

  lemma SymbolLeads(g: Grammar, x: Symbol)
    requires g.WellFormed() && g.ValidSymbol(x) && !x.N?
    ensures Leading(g, [x])
  {
    hide CanBegin;
    var t := if x.T? then x.index else x.subs[0];
    SymbolBegins(g, x, [], t);
    assert [x] + [] == [x];
    if x.Multi? { assert x.subs[0] in x.subs; }
  }

  // A part of a right-hand side.
  lemma {:induction false} PartLeads(g: Grammar, w: seq<Symbol>)
    requires g.WellFormed() && forall x <- w :: g.ValidSymbol(x) && (x.N? ==> Nullable(g, [x]) || Leading(g, [x]))
    ensures Nullable(g, w) || Leading(g, w)
  {
    hide Nullable, Leading;
    if w == [] {
      NoneVanishes(g);
    } else {
      var x := w[0];
      assert [x] + w[1..] == w;
      forall y | y in w[1..] ensures y in w {}
      PartLeads(g, w[1..]);
      if !x.N? { SymbolLeads(g, x); }
      if Nullable(g, [x]) && Nullable(g, w[1..]) { NullableConcat(g, [x], w[1..]); } else { LeadingOr(g, [x], w[1..]); }
    }
  }

  lemma RestLeads(g: Grammar, r: nat, d: nat)
    requires g.WellFormed() && AllLead(g) && r < |g.rules| && d <= |g.rules[r].rhs|
    ensures Nullable(g, g.rules[r].rhs[d..]) || Leading(g, g.rules[r].rhs[d..])
  {
    hide Nullable, Leading;
    assert g.rules[r] in g.rules;
    forall x | x in g.rules[r].rhs[d..]
      ensures g.ValidSymbol(x) && (x.N? ==> Nullable(g, [x]) || Leading(g, [x]))
    {
      assert x in g.rules[r].rhs;
    }
    PartLeads(g, g.rules[r].rhs[d..]);
  }

  // Whatever is expected, something can come behind it.
  lemma {:induction false} AfterLeads(g: Grammar, before: seq<Symbol>, A: nat, after: seq<Symbol>, n: nat)
    requires g.WellFormed() && AllLead(g) && Expected(g, before, A, after, n)
    ensures Leading(g, after)
    decreases n
  {
    hide Expected, Nullable, Leading, AllLead;
    if n == 0 {
      ExpectedStart(g, before, A, after);
      EndLeads(g);
    } else {
      var it, outer, rest := ExpectedBack(g, before, A, after, n);
      IntroducedBy(g, it, outer, rest, before, A, after);
      AfterLeads(g, outer, g.rules[it.rule].lhs, rest, n - 1);
      RestLeads(g, it.rule, it.dot + 1);
      LeadingOr(g, Rest(g, it), rest);
    }
  }

  lemma EndLeads(g: Grammar)
    requires g.WellFormed()
    ensures Leading(g, [T(0)])
  {
    DerivesRefl(g, [T(0)]);
    assert [T(0)] + [] == [T(0)];
    assert CanBegin(g, [T(0)], 0);
  }

  // Behind every prefix where an item is met some token can come.
  lemma MetComes(g: Grammar, prefix: seq<Symbol>, it: Item) returns (a: nat)
    requires g.WellFormed() && AllLead(g) && Meets(g, prefix, it)
    ensures a < g.nterminal && CanCome(g, prefix, a)
  {
    hide Expected, Nullable, CanBegin, AllLead;
    var outer, rest, n: nat :| InContext(g, prefix, it, outer, rest, n);
    AfterLeads(g, outer, g.rules[it.rule].lhs, rest, n);
    RestLeads(g, it.rule, it.dot);
    LeadingOr(g, Remaining(g, it), rest);
    a :| a < g.nterminal && CanBegin(g, Remaining(g, it) + rest, a);
  }

  // Nonterminals that can vanish.
  ghost predicate Tower(g: Grammar, w: seq<Symbol>) {
    forall x <- w :: x.N? && Nullable(g, [x])
  }

  lemma {:induction false} VanishingTower(g: Grammar, w: seq<Symbol>)
    requires Nullable(g, w)
    ensures Tower(g, w)
  {
    hide Nullable, LeftTo;
    if w != [] {
      var x := w[0];
      assert [x] + w[1..] == w;
      HalvesVanish(g, [x], w[1..]);
      VanishingTower(g, w[1..]);
      var d := LeftVanishes(g, [x]);
      LeftVanishing(g, [x], d);
      var r := LeftRule(g, [x], None, d);
      assert LeftBy(g, [x], r);
    }
  }

  lemma HalvesVanish(g: Grammar, a: seq<Symbol>, b: seq<Symbol>)
    requires Nullable(g, a + b)
    ensures Nullable(g, a) && Nullable(g, b)
  {
    var n: nat :| DerivesIn(g, a + b, [], n);
    var a', b' := DerivesSplit(g, a, b, [], n);
    assert |a'| + |b'| == 0;
  }

  // What can come behind a nonterminal that can vanish can come in front of it.
  lemma ComesBefore(g: Grammar, prefix: seq<Symbol>, A: nat, a: nat)
    returns (rest: seq<Symbol>, n: nat)
    requires CanCome(g, prefix + [N(A)], a) && Nullable(g, [N(A)])
    ensures CanCome(g, prefix, a) && n > 0 && Expected(g, prefix, A, rest, n) && CanBegin(g, rest, a)
  {
    hide Expected, Nullable, CanBegin, CanCome;
    rest, n := ComesBehind(g, prefix, A, a);
    var it, outer, rest' := ExpectedBack(g, prefix, A, rest, n);
    IntroducedBy(g, it, outer, rest', prefix, A, rest);
    NextFirst(g, it, rest');
    CanBeginConcat(g, [N(A)], rest, a);
    assert InContext(g, prefix, it, outer, rest', n - 1);
    ContextComes(g, prefix, it, outer, rest', n - 1, a);
  }

  lemma ContextComes(g: Grammar, prefix: seq<Symbol>, it: Item, outer: seq<Symbol>, rest: seq<Symbol>, n: nat, a: nat)
    requires InContext(g, prefix, it, outer, rest, n) && CanBegin(g, Remaining(g, it) + rest, a)
    ensures CanCome(g, prefix, a)
  {
  }

  // The run builds the tower, on a token that can come behind it.
  lemma {:induction false} TowerRun(g: Grammar, kernels: seq<set<Item>>, rows: seq<StateRow>,
                                    stack: seq<Lempar.Entry>, prefix: seq<Symbol>, w: seq<Symbol>, a: nat)
    returns (m: nat, extra: seq<Lempar.Entry>)
    requires NoChoice(g, kernels, rows) && Traced(g, kernels, stack, prefix) && a < g.nterminal
    requires Tower(g, w) && CanCome(g, prefix + w, a)
    ensures StepsAbove(g, rows, stack, [], a, m, extra) && Traced(g, kernels, stack + extra, prefix + w) && m >= |w|
    ensures CanCome(g, prefix, a)
    decreases |w|
  {
    hide NoChoice, Expected, CanBegin, CanCome, GotoAll, Nullable, Above, StepsAbove, Lempar.OneStep, LeftTo, InContext,
        Pushed;
    if w == [] {
      m, extra := 0, [];
      StepsNone(g, rows, stack, a);
      assert stack + [] == stack && prefix + [] == prefix;
    } else {
      var k := |w| - 1;
      var A, lower := w[k].index, prefix + w[..k];
      assert w[k] in w && w[..k] + [w[k]] == w && lower + [N(A)] == prefix + w;
      assert Tower(g, w[..k]) by { forall x | x in w[..k] ensures x in w {} }
      var rest, n := ComesBefore(g, lower, A, a);
      var m0, extra0 := TowerRun(g, kernels, rows, stack, prefix, w[..k], a);
      var m1, e := VanishRun(g, kernels, rows, stack + extra0, lower, A, a, rest, n);
      StepsAbovePart(g, rows, stack, extra0, [], a, m1, [e]);
      assert extra0 + [] == extra0 && stack + extra0 + [e] == stack + (extra0 + [e]);
      StepsAboveTrans(g, rows, stack, [], a, m0, extra0, m1, extra0 + [e]);
      m, extra := m0 + m1, extra0 + [e];
    }
  }

  lemma StepsNone(g: Grammar, rows: seq<StateRow>, base: seq<Lempar.Entry>, la: nat)
    ensures StepsAbove(g, rows, base, [], la, 0, [])
  {
  }

  // An expected nonterminal that can vanish is built.
  lemma VanishRun(g: Grammar, kernels: seq<set<Item>>, rows: seq<StateRow>, stack: seq<Lempar.Entry>,
                  prefix: seq<Symbol>, A: nat, a: nat, rest: seq<Symbol>, n: nat) returns (m: nat, e: Lempar.Entry)
    requires NoChoice(g, kernels, rows) && Traced(g, kernels, stack, prefix) && a < g.nterminal && n > 0
    requires Expected(g, prefix, A, rest, n) && CanBegin(g, rest, a) && Nullable(g, [N(A)])
    ensures m > 0 && StepsAbove(g, rows, stack, [], a, m, [e]) && Traced(g, kernels, stack + [e], prefix + [N(A)])
  {
    hide NoChoice, Expected, CanBegin, GotoAll, Nullable, StepsAbove, LeftTo, Pushed;
    var d := LeftVanishes(g, [N(A)]);
    LeftVanishing(g, [N(A)], d);
    var r := LeftRule(g, [N(A)], None, d);
    assert g.rules[r].rhs + [N(A)][1..] == g.rules[r].rhs;
    var it := Item(r, 0);
    assert Remaining(g, it) == g.rules[r].rhs && prefix + Past(g, it) == prefix && stack + [] == stack;
    m, e := EraseRun(g, kernels, rows, stack, [], prefix, a, it, prefix, rest, n, d - 1);
  }

  // A tower that ends in the state it began with grows for ever.
  lemma {:induction false} Grows(g: Grammar, rows: seq<StateRow>, base: seq<Lempar.Entry>, extra: seq<Lempar.Entry>,
                                 a: nat, m: nat, fuel: nat)
    requires StepsAbove(g, rows, base, [], a, m, extra) && m > 0 && base != []
    requires (base + extra)[|base + extra| - 1].stateno == base[|base| - 1].stateno
    ensures Lempar.RunToken(g, rows, base, a, fuel).OutOfFuel?
    decreases fuel
  {
    hide StepsAbove, Lempar.RunToken, Steps;
    AboveSteps(g, rows, base, [], a, m, extra);
    assert base + [] == base;
    StepsRun(g, rows, base, a, m, base + extra, fuel);
    if fuel > m {
      StepsAnywhere(g, rows, base, base + extra, [], a, m, extra);
      Grows(g, rows, base + extra, extra, a, m, fuel - m);
    }
  }
}

/** Right contexts: what a derivation leaves behind a nonterminal while everything in front of it is left as it is.  The
  look-aheads of the LALR(1) automaton are what these contexts can begin with. */
module Contexts {
  import opened Options
  import opened Grammars
  import opened FirstSets
  import opened Automata
  import opened ActionLists
  import opened States
  import opened Canonical
  import opened Lalr

  // ---- derivations of two halves ----

  lemma {:induction false} DerivesSplit(g: Grammar, a: seq<Symbol>, b: seq<Symbol>, c: seq<Symbol>, n: nat)
    returns (c1: seq<Symbol>, c2: seq<Symbol>)
    requires DerivesIn(g, a + b, c, n)
    ensures c == c1 + c2 && Derives(g, a, c1) && Derives(g, b, c2)
    decreases n
  {
    if n == 0 {
      c1, c2 := a, b;
      DerivesRefl(g, a);
      DerivesRefl(g, b);
    } else {
      var m :| Step(g, a + b, m) && DerivesIn(g, m, c, n - 1);
      var a', b' := StepSplit(g, a, b, m);
      c1, c2 := DerivesSplit(g, a', b', c, n - 1);
      DerivesTrans(g, a, a', c1);
      DerivesTrans(g, b, b', c2);
    }
  }

  lemma StepSplit(g: Grammar, a: seq<Symbol>, b: seq<Symbol>, m: seq<Symbol>)
    returns (a': seq<Symbol>, b': seq<Symbol>)
    requires Step(g, a + b, m)
    ensures m == a' + b' && Derives(g, a, a') && Derives(g, b, b')
  {
    hide Expands, Derives;
    var ab := a + b;
    var k, w :| 0 <= k < |ab| && Expands(g, ab[k], w) && m == ab[..k] + w + ab[k + 1..];
    DerivesRefl(g, a);
    DerivesRefl(g, b);
    if k < |a| {
      a', b' := a[..k] + w + a[k + 1..], b;
      SplitLeft(a, b, k, w);
      RewriteOnce(g, a, a', k, w);
    } else {
      var j := k - |a|;
      a', b' := a, b[..j] + w + b[j + 1..];
      SplitRight(a, b, j, w);
      RewriteOnce(g, b, b', j, w);
    }
  }

  lemma SplitLeft(a: seq<Symbol>, b: seq<Symbol>, k: nat, w: seq<Symbol>)
    requires k < |a|
    ensures (a + b)[k] == a[k] && (a + b)[..k] + w + (a + b)[k + 1..] == a[..k] + w + a[k + 1..] + b
  {
    assert (a + b)[..k] == a[..k] && (a + b)[k + 1..] == a[k + 1..] + b;
  }

  lemma SplitRight(a: seq<Symbol>, b: seq<Symbol>, j: nat, w: seq<Symbol>)
    requires j < |b|
    ensures (a + b)[|a| + j] == b[j]
    ensures (a + b)[..|a| + j] + w + (a + b)[|a| + j + 1..] == a + (b[..j] + w + b[j + 1..])
  {
    assert (a + b)[..|a| + j] == a + b[..j] && (a + b)[|a| + j + 1..] == b[j + 1..];
  }

  lemma RewriteOnce(g: Grammar, a: seq<Symbol>, b: seq<Symbol>, k: nat, w: seq<Symbol>)
    requires k < |a| && Expands(g, a[k], w) && b == a[..k] + w + a[k + 1..]
    ensures Derives(g, a, b)
  {
    assert Step(g, a, b);
    assert DerivesIn(g, b, b, 0);
    assert DerivesIn(g, a, b, 1);
  }

  // What comes first is from the first half, or the first half can vanish.
  lemma CanBeginConcat(g: Grammar, a: seq<Symbol>, b: seq<Symbol>, t: nat)
    ensures CanBegin(g, a + b, t) <==> CanBegin(g, a, t) || (Nullable(g, a) && CanBegin(g, b, t))
  {
    if rest :| Derives(g, a + b, [T(t)] + rest) {
      var n: nat :| DerivesIn(g, a + b, [T(t)] + rest, n);
      var c1, c2 := DerivesSplit(g, a, b, [T(t)] + rest, n);
      if c1 == [] {
        assert c2 == [T(t)] + rest;
      } else {
        assert c1[0] == ([T(t)] + rest)[0] == T(t);
        assert c1 == [T(t)] + c1[1..];
      }
    }
    DerivesRefl(g, b);
    if rest :| Derives(g, a, [T(t)] + rest) {
      DerivesConcat(g, a, [T(t)] + rest, b, b);
      assert [T(t)] + rest + b == [T(t)] + (rest + b);
    }
    if Nullable(g, a) && CanBegin(g, b, t) {
      var rest :| Derives(g, b, [T(t)] + rest);
      DerivesConcat(g, a, [], b, [T(t)] + rest);
      assert [] + ([T(t)] + rest) == [T(t)] + rest;
    }
  }

  lemma NullableConcat(g: Grammar, a: seq<Symbol>, b: seq<Symbol>)
    ensures Nullable(g, a + b) <==> Nullable(g, a) && Nullable(g, b)
  {
    if Nullable(g, a + b) {
      var n: nat :| DerivesIn(g, a + b, [], n);
      var c1, c2 := DerivesSplit(g, a, b, [], n);
    }
    if Nullable(g, a) && Nullable(g, b) {
      DerivesConcat(g, a, [], b, []);
      var none: seq<Symbol> := [];
      assert none + none == none;
    }
  }

  // Whatever begins what is derived begins what it is derived from.
  lemma BeginsEarlier(g: Grammar, a: seq<Symbol>, b: seq<Symbol>, t: nat)
    requires Derives(g, a, b) && CanBegin(g, b, t)
    ensures CanBegin(g, a, t)
  {
    var rest :| Derives(g, b, [T(t)] + rest);
    DerivesTrans(g, a, b, [T(t)] + rest);
  }

  lemma RuleExpands(g: Grammar, rule: Rule)
    requires rule in g.rules
    ensures Derives(g, [N(rule.lhs)], rule.rhs)
  {
    assert rule == Rule(rule.lhs, rule.rhs);
    DerivesExpansion(g, N(rule.lhs), rule.rhs);
  }

  lemma RuleInContext(g: Grammar, r: nat, rest: seq<Symbol>)
    requires r < |g.rules|
    ensures Derives(g, [N(g.rules[r].lhs)] + rest, g.rules[r].rhs + rest)
  {
    RuleExpands(g, g.rules[r]);
    DerivesRefl(g, rest);
    DerivesConcat(g, [N(g.rules[r].lhs)], g.rules[r].rhs, rest, rest);
  }

  lemma SymbolBegins(g: Grammar, x: Symbol, rest: seq<Symbol>, t: nat)
    requires t in SymbolCodes(x) && !x.N?
    ensures CanBegin(g, [x] + rest, t)
  {
    if x.T? {
      DerivesRefl(g, [x]);
    } else {
      DerivesExpansion(g, x, [T(t)]);
    }
    DerivesRefl(g, rest);
    DerivesConcat(g, [x], [T(t)], rest, rest);
  }

  lemma NoneVanishes(g: Grammar)
    ensures Nullable(g, [])
  {
    var none: seq<Symbol> := [];
    DerivesRefl(g, none);
  }

  lemma RuleVanishes(g: Grammar, r: nat)
    requires r < |g.rules| && Nullable(g, g.rules[r].rhs)
    ensures Nullable(g, [N(g.rules[r].lhs)])
  {
    RuleExpands(g, g.rules[r]);
    DerivesTrans(g, [N(g.rules[r].lhs)], g.rules[r].rhs, []);
  }

  // ---- contexts ----

  // The part of the rule in front of the dot.
  function Past(g: Grammar, it: Item): seq<Symbol> {
    if ValidItem(g, it) then g.rules[it.rule].rhs[..it.dot] else []
  }

  // The nonterminal behind the dot is A; with `outer` in front of the rule and `rest` behind it, `before` is in front
  // of A and `after` behind it.
  ghost predicate Introduces(g: Grammar, it: Item, outer: seq<Symbol>, rest: seq<Symbol>,
                             before: seq<Symbol>, A: nat, after: seq<Symbol>) {
    ValidItem(g, it) && Next(g, it) == Some(N(A)) && before == outer + Past(g, it) && after == Rest(g, it) + rest
  }

  // A derivation of n steps from the start symbol and `$` has come to `before`, A and `after`: in each step the
  // nonterminal was rewritten, and nothing in front of it was.
  ghost predicate Expected(g: Grammar, before: seq<Symbol>, A: nat, after: seq<Symbol>, n: nat)
    decreases n
  {
    if n == 0 then before == [] && A == g.start && after == [T(0)]
    else
      exists it, outer, rest ::
        Introduces(g, it, outer, rest, before, A, after) && Expected(g, outer, g.rules[it.rule].lhs, rest, n - 1)
  }

  lemma ExpectedNext(g: Grammar, it: Item, outer: seq<Symbol>, rest: seq<Symbol>, n: nat,
                     before: seq<Symbol>, A: nat, after: seq<Symbol>)
    requires Introduces(g, it, outer, rest, before, A, after) && Expected(g, outer, g.rules[it.rule].lhs, rest, n)
    ensures Expected(g, before, A, after, n + 1)
  {
  }

  // The last step of it.
  lemma ExpectedBack(g: Grammar, before: seq<Symbol>, A: nat, after: seq<Symbol>, n: nat)
    returns (it: Item, outer: seq<Symbol>, rest: seq<Symbol>)
    requires Expected(g, before, A, after, n) && n > 0
    ensures Introduces(g, it, outer, rest, before, A, after) && ValidItem(g, it)
    ensures Expected(g, outer, g.rules[it.rule].lhs, rest, n - 1)
  {
    it, outer, rest :|
      Introduces(g, it, outer, rest, before, A, after) && Expected(g, outer, g.rules[it.rule].lhs, rest, n - 1);
  }

  lemma ExpectedStart(g: Grammar, before: seq<Symbol>, A: nat, after: seq<Symbol>)
    requires Expected(g, before, A, after, 0)
    ensures before == [] && A == g.start && after == [T(0)]
  {
  }

  // So it is a derivation.
  lemma {:induction false} ExpectedDerives(g: Grammar, before: seq<Symbol>, A: nat, after: seq<Symbol>, n: nat)
    requires Expected(g, before, A, after, n)
    ensures Derives(g, [N(g.start), T(0)], before + [N(A)] + after)
    decreases n
  {
    hide Derives, Expected, Introduces;
    if n == 0 {
      ExpectedStart(g, before, A, after);
      assert before + [N(A)] + after == [N(g.start), T(0)];
      DerivesRefl(g, [N(g.start), T(0)]);
    } else {
      var it, outer, rest := ExpectedBack(g, before, A, after, n);
      ExpectedDerives(g, outer, g.rules[it.rule].lhs, rest, n - 1);
      IntroducesDerives(g, it, outer, rest, before, A, after);
      DerivesTrans(g, [N(g.start), T(0)], outer + [N(g.rules[it.rule].lhs)] + rest, before + [N(A)] + after);
    }
  }

  lemma IntroducesDerives(g: Grammar, it: Item, outer: seq<Symbol>, rest: seq<Symbol>,
                          before: seq<Symbol>, A: nat, after: seq<Symbol>)
    requires Introduces(g, it, outer, rest, before, A, after)
    ensures Derives(g, outer + [N(g.rules[it.rule].lhs)] + rest, before + [N(A)] + after)
  {
    hide Derives;
    var rule := g.rules[it.rule];
    RuleExpands(g, rule);
    DerivesContext(g, outer, [N(rule.lhs)], rule.rhs, rest);
    assert rule.rhs == Past(g, it) + [N(A)] + Rest(g, it);
    assert outer + rule.rhs + rest == before + [N(A)] + after;
  }

  // The rule of the item is expected where the prefix without its part of the rule ends, and `rest` comes behind it.
  ghost predicate InContext(g: Grammar, prefix: seq<Symbol>, it: Item, outer: seq<Symbol>, rest: seq<Symbol>, n: nat) {
    ValidItem(g, it) && prefix == outer + Past(g, it) && Expected(g, outer, g.rules[it.rule].lhs, rest, n)
  }

  // The item can be met behind the prefix.
  ghost predicate Meets(g: Grammar, prefix: seq<Symbol>, it: Item) {
    exists outer, rest, n: nat :: InContext(g, prefix, it, outer, rest, n)
  }

  // The item can be met behind the prefix, with t behind its rule.
  ghost predicate MeetsBefore(g: Grammar, prefix: seq<Symbol>, it: Item, t: nat) {
    exists outer, rest, n: nat :: InContext(g, prefix, it, outer, rest, n) && CanBegin(g, rest, t)
  }

  // The state that a prefix leads to.
  ghost function GotoAll(g: Grammar, prefix: seq<Symbol>): set<Item> {
    if prefix == [] then StartItems(g) else Goto(g, GotoAll(g, prefix[..|prefix| - 1]), prefix[|prefix| - 1])
  }

  lemma GotoSnoc(g: Grammar, prefix: seq<Symbol>, x: Symbol)
    ensures GotoAll(g, prefix + [x]) == Goto(g, GotoAll(g, prefix), x)
  {
    assert (prefix + [x])[..|prefix|] == prefix;
  }

  // ---- items of states ----

  lemma ClosedUnder(g: Grammar, kernel: set<Item>, it: Item, to: Item)
    requires InClosure(g, kernel, it) && Predicts(g, it, to)
    ensures InClosure(g, kernel, to)
  {
    forall items: set<Item> | kernel <= items && ClosedSet(g, items) ensures to in items {
      assert it in items && to == Item(to.rule, 0);
    }
  }

  ghost function ClosureOf(g: Grammar, kernel: set<Item>): set<Item> {
    set it <- AllItems(g) | InClosure(g, kernel, it)
  }

  lemma ClosureOfIs(g: Grammar, kernel: set<Item>)
    requires kernel <= AllItems(g)
    ensures IsClosure(g, kernel, ClosureOf(g, kernel))
    ensures forall it | InClosure(g, kernel, it) :: it in AllItems(g)
  {
    assert ClosedSet(g, AllItems(g));
    forall it, r: nat | it in ClosureOf(g, kernel) && r < |g.rules| && Next(g, it) == Some(N(g.rules[r].lhs))
      ensures Item(r, 0) in ClosureOf(g, kernel)
    {
      ClosedUnder(g, kernel, it, Item(r, 0));
    }
  }

  // The next state of the collection.
  lemma NextState(g: Grammar, kernel: set<Item>, it: Item)
    requires InCollection(g, kernel) && kernel <= AllItems(g) && InClosure(g, kernel, it) && Next(g, it).Some?
    ensures InCollection(g, Goto(g, kernel, Next(g, it).value)) && Goto(g, kernel, Next(g, it).value) <= AllItems(g)
    ensures Advance(it) in Goto(g, kernel, Next(g, it).value)
    ensures InClosure(g, Goto(g, kernel, Next(g, it).value), Advance(it))
  {
    hide IsClosure;
    var x := Next(g, it).value;
    ClosureOfIs(g, kernel);
    ClosureIs(g, kernel, ClosureOf(g, kernel));
    forall family: set<Item> -> bool | ClosedFamily(g, family) ensures family(Goto(g, kernel, x)) {
      assert family(kernel);
      assert Advance(it) in AdvanceAll(g, ClosureOf(g, kernel), x);
    }
  }

  lemma StartState(g: Grammar)
    ensures InCollection(g, StartItems(g)) && StartItems(g) <= AllItems(g)
  {
  }

  // ---- what is met is in the state ----

  // The item belongs to a state of the automaton.
  ghost predicate Holds(g: Grammar, kernel: set<Item>, it: Item) {
    InCollection(g, kernel) && kernel <= AllItems(g) && InClosure(g, kernel, it)
  }

  lemma AlongStep(g: Grammar, outer: seq<Symbol>, r: nat, d: nat)
    requires r < |g.rules| && d < |g.rules[r].rhs| && Holds(g, GotoAll(g, outer + g.rules[r].rhs[..d]), Item(r, d))
    ensures var kernel, x := GotoAll(g, outer + g.rules[r].rhs[..d]), g.rules[r].rhs[d];
      GotoAll(g, outer + g.rules[r].rhs[..d + 1]) == Goto(g, kernel, x) && Holds(g, Goto(g, kernel, x), Item(r, d + 1))
  {
    hide InCollection, InClosure, Goto, GotoAll;
    var rhs := g.rules[r].rhs;
    NextState(g, GotoAll(g, outer + rhs[..d]), Item(r, d));
    assert outer + rhs[..d + 1] == outer + rhs[..d] + [rhs[d]];
    GotoSnoc(g, outer + rhs[..d], rhs[d]);
  }

  // Along a rule: from where it is expected to its item.
  lemma {:induction false} AlongRule(g: Grammar, outer: seq<Symbol>, r: nat, d: nat)
    requires r < |g.rules| && d <= |g.rules[r].rhs| && Holds(g, GotoAll(g, outer), Item(r, 0))
    ensures Holds(g, GotoAll(g, outer + g.rules[r].rhs[..d]), Item(r, d))
    decreases d
  {
    hide Holds, Goto, GotoAll;
    if d == 0 {
      assert outer + g.rules[r].rhs[..0] == outer;
    } else {
      AlongRule(g, outer, r, d - 1);
      AlongStep(g, outer, r, d - 1);
    }
  }

  lemma {:induction false} AlongLook(g: Grammar, outer: seq<Symbol>, r: nat, d: nat, t: nat)
    requires r < |g.rules| && d <= |g.rules[r].rhs| && Holds(g, GotoAll(g, outer), Item(r, 0))
    requires LookAhead(g, GotoAll(g, outer), Item(r, 0), t)
    ensures LookAhead(g, GotoAll(g, outer + g.rules[r].rhs[..d]), Item(r, d), t)
    decreases d
  {
    hide InCollection, InClosure, Goto, GotoAll, LookAhead;
    if d == 0 {
      assert outer + g.rules[r].rhs[..0] == outer;
    } else {
      AlongLook(g, outer, r, d - 1, t);
      AlongRule(g, outer, r, d - 1);
      AlongStep(g, outer, r, d - 1);
      LookAdvances(g, GotoAll(g, outer + g.rules[r].rhs[..d - 1]), Item(r, d - 1), t);
    }
  }

  lemma LookAdvances(g: Grammar, kernel: set<Item>, it: Item, t: nat)
    requires LookAhead(g, kernel, it, t) && Next(g, it).Some? && kernel <= AllItems(g)
    ensures LookAhead(g, Goto(g, kernel, Next(g, it).value), Advance(it), t)
  {
    hide InCollection, InClosure, Goto;
    var n: nat :| LookIn(g, kernel, it, t, n);
    NextState(g, kernel, it);
    assert Enters(g, kernel, it, Goto(g, kernel, Next(g, it).value), Advance(it));
    assert LookIn(g, Goto(g, kernel, Next(g, it).value), Advance(it), t, n + 1);
  }

  // Rules for an expected nonterminal are in the state, ...
  lemma {:induction false} ExpectedIsHeld(g: Grammar, before: seq<Symbol>, A: nat, after: seq<Symbol>, n: nat, r: nat)
    requires Expected(g, before, A, after, n) && r < |g.rules| && g.rules[r].lhs == A
    ensures Holds(g, GotoAll(g, before), Item(r, 0))
    decreases n
  {
    hide GotoAll, Expected, Introduces, Holds;
    if n == 0 {
      ExpectedStart(g, before, A, after);
      StartLook(g, r);
    } else {
      var it, outer, rest := ExpectedBack(g, before, A, after, n);
      ExpectedIsHeld(g, outer, g.rules[it.rule].lhs, rest, n - 1, it.rule);
      HeldStep(g, it, outer, rest, before, A, after, r);
    }
  }

  lemma HeldStep(g: Grammar, it: Item, outer: seq<Symbol>, rest: seq<Symbol>,
                 before: seq<Symbol>, A: nat, after: seq<Symbol>, r: nat)
    requires Introduces(g, it, outer, rest, before, A, after) && r < |g.rules| && g.rules[r].lhs == A
    requires Holds(g, GotoAll(g, outer), Item(it.rule, 0))
    ensures Holds(g, GotoAll(g, before), it) && Holds(g, GotoAll(g, before), Item(r, 0))
  {
    hide GotoAll, InCollection, InClosure;
    IntroducedBy(g, it, outer, rest, before, A, after);
    AlongRule(g, outer, it.rule, it.dot);
    ClosedUnder(g, GotoAll(g, before), it, Item(r, 0));
  }

  // ... and what their context begins with is among their look-aheads.
  lemma {:induction false} ExpectedIsLook(g: Grammar, before: seq<Symbol>, A: nat, after: seq<Symbol>, n: nat, r: nat,
                                          t: nat)
    requires Expected(g, before, A, after, n) && r < |g.rules| && g.rules[r].lhs == A && CanBegin(g, after, t)
    ensures LookAhead(g, GotoAll(g, before), Item(r, 0), t)
    decreases n
  {
    hide GotoAll, LookAhead, CanBegin, Expected, Introduces, Holds;
    if n == 0 {
      ExpectedStart(g, before, A, after);
      StartLook(g, r);
      OnlyFirst(g, t);
    } else {
      var it, outer, rest := ExpectedBack(g, before, A, after, n);
      ExpectedIsHeld(g, outer, g.rules[it.rule].lhs, rest, n - 1, it.rule);
      if CanBegin(g, rest, t) { ExpectedIsLook(g, outer, g.rules[it.rule].lhs, rest, n - 1, it.rule, t); }
      LookStep(g, it, outer, rest, before, A, after, r, t);
    }
  }

  lemma LookStep(g: Grammar, it: Item, outer: seq<Symbol>, rest: seq<Symbol>,
                 before: seq<Symbol>, A: nat, after: seq<Symbol>, r: nat, t: nat)
    requires Introduces(g, it, outer, rest, before, A, after) && r < |g.rules| && g.rules[r].lhs == A
    requires Holds(g, GotoAll(g, outer), Item(it.rule, 0)) && CanBegin(g, after, t)
    requires CanBegin(g, rest, t) ==> LookAhead(g, GotoAll(g, outer), Item(it.rule, 0), t)
    ensures LookAhead(g, GotoAll(g, before), Item(r, 0), t)
  {
    hide GotoAll, LookAhead, CanBegin, InCollection, InClosure, Nullable;
    IntroducedBy(g, it, outer, rest, before, A, after);
    HeldStep(g, it, outer, rest, before, A, after, r);
    CanBeginConcat(g, Rest(g, it), rest, t);
    if CanBegin(g, rest, t) { AlongLook(g, outer, it.rule, it.dot, t); }
    PredictedLook(g, GotoAll(g, before), it, Item(r, 0), t);
  }

  lemma IntroducedBy(g: Grammar, it: Item, outer: seq<Symbol>, rest: seq<Symbol>,
                     before: seq<Symbol>, A: nat, after: seq<Symbol>)
    requires Introduces(g, it, outer, rest, before, A, after)
    ensures ValidItem(g, it) && Next(g, it) == Some(N(A)) && after == Rest(g, it) + rest
    ensures before == outer + g.rules[it.rule].rhs[..it.dot] && it == Item(it.rule, it.dot)
  {
  }

  lemma StartLook(g: Grammar, r: nat)
    requires r < |g.rules| && g.rules[r].lhs == g.start
    ensures GotoAll(g, []) == StartItems(g) && InCollection(g, StartItems(g)) && StartItems(g) <= AllItems(g)
    ensures InClosure(g, StartItems(g), Item(r, 0)) && LookAhead(g, StartItems(g), Item(r, 0), 0)
    ensures Holds(g, StartItems(g), Item(r, 0))
  {
    StartState(g);
    assert Item(r, 0) in StartItems(g);
    assert LookIn(g, StartItems(g), Item(r, 0), 0, 0);
  }

  lemma OnlyFirst(g: Grammar, t: nat)
    requires CanBegin(g, [T(0)], t)
    ensures t == 0
  {
    var rest :| Derives(g, [T(0)], [T(t)] + rest);
    var n: nat :| DerivesIn(g, [T(0)], [T(t)] + rest, n);
    assert forall m :: !Step(g, [T(0)], m);
    assert [T(0)][0] == ([T(t)] + rest)[0];
  }

  lemma PredictedLook(g: Grammar, kernel: set<Item>, from: Item, to: Item, t: nat)
    requires InCollection(g, kernel) && InClosure(g, kernel, from) && Predicts(g, from, to)
    requires CanBegin(g, Rest(g, from), t) || (Nullable(g, Rest(g, from)) && LookAhead(g, kernel, from, t))
    ensures LookAhead(g, kernel, to, t)
  {
    hide InCollection, InClosure, CanBegin, Nullable, Predicts;
    ClosedUnder(g, kernel, from, to);
    if CanBegin(g, Rest(g, from), t) {
      assert Spontaneous(g, kernel, to, t);
      assert LookIn(g, kernel, to, t, 0);
    } else {
      var n: nat :| LookIn(g, kernel, from, t, n);
      assert LookIn(g, kernel, to, t, n + 1);
    }
  }

  // What is met behind a prefix is in the state it leads to, with its look-aheads.
  lemma MetIsLook(g: Grammar, prefix: seq<Symbol>, it: Item, t: nat)
    requires MeetsBefore(g, prefix, it, t)
    ensures LookAhead(g, GotoAll(g, prefix), it, t)
  {
    hide LookAhead, Expected, CanBegin, GotoAll;
    var outer, rest, n: nat :| InContext(g, prefix, it, outer, rest, n) && CanBegin(g, rest, t);
    ExpectedIsHeld(g, outer, g.rules[it.rule].lhs, rest, n, it.rule);
    ExpectedIsLook(g, outer, g.rules[it.rule].lhs, rest, n, it.rule, t);
    AlongLook(g, outer, it.rule, it.dot, t);
  }

  // ---- what is in a state is met ----

  lemma MeetsPredicted(g: Grammar, prefix: seq<Symbol>, from: Item, to: Item, outer: seq<Symbol>,
                       rest: seq<Symbol>, n: nat)
    requires InContext(g, prefix, from, outer, rest, n) && Predicts(g, from, to)
    ensures InContext(g, prefix, to, prefix, Rest(g, from) + rest, n + 1)
  {
    hide Expected;
    assert Introduces(g, from, outer, rest, prefix, g.rules[to.rule].lhs, Rest(g, from) + rest);
    ExpectedNext(g, from, outer, rest, n, prefix, g.rules[to.rule].lhs, Rest(g, from) + rest);
    assert prefix + [] == prefix;
  }

  lemma MeetsAdvanced(g: Grammar, prefix: seq<Symbol>, it: Item, outer: seq<Symbol>, rest: seq<Symbol>, n: nat)
    requires InContext(g, prefix, it, outer, rest, n) && Next(g, it).Some?
    ensures InContext(g, prefix + [Next(g, it).value], Advance(it), outer, rest, n)
  {
    assert Past(g, Advance(it)) == Past(g, it) + [Next(g, it).value];
  }

  // All items of a state whose kernel is met are met.
  lemma ClosureMet(g: Grammar, kernel: set<Item>, prefix: seq<Symbol>, it: Item)
    requires kernel <= AllItems(g) && (forall k <- kernel :: Meets(g, prefix, k)) && InClosure(g, kernel, it)
    ensures Meets(g, prefix, it)
  {
    hide InContext;
    var met := set k <- AllItems(g) | Meets(g, prefix, k);
    forall from, r: nat | from in met && r < |g.rules| && Next(g, from) == Some(N(g.rules[r].lhs))
      ensures Item(r, 0) in met
    {
      var outer, rest, n: nat :| InContext(g, prefix, from, outer, rest, n);
      MeetsPredicted(g, prefix, from, Item(r, 0), outer, rest, n);
    }
    assert ClosedSet(g, met) && kernel <= met;
  }

  // Some prefix leads to the state, and all its items are met there.
  ghost predicate Led(g: Grammar, kernel: set<Item>, prefix: seq<Symbol>) {
    GotoAll(g, prefix) == kernel && kernel <= AllItems(g) && forall it <- kernel :: Meets(g, prefix, it)
  }

  lemma StatesAreLed(g: Grammar, kernel: set<Item>)
    requires InCollection(g, kernel)
    ensures exists prefix :: Led(g, kernel, prefix)
  {
    hide Led;
    var family := (k: set<Item>) => exists prefix :: Led(g, k, prefix);
    StartLed(g);
    forall k: set<Item>, items: set<Item>, x: Symbol |
      family(k) && IsClosure(g, k, items) && AdvanceAll(g, items, x) != {} ensures family(AdvanceAll(g, items, x))
    {
      var prefix :| Led(g, k, prefix);
      NextLed(g, k, prefix, items, x);
    }
    assert ClosedFamily(g, family);
  }

  lemma StartLed(g: Grammar)
    ensures Led(g, StartItems(g), [])
  {
    forall it | it in StartItems(g) ensures Meets(g, [], it) {
      assert Expected(g, [], g.start, [T(0)], 0);
      assert InContext(g, [], it, [], [T(0)], 0);
    }
  }

  lemma NextLed(g: Grammar, kernel: set<Item>, prefix: seq<Symbol>, items: set<Item>, x: Symbol)
    requires Led(g, kernel, prefix) && IsClosure(g, kernel, items)
    ensures Led(g, AdvanceAll(g, items, x), prefix + [x])
  {
    hide InContext, IsClosure, GotoAll;
    ClosureOfIs(g, kernel);
    ClosureIs(g, kernel, items);
    GotoSnoc(g, prefix, x);
    forall it | it in AdvanceAll(g, items, x) ensures it in AllItems(g) && Meets(g, prefix + [x], it) {
      var from :| from in items && Next(g, from) == Some(x) && it == Advance(from);
      ClosureMet(g, kernel, prefix, from);
      var outer, rest, n: nat :| InContext(g, prefix, from, outer, rest, n);
      MeetsAdvanced(g, prefix, from, outer, rest, n);
    }
  }

  // Every look-ahead of a state comes from a context.
  lemma {:induction false} LookIsMet(g: Grammar, kernel: set<Item>, it: Item, t: nat, n: nat)
    requires LookIn(g, kernel, it, t, n)
    ensures exists prefix :: GotoAll(g, prefix) == kernel && MeetsBefore(g, prefix, it, t)
    decreases n
  {
    hide GotoAll, Nullable, Enters, Predicts, InCollection, Spontaneous, LookIn, MeetsBefore;
    if n == 0 {
      LookStart(g, kernel, it, t);
      SpontaneousIsMet(g, kernel, it, t);
    } else {
      var within, before, from := LookBack(g, kernel, it, t, n);
      LookIsMet(g, before, from, t, n - 1);
      var prefix :| GotoAll(g, prefix) == before && MeetsBefore(g, prefix, from, t);
      if within {
        PredictedIsMet(g, from, it, t, prefix);
      } else {
        EnteredIsMet(g, before, from, kernel, it, t, prefix);
      }
    }
  }

  lemma PredictedIsMet(g: Grammar, from: Item, it: Item, t: nat,
                     prefix: seq<Symbol>)
    requires Predicts(g, from, it) && Nullable(g, Rest(g, from)) && MeetsBefore(g, prefix, from, t)
    ensures MeetsBefore(g, prefix, it, t)
  {
    hide InContext, CanBegin, Nullable, Predicts;
    var outer, rest, m: nat :| InContext(g, prefix, from, outer, rest, m) && CanBegin(g, rest, t);
    MeetsPredicted(g, prefix, from, it, outer, rest, m);
    CanBeginConcat(g, Rest(g, from), rest, t);
  }

  lemma EnteredIsMet(g: Grammar, before: set<Item>, from: Item, kernel: set<Item>, it: Item, t: nat,
                     prefix: seq<Symbol>)
    requires Enters(g, before, from, kernel, it) && GotoAll(g, prefix) == before && MeetsBefore(g, prefix, from, t)
    ensures exists longer :: GotoAll(g, longer) == kernel && MeetsBefore(g, longer, it, t)
  {
    hide GotoAll, InContext, CanBegin, Goto;
    var x := Next(g, from).value;
    GotoSnoc(g, prefix, x);
    var outer, rest, m: nat :| InContext(g, prefix, from, outer, rest, m) && CanBegin(g, rest, t);
    MeetsAdvanced(g, prefix, from, outer, rest, m);
    assert MeetsBefore(g, prefix + [x], it, t);
  }

  lemma SpontaneousIsMet(g: Grammar, kernel: set<Item>, it: Item, t: nat)
    requires InCollection(g, kernel) && Spontaneous(g, kernel, it, t)
    ensures exists prefix :: GotoAll(g, prefix) == kernel && MeetsBefore(g, prefix, it, t)
  {
    hide InContext, CanBegin, Predicts, InCollection, InClosure;
    if kernel == StartItems(g) && it in kernel && t == 0 {
      StartMet(g, it);
      assert GotoAll(g, []) == kernel;
    } else {
      var from :| InClosure(g, kernel, from) && Predicts(g, from, it) && CanBegin(g, Rest(g, from), t);
      StatesAreLed(g, kernel);
      var prefix :| Led(g, kernel, prefix);
      ClosureMet(g, kernel, prefix, from);
      var outer, rest, m: nat :| InContext(g, prefix, from, outer, rest, m);
      MeetsPredicted(g, prefix, from, it, outer, rest, m);
      CanBeginConcat(g, Rest(g, from), rest, t);
      assert MeetsBefore(g, prefix, it, t);
    }
  }

  lemma StartMet(g: Grammar, it: Item)
    requires it in StartItems(g)
    ensures MeetsBefore(g, [], it, 0)
  {
    assert Expected(g, [], g.start, [T(0)], 0);
    assert InContext(g, [], it, [], [T(0)], 0);
    DerivesRefl(g, [T(0)]);
    assert [T(0)] + [] == [T(0)];
  }

  // The look-aheads of a state are the tokens that can come behind the rule, in a derivation that has left alone a
  // prefix leading to the state.
  lemma LookaheadsAreContexts(g: Grammar, kernel: set<Item>, it: Item, t: nat)
    ensures LookAhead(g, kernel, it, t) <==>
      exists prefix :: GotoAll(g, prefix) == kernel && MeetsBefore(g, prefix, it, t)
  {
    hide GotoAll, MeetsBefore, LookIn;
    if n: nat :| LookIn(g, kernel, it, t, n) { LookIsMet(g, kernel, it, t, n); }
    if prefix :| GotoAll(g, prefix) == kernel && MeetsBefore(g, prefix, it, t) { MetIsLook(g, prefix, it, t); }
  }
}

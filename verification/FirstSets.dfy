/** FindFirstSets: which nonterminals derive the empty string, and which
  terminals can begin what a nonterminal derives. */
module FirstSets {
  import opened Grammars

  type Lambdas = seq<bool>
  type Firsts = seq<set<nat>>

  // ---- what the two tables mean ----

  ghost predicate Nullable(g: Grammar, a: seq<Symbol>) {
    Derives(g, a, [])
  }

  ghost predicate CanBegin(g: Grammar, a: seq<Symbol>, t: nat) {
    exists rest :: Derives(g, a, [T(t)] + rest)
  }

  // ---- reading the tables ----

  predicate IsLambda(lambda: Lambdas, x: Symbol) {
    x.N? && x.index < |lambda| && lambda[x.index]
  }

  predicate AllLambda(lambda: Lambdas, a: seq<Symbol>) {
    forall x <- a :: IsLambda(lambda, x)
  }

  function SymbolFirst(first: Firsts, x: Symbol): set<nat> {
    match x
    case T(i) => {i}
    case N(i) => if i < |first| then first[i] else {}
    case Multi(subs) => set s | s in subs
  }

  function SeqFirst(lambda: Lambdas, first: Firsts, a: seq<Symbol>): set<nat> {
    if a == [] then {}
    else SymbolFirst(first, a[0]) + if IsLambda(lambda, a[0]) then SeqFirst(lambda, first, a[1..]) else {}
  }

  // ---- soundness of a table, and closure under the rules ----

  ghost predicate LambdaSound(g: Grammar, lambda: Lambdas) {
    forall i: nat | i < |lambda| && lambda[i] :: Nullable(g, [N(i)])
  }

  ghost predicate LambdaClosedFor(lambda: Lambdas, rule: Rule) {
    AllLambda(lambda, rule.rhs) ==> IsLambda(lambda, N(rule.lhs))
  }

  ghost predicate FirstSound(g: Grammar, first: Firsts) {
    forall i: nat, t | i < |first| && t in first[i] :: CanBegin(g, [N(i)], t)
  }

  ghost predicate FirstClosedFor(lambda: Lambdas, first: Firsts, rule: Rule) {
    SeqFirst(lambda, first, rule.rhs) <= SymbolFirst(first, N(rule.lhs))
  }

  ghost predicate Closed(g: Grammar, lambda: Lambdas, first: Firsts) {
    forall rule <- g.rules :: LambdaClosedFor(lambda, rule) && FirstClosedFor(lambda, first, rule)
  }

  // The two tables hold exactly what the derivations say.
  ghost predicate Exact(g: Grammar, lambda: Lambdas, first: Firsts) {
    && |lambda| == |first| == g.nsymbol
    && (forall i: nat | i < g.nsymbol :: lambda[i] <==> Nullable(g, [N(i)]))
    && (forall i: nat, t | i < g.nsymbol :: t in first[i] <==> CanBegin(g, [N(i)], t))
  }

  // ---- a closed table contains everything derivable ----

  lemma AllLambdaConcat(lambda: Lambdas, a: seq<Symbol>, b: seq<Symbol>)
    ensures AllLambda(lambda, a + b) <==> AllLambda(lambda, a) && AllLambda(lambda, b)
  {
    forall x | x in a ensures x in a + b {}
    forall x | x in b ensures x in a + b {}
  }

  lemma {:induction false} SeqFirstConcat(lambda: Lambdas, first: Firsts, a: seq<Symbol>, b: seq<Symbol>)
    ensures SeqFirst(lambda, first, a + b)
         == SeqFirst(lambda, first, a) + if AllLambda(lambda, a) then SeqFirst(lambda, first, b) else {}
  {
    if a == [] {
      assert a + b == b;
    } else {
      assert (a + b)[1..] == a[1..] + b;
      SeqFirstConcat(lambda, first, a[1..], b);
      assert a == [a[0]] + a[1..];
      AllLambdaConcat(lambda, [a[0]], a[1..]);
      assert IsLambda(lambda, a[0]) <==> AllLambda(lambda, [a[0]]);
    }
  }

  lemma StepBackward(g: Grammar, lambda: Lambdas, first: Firsts, a: seq<Symbol>, b: seq<Symbol>)
    requires Closed(g, lambda, first) && Step(g, a, b)
    ensures AllLambda(lambda, b) ==> AllLambda(lambda, a)
    ensures SeqFirst(lambda, first, b) <= SeqFirst(lambda, first, a)
  {
    var k, w :| 0 <= k < |a| && Expands(g, a[k], w) && b == a[..k] + w + a[k + 1..];
    var x, y := a[..k], a[k + 1..];
    assert a == x + [a[k]] + y;
    AllLambdaConcat(lambda, x + w, y);
    AllLambdaConcat(lambda, x, w);
    AllLambdaConcat(lambda, x + [a[k]], y);
    AllLambdaConcat(lambda, x, [a[k]]);
    SeqFirstConcat(lambda, first, x + w, y);
    SeqFirstConcat(lambda, first, x, w);
    SeqFirstConcat(lambda, first, x + [a[k]], y);
    SeqFirstConcat(lambda, first, x, [a[k]]);
    ExpansionBackward(g, lambda, first, a[k], w);
  }

  lemma ExpansionBackward(g: Grammar, lambda: Lambdas, first: Firsts, x: Symbol, w: seq<Symbol>)
    requires Closed(g, lambda, first) && Expands(g, x, w)
    ensures AllLambda(lambda, w) ==> AllLambda(lambda, [x])
    ensures SeqFirst(lambda, first, w) <= SeqFirst(lambda, first, [x])
  {
    if x.N? && Rule(x.index, w) in g.rules {
      var rule := Rule(x.index, w);
      assert LambdaClosedFor(lambda, rule) && FirstClosedFor(lambda, first, rule);
    } else {
      var s :| s in x.subs && w == [T(s)];
      assert T(s) in w && !IsLambda(lambda, T(s));
      assert SeqFirst(lambda, first, w) == {s};
    }
  }

  lemma {:induction false} DerivationBackward(g: Grammar, lambda: Lambdas, first: Firsts, a: seq<Symbol>,
      b: seq<Symbol>, n: nat)
    requires Closed(g, lambda, first) && DerivesIn(g, a, b, n)
    ensures AllLambda(lambda, b) ==> AllLambda(lambda, a)
    ensures SeqFirst(lambda, first, b) <= SeqFirst(lambda, first, a)
    decreases n
  {
    if n != 0 {
      var m :| Step(g, a, m) && DerivesIn(g, m, b, n - 1);
      DerivationBackward(g, lambda, first, m, b, n - 1);
      StepBackward(g, lambda, first, a, m);
    }
  }

  // ---- a sound table only contains what is derivable ----

  lemma {:induction false} AllLambdaNullable(g: Grammar, lambda: Lambdas, a: seq<Symbol>)
    requires LambdaSound(g, lambda) && AllLambda(lambda, a)
    ensures Nullable(g, a)
  {
    if a == [] {
      DerivesRefl(g, a);
    } else {
      assert a[0] in a;
      assert [N(a[0].index)] == [a[0]];
      AllLambdaNullable(g, lambda, a[1..]);
      DerivesConcat(g, [a[0]], [], a[1..], []);
      var e: seq<Symbol> := [];
      assert [a[0]] + a[1..] == a && e + e == e;
    }
  }

  lemma SymbolFirstBegins(g: Grammar, first: Firsts, x: Symbol, t: nat)
    requires FirstSound(g, first) && t in SymbolFirst(first, x)
    ensures CanBegin(g, [x], t)
  {
    match x
    case T(i) =>
      DerivesRefl(g, [x]);
      assert [T(t)] + [] == [x];
    case N(i) =>
    case Multi(subs) =>
      DerivesExpansion(g, x, [T(t)]);
      assert [T(t)] + [] == [T(t)];
  }

  lemma {:induction false} SeqFirstBegins(g: Grammar, lambda: Lambdas, first: Firsts, a: seq<Symbol>, t: nat)
    requires LambdaSound(g, lambda) && FirstSound(g, first) && t in SeqFirst(lambda, first, a)
    ensures CanBegin(g, a, t)
  {
    assert a == [a[0]] + a[1..];
    if t in SymbolFirst(first, a[0]) {
      SymbolFirstBegins(g, first, a[0], t);
      var rest :| Derives(g, [a[0]], [T(t)] + rest);
      DerivesRefl(g, a[1..]);
      DerivesConcat(g, [a[0]], [T(t)] + rest, a[1..], a[1..]);
      assert [T(t)] + rest + a[1..] == [T(t)] + (rest + a[1..]);
    } else {
      SeqFirstBegins(g, lambda, first, a[1..], t);
      var rest :| Derives(g, a[1..], [T(t)] + rest);
      assert [N(a[0].index)] == [a[0]];
      DerivesConcat(g, [a[0]], [], a[1..], [T(t)] + rest);
      assert [] + ([T(t)] + rest) == [T(t)] + rest;
    }
  }

  lemma RuleDerives(g: Grammar, rule: Rule, b: seq<Symbol>)
    requires rule in g.rules && Derives(g, rule.rhs, b)
    ensures Derives(g, [N(rule.lhs)], b)
  {
    assert rule == Rule(rule.lhs, rule.rhs);
    DerivesExpansion(g, N(rule.lhs), rule.rhs);
    DerivesTrans(g, [N(rule.lhs)], rule.rhs, b);
  }

  // The least fixpoint: sound and closed tables are exact, for symbols and for sequences.
  lemma LeastFixpoint(g: Grammar, lambda: Lambdas, first: Firsts)
    requires |lambda| == |first| == g.nsymbol
    requires LambdaSound(g, lambda) && FirstSound(g, first) && Closed(g, lambda, first)
    ensures Exact(g, lambda, first)
    ensures forall a :: AllLambda(lambda, a) <==> Nullable(g, a)
    ensures forall a, t :: t in SeqFirst(lambda, first, a) <==> CanBegin(g, a, t)
  {
    forall a
      ensures AllLambda(lambda, a) <==> Nullable(g, a)
    {
      if AllLambda(lambda, a) { AllLambdaNullable(g, lambda, a); }
      if Nullable(g, a) {
        var n: nat :| DerivesIn(g, a, [], n);
        DerivationBackward(g, lambda, first, a, [], n);
      }
    }
    forall a, t
      ensures t in SeqFirst(lambda, first, a) <==> CanBegin(g, a, t)
    {
      if t in SeqFirst(lambda, first, a) { SeqFirstBegins(g, lambda, first, a, t); }
      if CanBegin(g, a, t) {
        var rest :| Derives(g, a, [T(t)] + rest);
        var n: nat :| DerivesIn(g, a, [T(t)] + rest, n);
        DerivationBackward(g, lambda, first, a, [T(t)] + rest, n);
        assert t in SeqFirst(lambda, first, [T(t)] + rest);
      }
    }
    forall i: nat | i < g.nsymbol
      ensures lambda[i] <==> Nullable(g, [N(i)])
    {
      assert AllLambda(lambda, [N(i)]) <==> IsLambda(lambda, [N(i)][0]);
    }
    forall i: nat, t | i < g.nsymbol
      ensures t in first[i] <==> CanBegin(g, [N(i)], t)
    {
      assert SeqFirst(lambda, first, [N(i)]) == first[i];
    }
  }

  // ---- the fixpoint iteration ----

  ghost function Unmarked(lambda: Lambdas): set<nat> {
    set i: nat | i < |lambda| && !lambda[i]
  }

  ghost function Pairs(first: Firsts): set<(nat, nat)> {
    set i: nat, t | i < |first| && t in first[i] :: (i, t)
  }

  ghost predicate OnlyTerminals(g: Grammar, first: Firsts) {
    forall i: nat, t | i < |first| && t in first[i] :: t < g.nterminal
  }

  ghost function AllPairs(g: Grammar): set<(nat, nat)> {
    set i: nat, t: nat | i < g.nsymbol && t < g.nterminal :: (i, t)
  }

  lemma RuleNullable(g: Grammar, lambda: Lambdas, rule: Rule)
    requires rule in g.rules && LambdaSound(g, lambda) && AllLambda(lambda, rule.rhs)
    ensures Nullable(g, [N(rule.lhs)])
  {
    AllLambdaNullable(g, lambda, rule.rhs);
    RuleDerives(g, rule, []);
  }

  // One sweep over the rules, looking for new nullable nonterminals.
  method LambdaPass(g: Grammar, lambda: array<bool>) returns (progress: bool)
    requires g.WellFormed() && lambda.Length == g.nsymbol && LambdaSound(g, lambda[..])
    modifies lambda
    ensures LambdaSound(g, lambda[..])
    ensures progress ==> Unmarked(lambda[..]) < old(Unmarked(lambda[..]))
    ensures !progress ==> lambda[..] == old(lambda[..]) && forall rule <- g.rules :: LambdaClosedFor(lambda[..], rule)
  {
    progress := false;
    for r := 0 to |g.rules|
      invariant LambdaSound(g, lambda[..])
      invariant progress ==> Unmarked(lambda[..]) < old(Unmarked(lambda[..]))
      invariant !progress ==> lambda[..] == old(lambda[..])
      invariant !progress ==> forall k | 0 <= k < r :: LambdaClosedFor(lambda[..], g.rules[k])
    {
      var rule := g.rules[r];
      if lambda[rule.lhs] { continue; }
      var i := 0;
      while i < |rule.rhs|
        invariant 0 <= i <= |rule.rhs|
        invariant AllLambda(lambda[..], rule.rhs[..i])
      {
        if !IsLambda(lambda[..], rule.rhs[i]) { break; }
        i := i + 1;
      }
      if i == |rule.rhs| {
        assert rule.rhs[..i] == rule.rhs;
        RuleNullable(g, lambda[..], rule);
        ghost var before := lambda[..];
        lambda[rule.lhs] := true;
        assert rule.lhs !in Unmarked(lambda[..]) && rule.lhs in Unmarked(before);
        progress := true;
      } else {
        assert rule.rhs[i] in rule.rhs;
      }
    }
  }

  // One symbol's share of a rule: s1's set takes in what `x` can begin with.
  method AddFirst(g: Grammar, first: array<set<nat>>, lhs: nat, x: Symbol) returns (progress: bool)
    requires lhs < first.Length == g.nsymbol && g.ValidSymbol(x) && OnlyTerminals(g, first[..])
    modifies first
    ensures first[..] == old(first[..])[lhs := old(first[lhs]) + old(SymbolFirst(first[..], x))]
    ensures OnlyTerminals(g, first[..])
    ensures progress ==> old(Pairs(first[..])) < Pairs(first[..])
    ensures !progress ==> first[..] == old(first[..])
  {
    var union := first[lhs] + SymbolFirst(first[..], x);
    progress := union != first[lhs];
    ghost var before := first[..];
    first[lhs] := union;
    if progress {
      ghost var t :| t in union && t !in before[lhs];
      assert (lhs, t) in Pairs(first[..]) && (lhs, t) !in Pairs(before);
      assert forall p | p in Pairs(before) :: p in Pairs(first[..]);
    }
  }

  lemma AddFirstSound(g: Grammar, lambda: Lambdas, first: Firsts, rule: Rule, i: nat)
    requires rule in g.rules && i < |rule.rhs| && rule.lhs < |first|
    requires LambdaSound(g, lambda) && FirstSound(g, first) && AllLambda(lambda, rule.rhs[..i])
    ensures FirstSound(g, first[rule.lhs := first[rule.lhs] + SymbolFirst(first, rule.rhs[i])])
  {
    forall t | t in SymbolFirst(first, rule.rhs[i])
      ensures CanBegin(g, [N(rule.lhs)], t)
    {
      SeqFirstConcat(lambda, first, rule.rhs[..i], rule.rhs[i..]);
      assert rule.rhs == rule.rhs[..i] + rule.rhs[i..];
      SeqFirstBegins(g, lambda, first, rule.rhs, t);
      var rest :| Derives(g, rule.rhs, [T(t)] + rest);
      RuleDerives(g, rule, [T(t)] + rest);
    }
  }

  lemma SeqFirstSnoc(lambda: Lambdas, first: Firsts, a: seq<Symbol>, i: nat)
    requires i < |a| && AllLambda(lambda, a[..i])
    ensures SeqFirst(lambda, first, a[..i + 1]) == SeqFirst(lambda, first, a[..i]) + SymbolFirst(first, a[i])
    ensures IsLambda(lambda, a[i]) ==> AllLambda(lambda, a[..i + 1])
    ensures !IsLambda(lambda, a[i]) ==> SeqFirst(lambda, first, a) == SeqFirst(lambda, first, a[..i + 1])
  {
    assert a[..i + 1] == a[..i] + [a[i]] && a == a[..i + 1] + a[i + 1..];
    SeqFirstConcat(lambda, first, a[..i], [a[i]]);
    SeqFirstConcat(lambda, first, a[..i + 1], a[i + 1..]);
    AllLambdaConcat(lambda, a[..i], [a[i]]);
    assert a[i] in a[..i + 1];
  }

  // One rule's share of a sweep: walk the right-hand side up to its first non-nullable symbol.
  method FirstOfRule(g: Grammar, lambda: Lambdas, first: array<set<nat>>, rule: Rule) returns (progress: bool)
    requires g.WellFormed() && first.Length == |lambda| == g.nsymbol && rule in g.rules
    requires LambdaSound(g, lambda) && FirstSound(g, first[..]) && OnlyTerminals(g, first[..])
    modifies first
    ensures FirstSound(g, first[..]) && OnlyTerminals(g, first[..])
    ensures progress ==> old(Pairs(first[..])) < Pairs(first[..])
    ensures !progress ==> first[..] == old(first[..]) && FirstClosedFor(lambda, first[..], rule)
  {
    progress := false;
    var rhs := rule.rhs;
    var i := 0;
    while i < |rhs|
      invariant 0 <= i <= |rhs| && AllLambda(lambda, rhs[..i])
      invariant FirstSound(g, first[..]) && OnlyTerminals(g, first[..])
      invariant progress ==> old(Pairs(first[..])) < Pairs(first[..])
      invariant !progress ==> first[..] == old(first[..])
      invariant !progress ==> SeqFirst(lambda, first[..], rhs[..i]) <= first[rule.lhs]
    {
      assert rhs[i] in rhs;
      SeqFirstSnoc(lambda, first[..], rhs, i);
      var s2 := rhs[i];
      if s2 == N(rule.lhs) {
        if !lambda[rule.lhs] { break; }
      } else {
        AddFirstSound(g, lambda, first[..], rule, i);
        var changed := AddFirst(g, first, rule.lhs, s2);
        progress := progress || changed;
        if !IsLambda(lambda, s2) { break; }
      }
      i := i + 1;
    }
    assert rhs[..|rhs|] == rhs;
  }

  // ensures: the tables hold exactly the nullable nonterminals and exactly the terminals that can begin
  // a sentential form of each nonterminal.
  method FindFirstSets(g: Grammar) returns (lambda: array<bool>, first: array<set<nat>>)
    requires g.WellFormed()
    ensures fresh(lambda) && fresh(first)
    ensures Exact(g, lambda[..], first[..]) && OnlyTerminals(g, first[..])
    ensures forall a :: AllLambda(lambda[..], a) <==> Nullable(g, a)
    ensures forall a, t :: t in SeqFirst(lambda[..], first[..], a) <==> CanBegin(g, a, t)
  {
    lambda := new bool[g.nsymbol](_ => false);
    first := new set<nat>[g.nsymbol](_ => {});
    var progress := true;
    while progress
      invariant LambdaSound(g, lambda[..]) && first[..] == seq(g.nsymbol, _ => {})
      invariant !progress ==> forall rule <- g.rules :: LambdaClosedFor(lambda[..], rule)
      decreases Unmarked(lambda[..]), progress
    {
      progress := LambdaPass(g, lambda);
    }
    progress := true;
    while progress
      invariant LambdaSound(g, lambda[..]) && FirstSound(g, first[..]) && OnlyTerminals(g, first[..])
      invariant forall rule <- g.rules :: LambdaClosedFor(lambda[..], rule)
      invariant !progress ==> forall rule <- g.rules :: FirstClosedFor(lambda[..], first[..], rule)
      decreases AllPairs(g) - Pairs(first[..]), progress
    {
      progress := FirstPass(g, lambda[..], first);
      assert Pairs(first[..]) <= AllPairs(g);
    }
    LeastFixpoint(g, lambda[..], first[..]);
  }

  method FirstPass(g: Grammar, lambda: Lambdas, first: array<set<nat>>) returns (progress: bool)
    requires g.WellFormed() && first.Length == |lambda| == g.nsymbol
    requires LambdaSound(g, lambda) && FirstSound(g, first[..]) && OnlyTerminals(g, first[..])
    modifies first
    ensures FirstSound(g, first[..]) && OnlyTerminals(g, first[..])
    ensures progress ==> old(Pairs(first[..])) < Pairs(first[..])
    ensures !progress ==>
      first[..] == old(first[..])
      && forall rule <- g.rules :: FirstClosedFor(lambda, first[..], rule)
  {
    progress := false;
    for r := 0 to |g.rules|
      invariant FirstSound(g, first[..]) && OnlyTerminals(g, first[..])
      invariant progress ==> old(Pairs(first[..])) < Pairs(first[..])
      invariant !progress ==> first[..] == old(first[..])
      invariant !progress ==> forall k | 0 <= k < r :: FirstClosedFor(lambda, first[..], g.rules[k])
    {
      var changed := FirstOfRule(g, lambda, first, g.rules[r]);
      progress := progress || changed;
    }
  }
}

/** Context-free grammars as LEMON stores them, and what they derive.

  Symbols are numbered as in the generator: index 0 is `$`, indices below
  `nterminal` are terminals, the rest up to `nsymbol` are nonterminals.  A
  MULTITERMINAL is an alternative of terminals on a right-hand side. */
module Grammars {

  datatype Symbol = T(index: nat) | N(index: nat) | Multi(subs: seq<nat>)

  datatype Rule = Rule(lhs: nat, rhs: seq<Symbol>)

  datatype Grammar = Grammar(nterminal: nat, nsymbol: nat, rules: seq<Rule>, start: nat) {

    predicate IsNonterminal(i: nat) {
      nterminal <= i < nsymbol
    }

    // `$` cannot be written in a grammar file, so it is on no right-hand side.
    predicate ValidSymbol(x: Symbol) {
      match x
      case T(i) => 1 <= i < nterminal
      case N(i) => IsNonterminal(i)
      case Multi(subs) => subs != [] && forall s <- subs :: 1 <= s < nterminal
    }

    predicate WellFormed() {
      && 1 <= nterminal
      && IsNonterminal(start)
      && (forall rule <- rules :: IsNonterminal(rule.lhs) && forall x <- rule.rhs :: ValidSymbol(x))
    }

    // The condition FindStates demands of the start symbol.
    predicate StartNotOnRhs() {
      forall rule <- rules :: N(start) !in rule.rhs
    }
  }

  // Symbol `sym` of the input or of the parser stack is one that `x` stands for.
  predicate Matches(x: Symbol, sym: Symbol) {
    match x
    case Multi(subs) => sym.T? && sym.index in subs
    case _ => sym == x
  }

  // ---- rewriting of sentential forms ----

  // One symbol is rewritten to `w`: by a rule, or by choosing one terminal of a MULTITERMINAL.
  ghost predicate Expands(g: Grammar, x: Symbol, w: seq<Symbol>) {
    || (x.N? && Rule(x.index, w) in g.rules)
    || (x.Multi? && exists s <- x.subs :: w == [T(s)])
  }

  ghost predicate Step(g: Grammar, a: seq<Symbol>, b: seq<Symbol>) {
    exists k, w | 0 <= k < |a| && Expands(g, a[k], w) :: b == a[..k] + w + a[k + 1..]
  }

  ghost predicate DerivesIn(g: Grammar, a: seq<Symbol>, b: seq<Symbol>, n: nat)
    decreases n
  {
    if n == 0 then a == b
    else exists m :: Step(g, a, m) && DerivesIn(g, m, b, n - 1)
  }

  ghost predicate Derives(g: Grammar, a: seq<Symbol>, b: seq<Symbol>) {
    exists n: nat :: DerivesIn(g, a, b, n)
  }

  function Terminals(w: seq<nat>): (r: seq<Symbol>)
    ensures |r| == |w| && forall i :: 0 <= i < |w| ==> r[i] == T(w[i])
  {
    seq(|w|, i requires 0 <= i < |w| => T(w[i]))
  }

  // The token string `w` is a sentence of the grammar.
  ghost predicate Sentence(g: Grammar, w: seq<nat>) {
    Derives(g, [N(g.start)], Terminals(w))
  }

  lemma DerivesRefl(g: Grammar, a: seq<Symbol>)
    ensures Derives(g, a, a)
  {
    assert DerivesIn(g, a, a, 0);
  }

  lemma {:induction false} DerivesInTrans(g: Grammar, a: seq<Symbol>, b: seq<Symbol>, c: seq<Symbol>, n: nat, m: nat)
    requires DerivesIn(g, a, b, n) && DerivesIn(g, b, c, m)
    ensures DerivesIn(g, a, c, n + m)
    decreases n
  {
    if n != 0 {
      var a' :| Step(g, a, a') && DerivesIn(g, a', b, n - 1);
      DerivesInTrans(g, a', b, c, n - 1, m);
    }
  }

  lemma DerivesTrans(g: Grammar, a: seq<Symbol>, b: seq<Symbol>, c: seq<Symbol>)
    requires Derives(g, a, b) && Derives(g, b, c)
    ensures Derives(g, a, c)
  {
    var n: nat :| DerivesIn(g, a, b, n);
    var m: nat :| DerivesIn(g, b, c, m);
    DerivesInTrans(g, a, b, c, n, m);
  }

  lemma StepInContext(g: Grammar, x: seq<Symbol>, a: seq<Symbol>, b: seq<Symbol>, y: seq<Symbol>)
    requires Step(g, a, b)
    ensures Step(g, x + a + y, x + b + y)
  {
    var k, w :| 0 <= k < |a| && Expands(g, a[k], w) && b == a[..k] + w + a[k + 1..];
    var c := x + a + y;
    assert c[|x| + k] == a[k];
    assert x + b + y == c[..|x| + k] + w + c[|x| + k + 1..];
  }

  lemma {:induction false} DerivesInContext(g: Grammar, x: seq<Symbol>, a: seq<Symbol>, b: seq<Symbol>, y: seq<Symbol>,
      n: nat)
    requires DerivesIn(g, a, b, n)
    ensures DerivesIn(g, x + a + y, x + b + y, n)
    decreases n
  {
    if n != 0 {
      var a' :| Step(g, a, a') && DerivesIn(g, a', b, n - 1);
      StepInContext(g, x, a, a', y);
      DerivesInContext(g, x, a', b, y, n - 1);
    }
  }

  lemma DerivesContext(g: Grammar, x: seq<Symbol>, a: seq<Symbol>, b: seq<Symbol>, y: seq<Symbol>)
    requires Derives(g, a, b)
    ensures Derives(g, x + a + y, x + b + y)
  {
    var n: nat :| DerivesIn(g, a, b, n);
    DerivesInContext(g, x, a, b, y, n);
  }

  lemma DerivesExpansion(g: Grammar, x: Symbol, w: seq<Symbol>)
    requires Expands(g, x, w)
    ensures Derives(g, [x], w)
  {
    assert [x][..0] + w + [x][1..] == w;
    assert [x][0] == x;
    assert Step(g, [x], w);
    assert DerivesIn(g, w, w, 0);
    assert DerivesIn(g, [x], w, 1);
  }

  // Derivations of two halves combine.
  lemma DerivesConcat(g: Grammar, a: seq<Symbol>, a': seq<Symbol>, b: seq<Symbol>, b': seq<Symbol>)
    requires Derives(g, a, a') && Derives(g, b, b')
    ensures Derives(g, a + b, a' + b')
  {
    DerivesContext(g, [], a, a', b);
    DerivesContext(g, a', b, b', []);
    assert [] + a + b == a + b && [] + a' + b == a' + b;
    assert a' + b + [] == a' + b && a' + b' + [] == a' + b';
    DerivesTrans(g, a + b, a' + b, a' + b');
  }

  // What a right-hand side says and what the stack holds for it derive from each other.
  lemma {:induction false} DerivesMatching(g: Grammar, xs: seq<Symbol>, ys: seq<Symbol>)
    requires |xs| == |ys| && forall i :: 0 <= i < |xs| ==> Matches(xs[i], ys[i])
    ensures Derives(g, xs, ys)
  {
    if |xs| == 0 {
      DerivesRefl(g, xs);
    } else {
      var n := |xs| - 1;
      DerivesMatching(g, xs[..n], ys[..n]);
      if xs[n].Multi? {
        DerivesExpansion(g, xs[n], [ys[n]]);
      } else {
        DerivesRefl(g, [ys[n]]);
      }
      DerivesConcat(g, xs[..n], ys[..n], [xs[n]], [ys[n]]);
      assert xs == xs[..n] + [xs[n]] && ys == ys[..n] + [ys[n]];
    }
  }
}

/** Leftmost derivations: of what begins with a token, and of what vanishes. */
module Leftmost {
  import opened Options
  import opened Grammars
  import opened FirstSets
  import opened ActionLists
  import opened Contexts

  // ---- leftmost derivations, up to the first token or to nothing ----

  ghost predicate LeftTo(g: Grammar, w: seq<Symbol>, goal: Option<nat>, d: nat)
    decreases d
  {
    if d == 0 then
      match goal
      case None => w == []
      case Some(t) => w != [] && !w[0].N? && t in SymbolCodes(w[0])
    else
      w != [] && w[0].N? && exists r: nat :: LeftBy(g, w, r) && LeftTo(g, g.rules[r].rhs + w[1..], goal, d - 1)
  }

  ghost predicate LeftBy(g: Grammar, w: seq<Symbol>, r: nat) {
    w != [] && w[0].N? && r < |g.rules| && g.rules[r].lhs == w[0].index
  }

  lemma LeftStep(g: Grammar, w: seq<Symbol>, r: nat, goal: Option<nat>, d: nat)
    requires LeftBy(g, w, r) && LeftTo(g, g.rules[r].rhs + w[1..], goal, d)
    ensures LeftTo(g, w, goal, d + 1)
  {
  }

  lemma LeftRule(g: Grammar, w: seq<Symbol>, goal: Option<nat>, d: nat) returns (r: nat)
    requires LeftTo(g, w, goal, d) && d > 0
    ensures LeftBy(g, w, r) && LeftTo(g, g.rules[r].rhs + w[1..], goal, d - 1)
  {
    r :| LeftBy(g, w, r) && LeftTo(g, g.rules[r].rhs + w[1..], goal, d - 1);
  }

  // Nothing but the first symbol counts, where it is no nonterminal.
  lemma LeftFirst(g: Grammar, u: seq<Symbol>, v: seq<Symbol>, goal: Option<nat>)
    requires LeftTo(g, u, goal, 0) && u != [] && v != [] && u[0] == v[0]
    ensures LeftTo(g, v, goal, 0)
  {
  }

  lemma UnexpandMulti(g: Grammar, x: Symbol, w: seq<Symbol>, b: seq<Symbol>, goal: Option<nat>, d: nat)
    requires Expands(g, x, w) && !x.N? && LeftTo(g, w + b, goal, d)
    ensures LeftTo(g, [x] + b, goal, 0)
  {
  }

  lemma UnexpandRule(g: Grammar, x: Symbol, w: seq<Symbol>, b: seq<Symbol>, goal: Option<nat>, d: nat)
    requires Expands(g, x, w) && x.N? && LeftTo(g, w + b, goal, d)
    ensures LeftTo(g, [x] + b, goal, d + 1)
  {
    hide LeftTo;
    var r: nat :| r < |g.rules| && g.rules[r] == Rule(x.index, w);
    assert ([x] + b)[1..] == b;
    LeftStep(g, [x] + b, r, goal, d);
  }

  // A step anywhere before it can be put in its place in a leftmost derivation.
  lemma {:induction false} Unexpand(g: Grammar, a: seq<Symbol>, x: Symbol, w: seq<Symbol>, b: seq<Symbol>,
                                    goal: Option<nat>, d: nat) returns (d': nat)
    requires Expands(g, x, w) && LeftTo(g, a + w + b, goal, d)
    ensures LeftTo(g, a + [x] + b, goal, d')
    decreases d
  {
    hide LeftTo, Expands;
    if a == [] {
      assert a + w + b == w + b && a + [x] + b == [x] + b;
      d' := if x.N? then d + 1 else 0;
      if x.N? { UnexpandRule(g, x, w, b, goal, d); } else { UnexpandMulti(g, x, w, b, goal, d); }
    } else if d == 0 {
      d' := 0;
      LeftFirst(g, a + w + b, a + [x] + b, goal);
    } else {
      var r := LeftRule(g, a + w + b, goal, d);
      var rhs := g.rules[r].rhs;
      assert rhs + (a + w + b)[1..] == (rhs + a[1..]) + w + b;
      var d1 := Unexpand(g, rhs + a[1..], x, w, b, goal, d - 1);
      d' := d1 + 1;
      assert rhs + (a + [x] + b)[1..] == (rhs + a[1..]) + [x] + b;
      LeftStep(g, a + [x] + b, r, goal, d1);
    }
  }

  lemma FirstStep(g: Grammar, w: seq<Symbol>, c: seq<Symbol>, n: nat)
    returns (a: seq<Symbol>, x: Symbol, v: seq<Symbol>, b: seq<Symbol>)
    requires DerivesIn(g, w, c, n) && n > 0
    ensures w == a + [x] + b && Expands(g, x, v) && DerivesIn(g, a + v + b, c, n - 1)
  {
    hide Expands;
    var m :| Step(g, w, m) && DerivesIn(g, m, c, n - 1);
    var k: nat;
    k, v :| k < |w| && Expands(g, w[k], v) && m == w[..k] + v + w[k + 1..];
    a, x, b := w[..k], w[k], w[k + 1..];
  }

  lemma {:induction false} LeftOf(g: Grammar, w: seq<Symbol>, c: seq<Symbol>, goal: Option<nat>, n: nat)
    returns (d: nat)
    requires DerivesIn(g, w, c, n) && LeftTo(g, c, goal, 0)
    ensures LeftTo(g, w, goal, d)
    decreases n
  {
    hide LeftTo, Expands, Step;
    if n == 0 {
      d := 0;
    } else {
      var a, x, v, b := FirstStep(g, w, c, n);
      var d1 := LeftOf(g, a + v + b, c, goal, n - 1);
      d := Unexpand(g, a, x, v, b, goal, d1);
    }
  }

  lemma LeftBegins(g: Grammar, w: seq<Symbol>, t: nat) returns (d: nat)
    requires CanBegin(g, w, t)
    ensures LeftTo(g, w, Some(t), d)
  {
    var rest :| Derives(g, w, [T(t)] + rest);
    var n: nat :| DerivesIn(g, w, [T(t)] + rest, n);
    d := LeftOf(g, w, [T(t)] + rest, Some(t), n);
  }

  lemma LeftVanishes(g: Grammar, w: seq<Symbol>) returns (d: nat)
    requires Nullable(g, w)
    ensures LeftTo(g, w, None, d)
  {
    var n: nat :| DerivesIn(g, w, [], n);
    d := LeftOf(g, w, [], None, n);
  }

  // Two halves vanish one after the other.
  lemma {:induction false} LeftSplit(g: Grammar, a: seq<Symbol>, b: seq<Symbol>, d: nat) returns (d1: nat, d2: nat)
    requires LeftTo(g, a + b, None, d)
    ensures LeftTo(g, a, None, d1) && LeftTo(g, b, None, d2) && d1 + d2 == d
    decreases d
  {
    if a == [] {
      assert a + b == b;
      d1, d2 := 0, d;
    } else {
      var whole := a + b;
      var r: nat :| LeftBy(g, whole, r) && LeftTo(g, g.rules[r].rhs + whole[1..], None, d - 1);
      assert g.rules[r].rhs + whole[1..] == (g.rules[r].rhs + a[1..]) + b;
      d1, d2 := LeftSplit(g, g.rules[r].rhs + a[1..], b, d - 1);
      assert LeftBy(g, a, r);
      d1 := d1 + 1;
    }
  }

  // What is left to do is what derives it.
  lemma {:induction false} LeftDerives(g: Grammar, w: seq<Symbol>, goal: Option<nat>, d: nat)
    requires LeftTo(g, w, goal, d)
    ensures goal.None? ==> Nullable(g, w)
    ensures goal.Some? ==> CanBegin(g, w, goal.value)
    decreases d
  {
    if d == 0 {
      DerivesRefl(g, w);
      if goal.Some? {
        SymbolBegins(g, w[0], w[1..], goal.value);
        assert [w[0]] + w[1..] == w;
      }
    } else {
      var r: nat :| LeftBy(g, w, r) && LeftTo(g, g.rules[r].rhs + w[1..], goal, d - 1);
      LeftDerives(g, g.rules[r].rhs + w[1..], goal, d - 1);
      RuleInContext(g, r, w[1..]);
      assert [N(g.rules[r].lhs)] + w[1..] == w;
      if goal.None? {
        DerivesTrans(g, w, g.rules[r].rhs + w[1..], []);
      } else {
        BeginsEarlier(g, w, g.rules[r].rhs + w[1..], goal.value);
      }
    }
  }

  lemma LeftReads(g: Grammar, w: seq<Symbol>, t: nat)
    requires LeftTo(g, w, Some(t), 0)
    ensures w != [] && !w[0].N? && t in SymbolCodes(w[0])
  {
  }

  lemma LeftVanishing(g: Grammar, w: seq<Symbol>, d: nat)
    requires LeftTo(g, w, None, d) && w != []
    ensures d > 0
  {
  }
}

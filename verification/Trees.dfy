/** Parse trees: every derivation of a token string has one for each symbol of the form it starts from. */
module Trees {
  import opened Grammars

  datatype Tree = Leaf(token: nat) | Node(rule: nat, kids: seq<Tree>)

  function Root(g: Grammar, t: Tree): Symbol {
    match t
    case Leaf(tok) => T(tok)
    case Node(r, _) => N(if r < |g.rules| then g.rules[r].lhs else 0)
  }

  function Yield(t: Tree): seq<nat>
    decreases t
  {
    match t
    case Leaf(tok) => [tok]
    case Node(_, kids) => Yields(kids)
  }

  function Yields(ts: seq<Tree>): seq<nat>
    decreases ts
  {
    if ts == [] then [] else Yield(ts[0]) + Yields(ts[1..])
  }

  // Every node applies a rule to its children.
  ghost predicate WellMade(g: Grammar, t: Tree)
    decreases t
  {
    match t
    case Leaf(_) => true
    case Node(r, kids) => r < |g.rules| && Fit(g, g.rules[r].rhs, kids)
  }

  // The trees fit the symbols one by one.
  ghost predicate Fit(g: Grammar, a: seq<Symbol>, ts: seq<Tree>)
    decreases ts
  {
    && |a| == |ts|
    && (ts != [] ==> Matches(a[0], Root(g, ts[0])) && WellMade(g, ts[0]) && Fit(g, a[1..], ts[1..]))
  }

  lemma {:induction false} FitConcat(g: Grammar, a: seq<Symbol>, b: seq<Symbol>, ts: seq<Tree>, us: seq<Tree>)
    requires |a| == |ts|
    ensures Fit(g, a + b, ts + us) <==> Fit(g, a, ts) && Fit(g, b, us)
    ensures Yields(ts + us) == Yields(ts) + Yields(us)
  {
    if ts == [] {
      assert a + b == b && ts + us == us;
    } else {
      assert (a + b)[1..] == a[1..] + b && (ts + us)[1..] == ts[1..] + us;
      FitConcat(g, a[1..], b, ts[1..], us);
    }
  }

  lemma {:induction false} TokensFit(g: Grammar, w: seq<nat>) returns (ts: seq<Tree>)
    ensures Fit(g, Terminals(w), ts) && Yields(ts) == w
  {
    if w == [] {
      ts := [];
    } else {
      var rest := TokensFit(g, w[1..]);
      ts := [Leaf(w[0])] + rest;
      assert ts[1..] == rest && Terminals(w)[1..] == Terminals(w[1..]);
    }
  }

  // Trees for the form after a step give trees for the form before it.
  lemma StepBack(g: Grammar, a: seq<Symbol>, b: seq<Symbol>, us: seq<Tree>) returns (ts: seq<Tree>)
    requires Step(g, a, b) && Fit(g, b, us)
    ensures Fit(g, a, ts) && Yields(ts) == Yields(us)
  {
    var k, w :| 0 <= k < |a| && Expands(g, a[k], w) && b == a[..k] + w + a[k + 1..];
    hide Fit, Yields, Expands, Matches, WellMade;
    FitLength(g, b, us);
    var left, mid, right := us[..k], us[k..k + |w|], us[k + |w|..];
    assert us == left + mid + right;
    FitThree(g, a[..k], w, a[k + 1..], left, mid, right);
    var t := Folded(g, a[k], w, mid);
    FitOne(g, a[k], t);
    assert a == a[..k] + [a[k]] + a[k + 1..];
    FitThree(g, a[..k], [a[k]], a[k + 1..], left, [t], right);
    ts := left + [t] + right;
  }

  lemma FitLength(g: Grammar, a: seq<Symbol>, ts: seq<Tree>)
    requires Fit(g, a, ts)
    ensures |a| == |ts|
  {
  }

  lemma FitThree(g: Grammar, a: seq<Symbol>, b: seq<Symbol>, c: seq<Symbol>, ts: seq<Tree>, us: seq<Tree>,
                 vs: seq<Tree>)
    requires |a| == |ts| && |b| == |us|
    ensures Fit(g, a + b + c, ts + us + vs) <==> Fit(g, a, ts) && Fit(g, b, us) && Fit(g, c, vs)
    ensures Yields(ts + us + vs) == Yields(ts) + Yields(us) + Yields(vs)
  {
    hide Fit, Yields;
    FitConcat(g, a + b, c, ts + us, vs);
    FitConcat(g, a, b, ts, us);
  }

  lemma FitOne(g: Grammar, x: Symbol, t: Tree)
    ensures Fit(g, [x], [t]) <==> Matches(x, Root(g, t)) && WellMade(g, t)
    ensures Yields([t]) == Yield(t)
  {
    assert [x][1..] == [] && [t][1..] == [];
    assert Fit(g, [], []);
  }

  lemma Folded(g: Grammar, x: Symbol, w: seq<Symbol>, mid: seq<Tree>) returns (t: Tree)
    requires Expands(g, x, w) && Fit(g, w, mid)
    ensures WellMade(g, t) && Matches(x, Root(g, t)) && Yield(t) == Yields(mid)
  {
    if x.N? && Rule(x.index, w) in g.rules {
      var r :| 0 <= r < |g.rules| && g.rules[r] == Rule(x.index, w);
      t := Node(r, mid);
    } else {
      var s :| s in x.subs && w == [T(s)];
      t := mid[0];
      FitOne(g, T(s), t);
      assert mid == [t];
    }
  }

  // Completeness of trees: whatever derives a token string is the top of a forest over it.
  lemma {:induction false} DerivationHasTrees(g: Grammar, a: seq<Symbol>, w: seq<nat>, n: nat) returns (ts: seq<Tree>)
    requires DerivesIn(g, a, Terminals(w), n)
    ensures Fit(g, a, ts) && Yields(ts) == w
    decreases n
  {
    if n == 0 {
      ts := TokensFit(g, w);
    } else {
      var m :| Step(g, a, m) && DerivesIn(g, m, Terminals(w), n - 1);
      var us := DerivationHasTrees(g, m, w, n - 1);
      ts := StepBack(g, a, m, us);
    }
  }

  // Soundness of trees: a forest is a derivation.
  lemma {:induction false} TreesDerive(g: Grammar, a: seq<Symbol>, ts: seq<Tree>)
    requires Fit(g, a, ts)
    ensures Derives(g, a, Terminals(Yields(ts)))
    decreases ts
  {
    if ts == [] {
      DerivesRefl(g, a);
      assert a == Terminals([]);
    } else {
      TreeDerives(g, a[0], ts[0]);
      TreesDerive(g, a[1..], ts[1..]);
      DerivesConcat(g, [a[0]], Terminals(Yield(ts[0])), a[1..], Terminals(Yields(ts[1..])));
      assert [a[0]] + a[1..] == a;
      assert Terminals(Yield(ts[0])) + Terminals(Yields(ts[1..])) == Terminals(Yields(ts));
    }
  }

  lemma {:induction false} TreeDerives(g: Grammar, x: Symbol, t: Tree)
    requires WellMade(g, t) && Matches(x, Root(g, t))
    ensures Derives(g, [x], Terminals(Yield(t)))
    decreases t
  {
    DerivesMatching(g, [x], [Root(g, t)]);
    match t
    case Leaf(tok) =>
      assert Terminals(Yield(t)) == [Root(g, t)];
    case Node(r, kids) =>
      TreesDerive(g, g.rules[r].rhs, kids);
      assert g.rules[r] == Rule(g.rules[r].lhs, g.rules[r].rhs);
      DerivesExpansion(g, N(g.rules[r].lhs), g.rules[r].rhs);
      DerivesTrans(g, [N(g.rules[r].lhs)], g.rules[r].rhs, Terminals(Yields(kids)));
      DerivesTrans(g, [x], [Root(g, t)], Terminals(Yield(t)));
  }

  // A sentence is what a tree for the start symbol yields.
  lemma SentenceTree(g: Grammar, w: seq<nat>)
    requires g.WellFormed()
    ensures Sentence(g, w) <==> exists t :: WellMade(g, t) && Root(g, t) == N(g.start) && Yield(t) == w
  {
    if Sentence(g, w) {
      var n: nat :| DerivesIn(g, [N(g.start)], Terminals(w), n);
      var ts := DerivationHasTrees(g, [N(g.start)], w, n);
      assert ts == [ts[0]];
      FitOne(g, N(g.start), ts[0]);
    }
    if t :| WellMade(g, t) && Root(g, t) == N(g.start) && Yield(t) == w {
      TreeDerives(g, N(g.start), t);
    }
  }
}

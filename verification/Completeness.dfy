/** Completeness of the driver: over rows that have an action wherever the look-aheads of the items ask for one, every
  sentence is accepted. */
module Completeness {
  import opened Options
  import opened Grammars
  import opened FirstSets
  import opened Automata
  import opened Trees
  import opened Lempar

  // For every state, its items, each with the look-aheads of its rule.
  type Lookaheads = seq<set<(Item, nat)>>

  // Token u can come where `rest` and then t are expected.
  ghost predicate Ahead(g: Grammar, rest: seq<Symbol>, t: nat, u: nat) {
    CanBegin(g, rest, u) || (Nullable(g, rest) && u == t)
  }

  ghost predicate ClosesItem(g: Grammar, las: set<(Item, nat)>, it: Item, t: nat) {
    forall r: nat, u: nat | r < |g.rules| && Next(g, it) == Some(N(g.rules[r].lhs)) && Ahead(g, Rest(g, it), t, u) ::
        (Item(r, 0), u) in las
  }

  ghost predicate EntersOn(row: StateRow, y: Symbol, to: nat) {
    match y
    case T(i) => TerminalAct(row, i) == Shift(to)
    case N(A) => A in row.onNonterminal && row.onNonterminal[A] == Shift(to)
    case Multi(_) => false
  }

  ghost predicate MovesTo(g: Grammar, las: Lookaheads, row: StateRow, it: Item, t: nat, to: nat) {
    && to < |las| && (Advance(it), t) in las[to]
    && Next(g, it).Some? && forall y | Matches(Next(g, it).value, y) && !y.Multi? :: EntersOn(row, y, to)
  }

  ghost predicate MovesItem(g: Grammar, las: Lookaheads, row: StateRow, it: Item, t: nat) {
    Next(g, it).Some? ==> exists to: nat :: MovesTo(g, las, row, it, t, to)
  }

  ghost predicate ReducesItem(g: Grammar, row: StateRow, it: Item, t: nat) {
    it.rule < |g.rules| && it.dot == |g.rules[it.rule].rhs| && t < g.nterminal ==>
      TerminalAct(row, t) == Reduce(it.rule)
  }

  ghost predicate ServesItem(g: Grammar, las: Lookaheads, k: nat, row: StateRow, it: Item, t: nat)
    requires k < |las|
  {
    ClosesItem(g, las[k], it, t) && MovesItem(g, las, row, it, t) && ReducesItem(g, row, it, t)
  }

  ghost predicate CompleteRows(g: Grammar, las: Lookaheads, rows: seq<StateRow>) {
    && |las| == |rows| > 0
    && (forall k: nat, it, t | k < |las| && (it, t) in las[k] :: ServesItem(g, las, k, rows[k], it, t))
    && (forall r: nat | r < |g.rules| && g.rules[r].lhs == g.start :: (Item(r, 0), 0) in las[0])
    && g.start in rows[0].onNonterminal && rows[0].onNonterminal[g.start] == Accept
  }

  // ---- steps of the driver ----

  // The look-ahead token; `$` at the end.
  function Cur(w: seq<nat>): nat {
    if w == [] then 0 else w[0]
  }

  // n iterations lead from one stack and remaining input to another.
  ghost predicate Reaches(g: Grammar, rows: seq<StateRow>, stack: seq<Entry>, w: seq<nat>, stack': seq<Entry>,
                          w': seq<nat>, n: nat)
    decreases n
  {
    if n == 0 then stack == stack' && w == w'
    else match OneStep(g, rows, stack, Cur(w))
      case Shifted(st) => w != [] && Reaches(g, rows, st, w[1..], stack', w', n - 1)
      case Reduced(st) => Reaches(g, rows, st, w, stack', w', n - 1)
      case _ => false
  }

  lemma {:induction false} ReachesTrans(g: Grammar, rows: seq<StateRow>, s0: seq<Entry>, w0: seq<nat>, s1: seq<Entry>,
      w1: seq<nat>, s2: seq<Entry>, w2: seq<nat>, n: nat, m: nat)
    requires Reaches(g, rows, s0, w0, s1, w1, n) && Reaches(g, rows, s1, w1, s2, w2, m)
    ensures Reaches(g, rows, s0, w0, s2, w2, n + m)
    decreases n
  {
    hide OneStep, Cur;
    if n != 0 {
      match OneStep(g, rows, s0, Cur(w0))
      case Shifted(st) => ReachesTrans(g, rows, st, w0[1..], s1, w1, s2, w2, n - 1, m);
      case Reduced(st) => ReachesTrans(g, rows, st, w0, s1, w1, s2, w2, n - 1, m);
    }
  }

  // Iterations up to acceptance are a run of Parse over the whole input, given fuel enough.
  lemma {:induction false} ReachedAccepts(g: Grammar, rows: seq<StateRow>, stack: seq<Entry>, w: seq<nat>,
      last: seq<Entry>, n: nat, f: nat, fuel: nat, kept: seq<nat>)
    requires Reaches(g, rows, stack, w, last, [], n) && OneStep(g, rows, last, 0) == Accepted && f > n && fuel > n
    ensures w == [] ==> RunToken(g, rows, stack, 0, f) == Accepted
    ensures w != [] ==> (RunToken(g, rows, stack, w[0], f).Shifted?
      && RunInput(g, rows, RunToken(g, rows, stack, w[0], f).stack, w[1..], kept + [w[0]], fuel) == Parsed(kept + w))
    decreases n
  {
    hide OneStep;
    if n != 0 {
      match OneStep(g, rows, stack, Cur(w))
      case Shifted(st) =>
        ReachedAccepts(g, rows, st, w[1..], last, n - 1, fuel, fuel, kept + [w[0]]);
        assert kept + [w[0]] + w[1..] == kept + w;
      case Reduced(st) => ReachedAccepts(g, rows, st, w, last, n - 1, f - 1, fuel, kept);
    }
  }

  // ---- a tree is recognized ----

  ghost predicate Tokens(g: Grammar, w: seq<nat>) {
    forall x <- w :: 1 <= x < g.nterminal
  }

  function SymbolCode(y: Symbol): nat {
    match y
    case T(i) => i
    case N(i) => i
    case Multi(_) => 0
  }

  // The parser is in a state that has the item.
  ghost predicate At(las: Lookaheads, stack: seq<Entry>, it: Item, t: nat) {
    |stack| > 0 && stack[|stack| - 1].stateno < |las| && (it, t) in las[stack[|stack| - 1].stateno]
  }

  lemma ItemServed(g: Grammar, las: Lookaheads, rows: seq<StateRow>, stack: seq<Entry>, it: Item, t: nat)
    requires CompleteRows(g, las, rows) && At(las, stack, it, t)
    ensures |rows| == |las| && ServesItem(g, las, stack[|stack| - 1].stateno, rows[stack[|stack| - 1].stateno], it, t)
  {
  }

  // What comes next after the tokens of some trees is ahead of the symbols they fit.
  lemma AheadOfYield(g: Grammar, a: seq<Symbol>, ts: seq<Tree>, rest: seq<nat>, t: nat)
    requires Fit(g, a, ts) && t == Cur(rest)
    ensures Ahead(g, a, t, Cur(Yields(ts) + rest))
  {
    hide Fit;
    TreesDerive(g, a, ts);
    var y := Yields(ts);
    if y == [] {
      assert Terminals(y) == [] && y + rest == rest;
    } else {
      assert Terminals(y) == [T(y[0])] + Terminals(y[1..]);
    }
  }

  lemma {:induction false} TreeRun(g: Grammar, las: Lookaheads, rows: seq<StateRow>, stack: seq<Entry>, t: Tree,
                                   rest: seq<nat>, it: Item, la: nat)
    returns (to: nat, n: nat)
    requires g.WellFormed() && CompleteRows(g, las, rows) && At(las, stack, it, la) && Tokens(g, Yield(t) + rest)
    requires WellMade(g, t) && Next(g, it).Some? && Matches(Next(g, it).value, Root(g, t))
      && Ahead(g, Rest(g, it), la, Cur(rest))
    ensures Reaches(g, rows, stack, Yield(t) + rest, stack + [Entry(to, SymbolCode(Root(g, t)))], rest, n)
    ensures to < |las| && (Advance(it), la) in las[to]
    decreases t
  {
    hide CompleteRows, Ahead, Fit;
    ItemServed(g, las, rows, stack, it, la);
    var k := stack[|stack| - 1].stateno;
    to :| MovesTo(g, las, rows[k], it, la, to);
    assert EntersOn(rows[k], Root(g, t), to);
    match t
    case Leaf(tok) =>
      assert (Yield(t) + rest)[0] == tok && tok in Yield(t) + rest && (Yield(t) + rest)[1..] == rest;
      n := 1;
      ShiftStep(g, rows, stack, tok, rest, to);
    case Node(r, kids) =>
      var stack', m := NodeRun(g, las, rows, stack, r, kids, rest, it, la);
      n := m + 1;
      var after := stack + [Entry(to, g.rules[r].lhs)];
      ReduceStep(g, rows, stack, stack', r, rest, to);
      ReachesTrans(g, rows, stack, Yields(kids) + rest, stack', rest, after, rest, m, 1);
  }

  lemma ShiftStep(g: Grammar, rows: seq<StateRow>, stack: seq<Entry>, tok: nat, rest: seq<nat>, to: nat)
    requires |stack| > 0 && stack[|stack| - 1].stateno < |rows| && tok != 0
    requires TerminalAct(rows[stack[|stack| - 1].stateno], tok) == Shift(to)
    ensures Reaches(g, rows, stack, [tok] + rest, stack + [Entry(to, tok)], rest, 1)
  {
    assert ([tok] + rest)[1..] == rest;
    assert Reaches(g, rows, stack + [Entry(to, tok)], rest, stack + [Entry(to, tok)], rest, 0);
  }

  lemma ReduceStep(g: Grammar, rows: seq<StateRow>, stack: seq<Entry>, stack': seq<Entry>, r: nat, rest: seq<nat>,
                   to: nat)
    requires |stack| > 0 && stack <= stack' && r < |g.rules| && |stack'| == |stack| + |g.rules[r].rhs|
    requires stack'[|stack'| - 1].stateno < |rows|
      && TerminalAct(rows[stack'[|stack'| - 1].stateno], Cur(rest)) == Reduce(r)
    requires stack[|stack| - 1].stateno < |rows| && EntersOn(rows[stack[|stack| - 1].stateno], N(g.rules[r].lhs), to)
    ensures Reaches(g, rows, stack', rest, stack + [Entry(to, g.rules[r].lhs)], rest, 1)
  {
    assert stack'[..|stack|] == stack;
    assert Reaches(g, rows, stack + [Entry(to, g.rules[r].lhs)], rest, stack + [Entry(to, g.rules[r].lhs)], rest, 0);
  }

  // The children of a node, up to the reduction.
  lemma {:induction false} NodeRun(g: Grammar, las: Lookaheads, rows: seq<StateRow>, stack: seq<Entry>, r: nat,
                                   kids: seq<Tree>, rest: seq<nat>, it: Item, la: nat)
    returns (stack': seq<Entry>, n: nat)
    requires g.WellFormed() && CompleteRows(g, las, rows) && At(las, stack, it, la) && Tokens(g, Yields(kids) + rest)
    requires WellMade(g, Node(r, kids)) && Next(g, it) == Some(N(g.rules[r].lhs))
      && Ahead(g, Rest(g, it), la, Cur(rest))
    ensures Reaches(g, rows, stack, Yields(kids) + rest, stack', rest, n)
    ensures stack <= stack' && |stack'| == |stack| + |g.rules[r].rhs|
    ensures stack'[|stack'| - 1].stateno < |rows| && TerminalAct(rows[stack'[|stack'| - 1].stateno], Cur(rest))
      == Reduce(r)
    decreases kids, 1
  {
    hide CompleteRows, Ahead, Fit;
    ItemServed(g, las, rows, stack, it, la);
    var u := Cur(rest);
    stack', n := KidsRun(g, las, rows, stack, kids, rest, Item(r, 0), u);
    ItemServed(g, las, rows, stack', Item(r, |kids|), u);
    RestIsToken(g, Yields(kids), rest);
  }

  lemma RestIsToken(g: Grammar, y: seq<nat>, rest: seq<nat>)
    requires g.WellFormed() && Tokens(g, y + rest)
    ensures Tokens(g, rest) && Cur(rest) < g.nterminal
  {
    forall x | x in rest ensures x in y + rest {}
    assert rest != [] ==> rest[0] in rest;
  }

  lemma {:induction false} KidsRun(g: Grammar, las: Lookaheads, rows: seq<StateRow>, stack: seq<Entry>, ts: seq<Tree>,
                                   rest: seq<nat>, it: Item, la: nat)
    returns (stack': seq<Entry>, n: nat)
    requires g.WellFormed() && CompleteRows(g, las, rows) && At(las, stack, it, la) && Tokens(g, Yields(ts) + rest)
    requires ValidItem(g, it) && Fit(g, g.rules[it.rule].rhs[it.dot..], ts) && la == Cur(rest)
    ensures Reaches(g, rows, stack, Yields(ts) + rest, stack', rest, n)
    ensures stack <= stack' && |stack'| == |stack| + |ts|
    ensures it.dot + |ts| == |g.rules[it.rule].rhs| && At(las, stack', Item(it.rule, it.dot + |ts|), la)
    decreases ts, 0
  {
    hide CompleteRows, Ahead;
    if ts == [] {
      stack', n := stack, 0;
      assert Yields(ts) + rest == rest;
    } else {
      var rhs := g.rules[it.rule].rhs;
      assert rhs[it.dot..][0] == rhs[it.dot] && rhs[it.dot..][1..] == rhs[it.dot + 1..];
      var more := Yields(ts[1..]) + rest;
      assert Yields(ts) + rest == Yield(ts[0]) + more;
      AheadOfYield(g, rhs[it.dot + 1..], ts[1..], rest, la);
      var to, n0 := TreeRun(g, las, rows, stack, ts[0], more, it, la);
      var st := stack + [Entry(to, SymbolCode(Root(g, ts[0])))];
      RestIsToken(g, Yield(ts[0]), more);
      var n1;
      stack', n1 := KidsRun(g, las, rows, st, ts[1..], rest, Advance(it), la);
      ReachesTrans(g, rows, stack, Yields(ts) + rest, st, more, stack', rest, n0, n1);
      n := n0 + n1;
    }
  }

  // Every sentence is accepted, by any amount of fuel beyond some bound.
  lemma SentenceAccepted(g: Grammar, las: Lookaheads, rows: seq<StateRow>, w: seq<nat>) returns (n: nat)
    requires g.WellFormed() && CompleteRows(g, las, rows) && Tokens(g, w) && Sentence(g, w)
    ensures forall fuel: nat | fuel > n :: RunInput(g, rows, [BOTTOM], w, [], fuel) == Parsed(w)
  {
    hide Reaches, Sentence, WellMade, Fit, RunInput, OneStep, CompleteRows;
    SentenceTree(g, w);
    var t :| WellMade(g, t) && Root(g, t) == N(g.start) && Yield(t) == w;
    var last;
    last, n := StartRun(g, las, rows, t);
    forall fuel: nat | fuel > n ensures RunInput(g, rows, [BOTTOM], w, [], fuel) == Parsed(w) {
      ReachedAccepts(g, rows, [BOTTOM], w, last, n, fuel, fuel, []);
      FirstToken(g, rows, w, fuel);
      assert [] + w == w;
    }
  }

  // A tree for the start symbol leads to the accepting reduction.
  lemma StartRun(g: Grammar, las: Lookaheads, rows: seq<StateRow>, t: Tree) returns (last: seq<Entry>, n: nat)
    requires g.WellFormed() && CompleteRows(g, las, rows) && Tokens(g, Yield(t)) && WellMade(g, t)
      && Root(g, t) == N(g.start)
    ensures Reaches(g, rows, [BOTTOM], Yield(t), last, [], n) && OneStep(g, rows, last, 0) == Accepted
  {
    hide Reaches;
    var r, kids := t.rule, t.kids;
    assert Yield(t) + [] == Yield(t) && At(las, [BOTTOM], Item(r, 0), 0);
    hide CompleteRows, Fit;
    StartKids(g, t);
    last, n := KidsRun(g, las, rows, [BOTTOM], kids, [], Item(r, 0), 0);
    ItemServed(g, las, rows, last, Item(r, |kids|), 0);
    ItemServed(g, las, rows, [BOTTOM], Item(r, 0), 0);
    AcceptingStep(g, las, rows, last, r);
  }

  lemma StartKids(g: Grammar, t: Tree)
    requires g.WellFormed() && WellMade(g, t) && Root(g, t) == N(g.start)
    ensures t.Node? && t.rule < |g.rules| && g.rules[t.rule].lhs == g.start && Fit(g, g.rules[t.rule].rhs[0..], t.kids)
  {
    assert g.rules[t.rule].rhs[0..] == g.rules[t.rule].rhs;
  }

  lemma AcceptingStep(g: Grammar, las: Lookaheads, rows: seq<StateRow>, stack: seq<Entry>, r: nat)
    requires CompleteRows(g, las, rows) && r < |g.rules| && g.rules[r].lhs == g.start
    requires [BOTTOM] <= stack && |stack| == 1 + |g.rules[r].rhs| && stack[|stack| - 1].stateno < |rows|
    requires TerminalAct(rows[stack[|stack| - 1].stateno], 0) == Reduce(r)
    ensures OneStep(g, rows, stack, 0) == Accepted
  {
    assert stack[..1] == [BOTTOM];
  }

  lemma FirstToken(g: Grammar, rows: seq<StateRow>, w: seq<nat>, fuel: nat)
    requires w == [] ==> RunToken(g, rows, [BOTTOM], 0, fuel) == Accepted
    requires w != [] ==> (RunToken(g, rows, [BOTTOM], w[0], fuel).Shifted?
      && RunInput(g, rows, RunToken(g, rows, [BOTTOM], w[0], fuel).stack, w[1..], [] + [w[0]], fuel) == Parsed([] + w))
    ensures RunInput(g, rows, [BOTTOM], w, [], fuel) == Parsed([] + w)
  {
    hide RunToken;
  }

  // The driver accepts exactly the sentences: rows that are both sound and complete recognize the language.
  lemma AcceptsExactly(g: Grammar, items: seq<set<Item>>, las: Lookaheads, rows: seq<StateRow>, w: seq<nat>)
    requires g.WellFormed() && SoundRows(g, items, rows) && CompleteRows(g, las, rows) && Tokens(g, w)
    ensures Sentence(g, w) <==> Accepts(g, rows, w)
  {
    if Sentence(g, w) {
      var n := SentenceAccepted(g, las, rows, w);
      assert RunInput(g, rows, [BOTTOM], w, [], n + 1) == Parsed(w);
    }
    if fuel: nat :| RunInput(g, rows, [BOTTOM], w, [], fuel) == Parsed(w) {
      AcceptedIsSentence(g, items, rows, w, fuel);
    }
  }
}

/** What a state answers where several actions are called for, and how many conflicts are reported, in terms of the
  LALR(1) automaton and the declared precedences. */
module Rulings {
  import opened Options
  import opened Grammars
  import opened FirstSets
  import opened Automata
  import opened Sorting
  import opened Configs
  import opened ActionLists
  import opened Numbers
  import opened Collection
  import opened Canonical
  import opened Verdicts
  import opened Reductions
  import opened Resolve
  import opened Compress
  import opened Report
  import opened Packing
  import opened Emission
  import opened Soundness
  import opened Lalr
  import opened Propagation
  import opened Clashes
  import opened Realization
  import opened Sufficiency
  import opened Defaults

  // ---- in terms of the automaton ----

  // The rules that a state calls for on t.
  ghost function RulesFor(g: Grammar, kernel: set<Item>, t: nat): set<nat> {
    set r | 0 <= r < |g.rules| && Reduces(g, kernel, r, t)
  }

  // y is behind the dot of some item that stands before all items with x behind their dots.
  ghost predicate Sooner(g: Grammar, kernel: set<Item>, y: Symbol, x: Symbol) {
    exists it :: InClosure(g, kernel, it) && Next(g, it) == Some(y)
      && forall later | InClosure(g, kernel, later) && Next(g, later) == Some(x) ::
           it.rule < later.rule || (it.rule == later.rule && it.dot < later.dot)
  }

  // Of the symbols that ask for a shift on t, x comes last.
  ghost predicate LastShifted(g: Grammar, kernel: set<Item>, t: nat, x: Symbol) {
    && ShiftsOver(g, kernel, x) && t in SymbolCodes(x)
    && forall y | ShiftsOver(g, kernel, y) && t in SymbolCodes(y) && y != x :: Sooner(g, kernel, y, x)
  }

  // The action that prevails.
  ghost predicate Ruling(g: Grammar, p: Precedences, kernels: seq<set<Item>>, k: nat, t: nat, a: Act)
    requires k < |kernels|
  {
    var shifted, rules := ShiftsCode(g, kernels[k], t), RulesFor(g, kernels[k], t);
    match a
    case Shift(to) =>
      && Prevails(p, t, shifted, rules, None) && to < |kernels|
      && exists x :: LastShifted(g, kernels[k], t, x) && kernels[to] == Goto(g, kernels[k], x)
    case Reduce(r) => Prevails(p, t, shifted, rules, Some(r))
    case _ => false
  }

  // On every terminal that a state has an action for, the row answers with the one that prevails.
  ghost predicate Ruled(g: Grammar, p: Precedences, kernels: seq<set<Item>>, rows: seq<StateRow>) {
    && |rows| == |kernels|
    && forall k: nat, t: nat | k < |rows| && t < g.nterminal && Called(g, kernels, k, t) ::
         Ruling(g, p, kernels, k, t, TerminalAct(rows[k], t))
  }

  ghost function DisputedIn(g: Grammar, p: Precedences, kernel: set<Item>): set<(nat, nat)> {
    set t, r | 0 <= t < g.nterminal && 0 <= r < |g.rules| && Reduces(g, kernel, r, t)
        && Disputed(p, t, ShiftsCode(g, kernel, t), RulesFor(g, kernel, t), r) :: (t, r)
  }

  // The shifts that a state asks for: one for each constituent of each symbol.
  ghost function Moves(g: Grammar, kernel: set<Item>): set<(Symbol, nat)> {
    set it, i | it in AllItems(g) && InClosure(g, kernel, it) && Next(g, it).Some?
        && 0 <= i < |SymbolCodes(Next(g, it).value)| :: (Next(g, it).value, i)
  }

  ghost function MoveCodes(g: Grammar, kernel: set<Item>): set<nat> {
    set it, i | it in AllItems(g) && InClosure(g, kernel, it) && Next(g, it).Some?
        && 0 <= i < |SymbolCodes(Next(g, it).value)| :: SymbolCodes(Next(g, it).value)[i]
  }

  // The conflicts of a state: every disputed reduction, and every shift but one for each look-ahead.
  ghost function KernelConflicts(g: Grammar, p: Precedences, kernel: set<Item>): int {
    |DisputedIn(g, p, kernel)| + |Moves(g, kernel)| - |MoveCodes(g, kernel)|
  }

  // ---- the shifts of a state ----

  ghost function PairsOf(syms: seq<Symbol>): set<(Symbol, nat)> {
    set x, i | x in syms && 0 <= i < |SymbolCodes(x)| :: (x, i)
  }

  ghost function PairsTo(x: Symbol, n: nat): set<(Symbol, nat)> {
    set i: nat | i < n :: (x, i)
  }

  lemma {:induction false} ManyPairs(x: Symbol, n: nat)
    ensures |PairsTo(x, n)| == n
  {
    if n == 0 {
      assert PairsTo(x, n) == {};
    } else {
      ManyPairs(x, n - 1);
      assert PairsTo(x, n) == PairsTo(x, n - 1) + {(x, n - 1)};
    }
  }

  lemma {:induction false} PairsSize(syms: seq<Symbol>)
    requires AllDifferent(syms)
    ensures |PairsOf(syms)| == |Requests(syms)|
  {
    if syms == [] {
      assert PairsOf(syms) == {};
    } else {
      var n := |syms| - 1;
      var x, before := syms[n], syms[..n];
      assert syms == before + [x];
      assert x !in before;
      PairsSize(before);
      ManyPairs(x, |SymbolCodes(x)|);
      var added := PairsTo(x, |SymbolCodes(x)|);
      assert PairsOf(syms) == PairsOf(before) + added;
      assert PairsOf(before) !! added;
    }
  }

  // What is asked for.
  lemma {:induction false} RequestAt(syms: seq<Symbol>, k: nat) returns (j: nat, i: nat)
    requires k < |Requests(syms)|
    ensures j < |syms| && i < |SymbolCodes(syms[j])| && Requests(syms)[k] == (syms[j], SymbolCodes(syms[j])[i])
  {
    var n := |syms| - 1;
    if k < |Requests(syms[..n])| {
      j, i := RequestAt(syms[..n], k);
    } else {
      j, i := n, k - |Requests(syms[..n])|;
    }
  }

  lemma {:induction false} Requested(syms: seq<Symbol>, j: nat, i: nat) returns (k: nat)
    requires j < |syms| && i < |SymbolCodes(syms[j])|
    ensures k < |Requests(syms)| && Requests(syms)[k] == (syms[j], SymbolCodes(syms[j])[i])
  {
    var n := |syms| - 1;
    if j < n {
      k := Requested(syms[..n], j, i);
    } else {
      k := |Requests(syms[..n])| + i;
    }
  }

  // Requests of different symbols stand in the order of the symbols.
  lemma {:induction false} RequestOrder(syms: seq<Symbol>, k: nat, k': nat) returns (i: nat, j: nat)
    requires k < k' < |Requests(syms)| && Requests(syms)[k].0 != Requests(syms)[k'].0
    ensures i < j < |syms| && syms[i] == Requests(syms)[k].0 && syms[j] == Requests(syms)[k'].0
  {
    var n := |syms| - 1;
    if k' < |Requests(syms[..n])| {
      i, j := RequestOrder(syms[..n], k, k');
    } else {
      var l;
      i, l := RequestAt(syms, k);
      j := n;
    }
  }

  lemma {:induction false} NextsMeans(g: Grammar, cs: Pool, ids: seq<nat>)
    ensures AllDifferent(NextsOf(g, cs, ids))
    ensures forall x :: x in NextsOf(g, cs, ids) <==> exists c <- ids :: Next(g, ItemOf(cs, c)) == Some(x)
    decreases |ids|
  {
    if ids != [] {
      var n := |ids| - 1;
      NextsMeans(g, cs, ids[..n]);
      assert ids == ids[..n] + [ids[n]];
      forall x ensures x in NextsOf(g, cs, ids) <==> exists c <- ids :: Next(g, ItemOf(cs, c)) == Some(x) {
        if x in NextsOf(g, cs, ids[..n]) {
          var c :| c in ids[..n] && Next(g, ItemOf(cs, c)) == Some(x);
          assert c in ids;
        }
        assert ids[n] in ids;
      }
    }
  }

  // Symbols stand in the order in which they are first met.
  lemma {:induction false} NextsOrder(g: Grammar, cs: Pool, ids: seq<nat>, i: nat, j: nat) returns (m: nat)
    requires i < j < |NextsOf(g, cs, ids)|
    ensures m < |ids| && Next(g, ItemOf(cs, ids[m])) == Some(NextsOf(g, cs, ids)[i])
    ensures forall m': nat | m' < |ids| && Next(g, ItemOf(cs, ids[m'])) == Some(NextsOf(g, cs, ids)[j]) :: m < m'
    decreases |ids|
  {
    var n := |ids| - 1;
    var before := NextsOf(g, cs, ids[..n]);
    NextsMeans(g, cs, ids);
    if j < |before| {
      m := NextsOrder(g, cs, ids[..n], i, j);
      assert NextsOf(g, cs, ids)[i] == before[i] && NextsOf(g, cs, ids)[j] == before[j];
      forall m': nat | m' < |ids| && Next(g, ItemOf(cs, ids[m'])) == Some(before[j]) ensures m < m' {
        if m' < n { assert ids[..n][m'] == ids[m']; }
      }
    } else {
      NextsMeans(g, cs, ids[..n]);
      assert before[i] in before;
      var c :| c in ids[..n] && Next(g, ItemOf(cs, c)) == Some(before[i]);
      m :| 0 <= m < n && ids[..n][m] == c;
      assert NextsOf(g, cs, ids)[j] !in before;
      forall m': nat | m' < n ensures Next(g, ItemOf(cs, ids[m'])) != Some(NextsOf(g, cs, ids)[j]) {
        assert ids[m'] in ids[..n];
      }
    }
  }

  // ---- a state of the generator ----

  lemma AskedOf(g: Grammar, lambda: Lambdas, first: Firsts, cs: Pool, states: seq<State>, s: nat)
    requires Built(g, lambda, first, cs, states) && s < |states|
    ensures AllAnswered(g, cs, states, s, Requests(NextsOf(g, cs, states[s].cfp))) && Descending(states[s].ap)
    ensures InOrder(ItemsOf(cs, states[s].cfp))
  {
    hide Good, ShiftDone, ActionOK, ClashingRepeats, AllAnswered, Requests, NextsOf, FoundFrom, InOrder;
    assert Done(g, cs, states, s);
    StateOfGood(g, lambda, first, cs, states, s);
  }

  lemma NextsAreShifted(g: Grammar, lambda: Lambdas, first: Firsts, cs: Pool, states: seq<State>, s: nat, x: Symbol)
    requires Built(g, lambda, first, cs, states) && s < |states|
    ensures x in NextsOf(g, cs, states[s].cfp) <==> ShiftsOver(g, Kernel(cs, states, s), x)
  {
    hide Built, ShiftsOver, NextsOf;
    NextsMeans(g, cs, states[s].cfp);
    ShiftsExact(g, lambda, first, cs, states, s, x);
  }

  // How many shifts there are, and on what.
  lemma ShiftsCounted(g: Grammar, lambda: Lambdas, first: Firsts, cs: Pool, states: seq<State>, s: nat)
    requires Built(g, lambda, first, cs, states) && s < |states|
    ensures |states[s].ap| == |Moves(g, Kernel(cs, states, s))|
    ensures CodesOf(states[s].ap) == MoveCodes(g, Kernel(cs, states, s))
  {
    hide Built, NextsOf, Requests, InClosure, ShiftsOver;
    var kernel, syms := Kernel(cs, states, s), NextsOf(g, cs, states[s].cfp);
    AskedOf(g, lambda, first, cs, states, s);
    NextsMeans(g, cs, states[s].cfp);
    PairsSize(syms);
    forall x ensures x in syms <==> ShiftsOver(g, kernel, x) { NextsAreShifted(g, lambda, first, cs, states, s, x); }
    MovesArePairs(g, kernel, syms);
    forall t: nat ensures t in CodesOf(states[s].ap) <==> t in MoveCodes(g, kernel) {
      CodesExact(g, lambda, first, cs, states, s, t);
      CodeMoves(g, kernel, t);
    }
  }

  lemma MovesArePairs(g: Grammar, kernel: set<Item>, syms: seq<Symbol>)
    requires forall x :: x in syms <==> ShiftsOver(g, kernel, x)
    ensures Moves(g, kernel) == PairsOf(syms)
  {
    hide InClosure;
    forall x, i: nat ensures (x, i) in Moves(g, kernel) <==> (x, i) in PairsOf(syms) {
      if (x, i) in PairsOf(syms) {
        var it :| InClosure(g, kernel, it) && Next(g, it) == Some(x);
        assert it in AllItems(g);
      }
    }
  }

  lemma CodeMoves(g: Grammar, kernel: set<Item>, t: nat)
    ensures t in MoveCodes(g, kernel) <==> ShiftsCode(g, kernel, t)
  {
    hide InClosure;
    if ShiftsCode(g, kernel, t) {
      var x :| ShiftsOver(g, kernel, x) && t in SymbolCodes(x);
      var it :| InClosure(g, kernel, it) && Next(g, it) == Some(x);
      assert it in AllItems(g);
    }
  }

  // Of several shifts on t the last one entered is that of the last symbol.
  lemma LastWins(g: Grammar, lambda: Lambdas, first: Firsts, cs: Pool, states: seq<State>, s: nat, a: Action)
    returns (x: Symbol)
    requires Built(g, lambda, first, cs, states) && s < |states| && a in states[s].ap
    requires forall b <- states[s].ap | b.sp == a.sp :: b.addr <= a.addr
    ensures LastShifted(g, Kernel(cs, states, s), a.sp, x) && a.x < |states|
    ensures Kernel(cs, states, a.x) == Goto(g, Kernel(cs, states, s), x)
  {
    hide Built, NextsOf, Requests, InClosure, ShiftsOver, GotoIs, Goto, Sooner, InOrder;
    var kernel, ap, cfp := Kernel(cs, states, s), states[s].ap, states[s].cfp;
    var syms := NextsOf(g, cs, cfp);
    var asked := Requests(syms);
    AskedOf(g, lambda, first, cs, states, s);
    StateKernel(g, lambda, first, cs, states, s);
    var i :| 0 <= i < |ap| && ap[i] == a;
    var k := |ap| - 1 - i;
    assert Answers(g, cs, states, s, a, asked[k]);
    x := asked[k].0;
    var j, c := RequestAt(syms, k);
    assert x in syms;
    NextsAreShifted(g, lambda, first, cs, states, s, x);
    AnswerLeads(g, cs, states, s, a, asked[k]);
    forall y | ShiftsOver(g, kernel, y) && a.sp in SymbolCodes(y) && y != x ensures Sooner(g, kernel, y, x) {
      NextsAreShifted(g, lambda, first, cs, states, s, y);
      var j' :| 0 <= j' < |syms| && syms[j'] == y;
      var c' :| 0 <= c' < |SymbolCodes(y)| && SymbolCodes(y)[c'] == a.sp;
      var k' := Requested(syms, j', c');
      assert Answers(g, cs, states, s, ap[|ap| - 1 - k'], asked[k']);
      assert k' < k by { DescendingAfter(ap, i, |ap| - 1 - k'); }
      var u, v := RequestOrder(syms, k', k);
      SoonerBy(g, lambda, first, cs, states, s, u, v);
    }
  }

  lemma AnswerLeads(g: Grammar, cs: Pool, states: seq<State>, s: nat, a: Action, asked: (Symbol, nat))
    requires s < |states| && Answers(g, cs, states, s, a, asked)
    ensures a.x < |states| && Kernel(cs, states, a.x) == AdvanceAll(g, Items(cs, states, s), asked.0)
  {
  }

  lemma DescendingAfter(ap: seq<Action>, i: nat, j: nat)
    requires Descending(ap) && i < |ap| && j < |ap| && ap[j].addr <= ap[i].addr
    ensures i <= j
  {
  }

  lemma SoonerBy(g: Grammar, lambda: Lambdas, first: Firsts, cs: Pool, states: seq<State>, s: nat, i: nat, j: nat)
    requires Built(g, lambda, first, cs, states) && s < |states| && i < j < |NextsOf(g, cs, states[s].cfp)|
    ensures var syms := NextsOf(g, cs, states[s].cfp); Sooner(g, Kernel(cs, states, s), syms[i], syms[j])
  {
    hide Built, NextsOf, InClosure;
    var cfp, kernel := states[s].cfp, Kernel(cs, states, s);
    var syms := NextsOf(g, cs, cfp);
    AskedOf(g, lambda, first, cs, states, s);
    StateKernel(g, lambda, first, cs, states, s);
    var m := NextsOrder(g, cs, cfp, i, j);
    var it := ItemOf(cs, cfp[m]);
    assert cfp[m] in cfp && it in Items(cs, states, s);
    forall later | InClosure(g, kernel, later) && Next(g, later) == Some(syms[j])
      ensures it.rule < later.rule || (it.rule == later.rule && it.dot < later.dot)
    {
      var c :| c in cfp && ItemOf(cs, c) == later;
      var m' :| 0 <= m' < |cfp| && cfp[m'] == c;
      assert ItemsOf(cs, cfp)[m] == it && ItemsOf(cs, cfp)[m'] == later;
    }
  }

  // ---- the rows ----

  lemma SameRules(g: Grammar, lambda: Lambdas, first: Firsts, cs: Pool, states: seq<State>, linked: Pool,
                  followed: Pool, s: nat, t: nat)
    requires Analyzed(g, lambda, first, cs, states, linked, followed) && FirstExact(g, lambda, first) && s < |states|
    ensures CalledRules(g, followed, states[s].cfp, t) == RulesFor(g, Kernel(cs, states, s), t)
    ensures HasLookahead(states[s].ap, t) <==> ShiftsCode(g, Kernel(cs, states, s), t)
  {
    hide Analyzed, FirstExact, Built, Reduces, CallsForReduce, ShiftsOver;
    AnalyzedBuilt(g, lambda, first, cs, states, linked, followed);
    forall r: nat { ReducesExact(g, lambda, first, cs, states, linked, followed, s, r, t); }
    CodesExact(g, lambda, first, cs, states, s, t);
  }

  lemma ConflictsAgree(g: Grammar, lambda: Lambdas, first: Firsts, cs: Pool, states: seq<State>, linked: Pool,
                       followed: Pool, s: nat, p: Precedences)
    requires Analyzed(g, lambda, first, cs, states, linked, followed) && FirstExact(g, lambda, first) && s < |states|
    ensures StateConflicts(g, followed, states[s], p) == KernelConflicts(g, p, Kernel(cs, states, s))
  {
    hide Analyzed, FirstExact, Built, Reduces, CallsForReduce, Disputed, CalledRules, RulesFor, HasLookahead,
        ShiftsCode, Moves, MoveCodes, CodesOf;
    AnalyzedBuilt(g, lambda, first, cs, states, linked, followed);
    ShiftsCounted(g, lambda, first, cs, states, s);
    forall t: nat { SameRules(g, lambda, first, cs, states, linked, followed, s, t); }
    forall r: nat, t: nat { ReducesExact(g, lambda, first, cs, states, linked, followed, s, r, t); }
    assert DisputedPairs(g, followed, states[s], p) == DisputedIn(g, p, Kernel(cs, states, s));
  }

  // A live action of a resolved list, by the automaton.
  lemma LiveRuled(g: Grammar, lambda: Lambdas, first: Firsts, cs: Pool, states: seq<State>, linked: Pool,
                  followed: Pool, s: nat, p: Precedences, resolved: seq<Action>, a: Action, order: seq<nat>,
                  num: seq<nat>)
    requires Analyzed(g, lambda, first, cs, states, linked, followed) && FirstExact(g, lambda, first) && s < |states|
    requires Finished(g, followed, states[s], s == 0, resolved) && DecidedFor(g, followed, states[s], p, resolved)
    requires a in resolved && Live(a) && a.sp < g.nterminal && Numbering(order, num) && |order| == |states|
    ensures num[s] < |order|
    ensures Ruling(g, p, KernelsByNumber(cs, states, order), num[s], a.sp, RenameAct(num, ActOf(a)))
  {
    hide Analyzed, FirstExact, Built, Reduces, CallsForReduce, Prevails, CalledRules, RulesFor, HasLookahead,
        ShiftsCode, Deterministic, Kernel, KernelsByNumber, LastShifted, Goto;
    AnalyzedBuilt(g, lambda, first, cs, states, linked, followed);
    KernelAt(cs, states, order, num, s);
    SameRules(g, lambda, first, cs, states, linked, followed, s, a.sp);
    LiveKinds(g, lambda, first, cs, states, linked, followed, s, resolved, a);
    if a.kind == SHIFT {
      var x := LastWins(g, lambda, first, cs, states, s, a);
      KernelAt(cs, states, order, num, a.x);
    }
  }

  lemma LiveKinds(g: Grammar, lambda: Lambdas, first: Firsts, cs: Pool, states: seq<State>, linked: Pool,
                  followed: Pool, s: nat, resolved: seq<Action>, a: Action)
    requires Analyzed(g, lambda, first, cs, states, linked, followed) && s < |states|
    requires Finished(g, followed, states[s], s == 0, resolved) && a in resolved && Live(a) && a.sp < g.nterminal
    ensures a.kind == REDUCE || (a.kind == SHIFT && a in states[s].ap)
  {
    hide Built, CallsForReduce, Deterministic;
    assert Reductions.CalledFor(g, followed, states[s], s == 0, a);
    if a in states[s].ap { var c := ShiftComesFrom(g, lambda, first, cs, states, s, a); }
  }

  // The row before compression.
  lemma RowRuled(g: Grammar, lambda: Lambdas, first: Firsts, cs: Pool, states: seq<State>, linked: Pool,
                 followed: Pool, s: nat, p: Precedences, resolved: seq<Action>, t: nat, order: seq<nat>, num: seq<nat>)
    requires Analyzed(g, lambda, first, cs, states, linked, followed) && FirstExact(g, lambda, first) && s < |states|
    requires Finished(g, followed, states[s], s == 0, resolved) && DecidedFor(g, followed, states[s], p, resolved)
    requires Numbering(order, num) && |order| == |states| && num[s] < |order| && t < g.nterminal
    requires Called(g, KernelsByNumber(cs, states, order), num[s], t)
    ensures Ruling(g, p, KernelsByNumber(cs, states, order), num[s], t, TerminalAct(RowOf(g, resolved, num), t))
  {
    hide Analyzed, FirstExact, Called, Finished, DecidedFor, KernelsByNumber, Ruling, Explicit, Deterministic;
    CallServed(g, lambda, first, cs, states, linked, followed, s, resolved, t, order, num);
    ExplicitMeans(resolved, t);
    var a :| a in resolved && Live(a) && a.sp == t && ActOf(a) == Explicit(resolved, t).value;
    LiveRuled(g, lambda, first, cs, states, linked, followed, s, p, resolved, a, order, num);
  }

  // Compression leaves all of that alone.
  lemma StillRuled(g: Grammar, p: Precedences, kernels: seq<set<Item>>, plain: seq<StateRow>, rows: seq<StateRow>)
    requires Setting(g, kernels, plain, rows) && Ruled(g, p, kernels, plain)
    ensures Ruled(g, p, kernels, rows)
  {
    hide Setting, Ruling, Called;
    SettingSizes(g, kernels, plain, rows);
    forall k: nat, t: nat | k < |rows| && t < g.nterminal && Called(g, kernels, k, t)
      ensures Ruling(g, p, kernels, k, t, TerminalAct(rows[k], t))
    {
      ActSame(g, kernels, plain, rows, k, t);
    }
  }

  lemma SettingSizes(g: Grammar, kernels: seq<set<Item>>, plain: seq<StateRow>, rows: seq<StateRow>)
    requires Setting(g, kernels, plain, rows)
    ensures |rows| == |plain| == |kernels|
  {
    hide RealizesRow, InCollection, SameButDefault;
  }

  // ---- all conflicts ----

  ghost function ConflictsIn(g: Grammar, p: Precedences, kernels: seq<set<Item>>): seq<int> {
    seq(|kernels|, k requires 0 <= k < |kernels| => KernelConflicts(g, p, kernels[k]))
  }

  // The number of conflicts is that of the automaton, in whatever order its states are numbered.
  lemma ConflictsTotal(g: Grammar, lambda: Lambdas, first: Firsts, cs: Pool, states: seq<State>, linked: Pool,
                       followed: Pool, p: Precedences, order: seq<nat>, num: seq<nat>)
    requires Analyzed(g, lambda, first, cs, states, linked, followed) && FirstExact(g, lambda, first)
    requires Numbering(order, num) && |order| == |states|
    ensures Sum(ConflictsOf(g, followed, states, p)) == Sum(ConflictsIn(g, p, KernelsByNumber(cs, states, order)))
  {
    hide Analyzed, FirstExact, StateConflicts, KernelConflicts, Kernel, Sum, SumAt;
    var kernels := KernelsByNumber(cs, states, order);
    var s, r, n := ConflictsOf(g, followed, states, p), ConflictsIn(g, p, kernels), |order|;
    forall k | 0 <= k < n ensures order[k] < |s| && r[k] == s[order[k]] {
      ConflictsAgree(g, lambda, first, cs, states, linked, followed, order[k], p);
    }
    SumReordered(s, order, r, n);
    SumIsAt(s, n);
    var all: seq<nat> := seq(n, i requires 0 <= i < n => i);
    assert r[..n] == r && order[..n] == order && s[..n] == s;
    forall x ensures x in order <==> x in all {
      if x in all { assert order[num[x]] == x; }
      if x in order { assert all[x] == x; }
    }
    forall i, j | 0 <= i < j < n ensures order[i] != order[j] { assert num[order[i]] == i && num[order[j]] == j; }
    DistinctSame(order, all);
    SumAtPermuted(s, order, all);
  }

  ghost function ReducePairs(g: Grammar, kernel: set<Item>): set<(nat, nat)> {
    set t, r | 0 <= t < g.nterminal && 0 <= r < |g.rules| && Reduces(g, kernel, r, t) :: (t, r)
  }

  // Without precedences: as many as there are actions called for, less one for each look-ahead that has any.
  lemma ConflictsUndeclared(g: Grammar, p: Precedences, kernel: set<Item>)
    requires p.Undeclared()
    ensures var reducing := set d <- ReducePairs(g, kernel) :: d.0;
      KernelConflicts(g, p, kernel)
      == |ReducePairs(g, kernel)| + |Moves(g, kernel)| - |reducing + MoveCodes(g, kernel)|
  {
    hide Reduces, Moves, ShiftsOver, DisputedIn, MoveCodes, ReducePairs;
    var pairs, codes, disputed := ReducePairs(g, kernel), MoveCodes(g, kernel), DisputedIn(g, p, kernel);
    var reducing := set d <- pairs :: d.0;
    forall d { PairDisputed(g, p, kernel, d); }
    assert pairs == disputed + (pairs - disputed);
    forall d ensures d in pairs - disputed <==>
      d in pairs && d.0 !in codes && forall r <- RulesFor(g, kernel, d.0) :: d.1 <= r {}
    FirstPairs(g, kernel, pairs - disputed, reducing - codes, codes);
    assert reducing + codes == (reducing - codes) + codes;
  }

  lemma PairDisputed(g: Grammar, p: Precedences, kernel: set<Item>, d: (nat, nat))
    requires p.Undeclared()
    ensures d in DisputedIn(g, p, kernel) <==>
      (d in ReducePairs(g, kernel)
       && (d.0 in MoveCodes(g, kernel) || exists r <- RulesFor(g, kernel, d.0) :: r < d.1))
  {
    hide Reduces, MoveCodes, ShiftsCode, Disputed;
    CodeMoves(g, kernel, d.0);
    if d in ReducePairs(g, kernel) {
      assert d.1 in RulesFor(g, kernel, d.0);
      WithoutPrecedences(p, d.0, ShiftsCode(g, kernel, d.0), RulesFor(g, kernel, d.0));
    }
  }

  // Of the pairs on look-aheads that are not shifted on, those with the first rule.
  lemma FirstPairs(g: Grammar, kernel: set<Item>, firsts: set<(nat, nat)>, alone: set<nat>, codes: set<nat>)
    requires forall d :: d in firsts <==>
      (d in ReducePairs(g, kernel) && d.0 !in codes && forall r <- RulesFor(g, kernel, d.0) :: d.1 <= r)
    requires forall t :: t in alone <==> t !in codes && exists d <- ReducePairs(g, kernel) :: d.0 == t
    ensures |firsts| == |alone|
  {
    hide Reduces;
    var rel := (d: (nat, nat), t: nat) => d.0 == t;
    forall t | t in alone ensures exists d <- firsts :: rel(d, t) {
      var d :| d in ReducePairs(g, kernel) && d.0 == t;
      assert d.1 in RulesFor(g, kernel, t);
      var r := FirstOf(RulesFor(g, kernel, t));
      assert (t, r) in firsts && rel((t, r), t);
    }
    forall d, e, t | d in firsts && e in firsts && t in alone && rel(d, t) && rel(e, t) ensures d == e {
      assert d.1 in RulesFor(g, kernel, t) && e.1 in RulesFor(g, kernel, t);
    }
    Corresponding(firsts, alone, rel);
  }

  // ---- what is answered, case by case ----

  // A shift and one rule.
  lemma ShiftAgainstRule(g: Grammar, p: Precedences, kernels: seq<set<Item>>, rows: seq<StateRow>, k: nat, t: nat,
                         r: nat)
    requires Ruled(g, p, kernels, rows) && p.Declared() && k < |kernels| && t < g.nterminal
    requires ShiftsCode(g, kernels[k], t) && RulesFor(g, kernels[k], t) == {r} && Called(g, kernels, k, t)
    ensures TerminalAct(rows[k], t).Shift? <==>
      || p.Prec(t) < 0 || p.RulePrec(r) < 0 || p.Prec(t) > p.RulePrec(r)
      || (p.Prec(t) == p.RulePrec(r) && (p.AssocOf(t) == RIGHT || p.AssocOf(t) == NONE))
    ensures TerminalAct(rows[k], t) == Reduce(r) <==>
      p.Prec(t) >= 0 && p.RulePrec(r) >= 0
      && (p.Prec(t) < p.RulePrec(r) || (p.Prec(t) == p.RulePrec(r) && p.AssocOf(t) == LEFT))
  {
    hide Prevails, ShiftsCode, RulesFor, LastShifted, Called;
    ShiftOrRule(p, t, r);
    assert Ruling(g, p, kernels, k, t, TerminalAct(rows[k], t));
    var a := TerminalAct(rows[k], t);
    var winner := if a.Reduce? then Some(a.rule) else None;
    if winner.Some? { WinnerCalled(p, t, true, {r}, winner.value); }
  }

  lemma WinnerCalled(p: Precedences, t: nat, shifted: bool, rules: set<nat>, r: nat)
    requires Prevails(p, t, shifted, rules, Some(r))
    ensures r in rules
  {
  }

  // Rules only, without precedences: the first one.
  lemma FirstRuleAnswers(g: Grammar, p: Precedences, kernels: seq<set<Item>>, rows: seq<StateRow>, k: nat, t: nat)
    requires Ruled(g, p, kernels, rows) && p.Undeclared() && k < |kernels| && t < g.nterminal
    requires !ShiftsCode(g, kernels[k], t) && Called(g, kernels, k, t)
    ensures var a := TerminalAct(rows[k], t);
      a.Reduce? && a.rule in RulesFor(g, kernels[k], t) && forall r <- RulesFor(g, kernels[k], t) :: a.rule <= r
  {
    hide Prevails, ShiftsCode, RulesFor, LastShifted, Called;
    WithoutPrecedences(p, t, false, RulesFor(g, kernels[k], t));
    assert Ruling(g, p, kernels, k, t, TerminalAct(rows[k], t));
  }

  // Two rules.
  lemma RuleAgainstRule(g: Grammar, p: Precedences, kernels: seq<set<Item>>, rows: seq<StateRow>, k: nat, t: nat,
                        r: nat, r': nat)
    requires Ruled(g, p, kernels, rows) && k < |kernels| && t < g.nterminal && r < r'
    requires !ShiftsCode(g, kernels[k], t) && RulesFor(g, kernels[k], t) == {r, r'} && Called(g, kernels, k, t)
    ensures TerminalAct(rows[k], t)
      == Reduce(if p.RulePrec(r) >= 0 && p.RulePrec(r') > p.RulePrec(r) then r' else r)
  {
    hide Prevails, ShiftsCode, RulesFor, LastShifted, Called;
    RuleOrRule(p, t, r, r');
    assert Ruling(g, p, kernels, k, t, TerminalAct(rows[k], t));
    var a := TerminalAct(rows[k], t);
    NoShiftPrevails(p, t, {r, r'});
    if a.Reduce? { WinnerCalled(p, t, false, {r, r'}, a.rule); }
  }

  lemma NoShiftPrevails(p: Precedences, t: nat, rules: set<nat>)
    ensures !Prevails(p, t, false, rules, None)
  {
  }
}

/** What is promised of the rows leaves no choice: grammar and precedences determine them, up to the last number. */
module Determinacy {
  import opened Options
  import opened Grammars
  import opened Automata
  import opened Sorting
  import opened ActionLists
  import opened Compress
  import opened Emission
  import opened Lalr
  import opened Clashes
  import opened Verdicts
  import opened Rulings
  import opened Discovery
  import opened Defaults
  import opened Chosen
  import opened Spinning

  // The states as they were found and as they are numbered in the end, and their rows before and after CompressTables.
  ghost predicate Determined(g: Grammar, p: Precedences, compress: bool, found: seq<set<Item>>, order: seq<nat>,
                             kernels: seq<set<Item>>, plain: seq<StateRow>, rows: seq<StateRow>) {
    && DepthFirst(g, found) && Renumbered(found, order, kernels)
    && Realizes(g, kernels, plain) && Realizes(g, kernels, rows) && Ruled(g, p, kernels, rows)
    && NoDefaults(plain) && SameButDefaults(g, plain, rows)
    && (if compress then DefaultsChosen(g, plain, rows) else plain == rows)
    && Resorted(rows, order)
  }

  ghost predicate Renumbered(found: seq<set<Item>>, order: seq<nat>, kernels: seq<set<Item>>) {
    && |kernels| == |order| == |found|
    && forall k: nat | k < |order| :: order[k] < |found| && kernels[k] == found[order[k]]
  }

  // ---- rows with states in place of their numbers ----

  datatype Deed = ToState(kernel: set<Item>) | ByRule(rule: nat) | Accepting | Failing

  datatype NamedRow = NamedRow(onTerminal: map<nat, Deed>, onNonterminal: map<nat, Deed>, otherwise: Deed)

  ghost function Named(kernels: seq<set<Item>>, a: Act): Deed {
    match a
    case Shift(to) => if to < |kernels| then ToState(kernels[to]) else Failing
    case Reduce(r) => ByRule(r)
    case Accept => Accepting
    case Error => Failing
  }

  ghost function AllNamed(kernels: seq<set<Item>>, acts: map<nat, Act>): map<nat, Deed> {
    map t <- acts :: Named(kernels, acts[t])
  }

  ghost function Naming(kernels: seq<set<Item>>, row: StateRow): NamedRow {
    NamedRow(AllNamed(kernels, row.onTerminal), AllNamed(kernels, row.onNonterminal), Named(kernels, row.otherwise))
  }

  lemma SameLength(kernels: seq<set<Item>>, a: map<nat, Act>, kernels': seq<set<Item>>, b: map<nat, Act>)
    requires AllNamed(kernels, a) == AllNamed(kernels', b)
    ensures a.Keys == b.Keys && |a| == |b|
  {
    assert a.Keys == AllNamed(kernels, a).Keys && b.Keys == AllNamed(kernels', b).Keys;
    assert |a| == |a.Keys| && |b| == |b.Keys|;
  }

  // ---- one action ----

  lemma LastOnce(g: Grammar, kernel: set<Item>, t: nat, x: Symbol, y: Symbol)
    requires LastShifted(g, kernel, t, x) && LastShifted(g, kernel, t, y)
    ensures x == y
  {
    hide InClosure, ShiftsOver;
    if x != y {
      NotBothSooner(g, kernel, x, y);
    }
  }

  lemma NotBothSooner(g: Grammar, kernel: set<Item>, x: Symbol, y: Symbol)
    requires Sooner(g, kernel, y, x)
    ensures !Sooner(g, kernel, x, y)
  {
    hide InClosure;
    var it :| InClosure(g, kernel, it) && Next(g, it) == Some(y)
      && forall later | InClosure(g, kernel, later) && Next(g, later) == Some(x) ::
           it.rule < later.rule || (it.rule == later.rule && it.dot < later.dot);
  }

  // Only one action can prevail.
  lemma RulingOnce(g: Grammar, p: Precedences, kernels: seq<set<Item>>, i: nat, kernels': seq<set<Item>>, j: nat,
                   t: nat, a: Act, b: Act)
    requires i < |kernels| && j < |kernels'| && kernels[i] == kernels'[j]
    requires Ruling(g, p, kernels, i, t, a) && Ruling(g, p, kernels', j, t, b)
    ensures Named(kernels, a) == Named(kernels', b)
  {
    hide Prevails, LastShifted, ShiftsCode, RulesFor, Goto;
    var winner := if a.Reduce? then Some(a.rule) else None;
    var winner' := if b.Reduce? then Some(b.rule) else None;
    OnePrevails(p, t, ShiftsCode(g, kernels[i], t), RulesFor(g, kernels[i], t), winner, winner');
    if a.Shift? {
      var x :| LastShifted(g, kernels[i], t, x) && kernels[a.state] == Goto(g, kernels[i], x);
      var y :| LastShifted(g, kernels'[j], t, y) && kernels'[b.state] == Goto(g, kernels'[j], y);
      LastOnce(g, kernels[i], t, x, y);
    }
  }

  // On a nonterminal only one action is called for.
  lemma GotoOnce(g: Grammar, kernels: seq<set<Item>>, i: nat, kernels': seq<set<Item>>, j: nat, A: nat, a: Act, b: Act)
    requires g.WellFormed() && g.StartNotOnRhs() && A >= g.nterminal
    requires i < |kernels| && j < |kernels'| && kernels[i] == kernels'[j] && (i == 0 <==> j == 0)
    requires CallsFor(g, kernels, i, A, a) && CallsFor(g, kernels', j, A, b)
    ensures Named(kernels, a) == Named(kernels', b)
  {
    hide InClosure, Goto, LookAhead;
    forall x | ShiftsOver(g, kernels[i], x) && A in SymbolCodes(x) ensures x == N(A) && A != g.start {
      OnRhs(g, kernels[i], x);
    }
  }

  lemma OnRhs(g: Grammar, kernel: set<Item>, x: Symbol)
    requires g.WellFormed() && g.StartNotOnRhs() && ShiftsOver(g, kernel, x)
    ensures g.ValidSymbol(x) && x != N(g.start)
  {
    hide InClosure;
    var it :| InClosure(g, kernel, it) && Next(g, it) == Some(x);
    assert x in g.rules[it.rule].rhs;
  }

  // The same symbols have an action.
  lemma CalledAlike(g: Grammar, kernels: seq<set<Item>>, i: nat, kernels': seq<set<Item>>, j: nat, code: nat)
    requires i < |kernels| && j < |kernels'| && kernels[i] == kernels'[j] && (i == 0 <==> j == 0)
    requires forall kernel <- kernels :: kernel in kernels'
    requires Called(g, kernels, i, code)
    ensures Called(g, kernels', j, code)
  {
    hide Leads, Reduces;
    var a :| CallsFor(g, kernels, i, code, a);
    match a
    case Shift(to) =>
      assert kernels[to] in kernels;
      var to' :| 0 <= to' < |kernels'| && kernels'[to'] == kernels[to];
      assert CallsFor(g, kernels', j, code, Shift(to'));
    case Reduce(r) => assert CallsFor(g, kernels', j, code, a);
    case Accept => assert CallsFor(g, kernels', j, code, a);
  }

  // ---- one row ----

  // Two ways to arrive at rows, from the same states.
  ghost predicate Alike(g: Grammar, kernels: seq<set<Item>>, i: nat, kernels': seq<set<Item>>, j: nat) {
    && g.WellFormed() && g.StartNotOnRhs()
    && i < |kernels| && j < |kernels'| && kernels[i] == kernels'[j] && (i == 0 <==> j == 0)
    && forall kernel :: kernel in kernels <==> kernel in kernels'
  }

  ghost predicate PlainRow(g: Grammar, p: Precedences, kernels: seq<set<Item>>, k: nat, plain: StateRow)
    requires k < |kernels|
  {
    && RealizesRow(g, kernels, k, plain) && plain.otherwise == Error
    && forall t <- plain.onTerminal | t < g.nterminal :: Ruling(g, p, kernels, k, t, plain.onTerminal[t])
  }

  lemma PlainRuling(g: Grammar, p: Precedences, kernels: seq<set<Item>>, plain: seq<StateRow>, rows: seq<StateRow>,
                    k: nat)
    requires Realizes(g, kernels, plain) && Ruled(g, p, kernels, rows) && NoDefaults(plain)
    requires SameButDefaults(g, plain, rows) && k < |kernels|
    ensures k < |plain| && PlainRow(g, p, kernels, k, plain[k])
  {
    hide Called, CallsFor, Ruling, InCollection;
    assert RealizesRow(g, kernels, k, plain[k]) && plain[k] in plain && SameButDefault(g, plain[k], rows[k]);
    forall t | t in plain[k].onTerminal && t < g.nterminal ensures Ruling(g, p, kernels, k, t, plain[k].onTerminal[t]) {
      NotError(g, kernels, k, t, TerminalAct(plain[k], t));
    }
  }

  lemma NotError(g: Grammar, kernels: seq<set<Item>>, k: nat, code: nat, a: Act)
    requires k < |kernels| && CallsFor(g, kernels, k, code, a)
    ensures a != Error
  {
  }

  lemma TerminalsAlike(g: Grammar, p: Precedences, kernels: seq<set<Item>>, i: nat, plain: StateRow,
                       kernels': seq<set<Item>>, j: nat, plain': StateRow)
    requires Alike(g, kernels, i, kernels', j)
    requires PlainRow(g, p, kernels, i, plain) && PlainRow(g, p, kernels', j, plain')
    ensures AllNamed(kernels, plain.onTerminal) == AllNamed(kernels', plain'.onTerminal)
  {
    hide Called, CallsFor, Ruling, Named;
    forall t: nat | t < g.nterminal ensures t in plain.onTerminal <==> t in plain'.onTerminal {
      TerminalCalled(g, p, kernels, i, plain, t);
      TerminalCalled(g, p, kernels', j, plain', t);
      if Called(g, kernels, i, t) { CalledAlike(g, kernels, i, kernels', j, t); }
      if Called(g, kernels', j, t) { CalledAlike(g, kernels', j, kernels, i, t); }
    }
    assert plain.onTerminal.Keys == plain'.onTerminal.Keys;
    forall t | t in plain.onTerminal
      ensures Named(kernels, plain.onTerminal[t]) == Named(kernels', plain'.onTerminal[t])
    {
      RulingOnce(g, p, kernels, i, kernels', j, t, plain.onTerminal[t], plain'.onTerminal[t]);
    }
  }

  lemma TerminalCalled(g: Grammar, p: Precedences, kernels: seq<set<Item>>, k: nat, plain: StateRow, t: nat)
    requires k < |kernels| && PlainRow(g, p, kernels, k, plain) && t < g.nterminal
    ensures t in plain.onTerminal <==> Called(g, kernels, k, t)
  {
    hide Called, CallsFor, Ruling;
    if Called(g, kernels, k, t) { NotError(g, kernels, k, t, TerminalAct(plain, t)); }
  }

  lemma NonterminalsAlike(g: Grammar, kernels: seq<set<Item>>, i: nat, plain: StateRow, kernels': seq<set<Item>>,
                          j: nat, plain': StateRow)
    requires Alike(g, kernels, i, kernels', j)
    requires RealizesRow(g, kernels, i, plain) && RealizesRow(g, kernels', j, plain')
    ensures AllNamed(kernels, plain.onNonterminal) == AllNamed(kernels', plain'.onNonterminal)
  {
    hide Called, CallsFor, Named;
    forall A: nat | g.nterminal <= A < g.nsymbol ensures A in plain.onNonterminal <==> A in plain'.onNonterminal {
      if Called(g, kernels, i, A) { CalledAlike(g, kernels, i, kernels', j, A); }
      if Called(g, kernels', j, A) { CalledAlike(g, kernels', j, kernels, i, A); }
    }
    assert plain.onNonterminal.Keys == plain'.onNonterminal.Keys;
    forall A | A in plain.onNonterminal
      ensures Named(kernels, plain.onNonterminal[A]) == Named(kernels', plain'.onNonterminal[A])
    {
      GotoOnce(g, kernels, i, kernels', j, A, plain.onNonterminal[A], plain'.onNonterminal[A]);
    }
  }

  // Before CompressTables.
  lemma PlainAlike(g: Grammar, p: Precedences, kernels: seq<set<Item>>, i: nat, plain: StateRow,
                   kernels': seq<set<Item>>, j: nat, plain': StateRow)
    requires Alike(g, kernels, i, kernels', j)
    requires PlainRow(g, p, kernels, i, plain) && PlainRow(g, p, kernels', j, plain')
    ensures Naming(kernels, plain) == Naming(kernels', plain')
  {
    hide Alike, RealizesRow, Ruling, AllNamed;
    TerminalsAlike(g, p, kernels, i, plain, kernels', j, plain');
    NonterminalsAlike(g, kernels, i, plain, kernels', j, plain');
  }

  // ---- the default ----

  lemma ReducedAlike(kernels: seq<set<Item>>, plain: StateRow, kernels': seq<set<Item>>, plain': StateRow, r: nat)
    requires AllNamed(kernels, plain.onTerminal) == AllNamed(kernels', plain'.onTerminal)
    ensures ReducingTokens(plain, r) == ReducingTokens(plain', r)
  {
    forall t: nat ensures t in ReducingTokens(plain, r) <==> t in ReducingTokens(plain', r) {
      assert t in plain.onTerminal <==> t in AllNamed(kernels, plain.onTerminal);
      assert t in plain'.onTerminal <==> t in AllNamed(kernels', plain'.onTerminal);
      if t in plain.onTerminal {
        assert Named(kernels, plain.onTerminal[t]) == Named(kernels', plain'.onTerminal[t]);
      }
    }
  }

  // The first of the most frequent rules is the only choice.
  lemma ChosenOnce(g: Grammar, kernels: seq<set<Item>>, plain: StateRow, row: StateRow, kernels': seq<set<Item>>,
                   plain': StateRow, row': StateRow)
    requires Naming(kernels, plain) == Naming(kernels', plain') && plain.otherwise == plain'.otherwise == Error
    requires ChosenFrom(g, plain, row) && ChosenFrom(g, plain', row')
    requires row.otherwise.Reduce? || row.otherwise == Error
    requires row'.otherwise.Reduce? || row'.otherwise == Error
    ensures row.otherwise == row'.otherwise
  {
    hide IsStartRule, ReducingTokens, AllNamed, LeftBy;
    forall r: nat { ReducedAlike(kernels, plain, kernels', plain', r); }
    forall r: nat, r': nat ensures ReducesBefore(plain, r, r') == ReducesBefore(plain', r, r') {}
    if row.otherwise.Reduce? && row'.otherwise.Reduce? {
      FirstOnly(plain, row.otherwise.rule, row'.otherwise.rule);
    }
  }

  lemma FirstOnly(row: StateRow, r: nat, r': nat)
    ensures !(ReducesBefore(row, r, r') && ReducesBefore(row, r', r))
  {
    hide ReducingTokens;
    if ReducesBefore(row, r, r') {
      var t :| t in ReducingTokens(row, r) && forall u <- ReducingTokens(row, r') :: t < u;
      forall u | u in ReducingTokens(row, r') ensures !(forall v <- ReducingTokens(row, r) :: u < v) {
        assert !(u < t);
      }
    }
  }

  lemma LeftAlike(kernels: seq<set<Item>>, plain: StateRow, kernels': seq<set<Item>>, plain': StateRow, best: nat)
    requires AllNamed(kernels, plain.onTerminal) == AllNamed(kernels', plain'.onTerminal)
    ensures AllNamed(kernels, LeftBy(plain, best)) == AllNamed(kernels', LeftBy(plain', best))
  {
    var a, b := AllNamed(kernels, plain.onTerminal), AllNamed(kernels', plain'.onTerminal);
    forall t: nat
      ensures t in LeftBy(plain, best) <==> t in a && a[t] != ByRule(best)
      ensures t in LeftBy(plain', best) <==> t in b && b[t] != ByRule(best)
    {
    }
    var c, d := AllNamed(kernels, LeftBy(plain, best)), AllNamed(kernels', LeftBy(plain', best));
    assert c.Keys == d.Keys;
    forall t | t in c ensures c[t] == d[t] { assert c[t] == a[t] && d[t] == b[t]; }
  }

  // After CompressTables.
  lemma ChosenAlike(g: Grammar, kernels: seq<set<Item>>, plain: StateRow, row: StateRow, kernels': seq<set<Item>>,
                    plain': StateRow, row': StateRow)
    requires Naming(kernels, plain) == Naming(kernels', plain')
    requires SameButDefault(g, plain, row) && SameButDefault(g, plain', row')
    requires ChosenFrom(g, plain, row) && ChosenFrom(g, plain', row')
    requires row.otherwise.Reduce? || row.otherwise == Error
    requires row'.otherwise.Reduce? || row'.otherwise == Error
    ensures Naming(kernels, row) == Naming(kernels', row')
  {
    hide IsStartRule, AllNamed, LeftBy, ReducesBefore, TimesReduced;
    ChosenOnce(g, kernels, plain, row, kernels', plain', row');
    if row.otherwise.Reduce? { LeftAlike(kernels, plain, kernels', plain', row.otherwise.rule); }
  }

  // ---- all rows ----

  ghost predicate Generable(g: Grammar) {
    g.WellFormed() && g.StartNotOnRhs()
  }

  // The same state, wherever it stands.
  lemma StatesAlike(g: Grammar, found: seq<set<Item>>, order: seq<nat>, kernels: seq<set<Item>>, rows: seq<StateRow>,
                    order': seq<nat>, kernels': seq<set<Item>>, rows': seq<StateRow>, i: nat, j: nat)
    requires Generable(g) && Renumbered(found, order, kernels) && Renumbered(found, order', kernels')
    requires Realizes(g, kernels, rows) && Realizes(g, kernels', rows')
    requires i < |order| && j < |order'| && order[i] == order'[j]
    ensures Alike(g, kernels, i, kernels', j)
  {
    hide InCollection, RealizesRow;
  }

  lemma RowAlike(g: Grammar, p: Precedences, compress: bool, found: seq<set<Item>>, order: seq<nat>,
                 kernels: seq<set<Item>>, plain: seq<StateRow>, rows: seq<StateRow>, order': seq<nat>,
                 kernels': seq<set<Item>>, plain': seq<StateRow>, rows': seq<StateRow>, i: nat, j: nat)
    requires Generable(g) && Determined(g, p, compress, found, order, kernels, plain, rows)
      && Determined(g, p, compress, found, order', kernels', plain', rows')
    requires i < |order| && j < |order'| && order[i] == order'[j]
    ensures i < |rows| && j < |rows'| && Naming(kernels, rows[i]) == Naming(kernels', rows'[j])
  {
    hide DepthFirst, InCollection, RealizesRow, Ruled, NoDefaults, SameButDefault, ChosenFrom, Resorted, Naming, Alike,
        PlainRow;
    StatesAlike(g, found, order, kernels, rows, order', kernels', rows', i, j);
    PlainRuling(g, p, kernels, plain, rows, i);
    PlainRuling(g, p, kernels', plain', rows', j);
    PlainAlike(g, p, kernels, i, plain[i], kernels', j, plain'[j]);
    if compress {
      DefaultAllowed(g, kernels, rows, i);
      DefaultAllowed(g, kernels', rows', j);
      ChosenAlike(g, kernels, plain[i], rows[i], kernels', plain'[j], rows'[j]);
    }
  }

  lemma DefaultAllowed(g: Grammar, kernels: seq<set<Item>>, rows: seq<StateRow>, k: nat)
    requires Realizes(g, kernels, rows) && k < |rows|
    ensures rows[k].otherwise.Reduce? || rows[k].otherwise == Error
  {
    hide Called, CallsFor, InCollection, Reduces;
    assert RealizesRow(g, kernels, k, rows[k]);
  }

  lemma SizesAlike(kernels: seq<set<Item>>, a: StateRow, kernels': seq<set<Item>>, b: StateRow)
    requires Naming(kernels, a) == Naming(kernels', b)
    ensures |a.onTerminal| == |b.onTerminal| && |a.onNonterminal| == |b.onNonterminal|
  {
    SameLength(kernels, a.onTerminal, kernels', b.onTerminal);
    SameLength(kernels, a.onNonterminal, kernels', b.onNonterminal);
  }

  lemma NumbersDiffer(g: Grammar, found: seq<set<Item>>, order: seq<nat>, kernels: seq<set<Item>>, rows: seq<StateRow>)
    requires Renumbered(found, order, kernels) && Realizes(g, kernels, rows)
    ensures AllDifferent(order)
  {
    hide InCollection, RealizesRow;
  }

  ghost function PlaceOf(order: seq<nat>, s: nat): (k: nat)
    requires s in order
    ensures k < |order| && order[k] == s
  {
    var k: nat :| k < |order| && order[k] == s;
    k
  }

  ghost function ByRows(rows: seq<StateRow>, order: seq<nat>): (nat, nat) -> bool
    requires |rows| == |order|
  {
    (s: nat, s': nat) =>
      s in order && s' in order && ComesBefore(rows[PlaceOf(order, s)], s, rows[PlaceOf(order, s')], s')
  }

  // Both lists are in the order of the same rows.
  lemma OrderOnce(g: Grammar, p: Precedences, compress: bool, found: seq<set<Item>>, order: seq<nat>,
                  kernels: seq<set<Item>>, plain: seq<StateRow>, rows: seq<StateRow>, order': seq<nat>,
                  kernels': seq<set<Item>>, plain': seq<StateRow>, rows': seq<StateRow>)
    requires Generable(g) && Determined(g, p, compress, found, order, kernels, plain, rows)
      && Determined(g, p, compress, found, order', kernels', plain', rows')
    ensures order == order'
  {
    hide DepthFirst, Realizes, Ruled, NoDefaults, SameButDefaults, DefaultsChosen, Naming, ComesBefore;
    NumbersDiffer(g, found, order, kernels, rows);
    NumbersDiffer(g, found, order', kernels', rows');
    var le := ByRows(rows, order);
    forall j, k | 1 <= j < k < |order| ensures le(order[j], order[k]) {
      assert PlaceOf(order, order[j]) == j && PlaceOf(order, order[k]) == k;
    }
    forall j, k | 1 <= j < k < |order'| ensures le(order'[j], order'[k]) {
      var i, i' := PlaceOf(order, order'[j]), PlaceOf(order, order'[k]);
      RowAlike(g, p, compress, found, order, kernels, plain, rows, order', kernels', plain', rows', i, j);
      RowAlike(g, p, compress, found, order, kernels, plain, rows, order', kernels', plain', rows', i', k);
      SizesAlike(kernels, rows[i], kernels', rows'[j]);
      SizesAlike(kernels, rows[i'], kernels', rows'[k]);
      BeforeAlike(rows'[j], rows[i], order'[j], rows'[k], rows[i'], order'[k]);
    }
    NeverBoth(rows, order);
    SameTails(order, order', le);
  }

  lemma NeverBoth(rows: seq<StateRow>, order: seq<nat>)
    requires |rows| == |order|
    ensures forall s, s' | ByRows(rows, order)(s, s') :: !ByRows(rows, order)(s', s)
  {
  }

  lemma BeforeAlike(a: StateRow, a': StateRow, s: nat, b: StateRow, b': StateRow, s': nat)
    requires ComesBefore(a, s, b, s') && |a.onTerminal| == |a'.onTerminal| && |a.onNonterminal| == |a'.onNonterminal|
    requires |b.onTerminal| == |b'.onTerminal| && |b.onNonterminal| == |b'.onNonterminal|
    ensures ComesBefore(a', s, b', s')
  {
  }

  lemma SameTails(a: seq<nat>, b: seq<nat>, le: (nat, nat) -> bool)
    requires a != [] && b != [] && a[0] == b[0] && AllDifferent(a) && AllDifferent(b) && forall x :: x in a <==> x in b
    requires forall j, k | 1 <= j < k < |a| :: le(a[j], a[k])
    requires forall j, k | 1 <= j < k < |b| :: le(b[j], b[k])
    requires forall x, y | le(x, y) :: !le(y, x)
    ensures a == b
  {
    var ta, tb := a[1..], b[1..];
    assert a == [a[0]] + ta && b == [b[0]] + tb;
    forall x ensures x in ta <==> x in tb {
      assert x in a <==> x == a[0] || x in ta;
      assert x in b <==> x == b[0] || x in tb;
      assert a[0] !in ta && b[0] !in tb;
    }
    DistinctSame(ta, tb);
    OrderedUnique(ta, tb, le);
  }

  // Shifts name states that there are.
  ghost predicate ToStates(kernels: seq<set<Item>>, row: StateRow) {
    && (forall t <- row.onTerminal :: row.onTerminal[t].Shift? ==> row.onTerminal[t].state < |kernels|)
    && (forall A <- row.onNonterminal :: row.onNonterminal[A].Shift? ==> row.onNonterminal[A].state < |kernels|)
    && !row.otherwise.Shift?
  }

  lemma RealizedToStates(g: Grammar, kernels: seq<set<Item>>, rows: seq<StateRow>, k: nat)
    requires Realizes(g, kernels, rows) && k < |rows|
    ensures ToStates(kernels, rows[k])
  {
    hide Called, InCollection, Reduces, Leads;
    assert RealizesRow(g, kernels, k, rows[k]);
  }

  lemma NamedOnce(kernels: seq<set<Item>>, a: Act, b: Act)
    requires AllDifferent(kernels) && Named(kernels, a) == Named(kernels, b)
    requires a.Shift? ==> a.state < |kernels|
    requires b.Shift? ==> b.state < |kernels|
    ensures a == b
  {
  }

  lemma NamingOnce(kernels: seq<set<Item>>, a: StateRow, b: StateRow)
    requires AllDifferent(kernels) && Naming(kernels, a) == Naming(kernels, b)
    requires ToStates(kernels, a) && ToStates(kernels, b)
    ensures a == b
  {
    hide AllDifferent, Named;
    SameLength(kernels, a.onTerminal, kernels, b.onTerminal);
    SameLength(kernels, a.onNonterminal, kernels, b.onNonterminal);
    forall t | t in a.onTerminal ensures t in b.onTerminal && a.onTerminal[t] == b.onTerminal[t] {
      assert AllNamed(kernels, a.onTerminal)[t] == AllNamed(kernels, b.onTerminal)[t];
      NamedOnce(kernels, a.onTerminal[t], b.onTerminal[t]);
    }
    forall A | A in a.onNonterminal ensures A in b.onNonterminal && a.onNonterminal[A] == b.onNonterminal[A] {
      assert AllNamed(kernels, a.onNonterminal)[A] == AllNamed(kernels, b.onNonterminal)[A];
      NamedOnce(kernels, a.onNonterminal[A], b.onNonterminal[A]);
    }
    NamedOnce(kernels, a.otherwise, b.otherwise);
  }

  // Whoever arrives at such rows arrives at the same ones, with the same numbers, and reports as many conflicts.
  lemma RowsDetermined(g: Grammar, p: Precedences, compress: bool, found: seq<set<Item>>, order: seq<nat>,
                       kernels: seq<set<Item>>, plain: seq<StateRow>, rows: seq<StateRow>, found': seq<set<Item>>,
                       order': seq<nat>, kernels': seq<set<Item>>, plain': seq<StateRow>, rows': seq<StateRow>)
    requires Generable(g) && Determined(g, p, compress, found, order, kernels, plain, rows)
      && Determined(g, p, compress, found', order', kernels', plain', rows')
    ensures found == found' && order == order' && kernels == kernels' && plain == plain' && rows == rows'
  {
    hide DepthFirst, Realizes, Ruled, NoDefaults, SameButDefaults, DefaultsChosen, Naming, Resorted, PlainRow, Alike,
        ToStates, AllDifferent;
    FoundOneWay(g, found, found');
    OrderOnce(g, p, compress, found, order, kernels, plain, rows, order', kernels', plain', rows');
    assert kernels == kernels';
    OnceEach(g, kernels, plain, rows);
    OnceEach(g, kernels, plain', rows');
    forall k: nat | k < |kernels| ensures plain[k] == plain'[k] && rows[k] == rows'[k] {
      RowAlike(g, p, compress, found, order, kernels, plain, rows, order', kernels', plain', rows', k, k);
      StatesAlike(g, found, order, kernels, rows, order', kernels', rows', k, k);
      PlainRuling(g, p, kernels, plain, rows, k);
      PlainRuling(g, p, kernels', plain', rows', k);
      PlainAlike(g, p, kernels, k, plain[k], kernels', k, plain'[k]);
      RealizedToStates(g, kernels, rows, k);
      RealizedToStates(g, kernels, rows', k);
      RealizedToStates(g, kernels, plain, k);
      RealizedToStates(g, kernels, plain', k);
      NamingOnce(kernels, rows[k], rows'[k]);
      NamingOnce(kernels, plain[k], plain'[k]);
    }
  }

  lemma OnceEach(g: Grammar, kernels: seq<set<Item>>, plain: seq<StateRow>, rows: seq<StateRow>)
    requires Realizes(g, kernels, plain) && Realizes(g, kernels, rows)
    ensures AllDifferent(kernels) && |kernels| == |plain| == |rows|
  {
    hide InCollection, RealizesRow;
  }
}

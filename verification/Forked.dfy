/** A grammar that is LALR(1), and what its automaton and its rows are. */
module Forked {
  import opened Options
  import opened Grammars
  import opened FirstSets
  import opened Automata
  import opened Sorting
  import opened States
  import opened Canonical
  import opened Lalr

  // s ::= T A1 | ... | T A7, where the terminals A1, ..., A7 have the numbers 1, ..., 7, and T is 8.  Number 9 is the
  // nonterminal `error`, which every grammar has; s is 10.
  function ForkedGrammar(): (g: Grammar)
    ensures g.WellFormed() && g.StartNotOnRhs()
  {
    Grammar(9, 11, seq(7, i requires 0 <= i < 7 => Rule(10, [T(8), T(i + 1)])), 10)
  }

  // The three kinds of states: nothing read, T read, one alternative read.
  ghost function Fresh(): set<Item> {
    StartItems(ForkedGrammar())
  }

  ghost function Begun(): set<Item> {
    set i: nat | i < 7 :: Item(i, 1)
  }

  ghost function Ended(i: nat): set<Item> {
    {Item(i, 2)}
  }

  ghost predicate IsKernel(kernel: set<Item>) {
    kernel == Fresh() || kernel == Begun() || exists i: nat :: i < 7 && kernel == Ended(i)
  }

  lemma AllFresh(it: Item)
    ensures it in Fresh() <==> it.rule < 7 && it.dot == 0
    ensures it in AllItems(ForkedGrammar()) <==> it.rule < 7 && it.dot <= 2
  {
    assert it.rule < 7 ==> |ForkedGrammar().rules[it.rule].rhs| == 2;
  }

  lemma NextIs(it: Item)
    ensures Next(ForkedGrammar(), it)
         == if it.rule < 7 && it.dot == 0 then Some(T(8))
             else if it.rule < 7 && it.dot == 1 then Some(T(it.rule + 1)) else None
  {
  }

  // No nonterminal is on a right-hand side: all sets are closed.
  lemma OwnClosure(kernel: set<Item>)
    ensures ClosedSet(ForkedGrammar(), kernel) && IsClosure(ForkedGrammar(), kernel, kernel)
    ensures forall it :: InClosure(ForkedGrammar(), kernel, it) <==> it in kernel
    ensures forall x :: Goto(ForkedGrammar(), kernel, x) == AdvanceAll(ForkedGrammar(), kernel, x)
  {
    hide InClosure, Goto, Next;
    var g := ForkedGrammar();
    forall it, r: nat | r < |g.rules| ensures Next(g, it) != Some(N(g.rules[r].lhs)) { NextIs(it); }
    ClosureIs(g, kernel, kernel);
  }

  lemma FreshMoves(x: Symbol)
    ensures AdvanceAll(ForkedGrammar(), Fresh(), x) == if x == T(8) then Begun() else {}
  {
    hide Next, Fresh;
    var g := ForkedGrammar();
    forall it: Item { NextIs(it); }
    forall it: Item { AllFresh(it); }
    forall it ensures it in AdvanceAll(g, Fresh(), x) <==> x == T(8) && it in Begun() {
      if it in Begun() && x == T(8) { assert Item(it.rule, 0) in Fresh() && it == Advance(Item(it.rule, 0)); }
    }
  }

  lemma BegunMoves(x: Symbol)
    ensures AdvanceAll(ForkedGrammar(), Begun(), x) == if x.T? && 1 <= x.index <= 7 then Ended(x.index - 1) else {}
  {
    hide Next;
    var g := ForkedGrammar();
    forall it: Item { NextIs(it); }
    forall it ensures it in AdvanceAll(g, Begun(), x) <==> x.T? && 1 <= x.index <= 7 && it in Ended(x.index - 1) {
      if x.T? && 1 <= x.index <= 7 && it in Ended(x.index - 1) {
        assert Item(it.rule, 1) in Begun() && it == Advance(Item(it.rule, 1));
      }
    }
  }

  lemma EndedMoves(i: nat, x: Symbol)
    ensures AdvanceAll(ForkedGrammar(), Ended(i), x) == {}
  {
    hide Next;
    forall it: Item { NextIs(it); }
  }

  lemma KernelMoves(kernel: set<Item>, x: Symbol)
    requires IsKernel(kernel)
    ensures AdvanceAll(ForkedGrammar(), kernel, x) == {} || IsKernel(AdvanceAll(ForkedGrammar(), kernel, x))
  {
    hide Fresh, Begun, Ended, AdvanceAll;
    FreshMoves(x);
    BegunMoves(x);
    forall i: nat { EndedMoves(i, x); }
  }

  lemma Kernels(kernel: set<Item>)
    ensures InCollection(ForkedGrammar(), kernel) <==> IsKernel(kernel)
  {
    hide IsKernel;
    var family := (k: set<Item>) => IsKernel(k);
    KernelFamily(family);
    forall other: set<Item> -> bool | ClosedFamily(ForkedGrammar(), other) && IsKernel(kernel) ensures other(kernel) {
      InFamily(other, kernel);
    }
  }

  lemma KernelFamily(family: set<Item> -> bool)
    requires forall k :: family(k) <==> IsKernel(k)
    ensures ClosedFamily(ForkedGrammar(), family)
  {
    hide AdvanceAll, IsClosure, IsKernel;
    var g := ForkedGrammar();
    assert IsKernel(StartItems(g)) by { FreshKernel(); }
    forall k: set<Item>, items: set<Item>, x: Symbol | family(k) && IsClosure(g, k, items)
        && AdvanceAll(g, items, x) != {}
      ensures family(AdvanceAll(g, items, x))
    {
      SameClosure(k, items);
      KernelMoves(k, x);
    }
  }

  lemma FreshKernel()
    ensures IsKernel(StartItems(ForkedGrammar())) && IsKernel(Fresh()) && IsKernel(Begun())
    ensures forall i: nat | i < 7 :: IsKernel(Ended(i))
  {
    hide Begun, Ended, StartItems;
  }

  lemma SameClosure(kernel: set<Item>, items: set<Item>)
    requires IsClosure(ForkedGrammar(), kernel, items)
    ensures items == kernel
  {
    OwnClosure(kernel);
  }

  lemma InFamily(family: set<Item> -> bool, kernel: set<Item>)
    requires ClosedFamily(ForkedGrammar(), family) && IsKernel(kernel)
    ensures family(kernel)
  {
    hide ClosedFamily, StartItems, Begun, Ended;
    FamilyStarts(family);
    FreshMoves(T(8));
    Members(0);
    FamilyMoves(family, Fresh(), T(8));
    if i: nat :| i < 7 && kernel == Ended(i) {
      BegunMoves(T(i + 1));
      Members(i);
      FamilyMoves(family, Begun(), T(i + 1));
    }
  }

  lemma FamilyStarts(family: set<Item> -> bool)
    requires ClosedFamily(ForkedGrammar(), family)
    ensures family(Fresh())
  {
  }

  lemma Members(i: nat)
    requires i < 7
    ensures Item(i, 0) in Fresh() && Item(i, 1) in Begun() && Item(i, 2) in Ended(i)
  {
    AllFresh(Item(i, 0));
  }

  lemma FamilyMoves(family: set<Item> -> bool, kernel: set<Item>, x: Symbol)
    requires ClosedFamily(ForkedGrammar(), family) && family(kernel) && AdvanceAll(ForkedGrammar(), kernel, x) != {}
    ensures family(AdvanceAll(ForkedGrammar(), kernel, x))
  {
    hide AdvanceAll, IsClosure;
    OwnClosure(kernel);
  }

  // ---- look-aheads: `$` only ----

  lemma {:induction false} OnlyEnd(kernel: set<Item>, it: Item, t: nat, n: nat)
    requires LookIn(ForkedGrammar(), kernel, it, t, n)
    ensures t == 0
    decreases n
  {
    hide InCollection, InClosure, Nullable, Predicts, Enters, Spontaneous;
    var g := ForkedGrammar();
    forall from ensures !Predicts(g, from, it) { NothingPredicted(from, it); }
    if n == 0 {
      EndOnly(kernel, it, t);
    } else {
      var before, from :| LookIn(g, before, from, t, n - 1) && Enters(g, before, from, kernel, it);
      OnlyEnd(before, from, t, n - 1);
    }
  }

  lemma NothingPredicted(from: Item, it: Item)
    ensures !Predicts(ForkedGrammar(), from, it)
  {
    NextIs(from);
  }

  lemma EndOnly(kernel: set<Item>, it: Item, t: nat)
    requires Spontaneous(ForkedGrammar(), kernel, it, t)
    ensures t == 0
  {
    hide InClosure, CanBegin, Predicts, StartItems;
    forall from ensures !Predicts(ForkedGrammar(), from, it) { NothingPredicted(from, it); }
  }

  lemma EndFollows(i: nat)
    requires i < 7
    ensures LookAhead(ForkedGrammar(), Ended(i), Item(i, 2), 0)
  {
    hide InCollection, InClosure, AdvanceAll, Goto, Next;
    var g := ForkedGrammar();
    var a, b, c := Item(i, 0), Item(i, 1), Item(i, 2);
    Kernels(Fresh());
    Kernels(Begun());
    Kernels(Ended(i));
    OwnClosure(Fresh());
    OwnClosure(Begun());
    OwnClosure(Ended(i));
    FreshMoves(T(8));
    BegunMoves(T(i + 1));
    NextIs(a);
    NextIs(b);
    AllFresh(a);
    assert LookIn(g, Fresh(), a, 0, 0);
    assert Enters(g, Fresh(), a, Begun(), b) && LookIn(g, Begun(), b, 0, 1);
    assert Enters(g, Begun(), b, Ended(i), c) && LookIn(g, Ended(i), c, 0, 2);
  }

  // ---- what the states call for ----

  lemma WhereReduced(kernel: set<Item>, r: nat, t: nat)
    requires IsKernel(kernel)
    ensures Reduces(ForkedGrammar(), kernel, r, t) <==> r < 7 && t == 0 && kernel == Ended(r)
  {
    hide InCollection, InClosure, Goto, Next, Predicts, Spontaneous, Fresh;
    var g := ForkedGrammar();
    assert r < 7 ==> |g.rules[r].rhs| == 2;
    OwnClosure(kernel);
    AllFresh(Item(r, 2));
    if Reduces(g, kernel, r, t) {
      var n: nat :| LookIn(g, kernel, Item(r, 2), t, n);
      OnlyEnd(kernel, Item(r, 2), t, n);
      assert InClosure(g, kernel, Item(r, 2));
    }
    if r < 7 && kernel == Ended(r) { EndFollows(r); }
  }

  lemma WhereShifted(kernel: set<Item>, x: Symbol)
    requires IsKernel(kernel)
    ensures ShiftsOver(ForkedGrammar(), kernel, x)
       <==> (kernel == Fresh() && x == T(8)) || (kernel == Begun() && x.T? && 1 <= x.index <= 7)
  {
    hide InClosure, Goto, Next, Fresh;
    var g := ForkedGrammar();
    OwnClosure(kernel);
    forall it { NextIs(it); }
    forall it { AllFresh(it); }
    Members(0);
    if kernel == Fresh() && x == T(8) { assert Next(g, Item(0, 0)) == Some(x); }
    if kernel == Begun() && x.T? && 1 <= x.index <= 7 { assert Item(x.index - 1, 1) in kernel; }
  }

  lemma KernelsDiffer(i: nat, j: nat)
    ensures Fresh() != Begun() && Fresh() != Ended(i) && Begun() != Ended(i) && (i != j ==> Ended(i) != Ended(j))
  {
    hide Fresh;
    AllFresh(Item(0, 0));
    assert Item(0, 1) in Begun() && Item(1, 1) in Begun();
    assert Item(i, 2) in Ended(i);
  }

  // No two actions meet anywhere.
  lemma ForkedIsLalr1()
    ensures Lalr1(ForkedGrammar())
  {
    hide InCollection, Reduces, ShiftsOver, Fresh, Begun, Ended;
    var g := ForkedGrammar();
    forall kernel | InCollection(g, kernel) ensures NoClash(g, kernel) {
      Kernels(kernel);
      forall r: nat, t: nat { WhereReduced(kernel, r, t); }
      forall x { WhereShifted(kernel, x); }
      forall i: nat, j: nat { KernelsDiffer(i, j); }
    }
  }

  // ---- rows that realize it ----

  predicate EndRow(row: StateRow) {
    && row.onTerminal.Keys == {0} && row.onTerminal[0].Reduce? && row.onTerminal[0].rule < 7
    && row.onNonterminal == map[] && row.otherwise == Error
  }

  predicate BegunRow(row: StateRow) {
    && row.onTerminal.Keys == {1, 2, 3, 4, 5, 6, 7} && (forall t <- row.onTerminal :: row.onTerminal[t].Shift?)
    && row.onNonterminal == map[]
  }

  // Nine rows: the first one, that of state b, which has read T, and seven that reduce by a rule each.
  predicate ForkedRows(rows: seq<StateRow>, b: nat) {
    && |rows| == 9 && 1 <= b < 9 && rows[0] == StateRow(map[8 := Shift(b)], map[10 := Accept], Error)
        && BegunRow(rows[b])
    && (forall k | 1 <= k < 9 && k != b :: EndRow(rows[k]))
    && (forall k, m | 1 <= k < m < 9 && k != b && m != b :: rows[k].onTerminal[0] != rows[m].onTerminal[0])
  }

  lemma LeadsWhere(kernel: set<Item>, code: nat, to: set<Item>)
    requires IsKernel(kernel)
    ensures Leads(ForkedGrammar(), kernel, code, to)
      <==> (kernel == Fresh() && code == 8 && to == Begun())
           || (kernel == Begun() && 1 <= code <= 7 && to == Ended(code - 1))
  {
    hide ShiftsOver, Goto, AdvanceAll, Fresh, Begun, Ended;
    var g := ForkedGrammar();
    KernelsDiffer(0, 0);
    OwnClosure(kernel);
    forall x { WhereShifted(kernel, x); }
    forall x { FreshMoves(x); }
    forall x { BegunMoves(x); }
    if kernel == Fresh() && code == 8 && to == Begun() { assert ShiftsOver(g, kernel, T(8)); }
    if kernel == Begun() && 1 <= code <= 7 && to == Ended(code - 1) { assert ShiftsOver(g, kernel, T(code)); }
  }

  lemma ActsWhere(kernels: seq<set<Item>>, k: nat, code: nat, a: Act)
    requires k < |kernels| && IsKernel(kernels[k])
    ensures CallsFor(ForkedGrammar(), kernels, k, code, a) <==>
      match a
      case Shift(to) => to < |kernels| && ((kernels[k] == Fresh() && code == 8 && kernels[to] == Begun())
                                        || (kernels[k] == Begun() && 1 <= code <= 7 && kernels[to] == Ended(code - 1)))
      case Reduce(r) => r < 7 && code == 0 && kernels[k] == Ended(r)
      case Accept => k == 0 && code == 10
      case Error => false
  {
    hide Leads, Reduces, Fresh, Begun, Ended;
    match a
    case Shift(to) => if to < |kernels| { LeadsWhere(kernels[k], code, kernels[to]); }
    case Reduce(r) => WhereReduced(kernels[k], r, code);
    case _ =>
  }

  lemma NeverOtherwise(kernels: seq<set<Item>>, k: nat, row: StateRow)
    requires k < |kernels| && RealizesRow(ForkedGrammar(), kernels, k, row)
    ensures row.otherwise == Error
  {
    hide CallsFor, Called, Reduces;
    var g := ForkedGrammar();
    assert forall r | 0 <= r < |g.rules| :: g.rules[r].lhs == g.start;
  }

  // The kernels of the rows: these nine.
  lemma KernelCount(kernels: seq<set<Item>>)
    requires AllDifferent(kernels) && forall kernel :: kernel in kernels <==> InCollection(ForkedGrammar(), kernel)
    ensures |kernels| == 9 && forall kernel :: kernel in kernels <==> IsKernel(kernel)
  {
    hide InCollection, Fresh, Begun, Ended;
    forall kernel { Kernels(kernel); }
    var all := [Fresh(), Begun()] + seq(7, i requires 0 <= i < 7 => Ended(i));
    forall i, j | 0 <= i < j < 9
      ensures all[i] != all[j]
    {
      KernelsDiffer(if j < 2 then 0 else j - 2, if i < 2 then 0 else i - 2);
    }
    forall kernel ensures kernel in all <==> IsKernel(kernel) {
      assert all[0] == Fresh() && all[1] == Begun();
      if i: nat :| i < 7 && kernel == Ended(i) { assert all[2 + i] == kernel; }
    }
    DistinctSame(kernels, all);
  }

  lemma FreshRowIs(kernels: seq<set<Item>>, row: StateRow, b: nat)
    requires |kernels| > 0 && kernels[0] == Fresh() && AllDifferent(kernels) && b < |kernels| && kernels[b] == Begun()
    requires RealizesRow(ForkedGrammar(), kernels, 0, row)
    ensures row == StateRow(map[8 := Shift(b)], map[10 := Accept], Error)
  {
    hide CallsFor, Fresh, Begun, Ended;
    var g := ForkedGrammar();
    NeverOtherwise(kernels, 0, row);
    KernelsDiffer(0, 0);
    forall i: nat { KernelsDiffer(i, i); }
    forall code: nat, a { ActsWhere(kernels, 0, code, a); }
    assert CallsFor(g, kernels, 0, 8, Shift(b));
    assert CallsFor(g, kernels, 0, 10, Accept);
    assert row.onTerminal == map[8 := Shift(b)];
    assert row.onNonterminal == map[10 := Accept];
  }

  lemma BegunRowIs(kernels: seq<set<Item>>, row: StateRow, b: nat)
    requires 0 < b < |kernels| && kernels[b] == Begun() && forall i: nat | i < 7 :: Ended(i) in kernels
    requires RealizesRow(ForkedGrammar(), kernels, b, row)
    ensures BegunRow(row)
  {
    hide CallsFor, Fresh, Begun, Ended;
    var g := ForkedGrammar();
    NeverOtherwise(kernels, b, row);
    KernelsDiffer(0, 0);
    forall i: nat { KernelsDiffer(i, i); }
    forall code: nat, a { ActsWhere(kernels, b, code, a); }
    forall t: nat | 1 <= t <= 7 ensures Called(g, kernels, b, t) {
      var to: nat :| to < |kernels| && kernels[to] == Ended(t - 1);
      assert CallsFor(g, kernels, b, t, Shift(to));
    }
  }

  lemma EndRowIs(kernels: seq<set<Item>>, row: StateRow, k: nat, i: nat)
    requires 0 < k < |kernels| && i < 7 && kernels[k] == Ended(i) && RealizesRow(ForkedGrammar(), kernels, k, row)
    ensures EndRow(row) && row.onTerminal[0] == Reduce(i)
  {
    hide CallsFor, Fresh, Begun, Ended;
    var g := ForkedGrammar();
    NeverOtherwise(kernels, k, row);
    forall j: nat { KernelsDiffer(i, j); }
    forall code: nat, a { ActsWhere(kernels, k, code, a); }
    assert CallsFor(g, kernels, k, 0, Reduce(i));
    assert forall A: nat | 9 <= A < 11 :: A !in row.onNonterminal;
    assert row.onTerminal.Keys == {0};
    assert row.onNonterminal == map[];
  }

  // Whatever rows realize the automaton, they are of this form.
  lemma RealizedForked(kernels: seq<set<Item>>, rows: seq<StateRow>) returns (b: nat)
    requires Realizes(ForkedGrammar(), kernels, rows)
    ensures ForkedRows(rows, b)
  {
    hide RealizesRow, InCollection, Begun, Ended, BegunRow;
    KernelCount(kernels);
    FreshKernel();
    KernelsDiffer(0, 0);
    b :| b < |kernels| && kernels[b] == Begun();
    FreshRowIs(kernels, rows[0], b);
    BegunRowIs(kernels, rows[b], b);
    forall k | 1 <= k < 9 && k != b ensures EndRow(rows[k]) { var i := EndedAt(kernels, rows, k, b); }
    forall k, m | 1 <= k < m < 9 && k != b && m != b ensures rows[k].onTerminal[0] != rows[m].onTerminal[0] {
      var i := EndedAt(kernels, rows, k, b);
      var j := EndedAt(kernels, rows, m, b);
    }
  }

  lemma EndedAt(kernels: seq<set<Item>>, rows: seq<StateRow>, k: nat, b: nat) returns (i: nat)
    requires Realizes(ForkedGrammar(), kernels, rows) && b < |kernels| && kernels[b] == Begun() && 1 <= k < |kernels|
      && k != b
    ensures i < 7 && kernels[k] == Ended(i) && EndRow(rows[k]) && rows[k].onTerminal[0] == Reduce(i)
  {
    hide RealizesRow, InCollection, Begun, Ended, EndRow;
    KernelCount(kernels);
    assert kernels[k] in kernels && kernels[0] == Fresh();
    i :| i < 7 && kernels[k] == Ended(i);
    EndRowIs(kernels, rows[k], k, i);
  }
}

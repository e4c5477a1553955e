/** The tables of this grammar: the first state reads an action of another one. */
module Misreading {
  import opened Automata
  import opened Sorting
  import opened Acttabs
  import opened Runs
  import opened PackedRows
  import opened Lalr
  import opened Forked
  import Lempar

  // ---- the order in which the rows are packed ----

  // The states that reduce, from the last one on.
  function Leaf(b: nat, j: nat): nat
    requires j < 7
  {
    if 8 - j > b then 8 - j else 7 - j
  }

  function PackingOrder(b: nat): (order: seq<nat>)
    ensures |order| == 18
  {
    [2 * b] + seq(7, j requires 0 <= j < 7 => 2 * Leaf(b, j)) + [1, 0] + seq(8, j requires 0 <= j < 8 => 17 - 2 * j)
  }

  lemma OrderAt(b: nat, p: nat)
    requires p < 18
    ensures PackingOrder(b)[p]
         == if p == 0 then 2 * b else if p < 8 then 2 * Leaf(b, p - 1)
             else if p == 8 then 1 else if p == 9 then 0 else 37 - 2 * p
  {
  }

  lemma OrderListsAll(b: nat)
    requires 1 <= b < 9
    ensures multiset(PackingOrder(b)) == multiset(UpTo(18))
  {
    hide PackingOrder;
    var order := PackingOrder(b);
    forall p: nat | p < 18 { OrderAt(b, p); }
    UpToMembers(18);
    forall i: nat | i < 18 ensures i in order {
      var k := i / 2;
      var p := if i == 2 * b then 0 else if i == 0 then 9 else if i == 1 then 8 else if i % 2 == 1 then (37 - i) / 2
               else if k > b then 9 - k else 8 - k;
      assert order[p] == i;
    }
    DistinctSame(order, UpTo(18));
  }

  lemma CodedSize(acts: map<nat, Act>, keys: set<int>)
    requires forall la: int :: la in keys <==> la >= 0 && la in acts
    ensures |Coded(acts, 9, 7)| == |keys|
  {
    forall la: int ensures la in Coded(acts, 9, 7).Keys <==> la in keys {
      assert la in Coded(acts, 9, 7) <==> la >= 0 && la in acts;
    }
    assert Coded(acts, 9, 7).Keys == keys;
  }

  lemma RowSizes(row: StateRow, b: nat)
    ensures BegunRow(row) ==> |Coded(row.onTerminal, 9, 7)| == 7 && |Coded(row.onNonterminal, 9, 7)| == 0
    ensures EndRow(row) ==> |Coded(row.onTerminal, 9, 7)| == 1 && |Coded(row.onNonterminal, 9, 7)| == 0
    ensures row == StateRow(map[8 := Shift(b)], map[10 := Accept], Error) ==>
      |Coded(row.onTerminal, 9, 7)| == 1 && |Coded(row.onNonterminal, 9, 7)| == 1
  {
    hide Coded;
    if BegunRow(row) {
      CodedSize(row.onTerminal, {1, 2, 3, 4, 5, 6, 7});
      CodedSize(row.onNonterminal, {});
    } else if EndRow(row) {
      CodedSize(row.onTerminal, {0});
      CodedSize(row.onNonterminal, {});
    } else if row == StateRow(map[8 := Shift(b)], map[10 := Accept], Error) {
      CodedSize(row.onTerminal, {8});
      CodedSize(row.onNonterminal, {10});
    }
  }

  // How long the rows are.
  lemma Sizes(rows: seq<StateRow>, b: nat, i: nat)
    requires ForkedRows(rows, b) && i < 18
    ensures |CodedRow(rows, 7, i)| == if i == 2 * b then 7 else if i == 1 || i % 2 == 0 then 1 else 0
  {
    hide CodedRow, Coded, BegunRow, EndRow;
    CodedRows(rows, 7, i / 2);
    RowSizes(rows[i / 2], b);
  }

  lemma OrderOf(rows: seq<StateRow>, b: nat)
    requires ForkedRows(rows, b)
    ensures IsPackingOrder(rows, 7, PackingOrder(b))
  {
    hide PackingOrder, CodedRow;
    var order := PackingOrder(b);
    OrderListsAll(b);
    forall i, j | 0 <= i < j < 18 ensures LongerFirst(rows, 7)(order[i], order[j]) {
      OrderAt(b, i);
      OrderAt(b, j);
      Sizes(rows, b, order[i]);
      Sizes(rows, b, order[j]);
    }
  }

  // ---- where acttab_insert puts them ----

  predicate LongRow(row: Row) {
    row.Keys == {1, 2, 3, 4, 5, 6, 7}
  }

  // The long row, and k of the rows {0: c}.
  function Filled(row: Row, c: seq<int>, k: nat): seq<Entry>
    requires LongRow(row) && k <= |c| == 7
  {
    seq(28, j requires 0 <= j < 28 =>
      if j < 7 then Entry(j + 1, row[j + 1]) else if j < 7 + k then Entry(0, c[j - 7]) else FREE)
  }

  lemma FirstInsertion(row: Row, c: seq<int>)
    requires LongRow(row) && |c| == 7
    ensures Insertion([], 0, row, 1, 7) == Outcome(Filled(row, c, 0), 7, -1)
  {
    hide StoredAt;
    var grown := Grown([], GrownSize(0, 0, 7));
    assert FitsAt(grown, 0, row, 1, 0);
    FirstFitIs(grown, 0, row, 1, 21, 0);
    assert Written(grown, row, -1) == Filled(row, c, 0);
  }

  lemma NotGrown(table: seq<Entry>, nAction: nat, mx: nat)
    requires nAction + mx + 1 < |table|
    ensures Grown(table, GrownSize(|table|, nAction, mx)) == table
  {
  }

  // A row is stored at a slot only if its least look-ahead is there.
  lemma StoredAtSlot(table: seq<Entry>, row: Row, mn: int, i: int)
    requires StoredAt(table, row, mn, i) && mn in row
    ensures 0 <= i < |table| && table[i] == Entry(mn, row[mn])
  {
    hide RowAt;
    RowMember(table, i - mn, mn);
  }

  // A row with one entry: what remains to be shown to know where it goes.
  lemma SingleInsertion(table: seq<Entry>, nAction: nat, la: nat, v: int, slot: nat)
    requires nAction + la + 1 < |table| && nAction <= slot + 1 && slot <= |table| - la && slot < |table|
    requires forall m | 0 <= m < nAction :: table[m] != Entry(la, v)
    requires slot < |table| - la ==> FitsAt(table, nAction, map[la := v], la, slot)
    requires NoFitBelow(table, nAction, map[la := v], la, slot)
    ensures Insertion(table, nAction, map[la := v], la, la) == Outcome(table[slot := Entry(la, v)], slot + 1, slot - la)
  {
    hide StoredAt, FitsAt, Grown;
    var row := map[la := v];
    NotGrown(table, nAction, la);
    forall m | 0 <= m < nAction ensures !StoredAt(table, row, la, m) {
      if StoredAt(table, row, la, m) { StoredAtSlot(table, row, la, m); }
    }
    LastStoredIs(table, row, la, nAction, -1);
    FirstFitIs(table, nAction, row, la, |table| - la, slot);
    assert Written(table, row, slot - la) == table[slot := Entry(la, v)];
  }

  lemma LeafInsertion(row: Row, c: seq<int>, k: nat)
    requires LongRow(row) && k < |c| == 7 && c[k] !in c[..k]
    ensures Insertion(Filled(row, c, k), 7 + k, map[0 := c[k]], 0, 0) == Outcome(Filled(row, c, k + 1), 8 + k, 7 + k)
  {
    hide Insertion;
    var table := Filled(row, c, k);
    forall m | 0 <= m < 7 + k ensures table[m] != Entry(0, c[k]) { assert m >= 7 ==> c[m - 7] in c[..k]; }
    Occupied(table, 0, 7 + k, map[0 := c[k]], 0);
    SingleInsertion(table, 7 + k, 0, c[k], 7 + k);
    assert table[7 + k := Entry(0, c[k])] == Filled(row, c, k + 1);
  }

  // Nothing fits where the slots are taken.
  lemma Occupied(table: seq<Entry>, from: nat, to: nat, row: Row, mn: int)
    requires mn in row && to <= |table| && forall m | from <= m < to :: table[m].lookahead >= 0
    ensures forall m, nAction | from <= m < to :: !FitsAt(table, nAction, row, mn, m)
  {
    forall m, nAction | from <= m < to ensures !FitsAt(table, nAction, row, mn, m) {
      assert !SlotFree(table, mn, m, mn);
    }
  }

  // The row {10: v} goes behind them, ...
  lemma GotoInsertion(row: Row, c: seq<int>, v: int)
    requires LongRow(row) && |c| == 7
    ensures Insertion(Filled(row, c, 7), 14, map[10 := v], 10, 10)
         == Outcome(Filled(row, c, 7)[14 := Entry(10, v)], 15, 4)
  {
    hide Insertion;
    var table := Filled(row, c, 7);
    Occupied(table, 0, 14, map[10 := v], 10);
    SingleInsertion(table, 14, 10, v, 14);
  }

  // ... and for {8: v} no slot is found: the search gives up in slot 20, at offset 12, which is that of a row {0: c}.
  lemma LastInsertion(row: Row, c: seq<int>, u: int, v: int)
    requires LongRow(row) && |c| == 7
    ensures Insertion(Filled(row, c, 7)[14 := Entry(10, u)], 15, map[8 := v], 8, 8).ofst == 12
  {
    hide Insertion;
    var table := Filled(row, c, 7)[14 := Entry(10, u)];
    Occupied(table, 0, 15, map[8 := v], 8);
    forall m | 15 <= m < 20 ensures !FitsAt(table, 15, map[8 := v], 8, m) { TakenOffset(table, 15, m - 8); }
    SingleInsertion(table, 15, 8, v, 20);
  }

  lemma TakenOffset(table: seq<Entry>, nAction: nat, o: nat)
    requires o < nAction <= |table| && table[o].lookahead == 0
    ensures !NothingAt(table, nAction, o)
  {
    assert table[o].lookahead == o - o;
  }

  // ---- the run ----

  lemma LinkDoes(log: seq<Placement>, table: seq<Entry>, nAction: nat, i: nat, mn: int, mx: nat)
    requires Chained(log, table, nAction) && i < |log| && mn in log[i].row && Bounds(log[i].row, mn, log[i].row[mn], mx)
    ensures log[i].result == Insertion(TableAfter(log, i), UsedAfter(log, i), log[i].row, mn, mx)
  {
    hide Insertion, Inserted;
    assert LinkOK(log, i);
  }

  // The first eight rows.
  lemma {:induction false} Leaves(log: seq<Placement>, table: seq<Entry>, nAction: nat, row: Row, c: seq<int>, k: nat)
    requires Chained(log, table, nAction) && LongRow(row) && k <= |c| == 7 && AllDifferent(c) && |log| > 7
      && log[0].row == row
    requires forall j | 0 <= j < 7 :: log[1 + j].row == map[0 := c[j]]
    ensures TableAfter(log, 1 + k) == Filled(row, c, k) && UsedAfter(log, 1 + k) == 7 + k
    ensures k > 0 ==> log[k].result.ofst == 6 + k
  {
    hide Insertion, Chained, Filled;
    if k == 0 {
      LinkDoes(log, table, nAction, 0, 1, 7);
      FirstInsertion(row, c);
    } else {
      Leaves(log, table, nAction, row, c, k - 1);
      assert log[1 + (k - 1)].row == map[0 := c[k - 1]];
      LinkDoes(log, table, nAction, k, 0, 0);
      LeafInsertion(row, c, k - 1);
    }
  }

  // The last two.
  lemma LastTwo(log: seq<Placement>, table: seq<Entry>, nAction: nat, row: Row, c: seq<int>, u: int, v: int)
    requires Chained(log, table, nAction) && LongRow(row) && |c| == 7 && AllDifferent(c) && |log| > 9
      && log[0].row == row
    requires forall j | 0 <= j < 7 :: log[1 + j].row == map[0 := c[j]]
    requires log[8].row == map[10 := u] && log[9].row == map[8 := v]
    ensures log[9].result.ofst == log[6].result.ofst
  {
    hide Insertion, Chained, Filled;
    Leaves(log, table, nAction, row, c, 6);
    Leaves(log, table, nAction, row, c, 7);
    LinkDoes(log, table, nAction, 8, 10, 10);
    GotoInsertion(row, c, u);
    LinkDoes(log, table, nAction, 9, 8, 8);
    LastInsertion(row, c, u, v);
  }

  function LeafAct(rows: seq<StateRow>, b: nat, j: nat): Act
    requires ForkedRows(rows, b) && j < 7
  {
    rows[Leaf(b, j)].onTerminal[0]
  }

  // The rows by their numbers.
  lemma CodedForked(rows: seq<StateRow>, b: nat)
    requires ForkedRows(rows, b)
    ensures LongRow(CodedRow(rows, 7, 2 * b))
    ensures CodedRow(rows, 7, 1) == map[10 := Code(Accept, 9, 7)]
      && CodedRow(rows, 7, 0) == map[8 := Code(Shift(b), 9, 7)]
    ensures forall j | 0 <= j < 7 :: CodedRow(rows, 7, 2 * Leaf(b, j)) == map[0 := Code(LeafAct(rows, b, j), 9, 7)]
  {
    hide CodedRow;
    CodedRows(rows, 7, 0);
    CodedRows(rows, 7, b);
    forall j | 0 <= j < 7 ensures CodedRow(rows, 7, 2 * Leaf(b, j)) == map[0 := Code(LeafAct(rows, b, j), 9, 7)] {
      CodedRows(rows, 7, Leaf(b, j));
    }
  }

  lemma FirstNotEmpty(rows: seq<StateRow>, b: nat, p: nat)
    requires ForkedRows(rows, b) && p < 10
    ensures CodedRow(rows, 7, PackingOrder(b)[p]) != map[]
  {
    hide CodedRow, PackingOrder;
    OrderAt(b, p);
    Sizes(rows, b, PackingOrder(b)[p]);
  }

  // What is inserted.
  lemma RowsInserted(rows: seq<StateRow>, b: nat, run: Run)
    requires ForkedRows(rows, b) && IsRun(rows, 7, run)
    ensures |run.log| > 9 && run.sorted == PackingOrder(b) && LongRow(run.log[0].row)
    ensures forall j | 0 <= j < 7 :: run.log[1 + j].row == map[0 := Code(LeafAct(rows, b, j), 9, 7)]
    ensures run.log[8].row == map[10 := Code(Accept, 9, 7)] && run.log[9].row == map[8 := Code(Shift(b), 9, 7)]
  {
    hide Chained, IsPackingOrder, PackingOrder, CodedRow, LeafAct, Leaf, LongRow;
    OrderOf(rows, b);
    OrderUnique(rows, 7, run.sorted, PackingOrder(b));
    CodedForked(rows, b);
    forall p: nat | p < 18 { OrderAt(b, p); }
    if |run.log| < 10 { FirstNotEmpty(rows, b, |run.log|); }
    forall j | 0 <= j < 7 ensures run.sorted[1 + j] == 2 * Leaf(b, j) { OrderAt(b, 1 + j); }
  }

  // The first state reads on `$` what is meant for another one.
  lemma StrayInFirst(rows: seq<StateRow>, b: nat, run: Run)
    requires ForkedRows(rows, b) && IsRun(rows, 7, run)
    ensures Stray(rows, 7, 0, 0, Code(LeafAct(rows, b, 5), 9, 7))
  {
    hide Chained, IsPackingOrder, InsertsRows, PackingOrder;
    RowsInserted(rows, b, run);
    OrderAt(b, 9);
    var c := seq(7, j requires 0 <= j < 7 => Code(LeafAct(rows, b, j), 9, 7));
    assert AllDifferent(c) by { LeavesDiffer(rows, b); }
    LastTwo(run.log, run.table, run.nAction, run.log[0].row, c, Code(Accept, 9, 7), Code(Shift(b), 9, 7));
    assert StrayIn(run, 0, 0, c[5], 9, 6);
  }

  lemma LeavesDiffer(rows: seq<StateRow>, b: nat)
    requires ForkedRows(rows, b)
    ensures forall i, j | 0 <= i < j < 7 :: Code(LeafAct(rows, b, i), 9, 7) != Code(LeafAct(rows, b, j), 9, 7)
  {
  }

  // The grammar is LALR(1), and whatever rows the generator makes for it, its arrays are wrong: on empty input the rows
  // call for a syntax error, but the arrays for a reduction by a rule of two symbols, and the stack has only one entry.
  lemma ForkedIsMisread(kernels: seq<set<Item>>, rows: seq<StateRow>, t: Lempar.Tables)
    requires Realizes(ForkedGrammar(), kernels, rows) && ReadsPacked(ForkedGrammar(), t, rows)
    ensures !Separable(ForkedGrammar(), rows) && !Lempar.Represents(ForkedGrammar(), t, rows)
    ensures Lempar.OneStep(ForkedGrammar(), rows, [Lempar.BOTTOM], 0) == Lempar.SyntaxError([Lempar.BOTTOM])
    ensures exists r: nat ::
      && r < 7 && Lempar.FindShiftAction(t, 0, 0) == Code(Reduce(r), t.nstate, t.nrule)
      && |ForkedGrammar().rules[r].rhs| == 2 && Lempar.ReduceStack(ForkedGrammar(), rows, [Lempar.BOTTOM], r)
          == Lempar.Stuck
  {
    hide Realizes, IsRun, Stray;
    var g := ForkedGrammar();
    var b := RealizedForked(kernels, rows);
    var run :| IsRun(rows, t.nrule, run);
    StrayInFirst(rows, b, run);
    var r := LeafAct(rows, b, 5).rule;
    assert |g.rules[r].rhs| == 2 && Lempar.FindShiftAction(t, 0, 0) == Code(Reduce(r), t.nstate, t.nrule);
  }
}

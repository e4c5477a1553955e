/** The arrays that ReportTable writes into the parser, and what the driver reads back from them. */
module Emission {
  import opened Options
  import opened Grammars
  import opened Automata
  import opened ActionLists
  import opened Resolve
  import opened Compress
  import opened Report
  import opened Packing
  import opened Runs
  import opened PackedRows
  import opened Sorting
  import Acttabs
  import Lempar

  // ---- the rows that the tables stand for ----

  function DefaultAct(g: Grammar, ap: seq<Action>): Act {
    match Explicit(ap, g.nsymbol)
    case Some(a) => a
    case None => Error
  }

  ghost function RowOf(g: Grammar, ap: seq<Action>, num: seq<nat>): StateRow {
    StateRow(
      map sp: nat | sp < g.nterminal && Explicit(ap, sp).Some? :: RenameAct(num, Explicit(ap, sp).value),
      map sp: nat | g.nterminal <= sp < g.nsymbol && Explicit(ap, sp).Some? :: RenameAct(num, Explicit(ap, sp).value),
      DefaultAct(g, ap))
  }

  ghost function RowsOf(g: Grammar, aps: seq<seq<Action>>, order: seq<nat>, num: seq<nat>): seq<StateRow>
    requires forall k | 0 <= k < |order| :: order[k] < |aps|
  {
    seq(|order|, k requires 0 <= k < |order| => RowOf(g, aps[order[k]], num))
  }

  // nTknAct and nNtAct are the numbers of entries.
  lemma RowSizes(g: Grammar, ap: seq<Action>, num: seq<nat>)
    requires Deterministic(ap)
    ensures |RowOf(g, ap, num).onTerminal| == TokenActions(g, ap)
    ensures |RowOf(g, ap, num).onNonterminal| == NonterminalActions(g, ap)
  {
    hide Deterministic, CountIf;
    PartSize(ap, 0, g.nterminal, num, RowOf(g, ap, num).onTerminal);
    PartSize(ap, g.nterminal, g.nsymbol, num, RowOf(g, ap, num).onNonterminal);
  }

  lemma PartSize(ap: seq<Action>, lo: nat, hi: nat, num: seq<nat>, acts: map<nat, Act>)
    requires Deterministic(ap) && forall la: nat :: la in acts <==> lo <= la < hi && Explicit(ap, la).Some?
    ensures |acts| == CountIf(ap, lo, hi)
  {
    hide Deterministic, Explicit, CountIf, PackRow;
    CountIsSize(ap, lo, hi, num, 0);
    PackRowMembers(ap, lo, hi, num, 0);
    var packed := PackRow(ap, lo, hi, num, 0);
    forall la | la in packed ensures la >= 0 && la in acts {
      var code: nat := la;
      PackRowMeans(ap, lo, hi, num, 0, code);
    }
    forall la: nat | la in acts ensures la in packed { PackRowMeans(ap, lo, hi, num, 0, la); }
    SameKeys(acts, packed);
  }

  lemma SameKeys(acts: map<nat, Act>, row: Acttabs.Row)
    requires (forall la <- acts :: la in row) && forall la <- row :: la >= 0 && la in acts
    ensures |acts| == |row|
  {
    var rel := (a: nat, b: int) => a == b;
    assert |acts| == |acts.Keys| && |row| == |row.Keys|;
    forall a | a in acts.Keys ensures exists b <- row.Keys :: rel(a, b) { assert rel(a, a); }
    forall b | b in row.Keys ensures exists a <- acts.Keys :: rel(a, b) { assert rel(b, b); }
    Corresponding(acts.Keys, row.Keys, rel);
  }

  // The row with more gotos, then that with more actions on terminals, then that of the state found later.
  ghost predicate ComesBefore(a: StateRow, foundA: nat, b: StateRow, foundB: nat) {
    || |a.onNonterminal| > |b.onNonterminal|
    || (|a.onNonterminal| == |b.onNonterminal|
        && (|a.onTerminal| > |b.onTerminal| || (|a.onTerminal| == |b.onTerminal| && foundA > foundB)))
  }

  // The order of the rows from the second one on.  `order` lists the numbers that the states had when they were found.
  ghost predicate Resorted(rows: seq<StateRow>, order: seq<nat>) {
    && |order| == |rows| && (forall s: nat :: s in order <==> s < |rows|) && order != [] && order[0] == 0
    && forall j, k | 1 <= j < k < |rows| :: ComesBefore(rows[j], order[j], rows[k], order[k])
  }

  lemma RowsResorted(g: Grammar, aps: seq<seq<Action>>, order: seq<nat>, num: seq<nat>)
    requires Numbering(order, num) && |order| == |aps| && forall ap <- aps :: Deterministic(ap)
    requires forall k | 0 <= k < |order| :: order[k] < |aps|
    requires forall j, k | 1 <= j < k < |order| :: MoreActions(g, aps, order[j], order[k])
    ensures Resorted(RowsOf(g, aps, order, num), order)
  {
    hide Deterministic, RowOf, TokenActions, NonterminalActions;
    forall k | 0 <= k < |order|
      ensures |RowsOf(g, aps, order, num)[k].onTerminal| == TokenActions(g, aps[order[k]])
      ensures |RowsOf(g, aps, order, num)[k].onNonterminal| == NonterminalActions(g, aps[order[k]])
    {
      assert aps[order[k]] in aps;
      RowSizes(g, aps[order[k]], num);
    }
    forall s: nat ensures s in order <==> s < |order| {
      if s < |order| { assert order[num[s]] == s; }
    }
  }

  lemma RowIsCoded(g: Grammar, aps: seq<seq<Action>>, order: seq<nat>, num: seq<nat>, i: nat)
    requires Packable(g, aps, order, num) && i < 2 * |order|
    ensures order[i / 2] < |aps| && AxRow(g, aps, order, num, i) == CodedRow(RowsOf(g, aps, order, num), |g.rules|, i)
    ensures AxCount(g, aps, order, i) == |CodedRow(RowsOf(g, aps, order, num), |g.rules|, i)|
  {
    hide PackRow, Deterministic, Explicit, CountIf;
    var ap := aps[order[i / 2]];
    assert ap in aps;
    var a, b := AxRow(g, aps, order, num, i), CodedRow(RowsOf(g, aps, order, num), |g.rules|, i);
    PackRowMembers(ap, AxLow(g, i), AxHigh(g, i), num, |g.rules|);
    CountIsSize(ap, AxLow(g, i), AxHigh(g, i), num, |g.rules|);
    forall la: int ensures la in a <==> la in b {
      if la >= 0 { PackRowMeans(ap, AxLow(g, i), AxHigh(g, i), num, |g.rules|, la); }
      assert la in a ==> InRow(ap, AxLow(g, i), AxHigh(g, i), la);
    }
    forall la: int | la in a ensures a[la] == b[la] {
      assert InRow(ap, AxLow(g, i), AxHigh(g, i), la);
      PackRowMeans(ap, AxLow(g, i), AxHigh(g, i), num, |g.rules|, la);
    }
  }

  // The insertions of PackTables are those of the rows.
  lemma RunOfRows(g: Grammar, aps: seq<seq<Action>>, order: seq<nat>, num: seq<nat>, log: seq<Placement>,
                  ofst: seq<Option<int>>, table: seq<Acttabs.Entry>, nAction: nat)
    requires Packable(g, aps, order, num) && AllInserted(g, aps, order, num, log, ofst) && Chained(log, table, nAction)
    ensures IsRun(RowsOf(g, aps, order, num), |g.rules|, Run(log, AxOrder(g, aps, order), table, nAction))
  {
    hide Deterministic, AxRow, AxCount, CodedRow, RowOf, Chained;
    var rows, sorted := RowsOf(g, aps, order, num), AxOrder(g, aps, order);
    SortedRows(g, aps, order);
    AxPreorder(g, aps, order);
    SortOrders(UpTo(2 * |order|), AxLe(g, aps, order));
    forall i: nat | i < 2 * |order|
      ensures AxRow(g, aps, order, num, i) == CodedRow(rows, |g.rules|, i)
      ensures AxCount(g, aps, order, i) == |CodedRow(rows, |g.rules|, i)|
    {
      RowIsCoded(g, aps, order, num, i);
    }
    forall i, j | 0 <= i < j < |sorted| ensures LongerFirst(rows, |g.rules|)(sorted[i], sorted[j]) {
      assert AxLe(g, aps, order)(sorted[i], sorted[j]);
    }
  }

  // ---- writing them ----

  // iDflt in ResortStates: the error action, or what stands under {default}.
  method DefaultCode(g: Grammar, ap: seq<Action>, nstate: nat) returns (code: nat)
    requires Deterministic(ap) && g.nterminal <= g.nsymbol && forall a <- ap | Live(a) :: a.sp <= g.nsymbol
    ensures code == Code(DefaultAct(g, ap), nstate, |g.rules|)
  {
    hide Deterministic;
    code := Code(Error, nstate, |g.rules|);
    ghost var seen: Option<Act> := None;
    for i := 0 to |ap|
      invariant seen.None? ==> forall a <- ap[..i] :: !(Live(a) && a.sp == g.nsymbol)
      invariant seen.Some? ==> exists a <- ap[..i] :: Live(a) && a.sp == g.nsymbol && ActOf(a) == seen.value
      invariant code == Code(if seen.Some? then seen.value else Error, nstate, |g.rules|)
    {
      assert ap[..i + 1] == ap[..i] + [ap[i]];
      assert ap[i] in ap;
      if Live(ap[i]) && ap[i].sp >= g.nterminal && ap[i].sp >= g.nsymbol {
        code := Code(ActOf(ap[i]), nstate, |g.rules|);
        seen := Some(ActOf(ap[i]));
      }
    }
    assert ap[..|ap|] == ap;
    ExplicitMeans(ap, g.nsymbol);
  }

  // yy_action and yy_lookahead
  ghost predicate TableCopied(g: Grammar, table: seq<Acttabs.Entry>, nAction: nat, nstate: nat, action: seq<nat>,
                              lookahead: seq<nat>) {
    && |action| == |lookahead| == nAction <= |table|
    && (forall i | 0 <= i < nAction :: lookahead[i] == if table[i].lookahead < 0 then g.nsymbol else table[i].lookahead)
    && (forall i | 0 <= i < nAction :: action[i] == if table[i].action < 0 then nstate + |g.rules| + 2
        else table[i].action)
  }

  method CopyTable(g: Grammar, tab: Acttabs.Acttab, nstate: nat) returns (action: seq<nat>, lookahead: seq<nat>)
    requires tab.Valid()
    ensures TableCopied(g, tab.aAction[..], tab.nAction, nstate, action, lookahead)
  {
    action, lookahead := [], [];
    for i := 0 to tab.nAction
      invariant |action| == |lookahead| == i
      invariant forall j | 0 <= j < i ::
        lookahead[j]
        == if tab.aAction[j].lookahead < 0 then g.nsymbol else tab.aAction[j].lookahead
      invariant forall j | 0 <= j < i ::
        action[j]
        == if tab.aAction[j].action < 0 then nstate + |g.rules| + 2 else tab.aAction[j].action
    {
      var e := tab.aAction[i];
      action := action + [if e.action < 0 then nstate + |g.rules| + 2 else e.action];
      lookahead := lookahead + [if e.lookahead < 0 then g.nsymbol else e.lookahead];
    }
  }

  // yy_shift_ofst or yy_reduce_ofst: the states behind the last one with an offset are left out; those in between
  // without one get the number below 0 and all offsets.
  ghost predicate OffsetsCopied(ofst: seq<Option<int>>, parity: nat, column: seq<int>, useDflt: int)
    requires parity < 2
  {
    && 2 * |column| <= |ofst|
    && (forall k | 0 <= k < |column| ::
         match ofst[2 * k + parity] case Some(o) => column[k] == o && o != useDflt case None => column[k] == useDflt)
    && (forall k | |column| <= k < |ofst| / 2 :: ofst[2 * k + parity] == None)
    && (column != [] ==> ofst[2 * (|column| - 1) + parity].Some?)
    && Least(useDflt + 1, ofst, parity)
  }

  method CopyOffsets(ofst: seq<Option<int>>, parity: nat, mn: int) returns (column: seq<int>, useDflt: int)
    requires parity < 2 && Least(mn, ofst, parity) && |ofst| % 2 == 0
    ensures OffsetsCopied(ofst, parity, column, useDflt)
  {
    useDflt := mn - 1;
    NumbersBelow(ofst, parity, mn);
    hide Least;
    var n := |ofst| / 2;
    while n > 0 && ofst[2 * (n - 1) + parity] == None
      invariant 0 <= n <= |ofst| / 2 && forall k | n <= k < |ofst| / 2 :: ofst[2 * k + parity] == None
    {
      n := n - 1;
    }
    column := [];
    for i := 0 to n
      invariant |column| == i
      invariant forall k | 0 <= k < i ::
        match ofst[2 * k + parity] case Some(o) => column[k] == o && o != useDflt case None => column[k] == useDflt
    {
      column := column + [match ofst[2 * i + parity] case Some(o) => o case None => useDflt];
    }
  }

  lemma NumbersBelow(ofst: seq<Option<int>>, parity: nat, mn: int)
    requires parity < 2 && Least(mn, ofst, parity)
    ensures forall k: nat | 2 * k + parity < |ofst| && ofst[2 * k + parity].Some? :: mn <= ofst[2 * k + parity].value
  {
    forall k: nat | 2 * k + parity < |ofst| && ofst[2 * k + parity].Some?
      ensures mn <= ofst[2 * k + parity].value
    {
      assert (2 * k + parity) % 2 == parity;
    }
  }

  // ---- reading them back ----

  // What is stored at an offset; nothing where there is none.
  ghost function StoredRow(table: seq<Acttabs.Entry>, ofst: Option<int>): Acttabs.Row {
    match ofst
    case Some(o) => Acttabs.RowAt(table, o)
    case None => map[]
  }

  lemma ShiftLookup(g: Grammar, t: Lempar.Tables, table: seq<Acttabs.Entry>, nAction: nat, ofst: seq<Option<int>>,
                    k: nat, la: nat)
    requires Lempar.WellSized(t) && k < t.nstate && |ofst| == 2 * t.nstate
    requires Acttabs.InUse(table, nAction) && TableCopied(g, table, nAction, t.nstate, t.action, t.lookahead)
    requires OffsetsCopied(ofst, 0, t.shiftOfst, t.shiftUseDflt) && la < g.nsymbol
    ensures var row := StoredRow(table, ofst[2 * k]);
      (la in row && row[la] < 0) || Lempar.FindShiftAction(t, k, la) == if la in row then row[la] else t.dflt[k]
  {
    match ofst[2 * k + 0]
    case Some(o) =>
      Acttabs.LookupIsRow(table, o, la);
      assert t.shiftOfst[k] == o;
    case None =>
  }

  lemma ReduceLookup(g: Grammar, t: Lempar.Tables, table: seq<Acttabs.Entry>, nAction: nat, ofst: seq<Option<int>>,
                     k: nat, A: nat)
    requires Lempar.WellSized(t) && k < t.nstate && |ofst| == 2 * t.nstate
    requires Acttabs.InUse(table, nAction) && TableCopied(g, table, nAction, t.nstate, t.action, t.lookahead)
    requires OffsetsCopied(ofst, 1, t.reduceOfst, t.reduceUseDflt) && A < g.nsymbol
    requires var row := StoredRow(table, ofst[2 * k + 1]); A in row && row[A] >= 0
    ensures Lempar.HasReduceAction(t, k, A) && Lempar.FindReduceAction(t, k, A) == StoredRow(table, ofst[2 * k + 1])[A]
  {
    match ofst[2 * k + 1]
    case Some(o) =>
      Acttabs.LookupIsRow(table, o, A);
      assert t.reduceOfst[k] == o;
    case None =>
  }

  // The arrays are those that the table, the offsets and the defaults were copied to.
  ghost predicate WrittenAs(g: Grammar, t: Lempar.Tables, rows: seq<StateRow>, run: Run, ofst: seq<Option<int>>) {
    && t.nstate == |rows| == |t.dflt| && t.nrule == |g.rules| && t.ruleInfo == Lempar.RuleInfo(g)
    && IsRun(rows, t.nrule, run) && OffsetsOf(run, ofst) && |ofst| == 2 * |rows|
    && Acttabs.InUse(run.table, run.nAction)
    && (forall k: nat | k < |rows| :: t.dflt[k] == Code(rows[k].otherwise, t.nstate, t.nrule))
    && TableCopied(g, run.table, run.nAction, t.nstate, t.action, t.lookahead)
    && OffsetsCopied(ofst, 0, t.shiftOfst, t.shiftUseDflt) && OffsetsCopied(ofst, 1, t.reduceOfst, t.reduceUseDflt)
  }

  // The rows have actions on terminals and nonterminals of the grammar only.
  ghost predicate OnSymbols(g: Grammar, rows: seq<StateRow>) {
    && g.nterminal <= g.nsymbol
    && forall row <- rows ::
         (forall la <- row.onTerminal :: la < g.nterminal) && forall A <- row.onNonterminal :: A < g.nsymbol
  }

  ghost predicate Written(g: Grammar, t: Lempar.Tables, rows: seq<StateRow>) {
    exists run, ofst :: WrittenAs(g, t, rows, run, ofst)
  }

  lemma ColumnOnce(ofst: seq<Option<int>>, parity: nat, column: seq<int>, useDflt: int, column': seq<int>,
                   useDflt': int)
    requires parity < 2
    requires OffsetsCopied(ofst, parity, column, useDflt) && OffsetsCopied(ofst, parity, column', useDflt')
    ensures column == column' && useDflt == useDflt'
  {
    assert |column| == |column'|;
    assert useDflt == useDflt';
  }

  lemma OffsetsOnce(rows: seq<StateRow>, nrule: nat, run: Run, ofst: seq<Option<int>>, ofst': seq<Option<int>>)
    requires IsRun(rows, nrule, run) && OffsetsOf(run, ofst) && OffsetsOf(run, ofst')
    ensures ofst == ofst'
  {
    hide Chained, CodedRow, InsertsRows, IsPackingOrder;
    OrderMembers(rows, nrule, run.sorted);
    forall i: nat | i < |ofst| ensures ofst[i] == ofst'[i] {
      assert i in run.sorted;
      var j :| 0 <= j < |run.sorted| && run.sorted[j] == i;
    }
  }

  // The rows determine every entry of the arrays.
  lemma WrittenOnce(g: Grammar, t: Lempar.Tables, t': Lempar.Tables, rows: seq<StateRow>)
    requires Written(g, t, rows) && Written(g, t', rows)
    ensures t == t'
  {
    hide IsRun, OffsetsOf, OffsetsCopied;
    var run, ofst :| WrittenAs(g, t, rows, run, ofst);
    var run', ofst' :| WrittenAs(g, t', rows, run', ofst');
    RunUnique(rows, |g.rules|, run, run');
    OffsetsOnce(rows, |g.rules|, run, ofst, ofst');
    ColumnOnce(ofst, 0, t.shiftOfst, t.shiftUseDflt, t'.shiftOfst, t'.shiftUseDflt);
    ColumnOnce(ofst, 1, t.reduceOfst, t.reduceUseDflt, t'.reduceOfst, t'.reduceUseDflt);
    assert t.dflt == t'.dflt && t.action == t'.action && t.lookahead == t'.lookahead;
  }

  // Where row i was inserted, if it is not empty.
  lemma InsertedAs(rows: seq<StateRow>, nrule: nat, run: Run, i: nat) returns (j: nat)
    requires IsRun(rows, nrule, run) && i < 2 * |rows|
    ensures j < |run.sorted| == 2 * |rows| && run.sorted[j] == i
      && (j < |run.log| <==> CodedRow(rows, nrule, i) != map[])
  {
    hide Chained, IsPackingOrder, CodedRow;
    OrderMembers(rows, nrule, run.sorted);
    assert i in run.sorted;
    j :| j < |run.sorted| && run.sorted[j] == i;
    if j < |run.log| { InsertedNotEmpty(run.log, run.table, run.nAction, j); }
  }

  ghost predicate OffsetsOf(run: Run, ofst: seq<Option<int>>) {
    && |run.sorted| == |ofst| && |run.log| <= |run.sorted| && (forall j | 0 <= j < |ofst| :: run.sorted[j] < |ofst|)
    && (forall j | 0 <= j < |run.log| :: ofst[run.sorted[j]] == Some(run.log[j].result.ofst))
    && (forall j | |run.log| <= j < |ofst| :: ofst[run.sorted[j]] == None)
  }

  // All of a row is stored at its offset; whatever else is found there was inserted for another row.
  lemma RowStored(rows: seq<StateRow>, nrule: nat, run: Run, ofst: seq<Option<int>>, i: nat, la: int)
    requires IsRun(rows, nrule, run) && OffsetsOf(run, ofst) && i < 2 * |rows| == |ofst|
    ensures la in CodedRow(rows, nrule, i) ==>
      la in StoredRow(run.table, ofst[i]) && StoredRow(run.table, ofst[i])[la] == CodedRow(rows, nrule, i)[la]
    ensures la >= 0 && i % 2 == 0 && la !in CodedRow(rows, nrule, i) ==>
      forall v :: la in StoredRow(run.table, ofst[i]) && StoredRow(run.table, ofst[i])[la] == v
          <==> Stray(rows, nrule, i / 2, la, v)
  {
    hide Chained, IsPackingOrder, CodedRow, Acttabs.RowAt;
    var j := InsertedAs(rows, nrule, run, i);
    if j < |run.log| {
      var o := run.log[j].result.ofst;
      TableIsUnion(run.log, run.table, run.nAction, o, la);
      if la in run.log[j].row { assert InsertedAt(run.log, j, o, la); }
    }
    if la >= 0 && i % 2 == 0 && la !in CodedRow(rows, nrule, i) {
      forall v
        ensures la in StoredRow(run.table, ofst[i]) && StoredRow(run.table, ofst[i])[la] == v
          <==> Stray(rows, nrule, i / 2, la, v)
      {
        StrayStored(rows, nrule, run, ofst, i, la, v, j);
      }
    }
  }

  lemma StrayStored(rows: seq<StateRow>, nrule: nat, run: Run, ofst: seq<Option<int>>, i: nat, la: nat, v: int, j: nat)
    requires IsRun(rows, nrule, run) && OffsetsOf(run, ofst) && i < 2 * |rows| == |ofst| && i % 2 == 0
    requires la !in CodedRow(rows, nrule, i) && j < |run.sorted| && run.sorted[j] == i
    ensures la in StoredRow(run.table, ofst[i]) && StoredRow(run.table, ofst[i])[la] == v
      <==> Stray(rows, nrule, i / 2, la, v)
  {
    hide Chained, IsPackingOrder, CodedRow, Acttabs.RowAt;
    OrderMembers(rows, nrule, run.sorted);
    if j < |run.log| { TableIsUnion(run.log, run.table, run.nAction, run.log[j].result.ofst, la); }
    if la in StoredRow(run.table, ofst[i]) && StoredRow(run.table, ofst[i])[la] == v {
      var m :| InsertedAt(run.log, m, run.log[j].result.ofst, la);
      assert StrayIn(run, i / 2, la, v, j, m);
    }
    if Stray(rows, nrule, i / 2, la, v) {
      var other, j': nat, m: nat :| IsRun(rows, nrule, other) && StrayIn(other, i / 2, la, v, j', m);
      RunUnique(rows, nrule, run, other);
      assert run.sorted[j'] == run.sorted[j] && j' == j;
      assert InsertedAt(run.log, m, run.log[j].result.ofst, la);
    }
  }

  // What is read for one state on a terminal.
  lemma ShiftRead(g: Grammar, t: Lempar.Tables, rows: seq<StateRow>, run: Run, ofst: seq<Option<int>>, k: nat, la: nat)
    requires WrittenAs(g, t, rows, run, ofst) && OnSymbols(g, rows) && k < t.nstate && la < g.nterminal
    ensures la in rows[k].onTerminal ==>
      Lempar.WellSized(t) && Lempar.FindShiftAction(t, k, la) == Code(rows[k].onTerminal[la], t.nstate, t.nrule)
    ensures forall v | Stray(rows, t.nrule, k, la, v) ::
      Lempar.WellSized(t) && Lempar.FindShiftAction(t, k, la) == v
    ensures la !in rows[k].onTerminal && (forall v :: !Stray(rows, t.nrule, k, la, v)) ==>
      Lempar.WellSized(t) && Lempar.FindShiftAction(t, k, la) == Code(rows[k].otherwise, t.nstate, t.nrule)
  {
    hide IsRun, OffsetsCopied, TableCopied, Acttabs.InUse, OffsetsOf, Acttabs.RowAt, Stray, StoredRow, CodedRow;
    SizesFit(g, t, rows, run, ofst);
    CodedRows(rows, |g.rules|, k);
    assert la in Coded(rows[k].onTerminal, |rows|, |g.rules|) <==> la in rows[k].onTerminal;
    RowStored(rows, |g.rules|, run, ofst, 2 * k, la);
    assert 2 * k / 2 == k;
    ShiftLookup(g, t, run.table, run.nAction, ofst, k, la);
    forall v | Stray(rows, |g.rules|, k, la, v) ensures la !in rows[k].onTerminal && v >= 0 {
      StrayMissing(rows, |g.rules|, k, la, v);
      StrayIsCode(rows, |g.rules|, k, la, v);
    }
    var stored := StoredRow(run.table, ofst[2 * k]);
    if la in stored && la !in rows[k].onTerminal { assert Stray(rows, |g.rules|, k, la, stored[la]); }
  }

  lemma SizesFit(g: Grammar, t: Lempar.Tables, rows: seq<StateRow>, run: Run, ofst: seq<Option<int>>)
    requires WrittenAs(g, t, rows, run, ofst)
    ensures Lempar.WellSized(t)
  {
    hide IsRun, Acttabs.InUse, OffsetsOf;
  }

  lemma StrayIsCode(rows: seq<StateRow>, nrule: nat, k: nat, la: nat, v: int)
    requires Stray(rows, nrule, k, la, v)
    ensures v >= 0
  {
    hide Chained, IsPackingOrder;
    var run, j: nat, m: nat :| IsRun(rows, nrule, run) && StrayIn(run, k, la, v, j, m);
    assert run.log[m].row == CodedRow(rows, nrule, run.sorted[m]);
  }

  // What is read for one state on a nonterminal.
  lemma GotoRead(g: Grammar, t: Lempar.Tables, rows: seq<StateRow>, run: Run, ofst: seq<Option<int>>, k: nat, A: nat)
    requires WrittenAs(g, t, rows, run, ofst) && OnSymbols(g, rows) && k < t.nstate && A in rows[k].onNonterminal
    ensures Lempar.HasReduceAction(t, k, A)
    ensures Lempar.FindReduceAction(t, k, A) == Code(rows[k].onNonterminal[A], t.nstate, t.nrule)
  {
    hide IsRun, OffsetsCopied, TableCopied, Acttabs.InUse, OffsetsOf, Acttabs.RowAt, StoredRow, CodedRow;
    SizesFit(g, t, rows, run, ofst);
    CodedRows(rows, |g.rules|, k);
    assert rows[k] in rows && A in Coded(rows[k].onNonterminal, |rows|, |g.rules|);
    RowStored(rows, |g.rules|, run, ofst, 2 * k + 1, A);
    ReduceLookup(g, t, run.table, run.nAction, ofst, k, A);
  }

  // The driver reads from the arrays just what was packed into them.
  lemma ExactTables(g: Grammar, t: Lempar.Tables, rows: seq<StateRow>)
    requires Written(g, t, rows) && OnSymbols(g, rows)
    ensures ReadsPacked(g, t, rows)
  {
    hide IsRun, OffsetsCopied, TableCopied, Acttabs.InUse, OffsetsOf, Stray;
    var run, ofst :| WrittenAs(g, t, rows, run, ofst);
    SizesFit(g, t, rows, run, ofst);
    assert IsRun(rows, t.nrule, run);
    forall k: nat, la: nat | k < |rows| && la in rows[k].onTerminal ensures la < g.nterminal { assert rows[k] in rows; }
    forall k: nat, la: nat | k < t.nstate && la < g.nterminal
      ensures la in rows[k].onTerminal ==>
        Lempar.FindShiftAction(t, k, la) == Code(rows[k].onTerminal[la], t.nstate, t.nrule)
      ensures forall v | Stray(rows, t.nrule, k, la, v) :: Lempar.FindShiftAction(t, k, la) == v
      ensures la !in rows[k].onTerminal && (forall v :: !Stray(rows, t.nrule, k, la, v)) ==>
        Lempar.FindShiftAction(t, k, la) == Code(rows[k].otherwise, t.nstate, t.nrule)
    {
      ShiftRead(g, t, rows, run, ofst, k, la);
    }
    forall k: nat, A: nat | k < t.nstate && A in rows[k].onNonterminal
      ensures Lempar.HasReduceAction(t, k, A)
      ensures Lempar.FindReduceAction(t, k, A) == Code(rows[k].onNonterminal[A], t.nstate, t.nrule)
    {
      GotoRead(g, t, rows, run, ofst, k, A);
    }
  }

  // ReportTable: the driver reads what was packed, which is what the rows mean if and only if nothing strays and no
  // rule is too long.
  method ReportTable(g: Grammar, aps: seq<seq<Action>>, order: seq<nat>, num: seq<nat>) returns (t: Lempar.Tables)
    requires Packable(g, aps, order, num)
    ensures Written(g, t, RowsOf(g, aps, order, num)) && ReadsPacked(g, t, RowsOf(g, aps, order, num))
    ensures Lempar.Represents(g, t, RowsOf(g, aps, order, num))
       <==> Separable(g, RowsOf(g, aps, order, num)) && Lempar.ShortRules(g)
  {
    hide Chained, Acttabs.RowAt, OffsetsCopied, TableCopied, PackRow, Deterministic, Explicit, Acttabs.InUse, Least,
        AllInserted, IsRun, OffsetsOf, Lempar.Represents, RowsOf, ReadsPacked, Lempar.RuleInfo;
    var n := |order|;
    var dflt: seq<nat> := [];
    for k := 0 to n
      invariant |dflt| == k && forall j: nat | j < k :: dflt[j] == Code(DefaultAct(g, aps[order[j]]), n, |g.rules|)
    {
      assert aps[order[k]] in aps;
      var code := DefaultCode(g, aps[order[k]], n);
      dflt := dflt + [code];
    }
    var tab, ofst, mnTkn, mnNt;
    ghost var log;
    tab, ofst, mnTkn, mnNt, log := PackTables(g, aps, order, num);
    ghost var run := Run(log, AxOrder(g, aps, order), tab.aAction[..], tab.nAction);
    OffsetCount(g, aps, order, num, run, ofst);
    var action, lookahead := CopyTable(g, tab, n);
    var shiftOfst, shiftUseDflt := CopyOffsets(ofst, 0, mnTkn);
    var reduceOfst, reduceUseDflt := CopyOffsets(ofst, 1, mnNt);
    t := Lempar.Tables(n, |g.rules|, action, lookahead, shiftOfst, shiftUseDflt, reduceOfst, reduceUseDflt, dflt,
        Lempar.RuleInfo(g));
    RunOfRows(g, aps, order, num, log, ofst, run.table, run.nAction);
    TableInUse(tab);
    RowsOnSymbols(g, aps, order, num, t);
    assert WrittenAs(g, t, RowsOf(g, aps, order, num), run, ofst);
    ExactTables(g, t, RowsOf(g, aps, order, num));
    RepresentsExactly(g, t, RowsOf(g, aps, order, num));
  }

  lemma TableInUse(tab: Acttabs.Acttab)
    requires tab.Valid()
    ensures Acttabs.InUse(tab.aAction[..], tab.nAction)
  {
  }

  lemma RowsOnSymbols(g: Grammar, aps: seq<seq<Action>>, order: seq<nat>, num: seq<nat>, t: Lempar.Tables)
    requires Packable(g, aps, order, num) && |t.dflt| == |order| && t.nstate == |order| && t.nrule == |g.rules|
    requires forall j: nat | j < |order| :: t.dflt[j] == Code(DefaultAct(g, aps[order[j]]), t.nstate, t.nrule)
    ensures var rows := RowsOf(g, aps, order, num);
      OnSymbols(g, rows) && |rows| == |order|
      && forall k: nat | k < |rows| :: t.dflt[k] == Code(rows[k].otherwise, t.nstate, t.nrule)
  {
    hide Deterministic, Explicit, DefaultAct;
  }

  lemma OffsetCount(g: Grammar, aps: seq<seq<Action>>, order: seq<nat>, num: seq<nat>, run: Run, ofst: seq<Option<int>>)
    requires Packable(g, aps, order, num) && AllInserted(g, aps, order, num, run.log, ofst)
      && run.sorted == AxOrder(g, aps, order)
    ensures |ofst| == 2 * |order| && OffsetsOf(run, ofst)
  {
    hide AxRow, Deterministic;
  }
}

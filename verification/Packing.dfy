/** The table part of ReportTable: the rows of all states are packed with acttab, the longest first, and the constant
  arrays of the driver are written. */
module Packing {
  import opened Options
  import opened Grammars
  import opened Automata
  import opened Sorting
  import opened ActionLists
  import opened Resolve
  import opened Compress
  import opened Report
  import opened Acttabs
  import opened Runs
  import opened PackedRows

  // ---- one row ----

  // Shifts name states by their new numbers.
  function RenameAct(num: seq<nat>, a: Act): Act {
    match a
    case Shift(s) => Shift(if s < |num| then num[s] else s)
    case _ => a
  }

  function CodeOf(num: seq<nat>, nrule: nat, a: Action): nat {
    Code(RenameAct(num, ActOf(a)), |num|, nrule)
  }

  // What acttab_action is called with for the live actions on symbols from lo up to hi.
  function PackRow(ap: seq<Action>, lo: nat, hi: nat, num: seq<nat>, nrule: nat): Row {
    if ap == [] then map[]
    else
      var n := |ap| - 1;
      var row := PackRow(ap[..n], lo, hi, num, nrule);
      if Live(ap[n]) && lo <= ap[n].sp < hi then row[ap[n].sp := CodeOf(num, nrule, ap[n])] else row
  }

  ghost predicate InRow(ap: seq<Action>, lo: nat, hi: nat, la: int) {
    lo <= la < hi && exists a <- ap :: Live(a) && a.sp == la
  }

  lemma {:induction false} PackRowMembers(ap: seq<Action>, lo: nat, hi: nat, num: seq<nat>, nrule: nat)
    requires Deterministic(ap)
    ensures forall la: int :: la in PackRow(ap, lo, hi, num, nrule) <==> InRow(ap, lo, hi, la)
    ensures forall a <- ap | Live(a) && lo <= a.sp < hi ::
      a.sp in PackRow(ap, lo, hi, num, nrule) && PackRow(ap, lo, hi, num, nrule)[a.sp] == CodeOf(num, nrule, a)
  {
    if ap != [] {
      var n := |ap| - 1;
      PackRowMembers(ap[..n], lo, hi, num, nrule);
      assert ap == ap[..n] + [ap[n]];
      forall la: int ensures la in PackRow(ap, lo, hi, num, nrule) <==> InRow(ap, lo, hi, la) {
        assert InRow(ap, lo, hi, la) <==>
            InRow(ap[..n], lo, hi, la)
            || (Live(ap[n]) && lo <= ap[n].sp < hi && la == ap[n].sp);
      }
      forall a | a in ap[..n] && Live(a) && Live(ap[n]) ensures a.sp != ap[n].sp {
        var i :| 0 <= i < n && ap[..n][i] == a;
        assert ap[i] == a;
      }
    }
  }

  // The packed row holds the code of every action in range, and nothing else.
  lemma PackRowMeans(ap: seq<Action>, lo: nat, hi: nat, num: seq<nat>, nrule: nat, la: nat)
    requires Deterministic(ap)
    ensures la in PackRow(ap, lo, hi, num, nrule) <==> lo <= la < hi && Explicit(ap, la).Some?
    ensures la in PackRow(ap, lo, hi, num, nrule) ==>
      PackRow(ap, lo, hi, num, nrule)[la] == Code(RenameAct(num, Explicit(ap, la).value), |num|, nrule)
  {
    PackRowMembers(ap, lo, hi, num, nrule);
    ExplicitMeans(ap, la);
    assert InRow(ap, lo, hi, la) <==> lo <= la < hi && Served(ap, la);
    if InRow(ap, lo, hi, la) {
      var a :| a in ap && Live(a) && a.sp == la;
    }
  }

  // nTknAct and nNtAct are the sizes of the packed rows.
  lemma {:induction false} CountIsSize(ap: seq<Action>, lo: nat, hi: nat, num: seq<nat>, nrule: nat)
    requires Deterministic(ap)
    ensures CountIf(ap, lo, hi) == |PackRow(ap, lo, hi, num, nrule)|
  {
    if ap != [] {
      var n := |ap| - 1;
      CountIsSize(ap[..n], lo, hi, num, nrule);
      hide PackRow, CountIf;
      CountSnoc(ap[..n], ap[n], lo, hi);
      assert ap == ap[..n] + [ap[n]] && ap[..n + 1] == ap;
      PackRowNext(ap, n, lo, hi, num, nrule);
    }
  }

  lemma {:induction false} CountSnoc(ap: seq<Action>, a: Action, lo: nat, hi: nat)
    ensures CountIf(ap + [a], lo, hi) == CountIf(ap, lo, hi) + if Live(a) && lo <= a.sp < hi then 1 else 0
  {
    if ap != [] {
      assert (ap + [a])[1..] == ap[1..] + [a];
      CountSnoc(ap[1..], a, lo, hi);
    }
  }

  // The calls of acttab_action for one row.
  method EnterRow(tab: Acttab, ap: seq<Action>, lo: nat, hi: nat, num: seq<nat>, nrule: nat)
    requires tab.Valid() && tab.Pending() == map[] && Deterministic(ap)
    modifies tab, tab.aLookahead
    ensures tab.Valid() && tab.Pending() == PackRow(ap, lo, hi, num, nrule)
    ensures tab.nAction == old(tab.nAction) && tab.aAction == old(tab.aAction)
      && tab.aAction[..] == old(tab.aAction[..])
    ensures tab.aLookahead == old(tab.aLookahead) || fresh(tab.aLookahead)
  {
    hide Deterministic;
    assert ap[..0] == [];
    for i := 0 to |ap|
      invariant tab.Valid() && tab.Pending() == PackRow(ap[..i], lo, hi, num, nrule)
      invariant tab.nAction == old(tab.nAction) && tab.aAction == old(tab.aAction)
        && tab.aAction[..] == old(tab.aAction[..])
      invariant tab.aLookahead == old(tab.aLookahead) || fresh(tab.aLookahead)
    {
      PackRowNext(ap, i, lo, hi, num, nrule);
      if ap[i].sp < lo || ap[i].sp >= hi { continue; }
      if !Live(ap[i]) { continue; }
      tab.Action(ap[i].sp, CodeOf(num, nrule, ap[i]));
    }
    assert ap[..|ap|] == ap;
  }

  lemma PackRowNext(ap: seq<Action>, i: nat, lo: nat, hi: nat, num: seq<nat>, nrule: nat)
    requires Deterministic(ap) && i < |ap|
    ensures PackRow(ap[..i + 1], lo, hi, num, nrule)
         == (if Live(ap[i]) && lo <= ap[i].sp < hi
             then PackRow(ap[..i], lo, hi, num, nrule)[ap[i].sp := CodeOf(num, nrule, ap[i])]
             else PackRow(ap[..i], lo, hi, num, nrule))
    ensures Live(ap[i]) ==> ap[i].sp !in PackRow(ap[..i], lo, hi, num, nrule)
  {
    assert ap[..i + 1][..i] == ap[..i];
    PackRowMembers(ap[..i], lo, hi, num, nrule);
    assert InRow(ap[..i], lo, hi, ap[i].sp) && Live(ap[i]) ==> false;
  }

  // ---- the order of packing ----

  // Even indices stand for the token rows of the states in their new order, odd ones for the nonterminal rows.
  function AxLow(g: Grammar, i: nat): nat {
    if i % 2 == 0 then 0 else g.nterminal
  }

  function AxHigh(g: Grammar, i: nat): nat {
    if i % 2 == 0 then g.nterminal else g.nsymbol
  }

  function AxCount(g: Grammar, aps: seq<seq<Action>>, order: seq<nat>, i: nat): nat {
    if i < 2 * |order| && order[i / 2] < |aps| then CountIf(aps[order[i / 2]], AxLow(g, i), AxHigh(g, i)) else 0
  }

  // axset_compare: the row with most actions first, then the one entered last.
  function AxLe(g: Grammar, aps: seq<seq<Action>>, order: seq<nat>): (nat, nat) -> bool {
    (a: nat, b: nat) =>
      var na, nb := AxCount(g, aps, order, a), AxCount(g, aps, order, b);
      if na != nb then na > nb else a >= b
  }

  lemma AxPreorder(g: Grammar, aps: seq<seq<Action>>, order: seq<nat>)
    ensures TotalPreorder(AxLe(g, aps, order))
  {
  }

  function AxOrder(g: Grammar, aps: seq<seq<Action>>, order: seq<nat>): (r: seq<nat>)
    ensures |r| == 2 * |order|
  {
    Sort<nat>(UpTo(2 * |order|), AxLe(g, aps, order))
  }

  ghost function AxRow(g: Grammar, aps: seq<seq<Action>>, order: seq<nat>, num: seq<nat>, i: nat): Row
    requires i < 2 * |order| && order[i / 2] < |aps|
  {
    PackRow(aps[order[i / 2]], AxLow(g, i), AxHigh(g, i), num, |g.rules|)
  }

  ghost predicate Packable(g: Grammar, aps: seq<seq<Action>>, order: seq<nat>, num: seq<nat>) {
    && Numbering(order, num) && |order| == |aps|
    && (forall ap <- aps :: Deterministic(ap) && forall a <- ap | Live(a) :: a.sp <= g.nsymbol)
    && g.nterminal <= g.nsymbol
  }

  // The least of 0 and all these offsets.
  ghost predicate Least(mn: int, ofst: seq<Option<int>>, parity: nat) {
    && mn <= 0 && (forall i: nat | i < |ofst| && i % 2 == parity && ofst[i].Some? :: mn <= ofst[i].value)
    && (mn < 0 ==> exists i: nat :: i < |ofst| && i % 2 == parity && ofst[i] == Some(mn))
  }

  lemma LeastNext(mn: int, ofst: seq<Option<int>>, parity: nat, i: nat, o: int)
    requires Least(mn, ofst, parity) && i < |ofst| && ofst[i] == None
    ensures Least(if i % 2 == parity && o < mn then o else mn, ofst[i := Some(o)], parity)
  {
    var ofst' := ofst[i := Some(o)];
    if mn < 0 {
      var k: nat :| k < |ofst| && k % 2 == parity && ofst[k] == Some(mn);
      assert ofst'[k] == Some(mn);
    }
    assert ofst'[i] == Some(o);
  }

  lemma NothingLeast(n: nat, parity: nat)
    ensures Least(0, seq(n, _ => None), parity)
  {
  }

  // The insertions are those of rows in sorted order; each of these has the offset returned, the others have none.
  ghost predicate InSortedOrder(g: Grammar, aps: seq<seq<Action>>, order: seq<nat>, num: seq<nat>, log: seq<Placement>,
                                ofst: seq<Option<int>>, sorted: seq<nat>)
    requires Packable(g, aps, order, num)
  {
    && |sorted| == |ofst| == 2 * |order| && (forall j | 0 <= j < |sorted| :: sorted[j] < |sorted|) && |log| <= |sorted|
    && (forall j | 0 <= j < |log| ::
          log[j].row == AxRow(g, aps, order, num, sorted[j]) && ofst[sorted[j]] == Some(log[j].result.ofst))
    && (forall j | |log| <= j < |sorted| :: ofst[sorted[j]] == None)
  }

  // All rows were inserted but the empty ones.
  ghost predicate AllInserted(g: Grammar, aps: seq<seq<Action>>, order: seq<nat>, num: seq<nat>, log: seq<Placement>,
                              ofst: seq<Option<int>>)
    requires Packable(g, aps, order, num)
  {
    var sorted := AxOrder(g, aps, order);
    && InSortedOrder(g, aps, order, num, log, ofst, sorted)
    && forall j | |log| <= j < |sorted| :: AxRow(g, aps, order, num, sorted[j]) == map[]
  }

  lemma RowsNext(g: Grammar, aps: seq<seq<Action>>, order: seq<nat>, num: seq<nat>, log: seq<Placement>,
                 ofst: seq<Option<int>>, sorted: seq<nat>, p: Placement)
    requires Packable(g, aps, order, num) && InSortedOrder(g, aps, order, num, log, ofst, sorted)
      && AllDifferent(sorted)
    requires |log| < |sorted| && p.row == AxRow(g, aps, order, num, sorted[|log|])
    ensures InSortedOrder(g, aps, order, num, log + [p], ofst[sorted[|log|] := Some(p.result.ofst)], sorted)
  {
  }

  // acttab_action for each action of a row, then acttab_insert.
  method PackOne(tab: Acttab, ap: seq<Action>, lo: nat, hi: nat, num: seq<nat>, nrule: nat, ghost log: seq<Placement>)
    returns (o: int, ghost p: Placement)
    requires tab.Valid() && tab.Pending() == map[] && Deterministic(ap) && CountIf(ap, lo, hi) > 0
    requires Chained(log, tab.aAction[..], tab.nAction)
    modifies tab, tab.aAction, tab.aLookahead
    ensures tab.Valid() && tab.Pending() == map[]
    ensures tab.aAction == old(tab.aAction) || fresh(tab.aAction)
    ensures tab.aLookahead == old(tab.aLookahead) || fresh(tab.aLookahead)
    ensures p.row == PackRow(ap, lo, hi, num, nrule) && p.result.ofst == o
    ensures Chained(log + [p], tab.aAction[..], tab.nAction)
  {
    hide Chained, RowAt, Inserted, HasPlace, Deterministic;
    CountIsSize(ap, lo, hi, num, nrule);
    ghost var before, nActionBefore, row := tab.aAction[..], tab.nAction, PackRow(ap, lo, hi, num, nrule);
    EnterRow(tab, ap, lo, hi, num, nrule);
    ghost var mn, mx := tab.mnLookahead, tab.mxLookahead;
    SomethingPending(tab);
    o := tab.Insert();
    p := Placement(before, nActionBefore, row, mn, mx, Outcome(tab.aAction[..], tab.nAction, o));
    ChainedNext(log, before, nActionBefore, p);
  }

  lemma SomethingPending(tab: Acttab)
    requires tab.Valid() && tab.Pending() != map[]
    ensures tab.nLookahead > 0 && tab.mxLookahead >= 0
  {
  }

  // The insertion loop of ReportTable.
  method PackTables(g: Grammar, aps: seq<seq<Action>>, order: seq<nat>, num: seq<nat>)
    returns (tab: Acttab, ofst: seq<Option<int>>, mnTkn: int, mnNt: int, ghost log: seq<Placement>)
    requires Packable(g, aps, order, num)
    ensures tab.Valid() && Chained(log, tab.aAction[..], tab.nAction) && AllInserted(g, aps, order, num, log, ofst)
    ensures Least(mnTkn, ofst, 0) && Least(mnNt, ofst, 1)
  {
    hide Chained, Deterministic, CountIf, AxRow, Least;
    var n := 2 * |order|;
    var sorted := AxOrder(g, aps, order);
    SortedRows(g, aps, order);
    tab := new Acttab();
    log, ofst, mnTkn, mnNt := [], seq(n, _ => None), 0, 0;
    ChainedEmpty(tab.aAction[..]);
    NothingLeast(n, 0);
    NothingLeast(n, 1);
    var k := 0;
    while k < n && AxCount(g, aps, order, sorted[k]) > 0
      invariant tab.Valid() && tab.Pending() == map[] && Chained(log, tab.aAction[..], tab.nAction)
      invariant fresh(tab) && fresh(tab.aAction) && fresh(tab.aLookahead)
      invariant k == |log| <= n && InSortedOrder(g, aps, order, num, log, ofst, sorted)
      invariant Least(mnTkn, ofst, 0) && Least(mnNt, ofst, 1)
      decreases n - k
    {
      var i := sorted[k];
      assert aps[order[i / 2]] in aps;
      ghost var p;
      var o;
      o, p := PackOne(tab, aps[order[i / 2]], AxLow(g, i), AxHigh(g, i), num, |g.rules|, log);
      assert p.row == AxRow(g, aps, order, num, i) by { RowIs(g, aps, order, num, i); }
      RowsNext(g, aps, order, num, log, ofst, sorted, p);
      log := log + [p];
      LeastNext(mnTkn, ofst, 0, i, o);
      LeastNext(mnNt, ofst, 1, i, o);
      ofst := ofst[i := Some(o)];
      if i % 2 == 0 {
        if o < mnTkn { mnTkn := o; }
      } else {
        if o < mnNt { mnNt := o; }
      }
      k := k + 1;
    }
    RestEmpty(g, aps, order, num, sorted, k);
  }

  lemma SortedRows(g: Grammar, aps: seq<seq<Action>>, order: seq<nat>)
    ensures var sorted := AxOrder(g, aps, order);
      && Ordered(sorted, AxLe(g, aps, order)) && AllDifferent(sorted) && |sorted| == 2 * |order|
      && (forall i: nat :: i in sorted <==> i < |sorted|) && (forall j | 0 <= j < |sorted| :: sorted[j] < |sorted|)
  {
    var all := UpTo(2 * |order|);
    var sorted := AxOrder(g, aps, order);
    UpToMembers(2 * |order|);
    AxPreorder(g, aps, order);
    SortOrders(all, AxLe(g, aps, order));
    SameMembers(sorted, all);
    DistinctPermute(all, sorted);
    forall j | 0 <= j < |sorted| ensures sorted[j] < |sorted| { assert sorted[j] in sorted; }
  }

  lemma RowIs(g: Grammar, aps: seq<seq<Action>>, order: seq<nat>, num: seq<nat>, i: nat)
    requires i < 2 * |order| && order[i / 2] < |aps|
    ensures AxRow(g, aps, order, num, i) == PackRow(aps[order[i / 2]], AxLow(g, i), AxHigh(g, i), num, |g.rules|)
  {
  }

  // Behind the first row without actions there are none with actions.
  lemma RestEmpty(g: Grammar, aps: seq<seq<Action>>, order: seq<nat>, num: seq<nat>, sorted: seq<nat>, k: nat)
    requires Packable(g, aps, order, num) && |sorted| == 2 * |order| && k <= |sorted|
    requires forall j | 0 <= j < |sorted| :: sorted[j] < |sorted|
    requires Ordered(sorted, AxLe(g, aps, order))
    requires k < |sorted| ==> AxCount(g, aps, order, sorted[k]) == 0
    ensures forall j | k <= j < |sorted| :: AxRow(g, aps, order, num, sorted[j]) == map[]
  {
    hide CountIf, PackRow, Deterministic;
    forall j | k <= j < |sorted| ensures AxRow(g, aps, order, num, sorted[j]) == map[] {
      var i := sorted[j];
      assert j > k ==> AxLe(g, aps, order)(sorted[k], sorted[j]);
      assert aps[order[i / 2]] in aps;
      CountIsSize(aps[order[i / 2]], AxLow(g, i), AxHigh(g, i), num, |g.rules|);
    }
  }
}

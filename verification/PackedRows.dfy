/** Rows of actions as acttab packs them, and what the driver then reads: its own actions, its defaults, and actions of
  other rows that were given the same offset. */
module PackedRows {
  import opened Grammars
  import opened Automata
  import opened Sorting
  import opened Acttabs
  import opened Runs
  import Lempar

  // ---- which rows are packed, and in which order ----

  // The actions of a row by their numbers.
  ghost function Coded(acts: map<nat, Act>, nstate: nat, nrule: nat): Row {
    map la: int | la >= 0 && la in acts :: Code(acts[la], nstate, nrule)
  }

  // What is packed for the rows: row 2k for the terminals of state k, row 2k + 1 for its nonterminals.
  ghost function CodedRow(rows: seq<StateRow>, nrule: nat, i: nat): Row {
    if i / 2 >= |rows| then map[]
    else Coded(if i % 2 == 0 then rows[i / 2].onTerminal else rows[i / 2].onNonterminal, |rows|, nrule)
  }

  // Longer rows first, later ones first among those of one length.
  ghost function LongerFirst(rows: seq<StateRow>, nrule: nat): (nat, nat) -> bool {
    (a: nat, b: nat) =>
      if |CodedRow(rows, nrule, a)| != |CodedRow(rows, nrule, b)|
      then |CodedRow(rows, nrule, a)| > |CodedRow(rows, nrule, b)|
      else a >= b
  }

  // 0, 1, ..., n - 1
  function UpTo(n: nat): (r: seq<nat>)
    ensures |r| == n
  {
    seq(n, i requires 0 <= i < n => i)
  }

  lemma UpToMembers(n: nat)
    ensures AllDifferent(UpTo(n)) && forall x: nat :: x in UpTo(n) <==> x < n
  {
    forall x: nat | x < n ensures x in UpTo(n) { assert UpTo(n)[x] == x; }
  }

  // `sorted` lists the rows in the order in which they are packed.
  ghost predicate IsPackingOrder(rows: seq<StateRow>, nrule: nat, sorted: seq<nat>) {
    multiset(sorted) == multiset(UpTo(2 * |rows|)) && Ordered(sorted, LongerFirst(rows, nrule))
  }

  // The insertions are those of all rows that are not empty, in this order.
  ghost predicate InsertsRows(rows: seq<StateRow>, nrule: nat, log: seq<Placement>, sorted: seq<nat>) {
    && |log| <= |sorted| && (forall j | 0 <= j < |log| :: log[j].row == CodedRow(rows, nrule, sorted[j]))
    && forall j | |log| <= j < |sorted| :: CodedRow(rows, nrule, sorted[j]) == map[]
  }

  // What happens when the rows are packed.
  datatype Run = Run(log: seq<Placement>, sorted: seq<nat>, table: seq<Acttabs.Entry>, nAction: nat)

  ghost predicate IsRun(rows: seq<StateRow>, nrule: nat, run: Run) {
    && Chained(run.log, run.table, run.nAction)
    && IsPackingOrder(rows, nrule, run.sorted) && InsertsRows(rows, nrule, run.log, run.sorted)
  }

  lemma OrderMembers(rows: seq<StateRow>, nrule: nat, sorted: seq<nat>)
    requires IsPackingOrder(rows, nrule, sorted)
    ensures |sorted| == 2 * |rows| && AllDifferent(sorted) && forall i: nat :: i in sorted <==> i < 2 * |rows|
  {
    UpToMembers(2 * |rows|);
    SameMembers(sorted, UpTo(2 * |rows|));
    DistinctPermute(UpTo(2 * |rows|), sorted);
    assert |multiset(sorted)| == |multiset(UpTo(2 * |rows|))|;
  }

  lemma OrderUnique(rows: seq<StateRow>, nrule: nat, a: seq<nat>, b: seq<nat>)
    requires IsPackingOrder(rows, nrule, a) && IsPackingOrder(rows, nrule, b)
    ensures a == b
  {
    hide CodedRow;
    OrderedUnique(a, b, LongerFirst(rows, nrule));
  }

  lemma InsertedNotEmpty(log: seq<Placement>, table: seq<Acttabs.Entry>, nAction: nat, j: nat)
    requires Chained(log, table, nAction) && j < |log|
    ensures log[j].row != map[]
  {
    hide Insertion, Inserted;
    assert LinkOK(log, j);
  }

  // The rows decide everything: there is one run for them, at most.
  lemma RunUnique(rows: seq<StateRow>, nrule: nat, a: Run, b: Run)
    requires IsRun(rows, nrule, a) && IsRun(rows, nrule, b)
    ensures a == b
  {
    hide IsPackingOrder, PlacementOK, CodedRow;
    OrderUnique(rows, nrule, a.sorted, b.sorted);
    if |a.log| < |b.log| { InsertedNotEmpty(b.log, b.table, b.nAction, |a.log|); }
    if |b.log| < |a.log| { InsertedNotEmpty(a.log, a.table, a.nAction, |b.log|); }
    RunsDetermined(a.log, b.log);
  }

  // ---- what is read ----

  // The terminals of state k were inserted as number j, at the offset of number m, which has action v for la.
  ghost predicate StrayIn(run: Run, k: nat, la: nat, v: int, j: nat, m: nat) {
    && j < |run.log| && j < |run.sorted| && m < |run.log|
    && run.sorted[j] == 2 * k && run.log[j].result.ofst == run.log[m].result.ofst
    && la !in run.log[j].row && la in run.log[m].row && run.log[m].row[la] == v
  }

  // State k has no action for terminal la, but v is stored where the driver looks for one.
  ghost predicate Stray(rows: seq<StateRow>, nrule: nat, k: nat, la: nat, v: int) {
    exists run, j: nat, m: nat :: IsRun(rows, nrule, run) && StrayIn(run, k, la, v, j, m)
  }

  // What the driver reads from arrays that the rows were packed into.
  ghost predicate ReadsPacked(g: Grammar, t: Lempar.Tables, rows: seq<StateRow>) {
    && Lempar.Carries(g, t, rows) && (exists run :: IsRun(rows, t.nrule, run))
    && (forall k: nat, la: nat, v | k < t.nstate && la < g.nterminal && Stray(rows, t.nrule, k, la, v) ::
          Lempar.FindShiftAction(t, k, la) == v)
    && (forall k: nat, la: nat | k < t.nstate && la < g.nterminal && la !in rows[k].onTerminal
                               && (forall v :: !Stray(rows, t.nrule, k, la, v)) ::
          Lempar.FindShiftAction(t, k, la) == Code(rows[k].otherwise, t.nstate, t.nrule))
  }

  // No terminal of a state without an action for it meets an action of another row, other than the default it stands
  // for.
  ghost predicate Separable(g: Grammar, rows: seq<StateRow>) {
    forall k: nat, la: nat, v | k < |rows| && la < g.nterminal && Stray(rows, |g.rules|, k, la, v) ::
      v == Code(rows[k].otherwise, |rows|, |g.rules|)
  }

  // The arrays mean what the rows mean if and only if nothing strays and no rule is too long for yyRuleInfo.
  lemma RepresentsExactly(g: Grammar, t: Lempar.Tables, rows: seq<StateRow>)
    requires ReadsPacked(g, t, rows)
    ensures Lempar.Represents(g, t, rows) <==> Separable(g, rows) && Lempar.ShortRules(g)
  {
    hide Stray;
    forall k: nat, la: nat, v | k < |rows| && Stray(rows, |g.rules|, k, la, v) ensures la !in rows[k].onTerminal {
      StrayMissing(rows, |g.rules|, k, la, v);
    }
    Lempar.RuleInfoExact(g);
    if Lempar.Represents(g, t, rows) {
      forall k: nat, la: nat, v | k < |rows| && la < g.nterminal && Stray(rows, |g.rules|, k, la, v)
        ensures v == Code(rows[k].otherwise, |rows|, |g.rules|)
      {
        assert Lempar.FindShiftAction(t, k, la) == Code(TerminalAct(rows[k], la), t.nstate, t.nrule);
      }
    }
    if Separable(g, rows) {
      forall k: nat, la: nat | k < t.nstate && la < g.nterminal
        ensures Lempar.FindShiftAction(t, k, la) == Code(TerminalAct(rows[k], la), t.nstate, t.nrule)
      {
        if la !in rows[k].onTerminal {
          if v :| Stray(rows, t.nrule, k, la, v) {
            assert v == Code(rows[k].otherwise, |rows|, |g.rules|);
          }
        }
      }
    }
  }

  lemma StrayMissing(rows: seq<StateRow>, nrule: nat, k: nat, la: nat, v: int)
    requires Stray(rows, nrule, k, la, v) && k < |rows|
    ensures la !in rows[k].onTerminal
  {
    hide Chained, IsPackingOrder, CodedRow;
    var run, j: nat, m: nat :| IsRun(rows, nrule, run) && StrayIn(run, k, la, v, j, m);
    assert run.log[j].row == CodedRow(rows, nrule, 2 * k);
    CodedRows(rows, nrule, k);
  }

  lemma CodedRows(rows: seq<StateRow>, nrule: nat, k: nat)
    requires k < |rows|
    ensures CodedRow(rows, nrule, 2 * k) == Coded(rows[k].onTerminal, |rows|, nrule)
    ensures CodedRow(rows, nrule, 2 * k + 1) == Coded(rows[k].onNonterminal, |rows|, nrule)
  {
    hide Coded;
  }

  // Where every insertion finds a place nothing strays.
  lemma PlacedSeparates(g: Grammar, rows: seq<StateRow>, run: Run)
    requires IsRun(rows, |g.rules|, run) && AllPlaced(run.log)
    ensures Separable(g, rows)
  {
    hide Chained, IsPackingOrder, InsertsRows, RowAt, AllPlaced;
    forall k: nat, la: nat, v | k < |rows| && la < g.nterminal && Stray(rows, |g.rules|, k, la, v) ensures false {
      var other, j: nat, m: nat :| IsRun(rows, |g.rules|, other) && StrayIn(other, k, la, v, j, m);
      RunUnique(rows, |g.rules|, run, other);
      assert run.log[j] in run.log && run.log[m] in run.log;
      PackingIsExact(run.log, run.table, run.nAction);
    }
  }
}

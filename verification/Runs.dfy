/** Runs of acttab_insert, from the empty table on: what they leave behind, and when every row can be read back. */
module Runs {
  import opened Options
  import opened Acttabs

  // ---- a run of insertions ----

  // One call of acttab_insert: the table before, the row with its least and greatest look-ahead, and what came of it.
  datatype Placement = Placement(before: seq<Entry>, nAction: nat, row: Row, mn: int, mx: nat, result: Outcome)

  ghost predicate PlacementOK(p: Placement) {
    && p.mn in p.row && Bounds(p.row, p.mn, p.row[p.mn], p.mx)
    && p.result == Insertion(p.before, p.nAction, p.row, p.mn, p.mx)
    && Inserted(p.before, p.nAction, p.row, p.mn, p.mx, p.result.table, p.result.ofst)
  }

  ghost predicate HadPlace(p: Placement) {
    HasPlace(p.before, p.nAction, p.row, p.mn, p.mx)
  }

  // A run of insertions that begins with the empty table and ends with `table`, of which nAction slots are used.
  ghost predicate Chained(log: seq<Placement>, table: seq<Entry>, nAction: nat) {
    && (forall i: nat | i < |log| :: LinkOK(log, i))
    && table == TableAfter(log, |log|) && nAction == UsedAfter(log, |log|)
  }

  ghost predicate LinkOK(log: seq<Placement>, i: nat)
    requires i < |log|
  {
    PlacementOK(log[i]) && log[i].before == TableAfter(log, i) && log[i].nAction == UsedAfter(log, i)
  }

  // The table after the first i insertions, and how many slots are used.
  ghost function TableAfter(log: seq<Placement>, i: nat): seq<Entry>
    requires i <= |log|
  {
    if i == 0 then [] else log[i - 1].result.table
  }

  ghost function UsedAfter(log: seq<Placement>, i: nat): nat
    requires i <= |log|
  {
    if i == 0 then 0 else log[i - 1].result.nAction
  }

  // The rows decide what happens: there is one run for them, at most.
  lemma {:induction false} RunsDetermined(a: seq<Placement>, b: seq<Placement>)
    requires |a| == |b| && (forall i | 0 <= i < |a| :: a[i].row == b[i].row)
    requires forall i: nat | i < |a| :: LinkOK(a, i) && LinkOK(b, i)
    ensures a == b
    decreases |a|
  {
    hide Insertion, Inserted;
    if a != [] {
      var n := |a| - 1;
      forall i: nat | i < n ensures LinkOK(a[..n], i) && LinkOK(b[..n], i) { assert LinkOK(a, i) && LinkOK(b, i); }
      RunsDetermined(a[..n], b[..n]);
      assert LinkOK(a, n) && LinkOK(b, n);
      assert n > 0 ==> a[n - 1] == a[..n][n - 1] && b[n - 1] == b[..n][n - 1];
      assert a == a[..n] + [a[n]] && b == b[..n] + [b[n]];
    }
  }

  ghost predicate AllPlaced(log: seq<Placement>) {
    forall p <- log :: HadPlace(p)
  }

  // Any run of insertions: in the end all rows are read back exactly at the offsets returned if and only if each
  // insertion found a place.
  lemma {:induction false} PackingIsExact(log: seq<Placement>, table: seq<Entry>, nAction: nat)
    requires Chained(log, table, nAction)
    ensures AllPlaced(log) <==> forall p <- log :: RowAt(table, p.result.ofst) == p.row
    ensures forall p <- log :: RowOfPlacementKept(table, p)
    decreases |log|
  {
    hide RowAt, HadPlace, Chained, PlacementOK, RowOfPlacementKept;
    if log != [] {
      var n := |log| - 1;
      var last := log[n];
      ChainedPrefix(log, table, nAction);
      PackingIsExact(log[..n], last.before, last.nAction);
      assert log == log[..n] + [last];
      forall p | p in log ensures RowOfPlacementKept(table, p) {
        PlacementKeeps(last, p, p in log[..n]);
      }
      forall p | p in log && RowAt(table, p.result.ofst) == p.row ensures HadPlace(p) {
        OnlyItsRow(table, p);
      }
      forall p | p in log && AllPlaced(log) ensures RowAt(table, p.result.ofst) == p.row {
        if p in log[..n] {
          forall q | q in log[..n] ensures HadPlace(q) { assert q in log; }
          KeptIsOK(last.before, p);
          PlacementExact(last, p, true);
        } else {
          PlacementExact(last, p, false);
        }
      }
    }
  }

  // The m-th row inserted has an entry for la, and offset o.
  ghost predicate InsertedAt(log: seq<Placement>, m: int, o: int, la: int) {
    0 <= m < |log| && log[m].result.ofst == o && la in log[m].row
  }

  // At every offset the table holds what was inserted there, and nothing else.
  lemma {:induction false} TableIsUnion(log: seq<Placement>, table: seq<Entry>, nAction: nat, o: int, la: int)
    requires Chained(log, table, nAction)
    ensures la in RowAt(table, o) <==> exists m :: InsertedAt(log, m, o, la)
    ensures forall m | InsertedAt(log, m, o, la) :: RowAt(table, o)[la] == log[m].row[la]
    decreases |log|
  {
    if log == [] {
      ChainedNone(log, table, nAction);
    } else {
      hide Chained, PlacementOK, RowAt, InsertedAt;
      var n := |log| - 1;
      ChainedPrefix(log, table, nAction);
      TableIsUnion(log[..n], log[n].before, log[n].nAction, o, la);
      UnionStep(log, n, o, la);
      forall m | InsertedAt(log, m, o, la) ensures la in RowAt(table, o) && RowAt(table, o)[la] == log[m].row[la] {
        InsertedBefore(log, n, m, o, la);
      }
      if la in RowAt(table, o) {
        if m :| InsertedAt(log[..n], m, o, la) { InsertedBefore(log, n, m, o, la); }
      }
    }
  }

  lemma InsertedBefore(log: seq<Placement>, n: nat, m: int, o: int, la: int)
    requires |log| == n + 1
    ensures InsertedAt(log, m, o, la) <==> InsertedAt(log[..n], m, o, la) || (m == n && InsertedAt(log, n, o, la))
    ensures InsertedAt(log[..n], m, o, la) ==> log[m] == log[..n][m]
  {
  }

  // What the last insertion changes at offset o.
  lemma UnionStep(log: seq<Placement>, n: nat, o: int, la: int)
    requires |log| == n + 1 && PlacementOK(log[n])
    ensures la in RowAt(log[n].result.table, o) <==> la in RowAt(log[n].before, o) || InsertedAt(log, n, o, la)
    ensures la in RowAt(log[n].before, o) ==> RowAt(log[n].result.table, o)[la] == RowAt(log[n].before, o)[la]
    ensures InsertedAt(log, n, o, la) ==> RowAt(log[n].result.table, o)[la] == log[n].row[la]
  {
    hide Insertion, RowAt, HasPlace;
  }

  lemma ChainedNone(log: seq<Placement>, table: seq<Entry>, nAction: nat)
    requires Chained(log, table, nAction) && log == []
    ensures table == [] && forall o :: RowAt(table, o) == map[]
  {
  }

  // One insertion more: what was stored stays, ...
  lemma PlacementKeeps(last: Placement, p: Placement, earlier: bool)
    requires PlacementOK(last) && if earlier then RowOfPlacementKept(last.before, p) else p == last
    ensures RowOfPlacementKept(last.result.table, p)
  {
    hide RowAt, HasPlace;
  }

  // ... and what was exact stays exact, if there was a place.
  lemma PlacementExact(last: Placement, p: Placement, earlier: bool)
    requires PlacementOK(last) && HadPlace(last) && if earlier then RowAt(last.before, p.result.ofst) == p.row
      && PlacementOK(p) else p == last
    ensures RowAt(last.result.table, p.result.ofst) == p.row
  {
    hide RowAt, HasPlace;
    if earlier {
      InsertionKeepsRows(last.before, last.nAction, last.row, last.mn, last.mx, last.result.table, last.result.ofst,
          [(p.result.ofst, p.row)]);
    }
  }

  lemma ChainedPrefix(log: seq<Placement>, table: seq<Entry>, nAction: nat)
    requires Chained(log, table, nAction) && log != []
    ensures Chained(log[..|log| - 1], log[|log| - 1].before, log[|log| - 1].nAction)
    ensures PlacementOK(log[|log| - 1]) && table == log[|log| - 1].result.table
  {
    hide PlacementOK, TableAfter, UsedAfter;
    var n := |log| - 1;
    TableAfterNext(log[..n], log[n]);
    assert log[..n] + [log[n]] == log;
    assert LinkOK(log, n);
    forall i: nat | i < n ensures LinkOK(log[..n], i) { assert LinkOK(log, i); }
  }

  lemma TableAfterNext(log: seq<Placement>, p: Placement)
    ensures forall i: nat | i <= |log| ::
      TableAfter(log + [p], i) == TableAfter(log, i)
      && UsedAfter(log + [p], i) == UsedAfter(log, i)
    ensures TableAfter(log + [p], |log + [p]|) == p.result.table
      && UsedAfter(log + [p], |log + [p]|) == p.result.nAction
  {
  }

  lemma ChainedNext(log: seq<Placement>, table: seq<Entry>, nAction: nat, p: Placement)
    requires Chained(log, table, nAction) && PlacementOK(p) && p.before == table && p.nAction == nAction
    ensures Chained(log + [p], p.result.table, p.result.nAction)
  {
    hide PlacementOK, TableAfter, UsedAfter;
    var log' := log + [p];
    TableAfterNext(log, p);
    forall i: nat | i < |log'| ensures LinkOK(log', i) {
      if i < |log| { assert LinkOK(log, i); }
    }
  }

  lemma ChainedEmpty(table: seq<Entry>)
    requires |table| == 0
    ensures Chained([], table, 0)
  {
  }

  // Whatever is stored at an offset right after an insertion stays.
  ghost predicate RowOfPlacementKept(table: seq<Entry>, p: Placement) {
    SubRow(RowAt(p.result.table, p.result.ofst), RowAt(table, p.result.ofst)) && PlacementOK(p)
  }

  lemma KeptIsOK(table: seq<Entry>, p: Placement)
    requires RowOfPlacementKept(table, p)
    ensures PlacementOK(p)
  {
  }

  lemma OnlyItsRow(table: seq<Entry>, p: Placement)
    requires RowOfPlacementKept(table, p) && RowAt(table, p.result.ofst) == p.row
    ensures HadPlace(p)
  {
    hide RowAt, HasPlace;
    var stored := RowAt(p.result.table, p.result.ofst);
    assert stored == RowAt(p.before, p.result.ofst) + p.row;
    forall la ensures la in stored.Keys <==> la in p.row.Keys { assert la in stored ==> la in p.row; }
    assert stored == p.row;
  }

  // ---- a run that goes wrong ----

  // The table after k insertions of rows {0: 0}, {0: 1}, and so on: one slot each.
  function Crowding(k: nat): seq<Entry>
    requires k <= 16
  {
    if k == 0 then [] else seq(k, i => Entry(0, i)) + seq(21 - k, _ => FREE)
  }

  function CrowdingStep(k: nat): Placement
    requires k < 16
  {
    Placement(Crowding(k), k, map[0 := k], 0, 0, Outcome(Crowding(k + 1), k + 1, k))
  }

  lemma CrowdingRow(k: nat, o: int)
    requires k <= 16
    ensures RowAt(Crowding(k), o) == if 0 <= o < k then map[0 := o] else map[]
  {
    var table := Crowding(k);
    forall la: int ensures Holds(table, o, la) <==> la == 0 && 0 <= o < k {}
    forall la: int ensures la in RowAt(table, o) <==> Holds(table, o, la) {}
  }

  function CrowdingTable(k: nat): seq<Entry>
    requires k <= 16
  {
    seq(k, i => Entry(0, i)) + seq(21 - k, _ => FREE)
  }

  lemma CrowdingGrown(k: nat)
    requires k < 16
    ensures Grown(Crowding(k), GrownSize(|Crowding(k)|, k, 0)) == CrowdingTable(k)
  {
  }

  lemma CrowdingFits(k: nat, row: Row)
    requires k < 16 && row == map[0 := k]
    ensures FitsAt(CrowdingTable(k), k, row, 0, k)
    ensures forall m | 0 <= m < k :: !FitsAt(CrowdingTable(k), k, row, 0, m)
    ensures Written(CrowdingTable(k), row, k) == Crowding(k + 1)
  {
    var grown := CrowdingTable(k);
    assert SlotsFree(grown, row, 0, k) && NothingAt(grown, k, k);
    forall m | 0 <= m < k ensures !FitsAt(grown, k, row, 0, m) {
      assert 0 in row && !SlotFree(grown, 0, m, 0);
    }
  }

  lemma CrowdingUnstored(k: nat, m: nat)
    requires m < k < 16
    ensures !StoredAt(CrowdingTable(k), map[0 := k], 0, m)
  {
    hide RowAt;
    assert CrowdingTable(k) == Crowding(k);
    CrowdingRow(k, m);
    assert map[0 := m][0] != map[0 := k][0];
  }

  lemma CrowdingOutcome(k: nat)
    requires k < 16
    ensures HasPlace(Crowding(k), k, map[0 := k], 0, 0)
    ensures Insertion(Crowding(k), k, map[0 := k], 0, 0) == Outcome(Crowding(k + 1), k + 1, k)
  {
    hide RowAt, FitsAt, StoredAt, Written, Grown, Crowding;
    var row, grown := map[0 := k], CrowdingTable(k);
    CrowdingGrown(k);
    CrowdingFits(k, row);
    forall m: nat | m < k ensures !StoredAt(grown, row, 0, m) { CrowdingUnstored(k, m); }
    LastStoredIs(grown, row, 0, k, -1);
    FirstFitIs(grown, k, row, 0, 21, k);
    assert 0 <= k < |grown| - 0;
  }

  lemma CrowdingInserted(k: nat)
    requires k < 16
    ensures PlacementOK(CrowdingStep(k)) && HadPlace(CrowdingStep(k))
  {
    hide Insertion, FitsAt, RowAt, HasPlace;
    var before, after, row := Crowding(k), Crowding(k + 1), map[0 := k];
    forall p: int ensures RowAt(after, p) == if p == k then RowAt(before, p) + row else RowAt(before, p) {
      CrowdingRow(k, p);
      CrowdingRow(k + 1, p);
    }
    CrowdingRow(k, k);
    CrowdingRow(k + 1, k);
    CrowdingOutcome(k);
    assert RowAt(after, k) == map[] + row == row;
  }

  // After these the row {3: 99} finds no place: the search gives up in slot 18, at offset 15, which is taken.
  function GivenUp(): Placement {
    Placement(Crowding(16), 16, map[3 := 99], 3, 3, Outcome(Crowding(16)[18 := Entry(3, 99)], 19, 15))
  }

  lemma GivenUpOutcome()
    ensures Insertion(Crowding(16), 16, map[3 := 99], 3, 3) == GivenUp().result
  {
    hide RowAt, FitsAt;
    var table, row := Crowding(16), map[3 := 99];
    assert table == CrowdedTable() && Grown(table, GrownSize(|table|, 16, 3)) == table;
    GivingUpMisreads();
    forall m | 0 <= m < 16 ensures !StoredAt(table, row, 3, m) {}
    LastStoredIs(table, row, 3, 16, -1);
    FirstFitIs(table, 16, row, 3, 18, 18);
    assert Written(table, row, 15) == GivenUp().result.table;
  }

  lemma GivenUpInserted()
    ensures PlacementOK(GivenUp()) && !HadPlace(GivenUp())
    ensures Lookup(GivenUp().result.table, 15, 0) == Some(15)
  {
    hide HasPlace, RowAt, Insertion;
    var before, after, row := Crowding(16), GivenUp().result.table, map[3 := 99];
    assert before == CrowdedTable();
    GivingUpMisreads();
    GivenUpOutcome();
    forall p: int ensures RowAt(after, p) == if p == 15 then RowAt(before, p) + row else RowAt(before, p) {
      GivenUpRow(p);
    }
    CrowdingRow(16, 15);
    assert 0 in RowAt(after, 15) && 0 !in row && 3 in row;
  }

  lemma GivenUpRow(o: int)
    ensures RowAt(GivenUp().result.table, o) == if o == 15 then RowAt(Crowding(16), o) + map[3 := 99]
      else RowAt(Crowding(16), o)
  {
    var before, after := Crowding(16), GivenUp().result.table;
    forall la: int ensures Holds(after, o, la) <==> Holds(before, o, la) || (o == 15 && la == 3) {}
    forall la: int ensures la in RowAt(after, o) <==> Holds(after, o, la) {}
    forall la: int ensures la in RowAt(before, o) <==> Holds(before, o, la) {}
    assert !Holds(before, 15, 3);
  }

  // Seventeen insertions, beginning with the empty table: the last one finds no place, and at its offset the driver
  // reads an action that belongs to another row.  So runs that are not exact can really happen.
  lemma ExactnessCanFail() returns (log: seq<Placement>)
    ensures |log| == 17 && Chained(log, log[16].result.table, log[16].result.nAction)
    ensures (forall i | 0 <= i < 16 :: HadPlace(log[i])) && !HadPlace(log[16])
    ensures 0 !in log[16].row && Lookup(log[16].result.table, log[16].result.ofst, 0) == Some(15)
  {
    hide PlacementOK, HadPlace, RowAt;
    var rows := seq(16, k requires 0 <= k < 16 => CrowdingStep(k));
    log := rows + [GivenUp()];
    GivenUpInserted();
    forall i: nat | i < |log| ensures LinkOK(log, i) && (i < 16 ==> HadPlace(log[i])) {
      if i < 16 { CrowdingInserted(i); }
    }
  }
}

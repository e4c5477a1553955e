/** The acttab module: packing sparse action rows into one array (row displacement).

  The entry at slot j with look-ahead la belongs to the row at offset j - la, and to no other.
  So an array is the same thing as a family of rows, one for every offset. */
module Acttabs {
  import opened Numbers
  import opened Options

  datatype Entry = Entry(lookahead: int, action: int)

  const FREE := Entry(-1, -1)

  type Row = map<int, int>

  // The entry of look-ahead la in the row at offset o.
  predicate Holds(table: seq<Entry>, o: int, la: int) {
    0 <= la && 0 <= o + la < |table| && table[o + la].lookahead == la
  }

  // The row an array stores at offset o.
  function RowAt(table: seq<Entry>, o: int): Row {
    map la: int | -o <= la < |table| - o && Holds(table, o, la) :: table[o + la].action
  }

  // What the driver reads: one probe, then a comparison of the stored look-ahead.
  function Lookup(table: seq<Entry>, o: int, la: nat): Option<int> {
    var i := o + la;
    if i < 0 || i >= |table| || table[i].lookahead != la then None else Some(table[i].action)
  }

  lemma LookupIsRow(table: seq<Entry>, o: int, la: nat)
    ensures Lookup(table, o, la) == if la in RowAt(table, o) then Some(RowAt(table, o)[la]) else None
  {
    assert la in RowAt(table, o) <==> Holds(table, o, la);
  }

  // A write to a free slot extends one row and leaves all others.
  lemma WriteFree(table: seq<Entry>, k: nat, e: Entry, o: int)
    requires k < |table| && table[k].lookahead < 0 && e.lookahead >= 0
    ensures RowAt(table[k := e], o)
         == if o == k - e.lookahead then RowAt(table, o)[e.lookahead := e.action] else RowAt(table, o)
  {
  }

  // Slots that hold nothing hold no row either.
  lemma FreeTail(table: seq<Entry>, longer: seq<Entry>, o: int)
    requires table <= longer && forall j | |table| <= j < |longer| :: longer[j].lookahead < 0
    ensures RowAt(longer, o) == RowAt(table, o)
  {
    forall la ensures Holds(longer, o, la) == Holds(table, o, la) {}
  }

  // The number of the first j slots that belong to offset o.
  ghost function RowSize(table: seq<Entry>, j: nat, o: int): nat
    requires j <= |table|
  {
    |RowAt(table[..j], o)|
  }

  lemma RowSizeStep(table: seq<Entry>, j: nat, o: int)
    requires j < |table|
    ensures RowSize(table, 0, o) == 0
    ensures RowSize(table, j + 1, o)
         == RowSize(table, j, o) + if table[j].lookahead >= 0 && j - table[j].lookahead == o then 1 else 0
  {
    var la := table[j].lookahead;
    if la >= 0 && j - la == o {
      assert RowAt(table[..j + 1], o) == RowAt(table[..j], o)[la := table[j].action];
      assert la !in RowAt(table[..j], o);
    } else {
      assert RowAt(table[..j + 1], o) == RowAt(table[..j], o);
    }
  }

  // ---- a transaction: the look-ahead/action pairs of one row, in the order they were added ----

  ghost predicate DistinctLookaheads(tx: seq<Entry>) {
    && (forall e <- tx :: e.lookahead >= 0)
    && (forall i, j | 0 <= i < j < |tx| :: tx[i].lookahead != tx[j].lookahead)
  }

  ghost function TxRow(tx: seq<Entry>): Row {
    if tx == [] then map[]
    else var e := tx[|tx| - 1]; TxRow(tx[..|tx| - 1])[e.lookahead := e.action]
  }

  lemma {:induction false} TxRowMembers(tx: seq<Entry>)
    requires DistinctLookaheads(tx)
    ensures |TxRow(tx)| == |tx|
    ensures forall e <- tx :: e.lookahead in TxRow(tx) && TxRow(tx)[e.lookahead] == e.action
    ensures forall la | la in TxRow(tx) :: la >= 0 && Entry(la, TxRow(tx)[la]) in tx
  {
    if tx != [] {
      var n := |tx| - 1;
      var row, e0 := TxRow(tx[..n]), tx[n];
      DistinctPrefix(tx);
      TxRowMembers(tx[..n]);
      assert tx == tx[..n] + [e0];
      forall la | la in row ensures la != e0.lookahead {
        var i :| 0 <= i < n && tx[..n][i] == Entry(la, row[la]);
        assert tx[i].lookahead == la;
      }
      hide TxRow;
      assert TxRow(tx) == row[e0.lookahead := e0.action];
    }
  }

  lemma TxRowSize(tx: seq<Entry>)
    requires DistinctLookaheads(tx)
    ensures |TxRow(tx)| == |tx|
  {
    TxRowMembers(tx);
  }

  lemma DistinctPrefix(tx: seq<Entry>)
    requires DistinctLookaheads(tx) && tx != []
    ensures DistinctLookaheads(tx[..|tx| - 1])
  {
    forall e | e in tx[..|tx| - 1] ensures e in tx {}
  }

  // A sub-row with as many members is the whole row.
  lemma SubRowSameSize(small: Row, big: Row)
    requires |small| == |big| && forall la | la in small :: la in big && big[la] == small[la]
    ensures small == big
  {
    forall la | la in small.Keys ensures la in big.Keys { assert la in small; }
    if small.Keys != big.Keys {
      SubsetSmaller(small.Keys, big.Keys);
    }
    forall la | la in small.Keys ensures small[la] == big[la] { assert la in small; }
  }

  lemma SubsetSmaller(a: set<int>, b: set<int>)
    requires a < b
    ensures |a| < |b|
  {
    assert b == a + (b - a);
    assert |b| == |a| + |b - a|;
  }

  // ---- where a row may go ----

  // The first nAction slots are in use, up to holes; the last of them is no hole.
  ghost predicate InUse(table: seq<Entry>, nAction: nat) {
    && nAction <= |table|
    && (forall j | 0 <= j < |table| :: table[j].lookahead >= -1)
    && (forall j | nAction <= j < |table| :: table[j].lookahead == -1)
    && (nAction > 0 ==> table[nAction - 1].lookahead >= 0)
  }

  // Slot i takes the least look-ahead mn, every other slot needed is free, and no slot in use
  // looks as if it belonged to offset i - mn.  A hole stores look-ahead -1 and takes part in the last test.
  ghost predicate FitsAt(table: seq<Entry>, nAction: nat, row: Row, mn: int, i: int) {
    SlotsFree(table, row, mn, i) && NothingAt(table, nAction, i - mn)
  }

  ghost predicate NoFitBelow(table: seq<Entry>, nAction: nat, row: Row, mn: int, i: nat) {
    forall m | 0 <= m < i :: !FitsAt(table, nAction, row, mn, m)
  }

  ghost predicate SlotFree(table: seq<Entry>, mn: int, i: int, la: int) {
    0 <= i + la - mn < |table| && table[i + la - mn].lookahead < 0
  }

  ghost predicate SlotsFree(table: seq<Entry>, row: Row, mn: int, i: int) {
    forall la | la in row :: SlotFree(table, mn, i, la)
  }

  ghost predicate NothingAt(table: seq<Entry>, nAction: nat, o: int) {
    forall j | 0 <= j < nAction && j < |table| :: table[j].lookahead != j - o
  }

  // The size of the array once a row with greatest look-ahead mx can be appended.
  function GrownSize(alloc: nat, nAction: nat, mx: nat): nat {
    if nAction + mx + 1 >= alloc then nAction + mx + 1 + alloc + 20 else alloc
  }

  ghost function Grown(table: seq<Entry>, alloc: nat): seq<Entry>
    requires |table| <= alloc
  {
    table + seq(alloc - |table|, _ => FREE)
  }

  ghost predicate SubRow(small: Row, big: Row) {
    forall la | la in small :: la in big && big[la] == small[la]
  }

  // Seen before the call: the row is already stored somewhere, or the search can end at a fitting slot,
  // or the slot at which the search gives up happens to be at an unused offset.
  ghost predicate HasPlaceIn(table: seq<Entry>, nAction: nat, row: Row, mn: int, mx: nat) {
    || (exists o :: RowAt(table, o) == row)
    || (exists i | 0 <= i < |table| - mx :: FitsAt(table, nAction, row, mn, i))
    || RowAt(table, |table| - mx - mn) == map[]
  }

  ghost predicate HasPlace(table: seq<Entry>, nAction: nat, row: Row, mn: int, mx: nat) {
    HasPlaceIn(Grown(table, GrownSize(|table|, nAction, mx)), nAction, row, mn, mx)
  }

  // ---- where a row goes ----

  // The row is stored with its least look-ahead in slot i.
  ghost predicate StoredAt(table: seq<Entry>, row: Row, mn: int, i: int) {
    RowAt(table, i - mn) == row
  }

  // The last slot below n from which the row is stored; -1 if there is none.
  ghost function LastStored(table: seq<Entry>, row: Row, mn: int, n: nat): (i: int)
    ensures -1 <= i < n && (i >= 0 ==> StoredAt(table, row, mn, i))
    ensures forall m | i < m < n :: !StoredAt(table, row, mn, m)
  {
    if n == 0 then -1 else if StoredAt(table, row, mn, n - 1) then n - 1 else LastStored(table, row, mn, n - 1)
  }

  // The first slot from i up to stop from which the row fits; stop if there is none.
  ghost function FirstFit(table: seq<Entry>, nAction: nat, row: Row, mn: int, i: nat, stop: nat): (f: nat)
    requires i <= stop
    ensures i <= f <= stop && (f < stop ==> FitsAt(table, nAction, row, mn, f))
    ensures forall m | i <= m < f :: !FitsAt(table, nAction, row, mn, m)
    decreases stop - i
  {
    if i == stop || FitsAt(table, nAction, row, mn, i) then i else FirstFit(table, nAction, row, mn, i + 1, stop)
  }

  // The slot of the least look-ahead: where the row is stored already, else where it fits, else where the search ends.
  ghost function SlotFor(table: seq<Entry>, nAction: nat, row: Row, mn: int, mx: nat): nat
    requires mx <= |table|
  {
    var stored := LastStored(table, row, mn, nAction);
    if stored >= 0 then stored else FirstFit(table, nAction, row, mn, 0, |table| - mx)
  }

  ghost function Written(table: seq<Entry>, row: Row, o: int): seq<Entry> {
    seq(|table|, j requires 0 <= j < |table| => if j - o in row then Entry(j - o, row[j - o]) else table[j])
  }

  // The table, the number of slots used, and the offset of the row.
  datatype Outcome = Outcome(table: seq<Entry>, nAction: nat, ofst: int)

  ghost function PlacedIn(table: seq<Entry>, nAction: nat, row: Row, mn: int, mx: nat): Outcome
    requires mx <= |table|
  {
    var slot := SlotFor(table, nAction, row, mn, mx);
    Outcome(Written(table, row, slot - mn), Max(nAction, slot + mx - mn + 1), slot - mn)
  }

  // acttab_insert
  ghost function Insertion(table: seq<Entry>, nAction: nat, row: Row, mn: int, mx: nat): Outcome {
    PlacedIn(Grown(table, GrownSize(|table|, nAction, mx)), nAction, row, mn, mx)
  }

  class Acttab {
    var nAction: nat                // used slots of aAction
    var aAction: array<Entry>       // the table under construction
    var aLookahead: array<Entry>    // the row under construction
    var nLookahead: nat
    var mnLookahead: int
    var mnAction: int
    var mxLookahead: int

    ghost predicate Valid()
      reads this, aAction, aLookahead
    {
      && aAction != aLookahead
      && InUse(aAction[..], nAction)
      && nLookahead <= aLookahead.Length
      && TxValid(aLookahead[..nLookahead], mnLookahead, mnAction, mxLookahead)
    }

    // The row being collected.
    ghost function Pending(): Row
      requires nLookahead <= aLookahead.Length
      reads this, aLookahead
    {
      TxRow(aLookahead[..nLookahead])
    }

    constructor ()
      ensures Valid() && fresh(aAction) && fresh(aLookahead)
      ensures Pending() == map[] && nAction == 0 && aAction.Length == 0
    {
      nAction, nLookahead := 0, 0;
      mnLookahead, mnAction, mxLookahead := 0, 0, 0;
      aAction := new Entry[0];
      aLookahead := new Entry[0];
      new;
    }

    // realloc of aLookahead: 25 more slots, contents kept.
    method GrowLookahead()
      requires Valid() && nLookahead == aLookahead.Length
      modifies this`aLookahead
      ensures Valid() && fresh(aLookahead) && nLookahead < aLookahead.Length
      ensures aLookahead[..nLookahead] == old(aLookahead[..nLookahead])
    {
      var larger := new Entry[aLookahead.Length + 25](_ => FREE);
      for i := 0 to nLookahead
        invariant larger[..i] == aLookahead[..i]
        modifies larger
      {
        larger[i] := aLookahead[i];
      }
      aLookahead := larger;
    }

    // The running minimum and maximum of the row, with the action at the minimum.
    method NoteBounds(lookahead: nat, action: int)
      requires Valid() && lookahead !in Pending()
      modifies this`mnLookahead, this`mnAction, this`mxLookahead
      ensures Bounds(Pending()[lookahead := action], mnLookahead, mnAction, mxLookahead)
    {
      if nLookahead == 0 {
        mxLookahead, mnLookahead, mnAction := lookahead, lookahead, action;
      } else {
        BoundsSnoc(Pending(), lookahead, action, mnLookahead, mnAction, mxLookahead);
        if mxLookahead < lookahead { mxLookahead := lookahead; }
        if mnLookahead > lookahead { mnLookahead, mnAction := lookahead, action; }
      }
    }

    // Adds one look-ahead to the row under construction.
    method Action(lookahead: nat, action: int)
      requires Valid() && lookahead !in Pending()
      modifies this, aLookahead
      ensures Valid() && Pending() == old(Pending())[lookahead := action]
      ensures nAction == old(nAction) && aAction == old(aAction) && aAction[..] == old(aAction[..])
      ensures aLookahead == old(aLookahead) || fresh(aLookahead)
    {
      hide InUse, TxRow, DistinctLookaheads, Bounds;
      ghost var tx := aLookahead[..nLookahead];
      if nLookahead >= aLookahead.Length { GrowLookahead(); }
      NoteBounds(lookahead, action);
      aLookahead[nLookahead] := Entry(lookahead, action);
      nLookahead := nLookahead + 1;
      assert aLookahead[..nLookahead] == tx + [Entry(lookahead, action)];
      TxSnoc(tx, Entry(lookahead, action));
    }

    // realloc of aAction when a row appended at the end might not fit.
    method GrowAction()
      requires Valid() && nLookahead > 0
      modifies this`aAction
      ensures Valid() && (aAction == old(aAction) || fresh(aAction))
      ensures aAction[..] == Grown(old(aAction[..]), GrownSize(|old(aAction[..])|, nAction, mxLookahead))
    {
      hide TxRow, Bounds, DistinctLookaheads;
      var n := mxLookahead + 1;
      if nAction + n >= aAction.Length {
        var larger := new Entry[nAction + n + aAction.Length + 20](_ => FREE);
        for i := 0 to aAction.Length
          invariant forall j | 0 <= j < i :: larger[j] == aAction[j]
          invariant forall j | i <= j < larger.Length :: larger[j] == FREE
          modifies larger
        {
          larger[i] := aAction[i];
        }
        aAction := larger;
      }
    }

    // Does every member of the row match the array at offset i - mnLookahead?
    method MembersMatch(i: nat) returns (b: bool)
      requires Valid() && nLookahead > 0
      ensures b <==> SubRow(Pending(), RowAt(aAction[..], i - mnLookahead))
    {
      hide TxRow, RowAt, Bounds;
      ghost var tx := aLookahead[..nLookahead];
      ghost var o := i - mnLookahead;
      ghost var at := RowAt(aAction[..], o);
      TxRowMembers(tx);
      b := true;
      var j := 0;
      while j < nLookahead && b
        invariant 0 <= j <= nLookahead
        invariant b ==> forall m | 0 <= m < j :: tx[m].lookahead in at && at[tx[m].lookahead] == tx[m].action
        invariant !b ==> !SubRow(Pending(), at)
      {
        var e := aLookahead[j];
        assert e == tx[j] && e in tx;
        LookupIsRow(aAction[..], o, e.lookahead);
        var k := e.lookahead - mnLookahead + i;
        if k < 0 || k >= nAction || e.lookahead != aAction[k].lookahead || e.action != aAction[k].action {
          b := false;
        }
        j := j + 1;
      }
    }

    // The number of slots in use that belong to offset i - mnLookahead.
    method CountAt(i: nat) returns (n: nat)
      requires Valid()
      ensures n == |RowAt(aAction[..], i - mnLookahead)|
    {
      ghost var table := aAction[..];
      ghost var o := i - mnLookahead;
      n := 0;
      assert RowSize(table, 0, o) == 0;
      for j := 0 to nAction
        invariant n == RowSize(table, j, o)
      {
        RowSizeStep(table, j, o);
        if aAction[j].lookahead < 0 { continue; }
        if aAction[j].lookahead == j + mnLookahead - i { n := n + 1; }
      }
      FreeTail(table[..nAction], table, o);
    }

    // Is the row stored already, with its least look-ahead in slot i?
    method IsDuplicate(i: nat) returns (b: bool)
      requires Valid() && nLookahead > 0 && i < nAction
      ensures b <==> StoredAt(aAction[..], Pending(), mnLookahead, i)
    {
      hide TxRow, RowAt, StoredAt, SubRow, DistinctLookaheads;
      StoredConditions(aAction[..], aLookahead[..nLookahead], mnLookahead, i);
      TxRowSize(aLookahead[..nLookahead]);
      if aAction[i].lookahead != mnLookahead || aAction[i].action != mnAction { return false; }
      var match_ := MembersMatch(i);
      if !match_ { return false; }
      var n := CountAt(i);
      return n == nLookahead;
    }

    // Scan downwards for an offset that already holds exactly this row; -1 if there is none.
    method FindDuplicate() returns (i: int)
      requires Valid() && nLookahead > 0
      ensures -1 <= i < nAction && i == LastStored(aAction[..], Pending(), mnLookahead, nAction)
      ensures i >= 0 ==> RowAt(aAction[..], i - mnLookahead) == Pending()
      ensures i < 0 ==> forall o :: RowAt(aAction[..], o) != Pending()
    {
      hide RowAt;
      i := nAction - 1;
      while i >= 0
        invariant -1 <= i < nAction
        invariant forall m | i < m < nAction :: !StoredAt(aAction[..], Pending(), mnLookahead, m)
      {
        var b := IsDuplicate(i);
        if b { LastStoredIs(aAction[..], Pending(), mnLookahead, nAction, i); return; }
        i := i - 1;
      }
      LastStoredIs(aAction[..], Pending(), mnLookahead, nAction, i);
      NotStored(aAction[..], nAction, Pending(), mnLookahead);
    }

    // Are all slots for the row free when its least look-ahead goes to slot i?
    method MembersFree(i: nat) returns (b: bool)
      requires Valid() && nLookahead > 0 && i < aAction.Length - mxLookahead
      ensures b <==> SlotsFree(aAction[..], Pending(), mnLookahead, i)
    {
      hide TxRow, InUse;
      ghost var table, tx := aAction[..], aLookahead[..nLookahead];
      TxRowMembers(tx);
      var j := 0;
      while j < nLookahead
        invariant 0 <= j <= nLookahead
        invariant forall m | 0 <= m < j :: SlotFree(table, mnLookahead, i, tx[m].lookahead)
      {
        var e := aLookahead[j];
        assert e == tx[j] && e in tx;
        var k := e.lookahead - mnLookahead + i;
        if k < 0 || aAction[k].lookahead >= 0 {
          assert !SlotFree(table, mnLookahead, i, e.lookahead);
          return false;
        }
        j := j + 1;
      }
      AllSlotsFree(table, tx, mnLookahead, i);
      b := true;
    }

    // Does no slot in use look like a member of offset i - mnLookahead?
    method OffsetUnused(i: nat) returns (b: bool)
      requires Valid()
      ensures b <==> NothingAt(aAction[..], nAction, i - mnLookahead)
    {
      ghost var table := aAction[..];
      for j := 0 to nAction
        invariant NothingAt(table, j, i - mnLookahead)
      {
        if aAction[j].lookahead == j + mnLookahead - i {
          assert table[j].lookahead == j - (i - mnLookahead);
          return false;
        }
      }
      b := true;
    }

    // Scan upwards for a hole that takes the row; aAction.Length - mxLookahead if there is none.
    method FindHole() returns (i: nat)
      requires Valid() && nLookahead > 0 && nAction + mxLookahead + 1 < aAction.Length
      ensures i <= aAction.Length - mxLookahead
      ensures i < aAction.Length - mxLookahead ==> FitsAt(aAction[..], nAction, Pending(), mnLookahead, i)
      ensures i == aAction.Length - mxLookahead ==> NoFitBelow(aAction[..], nAction, Pending(), mnLookahead, i)
      ensures i == FirstFit(aAction[..], nAction, Pending(), mnLookahead, 0, aAction.Length - mxLookahead)
    {
      hide SlotsFree, NothingAt, TxRow, InUse;
      i := 0;
      while i < aAction.Length - mxLookahead
        invariant 0 <= i <= aAction.Length - mxLookahead
        invariant NoFitBelow(aAction[..], nAction, Pending(), mnLookahead, i)
      {
        if aAction[i].lookahead < 0 {
          var free := MembersFree(i);
          if free {
            var unused := OffsetUnused(i);
            if unused { break; }
          }
        } else {
          TakenSlot(aAction[..], Pending(), mnLookahead, i);
        }
        i := i + 1;
      }
      FirstFitIs(aAction[..], nAction, Pending(), mnLookahead, aAction.Length - mxLookahead, i);
    }

    // Copies the row into its slots.
    method WriteRow(i: nat)
      requires Valid() && nLookahead > 0 && SlotsFree(aAction[..], Pending(), mnLookahead, i)
      modifies this`nAction, aAction
      ensures Valid() && aLookahead[..] == old(aLookahead[..])
      ensures Extended(old(aAction[..]), aAction[..], i - mnLookahead, Pending())
      ensures aAction[..] == Written(old(aAction[..]), Pending(), i - mnLookahead)
      ensures nAction == Max(old(nAction), i + mxLookahead - mnLookahead + 1)
    {
      hide Writing, TxRow, Written, SlotsFree, InUse, Extended;
      ghost var before, tx, nAction0, mn, mx := aAction[..], aLookahead[..nLookahead], nAction, mnLookahead,
          mxLookahead;
      WritingStarts(before, nAction0, tx, mn, mx, i);
      var j := 0;
      while j < nLookahead
        invariant 0 <= j <= nLookahead
        invariant InUse(aAction[..], nAction) && aLookahead[..] == old(aLookahead[..])
        invariant Writing(before, nAction0, aAction[..], nAction, tx, j, mn, mx, i)
      {
        WritingStep(before, nAction0, aAction[..], nAction, tx, j, mn, mx, i);
        assert tx[j] == aLookahead[j];
        WriteOne(i + aLookahead[j].lookahead - mnLookahead, aLookahead[j]);
        j := j + 1;
      }
      WritingEnds(before, nAction0, aAction[..], nAction, tx, mn, mx, i);
    }

    method WriteOne(k: nat, e: Entry)
      requires InUse(aAction[..], nAction) && k < aAction.Length && e.lookahead >= 0
      modifies this`nAction, aAction
      ensures aAction[..] == old(aAction[..])[k := e] && InUse(aAction[..], nAction)
        && nAction == Max(old(nAction), k + 1)
    {
      aAction[k] := e;
      if k >= nAction { nAction := k + 1; }
    }

    // Finds the slot for the row's least look-ahead, and writes the row there unless it is there already.
    method Place() returns (o: int)
      requires Valid() && nLookahead > 0 && nAction + mxLookahead + 1 < aAction.Length
      modifies this`nAction, aAction
      ensures Valid() && aLookahead[..] == old(aLookahead[..])
      ensures PlacedAt(old(aAction[..]), old(nAction), Pending(), mnLookahead, mxLookahead, aAction[..], o)
      ensures Outcome(aAction[..], nAction, o) == PlacedIn(old(aAction[..]), old(nAction), Pending(), mnLookahead,
        mxLookahead)
    {
      hide RowAt, HasPlaceIn, FitsAt, Extended, PlacedAt, Written, StoredAt;
      ghost var before, row, n := aAction[..], Pending(), nAction;
      var i := FindDuplicate();
      if i >= 0 {
        o := i - mnLookahead;
        FoundDuplicate(before, nAction, row, mnLookahead, mxLookahead, i, o);
        DuplicateUnwritten(before, nAction, row, mnLookahead, mxLookahead, i);
      } else {
        i := FindHole();
        GiveUpInside(before, nAction, row, mnLookahead, mxLookahead, i);
        WriteRow(i);
        o := i - mnLookahead;
        FoundHole(before, aAction[..], n, row, mnLookahead, mxLookahead, i, o);
      }
    }

    // Places the collected row and returns its offset.  The row can be read back exactly if and only if
    // the table had a place for it; in every case the other rows, and every slot in use, are untouched.
    method Insert() returns (o: int)
      requires Valid() && nLookahead > 0
      modifies this, aAction
      ensures Valid() && Pending() == map[] && (aAction == old(aAction) || fresh(aAction))
        && aLookahead == old(aLookahead)
      ensures Inserted(old(aAction[..]), old(nAction), old(Pending()), old(mnLookahead), old(mxLookahead), aAction[..],
        o)
      ensures Outcome(aAction[..], nAction, o)
           == Insertion(old(aAction[..]), old(nAction), old(Pending()), old(mnLookahead), old(mxLookahead))
    {
      hide RowAt, HasPlace, HasPlaceIn, FitsAt, Extended, Inserted, PlacedAt, PlacedIn;
      ghost var before, nActionBefore, row, mn, mx := aAction[..], nAction, Pending(), mnLookahead, mxLookahead;
      GrowAction();
      ghost var grown := aAction[..];
      o := Place();
      nLookahead := 0;
      PlacedInserted(before, grown, nActionBefore, row, mn, mx, aAction[..], o);
    }
  }

  lemma LastStoredIs(table: seq<Entry>, row: Row, mn: int, n: nat, i: int)
    requires -1 <= i < n && (i >= 0 ==> StoredAt(table, row, mn, i))
      && forall m | i < m < n :: !StoredAt(table, row, mn, m)
    ensures LastStored(table, row, mn, n) == i
  {
    hide StoredAt;
    var j := LastStored(table, row, mn, n);
    assert j >= 0 ==> StoredAt(table, row, mn, j);
  }

  lemma FirstFitIs(table: seq<Entry>, nAction: nat, row: Row, mn: int, stop: nat, i: nat)
    requires i <= stop && (i < stop ==> FitsAt(table, nAction, row, mn, i)) && NoFitBelow(table, nAction, row, mn, i)
    ensures FirstFit(table, nAction, row, mn, 0, stop) == i
  {
    hide FitsAt;
    var f := FirstFit(table, nAction, row, mn, 0, stop);
    assert f < stop ==> FitsAt(table, nAction, row, mn, f);
  }

  lemma WrittenNone(table: seq<Entry>, tx: seq<Entry>, o: int)
    ensures Written(table, TxRow(tx[..0]), o) == table
  {
  }

  lemma WrittenOne(table: seq<Entry>, done: seq<Entry>, e: Entry, o: int)
    requires 0 <= o + e.lookahead < |table|
    ensures Written(table, TxRow(done), o)[o + e.lookahead := e] == Written(table, TxRow(done + [e]), o)
  {
    assert (done + [e])[..|done|] == done;
  }

  // Writing a row where it is stored already changes nothing.
  lemma DuplicateUnwritten(table: seq<Entry>, nAction: nat, row: Row, mn: int, mx: nat, i: nat)
    requires InUse(table, nAction) && RowAt(table, i - mn) == row && mx in row && mx <= |table|
    ensures Written(table, row, i - mn) == table && i + mx - mn < nAction
  {
    hide RowAt;
    var o := i - mn;
    forall j | 0 <= j < |table| && j - o in row
      ensures table[j] == Entry(j - o, row[j - o])
    {
      RowMember(table, o, j - o);
    }
    RowMember(table, o, mx);
  }

  lemma RowMember(table: seq<Entry>, o: int, la: int)
    requires la in RowAt(table, o)
    ensures 0 <= la && 0 <= o + la < |table| && table[o + la] == Entry(la, RowAt(table, o)[la])
  {
    assert Holds(table, o, la);
  }

  // `after` is `before` plus the row at offset o; no slot in use changes.
  ghost predicate Extended(before: seq<Entry>, after: seq<Entry>, o: int, row: Row) {
    && |before| <= |after|
    && (forall j | 0 <= j < |before| && before[j].lookahead >= 0 :: after[j] == before[j])
    && (forall p :: RowAt(after, p) == if p == o then RowAt(before, p) + row else RowAt(before, p))
  }

  // The slots of these pairs are free.
  ghost predicate StillFree(table: seq<Entry>, tx: seq<Entry>, mn: int, i: int) {
    DistinctLookaheads(tx) && forall e <- tx :: SlotFree(table, mn, i, e.lookahead)
  }

  // The first j pairs have been written to their slots.
  ghost predicate Writing(before: seq<Entry>, nAction0: nat, table: seq<Entry>, nAction: nat, tx: seq<Entry>, j: nat,
                          mn: int, mx: nat, i: nat)
  {
    && j <= |tx| && Extended(before, table, i - mn, TxRow(tx[..j])) && StillFree(table, tx[j..], mn, i)
    && table == Written(before, TxRow(tx[..j]), i - mn)
    && nAction0 <= nAction <= Max(nAction0, i + mx - mn + 1)
    && forall m | 0 <= m < j :: i + tx[m].lookahead - mn < nAction
  }

  lemma WritingStarts(before: seq<Entry>, nAction0: nat, tx: seq<Entry>, mn: int, mx: nat, i: nat)
    requires DistinctLookaheads(tx) && SlotsFree(before, TxRow(tx), mn, i)
    ensures Writing(before, nAction0, before, nAction0, tx, 0, mn, mx, i)
  {
    hide Extended, StillFree, SlotsFree, Written;
    StillFreeAtFirst(before, tx, mn, i);
    WrittenNone(before, tx, i - mn);
  }

  lemma WritingStep(before: seq<Entry>, nAction0: nat, table: seq<Entry>, nAction: nat, tx: seq<Entry>, j: nat,
                    mn: int, mx: nat, i: nat)
    requires Writing(before, nAction0, table, nAction, tx, j, mn, mx, i) && j < |tx| && InUse(table, nAction)
    requires DistinctLookaheads(tx) && mn in TxRow(tx) && Bounds(TxRow(tx), mn, TxRow(tx)[mn], mx)
    ensures var k := i + tx[j].lookahead - mn;
      && 0 <= k < |table| && tx[j].lookahead >= 0
      && Writing(before, nAction0, table[k := tx[j]], Max(nAction, k + 1), tx, j + 1, mn, mx, i)
  {
    hide Extended, StillFree, Written, TxRow, InUse, DistinctLookaheads, Bounds;
    PairInBounds(tx, j, mn, mx);
    StillFreeStep(table, tx, j, mn, i);
    ExtendOne(before, table, i - mn, tx[..j], i + tx[j].lookahead - mn, tx[j]);
    WrittenLength(before, TxRow(tx[..j]), i - mn);
    WrittenOne(before, tx[..j], tx[j], i - mn);
  }

  lemma PairInBounds(tx: seq<Entry>, j: nat, mn: int, mx: nat)
    requires DistinctLookaheads(tx) && j < |tx| && mn in TxRow(tx) && Bounds(TxRow(tx), mn, TxRow(tx)[mn], mx)
    ensures 0 <= mn <= tx[j].lookahead <= mx
  {
    TxRowMembers(tx);
    assert tx[j] in tx;
  }

  lemma WritingEnds(before: seq<Entry>, nAction0: nat, table: seq<Entry>, nAction: nat, tx: seq<Entry>, mn: int,
                    mx: nat, i: nat)
    requires Writing(before, nAction0, table, nAction, tx, |tx|, mn, mx, i)
    requires DistinctLookaheads(tx) && mn in TxRow(tx) && Bounds(TxRow(tx), mn, TxRow(tx)[mn], mx)
    ensures Extended(before, table, i - mn, TxRow(tx)) && table == Written(before, TxRow(tx), i - mn)
    ensures nAction == Max(nAction0, i + mx - mn + 1)
  {
    hide Extended, StillFree, Written, TxRow;
    assert tx[..|tx|] == tx;
    TxRowMembers(tx);
    var m :| 0 <= m < |tx| && tx[m] == Entry(mx, TxRow(tx)[mx]);
  }

  lemma WrittenLength(table: seq<Entry>, row: Row, o: int)
    ensures |Written(table, row, o)| == |table|
  {
  }

  lemma StillFreeAtFirst(table: seq<Entry>, tx: seq<Entry>, mn: int, i: int)
    requires DistinctLookaheads(tx) && SlotsFree(table, TxRow(tx), mn, i)
    ensures StillFree(table, tx[0..], mn, i) && Extended(table, table, i - mn, TxRow(tx[..0]))
  {
    hide RowAt;
    TxRowMembers(tx);
    assert tx[0..] == tx && TxRow(tx[..0]) == map[];
    assert RowAt(table, i - mn) + map[] == RowAt(table, i - mn);
  }

  lemma StillFreeStep(table: seq<Entry>, tx: seq<Entry>, j: nat, mn: int, i: int)
    requires j < |tx| && StillFree(table, tx[j..], mn, i)
    ensures SlotFree(table, mn, i, tx[j].lookahead) && tx[j].lookahead >= 0
    ensures StillFree(table[i + tx[j].lookahead - mn := tx[j]], tx[j + 1..], mn, i)
    ensures tx[..j + 1] == tx[..j] + [tx[j]]
  {
    var rest := tx[j..];
    assert rest[0] in rest;
    assert tx[j + 1..] == rest[1..];
    forall e | e in rest[1..]
      ensures e.lookahead >= 0 && SlotFree(table[i + tx[j].lookahead - mn := tx[j]], mn, i, e.lookahead)
    {
      var m :| 1 <= m < |rest| && rest[m] == e;
      assert rest[m] in rest;
    }
  }

  ghost predicate PlacedAt(before: seq<Entry>, nAction: nat, row: Row, mn: int, mx: nat, after: seq<Entry>, o: int) {
    && Extended(before, after, o, row)
    && (RowAt(after, o) == row <==> HasPlaceIn(before, nAction, row, mn, mx))
    && (RowAt(before, o) == row || RowAt(before, o).Keys !! row.Keys)
  }

  // What an insertion at offset o did: it added the row there and nothing else, and the driver can read
  // exactly this row at o if and only if the table had a place for it.
  ghost predicate Inserted(before: seq<Entry>, nAction: nat, row: Row, mn: int, mx: nat, after: seq<Entry>, o: int) {
    && Extended(before, after, o, row)
    && (RowAt(after, o) == row <==> HasPlace(before, nAction, row, mn, mx))
    && (RowAt(before, o) == row || RowAt(before, o).Keys !! row.Keys)
  }

  lemma ExtendOne(before: seq<Entry>, table: seq<Entry>, o: int, done: seq<Entry>, k: nat, e: Entry)
    requires k < |table| && table[k].lookahead < 0 && e.lookahead >= 0 && o == k - e.lookahead
    requires Extended(before, table, o, TxRow(done))
    ensures Extended(before, table[k := e], o, TxRow(done + [e]))
  {
    hide RowAt;
    assert (done + [e])[..|done|] == done;
    forall p
      ensures RowAt(table[k := e], p) == if p == o then RowAt(before, p) + TxRow(done + [e]) else RowAt(before, p)
    {
      WriteFree(table, k, e, p);
      assert RowAt(before, p) + TxRow(done)[e.lookahead := e.action]
          == (RowAt(before, p) + TxRow(done))[e.lookahead := e.action];
    }
  }

  lemma GrownRows(table: seq<Entry>, grown: seq<Entry>)
    requires |table| <= |grown| && grown == Grown(table, |grown|)
    ensures forall p :: RowAt(grown, p) == RowAt(table, p)
  {
    forall p ensures RowAt(grown, p) == RowAt(table, p) { FreeTail(table, grown, p); }
  }

  lemma PlacedInserted(table: seq<Entry>, grown: seq<Entry>, nAction: nat, row: Row, mn: int, mx: nat,
                       after: seq<Entry>, o: int)
    requires grown == Grown(table, GrownSize(|table|, nAction, mx))
    requires PlacedAt(grown, nAction, row, mn, mx, after, o)
    ensures Inserted(table, nAction, row, mn, mx, after, o)
  {
    GrownRows(table, grown);
  }

  lemma FoundDuplicate(table: seq<Entry>, nAction: nat, row: Row, mn: int, mx: nat, i: int, o: int)
    requires RowAt(table, i - mn) == row && o == i - mn
    ensures PlacedAt(table, nAction, row, mn, mx, table, o)
  {
    assert RowAt(table, o) + row == row;
  }

  lemma FoundHole(before: seq<Entry>, after: seq<Entry>, nAction: nat, row: Row, mn: int, mx: nat, i: nat, o: int)
    requires InUse(before, nAction) && mn in row && i <= |before| - mx && o == i - mn
    requires forall p :: RowAt(before, p) != row
    requires i < |before| - mx ==> FitsAt(before, nAction, row, mn, i)
    requires i == |before| - mx ==> NoFitBelow(before, nAction, row, mn, i)
    requires SlotsFree(before, row, mn, i) && Extended(before, after, o, row)
    ensures PlacedAt(before, nAction, row, mn, mx, after, o)
  {
    hide RowAt, SlotsFree;
    UnionIsNew(before, row, mn, i, o);
    if i < |before| - mx {
      NothingThere(before, nAction, o);
      assert HasPlaceIn(before, nAction, row, mn, mx);
    } else {
      assert o == |before| - mx - mn;
      assert HasPlaceIn(before, nAction, row, mn, mx) <==> RowAt(before, o) == map[];
    }
  }

  lemma UnionIsNew(before: seq<Entry>, row: Row, mn: int, i: nat, o: int)
    requires SlotsFree(before, row, mn, i) && o == i - mn
    ensures RowAt(before, o).Keys !! row.Keys
    ensures RowAt(before, o) + row == row <==> RowAt(before, o) == map[]
  {
    var old_ := RowAt(before, o);
    forall la | la in old_ ensures la !in row {
      assert Holds(before, o, la) && !SlotFree(before, mn, i, la);
    }
    if old_ == map[] {
      assert old_ + row == row;
    } else {
      var la :| la in old_;
      assert la in old_ + row;
    }
  }

  lemma NothingThere(table: seq<Entry>, nAction: nat, o: int)
    requires InUse(table, nAction) && NothingAt(table, nAction, o)
    ensures RowAt(table, o) == map[]
  {
    forall la ensures !Holds(table, o, la) {
      assert la == o + la - o;
    }
  }

  // Wherever the upward scan stops, the slots it stops at are free and inside the array.
  lemma GiveUpInside(table: seq<Entry>, nAction: nat, row: Row, mn: int, mx: nat, i: nat)
    requires nAction + mx + 1 < |table| && mn in row && Bounds(row, mn, row[mn], mx)
    requires InUse(table, nAction)
    requires i < |table| - mx ==> FitsAt(table, nAction, row, mn, i)
    requires i == |table| - mx ==> NoFitBelow(table, nAction, row, mn, i)
    requires i <= |table| - mx
    ensures SlotsFree(table, row, mn, i)
  {
    if i == |table| - mx {
      if mn == 0 {
        assert FitsAt(table, nAction, row, mn, nAction) by { AppendFits(table, nAction, row, mx); }
      }
      forall la | la in row ensures SlotFree(table, mn, i, la) {}
    }
  }

  lemma AppendFits(table: seq<Entry>, nAction: nat, row: Row, mx: nat)
    requires nAction + mx + 1 < |table| && forall la | la in row :: 0 <= la <= mx
    requires InUse(table, nAction)
    ensures FitsAt(table, nAction, row, 0, nAction)
  {
    forall j | 0 <= j < nAction ensures table[j].lookahead != j - nAction {
    }
  }

  // ---- any sequence of insertions ----

  // Every row placed so far is read back exactly.
  ghost predicate AllExact(table: seq<Entry>, placed: seq<(int, Row)>) {
    forall p <- placed :: p.1 != map[] && RowAt(table, p.0) == p.1
  }

  // An insertion for which the table had a place keeps all earlier rows exact, and adds its own.
  lemma InsertionKeepsRows(before: seq<Entry>, nAction: nat, row: Row, mn: int, mx: nat, after: seq<Entry>, o: int,
                           placed: seq<(int, Row)>)
    requires Inserted(before, nAction, row, mn, mx, after, o) && HasPlace(before, nAction, row, mn, mx)
    requires row != map[] && AllExact(before, placed)
    ensures AllExact(after, placed + [(o, row)])
  {
    forall p | p in placed ensures RowAt(after, p.0) == p.1 {
    }
  }

  // Reading exactly one row is the same as answering every probe of the driver correctly.
  lemma ExactProbes(table: seq<Entry>, o: int, row: Row)
    requires forall la | la in row :: la >= 0
    ensures RowAt(table, o) == row
       <==> forall la: nat :: Lookup(table, o, la) == if la in row then Some(row[la]) else None
  {
    forall la: nat ensures Lookup(table, o, la) == if la in RowAt(table, o) then Some(RowAt(table, o)[la]) else None {
      LookupIsRow(table, o, la);
    }
    if forall la: nat :: Lookup(table, o, la) == if la in row then Some(row[la]) else None {
      forall la: int ensures la in RowAt(table, o) <==> la in row {
        if la >= 0 {
          assert Lookup(table, o, la) == if la in row then Some(row[la]) else None;
        } else {
          assert !Holds(table, o, la);
        }
      }
      forall la: int | la in row ensures RowAt(table, o)[la] == row[la] {
        assert Lookup(table, o, la) == if la in row then Some(row[la]) else None;
      }
    }
  }

  // Sixteen one-token rows with look-ahead 0 in slots 0 to 15, and five free slots.
  function CrowdedTable(): seq<Entry> {
    seq(16, k => Entry(0, k)) + [FREE, FREE, FREE, FREE, FREE]
  }

  // The search can give up at an offset that is taken: here the row {3} lands at offset 15, and the driver
  // then finds the action of another row under look-ahead 0.
  lemma GivingUpMisreads()
    ensures InUse(CrowdedTable(), 16) && !HasPlace(CrowdedTable(), 16, map[3 := 99], 3, 3)
    ensures Lookup(CrowdedTable()[18 := Entry(3, 99)], 18 - 3, 0) == Some(15)
  {
    var table := CrowdedTable();
    assert Grown(table, GrownSize(|table|, 16, 3)) == table;
    forall o ensures RowAt(table, o) != map[3 := 99] {
      assert !Holds(table, o, 3) && 3 !in RowAt(table, o) && 3 in map[3 := 99];
    }
    forall i | 0 <= i < 18 ensures !FitsAt(table, 16, map[3 := 99], 3, i) {
      if i < 16 {
        assert !SlotFree(table, 3, i, 3);
      } else {
        assert table[i - 3].lookahead == i - 3 + 3 - i;
      }
    }
    assert Holds(table, 15, 0);
    assert 0 in RowAt(table, 15);
  }

  lemma StoredAtMinimum(table: seq<Entry>, row: Row, o: int, mn: int)
    requires mn in row
    ensures RowAt(table, o) == row ==> 0 <= mn && 0 <= o + mn < |table| && table[o + mn] == Entry(mn, row[mn])
  {
    if RowAt(table, o) == row { assert mn in RowAt(table, o); }
  }

  // The three tests for a duplicate: the minimum, every member, the number of members.
  lemma StoredConditions(table: seq<Entry>, tx: seq<Entry>, mn: int, i: int)
    requires DistinctLookaheads(tx) && mn in TxRow(tx)
    ensures StoredAt(table, TxRow(tx), mn, i) ==> 0 <= i < |table| && table[i] == Entry(mn, TxRow(tx)[mn])
    ensures StoredAt(table, TxRow(tx), mn, i)
       <==> SubRow(TxRow(tx), RowAt(table, i - mn)) && |RowAt(table, i - mn)| == |tx|
  {
    StoredAtMinimum(table, TxRow(tx), i - mn, mn);
    TxRowMembers(tx);
    var big := RowAt(table, i - mn);
    if SubRow(TxRow(tx), big) && |big| == |tx| { SubRowSameSize(TxRow(tx), big); }
  }

  lemma TakenSlot(table: seq<Entry>, row: Row, mn: int, i: nat)
    requires mn in row && i < |table| && table[i].lookahead >= 0
    ensures !SlotsFree(table, row, mn, i)
  {
    assert !SlotFree(table, mn, i, mn);
  }

  lemma NotStored(table: seq<Entry>, nAction: nat, row: Row, mn: int)
    requires mn in row && nAction <= |table|
    requires forall j | nAction <= j < |table| :: table[j].lookahead == -1
    requires forall m | -1 < m < nAction :: !StoredAt(table, row, mn, m)
    ensures forall o :: RowAt(table, o) != row
  {
    forall o ensures RowAt(table, o) != row {
      StoredAtMinimum(table, row, o, mn);
      assert o == o + mn - mn;
      if 0 <= o + mn < nAction { assert !StoredAt(table, row, mn, o + mn); }
    }
  }

  lemma AllSlotsFree(table: seq<Entry>, tx: seq<Entry>, mn: int, i: int)
    requires DistinctLookaheads(tx)
    requires forall m | 0 <= m < |tx| :: SlotFree(table, mn, i, tx[m].lookahead)
    ensures SlotsFree(table, TxRow(tx), mn, i)
  {
    TxRowMembers(tx);
    forall la | la in TxRow(tx)
      ensures SlotFree(table, mn, i, la)
    {
      var m :| 0 <= m < |tx| && tx[m] == Entry(la, TxRow(tx)[la]);
    }
  }

  ghost predicate TxValid(tx: seq<Entry>, mn: int, mnAction: int, mx: int) {
    DistinctLookaheads(tx) && (tx != [] ==> Bounds(TxRow(tx), mn, mnAction, mx))
  }

  lemma TxSnoc(tx: seq<Entry>, e: Entry)
    requires DistinctLookaheads(tx) && e.lookahead >= 0 && e.lookahead !in TxRow(tx)
    ensures TxRow(tx + [e]) == TxRow(tx)[e.lookahead := e.action]
    ensures DistinctLookaheads(tx + [e])
  {
    TxRowMembers(tx);
    assert (tx + [e])[..|tx|] == tx;
    forall i | 0 <= i < |tx| ensures tx[i].lookahead != e.lookahead { assert tx[i] in tx; }
  }

  lemma BoundsSnoc(row: Row, la: int, act: int, mn: int, mnAction: int, mx: int)
    requires la >= 0 && la !in row && Bounds(row, mn, mnAction, mx)
    ensures Bounds(row[la := act], if mn > la then la else mn,
      if mn > la then act else mnAction, if mx < la then la else mx)
  {
  }

  ghost predicate Bounds(row: Row, mn: int, mnAction: int, mx: int) {
    && mn in row && row[mn] == mnAction && mx in row
    && forall la | la in row :: 0 <= mn <= la <= mx
  }
}

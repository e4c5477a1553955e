/** What becomes of a list of actions when its conflicts are resolved, whatever the order in which they stood. */
module Outcomes {
  import opened Sorting
  import opened ActionLists
  import opened Resolve
  import opened Verdicts

  // ---- in terms of what was entered ----

  ghost function RulesOn(entered: seq<Action>, t: nat): set<nat> {
    set a <- entered | a.sp == t && a.kind == REDUCE :: a.x
  }

  ghost predicate ShiftOn(entered: seq<Action>, t: nat) {
    exists a <- entered :: a.sp == t && a.kind == SHIFT
  }

  // The live actions are those that prevail; of several shifts it is the one entered last.
  ghost predicate Decided(p: Precedences, entered: seq<Action>, ap: seq<Action>) {
    forall a <- ap | Live(a) && a.kind != ACCEPT ::
      && Prevails(p, a.sp, ShiftOn(entered, a.sp), RulesOn(entered, a.sp), WinnerOf(a))
      && (a.kind == SHIFT ==> forall b <- entered | b.sp == a.sp && b.kind == SHIFT :: b.addr <= a.addr)
  }

  ghost function Disputes(p: Precedences, entered: seq<Action>): set<(nat, nat)> {
    set a <- entered | a.kind == REDUCE && Disputed(p, a.sp, ShiftOn(entered, a.sp), RulesOn(entered, a.sp), a.x) ::
      (a.sp, a.x)
  }

  ghost function Shifts(entered: seq<Action>): set<Action> {
    set a <- entered | a.kind == SHIFT
  }

  ghost function ShiftCodes(entered: seq<Action>): set<nat> {
    set a <- entered | a.kind == SHIFT :: a.sp
  }

  // Every disputed reduction is a conflict, and every shift but one for each look-ahead.
  ghost function ConflictCount(p: Precedences, entered: seq<Action>): int {
    |Disputes(p, entered)| + |Shifts(entered)| - |ShiftCodes(entered)|
  }

  lemma OutcomePermuted(p: Precedences, a: seq<Action>, b: seq<Action>, ap: seq<Action>)
    requires multiset(a) == multiset(b)
    ensures Decided(p, a, ap) ==> Decided(p, b, ap)
    ensures ConflictCount(p, a) == ConflictCount(p, b)
  {
    hide Disputed, Prevails;
    SameMembers(a, b);
    forall t: nat ensures RulesOn(a, t) == RulesOn(b, t) && ShiftOn(a, t) == ShiftOn(b, t) {}
    assert Disputes(p, a) == Disputes(p, b) && Shifts(a) == Shifts(b) && ShiftCodes(a) == ShiftCodes(b);
  }

  // ---- in terms of the sorted list ----

  // No rule is entered twice for one look-ahead.
  ghost predicate RulesOnce(ap: seq<Action>) {
    forall i, j | 0 <= i < j < |ap| && ap[i].kind == REDUCE && ap[j].kind == REDUCE && ap[i].sp == ap[j].sp ::
      ap[i].x != ap[j].x
  }

  // A sorted list of what was entered.
  ghost predicate Sorted(ap: seq<Action>) {
    Ordered(ap, ActionLe) && AsEntered(ap) && RulesOnce(ap) && NoTies(ap)
  }

  lemma GroupIsAll(ap: seq<Action>, lo: nat, hi: nat, i: nat)
    requires Ordered(ap, ActionLe) && IsGroup(ap, lo, hi) && i < |ap|
    ensures i < lo ==> ap[i].sp < ap[lo].sp
    ensures i >= hi ==> ap[i].sp > ap[lo].sp
  {
    if i < lo {
      assert ActionLe(ap[i], ap[lo - 1]) || i == lo - 1;
      assert ActionLe(ap[lo - 1], ap[lo]);
    }
    if i >= hi {
      assert ActionLe(ap[lo], ap[hi]);
      assert ActionLe(ap[hi], ap[i]) || i == hi;
    }
  }

  lemma GroupLined(ap: seq<Action>, lo: nat, hi: nat)
    requires Sorted(ap) && IsGroup(ap, lo, hi)
    ensures ap[lo].kind != ACCEPT ==> Lined(ap, lo, hi)
    ensures ap[lo].kind == ACCEPT ==> hi == lo + 1
  {
    SortedGroupsOK(ap);
    assert GroupOK(ap, lo, hi);
    assert ap[lo] in ap;
    forall i, j | lo <= i < j < hi && ap[i].kind == REDUCE ensures ap[j].kind == REDUCE && ap[i].x < ap[j].x {
      assert ActionLe(ap[i], ap[j]);
    }
  }

  lemma GroupMeans(ap: seq<Action>, lo: nat, hi: nat)
    requires Sorted(ap) && IsGroup(ap, lo, hi) && ap[lo].kind != ACCEPT
    ensures Lined(ap, lo, hi)
    ensures RulesIn(ap, lo, hi) == RulesOn(ap, ap[lo].sp)
    ensures ap[lo].kind == SHIFT <==> ShiftOn(ap, ap[lo].sp)
  {
    GroupLined(ap, lo, hi);
    forall i: nat | i < |ap| && ap[i].sp == ap[lo].sp ensures lo <= i < hi { GroupIsAll(ap, lo, hi, i); }
    forall r | r in RulesIn(ap, lo, hi) ensures r in RulesOn(ap, ap[lo].sp) {
      var i :| lo <= i < hi && ap[i].kind == REDUCE && ap[i].x == r;
      assert ap[i] in ap;
    }
    forall r | r in RulesOn(ap, ap[lo].sp) ensures r in RulesIn(ap, lo, hi) {
      var a :| a in ap && a.sp == ap[lo].sp && a.kind == REDUCE && a.x == r;
      var i: nat :| i < |ap| && ap[i] == a;
    }
    if ap[lo].kind == SHIFT { assert ap[lo] in ap; }
    if a :| a in ap && a.sp == ap[lo].sp && a.kind == SHIFT { var i: nat :| i < |ap| && ap[i] == a; }
  }

  // What the loops leave.
  ghost predicate Resolved(p: Precedences, ap0: seq<Action>, ap: seq<Action>) {
    && |ap| == |ap0| && AllMarked(p, ap0, ap)
    && forall lo: nat, hi: nat | IsGroup(ap0, lo, hi) :: OnlyAlive(ap0, ap, lo, hi, Champion(p, ap0, lo, hi))
  }

  // Where an action of the list stands, and what became of it.
  lemma Fate(p: Precedences, ap0: seq<Action>, ap: seq<Action>, i: nat)
    requires Sorted(ap0) && Resolved(p, ap0, ap) && i < |ap| && ap0[i].kind != ACCEPT
    ensures Live(ap[i]) ==>
      ap[i] == ap0[i] && Prevails(p, ap[i].sp, ShiftOn(ap0, ap[i].sp), RulesOn(ap0, ap[i].sp), WinnerOf(ap[i]))
    ensures Live(ap[i]) && ap[i].kind == SHIFT ==>
      forall b <- ap0 | b.sp == ap[i].sp && b.kind == SHIFT :: b.addr <= ap[i].addr
    ensures ap0[i].kind == REDUCE ==> (IsConflict(ap[i]) <==>
      Disputed(p, ap0[i].sp, ShiftOn(ap0, ap0[i].sp), RulesOn(ap0, ap0[i].sp), ap0[i].x))
    ensures ap0[i].kind == SHIFT ==> (IsConflict(ap[i]) <==>
      exists j | 0 <= j < i :: ap0[j].sp == ap0[i].sp && ap0[j].kind == SHIFT)
  {
    hide Sorted, Prevails, Disputed, Lined, Reported, MarksOK, Champion, RulesIn, RulesOn, ShiftOn;
    var lo, hi := GroupOf(ap0, i);
    var c := Champion(p, ap0, lo, hi);
    assert OnlyAlive(ap0, ap, lo, hi, c);
    GroupKinds(ap0, lo, hi, i);
    GroupMeans(ap0, lo, hi);
    ChampionPrevails(p, ap0, lo, hi, hi);
    FinalMark(p, ap0, ap, lo, hi, i);
    ReportedDisputed(p, ap0, lo, hi, i);
    if ap0[i].kind == SHIFT { ShiftsOfGroup(ap0, lo, hi, i); }
  }

  lemma GroupKinds(ap: seq<Action>, lo: nat, hi: nat, i: nat)
    requires Sorted(ap) && IsGroup(ap, lo, hi) && lo <= i < hi && ap[i].kind != ACCEPT
    ensures ap[lo].kind != ACCEPT && (ap[i].kind == SHIFT || ap[i].kind == REDUCE)
  {
    GroupLined(ap, lo, hi);
  }

  // Shifts stand first, the last entered one in front.
  lemma ShiftsOfGroup(ap: seq<Action>, lo: nat, hi: nat, i: nat)
    requires Sorted(ap) && IsGroup(ap, lo, hi) && lo <= i < hi && ap[i].kind == SHIFT && ap[lo].kind != ACCEPT
    ensures forall b <- ap | b.sp == ap[lo].sp && b.kind == SHIFT :: b.addr <= ap[lo].addr
    ensures lo < i <==> exists j | 0 <= j < i :: ap[j].sp == ap[i].sp && ap[j].kind == SHIFT
  {
    GroupLined(ap, lo, hi);
    assert ap[lo].kind == SHIFT;
    forall b | b in ap && b.sp == ap[lo].sp && b.kind == SHIFT ensures b.addr <= ap[lo].addr {
      var j: nat :| j < |ap| && ap[j] == b;
      GroupIsAll(ap, lo, hi, j);
      assert j == lo || ActionLe(ap[lo], ap[j]);
    }
    if j :| 0 <= j < i && ap[j].sp == ap[i].sp && ap[j].kind == SHIFT { GroupIsAll(ap, lo, hi, j); }
  }

  lemma FinalMark(p: Precedences, ap0: seq<Action>, ap: seq<Action>, lo: nat, hi: nat, i: nat)
    requires Resolved(p, ap0, ap) && IsGroup(ap0, lo, hi) && lo <= i < hi && Lined(ap0, lo, hi)
    ensures IsConflict(ap[i]) <==> Reported(p, ap0, lo, i)
  {
    hide AllMarked;
    assert MarksOK(p, ap0, ap, lo, hi) by { GroupMarked(p, ap0, ap, lo, hi); }
    assert OnlyAlive(ap0, ap, lo, hi, Champion(p, ap0, lo, hi));
    if ap[i] == ap0[i] {
      ChampionWon(p, ap0, lo, i, hi);
      if lo < i { LoserMarked(p, ap0[Champion(p, ap0, lo, i)], ap0[i]); }
    }
  }

  lemma GroupMarked(p: Precedences, ap0: seq<Action>, ap: seq<Action>, lo: nat, hi: nat)
    requires AllMarked(p, ap0, ap) && IsGroup(ap0, lo, hi)
    ensures MarksOK(p, ap0, ap, lo, hi)
  {
    hide MarksOK;
  }

  lemma SortedDecided(p: Precedences, ap0: seq<Action>, ap: seq<Action>)
    requires Sorted(ap0) && Resolved(p, ap0, ap)
    ensures Decided(p, ap0, ap)
  {
    hide Sorted, Prevails, RulesOn, ShiftOn;
    forall a | a in ap && Live(a) && a.kind != ACCEPT
      ensures Prevails(p, a.sp, ShiftOn(ap0, a.sp), RulesOn(ap0, a.sp), WinnerOf(a))
      ensures a.kind == SHIFT ==> forall b <- ap0 | b.sp == a.sp && b.kind == SHIFT :: b.addr <= a.addr
    {
      var i: nat :| i < |ap| && ap[i] == a;
      AcceptStays(p, ap0, ap, i);
      Fate(p, ap0, ap, i);
    }
  }

  lemma AcceptStays(p: Precedences, ap0: seq<Action>, ap: seq<Action>, i: nat)
    requires Sorted(ap0) && Resolved(p, ap0, ap) && i < |ap|
    ensures ap0[i].kind == ACCEPT ==> ap[i] == ap0[i]
  {
    var lo, hi := GroupOf(ap0, i);
    assert OnlyAlive(ap0, ap, lo, hi, Champion(p, ap0, lo, hi));
    if ap0[i].kind == ACCEPT {
      GroupLined(ap0, lo, hi);
      if ap0[lo].kind != ACCEPT { assert false; }
    }
  }

  // ---- counting ----

  ghost function Marked(ap: seq<Action>): set<nat> {
    set i: nat | i < |ap| && IsConflict(ap[i])
  }

  lemma {:induction false} ConflictsAreMarked(ap: seq<Action>)
    ensures Conflicts(ap) == |Marked(ap)|
  {
    if ap == [] {
      assert Marked(ap) == {};
    } else {
      var n := |ap| - 1;
      ConflictsAreMarked(ap[..n]);
      assert forall i: nat | i < n :: ap[..n][i] == ap[i];
      if IsConflict(ap[n]) {
        assert Marked(ap) == Marked(ap[..n]) + {n};
      } else {
        assert Marked(ap) == Marked(ap[..n]);
      }
    }
  }

  ghost predicate DisputedAt(p: Precedences, ap: seq<Action>, i: nat) {
    && i < |ap| && ap[i].kind == REDUCE
    && Disputed(p, ap[i].sp, ShiftOn(ap, ap[i].sp), RulesOn(ap, ap[i].sp), ap[i].x)
  }

  ghost predicate ShiftAt(ap: seq<Action>, i: nat) {
    i < |ap| && ap[i].kind == SHIFT
  }

  ghost predicate AgainAt(ap: seq<Action>, i: nat) {
    ShiftAt(ap, i) && exists j | 0 <= j < i :: ap[j].sp == ap[i].sp && ap[j].kind == SHIFT
  }

  lemma DisputesAt(p: Precedences, ap: seq<Action>, at: set<nat>)
    requires RulesOnce(ap) && forall i: nat :: i in at <==> DisputedAt(p, ap, i)
    ensures |at| == |Disputes(p, ap)|
  {
    hide Disputed, RulesOn, ShiftOn;
    var rel := (i: nat, d: (nat, nat)) => i < |ap| && d == (ap[i].sp, ap[i].x);
    forall i | i in at ensures exists d <- Disputes(p, ap) :: rel(i, d) {
      assert ap[i] in ap;
      assert (ap[i].sp, ap[i].x) in Disputes(p, ap) && rel(i, (ap[i].sp, ap[i].x));
    }
    forall d | d in Disputes(p, ap) ensures exists i <- at :: rel(i, d) {
      var a :| a in ap && a.kind == REDUCE && d == (a.sp, a.x)
          && Disputed(p, a.sp, ShiftOn(ap, a.sp), RulesOn(ap, a.sp), a.x);
      var i: nat :| i < |ap| && ap[i] == a;
      assert i in at && rel(i, d);
    }
    Corresponding(at, Disputes(p, ap), rel);
  }

  lemma ShiftsAt(ap: seq<Action>, at: set<nat>)
    requires NoTies(ap) && forall i: nat :: i in at <==> ShiftAt(ap, i)
    ensures |at| == |Shifts(ap)|
  {
    var rel := (i: nat, a: Action) => i < |ap| && a == ap[i];
    forall i | i in at ensures exists a <- Shifts(ap) :: rel(i, a) {
      assert ap[i] in Shifts(ap) && rel(i, ap[i]);
    }
    forall a | a in Shifts(ap) ensures exists i <- at :: rel(i, a) {
      var i: nat :| i < |ap| && ap[i] == a;
      assert i in at && rel(i, a);
    }
    Corresponding(at, Shifts(ap), rel);
  }

  lemma FirstShifts(ap: seq<Action>, at: set<nat>)
    requires forall i: nat :: i in at <==> ShiftAt(ap, i) && !AgainAt(ap, i)
    ensures |at| == |ShiftCodes(ap)|
  {
    hide AgainAt;
    var rel := (i: nat, t: nat) => i < |ap| && t == ap[i].sp;
    forall i | i in at ensures exists t <- ShiftCodes(ap) :: rel(i, t) {
      assert ap[i] in ap;
      assert ap[i].sp in ShiftCodes(ap) && rel(i, ap[i].sp);
    }
    forall t | t in ShiftCodes(ap) ensures exists i <- at :: rel(i, t) {
      var a :| a in ap && a.kind == SHIFT && a.sp == t;
      var k: nat :| k < |ap| && ap[k] == a;
      var i := FirstShift(ap, k);
      assert i in at && rel(i, t);
    }
    forall i, j, t | i in at && j in at && t in ShiftCodes(ap) && rel(i, t) && rel(j, t) ensures i == j {
      FirstOnce(ap, i, j);
    }
    Corresponding(at, ShiftCodes(ap), rel);
  }

  lemma FirstOnce(ap: seq<Action>, i: nat, j: nat)
    requires ShiftAt(ap, i) && ShiftAt(ap, j) && ap[i].sp == ap[j].sp && !AgainAt(ap, i) && !AgainAt(ap, j)
    ensures i == j
  {
  }

  lemma {:induction false} FirstShift(ap: seq<Action>, k: nat) returns (i: nat)
    requires ShiftAt(ap, k)
    ensures ShiftAt(ap, i) && !AgainAt(ap, i) && ap[i].sp == ap[k].sp
    decreases k
  {
    i := k;
    if j: nat :| j < k && ap[j].sp == ap[k].sp && ap[j].kind == SHIFT { i := FirstShift(ap, j); }
  }

  // The number of conflicts is what the entered actions say.
  lemma SortedCount(p: Precedences, ap0: seq<Action>, ap: seq<Action>)
    requires Sorted(ap0) && Resolved(p, ap0, ap)
    ensures Conflicts(ap) == ConflictCount(p, ap0)
  {
    hide Sorted, Disputed, RulesOn, ShiftOn, Resolved, IsConflict, Conflicts, Marked, DisputedAt, ShiftAt, AgainAt;
    ConflictsAreMarked(ap);
    SortedBasics(p, ap0, ap);
    var disputed := set i: nat | i < |ap0| && DisputedAt(p, ap0, i);
    var shifts := set i: nat | i < |ap0| && ShiftAt(ap0, i);
    var again := set i: nat | i < |ap0| && AgainAt(ap0, i);
    OnlyInList(p, ap0);
    MarkedSplit(p, ap0, ap, disputed, again);
    DisputesAt(p, ap0, disputed);
    ShiftsAt(ap0, shifts);
    FirstShifts(ap0, shifts - again);
    CountParts(disputed, again, shifts);
  }

  lemma CountParts(disputed: set<nat>, again: set<nat>, shifts: set<nat>)
    requires disputed !! again && again <= shifts
    ensures |disputed + again| == |disputed| + |shifts| - |shifts - again|
  {
    assert shifts == (shifts - again) + again;
  }

  lemma OnlyInList(p: Precedences, ap: seq<Action>)
    ensures forall i: nat | DisputedAt(p, ap, i) :: i < |ap|
    ensures forall i: nat | ShiftAt(ap, i) :: i < |ap|
    ensures forall i: nat | AgainAt(ap, i) :: ShiftAt(ap, i)
  {
  }

  lemma MarkedSplit(p: Precedences, ap0: seq<Action>, ap: seq<Action>, disputed: set<nat>, again: set<nat>)
    requires Sorted(ap0) && Resolved(p, ap0, ap)
    requires forall i: nat :: i in disputed <==> i < |ap0| && DisputedAt(p, ap0, i)
    requires forall i: nat :: i in again <==> i < |ap0| && AgainAt(ap0, i)
    ensures Marked(ap) == disputed + again && disputed !! again
  {
    hide Sorted, Disputed, RulesOn, ShiftOn, Resolved, IsConflict;
    SortedBasics(p, ap0, ap);
    forall i: nat | i < |ap0| ensures i in Marked(ap) <==> i in disputed + again { MarkedWhere(p, ap0, ap, i); }
  }

  lemma SortedBasics(p: Precedences, ap0: seq<Action>, ap: seq<Action>)
    requires Sorted(ap0) && Resolved(p, ap0, ap)
    ensures |ap| == |ap0| && RulesOnce(ap0) && NoTies(ap0)
  {
  }

  lemma MarkedWhere(p: Precedences, ap0: seq<Action>, ap: seq<Action>, i: nat)
    requires Sorted(ap0) && Resolved(p, ap0, ap) && i < |ap0|
    ensures |ap| == |ap0| && (IsConflict(ap[i]) <==> DisputedAt(p, ap0, i) || AgainAt(ap0, i))
  {
    hide Disputed, RulesOn, ShiftOn;
    AcceptStays(p, ap0, ap, i);
    assert ap0[i] in ap0;
    if ap0[i].kind != ACCEPT { Fate(p, ap0, ap, i); }
  }
}

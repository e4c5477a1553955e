/** The conflict-resolution loops of FindActions: two nested loops over a sorted action list, which for every
  look-ahead amount to one round of knock-out among its actions. */
module Resolve {
  import opened Sorting
  import opened ActionLists

  // A maximal run [lo, hi) of actions with one look-ahead.
  ghost predicate IsGroup(ap: seq<Action>, lo: nat, hi: nat) {
    && lo < hi <= |ap|
    && (forall i | lo <= i < hi :: ap[i].sp == ap[lo].sp)
    && (lo > 0 ==> ap[lo - 1].sp != ap[lo].sp)
    && (hi < |ap| ==> ap[hi].sp != ap[lo].sp)
  }

  // Shifts before reductions, and nothing else if there is more than one action.
  ghost predicate GroupOK(ap: seq<Action>, lo: nat, hi: nat)
    requires hi <= |ap|
  {
    lo + 1 < hi ==>
      && (forall i | lo <= i < hi :: ap[i].kind == SHIFT || ap[i].kind == REDUCE)
      && (forall i, j | lo <= i < j < hi && ap[i].kind == REDUCE :: ap[j].kind == REDUCE)
  }

  // The one left of ap[lo..k] when the first fights the second, the winner the third, and so on.
  function Champion(p: Precedences, ap: seq<Action>, lo: nat, k: nat): (c: nat)
    requires lo < k <= |ap|
    ensures lo <= c < k
    decreases k - lo
  {
    if k == lo + 1 then lo
    else
      var c := Champion(p, ap, lo, k - 1);
      if FirstWins(p, ap[c], ap[k - 1]) then c else k - 1
  }

  ghost predicate Dead(a: Action, b: Action) {
    !Live(b) && b == a.(kind := b.kind)
  }

  // c alone is alive.
  ghost predicate OnlyAlive(ap0: seq<Action>, ap: seq<Action>, lo: nat, hi: nat, c: nat) {
    && lo <= c < hi <= |ap0| == |ap|
    && ap[c] == ap0[c]
    && forall i | lo <= i < hi && i != c :: Dead(ap0[i], ap[i])
  }

  // Everything from k on is alive, everything before has lost.
  ghost predicate AliveFrom(ap0: seq<Action>, ap: seq<Action>, lo: nat, hi: nat, k: nat) {
    && lo <= k < hi <= |ap0| == |ap|
    && (forall i | lo <= i < k :: Dead(ap0[i], ap[i]))
    && (forall i | k <= i < hi :: ap[i] == ap0[i])
  }

  // Before the outer loop reaches i: the fight is decided, or the champion so far is still to come.
  ghost predicate Fought(p: Precedences, ap0: seq<Action>, ap: seq<Action>, lo: nat, hi: nat, i: nat)
    requires lo < hi <= |ap0|
  {
    || (OnlyAlive(ap0, ap, lo, hi, Champion(p, ap0, lo, hi)) && Champion(p, ap0, lo, hi) < i)
    || (exists k :: i <= k < hi && AliveFrom(ap0, ap, lo, hi, k) && k == Champion(p, ap0, lo, k + 1))
  }

  // Within turn i, before it meets j: i has won so far, or has lost to a later one, or was dead to begin with.
  ghost predicate Fighting(p: Precedences, ap0: seq<Action>, ap: seq<Action>, lo: nat, hi: nat, i: nat, j: nat)
    requires lo < hi <= |ap0|
  {
    && lo <= i < j <= hi && |ap| == |ap0|
    && (|| Fought(p, ap0, ap, lo, hi, i + 1)
        || (Champion(p, ap0, lo, j) == i && ap[i] == ap0[i]
            && (forall m | lo <= m < j && m != i :: Dead(ap0[m], ap[m]))
            && (forall m | j <= m < hi :: ap[m] == ap0[m])))
  }

  predicate IsConflict(a: Action) {
    a.kind == SSCONFLICT || a.kind == SRCONFLICT || a.kind == RRCONFLICT
  }

  // Action i lost its first meeting, with the one left of those before it, and precedence did not decide.
  predicate Reported(p: Precedences, ap: seq<Action>, lo: nat, i: nat)
    requires i < |ap|
  {
    lo < i && ResolveConflict(p, ap[Champion(p, ap, lo, i)], ap[i]).2 > 0
  }

  // Of the actions that have lost, just these are entered as conflicts.
  ghost predicate MarksOK(p: Precedences, ap0: seq<Action>, ap: seq<Action>, lo: nat, hi: nat) {
    && |ap| == |ap0| && hi <= |ap0|
    && forall i | lo <= i < hi && ap[i] != ap0[i] :: IsConflict(ap[i]) <==> Reported(p, ap0, lo, i)
  }

  lemma {:induction false} ChampionWon(p: Precedences, ap: seq<Action>, lo: nat, i: nat, k: nat)
    requires lo <= i < k <= |ap| && Champion(p, ap, lo, k) == i
    ensures Champion(p, ap, lo, i + 1) == i
    decreases k
  {
    if k > i + 1 { ChampionWon(p, ap, lo, i, k - 1); }
  }

  // One meeting leaves the marks right.
  lemma MeetingMarks(p: Precedences, ap0: seq<Action>, ap: seq<Action>, lo: nat, hi: nat, i: nat, j: nat)
    requires lo < hi <= |ap0| && GroupOK(ap0, lo, hi) && j < hi && Fighting(p, ap0, ap, lo, hi, i, j)
    requires MarksOK(p, ap0, ap, lo, hi)
    ensures var (x, y, err) := ResolveConflict(p, ap[i], ap[j]); MarksOK(p, ap0, ap[i := x][j := y], lo, hi)
  {
    var (x, y, err) := ResolveConflict(p, ap[i], ap[j]);
    if Fought(p, ap0, ap, lo, hi, i + 1) {
      FoughtOneDead(p, ap0, ap, lo, hi, i, j);
      DeadStaysOut(p, ap[i], ap[j]);
      assert ap[i := x][j := y] == ap;
    } else {
      assert ap0[i].kind == REDUCE ==> ap0[j].kind == REDUCE;
      LoserMarked(p, ap[i], ap[j]);
      ChampionWon(p, ap0, lo, i, j);
      if i > lo {
        var c := Champion(p, ap0, lo, i);
        assert ap0[c].kind == REDUCE ==> ap0[i].kind == REDUCE;
        LoserMarked(p, ap0[c], ap0[i]);
      }
    }
  }

  // The loser is entered as a conflict if and only if one is counted, and none is counted if the first one loses.
  lemma LoserMarked(p: Precedences, x: Action, y: Action)
    requires (x.kind == SHIFT && (y.kind == SHIFT || y.kind == REDUCE)) || (x.kind == REDUCE && y.kind == REDUCE)
    ensures var (x', y', err) := ResolveConflict(p, x, y);
      && (if FirstWins(p, x, y) then x' == x && y' != y && (IsConflict(y') <==> err > 0)
          else y' == y && !IsConflict(x') && err == 0)
  {
  }

  // Nothing outside [lo, hi) changes.
  ghost predicate SameOutside(a: seq<Action>, b: seq<Action>, lo: nat, hi: nat) {
    |a| == |b| && forall i | 0 <= i < |a| && !(lo <= i < hi) :: a[i] == b[i]
  }

  lemma TurnStarts(p: Precedences, ap0: seq<Action>, ap: seq<Action>, lo: nat, hi: nat, i: nat)
    requires lo < hi <= |ap0| && Fought(p, ap0, ap, lo, hi, i) && lo <= i < hi
    ensures Fighting(p, ap0, ap, lo, hi, i, i + 1)
  {
    if !Fought(p, ap0, ap, lo, hi, i + 1) {
      assert AliveFrom(ap0, ap, lo, hi, i) && i == Champion(p, ap0, lo, i + 1);
    }
  }

  // One meeting of the inner loop.
  lemma Meeting(p: Precedences, ap0: seq<Action>, ap: seq<Action>, lo: nat, hi: nat, i: nat, j: nat)
    requires lo < hi <= |ap0| && GroupOK(ap0, lo, hi) && j < hi && Fighting(p, ap0, ap, lo, hi, i, j)
    requires forall m | lo <= m < hi :: ap0[m].sp == ap0[lo].sp
    requires p.Declared()
    ensures Resolvable(p, ap[i], ap[j])
    ensures var (x, y, err) := ResolveConflict(p, ap[i], ap[j]);
      Fighting(p, ap0, ap[i := x][j := y], lo, hi, i, j + 1)
  {
    var (x, y, err) := ResolveConflict(p, ap[i], ap[j]);
    var ap' := ap[i := x][j := y];
    if Fought(p, ap0, ap, lo, hi, i + 1) {
      FoughtOneDead(p, ap0, ap, lo, hi, i, j);
      DeadStaysOut(p, ap[i], ap[j]);
      assert ap' == ap;
    } else {
      assert ap0[i].kind == REDUCE ==> ap0[j].kind == REDUCE;
      OneSurvives(p, ap[i], ap[j]);
      if FirstWins(p, ap[i], ap[j]) {
        assert Champion(p, ap0, lo, j + 1) == i;
      } else {
        assert Champion(p, ap0, lo, j + 1) == j;
        assert AliveFrom(ap0, ap', lo, hi, j);
      }
    }
  }

  // Once the turn of i is decided, i itself or whatever it meets is dead.
  lemma FoughtOneDead(p: Precedences, ap0: seq<Action>, ap: seq<Action>, lo: nat, hi: nat, i: nat, j: nat)
    requires lo <= i < j < hi <= |ap0| && Fought(p, ap0, ap, lo, hi, i + 1)
    ensures |ap| == |ap0| && (!Live(ap[i]) || !Live(ap[j])) && ap[i].sp == ap0[i].sp && ap[j].sp == ap0[j].sp
  {
    if OnlyAlive(ap0, ap, lo, hi, Champion(p, ap0, lo, hi)) && Champion(p, ap0, lo, hi) < i + 1 {
      assert Dead(ap0[j], ap[j]);
    } else {
      var k :| i + 1 <= k < hi && AliveFrom(ap0, ap, lo, hi, k) && k == Champion(p, ap0, lo, k + 1);
      assert Dead(ap0[i], ap[i]);
      assert ap[j].sp == ap0[j].sp by { if j < k { assert Dead(ap0[j], ap[j]); } }
    }
  }

  lemma TurnEnds(p: Precedences, ap0: seq<Action>, ap: seq<Action>, lo: nat, hi: nat, i: nat)
    requires lo < hi <= |ap0| && Fighting(p, ap0, ap, lo, hi, i, hi)
    ensures Fought(p, ap0, ap, lo, hi, i + 1)
  {
  }

  lemma FightEnds(p: Precedences, ap0: seq<Action>, ap: seq<Action>, lo: nat, hi: nat)
    requires lo < hi <= |ap0| && Fought(p, ap0, ap, lo, hi, hi)
    ensures OnlyAlive(ap0, ap, lo, hi, Champion(p, ap0, lo, hi))
  {
  }

  lemma FightStarts(p: Precedences, ap0: seq<Action>, ap: seq<Action>, lo: nat, hi: nat)
    requires lo < hi <= |ap0| == |ap| && forall i | lo <= i < hi :: ap[i] == ap0[i]
    ensures Fought(p, ap0, ap, lo, hi, lo)
  {
    assert AliveFrom(ap0, ap, lo, hi, lo) && lo == Champion(p, ap0, lo, lo + 1);
  }

  // ---- counting conflicts ----

  function Conflicts(ap: seq<Action>): nat {
    if ap == [] then 0 else Conflicts(ap[..|ap| - 1]) + if IsConflict(ap[|ap| - 1]) then 1 else 0
  }

  lemma {:induction false} ConflictsUpdate(ap: seq<Action>, i: nat, a: Action)
    requires i < |ap|
    ensures Conflicts(ap[i := a]) - (if IsConflict(a) then 1 else 0)
      == Conflicts(ap) - (if IsConflict(ap[i]) then 1 else 0)
  {
    var n := |ap| - 1;
    if i == n {
      assert ap[i := a][..n] == ap[..n];
    } else {
      assert ap[i := a][..n] == ap[..n][i := a];
      ConflictsUpdate(ap[..n], i, a);
    }
  }

  lemma ConflictsOfPair(p: Precedences, ap: seq<Action>, i: nat, j: nat)
    requires i < j < |ap|
    ensures var (x, y, err) := ResolveConflict(p, ap[i], ap[j]); Conflicts(ap[i := x][j := y]) == Conflicts(ap) + err
  {
    var (x, y, err) := ResolveConflict(p, ap[i], ap[j]);
    ConflictsUpdate(ap, i, x);
    ConflictsUpdate(ap[i := x], j, y);
  }

  // An action that is not alive counts as a conflict.
  ghost predicate NoneSilent(ap: seq<Action>) {
    forall a <- ap :: Live(a) || IsConflict(a)
  }

  // Without precedences whatever loses is reported.
  lemma LosersReported(p: Precedences, ap: seq<Action>, i: nat, j: nat)
    requires i < j < |ap| && (p.Undeclared() ==> NoneSilent(ap))
    ensures var (x, y, err) := ResolveConflict(p, ap[i], ap[j]); p.Undeclared() ==> NoneSilent(ap[i := x][j := y])
  {
    assert ap[i] in ap && ap[j] in ap;
    var (x, y, err) := ResolveConflict(p, ap[i], ap[j]);
    forall a | a in ap[i := x][j := y] ensures a == x || a == y || a in ap {}
  }

  lemma {:induction false} NoConflictAllAlive(ap: seq<Action>)
    requires NoneSilent(ap) && Conflicts(ap) == 0
    ensures forall a <- ap :: Live(a)
  {
    if ap != [] {
      var n := |ap| - 1;
      assert ap == ap[..n] + [ap[n]];
      forall a | a in ap[..n] ensures a in ap {}
      assert ap[n] in ap;
      NoConflictAllAlive(ap[..n]);
    }
  }

  // ---- the loops ----

  ghost predicate GroupState(p: Precedences, ap0: seq<Action>, ap: seq<Action>, lo: nat, hi: nat, i: nat)
    requires lo < hi <= |ap0| == |ap|
  {
    if hi <= i then OnlyAlive(ap0, ap, lo, hi, Champion(p, ap0, lo, hi))
    else if lo <= i then Fought(p, ap0, ap, lo, hi, i)
    else forall m | lo <= m < hi :: ap[m] == ap0[m]
  }

  ghost predicate AllGroups(p: Precedences, ap0: seq<Action>, ap: seq<Action>, i: nat) {
    && |ap| == |ap0|
    && (forall m | 0 <= m < |ap| :: ap[m].sp == ap0[m].sp)
    && forall lo: nat, hi: nat | IsGroup(ap0, lo, hi) :: GroupState(p, ap0, ap, lo, hi, i)
  }

  // The turn of action i: it meets every later action with the same look-ahead.
  method ResolveTurn(p: Precedences, ap1: seq<Action>, i: nat, ghost ap0: seq<Action>, ghost lo: nat, ghost hi: nat)
    returns (ap: seq<Action>, conflicts: nat)
    requires p.Declared() && IsGroup(ap0, lo, hi) && GroupOK(ap0, lo, hi) && lo <= i < hi
    requires |ap1| == |ap0| && (forall m | 0 <= m < |ap1| :: ap1[m].sp == ap0[m].sp)
    requires Fought(p, ap0, ap1, lo, hi, i) && MarksOK(p, ap0, ap1, lo, hi)
    ensures Fought(p, ap0, ap, lo, hi, i + 1) && SameOutside(ap1, ap, lo, hi) && MarksOK(p, ap0, ap, lo, hi)
    ensures (forall m | 0 <= m < |ap| :: ap[m].sp == ap0[m].sp)
    ensures Conflicts(ap) == Conflicts(ap1) + conflicts
    ensures p.Undeclared() && NoneSilent(ap1) ==> NoneSilent(ap)
  {
    hide Fighting, Fought, MarksOK, Conflicts, ResolveConflict, NoneSilent;
    ap, conflicts := ap1, 0;
    TurnStarts(p, ap0, ap, lo, hi, i);
    var j := i + 1;
    while j < |ap| && ap[j].sp == ap[i].sp
      invariant i < j <= hi && SameOutside(ap1, ap, lo, hi)
      invariant forall m | 0 <= m < |ap| :: ap[m].sp == ap0[m].sp
      invariant Fighting(p, ap0, ap, lo, hi, i, j) && MarksOK(p, ap0, ap, lo, hi)
      invariant Conflicts(ap) == Conflicts(ap1) + conflicts
      invariant p.Undeclared() && NoneSilent(ap1) ==> NoneSilent(ap)
      decreases |ap| - j
    {
      if p.Undeclared() && NoneSilent(ap1) { LosersReported(p, ap, i, j); }
      Meeting(p, ap0, ap, lo, hi, i, j);
      MeetingMarks(p, ap0, ap, lo, hi, i, j);
      ConflictsOfPair(p, ap, i, j);
      ResolvedSp(p, ap[i], ap[j]);
      var (x, y, err) := ResolveConflict(p, ap[i], ap[j]);
      ap := ap[i := x][j := y];
      conflicts := conflicts + err;
      j := j + 1;
    }
    assert j == hi;
    TurnEnds(p, ap0, ap, lo, hi, i);
  }

  lemma ResolvedSp(p: Precedences, x: Action, y: Action)
    ensures ResolveConflict(p, x, y).0.sp == x.sp && ResolveConflict(p, x, y).1.sp == y.sp
  {
  }

  lemma GroupOf(ap: seq<Action>, i: nat) returns (lo: nat, hi: nat)
    requires i < |ap|
    ensures IsGroup(ap, lo, hi) && lo <= i < hi
  {
    lo := i;
    while lo > 0 && ap[lo - 1].sp == ap[i].sp
      invariant lo <= i && forall m | lo <= m <= i :: ap[m].sp == ap[i].sp
    {
      lo := lo - 1;
    }
    hi := i + 1;
    while hi < |ap| && ap[hi].sp == ap[i].sp
      invariant i < hi <= |ap| && forall m | lo <= m < hi :: ap[m].sp == ap[i].sp
    {
      hi := hi + 1;
    }
  }

  // Groups do not overlap.
  lemma GroupsDisjoint(ap: seq<Action>, lo: nat, hi: nat, lo': nat, hi': nat)
    requires IsGroup(ap, lo, hi) && IsGroup(ap, lo', hi')
    ensures (lo == lo' && hi == hi') || hi <= lo' || hi' <= lo
  {
  }

  lemma GroupsAfterTurn(p: Precedences, ap0: seq<Action>, ap1: seq<Action>, ap: seq<Action>, i: nat, lo: nat, hi: nat)
    requires AllGroups(p, ap0, ap1, i) && IsGroup(ap0, lo, hi) && lo <= i < hi
    requires Fought(p, ap0, ap, lo, hi, i + 1) && SameOutside(ap1, ap, lo, hi)
    requires forall m | 0 <= m < |ap| :: ap[m].sp == ap0[m].sp
    ensures AllGroups(p, ap0, ap, i + 1)
  {
    hide Fought, OnlyAlive;
    forall lo': nat, hi': nat | IsGroup(ap0, lo', hi') ensures GroupState(p, ap0, ap, lo', hi', i + 1) {
      GroupsDisjoint(ap0, lo, hi, lo', hi');
      if lo' == lo {
        if i + 1 == hi { FightEnds(p, ap0, ap, lo, hi); }
      } else {
        assert GroupState(p, ap0, ap1, lo', hi', i);
        OtherGroup(p, ap0, ap1, ap, lo, hi, lo', hi', i);
      }
    }
  }

  lemma OtherGroup(p: Precedences, ap0: seq<Action>, ap1: seq<Action>, ap: seq<Action>, lo: nat, hi: nat, lo': nat,
                   hi': nat, i: nat)
    requires lo <= i < hi && lo' < hi' <= |ap0| == |ap1| && (hi <= lo' || hi' <= lo)
    requires SameOutside(ap1, ap, lo, hi) && GroupState(p, ap0, ap1, lo', hi', i)
    ensures GroupState(p, ap0, ap, lo', hi', i + 1)
  {
    forall m | lo' <= m < hi' ensures ap[m] == ap1[m] {}
    if lo' == i + 1 { FightStarts(p, ap0, ap, lo', hi'); }
  }

  lemma LastTurn(p: Precedences, ap0: seq<Action>, ap: seq<Action>)
    requires |ap| > 0 && AllGroups(p, ap0, ap, |ap| - 1)
    ensures AllGroups(p, ap0, ap, |ap|)
  {
    forall lo: nat, hi: nat | IsGroup(ap0, lo, hi) ensures GroupState(p, ap0, ap, lo, hi, |ap|) {
      assert GroupState(p, ap0, ap, lo, hi, |ap| - 1);
      if hi == |ap| {
        var k := Champion(p, ap0, lo, hi);
        assert OnlyAlive(ap0, ap, lo, hi, k);
      }
    }
  }

  lemma GroupsAtStart(p: Precedences, ap: seq<Action>)
    ensures AllGroups(p, ap, ap, 0)
  {
    forall lo: nat, hi: nat | IsGroup(ap, lo, hi) ensures GroupState(p, ap, ap, lo, hi, 0) {
      if lo == 0 { FightStarts(p, ap, ap, lo, hi); }
    }
  }

  ghost predicate AllMarked(p: Precedences, ap0: seq<Action>, ap: seq<Action>) {
    forall lo: nat, hi: nat | IsGroup(ap0, lo, hi) :: MarksOK(p, ap0, ap, lo, hi)
  }

  lemma MarksAfterTurn(p: Precedences, ap0: seq<Action>, ap1: seq<Action>, ap: seq<Action>, lo: nat, hi: nat)
    requires AllMarked(p, ap0, ap1) && IsGroup(ap0, lo, hi) && MarksOK(p, ap0, ap, lo, hi)
    requires SameOutside(ap1, ap, lo, hi)
    ensures AllMarked(p, ap0, ap)
  {
    hide Reported, IsConflict;
    forall lo': nat, hi': nat | IsGroup(ap0, lo', hi') ensures MarksOK(p, ap0, ap, lo', hi') {
      GroupsDisjoint(ap0, lo, hi, lo', hi');
      assert MarksOK(p, ap0, ap1, lo', hi');
    }
  }

  ghost predicate GroupsOK(ap: seq<Action>) {
    forall lo: nat, hi: nat | IsGroup(ap, lo, hi) :: GroupOK(ap, lo, hi)
  }

  // The "Resolve conflicts" loops of FindActions for one state.
  method ResolveConflicts(p: Precedences, ap0: seq<Action>) returns (ap: seq<Action>, conflicts: nat)
    requires p.Declared() && GroupsOK(ap0)
    ensures |ap| == |ap0| && forall lo: nat, hi: nat | IsGroup(ap0, lo, hi) ::
      OnlyAlive(ap0, ap, lo, hi, Champion(p, ap0, lo, hi))
    ensures AllMarked(p, ap0, ap)
    ensures Conflicts(ap) == Conflicts(ap0) + conflicts
    ensures p.Undeclared() && NoneSilent(ap0) ==> NoneSilent(ap)
  {
    hide Fought, MarksOK, Conflicts, GroupOK, IsGroup, OnlyAlive, GroupState, NoneSilent;
    ap, conflicts := ap0, 0;
    GroupsAtStart(p, ap0);
    MarksAtStart(p, ap0);
    var i := 0;
    while i + 1 < |ap|
      invariant |ap| == |ap0| && 0 <= i && (i < |ap| || |ap| == 0)
      invariant AllGroups(p, ap0, ap, i) && AllMarked(p, ap0, ap)
      invariant Conflicts(ap) == Conflicts(ap0) + conflicts
      invariant p.Undeclared() && NoneSilent(ap0) ==> NoneSilent(ap)
    {
      ghost var lo, hi := GroupOf(ap0, i);
      ghost var ap1 := ap;
      GroupInTurn(p, ap0, ap, lo, hi, i);
      var c;
      ap, c := ResolveTurn(p, ap, i, ap0, lo, hi);
      conflicts := conflicts + c;
      GroupsAfterTurn(p, ap0, ap1, ap, i, lo, hi);
      MarksAfterTurn(p, ap0, ap1, ap, lo, hi);
      i := i + 1;
    }
    if |ap| > 0 { LastTurn(p, ap0, ap); }
    GroupsDone(p, ap0, ap);
  }

  lemma MarksAtStart(p: Precedences, ap: seq<Action>)
    ensures AllMarked(p, ap, ap)
  {
  }

  lemma GroupInTurn(p: Precedences, ap0: seq<Action>, ap: seq<Action>, lo: nat, hi: nat, i: nat)
    requires AllGroups(p, ap0, ap, i) && IsGroup(ap0, lo, hi) && lo <= i < hi
    ensures Fought(p, ap0, ap, lo, hi, i)
  {
    assert GroupState(p, ap0, ap, lo, hi, i);
  }

  lemma GroupsDone(p: Precedences, ap0: seq<Action>, ap: seq<Action>)
    requires AllGroups(p, ap0, ap, |ap|)
    ensures forall lo: nat, hi: nat | IsGroup(ap0, lo, hi) :: OnlyAlive(ap0, ap, lo, hi, Champion(p, ap0, lo, hi))
  {
    forall lo: nat, hi: nat | IsGroup(ap0, lo, hi) ensures OnlyAlive(ap0, ap, lo, hi, Champion(p, ap0, lo, hi)) {
      assert GroupState(p, ap0, ap, lo, hi, |ap|);
    }
  }

  // ---- what a resolved list is ----

  // Kinds as entered, and an accepting action shares its look-ahead with no other.
  ghost predicate AsEntered(ap: seq<Action>) {
    && (forall a <- ap :: a.kind == SHIFT || a.kind == REDUCE || a.kind == ACCEPT)
    && (forall i, j | 0 <= i < |ap| && 0 <= j < |ap| && i != j && ap[i].kind == ACCEPT :: ap[j].sp != ap[i].sp)
  }

  lemma SortedGroupsOK(ap: seq<Action>)
    requires Ordered(ap, ActionLe) && AsEntered(ap)
    ensures GroupsOK(ap)
  {
    forall lo: nat, hi: nat | IsGroup(ap, lo, hi) ensures GroupOK(ap, lo, hi) {
      if lo + 1 < hi {
        forall i | lo <= i < hi ensures ap[i].kind == SHIFT || ap[i].kind == REDUCE {
          assert ap[i] in ap;
          var j := if i == lo then lo + 1 else lo;
          assert ap[j].sp == ap[i].sp;
        }
        forall i, j | lo <= i < j < hi && ap[i].kind == REDUCE ensures ap[j].kind == REDUCE {
          assert ActionLe(ap[i], ap[j]);
        }
      }
    }
  }

  ghost predicate Deterministic(ap: seq<Action>) {
    forall i, j | 0 <= i < j < |ap| && Live(ap[i]) && Live(ap[j]) :: ap[i].sp != ap[j].sp
  }

  // Each action is what was entered, or was killed.
  ghost predicate Thinned(ap0: seq<Action>, ap: seq<Action>) {
    |ap| == |ap0| && forall i | 0 <= i < |ap| :: ap[i] == ap0[i] || Dead(ap0[i], ap[i])
  }

  // Every look-ahead that had an action has one that is alive.
  ghost predicate StillServed(ap0: seq<Action>, ap: seq<Action>) {
    forall a0 <- ap0 :: Served(ap, a0.sp)
  }

  ghost predicate Served(ap: seq<Action>, sp: nat) {
    exists a <- ap :: Live(a) && a.sp == sp
  }

  // Conflict resolution makes the table deterministic: of the actions on one look-ahead exactly one stays alive.
  lemma ResolvedDeterministic(p: Precedences, ap0: seq<Action>, ap: seq<Action>)
    requires Ordered(ap0, ActionLe) && AsEntered(ap0)
    requires |ap| == |ap0| && forall lo: nat, hi: nat | IsGroup(ap0, lo, hi) ::
      OnlyAlive(ap0, ap, lo, hi, Champion(p, ap0, lo, hi))
    ensures Thinned(ap0, ap) && StillServed(ap0, ap) && Deterministic(ap)
  {
    forall i | 0 <= i < |ap| ensures ap[i] == ap0[i] || Dead(ap0[i], ap[i]) {
      var lo, hi := GroupOf(ap0, i);
    }
    forall a0 | a0 in ap0 ensures Served(ap, a0.sp) {
      var i :| 0 <= i < |ap0| && ap0[i] == a0;
      var lo, hi := GroupOf(ap0, i);
      var c := Champion(p, ap0, lo, hi);
      assert ap[c] in ap && ap0[c] in ap0 && ap[c] == ap0[c];
    }
    forall i, j | 0 <= i < j < |ap| && Live(ap[i]) && Live(ap[j]) ensures ap[i].sp != ap[j].sp {
      var lo, hi := GroupOf(ap0, i);
      if j < hi {
        assert OnlyAlive(ap0, ap, lo, hi, Champion(p, ap0, lo, hi));
      } else {
        assert ActionLe(ap0[i], ap0[hi]) && (hi < j ==> ActionLe(ap0[hi], ap0[j]));
      }
    }
  }

  // If nothing was killed, nothing was changed.
  lemma NothingKilled(ap0: seq<Action>, ap: seq<Action>)
    requires Thinned(ap0, ap) && forall a <- ap :: Live(a)
    ensures ap == ap0
  {
  }

  // ---- without conflicts ----

  // No two actions on one look-ahead.
  ghost predicate OneEach(ap: seq<Action>) {
    forall i, j | 0 <= i < j < |ap| :: ap[i].sp != ap[j].sp
  }

  lemma OneEachPermuted(a: seq<Action>, b: seq<Action>)
    requires OneEach(a) && multiset(a) == multiset(b)
    ensures OneEach(b)
  {
    SameMembers(a, b);
    assert AllDifferent(a);
    DistinctPermute(a, b);
    forall i, j | 0 <= i < j < |b| ensures b[i].sp != b[j].sp {
      assert b[i] in a && b[j] in a && b[i] != b[j];
      var k :| 0 <= k < |a| && a[k] == b[i];
      var l :| 0 <= l < |a| && a[l] == b[j];
    }
  }

  // Where no look-ahead has two actions nothing is resolved.
  lemma NobodyFights(p: Precedences, ap0: seq<Action>, ap: seq<Action>)
    requires |ap| == |ap0| && forall lo: nat, hi: nat | IsGroup(ap0, lo, hi) ::
      OnlyAlive(ap0, ap, lo, hi, Champion(p, ap0, lo, hi))
    requires OneEach(ap0)
    ensures ap == ap0
  {
    forall i: nat | i < |ap0| ensures ap[i] == ap0[i] {
      assert IsGroup(ap0, i, i + 1);
      assert OnlyAlive(ap0, ap, i, i + 1, Champion(p, ap0, i, i + 1));
    }
  }

  // Where everything stays alive, no look-ahead had two actions.
  lemma AllAliveOneEach(ap0: seq<Action>, ap: seq<Action>)
    requires Thinned(ap0, ap) && Deterministic(ap) && forall a <- ap :: Live(a)
    ensures OneEach(ap0)
  {
    NothingKilled(ap0, ap);
    forall i, j | 0 <= i < j < |ap| ensures ap[i].sp != ap[j].sp { assert ap[i] in ap && ap[j] in ap; }
  }
}

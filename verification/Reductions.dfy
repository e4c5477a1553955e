/** FindActions: reduce actions from the look-ahead sets, the accepting action, and the resolution of conflicts. */
module Reductions {
  import opened Grammars
  import opened Sorting
  import opened Configs
  import opened ActionLists
  import opened Resolve
  import opened Collection
  import opened Verdicts
  import opened Outcomes
  import opened Numbers

  // c is at the end of its rule.
  predicate AtRuleEnd(g: Grammar, cs: Pool, c: nat) {
    ItemOf(cs, c).rule < |g.rules| && ItemOf(cs, c).dot == |g.rules[ItemOf(cs, c).rule].rhs|
  }

  function FwsOf(cs: Pool, c: nat): set<nat> {
    if c < |cs| then cs[c].fws else {}
  }

  // State st reduces by rule r on t.
  ghost predicate CallsForReduce(g: Grammar, cs: Pool, ids: seq<nat>, t: nat, r: nat) {
    t < g.nterminal && exists c <- ids :: AtRuleEnd(g, cs, c) && ItemOf(cs, c).rule == r && t in FwsOf(cs, c)
  }

  // An action that FindActions enters, besides the shifts there already.
  ghost predicate CalledFor(g: Grammar, cs: Pool, st: State, isFirst: bool, a: Action) {
    || a in st.ap
    || (a.kind == REDUCE && CallsForReduce(g, cs, st.cfp, a.sp, a.x))
    || (isFirst && a.kind == ACCEPT && a.sp == g.start)
  }

  ghost predicate HasAction(ap: seq<Action>, sp: nat, kind: Kind, x: nat) {
    exists a <- ap :: a.sp == sp && a.kind == kind && a.x == x
  }

  // All that was called for has been entered, and nothing else.
  ghost predicate Entered(g: Grammar, cs: Pool, st: State, isFirst: bool, ap: seq<Action>) {
    && (forall a <- ap :: CalledFor(g, cs, st, isFirst, a))
    && (forall a <- st.ap :: a in ap)
    && (forall t: nat, r: nat | CallsForReduce(g, cs, st.cfp, t, r) :: HasAction(ap, t, REDUCE, r))
    && (isFirst ==> exists a <- ap :: a.kind == ACCEPT && a.sp == g.start)
    && OneAccept(ap)
  }

  ghost predicate OneAccept(ap: seq<Action>) {
    forall a <- ap | a.kind == ACCEPT :: multiset(ap)[a] == 1 && forall b <- ap | b.kind == ACCEPT :: b == a
  }

  // The reductions called for by ids stand before the shifts; a rule is entered once for a look-ahead.
  ghost predicate ReductionsSoFar(g: Grammar, cs: Pool, st: State, ids: seq<nat>, ap: seq<Action>) {
    && |st.ap| <= |ap| && ap[|ap| - |st.ap|..] == st.ap
    && (forall i | 0 <= i < |ap| - |st.ap| :: ap[i].kind == REDUCE && CallsForReduce(g, cs, ids, ap[i].sp, ap[i].x))
    && (forall i, j | 0 <= i < j < |ap| - |st.ap| && ap[i].sp == ap[j].sp :: ap[i].x != ap[j].x)
    && (forall t: nat, r: nat | CallsForReduce(g, cs, ids, t, r) :: HasAction(ap, t, REDUCE, r))
  }

  // The reductions of one configuration have been put in front of ap0.
  ghost predicate ReducedOne(g: Grammar, cs: Pool, c: nat, ap0: seq<Action>, ap: seq<Action>) {
    && |ap0| <= |ap| && ap[|ap| - |ap0|..] == ap0
    && (forall i | 0 <= i < |ap| - |ap0| ::
          ap[i].kind == REDUCE && ap[i].sp < g.nterminal && ap[i].sp in FwsOf(cs, c) && ap[i].x == ItemOf(cs, c).rule)
    && (forall i, j | 0 <= i < j < |ap| - |ap0| :: ap[i].sp > ap[j].sp)
  }

  // Action_add of the reductions of one configuration.
  method ReduceOne(g: Grammar, cs: Pool, c: nat, ap0: seq<Action>, nact0: nat) returns (ap: seq<Action>, nact: nat)
    requires AtRuleEnd(g, cs, c) && NoTies(ap0) && AddrBelow(ap0, nact0)
    ensures ReducedOne(g, cs, c, ap0, ap)
    ensures NoTies(ap) && AddrBelow(ap, nact) && nact >= nact0
    ensures forall t: nat | t < g.nterminal && t in FwsOf(cs, c) :: HasAction(ap, t, REDUCE, ItemOf(cs, c).rule)
  {
    hide ReducedOne, HasAction, NoTies, AddrBelow;
    ap, nact := ap0, nact0;
    var r := ItemOf(cs, c).rule;
    ReducedNone(g, cs, c, ap0);
    for j := 0 to g.nterminal
      invariant NoTies(ap) && AddrBelow(ap, nact) && nact >= nact0
      invariant ReducedOne(g, cs, c, ap0, ap) && |ap0| <= |ap| && forall i | 0 <= i < |ap| - |ap0| :: ap[i].sp < j
      invariant forall t: nat | t < j && t in FwsOf(cs, c) :: HasAction(ap, t, REDUCE, r)
    {
      if j in FwsOf(cs, c) {
        var a := Action(j, REDUCE, r, nact);
        ReducedMore(g, cs, c, ap0, ap, a);
        NoTiesPush(ap, a);
        HasActionPush(ap, a);
        ap := [a] + ap;
        nact := nact + 1;
      }
    }
  }

  lemma HasActionPush(ap: seq<Action>, a: Action)
    ensures forall sp, kind, x | HasAction(ap, sp, kind, x) :: HasAction([a] + ap, sp, kind, x)
    ensures HasAction([a] + ap, a.sp, a.kind, a.x)
    ensures forall b <- ap :: b in [a] + ap
  {
    forall sp, kind, x | HasAction(ap, sp, kind, x) ensures HasAction([a] + ap, sp, kind, x) {
      var b :| b in ap && b.sp == sp && b.kind == kind && b.x == x;
      assert b in [a] + ap;
    }
    assert a in [a] + ap;
  }

  // A new address is above all others.
  lemma NoTiesPush(ap: seq<Action>, a: Action)
    requires NoTies(ap) && AddrBelow(ap, a.addr)
    ensures NoTies([a] + ap) && AddrBelow([a] + ap, a.addr + 1)
  {
    forall i | 0 <= i < |ap| ensures ap[i].addr < a.addr { assert ap[i] in ap; }
  }

  lemma AddrBelowMore(ap: seq<Action>, nact: nat, nact': nat)
    requires AddrBelow(ap, nact) && nact <= nact'
    ensures AddrBelow(ap, nact')
  {
  }

  lemma ReducedNone(g: Grammar, cs: Pool, c: nat, ap: seq<Action>)
    ensures ReducedOne(g, cs, c, ap, ap)
  {
  }

  lemma ReducedMore(g: Grammar, cs: Pool, c: nat, ap0: seq<Action>, ap: seq<Action>, a: Action)
    requires ReducedOne(g, cs, c, ap0, ap) && a.kind == REDUCE && a.sp < g.nterminal && a.sp in FwsOf(cs, c)
      && a.x == ItemOf(cs, c).rule
    requires forall i | 0 <= i < |ap| - |ap0| :: ap[i].sp < a.sp
    ensures ReducedOne(g, cs, c, ap0, [a] + ap)
  {
    var ap' := [a] + ap;
    assert ap'[|ap'| - |ap0|..] == ap[|ap| - |ap0|..];
  }

  // The first loop of FindActions, for one state.
  method AddReductions(g: Grammar, cs: Pool, st: State, nact0: nat) returns (ap: seq<Action>, nact: nat)
    requires DistinctItems(cs, st.cfp) && NoTies(st.ap) && AddrBelow(st.ap, nact0)
    ensures ReductionsSoFar(g, cs, st, st.cfp, ap)
    ensures NoTies(ap) && AddrBelow(ap, nact) && nact >= nact0
  {
    hide ReductionsSoFar, ReducedOne, HasAction, NoTies, AddrBelow;
    ap, nact := st.ap, nact0;
    assert st.cfp[..0] == [];
    NoReductions(g, cs, st);
    for i := 0 to |st.cfp|
      invariant ReductionsSoFar(g, cs, st, st.cfp[..i], ap)
      invariant NoTies(ap) && AddrBelow(ap, nact) && nact >= nact0
    {
      var c := st.cfp[i];
      assert st.cfp[..i + 1] == st.cfp[..i] + [c];
      if AtRuleEnd(g, cs, c) {
        ghost var before := ap;
        ap, nact := ReduceOne(g, cs, c, ap, nact);
        ReductionsMore(g, cs, st, st.cfp[..i], c, before, ap);
      } else {
        ReductionsNoMore(g, cs, st, st.cfp[..i], c, ap);
      }
    }
    assert st.cfp[..|st.cfp|] == st.cfp;
  }

  lemma NoReductions(g: Grammar, cs: Pool, st: State)
    ensures ReductionsSoFar(g, cs, st, [], st.ap)
  {
  }

  lemma ReductionsNoMore(g: Grammar, cs: Pool, st: State, ids: seq<nat>, c: nat, ap: seq<Action>)
    requires ReductionsSoFar(g, cs, st, ids, ap) && !AtRuleEnd(g, cs, c)
    ensures ReductionsSoFar(g, cs, st, ids + [c], ap)
  {
    hide CallsForReduce;
    CallsForMore(g, cs, ids, c);
  }

  // A complete item of another rule, or of none so far.
  lemma ReductionsMore(g: Grammar, cs: Pool, st: State, ids: seq<nat>, c: nat, ap0: seq<Action>, ap: seq<Action>)
    requires ReductionsSoFar(g, cs, st, ids, ap0) && AtRuleEnd(g, cs, c) && ReducedOne(g, cs, c, ap0, ap)
    requires DistinctItems(cs, ids + [c])
    requires forall t: nat | t < g.nterminal && t in FwsOf(cs, c) :: HasAction(ap, t, REDUCE, ItemOf(cs, c).rule)
    ensures ReductionsSoFar(g, cs, st, ids + [c], ap)
  {
    hide CallsForReduce, HasAction;
    CallsForMore(g, cs, ids, c);
    var k, n := |ap| - |ap0|, |ap| - |st.ap|;
    assert forall i | k <= i < |ap| :: ap[i] == ap0[i - k];
    forall i, j | 0 <= i < j < n && ap[i].sp == ap[j].sp ensures ap[i].x != ap[j].x {
      if i < k <= j { OtherRule(g, cs, ids, c, ap0[j - k].sp, ap0[j - k].x); }
    }
    forall a | a in ap0 ensures a in ap {
      var i :| 0 <= i < |ap0| && ap0[i] == a;
      assert ap[i + k] == a;
    }
    HasActionMore(ap0, ap);
  }

  lemma OtherRule(g: Grammar, cs: Pool, ids: seq<nat>, c: nat, t: nat, r: nat)
    requires DistinctItems(cs, ids + [c]) && AtRuleEnd(g, cs, c) && CallsForReduce(g, cs, ids, t, r)
    ensures r != ItemOf(cs, c).rule
  {
    var d :| d in ids && AtRuleEnd(g, cs, d) && ItemOf(cs, d).rule == r && t in FwsOf(cs, d);
    var i :| 0 <= i < |ids| && ids[i] == d;
    assert (ids + [c])[i] == d && (ids + [c])[|ids|] == c;
  }

  lemma CallsForMore(g: Grammar, cs: Pool, ids: seq<nat>, c: nat)
    ensures forall t: nat, r: nat ::
      CallsForReduce(g, cs, ids + [c], t, r) <==> (CallsForReduce(g, cs, ids, t, r)
          || (t < g.nterminal && AtRuleEnd(g, cs, c) && ItemOf(cs, c).rule == r && t in FwsOf(cs, c)))
  {
    forall t: nat, r: nat ensures CallsForReduce(g, cs, ids + [c], t, r)
      <==> (CallsForReduce(g, cs, ids, t, r) || (t < g.nterminal && AtRuleEnd(g, cs, c) && ItemOf(cs, c).rule == r
          && t in FwsOf(cs, c)))
    {
      assert c in ids + [c];
      forall d | d in ids ensures d in ids + [c] {}
    }
  }

  lemma HasActionMore(a: seq<Action>, b: seq<Action>)
    requires forall x <- a :: x in b
    ensures forall sp, kind, x | HasAction(a, sp, kind, x) :: HasAction(b, sp, kind, x)
  {
  }

  // ---- what the finished actions of a state are ----

  // Alive actions were called for; on every look-ahead with a call one is alive, and only one; and if none had to
  // give way, all that was called for is there.
  ghost predicate Finished(g: Grammar, cs: Pool, st: State, isFirst: bool, ap: seq<Action>) {
    && (forall a <- ap | Live(a) :: CalledFor(g, cs, st, isFirst, a))
    && (forall a <- st.ap :: Served(ap, a.sp))
    && (forall t: nat, r: nat | CallsForReduce(g, cs, st.cfp, t, r) :: Served(ap, t))
    && (isFirst ==> Served(ap, g.start))
    && Deterministic(ap)
    && ((forall a <- ap :: Live(a)) ==> Entered(g, cs, st, isFirst, ap))
    && (forall a <- ap :: OnceCalledFor(g, cs, st, isFirst, a))
  }

  ghost predicate OnceCalledFor(g: Grammar, cs: Pool, st: State, isFirst: bool, a: Action) {
    exists a0 :: CalledFor(g, cs, st, isFirst, a0) && a.sp == a0.sp && a.x == a0.x && a.addr == a0.addr
  }

  ghost predicate ShiftsOnly(g: Grammar, st: State) {
    forall a <- st.ap :: a.kind == SHIFT && a.sp != g.start
  }

  lemma EnteredAsEntered(g: Grammar, cs: Pool, st: State, isFirst: bool, ap: seq<Action>)
    requires Entered(g, cs, st, isFirst, ap) && ShiftsOnly(g, st) && g.IsNonterminal(g.start)
    ensures AsEntered(ap)
  {
    forall a | a in ap ensures a.kind == SHIFT || a.kind == REDUCE || a.kind == ACCEPT {
      assert CalledFor(g, cs, st, isFirst, a);
    }
    forall i, j | 0 <= i < |ap| && 0 <= j < |ap| && i != j && ap[i].kind == ACCEPT ensures ap[j].sp != ap[i].sp {
      assert CalledFor(g, cs, st, isFirst, ap[i]) && CalledFor(g, cs, st, isFirst, ap[j]);
      assert ap[i] in ap && ap[j] in ap;
      if i < j { OccursTwice(ap, i, j); } else { OccursTwice(ap, j, i); }
    }
  }

  lemma EnteredPermuted(g: Grammar, cs: Pool, st: State, isFirst: bool, a: seq<Action>, b: seq<Action>)
    requires Entered(g, cs, st, isFirst, a) && multiset(a) == multiset(b)
    ensures Entered(g, cs, st, isFirst, b)
  {
    SameMembers(a, b);
    HasActionMore(a, b);
  }

  lemma ResolvedFinished(g: Grammar, cs: Pool, st: State, isFirst: bool, ap0: seq<Action>, ap: seq<Action>)
    requires Entered(g, cs, st, isFirst, ap0) && Thinned(ap0, ap) && StillServed(ap0, ap) && Deterministic(ap)
    ensures Finished(g, cs, st, isFirst, ap)
  {
    hide OneAccept, CallsForReduce;
    forall a | a in ap ensures OnceCalledFor(g, cs, st, isFirst, a) && (Live(a) ==> CalledFor(g, cs, st, isFirst, a)) {
      var i :| 0 <= i < |ap| && ap[i] == a;
      assert ap0[i] in ap0 && CalledFor(g, cs, st, isFirst, ap0[i]);
    }
    forall t: nat, r: nat | CallsForReduce(g, cs, st.cfp, t, r) ensures Served(ap, t) {
      assert HasAction(ap0, t, REDUCE, r);
    }
    if forall a <- ap :: Live(a) { NothingKilled(ap0, ap); }
  }

  // The conflict loop of FindActions, for one state: sort, then resolve.
  method FinishState(g: Grammar, cs: Pool, ghost st: State, isFirst: bool, p: Precedences, entered: seq<Action>)
    returns (ap: seq<Action>, conflicts: nat)
    requires g.IsNonterminal(g.start) && p.Declared() && ShiftsOnly(g, st) && Entered(g, cs, st, isFirst, entered)
    requires NoTies(entered) && RulesOnce(entered)
    ensures NoTies(ap) && Ascending(ap)
    ensures Decided(p, entered, ap) && conflicts == ConflictCount(p, entered)
    ensures Finished(g, cs, st, isFirst, ap) && conflicts == Conflicts(ap)
    ensures p.Undeclared() ==> NoneSilent(ap)
    ensures OneEach(entered) ==> conflicts == 0 && AllLive(ap)
    ensures p.Undeclared() && conflicts == 0 ==> OneEach(entered)
  {
    hide NoTies, OneEach, Thinned, Deterministic, NoneSilent, Finished, Conflicts, CalledFor, CallsForReduce, HasAction,
        Entered, RulesOnce, Decided, ConflictCount, AllMarked, Ascending;
    var sorted := SortActions(entered);
    EnteredPermuted(g, cs, st, isFirst, entered, sorted);
    EnteredAsEntered(g, cs, st, isFirst, sorted);
    ActionLePreorder();
    SortOrders(entered, ActionLe);
    SortedGroupsOK(sorted);
    NoConflictsYet(sorted);
    NoneSilentYet(sorted);
    ap, conflicts := ResolveConflicts(p, sorted);
    ResolvedDeterministic(p, sorted, ap);
    ResolvedFinished(g, cs, st, isFirst, sorted, ap);
    NoTiesPermuted(entered, sorted);
    NoTiesThinned(sorted, ap);
    AscendingThinned(sorted, ap);
    RulesOncePermuted(entered, sorted);
    SortedDecided(p, sorted, ap);
    SortedCount(p, sorted, ap);
    OutcomePermuted(p, sorted, entered, ap);
    if OneEach(entered) {
      OneEachPermuted(entered, sorted);
      NobodyFights(p, sorted, ap);
      EnteredLive(ap);
    }
    if p.Undeclared() && conflicts == 0 {
      NoConflictAllAlive(ap);
      AllAliveOneEach(sorted, ap);
      OneEachPermuted(sorted, entered);
    }
  }

  lemma NoTiesThinned(ap0: seq<Action>, ap: seq<Action>)
    requires NoTies(ap0) && Thinned(ap0, ap)
    ensures NoTies(ap)
  {
    forall i | 0 <= i < |ap| ensures ap[i].addr == ap0[i].addr {}
  }

  lemma AscendingThinned(ap0: seq<Action>, ap: seq<Action>)
    requires Ordered(ap0, ActionLe) && Thinned(ap0, ap)
    ensures Ascending(ap)
  {
    forall i, j | 0 <= i < j < |ap| ensures ap[i].sp <= ap[j].sp { assert ActionLe(ap0[i], ap0[j]); }
  }

  lemma RulesOncePermuted(a: seq<Action>, b: seq<Action>)
    requires RulesOnce(a) && multiset(a) == multiset(b) && NoTies(a)
    ensures RulesOnce(b)
  {
    SameMembers(a, b);
    NoTiesPermuted(a, b);
    forall i, j | 0 <= i < j < |b| && b[i].kind == REDUCE && b[j].kind == REDUCE && b[i].sp == b[j].sp
      ensures b[i].x != b[j].x
    {
      assert b[i] in a && b[j] in a && b[i].addr != b[j].addr;
      var k :| 0 <= k < |a| && a[k] == b[i];
      var l :| 0 <= l < |a| && a[l] == b[j];
    }
  }

  // ---- what a state calls for ----

  ghost function CalledRules(g: Grammar, cs: Pool, ids: seq<nat>, t: nat): set<nat> {
    set r | 0 <= r < |g.rules| && CallsForReduce(g, cs, ids, t, r)
  }

  ghost predicate HasLookahead(ap: seq<Action>, t: nat) {
    exists a <- ap :: a.sp == t
  }

  // On every look-ahead the live action is the one that prevails among the shifts of the state and the reductions it
  // calls for; among several shifts it is the last one entered.
  ghost predicate DecidedFor(g: Grammar, cs: Pool, st: State, p: Precedences, ap: seq<Action>) {
    forall a <- ap | Live(a) && a.kind != ACCEPT ::
      && Prevails(p, a.sp, HasLookahead(st.ap, a.sp), CalledRules(g, cs, st.cfp, a.sp), WinnerOf(a))
      && (a.kind == SHIFT ==> forall b <- st.ap | b.sp == a.sp :: b.addr <= a.addr)
  }

  ghost function DisputedPairs(g: Grammar, cs: Pool, st: State, p: Precedences): set<(nat, nat)> {
    set t, r | 0 <= t < g.nterminal && 0 <= r < |g.rules| && CallsForReduce(g, cs, st.cfp, t, r)
        && Disputed(p, t, HasLookahead(st.ap, t), CalledRules(g, cs, st.cfp, t), r) :: (t, r)
  }

  ghost function CodesOf(ap: seq<Action>): set<nat> {
    set a <- ap :: a.sp
  }

  // The conflicts of a state: every disputed reduction, and every shift but one for each look-ahead.
  ghost function StateConflicts(g: Grammar, cs: Pool, st: State, p: Precedences): int {
    |DisputedPairs(g, cs, st, p)| + |st.ap| - |CodesOf(st.ap)|
  }

  ghost function ConflictsOf(g: Grammar, cs: Pool, states: seq<State>, p: Precedences): seq<int> {
    seq(|states|, s requires 0 <= s < |states| => StateConflicts(g, cs, states[s], p))
  }

  // What was entered, by what was called for.
  lemma EnteredMeans(g: Grammar, cs: Pool, st: State, isFirst: bool, ap: seq<Action>)
    requires Entered(g, cs, st, isFirst, ap) && ShiftsOnly(g, st)
    ensures forall t: nat :: RulesOn(ap, t) == CalledRules(g, cs, st.cfp, t)
    ensures forall t: nat :: ShiftOn(ap, t) <==> HasLookahead(st.ap, t)
    ensures forall a :: a in ap && a.kind == SHIFT <==> a in st.ap
  {
    hide CallsForReduce, OneAccept;
    forall t: nat, r: nat ensures r in RulesOn(ap, t) <==> r in CalledRules(g, cs, st.cfp, t) {
      if r in RulesOn(ap, t) {
        var a :| a in ap && a.sp == t && a.kind == REDUCE && a.x == r;
        assert CalledFor(g, cs, st, isFirst, a);
        CalledValid(g, cs, st.cfp, t, r);
      }
      if r in CalledRules(g, cs, st.cfp, t) { assert HasAction(ap, t, REDUCE, r); }
    }
    forall a | a in ap && a.kind == SHIFT ensures a in st.ap { assert CalledFor(g, cs, st, isFirst, a); }
  }

  lemma CalledValid(g: Grammar, cs: Pool, ids: seq<nat>, t: nat, r: nat)
    ensures CallsForReduce(g, cs, ids, t, r) ==> t < g.nterminal && r < |g.rules|
  {
  }

  // The outcome for a state.
  lemma OutcomeFor(g: Grammar, cs: Pool, st: State, isFirst: bool, p: Precedences, entered: seq<Action>,
                   ap: seq<Action>)
    requires Entered(g, cs, st, isFirst, entered) && ShiftsOnly(g, st) && Decided(p, entered, ap) && NoTies(st.ap)
    ensures DecidedFor(g, cs, st, p, ap) && ConflictCount(p, entered) == StateConflicts(g, cs, st, p)
  {
    hide Entered, Prevails, Disputed, CallsForReduce, RulesOn, ShiftOn, CalledRules, HasLookahead;
    EnteredMeans(g, cs, st, isFirst, entered);
    forall d ensures d in Disputes(p, entered) <==> d in DisputedPairs(g, cs, st, p) {
      SamePairs(g, cs, st, isFirst, p, entered, d.0, d.1);
    }
    assert Disputes(p, entered) == DisputedPairs(g, cs, st, p);
    ShiftMembers(entered, st.ap);
    NoTiesCount(st.ap);
  }

  lemma ShiftMembers(entered: seq<Action>, ap: seq<Action>)
    requires forall a :: a in entered && a.kind == SHIFT <==> a in ap
    ensures Shifts(entered) == ActionSet(ap) && ShiftCodes(entered) == CodesOf(ap)
  {
  }

  lemma SamePairs(g: Grammar, cs: Pool, st: State, isFirst: bool, p: Precedences, entered: seq<Action>, t: nat, r: nat)
    requires Entered(g, cs, st, isFirst, entered) && ShiftsOnly(g, st)
    ensures (t, r) in Disputes(p, entered) <==> (t, r) in DisputedPairs(g, cs, st, p)
  {
    hide Disputed, CallsForReduce, ShiftOn, HasLookahead, Entered;
    EnteredMeans(g, cs, st, isFirst, entered);
    CalledValid(g, cs, st.cfp, t, r);
    assert r in RulesOn(entered, t) <==> r in CalledRules(g, cs, st.cfp, t);
  }

  ghost function ActionSet(ap: seq<Action>): set<Action> {
    set a <- ap
  }

  lemma {:induction false} NoTiesCount(ap: seq<Action>)
    requires NoTies(ap)
    ensures |ActionSet(ap)| == |ap|
  {
    if ap == [] {
      assert ActionSet(ap) == {};
    } else {
      var n := |ap| - 1;
      NoTiesCount(ap[..n]);
      assert ap == ap[..n] + [ap[n]];
      assert ap[n] !in ap[..n];
      assert ActionSet(ap) == ActionSet(ap[..n]) + {ap[n]};
    }
  }

  // No look-ahead of the state calls for two actions.
  ghost predicate Unclashed(g: Grammar, cs: Pool, st: State) {
    && OneEach(st.ap)
    && (forall t: nat, r: nat, a | CallsForReduce(g, cs, st.cfp, t, r) && a in st.ap :: a.sp != t)
    && (forall t: nat, r: nat, r': nat | CallsForReduce(g, cs, st.cfp, t, r) && CallsForReduce(g, cs, st.cfp, t, r') ::
        r == r')
  }

  // The actions entered for a state: the reductions, then in the first state the accepting action.
  ghost predicate EnteredFor(g: Grammar, cs: Pool, st: State, isFirst: bool, reduced: seq<Action>, ap: seq<Action>) {
    && ReductionsSoFar(g, cs, st, st.cfp, reduced)
    && if isFirst then ap != [] && ap[0].kind == ACCEPT && ap[0].sp == g.start
        && ap == [ap[0]] + reduced else ap == reduced
  }

  // Two actions were entered for one look-ahead if and only if two were called for.
  lemma EnteredOneEach(g: Grammar, cs: Pool, st: State, isFirst: bool, reduced: seq<Action>, ap: seq<Action>)
    requires EnteredFor(g, cs, st, isFirst, reduced, ap) && ShiftsOnly(g, st) && g.IsNonterminal(g.start)
    ensures OneEach(ap) <==> Unclashed(g, cs, st)
  {
    hide ReductionsSoFar, Unclashed;
    ReducedOneEach(g, cs, st, reduced);
    forall a | a in reduced ensures a.sp != g.start { ReducedMember(g, cs, st, reduced, a); }
    if OneEach(ap) {
      forall i, j | 0 <= i < j < |reduced| ensures reduced[i].sp != reduced[j].sp {
        if isFirst { assert reduced[i] == ap[i + 1] && reduced[j] == ap[j + 1]; }
      }
    }
    if OneEach(reduced) {
      forall i, j | 0 <= i < j < |ap| ensures ap[i].sp != ap[j].sp {
        if isFirst { assert ap[j] == reduced[j - 1] && reduced[j - 1] in reduced; }
      }
    }
  }

  lemma ReducedMember(g: Grammar, cs: Pool, st: State, reduced: seq<Action>, a: Action)
    requires ReductionsSoFar(g, cs, st, st.cfp, reduced) && a in reduced
    ensures a in st.ap || (a.kind == REDUCE && CallsForReduce(g, cs, st.cfp, a.sp, a.x))
    ensures a !in st.ap ==> a.sp < g.nterminal
  {
    var i :| 0 <= i < |reduced| && reduced[i] == a;
    var n := |reduced| - |st.ap|;
    if i >= n { assert reduced[n..][i - n] == a; }
  }

  lemma ReducedOneEach(g: Grammar, cs: Pool, st: State, reduced: seq<Action>)
    requires ReductionsSoFar(g, cs, st, st.cfp, reduced) && ShiftsOnly(g, st)
    ensures OneEach(reduced) <==> Unclashed(g, cs, st)
  {
    hide CallsForReduce, HasAction;
    var n := |reduced| - |st.ap|;
    if OneEach(reduced) {
      forall i, j | 0 <= i < j < |st.ap| ensures st.ap[i].sp != st.ap[j].sp {
        assert st.ap[i] == reduced[n..][i] == reduced[n + i] && st.ap[j] == reduced[n..][j] == reduced[n + j];
      }
      forall t: nat, r: nat | CallsForReduce(g, cs, st.cfp, t, r)
        ensures forall a <- st.ap :: a.sp != t
        ensures forall r': nat | CallsForReduce(g, cs, st.cfp, t, r') :: r == r'
      {
        ReducedAt(g, cs, st, reduced, t, r);
      }
    }
    if Unclashed(g, cs, st) { UnclashedOneEach(g, cs, st, reduced); }
  }

  lemma UnclashedOneEach(g: Grammar, cs: Pool, st: State, reduced: seq<Action>)
    requires ReductionsSoFar(g, cs, st, st.cfp, reduced) && Unclashed(g, cs, st)
    ensures OneEach(reduced)
  {
    hide CallsForReduce, HasAction;
    var n := |reduced| - |st.ap|;
    forall i, j | 0 <= i < j < |reduced| ensures reduced[i].sp != reduced[j].sp {
      if n <= j {
        assert reduced[j] == reduced[n..][j - n] == st.ap[j - n];
        if n <= i { assert reduced[i] == reduced[n..][i - n] == st.ap[i - n]; }
      }
    }
  }

  lemma CalledEntered(g: Grammar, cs: Pool, st: State, reduced: seq<Action>, t: nat, r: nat)
    requires ReductionsSoFar(g, cs, st, st.cfp, reduced) && CallsForReduce(g, cs, st.cfp, t, r)
    ensures HasAction(reduced, t, REDUCE, r) && |st.ap| <= |reduced| && reduced[|reduced| - |st.ap|..] == st.ap
  {
    hide CallsForReduce, HasAction;
  }

  // A reduction entered where no two actions meet is the only action on its look-ahead.
  lemma ReducedAt(g: Grammar, cs: Pool, st: State, reduced: seq<Action>, t: nat, r: nat)
    requires ReductionsSoFar(g, cs, st, st.cfp, reduced) && ShiftsOnly(g, st) && OneEach(reduced)
      && CallsForReduce(g, cs, st.cfp, t, r)
    ensures forall a <- st.ap :: a.sp != t
    ensures forall r': nat | CallsForReduce(g, cs, st.cfp, t, r') :: r == r'
  {
    hide CallsForReduce, ReductionsSoFar;
    var n := |reduced| - |st.ap|;
    assert HasAction(reduced, t, REDUCE, r) by { CalledEntered(g, cs, st, reduced, t, r); }
    var a :| a in reduced && a.sp == t && a.kind == REDUCE && a.x == r;
    var i :| 0 <= i < |reduced| && reduced[i] == a;
    forall b | b in st.ap ensures b.sp != t {
      var j :| 0 <= j < |st.ap| && st.ap[j] == b;
      CalledEntered(g, cs, st, reduced, t, r);
      assert reduced[n..][j] == b && reduced[n + j] == b;
    }
    forall r': nat | CallsForReduce(g, cs, st.cfp, t, r') ensures r == r' {
      CalledEntered(g, cs, st, reduced, t, r');
      assert HasAction(reduced, t, REDUCE, r');
      var a' :| a' in reduced && a'.sp == t && a'.kind == REDUCE && a'.x == r';
      var j :| 0 <= j < |reduced| && reduced[j] == a';
    }
  }

  lemma EnteredAll(g: Grammar, cs: Pool, st: State, isFirst: bool, reduced: seq<Action>, ap: seq<Action>)
    requires EnteredFor(g, cs, st, isFirst, reduced, ap) && ShiftsOnly(g, st)
    ensures Entered(g, cs, st, isFirst, ap)
  {
    forall a | a in reduced
      ensures a.kind != ACCEPT && a in ap && CalledFor(g, cs, st, isFirst, a)
    {
      ReducedMember(g, cs, st, reduced, a);
    }
    var n := |reduced| - |st.ap|;
    forall a | a in st.ap ensures a in reduced {
      var i :| 0 <= i < |st.ap| && st.ap[i] == a;
      assert reduced[n..][i] == a && reduced[n + i] == a;
    }
    HasActionMore(reduced, ap);
    if isFirst {
      assert ap[0] in ap;
      assert multiset(ap) == multiset{ap[0]} + multiset(reduced);
      assert ap[0] !in reduced;
    }
  }

  ghost predicate AllLive(ap: seq<Action>) {
    forall a <- ap :: Live(a)
  }

  lemma EnteredLive(ap: seq<Action>)
    requires AsEntered(ap)
    ensures AllLive(ap)
  {
  }

  lemma NoneSilentYet(ap: seq<Action>)
    requires AsEntered(ap)
    ensures NoneSilent(ap)
  {
  }

  lemma {:induction false} NoConflictsYet(ap: seq<Action>)
    requires AsEntered(ap)
    ensures Conflicts(ap) == 0
  {
    if ap != [] {
      var n := |ap| - 1;
      assert ap[n] in ap;
      forall a | a in ap[..n] ensures a in ap {}
      NoConflictsYet(ap[..n]);
    }
  }

  // FindActions: all reductions, then the accepting action of the first state, then the conflicts.  If no look-ahead
  // calls for two actions there is no conflict; without precedences there is none only then.
  method FindActions(g: Grammar, cs: Pool, states: seq<State>, p: Precedences, nact0: nat)
    returns (states': seq<State>, nact: nat, conflicts: nat)
    requires g.IsNonterminal(g.start) && p.Declared() && |states| > 0
    requires forall s: nat | s < |states| :: ShiftsOnly(g, states[s]) && DistinctItems(cs, states[s].cfp)
    requires forall s: nat | s < |states| :: NoTies(states[s].ap) && AddrBelow(states[s].ap, nact0)
    ensures forall s: nat | s < |states'| :: NoTies(states'[s].ap) && Ascending(states'[s].ap)
    ensures |states'| == |states|
    ensures forall s: nat | s < |states| :: DecidedFor(g, cs, states[s], p, states'[s].ap)
    ensures conflicts == Sum(ConflictsOf(g, cs, states, p))
    ensures forall s: nat | s < |states| ::
      SameLists(states[s], states'[s])
      && Finished(g, cs, states[s], s == 0, states'[s].ap)
    ensures conflicts == 0 <==> forall s: nat | s < |states'| :: Conflicts(states'[s].ap) == 0
    ensures p.Undeclared() ==> forall s: nat | s < |states'| :: NoneSilent(states'[s].ap)
    ensures (forall s: nat | s < |states| :: Unclashed(g, cs, states[s])) ==>
      conflicts == 0 && forall s: nat | s < |states| :: AllLive(states'[s].ap)
    ensures p.Undeclared() && conflicts == 0 ==> forall s: nat | s < |states| :: Unclashed(g, cs, states[s])
  {
    hide NoneSilent, Finished, Conflicts, ReductionsSoFar, Entered, EnteredFor, Unclashed, OneEach, DistinctItems,
        NoTies, AddrBelow, AllLive, RulesOnce, Ascending, Decided, DecidedFor, ConflictCount, StateConflicts, Sum;
    states', nact, conflicts := states, nact0, 0;
    for s := 0 to |states|
      invariant |states'| == |states|
      invariant forall t: nat | t < s ::
        SameLists(states[t], states'[t])
        && EnteredFor(g, cs, states[t], false, states'[t].ap, states'[t].ap)
      invariant forall t: nat | s <= t < |states| :: states'[t] == states[t]
      invariant forall t: nat | t < s :: NoTies(states'[t].ap) && AddrBelow(states'[t].ap, nact)
      invariant nact >= nact0
    {
      ghost var nact1 := nact;
      AddrBelowMore(states[s].ap, nact0, nact);
      var ap;
      ap, nact := AddReductions(g, cs, states[s], nact);
      states' := states'[s := states[s].(ap := ap)];
      NothingMore(g, cs, states[s], ap);
      forall t: nat | t < s ensures AddrBelow(states'[t].ap, nact) { AddrBelowMore(states'[t].ap, nact1, nact); }
    }
    ghost var reduced := states';
    NoTiesPush(states'[0].ap, Action(g.start, ACCEPT, 0, nact));
    states' := states'[0 := states'[0].(ap := [Action(g.start, ACCEPT, 0, nact)] + states'[0].ap)];
    nact := nact + 1;
    AcceptEntered(g, cs, states[0], reduced[0].ap, states'[0].ap);
    ghost var entered := states';
    forall s: nat | s < |states|
      ensures Entered(g, cs, states[s], s == 0, entered[s].ap)
        && (OneEach(entered[s].ap) <==> Unclashed(g, cs, states[s])) && RulesOnce(entered[s].ap)
    {
      EnteredAll(g, cs, states[s], s == 0, reduced[s].ap, entered[s].ap);
      EnteredOneEach(g, cs, states[s], s == 0, reduced[s].ap, entered[s].ap);
      EnteredOnce(g, cs, states[s], s == 0, reduced[s].ap, entered[s].ap);
    }
    NoneCounted(g, cs, states, p);
    for s := 0 to |states|
      invariant |states'| == |states|
      invariant forall t: nat | t < s ::
        SameLists(states[t], states'[t])
        && Finished(g, cs, states[t], t == 0, states'[t].ap)
      invariant forall t: nat | s <= t < |states| :: states'[t] == entered[t]
      invariant forall t: nat | t < |states| :: NoTies(states'[t].ap)
      invariant forall t: nat | t < s :: Ascending(states'[t].ap) && DecidedFor(g, cs, states[t], p, states'[t].ap)
      invariant conflicts == Sum(ConflictsOf(g, cs, states, p)[..s])
      invariant conflicts == 0 <==> forall t: nat | t < s :: Conflicts(states'[t].ap) == 0
      invariant p.Undeclared() ==> forall t: nat | t < s :: NoneSilent(states'[t].ap)
      invariant (forall t: nat | t < s :: Unclashed(g, cs, states[t])) ==> conflicts == 0
      invariant forall t: nat | t < s && Unclashed(g, cs, states[t]) :: AllLive(states'[t].ap)
      invariant p.Undeclared() && conflicts == 0 ==> forall t: nat | t < s :: Unclashed(g, cs, states[t])
    {
      var ap, c := FinishState(g, cs, states[s], s == 0, p, states'[s].ap);
      OutcomeFor(g, cs, states[s], s == 0, p, states'[s].ap, ap);
      OneMoreCounted(g, cs, states, p, s);
      states' := states'[s := states'[s].(ap := ap)];
      conflicts := conflicts + c;
    }
    assert ConflictsOf(g, cs, states, p)[..|states|] == ConflictsOf(g, cs, states, p);
  }

  lemma NoneCounted(g: Grammar, cs: Pool, states: seq<State>, p: Precedences)
    ensures Sum(ConflictsOf(g, cs, states, p)[..0]) == 0
  {
  }

  lemma OneMoreCounted(g: Grammar, cs: Pool, states: seq<State>, p: Precedences, s: nat)
    requires s < |states|
    ensures var all := ConflictsOf(g, cs, states, p);
      Sum(all[..s + 1]) == Sum(all[..s]) + StateConflicts(g, cs, states[s], p)
  {
    hide StateConflicts;
    var all := ConflictsOf(g, cs, states, p);
    assert all[..s + 1][..s] == all[..s];
  }

  // No rule is entered twice for one look-ahead.
  lemma EnteredOnce(g: Grammar, cs: Pool, st: State, isFirst: bool, reduced: seq<Action>, ap: seq<Action>)
    requires EnteredFor(g, cs, st, isFirst, reduced, ap) && ShiftsOnly(g, st)
    ensures RulesOnce(ap)
  {
    hide CallsForReduce, HasAction;
    var n, k := |reduced| - |st.ap|, |ap| - |reduced|;
    forall m | n <= m < |reduced| ensures reduced[m].kind != REDUCE {
      assert reduced[n..][m - n] == reduced[m] && reduced[m] in st.ap;
    }
    forall i, j | 0 <= i < j < |ap| && ap[i].kind == REDUCE && ap[j].kind == REDUCE && ap[i].sp == ap[j].sp
      ensures ap[i].x != ap[j].x
    {
      assert ap[i] == reduced[i - k] && ap[j] == reduced[j - k];
    }
  }

  lemma NothingMore(g: Grammar, cs: Pool, st: State, ap: seq<Action>)
    requires ReductionsSoFar(g, cs, st, st.cfp, ap)
    ensures EnteredFor(g, cs, st, false, ap, ap)
  {
  }

  lemma AcceptEntered(g: Grammar, cs: Pool, st: State, reduced: seq<Action>, ap: seq<Action>)
    requires EnteredFor(g, cs, st, false, reduced, reduced) && ap != [] && ap[0].kind == ACCEPT && ap[0].sp == g.start
      && ap == [ap[0]] + reduced
    ensures EnteredFor(g, cs, st, true, reduced, ap)
  {
    hide ReductionsSoFar;
  }
}

/** Why the rows the generator arrives at are complete if no action had to give way: every look-ahead that can come is
  in the set of the item that needs it. */
module Sufficiency {
  import opened Options
  import opened Grammars
  import opened FirstSets
  import opened Automata
  import opened Configs
  import opened ActionLists
  import opened Resolve
  import opened Collection
  import opened States
  import opened Canonical
  import opened Follow
  import opened Reductions
  import opened Compress
  import opened Report
  import opened Emission
  import opened Soundness
  import opened Completeness

  ghost function LaPairs(cs: Pool, ids: seq<nat>): set<(Item, nat)> {
    set c, t | c in ids && t in FwsOf(cs, c) :: (ItemOf(cs, c), t)
  }

  ghost function LookaheadsByNumber(cs: Pool, states: seq<State>, order: seq<nat>): Lookaheads {
    seq(|order|, k requires 0 <= k < |order| => if order[k] < |states| then LaPairs(cs, states[order[k]].cfp) else {})
  }

  // The tables of FindFirstSets, as FindFirstSets ensures them.
  ghost predicate FirstExact(g: Grammar, lambda: Lambdas, first: Firsts) {
    && (forall a :: AllLambda(lambda, a) <==> Nullable(g, a))
    && (forall a, t :: t in SeqFirst(lambda, first, a) <==> CanBegin(g, a, t))
  }

  // ---- look-aheads grow along the links ----

  lemma FlowsOn(cs: Pool, states: seq<State>, linked: Pool, followed: Pool, c: nat, d: nat, t: nat)
    requires Followed(cs, states, linked, followed) && InStates(states, c) && InStates(states, d) && c < |cs|
      && d < |cs|
    requires d in linked[c].fplp && t in FwsOf(followed, c)
    ensures t in FwsOf(followed, d)
  {
    var a: nat :| Flows(linked, states, a, c) && t in linked[a].fws;
    var n: nat :| FlowsIn(linked, states, a, c, n);
    assert FlowsIn(linked, states, a, d, n + 1);
    assert Arrives(linked, states, d, t);
  }

  lemma StartsWith(cs: Pool, states: seq<State>, linked: Pool, followed: Pool, c: nat, t: nat)
    requires Followed(cs, states, linked, followed) && InStates(states, c) && c < |cs| && t in cs[c].fws
    ensures t in FwsOf(followed, c)
  {
    assert cs[c].fws == linked[c].fws <= followed[c].fws;
  }

  lemma Member(states: seq<State>, s: nat, c: nat)
    requires s < |states| && c in states[s].cfp
    ensures InStates(states, c)
  {
  }

  // ---- the rules called for have the look-aheads that can come ----

  lemma ClosureServes(g: Grammar, lambda: Lambdas, first: Firsts, cs: Pool, states: seq<State>, linked: Pool,
                      followed: Pool, s: nat, c: nat, t: nat, r: nat, u: nat)
    requires Analyzed(g, lambda, first, cs, states, linked, followed) && FirstExact(g, lambda, first)
    requires s < |states| && c in states[s].cfp && t in FwsOf(followed, c) && r < |g.rules|
    requires Next(g, ItemOf(cs, c)) == Some(N(g.rules[r].lhs)) && Ahead(g, Rest(g, ItemOf(cs, c)), t, u)
    ensures (Item(r, 0), u) in LaPairs(followed, states[s].cfp)
  {
    hide Followed, Built, Nullable, CanBegin, AllLambda, SeqFirst;
    BuiltGood(g, lambda, first, cs, states);
    if CanBegin(g, Rest(g, ItemOf(cs, c)), u) {
      BeginServes(g, lambda, first, cs, states, linked, followed, s, c, r, u);
    } else {
      var d := RuleIntroduced(g, lambda, first, cs, states, s, c, r);
      Member(states, s, c);
      Member(states, s, d);
      FollowedItems(cs, states, linked, followed, d);
      ForwardLink(cs, states, linked, followed, c, d);
      FlowsOn(cs, states, linked, followed, c, d, u);
    }
  }

  // What can begin the symbols behind the nonterminal is a look-ahead of its rules, whatever comes after.
  lemma BeginServes(g: Grammar, lambda: Lambdas, first: Firsts, cs: Pool, states: seq<State>, linked: Pool,
                    followed: Pool, s: nat, c: nat, r: nat, u: nat)
    requires Analyzed(g, lambda, first, cs, states, linked, followed) && FirstExact(g, lambda, first)
    requires s < |states| && c in states[s].cfp && r < |g.rules|
    requires Next(g, ItemOf(cs, c)) == Some(N(g.rules[r].lhs)) && CanBegin(g, Rest(g, ItemOf(cs, c)), u)
    ensures (Item(r, 0), u) in LaPairs(followed, states[s].cfp)
  {
    hide Followed, Built, Nullable, CanBegin, AllLambda, SeqFirst;
    BuiltGood(g, lambda, first, cs, states);
    var d := RuleIntroduced(g, lambda, first, cs, states, s, c, r);
    Member(states, s, d);
    FollowedItems(cs, states, linked, followed, d);
    StartsWith(cs, states, linked, followed, d, u);
  }

  lemma RuleIntroduced(g: Grammar, lambda: Lambdas, first: Firsts, cs: Pool, states: seq<State>, s: nat, c: nat, r: nat)
    returns (d: nat)
    requires Good(g, lambda, first, cs, states) && s < |states| && c in states[s].cfp && r < |g.rules|
    requires Next(g, ItemOf(cs, c)) == Some(N(g.rules[r].lhs))
    ensures d in states[s].cfp && Introduced(g, lambda, first, cs, c, r, d)
  {
    assert StateOK(g, lambda, first, cs, states[s]);
    assert ClosedAt(g, lambda, first, cs, states[s].cfp, c);
    assert ClosedFor(g, lambda, first, cs, states[s].cfp, c, r);
    d :| d in states[s].cfp && Introduced(g, lambda, first, cs, c, r, d);
  }

  lemma ForwardLink(cs: Pool, states: seq<State>, linked: Pool, followed: Pool, c: nat, d: nat)
    requires Followed(cs, states, linked, followed) && c < |cs|
    requires d in cs[c].fplp || (InStates(states, d) && d < |cs| && c in cs[d].bplp)
    ensures c < |linked| && d in linked[c].fplp
  {
    hide OnlyFws, FlowsIn, Arrives;
    assert LinkedRight(cs, states, linked, c, d);
  }

  // ---- moving the dot keeps the look-aheads ----

  lemma MoveServes(g: Grammar, lambda: Lambdas, first: Firsts, cs: Pool, states: seq<State>, linked: Pool,
                   followed: Pool, s: nat, c: nat, t: nat, x: Symbol) returns (to: nat)
    requires Analyzed(g, lambda, first, cs, states, linked, followed)
    requires s < |states| && c in states[s].cfp && t in FwsOf(followed, c) && Next(g, ItemOf(cs, c)) == Some(x)
    ensures to < |states| && ShiftsOn(states[s].ap, x, to) && GotoIs(g, cs, states[s], x, states[to])
    ensures (Advance(ItemOf(cs, c)), t) in LaPairs(followed, states[to].cfp)
  {
    hide Good, Followed, GotoIs, ShiftsOn, FoundFrom;
    assert Done(g, cs, states, s) && ShiftDone(g, cs, states, s, c);
    to :| ShiftTo(g, cs, states, s, c, x, to);
    var y :| y in states[to].bp && y < |cs| && cs[y].item == Advance(ItemOf(cs, c)) && c in cs[y].bplp;
    StateOfGood(g, lambda, first, cs, states, to);
    BasisInList(g, lambda, first, cs, states[to], y);
    StateOfGood(g, lambda, first, cs, states, s);
    BasisInList(g, lambda, first, cs, states[s], c);
    Member(states, s, c);
    Member(states, to, y);
    ForwardLink(cs, states, linked, followed, c, y);
    FlowsOn(cs, states, linked, followed, c, y, t);
    FollowedItems(cs, states, linked, followed, y);
  }

  lemma BasisInList(g: Grammar, lambda: Lambdas, first: Firsts, cs: Pool, st: State, y: nat)
    requires StateOK(g, lambda, first, cs, st)
    ensures y in st.bp ==> y in st.cfp
    ensures y in st.cfp ==> y < |cs|
  {
  }

  // ---- actions ----

  ghost predicate AllAlive(resolved: seq<seq<Action>>) {
    forall ap <- resolved :: forall a <- ap :: Live(a)
  }

  // An action that was entered, in a list where none had to give way, is the answer on its look-ahead.
  lemma EnteredAnswers(g: Grammar, followed: Pool, st: State, isFirst: bool, resolved: seq<Action>, ap: seq<Action>,
                       a: Action)
    requires Finished(g, followed, st, isFirst, resolved) && (forall b <- resolved :: Live(b)) && a in resolved
    requires Compressed(g, resolved, ap) && a.sp < g.nsymbol
    ensures Explicit(ap, a.sp) == Some(ActOf(a))
         || (Explicit(ap, a.sp) == None && a.kind == REDUCE && DefaultAct(g, ap) == ActOf(a))
  {
    hide Explicit, Deterministic, Finished, Compressed, CompressedBy;
    assert Deterministic(resolved) by { FinishedDeterministic(g, followed, st, isFirst, resolved); }
    ExplicitMeans(resolved, a.sp);
    CompressedAnswers(g, resolved, ap, a.sp);
  }

  lemma FinishedDeterministic(g: Grammar, followed: Pool, st: State, isFirst: bool, resolved: seq<Action>)
    requires Finished(g, followed, st, isFirst, resolved)
    ensures Deterministic(resolved)
    ensures (forall b <- resolved :: Live(b)) ==> Entered(g, followed, st, isFirst, resolved)
  {
  }

  lemma CompressedAnswers(g: Grammar, resolved: seq<Action>, ap: seq<Action>, sp: nat)
    requires Compressed(g, resolved, ap) && sp < g.nsymbol && Explicit(resolved, sp).Some?
    ensures Explicit(ap, sp) == Explicit(resolved, sp)
         || (Explicit(ap, sp) == None && Explicit(resolved, sp).value.Reduce?
             && DefaultAct(g, ap) == Explicit(resolved, sp).value)
  {
    hide Deterministic, Explicit;
  }

  lemma ShiftAnswers(g: Grammar, followed: Pool, st: State, isFirst: bool, resolved: seq<Action>, ap: seq<Action>,
                     x: Symbol, to: nat, code: nat)
    requires Finished(g, followed, st, isFirst, resolved) && (forall b <- resolved :: Live(b))
      && Compressed(g, resolved, ap)
    requires ShiftsOn(st.ap, x, to) && code in SymbolCodes(x) && code < g.nsymbol
    ensures Explicit(ap, code) == Some(Shift(to))
  {
    hide Explicit, Deterministic, Compressed, Finished, CallsForReduce;
    FinishedDeterministic(g, followed, st, isFirst, resolved);
    assert HasShift(st.ap, code, to);
    var a :| a in st.ap && a.sp == code && a.kind == SHIFT && a.x == to;
    assert a in resolved;
    EnteredAnswers(g, followed, st, isFirst, resolved, ap, a);
  }

  lemma ReduceAnswers(g: Grammar, followed: Pool, st: State, isFirst: bool, resolved: seq<Action>, ap: seq<Action>,
                      t: nat, r: nat)
    requires Finished(g, followed, st, isFirst, resolved) && (forall b <- resolved :: Live(b))
      && Compressed(g, resolved, ap)
    requires CallsForReduce(g, followed, st.cfp, t, r) && g.nterminal <= g.nsymbol
    ensures Explicit(ap, t) == Some(Reduce(r)) || (Explicit(ap, t) == None && DefaultAct(g, ap) == Reduce(r))
  {
    hide Explicit, Deterministic, Compressed, Finished;
    FinishedDeterministic(g, followed, st, isFirst, resolved);
    assert HasAction(resolved, t, REDUCE, r);
    var a :| a in resolved && a.sp == t && a.kind == REDUCE && a.x == r;
    EnteredAnswers(g, followed, st, isFirst, resolved, ap, a);
  }

  // ---- the row of a state ----

  lemma MoveRow(g: Grammar, lambda: Lambdas, first: Firsts, cs: Pool, states: seq<State>, linked: Pool, followed: Pool,
                resolved: seq<seq<Action>>, aps: seq<seq<Action>>, order: seq<nat>, num: seq<nat>, k: nat, c: nat,
                    t: nat)
    requires Analyzed(g, lambda, first, cs, states, linked, followed)
      && FinalActions(g, followed, states, resolved, aps) && AllAlive(resolved)
    requires Numbering(order, num) && |order| == |states| && k < |order| && order[k] < |states|
    requires c in states[order[k]].cfp && t in FwsOf(followed, c)
    ensures MovesItem(g, LookaheadsByNumber(followed, states, order), RowOf(g, aps[order[k]], num), ItemOf(cs, c), t)
  {
    hide Built, Followed, Numbering, Finished, Compressed, Explicit, ShiftsOn, LaPairs;
    var it, s := ItemOf(cs, c), order[k];
    if Next(g, it).Some? {
      var x := Next(g, it).value;
      NextOnRhs(g, it);
      var to := MoveServes(g, lambda, first, cs, states, linked, followed, s, c, t, x);
      NumberingAt(order, num, to);
      assert resolved[s] in resolved;
      var row := RowOf(g, aps[s], num);
      forall y | Matches(x, y) && !y.Multi? ensures EntersOn(row, y, num[to]) {
        var code := y.index;
        ShiftAnswers(g, followed, states[s], s == 0, resolved[s], aps[s], x, to, code);
      }
      assert MovesTo(g, LookaheadsByNumber(followed, states, order), row, it, t, num[to]);
    }
  }

  lemma ReduceRow(g: Grammar, lambda: Lambdas, first: Firsts, cs: Pool, states: seq<State>, linked: Pool,
                  followed: Pool, resolved: seq<seq<Action>>, aps: seq<seq<Action>>, order: seq<nat>, num: seq<nat>,
                  k: nat, c: nat, t: nat)
    requires Analyzed(g, lambda, first, cs, states, linked, followed)
      && FinalActions(g, followed, states, resolved, aps) && AllAlive(resolved)
    requires Numbering(order, num) && |order| == |states| && k < |order| && order[k] < |states|
    requires c in states[order[k]].cfp && t in FwsOf(followed, c)
    ensures ReducesItem(g, RowOf(g, aps[order[k]], num), ItemOf(cs, c), t)
  {
    hide Built, Followed, Numbering, Finished, Compressed, Explicit;
    var it, s := ItemOf(cs, c), order[k];
    if it.rule < |g.rules| && it.dot == |g.rules[it.rule].rhs| && t < g.nterminal {
      FollowedItems(cs, states, linked, followed, c);
      assert AtRuleEnd(g, followed, c);
      assert CallsForReduce(g, followed, states[s].cfp, t, it.rule);
      assert resolved[s] in resolved;
      ReduceAnswers(g, followed, states[s], s == 0, resolved[s], aps[s], t, it.rule);
    }
  }

  lemma CloseRow(g: Grammar, lambda: Lambdas, first: Firsts, cs: Pool, states: seq<State>, linked: Pool, followed: Pool,
                 s: nat, c: nat, t: nat)
    requires Analyzed(g, lambda, first, cs, states, linked, followed) && FirstExact(g, lambda, first)
    requires s < |states| && c in states[s].cfp && t in FwsOf(followed, c)
    ensures ClosesItem(g, LaPairs(followed, states[s].cfp), ItemOf(cs, c), t)
  {
    hide Analyzed, FirstExact, LaPairs, Ahead;
    var it := ItemOf(cs, c);
    forall r: nat, u: nat | r < |g.rules| && Next(g, it) == Some(N(g.rules[r].lhs)) && Ahead(g, Rest(g, it), t, u)
      ensures (Item(r, 0), u) in LaPairs(followed, states[s].cfp)
    {
      ClosureServes(g, lambda, first, cs, states, linked, followed, s, c, t, r, u);
    }
  }

  lemma StartServed(g: Grammar, lambda: Lambdas, first: Firsts, cs: Pool, states: seq<State>, linked: Pool,
                    followed: Pool, r: nat)
    requires Analyzed(g, lambda, first, cs, states, linked, followed) && r < |g.rules| && g.rules[r].lhs == g.start
    ensures |states| > 0 && (Item(r, 0), 0) in LaPairs(followed, states[0].cfp)
  {
    hide Good, Followed, Done, FoundFrom;
    assert Item(r, 0) in ItemSet(cs, states[0].bp);
    var c :| c in states[0].bp && ItemOf(cs, c) == Item(r, 0);
    StateOfGood(g, lambda, first, cs, states, 0);
    BasisInList(g, lambda, first, cs, states[0], c);
    Member(states, 0, c);
    StartsWith(cs, states, linked, followed, c, 0);
    FollowedItems(cs, states, linked, followed, c);
  }

  lemma StartRow(g: Grammar, followed: Pool, states: seq<State>, resolved: seq<seq<Action>>, aps: seq<seq<Action>>,
                 num: seq<nat>)
    requires g.WellFormed() && FinalActions(g, followed, states, resolved, aps) && AllAlive(resolved) && |states| > 0
    ensures var row := RowOf(g, aps[0], num); g.start in row.onNonterminal && row.onNonterminal[g.start] == Accept
  {
    hide Finished, Compressed, Explicit;
    assert resolved[0] in resolved;
    FinishedDeterministic(g, followed, states[0], true, resolved[0]);
    var a :| a in resolved[0] && a.kind == ACCEPT && a.sp == g.start;
    EnteredAnswers(g, followed, states[0], true, resolved[0], aps[0], a);
  }

  // Without losers the rows have every action that is needed.
  lemma RowsComplete(g: Grammar, lambda: Lambdas, first: Firsts, cs: Pool, states: seq<State>, linked: Pool,
                     followed: Pool, resolved: seq<seq<Action>>, aps: seq<seq<Action>>, order: seq<nat>, num: seq<nat>)
    requires Analyzed(g, lambda, first, cs, states, linked, followed) && FirstExact(g, lambda, first)
    requires FinalActions(g, followed, states, resolved, aps) && AllAlive(resolved)
    requires Numbering(order, num) && |order| == |states|
    ensures forall k | 0 <= k < |order| :: order[k] < |aps|
    ensures CompleteRows(g, LookaheadsByNumber(followed, states, order), RowsOf(g, aps, order, num))
  {
    hide Built, Followed, Finished, Compressed, Explicit, FirstExact, ClosesItem, MovesItem, ReducesItem, RowOf,
        AllAlive;
    forall k: nat | k < |order| ensures order[k] < |aps| {}
    var las, rows := LookaheadsByNumber(followed, states, order), RowsOf(g, aps, order, num);
    forall k: nat, it, t | k < |las| && (it, t) in las[k] ensures ServesItem(g, las, k, rows[k], it, t) {
      var s := order[k];
      var c :| c in states[s].cfp && t in FwsOf(followed, c) && ItemOf(followed, c) == it;
      FollowedItems(cs, states, linked, followed, c);
      CloseRow(g, lambda, first, cs, states, linked, followed, s, c, t);
      MoveRow(g, lambda, first, cs, states, linked, followed, resolved, aps, order, num, k, c, t);
      ReduceRow(g, lambda, first, cs, states, linked, followed, resolved, aps, order, num, k, c, t);
    }
    forall r: nat | r < |g.rules| && g.rules[r].lhs == g.start ensures (Item(r, 0), 0) in las[0] {
      StartServed(g, lambda, first, cs, states, linked, followed, r);
    }
    StartRow(g, followed, states, resolved, aps, num);
    assert rows[0] == RowOf(g, aps[0], num);
  }
}

/** Why the rows the generator arrives at are sound: from the states, the look-ahead sets and the compressed actions to
  what the driver relies on. */
module Soundness {
  import opened Options
  import opened Grammars
  import opened FirstSets
  import opened Automata
  import opened Configs
  import opened ActionLists
  import opened Resolve
  import opened Collection
  import opened States
  import opened Canonical
  import opened Follow
  import opened Reductions
  import opened Compress
  import opened Report
  import opened Packing
  import opened Emission

  // ---- what the stages have established ----

  // FindLinks and FindFollowSets have been applied to the configurations cs of FindStates, in this order.
  ghost predicate Followed(cs: Pool, states: seq<State>, linked: Pool, followed: Pool) {
    && OnlyLinks(cs, linked)
    && (forall c: nat, d: nat | c < |cs| :: LinkedRight(cs, states, linked, c, d))
    && OnlyFws(linked, followed)
    && (forall c: nat, t | InStates(states, c) ::
        c < |followed|
        && (t in followed[c].fws <==> Arrives(linked, states, c, t)))
  }

  ghost predicate Analyzed(g: Grammar, lambda: Lambdas, first: Firsts, cs: Pool, states: seq<State>, linked: Pool,
                           followed: Pool) {
    g.WellFormed() && g.StartNotOnRhs() && Built(g, lambda, first, cs, states) && Followed(cs, states, linked, followed)
  }

  // The final actions of one state: those FindActions leaves, compressed or not.
  ghost predicate Compressed(g: Grammar, ap: seq<Action>, ap': seq<Action>) {
    || ap' == ap
    || exists best: nat :: CompressedBy(ap, ap', best, g.nsymbol) && !IsStartRule(g, best)
        && exists a <- ap :: IsReduceBy(a, best)
  }

  ghost predicate FinalActions(g: Grammar, followed: Pool, states: seq<State>, resolved: seq<seq<Action>>,
                               aps: seq<seq<Action>>) {
    && |resolved| == |aps| == |states|
    && forall s: nat | s < |states| ::
         Finished(g, followed, states[s], s == 0, resolved[s]) && Compressed(g, resolved[s], aps[s])
  }

  ghost function ItemsByNumber(cs: Pool, states: seq<State>, order: seq<nat>): seq<set<Item>> {
    seq(|order|, k requires 0 <= k < |order| => if order[k] < |states| then Items(cs, states, order[k]) else {})
  }

  // ---- items of states ----

  // An item with its dot at the front is a start rule in the first state, or is called for.
  lemma FrontItem(g: Grammar, lambda: Lambdas, first: Firsts, cs: Pool, states: seq<State>, s: nat, it: Item)
    requires Built(g, lambda, first, cs, states) && s < |states| && it in Items(cs, states, s) && it.dot == 0
    ensures it.rule < |g.rules|
    ensures (s == 0 && g.rules[it.rule].lhs == g.start)
         || exists c <- states[s].cfp :: Next(g, ItemOf(cs, c)) == Some(N(g.rules[it.rule].lhs))
  {
    assert StateOK(g, lambda, first, cs, states[s]);
    var d :| d in states[s].cfp && ItemOf(cs, d) == it;
    if d in states[s].bp {
      assert ItemOf(cs, d) in ItemSet(cs, states[s].bp);
      assert s > 0 ==> BasisAdvanced(cs, states[s]);
    } else {
      var c :| c in states[s].cfp && Induces(g, cs, c, d);
    }
  }

  // An item with its dot moved belongs to the kernel.
  lemma MovedItem(g: Grammar, lambda: Lambdas, first: Firsts, cs: Pool, st: State, it: Item)
    requires StateOK(g, lambda, first, cs, st) && it in ItemSet(cs, st.cfp) && it.dot > 0
    ensures it in ItemSet(cs, st.bp)
  {
    var d :| d in st.cfp && ItemOf(cs, d) == it;
  }

  // The symbol after a dot is one of a right-hand side.
  lemma NextOnRhs(g: Grammar, it: Item)
    requires g.WellFormed() && Next(g, it).Some?
    ensures g.ValidSymbol(Next(g, it).value) && (g.StartNotOnRhs() ==> Next(g, it).value != N(g.start))
  {
    var rule := g.rules[it.rule];
    assert rule in g.rules && rule.rhs[it.dot] in rule.rhs;
  }

  // A shift or goto of the generator is sound for the driver, and its target is never the first state.
  lemma ShiftSound(g: Grammar, lambda: Lambdas, first: Firsts, cs: Pool, states: seq<State>, s: nat, a: Action,
                   order: seq<nat>, num: seq<nat>)
    requires g.WellFormed() && Built(g, lambda, first, cs, states) && s < |states| && a in states[s].ap
    requires Numbering(order, num) && |order| == |states|
    ensures a.x < |states| && 1 <= a.sp < g.nsymbol
    ensures SoundShift(g, ItemsByNumber(cs, states, order), num[s], SymbolOf(g, a.sp), num[a.x])
  {
    hide Built, Numbering, GotoIs;
    var c := ShiftComesFrom(g, lambda, first, cs, states, s, a);
    var x := Next(g, ItemOf(cs, c)).value;
    NextOnRhs(g, ItemOf(cs, c));
    TargetNotFirst(g, lambda, first, cs, states, s, c, x, a.x);
    NumberingAt(order, num, s);
    NumberingAt(order, num, a.x);
    NumberingZero(order, num);
    GotoFollows(g, lambda, first, cs, states, s, x, SymbolOf(g, a.sp), a.x);
  }

  // A shift was made for a configuration of the state.
  lemma ShiftComesFrom(g: Grammar, lambda: Lambdas, first: Firsts, cs: Pool, states: seq<State>, s: nat, a: Action)
    returns (c: nat)
    requires Built(g, lambda, first, cs, states) && s < |states| && a in states[s].ap
    ensures a.kind == SHIFT && a.x < |states|
    ensures c in states[s].cfp && Next(g, ItemOf(cs, c)).Some? && a.sp in SymbolCodes(Next(g, ItemOf(cs, c)).value)
    ensures GotoIs(g, cs, states[s], Next(g, ItemOf(cs, c)).value, states[a.x])
  {
    hide Good, ShiftDone, ClashingRepeats, Descending, FoundFrom, SymbolCodes, GotoIs;
    assert Done(g, cs, states, s);
    assert ActionOK(g, cs, states, s, a);
    c :| c in states[s].cfp && Next(g, ItemOf(cs, c)).Some? && a.sp in SymbolCodes(Next(g, ItemOf(cs, c)).value)
      && GotoIs(g, cs, states[s], Next(g, ItemOf(cs, c)).value, states[a.x]);
  }

  lemma TargetNotFirst(g: Grammar, lambda: Lambdas, first: Firsts, cs: Pool, states: seq<State>, s: nat, c: nat,
                       x: Symbol, to: nat)
    requires Built(g, lambda, first, cs, states) && s < |states| && to < |states| && c in states[s].cfp
    requires Next(g, ItemOf(cs, c)) == Some(x) && GotoIs(g, cs, states[s], x, states[to])
    ensures to != 0
  {
    hide Good, Done, FoundFrom;
    assert ItemOf(cs, c) in ItemSet(cs, states[s].cfp);
    assert Advance(ItemOf(cs, c)) in ItemSet(cs, states[to].bp);
  }

  lemma GotoFollows(g: Grammar, lambda: Lambdas, first: Firsts, cs: Pool, states: seq<State>, s: nat, x: Symbol,
                    y: Symbol, to: nat)
    requires Built(g, lambda, first, cs, states) && s < |states| && to < |states|
      && GotoIs(g, cs, states[s], x, states[to]) && Matches(x, y)
    ensures Follows(g, Items(cs, states, s), y, Items(cs, states, to))
  {
    hide Good, Done, FoundFrom, StateOK;
    StateOfGood(g, lambda, first, cs, states, to);
    forall it | it in Items(cs, states, to) && it.dot > 0
      ensures ValidItem(g, it) && Item(it.rule, it.dot - 1) in Items(cs, states, s)
        && Matches(g.rules[it.rule].rhs[it.dot - 1], y)
    {
      MovedItem(g, lambda, first, cs, states[to], it);
      var it0 :| it0 in ItemSet(cs, states[s].cfp) && Next(g, it0) == Some(x) && it == Advance(it0);
    }
  }

  lemma NumberingAt(order: seq<nat>, num: seq<nat>, s: nat)
    requires Numbering(order, num) && s < |order|
    ensures s < |num| && num[s] < |order| && order[num[s]] == s
  {
  }

  lemma NumberingZero(order: seq<nat>, num: seq<nat>)
    requires Numbering(order, num)
    ensures |num| == |order| > 0 && num[0] == 0 && forall s: nat | 0 < s < |num| :: num[s] > 0
  {
    assert num[order[0]] == 0;
    forall s: nat | 0 < s < |num| ensures num[s] > 0 { assert order[num[s]] == s; }
  }

  // ---- start rules are reduced on `$` only ----

  lemma {:induction false} StartFlow(g: Grammar, lambda: Lambdas, first: Firsts, cs: Pool, states: seq<State>,
                                     linked: Pool, followed: Pool, a: nat, c: nat, n: nat)
    requires Analyzed(g, lambda, first, cs, states, linked, followed)
    requires FlowsIn(linked, states, a, c, n) && Lhs(g, ItemOf(cs, c)) == g.start
    ensures Lhs(g, ItemOf(cs, a)) == g.start
    decreases n
  {
    hide Built;
    if n > 0 {
      var b: nat :| b < |linked| && FlowsIn(linked, states, a, b, n - 1) && InStates(states, b) && c in linked[b].fplp;
      LinkKeepsStart(g, lambda, first, cs, states, linked, followed, b, c);
      StartFlow(g, lambda, first, cs, states, linked, followed, a, b, n - 1);
    }
  }

  lemma LinkKeepsStart(g: Grammar, lambda: Lambdas, first: Firsts, cs: Pool, states: seq<State>, linked: Pool,
                       followed: Pool, b: nat, c: nat)
    requires Analyzed(g, lambda, first, cs, states, linked, followed) && b < |cs| && InStates(states, b)
      && c in linked[b].fplp
    requires Lhs(g, ItemOf(cs, c)) == g.start
    ensures Lhs(g, ItemOf(cs, b)) == g.start
  {
    assert LinkedRight(cs, states, linked, b, c);
    if c in cs[b].fplp {
      PredictedNotStart(g, lambda, first, cs, states, linked, followed, b, c);
    } else {
      assert BackLinkOK(cs, c, b);
    }
  }

  // A start rule is never predicted.
  lemma PredictedNotStart(g: Grammar, lambda: Lambdas, first: Firsts, cs: Pool, states: seq<State>, linked: Pool,
                          followed: Pool, b: nat, c: nat)
    requires Analyzed(g, lambda, first, cs, states, linked, followed) && b < |cs| && InStates(states, b)
      && c in cs[b].fplp
    ensures Lhs(g, ItemOf(cs, c)) != g.start
  {
    var s: nat :| s < |states| && b in states[s].cfp;
    assert StateOK(g, lambda, first, cs, states[s]);
    assert Induces(g, cs, b, c);
    NextOnRhs(g, ItemOf(cs, b));
  }

  lemma StartOnDollar(g: Grammar, lambda: Lambdas, first: Firsts, cs: Pool, states: seq<State>, linked: Pool,
                      followed: Pool, c: nat, t: nat)
    requires Analyzed(g, lambda, first, cs, states, linked, followed) && InStates(states, c) && c < |followed|
      && t in followed[c].fws
    requires Lhs(g, ItemOf(cs, c)) == g.start
    ensures t == 0
  {
    hide Built;
    var a := ArrivedFrom(cs, states, linked, followed, c, t);
    var n: nat :| FlowsIn(linked, states, a, c, n);
    StartFlow(g, lambda, first, cs, states, linked, followed, a, c, n);
    var s: nat :| s < |states| && a in states[s].cfp;
    BuiltGood(g, lambda, first, cs, states);
    StartInitially(g, lambda, first, cs, states, s, a, t);
  }

  lemma BuiltGood(g: Grammar, lambda: Lambdas, first: Firsts, cs: Pool, states: seq<State>)
    requires Built(g, lambda, first, cs, states)
    ensures Good(g, lambda, first, cs, states)
  {
  }

  // Every look-ahead set member comes from somewhere along the links.
  lemma ArrivedFrom(cs: Pool, states: seq<State>, linked: Pool, followed: Pool, c: nat, t: nat) returns (a: nat)
    requires Followed(cs, states, linked, followed) && InStates(states, c) && c < |followed| && t in followed[c].fws
    ensures a < |cs| && InStates(states, a) && t in cs[a].fws && Flows(linked, states, a, c)
  {
    a :| Flows(linked, states, a, c) && t in linked[a].fws;
    var n: nat :| FlowsIn(linked, states, a, c, n);
  }

  lemma StartInitially(g: Grammar, lambda: Lambdas, first: Firsts, cs: Pool, states: seq<State>, s: nat, a: nat, t: nat)
    requires g.WellFormed() && g.StartNotOnRhs() && Good(g, lambda, first, cs, states)
    requires s < |states| && a in states[s].cfp && a < |cs| && t in cs[a].fws && Lhs(g, ItemOf(cs, a)) == g.start
    ensures t == 0
  {
    assert InitialFws(g, lambda, first, cs, s, states[s]);
    hide Good, InitialFws;
    if HasOrigin(g, lambda, first, cs, states[s].cfp, a, t) {
      var b :| b in states[s].cfp && Induces(g, cs, b, a);
      NextOnRhs(g, ItemOf(cs, b));
      assert false;
    }
  }

  // ---- the live actions of a state ----

  lemma FollowedItems(cs: Pool, states: seq<State>, linked: Pool, followed: Pool, c: nat)
    requires Followed(cs, states, linked, followed)
    ensures ItemOf(followed, c) == ItemOf(cs, c)
  {
    if c < |cs| { assert followed[c].item == linked[c].item == cs[c].item; }
  }

  lemma ReduceSound(g: Grammar, lambda: Lambdas, first: Firsts, cs: Pool, states: seq<State>, linked: Pool,
                    followed: Pool, s: nat, t: nat, r: nat, order: seq<nat>, num: seq<nat>)
    requires Analyzed(g, lambda, first, cs, states, linked, followed) && s < |states|
    requires CallsForReduce(g, followed, states[s].cfp, t, r) && Numbering(order, num) && |order| == |states|
    ensures SoundReduce(g, ItemsByNumber(cs, states, order), num[s], r) && (g.rules[r].lhs == g.start ==> t == 0)
  {
    hide Built, Numbering, Followed;
    var c :| c in states[s].cfp && AtRuleEnd(g, followed, c) && ItemOf(followed, c).rule == r
        && t in FwsOf(followed, c);
    FollowedItems(cs, states, linked, followed, c);
    NumberingAt(order, num, s);
    assert Item(r, |g.rules[r].rhs|) == ItemOf(cs, c);
    assert ItemOf(cs, c) in Items(cs, states, s);
    assert InStates(states, c);
    if g.rules[r].lhs == g.start { StartOnDollar(g, lambda, first, cs, states, linked, followed, c, t); }
  }

  // A live action of a state is a shift FindStates made, a reduction called for, or the accepting action.
  ghost predicate ActSound(g: Grammar, items: seq<set<Item>>, k: nat, sp: nat, a: Act)
    requires k < |items|
  {
    match a
    case Shift(to) => 1 <= sp && sp != g.start && SoundShift(g, items, k, SymbolOf(g, sp), to)
    case Reduce(r) => sp < g.nterminal && SoundReduce(g, items, k, r) && (g.rules[r].lhs == g.start ==> sp == 0)
    case Accept => sp == g.start && k == 0
    case Error => false
  }

  lemma LiveSound(g: Grammar, lambda: Lambdas, first: Firsts, cs: Pool, states: seq<State>, linked: Pool,
                  followed: Pool, s: nat, ap: seq<Action>, a: Action, order: seq<nat>, num: seq<nat>)
    requires Analyzed(g, lambda, first, cs, states, linked, followed) && s < |states|
    requires Finished(g, followed, states[s], s == 0, ap) && a in ap && Live(a) && Numbering(order, num)
      && |order| == |states|
    ensures num[s] < |order| && ActSound(g, ItemsByNumber(cs, states, order), num[s], a.sp, RenameAct(num, ActOf(a)))
  {
    hide Built, Numbering, Followed, CallsForReduce, Good, SoundShift, SoundReduce;
    NumberingAt(order, num, s);
    NumberingZero(order, num);
    assert Reductions.CalledFor(g, followed, states[s], s == 0, a);
    if a in states[s].ap {
      ShiftSound(g, lambda, first, cs, states, s, a, order, num);
      ShiftNotStart(g, lambda, first, cs, states, s, a);
    } else if a.kind == REDUCE {
      ReduceSound(g, lambda, first, cs, states, linked, followed, s, a.sp, a.x, order, num);
      CallsTerminal(g, followed, states[s].cfp, a.sp, a.x);
    }
  }

  lemma CallsTerminal(g: Grammar, cs: Pool, ids: seq<nat>, t: nat, r: nat)
    requires CallsForReduce(g, cs, ids, t, r)
    ensures t < g.nterminal
  {
  }

  lemma ShiftNotStart(g: Grammar, lambda: Lambdas, first: Firsts, cs: Pool, states: seq<State>, s: nat, a: Action)
    requires g.WellFormed() && g.StartNotOnRhs() && Built(g, lambda, first, cs, states) && s < |states|
      && a in states[s].ap
    ensures a.kind == SHIFT && a.sp != g.start && a.sp < g.nsymbol && a.x < |states|
  {
    hide Built, GotoIs;
    var c := ShiftComesFrom(g, lambda, first, cs, states, s, a);
    NextOnRhs(g, ItemOf(cs, c));
  }

  // ---- the row of a state ----

  // After a rule for A a state has a way on: the accepting action, or a goto.
  lemma GotoServed(g: Grammar, lambda: Lambdas, first: Firsts, cs: Pool, states: seq<State>, linked: Pool,
                   followed: Pool, s: nat, ap: seq<Action>, it: Item)
    requires Analyzed(g, lambda, first, cs, states, linked, followed) && s < |states|
    requires Finished(g, followed, states[s], s == 0, ap) && it in Items(cs, states, s) && it.dot == 0
    ensures it.rule < |g.rules| && Served(ap, g.rules[it.rule].lhs)
    ensures g.rules[it.rule].lhs == g.start ==> s == 0
  {
    hide Good, Followed;
    FrontItem(g, lambda, first, cs, states, s, it);
    var A := g.rules[it.rule].lhs;
    if !(s == 0 && A == g.start) {
      var c :| c in states[s].cfp && Next(g, ItemOf(cs, c)) == Some(N(A));
      NextOnRhs(g, ItemOf(cs, c));
      assert Done(g, cs, states, s) && ShiftDone(g, cs, states, s, c);
      var to: nat :| ShiftTo(g, cs, states, s, c, N(A), to);
      assert A in SymbolCodes(N(A)) && HasShift(states[s].ap, A, to);
    }
  }

  lemma CompressedRow(g: Grammar, lambda: Lambdas, first: Firsts, cs: Pool, states: seq<State>, linked: Pool,
                      followed: Pool, s: nat, resolved: seq<Action>, ap: seq<Action>, order: seq<nat>, num: seq<nat>,
                      sp: nat)
    requires Analyzed(g, lambda, first, cs, states, linked, followed) && s < |states|
    requires Finished(g, followed, states[s], s == 0, resolved) && Compressed(g, resolved, ap)
    requires Numbering(order, num) && |order| == |states| && sp < g.nsymbol
    ensures num[s] < |order|
    ensures Explicit(ap, sp).Some? ==> ActSound(g, ItemsByNumber(cs, states, order), num[s], sp,
      RenameAct(num, Explicit(ap, sp).value))
    ensures sp >= g.nterminal && Served(resolved, sp) ==> Explicit(ap, sp).Some?
  {
    hide Built, Numbering, Followed, ActSound, Deterministic;
    NumberingAt(order, num, s);
    ExplicitMeans(resolved, sp);
    if Served(resolved, sp) {
      var a :| a in resolved && Live(a) && a.sp == sp && ActOf(a) == Explicit(resolved, sp).value;
      LiveSound(g, lambda, first, cs, states, linked, followed, s, resolved, a, order, num);
      ReduceOnTerminal(g, ItemsByNumber(cs, states, order), num[s], sp, RenameAct(num, ActOf(a)));
    }
  }

  lemma ReduceOnTerminal(g: Grammar, items: seq<set<Item>>, k: nat, sp: nat, a: Act)
    requires k < |items| && ActSound(g, items, k, sp, a)
    ensures a.Reduce? ==> sp < g.nterminal
  {
  }

  lemma DefaultSound(g: Grammar, lambda: Lambdas, first: Firsts, cs: Pool, states: seq<State>, linked: Pool,
                     followed: Pool, s: nat, resolved: seq<Action>, ap: seq<Action>, order: seq<nat>, num: seq<nat>)
    requires Analyzed(g, lambda, first, cs, states, linked, followed) && s < |states|
    requires Finished(g, followed, states[s], s == 0, resolved) && Compressed(g, resolved, ap)
    requires Numbering(order, num) && |order| == |states|
    ensures num[s] < |order|
    ensures match DefaultAct(g, ap)
            case Reduce(r) => SoundReduce(g, ItemsByNumber(cs, states, order), num[s], r) && g.rules[r].lhs != g.start
            case Error => true
            case _ => false
  {
    hide Built, Numbering, Followed, Deterministic;
    NumberingAt(order, num, s);
    if ap == resolved {
      ExplicitMeans(ap, g.nsymbol);
      if Served(ap, g.nsymbol) {
        var a :| a in ap && Live(a) && a.sp == g.nsymbol;
        LiveOnSymbol(g, lambda, first, cs, states, linked, followed, s, ap, a);
        assert false;
      }
    } else {
      var best: nat :| CompressedBy(resolved, ap, best, g.nsymbol) && !IsStartRule(g, best)
          && exists a <- resolved :: IsReduceBy(a, best);
      var a :| a in resolved && IsReduceBy(a, best);
      LiveSound(g, lambda, first, cs, states, linked, followed, s, resolved, a, order, num);
    }
  }

  lemma LiveOnSymbol(g: Grammar, lambda: Lambdas, first: Firsts, cs: Pool, states: seq<State>, linked: Pool,
                     followed: Pool, s: nat, ap: seq<Action>, a: Action)
    requires Analyzed(g, lambda, first, cs, states, linked, followed) && s < |states|
    requires Reductions.OnceCalledFor(g, followed, states[s], s == 0, a)
    ensures a.sp < g.nsymbol
  {
    hide Built, Followed;
    var a0 :| Reductions.CalledFor(g, followed, states[s], s == 0, a0) && a.sp == a0.sp;
    if a0 in states[s].ap { ShiftNotStart(g, lambda, first, cs, states, s, a0); }
  }
}

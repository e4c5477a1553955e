/** The states of the LR(0) collection as the generator stores them, and what is true of them. */
module Collection {
  import opened Options
  import opened Grammars
  import opened FirstSets
  import opened Automata
  import opened Sorting
  import opened Configs
  import opened ActionLists

  // bp and cfp: the basis and all configurations, in order; ap: the actions.
  datatype State = State(bp: seq<nat>, cfp: seq<nat>, ap: seq<Action>)

  // Configcmp
  predicate ItemLe(a: Item, b: Item) {
    a.rule < b.rule || (a.rule == b.rule && a.dot <= b.dot)
  }

  ghost predicate InOrder(items: seq<Item>) {
    forall i, j | 0 <= i < j < |items| :: ItemLe(items[i], items[j]) && items[i] != items[j]
  }

  // In order, a set of items can be listed in one way only; this is why comparing sorted lists compares sets.
  lemma {:induction false} InOrderUnique(a: seq<Item>, b: seq<Item>)
    requires InOrder(a) && InOrder(b) && forall it :: it in a <==> it in b
    ensures a == b
  {
    assert |a| > 0 ==> a[0] in a;
    assert |b| > 0 ==> b[0] in b;
    if a != [] && b != [] {
      assert a[0] in b && b[0] in a;
      assert a[0] == b[0];
      forall it ensures it in a[1..] <==> it in b[1..] {
        if it in a[1..] { assert it in b; }
        if it in b[1..] { assert it in a; }
      }
      InOrderUnique(a[1..], b[1..]);
    }
  }

  // ---- one state ----

  ghost predicate StateOK(g: Grammar, lambda: Lambdas, first: Firsts, cs: Pool, st: State) {
    && InPool(cs, st.cfp) && ValidItems(g, cs, st.cfp)
    && InOrder(ItemsOf(cs, st.cfp)) && InOrder(ItemsOf(cs, st.bp))
    && (forall c <- st.bp :: c in st.cfp)
    && (forall c <- st.cfp :: ClosedAt(g, lambda, first, cs, st.cfp, c))
    && Justified(g, cs, st.cfp, st.bp)
    && LinksSound(g, lambda, cs, st.cfp)
  }

  // The look-aheads a state is built with: `$` for the start rules in state 0, and what closure hands on.
  ghost predicate InitialFws(g: Grammar, lambda: Lambdas, first: Firsts, cs: Pool, s: nat, st: State) {
    forall d <- st.cfp | d < |cs| :: forall t <- cs[d].fws ::
      || HasOrigin(g, lambda, first, cs, st.cfp, d, t)
      || (s == 0 && t == 0 && cs[d].item.dot == 0 && Lhs(g, cs[d].item) == g.start)
  }

  // ---- all states ----

  ghost predicate SameBasis(cs: Pool, a: State, b: State) {
    ItemSet(cs, a.bp) == ItemSet(cs, b.bp)
  }

  ghost predicate BackLinksOK(g: Grammar, cs: Pool) {
    forall c: nat, b | c < |cs| && b in cs[c].bplp :: BackLinkOK(cs, c, b)
  }

  ghost predicate BackLinkOK(cs: Pool, c: nat, b: nat) {
    c < |cs| && b < |cs| && cs[c].item == Advance(cs[b].item)
  }

  ghost predicate Good(g: Grammar, lambda: Lambdas, first: Firsts, cs: Pool, states: seq<State>) {
    && (forall s: nat | s < |states| ::
        StateOK(g, lambda, first, cs, states[s])
        && InitialFws(g, lambda, first, cs, s, states[s]))
    && (forall s, s' | 0 <= s < s' < |states| :: !SameBasis(cs, states[s], states[s']))
    && (forall s: nat | 0 < s < |states| :: BasisAdvanced(cs, states[s]))
    && BackLinksOK(g, cs)
  }

  // Every basis configuration but those of state 0 has its dot moved.
  ghost predicate BasisAdvanced(cs: Pool, st: State) {
    st.bp != [] && forall c <- st.bp :: ItemOf(cs, c).dot > 0
  }

  // ---- what later work leaves alone ----

  ghost predicate KeptOne(x: Config, y: Config) {
    x.item == y.item && x.fws == y.fws && x.fplp == y.fplp && forall b <- x.bplp :: b in y.bplp
  }

  // Everything but statuses, and back links may be added.
  ghost predicate Kept(a: Pool, b: Pool) {
    |a| <= |b| && forall c | 0 <= c < |a| :: KeptOne(a[c], b[c])
  }

  ghost predicate StatusKept(a: Pool, b: Pool) {
    |a| <= |b| && forall c | 0 <= c < |a| :: a[c].status == b[c].status
  }

  lemma KeptTrans(a: Pool, b: Pool, c: Pool)
    requires Kept(a, b) && Kept(b, c)
    ensures Kept(a, c)
  {
    forall k | 0 <= k < |a| ensures KeptOne(a[k], c[k]) {
      assert KeptOne(a[k], b[k]) && KeptOne(b[k], c[k]);
    }
  }

  lemma KeptGrew(a: Pool, b: Pool)
    requires Kept(a, b)
    ensures Grew(a, b)
    ensures forall c: nat | c < |a| :: ItemOf(b, c) == ItemOf(a, c)
  {
    forall c | 0 <= c < |a| ensures GrewOne(a[c], b[c]) && ItemOf(b, c) == ItemOf(a, c) {
      assert KeptOne(a[c], b[c]);
    }
  }

  lemma KeptItems(a: Pool, b: Pool, ids: seq<nat>)
    requires Kept(a, b) && InPool(a, ids)
    ensures InPool(b, ids) && ItemsOf(b, ids) == ItemsOf(a, ids) && ItemSet(b, ids) == ItemSet(a, ids)
  {
    KeptGrew(a, b);
    forall c | c in ids ensures ItemOf(b, c) == ItemOf(a, c) && c < |b| {}
    forall i | 0 <= i < |ids| ensures ItemsOf(b, ids)[i] == ItemsOf(a, ids)[i] { assert ids[i] in ids; }
  }

  lemma StateOKKept(g: Grammar, lambda: Lambdas, first: Firsts, a: Pool, b: Pool, st: State)
    requires Kept(a, b) && StateOK(g, lambda, first, a, st)
    ensures StateOK(g, lambda, first, b, st)
  {
    hide ClosedAt;
    KeptGrew(a, b);
    forall c | c in st.bp ensures c < |a| {}
    KeptItems(a, b, st.cfp);
    KeptItems(a, b, st.bp);
    InducesGrew(g, lambda, first, a, b, st.cfp, st.cfp);
    forall c | c in st.cfp ensures ClosedAt(g, lambda, first, b, st.cfp, c) {
      ClosedAtGrew(g, lambda, first, a, b, st.cfp, st.cfp, c);
    }
    forall c | c in st.cfp
      ensures b[c].fplp == a[c].fplp && ItemOf(b, c) == ItemOf(a, c)
    {
      assert KeptOne(a[c], b[c]);
    }
    assert LinksSound(g, lambda, b, st.cfp);
  }

  lemma InitialFwsKept(g: Grammar, lambda: Lambdas, first: Firsts, a: Pool, b: Pool, s: nat, st: State)
    requires Kept(a, b) && InPool(a, st.cfp) && InitialFws(g, lambda, first, a, s, st)
    ensures InitialFws(g, lambda, first, b, s, st)
  {
    KeptGrew(a, b);
    InducesGrew(g, lambda, first, a, b, st.cfp, st.cfp);
    forall d, t | d in st.cfp && d < |b| && t in b[d].fws
      ensures HasOrigin(g, lambda, first, b, st.cfp, d, t)
        || (s == 0 && t == 0 && b[d].item.dot == 0 && Lhs(g, b[d].item) == g.start)
    {
      assert KeptOne(a[d], b[d]);
    }
  }

  // ---- shifts ----

  ghost predicate HasShift(ap: seq<Action>, code: nat, to: nat) {
    exists a <- ap :: a.sp == code && a.kind == SHIFT && a.x == to
  }

  // Two actions share a look-ahead.
  ghost predicate Repeated(ap: seq<Action>) {
    exists a, b :: a in ap && b in ap && a != b && a.sp == b.sp
  }

  // A MULTITERMINAL that names a terminal twice is shifted on it twice.
  ghost predicate ShiftsOn(ap: seq<Action>, x: Symbol, to: nat) {
    && (forall code <- SymbolCodes(x) :: HasShift(ap, code, to))
    && (AllDifferent(SymbolCodes(x)) || Repeated(ap))
  }

  // The basis of `to` is exactly the items of `from` with x after the dot, moved over it.
  ghost predicate GotoIs(g: Grammar, cs: Pool, from: State, x: Symbol, to: State) {
    ItemSet(cs, to.bp) == AdvanceAll(g, ItemSet(cs, from.cfp), x)
  }

  // `to` holds configuration c with its dot moved, linked back to c.
  ghost predicate Carries(cs: Pool, c: nat, to: State) {
    exists y <- to.bp :: y < |cs| && cs[y].item == Advance(ItemOf(cs, c)) && c in cs[y].bplp
  }

  ghost predicate ShiftTo(g: Grammar, cs: Pool, states: seq<State>, s: nat, c: nat, x: Symbol, to: nat) {
    && s < |states| && to < |states|
    && GotoIs(g, cs, states[s], x, states[to])
    && Carries(cs, c, states[to])
    && ShiftsOn(states[s].ap, x, to)
  }

  // Configuration c of state s has contributed to a successor state.
  ghost predicate ShiftDone(g: Grammar, cs: Pool, states: seq<State>, s: nat, c: nat) {
    Next(g, ItemOf(cs, c)).Some? ==> exists to: nat :: ShiftTo(g, cs, states, s, c, Next(g, ItemOf(cs, c)).value, to)
  }

  ghost predicate Done(g: Grammar, cs: Pool, states: seq<State>, s: nat)
    requires s < |states|
  {
    && (forall c <- states[s].cfp :: ShiftDone(g, cs, states, s, c))
    && ActionsOK(g, cs, states, s)
    && ShiftsAsked(g, cs, states, s, states[s].cfp)
  }

  // The symbols behind the dots, each of them once, in the order of the configurations.
  ghost function NextsOf(g: Grammar, cs: Pool, ids: seq<nat>): seq<Symbol>
    decreases |ids|
  {
    if ids == [] then []
    else
      var before, next := NextsOf(g, cs, ids[..|ids| - 1]), Next(g, ItemOf(cs, ids[|ids| - 1]));
      if next.None? || next.value in before then before else before + [next.value]
  }

  // Each of them asks for a shift for each of its constituents.
  ghost function RequestsFor(x: Symbol): seq<(Symbol, nat)> {
    seq(|SymbolCodes(x)|, i requires 0 <= i < |SymbolCodes(x)| => (x, SymbolCodes(x)[i]))
  }

  ghost function Requests(syms: seq<Symbol>): seq<(Symbol, nat)> {
    if syms == [] then [] else Requests(syms[..|syms| - 1]) + RequestsFor(syms[|syms| - 1])
  }

  ghost predicate Answers(g: Grammar, cs: Pool, states: seq<State>, s: nat, a: Action, asked: (Symbol, nat))
    requires s < |states|
  {
    a.sp == asked.1 && a.x < |states| && GotoIs(g, cs, states[s], asked.0, states[a.x])
  }

  // The shifts of the state are those that the configurations ask for, the last one in front.
  ghost predicate ShiftsAsked(g: Grammar, cs: Pool, states: seq<State>, s: nat, ids: seq<nat>)
    requires s < |states|
  {
    AllAnswered(g, cs, states, s, Requests(NextsOf(g, cs, ids)))
  }

  ghost predicate AllAnswered(g: Grammar, cs: Pool, states: seq<State>, s: nat, asked: seq<(Symbol, nat)>)
    requires s < |states|
  {
    var ap := states[s].ap;
    |ap| == |asked| && forall k: nat | k < |asked| :: Answers(g, cs, states, s, ap[|asked| - 1 - k], asked[k])
  }

  lemma {:induction false} NextsKept(g: Grammar, cs: Pool, cs': Pool, ids: seq<nat>)
    requires InPool(cs, ids) && forall c: nat | c < |cs| :: ItemOf(cs', c) == ItemOf(cs, c)
    ensures NextsOf(g, cs', ids) == NextsOf(g, cs, ids)
    decreases |ids|
  {
    if ids != [] {
      var n := |ids| - 1;
      assert ids[n] in ids && forall c <- ids[..n] :: c in ids;
      NextsKept(g, cs, cs', ids[..n]);
    }
  }

  lemma AnswersKept(g: Grammar, cs: Pool, cs': Pool, states: seq<State>, states': seq<State>, s: nat, a: Action,
                    asked: (Symbol, nat))
    requires Kept(cs, cs') && Extends(states, states') && s < |states|
    requires forall s: nat | s < |states| :: InPool(cs, states[s].bp) && InPool(cs, states[s].cfp)
    requires Answers(g, cs, states, s, a, asked)
    ensures Answers(g, cs', states', s, a, asked)
  {
    KeptGrew(cs, cs');
    assert SameLists(states[s], states'[s]) && SameLists(states[a.x], states'[a.x]);
    KeptItems(cs, cs', states[s].cfp);
    KeptItems(cs, cs', states[a.x].bp);
  }

  lemma AskedKept(g: Grammar, cs: Pool, cs': Pool, states: seq<State>, states': seq<State>, s: nat, ids: seq<nat>)
    requires Kept(cs, cs') && Extends(states, states') && s < |states| && InPool(cs, ids)
    requires forall s: nat | s < |states| :: InPool(cs, states[s].bp) && InPool(cs, states[s].cfp)
    requires ShiftsAsked(g, cs, states, s, ids) && states'[s].ap == states[s].ap
    ensures ShiftsAsked(g, cs', states', s, ids)
  {
    hide Answers, Requests;
    KeptGrew(cs, cs');
    NextsKept(g, cs, cs', ids);
    var asked, ap := Requests(NextsOf(g, cs, ids)), states[s].ap;
    forall k: nat | k < |asked| ensures Answers(g, cs', states', s, ap[|asked| - 1 - k], asked[k]) {
      AnswersKept(g, cs, cs', states, states', s, ap[|asked| - 1 - k], asked[k]);
    }
  }

  ghost predicate ActionOK(g: Grammar, cs: Pool, states: seq<State>, s: nat, a: Action)
    requires s < |states|
  {
    && a.kind == SHIFT && a.x < |states|
    && exists c <- states[s].cfp ::
         && Next(g, ItemOf(cs, c)).Some?
         && a.sp in SymbolCodes(Next(g, ItemOf(cs, c)).value)
         && GotoIs(g, cs, states[s], Next(g, ItemOf(cs, c)).value, states[a.x])
  }

  // Only shifts that were asked for; two on one symbol only if two were asked for; later ones first, at higher
  // addresses.
  ghost predicate ActionsOK(g: Grammar, cs: Pool, states: seq<State>, s: nat)
    requires s < |states|
  {
    && (forall a <- states[s].ap :: ActionOK(g, cs, states, s, a))
    && ClashingRepeats(g, cs, states[s].cfp, states[s].ap)
    && Descending(states[s].ap)
  }

  ghost predicate ClashingRepeats(g: Grammar, cs: Pool, cfp: seq<nat>, ap: seq<Action>) {
    forall i, j | 0 <= i < j < |ap| && ap[i].sp == ap[j].sp :: Clashing(g, cs, cfp, ap[i].sp)
  }

  ghost predicate Clashing(g: Grammar, cs: Pool, cfp: seq<nat>, sp: nat) {
    exists c, d :: c in cfp && d in cfp && ClashOn(Next(g, ItemOf(cs, c)), Next(g, ItemOf(cs, d)), sp)
  }

  // Two symbols behind dots ask for a shift on sp, or one symbol asks for two.
  ghost predicate ClashOn(x: Option<Symbol>, y: Option<Symbol>, sp: nat) {
    && x.Some? && y.Some? && sp in SymbolCodes(x.value) && sp in SymbolCodes(y.value)
    && (x != y || !AllDifferent(SymbolCodes(x.value)))
  }

  ghost predicate Descending(ap: seq<Action>) {
    forall i, j | 0 <= i < j < |ap| :: ap[i].addr > ap[j].addr
  }

  // States are only added; their configurations stay.
  ghost predicate SameLists(a: State, b: State) {
    a.bp == b.bp && a.cfp == b.cfp
  }

  ghost predicate Extends(a: seq<State>, b: seq<State>) {
    |a| <= |b| && forall s | 0 <= s < |a| :: SameLists(a[s], b[s])
  }

  lemma ShiftToKept(g: Grammar, cs: Pool, cs': Pool, states: seq<State>, states': seq<State>, s: nat, c: nat, x: Symbol,
                    to: nat)
    requires Kept(cs, cs') && Extends(states, states') && c < |cs|
    requires forall s: nat | s < |states| :: InPool(cs, states[s].bp) && InPool(cs, states[s].cfp)
    requires ShiftTo(g, cs, states, s, c, x, to) && forall a <- states[s].ap :: a in states'[s].ap
    ensures ShiftTo(g, cs', states', s, c, x, to)
  {
    KeptGrew(cs, cs');
    assert SameLists(states[s], states'[s]) && SameLists(states[to], states'[to]);
    KeptItems(cs, cs', states[s].cfp);
    KeptItems(cs, cs', states[to].bp);
    var y :| y in states[to].bp && y < |cs| && cs[y].item == Advance(ItemOf(cs, c)) && c in cs[y].bplp;
    assert KeptOne(cs[y], cs'[y]);
    assert Carries(cs', c, states'[to]);
    forall code | code in SymbolCodes(x) ensures HasShift(states'[s].ap, code, to) {
      assert HasShift(states[s].ap, code, to);
    }
    if Repeated(states[s].ap) {
      var a, b :| a in states[s].ap && b in states[s].ap && a != b && a.sp == b.sp;
      assert a in states'[s].ap && b in states'[s].ap;
    }
  }

  lemma ShiftDoneKept(g: Grammar, cs: Pool, cs': Pool, states: seq<State>, states': seq<State>, s: nat, c: nat)
    requires Kept(cs, cs') && Extends(states, states') && c < |cs| && s < |states|
    requires forall s: nat | s < |states| :: InPool(cs, states[s].bp) && InPool(cs, states[s].cfp)
    requires ShiftDone(g, cs, states, s, c) && forall a <- states[s].ap :: a in states'[s].ap
    ensures ShiftDone(g, cs', states', s, c)
  {
    KeptGrew(cs, cs');
    var n := Next(g, ItemOf(cs, c));
    if n.Some? {
      var to: nat :| ShiftTo(g, cs, states, s, c, n.value, to);
      ShiftToKept(g, cs, cs', states, states', s, c, n.value, to);
    }
  }

  lemma ActionOKKept(g: Grammar, cs: Pool, cs': Pool, states: seq<State>, states': seq<State>, s: nat, a: Action)
    requires Kept(cs, cs') && Extends(states, states') && s < |states|
    requires forall s: nat | s < |states| :: InPool(cs, states[s].bp) && InPool(cs, states[s].cfp)
    requires ActionOK(g, cs, states, s, a)
    ensures ActionOK(g, cs', states', s, a)
  {
    KeptGrew(cs, cs');
    var c :| c in states[s].cfp && Next(g, ItemOf(cs, c)).Some? && a.sp in SymbolCodes(Next(g, ItemOf(cs, c)).value)
      && GotoIs(g, cs, states[s], Next(g, ItemOf(cs, c)).value, states[a.x]);
    assert SameLists(states[s], states'[s]) && SameLists(states[a.x], states'[a.x]);
    KeptItems(cs, cs', states[s].cfp);
    KeptItems(cs, cs', states[a.x].bp);
  }

  lemma DoneKept(g: Grammar, cs: Pool, cs': Pool, states: seq<State>, states': seq<State>, s: nat)
    requires Kept(cs, cs') && Extends(states, states') && s < |states|
    requires forall s: nat | s < |states| :: InPool(cs, states[s].bp) && InPool(cs, states[s].cfp)
    requires Done(g, cs, states, s) && states'[s].ap == states[s].ap
    ensures Done(g, cs', states', s)
  {
    hide ShiftDone, ActionOK, ClashingRepeats, ShiftsAsked;
    assert SameLists(states[s], states'[s]);
    AskedKept(g, cs, cs', states, states', s, states[s].cfp);
    forall c | c in states[s].cfp ensures ShiftDone(g, cs', states', s, c) {
      ShiftDoneKept(g, cs, cs', states, states', s, c);
    }
    forall a | a in states[s].ap ensures ActionOK(g, cs', states', s, a) {
      ActionOKKept(g, cs, cs', states, states', s, a);
    }
    ClashingKept(g, cs, cs', states[s].cfp, states[s].ap);
  }

  lemma ClashingKept(g: Grammar, cs: Pool, cs': Pool, cfp: seq<nat>, ap: seq<Action>)
    requires Kept(cs, cs') && InPool(cs, cfp) && ClashingRepeats(g, cs, cfp, ap)
    ensures ClashingRepeats(g, cs', cfp, ap)
  {
    hide ClashOn;
    KeptGrew(cs, cs');
    forall i, j | 0 <= i < j < |ap| && ap[i].sp == ap[j].sp ensures Clashing(g, cs', cfp, ap[i].sp) {
      var c, d :| c in cfp && d in cfp && ClashOn(Next(g, ItemOf(cs, c)), Next(g, ItemOf(cs, d)), ap[i].sp);
    }
  }

  lemma SameBasisKept(cs: Pool, cs': Pool, a: State, b: State)
    requires Kept(cs, cs') && InPool(cs, a.bp) && InPool(cs, b.bp)
    ensures SameBasis(cs', a, b) == SameBasis(cs, a, b)
    ensures BasisAdvanced(cs, a) ==> BasisAdvanced(cs', a)
  {
    KeptGrew(cs, cs');
    KeptItems(cs, cs', a.bp);
    KeptItems(cs, cs', b.bp);
  }

  // Everything said about the states survives changes that keep configurations and lists.
  lemma GoodKept(g: Grammar, lambda: Lambdas, first: Firsts, cs: Pool, cs': Pool, states: seq<State>,
                 states': seq<State>)
    requires Kept(cs, cs') && Extends(states, states') && |states| == |states'|
    requires Good(g, lambda, first, cs, states) && BackLinksOK(g, cs')
    ensures Good(g, lambda, first, cs', states')
  {
    hide StateOK, InitialFws, BackLinksOK, SameBasis, BasisAdvanced;
    forall s: nat | s < |states'|
      ensures StateOK(g, lambda, first, cs', states'[s]) && InitialFws(g, lambda, first, cs', s, states'[s])
      ensures s > 0 ==> BasisAdvanced(cs', states'[s])
    {
      assert SameLists(states[s], states'[s]);
      StateInPool(g, lambda, first, cs, states[s]);
      StateOKKept(g, lambda, first, cs, cs', states[s]);
      StateOKLists(g, lambda, first, cs', states[s], states'[s]);
      InitialFwsKept(g, lambda, first, cs, cs', s, states[s]);
      InitialFwsLists(g, lambda, first, cs', s, states[s], states'[s]);
      SameBasisKept(cs, cs', states[s], states[s]);
    }
    forall s, t | 0 <= s < t < |states'| ensures !SameBasis(cs', states'[s], states'[t]) {
      assert SameLists(states[s], states'[s]) && SameLists(states[t], states'[t]);
      StateInPool(g, lambda, first, cs, states[s]);
      StateInPool(g, lambda, first, cs, states[t]);
      SameBasisKept(cs, cs', states[s], states[t]);
      SameBasisLists(cs', states[s], states[t], states'[s], states'[t]);
    }
  }

  lemma StateInPool(g: Grammar, lambda: Lambdas, first: Firsts, cs: Pool, st: State)
    requires StateOK(g, lambda, first, cs, st)
    ensures InPool(cs, st.cfp) && InPool(cs, st.bp)
  {
  }

  lemma StateOKLists(g: Grammar, lambda: Lambdas, first: Firsts, cs: Pool, a: State, b: State)
    requires StateOK(g, lambda, first, cs, a) && SameLists(a, b)
    ensures StateOK(g, lambda, first, cs, b)
  {
  }

  lemma InitialFwsLists(g: Grammar, lambda: Lambdas, first: Firsts, cs: Pool, s: nat, a: State, b: State)
    requires InitialFws(g, lambda, first, cs, s, a) && SameLists(a, b)
    ensures InitialFws(g, lambda, first, cs, s, b)
    ensures BasisAdvanced(cs, a) ==> BasisAdvanced(cs, b)
  {
  }

  lemma SameBasisLists(cs: Pool, a: State, b: State, a': State, b': State)
    requires SameLists(a, a') && SameLists(b, b')
    ensures SameBasis(cs, a, b) == SameBasis(cs, a', b')
  {
  }

  // In a sorted list an item stands once.
  lemma InOrderOnce(cs: Pool, ids: seq<nat>, x: nat, y: nat)
    requires InOrder(ItemsOf(cs, ids)) && x in ids && y in ids && ItemOf(cs, x) == ItemOf(cs, y)
    ensures x == y
  {
    var i :| 0 <= i < |ids| && ids[i] == x;
    var j :| 0 <= j < |ids| && ids[j] == y;
    assert ItemsOf(cs, ids)[i] == ItemsOf(cs, ids)[j];
  }

  // ---- where states come from ----

  // What configuration c of state s leads to is among the first n states.
  ghost predicate LeadsBelow(g: Grammar, cs: Pool, states: seq<State>, s: nat, c: nat, n: nat)
    requires s < |states|
  {
    Next(g, ItemOf(cs, c)).Some? ==>
      exists to: nat :: to < n && to < |states| && GotoIs(g, cs, states[s], Next(g, ItemOf(cs, c)).value, states[to])
  }

  ghost predicate AllLeadBelow(g: Grammar, cs: Pool, states: seq<State>, s: nat, ids: seq<nat>, n: nat)
    requires s < |states|
  {
    forall c <- ids :: LeadsBelow(g, cs, states, s, c, n)
  }

  // State t was found over configuration number i of state p.  All that the configurations before this one lead to had
  // been found by then, and all that the states between p and t lead to.
  ghost predicate FoundOver(g: Grammar, cs: Pool, states: seq<State>, t: nat, p: nat, i: nat) {
    && p < t < |states| && i < |states[p].cfp| && Next(g, ItemOf(cs, states[p].cfp[i])).Some?
    && GotoIs(g, cs, states[p], Next(g, ItemOf(cs, states[p].cfp[i])).value, states[t])
    && AllLeadBelow(g, cs, states, p, states[p].cfp[..i], t)
    && forall q: nat | p < q < t :: AllLeadBelow(g, cs, states, q, states[q].cfp, t)
  }

  // State t was found from an earlier state, no earlier than lo.
  ghost predicate FoundFrom(g: Grammar, cs: Pool, states: seq<State>, lo: nat, t: nat) {
    exists p: nat, i: nat :: lo <= p && FoundOver(g, cs, states, t, p, i)
  }

  lemma LeadsKept(g: Grammar, cs: Pool, cs': Pool, states: seq<State>, states': seq<State>, s: nat, ids: seq<nat>,
                  n: nat)
    requires Kept(cs, cs') && Extends(states, states') && s < |states| && InPool(cs, ids)
    requires forall s: nat | s < |states| :: InPool(cs, states[s].bp) && InPool(cs, states[s].cfp)
    requires AllLeadBelow(g, cs, states, s, ids, n)
    ensures AllLeadBelow(g, cs', states', s, ids, n)
  {
    hide GotoIs;
    KeptGrew(cs, cs');
    forall c | c in ids && Next(g, ItemOf(cs, c)).Some? ensures LeadsBelow(g, cs', states', s, c, n) {
      assert LeadsBelow(g, cs, states, s, c, n);
      var to: nat :| to < n && to < |states| && GotoIs(g, cs, states[s], Next(g, ItemOf(cs, c)).value, states[to]);
      GotoKept(g, cs, cs', states, states', s, Next(g, ItemOf(cs, c)).value, to);
    }
  }

  lemma GotoKept(g: Grammar, cs: Pool, cs': Pool, states: seq<State>, states': seq<State>, s: nat, x: Symbol, to: nat)
    requires Kept(cs, cs') && Extends(states, states') && s < |states| && to < |states|
    requires forall s: nat | s < |states| :: InPool(cs, states[s].bp) && InPool(cs, states[s].cfp)
    requires GotoIs(g, cs, states[s], x, states[to])
    ensures GotoIs(g, cs', states'[s], x, states'[to])
  {
    assert SameLists(states[s], states'[s]) && SameLists(states[to], states'[to]);
    KeptItems(cs, cs', states[s].cfp);
    KeptItems(cs, cs', states[to].bp);
  }

  lemma FoundStays(g: Grammar, cs: Pool, cs': Pool, states: seq<State>, states': seq<State>, lo: nat, lo': nat, t: nat)
    requires Kept(cs, cs') && Extends(states, states') && lo' <= lo
    requires forall s: nat | s < |states| :: InPool(cs, states[s].bp) && InPool(cs, states[s].cfp)
    requires FoundFrom(g, cs, states, lo, t)
    ensures FoundFrom(g, cs', states', lo', t)
  {
    hide GotoIs, AllLeadBelow;
    KeptGrew(cs, cs');
    var p: nat, i: nat :| lo <= p && FoundOver(g, cs, states, t, p, i);
    var cfp := states[p].cfp;
    assert SameLists(states[p], states'[p]) && cfp[i] in cfp && forall c <- cfp[..i] :: c in cfp;
    GotoKept(g, cs, cs', states, states', p, Next(g, ItemOf(cs, cfp[i])).value, t);
    LeadsKept(g, cs, cs', states, states', p, cfp[..i], t);
    forall q: nat | p < q < t ensures AllLeadBelow(g, cs', states', q, states'[q].cfp, t) {
      assert SameLists(states[q], states'[q]);
      LeadsKept(g, cs, cs', states, states', q, states[q].cfp, t);
    }
    assert FoundOver(g, cs', states', t, p, i);
  }
}

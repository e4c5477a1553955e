/** The generator from end to end: grammar in, tables out. */
module Generation {
  import opened Options
  import opened Grammars
  import opened FirstSets
  import opened Automata
  import opened Configs
  import opened ActionLists
  import opened Resolve
  import opened Collection
  import opened States
  import opened Canonical
  import opened Follow
  import opened Reductions
  import opened Compress
  import opened Report
  import opened PackedRows
  import opened Emission
  import opened Soundness
  import opened Completeness
  import opened Sufficiency
  import opened Backlinks
  import opened Shifting
  import opened Lalr
  import opened Propagation
  import opened Clashes
  import opened Realization
  import opened Defaults
  import opened Chosen
  import opened Numbers
  import opened Rulings
  import opened Discovery
  import opened Determinacy
  import opened Towers
  import opened Spinning
  import opened Termination
  import Lempar

  // ---- the rows are sound ----

  lemma RowSound(g: Grammar, lambda: Lambdas, first: Firsts, cs: Pool, states: seq<State>, linked: Pool, followed: Pool,
                 resolved: seq<seq<Action>>, aps: seq<seq<Action>>, order: seq<nat>, num: seq<nat>, k: nat)
    requires Analyzed(g, lambda, first, cs, states, linked, followed)
      && FinalActions(g, followed, states, resolved, aps)
    requires Numbering(order, num) && |order| == |states| && k < |order| && order[k] < |aps|
    ensures SoundRow(g, ItemsByNumber(cs, states, order), k, RowOf(g, aps[order[k]], num))
  {
    hide Built, Numbering, Followed, Deterministic, Finished, Compressed, SoundShift, SoundReduce, Explicit;
    var s := order[k];
    NumberingBack(order, num, k);
    var items, row := ItemsByNumber(cs, states, order), RowOf(g, aps[s], num);
    DefaultSound(g, lambda, first, cs, states, linked, followed, s, resolved[s], aps[s], order, num);
    forall la: nat ensures SoundTerminalAct(g, items, k, la, TerminalAct(row, la)) {
      if la < g.nsymbol {
        CompressedRow(g, lambda, first, cs, states, linked, followed, s, resolved[s], aps[s], order, num, la);
      }
    }
    forall it: Item | it in items[k] && it.dot == 0 && it.rule < |g.rules|
      ensures SoundGoto(g, items, k, row, g.rules[it.rule].lhs)
    {
      var A := g.rules[it.rule].lhs;
      assert g.rules[it.rule] in g.rules;
      GotoServed(g, lambda, first, cs, states, linked, followed, s, resolved[s], it);
      CompressedRow(g, lambda, first, cs, states, linked, followed, s, resolved[s], aps[s], order, num, A);
    }
  }

  lemma NumberingBack(order: seq<nat>, num: seq<nat>, k: nat)
    requires Numbering(order, num) && k < |order|
    ensures order[k] < |num| == |order| && num[order[k]] == k && (order[k] == 0 <==> k == 0)
  {
    assert order[0] == 0 && num[order[0]] == 0;
  }

  lemma RowsSound(g: Grammar, lambda: Lambdas, first: Firsts, cs: Pool, states: seq<State>, linked: Pool,
                  followed: Pool, resolved: seq<seq<Action>>, aps: seq<seq<Action>>, order: seq<nat>, num: seq<nat>)
    requires Analyzed(g, lambda, first, cs, states, linked, followed)
      && FinalActions(g, followed, states, resolved, aps)
    requires Numbering(order, num) && |order| == |states|
    ensures forall k | 0 <= k < |order| :: order[k] < |aps|
    ensures SoundRows(g, ItemsByNumber(cs, states, order), RowsOf(g, aps, order, num))
  {
    hide Built, Followed, Finished, Compressed, SoundRow, RowOf;
    forall k: nat | k < |order| ensures order[k] < |aps| { NumberingBack(order, num, k); }
    forall k: nat | k < |order| ensures SoundRow(g, ItemsByNumber(cs, states, order), k, RowOf(g, aps[order[k]], num)) {
      RowSound(g, lambda, first, cs, states, linked, followed, resolved, aps, order, num, k);
    }
    NumberingBack(order, num, 0);
    FirstItems(g, lambda, first, cs, states);
  }

  lemma FirstItems(g: Grammar, lambda: Lambdas, first: Firsts, cs: Pool, states: seq<State>)
    requires Built(g, lambda, first, cs, states)
    ensures |states| > 0 && forall it <- Items(cs, states, 0) :: it.dot == 0
  {
    hide Good, Done, FoundFrom, StateOK;
    forall it | it in Items(cs, states, 0) ensures it.dot == 0 {
      StateOfGood(g, lambda, first, cs, states, 0);
      if it.dot > 0 { MovedItem(g, lambda, first, cs, states[0], it); }
    }
  }

  // ---- the stages in order ----

  lemma ReadyForLinks(g: Grammar, lambda: Lambdas, first: Firsts, cs: Pool, states: seq<State>)
    requires Built(g, lambda, first, cs, states)
    ensures AllInPool(cs, states) && forall c: nat, b | c < |cs| && b in cs[c].bplp :: b < |cs|
  {
    hide Done, FoundFrom;
    forall c: nat, b | c < |cs| && b in cs[c].bplp ensures b < |cs| { assert BackLinkOK(cs, c, b); }
  }

  lemma ReadyForFollow(g: Grammar, lambda: Lambdas, first: Firsts, cs: Pool, states: seq<State>, linked: Pool)
    requires Built(g, lambda, first, cs, states) && OnlyLinks(cs, linked)
    requires forall c: nat, d: nat | c < |cs| :: LinkedRight(cs, states, linked, c, d)
    ensures AllInPool(linked, states) && LinksClosed(linked, states)
  {
    ReadyForLinks(g, lambda, first, cs, states);
    hide Good, Done, FoundFrom, StateOK;
    forall c: nat, d: nat | InStates(states, c) && c < |linked| && d in linked[c].fplp
      ensures StaysInside(linked, states, c, d)
    {
      assert LinkedRight(cs, states, linked, c, d);
      LinkInside(g, lambda, first, cs, states, linked, c, d);
    }
  }

  lemma LinkInside(g: Grammar, lambda: Lambdas, first: Firsts, cs: Pool, states: seq<State>, linked: Pool, c: nat,
                   d: nat)
    requires Built(g, lambda, first, cs, states) && |linked| == |cs|
    requires InStates(states, c) && c < |cs| && (d in cs[c].fplp || (InStates(states, d) && d < |cs|))
    ensures StaysInside(linked, states, c, d)
  {
    hide Good, Done, FoundFrom, StateOK;
    if d in cs[c].fplp {
      var s: nat :| s < |states| && c in states[s].cfp;
      StateOfGood(g, lambda, first, cs, states, s);
      LinkInList(g, lambda, first, cs, states[s], c, d);
    }
  }

  lemma LinkInList(g: Grammar, lambda: Lambdas, first: Firsts, cs: Pool, st: State, c: nat, d: nat)
    requires StateOK(g, lambda, first, cs, st) && c in st.cfp && c < |cs| && d in cs[c].fplp
    ensures d in st.cfp && d < |cs|
  {
    hide ClosedAt, Justified, InOrder, ValidItems;
  }

  // FindFirstSets, FindStates, FindLinks, FindFollowSets
  method Analyze(g: Grammar)
    returns (ghost lambda: Lambdas, ghost first: Firsts, ghost cs: Pool, states: seq<State>, ghost linked: Pool,
        followed: Pool, nact: nat)
    requires g.WellFormed() && g.StartNotOnRhs()
    ensures Analyzed(g, lambda, first, cs, states, linked, followed)
    ensures FirstExact(g, lambda, first)
    ensures forall s: nat | s < |states| :: NoTies(states[s].ap) && AddrBelow(states[s].ap, nact)
  {
    hide Good, Done, FoundFrom, Exact, AllLambda, SeqFirst, Nullable, CanBegin;
    var lambdas, firsts := FindFirstSets(g);
    lambda, first := lambdas[..], firsts[..];
    var lemon := new Lemon(g, lambdas[..], firsts[..]);
    lemon.FindStates();
    cs, states, nact := lemon.configs, lemon.states, lemon.nact;
    OwnAddresses(g, cs, states);
    ReadyForLinks(g, lambda, first, cs, states);
    var linked1 := FindLinks(lemon.configs, states);
    linked := linked1;
    ReadyForFollow(g, lambda, first, cs, states, linked);
    followed := FindFollowSets(linked1, states);
  }

  lemma OwnAddresses(g: Grammar, cs: Pool, states: seq<State>)
    requires forall s: nat | s < |states| :: Done(g, cs, states, s)
    ensures forall s: nat | s < |states| :: NoTies(states[s].ap)
  {
    forall s: nat | s < |states| ensures NoTies(states[s].ap) { assert Done(g, cs, states, s); }
  }

  lemma OnlyShifts(g: Grammar, lambda: Lambdas, first: Firsts, cs: Pool, states: seq<State>)
    requires g.WellFormed() && g.StartNotOnRhs() && Built(g, lambda, first, cs, states)
    ensures forall s: nat | s < |states| :: ShiftsOnly(g, states[s])
  {
    hide Built;
    forall s: nat, a | s < |states| && a in states[s].ap ensures a.kind == SHIFT && a.sp != g.start {
      ShiftNotStart(g, lambda, first, cs, states, s, a);
    }
  }

  // CompressTables
  method CompressTables(g: Grammar, states: seq<State>, wildcard: Option<nat>, ghost resolved: seq<seq<Action>>)
    returns (aps: seq<seq<Action>>)
    requires |resolved| == |states| && forall s: nat | s < |states| :: states[s].ap == resolved[s]
    requires forall ap <- resolved :: Deterministic(ap) && NoDefaultYet(ap, g.nsymbol) && NoTies(ap)
    ensures |aps| == |resolved|
    ensures forall s: nat | s < |aps| :: CompressedWith(g, wildcard, resolved[s], aps[s], g.nsymbol)
    ensures forall s: nat | s < |aps| :: Compressed(g, resolved[s], aps[s])
  {
    hide Deterministic, NoDefaultYet, CompressedBy, IsStartRule, NoTies, LeftAlone, MostFrequent;
    aps := [];
    for s := 0 to |states|
      invariant |aps| == s && forall k: nat | k < s :: Compressed(g, resolved[k], aps[k])
      invariant forall k: nat | k < s :: CompressedWith(g, wildcard, resolved[k], aps[k], g.nsymbol)
    {
      assert resolved[s] in resolved;
      var ap, best := CompressState(g, states[s].ap, wildcard, g.nsymbol);
      aps := aps + [ap];
      assert CompressedWith(g, wildcard, resolved[s], ap, g.nsymbol) && Compressed(g, resolved[s], ap);
    }
  }

  lemma ResolvedLists(g: Grammar, lambda: Lambdas, first: Firsts, cs: Pool, states: seq<State>, linked: Pool,
                      followed: Pool, resolved: seq<seq<Action>>)
    requires Analyzed(g, lambda, first, cs, states, linked, followed) && |resolved| == |states|
    requires forall s: nat | s < |states| :: Finished(g, followed, states[s], s == 0, resolved[s])
    ensures forall ap <- resolved ::
      Deterministic(ap) && NoDefaultYet(ap, g.nsymbol)
      && forall a <- ap :: a.sp < g.nsymbol
  {
    hide Built, Followed, Deterministic;
    forall ap | ap in resolved
      ensures Deterministic(ap) && NoDefaultYet(ap, g.nsymbol) && forall a <- ap :: a.sp < g.nsymbol
    {
      var s: nat :| s < |resolved| && resolved[s] == ap;
      assert Finished(g, followed, states[s], s == 0, ap);
      forall a | a in ap ensures a.sp < g.nsymbol {
        LiveOnSymbol(g, lambda, first, cs, states, linked, followed, s, ap, a);
      }
    }
  }

  lemma CompressedLists(g: Grammar, resolved: seq<seq<Action>>, aps: seq<seq<Action>>)
    requires forall ap <- resolved :: Deterministic(ap) && forall a <- ap :: a.sp < g.nsymbol
    requires |aps| == |resolved| && forall s: nat | s < |aps| :: Compressed(g, resolved[s], aps[s])
    ensures forall ap <- aps :: Deterministic(ap) && forall a <- ap | Live(a) :: a.sp <= g.nsymbol
  {
    hide Deterministic;
    forall ap | ap in aps ensures Deterministic(ap) && forall a <- ap | Live(a) :: a.sp <= g.nsymbol {
      var s: nat :| s < |aps| && aps[s] == ap;
      assert resolved[s] in resolved && Compressed(g, resolved[s], ap);
      forall a | a in ap && Live(a) ensures a.sp <= g.nsymbol {
        ExplicitMeans(ap, a.sp);
        ExplicitMeans(resolved[s], a.sp);
      }
    }
  }

  // The main program.  The rows are those of the LALR(1) automaton, with what prevails where several actions are called
  // for, and nothing about them is left open: not the states' numbers, nor the defaults, nor the arrays written for
  // them.  A parser that answers as they do accepts nothing but sentences.  If the grammar is LALR(1) there are no
  // conflicts, and it accepts every sentence, whatever precedences are declared; without precedences there are no
  // conflicts only then.  From the arrays the driver reads just what the rows were packed to, which is what they mean
  // if and only if no action strays and no rule is too long.
  method Generate(g: Grammar, p: Precedences, compress: bool)
    returns (t: Lempar.Tables, conflicts: nat, ghost found: seq<set<Item>>, ghost order: seq<nat>,
        ghost kernels: seq<set<Item>>, ghost items: seq<set<Item>>, ghost plain: seq<StateRow>,
        ghost rows: seq<StateRow>)
    requires g.WellFormed() && g.StartNotOnRhs() && p.Declared()
    ensures Determined(g, p, compress, found, order, kernels, plain, rows)
    ensures Written(g, t, rows) && conflicts == Sum(ConflictsIn(g, p, kernels))
    ensures forall w | Tokens(g, w) :: Lempar.Accepts(g, rows, w) <==> Lempar.Accepts(g, plain, w)
    ensures SoundRows(g, items, rows)
    ensures forall w: seq<nat> | 0 !in w && Lempar.Accepts(g, rows, w) :: Sentence(g, w)
    ensures Lalr1(g) ==> conflicts == 0
    ensures p.Undeclared() && conflicts == 0 ==> Lalr1(g)
    ensures Lalr1(g) ==> forall w | Tokens(g, w) :: Lempar.Accepts(g, rows, w) <==> Sentence(g, w)
    ensures Lalr1(g) ==>
      forall w | Tokens(g, w) :: Settles(g, rows, w) <==> NowhereSpins(g, rows, [Lempar.BOTTOM], w)
    ensures Lalr1(g) && (!compress || AllLead(g)) ==> forall w | Tokens(g, w) :: Settles(g, rows, w)
    ensures ReadsPacked(g, t, rows)
    ensures Lempar.Represents(g, t, rows) <==> Separable(g, rows) && Lempar.ShortRules(g)
  {
    hide Analyzed, Finished, Deterministic, NoDefaultYet, Compressed, Conflicts, SoundRows, CompleteRows, RowsOf,
        DistinctItems, Lalr1, ItemsByNumber, LookaheadsByNumber, FirstExact, AllAlive, NoneSilent, Lempar.Accepts,
        Sentence, Tokens, ReadsPacked, Separable, Unclashed, Lempar.Represents, KernelsByNumber, NoTies, AddrBelow,
        AllLive, Settles, NowhereSpins, AllLead, DecidedFor, Ascending, ConflictsOf, ConflictsIn, Sum, MoreActions,
        Determined, Written, CompressedWith;
    ghost var lambda, first, cs, linked;
    var states, followed, nact;
    lambda, first, cs, states, linked, followed, nact := Analyze(g);
    ReadyForActions(g, lambda, first, cs, states, linked, followed);
    var states', nact';
    states', nact', conflicts := FindActions(g, followed, states, p, nact);
    UnclashedIsLalr1(g, lambda, first, cs, states, linked, followed);
    ghost var resolved := seq(|states|, s requires 0 <= s < |states| => states'[s].ap);
    ResolvedLists(g, lambda, first, cs, states, linked, followed, resolved);
    var aps := seq(|states|, s requires 0 <= s < |states| => states'[s].ap);
    if compress { aps := CompressTables(g, states', None, resolved); }
    assert forall s: nat | s < |aps| :: Compressed(g, resolved[s], aps[s]) by { NotCompressed(g); }
    CompressedLists(g, resolved, aps);
    var newOrder, num := ResortStates(g, aps);
    order := newOrder;
    ConflictsTotal(g, lambda, first, cs, states, linked, followed, p, order, num);
    RowsSound(g, lambda, first, cs, states, linked, followed, resolved, aps, order, num);
    found, kernels := KernelsFound(cs, states), KernelsByNumber(cs, states, order);
    items, plain, rows := ItemsByNumber(cs, states, order), RowsOf(g, resolved, order, num),
        RowsOf(g, aps, order, num);
    AllDetermined(g, lambda, first, cs, states, linked, followed, p, compress, resolved, aps, order, num);
    if Lalr1(g) {
      NothingLost(states', resolved);
      RowsComplete(g, lambda, first, cs, states, linked, followed, resolved, aps, order, num);
    }
    WhatRowsDo(g, p, compress, found, order, kernels, items, LookaheadsByNumber(followed, states, order), plain, rows);
    t := ReportTable(g, aps, newOrder, num);
  }

  // Whoever keeps these promises writes the same arrays and reports as many conflicts.
  lemma GeneratedOnce(g: Grammar, p: Precedences, compress: bool, t: Lempar.Tables, conflicts: nat,
                      found: seq<set<Item>>, order: seq<nat>, kernels: seq<set<Item>>, plain: seq<StateRow>,
                      rows: seq<StateRow>, t': Lempar.Tables, conflicts': nat, found': seq<set<Item>>,
                      order': seq<nat>, kernels': seq<set<Item>>, plain': seq<StateRow>, rows': seq<StateRow>)
    requires g.WellFormed() && g.StartNotOnRhs()
    requires Determined(g, p, compress, found, order, kernels, plain, rows)
      && Determined(g, p, compress, found', order', kernels', plain', rows')
    requires Written(g, t, rows) && conflicts == Sum(ConflictsIn(g, p, kernels))
    requires Written(g, t', rows') && conflicts' == Sum(ConflictsIn(g, p, kernels'))
    ensures t == t' && conflicts == conflicts' && kernels == kernels' && rows == rows'
  {
    hide Determined, Written, ConflictsIn, Sum;
    RowsDetermined(g, p, compress, found, order, kernels, plain, rows, found', order', kernels', plain', rows');
    WrittenOnce(g, t, t', rows);
  }

  lemma AllDetermined(g: Grammar, lambda: Lambdas, first: Firsts, cs: Pool, states: seq<State>, linked: Pool,
                      followed: Pool, p: Precedences, compress: bool, resolved: seq<seq<Action>>,
                      aps: seq<seq<Action>>, order: seq<nat>, num: seq<nat>)
    requires Analyzed(g, lambda, first, cs, states, linked, followed) && FirstExact(g, lambda, first)
    requires g.WellFormed() && g.StartNotOnRhs()
    requires FinalActions(g, followed, states, resolved, aps) && Numbering(order, num) && |order| == |states|
    requires forall s: nat | s < |states| :: DecidedFor(g, followed, states[s], p, resolved[s])
    requires forall ap <- resolved ::
      Deterministic(ap) && NoDefaultYet(ap, g.nsymbol) && Ascending(ap) && forall a <- ap :: a.sp < g.nsymbol
    requires if compress then forall s: nat | s < |aps| :: CompressedWith(g, None, resolved[s], aps[s], g.nsymbol)
      else aps == resolved
    requires (forall ap <- aps :: Deterministic(ap)) && forall k | 0 <= k < |order| :: order[k] < |aps|
    requires forall j, k | 1 <= j < k < |order| :: MoreActions(g, aps, order[j], order[k])
    ensures Determined(g, p, compress, KernelsFound(cs, states), order, KernelsByNumber(cs, states, order),
      RowsOf(g, resolved, order, num), RowsOf(g, aps, order, num))
  {
    hide Analyzed, FirstExact, Finished, DecidedFor, Deterministic, NoDefaultYet, Ascending, CompressedWith,
        CompressedBy, MoreActions, RowsOf, Realizes, Ruled, NoDefaults, SameButDefaults, DefaultsChosen, Resorted,
        DepthFirst;
    var kernels, plain, rows := KernelsByNumber(cs, states, order), RowsOf(g, resolved, order, num),
        RowsOf(g, aps, order, num);
    AnalyzedBuilt(g, lambda, first, cs, states, linked, followed);
    StatesDepthFirst(g, lambda, first, cs, states);
    OrderRenumbers(cs, states, order, num);
    PlainRows(g, lambda, first, cs, states, linked, followed, resolved, aps, order, num);
    TerminalsFirst(g, lambda, first, cs, states, linked, followed);
    if compress { RowsChosen(g, kernels, resolved, aps, order, num); }
    PlainRuled(g, lambda, first, cs, states, linked, followed, p, resolved, order, num);
    RulingsStay(g, p, kernels, plain, rows);
    RowsResorted(g, aps, order, num);
  }

  lemma OrderRenumbers(cs: Pool, states: seq<State>, order: seq<nat>, num: seq<nat>)
    requires Numbering(order, num) && |order| == |states|
    ensures Renumbered(KernelsFound(cs, states), order, KernelsByNumber(cs, states, order))
  {
    hide Kernel;
  }

  // The rows before and after CompressTables.
  lemma PlainRows(g: Grammar, lambda: Lambdas, first: Firsts, cs: Pool, states: seq<State>, linked: Pool,
                  followed: Pool, resolved: seq<seq<Action>>, aps: seq<seq<Action>>, order: seq<nat>, num: seq<nat>)
    requires Analyzed(g, lambda, first, cs, states, linked, followed) && FirstExact(g, lambda, first)
    requires FinalActions(g, followed, states, resolved, aps) && Numbering(order, num) && |order| == |states|
    requires forall ap <- resolved :: forall a <- ap :: a.sp < g.nsymbol
    ensures forall k | 0 <= k < |order| :: order[k] < |resolved| && order[k] < |aps|
    ensures Realizes(g, KernelsByNumber(cs, states, order), RowsOf(g, aps, order, num))
    ensures Realizes(g, KernelsByNumber(cs, states, order), RowsOf(g, resolved, order, num))
    ensures NoDefaults(RowsOf(g, resolved, order, num))
    ensures SameButDefaults(g, RowsOf(g, resolved, order, num), RowsOf(g, aps, order, num))
  {
    hide Analyzed, FirstExact, Finished, CompressedBy, Realizes, RowOf, KernelsByNumber;
    RowsRealized(g, lambda, first, cs, states, linked, followed, resolved, aps, order, num);
    RowsRealized(g, lambda, first, cs, states, linked, followed, resolved, resolved, order, num);
    UncompressedRows(g, resolved, order, num);
    var kernels, plain := KernelsByNumber(cs, states, order), RowsOf(g, resolved, order, num);
    forall k: nat | k < |order| ensures SameButDefault(g, plain[k], RowsOf(g, aps, order, num)[k]) {
      NumberingBack(order, num, k);
      assert plain[k] in plain;
      NoReduceGoto(g, kernels, plain, k);
      RowBefore(g, resolved[order[k]], aps[order[k]], num);
    }
  }

  // The rows before CompressTables answer with what prevails, and so do those after.
  lemma PlainRuled(g: Grammar, lambda: Lambdas, first: Firsts, cs: Pool, states: seq<State>, linked: Pool,
                   followed: Pool, p: Precedences, resolved: seq<seq<Action>>, order: seq<nat>, num: seq<nat>)
    requires Analyzed(g, lambda, first, cs, states, linked, followed) && FirstExact(g, lambda, first)
    requires |resolved| == |states| == |order| && Numbering(order, num)
    requires forall s: nat | s < |states| ::
      Finished(g, followed, states[s], s == 0, resolved[s]) && DecidedFor(g, followed, states[s], p, resolved[s])
    ensures forall k | 0 <= k < |order| :: order[k] < |resolved|
    ensures Ruled(g, p, KernelsByNumber(cs, states, order), RowsOf(g, resolved, order, num))
  {
    hide Analyzed, FirstExact, Finished, DecidedFor, KernelsByNumber, Called, Ruling, RowOf;
    var kernels := KernelsByNumber(cs, states, order);
    forall k: nat | k < |order| ensures order[k] < |resolved| && num[order[k]] == k { NumberingBack(order, num, k); }
    forall k: nat, t: nat | k < |order| && t < g.nterminal && Called(g, kernels, k, t)
      ensures Ruling(g, p, kernels, k, t, TerminalAct(RowOf(g, resolved[order[k]], num), t))
    {
      RowRuled(g, lambda, first, cs, states, linked, followed, order[k], p, resolved[order[k]], t, order, num);
    }
  }

  lemma RulingsStay(g: Grammar, p: Precedences, kernels: seq<set<Item>>, plain: seq<StateRow>, rows: seq<StateRow>)
    requires g.WellFormed() && g.StartNotOnRhs() && Ruled(g, p, kernels, plain)
    requires Realizes(g, kernels, plain) && Realizes(g, kernels, rows) && SameButDefaults(g, plain, rows)
    ensures Ruled(g, p, kernels, rows)
  {
    hide Realizes, SameButDefaults, Ruled;
    StillRuled(g, p, kernels, plain, rows);
  }

  // The defaults that CompressTables leaves in the rows.
  lemma RowsChosen(g: Grammar, kernels: seq<set<Item>>, resolved: seq<seq<Action>>, aps: seq<seq<Action>>,
                   order: seq<nat>, num: seq<nat>)
    requires |order| == |num| == |resolved| == |aps| && Numbering(order, num)
    requires forall k: nat | k < |aps| :: CompressedWith(g, None, resolved[k], aps[k], g.nsymbol)
    requires forall ap <- resolved ::
      Deterministic(ap) && NoDefaultYet(ap, g.nsymbol) && Ascending(ap) && forall a <- ap :: a.sp < g.nsymbol
    requires Realizes(g, kernels, RowsOf(g, resolved, order, num)) && g.nterminal <= g.nsymbol
    ensures DefaultsChosen(g, RowsOf(g, resolved, order, num), RowsOf(g, aps, order, num))
  {
    hide CompressedWith, Deterministic, NoDefaultYet, Ascending, Realizes, RowOf, ChosenFrom;
    var plain, rows := RowsOf(g, resolved, order, num), RowsOf(g, aps, order, num);
    forall k: nat | k < |rows| ensures ChosenFrom(g, plain[k], rows[k]) {
      NumberingBack(order, num, k);
      NoReduceGoto(g, kernels, plain, k);
      assert resolved[order[k]] in resolved && plain[k] == RowOf(g, resolved[order[k]], num);
      var j: nat := order[k];
      assert CompressedWith(g, None, resolved[j], aps[j], g.nsymbol);
      RowChosen(g, resolved[order[k]], aps[order[k]], num);
    }
  }

  lemma InputsSettle(g: Grammar, kernels: seq<set<Item>>, plain: seq<StateRow>, rows: seq<StateRow>, compress: bool)
    requires g.WellFormed() && g.StartNotOnRhs() && Lalr1(g)
    requires Realizes(g, kernels, plain) && Realizes(g, kernels, rows) && SameButDefaults(g, plain, rows)
    requires compress || NoDefaults(rows)
    ensures forall w | Tokens(g, w) :: Settles(g, rows, w) <==> NowhereSpins(g, rows, [Lempar.BOTTOM], w)
    ensures !compress || AllLead(g) ==> forall w | Tokens(g, w) :: Settles(g, rows, w)
  {
    hide Realizes, SameButDefaults, Lalr1, Tokens, Settles, NowhereSpins, NoDefaults, AllLead;
    forall w | Tokens(g, w)
      ensures Settles(g, rows, w) <==> NowhereSpins(g, rows, [Lempar.BOTTOM], w)
      ensures !compress || AllLead(g) ==> Settles(g, rows, w)
    {
      DriverEnds(g, kernels, plain, rows, w);
      if !compress || AllLead(g) { DriverAlwaysEnds(g, kernels, plain, rows, w); }
    }
  }

  lemma NoReduceGoto(g: Grammar, kernels: seq<set<Item>>, rows: seq<StateRow>, k: nat)
    requires Realizes(g, kernels, rows) && k < |rows|
    ensures forall A <- rows[k].onNonterminal :: !rows[k].onNonterminal[A].Reduce?
  {
    hide Leads, LookAhead, InCollection;
    assert RealizesRow(g, kernels, k, rows[k]);
  }

  // The row of a list, and that of the list after compression.
  lemma RowBefore(g: Grammar, ap: seq<Action>, ap': seq<Action>, num: seq<nat>)
    requires Compressed(g, ap, ap') && RowOf(g, ap, num).otherwise == Error
    requires forall A <- RowOf(g, ap, num).onNonterminal :: !RowOf(g, ap, num).onNonterminal[A].Reduce?
    ensures SameButDefault(g, RowOf(g, ap, num), RowOf(g, ap', num))
  {
    hide Explicit, Deterministic;
    var before, after := RowOf(g, ap, num), RowOf(g, ap', num);
    forall A: nat | g.nterminal <= A < g.nsymbol ensures Explicit(ap', A) == Explicit(ap, A) {
      if Explicit(ap, A).Some? { assert A in before.onNonterminal; }
    }
    assert before.onNonterminal == after.onNonterminal;
  }

  // What the driver does on these rows.
  lemma WhatRowsDo(g: Grammar, p: Precedences, compress: bool, found: seq<set<Item>>, order: seq<nat>,
                   kernels: seq<set<Item>>, items: seq<set<Item>>, las: Lookaheads, plain: seq<StateRow>,
                   rows: seq<StateRow>)
    requires g.WellFormed() && g.StartNotOnRhs() && Determined(g, p, compress, found, order, kernels, plain, rows)
    requires SoundRows(g, items, rows) && (Lalr1(g) ==> CompleteRows(g, las, rows))
    ensures forall w | Tokens(g, w) :: Lempar.Accepts(g, rows, w) <==> Lempar.Accepts(g, plain, w)
    ensures forall w: seq<nat> | 0 !in w && Lempar.Accepts(g, rows, w) :: Sentence(g, w)
    ensures Lalr1(g) ==> forall w | Tokens(g, w) :: Lempar.Accepts(g, rows, w) <==> Sentence(g, w)
    ensures Lalr1(g) ==>
      forall w | Tokens(g, w) :: Settles(g, rows, w) <==> NowhereSpins(g, rows, [Lempar.BOTTOM], w)
    ensures Lalr1(g) && (!compress || AllLead(g)) ==> forall w | Tokens(g, w) :: Settles(g, rows, w)
  {
    hide Realizes, SameButDefaults, Lalr1, SoundRows, CompleteRows, Tokens, Settles, NowhereSpins, NoDefaults, AllLead,
        Lempar.Accepts, Sentence, DepthFirst, Renumbered, Ruled, Resorted, DefaultsChosen;
    DefaultsDoNotMatter(g, kernels, plain, rows);
    AcceptedAreSentences(g, items, rows);
    if Lalr1(g) {
      SentencesAccepted(g, items, las, rows);
      InputsSettle(g, kernels, plain, rows, compress);
    }
  }

  lemma DefaultsDoNotMatter(g: Grammar, kernels: seq<set<Item>>, plain: seq<StateRow>, rows: seq<StateRow>)
    requires g.WellFormed() && g.StartNotOnRhs()
    requires Realizes(g, kernels, plain) && Realizes(g, kernels, rows) && SameButDefaults(g, plain, rows)
    ensures forall w | Tokens(g, w) :: Lempar.Accepts(g, rows, w) <==> Lempar.Accepts(g, plain, w)
  {
    hide Realizes, SameButDefaults, Tokens, Lempar.Accepts;
    forall w | Tokens(g, w) ensures Lempar.Accepts(g, rows, w) <==> Lempar.Accepts(g, plain, w) {
      DefaultsKeepLanguage(g, kernels, plain, rows, w);
    }
  }

  // Lists that were not compressed have no default.
  lemma UncompressedRows(g: Grammar, aps: seq<seq<Action>>, order: seq<nat>, num: seq<nat>)
    requires forall ap <- aps :: forall a <- ap :: a.sp < g.nsymbol
    requires forall k | 0 <= k < |order| :: order[k] < |aps|
    ensures NoDefaults(RowsOf(g, aps, order, num))
  {
    hide Explicit;
    forall k | 0 <= k < |order| ensures RowsOf(g, aps, order, num)[k].otherwise == Error {
      var ap := aps[order[k]];
      assert ap in aps;
      ExplicitMeans(ap, g.nsymbol);
    }
  }

  lemma NothingLost(states: seq<State>, resolved: seq<seq<Action>>)
    requires |resolved| == |states| && forall s: nat | s < |states| ::
      states[s].ap == resolved[s] && AllLive(states[s].ap)
    ensures AllAlive(resolved)
  {
    forall ap, a | ap in resolved && a in ap ensures Live(a) {
      var s: nat :| s < |resolved| && resolved[s] == ap;
    }
  }

  lemma AcceptedAreSentences(g: Grammar, items: seq<set<Item>>, rows: seq<StateRow>)
    requires g.WellFormed() && SoundRows(g, items, rows)
    ensures forall w: seq<nat> | 0 !in w && Lempar.Accepts(g, rows, w) :: Sentence(g, w)
  {
    hide SoundRows, Sentence, Lempar.RunInput;
    forall w: seq<nat> | 0 !in w && Lempar.Accepts(g, rows, w) ensures Sentence(g, w) {
      var fuel: nat :| Lempar.RunInput(g, rows, [Lempar.BOTTOM], w, [], fuel) == Lempar.Parsed(w);
      Lempar.AcceptedIsSentence(g, items, rows, w, fuel);
    }
  }

  lemma SentencesAccepted(g: Grammar, items: seq<set<Item>>, las: Lookaheads, rows: seq<StateRow>)
    requires g.WellFormed() && SoundRows(g, items, rows) && CompleteRows(g, las, rows)
    ensures forall w | Tokens(g, w) :: Lempar.Accepts(g, rows, w) <==> Sentence(g, w)
  {
    hide SoundRows, CompleteRows, Sentence, Lempar.Accepts, Tokens;
    forall w | Tokens(g, w) ensures Lempar.Accepts(g, rows, w) <==> Sentence(g, w) {
      AcceptsExactly(g, items, las, rows, w);
    }
  }

  lemma NotCompressed(g: Grammar)
    ensures forall ap :: Compressed(g, ap, ap)
  {
  }

  lemma ReadyForActions(g: Grammar, lambda: Lambdas, first: Firsts, cs: Pool, states: seq<State>, linked: Pool,
                        followed: Pool)
    requires Analyzed(g, lambda, first, cs, states, linked, followed)
    ensures g.nterminal <= g.nsymbol && g.IsNonterminal(g.start) && |states| > 0
    ensures forall s: nat | s < |states| :: ShiftsOnly(g, states[s]) && DistinctItems(followed, states[s].cfp)
  {
    hide Good, Done, FoundFrom, ShiftsOnly, Followed, BackFrom;
    OnlyShifts(g, lambda, first, cs, states);
    forall s: nat | s < |states| ensures DistinctItems(followed, states[s].cfp) {
      StateOfGood(g, lambda, first, cs, states, s);
      StateLists(g, lambda, first, cs, states[s]);
      forall c ensures ItemOf(followed, c) == ItemOf(cs, c) { FollowedItems(cs, states, linked, followed, c); }
    }
  }
}

/** On the compressed tables of an LALR(1) grammar the driver may go on for ever: a grammar and an input for which it
  does. */
module Looping {
  import opened Options
  import opened Grammars
  import opened FirstSets
  import opened Automata
  import opened ActionLists
  import opened Lalr
  import opened Contexts
  import opened Defaults
  import opened Completeness
  import opened Chosen
  import opened Reading
  import opened Building
  import opened Spinning
  import opened Termination
  import opened Endless
  import Lempar

  // ---- what the states call for ----

  lemma EmptyVanish(b: nat)
    requires b < 2
    ensures Nullable(EndlessGrammar(), [N(8 + 3 * b)])
  {
    var g := EndlessGrammar();
    NoneVanishes(g);
    assert g.rules[8 + b] == RuleAt(8 + b);
    RuleVanishes(g, 8 + b);
  }

  lemma PairVanishes(b: nat, k: nat)
    requires b < 2 && k < 2
    ensures Nullable(EndlessGrammar(), [N(9 + 3 * b + k)])
  {
    hide Nullable;
    var g := EndlessGrammar();
    var r := 4 + 2 * b + k;
    EmptyVanish(b);
    EmptyVanish(1 - b);
    NullableConcat(g, [N(11 - 3 * b)], [N(8 + 3 * b)]);
    assert g.rules[r] == RuleAt(r) && g.rules[r].rhs == [N(11 - 3 * b)] + [N(8 + 3 * b)];
    RuleVanishes(g, r);
  }

  lemma ToAgain(b: nat)
    requires b < 2
    ensures To(Start, N(8 + 3 * b)) == Some(First(b)) && To(First(b), N(11 - 3 * b)) == Some(Again(1 - b))
  {
  }

  lemma PlacesHeld(b: nat)
    requires b < 2
    ensures InCollection(EndlessGrammar(), KernelOf(Start)) && InCollection(EndlessGrammar(), KernelOf(First(b)))
    ensures InCollection(EndlessGrammar(), KernelOf(Again(1 - b)))
  {
    hide EndlessGrammar, KernelOf, InCollection, InClosure, Goto, Next, Rest, Predicts, InState, RuleAt, To;
    var g := EndlessGrammar();
    StartIs();
    StartState(g);
    ToAgain(b);
    PlaceInside(Start);
    PlaceInside(First(b));
    ItemsAhead(b, 0);
    ItemsAhead(1 - b, 0);
    GotoIs(Start, N(8 + 3 * b));
    GotoIs(First(b), N(11 - 3 * b));
    assert InState(Start, Item(2 * b, 0)) && InState(First(b), Item(6 - 2 * b, 1)) by { PlaceItems(b, 0); }
    NextState(g, KernelOf(Start), Item(2 * b, 0));
    NextState(g, KernelOf(First(b)), Item(6 - 2 * b, 1));
  }

  lemma PlaceInside(p: Place)
    ensures KernelOf(p) <= AllItems(EndlessGrammar())
  {
    hide EndlessGrammar, InKernel;
  }

  lemma PlaceItems(b: nat, k: nat)
    requires b < 2 && k < 2
    ensures InState(Start, Item(2 * b + k, 0)) && InState(First(b), Item(6 - 2 * b + k, 1))
    ensures InState(First(b), Item(2 * b + k, 1)) && InState(First(b), Item(4 + 2 * b + k, 0))
    ensures InState(Again(b), Item(6 - 2 * b + k, 1)) && InState(Again(1 - b), Item(4 + 2 * b + k, 1))
  {
  }

  // What the items of a pair call for, and what is behind it.
  lemma ItemsAhead(b: nat, k: nat)
    requires b < 2 && k < 2
    ensures var g, s := EndlessGrammar(), Item(2 * b + k, 0);
      Predicts(g, s, Item(8 + b, 0)) && Rest(g, s) == [N(9 + 3 * b + k)] + [T(1 + 2 * b + k)]
    ensures var g, s := EndlessGrammar(), Item(2 * b + k, 1);
      Predicts(g, s, Item(4 + 2 * b + k, 0)) && Rest(g, s) == [T(1 + 2 * b + k)]
    ensures var g, y := EndlessGrammar(), Item(4 + 2 * b + k, 0);
      Predicts(g, y, Item(9 - b, 0)) && Next(g, y) == Some(N(11 - 3 * b)) && Rest(g, y) == [N(8 + 3 * b)]
    ensures var g, y := EndlessGrammar(), Item(4 + 2 * b + k, 1);
      Predicts(g, y, Item(8 + b, 0)) && Next(g, y) == Some(N(8 + 3 * b)) && Rest(g, y) == []
    ensures Next(EndlessGrammar(), Item(2 * b + k, 0)) == Some(N(8 + 3 * b))
  {
    var g := EndlessGrammar();
    assert g.rules[2 * b + k] == RuleAt(2 * b + k) && g.rules[4 + 2 * b + k] == RuleAt(4 + 2 * b + k);
    assert g.rules[8 + b] == RuleAt(8 + b) && g.rules[9 - b] == RuleAt(9 - b);
  }

  lemma TerminalBegins(t: nat)
    ensures CanBegin(EndlessGrammar(), [T(t)], t)
  {
    hide CanBegin, EndlessGrammar;
    SymbolBegins(EndlessGrammar(), T(t), [], t);
    assert [T(t)] + [] == [T(t)];
  }

  // The empty rule for f(b) is reduced at the start, ...
  lemma StartLooks(b: nat, k: nat)
    requires b < 2 && k < 2
    ensures LookAhead(EndlessGrammar(), KernelOf(Start), Item(8 + b, 0), 1 + 2 * b + k)
  {
    hide EndlessGrammar, KernelOf, InCollection, InClosure, Next, InState, LookAhead, Nullable, CanBegin, Predicts,
        Rest;
    var g := EndlessGrammar();
    var from, t := Item(2 * b + k, 0), 1 + 2 * b + k;
    PlacesHeld(b);
    PlaceItems(b, k);
    GotoIs(Start, T(0));
    ItemsAhead(b, k);
    PairVanishes(b, k);
    TerminalBegins(t);
    CanBeginConcat(g, [N(9 + 3 * b + k)], [T(t)], t);
    PredictedLook(g, KernelOf(Start), from, Item(8 + b, 0), t);
  }

  // ... that for f(1-b) behind f(b), ...
  lemma FirstLooks(b: nat, k: nat)
    requires b < 2 && k < 2
    ensures LookAhead(EndlessGrammar(), KernelOf(First(b)), Item(4 + 2 * b + k, 0), 1 + 2 * b + k)
    ensures LookAhead(EndlessGrammar(), KernelOf(First(b)), Item(9 - b, 0), 1 + 2 * b + k)
  {
    hide EndlessGrammar, KernelOf, InCollection, InClosure, Next, InState, LookAhead, Nullable, CanBegin, Predicts,
        Rest;
    var g := EndlessGrammar();
    var from, y, t := Item(2 * b + k, 1), Item(4 + 2 * b + k, 0), 1 + 2 * b + k;
    PlacesHeld(b);
    PlaceItems(b, k);
    GotoIs(First(b), T(0));
    ItemsAhead(b, k);
    TerminalBegins(t);
    EmptyVanish(b);
    PredictedLook(g, KernelOf(First(b)), from, y, t);
    PredictedLook(g, KernelOf(First(b)), y, Item(9 - b, 0), t);
  }

  // ... and on two terminals wherever f(b) is read again.
  lemma AgainLooks(b: nat, k: nat)
    requires b < 2 && k < 2
    ensures LookAhead(EndlessGrammar(), KernelOf(Again(1 - b)), Item(8 + b, 0), 1 + 2 * b + k)
  {
    hide EndlessGrammar, KernelOf, InCollection, InClosure, Goto, Next, InState, LookAhead, Nullable, CanBegin,
        Predicts, Rest, RuleAt, To;
    var g := EndlessGrammar();
    var t := 1 + 2 * b + k;
    PlacesHeld(b);
    ToAgain(b);
    PlaceItems(b, k);
    PlaceInside(First(b));
    FirstLooks(b, k);
    ItemsAhead(b, k);
    GotoIs(First(b), N(11 - 3 * b));
    GotoIs(Again(1 - b), T(0));
    LookAdvances(g, KernelOf(First(b)), Item(4 + 2 * b + k, 0), t);
    NoneVanishes(g);
    PredictedLook(g, KernelOf(Again(1 - b)), Item(4 + 2 * b + k, 1), Item(8 + b, 0), t);
  }

  // ---- the rows ----

  // On X there is nothing to do here.
  lemma NothingOnX(kernels: seq<set<Item>>, k: nat, p: Place, row: StateRow)
    requires k < |kernels| && kernels[k] == KernelOf(p) && IsPlace(p) && (p.Start? || p.First? || p.Again?)
    requires RealizesRow(EndlessGrammar(), kernels, k, row)
    ensures TerminalAct(row, 5) == row.otherwise
  {
    hide KernelOf, Goto, ShiftsOver, Reduces;
    var g := EndlessGrammar();
    forall x | ShiftsOver(g, kernels[k], x) ensures 5 !in SymbolCodes(x) { ShiftsOnlyThese(p, x); }
    forall r: nat | Reduces(g, kernels[k], r, 5) ensures false { ReducesOnlyThese(p, r, 5); }
  }

  // The plain row reduces where the state calls for it.
  lemma PlainReduces(kernels: seq<set<Item>>, plain: seq<StateRow>, k: nat, p: Place, t: nat, r: nat)
    requires NoChoice(EndlessGrammar(), kernels, plain) && NoDefaults(plain) && IsPlace(p)
    requires k < |kernels| && kernels[k] == KernelOf(p)
    ensures k < |plain|
    ensures t in plain[k].onTerminal && plain[k].onTerminal[t] == Reduce(r) <==>
      Reduces(EndlessGrammar(), KernelOf(p), r, t)
  {
    hide EndlessGrammar, KernelOf, Lalr1, Reduces, CallsFor, InCollection, Called;
    var g := EndlessGrammar();
    assert RealizesRow(g, kernels, k, plain[k]) && plain[k] in plain;
    if Reduces(g, KernelOf(p), r, t) {
      TokenReduced(g, KernelOf(p), r, t);
      ReduceCalls(g, kernels, k, t, r);
      OnlyAct(g, kernels, plain, k, t, Reduce(r));
    }
    if t in plain[k].onTerminal && plain[k].onTerminal[t] == Reduce(r) {
      ReduceExplicit(g, kernels, plain, k, t, r);
    }
  }

  lemma TokenReduced(g: Grammar, kernel: set<Item>, r: nat, t: nat)
    requires Reduces(g, kernel, r, t)
    ensures t < g.nterminal
  {
    hide LookAhead;
  }

  // How often the rules are reduced by.
  lemma CountsHere(kernels: seq<set<Item>>, plain: seq<StateRow>, k: nat, p: Place, r: nat)
    requires NoChoice(EndlessGrammar(), kernels, plain) && NoDefaults(plain) && IsPlace(p)
    requires k < |kernels| && kernels[k] == KernelOf(p)
    ensures k < |plain|
    ensures TimesReduced(plain[k], r) > 0 ==> r < 15 && InState(p, Item(r, |RuleAt(r).rhs|))
    ensures 4 <= r < 8 ==> TimesReduced(plain[k], r) <= 1
    ensures forall t: nat | Reduces(EndlessGrammar(), KernelOf(p), r, t) :: TimesReduced(plain[k], r) > 0
    ensures forall t: nat, u: nat |
      Reduces(EndlessGrammar(), KernelOf(p), r, t) && Reduces(EndlessGrammar(), KernelOf(p), r, u) && t != u ::
        TimesReduced(plain[k], r) > 1
  {
    hide EndlessGrammar, KernelOf, NoChoice, NoDefaults, Reduces, InState, RuleAt;
    var g := EndlessGrammar();
    PlainReduces(kernels, plain, k, p, 0, r);
    forall t: nat { PlainReduces(kernels, plain, k, p, t, r); }
    var on := ReducingTokens(plain[k], r);
    forall t: nat | t in on
      ensures r < 15 && InState(p, Item(r, |RuleAt(r).rhs|)) && MayLook(p, Item(r, |RuleAt(r).rhs|), t)
    {
      ReducesOnlyThese(p, r, t);
    }
    if |on| > 0 { var t :| t in on; }
    if 4 <= r < 8 { Subset(on, {r - 3}); }
    forall t: nat | Reduces(g, KernelOf(p), r, t) ensures |on| > 0 { assert t in on; }
    forall t: nat, u: nat | Reduces(g, KernelOf(p), r, t) && Reduces(g, KernelOf(p), r, u) && t != u ensures |on| > 1 {
      Subset({t, u}, on);
    }
  }

  lemma Subset(a: set<nat>, b: set<nat>)
    requires a <= b
    ensures |a| <= |b|
  {
    assert b == a + (b - a);
  }

  // Rows for this grammar, with defaults as CompressTables chooses them.
  ghost predicate CompressedRows(kernels: seq<set<Item>>, plain: seq<StateRow>, rows: seq<StateRow>) {
    && Ready(EndlessGrammar(), kernels, plain, rows) && NoChoice(EndlessGrammar(), kernels, plain)
    && NoDefaults(plain) && DefaultsChosen(EndlessGrammar(), plain, rows)
  }

  lemma DefaultReduces(kernels: seq<set<Item>>, plain: seq<StateRow>, rows: seq<StateRow>, k: nat, p: Place, r: nat)
    returns (best: nat)
    requires CompressedRows(kernels, plain, rows) && k < |kernels| && kernels[k] == KernelOf(p) && IsPlace(p)
    requires k < |plain| && TimesReduced(plain[k], r) > 0 && 4 <= r < 15
    ensures k < |rows| && rows[k].otherwise == Reduce(best) && 4 <= best < 15
    ensures InState(p, Item(best, |RuleAt(best).rhs|))
    ensures TimesReduced(plain[k], best) >= TimesReduced(plain[k], r)
  {
    hide Ready, NoChoice, NoDefaults, KernelOf, InState, TimesReduced;
    var g := EndlessGrammar();
    assert ChosenFrom(g, plain[k], rows[k]);
    assert g.rules[r] == RuleAt(r);
    best := rows[k].otherwise.rule;
    CountsHere(kernels, plain, k, p, best);
    assert g.rules[best] == RuleAt(best);
  }

  lemma DefaultAtStart(kernels: seq<set<Item>>, plain: seq<StateRow>, rows: seq<StateRow>, k: nat) returns (b: nat)
    requires CompressedRows(kernels, plain, rows) && k < |kernels| && kernels[k] == KernelOf(Start)
    ensures k < |rows| && b < 2 && rows[k].otherwise == Reduce(8 + b)
  {
    hide Ready, NoChoice, NoDefaults, KernelOf, DefaultsChosen, LookAhead;
    StartLooks(0, 0);
    assert Reduces(EndlessGrammar(), KernelOf(Start), 8, 1) by { EmptyReduces(KernelOf(Start), 0, 1); }
    CountsHere(kernels, plain, k, Start, 8);
    var best := DefaultReduces(kernels, plain, rows, k, Start, 8);
    b := best - 8;
  }

  lemma EmptyReduces(kernel: set<Item>, b: nat, t: nat)
    requires b < 2 && t < 6 && LookAhead(EndlessGrammar(), kernel, Item(8 + b, 0), t)
    ensures Reduces(EndlessGrammar(), kernel, 8 + b, t)
  {
    hide LookAhead;
    assert EndlessGrammar().rules[8 + b] == RuleAt(8 + b);
  }

  lemma DefaultAtFirst(kernels: seq<set<Item>>, plain: seq<StateRow>, rows: seq<StateRow>, k: nat, b: nat)
    requires CompressedRows(kernels, plain, rows) && k < |kernels| && b < 2 && kernels[k] == KernelOf(First(b))
    ensures k < |rows| && rows[k].otherwise == Reduce(9 - b)
  {
    hide Ready, NoChoice, NoDefaults, KernelOf, DefaultsChosen, LookAhead;
    FirstLooks(b, 0);
    EmptyReduces(KernelOf(First(b)), 1 - b, 1 + 2 * b);
    CountsHere(kernels, plain, k, First(b), 9 - b);
    var best := DefaultReduces(kernels, plain, rows, k, First(b), 9 - b);
  }

  lemma DefaultAgain(kernels: seq<set<Item>>, plain: seq<StateRow>, rows: seq<StateRow>, k: nat, b: nat)
    requires CompressedRows(kernels, plain, rows) && k < |kernels| && b < 2 && kernels[k] == KernelOf(Again(1 - b))
    ensures k < |rows| && rows[k].otherwise == Reduce(8 + b)
  {
    hide Ready, NoChoice, NoDefaults, KernelOf, DefaultsChosen, LookAhead, Reduces;
    AgainLooks(b, 0);
    AgainLooks(b, 1);
    EmptyReduces(KernelOf(Again(1 - b)), b, 1 + 2 * b);
    EmptyReduces(KernelOf(Again(1 - b)), b, 2 + 2 * b);
    CountsHere(kernels, plain, k, Again(1 - b), 8 + b);
    var best := DefaultReduces(kernels, plain, rows, k, Again(1 - b), 8 + b);
    CountsHere(kernels, plain, k, Again(1 - b), best);
  }

  // ---- the run on X ----

  // One reduction of the empty rule for f(b).
  lemma EmptyStep(kernels: seq<set<Item>>, plain: seq<StateRow>, rows: seq<StateRow>, base: seq<Lempar.Entry>,
                  extra: seq<Lempar.Entry>, p: Place, q: Place, b: nat)
    returns (e: Lempar.Entry)
    requires CompressedRows(kernels, plain, rows) && base + extra != [] && b < 2 && IsPlace(p)
    requires p.Start? || p.First? || p.Again?
    requires var k := (base + extra)[|base + extra| - 1].stateno;
      k < |kernels| && kernels[k] == KernelOf(p) && k < |rows| && rows[k].otherwise == Reduce(8 + b)
    requires To(p, N(8 + 3 * b)) == Some(q) && InCollection(EndlessGrammar(), KernelOf(p))
    ensures Lempar.OneStep(EndlessGrammar(), rows, base + extra, 5) == Lempar.Reduced(base + (extra + [e]))
    ensures e.stateno < |kernels| && kernels[e.stateno] == KernelOf(q)
    ensures Above(EndlessGrammar(), rows, base, extra, 5)
    ensures OneAbove(EndlessGrammar(), rows, base, extra, 5) == extra + [e]
  {
    hide NoDefaults, KernelOf, DefaultsChosen, InCollection, InClosure, Goto, To, RealizesRow, Lalr1;
    var g, stack := EndlessGrammar(), base + extra;
    var k := stack[|stack| - 1].stateno;
    NothingOnX(kernels, k, p, rows[k]);
    var it := SomeItem(p, b);
    GotoIs(p, N(8 + 3 * b));
    PlaceInside(p);
    ReadyNoChoice(g, kernels, plain, rows);
    var to := GotoDone(g, kernels, rows, k, it, 8 + 3 * b);
    e := Lempar.Entry(to, 8 + 3 * b);
    assert g.rules[8 + b] == RuleAt(8 + b) && stack[..|stack| - 0] == stack;
    assert stack + [e] == base + (extra + [e]);
  }

  // Where f(b) leads on, it stands behind f(1-b).
  lemma OtherSide(p: Place, b: nat)
    requires IsPlace(p) && b < 2 && To(p, N(8 + 3 * b)).Some? && !p.Start?
    ensures p == First(1 - b) || p == Again(1 - b)
  {
  }

  lemma SomeItem(p: Place, b: nat) returns (it: Item)
    requires IsPlace(p) && b < 2 && To(p, N(8 + 3 * b)).Some? && (p.Start? || p.First? || p.Again?)
    ensures InState(p, it) && Next(EndlessGrammar(), it) == Some(N(8 + 3 * b))
  {
    hide InKernel, InAdded, EndlessGrammar, Next, Rest, Predicts, RuleAt;
    if !p.Start? { OtherSide(p, b); }
    it := if p.Start? then Item(2 * b, 0) else Item(4 + 2 * b, 1);
    PlaceItems(b, 0);
    PlaceItems(1 - b, 0);
    ItemsAhead(b, 0);
  }

  // From where f(b) is read again the run comes back there: it builds f(b) and f(1-b), and so on for ever.
  lemma AgainSpins(kernels: seq<set<Item>>, plain: seq<StateRow>, rows: seq<StateRow>, s: nat, b: nat)
    requires CompressedRows(kernels, plain, rows) && s < |kernels| && b < 2 && kernels[s] == KernelOf(Again(1 - b))
    requires forall c: nat | c < 2 :: InCollection(EndlessGrammar(), KernelOf(Again(c)))
    ensures Spins(EndlessGrammar(), rows, s, 5)
  {
    hide Ready, NoChoice, NoDefaults, KernelOf, DefaultsChosen, InCollection, InKernel, Above, OneAbove, Lempar.OneStep;
    var g, base := EndlessGrammar(), [Lempar.Entry(s, 0)];
    DefaultAgain(kernels, plain, rows, s, b);
    assert base + [] == base;
    var e1 := EmptyStep(kernels, plain, rows, base, [], Again(1 - b), Again(b), b);
    assert [] + [e1] == [e1] && 1 - (1 - b) == b;
    DefaultAgain(kernels, plain, rows, e1.stateno, 1 - b);
    var e2 := EmptyStep(kernels, plain, rows, base, [e1], Again(b), Again(1 - b), 1 - b);
    var extra := [e1] + [e2];
    assert StepsAbove(g, rows, base, extra, 5, 0, extra);
    assert StepsAbove(g, rows, base, [e1], 5, 1, extra);
    assert StepsAbove(g, rows, base, [], 5, 2, extra);
    NumbersOnce(kernels, plain, rows, e2.stateno, s);
    assert Returns(g, rows, s, 5, 2, extra);
  }

  lemma NumbersOnce(kernels: seq<set<Item>>, plain: seq<StateRow>, rows: seq<StateRow>, i: nat, j: nat)
    requires CompressedRows(kernels, plain, rows) && i < |kernels| && j < |kernels| && kernels[i] == kernels[j]
    ensures i == j
  {
    hide Ready, NoDefaults, DefaultsChosen, NoChoice;
    NoChoiceNumber(EndlessGrammar(), kernels, plain, i, j);
  }

  // The grammar is LALR(1), but on the tables that CompressTables leaves the driver never comes to an end on X.
  lemma EndlessNeverEnds(kernels: seq<set<Item>>, plain: seq<StateRow>, rows: seq<StateRow>)
    requires Realizes(EndlessGrammar(), kernels, plain) && NoDefaults(plain)
    requires Realizes(EndlessGrammar(), kernels, rows) && SameButDefaults(EndlessGrammar(), plain, rows)
    requires DefaultsChosen(EndlessGrammar(), plain, rows)
    ensures Lalr1(EndlessGrammar()) && Tokens(EndlessGrammar(), [5])
    ensures forall fuel: nat :: Lempar.RunInput(EndlessGrammar(), rows, [Lempar.BOTTOM], [5], [], fuel).Unfinished?
  {
    hide Realizes, Lalr1, NoDefaults, SameButDefaults, DefaultsChosen, KernelOf, InCollection, InKernel, Spins,
        Lempar.RunInput, Lempar.OneStep;
    var g := EndlessGrammar();
    EndlessIsLalr1();
    assert CompressedRows(kernels, plain, rows);
    var m, last := ToSpin(kernels, plain, rows);
    assert !NeverSpins(g, rows, [Lempar.BOTTOM], Cur([5]));
    forall fuel: nat ensures Lempar.RunInput(g, rows, [Lempar.BOTTOM], [5], [], fuel).Unfinished? {
      SpinUnfinished(g, rows, [Lempar.BOTTOM], [5], [], fuel);
    }
  }

  // Two reductions lead to a state that spins.
  lemma ToSpin(kernels: seq<set<Item>>, plain: seq<StateRow>, rows: seq<StateRow>)
    returns (m: nat, last: seq<Lempar.Entry>)
    requires CompressedRows(kernels, plain, rows)
    ensures Steps(EndlessGrammar(), rows, [Lempar.BOTTOM], 5, m, last) && SpinsOn(EndlessGrammar(), rows, last, 5)
  {
    hide Ready, NoChoice, NoDefaults, KernelOf, DefaultsChosen, InCollection, InKernel, Above, OneAbove, Lempar.OneStep,
        Spins;
    var g := EndlessGrammar();
    var bottom := [Lempar.BOTTOM];
    FirstIsStart(kernels, plain, rows);
    var b := DefaultAtStart(kernels, plain, rows, 0);
    PlacesHeld(b);
    PlacesHeld(1 - b);
    assert bottom + [] == bottom;
    var e1 := EmptyStep(kernels, plain, rows, bottom, [], Start, First(b), b);
    assert [] + [e1] == [e1] && bottom + [e1] + [] == bottom + [e1];
    DefaultAtFirst(kernels, plain, rows, e1.stateno, b);
    var e2 := EmptyStep(kernels, plain, rows, bottom + [e1], [], First(b), Again(1 - b), 1 - b);
    assert [] + [e2] == [e2];
    m, last := 2, bottom + [e1] + [e2];
    assert Steps(g, rows, last, 5, 0, last);
    assert Steps(g, rows, bottom + [e1], 5, 1, last);
    forall c: nat | c < 2 ensures InCollection(g, KernelOf(Again(c))) { assert c == 1 - b || c == 1 - (1 - b); }
    AgainSpins(kernels, plain, rows, e2.stateno, b);
  }

  lemma FirstIsStart(kernels: seq<set<Item>>, plain: seq<StateRow>, rows: seq<StateRow>)
    requires CompressedRows(kernels, plain, rows)
    ensures |kernels| > 0 && kernels[0] == KernelOf(Start)
  {
    hide Lalr1, RealizesRow, InCollection, NoDefaults, DefaultsChosen, SameButDefaults;
    StartIs();
  }
}

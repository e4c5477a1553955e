/** An LALR(1) grammar whose automaton has two states that lead to one another by reductions of empty rules. */
module Endless {
  import opened Options
  import opened Grammars
  import opened FirstSets
  import opened Automata
  import opened ActionLists
  import opened States
  import opened Canonical
  import opened Lalr

  // Everything is there twice, for b = 0 and b = 1, and what stands for y for k = 0 and k = 1 besides:
  //
  //   s ::= f(b) y(b,k) T(b,k)    y(b,k) ::= f(1-b) f(b)    f(b) ::=    f(1-b) ::= y(b,k) n    n ::= n X
  //
  // The terminals T(b,k) have the numbers 1 to 4 and X is 5.  The nonterminal `error` is 6, s is 7, f(0), y(0,0) and
  // y(0,1) are 8 to 10, f(1), y(1,0) and y(1,1) are 11 to 13, and n is 14; nothing but further n and X comes of n.
  function EndlessGrammar(): (g: Grammar)
    ensures g.WellFormed() && g.StartNotOnRhs() && |g.rules| == 15
    ensures forall r: nat | r < 15 :: g.rules[r] == RuleAt(r)
  {
    Grammar(6, 15, seq(15, r requires 0 <= r < 15 => RuleAt(r)), 7)
  }

  // The rules in their order: four for s, four for y, two empty ones for f, four others for f, one for n.
  function RuleAt(r: nat): Rule {
    if r < 4 then Rule(7, [N(8 + 3 * Side(r)), N(9 + Side(r) + r), T(1 + r)])
    else if r < 8 then Rule(5 + Side(r - 4) + r, [N(11 - 3 * Side(r - 4)), N(8 + 3 * Side(r - 4))])
    else if r < 10 then Rule(8 + 3 * (r - 8), [])
    else if r < 14 then Rule(11 - 3 * Side(r - 10), [N(Side(r - 10) + r - 1), N(14)])
    else Rule(14, [N(14), T(5)])
  }

  // b of the pair that is the j-th one.
  function Side(j: nat): (b: nat)
    ensures b <= 1
  {
    if j < 2 then 0 else 1
  }

  // ---- what can begin a right-hand side ----

  // Only f and y can vanish, and no token begins them or n.
  function Silent(): (r: (seq<bool>, seq<set<nat>>))
    ensures |r.0| == |r.1| == 15
  {
    (seq(15, i => 8 <= i < 14), seq(15, i => if i == 7 then {1, 2, 3, 4} else {}))
  }

  lemma SilentClosed()
    ensures Closed(EndlessGrammar(), Silent().0, Silent().1)
  {
    var g := EndlessGrammar();
    forall rule | rule in g.rules
      ensures LambdaClosedFor(Silent().0, rule) && FirstClosedFor(Silent().0, Silent().1, rule)
    {
      var r: nat :| r < 15 && g.rules[r] == rule;
      SilentRule(r);
    }
  }

  lemma SilentRule(r: nat)
    requires r < 15
    ensures LambdaClosedFor(Silent().0, RuleAt(r)) && FirstClosedFor(Silent().0, Silent().1, RuleAt(r))
  {
    var rhs := RuleAt(r).rhs;
    if r < 4 {
      assert rhs[2] == T(1 + r) && rhs[1..][1..] == [T(1 + r)];
      assert !IsLambda(Silent().0, rhs[2]);
    } else if 10 <= r < 14 {
      assert rhs[1] == N(14) && rhs[1..] == [N(14)];
    } else if r == 14 {
      assert rhs[0] == N(14);
    } else if r < 8 {
      assert rhs[1..][1..] == [];
    }
  }

  lemma OnlyAsTold(w: seq<Symbol>)
    ensures Nullable(EndlessGrammar(), w) ==> AllLambda(Silent().0, w)
    ensures forall t: nat | CanBegin(EndlessGrammar(), w, t) :: t in SeqFirst(Silent().0, Silent().1, w)
  {
    var g := EndlessGrammar();
    SilentClosed();
    if Nullable(g, w) {
      var n: nat :| DerivesIn(g, w, [], n);
      DerivationBackward(g, Silent().0, Silent().1, w, [], n);
    }
    forall t: nat | CanBegin(g, w, t) ensures t in SeqFirst(Silent().0, Silent().1, w) {
      var rest :| Derives(g, w, [T(t)] + rest);
      var n: nat :| DerivesIn(g, w, [T(t)] + rest, n);
      DerivationBackward(g, Silent().0, Silent().1, w, [T(t)] + rest, n);
    }
  }

  lemma OneFirst(x: Symbol)
    ensures SeqFirst(Silent().0, Silent().1, [x]) == SymbolFirst(Silent().1, x)
  {
    assert [x][1..] == [];
  }

  // What comes behind the nonterminal after the dot.
  lemma Behind(it: Item)
    requires it.rule < 15 && Next(EndlessGrammar(), it).Some? && Next(EndlessGrammar(), it).value.N?
    ensures Nullable(EndlessGrammar(), Rest(EndlessGrammar(), it)) ==>
      (4 <= it.rule < 8 && it.dot < 2) || (10 <= it.rule < 14 && it.dot == 1)
    ensures forall t: nat | CanBegin(EndlessGrammar(), Rest(EndlessGrammar(), it), t) ::
      (it.rule < 4 && t == 1 + it.rule) || (it.rule == 14 && t == 5)
  {
    hide Nullable, CanBegin, Silent, SeqFirst, AllLambda, RuleAt;
    var g := EndlessGrammar();
    assert g.rules[it.rule] == RuleAt(it.rule);
    var w := RuleAt(it.rule).rhs[it.dot + 1..];
    assert Rest(g, it) == w;
    OnlyAsTold(w);
    if it.rule < 4 || it.rule == 14 { BehindEnded(it.rule, it.dot); } else { BehindSilent(it.rule, it.dot); }
  }

  lemma BehindEnded(r: nat, d: nat)
    requires (r < 4 || r == 14) && d < |RuleAt(r).rhs| && RuleAt(r).rhs[d].N?
    ensures var w := RuleAt(r).rhs[d + 1..];
      !AllLambda(Silent().0, w) && SeqFirst(Silent().0, Silent().1, w) <= {if r < 4 then 1 + r else 5}
  {
    var w := RuleAt(r).rhs[d + 1..];
    var t := if r < 4 then 1 + r else 5;
    OneFirst(T(t));
    assert T(t) in w;
    if r < 4 && d == 0 { assert w[1..] == [T(t)]; } else { assert w == [T(t)]; }
  }

  lemma BehindSilent(r: nat, d: nat)
    requires 4 <= r < 14 && d < |RuleAt(r).rhs|
    ensures d < 2 && (r < 8 || 10 <= r)
    ensures var w := RuleAt(r).rhs[d + 1..];
      SeqFirst(Silent().0, Silent().1, w) == {} && (AllLambda(Silent().0, w) ==> r < 8 || d == 1)
  {
    var w := RuleAt(r).rhs[d + 1..];
    if d == 0 {
      assert w == [RuleAt(r).rhs[1]];
      OneFirst(w[0]);
    } else {
      assert w == [];
    }
  }

  // ---- the states ----

  // By what has been read: nothing; f(b) alone; f(b) behind it; y(b,k) and then n; n X; f(b) y(b,k), and its terminal.
  datatype Place = Start | First(b: nat) | Again(b: nat) | Y(b: nat, k: nat) | YN(b: nat, k: nat) | NX
    | FY(b: nat, k: nat) | End(b: nat, k: nat)

  predicate IsPlace(p: Place) {
    match p
    case Start => true
    case NX => true
    case First(b) => b < 2
    case Again(b) => b < 2
    case Y(b, k) => b < 2 && k < 2
    case YN(b, k) => b < 2 && k < 2
    case FY(b, k) => b < 2 && k < 2
    case End(b, k) => b < 2 && k < 2
  }

  // A rule for s, y or f that belongs to b.
  predicate OfSide(r: nat, low: nat, b: int) {
    low + 2 * b <= r < low + 2 * b + 2
  }

  predicate InKernel(p: Place, it: Item) {
    match p
    case Start => it.rule < 4 && it.dot == 0
    case First(b) => it.dot == 1 && (OfSide(it.rule, 0, b) || OfSide(it.rule, 4, 1 - b))
    case Again(b) => (it.dot == 2 && OfSide(it.rule, 4, b)) || (it.dot == 1 && OfSide(it.rule, 4, 1 - b))
    case Y(b, k) => it == Item(10 + 2 * b + k, 1)
    case YN(b, k) => it == Item(10 + 2 * b + k, 2) || it == Item(14, 1)
    case NX => it == Item(14, 2)
    case FY(b, k) => it == Item(2 * b + k, 2) || it == Item(10 + 2 * b + k, 1)
    case End(b, k) => it == Item(2 * b + k, 3)
  }

  predicate InAdded(p: Place, it: Item) {
    && it.dot == 0
    && match p
       case Start => 4 <= it.rule < 14
       case First(b) => OfSide(it.rule, 4, b) || it.rule == 9 - b || OfSide(it.rule, 10, b)
       case Again(b) => OfSide(it.rule, 4, b) || it.rule == 9 - b || OfSide(it.rule, 10, b)
       case Y(_, _) => it.rule == 14
       case FY(_, _) => it.rule == 14
       case _ => false
  }

  lemma NextIs(it: Item)
    ensures Next(EndlessGrammar(), it) == if it.rule < 15 && it.dot < |RuleAt(it.rule).rhs|
      then Some(RuleAt(it.rule).rhs[it.dot]) else None
    ensures it in AllItems(EndlessGrammar()) <==> it.rule < 15 && it.dot <= |RuleAt(it.rule).rhs|
  {
    var g := EndlessGrammar();
    if it.rule < 15 { assert g.rules[it.rule] == RuleAt(it.rule); }
  }

  ghost function KernelOf(p: Place): set<Item> {
    set it <- AllItems(EndlessGrammar()) | InKernel(p, it)
  }

  ghost function ClosureOf(p: Place): set<Item> {
    set it <- AllItems(EndlessGrammar()) | InKernel(p, it) || InAdded(p, it)
  }

  lemma ItemsOf(p: Place, it: Item)
    requires IsPlace(p)
    ensures it in KernelOf(p) <==> InKernel(p, it)
    ensures it in ClosureOf(p) <==> InKernel(p, it) || InAdded(p, it)
  {
    hide EndlessGrammar;
    NextIs(it);
  }

  lemma StartIs()
    ensures KernelOf(Start) == StartItems(EndlessGrammar())
  {
    var g := EndlessGrammar();
    forall it ensures it in KernelOf(Start) <==> it in StartItems(g) { ItemsOf(Start, it); }
  }

  // A rule for the nonterminal after the dot.
  predicate CallsOn(it: Item, r: nat) {
    r < 15 && it.rule < 15 && it.dot < |RuleAt(it.rule).rhs| && RuleAt(it.rule).rhs[it.dot] == N(RuleAt(r).lhs)
  }

  lemma CallsOnIs(it: Item, r: nat)
    ensures CallsOn(it, r) <==> r < 15 && Next(EndlessGrammar(), it) == Some(N(EndlessGrammar().rules[r].lhs))
  {
    NextIs(it);
  }

  lemma CalledAtStart(it: Item, r: nat)
    requires (InKernel(Start, it) || InAdded(Start, it)) && CallsOn(it, r)
    ensures InAdded(Start, Item(r, 0))
  {
  }

  lemma CalledInside(p: Place, it: Item, r: nat)
    requires IsPlace(p) && (InKernel(p, it) || InAdded(p, it)) && CallsOn(it, r)
    ensures InAdded(p, Item(r, 0))
  {
    if p.Start? {
      hide InKernel, InAdded, CallsOn;
      CalledAtStart(it, r);
    } else if p.First? || p.Again? {
      hide InKernel, InAdded, CallsOn;
      CalledInPair(p, it, r);
    }
  }

  lemma CalledInPair(p: Place, it: Item, r: nat)
    requires (p.First? || p.Again?) && p.b < 2 && (InKernel(p, it) || InAdded(p, it)) && CallsOn(it, r)
    ensures InAdded(p, Item(r, 0))
  {
  }

  // An item that calls for the added one.
  function CallerOf(p: Place, r: nat): Item
    requires IsPlace(p) && InAdded(p, Item(r, 0))
  {
    match p
    case Start =>
      if r < 8 then Item(6 + r, 0) else if r < 10 then Item(2 * (r - 8), 0) else Item(2 - 2 * Side(r - 10), 0)
    case First(b) => if r < 8 then Item(r - 4, 1) else Item(6 - 2 * b, 1)
    case Again(b) => if r < 8 then Item(6 + r, 0) else Item(6 - 2 * b, 1)
    case Y(b, k) => Item(10 + 2 * b + k, 1)
    case FY(b, k) => Item(10 + 2 * b + k, 1)
    case _ => Item(0, 0)
  }

  lemma CallerCalls(p: Place, r: nat)
    requires IsPlace(p) && InAdded(p, Item(r, 0))
    ensures CallsOn(CallerOf(p, r), r)
  {
  }

  lemma CallerInside(p: Place, r: nat)
    requires IsPlace(p) && InAdded(p, Item(r, 0))
    ensures var it := CallerOf(p, r);
      InKernel(p, it) || (InAdded(p, it) && InKernel(p, CallerOf(p, it.rule)))
  {
  }

  lemma ClosureIsThat(p: Place)
    requires IsPlace(p)
    ensures IsClosure(EndlessGrammar(), KernelOf(p), ClosureOf(p))
  {
    hide EndlessGrammar, Next, InKernel, InAdded, CallsOn, KernelOf, ClosureOf, CallerOf;
    var g := EndlessGrammar();
    forall it { ItemsOf(p, it); }
    forall it, r: nat { CallsOnIs(it, r); }
    forall it, r: nat | it in ClosureOf(p) && CallsOn(it, r) ensures Item(r, 0) in ClosureOf(p) {
      CalledInside(p, it, r);
    }
    forall other: set<Item> | KernelOf(p) <= other && ClosedSet(g, other) ensures ClosureOf(p) <= other {
      forall it | it in ClosureOf(p) ensures it in other { AddedForced(p, it, other); }
    }
  }

  lemma KernelForced(p: Place, it: Item, other: set<Item>)
    requires IsPlace(p) && InKernel(p, it) && KernelOf(p) <= other
    ensures it in other
  {
    hide EndlessGrammar, InKernel, InAdded, KernelOf, ClosureOf;
    ItemsOf(p, it);
  }

  lemma CalledForced(it: Item, r: nat, other: set<Item>)
    requires CallsOn(it, r) && it in other && ClosedSet(EndlessGrammar(), other)
    ensures Item(r, 0) in other
  {
    hide EndlessGrammar, CallsOn, Next;
    CallsOnIs(it, r);
  }

  lemma AddedForced(p: Place, it: Item, other: set<Item>)
    requires IsPlace(p) && (InKernel(p, it) || InAdded(p, it))
    requires KernelOf(p) <= other && ClosedSet(EndlessGrammar(), other)
    ensures it in other
  {
    hide EndlessGrammar, InKernel, CallsOn, KernelOf, CallerOf, ClosedSet;
    if InKernel(p, it) {
      KernelForced(p, it, other);
    } else {
      assert it == Item(it.rule, 0);
      CallerInside(p, it.rule);
      CallerCalls(p, it.rule);
      var from := CallerOf(p, it.rule);
      if InKernel(p, from) {
        KernelForced(p, from, other);
      } else {
        assert from == Item(from.rule, 0);
        CallerCalls(p, from.rule);
        KernelForced(p, CallerOf(p, from.rule), other);
        CalledForced(CallerOf(p, from.rule), from.rule, other);
      }
      CalledForced(from, it.rule, other);
    }
  }

  // Where a symbol leads.
  function To(p: Place, x: Symbol): Option<Place> {
    match p
    case Start =>
      if x == N(8) then Some(First(0)) else if x == N(11) then Some(First(1))
      else if x == N(9) then Some(Y(0, 0)) else if x == N(10) then Some(Y(0, 1))
      else if x == N(12) then Some(Y(1, 0)) else if x == N(13) then Some(Y(1, 1)) else None
    case First(b) =>
      if b > 1 then None
      else if x == N(11 - 3 * b) then Some(Again(1 - b))
      else if x == N(9 + 3 * b) then Some(FY(b, 0)) else if x == N(10 + 3 * b) then Some(FY(b, 1)) else None
    case Again(b) =>
      if b > 1 then None
      else if x == N(11 - 3 * b) then Some(Again(1 - b))
      else if x == N(9 + 3 * b) then Some(Y(b, 0)) else if x == N(10 + 3 * b) then Some(Y(b, 1)) else None
    case Y(b, k) => if x == N(14) then Some(YN(b, k)) else None
    case YN(b, k) => if x == T(5) then Some(NX) else None
    case FY(b, k) =>
      if x == N(14) then Some(YN(b, k)) else if x == T(1 + 2 * b + k) then Some(End(b, k)) else None
    case _ => None
  }

  // The symbol after the dot.
  predicate Points(it: Item, x: Symbol) {
    it.rule < 15 && it.dot < |RuleAt(it.rule).rhs| && RuleAt(it.rule).rhs[it.dot] == x
  }

  predicate InState(p: Place, it: Item) {
    InKernel(p, it) || InAdded(p, it)
  }

  lemma MovesStart(x: Symbol, it: Item)
    requires InState(Start, it) && Points(it, x)
    ensures To(Start, x).Some? && InKernel(To(Start, x).value, Advance(it))
  {
  }

  // Both places where f(1-b) comes next.
  lemma MovesKernel(p: Place, x: Symbol, it: Item)
    requires (p.First? || p.Again?) && p.b < 2 && InKernel(p, it) && Points(it, x)
    ensures To(p, x).Some? && InKernel(To(p, x).value, Advance(it))
  {
    var r := it.rule;
    assert r < 8 && RuleAt(r).rhs[it.dot] == if r < 4 then N(9 + p.b + r) else N(11 - 3 * p.b);
  }

  lemma AddedPoints(p: Place, x: Symbol, it: Item)
    requires (p.First? || p.Again?) && p.b < 2 && InAdded(p, it) && Points(it, x)
    ensures OfSide(it.rule, 4, p.b) ==> x == N(11 - 3 * p.b)
    ensures !OfSide(it.rule, 4, p.b) ==> OfSide(it.rule, 10, p.b) && x == N(p.b + it.rule - 1)
  {
  }

  lemma MovesAdded(p: Place, x: Symbol, it: Item)
    requires (p.First? || p.Again?) && p.b < 2 && InAdded(p, it) && Points(it, x)
    ensures To(p, x).Some? && InKernel(To(p, x).value, Advance(it))
  {
    hide RuleAt;
    AddedPoints(p, x, it);
    if !OfSide(it.rule, 4, p.b) { assert it.rule == 10 + 2 * p.b || it.rule == 11 + 2 * p.b; }
  }

  lemma MovesTo(p: Place, x: Symbol, it: Item)
    requires IsPlace(p) && InState(p, it) && Points(it, x)
    ensures To(p, x).Some? && InKernel(To(p, x).value, Advance(it))
  {
    if p.Start? {
      hide InKernel, InState, To;
      MovesStart(x, it);
    } else if p.First? || p.Again? {
      hide InKernel, InAdded, To, Points;
      if InKernel(p, it) { MovesKernel(p, x, it); } else { MovesAdded(p, x, it); }
    }
  }

  lemma ToPlace(p: Place, x: Symbol)
    requires IsPlace(p) && To(p, x).Some?
    ensures IsPlace(To(p, x).value)
  {
  }

  lemma FromStart(x: Symbol, it: Item)
    requires To(Start, x).Some? && InKernel(To(Start, x).value, it)
    ensures it.dot > 0 && Points(Item(it.rule, it.dot - 1), x) && InState(Start, Item(it.rule, it.dot - 1))
  {
  }

  lemma FromFirst(b: nat, x: Symbol, it: Item)
    requires b < 2 && To(First(b), x).Some? && InKernel(To(First(b), x).value, it)
    ensures it.dot > 0 && Points(Item(it.rule, it.dot - 1), x) && InState(First(b), Item(it.rule, it.dot - 1))
  {
  }

  lemma FromAgain(b: nat, x: Symbol, it: Item)
    requires b < 2 && To(Again(b), x).Some? && InKernel(To(Again(b), x).value, it)
    ensures it.dot > 0 && Points(Item(it.rule, it.dot - 1), x) && InState(Again(b), Item(it.rule, it.dot - 1))
  {
  }

  lemma MovedFrom(p: Place, x: Symbol, it: Item)
    requires IsPlace(p) && To(p, x).Some? && InKernel(To(p, x).value, it)
    ensures it.dot > 0 && Points(Item(it.rule, it.dot - 1), x) && InState(p, Item(it.rule, it.dot - 1))
  {
    if p.Start? {
      hide InKernel, InState, To, Points;
      FromStart(x, it);
    } else if p.First? {
      hide InKernel, InState, To, Points;
      FromFirst(p.b, x, it);
    } else if p.Again? {
      hide InKernel, InState, To, Points;
      FromAgain(p.b, x, it);
    }
  }

  lemma MovedInto(p: Place, x: Symbol, it: Item)
    requires IsPlace(p) && it in AdvanceAll(EndlessGrammar(), ClosureOf(p), x)
    ensures To(p, x).Some? && InKernel(To(p, x).value, it)
  {
    hide EndlessGrammar, Next, InKernel, InAdded, KernelOf, ClosureOf, To, RuleAt, IsPlace;
    var from :| from in ClosureOf(p) && Next(EndlessGrammar(), from) == Some(x) && it == Advance(from);
    ItemsOf(p, from);
    NextIs(from);
    MovesTo(p, x, from);
  }

  lemma MovedOut(p: Place, x: Symbol, it: Item)
    requires IsPlace(p) && To(p, x).Some? && InKernel(To(p, x).value, it)
    ensures it in AdvanceAll(EndlessGrammar(), ClosureOf(p), x)
  {
    hide EndlessGrammar, Next, InKernel, InAdded, KernelOf, ClosureOf, To, RuleAt, IsPlace;
    MovedFrom(p, x, it);
    var from := Item(it.rule, it.dot - 1);
    ItemsOf(p, from);
    NextIs(from);
    assert it == Advance(from) && from in ClosureOf(p);
  }

  lemma MovedItems(p: Place, x: Symbol)
    requires IsPlace(p)
    ensures AdvanceAll(EndlessGrammar(), ClosureOf(p), x) == if To(p, x).Some? then KernelOf(To(p, x).value) else {}
  {
    hide EndlessGrammar, InKernel, InAdded, AdvanceAll, KernelOf, ClosureOf, To, IsPlace;
    var moved := AdvanceAll(EndlessGrammar(), ClosureOf(p), x);
    forall it | it in moved ensures To(p, x).Some? && InKernel(To(p, x).value, it) { MovedInto(p, x, it); }
    if To(p, x).Some? {
      ToPlace(p, x);
      forall it { ItemsOf(To(p, x).value, it); }
      forall it | InKernel(To(p, x).value, it) ensures it in moved { MovedOut(p, x, it); }
    }
  }

  lemma GotoIs(p: Place, x: Symbol)
    requires IsPlace(p)
    ensures Goto(EndlessGrammar(), KernelOf(p), x) == if To(p, x).Some? then KernelOf(To(p, x).value) else {}
    ensures AdvanceAll(EndlessGrammar(), ClosureOf(p), x) == if To(p, x).Some? then KernelOf(To(p, x).value) else {}
    ensures forall it :: InClosure(EndlessGrammar(), KernelOf(p), it) <==> InState(p, it)
  {
    hide EndlessGrammar, InKernel, InAdded, KernelOf, ClosureOf, InClosure, IsClosure, Goto, AdvanceAll, To;
    ClosureIsThat(p);
    ClosureIs(EndlessGrammar(), KernelOf(p), ClosureOf(p));
    forall it { ItemsOf(p, it); }
    MovedItems(p, x);
  }

  ghost predicate IsKernel(kernel: set<Item>) {
    exists p :: IsPlace(p) && kernel == KernelOf(p)
  }

  // There are no other states.
  lemma AllKernels(kernel: set<Item>)
    requires InCollection(EndlessGrammar(), kernel)
    ensures IsKernel(kernel)
  {
    hide EndlessGrammar, KernelOf, IsClosure, AdvanceAll, ClosureOf, To, StartItems;
    var g := EndlessGrammar();
    var family := (k: set<Item>) => IsKernel(k);
    StartIs();
    assert IsPlace(Start);
    forall k: set<Item>, items: set<Item>, x: Symbol |
        IsKernel(k) && IsClosure(g, k, items) && AdvanceAll(g, items, x) != {}
      ensures IsKernel(AdvanceAll(g, items, x))
    {
      var p :| IsPlace(p) && k == KernelOf(p);
      OnlyClosure(p, items);
      GotoIs(p, x);
      if To(p, x).Some? { ToPlace(p, x); }
    }
    assert ClosedFamily(g, family);
  }

  lemma OnlyClosure(p: Place, items: set<Item>)
    requires IsPlace(p) && IsClosure(EndlessGrammar(), KernelOf(p), items)
    ensures items == ClosureOf(p)
  {
    hide EndlessGrammar, KernelOf, ClosureOf, ClosedSet;
    ClosureIsThat(p);
  }

  // ---- look-aheads ----

  // What the look-aheads are among.
  predicate MayLook(p: Place, it: Item, t: nat) {
    if it.rule < 4 then t == 0
    else if it.rule < 8 then t == it.rule - 3 && (it.dot == 0 ==> p.First?)
    else if it.rule < 10 then
      if p.Start? || p.Again? then OfSide(t, 1, it.rule - 8) else 1 <= t <= 4
    else if it.rule < 14 then 1 <= t <= 4
    else 1 <= t <= 5
  }

  lemma LookStays(p: Place, from: Item, r: nat, t: nat)
    requires IsPlace(p) && InState(p, from) && CallsOn(from, r) && MayLook(p, from, t)
    requires (4 <= from.rule < 8 && from.dot < 2) || (10 <= from.rule < 14 && from.dot == 1)
    ensures MayLook(p, Item(r, 0), t)
  {
  }

  lemma LookBegins(p: Place, from: Item, r: nat, t: nat)
    requires IsPlace(p) && InState(p, from) && CallsOn(from, r)
    requires (from.rule < 4 && t == 1 + from.rule) || (from.rule == 14 && t == 5)
    ensures MayLook(p, Item(r, 0), t)
  {
  }

  lemma LookMoves(p: Place, from: Item, x: Symbol, t: nat)
    requires IsPlace(p) && InState(p, from) && Points(from, x) && To(p, x).Some? && MayLook(p, from, t)
    ensures MayLook(To(p, x).value, Advance(from), t)
  {
  }

  // An item by which the state is known.
  function Mark(p: Place): Item {
    match p
    case Start => Item(0, 0)
    case First(b) => Item(2 * b, 1)
    case Again(b) => Item(4 + 2 * b, 2)
    case Y(b, k) => Item(10 + 2 * b + k, 1)
    case YN(b, k) => Item(10 + 2 * b + k, 2)
    case NX => Item(14, 2)
    case FY(b, k) => Item(2 * b + k, 2)
    case End(b, k) => Item(2 * b + k, 3)
  }

  lemma MarkTells(p: Place, q: Place)
    requires IsPlace(p) && IsPlace(q) && InKernel(p, Mark(q)) && InKernel(q, Mark(p))
    ensures p == q
  {
  }

  lemma MarkIn(p: Place)
    requires IsPlace(p)
    ensures InKernel(p, Mark(p))
  {
  }

  lemma SamePlace(p: Place, q: Place)
    requires IsPlace(p) && IsPlace(q) && KernelOf(p) == KernelOf(q)
    ensures p == q
  {
    hide KernelOf, InKernel, InAdded, ClosureOf;
    MarkIn(p);
    MarkIn(q);
    ItemsOf(p, Mark(p));
    ItemsOf(p, Mark(q));
    ItemsOf(q, Mark(p));
    ItemsOf(q, Mark(q));
    MarkTells(p, q);
  }

  lemma {:induction false} OnlyThese(p: Place, it: Item, t: nat, n: nat)
    requires IsPlace(p) && LookIn(EndlessGrammar(), KernelOf(p), it, t, n)
    ensures InState(p, it) && MayLook(p, it, t)
    decreases n
  {
    hide EndlessGrammar, KernelOf, InState, MayLook, InClosure, InCollection, Spontaneous, Predicts, Nullable, Enters,
        Goto, To, LookIn;
    var g := EndlessGrammar();
    GotoIs(p, T(0));
    LookInside(p, it, t, n);
    if n == 0 {
      LookStart(g, KernelOf(p), it, t);
      BeginsOnly(p, it, t);
    } else {
      var within, before, from := LookBack(g, KernelOf(p), it, t, n);
      if within {
        OnlyThese(p, from, t, n - 1);
        StaysOnly(p, from, it, t);
      } else {
        AllKernels(before);
        var q :| IsPlace(q) && before == KernelOf(q);
        OnlyThese(q, from, t, n - 1);
        MovesOnly(q, from, p, it, t);
      }
    }
  }

  lemma LookInside(p: Place, it: Item, t: nat, n: nat)
    requires LookIn(EndlessGrammar(), KernelOf(p), it, t, n)
    ensures InClosure(EndlessGrammar(), KernelOf(p), it)
  {
    hide EndlessGrammar, KernelOf, InClosure, InCollection, Spontaneous, Predicts, Nullable, Enters;
  }

  lemma PredictsIs(from: Item, it: Item)
    ensures Predicts(EndlessGrammar(), from, it) <==> it.dot == 0 && CallsOn(from, it.rule)
  {
    CallsOnIs(from, it.rule);
  }

  lemma BeginsOnly(p: Place, it: Item, t: nat)
    requires IsPlace(p) && Spontaneous(EndlessGrammar(), KernelOf(p), it, t)
    ensures MayLook(p, it, t)
  {
    hide EndlessGrammar, KernelOf, InState, MayLook, InClosure, Predicts, CanBegin, StartItems, InKernel, Next, Rest,
        CallsOn;
    var g := EndlessGrammar();
    StartIs();
    GotoIs(p, T(0));
    if KernelOf(p) == StartItems(g) && it in KernelOf(p) && t == 0 {
      SamePlace(p, Start);
      ItemsOf(p, it);
      EndAtStart(it);
    } else {
      var from :| InClosure(g, KernelOf(p), from) && Predicts(g, from, it) && CanBegin(g, Rest(g, from), t);
      PredictsIs(from, it);
      CalledNext(from, it.rule);
      Behind(from);
      LookBegins(p, from, it.rule, t);
      assert it == Item(it.rule, 0);
    }
  }

  lemma EndAtStart(it: Item)
    requires InKernel(Start, it)
    ensures MayLook(Start, it, 0)
  {
  }

  lemma CalledNext(from: Item, r: nat)
    requires CallsOn(from, r)
    ensures from.rule < 15 && Next(EndlessGrammar(), from).Some? && Next(EndlessGrammar(), from).value.N?
  {
    CallsOnIs(from, r);
  }

  lemma StaysOnly(p: Place, from: Item, it: Item, t: nat)
    requires IsPlace(p) && InState(p, from) && MayLook(p, from, t) && Predicts(EndlessGrammar(), from, it)
    requires Nullable(EndlessGrammar(), Rest(EndlessGrammar(), from))
    ensures MayLook(p, it, t)
  {
    hide EndlessGrammar, InState, MayLook, Predicts, Nullable, CallsOn, Next, Rest;
    PredictsIs(from, it);
    CalledNext(from, it.rule);
    Behind(from);
    LookStays(p, from, it.rule, t);
    assert it == Item(it.rule, 0);
  }

  lemma MovesOnly(q: Place, from: Item, p: Place, it: Item, t: nat)
    requires IsPlace(q) && IsPlace(p) && InState(q, from) && MayLook(q, from, t)
    requires Enters(EndlessGrammar(), KernelOf(q), from, KernelOf(p), it)
    ensures MayLook(p, it, t)
  {
    hide EndlessGrammar, KernelOf, InState, MayLook, Goto, To, Next, RuleAt;
    var x := Next(EndlessGrammar(), from).value;
    NextIs(from);
    assert Points(from, x);
    MovesTo(q, x, from);
    GotoIs(q, x);
    ToPlace(q, x);
    SamePlace(To(q, x).value, p);
    LookMoves(q, from, x, t);
  }

  // ---- no two actions meet ----

  lemma ReducesOnlyThese(p: Place, r: nat, t: nat)
    requires IsPlace(p) && Reduces(EndlessGrammar(), KernelOf(p), r, t)
    ensures r < 15 && t < 6 && InState(p, Item(r, |RuleAt(r).rhs|)) && MayLook(p, Item(r, |RuleAt(r).rhs|), t)
  {
    hide KernelOf, InState, MayLook, LookIn;
    var g := EndlessGrammar();
    assert g.rules[r] == RuleAt(r);
    var n: nat :| LookIn(g, KernelOf(p), Item(r, |g.rules[r].rhs|), t, n);
    OnlyThese(p, Item(r, |g.rules[r].rhs|), t, n);
  }

  lemma ShiftsOnlyThese(p: Place, x: Symbol)
    requires IsPlace(p) && ShiftsOver(EndlessGrammar(), KernelOf(p), x)
    ensures To(p, x).Some?
  {
    hide EndlessGrammar, KernelOf, InState, InClosure, To, Next, RuleAt;
    var g := EndlessGrammar();
    GotoIs(p, x);
    var it :| InClosure(g, KernelOf(p), it) && Next(g, it) == Some(x);
    NextIs(it);
    MovesTo(p, x, it);
  }

  lemma OneReduction(p: Place, r: nat, r': nat, t: nat)
    requires IsPlace(p) && r < 15 && r' < 15
    requires InState(p, Item(r, |RuleAt(r).rhs|)) && MayLook(p, Item(r, |RuleAt(r).rhs|), t)
    requires InState(p, Item(r', |RuleAt(r').rhs|)) && MayLook(p, Item(r', |RuleAt(r').rhs|), t)
    ensures r == r'
  {
  }

  lemma NoShiftThere(p: Place, r: nat, t: nat, x: Symbol)
    requires IsPlace(p) && r < 15 && t < 6 && To(p, x).Some?
    requires InState(p, Item(r, |RuleAt(r).rhs|)) && MayLook(p, Item(r, |RuleAt(r).rhs|), t)
    ensures t !in SymbolCodes(x)
  {
  }

  lemma OneSymbol(p: Place, x: Symbol)
    requires IsPlace(p) && To(p, x).Some?
    ensures (x.T? && x.index < 6) || (x.N? && x.index >= 6)
  {
  }

  lemma EndlessIsLalr1()
    ensures Lalr1(EndlessGrammar())
  {
    hide EndlessGrammar, KernelOf, InCollection, Reduces, ShiftsOver, InState, MayLook, To, IsPlace, RuleAt;
    var g := EndlessGrammar();
    forall kernel | InCollection(g, kernel) ensures NoClash(g, kernel) {
      AllKernels(kernel);
      var p :| IsPlace(p) && kernel == KernelOf(p);
      forall r: nat, t: nat | Reduces(g, kernel, r, t)
        ensures r < 15 && t < 6 && InState(p, Item(r, |RuleAt(r).rhs|)) && MayLook(p, Item(r, |RuleAt(r).rhs|), t)
      {
        ReducesOnlyThese(p, r, t);
      }
      forall r: nat, r': nat, t: nat | Reduces(g, kernel, r, t) && Reduces(g, kernel, r', t) ensures r == r' {
        OneReduction(p, r, r', t);
      }
      forall x | ShiftsOver(g, kernel, x) ensures To(p, x).Some? && ((x.T? && x.index < 6) || (x.N? && x.index >= 6)) {
        ShiftsOnlyThese(p, x);
        OneSymbol(p, x);
      }
      forall r: nat, t: nat, x | Reduces(g, kernel, r, t) && ShiftsOver(g, kernel, x) ensures t !in SymbolCodes(x) {
        NoShiftThere(p, r, t, x);
      }
    }
  }
}

/** The LALR(1) automaton of a grammar, defined from the grammar alone.  Its states are the kernels of the canonical
  collection; look-aheads are generated spontaneously in a state or propagated within it and from state to state. */
module Lalr {
  import opened Options
  import opened Grammars
  import opened FirstSets
  import opened Automata
  import opened Sorting
  import opened ActionLists
  import opened States
  import opened Canonical

  // it belongs to the closure of the kernel.
  ghost predicate InClosure(g: Grammar, kernel: set<Item>, it: Item) {
    forall items: set<Item> | kernel <= items && ClosedSet(g, items) :: it in items
  }

  ghost function Goto(g: Grammar, kernel: set<Item>, x: Symbol): set<Item> {
    set it <- AllItems(g) | InClosure(g, kernel, it) && Next(g, it) == Some(x) :: Advance(it)
  }

  // The kernels that every family closed under goto contains.
  ghost predicate InCollection(g: Grammar, kernel: set<Item>) {
    forall family: set<Item> -> bool | ClosedFamily(g, family) :: family(kernel)
  }

  // `to` begins a rule for the nonterminal behind the dot of `from`.
  predicate Predicts(g: Grammar, from: Item, to: Item) {
    to.dot == 0 && to.rule < |g.rules| && Next(g, from) == Some(N(g.rules[to.rule].lhs))
  }

  // ---- look-aheads ----

  // `$` behind the start rules, and whatever can begin what is behind the nonterminal that called for the rule.
  ghost predicate Spontaneous(g: Grammar, kernel: set<Item>, it: Item, t: nat) {
    || (kernel == StartItems(g) && it in kernel && t == 0)
    || (exists from :: InClosure(g, kernel, from) && Predicts(g, from, it) && CanBegin(g, Rest(g, from), t))
  }

  // t is propagated to the item in n steps: to rules that end where the item does, and along with the dot.
  ghost predicate LookIn(g: Grammar, kernel: set<Item>, it: Item, t: nat, n: nat)
    decreases n
  {
    && InCollection(g, kernel) && InClosure(g, kernel, it)
    && if n == 0 then Spontaneous(g, kernel, it, t)
       else
         || (exists from :: LookIn(g, kernel, from, t, n - 1) && Predicts(g, from, it) && Nullable(g, Rest(g, from)))
         || (exists before, from :: LookIn(g, before, from, t, n - 1) && Enters(g, before, from, kernel, it))
  }

  // Moving the dot of `from` leads from one state to the other.
  ghost predicate Enters(g: Grammar, before: set<Item>, from: Item, kernel: set<Item>, it: Item) {
    Next(g, from).Some? && kernel == Goto(g, before, Next(g, from).value) && it == Advance(from)
  }

  ghost predicate LookAhead(g: Grammar, kernel: set<Item>, it: Item, t: nat) {
    exists n: nat :: LookIn(g, kernel, it, t, n)
  }

  lemma LookStart(g: Grammar, kernel: set<Item>, it: Item, t: nat)
    requires LookIn(g, kernel, it, t, 0)
    ensures Spontaneous(g, kernel, it, t) && InCollection(g, kernel)
  {
    hide Spontaneous, InCollection, InClosure;
  }

  // The last step of a propagation.
  lemma LookBack(g: Grammar, kernel: set<Item>, it: Item, t: nat, n: nat)
    returns (within: bool, before: set<Item>, from: Item)
    requires LookIn(g, kernel, it, t, n) && n > 0
    ensures LookIn(g, before, from, t, n - 1) && InCollection(g, before)
    ensures if within then before == kernel && Predicts(g, from, it) && Nullable(g, Rest(g, from))
      else Enters(g, before, from, kernel, it)
  {
    hide InCollection, InClosure, Spontaneous, Predicts, Nullable, Enters;
    if from0 :| LookIn(g, kernel, from0, t, n - 1) && Predicts(g, from0, it) && Nullable(g, Rest(g, from0)) {
      within, before, from := true, kernel, from0;
    } else {
      var before1, from1 :| LookIn(g, before1, from1, t, n - 1) && Enters(g, before1, from1, kernel, it);
      within, before, from := false, before1, from1;
    }
  }

  // ---- what a state calls for ----

  ghost predicate ShiftsOver(g: Grammar, kernel: set<Item>, x: Symbol) {
    exists it :: InClosure(g, kernel, it) && Next(g, it) == Some(x)
  }

  ghost predicate Reduces(g: Grammar, kernel: set<Item>, r: nat, t: nat) {
    t < g.nterminal && r < |g.rules| && LookAhead(g, kernel, Item(r, |g.rules[r].rhs|), t)
  }

  // No look-ahead calls for two actions.
  ghost predicate NoClash(g: Grammar, kernel: set<Item>) {
    && (forall r: nat, r': nat, t: nat | Reduces(g, kernel, r, t) && Reduces(g, kernel, r', t) :: r == r')
    && (forall r: nat, t: nat, x | Reduces(g, kernel, r, t) && ShiftsOver(g, kernel, x) :: t !in SymbolCodes(x))
    && (forall x, y, code | ShiftsOver(g, kernel, x) && ShiftsOver(g, kernel, y) && x != y && code in SymbolCodes(x) ::
          code !in SymbolCodes(y))
    && (forall x | ShiftsOver(g, kernel, x) :: AllDifferent(SymbolCodes(x)))
  }

  ghost predicate Lalr1(g: Grammar) {
    forall kernel | InCollection(g, kernel) :: NoClash(g, kernel)
  }

  // ---- rows of actions that realize the automaton ----

  // What state k calls for on the symbol with this code, terminal or nonterminal.
  ghost predicate CallsFor(g: Grammar, kernels: seq<set<Item>>, k: nat, code: nat, a: Act)
    requires k < |kernels|
  {
    match a
    case Shift(to) => to < |kernels| && Leads(g, kernels[k], code, kernels[to])
    case Reduce(r) => Reduces(g, kernels[k], r, code)
    case Accept => k == 0 && code == g.start
    case Error => false
  }

  ghost predicate Leads(g: Grammar, kernel: set<Item>, code: nat, to: set<Item>) {
    exists x :: ShiftsOver(g, kernel, x) && code in SymbolCodes(x) && to == Goto(g, kernel, x)
  }

  ghost predicate Called(g: Grammar, kernels: seq<set<Item>>, k: nat, code: nat)
    requires k < |kernels|
  {
    exists a :: CallsFor(g, kernels, k, code, a)
  }

  // On every symbol one of the actions called for, and none where none is; nothing on anything else.  Otherwise an
  // error, or a default reduction that the state calls for somewhere.
  ghost predicate RealizesRow(g: Grammar, kernels: seq<set<Item>>, k: nat, row: StateRow)
    requires k < |kernels|
  {
    && (forall t: nat | t < g.nterminal ::
          if Called(g, kernels, k, t) then CallsFor(g, kernels, k, t, TerminalAct(row, t)) else t !in row.onTerminal)
    && (forall A: nat | g.nterminal <= A < g.nsymbol ::
          if Called(g, kernels, k, A) then A in row.onNonterminal && CallsFor(g, kernels, k, A, row.onNonterminal[A])
          else A !in row.onNonterminal)
    && (forall t <- row.onTerminal :: t < g.nterminal)
    && (forall A <- row.onNonterminal :: g.nterminal <= A < g.nsymbol)
    && match row.otherwise
       case Error => true
       case Reduce(r) => r < |g.rules| && g.rules[r].lhs != g.start && exists t: nat :: Reduces(g, kernels[k], r, t)
       case _ => false
  }

  // The states are those of the LALR(1) automaton, each once, the first one first, and so are their actions.
  ghost predicate Realizes(g: Grammar, kernels: seq<set<Item>>, rows: seq<StateRow>) {
    && |kernels| == |rows| > 0 && kernels[0] == StartItems(g) && AllDifferent(kernels)
    && (forall kernel :: kernel in kernels <==> InCollection(g, kernel))
    && (forall k: nat | k < |kernels| :: RealizesRow(g, kernels, k, rows[k]))
  }

  // ---- closures as sets ----

  lemma ClosureIs(g: Grammar, kernel: set<Item>, items: set<Item>)
    requires IsClosure(g, kernel, items)
    ensures forall it :: InClosure(g, kernel, it) <==> it in items
    ensures forall x :: Goto(g, kernel, x) == AdvanceAll(g, items, x)
  {
    forall it ensures InClosure(g, kernel, it) <==> it in items {
      if it in items {
        forall other: set<Item> | kernel <= other && ClosedSet(g, other) ensures it in other {}
      }
    }
    forall x ensures Goto(g, kernel, x) == AdvanceAll(g, items, x) {
      forall it ensures it in Goto(g, kernel, x) <==> it in AdvanceAll(g, items, x) {
        if it in AdvanceAll(g, items, x) {
          var from :| from in items && Next(g, from) == Some(x) && it == Advance(from);
          assert from in AllItems(g);
        }
      }
    }
  }
}

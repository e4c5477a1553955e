/** What the generator hands to the driver, on values: the items of every state, and a row of actions for every
  state.  `SoundRows` is what a table must satisfy for the driver to be right about what it accepts. */
module Automata {
  import opened Options
  import opened Grammars

  // A rule with a dot.
  datatype Item = Item(rule: nat, dot: nat)

  datatype Act = Shift(state: nat) | Reduce(rule: nat) | Accept | Error

  // Actions on terminals, on nonterminals, and on every terminal not mentioned.
  datatype StateRow = StateRow(onTerminal: map<nat, Act>, onNonterminal: map<nat, Act>, otherwise: Act)

  function TerminalAct(row: StateRow, la: nat): Act {
    if la in row.onTerminal then row.onTerminal[la] else row.otherwise
  }

  // compute_action: the number that stands for an action.
  function Code(a: Act, nstate: nat, nrule: nat): nat {
    match a
    case Shift(s) => s
    case Reduce(r) => r + nstate
    case Error => nstate + nrule
    case Accept => nstate + nrule + 1
  }

  function SymbolOf(g: Grammar, major: nat): Symbol {
    if major < g.nterminal then T(major) else N(major)
  }

  predicate ValidItem(g: Grammar, it: Item) {
    it.rule < |g.rules| && it.dot <= |g.rules[it.rule].rhs|
  }

  // The symbol after the dot.
  function Next(g: Grammar, it: Item): Option<Symbol> {
    if it.rule < |g.rules| && it.dot < |g.rules[it.rule].rhs| then Some(g.rules[it.rule].rhs[it.dot]) else None
  }

  // The symbols behind the one after the dot.
  function Rest(g: Grammar, it: Item): seq<Symbol> {
    if it.rule < |g.rules| && it.dot < |g.rules[it.rule].rhs| then g.rules[it.rule].rhs[it.dot + 1..] else []
  }

  function Advance(it: Item): Item {
    Item(it.rule, it.dot + 1)
  }

  // The items with x after the dot, moved over it.
  ghost function AdvanceAll(g: Grammar, items: set<Item>, x: Symbol): set<Item> {
    set it <- items | Next(g, it) == Some(x) :: Advance(it)
  }

  ghost function AllItems(g: Grammar): set<Item> {
    set r, d | 0 <= r < |g.rules| && 0 <= d <= |g.rules[r].rhs| :: Item(r, d)
  }

  // Entering state `to` from `from` over `x`: whatever has its dot moved in `to` has it one earlier in `from`.
  ghost predicate Follows(g: Grammar, from: set<Item>, x: Symbol, to: set<Item>) {
    forall it <- to | it.dot > 0 ::
      && ValidItem(g, it)
      && Item(it.rule, it.dot - 1) in from
      && Matches(g.rules[it.rule].rhs[it.dot - 1], x)
  }

  ghost predicate SoundShift(g: Grammar, items: seq<set<Item>>, s: nat, x: Symbol, to: nat)
    requires s < |items|
  {
    0 < to < |items| && Follows(g, items[s], x, items[to])
  }

  ghost predicate SoundReduce(g: Grammar, items: seq<set<Item>>, s: nat, r: nat)
    requires s < |items|
  {
    r < |g.rules| && Item(r, |g.rules[r].rhs|) in items[s]
  }

  ghost predicate SoundTerminalAct(g: Grammar, items: seq<set<Item>>, s: nat, la: nat, a: Act)
    requires s < |items|
  {
    match a
    case Shift(to) => 1 <= la < g.nterminal && SoundShift(g, items, s, T(la), to)
    case Reduce(r) => SoundReduce(g, items, s, r) && (g.rules[r].lhs == g.start ==> la == 0)
    case Accept => false
    case Error => true
  }

  // After a rule for A is reduced back to a state, the state has a way on.
  ghost predicate SoundGoto(g: Grammar, items: seq<set<Item>>, s: nat, row: StateRow, A: nat)
    requires s < |items|
  {
    && A in row.onNonterminal
    && match row.onNonterminal[A]
       case Shift(to) => A != g.start && SoundShift(g, items, s, N(A), to)
       case Accept => A == g.start && s == 0
       case _ => false
  }

  ghost predicate SoundRow(g: Grammar, items: seq<set<Item>>, s: nat, row: StateRow)
    requires s < |items|
  {
    && (forall la: nat :: SoundTerminalAct(g, items, s, la, TerminalAct(row, la)))
    && (forall it <- items[s] | it.dot == 0 && it.rule < |g.rules| :: SoundGoto(g, items, s, row, g.rules[it.rule].lhs))
  }

  ghost predicate SoundRows(g: Grammar, items: seq<set<Item>>, rows: seq<StateRow>) {
    && |rows| == |items| > 0
    && (forall it <- items[0] :: it.dot == 0)
    && (forall s: nat | s < |rows| :: SoundRow(g, items, s, rows[s]))
  }
}

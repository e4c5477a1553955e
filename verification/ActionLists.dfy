/** Parser actions: their order, and how conflicts between them are resolved. */
module ActionLists {
  import opened Options
  import opened Grammars
  import opened Automata
  import opened Sorting

  datatype Kind =
    | SHIFT | ACCEPT | REDUCE | ERROR | SSCONFLICT | SRCONFLICT | RRCONFLICT | SH_RESOLVED | RD_RESOLVED | NOT_USED

  // One `struct action`: look-ahead symbol, kind, the state or rule it names, and its address.
  datatype Action = Action(sp: nat, kind: Kind, x: nat, addr: nat)

  // The symbols an action is entered for when x is shifted.
  function SymbolCodes(x: Symbol): seq<nat> {
    match x
    case T(i) => [i]
    case N(i) => [i]
    case Multi(subs) => subs
  }

  // compute_action yields a number for these only.
  predicate Live(a: Action) {
    a.kind == SHIFT || a.kind == ACCEPT || a.kind == REDUCE || a.kind == ERROR
  }

  function ActOf(a: Action): Act {
    match a.kind
    case SHIFT => Shift(a.x)
    case REDUCE => Reduce(a.x)
    case ACCEPT => Accept
    case _ => Error
  }

  // ---- actioncmp ----

  function KindCode(k: Kind): nat {
    match k
    case SHIFT => 0
    case ACCEPT => 1
    case REDUCE => 2
    case ERROR => 3
    case SSCONFLICT => 4
    case SRCONFLICT => 5
    case RRCONFLICT => 6
    case SH_RESOLVED => 7
    case RD_RESOLVED => 8
    case NOT_USED => 9
  }

  // By look-ahead, then kind, then rule for reductions, then the higher address first.
  predicate ActionLe(a: Action, b: Action) {
    if a.sp != b.sp then a.sp < b.sp
    else if a.kind != b.kind then KindCode(a.kind) < KindCode(b.kind)
    else if a.kind == REDUCE && a.x != b.x then a.x < b.x
    else a.addr >= b.addr
  }

  lemma ActionLePreorder()
    ensures TotalPreorder(ActionLe)
  {
  }

  // In order of the look-aheads.
  ghost predicate Ascending(ap: seq<Action>) {
    forall i, j | 0 <= i < j < |ap| :: ap[i].sp <= ap[j].sp
  }

  // Every action has an address of its own, so no two compare equal.
  ghost predicate NoTies(ap: seq<Action>) {
    forall i, j | 0 <= i < j < |ap| :: ap[i].addr != ap[j].addr
  }

  ghost predicate AddrBelow(ap: seq<Action>, nact: nat) {
    forall a <- ap :: a.addr < nact
  }

  lemma NoTiesPermuted(a: seq<Action>, b: seq<Action>)
    requires NoTies(a) && multiset(a) == multiset(b)
    ensures NoTies(b)
  {
    SameMembers(a, b);
    assert AllDifferent(a);
    DistinctPermute(a, b);
    forall i, j | 0 <= i < j < |b| ensures b[i].addr != b[j].addr {
      assert b[i] in a && b[j] in a && b[i] != b[j];
      var k :| 0 <= k < |a| && a[k] == b[i];
      var l :| 0 <= l < |a| && a[l] == b[j];
    }
  }

  // There is only one way to sort such a list: what Action_sort returns, whoever does the sorting.
  lemma SortedOneWay(ap: seq<Action>, sorted: seq<Action>)
    requires NoTies(ap) && multiset(sorted) == multiset(ap) && Ordered(sorted, ActionLe)
    ensures sorted == SortActions(ap)
  {
    hide Ordered;
    ActionLePreorder();
    SortOrders(ap, ActionLe);
    SameMembers(sorted, ap);
    forall x, y | x in sorted && y in sorted && ActionLe(x, y) && ActionLe(y, x) ensures x == y {
      var i :| 0 <= i < |ap| && ap[i] == x;
      var j :| 0 <= j < |ap| && ap[j] == y;
    }
    OrderedUnique(sorted, SortActions(ap), ActionLe);
  }

  // Action_sort
  function SortActions(ap: seq<Action>): (r: seq<Action>)
    requires NoTies(ap)
    ensures multiset(r) == multiset(ap) && |r| == |ap|
  {
    Sort(ap, ActionLe)
  }

  // ---- resolve_conflict ----

  datatype Assoc = LEFT | RIGHT | NONE | UNK

  // Precedence and associativity of every symbol, and the symbol that gives each rule its precedence.
  datatype Precedences = Precedences(prec: seq<int>, assoc: seq<Assoc>, precsym: seq<Option<nat>>) {
    function Prec(sym: nat): int {
      if sym < |prec| then prec[sym] else -1
    }

    function AssocOf(sym: nat): Assoc {
      if sym < |assoc| then assoc[sym] else UNK
    }

    // -1 if the rule has no precedence symbol, or that has no precedence
    function RulePrec(r: nat): int {
      if r < |precsym| && precsym[r].Some? then Prec(precsym[r].value) else -1
    }

    // No precedence is declared at all.
    ghost predicate Undeclared() {
      forall sym: nat :: Prec(sym) < 0
    }

    // A %left, %right or %nonassoc declaration sets both.
    ghost predicate Declared() {
      forall sym: nat | Prec(sym) >= 0 :: AssocOf(sym) != UNK
    }
  }

  // The two actions afterwards, and whether a conflict is counted.
  function ResolveConflict(p: Precedences, x: Action, y0: Action): (Action, Action, nat) {
    var y := if x.kind == SHIFT && y0.kind == SHIFT then y0.(kind := SSCONFLICT) else y0;
    var err := if x.kind == SHIFT && y0.kind == SHIFT then 1 else 0;
    if x.kind == SHIFT && y.kind == REDUCE then
      var px, py := p.Prec(x.sp), p.RulePrec(y.x);
      if px < 0 || py < 0 then (x, y.(kind := SRCONFLICT), err + 1)
      else if px > py then (x, y.(kind := RD_RESOLVED), err)
      else if px < py then (x.(kind := SH_RESOLVED), y, err)
      else if p.AssocOf(x.sp) == RIGHT then (x, y.(kind := RD_RESOLVED), err)
      else if p.AssocOf(x.sp) == LEFT then (x.(kind := SH_RESOLVED), y, err)
      else (x, y.(kind := SRCONFLICT), err + 1)
    else if x.kind == REDUCE && y.kind == REDUCE then
      var px, py := p.RulePrec(x.x), p.RulePrec(y.x);
      if px < 0 || py < 0 || px == py then (x, y.(kind := RRCONFLICT), err + 1)
      else if px > py then (x, y.(kind := RD_RESOLVED), err)
      else (x.(kind := RD_RESOLVED), y, err)
    else (x, y, err)
  }

  // The assertions of resolve_conflict.
  predicate Resolvable(p: Precedences, x: Action, y: Action) {
    && x.sp == y.sp
    && (x.kind == SHIFT && y.kind == REDUCE && p.Prec(x.sp) >= 0 && p.RulePrec(y.x) == p.Prec(x.sp)
        ==> p.AssocOf(x.sp) != UNK)
    && ((x.kind == SHIFT && y.kind == SHIFT) || (x.kind == SHIFT && y.kind == REDUCE)
        || (x.kind == REDUCE && y.kind == REDUCE)
        || !Live(x) || !Live(y))
  }

  predicate FirstWins(p: Precedences, x: Action, y: Action) {
    ResolveConflict(p, x, y).0 == x
  }

  // Of two actions that may stand in this order, exactly one is left alive, unchanged.
  lemma OneSurvives(p: Precedences, x: Action, y: Action)
    requires (x.kind == SHIFT && (y.kind == SHIFT || y.kind == REDUCE)) || (x.kind == REDUCE && y.kind == REDUCE)
    ensures var (x', y', err) := ResolveConflict(p, x, y);
      && x'.sp == x.sp && y'.sp == y.sp && x'.addr == x.addr && y'.addr == y.addr
      && (if FirstWins(p, x, y) then x' == x && !Live(y') else !Live(x') && y' == y)
  {
  }

  lemma DeadStaysOut(p: Precedences, x: Action, y: Action)
    requires !Live(x) || !Live(y)
    ensures ResolveConflict(p, x, y) == (x, y, 0)
  {
  }
}

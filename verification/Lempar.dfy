/** The driver template lempar.c: table lookup, shift, reduce, accept, and the Parse loop, in the configuration
  without an error symbol, fallback tokens and wildcard. */
module Lempar {
  import opened Grammars
  import opened Automata

  // The constant arrays that the generator writes into the parser.
  datatype Tables = Tables(
    nstate: nat, nrule: nat,
    action: seq<nat>, lookahead: seq<nat>,        // yy_action, yy_lookahead
    shiftOfst: seq<int>, shiftUseDflt: int,       // yy_shift_ofst, YY_SHIFT_USE_DFLT
    reduceOfst: seq<int>, reduceUseDflt: int,     // yy_reduce_ofst, YY_REDUCE_USE_DFLT
    dflt: seq<nat>,                               // yy_default
    ruleInfo: seq<(nat, nat)>)                    // lhs and length of each rule

  // One stack entry: state number and symbol code.
  datatype Entry = Entry(stateno: nat, major: nat)

  predicate WellSized(t: Tables) {
    |t.action| == |t.lookahead| && |t.shiftOfst| <= |t.dflt| && |t.dflt| == t.nstate
  }

  // yy_find_shift_action
  function FindShiftAction(t: Tables, stateno: nat, la: nat): nat
    requires WellSized(t) && stateno < t.nstate
  {
    if stateno >= |t.shiftOfst| || t.shiftOfst[stateno] == t.shiftUseDflt then t.dflt[stateno]
    else
      var i := t.shiftOfst[stateno] + la;
      if i < 0 || i >= |t.action| || t.lookahead[i] != la then t.dflt[stateno]
      else t.action[i]
  }

  // The assertions of yy_find_reduce_action.
  predicate HasReduceAction(t: Tables, stateno: nat, la: nat) {
    && WellSized(t)
    && stateno < |t.reduceOfst|
    && t.reduceOfst[stateno] != t.reduceUseDflt
    && 0 <= t.reduceOfst[stateno] + la < |t.action|
    && t.lookahead[t.reduceOfst[stateno] + la] == la
  }

  // yy_find_reduce_action
  function FindReduceAction(t: Tables, stateno: nat, la: nat): nat
    requires HasReduceAction(t, stateno, la)
  {
    t.action[t.reduceOfst[stateno] + la]
  }

  // The tables answer every lookup the driver makes as the rows say.
  ghost predicate Represents(g: Grammar, t: Tables, rows: seq<StateRow>) {
    && WellSized(t)
    && t.nstate == |rows|
    && t.nrule == |g.rules|
    && t.ruleInfo == seq(|g.rules|, i requires 0 <= i < |g.rules| => (g.rules[i].lhs, |g.rules[i].rhs|))
    && (forall s: nat, la: nat | s < t.nstate && la < g.nterminal ::
          FindShiftAction(t, s, la) == Code(TerminalAct(rows[s], la), t.nstate, t.nrule))
    && (forall s: nat, A: nat | s < t.nstate && A in rows[s].onNonterminal ::
          HasReduceAction(t, s, A) && FindReduceAction(t, s, A) == Code(rows[s].onNonterminal[A], t.nstate, t.nrule))
  }

  // yyRuleInfo holds the length of a rule in one byte.
  function RuleInfo(g: Grammar): seq<(nat, nat)> {
    seq(|g.rules|, i requires 0 <= i < |g.rules| => (g.rules[i].lhs, |g.rules[i].rhs| % 256))
  }

  ghost predicate ShortRules(g: Grammar) {
    forall rule <- g.rules :: |rule.rhs| < 256
  }

  lemma RuleInfoExact(g: Grammar)
    ensures RuleInfo(g) == seq(|g.rules|, i requires 0 <= i < |g.rules| => (g.rules[i].lhs, |g.rules[i].rhs|))
      <==> ShortRules(g)
  {
    var exact := seq(|g.rules|, i requires 0 <= i < |g.rules| => (g.rules[i].lhs, |g.rules[i].rhs|));
    if RuleInfo(g) == exact {
      forall i | 0 <= i < |g.rules| ensures |g.rules[i].rhs| < 256 { assert RuleInfo(g)[i] == exact[i]; }
    }
    if ShortRules(g) {
      forall i | 0 <= i < |g.rules| ensures RuleInfo(g)[i] == exact[i] { assert g.rules[i] in g.rules; }
    }
  }

  // Every action of the rows is found, and every default is there; look-aheads without an action of their own may be
  // answered wrongly.
  ghost predicate Carries(g: Grammar, t: Tables, rows: seq<StateRow>) {
    && WellSized(t) && t.nstate == |rows| && t.nrule == |g.rules| && t.ruleInfo == RuleInfo(g)
    && (forall s: nat | s < t.nstate :: t.dflt[s] == Code(rows[s].otherwise, t.nstate, t.nrule))
    && (forall s: nat, la: nat | s < t.nstate && la in rows[s].onTerminal ::
          FindShiftAction(t, s, la) == Code(rows[s].onTerminal[la], t.nstate, t.nrule))
    && (forall s: nat, A: nat | s < t.nstate && A in rows[s].onNonterminal ::
          HasReduceAction(t, s, A) && FindReduceAction(t, s, A) == Code(rows[s].onNonterminal[A], t.nstate, t.nrule))
  }

  // ---- the driver on values ----

  // What becomes of one token: shifted, accepted at the end, found wrong, or still reducing when fuel runs out.
  // Reduced asks for another iteration.  Stuck stands for a failing assertion or a read outside the stack.
  datatype TokenResult =
    | Shifted(stack: seq<Entry>) | Reduced(stack: seq<Entry>) | Accepted | SyntaxError(stack: seq<Entry>)
    | OutOfFuel(stack: seq<Entry>) | Stuck

  // One iteration of the do-while loop in Parse for look-ahead la, by rows instead of packed tables.
  ghost function OneStep(g: Grammar, rows: seq<StateRow>, stack: seq<Entry>, la: nat): TokenResult {
    if stack == [] || stack[|stack| - 1].stateno >= |rows| then Stuck
    else
      match TerminalAct(rows[stack[|stack| - 1].stateno], la)
      case Shift(s) => if la == 0 then Stuck else Shifted(stack + [Entry(s, la)])
      case Reduce(r) => ReduceStack(g, rows, stack, r)
      case Error => SyntaxError(stack)
      case Accept => Stuck
  }

  // All iterations for one token.
  ghost function RunToken(g: Grammar, rows: seq<StateRow>, stack: seq<Entry>, la: nat, fuel: nat): TokenResult
    decreases fuel
  {
    if fuel == 0 then OutOfFuel(stack)
    else
      var res := OneStep(g, rows, stack, la);
      if res.Reduced? then RunToken(g, rows, res.stack, la, fuel - 1) else res
  }

  // yy_reduce: pop the right-hand side, push the left-hand side, or accept.
  ghost function ReduceStack(g: Grammar, rows: seq<StateRow>, stack: seq<Entry>, r: nat): TokenResult {
    if r >= |g.rules| || |g.rules[r].rhs| >= |stack| then Stuck
    else
      var popped := stack[..|stack| - |g.rules[r].rhs|];
      var s, A := popped[|popped| - 1].stateno, g.rules[r].lhs;
      if s >= |rows| || A !in rows[s].onNonterminal then Stuck
      else match rows[s].onNonterminal[A]
        case Shift(to) => Reduced(popped + [Entry(to, A)])
        case Accept => Accepted
        case _ => Stuck
  }

  // ---- what the stack says about the input ----

  function Symbols(g: Grammar, stack: seq<Entry>): seq<Symbol> {
    seq(|stack|, i requires 0 <= i < |stack| => SymbolOf(g, stack[i].major))
  }

  // Entry i was pushed by a sound shift from the state below it.
  ghost predicate GoodEntry(g: Grammar, items: seq<set<Item>>, stack: seq<Entry>, i: int) {
    0 < i < |stack| ==>
      && stack[i - 1].stateno < |items|
      && SoundShift(g, items, stack[i - 1].stateno, SymbolOf(g, stack[i].major), stack[i].stateno)
  }

  ghost predicate GoodStack(g: Grammar, items: seq<set<Item>>, stack: seq<Entry>) {
    && |stack| >= 1
    && |items| > 0
    && stack[0].stateno == 0
    && (forall i :: GoodEntry(g, items, stack, i))
  }

  // The stack symbols derive the tokens shifted so far.
  ghost predicate Recognized(g: Grammar, items: seq<set<Item>>, stack: seq<Entry>, shifted: seq<nat>) {
    && GoodStack(g, items, stack)
    && Derives(g, Symbols(g, stack[1..]), Terminals(shifted))
  }

  lemma GoodStackTop(g: Grammar, items: seq<set<Item>>, stack: seq<Entry>)
    requires GoodStack(g, items, stack)
    ensures stack[|stack| - 1].stateno < |items|
  {
    assert GoodEntry(g, items, stack, |stack| - 1);
  }

  lemma GoodPrefix(g: Grammar, items: seq<set<Item>>, stack: seq<Entry>, n: nat)
    requires GoodStack(g, items, stack) && 1 <= n <= |stack|
    ensures GoodStack(g, items, stack[..n])
  {
    forall i ensures GoodEntry(g, items, stack[..n], i) {
      assert GoodEntry(g, items, stack, i);
    }
  }

  lemma GoodPush(g: Grammar, items: seq<set<Item>>, stack: seq<Entry>, e: Entry)
    requires GoodStack(g, items, stack) && stack[|stack| - 1].stateno < |items|
    requires SoundShift(g, items, stack[|stack| - 1].stateno, SymbolOf(g, e.major), e.stateno)
    ensures GoodStack(g, items, stack + [e])
  {
    forall i ensures GoodEntry(g, items, stack + [e], i) {
      assert GoodEntry(g, items, stack, i);
    }
  }

  // An item of the top state tells what the topmost symbols are, and which state its rule was begun in.
  lemma {:induction false} ItemTellsStack(g: Grammar, items: seq<set<Item>>, stack: seq<Entry>, it: Item)
    requires GoodStack(g, items, stack) && (forall i0 <- items[0] :: i0.dot == 0)
    requires stack[|stack| - 1].stateno < |items| && it in items[stack[|stack| - 1].stateno] && ValidItem(g, it)
    ensures it.dot < |stack|
    ensures stack[|stack| - 1 - it.dot].stateno < |items|
    ensures Item(it.rule, 0) in items[stack[|stack| - 1 - it.dot].stateno]
    ensures forall k | 0 <= k < it.dot ::
      Matches(g.rules[it.rule].rhs[k], SymbolOf(g, stack[|stack| - it.dot + k].major))
    decreases it.dot
  {
    if it.dot > 0 {
      var n := |stack| - 1;
      assert GoodEntry(g, items, stack, n);
      GoodPrefix(g, items, stack, n);
      ItemTellsStack(g, items, stack[..n], Item(it.rule, it.dot - 1));
    }
  }

  // Below the symbols of a complete rule is the state the rule was begun in; it has a way on.
  lemma PoppedState(g: Grammar, items: seq<set<Item>>, rows: seq<StateRow>, stack: seq<Entry>, r: nat)
    requires SoundRows(g, items, rows) && GoodStack(g, items, stack)
    requires stack[|stack| - 1].stateno < |items| && SoundReduce(g, items, stack[|stack| - 1].stateno, r)
    ensures |g.rules[r].rhs| < |stack|
    ensures var n := |stack| - |g.rules[r].rhs|;
      && GoodStack(g, items, stack[..n])
      && stack[n - 1].stateno < |items| == |rows|
      && SoundGoto(g, items, stack[n - 1].stateno, rows[stack[n - 1].stateno], g.rules[r].lhs)
      && forall k | 0 <= k < |g.rules[r].rhs| :: Matches(g.rules[r].rhs[k], SymbolOf(g, stack[n + k].major))
  {
    hide SoundTerminalAct, GoodStack, Matches, SoundGoto;
    ItemTellsStack(g, items, stack, Item(r, |g.rules[r].rhs|));
    var n := |stack| - |g.rules[r].rhs|;
    GoodPrefix(g, items, stack, n);
    var s := stack[n - 1].stateno;
    assert SoundRow(g, items, s, rows[s]);
  }

  // A stack whose top state is the first one is empty but for the bottom.
  lemma AtBottom(g: Grammar, items: seq<set<Item>>, stack: seq<Entry>)
    requires GoodStack(g, items, stack) && stack[|stack| - 1].stateno == 0
    ensures |stack| == 1
  {
    assert GoodEntry(g, items, stack, |stack| - 1);
  }

  // A reduction keeps what is recognized; it never gets stuck; an accepting one has the whole input derived
  // from the start symbol.
  lemma ReduceRecognizes(g: Grammar, items: seq<set<Item>>, rows: seq<StateRow>, stack: seq<Entry>, r: nat,
                         shifted: seq<nat>)
    requires SoundRows(g, items, rows) && Recognized(g, items, stack, shifted)
    requires stack[|stack| - 1].stateno < |items| && SoundReduce(g, items, stack[|stack| - 1].stateno, r)
    requires r < |g.rules| && g.IsNonterminal(g.rules[r].lhs)
    ensures match ReduceStack(g, rows, stack, r)
            case Reduced(st) => Recognized(g, items, st, shifted) && g.rules[r].lhs != g.start
            case Accepted => Sentence(g, shifted) && g.rules[r].lhs == g.start
            case _ => false
  {
    hide Derives, Matches, SoundShift, SoundRows, GoodEntry, SoundReduce;
    PoppedState(g, items, rows, stack, r);
    var rule, k := g.rules[r], |stack| - |g.rules[r].rhs|;
    var popped, below, handle := stack[..k], Symbols(g, stack[1..k]), Symbols(g, stack[k..]);
    assert stack[1..] == stack[1..k] + stack[k..];
    assert Symbols(g, stack[1..]) == below + handle;
    HandleFolds(g, rule, below, handle, shifted);
    match rows[popped[k - 1].stateno].onNonterminal[rule.lhs]
    case Shift(to) =>
      var st := popped + [Entry(to, rule.lhs)];
      GoodPush(g, items, popped, Entry(to, rule.lhs));
      assert st[1..] == stack[1..k] + [Entry(to, rule.lhs)];
      assert Symbols(g, st[1..]) == below + [SymbolOf(g, rule.lhs)];
    case Accept =>
      AtBottom(g, items, popped);
      assert below + [N(g.start)] == [N(g.start)];
  }

  // The popped symbols, put back as the left-hand side, derive the same tokens.
  lemma HandleFolds(g: Grammar, rule: Rule, below: seq<Symbol>, handle: seq<Symbol>, shifted: seq<nat>)
    requires rule in g.rules && |handle| == |rule.rhs|
      && forall i :: 0 <= i < |handle| ==> Matches(rule.rhs[i], handle[i])
    requires Derives(g, below + handle, Terminals(shifted))
    ensures Derives(g, below + [N(rule.lhs)], Terminals(shifted))
  {
    hide Derives;
    DerivesMatching(g, rule.rhs, handle);
    assert rule == Rule(rule.lhs, rule.rhs);
    DerivesExpansion(g, N(rule.lhs), rule.rhs);
    DerivesTrans(g, [N(rule.lhs)], rule.rhs, handle);
    DerivesRefl(g, below);
    DerivesConcat(g, below, below, [N(rule.lhs)], handle);
    DerivesTrans(g, below + [N(rule.lhs)], below + handle, Terminals(shifted));
  }

  // What one iteration, or all of them, may do to a parser that has recognized `shifted`: shifting adds the
  // token, an error or a reduction keeps what was recognized, and acceptance happens only on `$` and only when
  // the tokens shifted so far are a sentence.
  ghost predicate Sane(g: Grammar, items: seq<set<Item>>, res: TokenResult, la: nat, shifted: seq<nat>) {
    match res
    case Shifted(st) => la != 0 && Recognized(g, items, st, shifted + [la])
    case Reduced(st) => Recognized(g, items, st, shifted)
    case Accepted => la == 0 && Sentence(g, shifted)
    case SyntaxError(st) => Recognized(g, items, st, shifted)
    case OutOfFuel(st) => Recognized(g, items, st, shifted)
    case Stuck => false
  }

  lemma StepIsSane(g: Grammar, items: seq<set<Item>>, rows: seq<StateRow>, stack: seq<Entry>, la: nat,
                   shifted: seq<nat>)
    requires g.WellFormed() && SoundRows(g, items, rows) && Recognized(g, items, stack, shifted)
    ensures Sane(g, items, OneStep(g, rows, stack, la), la, shifted)
    ensures !OneStep(g, rows, stack, la).OutOfFuel?
  {
    GoodStackTop(g, items, stack);
    var s := stack[|stack| - 1].stateno;
    assert SoundRow(g, items, s, rows[s]);
    assert SoundTerminalAct(g, items, s, la, TerminalAct(rows[s], la));
    match TerminalAct(rows[s], la)
    case Shift(to) => ShiftRecognizes(g, items, stack, Entry(to, la), shifted);
    case Reduce(r) => ReduceRecognizes(g, items, rows, stack, r, shifted);
    case _ =>
  }

  lemma {:induction false} TokenIsSane(g: Grammar, items: seq<set<Item>>, rows: seq<StateRow>,
                                       stack: seq<Entry>, la: nat, fuel: nat, shifted: seq<nat>)
    requires g.WellFormed() && SoundRows(g, items, rows) && Recognized(g, items, stack, shifted)
    ensures Sane(g, items, RunToken(g, rows, stack, la, fuel), la, shifted)
    ensures !RunToken(g, rows, stack, la, fuel).Reduced?
    decreases fuel
  {
    hide OneStep, Recognized, SoundRows, Grammar.WellFormed;
    if fuel != 0 {
      StepIsSane(g, items, rows, stack, la, shifted);
      var res := OneStep(g, rows, stack, la);
      if res.Reduced? { TokenIsSane(g, items, rows, res.stack, la, fuel - 1, shifted); }
    }
  }

  lemma ShiftRecognizes(g: Grammar, items: seq<set<Item>>, stack: seq<Entry>, e: Entry, shifted: seq<nat>)
    requires Recognized(g, items, stack, shifted) && stack[|stack| - 1].stateno < |items|
    requires e.major < g.nterminal && SoundShift(g, items, stack[|stack| - 1].stateno, T(e.major), e.stateno)
    ensures Recognized(g, items, stack + [e], shifted + [e.major])
  {
    GoodPush(g, items, stack, e);
    DerivesRefl(g, [T(e.major)]);
    DerivesConcat(g, Symbols(g, stack[1..]), Terminals(shifted), [T(e.major)], [T(e.major)]);
    assert Symbols(g, (stack + [e])[1..]) == Symbols(g, stack[1..]) + [T(e.major)];
    assert Terminals(shifted + [e.major]) == Terminals(shifted) + [T(e.major)];
  }

  // ---- whole inputs ----

  const BOTTOM := Entry(0, 0)

  // Parsed(kept): accepted, `kept` being the tokens that were not thrown away by syntax errors.
  datatype InputResult = Parsed(kept: seq<nat>) | Failed | Unfinished | Broken

  // The tokens of w, then `$`, each given to Parse.
  ghost function RunInput(g: Grammar, rows: seq<StateRow>, stack: seq<Entry>, w: seq<nat>, kept: seq<nat>,
                          fuel: nat): InputResult
    decreases |w|
  {
    if w == [] then
      match RunToken(g, rows, stack, 0, fuel)
      case Accepted => Parsed(kept)
      case SyntaxError(_) => Failed
      case OutOfFuel(_) => Unfinished
      case _ => Broken
    else
      match RunToken(g, rows, stack, w[0], fuel)
      case Shifted(st) => RunInput(g, rows, st, w[1..], kept + [w[0]], fuel)
      case SyntaxError(st) => RunInput(g, rows, st, w[1..], kept, fuel)
      case OutOfFuel(_) => Unfinished
      case _ => Broken
  }

  // Soundness of whole runs: what is accepted is a sentence.
  lemma {:induction false} InputRecognizes(g: Grammar, items: seq<set<Item>>, rows: seq<StateRow>,
                                           stack: seq<Entry>, w: seq<nat>, kept: seq<nat>, fuel: nat)
    requires g.WellFormed() && SoundRows(g, items, rows) && Recognized(g, items, stack, kept) && 0 !in w
    ensures var res := RunInput(g, rows, stack, w, kept, fuel);
      !res.Broken? && (res.Parsed? ==> Sentence(g, res.kept) && |res.kept| <= |kept| + |w|)
    ensures var res := RunInput(g, rows, stack, w, kept, fuel);
      res.Parsed? && |res.kept| == |kept| + |w| ==> res.kept == kept + w
    decreases |w|
  {
    if w == [] {
      TokenIsSane(g, items, rows, stack, 0, fuel, kept);
      assert kept + w == kept;
    } else {
      TokenIsSane(g, items, rows, stack, w[0], fuel, kept);
      match RunToken(g, rows, stack, w[0], fuel)
      case Shifted(st) =>
        InputRecognizes(g, items, rows, st, w[1..], kept + [w[0]], fuel);
        assert kept + [w[0]] + w[1..] == kept + w;
      case SyntaxError(st) => InputRecognizes(g, items, rows, st, w[1..], kept, fuel);
      case _ =>
    }
  }

  lemma EmptyStackRecognizes(g: Grammar, items: seq<set<Item>>)
    requires |items| > 0
    ensures Recognized(g, items, [BOTTOM], [])
  {
    forall i ensures GoodEntry(g, items, [BOTTOM], i) {}
    assert Symbols(g, [BOTTOM][1..]) == [] == Terminals([]);
    DerivesRefl(g, []);
  }

  // If the generated parser accepts all of w without a syntax error, w is a sentence of the grammar.
  lemma AcceptedIsSentence(g: Grammar, items: seq<set<Item>>, rows: seq<StateRow>, w: seq<nat>, fuel: nat)
    requires g.WellFormed() && SoundRows(g, items, rows) && 0 !in w
    requires RunInput(g, rows, [BOTTOM], w, [], fuel) == Parsed(w)
    ensures Sentence(g, w)
  {
    EmptyStackRecognizes(g, items);
    InputRecognizes(g, items, rows, [BOTTOM], w, [], fuel);
  }

  // w is parsed to the end without a syntax error, given fuel enough.
  ghost predicate Accepts(g: Grammar, rows: seq<StateRow>, w: seq<nat>) {
    exists fuel: nat :: RunInput(g, rows, [BOTTOM], w, [], fuel) == Parsed(w)
  }

  // ---- the parser object ----

  // Crashed, a failing assertion, is never reported.
  datatype ParseEvent = TokenShifted | InputAccepted | TokenDropped | ParseFailed | StillReducing | Crashed

  // An event at which the parser found an error.
  predicate IsError(event: ParseEvent) {
    event == TokenDropped || event == ParseFailed
  }

  // How the error counter moves.
  function CounterAfter(count: int, event: ParseEvent): int {
    if event == TokenShifted then count - 1 else if IsError(event) then 3 else count
  }

  function CounterOver(count: int, events: seq<ParseEvent>): int {
    if events == [] then count else CounterAfter(CounterOver(count, events[..|events| - 1]), events[|events| - 1])
  }

  // The tokens shifted since the last error, or all of them.
  function ShiftsSinceError(events: seq<ParseEvent>): nat {
    if events == [] then 0
    else
      var last := events[|events| - 1];
      if IsError(last) then 0 else ShiftsSinceError(events[..|events| - 1]) + if last == TokenShifted then 1 else 0
  }

  // Whatever happens from the beginning of an input on, the counter asks for the next error to be reported if and only
  // if there was none before, or three tokens have been shifted since the last one.
  lemma {:induction false} ReportsSuppressed(events: seq<ParseEvent>)
    ensures CounterOver(-1, events) <= 0
      <==> (forall event <- events :: !IsError(event)) || ShiftsSinceError(events) >= 3
    ensures CounterOver(-1, events)
      == (if exists event <- events :: IsError(event) then 3 else -1) - ShiftsSinceError(events)
  {
    if events != [] {
      var n := |events| - 1;
      ReportsSuppressed(events[..n]);
      assert events == events[..n] + [events[n]];
    }
  }

  class Parser {
    ghost const g: Grammar
    ghost const items: seq<set<Item>>
    ghost const rows: seq<StateRow>
    const t: Tables
    var yyidx: int
    var yyerrcnt: int
    var yystack: seq<Entry>          // |yystack| is yystksz; yystack[..yyidx + 1] is in use
    ghost var shifted: seq<nat>      // the tokens shifted since the parser was last empty

    ghost predicate TablesSound() {
      g.WellFormed() && SoundRows(g, items, rows) && Represents(g, t, rows)
    }

    ghost predicate Valid()
      reads this
    {
      && TablesSound()
      && -1 <= yyidx < |yystack|
      && |yystack| > 0
      && (yyidx >= 0 ==> Recognized(g, items, Contents(), shifted))
    }

    ghost function Contents(): seq<Entry>
      requires -1 <= yyidx < |yystack|
      reads this
    {
      yystack[..yyidx + 1]
    }

    // ParseAlloc
    constructor (t: Tables, ghost g: Grammar, ghost items: seq<set<Item>>, ghost rows: seq<StateRow>)
      requires g.WellFormed() && SoundRows(g, items, rows) && Represents(g, t, rows)
      ensures Valid() && yyidx == -1
      ensures this.t == t && this.g == g && this.items == items && this.rows == rows
    {
      this.t, this.g, this.items, this.rows := t, g, items, rows;
      yyidx, yyerrcnt := -1, 0;
      yystack := seq(100, _ => BOTTOM);
      shifted := [];
    }

    // yyGrowStack
    method GrowStack()
      modifies this`yystack
      ensures |yystack| == 2 * |old(yystack)| + 100 && yystack[..|old(yystack)|] == old(yystack)
    {
      yystack := yystack + seq(|yystack| + 100, _ => BOTTOM);
    }

    // yy_shift
    method PushState(stateno: nat, major: nat)
      requires -1 <= yyidx < |yystack|
      modifies this`yyidx, this`yystack
      ensures 0 <= yyidx < |yystack|
      ensures Contents() == old(Contents()) + [Entry(stateno, major)]
    {
      ghost var before := Contents();
      yyidx := yyidx + 1;
      if yyidx >= |yystack| { GrowStack(); }
      assert yystack[..yyidx] == before;
      yystack := yystack[yyidx := Entry(stateno, major)];
    }
  
    // Pops everything, as yy_accept and yy_parse_failed do.
    method PopAll()
      requires -1 <= yyidx < |yystack|
      modifies this`yyidx
      ensures yyidx == -1
    {
      while yyidx >= 0
        invariant -1 <= yyidx < |yystack|
      {
        yyidx := yyidx - 1;
      }
    }

    // yy_reduce
    method ReduceBy(r: nat) returns (accepted: bool)
      requires Valid() && yyidx >= 0 && yystack[yyidx].stateno < |items|
        && SoundReduce(g, items, yystack[yyidx].stateno, r)
      modifies this`yyidx, this`yystack
      ensures -1 <= yyidx < |yystack| && 0 < |yystack|
      ensures ReduceStack(g, rows, old(Contents()), r) == if accepted then Accepted else Reduced(Contents())
      ensures accepted <==> yyidx == -1
    {
      ghost var before := Contents();
      ReducedRow(g, items, t, rows, before, r);
      var (lhs, size) := t.ruleInfo[r];
      yyidx := yyidx - size;
      assert Contents() == before[..|before| - size];
      var act := FindReduceAction(t, yystack[yyidx].stateno, lhs);
      if act < t.nstate {
        PushState(act, lhs);
        accepted := false;
      } else {
        assert act == t.nstate + t.nrule + 1;
        PopAll();
        accepted := true;
      }
    }

    // (Re)initialisation at the head of Parse.
    method Begin()
      requires Valid()
      modifies this
      ensures Valid() && yyidx >= 0
      ensures old(yyidx) >= 0 ==> Contents() == old(Contents()) && shifted == old(shifted) && yyerrcnt == old(yyerrcnt)
      ensures old(yyidx) < 0 ==> Contents() == [BOTTOM] && shifted == [] && yyerrcnt == -1
    {
      if yyidx < 0 {
        yyidx := 0;
        yyerrcnt := -1;
        yystack := yystack[0 := BOTTOM];
        shifted := [];
        assert Contents() == [BOTTOM];
        EmptyStackRecognizes(g, items);
      }
    }

    // The error branch of Parse for a parser without an error symbol: report unless three tokens have not been
    // shifted since the last report, throw the token away, give up at the end of the input.
    method HandleError(yymajor: nat) returns (reported: bool)
      requires -1 <= yyidx < |yystack|
      modifies this`yyidx, this`yyerrcnt
      ensures reported <==> old(yyerrcnt) <= 0
      ensures yyerrcnt == 3 && yyidx == if yymajor == 0 then -1 else old(yyidx)
    {
      reported := yyerrcnt <= 0;
      yyerrcnt := 3;
      if yymajor == 0 { PopAll(); }
    }

    // What a caller can see after a call.
    ghost function Seen(event: ParseEvent): Report
      requires -1 <= yyidx < |yystack|
      reads this
    {
      Report(event, Contents(), shifted)
    }

    // One iteration of the loop in Parse.
    method Iterate(yymajor: nat) returns (event: ParseEvent, reported: bool)
      requires Valid() && yyidx >= 0 && yymajor < g.nterminal
      modifies this
      ensures Valid() && Seen(event) == ReportOf(OneStep(g, rows, old(Contents()), yymajor), yymajor, old(shifted))
      ensures yyerrcnt == CounterAfter(old(yyerrcnt), event) && (reported <==> IsError(event) && old(yyerrcnt) <= 0)
    {
      hide Derives, GoodEntry, SoundRows, Sentence, Follows, SoundReduce;
      ghost var before := Contents();
      GoodStackTop(g, items, before);
      StepIsSane(g, items, rows, before, yymajor, shifted);
      ActDecodes(g, items, t, rows, yystack[yyidx].stateno, yymajor);
      var act := FindShiftAction(t, yystack[yyidx].stateno, yymajor);
      if act < t.nstate {
        PushState(act, yymajor);
        shifted := shifted + [yymajor];
        yyerrcnt := yyerrcnt - 1;
        return TokenShifted, false;
      } else if act < t.nstate + t.nrule {
        var accepted := ReduceBy(act - t.nstate);
        return if accepted then InputAccepted else StillReducing, false;
      } else {
        assert act == t.nstate + t.nrule;
        reported := HandleError(yymajor);
        event := if yymajor == 0 then ParseFailed else TokenDropped;
      }
    }

    // One token given to the parser; the loop of Parse is cut off after `fuel` iterations.
    // What happens is what the rows say: the new stack and what is reported are those of RunToken.
    method Parse(yymajor: nat, fuel: nat) returns (event: ParseEvent, reported: bool)
      requires Valid() && yymajor < g.nterminal
      modifies this
      ensures Valid() && event != Crashed
      ensures old(yyidx) >= 0 ==>
        Seen(event) == ReportOf(RunToken(g, rows, old(Contents()), yymajor, fuel), yymajor, old(shifted))
      ensures old(yyidx) < 0 ==> Seen(event) == ReportOf(RunToken(g, rows, [BOTTOM], yymajor, fuel), yymajor, [])
      ensures event == InputAccepted ==> yymajor == 0 && Sentence(g, shifted)
      ensures var count := if old(yyidx) < 0 then -1 else old(yyerrcnt);
        yyerrcnt == CounterAfter(count, event) && (reported <==> IsError(event) && count <= 0)
    {
      Begin();
      TokenIsSane(g, items, rows, Contents(), yymajor, fuel, shifted);
      event, reported := Loop(yymajor, fuel);
    }

    // What the caller of a parser does: Parse is called with each token of w, then with 0 for the end of the input.
    method ParseInput(w: seq<nat>, fuel: nat) returns (accepted: bool)
      requires Valid() && yyidx < 0 && forall x <- w :: 0 < x < g.nterminal
      modifies this
      ensures Valid()
      ensures accepted <==> RunInput(g, rows, [BOTTOM], w, [], fuel) == Parsed(w)
    {
      hide RunToken, RunInput, ReportOf, SoundRows, Represents, Recognized;
      Begin();
      ghost var stack := Contents();
      var i := 0;
      assert w[..0] == [] && w[0..] == w;
      while i < |w|
        invariant i <= |w| && Valid() && yyidx >= 0 && Contents() == stack && shifted == w[..i]
          && Recognized(g, items, stack, shifted)
        invariant RunInput(g, rows, [BOTTOM], w, [], fuel) == RunInput(g, rows, stack, w[i..], w[..i], fuel)
      {
        FeedStep(g, items, rows, stack, w, i, fuel);
        assert w[i] in w;
        var event, reported := Parse(w[i], fuel);
        if event != TokenShifted { return false; }
        stack := Contents();
        i := i + 1;
      }
      FeedEnd(g, rows, stack, w, fuel);
      assert w[i..] == [] && w[..i] == w;
      var event, reported := Parse(0, fuel);
      accepted := event == InputAccepted;
    }

    // do { ... } while( yymajor!=YYNOCODE && yypParser->yyidx>=0 )
    method Loop(yymajor: nat, fuel: nat) returns (event: ParseEvent, reported: bool)
      requires Valid() && yyidx >= 0 && yymajor < g.nterminal
      modifies this
      ensures Valid() && Seen(event) == ReportOf(RunToken(g, rows, old(Contents()), yymajor, fuel), yymajor,
        old(shifted))
      ensures yyerrcnt == CounterAfter(old(yyerrcnt), event) && (reported <==> IsError(event) && old(yyerrcnt) <= 0)
    {
      hide RunToken, OneStep, ReportOf;
      ghost var whole := ReportOf(RunToken(g, rows, Contents(), yymajor, fuel), yymajor, shifted);
      event, reported := StillReducing, false;
      var n := fuel;
      while n > 0 && event == StillReducing
        invariant 0 <= n <= fuel && Valid()
        invariant if event == StillReducing then yyidx >= 0
          && ReportOf(RunToken(g, rows, Contents(), yymajor, n), yymajor, shifted) == whole
                  else Seen(event) == whole
        invariant yyerrcnt == CounterAfter(old(yyerrcnt), event)
        invariant reported <==> IsError(event) && old(yyerrcnt) <= 0
      {
        RunTokenUnfolds(g, rows, Contents(), yymajor, n, shifted);
        event, reported := Iterate(yymajor);
        n := n - 1;
      }
      if event == StillReducing { RunTokenEnds(g, rows, Contents(), yymajor, n, shifted); }
    }
  }

  // What happened to a token, the stack afterwards, and the tokens shifted up to then.
  datatype Report = Report(event: ParseEvent, stack: seq<Entry>, shifted: seq<nat>)

  // How the parser reports what happened to token la.
  ghost function ReportOf(res: TokenResult, la: nat, before: seq<nat>): Report {
    match res
    case Shifted(st) => Report(TokenShifted, st, before + [la])
    case Reduced(st) => Report(StillReducing, st, before)
    case Accepted => Report(InputAccepted, [], before)
    case SyntaxError(st) => if la == 0 then Report(ParseFailed, [], before) else Report(TokenDropped, st, before)
    case OutOfFuel(st) => Report(StillReducing, st, before)
    case Stuck => Report(Crashed, [], before)
  }

  // One token of the input: it is shifted, or the input is never parsed in full.
  lemma FeedStep(g: Grammar, items: seq<set<Item>>, rows: seq<StateRow>, stack: seq<Entry>, w: seq<nat>, i: nat,
                 fuel: nat)
    requires g.WellFormed() && SoundRows(g, items, rows) && i < |w| && Recognized(g, items, stack, w[..i])
      && forall x <- w :: 0 < x
    ensures var rep := ReportOf(RunToken(g, rows, stack, w[i], fuel), w[i], w[..i]);
      if rep.event == TokenShifted
      then |rep.stack| > 0 && rep.shifted == w[..i + 1] && Recognized(g, items, rep.stack, rep.shifted)
           && RunInput(g, rows, stack, w[i..], w[..i], fuel)
               == RunInput(g, rows, rep.stack, w[i + 1..], w[..i + 1], fuel)
      else RunInput(g, rows, stack, w[i..], w[..i], fuel) != Parsed(w)
  {
    hide SoundRows, RunToken;
    assert w[i] in w && w[i..][1..] == w[i + 1..] && w[..i] + [w[i]] == w[..i + 1];
    TokenIsSane(g, items, rows, stack, w[i], fuel, w[..i]);
    match RunToken(g, rows, stack, w[i], fuel)
    case SyntaxError(st) =>
      PositiveSuffix(w, i + 1);
      InputRecognizes(g, items, rows, st, w[i + 1..], w[..i], fuel);
    case _ =>
  }

  lemma PositiveSuffix(w: seq<nat>, i: nat)
    requires i <= |w| && forall x <- w :: 0 < x
    ensures 0 !in w[i..]
  {
    forall x | x in w[i..] ensures x in w && 0 < x {}
  }

  lemma FeedEnd(g: Grammar, rows: seq<StateRow>, stack: seq<Entry>, w: seq<nat>, fuel: nat)
    ensures ReportOf(RunToken(g, rows, stack, 0, fuel), 0, w).event == InputAccepted
      <==> RunInput(g, rows, stack, [], w, fuel) == Parsed(w)
  {
  }

  lemma RunTokenEnds(g: Grammar, rows: seq<StateRow>, stack: seq<Entry>, la: nat, n: nat, before: seq<nat>)
    requires n == 0
    ensures ReportOf(RunToken(g, rows, stack, la, n), la, before) == Report(StillReducing, stack, before)
  {
  }

  lemma RunTokenUnfolds(g: Grammar, rows: seq<StateRow>, stack: seq<Entry>, la: nat, n: nat, before: seq<nat>)
    requires n > 0
    ensures var one := ReportOf(OneStep(g, rows, stack, la), la, before);
      ReportOf(RunToken(g, rows, stack, la, n), la, before)
      == if one.event == StillReducing then ReportOf(RunToken(g, rows, one.stack, la, n - 1), la, one.shifted) else one
    ensures ReportOf(OneStep(g, rows, stack, la), la, before).event == StillReducing ==>
      ReportOf(OneStep(g, rows, stack, la), la, before).stack != []
  {
  }

  // The number read from the tables is below nstate, below nstate + nrule or the error code just as the row has a
  // shift, a reduction or an error; the assertions of Parse hold.
  lemma ActDecodes(g: Grammar, items: seq<set<Item>>, t: Tables, rows: seq<StateRow>, s: nat, la: nat)
    requires SoundRows(g, items, rows) && Represents(g, t, rows) && s < |items| && la < g.nterminal
    ensures var code := FindShiftAction(t, s, la);
      match TerminalAct(rows[s], la)
      case Shift(to) => code == to < t.nstate && la != 0 && SoundShift(g, items, s, T(la), to)
      case Reduce(r) => code == r + t.nstate && r < t.nrule && SoundReduce(g, items, s, r)
                        && (g.rules[r].lhs == g.start ==> la == 0)
      case Error => code == t.nstate + t.nrule
      case Accept => false
  {
    assert SoundRow(g, items, s, rows[s]);
    assert SoundTerminalAct(g, items, s, la, TerminalAct(rows[s], la));
  }

  lemma GotoTarget(g: Grammar, items: seq<set<Item>>, rows: seq<StateRow>, s: nat, A: nat)
    requires s < |items| == |rows| && SoundGoto(g, items, s, rows[s], A)
    ensures rows[s].onNonterminal[A].Shift? ==> rows[s].onNonterminal[A].state < |items|
  {
  }

  // The state uncovered by a reduction has an action on the left-hand side, and the tables have it too.
  lemma ReducedRow(g: Grammar, items: seq<set<Item>>, t: Tables, rows: seq<StateRow>, stack: seq<Entry>, r: nat)
    requires SoundRows(g, items, rows) && Represents(g, t, rows)
    requires GoodStack(g, items, stack) && stack[|stack| - 1].stateno < |items|
    requires SoundReduce(g, items, stack[|stack| - 1].stateno, r)
    ensures t.ruleInfo[r] == (g.rules[r].lhs, |g.rules[r].rhs|) && |g.rules[r].rhs| < |stack|
    ensures var s, A := stack[|stack| - 1 - |g.rules[r].rhs|].stateno, g.rules[r].lhs;
      && s < |items| && A in rows[s].onNonterminal && HasReduceAction(t, s, A)
      && match rows[s].onNonterminal[A]
         case Shift(to) => FindReduceAction(t, s, A) == to < t.nstate
         case Accept => FindReduceAction(t, s, A) == t.nstate + t.nrule + 1
         case _ => false
  {
    hide GoodStack, SoundRows, SoundShift, Matches;
    PoppedState(g, items, rows, stack, r);
    GotoTarget(g, items, rows, stack[|stack| - 1 - |g.rules[r].rhs|].stateno, g.rules[r].lhs);
  }
}

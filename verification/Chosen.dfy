/** The defaults that CompressTables chooses, in terms of the rows: a most frequent reduction of every state. */
module Chosen {
  import opened Options
  import opened Grammars
  import opened Automata
  import opened ActionLists
  import opened Resolve
  import opened Compress
  import opened Emission

  // The tokens that the row reduces by the rule on.
  ghost function ReducingTokens(row: StateRow, r: nat): set<nat> {
    set t <- row.onTerminal | row.onTerminal[t] == Reduce(r)
  }

  ghost function TimesReduced(row: StateRow, r: nat): nat {
    |ReducingTokens(row, r)|
  }

  // The row reduces by the one rule on a token below all those on which it reduces by the other.
  ghost predicate ReducesBefore(row: StateRow, r: nat, other: nat) {
    exists t <- ReducingTokens(row, r) :: forall u <- ReducingTokens(row, other) :: t < u
  }

  // What is left on the tokens once a rule is the default.
  ghost function LeftBy(row: StateRow, best: nat): map<nat, Act> {
    map t <- row.onTerminal | row.onTerminal[t] != Reduce(best) :: row.onTerminal[t]
  }

  // The default of the row is a rule that none is reduced by more often, the first of those as frequent, and takes the
  // place of its reductions; unless there are start rules only.
  ghost predicate ChosenFrom(g: Grammar, plain: StateRow, row: StateRow) {
    match row.otherwise
    case Reduce(best) =>
      && row.onTerminal == LeftBy(plain, best) && !IsStartRule(g, best) && TimesReduced(plain, best) > 0
      && (forall r: nat | !IsStartRule(g, r) :: TimesReduced(plain, r) <= TimesReduced(plain, best))
      && forall r: nat | !IsStartRule(g, r) && r != best && TimesReduced(plain, r) == TimesReduced(plain, best) ::
           ReducesBefore(plain, best, r)
    case _ => row == plain && forall r: nat | !IsStartRule(g, r) :: TimesReduced(plain, r) == 0
  }

  ghost predicate DefaultsChosen(g: Grammar, plain: seq<StateRow>, rows: seq<StateRow>) {
    |plain| == |rows| && forall k: nat | k < |rows| :: ChosenFrom(g, plain[k], rows[k])
  }

  ghost function ReducedOn(ap: seq<Action>, r: nat): set<nat> {
    set a <- ap | IsReduceBy(a, r) :: a.sp
  }

  lemma TailDeterministic(ap: seq<Action>)
    requires ap != [] && Deterministic(ap)
    ensures Deterministic(ap[1..])
    ensures forall a <- ap[1..] | Live(a) && Live(ap[0]) :: a.sp != ap[0].sp
  {
    var rest := ap[1..];
    forall i, j | 0 <= i < j < |rest| && Live(rest[i]) && Live(rest[j]) ensures rest[i].sp != rest[j].sp {
      assert rest[i] == ap[i + 1] && rest[j] == ap[j + 1];
    }
    forall a | a in rest && Live(a) && Live(ap[0]) ensures a.sp != ap[0].sp {
      var i :| 0 <= i < |rest| && rest[i] == a;
      assert ap[i + 1] == a;
    }
  }

  lemma {:induction false} FrequencyCounts(ap: seq<Action>, r: nat)
    requires Deterministic(ap)
    ensures Frequency(ap, r) == |ReducedOn(ap, r)|
  {
    hide Deterministic;
    if ap == [] {
      assert ReducedOn(ap, r) == {};
    } else {
      var rest := ap[1..];
      assert ap == [ap[0]] + rest;
      TailDeterministic(ap);
      FrequencyCounts(rest, r);
      if IsReduceBy(ap[0], r) {
        assert ReducedOn(ap, r) == ReducedOn(rest, r) + {ap[0].sp};
        assert ap[0].sp !in ReducedOn(rest, r);
      } else {
        assert ReducedOn(ap, r) == ReducedOn(rest, r);
      }
    }
  }

  lemma OnNonterminal(g: Grammar, ap: seq<Action>, num: seq<nat>, A: nat)
    ensures g.nterminal <= A < g.nsymbol && Explicit(ap, A).Some? ==>
      A in RowOf(g, ap, num).onNonterminal && (Explicit(ap, A).value.Reduce? ==>
        RowOf(g, ap, num).onNonterminal[A].Reduce?)
  {
    hide Explicit;
  }

  // The row of a list counts as the list does.
  lemma RowCounts(g: Grammar, ap: seq<Action>, num: seq<nat>, r: nat)
    requires Deterministic(ap) && forall a <- ap :: a.sp < g.nsymbol
    requires forall A <- RowOf(g, ap, num).onNonterminal :: !RowOf(g, ap, num).onNonterminal[A].Reduce?
    ensures ReducingTokens(RowOf(g, ap, num), r) == ReducedOn(ap, r)
    ensures TimesReduced(RowOf(g, ap, num), r) == Frequency(ap, r)
  {
    hide Deterministic, Explicit, Frequency;
    var row := RowOf(g, ap, num);
    FrequencyCounts(ap, r);
    forall t: nat ensures t in row.onTerminal && row.onTerminal[t] == Reduce(r) <==> t in ReducedOn(ap, r) {
      ExplicitMeans(ap, t);
      if t in ReducedOn(ap, r) {
        var a :| a in ap && IsReduceBy(a, r) && a.sp == t;
        assert Explicit(ap, t) == Some(Reduce(r));
        OnNonterminal(g, ap, num, t);
      }
    }
    assert ReducingTokens(row, r) == ReducedOn(ap, r);
  }

  // What stands first in the list is on a lower token.
  lemma LeadsBefore(g: Grammar, ap: seq<Action>, num: seq<nat>, nbest: nat, best: nat, r: nat)
    requires Deterministic(ap) && Ascending(ap) && forall a <- ap :: a.sp < g.nsymbol
    requires forall A <- RowOf(g, ap, num).onNonterminal :: !RowOf(g, ap, num).onNonterminal[A].Reduce?
    requires FirstOfBest(g, ap, |ap|, nbest, best) && !IsStartRule(g, r) && r != best && Frequency(ap, r) == nbest
    ensures ReducesBefore(RowOf(g, ap, num), best, r)
  {
    hide Frequency, RowOf, IsStartRule, ReducingTokens;
    RowCounts(g, ap, num, best);
    RowCounts(g, ap, num, r);
    var b: nat :| LeadsAt(g, ap, |ap|, nbest, best, b);
    assert ap[b] in ap && ap[b].sp in ReducedOn(ap, best);
    forall u | u in ReducedOn(ap, r) ensures ap[b].sp < u {
      var a :| a in ap && IsReduceBy(a, r) && a.sp == u;
      var j: nat :| j < |ap| && ap[j] == a;
      assert b < j && Live(ap[b]) && Live(ap[j]);
    }
  }

  lemma TokensLeft(g: Grammar, ap0: seq<Action>, ap: seq<Action>, num: seq<nat>, best: nat)
    requires CompressedBy(ap0, ap, best, g.nsymbol) && g.nterminal <= g.nsymbol
    ensures RowOf(g, ap, num).onTerminal == LeftBy(RowOf(g, ap0, num), best)
  {
    hide Explicit, Deterministic;
    var before, after := RowOf(g, ap0, num), RowOf(g, ap, num);
    forall t: nat | t < g.nterminal
      ensures t in after.onTerminal <==> t in before.onTerminal && before.onTerminal[t] != Reduce(best)
      ensures t in after.onTerminal ==> after.onTerminal[t] == before.onTerminal[t]
    {
      assert Explicit(ap, t) == if Explicit(ap0, t) == Some(Reduce(best)) then None else Explicit(ap0, t);
    }
    assert after.onTerminal == LeftBy(before, best);
  }

  // The row of a list after compression.
  lemma RowChosen(g: Grammar, ap0: seq<Action>, ap: seq<Action>, num: seq<nat>)
    requires CompressedWith(g, None, ap0, ap, g.nsymbol)
    requires Deterministic(ap0) && NoDefaultYet(ap0, g.nsymbol) && forall a <- ap0 :: a.sp < g.nsymbol
    requires Ascending(ap0) && g.nterminal <= g.nsymbol
    requires forall A <- RowOf(g, ap0, num).onNonterminal :: !RowOf(g, ap0, num).onNonterminal[A].Reduce?
    ensures ChosenFrom(g, RowOf(g, ap0, num), RowOf(g, ap, num))
  {
    hide Deterministic, Explicit, Frequency, IsStartRule, RowOf, Ascending, FirstOfBest, ReducesBefore, TimesReduced;
    forall r: nat { RowCounts(g, ap0, num, r); }
    forall r: nat { FrequencyPositive(ap0, r); }
    DefaultOf(g, ap, num);
    ExplicitMeans(ap0, g.nsymbol);
    forall nbest: nat, best: nat, r: nat | FirstOfBest(g, ap0, |ap0|, nbest, best) && !IsStartRule(g, r) && r != best
        && Frequency(ap0, r) == nbest
      ensures ReducesBefore(RowOf(g, ap0, num), best, r)
    {
      LeadsBefore(g, ap0, num, nbest, best, r);
    }
    if LeftAlone(g, ap0, None) {
      forall r: nat | !IsStartRule(g, r) ensures Frequency(ap0, r) == 0 {
        forall a | a in ap0 ensures !IsReduceBy(a, r) { if a.kind == REDUCE { assert IsStartRule(g, a.x); } }
      }
    } else {
      forall best: nat | CompressedBy(ap0, ap, best, g.nsymbol) {
        TokensLeft(g, ap0, ap, num, best);
      }
    }
  }

  lemma DefaultOf(g: Grammar, ap: seq<Action>, num: seq<nat>)
    ensures RowOf(g, ap, num).otherwise == DefaultAct(g, ap)
  {
  }
}

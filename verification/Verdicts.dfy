/** Who wins a look-ahead, and which losers are reported, in terms of the rules and their precedences. */
module Verdicts {
  import opened Options
  import opened ActionLists
  import opened Resolve

  // ---- by precedence ----

  // The rule takes a look-ahead t away from a shift.
  predicate Beats(p: Precedences, t: nat, r: nat) {
    && p.Prec(t) >= 0 && p.RulePrec(r) >= 0
    && (p.RulePrec(r) > p.Prec(t) || (p.RulePrec(r) == p.Prec(t) && p.AssocOf(t) == LEFT))
  }

  // The first of the rules has no precedence.
  ghost predicate FirstUnranked(p: Precedences, rules: set<nat>) {
    exists f <- rules :: p.RulePrec(f) < 0 && forall r <- rules :: f <= r
  }

  // The rule that goes before the others: the first one of the highest precedence.  A first rule without precedence
  // goes before all, unless it was not the first to speak, because there was a shift.
  ghost predicate Foremost(p: Precedences, shifted: bool, rules: set<nat>, r: nat) {
    if !shifted && FirstUnranked(p, rules) then forall r' <- rules :: r <= r'
    else forall r' <- rules :: p.RulePrec(r') < p.RulePrec(r) || (p.RulePrec(r') == p.RulePrec(r) && r <= r')
  }

  // What prevails on t where these rules can be reduced by and, if `shifted`, t can be shifted: the shift if no rule
  // beats it, and the foremost rule otherwise.
  ghost predicate Prevails(p: Precedences, t: nat, shifted: bool, rules: set<nat>, winner: Option<nat>) {
    match winner
    case None => shifted && forall r <- rules :: !Beats(p, t, r)
    case Some(r) =>
      r in rules && (shifted ==> exists r' <- rules :: Beats(p, t, r')) && Foremost(p, shifted, rules, r)
  }

  // Precedences do not decide between the rule and the shift, or another rule.
  predicate Undecided(p: Precedences, t: nat, other: Option<nat>, r: nat) {
    match other
    case None =>
      || p.Prec(t) < 0 || p.RulePrec(r) < 0
      || (p.RulePrec(r) == p.Prec(t) && p.AssocOf(t) != LEFT && p.AssocOf(t) != RIGHT)
    case Some(c) => p.RulePrec(c) < 0 || p.RulePrec(r) < 0 || p.RulePrec(r) == p.RulePrec(c)
  }

  ghost function Earlier(rules: set<nat>, r: nat): set<nat> {
    set r' <- rules | r' < r
  }

  // A conflict is reported: precedences do not decide between the rule and what prevails among the shift and the
  // earlier rules.
  ghost predicate Disputed(p: Precedences, t: nat, shifted: bool, rules: set<nat>, r: nat) {
    exists other :: Prevails(p, t, shifted, Earlier(rules, r), other) && Undecided(p, t, other, r)
  }

  // ---- one winner ----

  lemma OnePrevails(p: Precedences, t: nat, shifted: bool, rules: set<nat>, a: Option<nat>, b: Option<nat>)
    requires Prevails(p, t, shifted, rules, a) && Prevails(p, t, shifted, rules, b)
    ensures a == b
  {
  }

  // Between a shift and one rule.
  lemma ShiftOrRule(p: Precedences, t: nat, r: nat)
    requires p.Declared()
    ensures Prevails(p, t, true, {r}, None) <==>
      || p.Prec(t) < 0 || p.RulePrec(r) < 0 || p.Prec(t) > p.RulePrec(r)
      || (p.Prec(t) == p.RulePrec(r) && (p.AssocOf(t) == RIGHT || p.AssocOf(t) == NONE))
    ensures Prevails(p, t, true, {r}, Some(r)) <==>
      p.Prec(t) >= 0 && p.RulePrec(r) >= 0
      && (p.Prec(t) < p.RulePrec(r) || (p.Prec(t) == p.RulePrec(r) && p.AssocOf(t) == LEFT))
  {
    assert r in {r};
  }

  // Between two rules.
  lemma RuleOrRule(p: Precedences, t: nat, r: nat, r': nat)
    requires r < r'
    ensures Prevails(p, t, false, {r, r'}, Some(r')) <==> p.RulePrec(r) >= 0 && p.RulePrec(r') > p.RulePrec(r)
    ensures Prevails(p, t, false, {r, r'}, Some(r)) <==> p.RulePrec(r) < 0 || p.RulePrec(r') <= p.RulePrec(r)
  {
    assert r in {r, r'} && r' in {r, r'};
  }

  lemma {:induction false} FirstOf(rules: set<nat>) returns (f: nat)
    requires rules != {}
    ensures f in rules && forall r <- rules :: f <= r
    decreases |rules|
  {
    var some :| some in rules;
    var rest := rules - {some};
    assert rules == rest + {some};
    f := some;
    if rest != {} {
      var least := FirstOf(rest);
      if least < some { f := least; }
    }
  }

  // Without precedences the shift wins, or else the first rule, and all other rules are reported.
  lemma WithoutPrecedences(p: Precedences, t: nat, shifted: bool, rules: set<nat>)
    requires p.Undeclared()
    ensures Prevails(p, t, shifted, rules, None) <==> shifted
    ensures forall r: nat :: Prevails(p, t, shifted, rules, Some(r)) <==>
      !shifted && r in rules && forall r' <- rules :: r <= r'
    ensures forall r: nat | r in rules :: Disputed(p, t, shifted, rules, r) <==> shifted || exists r' <- rules :: r' < r
  {
    hide Foremost;
    forall r: nat { UnrankedPrevails(p, t, shifted, rules, r); }
    forall r: nat | r in rules
      ensures Disputed(p, t, shifted, rules, r) <==> shifted || exists r' <- rules :: r' < r
    {
      UnrankedDisputed(p, t, shifted, rules, r);
    }
  }

  lemma UnrankedPrevails(p: Precedences, t: nat, shifted: bool, rules: set<nat>, r: nat)
    requires p.Undeclared()
    ensures Prevails(p, t, shifted, rules, None) <==> shifted
    ensures Prevails(p, t, shifted, rules, Some(r)) <==> !shifted && r in rules && forall r' <- rules :: r <= r'
  {
    assert p.RulePrec(r) < 0;
    if rules != {} {
      var f := FirstOf(rules);
      assert p.RulePrec(f) < 0 && FirstUnranked(p, rules);
    }
  }

  lemma UnrankedDisputed(p: Precedences, t: nat, shifted: bool, rules: set<nat>, r: nat)
    requires p.Undeclared() && r in rules
    ensures Disputed(p, t, shifted, rules, r) <==> shifted || exists r' <- rules :: r' < r
  {
    hide Foremost, FirstUnranked;
    var earlier := Earlier(rules, r);
    UnrankedPrevails(p, t, shifted, earlier, r);
    assert forall r' <- rules | r' < r :: r' in earlier;
    assert p.RulePrec(r) < 0;
    if shifted {
      assert Prevails(p, t, shifted, earlier, None) && Undecided(p, t, None, r);
    } else if earlier != {} {
      var f := FirstOf(earlier);
      UnrankedPrevails(p, t, shifted, earlier, f);
      assert Prevails(p, t, shifted, earlier, Some(f)) && Undecided(p, t, Some(f), r);
    } else {
      forall other ensures !Prevails(p, t, shifted, earlier, other) {
        if other.Some? { UnrankedPrevails(p, t, shifted, earlier, other.value); }
      }
    }
  }

  // ---- the knock-out ----

  // Shifts, then reductions by later and later rules, all on one look-ahead.
  ghost predicate Lined(ap: seq<Action>, lo: nat, hi: nat) {
    && lo < hi <= |ap|
    && (forall i | lo <= i < hi :: ap[i].sp == ap[lo].sp && (ap[i].kind == SHIFT || ap[i].kind == REDUCE))
    && (forall i, j | lo <= i < j < hi && ap[i].kind == REDUCE :: ap[j].kind == REDUCE && ap[i].x < ap[j].x)
  }

  ghost function RulesIn(ap: seq<Action>, lo: nat, hi: nat): set<nat> {
    set i | lo <= i < hi && i < |ap| && ap[i].kind == REDUCE :: ap[i].x
  }

  function WinnerOf(a: Action): Option<nat> {
    if a.kind == REDUCE then Some(a.x) else None
  }

  // The one left by the knock-out of the first actions is the one that prevails among them.
  lemma {:induction false} ChampionPrevails(p: Precedences, ap: seq<Action>, lo: nat, hi: nat, k: nat)
    requires Lined(ap, lo, hi) && lo < k <= hi
    ensures var c := Champion(p, ap, lo, k);
      && Prevails(p, ap[lo].sp, ap[lo].kind == SHIFT, RulesIn(ap, lo, k), WinnerOf(ap[c]))
      && (ap[c].kind == SHIFT ==> c == lo)
    decreases k
  {
    hide Prevails, FirstWins, RulesIn;
    var t, shifted := ap[lo].sp, ap[lo].kind == SHIFT;
    OneRuleMore(ap, lo, hi, k - 1);
    if k == lo + 1 {
      if shifted {
        assert RulesIn(ap, lo, k) == {};
        NothingBeats(p, t);
      } else {
        assert RulesIn(ap, lo, k) == {ap[lo].x};
        OnlyRule(p, t, ap[lo].x);
      }
    } else {
      var c, y := Champion(p, ap, lo, k - 1), ap[k - 1];
      ChampionPrevails(p, ap, lo, hi, k - 1);
      if y.kind == SHIFT {
        ShiftKeeps(p, ap[c], y);
      } else {
        NextRule(p, t, shifted, RulesIn(ap, lo, k - 1), ap[c], y);
      }
    }
  }

  lemma OneRuleMore(ap: seq<Action>, lo: nat, hi: nat, j: nat)
    requires Lined(ap, lo, hi) && lo <= j < hi
    ensures RulesIn(ap, lo, lo) == {} && (ap[j].kind == REDUCE ==> forall r <- RulesIn(ap, lo, j) :: r < ap[j].x)
    ensures RulesIn(ap, lo, j + 1)
      == if ap[j].kind == REDUCE then RulesIn(ap, lo, j) + {ap[j].x} else RulesIn(ap, lo, j)
  {
  }

  lemma ShiftKeeps(p: Precedences, x: Action, y: Action)
    requires x.kind == SHIFT && y.kind == SHIFT
    ensures FirstWins(p, x, y)
  {
  }

  lemma NothingBeats(p: Precedences, t: nat)
    ensures Prevails(p, t, true, {}, None)
  {
  }

  lemma OnlyRule(p: Precedences, t: nat, r: nat)
    ensures Prevails(p, t, false, {r}, Some(r))
  {
  }

  // A later rule takes over if and only if the winner so far loses to it.
  lemma NextRule(p: Precedences, t: nat, shifted: bool, rules: set<nat>, x: Action, y: Action)
    requires x.kind == SHIFT || x.kind == REDUCE
    requires x.sp == t && y.kind == REDUCE && forall r <- rules :: r < y.x
    requires Prevails(p, t, shifted, rules, WinnerOf(x))
    ensures Prevails(p, t, shifted, rules + {y.x}, WinnerOf(if FirstWins(p, x, y) then x else y))
  {
    hide Prevails;
    if x.kind == SHIFT {
      assert FirstWins(p, x, y) <==> !Beats(p, t, y.x);
      NextAfterShift(p, t, shifted, rules, y.x);
    } else {
      assert FirstWins(p, x, y) <==> !(p.RulePrec(x.x) >= 0 && p.RulePrec(y.x) > p.RulePrec(x.x));
      NextAfterRule(p, t, shifted, rules, x.x, y.x);
    }
  }

  lemma NextAfterShift(p: Precedences, t: nat, shifted: bool, rules: set<nat>, y: nat)
    requires Prevails(p, t, shifted, rules, None) && forall r <- rules :: r < y
    ensures Prevails(p, t, shifted, rules + {y}, if Beats(p, t, y) then Some(y) else None)
  {
    if Beats(p, t, y) {
      assert y in rules + {y};
      forall r | r in rules ensures p.RulePrec(r) < p.RulePrec(y) { assert !Beats(p, t, r); }
    }
  }

  lemma NextAfterRule(p: Precedences, t: nat, shifted: bool, rules: set<nat>, x: nat, y: nat)
    requires Prevails(p, t, shifted, rules, Some(x)) && forall r <- rules :: r < y
    ensures Prevails(p, t, shifted, rules + {y}, Some(if p.RulePrec(x) >= 0 && p.RulePrec(y) > p.RulePrec(x)
                                                      then y else x))
  {
    hide FirstUnranked, Beats;
    SameFirst(p, rules, y);
    if shifted {
      var r :| r in rules && Beats(p, t, r);
      assert r in rules + {y};
      assert p.RulePrec(r) >= 0 by { BeatsRanked(p, t, r); }
    } else if !FirstUnranked(p, rules) {
      FirstRanked(p, rules);
    } else {
      FirstHasNone(p, rules, x);
    }
  }

  lemma BeatsRanked(p: Precedences, t: nat, r: nat)
    requires Beats(p, t, r)
    ensures p.RulePrec(r) >= 0
  {
  }

  lemma SameFirst(p: Precedences, rules: set<nat>, y: nat)
    requires rules != {} && forall r <- rules :: r < y
    ensures FirstUnranked(p, rules + {y}) <==> FirstUnranked(p, rules)
  {
    var f := FirstOf(rules);
  }

  lemma FirstRanked(p: Precedences, rules: set<nat>)
    requires rules != {} && !FirstUnranked(p, rules)
    ensures exists f <- rules :: p.RulePrec(f) >= 0
  {
    var f := FirstOf(rules);
  }

  lemma FirstHasNone(p: Precedences, rules: set<nat>, x: nat)
    requires FirstUnranked(p, rules) && x in rules && forall r <- rules :: x <= r
    ensures p.RulePrec(x) < 0
  {
  }

  // Who is reported.
  lemma ReportedDisputed(p: Precedences, ap: seq<Action>, lo: nat, hi: nat, i: nat)
    requires Lined(ap, lo, hi) && lo <= i < hi
    ensures ap[i].kind == SHIFT ==> (Reported(p, ap, lo, i) <==> lo < i)
    ensures ap[i].kind == REDUCE ==>
      (Reported(p, ap, lo, i) <==> Disputed(p, ap[lo].sp, ap[lo].kind == SHIFT, RulesIn(ap, lo, hi), ap[i].x))
  {
    hide Prevails, Champion;
    var t, shifted, rules := ap[lo].sp, ap[lo].kind == SHIFT, RulesIn(ap, lo, hi);
    if lo < i { ChampionPrevails(p, ap, lo, hi, i); }
    if ap[i].kind == REDUCE {
      EarlierIn(ap, lo, hi, i);
      if lo < i {
        var c := Champion(p, ap, lo, i);
        forall other | Prevails(p, t, shifted, RulesIn(ap, lo, i), other) ensures other == WinnerOf(ap[c]) {
          OnePrevails(p, t, shifted, RulesIn(ap, lo, i), other, WinnerOf(ap[c]));
        }
        assert Reported(p, ap, lo, i) <==> Undecided(p, t, WinnerOf(ap[c]), ap[i].x);
      } else {
        assert RulesIn(ap, lo, i) == {};
        forall other ensures !Prevails(p, t, shifted, {}, other) { NobodyPrevails(p, t, other); }
      }
    }
  }

  lemma NobodyPrevails(p: Precedences, t: nat, other: Option<nat>)
    ensures !Prevails(p, t, false, {}, other)
  {
  }

  lemma EarlierIn(ap: seq<Action>, lo: nat, hi: nat, i: nat)
    requires Lined(ap, lo, hi) && lo <= i < hi && ap[i].kind == REDUCE
    ensures Earlier(RulesIn(ap, lo, hi), ap[i].x) == RulesIn(ap, lo, i)
  {
    forall r ensures r in Earlier(RulesIn(ap, lo, hi), ap[i].x) <==> r in RulesIn(ap, lo, i) {
      if r in Earlier(RulesIn(ap, lo, hi), ap[i].x) {
        var j :| lo <= j < hi && ap[j].kind == REDUCE && ap[j].x == r;
        assert j < i;
      }
    }
  }
}

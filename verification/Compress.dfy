/** CompressTables: the most frequent reduction of a state becomes its default. */
module Compress {
  import opened Options
  import opened Grammars
  import opened Automata
  import opened Sorting
  import opened ActionLists
  import opened Resolve

  // The action of a list on a look-ahead: that of its first live entry.
  function Explicit(ap: seq<Action>, sp: nat): Option<Act> {
    if ap == [] then None
    else if Live(ap[0]) && ap[0].sp == sp then Some(ActOf(ap[0]))
    else Explicit(ap[1..], sp)
  }

  // With a default: entries for the symbol `dflt` answer for every look-ahead that has none of its own.
  function Answer(ap: seq<Action>, sp: nat, dflt: nat): Act {
    match Explicit(ap, sp)
    case Some(a) => a
    case None => (match Explicit(ap, dflt) case Some(a) => a case None => Error)
  }

  // In a deterministic list the order does not matter.
  lemma {:induction false} ExplicitMeans(ap: seq<Action>, sp: nat)
    ensures Explicit(ap, sp).Some? <==> Served(ap, sp)
    ensures Explicit(ap, sp).Some? ==> exists a <- ap :: Live(a) && a.sp == sp && ActOf(a) == Explicit(ap, sp).value
    ensures Deterministic(ap) ==> forall a <- ap | Live(a) && a.sp == sp :: Explicit(ap, sp) == Some(ActOf(a))
  {
    if ap != [] {
      ExplicitMeans(ap[1..], sp);
      assert ap == [ap[0]] + ap[1..];
      if Live(ap[0]) && ap[0].sp == sp {
        assert ap[0] in ap;
        if Deterministic(ap) {
          forall a | a in ap && Live(a) && a.sp == sp ensures Explicit(ap, sp) == Some(ActOf(a)) {
            var i :| 0 <= i < |ap| && ap[i] == a;
          }
        }
      } else {
        if Served(ap, sp) {
          var a :| a in ap && Live(a) && a.sp == sp;
          assert a in ap[1..];
        }
        if Deterministic(ap) {
          forall i, j | 0 <= i < j < |ap[1..]| && Live(ap[1..][i]) && Live(ap[1..][j])
            ensures ap[1..][i].sp != ap[1..][j].sp
          {
            assert ap[1..][i] == ap[i + 1] && ap[1..][j] == ap[j + 1];
          }
        }
      }
    }
  }

  // ---- the choice of the default ----

  predicate IsReduceBy(a: Action, r: nat) {
    a.kind == REDUCE && a.x == r
  }

  // How often rule r is reduced by.
  function Frequency(ap: seq<Action>, r: nat): nat {
    if ap == [] then 0 else (if IsReduceBy(ap[0], r) then 1 else 0) + Frequency(ap[1..], r)
  }

  predicate IsStartRule(g: Grammar, r: nat) {
    r < |g.rules| && g.rules[r].lhs == g.start
  }

  // best is the non-start rule reduced by most often, found nbest times; or there is none.
  ghost predicate MostFrequent(g: Grammar, ap: seq<Action>, nbest: nat, best: nat) {
    && (forall r: nat | !IsStartRule(g, r) :: Frequency(ap, r) <= nbest)
    && (nbest > 0 ==> !IsStartRule(g, best) && Frequency(ap, best) == nbest)
  }

  // Among the first i actions there is a reduction by `best` before all those by other rules that are as frequent.
  ghost predicate FirstOfBest(g: Grammar, ap: seq<Action>, i: nat, nbest: nat, best: nat) {
    exists b: nat :: LeadsAt(g, ap, i, nbest, best, b)
  }

  ghost predicate LeadsAt(g: Grammar, ap: seq<Action>, i: nat, nbest: nat, best: nat, b: nat) {
    && b < i <= |ap| && IsReduceBy(ap[b], best)
    && forall r: nat, j: nat | !IsStartRule(g, r) && r != best && Frequency(ap, r) == nbest && j < |ap|
         && IsReduceBy(ap[j], r) :: b < j
  }

  // A rule that is more frequent than all those before leads.
  lemma LeadsNow(g: Grammar, ap: seq<Action>, i: nat, nbest: nat, n: nat, best: nat)
    requires i < |ap| && IsReduceBy(ap[i], best) && n > nbest
    requires forall r: nat | !IsStartRule(g, r) && Frequency(ap[..i], r) > 0 :: Frequency(ap, r) <= nbest
    ensures FirstOfBest(g, ap, i + 1, n, best)
  {
    hide Frequency;
    forall r: nat, j: nat | !IsStartRule(g, r) && j < i && IsReduceBy(ap[j], r) ensures Frequency(ap, r) <= nbest {
      FrequencyPositive(ap[..i], r);
      assert ap[..i][j] == ap[j] && ap[j] in ap[..i];
    }
    assert LeadsAt(g, ap, i + 1, n, best, i);
  }

  lemma LeadsStill(g: Grammar, ap: seq<Action>, i: nat, nbest: nat, best: nat)
    requires FirstOfBest(g, ap, i, nbest, best) && i < |ap|
    ensures FirstOfBest(g, ap, i + 1, nbest, best)
  {
    hide Frequency;
    var b: nat :| LeadsAt(g, ap, i, nbest, best, b);
    assert LeadsAt(g, ap, i + 1, nbest, best, b);
  }

  lemma {:induction false} FrequencyConcat(a: seq<Action>, b: seq<Action>, r: nat)
    ensures Frequency(a + b, r) == Frequency(a, r) + Frequency(b, r)
  {
    if a == [] {
      assert a + b == b;
    } else {
      assert (a + b)[1..] == a[1..] + b;
      FrequencyConcat(a[1..], b, r);
    }
  }

  lemma {:induction false} FrequencyPositive(ap: seq<Action>, r: nat)
    ensures Frequency(ap, r) > 0 <==> exists a <- ap :: IsReduceBy(a, r)
  {
    if ap != [] {
      FrequencyPositive(ap[1..], r);
      assert ap == [ap[0]] + ap[1..];
      if IsReduceBy(ap[0], r) { assert ap[0] in ap; }
      if exists a <- ap[1..] :: IsReduceBy(a, r) {
        var a :| a in ap[1..] && IsReduceBy(a, r);
        assert a in ap;
      }
    }
  }

  // The inner counting loop: how often r is reduced by after position i; another rule is never mistaken for it.
  method CountAfter(ap: seq<Action>, i: nat, r: nat, best: Option<nat>) returns (n: nat)
    requires i < |ap| && IsReduceBy(ap[i], r) && best != Some(r)
    ensures n == Frequency(ap[i..], r)
  {
    n := 1;
    assert ap[i..][1..] == ap[i + 1..];
    for j := i + 1 to |ap|
      invariant n + Frequency(ap[j..], r) == Frequency(ap[i..], r)
    {
      assert ap[j..][1..] == ap[j + 1..];
      if ap[j].kind != REDUCE { continue; }
      if best == Some(ap[j].x) { continue; }
      if ap[j].x == r { n := n + 1; }
    }
  }

  // All rules whose first reduction is among the first i actions have been counted in full.
  ghost predicate CountedUpTo(g: Grammar, ap: seq<Action>, i: nat, nbest: nat, best: Option<nat>)
    requires i <= |ap|
  {
    && (forall r: nat | !IsStartRule(g, r) && Frequency(ap[..i], r) > 0 :: Frequency(ap, r) <= nbest)
    && (nbest > 0 <==> best.Some?)
    && (best.Some? ==> !IsStartRule(g, best.value) && Frequency(ap, best.value) == nbest)
  }

  lemma CountedNext(g: Grammar, ap: seq<Action>, i: nat, r: nat)
    requires i < |ap|
    ensures Frequency(ap, r) == Frequency(ap[..i], r) + Frequency(ap[i..], r)
    ensures Frequency(ap[..i + 1], r) == Frequency(ap[..i], r) + if IsReduceBy(ap[i], r) then 1 else 0
  {
    assert ap == ap[..i] + ap[i..] && ap[..i + 1] == ap[..i] + [ap[i]];
    FrequencyConcat(ap[..i], ap[i..], r);
    FrequencyConcat(ap[..i], [ap[i]], r);
    assert Frequency([ap[i]], r) == if IsReduceBy(ap[i], r) then 1 else 0;
  }

  // The first half of the loop body of CompressTables.
  method FindBest(g: Grammar, ap: seq<Action>, wildcard: Option<nat>)
    returns (nbest: nat, best: nat, usesWildcard: bool)
    ensures MostFrequent(g, ap, nbest, best) && (nbest > 0 ==> FirstOfBest(g, ap, |ap|, nbest, best))
    ensures usesWildcard <==> exists a <- ap :: a.kind == SHIFT && wildcard == Some(a.sp)
  {
    hide Frequency, FirstOfBest;
    var rbest: Option<nat> := None;
    nbest, usesWildcard := 0, false;
    NothingCounted(g, ap);
    for i := 0 to |ap|
      invariant CountedUpTo(g, ap, i, nbest, rbest)
      invariant rbest.Some? ==> FirstOfBest(g, ap, i, nbest, rbest.value)
      invariant usesWildcard <==> exists a <- ap[..i] :: a.kind == SHIFT && wildcard == Some(a.sp)
    {
      assert ap[..i + 1] == ap[..i] + [ap[i]];
      forall r: nat ensures Frequency(ap, r) == Frequency(ap[..i], r) + Frequency(ap[i..], r)
                         && Frequency(ap[..i + 1], r) == Frequency(ap[..i], r) + if IsReduceBy(ap[i], r) then 1 else 0 {
        CountedNext(g, ap, i, r);
      }
      if rbest.Some? { LeadsStill(g, ap, i, nbest, rbest.value); }
      if ap[i].kind == SHIFT && wildcard == Some(ap[i].sp) { usesWildcard := true; }
      if ap[i].kind != REDUCE { continue; }
      var r := ap[i].x;
      if IsStartRule(g, r) { continue; }
      if rbest == Some(r) { continue; }
      var n := CountAfter(ap, i, r, rbest);
      if n > nbest {
        LeadsNow(g, ap, i, nbest, n, r);
        nbest, rbest := n, Some(r);
      }
    }
    assert ap[..|ap|] == ap;
    best := if rbest.Some? then rbest.value else 0;
  }

  lemma NothingCounted(g: Grammar, ap: seq<Action>)
    ensures CountedUpTo(g, ap, 0, 0, None)
  {
    assert ap[..0] == [];
  }

  // ---- what compression does to a list ----

  // The first reduction by `best`, at k, becomes the default; the others are dropped.
  ghost predicate DefaultMade(ap: seq<Action>, ap': seq<Action>, best: nat, dflt: nat, k: nat) {
    && |ap'| == |ap| && k < |ap|
    && IsReduceBy(ap[k], best) && ap'[k] == ap[k].(sp := dflt)
    && (forall i | 0 <= i < |ap| && i != k ::
          if IsReduceBy(ap[i], best) then i > k && ap'[i] == ap[i].(kind := NOT_USED) else ap'[i] == ap[i])
  }

  ghost predicate NoDefaultYet(ap: seq<Action>, dflt: nat) {
    forall a <- ap :: a.sp != dflt
  }

  // Compression may change how a look-ahead is answered only where there was no action.
  ghost predicate CompressedBy(ap: seq<Action>, ap': seq<Action>, best: nat, dflt: nat) {
    && Deterministic(ap')
    && Explicit(ap', dflt) == Some(Reduce(best))
    && forall sp: nat | sp != dflt ::
         Explicit(ap', sp) == if Explicit(ap, sp) == Some(Reduce(best)) then None else Explicit(ap, sp)
  }

  lemma DefaultMadeNoTies(ap: seq<Action>, ap': seq<Action>, best: nat, dflt: nat, k: nat)
    requires NoTies(ap) && DefaultMade(ap, ap', best, dflt, k)
    ensures NoTies(ap')
  {
    forall i | 0 <= i < |ap| ensures ap'[i].addr == ap[i].addr {}
  }

  lemma DefaultMadeDeterministic(ap: seq<Action>, ap': seq<Action>, best: nat, dflt: nat, k: nat)
    requires Deterministic(ap) && NoDefaultYet(ap, dflt) && DefaultMade(ap, ap', best, dflt, k)
    ensures Deterministic(ap') && Explicit(ap', dflt) == Some(Reduce(best))
  {
    forall i | 0 <= i < |ap| ensures ap[i].sp != dflt { assert ap[i] in ap; }
    forall i, j | 0 <= i < j < |ap'| && Live(ap'[i]) && Live(ap'[j]) ensures ap'[i].sp != ap'[j].sp {}
    ExplicitMeans(ap', dflt);
    assert ap'[k] in ap';
  }

  // A live action of the one list is a live action of the other, if it is no reduction by `best`.
  lemma DefaultMadeAction(ap: seq<Action>, ap': seq<Action>, best: nat, dflt: nat, k: nat, a: Action)
    requires DefaultMade(ap, ap', best, dflt, k) && Live(a) && a.sp != dflt
    ensures a in ap' <==> a in ap && !IsReduceBy(a, best)
  {
    if a in ap' {
      var i :| 0 <= i < |ap'| && ap'[i] == a;
      assert ap[i] == a;
    }
    if a in ap && !IsReduceBy(a, best) {
      var i :| 0 <= i < |ap| && ap[i] == a;
      assert ap'[i] == a;
    }
  }

  lemma DefaultMadeAnswer(ap: seq<Action>, ap': seq<Action>, best: nat, dflt: nat, k: nat, sp: nat)
    requires Deterministic(ap) && Deterministic(ap') && DefaultMade(ap, ap', best, dflt, k) && sp != dflt
    ensures Explicit(ap', sp) == if Explicit(ap, sp) == Some(Reduce(best)) then None else Explicit(ap, sp)
  {
    hide Deterministic, DefaultMade, Explicit;
    ExplicitMeans(ap, sp);
    ExplicitMeans(ap', sp);
    if Served(ap', sp) {
      var a :| a in ap' && Live(a) && a.sp == sp;
      DefaultMadeAction(ap, ap', best, dflt, k, a);
    } else if Served(ap, sp) {
      var a :| a in ap && Live(a) && a.sp == sp;
      DefaultMadeAction(ap, ap', best, dflt, k, a);
    }
  }

  lemma DefaultMadeCompresses(ap: seq<Action>, ap': seq<Action>, best: nat, dflt: nat, k: nat)
    requires Deterministic(ap) && NoDefaultYet(ap, dflt) && DefaultMade(ap, ap', best, dflt, k)
    ensures CompressedBy(ap, ap', best, dflt)
  {
    hide Deterministic, DefaultMade, Explicit;
    DefaultMadeDeterministic(ap, ap', best, dflt, k);
    forall sp: nat | sp != dflt
      ensures Explicit(ap', sp) == if Explicit(ap, sp) == Some(Reduce(best)) then None else Explicit(ap, sp)
    {
      DefaultMadeAnswer(ap, ap', best, dflt, k, sp);
    }
  }

  lemma DeterministicPermuted(a: seq<Action>, b: seq<Action>)
    requires Deterministic(a) && multiset(a) == multiset(b)
    ensures Deterministic(b)
    ensures forall sp :: Explicit(b, sp) == Explicit(a, sp)
  {
    SameMembers(a, b);
    forall i, j | 0 <= i < j < |b| && Live(b[i]) && Live(b[j]) ensures b[i].sp != b[j].sp {
      assert b[i] in a && b[j] in a;
      OccursTwice(b, i, j);
      LiveOnce(a, b[i]);
      var k :| 0 <= k < |a| && a[k] == b[i];
      var l :| 0 <= l < |a| && a[l] == b[j];
      if k < l { assert a[k].sp != a[l].sp; } else if l < k { assert a[l].sp != a[k].sp; }
    }
    forall sp ensures Explicit(b, sp) == Explicit(a, sp) {
      ExplicitMeans(a, sp);
      ExplicitMeans(b, sp);
      if Served(a, sp) {
        var x :| x in a && Live(x) && x.sp == sp;
        assert x in b;
      }
    }
  }

  lemma {:induction false} LiveOnce(a: seq<Action>, x: Action)
    requires Deterministic(a) && Live(x)
    ensures multiset(a)[x] <= 1
  {
    if a != [] {
      var n := |a| - 1;
      assert a == a[..n] + [a[n]];
      LiveOnce(a[..n], x);
      assert a[n] == x ==> x !in a[..n];
    }
  }

  // The second half of the loop body of CompressTables.
  method MakeDefault(ap0: seq<Action>, best: nat, dflt: nat) returns (ap: seq<Action>)
    requires Deterministic(ap0) && NoDefaultYet(ap0, dflt) && NoTies(ap0) && exists a <- ap0 :: IsReduceBy(a, best)
    ensures CompressedBy(ap0, ap, best, dflt)
  {
    hide CompressedBy, Deterministic, NoTies;
    ghost var a0 :| a0 in ap0 && IsReduceBy(a0, best);
    ghost var m :| 0 <= m < |ap0| && ap0[m] == a0;
    ap := ap0;
    var k := 0;
    while !IsReduceBy(ap[k], best)
      invariant 0 <= k <= m && ap == ap0
      invariant forall i | 0 <= i < k :: !IsReduceBy(ap0[i], best)
      decreases m - k
    {
      k := k + 1;
    }
    ap := ap[k := ap[k].(sp := dflt)];
    for j := k + 1 to |ap|
      invariant |ap| == |ap0| && ap[k] == ap0[k].(sp := dflt)
      invariant forall i | 0 <= i < j && i != k ::
        if IsReduceBy(ap0[i], best) then i > k && ap[i] == ap0[i].(kind := NOT_USED) else ap[i] == ap0[i]
      invariant forall i | j <= i < |ap| :: ap[i] == ap0[i]
    {
      if IsReduceBy(ap[j], best) { ap := ap[j := ap[j].(kind := NOT_USED)]; }
    }
    DefaultMadeCompresses(ap0, ap, best, dflt, k);
    DefaultMadeNoTies(ap0, ap, best, dflt, k);
    SortedCompressed(ap0, ap, best, dflt);
    ap := SortActions(ap);
  }

  lemma SortedCompressed(ap0: seq<Action>, ap: seq<Action>, best: nat, dflt: nat)
    requires CompressedBy(ap0, ap, best, dflt) && NoTies(ap)
    ensures CompressedBy(ap0, SortActions(ap), best, dflt)
  {
    DeterministicPermuted(ap, SortActions(ap));
  }

  // Only start rules are reduced by, or the wildcard is shifted.
  ghost predicate LeftAlone(g: Grammar, ap: seq<Action>, wildcard: Option<nat>) {
    || (forall a <- ap | a.kind == REDUCE :: IsStartRule(g, a.x))
    || (exists a <- ap :: a.kind == SHIFT && wildcard == Some(a.sp))
  }

  // What becomes of a list: nothing, or a most frequent rule is its default.
  ghost predicate CompressedWith(g: Grammar, wildcard: Option<nat>, ap0: seq<Action>, ap: seq<Action>, dflt: nat) {
    if LeftAlone(g, ap0, wildcard) then ap == ap0
    else
      exists best: nat ::
        && CompressedBy(ap0, ap, best, dflt) && MostFrequent(g, ap0, Frequency(ap0, best), best)
        && FirstOfBest(g, ap0, |ap0|, Frequency(ap0, best), best)
        && !IsStartRule(g, best) && exists a <- ap0 :: IsReduceBy(a, best)
  }

  // The loop body of CompressTables: either the list is left alone, or a most frequent non-start rule becomes its
  // default.
  method CompressState(g: Grammar, ap0: seq<Action>, wildcard: Option<nat>, dflt: nat)
    returns (ap: seq<Action>, best: Option<nat>)
    requires Deterministic(ap0) && NoDefaultYet(ap0, dflt) && NoTies(ap0)
    ensures best.None? ==> ap == ap0
    ensures best.Some? ==>
      CompressedBy(ap0, ap, best.value, dflt)
      && MostFrequent(g, ap0, Frequency(ap0, best.value), best.value)
      && FirstOfBest(g, ap0, |ap0|, Frequency(ap0, best.value), best.value)
    ensures best.None? <==> LeftAlone(g, ap0, wildcard)
    ensures best.Some? ==> !IsStartRule(g, best.value) && exists a <- ap0 :: IsReduceBy(a, best.value)
  {
    var nbest, rbest, usesWildcard := FindBest(g, ap0, wildcard);
    BestExists(g, ap0, nbest, rbest);
    if nbest < 1 || usesWildcard { return ap0, None; }
    ap := MakeDefault(ap0, rbest, dflt);
    best := Some(rbest);
  }

  lemma BestExists(g: Grammar, ap: seq<Action>, nbest: nat, best: nat)
    requires MostFrequent(g, ap, nbest, best)
    ensures nbest == 0 <==> forall a <- ap | a.kind == REDUCE :: IsStartRule(g, a.x)
    ensures nbest > 0 ==> exists a <- ap :: IsReduceBy(a, best)
  {
    FrequencyPositive(ap, best);
    forall a | a in ap && a.kind == REDUCE && nbest == 0 ensures IsStartRule(g, a.x) {
      FrequencyPositive(ap, a.x);
      assert IsReduceBy(a, a.x);
    }
    if nbest > 0 {
      var a :| a in ap && IsReduceBy(a, best);
      assert !IsStartRule(g, a.x);
    }
  }

  // Meaning is preserved: a look-ahead that had an action is answered by the same action; all others by the default.
  lemma CompressionKeepsAnswers(ap: seq<Action>, ap': seq<Action>, best: nat, dflt: nat, sp: nat)
    requires CompressedBy(ap, ap', best, dflt) && sp != dflt
    ensures Explicit(ap, sp).Some? ==> Answer(ap', sp, dflt) == Explicit(ap, sp).value
    ensures Explicit(ap, sp).None? ==> Answer(ap', sp, dflt) == Reduce(best)
  {
  }
}

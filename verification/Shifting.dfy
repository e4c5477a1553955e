/** The inner loop of buildshifts, on values: gathering the configurations with one symbol after the dot, and what is
  true of a state while its successors are built. */
module Shifting {
  import opened Options
  import opened Grammars
  import opened FirstSets
  import opened Automata
  import opened Sorting
  import opened Configs
  import opened Closures
  import opened ActionLists
  import opened Collection
  import opened Bases

  function StatusOf(cs: Pool, c: nat): Status {
    if c < |cs| then cs[c].status else Incomplete
  }

  function MovedOver(cs0: Pool, c: nat): Config {
    Config(Advance(ItemOf(cs0, c)), {}, [], [c], Incomplete)
  }

  // From pool cs0, the members src have been marked complete, and each has a fresh successor in the list.
  ghost predicate Group(g: Grammar, cs0: Pool, cs: Pool, ids: seq<nat>, src: seq<nat>, x: Symbol) {
    && |cs| == |cs0| + |src| && AtEnd(cs, ids) && |ids| == |src|
    && DistinctItems(cs0, src)
    && (forall c <- src :: c < |cs0| && Next(g, ItemOf(cs0, c)) == Some(x))
    && (forall k | 0 <= k < |src| :: cs[|cs0| + k] == MovedOver(cs0, src[k]))
    && (forall c | 0 <= c < |cs0| :: cs[c] == cs0[c].(status := if c in src then Complete else cs0[c].status))
  }

  lemma GroupStart(g: Grammar, cs: Pool, x: Symbol)
    ensures Group(g, cs, cs, [], [], x)
  {
  }

  lemma GroupStep(g: Grammar, cs0: Pool, cs: Pool, ids: seq<nat>, src: seq<nat>, x: Symbol, c: nat)
    requires Group(g, cs0, cs, ids, src, x)
    requires c < |cs0| && c !in src && Next(g, ItemOf(cs0, c)) == Some(x)
    requires forall d <- src :: ItemOf(cs0, d) != ItemOf(cs0, c)
    ensures forall d <- ids :: d < |cs| && ItemOf(cs, d) != Advance(ItemOf(cs0, c))
    ensures Group(g, cs0, cs[c := cs[c].(status := Complete)] + [MovedOver(cs0, c)], ids + [|cs|], src + [c], x)
  {
    var cs', ids', src' := cs[c := cs[c].(status := Complete)] + [MovedOver(cs0, c)], ids + [|cs|], src + [c];
    forall d | d in ids ensures d < |cs| && ItemOf(cs, d) != Advance(ItemOf(cs0, c)) {
      var k :| 0 <= k < |ids| && ids[k] == d;
      assert cs[|cs0| + k] == MovedOver(cs0, src[k]) && src[k] in src;
    }
    forall i, j | 0 <= i < j < |src'| ensures ItemOf(cs0, src'[i]) != ItemOf(cs0, src'[j]) {
      assert src'[i] in src;
    }
  }

  lemma GroupItemOf(g: Grammar, cs0: Pool, cs: Pool, ids: seq<nat>, src: seq<nat>, x: Symbol, c: nat)
    requires Group(g, cs0, cs, ids, src, x) && c < |cs0|
    ensures c < |cs| && ItemOf(cs, c) == ItemOf(cs0, c) && cs[c].bplp == cs0[c].bplp
    ensures cs[c].status == if c in src then Complete else cs0[c].status
    ensures InPool(cs, ids)
  {
    forall d | d in ids ensures d < |cs| {
      var k :| 0 <= k < |ids| && ids[k] == d;
    }
  }

  lemma DistinctFrom(cs: Pool, cfp: seq<nat>, i: nat, j: nat)
    requires i <= j < |cfp| && DistinctItems(cs, cfp)
    ensures forall d <- cfp[i..j] :: ItemOf(cs, d) != ItemOf(cs, cfp[j])
  {
  }

  lemma MarkedItems(cs: Pool, ids: seq<nat>, c: nat)
    requires c < |cs|
    ensures forall d: nat :: ItemOf(cs[c := cs[c].(status := Complete)], d) == ItemOf(cs, d)
  {
  }

  // The group is the whole of what can move over x.
  ghost predicate AllOf(g: Grammar, cs0: Pool, cfp: seq<nat>, src: seq<nat>, x: Symbol) {
    forall c :: c in src <==> c in cfp && Next(g, ItemOf(cs0, c)) == Some(x)
  }

  // A gathered group is ready to be made a state, over a pool in which only statuses changed.
  lemma GroupReady(g: Grammar, lambda: Lambdas, first: Firsts, cs0: Pool, cs: Pool, ids: seq<nat>, src: seq<nat>,
                   x: Symbol, states: seq<State>)
    requires Group(g, cs0, cs, ids, src, x) && src != [] && states != []
    requires Good(g, lambda, first, cs0, states)
    ensures Ready(g, lambda, first, cs, ids, states)
    ensures |cs| - |ids| == |cs0| && Kept(cs0, cs[..|cs0|])
  {
    hide Good;
    var n := |cs0|;
    forall c | 0 <= c < n ensures KeptOne(cs0[c], cs[..n][c]) {}
    GoodBackLinks(g, lambda, first, cs0, states);
    forall c: nat, b | c < n && b in cs[..n][c].bplp ensures BackLinkOK(cs[..n], c, b) {
      assert b in cs0[c].bplp;
      assert BackLinkOK(cs0, c, b);
    }
    GoodKept(g, lambda, first, cs0, cs[..n], states, states);
    forall c | c in ids ensures FreshConfig(g, cs, n, c) && MovedConfig(cs, c) {
      var k :| 0 <= k < |ids| && ids[k] == c;
      assert cs[n + k] == MovedOver(cs0, src[k]) && src[k] in src;
    }
    forall i, j | 0 <= i < j < |ids| ensures ItemOf(cs, ids[i]) != ItemOf(cs, ids[j]) {
      assert cs[n + i] == MovedOver(cs0, src[i]) && cs[n + j] == MovedOver(cs0, src[j]);
      assert ItemOf(cs0, src[i]) != ItemOf(cs0, src[j]);
    }
  }

  lemma GoodBackLinks(g: Grammar, lambda: Lambdas, first: Firsts, cs: Pool, states: seq<State>)
    requires Good(g, lambda, first, cs, states)
    ensures BackLinksOK(g, cs)
    ensures forall s: nat | s < |states| :: InPool(cs, states[s].bp) && InPool(cs, states[s].cfp)
    ensures forall s: nat | s < |states| :: StateOK(g, lambda, first, cs, states[s])
  {
  }

  // Its items are those of the state, moved over x.
  lemma GroupItems(g: Grammar, cs0: Pool, cs: Pool, ids: seq<nat>, src: seq<nat>, x: Symbol, cfp: seq<nat>)
    requires Group(g, cs0, cs, ids, src, x) && AllOf(g, cs0, cfp, src, x)
    ensures ItemSet(cs, ids) == AdvanceAll(g, ItemSet(cs0, cfp), x)
  {
    forall it | it in ItemSet(cs, ids) ensures it in AdvanceAll(g, ItemSet(cs0, cfp), x) {
      var c :| c in ids && ItemOf(cs, c) == it;
      var k :| 0 <= k < |ids| && ids[k] == c;
      assert cs[|cs0| + k] == MovedOver(cs0, src[k]) && src[k] in src && src[k] in cfp;
    }
    forall it | it in AdvanceAll(g, ItemSet(cs0, cfp), x) ensures it in ItemSet(cs, ids) {
      var from :| from in ItemSet(cs0, cfp) && Next(g, from) == Some(x) && it == Advance(from);
      var c :| c in cfp && ItemOf(cs0, c) == from;
      assert c in src;
      var k :| 0 <= k < |src| && src[k] == c;
      assert cs[|cs0| + k] == MovedOver(cs0, src[k]);
      assert ids[k] in ids && ItemOf(cs, ids[k]) == it;
    }
  }

  // The state found or made for the group is the successor of every member.
  lemma GroupCarried(g: Grammar, cs0: Pool, cs: Pool, ids: seq<nat>, src: seq<nat>, x: Symbol, cs': Pool, st: State,
                     c: nat)
    requires Group(g, cs0, cs, ids, src, x) && Received(cs, ids, cs', st) && c in src
    requires |cs'| >= |cs0| && ItemOf(cs', c) == ItemOf(cs0, c)
    ensures Carries(cs', c, st)
  {
    var k :| 0 <= k < |src| && src[k] == c;
    assert cs[|cs0| + k] == MovedOver(cs0, c) && ids[k] in ids;
    assert HasPlace(cs, cs', ids[k], st);
    var y :| y in st.bp && y < |cs'| && cs'[y].item == cs[ids[k]].item
        && forall b <- cs[ids[k]].bplp :: b in cs'[y].bplp;
    assert c in cs[ids[k]].bplp;
  }

  // ---- a state whose successors are being built ----

  ghost predicate SameNext(g: Grammar, cs: Pool, c: nat, d: nat) {
    Next(g, ItemOf(cs, c)).Some? && Next(g, ItemOf(cs, c)) == Next(g, ItemOf(cs, d))
  }

  ghost predicate FromComplete(g: Grammar, cs: Pool, cfp: seq<nat>, a: Action) {
    exists c <- cfp :: StatusOf(cs, c) == Complete && Next(g, ItemOf(cs, c)).Some?
        && a.sp in SymbolCodes(Next(g, ItemOf(cs, c)).value)
  }

  ghost predicate StatusesOK(g: Grammar, cs: Pool, cfp: seq<nat>, i: nat) {
    && i <= |cfp|
    && (forall j | 0 <= j < i :: Next(g, ItemOf(cs, cfp[j])).Some? ==> StatusOf(cs, cfp[j]) == Complete)
    && (forall c, d | c in cfp && d in cfp && SameNext(g, cs, c, d) :: StatusOf(cs, c) == StatusOf(cs, d))
  }

  ghost predicate BuiltSoFar(g: Grammar, cs: Pool, states: seq<State>, s: nat, nact: nat)
    requires s < |states|
  {
    && (forall c <- states[s].cfp | StatusOf(cs, c) == Complete :: ShiftDone(g, cs, states, s, c))
    && ActionsOK(g, cs, states, s)
    && (forall a <- states[s].ap :: FromComplete(g, cs, states[s].cfp, a) && a.addr < nact)
  }

  // The shifts are those asked for by the first i configurations, and complete is what has its symbol among these.
  ghost predicate AskedSoFar(g: Grammar, cs: Pool, states: seq<State>, s: nat, i: nat)
    requires s < |states|
  {
    && i <= |states[s].cfp| && ShiftsAsked(g, cs, states, s, states[s].cfp[..i])
    && forall c <- states[s].cfp | Next(g, ItemOf(cs, c)).Some? ::
         StatusOf(cs, c) == Complete <==> Next(g, ItemOf(cs, c)).value in NextsOf(g, cs, states[s].cfp[..i])
  }

  lemma AskedSkip(g: Grammar, cs: Pool, states: seq<State>, s: nat, i: nat)
    requires s < |states| && AskedSoFar(g, cs, states, s, i) && i < |states[s].cfp|
    requires Next(g, ItemOf(cs, states[s].cfp[i])).Some? ==> StatusOf(cs, states[s].cfp[i]) == Complete
    ensures AskedSoFar(g, cs, states, s, i + 1)
  {
    hide ShiftsAsked;
    var cfp := states[s].cfp;
    assert cfp[..i + 1][..i] == cfp[..i] && cfp[i] in cfp;
    assert NextsOf(g, cs, cfp[..i + 1]) == NextsOf(g, cs, cfp[..i]);
    AskedSame(g, cs, states, s, cfp[..i], cfp[..i + 1]);
  }

  lemma AskedSame(g: Grammar, cs: Pool, states: seq<State>, s: nat, ids: seq<nat>, ids': seq<nat>)
    requires s < |states| && ShiftsAsked(g, cs, states, s, ids) && NextsOf(g, cs, ids') == NextsOf(g, cs, ids)
    ensures ShiftsAsked(g, cs, states, s, ids')
  {
    hide AllAnswered, NextsOf, Requests;
  }

  // The list that Action_add leaves.
  lemma {:induction false} PushedAt(ap: seq<Action>, codes: seq<nat>, to: nat, nact: nat, k: nat)
    ensures var r := PushShifts(ap, codes, to, nact);
      && |r| == |ap| + |codes|
      && (k < |ap| ==> r[|r| - 1 - k] == ap[|ap| - 1 - k])
      && (|ap| <= k < |r| ==> r[|r| - 1 - k].sp == codes[k - |ap|] && r[|r| - 1 - k].x == to)
    decreases |codes|
  {
    if codes != [] {
      var a := Action(codes[0], SHIFT, to, nact);
      PushedAt([a] + ap, codes[1..], to, nact + 1, k);
    }
  }

  // One symbol more: its requests are answered in front of the others.
  lemma AskedMore(g: Grammar, cs: Pool, states: seq<State>, states': seq<State>, s: nat, ids: seq<nat>, c: nat,
                  x: Symbol, to: nat, nact: nat)
    requires s < |states| <= |states'| && to < |states'| && ShiftsAsked(g, cs, states, s, ids)
    requires Extends(states, states') && Next(g, ItemOf(cs, c)) == Some(x) && x !in NextsOf(g, cs, ids)
    requires GotoIs(g, cs, states'[s], x, states'[to])
    requires states'[s].ap == PushShifts(states[s].ap, SymbolCodes(x), to, nact)
    ensures ShiftsAsked(g, cs, states', s, ids + [c])
  {
    hide AllAnswered, GotoIs, Requests;
    var before := Requests(NextsOf(g, cs, ids));
    assert (ids + [c])[..|ids|] == ids;
    assert NextsOf(g, cs, ids + [c]) == NextsOf(g, cs, ids) + [x];
    RequestsMore(NextsOf(g, cs, ids), x);
    AnsweredMore(g, cs, states, states', s, before, x, to, nact);
  }

  lemma RequestsMore(syms: seq<Symbol>, x: Symbol)
    ensures Requests(syms + [x]) == Requests(syms) + RequestsFor(x)
  {
    assert (syms + [x])[..|syms|] == syms;
  }

  lemma AnsweredMore(g: Grammar, cs: Pool, states: seq<State>, states': seq<State>, s: nat, before: seq<(Symbol, nat)>,
                     x: Symbol, to: nat, nact: nat)
    requires s < |states| <= |states'| && to < |states'| && AllAnswered(g, cs, states, s, before)
    requires Extends(states, states') && GotoIs(g, cs, states'[s], x, states'[to])
    requires states'[s].ap == PushShifts(states[s].ap, SymbolCodes(x), to, nact)
    ensures AllAnswered(g, cs, states', s, before + RequestsFor(x))
  {
    hide GotoIs, Answers, PushShifts;
    var ap, ap', asked := states[s].ap, states'[s].ap, before + RequestsFor(x);
    PushedAt(ap, SymbolCodes(x), to, nact, 0);
    forall k: nat | k < |asked| ensures Answers(g, cs, states', s, ap'[|asked| - 1 - k], asked[k]) {
      PushedAt(ap, SymbolCodes(x), to, nact, k);
      if k < |before| {
        AnswersSame(g, cs, states, states', s, ap[|before| - 1 - k], before[k]);
      } else {
        NewAnswers(g, cs, states', s, ap'[|asked| - 1 - k], x, k - |before|, to);
      }
    }
  }

  lemma NewAnswers(g: Grammar, cs: Pool, states: seq<State>, s: nat, a: Action, x: Symbol, i: nat, to: nat)
    requires s < |states| && to < |states| && i < |SymbolCodes(x)| && a.sp == SymbolCodes(x)[i] && a.x == to
    requires GotoIs(g, cs, states[s], x, states[to])
    ensures Answers(g, cs, states, s, a, RequestsFor(x)[i])
  {
    hide GotoIs;
  }

  lemma AnswersSame(g: Grammar, cs: Pool, states: seq<State>, states': seq<State>, s: nat, a: Action,
                    asked: (Symbol, nat))
    requires s < |states| && Extends(states, states') && Answers(g, cs, states, s, a, asked)
    ensures Answers(g, cs, states', s, a, asked)
  {
    assert SameLists(states[s], states'[s]) && SameLists(states[a.x], states'[a.x]);
  }

  lemma AskedStep(g: Grammar, cs0: Pool, cs: Pool, states: seq<State>, states': seq<State>, s: nat, i: nat, x: Symbol,
                  to: nat, src: seq<nat>, nact: nat)
    requires s < |states| && Extends(states, states') && to < |states'|
    requires forall t: nat | t < |states| :: InPool(cs0, states[t].bp) && InPool(cs0, states[t].cfp)
    requires Kept(cs0, cs) && Marked(cs0, cs, src) && AllOf(g, cs0, states[s].cfp, src, x)
    requires AskedSoFar(g, cs0, states, s, i) && i < |states[s].cfp|
    requires Next(g, ItemOf(cs0, states[s].cfp[i])) == Some(x) && StatusOf(cs0, states[s].cfp[i]) == Incomplete
    requires states'[s].ap == PushShifts(states[s].ap, SymbolCodes(x), to, nact)
    requires GotoIs(g, cs, states'[s], x, states'[to])
    ensures AskedSoFar(g, cs, states', s, i + 1)
  {
    hide ShiftsAsked, GotoIs;
    var cfp := states[s].cfp;
    assert SameLists(states[s], states'[s]);
    KeptGrew(cs0, cs);
    assert cfp[i] in cfp && forall c <- cfp[..i] :: c in cfp;
    SamesExtend(states);
    AskedKept(g, cs0, cs, states, states, s, cfp[..i]);
    NextsKept(g, cs0, cs, cfp[..i]);
    AskedMore(g, cs, states, states', s, cfp[..i], cfp[i], x, to, nact);
    assert cfp[..i + 1] == cfp[..i] + [cfp[i]] && cfp[..i + 1][..i] == cfp[..i];
    assert NextsOf(g, cs, cfp[..i + 1]) == NextsOf(g, cs, cfp[..i]) + [x];
    forall c | c in cfp && Next(g, ItemOf(cs, c)).Some?
      ensures StatusOf(cs, c) == Complete <==> Next(g, ItemOf(cs, c)).value in NextsOf(g, cs, cfp[..i + 1])
    {
      assert Next(g, ItemOf(cs0, c)) == Next(g, ItemOf(cs, c));
    }
  }

  lemma SamesExtend(states: seq<State>)
    ensures Extends(states, states)
  {
  }

  lemma AllBuilt(g: Grammar, cs: Pool, states: seq<State>, s: nat, nact: nat)
    requires s < |states| && BuiltSoFar(g, cs, states, s, nact) && StatusesOK(g, cs, states[s].cfp, |states[s].cfp|)
    requires AskedSoFar(g, cs, states, s, |states[s].cfp|)
    ensures Done(g, cs, states, s)
  {
    hide ShiftTo, ActionsOK, ShiftsAsked;
    assert states[s].cfp[..|states[s].cfp|] == states[s].cfp;
    var cfp := states[s].cfp;
    forall c | c in cfp ensures ShiftDone(g, cs, states, s, c) {
      var j :| 0 <= j < |cfp| && cfp[j] == c;
    }
  }

  // Action_add, once for each code: the new actions go to the front.
  function PushShifts(ap: seq<Action>, codes: seq<nat>, to: nat, nact: nat): seq<Action>
    decreases |codes|
  {
    if codes == [] then ap
    else PushShifts([Action(codes[0], SHIFT, to, nact)] + ap, codes[1..], to, nact + 1)
  }

  lemma {:induction false} PushedShifts(ap: seq<Action>, codes: seq<nat>, to: nat, nact: nat)
    requires Descending(ap) && AddrBelow(ap, nact)
    ensures var ap' := PushShifts(ap, codes, to, nact);
      && Descending(ap') && AddrBelow(ap', nact + |codes|)
      && (forall a <- ap :: a in ap')
      && (forall code <- codes :: HasShift(ap', code, to))
      && (forall a <- ap' :: a in ap || (a.sp in codes && a.kind == SHIFT && a.x == to))
    decreases |codes|
  {
    if codes != [] {
      var a0 := Action(codes[0], SHIFT, to, nact);
      var ap1 := [a0] + ap;
      forall i, j | 0 <= i < j < |ap1| ensures ap1[i].addr > ap1[j].addr {
        assert ap1[j] in ap;
      }
      PushedShifts(ap1, codes[1..], to, nact + 1);
      var ap' := PushShifts(ap, codes, to, nact);
      forall a | a in ap ensures a in ap' { assert a in ap1; }
      assert a0 in ap1;
      forall code | code in codes ensures HasShift(ap', code, to) {
        if code == codes[0] { assert a0 in ap'; } else { assert code in codes[1..]; }
      }
    }
  }

  lemma {:induction false} PushedMember(ap: seq<Action>, codes: seq<nat>, to: nat, nact: nat, i: nat)
    ensures i < |codes| ==> Action(codes[i], SHIFT, to, nact + i) in PushShifts(ap, codes, to, nact)
    ensures forall a <- ap :: a in PushShifts(ap, codes, to, nact)
    decreases |codes|
  {
    if codes != [] {
      var ap1 := [Action(codes[0], SHIFT, to, nact)] + ap;
      PushedMember(ap1, codes[1..], to, nact + 1, if i > 0 then i - 1 else 0);
      forall a | a in ap ensures a in ap1 {}
      assert ap1[0] in ap1;
    }
  }

  // A symbol that has a code twice is pushed twice.
  lemma PushedRepeated(ap: seq<Action>, codes: seq<nat>, to: nat, nact: nat)
    requires !AllDifferent(codes)
    ensures Repeated(PushShifts(ap, codes, to, nact))
  {
    var i, j :| 0 <= i < j < |codes| && codes[i] == codes[j];
    PushedMember(ap, codes, to, nact, i);
    PushedMember(ap, codes, to, nact, j);
  }

  lemma {:induction false} PushedClashing(g: Grammar, cs: Pool, cfp: seq<nat>, ap: seq<Action>, codes: seq<nat>,
      to: nat, nact: nat)
    requires ClashingRepeats(g, cs, cfp, ap)
    requires forall a <- ap | a.sp in codes :: Clashing(g, cs, cfp, a.sp)
    requires forall i, j | 0 <= i < j < |codes| && codes[i] == codes[j] :: Clashing(g, cs, cfp, codes[i])
    ensures ClashingRepeats(g, cs, cfp, PushShifts(ap, codes, to, nact))
    decreases |codes|
  {
    hide Clashing;
    if codes != [] {
      var ap1, rest := [Action(codes[0], SHIFT, to, nact)] + ap, codes[1..];
      assert codes[0] in codes;
      forall i, j | 0 <= i < j < |ap1| && ap1[i].sp == ap1[j].sp ensures Clashing(g, cs, cfp, ap1[i].sp) {
        assert ap1[j] in ap;
      }
      forall a | a in ap1 && a.sp in rest ensures Clashing(g, cs, cfp, a.sp) {
        var j :| 0 <= j < |rest| && rest[j] == a.sp;
        assert codes[j + 1] == a.sp;
        if a in ap { assert a.sp in codes; }
      }
      forall i, j | 0 <= i < j < |rest| && rest[i] == rest[j] ensures Clashing(g, cs, cfp, rest[i]) {
        assert codes[i + 1] == codes[j + 1];
      }
      PushedClashing(g, cs, cfp, ap1, rest, to, nact + 1);
    }
  }

  // What the inner loop and getstate did to the statuses.
  ghost predicate Marked(cs0: Pool, cs: Pool, src: seq<nat>) {
    forall c: nat | c < |cs0| :: StatusOf(cs, c) == if c in src then Complete else StatusOf(cs0, c)
  }

  lemma StatusesStep(g: Grammar, cs0: Pool, cs: Pool, cfp: seq<nat>, i: nat, x: Symbol, src: seq<nat>)
    requires StatusesOK(g, cs0, cfp, i) && i < |cfp| && Next(g, ItemOf(cs0, cfp[i])) == Some(x)
    requires InPool(cs0, cfp) && Kept(cs0, cs) && Marked(cs0, cs, src) && AllOf(g, cs0, cfp, src, x)
    ensures StatusesOK(g, cs, cfp, i + 1)
  {
    KeptGrew(cs0, cs);
    forall j | 0 <= j < i + 1 && Next(g, ItemOf(cs, cfp[j])).Some? ensures StatusOf(cs, cfp[j]) == Complete {
      assert cfp[j] in cfp;
    }
    forall c, d | c in cfp && d in cfp && SameNext(g, cs, c, d) ensures StatusOf(cs, c) == StatusOf(cs, d) {
      assert SameNext(g, cs0, c, d);
    }
  }

  lemma SameNextStatuses(g: Grammar, cs: Pool, cfp: seq<nat>, i: nat)
    requires StatusesOK(g, cs, cfp, i)
    ensures forall c, d | c in cfp && d in cfp && SameNext(g, cs, c, d) :: StatusOf(cs, c) == StatusOf(cs, d)
  {
  }

  lemma StatusesSkip(g: Grammar, cs: Pool, cfp: seq<nat>, i: nat)
    requires StatusesOK(g, cs, cfp, i) && i < |cfp|
    requires Next(g, ItemOf(cs, cfp[i])).Some? ==> StatusOf(cs, cfp[i]) == Complete
    ensures StatusesOK(g, cs, cfp, i + 1)
  {
  }

  // The group of an incomplete configuration is still all incomplete, and none of it has been passed.
  lemma GroupAhead(g: Grammar, cs: Pool, cfp: seq<nat>, i: nat, c: nat)
    requires StatusesOK(g, cs, cfp, i) && i < |cfp| && StatusOf(cs, cfp[i]) == Incomplete
      && Next(g, ItemOf(cs, cfp[i])).Some?
    requires c in cfp && Next(g, ItemOf(cs, c)) == Next(g, ItemOf(cs, cfp[i]))
    ensures StatusOf(cs, c) == Incomplete && c in cfp[i..]
  {
    assert cfp[i] in cfp && SameNext(g, cs, cfp[i], c);
    var j :| 0 <= j < |cfp| && cfp[j] == c;
    assert j >= i && cfp[i..][j - i] == c;
  }

  // One symbol done: its shifts are in place, and what was done before still is.
  lemma BuiltStep(g: Grammar, cs0: Pool, cs: Pool, states: seq<State>, states': seq<State>, s: nat, x: Symbol, to: nat,
                  src: seq<nat>, nact: nat, nact': nat)
    requires s < |states| && Extends(states, states') && to < |states'| && nact <= nact'
    requires forall t: nat | t < |states| :: InPool(cs0, states[t].bp) && InPool(cs0, states[t].cfp)
    requires Kept(cs0, cs) && Marked(cs0, cs, src) && AllOf(g, cs0, states[s].cfp, src, x) && src != []
    requires BuiltSoFar(g, cs0, states, s, nact)
    requires states'[s].ap == PushShifts(states[s].ap, SymbolCodes(x), to, nact')
    requires g.ValidSymbol(x) && g.WellFormed()
    requires GotoIs(g, cs, states'[s], x, states'[to]) && forall c <- src :: Carries(cs, c, states'[to])
    requires forall c <- states[s].cfp :: ValidItem(g, ItemOf(cs0, c))
    requires forall c <- src :: StatusOf(cs0, c) == Incomplete
    requires forall c, d | c in states[s].cfp && d in states[s].cfp && SameNext(g, cs0, c, d) ::
      StatusOf(cs0, c) == StatusOf(cs0, d)
    ensures BuiltSoFar(g, cs, states', s, nact' + |SymbolCodes(x)|)
  {
    hide ShiftDone, ActionOK, Clashing, ClashingRepeats, Repeated;
    var ap, ap', cfp, codes := states[s].ap, states'[s].ap, states[s].cfp, SymbolCodes(x);
    KeptGrew(cs0, cs);
    assert SameLists(states[s], states'[s]);
    PushedShifts(ap, codes, to, nact');
    if !AllDifferent(codes) { PushedRepeated(ap, codes, to, nact'); }
    forall c | c in cfp && StatusOf(cs, c) == Complete ensures ShiftDone(g, cs, states', s, c) {
      if c in src {
        NewShiftDone(g, cs, states', s, c, x, to);
      } else {
        ShiftDoneKept(g, cs0, cs, states, states', s, c);
      }
    }
    forall a | a in ap' ensures ActionOK(g, cs, states', s, a) && FromComplete(g, cs, cfp, a) {
      if a in ap {
        ActionOKKept(g, cs0, cs, states, states', s, a);
        var c :| c in cfp && StatusOf(cs0, c) == Complete && Next(g, ItemOf(cs0, c)).Some?
            && a.sp in SymbolCodes(Next(g, ItemOf(cs0, c)).value);
        assert StatusOf(cs, c) == Complete;
      } else {
        assert src[0] in src;
        NewActionOK(g, cs, states', s, src[0], x, a);
      }
    }
    ClashesAsked(g, cs0, cfp, ap, x, src);
    ClashingKept(g, cs0, cs, cfp, ap);
    forall sp | Clashing(g, cs0, cfp, sp) ensures Clashing(g, cs, cfp, sp) { ClashingStays(g, cs0, cs, cfp, sp); }
    PushedClashing(g, cs, cfp, ap, codes, to, nact');
  }

  lemma NewShiftDone(g: Grammar, cs: Pool, states: seq<State>, s: nat, c: nat, x: Symbol, to: nat)
    requires s < |states| && to < |states| && Next(g, ItemOf(cs, c)) == Some(x)
    requires GotoIs(g, cs, states[s], x, states[to]) && Carries(cs, c, states[to]) && ShiftsOn(states[s].ap, x, to)
    ensures ShiftDone(g, cs, states, s, c)
  {
    assert ShiftTo(g, cs, states, s, c, x, to);
  }

  lemma NewActionOK(g: Grammar, cs: Pool, states: seq<State>, s: nat, c: nat, x: Symbol, a: Action)
    requires s < |states| && a.x < |states| && c in states[s].cfp && Next(g, ItemOf(cs, c)) == Some(x)
    requires a.kind == SHIFT && a.sp in SymbolCodes(x) && GotoIs(g, cs, states[s], x, states[a.x])
    ensures ActionOK(g, cs, states, s, a)
    ensures StatusOf(cs, c) == Complete ==> FromComplete(g, cs, states[s].cfp, a)
  {
  }

  lemma ClashingStays(g: Grammar, cs: Pool, cs': Pool, cfp: seq<nat>, sp: nat)
    requires Kept(cs, cs') && InPool(cs, cfp) && Clashing(g, cs, cfp, sp)
    ensures Clashing(g, cs', cfp, sp)
  {
    hide ClashOn;
    KeptGrew(cs, cs');
    var c, d :| c in cfp && d in cfp && ClashOn(Next(g, ItemOf(cs, c)), Next(g, ItemOf(cs, d)), sp);
    assert ItemOf(cs', c) == ItemOf(cs, c) && ItemOf(cs', d) == ItemOf(cs, d);
  }

  // An action that is there already was entered for another symbol than that of an incomplete group.
  lemma ClashesAsked(g: Grammar, cs: Pool, cfp: seq<nat>, ap: seq<Action>, x: Symbol, src: seq<nat>)
    requires src != [] && AllOf(g, cs, cfp, src, x)
    requires forall c <- src :: StatusOf(cs, c) == Incomplete
    requires forall a <- ap :: FromComplete(g, cs, cfp, a)
    requires forall c, d | c in cfp && d in cfp && SameNext(g, cs, c, d) :: StatusOf(cs, c) == StatusOf(cs, d)
    ensures forall a <- ap | a.sp in SymbolCodes(x) :: Clashing(g, cs, cfp, a.sp)
    ensures forall i, j | 0 <= i < j < |SymbolCodes(x)| && SymbolCodes(x)[i] == SymbolCodes(x)[j] ::
      Clashing(g, cs, cfp, SymbolCodes(x)[i])
  {
    assert src[0] in src && src[0] in cfp;
    forall a | a in ap && a.sp in SymbolCodes(x) ensures Clashing(g, cs, cfp, a.sp) {
      var c :| c in cfp && StatusOf(cs, c) == Complete && Next(g, ItemOf(cs, c)).Some?
          && a.sp in SymbolCodes(Next(g, ItemOf(cs, c)).value);
      assert !SameNext(g, cs, src[0], c);
      assert ClashOn(Next(g, ItemOf(cs, src[0])), Next(g, ItemOf(cs, c)), a.sp);
    }
    forall i, j | 0 <= i < j < |SymbolCodes(x)| && SymbolCodes(x)[i] == SymbolCodes(x)[j]
      ensures Clashing(g, cs, cfp, SymbolCodes(x)[i])
    {
      assert ClashOn(Next(g, ItemOf(cs, src[0])), Next(g, ItemOf(cs, src[0])), SymbolCodes(x)[i]);
    }
  }

  // ---- what building the successors of state s leaves alone ----

  ghost predicate OnlyState(cs: Pool, states: seq<State>, cs': Pool, states': seq<State>, s: nat) {
    && s < |states| <= |states'| && Kept(cs, cs')
    && SameLists(states[s], states'[s])
    && (forall a <- states[s].ap :: a in states'[s].ap)
    && (forall t: nat | t < |states| && t != s :: states'[t] == states[t])
    && (forall c: nat | c < |cs| && c !in states[s].cfp :: StatusOf(cs', c) == StatusOf(cs, c))
  }

  lemma OnlyStateTrans(a: Pool, sa: seq<State>, b: Pool, sb: seq<State>, c: Pool, sc: seq<State>, s: nat)
    requires OnlyState(a, sa, b, sb, s) && OnlyState(b, sb, c, sc, s)
    ensures OnlyState(a, sa, c, sc, s)
  {
    KeptTrans(a, b, c);
  }

  lemma OnlyStateExtends(cs: Pool, states: seq<State>, cs': Pool, states': seq<State>, s: nat)
    requires OnlyState(cs, states, cs', states', s)
    ensures Extends(states, states') && Kept(cs, cs') && |states| <= |states'|
  {
    forall t | 0 <= t < |states| ensures SameLists(states[t], states'[t]) {}
  }

  lemma FoundStaysOnly(g: Grammar, lambda: Lambdas, first: Firsts, cs: Pool, states: seq<State>, cs': Pool,
                       states': seq<State>, s: nat, lo: nat, lo': nat)
    requires OnlyState(cs, states, cs', states', s) && lo' <= lo && Good(g, lambda, first, cs, states)
    ensures forall t: nat | FoundFrom(g, cs, states, lo, t) :: FoundFrom(g, cs', states', lo', t)
  {
    hide FoundFrom, Good;
    OnlyStateExtends(cs, states, cs', states', s);
    GoodBackLinks(g, lambda, first, cs, states);
    forall t: nat | FoundFrom(g, cs, states, lo, t) ensures FoundFrom(g, cs', states', lo', t) {
      FoundStays(g, cs, cs', states, states', lo, lo', t);
    }
  }

  // The next state is found over configuration number i of s, after everything that comes before.
  lemma FoundNow(g: Grammar, lambda: Lambdas, first: Firsts, cs0: Pool, states0: seq<State>, cs: Pool,
                 states: seq<State>, s: nat, i: nat, nact: nat)
    requires OnlyState(cs0, states0, cs, states, s) && Good(g, lambda, first, cs0, states0)
    requires i < |states0[s].cfp| && Next(g, ItemOf(cs0, states0[s].cfp[i])).Some? && |states| > |states0|
    requires GotoIs(g, cs, states[s], Next(g, ItemOf(cs0, states0[s].cfp[i])).value, states[|states0|])
    requires StatusesOK(g, cs0, states0[s].cfp, i) && BuiltSoFar(g, cs0, states0, s, nact)
    requires forall q: nat | s < q < |states0| :: Done(g, cs0, states0, q)
    ensures FoundFrom(g, cs, states, s, |states0|)
  {
    hide Good, GotoIs, AllLeadBelow, Done, BuiltSoFar;
    OnlyStateExtends(cs0, states0, cs, states, s);
    GoodBackLinks(g, lambda, first, cs0, states0);
    KeptGrew(cs0, cs);
    var cfp := states0[s].cfp;
    assert SameLists(states0[s], states[s]) && cfp[i] in cfp && forall c <- cfp[..i] :: c in cfp;
    EarlierLead(g, cs0, states0, s, i, nact);
    LeadsKept(g, cs0, cs, states0, states, s, cfp[..i], |states0|);
    forall q: nat | s < q < |states0| ensures AllLeadBelow(g, cs, states, q, states[q].cfp, |states0|) {
      assert SameLists(states0[q], states[q]);
      DoneLeads(g, cs0, states0, q);
      LeadsKept(g, cs0, cs, states0, states, q, states0[q].cfp, |states0|);
    }
    assert FoundOver(g, cs, states, |states0|, s, i);
  }

  lemma EarlierLead(g: Grammar, cs: Pool, states: seq<State>, s: nat, i: nat, nact: nat)
    requires s < |states| && StatusesOK(g, cs, states[s].cfp, i) && BuiltSoFar(g, cs, states, s, nact)
    ensures AllLeadBelow(g, cs, states, s, states[s].cfp[..i], |states|)
  {
    hide GotoIs, ActionsOK, Carries, ShiftsOn, FromComplete;
    var cfp := states[s].cfp;
    forall c | c in cfp[..i] && Next(g, ItemOf(cs, c)).Some? ensures LeadsBelow(g, cs, states, s, c, |states|) {
      var j :| 0 <= j < i && cfp[j] == c;
      assert ShiftDone(g, cs, states, s, c);
      var to: nat :| ShiftTo(g, cs, states, s, c, Next(g, ItemOf(cs, c)).value, to);
    }
  }

  lemma DoneLeads(g: Grammar, cs: Pool, states: seq<State>, s: nat)
    requires s < |states| && Done(g, cs, states, s)
    ensures AllLeadBelow(g, cs, states, s, states[s].cfp, |states|)
  {
    hide GotoIs, ActionsOK, Carries, ShiftsOn, ShiftsAsked;
    forall c | c in states[s].cfp && Next(g, ItemOf(cs, c)).Some? ensures LeadsBelow(g, cs, states, s, c, |states|) {
      assert ShiftDone(g, cs, states, s, c);
      var to: nat :| ShiftTo(g, cs, states, s, c, Next(g, ItemOf(cs, c)).value, to);
    }
  }

  lemma BuiltActions(g: Grammar, cs: Pool, states: seq<State>, s: nat, nact: nat)
    requires s < |states| && BuiltSoFar(g, cs, states, s, nact)
    ensures Descending(states[s].ap) && forall n: nat | n >= nact :: AddrBelow(states[s].ap, n)
  {
  }

  // Addresses in other states stay below the number of actions allocated.
  lemma AddressesStay(cs: Pool, states: seq<State>, cs': Pool, states': seq<State>, s: nat, nact: nat, nact': nat)
    requires OnlyState(cs, states, cs', states', s) && nact <= nact'
    ensures forall t: nat | t < |states| && t != s && AddrBelow(states[t].ap, nact) :: AddrBelow(states'[t].ap, nact')
  {
  }

  // States finished before stay finished.
  lemma DoneStays(g: Grammar, lambda: Lambdas, first: Firsts, cs: Pool, states: seq<State>, cs': Pool,
                  states': seq<State>, s: nat)
    requires OnlyState(cs, states, cs', states', s) && Good(g, lambda, first, cs, states)
    ensures forall t: nat | t < |states| && t != s && Done(g, cs, states, t) :: Done(g, cs', states', t)
  {
    hide Done, Good;
    OnlyStateExtends(cs, states, cs', states', s);
    GoodBackLinks(g, lambda, first, cs, states);
    forall t: nat | t < |states| && t != s && Done(g, cs, states, t) ensures Done(g, cs', states', t) {
      DoneKept(g, cs, cs', states, states', t);
    }
  }

  // After the group's state has been found, the actions of s are replaced; the rest is as getstate left it.
  lemma GroupShifted(g: Grammar, lambda: Lambdas, first: Firsts, cs0: Pool, cs1: Pool, ids: seq<nat>, src: seq<nat>,
                     x: Symbol, states: seq<State>, cs2: Pool, states2: seq<State>, s: nat, to: nat, ap: seq<Action>)
    requires s < |states| && Group(g, cs0, cs1, ids, src, x) && AllOf(g, cs0, states[s].cfp, src, x)
    requires Good(g, lambda, first, cs0, states)
    requires |ids| <= |cs1| && Reached(g, lambda, first, cs1, ids, states, cs2, states2, to)
    requires forall a <- states[s].ap :: a in ap
    ensures var states3 := states2[s := State(states2[s].bp, states2[s].cfp, ap)];
      && OnlyState(cs0, states, cs2, states3, s) && Good(g, lambda, first, cs2, states3)
      && Marked(cs0, cs2, src)
      && GotoIs(g, cs2, states3[s], x, states3[to]) && (forall c <- src :: Carries(cs2, c, states3[to]))
      && OnlyState(cs2, states2, cs2, states3, s)
  {
    hide Good, Received;
    var n := |cs0|;
    var states3 := states2[s := State(states2[s].bp, states2[s].cfp, ap)];
    assert |cs1| - |ids| == n;
    forall c | 0 <= c < n ensures KeptOne(cs0[c], cs2[c]) {
      assert KeptOne(cs1[..n][c], cs2[c]);
    }
    KeptGrew(cs0, cs2);
    forall c: nat | c < n ensures StatusOf(cs2, c) == if c in src then Complete else StatusOf(cs0, c) {
      assert cs1[..n][c].status == cs2[c].status;
    }
    GoodBackLinks(g, lambda, first, cs2, states2);
    GoodKept(g, lambda, first, cs2, cs2, states2, states3);
    GoodBackLinks(g, lambda, first, cs0, states);
    GroupItems(g, cs0, cs1, ids, src, x, states[s].cfp);
    KeptItems(cs0, cs2, states[s].cfp);
    ReceivedItems(cs1, ids, cs2, states2[to]);
    forall c | c in src ensures Carries(cs2, c, states3[to]) {
      GroupCarried(g, cs0, cs1, ids, src, x, cs2, states2[to], c);
    }
  }

  lemma ReceivedItems(before: Pool, basis: seq<nat>, cs: Pool, st: State)
    requires Received(before, basis, cs, st)
    ensures ItemSet(cs, st.bp) == ItemSet(before, basis)
  {
  }

  // getstate has found or made a state; building its successors does not take that back.
  lemma ReachedStays(g: Grammar, lambda: Lambdas, first: Firsts, before: Pool, basis: seq<nat>, states: seq<State>,
                     cs: Pool, states1: seq<State>, stp: nat, cs': Pool, states': seq<State>)
    requires |basis| <= |before| && Reached(g, lambda, first, before, basis, states, cs, states1, stp)
    requires |states| == stp && |states1| == stp + 1
    requires OnlyState(cs, states1, cs', states', stp) && Good(g, lambda, first, cs', states')
    requires forall c <- states1[stp].cfp :: c >= |before| - |basis|
    ensures Reached(g, lambda, first, before, basis, states, cs', states', stp)
  {
    hide Good;
    var n := |before| - |basis|;
    KeptTrans(before[..n], cs, cs');
    forall c | 0 <= c < n ensures before[..n][c].status == cs'[c].status {
      assert before[..n][c].status == cs[c].status && StatusOf(cs', c) == StatusOf(cs, c);
    }
    KeptGrew(cs, cs');
    forall t | 0 <= t < |states| ensures states[t] == states'[t] { assert states1[t] == states[t]; }
    GoodBackLinks(g, lambda, first, cs', states');
    forall x | x in basis ensures HasPlace(before, cs', x, states'[stp]) {
      assert HasPlace(before, cs, x, states1[stp]);
      var y :| y in states1[stp].bp && x < |before| && y < |cs| && cs[y].item == before[x].item
          && forall b <- before[x].bplp :: b in cs[y].bplp;
      assert KeptOne(cs[y], cs'[y]);
    }
    forall y | y in states1[stp].bp ensures ItemOf(cs', y) == ItemOf(cs, y) || y >= |cs| {}
    ReachedInPool(g, lambda, first, cs, states1, stp);
    KeptItems(cs, cs', states1[stp].bp);
    if states == [] {
      forall x | x in basis ensures x in states'[0].bp && x < |cs'| && GrewOne(before[x], cs'[x]) {
        assert GrewOne(before[x], cs[x]) && KeptOne(cs[x], cs'[x]);
      }
    }
  }

  lemma ReachedInPool(g: Grammar, lambda: Lambdas, first: Firsts, cs: Pool, states: seq<State>, s: nat)
    requires Good(g, lambda, first, cs, states) && s < |states|
    ensures InPool(cs, states[s].bp)
  {
    GoodBackLinks(g, lambda, first, cs, states);
  }

  lemma ConfigInPool(g: Grammar, lambda: Lambdas, first: Firsts, cs: Pool, states: seq<State>, s: nat, i: nat)
    requires g.WellFormed() && Good(g, lambda, first, cs, states) && s < |states| && i < |states[s].cfp|
    ensures states[s].cfp[i] < |cs|
    ensures Next(g, ItemOf(cs, states[s].cfp[i])).Some? ==> g.ValidSymbol(Next(g, ItemOf(cs, states[s].cfp[i])).value)
  {
    GoodBackLinks(g, lambda, first, cs, states);
    var c := states[s].cfp[i];
    assert c in states[s].cfp;
    var it := ItemOf(cs, c);
    if Next(g, it).Some? {
      assert g.rules[it.rule] in g.rules && g.rules[it.rule].rhs[it.dot] in g.rules[it.rule].rhs;
    }
  }

  lemma StateLists(g: Grammar, lambda: Lambdas, first: Firsts, cs: Pool, st: State)
    requires StateOK(g, lambda, first, cs, st)
    ensures InPool(cs, st.cfp) && ValidItems(g, cs, st.cfp) && DistinctItems(cs, st.cfp)
  {
    forall i, j | 0 <= i < j < |st.cfp| ensures ItemOf(cs, st.cfp[i]) != ItemOf(cs, st.cfp[j]) {
      assert ItemsOf(cs, st.cfp)[i] != ItemsOf(cs, st.cfp)[j];
    }
  }

  // All of the state's configurations are marked incomplete, nothing else changes.
  ghost predicate MarkedIncomplete(cs0: Pool, cs: Pool, cfp: seq<nat>) {
    && |cs| == |cs0|
    && forall c: nat | c < |cs0| :: cs[c] == cs0[c].(status := if c in cfp then Incomplete else cs0[c].status)
  }

  lemma UnmarkedStart(g: Grammar, lambda: Lambdas, first: Firsts, cs0: Pool, cs: Pool, states: seq<State>, s: nat,
                      nact: nat)
    requires Good(g, lambda, first, cs0, states) && s < |states| && states[s].ap == []
      && MarkedIncomplete(cs0, cs, states[s].cfp)
    ensures Good(g, lambda, first, cs, states) && OnlyState(cs0, states, cs, states, s)
    ensures StatusesOK(g, cs, states[s].cfp, 0) && BuiltSoFar(g, cs, states, s, nact)
    ensures AskedSoFar(g, cs, states, s, 0)
  {
    hide Good;
    forall c | 0 <= c < |cs0| ensures KeptOne(cs0[c], cs[c]) {}
    GoodBackLinks(g, lambda, first, cs0, states);
    forall c: nat, b | c < |cs| && b in cs[c].bplp ensures BackLinkOK(cs, c, b) {
      assert b in cs0[c].bplp;
      assert BackLinkOK(cs0, c, b);
    }
    GoodKept(g, lambda, first, cs0, cs, states, states);
    assert SameLists(states[s], states[s]);
    forall c | c in states[s].cfp ensures StatusOf(cs, c) == Incomplete {}
  }
}

/** FindLinks and FindFollowSets: look-aheads flow along propagation links until nothing changes. */
module Follow {
  import opened Configs
  import opened Collection

  ghost predicate InStates(states: seq<State>, c: nat) {
    exists s: nat :: s < |states| && c in states[s].cfp
  }

  ghost predicate AllInPool(cs: Pool, states: seq<State>) {
    forall s: nat | s < |states| :: InPool(cs, states[s].cfp)
  }

  // ---- FindLinks ----

  // Nothing but forward links changes.
  ghost predicate OnlyLinks(cs: Pool, cs': Pool) {
    && |cs'| == |cs|
    && forall c: nat | c < |cs| :: cs'[c] == cs[c].(fplp := cs'[c].fplp)
  }

  // Forward links of c: those it had, and one to every member of `done` that has c among its back links.
  ghost predicate Linked(cs: Pool, cs': Pool, done: set<nat>) {
    && OnlyLinks(cs, cs')
    && forall c: nat, d: nat | c < |cs| :: d in cs'[c].fplp
        <==> d in cs[c].fplp || (d in done && d < |cs| && c in cs[d].bplp)
  }

  method LinkOne(cs: Pool, d: nat, ghost cs0: Pool, ghost done: set<nat>) returns (cs': Pool)
    requires d < |cs| && Linked(cs0, cs, done) && forall b <- cs0[d].bplp :: b < |cs0|
    ensures Linked(cs0, cs', done + {d})
  {
    cs' := cs;
    var back := cs[d].bplp;
    for k := 0 to |back|
      invariant OnlyLinks(cs0, cs')
      invariant forall c: nat, e: nat | c < |cs0| ::
        e in cs'[c].fplp <==> e in cs[c].fplp || (e == d && c in back[..k])
    {
      var other := back[k];
      assert other in cs0[d].bplp;
      cs' := cs'[other := cs'[other].(fplp := [d] + cs'[other].fplp)];
    }
    assert back[..|back|] == back;
  }

  ghost function MembersUpTo(states: seq<State>, s: nat, j: nat): set<nat>
    requires s <= |states|
  {
    (set t, c | 0 <= t < s && c in states[t].cfp :: c)
        + (if s < |states| && j <= |states[s].cfp| then set c <- states[s].cfp[..j] else {})
  }

  // A forward link from c to d was there, or d has c among its back links.
  ghost predicate LinkedRight(cs: Pool, states: seq<State>, cs': Pool, c: nat, d: nat)
    requires c < |cs| && c < |cs'|
  {
    d in cs'[c].fplp <==> d in cs[c].fplp || (InStates(states, d) && d < |cs| && c in cs[d].bplp)
  }

  // Every back link becomes a forward link.
  method FindLinks(cs: Pool, states: seq<State>) returns (cs': Pool)
    requires AllInPool(cs, states) && forall c: nat, b | c < |cs| && b in cs[c].bplp :: b < |cs|
    ensures OnlyLinks(cs, cs')
    ensures forall c: nat, d: nat | c < |cs| :: LinkedRight(cs, states, cs', c, d)
  {
    cs' := cs;
    ghost var done: set<nat> := {};
    for s := 0 to |states|
      invariant Linked(cs, cs', done) && done == MembersUpTo(states, s, 0)
    {
      var cfp := states[s].cfp;
      assert InPool(cs, cfp);
      for j := 0 to |cfp|
        invariant Linked(cs, cs', done) && done == MembersUpTo(states, s, j)
      {
        assert cfp[j] in cfp && cfp[..j + 1] == cfp[..j] + [cfp[j]];
        cs' := LinkOne(cs', cfp[j], cs, done);
        done := done + {cfp[j]};
      }
      assert cfp[..|cfp|] == cfp;
      assert done == MembersUpTo(states, s + 1, 0);
    }
    forall d: nat ensures d in done <==> InStates(states, d) {}
    AllLinked(cs, states, cs', done);
  }

  lemma AllLinked(cs: Pool, states: seq<State>, cs': Pool, done: set<nat>)
    requires Linked(cs, cs', done) && forall d: nat :: d in done <==> InStates(states, d)
    ensures forall c: nat, d: nat | c < |cs| :: LinkedRight(cs, states, cs', c, d)
  {
    hide InStates;
    forall c: nat, d: nat | c < |cs| ensures LinkedRight(cs, states, cs', c, d) {
      assert d in done <==> InStates(states, d);
    }
  }

  // ---- FindFollowSets ----

  // Look-aheads flow from a to c over n links, through configurations of states.
  ghost predicate FlowsIn(cs: Pool, states: seq<State>, a: nat, c: nat, n: nat)
    decreases n
  {
    && a < |cs| && c < |cs| && InStates(states, a)
    && if n == 0 then a == c
       else exists b: nat :: b < |cs| && FlowsIn(cs, states, a, b, n - 1) && InStates(states, b) && c in cs[b].fplp
  }

  ghost predicate Flows(cs: Pool, states: seq<State>, a: nat, c: nat) {
    exists n: nat :: FlowsIn(cs, states, a, c, n)
  }

  // Symbol t reaches c from a configuration that held it at the start.
  ghost predicate Arrives(cs: Pool, states: seq<State>, c: nat, t: nat) {
    exists a: nat :: Flows(cs, states, a, c) && t in cs[a].fws
  }

  // Nothing but look-aheads and statuses changes, and look-aheads are only added.
  ghost predicate OnlyFws(cs: Pool, cs': Pool) {
    && |cs'| == |cs|
    && forall c: nat | c < |cs| :: cs'[c] == cs[c].(fws := cs'[c].fws, status := cs'[c].status)
        && cs[c].fws <= cs'[c].fws
  }

  ghost predicate AllArrived(cs: Pool, states: seq<State>, cs': Pool) {
    forall c: nat, t | c < |cs'| && c < |cs| && InStates(states, c) && t in cs'[c].fws :: Arrives(cs, states, c, t)
  }

  ghost predicate LinksClosed(cs: Pool, states: seq<State>) {
    forall c: nat, d | InStates(states, c) && c < |cs| && d in cs[c].fplp :: StaysInside(cs, states, c, d)
  }

  ghost predicate StaysInside(cs: Pool, states: seq<State>, c: nat, d: nat) {
    d < |cs| && InStates(states, d)
  }

  // A configuration marked complete has passed on all it has.
  ghost predicate PassedOn(cs: Pool, c: nat) {
    c < |cs| && forall d: nat | d in cs[c].fplp && d < |cs| :: cs[c].fws <= cs[d].fws
  }

  ghost predicate CompletePassed(cs: Pool, states: seq<State>) {
    forall c: nat | InStates(states, c) && c < |cs| && cs[c].status == Complete :: PassedOn(cs, c)
  }

  ghost function Pairs(cs: Pool): set<(nat, nat)> {
    set c: nat, t | c < |cs| && t in cs[c].fws :: (c, t)
  }

  ghost function Everything(cs: Pool): set<nat> {
    set c: nat, t | c < |cs| && t in cs[c].fws :: t
  }

  ghost function Room(n: nat, all: set<nat>): set<(nat, nat)> {
    set c: nat, t | c < n && t in all :: (c, t)
  }

  // All complete configurations, c perhaps excepted, have passed on what they have.
  ghost predicate PassedBut(cs: Pool, states: seq<State>, c: nat) {
    forall b: nat | InStates(states, b) && b < |cs| && b != c && cs[b].status == Complete :: PassedOn(cs, b)
  }

  // SetUnion along one link; a set that changes makes its configuration incomplete.
  function PassOn(cs: Pool, c: nat, d: nat): Pool
    requires c < |cs| && d < |cs|
  {
    if cs[c].fws <= cs[d].fws then cs
    else cs[d := cs[d].(fws := cs[d].fws + cs[c].fws, status := Incomplete)]
  }

  lemma PassOnArrives(cs0: Pool, states: seq<State>, cs: Pool, c: nat, d: nat)
    requires OnlyFws(cs0, cs) && AllArrived(cs0, states, cs) && LinksClosed(cs0, states)
    requires c < |cs| && d < |cs| && InStates(states, c) && d in cs[c].fplp
    ensures OnlyFws(cs0, PassOn(cs, c, d)) && AllArrived(cs0, states, PassOn(cs, c, d))
  {
    var cs' := PassOn(cs, c, d);
    forall e: nat, t | e < |cs'| && InStates(states, e) && t in cs'[e].fws ensures Arrives(cs0, states, e, t) {
      if t !in cs[e].fws {
        assert e == d && t in cs[c].fws;
        assert Arrives(cs0, states, c, t);
        var a: nat :| Flows(cs0, states, a, c) && t in cs0[a].fws;
        var n: nat :| FlowsIn(cs0, states, a, c, n);
        assert FlowsIn(cs0, states, a, d, n + 1);
      }
    }
  }

  lemma PassOnPassed(cs: Pool, states: seq<State>, c: nat, d: nat)
    requires PassedBut(cs, states, c) && c < |cs| && d < |cs|
    ensures PassedBut(PassOn(cs, c, d), states, c)
    ensures PassOn(cs, c, d)[c].fws == cs[c].fws && PassOn(cs, c, d)[c].fplp == cs[c].fplp
    ensures cs[c].fws <= PassOn(cs, c, d)[d].fws
    ensures forall e: nat | e < |cs| :: cs[e].fws <= PassOn(cs, c, d)[e].fws
  {
    var cs' := PassOn(cs, c, d);
    forall b: nat | InStates(states, b) && b < |cs'| && b != c && cs'[b].status == Complete ensures PassedOn(cs', b) {
      assert PassedOn(cs, b);
    }
  }

  lemma PassOnPairs(cs: Pool, c: nat, d: nat)
    requires c < |cs| && d < |cs|
    ensures PassOn(cs, c, d) != cs ==> Pairs(cs) < Pairs(PassOn(cs, c, d))
    ensures Everything(PassOn(cs, c, d)) <= Everything(cs)
  {
    var cs' := PassOn(cs, c, d);
    if cs' != cs {
      var t :| t in cs[c].fws && t !in cs[d].fws;
      assert (d, t) in Pairs(cs') && (d, t) !in Pairs(cs);
      forall p | p in Pairs(cs) ensures p in Pairs(cs') {}
    }
  }

  ghost predicate FollowState(cs0: Pool, states: seq<State>, cs: Pool) {
    OnlyFws(cs0, cs) && AllArrived(cs0, states, cs) && Everything(cs) <= Everything(cs0)
  }

  // One configuration passes its look-aheads along all its links.
  method PassAlong(cs: Pool, states: seq<State>, c: nat, ghost cs0: Pool) returns (cs': Pool, progress: bool)
    requires c < |cs| && InStates(states, c) && LinksClosed(cs0, states)
    requires FollowState(cs0, states, cs) && CompletePassed(cs, states)
    ensures FollowState(cs0, states, cs') && CompletePassed(cs', states) && |cs'| == |cs| && cs'[c].status == Complete
    ensures !progress ==> Pairs(cs') == Pairs(cs) && forall e: nat | e < |cs| && e != c :: cs'[e] == cs[e]
    ensures progress ==> Pairs(cs) < Pairs(cs')
  {
    hide OnlyFws, AllArrived, Everything, PassedBut, InStates;
    var links := cs[c].fplp;
    LinksInPool(cs0, states, cs, c);
    cs', progress := cs, false;
    PassedStart(cs, states, c);
    for k := 0 to |links|
      invariant FollowState(cs0, states, cs') && PassedBut(cs', states, c) && |cs'| == |cs|
      invariant cs'[c].fws == cs[c].fws && cs'[c].fplp == links
      invariant forall i | 0 <= i < k && links[i] < |cs| :: cs[c].fws <= cs'[links[i]].fws
      invariant !progress ==> cs' == cs
      invariant progress ==> Pairs(cs) < Pairs(cs')
    {
      var d := links[k];
      assert d in links;
      PassOnArrives(cs0, states, cs', c, d);
      PassOnPassed(cs', states, c, d);
      PassOnPairs(cs', c, d);
      ghost var before := cs';
      if !(cs'[c].fws <= cs'[d].fws) {
        cs' := cs'[d := cs'[d].(fws := cs'[d].fws + cs'[c].fws, status := Incomplete)];
        progress := true;
      }
      assert cs' == PassOn(before, c, d);
    }
    ghost var passed := cs';
    cs' := cs'[c := cs'[c].(status := Complete)];
    PassedEnds(cs0, states, passed, c);
  }

  lemma LinksInPool(cs0: Pool, states: seq<State>, cs: Pool, c: nat)
    requires LinksClosed(cs0, states) && OnlyFws(cs0, cs) && InStates(states, c) && c < |cs|
    ensures forall d <- cs[c].fplp :: d < |cs| && InStates(states, d)
  {
    assert cs[c].fplp == cs0[c].fplp;
    forall d | d in cs[c].fplp
      ensures d < |cs| && InStates(states, d)
    {
      assert d in cs0[c].fplp && StaysInside(cs0, states, c, d);
    }
  }

  lemma PassedStart(cs: Pool, states: seq<State>, c: nat)
    requires CompletePassed(cs, states)
    ensures PassedBut(cs, states, c)
  {
  }

  lemma PassedEnds(cs0: Pool, states: seq<State>, cs: Pool, c: nat)
    requires c < |cs| && FollowState(cs0, states, cs) && PassedBut(cs, states, c) && PassedOn(cs, c)
    ensures var cs' := cs[c := cs[c].(status := Complete)];
      FollowState(cs0, states, cs') && CompletePassed(cs', states) && Pairs(cs') == Pairs(cs)
  {
    var cs' := cs[c := cs[c].(status := Complete)];
    forall b: nat | InStates(states, b) && b < |cs'| && cs'[b].status == Complete ensures PassedOn(cs', b) {
      assert PassedOn(cs, b);
    }
  }

  ghost predicate CompleteSoFar(cs: Pool, done: set<nat>) {
    forall c <- done :: c < |cs| && cs[c].status == Complete
  }

  method VisitOne(cs: Pool, states: seq<State>, c: nat, ghost cs0: Pool, ghost done: set<nat>)
    returns (cs': Pool, progress: bool)
    requires LinksClosed(cs0, states) && c < |cs| && InStates(states, c)
    requires FollowState(cs0, states, cs) && CompletePassed(cs, states)
    ensures FollowState(cs0, states, cs') && CompletePassed(cs', states)
    ensures if progress then Pairs(cs) < Pairs(cs') else
      Pairs(cs') == Pairs(cs)
      && (CompleteSoFar(cs, done) ==> CompleteSoFar(cs', done + {c}))
  {
    hide FollowState, CompletePassed, LinksClosed, InStates, Pairs;
    cs', progress := cs, false;
    if cs[c].status != Complete {
      cs', progress := PassAlong(cs, states, c, cs0);
    }
  }

  lemma SameSize(cs0: Pool, states: seq<State>, cs: Pool)
    requires FollowState(cs0, states, cs)
    ensures |cs| == |cs0|
  {
    hide AllArrived, Everything;
  }

  // One sweep over all configurations that are not complete.
  method FollowPass(cs: Pool, states: seq<State>, ghost cs0: Pool) returns (cs': Pool, progress: bool)
    requires AllInPool(cs0, states) && LinksClosed(cs0, states)
    requires FollowState(cs0, states, cs) && CompletePassed(cs, states)
    ensures FollowState(cs0, states, cs') && CompletePassed(cs', states)
    ensures !progress ==> Pairs(cs') == Pairs(cs) && forall c: nat | InStates(states, c) ::
      c < |cs'| && cs'[c].status == Complete
    ensures progress ==> Pairs(cs) < Pairs(cs')
  {
    hide AllArrived, Everything, CompletePassed, FollowState, LinksClosed, Pairs;
    cs', progress := cs, false;
    ghost var done: set<nat> := {};
    for s := 0 to |states|
      invariant FollowState(cs0, states, cs') && CompletePassed(cs', states)
      invariant if progress then Pairs(cs) < Pairs(cs') else Pairs(cs') == Pairs(cs) && CompleteSoFar(cs', done)
      invariant done == MembersUpTo(states, s, 0)
    {
      var cfp := states[s].cfp;
      assert InPool(cs0, cfp);
      for j := 0 to |cfp|
        invariant FollowState(cs0, states, cs') && CompletePassed(cs', states)
        invariant if progress then Pairs(cs) < Pairs(cs') else Pairs(cs') == Pairs(cs) && CompleteSoFar(cs', done)
        invariant done == MembersUpTo(states, s, j)
      {
        var c := cfp[j];
        assert c in cfp && cfp[..j + 1] == cfp[..j] + [c];
        assert InStates(states, c);
        SameSize(cs0, states, cs');
        var changed;
        cs', changed := VisitOne(cs', states, c, cs0, done);
        progress := progress || changed;
        done := done + {c};
      }
      assert cfp[..|cfp|] == cfp;
      assert done == MembersUpTo(states, s + 1, 0);
    }
    forall c: nat | InStates(states, c) ensures c in done {}
  }

  // On exit every set holds exactly what flows to it: the least solution of the propagation links.
  method FindFollowSets(cs: Pool, states: seq<State>) returns (cs': Pool)
    requires AllInPool(cs, states) && LinksClosed(cs, states)
    ensures OnlyFws(cs, cs')
    ensures forall c: nat, t | InStates(states, c) :: c < |cs'| && (t in cs'[c].fws <==> Arrives(cs, states, c, t))
  {
    cs' := cs;
    for s := 0 to |states|
      invariant FreshStart(cs, cs') && NoneComplete(cs', MembersUpTo(states, s, 0))
    {
      var cfp := states[s].cfp;
      assert InPool(cs, cfp);
      for j := 0 to |cfp|
        invariant FreshStart(cs, cs') && NoneComplete(cs', MembersUpTo(states, s, j))
      {
        assert cfp[j] in cfp && cfp[..j + 1] == cfp[..j] + [cfp[j]];
        assert MembersUpTo(states, s, j + 1) == MembersUpTo(states, s, j) + {cfp[j]};
        cs' := cs'[cfp[j] := cs'[cfp[j]].(status := Incomplete)];
      }
      assert cfp[..|cfp|] == cfp;
      assert MembersUpTo(states, s + 1, 0) == MembersUpTo(states, s, |cfp|);
    }
    FollowStarts(cs, states, cs');
    var progress := true;
    while progress
      invariant FollowState(cs, states, cs') && CompletePassed(cs', states)
      invariant !progress ==> forall c: nat | InStates(states, c) :: c < |cs'| && cs'[c].status == Complete
      decreases Room(|cs|, Everything(cs)) - Pairs(cs'), progress
    {
      PairsInRoom(cs, cs');
      cs', progress := FollowPass(cs', states, cs);
      PairsInRoom(cs, cs');
    }
    FollowEnds(cs, states, cs');
  }

  ghost predicate FreshStart(cs: Pool, cs': Pool) {
    |cs'| == |cs| && forall c: nat | c < |cs| :: cs'[c] == cs[c].(status := cs'[c].status)
  }

  ghost predicate NoneComplete(cs: Pool, done: set<nat>) {
    forall c <- done :: c < |cs| ==> cs[c].status != Complete
  }

  lemma FollowStarts(cs: Pool, states: seq<State>, cs': Pool)
    requires AllInPool(cs, states) && FreshStart(cs, cs') && NoneComplete(cs', MembersUpTo(states, |states|, 0))
    ensures FollowState(cs, states, cs') && CompletePassed(cs', states)
  {
    forall c: nat, t | c < |cs'| && InStates(states, c) && t in cs'[c].fws ensures Arrives(cs, states, c, t) {
      assert FlowsIn(cs, states, c, c, 0);
      assert Flows(cs, states, c, c);
    }
    forall c: nat | InStates(states, c) ensures c in MembersUpTo(states, |states|, 0) {}
  }

  lemma PairsInRoom(cs: Pool, cs': Pool)
    requires |cs'| == |cs| && Everything(cs') <= Everything(cs)
    ensures Pairs(cs') <= Room(|cs|, Everything(cs))
  {
    forall p | p in Pairs(cs') ensures p in Room(|cs|, Everything(cs)) {
      assert p.1 in Everything(cs');
    }
  }

  lemma FollowEnds(cs: Pool, states: seq<State>, cs': Pool)
    requires AllInPool(cs, states) && LinksClosed(cs, states) && FollowState(cs, states, cs')
      && CompletePassed(cs', states)
    requires forall c: nat | InStates(states, c) :: c < |cs'| && cs'[c].status == Complete
    ensures forall c: nat, t | InStates(states, c) :: c < |cs'| && (t in cs'[c].fws <==> Arrives(cs, states, c, t))
  {
    forall c: nat, t | InStates(states, c) && Arrives(cs, states, c, t) ensures t in cs'[c].fws {
      var a: nat :| Flows(cs, states, a, c) && t in cs[a].fws;
      var n: nat :| FlowsIn(cs, states, a, c, n);
      FlowedTo(cs, states, cs', a, c, n, t);
    }
  }

  lemma {:induction false} FlowedTo(cs: Pool, states: seq<State>, cs': Pool, a: nat, c: nat, n: nat, t: nat)
    requires OnlyFws(cs, cs') && CompletePassed(cs', states) && FlowsIn(cs, states, a, c, n) && t in cs[a].fws
    requires forall c: nat | InStates(states, c) :: c < |cs'| && cs'[c].status == Complete
    ensures t in cs'[c].fws
    decreases n
  {
    if n == 0 {
      assert cs[c].fws <= cs'[c].fws;
    } else {
      var b: nat :| b < |cs| && FlowsIn(cs, states, a, b, n - 1) && InStates(states, b) && c in cs[b].fplp;
      FlowedTo(cs, states, cs', a, b, n - 1, t);
      assert PassedOn(cs', b) && cs'[b].fplp == cs[b].fplp;
    }
  }
}

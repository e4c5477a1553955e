/** The LR(0) collection: FindStates, getstate, buildshifts, and the configuration-list routines they drive. */
module States {
  import opened Options
  import opened Grammars
  import opened FirstSets
  import opened Automata
  import opened Sorting
  import opened Configs
  import opened Closures
  import opened ActionLists
  import opened Collection
  import opened Bases
  import opened Shifting
  import opened Backlinks

  class Lemon {
    const g: Grammar
    const lambda: Lambdas
    const first: Firsts
    var configs: Pool           // every configuration not given back to the free list
    var current: seq<nat>       // the configuration list being built
    var basis: seq<nat>         // the basis configurations among it
    var states: seq<State>      // by state number
    var nact: nat               // actions allocated so far

    constructor (g: Grammar, lambda: Lambdas, first: Firsts)
      ensures this.g == g && this.lambda == lambda && this.first == first
      ensures configs == [] && current == [] && basis == [] && states == []
    {
      this.g, this.lambda, this.first := g, lambda, first;
      configs, current, basis, states, nact := [], [], [], [], 0;
    }

    // Configtable_find: the list member with this rule and dot, or -1.
    method FindConfig(it: Item) returns (k: int)
      requires InPool(configs, current)
      ensures -1 <= k < |current|
      ensures k >= 0 ==> current[k] < |configs| && configs[current[k]].item == it
      ensures k < 0 ==> forall c <- current :: ItemOf(configs, c) != it
    {
      k := 0;
      while k < |current|
        invariant 0 <= k <= |current|
        invariant forall i | 0 <= i < k :: ItemOf(configs, current[i]) != it
      {
        assert current[k] in current;
        if configs[current[k]].item == it { return; }
        k := k + 1;
      }
      k := -1;
    }

    // Configlist_add
    method AddConfig(it: Item) returns (c: nat)
      requires InPool(configs, current)
      modifies this`configs, this`current
      ensures var fresh_ := Config(it, {}, [], [], Incomplete);
        if exists d <- old(current) :: ItemOf(old(configs), d) == it
        then configs == old(configs) && current == old(current) && c in current && c < |configs|
            && configs[c].item == it
        else configs == old(configs) + [fresh_] && current == old(current) + [c] && c == |old(configs)|
    {
      var k := FindConfig(it);
      if k >= 0 {
        c := current[k];
        assert c in current;
      } else {
        c := |configs|;
        configs := configs + [Config(it, {}, [], [], Incomplete)];
        current := current + [c];
      }
    }

    // The end of the inner loop of Configlist_closure: what the symbols behind the dot of c can begin with becomes
    // look-ahead of d, and if they can all vanish d is linked to c.
    method HandOn(c: nat, d: nat)
      requires c < |configs| && d < |configs| && ValidItem(g, configs[c].item)
        && configs[c].item.dot < |g.rules[configs[c].item.rule].rhs|
      modifies this`configs
      ensures configs == HandOver(g, lambda, first, old(configs), c, d)
    {
      var rhs, start := g.rules[configs[c].item.rule].rhs, configs[c].item.dot + 1;
      ghost var before, rest := configs, rhs[start..];
      var i := start;
      assert rhs[start..start] == [];
      while i < |rhs|
        invariant start <= i <= |rhs|
        invariant AllLambda(lambda, rest[..i - start])
        invariant |configs| == |before| && forall k | 0 <= k < |before| && k != d :: configs[k] == before[k]
        invariant configs[d] == before[d].(fws := before[d].fws + SeqFirst(lambda, first, rest[..i - start]))
      {
        var x := rhs[i];
        SeqFirstSnoc(lambda, first, rest, i - start);
        configs := configs[d := configs[d].(fws := configs[d].fws + SymbolFirst(first, x))];
        if !IsLambda(lambda, x) {
          assert x in rest;
          assert !Transparent(g, lambda, before[c].item);
          assert configs[d].fws == before[d].fws + HandedOn(g, lambda, first, before[c].item);
          return;
        }
        i := i + 1;
      }
      assert rest[..i - start] == rest;
      configs := configs[c := configs[c].(fplp := [d] + configs[c].fplp)];
    }
  
    // One rule for the nonterminal behind the dot of c.
    method IntroduceRule(c: nat, r: nat, ghost before: Pool, ghost old_: seq<nat>, ghost k: nat)
      requires Closing(g, lambda, first, before, old_, configs, current, basis, k) && c in current && r < |g.rules|
      requires Next(g, ItemOf(configs, c)) == Some(N(g.rules[r].lhs))
      modifies this`configs, this`current
      ensures Closing(g, lambda, first, before, old_, configs, current, basis, k)
      ensures Grew(old(configs), configs) && old(current) <= current
      ensures ClosedFor(g, lambda, first, configs, current, c, r)
    {
      ghost var cs, ids := configs, current;
      hide Closing, ClosedFor, Grew, HandOver;
      ClosingValid(g, lambda, first, before, old_, configs, current, basis, k);
      var d := AddConfig(Item(r, 0));
      if current != ids {
        ClosingAppend(g, lambda, first, before, old_, cs, ids, basis, k, c, r);
      } else {
        GrewRefl(cs);
      }
      ghost var cs1 := configs;
      ClosingValid(g, lambda, first, before, old_, configs, current, basis, k);
      ClosingHandOver(g, lambda, first, before, old_, configs, current, basis, k, c, r, d);
      HandOn(c, d);
      GrewTrans(cs, cs1, configs);
    }
  
    // Every rule for the nonterminal behind the dot of the k-th member, latest rule first.
    method CloseOne(k: nat, ghost before: Pool, ghost old_: seq<nat>)
      requires Closing(g, lambda, first, before, old_, configs, current, basis, k) && k < |current|
      modifies this`configs, this`current
      ensures Closing(g, lambda, first, before, old_, configs, current, basis, k + 1) && old(current) <= current
    {
      hide Closing, ClosedFor, Grew;
      ClosingValid(g, lambda, first, before, old_, configs, current, basis, k);
      var c := current[k];
      assert c in current;
      var x := Next(g, configs[c].item);
      ghost var it := configs[c].item;
      if x.Some? && x.value.N? {
        for r := |g.rules| downto 0
          invariant Closing(g, lambda, first, before, old_, configs, current, basis, k)
          invariant k < |current| && current[k] == c && c < |configs| && configs[c].item == it
            && old(current) <= current
          invariant forall r': nat | r <= r' < |g.rules| && g.rules[r'].lhs == x.value.index ::
            ClosedFor(g, lambda, first, configs, current, c, r')
        {
          if g.rules[r].lhs == x.value.index {
            ghost var cs, ids := configs, current;
            IntroduceRule(c, r, before, old_, k);
            StillClosed(g, lambda, first, cs, configs, ids, current, c, r + 1, x.value.index);
          }
        }
      }
      ClosingNext(g, lambda, first, before, old_, configs, current, basis, k);
    }

    // Configlist_closure
    method Closure(ghost before: Pool, ghost old_: seq<nat>)
      requires Closing(g, lambda, first, before, old_, configs, current, basis, 0)
      modifies this`configs, this`current
      ensures Closing(g, lambda, first, before, old_, configs, current, basis, |current|) && old(current) <= current
    {
      hide Closing;
      var k := 0;
      ClosingValid(g, lambda, first, before, old_, configs, current, basis, k);
      CountItems(g, configs, current);
      while k < |current|
        invariant Closing(g, lambda, first, before, old_, configs, current, basis, k)
        invariant 0 <= k <= |current| <= |AllItems(g)| && old(current) <= current
        decreases |AllItems(g)| - k
      {
        CloseOne(k, before, old_);
        k := k + 1;
        ClosingValid(g, lambda, first, before, old_, configs, current, basis, k);
        CountItems(g, configs, current);
      }
    }
  
    // Configlist_addbasis
    method AddBasis(it: Item) returns (c: nat)
      requires InPool(configs, current)
      modifies this`configs, this`current, this`basis
      ensures if exists d <- old(current) :: ItemOf(old(configs), d) == it
        then configs == old(configs) && current == old(current) && basis == old(basis)
             && c in current && c < |configs| && configs[c].item == it
        else configs == old(configs) + [Config(it, {}, [], [], Incomplete)]
             && current == old(current) + [c] && basis == old(basis) + [c] && c == |old(configs)|
    {
      var k := FindConfig(it);
      if k >= 0 {
        c := current[k];
        assert c in current;
      } else {
        c := |configs|;
        configs := configs + [Config(it, {}, [], [], Incomplete)];
        current := current + [c];
        basis := basis + [c];
      }
    }

    // State_find: the state whose sorted basis is item for item the same, or -1.
    method FindState(bp: seq<nat>) returns (s: int)
      ensures -1 <= s < |states|
      ensures s >= 0 ==> ItemsOf(configs, states[s].bp) == ItemsOf(configs, bp)
      ensures s < 0 ==> forall t: nat | t < |states| :: ItemsOf(configs, states[t].bp) != ItemsOf(configs, bp)
    {
      s := 0;
      while s < |states|
        invariant 0 <= s <= |states|
        invariant forall t: nat | t < s :: ItemsOf(configs, states[t].bp) != ItemsOf(configs, bp)
      {
        if ItemsOf(configs, states[s].bp) == ItemsOf(configs, bp) { return; }
        s := s + 1;
      }
      s := -1;
    }

    // The loop over both bases in getstate: the existing state takes over the back links.
    method MergeLinks(bp: seq<nat>, ybp: seq<nat>, ghost n: nat)
      requires |bp| == |ybp| && n <= |configs|
      requires forall i, j | 0 <= i < j < |bp| :: bp[i] != bp[j]
      requires (forall x <- bp :: n <= x < |configs|) && (forall y <- ybp :: y < n)
      modifies this`configs
      ensures |configs| == |old(configs)| && Merging(old(configs), configs, bp, ybp, n, |bp|)
    {
      ghost var before := configs;
      hide Merging;
      MergeStart(configs, bp, ybp, n);
      var i := 0;
      while i < |bp|
        invariant 0 <= i <= |bp| && |configs| == |before| && Merging(before, configs, bp, ybp, n, i)
      {
        MergeStep(before, configs, bp, ybp, n, i);
        var x, y := bp[i], ybp[i];
        configs := configs[y := configs[y].(bplp := configs[x].bplp + configs[y].bplp)];
        configs := configs[x := configs[x].(fplp := [], bplp := [])];
        i := i + 1;
      }
    }
  
    // Configlist_addbasis with the dot of c moved, and Plink_add of c to its back links.
    method AddMoved(c: nat)
      requires InPool(configs, current) && c < |configs|
      requires forall d <- current :: ItemOf(configs, d) != Advance(ItemOf(configs, c))
      modifies this`configs, this`current, this`basis
      ensures configs == old(configs) + [MovedOver(old(configs), c)]
      ensures current == old(current) + [|old(configs)|] && basis == old(basis) + [|old(configs)|]
    {
      var n := AddBasis(Advance(configs[c].item));
      assert [c] + configs[n].bplp == [c];
      configs := configs[n := configs[n].(bplp := [c] + configs[n].bplp)];
    }

    // The members of the configuration list of a state that have x after the dot, moved over it, become a new basis.
    method GatherGroup(cfp: seq<nat>, i: nat, x: Symbol) returns (ghost src: seq<nat>)
      requires i < |cfp| && InPool(configs, cfp) && DistinctItems(configs, cfp)
      requires StatusesOK(g, configs, cfp, i) && Next(g, ItemOf(configs, cfp[i])) == Some(x)
        && StatusOf(configs, cfp[i]) == Incomplete
      modifies this`configs, this`current, this`basis
      ensures Group(g, old(configs), configs, current, src, x) && AllOf(g, old(configs), cfp, src, x)
      ensures src != [] && basis == current
      ensures forall c <- src :: StatusOf(old(configs), c) == Incomplete
    {
      ghost var cs0 := configs;
      hide Group, StatusesOK;
      current, basis := [], [];    // Configlist_reset
      src := [];
      GroupStart(g, cs0, x);
      for j := i to |cfp|
        invariant Group(g, cs0, configs, current, src, x) && basis == current
        invariant forall c :: c in src <==>
          c in cfp[i..j] && Next(g, ItemOf(cs0, c)) == Some(x)
          && StatusOf(cs0, c) == Incomplete
      {
        var c := cfp[j];
        assert cfp[i..j + 1] == cfp[i..j] + [c] && c in cfp;
        GroupItemOf(g, cs0, configs, current, src, x, c);
        DistinctFrom(cs0, cfp, i, j);
        if configs[c].status == Complete || Next(g, configs[c].item) != Some(x) { continue; }
        GroupStep(g, cs0, configs, current, src, x, c);
        ghost var cs1 := configs;
        configs := configs[c := configs[c].(status := Complete)];
        MarkedItems(cs1, current, c);
        AddMoved(c);
        src := src + [c];
      }
      forall c ensures c in src <==> c in cfp && Next(g, ItemOf(cs0, c)) == Some(x) {
        if c in cfp && Next(g, ItemOf(cs0, c)) == Some(x) { GroupAhead(g, cs0, cfp, i, c); }
      }
      assert cfp[i..|cfp|] == cfp[i..];
      assert cfp[i] in src;
    }
  
    // getstate: the state for the basis being built, made if it is not there yet, with all its successors.
    method GetState() returns (stp: nat)
      requires g.WellFormed() && basis == current && Ready(g, lambda, first, configs, current, states)
      requires BackFrom(g, configs[..|configs| - |current|], states) && Origin(g, configs, current, states)
      modifies this
      ensures BackFrom(g, configs, states)
      ensures Reached(g, lambda, first, old(configs), old(basis), old(states), configs, states, stp)
      ensures forall t: nat | |old(states)| <= t < |states| :: Done(g, configs, states, t)
      ensures |states| > |old(states)| ==> stp == |old(states)|
      ensures forall t: nat | |old(states)| < t < |states| :: FoundFrom(g, configs, states, |old(states)|, t)
      ensures nact >= old(nact) && forall t: nat | |old(states)| <= t < |states| :: AddrBelow(states[t].ap, nact)
      decreases AllBases(g) - Known(configs[..|configs| - |current|], states), 0
    {
      ghost var before, basis0, states0 := configs, basis, states;
      hide Reached, Closing, StateOK, Good, Known, AllBases, DistinctItems, FreshConfig, StartConfig, MovedConfig,
          Merging, OnlyState, Done, FoundFrom, AtEnd, Sort, ByItem, BackFrom, Origin, AddrBelow;
      var bp := Sort(basis, ByItem(configs));
      ReadyBasis(g, lambda, first, configs, basis, states, bp);
      var s := FindState(bp);
      if s >= 0 {
        KnownState(g, lambda, first, configs, basis, states, bp, s);
        MergeLinks(bp, states[s].bp, |configs| - |current|);
        MergedReached(g, lambda, first, before, configs, basis0, bp, states, s);
        BackMerged(g, lambda, first, before, configs, basis0, bp, states, s);
        configs := configs[..|configs| - |current|];    // Configlist_eat
        current, basis := [], [];
        stp := s;
      } else {
        ReadyCloses(g, lambda, first, configs, basis, states);
        Closure(before, basis0);
        stp := |states|;
        var st := State(bp, Sort(current, ByItem(configs)), []);
        NewReached(g, lambda, first, before, configs, basis0, current, states, st);
        NewAbove(g, lambda, first, before, basis0, configs, current, st);
        states := states + [st];
        ghost var cs1, states1 := configs, states;
        ReachedGood(g, lambda, first, before, basis0, states0, cs1, states1, stp);
        BackReached(g, lambda, first, before, cs1, basis0, current, states0, st);
        BuildShifts(stp);
        ReachedStays(g, lambda, first, before, basis0, states0, cs1, states1, stp, configs, states);
      }
    }

    // buildshifts: the successors of the state just made.
    method BuildShifts(s: nat)
      requires g.WellFormed() && Good(g, lambda, first, configs, states) && |states| == s + 1 && states[s].ap == []
      requires BackFrom(g, configs, states)
      modifies this
      ensures Good(g, lambda, first, configs, states) && OnlyState(old(configs), old(states), configs, states, s)
      ensures BackFrom(g, configs, states)
      ensures forall t: nat | s <= t < |states| :: Done(g, configs, states, t)
      ensures forall t: nat | s < t < |states| :: FoundFrom(g, configs, states, s, t)
      ensures nact >= old(nact) && forall t: nat | s <= t < |states| :: AddrBelow(states[t].ap, nact)
      decreases AllBases(g) - Known(configs, states), 2
    {
      hide Good, OnlyState, Done, FoundFrom, StatusesOK, BuiltSoFar, AskedSoFar, Known, AllBases, DistinctItems,
          BackFrom, AddrBelow;
      ghost var before, states0 := configs, states;
      var cfp := states[s].cfp;
      GoodBackLinks(g, lambda, first, configs, states);
      MarkIncomplete(s);
      OnlyStateExtends(before, states0, configs, states, s);
      KnownGrows(before, configs, states0, states);
      var i := 0;
      while i < |cfp|
        invariant 0 <= i <= |cfp| && s < |states| && states[s].cfp == cfp && nact >= old(nact)
        invariant Good(g, lambda, first, configs, states) && OnlyState(before, states0, configs, states, s)
        invariant BackFrom(g, configs, states)
        invariant StatusesOK(g, configs, cfp, i) && BuiltSoFar(g, configs, states, s, nact)
        invariant AskedSoFar(g, configs, states, s, i)
        invariant forall t: nat | s < t < |states| :: Done(g, configs, states, t)
        invariant forall t: nat | s < t < |states| :: FoundFrom(g, configs, states, s, t)
        invariant forall t: nat | s < t < |states| :: AddrBelow(states[t].ap, nact)
        invariant Known(before, states0) <= Known(configs, states)
      {
        ghost var cs, sts, nact1 := configs, states, nact;
        ConfigInPool(g, lambda, first, configs, states, s, i);
        var x := Next(g, configs[cfp[i]].item);
        if configs[cfp[i]].status == Complete || x.None? {
          StatusesSkip(g, configs, cfp, i);
          AskedSkip(g, configs, states, s, i);
        } else {
          ShiftGroup(s, i, x.value);
          OnlyStateTrans(before, states0, cs, sts, configs, states, s);
          AddressesStay(cs, sts, configs, states, s, nact1, nact);
          DoneStays(g, lambda, first, cs, sts, configs, states, s);
          FoundStaysOnly(g, lambda, first, cs, sts, configs, states, s, s, s);
          OnlyStateExtends(cs, sts, configs, states, s);
          GoodBackLinks(g, lambda, first, cs, sts);
          KnownGrows(cs, configs, sts, states);
        }
        i := i + 1;
      }
      AllBuilt(g, configs, states, s, nact);
      BuiltActions(g, configs, states, s, nact);
    }
  
    // The first loop of buildshifts.
    method MarkIncomplete(s: nat)
      requires Good(g, lambda, first, configs, states) && s < |states| && states[s].ap == []
        && BackFrom(g, configs, states)
      modifies this`configs
      ensures Good(g, lambda, first, configs, states) && OnlyState(old(configs), states, configs, states, s)
      ensures BackFrom(g, configs, states)
      ensures StatusesOK(g, configs, states[s].cfp, 0) && BuiltSoFar(g, configs, states, s, nact)
      ensures AskedSoFar(g, configs, states, s, 0)
    {
      hide Good, OnlyState, StatusesOK, BuiltSoFar, AskedSoFar, BackFrom;
      ghost var before := configs;
      var cfp := states[s].cfp;
      GoodBackLinks(g, lambda, first, configs, states);
      for j := 0 to |cfp|
        invariant MarkedIncomplete(before, configs, cfp[..j])
      {
        assert cfp[j] in cfp && cfp[..j + 1] == cfp[..j] + [cfp[j]];
        configs := configs[cfp[j] := configs[cfp[j]].(status := Incomplete)];
      }
      assert cfp[..|cfp|] == cfp;
      UnmarkedStart(g, lambda, first, before, configs, states, s, nact);
      BackMarked(g, lambda, first, before, configs, states, s);
    }

    // Action_add of a shift, for the symbol or for each constituent of a MULTITERMINAL.
    method AddShifts(s: nat, x: Symbol, to: nat)
      requires s < |states|
      modifies this`states, this`nact
      ensures states == old(states)[s := State(old(states)[s].bp, old(states)[s].cfp,
        PushShifts(old(states)[s].ap, SymbolCodes(x), to, old(nact)))]
      ensures nact == old(nact) + |SymbolCodes(x)|
    {
      ghost var ap0, nact0, states0 := states[s].ap, nact, states;
      var codes := SymbolCodes(x);
      var i := 0;
      assert codes[0..] == codes;
      while i < |codes|
        invariant 0 <= i <= |codes| && nact == nact0 + i && |states| == |states0|
        invariant states == states0[s := State(states0[s].bp, states0[s].cfp, states[s].ap)]
        invariant PushShifts(states[s].ap, codes[i..], to, nact) == PushShifts(ap0, codes, to, nact0)
      {
        assert codes[i..][1..] == codes[i + 1..];
        states := states[s := states[s].(ap := [Action(codes[i], SHIFT, to, nact)] + states[s].ap)];
        nact := nact + 1;
        i := i + 1;
      }
    }

    // One turn of the loop of buildshifts: everything with x after the dot contributes to one successor.
    method ShiftGroup(s: nat, i: nat, x: Symbol)
      requires g.WellFormed() && Good(g, lambda, first, configs, states) && s < |states| && i < |states[s].cfp|
      requires StatusesOK(g, configs, states[s].cfp, i) && BuiltSoFar(g, configs, states, s, nact)
      requires AskedSoFar(g, configs, states, s, i)
      requires Next(g, ItemOf(configs, states[s].cfp[i])) == Some(x)
        && StatusOf(configs, states[s].cfp[i]) == Incomplete
      requires g.ValidSymbol(x) && BackFrom(g, configs, states)
      requires forall t: nat | s < t < |states| :: Done(g, configs, states, t)
      modifies this
      ensures Good(g, lambda, first, configs, states) && OnlyState(old(configs), old(states), configs, states, s)
      ensures BackFrom(g, configs, states)
      ensures s < |states| && StatusesOK(g, configs, states[s].cfp, i + 1) && BuiltSoFar(g, configs, states, s, nact)
      ensures AskedSoFar(g, configs, states, s, i + 1)
      ensures forall t: nat | |old(states)| <= t < |states| :: Done(g, configs, states, t)
      ensures forall t: nat | |old(states)| <= t < |states| :: FoundFrom(g, configs, states, s, t)
      ensures nact >= old(nact) && forall t: nat | |old(states)| <= t < |states| :: AddrBelow(states[t].ap, nact)
      decreases AllBases(g) - Known(configs, states), 1
    {
      hide Good, OnlyState, Done, FoundFrom, Group, AllOf, StatusesOK, BuiltSoFar, AskedSoFar, Known, AllBases, Ready,
          Reached, DistinctItems, Marked, Carries, GotoIs, SameNext, BackFrom, Origin, AddrBelow;
      ghost var cs0, states0, nact0 := configs, states, nact;
      GoodBackLinks(g, lambda, first, configs, states);
      StateLists(g, lambda, first, configs, states[s]);
      ghost var src := GatherGroup(states[s].cfp, i, x);
      ghost var cs1, ids := configs, current;
      GroupReady(g, lambda, first, cs0, cs1, ids, src, x, states);
      GroupOrigin(g, lambda, first, cs0, cs1, ids, src, x, states, s);
      KnownGrows(cs0, cs1[..|cs0|], states, states);
      var to := GetState();
      ghost var cs2, states2, nact2 := configs, states, nact;
      ReachedGood(g, lambda, first, cs1, ids, states0, cs2, states2, to);
      BuiltActions(g, cs0, states0, s, nact0);
      AddShifts(s, x, to);
      PushedShifts(states0[s].ap, SymbolCodes(x), to, nact2);
      GroupShifted(g, lambda, first, cs0, cs1, ids, src, x, states0, cs2, states2, s, to, states[s].ap);
      BackActions(g, lambda, first, cs2, states2, states);
      AddressesStay(cs2, states2, cs2, states, s, nact2, nact);
      DoneStays(g, lambda, first, cs2, states2, cs2, states, s);
      FoundStaysOnly(g, lambda, first, cs2, states2, cs2, states, s, |states0|, s);
      if to == |states0| { FoundNow(g, lambda, first, cs0, states0, configs, states, s, i, nact0); }
      OnlyStateExtends(cs0, states0, cs2, states, s);
      SameNextStatuses(g, cs0, states0[s].cfp, i);
      BuiltStep(g, cs0, cs2, states0, states, s, x, to, src, nact0, nact2);
      StatusesStep(g, cs0, cs2, states0[s].cfp, i, x, src);
      AskedStep(g, cs0, cs2, states0, states, s, i, x, to, src, nact2);
    }
  
    // FindStates: the basis of the first state is every start rule, followed by `$`; all else follows from it.
    method FindStates()
      requires g.WellFormed() && configs == [] && current == [] && basis == [] && states == []
      modifies this
      ensures Good(g, lambda, first, configs, states) && |states| > 0
      ensures forall t: nat | t < |states| :: Done(g, configs, states, t)
      ensures forall t: nat | 0 < t < |states| :: FoundFrom(g, configs, states, 0, t)
      ensures ItemSet(configs, states[0].bp) == StartItems(g)
      ensures forall c <- states[0].bp :: c < |configs| && 0 in configs[c].fws
      ensures forall t: nat | t < |states| :: AddrBelow(states[t].ap, nact)
      ensures BackFrom(g, configs, states)
    {
      hide Good, Done, FoundFrom, Reached, Known, AllBases, BackFrom, AddrBelow;
      for r := |g.rules| downto 0
        invariant basis == current && StartList(g, configs, current, r)
        invariant states == []
        modifies this`configs, this`current, this`basis
      {
        if g.rules[r].lhs == g.start {
          StartListStep(g, configs, current, r);
          ghost var cs := configs;
          var c := AddBasis(Item(r, 0));
          assert c == |cs| && configs[c].fws + {0} == {0};
          configs := configs[c := configs[c].(fws := configs[c].fws + {0})];
          assert configs == cs + [Config(Item(r, 0), {0}, [], [], Incomplete)];
        }
      }
      StartListReady(g, lambda, first, configs, current);
      BackStart(g, configs[..|configs| - |current|]);
      ghost var before, basis0 := configs, basis;
      var stp := GetState();
      ReachedGood(g, lambda, first, before, basis0, [], configs, states, stp);
      FirstState(g, lambda, first, before, basis0, configs, states, stp);
    }
  }

  // The basis of the first state while the start rules from r on have been entered.
  ghost predicate StartList(g: Grammar, cs: Pool, ids: seq<nat>, r: int) {
    && AtEnd(cs, ids) && |cs| == |ids| && DistinctItems(cs, ids)
    && (forall c: nat | c < |cs| :: cs[c] == Config(cs[c].item, {0}, [], [], Incomplete) && cs[c].item.dot == 0
         && r <= cs[c].item.rule < |g.rules| && g.rules[cs[c].item.rule].lhs == g.start)
    && (forall r': nat | r <= r' < |g.rules| && g.rules[r'].lhs == g.start :: HasItem(cs, Item(r', 0)))
  }

  ghost predicate HasItem(cs: Pool, it: Item) {
    exists c: nat :: c < |cs| && cs[c].item == it
  }

  ghost function StartItems(g: Grammar): set<Item> {
    set r | 0 <= r < |g.rules| && g.rules[r].lhs == g.start :: Item(r, 0)
  }

  lemma StartListStep(g: Grammar, cs: Pool, ids: seq<nat>, r: nat)
    requires StartList(g, cs, ids, r + 1) && r < |g.rules| && g.rules[r].lhs == g.start
    ensures InPool(cs, ids) && forall d <- ids :: ItemOf(cs, d) != Item(r, 0)
    ensures StartList(g, cs + [Config(Item(r, 0), {0}, [], [], Incomplete)], ids + [|cs|], r)
  {
    var cs' := cs + [Config(Item(r, 0), {0}, [], [], Incomplete)];
    forall d | d in ids ensures d < |cs| && ItemOf(cs, d) != Item(r, 0) {
      var k :| 0 <= k < |ids| && ids[k] == d;
    }
    assert cs'[|cs|].item == Item(r, 0);
    forall r': nat | r <= r' < |g.rules| && g.rules[r'].lhs == g.start ensures HasItem(cs', Item(r', 0)) {
      if r' > r {
        assert HasItem(cs, Item(r', 0));
        var c: nat :| c < |cs| && cs[c].item == Item(r', 0);
        assert cs'[c].item == Item(r', 0);
      }
    }
  }

  lemma StartListReady(g: Grammar, lambda: Lambdas, first: Firsts, cs: Pool, ids: seq<nat>)
    requires StartList(g, cs, ids, 0)
    ensures Ready(g, lambda, first, cs, ids, [])
    ensures ItemSet(cs, ids) == StartItems(g)
  {
    forall c | c in ids ensures FreshConfig(g, cs, |cs| - |ids|, c) && StartConfig(g, cs, c) {
      var k :| 0 <= k < |ids| && ids[k] == c;
    }
    assert cs[..|cs| - |ids|] == [];
    forall it ensures it in ItemSet(cs, ids) <==> it in StartItems(g) {
      if it in StartItems(g) {
        assert HasItem(cs, it);
        var c: nat :| c < |cs| && cs[c].item == it;
        assert ids[c] == c && c in ids;
      }
    }
  }

  lemma FirstState(g: Grammar, lambda: Lambdas, first: Firsts, before: Pool, basis: seq<nat>, cs: Pool,
                   states: seq<State>, stp: nat)
    requires StartList(g, before, basis, 0)
    requires Reached(g, lambda, first, before, basis, [], cs, states, stp)
    ensures stp == 0 && ItemSet(cs, states[0].bp) == StartItems(g)
    ensures forall c <- states[0].bp :: c < |cs| && 0 in cs[c].fws
  {
    hide Good;
    StartListReady(g, lambda, first, before, basis);
    GoodBackLinks(g, lambda, first, cs, states);
    assert StateOK(g, lambda, first, cs, states[0]);
    forall c | c in states[0].bp ensures 0 in cs[c].fws {
      assert ItemOf(cs, c) in ItemSet(cs, states[0].bp);
      var x :| x in basis && ItemOf(before, x) == ItemOf(cs, c);
      assert x in states[0].bp && GrewOne(before[x], cs[x]) && before[x].fws == {0};
      InOrderOnce(cs, states[0].bp, x, c);
    }
  }
}

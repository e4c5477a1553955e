/** ResortStates: the states are renumbered, those with most actions first. */
module Report {
  import opened Grammars
  import opened Sorting
  import opened ActionLists

  // ---- state numbers ----

  // order lists the old numbers by new number, num the new numbers by old number; state 0 keeps its number.
  ghost predicate Numbering(order: seq<nat>, num: seq<nat>) {
    && |order| == |num| > 0
    && (forall k | 0 <= k < |order| :: order[k] < |num| && num[order[k]] == k)
    && (forall s | 0 <= s < |num| :: num[s] < |order| && order[num[s]] == s)
    && order[0] == 0
  }

  function CountIf(ap: seq<Action>, lo: nat, hi: nat): nat {
    if ap == [] then 0
    else (if Live(ap[0]) && lo <= ap[0].sp < hi then 1 else 0) + CountIf(ap[1..], lo, hi)
  }

  // nTknAct and nNtAct
  function TokenActions(g: Grammar, ap: seq<Action>): nat {
    CountIf(ap, 0, g.nterminal)
  }

  function NonterminalActions(g: Grammar, ap: seq<Action>): nat {
    CountIf(ap, g.nterminal, g.nsymbol)
  }

  // stateResortCompare
  function ResortLe(g: Grammar, aps: seq<seq<Action>>): (nat, nat) -> bool {
    (a: nat, b: nat) =>
      if a >= |aps| || b >= |aps| then a >= b
      else
        var na, nb := NonterminalActions(g, aps[a]), NonterminalActions(g, aps[b]);
        var ta, tb := TokenActions(g, aps[a]), TokenActions(g, aps[b]);
        if na != nb then na > nb else if ta != tb then ta > tb else a >= b
  }

  // By gotos, then by actions on terminals, most of them first; where these are as many, the state found later.
  ghost predicate MoreActions(g: Grammar, aps: seq<seq<Action>>, a: nat, b: nat)
    requires a < |aps| && b < |aps|
  {
    || NonterminalActions(g, aps[a]) > NonterminalActions(g, aps[b])
    || (NonterminalActions(g, aps[a]) == NonterminalActions(g, aps[b])
        && (|| TokenActions(g, aps[a]) > TokenActions(g, aps[b])
            || (TokenActions(g, aps[a]) == TokenActions(g, aps[b]) && a > b)))
  }

  // 1, 2, ..., n - 1
  function AllButFirst(n: nat): (r: seq<nat>)
    requires n > 0
    ensures |r| == n - 1
  {
    seq(n - 1, i requires 0 <= i < n - 1 => i + 1)
  }

  lemma AllButFirstMembers(n: nat)
    requires n > 0
    ensures AllDifferent(AllButFirst(n)) && forall x :: x in AllButFirst(n) <==> 1 <= x < n
  {
    var r := AllButFirst(n);
    forall x | 1 <= x < n ensures x in r { assert r[x - 1] == x; }
  }

  method Invert(order: seq<nat>) returns (num: seq<nat>)
    requires AllDifferent(order) && |order| > 0 && order[0] == 0 && forall s: nat :: s in order <==> s < |order|
    ensures Numbering(order, num)
  {
    var n := |order|;
    num := seq(n, _ => 0);
    assert forall k | 0 <= k < n :: order[k] in order;
    for k := 0 to n
      invariant |num| == n && forall i | 0 <= i < k :: num[order[i]] == i
    {
      num := num[order[k] := k];
    }
    forall s | 0 <= s < n ensures num[s] < n && order[num[s]] == s {
      assert s in order;
      var i :| 0 <= i < n && order[i] == s;
    }
  }

  lemma ResortPreorder(g: Grammar, aps: seq<seq<Action>>)
    ensures TotalPreorder(ResortLe(g, aps))
  {
  }

  // ResortStates: all but the first are sorted, most actions first.
  method ResortStates(g: Grammar, aps: seq<seq<Action>>) returns (order: seq<nat>, num: seq<nat>)
    requires |aps| > 0
    ensures Numbering(order, num) && |order| == |aps|
    ensures forall k | 0 <= k < |order| :: order[k] < |aps|
    ensures forall j, k | 1 <= j < k < |order| :: MoreActions(g, aps, order[j], order[k])
  {
    var rest := AllButFirst(|aps|);
    AllButFirstMembers(|aps|);
    var sorted := Sort(rest, ResortLe(g, aps));
    SameMembers(sorted, rest);
    DistinctPermute(rest, sorted);
    ResortPreorder(g, aps);
    SortOrders(rest, ResortLe(g, aps));
    order := [0] + sorted;
    assert order[1..] == sorted;
    forall i, j | 0 <= i < j < |order| ensures order[i] != order[j] {
      assert order[j] in rest;
    }
    num := Invert(order);
    forall j, k | 1 <= j < k < |order| ensures MoreActions(g, aps, order[j], order[k]) {
      ResortedMore(g, aps, order, j, k);
    }
  }

  lemma ResortedMore(g: Grammar, aps: seq<seq<Action>>, order: seq<nat>, j: nat, k: nat)
    requires 1 <= j < k < |order| && Ordered(order[1..], ResortLe(g, aps)) && AllDifferent(order)
    requires order[j] < |aps| && order[k] < |aps|
    ensures MoreActions(g, aps, order[j], order[k])
  {
    hide CountIf;
    assert order[1..][j - 1] == order[j] && order[1..][k - 1] == order[k];
    assert ResortLe(g, aps)(order[j], order[k]);
  }
}

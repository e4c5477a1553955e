/** The circular doubly linked lists of gcj/list.h.  A ring is the sequence of its nodes, from any of them on; a list is
  the ring of its head followed by its entries. */
module Lists {
  import opened Sorting

  class ListHead {
    var next: ListHead?
    var prev: ListHead?

    // INIT_LIST_HEAD
    method Init()
      modifies this
      ensures Ring([this])
    {
      next := this;
      prev := this;
    }
  }

  // Every node points to the next one, and back.
  ghost predicate Path(s: seq<ListHead>)
    reads s
  {
    forall i | 0 <= i < |s| - 1 :: s[i].next == s[i + 1] && s[i + 1].prev == s[i]
  }

  ghost predicate Ring(s: seq<ListHead>)
    reads s
  {
    && s != [] && AllDifferent(s) && Path(s)
    && s[|s| - 1].next == s[0] && s[0].prev == s[|s| - 1]
  }

  // next and prev are inverse to each other, all the way round.
  lemma RingMeans(s: seq<ListHead>)
    requires s != [] && AllDifferent(s)
    ensures Ring(s) <==> forall i | 0 <= i < |s| :: s[i].next == s[if i + 1 < |s| then i + 1 else 0]
                                                 && s[i].prev == s[if i > 0 then i - 1 else |s| - 1]
  {
    if forall i | 0 <= i < |s| :: s[i].next == s[if i + 1 < |s| then i + 1 else 0]
        && s[i].prev == s[if i > 0 then i - 1 else |s| - 1] {
      assert s[|s| - 1].next == s[0];
      forall i | 0 <= i < |s| - 1 ensures s[i].next == s[i + 1] && s[i + 1].prev == s[i] {}
    }
  }

  // ---- taking rings apart ----

  ghost predicate Apart(a: seq<ListHead>, b: seq<ListHead>) {
    forall i, j | 0 <= i < |a| && 0 <= j < |b| :: a[i] != b[j]
  }

  lemma DistinctParts(a: seq<ListHead>, b: seq<ListHead>)
    ensures AllDifferent(a + b) <==> AllDifferent(a) && AllDifferent(b) && Apart(a, b)
  {
    var r := a + b;
    if AllDifferent(r) {
      forall i, j | 0 <= i < |a| && 0 <= j < |b| ensures a[i] != b[j] { assert r[i] == a[i] && r[|a| + j] == b[j]; }
      forall i, j | 0 <= i < j < |b| ensures b[i] != b[j] { assert r[|a| + i] == b[i] && r[|a| + j] == b[j]; }
      forall i, j | 0 <= i < j < |a| ensures a[i] != a[j] { assert r[i] == a[i] && r[j] == a[j]; }
    }
  }

  // The end of a is linked with the beginning of b.
  ghost predicate Joined(a: seq<ListHead>, b: seq<ListHead>)
    reads a, b
  {
    a != [] && b != [] ==> a[|a| - 1].next == b[0] && b[0].prev == a[|a| - 1]
  }

  lemma PathParts(a: seq<ListHead>, b: seq<ListHead>)
    ensures Path(a + b) <==> Path(a) && Path(b) && Joined(a, b)
  {
    var r := a + b;
    if Path(r) {
      forall i | 0 <= i < |a| - 1
        ensures a[i].next == a[i + 1] && a[i + 1].prev == a[i]
      {
        assert r[i] == a[i] && r[i + 1] == a[i + 1];
      }
      forall i | 0 <= i < |b| - 1 ensures b[i].next == b[i + 1] && b[i + 1].prev == b[i] {
        assert r[|a| + i] == b[i] && r[|a| + i + 1] == b[i + 1];
      }
      if a != [] && b != [] { assert r[|a| - 1] == a[|a| - 1] && r[|a| - 1 + 1] == b[0]; }
    }
  }

  // A ring of two parts: two paths, joined at both ends.
  lemma RingParts(a: seq<ListHead>, b: seq<ListHead>)
    requires a != []
    ensures Ring(a + b) <==> AllDifferent(a) && AllDifferent(b) && Apart(a, b) && Path(a) && Path(b)
                             && if b == [] then Joined(a, a) else Joined(a, b) && Joined(b, a)
  {
    DistinctParts(a, b);
    PathParts(a, b);
    var r := a + b;
    assert r[0] == a[0] && r[|r| - 1] == if b == [] then a[|a| - 1] else b[|b| - 1];
  }

  // A ring can be read from any of its nodes.
  lemma Rotate(a: seq<ListHead>, b: seq<ListHead>)
    requires Ring(a + b)
    ensures Ring(b + a)
  {
    if a == [] || b == [] {
      assert a + b == b + a;
    } else {
      RingParts(a, b);
      RingParts(b, a);
    }
  }

  // ---- adding ----

  // __list_add: between the end of a and what follows it.
  method InsertBetween(new_: ListHead, prev: ListHead, next: ListHead, ghost a: seq<ListHead>, ghost b: seq<ListHead>)
    requires Ring(a + b) && a != [] && new_ !in a + b
    requires prev == a[|a| - 1] && next == if b == [] then a[0] else b[0]
    modifies new_, prev, next
    ensures Ring(a + [new_] + b)
  {
    RingParts(a, b);
    forall i | 0 <= i < |a| ensures a[i] != new_ { assert (a + b)[i] == a[i]; }
    forall i | 0 <= i < |b| ensures b[i] != new_ { assert (a + b)[|a| + i] == b[i]; }
    next.prev := new_;
    new_.next := next;
    new_.prev := prev;
    prev.next := new_;
    PathParts(a, [new_]);
    DistinctParts(a, [new_]);
    RingParts(a + [new_], b);
  }

  // list_add
  method Add(new_: ListHead, head: ListHead, ghost es: seq<ListHead>)
    requires Ring([head] + es) && new_ !in [head] + es
    modifies new_, [head] + es
    ensures Ring([head, new_] + es)
  {
    RingParts([head], es);
    assert es != [] ==> es[0] in [head] + es;
    InsertBetween(new_, head, head.next, [head], es);
    assert [head] + [new_] + es == [head, new_] + es;
  }

  // list_add_tail
  method AddTail(new_: ListHead, head: ListHead, ghost es: seq<ListHead>)
    requires Ring([head] + es) && new_ !in [head] + es
    modifies new_, [head] + es
    ensures Ring([head] + es + [new_])
  {
    ghost var r := [head] + es;
    assert r + [] == r;
    InsertBetween(new_, head.prev, head, r, []);
    assert r + [new_] + [] == r + [new_];
  }

  // ---- deleting ----

  // __list_del, for the neighbours of a node.
  method Unlink(entry: ListHead, prev: ListHead, next: ListHead, ghost rest: seq<ListHead>)
    requires Ring([entry] + rest) && prev == entry.prev && next == entry.next
    modifies prev, next
    ensures rest != [] ==> Ring(rest) && entry.next == old(entry.next) && entry.prev == old(entry.prev)
    ensures rest == [] ==> Ring([entry])
  {
    RingParts([entry], rest);
    next.prev := prev;
    prev.next := next;
    if rest == [] { assert [entry] + rest == [entry]; }
  }

  // A node seen as the beginning of its ring, and its neighbours.
  lemma FromNode(entry: ListHead, a: seq<ListHead>, b: seq<ListHead>)
    requires Ring(a + [entry] + b)
    ensures Ring([entry] + (b + a)) && Apart([entry], b + a)
    ensures entry.prev in a + [entry] + b && entry.next in a + [entry] + b
  {
    assert a + [entry] + b == a + ([entry] + b);
    Rotate(a, [entry] + b);
    assert [entry] + b + a == [entry] + (b + a);
    RingParts([entry], b + a);
    var r := [entry] + (b + a);
    assert entry.next == if |r| > 1 then r[1] else r[0];
    assert entry.prev == r[|r| - 1];
    forall x | x in r ensures x in a + [entry] + b {}
  }

  // list_del; LIST_POISON1 and LIST_POISON2 are NULL.
  method Delete(entry: ListHead, ghost a: seq<ListHead>, ghost b: seq<ListHead>)
    requires Ring(a + [entry] + b)
    modifies a + [entry] + b, entry
    ensures entry.next == null && entry.prev == null
    ensures a + b != [] ==> Ring(a + b)
  {
    FromNode(entry, a, b);
    ghost var rest := b + a;
    assert entry.prev in a + [entry] + b;
    Unlink(entry, entry.prev, entry.next, rest);
    assert forall i | 0 <= i < |rest| :: rest[i] != [entry][0];
    entry.next := null;
    entry.prev := null;
    if a + b != [] { Rotate(b, a); }
  }

  // list_del_init
  method DeleteInit(entry: ListHead, ghost a: seq<ListHead>, ghost b: seq<ListHead>)
    requires Ring(a + [entry] + b)
    modifies a + [entry] + b, entry
    ensures Ring([entry]) && (a + b != [] ==> Ring(a + b))
  {
    FromNode(entry, a, b);
    ghost var rest := b + a;
    Unlink(entry, entry.prev, entry.next, rest);
    assert forall i | 0 <= i < |rest| :: rest[i] != [entry][0];
    entry.Init();
    if a + b != [] { Rotate(b, a); }
  }

  // list_move: an entry goes to the front of another list, or of its own.
  method Move(entry: ListHead, head: ListHead, ghost a: seq<ListHead>, ghost b: seq<ListHead>, ghost es: seq<ListHead>)
    requires Ring(a + [entry] + b) && Ring([head] + es)
    requires Apart(a + [entry] + b, [head] + es) || (a != [] && a[0] == head && a + [entry] + b == [head] + es)
    modifies a + [entry] + b, entry, [head] + es
    ensures a + [entry] + b != [head] + es ==> Ring([head, entry] + es) && (a + b != [] ==> Ring(a + b))
    ensures a + [entry] + b == [head] + es ==> Ring([head, entry] + (a[1..] + b))
  {
    FromNode(entry, a, b);
    ghost var rest := b + a;
    ghost var own := a + [entry] + b == [head] + es;
    if own { WithoutEntry(entry, a, b); } else { RestApart(entry, a, b, [head] + es); }
    Unlink(entry, entry.prev, entry.next, rest);
    assert forall i | 0 <= i < |rest| :: rest[i] != [entry][0];
    if own { Rotate(b, a); }
    Add(entry, head, if own then a[1..] + b else es);
    if !own && a + b != [] { Rotate(b, a); }
  }

  // What is left of a list when an entry has been taken out.
  lemma WithoutEntry(entry: ListHead, a: seq<ListHead>, b: seq<ListHead>)
    requires a != [] && Apart([entry], b + a)
    ensures a + b == [a[0]] + (a[1..] + b) && entry !in [a[0]] + (a[1..] + b)
    ensures forall i | 0 <= i < |[a[0]] + (a[1..] + b)| :: ([a[0]] + (a[1..] + b))[i] in a + [entry] + b
  {
    assert a + b == [a[0]] + (a[1..] + b);
    forall x | x in a + b ensures x in b + a && x in a + [entry] + b {}
    NotIn(entry, b + a, a + b);
  }

  lemma RestApart(entry: ListHead, a: seq<ListHead>, b: seq<ListHead>, r: seq<ListHead>)
    requires Apart(a + [entry] + b, r)
    ensures Apart(b + a, r) && entry !in r && (forall x <- a + [entry] + b :: x !in r)
  {
    var t := a + [entry] + b;
    assert t[|a|] == entry;
    forall i, j | 0 <= i < |b + a| && 0 <= j < |r| ensures (b + a)[i] != r[j] {
      assert (b + a)[i] == if i < |b| then t[|a| + 1 + i] else t[i - |b|];
    }
    forall x | x in t ensures x !in r { var i :| 0 <= i < |t| && t[i] == x; }
  }

  // list_rotate_left
  method RotateLeft(head: ListHead, ghost es: seq<ListHead>)
    requires Ring([head] + es)
    modifies [head] + es
    ensures Ring([head] + if es == [] then [] else es[1..] + [es[0]])
  {
    RingParts([head], es);
    if !Empty(head, es) {
      var first := head.next;
      ghost var rest := es[1..];
      assert [head] + es == [head] + [first] + rest;
      FromNode(first, [head], rest);
      assert first.prev in [head] + es && first.next in [head] + es && first in [head] + es;
      Unlink(first, first.prev, first.next, rest + [head]);
      Rotate(rest, [head]);
      NotIn(first, rest + [head], [head] + rest);
      assert forall i | 0 <= i < |[head] + rest| ::
          ([head] + rest)[i] == if i == 0 then ([head] + es)[0] else ([head] + es)[i + 1];
      AddTail(first, head, rest);
      assert [head] + rest + [first] == [head] + (rest + [first]);
    }
  }

  lemma NotIn(x: ListHead, s: seq<ListHead>, t: seq<ListHead>)
    requires Apart([x], s) && forall y <- t :: y in s
    ensures x !in t
  {
    forall y | y in t ensures y != x {
      var i :| 0 <= i < |s| && s[i] == y;
      assert [x][0] != s[i];
    }
  }

  // ---- tests ----

  // list_empty
  function Empty(head: ListHead, ghost es: seq<ListHead>): (r: bool)
    requires Ring([head] + es)
    reads head, [head] + es
    ensures r <==> es == []
  {
    RingParts([head], es);
    assert es != [] ==> [head][0] != es[0];
    head.next == head
  }

  // list_is_last
  function IsLast(list: ListHead, head: ListHead, ghost a: seq<ListHead>, ghost b: seq<ListHead>): (r: bool)
    requires Ring([head] + (a + [list] + b))
    reads list, [head] + (a + [list] + b)
    ensures r <==> b == []
  {
    assert [head] + (a + [list] + b) == [head] + a + [list] + b;
    RingParts([head] + a + [list], b);
    assert b != [] ==> ([head] + a + [list])[0] != b[0];
    assert ([head] + a + [list])[0] == head && ([head] + a + [list])[|a| + 1] == list;
    list.next == head
  }

  // list_is_singular
  function IsSingular(head: ListHead, ghost es: seq<ListHead>): (r: bool)
    requires Ring([head] + es)
    reads head, [head] + es
    ensures r <==> |es| == 1
  {
    RingParts([head], es);
    assert es != [] ==> [head][0] != es[0];
    assert |es| > 1 ==> es[0] != es[|es| - 1];
    head.next != head && head.next == head.prev
  }

  // ---- replacing ----

  // list_replace: the new node takes the place of the old one, also in an otherwise empty ring.
  method Replace(old_: ListHead, new_: ListHead, ghost rest: seq<ListHead>)
    requires Ring([old_] + rest) && new_ !in [old_] + rest
    modifies new_, [old_] + rest
    ensures Ring([new_] + rest)
    ensures rest != [] ==> old_.next == old(old_.next) && old_.prev == old(old_.prev)
  {
    RingParts([old_], rest);
    forall i | 0 <= i < |rest|
      ensures rest[i] != new_ && rest[i] in [old_] + rest
    {
      assert ([old_] + rest)[i + 1] == rest[i];
    }
    assert old_ in [old_] + rest;
    new_.next := old_.next;
    new_.next.prev := new_;
    new_.prev := old_.prev;
    new_.prev.next := new_;
    assert old_ == [old_][0];
    RingParts([new_], rest);
  }

  // list_replace_init
  method ReplaceInit(old_: ListHead, new_: ListHead, ghost rest: seq<ListHead>)
    requires Ring([old_] + rest) && new_ !in [old_] + rest
    modifies new_, [old_] + rest
    ensures Ring([new_] + rest) && Ring([old_])
  {
    RingParts([old_], rest);
    Replace(old_, new_, rest);
    assert old_ in [old_] + rest;
    assert forall i | 0 <= i < |rest| :: [old_][0] != rest[i];
    old_.Init();
  }

  // ---- cutting and splicing ----

  // __list_cut_position
  method Cut(list: ListHead, head: ListHead, entry: ListHead, ghost a: seq<ListHead>, ghost b: seq<ListHead>)
    requires Ring([head] + (a + b)) && a != [] && entry == a[|a| - 1] && list !in [head] + (a + b)
    modifies list, [head] + (a + b)
    ensures Ring([list] + a) && Ring([head] + b)
  {
    assert [head] + (a + b) == [head] + a + b;
    Thirds(head, a, b);
    CutApart(list, head, a, b);
    CutLinks(list, head, entry, a, b);
    RingParts([list], a);
    RingParts([head], b);
  }

  lemma CutApart(list: ListHead, head: ListHead, a: seq<ListHead>, b: seq<ListHead>)
    requires list !in [head] + (a + b)
    ensures Apart([list], a) && Apart([list], b) && head in [head] + (a + b) && head != list
    ensures (forall i | 0 <= i < |a| :: a[i] in [head] + (a + b)) && forall i | 0 <= i < |b| :: b[i] in [head] + (a + b)
  {
    var r := [head] + (a + b);
    forall i | 0 <= i < |a| ensures a[i] in r && a[i] != list { assert r[i + 1] == a[i]; }
    forall i | 0 <= i < |b| ensures b[i] in r && b[i] != list { assert r[|a| + 1 + i] == b[i]; }
    assert r[0] == head;
  }

  // The assignments: the paths a and b stay, and are joined with list and head.
  method CutLinks(list: ListHead, head: ListHead, entry: ListHead, ghost a: seq<ListHead>, ghost b: seq<ListHead>)
    requires a != [] && entry == a[|a| - 1] && head != list
    requires AllDifferent(a) && AllDifferent(b) && Apart(a, b) && Apart([head], a) && Apart([head], b)
      && Apart([list], a) && Apart([list], b)
    requires Path(a) && Path(b) && Joined([head], a)
    requires if b == [] then Joined(a, [head]) else Joined(a, b) && Joined(b, [head])
    modifies list, head, a, b
    ensures Path(a) && Path(b) && Joined([list], a) && Joined(a, [list])
    ensures if b == [] then Joined([head], [head]) else Joined([head], b) && Joined(b, [head])
  {
    assert head == [head][0] && list == [list][0];
    assert forall i | 0 <= i < |a| :: [head][0] != a[i] && [list][0] != a[i];
    assert forall i | 0 <= i < |b| :: [head][0] != b[i] && [list][0] != b[i];
    assert forall i, j | 0 <= i < |a| && 0 <= j < |b| :: a[i] != b[j];
    hide Apart;
    var newFirst := entry.next;
    list.next := head.next;
    list.next.prev := list;
    list.prev := entry;
    entry.next := list;
    head.next := newFirst;
    newFirst.prev := head;
  }

  // A ring of a head and two parts.
  lemma Thirds(head: ListHead, a: seq<ListHead>, b: seq<ListHead>)
    requires Ring([head] + a + b) && a != []
    ensures AllDifferent(a) && AllDifferent(b) && Apart(a, b) && Apart([head], a) && Apart([head], b) && Path(a)
      && Path(b)
    ensures Joined([head], a) && (if b == [] then Joined(a, [head]) else Joined(a, b) && Joined(b, [head]))
  {
    RingParts([head] + a, b);
    PathParts([head], a);
    DistinctParts([head], a);
    forall j | 0 <= j < |b| ensures [head][0] != b[j] { assert ([head] + a)[0] == head; }
    forall i, j | 0 <= i < |a| && 0 <= j < |b| ensures a[i] != b[j] { assert ([head] + a)[i + 1] == a[i]; }
    assert ([head] + a)[|a|] == a[|a| - 1];
  }

  // list_cut_position: the part up to entry goes to list; an entry that is the head itself leaves list empty; nothing
  // is done, not even to list, if there are no entries.
  method CutPosition(list: ListHead, head: ListHead, entry: ListHead, ghost a: seq<ListHead>, ghost b: seq<ListHead>)
    requires Ring([head] + (a + b)) && list !in [head] + (a + b)
    requires entry == if a == [] then head else a[|a| - 1]
    modifies list, [head] + (a + b)
    ensures Ring([head] + b)
    ensures a + b != [] ==> Ring([list] + a)
    ensures a + b == [] ==> list.next == old(list.next) && list.prev == old(list.prev)
  {
    if Empty(head, a + b) { return; }
    EntryIsHead(head, entry, a, b);
    if IsSingular(head, a + b) && head.next != entry && head != entry { return; }
    if entry == head {
      assert a + b == b && [list] + a == [list];
      assert forall x <- [head] + b :: x != list;
      list.Init();
    } else {
      Cut(list, head, entry, a, b);
    }
  }

  // The entry is the head only if nothing is to be cut; in a list of one entry it is the head or that entry.
  lemma EntryIsHead(head: ListHead, entry: ListHead, a: seq<ListHead>, b: seq<ListHead>)
    requires Ring([head] + (a + b)) && entry == if a == [] then head else a[|a| - 1]
    ensures entry == head <==> a == []
    ensures |a + b| == 1 ==> head.next == entry || head == entry
  {
    var r := [head] + (a + b);
    if a != [] { assert r[|a|] == a[|a| - 1] && r[0] == head; }
    if |a + b| == 1 { assert r[0].next == r[1]; }
  }

  // __list_splice: the entries of list go between the end of a and what follows it.
  method SpliceBetween(list: ListHead, prev: ListHead, next: ListHead, ghost ls: seq<ListHead>, ghost a: seq<ListHead>,
                       ghost b: seq<ListHead>)
    requires Ring([list] + ls) && ls != [] && Ring(a + b) && a != [] && Apart([list] + ls, a + b)
    requires prev == a[|a| - 1] && next == if b == [] then a[0] else b[0]
    modifies [list] + ls, a + b
    ensures Ring(a + ls + b)
  {
    RingParts([list], ls);
    RingParts(a, b);
    SpliceApart(list, ls, a, b);
    SpliceLinks(list.next, list.prev, prev, next, ls, a, b);
    hide Path, AllDifferent, Apart;
    PathParts(a, ls);
    DistinctParts(a, ls);
    RingParts(a + ls, b);
  }

  method SpliceLinks(first: ListHead, last: ListHead, prev: ListHead, next: ListHead,
                     ghost ls: seq<ListHead>, ghost a: seq<ListHead>, ghost b: seq<ListHead>)
    requires ls != [] && a != [] && first == ls[0] && last == ls[|ls| - 1]
    requires prev == a[|a| - 1] && next == if b == [] then a[0] else b[0]
    requires AllDifferent(a) && AllDifferent(b) && AllDifferent(ls) && Apart(a, b) && Apart(a, ls) && Apart(ls, a)
      && Apart(ls, b)
    requires Path(a) && Path(b) && Path(ls) && if b == [] then Joined(a, a) else Joined(a, b) && Joined(b, a)
    modifies first, last, prev, next
    ensures Path(a) && Path(b) && Path(ls) && Joined(a, ls)
    ensures if b == [] then Joined(ls, a) else Joined(ls, b) && Joined(b, a)
  {
    first.prev := prev;
    prev.next := first;
    last.next := next;
    next.prev := last;
  }

  lemma SpliceApart(list: ListHead, ls: seq<ListHead>, a: seq<ListHead>, b: seq<ListHead>)
    requires Apart([list] + ls, a + b)
    ensures Apart(a, ls) && Apart(ls, b) && Apart(ls, a) && (Apart(a, b) ==> Apart(a + ls, b))
    ensures forall i | 0 <= i < |ls| :: ls[i] in [list] + ls
    ensures (forall i | 0 <= i < |a| :: a[i] in a + b && a[i] != list)
      && (forall i | 0 <= i < |b| :: b[i] in a + b && b[i] != list)
  {
    var l, r := [list] + ls, a + b;
    assert l[0] == list;
    forall i, j | 0 <= i < |a| && 0 <= j < |ls| ensures a[i] != ls[j] { assert l[j + 1] == ls[j] && r[i] == a[i]; }
    forall i, j | 0 <= i < |ls| && 0 <= j < |b|
      ensures ls[i] != b[j]
    {
      assert l[i + 1] == ls[i] && r[|a| + j] == b[j];
    }
    forall i | 0 <= i < |a| ensures a[i] in r && a[i] != list { assert r[i] == a[i] && l[0] != r[i]; }
    forall i | 0 <= i < |b| ensures b[i] in r && b[i] != list { assert r[|a| + i] == b[i] && l[0] != r[|a| + i]; }
  }

  // list_splice: the entries of list, in front of the others.
  method Splice(list: ListHead, head: ListHead, ghost ls: seq<ListHead>, ghost es: seq<ListHead>)
    requires Ring([list] + ls) && Ring([head] + es) && Apart([list] + ls, [head] + es)
    modifies [list] + ls, [head] + es
    ensures Ring([head] + ls + es)
  {
    if !Empty(list, ls) {
      RingParts([head], es);
      SpliceBetween(list, head, head.next, ls, [head], es);
    } else {
      assert [head] + ls + es == [head] + es;
    }
  }

  // list_splice_tail: the entries of list, behind the others.
  method SpliceTail(list: ListHead, head: ListHead, ghost ls: seq<ListHead>, ghost es: seq<ListHead>)
    requires Ring([list] + ls) && Ring([head] + es) && Apart([list] + ls, [head] + es)
    modifies [list] + ls, [head] + es
    ensures Ring([head] + es + ls)
  {
    ghost var r := [head] + es;
    if !Empty(list, ls) {
      assert r + [] == r;
      SpliceBetween(list, head.prev, head, ls, r, []);
      assert r + ls + [] == r + ls;
    } else {
      assert r + ls == r;
    }
  }

  // list_splice_init: the same, and list is empty afterwards.
  method SpliceInit(list: ListHead, head: ListHead, ghost ls: seq<ListHead>, ghost es: seq<ListHead>)
    requires Ring([list] + ls) && Ring([head] + es) && Apart([list] + ls, [head] + es)
    modifies [list] + ls, [head] + es
    ensures Ring([head] + ls + es) && Ring([list])
  {
    if !Empty(list, ls) {
      RingParts([head], es);
      RingParts([list], ls);
      SpliceApart(list, ls, [head], es);
      SpliceBetween(list, head, head.next, ls, [head], es);
      assert list in [list] + ls && forall i | 0 <= i < |ls| :: [list][0] != ls[i];
      list.Init();
    } else {
      assert [head] + ls + es == [head] + es;
      assert [list] + ls == [list];
    }
  }

  // list_splice_tail_init
  method SpliceTailInit(list: ListHead, head: ListHead, ghost ls: seq<ListHead>, ghost es: seq<ListHead>)
    requires Ring([list] + ls) && Ring([head] + es) && Apart([list] + ls, [head] + es)
    modifies [list] + ls, [head] + es
    ensures Ring([head] + es + ls) && Ring([list])
  {
    ghost var r := [head] + es;
    if !Empty(list, ls) {
      RingParts([list], ls);
      assert r + [] == r;
      SpliceApart(list, ls, r, []);
      SpliceBetween(list, head.prev, head, ls, r, []);
      assert r + ls + [] == r + ls;
      assert list in [list] + ls && forall i | 0 <= i < |ls| :: [list][0] != ls[i];
      list.Init();
    } else {
      assert r + ls == r;
      assert [list] + ls == [list];
    }
  }

  // Cutting and splicing back restores the list.
  method CutAndSplice(list: ListHead, head: ListHead, entry: ListHead, ghost a: seq<ListHead>, ghost b: seq<ListHead>)
    requires Ring([head] + (a + b)) && a + b != [] && list !in [head] + (a + b)
    requires entry == if a == [] then head else a[|a| - 1]
    modifies list, [head] + (a + b)
    ensures Ring([head] + (a + b)) && Ring([list])
  {
    RestIn(list, head, a, b);
    CutPosition(list, head, entry, a, b);
    SpliceInit(list, head, a, b);
    assert [head] + a + b == [head] + (a + b);
  }

  lemma RestIn(list: ListHead, head: ListHead, a: seq<ListHead>, b: seq<ListHead>)
    requires Ring([head] + (a + b)) && list !in [head] + (a + b)
    ensures Apart([list] + a, [head] + b)
    ensures (forall i | 0 <= i < |[list] + a| :: ([list] + a)[i] == list || ([list] + a)[i] in [head] + (a + b))
    ensures (forall i | 0 <= i < |[head] + b| :: ([head] + b)[i] in [head] + (a + b))
  {
    var r := [head] + (a + b);
    forall i | 0 <= i < |a| ensures a[i] in r { assert r[i + 1] == a[i]; }
    forall i | 0 <= i < |b| ensures b[i] in r { assert r[|a| + 1 + i] == b[i]; }
    assert head in r;
    forall i, j | 0 <= i < |[list] + a| && 0 <= j < |[head] + b| ensures ([list] + a)[i] != ([head] + b)[j] {
      var x := if j == 0 then 0 else |a| + j;
      assert ([head] + b)[j] == r[x];
      if i > 0 { assert ([list] + a)[i] == r[i]; }
    }
  }
}

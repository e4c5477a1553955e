/** rb/rb.c in the heap: nodes are relinked and recoloured in place, as the functions on trees say. */
module RbHeaps {
  import opened RbTrees

  ghost function Nodes(t: Tree): set<RbNode> {
    if t.Nil? then {} else Nodes(t.left) + {t.node} + Nodes(t.right)
  }

  // No node twice.
  ghost predicate Apart(t: Tree) {
    t.T? ==>
      && t.node !in Nodes(t.left) && t.node !in Nodes(t.right) && Nodes(t.left) !! Nodes(t.right)
      && Apart(t.left) && Apart(t.right)
  }

  // p is the root of a tree of this shape and these colours.
  ghost predicate IsTree(p: RbNode?, t: Tree)
    reads Nodes(t)
    decreases t
  {
    match t
    case Nil => p == null
    case T(l, n, red, r) => p == n && n.red == red && IsTree(n.leaf0, l) && IsTree(n.leaf1, r)
  }

  ghost predicate Holds(p: RbNode?, t: Tree)
    reads Nodes(t)
  {
    IsTree(p, t) && Apart(t)
  }

  // is_red
  function Red(p: RbNode?): bool
    reads if p == null then {} else {p}
  {
    p != null && p.red
  }

  lemma RedMeans(p: RbNode?, t: Tree)
    requires IsTree(p, t)
    ensures Red(p) == IsRed(t) && (p == null <==> t.Nil?)
  {
  }

  lemma {:induction false} NodesAllocated(t: Tree)
    ensures forall x <- Nodes(t) :: allocated(x)
  {
    if t.T? {
      NodesAllocated(t.left);
      NodesAllocated(t.right);
    }
  }

  // The two subtrees of a node.
  lemma Split(p: RbNode, t: Tree)
    requires Holds(p, t)
    ensures t.T? && t.node == p && p.red == t.red && Holds(p.leaf0, t.left) && Holds(p.leaf1, t.right)
    ensures Nodes(t) == Nodes(t.left) + {p} + Nodes(t.right)
    ensures p !in Nodes(t.left) && p !in Nodes(t.right) && Nodes(t.left) !! Nodes(t.right)
  {
  }

  lemma Joined(p: RbNode, l: Tree, red: bool, r: Tree)
    requires Holds(p.leaf0, l) && Holds(p.leaf1, r) && p.red == red
    requires p !in Nodes(l) && p !in Nodes(r) && Nodes(l) !! Nodes(r)
    ensures Holds(p, T(l, p, red, r)) && Nodes(T(l, p, red, r)) == Nodes(l) + {p} + Nodes(r)
  {
  }

  // rotate(r,0)
  method RotateLeftAt(r: RbNode, ghost t: Tree) returns (piv: RbNode)
    requires Holds(r, t) && t.T? && t.right.T?
    modifies r, t.right.node
    ensures Holds(piv, RotateLeft(t)) && Nodes(RotateLeft(t)) == Nodes(t)
  {
    hide IsTree, Apart;
    Split(r, t);
    RedMeans(r.leaf1, t.right);
    piv := r.leaf1;
    Split(piv, t.right);
    ghost var a, b, c := t.left, t.right.left, t.right.right;
    r.leaf1 := piv.leaf0;
    piv.leaf0 := r;
    piv.red := r.red;
    r.red := true;
    Joined(r, a, true, b);
    Joined(piv, T(a, r, true, b), t.red, c);
  }

  // rotate(r,1)
  method RotateRightAt(r: RbNode, ghost t: Tree) returns (piv: RbNode)
    requires Holds(r, t) && t.T? && t.left.T?
    modifies r, t.left.node
    ensures Holds(piv, RotateRight(t)) && Nodes(RotateRight(t)) == Nodes(t)
  {
    hide IsTree, Apart;
    Split(r, t);
    RedMeans(r.leaf0, t.left);
    piv := r.leaf0;
    Split(piv, t.left);
    ghost var a, b, c := t.left.left, t.left.right, t.right;
    r.leaf0 := piv.leaf1;
    piv.leaf1 := r;
    piv.red := r.red;
    r.red := true;
    Joined(r, b, true, c);
    Joined(piv, a, t.red, T(b, r, true, c));
  }

  // Painting one node.
  method Paint(p: RbNode, red: bool, ghost t: Tree)
    requires Holds(p, t) && t.T?
    modifies p
    ensures Holds(p, t.(red := red)) && Nodes(t.(red := red)) == Nodes(t)
  {
    hide IsTree, Apart;
    Split(p, t);
    p.red := red;
    Joined(p, t.left, red, t.right);
  }

  // colorflip
  method ColorFlipAt(root: RbNode, ghost t: Tree)
    requires Holds(root, t)
    modifies Nodes(t)
    ensures Holds(root, ColorFlip(t)) && Nodes(ColorFlip(t)) == Nodes(t)
  {
    hide IsTree, Apart;
    Split(root, t);
    RedMeans(root.leaf0, t.left);
    RedMeans(root.leaf1, t.right);
    if root.leaf0 == null || root.leaf1 == null { return; }
    NodesAllocated(t);
    root.red := !root.red;
    Split(root.leaf0, t.left);
    Split(root.leaf1, t.right);
    Paint(root.leaf0, !root.leaf0.red, t.left);
    Paint(root.leaf1, !root.leaf1.red, t.right);
    Joined(root, t.left.(red := !t.left.red), !t.red, t.right.(red := !t.right.red));
  }

  // The corrections one by one.
  method LeanLeftAt(n: RbNode, always: bool, ghost t: Tree) returns (r: RbNode, ghost u: Tree)
    requires Holds(n, t)
    modifies Nodes(t)
    ensures u == if always then (if t.T? && IsRed(t.right) then RotateLeft(t) else t) else LeanLeft(t)
    ensures Holds(r, u) && Nodes(u) == Nodes(t)
  {
    hide IsTree, Apart;
    r, u := n, t;
    Split(n, t);
    RedMeans(n.leaf0, t.left);
    RedMeans(n.leaf1, t.right);
    if Red(n.leaf1) && (always || !Red(n.leaf0)) {
      Split(n.leaf1, t.right);
      r := RotateLeftAt(n, t);
      u := RotateLeft(t);
    }
  }

  method SplitRedAt(n: RbNode, ghost t: Tree) returns (r: RbNode)
    requires Holds(n, t)
    modifies Nodes(t)
    ensures Holds(r, SplitRed(t)) && Nodes(SplitRed(t)) == Nodes(t)
  {
    hide IsTree, Apart;
    r := n;
    Split(n, t);
    RedMeans(n.leaf0, t.left);
    if Red(n.leaf0) {
      Split(n.leaf0, t.left);
      RedMeans(n.leaf0.leaf0, t.left.left);
      if Red(n.leaf0.leaf0) { r := RotateRightAt(n, t); }
    }
  }

  method FlipRedAt(n: RbNode, ghost t: Tree)
    requires Holds(n, t)
    modifies Nodes(t)
    ensures Holds(n, FlipRed(t)) && Nodes(FlipRed(t)) == Nodes(t)
  {
    hide IsTree, Apart, ColorFlip;
    Split(n, t);
    RedMeans(n.leaf0, t.left);
    RedMeans(n.leaf1, t.right);
    if Red(n.leaf0) && Red(n.leaf1) { ColorFlipAt(n, t); }
  }

  // The three corrections at the end of insert_h, and fix_up, which differs in the first.
  method Correct(n: RbNode, always: bool, ghost t: Tree) returns (r: RbNode)
    requires Holds(n, t)
    modifies Nodes(t)
    ensures var u := if always then FixUp(t) else FlipRed(SplitRed(LeanLeft(t))); Holds(r, u) && Nodes(u) == Nodes(t)
  {
    hide Holds, LeanLeft, SplitRed, FlipRed;
    ghost var u;
    r, u := LeanLeftAt(n, always, t);
    r := SplitRedAt(r, u);
    FlipRedAt(r, SplitRed(u));
  }

  // insert_h; x is the new node, or the one that has the key already.
  method InsertAt(n: RbNode?, data: int, ghost t: Tree) returns (r: RbNode, ghost x: RbNode)
    requires Holds(n, t)
    modifies Nodes(t)
    ensures x.data == data && (x in Nodes(t) || fresh(x))
    ensures Holds(r, Insert(t, x)) && Nodes(Insert(t, x)) <= Nodes(t) + {x}
    decreases t
  {
    if n == null {
      r := new RbNode(data);
      return r, r;
    }
    hide IsTree, Apart, LeanLeft, SplitRed, FlipRed;
    Split(n, t);
    NodesAllocated(t);
    if n.data == data { return n, n; }
    ghost var u;
    if n.data > data {
      var leaf;
      leaf, x := InsertAt(n.leaf0, data, t.left);
      n.leaf0 := leaf;
      u := Insert(t.left, x);
      Joined(n, u, t.red, t.right);
      u := T(u, n, t.red, t.right);
    } else {
      var leaf;
      leaf, x := InsertAt(n.leaf1, data, t.right);
      n.leaf1 := leaf;
      u := Insert(t.right, x);
      Joined(n, t.left, t.red, u);
      u := T(t.left, n, t.red, u);
    }
    r := Correct(n, false, u);
  }

  // move_red(n,0)
  method MoveRedAt(n0: RbNode, ghost t: Tree) returns (n: RbNode)
    requires Holds(n0, t) && CanMoveRed(t)
    modifies Nodes(t)
    ensures Holds(n, MoveRed(t)) && Nodes(MoveRed(t)) == Nodes(t)
  {
    hide IsTree, Apart, RotateRight, RotateLeft;
    n := n0;
    Split(n, t);
    RedMeans(n.leaf0, t.left);
    RedMeans(n.leaf1, t.right);
    ColorFlipAt(n, t);
    ghost var u := ColorFlip(t);
    Split(n, u);
    NodesAllocated(u);
    RedMeans(n.leaf1, u.right);
    Split(n.leaf1, u.right);
    RedMeans(n.leaf1.leaf0, u.right.left);
    if Red(n.leaf1.leaf0) {
      var leaf := RotateRightAt(n.leaf1, u.right);
      n.leaf1 := leaf;
      Joined(n, u.left, u.red, RotateRight(u.right));
      ghost var v := T(u.left, n, u.red, RotateRight(u.right));
      Split(leaf, RotateRight(u.right));
      n := RotateLeftAt(n, v);
      ColorFlipAt(n, RotateLeft(v));
    }
  }

  // delete_min_h
  method DeleteMinAt(n0: RbNode, ghost t: Tree) returns (r: RbNode?)
    requires Holds(n0, t) && CanDeleteMin(t)
    modifies Nodes(t)
    ensures Holds(r, DeleteMin(t)) && Nodes(DeleteMin(t)) <= Nodes(t)
    decreases Size(t)
  {
    hide IsTree, Apart, MoveRed, FixUp;
    var n := n0;
    Split(n, t);
    RedMeans(n.leaf0, t.left);
    if n.leaf0 == null { return null; }
    Split(n.leaf0, t.left);
    RedMeans(n.leaf0.leaf0, t.left.left);
    if !Red(n.leaf0) && !Red(n.leaf0.leaf0) { n := MoveRedAt(n, t); }
    ghost var u := Prepared(t);
    r := DeleteLeft(n, u, t);
  }

  method DeleteLeft(n: RbNode, ghost u: Tree, ghost t: Tree) returns (r: RbNode?)
    requires Holds(n, u) && u == Prepared(t) && Nodes(u) == Nodes(t) && CanDeleteMin(t) && t.left.T?
    modifies Nodes(t)
    ensures Holds(r, DeleteMin(t)) && Nodes(DeleteMin(t)) <= Nodes(t)
    decreases Size(t), 0
  {
    hide IsTree, Apart, MoveRed, FixUp, Prepared;
    Split(n, u);
    NodesAllocated(u);
    PreparedSize(t);
    RedMeans(n.leaf0, u.left);
    var leaf := DeleteMinAt(n.leaf0, u.left);
    n.leaf0 := leaf;
    Joined(n, DeleteMin(u.left), u.red, u.right);
    r := Correct(n, true, WithLeft(u, DeleteMin(u.left)));
  }

  // min_h
  method LeastAt(n: RbNode, ghost t: Tree) returns (k: int)
    requires Holds(n, t)
    ensures t.T? && k == LeastKey(t)
    decreases t
  {
    Split(n, t);
    RedMeans(n.leaf0, t.left);
    if n.leaf0 == null { return n.data; }
    k := LeastAt(n.leaf0, t.left);
  }

  // rb_tree
  class RbTree {
    var root: RbNode?
    ghost var tree: Tree

    ghost predicate Shape()
      reads this, Nodes(tree)
    {
      Holds(root, tree)
    }

    // The invariant of a left-leaning red-black tree, but for the colour of the root.
    ghost predicate Invariant()
      reads this, Nodes(tree)
    {
      Shape() && RbTrees.Valid(Blacken(tree))
    }

    ghost function Contents(): set<int>
      reads this
    {
      Keys(tree)
    }

    // mk_tree
    constructor ()
      ensures Invariant() && RbTrees.Valid(tree) && Contents() == {}
    {
      root, tree := null, Nil;
      new;
      EmptyValid();
    }

    // rb_insert, which paints the root black
    method Insert(data: int)
      requires Invariant()
      modifies this, Nodes(tree)
      ensures Invariant() && RbTrees.Valid(tree) && Contents() == old(Contents()) + {data}
      ensures forall x <- Nodes(tree) :: x in old(Nodes(tree)) || fresh(x)
    {
      hide Holds, RbTrees.Valid;
      var n;
      ghost var x;
      n, x := InsertAt(root, data, tree);
      InsertRestores(tree, x);
      InsertNotNil(tree, x);
      tree := RbTrees.Insert(tree, x);
      if n != root { root := n; }
      RootIn(root, tree);
      Paint(root, false, tree);
      tree := Blacken(tree);
    }

    // rb_min
    method Min() returns (k: int)
      requires Invariant() && root != null
      ensures k in Contents() && forall j <- Contents() :: k <= j
    {
      k := LeastAt(root, tree);
      BlackenKeys(tree);
      LeastKeyIsLeast(tree);
    }

    // rb_delete_min: the least key goes and the invariant is kept, but for the colour of the root, which is not
    // painted.
    method DeleteMin()
      requires Invariant() && root != null
      modifies this, Nodes(tree)
      ensures Invariant() && forall x <- Nodes(tree) :: x in old(Nodes(tree))
      ensures exists k <- old(Contents()) ::
        Contents() == old(Contents()) - {k}
        && forall j <- old(Contents()) :: k <= j
      ensures RbTrees.Valid(tree)
         <==> old(tree).left.Nil? || (old(IsRed(tree)) <==> ThinSpine(old(tree)))
    {
      BlackenKeys(tree);
      DeleteMinRestores(tree);
      LeastKeyIsLeast(tree);
      hide RbTrees.Valid;
      var n := DeleteMinAt(root, tree);
      root := n;
      tree := RbTrees.DeleteMin(tree);
      BlackenKeys(tree);
    }
  }

  lemma EmptyValid()
    ensures RbTrees.Valid(Nil)
  {
    assert HasHeight(Nil, 1);
  }

  lemma RootIn(p: RbNode?, t: Tree)
    requires Holds(p, t) && t.T?
    ensures p != null && p in Nodes(t)
  {
  }

  lemma InsertNotNil(t: Tree, x: RbNode)
    ensures RbTrees.Insert(t, x).T?
  {
  }

  lemma BlackenKeys(t: Tree)
    ensures Keys(Blacken(t)) == Keys(t) && (Searchable(Blacken(t)) <==> Searchable(t))
  {
  }
}

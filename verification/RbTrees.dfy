/** rb/rb.c on trees as values: what the operations do to the shape,
    and the invariant of a left-leaning red-black tree. */
module RbTrees {

  class RbNode {
    const data: int
    var red: bool
    var leaf0: RbNode?
    var leaf1: RbNode?

    // mk_node
    constructor (val: int)
      ensures data == val && red && leaf0 == null && leaf1 == null
    {
      data := val;
      red, leaf0, leaf1 := true, null, null;
    }
  }

  // A tree of nodes, with their colours.
  datatype Tree = Nil | T(left: Tree, node: RbNode, red: bool, right: Tree)

  predicate IsRed(t: Tree) {
    t.T? && t.red
  }

  ghost function Keys(t: Tree): set<int> {
    if t.Nil? then {} else Keys(t.left) + {t.node.data} + Keys(t.right)
  }

  // ---- the invariant ----

  // left data < root data < right data
  ghost predicate Searchable(t: Tree) {
    t.T? ==>
      && Searchable(t.left) && Searchable(t.right)
      && (forall k <- Keys(t.left) :: k < t.node.data)
      && (forall k <- Keys(t.right) :: t.node.data < k)
  }

  // The black height, as assert_h counts it; nil leaves are black.
  ghost predicate HasHeight(t: Tree, h: int) {
    if t.Nil? then h == 1
    else var below := if t.red then h else h - 1; HasHeight(t.left, below) && HasHeight(t.right, below)
  }

  // No red node on the right, none below a red one.
  ghost predicate Proper(t: Tree) {
    t.T? ==> !IsRed(t.right) && (t.red ==> !IsRed(t.left)) && Proper(t.left) && Proper(t.right)
  }

  ghost predicate Valid(t: Tree) {
    Searchable(t) && Proper(t) && !IsRed(t) && exists h :: HasHeight(t, h)
  }

  // ---- the operations ----

  // rotate(r,0) and rotate(r,1)
  function RotateLeft(t: Tree): Tree
    requires t.T? && t.right.T?
  {
    T(T(t.left, t.node, true, t.right.left), t.right.node, t.red, t.right.right)
  }

  function RotateRight(t: Tree): Tree
    requires t.T? && t.left.T?
  {
    T(t.left.left, t.left.node, t.red, T(t.left.right, t.node, true, t.right))
  }

  function ColorFlip(t: Tree): Tree {
    if t.Nil? || t.left.Nil? || t.right.Nil? then t
    else T(t.left.(red := !t.left.red), t.node, !t.red, t.right.(red := !t.right.red))
  }

  // The three corrections at the end of insert_h.
  function LeanLeft(t: Tree): Tree {
    if t.T? && IsRed(t.right) && !IsRed(t.left) then RotateLeft(t) else t
  }

  function SplitRed(t: Tree): Tree {
    if t.T? && IsRed(t.left) && IsRed(t.left.left) then RotateRight(t) else t
  }

  function FlipRed(t: Tree): Tree {
    if t.T? && IsRed(t.left) && IsRed(t.right) then ColorFlip(t) else t
  }

  // insert_h; x is the node made for the key if it is not there yet.
  function Insert(t: Tree, x: RbNode): Tree {
    if t.Nil? then T(Nil, x, true, Nil)
    else if x.data == t.node.data then t
    else
      var t' := if t.node.data > x.data then t.(left := Insert(t.left, x)) else t.(right := Insert(t.right, x));
      FlipRed(SplitRed(LeanLeft(t')))
  }

  function Blacken(t: Tree): Tree {
    if t.Nil? then Nil else t.(red := false)
  }

  // fix_up
  function FixUp(t: Tree): Tree {
    FlipRed(SplitRed(if t.T? && IsRed(t.right) then RotateLeft(t) else t))
  }

  // move_red(n,0) finds the nodes it follows.
  predicate CanMoveRed(t: Tree) {
    t.T? && t.left.T? && t.right.T?
  }

  // move_red(n,0)
  function MoveRed(t: Tree): Tree
    requires CanMoveRed(t)
  {
    var u := ColorFlip(t);
    if IsRed(u.right.left) then ColorFlip(RotateLeft(u.(right := RotateRight(u.right)))) else u
  }

  // delete_min_h never follows a null child.
  ghost predicate CanDeleteMin(t: Tree)
    decreases Size(t)
  {
    && t.T?
    && (t.left.T? ==>
          && (!IsRed(t.left) && !IsRed(t.left.left) ==> CanMoveRed(t))
          && Size(Prepared(t).left) < Size(t) && CanDeleteMin(Prepared(t).left))
  }

  function WithLeft(t: Tree, l: Tree): Tree {
    if t.Nil? then Nil else t.(left := l)
  }

  // The tree before the recursive call.
  function Prepared(t: Tree): Tree {
    if t.T? && t.left.T? && !IsRed(t.left) && !IsRed(t.left.left) && CanMoveRed(t) then MoveRed(t) else t
  }

  function Size(t: Tree): nat {
    if t.Nil? then 0 else Size(t.left) + 1 + Size(t.right)
  }

  // delete_min_h
  function DeleteMin(t: Tree): Tree
    requires CanDeleteMin(t)
    decreases Size(t)
  {
    if t.left.Nil? then Nil
    else FixUp(WithLeft(Prepared(t), DeleteMin(Prepared(t).left)))
  }

  // ---- taking trees apart and putting them together ----

  function Below(t: Tree, h: int): int {
    if IsRed(t) then h else h - 1
  }

  ghost predicate Sound(t: Tree, h: int) {
    Proper(t) && HasHeight(t, h)
  }

  lemma Parts(t: Tree, h: int)
    requires t.T? && Sound(t, h)
    ensures Sound(t.left, Below(t, h)) && Sound(t.right, Below(t, h)) && !IsRed(t.right) && (t.red ==> !IsRed(t.left))
  {
  }

  lemma Join(l: Tree, n: RbNode, red: bool, r: Tree, h: int)
    requires Sound(l, h) && Sound(r, h) && !IsRed(r) && (red ==> !IsRed(l))
    ensures Sound(T(l, n, red, r), if red then h else h + 1)
  {
  }

  lemma Recoloured(t: Tree, red: bool, h: int)
    requires t.T? && Sound(t, h) && (red ==> !IsRed(t.left))
    ensures Sound(t.(red := red), if red == t.red then h else if red then h - 1 else h + 1)
  {
  }

  // ---- insertion ----

  // Sound but for a red left child of a red root.
  ghost predicate AlmostSound(t: Tree, h: int) {
    if t.Nil? then h == 1 else !IsRed(t.right) && Sound(t.left, Below(t, h)) && Sound(t.right, Below(t, h))
  }

  lemma SoundAlmost(t: Tree, h: int)
    ensures Sound(t, h) ==> AlmostSound(t, h)
    ensures AlmostSound(t, h) && !(IsRed(t) && IsRed(t.left)) ==> Sound(t, h)
    ensures AlmostSound(t, h) && IsRed(t) ==> Sound(Blacken(t), h + 1)
  {
  }

  lemma {:induction false} InsertBalances(t: Tree, x: RbNode, h: int)
    requires Sound(t, h)
    ensures AlmostSound(Insert(t, x), h) && (!IsRed(t) ==> Sound(Insert(t, x), h))
  {
    hide Sound, LeanLeft, SplitRed, FlipRed;
    SoundAlmost(t, h);
    if t.Nil? {
      NewLeaf(x, h);
    } else if x.data != t.node.data {
      var b := Below(t, h);
      Parts(t, h);
      if t.node.data > x.data {
        InsertBalances(t.left, x, b);
        CorrectLeft(Insert(t.left, x), t.node, t.red, t.right, b);
      } else {
        InsertBalances(t.right, x, b);
        CorrectRight(t.left, t.node, t.red, Insert(t.right, x), b);
      }
    }
  }

  lemma NewLeaf(x: RbNode, h: int)
    requires Sound(Nil, h)
    ensures Sound(T(Nil, x, true, Nil), h) && AlmostSound(T(Nil, x, true, Nil), h)
  {
  }

  // The corrections after an insertion into one subtree; the other is as it should be.
  lemma CorrectLeft(l: Tree, n: RbNode, red: bool, r: Tree, b: int)
    requires AlmostSound(l, b) && Sound(r, b) && !IsRed(r) && (red ==> Sound(l, b))
    ensures var t := FlipRed(SplitRed(LeanLeft(T(l, n, red, r)))); var h := if red then b else b + 1;
      AlmostSound(t, h) && (!red ==> Sound(t, h))
  {
    hide Sound;
    SoundAlmost(l, b);
    if red {
      if IsRed(l) { Parts(l, b); }
    } else if IsRed(l) && IsRed(l.left) {
      Recoloured2(l.left, b);
      Join(l.right, n, false, r, b);
      Join(l.left.(red := false), l.node, true, T(l.right, n, false, r), b + 1);
      SoundAlmost(T(l.left.(red := false), l.node, true, T(l.right, n, false, r)), b + 1);
    } else {
      Join(l, n, false, r, b);
      SoundAlmost(T(l, n, false, r), b + 1);
    }
  }

  lemma Recoloured2(t: Tree, b: int)
    requires t.T? && t.red && Sound(t, b)
    ensures Sound(t.(red := false), b + 1)
  {
  }

  lemma CorrectRight(l: Tree, n: RbNode, red: bool, r: Tree, b: int)
    requires Sound(l, b) && (red ==> !IsRed(l)) && Sound(r, b)
    ensures var t := FlipRed(SplitRed(LeanLeft(T(l, n, red, r)))); var h := if red then b else b + 1;
      AlmostSound(t, h) && (!red ==> Sound(t, h))
  {
    hide Sound;
    if IsRed(l) { Parts(l, b); }
    if IsRed(r) {
      Parts(r, b);
      if IsRed(l) {
        Recoloured(l, false, b);
        Recoloured(r, false, b);
        Join(l.(red := false), n, true, r.(red := false), b + 1);
        SoundAlmost(T(l.(red := false), n, true, r.(red := false)), b + 1);
      } else {
        Join(l, n, true, r.left, b);
        if !red {
          Join(T(l, n, true, r.left), r.node, false, r.right, b);
          SoundAlmost(T(T(l, n, true, r.left), r.node, false, r.right), b + 1);
        }
      }
    } else if !red {
      Join(l, n, false, r, b);
      SoundAlmost(T(l, n, false, r), b + 1);
    }
  }

  lemma {:induction false} InsertKeys(t: Tree, x: RbNode)
    requires Searchable(t)
    ensures Searchable(Insert(t, x)) && Keys(Insert(t, x)) == Keys(t) + {x.data}
  {
    if t.T? && x.data != t.node.data {
      InsertKeys(t.left, x);
      InsertKeys(t.right, x);
      var t' := if t.node.data > x.data then t.(left := Insert(t.left, x)) else t.(right := Insert(t.right, x));
      assert Searchable(t') && Keys(t') == Keys(t) + {x.data};
      hide LeanLeft, SplitRed, FlipRed;
      LeanLeftKeys(t');
      SplitRedKeys(LeanLeft(t'));
      FlipRedKeys(SplitRed(LeanLeft(t')));
    }
  }

  lemma LeanLeftKeys(t: Tree)
    requires Searchable(t)
    ensures Searchable(LeanLeft(t)) && Keys(LeanLeft(t)) == Keys(t)
  {
    if t.T? && t.right.T? { RotateLeftKeys(t); }
  }

  lemma SplitRedKeys(t: Tree)
    requires Searchable(t)
    ensures Searchable(SplitRed(t)) && Keys(SplitRed(t)) == Keys(t)
  {
    if t.T? && t.left.T? { RotateRightKeys(t); }
  }

  lemma FlipRedKeys(t: Tree)
    requires Searchable(t)
    ensures Searchable(FlipRed(t)) && Keys(FlipRed(t)) == Keys(t)
    ensures Searchable(ColorFlip(t)) && Keys(ColorFlip(t)) == Keys(t)
  {
    if t.T? && t.left.T? && t.right.T? {
      Painted(t.left, !t.left.red);
      Painted(t.right, !t.right.red);
    }
  }

  // Colours mean nothing to a search.
  lemma Painted(t: Tree, red: bool)
    requires t.T?
    ensures Keys(t.(red := red)) == Keys(t) && (Searchable(t) <==> Searchable(t.(red := red)))
  {
  }

  lemma RotateLeftKeys(t: Tree)
    requires Searchable(t) && t.T? && t.right.T?
    ensures Searchable(RotateLeft(t)) && Keys(RotateLeft(t)) == Keys(t)
  {
    JoinKeys(t.left, t.node, t.right.left, true);
    assert t.right.node.data in Keys(t.right);
    forall k | k in Keys(t.right.left) ensures k in Keys(t.right) {}
    forall k | k in Keys(t.left) ensures k < t.right.node.data {}
    JoinKeys(T(t.left, t.node, true, t.right.left), t.right.node, t.right.right, t.red);
  }

  // Two trees with a node between them.
  lemma JoinKeys(l: Tree, x: RbNode, r: Tree, red: bool)
    ensures Keys(T(l, x, red, r)) == Keys(l) + {x.data} + Keys(r)
    ensures Searchable(l) && Searchable(r) && (forall k <- Keys(l) :: k < x.data) && (forall k <- Keys(r) :: x.data < k)
         <==> Searchable(T(l, x, red, r))
  {
  }

  lemma RotateRightKeys(t: Tree)
    requires Searchable(t) && t.T? && t.left.T?
    ensures Searchable(RotateRight(t)) && Keys(RotateRight(t)) == Keys(t)
  {
    JoinKeys(t.left.right, t.node, t.right, true);
    assert t.left.node.data in Keys(t.left);
    forall k | k in Keys(t.left.right) ensures k in Keys(t.left) {}
    forall k | k in Keys(t.right) ensures t.left.node.data < k {}
    JoinKeys(t.left.left, t.left.node, T(t.left.right, t.node, true, t.right), t.red);
  }

  // The colour of the root decides nothing but the colour of the new root.
  lemma InsertColour(t: Tree, x: RbNode)
    ensures Blacken(Insert(t, x)) == if t.Nil? then Blacken(Insert(t, x)) else Blacken(Insert(Blacken(t), x))
    ensures Keys(Blacken(Insert(t, x))) == Keys(Insert(t, x))
  {
    if t.T? && x.data != t.node.data {
      var u := if t.node.data > x.data then t.(left := Insert(t.left, x)) else t.(right := Insert(t.right, x));
      CorrectColour(u);
    }
  }

  lemma CorrectColour(t: Tree)
    requires t.T?
    ensures Blacken(FlipRed(SplitRed(LeanLeft(t)))) == Blacken(FlipRed(SplitRed(LeanLeft(Blacken(t)))))
  {
  }

  // rb_insert, into a tree with the invariant but for the colour of its root: the invariant holds, and the key is
  // there.
  lemma InsertRestores(t: Tree, x: RbNode)
    requires Valid(Blacken(t))
    ensures Valid(Blacken(Insert(t, x))) && Keys(Blacken(Insert(t, x))) == Keys(t) + {x.data}
  {
    hide Insert, Valid;
    InsertValid(Blacken(t), x);
    InsertColour(t, x);
    assert Keys(Blacken(t)) == Keys(t);
  }

  // rb_insert keeps the invariant and adds the key.
  lemma InsertValid(t: Tree, x: RbNode)
    requires Valid(t)
    ensures Valid(Blacken(Insert(t, x))) && Keys(Blacken(Insert(t, x))) == Keys(t) + {x.data}
  {
    var h :| HasHeight(t, h);
    InsertBalances(t, x, h);
    InsertKeys(t, x);
    var u := Insert(t, x);
    SoundAlmost(u, h);
    assert Sound(Blacken(u), if IsRed(u) then h + 1 else h);
    Painted(u, false);
  }

  // ---- deletion of the least key ----

  // Where delete_min_h may be called below the root.
  ghost predicate Deletable(t: Tree, h: int) {
    Sound(t, h) && t.T? && (t.red || IsRed(t.left))
  }

  // All the way down the left there is nothing red to borrow from.
  predicate ThinSpine(t: Tree) {
    t.T? && t.left.T? ==>
        !IsRed(t.left) && !IsRed(t.left.left) && t.right.T? && !IsRed(t.right.left)
        && ThinSpine(t.left)
  }

  lemma {:induction false} HeightLeast(t: Tree, h: int)
    requires HasHeight(t, h)
    ensures h >= 1 && (t.T? && !t.red ==> h >= 2)
  {
    if t.T? { HeightLeast(t.left, Below(t, h)); }
  }

  // A node without a left child has no right child either; a black left child has a sibling.
  lemma Siblings(t: Tree, h: int)
    requires Sound(t, h) && t.T?
    ensures t.left.Nil? ==> t.right.Nil?
    ensures t.left.T? && !IsRed(t.left) ==> t.right.T?
  {
    Parts(t, h);
    HeightLeast(t.right, Below(t, h));
    HeightLeast(t.left, Below(t, h));
  }

  lemma PreparedSize(t: Tree)
    requires t.T? && t.left.T?
    ensures Prepared(t).T? && Prepared(t).left.T? && Size(Prepared(t).left) < Size(t)
  {
    if !IsRed(t.left) && !IsRed(t.left.left) && CanMoveRed(t) && IsRed(t.right.left) {
      var u := ColorFlip(t);
      assert MoveRed(t).left == T(u.left, t.node, false, t.right.left.left);
      assert Size(u.left) == Size(t.left) && Size(t.right) > Size(t.right.left) > Size(t.right.left.left);
      assert Size(MoveRed(t).left) == Size(u.left) + 1 + Size(t.right.left.left);
    }
  }

  // Case: nothing has to be moved.
  lemma NoMove(t: Tree, h: int)
    requires Sound(t, h) && t.T? && t.left.T? && (IsRed(t.left) || IsRed(t.left.left))
    ensures Prepared(t) == t && Deletable(t.left, Below(t, h))
  {
    Parts(t, h);
  }

  lemma NoMoveEnds(t: Tree, h: int, l: Tree)
    requires Sound(t, h) && t.T? && t.left.T? && (IsRed(t.left) || IsRed(t.left.left))
    requires Sound(l, Below(t, h)) && (!IsRed(t.left) ==> !IsRed(l))
    ensures FixUp(t.(left := l)) == t.(left := l) && Sound(t.(left := l), h)
  {
    Parts(t, h);
    if IsRed(l) { Parts(l, Below(t, h)); }
    Join(l, t.node, t.red, t.right, Below(t, h));
  }

  // Case: the sibling has nothing to lend; both children turn red.
  ghost predicate Flips(t: Tree) {
    t.T? && t.left.T? && !IsRed(t.left) && !IsRed(t.left.left) && t.right.T? && !t.right.red && !IsRed(t.right.left)
  }

  lemma MoveFlips(t: Tree, h: int)
    requires Sound(t, h) && Flips(t)
    ensures Prepared(t) == T(t.left.(red := true), t.node, !t.red, t.right.(red := true))
    ensures Deletable(Prepared(t).left, Below(t, h) - 1)
  {
    Parts(t, h);
    Recoloured(t.left, true, Below(t, h));
  }

  // Afterwards the tree is put right again; if the left side has kept a red root, that is where the height comes from.
  lemma MoveFlipsEnds(t: Tree, h: int, l: Tree)
    requires Sound(t, h) && Flips(t) && Sound(l, Below(t, h) - 1)
    ensures var u := FixUp(WithLeft(Prepared(t), l));
      if IsRed(l) then u.T? && Sound(u, h) && u.red == t.red
      else u == T(T(l, t.node, true, t.right.left), t.right.node, !t.red, t.right.right)
           && Sound(u.left, Below(t, h) - 1) && Sound(u.right, Below(t, h) - 1) && !IsRed(u.right)
  {
    MoveFlips(t, h);
    var b, r := Below(t, h), t.right;
    Parts(t, h);
    Parts(r, b);
    if IsRed(l) {
      Parts(l, b - 1);
      Recoloured(l, false, b - 1);
      Join(r.left, r.node, false, r.right, b - 1);
      Join(l.(red := false), t.node, t.red, T(r.left, r.node, false, r.right), b);
    } else {
      Join(l, t.node, true, r.left, b - 1);
    }
  }

  // Case: a red node is moved over from the sibling.
  ghost predicate Borrows(t: Tree) {
    t.T? && t.left.T? && !IsRed(t.left) && !IsRed(t.left.left) && t.right.T? && !t.right.red && IsRed(t.right.left)
  }

  lemma MoveBorrows(t: Tree, h: int)
    requires Sound(t, h) && Borrows(t)
    ensures var (rl, r) := (t.right.left, t.right);
      Prepared(t) == T(T(t.left.(red := true), t.node, false, rl.left), rl.node, t.red,
          T(rl.right, r.node, false, r.right))
    ensures Deletable(Prepared(t).left, Below(t, h))
  {
    var b := Below(t, h);
    Parts(t, h);
    Parts(t.right, b);
    Parts(t.right.left, b - 1);
    Recoloured(t.left, true, b);
    Join(t.left.(red := true), t.node, false, t.right.left.left, b - 1);
  }

  lemma MoveBorrowsEnds(t: Tree, h: int, l: Tree)
    requires Sound(t, h) && Borrows(t) && Sound(l, Below(t, h)) && !IsRed(l)
    ensures var u := WithLeft(Prepared(t), l); u.T? && FixUp(u) == u && Sound(u, h) && u.red == t.red
  {
    MoveBorrows(t, h);
    var b := Below(t, h);
    Parts(t, h);
    Parts(t.right, b);
    Parts(t.right.left, b - 1);
    Join(t.right.left.right, t.right.node, false, t.right.right, b - 1);
    Join(l, t.right.left.node, t.red, T(t.right.left.right, t.right.node, false, t.right.right), b);
  }

  // Below the root the invariant is kept, no null child is followed, and a black subtree stays black; a red one turns
  // black exactly if there was nothing to borrow.
  lemma {:induction false} DeleteMinBalances(t: Tree, h: int)
    requires Deletable(t, h)
    ensures CanDeleteMin(t) && LeansDown(t) && Sound(DeleteMin(t), h)
    ensures !t.red ==> !IsRed(DeleteMin(t))
    ensures t.red ==> (IsRed(DeleteMin(t)) <==> !ThinSpine(t))
    decreases Size(t)
  {
    hide Sound, FixUp, Prepared, Size;
    Siblings(t, h);
    if t.left.T? {
      Parts(t, h);
      PreparedSize(t);
      if IsRed(t.left) || IsRed(t.left.left) {
        NoMove(t, h);
        DeleteMinBalances(t.left, Below(t, h));
        NoMoveEnds(t, h, DeleteMin(t.left));
      } else if !IsRed(t.right.left) {
        MoveFlips(t, h);
        DeleteMinBalances(Prepared(t).left, Below(t, h) - 1);
        var l := DeleteMin(Prepared(t).left);
        ThinPainted(t.left);
        MoveFlipsEnds(t, h, l);
        if !IsRed(l) { Join(T(l, t.node, true, t.right.left), t.right.node, false, t.right.right, h - 1); }
      } else {
        MoveBorrows(t, h);
        DeleteMinBalances(Prepared(t).left, Below(t, h));
        MoveBorrowsEnds(t, h, DeleteMin(Prepared(t).left));
      }
    } else {
      LeafHeight(t, h);
    }
  }

  lemma ThinPainted(t: Tree)
    requires t.T?
    ensures ThinSpine(t.(red := true)) == ThinSpine(t)
  {
  }

  lemma LeafHeight(t: Tree, h: int)
    requires Sound(t, h) && t.T? && t.left.Nil? && t.red
    ensures Sound(Nil, h)
  {
  }

  // min_h
  function LeastKey(t: Tree): int
    requires t.T?
  {
    if t.left.Nil? then t.node.data else LeastKey(t.left)
  }

  lemma {:induction false} LeastKeyIsLeast(t: Tree)
    requires t.T? && Searchable(t)
    ensures LeastKey(t) in Keys(t) && forall k <- Keys(t) :: LeastKey(t) <= k
  {
    if t.left.T? {
      LeastKeyIsLeast(t.left);
      assert LeastKey(t.left) < t.node.data;
    }
  }

  lemma LeastUnique(t: Tree, u: Tree)
    requires t.T? && u.T? && Searchable(t) && Searchable(u) && Keys(t) == Keys(u)
    ensures LeastKey(t) == LeastKey(u)
  {
    LeastKeyIsLeast(t);
    LeastKeyIsLeast(u);
  }

  lemma FixUpKeys(t: Tree)
    requires Searchable(t)
    ensures Searchable(FixUp(t)) && Keys(FixUp(t)) == Keys(t)
  {
    hide SplitRed, FlipRed;
    if t.T? && IsRed(t.right) {
      RotateLeftKeys(t);
      SplitRedKeys(RotateLeft(t));
      FlipRedKeys(SplitRed(RotateLeft(t)));
    } else {
      SplitRedKeys(t);
      FlipRedKeys(SplitRed(t));
    }
  }

  lemma PreparedKeys(t: Tree)
    requires Searchable(t)
    ensures Searchable(Prepared(t)) && Keys(Prepared(t)) == Keys(t)
  {
    if t.T? && t.left.T? && !IsRed(t.left) && !IsRed(t.left.left) && CanMoveRed(t) {
      hide Searchable, Keys, RotateLeft, RotateRight;
      var u := ColorFlip(t);
      FlipRedKeys(t);
      if IsRed(u.right.left) {
        JoinKeys(u.left, u.node, u.right, u.red);
        RotateRightKeys(u.right);
        var v := u.(right := RotateRight(u.right));
        JoinKeys(u.left, u.node, RotateRight(u.right), u.red);
        JoinFlipped(u, v);
        RotateLeftKeys(v);
        FlipRedKeys(RotateLeft(v));
      }
    }
  }

  lemma JoinFlipped(u: Tree, v: Tree)
    requires u.T? && u.right.T? && u.right.left.T?
    ensures RotateRight(u.right).T?
  {
  }

  // Exactly the least key goes.
  lemma {:induction false} DeleteMinKeys(t: Tree)
    requires Searchable(t) && CanDeleteMin(t) && (t.left.Nil? ==> t.right.Nil?) && LeansDown(t)
    ensures Searchable(DeleteMin(t)) && Keys(DeleteMin(t)) == Keys(t) - {LeastKey(t)}
    decreases Size(t)
  {
    if t.left.T? {
      hide Searchable, Keys, FixUp, Prepared;
      PreparedKeys(t);
      var u := Prepared(t);
      PreparedSize(t);
      JoinKeys(u.left, u.node, u.right, u.red);
      DeleteMinKeys(u.left);
      LeastKeyIsLeast(u.left);
      LeastUnique(t, u);
      var l := DeleteMin(u.left);
      JoinKeys(l, u.node, u.right, u.red);
      FixUpKeys(WithLeft(u, l));
      assert LeastKey(u) == LeastKey(u.left);
      assert LeastKey(u.left) != u.node.data && LeastKey(u.left) !in Keys(u.right);
    }
  }

  // Wherever the deletion arrives, a node without a left child has no right child.
  ghost predicate LeansDown(t: Tree)
    requires CanDeleteMin(t)
    decreases Size(t)
  {
    (t.left.Nil? ==> t.right.Nil?) && (t.left.T? ==> LeansDown(Prepared(t).left))
  }

  // rb_delete_min on a whole tree: no null child is followed, exactly the least key goes, and once the root is painted
  // black the invariant holds again.  rb_delete_min does not paint it: what it leaves satisfies the invariant if and
  // only if the tree had no left child, or something red along its left side to borrow from.
  lemma DeleteMinValid(t: Tree)
    requires Valid(t) && t.T?
    ensures CanDeleteMin(t) && LeansDown(t)
    ensures Valid(Blacken(DeleteMin(t))) && Keys(Blacken(DeleteMin(t))) == Keys(t) - {LeastKey(t)}
    ensures Valid(DeleteMin(t)) <==> t.left.Nil? || !ThinSpine(t)
  {
    var h :| HasHeight(t, h);
    DeleteMinRoot(t, h);
    DeleteMinKeys(t);
    var u := DeleteMin(t);
    if u.T? { Painted(u, false); }
    assert exists h' :: Sound(Blacken(u), h');
    if IsRed(u) { assert !Valid(u); }
  }

  lemma DeleteMinRoot(t: Tree, h: int)
    requires Sound(t, h) && t.T? && !t.red
    ensures CanDeleteMin(t) && LeansDown(t) && exists h' :: Sound(Blacken(DeleteMin(t)), h')
    ensures if t.left.Nil? || !ThinSpine(t) then !IsRed(DeleteMin(t)) else
      IsRed(DeleteMin(t))
      && IsRed(DeleteMin(t).left)
  {
    hide Sound, FixUp, Prepared, Size;
    Siblings(t, h);
    var b := Below(t, h);
    if t.left.Nil? {
      NilSound();
      assert Blacken(DeleteMin(t)) == Nil;
    } else {
      Parts(t, h);
      PreparedSize(t);
      if IsRed(t.left) || IsRed(t.left.left) {
        NoMove(t, h);
        DeleteMinBalances(t.left, b);
        NoMoveEnds(t, h, DeleteMin(t.left));
        assert DeleteMin(t) == t.(left := DeleteMin(t.left));
        assert Sound(Blacken(DeleteMin(t)), h);
      } else if IsRed(t.right.left) {
        MoveBorrows(t, h);
        DeleteMinBalances(Prepared(t).left, b);
        MoveBorrowsEnds(t, h, DeleteMin(Prepared(t).left));
        assert Sound(Blacken(DeleteMin(t)), h);
      } else {
        MoveFlips(t, h);
        ThinPainted(t.left);
        DeleteMinBalances(Prepared(t).left, b - 1);
        var l := DeleteMin(Prepared(t).left);
        MoveFlipsEnds(t, h, l);
        if IsRed(l) {
          assert Sound(Blacken(DeleteMin(t)), h);
        } else {
          Join(T(l, t.node, true, t.right.left), t.right.node, false, t.right.right, b - 1);
          assert Sound(Blacken(DeleteMin(t)), b);
        }
      }
    }
  }

  // ---- trees whose root has been left red ----

  lemma PreparedColour(t: Tree)
    requires t.T?
    ensures Prepared(t).T? && Prepared(Blacken(t)).T?
    ensures Prepared(t) == Prepared(Blacken(t)).(red := Prepared(t).red)
    ensures Prepared(t).red == (Prepared(Blacken(t)).red != t.red)
  {
  }

  lemma FixUpColour(t: Tree, red: bool)
    requires t.T?
    ensures FixUp(t).T? && FixUp(t.(red := red)).T? && Blacken(FixUp(t)) == Blacken(FixUp(t.(red := red)))
    ensures (FixUp(t).red == FixUp(t.(red := red)).red) <==> t.red == red
  {
  }

  lemma BlackenSize(t: Tree)
    requires t.T?
    ensures Size(Blacken(t)) == Size(t)
  {
  }

  // delete_min_h does the same to a tree whatever colour its root has, and a red root comes out in the other colour.
  lemma DeleteMinColour(t: Tree)
    requires t.T? && CanDeleteMin(Blacken(t)) && LeansDown(Blacken(t))
    ensures CanDeleteMin(t) && LeansDown(t) && Blacken(DeleteMin(t)) == Blacken(DeleteMin(Blacken(t)))
    ensures t.left.T? ==> (IsRed(DeleteMin(t)) <==> IsRed(DeleteMin(Blacken(t))) != t.red)
  {
    hide Prepared, FixUp, Size;
    PreparedColour(t);
    BlackenSize(t);
    if t.left.T? {
      var l := DeleteMin(Prepared(Blacken(t)).left);
      FixUpColour(WithLeft(Prepared(Blacken(t)), l), Prepared(t).red);
    }
  }

  // rb_delete_min on any tree that has the invariant but for the colour of its root.
  lemma DeleteMinRestores(t: Tree)
    requires Valid(Blacken(t)) && t.T?
    ensures CanDeleteMin(t) && LeansDown(t)
    ensures Valid(Blacken(DeleteMin(t))) && Keys(Blacken(DeleteMin(t))) == Keys(t) - {LeastKey(t)}
    ensures Valid(DeleteMin(t)) <==> t.left.Nil? || (t.red <==> ThinSpine(t))
  {
    hide Valid, DeleteMin, CanDeleteMin;
    DeleteMinValid(Blacken(t));
    DeleteMinColour(t);
    assert Keys(Blacken(t)) == Keys(t) && LeastKey(Blacken(t)) == LeastKey(t) && ThinSpine(Blacken(t)) == ThinSpine(t);
    BlackRoot(DeleteMin(t));
    BlackRoot(DeleteMin(Blacken(t)));
    if t.left.Nil? { NilDeletes(t); NilDeletes(Blacken(t)); }
  }

  lemma NilDeletes(t: Tree)
    requires CanDeleteMin(t) && t.left.Nil?
    ensures DeleteMin(t) == Nil
  {
  }

  // Apart from its colour, the root is not concerned.
  lemma BlackRoot(t: Tree)
    requires Valid(Blacken(t))
    ensures Valid(t) <==> !IsRed(t)
  {
    if !IsRed(t) { assert Blacken(t) == t; }
  }

  lemma NilSound()
    ensures Sound(Nil, 1)
  {
  }

  // ---- the executable check ----

  // assert_h: 0 for a violation, otherwise the black height.  Keys are compared with those of the children only.
  function AssertH(t: Tree): nat {
    if t.Nil? then 1
    else if t.red && (IsRed(t.left) || IsRed(t.right)) then 0
    else
      var lbh, rbh := AssertH(t.left), AssertH(t.right);
      if (t.left.T? && t.left.node.data >= t.node.data) || (t.right.T? && t.right.node.data <= t.node.data) then 0
      else if lbh == 0 || rbh == 0 || lbh != rbh then 0
      else (if t.red then 0 else 1) + lbh
  }

  // What satisfies the invariant passes the check.
  lemma {:induction false} SoundPasses(t: Tree, h: int)
    requires Sound(t, h) && Searchable(t)
    ensures AssertH(t) == h > 0
  {
    if t.T? {
      Parts(t, h);
      SoundPasses(t.left, Below(t, h));
      SoundPasses(t.right, Below(t, h));
      assert t.left.T? ==> t.left.node.data in Keys(t.left);
      assert t.right.T? ==> t.right.node.data in Keys(t.right);
    }
  }

  // So the check tells exactly when rb_delete_min has left a tree without the invariant.
  lemma DeleteMinChecked(t: Tree)
    requires Valid(t) && t.T?
    ensures CanDeleteMin(t)
    ensures AssertH(DeleteMin(t)) > 0 <==> Valid(DeleteMin(t))
  {
    var h :| HasHeight(t, h);
    DeleteMinValid(t);
    DeleteMinRoot(t, h);
    var u := DeleteMin(t);
    if Valid(u) {
      var h' :| HasHeight(u, h');
      SoundPasses(u, h');
    }
  }

  // Three black nodes are enough for that.
  lemma DeleteMinCanFail(a: RbNode, b: RbNode, c: RbNode)
    requires a.data < b.data < c.data
    ensures var t := T(T(Nil, a, false, Nil), b, false, T(Nil, c, false, Nil));
      Valid(t) && CanDeleteMin(t) && AssertH(DeleteMin(t)) == 0
  {
    var l, r := T(Nil, a, false, Nil), T(Nil, c, false, Nil);
    var t := T(l, b, false, r);
    Join(Nil, a, false, Nil, 1);
    Join(Nil, c, false, Nil, 1);
    Join(l, b, false, r, 2);
    assert HasHeight(t, 3);
    assert Keys(l) == {a.data} && Keys(r) == {c.data};
    DeleteMinChecked(t);
    DeleteMinValid(t);
    assert ThinSpine(l);
    assert ThinSpine(t);
  }
}

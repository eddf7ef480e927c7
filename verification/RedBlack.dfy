/**
 Red-black insertion of src/base/data/nv_rb_tree.c: nodes with parent pointers,
 rewritten in place, bottom up.

 A ghost `Tree` mirrors the pointer structure node by node, and a ghost context
 (`Ctx`) is the path from a node up to the root. `Snap` reads the nodes' fields
 into a map, so all reasoning about shapes is about values; the methods only have
 to show which map entries their stores change.
 */
module RedBlack {
  import opened Powers

  datatype Color = Red | Black

  class Node {
    var data: int
    var color: Color
    var left: Node?
    var right: Node?
    var parent: Node?

    /** nv_rb_newNode */
    constructor (data: int)
      ensures this.data == data && color == Red && left == null && right == null && parent == null
    {
      this.data := data;
      color := Red;
      left, right, parent := null, null, null;
    }

    // One store each, seen as one entry of the snapshot.

    method SetLeft(v: Node?, ghost s: set<Node>)
      requires this in s
      modifies this
      ensures Snap(s) == old(Snap(s))[this := old(CellOf(this)).(left := v)]
    {
      left := v;
    }

    method SetRight(v: Node?, ghost s: set<Node>)
      requires this in s
      modifies this
      ensures Snap(s) == old(Snap(s))[this := old(CellOf(this)).(right := v)]
    {
      right := v;
    }

    method SetParent(v: Node?, ghost s: set<Node>)
      requires this in s
      modifies this
      ensures Snap(s) == old(Snap(s))[this := old(CellOf(this)).(parent := v)]
    {
      parent := v;
    }

    method SetColor(v: Color, ghost s: set<Node>)
      requires this in s
      modifies this
      ensures Snap(s) == old(Snap(s))[this := old(CellOf(this)).(color := v)]
    {
      color := v;
    }
  }

  datatype Cell = Cell(data: int, color: Color, left: Node?, right: Node?, parent: Node?)

  type Mem = map<Node, Cell>

  ghost function CellOf(n: Node): Cell
    reads n
  {
    Cell(n.data, n.color, n.left, n.right, n.parent)
  }

  ghost function Snap(s: set<Node>): Mem
    reads s
  {
    map n | n in s :: CellOf(n)
  }

  // ----- trees and contexts -----

  datatype Tree = Leaf | Tree(node: Node, data: int, color: Color, l: Tree, r: Tree)

  /** A tree with a hole, from the hole upwards. */
  datatype Ctx =
    | Top
    | InLeft(up: Ctx, node: Node, data: int, color: Color, sib: Tree)
    | InRight(up: Ctx, node: Node, data: int, color: Color, sib: Tree)

  ghost function Ptr(t: Tree): Node? {
    if t.Leaf? then null else t.node
  }

  ghost function CtxPtr(c: Ctx): Node? {
    if c.Top? then null else c.node
  }

  /** Close the innermost frame around t, with a given colour. */
  ghost function Join(c: Ctx, color: Color, t: Tree): Tree
    requires !c.Top?
  {
    if c.InLeft? then Tree(c.node, c.data, color, t, c.sib) else Tree(c.node, c.data, color, c.sib, t)
  }

  ghost function Plug(c: Ctx, t: Tree): Tree
    decreases c
  {
    if c.Top? then t else Plug(c.up, Join(c, c.color, t))
  }

  ghost function Nodes(t: Tree): set<Node> {
    if t.Leaf? then {} else {t.node} + Nodes(t.l) + Nodes(t.r)
  }

  ghost function CtxNodes(c: Ctx): set<Node> {
    if c.Top? then {} else {c.node} + Nodes(c.sib) + CtxNodes(c.up)
  }

  ghost predicate Distinct(t: Tree) {
    t.Tree? ==> t.node !in Nodes(t.l) && t.node !in Nodes(t.r) && Nodes(t.l) !! Nodes(t.r) && Distinct(t.l) && Distinct(t.r)
  }

  ghost predicate CtxDistinct(c: Ctx) {
    !c.Top? ==> && c.node !in Nodes(c.sib) && c.node !in CtxNodes(c.up) && Nodes(c.sib) !! CtxNodes(c.up)
                && Distinct(c.sib) && CtxDistinct(c.up)
  }

  /** The memory holds t, hanging under parent p. */
  ghost predicate Rep(m: Mem, t: Tree, p: Node?) {
    t.Tree? ==>
      && t.node in m && m[t.node] == Cell(t.data, t.color, Ptr(t.l), Ptr(t.r), p)
      && Rep(m, t.l, t.node) && Rep(m, t.r, t.node)
  }

  /** The memory holds c, with child in the hole. */
  ghost predicate CtxRep(m: Mem, c: Ctx, child: Node?) {
    match c
    case Top => true
    case InLeft(up, n, d, col, sib) =>
      n in m && m[n] == Cell(d, col, child, Ptr(sib), CtxPtr(up)) && Rep(m, sib, n) && CtxRep(m, up, n)
    case InRight(up, n, d, col, sib) =>
      n in m && m[n] == Cell(d, col, Ptr(sib), child, CtxPtr(up)) && Rep(m, sib, n) && CtxRep(m, up, n)
  }

  /** The memory, entered at root, holds c with t in its hole; no node occurs twice. */
  ghost predicate Zip(m: Mem, root: Node?, c: Ctx, t: Tree) {
    && Rep(m, t, CtxPtr(c)) && CtxRep(m, c, Ptr(t))
    && Distinct(t) && CtxDistinct(c) && Nodes(t) !! CtxNodes(c)
    && root == RootPtr(c, t)
  }

  ghost function RootPtr(c: Ctx, t: Tree): Node? {
    if c.Top? then Ptr(t) else CtxRoot(c)
  }

  ghost function CtxRoot(c: Ctx): Node
    requires !c.Top?
  {
    if c.up.Top? then c.node else CtxRoot(c.up)
  }

  // ----- framing -----

  lemma {:induction false} RepFrame(m: Mem, m': Mem, t: Tree, p: Node?)
    requires Rep(m, t, p)
    requires forall n :: n in Nodes(t) && n in m ==> n in m' && m'[n] == m[n]
    ensures Rep(m', t, p)
  {
    if t.Tree? {
      RepFrame(m, m', t.l, t.node);
      RepFrame(m, m', t.r, t.node);
    }
  }

  lemma {:induction false} CtxFrame(m: Mem, m': Mem, c: Ctx, child: Node?)
    requires CtxRep(m, c, child)
    requires forall n :: n in CtxNodes(c) && n in m ==> n in m' && m'[n] == m[n]
    ensures CtxRep(m', c, child)
  {
    if !c.Top? {
      RepFrame(m, m', c.sib, c.node);
      CtxFrame(m, m', c.up, c.node);
    }
  }

  lemma {:induction false} RepNodes(m: Mem, t: Tree, p: Node?)
    requires Rep(m, t, p)
    ensures Nodes(t) <= m.Keys
  {
    if t.Tree? {
      RepNodes(m, t.l, t.node);
      RepNodes(m, t.r, t.node);
    }
  }

  /** The parent's child link, as an entry of the memory. */
  ghost function Relink(m: Mem, c: Ctx, child: Node?): Mem {
    if c.Top? || c.node !in m then m
    else if c.InLeft? then m[c.node := m[c.node].(left := child)]
    else m[c.node := m[c.node].(right := child)]
  }

  lemma CtxRelink(m: Mem, c: Ctx, child: Node?, child': Node?)
    requires CtxRep(m, c, child) && CtxDistinct(c)
    ensures CtxRep(Relink(m, c, child'), c, child')
  {
    if !c.Top? {
      var m' := Relink(m, c, child');
      RepFrame(m, m', c.sib, c.node);
      CtxFrame(m, m', c.up, c.node);
    }
  }

  /** Moving the focus to the parent and back. */
  lemma ZipUp(m: Mem, root: Node?, c: Ctx, t: Tree)
    requires !c.Top? && t.Tree?
    ensures Zip(m, root, c, t) <==> Zip(m, root, c.up, Join(c, c.color, t))
  {
  }

  /** Recolouring the focus. */
  lemma ZipColor(m: Mem, root: Node?, c: Ctx, t: Tree, color: Color)
    requires Zip(m, root, c, t) && t.Tree?
    ensures Zip(m[t.node := m[t.node].(color := color)], root, c, t.(color := color))
  {
    var m' := m[t.node := m[t.node].(color := color)];
    RepFrame(m, m', t.l, t.node);
    RepFrame(m, m', t.r, t.node);
    CtxFrame(m, m', c, t.node);
  }

  // ----- rotations -----

  ghost predicate CanRotL(t: Tree) { t.Tree? && t.r.Tree? }
  ghost predicate CanRotR(t: Tree) { t.Tree? && t.l.Tree? }

  ghost function RotL(t: Tree): Tree
    requires CanRotL(t)
  {
    t.r.(l := t.(r := t.r.l))
  }

  ghost function RotR(t: Tree): Tree
    requires CanRotR(t)
  {
    t.l.(r := t.(l := t.l.r))
  }

  ghost function SetParent(m: Mem, n: Node?, p: Node?): Mem {
    if n != null && n in m then m[n := m[n].(parent := p)] else m
  }

  /** The stores of a left rotation at the root of t, in any order. */
  ghost function LeftMem(m: Mem, c: Ctx, t: Tree): Mem
    requires CanRotL(t)
  {
    var m1 := m[t.node := Cell(t.data, t.color, Ptr(t.l), Ptr(t.r.l), t.r.node)];
    var m2 := SetParent(m1, Ptr(t.r.l), t.node);
    var m3 := m2[t.r.node := Cell(t.r.data, t.r.color, t.node, Ptr(t.r.r), CtxPtr(c))];
    Relink(m3, c, t.r.node)
  }

  ghost function RightMem(m: Mem, c: Ctx, t: Tree): Mem
    requires CanRotR(t)
  {
    var m1 := m[t.node := Cell(t.data, t.color, Ptr(t.l.r), Ptr(t.r), t.l.node)];
    var m2 := SetParent(m1, Ptr(t.l.r), t.node);
    var m3 := m2[t.l.node := Cell(t.l.data, t.l.color, Ptr(t.l.l), t.node, CtxPtr(c))];
    Relink(m3, c, t.l.node)
  }

  ghost function NewRoot(root: Node?, c: Ctx, t: Tree): Node? {
    if c.Top? then Ptr(t) else root
  }

  /** A subtree whose root changes parent. */
  lemma Reparent(m: Mem, m': Mem, t: Tree, p: Node?, p': Node?)
    requires Rep(m, t, p) && Distinct(t)
    requires forall n :: n in Nodes(t) && n in m ==> n in m' && m'[n] == if n == Ptr(t) then m[n].(parent := p') else m[n]
    ensures Rep(m', t, p')
  {
    if t.Tree? {
      RepFrame(m, m', t.l, t.node);
      RepFrame(m, m', t.r, t.node);
    }
  }

  /** Two levels of a tree, spelled out. */
  lemma OpenRight(m: Mem, root: Node?, c: Ctx, t: Tree)
    requires Zip(m, root, c, t) && CanRotL(t)
    ensures t.node in m && t.r.node in m && Nodes(t) <= m.Keys
    ensures Rep(m, t.l, t.node) && Rep(m, t.r.l, t.r.node) && Rep(m, t.r.r, t.r.node)
    ensures m[t.node] == Cell(t.data, t.color, Ptr(t.l), Ptr(t.r), CtxPtr(c))
    ensures m[t.r.node] == Cell(t.r.data, t.r.color, Ptr(t.r.l), Ptr(t.r.r), t.node)
    ensures {t.node} !! {t.r.node} !! Nodes(t.l) !! Nodes(t.r.l) !! Nodes(t.r.r) !! CtxNodes(c)
    ensures Distinct(t.l) && Distinct(t.r.l) && Distinct(t.r.r)
    ensures Nodes(t) == {t.node} + {t.r.node} + Nodes(t.l) + Nodes(t.r.l) + Nodes(t.r.r)
  {
    RepNodes(m, t, CtxPtr(c));
    assert Rep(m, t.r, t.node) && Distinct(t.r);
    assert Nodes(t.r) == {t.r.node} + Nodes(t.r.l) + Nodes(t.r.r);
  }

  lemma OpenLeft(m: Mem, root: Node?, c: Ctx, t: Tree)
    requires Zip(m, root, c, t) && CanRotR(t)
    ensures t.node in m && t.l.node in m && Nodes(t) <= m.Keys
    ensures Rep(m, t.r, t.node) && Rep(m, t.l.l, t.l.node) && Rep(m, t.l.r, t.l.node)
    ensures m[t.node] == Cell(t.data, t.color, Ptr(t.l), Ptr(t.r), CtxPtr(c))
    ensures m[t.l.node] == Cell(t.l.data, t.l.color, Ptr(t.l.l), Ptr(t.l.r), t.node)
    ensures {t.node} !! {t.l.node} !! Nodes(t.r) !! Nodes(t.l.l) !! Nodes(t.l.r) !! CtxNodes(c)
    ensures Distinct(t.r) && Distinct(t.l.l) && Distinct(t.l.r)
    ensures Nodes(t) == {t.node} + {t.l.node} + Nodes(t.r) + Nodes(t.l.l) + Nodes(t.l.r)
  {
    RepNodes(m, t, CtxPtr(c));
    assert Rep(m, t.l, t.node) && Distinct(t.l);
    assert Nodes(t.l) == {t.l.node} + Nodes(t.l.l) + Nodes(t.l.r);
  }

  lemma LeftRep(m: Mem, root: Node?, c: Ctx, t: Tree)
    requires Zip(m, root, c, t) && CanRotL(t)
    ensures Rep(LeftMem(m, c, t), RotL(t), CtxPtr(c))
  {
    var m' := LeftMem(m, c, t);
    OpenRight(m, root, c, t);
    assert CtxPtr(c) == null || CtxPtr(c) in CtxNodes(c);
    RepFrame(m, m', t.l, t.node);
    RepFrame(m, m', t.r.r, t.r.node);
    Reparent(m, m', t.r.l, t.r.node, t.node);
    assert Rep(m', RotL(t).l, t.r.node);
  }

  lemma LeftCtx(m: Mem, root: Node?, c: Ctx, t: Tree)
    requires Zip(m, root, c, t) && CanRotL(t)
    ensures CtxRep(LeftMem(m, c, t), c, t.r.node)
  {
    OpenRight(m, root, c, t);
    CtxRelink(m, c, t.node, t.r.node);
    CtxFrame(Relink(m, c, t.r.node), LeftMem(m, c, t), c, t.r.node);
  }

  lemma LeftZip(m: Mem, root: Node?, c: Ctx, t: Tree)
    requires Zip(m, root, c, t) && CanRotL(t)
    ensures Zip(LeftMem(m, c, t), NewRoot(root, c, t.r), c, RotL(t))
    ensures Nodes(RotL(t)) == Nodes(t)
  {
    LeftRep(m, root, c, t);
    LeftCtx(m, root, c, t);
    OpenRight(m, root, c, t);
    var t' := RotL(t);
    assert Nodes(t'.l) == {t.node} + Nodes(t.l) + Nodes(t.r.l);
    assert Distinct(t'.l);
  }

  lemma RightRep(m: Mem, root: Node?, c: Ctx, t: Tree)
    requires Zip(m, root, c, t) && CanRotR(t)
    ensures Rep(RightMem(m, c, t), RotR(t), CtxPtr(c))
  {
    var m' := RightMem(m, c, t);
    OpenLeft(m, root, c, t);
    assert CtxPtr(c) == null || CtxPtr(c) in CtxNodes(c);
    RepFrame(m, m', t.r, t.node);
    RepFrame(m, m', t.l.l, t.l.node);
    Reparent(m, m', t.l.r, t.l.node, t.node);
    assert Rep(m', RotR(t).r, t.l.node);
  }

  lemma RightCtx(m: Mem, root: Node?, c: Ctx, t: Tree)
    requires Zip(m, root, c, t) && CanRotR(t)
    ensures CtxRep(RightMem(m, c, t), c, t.l.node)
  {
    OpenLeft(m, root, c, t);
    CtxRelink(m, c, t.node, t.l.node);
    CtxFrame(Relink(m, c, t.l.node), RightMem(m, c, t), c, t.l.node);
  }

  lemma RightZip(m: Mem, root: Node?, c: Ctx, t: Tree)
    requires Zip(m, root, c, t) && CanRotR(t)
    ensures Zip(RightMem(m, c, t), NewRoot(root, c, t.l), c, RotR(t))
    ensures Nodes(RotR(t)) == Nodes(t)
  {
    RightRep(m, root, c, t);
    RightCtx(m, root, c, t);
    OpenLeft(m, root, c, t);
    var t' := RotR(t);
    assert Nodes(t'.r) == {t.node} + Nodes(t.r) + Nodes(t.l.r);
    assert Distinct(t'.r);
  }

  /** p's link to old is redirected to new. */
  ghost function Redirect(m: Mem, p: Node?, old_: Node, new_: Node): Mem {
    if p == null || p !in m then m
    else if m[p].left == old_ then m[p := m[p].(left := new_)]
    else m[p := m[p].(right := new_)]
  }

  /** The stores of a left rotation in program order. */
  ghost function LeftStores(m: Mem, pt: Node, y: Node): Mem
    requires pt in m && y in m
  {
    var m1 := m[pt := m[pt].(right := m[y].left)];
    var m2 := SetParent(m1, m[y].left, pt);
    var m3 := m2[y := m2[y].(parent := m2[pt].parent)];
    var m4 := Redirect(m3, m2[pt].parent, pt, y);
    var m5 := m4[y := m4[y].(left := pt)];
    m5[pt := m5[pt].(parent := y)]
  }

  ghost function RightStores(m: Mem, pt: Node, y: Node): Mem
    requires pt in m && y in m
  {
    var m1 := m[pt := m[pt].(left := m[y].right)];
    var m2 := SetParent(m1, m[y].right, pt);
    var m3 := m2[y := m2[y].(parent := m2[pt].parent)];
    var m4 := Redirect(m3, m2[pt].parent, pt, y);
    var m5 := m4[y := m4[y].(right := pt)];
    m5[pt := m5[pt].(parent := y)]
  }

  /** The four nodes a rotation touches are different nodes of s. */
  ghost predicate Apart(s: set<Node>, pt: Node, y: Node?, b: Node?, p: Node?) {
    && pt in s && y != null && y in s && pt != y
    && (b != null ==> b in s && b != pt && b != y && b != p)
    && (p != null ==> p in s && p != pt && p != y)
  }

  /** The child that changes sides gets a new parent, if there is one. */
  method Adopt(child: Node?, p: Node, ghost s: set<Node>)
    requires child != null ==> child in s
    modifies s
    ensures Snap(s) == SetParent(old(Snap(s)), child, p)
  {
    if child != null {
      child.SetParent(p, s);
    }
  }

  /** The rotated node's place under p, or at the root, is taken by y. */
  method Replace(root: Node, p: Node?, pt: Node, y: Node, ghost s: set<Node>) returns (r: Node)
    requires p != null ==> p in s
    modifies s
    ensures Snap(s) == Redirect(old(Snap(s)), p, pt, y)
    ensures r == if p == null then y else root
  {
    r := root;
    if p == null {
      r := y;
    } else if pt == p.left {
      p.SetLeft(y, s);
    } else {
      p.SetRight(y, s);
    }
  }

  method LeftStore(root: Node, pt: Node, ghost s: set<Node>) returns (r: Node)
    requires pt.right != null && Apart(s, pt, pt.right, pt.right.left, pt.parent)
    modifies s
    ensures Snap(s) == LeftStores(old(Snap(s)), pt, old(pt.right))
    ensures r == if old(pt.parent) == null then old(pt.right) else root
  {
    ghost var m := Snap(s);
    var y := pt.right;
    pt.SetRight(y.left, s);
    assert Snap(s)[pt] == CellOf(pt);
    Adopt(pt.right, pt, s);
    assert Snap(s)[pt] == CellOf(pt) && Snap(s)[y] == CellOf(y) && pt.parent == m[pt].parent;
    y.SetParent(pt.parent, s);
    assert Snap(s)[pt] == CellOf(pt);
    r := Replace(root, pt.parent, pt, y, s);
    assert Snap(s)[y] == CellOf(y);
    y.SetLeft(pt, s);
    assert Snap(s)[pt] == CellOf(pt);
    pt.SetParent(y, s);
  }

  method RightStore(root: Node, pt: Node, ghost s: set<Node>) returns (r: Node)
    requires pt.left != null && Apart(s, pt, pt.left, pt.left.right, pt.parent)
    modifies s
    ensures Snap(s) == RightStores(old(Snap(s)), pt, old(pt.left))
    ensures r == if old(pt.parent) == null then old(pt.left) else root
  {
    ghost var m := Snap(s);
    var y := pt.left;
    pt.SetLeft(y.right, s);
    assert Snap(s)[pt] == CellOf(pt);
    Adopt(pt.left, pt, s);
    assert Snap(s)[pt] == CellOf(pt) && Snap(s)[y] == CellOf(y) && pt.parent == m[pt].parent;
    y.SetParent(pt.parent, s);
    assert Snap(s)[pt] == CellOf(pt);
    r := Replace(root, pt.parent, pt, y, s);
    assert Snap(s)[y] == CellOf(y);
    y.SetRight(pt, s);
    assert Snap(s)[pt] == CellOf(pt);
    pt.SetParent(y, s);
  }

  lemma LeftStoresZip(m: Mem, root: Node?, c: Ctx, t: Tree)
    requires Zip(m, root, c, t) && CanRotL(t)
    ensures t.node in m && t.r.node in m
    ensures m[t.node].right == t.r.node && Apart(m.Keys, t.node, t.r.node, m[t.r.node].left, m[t.node].parent)
    ensures LeftStores(m, t.node, t.r.node) == LeftMem(m, c, t)
  {
    OpenRight(m, root, c, t);
    CtxParent(m, c, t.node);
    RepRoot(m, t.r.l, t.r.node);
  }

  lemma RightStoresZip(m: Mem, root: Node?, c: Ctx, t: Tree)
    requires Zip(m, root, c, t) && CanRotR(t)
    ensures t.node in m && t.l.node in m
    ensures m[t.node].left == t.l.node && Apart(m.Keys, t.node, t.l.node, m[t.l.node].right, m[t.node].parent)
    ensures RightStores(m, t.node, t.l.node) == RightMem(m, c, t)
  {
    OpenLeft(m, root, c, t);
    CtxParent(m, c, t.node);
    RepRoot(m, t.l.r, t.l.node);
  }

  lemma RepRoot(m: Mem, t: Tree, p: Node?)
    requires Rep(m, t, p)
    ensures Ptr(t) != null ==> Ptr(t) in m && Ptr(t) in Nodes(t)
  {
  }

  lemma CtxParent(m: Mem, c: Ctx, child: Node)
    requires CtxRep(m, c, child) && child !in CtxNodes(c) && CtxDistinct(c)
    ensures CtxPtr(c) != null ==> CtxPtr(c) in m && CtxPtr(c) in CtxNodes(c) && (m[CtxPtr(c)].left == child <==> c.InLeft?)
  {
    if c.InRight? {
      RepRoot(m, c.sib, c.node);
    }
  }

  /** nv_rb_leftRotate */
  method LeftRotate(root: Node, pt: Node, ghost s: set<Node>, ghost c: Ctx, ghost t: Tree) returns (r: Node)
    requires Zip(Snap(s), root, c, t) && CanRotL(t) && t.node == pt
    modifies s
    ensures Zip(Snap(s), r, c, RotL(t))
  {
    ghost var m := Snap(s);
    LeftStoresZip(m, root, c, t);
    LeftZip(m, root, c, t);
    assert m[pt].right == pt.right && m[t.r.node].left == t.r.node.left;
    r := LeftStore(root, pt, s);
  }

  /** nv_rb_rightRotate */
  method RightRotate(root: Node, pt: Node, ghost s: set<Node>, ghost c: Ctx, ghost t: Tree) returns (r: Node)
    requires Zip(Snap(s), root, c, t) && CanRotR(t) && t.node == pt
    modifies s
    ensures Zip(Snap(s), r, c, RotR(t))
  {
    ghost var m := Snap(s);
    RightStoresZip(m, root, c, t);
    RightZip(m, root, c, t);
    assert m[pt].left == pt.left && m[t.l.node].right == t.l.node.right;
    r := RightStore(root, pt, s);
  }

  // ----- the red-black rules -----

  predicate IsRed(t: Tree) { t.Tree? && t.color.Red? }

  function Weight(color: Color): nat { if color.Black? then 1 else 0 }

  /** Every path from t down crosses h black nodes. */
  ghost predicate Bal(t: Tree, h: int) {
    if t.Leaf? then h == 0 else Bal(t.l, h - Weight(t.color)) && Bal(t.r, h - Weight(t.color))
  }

  /** No red node has a red child. */
  ghost predicate NoRedRed(t: Tree) {
    t.Tree? ==> (t.color.Red? ==> !IsRed(t.l) && !IsRed(t.r)) && NoRedRed(t.l) && NoRedRed(t.r)
  }

  /** A hole of black height h keeps the whole balanced. */
  ghost predicate CtxBal(c: Ctx, h: int) {
    !c.Top? ==> Bal(c.sib, h) && CtxBal(c.up, h + Weight(c.color))
  }

  /** The rules hold around the hole, and the root is black. */
  ghost predicate CtxNoRedRed(c: Ctx) {
    !c.Top? ==>
      && (c.color.Red? ==> !IsRed(c.sib) && !c.up.Top? && c.up.color.Black?)
      && NoRedRed(c.sib) && CtxNoRedRed(c.up)
  }

  /** All rules hold except, possibly, that t and its parent are both red, or that t is a red root. */
  ghost predicate Fixing(c: Ctx, t: Tree, h: int) {
    t.Tree? && NoRedRed(t) && Bal(t, h) && CtxNoRedRed(c) && CtxBal(c, h)
  }

  ghost function InOrder(t: Tree): seq<int> {
    if t.Leaf? then [] else InOrder(t.l) + [t.data] + InOrder(t.r)
  }

  ghost function Before(c: Ctx): seq<int> {
    match c
    case Top => []
    case InLeft(up, _, _, _, _) => Before(up)
    case InRight(up, _, d, _, sib) => Before(up) + InOrder(sib) + [d]
  }

  ghost function Behind(c: Ctx): seq<int> {
    match c
    case Top => []
    case InLeft(up, _, d, _, sib) => [d] + InOrder(sib) + Behind(up)
    case InRight(up, _, _, _, _) => Behind(up)
  }

  lemma {:induction false} PlugInOrder(c: Ctx, t: Tree)
    ensures InOrder(Plug(c, t)) == Before(c) + InOrder(t) + Behind(c)
    decreases c
  {
    if !c.Top? {
      PlugInOrder(c.up, Join(c, c.color, t));
    }
  }

  /** What one turn of the insertFix loop makes of the grandparent's subtree. */
  ghost function FixTree(c: Ctx, t: Tree): (r: Tree)
    requires !c.Top? && !c.up.Top? && t.Tree?
    ensures r.Tree?
  {
    var g := c.up;
    if IsRed(g.sib) then
      Join(g.(sib := g.sib.(color := Black)), Red, Join(c, Black, t))
    else
      Raise(g, Straight(c, t))
  }

  /** The parent's subtree once the focus hangs on the outer side. */
  ghost function Straight(c: Ctx, t: Tree): (r: Tree)
    requires !c.Top? && !c.up.Top? && t.Tree?
    ensures r.Tree?
  {
    var j := Join(c, c.color, t);
    if c.up.InLeft? && c.InRight? then RotL(j) else if c.up.InRight? && c.InLeft? then RotR(j) else j
  }

  /** The parent rises over the grandparent and the two exchange colours. */
  ghost function Raise(g: Ctx, inner: Tree): (r: Tree)
    requires !g.Top? && inner.Tree?
    ensures r.Tree? && r.node == inner.node
  {
    var j := Join(g, g.color, inner);
    if g.InLeft? then var o := RotR(j); o.(color := g.color, r := o.r.(color := inner.color))
    else var o := RotL(j); o.(color := g.color, l := o.l.(color := inner.color))
  }

  lemma RotationsKeepOrder(t: Tree)
    ensures CanRotL(t) ==> InOrder(RotL(t)) == InOrder(t)
    ensures CanRotR(t) ==> InOrder(RotR(t)) == InOrder(t)
  {
    if CanRotL(t) {
      assert InOrder(RotL(t)) == (InOrder(t.l) + [t.data] + InOrder(t.r.l)) + [t.r.data] + InOrder(t.r.r);
    }
    if CanRotR(t) {
      assert InOrder(RotR(t)) == InOrder(t.l.l) + [t.l.data] + (InOrder(t.l.r) + [t.data] + InOrder(t.r));
    }
  }

  lemma JoinOrder(c: Ctx, color: Color, color': Color, t: Tree, t': Tree)
    requires !c.Top? && InOrder(t) == InOrder(t')
    ensures InOrder(Join(c, color, t)) == InOrder(Join(c, color', t'))
  {
  }

  /** One turn keeps the keys in order. */
  lemma FixKeepsOrder(c: Ctx, t: Tree)
    requires !c.Top? && !c.up.Top? && t.Tree?
    ensures InOrder(FixTree(c, t)) == InOrder(Join(c.up, c.up.color, Join(c, c.color, t)))
  {
    var g, j := c.up, Join(c, c.color, t);
    if IsRed(g.sib) {
      JoinOrder(c, c.color, Black, t, t);
      JoinOrder(g, g.color, Red, j, Join(c, Black, t));
    } else {
      RotationsKeepOrder(j);
      var inner := Straight(c, t);
      JoinOrder(g, g.color, g.color, j, inner);
      RotationsKeepOrder(Join(g, g.color, inner));
    }
  }

  lemma FixKeepsRules(c: Ctx, t: Tree, h: int)
    requires Fixing(c, t, h) && !c.Top? && IsRed(t) && c.color.Red?
    ensures !c.up.Top? && Fixing(c.up.up, FixTree(c, t), h + 1)
    ensures !IsRed(c.up.sib) ==> FixTree(c, t).color.Black?
  {
    var g := c.up;
    assert CtxNoRedRed(g) && CtxBal(g, h);
    assert Bal(t.l, h) && Bal(t.r, h) && NoRedRed(t.l) && NoRedRed(t.r);
  }

  // ----- insertFix -----

  /** What the links of the focus and its parent say about the context. */
  lemma Look(m: Mem, root: Node?, c: Ctx, t: Tree)
    requires Zip(m, root, c, t) && t.Tree?
    ensures t.node in m && m[t.node].color == t.color && m[t.node].parent == CtxPtr(c)
    ensures !c.Top? ==>
              && c.node in m && c.node != t.node && m[c.node].color == c.color && m[c.node].parent == CtxPtr(c.up)
              && (m[c.node].left == t.node <==> c.InLeft?) && (m[c.node].right == t.node <==> c.InRight?)
              && (c.InLeft? ==> m[c.node].right == Ptr(c.sib)) && (c.InRight? ==> m[c.node].left == Ptr(c.sib))
              && (c.sib.Tree? ==> c.sib.node in m && m[c.sib.node].color == c.sib.color)
    ensures root == t.node <==> c.Top?
  {
    if !c.Top? {
      RepRoot(m, c.sib, c.node);
      CtxRootNode(c);
    }
  }

  lemma {:induction false} CtxRootNode(c: Ctx)
    requires !c.Top?
    ensures CtxRoot(c) in CtxNodes(c)
  {
    if !c.up.Top? { CtxRootNode(c.up); }
  }

  ghost function Paint(m: Mem, n: Node, color: Color): Mem {
    if n in m then m[n := m[n].(color := color)] else m
  }

  lemma PaintZip(m: Mem, root: Node?, c: Ctx, t: Tree, color: Color)
    requires Zip(m, root, c, t) && t.Tree?
    ensures Zip(Paint(m, t.node, color), root, c, t.(color := color))
  {
    ZipColor(m, root, c, t, color);
  }

  /** Painting a child of the focus. */
  lemma PaintRight(m: Mem, root: Node?, c: Ctx, t: Tree, color: Color)
    requires Zip(m, root, c, t) && t.Tree? && t.r.Tree?
    ensures Zip(Paint(m, t.r.node, color), root, c, t.(r := t.r.(color := color)))
  {
    var c' := InRight(c, t.node, t.data, t.color, t.l);
    ZipUp(m, root, c', t.r);
    PaintZip(m, root, c', t.r, color);
    ZipUp(Paint(m, t.r.node, color), root, c', t.r.(color := color));
  }

  lemma PaintLeft(m: Mem, root: Node?, c: Ctx, t: Tree, color: Color)
    requires Zip(m, root, c, t) && t.Tree? && t.l.Tree?
    ensures Zip(Paint(m, t.l.node, color), root, c, t.(l := t.l.(color := color)))
  {
    var c' := InLeft(c, t.node, t.data, t.color, t.r);
    ZipUp(m, root, c', t.l);
    PaintZip(m, root, c', t.l, color);
    ZipUp(Paint(m, t.l.node, color), root, c', t.l.(color := color));
  }

  /** Case 1: the uncle is red. */
  lemma RecolorZip(m: Mem, root: Node?, c: Ctx, t: Tree)
    requires Zip(m, root, c, t) && t.Tree? && !c.Top? && !c.up.Top? && IsRed(c.up.sib)
    ensures Zip(Paint(Paint(Paint(m, c.up.node, Red), c.node, Black), c.up.sib.node, Black), root, c.up.up, FixTree(c, t))
  {
    var g, j := c.up, Join(c, c.color, t);
    ZipUp(m, root, c, t);
    ZipUp(m, root, g, j);
    var o := Join(g, g.color, j);
    PaintZip(m, root, g.up, o, Red);
    var m1 := Paint(m, g.node, Red);
    if g.InLeft? {
      PaintLeft(m1, root, g.up, o.(color := Red), Black);
      PaintRight(Paint(m1, c.node, Black), root, g.up, Join(g, Red, j.(color := Black)), Black);
    } else {
      PaintRight(m1, root, g.up, o.(color := Red), Black);
      PaintLeft(Paint(m1, c.node, Black), root, g.up, Join(g, Red, j.(color := Black)), Black);
    }
  }

  method Recolor(pp: Node, gp: Node, u: Node, ghost s: set<Node>)
    requires pp in s && gp in s && u in s
    modifies s
    ensures Snap(s) == Paint(Paint(Paint(old(Snap(s)), gp, Red), pp, Black), u, Black)
  {
    gp.SetColor(Red, s);
    assert Snap(s)[pp] == CellOf(pp);
    pp.SetColor(Black, s);
    assert Snap(s)[u] == CellOf(u);
    u.SetColor(Black, s);
  }

  /** The colours of parent and grandparent change places. */
  method SwapColors(pp: Node, gp: Node, ghost s: set<Node>)
    requires pp in s && gp in s && pp != gp
    modifies s
    ensures Snap(s) == Paint(Paint(old(Snap(s)), pp, old(gp.color)), gp, old(pp.color))
  {
    var t := pp.color;
    pp.SetColor(gp.color, s);
    assert Snap(s)[gp] == CellOf(gp);
    gp.SetColor(t, s);
  }

  lemma OpenRightChild(m: Mem, root: Node?, c: Ctx, t: Tree)
    requires Zip(m, root, c, t) && CanRotL(t)
    ensures t.node in m && t.r.node in m && t.node != t.r.node
    ensures m[t.node].color == t.color && m[t.r.node].color == t.r.color
  {
    OpenRight(m, root, c, t);
  }

  lemma OpenLeftChild(m: Mem, root: Node?, c: Ctx, t: Tree)
    requires Zip(m, root, c, t) && CanRotR(t)
    ensures t.node in m && t.l.node in m && t.node != t.l.node
    ensures m[t.node].color == t.color && m[t.l.node].color == t.l.color
  {
    OpenLeft(m, root, c, t);
  }

  /** Case A.2, first half: an inner focus is rotated outwards. */
  method StraightenLeft(root: Node, pt: Node, pp: Node, ghost s: set<Node>, ghost c: Ctx, ghost t: Tree)
    returns (r: Node, p: Node)
    requires Zip(Snap(s), root, c, t) && t.Tree? && t.node == pt
    requires !c.Top? && c.up.InLeft? && c.node == pp
    modifies s
    ensures Zip(Snap(s), r, c.up, Straight(c, t)) && p == Straight(c, t).node
  {
    ghost var j := Join(c, c.color, t);
    Look(Snap(s), root, c, t);
    ZipUp(Snap(s), root, c, t);
    assert Snap(s)[pp] == CellOf(pp);
    r, p := root, pp;
    if pt == pp.right {
      r := LeftRotate(root, pp, s, c.up, j);
      ghost var inner := Straight(c, t);
      ghost var c' := InLeft(c.up, pt, t.data, t.color, inner.r);
      ZipUp(Snap(s), r, c', inner.l);
      Look(Snap(s), r, c', inner.l);
      assert Snap(s)[pp] == CellOf(pp);
      p := pp.parent;
    }
  }

  /** Case A.2, second half. */
  method RaiseLeft(root: Node, p: Node, gp: Node, ghost s: set<Node>, ghost g: Ctx, ghost inner: Tree) returns (r: Node)
    requires Zip(Snap(s), root, g, inner) && inner.Tree? && inner.node == p && g.InLeft? && g.node == gp
    modifies s
    ensures Zip(Snap(s), r, g.up, Raise(g, inner))
  {
    ghost var j := Join(g, g.color, inner);
    ZipUp(Snap(s), root, g, inner);
    r := RightRotate(root, gp, s, g.up, j);
    ghost var o := RotR(j);
    OpenRightChild(Snap(s), r, g.up, o);
    assert Snap(s)[p] == CellOf(p) && Snap(s)[gp] == CellOf(gp);
    PaintZip(Snap(s), r, g.up, o, g.color);
    PaintRight(Paint(Snap(s), p, g.color), r, g.up, o.(color := g.color), inner.color);
    SwapColors(p, gp, s);
  }

  /** Case B.2, first half: an inner focus is rotated outwards. */
  method StraightenRight(root: Node, pt: Node, pp: Node, ghost s: set<Node>, ghost c: Ctx, ghost t: Tree)
    returns (r: Node, p: Node)
    requires Zip(Snap(s), root, c, t) && t.Tree? && t.node == pt
    requires !c.Top? && c.up.InRight? && c.node == pp
    modifies s
    ensures Zip(Snap(s), r, c.up, Straight(c, t)) && p == Straight(c, t).node
  {
    ghost var j := Join(c, c.color, t);
    Look(Snap(s), root, c, t);
    ZipUp(Snap(s), root, c, t);
    assert Snap(s)[pp] == CellOf(pp);
    r, p := root, pp;
    if pt == pp.left {
      r := RightRotate(root, pp, s, c.up, j);
      ghost var inner := Straight(c, t);
      ghost var c' := InRight(c.up, pt, t.data, t.color, inner.l);
      ZipUp(Snap(s), r, c', inner.r);
      Look(Snap(s), r, c', inner.r);
      assert Snap(s)[pp] == CellOf(pp);
      p := pp.parent;
    }
  }

  /** Case B.2, second half. */
  method RaiseRight(root: Node, p: Node, gp: Node, ghost s: set<Node>, ghost g: Ctx, ghost inner: Tree) returns (r: Node)
    requires Zip(Snap(s), root, g, inner) && inner.Tree? && inner.node == p && g.InRight? && g.node == gp
    modifies s
    ensures Zip(Snap(s), r, g.up, Raise(g, inner))
  {
    ghost var j := Join(g, g.color, inner);
    ZipUp(Snap(s), root, g, inner);
    r := LeftRotate(root, gp, s, g.up, j);
    ghost var o := RotL(j);
    OpenLeftChild(Snap(s), r, g.up, o);
    assert Snap(s)[p] == CellOf(p) && Snap(s)[gp] == CellOf(gp);
    PaintZip(Snap(s), r, g.up, o, g.color);
    PaintLeft(Paint(Snap(s), p, g.color), r, g.up, o.(color := g.color), inner.color);
    SwapColors(p, gp, s);
  }

  /** One turn of the insertFix loop. */
  method FixTurn(root: Node, pt: Node, pp: Node, gp: Node, ghost s: set<Node>, ghost c: Ctx, ghost t: Tree)
    returns (r: Node, pt': Node)
    requires Zip(Snap(s), root, c, t) && t.Tree? && t.node == pt
    requires !c.Top? && !c.up.Top? && c.node == pp && c.up.node == gp
    modifies s
    ensures Zip(Snap(s), r, c.up.up, FixTree(c, t)) && pt' == FixTree(c, t).node
  {
    ghost var m := Snap(s);
    Look(m, root, c, t);
    ZipUp(m, root, c, t);
    Look(m, root, c.up, Join(c, c.color, t));
    assert m[pp] == CellOf(pp) && m[gp] == CellOf(gp);
    assert c.up.sib.Tree? ==> m[c.up.sib.node] == CellOf(c.up.sib.node);
    var uncle := if pp == gp.left then gp.right else gp.left;
    if uncle != null && uncle.color == Red {
      RecolorZip(m, root, c, t);
      Recolor(pp, gp, uncle, s);
      return root, gp;
    }
    if pp == gp.left {
      r, pt' := StraightenLeft(root, pt, pp, s, c, t);
      r := RaiseLeft(r, pt', gp, s, c.up, Straight(c, t));
    } else {
      r, pt' := StraightenRight(root, pt, pp, s, c, t);
      r := RaiseRight(r, pt', gp, s, c.up, Straight(c, t));
    }
  }

  /** The focus, as the loop guard of insertFix reads it. */
  ghost predicate Focus(root: Node, pt: Node, s: set<Node>, c: Ctx, t: Tree)
    reads s
  {
    && Zip(Snap(s), root, c, t) && t.Tree? && t.node == pt && pt in s
    && (pt == root <==> c.Top?) && pt.color == t.color
    && (!c.Top? ==> pt.parent == c.node && c.node in s && c.node.color == c.color && c.node.parent == CtxPtr(c.up))
  }

  lemma ZipFocus(root: Node, pt: Node, s: set<Node>, c: Ctx, t: Tree)
    requires Zip(Snap(s), root, c, t) && t.Tree? && t.node == pt
    ensures Focus(root, pt, s, c, t)
  {
    Look(Snap(s), root, c, t);
    assert Snap(s)[pt] == CellOf(pt);
    if !c.Top? { assert Snap(s)[c.node] == CellOf(c.node); }
  }

  lemma {:induction false} PlugZip(m: Mem, root: Node?, c: Ctx, t: Tree)
    requires Zip(m, root, c, t) && t.Tree?
    ensures Zip(m, root, Top, Plug(c, t)) && Plug(c, t).Tree?
    decreases c
  {
    if !c.Top? {
      ZipUp(m, root, c, t);
      PlugZip(m, root, c.up, Join(c, c.color, t));
    }
  }

  /** When the loop stops, only the colour of the root can still be wrong. */
  lemma {:induction false} PlugRules(c: Ctx, t: Tree, h: int) returns (h': int)
    requires Fixing(c, t, h) && (c.Top? || !IsRed(t) || c.color.Black?)
    ensures NoRedRed(Plug(c, t)) && Bal(Plug(c, t), h')
    decreases c
  {
    if c.Top? {
      h' := h;
    } else {
      h' := PlugRules(c.up, Join(c, c.color, t), h + Weight(c.color));
    }
  }

  /** Ordered, black root, no red node with a red child, equal black heights. */
  ghost predicate RedBlackTree(t: Tree, h: int) {
    Ascending(InOrder(t)) && !IsRed(t) && NoRedRed(t) && Bal(t, h)
  }

  ghost predicate Ascending(xs: seq<int>) {
    forall i, j :: 0 <= i < j < |xs| ==> xs[i] < xs[j]
  }

  /** One turn keeps the rules, up to the violation it moves, and the key sequence. */
  lemma TurnKeeps(c: Ctx, t: Tree, h: int)
    requires Fixing(c, t, h) && !c.Top? && IsRed(t) && c.color.Red?
    ensures !c.up.Top? && Fixing(c.up.up, FixTree(c, t), h + 1)
    ensures InOrder(Plug(c.up.up, FixTree(c, t))) == InOrder(Plug(c, t))
  {
    FixKeepsRules(c, t, h);
    FixKeepsOrder(c, t);
    var j := Join(c.up, c.up.color, Join(c, c.color, t));
    PlugInOrder(c.up.up, FixTree(c, t));
    PlugInOrder(c.up.up, j);
    assert Plug(c, t) == Plug(c.up, Join(c, c.color, t)) == Plug(c.up.up, j);
  }

  method BlackenRoot(root: Node, ghost s: set<Node>, ghost t: Tree, ghost h: int) returns (ghost t': Tree, ghost h': int)
    requires Zip(Snap(s), root, Top, t) && NoRedRed(t) && Bal(t, h)
    modifies s
    ensures Zip(Snap(s), root, Top, t') && !IsRed(t') && NoRedRed(t') && Bal(t', h') && InOrder(t') == InOrder(t)
  {
    PaintZip(Snap(s), root, Top, t, Black);
    assert Snap(s)[root] == CellOf(root);
    root.SetColor(Black, s);
    t', h' := t.(color := Black), h + Weight(Black) - Weight(t.color);
  }

  /** nv_rb_insertFix */
  method InsertFix(root: Node, node: Node, ghost s: set<Node>, ghost c0: Ctx, ghost t0: Tree, ghost h0: int)
    returns (r: Node, ghost t': Tree, ghost h': int)
    requires Zip(Snap(s), root, c0, t0) && t0.Tree? && t0.node == node && Fixing(c0, t0, h0)
    modifies s
    ensures Zip(Snap(s), r, Top, t')
    ensures !IsRed(t') && NoRedRed(t') && Bal(t', h')
    ensures InOrder(t') == InOrder(Plug(c0, t0))
  {
    r := root;
    var pt := node;
    ghost var c, t, h := c0, t0, h0;
    ZipFocus(r, pt, s, c, t);
    while pt != r && pt.color != Black && pt.parent.color == Red
      invariant Focus(r, pt, s, c, t) && Fixing(c, t, h)
      invariant InOrder(Plug(c, t)) == InOrder(Plug(c0, t0))
      decreases c
    {
      TurnKeeps(c, t, h);
      r, pt := FixTurn(r, pt, pt.parent, pt.parent.parent, s, c, t);
      c, t, h := c.up.up, FixTree(c, t), h + 1;
      ZipFocus(r, pt, s, c, t);
    }
    h' := PlugRules(c, t, h);
    PlugZip(Snap(s), r, c, t);
    t', h' := BlackenRoot(r, s, Plug(c, t), h');
  }

  // ----- insertBST -----

  /** Ordinary search-tree insertion of node pt; a key already present changes nothing. */
  ghost function Ins(t: Tree, pt: Node, key: int): (r: Tree)
    ensures r.Tree?
  {
    if t.Leaf? then Tree(pt, key, Red, Leaf, Leaf)
    else if key < t.data then t.(l := Ins(t.l, pt, key))
    else if key > t.data then t.(r := Ins(t.r, pt, key))
    else t
  }

  /** The place where the search for key falls off the tree. */
  ghost function Path(c: Ctx, t: Tree, key: int): Ctx
    decreases t
  {
    if t.Leaf? || key == t.data then c
    else if key < t.data then Path(InLeft(c, t.node, t.data, t.color, t.r), t.l, key)
    else Path(InRight(c, t.node, t.data, t.color, t.l), t.r, key)
  }

  ghost predicate Has(t: Tree, key: int) {
    t.Tree? && (t.data == key || (key < t.data && Has(t.l, key)) || (key > t.data && Has(t.r, key)))
  }

  lemma {:induction false} InsNodes(t: Tree, pt: Node, key: int)
    ensures Nodes(Ins(t, pt, key)) <= Nodes(t) + {pt} && Nodes(t) <= Nodes(Ins(t, pt, key))
    ensures pt !in Nodes(t) && Distinct(t) ==> Distinct(Ins(t, pt, key))
  {
    if t.Tree? && key < t.data { InsNodes(t.l, pt, key); }
    else if t.Tree? && key > t.data { InsNodes(t.r, pt, key); }
  }

  /** insertBST links the new node exactly when its key is absent; otherwise the tree stays as it was. */
  lemma {:induction false} LinkedIffAbsent(t: Tree, pt: Node, key: int)
    requires pt !in Nodes(t)
    ensures pt in Nodes(Ins(t, pt, key)) <==> !Has(t, key)
    ensures Has(t, key) ==> Ins(t, pt, key) == t
  {
    if t.Tree? && key < t.data { LinkedIffAbsent(t.l, pt, key); }
    else if t.Tree? && key > t.data { LinkedIffAbsent(t.r, pt, key); }
  }

  /** Both branches of insertBST: the new subtree is hung on, and its root's parent set. */
  lemma HangLeft(m: Mem, t: Tree, l: Tree, p: Node?, q: Node?)
    requires t.Tree? && t.node in m && m[t.node] == Cell(t.data, t.color, m[t.node].left, Ptr(t.r), p)
    requires l.Tree? && Rep(m, l, q) && Rep(m, t.r, t.node)
    requires Distinct(l) && Distinct(t.r) && t.node !in Nodes(l) && t.node !in Nodes(t.r) && Nodes(l) !! Nodes(t.r)
    ensures l.node in m && l.node != t.node
    ensures Rep(m[t.node := m[t.node].(left := l.node)][l.node := m[l.node].(parent := t.node)], t.(l := l), p)
  {
    var m' := m[t.node := m[t.node].(left := l.node)][l.node := m[l.node].(parent := t.node)];
    Reparent(m, m', l, q, t.node);
    RepFrame(m, m', t.r, t.node);
  }

  lemma HangRight(m: Mem, t: Tree, r: Tree, p: Node?, q: Node?)
    requires t.Tree? && t.node in m && m[t.node] == Cell(t.data, t.color, Ptr(t.l), m[t.node].right, p)
    requires r.Tree? && Rep(m, r, q) && Rep(m, t.l, t.node)
    requires Distinct(r) && Distinct(t.l) && t.node !in Nodes(r) && t.node !in Nodes(t.l) && Nodes(r) !! Nodes(t.l)
    ensures r.node in m && r.node != t.node
    ensures Rep(m[t.node := m[t.node].(right := r.node)][r.node := m[r.node].(parent := t.node)], t.(r := r), p)
  {
    var m' := m[t.node := m[t.node].(right := r.node)][r.node := m[r.node].(parent := t.node)];
    Reparent(m, m', r, q, t.node);
    RepFrame(m, m', t.l, t.node);
  }

  ghost predicate SameOutside(m: Mem, m': Mem, touched: set<Node>) {
    m'.Keys == m.Keys && forall n :: n in m && n !in touched ==> m'[n] == m[n]
  }

  method LinkLeft(root: Node, child: Node, ghost s: set<Node>, ghost t: Tree, ghost sub: Tree, ghost p: Node?, ghost q: Node?)
    requires t.Tree? && t.node == root && root in s
    requires CellOf(root) == Cell(t.data, t.color, root.left, Ptr(t.r), p)
    requires sub.Tree? && sub.node == child && Rep(Snap(s), sub, q) && Rep(Snap(s), t.r, root)
    requires Distinct(sub) && Distinct(t.r) && root !in Nodes(sub) && root !in Nodes(t.r) && Nodes(sub) !! Nodes(t.r)
    modifies s
    ensures Rep(Snap(s), t.(l := sub), p) && SameOutside(old(Snap(s)), Snap(s), {root, child})
  {
    HangLeft(Snap(s), t, sub, p, q);
    root.SetLeft(child, s);
    assert Snap(s)[child] == CellOf(child);
    root.left.SetParent(root, s);
  }

  method LinkRight(root: Node, child: Node, ghost s: set<Node>, ghost t: Tree, ghost sub: Tree, ghost p: Node?, ghost q: Node?)
    requires t.Tree? && t.node == root && root in s
    requires CellOf(root) == Cell(t.data, t.color, Ptr(t.l), root.right, p)
    requires sub.Tree? && sub.node == child && Rep(Snap(s), sub, q) && Rep(Snap(s), t.l, root)
    requires Distinct(sub) && Distinct(t.l) && root !in Nodes(sub) && root !in Nodes(t.l) && Nodes(sub) !! Nodes(t.l)
    modifies s
    ensures Rep(Snap(s), t.(r := sub), p) && SameOutside(old(Snap(s)), Snap(s), {root, child})
  {
    HangRight(Snap(s), t, sub, p, q);
    root.SetRight(child, s);
    assert Snap(s)[child] == CellOf(child);
    root.right.SetParent(root, s);
  }

  /** nv_rb_insertBST on the subtree t that hangs under p. */
  method InsertBST(root: Node?, pt: Node, ghost s: set<Node>, ghost t: Tree, ghost p: Node?) returns (r: Node)
    requires Rep(Snap(s), t, p) && Distinct(t) && root == Ptr(t)
    requires pt in s && pt !in Nodes(t) && CellOf(pt) == Cell(pt.data, Red, null, null, null)
    modifies s
    ensures r == Ptr(Ins(t, pt, old(pt.data)))
    ensures Rep(Snap(s), Ins(t, pt, old(pt.data)), if t.Leaf? then null else p)
    ensures SameOutside(old(Snap(s)), Snap(s), Nodes(Ins(t, pt, old(pt.data))))
    ensures Has(t, old(pt.data)) ==> Snap(s) == old(Snap(s)) && r != pt
    decreases t
  {
    if root == null { return pt; }
    ghost var m, key := Snap(s), pt.data;
    assert m[root] == CellOf(root);
    r := root;
    if pt.data < root.data {
      RepRoot(m, t.l, root);
      InsNodes(t.l, pt, key);
      ghost var l := Ins(t.l, pt, key);
      var child := InsertBST(root.left, pt, s, t.l, root);
      RepFrame(m, Snap(s), t.r, root);
      assert Snap(s)[root] == CellOf(root);
      LinkLeft(root, child, s, t, l, p, if t.l.Leaf? then null else root);
    } else if pt.data > root.data {
      RepRoot(m, t.r, root);
      InsNodes(t.r, pt, key);
      ghost var rt := Ins(t.r, pt, key);
      var child := InsertBST(root.right, pt, s, t.r, root);
      RepFrame(m, Snap(s), t.l, root);
      assert Snap(s)[root] == CellOf(root);
      LinkRight(root, child, s, t, rt, p, if t.r.Leaf? then null else root);
    }
    DuplicateUnchanged(m, Snap(s), t, p, pt, key);
  }

  /** insertBST with a key already there stores back what was there. */
  lemma DuplicateUnchanged(m: Mem, m': Mem, t: Tree, p: Node?, pt: Node, key: int)
    requires t.Tree? && Rep(m, t, p) && pt !in Nodes(t)
    requires Rep(m', Ins(t, pt, key), p) && SameOutside(m, m', Nodes(Ins(t, pt, key)))
    ensures Has(t, key) ==> m' == m && Ptr(Ins(t, pt, key)) != pt
  {
    if Has(t, key) {
      LinkedIffAbsent(t, pt, key);
      SameTree(m, m', t, p);
    }
  }

  /** Two memories that hold the same tree differ at most outside it. */
  lemma {:induction false} SameTree(m: Mem, m': Mem, t: Tree, p: Node?)
    requires Rep(m, t, p) && Rep(m', t, p)
    ensures forall n :: n in Nodes(t) ==> n in m && n in m' && m[n] == m'[n]
  {
    if t.Tree? {
      SameTree(m, m', t.l, t.node);
      SameTree(m, m', t.r, t.node);
    }
  }

  /** The first look of insertFix at its loop guard reads a null parent. */
  ghost predicate ReadsNull(m: Mem, root: Node, pt: Node) {
    pt in m && pt != root && m[pt].color != Black && m[pt].parent == null
  }

  /** After insertBST on a whole tree that happens exactly if the key was already there. */
  lemma CrashesIffPresent(m: Mem, root: Node, t: Tree, pt: Node, key: int)
    requires pt !in Nodes(t) && Zip(m, root, Top, Ins(t, pt, key))
    requires Has(t, key) ==> pt in m && m[pt] == Cell(key, Red, null, null, null) && pt != root
    ensures ReadsNull(m, root, pt) <==> Has(t, key)
  {
    if !Has(t, key) {
      PathZip(m, root, Top, t, pt, key);
      Look(m, root, Path(Top, t, key), Single(pt, key));
    }
  }

  // ----- insertion as a whole -----

  ghost function Single(pt: Node, key: int): Tree {
    Tree(pt, key, Red, Leaf, Leaf)
  }

  ghost function DownLeft(c: Ctx, t: Tree): Ctx requires t.Tree? { InLeft(c, t.node, t.data, t.color, t.r) }
  ghost function DownRight(c: Ctx, t: Tree): Ctx requires t.Tree? { InRight(c, t.node, t.data, t.color, t.l) }

  /** After insertBST the focus can be put on the new node. */
  lemma {:induction false} PathZip(m: Mem, root: Node?, c: Ctx, t: Tree, pt: Node, key: int)
    requires !Has(t, key) && Zip(m, root, c, Ins(t, pt, key))
    ensures Zip(m, root, Path(c, t, key), Single(pt, key))
    decreases t
  {
    if t.Leaf? {
    } else if key < t.data {
      ZipUp(m, root, DownLeft(c, t), Ins(t.l, pt, key));
      PathZip(m, root, DownLeft(c, t), t.l, pt, key);
    } else {
      ZipUp(m, root, DownRight(c, t), Ins(t.r, pt, key));
      PathZip(m, root, DownRight(c, t), t.r, pt, key);
    }
  }

  /** Around the new node the rules hold, with a hole of black height 0. */
  lemma {:induction false} PathRules(c: Ctx, t: Tree, key: int, h: int)
    requires !Has(t, key) && CtxBal(c, h) && CtxNoRedRed(c) && Bal(t, h) && NoRedRed(t)
    requires IsRed(t) ==> !c.Top? && c.color.Black?
    ensures CtxBal(Path(c, t, key), 0) && CtxNoRedRed(Path(c, t, key))
    decreases t
  {
    if t.Leaf? {
    } else if key < t.data {
      PathRules(DownLeft(c, t), t.l, key, h - Weight(t.color));
    } else {
      PathRules(DownRight(c, t), t.r, key, h - Weight(t.color));
    }
  }

  ghost predicate Below(xs: seq<int>, k: int) { forall x :: x in xs ==> x < k }
  ghost predicate Above(xs: seq<int>, k: int) { forall x :: x in xs ==> x > k }

  /** Keys of a tree in its context, in order. */
  ghost function Keys(c: Ctx, t: Tree): seq<int> { Before(c) + InOrder(t) + Behind(c) }

  lemma KeysAround(c: Ctx, t: Tree)
    requires t.Tree?
    ensures Keys(c, t) == (Before(c) + InOrder(t.l)) + [t.data] + (InOrder(t.r) + Behind(c))
    ensures Keys(DownLeft(c, t), t.l) == Keys(c, t) == Keys(DownRight(c, t), t.r)
    ensures Behind(DownLeft(c, t)) == [t.data] + (InOrder(t.r) + Behind(c))
    ensures Before(DownRight(c, t)) == (Before(c) + InOrder(t.l)) + [t.data]
  {
    Regroup(Before(c), InOrder(t.l), t.data, InOrder(t.r), Behind(c));
  }

  lemma Regroup(b: seq<int>, l: seq<int>, d: int, r: seq<int>, e: seq<int>)
    ensures b + (l + [d] + r) + e == (b + l) + [d] + (r + e) == b + l + ([d] + r + e) == (b + l + [d]) + r + e
    ensures [d] + r + e == [d] + (r + e)
  {
  }

  lemma AscendingAround(xs: seq<int>, d: int, ys: seq<int>)
    requires Ascending(xs + [d] + ys)
    ensures Below(xs, d) && Above(ys, d)
  {
    var zs := xs + [d] + ys;
    assert zs[|xs|] == d;
    assert forall i :: 0 <= i < |xs| ==> xs[i] == zs[i];
    assert forall i :: 0 <= i < |ys| ==> ys[i] == zs[|xs| + 1 + i];
  }

  /** The search path splits the keys into the smaller and the larger ones. */
  lemma {:induction false} PathSplits(c: Ctx, t: Tree, key: int)
    requires !Has(t, key) && Ascending(Keys(c, t)) && Below(Before(c), key) && Above(Behind(c), key)
    ensures var c' := Path(c, t, key);
            Before(c') + Behind(c') == Keys(c, t) && Below(Before(c'), key) && Above(Behind(c'), key)
    decreases t
  {
    if t.Leaf? {
      assert Keys(c, t) == Before(c) + Behind(c);
    } else {
      KeysAround(c, t);
      AscendingAround(Before(c) + InOrder(t.l), t.data, InOrder(t.r) + Behind(c));
      if key < t.data {
        PathSplits(DownLeft(c, t), t.l, key);
      } else {
        PathSplits(DownRight(c, t), t.r, key);
      }
    }
  }

  /** Searching finds exactly the keys of an ordered tree. */
  lemma {:induction false} HasMeansIn(t: Tree, key: int)
    requires Ascending(InOrder(t))
    ensures Has(t, key) <==> key in InOrder(t)
  {
    if t.Tree? {
      AscendingAround(InOrder(t.l), t.data, InOrder(t.r));
      AscendingParts(InOrder(t.l), t.data, InOrder(t.r));
      HasMeansIn(t.l, key);
      HasMeansIn(t.r, key);
    }
  }

  lemma AscendingParts(xs: seq<int>, d: int, ys: seq<int>)
    requires Ascending(xs + [d] + ys)
    ensures Ascending(xs) && Ascending(ys)
  {
    var zs := xs + [d] + ys;
    assert forall i :: 0 <= i < |xs| ==> xs[i] == zs[i];
    assert forall i :: 0 <= i < |ys| ==> ys[i] == zs[|xs| + 1 + i];
  }

  lemma AscendingInsert(xs: seq<int>, key: int, ys: seq<int>)
    requires Ascending(xs + ys) && Below(xs, key) && Above(ys, key)
    ensures Ascending(xs + [key] + ys)
  {
    var zs, ws := xs + [key] + ys, xs + ys;
    forall i, j | 0 <= i < j < |zs| ensures zs[i] < zs[j] {
      if i < |xs| { assert zs[i] == ws[i]; }
      if j > |xs| { assert zs[j] == ws[j - 1]; }
      if i > |xs| { assert zs[i] == ws[i - 1]; }
      if j < |xs| { assert zs[j] == ws[j]; }
      if i == |xs| { assert zs[j] in ys; }
      if j == |xs| { assert zs[i] in xs; }
    }
  }

  /** The new node, red and in place, breaks no rule but the ones insertFix repairs. */
  lemma ReadyToFix(t: Tree, pt: Node, key: int, h: int)
    requires RedBlackTree(t, h) && !Has(t, key)
    ensures var c := Path(Top, t, key);
            && Fixing(c, Single(pt, key), 0)
            && Ascending(InOrder(Plug(c, Single(pt, key))))
            && InsertedInto(InOrder(t), InOrder(Plug(c, Single(pt, key))), key)
  {
    var c := Path(Top, t, key);
    PathRules(Top, t, key, h);
    assert Keys(Top, t) == InOrder(t);
    PathSplits(Top, t, key);
    AscendingInsert(Before(c), key, Behind(c));
    PlugInOrder(c, Single(pt, key));
    assert InOrder(Single(pt, key)) == [key];
    assert InOrder(t)[..|Before(c)|] == Before(c) && InOrder(t)[|Before(c)|..] == Behind(c);
  }

  /** ys is xs with key put in at one place. */
  ghost predicate InsertedInto(xs: seq<int>, ys: seq<int>, key: int) {
    exists i :: 0 <= i <= |xs| && ys == xs[..i] + [key] + xs[i..]
  }

  /**
   nv_rb_insert, on any red-black tree: a key already there makes the fix-up read through a null pointer, with the
   tree as it was; any other key is put in and the rules hold again.
   */
  method Insert(root: Node?, data: int, ghost s: set<Node>, ghost t: Tree, ghost h: int)
    returns (crashed: bool, r: Node, ghost s': set<Node>, ghost t': Tree, ghost h': int)
    requires Zip(Snap(s), root, Top, t) && RedBlackTree(t, h)
    modifies s
    ensures s <= s' && fresh(s' - s)
    ensures crashed <==> data in InOrder(t)
    ensures Zip(Snap(s'), r, Top, t') && RedBlackTree(t', h')
    ensures if crashed then t' == t && Snap(s) == old(Snap(s)) else InsertedInto(InOrder(t), InOrder(t'), data)
  {
    HasMeansIn(t, data);
    RepNodes(Snap(s), t, null);
    var pt := new Node(data);
    s' := s + {pt};
    ghost var m := Snap(s');
    RepFrame(old(Snap(s)), m, t, null);
    r := InsertBST(root, pt, s', t, null);
    InsNodes(t, pt, data);
    CrashesIffPresent(Snap(s'), r, t, pt, data);
    assert CellOf(pt) == Snap(s')[pt];
    if pt != r && pt.color != Black && pt.parent == null {
      LinkedIffAbsent(t, pt, data);
      return true, r, s', t, h;
    }
    PathZip(Snap(s'), r, Top, t, pt, data);
    ReadyToFix(t, pt, data, h);
    crashed := false;
    r, t', h' := InsertFix(r, pt, s', Path(Top, t, data), Single(pt, data), 0);
  }

  lemma InsertedBag(xs: seq<int>, ys: seq<int>, key: int)
    requires InsertedInto(xs, ys, key)
    ensures multiset(ys) == multiset(xs) + multiset{key}
  {
    var i :| 0 <= i <= |xs| && ys == xs[..i] + [key] + xs[i..];
    assert xs == xs[..i] + xs[i..];
  }

  ghost predicate NoRepeats(keys: seq<int>) {
    forall i, j :: 0 <= i < j < |keys| ==> keys[i] != keys[j]
  }

  /** The i-th key repeats an earlier one exactly if it is among the keys so far. */
  lemma NextKey(keys: seq<int>, i: nat, so_far: seq<int>)
    requires i < |keys| && NoRepeats(keys[..i]) && multiset(so_far) == multiset(keys[..i])
    ensures NoRepeats(keys[..i + 1]) <==> keys[i] !in so_far
    ensures NoRepeats(keys) ==> NoRepeats(keys[..i + 1])
  {
    assert keys[i] in so_far <==> keys[i] in multiset(so_far);
    assert keys[..i + 1] == keys[..i] + [keys[i]];
    if keys[i] in keys[..i] {
      var j :| 0 <= j < i && keys[..i][j] == keys[i];
      assert keys[..i + 1][j] == keys[..i + 1][i];
    }
  }

  lemma OneMore(keys: seq<int>, i: nat, so_far: seq<int>, now: seq<int>)
    requires i < |keys| && multiset(so_far) == multiset(keys[..i]) && InsertedInto(so_far, now, keys[i])
    ensures multiset(now) == multiset(keys[..i + 1])
  {
    InsertedBag(so_far, now, keys[i]);
    assert keys[..i + 1] == keys[..i] + [keys[i]];
  }

  ghost predicate Holds(m: Mem, r: Node?, t: Tree, h: int) {
    Zip(m, r, Top, t) && RedBlackTree(t, h)
  }

  /** Insertions into an empty tree, one after the other, until one crashes: that is a key that came before. */
  method Build(keys: seq<int>) returns (crashed: bool, r: Node?, ghost s: set<Node>, ghost t: Tree, ghost h: int)
    ensures crashed <==> !NoRepeats(keys)
    ensures Holds(Snap(s), r, t, h)
    ensures !crashed ==> multiset(InOrder(t)) == multiset(keys)
  {
    crashed, r, s, t, h := false, null, {}, Leaf, 0;
    EmptyTree(Snap(s), keys);
    var i := 0;
    while i < |keys| && !crashed
      invariant i <= |keys| && fresh(s) && Holds(Snap(s), r, t, h)
      invariant if crashed then !NoRepeats(keys) else HoldsKeys(t, keys, i)
      decreases |keys| - i, !crashed
    {
      crashed, r, s, t, h := Next(r, keys, i, s, t, h);
      if !crashed { i := i + 1; }
    }
    assert keys[..|keys|] == keys;
  }

  ghost predicate HoldsKeys(t: Tree, keys: seq<int>, i: nat) {
    i <= |keys| && NoRepeats(keys[..i]) && multiset(InOrder(t)) == multiset(keys[..i])
  }

  lemma EmptyTree(m: Mem, keys: seq<int>)
    ensures Holds(m, null, Leaf, 0) && HoldsKeys(Leaf, keys, 0)
  {
  }

  method Next(root: Node?, keys: seq<int>, i: nat, ghost s: set<Node>, ghost t: Tree, ghost h: int)
    returns (crashed: bool, r: Node?, ghost s': set<Node>, ghost t': Tree, ghost h': int)
    requires i < |keys| && Holds(Snap(s), root, t, h) && HoldsKeys(t, keys, i)
    modifies s
    ensures s <= s' && fresh(s' - s) && Holds(Snap(s'), r, t', h')
    ensures if crashed then !NoRepeats(keys) else HoldsKeys(t', keys, i + 1)
  {
    NextKey(keys, i, InOrder(t));
    crashed, r, s', t', h' := Insert(root, keys[i], s, t, h);
    if !crashed { OneMore(keys, i, InOrder(t), InOrder(t')); }
  }

  // ----- search -----

  /** nv_rb_search: the node found carries the key; nothing found means the key is nowhere. */
  function Search(root: Node?, data: int, ghost s: set<Node>, ghost t: Tree, ghost p: Node?): (r: Node?)
    requires Rep(Snap(s), t, p) && root == Ptr(t)
    reads s
    ensures (r != null) == Has(t, data)
    ensures r != null ==> r in Nodes(t) && r in s && r.data == data
    decreases t
  {
    if root == null then null
    else
      assert Snap(s)[root] == CellOf(root);
      if root.data == data then root
      else if root.data < data then Search(root.right, data, s, t.r, root)
      else Search(root.left, data, s, t.l, root)
  }

  /** How many nodes that search looks at. */
  function Visits(t: Tree, data: int): nat {
    if t.Leaf? then 0
    else if t.data == data then 1
    else if t.data < data then 1 + Visits(t.r, data)
    else 1 + Visits(t.l, data)
  }

  /** Black height b forces at least 2^b - 1 nodes. */
  lemma {:induction false} ManyNodes(t: Tree, h: int)
    requires Bal(t, h)
    ensures h >= 0 && Pow2(h) <= |InOrder(t)| + 1
  {
    if t.Tree? {
      ManyNodes(t.l, h - Weight(t.color));
      ManyNodes(t.r, h - Weight(t.color));
    }
  }

  /** No path is longer than twice the black height, and one more below a red node. */
  lemma {:induction false} ShortPaths(t: Tree, h: int, data: int)
    requires Bal(t, h) && NoRedRed(t)
    ensures Visits(t, data) <= 2 * h + (if IsRed(t) then 1 else 0)
  {
    if t.Tree? {
      ShortPaths(t.l, h - Weight(t.color), data);
      ShortPaths(t.r, h - Weight(t.color), data);
      ManyNodes(t, h);
    }
  }

  /**
   Searching a red-black tree of n keys looks at no more than 2 * log2(n + 1) nodes,
   and it finds a node exactly when the key is in the tree.
   */
  lemma SearchIsLogarithmic(t: Tree, h: int, data: int)
    requires RedBlackTree(t, h)
    ensures Visits(t, data) <= 2 * h
    ensures var n := |InOrder(t)|; Pow2(Visits(t, data)) <= (n + 1) * (n + 1)
    ensures Has(t, data) <==> data in InOrder(t)
  {
    HasMeansIn(t, data);
    ManyNodes(t, h);
    ShortPaths(t, h, data);
    Pow2Monotone(Visits(t, data), 2 * h);
    Pow2Double(h);
    SquareMonotone(Pow2(h), |InOrder(t)| + 1);
  }

  lemma SquareMonotone(a: nat, b: nat)
    requires a <= b
    ensures a * a <= b * b
  {
  }
}

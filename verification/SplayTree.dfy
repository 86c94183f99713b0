/** The intrusive splay tree of picosplay.c: nodes with parent, left and right
    pointers, rotated in place.

    A `Shape` is a snapshot of the pointers of every node, together with the
    node's index `pos` in the in-order sequence and the interval `[lo, hi)` of
    indices that its subtree occupies. `Ok` relates a node only to its direct
    neighbours, so no step needs a recursive heap predicate, and a rotation makes
    the interval of the rising node strictly larger, which is the termination
    measure of `Splay`. */
module SplayTree {
  import opened Sequences

  // Values are opaque machine words: only the comparator looks at them.
  type Value = int

  type Comparator = (Value, Value) -> int

  // Calls through the stored function pointer.
  function Compare(comp: Comparator, a: Value, b: Value): int {
    comp(a, b)
  }

  /** What the tree assumes of its comparator: the sign is a total preorder. */
  ghost predicate TotalPreorder(comp: Comparator) {
    && (forall a, b :: Compare(comp, a, b) < 0 <==> Compare(comp, b, a) > 0)
    && (forall a, b, c :: Compare(comp, a, b) <= 0 && Compare(comp, b, c) <= 0 ==> Compare(comp, a, c) <= 0)
  }

  class Node {
    var parent: Node?
    var left: Node?
    var right: Node?
    const value: Value

    constructor (v: Value)
      ensures value == v && left == null && right == null && parent == null
    {
      value := v;
      left, right, parent := null, null, null;
    }
  }

  /** The pointers of one node and the place of its subtree in the in-order sequence. */
  datatype Spot = Spot(parent: Node?, left: Node?, right: Node?, lo: nat, pos: nat, hi: nat)

  type Shape = map<Node, Spot>

  /** The heap holds exactly the pointers recorded in the shape. */
  ghost predicate Holds(m: Shape)
    reads m.Keys
  {
    forall n: Node {:trigger m[n]} :: n in m ==> n.parent == m[n].parent && n.left == m[n].left && n.right == m[n].right
  }

  ghost predicate Placed(m: Shape, order: seq<Node>, n: Node)
    requires n in m
  {
    var s := m[n];
    && s.lo <= s.pos < s.hi <= |order| && order[s.pos] == n
    && (s.left == null <==> s.lo == s.pos)
    && (s.right == null <==> s.pos + 1 == s.hi)
  }

  ghost predicate Below(m: Shape, n: Node)
    requires n in m
  {
    var s := m[n];
    && (s.left != null ==> s.left in m && m[s.left].parent == n && m[s.left].lo == s.lo && m[s.left].hi == s.pos)
    && (s.right != null ==>
          s.right in m && m[s.right].parent == n && m[s.right].lo == s.pos + 1 && m[s.right].hi == s.hi)
  }

  ghost predicate Above(m: Shape, top: Node?, n: Node)
    requires n in m
  {
    var s := m[n];
    && (s.parent == null <==> n == top)
    && (s.parent != null ==> s.parent in m && (m[s.parent].left == n || m[s.parent].right == n))
  }

  /** The local invariant of one node. */
  ghost predicate Ok(m: Shape, order: seq<Node>, top: Node?, n: Node)
    requires n in m
  {
    Placed(m, order, n) && Below(m, n) && Above(m, top, n)
  }

  /** The shape is one well-linked tree with root `top` and in-order sequence `order`. */
  ghost predicate Linked(m: Shape, order: seq<Node>, top: Node?) {
    && (top == null <==> order == [])
    && (top != null ==> top in m && m[top].lo == 0 && m[top].hi == |order|)
    && (forall i :: 0 <= i < |order| ==> order[i] in m && m[order[i]].pos == i)
    && (forall n: Node {:trigger Ok(m, order, top, n)} :: n in m ==> Ok(m, order, top, n))
  }

  /** The root once `child` has taken the place of `p`. */
  ghost function Risen(top: Node?, child: Node, p: Node): Node? {
    if p == top then child else top
  }

  ghost function Inner(m: Shape, child: Node): Node?
    requires child in m && m[child].parent != null && m[child].parent in m
  {
    if m[m[child].parent].left == child then m[child].right else m[child].left
  }

  /** `p`, `g` and `b` are the nodes that a rotation of `child` touches, all distinct. */
  ghost predicate Around(m: Shape, child: Node, p: Node, g: Node?, b: Node?) {
    && child in m && p in m && (g != null ==> g in m) && (b != null ==> b in m)
    && m[child].parent == p && m[p].parent == g && b == Inner(m, child)
    && child != p && g != child && g != p
    && (b != null ==> b != child && b != p && b != g)
  }

  lemma RotationIsLocal(m: Shape, order: seq<Node>, top: Node?, child: Node)
    requires Linked(m, order, top) && child in m && m[child].parent != null
    ensures m[child].parent in m && Around(m, child, m[child].parent, m[m[child].parent].parent, Inner(m, child))
  {
    assert Ok(m, order, top, child);
    var p := m[child].parent;
    assert Ok(m, order, top, p);
    if m[p].parent != null {
      assert Ok(m, order, top, m[p].parent);
    }
    if Inner(m, child) != null {
      assert Ok(m, order, top, Inner(m, child));
    }
  }

  /** `w` is `m` after `child`, whose parent is `p` and grandparent `g`, has taken its
      parent's place and handed it the subtree `b`. */
  ghost predicate Rotated(m: Shape, w: Shape, child: Node, p: Node, g: Node?, b: Node?)
    requires child in m && p in m && (g != null ==> g in m) && (b != null ==> b in m)
  {
    && w.Keys == m.Keys
    && w[child] == (if m[p].left == child
                    then m[child].(parent := g, right := p, lo := m[p].lo, hi := m[p].hi)
                    else m[child].(parent := g, left := p, lo := m[p].lo, hi := m[p].hi))
    && w[p] == (if m[p].left == child
                then m[p].(parent := child, left := b, lo := m[child].pos + 1)
                else m[p].(parent := child, right := b, hi := m[child].pos))
    && (g != null ==> w[g] == if m[g].left == p then m[g].(left := child) else m[g].(right := child))
    && (b != null ==> w[b] == m[b].(parent := p))
    && (forall n: Node :: n in m && n !in {child, p, g, b} ==> w[n] == m[n])
  }

  lemma RotatedChildOk(m: Shape, w: Shape, order: seq<Node>, top: Node?, child: Node, p: Node, g: Node?, b: Node?)
    requires Linked(m, order, top) && Around(m, child, p, g, b) && Rotated(m, w, child, p, g, b)
    ensures Ok(w, order, Risen(top, child, p), child)
  {
    assert Ok(m, order, top, child);
    assert Ok(m, order, top, p);
    if g != null {
      assert Ok(m, order, top, g);
    }
    var outer := if m[p].left == child then m[child].left else m[child].right;
    if outer != null {
      assert Ok(m, order, top, outer);
    }
  }

  lemma RotatedParentOk(m: Shape, w: Shape, order: seq<Node>, top: Node?, child: Node, p: Node, g: Node?, b: Node?)
    requires Linked(m, order, top) && Around(m, child, p, g, b) && Rotated(m, w, child, p, g, b)
    ensures Ok(w, order, Risen(top, child, p), p)
  {
    assert Ok(m, order, top, child);
    assert Ok(m, order, top, p);
    if b != null {
      assert Ok(m, order, top, b);
    }
    var sibling := if m[p].left == child then m[p].right else m[p].left;
    if sibling != null {
      assert Ok(m, order, top, sibling);
    }
  }

  lemma RotatedGrandOk(m: Shape, w: Shape, order: seq<Node>, top: Node?, child: Node, p: Node, g: Node?, b: Node?)
    requires Linked(m, order, top) && Around(m, child, p, g, b) && Rotated(m, w, child, p, g, b)
    requires g != null
    ensures Ok(w, order, Risen(top, child, p), g)
  {
    assert Ok(m, order, top, child);
    assert Ok(m, order, top, p);
    assert Ok(m, order, top, g);
  }

  lemma RotatedInnerOk(m: Shape, w: Shape, order: seq<Node>, top: Node?, child: Node, p: Node, g: Node?, b: Node?)
    requires Linked(m, order, top) && Around(m, child, p, g, b) && Rotated(m, w, child, p, g, b)
    requires b != null
    ensures Ok(w, order, Risen(top, child, p), b)
  {
    assert Ok(m, order, top, child);
    assert Ok(m, order, top, p);
    assert Ok(m, order, top, b);
  }

  lemma RotatedOtherOk(m: Shape, w: Shape, order: seq<Node>, top: Node?, child: Node, p: Node, g: Node?, b: Node?,
                       n: Node)
    requires Linked(m, order, top) && Around(m, child, p, g, b) && Rotated(m, w, child, p, g, b)
    requires n in m && n !in {child, p, g, b}
    ensures Ok(w, order, Risen(top, child, p), n)
  {
    assert Ok(m, order, top, child);
    assert Ok(m, order, top, p);
    assert Ok(m, order, top, n);
    if g != null {
      assert Ok(m, order, top, g);
    }
  }

  lemma RotatedAllOk(m: Shape, w: Shape, order: seq<Node>, top: Node?, child: Node, p: Node, g: Node?, b: Node?)
    requires Linked(m, order, top) && Around(m, child, p, g, b) && Rotated(m, w, child, p, g, b)
    ensures forall n: Node {:trigger Ok(w, order, Risen(top, child, p), n)} :: n in w ==>
      Ok(w, order, Risen(top, child, p), n)
  {
    RotatedChildOk(m, w, order, top, child, p, g, b);
    RotatedParentOk(m, w, order, top, child, p, g, b);
    if g != null {
      RotatedGrandOk(m, w, order, top, child, p, g, b);
    }
    if b != null {
      RotatedInnerOk(m, w, order, top, child, p, g, b);
    }
    forall n: Node | n in w && n !in {child, p, g, b}
      ensures Ok(w, order, Risen(top, child, p), n)
    {
      RotatedOtherOk(m, w, order, top, child, p, g, b, n);
    }
  }

  /** A rotation keeps the tree well linked, with the same in-order sequence. */
  lemma RotatedLinked(m: Shape, w: Shape, order: seq<Node>, top: Node?, child: Node, p: Node, g: Node?, b: Node?)
    requires Linked(m, order, top) && Around(m, child, p, g, b) && Rotated(m, w, child, p, g, b)
    ensures Linked(w, order, Risen(top, child, p))
  {
    RotatedAllOk(m, w, order, top, child, p, g, b);
    assert Ok(m, order, top, child) && Ok(m, order, top, p);
    forall i | 0 <= i < |order|
      ensures order[i] in w && w[order[i]].pos == i
    {
      assert order[i] in m && m[order[i]].pos == i;
    }
  }

  /** First half of a rotation: `child` takes its parent's place below the grandparent. */
  method MarkGp(child: Node, ghost m: Shape) returns (ghost w: Shape)
    requires Holds(m) && child in m && m[child].parent != null && m[child].parent in m && m[child].parent != child
    requires var g := m[m[child].parent].parent; g != child && g != m[child].parent && (g != null ==> g in m)
    modifies m.Keys
    ensures Holds(w)
    ensures var p := m[child].parent; var g := m[p].parent;
      && w.Keys == m.Keys
      && w[child] == m[child].(parent := g) && w[p] == m[p].(parent := child)
      && (g != null ==> w[g] == if m[g].left == p then m[g].(left := child) else m[g].(right := child))
      && forall n: Node :: n in m && n !in {child, p, g} ==> w[n] == m[n]
  {
    var parent := child.parent;
    var grand := parent.parent;
    child.parent := grand;
    parent.parent := child;
    w := m[child := m[child].(parent := grand)][parent := m[parent].(parent := child)];
    if grand == null {
      return;
    }
    if grand.left == parent {
      grand.left := child;
      w := w[grand := w[grand].(left := child)];
    } else {
      grand.right := child;
      w := w[grand := w[grand].(right := child)];
    }
  }

  /** Second half for a left child: its right subtree `b` moves below the old parent. */
  method LowerRight(child: Node, parent: Node, ghost m: Shape) returns (ghost w: Shape)
    requires Holds(m) && child in m && parent in m && child != parent
    requires var b := m[child].right; b != null ==> b in m && b != child && b != parent
    modifies m.Keys
    ensures Holds(w) && w.Keys == m.Keys
    ensures w[parent] == m[parent].(left := m[child].right, lo := m[child].pos + 1)
    ensures w[child] == m[child].(right := parent, lo := m[parent].lo, hi := m[parent].hi)
    ensures var b := m[child].right; b != null ==> w[b] == m[b].(parent := parent)
    ensures forall n: Node :: n in m && n !in {child, parent, m[child].right} ==> w[n] == m[n]
  {
    parent.left := child.right;
    w := m[parent := m[parent].(left := m[child].right, lo := m[child].pos + 1)];
    if child.right != null {
      child.right.parent := parent;
      w := w[child.right := w[child.right].(parent := parent)];
    }
    child.right := parent;
    w := w[child := w[child].(right := parent, lo := m[parent].lo, hi := m[parent].hi)];
  }

  /** Second half for a right child: its left subtree moves below the old parent. */
  method LowerLeft(child: Node, parent: Node, ghost m: Shape) returns (ghost w: Shape)
    requires Holds(m) && child in m && parent in m && child != parent
    requires var b := m[child].left; b != null ==> b in m && b != child && b != parent
    modifies m.Keys
    ensures Holds(w) && w.Keys == m.Keys
    ensures w[parent] == m[parent].(right := m[child].left, hi := m[child].pos)
    ensures w[child] == m[child].(left := parent, lo := m[parent].lo, hi := m[parent].hi)
    ensures var b := m[child].left; b != null ==> w[b] == m[b].(parent := parent)
    ensures forall n: Node :: n in m && n !in {child, parent, m[child].left} ==> w[n] == m[n]
  {
    parent.right := child.left;
    w := m[parent := m[parent].(right := m[child].left, hi := m[child].pos)];
    if child.left != null {
      child.left.parent := parent;
      w := w[child.left := w[child.left].(parent := parent)];
    }
    child.left := parent;
    w := w[child := w[child].(left := parent, lo := m[parent].lo, hi := m[parent].hi)];
  }

  /** Make `child` take its parent's place, keeping the in-order sequence. */
  method Rotate(child: Node, ghost m: Shape, ghost order: seq<Node>, ghost top: Node?)
    returns (ghost w: Shape, ghost top': Node?)
    requires Holds(m) && Linked(m, order, top) && child in m && m[child].parent != null
    modifies m.Keys
    ensures Holds(w) && Linked(w, order, top')
    ensures m[child].parent in m && Around(m, child, m[child].parent, m[m[child].parent].parent, Inner(m, child))
    ensures top' == Risen(top, child, m[child].parent)
    ensures Rotated(m, w, child, m[child].parent, m[m[child].parent].parent, Inner(m, child))
  {
    RotationIsLocal(m, order, top, child);
    var parent := child.parent;
    assert Ok(m, order, top, child) && Ok(m, order, top, parent);
    top' := Risen(top, child, parent);
    w := MarkGp(child, m);
    if parent.left == child {
      w := LowerRight(child, parent, w);
    } else {
      w := LowerLeft(child, parent, w);
    }
    RotatedLinked(m, w, order, top, child, parent, m[parent].parent, Inner(m, child));
  }

  /** A rotation strictly enlarges the subtree of the rising node. */
  lemma RotationGrows(m: Shape, order: seq<Node>, top: Node?, child: Node)
    requires Linked(m, order, top) && child in m && m[child].parent != null
    ensures var p := m[child].parent;
      p in m && m[p].lo <= m[child].lo && m[child].hi <= m[p].hi <= |order|
      && m[child].hi - m[child].lo < m[p].hi - m[p].lo
  {
    assert Ok(m, order, top, child) && Ok(m, order, top, m[child].parent);
  }

  /** The other child of the old parent stays its child. */
  lemma SiblingStays(m: Shape, w: Shape, child: Node, p: Node, gp: Node?, b: Node?, n: Node)
    requires Around(m, child, p, gp, b) && Rotated(m, w, child, p, gp, b)
    requires n in m && m[n].parent == p && n != child && n != p
    ensures w[n].parent == p
  {
  }

  /** Two on the same side: the rotation of the parent does not touch `x`. */
  method RotateParent(x: Node, p: Node, ghost m: Shape, ghost order: seq<Node>, ghost top: Node?)
    returns (ghost w: Shape, ghost top': Node?)
    requires Holds(m) && Linked(m, order, top) && x in m && p in m && m[x].parent == p
    requires var g := m[p].parent;
      g != null && g in m && ((m[p].left == x && m[g].left == p) || (m[p].right == x && m[g].right == p))
    modifies m.Keys
    ensures Holds(w) && Linked(w, order, top') && w.Keys == m.Keys && w[x] == m[x]
    ensures var g := m[p].parent; w[p].parent == m[g].parent && w[g].parent == p
  {
    ghost var g := m[p].parent;
    assert Ok(m, order, top, x) && Ok(m, order, top, p) && Ok(m, order, top, g);
    w, top' := Rotate(p, m, order, top);
  }

  /** `x` and its parent are both left, or both right, children: rotate the parent first. */
  method ZigZig(x: Node, p: Node, ghost m: Shape, ghost order: seq<Node>, ghost top: Node?)
    returns (ghost w: Shape, ghost top': Node?)
    requires Holds(m) && Linked(m, order, top) && x in m && p in m && m[x].parent == p
    requires var g := m[p].parent;
      g != null && g in m && ((m[p].left == x && m[g].left == p) || (m[p].right == x && m[g].right == p))
    modifies m.Keys
    ensures Holds(w) && Linked(w, order, top') && w.Keys == m.Keys
    ensures m[x].hi - m[x].lo < w[x].hi - w[x].lo <= |order|
    ensures var g := m[p].parent; w[x].parent == m[g].parent && w[p].parent == x && w[g].parent == p
  {
    ghost var m1, top1 := RotateParent(x, p, m, order, top);
    ghost var g := m[p].parent;
    RotationGrows(m1, order, top1, x);
    w, top' := Rotate(x, m1, order, top1);
    SiblingStays(m1, w, x, p, m1[p].parent, Inner(m1, x), g);
  }

  /** `x` and its parent are children on different sides: rotate `x` twice. */
  method ZigZag(x: Node, ghost m: Shape, ghost order: seq<Node>, ghost top: Node?)
    returns (ghost w: Shape, ghost top': Node?)
    requires Holds(m) && Linked(m, order, top) && x in m
    requires m[x].parent != null && m[x].parent in m && m[m[x].parent].parent != null && m[m[x].parent].parent in m
    requires var p := m[x].parent; var g := m[p].parent; m[p].left == x <==> m[g].left != p
    modifies m.Keys
    ensures Holds(w) && Linked(w, order, top') && w.Keys == m.Keys
    ensures m[x].hi - m[x].lo < w[x].hi - w[x].lo <= |order|
    ensures var p := m[x].parent; var g := m[p].parent;
      w[x].parent == m[g].parent && w[p].parent == x && w[g].parent == x
  {
    ghost var p := m[x].parent;
    ghost var g := m[p].parent;
    assert Ok(m, order, top, x) && Ok(m, order, top, p) && Ok(m, order, top, g);
    RotationGrows(m, order, top, x);
    w, top' := Rotate(x, m, order, top);
    RotationGrows(w, order, top', x);
    ghost var m1 := w;
    w, top' := Rotate(x, w, order, top');
  }

  /** One iteration of the splay loop. */
  method SplayStep(x: Node, ghost m: Shape, ghost order: seq<Node>, ghost top: Node?)
    returns (ghost w: Shape, ghost top': Node?)
    requires Holds(m) && Linked(m, order, top) && x in m && m[x].parent != null
    modifies m.Keys
    ensures Holds(w) && Linked(w, order, top') && w.Keys == m.Keys
    ensures m[x].hi - m[x].lo < w[x].hi - w[x].lo <= |order|
  {
    RotationIsLocal(m, order, top, x);
    RotationGrows(m, order, top, x);
    var p := x.parent;
    var g := p.parent;
    if g == null {
      w, top' := Rotate(x, m, order, top);
    } else {
      assert Ok(m, order, top, x) && Ok(m, order, top, p);
      if (x == p.left && p == g.left) || (x == p.right && p == g.right) {
        w, top' := ZigZig(x, p, m, order, top);
      } else {
        assert Ok(m, order, top, g);
        w, top' := ZigZag(x, m, order, top);
      }
    }
  }

  // Values along the tree

  ghost predicate Sorted(comp: Comparator, vals: seq<Value>) {
    forall i, j {:trigger Compare(comp, vals[i], vals[j])} :: 0 <= i < j < |vals| ==>
      Compare(comp, vals[i], vals[j]) <= 0
  }

  /** Where a new value goes: after every value that is not greater. */
  ghost function UpperBound(comp: Comparator, vals: seq<Value>, v: Value): (k: nat)
    ensures k <= |vals|
  {
    if vals == [] || Compare(comp, v, vals[0]) < 0 then 0 else 1 + UpperBound(comp, vals[1..], v)
  }

  lemma {:induction false} UpperBoundIs(comp: Comparator, vals: seq<Value>, v: Value, k: nat)
    requires k <= |vals|
    requires forall i :: 0 <= i < k ==> Compare(comp, v, vals[i]) >= 0
    requires forall i :: k <= i < |vals| ==> Compare(comp, v, vals[i]) < 0
    ensures UpperBound(comp, vals, v) == k
  {
    if k > 0 {
      assert forall i :: 0 <= i < |vals[1..]| ==> vals[1..][i] == vals[i + 1];
      UpperBoundIs(comp, vals[1..], v, k - 1);
    }
  }

  lemma InsertedSorted(comp: Comparator, vals: seq<Value>, v: Value, k: nat)
    requires TotalPreorder(comp) && Sorted(comp, vals) && k <= |vals|
    requires forall i :: 0 <= i < k ==> Compare(comp, v, vals[i]) >= 0
    requires forall i :: k <= i < |vals| ==> Compare(comp, v, vals[i]) < 0
    ensures Sorted(comp, Inserted(vals, k, v))
  {
  }

  lemma UpperBoundSorted(comp: Comparator, vals: seq<Value>, v: Value, k: nat)
    requires TotalPreorder(comp) && Sorted(comp, vals) && k <= |vals|
    requires forall i :: 0 <= i < k ==> Compare(comp, v, vals[i]) >= 0
    requires forall i :: k <= i < |vals| ==> Compare(comp, v, vals[i]) < 0
    ensures UpperBound(comp, vals, v) == k && Sorted(comp, Inserted(vals, k, v))
  {
    UpperBoundIs(comp, vals, v, k);
    InsertedSorted(comp, vals, v, k);
  }

  lemma AfterGreater(comp: Comparator, vals: seq<Value>, v: Value, p: nat)
    requires TotalPreorder(comp) && Sorted(comp, vals) && p < |vals| && Compare(comp, v, vals[p]) < 0
    ensures forall i :: p <= i < |vals| ==> Compare(comp, v, vals[i]) < 0
  {
  }

  lemma BeforeSmaller(comp: Comparator, vals: seq<Value>, v: Value, p: nat)
    requires TotalPreorder(comp) && Sorted(comp, vals) && p < |vals| && Compare(comp, v, vals[p]) >= 0
    ensures forall i :: 0 <= i <= p ==> Compare(comp, v, vals[i]) >= 0
  {
  }

  lemma BeforeStrictlySmaller(comp: Comparator, vals: seq<Value>, v: Value, p: nat)
    requires TotalPreorder(comp) && Sorted(comp, vals) && p < |vals| && Compare(comp, v, vals[p]) > 0
    ensures forall i :: 0 <= i <= p ==> Compare(comp, v, vals[i]) > 0
  {
  }

  lemma RemovedSorted(comp: Comparator, vals: seq<Value>, k: nat)
    requires Sorted(comp, vals) && k < |vals|
    ensures Sorted(comp, Removed(vals, k))
  {
  }

  /** `vals` are the values of the nodes, in order. */
  ghost predicate Labelled(order: seq<Node>, vals: seq<Value>) {
    |vals| == |order| && forall i :: 0 <= i < |order| ==> order[i].value == vals[i]
  }

  lemma LabelledInserted(order: seq<Node>, vals: seq<Value>, k: nat, node: Node)
    requires Labelled(order, vals) && k <= |order|
    ensures Labelled(Inserted(order, k, node), Inserted(vals, k, node.value))
    ensures InsertedAt(order, Inserted(order, k, node), k, node)
  {
  }

  lemma LabelledRemoved(order: seq<Node>, vals: seq<Value>, k: nat)
    requires Labelled(order, vals) && k < |order|
    ensures Labelled(Removed(order, k), Removed(vals, k))
    ensures RemovedAt(order, Removed(order, k), k)
  {
  }

  // Attaching a new node

  ghost function Shifted(s: Spot, k: nat, left: bool): Spot {
    s.(lo := if s.lo < k || (left && s.lo == k) then s.lo else s.lo + 1,
       pos := if s.pos < k then s.pos else s.pos + 1,
       hi := if s.hi < k || (left && s.hi == k) then s.hi else s.hi + 1)
  }

  ghost predicate InsertedAt<T>(s: seq<T>, t: seq<T>, k: nat, x: T) {
    && k <= |s| && |t| == |s| + 1 && t[k] == x
    && (forall i :: 0 <= i < k ==> t[i] == s[i])
    && (forall i :: k <= i < |s| ==> t[i + 1] == s[i])
  }

  /** `w` is the shape after a new leaf has been hung below `parent` at in-order index `k`. */
  ghost predicate Attached(m: Shape, w: Shape, parent: Node, leaf: Node, k: nat, left: bool)
    requires parent in m
  {
    && leaf !in m && w.Keys == m.Keys + {leaf}
    && w[leaf] == Spot(parent, null, null, k, k, k + 1)
    && w[parent] == (if left then Shifted(m[parent], k, left).(left := leaf)
                     else Shifted(m[parent], k, left).(right := leaf))
    && (forall n: Node :: n in m && n != parent ==> w[n] == Shifted(m[n], k, left))
    && (if left then m[parent].left == null && m[parent].pos == k
        else m[parent].right == null && m[parent].pos + 1 == k)
  }

  ghost function Attach(m: Shape, parent: Node, leaf: Node, k: nat, left: bool): (w: Shape)
    requires parent in m && leaf !in m
    requires if left then m[parent].left == null && m[parent].pos == k
      else m[parent].right == null && m[parent].pos + 1 == k
    ensures Attached(m, w, parent, leaf, k, left)
  {
    (map n: Node | n in m.Keys + {leaf} ::
      if n == leaf then Spot(parent, null, null, k, k, k + 1)
      else if n != parent then Shifted(m[n], k, left)
      else if left then Shifted(m[n], k, left).(left := leaf)
      else Shifted(m[n], k, left).(right := leaf))
  }

  lemma AttachedParentOk(m: Shape, w: Shape, order: seq<Node>, order': seq<Node>, top: Node?, parent: Node,
                         leaf: Node, k: nat, left: bool)
    requires parent in m && Ok(m, order, top, parent)
    requires Attached(m, w, parent, leaf, k, left) && InsertedAt(order, order', k, leaf)
    ensures Ok(w, order', top, parent)
  {
  }

  lemma AttachedOtherOk(m: Shape, w: Shape, order: seq<Node>, order': seq<Node>, top: Node?, parent: Node,
                        leaf: Node, k: nat, left: bool, n: Node)
    requires parent in m && Ok(m, order, top, parent)
    requires Attached(m, w, parent, leaf, k, left) && InsertedAt(order, order', k, leaf)
    requires n in m && Ok(m, order, top, n) && n != parent
    ensures Ok(w, order', top, n)
  {
    var s := m[n];
    assert w[n] == Shifted(s, k, left);
    if left {
      assert s.pos != k;
    } else {
      assert s.pos + 1 != k;
    }
  }

  lemma AttachedAllOk(m: Shape, w: Shape, order: seq<Node>, order': seq<Node>, top: Node?, parent: Node, leaf: Node,
                      k: nat, left: bool)
    requires Linked(m, order, top) && parent in m
    requires Attached(m, w, parent, leaf, k, left) && InsertedAt(order, order', k, leaf)
    ensures forall n: Node {:trigger Ok(w, order', top, n)} :: n in w ==> Ok(w, order', top, n)
  {
    assert Ok(m, order, top, parent);
    assert Ok(w, order', top, leaf);
    AttachedParentOk(m, w, order, order', top, parent, leaf, k, left);
    forall n: Node | n in m && n != parent
      ensures Ok(w, order', top, n)
    {
      assert Ok(m, order, top, n);
      AttachedOtherOk(m, w, order, order', top, parent, leaf, k, left, n);
    }
  }

  /** Hanging a new leaf inserts it, and only it, into the in-order sequence. */
  lemma AttachedLinked(m: Shape, w: Shape, order: seq<Node>, order': seq<Node>, top: Node?, parent: Node, leaf: Node,
                       k: nat, left: bool)
    requires Linked(m, order, top) && parent in m
    requires Attached(m, w, parent, leaf, k, left) && InsertedAt(order, order', k, leaf)
    ensures Linked(w, order', top)
  {
    AttachedAllOk(m, w, order, order', top, parent, leaf, k, left);
    assert Ok(m, order, top, parent);
    assert top in m && w[top].lo == Shifted(m[top], k, left).lo && w[top].hi == Shifted(m[top], k, left).hi;
    forall i | 0 <= i < |order'|
      ensures order'[i] in w && w[order'[i]].pos == i
    {
      if i != k {
        var j := if i < k then i else i - 1;
        assert order'[i] == order[j] && order[j] in m && m[order[j]].pos == j;
      }
    }
  }

  // Detaching the root

  ghost predicate RemovedAt<T>(s: seq<T>, t: seq<T>, k: nat) {
    && k < |s| && |t| == |s| - 1
    && (forall i :: 0 <= i < k ==> t[i] == s[i])
    && (forall i :: k <= i < |t| ==> t[i] == s[i + 1])
  }

  ghost function Closed(s: Spot, k: nat, gap: nat): Spot {
    s.(lo := if s.lo <= k + gap then s.lo else s.lo - 1,
       pos := if s.pos <= k then s.pos else s.pos - 1,
       hi := if s.hi <= k then s.hi else s.hi - 1)
  }

  /** `w` is the shape after the root `node`, which has at most the child `r`, is replaced by it. */
  ghost predicate Promoted(m: Shape, w: Shape, node: Node, r: Node?)
    requires node in m
  {
    && w.Keys == m.Keys - {node}
    && (if m[node].left == null then r == m[node].right else m[node].right == null && r == m[node].left)
    && (forall n: Node :: n in w ==>
          w[n] == if n == r then Closed(m[n], m[node].pos, 0).(parent := null) else Closed(m[n], m[node].pos, 0))
  }

  lemma PromotedPlaced(m: Shape, w: Shape, order: seq<Node>, order': seq<Node>, node: Node, r: Node?, n: Node)
    requires Linked(m, order, node) && node in m && Promoted(m, w, node, r) && RemovedAt(order, order', m[node].pos)
    requires n in w
    ensures Placed(w, order', n)
  {
    assert Ok(m, order, node, node) && Ok(m, order, node, n);
    if m[n].left != null {
      assert Ok(m, order, node, m[n].left);
    }
    if m[n].right != null {
      assert Ok(m, order, node, m[n].right);
    }
  }

  lemma PromotedLinks(m: Shape, w: Shape, order: seq<Node>, order': seq<Node>, node: Node, r: Node?, n: Node)
    requires Linked(m, order, node) && node in m && Promoted(m, w, node, r) && RemovedAt(order, order', m[node].pos)
    requires n in w
    ensures Below(w, n) && Above(w, r, n)
  {
    assert Ok(m, order, node, node) && Ok(m, order, node, n);
    if r != null {
      assert Ok(m, order, node, r);
    }
    if m[n].left != null {
      assert Ok(m, order, node, m[n].left);
    }
    if m[n].right != null {
      assert Ok(m, order, node, m[n].right);
    }
  }

  lemma PromotedAllOk(m: Shape, w: Shape, order: seq<Node>, order': seq<Node>, node: Node, r: Node?)
    requires Linked(m, order, node) && node in m && Promoted(m, w, node, r) && RemovedAt(order, order', m[node].pos)
    ensures forall n: Node {:trigger Ok(w, order', r, n)} :: n in w ==> Ok(w, order', r, n)
  {
    forall n: Node | n in w
      ensures Ok(w, order', r, n)
    {
      PromotedPlaced(m, w, order, order', node, r, n);
      PromotedLinks(m, w, order, order', node, r, n);
    }
  }

  lemma RemovedPositions(m: Shape, w: Shape, order: seq<Node>, order': seq<Node>, top: Node?, node: Node)
    requires Linked(m, order, top) && node in m && w.Keys == m.Keys - {node} && RemovedAt(order, order', m[node].pos)
    requires forall n: Node :: n in w ==> w[n].pos == if m[n].pos <= m[node].pos then m[n].pos else m[n].pos - 1
    ensures forall i :: 0 <= i < |order'| ==> order'[i] in w && w[order'[i]].pos == i
  {
  }

  /** Replacing a root that has at most one child removes the root, and only it, from the order. */
  lemma PromotedLinked(m: Shape, w: Shape, order: seq<Node>, order': seq<Node>, node: Node, r: Node?)
    requires Linked(m, order, node) && node in m && Promoted(m, w, node, r) && RemovedAt(order, order', m[node].pos)
    ensures Linked(w, order', r)
  {
    PromotedAllOk(m, w, order, order', node, r);
    RemovedPositions(m, w, order, order', node, node);
    assert Ok(m, order, node, node);
    if r != null {
      assert Ok(m, order, node, r);
    }
  }

  /** The spot of another node once the root `node` is replaced by its in-order successor `x`. */
  ghost function SplicedSpot(m: Shape, node: Node, x: Node, n: Node): Spot
    requires node in m && x in m && n in m
  {
    var l, r, q, b := m[node].left, m[node].right, m[x].parent, m[x].right;
    Closed(m[n], m[node].pos, 1).(
      parent := if n == l || n == r then x else if n == b && q != node then q else m[n].parent,
      left := if n == q then b else m[n].left)
  }

  /** `w` is the shape after the root `node` is replaced by its in-order successor `x`. */
  ghost predicate Spliced(m: Shape, w: Shape, order: seq<Node>, node: Node, x: Node)
    requires node in m && x in m && order != []
  {
    var k, l, r, q, b := m[node].pos, m[node].left, m[node].right, m[x].parent, m[x].right;
    && l != null && r != null && x != node && m[x].lo == m[x].pos == k + 1
    && w.Keys == m.Keys - {node}
    && w[x] == Spot(null, l, if q == node then b else r, 0, k, |order| - 1)
    && (forall n: Node :: n in w && n != x ==> w[n] == SplicedSpot(m, node, x, n))
  }

  lemma SplicedRootOk(m: Shape, w: Shape, order: seq<Node>, order': seq<Node>, node: Node, x: Node)
    requires Linked(m, order, node) && node in m && x in m
    requires Spliced(m, w, order, node, x) && RemovedAt(order, order', m[node].pos)
    ensures Ok(w, order', x, x)
  {
    assert Ok(m, order, node, node) && Ok(m, order, node, x);
    assert Ok(m, order, node, m[node].left) && Ok(m, order, node, m[node].right);
    if m[x].right != null {
      assert Ok(m, order, node, m[x].right);
    }
  }

  /** The nodes on which the place of `n` depends, on their own. */
  lemma PlacedAfterSplice(m: Shape, w: Shape, order: seq<Node>, order': seq<Node>, node: Node, x: Node, q: Node,
                          n: Node)
    requires node in m && x in m && q in m && n in m && n in w && n != x && n != node && m[x].parent == q
    requires Ok(m, order, node, node) && Ok(m, order, node, x) && Ok(m, order, node, q) && Ok(m, order, node, n)
    requires m[n].left != null ==> m[n].left in m && Ok(m, order, node, m[n].left)
    requires m[n].right != null ==> m[n].right in m && Ok(m, order, node, m[n].right)
    requires m[x].lo == m[x].pos == m[node].pos + 1 && w[n] == SplicedSpot(m, node, x, n)
    requires RemovedAt(order, order', m[node].pos)
    ensures Placed(w, order', n)
  {
  }

  lemma SplicedPlaced(m: Shape, w: Shape, order: seq<Node>, order': seq<Node>, node: Node, x: Node, n: Node)
    requires Linked(m, order, node) && node in m && x in m
    requires Spliced(m, w, order, node, x) && RemovedAt(order, order', m[node].pos)
    requires n in w && n != x
    ensures Placed(w, order', n)
  {
    assert Ok(m, order, node, node) && Ok(m, order, node, x) && Ok(m, order, node, n);
    var q := m[x].parent;
    assert Ok(m, order, node, q);
    if m[n].left != null {
      assert Ok(m, order, node, m[n].left);
    }
    if m[n].right != null {
      assert Ok(m, order, node, m[n].right);
    }
    PlacedAfterSplice(m, w, order, order', node, x, q, n);
  }

  lemma SplicedBelow(m: Shape, w: Shape, order: seq<Node>, order': seq<Node>, node: Node, x: Node, n: Node)
    requires Linked(m, order, node) && node in m && x in m
    requires Spliced(m, w, order, node, x) && RemovedAt(order, order', m[node].pos)
    requires n in w && n != x
    ensures Below(w, n)
  {
    assert Ok(m, order, node, node) && Ok(m, order, node, x) && Ok(m, order, node, n);
    assert Ok(m, order, node, m[x].parent);
    if m[n].left != null {
      assert Ok(m, order, node, m[n].left);
    }
    if m[n].right != null {
      assert Ok(m, order, node, m[n].right);
    }
  }

  lemma SplicedAbove(m: Shape, w: Shape, order: seq<Node>, order': seq<Node>, node: Node, x: Node, n: Node)
    requires Linked(m, order, node) && node in m && x in m
    requires Spliced(m, w, order, node, x) && RemovedAt(order, order', m[node].pos)
    requires n in w && n != x
    ensures Above(w, x, n)
  {
    assert Ok(m, order, node, node) && Ok(m, order, node, x) && Ok(m, order, node, n);
    if m[n].parent != null {
      assert Ok(m, order, node, m[n].parent);
    }
    assert Ok(m, order, node, m[x].parent);
    if m[x].right != null {
      assert Ok(m, order, node, m[x].right);
    }
  }

  lemma SplicedAllOk(m: Shape, w: Shape, order: seq<Node>, order': seq<Node>, node: Node, x: Node)
    requires Linked(m, order, node) && node in m && x in m
    requires Spliced(m, w, order, node, x) && RemovedAt(order, order', m[node].pos)
    ensures forall n: Node {:trigger Ok(w, order', x, n)} :: n in w ==> Ok(w, order', x, n)
  {
    SplicedRootOk(m, w, order, order', node, x);
    forall n: Node | n in w && n != x
      ensures Ok(w, order', x, n)
    {
      SplicedPlaced(m, w, order, order', node, x, n);
      SplicedBelow(m, w, order, order', node, x, n);
      SplicedAbove(m, w, order, order', node, x, n);
    }
  }

  /** Replacing a root by its in-order successor removes the root, and only it, from the order. */
  lemma SplicedLinked(m: Shape, w: Shape, order: seq<Node>, order': seq<Node>, node: Node, x: Node)
    requires Linked(m, order, node) && node in m && x in m
    requires Spliced(m, w, order, node, x) && RemovedAt(order, order', m[node].pos)
    ensures Linked(w, order', x)
  {
    SplicedAllOk(m, w, order, order', node, x);
    assert Ok(m, order, node, x);
    RemovedPositions(m, w, order, order', node, node);
  }

  lemma Children(m: Shape, order: seq<Node>, top: Node?, n: Node)
    requires Linked(m, order, top) && n in m
    ensures Ok(m, order, top, n)
    ensures m[n].left != null ==> m[n].left in m && m[m[n].left].hi - m[m[n].left].lo < m[n].hi - m[n].lo
    ensures m[n].right != null ==> m[n].right in m && m[m[n].right].hi - m[m[n].right].lo < m[n].hi - m[n].lo
  {
  }

  /** The in-order walk that the pointers describe. */
  ghost function Walk(m: Shape, order: seq<Node>, top: Node?, n: Node?): seq<Node>
    requires Linked(m, order, top) && (n != null ==> n in m)
    decreases if n == null then 0 else m[n].hi - m[n].lo
  {
    if n == null then [] else
      Children(m, order, top, n);
      Walk(m, order, top, m[n].left) + [n] + Walk(m, order, top, m[n].right)
  }

  lemma SplitAround<T>(s: seq<T>, lo: nat, k: nat, hi: nat)
    requires lo <= k < hi <= |s|
    ensures s[lo..hi] == s[lo..k] + [s[k]] + s[k + 1..hi]
  {
  }

  /** Following the pointers visits exactly the interval recorded for the subtree. */
  lemma {:induction false} WalkIsInterval(m: Shape, order: seq<Node>, top: Node?, n: Node)
    requires Linked(m, order, top) && n in m
    ensures m[n].lo <= m[n].hi <= |order| && Walk(m, order, top, n) == order[m[n].lo..m[n].hi]
    decreases m[n].hi - m[n].lo
  {
    Children(m, order, top, n);
    var s := m[n];
    if s.left != null {
      WalkIsInterval(m, order, top, s.left);
    }
    if s.right != null {
      WalkIsInterval(m, order, top, s.right);
    }
    SplitAround(order, s.lo, s.pos, s.hi);
  }

  /** The whole walk is the in-order sequence. */
  lemma WalkIsOrder(m: Shape, order: seq<Node>, top: Node?)
    requires Linked(m, order, top)
    ensures Walk(m, order, top, top) == order
  {
    if top != null {
      WalkIsInterval(m, order, top, top);
    }
  }

  /** Hang a fresh node below `parent`. */
  method Hang(node: Node, parent: Node, left: bool, ghost m: Shape, ghost k: nat) returns (ghost w: Shape)
    requires Holds(m) && parent in m && node !in m && node.left == null && node.right == null
    requires if left then m[parent].left == null && m[parent].pos == k
      else m[parent].right == null && m[parent].pos + 1 == k
    modifies parent, node
    ensures Holds(w) && Attached(m, w, parent, node, k, left)
  {
    node.parent := parent;
    if left {
      parent.left := node;
    } else {
      parent.right := node;
    }
    w := Attach(m, parent, node, k, left);
  }

  lemma NullRootIsEmpty(m: Shape, order: seq<Node>)
    requires Linked(m, order, null)
    ensures m == map[] && order == []
  {
    if n: Node :| n in m {
      Children(m, order, null, n);
      assert false;
    }
  }

  lemma SingletonLinked(node: Node)
    ensures Linked(map[node := Spot(null, null, null, 0, 0, 1)], [node], node)
  {
  }

  /** Leftmost node of a subtree: the first one of its interval. */
  method Leftmost(start: Node?, ghost m: Shape, ghost order: seq<Node>, ghost top: Node?) returns (r: Node?)
    requires Holds(m) && Linked(m, order, top) && (start != null ==> start in m)
    ensures r == null <==> start == null
    ensures start != null ==> r in m && m[r].left == null && m[r].pos == m[r].lo == m[start].lo
  {
    r := null;
    var node := start;
    while node != null
      invariant node != null ==> node in m && start != null && m[node].lo == m[start].lo
      invariant r == null ==> node == start
      invariant r != null ==> start != null && r in m && m[r].lo == m[start].lo && node == m[r].left
      decreases if node == null then 0 else m[node].hi - m[node].lo
    {
      Children(m, order, top, node);
      r := node;
      node := node.left;
    }
    if r != null {
      Children(m, order, top, r);
    }
  }

  /** Rightmost node of a subtree: the last one of its interval. */
  method Rightmost(start: Node?, ghost m: Shape, ghost order: seq<Node>, ghost top: Node?) returns (r: Node?)
    requires Holds(m) && Linked(m, order, top) && (start != null ==> start in m)
    ensures r == null <==> start == null
    ensures start != null ==> r in m && m[r].right == null && m[r].pos + 1 == m[r].hi == m[start].hi
  {
    r := null;
    var node := start;
    while node != null
      invariant node != null ==> node in m && start != null && m[node].hi == m[start].hi
      invariant r == null ==> node == start
      invariant r != null ==> start != null && r in m && m[r].hi == m[start].hi && node == m[r].right
      decreases if node == null then 0 else m[node].hi - m[node].lo
    {
      Children(m, order, top, node);
      r := node;
      node := node.right;
    }
    if r != null {
      Children(m, order, top, r);
    }
  }

  /** The in-order successor of a node, found through the pointers alone. */
  method Next(node: Node, ghost m: Shape, ghost order: seq<Node>, ghost top: Node?) returns (r: Node?)
    requires Holds(m) && Linked(m, order, top) && node in m
    ensures m[node].pos < |order|
    ensures r == if m[node].pos + 1 < |order| then order[m[node].pos + 1] else null
  {
    Children(m, order, top, node);
    if node.right != null {
      r := Leftmost(node.right, m, order, top);
      Children(m, order, top, r);
      return;
    }
    var n := node;
    while n.parent != null && n == n.parent.right
      invariant n in m && m[n].hi == m[node].pos + 1
      decreases |order| - (m[n].hi - m[n].lo)
    {
      RotationGrows(m, order, top, n);
      Children(m, order, top, n.parent);
      n := n.parent;
    }
    Children(m, order, top, n);
    if n.parent != null {
      Children(m, order, top, n.parent);
    }
    r := n.parent;
  }

  ghost function Promote(m: Shape, node: Node, r: Node?): (w: Shape)
    requires node in m
    requires if m[node].left == null then r == m[node].right else m[node].right == null && r == m[node].left
    ensures Promoted(m, w, node, r)
  {
    map n: Node | n in m.Keys - {node} ::
      if n == r then Closed(m[n], m[node].pos, 0).(parent := null) else Closed(m[n], m[node].pos, 0)
  }

  ghost function Splice(m: Shape, order: seq<Node>, node: Node, x: Node): (w: Shape)
    requires node in m && x in m && order != [] && x != node
    requires m[node].left != null && m[node].right != null && m[x].lo == m[x].pos == m[node].pos + 1
    ensures Spliced(m, w, order, node, x)
  {
    var k, l, r, q, b := m[node].pos, m[node].left, m[node].right, m[x].parent, m[x].right;
    map n: Node | n in m.Keys - {node} ::
      if n == x then Spot(null, l, if q == node then b else r, 0, k, |order| - 1)
      else Closed(m[n], k, 1).(
             parent := if n == l || n == r then x else if n == b && q != node then q else m[n].parent,
             left := if n == q then b else m[n].left)
  }

  ghost predicate SpliceLocal(m: Shape, node: Node, x: Node) {
    && node in m && x in m && x != node && m[x].left == null && m[x].parent != null
    && m[node].left != null && m[node].right != null && m[x].lo == m[x].pos == m[node].pos + 1
    && m[node].left in m && m[node].right in m && m[x].parent in m && (m[x].right != null ==> m[x].right in m)
    && m[node].left !in {node, m[node].right, x, m[x].parent, m[x].right}
    && (m[x].parent != node ==> m[m[x].parent].left == x && x != m[node].right && m[node].right != m[x].right)
    && (m[x].parent == node ==> m[node].right == x)
    && (m[x].right != null ==> m[x].right !in {node, x, m[x].parent})
    && m[x].parent != x && m[node].right != node
  }

  lemma SpliceIsLocal(m: Shape, order: seq<Node>, node: Node, x: Node)
    requires Linked(m, order, node) && node in m && x in m && x != node
    requires m[node].left != null && m[node].right != null && m[x].lo == m[x].pos == m[node].pos + 1
    ensures SpliceLocal(m, node, x)
  {
    Children(m, order, node, node);
    Children(m, order, node, x);
    Children(m, order, node, m[node].left);
    Children(m, order, node, m[node].right);
    Children(m, order, node, m[x].parent);
    if m[x].right != null {
      Children(m, order, node, m[x].right);
    }
  }

  /** Unhook the successor `x` from its parent and give it the right subtree of `node`. */
  method Unhook(node: Node, x: Node, ghost m: Shape) returns (ghost w: Shape)
    requires Holds(m) && SpliceLocal(m, node, x) && m[x].parent != node
    modifies m.Keys
    ensures Holds(w) && w.Keys == m.Keys && w[x] == m[x].(right := m[node].right)
    ensures var r, q, b := m[node].right, m[x].parent, m[x].right;
      forall n: Node :: n in m && n != x ==>
        w[n] == m[n].(parent := if n == r then x else if n == b then q else m[n].parent,
                      left := if n == q then b else m[n].left)
  {
    ghost var r, q, b := node.right, x.parent, x.right;
    x.parent.left := x.right;
    w := m[q := m[q].(left := b)];
    if x.right != null {
      x.right.parent := x.parent;
      w := w[b := w[b].(parent := q)];
    }
    x.right := node.right;
    w := w[x := w[x].(right := r)];
    x.right.parent := x;
    w := w[r := w[r].(parent := x)];
  }

  /** Make `x` the root, above the left subtree of `node`. */
  method Crown(node: Node, x: Node, ghost m: Shape) returns (ghost w: Shape)
    requires Holds(m) && node in m && x in m && x != node
    requires m[node].left != null && m[node].left in m && m[node].left != x
    modifies m.Keys
    ensures Holds(w) && w.Keys == m.Keys && w[x] == m[x].(parent := null, left := m[node].left)
    ensures forall n: Node :: n in m && n != x ==> w[n] == if n == m[node].left then m[n].(parent := x) else m[n]
  {
    x.parent := null;
    x.left := node.left;
    x.left.parent := x;
    w := m[x := m[x].(parent := null, left := m[node].left)];
    w := w[m[node].left := w[m[node].left].(parent := x)];
  }

  lemma SplicePointers(m: Shape, h: Shape, order: seq<Node>, node: Node, x: Node, n: Node)
    requires SpliceLocal(m, node, x) && order != [] && n in m && n != node && n != x
    requires h.Keys == m.Keys
    requires var l, r, q, b := m[node].left, m[node].right, m[x].parent, m[x].right;
      && h[n].right == m[n].right
      && h[n].parent == (if n == l then x else if q != node && n == r then x else if q != node && n == b then q
                         else m[n].parent)
      && h[n].left == (if q != node && n == q then b else m[n].left)
    ensures var s := Splice(m, order, node, x)[n];
      s.parent == h[n].parent && s.left == h[n].left && s.right == h[n].right
  {
  }

  /** Put the in-order successor `x` in the place of the root `node`. */
  method SpliceOut(node: Node, x: Node, ghost m: Shape, ghost order: seq<Node>) returns (ghost w: Shape)
    requires Holds(m) && SpliceLocal(m, node, x) && order != []
    modifies m.Keys
    ensures Holds(w) && Spliced(m, w, order, node, x)
  {
    ghost var h := m;
    if x.parent != node {
      h := Unhook(node, x, m);
    }
    h := Crown(node, x, h);
    w := Splice(m, order, node, x);
    forall n: Node | n in w
      ensures n.parent == w[n].parent && n.left == w[n].left && n.right == w[n].right
    {
      assert n in h && n.parent == h[n].parent && n.left == h[n].left && n.right == h[n].right;
      if n != x {
        SplicePointers(m, h, order, node, x, n);
      }
    }
  }

  class Tree {
    var root: Node?
    var size: int
    const comp: Comparator
    ghost var shape: Shape
    ghost var order: seq<Node>
    ghost var vals: seq<Value>

    constructor (comp: Comparator)
      requires TotalPreorder(comp)
      ensures Valid() && this.comp == comp && vals == [] && fresh(shape.Keys)
    {
      this.comp := comp;
      root := null;
      size := 0;
      shape, order, vals := map[], [], [];
    }

    /** The pointers form one tree whose in-order values are `vals`; `top` is its real root. */
    ghost predicate Rooted(top: Node?)
      reads this`shape, this`order, this`vals, shape.Keys
    {
      && Holds(shape) && Linked(shape, order, top)
      && Labelled(order, vals)
    }

    ghost predicate Valid()
      reads this, shape.Keys
    {
      && TotalPreorder(comp) && Sorted(comp, vals)
      && Rooted(root) && size == |order|
    }

    /** Bring `x` to the root; the in-order sequence does not change. */
    method Splay(x: Node, ghost top: Node?)
      requires Rooted(top) && x in shape
      modifies this`root, this`shape, shape.Keys
      ensures Rooted(x) && root == x && shape.Keys == old(shape.Keys)
    {
      ghost var t := top;
      Children(shape, order, t, x);
      while x.parent != null
        invariant shape.Keys == old(shape.Keys) && Rooted(t)
        invariant shape[x].hi - shape[x].lo <= |order|
        decreases |order| - (shape[x].hi - shape[x].lo)
      {
        shape, t := SplayStep(x, shape, order, t);
      }
      Children(shape, order, t, x);
      root := x;
    }

    /** Follow the search path of `v` to the empty link where it belongs. */
    method Descend(v: Value) returns (parent: Node, left: bool, ghost k: nat)
      requires Valid() && root != null
      ensures parent in shape && k <= |vals|
      ensures if left then shape[parent].left == null && shape[parent].pos == k
              else shape[parent].right == null && shape[parent].pos + 1 == k
      ensures forall i :: 0 <= i < k ==> Compare(comp, v, vals[i]) >= 0
      ensures forall i :: k <= i < |vals| ==> Compare(comp, v, vals[i]) < 0
    {
      var curr: Node? := root;
      parent, left := root, false;
      ghost var lo, hi := 0, |vals|;
      while curr != null
        invariant 0 <= lo <= hi <= |vals|
        invariant curr != null ==> curr in shape && shape[curr].lo == lo && shape[curr].hi == hi
        invariant parent in shape
        invariant curr == null ==> lo == hi
        invariant curr == null && left ==> shape[parent].left == null && shape[parent].pos == lo
        invariant curr == null && !left ==> shape[parent].right == null && shape[parent].pos + 1 == lo
        invariant forall i :: 0 <= i < lo ==> Compare(comp, v, vals[i]) >= 0
        invariant forall i :: hi <= i < |vals| ==> Compare(comp, v, vals[i]) < 0
        decreases hi - lo, curr != null
      {
        Children(shape, order, root, curr);
        parent := curr;
        ghost var p := shape[curr].pos;
        assert curr.value == vals[p] by { assert order[p] == curr; }
        if Compare(comp, v, curr.value) < 0 {
          AfterGreater(comp, vals, v, p);
          left := true;
          hi := p;
          curr := curr.left;
        } else {
          BeforeSmaller(comp, vals, v, p);
          left := false;
          lo := p + 1;
          curr := curr.right;
        }
      }
      k := lo;
    }

    /** The new node becomes the root of an empty tree. */
    method LinkFirst(node: Node)
      requires Valid() && root == null && node !in shape && node.left == null
      requires node.right == null && node.parent == null
      modifies this`root, this`shape, this`order, this`vals
      ensures Rooted(root) && shape.Keys == old(shape.Keys) + {node}
      ensures var k := UpperBound(comp, old(vals), node.value);
        && vals == Inserted(old(vals), k, node.value) && order == Inserted(old(order), k, node)
      ensures Sorted(comp, vals)
    {
      NullRootIsEmpty(shape, order);
      root := node;
      shape := map[node := Spot(null, null, null, 0, 0, 1)];
      SingletonLinked(node);
      order, vals := [node], [node.value];
    }

    /** Hang the new node where its value belongs in a tree that is not empty. */
    method LinkBelow(node: Node)
      requires Valid() && root != null && node !in shape && node.left == null && node.right == null
      modifies this`shape, this`order, this`vals, shape.Keys, node
      ensures Rooted(root) && shape.Keys == old(shape.Keys) + {node}
      ensures var k := UpperBound(comp, old(vals), node.value);
        && vals == Inserted(old(vals), k, node.value) && order == Inserted(old(order), k, node)
      ensures Sorted(comp, vals)
    {
      var parent, left;
      ghost var k;
      parent, left, k := Descend(node.value);
      LabelledInserted(order, vals, k, node);
      UpperBoundSorted(comp, vals, node.value, k);
      ghost var m := shape;
      shape := Hang(node, parent, left, m, k);
      AttachedLinked(m, shape, order, Inserted(order, k, node), root, parent, node, k, left);
      order, vals := Inserted(order, k, node), Inserted(vals, k, node.value);
    }

    /** Link a new node for a value after every value that is not greater. */
    method Place(v: Value) returns (node: Node)
      requires Valid()
      modifies this`root, this`shape, this`order, this`vals, shape.Keys
      ensures Rooted(root) && Sorted(comp, vals) && node.value == v
      ensures fresh(node) && shape.Keys == old(shape.Keys) + {node}
      ensures vals == Inserted(old(vals), UpperBound(comp, old(vals), v), v)
      ensures order == Inserted(old(order), UpperBound(comp, old(vals), v), node)
    {
      node := new Node(v);
      if root == null {
        LinkFirst(node);
      } else {
        LinkBelow(node);
      }
    }

    /** Insert a value after every value that is not greater, and splay the new node. */
    method Insert(v: Value) returns (node: Node)
      requires Valid()
      modifies this, shape.Keys
      ensures Valid() && root == node && node.value == v
      ensures fresh(node) && shape.Keys == old(shape.Keys) + {node}
      ensures vals == Inserted(old(vals), UpperBound(comp, old(vals), v), v)
      ensures order == Inserted(old(order), UpperBound(comp, old(vals), v), node)
    {
      hide Rooted;
      hide Sorted;
      hide TotalPreorder;
      hide UpperBound;
      node := Place(v);
      Splay(node, root);
      size := size + 1;
    }

    /** The search loop of a lookup. */
    method Search(v: Value) returns (curr: Node?)
      requires Valid()
      ensures curr == null <==> forall i :: 0 <= i < |vals| ==> Compare(comp, v, vals[i]) != 0
      ensures curr != null ==> curr in shape && Compare(comp, v, curr.value) == 0
    {
      curr := root;
      var found := false;
      ghost var lo, hi := 0, |vals|;
      while curr != null && !found
        invariant 0 <= lo <= hi <= |vals|
        invariant curr != null ==> curr in shape && shape[curr].lo == lo && shape[curr].hi == hi
        invariant curr == null ==> lo == hi && !found
        invariant found ==> curr != null && Compare(comp, v, curr.value) == 0
        invariant forall i :: 0 <= i < lo ==> Compare(comp, v, vals[i]) > 0
        invariant forall i :: hi <= i < |vals| ==> Compare(comp, v, vals[i]) < 0
        decreases hi - lo, curr != null, !found
      {
        Children(shape, order, root, curr);
        ghost var p := shape[curr].pos;
        assert curr.value == vals[p] by { assert order[p] == curr; }
        var relation := Compare(comp, v, curr.value);
        if relation == 0 {
          found := true;
        } else if relation < 0 {
          AfterGreater(comp, vals, v, p);
          hi := p;
          curr := curr.left;
        } else {
          BeforeStrictlySmaller(comp, vals, v, p);
          lo := p + 1;
          curr := curr.right;
        }
      }
      if curr != null {
        Children(shape, order, root, curr);
        assert curr.value == vals[shape[curr].pos] by { assert order[shape[curr].pos] == curr; }
      }
    }

    /** Find a value; the node found is brought to the root. */
    method Find(v: Value) returns (r: Node?)
      requires Valid()
      modifies this`root, this`shape, shape.Keys
      ensures Valid() && shape.Keys == old(shape.Keys)
      ensures r == null <==> forall i :: 0 <= i < |vals| ==> Compare(comp, v, vals[i]) != 0
      ensures r != null ==> r in shape && r == root && Compare(comp, v, r.value) == 0
    {
      r := Search(v);
      if r != null {
        Splay(r, root);
      }
    }

    /** Take the root out when it has at most one child. */
    method PromoteChild(node: Node)
      requires Rooted(node) && node in shape && (node.left == null || node.right == null)
      modifies this`root, this`shape, shape.Keys
      ensures shape.Keys == old(shape.Keys) - {node} && Holds(shape)
      ensures old(shape[node].pos) < |order| && Linked(shape, Removed(order, old(shape[node].pos)), root)
    {
      Children(shape, order, node, node);
      ghost var m := shape;
      LabelledRemoved(order, vals, m[node].pos);
      if node.left == null {
        root := node.right;
        if root != null {
          root.parent := null;
        }
      } else {
        root := node.left;
        root.parent := null;
      }
      shape := Promote(m, node, root);
      PromotedLinked(m, shape, order, Removed(order, m[node].pos), node, root);
    }

    /** Take the root out when it has two children. */
    method PromoteSuccessor(node: Node)
      requires Rooted(node) && node in shape && node.left != null && node.right != null
      modifies this`root, this`shape, shape.Keys
      ensures shape.Keys == old(shape.Keys) - {node} && Holds(shape)
      ensures old(shape[node].pos) < |order| && Linked(shape, Removed(order, old(shape[node].pos)), root)
    {
      Children(shape, order, node, node);
      ghost var m := shape;
      LabelledRemoved(order, vals, m[node].pos);
      var x := Leftmost(node.right, m, order, node);
      SpliceIsLocal(m, order, node, x);
      shape := SpliceOut(node, x, m, order);
      root := x;
      SplicedLinked(m, shape, order, Removed(order, m[node].pos), node, x);
    }

    method DeleteRoot(node: Node)
      requires Valid() && root == node && node in shape
      modifies this, shape.Keys
      ensures Valid() && shape.Keys == old(shape.Keys) - {node}
      ensures var k := old(shape[node].pos);
        && k < |old(vals)| == |old(order)| && vals == Removed(old(vals), k) && order == Removed(old(order), k)
    {
      ghost var k := shape[node].pos;
      Children(shape, order, root, node);
      LabelledRemoved(order, vals, k);
      RemovedSorted(comp, vals, k);
      if node.left == null || node.right == null {
        PromoteChild(node);
      } else {
        PromoteSuccessor(node);
      }
      order, vals := Removed(order, k), Removed(vals, k);
      size := size - 1;
    }

    /** Remove a node of the tree, given by its pointer. */
    method DeleteHint(node: Node?)
      requires Valid() && (node != null ==> node in shape)
      modifies this, shape.Keys
      ensures Valid()
      ensures node == null ==> vals == old(vals) && order == old(order) && shape.Keys == old(shape.Keys)
      ensures node != null ==>
        old(shape[node].pos) < |old(vals)| == |old(order)| && shape.Keys == old(shape.Keys) - {node}
      ensures node != null ==>
        vals == Removed(old(vals), old(shape[node].pos)) && order == Removed(old(order), old(shape[node].pos))
      ensures node != null ==> old(order[shape[node].pos]) == node
    {
      if node == null {
        return;
      }
      Children(shape, order, root, node);
      ghost var k := shape[node].pos;
      Splay(node, root);
      assert shape[order[k]].pos == k;
      DeleteRoot(node);
    }

    /** Remove one node whose value compares equal, if there is one. */
    method Delete(v: Value)
      requires Valid()
      modifies this, shape.Keys
      ensures Valid() && shape.Keys <= old(shape.Keys)
      ensures (forall i :: 0 <= i < |old(vals)| ==> Compare(comp, v, old(vals)[i]) != 0) ==> vals == old(vals)
      ensures (exists i :: 0 <= i < |old(vals)| && Compare(comp, v, old(vals)[i]) == 0) ==>
        exists k :: 0 <= k < |old(vals)| && Compare(comp, v, old(vals)[k]) == 0 && vals == Removed(old(vals), k)
    {
      var node := Find(v);
      if node != null {
        Children(shape, order, root, node);
        ghost var k := shape[node].pos;
        assert order[k] == node && vals[k] == node.value;
        DeleteHint(node);
        assert Compare(comp, v, old(vals)[k]) == 0 && vals == Removed(old(vals), k);
      } else {
        DeleteHint(node);
      }
    }

    /** Delete the root until nothing is left. */
    method EmptyTree()
      requires Valid()
      modifies this, shape.Keys
      ensures Valid() && root == null && vals == [] && size == 0
    {
      while root != null
        invariant Valid() && shape.Keys <= old(shape.Keys)
        decreases |vals|
      {
        DeleteHint(root);
      }
    }

    method First() returns (r: Node?)
      requires Valid()
      ensures r == if order == [] then null else order[0]
    {
      r := Leftmost(root, shape, order, root);
      if r != null {
        Children(shape, order, root, r);
      }
    }

    method Last() returns (r: Node?)
      requires Valid()
      ensures r == if order == [] then null else order[|order| - 1]
    {
      r := Rightmost(root, shape, order, root);
      if r != null {
        Children(shape, order, root, r);
      }
    }
  }

  // Whole runs

  datatype Op = Insert(value: Value) | Find(value: Value) | Delete(value: Value)

  /** How many values compare equal to `v`. */
  ghost function Count(comp: Comparator, vals: seq<Value>, v: Value): nat {
    if vals == [] then 0 else (if Compare(comp, v, vals[0]) == 0 then 1 else 0) + Count(comp, vals[1..], v)
  }

  /** What one operation does to the number of values equal to `v` in a bag. */
  ghost function Stepped(comp: Comparator, op: Op, before: nat, v: Value): nat {
    match op
    case Insert(w) => if Compare(comp, v, w) == 0 then before + 1 else before
    case Find(_) => before
    case Delete(w) => if Compare(comp, v, w) == 0 && before > 0 then before - 1 else before
  }

  /** How many values equal to `v` a bag holds after the operations, on its own terms. */
  ghost function Expected(comp: Comparator, ops: seq<Op>, v: Value): nat {
    if ops == [] then 0 else Stepped(comp, ops[|ops| - 1], Expected(comp, ops[..|ops| - 1], v), v)
  }

  lemma {:induction false} CountSplit(comp: Comparator, a: seq<Value>, b: seq<Value>, v: Value)
    ensures Count(comp, a + b, v) == Count(comp, a, v) + Count(comp, b, v)
  {
    if a == [] {
      assert a + b == b;
    } else {
      assert (a + b)[1..] == a[1..] + b;
      CountSplit(comp, a[1..], b, v);
    }
  }

  lemma CountInserted(comp: Comparator, vals: seq<Value>, k: nat, w: Value, v: Value)
    requires k <= |vals|
    ensures Count(comp, Inserted(vals, k, w), v) == Count(comp, vals, v) + if Compare(comp, v, w) == 0 then 1 else 0
  {
    CountSplit(comp, vals[..k] + [w], vals[k..], v);
    CountSplit(comp, vals[..k], [w], v);
    CountSplit(comp, vals[..k], vals[k..], v);
    assert vals[..k] + vals[k..] == vals;
    assert Count(comp, [w], v) == (if Compare(comp, v, w) == 0 then 1 else 0) + Count(comp, [], v);
  }

  lemma CountRemoved(comp: Comparator, vals: seq<Value>, k: nat, v: Value)
    requires k < |vals|
    ensures Count(comp, vals, v) == Count(comp, Removed(vals, k), v) + if Compare(comp, v, vals[k]) == 0 then 1 else 0
  {
    assert Inserted(Removed(vals, k), k, vals[k]) == vals;
    CountInserted(comp, Removed(vals, k), k, vals[k], v);
  }

  lemma {:induction false} CountZero(comp: Comparator, vals: seq<Value>, v: Value)
    requires forall i :: 0 <= i < |vals| ==> Compare(comp, v, vals[i]) != 0
    ensures Count(comp, vals, v) == 0
  {
    if vals != [] {
      CountZero(comp, vals[1..], v);
    }
  }

  /** One deletion by value moves the bag as `Expected` says, whichever equal node was picked. */
  lemma DeletionCounts(comp: Comparator, vals: seq<Value>, vals': seq<Value>, w: Value, v: Value)
    requires TotalPreorder(comp)
    requires (forall i :: 0 <= i < |vals| ==> Compare(comp, w, vals[i]) != 0) ==> vals' == vals
    requires (exists i :: 0 <= i < |vals| && Compare(comp, w, vals[i]) == 0) ==>
      exists k :: 0 <= k < |vals| && Compare(comp, w, vals[k]) == 0 && vals' == Removed(vals, k)
    ensures Count(comp, vals', v) == Stepped(comp, Delete(w), Count(comp, vals, v), v)
  {
    if i :| 0 <= i < |vals| && Compare(comp, w, vals[i]) == 0 {
      var k :| 0 <= k < |vals| && Compare(comp, w, vals[k]) == 0 && vals' == Removed(vals, k);
      CountRemoved(comp, vals, k, v);
      assert Compare(comp, v, w) == 0 <==> Compare(comp, v, vals[k]) == 0;
    } else if Compare(comp, v, w) == 0 {
      forall i | 0 <= i < |vals|
        ensures Compare(comp, v, vals[i]) != 0
      {
        assert Compare(comp, w, vals[i]) != 0;
      }
      CountZero(comp, vals, v);
    }
  }

  method Apply(tree: Tree, op: Op)
    requires tree.Valid()
    modifies tree, tree.shape.Keys
    ensures tree.Valid() && fresh(tree.shape.Keys - old(tree.shape.Keys))
    ensures forall v :: Count(tree.comp, tree.vals, v) == Stepped(tree.comp, op, Count(tree.comp, old(tree.vals), v), v)
  {
    ghost var before := tree.vals;
    match op {
      case Insert(w) =>
        var _ := tree.Insert(w);
        forall v ensures Count(tree.comp, tree.vals, v) == Stepped(tree.comp, op, Count(tree.comp, before, v), v) {
          CountInserted(tree.comp, before, UpperBound(tree.comp, before, w), w, v);
        }
      case Find(w) =>
        var _ := tree.Find(w);
      case Delete(w) =>
        tree.Delete(w);
        forall v ensures Count(tree.comp, tree.vals, v) == Stepped(tree.comp, op, Count(tree.comp, before, v), v) {
          DeletionCounts(tree.comp, before, tree.vals, w, v);
        }
    }
  }

  /** Any sequence of operations leaves a sorted tree that holds exactly the expected bag. */
  method Run(comp: Comparator, ops: seq<Op>) returns (tree: Tree)
    requires TotalPreorder(comp)
    ensures fresh(tree) && tree.Valid() && tree.comp == comp
    ensures forall v :: Count(comp, tree.vals, v) == Expected(comp, ops, v)
  {
    tree := new Tree(comp);
    for i := 0 to |ops|
      invariant fresh(tree) && fresh(tree.shape.Keys) && tree.Valid() && tree.comp == comp
      invariant forall v :: Count(comp, tree.vals, v) == Expected(comp, ops[..i], v)
    {
      assert ops[..i + 1][..i] == ops[..i];
      Apply(tree, ops[i]);
    }
    assert ops[..|ops|] == ops;
  }
}

/** `__findNode__`, the search loop of MAVLTree: what it returns on any tree, and how long it
    takes on a tree of the height-balanced shape the class is named for. */
module SearchTree {

  datatype Tree<T> = Leaf | Fork(left: Tree<T>, ele: T, right: Tree<T>)

  function Height<T>(t: Tree<T>): (h: nat) {
    match t
    case Leaf => 0
    case Fork(l, _, r) => 1 + if Height(l) < Height(r) then Height(r) else Height(l)
  }

  function Size<T>(t: Tree<T>): (n: nat) {
    match t
    case Leaf => 0
    case Fork(l, _, r) => Size(l) + 1 + Size(r)
  }

  function Elements<T>(t: Tree<T>): (elements: set<T>) {
    match t
    case Leaf => {}
    case Fork(l, e, r) => Elements(l) + {e} + Elements(r)
  }

  /** `gt` is the element type's operator>. */
  ghost predicate Asymmetric<T(!new)>(gt: (T, T) -> bool) {
    forall a, b :: gt(a, b) ==> !gt(b, a)
  }

  ghost predicate Ordered<T(!new)>(t: Tree<T>, gt: (T, T) -> bool) {
    match t
    case Leaf => true
    case Fork(l, e, r) =>
      && Ordered(l, gt) && Ordered(r, gt)
      && (forall x :: x in Elements(l) ==> gt(e, x))
      && (forall x :: x in Elements(r) ==> gt(x, e))
  }

  ghost predicate Balanced<T>(t: Tree<T>) {
    match t
    case Leaf => true
    case Fork(l, _, r) => Balanced(l) && Balanced(r) && -1 <= Height(l) as int - Height(r) <= 1
  }

  /** An ordered tree holds as many distinct elements as it has nodes. */
  lemma {:induction false} OrderedHasNoDuplicates<T(!new)>(t: Tree<T>, gt: (T, T) -> bool)
    requires Ordered(t, gt) && Asymmetric(gt)
    ensures |Elements(t)| == Size(t)
  {
    match t
    case Leaf =>
    case Fork(l, e, r) =>
      OrderedHasNoDuplicates(l, gt);
      OrderedHasNoDuplicates(r, gt);
      assert e !in Elements(l) && e !in Elements(r);
      assert Elements(l) !! Elements(r);
      assert |Elements(l) + {e}| == |Elements(l)| + 1;
  }

  // ------------------------------------------------------------------ the path of a search

  /** The subtrees a search goes through, the tree itself first. */
  function Path<T(==)>(t: Tree<T>, ele: T, gt: (T, T) -> bool): (path: seq<Tree<T>>)
    ensures |path| <= Height(t)
  {
    match t
    case Leaf => []
    case Fork(l, e, r) =>
      if ele == e then [t]
      else if gt(ele, e) then [t] + Path(r, ele, gt)
      else [t] + Path(l, ele, gt)
  }

  // ------------------------------------------------------------------ balance and height

  function Fib(n: nat): (f: nat) {
    if n < 2 then n else Fib(n - 2) + Fib(n - 1)
  }

  function Pow2(n: nat): (p: nat) {
    if n == 0 then 1 else 2 * Pow2(n - 1)
  }

  /** The integer part of the base-2 logarithm. */
  function Log2(n: nat): (k: nat)
    requires n > 0
    ensures Pow2(k) <= n < Pow2(k + 1)
  {
    if n == 1 then 0 else Log2(n / 2) + 1
  }

  lemma {:induction false} FibGrows(a: nat, b: nat)
    requires a <= b
    ensures Fib(a) <= Fib(b)
    decreases b
  {
    if a == b {
    } else {
      FibGrows(a, b - 1);
      assert b >= 2 ==> Fib(b) == Fib(b - 2) + Fib(b - 1);
    }
  }

  /** A balanced tree of height h has at least Fib(h + 2) - 1 nodes. */
  lemma {:induction false} BalancedIsLarge<T>(t: Tree<T>)
    requires Balanced(t)
    ensures Size(t) + 1 >= Fib(Height(t) + 2)
  {
    match t
    case Leaf =>
    case Fork(l, _, r) =>
      BalancedIsLarge(l);
      BalancedIsLarge(r);
      var h := Height(t);
      assert Fib(h + 2) == Fib(h) + Fib(h + 1);
      FibGrows(h, Height(l) + 2);
      FibGrows(h, Height(r) + 2);
  }

  lemma {:induction false} FibExponential(h: nat)
    ensures Fib(h + 2) >= Pow2(h / 2)
  {
    if h < 2 {
    } else {
      FibExponential(h - 2);
      FibGrows(h, h + 1);
      assert h / 2 == (h - 2) / 2 + 1;
    }
  }

  lemma {:induction false} Pow2Grows(a: nat, b: nat)
    ensures a <= b <==> Pow2(a) <= Pow2(b)
    decreases a
  {
    if a == 0 {
      Pow2Positive(b);
      if b > 0 {
        Pow2Positive(b - 1);
      }
    } else {
      Pow2Grows(a - 1, if b == 0 then 0 else b - 1);
    }
  }

  lemma {:induction false} Pow2Positive(n: nat)
    ensures Pow2(n) >= 1
  {
    if n == 0 {
    } else {
      Pow2Positive(n - 1);
    }
  }

  /** The number of turns that 2 * log2(n + 1) + 1 allows for n nodes. */
  function TurnBound(n: nat): (bound: nat) {
    2 * Log2(n + 1) + 1
  }

  lemma LogBound(h: nat, n: nat)
    requires Fib(h + 2) <= n + 1
    ensures h <= TurnBound(n)
  {
    var k := Log2(n + 1);
    FibExponential(h);
    Pow2Grows(k + 1, h / 2);
    assert h / 2 <= k;
  }

  /** The search of any balanced tree of n nodes takes at most 2 * log2(n + 1) + 1 turns. */
  lemma SearchIsLogarithmic<T>(t: Tree<T>, ele: T, gt: (T, T) -> bool)
    requires Balanced(t)
    ensures |Path(t, ele, gt)| <= Height(t) <= TurnBound(Size(t))
  {
    BalancedIsLarge(t);
    LogBound(Height(t), Size(t));
  }

  predicate Greater(a: int, b: int) {
    a > b
  }

  /** The sparsest balanced tree of height h over the integers from `base` on. */
  function Sparse(h: nat, base: int): (t: Tree<int>)
    decreases h
  {
    if h == 0 then Leaf
    else if h == 1 then Fork(Leaf, base, Leaf)
    else
      var l := Sparse(h - 1, base);
      Fork(l, base + Size(l), Sparse(h - 2, base + Size(l) + 1))
  }

  lemma {:induction false} SparseShape(h: nat, base: int)
    ensures var t := Sparse(h, base); Balanced(t) && Height(t) == h && Size(t) + 1 == Fib(h + 2)
    decreases h
  {
    if h < 2 {
      assert Fib(2) == Fib(0) + Fib(1) && Fib(3) == Fib(1) + Fib(2);
    } else {
      var l := Sparse(h - 1, base);
      var r := Sparse(h - 2, base + Size(l) + 1);
      SparseShape(h - 1, base);
      SparseShape(h - 2, base + Size(l) + 1);
      assert Sparse(h, base) == Fork(l, base + Size(l), r);
      assert Fib(h + 2) == Fib(h) + Fib(h + 1);
    }
  }

  lemma {:induction false} SparseOrdered(h: nat, base: int)
    ensures var t := Sparse(h, base);
            Ordered(t, Greater) && forall x :: x in Elements(t) ==> base <= x < base + Size(t)
    decreases h
  {
    if h < 2 {
    } else {
      var l := Sparse(h - 1, base);
      SparseOrdered(h - 1, base);
      SparseOrdered(h - 2, base + Size(l) + 1);
    }
  }

  lemma {:induction false} SparsePath(h: nat, base: int)
    ensures |Path(Sparse(h, base), base, Greater)| == h
    decreases h
  {
    if h < 2 {
    } else {
      SparsePath(h - 1, base);
      SparseShape(h - 1, base);
      FibGrows(2, h + 1);
    }
  }

  /** The bound on the nodes is met, and the height is really spent: for every h some ordered,
      balanced tree of exactly Fib(h + 2) - 1 nodes has a key that takes h turns to find. */
  lemma BoundIsMet(h: nat)
    ensures exists t: Tree<int>, key: int ::
              && Balanced(t) && Ordered(t, Greater) && Height(t) == h && Size(t) + 1 == Fib(h + 2)
              && |Path(t, key, Greater)| == h
  {
    SparseShape(h, 0);
    SparseOrdered(h, 0);
    SparsePath(h, 0);
  }

  // ------------------------------------------------------------------ the linked tree

  class MAVLTreeNode<T(==)> {
    var ele: T
    var left: MAVLTreeNode?<T>
    var right: MAVLTreeNode?<T>
    ghost var shape: Tree<T>
    ghost var repr: set<MAVLTreeNode<T>>

    ghost predicate Valid()
      reads this, repr
      decreases repr
    {
      && this in repr
      && shape.Fork? && shape.ele == ele
      && (left == null ==> shape.left == Leaf)
      && (left != null ==>
            left in repr && left.repr <= repr - {this} && left.Valid() && shape.left == left.shape)
      && (right == null ==> shape.right == Leaf)
      && (right != null ==>
            right in repr && right.repr <= repr - {this} && right.Valid() && shape.right == right.shape)
    }

    constructor (ele: T, left: MAVLTreeNode?<T>, right: MAVLTreeNode?<T>)
      requires left != null ==> left.Valid()
      requires right != null ==> right.Valid()
      ensures Valid()
      ensures shape == Fork(if left == null then Leaf else left.shape, ele, if right == null then Leaf else right.shape)
    {
      this.ele := ele;
      this.left := left;
      this.right := right;
      shape := Fork(if left == null then Leaf else left.shape, ele, if right == null then Leaf else right.shape);
      repr := {this} + (if left == null then {} else left.repr) + (if right == null then {} else right.repr);
    }
  }

  class MAVLTree<T(==, !new)> {
    var root: MAVLTreeNode?<T>

    ghost predicate Valid()
      reads this, root, if root == null then {} else root.repr
    {
      root != null ==> root.Valid()
    }

    ghost function Shape(): Tree<T>
      reads this, root
    {
      if root == null then Leaf else root.shape
    }

    constructor (root: MAVLTreeNode?<T>)
      requires root != null ==> root.Valid()
      ensures this.root == root && Valid()
    {
      this.root := root;
    }

    /** The search.  On every tree: a node found is a node of the tree and holds the key, and the
        loop turns once per subtree of the path.  On an ordered tree: null exactly when the tree
        does not hold the key. */
    method FindNode(ele: T, gt: (T, T) -> bool) returns (x: MAVLTreeNode?<T>, ghost turns: nat)
      requires Valid()
      ensures x != null ==> root != null && x in root.repr && x.ele == ele && ele in Elements(Shape())
      ensures Ordered(Shape(), gt) && Asymmetric(gt) ==> (x != null <==> ele in Elements(Shape()))
      ensures turns == |Path(Shape(), ele, gt)| <= Height(Shape())
      ensures Balanced(Shape()) ==> turns <= TurnBound(Size(Shape()))
    {
      if Balanced(Shape()) {
        SearchIsLogarithmic(Shape(), ele, gt);
      }
      x := root;
      turns := 0;
      ghost var sub := Shape();
      while x != null
        invariant x == null ==> sub == Leaf
        invariant x != null ==> root != null && x in root.repr && x.repr <= root.repr && x.Valid() && x.shape == sub
        invariant Elements(sub) <= Elements(Shape())
        invariant turns + |Path(sub, ele, gt)| == |Path(Shape(), ele, gt)|
        invariant Ordered(Shape(), gt) ==> Ordered(sub, gt)
        invariant Ordered(Shape(), gt) && Asymmetric(gt) ==> (ele in Elements(Shape()) <==> ele in Elements(sub))
        decreases sub
      {
        turns := turns + 1;
        var xEle := x.ele;
        if ele == xEle {
          return;
        } else if gt(ele, xEle) {
          x := x.right;
          sub := sub.right;
        } else {
          x := x.left;
          sub := sub.left;
        }
      }
    }
  }
}

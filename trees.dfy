/** The built-in binary tree types (crates/benda/src/types/tree.rs): a
    `Leaf` holds a `U24`, a `Node` two optional subtrees, a `Tree` an
    optional leaf and an optional node. A tree lowers to a `U24` literal
    (a leaf) or to the constructor `Tree/Node` applied to its lowered
    subtrees. */
module Trees {
  import opened Support
  import opened UInt24
  import Bend

  datatype Leaf = Leaf(value: U24)
  datatype Node = Node(left: Option<Tree>, right: Option<Tree>)
  datatype Tree = Tree(leaf: Option<Leaf>, node: Option<Node>)

  /** `Leaf(val)` from Python: the argument must fit a `u32` (otherwise the
      binding raises `OverflowError`) and is masked to 24 bits. */
  function LeafNew(val: int): (r: Result<Leaf>)
    ensures r.Ok? <==> 0 <= val < U32_RANGE
    ensures r.Ok? ==> r.value.value.get == val % 0x100_0000
  {
    if 0 <= val < U32_RANGE then Ok(Leaf(New(val))) else Err(Raise("OverflowError"))
  }

  /** A leaf lowers to its number. */
  function LeafToBend(l: Leaf): Bend.Expr
  {
    ToBend(l.value)
  }

  /** The lowered form of an optional subtree: nothing, or one expression. */
  function SideToBend(side: Option<Tree>): Result<seq<Bend.Expr>>
    decreases side
  {
    match side
    case None => Ok([])
    case Some(t) =>
      var e :- TreeToBend(t);
      Ok([e])
  }

  /** `Node::to_bend`: `Tree/Node` applied to the left, then the right
      subtree; absent sides are skipped, the first error is returned. */
  function NodeToBend(n: Node): Result<Bend.Expr>
    decreases n
  {
    var left :- SideToBend(n.left);
    var right :- SideToBend(n.right);
    Ok(Bend.Ctr("Tree/Node", left + right))
  }

  /** `Tree::to_bend`: the leaf if there is one, else the node, else a
      `todo!()` panic. */
  function TreeToBend(t: Tree): Result<Bend.Expr>
    decreases t
  {
    if t.leaf.Some? then Ok(LeafToBend(t.leaf.value))
    else if t.node.Some? then NodeToBend(t.node.value)
    else Err(Panic("not yet implemented"))
  }

  /** The trees `TreeToBend` accepts: every tree met on the way down has a
      leaf or a node. */
  predicate Lowerable(t: Tree)
    decreases t
  {
    t.leaf.Some? || (t.node.Some? && NodeLowerable(t.node.value))
  }

  predicate NodeLowerable(n: Node)
    decreases n
  {
    (n.left.None? || Lowerable(n.left.value)) && (n.right.None? || Lowerable(n.right.value))
  }

  lemma {:induction false} TreeToBendOk(t: Tree)
    ensures TreeToBend(t).Ok? <==> Lowerable(t)
    decreases t
  {
    if t.leaf.None? && t.node.Some? {
      NodeToBendOk(t.node.value);
    }
  }

  lemma {:induction false} NodeToBendOk(n: Node)
    ensures NodeToBend(n).Ok? <==> NodeLowerable(n)
    ensures NodeToBend(n).Ok? ==>
              && NodeToBend(n).value.Ctr?
              && NodeToBend(n).value.name == "Tree/Node"
              && |NodeToBend(n).value.args| == (if n.left.Some? then 1 else 0) + (if n.right.Some? then 1 else 0)
    decreases n
  {
    if n.left.Some? {
      TreeToBendOk(n.left.value);
    }
    if n.right.Some? {
      TreeToBendOk(n.right.value);
    }
  }

  /** The trees whose lowering loses nothing: leaf or node but not both, and
      every node has both sides. */
  predicate Canonical(t: Tree)
    decreases t
  {
    match t
    case Tree(Some(_), None) => true
    case Tree(None, Some(Node(Some(l), Some(r)))) => Canonical(l) && Canonical(r)
    case _ => false
  }

  /** Reading a lowered tree back: a `U24` literal is a leaf, `Tree/Node`
      with two arguments a node. */
  function TreeFromBend(e: Bend.Expr): Option<Tree>
    decreases e
  {
    match e
    case Num(_) =>
      (match FromBend(e)
       case Some(u) => Some(Tree(Some(Leaf(u)), None))
       case None => None)
    case Ctr(name, args) =>
      if name == "Tree/Node" && |args| == 2 then
        (match (TreeFromBend(args[0]), TreeFromBend(args[1]))
         case (Some(l), Some(r)) => Some(Tree(None, Some(Node(Some(l), Some(r)))))
         case _ => None)
      else None
    case _ => None
  }

  /** Lowering a canonical tree and reading it back gives the tree. */
  lemma {:induction false} TreeRoundTrip(t: Tree)
    requires Canonical(t)
    ensures TreeToBend(t).Ok? && TreeFromBend(TreeToBend(t).value) == Some(t)
    decreases t
  {
    match t
    case Tree(Some(l), None) =>
      ToBendRoundTrip(l.value);
    case Tree(None, Some(Node(Some(l), Some(r)))) =>
      TreeRoundTrip(l);
      TreeRoundTrip(r);
      var e := Bend.Ctr("Tree/Node", [TreeToBend(l).value] + [TreeToBend(r).value]);
      assert SideToBend(Some(l)) == Ok([TreeToBend(l).value]);
      assert SideToBend(Some(r)) == Ok([TreeToBend(r).value]);
      assert NodeToBend(Node(Some(l), Some(r))) == Ok(e);
      assert TreeToBend(t) == Ok(e);
      assert e.args[0] == TreeToBend(l).value && e.args[1] == TreeToBend(r).value;
  }

  datatype TreeType = LeafType | NodeType | TreeKind

  /** `TreeType::from`: exactly the three tree class names are accepted. */
  function TreeTypeFrom(name: string): (r: Result<TreeType>)
    ensures r.Ok? <==> name in {"benda.Leaf", "benda.Node", "benda.Tree"}
    ensures r == Ok(LeafType) <==> name == "benda.Leaf"
    ensures r == Ok(NodeType) <==> name == "benda.Node"
    ensures r == Ok(TreeKind) <==> name == "benda.Tree"
  {
    if name == "benda.Leaf" then Ok(LeafType)
    else if name == "benda.Node" then Ok(NodeType)
    else if name == "benda.Tree" then Ok(TreeKind)
    else Err(Panic("Tree __new__ must receive either Leaf or Node"))
  }
}

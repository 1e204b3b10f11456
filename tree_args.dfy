/** The Python constructors `Node(*args)` and `Tree(*args)` of
    crates/benda/src/types/tree.rs, which scan their arguments by type
    name. */
module TreeArgs {
  import opened Support
  import opened Host
  import opened Trees
  import Builtins

  const NODE_MSG := "Node must receive two trees in its constructor"
  const TREE_MSG := "Tree must receive a Leaf in constructor"
  const TREE_TYPE_MSG := "Tree __new__ must receive either Leaf or Node"

  /** The host values that really are trees. */
  predicate IsTreeValue(v: PyValue)
  {
    v.PyLeaf? || v.PyNode? || v.PyTree?
  }

  /** A tree value as a `Tree`: a leaf or a node wrapped, a tree itself. */
  function AsTree(v: PyValue): Tree
    requires IsTreeValue(v)
  {
    match v
    case PyLeaf(l) => Tree(Some(l), None)
    case PyNode(n) => Tree(None, Some(n))
    case PyTree(t) => t
  }

  /** The tree one argument of `Node(...)` contributes once its type name
      has been accepted: the downcast to that class, wrapped. */
  function NewTree(arg: PyValue, tt: TreeType): (r: Option<Tree>)
    ensures r.Some? <==> IsTreeValue(arg) && TreeTypeFrom(TypeName(arg)) == Ok(tt)
    ensures r.Some? ==> r.value == AsTree(arg)
  {
    match tt
    case LeafType =>
      (match Builtins.ExtractInner(arg, Builtins.Leaf)
       case Some(v) => Some(Tree(Some(v.leaf), None))
       case None => None)
    case NodeType =>
      (match Builtins.ExtractInner(arg, Builtins.Node)
       case Some(v) => Some(Tree(None, Some(v.node)))
       case None => None)
    case TreeKind => if arg.PyTree? then Some(arg.tree) else None
  }

  /** The scan of `Node::new` from argument i, with the first tree found so
      far: every argument's type name must be a tree class, and the
      second tree found completes the node. */
  function NodeScan(args: seq<PyValue>, i: nat, first: Option<Tree>): Result<Node>
    requires i <= |args|
    decreases |args| - i
  {
    if i == |args| then Err(Panic(NODE_MSG))
    else
      var tt :- TreeTypeFrom(TypeName(args[i]));
      var t := NewTree(args[i], tt);
      if t.Some? && first.Some? then Ok(Node(first, t))
      else if t.Some? then NodeScan(args, i + 1, t)
      else NodeScan(args, i + 1, first)
  }

  /** `Node::new` as the source writes it. */
  method NodeNew(args: seq<PyValue>) returns (r: Result<Node>)
    ensures r == NodeScan(args, 0, None)
  {
    ghost var goal := NodeScan(args, 0, None);
    var trees: Option<Tree> := None;
    var i := 0;
    while i < |args|
      invariant i <= |args|
      invariant NodeScan(args, i, trees) == goal
    {
      var tt := TreeTypeFrom(TypeName(args[i]));
      if tt.Err? {
        return Err(tt.error);
      }
      NodeScanStep(args, i, trees, tt.value);
      var newTree := NewTree(args[i], tt.value);
      if newTree.Some? {
        if trees.Some? {
          return Ok(Node(trees, newTree));
        }
        trees := newTree;
      }
      i := i + 1;
    }
    return Err(Panic(NODE_MSG));
  }

  /** One step of the scan. */
  lemma NodeScanStep(args: seq<PyValue>, i: nat, first: Option<Tree>, tt: TreeType)
    requires i < |args| && TreeTypeFrom(TypeName(args[i])) == Ok(tt)
    ensures var t := NewTree(args[i], tt);
      NodeScan(args, i, first) ==
        if t.Some? && first.Some? then Ok(Node(first, t))
        else NodeScan(args, i + 1, if t.Some? then t else first)
  {
  }

  /** The first two arguments, when they are trees, are the node's left and
      right subtrees; later arguments are not looked at. */
  lemma NodeNewFirstTwo(args: seq<PyValue>)
    requires |args| >= 2 && IsTreeValue(args[0]) && IsTreeValue(args[1])
    ensures NodeScan(args, 0, None) == Ok(Node(Some(AsTree(args[0])), Some(AsTree(args[1]))))
  {
    TreeValueAccepted(args[0]);
    TreeValueAccepted(args[1]);
    assert NodeScan(args, 1, Some(AsTree(args[0]))) == Ok(Node(Some(AsTree(args[0])), Some(AsTree(args[1]))));
  }

  lemma TreeValueAccepted(v: PyValue)
    requires IsTreeValue(v)
    ensures TreeTypeFrom(TypeName(v)).Ok? && NewTree(v, TreeTypeFrom(TypeName(v)).value) == Some(AsTree(v))
  {
  }

  /** Fewer than two trees panic; without arguments it is the final
      panic. */
  lemma {:induction false} NodeNewTooFew(args: seq<PyValue>, i: nat, first: Option<Tree>)
    requires i <= |args| && forall k :: i <= k < |args| ==> IsTreeValue(args[k])
    requires (if first.Some? then 1 else 0) + |args| - i < 2
    ensures NodeScan(args, i, first) == Err(Panic(NODE_MSG))
    decreases |args| - i
  {
    if i < |args| {
      NodeNewTooFew(args, i + 1, NewTree(args[i], TreeTypeFrom(TypeName(args[i])).value));
    }
  }

  /** An argument of another class, met before two trees were found,
      panics. */
  lemma NodeNewRejects(args: seq<PyValue>)
    requires |args| >= 1 && TreeTypeFrom(TypeName(args[0])).Err?
    ensures NodeScan(args, 0, None) == Err(Panic(TREE_TYPE_MSG))
  {
  }

  /** The scan of `Tree::new` from argument i: the first leaf is the tree;
      an argument of another tree class panics. */
  function TreeScan(args: seq<PyValue>, i: nat): Result<Tree>
    requires i <= |args|
    decreases |args| - i
  {
    if i == |args| then Err(Panic("not yet implemented"))
    else
      var tt :- TreeTypeFrom(TypeName(args[i]));
      if tt == LeafType then
        match Builtins.ExtractInner(args[i], Builtins.Leaf)
        case Some(v) => Ok(Tree(Some(v.leaf), None))
        case None => TreeScan(args, i + 1)
      else Err(Panic(TREE_MSG))
  }

  /** `Tree::new` as the source writes it. */
  method TreeNew(args: seq<PyValue>) returns (r: Result<Tree>)
    ensures r == TreeScan(args, 0)
  {
    ghost var goal := TreeScan(args, 0);
    var i := 0;
    while i < |args|
      invariant i <= |args|
      invariant TreeScan(args, i) == goal
    {
      var tt := TreeTypeFrom(TypeName(args[i]));
      if tt.Err? {
        return Err(tt.error);
      }
      if tt.value == LeafType {
        var leaf := Builtins.ExtractInner(args[i], Builtins.Leaf);
        if leaf.Some? {
          return Ok(Tree(Some(leaf.value.leaf), None));
        }
      } else {
        return Err(Panic(TREE_MSG));
      }
      i := i + 1;
    }
    return Err(Panic("not yet implemented"));
  }

  /** A leaf first gives the leaf-only tree. */
  lemma TreeNewLeafFirst(args: seq<PyValue>)
    requires |args| >= 1 && args[0].PyLeaf?
    ensures TreeScan(args, 0) == Ok(Tree(Some(args[0].leaf), None))
  {
    LeafAccepted(args[0]);
    TreeScanAt(args, 0, LeafType);
  }

  /** A node or a tree first panics. */
  lemma TreeNewNodeFirst(args: seq<PyValue>)
    requires |args| >= 1 && (args[0].PyNode? || args[0].PyTree?)
    ensures TreeScan(args, 0) == Err(Panic(TREE_MSG))
  {
    NodeOrTreeAccepted(args[0]);
    TreeScanAt(args, 0, if args[0].PyNode? then NodeType else TreeKind);
  }

  lemma NodeOrTreeAccepted(v: PyValue)
    requires v.PyNode? || v.PyTree?
    ensures TreeTypeFrom(TypeName(v)) == Ok(if v.PyNode? then NodeType else TreeKind)
  {
  }

  lemma LeafAccepted(v: PyValue)
    requires v.PyLeaf?
    ensures TreeTypeFrom(TypeName(v)) == Ok(LeafType)
    ensures Builtins.ExtractInner(v, Builtins.Leaf) == Some(v)
  {
  }

  /** One step of the scan, once the class of argument i is known. */
  lemma TreeScanAt(args: seq<PyValue>, i: nat, tt: TreeType)
    requires i < |args| && TreeTypeFrom(TypeName(args[i])) == Ok(tt)
    ensures tt == LeafType && args[i].PyLeaf? ==> TreeScan(args, i) == Ok(Tree(Some(args[i].leaf), None))
    ensures tt != LeafType ==> TreeScan(args, i) == Err(Panic(TREE_MSG))
  {
  }

  /** Whatever `Tree(...)` builds is a leaf-only tree. */
  lemma {:induction false} TreeScanLeafOnly(args: seq<PyValue>, i: nat)
    requires i <= |args|
    ensures TreeScan(args, i).Ok? ==> TreeScan(args, i).value.node.None? && TreeScan(args, i).value.leaf.Some?
    decreases |args| - i
  {
    if i < |args| {
      TreeScanLeafOnly(args, i + 1);
    }
  }
}

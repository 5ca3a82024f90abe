/**
 * The compositional `Graph` of graph/graph.ts: a root node and an ordered
 * sequence of child graphs, with `addChild`, the post-order `fold` and
 * `streamNodes`.
 *
 * The declared schema types `children` as nodes, while `addChild`'s
 * documentation, the recursive `fold` and the module's own example treat
 * them as graphs; the model takes the documented rose tree. A node child is
 * the leaf graph `Leaf(n)`.
 */
module TreeGraph {
  import opened Nodes
  import opened Seqs

  datatype Tree = Tree(root: Node, children: seq<Tree>)

  function Leaf(n: Node): Tree
  {
    Tree(n, [])
  }

  /** `addChild`: a new graph with the same root and `child` after the existing children. */
  function AddChild(g: Tree, child: Tree): Tree
  {
    Tree(g.root, g.children + [child])
  }

  /** Number of nodes in the tree: an independent reference for the fold's results. */
  function Size(t: Tree): nat
    decreases t
  {
    1 + SizeAll(t.children)
  }

  function SizeAll(ts: seq<Tree>): nat
    decreases ts
  {
    if ts == [] then 0 else Size(ts[0]) + SizeAll(ts[1..])
  }

  /**
   * `fold(algebra)`: the algebra meets a node only with the results of all of
   * its children, in child order. Effects are left out: an algebra is a plain
   * function.
   */
  function Fold<B>(t: Tree, algebra: (Node, seq<B>) -> B): B
    decreases t
  {
    algebra(t.root, FoldAll(t.children, algebra))
  }

  /** The results of folding each tree of `ts`, in order (`Effect.forEach`). */
  function FoldAll<B>(ts: seq<Tree>, algebra: (Node, seq<B>) -> B): (r: seq<B>)
    ensures |r| == |ts|
    ensures forall i :: 0 <= i < |ts| ==> r[i] == Fold(ts[i], algebra)
    decreases ts
  {
    if ts == [] then [] else [Fold(ts[0], algebra)] + FoldAll(ts[1..], algebra)
  }

  /** The `streamNodes` algebra: children's streams concatenated, then the node. */
  function StreamAlgebra(n: Node, children: seq<seq<Node>>): seq<Node>
  {
    Flatten(children) + [n]
  }

  /** `streamNodes()`: the nodes in post-order; the root comes last. */
  function StreamNodes(t: Tree): (r: seq<Node>)
    ensures |r| >= 1 && r[|r| - 1] == t.root
  {
    Fold(t, StreamAlgebra)
  }

  /** The stream holds exactly one entry per node of the tree. */
  lemma {:induction false} StreamNodesLength(t: Tree)
    ensures |StreamNodes(t)| == Size(t)
    decreases t
  {
    StreamAllLength(t.children);
  }

  lemma {:induction false} StreamAllLength(ts: seq<Tree>)
    ensures |Flatten(FoldAll(ts, StreamAlgebra))| == SizeAll(ts)
    decreases ts
  {
    if ts != [] {
      StreamNodesLength(ts[0]);
      StreamAllLength(ts[1..]);
      var r := FoldAll(ts, StreamAlgebra);
      assert r[1..] == FoldAll(ts[1..], StreamAlgebra);
    }
  }

  /** Folding a prefix of the children gives the prefix of the results. */
  lemma FoldAllPrefix<B>(ts: seq<Tree>, algebra: (Node, seq<B>) -> B, i: nat)
    requires i <= |ts|
    ensures FoldAll(ts[..i], algebra) == FoldAll(ts, algebra)[..i]
  {
  }

  lemma {:induction false} FlattenBlock<T>(ss: seq<seq<T>>, i: nat)
    requires i < |ss|
    ensures |Flatten(ss[..i])| + |ss[i]| <= |Flatten(ss)|
    ensures Flatten(ss)[|Flatten(ss[..i])|..|Flatten(ss[..i])| + |ss[i]|] == ss[i]
  {
    assert ss == ss[..i] + [ss[i]] + ss[i + 1..];
    FlattenAppend(ss[..i] + [ss[i]], ss[i + 1..]);
    FlattenAppend(ss[..i], [ss[i]]);
    assert Flatten([ss[i]]) == ss[i] + Flatten([]);
  }

  /**
   * Post-order: child `i`'s own stream sits, contiguous and unchanged, right
   * after the nodes of children `0..i`, and all of it precedes the root.
   */
  lemma {:induction false} StreamNodesPostOrder(t: Tree, i: nat)
    requires i < |t.children|
    ensures SizeAll(t.children[..i]) + Size(t.children[i]) < |StreamNodes(t)|
    ensures StreamNodes(t)[SizeAll(t.children[..i])..SizeAll(t.children[..i]) + Size(t.children[i])]
            == StreamNodes(t.children[i])
  {
    var off, len := SizeAll(t.children[..i]), Size(t.children[i]);
    StreamBlock(t.children, i);
    StreamSliceBeforeRoot(t, off, off + len);
  }

  /** Before the root, the stream is the concatenation of the children's streams. */
  lemma StreamSliceBeforeRoot(t: Tree, lo: nat, hi: nat)
    requires lo <= hi <= |Flatten(FoldAll(t.children, StreamAlgebra))|
    ensures hi < |StreamNodes(t)|
    ensures StreamNodes(t)[lo..hi] == Flatten(FoldAll(t.children, StreamAlgebra))[lo..hi]
  {
    StreamShape(t);
  }

  /** In the concatenated streams of `ts`, tree `i`'s stream follows those of the trees before it. */
  lemma StreamBlock(ts: seq<Tree>, i: nat)
    requires i < |ts|
    ensures SizeAll(ts[..i]) + Size(ts[i]) <= |Flatten(FoldAll(ts, StreamAlgebra))|
    ensures Flatten(FoldAll(ts, StreamAlgebra))[SizeAll(ts[..i])..SizeAll(ts[..i]) + Size(ts[i])] == StreamNodes(ts[i])
  {
    PrefixStreamLength(ts, i);
    ChildStream(ts, i);
    BlockOfStreams(FoldAll(ts, StreamAlgebra), ts, i);
  }

  /** `StreamBlock` for any list of streams whose lengths and entries are those of the trees' streams. */
  lemma BlockOfStreams(ss: seq<seq<Node>>, ts: seq<Tree>, i: nat)
    requires i < |ss| && i < |ts|
    requires |Flatten(ss[..i])| == SizeAll(ts[..i])
    requires ss[i] == StreamNodes(ts[i]) && |StreamNodes(ts[i])| == Size(ts[i])
    ensures SizeAll(ts[..i]) + Size(ts[i]) <= |Flatten(ss)|
    ensures Flatten(ss)[SizeAll(ts[..i])..SizeAll(ts[..i]) + Size(ts[i])] == StreamNodes(ts[i])
  {
    FlattenBlock(ss, i);
    BlockAfter(Flatten(ss), Flatten(ss[..i]), ss[i], SizeAll(ts[..i]), Size(ts[i]), StreamNodes(ts[i]));
  }

  lemma PrefixStreamLength(ts: seq<Tree>, i: nat)
    requires i <= |ts|
    ensures |Flatten(FoldAll(ts, StreamAlgebra)[..i])| == SizeAll(ts[..i])
  {
    FoldAllPrefix(ts, StreamAlgebra, i);
    StreamAllLength(ts[..i]);
  }

  lemma ChildStream(ts: seq<Tree>, i: nat)
    requires i < |ts|
    ensures FoldAll(ts, StreamAlgebra)[i] == StreamNodes(ts[i])
    ensures |StreamNodes(ts[i])| == Size(ts[i])
  {
    StreamNodesLength(ts[i]);
  }

  /** `addChild` keeps the root and adds exactly the child's nodes. */
  lemma {:induction false} AddChildSize(g: Tree, child: Tree)
    ensures AddChild(g, child).root == g.root
    ensures Size(AddChild(g, child)) == Size(g) + Size(child)
  {
    SizeAllAppend(g.children, [child]);
    assert SizeAll([child]) == Size(child) + SizeAll([]);
  }

  lemma {:induction false} SizeAllAppend(a: seq<Tree>, b: seq<Tree>)
    ensures SizeAll(a + b) == SizeAll(a) + SizeAll(b)
  {
    if a == [] {
      assert a + b == b;
    } else {
      assert (a + b)[1..] == a[1..] + b;
      SizeAllAppend(a[1..], b);
    }
  }

  lemma FoldAllSnoc<B>(ts: seq<Tree>, t: Tree, algebra: (Node, seq<B>) -> B)
    ensures FoldAll(ts + [t], algebra) == FoldAll(ts, algebra) + [Fold(t, algebra)]
  {
    var r := FoldAll(ts + [t], algebra);
    assert r[..|ts|] == FoldAll(ts, algebra) by {
      assert (ts + [t])[..|ts|] == ts;
      FoldAllPrefix(ts + [t], algebra, |ts|);
    }
    assert r == r[..|ts|] + [r[|ts|]];
  }

  /** In the new graph the child's nodes come right before the root, after the old ones. */
  lemma {:induction false} AddChildStream(g: Tree, child: Tree)
    ensures StreamNodes(AddChild(g, child))
            == StreamNodes(g)[..|StreamNodes(g)| - 1] + StreamNodes(child) + [g.root]
  {
    var old_r := FoldAll(g.children, StreamAlgebra);
    StreamShape(g);
    StreamShape(AddChild(g, child));
    FoldAllSnoc(g.children, child, StreamAlgebra);
    FlattenSnoc(old_r, StreamNodes(child));
    DropLast(Flatten(old_r), g.root);
  }

  lemma StreamShape(t: Tree)
    ensures StreamNodes(t) == Flatten(FoldAll(t.children, StreamAlgebra)) + [t.root]
  {
  }

  lemma FlattenSnoc<T>(ss: seq<seq<T>>, s: seq<T>)
    ensures Flatten(ss + [s]) == Flatten(ss) + s
  {
    FlattenAppend(ss, [s]);
    assert Flatten([s]) == s + Flatten([]);
  }

  lemma DropLast<T>(s: seq<T>, x: T)
    ensures (s + [x])[..|s + [x]| - 1] == s
  {
  }
}

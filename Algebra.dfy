/**
 * The catamorphism and paramorphism algebras shipped in graph/algebra.ts,
 * run by the tree fold: `count`, `collectIds` and `drawTree`.
 */
module Algebra {
  import opened Wrappers
  import opened Nodes
  import opened Seqs
  import opened Text
  import opened TreeGraph
  import opened Predicates

  /** Does `count(predicate)` count node `n`? With no predicate, every node counts. */
  predicate Selected(pred: Option<NodePredicate>, n: Node)
  {
    pred.None? || pred.value.evaluate(n)
  }

  function Selects(pred: Option<NodePredicate>): Node -> bool
  {
    n => Selected(pred, n)
  }

  /** The `count(predicate)` algebra: the node's own 0 or 1 plus the children's sum. */
  function CountAlgebra(pred: Option<NodePredicate>): (Node, seq<int>) -> int
  {
    (n: Node, children: seq<int>) => (if Selected(pred, n) then 1 else 0) + Sum(children)
  }

  function Count(t: Tree, pred: Option<NodePredicate>): int
  {
    Fold(t, CountAlgebra(pred))
  }

  /** `count(p)` over a tree is the number of streamed nodes `p` selects. */
  lemma {:induction false} CountIsFilteredStream(t: Tree, pred: Option<NodePredicate>)
    ensures Count(t, pred) == |Filter(StreamNodes(t), Selects(pred))|
    decreases t
  {
    CountAllIsFilteredStream(t.children, pred);
    var s := Flatten(FoldAll(t.children, StreamAlgebra));
    assert StreamNodes(t) == s + [t.root];
    FilterAppend(s, [t.root], Selects(pred));
    assert [t.root][1..] == [];
  }

  lemma {:induction false} CountAllIsFilteredStream(ts: seq<Tree>, pred: Option<NodePredicate>)
    ensures Sum(FoldAll(ts, CountAlgebra(pred)))
            == |Filter(Flatten(FoldAll(ts, StreamAlgebra)), Selects(pred))|
    decreases ts
  {
    if ts != [] {
      CountIsFilteredStream(ts[0], pred);
      CountAllIsFilteredStream(ts[1..], pred);
      var counts := FoldAll(ts, CountAlgebra(pred));
      var streams := FoldAll(ts, StreamAlgebra);
      assert counts[1..] == FoldAll(ts[1..], CountAlgebra(pred));
      assert streams[1..] == FoldAll(ts[1..], StreamAlgebra);
      FilterAppend(streams[0], Flatten(streams[1..]), Selects(pred));
    }
  }

  /** `count()` (and the `1 + sum` example algebra) returns the number of nodes in the tree. */
  lemma CountAllNodes(t: Tree)
    ensures Count(t, None) == Size(t) == |StreamNodes(t)|
  {
    CountIsFilteredStream(t, None);
    FilterKeepsAll(StreamNodes(t), Selects(None));
    StreamNodesLength(t);
  }

  /** 0 <= count(p) <= count() over any tree. */
  lemma CountBounded(t: Tree, p: NodePredicate)
    ensures 0 <= Count(t, Some(p)) <= Count(t, None)
  {
    CountIsFilteredStream(t, Some(p));
    CountAllNodes(t);
  }

  /** `count(and(p, q))` is at most both `count(p)` and `count(q)`. */
  lemma CountAndBelowMin(t: Tree, p: NodePredicate, q: NodePredicate)
    ensures Count(t, Some(And(q, p))) <= Count(t, Some(p))
    ensures Count(t, Some(And(q, p))) <= Count(t, Some(q))
  {
    var s := StreamNodes(t);
    CountIsFilteredStream(t, Some(And(q, p)));
    CountIsFilteredStream(t, Some(p));
    CountIsFilteredStream(t, Some(q));
    FilterMonotone(s, Selects(Some(And(q, p))), Selects(Some(p)));
    FilterMonotone(s, Selects(Some(And(q, p))), Selects(Some(q)));
  }

  /** The `collectIds` algebra: children's id lists concatenated, then the node's id. */
  function CollectIdsAlgebra(n: Node, children: seq<seq<NodeId>>): seq<NodeId>
  {
    Flatten(children) + [n.id]
  }

  function CollectIds(t: Tree): seq<NodeId>
  {
    Fold(t, CollectIdsAlgebra)
  }

  function IdOf(n: Node): NodeId
  {
    n.id
  }

  /** `collectIds` lists the ids of the post-order stream; so it has `count()` entries. */
  lemma {:induction false} CollectIdsIsStreamIds(t: Tree)
    ensures CollectIds(t) == Map(StreamNodes(t), IdOf)
    ensures |CollectIds(t)| == Count(t, None)
    decreases t
  {
    CollectAllIsStreamIds(t.children);
    IdsOfStream(Flatten(FoldAll(t.children, CollectIdsAlgebra)), Flatten(FoldAll(t.children, StreamAlgebra)),
                t.root, CollectIds(t), StreamNodes(t));
    CountAllNodes(t);
  }

  /** Appending the root to the stream appends its id to the ids. */
  lemma IdsOfStream(ids: seq<NodeId>, s: seq<Node>, root: Node, collected: seq<NodeId>, stream: seq<Node>)
    requires ids == Map(s, IdOf) && collected == ids + [root.id] && stream == s + [root]
    ensures collected == Map(stream, IdOf)
  {
    MapAppend(s, [root], IdOf);
  }

  lemma {:induction false} CollectAllIsStreamIds(ts: seq<Tree>)
    ensures Flatten(FoldAll(ts, CollectIdsAlgebra)) == Map(Flatten(FoldAll(ts, StreamAlgebra)), IdOf)
    decreases ts
  {
    if ts != [] {
      CollectIdsIsStreamIds(ts[0]);
      CollectAllIsStreamIds(ts[1..]);
      var ids := FoldAll(ts, CollectIdsAlgebra);
      var streams := FoldAll(ts, StreamAlgebra);
      assert ids[1..] == FoldAll(ts[1..], CollectIdsAlgebra);
      assert streams[1..] == FoldAll(ts[1..], StreamAlgebra);
      MapAppend(streams[0], Flatten(streams[1..]), IdOf);
    } else {
      assert Map([], IdOf) == [];
    }
  }

  /** Prefix one line by two spaces. */
  function IndentLine(l: string): string
  {
    "  " + l
  }

  /** `s.split("\n").map(l => "  " + l).join("\n")`. */
  function IndentBlock(s: string): string
  {
    Join(Map(Split(s), IndentLine), "\n")
  }

  /**
   * The `drawTree` algebra. The paramorphism also hands each child's
   * predicate, which `drawTree` ignores, so the child strings are all it uses.
   */
  function DrawTreeAlgebra(n: Node, children: seq<string>): string
  {
    if children == [] then n.id
    else n.id + "\n" + Join(Map(children, IndentBlock), "\n")
  }

  function DrawTree(t: Tree): string
  {
    Fold(t, DrawTreeAlgebra)
  }

  /** A childless node draws as exactly its id. */
  lemma DrawLeaf(n: Node)
    ensures DrawTree(Leaf(n)) == n.id
  {
  }

  /** The lines of a drawn block are the lines of the block, each prefixed by two spaces. */
  lemma IndentBlockLines(s: string)
    ensures Split(IndentBlock(s)) == Map(Split(s), IndentLine)
  {
    var ls := Map(Split(s), IndentLine);
    forall i | 0 <= i < |ls|
      ensures '\n' !in ls[i]
    {
      assert Split(s)[i] in Split(s);
    }
    SplitJoinLines(ls);
  }

  /**
   * With children, the drawing's lines are the id's lines followed, child by
   * child, by every line of the child's drawing prefixed with two spaces.
   */
  lemma DrawTreeLines(t: Tree)
    requires t.children != []
    ensures Split(DrawTree(t))
            == Split(t.root.id)
               + Flatten(Map(FoldAll(t.children, DrawTreeAlgebra), (s: string) => Map(Split(s), IndentLine)))
  {
    var strs := FoldAll(t.children, DrawTreeAlgebra);
    var blocks := Map(strs, IndentBlock);
    SplitConcat(t.root.id, Join(blocks, "\n"));
    SplitJoin(blocks);
    var f := (s: string) => Map(Split(s), IndentLine);
    forall i | 0 <= i < |blocks|
      ensures Map(blocks, Split)[i] == Map(strs, f)[i]
    {
      IndentBlockLines(strs[i]);
    }
    assert Map(blocks, Split) == Map(strs, f);
  }

  /** Two spaces per level of depth. */
  function Spaces(depth: nat): string
  {
    if depth == 0 then "" else "  " + Spaces(depth - 1)
  }

  /** Reference outline: each node's id, pre-order, indented by its depth. */
  function Outline(t: Tree, depth: nat): seq<string>
    decreases t
  {
    [Spaces(depth) + t.root.id] + OutlineAll(t.children, depth)
  }

  function OutlineAll(ts: seq<Tree>, parentDepth: nat): seq<string>
    decreases ts
  {
    if ts == [] then [] else Outline(ts[0], parentDepth + 1) + OutlineAll(ts[1..], parentDepth)
  }

  /** No node id in the tree contains a line break. */
  predicate SingleLineIds(t: Tree)
    decreases t
  {
    '\n' !in t.root.id && forall c :: c in t.children ==> SingleLineIds(c)
  }

  lemma {:induction false} OutlineShift(t: Tree, depth: nat)
    ensures Map(Outline(t, depth), IndentLine) == Outline(t, depth + 1)
    decreases t
  {
    OutlineAllShift(t.children, depth);
    MapAppend([Spaces(depth) + t.root.id], OutlineAll(t.children, depth), IndentLine);
    assert IndentLine(Spaces(depth) + t.root.id) == Spaces(depth + 1) + t.root.id;
  }

  lemma {:induction false} OutlineAllShift(ts: seq<Tree>, parentDepth: nat)
    ensures Map(OutlineAll(ts, parentDepth), IndentLine) == OutlineAll(ts, parentDepth + 1)
    decreases ts
  {
    if ts == [] {
      assert Map([], IndentLine) == [];
    } else {
      OutlineShift(ts[0], parentDepth + 1);
      OutlineAllShift(ts[1..], parentDepth);
      MapAppend(Outline(ts[0], parentDepth + 1), OutlineAll(ts[1..], parentDepth), IndentLine);
    }
  }

  lemma {:induction false} FlattenOutlines(xs: seq<seq<string>>, ts: seq<Tree>)
    requires |xs| == |ts|
    requires forall i :: 0 <= i < |ts| ==> xs[i] == Outline(ts[i], 1)
    ensures Flatten(xs) == OutlineAll(ts, 0)
  {
    if ts != [] {
      FlattenOutlines(xs[1..], ts[1..]);
    }
  }

  /**
   * When no id spans several lines, `drawTree` prints one line per node, in
   * pre-order, each id indented by two spaces per level of depth.
   */
  lemma {:induction false} DrawTreeIsOutline(t: Tree)
    requires SingleLineIds(t)
    ensures Split(DrawTree(t)) == Outline(t, 0)
    decreases t, 0
  {
    if t.children == [] {
      assert DrawTree(t) == t.root.id;
      assert Spaces(0) + t.root.id == t.root.id;
      assert Outline(t, 0) == [t.root.id] + OutlineAll([], 0);
    } else {
      var strs := FoldAll(t.children, DrawTreeAlgebra);
      var f := (s: string) => Map(Split(s), IndentLine);
      var xs := Map(strs, f);
      assert Split(DrawTree(t)) == Split(t.root.id) + Flatten(xs) by {
        DrawTreeLines(t);
      }
      forall i | 0 <= i < |t.children|
        ensures xs[i] == Outline(t.children[i], 1)
      {
        var c := t.children[i];
        assert SingleLineIds(c) by {
          assert c in t.children;
        }
        assert xs[i] == Map(Split(DrawTree(c)), IndentLine);
        DrawChildOutline(c);
      }
      assert Flatten(xs) == OutlineAll(t.children, 0) by {
        FlattenOutlines(xs, t.children);
      }
      assert Spaces(0) + t.root.id == t.root.id;
      assert Split(t.root.id) == [t.root.id];
    }
  }

  /** A child's drawing, indented once, is its outline one level down. */
  lemma {:induction false} DrawChildOutline(c: Tree)
    requires SingleLineIds(c)
    ensures Map(Split(DrawTree(c)), IndentLine) == Outline(c, 1)
    decreases c, 1
  {
    DrawTreeIsOutline(c);
    ShiftLines(Split(DrawTree(c)), c);
  }

  lemma ShiftLines(lines: seq<string>, c: Tree)
    requires lines == Outline(c, 0)
    ensures Map(lines, IndentLine) == Outline(c, 1)
  {
    OutlineShift(c, 0);
  }

  /** The outline, and hence the drawing, has one line per node. */
  lemma {:induction false} OutlineLength(t: Tree, depth: nat)
    ensures |Outline(t, depth)| == Size(t)
    decreases t
  {
    OutlineAllLength(t.children, depth);
  }

  lemma {:induction false} OutlineAllLength(ts: seq<Tree>, parentDepth: nat)
    ensures |OutlineAll(ts, parentDepth)| == SizeAll(ts)
    decreases ts
  {
    if ts != [] {
      OutlineLength(ts[0], parentDepth + 1);
      OutlineAllLength(ts[1..], parentDepth);
    }
  }
}

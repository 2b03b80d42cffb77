/**
 * The topic tree shown by the mind map (`AnnotationNode` of types.ts):
 * a name, an optional colour, an optional kind and an ordered list of
 * children. An absent `children` list is the empty sequence; the optional
 * `description` is never read by the modelled code and is not kept.
 */
module AnnotationTree {
  import opened Wrappers

  datatype NodeType = Root | Category | Annotation

  datatype Node = Node(name: string, color: Option<string>, kind: Option<NodeType>, children: seq<Node>)

  /** A node whose `type` is `'annotation'`. */
  predicate IsAnnotation(n: Node) {
    n.kind == Some(Annotation)
  }

  /** A node without children. */
  predicate IsLeaf(n: Node) {
    |n.children| == 0
  }

  /** `root.descendants().length`: the node itself and every node below it. */
  function NodeCount(n: Node): (c: nat)
    ensures c >= 1
    decreases n
  {
    1 + ForestCount(n.children)
  }

  function ForestCount(ns: seq<Node>): (c: nat)
    ensures c >= |ns|
    decreases ns
  {
    if ns == [] then 0 else ForestCount(ns[..|ns| - 1]) + NodeCount(ns[|ns| - 1])
  }

  /** `root.height`: the number of edges on the longest downward path. */
  function Height(n: Node): (h: nat)
    ensures h < NodeCount(n)
    ensures h == 0 <==> IsLeaf(n)
    decreases n
  {
    if n.children == [] then 0 else 1 + ForestHeight(n.children)
  }

  /** The greatest height among the given trees (0 for none). */
  function ForestHeight(ns: seq<Node>): (h: nat)
    ensures ns == [] || h < ForestCount(ns)
    decreases ns
  {
    if ns == [] then 0 else Max(ForestHeight(ns[..|ns| - 1]), Height(ns[|ns| - 1]))
  }

  function Max(a: nat, b: nat): (m: nat)
    ensures m >= a && m >= b && (m == a || m == b)
  {
    if a < b then b else a
  }

  // ---------------------------------------------------------------------
  // Paths: the reference definition of "a node at any depth". A path is
  // the list of child indices followed from the root.

  ghost predicate ValidPath(n: Node, p: seq<nat>)
    decreases |p|
  {
    p == [] || (p[0] < |n.children| && ValidPath(n.children[p[0]], p[1..]))
  }

  /** The node reached by following `p` from `n`. */
  ghost function At(n: Node, p: seq<nat>): Node
    requires ValidPath(n, p)
    decreases |p|
  {
    if p == [] then n else At(n.children[p[0]], p[1..])
  }

  // ---------------------------------------------------------------------
  // Height against paths

  lemma {:induction false} ForestHeightBounds(ns: seq<Node>, i: nat)
    requires i < |ns|
    ensures Height(ns[i]) <= ForestHeight(ns)
    decreases ns
  {
    if i < |ns| - 1 {
      ForestHeightBounds(ns[..|ns| - 1], i);
    }
  }

  lemma {:induction false} ForestHeightAttained(ns: seq<Node>) returns (i: nat)
    requires ns != []
    ensures i < |ns| && Height(ns[i]) == ForestHeight(ns)
    decreases ns
  {
    var init := ns[..|ns| - 1];
    if init == [] || ForestHeight(init) < Height(ns[|ns| - 1]) {
      i := |ns| - 1;
    } else {
      i := ForestHeightAttained(init);
    }
  }

  /** No downward path from a node is longer than its height. */
  lemma {:induction false} PathWithinHeight(n: Node, p: seq<nat>)
    requires ValidPath(n, p)
    ensures |p| <= Height(n)
    decreases |p|
  {
    if p != [] {
      PathWithinHeight(n.children[p[0]], p[1..]);
      ForestHeightBounds(n.children, p[0]);
    }
  }

  /** Some downward path has exactly the height as length, and it ends in a leaf. */
  lemma {:induction false} DeepestPath(n: Node) returns (p: seq<nat>)
    ensures ValidPath(n, p) && |p| == Height(n) && IsLeaf(At(n, p))
    decreases n
  {
    if n.children == [] {
      p := [];
    } else {
      var i := ForestHeightAttained(n.children);
      var q := DeepestPath(n.children[i]);
      p := [i] + q;
      assert p[1..] == q;
    }
  }

  /** The height is the length of the longest downward path. */
  lemma {:induction false} HeightIsLongestPath(n: Node)
    ensures (forall p :: ValidPath(n, p) ==> |p| <= Height(n))
    ensures exists p :: ValidPath(n, p) && |p| == Height(n) && IsLeaf(At(n, p))
  {
    forall p | ValidPath(n, p) ensures |p| <= Height(n) {
      PathWithinHeight(n, p);
    }
    var p := DeepestPath(n);
  }

  // ---------------------------------------------------------------------
  // Pre-order enumeration of the nodes, by their paths

  /** `[i] + p` for every path `p` of `ps`, in order. */
  function Prefixed(i: nat, ps: seq<seq<nat>>): (qs: seq<seq<nat>>)
    ensures |qs| == |ps|
    ensures forall k :: 0 <= k < |ps| ==> qs[k] == [i] + ps[k]
  {
    seq(|ps|, k requires 0 <= k < |ps| => [i] + ps[k])
  }

  /** The path of every node, a node before its children and children in order. */
  function Paths(n: Node): (ps: seq<seq<nat>>)
    ensures |ps| == NodeCount(n)
    decreases n
  {
    [[]] + ForestPaths(n.children)
  }

  /** The paths of the nodes of a list of sibling trees, relative to their common parent. */
  function ForestPaths(ns: seq<Node>): (ps: seq<seq<nat>>)
    ensures |ps| == ForestCount(ns)
    decreases ns
  {
    if ns == [] then [] else ForestPaths(ns[..|ns| - 1]) + Prefixed(|ns| - 1, Paths(ns[|ns| - 1]))
  }

  predicate Distinct<T(==)>(s: seq<T>) {
    forall i, j :: 0 <= i < j < |s| ==> s[i] != s[j]
  }

  lemma {:induction false} ForestPathsMembers(ns: seq<Node>, p: seq<nat>)
    ensures p in ForestPaths(ns) <==> p != [] && p[0] < |ns| && p[1..] in Paths(ns[p[0]])
    decreases ns
  {
    if ns != [] {
      var m := |ns| - 1;
      var init := ns[..m];
      ForestPathsMembers(init, p);
      var pre := Prefixed(m, Paths(ns[m]));
      if p in pre {
        var k :| 0 <= k < |pre| && pre[k] == p;
        assert p[1..] == Paths(ns[m])[k];
      }
      if p != [] && p[0] == m && p[1..] in Paths(ns[m]) {
        var k :| 0 <= k < |Paths(ns[m])| && Paths(ns[m])[k] == p[1..];
        assert pre[k] == [m] + p[1..] == p;
      }
    }
  }

  /** A path is enumerated exactly when it leads to a node. */
  lemma {:induction false} PathsAreValid(n: Node, p: seq<nat>)
    ensures p in Paths(n) <==> ValidPath(n, p)
    decreases |p|
  {
    ForestPathsMembers(n.children, p);
    if p != [] && p[0] < |n.children| {
      PathsAreValid(n.children[p[0]], p[1..]);
    }
  }

  lemma {:induction false} ForestPathsDistinct(ns: seq<Node>)
    ensures Distinct(ForestPaths(ns))
    decreases ns
  {
    if ns != [] {
      var m := |ns| - 1;
      var a := ForestPaths(ns[..m]);
      var b := Prefixed(m, Paths(ns[m]));
      ForestPathsDistinct(ns[..m]);
      PathsDistinct(ns[m]);
      forall i | 0 <= i < |a| ensures a[i] != [] && a[i][0] < m {
        ForestPathsMembers(ns[..m], a[i]);
      }
      forall i, j | 0 <= i < j < |b| ensures b[i] != b[j] {
        assert b[i][1..] == Paths(ns[m])[i] && b[j][1..] == Paths(ns[m])[j];
      }
    }
  }

  /** No node is enumerated twice. */
  lemma {:induction false} PathsDistinct(n: Node)
    ensures Distinct(Paths(n))
    decreases n
  {
    ForestPathsDistinct(n.children);
    forall i | 0 <= i < |ForestPaths(n.children)| ensures ForestPaths(n.children)[i] != [] {
      ForestPathsMembers(n.children, ForestPaths(n.children)[i]);
    }
  }

  /**
   * `NodeCount` counts every node once: the paths enumerated are exactly
   * those that lead to a node, none repeated, and there are `NodeCount` of them.
   */
  lemma {:induction false} NodeCountCountsNodes(n: Node)
    ensures |Paths(n)| == NodeCount(n)
    ensures Distinct(Paths(n))
    ensures forall p :: p in Paths(n) <==> ValidPath(n, p)
  {
    PathsDistinct(n);
    forall p ensures p in Paths(n) <==> ValidPath(n, p) {
      PathsAreValid(n, p);
    }
  }
}

/**
 * The map search panel (components/Search.tsx): an index of the names of
 * the annotation nodes, sorted, filtered case-insensitively by the typed
 * query, and the transition taken when a result is chosen.
 */
module Search {
  import opened Text
  import opened StringOrder
  import opened AnnotationTree


  // ---------------------------------------------------------------------
  // Collecting the names

  /** The name a node itself contributes: its own, if it is an annotation. */
  function Own(n: Node): seq<string> {
    if IsAnnotation(n) then [n.name] else []
  }

  /** Names of the annotation nodes of a tree, in pre-order. */
  function Collected(n: Node): (r: seq<string>)
    ensures |r| <= NodeCount(n)
    decreases n
  {
    Own(n) + ForestCollected(n.children)
  }

  function ForestCollected(ns: seq<Node>): (r: seq<string>)
    ensures |r| <= ForestCount(ns)
    decreases ns
  {
    if ns == [] then [] else ForestCollected(ns[..|ns| - 1]) + Collected(ns[|ns| - 1])
  }

  /** `traverse`: appends the names collected below `node` to `results`, visiting children in order. */
  method Traverse(node: Node, results: seq<string>) returns (out: seq<string>)
    ensures out == results + Collected(node)
    decreases node
  {
    out := results;
    if IsAnnotation(node) {
      out := out + [node.name];
    }
    assert out == results + Own(node);
    ghost var start := out;
    var children := node.children;
    for i := 0 to |children|
      invariant out == start + ForestCollected(children[..i])
    {
      ForestCollectedStep(children, i);
      ConcatAssoc(start, ForestCollected(children[..i]), Collected(children[i]));
      out := Traverse(children[i], out);
    }
    assert children[..|children|] == children;
    ConcatAssoc(results, Own(node), ForestCollected(children));
  }

  /** Concatenation is associative; stated once so that callers need not reprove it element by element. */
  lemma {:induction false} ConcatAssoc<T>(a: seq<T>, b: seq<T>, c: seq<T>)
    ensures (a + b) + c == a + (b + c)
  {
  }

  /** A node's names: its own, if it is an annotation, then those below it. */
  lemma {:induction false} CollectedSplit(n: Node)
    ensures IsAnnotation(n) ==> Collected(n) == [n.name] + ForestCollected(n.children)
    ensures !IsAnnotation(n) ==> Collected(n) == ForestCollected(n.children)
  {
    if !IsAnnotation(n) {
      assert Collected(n) == [] + ForestCollected(n.children);
    }
  }

  /** Collecting one more child appends its names. */
  lemma {:induction false} ForestCollectedStep(ns: seq<Node>, i: nat)
    requires i < |ns|
    ensures ForestCollected(ns[..i + 1]) == ForestCollected(ns[..i]) + Collected(ns[i])
  {
    assert ns[..i + 1][..i] == ns[..i];
  }

  method BuildIndex(data: Node) returns (all: seq<string>)
    ensures Sorted(all)
    ensures multiset(all) == multiset(Collected(data))
  {
    var results := Traverse(data, []);
    all := Sort(results);
  }

  // ---------------------------------------------------------------------
  // The collected names against the nodes of the tree

  /** The names of the annotation nodes among the nodes at paths `ps`, in that order. */
  ghost function NamesAlong(n: Node, ps: seq<seq<nat>>): seq<string>
    requires forall p <- ps :: ValidPath(n, p)
  {
    if ps == [] then []
    else
      var p := ps[|ps| - 1];
      NamesAlong(n, ps[..|ps| - 1]) + Own(At(n, p))
  }

  lemma {:induction false} NamesAlongAppend(n: Node, ps: seq<seq<nat>>, qs: seq<seq<nat>>)
    requires forall p <- ps :: ValidPath(n, p)
    requires forall p <- qs :: ValidPath(n, p)
    ensures forall p <- ps + qs :: ValidPath(n, p)
    ensures NamesAlong(n, ps + qs) == NamesAlong(n, ps) + NamesAlong(n, qs)
    decreases |qs|
  {
    if qs == [] {
      assert ps + qs == ps;
    } else {
      var m := |qs| - 1;
      assert (ps + qs)[..|ps + qs| - 1] == ps + qs[..m];
      assert (ps + qs)[|ps + qs| - 1] == qs[m];
      NamesAlongAppend(n, ps, qs[..m]);
    }
  }

  lemma {:induction false} NamesAlongPrefixed(n: Node, i: nat, ps: seq<seq<nat>>)
    requires i < |n.children|
    requires forall p <- ps :: ValidPath(n.children[i], p)
    ensures forall p <- Prefixed(i, ps) :: ValidPath(n, p)
    ensures NamesAlong(n, Prefixed(i, ps)) == NamesAlong(n.children[i], ps)
    decreases |ps|
  {
    var qs := Prefixed(i, ps);
    forall p <- qs ensures ValidPath(n, p) {
      var k :| 0 <= k < |qs| && qs[k] == p;
      assert p[1..] == ps[k];
    }
    if ps != [] {
      var m := |ps| - 1;
      assert qs[..m] == Prefixed(i, ps[..m]);
      NamesAlongPrefixed(n, i, ps[..m]);
      assert qs[m][1..] == ps[m];
    }
  }

  lemma {:induction false} CollectedAlongPaths(n: Node)
    ensures forall p <- Paths(n) :: ValidPath(n, p)
    ensures Collected(n) == NamesAlong(n, Paths(n))
    decreases n, 1
  {
    NodeCountCountsNodes(n);
    var k := |n.children|;
    ForestCollectedAlongPaths(n, k);
    assert n.children[..k] == n.children;
    NamesAlongAppend(n, [[]], ForestPaths(n.children));
    assert NamesAlong(n, [[]]) == Own(n);
  }

  lemma {:induction false} ForestCollectedAlongPaths(n: Node, k: nat)
    requires k <= |n.children|
    ensures forall p <- ForestPaths(n.children[..k]) :: ValidPath(n, p)
    ensures ForestCollected(n.children[..k]) == NamesAlong(n, ForestPaths(n.children[..k]))
    decreases n, 0, k
  {
    var ns := n.children[..k];
    forall p <- ForestPaths(ns) ensures ValidPath(n, p) {
      ForestPathsMembers(ns, p);
      PathsAreValid(ns[p[0]], p[1..]);
    }
    if k > 0 {
      var m := k - 1;
      assert ns[..m] == n.children[..m];
      ForestCollectedAlongPaths(n, m);
      CollectedAlongPaths(n.children[m]);
      NamesAlongPrefixed(n, m, Paths(n.children[m]));
      NamesAlongAppend(n, ForestPaths(n.children[..m]), Prefixed(m, Paths(n.children[m])));
    }
  }

  /**
   * The collected names are those of the annotation nodes, met in
   * pre-order: the names along the enumeration of all nodes, which lists
   * every node exactly once.
   */
  lemma {:induction false} CollectedIsAnnotationNodes(data: Node)
    ensures forall p <- Paths(data) :: ValidPath(data, p)
    ensures Collected(data) == NamesAlong(data, Paths(data))
    ensures Distinct(Paths(data)) && forall p :: p in Paths(data) <==> ValidPath(data, p)
  {
    CollectedAlongPaths(data);
    NodeCountCountsNodes(data);
  }

  lemma {:induction false} ForestCollectedMember(ns: seq<Node>, x: string)
    ensures x in ForestCollected(ns) <==> exists i :: 0 <= i < |ns| && x in Collected(ns[i])
    decreases ns
  {
    if ns != [] {
      var m := |ns| - 1;
      var init := ns[..m];
      ForestCollectedMember(init, x);
      assert x in ForestCollected(ns) <==> x in ForestCollected(init) || x in Collected(ns[m]);
      if x in ForestCollected(init) {
        var i :| 0 <= i < m && x in Collected(init[i]);
        assert ns[i] == init[i];
      }
      forall i | 0 <= i < m && x in Collected(ns[i]) ensures x in ForestCollected(init) {
        assert init[i] == ns[i];
      }
    }
  }

  /** Every collected name belongs to an annotation node somewhere in the tree. */
  lemma {:induction false} CollectedSound(n: Node, x: string) returns (p: seq<nat>)
    requires x in Collected(n)
    ensures ValidPath(n, p) && IsAnnotation(At(n, p)) && At(n, p).name == x
    decreases n
  {
    if x in Own(n) {
      p := [];
    } else {
      ForestCollectedMember(n.children, x);
      var i :| 0 <= i < |n.children| && x in Collected(n.children[i]);
      var q := CollectedSound(n.children[i], x);
      p := [i] + q;
      assert p[1..] == q;
    }
  }

  /** The name of every annotation node, at any depth, is collected. */
  lemma {:induction false} CollectedComplete(n: Node, p: seq<nat>)
    requires ValidPath(n, p) && IsAnnotation(At(n, p))
    ensures At(n, p).name in Collected(n)
    decreases |p|
  {
    if p == [] {
      assert At(n, p).name in Own(n);
    } else {
      var i := p[0];
      CollectedComplete(n.children[i], p[1..]);
      ForestCollectedMember(n.children, At(n, p).name);
    }
  }

  /** A name is collected exactly when some node at some depth is an annotation with that name. */
  lemma {:induction false} CollectedMember(n: Node, x: string)
    ensures x in Collected(n) <==>
            exists p :: ValidPath(n, p) && IsAnnotation(At(n, p)) && At(n, p).name == x
  {
    if x in Collected(n) {
      var p := CollectedSound(n, x);
    }
    forall p | ValidPath(n, p) && IsAnnotation(At(n, p)) && At(n, p).name == x
      ensures x in Collected(n)
    {
      CollectedComplete(n, p);
    }
  }

  /**
   * The index holds exactly the names of the annotation nodes, each as
   * many times as such nodes carry it, in sorted order; so it holds one
   * entry per annotation node.
   */
  lemma {:induction false} IndexIsSortedAnnotationNames(data: Node, all: seq<string>)
    requires Sorted(all) && multiset(all) == multiset(Collected(data))
    ensures all == Sort(Collected(data))
    ensures forall p <- Paths(data) :: ValidPath(data, p)
    ensures multiset(all) == multiset(NamesAlong(data, Paths(data)))
  {
    SortedPermutationUnique(all, Sort(Collected(data)));
    CollectedIsAnnotationNodes(data);
  }

  /** A name is in the index exactly when some annotation node, at any depth, carries it. */
  lemma {:induction false} IndexMembers(data: Node, all: seq<string>, x: string)
    requires multiset(all) == multiset(Collected(data))
    ensures x in all <==> exists p :: ValidPath(data, p) && IsAnnotation(At(data, p)) && At(data, p).name == x
  {
    CollectedMember(data, x);
    assert x in all <==> x in multiset(all);
    assert x in Collected(data) <==> x in multiset(Collected(data));
  }

  // ---------------------------------------------------------------------
  // Filtering

  /** The names whose lower-cased form contains `q`, in their original order. */
  function Matching(names: seq<string>, q: string): (r: seq<string>)
    ensures |r| <= |names|
    ensures forall i :: 0 <= i < |r| ==> r[i] in names && Contains(Lower(r[i]), q)
  {
    if names == [] then []
    else (if Contains(Lower(names[0]), q) then [names[0]] else []) + Matching(names[1..], q)
  }

  /** `filteredResults`: nothing for a blank query, otherwise the case-insensitive matches. */
  function Filtered(all: seq<string>, query: string): (r: seq<string>)
    ensures |r| <= |all|
    ensures forall i :: 0 <= i < |r| ==> r[i] in all && Matches(r[i], query)
  {
    if Trim(query) == [] then [] else Matching(all, Lower(query))
  }

  predicate Matches(name: string, query: string) {
    Contains(Lower(name), Lower(query))
  }

  lemma {:induction false} MatchingCounts(names: seq<string>, q: string, x: string)
    ensures multiset(Matching(names, q))[x] ==
            if Contains(Lower(x), q) then multiset(names)[x] else 0
    decreases names
  {
    if names != [] {
      var rest := Matching(names[1..], q);
      MatchingCounts(names[1..], q, x);
      assert names == [names[0]] + names[1..];
      if Contains(Lower(names[0]), q) {
        assert Matching(names, q) == [names[0]] + rest;
      } else {
        assert Matching(names, q) == rest;
      }
    }
  }

  lemma {:induction false} MatchingSorted(names: seq<string>, q: string)
    requires Sorted(names)
    ensures Sorted(Matching(names, q))
    decreases names
  {
    if names != [] {
      var rest := Matching(names[1..], q);
      SortedTail(names);
      MatchingSorted(names[1..], q);
      forall j | 0 <= j < |rest| ensures Le(names[0], rest[j]) {
        MatchingCounts(names[1..], q, rest[j]);
        assert rest[j] in multiset(rest);
        assert rest[j] in multiset(names[1..]);
        var k :| 0 <= k < |names[1..]| && names[1..][k] == rest[j];
        assert names[k + 1] == rest[j];
      }
      if Contains(Lower(names[0]), q) {
        ConsSorted(names[0], rest);
        assert Matching(names, q) == [names[0]] + rest;
      } else {
        assert Matching(names, q) == rest;
      }
    }
  }

  /** A query that is blank after trimming finds nothing. */
  lemma {:induction false} BlankQueryFindsNothing(all: seq<string>, query: string)
    requires AllSpace(query)
    ensures Filtered(all, query) == []
  {
    TrimEmptyIffBlank(query);
  }

  /**
   * For a query that is not blank, every result is an indexed name that
   * contains the untrimmed query case-insensitively, every such name is a
   * result (as often as it is indexed), and results stay sorted.
   */
  lemma {:induction false} FilterSoundAndComplete(all: seq<string>, query: string)
    requires !AllSpace(query)
    ensures forall x :: multiset(Filtered(all, query))[x] == if Matches(x, query) then multiset(all)[x] else 0
    ensures forall x :: x in Filtered(all, query) <==> x in all && Matches(x, query)
    ensures Sorted(all) ==> Sorted(Filtered(all, query))
  {
    TrimEmptyIffBlank(query);
    forall x ensures multiset(Filtered(all, query))[x] == if Matches(x, query) then multiset(all)[x] else 0 {
      MatchingCounts(all, Lower(query), x);
    }
    forall x ensures x in Filtered(all, query) <==> x in all && Matches(x, query) {
      MatchingCounts(all, Lower(query), x);
      assert x in Filtered(all, query) <==> x in multiset(Filtered(all, query));
      assert x in all <==> x in multiset(all);
    }
    if Sorted(all) {
      MatchingSorted(all, Lower(query));
    }
  }

  // ---------------------------------------------------------------------
  // The panel

  /** The search panel; its index is built once, when it is mounted. */
  class SearchPanel {
    const allAnnotations: seq<string>
    var query: string
    var isOpen: bool

    function Results(): seq<string>
      reads this
    {
      Filtered(allAnnotations, query)
    }

    /**
     * The panel as mounted. `data` is the tree the index is built from: the
     * component always uses the seed tree (`SeedData.Spring`), whatever map
     * is on screen.
     */
    constructor (data: Node, isOpen: bool)
      ensures Sorted(allAnnotations) && multiset(allAnnotations) == multiset(Collected(data))
      ensures query == [] && Results() == [] && this.isOpen == isOpen
    {
      var all := BuildIndex(data);
      allAnnotations := all;
      query := [];
      this.isOpen := isOpen;
    }

    /** Typing in the input field. */
    method SetQuery(text: string)
      modifies this
      ensures query == text && isOpen == old(isOpen)
    {
      query := text;
    }

    /** The close button: the panel closes and the typed query is kept. */
    method Close()
      modifies this
      ensures !isOpen && query == old(query)
    {
      isOpen := false;
    }

    /** Choosing a result: it is reported, the panel closes and the query is cleared. */
    method Select(name: string) returns (selected: string)
      requires name in Results()
      modifies this
      ensures selected == name && selected in allAnnotations
      ensures !isOpen && query == [] && Results() == []
    {
      selected := name;
      isOpen := false;
      query := [];
    }
  }
}

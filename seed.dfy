/**
 * The seed topic tree of constants.ts (`SPRING_DATA`), and what the
 * model derives from it: its size and height, the names the search index
 * is built from, and the canvas it is drawn on.
 */
module SeedData {
  import opened Wrappers
  import opened AnnotationTree
  import Search
  import StringOrder
  import MindMap

  function Leaf(name: string): Node {
    Node(name, None, Some(Annotation), [])
  }

  /** One annotation leaf per name, in order. */
  function Leaves(names: seq<string>): (ns: seq<Node>)
    ensures |ns| == |names|
  {
    if names == [] then [] else Leaves(names[..|names| - 1]) + [Leaf(names[|names| - 1])]
  }

  function Group(name: string, color: string, children: seq<Node>): Node {
    Node(name, Some(color), Some(Category), children)
  }

  function BootNames(): seq<string> {
    ["@SpringBootApplication", "@EnableAutoConfiguration", "@ConfigurationProperties"]
  }

  function StereotypeNames(): seq<string> {
    ["@Component", "@Repository", "@Service", "@Controller | @RestController"]
  }

  function BeansNames(): seq<string> {
    ["@Autowired", "@Qualifier", "@Value"]
  }

  function ContextNames(): seq<string> {
    ["@Configuration", "@ComponentScan", "@Bean", "@Lazy", "@Primary", "@Scope", "@PropertySource", "@Profile"]
  }

  function WebNames(): seq<string> {
    ["@RequestMapping", "@PostMapping", "@GetMapping", "@PutMapping", "@DeleteMapping",
     "@RequestBody", "@PathVariable", "@RequestParam", "@CrossOrigin"]
  }

  function DataNames(): seq<string> {
    ["@Entity", "@Id", "@GeneratedValue", "@Table", "@Column",
     "@ManyToOne", "@OneToMany", "@JoinColumn", "@Transactional", "@Query"]
  }

  function SecurityNames(): seq<string> {
    ["@EnableWebSecurity", "@EnableGlobalMethodSecurity", "@PreAuthorize", "@PostAuthorize", "@AuthenticationPrincipal"]
  }

  /** `SPRING_DATA`, its seven lists of annotation names given as arguments. */
  function SpringTree(boot: seq<string>, stereotype: seq<string>, beans: seq<string>, context: seq<string>,
                      web: seq<string>, data: seq<string>, security: seq<string>): Node
  {
    Node("Spring Annotations", Some("#64748b"), Some(Root), [
      Group("Boot", "#15803d", Leaves(boot)),
      Group("Stereotype", "#65a30d", Leaves(stereotype)),
      Group("Core", "#0d9488", [
        Group("Beans", "#2dd4bf", Leaves(beans)),
        Group("Context", "#5eead4", Leaves(context))]),
      Group("Web", "#0369a1", Leaves(web)),
      Group("Data", "#7c3aed", Leaves(data)),
      Group("Security", "#be123c", Leaves(security))])
  }

  /** `SPRING_DATA`. */
  function Spring(): Node {
    SpringTree(BootNames(), StereotypeNames(), BeansNames(), ContextNames(), WebNames(), DataNames(), SecurityNames())
  }

  // ---------------------------------------------------------------------
  // Counting a tree given group by group

  /** Appending one tree to a forest adds its nodes. */
  lemma {:induction false} SnocCount(ns: seq<Node>, n: Node)
    ensures ForestCount(ns + [n]) == ForestCount(ns) + NodeCount(n)
  {
    assert (ns + [n])[..|ns|] == ns;
  }

  /** Appending one tree to a forest takes the larger height. */
  lemma {:induction false} SnocHeight(ns: seq<Node>, n: Node)
    ensures ForestHeight(ns + [n]) == Max(ForestHeight(ns), Height(n))
  {
    assert (ns + [n])[..|ns|] == ns;
  }

  /** Appending one tree to a forest appends its names. */
  lemma {:induction false} SnocNames(ns: seq<Node>, n: Node)
    ensures Search.ForestCollected(ns + [n]) == Search.ForestCollected(ns) + Search.Collected(n)
  {
    assert (ns + [n])[..|ns|] == ns;
  }

  /** A forest grows by its next tree, one prefix at a time: its nodes are added, ... */
  lemma {:induction false} PrefixCount(ns: seq<Node>, i: nat)
    requires i < |ns|
    ensures ForestCount(ns[..i + 1]) == ForestCount(ns[..i]) + NodeCount(ns[i])
  {
    assert ns[..i + 1][..i] == ns[..i];
  }

  /** ... its height is taken into account, ... */
  lemma {:induction false} PrefixHeight(ns: seq<Node>, i: nat)
    requires i < |ns|
    ensures ForestHeight(ns[..i + 1]) == Max(ForestHeight(ns[..i]), Height(ns[i]))
  {
    assert ns[..i + 1][..i] == ns[..i];
  }

  /** ... and its names are appended. */
  lemma {:induction false} PrefixNames(ns: seq<Node>, i: nat)
    requires i < |ns|
    ensures Search.ForestCollected(ns[..i + 1]) == Search.ForestCollected(ns[..i]) + Search.Collected(ns[i])
  {
    assert ns[..i + 1][..i] == ns[..i];
  }

  /** The first tree of a forest alone has its nodes and its height. */
  lemma {:induction false} FirstShape(ns: seq<Node>)
    requires ns != []
    ensures ForestCount(ns[..1]) == NodeCount(ns[0])
    ensures ForestHeight(ns[..1]) == Height(ns[0])
  {
    assert ns[..1][..0] == [];
  }

  /** The first tree of a forest has its names. */
  lemma {:induction false} FirstNames(ns: seq<Node>)
    requires ns != []
    ensures Search.ForestCollected(ns[..1]) == Search.Collected(ns[0])
  {
    assert ns[..1][..0] == [];
    assert Search.ForestCollected(ns[..1]) == [] + Search.Collected(ns[0]);
  }

  /** A forest of two trees has the nodes of both, ... */
  lemma {:induction false} PairCount(ns: seq<Node>)
    requires |ns| == 2
    ensures ForestCount(ns) == NodeCount(ns[0]) + NodeCount(ns[1])
  {
    assert ns[..2] == ns;
    FirstShape(ns);
    PrefixCount(ns, 1);
  }

  /** ... the larger of their heights, ... */
  lemma {:induction false} PairHeight(ns: seq<Node>)
    requires |ns| == 2
    ensures ForestHeight(ns) == Max(Height(ns[0]), Height(ns[1]))
  {
    assert ns[..2] == ns;
    FirstShape(ns);
    PrefixHeight(ns, 1);
  }

  /** ... and the names of the first, then those of the second. */
  lemma {:induction false} PairNames(ns: seq<Node>)
    requires |ns| == 2
    ensures Search.ForestCollected(ns) == Search.Collected(ns[0]) + Search.Collected(ns[1])
  {
    assert ns[..2] == ns;
    FirstNames(ns);
    PrefixNames(ns, 1);
  }

  /** A forest of six trees has the nodes of all six. */
  lemma {:induction false} SixCount(ns: seq<Node>)
    requires |ns| == 6
    ensures ForestCount(ns) ==
            NodeCount(ns[0]) + NodeCount(ns[1]) + NodeCount(ns[2]) + NodeCount(ns[3]) + NodeCount(ns[4]) + NodeCount(ns[5])
  {
    assert ns[..6] == ns;
    FirstShape(ns);
    PrefixCount(ns, 1);
    PrefixCount(ns, 2);
    PrefixCount(ns, 3);
    PrefixCount(ns, 4);
    PrefixCount(ns, 5);
  }

  /** A forest of six trees is as high as the highest. */
  lemma {:induction false} SixHeight(ns: seq<Node>)
    requires |ns| == 6
    ensures ForestHeight(ns) ==
            Max(Max(Max(Max(Max(Height(ns[0]), Height(ns[1])), Height(ns[2])), Height(ns[3])), Height(ns[4])), Height(ns[5]))
  {
    assert ns[..6] == ns;
    FirstShape(ns);
    PrefixHeight(ns, 1);
    PrefixHeight(ns, 2);
    PrefixHeight(ns, 3);
    PrefixHeight(ns, 4);
    PrefixHeight(ns, 5);
  }

  /** A forest of six trees has the names of the six, in order. */
  lemma {:induction false} SixNames(ns: seq<Node>)
    requires |ns| == 6
    ensures Search.ForestCollected(ns) ==
            Search.Collected(ns[0]) + Search.Collected(ns[1]) + Search.Collected(ns[2])
            + Search.Collected(ns[3]) + Search.Collected(ns[4]) + Search.Collected(ns[5])
  {
    assert ns[..6] == ns;
    FirstNames(ns);
    PrefixNames(ns, 1);
    PrefixNames(ns, 2);
    PrefixNames(ns, 3);
    PrefixNames(ns, 4);
    PrefixNames(ns, 5);
  }

  /** A row of leaves has one node per name, ... */
  lemma {:induction false} LeavesCount(names: seq<string>)
    ensures ForestCount(Leaves(names)) == |names|
  {
    if names != [] {
      var init, last := names[..|names| - 1], names[|names| - 1];
      LeavesCount(init);
      SnocCount(Leaves(init), Leaf(last));
    }
  }

  /** ... no height, ... */
  lemma {:induction false} LeavesHeight(names: seq<string>)
    ensures ForestHeight(Leaves(names)) == 0
  {
    if names != [] {
      var init, last := names[..|names| - 1], names[|names| - 1];
      LeavesHeight(init);
      SnocHeight(Leaves(init), Leaf(last));
    }
  }

  /** A leaf contributes its own name. */
  lemma {:induction false} LeafNames(name: string)
    ensures Search.Collected(Leaf(name)) == [name]
  {
    assert Search.Collected(Leaf(name)) == [name] + [];
  }

  /** ... and the names, in order. */
  lemma {:induction false} LeavesNames(names: seq<string>)
    ensures Search.ForestCollected(Leaves(names)) == names
  {
    if names != [] {
      var init, last := names[..|names| - 1], names[|names| - 1];
      assert names == init + [last];
      LeavesNames(init);
      LeafNames(last);
      SnocNames(Leaves(init), Leaf(last));
    }
  }

  /** A group holding a row of leaves has the group node and its leaves, ... */
  lemma {:induction false} LeafGroupCount(name: string, color: string, names: seq<string>)
    ensures NodeCount(Group(name, color, Leaves(names))) == |names| + 1
  {
    LeavesCount(names);
  }

  /** ... is one level high when the row is not empty, ... */
  lemma {:induction false} LeafGroupHeight(name: string, color: string, names: seq<string>)
    requires names != []
    ensures Height(Group(name, color, Leaves(names))) == 1
  {
    LeavesHeight(names);
  }

  /** ... and has the names of its leaves. */
  lemma {:induction false} LeafGroupNames(name: string, color: string, names: seq<string>)
    ensures Search.Collected(Group(name, color, Leaves(names))) == names
  {
    LeavesNames(names);
  }

  /** A group of two non-empty groups of leaves has three group nodes and the leaves. */
  lemma {:induction false} TwoGroupsCount(name: string, color: string, n1: string, c1: string, names1: seq<string>, n2: string, c2: string, names2: seq<string>)
    requires names1 != [] && names2 != []
    ensures NodeCount(Group(name, color, [Group(n1, c1, Leaves(names1)), Group(n2, c2, Leaves(names2))])) == |names1| + |names2| + 3
  {
    var g1, g2 := Group(n1, c1, Leaves(names1)), Group(n2, c2, Leaves(names2));
    LeafGroupCount(n1, c1, names1);
    LeafGroupCount(n2, c2, names2);
    PairCount([g1, g2]);
  }

  /** A group of two non-empty groups of leaves is two levels high. */
  lemma {:induction false} TwoGroupsHeight(name: string, color: string, n1: string, c1: string, names1: seq<string>, n2: string, c2: string, names2: seq<string>)
    requires names1 != [] && names2 != []
    ensures Height(Group(name, color, [Group(n1, c1, Leaves(names1)), Group(n2, c2, Leaves(names2))])) == 2
  {
    var g1, g2 := Group(n1, c1, Leaves(names1)), Group(n2, c2, Leaves(names2));
    LeafGroupHeight(n1, c1, names1);
    LeafGroupHeight(n2, c2, names2);
    PairHeight([g1, g2]);
  }

  /** A group of two groups of leaves has the names of the first, then those of the second. */
  lemma {:induction false} TwoGroupsNames(name: string, color: string, n1: string, c1: string, names1: seq<string>, n2: string, c2: string, names2: seq<string>)
    requires names1 != [] && names2 != []
    ensures Search.Collected(Group(name, color, [Group(n1, c1, Leaves(names1)), Group(n2, c2, Leaves(names2))])) == names1 + names2
  {
    var g1, g2 := Group(n1, c1, Leaves(names1)), Group(n2, c2, Leaves(names2));
    LeafGroupNames(n1, c1, names1);
    LeafGroupNames(n2, c2, names2);
    PairNames([g1, g2]);
  }

  /** The names of the annotation leaves of the seed tree, in pre-order. */
  function SpringNames(): seq<string> {
    BootNames() + StereotypeNames() + BeansNames() + ContextNames() + WebNames() + DataNames() + SecurityNames()
  }

  /** From its name lists: the seed tree has nine group nodes, the root included, above its leaves. */
  lemma {:induction false} SpringTreeCount(boot: seq<string>, stereotype: seq<string>, beans: seq<string>, context: seq<string>,
                        web: seq<string>, data: seq<string>, security: seq<string>)
    requires boot != [] && stereotype != [] && beans != [] && context != [] && web != [] && data != [] && security != []
    ensures NodeCount(SpringTree(boot, stereotype, beans, context, web, data, security)) ==
            9 + |boot| + |stereotype| + |beans| + |context| + |web| + |data| + |security|
  {
    var gs := SpringTree(boot, stereotype, beans, context, web, data, security).children;
    LeafGroupCount("Boot", "#15803d", boot);
    LeafGroupCount("Stereotype", "#65a30d", stereotype);
    TwoGroupsCount("Core", "#0d9488", "Beans", "#2dd4bf", beans, "Context", "#5eead4", context);
    LeafGroupCount("Web", "#0369a1", web);
    LeafGroupCount("Data", "#7c3aed", data);
    LeafGroupCount("Security", "#be123c", security);
    SixCount(gs);
  }

  /** From its name lists: the seed tree is three levels deep below the root. */
  lemma {:induction false} SpringTreeHeight(boot: seq<string>, stereotype: seq<string>, beans: seq<string>, context: seq<string>,
                        web: seq<string>, data: seq<string>, security: seq<string>)
    requires boot != [] && stereotype != [] && beans != [] && context != [] && web != [] && data != [] && security != []
    ensures Height(SpringTree(boot, stereotype, beans, context, web, data, security)) == 3
  {
    var gs := SpringTree(boot, stereotype, beans, context, web, data, security).children;
    LeafGroupHeight("Boot", "#15803d", boot);
    LeafGroupHeight("Stereotype", "#65a30d", stereotype);
    TwoGroupsHeight("Core", "#0d9488", "Beans", "#2dd4bf", beans, "Context", "#5eead4", context);
    LeafGroupHeight("Web", "#0369a1", web);
    LeafGroupHeight("Data", "#7c3aed", data);
    LeafGroupHeight("Security", "#be123c", security);
    SixHeight(gs);
  }

  /** From its name lists: the seed tree's annotations are the lists' names, in pre-order. */
  lemma {:induction false} SpringTreeNames(boot: seq<string>, stereotype: seq<string>, beans: seq<string>, context: seq<string>,
                        web: seq<string>, data: seq<string>, security: seq<string>)
    requires boot != [] && stereotype != [] && beans != [] && context != [] && web != [] && data != [] && security != []
    ensures Search.Collected(SpringTree(boot, stereotype, beans, context, web, data, security)) ==
            boot + stereotype + beans + context + web + data + security
  {
    var gs := SpringTree(boot, stereotype, beans, context, web, data, security).children;
    LeafGroupNames("Boot", "#15803d", boot);
    LeafGroupNames("Stereotype", "#65a30d", stereotype);
    TwoGroupsNames("Core", "#0d9488", "Beans", "#2dd4bf", beans, "Context", "#5eead4", context);
    LeafGroupNames("Web", "#0369a1", web);
    LeafGroupNames("Data", "#7c3aed", data);
    LeafGroupNames("Security", "#be123c", security);
    SixNames(gs);
    Search.CollectedSplit(SpringTree(boot, stereotype, beans, context, web, data, security));
    Search.ConcatAssoc(boot + stereotype, beans, context);
  }

  /** The seed tree has 51 nodes on four levels, and its annotations are the 42 listed names, in pre-order. */
  lemma {:induction false} SpringShape()
    ensures NodeCount(Spring()) == 51 && Height(Spring()) == 3
    ensures Search.Collected(Spring()) == SpringNames() && |SpringNames()| == 42
  {
    SpringTreeCount(BootNames(), StereotypeNames(), BeansNames(), ContextNames(), WebNames(), DataNames(), SecurityNames());
    SpringTreeHeight(BootNames(), StereotypeNames(), BeansNames(), ContextNames(), WebNames(), DataNames(), SecurityNames());
    SpringTreeNames(BootNames(), StereotypeNames(), BeansNames(), ContextNames(), WebNames(), DataNames(), SecurityNames());
  }

  /** Drawn in a 1024 by 768 container, the seed tree keeps the width and grows to 51 rows of height. */
  lemma {:induction false} SpringLayout()
    ensures MindMap.ComputeLayout(Spring(), 1024, 768) ==
            MindMap.Layout(51, 3, 1024, 1122, 1042, 674, false)
  {
    SpringShape();
  }

  /** The search index built from the seed tree holds its 42 annotation names, sorted. */
  lemma {:induction false} SpringIndex(all: seq<string>)
    requires StringOrder.Sorted(all) && multiset(all) == multiset(Search.Collected(Spring()))
    ensures all == StringOrder.Sort(SpringNames()) && |all| == 42
  {
    SpringShape();
    Search.IndexIsSortedAnnotationNames(Spring(), all);
  }

  /** No seed annotation is `@EnableScheduling`. */
  lemma {:induction false} SchedulingNotSeeded()
    ensures "@EnableScheduling" !in SpringNames()
  {
  }

  /** ... so the seed tree carries no `@EnableScheduling` annotation. */
  lemma {:induction false} SchedulingNotCollected()
    ensures "@EnableScheduling" !in Search.Collected(Spring())
  {
    SpringShape();
    SchedulingNotSeeded();
  }

  /** A map whose root holds one `@EnableScheduling` leaf has that one annotation. */
  lemma {:induction false} SchedulingMapNames()
    ensures Search.Collected(Node("Scheduling", None, Some(Root), [Leaf("@EnableScheduling")])) == ["@EnableScheduling"]
  {
    var shown := Node("Scheduling", None, Some(Root), [Leaf("@EnableScheduling")]);
    LeafNames("@EnableScheduling");
    FirstNames(shown.children);
    assert Search.Collected(shown) == [] + ["@EnableScheduling"];
  }

  /**
   * The panel indexes the seed tree whatever map is on screen: with a map of
   * one scheduling annotation displayed, that annotation is not in the index.
   */
  lemma {:induction false} SeedIndexMissesShownMap(all: seq<string>)
    requires StringOrder.Sorted(all) && multiset(all) == multiset(Search.Collected(Spring()))
    ensures "@EnableScheduling" in Search.Collected(Node("Scheduling", None, Some(Root), [Leaf("@EnableScheduling")]))
    ensures "@EnableScheduling" !in all
  {
    SchedulingMapNames();
    SchedulingNotCollected();
    assert "@EnableScheduling" !in multiset(Search.Collected(Spring()));
  }
}

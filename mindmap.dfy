/**
 * The mind-map view (components/MindMap.tsx): the parameters the effect
 * computes from the tree and the container before handing them to the
 * layout library, the per-node drawing rules, and the small mutable view
 * state (the SVG viewBox and the zoom transform of the drawing group).
 * Node positions themselves are computed by the library's tidy-tree layout
 * and are not part of this model.
 */
module MindMap {
  import opened Wrappers
  import opened AnnotationTree

  /** Vertical room reserved per node, in pixels. */
  const RowUnit: nat := 22
  /** Horizontal room reserved per tree level, in pixels. */
  const LevelUnit: nat := 300
  /** Margins subtracted from the canvas before it is handed to the layout. */
  const BreadthMargin: nat := 80
  const DepthMargin: nat := 350
  /** Containers narrower than this are treated as mobile. */
  const MobileBreakpoint: nat := 768
  /** Neutral grey used when no colour applies. */
  const DefaultColor: string := "#475569"
  /** The zoom behaviour's scale extent. */
  const MinScale: real := 0.1
  const MaxScale: real := 5.0
  /** Separation weights for nodes under the same parent and under different parents. */
  const SiblingSeparation: real := 1.5
  const CousinSeparation: real := 2.5
  /** Circle radius while the pointer is over a node. */
  const HoverRadius: nat := 10

  // ---------------------------------------------------------------------
  // Sizing

  /** `dynamicHeight`: the container height, grown to give every node a row. */
  function CanvasHeight(containerHeight: nat, data: Node): (h: nat)
    ensures h >= containerHeight && h >= NodeCount(data) * RowUnit
    ensures h == containerHeight || h == NodeCount(data) * RowUnit
  {
    Max(containerHeight, NodeCount(data) * RowUnit)
  }

  /** `dynamicWidth`: the container width, grown to give every level a column. */
  function CanvasWidth(containerWidth: nat, data: Node): (w: nat)
    ensures w >= containerWidth && w >= Height(data) * LevelUnit
    ensures w == containerWidth || w == Height(data) * LevelUnit
  {
    Max(containerWidth, Height(data) * LevelUnit)
  }

  predicate IsMobile(containerWidth: nat) {
    containerWidth < MobileBreakpoint
  }

  /** Everything the effect derives from the tree and the container size. */
  datatype Layout = Layout(
    nodeCount: nat,     // root.descendants().length
    levelCount: nat,    // root.height
    canvasWidth: nat,   // dynamicWidth
    canvasHeight: nat,  // dynamicHeight
    breadth: int,       // first component of the tree size handed to the layout
    depth: int,         // second component
    isMobile: bool)

  function ComputeLayout(data: Node, width: nat, height: nat): (l: Layout)
    ensures l.nodeCount == NodeCount(data) && l.levelCount == Height(data)
    ensures l.levelCount < l.nodeCount
    ensures l.canvasHeight == CanvasHeight(height, data) && l.canvasWidth == CanvasWidth(width, data)
    ensures l.canvasHeight >= height && l.canvasHeight >= l.nodeCount * RowUnit
    ensures l.canvasHeight == height || l.canvasHeight == l.nodeCount * RowUnit
    ensures l.canvasWidth >= width && l.canvasWidth >= l.levelCount * LevelUnit
    ensures l.canvasWidth == width || l.canvasWidth == l.levelCount * LevelUnit
    ensures l.breadth == l.canvasHeight - BreadthMargin && l.depth == l.canvasWidth - DepthMargin
    ensures l.isMobile <==> width < MobileBreakpoint
  {
    var h := CanvasHeight(height, data);
    var w := CanvasWidth(width, data);
    Layout(NodeCount(data), Height(data), w, h, h - BreadthMargin, w - DepthMargin, IsMobile(width))
  }

  /** A tree that is only its root keeps the container width, and needs one row. */
  lemma {:induction false} RootOnlyLayout(data: Node, width: nat, height: nat)
    requires IsLeaf(data)
    ensures ComputeLayout(data, width, height).canvasWidth == width
    ensures ComputeLayout(data, width, height).nodeCount == 1
    ensures ComputeLayout(data, width, height).canvasHeight == Max(height, RowUnit)
  {
    assert NodeCount(data) == 1 + ForestCount([]);
  }

  /** Sizing is monotone in the container: a larger container never gives a smaller canvas. */
  lemma {:induction false} CanvasMonotone(data: Node, w1: nat, h1: nat, w2: nat, h2: nat)
    requires w1 <= w2 && h1 <= h2
    ensures CanvasWidth(w1, data) <= CanvasWidth(w2, data)
    ensures CanvasHeight(h1, data) <= CanvasHeight(h2, data)
  {
  }

  // ---------------------------------------------------------------------
  // Separation. Nodes are identified by their paths from the root; the
  // root has no parent, and two parentless nodes compare equal, as
  // `a.parent === b.parent` does for two nulls.

  function Parent(p: seq<nat>): Option<seq<nat>> {
    if p == [] then None else Some(p[..|p| - 1])
  }

  function Separation(a: seq<nat>, b: seq<nat>): (w: real)
    ensures w == SiblingSeparation || w == CousinSeparation
  {
    if Parent(a) == Parent(b) then SiblingSeparation else CousinSeparation
  }

  /** The separation of two nodes does not depend on their order. */
  lemma {:induction false} SeparationSymmetric(a: seq<nat>, b: seq<nat>)
    ensures Separation(a, b) == Separation(b, a)
  {
  }

  /** Children of one parent sit closer than children of two different parents. */
  lemma {:induction false} SiblingsCloser(p: seq<nat>, i: nat, j: nat, q: seq<nat>, r: seq<nat>, k: nat, l: nat)
    requires q != r
    ensures Separation(p + [i], p + [j]) == SiblingSeparation
    ensures Separation(q + [k], r + [l]) == CousinSeparation
    ensures Separation(p + [i], p + [j]) < Separation(q + [k], r + [l])
  {
    assert (p + [i])[..|p|] == p && (p + [j])[..|p|] == p;
    assert (q + [k])[..|q|] == q && (r + [l])[..|r|] == r;
  }

  // ---------------------------------------------------------------------
  // Zoom transform

  datatype Transform = Transform(x: real, y: real, k: real)

  predicate InScaleExtent(k: real) {
    MinScale <= k <= MaxScale
  }

  /** The preset applied once the tree is drawn: smaller and lower on mobile. */
  function InitialTransform(width: nat, height: nat): (t: Transform)
    ensures InScaleExtent(t.k)
    ensures IsMobile(width) ==> t == Transform(20.0, height as real / 4.0, 0.5)
    ensures !IsMobile(width) ==> t == Transform(80.0, 50.0, 0.75)
  {
    var mobile := IsMobile(width);
    Transform(if mobile then 20.0 else 80.0,
              if mobile then height as real / 4.0 else 50.0,
              if mobile then 0.5 else 0.75)
  }

  /** A mobile container always starts more zoomed out, and nearer the left edge, than a desktop one. */
  lemma {:induction false} MobileStartsSmaller(w1: nat, h1: nat, w2: nat, h2: nat)
    requires IsMobile(w1) && !IsMobile(w2)
    ensures InitialTransform(w1, h1).k < InitialTransform(w2, h2).k
    ensures InitialTransform(w1, h1).x < InitialTransform(w2, h2).x
  {
  }

  /** The scale the zoom behaviour lets through for a requested scale. */
  function ClampScale(k: real): (r: real)
    ensures InScaleExtent(r)
    ensures InScaleExtent(k) ==> r == k
    ensures k > MaxScale ==> r == MaxScale
    ensures k < MinScale ==> r == MinScale
  {
    if k < MinScale then MinScale else if k > MaxScale then MaxScale else k
  }

  /** Clamping is idempotent and never reverses the order of two requests. */
  lemma {:induction false} ClampScaleProperties(k1: real, k2: real)
    ensures ClampScale(ClampScale(k1)) == ClampScale(k1)
    ensures k1 <= k2 ==> ClampScale(k1) <= ClampScale(k2)
  {
  }

  // ---------------------------------------------------------------------
  // Colours, chosen with `||` (`Wrappers.OrElse`).

  /** Stroke of the edge from `source` (parent) to `target` (child). */
  function EdgeStroke(source: Node, target: Node): (s: string)
    ensures s != ""
    ensures Truthy(target.color) ==> s == target.color.value
    ensures !Truthy(target.color) && Truthy(source.color) ==> s == source.color.value
    ensures !Truthy(target.color) && !Truthy(source.color) ==> s == DefaultColor
  {
    OrElse(target.color, OrElse(source.color, DefaultColor))
  }

  /** Fill of a node's circle: its own colour only, never its parent's. */
  function NodeFill(n: Node): (s: string)
    ensures s != ""
    ensures Truthy(n.color) ==> s == n.color.value
    ensures !Truthy(n.color) ==> s == DefaultColor
  {
    OrElse(n.color, DefaultColor)
  }

  /** An edge is painted like its child when the child has a colour, and like its parent otherwise. */
  lemma {:induction false} EdgeFollowsFill(source: Node, target: Node)
    ensures EdgeStroke(source, target) == if Truthy(target.color) then NodeFill(target) else NodeFill(source)
  {
  }

  // ---------------------------------------------------------------------
  // Circles

  /** Radius of a node's circle when the pointer is not over it. */
  function BaseRadius(kind: Option<NodeType>): (r: nat)
    ensures kind == Some(Root) ==> r == 8
    ensures kind == Some(Category) ==> r == 6
    ensures kind == Some(Annotation) || kind == None ==> r == 4
  {
    match kind
    case Some(Root) => 8
    case Some(Category) => 6
    case _ => 4
  }

  /** Hovering always enlarges a circle, and the root is drawn largest. */
  lemma {:induction false} RadiusOrder(kind: Option<NodeType>)
    ensures 0 < BaseRadius(kind) < HoverRadius
    ensures BaseRadius(Some(Annotation)) < BaseRadius(Some(Category)) < BaseRadius(Some(Root))
    ensures BaseRadius(kind) <= BaseRadius(Some(Root))
  {
  }

  /** One node's circle; its radius is the only attribute that changes. */
  class NodeCircle {
    const kind: Option<NodeType>
    var r: nat

    ghost predicate Valid()
      reads this
    {
      r == BaseRadius(kind) || r == HoverRadius
    }

    constructor (kind: Option<NodeType>)
      ensures Valid() && this.kind == kind && r == BaseRadius(kind)
    {
      this.kind := kind;
      r := BaseRadius(kind);
    }

    method MouseOver()
      requires Valid()
      modifies this
      ensures Valid() && r == HoverRadius && old(r) <= r
    {
      RadiusOrder(kind);
      r := HoverRadius;
    }

    /** Restores the radius from the node's kind, whatever it was before. */
    method MouseOut()
      requires Valid()
      modifies this
      ensures Valid() && r == BaseRadius(kind)
    {
      r := BaseRadius(kind);
    }
  }

  // ---------------------------------------------------------------------
  // Labels

  datatype Anchor = Start | End

  datatype Label = Label(x: int, anchor: Anchor, fontSize: nat)

  /** A node's label: to the left of a node with children, to the right of a leaf. */
  function NodeLabel(n: Node, isMobile: bool): (l: Label)
    ensures l.anchor == End <==> !IsLeaf(n)
    ensures l.anchor == End <==> l.x < 0
    ensures l.x == 0 - 8 || l.x == 8 <==> isMobile
    ensures l.x == 0 - 15 || l.x == 15 <==> !isMobile
    ensures l.fontSize == if isMobile then 11 else 14
  {
    var offset := if isMobile then 8 else 15;
    var font := if isMobile then 11 else 14;
    if n.children != [] then Label(-offset, End, font) else Label(offset, Start, font)
  }

  /** Labels sit closer to their node, and are smaller, on mobile. */
  lemma {:induction false} MobileLabelsSmaller(n: Node)
    ensures NodeLabel(n, true).fontSize < NodeLabel(n, false).fontSize
    ensures NodeLabel(n, true).anchor == NodeLabel(n, false).anchor
    ensures NodeLabel(n, false).x < NodeLabel(n, true).x < 0 || 0 < NodeLabel(n, true).x < NodeLabel(n, false).x
  {
  }

  // ---------------------------------------------------------------------
  // The view: viewBox of the SVG and transform of the drawing group.

  datatype ViewBox = ViewBox(minX: int, minY: int, width: nat, height: nat)

  datatype ViewState = ViewState(viewBox: ViewBox, transform: Transform, layout: Layout)

  /** The state right after the effect has drawn `data` into a `width` x `height` container. */
  function Rendered(data: Node, width: nat, height: nat): (s: ViewState)
    ensures s.viewBox == ViewBox(0, 0, width, height)
    ensures s.transform == InitialTransform(width, height)
    ensures s.layout == ComputeLayout(data, width, height)
  {
    ViewState(ViewBox(0, 0, width, height), InitialTransform(width, height), ComputeLayout(data, width, height))
  }

  /** The resize handler: a new viewBox, nothing else. */
  function Resized(s: ViewState, width: nat, height: nat): (t: ViewState)
    ensures t.viewBox == ViewBox(0, 0, width, height)
    ensures t.transform == s.transform && t.layout == s.layout
  {
    s.(viewBox := ViewBox(0, 0, width, height))
  }

  /** Applying the same resize twice is applying it once; the latest resize wins. */
  lemma {:induction false} ResizeIdempotent(s: ViewState, w1: nat, h1: nat, w2: nat, h2: nat)
    ensures Resized(Resized(s, w1, h1), w1, h1) == Resized(s, w1, h1)
    ensures Resized(Resized(s, w1, h1), w2, h2) == Resized(s, w2, h2)
  {
  }

  class MindMapView {
    var viewBox: ViewBox
    var transform: Transform
    var layout: Layout

    function State(): ViewState
      reads this
    {
      ViewState(viewBox, transform, layout)
    }

    /** The zoom transform always stays inside the scale extent. */
    ghost predicate Valid()
      reads this
    {
      InScaleExtent(transform.k)
    }

    /** The effect: clears the drawing, sizes it to the container and applies the initial preset. */
    constructor Render(data: Node, width: nat, height: nat)
      ensures Valid() && State() == Rendered(data, width, height)
    {
      viewBox := ViewBox(0, 0, width, height);
      layout := ComputeLayout(data, width, height);
      transform := InitialTransform(width, height);
    }

    /** The resize handler. */
    method Resize(newWidth: nat, newHeight: nat)
      requires Valid()
      modifies this
      ensures Valid() && State() == Resized(old(State()), newWidth, newHeight)
    {
      viewBox := ViewBox(0, 0, newWidth, newHeight);
    }

    /**
     * The zoom listener: the gesture's translation is taken as given, and
     * its scale is kept inside the extent.
     */
    method Zoom(x: real, y: real, k: real)
      requires Valid()
      modifies this
      ensures Valid() && transform == Transform(x, y, ClampScale(k))
      ensures viewBox == old(viewBox) && layout == old(layout)
    {
      transform := Transform(x, y, ClampScale(k));
    }
  }
}

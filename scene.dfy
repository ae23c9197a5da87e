/** The part of the host's scene graph the plugin reads and writes. A node is a
    tagged record: its type tag, the properties the plugin reads, and its
    children in sibling order. A created instance is seen as an arena: the
    list of its descendant layers in the depth-first order in which the host's
    findOne and findAll visit them, addressed by index. */
module Scene {
  import opened Base

  datatype NodeType = Text | Rectangle | Frame | Group | Component | ComponentSet | Instance | OtherType

  datatype ScaleMode = Fill | Fit | Crop | Tile

  /** Colours are reduced to a tag: the neutral grey fallback of the image
      slot, or any other colour. */
  datatype Color = NeutralGray | OtherColor

  datatype Paint = ImagePaint(imageHash: string, scaleMode: ScaleMode) | SolidPaint(color: Color) | GradientPaint

  /** A shape's `fills`: a list of paints, or the host's "mixed" marker. */
  datatype Fills = MixedFills | Paints(paints: seq<Paint>)

  /** One entry of a component set's variantGroupProperties. */
  datatype VariantGroup = VariantGroup(property: string, values: seq<string>)

  datatype Node = Node(
    nodeType: NodeType,
    name: string,
    key: string,                       // components: the stable import key
    characters: string,                // text nodes: the current text
    fontLoads: bool,                   // text nodes: figma.loadFontAsync(fontName) resolves
    fills: Fills,                      // shapes
    boxY: Option<int>,                 // absoluteBoundingBox?.y
    variantGroups: seq<VariantGroup>,  // component sets
    defaultVariantKey: Option<string>, // component sets: defaultVariant?.key
    children: seq<Node>)

  /** `absoluteBoundingBox?.y || 0`. */
  function BoxY(n: Node): int {
    if n.boxY.Some? then n.boxY.value else 0
  }

  /** isImageLayer: a rectangle whose fills are a list holding an image paint. */
  predicate IsImageFill(t: NodeType, fills: Fills) {
    t == Rectangle && fills.Paints? && exists i :: 0 <= i < |fills.paints| && fills.paints[i].ImagePaint?
  }

  predicate IsImageLayer(n: Node) {
    IsImageFill(n.nodeType, n.fills)
  }

  /** n and then, child by child, each child's subtree. */
  function Preorder(n: Node): (r: seq<Node>)
    ensures |r| >= 1 && r[0] == n
    decreases n, 1
  {
    [n] + PreorderAll(n.children)
  }

  function PreorderAll(ns: seq<Node>): seq<Node>
    decreases ns, 0
  {
    if ns == [] then [] else Preorder(ns[0]) + PreorderAll(ns[1..])
  }

  /** What findAll and findOne search: every node below n, depth first,
      without n itself. */
  function Descendants(n: Node): seq<Node> {
    PreorderAll(n.children)
  }

  /** `node.findOne(n => n.type === t && n.name === name)` is non-null. */
  predicate HasLayerIn(ns: seq<Node>, t: NodeType, name: string) {
    exists i :: 0 <= i < |ns| && ns[i].nodeType == t && ns[i].name == name
  }

  /** One layer of an instance, as the hydration reads and writes it. */
  datatype Layer = Layer(layerType: NodeType, name: string, characters: string, fontLoads: bool, fills: Fills)

  function LayerOf(n: Node): Layer {
    Layer(n.nodeType, n.name, n.characters, n.fontLoads, n.fills)
  }

  /** The layers of a fresh instance of component c: c's descendants. */
  function InstanceLayers(c: Node): (ls: seq<Layer>)
    ensures |ls| == |Descendants(c)|
    ensures forall i :: 0 <= i < |ls| ==> ls[i] == LayerOf(Descendants(c)[i])
  {
    var ds := Descendants(c);
    seq(|ds|, i requires 0 <= i < |ds| => LayerOf(ds[i]))
  }

  predicate Matches(l: Layer, t: NodeType, name: string) {
    l.layerType == t && l.name == name
  }

  /** findOne by type and name: the first matching layer in search order. */
  function FindOne(ls: seq<Layer>, t: NodeType, name: string): (r: Option<nat>)
    ensures r.Some? ==> r.value < |ls| && Matches(ls[r.value], t, name)
    ensures r.Some? ==> forall j :: 0 <= j < r.value ==> !Matches(ls[j], t, name)
    ensures r.None? ==> forall j :: 0 <= j < |ls| ==> !Matches(ls[j], t, name)
  {
    if ls == [] then None
    else if Matches(ls[0], t, name) then Some(0)
    else match FindOne(ls[1..], t, name)
      case None => None
      case Some(k) => Some(k + 1)
  }

  /** Same length, and each layer keeps its type, its name and its font. */
  predicate SameShape(a: seq<Layer>, b: seq<Layer>) {
    |a| == |b| && forall k :: 0 <= k < |a| ==>
      a[k].layerType == b[k].layerType && a[k].name == b[k].name && a[k].fontLoads == b[k].fontLoads
  }

  /** Writing characters or fills never changes what findOne finds. */
  lemma {:induction false} FindOneSameShape(a: seq<Layer>, b: seq<Layer>, t: NodeType, name: string)
    requires SameShape(a, b)
    ensures FindOne(a, t, name) == FindOne(b, t, name)
  {
    if a != [] {
      assert SameShape(a[1..], b[1..]);
      FindOneSameShape(a[1..], b[1..], t, name);
    }
  }
}

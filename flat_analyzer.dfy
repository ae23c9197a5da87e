/** The analyzer of code.ts (compiled unchanged into dist/code.js): it flattens
    the representative component into all its text layers, ordered top to
    bottom, then all its image layers, ordered the same way, then, for a
    component set, the synthetic `variant` field. */
module FlatAnalyzer {
  import opened Base
  import opened StableSort
  import opened Scene
  import opened Fields

  predicate IsTextNode(n: Node) {
    n.nodeType == Text
  }

  /** `findAll(n => n.type === "TEXT")` sorted by `aY - bY`. */
  function TextLayers(c: Node): seq<Node> {
    SortByKey(Filter(Descendants(c), IsTextNode), BoxY)
  }

  /** findAll of the image layers (rectangles with an image paint), sorted the
      same way. */
  function ImageLayers(c: Node): seq<Node> {
    SortByKey(Filter(Descendants(c), IsImageLayer), BoxY)
  }

  /** The text layers are every text node below c, ascending by box y (0 when
      there is no box) and, the sort being stable, in search order among
      layers at the same y. */
  lemma TextLayersOrdered(c: Node)
    ensures SortedByKey(TextLayers(c), BoxY)
    ensures multiset(TextLayers(c)) == multiset(Filter(Descendants(c), IsTextNode))
    ensures forall y :: WithKey(TextLayers(c), BoxY, y) == WithKey(Filter(Descendants(c), IsTextNode), BoxY, y)
  {
    var found := Filter(Descendants(c), IsTextNode);
    SortByKeySortedPermutation(found, BoxY);
    forall y ensures WithKey(SortByKey(found, BoxY), BoxY, y) == WithKey(found, BoxY, y) {
      SortByKeyStable(found, BoxY, y);
    }
  }

  /** The same for the image layers. */
  lemma ImageLayersOrdered(c: Node)
    ensures SortedByKey(ImageLayers(c), BoxY)
    ensures multiset(ImageLayers(c)) == multiset(Filter(Descendants(c), IsImageLayer))
    ensures forall y :: WithKey(ImageLayers(c), BoxY, y) == WithKey(Filter(Descendants(c), IsImageLayer), BoxY, y)
  {
    var found := Filter(Descendants(c), IsImageLayer);
    SortByKeySortedPermutation(found, BoxY);
    forall y ensures WithKey(SortByKey(found, BoxY), BoxY, y) == WithKey(found, BoxY, y) {
      SortByKeyStable(found, BoxY, y);
    }
  }

  /** A layer is a text layer of c exactly when it is a text node below c. */
  lemma TextLayersExactly(c: Node, n: Node)
    ensures n in TextLayers(c) <==> n in Descendants(c) && n.nodeType == Text
  {
    TextLayersOrdered(c);
    assert n in TextLayers(c) <==> n in multiset(TextLayers(c));
    var ds := Descendants(c);
    var found := Filter(ds, IsTextNode);
    assert n in found <==> n in multiset(found);
    if n in ds && n.nodeType == Text {
      var k :| 0 <= k < |ds| && ds[k] == n;
      assert IsTextNode(ds[k]);
    }
  }

  /** A layer is an image layer of c exactly when it is an image rectangle below c. */
  lemma ImageLayersExactly(c: Node, n: Node)
    ensures n in ImageLayers(c) <==> n in Descendants(c) && IsImageLayer(n)
  {
    ImageLayersOrdered(c);
    assert n in ImageLayers(c) <==> n in multiset(ImageLayers(c));
    var ds := Descendants(c);
    var found := Filter(ds, IsImageLayer);
    assert n in found <==> n in multiset(found);
    if n in ds && IsImageLayer(n) {
      var k :| 0 <= k < |ds| && ds[k] == n;
      assert IsImageLayer(ds[k]);
    }
  }

  /** The text fields of texts, then the image fields of images, then variant. */
  function FieldList(texts: seq<Node>, images: seq<Node>, variant: seq<Field>): (fs: seq<Field>)
    ensures |fs| == |texts| + |images| + |variant|
    ensures forall i :: 0 <= i < |texts| ==> fs[i] == TextField(texts[i], None)
    ensures forall j :: 0 <= j < |images| ==> fs[|texts| + j] == ImageField(images[j], None)
    ensures fs[|texts| + |images|..] == variant
  {
    seq(|texts|, i requires 0 <= i < |texts| => TextField(texts[i], None))
      + seq(|images|, j requires 0 <= j < |images| => ImageField(images[j], None))
      + variant
  }

  /** analyzeComponent as a function of the node: null for a component set
      with no children; otherwise the info keyed by the representative, whose
      fields are the representative's text layers top to bottom, then its image
      layers top to bottom, then, for a set, the one variant field. */
  function Analysis(node: Node): (info: Option<ComponentInfo>)
    ensures info.None? <==> node.nodeType == ComponentSet && node.children == []
    ensures info.Some? ==>
      var c := Representative(node);
      && info.value.key == c.key
      && info.value.name == node.name
      && info.value.variants == GetVariantInfo(node)
      && info.value.fields == FieldList(TextLayers(c), ImageLayers(c), VariantFields(node))
      && DuplicatesReported(info.value)
  {
    if node.nodeType == ComponentSet && node.children == [] then None
    else
      var c := Representative(node);
      var fields := FieldList(TextLayers(c), ImageLayers(c), VariantFields(node));
      var duplicates := DuplicatesOf(Names(fields));
      Some(ComponentInfo(c.key, node.name, GetVariantInfo(node), fields, duplicates != [], duplicates))
  }

  /** Field by field: the text layers come first, then the image layers, and
      a set's list ends with its one variant field; a plain component has no
      variant field. */
  lemma AnalysisLayout(node: Node)
    requires Analysis(node).Some?
    ensures var fs, c := Analysis(node).value.fields, Representative(node);
      var t, m := |TextLayers(c)|, |ImageLayers(c)|;
      && |fs| == t + m + (if node.nodeType == ComponentSet then 1 else 0)
      && (forall i :: 0 <= i < t ==> fs[i].fieldType == TextType && fs[i].name == TextLayers(c)[i].name)
      && (forall i :: t <= i < t + m ==> fs[i].fieldType == ImageType && fs[i].name == ImageLayers(c)[i - t].name)
      && (node.nodeType == ComponentSet ==> fs[t + m].name == VariantFieldName && fs[t + m].fieldType == StringType)
  {
    var c := Representative(node);
    FieldListLayout(TextLayers(c), ImageLayers(c), VariantFields(node));
  }

  lemma FieldListLayout(texts: seq<Node>, images: seq<Node>, variant: seq<Field>)
    ensures var fs, t, m := FieldList(texts, images, variant), |texts|, |images|;
      && (forall i :: 0 <= i < t ==> fs[i].fieldType == TextType && fs[i].name == texts[i].name)
      && (forall i :: t <= i < t + m ==> fs[i].fieldType == ImageType && fs[i].name == images[i - t].name)
      && (forall i :: t + m <= i < |fs| ==> fs[i] == variant[i - t - m])
  {
    var fs, t, m := FieldList(texts, images, variant), |texts|, |images|;
    forall i | t <= i < t + m
      ensures fs[i] == ImageField(images[i - t], None)
    {
      assert fs[t + (i - t)] == ImageField(images[i - t], None);
    }
    forall i | t + m <= i < |fs|
      ensures fs[i] == variant[i - t - m]
    {
      assert fs[t + m..][i - t - m] == fs[i];
    }
  }

  /** The text-layer loop: one text field per layer, in order. */
  method PushTextFields(textLayers: seq<Node>) returns (fields: seq<Field>)
    ensures fields == FieldList(textLayers, [], [])
  {
    fields := [];
    for i := 0 to |textLayers|
      invariant fields == FieldList(textLayers[..i], [], [])
    {
      fields := fields + [TextField(textLayers[i], None)];
    }
    assert textLayers[..|textLayers|] == textLayers;
  }

  /** The image-layer loop: one image field per layer, after the text fields. */
  method PushImageFields(textLayers: seq<Node>, imageLayers: seq<Node>, textFields: seq<Field>) returns (fields: seq<Field>)
    requires textFields == FieldList(textLayers, [], [])
    ensures fields == FieldList(textLayers, imageLayers, [])
  {
    fields := textFields;
    for j := 0 to |imageLayers|
      invariant fields == FieldList(textLayers, imageLayers[..j], [])
    {
      fields := fields + [ImageField(imageLayers[j], None)];
    }
    assert imageLayers[..|imageLayers|] == imageLayers;
  }

  /** The code itself: text fields pushed in order, then image fields, then
      the variant field, then the duplicate pass. */
  method AnalyzeComponent(node: Node) returns (info: Option<ComponentInfo>)
    ensures info == Analysis(node)
  {
    if node.nodeType == ComponentSet && node.children == [] {
      return None;
    }
    var component := Representative(node);
    var variants := GetVariantInfo(node);
    var textLayers := TextLayers(component);
    var imageLayers := ImageLayers(component);
    var textFields := PushTextFields(textLayers);
    var fields := PushImageFields(textLayers, imageLayers, textFields);
    if node.nodeType == ComponentSet {
      fields := AddVariantField(fields, node, variants);
    }
    assert fields == FieldList(textLayers, imageLayers, VariantFields(node));
    var duplicates, hasDuplicates := FindDuplicateFields(fields);
    info := Some(ComponentInfo(component.key, node.name, variants, fields, hasDuplicates, duplicates));
  }
}

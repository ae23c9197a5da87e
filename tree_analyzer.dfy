/** The divergent analyzer of code.js: a depth-first walk of the representative
    component, the component itself included, that records a field for every
    text layer and every image layer in visiting order (no sort by position)
    and tags each field with the name of the innermost enclosing "fact frame"
    (a frame whose name contains "WithPoints"), the layer itself included. */
module TreeAnalyzer {
  import opened Base
  import opened Scene
  import opened Fields

  const FactFrameMarker := "WithPoints"

  predicate IsFactFrame(n: Node) {
    n.nodeType == Frame && Contains(n.name, FactFrameMarker)
  }

  /** currentParent: the node's own name if it is a fact frame, else the
      frame passed down. */
  function CurrentParent(n: Node, parentFrame: Option<string>): Option<string> {
    if IsFactFrame(n) then Some(n.name) else parentFrame
  }

  /** The field, if any, that a node contributes on its own. */
  function OwnFields(n: Node, parentFrame: Option<string>): seq<Field> {
    if n.nodeType == Text then [TextField(n, parentFrame)]
    else if IsImageLayer(n) then [ImageField(n, parentFrame)]
    else []
  }

  /** What processNode appends for node and its subtree. */
  function NodeFields(n: Node, parentFrame: Option<string>): seq<Field>
    decreases n, 1
  {
    var current := CurrentParent(n, parentFrame);
    OwnFields(n, current) + ChildrenFields(n.children, current)
  }

  function ChildrenFields(ns: seq<Node>, parentFrame: Option<string>): seq<Field>
    decreases ns, 0
  {
    if ns == [] then [] else NodeFields(ns[0], parentFrame) + ChildrenFields(ns[1..], parentFrame)
  }

  lemma {:induction false} ChildrenFieldsAppend(ns: seq<Node>, m: Node, parentFrame: Option<string>)
    ensures ChildrenFields(ns + [m], parentFrame) == ChildrenFields(ns, parentFrame) + NodeFields(m, parentFrame)
  {
    if ns == [] {
      assert ([] + [m])[1..] == [];
    } else {
      assert (ns + [m])[1..] == ns[1..] + [m];
      ChildrenFieldsAppend(ns[1..], m, parentFrame);
    }
  }

  /** One more child walked: the fields so far plus that child's fields. */
  lemma ChildrenStep(own: seq<Field>, ns: seq<Node>, i: nat, parentFrame: Option<string>)
    requires i < |ns|
    ensures own + ChildrenFields(ns[..i], parentFrame) + NodeFields(ns[i], parentFrame)
      == own + ChildrenFields(ns[..i + 1], parentFrame)
  {
    assert ns[..i + 1] == ns[..i] + [ns[i]];
    ChildrenFieldsAppend(ns[..i], ns[i], parentFrame);
  }

  /** processNode: appends the node's own field, then walks the children in
      order with the current parent frame. */
  method ProcessNode(node: Node, parentFrame: Option<string>, fields: seq<Field>) returns (out: seq<Field>)
    ensures out == fields + NodeFields(node, parentFrame)
    decreases node
  {
    var isFactFrame := node.nodeType == Frame && Contains(node.name, FactFrameMarker);
    var currentParent := if isFactFrame then Some(node.name) else parentFrame;
    out := fields;
    if node.nodeType == Text {
      out := out + [TextField(node, currentParent)];
    } else if IsImageLayer(node) {
      out := out + [ImageField(node, currentParent)];
    }
    ghost var own := out;
    for i := 0 to |node.children|
      invariant out == own + ChildrenFields(node.children[..i], currentParent)
    {
      var child := node.children[i];
      out := ProcessNode(child, currentParent, out);
      ChildrenStep(own, node.children, i, currentParent);
    }
    assert node.children[..|node.children|] == node.children;
  }

  /** collectComponentFields: the walk from the component with no frame. */
  method CollectComponentFields(component: Node) returns (fields: seq<Field>)
    ensures fields == NodeFields(component, None)
  {
    fields := ProcessNode(component, None, []);
  }

  // ---- An independent description of the walk: root-to-node paths ----

  /** The path from a subtree's root to each of its nodes, in depth-first order. */
  function Paths(n: Node): (ps: seq<seq<Node>>)
    ensures |ps| >= 1 && ps[0] == [n]
    ensures forall i :: 0 <= i < |ps| ==> |ps[i]| >= 1
    decreases n, 1
  {
    [[n]] + Prefixed(n, PathsAll(n.children))
  }

  function PathsAll(ns: seq<Node>): (ps: seq<seq<Node>>)
    ensures forall i :: 0 <= i < |ps| ==> |ps[i]| >= 1
    decreases ns, 0
  {
    if ns == [] then [] else Paths(ns[0]) + PathsAll(ns[1..])
  }

  function Prefixed(n: Node, ps: seq<seq<Node>>): (r: seq<seq<Node>>)
    ensures |r| == |ps| && forall i :: 0 <= i < |ps| ==> r[i] == [n] + ps[i]
  {
    seq(|ps|, i requires 0 <= i < |ps| => [n] + ps[i])
  }

  /** The name of the innermost fact frame on a path, or outer if none. */
  function InnermostFrame(path: seq<Node>, outer: Option<string>): Option<string> {
    if path == [] then outer
    else if IsFactFrame(path[|path| - 1]) then Some(path[|path| - 1].name)
    else InnermostFrame(path[..|path| - 1], outer)
  }

  /** With no fact frame on the path the outer frame is kept; otherwise the
      result names the fact frame nearest the path's end. */
  lemma {:induction false} InnermostFrameIsNearest(path: seq<Node>, outer: Option<string>)
    ensures (forall i :: 0 <= i < |path| ==> !IsFactFrame(path[i])) ==> InnermostFrame(path, outer) == outer
    ensures (exists i :: 0 <= i < |path| && IsFactFrame(path[i])) ==>
      exists k :: 0 <= k < |path| && IsFactFrame(path[k]) && InnermostFrame(path, outer) == Some(path[k].name)
        && forall j :: k < j < |path| ==> !IsFactFrame(path[j])
  {
    if path != [] && !IsFactFrame(path[|path| - 1]) {
      var init := path[..|path| - 1];
      InnermostFrameIsNearest(init, outer);
      assert forall i :: 0 <= i < |init| ==> init[i] == path[i];
    }
  }

  /** The fields of the node at the end of each path, each tagged with its
      path's innermost fact frame (paths are never empty; an empty one would
      contribute nothing). */
  function FieldsAlong(ps: seq<seq<Node>>, outer: Option<string>): seq<Field> {
    if ps == [] then []
    else
      var own := if ps[0] == [] then [] else OwnFields(ps[0][|ps[0]| - 1], InnermostFrame(ps[0], outer));
      own + FieldsAlong(ps[1..], outer)
  }

  /** The last node of each path. */
  function Ends(ps: seq<seq<Node>>): (r: seq<Node>)
    requires forall i :: 0 <= i < |ps| ==> |ps[i]| >= 1
    ensures |r| == |ps| && forall i :: 0 <= i < |ps| ==> r[i] == ps[i][|ps[i]| - 1]
  {
    seq(|ps|, i requires 0 <= i < |ps| => ps[i][|ps[i]| - 1])
  }

  lemma {:induction false} FieldsAlongAppend(a: seq<seq<Node>>, b: seq<seq<Node>>, outer: Option<string>)
    ensures FieldsAlong(a + b, outer) == FieldsAlong(a, outer) + FieldsAlong(b, outer)
  {
    if a == [] {
      assert a + b == b;
    } else {
      var ab := a + b;
      assert ab[0] == a[0];
      assert ab[1..] == a[1..] + b;
      FieldsAlongAppend(a[1..], b, outer);
    }
  }

  /** A frame on top of every path acts as the frame passed down to them. */
  lemma {:induction false} InnermostFramePrepend(n: Node, p: seq<Node>, outer: Option<string>)
    ensures InnermostFrame([n] + p, outer) == InnermostFrame(p, CurrentParent(n, outer))
    decreases |p|
  {
    if p == [] {
      assert ([n] + p)[..0] == [];
    } else {
      var q := [n] + p;
      assert q[|q| - 1] == p[|p| - 1];
      assert q[..|q| - 1] == [n] + p[..|p| - 1];
      InnermostFramePrepend(n, p[..|p| - 1], outer);
    }
  }

  lemma {:induction false} FieldsAlongPrefixed(n: Node, ps: seq<seq<Node>>, outer: Option<string>)
    requires forall i :: 0 <= i < |ps| ==> |ps[i]| >= 1
    ensures FieldsAlong(Prefixed(n, ps), outer) == FieldsAlong(ps, CurrentParent(n, outer))
  {
    if ps != [] {
      var q := Prefixed(n, ps);
      assert q[1..] == Prefixed(n, ps[1..]);
      assert q[0][|q[0]| - 1] == ps[0][|ps[0]| - 1];
      InnermostFramePrepend(n, ps[0], outer);
      FieldsAlongPrefixed(n, ps[1..], outer);
    }
  }

  /** The walk records, for the node at the end of each root-to-node path in
      depth-first order, that node's field tagged with the innermost fact
      frame on its path (or the frame the walk started with). */
  lemma {:induction false} NodeFieldsAlongPaths(n: Node, outer: Option<string>)
    ensures NodeFields(n, outer) == FieldsAlong(Paths(n), outer)
    decreases n, 1
  {
    var rest := PathsAll(n.children);
    FieldsAlongAppend([[n]], Prefixed(n, rest), outer);
    FieldsAlongPrefixed(n, rest, outer);
    ChildrenFieldsAlongPaths(n.children, CurrentParent(n, outer));
    assert InnermostFrame([n], outer) == CurrentParent(n, outer) by {
      assert [n][..0] == [];
    }
  }

  lemma {:induction false} ChildrenFieldsAlongPaths(ns: seq<Node>, outer: Option<string>)
    ensures ChildrenFields(ns, outer) == FieldsAlong(PathsAll(ns), outer)
    decreases ns, 0
  {
    if ns != [] {
      NodeFieldsAlongPaths(ns[0], outer);
      ChildrenFieldsAlongPaths(ns[1..], outer);
      FieldsAlongAppend(Paths(ns[0]), PathsAll(ns[1..]), outer);
    }
  }

  lemma EndsAppend(a: seq<seq<Node>>, b: seq<seq<Node>>)
    requires forall i :: 0 <= i < |a| ==> |a[i]| >= 1
    requires forall i :: 0 <= i < |b| ==> |b[i]| >= 1
    ensures Ends(a + b) == Ends(a) + Ends(b)
  {
    var ab := a + b;
    assert forall i :: 0 <= i < |a| ==> ab[i] == a[i];
    assert forall i :: |a| <= i < |ab| ==> ab[i] == b[i - |a|];
  }

  /** The paths end at the nodes in exactly the host's depth-first order, the
      subtree's root first: one path per node. */
  lemma {:induction false} PathEndsArePreorder(n: Node)
    ensures Ends(Paths(n)) == Preorder(n)
    decreases n, 1
  {
    PathEndsArePreorderAll(n.children);
    EndsCons(n, PathsAll(n.children));
  }

  /** The paths of a node: the node itself, then its children's paths below it. */
  lemma EndsCons(n: Node, ps: seq<seq<Node>>)
    requires forall i :: 0 <= i < |ps| ==> |ps[i]| >= 1
    ensures Ends([[n]] + Prefixed(n, ps)) == [n] + Ends(ps)
  {
    EndsPrefixed(n, ps);
    EndsAppend([[n]], Prefixed(n, ps));
    assert Ends([[n]]) == [n];
  }

  /** Putting a node on top of every path keeps their ends. */
  lemma EndsPrefixed(n: Node, ps: seq<seq<Node>>)
    requires forall i :: 0 <= i < |ps| ==> |ps[i]| >= 1
    ensures Ends(Prefixed(n, ps)) == Ends(ps)
  {
    var q := Prefixed(n, ps);
    forall i | 0 <= i < |ps| ensures q[i][|q[i]| - 1] == ps[i][|ps[i]| - 1] {
      assert q[i] == [n] + ps[i];
    }
  }

  lemma {:induction false} PathEndsArePreorderAll(ns: seq<Node>)
    ensures Ends(PathsAll(ns)) == PreorderAll(ns)
    decreases ns, 0
  {
    if ns != [] {
      PathEndsArePreorder(ns[0]);
      PathEndsArePreorderAll(ns[1..]);
      EndsAppend(Paths(ns[0]), PathsAll(ns[1..]));
    }
  }

  /** analyzeComponent of code.js as a function of the node. */
  function TreeAnalysis(node: Node): (info: Option<ComponentInfo>)
    ensures info.None? <==> node.nodeType == ComponentSet && node.children == []
    ensures info.Some? ==>
      var c := Representative(node);
      && info.value.key == c.key
      && info.value.name == node.name
      && info.value.variants == GetVariantInfo(node)
      && info.value.fields == FieldsAlong(Paths(c), None) + VariantFields(node)
      && DuplicatesReported(info.value)
  {
    if node.nodeType == ComponentSet && node.children == [] then None
    else
      var c := Representative(node);
      NodeFieldsAlongPaths(c, None);
      var fields := NodeFields(c, None) + VariantFields(node);
      var duplicates := DuplicatesOf(Names(fields));
      Some(ComponentInfo(c.key, node.name, GetVariantInfo(node), fields, duplicates != [], duplicates))
  }

  method AnalyzeComponent(node: Node) returns (info: Option<ComponentInfo>)
    ensures info == TreeAnalysis(node)
  {
    if node.nodeType == ComponentSet && node.children == [] {
      return None;
    }
    var component := Representative(node);
    var variants := GetVariantInfo(node);
    var fields := CollectComponentFields(component);
    if node.nodeType == ComponentSet {
      fields := AddVariantField(fields, node, variants);
    }
    assert fields == NodeFields(component, None) + VariantFields(node);
    var duplicates, hasDuplicates := FindDuplicateFields(fields);
    info := Some(ComponentInfo(component.key, node.name, variants, fields, hasDuplicates, duplicates));
  }
}

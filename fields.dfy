/** What a component analysis reports, and the parts both analyzers share:
    the variant names, the synthetic `variant` field, the field records built
    from layers, and the duplicate-name detector. */
module Fields {
  import opened Base
  import opened Scene

  datatype FieldType = TextType | ImageType | StringType

  /** A slot the UI may fill. parentFrame is set only by the tree-walk
      analyzer (None stands for `undefined`). */
  datatype Field = Field(name: string, fieldType: FieldType, description: string, parentFrame: Option<string>)

  datatype ComponentInfo = ComponentInfo(
    key: string,
    name: string,
    variants: seq<string>,
    fields: seq<Field>,
    hasDuplicates: bool,
    duplicateFields: seq<string>)

  const ImageDescription := "Image placeholder"
  const VariantFieldName := "variant"
  const VariantsPrefix := "Available variants: "

  /** The field a text layer gives: `Current text: "<characters>"`. */
  function TextField(n: Node, parentFrame: Option<string>): (f: Field)
    ensures f.name == n.name && f.fieldType == TextType && f.parentFrame == parentFrame
    ensures f.description == "Current text: \"" + n.characters + "\""
  {
    Field(n.name, TextType, "Current text: \"" + n.characters + "\"", parentFrame)
  }

  function ImageField(n: Node, parentFrame: Option<string>): (f: Field)
    ensures f.name == n.name && f.fieldType == ImageType && f.parentFrame == parentFrame
    ensures f.description == ImageDescription
  {
    Field(n.name, ImageType, ImageDescription, parentFrame)
  }

  /** getVariantInfo: a set's child names in order, else the node's own name. */
  function GetVariantInfo(n: Node): (variants: seq<string>)
    ensures n.nodeType == ComponentSet ==>
      |variants| == |n.children| && forall i :: 0 <= i < |variants| ==> variants[i] == n.children[i].name
    ensures n.nodeType != ComponentSet ==> variants == [n.name]
  {
    if n.nodeType == ComponentSet then seq(|n.children|, i requires 0 <= i < |n.children| => n.children[i].name)
    else [n.name]
  }

  /** `${prop}: ${values.join(" | ")}`. */
  function GroupText(g: VariantGroup): string {
    g.property + ": " + Join(g.values, " | ")
  }

  function GroupsText(groups: seq<VariantGroup>): string {
    Join(seq(|groups|, i requires 0 <= i < |groups| => GroupText(groups[i])), ", ")
  }

  /** An entry's text always holds ": ", so the joined property list is empty
      exactly when there are no variant properties. */
  lemma GroupsTextEmptyIff(groups: seq<VariantGroup>)
    ensures GroupsText(groups) == "" <==> groups == []
  {
    if groups != [] {
      var parts := seq(|groups|, i requires 0 <= i < |groups| => GroupText(groups[i]));
      JoinStartsWithFirst(parts, ", ");
      assert |parts[0]| >= 2;
    }
  }

  /** addVariantField's record: name "variant", type "string", and as its
      description the variant properties with their values or, when the set
      has no variant properties, the variant names. */
  function VariantField(groups: seq<VariantGroup>, variants: seq<string>): (f: Field)
    ensures f.name == VariantFieldName && f.fieldType == StringType && f.parentFrame == None
    ensures groups != [] ==> f.description == VariantsPrefix + GroupsText(groups)
    ensures groups == [] ==> f.description == VariantsPrefix + Join(variants, " | ")
  {
    GroupsTextEmptyIff(groups);
    var options := GroupsText(groups);
    Field(VariantFieldName, StringType, VariantsPrefix + (if options != "" then options else Join(variants, " | ")), None)
  }

  /** addVariantField: pushes exactly one field, the variant field, and only
      for a component set. */
  function AddVariantField(fields: seq<Field>, n: Node, variants: seq<string>): (r: seq<Field>)
    requires n.nodeType == ComponentSet
    ensures |r| == |fields| + 1 && r[..|fields|] == fields
    ensures r[|fields|] == VariantField(n.variantGroups, variants)
  {
    fields + [VariantField(n.variantGroups, variants)]
  }

  /** The representative component: a set's first variant, or the node itself. */
  function Representative(node: Node): Node
    requires node.nodeType == ComponentSet ==> node.children != []
  {
    if node.nodeType == ComponentSet then node.children[0] else node
  }

  function VariantFields(node: Node): seq<Field> {
    if node.nodeType == ComponentSet then [VariantField(node.variantGroups, GetVariantInfo(node))] else []
  }

  function Names(fields: seq<Field>): (names: seq<string>)
    ensures |names| == |fields| && forall i :: 0 <= i < |fields| ==> names[i] == fields[i].name
  {
    seq(|fields|, i requires 0 <= i < |fields| => fields[i].name)
  }

  /** Reference definition of the detector's output: a name is appended at
      its second occurrence, so each duplicated name appears once, in the
      order in which the names become duplicates. */
  function DuplicatesOf(names: seq<string>): seq<string> {
    if names == [] then []
    else
      var init, last := names[..|names| - 1], names[|names| - 1];
      DuplicatesOf(init) + (if multiset(init)[last] == 1 then [last] else [])
  }

  predicate NoRepeats(s: seq<string>) {
    forall i, j :: 0 <= i < j < |s| ==> s[i] != s[j]
  }

  /** Exactly the names occurring at least twice, each once. */
  lemma {:induction false} DuplicatesOfExact(names: seq<string>)
    ensures forall x :: x in DuplicatesOf(names) <==> multiset(names)[x] >= 2
    ensures NoRepeats(DuplicatesOf(names))
  {
    if names != [] {
      var init, last := names[..|names| - 1], names[|names| - 1];
      DuplicatesOfExact(init);
      assert names == init + [last];
      assert multiset(names) == multiset(init) + multiset{last};
    }
  }

  /** One step of the detector's loop, stated on the reference definition. */
  lemma DuplicatesOfStep(prefix: seq<string>, x: string)
    ensures DuplicatesOf(prefix + [x]) ==
      DuplicatesOf(prefix) + (if x in prefix && x !in DuplicatesOf(prefix) then [x] else [])
  {
    var s := prefix + [x];
    assert s[..|s| - 1] == prefix && s[|s| - 1] == x;
    DuplicatesOfExact(prefix);
    assert x in prefix <==> multiset(prefix)[x] >= 1;
  }

  /** findDuplicateFields, and the same loop inlined in code.ts's
      analyzeComponent: one pass over the fields with a set of names seen so
      far and an insertion-ordered set of names seen again. */
  method FindDuplicateFields(fields: seq<Field>) returns (duplicates: seq<string>, hasDuplicates: bool)
    ensures duplicates == DuplicatesOf(Names(fields))
    ensures forall x :: x in duplicates <==> multiset(Names(fields))[x] >= 2
    ensures NoRepeats(duplicates)
    ensures hasDuplicates <==> duplicates != []
  {
    ghost var names := Names(fields);
    var seenNames: set<string> := {};
    duplicates := [];
    for i := 0 to |fields|
      invariant forall x :: x in seenNames <==> x in names[..i]
      invariant duplicates == DuplicatesOf(names[..i])
    {
      var name := fields[i].name;
      DuplicatesOfStep(names[..i], name);
      assert names[..i + 1] == names[..i] + [name];
      if name in seenNames && name !in duplicates {
        duplicates := duplicates + [name];
      }
      seenNames := seenNames + {name};
    }
    assert names[..|fields|] == names;
    DuplicatesOfExact(names);
    hasDuplicates := |duplicates| > 0;
  }

  /** The ComponentInfo invariant: hasDuplicates <==> duplicateFields is
      non-empty <==> some field name occurs twice. */
  predicate DuplicatesReported(info: ComponentInfo) {
    && info.duplicateFields == DuplicatesOf(Names(info.fields))
    && (info.hasDuplicates <==> info.duplicateFields != [])
  }

  /** A set whose representative already has a layer named "variant" reports
      "variant" as a duplicate once the synthetic field is appended. */
  lemma VariantNameClashIsReported(fields: seq<Field>, n: Node, variants: seq<string>, i: nat)
    requires n.nodeType == ComponentSet && i < |fields| && fields[i].name == VariantFieldName
    ensures VariantFieldName in DuplicatesOf(Names(AddVariantField(fields, n, variants)))
  {
    var all := AddVariantField(fields, n, variants);
    DuplicatesOfExact(Names(all));
    var names := Names(all);
    assert names[i] == VariantFieldName && names[|fields|] == VariantFieldName;
    assert names == names[..i] + [names[i]] + names[i + 1..|fields|] + [names[|fields|]];
  }
}

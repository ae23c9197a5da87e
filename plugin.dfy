/** The plugin's message side (code.ts and its compiled twin dist/code.js):
    the selection table that tells the UI what is selected, the
    `get-components` listing of card component sets, and the `hydrate-cards`
    batch that fills one instance per data record into a container frame. */
module Plugin {
  import opened Base
  import opened Json
  import opened Scene
  import opened Fields
  import opened FlatAnalyzer
  import opened TreeAnalyzer
  import opened Hydration

  // ---- What the plugin tells the UI and the user ----

  /** A message posted to the UI. */
  datatype UiPost = ComponentSelected(info: ComponentInfo) | ComponentDeselected

  /** A figma.notify toast. HostError stands for the message of an exception
      raised by the JavaScript engine itself, whose text is not modelled. */
  datatype Notice = Info(text: string) | ErrorNotice(text: string) | HostError

  datatype Effects = Effects(notices: seq<Notice>, posts: seq<UiPost>)

  const MissingLayersText := "Selected component is missing required layers"
  const SelectPromptText := "Select a component on your artboard"

  predicate IsComponentNode(n: Node) {
    n.nodeType == Component || n.nodeType == ComponentSet
  }

  /** handleSelection, for the analyzer of the file it sits in: exactly one
      message is posted. It is `component-selected` with the analysis
      exactly when one component or component set is selected and its
      analysis is non-null; an error toast is raised exactly when that
      analysis is null. */
  function HandleSelection(selection: seq<Node>, analyze: Node -> Option<ComponentInfo>): (e: Effects)
    ensures |e.posts| == 1
    ensures e.posts[0].ComponentSelected? <==>
      |selection| == 1 && IsComponentNode(selection[0]) && analyze(selection[0]).Some?
    ensures e.posts[0].ComponentSelected? ==> Some(e.posts[0].info) == analyze(selection[0])
    ensures e.notices == (if |selection| == 1 && IsComponentNode(selection[0]) && analyze(selection[0]).None?
                          then [ErrorNotice(MissingLayersText)] else [])
  {
    if |selection| == 0 then Effects([], [ComponentDeselected])
    else if |selection| == 1 then
      var node := selection[0];
      if IsComponentNode(node) then
        match analyze(node)
        case Some(info) => Effects([], [ComponentSelected(info)])
        case None => Effects([ErrorNotice(MissingLayersText)], [ComponentDeselected])
      else Effects([], [ComponentDeselected])
    else Effects([], [ComponentDeselected])
  }

  /** With the flat analyzer (code.ts, dist/code.js): a selected single
      component or non-empty set is always announced, and the posted info is
      keyed by its representative and reports its duplicates faithfully;
      only an empty component set raises the toast. */
  lemma FlatSelectionAnnounces(selection: seq<Node>)
    requires |selection| == 1 && IsComponentNode(selection[0])
    ensures var e := HandleSelection(selection, Analysis);
      && (e.posts[0].ComponentSelected? <==> !(selection[0].nodeType == ComponentSet && selection[0].children == []))
      && (e.posts[0].ComponentSelected? ==>
            && DuplicatesReported(e.posts[0].info)
            && e.posts[0].info.key == Representative(selection[0]).key
            && e.posts[0].info.fields == FieldList(TextLayers(Representative(selection[0])),
                                                   ImageLayers(Representative(selection[0])), VariantFields(selection[0])))
  {
  }

  /** With the tree-walk analyzer (code.js): the same table, the posted info
      listing the representative's fields in pre-order. */
  lemma TreeSelectionAnnounces(selection: seq<Node>)
    requires |selection| == 1 && IsComponentNode(selection[0])
    ensures var e := HandleSelection(selection, TreeAnalysis);
      && (e.posts[0].ComponentSelected? <==> !(selection[0].nodeType == ComponentSet && selection[0].children == []))
      && (e.posts[0].ComponentSelected? ==>
            && DuplicatesReported(e.posts[0].info)
            && e.posts[0].info.key == Representative(selection[0]).key
            && e.posts[0].info.fields == FieldsAlong(Paths(Representative(selection[0])), None) + VariantFields(selection[0]))
  {
  }

  /** The start-up check: a non-empty selection goes through the table;
      otherwise the user is prompted and the UI told nothing is selected. */
  function StartupEffects(selection: seq<Node>, analyze: Node -> Option<ComponentInfo>): (e: Effects)
    ensures |e.posts| == 1
    ensures selection == [] ==> e == Effects([Info(SelectPromptText)], [ComponentDeselected])
    ensures selection != [] ==> e == HandleSelection(selection, analyze)
  {
    if |selection| > 0 then HandleSelection(selection, analyze)
    else Effects([Info(SelectPromptText)], [ComponentDeselected])
  }

  // ---- get-components ----

  datatype ComponentEntry = ComponentEntry(key: string, name: string)

  /** The first variant holds TEXT "Name", RECTANGLE "Image" and TEXT
      "Fact1", "Fact2" and "Fact3" somewhere below it. */
  predicate HasRequiredLayers(v: Node) {
    var ds := Descendants(v);
    && HasLayerIn(ds, Text, NameSlot)
    && HasLayerIn(ds, Rectangle, ImageSlot)
    && HasLayerIn(ds, Text, "Fact1")
    && HasLayerIn(ds, Text, "Fact2")
    && HasLayerIn(ds, Text, "Fact3")
  }

  /** The findAll predicate. */
  predicate IsCardSet(n: Node) {
    n.nodeType == ComponentSet && n.children != [] && HasRequiredLayers(n.children[0])
  }

  /** `component.defaultVariant?.key || firstVariant.key`: an absent or empty
      default-variant key falls back to the first variant's key. */
  function ResolveKey(cset: Node): (key: string)
    requires cset.children != []
    ensures cset.defaultVariantKey.Some? && cset.defaultVariantKey.value != "" ==> key == cset.defaultVariantKey.value
    ensures cset.defaultVariantKey.None? || cset.defaultVariantKey.value == "" ==> key == cset.children[0].key
  {
    if cset.defaultVariantKey.Some? && cset.defaultVariantKey.value != "" then cset.defaultVariantKey.value
    else cset.children[0].key
  }

  /** The map step: null when the first child is not a component. It only
      sees sets the filter kept, which have a first child; a childless set,
      which never reaches it, gives no entry here. */
  function EntryOf(cset: Node): Option<ComponentEntry> {
    if cset.children == [] || cset.children[0].nodeType != Component then None
    else Some(ComponentEntry(ResolveKey(cset), cset.name))
  }

  /** `.map(...).filter(Boolean)`. */
  function ListEntries(sets: seq<Node>): seq<ComponentEntry> {
    if sets == [] then []
    else EntryList(sets[0]) + ListEntries(sets[1..])
  }

  /** The components-list payload for the current page. */
  function GetComponents(page: Node): seq<ComponentEntry> {
    ListEntries(Filter(Descendants(page), IsCardSet))
  }

  // Reference definition: one filter, then the entry of each set.

  /** A set that makes it into the list. */
  predicate IsListed(n: Node) {
    IsCardSet(n) && n.children[0].nodeType == Component
  }

  function EntryFor(cset: Node): ComponentEntry
    requires cset.children != []
  {
    ComponentEntry(ResolveKey(cset), cset.name)
  }

  function EntriesFor(sets: seq<Node>): (es: seq<ComponentEntry>)
    requires forall i :: 0 <= i < |sets| ==> sets[i].children != []
    ensures |es| == |sets| && forall i :: 0 <= i < |sets| ==> es[i] == EntryFor(sets[i])
  {
    if sets == [] then [] else [EntryFor(sets[0])] + EntriesFor(sets[1..])
  }

  /** Every set the reference filter keeps has a first child. */
  lemma ListedHaveChildren(s: seq<Node>)
    ensures var listed := Filter(s, IsListed);
      forall i :: 0 <= i < |listed| ==> listed[i].children != []
  {
    var listed := Filter(s, IsListed);
    assert forall i :: 0 <= i < |listed| ==> IsListed(listed[i]);
  }

  /** One step of the getComponents pipeline: the first node contributes its
      entry exactly when it is listed. */
  lemma ListEntriesStep(s: seq<Node>)
    requires s != []
    ensures ListEntries(Filter(s, IsCardSet)) ==
      (if IsListed(s[0]) then [EntryFor(s[0])] else []) + ListEntries(Filter(s[1..], IsCardSet))
  {
    FilterStep(s, IsCardSet);
    var found := Filter(s, IsCardSet);
    var rest := Filter(s[1..], IsCardSet);
    if IsCardSet(s[0]) {
      assert found == [s[0]] + rest;
      assert found[0] == s[0] && found[1..] == rest;
      assert ListEntries(found) == EntryList(s[0]) + ListEntries(rest);
      EntryListOfSet(s[0]);
    } else {
      assert found == rest;
    }
  }

  /** The contribution of one set to `.map(...).filter(Boolean)`. */
  function EntryList(cset: Node): seq<ComponentEntry> {
    match EntryOf(cset) case Some(e) => [e] case None => []
  }

  /** A set the filter kept contributes its entry exactly when it is listed. */
  lemma EntryListOfSet(cset: Node)
    requires IsCardSet(cset)
    ensures EntryList(cset) == if IsListed(cset) then [EntryFor(cset)] else []
  {
  }

  /** The same step for the reference definition. */
  lemma EntriesForStep(s: seq<Node>)
    requires s != []
    ensures var listed, rest := Filter(s, IsListed), Filter(s[1..], IsListed);
      (forall i :: 0 <= i < |listed| ==> listed[i].children != [])
      && (forall i :: 0 <= i < |rest| ==> rest[i].children != [])
      && EntriesFor(listed) == (if IsListed(s[0]) then [EntryFor(s[0])] else []) + EntriesFor(rest)
  {
    ListedHaveChildren(s);
    ListedHaveChildren(s[1..]);
    FilterStep(s, IsListed);
    var listed := Filter(s, IsListed);
    if IsListed(s[0]) {
      assert listed[0] == s[0] && listed[1..] == Filter(s[1..], IsListed);
    }
  }

  lemma {:induction false} ListEntriesOneFilter(s: seq<Node>)
    ensures var listed := Filter(s, IsListed);
      (forall i :: 0 <= i < |listed| ==> listed[i].children != [])
      && ListEntries(Filter(s, IsCardSet)) == EntriesFor(listed)
  {
    ListedHaveChildren(s);
    if s != [] {
      ListEntriesOneFilter(s[1..]);
      ListEntriesStep(s);
      EntriesForStep(s);
    }
  }

  /** The list is, in findAll order, the entries of exactly the component
      sets below the page whose first variant is a component holding the
      required layers. */
  lemma GetComponentsListsCardSets(page: Node)
    ensures var listed := Filter(Descendants(page), IsListed);
      (forall i :: 0 <= i < |listed| ==> listed[i].children != [])
      && GetComponents(page) == EntriesFor(listed)
  {
    ListEntriesOneFilter(Descendants(page));
  }

  /** Every listed entry comes from such a set below the page. */
  lemma GetComponentsSound(page: Node, e: ComponentEntry)
    requires e in GetComponents(page)
    ensures exists n :: n in Descendants(page) && IsListed(n) && e == EntryFor(n)
  {
    var listed := Filter(Descendants(page), IsListed);
    GetComponentsListsCardSets(page);
    var i :| 0 <= i < |listed| && EntriesFor(listed)[i] == e;
    assert IsListed(listed[i]);
  }

  /** Every such set below the page has its entry listed. */
  lemma GetComponentsComplete(page: Node, n: Node)
    requires n in Descendants(page) && IsListed(n)
    ensures EntryFor(n) in GetComponents(page)
  {
    var ds := Descendants(page);
    var listed := Filter(ds, IsListed);
    GetComponentsListsCardSets(page);
    var k :| 0 <= k < |ds| && ds[k] == n;
    assert IsListed(ds[k]);
    var i :| 0 <= i < |listed| && listed[i] == n;
    assert EntriesFor(listed)[i] == EntryFor(n);
  }

  // ---- hydrate-cards: the per-record tally ----

  /** The host's answers for one record: whether createInstance succeeds, and
      what the image request and createImage do. */
  datatype ItemEnv = ItemEnv(creates: bool, host: ItemHost)

  /** The loop's state: the two counters, the states of the instances left in
      the frame (in order), and whether a record aborted the whole batch. */
  datatype Tally = Tally(successCount: nat, failCount: nat, kept: seq<Outcome>, aborted: bool)

  /** One iteration. A null record throws on `item.name`, and again on the
      same read inside the catch block, so the batch is abandoned; an instance
      that cannot be created counts as a failure; otherwise the instance is
      kept exactly when updateCardInstance returns true. */
  function Step(t: Tally, ls: seq<Layer>, props: map<string, ComponentProperty>, item: Json, env: ItemEnv): Tally {
    if t.aborted then t
    else if item.JNull? then t.(aborted := true)
    else if !env.creates then t.(failCount := t.failCount + 1)
    else
      var o := Hydrate(ls, props, item, env.host);
      if o.ok then t.(successCount := t.successCount + 1, kept := t.kept + [o])
      else t.(failCount := t.failCount + 1)
  }

  /** A created instance: the step is decided by the outcome of the update. */
  lemma StepCreated(t: Tally, ls: seq<Layer>, props: map<string, ComponentProperty>, item: Json, env: ItemEnv, o: Outcome)
    requires !t.aborted && !item.JNull? && env.creates && o == Hydrate(ls, props, item, env.host)
    ensures Step(t, ls, props, item, env) ==
      if o.ok then t.(successCount := t.successCount + 1, kept := t.kept + [o]) else t.(failCount := t.failCount + 1)
  {
  }

  /** The tally after the records, in order; record i meets env(i). */
  function TallyOf(ls: seq<Layer>, props: map<string, ComponentProperty>, items: seq<Json>, env: nat -> ItemEnv): Tally {
    if items == [] then Tally(0, 0, [], false)
    else
      var n := |items| - 1;
      Step(TallyOf(ls, props, items[..n], env), ls, props, items[n], env(n))
  }

  /** Whether record i ends up as a card. */
  predicate Succeeds(ls: seq<Layer>, props: map<string, ComponentProperty>, items: seq<Json>, env: nat -> ItemEnv, i: nat)
    requires i < |items|
  {
    env(i).creates && Hydrate(ls, props, items[i], env(i).host).ok
  }

  /** Reference definition: the outcomes of the records that succeed, in
      record order. */
  function Successes(ls: seq<Layer>, props: map<string, ComponentProperty>, items: seq<Json>, env: nat -> ItemEnv): seq<Outcome> {
    if items == [] then []
    else
      var n := |items| - 1;
      Successes(ls, props, items[..n], env)
        + (if Succeeds(ls, props, items, env, n) then [Hydrate(ls, props, items[n], env(n).host)] else [])
  }

  /** The number of records that do not succeed. */
  function Failures(ls: seq<Layer>, props: map<string, ComponentProperty>, items: seq<Json>, env: nat -> ItemEnv): nat {
    if items == [] then 0
    else
      var n := |items| - 1;
      Failures(ls, props, items[..n], env) + (if Succeeds(ls, props, items, env, n) then 0 else 1)
  }

  lemma SucceedsPrefix(ls: seq<Layer>, props: map<string, ComponentProperty>, items: seq<Json>, env: nat -> ItemEnv, m: nat, i: nat)
    requires i < m <= |items|
    ensures Succeeds(ls, props, items[..m], env, i) == Succeeds(ls, props, items, env, i)
  {
    assert items[..m][i] == items[i];
  }

  /** With no null record: every record is counted once, the success count is
      the number of kept instances, those are exactly the successful
      records' outcomes in record order, and every kept outcome is ok. */
  lemma {:induction false} TallyCountsEveryRecord(ls: seq<Layer>, props: map<string, ComponentProperty>, items: seq<Json>, env: nat -> ItemEnv)
    requires forall i :: 0 <= i < |items| ==> !items[i].JNull?
    ensures var t := TallyOf(ls, props, items, env);
      && !t.aborted
      && t.successCount + t.failCount == |items|
      && t.successCount == |t.kept|
      && t.kept == Successes(ls, props, items, env)
      && t.failCount == Failures(ls, props, items, env)
      && forall k :: 0 <= k < |t.kept| ==> t.kept[k].ok
  {
    if items != [] {
      var n := |items| - 1;
      var init := items[..n];
      TallyCountsEveryRecord(ls, props, init, env);
      assert items[..n] == init;
    }
  }

  /** A null record stops the batch: the tally is the one of the records
      before the first null, marked aborted. */
  lemma {:induction false} TallyStopsAtFirstNull(ls: seq<Layer>, props: map<string, ComponentProperty>, items: seq<Json>, env: nat -> ItemEnv, k: nat)
    requires k < |items| && items[k].JNull?
    requires forall i :: 0 <= i < k ==> !items[i].JNull?
    ensures TallyOf(ls, props, items, env) == TallyOf(ls, props, items[..k], env).(aborted := true)
    decreases |items|
  {
    var n := |items| - 1;
    var init := items[..n];
    var before := TallyOf(ls, props, init, env);
    assert TallyOf(ls, props, items, env) == Step(before, ls, props, items[n], env(n));
    if n == k {
      TallyCountsEveryRecord(ls, props, init, env);
      assert !before.aborted;
    } else {
      assert init[..k] == items[..k];
      TallyStopsAtFirstNull(ls, props, init, env, k);
      assert before.aborted;
    }
  }

  /** The batch is abandoned exactly when some record is null. */
  lemma TallyAbortedIffNull(ls: seq<Layer>, props: map<string, ComponentProperty>, items: seq<Json>, env: nat -> ItemEnv)
    ensures TallyOf(ls, props, items, env).aborted <==> exists i :: 0 <= i < |items| && items[i].JNull?
  {
    if exists i :: 0 <= i < |items| && items[i].JNull? {
      var k := FirstNull(items);
      TallyStopsAtFirstNull(ls, props, items, env, k);
    } else {
      TallyCountsEveryRecord(ls, props, items, env);
    }
  }

  function FirstNull(items: seq<Json>): (k: nat)
    requires exists i :: 0 <= i < |items| && items[i].JNull?
    ensures k < |items| && items[k].JNull?
    ensures forall i :: 0 <= i < k ==> !items[i].JNull?
  {
    if items[0].JNull? then 0
    else
      assert exists i :: 0 <= i < |items[1..]| && items[1..][i].JNull? by {
        var i :| 0 <= i < |items| && items[i].JNull?;
        assert items[1..][i - 1] == items[i];
      }
      FirstNull(items[1..]) + 1
  }

  /** Once abandoned, later records change nothing. */
  lemma {:induction false} TallyAbortedStays(ls: seq<Layer>, props: map<string, ComponentProperty>, items: seq<Json>, env: nat -> ItemEnv, m: nat)
    requires m <= |items| && TallyOf(ls, props, items[..m], env).aborted
    ensures TallyOf(ls, props, items, env) == TallyOf(ls, props, items[..m], env)
    decreases |items| - m
  {
    if m < |items| {
      assert items[..m + 1][..m] == items[..m];
      TallyAbortedStays(ls, props, items, env, m + 1);
    } else {
      assert items[..m] == items;
    }
  }

  // ---- hydrate-cards: the container and the batch ----

  const FrameName := "Generated Cards"
  const ComponentNotFoundText := "Component not found"
  const MaxCardsPerRow := 10
  const ItemSpacing := 24
  const HorizontalPadding := 32

  /** The "Generated Cards" frame: its name, its card instances in child
      order, and its width. */
  class Frame {
    var name: string
    var cards: seq<CardInstance>
    var width: int

    constructor (w: int)
      ensures name == FrameName && cards == [] && width == w
    {
      name := FrameName;
      cards := [];
      width := w;
    }

    method AppendChild(c: CardInstance)
      modifies this
      ensures cards == old(cards) + [c]
      ensures name == old(name) && width == old(width)
    {
      cards := cards + [c];
    }

    /** instance.remove(): the instance leaves the frame. */
    method RemoveChild(c: CardInstance)
      modifies this
      ensures cards == Without(old(cards), c)
      ensures name == old(name) && width == old(width)
    {
      var cs, rest: seq<CardInstance> := cards, [];
      for i := 0 to |cs|
        invariant rest == Without(cs[..i], c)
        invariant cards == cs && name == old(name) && width == old(width)
      {
        assert cs[..i + 1] == cs[..i] + [cs[i]];
        WithoutAppend(cs[..i], [cs[i]], c);
        if cs[i] != c {
          rest := rest + [cs[i]];
        }
      }
      assert cs[..|cs|] == cs;
      cards := rest;
    }

    /** frame.resize(w, height). */
    method Resize(w: int)
      modifies this
      ensures width == w
      ensures name == old(name) && cards == old(cards)
    {
      width := w;
    }
  }

  /** cs with every occurrence of c taken out. */
  function Without(cs: seq<CardInstance>, c: CardInstance): (r: seq<CardInstance>)
    ensures c !in r
  {
    if cs == [] then []
    else Without(cs[..|cs| - 1], c) + (if cs[|cs| - 1] == c then [] else [cs[|cs| - 1]])
  }

  lemma {:induction false} WithoutAppend(a: seq<CardInstance>, b: seq<CardInstance>, c: CardInstance)
    ensures Without(a + b, c) == Without(a, c) + Without(b, c)
    decreases |b|
  {
    if b == [] {
      assert a + b == a;
    } else {
      var n := |b| - 1;
      assert (a + b)[..|a + b| - 1] == a + b[..n];
      WithoutAppend(a, b[..n], c);
    }
  }

  /** Removing a card that was not there before it was appended restores
      the frame. */
  lemma WithoutFresh(cs: seq<CardInstance>, c: CardInstance)
    requires c !in cs
    ensures Without(cs + [c], c) == cs
  {
    WithoutAppend(cs, [c], c);
    WithoutNotIn(cs, c);
  }

  lemma {:induction false} WithoutNotIn(cs: seq<CardInstance>, c: CardInstance)
    requires c !in cs
    ensures Without(cs, c) == cs
  {
    if cs != [] {
      var n := |cs| - 1;
      assert cs[..n] + [cs[n]] == cs;
      WithoutNotIn(cs[..n], c);
    }
  }

  /** The frame holds exactly the kept instances, each in the state its
      outcome records. */
  predicate Holds(cards: seq<CardInstance>, kept: seq<Outcome>)
    reads set c | c in cards
  {
    && |cards| == |kept|
    && (forall i, j :: 0 <= i < j < |cards| ==> cards[i] != cards[j])
    && forall i :: 0 <= i < |cards| ==> cards[i].layers == kept[i].layers && cards[i].properties == kept[i].properties
  }

  lemma HoldsAppend(cards: seq<CardInstance>, kept: seq<Outcome>, card: CardInstance, o: Outcome)
    requires Holds(cards, kept) && card !in cards
    requires card.layers == o.layers && card.properties == o.properties
    ensures Holds(cards + [card], kept + [o])
  {
  }

  /** The tally of one more record. */
  lemma TallyStep(ls: seq<Layer>, props: map<string, ComponentProperty>, items: seq<Json>, env: nat -> ItemEnv, i: nat)
    requires i < |items|
    ensures TallyOf(ls, props, items[..i + 1], env) == Step(TallyOf(ls, props, items[..i], env), ls, props, items[i], env(i))
  {
    assert items[..i + 1][..i] == items[..i];
  }

  /** One created card: createInstance, appendChild, updateCardInstance, and
      remove when the update fails. */
  method AddCard(frame: Frame, ls: seq<Layer>, props: map<string, ComponentProperty>, item: Json, host: ItemHost)
    returns (ok: bool, ghost card: CardInstance, ghost o: Outcome)
    modifies frame
    ensures o == Hydrate(ls, props, item, host) && ok == o.ok
    ensures ok ==> fresh(card) && frame.cards == old(frame.cards) + [card]
    ensures ok ==> card.layers == o.layers && card.properties == o.properties
    ensures !ok ==> frame.cards == old(frame.cards)
    ensures frame.name == old(frame.name) && frame.width == old(frame.width)
  {
    var instance := new CardInstance(ls, props);
    ghost var before := frame.cards;
    frame.AppendChild(instance);
    ok := instance.UpdateCardInstance(item, host);
    card, o := instance, Hydrate(ls, props, item, host);
    if !ok {
      WithoutFresh(before, instance);
      frame.RemoveChild(instance);
    }
  }

  /** One record of the loop, from the counters and the kept states so far. */
  method ProcessRecord(frame: Frame, ls: seq<Layer>, props: map<string, ComponentProperty>, item: Json, env: ItemEnv,
                       successCount: nat, failCount: nat, ghost kept: seq<Outcome>)
    returns (newSuccess: nat, newFail: nat, aborted: bool, ghost newKept: seq<Outcome>)
    requires Holds(frame.cards, kept)
    modifies frame
    ensures Step(Tally(successCount, failCount, kept, false), ls, props, item, env) == Tally(newSuccess, newFail, newKept, aborted)
    ensures Holds(frame.cards, newKept)
    ensures frame.name == old(frame.name) && frame.width == old(frame.width)
  {
    newSuccess, newFail, aborted, newKept := successCount, failCount, false, kept;
    if item.JNull? {
      aborted := true;
    } else if !env.creates {
      newFail := failCount + 1;
    } else {
      ghost var cardsBefore := frame.cards;
      var ok, card, o := AddCard(frame, ls, props, item, env.host);
      StepCreated(Tally(successCount, failCount, kept, false), ls, props, item, env, o);
      if ok {
        HoldsAppend(cardsBefore, kept, card, o);
        newSuccess := successCount + 1;
        newKept := kept + [o];
      } else {
        newFail := failCount + 1;
      }
    }
  }

  /** The per-record loop: a null record abandons the batch, an instance that
      cannot be created is a failure, and otherwise AddCard decides. */
  method GenerateCards(frame: Frame, component: Node, props: map<string, ComponentProperty>, items: seq<Json>, env: nat -> ItemEnv)
    returns (successCount: nat, failCount: nat, aborted: bool)
    requires frame.cards == []
    modifies frame
    ensures var t := TallyOf(InstanceLayers(component), props, items, env);
      successCount == t.successCount && failCount == t.failCount && aborted == t.aborted
    ensures Holds(frame.cards, TallyOf(InstanceLayers(component), props, items, env).kept)
    ensures frame.name == old(frame.name) && frame.width == old(frame.width)
  {
    var ls := InstanceLayers(component);
    successCount, failCount, aborted := 0, 0, false;
    ghost var kept: seq<Outcome> := [];
    var i := 0;
    while i < |items|
      invariant 0 <= i <= |items|
      invariant TallyOf(ls, props, items[..i], env) == Tally(successCount, failCount, kept, false)
      invariant Holds(frame.cards, kept)
      invariant frame.name == old(frame.name) && frame.width == old(frame.width)
    {
      TallyStep(ls, props, items, env, i);
      successCount, failCount, aborted, kept := ProcessRecord(frame, ls, props, items[i], env(i), successCount, failCount, kept);
      if aborted {
        TallyAbortedStays(ls, props, items, env, i + 1);
        return;
      }
      i := i + 1;
    }
    assert items[..|items|] == items;
  }

  /** The frame's width cap: ten cards, nine 24-pixel gaps and 32 pixels of
      padding on each side. */
  function MaxRowWidth(cardWidth: int): int {
    cardWidth * MaxCardsPerRow + ItemSpacing * (MaxCardsPerRow - 1) + HorizontalPadding * 2
  }

  /** `Math.min(maxWidth, frame.width)`. */
  function FinalWidth(cardWidth: int, laidOut: int): (w: int)
    ensures w <= laidOut && w <= MaxRowWidth(cardWidth)
    ensures w == laidOut || w == MaxRowWidth(cardWidth)
  {
    if MaxRowWidth(cardWidth) < laidOut then MaxRowWidth(cardWidth) else laidOut
  }

  /** The cap for a card of width cardWidth is 10 cardWidth + 280, and a
      frame already within it keeps its width. */
  lemma FinalWidthCap(cardWidth: int, laidOut: int)
    ensures MaxRowWidth(cardWidth) == 10 * cardWidth + 280
    ensures laidOut <= 10 * cardWidth + 280 ==> FinalWidth(cardWidth, laidOut) == laidOut
    ensures laidOut > 10 * cardWidth + 280 ==> FinalWidth(cardWidth, laidOut) == 10 * cardWidth + 280
  {
  }

  /** The summary toast: it names the failures only when there are some. */
  function SummaryMessage(successCount: nat, failCount: nat): string {
    if failCount > 0 then CreatedPrefix + NatToString(successCount) + CardsMiddle + NatToString(failCount) + " cards failed."
    else SuccessPrefix + NatToString(successCount) + " cards."
  }

  const CreatedPrefix := "Created "
  const CardsMiddle := " cards. "
  const SuccessPrefix := "Successfully created "

  /** The longest run of digits at the start of s. */
  function DigitPrefix(s: string): (d: string)
    ensures AllDigits(d) && |d| <= |s| && d == s[..|d|]
  {
    if s != [] && IsDigit(s[0]) then [s[0]] + DigitPrefix(s[1..]) else []
  }

  lemma {:induction false} DigitPrefixOf(a: string, rest: string)
    requires AllDigits(a) && rest != [] && !IsDigit(rest[0])
    ensures DigitPrefix(a + rest) == a
  {
    if a != [] {
      assert (a + rest)[1..] == a[1..] + rest;
      DigitPrefixOf(a[1..], rest);
    }
  }

  /** Reads the two counts back out of a summary toast. */
  function ParseSummary(m: string): Option<(nat, nat)> {
    if |m| >= |SuccessPrefix| && m[..|SuccessPrefix|] == SuccessPrefix then
      Some((DigitsValue(DigitPrefix(m[|SuccessPrefix|..])), 0))
    else if |m| >= |CreatedPrefix| && m[..|CreatedPrefix|] == CreatedPrefix then
      var a := DigitPrefix(m[|CreatedPrefix|..]);
      var rest := m[|CreatedPrefix| + |a|..];
      if |rest| >= |CardsMiddle| && rest[..|CardsMiddle|] == CardsMiddle then
        Some((DigitsValue(a), DigitsValue(DigitPrefix(rest[|CardsMiddle|..]))))
      else None
    else None
  }

  lemma SplitAt(p: string, x: string)
    ensures |p + x| >= |p| && (p + x)[..|p|] == p && (p + x)[|p|..] == x
  {
  }

  /** The toast with failures reads back as its two digit strings. */
  lemma ParseCreated(a: string, b: string)
    requires AllDigits(a) && AllDigits(b)
    ensures ParseSummary(CreatedPrefix + a + CardsMiddle + b + " cards failed.") == Some((DigitsValue(a), DigitsValue(b)))
  {
    var tail := b + " cards failed.";
    var m := CreatedPrefix + (a + (CardsMiddle + tail));
    assert CreatedPrefix + a + CardsMiddle + b + " cards failed." == m;
    assert m[..|SuccessPrefix|] != SuccessPrefix by {
      assert m[..|SuccessPrefix|][0] == m[0] == 'C';
    }
    SplitAt(CreatedPrefix, a + (CardsMiddle + tail));
    DigitPrefixOf(a, CardsMiddle + tail);
    SplitAt(a, CardsMiddle + tail);
    var rest := m[|CreatedPrefix| + |a|..];
    assert rest == (a + (CardsMiddle + tail))[|a|..];
    SplitAt(CardsMiddle, tail);
    DigitPrefixOf(b, " cards failed.");
  }

  /** The toast without failures reads back as its digit string and zero. */
  lemma ParseSuccessful(a: string)
    requires AllDigits(a)
    ensures ParseSummary(SuccessPrefix + a + " cards.") == Some((DigitsValue(a), 0))
  {
    assert SuccessPrefix + a + " cards." == SuccessPrefix + (a + " cards.");
    SplitAt(SuccessPrefix, a + " cards.");
    DigitPrefixOf(a, " cards.");
  }

  /** The toast determines both counts. */
  lemma SummaryRoundTrip(successCount: nat, failCount: nat)
    ensures ParseSummary(SummaryMessage(successCount, failCount)) == Some((successCount, failCount))
  {
    var a := NatToString(successCount);
    NatToStringRoundTrip(successCount);
    if failCount > 0 {
      var b := NatToString(failCount);
      NatToStringRoundTrip(failCount);
      assert SummaryMessage(successCount, failCount) == CreatedPrefix + a + CardsMiddle + b + " cards failed.";
      ParseCreated(a, b);
    } else {
      assert SummaryMessage(successCount, failCount) == SuccessPrefix + a + " cards.";
      ParseSuccessful(a);
    }
  }

  /** Different counts give different toasts. */
  lemma SummaryInjective(s1: nat, f1: nat, s2: nat, f2: nat)
    requires SummaryMessage(s1, f1) == SummaryMessage(s2, f2)
    ensures s1 == s2 && f1 == f2
  {
    SummaryRoundTrip(s1, f1);
    SummaryRoundTrip(s2, f2);
  }

  /** What JSON.parse gives: a value, or the SyntaxError it throws. */
  datatype Parsed = Parsed(value: Json) | SyntaxError(message: string)

  /** What importComponentByKeyAsync does: it resolves to a component or to
      null, or it rejects (an unknown key), with a message of the host's. */
  datatype Import = Resolved(component: Option<Node>) | Rejected

  /** How the branch ends the plugin: closePlugin one second after the summary
      toast, or at once after an error toast. */
  datatype Closing = CloseAfterDelay | CloseNow

  /** The hydrate-cards branch. imported is the outcome of the import,
      cardWidth the component's width, parsed the result of JSON.parse on the
      pasted text, env the host's answers per record, and laidOutWidth the
      width auto-layout gives the frame. A failed import stops before the
      frame exists; a parse error and a null record stop after it exists and
      leave it as it is; otherwise the frame's width is capped and a summary
      is shown. Every error path closes the plugin at once. */
  method HydrateCards(imported: Import, props: map<string, ComponentProperty>, cardWidth: int,
                      parsed: Parsed, env: nat -> ItemEnv, laidOutWidth: int)
    returns (frame: Frame?, notice: Notice, closing: Closing)
    ensures imported.Rejected? ==> frame == null && notice == HostError
    ensures imported == Resolved(None) ==> frame == null && notice == ErrorNotice(ComponentNotFoundText)
    ensures imported.Resolved? && imported.component.Some? ==> frame != null && fresh(frame) && frame.name == FrameName
    ensures imported.Resolved? && imported.component.Some? && parsed.SyntaxError? ==>
      frame.cards == [] && frame.width == laidOutWidth && notice == ErrorNotice(parsed.message)
    ensures imported.Resolved? && imported.component.Some? && parsed.Parsed? ==>
      var t := TallyOf(InstanceLayers(imported.component.value), props, ExtractItems(parsed.value), env);
      && Holds(frame.cards, t.kept)
      && (t.aborted ==> notice == HostError && frame.width == laidOutWidth)
      && (!t.aborted ==> notice == Info(SummaryMessage(t.successCount, t.failCount))
                         && frame.width == FinalWidth(cardWidth, laidOutWidth))
    ensures closing == if notice.Info? then CloseAfterDelay else CloseNow
  {
    if imported.Rejected? {
      return null, HostError, CloseNow;
    }
    if imported.component.None? {
      return null, ErrorNotice(ComponentNotFoundText), CloseNow;
    }
    var component := imported.component.value;
    frame := new Frame(laidOutWidth);
    if parsed.SyntaxError? {
      return frame, ErrorNotice(parsed.message), CloseNow;
    }
    var items := ExtractItems(parsed.value);
    var successCount, failCount, aborted := GenerateCards(frame, component, props, items, env);
    if aborted {
      return frame, HostError, CloseNow;
    }
    frame.Resize(FinalWidth(cardWidth, frame.width));
    notice := Info(SummaryMessage(successCount, failCount));
    closing := CloseAfterDelay;
  }
}

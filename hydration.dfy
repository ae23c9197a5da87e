/** updateCardInstance: how one data record is written into a fresh instance of
    the card component. The instance is seen as its ordered list of layers plus
    its component properties; each slot is found by findOne on type and name,
    and an exception anywhere turns the whole call into a `false` result. */
module Hydration {
  import opened Base
  import opened StableSort
  import opened Json
  import opened Scene
  import opened Image

  // ---- Facts and their order ----

  /** One fact of a record: its `text` member (None when absent) and its
      points, an integer. */
  datatype Fact = Fact(text: Option<Json>, points: int)

  function FactOf(v: Json): Option<Fact> {
    match Lookup(v, "points")
    case Some(JNumber(n)) => Some(Fact(Lookup(v, "text"), n))
    case _ => None
  }

  /** The record's `facts` member as a list of facts; None when reading it
      throws (it is absent, null or not an array) or when an entry has no
      integer points. */
  function FactsOf(v: Option<Json>): (r: Option<seq<Fact>>)
    ensures r.Some? ==> v.Some? && v.value.JArray? && |r.value| == |v.value.elems|
    ensures r.Some? ==> forall i :: 0 <= i < |r.value| ==> FactOf(v.value.elems[i]) == Some(r.value[i])
  {
    if v.Some? && v.value.JArray? then FactsOfAll(v.value.elems) else None
  }

  function FactsOfAll(elems: seq<Json>): (r: Option<seq<Fact>>)
    ensures r.Some? ==> |r.value| == |elems| && forall i :: 0 <= i < |elems| ==> FactOf(elems[i]) == Some(r.value[i])
    ensures r.None? ==> exists i :: 0 <= i < |elems| && FactOf(elems[i]).None?
  {
    if elems == [] then Some([])
    else match (FactOf(elems[0]), FactsOfAll(elems[1..]))
      case (Some(f), Some(rest)) => Some([f] + rest)
      case (None, _) => None
      case (_, None) => None
  }

  function NegPoints(f: Fact): int {
    -f.points
  }

  /** sortFactsByPoints: a copy sorted by `b.points - a.points`, a stable sort
      descending by points. */
  function SortFactsByPoints(facts: seq<Fact>): seq<Fact> {
    SortByKey(facts, NegPoints)
  }

  /** The facts with the given points, in their input order. */
  function WithPoints(facts: seq<Fact>, p: int): seq<Fact> {
    WithKey(facts, NegPoints, -p)
  }

  /** The sorted copy is a permutation of the input, non-increasing in points,
      and keeps facts of equal points in their input order. */
  lemma SortFactsByPointsSpec(facts: seq<Fact>)
    ensures var sorted := SortFactsByPoints(facts);
      && |sorted| == |facts|
      && multiset(sorted) == multiset(facts)
      && (forall i, j :: 0 <= i < j < |sorted| ==> sorted[i].points >= sorted[j].points)
      && (forall p :: WithPoints(sorted, p) == WithPoints(facts, p))
  {
    SortFactsDescending(facts);
    SortFactsStable(facts);
  }

  lemma SortFactsDescending(facts: seq<Fact>)
    ensures var sorted := SortFactsByPoints(facts);
      && |sorted| == |facts|
      && multiset(sorted) == multiset(facts)
      && (forall i, j :: 0 <= i < j < |sorted| ==> sorted[i].points >= sorted[j].points)
  {
    SortByKeySortedPermutation(facts, NegPoints);
    var sorted := SortFactsByPoints(facts);
    forall i, j | 0 <= i < j < |sorted| ensures sorted[i].points >= sorted[j].points {
      assert NegPoints(sorted[i]) <= NegPoints(sorted[j]);
    }
  }

  lemma SortFactsStable(facts: seq<Fact>)
    ensures forall p :: WithPoints(SortFactsByPoints(facts), p) == WithPoints(facts, p)
  {
    forall p ensures WithPoints(SortFactsByPoints(facts), p) == WithPoints(facts, p) {
      SortByKeyStable(facts, NegPoints, -p);
    }
  }

  lemma SortFactsByPointsIdempotent(facts: seq<Fact>)
    ensures SortFactsByPoints(SortFactsByPoints(facts)) == SortFactsByPoints(facts)
  {
    SortByKeyIdempotent(facts, NegPoints);
  }

  // ---- Slots ----

  const NameSlot := "Name"
  const PotentialSlot := "Potential Points"
  const ImageSlot := "Image"
  const ColorProperty := "Color"
  const NegInfinityText := "-Infinity"

  /** The i-th sorted fact goes to slot number 3 - i: the highest to 3. */
  function FactSlot(i: nat): string {
    "Fact" + IntToString(3 - i)
  }

  function PointsSlot(i: nat): string {
    "Points" + IntToString(3 - i)
  }

  /** Math.max over the points, as text: "-Infinity" for no facts. */
  function MaxPointsText(facts: seq<Fact>): (s: string)
    ensures facts == [] ==> s == NegInfinityText
    ensures facts != [] ==>
      exists i :: 0 <= i < |facts| && s == IntToString(facts[i].points)
        && forall j :: 0 <= j < |facts| ==> facts[j].points <= facts[i].points
  {
    if facts == [] then NegInfinityText else IntToString(facts[MaxIndex(facts)].points)
  }

  /** The position of a largest points value. */
  function MaxIndex(facts: seq<Fact>): (m: nat)
    requires facts != []
    ensures m < |facts| && forall j :: 0 <= j < |facts| ==> facts[j].points <= facts[m].points
  {
    if |facts| == 1 then 0
    else
      var m := MaxIndex(facts[1..]) + 1;
      if facts[0].points >= facts[m].points then 0 else m
  }

  // ---- Text writes ----

  /** `loadFontForNode(node)` and then `node.characters = value` on the first
      text layer named slot, skipped when there is none. None when the write
      throws: the host accepts only a string, and only once the layer's font
      is loaded; a failed font load is swallowed, so the write that follows
      is what throws. */
  datatype Write = Write(slot: string, value: Option<Json>)

  /** Whether the host takes the write on layer l. */
  predicate Accepts(l: Layer, w: Write) {
    l.fontLoads && w.value.Some? && w.value.value.JString?
  }

  function ApplyWrite(ls: seq<Layer>, w: Write): (r: Option<seq<Layer>>)
    ensures var found := FindOne(ls, Text, w.slot);
      r.None? <==> found.Some? && !Accepts(ls[found.value], w)
    ensures FindOne(ls, Text, w.slot).None? ==> r == Some(ls)
    ensures var found := FindOne(ls, Text, w.slot);
      r.Some? && found.Some? ==> r.value == ls[found.value := ls[found.value].(characters := w.value.value.s)]
    ensures r.Some? ==> SameShape(ls, r.value)
  {
    match FindOne(ls, Text, w.slot)
    case None => Some(ls)
    case Some(k) =>
      if Accepts(ls[k], w) then Some(ls[k := ls[k].(characters := w.value.value.s)])
      else None
  }

  /** Whether a run of writes finished, and the layers it left behind. */
  datatype Run = Run(ok: bool, layers: seq<Layer>)

  function RunWrites(ls: seq<Layer>, ws: seq<Write>): Run
    decreases |ws|
  {
    if ws == [] then Run(true, ls)
    else match ApplyWrite(ls, ws[0])
      case None => Run(false, ls)
      case Some(next) => RunWrites(next, ws[1..])
  }

  lemma {:induction false} RunWritesAppend(ls: seq<Layer>, a: seq<Write>, b: seq<Write>)
    ensures RunWrites(ls, a + b) ==
      (var r := RunWrites(ls, a); if r.ok then RunWrites(r.layers, b) else r)
    decreases |a|
  {
    if a == [] {
      assert a + b == b;
    } else {
      assert (a + b)[0] == a[0] && (a + b)[1..] == a[1..] + b;
      match ApplyWrite(ls, a[0])
      case None =>
      case Some(next) => RunWritesAppend(next, a[1..], b);
    }
  }

  /** Writes never change which layers there are, nor their types and names. */
  lemma {:induction false} RunWritesShape(ls: seq<Layer>, ws: seq<Write>)
    ensures SameShape(ls, RunWrites(ls, ws).layers)
    decreases |ws|
  {
    if ws != [] {
      match ApplyWrite(ls, ws[0])
      case None =>
      case Some(next) => RunWritesShape(next, ws[1..]);
    }
  }

  /** A predicate on a plan: every slot that exists has a loaded font and
      receives a string. */
  predicate AllFoundAccept(ls: seq<Layer>, ws: seq<Write>) {
    forall k :: 0 <= k < |ws| && FindOne(ls, Text, ws[k].slot).Some? ==> Accepts(ls[FindOne(ls, Text, ws[k].slot).value], ws[k])
  }

  /** A run of writes succeeds exactly when every slot it finds has a loaded
      font and is given a string; absent slots never make it fail. */
  lemma {:induction false} RunWritesOkIff(ls: seq<Layer>, ws: seq<Write>)
    ensures RunWrites(ls, ws).ok <==> AllFoundAccept(ls, ws)
    decreases |ws|
  {
    if ws != [] {
      match ApplyWrite(ls, ws[0])
      case None =>
      case Some(next) =>
        RunWritesOkIff(next, ws[1..]);
        forall k | 1 <= k < |ws| ensures FindOne(next, Text, ws[k].slot) == FindOne(ls, Text, ws[k].slot) {
          FindOneSameShape(next, ls, Text, ws[k].slot);
        }
        assert forall k :: 0 <= k < |ws[1..]| ==> ws[1..][k] == ws[k + 1];
    }
  }

  predicate DistinctSlots(ws: seq<Write>) {
    forall a, b :: 0 <= a < b < |ws| ==> ws[a].slot != ws[b].slot
  }

  /** Layer j is the first match of some write of the plan. */
  predicate Written(ls: seq<Layer>, ws: seq<Write>, j: nat) {
    exists k :: 0 <= k < |ws| && FindOne(ls, Text, ws[k].slot) == Some(j)
  }

  /** A layer found by a later write, in a layer list of the same shape, is
      found by that write in the original list too. */
  lemma WrittenLater(ls: seq<Layer>, next: seq<Layer>, ws: seq<Write>, j: nat)
    requires SameShape(ls, next) && ws != []
    ensures Written(next, ws[1..], j) ==> Written(ls, ws, j)
  {
    if Written(next, ws[1..], j) {
      var k :| 0 <= k < |ws[1..]| && FindOne(next, Text, ws[1..][k].slot) == Some(j);
      FindOneSameShape(next, ls, Text, ws[k + 1].slot);
      assert FindOne(ls, Text, ws[k + 1].slot) == Some(j);
    }
  }

  /** The first write's target is not any later write's target when the
      slots are distinct. */
  lemma FirstNotWrittenLater(ls: seq<Layer>, next: seq<Layer>, ws: seq<Write>, j0: nat)
    requires SameShape(ls, next) && ws != [] && DistinctSlots(ws)
    requires FindOne(ls, Text, ws[0].slot) == Some(j0)
    ensures !Written(next, ws[1..], j0)
  {
    forall k | 0 <= k < |ws[1..]| ensures FindOne(next, Text, ws[1..][k].slot) != Some(j0) {
      FindOneSameShape(next, ls, Text, ws[k + 1].slot);
      assert ws[0].slot != ws[k + 1].slot;
    }
  }

  /** After a successful run whose slots are distinct, each found slot holds
      its value and every other layer is as it was. */
  lemma {:induction false} RunWritesEffect(ls: seq<Layer>, ws: seq<Write>)
    requires DistinctSlots(ws) && RunWrites(ls, ws).ok
    ensures var out := RunWrites(ls, ws).layers;
      && |out| == |ls|
      && (forall k, j :: 0 <= k < |ws| && FindOne(ls, Text, ws[k].slot) == Some(j) ==> ws[k].value == Some(JString(out[j].characters)))
      && (forall j :: 0 <= j < |ls| && !Written(ls, ws, j) ==> out[j] == ls[j])
    decreases |ws|
  {
    RunWritesShape(ls, ws);
    if ws != [] {
      var next := ApplyWrite(ls, ws[0]).value;
      var rest := ws[1..];
      var out := RunWrites(ls, ws).layers;
      assert out == RunWrites(next, rest).layers;
      assert DistinctSlots(rest);
      RunWritesEffect(next, rest);
      forall j | 0 <= j < |ls| {
        WrittenLater(ls, next, ws, j);
      }
      forall k | 1 <= k < |ws| ensures FindOne(next, Text, rest[k - 1].slot) == FindOne(ls, Text, ws[k].slot) {
        FindOneSameShape(next, ls, Text, ws[k].slot);
      }
      match FindOne(ls, Text, ws[0].slot)
      case None =>
        assert next == ls;
      case Some(j0) =>
        FirstNotWrittenLater(ls, next, ws, j0);
        assert out[j0] == next[j0];
        forall j | 0 <= j < |ls| && !Written(ls, ws, j) ensures out[j] == ls[j] {
          assert j != j0;
        }
    }
  }

  // ---- The plan of one record ----

  /** The two writes of the i-th sorted fact. */
  function FactPair(i: nat, f: Fact): seq<Write> {
    [Write(FactSlot(i), f.text), Write(PointsSlot(i), Some(JString(IntToString(f.points))))]
  }

  /** The writes of the fact loop, in loop order. */
  function FactWrites(sorted: seq<Fact>): (ws: seq<Write>)
    ensures |ws| == 2 * |sorted|
  {
    if sorted == [] then []
    else FactWrites(sorted[..|sorted| - 1]) + FactPair(|sorted| - 1, sorted[|sorted| - 1])
  }

  /** The same plan for one fact more. */
  lemma FactWritesStep(sorted: seq<Fact>, i: nat)
    requires i < |sorted|
    ensures FactWrites(sorted[..i + 1]) == FactWrites(sorted[..i]) + FactPair(i, sorted[i])
  {
    assert sorted[..i + 1][..i] == sorted[..i];
  }

  /** Indexing into a concatenation. */
  lemma ConcatAt<T>(x: seq<T>, y: seq<T>, k: nat)
    requires k < |x| + |y|
    ensures (x + y)[k] == if k < |x| then x[k] else y[k - |x|]
  {
  }

  /** Iteration i writes the i-th fact's pair. */
  lemma {:induction false} FactWritesIndex(sorted: seq<Fact>, i: nat)
    requires i < |sorted|
    ensures FactWrites(sorted)[2 * i] == FactPair(i, sorted[i])[0]
    ensures FactWrites(sorted)[2 * i + 1] == FactPair(i, sorted[i])[1]
  {
    var n := |sorted| - 1;
    var init := sorted[..n];
    var prev := FactWrites(init);
    var last := FactPair(n, sorted[n]);
    var ws := FactWrites(sorted);
    assert ws == prev + last;
    ConcatAt(prev, last, 2 * i);
    ConcatAt(prev, last, 2 * i + 1);
    if i < n {
      FactWritesIndex(init, i);
      assert init[i] == sorted[i];
      assert ws[2 * i] == prev[2 * i] && ws[2 * i + 1] == prev[2 * i + 1];
    } else {
      assert ws[2 * i] == last[0] && ws[2 * i + 1] == last[1];
    }
  }

  /** The two writes of a pair. */
  lemma FactPairAt(i: nat, f: Fact)
    ensures FactPair(i, f)[0] == Write(FactSlot(i), f.text)
    ensures FactPair(i, f)[1] == Write(PointsSlot(i), Some(JString(IntToString(f.points))))
  {
  }

  /** The k-th write of the fact loop is write b of fact j's pair, k = 2j + b. */
  lemma FactWritesSlotOf(sorted: seq<Fact>, k: nat) returns (j: nat, b: nat)
    requires k < 2 * |sorted|
    ensures j < |sorted| && b < 2 && k == 2 * j + b
    ensures FactWrites(sorted)[k] == FactPair(j, sorted[j])[b]
  {
    j := Halve(k);
    b := k - 2 * j;
    FactWritesIndex(sorted, j);
    PairIndex(FactWrites(sorted), FactPair(j, sorted[j]), j, k);
  }

  /** Position k = 2j + b of a list holding a pair at 2j and 2j + 1 is
      element b of the pair. */
  lemma PairIndex<W>(ws: seq<W>, pair: seq<W>, j: nat, k: nat)
    requires |pair| == 2 && (k == 2 * j || k == 2 * j + 1) && 2 * j + 1 < |ws|
    requires ws[2 * j] == pair[0] && ws[2 * j + 1] == pair[1]
    ensures ws[k] == pair[k - 2 * j]
  {
  }

  /** The slot of write b of a pair. */
  lemma FactPairSlot(j: nat, f: Fact, b: nat)
    requires b < 2
    ensures FactPair(j, f)[b].slot == if b == 0 then FactSlot(j) else PointsSlot(j)
  {
  }

  lemma Halve(k: nat) returns (j: nat)
    ensures k == 2 * j || k == 2 * j + 1
  {
    j := k / 2;
  }

  /** The fact loop writes each of its slots once. */
  lemma FactWritesDistinct(sorted: seq<Fact>)
    ensures DistinctSlots(FactWrites(sorted))
  {
    var ws := FactWrites(sorted);
    forall a, b | 0 <= a < b < |ws| ensures ws[a].slot != ws[b].slot {
      var ja, ba := FactWritesSlotOf(sorted, a);
      var jb, bb := FactWritesSlotOf(sorted, b);
      FactPairSlot(ja, sorted[ja], ba);
      FactPairSlot(jb, sorted[jb], bb);
      FactSlotsDistinct(ja, jb);
      FactSlotsDistinct(jb, ja);
    }
  }

  /** A failed prefix of the fact loop fails the whole loop. */
  lemma {:induction false} FactWritesStopAt(ls: seq<Layer>, sorted: seq<Fact>, m: nat)
    requires m <= |sorted| && !RunWrites(ls, FactWrites(sorted[..m])).ok
    ensures RunWrites(ls, FactWrites(sorted)) == RunWrites(ls, FactWrites(sorted[..m]))
    decreases |sorted| - m
  {
    if m < |sorted| {
      FactWritesStep(sorted, m);
      RunWritesAppend(ls, FactWrites(sorted[..m]), FactPair(m, sorted[m]));
      FactWritesStopAt(ls, sorted, m + 1);
    } else {
      assert sorted[..m] == sorted;
    }
  }

  /** The writes after the name: the fact loop, then the potential points. */
  function FactsPlan(facts: seq<Fact>): seq<Write> {
    FactWrites(SortFactsByPoints(facts)) + [Write(PotentialSlot, Some(JString(MaxPointsText(facts))))]
  }

  /** Every text write of a record: its name, then the facts plan. */
  function TextPlan(item: Json, facts: seq<Fact>): seq<Write> {
    [Write(NameSlot, Lookup(item, "name"))] + FactsPlan(facts)
  }

  /** Two Fact slots, or two Points slots, are equal only for equal indices. */
  lemma SlotsInjective(i: nat, j: nat)
    ensures FactSlot(i) == FactSlot(j) ==> i == j
    ensures PointsSlot(i) == PointsSlot(j) ==> i == j
  {
    if FactSlot(i) == FactSlot(j) {
      assert FactSlot(i)[4..] == IntToString(3 - i);
      assert FactSlot(j)[4..] == IntToString(3 - j);
      IntToStringInjective(3 - i, 3 - j);
    }
    if PointsSlot(i) == PointsSlot(j) {
      assert PointsSlot(i)[6..] == IntToString(3 - i);
      assert PointsSlot(j)[6..] == IntToString(3 - j);
      IntToStringInjective(3 - i, 3 - j);
    }
  }

  /** The fact slots, the points slots, Name and Potential Points never meet. */
  lemma FactSlotsDistinct(i: nat, j: nat)
    ensures FactSlot(i) == FactSlot(j) ==> i == j
    ensures PointsSlot(i) == PointsSlot(j) ==> i == j
    ensures FactSlot(i) != PointsSlot(j)
    ensures FactSlot(i) != PotentialSlot && PointsSlot(i) != PotentialSlot
    ensures FactSlot(i) != NameSlot && PointsSlot(i) != NameSlot
  {
    SlotsInjective(i, j);
    var f, p, q := FactSlot(i), PointsSlot(j), PointsSlot(i);
    assert f[0] == 'F' && p[0] == 'P' && q[0] == 'P' && q[2] == 'i';
  }

  /** No two text writes of a record aim at the same slot name. */
  lemma TextPlanDistinct(item: Json, facts: seq<Fact>)
    ensures DistinctSlots(TextPlan(item, facts))
  {
    var sorted := SortFactsByPoints(facts);
    var fw := FactWrites(sorted);
    var first, last := Write(NameSlot, Lookup(item, "name")), Write(PotentialSlot, Some(JString(MaxPointsText(facts))));
    var ws := TextPlan(item, facts);
    assert ws == [first] + (fw + [last]);
    FactWritesDistinct(sorted);
    forall k | 0 <= k < |fw| ensures ws[k + 1] == fw[k] && fw[k].slot != NameSlot && fw[k].slot != PotentialSlot {
      FramedAt(first, fw, last, k);
      var j, b := FactWritesSlotOf(sorted, k);
      FactPairSlot(j, sorted[j], b);
      FactSlotsDistinct(j, j);
    }
    assert ws[0] == first && ws[|ws| - 1] == last;
    forall a, b | 0 <= a < b < |ws| ensures ws[a].slot != ws[b].slot {
      if 0 < a && b < |ws| - 1 {
        assert ws[a] == fw[a - 1] && ws[b] == fw[b - 1];
      }
    }
  }

  // ---- Color property and image slot ----

  /** A variant property of the instance: its current value and the values the
      component set defines for it. */
  datatype ComponentProperty = ComponentProperty(value: string, options: set<string>)

  /** `setProperties({ Color: appearance })` when the instance has a Color
      property; None when the host rejects the value (it must be one of the
      property's variant values). */
  function ColorStep(props: map<string, ComponentProperty>, appearance: Option<Json>): (r: Option<map<string, ComponentProperty>>)
    ensures ColorProperty !in props ==> r == Some(props)
    ensures ColorProperty in props ==>
      (r.Some? <==> appearance.Some? && appearance.value.JString? && appearance.value.s in props[ColorProperty].options)
    ensures r.Some? ==>
      r.value.Keys == props.Keys
        && (forall key :: key in props && key != ColorProperty ==> r.value[key] == props[key])
    ensures r.Some? && ColorProperty in props ==>
      r.value[ColorProperty] == props[ColorProperty].(value := appearance.value.s)
  {
    if ColorProperty !in props then Some(props)
    else if appearance.Some? && appearance.value.JString? && appearance.value.s in props[ColorProperty].options then
      Some(props[ColorProperty := props[ColorProperty].(value := appearance.value.s)])
    else None
  }

  /** What the host does for one record's image: the first event after the
      request, and the hash createImage gives for the received bytes (None
      when it throws). */
  datatype ItemHost = ItemHost(firstEvent: FirstEvent, createdImage: Option<string>)

  /** The image step throws: a truthy imageUrl, an Image rectangle, a
      successful request, and createImage throwing. */
  predicate ImageThrows(ls: seq<Layer>, item: Json, host: ItemHost) {
    Truthy(Lookup(item, "imageUrl")) && FindOne(ls, Rectangle, ImageSlot).Some?
      && ProcessImage(host.firstEvent).success && host.createdImage.None?
  }

  /** The image step: only when imageUrl is truthy and a rectangle named
      "Image" exists; its fills become one IMAGE paint with scale mode FILL
      when the request succeeds, else one grey SOLID paint. None when
      createImage throws. */
  function ImageStep(ls: seq<Layer>, item: Json, host: ItemHost): (r: Option<seq<Layer>>)
    ensures r.Some? ==> SameShape(ls, r.value)
    ensures r.Some? ==> forall j :: 0 <= j < |ls| && FindOne(ls, Rectangle, ImageSlot) != Some(j) ==> r.value[j] == ls[j]
    ensures r.None? <==> ImageThrows(ls, item, host)
  {
    if !Truthy(Lookup(item, "imageUrl")) then Some(ls)
    else match FindOne(ls, Rectangle, ImageSlot)
      case None => Some(ls)
      case Some(k) =>
        var result := ProcessImage(host.firstEvent);
        if result.success && result.data.Some? then
          match host.createdImage
          case None => None
          case Some(hash) => Some(ls[k := ls[k].(fills := Paints([ImagePaint(hash, Fill)]))])
        else Some(ls[k := ls[k].(fills := Paints([SolidPaint(NeutralGray)]))])
  }

  // ---- The whole routine ----

  /** The result of updateCardInstance and the instance state it leaves. */
  datatype Outcome = Outcome(ok: bool, layers: seq<Layer>, properties: map<string, ComponentProperty>)

  /** updateCardInstance as a function of the instance state, the record and
      the host: the colour, the name, the sorted facts with their points, the
      potential points, then the image, stopping at the first exception. */
  function Hydrate(ls: seq<Layer>, props: map<string, ComponentProperty>, item: Json, host: ItemHost): Outcome {
    match ColorStep(props, Lookup(item, "appearance"))
    case None => Outcome(false, ls, props)
    case Some(props1) =>
      var named := RunWrites(ls, [Write(NameSlot, Lookup(item, "name"))]);
      if !named.ok then Outcome(false, named.layers, props1)
      else match FactsOf(Lookup(item, "facts"))
        case None => Outcome(false, named.layers, props1)
        case Some(facts) =>
          var filled := RunWrites(named.layers, FactsPlan(facts));
          if !filled.ok then Outcome(false, filled.layers, props1)
          else match ImageStep(filled.layers, item, host)
            case None => Outcome(false, filled.layers, props1)
            case Some(ls3) => Outcome(true, ls3, props1)
  }

  /** Once the colour is set and the facts are readable, the text writes are
      one run of the record's whole text plan. */
  lemma HydrateTextRun(ls: seq<Layer>, item: Json, facts: seq<Fact>)
    ensures var named := RunWrites(ls, [Write(NameSlot, Lookup(item, "name"))]);
      named.ok ==> RunWrites(ls, TextPlan(item, facts)) == RunWrites(named.layers, FactsPlan(facts))
    ensures var named := RunWrites(ls, [Write(NameSlot, Lookup(item, "name"))]);
      !named.ok ==> !RunWrites(ls, TextPlan(item, facts)).ok
  {
    RunWritesAppend(ls, [Write(NameSlot, Lookup(item, "name"))], FactsPlan(facts));
  }

  /** The instance keeps its layers, their types and names, whatever happens. */
  lemma HydrateKeepsShape(ls: seq<Layer>, props: map<string, ComponentProperty>, item: Json, host: ItemHost)
    ensures SameShape(ls, Hydrate(ls, props, item, host).layers)
  {
    var named := RunWrites(ls, [Write(NameSlot, Lookup(item, "name"))]);
    RunWritesShape(ls, [Write(NameSlot, Lookup(item, "name"))]);
    match FactsOf(Lookup(item, "facts"))
    case None =>
    case Some(facts) =>
      RunWritesShape(named.layers, FactsPlan(facts));
  }

  /** A record whose facts cannot be read (absent, null, not an array) makes
      the routine return false. */
  lemma HydrateFailsWithoutFacts(ls: seq<Layer>, props: map<string, ComponentProperty>, item: Json, host: ItemHost)
    requires FactsOf(Lookup(item, "facts")).None?
    ensures !Hydrate(ls, props, item, host).ok
  {
  }

  /** The routine succeeds exactly when the colour is accepted, the facts are
      readable, every text slot found receives a string, and createImage does
      not throw. */
  lemma HydrateOkIff(ls: seq<Layer>, props: map<string, ComponentProperty>, item: Json, host: ItemHost)
    ensures Hydrate(ls, props, item, host).ok <==>
      && ColorStep(props, Lookup(item, "appearance")).Some?
      && FactsOf(Lookup(item, "facts")).Some?
      && AllFoundAccept(ls, TextPlan(item, FactsOf(Lookup(item, "facts")).value))
      && !ImageThrows(ls, item, host)
  {
    match FactsOf(Lookup(item, "facts"))
    case None =>
    case Some(facts) => HydrateOkIffWith(ls, props, item, host, facts);
  }

  /** HydrateOkIff for a record whose facts are readable. */
  lemma HydrateOkIffWith(ls: seq<Layer>, props: map<string, ComponentProperty>, item: Json, host: ItemHost, facts: seq<Fact>)
    requires FactsOf(Lookup(item, "facts")) == Some(facts)
    ensures Hydrate(ls, props, item, host).ok <==>
      && ColorStep(props, Lookup(item, "appearance")).Some?
      && AllFoundAccept(ls, TextPlan(item, facts))
      && !ImageThrows(ls, item, host)
  {
    var named := RunWrites(ls, [Write(NameSlot, Lookup(item, "name"))]);
    HydrateTextRun(ls, item, facts);
    RunWritesOkIff(ls, TextPlan(item, facts));
    if named.ok {
      var filled := RunWrites(named.layers, FactsPlan(facts));
      RunWritesShape(ls, [Write(NameSlot, Lookup(item, "name"))]);
      RunWritesShape(named.layers, FactsPlan(facts));
      ImageThrowsSameShape(ls, filled.layers, item, host);
    }
  }

  /** Whether the image step throws, on any layer list of the same shape. */
  lemma ImageThrowsSameShape(ls: seq<Layer>, later: seq<Layer>, item: Json, host: ItemHost)
    requires SameShape(ls, later)
    ensures ImageStep(later, item, host).None? <==> ImageThrows(ls, item, host)
  {
    FindOneSameShape(ls, later, Rectangle, ImageSlot);
  }

  /** The colour: set to the appearance when the instance has a Color property
      (and the call fails when the host rejects it), left alone otherwise. */
  lemma HydrateColor(ls: seq<Layer>, props: map<string, ComponentProperty>, item: Json, host: ItemHost)
    ensures var o := Hydrate(ls, props, item, host);
      && (ColorProperty !in props ==> o.properties == props)
      && (o.ok && ColorProperty in props ==>
            Lookup(item, "appearance") == Some(JString(o.properties[ColorProperty].value))
            && o.properties[ColorProperty].value in props[ColorProperty].options)
  {
  }

  /** After a successful call, every text slot the record's plan finds holds
      the value written to it. */
  lemma HydrateTextSlots(ls: seq<Layer>, props: map<string, ComponentProperty>, item: Json, host: ItemHost, facts: seq<Fact>)
    requires Hydrate(ls, props, item, host).ok
    requires FactsOf(Lookup(item, "facts")) == Some(facts)
    ensures var out, plan := Hydrate(ls, props, item, host).layers, TextPlan(item, facts);
      && |out| == |ls|
      && forall k, j :: 0 <= k < |plan| && FindOne(ls, Text, plan[k].slot) == Some(j) ==>
           plan[k].value == Some(JString(out[j].characters))
  {
    var plan := TextPlan(item, facts);
    var named := RunWrites(ls, [Write(NameSlot, Lookup(item, "name"))]);
    var filled := RunWrites(named.layers, FactsPlan(facts));
    HydrateTextRun(ls, item, facts);
    TextPlanDistinct(item, facts);
    RunWritesEffect(ls, plan);
    RunWritesShape(ls, plan);
    var out := Hydrate(ls, props, item, host).layers;
    assert out == ImageStep(filled.layers, item, host).value;
    FindOneSameShape(ls, filled.layers, Rectangle, ImageSlot);
    forall k, j | 0 <= k < |plan| && FindOne(ls, Text, plan[k].slot) == Some(j)
      ensures out[j] == filled.layers[j]
    {
      assert ls[j].layerType == Text;
    }
  }

  /** After a successful call, a layer that no text slot of the record's plan
      finds and that is not the Image rectangle comes out as it went in: a
      missing slot is skipped and touches nothing. */
  lemma HydrateKeepsOthers(ls: seq<Layer>, props: map<string, ComponentProperty>, item: Json, host: ItemHost, facts: seq<Fact>)
    requires Hydrate(ls, props, item, host).ok
    requires FactsOf(Lookup(item, "facts")) == Some(facts)
    ensures var out := Hydrate(ls, props, item, host).layers;
      && |out| == |ls|
      && forall j :: 0 <= j < |ls| && !Written(ls, TextPlan(item, facts), j) && FindOne(ls, Rectangle, ImageSlot) != Some(j) ==>
           out[j] == ls[j]
  {
    var plan := TextPlan(item, facts);
    var named := RunWrites(ls, [Write(NameSlot, Lookup(item, "name"))]);
    var filled := RunWrites(named.layers, FactsPlan(facts));
    HydrateTextRun(ls, item, facts);
    TextPlanDistinct(item, facts);
    RunWritesEffect(ls, plan);
    RunWritesShape(ls, plan);
    FindOneSameShape(ls, filled.layers, Rectangle, ImageSlot);
    assert Hydrate(ls, props, item, host).layers == ImageStep(filled.layers, item, host).value;
  }

  /** The text plan starts with the name and ends with the potential points. */
  lemma TextPlanEnds(item: Json, facts: seq<Fact>)
    ensures var plan, sorted := TextPlan(item, facts), SortFactsByPoints(facts);
      && |plan| == 2 * |sorted| + 2
      && plan[0] == Write(NameSlot, Lookup(item, "name"))
      && plan[1 + 2 * |sorted|] == Write(PotentialSlot, Some(JString(MaxPointsText(facts))))
  {
  }

  /** Position 1 + k of a plan framed by a first and a last write. */
  lemma FramedAt(first: Write, middle: seq<Write>, last: Write, k: nat)
    requires k < |middle|
    ensures ([first] + (middle + [last]))[1 + k] == middle[k]
  {
  }

  /** The two writes of the i-th fact by points sit at 1 + 2i and 2 + 2i. */
  lemma TextPlanAt(item: Json, facts: seq<Fact>, i: nat)
    requires i < |SortFactsByPoints(facts)|
    ensures var plan, sorted := TextPlan(item, facts), SortFactsByPoints(facts);
      && plan[1 + 2 * i] == Write(FactSlot(i), sorted[i].text)
      && plan[2 + 2 * i] == Write(PointsSlot(i), Some(JString(IntToString(sorted[i].points))))
  {
    var sorted := SortFactsByPoints(facts);
    TextPlanPair(item, facts, i);
    FactPairAt(i, sorted[i]);
  }

  /** The same, as the i-th fact's pair. */
  lemma TextPlanPair(item: Json, facts: seq<Fact>, i: nat)
    requires i < |SortFactsByPoints(facts)|
    ensures var plan, sorted := TextPlan(item, facts), SortFactsByPoints(facts);
      && plan[1 + 2 * i] == FactPair(i, sorted[i])[0]
      && plan[2 + 2 * i] == FactPair(i, sorted[i])[1]
  {
    var sorted := SortFactsByPoints(facts);
    var fw := FactWrites(sorted);
    var first, last := Write(NameSlot, Lookup(item, "name")), Write(PotentialSlot, Some(JString(MaxPointsText(facts))));
    assert TextPlan(item, facts) == [first] + (fw + [last]);
    FactWritesIndex(sorted, i);
    FramedAt(first, fw, last, 2 * i);
    FramedAt(first, fw, last, 2 * i + 1);
  }

  /** After a successful call: the Name slot holds the record's name, the
      slots of the i-th fact by points hold its text and its points, and
      Potential Points holds the largest points, each where the slot exists. */
  lemma HydrateWritesSlots(ls: seq<Layer>, props: map<string, ComponentProperty>, item: Json, host: ItemHost, facts: seq<Fact>)
    requires Hydrate(ls, props, item, host).ok
    requires FactsOf(Lookup(item, "facts")) == Some(facts)
    ensures var out, sorted := Hydrate(ls, props, item, host).layers, SortFactsByPoints(facts);
      && |out| == |ls|
      && (forall j :: FindOne(ls, Text, NameSlot) == Some(j) ==> Lookup(item, "name") == Some(JString(out[j].characters)))
      && (forall i, j :: 0 <= i < |sorted| && FindOne(ls, Text, FactSlot(i)) == Some(j) ==>
            sorted[i].text == Some(JString(out[j].characters)))
      && (forall i, j :: 0 <= i < |sorted| && FindOne(ls, Text, PointsSlot(i)) == Some(j) ==>
            out[j].characters == IntToString(sorted[i].points))
      && (forall j :: FindOne(ls, Text, PotentialSlot) == Some(j) ==> out[j].characters == MaxPointsText(facts))
  {
    var plan := TextPlan(item, facts);
    var out := Hydrate(ls, props, item, host).layers;
    var sorted := SortFactsByPoints(facts);
    HydrateTextSlots(ls, props, item, host, facts);
    TextPlanEnds(item, facts);
    forall i, j | 0 <= i < |sorted| && FindOne(ls, Text, FactSlot(i)) == Some(j)
      ensures sorted[i].text == Some(JString(out[j].characters))
    {
      TextPlanAt(item, facts, i);
      assert plan[1 + 2 * i].slot == FactSlot(i);
    }
    forall i, j | 0 <= i < |sorted| && FindOne(ls, Text, PointsSlot(i)) == Some(j)
      ensures out[j].characters == IntToString(sorted[i].points)
    {
      TextPlanAt(item, facts, i);
      assert plan[2 + 2 * i].slot == PointsSlot(i);
    }
    forall j | FindOne(ls, Text, PotentialSlot) == Some(j)
      ensures out[j].characters == MaxPointsText(facts)
    {
      assert plan[1 + 2 * |sorted|].slot == PotentialSlot;
    }
  }

  /** The image slot after a call whose colour and texts went through: one
      IMAGE paint with scale mode FILL when the request succeeded (the call
      failing only if createImage throws), one grey SOLID paint when it did
      not (the call still succeeding). */
  lemma HydrateImage(ls: seq<Layer>, props: map<string, ComponentProperty>, item: Json, host: ItemHost, facts: seq<Fact>, k: nat)
    requires ColorStep(props, Lookup(item, "appearance")).Some?
    requires FactsOf(Lookup(item, "facts")) == Some(facts)
    requires AllFoundAccept(ls, TextPlan(item, facts))
    requires Truthy(Lookup(item, "imageUrl")) && FindOne(ls, Rectangle, ImageSlot) == Some(k)
    ensures var o := Hydrate(ls, props, item, host);
      && |o.layers| == |ls|
      && (ProcessImage(host.firstEvent).success ==>
            (o.ok <==> host.createdImage.Some?)
            && (o.ok ==> o.layers[k].fills == Paints([ImagePaint(host.createdImage.value, Fill)])))
      && (!ProcessImage(host.firstEvent).success ==> o.ok && o.layers[k].fills == Paints([SolidPaint(NeutralGray)]))
  {
    var plan := TextPlan(item, facts);
    RunWritesOkIff(ls, plan);
    HydrateTextRun(ls, item, facts);
    var named := RunWrites(ls, [Write(NameSlot, Lookup(item, "name"))]);
    var filled := RunWrites(named.layers, FactsPlan(facts));
    assert named.ok && filled.ok;
    RunWritesShape(ls, plan);
    FindOneSameShape(ls, filled.layers, Rectangle, ImageSlot);
    ImageStepAt(filled.layers, item, host, k);
  }

  /** The image step on an instance whose Image rectangle is at k. */
  lemma ImageStepAt(ls: seq<Layer>, item: Json, host: ItemHost, k: nat)
    requires Truthy(Lookup(item, "imageUrl")) && FindOne(ls, Rectangle, ImageSlot) == Some(k)
    ensures var r := ImageStep(ls, item, host);
      && (ProcessImage(host.firstEvent).success ==>
            (r.Some? <==> host.createdImage.Some?)
            && (r.Some? ==> r.value[k].fills == Paints([ImagePaint(host.createdImage.value, Fill)])))
      && (!ProcessImage(host.firstEvent).success ==> r.Some? && r.value[k].fills == Paints([SolidPaint(NeutralGray)]))
  {
  }

  /** Without a truthy imageUrl or an Image rectangle, no fill changes. */
  lemma HydrateNoImageKeepsFills(ls: seq<Layer>, props: map<string, ComponentProperty>, item: Json, host: ItemHost)
    requires !Truthy(Lookup(item, "imageUrl")) || FindOne(ls, Rectangle, ImageSlot).None?
    ensures var o := Hydrate(ls, props, item, host);
      |o.layers| == |ls| && forall j :: 0 <= j < |ls| ==> o.layers[j].fills == ls[j].fills
  {
    var named := RunWrites(ls, [Write(NameSlot, Lookup(item, "name"))]);
    RunWritesFills(ls, [Write(NameSlot, Lookup(item, "name"))]);
    RunWritesShape(ls, [Write(NameSlot, Lookup(item, "name"))]);
    match FactsOf(Lookup(item, "facts"))
    case None =>
    case Some(facts) =>
      var filled := RunWrites(named.layers, FactsPlan(facts));
      RunWritesFills(named.layers, FactsPlan(facts));
      RunWritesShape(named.layers, FactsPlan(facts));
      FindOneSameShape(ls, filled.layers, Rectangle, ImageSlot);
  }

  /** Text writes never touch fills. */
  lemma {:induction false} RunWritesFills(ls: seq<Layer>, ws: seq<Write>)
    ensures var out := RunWrites(ls, ws).layers;
      |out| == |ls| && forall j :: 0 <= j < |ls| ==> out[j].fills == ls[j].fills
    decreases |ws|
  {
    if ws != [] {
      match ApplyWrite(ls, ws[0])
      case None =>
      case Some(next) => RunWritesFills(next, ws[1..]);
    }
  }

  /** The three example facts sorted by points: B/9, A/5, C/1. */
  lemma SortExample(fa: Fact, fb: Fact, fc: Fact)
    requires fa.points == 5 && fb.points == 9 && fc.points == 1
    ensures SortFactsByPoints([fa, fb, fc]) == [fb, fa, fc]
    ensures MaxIndex([fa, fb, fc]) == 1
  {
    var facts := [fa, fb, fc];
    assert facts[1..] == [fb, fc] && facts[1..][1..] == [fc] && [fc][1..] == [];
    assert SortByKey([fc], NegPoints) == Insert(fc, [], NegPoints) == [fc];
    assert SortByKey([fb, fc], NegPoints) == Insert(fb, [fc], NegPoints) == [fb, fc];
    assert Insert(fa, [fc], NegPoints) == [fa, fc];
    assert [fb, fc][1..] == [fc];
    assert SortByKey(facts, NegPoints) == Insert(fa, [fb, fc], NegPoints) == [fb, fa, fc];
    assert MaxIndex(facts[1..]) == 0 by {
      assert MaxIndex(facts[1..][1..]) == 0;
    }
  }

  /** The slot names of the first three sorted facts. */
  lemma SlotNamesExample()
    ensures FactSlot(0) == "Fact3" && FactSlot(1) == "Fact2" && FactSlot(2) == "Fact1"
    ensures PointsSlot(0) == "Points3" && PointsSlot(1) == "Points2" && PointsSlot(2) == "Points1"
  {
    assert IntToString(3) == "3" && IntToString(2) == "2" && IntToString(1) == "1";
  }

  /** A worked record: facts A/5, B/9, C/1 go to Fact3 = B, Fact2 = A,
      Fact1 = C, and Potential Points shows 9. */
  lemma FactsPlanExample(a: Json, b: Json, c: Json)
    ensures FactsPlan([Fact(Some(a), 5), Fact(Some(b), 9), Fact(Some(c), 1)]) ==
      [ Write("Fact3", Some(b)), Write("Points3", Some(JString("9"))),
        Write("Fact2", Some(a)), Write("Points2", Some(JString("5"))),
        Write("Fact1", Some(c)), Write("Points1", Some(JString("1"))),
        Write(PotentialSlot, Some(JString("9"))) ]
  {
    var fa, fb, fc := Fact(Some(a), 5), Fact(Some(b), 9), Fact(Some(c), 1);
    SortExample(fa, fb, fc);
    SlotNamesExample();
    var sorted := [fb, fa, fc];
    assert IntToString(9) == "9" && IntToString(5) == "5" && IntToString(1) == "1";
    var fw := FactWrites(sorted);
    FactWritesIndex(sorted, 0);
    FactWritesIndex(sorted, 1);
    FactWritesIndex(sorted, 2);
    FactPairAt(0, fb);
    FactPairAt(1, fa);
    FactPairAt(2, fc);
    assert fw[0] == Write("Fact3", Some(b)) && fw[1] == Write("Points3", Some(JString("9")));
    assert fw[2] == Write("Fact2", Some(a)) && fw[3] == Write("Points2", Some(JString("5")));
    assert fw[4] == Write("Fact1", Some(c)) && fw[5] == Write("Points1", Some(JString("1")));
  }

  // ---- The instance itself ----

  /** A created instance: its layers and its component properties, which the
      routine updates in place. */
  class CardInstance {
    var layers: seq<Layer>
    var properties: map<string, ComponentProperty>

    constructor (ls: seq<Layer>, props: map<string, ComponentProperty>)
      ensures layers == ls && properties == props
    {
      layers := ls;
      properties := props;
    }

    /** One `node.characters = value` after a findOne. */
    method WriteText(w: Write) returns (ok: bool)
      modifies this
      ensures RunWrites(old(layers), [w]) == Run(ok, layers)
      ensures properties == old(properties)
    {
      var node := FindOne(layers, Text, w.slot);
      if node.None? {
        return true;
      }
      if Accepts(layers[node.value], w) {
        layers := layers[node.value := layers[node.value].(characters := w.value.value.s)];
        ok := true;
      } else {
        ok := false;
      }
    }

    /** Two text writes in turn, the second skipped when the first throws. */
    method WritePair(first: Write, second: Write) returns (ok: bool)
      modifies this
      ensures RunWrites(old(layers), [first, second]) == Run(ok, layers)
      ensures properties == old(properties)
    {
      ghost var before := layers;
      RunWritesAppend(before, [first], [second]);
      assert [first, second] == [first] + [second];
      ok := WriteText(first);
      if ok {
        ok := WriteText(second);
      }
    }

    /** The fact loop: for the i-th sorted fact, its text to Fact{3-i} and its
        points to Points{3-i}. */
    method WriteFacts(sorted: seq<Fact>) returns (ok: bool)
      modifies this
      ensures RunWrites(old(layers), FactWrites(sorted)) == Run(ok, layers)
      ensures properties == old(properties)
    {
      ghost var ls0 := layers;
      for index := 0 to |sorted|
        invariant properties == old(properties)
        invariant RunWrites(ls0, FactWrites(sorted[..index])) == Run(true, layers)
      {
        var pair := FactPair(index, sorted[index]);
        FactWritesStep(sorted, index);
        RunWritesAppend(ls0, FactWrites(sorted[..index]), pair);
        assert pair == [pair[0], pair[1]];
        ok := WritePair(pair[0], pair[1]);
        if !ok {
          FactWritesStopAt(ls0, sorted, index + 1);
          return;
        }
      }
      assert sorted[..|sorted|] == sorted;
      ok := true;
    }

    /** The image slot: findOne, the request, then createImage and the fill. */
    method UpdateImage(item: Json, host: ItemHost) returns (ok: bool)
      modifies this
      ensures ok <==> ImageStep(old(layers), item, host).Some?
      ensures layers == (if ok then ImageStep(old(layers), item, host).value else old(layers))
      ensures properties == old(properties)
    {
      ok := true;
      if Truthy(Lookup(item, "imageUrl")) {
        var imageNode := FindOne(layers, Rectangle, ImageSlot);
        if imageNode.Some? {
          var k := imageNode.value;
          var imageResult := ProcessImage(host.firstEvent);
          if imageResult.success && imageResult.data.Some? {
            if host.createdImage.None? {
              return false;
            }
            layers := layers[k := layers[k].(fills := Paints([ImagePaint(host.createdImage.value, Fill)]))];
          } else {
            layers := layers[k := layers[k].(fills := Paints([SolidPaint(NeutralGray)]))];
          }
        }
      }
    }

    /** updateCardInstance, step by step. */
    method UpdateCardInstance(item: Json, host: ItemHost) returns (ok: bool)
      modifies this
      ensures Hydrate(old(layers), old(properties), item, host) == Outcome(ok, layers, properties)
    {
      var appearance := Lookup(item, "appearance");
      if ColorProperty in properties {
        if appearance.Some? && appearance.value.JString? && appearance.value.s in properties[ColorProperty].options {
          properties := properties[ColorProperty := properties[ColorProperty].(value := appearance.value.s)];
        } else {
          return false;
        }
      }
      ok := WriteText(Write(NameSlot, Lookup(item, "name")));
      if !ok {
        return;
      }
      var facts := FactsOf(Lookup(item, "facts"));
      if facts.None? {
        return false;
      }
      ghost var ls1 := layers;
      var sortedFacts := SortFactsByPoints(facts.value);
      var potential := Write(PotentialSlot, Some(JString(MaxPointsText(facts.value))));
      RunWritesAppend(ls1, FactWrites(sortedFacts), [potential]);
      ok := WriteFacts(sortedFacts);
      if !ok {
        return;
      }
      ok := WriteText(potential);
      if !ok {
        return;
      }
      ok := UpdateImage(item, host);
    }
  }
}

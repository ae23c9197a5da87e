# FigmaCardCreator, modelled in Dafny

FigmaCardCreator is a Figma plugin that turns a list of JSON records into
playing cards. The designer first picks a card component, a component or
component set with text layers named `Name` and `Fact1`-`Fact3` and a rectangle
named `Image`; text layers `Points1`-`Points3` and `Potential Points` are optional,
and a slot that is missing is skipped. The plugin then makes one
instance of that component per record inside a "Generated Cards" frame. It fills
each instance's slots: the record's name, its facts ordered by points, its largest
points value, its picture, and its `Color` variant. It also analyses a selected
component so that the UI can show which fields a record may fill.

This project models the plugin's data side and proves its properties:

- `base.dfy` (module `Base`): optional values; the decimal text JavaScript gives
  an integer, with its parse-back; `join`; `filter`.
- `stable_sort.dfy` (`StableSort`): a stable sort by an integer key, proved
  sorted, a permutation, stable and idempotent.
- `json.dfy` (`Json`): a parsed JSON value. Objects are ordered member lists.
  The module also covers member lookup, JavaScript truthiness, the depth-first
  `findFirstArray`, and the rule that extracts the records from the data.
- `scene.dfy` (`Scene`): the node tree of a component, with pre-order search.
  It also gives the layer list of an instance, and `findOne` by type and name as
  the first match.
- `fields.dfy` (`Fields`): the analysis result (fields, variants, duplicates).
  It holds the field records, the synthetic `variant` field and the duplicate-name
  detector (a loop method proved against a reference definition).
- `flat_analyzer.dfy` (`FlatAnalyzer`): `analyzeComponent` of `code.ts` /
  `dist/code.js`. It gives the text layers ordered by vertical position (box y),
  then the image layers ordered the same way, then `variant`.
- `tree_analyzer.dfy` (`TreeAnalyzer`): the `analyzeComponent` /
  `collectComponentFields` of `code.js`. This is a recursive pre-order walk that
  tracks the innermost enclosing "WithPoints" frame. It is proved equal to a
  description by root-to-node paths.
- `image.dfy` (`Image`): the outcome rule of an image request, and the
  aspect-preserving size clamp of `resizeImage`.
- `hydration.dfy` (`Hydration`): `updateCardInstance`. It consists of the
  function `Hydrate` and the class `CardInstance`, whose methods update the
  instance's layers and properties in place and are proved equal to `Hydrate`.
- `plugin.dfy` (`Plugin`): the selection table, the `get-components` listing, and
  the `hydrate-cards` batch. The batch covers the `Frame` class, the per-record
  loop proved against the tally function `TallyOf`, the width cap and the
  summary toast.

Host calls are parameters of the model.
- **Importing the component:** an `Import`: it resolves to a component, it
  resolves to null, or it rejects (an unknown key).
- **Parsing the data:** a `Parsed` value or a syntax error.
- **Per record (`ItemEnv`):** whether `createInstance` succeeds, the first event
  after the image request, and the hash `createImage` gives (`None` when it throws).
- **Fonts:** each text layer carries whether `loadFontAsync` of its font resolves
  (`fontLoads`).
- **Frame width:** the width auto-layout gives the frame is a number.

Where the host rejects a value, the model states the behaviour it assumes:
- Writing `characters` throws unless the value is a string and the layer's font
  has loaded. `loadFontForNode` swallows a failed load, so the write after it is
  what throws.
- `setProperties({Color})` throws unless the value is a string among the
  property's variant values.

Three edge cases of the code:
- A batch with no records is not an error: the toast reads "Successfully created
  0 cards." (`dist/code.js:367-370`).
- A `null` record reads `item.name` in the `catch` block too. The second throw
  leaves the loop and abandons the batch (`dist/code.js:331-354`).
- A first UI message of another type consumes the one-shot listener, so the
  request then times out (`dist/code.js:106-118`).

## Model

| member | source | states |
|---|---|---|
| Base.NatToString | code.ts:224 | the text of a natural number is a non-empty digit string with no leading zero |
| Base.IntToString | code.ts:224 | `toString` of an integer is non-empty and starts with '-' exactly for negatives |
| Base.NatToStringRoundTrip | code.ts:224 | reading the digits back gives the number |
| Base.IntToStringRoundTrip | code.ts:224 | reading the text back gives the integer |
| Base.IntToStringInjective | code.ts:205-224 | different integers give different texts, so `Fact{3-i}` names differ for different i |
| Base.Join | code.ts:508-509 | `join` of nothing is empty and of one part is that part |
| Base.JoinAppend | code.ts:508-509 | joining one more part puts the separator between the join so far and that part |
| Base.JoinStartsWithFirst | code.ts:508-509 | a join starts with its first part |
| Base.Filter | dist/code.js:249-262 | the kept elements come from the input and satisfy the test, and every element passing the test is kept |
| Base.FilterMultiset | dist/code.js:249-262 | each passing value is kept exactly as often as it occurs in the input, and no other value is kept |
| Base.FilterAppend | dist/code.js:249-262 | filtering a concatenation concatenates the filters |
| Base.FilterIndices | dist/code.js:249-262 | the kept elements are the passing ones at strictly increasing input positions, and every passing position is among them |
| StableSort.InsertPermutation | code.ts:178-180 | one insertion step adds exactly the new element |
| StableSort.InsertSorted | code.ts:178-180 | insertion keeps a sorted list sorted |
| StableSort.InsertWithKey | code.ts:178-180 | insertion puts the new element after the ones with the same key |
| StableSort.SortByKeySortedPermutation | code.ts:178-180 | the sorted copy is sorted by the key and a permutation of the input |
| StableSort.SortByKeyStable | code.ts:178-180 | elements with equal keys keep their input order |
| StableSort.SortByKeyOfSorted | code.ts:178-180 | a list already sorted is left as it is |
| StableSort.SortByKeyIdempotent | code.ts:178-180 | sorting twice equals sorting once |
| Json.Lookup | code.ts:187 | a member is found only in an object, and it is the first member with that key |
| Json.FindFirstArray | code.ts:602-614 | no contract of its own; FindFirstArrayFindsIffHasArray, FindFirstArrayIsFirstInOrder and FindFirstArrayReaches state what it finds |
| Json.FindInMembers | code.ts:606-610 | no contract of its own; MembersFindIffHaveArray, MembersFindIsFirstInOrder and MembersFindReaches state what it finds |
| Json.FindFirstArrayFindsIffHasArray | code.ts:602-614 | `findFirstArray` finds something exactly when the value holds an array somewhere, an empty one included |
| Json.MembersFindIffHaveArray | code.ts:606-610 | the same over an object's members in key order |
| Json.FindFirstArrayIsFirstInOrder | code.ts:602-614 | the array found is the first in depth-first key order |
| Json.MembersFindIsFirstInOrder | code.ts:606-610 | the same over the members |
| Json.FindFirstArrayReaches | code.ts:602-614 | the array found is reachable from the value through member values |
| Json.MembersFindReaches | code.ts:606-610 | the same over the members |
| Json.ExtractItems | code.ts:370-383 | a top-level array is used as it is; an object gives the first array inside it, or else itself alone; any other value gives no records |
| Json.LocationsObjectYieldsItsList | code.ts:373-378 | `{"locations": [...]}` gives that list |
| Scene.IsImageLayer | code.js:310-315 | no contract of its own; FlatAnalyzer.ImageLayersExactly states which nodes it admits |
| Scene.Preorder | code.js:277-304 | a pre-order listing starts with the node itself |
| Scene.InstanceLayers | dist/code.js:333 | a fresh instance has one layer per descendant of the component, in search order |
| Scene.FindOne | code.ts:193-195 | `findOne` gives the first layer of that type and name, or none when there is none |
| Scene.FindOneSameShape | code.ts:193-245 | writing characters or fills never changes what a later `findOne` finds |
| Fields.TextField | code.js:282-289 | a text layer gives a "text" field described `Current text: "<characters>"` |
| Fields.ImageField | code.js:291-297 | an image layer gives an "image" field described "Image placeholder" |
| Fields.GetVariantInfo | code.js:262-266 | a set's variants are its children's names in order; anything else gives its own name |
| Fields.GroupsTextEmptyIff | code.js:320-323 | the joined variant-property text is empty exactly when there are no variant properties |
| Fields.VariantField | code.js:319-329 | the `variant` field has type string and a description listing the properties, or the variant names when there are none |
| Fields.AddVariantField | code.js:319-329 | exactly one field is appended, and it is the variant field |
| Fields.Names | code.js:336-341 | the names of the fields, position by position |
| Fields.DuplicatesOf | code.js:333-346 | no contract of its own; DuplicatesOfExact states what it lists and FindDuplicateFields that the loop computes it |
| Fields.DuplicatesOfExact | code.js:333-346 | the duplicates are exactly the names occurring at least twice, each once |
| Fields.DuplicatesOfStep | code.js:336-341 | one loop step appends a name exactly at its second occurrence |
| Fields.FindDuplicateFields | code.js:333-346 | the loop gives the duplicates in order of second occurrence, and `hasDuplicates` exactly when there is one |
| Fields.VariantNameClashIsReported | code.js:241-246 | a set whose component has a layer named "variant" reports "variant" as a duplicate |
| FlatAnalyzer.TextLayers | code.ts:462-467 | no contract of its own; TextLayersOrdered and TextLayersExactly state which layers it gives and in what order |
| FlatAnalyzer.ImageLayers | code.ts:483-492 | no contract of its own; ImageLayersOrdered and ImageLayersExactly state which layers it gives and in what order |
| FlatAnalyzer.TextLayersOrdered | code.ts:462-467 | the text layers are all text nodes below the component, ascending by box y (0 without a box), keeping search order at equal y |
| FlatAnalyzer.ImageLayersOrdered | code.ts:483-492 | the same for the image rectangles |
| FlatAnalyzer.TextLayersExactly | code.ts:462 | a node is a text layer exactly when it is a text node below the component |
| FlatAnalyzer.ImageLayersExactly | code.ts:483-487 | a node is an image layer exactly when it is a rectangle below the component with an IMAGE fill |
| FlatAnalyzer.FieldList | code.ts:471-501 | the text fields come first, then the image fields, then the variant part, element by element |
| FlatAnalyzer.Analysis | code.ts:445-543 | null exactly for a set with no children; otherwise the key of the representative, the set's name and variants, the fields in that order, and duplicates reported |
| FlatAnalyzer.AnalysisLayout | code.ts:474-516 | field by field: text fields, then image fields, then `variant` last for a set only |
| FlatAnalyzer.FieldListLayout | code.ts:474-516 | the types and names of the listed fields, by position |
| FlatAnalyzer.AnalyzeComponent | code.ts:445-543 | the loops compute exactly `Analysis` |
| FlatAnalyzer.PushTextFields | code.ts:474-480 | the push loop over the text layers builds exactly their text fields, in order |
| FlatAnalyzer.PushImageFields | code.ts:494-501 | the push loop over the image layers appends exactly their image fields after the text fields |
| TreeAnalyzer.NodeFields | code.js:277-304 | no contract of its own; ProcessNode states that the walk computes it and NodeFieldsAlongPaths what it contains |
| TreeAnalyzer.ChildrenFields | code.js:300-302 | no contract of its own; ChildrenFieldsAppend and ChildrenFieldsAlongPaths state what it contains |
| TreeAnalyzer.ChildrenFieldsAppend | code.js:300-302 | the children's fields of one more child are the fields so far plus that child's |
| TreeAnalyzer.ProcessNode | code.js:277-303 | the recursive walk appends exactly the fields of the subtree |
| TreeAnalyzer.CollectComponentFields | code.js:270-306 | the walk from the root with no fact frame |
| TreeAnalyzer.Paths | code.js:277-303 | every root-to-node path is non-empty and the first is the root alone |
| TreeAnalyzer.InnermostFrameIsNearest | code.js:279-280 | the frame name a field gets belongs to a "WithPoints" frame on its path, with no such frame below it |
| TreeAnalyzer.FieldsAlongAppend | code.js:300-302 | fields along concatenated path lists concatenate |
| TreeAnalyzer.NodeFieldsAlongPaths | code.js:277-303 | the walk emits, in pre-order, one field per text or image node, carrying its innermost fact frame |
| TreeAnalyzer.ChildrenFieldsAlongPaths | code.js:300-302 | the same for a list of children |
| TreeAnalyzer.PathEndsArePreorder | code.js:277-303 | the nodes ending the paths are the subtree in pre-order |
| TreeAnalyzer.PathEndsArePreorderAll | code.js:300-302 | the same for a list of children |
| TreeAnalyzer.TreeAnalysis | code.js:226-260 | null exactly for a set with no children; otherwise key, name, variants, pre-order fields with innermost fact frames, then `variant`, and duplicates reported |
| TreeAnalyzer.AnalyzeComponent | code.js:226-260 | the imperative analysis computes exactly `TreeAnalysis` |
| Image.ProcessImage | dist/code.js:94-148 | success exactly when the first event is `image-processed`, with its data; `image-error` fails with its error; a timeout or another message type fails with "Image loading timed out" |
| Image.RoundDiv | code.ts:561 | `Math.round(p/q)`: rounds the quotient half up |
| Image.RoundDivAtMost | code.ts:561 | rounding never exceeds a bound the quotient meets |
| Image.ResizeDimensions | code.js:360-367 | no contract of its own; ResizeFits states its bounds and which side becomes maxSize in each branch, ResizeKeepsAspect its ratio |
| Image.ResizeFits | dist/code.js:479-486 | both sides end at most maxSize; an image that fits is unchanged; a landscape image wider than maxSize gets width maxSize, and any other image taller than maxSize gets height maxSize |
| Image.ResizeKeepsAspect | dist/code.js:479-486 | the scaled side is within half a pixel of the exact ratio |
| Image.ResizeExample | code.ts:552 | 4000x3000 becomes 2048x1536 under the default 2048 |
| Hydration.FactsOf | code.ts:203-229 | facts are read only from an array, one per entry, each with integer points |
| Hydration.SortFactsByPoints | code.ts:178-180 | no contract of its own; SortFactsByPointsSpec, SortFactsDescending, SortFactsStable and SortFactsByPointsIdempotent state its order |
| Hydration.SortFactsByPointsSpec | code.ts:178-180 | the sorted copy is a permutation, non-increasing in points, keeping equal-points facts in input order |
| Hydration.SortFactsDescending | code.ts:178-180 | the sorted copy has the same facts, as a multiset, in non-increasing points order |
| Hydration.SortFactsStable | code.ts:178-180 | for every points value, the facts with that value keep their input order |
| Hydration.SortFactsByPointsIdempotent | code.ts:178-180 | sorting sorted facts changes nothing |
| Hydration.MaxPointsText | code.ts:229-236 | "-Infinity" for no facts, else the text of a largest points value |
| Hydration.MaxIndex | code.ts:229 | the position of a largest points value |
| Hydration.ApplyWrite | code.ts:168-200 | a write throws exactly when its slot exists and either the layer's font failed to load or the value is not a string; a missing slot leaves the layers as they are; otherwise the found layer's characters become the string and nothing else changes |
| Hydration.RunWritesAppend | code.ts:193-237 | writing two plans in turn is writing their concatenation, stopping at the first throw |
| Hydration.RunWritesShape | code.ts:193-237 | writes keep every layer's type, name and font |
| Hydration.RunWritesOkIff | code.ts:168-237 | a run succeeds exactly when every slot it finds has a loaded font and gets a string; missing slots never fail it |
| Hydration.RunWritesEffect | code.ts:193-237 | after a successful run with distinct slots, each found slot holds its value and other layers are untouched |
| Hydration.FactWritesIndex | code.ts:204-226 | writes 2i and 2i+1 of the fact loop are the two writes of iteration i, for the i-th fact by points |
| Hydration.FactPairAt | code.ts:205-225 | iteration i writes the fact's text into `Fact{3-i}`, then its points as a decimal string into `Points{3-i}` |
| Hydration.FactWritesDistinct | code.ts:204-226 | the fact loop writes each slot name once |
| Hydration.FactWritesStopAt | code.ts:204-226 | a throw in iteration m stops the loop's plan there |
| Hydration.FactSlotsDistinct | code.ts:205-219 | `Fact{3-i}` and `Points{3-j}` never coincide, and differ from "Name" and "Potential Points"; same index exactly when same name |
| Hydration.TextPlanDistinct | code.ts:193-237 | all text slots of one record are distinct |
| Hydration.TextPlanEnds | code.ts:193-237 | the name is written first and the potential points last |
| Hydration.TextPlanPair | code.ts:193-226 | plan positions 1+2i and 2+2i are the two writes of iteration i of the fact loop |
| Hydration.TextPlanAt | code.ts:204-226 | fact i by points is written at plan positions 1+2i and 2+2i |
| Hydration.ColorStep | code.ts:185-190 | without a Color property nothing changes; with one, the value must be one of its options or the call throws, and only Color changes |
| Hydration.ImageStep | code.ts:240-263 | only the first rectangle named "Image" may change, and the step throws exactly when imageUrl is truthy, that rectangle exists, the request succeeds and createImage throws |
| Hydration.Hydrate | code.ts:182-270 | no contract of its own; HydrateOkIff, HydrateKeepsShape, HydrateColor, HydrateWritesSlots, HydrateImage and HydrateKeepsOthers state its outcome |
| Hydration.HydrateTextRun | code.ts:193-237 | the text writes of a record form one plan |
| Hydration.HydrateKeepsShape | code.ts:182-270 | the instance's layers, their types, names and fonts survive any outcome |
| Hydration.HydrateFailsWithoutFacts | code.ts:203-268 | facts that cannot be read throw in the sort, and the catch makes the call return false |
| Hydration.HydrateOkIff | code.ts:168-270 | true exactly when the colour is accepted, the facts are readable, every found text slot has a loaded font and gets a string, and the image step does not throw |
| Hydration.HydrateOkIffWith | code.ts:168-270 | the same for a record whose facts are readable |
| Hydration.HydrateColor | code.ts:185-190 | the Color property ends as the record's appearance when present, and is untouched when absent |
| Hydration.HydrateTextSlots | code.ts:193-237 | after success every found plan slot holds its value |
| Hydration.HydrateKeepsOthers | code.ts:182-270 | after success, a layer that no text slot of the plan finds and that is not the Image rectangle is unchanged |
| Hydration.HydrateWritesSlots | code.ts:193-237 | after success: Name holds the name, `Fact{3-i}`/`Points{3-i}` hold the i-th fact by points, Potential Points holds the maximum, each where the slot exists |
| Hydration.HydrateImage | code.ts:240-265 | with a truthy imageUrl and an Image rectangle: a successful request gives exactly one IMAGE/FILL paint, otherwise exactly one grey SOLID paint, and the call still succeeds |
| Hydration.HydrateNoImageKeepsFills | code.ts:240-245 | without a truthy imageUrl or an Image rectangle, no fill changes |
| Hydration.RunWritesFills | code.ts:193-237 | text writes never touch fills |
| Hydration.FactsPlanExample | code.ts:203-236 | A/5, B/9, C/1 give Fact3=B/"9", Fact2=A/"5", Fact1=C/"1" and potential "9" |
| Hydration.CardInstance.WriteText | code.ts:193-200 | one write in place agrees with `ApplyWrite` |
| Hydration.CardInstance.WritePair | code.ts:205-225 | one fact iteration in place (text, then points) agrees with running its two writes, stopping at a throw |
| Hydration.CardInstance.WriteFacts | code.ts:203-226 | the in-place fact loop agrees with the fact plan |
| Hydration.CardInstance.UpdateImage | code.ts:240-263 | the in-place image update agrees with `ImageStep` |
| Hydration.CardInstance.UpdateCardInstance | code.ts:182-270 | the in-place routine leaves the instance in the state `Hydrate` gives, and returns its verdict |
| Plugin.HandleSelection | dist/code.js:14-58 | exactly one post; `component-selected` with the analysis exactly for one component or set whose analysis is non-null; an error toast exactly when that analysis is null |
| Plugin.FlatSelectionAnnounces | code.ts:5-50 | with the flat analyzer, a single component is announced unless it is an empty set, with its fields in flat order |
| Plugin.TreeSelectionAnnounces | code.js:5-48 | with the tree-walk analyzer, the same table, with pre-order fields |
| Plugin.StartupEffects | dist/code.js:81-92 | at start-up an empty selection prompts the user and posts `component-deselected`; otherwise the table decides |
| Plugin.HasRequiredLayers | dist/code.js:253-263 | no contract of its own; GetComponentsListsCardSets, GetComponentsSound and GetComponentsComplete state the listing it selects |
| Plugin.EntryOf | dist/code.js:268-279 | no contract of its own; ListEntriesStep states which sets give an entry |
| Plugin.GetComponents | dist/code.js:247-281 | no contract of its own; GetComponentsListsCardSets, GetComponentsSound and GetComponentsComplete state its list |
| Plugin.ResolveKey | dist/code.js:276-279 | the default variant's key when present and non-empty, else the first variant's key |
| Plugin.ListEntriesOneFilter | dist/code.js:249-281 | dropping the non-component first children after filtering is one filter on both conditions |
| Plugin.GetComponentsListsCardSets | dist/code.js:247-281 | the list is, in search order, the entry of every set whose first variant is a component holding Name, Image, Fact1, Fact2, Fact3 |
| Plugin.GetComponentsSound | dist/code.js:247-281 | every listed entry comes from such a set |
| Plugin.GetComponentsComplete | dist/code.js:247-281 | every such set is listed |
| Plugin.ListEntriesStep | dist/code.js:249-281 | the first node contributes its entry exactly when it is a listed card set, and the rest is listed the same way |
| Plugin.Step | dist/code.js:330-353 | no contract of its own; StepCreated states the step for a created instance |
| Plugin.TallyOf | dist/code.js:328-354 | no contract of its own; TallyCountsEveryRecord, TallyStopsAtFirstNull, TallyAbortedIffNull and TallyAbortedStays state what it counts |
| Plugin.TallyCountsEveryRecord | dist/code.js:328-354 | with no null record, every record is counted once, and the kept instances are the successful ones, ok, in record order |
| Plugin.TallyStopsAtFirstNull | dist/code.js:330-354 | a null record abandons the batch with the tally of the records before it |
| Plugin.TallyAbortedIffNull | dist/code.js:330-354 | the batch is abandoned exactly when some record is null |
| Plugin.TallyAbortedStays | dist/code.js:330-354 | once abandoned, later records change nothing |
| Plugin.Frame.RemoveChild | dist/code.js:347 | the instance leaves the frame and nothing else changes |
| Plugin.Frame.AppendChild | dist/code.js:334 | the instance is added as the frame's last card and nothing else changes |
| Plugin.Frame.Resize | dist/code.js:359 | only the width changes, to the given value |
| Plugin.WithoutFresh | dist/code.js:334-347 | appending a new instance and removing it again restores the frame |
| Plugin.AddCard | dist/code.js:333-347 | a created card stays in the frame exactly when its update succeeds, in the state `Hydrate` gives |
| Plugin.ProcessRecord | dist/code.js:331-353 | one loop iteration is one step of the tally |
| Plugin.StepCreated | dist/code.js:333-350 | for a created instance, the record counts as a success, kept with its outcome, exactly when the update returns true, and otherwise as a failure |
| Plugin.GenerateCards | dist/code.js:328-354 | the counters and the frame's cards are those `TallyOf` gives |
| Plugin.FinalWidth | dist/code.js:356-359 | the final width is the smaller of the cap and the current width, so it never grows and never exceeds the cap |
| Plugin.MaxRowWidth | dist/code.js:355-358 | no contract of its own; FinalWidthCap states its value |
| Plugin.FinalWidthCap | code.ts:417-420 | the cap is 10 card widths plus 280 |
| Plugin.DigitPrefixOf | dist/code.js:368-369 | the digits of a count can be read back off the toast |
| Plugin.ParseCreated | dist/code.js:368 | the toast with failures reads back as its two counts |
| Plugin.ParseSuccessful | dist/code.js:369 | the toast without failures reads back as its count and zero failures |
| Plugin.SummaryMessage | dist/code.js:367-369 | no contract of its own; SummaryRoundTrip and SummaryInjective state that both counts can be read back off it |
| Plugin.SummaryRoundTrip | dist/code.js:367-370 | both counts can be read back from the toast, in each of its two forms |
| Plugin.SummaryInjective | dist/code.js:367-370 | different counts give different toasts |
| Plugin.HydrateCards | dist/code.js:282-378 | a rejected import: no frame and the host's error; a null component: no frame and "Component not found"; with a parse error: an empty frame and the error; otherwise the tally's cards, a capped width and the summary, or the host error for a null record; the plugin closes after a delay exactly when the summary is shown |

## Left out

- Host APIs: `showUI` is not modelled; `postMessage` and `notify` are modelled as the message or toast they produce, and `closePlugin` as `Closing`; `importComponentByKeyAsync`, `createFrame`, `createInstance` and `createImage` are abstract outcomes; `findOne`/`findAll` are first-match search over the layer list.
- Async timing: the `Promise.race` of the image request against the 10 s timer. The 100 ms re-analysis delay is also left out, and the 1 s close delay is kept only as the tag `CloseAfterDelay`. Only the first event's outcome is kept.
- The `processImage` catch path, taken when posting the request itself throws, is not modelled.
- Listener plumbing: the `selectionchange`, `documentchange`, `select-component` and `close` registrations, and console logging.
- `resizeImage`'s browser calls (image, canvas, blob, JPEG quality) are left out; only the width and height arithmetic is kept. Sizes are integers.
- `JSON.parse`: the model starts from a parsed value or a syntax error. Objects keep their members in order as given; JavaScript's integer-keys-first order is not modelled.
- Json.Lookup: for an object with a repeated key it finds the first member, while `JSON.parse` keeps the last value; records with repeated keys are not modelled.
- Json.FindFirstArray: the same holds here and in `ExtractItems`: a repeated key is searched at each occurrence, while `for...in` over the parsed object sees only the last value once.
- Floating point: widths, box y values and points are integers. The grey fallback and the frame colour are tags. `Number.toString` is modelled for integers only. Very large integers, which JavaScript prints in exponent form, are not modelled.
- Hydration.FactsOf: facts that are not an array, or an entry without integer points, are treated as a throw, so the call returns false. JavaScript would spread a string and compute NaN points; those cases are not modelled.
- Hydration.ColorStep: the model keeps the instance's layers as they are after `setProperties({Color})`. The host may swap the instance to another variant whose layers differ, and the plugin checks only the first variant's layers (`dist/code.js:253-263`).
- Plugin.HydrateCards: for a null record the toast shows the JavaScript engine's TypeError message, and for a rejected import the host's rejection message (`dist/code.js:286`, `373-376`); the model leaves both abstract (`HostError`).
- Frame layout properties (layout mode, spacing, padding, fills): they are set once and never read, and only the width rule uses their values (24 and 32).
- The Figma error for a non-string `characters` value or an unloaded font, and the `setProperties` validation, are assumptions about the host, stated in `ApplyWrite` and `ColorStep`.

/** The value JSON.parse returns for the card data, and the search that finds
    the list of cards in it (code.ts findFirstArray and the item extraction of
    the hydrate-cards handler). Objects keep their members in the order a
    `for...in` loop visits them. JSON numbers are modelled as integers. */
module Json {
  import opened Base

  datatype Json =
    | JNull
    | JBool(b: bool)
    | JNumber(n: int)
    | JString(s: string)
    | JArray(elems: seq<Json>)
    | JObject(members: seq<Member>)

  datatype Member = Member(key: string, value: Json)

  /** `obj[key]`: the member's value, None for `undefined` (a key that is
      absent, or any property read on a value that is not an object). */
  function Lookup(v: Json, key: string): (r: Option<Json>)
    ensures r.Some? ==> v.JObject? && exists i :: (0 <= i < |v.members| && v.members[i] == Member(key, r.value)
      && forall j :: 0 <= j < i ==> v.members[j].key != key)
    ensures r.None? ==> !v.JObject? || forall i :: 0 <= i < |v.members| ==> v.members[i].key != key
  {
    if v.JObject? then LookupIn(v.members, key) else None
  }

  function LookupIn(ms: seq<Member>, key: string): (r: Option<Json>)
    ensures r.Some? ==> exists i :: (0 <= i < |ms| && ms[i] == Member(key, r.value)
      && forall j :: 0 <= j < i ==> ms[j].key != key)
    ensures r.None? ==> forall i :: 0 <= i < |ms| ==> ms[i].key != key
  {
    if ms == [] then None
    else if ms[0].key == key then Some(ms[0].value)
    else
      var r := LookupIn(ms[1..], key);
      assert r.Some? ==> exists i :: (1 <= i < |ms| && ms[i] == Member(key, r.value)
        && forall j :: 0 <= j < i ==> ms[j].key != key) by {
        if r.Some? {
          var i :| 0 <= i < |ms[1..]| && ms[1..][i] == Member(key, r.value)
            && forall j :: 0 <= j < i ==> ms[1..][j].key != key;
          assert ms[i + 1] == Member(key, r.value);
          assert forall j :: 0 <= j < i + 1 ==> ms[j].key != key by {
            forall j | 0 <= j < i + 1 ensures ms[j].key != key {
              if j > 0 { assert ms[j] == ms[1..][j - 1]; }
            }
          }
        }
      }
      r
  }

  /** JavaScript truthiness of a property read (`undefined` is falsy). */
  predicate Truthy(v: Option<Json>) {
    match v
    case None => false
    case Some(JNull) => false
    case Some(JBool(b)) => b
    case Some(JNumber(n)) => n != 0
    case Some(JString(s)) => s != ""
    case Some(_) => true
  }

  /** findFirstArray: an array is returned as it is; an object's members are
      scanned in order, a member holding an array wins at once, otherwise the
      first non-null result of searching inside the member does. An empty array
      is an array, and so a result. Every other value gives null. */
  function FindFirstArray(v: Json): Option<seq<Json>>
    decreases v, 1
  {
    match v
    case JArray(elems) => Some(elems)
    case JObject(members) => FindInMembers(members)
    case _ => None
  }

  function FindInMembers(ms: seq<Member>): Option<seq<Json>>
    decreases ms, 0
  {
    if ms == [] then None
    else if ms[0].value.JArray? then Some(ms[0].value.elems)
    else
      match FindFirstArray(ms[0].value)
      case Some(a) => Some(a)
      case None => FindInMembers(ms[1..])
  }

  /** Reference definitions: an array can be reached from v through object
      members only (the search never looks inside an array). */
  predicate HasArray(v: Json)
    decreases v, 1
  {
    match v
    case JArray(_) => true
    case JObject(members) => MembersHaveArray(members)
    case _ => false
  }

  predicate MembersHaveArray(ms: seq<Member>)
    decreases ms, 0
  {
    ms != [] && (HasArray(ms[0].value) || MembersHaveArray(ms[1..]))
  }

  predicate Reaches(v: Json, a: seq<Json>)
    decreases v, 1
  {
    match v
    case JArray(elems) => elems == a
    case JObject(members) => MembersReach(members, a)
    case _ => false
  }

  predicate MembersReach(ms: seq<Member>, a: seq<Json>)
    decreases ms, 0
  {
    ms != [] && (Reaches(ms[0].value, a) || MembersReach(ms[1..], a))
  }

  /** Every array the search can reach, in depth-first member order. */
  function ArraysInOrder(v: Json): seq<seq<Json>>
    decreases v, 1
  {
    match v
    case JArray(elems) => [elems]
    case JObject(members) => MembersArraysInOrder(members)
    case _ => []
  }

  function MembersArraysInOrder(ms: seq<Member>): seq<seq<Json>>
    decreases ms, 0
  {
    if ms == [] then [] else ArraysInOrder(ms[0].value) + MembersArraysInOrder(ms[1..])
  }

  /** The search finds something exactly when some array is reachable. */
  lemma {:induction false} FindFirstArrayFindsIffHasArray(v: Json)
    ensures FindFirstArray(v).Some? <==> HasArray(v)
    decreases v, 1
  {
    if v.JObject? {
      MembersFindIffHaveArray(v.members);
    }
  }

  lemma {:induction false} MembersFindIffHaveArray(ms: seq<Member>)
    ensures FindInMembers(ms).Some? <==> MembersHaveArray(ms)
    decreases ms, 0
  {
    if ms != [] {
      FindFirstArrayFindsIffHasArray(ms[0].value);
      MembersFindIffHaveArray(ms[1..]);
    }
  }

  /** What the search returns is the first of all reachable arrays. */
  lemma {:induction false} FindFirstArrayIsFirstInOrder(v: Json)
    ensures FindFirstArray(v) == (if ArraysInOrder(v) == [] then None else Some(ArraysInOrder(v)[0]))
    decreases v, 1
  {
    if v.JObject? {
      MembersFindIsFirstInOrder(v.members);
    }
  }

  lemma {:induction false} MembersFindIsFirstInOrder(ms: seq<Member>)
    ensures FindInMembers(ms) == (if MembersArraysInOrder(ms) == [] then None else Some(MembersArraysInOrder(ms)[0]))
    decreases ms, 0
  {
    if ms != [] {
      FindFirstArrayIsFirstInOrder(ms[0].value);
      MembersFindIsFirstInOrder(ms[1..]);
    }
  }

  /** What the search returns is an array inside v. */
  lemma {:induction false} FindFirstArrayReaches(v: Json)
    requires FindFirstArray(v).Some?
    ensures Reaches(v, FindFirstArray(v).value)
    decreases v, 1
  {
    if v.JObject? {
      MembersFindReaches(v.members);
    }
  }

  lemma {:induction false} MembersFindReaches(ms: seq<Member>)
    requires FindInMembers(ms).Some?
    ensures MembersReach(ms, FindInMembers(ms).value)
    decreases ms, 0
  {
    if !ms[0].value.JArray? {
      if FindFirstArray(ms[0].value).Some? {
        FindFirstArrayReaches(ms[0].value);
      } else {
        MembersFindReaches(ms[1..]);
      }
    }
  }

  /** The list of card records in the parsed data: a top-level array is used
      as it is; an object gives the first array found inside it or, failing
      that, itself as the only record; any other value gives no records. */
  function ExtractItems(data: Json): (items: seq<Json>)
    ensures data.JArray? ==> items == data.elems
    ensures data.JObject? && HasArray(data) ==> Reaches(data, items)
    ensures data.JObject? && HasArray(data) ==> ArraysInOrder(data) != [] && items == ArraysInOrder(data)[0]
    ensures data.JObject? && !HasArray(data) ==> items == [data]
    ensures !data.JArray? && !data.JObject? ==> items == []
  {
    FindFirstArrayFindsIffHasArray(data);
    FindFirstArrayIsFirstInOrder(data);
    match data
    case JArray(elems) => elems
    case JObject(_) =>
      (match FindFirstArray(data)
       case Some(a) => FindFirstArrayReaches(data); a
       case None => [data])
    case _ => []
  }

  /** The shape the plugin's own data uses: the records under "locations". */
  lemma LocationsObjectYieldsItsList(records: seq<Json>)
    ensures ExtractItems(JObject([Member("locations", JArray(records))])) == records
  {
    var ms := [Member("locations", JArray(records))];
    assert FindInMembers(ms) == Some(records);
  }
}

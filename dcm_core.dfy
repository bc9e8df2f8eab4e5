/**
 * The competence tree (tree -> aspect -> area -> facet), the slash-joined
 * paths its construction stamps onto every element, the lookup of an element
 * by its path, the learner's achievements and their index by path.
 */
module DcmCore {
  import opened Wrappers
  import opened Text

  // ---------------------------------------------------------------------
  // Data model. Elements are values; `path` is absent until the tree stamps it.

  datatype Facet = Facet(
    id: string, name: string, url: Option<string>, description: Option<string>,
    path: Option<string>)

  datatype Area = Area(
    id: string, name: string, url: Option<string>, description: Option<string>,
    path: Option<string>, facets: seq<Facet>)

  datatype Aspect = Aspect(
    id: string, name: string, url: Option<string>, description: Option<string>,
    path: Option<string>, areas: seq<Area>)

  /** A competence level: its number (the key of a level button) and its name. */
  datatype Level = Level(level: int, name: string)

  datatype CompetenceTree = CompetenceTree(
    id: string, name: string, url: Option<string>, description: Option<string>,
    path: Option<string>, lookupUrl: Option<string>,
    aspects: seq<Aspect>, levels: seq<Level>)

  function AspectKey(a: Aspect): string { a.id }
  function AreaKey(r: Area): string { r.id }
  function FacetKey(f: Facet): string { f.id }

  // ---------------------------------------------------------------------
  // CompetenceTree.__post_init__: path stamping.

  /** `f` and `g` differ at most in their paths. */
  predicate SameFacet(f: Facet, g: Facet) { f.(path := None) == g.(path := None) }

  predicate SameArea(r: Area, s: Area)
  {
    && r.(path := None, facets := []) == s.(path := None, facets := [])
    && |r.facets| == |s.facets|
    && forall k :: 0 <= k < |r.facets| ==> SameFacet(r.facets[k], s.facets[k])
  }

  predicate SameAspect(a: Aspect, b: Aspect)
  {
    && a.(path := None, areas := []) == b.(path := None, areas := [])
    && |a.areas| == |b.areas|
    && forall j :: 0 <= j < |a.areas| ==> SameArea(a.areas[j], b.areas[j])
  }

  predicate SameTree(t: CompetenceTree, u: CompetenceTree)
  {
    && t.(path := None, aspects := []) == u.(path := None, aspects := [])
    && |t.aspects| == |u.aspects|
    && forall i :: 0 <= i < |t.aspects| ==> SameAspect(t.aspects[i], u.aspects[i])
  }

  predicate FacetStamped(tid: string, aid: string, rid: string, f: Facet)
  {
    f.path == Some(tid + "/" + aid + "/" + rid + "/" + f.id)
  }

  predicate AreaStamped(tid: string, aid: string, r: Area)
  {
    && r.path == Some(tid + "/" + aid + "/" + r.id)
    && forall k :: 0 <= k < |r.facets| ==> FacetStamped(tid, aid, r.id, r.facets[k])
  }

  predicate AspectStamped(tid: string, a: Aspect)
  {
    && a.path == Some(tid + "/" + a.id)
    && forall j :: 0 <= j < |a.areas| ==> AreaStamped(tid, a.id, a.areas[j])
  }

  /** The tree's path is its id and every element's path joins the ids from the tree down to it. */
  predicate Stamped(t: CompetenceTree)
  {
    && t.path == Some(t.id)
    && forall i :: 0 <= i < |t.aspects| ==> AspectStamped(t.id, t.aspects[i])
  }

  /**
   * CompetenceTree.__post_init__: walks aspects, areas and facets and writes
   * each one's path. The result is the input with every path stamped and
   * nothing else changed.
   */
  method PostInit(t: CompetenceTree) returns (r: CompetenceTree)
    ensures SameTree(r, t)
    ensures Stamped(r)
  {
    var aspects := t.aspects;
    var i := 0;
    while i < |aspects|
      invariant 0 <= i <= |aspects| == |t.aspects|
      invariant forall m :: 0 <= m < i ==>
        AspectStamped(t.id, aspects[m]) && SameAspect(aspects[m], t.aspects[m])
      invariant forall m :: i <= m < |aspects| ==> aspects[m] == t.aspects[m]
    {
      var aspect := aspects[i];
      aspect := aspect.(path := Some(t.id + "/" + aspect.id));
      var areas := aspect.areas;
      var j := 0;
      while j < |areas|
        invariant 0 <= j <= |areas| == |aspect.areas|
        invariant forall m :: 0 <= m < j ==>
          AreaStamped(t.id, aspect.id, areas[m]) && SameArea(areas[m], aspect.areas[m])
        invariant forall m :: j <= m < |areas| ==> areas[m] == aspect.areas[m]
      {
        var area := areas[j];
        area := area.(path := Some(t.id + "/" + aspect.id + "/" + area.id));
        var facets := area.facets;
        var k := 0;
        while k < |facets|
          invariant 0 <= k <= |facets| == |area.facets|
          invariant forall m :: 0 <= m < k ==>
            FacetStamped(t.id, aspect.id, area.id, facets[m]) && SameFacet(facets[m], area.facets[m])
          invariant forall m :: k <= m < |facets| ==> facets[m] == area.facets[m]
        {
          var facet := facets[k];
          facets := facets[k := facet.(path := Some(t.id + "/" + aspect.id + "/" + area.id + "/" + facet.id))];
          k := k + 1;
        }
        areas := areas[j := area.(facets := facets)];
        j := j + 1;
      }
      aspects := aspects[i := aspect.(areas := areas)];
      i := i + 1;
    }
    r := t.(path := Some(t.id), aspects := aspects);
  }

  // ---------------------------------------------------------------------
  // CompetenceTree.lookup_by_path

  /**
   * Python's `next((x for x in s if key(x) == id), None)`, as the position of
   * the first element whose key is `id`.
   */
  function First<T>(s: seq<T>, key: T -> string, id: string): (r: Option<nat>)
    ensures r.Some? ==> r.value < |s| && key(s[r.value]) == id
    ensures r.Some? ==> forall k :: 0 <= k < r.value ==> key(s[k]) != id
    ensures r.None? ==> forall k :: 0 <= k < |s| ==> key(s[k]) != id
  {
    if |s| == 0 then None
    else if key(s[0]) == id then Some(0)
    else match First(s[1..], key, id)
      case None => None
      case Some(i) => Some(i + 1)
  }

  /** Sibling ids are unique. */
  ghost predicate UniqueKeys<T>(s: seq<T>, key: T -> string)
  {
    forall i, j :: 0 <= i < j < |s| ==> key(s[i]) != key(s[j])
  }

  lemma FirstOfUnique<T>(s: seq<T>, key: T -> string, i: nat)
    requires UniqueKeys(s, key) && i < |s|
    ensures First(s, key, key(s[i])) == Some(i)
  {
    var r := First(s, key, key(s[i]));
    assert r.Some?;
    assert r.value == i;
  }

  /** Ids free of the separator and unique among their siblings. */
  ghost predicate WellFormed(t: CompetenceTree)
  {
    && '/' !in t.id
    && UniqueKeys(t.aspects, AspectKey)
    && forall i :: 0 <= i < |t.aspects| ==> AspectWellFormed(t.aspects[i])
  }

  ghost predicate AspectWellFormed(a: Aspect)
  {
    && '/' !in a.id
    && UniqueKeys(a.areas, AreaKey)
    && forall j :: 0 <= j < |a.areas| ==> AreaWellFormed(a.areas[j])
  }

  ghost predicate AreaWellFormed(r: Area)
  {
    && '/' !in r.id
    && UniqueKeys(r.facets, FacetKey)
    && forall k :: 0 <= k < |r.facets| ==> '/' !in r.facets[k].id
  }

  /** What lookup_by_path returns; areas and facets carry their parent, the back-references `__post_init__` sets. */
  datatype Element =
    | TreeElement(tree: CompetenceTree)
    | AspectElement(aspect: Aspect)
    | AreaElement(area: Area, parentAspect: Aspect)
    | FacetElement(facet: Facet, parentArea: Area)

  function PathOf(e: Element): Option<string>
  {
    match e
    case TreeElement(t) => t.path
    case AspectElement(a) => a.path
    case AreaElement(r, _) => r.path
    case FacetElement(f, _) => f.path
  }

  /** How the walk down the tree along the path segments ends. */
  datatype Resolution =
    | Hit(element: Element)
    | WrongTree      // first segment is not the tree id
    | NotFound       // an aspect, area or facet id matches no sibling
    | NoArea         // unknown area id with four or more segments: `area.facets` on None

  function Resolve(t: CompetenceTree, parts: seq<string>): (r: Resolution)
    requires |parts| >= 1
    ensures r == WrongTree <==> parts[0] != t.id
  {
    if parts[0] != t.id then WrongTree
    else if |parts| == 1 then Hit(TreeElement(t))
    else match First(t.aspects, AspectKey, parts[1])
      case None => NotFound
      case Some(i) =>
        var aspect := t.aspects[i];
        if |parts| == 2 then Hit(AspectElement(aspect))
        else match First(aspect.areas, AreaKey, parts[2])
          case None => if |parts| == 3 then NotFound else NoArea
          case Some(j) =>
            var area := aspect.areas[j];
            if |parts| == 3 then Hit(AreaElement(area, aspect))
            else match First(area.facets, FacetKey, parts[3])
              case None => NotFound
              case Some(k) => Hit(FacetElement(area.facets[k], area))
  }

  /**
   * lookup_by_path: `Ok(Some(e))` for a found element, `Ok(None)` when lenient
   * and nothing matches, a ValueError when not lenient; the AttributeError of
   * an unknown area id with four or more segments is raised either way.
   */
  function LookupByPath(t: CompetenceTree, path: string, lenient: bool): (r: Result<Option<Element>, Error>)
    ensures r.Err? && r.error.ValueError? ==> !lenient
    ensures r == Ok(None) ==> lenient
    ensures r.Err? ==> r.error.ValueError? || r.error == AttributeError
  {
    var parts := Split(path, '/');
    match Resolve(t, parts)
    case Hit(e) => Ok(Some(e))
    case WrongTree =>
      if lenient then Ok(None) else Err(ValueError("invalid tree_id for lookup " + parts[0]))
    case NotFound =>
      if lenient then Ok(None) else Err(ValueError("invalid path for lookup " + path))
    case NoArea => Err(AttributeError)
  }

  lemma LookupTree(t: CompetenceTree, lenient: bool)
    requires Stamped(t) && WellFormed(t)
    ensures LookupByPath(t, t.path.value, lenient) == Ok(Some(TreeElement(t)))
  {
    SplitWithoutSeparator(t.id, '/');
  }

  lemma LookupAspect(t: CompetenceTree, i: nat, lenient: bool)
    requires Stamped(t) && WellFormed(t) && i < |t.aspects|
    ensures LookupByPath(t, t.aspects[i].path.value, lenient) == Ok(Some(AspectElement(t.aspects[i])))
  {
    var a := t.aspects[i];
    assert AspectStamped(t.id, a) && AspectWellFormed(a);
    SplitPath2(t.id, a.id);
    FirstOfUnique(t.aspects, AspectKey, i);
  }

  lemma LookupArea(t: CompetenceTree, i: nat, j: nat, lenient: bool)
    requires Stamped(t) && WellFormed(t) && i < |t.aspects| && j < |t.aspects[i].areas|
    ensures LookupByPath(t, t.aspects[i].areas[j].path.value, lenient)
         == Ok(Some(AreaElement(t.aspects[i].areas[j], t.aspects[i])))
  {
    var a := t.aspects[i];
    assert AspectStamped(t.id, a) && AspectWellFormed(a);
    var r := a.areas[j];
    assert AreaStamped(t.id, a.id, r) && AreaWellFormed(r);
    SplitPath3(t.id, a.id, r.id);
    FirstOfUnique(t.aspects, AspectKey, i);
    FirstOfUnique(a.areas, AreaKey, j);
  }

  lemma LookupFacet(t: CompetenceTree, i: nat, j: nat, k: nat, lenient: bool)
    requires Stamped(t) && WellFormed(t)
    requires i < |t.aspects| && j < |t.aspects[i].areas| && k < |t.aspects[i].areas[j].facets|
    ensures LookupByPath(t, t.aspects[i].areas[j].facets[k].path.value, lenient)
         == Ok(Some(FacetElement(t.aspects[i].areas[j].facets[k], t.aspects[i].areas[j])))
  {
    var a := t.aspects[i];
    assert AspectStamped(t.id, a) && AspectWellFormed(a);
    var r := a.areas[j];
    assert AreaStamped(t.id, a.id, r) && AreaWellFormed(r);
    var f := r.facets[k];
    assert FacetStamped(t.id, a.id, r.id, f);
    SplitPath4(t.id, a.id, r.id, f.id);
    FirstOfUnique(t.aspects, AspectKey, i);
    FirstOfUnique(a.areas, AreaKey, j);
    FirstOfUnique(r.facets, FacetKey, k);
  }

  /** The converse: an element found by a path of at most four segments carries that very path. */
  lemma LookupHitHasPath(t: CompetenceTree, path: string, lenient: bool, e: Element)
    requires Stamped(t)
    requires |Split(path, '/')| <= 4
    requires LookupByPath(t, path, lenient) == Ok(Some(e))
    ensures PathOf(e) == Some(path)
  {
    var parts := Split(path, '/');
    assert Resolve(t, parts) == Hit(e);
    ResolveHitHasJoinedPath(t, parts);
  }

  lemma ResolveHitHasJoinedPath(t: CompetenceTree, parts: seq<string>)
    requires Stamped(t)
    requires 1 <= |parts| <= 4 && Resolve(t, parts).Hit?
    ensures PathOf(Resolve(t, parts).element) == Some(Join(parts, '/'))
  {
    if |parts| >= 2 {
      var i := First(t.aspects, AspectKey, parts[1]).value;
      var a := t.aspects[i];
      assert AspectStamped(t.id, a);
      if |parts| == 2 {
        JoinPath2(parts);
      } else {
        var j := First(a.areas, AreaKey, parts[2]).value;
        var r := a.areas[j];
        assert AreaStamped(t.id, a.id, r);
        if |parts| == 3 {
          JoinPath3(parts);
        } else {
          var k := First(r.facets, FacetKey, parts[3]).value;
          assert FacetStamped(t.id, a.id, r.id, r.facets[k]);
          JoinPath4(parts);
        }
      }
    }
  }

  /** When several siblings share an id, the first of them is found. */
  lemma LookupFindsFirstAspect(t: CompetenceTree, aid: string, i: nat, lenient: bool)
    requires '/' !in t.id && '/' !in aid
    requires i < |t.aspects| && t.aspects[i].id == aid
    requires forall m :: 0 <= m < i ==> t.aspects[m].id != aid
    ensures LookupByPath(t, t.id + "/" + aid, lenient) == Ok(Some(AspectElement(t.aspects[i])))
  {
    SplitPath2(t.id, aid);
    var r := First(t.aspects, AspectKey, aid);
    assert AspectKey(t.aspects[i]) == aid;
    assert r.Some?;
    assert r.value == i;
  }

  /** A path from another tree: None when lenient, a ValueError naming that tree id otherwise. */
  lemma LookupWrongTree(t: CompetenceTree, path: string, lenient: bool)
    requires Split(path, '/')[0] != t.id
    ensures LookupByPath(t, path, lenient)
         == if lenient then Ok(None)
            else Err(ValueError("invalid tree_id for lookup " + Split(path, '/')[0]))
  {
  }

  /** Segments after the fourth play no part in the lookup. */
  lemma {:induction false} ResolveIgnoresExtraSegments(t: CompetenceTree, parts: seq<string>)
    requires |parts| > 4
    ensures Resolve(t, parts) == Resolve(t, parts[..4])
  {
    var p := parts[..4];
    assert p[0] == parts[0] && p[1] == parts[1] && p[2] == parts[2] && p[3] == parts[3];
  }

  /** An unknown area id followed by more segments makes lookup_by_path read `facets` of None, lenient or not. */
  lemma LookupUnknownAreaRaises(t: CompetenceTree, path: string, lenient: bool, i: nat)
    requires |Split(path, '/')| >= 4
    requires Split(path, '/')[0] == t.id
    requires First(t.aspects, AspectKey, Split(path, '/')[1]) == Some(i)
    requires forall j :: 0 <= j < |t.aspects[i].areas| ==> t.aspects[i].areas[j].id != Split(path, '/')[2]
    ensures LookupByPath(t, path, lenient) == Err(AttributeError)
  {
    var parts := Split(path, '/');
    assert First(t.aspects[i].areas, AreaKey, parts[2]) == None;
  }

  // ---------------------------------------------------------------------
  // to_pretty_json: remove_none_values

  /** A parsed JSON document; an object keeps its entries in order. */
  datatype Json =
    | JNull
    | JBool(b: bool)
    | JNumber(n: real)
    | JString(s: string)
    | JArray(items: seq<Json>)
    | JObject(entries: seq<Entry>)

  /** One `key: value` member of a JSON object. */
  datatype Entry = Entry(key: string, value: Json)

  /** remove_none_values: drop object entries whose value is None, at every depth. */
  function RemoveNoneValues(j: Json): (r: Json)
    ensures r.JNull? <==> j.JNull?
    ensures j.JArray? ==> r.JArray? && |r.items| == |j.items|
    ensures j.JObject? ==> r.JObject?
    ensures !j.JArray? && !j.JObject? ==> r == j
  {
    match j
    case JArray(items) => JArray(RemoveNoneInItems(items))
    case JObject(entries) => JObject(RemoveNoneInEntries(entries))
    case _ => j
  }

  function RemoveNoneInItems(items: seq<Json>): (r: seq<Json>)
    ensures |r| == |items|
    ensures forall i :: 0 <= i < |r| ==> r[i] == RemoveNoneValues(items[i])
  {
    if items == [] then [] else [RemoveNoneValues(items[0])] + RemoveNoneInItems(items[1..])
  }

  function RemoveNoneInEntries(entries: seq<Entry>): (r: seq<Entry>)
    ensures forall i :: 0 <= i < |r| ==> !r[i].value.JNull?
    ensures |r| <= |entries|
  {
    if entries == [] then []
    else
      var rest := RemoveNoneInEntries(entries[1..]);
      var e := entries[0];
      assert e in entries;
      if e.value.JNull? then rest
      else [Entry(e.key, RemoveNoneValues(e.value))] + rest
  }

  /** The positions from `lo` on of the entries whose value is not None, in increasing order. */
  function KeptPositions(entries: seq<Entry>, lo: nat): (p: seq<nat>)
    requires lo <= |entries|
    ensures forall i :: 0 <= i < |p| ==> lo <= p[i] < |entries| && !entries[p[i]].value.JNull?
    ensures forall i, j :: 0 <= i < j < |p| ==> p[i] < p[j]
    ensures forall k :: lo <= k < |entries| && !entries[k].value.JNull? ==> k in p
    decreases |entries| - lo
  {
    if lo == |entries| then []
    else if entries[lo].value.JNull? then KeptPositions(entries, lo + 1)
    else [lo] + KeptPositions(entries, lo + 1)
  }

  /**
   * The cleaned entries are exactly the entries whose value is not None, in
   * their original order, each with its value cleaned: nothing is added,
   * reordered or duplicated.
   */
  lemma {:induction false} RemoveNoneInEntriesIsFilter(entries: seq<Entry>, lo: nat)
    requires lo <= |entries|
    ensures var r := RemoveNoneInEntries(entries[lo..]);
      var p := KeptPositions(entries, lo);
      && |r| == |p|
      && forall i :: 0 <= i < |r| ==> r[i] == Entry(entries[p[i]].key, RemoveNoneValues(entries[p[i]].value))
    decreases |entries| - lo
  {
    if lo < |entries| {
      RemoveNoneInEntriesIsFilter(entries, lo + 1);
      var tail := entries[lo..];
      assert tail[0] == entries[lo] && tail[1..] == entries[lo + 1..];
      var rest := RemoveNoneInEntries(entries[lo + 1..]);
      var p := KeptPositions(entries, lo + 1);
      if entries[lo].value.JNull? {
        assert RemoveNoneInEntries(tail) == rest && KeptPositions(entries, lo) == p;
      } else {
        var kept := Entry(entries[lo].key, RemoveNoneValues(entries[lo].value));
        var r, q := [kept] + rest, [lo] + p;
        assert RemoveNoneInEntries(tail) == r && KeptPositions(entries, lo) == q;
        forall i | 0 < i < |r|
          ensures r[i] == Entry(entries[q[i]].key, RemoveNoneValues(entries[q[i]].value))
        {
          assert r[i] == rest[i - 1] && q[i] == p[i - 1];
        }
      }
    }
  }

  /** Every entry with a value other than None survives, with its value cleaned. */
  lemma {:induction false} RemoveNoneInEntriesKeeps(entries: seq<Entry>, i: nat)
    requires i < |entries| && !entries[i].value.JNull?
    ensures Entry(entries[i].key, RemoveNoneValues(entries[i].value)) in RemoveNoneInEntries(entries)
  {
    if i > 0 {
      RemoveNoneInEntriesKeeps(entries[1..], i - 1);
    }
  }

  /** No object entry anywhere holds None (list items may). */
  ghost predicate NoneFree(j: Json)
  {
    match j
    case JArray(items) => forall i :: 0 <= i < |items| ==> NoneFree(items[i])
    case JObject(entries) => forall i :: 0 <= i < |entries| ==> !entries[i].value.JNull? && NoneFree(entries[i].value)
    case _ => true
  }

  lemma {:induction false} RemoveNoneValuesIsNoneFree(j: Json)
    ensures NoneFree(RemoveNoneValues(j))
  {
    match j
    case JArray(items) => RemoveNoneInItemsIsNoneFree(items);
    case JObject(entries) =>
      RemoveNoneInEntriesIsNoneFree(entries);
      assert RemoveNoneValues(j) == JObject(RemoveNoneInEntries(entries));
    case _ =>
  }

  lemma {:induction false} RemoveNoneInItemsIsNoneFree(items: seq<Json>)
    ensures forall i :: 0 <= i < |items| ==> NoneFree(RemoveNoneInItems(items)[i])
  {
    forall i | 0 <= i < |items| ensures NoneFree(RemoveNoneInItems(items)[i]) {
      RemoveNoneValuesIsNoneFree(items[i]);
    }
  }

  lemma {:induction false} RemoveNoneInEntriesIsNoneFree(entries: seq<Entry>)
    ensures forall i :: 0 <= i < |RemoveNoneInEntries(entries)| ==>
      NoneFree(RemoveNoneInEntries(entries)[i].value)
  {
    if entries != [] {
      RemoveNoneInEntriesIsNoneFree(entries[1..]);
      var e := entries[0];
      assert e in entries;
      if !e.value.JNull? {
        RemoveNoneValuesIsNoneFree(e.value);
        var r := RemoveNoneInEntries(entries);
        assert r == [Entry(e.key, RemoveNoneValues(e.value))] + RemoveNoneInEntries(entries[1..]);
      }
    }
  }

  /** A document without None entries is left as it is. */
  lemma {:induction false} RemoveNoneValuesKeepsNoneFree(j: Json)
    requires NoneFree(j)
    ensures RemoveNoneValues(j) == j
  {
    match j
    case JArray(items) =>
      forall i | 0 <= i < |items| ensures RemoveNoneValues(items[i]) == items[i] {
        RemoveNoneValuesKeepsNoneFree(items[i]);
      }
    case JObject(entries) => RemoveNoneInEntriesKeepsNoneFree(entries);
    case _ =>
  }

  lemma {:induction false} RemoveNoneInEntriesKeepsNoneFree(entries: seq<Entry>)
    requires forall i :: 0 <= i < |entries| ==> !entries[i].value.JNull? && NoneFree(entries[i].value)
    ensures RemoveNoneInEntries(entries) == entries
  {
    if entries != [] {
      RemoveNoneInEntriesKeepsNoneFree(entries[1..]);
      var e := entries[0];
      assert e in entries;
      RemoveNoneValuesKeepsNoneFree(e.value);
      assert [entries[0]] + entries[1..] == entries;
    }
  }

  /** Removing None values twice is the same as removing them once. */
  lemma RemoveNoneValuesIdempotent(j: Json)
    ensures RemoveNoneValues(RemoveNoneValues(j)) == RemoveNoneValues(j)
  {
    RemoveNoneValuesIsNoneFree(j);
    RemoveNoneValuesKeepsNoneFree(RemoveNoneValues(j));
  }

  // ---------------------------------------------------------------------
  // DynamicCompetenceMap.is_valid_definition

  predicate OccursAt(key: string, s: string, i: nat)
  {
    i + |key| <= |s| && s[i..i + |key|] == key
  }

  /** Python's `key in data` for parsed markup: a key of an object, an item of a list, a substring of a string. */
  function ContainsKey(data: Json, key: string): Result<bool, Error>
  {
    match data
    case JObject(entries) => Ok(exists i | 0 <= i < |entries| :: entries[i].key == key)
    case JArray(items) => Ok(JString(key) in items)
    case JString(s) => Ok(exists i | 0 <= i <= |s| - |key| :: OccursAt(key, s, i))
    case _ => Err(TypeError)
  }

  /** `all(key in data for key in keys)`, stopping at the first missing key. */
  function AllKeys(data: Json, keys: seq<string>): (r: Result<bool, Error>)
    ensures keys == [] ==> r == Ok(true)
    ensures r.Err? <==> keys != [] && ContainsKey(data, keys[0]).Err?
    ensures r.Err? ==> r.error == TypeError
    ensures r == Ok(true) <==> forall i :: 0 <= i < |keys| ==> ContainsKey(data, keys[i]) == Ok(true)
  {
    if keys == [] then Ok(true)
    else match ContainsKey(data, keys[0])
      case Err(e) => Err(e)
      case Ok(found) => if !found then Ok(false) else AllKeys(data, keys[1..])
  }

  /** is_valid_definition: `None` for the required keys is not iterable. */
  function IsValidDefinition(data: Json, requiredKeys: Option<seq<string>>): (r: Result<bool, Error>)
    ensures requiredKeys.None? ==> r == Err(TypeError)
    ensures requiredKeys == Some([]) ==> r == Ok(true)
    ensures r == Ok(true) <==> (requiredKeys.Some? &&
      forall i :: 0 <= i < |requiredKeys.value| ==> ContainsKey(data, requiredKeys.value[i]) == Ok(true))
    ensures r.Err? <==> requiredKeys.None? || (requiredKeys.value != [] && ContainsKey(data, requiredKeys.value[0]).Err?)
  {
    match requiredKeys
    case None => Err(TypeError)
    case Some(keys) => AllKeys(data, keys)
  }

  // ---------------------------------------------------------------------
  // Achievement and its path-derived ids

  datatype Achievement = Achievement(
    path: string, level: Option<int>, score: Option<real>, scoreUnit: Option<string>,
    evidence: Option<string>, dateAssessedIso: Option<string>)

  /** `Achievement(path=path)` with the dataclass defaults. */
  function NewAchievement(path: string): Achievement
  {
    Achievement(path, None, None, Some("%"), None, None)
  }

  /** Segment `i` of the path, or None when the path has fewer segments. */
  function PathSegment(path: string, i: nat): Option<string>
  {
    var parts := Split(path, '/');
    if i < |parts| then Some(parts[i]) else None
  }

  /** tree_id: the text before the first '/' (the whole path when there is none). */
  function TreeId(a: Achievement): (r: string)
    ensures '/' !in r
    ensures |r| <= |a.path| && r == a.path[..|r|]
    ensures |r| < |a.path| ==> a.path[|r|] == '/'
  {
    var parts := Split(a.path, '/');
    SplitHead(a.path, '/');
    parts[0]
  }

  lemma SplitHead(s: string, sep: char)
    ensures var p := Split(s, sep)[0];
      |p| <= |s| && p == s[..|p|] && (|p| < |s| ==> s[|p|] == sep)
  {
    var parts := Split(s, sep);
    if |parts| > 1 {
      assert s == parts[0] + [sep] + Join(parts[1..], sep);
    }
  }

  /** aspect_id: present exactly when the path has a second segment, that is, contains '/'. */
  function AspectId(a: Achievement): (r: Option<string>)
    ensures r.Some? <==> '/' in a.path
  {
    var parts := Split(a.path, '/');
    SplitSingle(a.path, '/');
    if |parts| > 1 then Some(parts[1]) else None
  }

  lemma SplitSingle(s: string, sep: char)
    ensures |Split(s, sep)| == 1 <==> sep !in s
  {
    if sep !in s { SplitWithoutSeparator(s, sep); }
  }

  function AreaId(a: Achievement): Option<string>
  {
    var parts := Split(a.path, '/');
    if |parts| > 2 then Some(parts[2]) else None
  }

  function FacetId(a: Achievement): Option<string>
  {
    var parts := Split(a.path, '/');
    if |parts| > 3 then Some(parts[3]) else None
  }

  /** The four ids of an achievement whose path joins separator-free segments are those segments. */
  lemma AchievementIds(a: Achievement, segments: seq<string>)
    requires |segments| >= 1 && forall i :: 0 <= i < |segments| ==> '/' !in segments[i]
    requires a.path == Join(segments, '/')
    ensures TreeId(a) == segments[0]
    ensures AspectId(a) == if |segments| > 1 then Some(segments[1]) else None
    ensures AreaId(a) == if |segments| > 2 then Some(segments[2]) else None
    ensures FacetId(a) == if |segments| > 3 then Some(segments[3]) else None
  {
    SplitJoin(segments, '/');
  }

  // ---------------------------------------------------------------------
  // Learner

  /** Every entry of the index points at an achievement with that path. */
  ghost predicate IndexOk(list: seq<Achievement>, index: map<string, nat>)
  {
    forall p :: p in index ==> index[p] < |list| && list[index[p]].path == p
  }

  /** The dictionary an index of positions stands for. */
  function IndexView(list: seq<Achievement>, index: map<string, nat>): (m: map<string, Achievement>)
    requires IndexOk(list, index)
    ensures m.Keys == index.Keys
    ensures forall p :: p in m ==> m[p].path == p
  {
    map p | p in index :: list[index[p]]
  }

  /** Appending and indexing the new achievement adds it to the view under its path and changes nothing else. */
  lemma IndexViewAppend(list: seq<Achievement>, index: map<string, nat>, a: Achievement)
    requires IndexOk(list, index)
    ensures IndexOk(list + [a], index[a.path := |list|])
    ensures IndexView(list + [a], index[a.path := |list|]) == IndexView(list, index)[a.path := a]
  {
    var l2 := list + [a];
    var i2 := index[a.path := |list|];
    assert IndexOk(l2, i2) by {
      forall p | p in i2 ensures i2[p] < |l2| && l2[i2[p]].path == p {
        if p != a.path { assert l2[index[p]] == list[index[p]]; }
      }
    }
    var v2 := IndexView(l2, i2);
    var v := IndexView(list, index)[a.path := a];
    assert v2.Keys == v.Keys;
    forall p | p in v2 ensures v2[p] == v[p] {
      if p != a.path { assert l2[index[p]] == list[index[p]]; }
    }
  }

  /** For every path, the position of the last achievement with that path. */
  function LastIndexByPath(list: seq<Achievement>): map<string, nat>
  {
    if list == [] then map[]
    else LastIndexByPath(list[..|list| - 1])[list[|list| - 1].path := |list| - 1]
  }

  /** The index holds every path of the list, each at its last occurrence. */
  lemma {:induction false} LastIndexByPathIsLast(list: seq<Achievement>)
    ensures forall p :: p in LastIndexByPath(list) <==> exists k :: 0 <= k < |list| && list[k].path == p
    ensures IndexOk(list, LastIndexByPath(list))
    ensures forall p, k :: p in LastIndexByPath(list) && LastIndexByPath(list)[p] < k < |list| ==> list[k].path != p
  {
    if list != [] {
      var n := |list| - 1;
      var init := list[..n];
      var last := list[n];
      LastIndexByPathIsLast(init);
      var mi := LastIndexByPath(init);
      var m := LastIndexByPath(list);
      assert m == mi[last.path := n];
      forall p ensures p in m <==> exists k :: 0 <= k < |list| && list[k].path == p {
        if p == last.path {
          assert list[n].path == p;
        } else if p in mi {
          assert exists k :: 0 <= k < |init| && init[k].path == p;
          var k :| 0 <= k < |init| && init[k].path == p;
          assert list[k].path == p;
        } else {
          forall k | 0 <= k < |list| ensures list[k].path != p {
            if k < n { assert init[k] == list[k]; }
          }
        }
      }
      forall p | p in m ensures m[p] < |list| && list[m[p]].path == p {
        if p != last.path {
          assert p in mi && mi[p] < |init|;
          assert init[mi[p]] == list[mi[p]];
        }
      }
      forall p, k | p in m && m[p] < k < |list| ensures list[k].path != p {
        if p != last.path && k < n { assert init[k] == list[k]; }
      }
    }
  }

  /** Paths alone decide the index. */
  lemma {:induction false} LastIndexByPathOnlyPaths(a: seq<Achievement>, b: seq<Achievement>)
    requires |a| == |b| && forall k :: 0 <= k < |a| ==> a[k].path == b[k].path
    ensures LastIndexByPath(a) == LastIndexByPath(b)
  {
    if a != [] {
      LastIndexByPathOnlyPaths(a[..|a| - 1], b[..|b| - 1]);
    }
  }

  class Learner {
    const learnerId: string
    var achievements: Option<seq<Achievement>>
    /** achievements_by_path, as the position of each indexed achievement in `achievements`. */
    var achievementsByPath: map<string, nat>

    function List(): seq<Achievement>
      reads this
    {
      match achievements
      case None => []
      case Some(list) => list
    }

    /** Every index entry points at an achievement with that path. */
    ghost predicate Indexed()
      reads this
    {
      IndexOk(List(), achievementsByPath)
    }

    /**
     * The index is the one __post_init__ and add_achievement maintain:
     * LastIndexByPath of the achievement list. It is stated over every list
     * equal to List() so that the index is unfolded only where a proof
     * mentions LastIndexByPath itself.
     */
    ghost predicate Valid()
      reads this
    {
      forall list {:trigger LastIndexByPath(list)} :: list == List() ==> achievementsByPath == LastIndexByPath(list)
    }

    /** A valid index points only at achievements with the indexed path. */
    lemma ValidIsIndexed()
      requires Valid()
      ensures Indexed()
    {
      LastIndexByPathIsLast(List());
    }

    /** The dictionary view of achievements_by_path. */
    function AchievementsByPath(): map<string, Achievement>
      reads this
      requires Valid()
    {
      ValidIsIndexed();
      IndexView(List(), achievementsByPath)
    }

    /** Learner(...) with __post_init__: index every achievement of a non-empty list by its path. */
    constructor(learnerId: string, achievements: Option<seq<Achievement>>)
      ensures this.learnerId == learnerId && this.achievements == achievements
      ensures Valid()
    {
      this.learnerId := learnerId;
      this.achievements := achievements;
      new;
      achievementsByPath := map[];
      if achievements.Some? && achievements.value != [] {
        var list := achievements.value;
        var i := 0;
        while i < |list|
          invariant 0 <= i <= |list|
          invariant this.achievements == achievements
          invariant achievementsByPath == LastIndexByPath(list[..i])
        {
          assert list[..i + 1][..i] == list[..i];
          achievementsByPath := achievementsByPath[list[i].path := i];
          i := i + 1;
        }
        assert list[..|list|] == list;
        LastIndexByPathIsLast(list);
      }
    }

    /** add_achievement: append, and index the new achievement under its path; other entries stay. */
    method AddAchievement(a: Achievement)
      requires Valid() && achievements.Some?
      modifies this
      ensures achievements == Some(old(achievements.value) + [a])
      ensures achievementsByPath == old(achievementsByPath)[a.path := |old(achievements.value)|]
      ensures Valid() && Indexed()
      ensures AchievementsByPath() == old(AchievementsByPath())[a.path := a]
    {
      ValidIsIndexed();
      var list := achievements.value;
      achievements := Some(list + [a]);
      achievementsByPath := achievementsByPath[a.path := |list|];
      assert (list + [a])[..|list|] == list;
      IndexViewAppend(list, old(achievementsByPath), a);
    }

    /**
     * get_competence_tree_ids: the distinct tree ids of the achievements, in
     * no particular order; iterating a None list raises TypeError.
     */
    method GetCompetenceTreeIds() returns (r: Result<seq<string>, Error>)
      ensures r.Err? <==> achievements.None?
      ensures r.Err? ==> r.error == TypeError
      ensures r.Ok? ==> forall i, j :: 0 <= i < j < |r.value| ==> r.value[i] != r.value[j]
      ensures r.Ok? ==> forall x :: x in r.value <==> exists k :: 0 <= k < |achievements.value| && TreeId(achievements.value[k]) == x
    {
      if achievements.None? {
        return Err(TypeError);
      }
      var list := achievements.value;
      var unique: set<string> := {};
      for i := 0 to |list|
        invariant forall x :: x in unique <==> exists k :: 0 <= k < i && TreeId(list[k]) == x
      {
        unique := unique + {TreeId(list[i])};
      }
      var ids: seq<string> := [];
      var rest := unique;
      while rest != {}
        invariant rest <= unique
        invariant forall x :: x in ids <==> x in unique && x !in rest
        invariant forall i, j :: 0 <= i < j < |ids| ==> ids[i] != ids[j]
        decreases rest
      {
        var x :| x in rest;
        ids := ids + [x];
        rest := rest - {x};
      }
      r := Ok(ids);
    }
  }
}

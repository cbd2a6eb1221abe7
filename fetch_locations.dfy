/**
 * Loading the OpenMRS location list (`FetchLocationsHelper`): each location
 * record becomes a fresh `Location` with its tags, its non-voided
 * "key: value" attributes and a freshly built chain of parent locations; the
 * pages are requested at start indices 10000 apart while a page carries a
 * "next" link. The JSON documents are given as datatypes.
 */
module FetchLocations {
  import opened Wrappers
  import opened Text
  import opened Locations

  datatype TagJson = TagJson(display: string)

  /** `voided` is read with `optBoolean`: absent counts as false. */
  datatype AttributeJson = AttributeJson(voided: bool, display: string)

  /** The `parentLocation` member: absent, JSON null, or a nested record. */
  datatype ParentJson = NoParent | NullParent | Parent(uuid: string, display: string, parentLocation: ParentJson)

  datatype LocationJson = LocationJson(
    uuid: string,
    name: string,
    parentLocation: ParentJson,
    tags: seq<TagJson>,
    attributes: Option<seq<AttributeJson>>)

  /** A link's `rel`, read with `optString`: absent is the empty string. */
  datatype LinkJson = LinkJson(rel: string)

  datatype Page = Page(results: Option<seq<LocationJson>>, links: Option<seq<LinkJson>>)

  /** One response to a page request: the request threw, the body was null or blank, or a document. */
  datatype FetchResult = Failed | Blank | Body(page: Page)

  /** The `limit` of every page request. */
  const PageSize: int := 10000

  // ---------------------------------------------------------------------
  // Attributes

  /**
   * The "key: value" split of an attribute's display: the key is the text before
   * the first ':', the value the text from two characters after it on.
   */
  function SplitAttribute(display: string): (r: Option<(string, string)>)
    ensures r.None? <==> ':' !in display || display[0] == ':' || IndexOf(display, ':') == |display| - 1
    ensures r.Some? ==>
      var i := IndexOf(display, ':');
      0 < i && r.value.0 == display[..i] && ':' !in r.value.0 && display == r.value.0 + [':', display[i + 1]] + r.value.1
  {
    var delimiterIndex := IndexOf(display, ':');
    if delimiterIndex > 0 && delimiterIndex + 2 <= |display| then
      assert display == display[..delimiterIndex] + [':', display[delimiterIndex + 1]] + display[delimiterIndex + 2..];
      Some((display[..delimiterIndex], display[delimiterIndex + 2..]))
    else None
  }

  /** A key without ':' and any value survive "key: value", and the character after the colon is always dropped. */
  lemma SplitAttributeRoundTrip(key: string, value: string)
    requires key != [] && ':' !in key
    ensures SplitAttribute(key + ": " + value) == Some((key, value))
  {
    SplitAttributeSkipsNextChar(key, ' ', value);
    assert key + ": " + value == key + [':', ' '] + value;
  }

  lemma SplitAttributeSkipsNextChar(key: string, c: char, value: string)
    requires key != [] && ':' !in key
    ensures SplitAttribute(key + [':', c] + value) == Some((key, value))
  {
    var d := key + [':', c] + value;
    assert d[|key|] == ':';
    assert d[..|key|] == key;
    assert IndexOf(d, ':') == |key| by {
      IndexOfPrefix(d, key, ':');
    }
    assert d[|key| + 2..] == value;
  }

  lemma {:induction false} IndexOfPrefix(d: string, key: string, c: char)
    requires |key| < |d| && d[..|key|] == key && c !in key && d[|key|] == c
    ensures IndexOf(d, c) == |key|
  {
    if key != [] {
      assert d[1..][..|key| - 1] == key[1..];
      IndexOfPrefix(d[1..], key[1..], c);
    }
  }

  /** What one attribute entry adds to the location's attributes. */
  function AddAttributeJson(m: map<string, string>, a: AttributeJson): map<string, string>
  {
    if a.voided then m
    else match SplitAttribute(a.display)
      case None => m
      case Some((k, v)) => m[k := v]
  }

  /** The attributes after the loop over the entries; a later entry with the same key wins. */
  function AttributesOf(attrs: seq<AttributeJson>): map<string, string>
  {
    if attrs == [] then map[] else AddAttributeJson(AttributesOf(attrs[..|attrs| - 1]), attrs[|attrs| - 1])
  }

  /** An entry, its display split into this key and value, not voided. */
  ghost predicate Contributes(a: AttributeJson, k: string, v: string)
  {
    !a.voided && SplitAttribute(a.display) == Some((k, v))
  }

  /** Each attribute comes from a non-voided entry whose display splits into that key and value. */
  lemma {:induction false} AttributeSource(attrs: seq<AttributeJson>, k: string)
    requires k in AttributesOf(attrs)
    ensures exists i :: 0 <= i < |attrs| && Contributes(attrs[i], k, AttributesOf(attrs)[k])
  {
    var init := attrs[..|attrs| - 1];
    var last := attrs[|attrs| - 1];
    var split := SplitAttribute(last.display);
    if !last.voided && split.Some? && split.value.0 == k {
      assert Contributes(attrs[|attrs| - 1], k, AttributesOf(attrs)[k]);
    } else {
      assert k in AttributesOf(init) && AttributesOf(attrs)[k] == AttributesOf(init)[k];
      AttributeSource(init, k);
      var i :| 0 <= i < |init| && Contributes(init[i], k, AttributesOf(init)[k]);
      assert attrs[i] == init[i];
    }
  }

  /** Every non-voided entry that splits provides its key, with its value unless a later entry provides the key too. */
  lemma {:induction false} AttributeProvided(attrs: seq<AttributeJson>, i: nat, k: string, v: string)
    requires i < |attrs| && Contributes(attrs[i], k, v)
    ensures k in AttributesOf(attrs)
    ensures (forall j, w :: i < j < |attrs| ==> !Contributes(attrs[j], k, w)) ==> AttributesOf(attrs)[k] == v
  {
    var init := attrs[..|attrs| - 1];
    var last := attrs[|attrs| - 1];
    if i < |attrs| - 1 {
      assert init[i] == attrs[i];
      AttributeProvided(init, i, k, v);
      var split := SplitAttribute(last.display);
      if !last.voided && split.Some? && split.value.0 == k {
        assert Contributes(attrs[|attrs| - 1], k, split.value.1);
      } else {
        assert forall j :: i < j < |init| ==> init[j] == attrs[j];
      }
    }
  }

  /** Voided entries are never added. */
  lemma {:induction false} VoidedNeverAdded(attrs: seq<AttributeJson>)
    requires forall i :: 0 <= i < |attrs| ==> attrs[i].voided
    ensures AttributesOf(attrs) == map[]
  {
    if attrs != [] {
      VoidedNeverAdded(attrs[..|attrs| - 1]);
    }
  }

  // ---------------------------------------------------------------------
  // Tags

  /** The tag names after the loop over the tag entries. */
  function Displays(tags: seq<TagJson>): set<string>
  {
    if tags == [] then {} else Displays(tags[..|tags| - 1]) + {tags[|tags| - 1].display}
  }

  lemma {:induction false} DisplaysAreTags(tags: seq<TagJson>, t: string)
    ensures t in Displays(tags) <==> exists i :: 0 <= i < |tags| && tags[i].display == t
  {
    if tags != [] {
      var init := tags[..|tags| - 1];
      DisplaysAreTags(init, t);
      if exists i :: 0 <= i < |init| && init[i].display == t {
        var i :| 0 <= i < |init| && init[i].display == t;
        assert tags[i] == init[i];
      }
      if exists i :: 0 <= i < |tags| && tags[i].display == t {
        var i :| 0 <= i < |tags| && tags[i].display == t;
        if i < |init| {
          assert init[i] == tags[i];
        }
      }
    }
  }

  // ---------------------------------------------------------------------
  // Parents

  /** How many parent records are nested in the member. */
  function Depth(p: ParentJson): nat
  {
    if p.Parent? then 1 + Depth(p.parentLocation) else 0
  }

  /** `chain` is the list of locations built for `p`, the nearest parent first, each pointing to the next. */
  ghost predicate Mirrors(p: ParentJson, chain: seq<Location>)
    reads chain
    decreases p
  {
    match p
    case Parent(uuid, display, grand) =>
      && chain != []
      && chain[0].locationId == Some(uuid)
      && chain[0].name == Some(display)
      && chain[0].parentLocation == (if |chain| == 1 then null else chain[1])
      && Mirrors(grand, chain[1..])
    case _ => chain == []
  }

  lemma {:induction false} MirrorsDepth(p: ParentJson, chain: seq<Location>)
    requires Mirrors(p, chain)
    ensures |chain| == Depth(p)
    ensures forall i :: 0 <= i < |chain| - 1 ==> chain[i].parentLocation == chain[i + 1]
    ensures chain != [] ==> chain[|chain| - 1].parentLocation == null
    decreases p
  {
    if p.Parent? {
      MirrorsDepth(p.parentLocation, chain[1..]);
      assert forall i :: 1 <= i < |chain| ==> chain[i] == chain[1..][i - 1];
    }
  }

  /** `getParent`: null when the member is absent or JSON null, otherwise a fresh chain of the nesting's depth. */
  method GetParent(p: ParentJson) returns (parent: Location?, ghost chain: seq<Location>)
    ensures Mirrors(p, chain)
    ensures parent == (if chain == [] then null else chain[0])
    ensures forall i :: 0 <= i < |chain| ==> fresh(chain[i])
    decreases p
  {
    if p.Parent? {
      var grandParent, rest := GetParent(p.parentLocation);
      parent := new Location(Some(p.uuid), Some(p.display), grandParent);
      chain := [parent] + rest;
      assert chain[1..] == rest;
    } else {
      parent := null;
      chain := [];
    }
  }

  /** The parent is null exactly when there is no parent record, and the chain is as deep as the nesting. */
  lemma ParentChainDepth(p: ParentJson, parent: Location?, chain: seq<Location>)
    requires Mirrors(p, chain) && parent == (if chain == [] then null else chain[0])
    ensures parent == null <==> !p.Parent?
    ensures |chain| == Depth(p)
  {
    MirrorsDepth(p, chain);
  }

  // ---------------------------------------------------------------------
  // One location

  /** The id, name, tags and attributes a location made from the record carries. */
  ghost predicate MadeFrom(l: Location, json: LocationJson)
    reads l
  {
    && l.locationId == Some(json.uuid)
    && l.name == Some(json.name)
    && l.tags == Displays(json.tags)
    && l.attributes == (if json.attributes.None? then map[] else AttributesOf(json.attributes.value))
  }

  /** `makeLocation`. */
  method MakeLocation(json: LocationJson) returns (location: Location, ghost chain: seq<Location>)
    ensures fresh(location) && MadeFrom(location, json)
    ensures Mirrors(json.parentLocation, chain) && location !in chain
    ensures location.parentLocation == (if chain == [] then null else chain[0])
    ensures forall i :: 0 <= i < |chain| ==> fresh(chain[i])
  {
    var parentLocation;
    parentLocation, chain := GetParent(json.parentLocation);
    location := new Location(Some(json.uuid), Some(json.name), parentLocation);
    var tags := json.tags;
    for i := 0 to |tags|
      invariant location.tags == Displays(tags[..i])
      invariant location.attributes == map[]
      invariant location.locationId == Some(json.uuid) && location.name == Some(json.name)
      invariant location.parentLocation == parentLocation
      invariant Mirrors(json.parentLocation, chain)
    {
      location.AddTag(tags[i].display);
      assert tags[..i + 1][..i] == tags[..i];
    }
    assert tags[..|tags|] == tags;
    if json.attributes.Some? {
      var attributes := json.attributes.value;
      for i := 0 to |attributes|
        invariant location.attributes == AttributesOf(attributes[..i])
        invariant location.tags == Displays(tags)
        invariant location.locationId == Some(json.uuid) && location.name == Some(json.name)
        invariant location.parentLocation == parentLocation
        invariant Mirrors(json.parentLocation, chain)
      {
        var attribute := attributes[i];
        assert attributes[..i + 1][..i] == attributes[..i];
        if !attribute.voided {
          var ad := attribute.display;
          var delimiterIndex := IndexOf(ad, ':');
          if delimiterIndex > 0 && delimiterIndex + 2 <= |ad| {
            location.AddAttribute(ad[..delimiterIndex], ad[delimiterIndex + 2..]);
          }
        }
      }
      assert attributes[..|attributes|] == attributes;
    }
  }

  // ---------------------------------------------------------------------
  // Pages

  /** Some link's `rel` is "next", ignoring case. */
  predicate HasNext(page: Page)
  {
    page.links.Some? && exists i :: 0 <= i < |page.links.value| && EqualsIgnoreCase("next", page.links.value[i].rel)
  }

  /** `hasNextPage`: a loop over the links with an early return. */
  method HasNextPage(page: Page) returns (b: bool)
    ensures b <==> HasNext(page)
  {
    if page.links.Some? {
      var links := page.links.value;
      for i := 0 to |links|
        invariant forall j :: 0 <= j < i ==> !EqualsIgnoreCase("next", links[j].rel)
      {
        if EqualsIgnoreCase("next", links[i].rel) {
          return true;
        }
      }
    }
    return false;
  }

  function Results(page: Page): seq<LocationJson>
  {
    if page.results.Some? then page.results.value else []
  }

  /** The list extended by fresh locations made from the records, in order. */
  ghost predicate Extends(updated: seq<Location>, list: seq<Location>, records: seq<LocationJson>)
    reads updated
  {
    && |updated| == |list| + |records|
    && updated[..|list|] == list
    && forall i :: 0 <= i < |records| ==> MadeFrom(updated[|list| + i], records[i])
  }

  /** `parseLocationsFromResponse`: the page's results are appended to the list in order. */
  method ParseLocationsFromResponse(page: Page, locationList: seq<Location>) returns (updated: seq<Location>)
    ensures Extends(updated, locationList, Results(page))
    ensures forall i :: |locationList| <= i < |updated| ==> fresh(updated[i])
  {
    updated := locationList;
    if page.results.Some? {
      var results := page.results.value;
      for i := 0 to |results|
        invariant Extends(updated, locationList, results[..i])
        invariant forall j :: |locationList| <= j < |updated| ==> fresh(updated[j])
      {
        var location, _ := MakeLocation(results[i]);
        updated := updated + [location];
      }
      assert results[..|results|] == results;
    }
  }

  /**
   * The records collected from a run of responses: a failed request is repeated
   * at the same start index, a blank response ends the run, and a page ends it
   * unless it has a "next" link. None when the responses run out first.
   */
  function Collected(responses: seq<FetchResult>): Option<seq<LocationJson>>
    decreases |responses|
  {
    if responses == [] then None
    else match responses[0]
      case Failed => Collected(responses[1..])
      case Blank => Some([])
      case Body(page) =>
        if !HasNext(page) then Some(Results(page))
        else
          var rest := Collected(responses[1..]);
          if rest.None? then None else Some(Results(page) + rest.value)
  }

  /** The start index of each request, one per response consumed. */
  function Requests(responses: seq<FetchResult>, startIndex: int): seq<int>
    decreases |responses|
  {
    if responses == [] then []
    else match responses[0]
      case Failed => [startIndex] + Requests(responses[1..], startIndex)
      case Blank => [startIndex]
      case Body(page) =>
        [startIndex] + (if HasNext(page) then Requests(responses[1..], startIndex + PageSize) else [])
  }

  /**
   * The first request starts at the given index; after a failure the same index
   * is requested again, and after a page the next one is 10000 further on.
   */
  lemma {:induction false} RequestsAdvanceByPage(responses: seq<FetchResult>, startIndex: int)
    ensures |Requests(responses, startIndex)| <= |responses|
    ensures responses != [] ==> Requests(responses, startIndex)[0] == startIndex
    ensures forall i :: 0 <= i < |Requests(responses, startIndex)| - 1 ==>
      Requests(responses, startIndex)[i + 1] ==
        Requests(responses, startIndex)[i] + (if responses[i].Body? then PageSize else 0)
    decreases |responses|
  {
    if responses != [] {
      var r := Requests(responses, startIndex);
      var next := if responses[0].Body? then startIndex + PageSize else startIndex;
      if |r| > 1 {
        var rest := Requests(responses[1..], next);
        RequestsAdvanceByPage(responses[1..], next);
        assert r == [startIndex] + rest;
        assert forall i :: 1 <= i < |r| ==> r[i] == rest[i - 1];
        assert forall i :: 1 <= i < |responses| ==> responses[i] == responses[1..][i - 1];
      }
    }
  }

  /** `getAllLocations`: fetch, parse, and recurse on the next page or on a failure. */
  method GetAllLocations(responses: seq<FetchResult>, locationList: seq<Location>, startIndex: int)
    returns (r: Option<seq<Location>>, ghost requested: seq<int>)
    ensures r.Some? <==> Collected(responses).Some?
    ensures r.Some? ==> Extends(r.value, locationList, Collected(responses).value)
    ensures r.Some? ==> forall i :: |locationList| <= i < |r.value| ==> fresh(r.value[i])
    ensures requested == Requests(responses, startIndex)
    decreases |responses|, 1
  {
    if responses == [] {
      return None, [];
    }
    match responses[0]
    case Failed =>
      assert Collected(responses) == Collected(responses[1..]);
      r, requested := GetAllLocations(responses[1..], locationList, startIndex);
      requested := [startIndex] + requested;
    case Blank =>
      return Some(locationList), [startIndex];
    case Body(page) =>
      r, requested := GetFromPage(page, responses[1..], locationList, startIndex);
  }

  /** The branch of `getAllLocations` for a response with a body: parse it, then fetch the next page if it links one. */
  method GetFromPage(page: Page, rest: seq<FetchResult>, locationList: seq<Location>, startIndex: int)
    returns (r: Option<seq<Location>>, ghost requested: seq<int>)
    ensures r.Some? <==> Collected([Body(page)] + rest).Some?
    ensures r.Some? ==> Extends(r.value, locationList, Collected([Body(page)] + rest).value)
    ensures r.Some? ==> forall i :: |locationList| <= i < |r.value| ==> fresh(r.value[i])
    ensures requested == Requests([Body(page)] + rest, startIndex)
    decreases |rest|, 2
  {
    assert ([Body(page)] + rest)[0] == Body(page) && ([Body(page)] + rest)[1..] == rest;
    var updatedLocationList := ParseLocationsFromResponse(page, locationList);
    var next := HasNextPage(page);
    if next {
      r, requested := GetAllLocations(rest, updatedLocationList, startIndex + PageSize);
      requested := [startIndex] + requested;
      if r.Some? {
        ExtendsTrans(r.value, updatedLocationList, locationList, Results(page), Collected(rest).value);
      }
    } else {
      r, requested := Some(updatedLocationList), [startIndex];
    }
  }

  lemma ExtendsTrans(c: seq<Location>, b: seq<Location>, a: seq<Location>, r1: seq<LocationJson>, r2: seq<LocationJson>)
    requires Extends(b, a, r1) && Extends(c, b, r2)
    ensures Extends(c, a, r1 + r2)
  {
    assert c[..|a|] == b[..|b|][..|a|];
    forall i | 0 <= i < |r1 + r2|
      ensures MadeFrom(c[|a| + i], (r1 + r2)[i])
    {
      if i < |r1| {
        assert c[|a| + i] == b[|a| + i];
      } else {
        assert (r1 + r2)[i] == r2[i - |r1|];
      }
    }
  }

  /** `getAllOpenMRSlocations`: the whole list, starting from an empty one at index 0. */
  method GetAllOpenMRSLocations(responses: seq<FetchResult>) returns (r: Option<seq<Location>>, ghost requested: seq<int>)
    ensures r.Some? <==> Collected(responses).Some?
    ensures r.Some? ==> Extends(r.value, [], Collected(responses).value)
    ensures requested == Requests(responses, 0)
  {
    r, requested := GetAllLocations(responses, [], 0);
  }
}

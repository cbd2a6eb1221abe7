/**
 * The two in-memory indices of the synchronisation service, as functions of
 * the locations filed into them (`addToCaches`, `refreshLocationCache`): the
 * id index maps the lower-cased uuid to the location, the code index maps the
 * lower-cased "Code" attribute, or failing that the "HFR Code" attribute.
 */
module CacheIndex {
  import opened Wrappers
  import opened Text
  import opened Locations

  datatype Index = ById | ByCode

  const CodeAttribute: string := "Code"
  const HfrCodeAttribute: string := "HFR Code"

  /** The code a location is known by: "Code" when present, else "HFR Code". */
  function CodeOf(attributes: map<string, string>): (c: Option<string>)
    ensures c.Some? <==> CodeAttribute in attributes || HfrCodeAttribute in attributes
    ensures CodeAttribute in attributes ==> c == Some(attributes[CodeAttribute])
  {
    if CodeAttribute in attributes then Some(attributes[CodeAttribute])
    else if HfrCodeAttribute in attributes then Some(attributes[HfrCodeAttribute])
    else None
  }

  /** The key a location is filed under in an index; None when `addToCaches` leaves it out. */
  function KeyOf(index: Index, l: Location): (k: Option<string>)
    reads l`locationId, l`attributes
    ensures k.Some? ==> l.locationId.Some?
  {
    if l.locationId.None? then None
    else match index
      case ById => Some(ToLower(l.locationId.value))
      case ByCode => Lowered(CodeOf(l.attributes))
  }

  function Lowered(s: Option<string>): Option<string>
  {
    if s.None? then None else Some(ToLower(s.value))
  }

  /** One location filed into one index. */
  function Put(index: Index, m: map<string, Location>, l: Location): map<string, Location>
    reads l`locationId, l`attributes
  {
    match KeyOf(index, l)
    case None => m
    case Some(k) => m[k := l]
  }

  /** An index built by filing the locations one after the other, from an empty map. */
  function Build(index: Index, s: seq<Location>): (m: map<string, Location>)
    reads s`locationId, s`attributes
    ensures forall k :: k in m ==> KeyOf(index, m[k]) == Some(k) && m[k] in s
  {
    if s == [] then map[] else Put(index, Build(index, s[..|s| - 1]), s[|s| - 1])
  }

  /** Every entry of the index is a location of the list, filed under its own key. */
  ghost predicate Indexed(index: Index, m: map<string, Location>, s: seq<Location>)
    reads s`locationId, s`attributes
  {
    forall k :: k in m ==> m[k] in s && KeyOf(index, m[k]) == Some(k)
  }

  /** Filing a location appended to the list keeps the index indexed over the longer list. */
  lemma PutIndexed(index: Index, m: map<string, Location>, s: seq<Location>, l: Location)
    requires Indexed(index, m, s)
    ensures Indexed(index, Put(index, m, l), s + [l])
  {
    forall k | k in Put(index, m, l)
      ensures Put(index, m, l)[k] in s + [l] && KeyOf(index, Put(index, m, l)[k]) == Some(k)
    {
      if KeyOf(index, l) != Some(k) {
        assert m[k] in s;
      }
    }
  }

  /** Filing one more location. */
  lemma BuildSnoc(index: Index, s: seq<Location>, l: Location)
    ensures Build(index, s + [l]) == Put(index, Build(index, s), l)
  {
    assert (s + [l])[..|s|] == s;
  }

  /** A key is in the rebuilt index exactly when some location of the snapshot has it. */
  lemma {:induction false} BuildKeys(index: Index, s: seq<Location>, k: string)
    ensures k in Build(index, s) <==> exists i :: 0 <= i < |s| && KeyOf(index, s[i]) == Some(k)
  {
    if s != [] {
      var t := s[..|s| - 1];
      BuildKeys(index, t, k);
      if k in Build(index, t) {
        var i :| 0 <= i < |t| && KeyOf(index, t[i]) == Some(k);
        assert s[i] == t[i];
      }
      if exists i :: 0 <= i < |s| && KeyOf(index, s[i]) == Some(k) {
        var i :| 0 <= i < |s| && KeyOf(index, s[i]) == Some(k);
        if i < |t| {
          assert t[i] == s[i];
        }
      }
    }
  }

  /** When several locations share a key, the index holds the last of them. */
  lemma {:induction false} BuildLastWins(index: Index, s: seq<Location>, i: nat)
    requires i < |s| && KeyOf(index, s[i]).Some?
    requires forall j :: i < j < |s| ==> KeyOf(index, s[j]) != KeyOf(index, s[i])
    ensures KeyOf(index, s[i]).value in Build(index, s) && Build(index, s)[KeyOf(index, s[i]).value] == s[i]
  {
    if i < |s| - 1 {
      var t := s[..|s| - 1];
      assert t[i] == s[i];
      assert forall j :: i < j < |t| ==> t[j] == s[j];
      BuildLastWins(index, t, i);
    }
  }

  /** A location without an id is in neither index. */
  lemma NullIdNotIndexed(index: Index, s: seq<Location>, l: Location)
    requires l.locationId.None?
    ensures l !in Build(index, s).Values
  {
  }

  /** "Code" takes priority over "HFR Code" for the code index. */
  lemma CodeBeforeHfrCode(l: Location)
    requires l.locationId.Some? && CodeAttribute in l.attributes
    ensures KeyOf(ByCode, l) == Some(ToLower(l.attributes[CodeAttribute]))
  {
  }

  lemma HfrCodeFallback(l: Location)
    requires l.locationId.Some? && CodeAttribute !in l.attributes && HfrCodeAttribute in l.attributes
    ensures KeyOf(ByCode, l) == Some(ToLower(l.attributes[HfrCodeAttribute]))
  {
  }
}

/**
 * The reconciliation engine (`LocationSyncService`): two in-memory indices over
 * the OpenMRS locations, the upsert that decides per (parent, name, code, tag)
 * whether to skip, rename, reparent or create, the five-attempt retry loops
 * around each remote mutation, the per-facility pipeline and the admin
 * hierarchy feed. Every request sent to OpenMRS is recorded, one entry per
 * attempt, and the outcome of each attempt is supplied by the caller.
 */
module LocationSync {
  import opened Wrappers
  import opened Text
  import opened Locations
  import opened CacheIndex
  import opened Retry
  import opened Capitalize
  import opened SyncNames
  import OpenmrsClient

  /** One request to OpenMRS: the target URL (or uuid) and what the JSON body carries. */
  datatype RemoteCall =
    | CreateLocation(url: string, name: Option<string>, parentUuid: Option<string>, tags: set<string>, attributes: map<string, string>)
    | UpdateParent(url: string, parentUuid: Option<string>)
    | UpdateName(url: string, newName: string)
    | RetireLocation(uuid: Option<string>, reason: string)
    | UnretireLocation(uuid: Option<string>)

  /** The uuid and name OpenMRS answers a successful create with. */
  datatype CreateReply = CreateReply(uuid: string, name: string)

  /** The outcomes of the requests one upsert may send: per-attempt success flags and the create answer. */
  datatype UpsertOracle = UpsertOracle(rename: seq<bool>, reparent: seq<bool>, create: seq<bool>, reply: CreateReply)

  /** An upsert whose every request fails. */
  const NoAnswers: UpsertOracle := UpsertOracle([], [], [], CreateReply("", ""))

  /** The upsert returns a location or null, or throws the NullPointerException of the parent comparison. */
  datatype Upsert = Returned(loc: Location?) | NullPointer

  datatype SyncResponse = SyncResponse(status: string, message: string)

  /** The message of that NullPointerException, in the wording of the JDK's helpful exception messages. */
  const NullPointerMessage: string :=
    "Cannot invoke \"String.equals(Object)\" because the return value of \"com.moh.go.tz.domain.Location.getLocationId()\" is null"

  /** The trimmed name, or the empty string for null. */
  function TrimmedOrEmpty(name: Option<string>): string
  {
    if name.Some? then Trim(name.value) else ""
  }

  /** The rename test of the upsert: a non-empty desired name that differs, ignoring case, from the current one. */
  predicate NeedsRename(current: Option<string>, name: Option<string>)
  {
    !EqualsIgnoreCase(TrimmedOrEmpty(current), TrimmedOrEmpty(name)) && TrimmedOrEmpty(name) != ""
  }

  /**
   * After the upsert stored the desired name, the same name needs no rename, and
   * whenever the desired name is non-empty the stored name matches it ignoring case.
   */
  lemma RenameSettles(current: Option<string>, name: Option<string>)
    ensures var after := if NeedsRename(current, name) then Some(TrimmedOrEmpty(name)) else current;
      && !NeedsRename(after, name)
      && (TrimmedOrEmpty(name) != "" ==> EqualsIgnoreCase(TrimmedOrEmpty(after), TrimmedOrEmpty(name)))
  {
    if name.Some? {
      TrimIdempotent(name.value);
    }
  }

  /** A cached "Dodoma" reconciled against the desired "DODOMA" issues no rename. */
  lemma CaseChangeNeedsNoRename()
    ensures !NeedsRename(Some("Dodoma"), Some("DODOMA"))
  {
    TrimKeepsVisibleEnds("Dodoma");
    TrimKeepsVisibleEnds("DODOMA");
    assert ToLower("Dodoma") == ToLower("DODOMA") by {
      assert forall i :: 0 <= i < 6 ==> LowerChar("Dodoma"[i]) == LowerChar("DODOMA"[i]);
    }
  }

  datatype ParentStep = KeepParent | SetParent | ParentIdNull

  /** A possibly null location reference with its id: None for null. */
  function IdOf(l: Location?): Option<Option<string>>
    reads if l == null then {} else {l}`locationId
  {
    if l == null then None else Some(l.locationId)
  }

  /** The uuid sent as the new parent: null for a null parent. */
  function ParentUuid(l: Location?): Option<string>
    reads l
  {
    if l == null then None else l.locationId
  }

  /**
   * The reparent test of the upsert, on the existing parent and the supplied one:
   * nothing for a null supplied parent; a reparent when the existing parent is
   * missing or its id differs (`equals`, case-sensitive); a NullPointerException
   * when the existing parent has no id.
   */
  function ParentDecision(current: Option<Option<string>>, supplied: Option<Option<string>>): (d: ParentStep)
    ensures supplied.None? ==> d == KeepParent
    ensures d == SetParent <==> supplied.Some? && (current.None? || (current.value.Some? && current.value != supplied.value))
    ensures d == ParentIdNull <==> supplied.Some? && current == Some(None)
  {
    if supplied.None? then KeepParent
    else if current.None? then SetParent
    else if current.value.None? then ParentIdNull
    else if current.value == supplied.value then KeepParent
    else SetParent
  }

  /** Once the supplied parent is stored, the same parent needs no reparent (it throws if that parent has no id). */
  lemma ReparentSettles(supplied: Option<string>)
    ensures ParentDecision(Some(supplied), Some(supplied)) == (if supplied.None? then ParentIdNull else KeepParent)
  {
  }

  /** The fields of a location built from a create answer. */
  ghost predicate BuiltFrom(l: Location, reply: CreateReply, tags: set<string>, attributes: map<string, string>, parent: Location?)
    reads l
  {
    && l.locationId == Some(reply.uuid) && l.name == Some(reply.name)
    && l.tags == tags && l.attributes == attributes && l.parentLocation == parent
  }

  /** The retire or unretire request for a facility, if any: none without a facility location or an operating status. */
  function LifecycleCalls(status: Option<string>, facility: Option<Option<string>>): seq<RemoteCall>
  {
    if facility.None? || status.None? then []
    else if !EqualsIgnoreCase(Trim(status.value), "Operating") then [RetireLocation(facility.value, "Operating status: " + Trim(status.value))]
    else [UnretireLocation(facility.value)]
  }

  /**
   * At most one request: none exactly when there is no facility location or no
   * status; an unretire of the facility's id exactly when the trimmed status is
   * "Operating" in any case, otherwise a retire with the trimmed status as reason.
   */
  lemma LifecycleCallsSpec(status: Option<string>, facility: Option<Option<string>>)
    ensures var log := LifecycleCalls(status, facility);
      && |log| <= 1
      && (log != [] <==> facility.Some? && status.Some?)
      && (log != [] ==> (log[0].UnretireLocation? <==> EqualsIgnoreCase(Trim(status.value), "Operating")))
      && (log != [] && log[0].RetireLocation? ==> log[0] == RetireLocation(facility.value, "Operating status: " + Trim(status.value)))
      && (log != [] && log[0].UnretireLocation? ==> log[0] == UnretireLocation(facility.value))
  {
  }

  /** The response of a pipeline that threw. */
  function FailureResponse(message: string): SyncResponse
  {
    SyncResponse("error", "Failed to sync facility: " + message)
  }

  /** The response of a pipeline that ran to the end. */
  function ProcessedResponse(p: HfrFacilityPayload, facilityFound: bool): (r: SyncResponse)
    ensures r.status == "success" <==> facilityFound
    ensures r.status == "warning" <==> !facilityFound
  {
    SyncResponse(if facilityFound then "success" else "warning",
                 "Processed facility " + Str(p.name) + " (" + Str(p.facIdNumber) + ")")
  }

  /** The outcome of each attempt of each request of one facility's pipeline, level by level. */
  datatype SyncOracles = SyncOracles(region: UpsertOracle, district: UpsertOracle, council: UpsertOracle,
                                     ward: UpsertOracle, facility: UpsertOracle, village: UpsertOracle)

  /** The oracles of the `i`th record of a batch; a record beyond the given ones sees every request fail. */
  function SyncOraclesAt(oracles: seq<SyncOracles>, i: nat): SyncOracles
  {
    if i < |oracles| then oracles[i]
    else SyncOracles(NoAnswers, NoAnswers, NoAnswers, NoAnswers, NoAnswers, NoAnswers)
  }

  /**
   * What every upsert guarantees whatever the caches hold: a missing or empty
   * code is skipped with no location, and only an upsert with a parent can
   * throw (the existing location's parent has no id).
   */
  ghost predicate StepFacts(r: Upsert, parent: Location?, code: Option<string>)
  {
    && (code.None? || code.value == [] ==> r == Returned(null))
    && (r.NullPointer? ==> parent != null)
  }

  /** The last element of a non-empty sequence. */
  function Last<T>(s: seq<T>): T
    requires s != []
  {
    s[|s| - 1]
  }

  /** Cutting `x + y` inside `y` leaves `x` whole before the cut. */
  lemma CutAppend<T>(x: seq<T>, y: seq<T>, k: nat)
    requires k <= |y|
    ensures (x + y)[..|x| + k] == x + y[..k] && (x + y)[|x| + k..] == y[k..]
  {
  }

  /** What one level of a pipeline upserts: the name, the code and the tag. */
  datatype Level = Level(name: Option<string>, code: Option<string>, tag: string)

  /**
   * An entry of the service's trace: an upsert, with its parent, its level, its
   * outcome, the id of the location it returned (None for none), the requests
   * it sent and the code index before and after it; or the retire/unretire
   * step of a facility location, with the id it read (None for no location)
   * and the requests it sent.
   */
  datatype Event =
    | Upserted(parent: Location?, level: Level, result: Upsert, id: Option<Option<string>>, sent: seq<RemoteCall>,
               before: map<string, Location>, after: map<string, Location>)
    | Lifecycle(facility: Location?, facilityId: Option<Option<string>>, sent: seq<RemoteCall>)

  /** The requests a run of events sent, in order. */
  function Sent(events: seq<Event>): seq<RemoteCall>
  {
    if events == [] then [] else Sent(events[..|events| - 1]) + Last(events).sent
  }

  lemma {:induction false} SentAppend(x: seq<Event>, y: seq<Event>)
    ensures Sent(x + y) == Sent(x) + Sent(y)
    decreases |y|
  {
    if y == [] {
      assert x + y == x;
    } else {
      assert (x + y)[..|x + y| - 1] == x + y[..|y| - 1];
      assert Last(x + y) == Last(y);
      SentAppend(x, y[..|y| - 1]);
    }
  }

  /** A one-event run sent that event's requests. */
  lemma SentOne(e: Event)
    ensures Sent([e]) == e.sent
  {
    assert [e][..0] == [];
  }

  /** A log that extends another is that log followed by what was added. */
  lemma Extends(before: seq<RemoteCall>, after: seq<RemoteCall>)
    requires before <= after
    ensures after == before + after[|before|..]
  {
  }

  /** What a log gained is what follows its old length. */
  lemma LogGained(before: seq<RemoteCall>, after: seq<RemoteCall>, log: seq<RemoteCall>)
    requires after == before + log
    ensures before <= after && after[|before|..] == log
  {
  }

  /** Renames and reparents appended to a log are what follows its old length. */
  lemma Adjusted(before: seq<RemoteCall>, after: seq<RemoteCall>, name: Option<string>)
    requires before <= after && forall i :: |before| <= i < |after| ==> Adjusts(after[i], name)
    ensures forall i :: 0 <= i < |after[|before|..]| ==> Adjusts(after[|before|..][i], name)
  {
  }

  /** A trace and a request log that gained `x` and then `y` gained `x + y`. */
  lemma Steps(t0: seq<Event>, c0: seq<RemoteCall>, x: seq<Event>, y: seq<Event>)
    ensures t0 + x + y == t0 + (x + y)
    ensures c0 + Sent(x) + Sent(y) == c0 + Sent(x + y)
  {
    SentAppend(x, y);
  }

  /** The runs of a batch, one after the other. */
  function Flatten(runs: seq<seq<Event>>): seq<Event>
  {
    if runs == [] then [] else Flatten(runs[..|runs| - 1]) + Last(runs)
  }

  /** The location an upsert returned; null for an upsert that threw and for a lifecycle step. */
  function LocOf(e: Event): Location?
  {
    if e.Upserted? && e.result.Returned? then e.result.loc else null
  }

  /**
   * A whole facility run whose retire or unretire step read the id that the
   * location returned by its Facility upsert holds.
   */
  ghost predicate IdTied(events: seq<Event>)
    reads if |events| == 7 && LocOf(events[4]) != null then {LocOf(events[4])} else {}`locationId
  {
    |events| == 7 ==> events[5].Lifecycle? && events[5].facilityId == IdOf(LocOf(events[4]))
  }

  /** The id of the location an upsert returned, as the upsert left it: None for none. */
  function ReadId(e: Event): Option<Option<string>>
  {
    if e.Upserted? then e.id else None
  }

  /** An upsert that threw. */
  predicate Threw(e: Event)
  {
    e.Upserted? && e.result.NullPointer?
  }

  /** An upsert of `level` under `parent`, with what every upsert guarantees. */
  ghost predicate UpsertOf(e: Event, parent: Location?, level: Level)
  {
    e.Upserted? && e.parent == parent && e.level == level && StepFacts(e.result, parent, level.code)
  }

  /** The entry of a code index for a code, looked up by the lower-cased code as `findLocationByCode` does. */
  function Lookup(codes: map<string, Location>, code: Option<string>): Location?
  {
    if code.Some? && ToLower(code.value) in codes then codes[ToLower(code.value)] else null
  }

  /** The index `after` keeps every entry of `before`: the code index only grows. */
  ghost predicate Keeps(before: map<string, Location>, after: map<string, Location>)
  {
    forall k :: k in before ==> k in after && after[k] == before[k]
  }

  /**
   * The result of an upsert as the code index bounds it, from an index `before`
   * it to an index `after` it: a non-empty code indexed before gives that
   * location unless the parent comparison throws; a returned location is what its code finds
   * after; and only an upsert of an indexed code can throw.
   */
  ghost predicate Bound(e: Event, before: map<string, Location>, after: map<string, Location>)
  {
    e.Upserted? ==>
      && (e.level.code != Some([]) && Lookup(before, e.level.code) != null ==> e.result in {Returned(Lookup(before, e.level.code)), NullPointer})
      && (LocOf(e) != null ==> Lookup(after, e.level.code) == LocOf(e))
      && (Threw(e) ==> Lookup(after, e.level.code) != null)
  }

  /** A request an upsert of an indexed code may send: the rename to the trimmed level name, or a reparent. */
  predicate Adjusts(call: RemoteCall, name: Option<string>)
  {
    (call.UpdateName? && call.newName == TrimmedOrEmpty(name)) || call.UpdateParent?
  }

  /** A create request for a level: its name, its tag as the only tag, and its code as the only attribute value. */
  predicate Creates(call: RemoteCall, level: Level)
  {
    && call.CreateLocation? && call.name == level.name && call.tags == {level.tag}
    && level.code.Some? && call.attributes.Values == {level.code.value}
  }

  /**
   * The requests of an upsert, as the code index before it bounds them: none
   * for a missing or empty code; for an indexed code, only renames to the
   * trimmed level name and reparents, at most five of each; for a code not
   * indexed, none when the location would be created without a parent and is
   * no Region, and otherwise one to five create requests for the level.
   */
  ghost predicate Requests(e: Event)
    requires e.Upserted?
  {
    RequestsOf(e.sent, e.parent, e.level, e.before)
  }

  /** The requests `sent` by an upsert of `level` under `parent` from the code index `before`, as `Requests` bounds them. */
  ghost predicate RequestsOf(sent: seq<RemoteCall>, parent: Location?, level: Level, before: map<string, Location>)
  {
    var code := level.code;
    if code.None? || code.value == [] then sent == []
    else if Lookup(before, code) != null then
      |sent| <= 2 * MaxAttempts && forall i :: 0 <= i < |sent| ==> Adjusts(sent[i], level.name)
    else if parent == null && !EqualsIgnoreCase("Region", level.tag) then sent == []
    else 1 <= |sent| <= MaxAttempts && forall i :: 0 <= i < |sent| ==> Creates(sent[i], level)
  }

  /**
   * An upsert only adds to the code index, its result is bound by the index
   * before and after it, and its requests by the index before it.
   */
  ghost predicate IndexStep(e: Event)
    requires e.Upserted?
  {
    Keeps(e.before, e.after) && Bound(e, e.before, e.after) && Requests(e) && ThrowsIndexed(e)
  }

  /** An upsert that threw from an empty code index, as a create would, is no index step. */
  lemma CreateNeverThrows(e: Event)
    requires e.Upserted? && e.before == map[] && Threw(e)
    ensures !IndexStep(e)
  {
  }

  /** Only an upsert of a code indexed before it can throw: the create branch never does. */
  ghost predicate ThrowsIndexed(e: Event)
    requires e.Upserted?
  {
    Threw(e) ==> Lookup(e.before, e.level.code) != null
  }

  /**
   * The upserts of a run took the code index from `before` to `after` one after
   * the other: each started from the index the previous one left, or from
   * `before` for the first, and each is an index step; the lifecycle step
   * leaves the index alone.
   */
  ghost predicate Linked(events: seq<Event>, before: map<string, Location>, after: map<string, Location>)
    decreases |events|
  {
    if events == [] then before == after
    else if events[0].Lifecycle? then Linked(events[1..], before, after)
    else events[0].before == before && IndexStep(events[0]) && Linked(events[1..], events[0].after, after)
  }

  /** Two linked runs, the second from where the first ended, make one linked run. */
  lemma {:induction false} LinkedJoin(x: seq<Event>, y: seq<Event>, c0: map<string, Location>, c1: map<string, Location>, c2: map<string, Location>)
    requires Linked(x, c0, c1) && Linked(y, c1, c2)
    ensures Linked(x + y, c0, c2)
    decreases |x|
  {
    if x == [] {
      assert x + y == y;
    } else {
      assert (x + y)[0] == x[0] && (x + y)[1..] == x[1..] + y;
      if x[0].Lifecycle? {
        LinkedJoin(x[1..], y, c0, c1, c2);
      } else {
        LinkedJoin(x[1..], y, x[0].after, c1, c2);
      }
    }
  }

  /** An upsert that is an index step is alone a linked run from the index before it to the index after it. */
  lemma LinkedOne(e: Event, before: map<string, Location>, after: map<string, Location>)
    requires e.Upserted? && e.before == before && e.after == after && IndexStep(e)
    ensures Linked([e], before, after)
  {
    assert [e][1..] == [];
  }

  /** The lifecycle step alone is a linked run that leaves the index as it was. */
  lemma LinkedLifecycle(e: Event, codes: map<string, Location>)
    requires e.Lifecycle?
    ensures Linked([e], codes, codes)
  {
    assert [e][1..] == [];
  }

  /** Every upsert of a run is bound by the code index before and after the run. */
  ghost predicate AllBound(events: seq<Event>, before: map<string, Location>, after: map<string, Location>)
  {
    forall i :: 0 <= i < |events| ==> Bound(events[i], before, after)
  }

  /** An index that keeps every entry of one that keeps every entry of a first keeps every entry of the first. */
  lemma KeepsTrans(a: map<string, Location>, b: map<string, Location>, c: map<string, Location>)
    requires Keeps(a, b) && Keeps(b, c)
    ensures Keeps(a, c)
  {
  }

  /** A bound stays a bound for an earlier index before and a later one after, as the index only grows. */
  lemma BoundWiden(e: Event, b0: map<string, Location>, b: map<string, Location>, a: map<string, Location>, a1: map<string, Location>)
    requires Keeps(b0, b) && Keeps(a, a1) && Bound(e, b, a)
    ensures Bound(e, b0, a1)
  {
    if e.Upserted? {
      var code := e.level.code;
      if Lookup(b0, code) != null {
        assert ToLower(code.value) in b;
      }
      if Lookup(a, code) != null {
        assert ToLower(code.value) in a1;
      }
    }
  }

  /**
   * A linked run only adds to the code index, and each of its upserts is bound
   * by the index at the start and at the end of the run: an upsert of a code
   * indexed at the start gives that location or throws, a returned location is
   * what its code finds at the end, and a throw needs a code indexed at the end.
   */
  lemma {:induction false} LinkedBound(events: seq<Event>, before: map<string, Location>, after: map<string, Location>)
    requires Linked(events, before, after)
    ensures Keeps(before, after) && AllBound(events, before, after)
    decreases |events|
  {
    if events != [] {
      var e := events[0];
      var mid := if e.Lifecycle? then before else e.after;
      LinkedBound(events[1..], mid, after);
      if e.Upserted? {
        KeepsTrans(before, mid, after);
        BoundWiden(e, before, before, mid, after);
      }
      forall i | 0 < i < |events|
        ensures Bound(events[i], before, after)
      {
        assert events[i] == events[1..][i - 1];
        BoundWiden(events[i], before, mid, after, after);
      }
    }
  }

  /**
   * The location an upsert found indexed under its non-empty code, as a set:
   * the only existing location whose name or parent it may change.
   */
  function Reached(e: Event): set<Location>
  {
    if e.Upserted? then Reach(e.before, e.level.code) else {}
  }

  /** The location indexed in `codes` under a non-empty code, as a set. */
  function Reach(codes: map<string, Location>, code: Option<string>): set<Location>
  {
    if code != Some([]) && Lookup(codes, code) != null then {Lookup(codes, code)} else {}
  }

  /** The locations the upserts of a run found indexed under their codes. */
  function Touched(events: seq<Event>): set<Location>
    decreases |events|
  {
    if events == [] then {} else Reached(events[0]) + Touched(events[1..])
  }

  /** The locations a joined run found are those its two parts found. */
  lemma {:induction false} TouchedJoin(x: seq<Event>, y: seq<Event>)
    ensures Touched(x + y) == Touched(x) + Touched(y)
    decreases |x|
  {
    if x == [] {
      assert x + y == y;
    } else {
      assert (x + y)[0] == x[0] && (x + y)[1..] == x[1..] + y;
      TouchedJoin(x[1..], y);
    }
  }

  /** A single event finds what it reached. */
  lemma TouchedOne(e: Event)
    ensures Touched([e]) == Reached(e)
  {
    assert [e][1..] == [];
  }

  /**
   * Every upsert of a linked run sent only the requests its index step allows,
   * and threw only if its code was indexed just before it.
   */
  lemma {:induction false} LinkedRequests(events: seq<Event>, before: map<string, Location>, after: map<string, Location>)
    requires Linked(events, before, after)
    ensures forall i :: 0 <= i < |events| && events[i].Upserted? ==> Requests(events[i]) && ThrowsIndexed(events[i])
    decreases |events|
  {
    if events != [] {
      var mid := if events[0].Lifecycle? then before else events[0].after;
      LinkedRequests(events[1..], mid, after);
      forall i | 0 < i < |events| && events[i].Upserted?
        ensures Requests(events[i]) && ThrowsIndexed(events[i])
      {
        assert events[i] == events[1..][i - 1];
      }
    }
  }

  /**
   * A run of upserts down a chain of levels: the first of `levels[0]` under
   * `parent`, each later one of the next level under the location the one
   * before returned; the run ends before the last level only at an upsert
   * that threw.
   */
  ghost predicate Chain(parent: Location?, levels: seq<Level>, events: seq<Event>)
    decreases |events|
  {
    && 1 <= |events| <= |levels|
    && UpsertOf(events[0], parent, levels[0])
    && if |events| == 1 then (1 < |levels| ==> Threw(events[0]))
       else !Threw(events[0]) && Chain(LocOf(events[0]), levels[1..], events[1..])
  }

  /** Every upsert of a run is of the level at its position, and a run that stops early ends at an upsert that threw. */
  lemma {:induction false} ChainAt(parent: Location?, levels: seq<Level>, events: seq<Event>, i: nat)
    requires Chain(parent, levels, events) && i < |events|
    ensures events[i].Upserted? && events[i].level == levels[i]
    ensures i + 1 < |events| ==> !Threw(events[i]) && events[i + 1].Upserted? && events[i + 1].parent == LocOf(events[i])
    ensures |events| < |levels| ==> Threw(Last(events))
    decreases |events|
  {
    if 1 < |events| {
      assert Last(events[1..]) == Last(events);
      if 0 < i {
        ChainAt(LocOf(events[0]), levels[1..], events[1..], i - 1);
      } else {
        ChainAt(LocOf(events[0]), levels[1..], events[1..], 0);
      }
    }
  }

  /** A complete run over `a` that did not throw, followed by a run over `b` under its last location, is a run over `a + b`. */
  lemma {:induction false} ChainJoin(parent: Location?, a: seq<Level>, b: seq<Level>, x: seq<Event>, y: seq<Event>)
    requires Chain(parent, a, x) && |x| == |a| && !Threw(Last(x))
    requires Chain(LocOf(Last(x)), b, y)
    ensures Chain(parent, a + b, x + y)
    decreases |x|
  {
    assert (x + y)[0] == x[0] && (a + b)[0] == a[0];
    if |x| == 1 {
      assert (a + b)[1..] == b && (x + y)[1..] == y;
    } else {
      ChainJoin(LocOf(x[0]), a[1..], b, x[1..], y);
      assert Last(x[1..]) == Last(x);
      assert (a + b)[1..] == a[1..] + b && (x + y)[1..] == x[1..] + y;
    }
  }

  /** A run that threw stays a run when more levels follow. */
  lemma {:induction false} ChainStops(parent: Location?, a: seq<Level>, b: seq<Level>, x: seq<Event>)
    requires Chain(parent, a, x) && Threw(Last(x))
    ensures Chain(parent, a + b, x)
    decreases |x|
  {
    assert (a + b)[0] == a[0];
    if 1 < |x| {
      ChainStops(LocOf(x[0]), a[1..], b, x[1..]);
      assert Last(x[1..]) == Last(x);
      assert (a + b)[1..] == a[1..] + b;
    }
  }

  /** One upsert of the first level is a run: of that level alone, or of more levels when it threw. */
  lemma ChainOne(parent: Location?, levels: seq<Level>, e: Event)
    requires 1 <= |levels| && UpsertOf(e, parent, levels[0]) && (1 < |levels| ==> Threw(e))
    ensures Chain(parent, levels, [e])
  {
  }

  /** Two upserts of the first two levels, the second under what the first returned, are a run. */
  lemma ChainTwo(parent: Location?, levels: seq<Level>, e1: Event, e2: Event)
    requires 2 <= |levels| && UpsertOf(e1, parent, levels[0]) && !Threw(e1)
    requires UpsertOf(e2, LocOf(e1), levels[1]) && (2 < |levels| ==> Threw(e2))
    ensures Chain(parent, levels, [e1] + [e2]) && Last([e1] + [e2]) == e2
  {
    assert [e1] + [e2] == [e1, e2] && [e1, e2][1..] == [e2];
  }

  // -------------------------------------------------------------------
  // The facility pipeline's plan

  /**
   * What `syncFacility` does with one payload, fixed before any request: the
   * levels it upserts in turn (Region, District, Council, Ward, Facility), the
   * Village level, the operating status that decides the retire or unretire
   * request, and the responses of a run that ends with and without a facility
   * location.
   */
  datatype Plan = Plan(levels: seq<Level>, village: Level, status: Option<string>, found: SyncResponse, missing: SyncResponse)

  /** The plan of a payload: names normalised, the Ward under its resolved code, the Facility under its HFR id. */
  function FacilityPlan(p: HfrFacilityPayload): (plan: Plan)
    ensures |plan.levels| == 5
  {
    Plan([Level(Capitalized(p.region), p.regionCode, "Region"),
          Level(Capitalized(p.district), p.districtCode, "District"),
          Level(Capitalized(p.council), p.councilCode, "Council"),
          Level(BuildWardName(p), ResolveWardCode(p), "Ward"),
          Level(BuildFacilityName(p), p.facIdNumber, "Facility")],
         Level(BuildVillageName(p), p.villageCode, "Village"),
         p.operatingStatus, ProcessedResponse(p, true), ProcessedResponse(p, false))
  }

  /**
   * After the Facility upsert: the lifecycle step on the facility location,
   * which read the id `facilityId` (None exactly when there is no facility
   * location) and sent the retire or unretire request the status calls for
   * under it, then the Village upserted under the Ward.
   */
  ghost predicate Tail(plan: Plan, ward: Location?, facility: Location?, facilityId: Option<Option<string>>, t: seq<Event>)
  {
    && |t| == 2 && t[0].Lifecycle? && t[0].facility == facility && t[0].facilityId == facilityId
    && (facility == null <==> facilityId.None?)
    && t[0].sent == LifecycleCalls(plan.status, t[0].facilityId)
    && UpsertOf(t[1], ward, plan.village)
  }

  /**
   * The events of a run of `syncFacility`: Region without a parent, then
   * District, Council, Ward and Facility each under the location the level
   * before returned; a run that threw ends at the upsert that threw, and when
   * the Facility upsert returned, the lifecycle step on its location and the
   * Village under the Ward's location follow.
   */
  ghost predicate Run(plan: Plan, events: seq<Event>)
  {
    && |plan.levels| == 5
    && if |events| <= 5 then Chain(null, plan.levels, events) && Threw(Last(events))
       else
         && |events| == 7 && Chain(null, plan.levels, events[..5]) && !Threw(events[4])
         && Tail(plan, LocOf(events[3]), LocOf(events[4]), ReadId(events[4]), events[5..])
  }

  /** The Ward-onwards part of a run under the Council's location. */
  ghost predicate LowerRun(plan: Plan, council: Location?, events: seq<Event>)
  {
    && |plan.levels| == 5
    && if |events| <= 2 then Chain(council, plan.levels[3..], events) && Threw(Last(events))
       else
         && |events| == 4 && Chain(council, plan.levels[3..], events[..2]) && !Threw(events[1])
         && Tail(plan, LocOf(events[0]), LocOf(events[1]), ReadId(events[1]), events[2..])
  }

  /**
   * The response to a run whose Facility upsert is event `facility`: an error
   * when the last upsert threw; otherwise the run went on to the lifecycle step
   * and the Village, and it is answered with success exactly when the Facility
   * upsert returned a location.
   */
  ghost predicate Answered(plan: Plan, events: seq<Event>, facility: nat, response: SyncResponse)
  {
    && events != []
    && (Threw(Last(events)) ==> response == FailureResponse(NullPointerMessage))
    && (!Threw(Last(events)) ==>
          |events| == facility + 3 && response == if LocOf(events[facility]) != null then plan.found else plan.missing)
  }

  /** A run of `syncFacility` with its response. */
  ghost predicate Outcome(plan: Plan, events: seq<Event>, response: SyncResponse)
  {
    Run(plan, events) && Answered(plan, events, 4, response)
  }

  /** The Ward-onwards part of a run with its response. */
  ghost predicate LowerOutcome(plan: Plan, council: Location?, events: seq<Event>, response: SyncResponse)
  {
    LowerRun(plan, council, events) && Answered(plan, events, 1, response)
  }

  /** A first upsert that did not throw, followed by a run over the next two levels under its location, is a run over the first three. */
  lemma UpperJoin(levels: seq<Level>, e: Event, rest: seq<Event>)
    requires 3 <= |levels| && UpsertOf(e, null, levels[0]) && !Threw(e)
    requires Chain(LocOf(e), levels[1..3], rest)
    ensures Chain(null, levels[..3], [e] + rest) && Last([e] + rest) == Last(rest) && ([e] + rest)[0] == e
  {
    assert ([e] + rest)[1..] == rest && levels[..3][1..] == levels[1..3];
  }

  /** A run that threw at Region, District or Council is a whole run, answered with an error. */
  lemma UpperThrew(plan: Plan, upper: seq<Event>)
    requires |plan.levels| == 5 && Chain(null, plan.levels[..3], upper) && Threw(Last(upper))
    ensures Outcome(plan, upper, FailureResponse(NullPointerMessage))
  {
    ChainStops(null, plan.levels[..3], plan.levels[3..], upper);
    assert plan.levels[..3] + plan.levels[3..] == plan.levels;
  }

  /** A run that reached the Ward joins its two parts into a whole run with the lower part's response. */
  lemma RunJoin(plan: Plan, upper: seq<Event>, lower: seq<Event>, response: SyncResponse)
    requires |plan.levels| == 5 && Chain(null, plan.levels[..3], upper) && |upper| == 3 && !Threw(upper[2])
    requires LowerOutcome(plan, LocOf(upper[2]), lower, response)
    ensures Outcome(plan, upper + lower, response)
  {
    var levels := plan.levels;
    assert levels[..3] + levels[3..] == levels;
    assert Last(upper) == upper[2] && Last(upper + lower) == Last(lower);
    if |lower| <= 2 {
      ChainJoin(null, levels[..3], levels[3..], upper, lower);
    } else {
      ChainJoin(null, levels[..3], levels[3..], upper, lower[..2]);
      CutAppend(upper, lower, 2);
      assert (upper + lower)[3] == lower[0] && (upper + lower)[4] == lower[1];
    }
  }

  /**
   * The Facility-onwards part of a run under the Ward's location with its
   * response: an error when the Facility upsert threw; otherwise the lifecycle
   * step and the Village follow, and the response is an error when the Village
   * upsert threw and otherwise follows the Facility upsert.
   */
  ghost predicate FacilityOutcome(plan: Plan, ward: Location?, events: seq<Event>, response: SyncResponse)
  {
    && |plan.levels| == 5 && events != [] && UpsertOf(events[0], ward, plan.levels[4])
    && if Threw(events[0]) then |events| == 1 && response == FailureResponse(NullPointerMessage)
       else
         && |events| == 3 && Tail(plan, ward, LocOf(events[0]), ReadId(events[0]), events[1..])
         && response == if Threw(events[2]) then FailureResponse(NullPointerMessage)
                        else if LocOf(events[0]) != null then plan.found else plan.missing
  }

  /** A Ward upsert that threw ends the lower part, answered with an error. */
  lemma LowerThrew(plan: Plan, council: Location?, e: Event)
    requires |plan.levels| == 5 && UpsertOf(e, council, plan.levels[3]) && Threw(e)
    ensures LowerOutcome(plan, council, [e], FailureResponse(NullPointerMessage))
  {
  }

  /** A Ward upsert that did not throw, followed by the Facility-onwards part under its location, is the lower part of a run. */
  lemma LowerJoin(plan: Plan, council: Location?, e: Event, rest: seq<Event>, response: SyncResponse)
    requires |plan.levels| == 5 && UpsertOf(e, council, plan.levels[3]) && !Threw(e)
    requires FacilityOutcome(plan, LocOf(e), rest, response)
    ensures LowerOutcome(plan, council, [e] + rest, response)
  {
    var events := [e] + rest;
    assert events[0] == e && events[1] == rest[0] && events[1..] == rest;
    assert plan.levels[3..][1..] == plan.levels[4..];
    if Threw(rest[0]) {
      assert Chain(LocOf(e), plan.levels[4..], [rest[0]]);
      assert events == [e, rest[0]];
    } else {
      assert Chain(LocOf(e), plan.levels[4..], [rest[0]]);
      assert events[..2] == [e, rest[0]] && events[2..] == rest[1..];
    }
  }

  /** A Facility upsert that did not throw, followed by the lifecycle step and the Village, is the Facility-onwards part. */
  lemma FacilityJoin(plan: Plan, ward: Location?, e: Event, tail: seq<Event>, response: SyncResponse)
    requires |plan.levels| == 5 && UpsertOf(e, ward, plan.levels[4]) && !Threw(e)
    requires Tail(plan, ward, LocOf(e), ReadId(e), tail)
    requires response == if Threw(tail[1]) then FailureResponse(NullPointerMessage)
                         else if LocOf(e) != null then plan.found else plan.missing
    ensures FacilityOutcome(plan, ward, [e] + tail, response)
  {
    assert ([e] + tail)[0] == e && ([e] + tail)[1..] == tail && ([e] + tail)[2] == tail[1];
  }

  /** A trace and a request log that gained the runs of a batch and then one more run gained the runs of the longer batch. */
  lemma FlattenSnoc(t0: seq<Event>, c0: seq<RemoteCall>, runs: seq<seq<Event>>, x: seq<Event>)
    ensures Flatten(runs + [x]) == Flatten(runs) + x
    ensures t0 + Flatten(runs) + x == t0 + Flatten(runs + [x])
    ensures c0 + Sent(Flatten(runs)) + Sent(x) == c0 + Sent(Flatten(runs + [x]))
  {
    assert (runs + [x])[..|runs|] == runs;
    Steps(t0, c0, Flatten(runs), x);
  }

  /** `P` holds of each of `ys` and the element of `xs` at its position. */
  ghost predicate Pairwise<A, B>(P: (A, B) -> bool, xs: seq<A>, ys: seq<B>)
  {
    |ys| <= |xs| && forall j :: 0 <= j < |ys| ==> P(xs[j], ys[j])
  }

  /** Extending `ys` by an element that relates to the next element of `xs` keeps them pairwise related. */
  lemma PairwiseSnoc<A, B>(P: (A, B) -> bool, xs: seq<A>, ys: seq<B>, y: B)
    requires Pairwise(P, xs, ys) && |ys| < |xs| && P(xs[|ys|], y)
    ensures Pairwise(P, xs, ys + [y])
  {
    forall j | 0 <= j < |ys + [y]|
      ensures P(xs[j], (ys + [y])[j])
    {
      if j < |ys| {
        assert (ys + [y])[j] == ys[j];
      }
    }
  }

  /** The run of one record of the facility feed: none when it did not map, a whole run when it did. */
  ghost predicate RecordRun(record: Option<HfrFacilityPayload>, events: seq<Event>)
  {
    (record.None? ==> events == []) && (record.Some? ==> exists response :: Outcome(FacilityPlan(record.value), events, response))
  }

  /** A whole run of a record's payload, with any response, is the run of that record. */
  lemma MappedRun(p: HfrFacilityPayload, events: seq<Event>, response: SyncResponse)
    requires Outcome(FacilityPlan(p), events, response)
    ensures RecordRun(Some(p), events)
  {
  }

  /** The runs of the first `|runs|` facility records, one per record. */
  ghost predicate FacilityRuns(records: seq<Option<HfrFacilityPayload>>, runs: seq<seq<Event>>)
  {
    Pairwise(RecordRun, records, runs)
  }

  // -------------------------------------------------------------------
  // The admin hierarchy feed's levels

  /** The levels of one admin hierarchy record: Country "TZ", Zone, Region, then Ward and Village. */
  function AdminLevels(a: AdminRecord): (levels: seq<Level>)
    ensures |levels| == 5 && levels[0].code == Some("TZ") && levels[0].tag == "Country"
  {
    [Level(Capitalized(Some(a.country)), Some("TZ"), "Country"),
     Level(Capitalized(Some(a.zone)), Some(a.zoneCode), "Zone"),
     Level(Capitalized(Some(a.region)), Some(a.regionCode), "Region"),
     Level(AdminWardName(a), Some(a.wardCode), "Ward"),
     Level(AdminVillageName(a), Some(a.villageMtaaCode), "Village")]
  }

  /** The outcome of each attempt of each request of one admin hierarchy record, level by level. */
  datatype AdminOracles = AdminOracles(country: UpsertOracle, zone: UpsertOracle, region: UpsertOracle,
                                       ward: UpsertOracle, village: UpsertOracle)

  function AdminOraclesAt(oracles: seq<AdminOracles>, i: nat): AdminOracles
  {
    if i < |oracles| then oracles[i] else AdminOracles(NoAnswers, NoAnswers, NoAnswers, NoAnswers, NoAnswers)
  }

  /** A record's run that threw at Country, Zone or Region is a run over all its levels. */
  lemma AdminStops(levels: seq<Level>, upper: seq<Event>)
    requires |levels| == 5 && Chain(null, levels[..3], upper) && Threw(Last(upper))
    ensures Chain(null, levels, upper)
  {
    ChainStops(null, levels[..3], levels[3..], upper);
    assert levels[..3] + levels[3..] == levels;
  }

  /** A record's run that reached the Ward joins its two parts: the Ward directly under the Region, the Village under the Ward. */
  lemma AdminJoin(levels: seq<Level>, upper: seq<Event>, lower: seq<Event>)
    requires |levels| == 5 && Chain(null, levels[..3], upper) && |upper| == 3 && !Threw(upper[2])
    requires Chain(LocOf(upper[2]), levels[3..], lower)
    ensures Chain(null, levels, upper + lower) && (upper + lower)[0] == upper[0]
  {
    assert Last(upper) == upper[2];
    ChainJoin(null, levels[..3], levels[3..], upper, lower);
    assert levels[..3] + levels[3..] == levels;
  }

  /** A run of one admin hierarchy record: Country, Zone, Region, Ward and Village, each under the location the one before returned. */
  ghost predicate AdminRun(a: AdminRecord, events: seq<Event>)
  {
    Chain(null, AdminLevels(a), events)
  }

  /** The runs of the first `|runs|` admin hierarchy records, each a run over its record's levels. */
  ghost predicate AdminRuns(records: seq<AdminRecord>, runs: seq<seq<Event>>)
  {
    Pairwise(AdminRun, records, runs)
  }

  class LocationSyncService {
    const openmrsBaseUrl: string
    const codeLocationAttributeUuid: string
    const hfrCodeLocationAttributeUuid: string

    var locationCache: map<string, Location>
    var codeCache: map<string, Location>
    var allLocations: seq<Location>
    /** Every request sent to OpenMRS, in order, one entry per attempt. */
    var calls: seq<RemoteCall>
    /** Every upsert and every retire/unretire step, in order, with the requests each sent. */
    ghost var trace: seq<Event>

    /** Both indices hold locations of the list, each under its own key. */
    ghost predicate Valid()
      reads this`allLocations, this`locationCache, this`codeCache, allLocations`locationId, allLocations`attributes
    {
      Indexed(ById, locationCache, allLocations) && Indexed(ByCode, codeCache, allLocations)
    }

    /** The constructor: configuration plus a first cache refresh from the given snapshot. */
    constructor (baseUrl: string, codeAttributeUuid: string, hfrCodeAttributeUuid: string, snapshot: seq<Location>)
      ensures Valid()
      ensures openmrsBaseUrl == baseUrl && codeLocationAttributeUuid == codeAttributeUuid
      ensures hfrCodeLocationAttributeUuid == hfrCodeAttributeUuid
      ensures allLocations == snapshot && calls == [] && trace == []
      ensures locationCache == old(Build(ById, snapshot)) && codeCache == old(Build(ByCode, snapshot))
    {
      openmrsBaseUrl := baseUrl;
      codeLocationAttributeUuid := codeAttributeUuid;
      hfrCodeLocationAttributeUuid := hfrCodeAttributeUuid;
      locationCache := map[];
      codeCache := map[];
      allLocations := [];
      calls := [];
      trace := [];
      new;
      RefreshLocationCache(snapshot);
    }

    /** The collection URL of the location resource. */
    function LocationsUrl(): string
    {
      Str(OpenmrsClient.StripEndingSlash(Some(openmrsBaseUrl))) + "/ws/rest/v1/location"
    }

    /** The URL of one location; a null id is printed as "null". */
    function LocationUrl(id: Option<string>): string
    {
      LocationsUrl() + "/" + Str(id)
    }

    // -------------------------------------------------------------------
    // The indices

    /** `addToCaches`: file the location under its id and its code, when it has them. */
    method AddToCaches(location: Location?)
      modifies this`locationCache, this`codeCache
      ensures location == null ==> locationCache == old(locationCache) && codeCache == old(codeCache)
      ensures location != null ==> locationCache == Put(ById, old(locationCache), location)
      ensures location != null ==> codeCache == Put(ByCode, old(codeCache), location)
    {
      if location == null || location.locationId.None? {
        return;
      }
      locationCache := locationCache[ToLower(location.locationId.value) := location];
      if CodeAttribute in location.attributes {
        codeCache := codeCache[ToLower(location.attributes[CodeAttribute]) := location];
      } else if HfrCodeAttribute in location.attributes {
        codeCache := codeCache[ToLower(location.attributes[HfrCodeAttribute]) := location];
      }
    }

    /** The loop of `refreshLocationCache`: both indices built by filing the locations in order. */
    static method FileAll(snapshot: seq<Location>) returns (ids: map<string, Location>, codes: map<string, Location>)
      ensures ids == Build(ById, snapshot) && codes == Build(ByCode, snapshot)
    {
      ids := map[];
      codes := map[];
      for i := 0 to |snapshot|
        invariant ids == Build(ById, snapshot[..i])
        invariant codes == Build(ByCode, snapshot[..i])
      {
        assert snapshot[..i + 1] == snapshot[..i] + [snapshot[i]];
        BuildSnoc(ById, snapshot[..i], snapshot[i]);
        BuildSnoc(ByCode, snapshot[..i], snapshot[i]);
        ids := Put(ById, ids, snapshot[i]);
        codes := Put(ByCode, codes, snapshot[i]);
      }
      assert snapshot[..|snapshot|] == snapshot;
    }

    /**
     * `refreshLocationCache`: replace the list and rebuild both indices from it,
     * filing the locations in order as `addToCaches` does.
     */
    method RefreshLocationCache(snapshot: seq<Location>)
      modifies this`allLocations, this`locationCache, this`codeCache
      ensures allLocations == snapshot
      ensures locationCache == old(Build(ById, snapshot)) && codeCache == old(Build(ByCode, snapshot))
      ensures Valid()
    {
      var ids, codes := FileAll(snapshot);
      allLocations, locationCache, codeCache := snapshot, ids, codes;
    }

    /** `findLocationByCode`: the code index, looked up by the lower-cased code. */
    function FindLocationByCode(code: Option<string>): (l: Location?)
      reads this`codeCache
      ensures l != null <==> code.Some? && ToLower(code.value) in codeCache
      ensures l != null ==> l == codeCache[ToLower(code.value)]
    {
      Lookup(codeCache, code)
    }

    /** `findLocationByUuid`: the id index, looked up by the lower-cased uuid. */
    function FindLocationByUuid(uuid: Option<string>): (l: Location?)
      reads this`locationCache
      ensures l != null <==> uuid.Some? && ToLower(uuid.value) in locationCache
      ensures l != null ==> l == locationCache[ToLower(uuid.value)]
    {
      if uuid.None? then null
      else if ToLower(uuid.value) in locationCache then locationCache[ToLower(uuid.value)]
      else null
    }

    /** A location found by code carries that code (ignoring case) under "Code", or under "HFR Code" when it has no "Code". */
    lemma FoundByCodeCarriesCode(code: string)
      requires Valid()
      ensures var l := FindLocationByCode(Some(code));
        l != null ==> l.locationId.Some? && Lowered(CodeOf(l.attributes)) == Some(ToLower(code))
    {
    }

    /** Two codes that differ ignoring case never find the same location. */
    lemma DistinctCodesDistinctLocations(c1: string, c2: string)
      requires Valid() && ToLower(c1) != ToLower(c2)
      ensures FindLocationByCode(Some(c1)) != null ==> FindLocationByCode(Some(c1)) != FindLocationByCode(Some(c2))
    {
    }

    /** Lookups by code ignore ASCII case. */
    lemma LookupIgnoresCase(a: string, b: string)
      requires EqualsIgnoreCase(a, b)
      ensures FindLocationByCode(Some(a)) == FindLocationByCode(Some(b))
      ensures FindLocationByUuid(Some(a)) == FindLocationByUuid(Some(b))
    {
    }

    // -------------------------------------------------------------------
    // The remote mutations

    /** The attribute map sent with a create: the code under the HFR-code type for a facility, else under the code type. */
    function RequestAttributes(tag: string, code: string): map<string, string>
    {
      if EqualsIgnoreCase("facility", tag) then map[hfrCodeLocationAttributeUuid := code]
      else map[codeLocationAttributeUuid := code]
    }

    /** The attributes the created location is given locally: the sent code renamed to "Code" or "HFR Code". */
    function StoredAttributes(attributes: map<string, string>): map<string, string>
    {
      if codeLocationAttributeUuid in attributes then map[CodeAttribute := attributes[codeLocationAttributeUuid]]
      else if hfrCodeLocationAttributeUuid in attributes then map[HfrCodeAttribute := attributes[hfrCodeLocationAttributeUuid]]
      else attributes
    }

    /** Whatever the tag, a created location is filed under the code it was created for. */
    lemma StoredCode(tag: string, code: string)
      ensures CodeOf(StoredAttributes(RequestAttributes(tag, code))) == Some(code)
    {
    }

    /** With distinct attribute types, a facility's code is stored as "HFR Code" and every other level's as "Code". */
    lemma StoredCodeAttribute(tag: string, code: string)
      requires codeLocationAttributeUuid != hfrCodeLocationAttributeUuid
      ensures StoredAttributes(RequestAttributes(tag, code)) ==
        (if EqualsIgnoreCase("facility", tag) then map[HfrCodeAttribute := code] else map[CodeAttribute := code])
    {
    }

    /** With one attribute type configured for both, the code check comes first and a facility's code is stored as "Code". */
    lemma SharedAttributeTypeStoresCode(tag: string, code: string)
      requires codeLocationAttributeUuid == hfrCodeLocationAttributeUuid
      ensures StoredAttributes(RequestAttributes(tag, code)) == map[CodeAttribute := code]
    {
    }

    /** `createNewLocation`: up to five POSTs; the first success yields a fresh location built from the answer. */
    method CreateNewLocation(name: Option<string>, parentUuid: Option<string>, tags: set<string>,
                             attributes: map<string, string>, outcomes: seq<bool>, reply: CreateReply)
      returns (newLocation: Location?)
      modifies this`calls
      ensures calls == old(calls) + Repeat(CreateLocation(LocationsUrl(), name, parentUuid, tags, attributes), AttemptsMade(outcomes))
      ensures newLocation != null <==> Succeeds(outcomes)
      ensures newLocation != null ==>
        fresh(newLocation) && BuiltFrom(newLocation, reply, tags, StoredAttributes(attributes), FindLocationByUuid(parentUuid))
    {
      var call := CreateLocation(LocationsUrl(), name, parentUuid, tags, attributes);
      for attempt := 1 to MaxAttempts + 1
        invariant calls == old(calls) + Repeat(call, attempt - 1)
        invariant forall m :: 1 <= m < attempt ==> !Attempt(outcomes, m)
      {
        calls := calls + [call];
        if Attempt(outcomes, attempt) {
          FirstSuccessAt(outcomes, attempt);
          newLocation := new Location.Empty();
          newLocation.locationId := Some(reply.uuid);
          newLocation.name := Some(reply.name);
          newLocation.attributes := StoredAttributes(attributes);
          newLocation.tags := tags;
          if parentUuid.Some? {
            newLocation.parentLocation := FindLocationByUuid(parentUuid);
          }
          return;
        }
      }
      AllAttemptsFail(outcomes);
      return null;
    }

    /** `updateChildLocationParent`: up to five POSTs; on success the child points to the new parent as cached. */
    method UpdateChildLocationParent(child: Location, newParentUuid: Option<string>, outcomes: seq<bool>)
      modifies this`calls, child`parentLocation
      ensures calls == old(calls) + Repeat(UpdateParent(LocationUrl(child.locationId), newParentUuid), AttemptsMade(outcomes))
      ensures child.parentLocation == (if Succeeds(outcomes) then FindLocationByUuid(newParentUuid) else old(child.parentLocation))
    {
      var call := UpdateParent(LocationUrl(child.locationId), newParentUuid);
      for attempt := 1 to MaxAttempts + 1
        invariant calls == old(calls) + Repeat(call, attempt - 1)
        invariant forall m :: 1 <= m < attempt ==> !Attempt(outcomes, m)
        invariant child.parentLocation == old(child.parentLocation)
      {
        calls := calls + [call];
        if Attempt(outcomes, attempt) {
          FirstSuccessAt(outcomes, attempt);
          child.parentLocation := FindLocationByUuid(newParentUuid);
          return;
        }
      }
      AllAttemptsFail(outcomes);
    }

    /** `updateLocationName`: up to five POSTs; 200 and the new name on success, -1 after five failures. */
    method UpdateLocationName(location: Location, newName: string, outcomes: seq<bool>) returns (responseCode: int)
      modifies this`calls, location`name
      ensures calls == old(calls) + Repeat(UpdateName(LocationUrl(location.locationId), newName), AttemptsMade(outcomes))
      ensures responseCode == (if Succeeds(outcomes) then 200 else -1)
      ensures location.name == (if Succeeds(outcomes) then Some(newName) else old(location.name))
    {
      var call := UpdateName(LocationUrl(location.locationId), newName);
      for attempt := 1 to MaxAttempts + 1
        invariant calls == old(calls) + Repeat(call, attempt - 1)
        invariant forall m :: 1 <= m < attempt ==> !Attempt(outcomes, m)
        invariant location.name == old(location.name)
      {
        calls := calls + [call];
        if Attempt(outcomes, attempt) {
          FirstSuccessAt(outcomes, attempt);
          location.name := Some(newName);
          return 200;
        }
      }
      AllAttemptsFail(outcomes);
      return -1;
    }

    // -------------------------------------------------------------------
    // The upsert

    /** The requests of a rename: one per attempt, when the rename test holds. */
    function RenameLog(id: Option<string>, current: Option<string>, name: Option<string>, outcomes: seq<bool>): seq<RemoteCall>
    {
      if NeedsRename(current, name) then Repeat(UpdateName(LocationUrl(id), TrimmedOrEmpty(name)), AttemptsMade(outcomes)) else []
    }

    /** The requests of a reparent: one per attempt, when the reparent test says so. */
    function ReparentLog(id: Option<string>, step: ParentStep, parentUuid: Option<string>, outcomes: seq<bool>): seq<RemoteCall>
    {
      if step == SetParent then Repeat(UpdateParent(LocationUrl(id), parentUuid), AttemptsMade(outcomes)) else []
    }

    /** The rename half of the branch for an indexed code: the desired name is stored whatever the remote outcome. */
    method RenameIfNeeded(existing: Location, name: Option<string>, outcomes: seq<bool>)
      modifies this`calls, existing`name
      ensures calls == old(calls) + RenameLog(existing.locationId, old(existing.name), name, outcomes)
      ensures existing.name == (if NeedsRename(old(existing.name), name) then Some(TrimmedOrEmpty(name)) else old(existing.name))
      ensures |calls| <= |old(calls)| + MaxAttempts && forall i :: |old(calls)| <= i < |calls| ==> Adjusts(calls[i], name)
    {
      var desiredName := TrimmedOrEmpty(name);
      var existingName := TrimmedOrEmpty(existing.name);
      if !EqualsIgnoreCase(existingName, desiredName) && desiredName != [] {
        var _ := UpdateLocationName(existing, desiredName, outcomes);
        existing.name := Some(desiredName);
      }
    }

    /**
     * The reparent half: a missing parent or one with another id is replaced by
     * the supplied parent whatever the remote outcome; an existing parent without
     * an id makes the comparison throw.
     */
    method ReparentIfNeeded(existing: Location, parentLocation: Location?, outcomes: seq<bool>) returns (r: Upsert)
      modifies this`calls, existing`parentLocation
      ensures var step := ParentDecision(old(IdOf(existing.parentLocation)), IdOf(parentLocation));
        && calls == old(calls) + ReparentLog(existing.locationId, step, ParentUuid(parentLocation), outcomes)
        && existing.parentLocation == (if step == SetParent then parentLocation else old(existing.parentLocation))
        && r == (if step == ParentIdNull then NullPointer else Returned(existing))
      ensures |calls| <= |old(calls)| + MaxAttempts && forall i :: |old(calls)| <= i < |calls| ==> calls[i].UpdateParent?
    {
      if existing.parentLocation == null && parentLocation != null {
        UpdateChildLocationParent(existing, parentLocation.locationId, outcomes);
        existing.parentLocation := parentLocation;
      } else if existing.parentLocation != null && parentLocation != null {
        if existing.parentLocation.locationId.None? {
          return NullPointer;
        }
        if existing.parentLocation.locationId != parentLocation.locationId {
          UpdateChildLocationParent(existing, parentLocation.locationId, outcomes);
          existing.parentLocation := parentLocation;
        }
      }
      return Returned(existing);
    }

    /** The location indexed under a code, as a frame: empty when there is none. */
    function Existing(code: Option<string>): set<Location>
      reads this`codeCache
    {
      if FindLocationByCode(code) == null then {} else {FindLocationByCode(code)}
    }

    /** The write-through after a create: the list gains the location and both indices file it. */
    method AppendAndCache(location: Location, ghost code: string)
      requires Valid() && KeyOf(ByCode, location) == Some(ToLower(code))
      modifies this`allLocations, this`locationCache, this`codeCache
      ensures Valid() && FindLocationByCode(Some(code)) == location
      ensures allLocations == old(allLocations) + [location]
      ensures locationCache == Put(ById, old(locationCache), location) && codeCache == Put(ByCode, old(codeCache), location)
    {
      PutIndexed(ById, locationCache, allLocations, location);
      PutIndexed(ByCode, codeCache, allLocations, location);
      allLocations := allLocations + [location];
      AddToCaches(location);
    }

    /** The list is unchanged, or it gained the returned location, which is new. */
    twostate predicate Grows(new r: Upsert)
      reads this`allLocations
    {
      allLocations == old(allLocations) || (r.Returned? && r.loc != null && fresh(r.loc) && allLocations == old(allLocations) + [r.loc])
    }

    /**
     * The outcome of the branch for an indexed code: the list and indices stay,
     * the rename and reparent requests are the ones their tests call for, the
     * desired name and parent are stored whatever the remote outcome, and the
     * comparison with a parent that has no id throws.
     */
    twostate predicate Reconciled(found: Location, parentLocation: Location?, name: Option<string>, oracle: UpsertOracle, new r: Upsert)
      reads this`allLocations, this`locationCache, this`codeCache, this`calls, found, parentLocation
    {
      var step := ParentDecision(old(IdOf(found.parentLocation)), IdOf(parentLocation));
      && allLocations == old(allLocations) && locationCache == old(locationCache) && codeCache == old(codeCache)
      && calls == old(calls) + RenameLog(found.locationId, old(found.name), name, oracle.rename)
                             + ReparentLog(found.locationId, step, ParentUuid(parentLocation), oracle.reparent)
      && found.name == (if NeedsRename(old(found.name), name) then Some(TrimmedOrEmpty(name)) else old(found.name))
      && found.parentLocation == (if step == SetParent then parentLocation else old(found.parentLocation))
      && r == (if step == ParentIdNull then NullPointer else Returned(found))
    }

    /**
     * The outcome of the create branch: one create request per attempt with the
     * single tag and the code under the level's attribute type; a location
     * exactly when an attempt succeeds, built from the answer and written
     * through to both indices.
     */
    twostate predicate Created(parentLocation: Location?, name: Option<string>, code: string, tag: string, oracle: UpsertOracle, new r: Upsert)
      reads this`allLocations, this`locationCache, this`codeCache, this`calls, parentLocation
      reads if r.Returned? && r.loc != null then {r.loc} else {}
    {
      && r.Returned? && (r.loc != null <==> Succeeds(oracle.create))
      && calls == old(calls) + Repeat(CreateLocation(LocationsUrl(), name, ParentUuid(parentLocation), {tag}, RequestAttributes(tag, code)),
                                      AttemptsMade(oracle.create))
      && (r.loc == null ==> allLocations == old(allLocations) && locationCache == old(locationCache) && codeCache == old(codeCache))
      && (r.loc != null ==>
            && BuiltFrom(r.loc, oracle.reply, {tag}, StoredAttributes(RequestAttributes(tag, code)), old(FindLocationByUuid(ParentUuid(parentLocation))))
            && locationCache == Put(ById, old(locationCache), r.loc) && codeCache == Put(ByCode, old(codeCache), r.loc))
    }

    /** The branch of `ensureLocationExists` for an indexed code: rename if needed, then reparent if needed. */
    method ReconcileExisting(existing: Location, parentLocation: Location?, name: Option<string>, code: Option<string>, oracle: UpsertOracle)
      returns (r: Upsert)
      requires Valid() && FindLocationByCode(code) == existing
      modifies this`calls, existing`name, existing`parentLocation
      ensures Valid() && Grows(r)
      ensures r.Returned? && r.loc != null ==> FindLocationByCode(code) == r.loc
      ensures Reconciled(existing, parentLocation, name, oracle, r)
      ensures old(calls) <= calls && |calls| <= |old(calls)| + 2 * MaxAttempts
      ensures forall i :: |old(calls)| <= i < |calls| ==> Adjusts(calls[i], name)
    {
      RenameIfNeeded(existing, name, oracle.rename);
      r := ReparentIfNeeded(existing, parentLocation, oracle.reparent);
    }

    /** The requests of the create branch: one to five creates for the level's name, tag and code. */
    lemma CreateLog(level: Level, parentUuid: Option<string>, creates: seq<bool>)
      requires level.code.Some?
      ensures var log := Repeat(CreateLocation(LocationsUrl(), level.name, parentUuid, {level.tag}, RequestAttributes(level.tag, level.code.value)),
                                AttemptsMade(creates));
        1 <= |log| <= MaxAttempts && forall i :: 0 <= i < |log| ==> Creates(log[i], level)
    {
      var key := if EqualsIgnoreCase("facility", level.tag) then hfrCodeLocationAttributeUuid else codeLocationAttributeUuid;
      var attributes := map[key := level.code.value];
      assert attributes[key] == level.code.value;
      assert RequestAttributes(level.tag, level.code.value) == attributes;
      assert attributes.Values == {level.code.value};
    }

    /** The branch of `ensureLocationExists` that creates, then writes the new location through. */
    method CreateAndCache(parentLocation: Location?, name: Option<string>, code: Option<string>, tag: string, oracle: UpsertOracle)
      returns (r: Upsert, ghost log: seq<RemoteCall>)
      requires Valid() && code.Some? && FindLocationByCode(code) == null
      modifies this`calls, this`allLocations, this`locationCache, this`codeCache
      ensures Valid() && Grows(r) && Keeps(old(codeCache), codeCache)
      ensures r.Returned? && r.loc != null ==> FindLocationByCode(code) == r.loc
      ensures Created(parentLocation, name, code.value, tag, oracle, r)
      ensures calls == old(calls) + log && 1 <= |log| <= MaxAttempts && forall i :: 0 <= i < |log| ==> Creates(log[i], Level(name, code, tag))
    {
      var attributes := RequestAttributes(tag, code.value);
      var tags := {tag};
      var parentUuid := ParentUuid(parentLocation);
      ghost var parent := FindLocationByUuid(parentUuid);
      log := Repeat(CreateLocation(LocationsUrl(), name, parentUuid, tags, attributes), AttemptsMade(oracle.create));
      CreateLog(Level(name, code, tag), parentUuid, oracle.create);
      var newLoc := CreateNewLocation(name, parentUuid, tags, attributes, oracle.create, oracle.reply);
      if newLoc != null {
        StoredCode(tag, code.value);
        AppendAndCache(newLoc, code.value);
        assert BuiltFrom(newLoc, oracle.reply, tags, StoredAttributes(attributes), parent);
      }
      r := Returned(newLoc);
    }

    /** The list, the indices and the request log are as they were. */
    twostate predicate Untouched()
      reads this`allLocations, this`locationCache, this`codeCache, this`calls
    {
      && allLocations == old(allLocations) && locationCache == old(locationCache) && codeCache == old(codeCache)
      && calls == old(calls)
    }

    /**
     * `ensureLocationExists`: skip a missing or empty code; reconcile the
     * location already indexed under the code; refuse to create anything but a
     * Region without a parent; otherwise create it and write it through to the
     * list and both indices, so that a later lookup of the code finds it.
     */
    method EnsureLocationExists(parentLocation: Location?, name: Option<string>, code: Option<string>, tag: string, oracle: UpsertOracle)
      returns (r: Upsert)
      requires Valid()
      modifies this`calls, this`allLocations, this`locationCache, this`codeCache, Existing(code)`name, Existing(code)`parentLocation
      ensures Valid() && Grows(r) && old(calls) <= calls && Keeps(old(codeCache), codeCache)
      ensures forall l: Location {:trigger old(l.name)} :: old(allocated(l)) && l !in Reach(old(codeCache), code) ==> l.name == old(l.name) && l.parentLocation == old(l.parentLocation)
      ensures r.Returned? && r.loc != null ==> FindLocationByCode(code) == r.loc && r.loc.locationId.Some?
      ensures StepFacts(r, parentLocation, code) && (r.NullPointer? ==> old(FindLocationByCode(code)) != null)
      ensures allLocations != old(allLocations) ==> parentLocation != null || EqualsIgnoreCase("Region", tag)
      ensures code.None? || code.value == [] ==> r == Returned(null) && unchanged(this) && unchanged(old(Existing(code)))
      ensures code.Some? && code.value != [] && old(FindLocationByCode(code)) != null ==>
        Reconciled(old(FindLocationByCode(code)), parentLocation, name, oracle, r)
      ensures code.Some? && code.value != [] && old(FindLocationByCode(code)) == null && parentLocation == null && !EqualsIgnoreCase("Region", tag) ==>
        r == Returned(null) && unchanged(this)
      ensures code.Some? && code.value != [] && old(FindLocationByCode(code)) == null && (parentLocation != null || EqualsIgnoreCase("Region", tag)) ==>
        Created(parentLocation, name, code.value, tag, oracle, r)
      ensures RequestsOf(calls[|old(calls)|..], parentLocation, Level(name, code, tag), old(codeCache))
    {
      if code.None? || code.value == [] {
        return Returned(null);
      }
      var existing := FindLocationByCode(code);
      if existing != null {
        r := ReconcileExisting(existing, parentLocation, name, code, oracle);
        Adjusted(old(calls), calls, name);
        return;
      }
      if parentLocation == null && !EqualsIgnoreCase("Region", tag) {
        return Returned(null);
      }
      ghost var log;
      r, log := CreateAndCache(parentLocation, name, code, tag, oracle);
      LogGained(old(calls), calls, log);
    }

    /** The list of the current state only adds new locations to the list of the pre-state. */
    twostate predicate OnlyNewLocations()
      reads this`allLocations
    {
      && |old(allLocations)| <= |allLocations|
      && (forall i :: 0 <= i < |old(allLocations)| ==> allLocations[i] == old(allLocations)[i])
      && (forall i :: |old(allLocations)| <= i < |allLocations| ==> fresh(allLocations[i]))
    }

    /** A list that at most gained the returned new location only adds new locations. */
    twostate lemma GrowsOnlyNew(new r: Upsert)
      requires Grows(r)
      ensures OnlyNewLocations()
    {
    }

    /**
     * An upsert as the pipelines see it: the indices stay sound, the list only
     * gains new locations, a returned location has an id, the code index only
     * grows and bounds the result, and the trace gains the upsert `e` with the
     * requests it sent.
     */
    method EnsureLevel(parentLocation: Location?, level: Level, oracle: UpsertOracle)
      returns (r: Upsert, ghost e: Event)
      requires Valid()
      modifies this`calls, this`allLocations, this`locationCache, this`codeCache, this`trace
      modifies allLocations`name, allLocations`parentLocation
      ensures Valid() && Grows(r) && OnlyNewLocations()
      ensures forall l: Location :: old(allocated(l)) && l !in Reached(e) ==> l.name == old(l.name) && l.parentLocation == old(l.parentLocation)
      ensures UpsertOf(e, parentLocation, level) && e.result == r && ReadId(e) == IdOf(LocOf(e))
      ensures Linked([e], old(codeCache), codeCache)
      ensures trace == old(trace) + [e] && calls == old(calls) + e.sent
      ensures r.Returned? && r.loc != null ==> r.loc.locationId.Some?
      ensures allLocations != old(allLocations) ==> parentLocation != null || EqualsIgnoreCase("Region", level.tag)
    {
      ghost var before := calls;
      ghost var found := FindLocationByCode(level.code);
      r := EnsureLocationExists(parentLocation, level.name, level.code, level.tag, oracle);
      assert level.code != Some([]) && found != null ==> r == Returned(found) || r == NullPointer;
      Extends(before, calls);
      e := Upserted(parentLocation, level, r, IdOf(if r.Returned? then r.loc else null), calls[|before|..], old(codeCache), codeCache);
      LinkedOne(e, old(codeCache), codeCache);
      trace := trace + [e];
      GrowsOnlyNew(r);
    }

    // -------------------------------------------------------------------
    // The facility pipeline

    /**
     * `retireOrUnretireIfNeeded`: the retire or unretire request the facility's
     * operating status calls for; the trace gains the step, the id it read and that request.
     */
    method RetireOrUnretireIfNeeded(p: HfrFacilityPayload, facilityLoc: Location?)
      modifies this`calls, this`trace
      ensures calls == old(calls) + LifecycleCalls(p.operatingStatus, IdOf(facilityLoc))
      ensures trace == old(trace) + [Lifecycle(facilityLoc, IdOf(facilityLoc), LifecycleCalls(p.operatingStatus, IdOf(facilityLoc)))]
    {
      if facilityLoc != null && p.operatingStatus.Some? {
        var trimmed := Trim(p.operatingStatus.value);
        if !EqualsIgnoreCase(trimmed, "Operating") {
          var reason := "Operating status: " + trimmed;
          calls := calls + [RetireLocation(facilityLoc.locationId, reason)];
        } else {
          calls := calls + [UnretireLocation(facilityLoc.locationId)];
        }
      }
      trace := trace + [Lifecycle(facilityLoc, IdOf(facilityLoc), LifecycleCalls(p.operatingStatus, IdOf(facilityLoc)))];
    }

    /**
     * The steps of `syncFacility` after the Facility upsert: retire or unretire it,
     * upsert the Village under the Ward, and answer with the processed response.
     */
    method RetireThenVillage(p: HfrFacilityPayload, plan: Plan, facilityLoc: Location?, ward: Location?, oracle: UpsertOracle)
      returns (response: SyncResponse, ghost events: seq<Event>)
      requires Valid() && plan.status == p.operatingStatus
      modifies this`calls, this`allLocations, this`locationCache, this`codeCache, this`trace
      modifies allLocations`name, allLocations`parentLocation
      ensures Valid() && OnlyNewLocations()
      ensures trace == old(trace) + events && calls == old(calls) + Sent(events)
      ensures Tail(plan, ward, facilityLoc, IdOf(facilityLoc), events)
      ensures Linked(events, old(codeCache), codeCache)
      ensures forall l: Location :: old(allocated(l)) && l !in Touched(events) ==> l.name == old(l.name) && l.parentLocation == old(l.parentLocation)
      ensures response == if Threw(events[1]) then FailureResponse(NullPointerMessage)
                          else if facilityLoc != null then plan.found else plan.missing
    {
      RetireOrUnretireIfNeeded(p, facilityLoc);
      ghost var lifecycle := Lifecycle(facilityLoc, IdOf(facilityLoc), LifecycleCalls(p.operatingStatus, IdOf(facilityLoc)));
      ghost var c0 := codeCache;
      var village, e := EnsureLevel(ward, plan.village, oracle);
      LinkedLifecycle(lifecycle, c0);
      LinkedJoin([lifecycle], [e], c0, c0, codeCache);
      if village.NullPointer? {
        response := FailureResponse(NullPointerMessage);
      } else if facilityLoc != null {
        response := plan.found;
      } else {
        response := plan.missing;
      }
      SentOne(lifecycle);
      SentOne(e);
      Steps(old(trace), old(calls), [lifecycle], [e]);
      events := [lifecycle] + [e];
      assert events[1..] == [e];
      TouchedJoin([lifecycle], [e]);
      TouchedOne(lifecycle);
      TouchedOne(e);
    }

    /** The first half of `syncFacility`: Region without a parent, then District and Council under it. */
    method SyncRegionToCouncil(plan: Plan, oracles: SyncOracles)
      returns (council: Upsert, ghost events: seq<Event>)
      requires Valid() && |plan.levels| == 5
      modifies this`calls, this`allLocations, this`locationCache, this`codeCache, this`trace
      modifies allLocations`name, allLocations`parentLocation
      ensures Valid() && OnlyNewLocations()
      ensures trace == old(trace) + events && calls == old(calls) + Sent(events)
      ensures Chain(null, plan.levels[..3], events) && Last(events).Upserted? && Last(events).result == council
      ensures Linked(events, old(codeCache), codeCache)
      ensures forall l: Location :: old(allocated(l)) && l !in Touched(events) ==> l.name == old(l.name) && l.parentLocation == old(l.parentLocation)
    {
      var levels := plan.levels;
      ghost var c0 := codeCache;
      var region, e := EnsureLevel(null, levels[0], oracles.region);
      SentOne(e);
      // Without a parent the upsert never reaches the parent comparison, so the Region step returns.
      ghost var rest;
      ghost var c1 := codeCache;
      assert OnlyNewLocations();
      council, rest := SyncDistrictToCouncil(plan, region.loc, oracles);
      LinkedJoin([e], rest, c0, c1, codeCache);
      UpperJoin(levels, e, rest);
      Steps(old(trace), old(calls), [e], rest);
      events := [e] + rest;
      TouchedJoin([e], rest);
      TouchedOne(e);
    }

    /** District under the Region's location, then Council under the District's. */
    method SyncDistrictToCouncil(plan: Plan, region: Location?, oracles: SyncOracles)
      returns (council: Upsert, ghost events: seq<Event>)
      requires Valid() && |plan.levels| == 5
      modifies this`calls, this`allLocations, this`locationCache, this`codeCache, this`trace
      modifies allLocations`name, allLocations`parentLocation
      ensures Valid() && OnlyNewLocations()
      ensures trace == old(trace) + events && calls == old(calls) + Sent(events)
      ensures Chain(region, plan.levels[1..3], events) && Last(events).Upserted? && Last(events).result == council
      ensures Linked(events, old(codeCache), codeCache)
      ensures forall l: Location :: old(allocated(l)) && l !in Touched(events) ==> l.name == old(l.name) && l.parentLocation == old(l.parentLocation)
    {
      var levels := plan.levels[1..3];
      ghost var c0 := codeCache;
      var district, e1 := EnsureLevel(region, levels[0], oracles.district);
      SentOne(e1);
      if district.NullPointer? {
        ChainOne(region, levels, e1);
        TouchedOne(e1);
        return district, [e1];
      }
      assert OnlyNewLocations();
      ghost var e2;
      ghost var c1 := codeCache;
      council, e2 := EnsureLevel(district.loc, levels[1], oracles.council);
      LinkedJoin([e1], [e2], c0, c1, codeCache);
      ChainTwo(region, levels, e1, e2);
      SentOne(e2);
      Steps(old(trace), old(calls), [e1], [e2]);
      events := [e1] + [e2];
      TouchedJoin([e1], [e2]);
      TouchedOne(e1);
      TouchedOne(e2);
    }

    /** Facility under the Ward's location, then the retire or unretire step and Village. */
    method FacilityToVillage(p: HfrFacilityPayload, plan: Plan, ward: Location?, oracles: SyncOracles)
      returns (response: SyncResponse, ghost events: seq<Event>)
      requires Valid() && |plan.levels| == 5 && plan.status == p.operatingStatus
      modifies this`calls, this`allLocations, this`locationCache, this`codeCache, this`trace
      modifies allLocations`name, allLocations`parentLocation
      ensures Valid() && OnlyNewLocations()
      ensures trace == old(trace) + events && calls == old(calls) + Sent(events)
      ensures FacilityOutcome(plan, ward, events, response)
      ensures |events| == 3 ==> events[1].facilityId == IdOf(LocOf(events[0]))
      ensures Linked(events, old(codeCache), codeCache)
      ensures forall l: Location :: old(allocated(l)) && l !in Touched(events) ==> l.name == old(l.name) && l.parentLocation == old(l.parentLocation)
    {
      var facility, e := EnsureLevel(ward, plan.levels[4], oracles.facility);
      SentOne(e);
      if facility.NullPointer? {
        TouchedOne(e);
        return FailureResponse(NullPointerMessage), [e];
      }
      assert OnlyNewLocations();
      ghost var tail;
      ghost var c1 := codeCache;
      response, tail := RetireThenVillage(p, plan, facility.loc, ward, oracles.village);
      LinkedJoin([e], tail, old(codeCache), c1, codeCache);
      FacilityJoin(plan, ward, e, tail, response);
      Steps(old(trace), old(calls), [e], tail);
      events := [e] + tail;
      TouchedJoin([e], tail);
      TouchedOne(e);
    }

    /** The second half of `syncFacility`: Ward under the Council's location, then the Facility onwards under the Ward's. */
    method SyncWardToVillage(p: HfrFacilityPayload, plan: Plan, council: Location?, oracles: SyncOracles)
      returns (response: SyncResponse, ghost events: seq<Event>)
      requires Valid() && |plan.levels| == 5 && plan.status == p.operatingStatus
      modifies this`calls, this`allLocations, this`locationCache, this`codeCache, this`trace
      modifies allLocations`name, allLocations`parentLocation
      ensures Valid() && OnlyNewLocations()
      ensures trace == old(trace) + events && calls == old(calls) + Sent(events)
      ensures LowerOutcome(plan, council, events, response)
      ensures |events| == 4 ==> events[2].facilityId == IdOf(LocOf(events[1]))
      ensures Linked(events, old(codeCache), codeCache)
      ensures forall l: Location :: old(allocated(l)) && l !in Touched(events) ==> l.name == old(l.name) && l.parentLocation == old(l.parentLocation)
    {
      var ward, e := EnsureLevel(council, plan.levels[3], oracles.ward);
      SentOne(e);
      if ward.NullPointer? {
        LowerThrew(plan, council, e);
        TouchedOne(e);
        return FailureResponse(NullPointerMessage), [e];
      }
      assert OnlyNewLocations();
      ghost var rest;
      ghost var c1 := codeCache;
      response, rest := FacilityToVillage(p, plan, ward.loc, oracles);
      LinkedJoin([e], rest, old(codeCache), c1, codeCache);
      LowerJoin(plan, council, e, rest, response);
      Steps(old(trace), old(calls), [e], rest);
      events := [e] + rest;
      TouchedJoin([e], rest);
      TouchedOne(e);
    }

    /**
     * `syncFacility`: upsert Region, District, Council and Ward, each under the
     * previous one, then Facility under the Ward, then retire or unretire the
     * facility, then upsert the Village under the Ward. A NullPointerException
     * of any upsert ends the run with an error response; otherwise the response
     * is a success exactly when the Facility upsert returned a location.
     */
    method SyncFacility(payload: Option<HfrFacilityPayload>, oracles: SyncOracles)
      returns (response: SyncResponse, ghost events: seq<Event>)
      requires Valid()
      modifies this`calls, this`allLocations, this`locationCache, this`codeCache, this`trace
      modifies allLocations`name, allLocations`parentLocation
      ensures Valid() && OnlyNewLocations()
      ensures trace == old(trace) + events && calls == old(calls) + Sent(events)
      ensures payload.None? ==> response == SyncResponse("error", "Empty payload") && unchanged(this) && events == []
      ensures payload.Some? ==> Outcome(FacilityPlan(payload.value), events, response)
      ensures IdTied(events)
      ensures Linked(events, old(codeCache), codeCache)
      ensures forall l: Location :: old(allocated(l)) && l !in Touched(events) ==> l.name == old(l.name) && l.parentLocation == old(l.parentLocation)
    {
      if payload.None? {
        return SyncResponse("error", "Empty payload"), [];
      }
      // The names, codes and responses depend on the payload alone, so they are computed up front.
      var plan := FacilityPlan(payload.value);
      response, events := SyncLevels(payload.value, plan, oracles);
    }

    /** The upserts and the lifecycle step of `syncFacility`, once the plan of the payload is known. */
    method SyncLevels(p: HfrFacilityPayload, plan: Plan, oracles: SyncOracles)
      returns (response: SyncResponse, ghost events: seq<Event>)
      requires Valid() && |plan.levels| == 5 && plan.status == p.operatingStatus
      modifies this`calls, this`allLocations, this`locationCache, this`codeCache, this`trace
      modifies allLocations`name, allLocations`parentLocation
      ensures Valid() && OnlyNewLocations()
      ensures trace == old(trace) + events && calls == old(calls) + Sent(events)
      ensures Outcome(plan, events, response)
      ensures IdTied(events)
      ensures Linked(events, old(codeCache), codeCache)
      ensures forall l: Location :: old(allocated(l)) && l !in Touched(events) ==> l.name == old(l.name) && l.parentLocation == old(l.parentLocation)
    {
      ghost var c0 := codeCache;
      var council, upper := SyncRegionToCouncil(plan, oracles);
      if council.NullPointer? {
        UpperThrew(plan, upper);
        return FailureResponse(NullPointerMessage), upper;
      }
      ChainAt(null, plan.levels[..3], upper, 0);
      ghost var lower;
      ghost var c1 := codeCache;
      assert OnlyNewLocations();
      response, lower := SyncWardToVillage(p, plan, council.loc, oracles);
      LinkedJoin(upper, lower, c0, c1, codeCache);
      RunJoin(plan, upper, lower, response);
      Steps(old(trace), old(calls), upper, lower);
      events := upper + lower;
      TouchedJoin(upper, lower);
    }

    /**
     * One element of `processHfrResponse`: a record whose payload did not map
     * is skipped, and a mapped payload goes through `syncFacility`.
     */
    method SyncRecord(record: Option<HfrFacilityPayload>, oracles: SyncOracles) returns (ghost events: seq<Event>)
      requires Valid()
      modifies this`calls, this`allLocations, this`locationCache, this`codeCache, this`trace
      modifies allLocations`name, allLocations`parentLocation
      ensures Valid() && OnlyNewLocations()
      ensures trace == old(trace) + events && calls == old(calls) + Sent(events)
      ensures RecordRun(record, events)
      ensures IdTied(events)
      ensures Linked(events, old(codeCache), codeCache)
      ensures forall l: Location :: old(allocated(l)) && l !in Touched(events) ==> l.name == old(l.name) && l.parentLocation == old(l.parentLocation)
      ensures forall l: Location :: old(allocated(l)) ==> l.locationId == old(l.locationId)
    {
      events := [];
      if record.Some? {
        var response;
        response, events := SyncFacility(record, oracles);
        MappedRun(record.value, events, response);
      }
    }

    /**
     * `processHfrResponse`: run `syncFacility` on every facility record in
     * order; a record that does not map onto the payload type (None here) is
     * skipped, and the responses are dropped.
     */
    method ProcessHfrResponse(records: seq<Option<HfrFacilityPayload>>, oracles: seq<SyncOracles>)
      returns (ghost runs: seq<seq<Event>>)
      requires Valid()
      modifies this`calls, this`allLocations, this`locationCache, this`codeCache, this`trace
      modifies allLocations`name, allLocations`parentLocation
      ensures Valid() && OnlyNewLocations()
      ensures |runs| == |records| && trace == old(trace) + Flatten(runs) && calls == old(calls) + Sent(Flatten(runs))
      ensures FacilityRuns(records, runs)
      ensures forall j :: 0 <= j < |runs| ==> IdTied(runs[j])
      ensures Linked(Flatten(runs), old(codeCache), codeCache)
      ensures forall l: Location :: old(allocated(l)) && l !in Touched(Flatten(runs)) ==> l.name == old(l.name) && l.parentLocation == old(l.parentLocation)
    {
      runs := [];
      for i := 0 to |records|
        invariant Valid()
        invariant OnlyNewLocations()
        invariant |runs| == i && trace == old(trace) + Flatten(runs) && calls == old(calls) + Sent(Flatten(runs))
        invariant FacilityRuns(records, runs)
        invariant forall j :: 0 <= j < |runs| ==> IdTied(runs[j])
        invariant Linked(Flatten(runs), old(codeCache), codeCache)
        invariant forall l: Location :: old(allocated(l)) && l !in Touched(Flatten(runs)) ==> l.name == old(l.name) && l.parentLocation == old(l.parentLocation)
      {
        ghost var c1 := codeCache;
        label Before:
        ghost var events := SyncRecord(records[i], SyncOraclesAt(oracles, i));
        forall j | 0 <= j < |runs|
          ensures IdTied(runs[j])
        {
          var run := runs[j];
          assert old@Before(IdTied(run));
          if |run| == 7 && LocOf(run[4]) != null {
            var l := LocOf(run[4]);
            assert old@Before(allocated(l));
            assert l.locationId == old@Before(l.locationId);
          }
        }
        FlattenSnoc(old(trace), old(calls), runs, events);
        TouchedJoin(Flatten(runs), events);
        LinkedJoin(Flatten(runs), events, old(codeCache), c1, codeCache);
        PairwiseSnoc(RecordRun, records, runs, events);
        runs := runs + [events];
      }
    }

    // -------------------------------------------------------------------
    // The admin hierarchy feed

    /**
     * The Country level of the admin feed: an upsert without a parent under the
     * code "TZ". As only a Region may be created without a parent, the Country
     * is never created: the result is whatever "TZ" is already indexed under,
     * which is renamed when the rename test calls for it.
     */
    method EnsureCountry(name: Option<string>, oracle: UpsertOracle) returns (r: Upsert, ghost e: Event)
      requires Valid()
      modifies this`calls, this`allLocations, this`locationCache, this`codeCache, this`trace
      modifies Existing(Some("TZ"))`name, Existing(Some("TZ"))`parentLocation
      ensures Valid() && allLocations == old(allLocations)
      ensures forall l: Location :: old(allocated(l)) && l !in Reached(e) ==> l.name == old(l.name) && l.parentLocation == old(l.parentLocation)
      ensures UpsertOf(e, null, Level(name, Some("TZ"), "Country")) && e.result == r && ReadId(e) == IdOf(LocOf(e))
      ensures Linked([e], old(codeCache), codeCache)
      ensures trace == old(trace) + [e] && calls == old(calls) + e.sent
      ensures r == Returned(old(FindLocationByCode(Some("TZ"))))
      ensures old(FindLocationByCode(Some("TZ"))) == null ==> Untouched()
      ensures old(FindLocationByCode(Some("TZ"))) != null ==> Reconciled(old(FindLocationByCode(Some("TZ"))), null, name, oracle, r)
    {
      assert !EqualsIgnoreCase("Region", "Country");
      ghost var before := calls;
      r := EnsureLocationExists(null, name, Some("TZ"), "Country", oracle);
      Extends(before, calls);
      e := Upserted(null, Level(name, Some("TZ"), "Country"), r, IdOf(r.loc), calls[|before|..], old(codeCache), codeCache);
      LinkedOne(e, old(codeCache), codeCache);
      trace := trace + [e];
    }

    /** The first half of one admin record: Country, Zone under it, Region under that. */
    method AdminCountryToRegion(a: AdminRecord, oracles: AdminOracles)
      returns (region: Upsert, ghost events: seq<Event>)
      requires Valid()
      modifies this`calls, this`allLocations, this`locationCache, this`codeCache, this`trace
      modifies allLocations`name, allLocations`parentLocation
      ensures Valid() && OnlyNewLocations()
      ensures trace == old(trace) + events && calls == old(calls) + Sent(events)
      ensures Chain(null, AdminLevels(a)[..3], events) && Last(events).Upserted? && Last(events).result == region
      ensures events[0].result == Returned(old(FindLocationByCode(Some("TZ"))))
      ensures Linked(events, old(codeCache), codeCache)
      ensures forall l: Location :: old(allocated(l)) && l !in Touched(events) ==> l.name == old(l.name) && l.parentLocation == old(l.parentLocation)
    {
      var levels := AdminLevels(a);
      ghost var c0 := codeCache;
      var country, e := EnsureCountry(levels[0].name, oracles.country);
      SentOne(e);
      ghost var rest;
      ghost var c1 := codeCache;
      region, rest := AdminZoneToRegion(a, country.loc, oracles);
      LinkedJoin([e], rest, c0, c1, codeCache);
      UpperJoin(levels, e, rest);
      Steps(old(trace), old(calls), [e], rest);
      events := [e] + rest;
      TouchedJoin([e], rest);
      TouchedOne(e);
    }

    /** Zone under the Country's location, then Region under the Zone's. */
    method AdminZoneToRegion(a: AdminRecord, country: Location?, oracles: AdminOracles)
      returns (region: Upsert, ghost events: seq<Event>)
      requires Valid()
      modifies this`calls, this`allLocations, this`locationCache, this`codeCache, this`trace
      modifies allLocations`name, allLocations`parentLocation
      ensures Valid() && OnlyNewLocations()
      ensures trace == old(trace) + events && calls == old(calls) + Sent(events)
      ensures Chain(country, AdminLevels(a)[1..3], events) && Last(events).Upserted? && Last(events).result == region
      ensures Linked(events, old(codeCache), codeCache)
      ensures forall l: Location :: old(allocated(l)) && l !in Touched(events) ==> l.name == old(l.name) && l.parentLocation == old(l.parentLocation)
    {
      var levels := AdminLevels(a)[1..3];
      ghost var c0 := codeCache;
      var zone, e1 := EnsureLevel(country, levels[0], oracles.zone);
      SentOne(e1);
      if zone.NullPointer? {
        ChainOne(country, levels, e1);
        TouchedOne(e1);
        return zone, [e1];
      }
      assert OnlyNewLocations();
      ghost var e2;
      ghost var c1 := codeCache;
      region, e2 := EnsureLevel(zone.loc, levels[1], oracles.region);
      LinkedJoin([e1], [e2], c0, c1, codeCache);
      ChainTwo(country, levels, e1, e2);
      SentOne(e2);
      Steps(old(trace), old(calls), [e1], [e2]);
      events := [e1] + [e2];
      TouchedJoin([e1], [e2]);
      TouchedOne(e1);
      TouchedOne(e2);
    }

    /** The second half of one admin record: Ward directly under the Region, Village under the Ward. */
    method AdminWardToVillage(a: AdminRecord, region: Location?, oracles: AdminOracles)
      returns (ghost events: seq<Event>)
      requires Valid()
      modifies this`calls, this`allLocations, this`locationCache, this`codeCache, this`trace
      modifies allLocations`name, allLocations`parentLocation
      ensures Valid() && OnlyNewLocations()
      ensures trace == old(trace) + events && calls == old(calls) + Sent(events)
      ensures Chain(region, AdminLevels(a)[3..], events)
      ensures Linked(events, old(codeCache), codeCache)
      ensures forall l: Location :: old(allocated(l)) && l !in Touched(events) ==> l.name == old(l.name) && l.parentLocation == old(l.parentLocation)
    {
      var levels := AdminLevels(a)[3..];
      ghost var c0 := codeCache;
      var ward, e1 := EnsureLevel(region, levels[0], oracles.ward);
      SentOne(e1);
      if ward.NullPointer? {
        ChainOne(region, levels, e1);
        TouchedOne(e1);
        return [e1];
      }
      assert OnlyNewLocations();
      ghost var c1 := codeCache;
      var village, e2 := EnsureLevel(ward.loc, levels[1], oracles.village);
      LinkedJoin([e1], [e2], c0, c1, codeCache);
      ChainTwo(region, levels, e1, e2);
      SentOne(e2);
      Steps(old(trace), old(calls), [e1], [e2]);
      events := [e1] + [e2];
      TouchedJoin([e1], [e2]);
      TouchedOne(e1);
      TouchedOne(e2);
    }

    /**
     * One record of `processAdminHierarchyData`: Country "TZ", Zone, Region,
     * Ward and Village, each under the location the level before returned; a
     * NullPointerException ends the record.
     */
    method ProcessAdminRecord(a: AdminRecord, oracles: AdminOracles)
      returns (ghost events: seq<Event>)
      requires Valid()
      modifies this`calls, this`allLocations, this`locationCache, this`codeCache, this`trace
      modifies allLocations`name, allLocations`parentLocation
      ensures Valid() && OnlyNewLocations()
      ensures trace == old(trace) + events && calls == old(calls) + Sent(events)
      ensures AdminRun(a, events)
      ensures events[0].result == Returned(old(FindLocationByCode(Some("TZ"))))
      ensures Linked(events, old(codeCache), codeCache)
      ensures forall l: Location :: old(allocated(l)) && l !in Touched(events) ==> l.name == old(l.name) && l.parentLocation == old(l.parentLocation)
    {
      ghost var c0 := codeCache;
      var region, upper := AdminCountryToRegion(a, oracles);
      if region.NullPointer? {
        AdminStops(AdminLevels(a), upper);
        return upper;
      }
      ChainAt(null, AdminLevels(a)[..3], upper, 0);
      ghost var lower;
      ghost var c1 := codeCache;
      lower := AdminWardToVillage(a, region.loc, oracles);
      LinkedJoin(upper, lower, c0, c1, codeCache);
      AdminJoin(AdminLevels(a), upper, lower);
      Steps(old(trace), old(calls), upper, lower);
      events := upper + lower;
      TouchedJoin(upper, lower);
    }

    /**
     * `processAdminHierarchyData`: process every record in order; an exception
     * in one record is caught and the loop goes on with the next.
     */
    method ProcessAdminHierarchyData(records: seq<AdminRecord>, oracles: seq<AdminOracles>)
      returns (ghost runs: seq<seq<Event>>)
      requires Valid()
      modifies this`calls, this`allLocations, this`locationCache, this`codeCache, this`trace
      modifies allLocations`name, allLocations`parentLocation
      ensures Valid() && OnlyNewLocations()
      ensures |runs| == |records| && trace == old(trace) + Flatten(runs) && calls == old(calls) + Sent(Flatten(runs))
      ensures AdminRuns(records, runs)
      ensures Linked(Flatten(runs), old(codeCache), codeCache)
      ensures forall l: Location :: old(allocated(l)) && l !in Touched(Flatten(runs)) ==> l.name == old(l.name) && l.parentLocation == old(l.parentLocation)
    {
      runs := [];
      for i := 0 to |records|
        invariant Valid()
        invariant OnlyNewLocations()
        invariant |runs| == i && trace == old(trace) + Flatten(runs) && calls == old(calls) + Sent(Flatten(runs))
        invariant AdminRuns(records, runs)
        invariant Linked(Flatten(runs), old(codeCache), codeCache)
        invariant forall l: Location :: old(allocated(l)) && l !in Touched(Flatten(runs)) ==> l.name == old(l.name) && l.parentLocation == old(l.parentLocation)
      {
        ghost var c1 := codeCache;
        ghost var events := ProcessAdminRecord(records[i], AdminOraclesAt(oracles, i));
        FlattenSnoc(old(trace), old(calls), runs, events);
        TouchedJoin(Flatten(runs), events);
        LinkedJoin(Flatten(runs), events, old(codeCache), c1, codeCache);
        PairwiseSnoc(AdminRun, records, runs, events);
        runs := runs + [events];
      }
    }
  }
}

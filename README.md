# HFR → OpenMRS location reconciliation, in Dafny

This project models the reconciliation core of the UCS HFR integration
service. The service keeps the OpenMRS location tree in step with the
Health Facility Registry (HFR). The model proves properties of that core.

`LocationSyncService` keeps three pieces of state:

- the list of all OpenMRS locations;
- an index from the lower-cased uuid to the location;
- an index from the lower-cased "Code" (or, failing that, "HFR Code")
  attribute to the location.

Its upsert `ensureLocationExists` takes a parent, a name, a code and a tag,
and chooses one of four outcomes:

- skip a missing code;
- reconcile the location already indexed under the code, renaming it and
  reparenting it where needed;
- refuse to create anything but a Region without a parent;
- create the location, then write it through to the list and both indices.

Two pipelines run on top of the upsert:

- the per-facility pipeline `syncFacility`: Region → District → Council →
  Ward → Facility, then retire or unretire the facility, then the Village
  under the Ward;
- the admin hierarchy feed `processAdminHierarchyData`: Country "TZ" →
  Zone → Region → Ward → Village.

Every remote mutation (create, rename, reparent) is a counted loop of at most
five attempts that stops at the first success. The model covers four more
pieces:

- the name normaliser `CapitalizeUtil.capitalizeWords`;
- the loader `FetchLocationsHelper`, which turns location records, their
  attributes, tags, parent chains and pages into `Location` objects;
- the slash stripping of `OpenmrsClient`;
- the URL composition in `OpenmrsClient.get`.

Modelling choices:

- `Location` is a class (`location.dfy`). The service is a class whose
  fields are the list and the two indices (`location_sync.dfy`). Because
  cached locations are shared objects, a name or parent set through one
  index is visible through the other.
- Every request to OpenMRS is appended to a `calls` log, one entry per
  attempt. The caller supplies each attempt's outcome as an *oracle*: a
  sequence of success flags, plus the uuid and name a successful create
  answers with. A missing flag is a failure.
- Every upsert and every retire or unretire step is also appended to a ghost
  `trace`: the parent, the level (name, code, tag) and the result of the
  upsert, or the facility location and its id, each with the requests it
  sent. An upsert event also holds the code index just before and just
  after it. The pipelines' contracts are stated over that trace (`Chain`,
  `Run`, `AdminRun`). Those contracts fix the parent and the level of each
  upsert, and tie the id a retire or unretire step read to the result of the
  Facility upsert before it (`Tail`). `Linked` chains the recorded indices from the index
  at the start of a run to the index at its end, one upsert after the other.
  Each upsert's result is bound by `StepFacts` (a missing code gives null;
  only an upsert with a parent throws) and by its index step (`IndexStep`):
  - the code index only grows;
  - an upsert of a non-empty code that is already indexed returns that
    location or throws;
  - a returned location is what its code finds afterwards;
  - a throw needs its code indexed just before the upsert (`ThrowsIndexed`):
    the create branch never throws;
  - its requests are bound by the index before it (`Requests`): none for a
    missing or empty code; for an indexed code only renames to the trimmed
    level name and reparents, at most ten; for a code not indexed, none when
    a location other than a Region would be created without a parent, and
    otherwise one to five create requests carrying the level's name, tag
    and code.

  `LinkedBound` lifts the result bounds to the index at the start and the
  end of a whole run, and `LinkedRequests` gives every upsert of a run its
  request bound. For a code that was not indexed, the trace does not say
  whether the create succeeded. That is stated per upsert by
  `EnsureLocationExists`, not by the pipelines.
- An upsert changes the name and parent of at most one location: the one its
  code found in the index before it (`Reached`). Every pipeline leaves the
  name and parent of every location outside `Touched(events)` as they were.
- The indices satisfy an invariant, `LocationSyncService.Valid`: every entry
  is a location of the list, filed under its own key. Every operation
  preserves it. The lookup lemmas derive from it that code lookup ignores
  case, that distinct codes find distinct locations, and that a found
  location carries the code it was found by.
- JSON documents are datatypes. A Java `null` string is `Option<string>`,
  and `String.format("%s", null)` prints "null" (`Text.Str`).
- Case mapping is ASCII. `trim` removes every character up to U+0020.
  `\s` is space plus U+0009–U+000D.

Behaviours of the code that the model keeps as they are:

- **Name and parent are stored even when the remote call failed.** After a
  rename or reparent *request*, the cached name and parent are set whether or
  not the remote update succeeded (LocationSyncService.java:139, :145, :150).
  The cached name is set even when all five rename attempts fail.
- **Only Region can be created without a parent.** The test at
  LocationSyncService.java:155 names only "Region", so the admin feed's
  Country "TZ" is found when it is already indexed and is never created
  (`EnsureCountry`); when it is found, it is renamed like any other indexed
  location.
- **The Village hangs under the Ward, not the Facility**
  (LocationSyncService.java:100-101).
- **The admin feed parents the Ward directly by the Region**
  (LocationSyncService.java:424).
- **The retire reason uses the trimmed status**
  (LocationSyncService.java:328-330).
- **The parent comparison can throw.** When an existing parent has a null id,
  LocationSyncService.java:147 throws a NullPointerException. The pipelines
  catch it and turn it into an "error" response (`Upsert.NullPointer`).
- **Both code namespaces share one index.** "Code" and "HFR Code" are filed
  into the same code index. When both attributes are present, "Code" wins.

"Repeating an identical upsert creates nothing" follows from two
`EnsureLocationExists` postconditions:

- after an upsert returns a location, `FindLocationByCode(code)` returns that
  location;
- when the code is indexed, the `Reconciled` outcome applies: no create
  request, the list and indices unchanged, and a rename or reparent only when
  the rename test or the parent test calls for one.

## Model

| member | source | states |
|---|---|---|
| Text.ToUpper | src/main/java/com/abt/util/CapitalizeUtil.java:20 | `toUpperCase` keeps the length and maps each character to its ASCII upper case |
| Text.ToLower | src/main/java/com/abt/util/CapitalizeUtil.java:22 | `toLowerCase` keeps the length and maps each character to its ASCII lower case |
| Text.TrimStart | src/main/java/com/abt/util/CapitalizeUtil.java:28 | the result is no longer than the input and, if non-empty, starts above U+0020 |
| Text.TrimEnd | src/main/java/com/abt/util/CapitalizeUtil.java:28 | the result is no longer than the input and, if non-empty, ends above U+0020 |
| Text.TrimStartSpec | src/main/java/com/abt/util/CapitalizeUtil.java:28 | stripping the front leaves a suffix of the input, and every character it removed is at or below U+0020 |
| Text.TrimEndSpec | src/main/java/com/abt/util/CapitalizeUtil.java:28 | stripping the back leaves a prefix of the input, and every character it removed is at or below U+0020 |
| Text.TrimSpec | src/main/java/com/abt/util/CapitalizeUtil.java:28 | `trim` keeps one contiguous slice of the input; everything before and after the slice is at or below U+0020 |
| Text.TrimEmpty | src/main/java/com/moh/go/tz/service/LocationSyncService.java:135-137 | the trim is empty exactly when every character is at or below U+0020 |
| Text.TrimIdempotent | src/main/java/com/moh/go/tz/service/LocationSyncService.java:135-136 | trimming a trimmed name changes nothing |
| Text.TrimKeepsVisibleEnds | src/main/java/com/moh/go/tz/service/LocationSyncService.java:135-136 | a name that starts and ends above U+0020 is its own trim |
| Text.IndexOf | src/main/java/com/abt/util/FetchLocationsHelper.java:102 | `indexOf(':')` returns the first index holding the character, or -1 exactly when the character is absent |
| Text.LastIndexOf | src/main/java/com/moh/go/tz/service/LocationSyncService.java:397 | `lastIndexOf('.')` returns the last index holding the character, or -1 exactly when the character is absent |
| Capitalize.StripQuotes | src/main/java/com/abt/util/CapitalizeUtil.java:13 | no double quote survives; a quote-free input is unchanged |
| Capitalize.StripQuotesKeeps | src/main/java/com/abt/util/CapitalizeUtil.java:13 | removing quotes keeps every character property of the input and leaves no quote |
| Capitalize.Words | src/main/java/com/abt/util/CapitalizeUtil.java:14 | every token of the whitespace split is non-empty and holds no whitespace |
| Capitalize.WordsKeep | src/main/java/com/abt/util/CapitalizeUtil.java:14 | a property of every non-whitespace input character holds for every character of every token |
| Capitalize.SplitKeeps | src/main/java/com/abt/util/CapitalizeUtil.java:14 | the same holds for `split("\\s+")`, leading empty token included |
| Capitalize.FormatWord | src/main/java/com/abt/util/CapitalizeUtil.java:19-22 | a formatted token has the token's length, and each character is the upper or lower case of the original |
| Capitalize.FormatWordKeeps | src/main/java/com/abt/util/CapitalizeUtil.java:19-22 | formatting adds no whitespace, no quote and no character at or below U+0020 |
| Capitalize.Capitalized | src/main/java/com/abt/util/CapitalizeUtil.java:8-11 | null and empty input are returned unchanged; any other input gives a non-null result |
| Capitalize.CapitalizeWords | src/main/java/com/abt/util/CapitalizeUtil.java:8-29 | the loop over the split words, appending to a builder, returns exactly `Capitalized(input)` |
| Capitalize.AppendedStep | src/main/java/com/abt/util/CapitalizeUtil.java:17-26 | one loop iteration appends the next token's piece: nothing for an empty token, the upper-cased token for length ≤ 2, otherwise the capitalised token, each followed by a space |
| Capitalize.AppendedSnoc | src/main/java/com/abt/util/CapitalizeUtil.java:17-26 | the builder after one more token is the builder so far plus that token's piece |
| Capitalize.AppendedSpaced | src/main/java/com/abt/util/CapitalizeUtil.java:17-26 | the builder is quote-free, and each of its spaces follows a word and precedes a word or the end |
| Capitalize.SpacedTrim | src/main/java/com/abt/util/CapitalizeUtil.java:28 | trimming such a builder leaves single-spaced text with no outer whitespace |
| Capitalize.CapitalizedShape | src/main/java/com/abt/util/CapitalizeUtil.java:13-28 | for every input, the output holds no double quote, has no leading or trailing whitespace, and every whitespace in it is one space between two words |
| Capitalize.AppendedIsUnwords | src/main/java/com/abt/util/CapitalizeUtil.java:17-26 | over non-empty tokens, the builder is the formatted tokens joined by single spaces, plus one trailing space |
| Capitalize.WordsOfUnwords | src/main/java/com/abt/util/CapitalizeUtil.java:14 | splitting words joined by single spaces gives the words back |
| Capitalize.TrimUnwords | src/main/java/com/abt/util/CapitalizeUtil.java:28 | the final trim removes exactly the builder's trailing space |
| Capitalize.TokensFormatted | src/main/java/com/abt/util/CapitalizeUtil.java:13-22 | without control characters, the formatted tokens are non-empty, visible and quote-free |
| Capitalize.CapitalizedIsUnwords | src/main/java/com/abt/util/CapitalizeUtil.java:13-28 | without control characters, the output is the formatted tokens of the quote-stripped input joined by single spaces |
| Capitalize.CapitalizedTokens | src/main/java/com/abt/util/CapitalizeUtil.java:14-26 | without control characters, output words and input tokens correspond one to one: tokens of length ≤ 2 upper-cased, longer ones with an upper-case first character and a lower-case rest |
| Capitalize.FormatWordIdempotent | src/main/java/com/abt/util/CapitalizeUtil.java:19-22 | formatting a formatted token changes nothing |
| Capitalize.CapitalizedIdempotent | src/main/java/com/abt/util/CapitalizeUtil.java:8-29 | without control characters, normalising twice gives the result of normalising once |
| Capitalize.ControlCharacterBreaksIdempotence | src/main/java/com/abt/util/CapitalizeUtil.java:28 | with a leading U+0001 the trim leaves "ab", which a second pass upper-cases to "AB" |
| Capitalize.SingleToken | src/main/java/com/abt/util/CapitalizeUtil.java:13-28 | a single quote-free token without whitespace comes out as its formatting, trimmed |
| Capitalize.WordsSpace | src/main/java/com/abt/util/CapitalizeUtil.java:14 | splitting two texts joined by one space gives the tokens of the first followed by those of the second |
| Capitalize.NormalisedDash | src/main/java/com/abt/util/CapitalizeUtil.java:13-22 | the quote-stripped, split and formatted tokens of "a - b" are those of a, then "-", then those of b |
| Capitalize.CapitalizedDash | src/main/java/com/abt/util/CapitalizeUtil.java:8-29 | without control characters, normalising "a - b" joins by single spaces the formatted tokens of a, "-" and those of b |
| SyncNames.BuildWardName | src/main/java/com/moh/go/tz/service/LocationSyncService.java:371-376 | the Ward name is null exactly when the ward is null |
| SyncNames.BuildVillageName | src/main/java/com/moh/go/tz/service/LocationSyncService.java:378-386 | the Village name is null exactly when the village is null |
| SyncNames.BuildFacilityName | src/main/java/com/moh/go/tz/service/LocationSyncService.java:388-390 | the Facility name is never null |
| SyncNames.MissingFacilityNameIsNull | src/main/java/com/moh/go/tz/service/LocationSyncService.java:388-390 | a missing facility name with id "AB" gives the name "Null - AB" |
| SyncNames.WardNameWords | src/main/java/com/moh/go/tz/service/LocationSyncService.java:371-376 | without control characters, the Ward name is the formatted tokens of the ward, "-" and those of the council ("" for null), joined by single spaces |
| SyncNames.VillageNameWords | src/main/java/com/moh/go/tz/service/LocationSyncService.java:378-386 | likewise the Village name: the village's tokens, "-", the ward's, "-", the council's |
| SyncNames.FacilityNameWords | src/main/java/com/moh/go/tz/service/LocationSyncService.java:388-390 | likewise the Facility name: the tokens of the name ("null" for null), "-", those of the HFR id |
| SyncNames.AdminWardNameWords | src/main/java/com/moh/go/tz/service/LocationSyncService.java:424-427 | likewise the admin feed's Ward name: the ward's tokens, "-", the council's |
| SyncNames.AdminVillageNameWords | src/main/java/com/moh/go/tz/service/LocationSyncService.java:428-431 | likewise the admin feed's Village name: the village's tokens, "-", the ward's, "-", the council's |
| SyncNames.VillagePrefix | src/main/java/com/moh/go/tz/service/LocationSyncService.java:396-401 | a prefix is the text before the last '.', when the last '.' is not the first character; no prefix when there is no '.' or the last '.' is at index 0 |
| SyncNames.ResolveWardCode | src/main/java/com/moh/go/tz/service/LocationSyncService.java:392-403 | the first that applies: a non-blank ward code, the village-code prefix, the council code |
| SyncNames.WardCodeFromVillage | src/main/java/com/moh/go/tz/service/LocationSyncService.java:392-403 | with a blank ward code, the village code "12.034" gives the ward code "12" |
| SyncNames.WardCodeFromCouncil | src/main/java/com/moh/go/tz/service/LocationSyncService.java:396-402 | a village code whose only '.' comes first falls back to the council code |
| OpenmrsClient.StripEndingSlash | src/main/java/com/moh/go/tz/util/OpenmrsClient.java:63-66 | null stays null; otherwise a prefix at most one shorter, equal to the input exactly when the input does not end in '/' |
| OpenmrsClient.StripLeadingSlash | src/main/java/com/moh/go/tz/util/OpenmrsClient.java:68-71 | null stays null; otherwise a suffix at most one shorter, equal to the input exactly when the input does not start with '/' |
| OpenmrsClient.StripEndingSlashOnce | src/main/java/com/moh/go/tz/util/OpenmrsClient.java:65 | exactly one trailing slash goes: "x//" gives "x/" |
| OpenmrsClient.StripLeadingSlashOnce | src/main/java/com/moh/go/tz/util/OpenmrsClient.java:70 | exactly one leading slash goes: "//x" gives "/x" |
| OpenmrsClient.NewClient | src/main/java/com/moh/go/tz/util/OpenmrsClient.java:23-27 | the constructor stores the base URL with at most one trailing slash removed, and the credentials unchanged |
| OpenmrsClient.GetJoinsWithOneSlash | src/main/java/com/moh/go/tz/util/OpenmrsClient.java:39-42 | a base with up to two trailing slashes and a path with up to one leading slash are joined by exactly one slash |
| OpenmrsClient.ThreeTrailingSlashesSurvive | src/main/java/com/moh/go/tz/util/OpenmrsClient.java:39-42 | with three trailing slashes the URL keeps a double slash |
| OpenmrsClient.NullBaseUrl | src/main/java/com/moh/go/tz/util/OpenmrsClient.java:40 | a null base URL is printed as "null" |
| Locations.Location.Empty | src/main/java/com/moh/go/tz/service/LocationSyncService.java:226 | `new Location()` sets nothing |
| Locations.Location.constructor | src/main/java/com/abt/util/FetchLocationsHelper.java:87-88 | `new Location(uuid, name, parent)` sets those three, with no tags and no attributes |
| Locations.Location.AddTag | src/main/java/com/abt/util/FetchLocationsHelper.java:92 | the tag set gains the tag |
| Locations.Location.AddAttribute | src/main/java/com/abt/util/FetchLocationsHelper.java:104 | the attribute map gains the key, and a later value replaces an earlier one |
| CacheIndex.CodeOf | src/main/java/com/moh/go/tz/service/LocationSyncService.java:342-347 | a code exists exactly when "Code" or "HFR Code" is present, and "Code" is used when both are |
| CacheIndex.KeyOf | src/main/java/com/moh/go/tz/service/LocationSyncService.java:338-340 | a location without an id has no key in either index |
| CacheIndex.Build | src/main/java/com/moh/go/tz/service/LocationSyncService.java:351-357 | every entry of a rebuilt index is a snapshot location filed under its own key |
| CacheIndex.PutIndexed | src/main/java/com/moh/go/tz/service/LocationSyncService.java:173-174 | appending a location to the list and filing it keeps the index sound |
| CacheIndex.BuildSnoc | src/main/java/com/moh/go/tz/service/LocationSyncService.java:355-357 | the rebuild files the locations one after the other |
| CacheIndex.BuildKeys | src/main/java/com/moh/go/tz/service/LocationSyncService.java:351-357 | a key is in the rebuilt index exactly when some snapshot location has it |
| CacheIndex.BuildLastWins | src/main/java/com/moh/go/tz/service/LocationSyncService.java:355-357 | when several locations share a key, the last of them is indexed |
| CacheIndex.NullIdNotIndexed | src/main/java/com/moh/go/tz/service/LocationSyncService.java:338-340 | a location with a null id is in neither index |
| CacheIndex.CodeBeforeHfrCode | src/main/java/com/moh/go/tz/service/LocationSyncService.java:343-344 | when "Code" is present, it is the code key |
| CacheIndex.HfrCodeFallback | src/main/java/com/moh/go/tz/service/LocationSyncService.java:345-346 | when "Code" is absent, "HFR Code" is the code key |
| Retry.AttemptsMade | src/main/java/com/moh/go/tz/service/LocationSyncService.java:183 | a retry loop makes between one and five attempts |
| Retry.AttemptsStopAtFirstSuccess | src/main/java/com/moh/go/tz/service/LocationSyncService.java:183-257 | every attempt before the last fails; the loop succeeds exactly when one of the first five attempts would; without success it makes all five |
| Retry.FirstSuccessAt | src/main/java/com/moh/go/tz/service/LocationSyncService.java:246 | the loop stops at the attempt that succeeds first |
| Retry.AllAttemptsFail | src/main/java/com/moh/go/tz/service/LocationSyncService.java:256-257 | an always-failing collaborator is called exactly five times, and the loop reports failure |
| FetchLocations.SplitAttribute | src/main/java/com/abt/util/FetchLocationsHelper.java:101-105 | no pair when there is no ':', the ':' is at index 0, or nothing follows it; otherwise key, ':', one skipped character and value make up the display |
| FetchLocations.SplitAttributeRoundTrip | src/main/java/com/abt/util/FetchLocationsHelper.java:102-104 | "key: value" splits back into the key and the value |
| FetchLocations.SplitAttributeSkipsNextChar | src/main/java/com/abt/util/FetchLocationsHelper.java:104 | the character after the colon is dropped, whatever it is |
| FetchLocations.AttributeSource | src/main/java/com/abt/util/FetchLocationsHelper.java:95-108 | each stored attribute comes from a non-voided entry whose display splits into that key and value |
| FetchLocations.AttributeProvided | src/main/java/com/abt/util/FetchLocationsHelper.java:95-108 | each non-voided entry that splits provides its key, and its value unless a later entry has the same key |
| FetchLocations.VoidedNeverAdded | src/main/java/com/abt/util/FetchLocationsHelper.java:99-100 | voided entries add nothing |
| FetchLocations.DisplaysAreTags | src/main/java/com/abt/util/FetchLocationsHelper.java:89-93 | the tag set is exactly the entries' `display` values |
| FetchLocations.GetParent | src/main/java/com/abt/util/FetchLocationsHelper.java:117-128 | `getParent` builds a fresh chain of locations that mirrors the nested parent records, nearest first |
| FetchLocations.MirrorsDepth | src/main/java/com/abt/util/FetchLocationsHelper.java:117-128 | a mirrored chain is as long as the nesting is deep, each link points to the next, and the last has no parent |
| FetchLocations.ParentChainDepth | src/main/java/com/abt/util/FetchLocationsHelper.java:117-128 | the parent is null exactly when the member is absent or JSON null |
| FetchLocations.MakeLocation | src/main/java/com/abt/util/FetchLocationsHelper.java:84-111 | the fresh location has the record's uuid, name, tags and non-voided split attributes, and the parent chain |
| FetchLocations.HasNextPage | src/main/java/com/abt/util/FetchLocationsHelper.java:47-58 | true exactly when some link's `rel` is "next", ignoring case |
| FetchLocations.ParseLocationsFromResponse | src/main/java/com/abt/util/FetchLocationsHelper.java:36-45 | the list keeps its entries and gains one fresh location per result, in order |
| FetchLocations.GetAllLocations | src/main/java/com/abt/util/FetchLocationsHelper.java:60-82 | the accumulated list extends the given one by exactly the records collected: a failed request is repeated, and a blank response or a page without "next" ends the run; the start indices are logged |
| FetchLocations.GetFromPage | src/main/java/com/abt/util/FetchLocationsHelper.java:64-69 | a page is parsed, and the next page is fetched 10000 further on only when the page links one |
| FetchLocations.RequestsAdvanceByPage | src/main/java/com/abt/util/FetchLocationsHelper.java:60-82 | the first request uses the given index, a failure repeats it, and each page advances it by 10000 |
| FetchLocations.ExtendsTrans | src/main/java/com/abt/util/FetchLocationsHelper.java:65-67 | the pages' extensions of the list compose |
| FetchLocations.GetAllOpenMRSLocations | src/main/java/com/abt/util/FetchLocationsHelper.java:24-27 | the full list is built from an empty one at start index 0 |
| LocationSync.RenameSettles | src/main/java/com/moh/go/tz/service/LocationSyncService.java:135-140 | once the desired name is stored, the same name needs no rename; a non-empty desired name matches the stored one ignoring case |
| LocationSync.CaseChangeNeedsNoRename | src/main/java/com/moh/go/tz/service/LocationSyncService.java:135-137 | a cached "Dodoma" against the desired "DODOMA" issues no rename |
| LocationSync.ParentDecision | src/main/java/com/moh/go/tz/service/LocationSyncService.java:142-151 | a null supplied parent never changes the parent; a reparent happens exactly when the existing parent is missing or has a different id; an existing parent with a null id throws |
| LocationSync.ReparentSettles | src/main/java/com/moh/go/tz/service/LocationSyncService.java:146-147 | once the supplied parent is stored, it needs no reparent, unless its id is null, in which case the comparison throws |
| LocationSync.ProcessedResponse | src/main/java/com/moh/go/tz/service/LocationSyncService.java:106-108 | "success" exactly when the Facility upsert returned a location, "warning" otherwise |
| LocationSync.LifecycleCallsSpec | src/main/java/com/moh/go/tz/service/LocationSyncService.java:320-335 | at most one request; none exactly when there is no facility location or no status; an unretire of the facility's id exactly when the trimmed status equals "Operating" ignoring case, otherwise a retire with reason "Operating status: " plus the trimmed status |
| LocationSync.ChainAt | src/main/java/com/moh/go/tz/service/LocationSyncService.java:67-101 | in a run down a chain of levels, every upsert is of the level at its position, each later upsert is under the location the one before returned, and a run that stops early ends at an upsert that threw |
| LocationSync.ChainJoin | src/main/java/com/moh/go/tz/service/LocationSyncService.java:67-101 | a complete run that did not throw, followed by a run under its last location, is a run over both chains of levels |
| LocationSync.ChainStops | src/main/java/com/moh/go/tz/service/LocationSyncService.java:67-101 | a run that threw is a run over any longer chain of levels |
| LocationSync.UpperJoin | src/main/java/com/moh/go/tz/service/LocationSyncService.java:67-83 | a Region upsert that did not throw, followed by District and Council under its location, is a run over the first three levels |
| LocationSync.UpperThrew | src/main/java/com/moh/go/tz/service/LocationSyncService.java:67-83 | a run that threw at Region, District or Council is a whole `syncFacility` run, answered with the error response |
| LocationSync.RunJoin | src/main/java/com/moh/go/tz/service/LocationSyncService.java:61-113 | the first three levels and the Ward-onwards part join into a whole `syncFacility` run with the second part's response |
| LocationSync.LowerThrew | src/main/java/com/moh/go/tz/service/LocationSyncService.java:85-90 | a Ward upsert that threw ends the run with the error response |
| LocationSync.LowerJoin | src/main/java/com/moh/go/tz/service/LocationSyncService.java:85-108 | a Ward upsert that did not throw, followed by the Facility-onwards part under its location, forms the Ward-onwards part with the same response |
| LocationSync.FacilityJoin | src/main/java/com/moh/go/tz/service/LocationSyncService.java:92-108 | a Facility upsert that did not throw, followed by the lifecycle step and the Village, forms the Facility-onwards part; the response is error when the Village upsert threw, else follows the Facility upsert |
| LocationSync.LinkedJoin | src/main/java/com/moh/go/tz/service/LocationSyncService.java:61-113 | two runs of upserts, the second starting from the code index the first left, form one run from the first's start index to the second's end index |
| LocationSync.BoundWiden | src/main/java/com/moh/go/tz/service/LocationSyncService.java:127-179 | as the code index only grows, an upsert bound by one index before it and one after it stays bound by any earlier index before and any later one after |
| LocationSync.LinkedBound | src/main/java/com/moh/go/tz/service/LocationSyncService.java:127-179 | in a linked run the code index only grows, and every upsert is bound by the index at the start and at the end: a non-empty code indexed at the start returns that location or throws, a returned location is what its code finds at the end, and a throw needs a code indexed at the end |
| LocationSync.LinkedRequests | src/main/java/com/moh/go/tz/service/LocationSyncService.java:127-179 | every upsert of a linked run sent only the requests the code index before it allows: none for a missing or empty code, at most ten renames to the trimmed name and reparents for an indexed one, none for a refused create, and one to five creates of its level otherwise; an upsert threw only if its code was indexed just before it |
| LocationSync.CreateNeverThrows | src/main/java/com/moh/go/tz/service/LocationSyncService.java:155-178 | an upsert that threw while its code index was empty, as a create would have to, is no index step: only the branch for an indexed code can throw, while a create catches its own errors (lines 249-250) |
| LocationSync.AdminStops | src/main/java/com/moh/go/tz/service/LocationSyncService.java:412-423 | a record's run that threw at Country, Zone or Region is a run over all five levels |
| LocationSync.AdminJoin | src/main/java/com/moh/go/tz/service/LocationSyncService.java:412-431 | a record's run that reached the Ward joins its parts: the Ward directly under the Region, the Village under the Ward |
| LocationSync.LocationSyncService.constructor | src/main/java/com/moh/go/tz/service/LocationSyncService.java:48-59 | the configuration is stored, and the indices are rebuilt from the given snapshot |
| LocationSync.LocationSyncService.AddToCaches | src/main/java/com/moh/go/tz/service/LocationSyncService.java:337-349 | a null location, or one with a null id, changes nothing; otherwise the location is filed under its uuid key and its code key |
| LocationSync.LocationSyncService.FileAll | src/main/java/com/moh/go/tz/service/LocationSyncService.java:355-357 | the loop builds both indices by filing the snapshot in order |
| LocationSync.LocationSyncService.RefreshLocationCache | src/main/java/com/moh/go/tz/service/LocationSyncService.java:351-359 | the list becomes the snapshot, both indices hold exactly its entries with later duplicates winning, and the invariant holds |
| LocationSync.LocationSyncService.FindLocationByCode | src/main/java/com/moh/go/tz/service/LocationSyncService.java:361-364 | null for a null code; otherwise the entry under the lower-cased code, if there is one |
| LocationSync.LocationSyncService.FindLocationByUuid | src/main/java/com/moh/go/tz/service/LocationSyncService.java:366-369 | null for a null uuid; otherwise the entry under the lower-cased uuid, if there is one |
| LocationSync.LocationSyncService.FoundByCodeCarriesCode | src/main/java/com/moh/go/tz/service/LocationSyncService.java:341-346 | a location found by code has an id and carries that code, ignoring case |
| LocationSync.LocationSyncService.LookupIgnoresCase | src/main/java/com/moh/go/tz/service/LocationSyncService.java:361-369 | codes or uuids that differ only in ASCII case find the same location |
| LocationSync.LocationSyncService.DistinctCodesDistinctLocations | src/main/java/com/moh/go/tz/service/LocationSyncService.java:341-346 | two codes that differ ignoring case never find the same location |
| LocationSync.LocationSyncService.StoredCode | src/main/java/com/moh/go/tz/service/LocationSyncService.java:230-239 | whatever the tag, a created location is filed under the code it was created for |
| LocationSync.LocationSyncService.StoredCodeAttribute | src/main/java/com/moh/go/tz/service/LocationSyncService.java:160-165 | with distinct attribute types, a facility's code goes under "HFR Code" and any other level's under "Code" |
| LocationSync.LocationSyncService.SharedAttributeTypeStoresCode | src/main/java/com/moh/go/tz/service/LocationSyncService.java:232-235 | with one attribute type configured for both, a facility's code is stored as "Code" |
| LocationSync.LocationSyncService.CreateNewLocation | src/main/java/com/moh/go/tz/service/LocationSyncService.java:181-258 | one POST per attempt; a fresh location exactly when an attempt succeeds, with the answered uuid and name, the tags, the code renamed to "Code" or "HFR Code", and the cached parent |
| LocationSync.LocationSyncService.UpdateChildLocationParent | src/main/java/com/moh/go/tz/service/LocationSyncService.java:260-289 | one POST per attempt; on success the child points to the new parent as cached, otherwise it is unchanged |
| LocationSync.LocationSyncService.UpdateLocationName | src/main/java/com/moh/go/tz/service/LocationSyncService.java:291-318 | one POST per attempt; on success 200 and the new name, after five failures -1 and the name unchanged |
| LocationSync.LocationSyncService.RenameIfNeeded | src/main/java/com/moh/go/tz/service/LocationSyncService.java:135-140 | rename requests only when the rename test holds, at most five, each a rename to the trimmed desired name; the desired name is stored whatever the remote outcome |
| LocationSync.LocationSyncService.ReparentIfNeeded | src/main/java/com/moh/go/tz/service/LocationSyncService.java:142-151 | reparent requests only when the parent test calls for one, at most five; the supplied parent is stored whatever the remote outcome; a parent with a null id throws |
| LocationSync.LocationSyncService.AppendAndCache | src/main/java/com/moh/go/tz/service/LocationSyncService.java:171-174 | the list gains exactly the new location, both indices file it, and a lookup of its code finds it |
| LocationSync.LocationSyncService.ReconcileExisting | src/main/java/com/moh/go/tz/service/LocationSyncService.java:133-153 | the branch for an indexed code: no create, the list and indices unchanged, only the required rename and reparent requests, at most ten, each a rename to the trimmed name or a reparent, and the indexed object returned |
| LocationSync.LocationSyncService.CreateAndCache | src/main/java/com/moh/go/tz/service/LocationSyncService.java:160-178 | the create branch: one create request per attempt with the single tag and the code under the level's attribute type; one to five requests, each a create of the level's name with its tag as the only tag and its code as the only attribute value (`CreateLog`); on success the list gains the location and both indices file it |
| LocationSync.LocationSyncService.CreateLog | src/main/java/com/moh/go/tz/service/LocationSyncService.java:160-178 | the create branch sends one to five requests, each a create of the level's name with its tag as the only tag and its code as the only attribute value |
| LocationSync.LocationSyncService.EnsureLocationExists | src/main/java/com/moh/go/tz/service/LocationSyncService.java:127-179 | a null or empty code returns null and changes nothing; an indexed code is reconciled; an unindexed code with no parent and a tag other than "Region" returns null and changes nothing; otherwise the location is created; a returned location is found by its code afterwards; the requests sent are the ones `RequestsOf` allows from the code index before it; a throw needs the code indexed before it; only the location found under the code can change its name or parent |
| LocationSync.LocationSyncService.EnsureLevel | src/main/java/com/moh/go/tz/service/LocationSyncService.java:127-179 | as the pipelines see an upsert: the trace gains one upsert event holding the parent, the level (name, code, tag), the result and the code index before and after it, and the call log gains exactly the requests it sent; the index invariant holds, the list only gains new locations, the code index only grows, a non-empty code indexed before returns that location or throws, a returned location is found by its code afterwards, a missing code gives null, only an upsert with a parent and a code indexed before it can throw (`ThrowsIndexed`), and nothing is added without a parent unless the tag is "Region"; the requests are bound by the index before it (`Requests`), the event records the id of the returned location, and every location but the one found under the code (`Reached`) keeps its name and parent |
| LocationSync.LocationSyncService.RetireOrUnretireIfNeeded | src/main/java/com/moh/go/tz/service/LocationSyncService.java:320-335 | the call log gains exactly the retire or unretire request the operating status calls for, on the facility location's id, and none without a location or a status; the trace records the step |
| LocationSync.LocationSyncService.RetireThenVillage | src/main/java/com/moh/go/tz/service/LocationSyncService.java:98-104 | the lifecycle step on the facility location sends exactly the request its status calls for, then the Village is upserted under the Ward's location with the village name and code; the response is an error when the Village upsert threw, else success exactly when there is a facility location; the step reads the id of the facility location it was given, and has one exactly when there is a location; the run is linked from the code index before it to the one after, so every upsert's requests are bound by the index before it (`Requests`); every location outside `Touched` of the run keeps its name and parent |
| LocationSync.LocationSyncService.SyncRegionToCouncil | src/main/java/com/moh/go/tz/service/LocationSyncService.java:67-83 | the trace gains Region without a parent, then District and Council, each upserted with its normalised name, code and tag under the location the previous upsert returned, ending early only at an upsert that threw; the call log gains exactly their requests; the run is linked from the code index before it to the one after, so every upsert's requests are bound by the index before it (`Requests`); every location outside `Touched` of the run keeps its name and parent |
| LocationSync.LocationSyncService.SyncDistrictToCouncil | src/main/java/com/moh/go/tz/service/LocationSyncService.java:73-83 | District under the Region's location, then Council under the District's, each with its name, code and tag, the Council only when the District upsert did not throw; the run is linked from the code index before it to the one after, so every upsert's requests are bound by the index before it (`Requests`); every location outside `Touched` of the run keeps its name and parent |
| LocationSync.LocationSyncService.SyncWardToVillage | src/main/java/com/moh/go/tz/service/LocationSyncService.java:85-108 | Ward under the Council's location with the resolved ward code, Facility under the Ward's, then the lifecycle step on the Facility's location and the Village under the Ward's; a throw ends the run with the error response, and a finished run answers success exactly when the Facility upsert returned a location; the lifecycle step reads the id of the location the Facility upsert returned; the run is linked from the code index before it to the one after, so every upsert's requests are bound by the index before it (`Requests`); every location outside `Touched` of the run keeps its name and parent |
| LocationSync.LocationSyncService.FacilityToVillage | src/main/java/com/moh/go/tz/service/LocationSyncService.java:92-108 | Facility under the Ward's location with the HFR id as code; unless it threw, the lifecycle step on its location and the Village under the Ward's; the response is error on a throw, else success exactly when the Facility upsert returned a location; the lifecycle step reads the id of the location the Facility upsert returned; the run is linked from the code index before it to the one after, so every upsert's requests are bound by the index before it (`Requests`); every location outside `Touched` of the run keeps its name and parent |
| LocationSync.LocationSyncService.SyncFacility | src/main/java/com/moh/go/tz/service/LocationSyncService.java:61-113 | a null payload gives ("error", "Empty payload") and changes nothing; otherwise the trace gains Region, District, Council, Ward and Facility upserts, each with the payload's normalised name, its code and its tag under the previous upsert's location, then the retire or unretire request of the Facility's location and the Village under the Ward's; a throw ends the run with the error response, else success exactly when the Facility upsert returned a location, else warning; the call log gains exactly the requests of the run; in a whole run the retire or unretire step read the id that the location returned by the Facility upsert holds (`IdTied`); the run is linked from the code index before it to the one after, so every upsert's requests are bound by the index before it (`Requests`); every location outside `Touched` of the run keeps its name and parent |
| LocationSync.LocationSyncService.SyncLevels | src/main/java/com/moh/go/tz/service/LocationSyncService.java:67-108 | the same run as `syncFacility`, once the levels, the Village level, the status and the responses of the payload are fixed; in a whole run the retire or unretire step read the id that the location returned by the Facility upsert holds (`IdTied`); the run is linked from the code index before it to the one after, so every upsert's requests are bound by the index before it (`Requests`); every location outside `Touched` of the run keeps its name and parent |
| LocationSync.LocationSyncService.SyncRecord | src/main/java/com/moh/go/tz/service/LocationSyncService.java:441-448 | a record that did not map adds nothing to the trace or the call log; a mapped one adds a whole `syncFacility` run of its payload; in a whole run the retire or unretire step read the id that the location returned by the Facility upsert holds (`IdTied`), and no location's id changes; the run is linked from the code index before it to the one after, so every upsert's requests are bound by the index before it (`Requests`); every location outside `Touched` of the run keeps its name and parent |
| LocationSync.LocationSyncService.ProcessHfrResponse | src/main/java/com/moh/go/tz/service/LocationSyncService.java:438-450 | the trace and the call log gain one run per record, in order: nothing for a record that does not map, and a whole `syncFacility` run of the record's payload otherwise; in every whole run the retire or unretire step read the id that the location returned by its Facility upsert still holds at the end of the batch (`IdTied`); the run is linked from the code index before it to the one after, so every upsert's requests are bound by the index before it (`Requests`); every location outside `Touched` of the run keeps its name and parent |
| LocationSync.LocationSyncService.EnsureCountry | src/main/java/com/moh/go/tz/service/LocationSyncService.java:413-415 | the Country upsert under "TZ" without a parent never creates and never changes the list: with nothing indexed under "TZ" it returns null and changes nothing; otherwise it returns that location, reconciled (renamed when the rename test holds, never reparented); only that location can change its name, every other keeps its name and parent |
| LocationSync.LocationSyncService.AdminCountryToRegion | src/main/java/com/moh/go/tz/service/LocationSyncService.java:413-423 | the trace gains the Country step, then Zone under the Country's location and Region under the Zone's, with their names, codes and tags, ending early only at an upsert that threw; the run is linked from the code index before it to the one after, so every upsert's requests are bound by the index before it (`Requests`); every location outside `Touched` of the run keeps its name and parent |
| LocationSync.LocationSyncService.AdminZoneToRegion | src/main/java/com/moh/go/tz/service/LocationSyncService.java:416-423 | Zone under the Country's location, then Region under the Zone's, unless the Zone upsert threw; the run is linked from the code index before it to the one after, so every upsert's requests are bound by the index before it (`Requests`); every location outside `Touched` of the run keeps its name and parent |
| LocationSync.LocationSyncService.AdminWardToVillage | src/main/java/com/moh/go/tz/service/LocationSyncService.java:424-431 | Ward directly under the Region's location with the "ward - council" name, then Village under the Ward's with the "village - ward - council" name, unless the Ward upsert threw; the run is linked from the code index before it to the one after, so every upsert's requests are bound by the index before it (`Requests`); every location outside `Touched` of the run keeps its name and parent |
| LocationSync.LocationSyncService.ProcessAdminRecord | src/main/java/com/moh/go/tz/service/LocationSyncService.java:412-434 | the trace gains one record's run: Country "TZ" (what "TZ" was indexed under), Zone, Region, Ward and Village, each upserted with its name, code and tag under the location the previous upsert returned, ending at the first throw; the call log gains exactly their requests; the run is linked from the code index before it to the one after, so every upsert's requests are bound by the index before it (`Requests`); every location outside `Touched` of the run keeps its name and parent |
| LocationSync.LocationSyncService.ProcessAdminHierarchyData | src/main/java/com/moh/go/tz/service/LocationSyncService.java:409-436 | the trace and the call log gain one run per record, in order, each a whole record's run; a throw ends only its own record; the run is linked from the code index before it to the one after, so every upsert's requests are bound by the index before it (`Requests`); every location outside `Touched` of the run keeps its name and parent |

## Left out

- HTTP is not modelled: connections, request bodies (JSON serialisation, the
  "description" field), response codes, and the reading of the create
  answer. Each remote mutation is one success flag per attempt plus the
  answered uuid and name. `OpenmrsClient.createConnection` and `getAbsolute`
  are left out.
- Retire and unretire are recorded requests (uuid and reason). Their URLs,
  the URLEncoder call and their boolean results are not modelled, since the
  service ignores the results.
- Concurrency is not modelled: `synchronized`, `ConcurrentHashMap` and
  `CopyOnWriteArrayList`. The model is single-threaded.
- `refreshFromHfr` and `HfrClient` are not part of this model; they are the
  network client that pages through the registry feeds.
- org.json and Jackson are not modelled. Records are datatypes, so JSON
  errors cannot occur in the model. In the source:
  - a `makeLocation` that throws on a missing field makes `getAllLocations`
    retry, keeping any locations already appended;
  - a `getJSONObject(i)` failure outside the try aborts the whole batch:
    the admin batch at LocationSyncService.java:411 and the HFR batch at
    LocationSyncService.java:440. `ProcessHfrResponse` models only the
    mapping failure inside the try, which skips the element.
- FetchLocations.GetAllLocations: the unbounded retry is modelled with a
  finite sequence of responses. The result is None (no list) when the
  responses run out. `Thread.sleep` is left out.
- FetchLocations.GetAllLocations: the Java `int` start index is unbounded
  here. Its overflow after about 214,748 pages is not modelled.
- The snapshot that `refreshLocationCache` loads is a parameter of
  `RefreshLocationCache` and of the constructor. `FetchLocations` models
  how that list is built.
- The source of the `Location` class is not part of this model. The class
  here follows its uses: uuid, name, parent reference, tag set (tag order is
  not kept), attribute map.
- The text of the NullPointerException in the error response (`NullPointerMessage`)
  is assumed: it follows the JDK's helpful NullPointerException messages and
  is not derived from the source.
- LocationSync.LocationSyncService.EnsureLevel: states only part of
  `EnsureLocationExists`'s contract: the parent, the level, the requests
  sent and their bound (`Requests`), `StepFacts`, the index step and the
  locations it leaves alone. It does not say whether a rename or reparent
  was needed, nor, for a code that was not indexed, whether the create
  succeeded. Those outcomes are stated on `EnsureLocationExists` only.
- LocationSync.LocationSyncService.SyncFacility: each upsert's parent and
  level are fixed, and its requests are bound by the code index before it
  (`Requests`) but not fixed: the run does not say whether a rename or
  reparent was needed, nor how many attempts were made. Each upsert's
  result is bound only by `StepFacts` and by its index step. For a code not
  indexed when the upsert starts, either of these meets the contract,
  whatever the create oracle answered:
  - a null result;
  - a new location that its code finds afterwards.

  The same holds for `SyncLevels`, `SyncRegionToCouncil`,
  `SyncDistrictToCouncil`, `SyncWardToVillage`, `FacilityToVillage`,
  `RetireThenVillage` and `SyncRecord`.
- LocationSync.LocationSyncService.ProcessAdminRecord: likewise, and for
  `AdminCountryToRegion`, `AdminZoneToRegion` and `AdminWardToVillage`.
- LocationSync.LocationSyncService.ProcessHfrResponse: likewise; the
  response of each record's run is not kept, as the source drops it.
- LocationSync.LocationSyncService.ProcessAdminHierarchyData: likewise.
- LocationSync.LocationSyncService.RetireOrUnretireIfNeeded: the lifecycle
  step records the facility id as read at that step.
- The names, codes and responses of a facility run are computed from the
  payload before the first upsert (`FacilityPlan`); in the source they are
  computed between the upserts, from the same payload, with the same result.
- SyncNames.BuildWardName: its own contract states only when the name is
  null. The text of the name is stated by `WardNameWords`, for input without
  control characters below U+0020 other than `\s`.
- SyncNames.BuildVillageName: likewise, by `VillageNameWords`.
- SyncNames.BuildFacilityName: likewise, by `FacilityNameWords`.
- Text.TrimStart: its own contract gives only the length bound and a
  visible first character. Exactly what it removes, for every input, is
  stated by `TrimStartSpec`; putting that quantifier on the function itself
  would hand it to every caller of `Trim` and make the pipelines' proofs
  too costly.
- Text.TrimEnd: likewise, its exact effect is stated by `TrimEndSpec`, and
  that of `Trim` by `TrimSpec` and `TrimEmpty`.
- Text.IsBlank and Capitalize.FormatWord: all input text is taken to be
  ASCII. Java's `isBlank` and `Character.isWhitespace` also treat U+1680,
  U+2000–U+2006, U+2008–U+200A, U+2028, U+2029, U+205F and U+3000 as
  whitespace; here only U+0009–U+000D and U+001C–U+0020 are. Java's
  `length()` counts UTF-16 units, so the `length() <= 2` test of
  CapitalizeUtil.java:19 counts a character outside the Basic Multilingual
  Plane as two, while the model counts it as one. Case mapping follows no
  Unicode rules.
- Capitalize.CapitalizedTokens: the token correspondence is proved only for
  input without control characters below U+0020 other than `\s`, because
  `trim` can eat such a character at either end.
  `ControlCharacterBreaksIdempotence` shows the difference.
- Capitalize.CapitalizedIdempotent: applies only to input without such
  control characters.
- Logging, configuration loading, the HTTP routes, the application
  bootstrap, `SyncResponse` and the constants class are not modelled.

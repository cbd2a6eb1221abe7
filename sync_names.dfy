/**
 * The pure helpers of the synchronisation service: the facility record HFR
 * sends, the display names built for the Ward, Village and Facility levels,
 * and the choice of the code the Ward is filed under.
 */
module SyncNames {
  import opened Wrappers
  import opened Text
  import opened Capitalize

  /** The fields of an HFR facility record the synchronisation reads; JSON null or absent is None. */
  datatype HfrFacilityPayload = HfrFacilityPayload(
    facIdNumber: Option<string>,
    name: Option<string>,
    region: Option<string>,
    regionCode: Option<string>,
    district: Option<string>,
    districtCode: Option<string>,
    council: Option<string>,
    councilCode: Option<string>,
    ward: Option<string>,
    wardCode: Option<string>,
    village: Option<string>,
    villageCode: Option<string>,
    operatingStatus: Option<string>)

  /**
   * The fields of one admin hierarchy record the feed reads, each as
   * `optString` gives it: an absent or JSON-null field reads as "".
   */
  datatype AdminRecord = AdminRecord(
    country: string,
    zone: string,
    zoneCode: string,
    region: string,
    regionCode: string,
    council: string,
    ward: string,
    wardCode: string,
    villageMtaa: string,
    villageMtaaCode: string)

  /** The admin feed's Ward name: "ward - council", normalised. */
  function AdminWardName(a: AdminRecord): Option<string>
  {
    Capitalized(Some(a.ward + " - " + a.council))
  }

  /** The admin feed's Village name: "village - ward - council", normalised. */
  function AdminVillageName(a: AdminRecord): Option<string>
  {
    Capitalized(Some(a.villageMtaa + " - " + a.ward + " - " + a.council))
  }

  /** `valueOrEmpty`: a missing value becomes the empty string. */
  function ValueOrEmpty(value: Option<string>): string
  {
    if value.Some? then value.value else ""
  }

  /** `buildWardName`: "ward - council", normalised; null when the ward is missing. */
  function BuildWardName(p: HfrFacilityPayload): (r: Option<string>)
    ensures r.None? <==> p.ward.None?
  {
    if p.ward.None? then None
    else Capitalized(Some(p.ward.value + " - " + ValueOrEmpty(p.council)))
  }

  /** `buildVillageName`: "village - ward - council", normalised; null when the village is missing. */
  function BuildVillageName(p: HfrFacilityPayload): (r: Option<string>)
    ensures r.None? <==> p.village.None?
  {
    if p.village.None? then None
    else Capitalized(Some(p.village.value + " - " + ValueOrEmpty(p.ward) + " - " + ValueOrEmpty(p.council)))
  }

  /** `buildFacilityName`: "name - facility id", normalised; a missing part is formatted as "null". */
  function BuildFacilityName(p: HfrFacilityPayload): (r: Option<string>)
    ensures r.Some?
  {
    Capitalized(Some(Str(p.name) + " - " + Str(p.facIdNumber)))
  }

  /**
   * Without control characters in the parts, the Ward name is the normalised
   * words of the ward, a dash, then those of the council, single-spaced.
   */
  lemma WardNameWords(p: HfrFacilityPayload)
    requires p.ward.Some? && NoControl(p.ward.value) && NoControl(ValueOrEmpty(p.council))
    ensures BuildWardName(p) == Some(Unwords(Normalised(p.ward.value) + ["-"] + Normalised(ValueOrEmpty(p.council))))
  {
    CapitalizedDash(p.ward.value, ValueOrEmpty(p.council));
  }

  /** The same for the Village name: village, dash, ward, dash, council. */
  lemma VillageNameWords(p: HfrFacilityPayload)
    requires p.village.Some? && NoControl(p.village.value)
    requires NoControl(ValueOrEmpty(p.ward)) && NoControl(ValueOrEmpty(p.council))
    ensures BuildVillageName(p) == Some(Unwords(Normalised(p.village.value) + ["-"] + Normalised(ValueOrEmpty(p.ward))
                                                + ["-"] + Normalised(ValueOrEmpty(p.council))))
  {
    var v, w, c := p.village.value, ValueOrEmpty(p.ward), ValueOrEmpty(p.council);
    CapitalizedDash(v, w);
    CapitalizedDash(v + " - " + w, c);
    NormalisedDash(v, w);
  }

  /** The same for the Facility name: the name, a dash, then the facility id, each "null" when missing. */
  lemma FacilityNameWords(p: HfrFacilityPayload)
    requires NoControl(Str(p.name)) && NoControl(Str(p.facIdNumber))
    ensures BuildFacilityName(p) == Some(Unwords(Normalised(Str(p.name)) + ["-"] + Normalised(Str(p.facIdNumber))))
  {
    CapitalizedDash(Str(p.name), Str(p.facIdNumber));
  }

  /** The admin feed's names have the same word structure: ward, dash, council. */
  lemma AdminWardNameWords(a: AdminRecord)
    requires NoControl(a.ward) && NoControl(a.council)
    ensures AdminWardName(a) == Some(Unwords(Normalised(a.ward) + ["-"] + Normalised(a.council)))
  {
    CapitalizedDash(a.ward, a.council);
  }

  /** Village, dash, ward, dash, council. */
  lemma AdminVillageNameWords(a: AdminRecord)
    requires NoControl(a.villageMtaa) && NoControl(a.ward) && NoControl(a.council)
    ensures AdminVillageName(a) == Some(Unwords(Normalised(a.villageMtaa) + ["-"] + Normalised(a.ward) + ["-"] + Normalised(a.council)))
  {
    CapitalizedDash(a.villageMtaa, a.ward);
    CapitalizedDash(a.villageMtaa + " - " + a.ward, a.council);
    NormalisedDash(a.villageMtaa, a.ward);
  }

  /** The part of a village code before its last '.', when that '.' is not the first character. */
  function VillagePrefix(villageCode: Option<string>): (r: Option<string>)
    ensures r.Some? ==>
      var i := |r.value|;
      && villageCode.Some? && 0 < i < |villageCode.value|
      && r.value == villageCode.value[..i]
      && villageCode.value[i] == '.' && '.' !in villageCode.value[i + 1..]
    ensures r.None? ==> villageCode.None? || '.' !in villageCode.value || LastIndexOf(villageCode.value, '.') == 0
  {
    if villageCode.Some? && '.' in villageCode.value then
      var idx := LastIndexOf(villageCode.value, '.');
      if idx > 0 then Some(villageCode.value[..idx]) else None
    else None
  }

  predicate Present(code: Option<string>)
  {
    code.Some? && !IsBlank(code.value)
  }

  /** `resolveWardCode`: the ward code, else the village code's prefix, else the council code. */
  function ResolveWardCode(p: HfrFacilityPayload): (r: Option<string>)
    ensures Present(p.wardCode) ==> r == p.wardCode
    ensures !Present(p.wardCode) && VillagePrefix(p.villageCode).Some? ==> r == VillagePrefix(p.villageCode)
    ensures !Present(p.wardCode) && VillagePrefix(p.villageCode).None? ==> r == p.councilCode
  {
    if Present(p.wardCode) then p.wardCode
    else if VillagePrefix(p.villageCode).Some? then VillagePrefix(p.villageCode)
    else p.councilCode
  }

  /** "12.034" gives "12"; a blank ward code does not count as present. */
  lemma WardCodeFromVillage(p: HfrFacilityPayload)
    requires p.wardCode == Some(" ") && p.villageCode == Some("12.034")
    ensures ResolveWardCode(p) == Some("12")
  {
    assert !Present(p.wardCode);
    var v := "12.034";
    assert v[2] == '.';
    assert LastIndexOf(v[..5], '.') == 2 by {
      assert v[..5][..4] == "12.0";
      assert v[..5][..4][..3] == "12.";
    }
    assert VillagePrefix(p.villageCode) == Some("12") by {
      assert v[..2] == "12";
    }
  }

  /** A village code whose only '.' comes first gives no prefix: the council code is used. */
  lemma WardCodeFromCouncil(p: HfrFacilityPayload)
    requires p.wardCode.None? && p.villageCode == Some(".5")
    ensures ResolveWardCode(p) == p.councilCode
  {
    assert LastIndexOf(".5", '.') == 0 by {
      assert ".5"[..1] == ".";
    }
  }

  /** The facility name formats a missing facility name as the word "Null". */
  lemma MissingFacilityNameIsNull(p: HfrFacilityPayload)
    requires p.name.None? && p.facIdNumber == Some("AB")
    ensures BuildFacilityName(p) == Some("Null - AB")
  {
    assert Str(p.name) + " - " + Str(p.facIdNumber) == "null" + " - " + "AB";
    assert "null" + " - " + "AB" == "null - AB";
    NullNameSteps();
  }

  lemma NullNameSteps()
    ensures Capitalized(Some("null - AB")) == Some("Null - AB")
  {
    NullNameSplit();
    NullNameFormatted();
    NullNameTrimmed();
  }

  lemma NullNameSplit()
    ensures StripQuotes("null - AB") == "null - AB"
    ensures JavaSplit("null - AB") == ["null", "-", "AB"]
  {
    NullNameUnquoted();
    NullNameTokens();
    assert !IsRegexSpace("null - AB"[0]);
  }

  lemma NullNameUnquoted()
    ensures StripQuotes("null - AB") == "null - AB"
  {
    assert forall i :: 0 <= i < 9 ==> "null - AB"[i] != '"';
  }

  lemma NullNameTokens()
    ensures Words("null - AB") == ["null", "-", "AB"]
  {
    NullNameWords();
    WordsOfUnwords(["null", "-", "AB"]);
  }

  lemma NullNameWords()
    ensures Unwords(["null", "-", "AB"]) == "null - AB"
    ensures forall i :: 0 <= i < 3 ==> ["null", "-", "AB"][i] != [] && All(["null", "-", "AB"][i], NotSpace)
  {
    var ws := ["null", "-", "AB"];
    assert Unwords(ws[2..]) == "AB";
    assert Unwords(ws[1..]) == "- AB";
    assert All("null", NotSpace) && All("-", NotSpace) && All("AB", NotSpace);
  }

  lemma NullNameFormatted()
    ensures Appended(["null", "-", "AB"]) == "Null - AB "
  {
    var ws := ["null", "-", "AB"];
    NullNamePieces();
    assert ws[1..] == ["-", "AB"] && ws[1..][1..] == ["AB"] && ws[1..][1..][1..] == [];
    assert Appended(["AB"]) == "AB ";
    assert Appended(["-", "AB"]) == "- " + "AB ";
  }

  lemma NullNamePieces()
    ensures Piece("null") == "Null " && Piece("-") == "- " && Piece("AB") == "AB "
  {
    assert FormatWord("null") == "Null" by {
      assert ToLower("ull") == "ull";
    }
    assert FormatWord("-") == "-";
    assert FormatWord("AB") == "AB";
  }

  lemma NullNameTrimmed()
    ensures Trim("Null - AB ") == "Null - AB"
  {
    assert TrimStart("Null - AB ") == "Null - AB ";
    assert "Null - AB "[..9] == "Null - AB";
  }
}

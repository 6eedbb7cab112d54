/** The mapper from a waarnemingen API observation to the fields of an
    Observation (vespadb/observations/tasks/observation_mapper.py).

    The API record and the mapped fields are Records. Parsing dates, building
    the point, the geographic lookups and difflib's close match are oracles;
    an exception the mapper does not catch is a Failure naming it. */
module ObservationMapper {
  import opened Wrappers
  import opened Text
  import opened Records

  /** ENUMS_MAPPING's attribute names with the model field ENUM_FIELD_MAPPING gives each. */
  const ENUM_FIELD_MAPPING: map<string, string> := map[
    "Nesthoogte" := "nest_height", "Nestgrootte" := "nest_size", "Nestplaats" := "nest_location",
    "Nesttype" := "nest_type", "Resultaat" := "eradication_result", "Problemen" := "eradication_problems",
    "Methode" := "eradication_method", "Product" := "eradication_product"
  ]

  /** The model fields of ENUM_FIELD_MAPPING. */
  const ENUM_FIELDS: set<string> := {
    "nest_height", "nest_size", "nest_location", "nest_type", "eradication_result",
    "eradication_problems", "eradication_method", "eradication_product"
  }

  const REQUIRED_FIELDS: seq<string> := ["id", "date", "point", "created", "modified", "species"]
  const DEFAULT_TIME := "00:00:00"
  const ERADICATOR_NAME := "Gemeld als bestreden"

  /** The validation-code table; ValidationStatusEnum's members stand for
      their stored values, which are not part of this model. */
  const VALIDATION_STATUS: map<string, string> := map[
    "O" := "UNKNOWN", "J" := "APPROVED_WITH_EVIDENCE", "P" := "APPROVED_BY_ADMIN",
    "A" := "APPROVED_AUTOMATIC_VALIDATION", "I" := "IN_PROGRESS", "N" := "REJECTED",
    "U" := "NOT_EVALUABLE_YET"
  ]

  /** What the mapper calls but this model does not define.
      parseObservationDatetime: strptime of "date" T "time" in Europe/Paris,
      to UTC (None: ValueError); parseIso: fromisoformat of a timestamp, to UTC
      (None: ValueError); pointOf: the Point of the "point" object (None: its
      coordinates are missing); anbOf, municipalityOf: the lookups on the
      point; provinceOf: a municipality's province; closeMatch(name, value):
      difflib's closest value of the enum of attribute `name`; strOf: str of
      a value that is not a scalar. */
  datatype Oracles = Oracles(
    parseObservationDatetime: (PyValue, PyValue) -> Option<int>,
    parseIso: PyValue -> Option<int>,
    pointOf: PyValue -> Option<PyValue>,
    anbOf: PyValue -> PyValue,
    municipalityOf: PyValue -> PyValue,
    provinceOf: PyValue -> PyValue,
    closeMatch: (string, string) -> Option<string>,
    strOf: PyValue -> string)

  // ------------------------------------------------------------ validation

  /** map_validation_status_to_enum: the seven codes, None for anything else. */
  function MapValidationStatus(code: PyValue): (status: Option<string>)
    ensures status.Some? <==> code.PyStr? && code.s in VALIDATION_STATUS
  {
    if code.PyStr? && code.s in VALIDATION_STATUS then Some(VALIDATION_STATUS[code.s]) else None
  }

  /** The table as the source lists it, and no two codes share a status. */
  lemma ValidationTable(a: PyValue, b: PyValue)
    ensures MapValidationStatus(PyStr("O")) == Some("UNKNOWN")
    ensures MapValidationStatus(PyStr("J")) == Some("APPROVED_WITH_EVIDENCE")
    ensures MapValidationStatus(PyStr("P")) == Some("APPROVED_BY_ADMIN")
    ensures MapValidationStatus(PyStr("A")) == Some("APPROVED_AUTOMATIC_VALIDATION")
    ensures MapValidationStatus(PyStr("I")) == Some("IN_PROGRESS")
    ensures MapValidationStatus(PyStr("N")) == Some("REJECTED")
    ensures MapValidationStatus(PyStr("U")) == Some("NOT_EVALUABLE_YET")
    ensures MapValidationStatus(a).Some? && MapValidationStatus(a) == MapValidationStatus(b) ==> a == b
  {
  }

  // ------------------------------------------------------------ attributes

  /** The attribute list as the loop sees it: a list of dictionaries, or
      something that iterates over nothing (an empty dictionary or string).
      None otherwise: iterating raises, or an item has no `get`. */
  function AttributeRecords(v: PyValue): Option<seq<Record>> {
    match v
    case PyList(items) =>
      if forall i :: 0 <= i < |items| ==> items[i].PyDict?
      then Some(seq(|items|, i requires 0 <= i < |items| => items[i].entries))
      else None
    case PyDict(entries) => if entries == map[] then Some([]) else None
    case PyStr(s) => if s == "" then Some([]) else None
    case _ => None
  }

  /** What one attribute contributes: its name and the matched enum value,
      when the name is one of ENUMS_MAPPING's and the match is truthy. */
  function Contribution(attribute: Record, o: Oracles): Option<(string, string)> {
    var name := Field(attribute, "name");
    if name.PyStr? && name.s in ENUM_FIELD_MAPPING then
      match o.closeMatch(name.s, Str(Field(attribute, "value"), o.strOf))
      case Some(v) => if v != "" then Some((name.s, v)) else None
      case None => None
    else None
  }

  /** `attribute` contributes a value under key k. */
  predicate Contributes(attribute: Record, keyOf: string -> string,
                        contribute: Record -> Option<(string, string)>, k: string) {
    contribute(attribute).Some? && keyOf(contribute(attribute).value.0) == k
  }

  /** The dictionary a loop over the attributes fills, each contribution
      stored under keyOf(its name), later ones overwriting earlier ones. */
  function Fill(attributes: seq<Record>, keyOf: string -> string,
                contribute: Record -> Option<(string, string)>): map<string, PyValue>
    decreases |attributes|
  {
    if attributes == [] then map[]
    else
      var n := |attributes| - 1;
      var m := Fill(attributes[..n], keyOf, contribute);
      match contribute(attributes[n])
      case Some(c) => m[keyOf(c.0) := PyStr(c.1)]
      case None => m
  }

  /** The enum values of the attributes, each matched by Contribution. */
  function EnumsOf(attributes: seq<Record>, keyOf: string -> string, o: Oracles): map<string, PyValue> {
    Fill(attributes, keyOf, a => Contribution(a, o))
  }

  /** A key is present exactly when some attribute contributes to it. */
  lemma {:induction false} FillKeys(attributes: seq<Record>, keyOf: string -> string,
                                    contribute: Record -> Option<(string, string)>, k: string)
    ensures k in Fill(attributes, keyOf, contribute)
      <==> exists i :: 0 <= i < |attributes| && Contributes(attributes[i], keyOf, contribute, k)
    decreases |attributes|
  {
    if attributes != [] {
      var n := |attributes| - 1;
      var prefix := attributes[..n];
      FillKeys(prefix, keyOf, contribute, k);
      if Contributes(attributes[n], keyOf, contribute, k) {
        assert k in Fill(attributes, keyOf, contribute);
      } else {
        assert k in Fill(attributes, keyOf, contribute) <==> k in Fill(prefix, keyOf, contribute);
        if k in Fill(prefix, keyOf, contribute) {
          var i :| 0 <= i < |prefix| && Contributes(prefix[i], keyOf, contribute, k);
          assert prefix[i] == attributes[i];
        }
        if exists i :: 0 <= i < |attributes| && Contributes(attributes[i], keyOf, contribute, k) {
          var i :| 0 <= i < |attributes| && Contributes(attributes[i], keyOf, contribute, k);
          assert prefix[i] == attributes[i];
        }
      }
    }
  }

  /** A present key holds the value of the last attribute contributing to it. */
  lemma {:induction false} FillLastWins(attributes: seq<Record>, keyOf: string -> string,
                                        contribute: Record -> Option<(string, string)>, k: string, i: nat)
    requires i < |attributes| && Contributes(attributes[i], keyOf, contribute, k)
    requires forall j :: i < j < |attributes| ==> !Contributes(attributes[j], keyOf, contribute, k)
    ensures k in Fill(attributes, keyOf, contribute)
    ensures Fill(attributes, keyOf, contribute)[k] == PyStr(contribute(attributes[i]).value.1)
    decreases |attributes|
  {
    var n := |attributes| - 1;
    var prefix := attributes[..n];
    if i < n {
      assert prefix[i] == attributes[i];
      forall j | i < j < |prefix|
        ensures !Contributes(prefix[j], keyOf, contribute, k)
      {
        assert prefix[j] == attributes[j];
      }
      FillLastWins(prefix, keyOf, contribute, k, i);
      assert !Contributes(attributes[n], keyOf, contribute, k);
    }
  }

  /** The model field an attribute name fills. */
  function FieldKey(name: string): string {
    if name in ENUM_FIELD_MAPPING then ENUM_FIELD_MAPPING[name] else name
  }

  /** Every key the attributes produce is one of the enum model fields. */
  lemma EnumKeysAreModelFields(attributes: seq<Record>, o: Oracles, k: string)
    requires k in EnumsOf(attributes, FieldKey, o)
    ensures k in ENUM_FIELDS
  {
    FillKeys(attributes, FieldKey, a => Contribution(a, o), k);
    var i :| 0 <= i < |attributes| && Contributes(attributes[i], FieldKey, a => Contribution(a, o), k);
    assert ENUM_FIELD_MAPPING[Contribution(attributes[i], o).value.0] == k;
  }

  /** The attribute names one of ENUMS_MAPPING's attributes, whose model
      field is k, and its value has a non-empty close match. */
  predicate MatchesInto(attribute: Record, o: Oracles, k: string) {
    var name := Field(attribute, "name");
    name.PyStr? && name.s in ENUM_FIELD_MAPPING && ENUM_FIELD_MAPPING[name.s] == k
    && var m := o.closeMatch(name.s, Str(Field(attribute, "value"), o.strOf)); m.Some? && m.value != ""
  }

  /** Attributes with other names, or without a match, leave no trace: a
      model field is filled exactly when some attribute matches into it. */
  lemma EnumsOfFilledByMatches(attributes: seq<Record>, o: Oracles, k: string)
    ensures k in EnumsOf(attributes, FieldKey, o) <==> exists i :: 0 <= i < |attributes| && MatchesInto(attributes[i], o, k)
  {
    var contribute := a => Contribution(a, o);
    FillKeys(attributes, FieldKey, contribute, k);
    forall i | 0 <= i < |attributes|
      ensures Contributes(attributes[i], FieldKey, contribute, k) <==> MatchesInto(attributes[i], o, k)
    {
    }
  }

  /** map_attributes_to_enums: the loop, keyed by the model field. */
  method MapAttributesToEnums(attributes: seq<Record>, o: Oracles) returns (mappedValues: map<string, PyValue>)
    ensures mappedValues == EnumsOf(attributes, FieldKey, o)
  {
    mappedValues := map[];
    for i := 0 to |attributes|
      invariant mappedValues == EnumsOf(attributes[..i], FieldKey, o)
    {
      assert attributes[..i + 1][..i] == attributes[..i];
      var attrName := Field(attributes[i], "name");
      var value := Str(Field(attributes[i], "value"), o.strOf);
      if attrName.PyStr? && attrName.s in ENUM_FIELD_MAPPING {
        var mappedEnum := o.closeMatch(attrName.s, value);
        if mappedEnum.Some? && mappedEnum.value != "" {
          mappedValues := mappedValues[ENUM_FIELD_MAPPING[attrName.s] := PyStr(mappedEnum.value)];
        }
      }
    }
    assert attributes[..|attributes|] == attributes;
  }

  // ---------------------------------------------------------------- mapping

  /** Some required field is absent or None. */
  predicate MissingRequired(data: Record) {
    exists f :: f in REQUIRED_FIELDS && (f !in data || data[f] == PyNone)
  }

  /** "time", with "00:00:00" when it is absent or None. */
  function ObservationTime(data: Record): PyValue {
    var t := FieldOr(data, "time", PyStr(DEFAULT_TIME));
    if t == PyNone then PyStr(DEFAULT_TIME) else t
  }

  /** One of the three timestamps does not parse (a caught ValueError). */
  predicate ParseFails(data: Record, o: Oracles) {
    o.parseObservationDatetime(Field(data, "date"), ObservationTime(data)).None?
    || o.parseIso(Field(data, "created")).None? || o.parseIso(Field(data, "modified")).None?
  }

  /** The notes are truthy text whose upper case holds one of the keywords. */
  predicate NotesMentionKeyword(data: Record, keywords: seq<string>) {
    "notes" in data && data["notes"].PyStr? && data["notes"].s != ""
    && exists k :: k in keywords && Contains(AsciiUpper(data["notes"].s), k)
  }

  /** The cluster id: "id" of a truthy "nest" object, else None. */
  function ClusterId(nest: PyValue): PyValue
    requires !Truthy(nest) || nest.PyDict?
  {
    if Truthy(nest) then Field(nest.entries, "id") else PyNone
  }

  /** The municipality's province, or None without a municipality. */
  function Province(municipality: PyValue, o: Oracles): PyValue {
    if Truthy(municipality) then o.provinceOf(municipality) else PyNone
  }

  /** The exception the mapping raises past the checks, if any, in the
      order the source meets them: the point's coordinates, the attribute
      list, the nest and user objects, and upper() on notes that are not text. */
  function MappingError(data: Record, keywords: seq<string>, o: Oracles): Option<string> {
    var nest := FieldOr(data, "nest", PyDict(map[]));
    var user := FieldOr(data, "user", PyDict(map[]));
    if o.pointOf(Field(data, "point")).None? then Some("KeyError")
    else if AttributeRecords(FieldOr(data, "attributes", PyList([]))).None? then Some("AttributeError")
    else if Truthy(nest) && !nest.PyDict? then Some("AttributeError")
    else if Truthy(user) && !user.PyDict? then Some("AttributeError")
    else if keywords != [] && "notes" in data && Truthy(data["notes"]) && !data["notes"].PyStr? then Some("AttributeError")
    else None
  }

  /** The values the mapper computes before it assembles mapped_data: the
      fields it copies, the parsed timestamps, the point and its lookups, the
      enum values, the validation status, the cluster id, the user data and
      the keyword test. */
  datatype Prepared = Prepared(
    wnId: PyValue, species: PyValue, images: PyValue,
    observationDatetime: int, created: int, modified: int,
    location: PyValue, anb: PyValue, municipality: PyValue, province: PyValue,
    enums: Record, validationStatus: PyValue, clusterId: PyValue,
    observer: Option<Record>, eradicated: bool)

  /** What assembling needs: enum values under enum fields only. */
  predicate Assemblable(p: Prepared) {
    forall k :: k in p.enums ==> k in ENUM_FIELDS
  }

  /** A mapping that gets past every check. */
  predicate Maps(data: Record, keywords: seq<string>, o: Oracles) {
    !MissingRequired(data) && !ParseFails(data, o) && MappingError(data, keywords, o).None?
  }

  /** The computations of a mapping that neither returns None nor raises. */
  function Prepare(data: Record, keywords: seq<string>, o: Oracles): (p: Prepared)
    requires !ParseFails(data, o) && MappingError(data, keywords, o).None?
  {
    var location := o.pointOf(Field(data, "point")).value;
    var validation := MapValidationStatus(FieldOr(data, "validation_status", PyStr("O")));
    var municipality := o.municipalityOf(location);
    var user := FieldOr(data, "user", PyDict(map[]));
    Prepared(
      Field(data, "id"), Field(data, "species"), FieldOr(data, "photos", PyList([])),
      o.parseObservationDatetime(Field(data, "date"), ObservationTime(data)).value,
      o.parseIso(Field(data, "created")).value, o.parseIso(Field(data, "modified")).value,
      location, o.anbOf(location), municipality, Province(municipality, o),
      EnumsOf(AttributeRecords(FieldOr(data, "attributes", PyList([]))).value, FieldKey, o),
      if validation.Some? then PyStr(validation.value) else PyNone,
      ClusterId(FieldOr(data, "nest", PyDict(map[]))),
      if Truthy(user) then Some(user.entries) else None,
      NotesMentionKeyword(data, keywords))
  }

  /** The literal part of the mapped_data dictionary. */
  function BaseFields(p: Prepared, o: Oracles): Record {
    map[
      "wn_id" := p.wnId,
      "location" := p.location,
      "species" := p.species,
      "observation_datetime" := PyDatetime(p.observationDatetime),
      "wn_created_datetime" := PyDatetime(p.created),
      "wn_modified_datetime" := PyDatetime(p.modified),
      "anb" := p.anb,
      "municipality" := p.municipality,
      "province" := p.province,
      "wn_validation_status" := p.validationStatus,
      "wn_cluster_id" := p.clusterId,
      "images" := p.images
    ]
  }

  /** `{**a, **b}`: the keys of both, b's values winning. */
  function Spread(a: Record, b: Record): Record {
    map k | k in a.Keys + b.Keys :: if k in b then b[k] else a[k]
  }

  /** A key b does not fill reads through the spread. */
  lemma SpreadLookup(a: Record, b: Record, k: string)
    requires k !in b
    ensures (k in Spread(a, b) <==> k in a) && (k in a ==> Spread(a, b)[k] == a[k])
  {
  }

  /** The observer fields, added when there is user data. */
  function WithObserver(mapped: Record, user: Option<Record>): Record {
    match user
    case Some(u) =>
      mapped["observer_phone_number" := Field(u, "phone_number")]
            ["observer_email" := Field(u, "email")]
            ["observer_name" := Field(u, "name")]
    case None => mapped
  }

  /** The eradication fields, added when the notes mention a keyword. */
  function WithEradication(mapped: Record, eradicated: bool, observationDatetime: int): Record {
    if eradicated then
      mapped["eradication_date" := PyDatetime(observationDatetime)]["eradicator_name" := PyStr(ERADICATOR_NAME)]
    else mapped
  }

  /** mapped_data: the literal fields with the enums spread over them, then
      the observer and eradication fields. */
  function Build(p: Prepared, o: Oracles): Record
    requires Assemblable(p)
  {
    WithEradication(WithObserver(Spread(BaseFields(p, o), p.enums), p.observer), p.eradicated, p.observationDatetime)
  }

  /** Keys outside the enum fields are not produced by the attributes. */
  lemma NotAnEnumKey(attributes: seq<Record>, o: Oracles, k: string)
    requires k !in ENUM_FIELDS
    ensures k !in EnumsOf(attributes, FieldKey, o)
  {
    if k in EnumsOf(attributes, FieldKey, o) {
      EnumKeysAreModelFields(attributes, o, k);
    }
  }

  /** The values a successful mapping assembles are the ones the source
      computes from the API record: the copied fields, the parsed
      observation time, the point and its municipality, the validation code's
      status, the nest's id, the user data and the keyword test; the
      enum values sit under enum fields only. */
  lemma PreparedFromData(data: Record, keywords: seq<string>, o: Oracles)
    requires Maps(data, keywords, o)
    ensures var p := Prepare(data, keywords, o);
      Assemblable(p)
      && p.wnId == Field(data, "id") && p.species == Field(data, "species") && p.images == FieldOr(data, "photos", PyList([]))
      && Some(p.observationDatetime) == o.parseObservationDatetime(Field(data, "date"), ObservationTime(data))
      && Some(p.location) == o.pointOf(Field(data, "point")) && p.municipality == o.municipalityOf(p.location)
      && p.province == Province(p.municipality, o)
      && p.enums == EnumsOf(AttributeRecords(FieldOr(data, "attributes", PyList([]))).value, FieldKey, o)
      && (MapValidationStatus(FieldOr(data, "validation_status", PyStr("O"))).None? <==> p.validationStatus == PyNone)
      && p.clusterId == ClusterId(FieldOr(data, "nest", PyDict(map[])))
      && (p.observer.Some? <==> Truthy(FieldOr(data, "user", PyDict(map[]))))
      && (p.observer.Some? ==> PyDict(p.observer.value) == FieldOr(data, "user", PyDict(map[])))
      && p.eradicated == NotesMentionKeyword(data, keywords)
  {
    PreparedAssemblable(data, keywords, o);
  }

  lemma PreparedAssemblable(data: Record, keywords: seq<string>, o: Oracles)
    requires !ParseFails(data, o) && MappingError(data, keywords, o).None?
    ensures Assemblable(Prepare(data, keywords, o))
  {
    var p := Prepare(data, keywords, o);
    var attributes := AttributeRecords(FieldOr(data, "attributes", PyList([]))).value;
    forall k | k in p.enums
      ensures k in ENUM_FIELDS
    {
      EnumKeysAreModelFields(attributes, o, k);
    }
  }

  /** map_external_data_to_observation_model. Success(None) is the mapper's
      None; Failure names an exception it lets through; a record is the one
      assembled from the prepared values. */
  function MapExternalData(data: Record, keywords: seq<string>, o: Oracles): (r: Result<Option<Record>, string>)
    ensures MissingRequired(data) ==> r == Success(None)
    ensures r == Success(None) <==> MissingRequired(data) || ParseFails(data, o)
    ensures r.Failure? <==> !MissingRequired(data) && !ParseFails(data, o) && MappingError(data, keywords, o).Some?
    ensures r.Success? && r.value.Some? <==> Maps(data, keywords, o)
  {
    if MissingRequired(data) || ParseFails(data, o) then Success(None)
    else match MappingError(data, keywords, o)
      case Some(e) => Failure(e)
      case None =>
        PreparedAssemblable(data, keywords, o);
        Success(Some(Build(Prepare(data, keywords, o), o)))
  }

  /** A successful mapping returns the assembled record. */
  lemma MapsToBuild(data: Record, keywords: seq<string>, o: Oracles)
    requires Maps(data, keywords, o)
    ensures Assemblable(Prepare(data, keywords, o))
    ensures MapExternalData(data, keywords, o) == Success(Some(Build(Prepare(data, keywords, o), o)))
  {
    PreparedAssemblable(data, keywords, o);
  }

  /** The fields the observer and eradication steps add. */
  predicate Added(k: string) {
    k == "observer_phone_number" || k == "observer_email" || k == "observer_name"
    || k == "eradication_date" || k == "eradicator_name"
  }

  /** `{**a, **b}` lacks a key neither side has. */
  lemma SpreadLacks(a: Record, b: Record, k: string)
    requires k !in a && k !in b
    ensures k !in Spread(a, b)
  {
  }

  /** Assembling keeps a key that neither the enums nor the added fields fill. */
  lemma AssembleKeeps(base: Record, enums: Record, user: Option<Record>, eradicated: bool, t: int, k: string)
    requires k !in enums && !Added(k)
    ensures var m := WithEradication(WithObserver(Spread(base, enums), user), eradicated, t);
      (k in m <==> k in base) && (k in base ==> m[k] == base[k])
  {
    SpreadLookup(base, enums, k);
  }

  /** The observer step adds its three fields exactly when there is user data. */
  lemma ObserverStep(mapped: Record, user: Option<Record>, eradicated: bool, t: int)
    requires "observer_phone_number" !in mapped && "observer_email" !in mapped && "observer_name" !in mapped
    ensures var m := WithEradication(WithObserver(mapped, user), eradicated, t);
      ("observer_email" in m <==> user.Some?) && ("observer_name" in m <==> user.Some?)
      && ("observer_phone_number" in m <==> user.Some?)
      && (user.Some? ==>
            m["observer_email"] == Field(user.value, "email") && m["observer_name"] == Field(user.value, "name")
            && m["observer_phone_number"] == Field(user.value, "phone_number"))
  {
  }

  /** The eradication step adds its two fields exactly when the keyword
      test holds, and keeps every other key. */
  lemma EradicationStep(mapped: Record, user: Option<Record>, eradicated: bool, t: int)
    requires "eradication_date" !in mapped && "eradicator_name" !in mapped
    ensures var m := WithEradication(WithObserver(mapped, user), eradicated, t);
      ("eradication_date" in m <==> eradicated) && ("eradicator_name" in m <==> eradicated)
      && (eradicated ==> m["eradication_date"] == PyDatetime(t) && m["eradicator_name"] == PyStr(ERADICATOR_NAME))
  {
  }

  /** Outside the observer, eradication and enum keys, the assembled record
      holds the literal fields. */
  lemma BuildKeepsBaseFields(p: Prepared, o: Oracles, k: string)
    requires Assemblable(p) && k !in ENUM_FIELDS && !Added(k)
    ensures k in Build(p, o) <==> k in BaseFields(p, o)
    ensures k in BaseFields(p, o) ==> Build(p, o)[k] == BaseFields(p, o)[k]
  {
    AssembleKeeps(BaseFields(p, o), p.enums, p.observer, p.eradicated, p.observationDatetime, k);
  }

  lemma IdKeysAreLiteral()
    ensures "wn_id" !in ENUM_FIELDS && !Added("wn_id") && "species" !in ENUM_FIELDS && !Added("species")
    ensures "images" !in ENUM_FIELDS && !Added("images") && "wn_cluster_id" !in ENUM_FIELDS && !Added("wn_cluster_id")
  {
  }

  lemma PlaceKeysAreLiteral()
    ensures "location" !in ENUM_FIELDS && !Added("location")
    ensures "observation_datetime" !in ENUM_FIELDS && !Added("observation_datetime")
    ensures "municipality" !in ENUM_FIELDS && !Added("municipality") && "province" !in ENUM_FIELDS && !Added("province")
  {
  }

  lemma BaseIds(p: Prepared, o: Oracles)
    ensures var b := BaseFields(p, o);
      "wn_id" in b && b["wn_id"] == p.wnId && "species" in b && b["species"] == p.species
  {
  }

  lemma BaseImages(p: Prepared, o: Oracles)
    ensures var b := BaseFields(p, o);
      "images" in b && b["images"] == p.images && "wn_cluster_id" in b && b["wn_cluster_id"] == p.clusterId
  {
  }

  lemma BasePlace(p: Prepared, o: Oracles)
    ensures var b := BaseFields(p, o);
      "location" in b && b["location"] == p.location
      && "observation_datetime" in b && b["observation_datetime"] == PyDatetime(p.observationDatetime)
  {
  }

  lemma BaseRegion(p: Prepared, o: Oracles)
    ensures var b := BaseFields(p, o);
      "municipality" in b && b["municipality"] == p.municipality && "province" in b && b["province"] == p.province
  {
  }

  /** The literal fields hold none of the added keys... */
  lemma BaseLacksAdded(p: Prepared, o: Oracles)
    ensures var b := BaseFields(p, o);
      "observer_phone_number" !in b && "observer_email" !in b && "observer_name" !in b
  {
  }

  lemma BaseLacksEradication(p: Prepared, o: Oracles)
    ensures var b := BaseFields(p, o);
      "eradication_date" !in b && "eradicator_name" !in b
  {
  }

  /** ... and neither are enum fields. */
  lemma AddedAreNotEnumFields()
    ensures "observer_phone_number" !in ENUM_FIELDS && "observer_email" !in ENUM_FIELDS && "observer_name" !in ENUM_FIELDS
    ensures "eradication_date" !in ENUM_FIELDS && "eradicator_name" !in ENUM_FIELDS
  {
  }

  /** The copied fields of every mapped record: neither the enum values nor
      the observer and eradication fields overwrite the id, species, photos
      and cluster id. */
  lemma CopiedFields(p: Prepared, o: Oracles)
    requires Assemblable(p)
    ensures var m := Build(p, o);
      "wn_id" in m && m["wn_id"] == p.wnId
      && "species" in m && m["species"] == p.species
      && "images" in m && m["images"] == p.images
      && "wn_cluster_id" in m && m["wn_cluster_id"] == p.clusterId
  {
    IdKeysAreLiteral();
    BaseIds(p, o);
    BaseImages(p, o);
    BuildKeepsBaseFields(p, o, "wn_id");
    BuildKeepsBaseFields(p, o, "species");
    BuildKeepsBaseFields(p, o, "images");
    BuildKeepsBaseFields(p, o, "wn_cluster_id");
  }

  /** Likewise the point, the observation time, the municipality and its
      province. */
  lemma PlaceAndTimeFields(p: Prepared, o: Oracles)
    requires Assemblable(p)
    ensures var m := Build(p, o);
      "location" in m && m["location"] == p.location
      && "observation_datetime" in m && m["observation_datetime"] == PyDatetime(p.observationDatetime)
      && "municipality" in m && m["municipality"] == p.municipality
      && "province" in m && m["province"] == p.province
  {
    PlaceKeysAreLiteral();
    BasePlace(p, o);
    BaseRegion(p, o);
    BuildKeepsBaseFields(p, o, "location");
    BuildKeepsBaseFields(p, o, "observation_datetime");
    BuildKeepsBaseFields(p, o, "municipality");
    BuildKeepsBaseFields(p, o, "province");
  }

  /** A municipality brings its province; without one the province is None. */
  lemma ProvinceFollowsMunicipality(municipality: PyValue, o: Oracles)
    ensures municipality == PyNone ==> Province(municipality, o) == PyNone
    ensures municipality.PyRef? ==> Province(municipality, o) == o.provinceOf(municipality)
  {
  }

  /** The cluster id is the nest's "id" when the nest is a non-empty object,
      and None when the nest is absent, None or empty. */
  lemma ClusterFromNest(nest: PyValue)
    requires !Truthy(nest) || nest.PyDict?
    ensures nest == PyNone || nest == PyDict(map[]) ==> ClusterId(nest) == PyNone
    ensures nest.PyDict? && "id" in nest.entries ==> ClusterId(nest) == nest.entries["id"]
  {
  }

  /** The keyword rule: the eradication fields are set exactly when the notes
      mention a keyword, to the observation time and the fixed name. */
  lemma KeywordRule(p: Prepared, o: Oracles)
    requires Assemblable(p)
    ensures var m := Build(p, o);
      ("eradication_date" in m <==> p.eradicated) && ("eradicator_name" in m <==> p.eradicated)
      && (p.eradicated ==>
            m["eradication_date"] == m["observation_datetime"] && m["eradicator_name"] == PyStr(ERADICATOR_NAME))
  {
    PlaceAndTimeFields(p, o);
    BaseLacksEradication(p, o);
    AddedAreNotEnumFields();
    SpreadLacks(BaseFields(p, o), p.enums, "eradication_date");
    SpreadLacks(BaseFields(p, o), p.enums, "eradicator_name");
    EradicationStep(Spread(BaseFields(p, o), p.enums), p.observer, p.eradicated, p.observationDatetime);
  }

  /** The observer fields are there exactly when there is user data, and
      then hold the user's phone number, email and name. */
  lemma ObserverFieldsFromUser(p: Prepared, o: Oracles)
    requires Assemblable(p)
    ensures var m := Build(p, o);
      ("observer_email" in m <==> p.observer.Some?)
      && ("observer_name" in m <==> p.observer.Some?)
      && ("observer_phone_number" in m <==> p.observer.Some?)
      && (p.observer.Some? ==>
            m["observer_email"] == Field(p.observer.value, "email") && m["observer_name"] == Field(p.observer.value, "name")
            && m["observer_phone_number"] == Field(p.observer.value, "phone_number"))
  {
    BaseLacksAdded(p, o);
    AddedAreNotEnumFields();
    SpreadLacks(BaseFields(p, o), p.enums, "observer_phone_number");
    SpreadLacks(BaseFields(p, o), p.enums, "observer_email");
    SpreadLacks(BaseFields(p, o), p.enums, "observer_name");
    ObserverStep(Spread(BaseFields(p, o), p.enums), p.observer, p.eradicated, p.observationDatetime);
  }

  /** A missing time, a None time and "00:00:00" map alike. */
  lemma TimeDefaultsToMidnight(data: Record, keywords: seq<string>, o: Oracles)
    ensures MapExternalData(data - {"time"}, keywords, o) == MapExternalData(data["time" := PyNone], keywords, o)
    ensures MapExternalData(data - {"time"}, keywords, o) == MapExternalData(data["time" := PyStr(DEFAULT_TIME)], keywords, o)
  {
    TimeIgnored(data - {"time"}, data["time" := PyNone], keywords, o);
    TimeIgnored(data - {"time"}, data["time" := PyStr(DEFAULT_TIME)], keywords, o);
  }

  /** d and e differ at most in "time". */
  predicate SameButTime(d: Record, e: Record) {
    d.Keys - {"time"} == e.Keys - {"time"} && forall k :: k in d && k in e && k != "time" ==> d[k] == e[k]
  }

  /** Records that differ at most in "time" read alike elsewhere. */
  lemma FieldsButTime(d: Record, e: Record)
    requires SameButTime(d, e)
    ensures forall k :: k != "time" ==> (k in d <==> k in e) && Field(d, k) == Field(e, k)
    ensures forall k, dflt :: k != "time" ==> FieldOr(d, k, dflt) == FieldOr(e, k, dflt)
  {
    forall k | k != "time"
      ensures (k in d <==> k in e) && Field(d, k) == Field(e, k)
    {
      assert k in d <==> k in d.Keys - {"time"};
      assert k in e <==> k in e.Keys - {"time"};
    }
  }

  /** ... and pass or fail the same checks. */
  lemma ChecksButTime(d: Record, e: Record, keywords: seq<string>, o: Oracles)
    requires SameButTime(d, e) && ObservationTime(d) == ObservationTime(e)
    ensures MissingRequired(d) == MissingRequired(e) && ParseFails(d, o) == ParseFails(e, o)
    ensures MappingError(d, keywords, o) == MappingError(e, keywords, o)
    ensures NotesMentionKeyword(d, keywords) == NotesMentionKeyword(e, keywords)
  {
    FieldsButTime(d, e);
    assert MissingRequired(d) == MissingRequired(e) by {
      assert forall f :: f in REQUIRED_FIELDS ==> f != "time";
    }
  }

  /** ... and prepare the same values. */
  lemma PreparedButTime(d: Record, e: Record, keywords: seq<string>, o: Oracles)
    requires SameButTime(d, e) && ObservationTime(d) == ObservationTime(e)
    requires !ParseFails(d, o) && MappingError(d, keywords, o).None?
    requires !ParseFails(e, o) && MappingError(e, keywords, o).None?
    ensures Prepare(d, keywords, o) == Prepare(e, keywords, o)
  {
    FieldsButTime(d, e);
    assert NotesMentionKeyword(d, keywords) == NotesMentionKeyword(e, keywords);
  }

  /** Two records that differ at most in "time", with the same observation
      time, map alike. */
  lemma TimeIgnored(d: Record, e: Record, keywords: seq<string>, o: Oracles)
    requires SameButTime(d, e) && ObservationTime(d) == ObservationTime(e)
    ensures MapExternalData(d, keywords, o) == MapExternalData(e, keywords, o)
  {
    ChecksButTime(d, e, keywords, o);
    if Maps(d, keywords, o) {
      PreparedButTime(d, e, keywords, o);
    }
  }
}

/** The older mapper (vespadb/observations/observation_mapper.py), which the
    legacy sync task in vespadb/observations/tasks.py uses. It differs from
    the newer one in three ways: enum values are keyed by the API attribute
    name, the user object is always read (so every record gets observer
    fields), and the eradication locals are bound only when the notes hold a
    keyword, yet read unconditionally at the end.

    The oracle parseObservationDatetime stands here for the strptime of
    "date" T "time" with the format %Y-%m-%dT%H:%M:%S in Europe/Paris. */
module LegacyObservationMapper {
  import opened Wrappers
  import opened Text
  import opened Records
  import OM = ObservationMapper

  const ERADICATION_KEYWORD_LIST: seq<string> := ["BESTREDEN"]

  /** "notes" is present but has no upper(): the keyword loop raises. */
  predicate NotesNotText(data: Record) {
    "notes" in data && !data["notes"].PyStr?
  }

  /** The keyword loop finds a keyword in the upper-cased notes. */
  predicate KeywordFound(data: Record) {
    "notes" in data && data["notes"].PyStr?
    && exists k :: k in ERADICATION_KEYWORD_LIST && Contains(AsciiUpper(data["notes"].s), k)
  }

  /** Where the mapper stops before it assembles mapped_data, in the order it
      meets the checks: None for a missing field or a date that does not
      parse, an exception for notes without upper(), a point without
      coordinates, attributes it cannot iterate and a user without get().
      None when every check passes. */
  function Halt(data: Record, o: OM.Oracles): Option<Result<Option<Record>, string>> {
    if OM.MissingRequired(data) then Some(Success(None))
    else if o.parseObservationDatetime(Field(data, "date"), OM.ObservationTime(data)).None? then Some(Success(None))
    else if NotesNotText(data) then Some(Failure("AttributeError"))
    else if o.parseIso(Field(data, "created")).None? || o.parseIso(Field(data, "modified")).None? then Some(Success(None))
    else if o.pointOf(Field(data, "point")).None? then Some(Failure("KeyError"))
    else if OM.AttributeRecords(FieldOr(data, "attributes", PyDict(map[]))).None? then Some(Failure("AttributeError"))
    else if !FieldOr(data, "user", PyDict(map[])).PyDict? then Some(Failure("AttributeError"))
    else None
  }

  /** The values the older mapper assembles; `eradication` is the raw date
      value when the keyword loop bound it and it is truthy. */
  datatype Prepared = Prepared(
    wnId: PyValue, source: PyValue, species: PyValue,
    observationDatetime: int, created: int, modified: int,
    notes: PyValue, adminNotes: PyValue, images: PyValue,
    location: PyValue, anb: PyValue, municipality: PyValue, province: PyValue,
    cluster: PyValue, validationStatus: PyValue, user: Record,
    enums: Record, eradication: Option<PyValue>)

  /** The attribute name itself: the older mapper's key. */
  function NameKey(name: string): string {
    name
  }

  /** The enum values keyed by attribute name. */
  function NamedEnumsOf(attributes: seq<Record>, o: OM.Oracles): Record {
    OM.Fill(attributes, NameKey, a => OM.Contribution(a, o))
  }

  function Prepare(data: Record, o: OM.Oracles): Prepared
    requires Halt(data, o).None?
  {
    var location := o.pointOf(Field(data, "point")).value;
    var municipality := o.municipalityOf(location);
    var validation := OM.MapValidationStatus(FieldOr(data, "validation_status", PyStr("O")));
    Prepared(
      Field(data, "id"), Field(data, "source"), FieldOr(data, "species", PyInt(0)),
      o.parseObservationDatetime(Field(data, "date"), OM.ObservationTime(data)).value,
      o.parseIso(Field(data, "created")).value, o.parseIso(Field(data, "modified")).value,
      FieldOr(data, "notes", PyStr("")), FieldOr(data, "admin_notes", PyStr("")),
      FieldOr(data, "photos", PyList([])),
      location, o.anbOf(location), municipality, OM.Province(municipality, o),
      Field(data, "nest"),
      if validation.Some? then PyStr(validation.value) else PyNone,
      FieldOr(data, "user", PyDict(map[])).entries,
      NamedEnumsOf(OM.AttributeRecords(FieldOr(data, "attributes", PyDict(map[]))).value, o),
      if KeywordFound(data) && Truthy(Field(data, "date")) then Some(Field(data, "date")) else None)
  }

  /** The literal part of mapped_data. */
  function BaseFields(p: Prepared): Record {
    map[
      "wn_id" := p.wnId,
      "location" := p.location,
      "source" := p.source,
      "species" := p.species,
      "observation_datetime" := PyDatetime(p.observationDatetime),
      "wn_created_datetime" := PyDatetime(p.created),
      "wn_modified_datetime" := PyDatetime(p.modified),
      "wn_notes" := p.notes,
      "wn_admin_notes" := p.adminNotes,
      "images" := p.images,
      "anb" := p.anb,
      "municipality" := p.municipality,
      "province" := p.province,
      "wn_cluster_id" := p.cluster,
      "wn_validation_status" := p.validationStatus,
      "observer_phone_number" := Field(p.user, "phone_number"),
      "observer_email" := Field(p.user, "email"),
      "observer_name" := Field(p.user, "name")
    ]
  }

  /** Enum values sit under attribute names only. */
  predicate Assemblable(p: Prepared) {
    forall k :: k in p.enums ==> k in OM.ENUM_FIELD_MAPPING
  }

  /** The two fields the keyword branch adds. */
  predicate Added(k: string) {
    k == "eradication_datetime" || k == "eradicator_name"
  }

  /** `{**base, **enums}`, then the eradication fields when they are bound. */
  function Assemble(base: Record, enums: Record, eradication: Option<PyValue>): Record {
    var m := OM.Spread(base, enums);
    match eradication
    case Some(date) => m["eradication_datetime" := date]["eradicator_name" := PyStr(OM.ERADICATOR_NAME)]
    case None => m
  }

  /** mapped_data. */
  function Build(p: Prepared): Record {
    Assemble(BaseFields(p), p.enums, p.eradication)
  }

  /** The mapper as written: past the checks, a record whose notes hold no
      keyword reaches `if eradication_datetime` with the local unbound. */
  function MapAsWritten(data: Record, o: OM.Oracles): (r: Result<Option<Record>, string>)
    ensures OM.MissingRequired(data) ==> r == Success(None)
    ensures r.Success? && r.value.Some? <==> Halt(data, o).None? && KeywordFound(data)
  {
    match Halt(data, o)
    case Some(outcome) => outcome
    case None =>
      if !KeywordFound(data) then Failure("UnboundLocalError")
      else Success(Some(Build(Prepare(data, o))))
  }

  /** The mapper as evidently intended: the eradication fields are added when
      the keyword loop bound them, and left out otherwise. */
  function MapExternalData(data: Record, o: OM.Oracles): (r: Result<Option<Record>, string>)
    ensures OM.MissingRequired(data) ==> r == Success(None)
    ensures r.Success? && r.value.Some? <==> Halt(data, o).None?
  {
    match Halt(data, o)
    case Some(outcome) => outcome
    case None => Success(Some(Build(Prepare(data, o))))
  }

  /** Past the checks, the intended mapper returns the assembled record, and
      so does the mapper as written when the notes hold a keyword. */
  lemma MapsToBuild(data: Record, o: OM.Oracles)
    requires Halt(data, o).None?
    ensures Assemblable(Prepare(data, o))
    ensures MapExternalData(data, o) == Success(Some(Build(Prepare(data, o))))
    ensures KeywordFound(data) ==> MapAsWritten(data, o) == MapExternalData(data, o)
    ensures !KeywordFound(data) ==> Prepare(data, o).eradication.None?
  {
    PreparedAssemblable(data, o);
  }

  /** The two differ exactly on records that pass every check without a
      keyword: as written they raise, as intended they map without the
      eradication fields. Elsewhere they agree. */
  lemma AsWrittenNeedsKeyword(data: Record, o: OM.Oracles)
    ensures Halt(data, o).None? && !KeywordFound(data) ==>
      MapAsWritten(data, o) == Failure("UnboundLocalError")
      && MapExternalData(data, o).Success? && MapExternalData(data, o).value.Some?
      && "eradication_datetime" !in MapExternalData(data, o).value.value
    ensures Halt(data, o).Some? || KeywordFound(data) ==> MapAsWritten(data, o) == MapExternalData(data, o)
  {
    if Halt(data, o).None? {
      MapsToBuild(data, o);
      EradicationFields(Prepare(data, o));
    }
  }

  /** The enum values keyed by model field, as the newer mapper keys them. */
  function FieldEnumsOf(data: Record, o: OM.Oracles): Record
    requires Halt(data, o).None?
  {
    OM.EnumsOf(OM.AttributeRecords(FieldOr(data, "attributes", PyDict(map[]))).value, OM.FieldKey, o)
  }

  /** The older mapper with both defects mended: the eradication fields are
      added only when the keyword loop bound them, and each enum value is
      keyed by its model field, so that every key is a keyword
      `Observation(...)` accepts. */
  function MapByField(data: Record, o: OM.Oracles): (r: Result<Option<Record>, string>)
    ensures OM.MissingRequired(data) ==> r == Success(None)
    ensures r.Success? && r.value.Some? <==> Halt(data, o).None?
  {
    match Halt(data, o)
    case Some(outcome) => outcome
    case None => Success(Some(Build(Prepare(data, o).(enums := FieldEnumsOf(data, o)))))
  }

  /** An attribute name is neither a model field of the enums nor one of
      the keyword branch's fields. */
  lemma NameIsNoField(name: string)
    requires name in OM.ENUM_FIELD_MAPPING
    ensures name !in OM.ENUM_FIELDS && !Added(name)
  {
  }

  /** No attribute name is a literal key of mapped_data. */
  lemma BaseLacksNames(p: Prepared, name: string)
    requires name in OM.ENUM_FIELD_MAPPING
    ensures name !in BaseFields(p)
  {
  }

  /** The corrected mapper never keys a value by an attribute name. */
  lemma ByFieldLacksNames(data: Record, o: OM.Oracles, name: string)
    requires Halt(data, o).None? && name in OM.ENUM_FIELD_MAPPING
    ensures name !in MapByField(data, o).value.value
  {
    var p := Prepare(data, o).(enums := FieldEnumsOf(data, o));
    NameIsNoField(name);
    BaseLacksNames(p, name);
    OM.NotAnEnumKey(OM.AttributeRecords(FieldOr(data, "attributes", PyDict(map[]))).value, o, name);
    AssembleKeeps(BaseFields(p), p.enums, p.eradication, name);
  }

  /** As written, a record whose notes hold a keyword and one of whose
      attributes matches into a model field comes back with the attribute's
      name as a key: the value is keyed by "Nesthoogte", not "nest_height". */
  lemma MatchedNameIsKey(data: Record, o: OM.Oracles, name: string, j: nat)
    requires Halt(data, o).None? && KeywordFound(data) && name in OM.ENUM_FIELD_MAPPING
    requires var attributes := OM.AttributeRecords(FieldOr(data, "attributes", PyDict(map[]))).value;
             j < |attributes| && OM.MatchesInto(attributes[j], o, OM.ENUM_FIELD_MAPPING[name])
    ensures MapAsWritten(data, o).Success? && MapAsWritten(data, o).value.Some?
    ensures name in MapAsWritten(data, o).value.value
  {
    var attributes := OM.AttributeRecords(FieldOr(data, "attributes", PyDict(map[]))).value;
    OM.EnumsOfFilledByMatches(attributes, o, OM.ENUM_FIELD_MAPPING[name]);
    KeyedByName(attributes, o, name);
    var p := Prepare(data, o);
    NameIsNoField(name);
    assert name in OM.Spread(BaseFields(p), p.enums);
  }

  /** Assembling with two sets of enum values gives the same key and value
      wherever neither set has the key. */
  lemma AssembleIgnoresEnums(base: Record, e1: Record, e2: Record, eradication: Option<PyValue>, k: string)
    requires k !in e1 && k !in e2
    ensures (k in Assemble(base, e1, eradication) <==> k in Assemble(base, e2, eradication))
    ensures k in Assemble(base, e1, eradication) ==> Assemble(base, e1, eradication)[k] == Assemble(base, e2, eradication)[k]
  {
    OM.SpreadLookup(base, e1, k);
    OM.SpreadLookup(base, e2, k);
  }

  /** The corrected mapper renames the enum keys: an attribute name is a key
      of the older mapper's record exactly when its model field is a key of
      the corrected one. */
  lemma ByFieldRenames(data: Record, o: OM.Oracles, name: string)
    requires Halt(data, o).None? && name in OM.ENUM_FIELD_MAPPING
    ensures name in MapExternalData(data, o).value.value <==> OM.ENUM_FIELD_MAPPING[name] in MapByField(data, o).value.value
  {
    var attributes := OM.AttributeRecords(FieldOr(data, "attributes", PyDict(map[]))).value;
    var p := Prepare(data, o);
    var q := p.(enums := FieldEnumsOf(data, o));
    var field := OM.ENUM_FIELD_MAPPING[name];
    MapsToBuild(data, o);
    KeyedByName(attributes, o, name);
    NameIsNoField(name);
    BaseLacksNames(p, name);
    FieldIsNoName(q, field);
    AssembleEnumKey(BaseFields(p), p.enums, p.eradication, name);
    AssembleEnumKey(BaseFields(q), q.enums, q.eradication, field);
  }

  /** An enum field is neither a literal key nor one the keyword branch adds. */
  lemma FieldIsNoName(p: Prepared, field: string)
    requires field in OM.ENUM_FIELDS
    ensures !Added(field) && field !in BaseFields(p)
  {
    assert "eradication_datetime" !in OM.ENUM_FIELDS && "eradicator_name" !in OM.ENUM_FIELDS;
    assert field[0] == 'n' || field[0] == 'e';
    assert forall k :: k in BaseFields(p) ==> k[0] != 'n' && k[0] != 'e';
  }

  /** A key the base and the keyword branch lack is present exactly when the
      enums hold it. */
  lemma AssembleEnumKey(base: Record, enums: Record, eradication: Option<PyValue>, k: string)
    requires k !in base && !Added(k)
    ensures k in Assemble(base, enums, eradication) <==> k in enums
  {
  }

  /** ... and changes nothing else: every key that is neither an attribute
      name nor an enum field has the same value in both records. */
  lemma ByFieldKeepsOthers(data: Record, o: OM.Oracles, k: string)
    requires Halt(data, o).None?
    requires k !in OM.ENUM_FIELD_MAPPING && k !in OM.ENUM_FIELDS
    ensures var named := MapExternalData(data, o).value.value;
            var byField := MapByField(data, o).value.value;
            && (k in named <==> k in byField)
            && (k in named ==> named[k] == byField[k])
  {
    var attributes := OM.AttributeRecords(FieldOr(data, "attributes", PyDict(map[]))).value;
    var p := Prepare(data, o);
    MapsToBuild(data, o);
    NamedKeysAreAttributeNames(attributes, o, k);
    OM.NotAnEnumKey(attributes, o, k);
    AssembleIgnoresEnums(BaseFields(p), p.enums, FieldEnumsOf(data, o), p.eradication, k);
  }

  /** Oracles under which every check passes: each date parses, and a point
      object with coordinates gives its Point. */
  function Succeeding(): OM.Oracles {
    OM.Oracles(
      (date, time) => Some(0), v => Some(0),
      (v: PyValue) => if v.PyDict? && "coordinates" in v.entries then Some(PyPoint("4.4", "51.2")) else None,
      v => PyBool(false), v => PyNone, v => PyNone, (name, value) => None, v => "")
  }

  /** The GeoJSON point of the record below. */
  function Location(): PyValue {
    PyDict(map["type" := PyStr("Point"), "coordinates" := PyList([PyStr("4.4"), PyStr("51.2")])])
  }

  /** A record without notes: every required field is there and parses. */
  function RecordWithoutNotes(): Record {
    map[
      "id" := PyInt(1), "date" := PyStr("2024-05-01"), "point" := Location(),
      "created" := PyStr("2024-05-01T10:00:00"), "modified" := PyStr("2024-05-01T10:00:00"),
      "species" := PyInt(1)
    ]
  }

  lemma WithoutNotesHasRequired()
    ensures !OM.MissingRequired(RecordWithoutNotes())
  {
    var data := RecordWithoutNotes();
    forall f | f in OM.REQUIRED_FIELDS
      ensures f in data && data[f] != PyNone
    {
    }
  }

  lemma WithoutNotesLacks()
    ensures var data := RecordWithoutNotes();
      "notes" !in data && "attributes" !in data && "user" !in data
  {
  }

  /** A record with every required field, no notes, attributes or user,
      whose dates parse and whose point has coordinates, passes every check. */
  lemma PassesWithoutOptionalFields(data: Record, o: OM.Oracles)
    requires !OM.MissingRequired(data)
    requires "notes" !in data && "attributes" !in data && "user" !in data
    requires o.parseObservationDatetime(Field(data, "date"), OM.ObservationTime(data)).Some?
    requires o.parseIso(Field(data, "created")).Some? && o.parseIso(Field(data, "modified")).Some?
    requires o.pointOf(Field(data, "point")).Some?
    ensures Halt(data, o).None? && !KeywordFound(data)
  {
    AbsentNotesPass(data);
    AbsentDictsPass(data);
  }

  lemma AbsentNotesPass(data: Record)
    requires "notes" !in data
    ensures !NotesNotText(data) && !KeywordFound(data)
  {
  }

  lemma AbsentDictsPass(data: Record)
    requires "attributes" !in data && "user" !in data
    ensures OM.AttributeRecords(FieldOr(data, "attributes", PyDict(map[]))) == Some([])
    ensures FieldOr(data, "user", PyDict(map[])).PyDict?
  {
  }

  /** The record passes every check, and its notes hold no keyword. */
  lemma WithoutNotesPasses()
    ensures Halt(RecordWithoutNotes(), Succeeding()).None?
    ensures !KeywordFound(RecordWithoutNotes())
  {
    WithoutNotesHasRequired();
    WithoutNotesLacks();
    PassesWithoutOptionalFields(RecordWithoutNotes(), Succeeding());
  }

  /** The counterexample: as written the record raises, as intended it maps. */
  lemma UnboundOnRecordWithoutNotes()
    ensures MapAsWritten(RecordWithoutNotes(), Succeeding()) == Failure("UnboundLocalError")
    ensures MapExternalData(RecordWithoutNotes(), Succeeding()).Success?
    ensures MapExternalData(RecordWithoutNotes(), Succeeding()).value.Some?
  {
    WithoutNotesPasses();
    AsWrittenNeedsKeyword(RecordWithoutNotes(), Succeeding());
  }

  /** Keys the named enums produce are attribute names of ENUMS_MAPPING. */
  lemma NamedKeysAreAttributeNames(attributes: seq<Record>, o: OM.Oracles, k: string)
    ensures k in NamedEnumsOf(attributes, o) ==> k in OM.ENUM_FIELD_MAPPING
  {
    if k in NamedEnumsOf(attributes, o) {
      OM.FillKeys(attributes, NameKey, a => OM.Contribution(a, o), k);
      var i :| 0 <= i < |attributes| && OM.Contributes(attributes[i], NameKey, a => OM.Contribution(a, o), k);
    }
  }

  /** The older mapper keys a matched value by the attribute's name where the
      newer keys it by the model field: the name is present here exactly when
      its model field is present there. */
  lemma KeyedByName(attributes: seq<Record>, o: OM.Oracles, name: string)
    requires name in OM.ENUM_FIELD_MAPPING
    ensures name in NamedEnumsOf(attributes, o) <==> OM.ENUM_FIELD_MAPPING[name] in OM.EnumsOf(attributes, OM.FieldKey, o)
  {
    var contribute := a => OM.Contribution(a, o);
    var field := OM.ENUM_FIELD_MAPPING[name];
    OM.FillKeys(attributes, NameKey, contribute, name);
    OM.FillKeys(attributes, OM.FieldKey, contribute, field);
    forall i | 0 <= i < |attributes|
      ensures OM.Contributes(attributes[i], NameKey, contribute, name)
          <==> OM.Contributes(attributes[i], OM.FieldKey, contribute, field)
    {
      if OM.Contributes(attributes[i], OM.FieldKey, contribute, field) {
        var n := contribute(attributes[i]).value.0;
        FieldsAreDistinct(n, name);
      }
    }
  }

  /** ENUM_FIELD_MAPPING sends different names to different fields. */
  lemma FieldsAreDistinct(a: string, b: string)
    requires a in OM.ENUM_FIELD_MAPPING && b in OM.ENUM_FIELD_MAPPING
    requires OM.ENUM_FIELD_MAPPING[a] == OM.ENUM_FIELD_MAPPING[b]
    ensures a == b
  {
  }

  lemma PreparedAssemblable(data: Record, o: OM.Oracles)
    requires Halt(data, o).None?
    ensures Assemblable(Prepare(data, o))
  {
    var p := Prepare(data, o);
    var attributes := OM.AttributeRecords(FieldOr(data, "attributes", PyDict(map[]))).value;
    forall k | k in p.enums
      ensures k in OM.ENUM_FIELD_MAPPING
    {
      NamedKeysAreAttributeNames(attributes, o, k);
    }
  }

  /** What a mapped record's prepared values are: the copied fields with
      their defaults, the nest value itself as cluster id, the user object,
      the enums keyed by name, and the raw date value as eradication date
      when the notes hold a keyword and the date is truthy. */
  lemma PreparedFromData(data: Record, o: OM.Oracles)
    requires Halt(data, o).None?
    ensures var p := Prepare(data, o);
      Assemblable(p)
      && p.wnId == Field(data, "id") && p.species == FieldOr(data, "species", PyInt(0))
      && p.notes == FieldOr(data, "notes", PyStr("")) && p.images == FieldOr(data, "photos", PyList([]))
      && p.cluster == Field(data, "nest")
      && PyDict(p.user) == FieldOr(data, "user", PyDict(map[]))
      && p.enums == NamedEnumsOf(OM.AttributeRecords(FieldOr(data, "attributes", PyDict(map[]))).value, o)
      && (p.eradication.Some? <==> KeywordFound(data) && Truthy(Field(data, "date")))
      && (p.eradication.Some? ==> p.eradication.value == Field(data, "date"))
  {
    PreparedAssemblable(data, o);
    PreparedCopies(data, o);
    PreparedEradication(data, o);
  }

  lemma PreparedCopies(data: Record, o: OM.Oracles)
    requires Halt(data, o).None?
    ensures var p := Prepare(data, o);
      p.wnId == Field(data, "id") && p.species == FieldOr(data, "species", PyInt(0))
      && p.notes == FieldOr(data, "notes", PyStr("")) && p.images == FieldOr(data, "photos", PyList([]))
      && p.cluster == Field(data, "nest")
      && PyDict(p.user) == FieldOr(data, "user", PyDict(map[]))
  {
    PreparedIds(data, o);
    PreparedTexts(data, o);
  }

  lemma PreparedIds(data: Record, o: OM.Oracles)
    requires Halt(data, o).None?
    ensures var p := Prepare(data, o);
      p.wnId == Field(data, "id") && p.species == FieldOr(data, "species", PyInt(0)) && p.cluster == Field(data, "nest")
  {
  }

  lemma PreparedTexts(data: Record, o: OM.Oracles)
    requires Halt(data, o).None?
    ensures var p := Prepare(data, o);
      p.notes == FieldOr(data, "notes", PyStr("")) && p.images == FieldOr(data, "photos", PyList([]))
      && PyDict(p.user) == FieldOr(data, "user", PyDict(map[]))
  {
  }

  lemma PreparedEradication(data: Record, o: OM.Oracles)
    requires Halt(data, o).None?
    ensures var p := Prepare(data, o);
      (p.eradication.Some? <==> KeywordFound(data) && Truthy(Field(data, "date")))
      && (p.eradication.Some? ==> p.eradication.value == Field(data, "date"))
  {
  }

  /** Assembling keeps a key that neither the enums nor the keyword branch fill. */
  lemma AssembleKeeps(base: Record, enums: Record, eradication: Option<PyValue>, k: string)
    requires k !in enums && !Added(k)
    ensures k in Assemble(base, enums, eradication) <==> k in base
    ensures k in base ==> Assemble(base, enums, eradication)[k] == base[k]
  {
    OM.SpreadLookup(base, enums, k);
  }

  /** Outside the enum and eradication keys, the assembled record holds the
      literal fields. */
  lemma BuildKeepsBaseFields(p: Prepared, k: string)
    requires Assemblable(p) && k !in OM.ENUM_FIELD_MAPPING && !Added(k)
    ensures k in Build(p) <==> k in BaseFields(p)
    ensures k in BaseFields(p) ==> Build(p)[k] == BaseFields(p)[k]
  {
    AssembleKeeps(BaseFields(p), p.enums, p.eradication, k);
  }

  lemma ObserverKeysAreLiteral()
    ensures "observer_phone_number" !in OM.ENUM_FIELD_MAPPING && !Added("observer_phone_number")
    ensures "observer_email" !in OM.ENUM_FIELD_MAPPING && !Added("observer_email")
    ensures "observer_name" !in OM.ENUM_FIELD_MAPPING && !Added("observer_name")
  {
  }

  lemma CopiedKeysAreLiteral()
    ensures "wn_id" !in OM.ENUM_FIELD_MAPPING && !Added("wn_id") && "species" !in OM.ENUM_FIELD_MAPPING && !Added("species")
    ensures "wn_notes" !in OM.ENUM_FIELD_MAPPING && !Added("wn_notes") && "images" !in OM.ENUM_FIELD_MAPPING && !Added("images")
    ensures "wn_cluster_id" !in OM.ENUM_FIELD_MAPPING && !Added("wn_cluster_id")
  {
  }

  lemma BaseObserver(p: Prepared)
    ensures var b := BaseFields(p);
      "observer_phone_number" in b && b["observer_phone_number"] == Field(p.user, "phone_number")
      && "observer_email" in b && b["observer_email"] == Field(p.user, "email")
      && "observer_name" in b && b["observer_name"] == Field(p.user, "name")
  {
  }

  lemma BaseIds(p: Prepared)
    ensures var b := BaseFields(p);
      "wn_id" in b && b["wn_id"] == p.wnId && "species" in b && b["species"] == p.species
  {
  }

  lemma BaseNotes(p: Prepared)
    ensures var b := BaseFields(p);
      "wn_notes" in b && b["wn_notes"] == p.notes && "images" in b && b["images"] == p.images
  {
  }

  lemma BaseCluster(p: Prepared)
    ensures var b := BaseFields(p);
      "wn_cluster_id" in b && b["wn_cluster_id"] == p.cluster
  {
  }

  lemma BaseLacksEradication(p: Prepared)
    ensures var b := BaseFields(p);
      "eradication_datetime" !in b && "eradicator_name" !in b
  {
  }

  lemma EradicationKeysAreNotNames()
    ensures "eradication_datetime" !in OM.ENUM_FIELD_MAPPING && "eradicator_name" !in OM.ENUM_FIELD_MAPPING
  {
  }

  /** Every record carries the observer fields, None when the user object
      lacks them. */
  lemma ObserverFieldsAlways(p: Prepared)
    requires Assemblable(p)
    ensures var m := Build(p);
      "observer_phone_number" in m && m["observer_phone_number"] == Field(p.user, "phone_number")
      && "observer_email" in m && m["observer_email"] == Field(p.user, "email")
      && "observer_name" in m && m["observer_name"] == Field(p.user, "name")
  {
    ObserverKeysAreLiteral();
    BaseObserver(p);
    BuildKeepsBaseFields(p, "observer_phone_number");
    BuildKeepsBaseFields(p, "observer_email");
    BuildKeepsBaseFields(p, "observer_name");
  }

  /** The copied fields: id, species, notes, photos, and the whole nest
      value as cluster id. */
  lemma CopiedFields(p: Prepared)
    requires Assemblable(p)
    ensures var m := Build(p);
      "wn_id" in m && m["wn_id"] == p.wnId
      && "species" in m && m["species"] == p.species
      && "wn_notes" in m && m["wn_notes"] == p.notes
      && "images" in m && m["images"] == p.images
      && "wn_cluster_id" in m && m["wn_cluster_id"] == p.cluster
  {
    CopiedKeysAreLiteral();
    BaseIds(p);
    BaseNotes(p);
    BaseCluster(p);
    BuildKeepsBaseFields(p, "wn_id");
    BuildKeepsBaseFields(p, "species");
    BuildKeepsBaseFields(p, "wn_notes");
    BuildKeepsBaseFields(p, "images");
    BuildKeepsBaseFields(p, "wn_cluster_id");
  }

  /** The eradication fields are there exactly when the locals were bound,
      holding the raw date and the fixed name. */
  lemma EradicationFields(p: Prepared)
    requires Assemblable(p)
    ensures var m := Build(p);
      ("eradication_datetime" in m <==> p.eradication.Some?)
      && ("eradicator_name" in m <==> p.eradication.Some?)
      && (p.eradication.Some? ==>
            m["eradication_datetime"] == p.eradication.value && m["eradicator_name"] == PyStr(OM.ERADICATOR_NAME))
  {
    BaseLacksEradication(p);
    EradicationKeysAreNotNames();
    OM.SpreadLacks(BaseFields(p), p.enums, "eradication_datetime");
    OM.SpreadLacks(BaseFields(p), p.enums, "eradicator_name");
  }
}

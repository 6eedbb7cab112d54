/** The observation filters of vespadb/observations/filters.py: the nest
    status and nest type filters of the API, and two admin list filters. A
    queryset is a sequence of records; filtering keeps the order. */
module NestFilters {
  import opened Wrappers
  import opened Records

  // ----------------------------------------------------------- nest status

  /** The four statuses filter_nest_status recognises, in the order it tests them. */
  datatype StatusTerm = EradicatedTerm | VisitedTerm | ReservedTerm | OpenTerm

  function TermName(t: StatusTerm): string {
    match t
    case EradicatedTerm => "eradicated"
    case VisitedTerm => "visited"
    case ReservedTerm => "reserved"
    case OpenTerm => "open"
  }

  /** The Q object each recognised status contributes. */
  predicate TermHolds(t: StatusTerm, r: Record) {
    match t
    case EradicatedTerm => Field(r, "eradication_date") != PyNone
    case VisitedTerm =>
      Field(r, "eradication_result") != PyNone && Field(r, "eradication_result") != PyStr("successful")
    case ReservedTerm => Field(r, "reserved_datetime") != PyNone
    case OpenTerm => Field(r, "reserved_datetime") == PyNone && Field(r, "eradication_date") == PyNone
  }

  /** The recognised statuses present in the request value, in test order. */
  function SelectedTerms(value: seq<string>): (terms: seq<StatusTerm>)
    ensures forall t :: t in terms <==> TermName(t) in value
  {
    var e := if "eradicated" in value then [EradicatedTerm] else [];
    var v := if "visited" in value then [VisitedTerm] else [];
    var r := if "reserved" in value then [ReservedTerm] else [];
    var o := if "open" in value then [OpenTerm] else [];
    e + v + r + o
  }

  /** The OR-fold of the terms onto `Q()`: an empty Q matches every record. */
  predicate QueryMatches(terms: seq<StatusTerm>, r: Record) {
    terms == [] || exists t :: t in terms && TermHolds(t, r)
  }

  /** ObservationFilter.filter_nest_status. */
  function FilterNestStatus(records: seq<Record>, value: seq<string>): (r: seq<Record>)
    ensures value == [] ==> r == records
    ensures value != [] ==> forall x :: x in r <==> x in records && QueryMatches(SelectedTerms(value), x)
  {
    if value == [] then records
    else
      var terms := SelectedTerms(value);
      Where(records, x => QueryMatches(terms, x))
  }

  /** The selection is a union: a record passes when one of the selected
      statuses it names holds for it. */
  lemma NestStatusIsUnion(records: seq<Record>, value: seq<string>, x: Record)
    requires value != [] && exists t :: TermName(t) in value
    ensures x in FilterNestStatus(records, value)
      <==> x in records && exists t :: TermName(t) in value && TermHolds(t, x)
  {
    var terms := SelectedTerms(value);
    if x in records && (exists t :: TermName(t) in value && TermHolds(t, x)) {
      var t :| TermName(t) in value && TermHolds(t, x);
      assert t in terms;
    }
  }

  /** A non-empty value made only of unrecognised statuses filters nothing out. */
  lemma UnrecognisedStatusesKeepAll(records: seq<Record>, value: seq<string>)
    requires forall t :: TermName(t) !in value
    ensures FilterNestStatus(records, value) == records
  {
    if value != [] {
      assert TermName(EradicatedTerm) !in value && TermName(VisitedTerm) !in value;
      assert TermName(ReservedTerm) !in value && TermName(OpenTerm) !in value;
      var terms := SelectedTerms(value);
      assert terms == [];
      WhereAll(records, x => QueryMatches(terms, x));
    }
  }

  /** Selecting one status keeps exactly the records its predicate holds for. */
  lemma SingleStatusFilter(records: seq<Record>, t: StatusTerm, x: Record)
    ensures x in FilterNestStatus(records, [TermName(t)]) <==> x in records && TermHolds(t, x)
  {
    var terms := SelectedTerms([TermName(t)]);
    assert terms == [t] by {
      match t
      case EradicatedTerm =>
      case VisitedTerm =>
      case ReservedTerm =>
      case OpenTerm =>
    }
    if x in records && TermHolds(t, x) {
      assert t in terms;
    }
  }

  /** The four predicates as the filter states them: each status in terms of the stored fields. */
  lemma NestStatusPredicates(r: Record)
    ensures r in FilterNestStatus([r], ["eradicated"]) <==> Field(r, "eradication_date") != PyNone
    ensures r in FilterNestStatus([r], ["visited"])
      <==> Field(r, "eradication_result") != PyNone && Field(r, "eradication_result") != PyStr("successful")
    ensures r in FilterNestStatus([r], ["reserved"]) <==> Field(r, "reserved_datetime") != PyNone
    ensures r in FilterNestStatus([r], ["open"])
      <==> Field(r, "reserved_datetime") == PyNone && Field(r, "eradication_date") == PyNone
  {
    SingleStatusFilter([r], EradicatedTerm, r);
    SingleStatusFilter([r], VisitedTerm, r);
    SingleStatusFilter([r], ReservedTerm, r);
    SingleStatusFilter([r], OpenTerm, r);
    assert [TermName(EradicatedTerm)] == ["eradicated"] && [TermName(VisitedTerm)] == ["visited"];
    assert [TermName(ReservedTerm)] == ["reserved"] && [TermName(OpenTerm)] == ["open"];
  }

  /** "eradicated", "reserved" and "open" together keep every record. */
  lemma ThreeStatusesCoverAll(records: seq<Record>)
    ensures FilterNestStatus(records, ["eradicated", "reserved", "open"]) == records
  {
    var terms := SelectedTerms(["eradicated", "reserved", "open"]);
    assert terms == [EradicatedTerm, ReservedTerm, OpenTerm];
    forall x | x in records
      ensures QueryMatches(terms, x)
    {
      if Field(x, "eradication_date") != PyNone {
        assert TermHolds(terms[0], x);
      } else if Field(x, "reserved_datetime") != PyNone {
        assert TermHolds(terms[1], x);
      } else {
        assert TermHolds(terms[2], x);
      }
    }
    WhereAll(records, x => QueryMatches(terms, x));
  }

  /** "open" shares no record with "eradicated" or with "reserved". */
  lemma OpenExcludesEradicatedAndReserved(records: seq<Record>, x: Record)
    requires x in FilterNestStatus(records, ["open"])
    ensures x !in FilterNestStatus(records, ["eradicated"]) && x !in FilterNestStatus(records, ["reserved"])
  {
    OpenMeansNeither(records, x);
    assert [TermName(EradicatedTerm)] == ["eradicated"] && [TermName(ReservedTerm)] == ["reserved"];
    SingleStatusFilter(records, EradicatedTerm, x);
    SingleStatusFilter(records, ReservedTerm, x);
  }

  lemma OpenMeansNeither(records: seq<Record>, x: Record)
    requires x in FilterNestStatus(records, ["open"])
    ensures !TermHolds(EradicatedTerm, x) && !TermHolds(ReservedTerm, x)
  {
    assert [TermName(OpenTerm)] == ["open"];
    SingleStatusFilter(records, OpenTerm, x);
  }

  /** "visited" and "open" can both hold: a result other than 'successful'
      recorded without an eradication date or reservation. */
  lemma VisitedCanBeOpen()
    ensures var r := map["eradication_result" := PyStr("unsuccessful")];
      r in FilterNestStatus([r], ["visited"]) && r in FilterNestStatus([r], ["open"])
  {
    var r := map["eradication_result" := PyStr("unsuccessful")];
    NestStatusPredicates(r);
  }

  // ------------------------------------------------------------- nest type

  predicate NestTypeIn(r: Record, value: seq<string>) {
    Field(r, "nest_type").PyStr? && Field(r, "nest_type").s in value
  }

  /** ObservationFilter.filter_nest_type: `nest_type__in=value` unless value is empty. */
  function FilterNestType(records: seq<Record>, value: seq<string>): (r: seq<Record>)
    ensures value == [] ==> r == records
    ensures value != [] ==> forall x :: x in r <==> x in records && NestTypeIn(x, value)
  {
    if value == [] then records else Where(records, x => NestTypeIn(x, value))
  }

  /** A record without a nest type never passes a non-empty nest type filter. */
  lemma NullNestTypeExcluded(records: seq<Record>, value: seq<string>, x: Record)
    requires value != [] && Field(x, "nest_type") == PyNone
    ensures x !in FilterNestType(records, value)
  {
  }

  // ------------------------------------------------------- admin filters

  /** MunicipalityExcludeFilter.queryset; None is an unselected (empty) value. */
  function ExcludeMunicipality(records: seq<Record>, selected: Option<int>): (r: seq<Record>)
    ensures selected.None? ==> r == records
    ensures selected.Some? ==> forall x :: x in r <==> x in records && Field(x, "municipality_id") != PyInt(selected.value)
  {
    match selected
    case None => records
    case Some(id) => Where(records, x => Field(x, "municipality_id") != PyInt(id))
  }

  /** Only the selected municipality goes: records of every other municipality,
      and those without one, stay. */
  lemma ExcludeRemovesOnlySelected(records: seq<Record>, id: int, x: Record)
    requires x in records
    ensures x in ExcludeMunicipality(records, Some(id)) <==> Field(x, "municipality_id") != PyInt(id)
  {
  }

  /** ObserverReceivedEmailFilter.queryset: "yes" keeps True, "no" keeps
      False, any other value (or none) keeps everything. */
  function FilterObserverReceivedEmail(records: seq<Record>, value: Option<string>): (r: seq<Record>)
    ensures value == Some("yes") ==> forall x :: x in r <==> x in records && Field(x, "observer_received_email") == PyBool(true)
    ensures value == Some("no") ==> forall x :: x in r <==> x in records && Field(x, "observer_received_email") == PyBool(false)
    ensures value != Some("yes") && value != Some("no") ==> r == records
  {
    if value == Some("yes") then Where(records, x => Field(x, "observer_received_email") == PyBool(true))
    else if value == Some("no") then Where(records, x => Field(x, "observer_received_email") == PyBool(false))
    else records
  }

  /** "yes" and "no" split the records that hold a boolean between them. */
  lemma ReceivedEmailPartition(records: seq<Record>, x: Record)
    requires x in records && Field(x, "observer_received_email").PyBool?
    ensures x in FilterObserverReceivedEmail(records, Some("yes")) <==> x !in FilterObserverReceivedEmail(records, Some("no"))
  {
  }
}

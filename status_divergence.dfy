/** Four places derive a nest's status, each in its own way: the store's
    determineStatusFromObservationData (front end), the export's get_status,
    the GeoJSON task's feature status, and the API's nest_status filter
    predicates. These lemmas say where they agree and where they part. */
module StatusDivergence {
  import opened Wrappers
  import opened StoreRules
  import opened Records
  import ExportUtils
  import GeojsonTask
  import NestFilters

  /** The stored types of the two fields: eradication_result is text or NULL,
      reserved_by a user or NULL. */
  predicate WellTyped(r: Record) {
    (Field(r, "eradication_result").PyNone? || Field(r, "eradication_result").PyStr?)
    && (Field(r, "reserved_by").PyNone? || Field(r, "reserved_by").PyRef?)
  }

  /** The JSON the API sends for such a field: NULL as null, text as a string,
      a user as its primary key. */
  function JsOf(v: PyValue): JsValue
    requires v.PyNone? || v.PyStr? || v.PyRef?
  {
    match v
    case PyStr(s) => Str(s)
    case PyRef(id, _) => Num(id)
    case _ => Null
  }

  /** The front end's object o is the API's rendering of record r. */
  predicate Represents(o: JsObject, r: Record) {
    WellTyped(r)
    && Get(o, "eradication_result") == JsOf(Field(r, "eradication_result"))
    && Get(o, "reserved_by") == JsOf(Field(r, "reserved_by"))
  }

  /** The front end and the export agree exactly when there is no result or
      the result is 'successful'. */
  lemma FrontEndAgreesWithExport(o: JsObject, r: Record)
    requires Represents(o, r)
    ensures DetermineStatus(Some(o)) == ExportUtils.GetStatus(r)
      <==> Field(r, "eradication_result") == PyNone || Field(r, "eradication_result") == PyStr("successful")
  {
    var res := Field(r, "eradication_result");
    if res.PyStr? && res.s != "successful" {
      assert DetermineStatus(Some(o)) == VISITED;
    }
  }

  /** A result such as 'unsuccessful' is "visited" on the map but
      "eradicated" in the export and in the GeoJSON task. */
  lemma UnsuccessfulResult(o: JsObject, r: Record, result: string)
    requires Represents(o, r)
    requires Field(r, "eradication_result") == PyStr(result) && result != "" && result != "successful"
    ensures DetermineStatus(Some(o)) == VISITED
    ensures ExportUtils.GetStatus(r) == ERADICATED && GeojsonTask.FeatureStatus(r) == ERADICATED
  {
  }

  /** An empty result is "visited" on the map, but not eradicated for the
      export or the GeoJSON task, which test truthiness. */
  lemma EmptyResult(o: JsObject, r: Record)
    requires Represents(o, r) && Field(r, "eradication_result") == PyStr("")
    ensures DetermineStatus(Some(o)) == VISITED
    ensures ExportUtils.GetStatus(r) != ERADICATED && GeojsonTask.FeatureStatus(r) != ERADICATED
  {
  }

  /** The export and the GeoJSON task differ only in naming the untreated
      status "default", which the map draws like "untreated". */
  lemma ExportAndGeojsonDifferInName(r: Record)
    ensures ExportUtils.GetStatus(r)
      == (if GeojsonTask.FeatureStatus(r) == "default" then UNTREATED else GeojsonTask.FeatureStatus(r))
    ensures StyleFor(GeojsonTask.FeatureStatus(r)) == StyleFor(ExportUtils.GetStatus(r))
  {
  }

  /** The nest_status filter reads eradication_date and reserved_datetime,
      not eradication_result and reserved_by: a nest the map shows as
      eradicated, with no eradication date and no reservation time, is found
      under "open" and not under "eradicated". */
  lemma FilterIgnoresResult(o: JsObject, r: Record)
    requires Represents(o, r) && Field(r, "eradication_result") == PyStr("successful")
    requires Field(r, "eradication_date") == PyNone && Field(r, "reserved_datetime") == PyNone
    ensures DetermineStatus(Some(o)) == ERADICATED
    ensures r in NestFilters.FilterNestStatus([r], ["open"])
    ensures r !in NestFilters.FilterNestStatus([r], ["eradicated"])
  {
    NestFilters.NestStatusPredicates(r);
  }

  /** A reservation without a reservation time is "reserved" on the map, in
      the export and in the GeoJSON task, but the filter lists it as "open". */
  lemma ReservationWithoutTime(o: JsObject, r: Record)
    requires Represents(o, r) && Field(r, "eradication_result") == PyNone && Field(r, "reserved_by").PyRef?
    requires Field(r, "reserved_datetime") == PyNone && Field(r, "eradication_date") == PyNone
    ensures DetermineStatus(Some(o)) == RESERVED
    ensures ExportUtils.GetStatus(r) == RESERVED && GeojsonTask.FeatureStatus(r) == RESERVED
    ensures r !in NestFilters.FilterNestStatus([r], ["reserved"])
    ensures r in NestFilters.FilterNestStatus([r], ["open"])
  {
    NestFilters.NestStatusPredicates(r);
  }
}

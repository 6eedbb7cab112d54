/** The observation store of the front end (src/stores/vespaStore.js) as a
    class: the filters and their last applied snapshot, the loaded
    observations, the selected observation and the status held by each cached
    map marker. Every network call is replaced by the response it returns,
    given as an argument. */
module VespaStore {
  import opened Wrappers
  import opened Text
  import opened Uri
  import opened StoreRules

  /** The key order JSON.stringify sees in `filters`: the declared order of
      the initial state (kept by the spread in applyFilters) or the order the
      object literal in resetFilters writes. */
  datatype KeyOrder = DeclaredOrder | ResetOrder

  /** JSON.stringify(filters): two snapshots are the same text exactly when
      key order and values agree. */
  datatype Snapshot = Snapshot(order: KeyOrder, filters: Filters)

  /** What ApiService.get of the geojson endpoint gives back. */
  datatype GeoResponse = GeoReply(status: int, features: Option<seq<JsObject>>) | GeoRequestFailed(message: string)

  /** What ApiService.patch gives back. */
  datatype Response = Reply(status: int, data: JsObject) | RequestFailed

  datatype ReserveOutcome = UserNotLoaded | QuotaReached | ReserveSent

  const MAX_RESERVATIONS := 50
  const RESERVE_ERROR := "Kon de observatie niet reserveren."

  /** The four flags updateObservation sends as strict booleans. */
  predicate IsFlag(key: string) {
    key == "queen_present" || key == "moth_present" || key == "duplicate_nest" || key == "other_species_nest"
  }

  /** The copy updateObservation sends: each flag present becomes `value === true`. */
  function Normalized(o: JsObject): (r: JsObject)
    ensures r.Keys == o.Keys
    ensures forall k :: k in o && !IsFlag(k) ==> r[k] == o[k]
    ensures forall k :: k in o && IsFlag(k) ==> r[k] == Bool(o[k] == Bool(true))
  {
    map k | k in o :: if IsFlag(k) then Bool(o[k] == Bool(true)) else o[k]
  }

  /** Normalising is idempotent, leaves every flag a boolean, and turns the
      string "true" into false. */
  lemma NormalizedLaws(o: JsObject, k: string)
    ensures Normalized(Normalized(o)) == Normalized(o)
    ensures k in o && IsFlag(k) ==> Normalized(o)[k].Bool?
    ensures k in o && IsFlag(k) && o[k] == Str("true") ==> Normalized(o)[k] == Bool(false)
    ensures k !in o ==> k !in Normalized(o)
  {
  }

  /** The status refreshMarkerStyle leaves on a marker that reserveObservation
      set to "reserved": the selected observation's status when it is this one. */
  function StatusAfterReserve(selected: JsObject, obsId: JsValue): string {
    if Get(selected, "id") == obsId then DetermineStatus(Some(selected)) else RESERVED
  }

  /** A reservation the server confirms without an eradication result shows as reserved. */
  lemma ConfirmedReservationShowsReserved(before: JsObject, data: JsObject, obsId: JsValue)
    requires IsSet(Get(data, "reserved_by")) && Get(data, "eradication_result") == Null
    ensures StatusAfterReserve(before + data, obsId) == RESERVED
  {
    DetermineStatusCharacterised(before + data);
  }

  /** One `name=value` pair pushed per value, as the forEach calls do. */
  method PushParams(queryParts: seq<string>, name: string, values: seq<string>) returns (r: seq<string>)
    ensures r == queryParts + Params(name, values)
  {
    r := queryParts;
    var i := 0;
    while i < |values|
      invariant 0 <= i <= |values|
      invariant r == queryParts + Params(name, values[..i])
    {
      assert Params(name, values[..i + 1]) == Params(name, values[..i]) + [Pair(name, EncodeURIComponent(values[i]))];
      r := r + [Pair(name, EncodeURIComponent(values[i]))];
      i := i + 1;
    }
    assert values[..i] == values;
  }

  /** `if (values.length > 0) values.forEach(push)`. */
  method PushNonEmpty(queryParts: seq<string>, name: string, values: seq<string>) returns (r: seq<string>)
    ensures r == queryParts + Params(name, values)
  {
    r := queryParts;
    if |values| > 0 {
      r := PushParams(queryParts, name, values);
    } else {
      ParamsOfNone(name, values);
    }
  }

  /** The nest type segment as the guarded push leaves it. */
  lemma NestTypeStep(f: Filters, c: seq<string>, d: seq<string>)
    requires f.nestType.Some? ==> d == c + Params("nest_type", f.nestType.value)
    requires f.nestType.None? ==> d == c
    ensures d == c + NestTypeParts(f)
  {
    if f.nestType.Some? && |f.nestType.value| == 0 {
      ParamsOfNone("nest_type", f.nestType.value);
    }
  }

  /** The nest status segment as the guarded push leaves it. */
  lemma NestStatusStep(f: Filters, d: seq<string>, e: seq<string>)
    requires f.nestStatus.Some? ==> e == d + Params("nest_status", f.nestStatus.value)
    requires f.nestStatus.None? ==> e == d
    ensures e == d + NestStatusParts(f)
  {
    if f.nestStatus.Some? && |f.nestStatus.value| == 0 {
      ParamsOfNone("nest_status", f.nestStatus.value);
    }
  }

  class Store {
    var filters: Filters
    var keyOrder: KeyOrder
    var lastAppliedFilters: Option<Snapshot>
    var observations: seq<JsObject>
    var selectedObservation: Option<JsObject>
    /** markerCache[key].feature.properties.status, for each cached marker, by property key. */
    var markerStatus: map<string, string>
    /** user.reservation_count; None while it is undefined. */
    var reservationCount: Option<int>
    var userId: JsValue
    var error: Option<string>

    constructor ()
      ensures filters == INITIAL_FILTERS && keyOrder == DeclaredOrder && lastAppliedFilters.None?
      ensures observations == [] && selectedObservation.None? && markerStatus == map[]
      ensures reservationCount.None? && userId == Undefined && error.None?
    {
      filters := INITIAL_FILTERS;
      keyOrder := DeclaredOrder;
      lastAppliedFilters := None;
      observations := [];
      selectedObservation := None;
      markerStatus := map[];
      reservationCount := None;
      userId := Undefined;
      error := None;
    }

    /** The cache check of getObservationsGeoJson. */
    predicate CacheHit()
      reads this
    {
      |observations| > 0 && lastAppliedFilters == Some(Snapshot(keyOrder, filters))
    }

    /** createFilterQuery. */
    method CreateFilterQuery() returns (query: string)
      ensures query == FilterQuery(filters)
    {
      var f := filters;
      var queryParts: seq<string> := [];
      queryParts := PushNonEmpty(queryParts, "municipality_id", f.municipalities);
      ghost var a := queryParts;
      queryParts := PushNonEmpty(queryParts, "province_id", f.provinces);
      ghost var b := queryParts;
      if f.anbAreasActief != Null {
        queryParts := queryParts + [Pair("anb", EncodeURIComponent(JsString(f.anbAreasActief)))];
      }
      ghost var c := queryParts;
      assert c == b + AnbParts(f);
      if f.nestType.Some? {
        queryParts := PushNonEmpty(queryParts, "nest_type", f.nestType.value);
      }
      ghost var d := queryParts;
      NestTypeStep(f, c, d);
      if f.nestStatus.Some? {
        queryParts := PushNonEmpty(queryParts, "nest_status", f.nestStatus.value);
      }
      ghost var e := queryParts;
      NestStatusStep(f, d, e);
      var minText := if f.minDate.Some? then FormatDateWithoutTime(f.minDate.value) else FormatDateWithoutTime(DEFAULT_MIN_DATE);
      queryParts := queryParts + [Pair("min_observation_datetime", EncodeURIComponent(minText))];
      ghost var m := queryParts;
      assert minText == FormatDateWithoutTime(MinDateOrDefault(f));
      if f.maxDate.Some? {
        queryParts := queryParts + [Pair("max_observation_datetime", EncodeURIComponent(FormatDateWithEndOfDayTime(f.maxDate.value)))];
      }
      assert queryParts == m + MaxDateParts(f);
      FilterPartsInPushOrder(f, a, b, c, d, e, m, queryParts);
      query := Join(queryParts, "&");
    }

    /** The query getObservationsGeoJson sends: the default floor is appended again when no minimum date is set. */
    method RequestQuery() returns (filterQuery: string)
      ensures filterQuery == OutgoingQuery(filters)
    {
      filterQuery := CreateFilterQuery();
      if filters.minDate.None? {
        filterQuery := filterQuery + (if filterQuery != "" then "&" else "")
          + Pair("min_observation_datetime", FormatDateWithoutTime(DEFAULT_MIN_DATE));
      }
    }

    /** setLastAppliedFilters. */
    method SetLastAppliedFilters()
      modifies this
      ensures lastAppliedFilters == Some(Snapshot(keyOrder, filters))
      ensures filters == old(filters) && keyOrder == old(keyOrder) && observations == old(observations)
      ensures selectedObservation == old(selectedObservation) && markerStatus == old(markerStatus)
      ensures reservationCount == old(reservationCount) && userId == old(userId) && error == old(error)
    {
      var current := Snapshot(keyOrder, filters);
      if lastAppliedFilters != Some(current) {
        lastAppliedFilters := Some(current);
      }
    }

    /** getObservationsGeoJson; `sent` is the query of the request, None when none is made. */
    method GetObservationsGeoJson(response: GeoResponse) returns (sent: Option<string>)
      modifies this
      ensures old(CacheHit()) ==> sent.None?
      ensures !old(CacheHit()) ==> sent == Some(OutgoingQuery(old(filters)))
      ensures filters == old(filters) && keyOrder == old(keyOrder)
      ensures selectedObservation == old(selectedObservation) && markerStatus == old(markerStatus)
      ensures reservationCount == old(reservationCount) && userId == old(userId)
      ensures sent.Some? && response.GeoReply? && response.status == 200 ==>
        observations == response.features.GetOr([])
        && lastAppliedFilters == Some(Snapshot(keyOrder, filters))
        && error == old(error)
        && (CacheHit() <==> |observations| > 0)
      ensures sent.Some? && response.GeoReply? && response.status != 200 ==>
        observations == old(observations) && lastAppliedFilters == old(lastAppliedFilters)
        && error == Some("Network response was not ok, status code: " + JsString(Num(response.status)))
      ensures sent.Some? && response.GeoRequestFailed? ==>
        observations == old(observations) && lastAppliedFilters == old(lastAppliedFilters)
        && error == Some(if response.message != "" then response.message else "Failed to fetch observations")
      ensures sent.None? ==>
        observations == old(observations) && lastAppliedFilters == old(lastAppliedFilters) && error == old(error)
    {
      if |observations| > 0 && lastAppliedFilters == Some(Snapshot(keyOrder, filters)) {
        return None;
      }
      var filterQuery := RequestQuery();
      sent := Some(filterQuery);
      TakeGeoResponse(response);
    }

    /** The try/catch of getObservationsGeoJson once the request is made. */
    method TakeGeoResponse(response: GeoResponse)
      modifies this
      ensures filters == old(filters) && keyOrder == old(keyOrder)
      ensures selectedObservation == old(selectedObservation) && markerStatus == old(markerStatus)
      ensures reservationCount == old(reservationCount) && userId == old(userId)
      ensures response.GeoReply? && response.status == 200 ==>
        observations == response.features.GetOr([])
        && lastAppliedFilters == Some(Snapshot(keyOrder, filters))
        && error == old(error)
      ensures response.GeoReply? && response.status != 200 ==>
        observations == old(observations) && lastAppliedFilters == old(lastAppliedFilters)
        && error == Some("Network response was not ok, status code: " + JsString(Num(response.status)))
      ensures response.GeoRequestFailed? ==>
        observations == old(observations) && lastAppliedFilters == old(lastAppliedFilters)
        && error == Some(if response.message != "" then response.message else "Failed to fetch observations")
    {
      match response {
        case GeoReply(status, features) =>
          if status == 200 {
            observations := features.GetOr([]);
            SetLastAppliedFilters();
          } else {
            error := Some("Network response was not ok, status code: " + JsString(Num(status)));
          }
        case GeoRequestFailed(message) =>
          error := Some(if message != "" then message else "Failed to fetch observations");
      }
    }

    /** applyFilters: `this.filters = { ...this.filters, ...patch }`. */
    method ApplyFilters(patch: FilterPatch)
      modifies this
      ensures filters == Merge(old(filters), patch)
      ensures keyOrder == old(keyOrder) && lastAppliedFilters == old(lastAppliedFilters)
      ensures observations == old(observations) && selectedObservation == old(selectedObservation)
      ensures markerStatus == old(markerStatus) && error == old(error)
      ensures reservationCount == old(reservationCount) && userId == old(userId)
    {
      filters := Merge(filters, patch);
    }

    /** resetFilters followed by the fetch it starts; `minDate` is options.min_observation_date. */
    method ResetFilters(minDate: Option<Date>, response: GeoResponse) returns (sent: Option<string>)
      modifies this
      ensures filters == FiltersAfterReset(minDate) && keyOrder == ResetOrder
      ensures old(lastAppliedFilters) == Some(Snapshot(ResetOrder, FiltersAfterReset(minDate))) && |old(observations)| > 0
        ==> sent.None?
      ensures !(old(lastAppliedFilters) == Some(Snapshot(ResetOrder, FiltersAfterReset(minDate))) && |old(observations)| > 0)
        ==> sent == Some(FilterQuery(FiltersAfterReset(minDate)))
      ensures selectedObservation == old(selectedObservation) && markerStatus == old(markerStatus)
      ensures reservationCount == old(reservationCount) && userId == old(userId)
      ensures sent.Some? && response.GeoReply? && response.status == 200 ==>
        observations == response.features.GetOr([])
        && lastAppliedFilters == Some(Snapshot(ResetOrder, FiltersAfterReset(minDate)))
        && error == old(error)
      ensures sent.Some? && response.GeoReply? && response.status != 200 ==>
        observations == old(observations) && lastAppliedFilters == old(lastAppliedFilters)
        && error == Some("Network response was not ok, status code: " + JsString(Num(response.status)))
      ensures sent.Some? && response.GeoRequestFailed? ==>
        observations == old(observations) && lastAppliedFilters == old(lastAppliedFilters)
        && error == Some(if response.message != "" then response.message else "Failed to fetch observations")
      ensures sent.None? ==>
        observations == old(observations) && lastAppliedFilters == old(lastAppliedFilters) && error == old(error)
    {
      filters := FiltersAfterReset(minDate);
      keyOrder := ResetOrder;
      sent := GetObservationsGeoJson(response);
    }

    /** The status part of refreshMarkerStyle: a cached marker of the selected
        observation takes the selected observation's status. */
    method RefreshMarkerStatus(obsId: JsValue)
      modifies this
      ensures markerStatus == if JsString(obsId) in old(markerStatus) && old(selectedObservation).Some?
          && Get(old(selectedObservation).value, "id") == obsId
        then old(markerStatus)[JsString(obsId) := DetermineStatus(old(selectedObservation))]
        else old(markerStatus)
      ensures filters == old(filters) && keyOrder == old(keyOrder) && lastAppliedFilters == old(lastAppliedFilters)
      ensures observations == old(observations) && selectedObservation == old(selectedObservation)
      ensures reservationCount == old(reservationCount) && userId == old(userId) && error == old(error)
    {
      var key := JsString(obsId);
      if key in markerStatus && selectedObservation.Some? && Get(selectedObservation.value, "id") == obsId {
        markerStatus := markerStatus[key := DetermineStatus(selectedObservation)];
      }
    }

    /** reserveObservation; `patch` is the body of the PATCH request, None when none is sent. */
    method ReserveObservation(obsId: JsValue, response: Response) returns (outcome: ReserveOutcome, patch: Option<JsObject>)
      modifies this
      ensures outcome == UserNotLoaded <==> old(reservationCount).None?
      ensures outcome == QuotaReached <==> old(reservationCount).Some? && old(reservationCount).value >= MAX_RESERVATIONS
      ensures patch.Some? <==> outcome == ReserveSent
      ensures patch.Some? ==> patch.value == map["reserved_by" := old(userId)]
      ensures filters == old(filters) && keyOrder == old(keyOrder) && lastAppliedFilters == old(lastAppliedFilters)
      ensures observations == old(observations) && reservationCount == old(reservationCount) && userId == old(userId)
      ensures patch.None? ==>
        selectedObservation == old(selectedObservation) && markerStatus == old(markerStatus) && error == old(error)
      ensures patch.Some? && response.Reply? && response.status == 200 ==>
        var merged := old(selectedObservation).GetOr(map[]) + response.data;
        selectedObservation == Some(merged)
        && markerStatus == (if JsString(obsId) in old(markerStatus)
                            then old(markerStatus)[JsString(obsId) := StatusAfterReserve(merged, obsId)]
                            else old(markerStatus))
        && error == old(error)
      ensures patch.Some? && !(response.Reply? && response.status == 200) ==>
        selectedObservation == old(selectedObservation) && markerStatus == old(markerStatus)
        && error == Some(RESERVE_ERROR)
    {
      if reservationCount.None? {
        return UserNotLoaded, None;
      }
      if reservationCount.value < MAX_RESERVATIONS {
        outcome := ReserveSent;
        patch := Some(map["reserved_by" := userId]);
        if response.Reply? && response.status == 200 {
          selectedObservation := Some(selectedObservation.GetOr(map[]) + response.data);
          var key := JsString(obsId);
          if key in markerStatus {
            markerStatus := markerStatus[key := RESERVED];
          }
          RefreshMarkerStatus(obsId);
        } else {
          error := Some(RESERVE_ERROR);
        }
      } else {
        outcome, patch := QuotaReached, None;
      }
    }

    /** updateObservation; `sent` is the PATCH body, `result` the returned data (null on any failure). */
    method UpdateObservation(observation: JsObject, response: Response) returns (result: Option<JsObject>, sent: JsObject)
      modifies this
      ensures sent == Normalized(observation)
      ensures response.Reply? && response.status == 200 ==>
        result == Some(response.data) && selectedObservation == Some(response.data)
        && markerStatus == (if JsString(Get(observation, "id")) in old(markerStatus)
                            then old(markerStatus)[JsString(Get(observation, "id")) := DetermineStatus(Some(response.data))]
                            else old(markerStatus))
      ensures !(response.Reply? && response.status == 200) ==>
        result.None? && selectedObservation == old(selectedObservation) && markerStatus == old(markerStatus)
      ensures filters == old(filters) && keyOrder == old(keyOrder) && lastAppliedFilters == old(lastAppliedFilters)
      ensures observations == old(observations) && error == old(error)
      ensures reservationCount == old(reservationCount) && userId == old(userId)
    {
      sent := Normalized(observation);
      if response.Reply? && response.status == 200 {
        selectedObservation := Some(response.data);
        var newStatus := DetermineStatus(Some(response.data));
        var key := JsString(Get(observation, "id"));
        if key in markerStatus {
          markerStatus := markerStatus[key := newStatus];
          RefreshMarkerStatus(Get(observation, "id"));
        }
        result := Some(response.data);
      } else {
        result := None;
      }
    }
  }

  // ------------------------------------------------------------ polling

  /** One export_status check: the reported status and, for "completed",
      whether the download that follows succeeds; or a request that throws. */
  datatype PollReply = PollReply(status: string, downloadSucceeds: bool) | PollRequestFailed

  datatype PollOutcome = Downloaded(attempts: nat) | Threw(message: string, attempts: nat)

  const GENERATED_MAX_ATTEMPTS := 40
  const REGULAR_MAX_ATTEMPTS := 60
  const GENERATED_TIMEOUT := "Export generation timed out. Please try again later."
  const REGULAR_TIMEOUT := "Export timed out. Please try again later."

  /** The check that ends polling: "completed" and a download that works. */
  predicate Delivers(r: PollReply) {
    r.PollReply? && r.status == "completed" && r.downloadSucceeds
  }

  /** A check that throws inside the try block ("failed", a failed download, a failed request). */
  predicate ThrowsInTry(r: PollReply) {
    r.PollRequestFailed? || (r.status == "completed" && !r.downloadSucceeds) || r.status == "failed"
  }

  /** pollForGeneratedExport; reply(k) is the answer to the k-th check. A
      "failed" status is caught like any error and polling goes on. */
  method PollForGeneratedExport(reply: nat -> PollReply) returns (outcome: PollOutcome)
    ensures 1 <= outcome.attempts <= GENERATED_MAX_ATTEMPTS
    ensures outcome.Downloaded? <==> exists k :: 1 <= k <= GENERATED_MAX_ATTEMPTS && Delivers(reply(k))
    ensures outcome.Downloaded? ==>
      Delivers(reply(outcome.attempts)) && forall k :: 1 <= k < outcome.attempts ==> !Delivers(reply(k))
    ensures outcome.Threw? ==> outcome.message == GENERATED_TIMEOUT && outcome.attempts == GENERATED_MAX_ATTEMPTS
  {
    var completed := false;
    var attempts: nat := 0;
    while !completed && attempts < GENERATED_MAX_ATTEMPTS
      invariant 0 <= attempts <= GENERATED_MAX_ATTEMPTS
      invariant completed ==> 1 <= attempts && Delivers(reply(attempts))
      invariant forall k :: 1 <= k <= attempts && !(completed && k == attempts) ==> !Delivers(reply(k))
      decreases GENERATED_MAX_ATTEMPTS - attempts, if completed then 0 else 1
    {
      attempts := attempts + 1;
      var r := reply(attempts);
      if Delivers(r) {
        completed := true;
        break;
      } else if ThrowsInTry(r) {
        if attempts >= GENERATED_MAX_ATTEMPTS {
          return Threw(GENERATED_TIMEOUT, attempts);
        }
      }
    }
    if !completed {
      return Threw(GENERATED_TIMEOUT, attempts);
    }
    outcome := Downloaded(attempts);
  }

  /** pollForExportCompletion: up to 60 checks, errors swallowed. */
  method PollForExportCompletion(reply: nat -> PollReply) returns (outcome: PollOutcome)
    ensures 1 <= outcome.attempts <= REGULAR_MAX_ATTEMPTS
    ensures outcome.Downloaded? <==> exists k :: 1 <= k <= REGULAR_MAX_ATTEMPTS && Delivers(reply(k))
    ensures outcome.Downloaded? ==>
      Delivers(reply(outcome.attempts)) && forall k :: 1 <= k < outcome.attempts ==> !Delivers(reply(k))
    ensures outcome.Threw? ==> outcome.message == REGULAR_TIMEOUT && outcome.attempts == REGULAR_MAX_ATTEMPTS
  {
    var completed := false;
    var attempts: nat := 0;
    while !completed && attempts < REGULAR_MAX_ATTEMPTS
      invariant 0 <= attempts <= REGULAR_MAX_ATTEMPTS
      invariant completed ==> 1 <= attempts && Delivers(reply(attempts))
      invariant forall k :: 1 <= k <= attempts && !(completed && k == attempts) ==> !Delivers(reply(k))
      decreases REGULAR_MAX_ATTEMPTS - attempts, if completed then 0 else 1
    {
      attempts := attempts + 1;
      if Delivers(reply(attempts)) {
        completed := true;
        break;
      }
    }
    if !completed {
      return Threw(REGULAR_TIMEOUT, attempts);
    }
    outcome := Downloaded(attempts);
  }
}

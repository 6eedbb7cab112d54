# VespaDB rule sets, modelled and verified in Dafny

VespaDB records sightings of the Asian hornet (Vespa velutina) and their nests in Flanders. Its front end is a Vue store that shows observations on a map, filters them and exports them. Its back end is a Django application. That application keeps observations in step with the waarnemingen.be API, imports and exports them, lets users reserve nests for eradication, and keeps each user's reservation count. Most of the code is wiring: HTTP calls, ORM queries, Celery tasks and map rendering. This project models the rule sets underneath that wiring and proves their properties:

- **Front-end store** (`store_rules.dfy`, `vespa_store.dfy`, `cookies.dfy`):
  - marker status from observation data, and the status-to-style table;
  - the filter-to-query-string builder, with repeated keys, the default date floor and zero-padded dates;
  - the "skip the fetch when the filters are unchanged" check, and the shallow filter merge and reset;
  - the 50-reservation quota guard, and the boolean normalisation before a PATCH;
  - the two bounded export polling loops, and getCookie.

  The store is a class whose actions take the network's response as an argument.
- **Reservation bookkeeping** (`reservations.dfy`): the two save signals of an observation, the expiry cleanup (in both copies), and the two reservation-count audits. They are methods of a `Database` class holding the observations and the users' counts.
- **Status, filter and export rules** (`nest_filters.dfy`, `export_utils.dfy`, `geojson_task.dfy`, `serializers.dfy`, `status_divergence.dfy`):
  - the API's nest-status and nest-type filters and two admin filters;
  - the CSV rows, blanked by permission;
  - the GeoJSON features;
  - the anonymous projection of an observation, and location validation.

  The map, the export, the GeoJSON task and the API filter each derive a nest status in their own way. Each derivation is kept separate, and lemmas state where they agree and where they part.
- **Synchronisation, import and mapping** (`observation_mapper.dfy`, `legacy_mapper.dfy`, `observation_sync.dfy`, `legacy_sync.dfy`, `sync_table.dfy`, `import_task.dfy`, `user_municipalities.dfy`):
  - both mappers from the API's records to observation fields;
  - both synchronisation tasks: the create-or-update split on `wn_id`, field-diff updates and cluster visibility;
  - the per-record decisions of the file import;
  - the management command that repairs users' municipality assignments.
- **The observations view** (`views.py`, in `views.dfy`): the serializer choice, the permission table, the create path and the geojson cache key and cache.

Shared pieces:
- `wrappers.dfy`: `Option` and `Result`.
- `records.dfy`: a model instance or JSON dictionary as a map from field name to a Python value, with Python's truthiness.
- `text.dfy`: decimal text, split and join, trimming, ASCII case mapping and string order.
- `uri.dfy`: JavaScript's `encodeURIComponent`/`decodeURIComponent` over UTF-8, proved to round-trip, and Python's `quote_plus`.
- `sets.dfy`: small facts about sets.

Imperative source code is modelled as imperative Dafny: loops become `while`/`for` loops with invariants, and objects whose fields change become classes. Each such method is proved against a specification function. The properties are then proved about that function.

Outside facts are parameters of the model:
- the HTTP responses, the OAuth token and the clock;
- the geographic lookups, `difflib`'s close matching and the date parsers;
- the database insert and update that may raise;
- the answers typed at the interactive prompt.

The model follows the code where the code differs from what it appears to intend:
- **Export polling.** In `src/stores/vespaStore.js:532-606`, a poll that reports status 'failed' throws inside the loop's own `try` block. The `catch` logs the error, and polling goes on until the attempts run out, so the server's failure message never reaches the caller. `VespaStore.PollForGeneratedExport` and `VespaStore.PollForExportCompletion` model the code.
- **Action permissions.** The `@action(permission_classes=...)` arguments in `views.py` never take effect, because `get_permissions` is overridden and does not read them. See the findings below.

Further observations, proved but not counted as defects because the intent is not clear from the code:
- A PUT request gets the default serializer. It can therefore write every field that the PATCH serializers protect (`Views.PutBypassesPatchLimits`).
- Under the `name_match` strategy, the replacement lookup uses a name that by definition is not current. The strategy therefore never adds anything and behaves like `clear_invalid` (`UserMunicipalities.NameMatchIsClearInvalid`).
- Every municipality assigned to a user is a row of the municipality table. On a consistent database the command therefore changes nothing (`UserMunicipalities.ConsistentDirectoryUnchanged`).
- Creating an observation that is already reserved changes no count (`Reservations.CreateLeavesCountShort`).
- The audit in `vespadb/users/tasks.py` counts eradicated reservations too. The one in `reservation_cleanup.py` does not.
- The geojson view builds its cache key from the query parameters. Its body serializes `self.get_queryset()`, which is not filtered by those parameters. So different parameters store the same body under different keys, and `serialized` in `Views.GeojsonReply` does not depend on them.

## Model

| member | source | states |
|---|---|---|
| Text.NatToString | src/stores/vespaStore.js:171-173 | the decimal text of a number is non-empty digits without a leading zero |
| Text.ParseNatToString | src/stores/vespaStore.js:171-173 | the decimal text reads back as the number |
| Text.NatToStringLength | src/stores/vespaStore.js:175-176 | the number of digits for numbers below 10, 100, 1000 and 10000 |
| Text.Split | frontend/src/utils/helpers.js:6 | `split(';')` gives at least one piece and no piece holds the separator |
| Text.SplitJoin | src/stores/vespaStore.js:162 | splitting a join on a separator the parts never hold gives the parts back |
| Text.AsciiUpper | vespadb/observations/tasks/observation_mapper.py:196 | upper-casing keeps the length and maps exactly the ASCII lower-case letters |
| Text.AsciiLower | vespadb/management/commands/update_user_municipalities.py:116 | lower-casing keeps the length and maps exactly the ASCII upper-case letters |
| Text.TrimStartDropsWhitespace | frontend/src/utils/helpers.js:9 | trim drops exactly a run of leading white space |
| Text.TrimEndDropsWhitespace | frontend/src/utils/helpers.js:9 | trim drops exactly a run of trailing white space |
| Text.StrLessTotal | vespadb/observations/views.py:144 | two different keys are ordered one way or the other |
| Text.StrLessTransitive | vespadb/observations/views.py:144 | the key order is transitive |
| Text.StrLessAsymmetric | vespadb/observations/views.py:144 | the key order is asymmetric |
| Uri.EncodeURIComponent | src/stores/vespaStore.js:121 | encodeURIComponent writes only unreserved characters and '%' |
| Uri.Utf8Decodes | frontend/src/utils/helpers.js:11 | the UTF-8 bytes of a character announce their length and spell it back |
| Uri.DecodeUtf8Escapes | frontend/src/utils/helpers.js:11 | decoding the escapes of a character's UTF-8 bytes yields that character |
| Uri.DecodeEncode | frontend/src/utils/helpers.js:11 | round trip: decodeURIComponent undoes encodeURIComponent on every string |
| Uri.QuotePlus | vespadb/observations/views.py:144 | quote_plus writes only unreserved characters, '%' and '+', so never '&' or '=' |
| Records.Where | vespadb/observations/filters.py:73 | a filtered queryset holds exactly the records meeting the condition |
| Records.WhereKeepsOrder | vespadb/observations/filters.py:95 | filtering keeps the queryset's order |
| Records.WhereAll | vespadb/observations/filters.py:61-62 | a condition every record meets leaves the queryset unchanged |
| Cookies.FirstMatch | frontend/src/utils/helpers.js:8-14 | the index found is the first cookie whose trimmed text starts with `name=`; none is found only when no cookie matches |
| Cookies.GetCookie | frontend/src/utils/helpers.js:1-17 | the loop returns what CookieValue specifies: null for an empty document.cookie or no match, else the decoded value after the first match (a malformed escape is the URIError) |
| Cookies.FirstMatchAt | frontend/src/utils/helpers.js:8-13 | a matching cookie preceded only by non-matching ones is the one the loop stops at |
| Cookies.NoMatchAt | frontend/src/utils/helpers.js:8-14 | when no cookie matches the loop finds nothing |
| Cookies.MatchesNameIsPrefix | frontend/src/utils/helpers.js:9-10 | the clamped `substring(0, name.length + 1)` comparison holds exactly when the trimmed cookie starts with `name=` |
| Cookies.LongerNameDoesNotMatch | frontend/src/utils/helpers.js:10 | a cookie whose name only begins with the wanted name is not matched |
| Cookies.EmptyDocumentHasNoCookie | frontend/src/utils/helpers.js:3-4 | an empty document.cookie yields null for every name |
| Cookies.EncodedCookieIsClean | frontend/src/utils/helpers.js:6-9 | a cookie written as `name=` plus an encodeURIComponent value holds no ';' and is unchanged by trim |
| Cookies.CleanPieceMatchesFirst | frontend/src/utils/helpers.js:6-10 | such a cookie placed first is the first piece of the split and the first match |
| Cookies.ReadsBackFirstCookie | frontend/src/utils/helpers.js:1-17 | round trip: getCookie reads back the value v of a first cookie written as `name=encodeURIComponent(v)` |
| StoreRules.DetermineStatus | src/stores/vespaStore.js:747-759 | the status is always one of eradicated, visited, reserved, untreated |
| StoreRules.DetermineStatusCharacterised | src/stores/vespaStore.js:747-759 | eradicated iff eradication_result is 'successful'; visited iff another result is set; reserved iff no result and reserved_by set; untreated otherwise, and for a missing observation |
| StoreRules.EradicatedWhateverReservation | src/stores/vespaStore.js:749-751 | a successful eradication gives eradicated whoever holds the reservation |
| StoreRules.StyleFor | src/stores/vespaStore.js:760-774 | each known status has its own fill colour; an unknown status gets the untreated style; opacity at most 1, weight at least 1 |
| StoreRules.StyleDistinguishesStatuses | src/stores/vespaStore.js:760-774 | two known statuses share a style only when they are equal; the default branch equals the untreated style |
| StoreRules.Pad2Digits | src/stores/vespaStore.js:171-176 | padding a number's digits keeps its value and gives two digits below 100 |
| StoreRules.ParseFormatDate | src/stores/vespaStore.js:168-179 | round trip: the formatted `Y-MM-DD` text reads back as the same date |
| StoreRules.FormatDateShape | src/stores/vespaStore.js:168-193 | a four-digit year gives the ten-character date form; the end-of-day form is that date plus " 23:59:59" |
| StoreRules.MergeLaws | src/stores/vespaStore.js:194-199 | the spread merge: an empty patch changes nothing, applying a patch twice equals once, two patches compose with the later winning |
| StoreRules.MergeKeepsAbsentKeys | src/stores/vespaStore.js:197 | keys absent from the patch keep their values; present keys take the patch's |
| StoreRules.FiltersAfterReset | src/stores/vespaStore.js:735-744 | after a reset every filter is cleared except the minimum date, which is the option given or 2025-04-01 |
| StoreRules.Params | src/stores/vespaStore.js:119-122 | one `name=` term per value, in order |
| StoreRules.FilterPartsInPushOrder | src/stores/vespaStore.js:112-162 | the terms pushed block by block are the specified term list |
| StoreRules.DecodeAllEncoded | src/stores/vespaStore.js:121 | decodeURIComponent reads back every encodeURIComponent'd value |
| StoreRules.FilterPartsSplit | src/stores/vespaStore.js:162 | no term holds '&', so splitting the joined query gives the terms back |
| StoreRules.FilterPartsValues | src/stores/vespaStore.js:112-160 | each key carries, in order, exactly the encoded values its filter holds |
| StoreRules.FilterQueryRoundTrip | src/stores/vespaStore.js:112-166 | round trip: the query read back yields each list filter in order, exactly one minimum date (the default when unset) and a maximum date exactly when one is set |
| StoreRules.ListsRoundTrip | src/stores/vespaStore.js:115-150 | the municipality, province, nest type and nest status lists are recovered from the query |
| StoreRules.DatesRoundTrip | src/stores/vespaStore.js:152-160 | the minimum date (or its default) and the optional maximum date are recovered from the query |
| StoreRules.MaxDateRoundTrip | src/stores/vespaStore.js:158-160 | a maximum-date term is present exactly when a maximum date is set, with the end-of-day text |
| StoreRules.DefaultMinDateText | src/stores/vespaStore.js:155 | the default floor formats as 2025-04-01 |
| StoreRules.FilterQueryNotEmpty | src/stores/vespaStore.js:152-156 | the filter query always holds the minimum-date term |
| StoreRules.OutgoingWithDefault | src/stores/vespaStore.js:86-92 | without a minimum date the request adds a second floor term after the query |
| StoreRules.DefaultFloorSentTwice | src/stores/vespaStore.js:88-92 | without a minimum date the request carries min_observation_datetime twice, both 2025-04-01 |
| StoreRules.FloorSentTwice | src/stores/vespaStore.js:88-92 | the same for any floor text that encoding leaves unchanged |
| VespaStore.Normalized | src/stores/vespaStore.js:408-423 | the copy sent has the same keys; the four flags become `value === true`, every other key is unchanged |
| VespaStore.NormalizedLaws | src/stores/vespaStore.js:412-423 | normalising is idempotent, leaves each present flag a boolean, turns the text "true" into false and adds no key |
| VespaStore.ConfirmedReservationShowsReserved | src/stores/vespaStore.js:313-320 | a reservation the server confirms without an eradication result shows the marker as reserved |
| VespaStore.PushParams | src/stores/vespaStore.js:127-129 | the forEach loop appends one encoded `name=` term per value, in order |
| VespaStore.PushNonEmpty | src/stores/vespaStore.js:115-123 | the length-guarded forEach appends the same terms as the unguarded one |
| VespaStore.NestTypeStep | src/stores/vespaStore.js:136-142 | the guarded nest-type push leaves the nest-type terms, none for a null list |
| VespaStore.NestStatusStep | src/stores/vespaStore.js:144-150 | the guarded nest-status push leaves the nest-status terms, none for a null list |
| VespaStore.Store.constructor | src/stores/vespaStore.js:9-47 | the initial state: default filters in declared key order, nothing applied, fetched, selected or cached, no user |
| VespaStore.Store.CreateFilterQuery | src/stores/vespaStore.js:112-167 | the query built is the specified filter query (whose round trip StoreRules.FilterQueryRoundTrip proves) |
| VespaStore.Store.RequestQuery | src/stores/vespaStore.js:86-92 | the request query is the filter query plus the default floor again when no minimum date is set |
| VespaStore.Store.SetLastAppliedFilters | src/stores/vespaStore.js:729-734 | the snapshot becomes the current filters' JSON text; nothing else changes |
| VespaStore.Store.GetObservationsGeoJson | src/stores/vespaStore.js:79-111 | no request when observations are loaded and the filters' text equals the snapshot; otherwise the request query is sent; a 200 stores the features (or none) and the snapshot, so the next call hits exactly when features arrived; a non-200 or a failed request sets the error and keeps observations and snapshot |
| VespaStore.Store.TakeGeoResponse | src/stores/vespaStore.js:94-110 | the same three outcomes for the try/catch once the request is made |
| VespaStore.Store.ApplyFilters | src/stores/vespaStore.js:194-199 | the filters become the spread merge of the old filters and the patch; nothing else changes |
| VespaStore.Store.ResetFilters | src/stores/vespaStore.js:735-746 | the filters become the reset filters in the reset key order; the fetch is skipped exactly when the snapshot already equals them and observations are loaded, and otherwise leaves the observations, the snapshot and the error as getObservationsGeoJson does for the same response |
| VespaStore.Store.RefreshMarkerStatus | src/stores/vespaStore.js:263-276 | a cached marker of the selected observation takes the status its details give; every other marker and field is unchanged |
| VespaStore.Store.ReserveObservation | src/stores/vespaStore.js:303-332 | no request without a loaded user or at 50 reservations; otherwise the PATCH sets reserved_by to the user; a 200 merges the reply into the selection and refreshes the marker; any failure sets the Dutch error message |
| VespaStore.Store.UpdateObservation | src/stores/vespaStore.js:406-446 | the normalised copy is sent; a 200 selects the reply, updates the cached marker's status and returns the data; any failure returns null and changes nothing |
| VespaStore.PollForGeneratedExport | src/stores/vespaStore.js:532-573 | at most 40 checks; it downloads exactly when some check within 40 reports completed with a working download, at the first such check; otherwise it throws the timeout message after 40 checks ("failed" is caught and polling continues) |
| VespaStore.PollForExportCompletion | src/stores/vespaStore.js:575-607 | the same with 60 checks and its own timeout message |
| NestFilters.SelectedTerms | vespadb/observations/filters.py:64-71 | a status term is selected exactly when its name is in the requested value |
| NestFilters.FilterNestStatus | vespadb/observations/filters.py:43-73 | an empty value keeps the queryset; otherwise a record stays exactly when it meets the OR of the selected statuses' conditions |
| NestFilters.NestStatusIsUnion | vespadb/observations/filters.py:63-73 | with a recognised status requested, a record passes exactly when one selected status's condition holds for it |
| NestFilters.UnrecognisedStatusesKeepAll | vespadb/observations/filters.py:63-73 | a value of only unrecognised statuses leaves the empty Q, which keeps every record |
| NestFilters.SingleStatusFilter | vespadb/observations/filters.py:63-73 | one requested status keeps exactly the records its condition holds for |
| NestFilters.NestStatusPredicates | vespadb/observations/filters.py:64-71 | eradicated: eradication_date set; visited: a result other than 'successful'; reserved: reserved_datetime set; open: neither date set |
| NestFilters.ThreeStatusesCoverAll | vespadb/observations/filters.py:64-71 | eradicated, reserved and open together keep every record |
| NestFilters.OpenExcludesEradicatedAndReserved | vespadb/observations/filters.py:64-71 | an open record is neither eradicated nor reserved |
| NestFilters.VisitedCanBeOpen | vespadb/observations/filters.py:66-71 | a record with an unsuccessful result and no dates is both visited and open |
| NestFilters.FilterNestType | vespadb/observations/filters.py:75-95 | an empty value keeps the queryset; otherwise exactly the records whose nest_type is in the value |
| NestFilters.NullNestTypeExcluded | vespadb/observations/filters.py:95 | a record without a nest type never passes a non-empty nest type filter |
| NestFilters.ExcludeMunicipality | vespadb/observations/filters.py:202-216 | no selection keeps the queryset; a selection removes exactly the records of that municipality |
| NestFilters.ExcludeRemovesOnlySelected | vespadb/observations/filters.py:214-215 | a record is dropped exactly when it belongs to the selected municipality |
| NestFilters.FilterObserverReceivedEmail | vespadb/observations/filters.py:239-251 | "yes" keeps exactly the True records, "no" exactly the False ones, any other value keeps all |
| NestFilters.ReceivedEmailPartition | vespadb/observations/filters.py:247-250 | a record holding a boolean passes exactly one of "yes" and "no" |
| ExportUtils.GetStatus | vespadb/observations/tasks/export_utils.py:21-27 | eradicated exactly for a truthy eradication_result; reserved exactly for no result and a truthy reserved_by; untreated otherwise |
| ExportUtils.PrepareRowData | vespadb/observations/tasks/export_utils.py:29-84 | one entry per header, in header order, each the cell RowCell specifies: blank when not allowed or when reading the field raises |
| ExportUtils.RestrictedRow | vespadb/observations/tasks/export_utils.py:39-51 | without access every column outside the restricted list is blank, and the restricted ones are filled as for an admin |
| ExportUtils.OwnMunicipalityRow | vespadb/observations/tasks/export_utils.py:39-40 | a user holding the observation's municipality gets the admin's row |
| ExportUtils.CellValues | vespadb/observations/tasks/export_utils.py:53-76 | None becomes "", a present source_id is its text, no location blanks both coordinates, a missing anb is written "None", nest_status is GetStatus |
| ExportUtils.Row | vespadb/observations/tasks/export_utils.py:46-81 | the row has one cell per header, each the column's cell for this user |
| ExportUtils.GenerateRows | vespadb/observations/tasks/export_utils.py:86-109 | the header is written first, then one row per observation whose write does not fail, in queryset order |
| ExportUtils.DataRowsShape | vespadb/observations/tasks/export_utils.py:96-109 | every written row has one entry per header; with no failed write the rows are the observations' rows, in order |
| ExportUtils.WrittenWidth | vespadb/observations/tasks/export_utils.py:99-109 | at most one row per observation, each as wide as the header |
| ExportUtils.WrittenComplete | vespadb/observations/tasks/export_utils.py:99-106 | with no failed write the j-th row is the j-th observation's |
| GeojsonTask.FeatureStatus | vespadb/observations/tasks/generate_geojson_task.py:15 | eradicated exactly for a truthy eradication_result; reserved exactly for no result and a truthy reserved_by; "default" otherwise |
| GeojsonTask.GenerateGeojson | vespadb/observations/tasks/generate_geojson_task.py:8-23 | the result is a FeatureCollection dictionary with exactly the keys type and features and one feature per observation |
| GeojsonTask.FeatureDescribesObservation | vespadb/observations/tasks/generate_geojson_task.py:10-20 | feature i carries observation i's id and status, and the point's GeoJSON as geometry, None when there is no point |
| StatusDivergence.FrontEndAgreesWithExport | src/stores/vespaStore.js:747-759 | the map's status and the export's agree exactly when the eradication result is absent or 'successful' |
| StatusDivergence.UnsuccessfulResult | vespadb/observations/tasks/export_utils.py:21-27 | a non-empty result other than 'successful' is visited on the map but eradicated in the export and in the GeoJSON task |
| StatusDivergence.EmptyResult | src/stores/vespaStore.js:752-754 | an empty result is visited on the map but not eradicated in the export or the GeoJSON task |
| StatusDivergence.ExportAndGeojsonDifferInName | vespadb/observations/tasks/generate_geojson_task.py:15 | the export and the GeoJSON task differ only in calling untreated "default", which the map draws like untreated |
| StatusDivergence.FilterIgnoresResult | vespadb/observations/filters.py:64-71 | a successful result without an eradication date is eradicated on the map yet passes "open" and fails "eradicated" in the API filter |
| StatusDivergence.ReservationWithoutTime | vespadb/observations/filters.py:68-71 | a reservation without reserved_datetime is reserved on the map, in the export and in the Celery task, yet the filter counts it open |
| Reservations.ReservedAfterUpdate | vespadb/observations/signals.py:28-36 | replacing one observation changes each user's real count by whether it counted before and after |
| Reservations.Bump | vespadb/observations/signals.py:32-35 | adding to one user's count keeps the set of users |
| Reservations.Stamp | vespadb/observations/signals.py:55-57 | a reservation without a time gets one; nothing else changes, and a row without a reservation or with a time is unchanged |
| Reservations.AsWrittenDecrementNeverFires | vespadb/observations/signals.py:59-64 | as written, the row read back after the save is the saved row, so the eradication decrement never changes a count |
| Reservations.EradicationDecrementDiffers | vespadb/observations/signals.py:59-64 | on the first eradication of a reserved observation, the intended decrement takes one from its user where the code takes none |
| Reservations.SavedCounts | vespadb/observations/signals.py:13-64 | saving through both signals, with the intended decrement, keeps the set of users |
| Reservations.SavedCountsAsWritten | vespadb/observations/signals.py:13-64 | the same with the decrement as written |
| Reservations.SavedCountsDelta | vespadb/observations/signals.py:28-64 | per user, the intended signals move the count by the change in that user's active reservations, when an eradication is never undone |
| Reservations.SignalsKeepActiveCounts | vespadb/observations/signals.py:28-64 | with the intended decrement, saving an existing observation keeps the stored counts equal to the active (not eradicated) reservations |
| Reservations.AsWrittenSignalsKeepTotalCounts | vespadb/observations/signals.py:28-64 | as written, saves keep the stored counts equal to all reservations, eradicated ones included |
| Reservations.CreateLeavesCountShort | vespadb/observations/signals.py:28 | creating a reserved observation changes no count, so its user's stored count falls one short |
| Reservations.Cutoff | vespadb/observations/tasks/reservation_cleanup.py:38-40 | the cutoff is a midnight within the day that lies `days` days before now |
| Reservations.RepairClearsReservation | vespadb/observations/tasks/reservation_cleanup.py:47-58 | every observation the query selects loses both its user and its reservation time |
| Reservations.CleanupLeavesPairsConsistent | vespadb/observations/tasks/reservation_cleanup.py:41-60 | after the cleanup each observation has both a user and a time newer than the cutoff, or neither; its eradication time is untouched |
| Reservations.CleanupStepObservations | vespadb/observations/tasks/reservation_cleanup.py:47-60 | saving the repair of one more selected observation extends the repaired state by that observation |
| Reservations.CleanupStepCounts | vespadb/observations/tasks/reservation_cleanup.py:60 | the save signals as written on that repair move the counts to those with one more release |
| Reservations.CleanupDone | vespadb/observations/tasks/reservation_cleanup.py:47-60 | with every selected observation processed, observations and counts are the cleanup's |
| Reservations.GroupsAreUsersWithReservations | vespadb/observations/tasks/reservation_cleanup.py:76-89 | a user appears in the grouped query exactly when some observation counts towards them |
| Reservations.AuditStep | vespadb/observations/tasks/reservation_cleanup.py:86-99 | recounting one more user sets that user's count to the real one |
| Reservations.AuditedConsistentIff | vespadb/observations/tasks/reservation_cleanup.py:65-101 | after an audit the counts are right exactly when every user outside the groups already held 0: a stale count of a user without reservations survives |
| Reservations.Database.constructor | vespadb/observations/signals.py:13-64 | an empty database with the given users at count 0 |
| Reservations.Database.Create | vespadb/observations/signals.py:28-57 | a new observation is stored stamped; no count changes |
| Reservations.Database.Update | vespadb/observations/signals.py:13-64 | the observation is stored stamped and the counts are SavedCountsAsWritten over the stored row: the post_save decrement compares the saved row with itself and never fires, so an eradication leaves the count as it was |
| Reservations.Database.CleanupExpiredReservations | vespadb/observations/tasks/reservation_cleanup.py:28-62 | observations become the repaired ones and counts those the save signals leave |
| Reservations.Database.CleanupExpiredReservationsTwoWeeks | vespadb/observations/tasks.py:196-229 | the same with a fixed two-week cutoff |
| Reservations.Database.AuditUserReservations | vespadb/users/tasks.py:14-39 | each grouped user gets the real count, written only when it differs; returns exactly those users; the version in reservation_cleanup.py (65-101) counts only active reservations |
| Reservations.Database.GroupUserExists | vespadb/observations/tasks/reservation_cleanup.py:91 | the user of every group exists, so the lookup cannot fail |
| Reservations.Database.FreeExpiredReservationsAndAudit | vespadb/observations/tasks/reservation_cleanup.py:18-25 | the cleanup followed by the active-count audit |
| Reservations.ReleasedGrows | vespadb/observations/tasks/reservation_cleanup.py:47-60 | one more processed observation adds one release to u exactly when it was reserved by u |
| ObservationMapper.MapValidationStatus | vespadb/observations/tasks/observation_mapper.py:83-99 | a status comes back exactly for one of the seven codes |
| ObservationMapper.ValidationTable | vespadb/observations/tasks/observation_mapper.py:90-98 | each code maps to its status as listed, and no two codes share a status |
| ObservationMapper.FillKeys | vespadb/observations/tasks/observation_mapper.py:70-80 | the loop's dictionary holds a key exactly when some attribute contributes to it |
| ObservationMapper.FillLastWins | vespadb/observations/tasks/observation_mapper.py:76-77 | a key holds the value of the last attribute contributing to it |
| ObservationMapper.EnumKeysAreModelFields | vespadb/observations/tasks/observation_mapper.py:74-77 | every key the attributes produce is one of ENUM_FIELD_MAPPING's model fields |
| ObservationMapper.EnumsOfFilledByMatches | vespadb/observations/tasks/observation_mapper.py:71-79 | a field is filled exactly when some attribute of a mapped name has a close match for it; others leave no trace |
| ObservationMapper.MapAttributesToEnums | vespadb/observations/tasks/observation_mapper.py:63-80 | the loop returns the dictionary EnumsOf specifies |
| ObservationMapper.NotAnEnumKey | vespadb/observations/tasks/observation_mapper.py:77 | keys outside the enum fields are never produced by the attributes |
| ObservationMapper.PreparedFromData | vespadb/observations/tasks/observation_mapper.py:135-198 | a successful mapping computes the copied fields, parsed time, point, municipality and province, enum values, validation status, cluster id, user data and keyword test from the API record |
| ObservationMapper.MapExternalData | vespadb/observations/tasks/observation_mapper.py:120-201 | None exactly when a required field is absent or None or a timestamp does not parse; an exception exactly past those checks when a later step raises; a record exactly otherwise |
| ObservationMapper.MapsToBuild | vespadb/observations/tasks/observation_mapper.py:167-201 | a successful mapping returns the assembled mapped_data |
| ObservationMapper.BuildKeepsBaseFields | vespadb/observations/tasks/observation_mapper.py:167-181 | outside the enum, observer and eradication keys, the result holds exactly the literal fields |
| ObservationMapper.CopiedFields | vespadb/observations/tasks/observation_mapper.py:168-179 | wn_id, species, images and wn_cluster_id are the API's id, species, photos and nest id, never overwritten |
| ObservationMapper.PlaceAndTimeFields | vespadb/observations/tasks/observation_mapper.py:169-176 | location, observation_datetime, municipality and province are the computed ones |
| ObservationMapper.ProvinceFollowsMunicipality | vespadb/observations/tasks/observation_mapper.py:176 | a municipality brings its province; without one the province is None |
| ObservationMapper.ClusterFromNest | vespadb/observations/tasks/observation_mapper.py:163-166 | the cluster id is the nest's id for a non-empty nest, None for an absent, None or empty one |
| ObservationMapper.KeywordRule | vespadb/observations/tasks/observation_mapper.py:193-199 | the eradication date and name are set exactly when the notes mention a keyword, to the observation time and "Gemeld als bestreden" |
| ObservationMapper.ObserverFieldsFromUser | vespadb/observations/tasks/observation_mapper.py:184-190 | the observer fields are present exactly when there is user data, and hold its phone number, email and name |
| ObservationMapper.TimeDefaultsToMidnight | vespadb/observations/tasks/observation_mapper.py:136-139 | a missing time, a None time and "00:00:00" map alike |
| ObservationMapper.ChecksButTime | vespadb/observations/tasks/observation_mapper.py:127-158 | records differing only in time, with the same effective time, pass or fail the same checks |
| ObservationMapper.TimeIgnored | vespadb/observations/tasks/observation_mapper.py:136-139 | records differing only in time, with the same effective time, map to the same result |
| LegacyObservationMapper.MapAsWritten | vespadb/observations/observation_mapper.py:106-196 | the older mapper as written: None for a missing required field, and a record exactly when every check passes and the notes hold a keyword (otherwise the eradication locals are unbound) |
| LegacyObservationMapper.MapExternalData | vespadb/observations/observation_mapper.py:106-196 | the older mapper as intended: None for a missing required field, and a record exactly when every check passes |
| LegacyObservationMapper.MapsToBuild | vespadb/observations/observation_mapper.py:172-196 | past the checks the intended mapper returns the assembled mapped_data, which the as-written one also returns when a keyword is found; without a keyword no eradication date is prepared |
| LegacyObservationMapper.AsWrittenNeedsKeyword | vespadb/observations/observation_mapper.py:142-147 | the two versions differ exactly on records that pass every check without a keyword, where the as-written one raises UnboundLocalError |
| LegacyObservationMapper.PassesWithoutOptionalFields | vespadb/observations/observation_mapper.py:114-170 | a record with every required field parsing, and without notes, attributes or user, passes every check with no keyword |
| LegacyObservationMapper.WithoutNotesPasses | vespadb/observations/observation_mapper.py:114-170 | the concrete record without notes, whose point carries coordinates, passes every check and holds no keyword |
| LegacyObservationMapper.UnboundOnRecordWithoutNotes | vespadb/observations/observation_mapper.py:142-196 | on the record without notes the as-written mapper fails with UnboundLocalError while the intended one returns a record |
| LegacyObservationMapper.NamedKeysAreAttributeNames | vespadb/observations/observation_mapper.py:69-79 | the enum dictionary is keyed only by attribute names of ENUMS_MAPPING |
| LegacyObservationMapper.KeyedByName | vespadb/observations/observation_mapper.py:73-76 | an attribute name is a key here exactly when its model field is a key in the newer mapper's dictionary |
| LegacyObservationMapper.FieldsAreDistinct | vespadb/observations/tasks/observation_mapper.py:38-47 | ENUM_FIELD_MAPPING sends different attribute names to different model fields |
| LegacyObservationMapper.PreparedAssemblable | vespadb/observations/observation_mapper.py:168-169 | past the checks, the enum keys never clash with the literal fields |
| LegacyObservationMapper.PreparedFromData | vespadb/observations/observation_mapper.py:142-192 | the prepared values are the copied fields with their defaults, the nest value as cluster id, the user object, the enums by name, and the raw date as eradication date exactly when a keyword is found and the date is truthy |
| LegacyObservationMapper.BuildKeepsBaseFields | vespadb/observations/observation_mapper.py:172-192 | outside the enum and eradication keys, mapped_data holds exactly the literal fields |
| LegacyObservationMapper.ObserverFieldsAlways | vespadb/observations/observation_mapper.py:170-190 | every record carries the three observer fields, read from the user object (None when it lacks them) |
| LegacyObservationMapper.CopiedFields | vespadb/observations/observation_mapper.py:173-186 | wn_id, species, wn_notes, images and wn_cluster_id hold the prepared id, species, notes, photos and nest value |
| LegacyObservationMapper.EradicationFields | vespadb/observations/observation_mapper.py:193-195 | the eradication date and name are present exactly when the locals were bound, holding the raw date and "Gemeld als bestreden" |
| LegacyObservationMapper.MatchedNameIsKey | vespadb/observations/observation_mapper.py:73-76 | as written, a record whose notes hold a keyword and one of whose attributes matches into a model field maps to a record keyed by that attribute's name |
| LegacyObservationMapper.MapByField | vespadb/observations/observation_mapper.py:106-196 | the older mapper with both defects mended: None for a missing required field, and a record exactly when every check passes |
| LegacyObservationMapper.ByFieldLacksNames | vespadb/observations/tasks/observation_mapper.py:74-77 | the mended mapper keys no value by an attribute name |
| LegacyObservationMapper.ByFieldRenames | vespadb/observations/tasks/observation_mapper.py:74-77 | an attribute name is a key of the older mapper's record exactly when its model field is a key of the mended one |
| LegacyObservationMapper.ByFieldKeepsOthers | vespadb/observations/observation_mapper.py:172-195 | every key that is neither an attribute name nor an enum field is present in the mended record exactly when it is in the older one, with the same value |
| ObservationSync.Overwritten | vespadb/observations/tasks/observation_sync.py:99-113 | an overwritten row keeps exactly the current row's fields |
| ObservationSync.DiffFields | vespadb/observations/tasks/observation_sync.py:96-116 | the field loop leaves the row overwritten from the incoming observation, and reports an update exactly when some listed field the row has differs |
| ObservationSync.UnchangedIffNoDiff | vespadb/observations/tasks/observation_sync.py:110-116 | overwriting leaves a row unchanged exactly when no listed field differs, so a row goes to the bulk update exactly when it changes |
| ObservationSync.OverwriteIdempotent | vespadb/observations/tasks/observation_sync.py:99-113 | after one overwrite nothing differs, and a second overwrite changes nothing |
| ObservationSync.ByWnId | vespadb/observations/tasks/observation_sync.py:91 | the dictionary holds every listed observation's wn_id, each key mapping to a listed observation with that wn_id |
| ObservationSync.ByWnIdLastWins | vespadb/observations/tasks/observation_sync.py:91 | a wn_id maps to its last observation in the list |
| ObservationSync.SyncedRows | vespadb/observations/tasks/observation_sync.py:89-122 | the table after an update keeps exactly its rows |
| ObservationSync.ChangedRows | vespadb/observations/tasks/observation_sync.py:92-116 | the rows collected for the bulk update are exactly the listed rows whose fields differ, each overwritten |
| ObservationSync.SyncedFromChanged | vespadb/observations/tasks/observation_sync.py:118-120 | writing back only the changed rows gives the table with every listed row overwritten |
| ObservationSync.UpdateObservations | vespadb/observations/tasks/observation_sync.py:89-122 | the table becomes the one with every listed row overwritten, and the bulk list holds exactly the listed rows that differ |
| ObservationSync.PartitionPage | vespadb/observations/tasks/observation_sync.py:241-268 | the page loop returns the split Partition specifies |
| ObservationSync.PartitionWellFormed | vespadb/observations/tasks/observation_sync.py:248-268 | a split page pairs each observation to update with its wn_id; new observations were unknown at the start of the run and updated ones known |
| ObservationSync.PartitionSucceedsIff | vespadb/observations/tasks/observation_sync.py:244-251 | a page is split exactly when the mapper accepts every record, returning None or fields holding a wn_id |
| ObservationSync.PartitionKeepsEveryMapped | vespadb/observations/tasks/observation_sync.py:251-268 | every mapped record lands, stamped with the system user and the time, in the update list when its wn_id was known and in the create list otherwise |
| ObservationSync.InsertNew | vespadb/observations/tasks/observation_sync.py:82-85 | bulk_create with ignore_conflicts keeps every existing row, gives every listed wn_id a row, and adds only listed observations under their own wn_id |
| ObservationSync.CreateObservations | vespadb/observations/tasks/observation_sync.py:82-85 | the table becomes InsertNew of the list |
| ObservationSync.CommitPage | vespadb/observations/tasks/observation_sync.py:270-272 | a page's transaction leaves the creates, then the updates |
| ObservationSync.NewDuringRunKeepsFirstCopy | vespadb/observations/tasks/observation_sync.py:233-272 | an observation first written during a run is not updated by later pages of that run |
| ObservationSync.CommittedPreserves | vespadb/observations/tasks/observation_sync.py:270-272 | a page's transaction deletes no row and changes no field outside the fields to update |
| ObservationSync.TakeTurn | vespadb/observations/tasks/observation_sync.py:238-275 | a fetched page is split, with the flag for a next page; an empty reply ends the loop without error; a reply that is not an object ends it with the format error and an object without results with KeyError |
| ObservationSync.WritePage | vespadb/observations/tasks/observation_sync.py:238-275 | a page that fails to split writes nothing; otherwise its transaction is committed |
| ObservationSync.SyncObservationPages | vespadb/observations/tasks/observation_sync.py:235-279 | the loop commits the pages SplitPages gives, up to what ended it: the format error, the KeyError, the mapper's error, or the PAGE_LIMIT mark when the page bound runs out |
| ObservationSync.SyncPagesPreserves | vespadb/observations/tasks/observation_sync.py:237-279 | the page loop deletes no observation and changes no field outside the fields to update |
| ObservationSync.EmptyPageWithNextNeverStops | vespadb/observations/tasks/observation_sync.py:274-279 | after a reply with no results and a next link the offset does not move, so the loop asks for that page on every turn and is still asking when any bound runs out |
| ObservationSync.StoppingLoopEnds | vespadb/observations/tasks/observation_sync.py:237-279 | with the loop also ending after a page without results, over finitely many results a large enough page bound gives the same run as every larger one |
| ObservationSync.StoppingLoopStopsOnEmptyPage | vespadb/observations/tasks/observation_sync.py:274-279 | the corrected loop ends after one turn on the reply that keeps the loop as written going |
| ObservationSync.ModifiedSinceWindow | vespadb/observations/tasks/observation_sync.py:208-230 | only a given date that does not parse fails, with the ddMMyyyy message; a given date decides alone; no since_week means two weeks; otherwise the instant is a midnight less than a day before now minus the weeks |
| ObservationSync.FetchClusters | vespadb/observations/tasks/observation_sync.py:147-167 | the loop gathers the clusters ClustersFrom specifies |
| ObservationSync.ClustersFuelPrefix | vespadb/observations/tasks/observation_sync.py:154-165 | one more request only adds clusters at the end |
| ObservationSync.Members | vespadb/observations/tasks/observation_sync.py:178 | a cluster's members are rows of the table |
| ObservationSync.WithVisibility | vespadb/observations/tasks/observation_sync.py:140-144 | setting the visibility keeps exactly the table's rows |
| ObservationSync.LatestDate | vespadb/observations/tasks/observation_sync.py:186 | the latest date is a member's date and no member's date exceeds it |
| ObservationSync.UpdateObservationVisibility | vespadb/observations/tasks/observation_sync.py:140-144 | each listed observation becomes visible exactly when it is not to be hidden, and nothing else changes |
| ObservationSync.HiddenBeforeLatest | vespadb/observations/tasks/observation_sync.py:186-190 | the members dated before the latest are exactly those some other member postdates |
| ObservationSync.ApplyCluster | vespadb/observations/tasks/observation_sync.py:174-192 | one cluster: no ids or no members leaves the table; an undated member among several raises TypeError; otherwise the members before the latest are hidden and the rest shown |
| ObservationSync.ManageObservationsVisibility | vespadb/observations/tasks/observation_sync.py:170-192 | the clusters are applied one after the other up to the first error |
| ObservationSync.LatestStayVisible | vespadb/observations/tasks/observation_sync.py:186-190 | a member stays visible exactly when no member is registered later, and a cluster never hides all its members |
| ObservationSync.VisibilityAllPreserves | vespadb/observations/tasks/observation_sync.py:170-192 | the visibility pass deletes no observation and changes no field but the visibility flag |
| ObservationSync.ClusterVisibilityIdempotent | vespadb/observations/tasks/observation_sync.py:174-192 | applying a cluster a second time changes nothing |
| ObservationSync.FetchAndUpdateObservations | vespadb/observations/tasks/observation_sync.py:196-283 | the Celery task asks for a retry without a token, fails on a bad date before writing, writes the pages, and then runs the visibility pass when no page failed and the page bound did not run out |
| ObservationSync.SyncTaskPreserves | vespadb/observations/tasks/observation_sync.py:196-283 | a run, however it ends, deletes no observation and changes no field outside the fields to update and the visibility flag |
| LegacySync.Owners | vespadb/observations/tasks.py:129-131 | the wn_id-to-last-modifier dictionary has exactly the table's wn_ids |
| LegacySync.SortPage | vespadb/observations/tasks.py:140-172 | the loop over a page's results continues the run's lists as SortRest specifies, and ends with TypeError where it would build an Observation from a key that is no model field |
| LegacySync.CollectObservations | vespadb/observations/tasks.py:135-179 | the page loop gathers the lists CollectPages specifies, whose pages stop at the first record the loop body raises on, TypeError included |
| LegacySync.CollectPagesRouted | vespadb/observations/tasks.py:149-172 | whatever the pages hold, a collection that succeeds lists for update only known rows the sync user last modified, paired with their wn_ids, and for creation only unknown wn_ids, and every listed observation was built from model fields only |
| LegacySync.SortRestSucceedsIff | vespadb/observations/tasks.py:140-172 | a page is sorted exactly when every record gets through the loop body: the mapper accepts it, and when an Observation is built from it (new wn_id, or a row the sync user last modified) none of its keys is an attribute name |
| LegacySync.SortRestRoutes | vespadb/observations/tasks.py:147-172 | on a sorted page a mapped record has a wn_id and, when built, only model-field keys; it lands, stamped, in the create list when new, in the update list when the sync user last modified it, and in neither otherwise |
| LegacySync.CollectPagesExtends | vespadb/observations/tasks.py:136-179 | later pages only append to the lists |
| LegacySync.SortRestFailsAt | vespadb/observations/tasks.py:140-172 | a page fails at the first record the loop body raises on, with that record's error (the mapper's, KeyError without a wn_id, TypeError for an attribute-name key), when every record before it gets through |
| LegacySync.KeywordlessRecordStopsRun | vespadb/observations/tasks.py:136-187 | with the mapper the module imports, the older one as written, a keywordless record on the first page that passes every check ends the run with UnboundLocalError and nothing is written, once every record before it got through the loop body |
| LegacySync.EmptyPageWithNextNeverCommits | vespadb/observations/tasks.py:174-179 | after a reply with no results and a next link the same page is asked for again, so under any bound the collection never finishes and nothing is committed |
| LegacySync.InsertStrictIff | vespadb/observations/tasks.py:80-83 | bulk_create without ignore_conflicts goes through exactly when every wn_id is new to the table and to the list, and then adds one row per record and changes no stored row |
| LegacySync.CreateObservations | vespadb/observations/tasks.py:80-83 | the table becomes the strict insert's result, or is unchanged with the integrity error |
| LegacySync.OverwriteFields | vespadb/observations/tasks.py:94-105 | the field loop overwrites every listed field the row has from the incoming observation |
| LegacySync.OverwriteRows | vespadb/observations/tasks.py:91-105 | every stored row whose wn_id is listed is overwritten and written, changed or not |
| LegacySync.UpdateObservations | vespadb/observations/tasks.py:86-108 | the table becomes the one with every listed row overwritten, and the written rows are exactly the stored listed ones |
| LegacySync.CommitRun | vespadb/observations/tasks.py:185-187 | the run's one transaction commits the creates and the updates, or on an integrity error leaves the table as it was |
| LegacySync.FetchAndUpdateObservations | vespadb/observations/tasks.py:112-193 | the Celery task asks for a retry without a token; otherwise it collects every page and then commits them in one transaction; a reply that is not an object, an object without results, a mapper error, the TypeError of an Observation built from a key that is no field, or the PAGE_LIMIT mark ends the run before anything is written |
| LegacySync.FailedRunWritesNothing | vespadb/observations/tasks.py:185-187 | a run that fails leaves every row as it was |
| LegacySync.ManualEditsProtected | vespadb/observations/tasks.py:149-153 | a row whose last modifier is not the sync user is left exactly as it was |
| LegacySync.SuccessfulRunWrites | vespadb/observations/tasks.py:181-187 | a successful run adds exactly the collected new observations, each as collected, and overwrites every listed row from its collected copy; every created or updated observation was built from model fields only |
| LegacySync.RecordError | vespadb/observations/tasks.py:140-170 | the loop body raises on a record exactly when it does not get through: with the mapper's error, KeyError when the mapped fields lack a wn_id, or TypeError when an Observation is built from a key that is no model field |
| LegacySync.SortOneFailsIff | vespadb/observations/tasks.py:140-170 | one record stops the run exactly when the loop body raises on it, with that error, whatever was collected before it |
| LegacySync.NameKeyedRecordStopsRun | vespadb/observations/tasks.py:136-187 | with the older mapper as written, a first-page record whose notes hold a keyword and one of whose attributes matches an enum value, when new or last modified by the sync user, ends the run with TypeError and the table unchanged, once the records before it got through |
| LegacySync.NameKeyedRecordFails | vespadb/observations/tasks.py:155-170 | such a record is mapped with an attribute name as a key, so building its Observation raises TypeError |
| LegacySync.ByFieldConstructs | vespadb/observations/tasks.py:155-170 | every record the mapper keyed by model field returns can be passed to `Observation(...)` |
| LegacySync.ByFieldPagesSortIff | vespadb/observations/tasks.py:140-172 | with the mapper keyed by model field, no record raises TypeError: a page is sorted exactly when the mapper accepts every record |
| LegacySync.CommitKeys | vespadb/observations/tasks.py:185-187 | a committed run gains one row per new observation and keeps every other key |
| LegacySync.CommitCreates | vespadb/observations/tasks.py:186 | each new observation is stored as collected |
| LegacySync.CommitUpdates | vespadb/observations/tasks.py:187 | each listed row is overwritten from its collected copy |
| LegacySync.LegacyTaskPreserves | vespadb/observations/tasks.py:112-193 | a run deletes no observation and changes no field outside the fields to update |
| LegacySync.WindowIsNewerDefault | vespadb/observations/tasks.py:124-126 | the fixed window is midnight two weeks back, the newer task's default |
| ImportTask.ParseIntText | vespadb/observations/tasks/generate_import.py:93 | `int()` reads back the decimal text of every integer, so an id given as text looks up the key the number names |
| ImportTask.ParseIntRejects | vespadb/observations/tasks/generate_import.py:93 | a text holding a character that is neither a digit nor a leading sign is refused by `int()` |
| ImportTask.SetItems | vespadb/observations/tasks/generate_import.py:95-96 | setting every field of the record on the observation gives the observation overridden by the record |
| ImportTask.ProcessRecords | vespadb/observations/tasks/generate_import.py:82-150 | the record loop, left early by an exception, leaves the observations, the ids, the errors, the rollback mark, the exception and the progress Run specifies, and changes nothing else of the import record |
| ImportTask.ProcessRecord | vespadb/observations/tasks/generate_import.py:84-150 | one record is handled as StepRecord specifies: the id converted by `int()`, the duplicate query built on `int()` of the wn_id and raising when that conversion fails, a query that raises after a refused insert, an update's save that raises |
| ImportTask.Process | vespadb/observations/tasks/generate_import.py:26-192 | process_import leaves the import record, the observations (those before the import when the atomic block rolls back) and the stored files ProcessImport specifies, and returns its result |
| ImportTask.StepCases | vespadb/observations/tasks/generate_import.py:90-147 | a record is created exactly when it has no id, a key combination whose wn_id (if given) `int()` accepts, no stored match under that converted wn_id, a block not marked for rollback and an insert that goes through; updated exactly when `int()` of its id names a stored observation in a usable block and the save goes through; a record that fails or raises writes nothing; each record ends in exactly one place |
| ImportTask.StepFailures | vespadb/observations/tasks/generate_import.py:91-147 | a record raises exactly when `int()` refuses its id, when `int()` refuses the wn_id of its duplicate query, when it queries after a refused insert, or when its save raises; the block is marked for rollback exactly when it was or the database refused the record's insert |
| ImportTask.StepRollback | vespadb/observations/tasks/generate_import.py:139-146 | one record marks the block for rollback exactly when it was, or when the error it adds is a refused insert |
| ImportTask.RunTallies | vespadb/observations/tasks/generate_import.py:83-147 | every record up to the one that raised is counted exactly once among created, updated and errors; without an exception every checked record is |
| ImportTask.RunProgressBounded | vespadb/observations/tasks/generate_import.py:149 | the progress stays between 0 and 100 while at most the total is written |
| ImportTask.StepProgress | vespadb/observations/tasks/generate_import.py:91-150 | one record writes at most one observation and keeps the progress between 0 and 100 |
| ImportTask.ShareBounded | vespadb/observations/tasks/generate_import.py:149 | a written share of the total is a percentage |
| ImportTask.RunProgressAtEnd | vespadb/observations/tasks/generate_import.py:149-150 | without errors or an exception the last record leaves the progress at the written share |
| ImportTask.RunErrorsGrow | vespadb/observations/tasks/generate_import.py:102-147 | the error list only grows |
| ImportTask.RunRollbackIff | vespadb/observations/tasks/generate_import.py:82-147 | the atomic block ends marked for rollback exactly when the database refused one of the run's inserts |
| ImportTask.RunKeys | vespadb/observations/tasks/generate_import.py:139-141 | created observations are new rows under fresh keys, and no row disappears |
| ImportTask.StepKeys | vespadb/observations/tasks/generate_import.py:139-141 | one record keeps every key below the next one and adds a created row under the next key |
| ImportTask.ImportEnds | vespadb/observations/tasks/generate_import.py:43-192 | the file stays exactly when its JSON is invalid; the import ends completed exactly with a completed result holding the stored ids, and failed exactly with a failed result holding the stored message |
| ImportTask.CompletedWroteEverything | vespadb/observations/tasks/generate_import.py:149-180 | a completed import wrote every checked record, and shows progress 100 when there was one |
| ImportTask.ImportProgressBounded | vespadb/observations/tasks/generate_import.py:149-150 | the stored progress stays a percentage |
| ImportTask.DatabaseErrorsRollBack | vespadb/observations/tasks/generate_import.py:82-192 | once the records were handled, the stored observations are those before the import exactly when a record raised or the database refused an insert, and those the run wrote otherwise; the import fails with the exception exactly when one was raised |
| ImportTask.ErrorsDoNotRollBack | vespadb/observations/tasks/generate_import.py:82-159 | an update before a record naming an unknown id stays written although the import is marked failed |
| ImportTask.InsertErrorUndoesEarlierUpdate | vespadb/observations/tasks/generate_import.py:82-159 | an insert the database refuses undoes the update before it: the import fails with the insert's error, the observations are as before and the progress stays at 50 |
| ImportTask.QueryAfterInsertErrorAborts | vespadb/observations/tasks/generate_import.py:82-192 | after an insert the database refused, the next record's query raises TransactionManagementError, which fails the import and stores nothing |
| ImportTask.TextIdUpdates | vespadb/observations/tasks/generate_import.py:91-100 | an id given as the decimal text of a stored key updates that observation |
| ImportTask.RunAbortsBy | vespadb/observations/tasks/generate_import.py:83-93 | a record whose id `int()` refuses ends the run by the time it is reached |
| ImportTask.NonNumericIdAborts | vespadb/observations/tasks/generate_import.py:91-192 | an id that is text `int()` refuses fails the import with the conversion error and stores nothing of the run |
| ImportTask.TextWnIdAlreadyExists | vespadb/observations/tasks/generate_import.py:118-132 | a wn_id given as the decimal text of a stored observation's wn_id, with the same source, is reported as already existing and nothing is written |
| ImportTask.NonNumericWnIdAborts | vespadb/observations/tasks/generate_import.py:118-125 | a record without id whose wn_id is text `int()` refuses fails the import with the conversion error when the duplicate query is built, and nothing is written |
| UserMunicipalities.Matching | vespadb/management/commands/update_user_municipalities.py:121 | the rows matched by name are exactly the current municipalities with that name |
| UserMunicipalities.Get | vespadb/management/commands/update_user_municipalities.py:96 | QuerySet.get raises DoesNotExist exactly when no current municipality has the name, and a found one is current and has the name |
| UserMunicipalities.SplitMunicipalities | vespadb/management/commands/update_user_municipalities.py:77-81 | the loop splits a user's municipalities into those with a current name and the rest, which together are all of them and do not overlap |
| UserMunicipalities.CollectReplacements | vespadb/management/commands/update_user_municipalities.py:91-125 | the replacement loop raises exactly when some lookup raises, and otherwise collects ToAdd |
| UserMunicipalities.CheckOneUser | vespadb/management/commands/update_user_municipalities.py:71-150 | one pass of the user loop decides as CheckUser specifies |
| UserMunicipalities.UpdateUser | vespadb/management/commands/update_user_municipalities.py:70-156 | one user is decided as CheckUser specifies and their assignments are rewritten unless dry run; nobody else changes |
| UserMunicipalities.UpdateUsers | vespadb/management/commands/update_user_municipalities.py:69-156 | the user loop leaves the directory and the counters Visited specifies, and counts updated users exactly as users with issues |
| UserMunicipalities.VisitedIsPartial | vespadb/management/commands/update_user_municipalities.py:69-156 | visiting distinct users one at a time is deciding each of them once, in any order |
| UserMunicipalities.VisitedAll | vespadb/management/commands/update_user_municipalities.py:47-69 | visiting every user of the distinct query gives the whole command's result |
| UserMunicipalities.Handle | vespadb/management/commands/update_user_municipalities.py:39-172 | the directory becomes Reassigned; the total is the number of users holding a municipality, the users with issues are counted once each, and the updated count equals it |
| UserMunicipalities.DistinctCount | vespadb/management/commands/update_user_municipalities.py:47-51 | the distinct query's count is the number of users holding a municipality |
| UserMunicipalities.AllValidUserUnchanged | vespadb/management/commands/update_user_municipalities.py:83-150 | a user whose municipalities all carry a current name is left as is and not counted |
| UserMunicipalities.DryRunChangesNothing | vespadb/management/commands/update_user_municipalities.py:128-139 | a dry run writes nothing, and every user a real run would change is among the users it reports |
| UserMunicipalities.FixedUserHoldsOnlyCurrent | vespadb/management/commands/update_user_municipalities.py:128-156 | outside a dry run a fixed user ends with exactly their valid municipalities and the replacements, all current; a user whose lookup raised is left as is |
| UserMunicipalities.AddedAreCurrent | vespadb/management/commands/update_user_municipalities.py:96-123 | every replacement is a current municipality not already among the user's valid ones |
| UserMunicipalities.NameMatchAddsNothing | vespadb/management/commands/update_user_municipalities.py:91-109 | under name_match the lookup uses the invalid municipality's own name, which is not current, so nothing is ever added |
| UserMunicipalities.NameMatchIsClearInvalid | vespadb/management/commands/update_user_municipalities.py:91-109 | name_match therefore leaves the same directory and the same users with issues as clear_invalid |
| UserMunicipalities.IssuesAtMostTotal | vespadb/management/commands/update_user_municipalities.py:147-164 | the users with issues are among the users checked, so there are at most as many |
| UserMunicipalities.ConsistentDirectoryUnchanged | vespadb/management/commands/update_user_municipalities.py:60-78 | when every assigned municipality is a row of the municipality table, the command changes nothing and finds no issues |
| UserMunicipalities.InteractiveAddsChosen | vespadb/management/commands/update_user_municipalities.py:117-125 | under interactive every replacement is the current municipality named by a non-empty answer other than "skip" typed for a removed municipality |
| Serializers.Project | vespadb/observations/serializers.py:48 | the projection keeps only listed fields the data has, with their values |
| Serializers.RepresentationFields | vespadb/observations/serializers.py:44-49 | for an anonymous caller the keys are exactly the public fields the data has, with their values; without a request or for an authenticated caller the data is returned whole |
| Serializers.RepresentationIdempotent | vespadb/observations/serializers.py:46-48 | restricting an anonymous representation again changes nothing |
| Serializers.AnonymousSeesOnlyPublic | vespadb/observations/serializers.py:31-48 | nothing outside the public list, such as reserved_by or notes, reaches an anonymous caller |
| Serializers.MisspelledFieldHidden | vespadb/observations/serializers.py:39 | as written, eradication_datetime never reaches an anonymous caller |
| Serializers.AnonymousSeesEradicationDate | vespadb/observations/serializers.py:31-48 | with the intended list, an anonymous caller sees an observation's eradication date unchanged |
| Serializers.UpdateKeepsOthers | vespadb/observations/serializers.py:39 | correcting one name in the list changes the membership of no other field |
| Serializers.AsWrittenDiffersOnlyInEradicationDate | vespadb/observations/serializers.py:31-49 | for data without the misspelled key, the two lists give the same representation apart from eradication_datetime |
| Serializers.EradicatedObservationCounterexample | vespadb/observations/serializers.py:39-48 | an eradicated observation read anonymously shows nothing as written and its eradication date as intended |
| Serializers.ValidateLocation | vespadb/observations/serializers.py:64-70 | a location is rejected with "Missing or invalid location data" exactly when a coordinate is missing or None |
| Serializers.ValidateLocationRoundTrip | vespadb/observations/serializers.py:64-70 | a point with both coordinates, read back as a location, validates to itself |
| Serializers.ValidatedPointCoordinates | vespadb/observations/serializers.py:70 | an accepted location becomes Point(longitude, latitude), which reads back as the given coordinates |
| Views.SerializerChoice | vespadb/observations/views.py:69-81 | a PATCH gets the admin patch serializer exactly for staff and the limited one exactly for other users; every other method gets the default serializer |
| Views.PatchProtectsFields | vespadb/observations/serializers.py:80-123 | a PATCH by a non-staff user cannot write any read-only field (location, municipality, wn_id, source, images, ...); staff can write every field but id |
| Views.PutBypassesPatchLimits | vespadb/observations/views.py:77-81 | the limits hold only for PATCH: a PUT by any user gets the default serializer, which writes the fields PATCH protects |
| Views.PatchListsDisjoint | vespadb/observations/serializers.py:80-112 | no field is both writable and read-only in the limited patch serializer |
| Views.PermissionTable | vespadb/observations/views.py:94-100 | create, update and partial_update need a signed-in user; destroy needs staff; every other action is open |
| Views.ExportOpenToAnyone | vespadb/observations/views.py:94-100 | as written, export and bulk_import pass for every caller, anonymous included, although their decorators declare IsAdminUser |
| Views.ExportNeedsStaff | vespadb/observations/views.py:156-167 | with the declared action permissions, export and bulk_import pass exactly for staff, and the standard actions keep the table's permission |
| Views.StaffPassEverything | vespadb/observations/views.py:94-100 | staff pass every check any user passes |
| Views.MunicipalityPermission | vespadb/observations/views.py:191-197 | a GET is open; every other method needs staff |
| Views.CreateOutcomes | vespadb/observations/views.py:102-138 | without both coordinates the request is refused with "Longitude and latitude are required."; a created observation is the request data with the located municipality's key added, and it passed validation |
| Views.NoMunicipalityMessageLost | vespadb/observations/views.py:123-132 | for every request, the create view as written never rejects with the message "No municipality found for the provided location." |
| Views.NoMunicipalityReported | vespadb/observations/views.py:120-126 | as intended, a point no municipality contains is refused with that message where the code answers the unexpected-error message; everywhere else the two agree |
| Views.OutsideCounterexample | vespadb/observations/views.py:123-132 | a concrete request with numeric coordinates outside every municipality: the unexpected-error message as written, the no-municipality message as intended |
| Views.SortItems | vespadb/observations/views.py:144 | `sorted(query_params.items())` keeps length and items |
| Views.SortIncreasing | vespadb/observations/views.py:144 | the sorted items of a dictionary are in strictly increasing key order |
| Views.IncreasingUnique | vespadb/observations/views.py:144 | two strictly increasing item lists with the same items are equal |
| Views.CacheKeyOrderIndependent | vespadb/observations/views.py:143-145 | two requests with the same query parameters, in any order, get the same cache key |
| Views.Geojson | vespadb/observations/views.py:141-154 | the reply and the new cache are what GeojsonReply specifies |
| Views.GeojsonHitOrMiss | vespadb/observations/views.py:146-154 | a hit on a non-empty entry answers from the cache and changes nothing; a miss answers the fresh serialization and stores it under the request's key, leaving other keys alone |
| Views.SecondRequestHits | vespadb/observations/views.py:143-154 | after a miss, the same parameters in any order are answered from the cache with the same body |
| Views.EmptyCachedReplyRecomputed | vespadb/observations/views.py:148 | an empty cached text counts as a miss |
| Views.ResponseCache.constructor | vespadb/observations/views.py:146 | the cache starts with the given entries |

## Left out

- Network I/O is left out. This covers the store's API calls, the waarnemingen OAuth token and page requests, the nest requests, and reading and deleting files in S3 storage. Each response, or its failure, is a parameter.
- Timers and concurrency are left out. This covers the `setTimeout` waits between polls, the store's session re-check interval, Celery scheduling and `self.retry`, and the cache-rebuild lock. A retry request is the error value the run ends with, and a poll loop is a bounded loop of attempts.
- When a synchronisation runs is left out, like the rest of the Celery scheduling. This includes the module-level `fetch_and_update_observations()` call at the end of `vespadb/observations/tasks.py` (line 232), which runs the older synchronisation every time the module is imported. A run is modelled only as one call of `LegacySync.FetchAndUpdateObservations`.
- Time zones and date parsing are left out. The store's dates are (year, month, day) already in Brussels time. Back-end instants are integer seconds in UTC. `strptime`, `fromisoformat` and the Europe/Paris conversion in the mappers are parsing parameters.
- Floating point is left out. This covers the coordinates of a point (their text is kept) and `float()` in the observations view (a parameter that may raise ValueError).
- ImportTask.ParseIntText: `int()` of a text id or wn_id also accepts surrounding whitespace and underscores between digits (" 5", "1_0"); the model refuses such text. The conversion error's message is not modelled; the failure carries the id or wn_id instead.
- ImportTask.ParseIntRejects: for text such as " 5" or "1_0" the refusal it states does not hold in Python, for the reason given under ImportTask.ParseIntText.
- ImportTask.NonNumericIdAborts: an id such as " 5" or "1_0" meets its requires, yet Python's `int()` accepts it, so the import does not abort there; see ImportTask.ParseIntText.
- ImportTask.NonNumericWnIdAborts: a wn_id such as " 5" or "1_0" meets its requires, yet Python's `int()` accepts it, so the import does not abort there; see ImportTask.ParseIntText.
- ImportTask.StepRecord: the import writes its rows directly, without the receivers that `obs.save()` (generate_import.py:99) and `Observation.objects.create` (:140) fire. A record that sets or changes `reserved_by` therefore leaves every reservation count as it was.
  - Missing: the pre_save receiver (signals.py:13-36), which moves one reservation from the old `reserved_by` user's count to the new one's.
  - Missing: the post_save receiver (signals.py:39-64), which stamps `reserved_datetime` and makes its eradication comparison.
  - Those receivers are modelled for a single save by `Reservations.Database.Create` and `Reservations.Database.Update`.
- ImportTask.StepRecord: the `source` and `source_id` lookups of the duplicate query compare the values as the record gives them. Django's conversion of those values to the columns' types is not modelled, because the field type of `source_id` is not part of this model.
- ImportTask.StepRecord: an insert that fails takes no key from the sequence. PostgreSQL may consume one, which changes only the keys later inserts get.
- ObservationSync.SplitPages: the `while True` loop is followed for at most a given number of pages. A run that would ask for more ends with the PAGE_LIMIT mark, which no source error has. Results that are not a list of objects are not modelled.
- ObservationSync.SyncObservationPages: follows at most `maxPages` pages, as SplitPages does; the source has no bound.
- ObservationSync.FetchAndUpdateObservations: a run cut short by the page bound ends with the PAGE_LIMIT mark and skips the visibility pass. The source would still be in its loop.
- ObservationSync.ClustersFrom: fetch_clusters' `while url` loop is followed for at most a given number of requests, and a run cut short keeps the clusters gathered.
- LegacySync.CollectPages: the `while True` loop is followed for at most a given number of pages. A run that would ask for more ends with the PAGE_LIMIT mark before anything is written. Results that are not a list of objects are not modelled.
- LegacySync.FetchAndUpdateObservations: a run cut short by the page bound writes nothing. The source would still be in its loop.
- LegacySync.RecordError: only the attribute names of ENUMS_MAPPING count as keywords that `Observation(...)` rejects. The Observation model's field list is not part of this model, so any other key the mapper produces is accepted.
- Two eradication fields. The model treats `eradication_datetime` as a field of an observation that exists separately from `eradication_date`.
  - `eradication_datetime` is read or written by the post_save receiver (signals.py:62), the reservation audit (tasks/reservation_cleanup.py:78), the serializer's field list (serializers.py:92) and the older mapper (observation_mapper.py:194).
  - `eradication_date` is used by the filters, the export, the newer mapper and migration 0021.
  - Records are maps from field name to value, and the model class that decides which name exists is not part of this model. Each piece of code is therefore modelled reading the name it uses.
  - If `eradication_date` is the only field, none of the following is modelled: the post_save comparison would raise AttributeError instead of never firing; the audit would raise FieldError; a keyword record from the older mapper would make `Observation(...)` raise TypeError; and the field serializers.py:39 evidently means would be `eradication_date`.
- ImportTask.ProcessRecords: the progress is the integer `(created + updated) * 100 / total`, rounded down. The source computes `int(share / total * 100)` in floating point, which can come out one lower (29 of 100 gives 28).
- Geography is left out. Point-in-polygon municipality lookup, ANB-area membership and SRID transforms are parameters.
- Rendering is left out: Leaflet marker creation and styling, the file download through a Blob, and the store's modal messages. The store keeps only each cached marker's status.
- `difflib.get_close_matches` is a parameter: it returns the close match, or nothing.
- Django internals are left out. Tables are maps from key to record, and querysets are sequences in a given order. The database errors modelled are the import's failing insert and update, the `int()` conversion of an import id and of the wn_id in the duplicate query, the TransactionManagementError a query raises after a refused insert inside an atomic block, and the unique-key error of the older synchronisation's `bulk_create`. Other database exceptions are not modelled. Whether an insert is refused before or by the database is part of the insert parameter.
- Logging, `stdout` messages and the summary printed by the management command are left out.
- The key order of Python dictionaries and JavaScript objects is left out, since records are maps. The one exception is the store's filters, where `JSON.stringify` depends on key order, so that order is modelled.
- Text.AsciiUpper: maps only ASCII letters. Python's `str.upper()` also maps other letters.
- Text.AsciiLower: maps only ASCII letters. Python's `str.lower()` also maps other letters.
- The interactive prompt's text is left out. An answer is given already stripped. A user's municipalities form a set, so the order in which they are visited within one user is not modelled.
- The `export` action's CSV body and `bulk_import`'s 501 reply are left out. Only the permissions of these two actions are modelled. The geojson view's serialization is a parameter, and so is the cache's expiry time.
- `generate_geojson_task`'s final `cache.set` and the `get_serializer_context` hook are left out. The hook holds no logic.
- `ObservationsViewSet.process_data` is not part of this model. The views module shown here does not define it. The import takes its result as a parameter.
- VespaStore.Store.ReserveObservation: a `reservation_count` that is not a number is treated as absent. The session re-check after a reservation is not modelled.
- The nests app, the migrations, `generate_export.py` (which imports a name `export_utils.py` does not define), the enum declarations and the URL and app configuration are left out.

## Findings

| source | as written | input that shows it | evidently intended | confidence | as-written member | corrected member |
|---|---|---|---|---|---|---|
| vespadb/observations/signals.py:59-64 | the eradication decrement compares the saved observation with a copy re-read after the save, so `not old.eradication_datetime and instance.eradication_datetime` never holds and no count is decremented | a reserved observation saved with a newly set eradication_datetime | the reserving user's count drops by one when their reserved nest is first eradicated, so counts track active reservations | not executed | Reservations.AsWrittenDecrementNeverFires | Reservations.SignalsKeepActiveCounts |
| vespadb/observations/observation_mapper.py:142-147, 193 | `eradication_datetime` and `eradicator_name` are bound only when the notes hold a keyword, yet are read unconditionally | a record with every required field, parsing dates and a point, and no "notes" key | records without a keyword map without eradication fields | not executed | LegacyObservationMapper.UnboundOnRecordWithoutNotes | LegacyObservationMapper.MapsToBuild |
| vespadb/observations/tasks.py:155-170 | the older mapper keys each matched enum value by the API attribute's name (observation_mapper.py:76), and the task passes those keys to `Observation(...)`, which raises TypeError on a keyword that names no field | a new record whose notes read "BESTREDEN", with the attribute {"name": "Nesthoogte", "value": "hoog"} and the close match "hoog" | enum values are keyed by model field, as the newer mapper keys them (tasks/observation_mapper.py:77), and such records are stored | not executed | LegacySync.NameKeyedRecordStopsRun | LegacySync.ByFieldPagesSortIff |
| vespadb/observations/serializers.py:39 | the public field list names "eradiction_datetime", which no field has | an eradicated observation read by an anonymous caller | anonymous callers see the eradication date | not executed | Serializers.EradicatedObservationCounterexample | Serializers.AnonymousSeesEradicationDate |
| vespadb/observations/views.py:123-132 | the "No municipality found" ValidationError is raised inside the `try` and caught by `except Exception`, which answers the unexpected-error message instead | numeric coordinates that no municipality contains | the caller is told that no municipality was found | not executed | Views.OutsideCounterexample | Views.NoMunicipalityReported |
| vespadb/observations/views.py:83-100, 156-167 | `get_permissions` is overridden without reading the action's `permission_classes`, so `export` and `bulk_import` fall into the AllowAny branch | an anonymous GET of the export action | only staff may export or bulk-import, as the decorators declare | not executed | Views.ExportOpenToAnyone | Views.ExportNeedsStaff |
| vespadb/observations/tasks/observation_sync.py:274-279 | `offset += len(data["results"])` adds nothing after a reply with no results and a next link, so the loop asks for the same page forever; the loop at vespadb/observations/tasks.py:174-179 does the same | a page reply `{"results": [], "next": "<any link>"}` | the loop ends after a page without results | not executed | ObservationSync.EmptyPageWithNextNeverStops | ObservationSync.StoppingLoopEnds |

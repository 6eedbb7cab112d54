/** The synchronisation with the waarnemingen API
    (vespadb/observations/tasks/observation_sync.py): observation pages are
    mapped, split into new and known observations and written page by page;
    afterwards the nest clusters decide which observations stay visible.

    The HTTP requests, the OAuth token and the clock are parameters: a page
    request is a function of the modified-after instant and the offset, a
    cluster request a function of the offset. The mapper is a parameter too;
    in the source it is ObservationMapper.MapExternalData. The list of fields
    a synchronisation may overwrite (SYSTEM_USER_OBSERVATION_FIELDS_TO_UPDATE)
    is defined outside this code and is a parameter as well. */
module ObservationSync {
  import opened Wrappers
  import opened Records
  import opened SyncTable
  import Reservations

  // ------------------------------------------------------------ one row

  /** The row update_observations leaves behind for `current`: each field of
      `fields` that the row has takes the incoming observation's value (None
      where the incoming observation does not set it); the others stay. */
  function Overwritten(current: Record, incoming: Record, fields: seq<string>): (r: Record)
    ensures r.Keys == current.Keys
  {
    map k | k in current :: if k in fields then Field(incoming, k) else current[k]
  }

  /** Some field of `fields` the row has holds a value other than the
      incoming one. */
  predicate Differs(current: Record, incoming: Record, fields: seq<string>) {
    exists k :: k in current && k in fields && current[k] != Field(incoming, k)
  }

  /** The field loop of update_observations for one row: the row with the
      incoming values set, and whether any of them changed it, which is what
      puts the row in the bulk update. */
  method DiffFields(observation: Record, updated: Record, fields: seq<string>)
      returns (r: Record, updateNeeded: bool)
    ensures r == Overwritten(observation, updated, fields)
    ensures updateNeeded <==> Differs(observation, updated, fields)
  {
    r := observation;
    updateNeeded := false;
    for i := 0 to |fields|
      invariant r.Keys == observation.Keys
      invariant forall k :: k in observation ==>
        r[k] == if k in fields[..i] then Field(updated, k) else observation[k]
      invariant updateNeeded <==>
        exists k :: k in observation && k in fields[..i] && observation[k] != Field(updated, k)
    {
      var field := fields[i];
      assert fields[..i + 1] == fields[..i] + [field];
      if field in r {
        var newValue := Field(updated, field);
        var currentValue := r[field];
        if currentValue != newValue {
          r := r[field := newValue];
          updateNeeded := true;
        }
      }
    }
    assert fields[..|fields|] == fields;
  }

  /** A row goes to the bulk update exactly when overwriting changes it. */
  lemma UnchangedIffNoDiff(current: Record, incoming: Record, fields: seq<string>)
    ensures Overwritten(current, incoming, fields) == current <==> !Differs(current, incoming, fields)
  {
    var r := Overwritten(current, incoming, fields);
    if Differs(current, incoming, fields) {
      var k :| k in current && k in fields && current[k] != Field(incoming, k);
      assert r[k] != current[k];
    } else {
      assert forall k :: k in current ==> r[k] == current[k];
    }
  }

  /** Writing the same observation twice: the second write changes nothing
      and sends nothing to the bulk update. */
  lemma OverwriteIdempotent(current: Record, incoming: Record, fields: seq<string>)
    ensures !Differs(Overwritten(current, incoming, fields), incoming, fields)
    ensures Overwritten(Overwritten(current, incoming, fields), incoming, fields)
         == Overwritten(current, incoming, fields)
  {
    var r := Overwritten(current, incoming, fields);
    assert forall k :: k in r && k in fields ==> r[k] == Field(incoming, k);
    UnchangedIffNoDiff(r, incoming, fields);
  }

  // ------------------------------------------------------------ update_observations

  /** `{obs.wn_id: obs for obs in observations_to_update}`. */
  function ByWnId(records: seq<Record>): (d: map<PyValue, Record>)
    ensures forall i :: 0 <= i < |records| ==> WnIdOf(records[i]) in d
    ensures forall w :: w in d ==> WnIdOf(d[w]) == w && d[w] in records
    decreases |records|
  {
    if records == [] then map[]
    else
      var last := records[|records| - 1];
      ByWnId(records[..|records| - 1])[WnIdOf(last) := last]
  }

  /** A later observation with the same wn_id replaces an earlier one. */
  lemma {:induction false} ByWnIdLastWins(records: seq<Record>, i: nat)
    requires i < |records|
    requires forall j :: i < j < |records| ==> WnIdOf(records[j]) != WnIdOf(records[i])
    ensures ByWnId(records)[WnIdOf(records[i])] == records[i]
    decreases |records|
  {
    if i < |records| - 1 {
      var front := records[..|records| - 1];
      assert forall j :: i < j < |front| ==> front[j] == records[j];
      ByWnIdLastWins(front, i);
      assert front[i] == records[i];
    }
  }

  /** The table after update_observations: the rows whose wn_id is listed
      are overwritten from the observation with that wn_id; the others, and
      every field outside `fields`, are left alone. */
  function SyncedRows(rows: Rows, incoming: map<PyValue, Record>, wnIds: set<PyValue>, fields: seq<string>): (r: Rows)
    ensures r.Keys == rows.Keys
  {
    map w | w in rows :: if w in wnIds && w in incoming then Overwritten(rows[w], incoming[w], fields) else rows[w]
  }

  /** update_observations: every listed row is compared field by field and
      only the rows that change are written. The written table is the table
      in which every listed row is overwritten, and the bulk update holds
      exactly the rows that differ. The requires is the dictionary lookup
      that raises KeyError otherwise; the synchronisation always meets it. */
  method UpdateObservations(t: ObservationTable, toUpdate: seq<Record>, wnIdsToUpdate: seq<PyValue>, fields: seq<string>)
      returns (bulk: set<PyValue>)
    requires forall w :: w in wnIdsToUpdate && w in t.rows ==> w in ByWnId(toUpdate)
    modifies t
    ensures t.rows == SyncedRows(old(t.rows), ByWnId(toUpdate), (set w | w in wnIdsToUpdate), fields)
    ensures forall w :: w in bulk <==>
      w in old(t.rows) && w in wnIdsToUpdate && Differs(old(t.rows)[w], ByWnId(toUpdate)[w], fields)
  {
    var updateDict := ByWnId(toUpdate);
    var ids := set w | w in wnIdsToUpdate;
    var rows := t.rows;
    var changed;
    changed, bulk := ChangedRows(rows, updateDict, ids, fields);
    SyncedFromChanged(rows, updateDict, ids, fields, changed);
    if changed != map[] {
      t.rows := rows + changed;
    } else {
      assert rows + changed == rows;
    }
  }

  /** The loop over `filter(wn_id__in=wn_ids_to_update)`, taken in an order
      the database chooses: the rows that change, as they become, and their
      wn_ids. */
  method ChangedRows(rows: Rows, updateDict: map<PyValue, Record>, ids: set<PyValue>, fields: seq<string>)
      returns (changed: Rows, bulk: set<PyValue>)
    requires forall w :: w in ids && w in rows ==> w in updateDict
    ensures changed.Keys == bulk
    ensures forall w :: w in bulk <==> w in rows && w in ids && Differs(rows[w], updateDict[w], fields)
    ensures forall w :: w in changed ==> changed[w] == Overwritten(rows[w], updateDict[w], fields)
  {
    var pending := set w | w in rows && w in ids;
    changed := map[];
    bulk := {};
    while pending != {}
      invariant pending <= rows.Keys * ids
      invariant changed.Keys == bulk
      invariant forall w :: w in bulk <==>
        w in rows && w in ids && w !in pending && Differs(rows[w], updateDict[w], fields)
      invariant forall w :: w in changed ==> changed[w] == Overwritten(rows[w], updateDict[w], fields)
      decreases pending
    {
      NonEmptyHasKey(pending);
      var w :| w in pending;
      var r, needed := DiffFields(rows[w], updateDict[w], fields);
      if needed {
        changed := changed[w := r];
        bulk := bulk + {w};
      }
      pending := pending - {w};
    }
  }

  /** Writing back only the changed rows gives the fully overwritten table. */
  lemma SyncedFromChanged(rows: Rows, incoming: map<PyValue, Record>, ids: set<PyValue>, fields: seq<string>, changed: Rows)
    requires forall w :: w in ids && w in rows ==> w in incoming
    requires forall w :: w in changed <==> w in rows && w in ids && Differs(rows[w], incoming[w], fields)
    requires forall w :: w in changed ==> changed[w] == Overwritten(rows[w], incoming[w], fields)
    ensures rows + changed == SyncedRows(rows, incoming, ids, fields)
  {
    var s := SyncedRows(rows, incoming, ids, fields);
    forall w | w in rows
      ensures (rows + changed)[w] == s[w]
    {
      if w in ids && w !in changed {
        UnchangedIffNoDiff(rows[w], incoming[w], fields);
      }
    }
  }

  // ------------------------------------------------------------ one page

  /** What the mapper, the system user and the clock give the page loop.
      `now` stands for every `now()` of one run. */
  datatype SyncEnv = SyncEnv(
    mapper: Record -> Result<Option<Record>, string>,
    systemUser: PyValue,
    now: int,
    fields: seq<string>)

  /** A page split into observations to create, observations to update and
      the wn_ids of the latter, in page order. */
  datatype Split = Split(toCreate: seq<Record>, toUpdate: seq<Record>, wnIdsToUpdate: seq<PyValue>)

  /** The wn_id list names the update list's observations, one for one. */
  predicate WellSplit(s: Split) {
    && |s.wnIdsToUpdate| == |s.toUpdate|
    && forall i :: 0 <= i < |s.toUpdate| ==> s.wnIdsToUpdate[i] == WnIdOf(s.toUpdate[i])
  }

  /** New observations are new to the ids known when the run started; the
      ones to update are known. */
  predicate SortedBy(s: Split, existing: set<PyValue>) {
    && (forall x :: x in s.toCreate ==> WnIdOf(x) !in existing)
    && (forall w :: w in s.wnIdsToUpdate ==> w in existing)
  }

  /** A new observation: the mapped fields, created and modified by the
      system user, now. */
  function AsCreated(mapped: Record, env: SyncEnv): Record {
    mapped["created_by" := env.systemUser]["modified_by" := env.systemUser]
          ["created_datetime" := PyDatetime(env.now)]["modified_datetime" := PyDatetime(env.now)]
  }

  /** An observation to update: the mapped fields, modified by the system
      user, now. */
  function AsUpdated(mapped: Record, env: SyncEnv): Record {
    mapped["modified_by" := env.systemUser]["modified_datetime" := PyDatetime(env.now)]
  }

  /** The mapper accepts the record: it maps it to nothing, or to fields
      that hold a wn_id. */
  predicate Maps(env: SyncEnv, external: Record) {
    && env.mapper(external).Success?
    && (env.mapper(external).value.Some? ==> "wn_id" in env.mapper(external).value.value)
  }

  /** One record of the page: skipped when the mapper gives None, added to
      the update list when its wn_id was known at the start of the run, to
      the create list otherwise; a mapper error, or mapped fields without a
      wn_id (KeyError), ends the run. */
  function SortOne(s: Split, external: Record, existing: set<PyValue>, env: SyncEnv): Result<Split, string>
  {
    match env.mapper(external)
    case Failure(e) => Failure(e)
    case Success(None) => Success(s)
    case Success(Some(mapped)) =>
      if "wn_id" !in mapped then Failure("KeyError: 'wn_id'")
      else if mapped["wn_id"] in existing then
        Success(Split(s.toCreate, s.toUpdate + [AsUpdated(mapped, env)], s.wnIdsToUpdate + [mapped["wn_id"]]))
      else
        Success(Split(s.toCreate + [AsCreated(mapped, env)], s.toUpdate, s.wnIdsToUpdate))
  }

  /** The rest of the page, continuing the lists `s`. */
  function SortRest(s: Split, results: seq<Record>, existing: set<PyValue>, env: SyncEnv): Result<Split, string>
    decreases |results|
  {
    if results == [] then Success(s)
    else
      match SortOne(s, results[0], existing, env)
      case Failure(e) => Failure(e)
      case Success(next) => SortRest(next, results[1..], existing, env)
  }

  /** The split of one page's results. */
  function Partition(results: seq<Record>, existing: set<PyValue>, env: SyncEnv): Result<Split, string>
  {
    SortRest(Split([], [], []), results, existing, env)
  }

  /** Each record keeps the two lists consistent. */
  lemma SortOneWellFormed(s: Split, external: Record, existing: set<PyValue>, env: SyncEnv)
    requires WellSplit(s) && SortedBy(s, existing)
    ensures var r := SortOne(s, external, existing, env);
            r.Success? ==> WellSplit(r.value) && SortedBy(r.value, existing)
  {
  }

  lemma {:induction false} SortRestWellFormed(s: Split, results: seq<Record>, existing: set<PyValue>, env: SyncEnv)
    requires WellSplit(s) && SortedBy(s, existing)
    ensures var r := SortRest(s, results, existing, env);
            r.Success? ==> WellSplit(r.value) && SortedBy(r.value, existing)
    decreases |results|
  {
    if results != [] {
      SortOneWellFormed(s, results[0], existing, env);
      var one := SortOne(s, results[0], existing, env);
      if one.Success? {
        SortRestWellFormed(one.value, results[1..], existing, env);
      }
    }
  }

  /** A split page pairs each observation to update with its wn_id, lists
      for creation only wn_ids unknown at the start of the run, and for
      update only known ones. */
  lemma PartitionWellFormed(results: seq<Record>, existing: set<PyValue>, env: SyncEnv)
    ensures var r := Partition(results, existing, env);
            r.Success? ==> WellSplit(r.value) && SortedBy(r.value, existing)
  {
    SortRestWellFormed(Split([], [], []), results, existing, env);
  }

  /** The loop over `data["results"]` of fetch_and_update_observations. */
  method PartitionPage(results: seq<Record>, existing: set<PyValue>, env: SyncEnv) returns (r: Result<Split, string>)
    ensures r == Partition(results, existing, env)
  {
    var observationsToUpdate: seq<Record> := [];
    var observationsToCreate: seq<Record> := [];
    var wnIdsToUpdate: seq<PyValue> := [];
    for i := 0 to |results|
      invariant Partition(results, existing, env)
             == SortRest(Split(observationsToCreate, observationsToUpdate, wnIdsToUpdate), results[i..], existing, env)
    {
      assert results[i..][1..] == results[i + 1..];
      var mappedData := env.mapper(results[i]);
      if mappedData.Failure? {
        return Failure(mappedData.error);
      }
      if mappedData.value.None? {
        continue;
      }
      var mapped := mappedData.value.value;
      if "wn_id" !in mapped {
        return Failure("KeyError: 'wn_id'");
      }
      var wnId := mapped["wn_id"];
      if wnId in existing {
        wnIdsToUpdate := wnIdsToUpdate + [wnId];
        observationsToUpdate := observationsToUpdate + [AsUpdated(mapped, env)];
      } else {
        observationsToCreate := observationsToCreate + [AsCreated(mapped, env)];
      }
    }
    return Success(Split(observationsToCreate, observationsToUpdate, wnIdsToUpdate));
  }

  /** A page is split exactly when the mapper accepts every record on it:
      one record it rejects stops the run before the page is written. */
  lemma PartitionSucceedsIff(results: seq<Record>, existing: set<PyValue>, env: SyncEnv)
    ensures Partition(results, existing, env).Success? <==> forall x :: x in results ==> Maps(env, x)
  {
    SortRestSucceedsIff(Split([], [], []), results, existing, env);
  }

  lemma {:induction false} SortRestSucceedsIff(s: Split, results: seq<Record>, existing: set<PyValue>, env: SyncEnv)
    ensures SortRest(s, results, existing, env).Success? <==> forall x :: x in results ==> Maps(env, x)
    decreases |results|
  {
    if results != [] {
      var one := SortOne(s, results[0], existing, env);
      assert one.Success? <==> Maps(env, results[0]);
      if one.Success? {
        SortRestSucceedsIff(one.value, results[1..], existing, env);
        assert forall x :: x in results <==> x == results[0] || x in results[1..];
      }
    }
  }

  /** The lists only grow along the page. */
  predicate Extends(s: Split, t: Split) {
    && s.toCreate <= t.toCreate
    && s.toUpdate <= t.toUpdate
    && s.wnIdsToUpdate <= t.wnIdsToUpdate
  }

  lemma {:induction false} SortRestExtends(s: Split, results: seq<Record>, existing: set<PyValue>, env: SyncEnv)
    requires SortRest(s, results, existing, env).Success?
    ensures Extends(s, SortRest(s, results, existing, env).value)
    decreases |results|
  {
    if results != [] {
      var next := SortOne(s, results[0], existing, env).value;
      SortRestExtends(next, results[1..], existing, env);
    }
  }

  /** Nothing mapped is lost: every record the mapper turns into fields
      lands, stamped, in the update list when its wn_id was known and in
      the create list otherwise. */
  lemma PartitionKeepsEveryMapped(results: seq<Record>, existing: set<PyValue>, env: SyncEnv, i: nat)
    requires Partition(results, existing, env).Success?
    requires i < |results| && env.mapper(results[i]).Success? && env.mapper(results[i]).value.Some?
    ensures var mapped := env.mapper(results[i]).value.value;
            var s := Partition(results, existing, env).value;
            "wn_id" in mapped &&
            if mapped["wn_id"] in existing then AsUpdated(mapped, env) in s.toUpdate
            else AsCreated(mapped, env) in s.toCreate
  {
    SortRestKeeps(Split([], [], []), results, existing, env, i);
  }

  lemma {:induction false} SortRestKeeps(s: Split, results: seq<Record>, existing: set<PyValue>, env: SyncEnv, i: nat)
    requires SortRest(s, results, existing, env).Success?
    requires i < |results| && env.mapper(results[i]).Success? && env.mapper(results[i]).value.Some?
    ensures var mapped := env.mapper(results[i]).value.value;
            var r := SortRest(s, results, existing, env).value;
            "wn_id" in mapped &&
            if mapped["wn_id"] in existing then AsUpdated(mapped, env) in r.toUpdate
            else AsCreated(mapped, env) in r.toCreate
    decreases |results|
  {
    var next := SortOne(s, results[0], existing, env).value;
    if i == 0 {
      SortRestExtends(next, results[1..], existing, env);
      var r := SortRest(next, results[1..], existing, env).value;
      var mapped := env.mapper(results[0]).value.value;
      if mapped["wn_id"] in existing {
        var k := |next.toUpdate| - 1;
        assert next.toUpdate[k] == AsUpdated(mapped, env);
        assert r.toUpdate[k] == next.toUpdate[k];
      } else {
        var k := |next.toCreate| - 1;
        assert next.toCreate[k] == AsCreated(mapped, env);
        assert r.toCreate[k] == next.toCreate[k];
      }
    } else {
      SortRestKeeps(next, results[1..], existing, env, i - 1);
    }
  }

  // ------------------------------------------------------------ writing a page

  /** bulk_create(ignore_conflicts=True): an observation whose wn_id is
      already in the table, or earlier in the list, is dropped. */
  function InsertNew(rows: Rows, records: seq<Record>): (r: Rows)
    ensures forall w :: w in rows ==> w in r && r[w] == rows[w]
    ensures forall i :: 0 <= i < |records| ==> WnIdOf(records[i]) in r
    ensures forall w :: w in r && w !in rows ==> WnIdOf(r[w]) == w && r[w] in records
    decreases |records|
  {
    if records == [] then rows
    else
      var w := WnIdOf(records[0]);
      InsertNew(if w in rows then rows else rows[w := records[0]], records[1..])
  }

  /** create_observations. */
  method CreateObservations(t: ObservationTable, observationsToCreate: seq<Record>)
    modifies t
    ensures t.rows == InsertNew(old(t.rows), observationsToCreate)
  {
    if observationsToCreate != [] {
      t.rows := InsertNew(t.rows, observationsToCreate);
    }
  }

  lemma WellSplitCovers(s: Split)
    requires WellSplit(s)
    ensures forall w :: w in s.wnIdsToUpdate ==> w in ByWnId(s.toUpdate)
  {
    forall w | w in s.wnIdsToUpdate
      ensures w in ByWnId(s.toUpdate)
    {
      var i :| 0 <= i < |s.wnIdsToUpdate| && s.wnIdsToUpdate[i] == w;
      assert WnIdOf(s.toUpdate[i]) == w;
    }
  }

  /** The table after one page's transaction: the creates, then the updates. */
  function Committed(rows: Rows, s: Split, fields: seq<string>): (r: Rows)
  {
    SyncedRows(InsertNew(rows, s.toCreate), ByWnId(s.toUpdate), (set w | w in s.wnIdsToUpdate), fields)
  }

  /** The `transaction.atomic()` block of one page. */
  method CommitPage(t: ObservationTable, s: Split, fields: seq<string>)
    requires WellSplit(s)
    modifies t
    ensures t.rows == Committed(old(t.rows), s, fields)
  {
    WellSplitCovers(s);
    CreateObservations(t, s.toCreate);
    var _ := UpdateObservations(t, s.toUpdate, s.wnIdsToUpdate, fields);
  }

  /** An observation first seen during a run is not known to the run: a
      later page that carries it again lists it for creation once more, the
      insert drops it as a conflict, and the row keeps its first copy. */
  lemma NewDuringRunKeepsFirstCopy(rows: Rows, s: Split, existing: set<PyValue>, fields: seq<string>, w: PyValue)
    requires WellSplit(s) && SortedBy(s, existing)
    requires w in rows && w !in existing
    ensures w in Committed(rows, s, fields) && Committed(rows, s, fields)[w] == rows[w]
  {
    assert w !in s.wnIdsToUpdate;
  }

  // ------------------------------------------------------------ what a run keeps

  /** The fields a run leaves alone: those outside `fields`, except the
      visibility flag. */
  predicate Keeps(before: Record, after: Record, fields: seq<string>) {
    forall k :: k in before && k !in fields && k != "visible" ==> k in after && after[k] == before[k]
  }

  /** No row disappears, and each keeps the fields a run leaves alone. */
  predicate Preserves(before: Rows, after: Rows, fields: seq<string>) {
    forall w :: w in before ==> w in after && Keeps(before[w], after[w], fields)
  }

  lemma PreservesTransitive(a: Rows, b: Rows, c: Rows, fields: seq<string>)
    requires Preserves(a, b, fields) && Preserves(b, c, fields)
    ensures Preserves(a, c, fields)
  {
    forall w | w in a
      ensures w in c && Keeps(a[w], c[w], fields)
    {
      assert Keeps(a[w], b[w], fields) && Keeps(b[w], c[w], fields);
    }
  }

  /** A page's transaction deletes nothing and writes only `fields`. */
  lemma CommittedPreserves(rows: Rows, s: Split, fields: seq<string>)
    ensures Preserves(rows, Committed(rows, s, fields), fields)
  {
    var inserted := InsertNew(rows, s.toCreate);
    var r := Committed(rows, s, fields);
    forall w | w in rows
      ensures w in r && Keeps(rows[w], r[w], fields)
    {
      assert inserted[w] == rows[w];
    }
  }

  // ------------------------------------------------------------ the page loop

  /** What fetch_observations_page gives: the page's results and its "next"
      link; nothing (the falsy `{}`) when the request failed or the reply is
      an empty object; a reply that is not a JSON object, on which it raises
      ValueError; or an object without "results", on which
      `data["results"]` raises KeyError. */
  datatype Page = Page(results: seq<Record>, next: PyValue) | NoData | NotADict | WithoutResults

  const FORMAT_ERROR := "Unexpected response format from API"
  const RESULTS_KEY_ERROR := "KeyError: 'results'"

  /** The mark a run carries when the model stops following it: it has
      asked for as many pages as it is allowed and the source would ask for
      another. No source error has this text. */
  const PAGE_LIMIT := "page limit reached"

  /** How a run ends: the table, and the error it raised if any. */
  datatype RunEnd = RunEnd(rows: Rows, error: Option<string>)

  /** The pages a run writes, split, in order, and the error that ended it. */
  datatype Pages = Pages(splits: seq<Split>, error: Option<string>)

  /** One turn of the loop on the page read: the split to write and whether
      a next page follows, or the end of the loop with the error if any. */
  function Turn(page: Page, existing: set<PyValue>, env: SyncEnv): Result<(Split, bool), Option<string>>
  {
    match page
    case NoData => Failure(None)
    case NotADict => Failure(Some(FORMAT_ERROR))
    case WithoutResults => Failure(Some(RESULTS_KEY_ERROR))
    case Page(results, next) =>
      match Partition(results, existing, env)
      case Failure(e) => Failure(Some(e))
      case Success(s) => Success((s, Truthy(next)))
  }

  /** The `while True` loop from `offset` on, for at most `fuel` pages: it
      stops after a failed request, after a page without a next link, or at
      the first error; a run that would ask for more pages ends marked
      PAGE_LIMIT. Which pages it writes does not depend on the table, only
      on the wn_ids known when the run started (`existing`). */
  function SplitPages(existing: set<PyValue>, fetchPage: (int, nat) -> Page, since: int,
                      offset: nat, fuel: nat, env: SyncEnv): Pages
    decreases fuel
  {
    if fuel == 0 then Pages([], Some(PAGE_LIMIT))
    else
      var page := fetchPage(since, offset);
      match Turn(page, existing, env)
      case Failure(e) => Pages([], e)
      case Success((s, more)) =>
        if !more then Pages([s], None)
        else
          var rest := SplitPages(existing, fetchPage, since, offset + |page.results|, fuel - 1, env);
          Pages([s] + rest.splits, rest.error)
  }

  /** Reading and splitting one page. */
  method TakeTurn(data: Page, existing: set<PyValue>, env: SyncEnv) returns (r: Result<(Split, bool), Option<string>>)
    ensures r == Turn(data, existing, env)
    ensures r.Success? ==> WellSplit(r.value.0)
  {
    match data {
      case NoData => return Failure(None);
      case NotADict => return Failure(Some(FORMAT_ERROR));
      case WithoutResults => return Failure(Some(RESULTS_KEY_ERROR));
      case Page(_, _) =>
    }
    var split := PartitionPage(data.results, existing, env);
    if split.Failure? {
      return Failure(Some(split.error));
    }
    PartitionWellFormed(data.results, existing, env);
    return Success((split.value, Truthy(data.next)));
  }

  /** The table after the transactions of the given pages, one after the
      other; a page that fails is not among them, the pages before it stay
      written. */
  function CommitAll(rows: Rows, splits: seq<Split>, fields: seq<string>): Rows
    decreases |splits|
  {
    if splits == [] then rows
    else Committed(CommitAll(rows, splits[..|splits| - 1], fields), splits[|splits| - 1], fields)
  }

  /** The page loop of fetch_and_update_observations. */
  function SyncPages(rows: Rows, existing: set<PyValue>, fetchPage: (int, nat) -> Page, since: int,
                     fuel: nat, env: SyncEnv): RunEnd
  {
    var p := SplitPages(existing, fetchPage, since, 0, fuel, env);
    RunEnd(CommitAll(rows, p.splits, env.fields), p.error)
  }

  method SyncObservationPages(t: ObservationTable, existing: set<PyValue>, fetchPage: (int, nat) -> Page,
                              since: int, env: SyncEnv, maxPages: nat) returns (error: Option<string>)
    modifies t
    ensures RunEnd(t.rows, error) == SyncPages(old(t.rows), existing, fetchPage, since, maxPages, env)
  {
    ghost var rows0 := t.rows;
    ghost var all := SplitPages(existing, fetchPage, since, 0, maxPages, env);
    ghost var done: seq<Split> := [];
    assert all.splits == done + all.splits;
    assert SyncPages(rows0, existing, fetchPage, since, maxPages, env) == RunEnd(CommitAll(rows0, all.splits, env.fields), all.error);
    var offset: nat := 0;
    var fuel := maxPages;
    while fuel > 0
      invariant t.rows == CommitAll(rows0, done, env.fields)
      invariant LogFrom(all, done, existing, fetchPage, since, offset, fuel, env)
      decreases fuel
    {
      var stop;
      stop, error, offset, fuel, done := SyncPage(t, existing, fetchPage, since, offset, fuel, env, rows0, all, done);
      if stop {
        return;
      }
    }
    LogStep(all, done, existing, fetchPage, since, offset, fuel, env);
    return Some(PAGE_LIMIT);
  }

  /** One turn of the `while True` loop: fetch the page at `offset`, split
      it, write it, and say whether the loop stops. */
  method SyncPage(t: ObservationTable, existing: set<PyValue>, fetchPage: (int, nat) -> Page, since: int,
                  offset: nat, fuel: nat, env: SyncEnv, ghost rows0: Rows, ghost all: Pages, ghost done: seq<Split>)
      returns (stop: bool, error: Option<string>, nextOffset: nat, nextFuel: nat, ghost nextDone: seq<Split>)
    requires fuel > 0
    requires t.rows == CommitAll(rows0, done, env.fields)
    requires LogFrom(all, done, existing, fetchPage, since, offset, fuel, env)
    modifies t
    ensures t.rows == CommitAll(rows0, nextDone, env.fields)
    ensures stop ==> all == Pages(nextDone, error)
    ensures nextFuel == fuel - 1
    ensures !stop ==> LogFrom(all, nextDone, existing, fetchPage, since, nextOffset, nextFuel, env)
  {
    var data := fetchPage(since, offset);
    var turn := WritePage(t, data, existing, env);
    LogTurn(all, done, existing, fetchPage, since, offset, fuel, env, turn);
    if turn.Failure? {
      return true, turn.error, offset, fuel - 1, done;
    }
    CommitAllSnoc(rows0, done, turn.value.0, env.fields);
    nextDone := done + [turn.value.0];
    if !turn.value.1 {
      return true, None, offset, fuel - 1, nextDone;
    }
    return false, None, offset + |data.results|, fuel - 1, nextDone;
  }

  /** One turn of the loop: read the page, split it and write it. */
  method WritePage(t: ObservationTable, data: Page, existing: set<PyValue>, env: SyncEnv)
      returns (turn: Result<(Split, bool), Option<string>>)
    modifies t
    ensures turn == Turn(data, existing, env)
    ensures turn.Failure? ==> t.rows == old(t.rows)
    ensures turn.Success? ==> t.rows == Committed(old(t.rows), turn.value.0, env.fields)
  {
    turn := TakeTurn(data, existing, env);
    if turn.Success? {
      CommitPage(t, turn.value.0, env.fields);
    }
  }

  /** The pages written so far followed by those still to come are the
      run's pages. */
  predicate LogFrom(all: Pages, done: seq<Split>, existing: set<PyValue>, fetchPage: (int, nat) -> Page,
                    since: int, offset: nat, fuel: nat, env: SyncEnv)
  {
    var rest := SplitPages(existing, fetchPage, since, offset, fuel, env);
    all.splits == done + rest.splits && all.error == rest.error
  }

  /** How LogFrom moves on with one turn of the loop, or ends. */
  lemma LogStep(all: Pages, done: seq<Split>, existing: set<PyValue>, fetchPage: (int, nat) -> Page,
                since: int, offset: nat, fuel: nat, env: SyncEnv)
    requires LogFrom(all, done, existing, fetchPage, since, offset, fuel, env)
    ensures fuel == 0 ==> all == Pages(done, Some(PAGE_LIMIT))
    ensures fuel > 0 ==>
      var page := fetchPage(since, offset);
      match Turn(page, existing, env)
      case Failure(e) => all == Pages(done, e)
      case Success((s, more)) =>
        if !more then all == Pages(done + [s], None)
        else page.Page? && LogFrom(all, done + [s], existing, fetchPage, since, offset + |page.results|, fuel - 1, env)
  {
    assert done + [] == done;
    if fuel > 0 {
      var page := fetchPage(since, offset);
      var turn := Turn(page, existing, env);
      if turn.Success? && turn.value.1 {
        var next := SplitPages(existing, fetchPage, since, offset + |page.results|, fuel - 1, env);
        assert all.splits == (done + [turn.value.0]) + next.splits;
      }
    }
  }

  /** LogStep for the turn the loop has just taken. */
  lemma LogTurn(all: Pages, done: seq<Split>, existing: set<PyValue>, fetchPage: (int, nat) -> Page,
                since: int, offset: nat, fuel: nat, env: SyncEnv, turn: Result<(Split, bool), Option<string>>)
    requires LogFrom(all, done, existing, fetchPage, since, offset, fuel, env)
    requires fuel > 0 && turn == Turn(fetchPage(since, offset), existing, env)
    ensures turn.Failure? ==> all == Pages(done, turn.error)
    ensures turn.Success? && !turn.value.1 ==> all == Pages(done + [turn.value.0], None)
    ensures turn.Success? && turn.value.1 ==>
      fetchPage(since, offset).Page?
      && LogFrom(all, done + [turn.value.0], existing, fetchPage, since,
                 offset + |fetchPage(since, offset).results|, fuel - 1, env)
  {
    LogStep(all, done, existing, fetchPage, since, offset, fuel, env);
  }

  lemma CommitAllSnoc(rows: Rows, done: seq<Split>, s: Split, fields: seq<string>)
    ensures CommitAll(rows, done + [s], fields) == Committed(CommitAll(rows, done, fields), s, fields)
  {
    assert (done + [s])[..|done|] == done;
  }

  /** The page loop deletes no observation and writes only `fields`,
      whatever the pages hold and wherever it stops. */
  lemma SyncPagesPreserves(rows: Rows, existing: set<PyValue>, fetchPage: (int, nat) -> Page,
                           since: int, fuel: nat, env: SyncEnv)
    ensures Preserves(rows, SyncPages(rows, existing, fetchPage, since, fuel, env).rows, env.fields)
  {
    CommitAllPreserves(rows, SplitPages(existing, fetchPage, since, 0, fuel, env).splits, env.fields);
  }

  lemma {:induction false} CommitAllPreserves(rows: Rows, splits: seq<Split>, fields: seq<string>)
    ensures Preserves(rows, CommitAll(rows, splits, fields), fields)
    decreases |splits|
  {
    if splits == [] {
      assert forall w :: w in rows ==> Keeps(rows[w], rows[w], fields);
    } else {
      var front := CommitAll(rows, splits[..|splits| - 1], fields);
      CommitAllPreserves(rows, splits[..|splits| - 1], fields);
      CommittedPreserves(front, splits[|splits| - 1], fields);
      PreservesTransitive(rows, front, CommitAll(rows, splits, fields), fields);
    }
  }

  // ------------------------------------------------------------ a page without results

  /** A reply whose results are empty but whose next link is set. */
  predicate EmptyWithNext(page: Page) {
    page.Page? && page.results == [] && Truthy(page.next)
  }

  /** The split of a page without results. */
  const NO_SPLIT := Split([], [], [])

  /** As written, `offset += len(data["results"])` adds nothing after such a
      page, so the loop asks for the same page again: whatever the bound, it
      writes an empty split on every turn it is allowed and is still asking
      when the bound runs out. */
  lemma {:induction false} EmptyPageWithNextNeverStops(existing: set<PyValue>, fetchPage: (int, nat) -> Page,
                                                       since: int, offset: nat, fuel: nat, env: SyncEnv)
    requires EmptyWithNext(fetchPage(since, offset))
    ensures SplitPages(existing, fetchPage, since, offset, fuel, env) == Pages(seq(fuel, _ => NO_SPLIT), Some(PAGE_LIMIT))
    decreases fuel
  {
    if fuel > 0 {
      var page := fetchPage(since, offset);
      assert Partition(page.results, existing, env) == Success(NO_SPLIT);
      assert offset + |page.results| == offset;
      EmptyPageWithNextNeverStops(existing, fetchPage, since, offset, fuel - 1, env);
      assert [NO_SPLIT] + seq(fuel - 1, _ => NO_SPLIT) == seq(fuel, _ => NO_SPLIT);
    }
  }

  /** The loop as evidently intended: it also ends after a page without
      results, so every turn that goes on moves the offset forward. */
  function SplitPagesStopping(existing: set<PyValue>, fetchPage: (int, nat) -> Page, since: int,
                              offset: nat, fuel: nat, env: SyncEnv): Pages
    decreases fuel
  {
    if fuel == 0 then Pages([], Some(PAGE_LIMIT))
    else
      var page := fetchPage(since, offset);
      match Turn(page, existing, env)
      case Failure(e) => Pages([], e)
      case Success((s, more)) =>
        if !more || page.results == [] then Pages([s], None)
        else
          var rest := SplitPagesStopping(existing, fetchPage, since, offset + |page.results|, fuel - 1, env);
          Pages([s] + rest.splits, rest.error)
  }

  /** The API holds `count` results: every page from offset `count` on is
      empty. */
  ghost predicate FiniteResults(fetchPage: (int, nat) -> Page, since: int, count: nat) {
    forall o: nat :: o >= count && fetchPage(since, o).Page? ==> fetchPage(since, o).results == []
  }

  /** The intended loop ends: over `count` results it asks for at most
      `count - offset + 1` pages, so once the bound exceeds that a larger
      bound changes nothing. On the same API the loop as written never ends
      once it meets an empty page with a next link, and what it gives
      changes with every bound (EmptyPageWithNextNeverStops). */
  lemma {:induction false} StoppingLoopEnds(existing: set<PyValue>, fetchPage: (int, nat) -> Page, since: int,
                                            count: nat, offset: nat, fuel: nat, extra: nat, env: SyncEnv)
    requires FiniteResults(fetchPage, since, count)
    requires fuel > 0 && offset + fuel > count
    ensures SplitPagesStopping(existing, fetchPage, since, offset, fuel, env)
         == SplitPagesStopping(existing, fetchPage, since, offset, fuel + extra, env)
    decreases fuel
  {
    var page := fetchPage(since, offset);
    var turn := Turn(page, existing, env);
    if turn.Success? && turn.value.1 && page.results != [] {
      assert offset < count;
      StoppingLoopEnds(existing, fetchPage, since, count, offset + |page.results|, fuel - 1, extra, env);
    }
  }

  /** On the reply that keeps the loop as written going, the intended loop
      ends after one turn. */
  lemma StoppingLoopStopsOnEmptyPage(existing: set<PyValue>, fetchPage: (int, nat) -> Page,
                                     since: int, offset: nat, fuel: nat, env: SyncEnv)
    requires EmptyWithNext(fetchPage(since, offset)) && fuel > 0
    ensures SplitPagesStopping(existing, fetchPage, since, offset, fuel, env) == Pages([NO_SPLIT], None)
  {
    assert Partition(fetchPage(since, offset).results, existing, env) == Success(NO_SPLIT);
  }

  // ------------------------------------------------------------ the modified-after instant

  const DATE_FORMAT_ERROR := "Invalid date format. Use ddMMyyyy."

  /** The instant from which pages are asked for: midnight of the given
      ddMMyyyy date when one is given, else midnight of the day `sinceWeek`
      weeks (two when absent) before now. `parseDdMmYyyy` is strptime with
      "%d%m%Y": the instant of that day, or None when it rejects the text. */
  function ModifiedSince(date: Option<string>, sinceWeek: Option<int>, now: int,
                         parseDdMmYyyy: string -> Option<int>): Result<int, string>
  {
    if date.Some? && date.value != "" then
      match parseDdMmYyyy(date.value)
      case Some(day) => Success(Reservations.Midnight(day))
      case None => Failure(DATE_FORMAT_ERROR)
    else
      Success(Reservations.Cutoff(now, 7 * sinceWeek.GetOr(2)))
  }

  /** A given date decides alone and only a bad one fails; without one the
      instant is a midnight at most `sinceWeek` weeks and a day before now,
      and no `sinceWeek` means two weeks. */
  lemma ModifiedSinceWindow(date: Option<string>, sinceWeek: Option<int>, now: int, parseDdMmYyyy: string -> Option<int>)
    ensures ModifiedSince(date, sinceWeek, now, parseDdMmYyyy).Failure? <==>
      date.Some? && date.value != "" && parseDdMmYyyy(date.value).None?
    ensures ModifiedSince(date, sinceWeek, now, parseDdMmYyyy).Failure? ==>
      ModifiedSince(date, sinceWeek, now, parseDdMmYyyy).error == DATE_FORMAT_ERROR
    ensures date.Some? && date.value != "" ==>
      ModifiedSince(date, sinceWeek, now, parseDdMmYyyy) == ModifiedSince(date, None, now, parseDdMmYyyy)
    ensures ModifiedSince(date, None, now, parseDdMmYyyy) == ModifiedSince(date, Some(2), now, parseDdMmYyyy)
    ensures (date.None? || date.value == "") ==>
      var weeks := sinceWeek.GetOr(2);
      var since := ModifiedSince(date, sinceWeek, now, parseDdMmYyyy).value;
      since % Reservations.SECONDS_PER_DAY == 0 &&
      now - 7 * weeks * Reservations.SECONDS_PER_DAY - Reservations.SECONDS_PER_DAY < since <= now - 7 * weeks * Reservations.SECONDS_PER_DAY
  {
  }

  // ------------------------------------------------------------ clusters

  /** What one request for the nests list gives: a page of clusters and its
      "next" link, or nothing when the request failed. */
  datatype NestsReply = Nests(results: seq<Record>, next: PyValue) | RequestFailed

  /** fetch_clusters' page size. */
  const CLUSTER_LIMIT := 100

  /** fetch_clusters from `offset` on, for at most `fuel` requests: the
      clusters of each page in order, up to a page without a next link or a
      failed request, which keeps what was gathered. */
  function ClustersFrom(fetchNests: nat -> NestsReply, limit: nat, offset: nat, fuel: nat): seq<Record>
    decreases fuel
  {
    if fuel == 0 then []
    else
      match fetchNests(offset)
      case RequestFailed => []
      case Nests(results, next) =>
        results + (if Truthy(next) then ClustersFrom(fetchNests, limit, offset + limit, fuel - 1) else [])
  }

  method FetchClusters(fetchNests: nat -> NestsReply, limit: nat, maxPages: nat) returns (clusters: seq<Record>)
    ensures clusters == ClustersFrom(fetchNests, limit, 0, maxPages)
  {
    clusters := [];
    var offset: nat := 0;
    var fuel := maxPages;
    while fuel > 0
      invariant ClustersFrom(fetchNests, limit, 0, maxPages) == clusters + ClustersFrom(fetchNests, limit, offset, fuel)
      decreases fuel
    {
      var data := fetchNests(offset);
      if data.RequestFailed? {
        assert clusters + [] == clusters;
        return;
      }
      var rest := if Truthy(data.next) then ClustersFrom(fetchNests, limit, offset + limit, fuel - 1) else [];
      assert ClustersFrom(fetchNests, limit, offset, fuel) == data.results + rest;
      assert clusters + (data.results + rest) == (clusters + data.results) + rest;
      clusters := clusters + data.results;
      if !Truthy(data.next) {
        assert clusters + [] == clusters;
        return;
      }
      offset := offset + limit;
      fuel := fuel - 1;
    }
    assert clusters + [] == clusters;
  }

  /** A larger request bound only adds clusters at the end. */
  lemma {:induction false} ClustersFuelPrefix(fetchNests: nat -> NestsReply, limit: nat, offset: nat, fuel: nat)
    ensures ClustersFrom(fetchNests, limit, offset, fuel) <= ClustersFrom(fetchNests, limit, offset, fuel + 1)
    decreases fuel
  {
    if fuel > 0 && fetchNests(offset).Nests? && Truthy(fetchNests(offset).next) {
      ClustersFuelPrefix(fetchNests, limit, offset + limit, fuel - 1);
    }
  }

  // ------------------------------------------------------------ visibility

  const KEY_ERROR_ID := "KeyError: 'id'"
  const TYPE_ERROR := "TypeError: '>' not supported"

  /** An observation's registration instant; 0 for one without, which the
      rules below never read. */
  function DateOf(r: Record): int {
    match Field(r, "observation_datetime")
    case PyDatetime(t) => t
    case _ => 0
  }

  /** The rows of the table a cluster names. */
  function Members(rows: Rows, ids: seq<PyValue>): (m: set<PyValue>)
    ensures m <= rows.Keys
  {
    set w | w in rows && w in ids
  }

  /** The observation has a registration instant. */
  predicate HasDate(r: Record) {
    Field(r, "observation_datetime").PyDatetime?
  }

  /** Every member has a registration instant. */
  predicate Dated(rows: Rows, members: set<PyValue>) {
    forall w :: w in members && w in rows ==> HasDate(rows[w])
  }

  /** The members some other member was registered after. */
  function Hidden(rows: Rows, members: set<PyValue>): set<PyValue>
    requires members <= rows.Keys
  {
    set w | w in members && exists v :: v in members && DateOf(rows[w]) < DateOf(rows[v])
  }

  /** The table with the members' visibility set: hidden ones not visible,
      the other members visible, non-members untouched. */
  function WithVisibility(rows: Rows, members: set<PyValue>, hidden: set<PyValue>): (r: Rows)
    ensures r.Keys == rows.Keys
  {
    map w | w in rows :: if w in members then rows[w]["visible" := PyBool(w !in hidden)] else rows[w]
  }

  /** One cluster of manage_observations_visibility. No observation ids, or
      none in the table, leaves the table; two or more members of which one
      lacks a registration instant make `max` raise TypeError; a single
      member without one is skipped; otherwise the members registered before
      the latest are hidden and the rest shown. Logging `cluster['id']`
      raises KeyError for a cluster without an id. */
  function ClusterVisibility(rows: Rows, cluster: Record): RunEnd {
    var ids := FieldOr(cluster, "observation_ids", PyList([]));
    if !ids.PyList? || ids.items == [] then RunEnd(rows, None)
    else
      var members := Members(rows, ids.items);
      var logged := if "id" in cluster then None else Some(KEY_ERROR_ID);
      if members == {} then RunEnd(rows, logged)
      else if !Dated(rows, members) then
        if |members| >= 2 then RunEnd(rows, Some(TYPE_ERROR)) else RunEnd(rows, None)
      else RunEnd(WithVisibility(rows, members, Hidden(rows, members)), logged)
  }

  /** The clusters one after the other, up to the first error, which leaves
      the clusters before it written. */
  function VisibilityAll(rows: Rows, clusters: seq<Record>): RunEnd
    decreases |clusters|
  {
    if clusters == [] then RunEnd(rows, None)
    else
      var first := ClusterVisibility(rows, clusters[0]);
      if first.error.Some? then first else VisibilityAll(first.rows, clusters[1..])
  }

  /** `max(observation_dates.values())` over the members. */
  method LatestDate(rows: Rows, members: set<PyValue>) returns (latest: int)
    requires members != {} && members <= rows.Keys
    ensures exists w :: w in members && DateOf(rows[w]) == latest
    ensures forall w :: w in members ==> DateOf(rows[w]) <= latest
  {
    NonEmptyHasKey(members);
    var first :| first in members;
    latest := DateOf(rows[first]);
    ghost var at := first;
    var pending := members - {first};
    while pending != {}
      invariant pending <= members
      invariant at in members && DateOf(rows[at]) == latest
      invariant forall w :: w in members && w !in pending ==> DateOf(rows[w]) <= latest
      decreases pending
    {
      NonEmptyHasKey(pending);
      var w :| w in pending;
      if DateOf(rows[w]) > latest {
        latest := DateOf(rows[w]);
        at := w;
      }
      pending := pending - {w};
    }
  }

  /** update_observation_visibility: each listed observation is visible
      exactly when it is not to be hidden. */
  method UpdateObservationVisibility(t: ObservationTable, observations: set<PyValue>, toHide: set<PyValue>)
    requires observations <= t.rows.Keys
    modifies t
    ensures t.rows == WithVisibility(old(t.rows), observations, toHide)
  {
    var rows := t.rows;
    var updated: Rows := map[];
    var pending := observations;
    while pending != {}
      invariant pending <= observations
      invariant updated.Keys == observations - pending
      invariant forall w :: w in updated ==> updated[w] == WithVisibility(rows, observations, toHide)[w]
      decreases pending
    {
      NonEmptyHasKey(pending);
      var w :| w in pending;
      updated := updated[w := rows[w]["visible" := PyBool(w !in toHide)]];
      pending := pending - {w};
    }
    t.rows := rows + updated;
    assert forall w :: w in rows ==> (rows + updated)[w] == WithVisibility(rows, observations, toHide)[w];
  }

  /** Comparing with the latest instant hides what Hidden hides. */
  lemma HiddenBeforeLatest(rows: Rows, members: set<PyValue>, latest: int)
    requires members <= rows.Keys
    requires exists w :: w in members && DateOf(rows[w]) == latest
    requires forall w :: w in members ==> DateOf(rows[w]) <= latest
    ensures (set w | w in members && DateOf(rows[w]) < latest) == Hidden(rows, members)
  {
    var at :| at in members && DateOf(rows[at]) == latest;
    forall w | w in members && DateOf(rows[w]) < latest
      ensures w in Hidden(rows, members)
    {
      assert DateOf(rows[w]) < DateOf(rows[at]);
    }
  }

  /** One cluster of the loop in manage_observations_visibility. */
  method ApplyCluster(t: ObservationTable, cluster: Record) returns (error: Option<string>)
    modifies t
    ensures RunEnd(t.rows, error) == ClusterVisibility(old(t.rows), cluster)
  {
    var observationIds := FieldOr(cluster, "observation_ids", PyList([]));
    if !observationIds.PyList? || observationIds.items == [] {
      return None;
    }
    var rows := t.rows;
    var observations := Members(rows, observationIds.items);
    var logged := if "id" in cluster then None else Some(KEY_ERROR_ID);
    if observations == {} {
      return logged;
    }
    var dated := forall w :: w in observations ==> HasDate(rows[w]);
    if !dated {
      error := if |observations| >= 2 then Some(TYPE_ERROR) else None;
      return;
    }
    var latest := LatestDate(rows, observations);
    var observationIdsToHide := set w | w in observations && DateOf(rows[w]) < latest;
    HiddenBeforeLatest(rows, observations, latest);
    UpdateObservationVisibility(t, observations, observationIdsToHide);
    return logged;
  }

  /** manage_observations_visibility over the fetched clusters. */
  method ManageObservationsVisibility(t: ObservationTable, clusters: seq<Record>) returns (error: Option<string>)
    modifies t
    ensures RunEnd(t.rows, error) == VisibilityAll(old(t.rows), clusters)
  {
    for i := 0 to |clusters|
      invariant VisibilityAll(old(t.rows), clusters) == VisibilityAll(t.rows, clusters[i..])
    {
      assert clusters[i..][1..] == clusters[i + 1..];
      error := ApplyCluster(t, clusters[i]);
      if error.Some? {
        return;
      }
    }
    return None;
  }

  /** Some member registered last exists. */
  lemma {:induction false} LatestExists(rows: Rows, members: set<PyValue>)
    requires members != {} && members <= rows.Keys
    ensures exists m :: m in members && forall v :: v in members ==> DateOf(rows[v]) <= DateOf(rows[m])
    decreases |members|
  {
    NonEmptyHasKey(members);
    var x :| x in members;
    var others := members - {x};
    if others == {} {
      assert members == {x};
    } else {
      LatestExists(rows, others);
      var m :| m in others && forall v :: v in others ==> DateOf(rows[v]) <= DateOf(rows[m]);
      if DateOf(rows[x]) > DateOf(rows[m]) {
        assert forall v :: v in members ==> DateOf(rows[v]) <= DateOf(rows[x]);
      } else {
        assert forall v :: v in members ==> DateOf(rows[v]) <= DateOf(rows[m]);
      }
    }
  }

  /** Exactly the members registered at the latest instant stay visible,
      ties included, and a cluster never hides all its members. */
  lemma LatestStayVisible(rows: Rows, members: set<PyValue>)
    requires members != {} && members <= rows.Keys
    ensures forall w :: w in members ==>
      (w !in Hidden(rows, members) <==> forall v :: v in members ==> DateOf(rows[v]) <= DateOf(rows[w]))
    ensures exists w :: w in members && w !in Hidden(rows, members)
  {
    LatestExists(rows, members);
    forall w | w in members && w in Hidden(rows, members)
      ensures !forall v :: v in members ==> DateOf(rows[v]) <= DateOf(rows[w])
    {
      var v :| v in members && DateOf(rows[w]) < DateOf(rows[v]);
    }
  }

  /** Setting the visibility touches nothing but the flag. */
  lemma WithVisibilityPreserves(rows: Rows, members: set<PyValue>, hidden: set<PyValue>, fields: seq<string>)
    ensures Preserves(rows, WithVisibility(rows, members, hidden), fields)
  {
    var r := WithVisibility(rows, members, hidden);
    forall w | w in rows
      ensures Keeps(rows[w], r[w], fields)
    {
    }
  }

  /** The visibility pass deletes no observation and writes only the
      visibility flag. */
  lemma {:induction false} VisibilityAllPreserves(rows: Rows, clusters: seq<Record>, fields: seq<string>)
    ensures Preserves(rows, VisibilityAll(rows, clusters).rows, fields)
    decreases |clusters|
  {
    if clusters == [] {
      assert forall w :: w in rows ==> Keeps(rows[w], rows[w], fields);
    } else {
      var first := ClusterVisibility(rows, clusters[0]);
      var ids := FieldOr(clusters[0], "observation_ids", PyList([]));
      if ids.PyList? && ids.items != [] {
        var members := Members(rows, ids.items);
        WithVisibilityPreserves(rows, members, if members <= rows.Keys then Hidden(rows, members) else {}, fields);
      }
      assert Preserves(rows, first.rows, fields) by {
        assert forall w :: w in rows ==> Keeps(rows[w], rows[w], fields);
      }
      if first.error.None? {
        VisibilityAllPreserves(first.rows, clusters[1..], fields);
        PreservesTransitive(rows, first.rows, VisibilityAll(first.rows, clusters[1..]).rows, fields);
      }
    }
  }

  /** Running a cluster twice changes nothing the first run did not. */
  lemma ClusterVisibilityIdempotent(rows: Rows, cluster: Record)
    ensures var once := ClusterVisibility(rows, cluster);
            ClusterVisibility(once.rows, cluster) == once
  {
    var ids := FieldOr(cluster, "observation_ids", PyList([]));
    if ids.PyList? && ids.items != [] {
      var members := Members(rows, ids.items);
      if members != {} && Dated(rows, members) {
        var hidden := Hidden(rows, members);
        var r := WithVisibility(rows, members, hidden);
        SameMembers(rows, r, ids.items);
        VisibilityKeepsDates(rows, members, hidden);
        SameDatesSameHidden(rows, r, members);
        WithVisibilityTwice(rows, members, hidden);
      }
    }
  }

  lemma SameMembers(rows: Rows, r: Rows, ids: seq<PyValue>)
    requires r.Keys == rows.Keys
    ensures Members(r, ids) == Members(rows, ids)
  {
  }

  lemma VisibilityKeepsDates(rows: Rows, members: set<PyValue>, hidden: set<PyValue>)
    ensures var r := WithVisibility(rows, members, hidden);
            forall w :: w in rows ==> DateOf(r[w]) == DateOf(rows[w]) && HasDate(r[w]) == HasDate(rows[w])
  {
    var r := WithVisibility(rows, members, hidden);
    forall w | w in rows
      ensures Field(r[w], "observation_datetime") == Field(rows[w], "observation_datetime")
    {
    }
  }

  lemma SameDatesSameHidden(rows: Rows, r: Rows, members: set<PyValue>)
    requires members <= rows.Keys && r.Keys == rows.Keys
    requires forall w :: w in rows ==> DateOf(r[w]) == DateOf(rows[w]) && HasDate(r[w]) == HasDate(rows[w])
    ensures Hidden(r, members) == Hidden(rows, members)
    ensures Dated(r, members) == Dated(rows, members)
  {
  }

  lemma WithVisibilityTwice(rows: Rows, members: set<PyValue>, hidden: set<PyValue>)
    ensures var r := WithVisibility(rows, members, hidden);
            WithVisibility(r, members, hidden) == r
  {
    var r := WithVisibility(rows, members, hidden);
    var rr := WithVisibility(r, members, hidden);
    forall w | w in r
      ensures rr[w] == r[w]
    {
      if w in members {
        assert rr[w] == rows[w]["visible" := PyBool(w !in hidden)]["visible" := PyBool(w !in hidden)];
      }
    }
  }

  // ------------------------------------------------------------ the whole task

  const TOKEN_ERROR := "Failed to obtain OAuth2 token"

  /** What the waarnemingen API gives a run: whether a token was obtained,
      the observation pages, the nests pages, and how many of each the model
      follows. */
  datatype Api = Api(
    tokenObtained: bool,
    fetchPage: (int, nat) -> Page,
    fetchNests: nat -> NestsReply,
    maxPages: nat,
    maxClusterPages: nat)

  /** fetch_and_update_observations: without a token the Celery task asks to be
      retried; a bad date fails before anything is written; then the pages
      are written, and when they all went through the visibility pass
      follows. The ids known at the start are the table's keys. */
  function SyncTask(rows: Rows, sinceWeek: Option<int>, date: Option<string>,
                    parseDdMmYyyy: string -> Option<int>, api: Api, env: SyncEnv): RunEnd
  {
    if !api.tokenObtained then RunEnd(rows, Some(TOKEN_ERROR))
    else
      match ModifiedSince(date, sinceWeek, env.now, parseDdMmYyyy)
      case Failure(e) => RunEnd(rows, Some(e))
      case Success(since) =>
        var synced := SyncPages(rows, rows.Keys, api.fetchPage, since, api.maxPages, env);
        if synced.error.Some? then synced
        else VisibilityAll(synced.rows, ClustersFrom(api.fetchNests, CLUSTER_LIMIT, 0, api.maxClusterPages))
  }

  method FetchAndUpdateObservations(t: ObservationTable, sinceWeek: Option<int>, date: Option<string>,
                                    parseDdMmYyyy: string -> Option<int>, api: Api, env: SyncEnv)
      returns (error: Option<string>)
    modifies t
    ensures RunEnd(t.rows, error) == SyncTask(old(t.rows), sinceWeek, date, parseDdMmYyyy, api, env)
  {
    if !api.tokenObtained {
      return Some(TOKEN_ERROR);
    }
    var modifiedSince := ModifiedSince(date, sinceWeek, env.now, parseDdMmYyyy);
    if modifiedSince.Failure? {
      return Some(modifiedSince.error);
    }
    var existingWnIds := t.rows.Keys;
    error := SyncObservationPages(t, existingWnIds, api.fetchPage, modifiedSince.value, env, api.maxPages);
    if error.Some? {
      return;
    }
    var clusters := FetchClusters(api.fetchNests, CLUSTER_LIMIT, api.maxClusterPages);
    error := ManageObservationsVisibility(t, clusters);
  }

  /** A run, however it ends, deletes no observation and changes no field
      other than those it may overwrite and the visibility flag. */
  lemma SyncTaskPreserves(rows: Rows, sinceWeek: Option<int>, date: Option<string>,
                          parseDdMmYyyy: string -> Option<int>, api: Api, env: SyncEnv)
    ensures Preserves(rows, SyncTask(rows, sinceWeek, date, parseDdMmYyyy, api, env).rows, env.fields)
  {
    assert forall w :: w in rows ==> Keeps(rows[w], rows[w], env.fields);
    if api.tokenObtained {
      var since := ModifiedSince(date, sinceWeek, env.now, parseDdMmYyyy);
      if since.Success? {
        var synced := SyncPages(rows, rows.Keys, api.fetchPage, since.value, api.maxPages, env);
        SyncPagesPreserves(rows, rows.Keys, api.fetchPage, since.value, api.maxPages, env);
        if synced.error.None? {
          var clusters := ClustersFrom(api.fetchNests, CLUSTER_LIMIT, 0, api.maxClusterPages);
          VisibilityAllPreserves(synced.rows, clusters, env.fields);
          PreservesTransitive(rows, synced.rows, VisibilityAll(synced.rows, clusters).rows, env.fields);
        }
      }
    }
  }
}

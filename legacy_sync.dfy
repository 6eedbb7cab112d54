/** The older synchronisation in vespadb/observations/tasks.py. It reads
    the same observation pages as ObservationSync, with three differences:
    a known observation is updated only while the sync user is still its
    last modifier, every page is collected before anything is written and
    the whole run is written in one transaction, and the update overwrites
    the listed rows without comparing values. The modified-after instant is
    fixed at two weeks back, and there is no visibility pass.

    The mapper is a parameter; so are the requests, the token and the
    clock, as in ObservationSync. The source imports the older mapper as
    written, LegacyObservationMapper.MapAsWritten. KeywordlessRecordStopsRun
    and NameKeyedRecordStopsRun state what that does to a run: a record
    without a keyword raises UnboundLocalError in the mapper, and a record
    whose enum values are keyed by attribute name raises TypeError when
    its Observation is built. */
module LegacySync {
  import opened Wrappers
  import opened Records
  import opened SyncTable
  import OS = ObservationSync
  import Reservations
  import LM = LegacyObservationMapper
  import OM = ObservationMapper

  // ------------------------------------------------------------ who last modified a row

  /** `obs["modified_by"]` of `values("wn_id", "modified_by")`: the id of the
      row's last modifier, None when there is none. */
  function ModifiedById(row: Record): PyValue {
    match Field(row, "modified_by")
    case PyRef(id, _) => PyInt(id)
    case _ => PyNone
  }

  /** existing_observations_dict: wn_id to the id of the last modifier, for
      every row at the start of the run. */
  function Owners(rows: Rows): (owners: map<PyValue, PyValue>)
    ensures owners.Keys == rows.Keys
  {
    map w | w in rows :: ModifiedById(rows[w])
  }

  /** `existing_observations_dict[wn_id] == system_user.id`. */
  predicate BySyncUser(owner: PyValue, systemUser: PyValue) {
    systemUser.PyRef? && owner == PyInt(systemUser.id)
  }

  // ------------------------------------------------------------ collecting the pages

  const TYPE_ERROR := "TypeError: unexpected keyword argument"

  /** `Observation(**mapped_data)`: Django's model constructor raises
      TypeError on a keyword that names no field of the model. The older
      mapper keys enum values by ENUMS_MAPPING's attribute names, and no
      Observation field is called that. */
  predicate Constructible(mapped: Record) {
    forall k :: k in mapped ==> k !in OM.ENUM_FIELD_MAPPING
  }

  /** The loop body builds an Observation from the mapped fields: the wn_id
      is new, or the sync user last modified its row. */
  predicate Built(mapped: Record, owners: map<PyValue, PyValue>, systemUser: PyValue)
    requires "wn_id" in mapped
  {
    mapped["wn_id"] !in owners || BySyncUser(owners[mapped["wn_id"]], systemUser)
  }

  /** The record gets through the loop body: the mapper accepts it, and when
      an Observation is built from it, every key is a model field. */
  predicate Sorts(env: OS.SyncEnv, owners: map<PyValue, PyValue>, external: Record) {
    && OS.Maps(env, external)
    && var mapped := env.mapper(external).value;
       (mapped.Some? && Built(mapped.value, owners, env.systemUser) ==> Constructible(mapped.value))
  }

  /** The error the loop body raises on a record: the mapper's, KeyError for
      mapped fields without a wn_id, TypeError for an Observation built from
      a key that is no field. */
  function RecordError(external: Record, owners: map<PyValue, PyValue>, env: OS.SyncEnv): (e: Option<string>)
    ensures e.None? <==> Sorts(env, owners, external)
  {
    match env.mapper(external)
    case Failure(e) => Some(e)
    case Success(None) => None
    case Success(Some(mapped)) =>
      if "wn_id" !in mapped then Some("KeyError: 'wn_id'")
      else if Built(mapped, owners, env.systemUser) && !Constructible(mapped) then Some(TYPE_ERROR)
      else None
  }

  /** One record: skipped when the mapper gives None; a new wn_id goes to the
      create list; a known one goes to the update list when the sync user
      last modified it, and is ignored otherwise, so that a manual change is
      not overwritten. A mapper error, mapped fields without a wn_id
      (KeyError), or an Observation built from a key that is no field
      (TypeError) ends the run. */
  function SortOne(s: OS.Split, external: Record, owners: map<PyValue, PyValue>, env: OS.SyncEnv): Result<OS.Split, string>
  {
    match env.mapper(external)
    case Failure(e) => Failure(e)
    case Success(None) => Success(s)
    case Success(Some(mapped)) =>
      if "wn_id" !in mapped then Failure("KeyError: 'wn_id'")
      else
        var w := mapped["wn_id"];
        if w in owners then
          if BySyncUser(owners[w], env.systemUser) then
            if !Constructible(mapped) then Failure(TYPE_ERROR)
            else Success(OS.Split(s.toCreate, s.toUpdate + [OS.AsUpdated(mapped, env)], s.wnIdsToUpdate + [w]))
          else Success(s)
        else if !Constructible(mapped) then Failure(TYPE_ERROR)
        else Success(OS.Split(s.toCreate + [OS.AsCreated(mapped, env)], s.toUpdate, s.wnIdsToUpdate))
  }

  /** A record fails exactly when the loop body raises on it, with that
      error, whatever was collected before it. */
  lemma SortOneFailsIff(s: OS.Split, external: Record, owners: map<PyValue, PyValue>, env: OS.SyncEnv)
    ensures SortOne(s, external, owners, env).Failure? <==> !Sorts(env, owners, external)
    ensures SortOne(s, external, owners, env).Failure? ==>
      SortOne(s, external, owners, env).error == RecordError(external, owners, env).value
  {
  }

  /** The rest of a page, continuing the lists `s`. */
  function SortRest(s: OS.Split, results: seq<Record>, owners: map<PyValue, PyValue>, env: OS.SyncEnv): Result<OS.Split, string>
    decreases |results|
  {
    if results == [] then Success(s)
    else
      match SortOne(s, results[0], owners, env)
      case Failure(e) => Failure(e)
      case Success(next) => SortRest(next, results[1..], owners, env)
  }

  /** The `while True` loop from `offset` on, for at most `fuel` pages, with
      the lists collected so far in `acc`: a failed request or a page
      without a next link ends the collection, the next page starts where
      this one's results end, and an error ends the run. A run that would
      ask for more pages ends marked PAGE_LIMIT, before anything is
      written. */
  function CollectPages(acc: OS.Split, owners: map<PyValue, PyValue>, fetchPage: (int, nat) -> OS.Page,
                        since: int, offset: nat, fuel: nat, env: OS.SyncEnv): Result<OS.Split, string>
    decreases fuel
  {
    if fuel == 0 then Failure(OS.PAGE_LIMIT)
    else
      match fetchPage(since, offset)
      case NoData => Success(acc)
      case NotADict => Failure(OS.FORMAT_ERROR)
      case WithoutResults => Failure(OS.RESULTS_KEY_ERROR)
      case Page(results, next) =>
        match SortRest(acc, results, owners, env)
        case Failure(e) => Failure(e)
        case Success(s) =>
          if !Truthy(next) then Success(s)
          else CollectPages(s, owners, fetchPage, since, offset + |results|, fuel - 1, env)
  }

  /** The loop over `data["results"]`, continuing the run's lists. */
  method SortPage(acc: OS.Split, results: seq<Record>, owners: map<PyValue, PyValue>, env: OS.SyncEnv)
      returns (r: Result<OS.Split, string>)
    ensures r == SortRest(acc, results, owners, env)
  {
    var observationsToCreate := acc.toCreate;
    var observationsToUpdate := acc.toUpdate;
    var wnIdsToUpdate := acc.wnIdsToUpdate;
    for i := 0 to |results|
      invariant SortRest(acc, results, owners, env)
             == SortRest(OS.Split(observationsToCreate, observationsToUpdate, wnIdsToUpdate), results[i..], owners, env)
    {
      assert results[i..][1..] == results[i + 1..];
      var mappedData := env.mapper(results[i]);
      if mappedData.Failure? {
        return Failure(mappedData.error);
      }
      if mappedData.value.None? {
        continue;
      }
      var mapped := mappedData.value.value;
      if "wn_id" !in mapped {
        return Failure("KeyError: 'wn_id'");
      }
      var wnId := mapped["wn_id"];
      if wnId in owners {
        if BySyncUser(owners[wnId], env.systemUser) {
          wnIdsToUpdate := wnIdsToUpdate + [wnId];
          if !Constructible(mapped) {
            return Failure(TYPE_ERROR);
          }
          observationsToUpdate := observationsToUpdate + [OS.AsUpdated(mapped, env)];
        }
      } else {
        if !Constructible(mapped) {
          return Failure(TYPE_ERROR);
        }
        observationsToCreate := observationsToCreate + [OS.AsCreated(mapped, env)];
      }
    }
    return Success(OS.Split(observationsToCreate, observationsToUpdate, wnIdsToUpdate));
  }

  /** The page loop of fetch_and_update_observations: the lists of the whole
      run, or the error that ended it. */
  method CollectObservations(owners: map<PyValue, PyValue>, fetchPage: (int, nat) -> OS.Page, since: int,
                             env: OS.SyncEnv, maxPages: nat) returns (r: Result<OS.Split, string>)
    ensures r == CollectPages(OS.Split([], [], []), owners, fetchPage, since, 0, maxPages, env)
  {
    var acc := OS.Split([], [], []);
    var offset: nat := 0;
    var fuel := maxPages;
    while fuel > 0
      invariant CollectPages(OS.Split([], [], []), owners, fetchPage, since, 0, maxPages, env)
             == CollectPages(acc, owners, fetchPage, since, offset, fuel, env)
      decreases fuel
    {
      var data := fetchPage(since, offset);
      match data {
        case NoData => return Success(acc);
        case NotADict => return Failure(OS.FORMAT_ERROR);
        case WithoutResults => return Failure(OS.RESULTS_KEY_ERROR);
        case Page(_, _) =>
      }
      var sorted := SortPage(acc, data.results, owners, env);
      if sorted.Failure? {
        return Failure(sorted.error);
      }
      acc := sorted.value;
      if !Truthy(data.next) {
        return Success(acc);
      }
      offset := offset + |data.results|;
      fuel := fuel - 1;
    }
    return Failure(OS.PAGE_LIMIT);
  }

  // ------------------------------------------------------------ what the collection holds

  /** The lists of a run: each observation to update is paired with its
      wn_id; new ones are new to the start of the run; the ones to update
      were known and last modified by the sync user; every one was
      constructed from model fields only. */
  predicate Routed(s: OS.Split, owners: map<PyValue, PyValue>, systemUser: PyValue) {
    && OS.WellSplit(s)
    && (forall x :: x in s.toCreate ==> WnIdOf(x) !in owners)
    && (forall w :: w in s.wnIdsToUpdate ==> w in owners && BySyncUser(owners[w], systemUser))
    && (forall x :: x in s.toCreate ==> Constructible(x))
    && (forall x :: x in s.toUpdate ==> Constructible(x))
  }

  /** The stamps the loop adds are model fields. */
  lemma StampsConstruct(mapped: Record, env: OS.SyncEnv)
    requires Constructible(mapped)
    ensures Constructible(OS.AsCreated(mapped, env)) && Constructible(OS.AsUpdated(mapped, env))
  {
  }

  lemma SortOneRouted(s: OS.Split, external: Record, owners: map<PyValue, PyValue>, env: OS.SyncEnv)
    requires Routed(s, owners, env.systemUser)
    ensures var r := SortOne(s, external, owners, env);
            r.Success? ==> Routed(r.value, owners, env.systemUser)
  {
    var m := env.mapper(external);
    if m.Success? && m.value.Some? && Constructible(m.value.value) {
      StampsConstruct(m.value.value, env);
    }
  }

  lemma {:induction false} SortRestRouted(s: OS.Split, results: seq<Record>, owners: map<PyValue, PyValue>, env: OS.SyncEnv)
    requires Routed(s, owners, env.systemUser)
    ensures var r := SortRest(s, results, owners, env);
            r.Success? ==> Routed(r.value, owners, env.systemUser)
    decreases |results|
  {
    if results != [] {
      SortOneRouted(s, results[0], owners, env);
      var one := SortOne(s, results[0], owners, env);
      if one.Success? {
        SortRestRouted(one.value, results[1..], owners, env);
      }
    }
  }

  /** Whatever the pages hold, a collection that succeeds lists for update
      only rows the sync user last modified, and for creation only wn_ids
      unknown at the start. */
  lemma {:induction false} CollectPagesRouted(acc: OS.Split, owners: map<PyValue, PyValue>, fetchPage: (int, nat) -> OS.Page,
                                              since: int, offset: nat, fuel: nat, env: OS.SyncEnv)
    requires Routed(acc, owners, env.systemUser)
    ensures var r := CollectPages(acc, owners, fetchPage, since, offset, fuel, env);
            r.Success? ==> Routed(r.value, owners, env.systemUser)
    decreases fuel
  {
    if fuel > 0 {
      var page := fetchPage(since, offset);
      if page.Page? {
        SortRestRouted(acc, page.results, owners, env);
        var sorted := SortRest(acc, page.results, owners, env);
        if sorted.Success? && Truthy(page.next) {
          CollectPagesRouted(sorted.value, owners, fetchPage, since, offset + |page.results|, fuel - 1, env);
        }
      }
    }
  }

  /** A page is sorted exactly when every record on it gets through the loop
      body: the mapper accepts it and, when an Observation is built from it,
      its keys are model fields; records mapped to None, and known records
      another user modified, do not stop the run. */
  lemma {:induction false} SortRestSucceedsIff(s: OS.Split, results: seq<Record>, owners: map<PyValue, PyValue>, env: OS.SyncEnv)
    ensures SortRest(s, results, owners, env).Success? <==> forall x :: x in results ==> Sorts(env, owners, x)
    decreases |results|
  {
    if results != [] {
      var one := SortOne(s, results[0], owners, env);
      SortOneFailsIff(s, results[0], owners, env);
      if one.Success? {
        SortRestSucceedsIff(one.value, results[1..], owners, env);
        assert forall x :: x in results <==> x == results[0] || x in results[1..];
      }
    }
  }

  /** Each record the mapper turns into fields lands, stamped, in the create
      list when its wn_id is new, in the update list when the sync user last
      modified the known row, and in neither when someone else did. */
  lemma {:induction false} SortRestRoutes(s: OS.Split, results: seq<Record>, owners: map<PyValue, PyValue>,
                                          env: OS.SyncEnv, i: nat)
    requires SortRest(s, results, owners, env).Success?
    requires i < |results| && env.mapper(results[i]).Success? && env.mapper(results[i]).value.Some?
    ensures var mapped := env.mapper(results[i]).value.value;
            var r := SortRest(s, results, owners, env).value;
            "wn_id" in mapped &&
            (Built(mapped, owners, env.systemUser) ==> Constructible(mapped)) &&
            (mapped["wn_id"] !in owners ==> OS.AsCreated(mapped, env) in r.toCreate) &&
            (mapped["wn_id"] in owners && BySyncUser(owners[mapped["wn_id"]], env.systemUser) ==>
               OS.AsUpdated(mapped, env) in r.toUpdate && mapped["wn_id"] in r.wnIdsToUpdate)
    decreases |results|
  {
    var next := SortOne(s, results[0], owners, env).value;
    if i == 0 {
      SortRestExtends(next, results[1..], owners, env);
      var r := SortRest(next, results[1..], owners, env).value;
      var mapped := env.mapper(results[0]).value.value;
      var w := mapped["wn_id"];
      if w !in owners {
        var k := |next.toCreate| - 1;
        assert next.toCreate[k] == OS.AsCreated(mapped, env);
        assert r.toCreate[k] == next.toCreate[k];
      } else if BySyncUser(owners[w], env.systemUser) {
        var k := |next.toUpdate| - 1;
        assert next.toUpdate[k] == OS.AsUpdated(mapped, env);
        assert r.toUpdate[k] == next.toUpdate[k];
        var j := |next.wnIdsToUpdate| - 1;
        assert next.wnIdsToUpdate[j] == w;
        assert r.wnIdsToUpdate[j] == next.wnIdsToUpdate[j];
      }
    } else {
      SortRestRoutes(next, results[1..], owners, env, i - 1);
    }
  }

  lemma {:induction false} SortRestExtends(s: OS.Split, results: seq<Record>, owners: map<PyValue, PyValue>, env: OS.SyncEnv)
    requires SortRest(s, results, owners, env).Success?
    ensures OS.Extends(s, SortRest(s, results, owners, env).value)
    decreases |results|
  {
    if results != [] {
      var next := SortOne(s, results[0], owners, env).value;
      SortRestExtends(next, results[1..], owners, env);
    }
  }

  /** Later pages only append: what earlier pages collected is kept. */
  lemma {:induction false} CollectPagesExtends(acc: OS.Split, owners: map<PyValue, PyValue>, fetchPage: (int, nat) -> OS.Page,
                                               since: int, offset: nat, fuel: nat, env: OS.SyncEnv)
    requires CollectPages(acc, owners, fetchPage, since, offset, fuel, env).Success?
    ensures OS.Extends(acc, CollectPages(acc, owners, fetchPage, since, offset, fuel, env).value)
    decreases fuel
  {
    if fuel > 0 {
      var page := fetchPage(since, offset);
      if page.Page? {
        SortRestExtends(acc, page.results, owners, env);
        var sorted := SortRest(acc, page.results, owners, env).value;
        if Truthy(page.next) {
          CollectPagesExtends(sorted, owners, fetchPage, since, offset + |page.results|, fuel - 1, env);
        }
      }
    }
  }

  /** A page fails at the first record the loop body raises on, with that
      record's error, when every record before it gets through. */
  lemma {:induction false} SortRestFailsAt(s: OS.Split, results: seq<Record>, owners: map<PyValue, PyValue>,
                                           env: OS.SyncEnv, i: nat)
    requires i < |results| && !Sorts(env, owners, results[i])
    requires forall j :: 0 <= j < i ==> Sorts(env, owners, results[j])
    ensures SortRest(s, results, owners, env) == Failure(RecordError(results[i], owners, env).value)
    decreases i
  {
    SortOneFailsIff(s, results[0], owners, env);
    if i > 0 {
      assert Sorts(env, owners, results[0]);
      var next := SortOne(s, results[0], owners, env).value;
      assert forall j :: 0 <= j < i - 1 ==> results[1..][j] == results[j + 1];
      SortRestFailsAt(next, results[1..], owners, env, i - 1);
    }
  }

  /** With the mapper the source imports, the older mapper as written, a
      record on the first page that passes every check but whose notes hold
      no keyword ends the run with UnboundLocalError once the records before
      it have mapped: nothing is written, not even the records that mapped. */
  lemma KeywordlessRecordStopsRun(rows: Rows, api: Api, env: OS.SyncEnv, o: OM.Oracles, i: nat)
    requires forall x :: env.mapper(x) == LM.MapAsWritten(x, o)
    requires api.tokenObtained && api.maxPages > 0
    requires var page := api.fetchPage(Reservations.Cutoff(env.now, MODIFIED_SINCE_DAYS), 0);
             && page.Page? && i < |page.results|
             && LM.Halt(page.results[i], o).None? && !LM.KeywordFound(page.results[i])
             && forall j :: 0 <= j < i ==> Sorts(env, Owners(rows), page.results[j])
    ensures LegacyTask(rows, api, env) == OS.RunEnd(rows, Some("UnboundLocalError"))
  {
    var page := api.fetchPage(Reservations.Cutoff(env.now, MODIFIED_SINCE_DAYS), 0);
    assert env.mapper(page.results[i]) == Failure("UnboundLocalError");
    SortRestFailsAt(OS.Split([], [], []), page.results, Owners(rows), env, i);
  }

  /** With the older mapper as written, a record on the first page whose
      notes hold a keyword and one of whose attributes matches an enum value
      is mapped with the attribute's name as a key. When that record is new,
      or its row was last modified by the sync user, `Observation(...)`
      raises TypeError once the records before it have gone through: the run
      ends and nothing is written. */
  lemma NameKeyedRecordStopsRun(rows: Rows, api: Api, env: OS.SyncEnv, o: OM.Oracles, i: nat, name: string, j: nat)
    requires forall x :: env.mapper(x) == LM.MapAsWritten(x, o)
    requires api.tokenObtained && api.maxPages > 0
    requires var page := api.fetchPage(Reservations.Cutoff(env.now, MODIFIED_SINCE_DAYS), 0);
             && page.Page? && i < |page.results|
             && LM.Halt(page.results[i], o).None? && LM.KeywordFound(page.results[i])
             && name in OM.ENUM_FIELD_MAPPING
             && (var attributes := OM.AttributeRecords(FieldOr(page.results[i], "attributes", PyDict(map[]))).value;
                 j < |attributes| && OM.MatchesInto(attributes[j], o, OM.ENUM_FIELD_MAPPING[name]))
             && (var w := Field(page.results[i], "id");
                 w !in rows || BySyncUser(ModifiedById(rows[w]), env.systemUser))
             && forall k :: 0 <= k < i ==> Sorts(env, Owners(rows), page.results[k])
    ensures LegacyTask(rows, api, env) == OS.RunEnd(rows, Some(TYPE_ERROR))
  {
    var page := api.fetchPage(Reservations.Cutoff(env.now, MODIFIED_SINCE_DAYS), 0);
    NameKeyedRecordFails(page.results[i], Owners(rows), env, o, name, j);
    SortRestFailsAt(OS.Split([], [], []), page.results, Owners(rows), env, i);
  }

  /** The record of NameKeyedRecordStopsRun raises TypeError in the loop body. */
  lemma NameKeyedRecordFails(x: Record, owners: map<PyValue, PyValue>, env: OS.SyncEnv, o: OM.Oracles, name: string, j: nat)
    requires forall x :: env.mapper(x) == LM.MapAsWritten(x, o)
    requires LM.Halt(x, o).None? && LM.KeywordFound(x) && name in OM.ENUM_FIELD_MAPPING
    requires var attributes := OM.AttributeRecords(FieldOr(x, "attributes", PyDict(map[]))).value;
             j < |attributes| && OM.MatchesInto(attributes[j], o, OM.ENUM_FIELD_MAPPING[name])
    requires var w := Field(x, "id"); w !in owners || BySyncUser(owners[w], env.systemUser)
    ensures RecordError(x, owners, env) == Some(TYPE_ERROR)
  {
    LM.MatchedNameIsKey(x, o, name, j);
    LM.MapsToBuild(x, o);
    LM.CopiedFields(LM.Prepare(x, o));
    LM.PreparedIds(x, o);
    var mapped := env.mapper(x).value.value;
    assert mapped["wn_id"] == Field(x, "id");
    assert !Constructible(mapped);
  }

  /** With the mapper keyed by model field, every record it maps can be
      constructed. */
  lemma ByFieldConstructs(external: Record, o: OM.Oracles)
    requires LM.MapByField(external, o).Success? && LM.MapByField(external, o).value.Some?
    ensures Constructible(LM.MapByField(external, o).value.value)
  {
    forall k | k in LM.MapByField(external, o).value.value
      ensures k !in OM.ENUM_FIELD_MAPPING
    {
      if k in OM.ENUM_FIELD_MAPPING {
        LM.ByFieldLacksNames(external, o, k);
      }
    }
  }

  /** With the mapper keyed by model field, no record stops the run with
      TypeError: a page is sorted exactly when the mapper accepts every
      record on it. */
  lemma ByFieldPagesSortIff(s: OS.Split, results: seq<Record>, owners: map<PyValue, PyValue>, env: OS.SyncEnv, o: OM.Oracles)
    requires forall x :: env.mapper(x) == LM.MapByField(x, o)
    ensures SortRest(s, results, owners, env).Success? <==> forall x :: x in results ==> OS.Maps(env, x)
  {
    SortRestSucceedsIff(s, results, owners, env);
    forall x | x in results && OS.Maps(env, x)
      ensures Sorts(env, owners, x)
    {
      if env.mapper(x).value.Some? {
        ByFieldConstructs(x, o);
      }
    }
  }

  /** As written, a page with a next link and no results is asked for again
      and again: whatever the bound, the collection never finishes, so the
      run never reaches its transaction. */
  lemma {:induction false} EmptyPageWithNextNeverCommits(acc: OS.Split, owners: map<PyValue, PyValue>,
                                                         fetchPage: (int, nat) -> OS.Page, since: int,
                                                         offset: nat, fuel: nat, env: OS.SyncEnv)
    requires OS.EmptyWithNext(fetchPage(since, offset))
    ensures CollectPages(acc, owners, fetchPage, since, offset, fuel, env) == Failure(OS.PAGE_LIMIT)
    decreases fuel
  {
    if fuel > 0 {
      assert offset + |fetchPage(since, offset).results| == offset;
      EmptyPageWithNextNeverCommits(acc, owners, fetchPage, since, offset, fuel - 1, env);
    }
  }

  // ------------------------------------------------------------ the transaction

  const INTEGRITY_ERROR := "IntegrityError: duplicate wn_id"

  /** No two records share a wn_id. */
  predicate DistinctWnIds(records: seq<Record>) {
    forall i, j :: 0 <= i < j < |records| ==> WnIdOf(records[i]) != WnIdOf(records[j])
  }

  /** bulk_create without ignore_conflicts: a wn_id already stored, or
      listed twice, breaks the unique constraint and the insert raises. */
  function InsertStrict(rows: Rows, records: seq<Record>): Result<Rows, string>
    decreases |records|
  {
    if records == [] then Success(rows)
    else
      var w := WnIdOf(records[0]);
      if w in rows then Failure(INTEGRITY_ERROR)
      else InsertStrict(rows[w := records[0]], records[1..])
  }

  /** The insert goes through exactly when every wn_id is new to the table
      and to the rest of the list; then it adds one row per record and
      changes no stored row. */
  lemma {:induction false} InsertStrictIff(rows: Rows, records: seq<Record>)
    ensures InsertStrict(rows, records).Success? <==>
      DistinctWnIds(records) && forall i :: 0 <= i < |records| ==> WnIdOf(records[i]) !in rows
    ensures InsertStrict(rows, records).Success? ==>
      var r := InsertStrict(rows, records).value;
      && r.Keys == rows.Keys + (set i | 0 <= i < |records| :: WnIdOf(records[i]))
      && (forall w :: w in rows ==> r[w] == rows[w])
      && (forall i :: 0 <= i < |records| ==> r[WnIdOf(records[i])] == records[i])
    decreases |records|
  {
    if records != [] {
      var w := WnIdOf(records[0]);
      if w !in rows {
        InsertStrictIff(rows[w := records[0]], records[1..]);
        InsertStrictStep(rows, records);
      }
    }
  }

  /** How the conditions of InsertStrictIff split into the first record and
      the rest. */
  lemma InsertStrictStep(rows: Rows, records: seq<Record>)
    requires records != [] && WnIdOf(records[0]) !in rows
    ensures var w := WnIdOf(records[0]);
            var tail := records[1..];
            && (DistinctWnIds(records) && (forall i :: 0 <= i < |records| ==> WnIdOf(records[i]) !in rows) <==>
                DistinctWnIds(tail) && (forall i :: 0 <= i < |tail| ==> WnIdOf(tail[i]) !in rows[w := records[0]]))
            && (set i | 0 <= i < |records| :: WnIdOf(records[i]))
               == {w} + (set i | 0 <= i < |tail| :: WnIdOf(tail[i]))
  {
    var tail := records[1..];
    assert forall i :: 1 <= i < |records| ==> records[i] == tail[i - 1];
    assert forall i :: 0 <= i < |tail| ==> tail[i] == records[i + 1];
  }

  /** The table after the run's transaction: the creates, then the updates;
      an IntegrityError rolls both back. */
  function Commit(rows: Rows, s: OS.Split, fields: seq<string>): Result<Rows, string>
  {
    match InsertStrict(rows, s.toCreate)
    case Failure(e) => Failure(e)
    case Success(inserted) =>
      Success(OS.SyncedRows(inserted, OS.ByWnId(s.toUpdate), (set w | w in s.wnIdsToUpdate), fields))
  }

  /** create_observations: the bulk insert, which raises on a duplicate
      wn_id and then inserts nothing. */
  method CreateObservations(t: ObservationTable, observationsToCreate: seq<Record>) returns (error: Option<string>)
    modifies t
    ensures match InsertStrict(old(t.rows), observationsToCreate)
            case Failure(e) => error == Some(e) && t.rows == old(t.rows)
            case Success(r) => error.None? && t.rows == r
  {
    if observationsToCreate != [] {
      var inserted := InsertStrict(t.rows, observationsToCreate);
      if inserted.Failure? {
        return Some(inserted.error);
      }
      t.rows := inserted.value;
    }
    return None;
  }

  /** The field loop for one row: every listed field the row has takes the
      incoming value, compared with nothing. */
  method OverwriteFields(observation: Record, updated: Record, fields: seq<string>) returns (r: Record)
    ensures r == OS.Overwritten(observation, updated, fields)
  {
    r := observation;
    for i := 0 to |fields|
      invariant r.Keys == observation.Keys
      invariant forall k :: k in observation ==>
        r[k] == if k in fields[..i] then Field(updated, k) else observation[k]
    {
      var field := fields[i];
      assert fields[..i + 1] == fields[..i] + [field];
      if field in r {
        var newValue := Field(updated, field);
        r := r[field := newValue];
      }
    }
    assert fields[..|fields|] == fields;
  }

  /** update_observations: every stored row whose wn_id is listed is
      overwritten and written back, changed or not. The requires is the
      dictionary lookup that raises KeyError otherwise; a run always meets
      it. */
  method UpdateObservations(t: ObservationTable, toUpdate: seq<Record>, wnIdsToUpdate: seq<PyValue>, fields: seq<string>)
      returns (written: set<PyValue>)
    requires forall w :: w in wnIdsToUpdate && w in t.rows ==> w in OS.ByWnId(toUpdate)
    modifies t
    ensures t.rows == OS.SyncedRows(old(t.rows), OS.ByWnId(toUpdate), (set w | w in wnIdsToUpdate), fields)
    ensures written == old(t.rows).Keys * (set w | w in wnIdsToUpdate)
  {
    var updateDict := OS.ByWnId(toUpdate);
    var ids := set w | w in wnIdsToUpdate;
    var existingObservations;
    existingObservations, written := OverwriteRows(t.rows, updateDict, ids, fields);
    t.rows := existingObservations;
  }

  /** The loop over `filter(wn_id__in=wn_ids_to_update)`, taken in an order
      the database chooses: every matched row, overwritten. */
  method OverwriteRows(rows: Rows, updateDict: map<PyValue, Record>, ids: set<PyValue>, fields: seq<string>)
      returns (updated: Rows, written: set<PyValue>)
    requires forall w :: w in ids && w in rows ==> w in updateDict
    ensures updated == OS.SyncedRows(rows, updateDict, ids, fields)
    ensures written == rows.Keys * ids
  {
    var pending := set w | w in rows && w in ids;
    updated := rows;
    written := {};
    while pending != {}
      invariant pending <= rows.Keys * ids
      invariant written == rows.Keys * ids - pending
      invariant updated.Keys == rows.Keys
      invariant forall w :: w in rows ==>
        updated[w] == if w in written then OS.Overwritten(rows[w], updateDict[w], fields) else rows[w]
      decreases pending
    {
      NonEmptyHasKey(pending);
      var w :| w in pending;
      var observation := OverwriteFields(updated[w], updateDict[w], fields);
      updated := updated[w := observation];
      written := written + {w};
      pending := pending - {w};
    }
  }

  /** The `transaction.atomic()` block after the loop. */
  method CommitRun(t: ObservationTable, s: OS.Split, fields: seq<string>) returns (error: Option<string>)
    requires OS.WellSplit(s)
    modifies t
    ensures match Commit(old(t.rows), s, fields)
            case Failure(e) => error == Some(e) && t.rows == old(t.rows)
            case Success(r) => error.None? && t.rows == r
  {
    OS.WellSplitCovers(s);
    error := CreateObservations(t, s.toCreate);
    if error.Some? {
      return;
    }
    var _ := UpdateObservations(t, s.toUpdate, s.wnIdsToUpdate, fields);
  }

  // ------------------------------------------------------------ the whole task

  /** What the waarnemingen API gives a run: whether a token was obtained,
      the observation pages, and how many of them the model follows. */
  datatype Api = Api(tokenObtained: bool, fetchPage: (int, nat) -> OS.Page, maxPages: nat)

  /** Two weeks, in days. */
  const MODIFIED_SINCE_DAYS := 14

  /** fetch_and_update_observations: without a token the Celery task asks to be
      retried; otherwise the pages modified since midnight two weeks ago are
      collected and written in one transaction. An error anywhere leaves the
      table as it was. */
  function LegacyTask(rows: Rows, api: Api, env: OS.SyncEnv): (r: OS.RunEnd)
  {
    if !api.tokenObtained then OS.RunEnd(rows, Some(OS.TOKEN_ERROR))
    else
      var since := Reservations.Cutoff(env.now, MODIFIED_SINCE_DAYS);
      match CollectPages(OS.Split([], [], []), Owners(rows), api.fetchPage, since, 0, api.maxPages, env)
      case Failure(e) => OS.RunEnd(rows, Some(e))
      case Success(s) =>
        match Commit(rows, s, env.fields)
        case Failure(e) => OS.RunEnd(rows, Some(e))
        case Success(r) => OS.RunEnd(r, None)
  }

  method FetchAndUpdateObservations(t: ObservationTable, api: Api, env: OS.SyncEnv) returns (error: Option<string>)
    modifies t
    ensures OS.RunEnd(t.rows, error) == LegacyTask(old(t.rows), api, env)
  {
    if !api.tokenObtained {
      return Some(OS.TOKEN_ERROR);
    }
    var modifiedSince := Reservations.Cutoff(env.now, MODIFIED_SINCE_DAYS);
    var existingObservations := Owners(t.rows);
    var collected := CollectObservations(existingObservations, api.fetchPage, modifiedSince, env, api.maxPages);
    if collected.Failure? {
      return Some(collected.error);
    }
    CollectPagesRouted(OS.Split([], [], []), existingObservations, api.fetchPage, modifiedSince, 0, api.maxPages, env);
    error := CommitRun(t, collected.value, env.fields);
  }

  // ------------------------------------------------------------ what a run promises

  /** The run's lists, when the collection succeeds. */
  function Collected(rows: Rows, api: Api, env: OS.SyncEnv): Result<OS.Split, string> {
    CollectPages(OS.Split([], [], []), Owners(rows), api.fetchPage,
                 Reservations.Cutoff(env.now, MODIFIED_SINCE_DAYS), 0, api.maxPages, env)
  }

  /** All or nothing: a run that fails leaves every row as it was. */
  lemma FailedRunWritesNothing(rows: Rows, api: Api, env: OS.SyncEnv)
    ensures LegacyTask(rows, api, env).error.Some? ==> LegacyTask(rows, api, env).rows == rows
    ensures api.tokenObtained && Collected(rows, api, env).Success? ==>
      (LegacyTask(rows, api, env).error.None? <==> DistinctWnIds(Collected(rows, api, env).value.toCreate))
  {
    if api.tokenObtained && Collected(rows, api, env).Success? {
      var s := Collected(rows, api, env).value;
      CollectPagesRouted(OS.Split([], [], []), Owners(rows), api.fetchPage,
                         Reservations.Cutoff(env.now, MODIFIED_SINCE_DAYS), 0, api.maxPages, env);
      InsertStrictIff(rows, s.toCreate);
    }
  }

  /** A manual change survives: a row whose last modifier is not the sync
      user is left exactly as it was, however the run ends. */
  lemma ManualEditsProtected(rows: Rows, api: Api, env: OS.SyncEnv, w: PyValue)
    requires w in rows && !BySyncUser(ModifiedById(rows[w]), env.systemUser)
    ensures w in LegacyTask(rows, api, env).rows && LegacyTask(rows, api, env).rows[w] == rows[w]
  {
    if api.tokenObtained && Collected(rows, api, env).Success? {
      var s := Collected(rows, api, env).value;
      CollectPagesRouted(OS.Split([], [], []), Owners(rows), api.fetchPage,
                         Reservations.Cutoff(env.now, MODIFIED_SINCE_DAYS), 0, api.maxPages, env);
      InsertStrictIff(rows, s.toCreate);
      assert w !in s.wnIdsToUpdate;
    }
  }

  /** A successful run adds exactly the new observations it collected, each
      as collected, and overwrites from the collected copy every row the
      sync user last modified that a page carried. */
  lemma SuccessfulRunWrites(rows: Rows, api: Api, env: OS.SyncEnv)
    requires LegacyTask(rows, api, env).error.None?
    ensures api.tokenObtained && Collected(rows, api, env).Success?
    ensures var s := Collected(rows, api, env).value;
            var r := LegacyTask(rows, api, env).rows;
            && r.Keys == rows.Keys + (set x | x in s.toCreate :: WnIdOf(x))
            && (forall x :: x in s.toCreate ==> r[WnIdOf(x)] == x)
            && (forall w :: w in rows && w in s.wnIdsToUpdate ==>
                  w in OS.ByWnId(s.toUpdate) && r[w] == OS.Overwritten(rows[w], OS.ByWnId(s.toUpdate)[w], env.fields))
    ensures var s := Collected(rows, api, env).value;
            (forall x :: x in s.toCreate ==> Constructible(x)) && (forall x :: x in s.toUpdate ==> Constructible(x))
  {
    var s := Collected(rows, api, env).value;
    CollectPagesRouted(OS.Split([], [], []), Owners(rows), api.fetchPage,
                       Reservations.Cutoff(env.now, MODIFIED_SINCE_DAYS), 0, api.maxPages, env);
    CommitKeys(rows, s, env.fields);
    CommitCreates(rows, s, env.fields);
    CommitUpdates(rows, s, env.fields);
  }

  /** The transaction of a routed run, when it goes through: the table
      gains one row per new observation and keeps every other key. */
  lemma CommitKeys(rows: Rows, s: OS.Split, fields: seq<string>)
    requires Commit(rows, s, fields).Success?
    ensures Commit(rows, s, fields).value.Keys == rows.Keys + (set x | x in s.toCreate :: WnIdOf(x))
  {
    InsertStrictIff(rows, s.toCreate);
    CreatedKeys(rows, s.toCreate, InsertStrict(rows, s.toCreate).value);
  }

  /** Each new observation is stored as collected. */
  lemma CommitCreates(rows: Rows, s: OS.Split, fields: seq<string>)
    requires forall w :: w in s.wnIdsToUpdate ==> w in rows
    requires Commit(rows, s, fields).Success?
    ensures forall x :: x in s.toCreate ==>
      WnIdOf(x) in Commit(rows, s, fields).value && Commit(rows, s, fields).value[WnIdOf(x)] == x
  {
    InsertStrictIff(rows, s.toCreate);
    var inserted := InsertStrict(rows, s.toCreate).value;
    CreatedKeys(rows, s.toCreate, inserted);
    var ids := set w | w in s.wnIdsToUpdate;
    var r := Commit(rows, s, fields).value;
    forall x | x in s.toCreate
      ensures r[WnIdOf(x)] == x
    {
      assert WnIdOf(x) !in ids;
    }
  }

  /** Each listed row is overwritten from its collected copy. */
  lemma CommitUpdates(rows: Rows, s: OS.Split, fields: seq<string>)
    requires OS.WellSplit(s)
    requires Commit(rows, s, fields).Success?
    ensures forall w :: w in rows && w in s.wnIdsToUpdate ==>
      w in OS.ByWnId(s.toUpdate) && w in Commit(rows, s, fields).value &&
      Commit(rows, s, fields).value[w] == OS.Overwritten(rows[w], OS.ByWnId(s.toUpdate)[w], fields)
  {
    InsertStrictIff(rows, s.toCreate);
    OS.WellSplitCovers(s);
    var inserted := InsertStrict(rows, s.toCreate).value;
    var ids := set w | w in s.wnIdsToUpdate;
    var r := Commit(rows, s, fields).value;
    assert r == OS.SyncedRows(inserted, OS.ByWnId(s.toUpdate), ids, fields);
    forall w | w in rows && w in s.wnIdsToUpdate
      ensures w in r && r[w] == OS.Overwritten(rows[w], OS.ByWnId(s.toUpdate)[w], fields)
    {
      assert inserted[w] == rows[w] && w in ids;
    }
  }

  /** The rows a strict insert adds, by record. */
  lemma CreatedKeys(rows: Rows, records: seq<Record>, inserted: Rows)
    requires inserted.Keys == rows.Keys + (set i | 0 <= i < |records| :: WnIdOf(records[i]))
    requires forall i :: 0 <= i < |records| ==> inserted[WnIdOf(records[i])] == records[i]
    ensures inserted.Keys == rows.Keys + (set x | x in records :: WnIdOf(x))
    ensures forall x :: x in records ==> inserted[WnIdOf(x)] == x
  {
    assert (set x | x in records :: WnIdOf(x)) == (set i | 0 <= i < |records| :: WnIdOf(records[i]));
  }

  /** A run deletes no observation and changes only the fields it may
      overwrite. */
  lemma LegacyTaskPreserves(rows: Rows, api: Api, env: OS.SyncEnv)
    ensures OS.Preserves(rows, LegacyTask(rows, api, env).rows, env.fields)
  {
    assert forall w :: w in rows ==> OS.Keeps(rows[w], rows[w], env.fields);
    if api.tokenObtained && Collected(rows, api, env).Success? {
      var s := Collected(rows, api, env).value;
      InsertStrictIff(rows, s.toCreate);
      if InsertStrict(rows, s.toCreate).Success? {
        var inserted := InsertStrict(rows, s.toCreate).value;
        var r := LegacyTask(rows, api, env).rows;
        forall w | w in rows
          ensures w in r && OS.Keeps(rows[w], r[w], env.fields)
        {
          assert inserted[w] == rows[w];
        }
      }
    }
  }

  /** The fixed window is the newer synchronisation's default: midnight two
      weeks back. */
  lemma WindowIsNewerDefault(now: int, parseDdMmYyyy: string -> Option<int>)
    ensures OS.ModifiedSince(None, None, now, parseDdMmYyyy) == Success(Reservations.Cutoff(now, MODIFIED_SINCE_DAYS))
  {
  }
}

/** The asynchronous import of observations
    (vespadb/observations/tasks/generate_import.py, process_import): the
    uploaded file is read, checked by the view's process_data, and each
    checked record either updates the observation its id names or creates
    a new one; the import record tracks the status, the progress and the
    ids written.

    The file storage's reader, the JSON and CSV parsers, process_data (part
    of the observations view) and the database's insert and update are
    parameters: a parse is its result or the text of the exception it
    raised, and an insert or an update that raises is the text of its
    exception.

    The record loop runs inside one `transaction.atomic()` block. An
    exception that leaves the block undoes every write the block made; a
    database error caught inside it (a refused insert) marks the block for
    rollback, so that its writes are undone when the block ends and the
    next query inside it raises. */
module ImportTask {
  import opened Wrappers
  import opened Records
  import opened Text

  // ------------------------------------------------------------ values

  /** Why `Observation.objects.create` raised. `BeforeInsert`: Django
      refused the values before sending the statement (an unknown field, a
      value its field cannot convert), which leaves the transaction usable;
      `InInsert`: the database refused the statement (a constraint, a value
      out of range), which marks the surrounding atomic block for
      rollback. */
  datatype CreateFailure = BeforeInsert(message: string) | InInsert(message: string)

  /** What went wrong with one checked record. */
  datatype ImportError =
    | UnknownId(id: PyValue)
    | MissingKeys
    | AlreadyExists(wnId: PyValue, source: PyValue, sourceId: PyValue)
    | CreateFailed(failure: CreateFailure)

  /** An exception that leaves the atomic block: `int()` of a record's id
      raised, `int()` of its wn_id raised while the duplicate query was built,
      a query was sent after a database error had marked the block for
      rollback (TransactionManagementError), or the update's `obs.save()`
      raised. */
  datatype Abort =
    | IdNotANumber(id: PyValue)
    | WnIdNotANumber(wnId: PyValue)
    | BrokenTransaction
    | SaveFailed(message: string)

  /** `{"record": i, "error": error_msg}`, records counted from 1. */
  datatype RecordError = RecordError(record: nat, error: ImportError)

  /** Why an import failed, as stored in `error_message`. */
  datatype ImportFailure =
    | InvalidJson(message: string)
    | Validation(validationErrors: seq<PyValue>)
    | RecordErrors(errors: seq<RecordError>)
    | Crashed(message: string)
    | Aborted(cause: Abort)

  /** The dictionary process_import returns. */
  datatype ImportResult = Completed(createdIds: seq<int>, updatedIds: seq<int>) | Failed(failure: ImportFailure)

  const PROCESSING := "processing"
  const FAILED := "failed"
  const COMPLETED := "completed"

  /** The import user, the clock (one instant for the run), the insert (how
      `Observation.objects.create` raises, if it does) and the update (the
      exception text when `obs.save()` raises). */
  datatype ImportEnv = ImportEnv(
    importUser: PyValue,
    now: int,
    createError: Record -> Option<CreateFailure>,
    saveError: Record -> Option<string>)

  // ------------------------------------------------------------ the id

  /** Python's `int()` of a text: an optional sign, then decimal digits.
      None where `int()` raises ValueError. */
  function ParseInt(s: string): Option<int> {
    if s != [] && (s[0] == '-' || s[0] == '+') then
      if |s| > 1 && AllDigits(s[1..]) then
        var magnitude: int := ParseDigits(s[1..]);
        Some(if s[0] == '-' then -magnitude else magnitude)
      else None
    else if s != [] && AllDigits(s) then Some(ParseDigits(s))
    else None
  }

  /** `str()` of an integer. */
  function IntText(n: int): string {
    if n < 0 then "-" + NatToString(-n) else NatToString(n)
  }

  /** The key Django looks the id up under: the lookup applies `int()` to
      the value before the query runs, so a boolean is 0 or 1, a text is
      parsed, and any other value raises (None). */
  function IdNumber(v: PyValue): Option<int> {
    match v
    case PyBool(b) => Some(if b then 1 else 0)
    case PyInt(i) => Some(i)
    case PyStr(s) => ParseInt(s)
    case _ => None
  }

  /** `int(str(n)) == n`. */
  lemma ParseIntText(n: int)
    ensures ParseInt(IntText(n)) == Some(n)
  {
    var s := IntText(n);
    if n < 0 {
      assert s[0] == '-' && s[1..] == NatToString(-n);
      ParseNatToString(-n);
    } else {
      assert IsDigit(s[0]);
      ParseNatToString(n);
    }
  }

  /** A character that is neither a digit nor a leading sign makes `int()`
      raise. */
  lemma ParseIntRejects(s: string, j: nat)
    requires j < |s| && !IsDigit(s[j])
    requires j == 0 ==> s[0] != '-' && s[0] != '+'
    ensures ParseInt(s) == None
  {
    if j > 0 {
      assert s[1..][j - 1] == s[j];
    }
  }

  // ------------------------------------------------------------ one record

  /** `wn_id is not None and source is not None`. */
  predicate HasWnIdSource(data: Record) {
    Field(data, "wn_id") != PyNone && Field(data, "source") != PyNone
  }

  /** `source_id is not None and source is not None`. */
  predicate HasSourceIdSource(data: Record) {
    Field(data, "source_id") != PyNone && Field(data, "source") != PyNone
  }

  /** The integer a `wn_id=` lookup compares: wn_id is an integer column, so
      Django applies `int()` to the value while it builds the query; None
      where that raises. A stored row's wn_id is read the same way, as the
      column holds the converted number. */
  function WnIdKey(data: Record): Option<int> {
    IdNumber(Field(data, "wn_id"))
  }

  /** The query built from the record's key combinations matches `row`. */
  predicate SameKeys(row: Record, data: Record) {
    || (HasWnIdSource(data) && WnIdKey(data).Some? && WnIdKey(row) == WnIdKey(data)
                            && Field(row, "source") == Field(data, "source"))
    || (HasSourceIdSource(data) && Field(row, "source_id") == Field(data, "source_id")
                                && Field(row, "source") == Field(data, "source"))
  }

  /** `Observation.objects.filter(query).first()` finds a row. */
  predicate AlreadyStored(rows: map<int, Record>, data: Record) {
    exists k :: k in rows && SameKeys(rows[k], data)
  }

  /** An observation after the update: every field of the record set on it,
      then modified by the import user, now. */
  function Updated(obs: Record, fields: Record, env: ImportEnv): Record {
    (obs + fields)["modified_by" := env.importUser]["modified_datetime" := PyDatetime(env.now)]
  }

  /** A new observation: the record, created and modified by the import
      user. */
  function AsCreated(fields: Record, env: ImportEnv): Record {
    fields["created_by" := env.importUser]["modified_by" := env.importUser]
  }

  /** The state the record loop carries: the observations by primary key
      as the transaction sees them, the key the next insert gets, the ids
      and errors so far, the stored progress, whether a database error has
      marked the atomic block for rollback, and the exception that ended
      the loop, if one did. */
  datatype Tally = Tally(
    rows: map<int, Record>,
    nextId: int,
    createdIds: seq<int>,
    updatedIds: seq<int>,
    errors: seq<RecordError>,
    progress: int,
    needsRollback: bool,
    aborted: Option<Abort>)

  /** The progress written after a record that went through: the share of
      the `total` checked records written so far, in percent. */
  function Progressed(t: Tally, total: nat): Tally
    requires total > 0
  {
    t.(progress := (|t.createdIds| + |t.updatedIds|) * 100 / total)
  }

  /** The body of the record loop for record number `i`: a truthy id is
      converted by `int()` and updates the observation it names or reports
      it unknown; otherwise the record needs a key combination, must not
      match a stored observation, and is created unless the insert raises.
      A record that fails adds an error, writes nothing and leaves the
      progress; a refused insert also marks the block for rollback, after
      which the next query raises. An exception ends the loop. */
  function StepRecord(t: Tally, i: nat, data: Record, total: nat, env: ImportEnv): Tally
    requires total > 0
  {
    var observationId := Field(data, "id");
    var fields := data - {"id"};
    if Truthy(observationId) then
      match IdNumber(observationId)
      case None => t.(aborted := Some(IdNotANumber(observationId)))
      case Some(id) =>
        if t.needsRollback then t.(aborted := Some(BrokenTransaction))
        else if id !in t.rows then t.(errors := t.errors + [RecordError(i, UnknownId(observationId))])
        else
          var obs := Updated(t.rows[id], fields, env);
          match env.saveError(obs)
          case Some(message) => t.(aborted := Some(SaveFailed(message)))
          case None => Progressed(t.(rows := t.rows[id := obs], updatedIds := t.updatedIds + [id]), total)
    else if !(HasWnIdSource(data) || HasSourceIdSource(data)) then
      t.(errors := t.errors + [RecordError(i, MissingKeys)])
    else if HasWnIdSource(data) && WnIdKey(data).None? then t.(aborted := Some(WnIdNotANumber(Field(data, "wn_id"))))
    else if t.needsRollback then t.(aborted := Some(BrokenTransaction))
    else if AlreadyStored(t.rows, data) then
      t.(errors := t.errors + [RecordError(i, AlreadyExists(Field(data, "wn_id"), Field(data, "source"), Field(data, "source_id")))])
    else
      var created := AsCreated(fields, env);
      match env.createError(created)
      case Some(f) => t.(errors := t.errors + [RecordError(i, CreateFailed(f))], needsRollback := f.InInsert?)
      case None =>
        Progressed(t.(rows := t.rows[t.nextId := created], nextId := t.nextId + 1,
                      createdIds := t.createdIds + [t.nextId]), total)
  }

  /** The record loop from record number `i` on, until the records run out
      or an exception leaves it. */
  function Run(t: Tally, records: seq<Record>, i: nat, total: nat, env: ImportEnv): Tally
    requires total > 0
    decreases |records|
  {
    if records == [] || t.aborted.Some? then t
    else Run(StepRecord(t, i, records[0], total, env), records[1..], i + 1, total, env)
  }

  /** Some error in the list is an insert the database refused. */
  predicate HasInsertError(errors: seq<RecordError>) {
    exists j :: 0 <= j < |errors| && errors[j].error.CreateFailed? && errors[j].error.failure.InInsert?
  }

  // ------------------------------------------------------------ the import

  /** The file and the parameters that stand for its reading and checking:
      the open's exception text, the JSON parse (the JSONDecodeError text
      on failure), the CSV read (its exception text on failure), and
      process_data, which gives the checked records and the errors. */
  datatype ImportInput = ImportInput(
    filePath: string,
    openError: Option<string>,
    jsonLoad: Result<seq<Record>, string>,
    csvRead: Result<seq<Record>, string>,
    processData: seq<Record> -> (seq<Record>, seq<PyValue>))

  /** The import record's fields the Celery task writes. */
  datatype JobState = JobState(
    status: string,
    errorMessage: Option<ImportFailure>,
    progress: int,
    createdIds: seq<int>,
    updatedIds: seq<int>,
    completedAt: Option<int>)

  /** Everything the Celery task can change: the import record, the observations,
      the next primary key, and the stored files. */
  datatype World = World(job: JobState, rows: map<int, Record>, nextId: int, files: set<string>)

  datatype Outcome = Outcome(result: ImportResult, world: World)

  /** The file's records: a file whose name ends in ".json" is parsed as
      JSON, any other as CSV. */
  function Loaded(input: ImportInput): Result<seq<Record>, ImportFailure> {
    if input.openError.Some? then Failure(Crashed(input.openError.value))
    else if EndsWith(input.filePath, ".json") then
      match input.jsonLoad
      case Failure(e) => Failure(InvalidJson(e))
      case Success(data) => Success(data)
    else
      match input.csvRead
      case Failure(e) => Failure(Crashed(e))
      case Success(data) => Success(data)
  }

  /** A failure after the file was read: the record is marked failed with
      the reason and the file is deleted. */
  function FailAndDelete(job: JobState, rows: map<int, Record>, nextId: int, files: set<string>,
                         path: string, f: ImportFailure): Outcome
  {
    Outcome(Failed(f), World(job.(status := FAILED, errorMessage := Some(f)), rows, nextId, files - {path}))
  }

  /** process_import. Invalid JSON fails the import and keeps the file;
      every other failure deletes it. Errors of single records do not undo
      the records written before or after them, unless the database refused
      an insert: then the atomic block rolls back when it ends. An exception
      inside the block rolls it back and fails the import. The progress
      kept in memory is saved in every case, and keys taken by inserts of a
      block that rolls back are not handed out again. */
  function ProcessImport(w: World, input: ImportInput, env: ImportEnv): Outcome
  {
    var job := w.job.(status := PROCESSING);
    match Loaded(input)
    case Failure(InvalidJson(e)) =>
      Outcome(Failed(InvalidJson(e)), w.(job := job.(status := FAILED, errorMessage := Some(InvalidJson(e)))))
    case Failure(f) => FailAndDelete(job, w.rows, w.nextId, w.files, input.filePath, f)
    case Success(data) =>
      var (processed, errors) := input.processData(data);
      if errors != [] then FailAndDelete(job, w.rows, w.nextId, w.files, input.filePath, Validation(errors))
      else if processed == [] then
        Outcome(Completed([], []),
                World(job.(status := COMPLETED, completedAt := Some(env.now), createdIds := [], updatedIds := []),
                      w.rows, w.nextId, w.files - {input.filePath}))
      else
        var t := Run(Tally(w.rows, w.nextId, [], [], [], job.progress, false, None), processed, 1, |processed|, env);
        var written := job.(progress := t.progress);
        var kept := if t.aborted.Some? || t.needsRollback then w.rows else t.rows;
        if t.aborted.Some? then
          FailAndDelete(written, kept, t.nextId, w.files, input.filePath, Aborted(t.aborted.value))
        else if t.errors != [] then
          FailAndDelete(written, kept, t.nextId, w.files, input.filePath, RecordErrors(t.errors))
        else
          Outcome(Completed(t.createdIds, t.updatedIds),
                  World(written.(status := COMPLETED, completedAt := Some(env.now),
                                 createdIds := t.createdIds, updatedIds := t.updatedIds),
                        kept, t.nextId, w.files - {input.filePath}))
  }

  // ------------------------------------------------------------ the objects

  class ImportRecord {
    var status: string
    var errorMessage: Option<ImportFailure>
    var progress: int
    var createdIds: seq<int>
    var updatedIds: seq<int>
    var completedAt: Option<int>

    function State(): JobState
      reads this
    {
      JobState(status, errorMessage, progress, createdIds, updatedIds, completedAt)
    }
  }

  /** The observations table by primary key, and the key its next insert
      gets. */
  class ObservationDb {
    var rows: map<int, Record>
    var nextId: int
  }

  class FileStorage {
    var files: set<string>
  }

  /** `for field, value in data.items(): setattr(obs, field, value)`. */
  method SetItems(obs: Record, data: Record) returns (r: Record)
    ensures r == obs + data
  {
    r := obs;
    var pending := data.Keys;
    while pending != {}
      invariant pending <= data.Keys
      invariant r.Keys == obs.Keys + (data.Keys - pending)
      invariant forall k :: k in r ==> r[k] == if k in data && k !in pending then data[k] else obs[k]
      decreases pending
    {
      NonEmptyHasField(pending);
      var field :| field in pending;
      r := r[field := data[field]];
      pending := pending - {field};
    }
  }

  lemma NonEmptyHasField(s: set<string>)
    requires s != {}
    ensures exists f :: f in s
  {
    if forall f :: f !in s {
      assert false;
    }
  }

  /** The `for i, data in enumerate(processed_data, 1)` loop, which an
      exception leaves early. */
  method ProcessRecords(job: ImportRecord, db: ObservationDb, processedData: seq<Record>, env: ImportEnv)
      returns (createdIds: seq<int>, updatedIds: seq<int>, errors: seq<RecordError>,
               needsRollback: bool, aborted: Option<Abort>)
    requires processedData != []
    modifies job, db
    ensures Tally(db.rows, db.nextId, createdIds, updatedIds, errors, job.progress, needsRollback, aborted)
         == Run(Tally(old(db.rows), old(db.nextId), [], [], [], old(job.progress), false, None),
                processedData, 1, |processedData|, env)
    ensures job.State() == old(job.State()).(progress := job.progress)
  {
    ghost var start := Tally(db.rows, db.nextId, [], [], [], job.progress, false, None);
    createdIds, updatedIds, errors, needsRollback, aborted := [], [], [], false, None;
    var total := |processedData|;
    var i := 0;
    while i < total && aborted.None?
      invariant 0 <= i <= total
      invariant Run(start, processedData, 1, total, env)
             == Run(Tally(db.rows, db.nextId, createdIds, updatedIds, errors, job.progress, needsRollback, aborted),
                    processedData[i..], i + 1, total, env)
      invariant job.State() == old(job.State()).(progress := job.progress)
    {
      assert processedData[i..][1..] == processedData[i + 1..];
      createdIds, updatedIds, errors, needsRollback, aborted :=
        ProcessRecord(job, db, processedData[i], i + 1, total, env, createdIds, updatedIds, errors, needsRollback);
      i := i + 1;
    }
  }

  /** One turn of the record loop, for record number `i` of `total`;
      `aborted` is the exception that leaves the loop, if one does. */
  method ProcessRecord(job: ImportRecord, db: ObservationDb, data: Record, i: nat, total: nat, env: ImportEnv,
                       createdIds: seq<int>, updatedIds: seq<int>, errors: seq<RecordError>, needsRollback: bool)
      returns (createdIds': seq<int>, updatedIds': seq<int>, errors': seq<RecordError>,
               needsRollback': bool, aborted: Option<Abort>)
    requires total > 0
    modifies job, db
    ensures Tally(db.rows, db.nextId, createdIds', updatedIds', errors', job.progress, needsRollback', aborted)
         == StepRecord(Tally(old(db.rows), old(db.nextId), createdIds, updatedIds, errors, old(job.progress),
                             needsRollback, None), i, data, total, env)
    ensures job.State() == old(job.State()).(progress := job.progress)
  {
    createdIds', updatedIds', errors', needsRollback', aborted := createdIds, updatedIds, errors, needsRollback, None;
    var observationId := Field(data, "id");
    var fields := data - {"id"};
    if Truthy(observationId) {
      var number := IdNumber(observationId);
      if number.None? {
        aborted := Some(IdNotANumber(observationId));
        return;
      }
      if needsRollback {
        aborted := Some(BrokenTransaction);
        return;
      }
      var id := number.value;
      if id !in db.rows {
        errors' := errors' + [RecordError(i, UnknownId(observationId))];
        return;
      }
      var obs := SetItems(db.rows[id], fields);
      obs := obs["modified_by" := env.importUser]["modified_datetime" := PyDatetime(env.now)];
      var failure := env.saveError(obs);
      if failure.Some? {
        aborted := Some(SaveFailed(failure.value));
        return;
      }
      db.rows := db.rows[id := obs];
      updatedIds' := updatedIds' + [id];
    } else {
      if !(HasWnIdSource(data) || HasSourceIdSource(data)) {
        errors' := errors' + [RecordError(i, MissingKeys)];
        return;
      }
      if HasWnIdSource(data) && WnIdKey(data).None? {
        aborted := Some(WnIdNotANumber(Field(data, "wn_id")));
        return;
      }
      if needsRollback {
        aborted := Some(BrokenTransaction);
        return;
      }
      if AlreadyStored(db.rows, data) {
        errors' := errors' + [RecordError(i, AlreadyExists(Field(data, "wn_id"), Field(data, "source"), Field(data, "source_id")))];
        return;
      }
      var created := AsCreated(fields, env);
      var failure := env.createError(created);
      if failure.Some? {
        errors' := errors' + [RecordError(i, CreateFailed(failure.value))];
        needsRollback' := failure.value.InInsert?;
        return;
      }
      var id := db.nextId;
      db.rows := db.rows[id := created];
      db.nextId := db.nextId + 1;
      createdIds' := createdIds' + [id];
    }
    job.progress := (|createdIds'| + |updatedIds'|) * 100 / total;
  }

  /** process_import. */
  method Process(job: ImportRecord, db: ObservationDb, storage: FileStorage, input: ImportInput, env: ImportEnv)
      returns (result: ImportResult)
    modifies job, db, storage
    ensures Outcome(result, World(job.State(), db.rows, db.nextId, storage.files))
         == ProcessImport(old(World(job.State(), db.rows, db.nextId, storage.files)), input, env)
  {
    job.status := PROCESSING;
    var loaded := Loaded(input);
    if loaded.Failure? {
      job.status := FAILED;
      job.errorMessage := Some(loaded.error);
      if !loaded.error.InvalidJson? {
        storage.files := storage.files - {input.filePath};
      }
      return Failed(loaded.error);
    }
    var (processedData, validationErrors) := input.processData(loaded.value);
    if validationErrors != [] {
      job.status := FAILED;
      job.errorMessage := Some(Validation(validationErrors));
      storage.files := storage.files - {input.filePath};
      return Failed(Validation(validationErrors));
    }
    var snapshot := db.rows;
    var createdIds, updatedIds, errors, needsRollback, aborted := [], [], [], false, None;
    if processedData != [] {
      createdIds, updatedIds, errors, needsRollback, aborted := ProcessRecords(job, db, processedData, env);
    }
    // leaving the atomic block
    if aborted.Some? || needsRollback {
      db.rows := snapshot;
    }
    if aborted.Some? {
      job.status := FAILED;
      job.errorMessage := Some(Aborted(aborted.value));
      storage.files := storage.files - {input.filePath};
      return Failed(Aborted(aborted.value));
    }
    if errors != [] {
      job.status := FAILED;
      job.errorMessage := Some(RecordErrors(errors));
      storage.files := storage.files - {input.filePath};
      return Failed(RecordErrors(errors));
    }
    job.status := COMPLETED;
    job.completedAt := Some(env.now);
    job.createdIds := createdIds;
    job.updatedIds := updatedIds;
    storage.files := storage.files - {input.filePath};
    return Completed(createdIds, updatedIds);
  }

  // ------------------------------------------------------------ what an import promises

  /** Each record that runs ends in exactly one place: the created ids, the
      updated ids, the error list, or the exception that ends the loop. A
      created observation had no id, a key combination whose wn_id, if it
      has one, `int()` accepts, no stored match and
      an insert that went through, in a block not marked for rollback; an
      updated one named a stored observation by an id `int()` accepts and
      was saved. A record that fails or raises writes nothing. */
  lemma StepCases(t: Tally, i: nat, data: Record, total: nat, env: ImportEnv)
    requires total > 0
    requires t.aborted.None?
    ensures var r := StepRecord(t, i, data, total, env);
            var id := Field(data, "id");
            var n := IdNumber(id);
            && (r.createdIds != t.createdIds <==>
                  !Truthy(id) && (HasWnIdSource(data) || HasSourceIdSource(data))
                  && !(HasWnIdSource(data) && WnIdKey(data).None?) && !t.needsRollback
                  && !AlreadyStored(t.rows, data) && env.createError(AsCreated(data - {"id"}, env)).None?)
            && (r.updatedIds != t.updatedIds <==>
                  Truthy(id) && n.Some? && !t.needsRollback && n.value in t.rows
                  && env.saveError(Updated(t.rows[n.value], data - {"id"}, env)).None?)
            && (r.errors != t.errors ==> r.errors[..|t.errors|] == t.errors && |r.errors| == |t.errors| + 1)
            && (r.errors != t.errors || r.aborted.Some? ==>
                  r.rows == t.rows && r.nextId == t.nextId && r.progress == t.progress
                  && r.createdIds == t.createdIds && r.updatedIds == t.updatedIds)
            && (r.aborted.Some? ==> r.errors == t.errors)
            && |r.createdIds| + |r.updatedIds| + |r.errors| + (if r.aborted.Some? then 1 else 0)
               == |t.createdIds| + |t.updatedIds| + |t.errors| + 1
  {
  }

  /** When a record raises: an id `int()` refuses, a wn_id `int()` refuses
      while the duplicate query is built, a query after a refused insert, or
      a failed save; and a refused insert marks the block for
      rollback, which nothing clears. */
  lemma StepFailures(t: Tally, i: nat, data: Record, total: nat, env: ImportEnv)
    requires total > 0
    requires t.aborted.None?
    ensures var r := StepRecord(t, i, data, total, env);
            var id := Field(data, "id");
            var n := IdNumber(id);
            && (r.aborted.Some? <==>
                  || (Truthy(id) && (n.None? || t.needsRollback
                                     || (n.value in t.rows
                                         && env.saveError(Updated(t.rows[n.value], data - {"id"}, env)).Some?)))
                  || (!Truthy(id) && HasWnIdSource(data) && WnIdKey(data).None?)
                  || (!Truthy(id) && (HasWnIdSource(data) || HasSourceIdSource(data)) && t.needsRollback))
            && (r.aborted == Some(BrokenTransaction) ==> t.needsRollback)
            && (r.needsRollback <==>
                  t.needsRollback || (r.errors != t.errors && r.errors[|t.errors|].error.CreateFailed?
                                      && r.errors[|t.errors|].error.failure.InInsert?))
  {
  }

  /** Every record up to the one that raised is accounted for once. */
  lemma {:induction false} RunTallies(t: Tally, records: seq<Record>, i: nat, total: nat, env: ImportEnv)
    requires total > 0
    requires t.aborted.None?
    ensures var r := Run(t, records, i, total, env);
            var counted := |r.createdIds| + |r.updatedIds| + |r.errors|;
            var before := |t.createdIds| + |t.updatedIds| + |t.errors|;
            && (r.aborted.None? ==> counted == before + |records|)
            && (r.aborted.Some? ==> counted < before + |records|)
    decreases |records|
  {
    if records != [] {
      var next := StepRecord(t, i, records[0], total, env);
      StepCases(t, i, records[0], total, env);
      if next.aborted.None? {
        RunTallies(next, records[1..], i + 1, total, env);
      }
    }
  }

  /** The stored progress never exceeds 100 while at most `total` records
      are written. */
  lemma {:induction false} RunProgressBounded(t: Tally, records: seq<Record>, i: nat, total: nat, env: ImportEnv)
    requires total > 0
    requires 0 <= t.progress <= 100
    requires |t.createdIds| + |t.updatedIds| + |records| <= total
    ensures 0 <= Run(t, records, i, total, env).progress <= 100
    decreases |records|
  {
    if records != [] && t.aborted.None? {
      StepProgress(t, i, records[0], total, env);
      RunProgressBounded(StepRecord(t, i, records[0], total, env), records[1..], i + 1, total, env);
    }
  }

  /** One record writes at most one observation and keeps the progress
      within bounds. */
  lemma StepProgress(t: Tally, i: nat, data: Record, total: nat, env: ImportEnv)
    requires total > 0
    requires 0 <= t.progress <= 100
    requires |t.createdIds| + |t.updatedIds| < total
    ensures var next := StepRecord(t, i, data, total, env);
            && 0 <= next.progress <= 100
            && |next.createdIds| + |next.updatedIds| <= |t.createdIds| + |t.updatedIds| + 1
  {
    var next := StepRecord(t, i, data, total, env);
    var written := |next.createdIds| + |next.updatedIds|;
    if next.progress != t.progress {
      assert next.progress == written * 100 / total;
      ShareBounded(written, total);
    }
  }

  lemma ShareBounded(written: nat, total: nat)
    requires 0 < total && written <= total
    ensures 0 <= written * 100 / total <= 100
  {
    assert written * 100 <= total * 100;
  }

  /** When no record of a non-empty run fails or raises, the last one
      leaves the progress at the share written. */
  lemma {:induction false} RunProgressAtEnd(t: Tally, records: seq<Record>, i: nat, total: nat, env: ImportEnv)
    requires total > 0 && records != []
    ensures var r := Run(t, records, i, total, env);
            r.errors == t.errors && r.aborted.None? ==> r.progress == (|r.createdIds| + |r.updatedIds|) * 100 / total
    decreases |records|
  {
    if t.aborted.None? {
      var next := StepRecord(t, i, records[0], total, env);
      StepCases(t, i, records[0], total, env);
      RunErrorsGrow(next, records[1..], i + 1, total, env);
      if records[1..] != [] {
        RunProgressAtEnd(next, records[1..], i + 1, total, env);
      }
    }
  }

  /** The error list only grows. */
  lemma {:induction false} RunErrorsGrow(t: Tally, records: seq<Record>, i: nat, total: nat, env: ImportEnv)
    requires total > 0
    ensures t.errors <= Run(t, records, i, total, env).errors
    decreases |records|
  {
    if records != [] && t.aborted.None? {
      RunErrorsGrow(StepRecord(t, i, records[0], total, env), records[1..], i + 1, total, env);
    }
  }

  /** A run ends with its block marked for rollback exactly when it already
      was, or when the database refused one of its inserts. */
  lemma {:induction false} RunRollbackIff(t: Tally, records: seq<Record>, i: nat, total: nat, env: ImportEnv)
    requires total > 0
    ensures var r := Run(t, records, i, total, env);
            |t.errors| <= |r.errors|
            && (r.needsRollback <==> t.needsRollback || HasInsertError(r.errors[|t.errors|..]))
    decreases |records|
  {
    var r := Run(t, records, i, total, env);
    RunErrorsGrow(t, records, i, total, env);
    if records != [] && t.aborted.None? {
      var next := StepRecord(t, i, records[0], total, env);
      StepRollback(t, i, records[0], total, env);
      RunRollbackIff(next, records[1..], i + 1, total, env);
      RunErrorsGrow(next, records[1..], i + 1, total, env);
      assert r.errors[|t.errors|..] == next.errors[|t.errors|..] + r.errors[|next.errors|..];
      InsertErrorIn(next.errors[|t.errors|..], r.errors[|next.errors|..]);
    } else {
      assert r.errors[|t.errors|..] == [];
    }
  }

  /** One record marks the block for rollback exactly when it was, or when
      the error it adds is a refused insert. */
  lemma StepRollback(t: Tally, i: nat, data: Record, total: nat, env: ImportEnv)
    requires total > 0
    requires t.aborted.None?
    ensures var r := StepRecord(t, i, data, total, env);
            t.errors <= r.errors
            && (r.needsRollback <==> t.needsRollback || HasInsertError(r.errors[|t.errors|..]))
  {
    var r := StepRecord(t, i, data, total, env);
    StepCases(t, i, data, total, env);
    StepFailures(t, i, data, total, env);
    if r.errors != t.errors {
      assert r.errors[|t.errors|..] == [r.errors[|t.errors|]];
    } else {
      assert r.errors[|t.errors|..] == [];
    }
  }

  lemma InsertErrorIn(a: seq<RecordError>, b: seq<RecordError>)
    ensures HasInsertError(a + b) <==> HasInsertError(a) || HasInsertError(b)
  {
    if HasInsertError(b) {
      var j :| 0 <= j < |b| && b[j].error.CreateFailed? && b[j].error.failure.InInsert?;
      assert (a + b)[|a| + j] == b[j];
    }
    if HasInsertError(a) {
      var j :| 0 <= j < |a| && a[j].error.CreateFailed? && a[j].error.failure.InInsert?;
      assert (a + b)[j] == a[j];
    }
    if HasInsertError(a + b) {
      var j :| 0 <= j < |a + b| && (a + b)[j].error.CreateFailed? && (a + b)[j].error.failure.InInsert?;
      if j >= |a| {
        assert b[j - |a|] == (a + b)[j];
      } else {
        assert a[j] == (a + b)[j];
      }
    }
  }

  /** Created observations are new rows under fresh keys, and no row
      disappears. */
  lemma {:induction false} RunKeys(t: Tally, records: seq<Record>, i: nat, total: nat, env: ImportEnv)
    requires total > 0
    requires forall k :: k in t.rows ==> k < t.nextId
    ensures var r := Run(t, records, i, total, env);
            && (forall k :: k in r.rows ==> k < r.nextId)
            && t.rows.Keys <= r.rows.Keys
            && t.createdIds <= r.createdIds
            && (forall k :: k in r.createdIds[|t.createdIds|..] ==> k in r.rows && k !in t.rows)
    decreases |records|
  {
    var r := Run(t, records, i, total, env);
    if records != [] && t.aborted.None? {
      var next := StepRecord(t, i, records[0], total, env);
      StepKeys(t, i, records[0], total, env);
      RunKeys(next, records[1..], i + 1, total, env);
      if next.createdIds != t.createdIds {
        assert r.createdIds[|t.createdIds|..] == [t.nextId] + r.createdIds[|next.createdIds|..];
      } else {
        assert r.createdIds[|t.createdIds|..] == r.createdIds[|next.createdIds|..];
      }
    }
  }

  /** One record: keys stay below the next key, no row disappears, and a
      create adds the row under the next key. */
  lemma StepKeys(t: Tally, i: nat, data: Record, total: nat, env: ImportEnv)
    requires total > 0
    requires forall k :: k in t.rows ==> k < t.nextId
    ensures var next := StepRecord(t, i, data, total, env);
            && (forall k :: k in next.rows ==> k < next.nextId)
            && t.rows.Keys <= next.rows.Keys
            && (next.createdIds == t.createdIds ||
                (next.createdIds == t.createdIds + [t.nextId] && t.nextId in next.rows && t.nextId !in t.rows))
  {
  }

  /** The file stays only when its JSON is invalid; the import ends failed
      or completed, and completed exactly when it returns the ids it
      stores. */
  lemma ImportEnds(w: World, input: ImportInput, env: ImportEnv)
    ensures var o := ProcessImport(w, input, env);
            && (input.filePath in o.world.files <==>
                  input.filePath in w.files && Loaded(input).Failure? && Loaded(input).error.InvalidJson?)
            && (o.world.job.status == COMPLETED <==> o.result.Completed?)
            && (o.world.job.status == FAILED <==> o.result.Failed?)
            && (o.result.Completed? ==>
                  o.world.job.createdIds == o.result.createdIds && o.world.job.updatedIds == o.result.updatedIds)
            && (o.result.Failed? ==> o.world.job.errorMessage == Some(o.result.failure))
  {
  }

  /** A completed import has written every checked record, and shows a
      progress of 100 when there was any. */
  lemma CompletedWroteEverything(w: World, input: ImportInput, env: ImportEnv)
    ensures var o := ProcessImport(w, input, env);
            o.result.Completed? && Loaded(input).Success? ==>
              var processed := input.processData(Loaded(input).value).0;
              |o.result.createdIds| + |o.result.updatedIds| == |processed|
              && (processed != [] ==> o.world.job.progress == 100)
  {
    if Loaded(input).Success? {
      var (processed, errors) := input.processData(Loaded(input).value);
      if errors == [] && processed != [] {
        var n := |processed|;
        var t0 := Tally(w.rows, w.nextId, [], [], [], w.job.progress, false, None);
        var t := Run(t0, processed, 1, n, env);
        RunTallies(t0, processed, 1, n, env);
        RunProgressAtEnd(t0, processed, 1, n, env);
        if t.errors == [] && t.aborted.None? {
          assert |t.createdIds| + |t.updatedIds| == n;
          FullShare(n);
        }
      }
    }
  }

  lemma FullShare(n: nat)
    requires n > 0
    ensures n * 100 / n == 100
  {
  }

  /** The stored progress stays a percentage. */
  lemma ImportProgressBounded(w: World, input: ImportInput, env: ImportEnv)
    requires 0 <= w.job.progress <= 100
    ensures 0 <= ProcessImport(w, input, env).world.job.progress <= 100
  {
    if Loaded(input).Success? {
      var (processed, errors) := input.processData(Loaded(input).value);
      if errors == [] && processed != [] {
        RunProgressBounded(Tally(w.rows, w.nextId, [], [], [], w.job.progress, false, None), processed, 1, |processed|, env);
      }
    }
  }

  /** What the atomic block leaves: once the records were handled, the observations
      are those before the import exactly when a record raised or the
      database refused an insert, and those the run wrote otherwise; the
      key sequence keeps what the run took either way. */
  lemma DatabaseErrorsRollBack(w: World, input: ImportInput, env: ImportEnv)
    requires Loaded(input).Success?
    requires input.processData(Loaded(input).value).1 == []
    requires input.processData(Loaded(input).value).0 != []
    ensures var processed := input.processData(Loaded(input).value).0;
            var t := Run(Tally(w.rows, w.nextId, [], [], [], w.job.progress, false, None), processed, 1, |processed|, env);
            var o := ProcessImport(w, input, env);
            && o.world.rows == (if t.aborted.Some? || HasInsertError(t.errors) then w.rows else t.rows)
            && o.world.nextId == t.nextId
            && (t.aborted.Some? <==> o.result.Failed? && o.result.failure.Aborted?)
  {
    var processed := input.processData(Loaded(input).value).0;
    var t0 := Tally(w.rows, w.nextId, [], [], [], w.job.progress, false, None);
    RunRollbackIff(t0, processed, 1, |processed|, env);
    var t := Run(t0, processed, 1, |processed|, env);
    assert t.errors[|t0.errors|..] == t.errors;
  }

  /** Errors do not roll back: a record that updates a stored observation
      stays written when the next record names an unknown id, although the
      import is marked failed. */
  lemma ErrorsDoNotRollBack(w: World, input: ImportInput, env: ImportEnv, first: Record, second: Record, k: int, m: int)
    requires Loaded(input).Success?
    requires input.processData(Loaded(input).value) == ([first, second], [])
    requires Field(first, "id") == PyInt(k) && k != 0 && k in w.rows
    requires env.saveError(Updated(w.rows[k], first - {"id"}, env)).None?
    requires Field(second, "id") == PyInt(m) && m != 0 && m != k && m !in w.rows
    ensures var o := ProcessImport(w, input, env);
            && o.result == Failed(RecordErrors([RecordError(2, UnknownId(PyInt(m)))]))
            && o.world.job.status == FAILED
            && o.world.rows == w.rows[k := Updated(w.rows[k], first - {"id"}, env)]
  {
    var records := [first, second];
    var t0 := Tally(w.rows, w.nextId, [], [], [], w.job.progress, false, None);
    var t1 := StepRecord(t0, 1, first, 2, env);
    var t2 := StepRecord(t1, 2, second, 2, env);
    assert t1.rows == w.rows[k := Updated(w.rows[k], first - {"id"}, env)];
    assert m !in t1.rows && t1.errors == [] && t1.aborted.None? && !t1.needsRollback;
    assert t2.errors == [RecordError(2, UnknownId(PyInt(m)))] && t2.aborted.None? && !t2.needsRollback;
    assert records[1..] == [second] && records[1..][1..] == [];
    assert Run(t1, [second], 2, 2, env) == Run(t2, [], 3, 2, env) == t2;
    assert Run(t0, records, 1, 2, env) == Run(t1, [second], 2, 2, env);
  }

  /** A refused insert undoes the update before it: the import fails with
      the insert's error, the stored observations are those before the
      import, and the progress saved is the update's 50. */
  lemma InsertErrorUndoesEarlierUpdate(w: World, input: ImportInput, env: ImportEnv, first: Record, second: Record,
                                       k: int, message: string)
    requires Loaded(input).Success?
    requires input.processData(Loaded(input).value) == ([first, second], [])
    requires Field(first, "id") == PyInt(k) && k != 0 && k in w.rows
    requires env.saveError(Updated(w.rows[k], first - {"id"}, env)).None?
    requires !Truthy(Field(second, "id")) && HasWnIdSource(second) && WnIdKey(second).Some?
    requires !AlreadyStored(w.rows[k := Updated(w.rows[k], first - {"id"}, env)], second)
    requires env.createError(AsCreated(second - {"id"}, env)) == Some(InInsert(message))
    ensures var o := ProcessImport(w, input, env);
            && o.result == Failed(RecordErrors([RecordError(2, CreateFailed(InInsert(message)))]))
            && o.world.rows == w.rows
            && o.world.job.progress == 50
  {
    var records := [first, second];
    var t0 := Tally(w.rows, w.nextId, [], [], [], w.job.progress, false, None);
    var t1 := StepRecord(t0, 1, first, 2, env);
    var t2 := StepRecord(t1, 2, second, 2, env);
    assert t1.rows == w.rows[k := Updated(w.rows[k], first - {"id"}, env)] && t1.progress == 50;
    assert t1.aborted.None? && !t1.needsRollback && t1.errors == [];
    assert t2.errors == [RecordError(2, CreateFailed(InInsert(message)))] && t2.needsRollback && t2.aborted.None?;
    assert records[1..] == [second] && records[1..][1..] == [];
    assert Run(t1, [second], 2, 2, env) == Run(t2, [], 3, 2, env) == t2;
    assert Run(t0, records, 1, 2, env) == Run(t1, [second], 2, 2, env);
  }

  /** After a refused insert the next record's query raises: the import
      fails with TransactionManagementError and nothing is stored. */
  lemma QueryAfterInsertErrorAborts(w: World, input: ImportInput, env: ImportEnv, first: Record, second: Record,
                                    m: int, message: string)
    requires Loaded(input).Success?
    requires input.processData(Loaded(input).value) == ([first, second], [])
    requires !Truthy(Field(first, "id")) && HasWnIdSource(first) && WnIdKey(first).Some?
    requires !AlreadyStored(w.rows, first)
    requires env.createError(AsCreated(first - {"id"}, env)) == Some(InInsert(message))
    requires Field(second, "id") == PyInt(m) && m != 0
    ensures var o := ProcessImport(w, input, env);
            && o.result == Failed(Aborted(BrokenTransaction))
            && o.world.job.errorMessage == Some(Aborted(BrokenTransaction))
            && o.world.rows == w.rows
  {
    var records := [first, second];
    var t0 := Tally(w.rows, w.nextId, [], [], [], w.job.progress, false, None);
    var t1 := StepRecord(t0, 1, first, 2, env);
    var t2 := StepRecord(t1, 2, second, 2, env);
    assert t1.needsRollback && t1.aborted.None?;
    assert t2.aborted == Some(BrokenTransaction);
    assert records[1..] == [second] && records[1..][1..] == [];
    assert Run(t1, [second], 2, 2, env) == Run(t2, [], 3, 2, env) == t2;
    assert Run(t0, records, 1, 2, env) == Run(t1, [second], 2, 2, env);
  }

  /** An id given as the decimal text of a stored key updates that
      observation, as the number itself would. */
  lemma TextIdUpdates(w: World, input: ImportInput, env: ImportEnv, record: Record, k: int)
    requires Loaded(input).Success?
    requires input.processData(Loaded(input).value) == ([record], [])
    requires Field(record, "id") == PyStr(IntText(k)) && k in w.rows
    requires env.saveError(Updated(w.rows[k], record - {"id"}, env)).None?
    ensures var o := ProcessImport(w, input, env);
            && o.result == Completed([], [k])
            && o.world.rows == w.rows[k := Updated(w.rows[k], record - {"id"}, env)]
  {
    ParseIntText(k);
    var t0 := Tally(w.rows, w.nextId, [], [], [], w.job.progress, false, None);
    var t1 := StepRecord(t0, 1, record, 1, env);
    assert [record][1..] == [];
    assert Run(t0, [record], 1, 1, env) == Run(t1, [], 2, 1, env) == t1;
  }

  /** An id that is text `int()` refuses ends the import: it fails with the
      conversion error, and the block rolls back the records before it. */
  lemma NonNumericIdAborts(w: World, input: ImportInput, env: ImportEnv, records: seq<Record>, j: nat, s: string, c: nat)
    requires Loaded(input).Success?
    requires input.processData(Loaded(input).value) == (records, [])
    requires j < |records| && Field(records[j], "id") == PyStr(s)
    requires c < |s| && !IsDigit(s[c]) && (c == 0 ==> s[0] != '-' && s[0] != '+')
    ensures var o := ProcessImport(w, input, env);
            && o.result.Failed? && o.result.failure.Aborted?
            && o.world.rows == w.rows
  {
    ParseIntRejects(s, c);
    var t0 := Tally(w.rows, w.nextId, [], [], [], w.job.progress, false, None);
    RunAbortsBy(t0, records, 1, |records|, env, j);
  }

  /** A record whose id `int()` refuses ends the run by the time it is
      reached. */
  lemma {:induction false} RunAbortsBy(t: Tally, records: seq<Record>, i: nat, total: nat, env: ImportEnv, j: nat)
    requires total > 0
    requires j < |records| && Truthy(Field(records[j], "id")) && IdNumber(Field(records[j], "id")).None?
    ensures Run(t, records, i, total, env).aborted.Some?
    decreases |records|
  {
    if t.aborted.None? {
      var next := StepRecord(t, i, records[0], total, env);
      if j == 0 {
        assert next.aborted.Some?;
        assert Run(next, records[1..], i + 1, total, env) == next;
      } else {
        assert records[1..][j - 1] == records[j];
        RunAbortsBy(next, records[1..], i + 1, total, env, j - 1);
      }
    }
  }

  /** A wn_id given as the decimal text of a stored observation's wn_id,
      with the same source, is a duplicate: the lookup converts the text, so
      the import fails with "already exists" and writes nothing. */
  lemma TextWnIdAlreadyExists(w: World, input: ImportInput, env: ImportEnv, record: Record, k: int, n: int)
    requires Loaded(input).Success?
    requires input.processData(Loaded(input).value) == ([record], [])
    requires !Truthy(Field(record, "id")) && Field(record, "wn_id") == PyStr(IntText(n))
    requires Field(record, "source") != PyNone
    requires k in w.rows && Field(w.rows[k], "wn_id") == PyInt(n)
    requires Field(w.rows[k], "source") == Field(record, "source")
    ensures var o := ProcessImport(w, input, env);
            && o.result == Failed(RecordErrors([RecordError(1, AlreadyExists(PyStr(IntText(n)), Field(record, "source"),
                                                                             Field(record, "source_id")))]))
            && o.world.rows == w.rows
  {
    ParseIntText(n);
    assert SameKeys(w.rows[k], record);
    assert AlreadyStored(w.rows, record);
    var t0 := Tally(w.rows, w.nextId, [], [], [], w.job.progress, false, None);
    var t1 := StepRecord(t0, 1, record, 1, env);
    assert t1.errors == [RecordError(1, AlreadyExists(PyStr(IntText(n)), Field(record, "source"),
                                                      Field(record, "source_id")))];
    assert t1.aborted.None? && !t1.needsRollback && t1.rows == w.rows;
    assert [record][1..] == [];
    assert Run(t0, [record], 1, 1, env) == Run(t1, [], 2, 1, env) == t1;
  }

  /** A wn_id that is text `int()` refuses ends the import when the query is
      built: it fails with the conversion error and nothing is written. */
  lemma NonNumericWnIdAborts(w: World, input: ImportInput, env: ImportEnv, record: Record, s: string, c: nat)
    requires Loaded(input).Success?
    requires input.processData(Loaded(input).value) == ([record], [])
    requires !Truthy(Field(record, "id")) && Field(record, "wn_id") == PyStr(s) && Field(record, "source") != PyNone
    requires c < |s| && !IsDigit(s[c]) && (c == 0 ==> s[0] != '-' && s[0] != '+')
    ensures var o := ProcessImport(w, input, env);
            && o.result == Failed(Aborted(WnIdNotANumber(PyStr(s))))
            && o.world.rows == w.rows
  {
    ParseIntRejects(s, c);
    var t0 := Tally(w.rows, w.nextId, [], [], [], w.job.progress, false, None);
    var t1 := StepRecord(t0, 1, record, 1, env);
    assert [record][1..] == [];
    assert Run(t0, [record], 1, 1, env) == Run(t1, [], 2, 1, env) == t1;
  }
}

/** CSV export rows (vespadb/observations/tasks/export_utils.py): the export's
    status column, the permission-dependent row, and the stream of rows. The
    writer, isoformat and str of non-scalar values are parameters. */
module ExportUtils {
  import opened Wrappers
  import opened Records

  const CSV_HEADERS: seq<string> := [
    "id", "created_datetime", "modified_datetime", "latitude", "longitude",
    "source", "source_id", "nest_height", "nest_size", "nest_location",
    "nest_type", "observation_datetime", "province", "eradication_date",
    "municipality", "images", "anb_domain", "notes", "eradication_result",
    "wn_id", "wn_validation_status", "nest_status"
  ]

  /** The columns a user without access to the observation's municipality sees. */
  const RESTRICTED_FIELDS: seq<string> := [
    "id", "created_datetime", "latitude", "longitude", "source",
    "nest_height", "nest_type", "observation_datetime", "province",
    "municipality", "nest_status", "source_id", "anb_domain"
  ]

  const DATETIME_FIELDS: seq<string> := ["created_datetime", "modified_datetime", "observation_datetime"]

  /** get_status: any truthy eradication_result counts as eradicated. */
  function GetStatus(obs: Record): (status: string)
    ensures status == "eradicated" <==> Truthy(Field(obs, "eradication_result"))
    ensures status == "reserved" <==> !Truthy(Field(obs, "eradication_result")) && Truthy(Field(obs, "reserved_by"))
    ensures status == "untreated" <==> !Truthy(Field(obs, "eradication_result")) && !Truthy(Field(obs, "reserved_by"))
  {
    if Truthy(Field(obs, "eradication_result")) then "eradicated"
    else if Truthy(Field(obs, "reserved_by")) then "reserved"
    else "untreated"
  }

  /** Admins and users holding the observation's municipality see every column. */
  predicate FullAccess(obs: Record, isAdmin: bool, userMunicipalityIds: set<int>) {
    isAdmin || (Field(obs, "municipality_id").PyInt? && Field(obs, "municipality_id").i in userMunicipalityIds)
  }

  function AllowedFields(obs: Record, isAdmin: bool, userMunicipalityIds: set<int>): seq<string> {
    if FullAccess(obs, isAdmin, userMunicipalityIds) then CSV_HEADERS else RESTRICTED_FIELDS
  }

  /** The text of one allowed column. `iso` is the isoformat of a datetime
      with the microseconds dropped; `strOf` is str of a non-scalar value. */
  function Cell(obs: Record, field: string, iso: int -> string, strOf: PyValue -> string): string {
    var v := Field(obs, field);
    var loc := Field(obs, "location");
    if field == "latitude" then (if loc.PyPoint? then loc.y else "")
    else if field == "longitude" then (if loc.PyPoint? then loc.x else "")
    else if field in DATETIME_FIELDS then (if v.PyDatetime? then iso(v.t) + "Z" else "")
    else if field == "province" || field == "municipality" then (if v.PyRef? then v.name else "")
    else if field == "anb_domain" then Str(Field(obs, "anb"), strOf)
    else if field == "nest_status" then GetStatus(obs)
    else if v == PyNone then ""
    else Str(v, strOf)
  }

  /** One column of the row: blank when not allowed, or when reading the field
      raises (the inner except; `raises` says for which fields it does). */
  function RowCell(obs: Record, field: string, isAdmin: bool, userMunicipalityIds: set<int>,
                   iso: int -> string, strOf: PyValue -> string, raises: string -> bool): string
  {
    if field !in AllowedFields(obs, isAdmin, userMunicipalityIds) || raises(field) then ""
    else Cell(obs, field, iso, strOf)
  }

  /** prepare_row_data: one entry per header, in header order. */
  method PrepareRowData(obs: Record, isAdmin: bool, userMunicipalityIds: set<int>,
                        iso: int -> string, strOf: PyValue -> string, raises: string -> bool)
    returns (rowData: seq<string>)
    ensures |rowData| == |CSV_HEADERS|
    ensures forall i :: 0 <= i < |CSV_HEADERS| ==>
      rowData[i] == RowCell(obs, CSV_HEADERS[i], isAdmin, userMunicipalityIds, iso, strOf, raises)
  {
    var allowedFields := AllowedFields(obs, isAdmin, userMunicipalityIds);
    rowData := [];
    for i := 0 to |CSV_HEADERS|
      invariant |rowData| == i
      invariant forall j :: 0 <= j < i ==>
        rowData[j] == RowCell(obs, CSV_HEADERS[j], isAdmin, userMunicipalityIds, iso, strOf, raises)
    {
      var field := CSV_HEADERS[i];
      var cell: string;
      if field !in allowedFields {
        cell := "";
      } else if raises(field) {
        cell := "";
      } else {
        cell := Cell(obs, field, iso, strOf);
      }
      assert cell == RowCell(obs, field, isAdmin, userMunicipalityIds, iso, strOf, raises);
      rowData := rowData + [cell];
    }
  }

  /** Without access, every column outside the restricted list is blank; the
      restricted columns are filled as for an admin. */
  lemma RestrictedRow(obs: Record, isAdmin: bool, ids: set<int>, iso: int -> string,
                      strOf: PyValue -> string, raises: string -> bool, field: string)
    requires !FullAccess(obs, isAdmin, ids) && field in CSV_HEADERS
    ensures field !in RESTRICTED_FIELDS ==> RowCell(obs, field, isAdmin, ids, iso, strOf, raises) == ""
    ensures field in RESTRICTED_FIELDS ==>
      RowCell(obs, field, isAdmin, ids, iso, strOf, raises) == RowCell(obs, field, true, ids, iso, strOf, raises)
  {
  }

  /** The municipality's own users see what an admin sees. */
  lemma OwnMunicipalityRow(obs: Record, ids: set<int>, iso: int -> string,
                           strOf: PyValue -> string, raises: string -> bool, field: string)
    requires Field(obs, "municipality_id").PyInt? && Field(obs, "municipality_id").i in ids
    ensures RowCell(obs, field, false, ids, iso, strOf, raises) == RowCell(obs, field, true, ids, iso, strOf, raises)
  {
  }

  /** None becomes "", a present source_id is stringified, and the status
      column is get_status. */
  lemma CellValues(obs: Record, iso: int -> string, strOf: PyValue -> string)
    ensures Field(obs, "source_id") == PyNone ==> Cell(obs, "source_id", iso, strOf) == ""
    ensures Field(obs, "source_id").PyStr? ==> Cell(obs, "source_id", iso, strOf) == Field(obs, "source_id").s
    ensures Field(obs, "notes") == PyNone ==> Cell(obs, "notes", iso, strOf) == ""
    ensures Field(obs, "eradication_result") == PyNone ==> Cell(obs, "eradication_result", iso, strOf) == ""
    ensures Field(obs, "location") == PyNone ==> Cell(obs, "latitude", iso, strOf) == "" && Cell(obs, "longitude", iso, strOf) == ""
    ensures Cell(obs, "nest_status", iso, strOf) == GetStatus(obs)
    ensures Field(obs, "anb") == PyNone ==> Cell(obs, "anb_domain", iso, strOf) == "None"
  {
    SourceIdCell(obs, iso, strOf);
    BlankCells(obs, iso, strOf);
    PlaceCells(obs, iso, strOf);
    StatusCell(obs, iso, strOf);
  }

  lemma SourceIdCell(obs: Record, iso: int -> string, strOf: PyValue -> string)
    ensures Field(obs, "source_id") == PyNone ==> Cell(obs, "source_id", iso, strOf) == ""
    ensures Field(obs, "source_id").PyStr? ==> Cell(obs, "source_id", iso, strOf) == Field(obs, "source_id").s
  {
    assert "source_id" !in DATETIME_FIELDS;
  }

  lemma BlankCells(obs: Record, iso: int -> string, strOf: PyValue -> string)
    ensures Field(obs, "notes") == PyNone ==> Cell(obs, "notes", iso, strOf) == ""
    ensures Field(obs, "eradication_result") == PyNone ==> Cell(obs, "eradication_result", iso, strOf) == ""
  {
    assert "notes" !in DATETIME_FIELDS && "eradication_result" !in DATETIME_FIELDS;
  }

  lemma PlaceCells(obs: Record, iso: int -> string, strOf: PyValue -> string)
    ensures Field(obs, "location") == PyNone ==> Cell(obs, "latitude", iso, strOf) == "" && Cell(obs, "longitude", iso, strOf) == ""
    ensures Field(obs, "anb") == PyNone ==> Cell(obs, "anb_domain", iso, strOf) == "None"
  {
    assert "anb_domain" !in DATETIME_FIELDS;
  }

  lemma StatusCell(obs: Record, iso: int -> string, strOf: PyValue -> string)
    ensures Cell(obs, "nest_status", iso, strOf) == GetStatus(obs)
  {
    assert "nest_status" !in DATETIME_FIELDS;
  }

  /** The row written for one observation. */
  function Row(obs: Record, isAdmin: bool, ids: set<int>, iso: int -> string,
               strOf: PyValue -> string, raises: string -> bool): (row: seq<string>)
    ensures |row| == |CSV_HEADERS|
    ensures forall i :: 0 <= i < |CSV_HEADERS| ==> row[i] == RowCell(obs, CSV_HEADERS[i], isAdmin, ids, iso, strOf, raises)
  {
    seq(|CSV_HEADERS|, i requires 0 <= i < |CSV_HEADERS| => RowCell(obs, CSV_HEADERS[i], isAdmin, ids, iso, strOf, raises))
  }

  /** The rows a loop writes for a prefix of the queryset: the row of each
      observation in order, skipping those whose write raises. */
  function Written(observations: seq<Record>, row: Record -> seq<string>, writeFails: nat -> bool): seq<seq<string>>
    decreases |observations|
  {
    if observations == [] then []
    else
      var k := |observations| - 1;
      Written(observations[..k], row, writeFails) + (if writeFails(k) then [] else [row(observations[k])])
  }

  /** The data rows written for a prefix of the queryset. */
  function DataRows(observations: seq<Record>, isAdmin: bool, ids: set<int>, iso: int -> string,
                    strOf: PyValue -> string, raises: string -> bool, writeFails: nat -> bool): seq<seq<string>>
  {
    Written(observations, o => Row(o, isAdmin, ids, iso, strOf, raises), writeFails)
  }

  /** generate_rows: the header first, then the rows; `writeFails(k)` says
      that writing the k-th observation's row raises, which skips it. */
  method GenerateRows(observations: seq<Record>, isAdmin: bool, ids: set<int>, iso: int -> string,
                      strOf: PyValue -> string, raises: string -> bool, writeFails: nat -> bool)
    returns (written: seq<seq<string>>)
    ensures written == [CSV_HEADERS] + DataRows(observations, isAdmin, ids, iso, strOf, raises, writeFails)
  {
    written := [CSV_HEADERS];
    for k := 0 to |observations|
      invariant written == [CSV_HEADERS] + DataRows(observations[..k], isAdmin, ids, iso, strOf, raises, writeFails)
    {
      var row := PrepareRowData(observations[k], isAdmin, ids, iso, strOf, raises);
      assert observations[..k + 1][..k] == observations[..k];
      assert row == Row(observations[k], isAdmin, ids, iso, strOf, raises);
      if !writeFails(k) {
        written := written + [row];
      }
    }
    assert observations[..|observations|] == observations;
  }

  /** Every written row has one entry per header, and with no failed write
      there is one row per observation, in queryset order. */
  lemma DataRowsShape(observations: seq<Record>, isAdmin: bool, ids: set<int>, iso: int -> string,
                      strOf: PyValue -> string, raises: string -> bool, writeFails: nat -> bool)
    ensures var rows := DataRows(observations, isAdmin, ids, iso, strOf, raises, writeFails);
      |rows| <= |observations| && forall j :: 0 <= j < |rows| ==> |rows[j]| == |CSV_HEADERS|
    ensures (forall k :: 0 <= k < |observations| ==> !writeFails(k)) ==>
      var rows := DataRows(observations, isAdmin, ids, iso, strOf, raises, writeFails);
      |rows| == |observations|
      && forall j, i :: 0 <= j < |rows| && 0 <= i < |CSV_HEADERS| ==>
           rows[j][i] == RowCell(observations[j], CSV_HEADERS[i], isAdmin, ids, iso, strOf, raises)
  {
    var row := o => Row(o, isAdmin, ids, iso, strOf, raises);
    WrittenWidth(observations, row, writeFails, |CSV_HEADERS|);
    if forall k :: 0 <= k < |observations| ==> !writeFails(k) {
      WrittenComplete(observations, row, writeFails);
    }
  }

  /** At most one row per observation, each as wide as every row is. */
  lemma {:induction false} WrittenWidth(observations: seq<Record>, row: Record -> seq<string>, writeFails: nat -> bool, n: nat)
    requires forall o :: |row(o)| == n
    ensures var rows := Written(observations, row, writeFails);
      |rows| <= |observations| && forall j :: 0 <= j < |rows| ==> |rows[j]| == n
    decreases |observations|
  {
    if observations != [] {
      WrittenWidth(observations[..|observations| - 1], row, writeFails, n);
    }
  }

  /** With no failed write, the j-th row is the j-th observation's. */
  lemma {:induction false} WrittenComplete(observations: seq<Record>, row: Record -> seq<string>, writeFails: nat -> bool)
    requires forall k :: 0 <= k < |observations| ==> !writeFails(k)
    ensures var rows := Written(observations, row, writeFails);
      |rows| == |observations| && forall j :: 0 <= j < |rows| ==> rows[j] == row(observations[j])
    decreases |observations|
  {
    if observations != [] {
      var k := |observations| - 1;
      WrittenComplete(observations[..k], row, writeFails);
      assert forall j :: 0 <= j < k ==> observations[..k][j] == observations[j];
    }
  }
}

/** The observations table as the synchronisation tasks see it: the rows
    that carry a waarnemingen id (wn_id), keyed by it. The tasks find rows
    with `filter(wn_id__in=...)` and remember the ids already present, so a
    wn_id is taken to name one row; rows without a wn_id are never read or
    written by them and are not part of this table. */
module SyncTable {
  import opened Records

  /** Rows by wn_id. */
  type Rows = map<PyValue, Record>

  class ObservationTable {
    var rows: Rows

    constructor (initial: Rows)
      ensures rows == initial
    {
      rows := initial;
    }
  }

  /** `obs.wn_id`. */
  function WnIdOf(r: Record): PyValue {
    Field(r, "wn_id")
  }

  /** A set of wn_ids other than the empty one has an element. */
  lemma NonEmptyHasKey(s: set<PyValue>)
    requires s != {}
    ensures exists w :: w in s
  {
    if forall w :: w !in s {
      assert false;
    }
  }
}

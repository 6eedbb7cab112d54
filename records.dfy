/** The back end's values: a Django model instance or a JSON dictionary is a
    map from field name to a Python value. Foreign keys are references that
    carry the related row's id and name; points carry the text Python writes
    for their two coordinates; datetimes are seconds since the epoch in UTC. */
module Records {
  import opened Wrappers
  import opened Text

  datatype PyValue =
    | PyNone
    | PyBool(b: bool)
    | PyInt(i: int)
    | PyStr(s: string)
    | PyDatetime(t: int)
    | PyPoint(x: string, y: string)
    | PyRef(id: int, name: string)
    | PyList(items: seq<PyValue>)
    | PyDict(entries: map<string, PyValue>)

  /** Python truthiness: None, False, 0, "" and empty containers are false;
      datetimes, points and model instances are true. */
  predicate Truthy(v: PyValue) {
    match v
    case PyNone => false
    case PyBool(b) => b
    case PyInt(i) => i != 0
    case PyStr(s) => s != ""
    case PyDatetime(_) => true
    case PyPoint(_, _) => true
    case PyRef(_, _) => true
    case PyList(items) => items != []
    case PyDict(entries) => entries != map[]
  }

  /** A model instance or a JSON object: field name to value. */
  type Record = map<string, PyValue>

  /** `getattr(obj, name, None)` / `d.get(name)`: an absent field reads as None. */
  function Field(r: Record, name: string): PyValue {
    if name in r then r[name] else PyNone
  }

  /** `d.get(name, default)`: the default only when the key is absent; a
      present None stays None. */
  function FieldOr(r: Record, name: string, default: PyValue): PyValue {
    if name in r then r[name] else default
  }

  /** str(i) for an int: a minus sign and the digits. */
  function IntText(i: int): string {
    if i < 0 then "-" + NatToString(-i) else NatToString(i)
  }

  /** str(v). None, booleans, ints and strings are written as Python writes
      them; the text of other values (datetimes, points, lists, dicts, model
      instances) is what `strOf` gives, which this model leaves abstract. */
  function Str(v: PyValue, strOf: PyValue -> string): (s: string)
    ensures v.PyStr? ==> s == v.s
    ensures v.PyNone? ==> s == "None"
  {
    match v
    case PyNone => "None"
    case PyBool(b) => if b then "True" else "False"
    case PyInt(i) => IntText(i)
    case PyStr(s) => s
    case _ => strOf(v)
  }

  /** `queryset.filter(...)`: the records that satisfy p, in their order. */
  function Where(records: seq<Record>, p: Record -> bool): (r: seq<Record>)
    ensures |r| <= |records|
    ensures forall x :: x in r <==> x in records && p(x)
    decreases |records|
  {
    if records == [] then []
    else if p(records[0]) then [records[0]] + Where(records[1..], p)
    else Where(records[1..], p)
  }

  /** Where keeps the order: the result is a subsequence of the input. */
  predicate IsSubsequence(small: seq<Record>, big: seq<Record>)
    decreases |big|
  {
    if small == [] then true
    else if big == [] then false
    else if small[0] == big[0] then IsSubsequence(small[1..], big[1..])
    else IsSubsequence(small, big[1..])
  }

  lemma {:induction false} WhereKeepsOrder(records: seq<Record>, p: Record -> bool)
    ensures IsSubsequence(Where(records, p), records)
    decreases |records|
  {
    if records != [] {
      WhereKeepsOrder(records[1..], p);
    }
  }

  /** A condition every record meets leaves the queryset unchanged. */
  lemma {:induction false} WhereAll(records: seq<Record>, p: Record -> bool)
    requires forall x :: x in records ==> p(x)
    ensures Where(records, p) == records
    decreases |records|
  {
    if records != [] {
      WhereAll(records[1..], p);
      assert [records[0]] + records[1..] == records;
    }
  }
}

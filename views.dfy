/** The observation view set: which serializer a request gets, which
    permission each action needs, how `create` validates the location and
    finds the municipality, and how the geojson action caches its reply
    under a key built from the sorted query parameters. */
module Views {
  import opened Wrappers
  import opened Records
  import opened Text
  import Uri

  // ---------------------------------------------------------------------
  // get_serializer_class

  /** The requesting user: anonymous, or a user with the `is_staff` flag. */
  datatype User = Anonymous | Member(isStaff: bool)

  predicate IsStaff(u: User) {
    u.Member? && u.isStaff
  }

  datatype SerializerKind = ObservationSerializer | PatchSerializer | AdminPatchSerializer

  /** `get_serializer_class`. */
  function SerializerFor(verb: string, user: User): SerializerKind {
    if verb == "PATCH" then (if IsStaff(user) then AdminPatchSerializer else PatchSerializer)
    else ObservationSerializer
  }

  /** The fields ObservationPatchSerializer accepts. */
  const PATCH_FIELDS: seq<string> := [
    "modified_datetime", "nest_height", "nest_size", "nest_location", "nest_type", "notes",
    "modified_by", "created_by", "duplicate", "reserved_by", "reserved_datetime",
    "eradication_datetime", "eradicator_name", "eradication_result", "eradication_product",
    "eradication_notes"
  ]

  /** The fields ObservationPatchSerializer declares read-only. */
  const PATCH_READ_ONLY: seq<string> := [
    "id", "wn_id", "created_datetime", "location", "source", "wn_notes", "wn_admin_notes",
    "species", "wn_modified_datetime", "wn_created_datetime", "images", "municipality", "anb"
  ]

  /** Whether a serializer writes a model field it is given: the limited one
      only its listed fields, the other two every field but the primary key. */
  predicate Writable(kind: SerializerKind, field: string) {
    match kind
    case PatchSerializer => field in PATCH_FIELDS && field !in PATCH_READ_ONLY
    case AdminPatchSerializer => field != "id"
    case ObservationSerializer => field != "id"
  }

  /** A PATCH gets the admin serializer exactly for staff; any other method
      gets the default one. */
  lemma SerializerChoice(verb: string, user: User)
    ensures SerializerFor(verb, user) == AdminPatchSerializer <==> verb == "PATCH" && IsStaff(user)
    ensures SerializerFor(verb, user) == PatchSerializer <==> verb == "PATCH" && !IsStaff(user)
    ensures verb != "PATCH" ==> SerializerFor(verb, user) == ObservationSerializer
  {
  }

  /** A PATCH by someone other than staff cannot move an observation, change
      its municipality, its source or its waarnemingen id; staff can write
      every field but the primary key. */
  lemma PatchProtectsFields(user: User, field: string)
    ensures !IsStaff(user) && field in PATCH_READ_ONLY ==> !Writable(SerializerFor("PATCH", user), field)
    ensures IsStaff(user) ==> (Writable(SerializerFor("PATCH", user), field) <==> field != "id")
  {
  }

  /** The limits hold for PATCH only: a full update (PUT) by any user gets
      the default serializer, which writes the fields PATCH protects. */
  lemma PutBypassesPatchLimits(user: User)
    ensures forall f :: f in PATCH_READ_ONLY && f != "id" ==> Writable(SerializerFor("PUT", user), f)
    ensures !IsStaff(user) ==> !Writable(SerializerFor("PATCH", user), "location")
  {
    assert "location" in PATCH_READ_ONLY;
  }

  /** The two field lists of the limited serializer do not overlap. */
  lemma PatchListsDisjoint()
    ensures forall f :: f in PATCH_FIELDS ==> f !in PATCH_READ_ONLY
  {
  }

  // ---------------------------------------------------------------------
  // get_permissions

  datatype Permission = AllowAny | IsAuthenticated | IsAdminUser

  /** DRF's `has_permission` for the three classes. */
  predicate Grants(p: Permission, user: User) {
    match p
    case AllowAny => true
    case IsAuthenticated => user.Member?
    case IsAdminUser => IsStaff(user)
  }

  /** `ObservationsViewSet.get_permissions` as written: a table on the
      action name that never consults the classes an `@action` declares. */
  function PermissionForAsWritten(action: string): Permission {
    if action in {"create", "update", "partial_update"} then IsAuthenticated
    else if action == "destroy" then IsAdminUser
    else AllowAny
  }

  /** The `permission_classes` the `@action` decorators declare. */
  function DeclaredPermission(action: string): Option<Permission> {
    if action == "geojson" then Some(AllowAny)
    else if action == "bulk_import" || action == "export" then Some(IsAdminUser)
    else None
  }

  /** `get_permissions` as intended: an extra action keeps the classes its
      decorator declares; the standard actions follow the table. */
  function PermissionFor(action: string): Permission {
    match DeclaredPermission(action)
    case Some(p) => p
    case None => PermissionForAsWritten(action)
  }

  /** The table: writes need a signed-in user, deletion needs staff, and
      everything else is open. */
  lemma PermissionTable(action: string, user: User)
    ensures action in {"create", "update", "partial_update"} ==> (Grants(PermissionForAsWritten(action), user) <==> user.Member?)
    ensures action == "destroy" ==> (Grants(PermissionForAsWritten(action), user) <==> IsStaff(user))
    ensures action !in {"create", "update", "partial_update", "destroy"} ==> Grants(PermissionForAsWritten(action), user)
  {
  }

  /** As written, the CSV export and the bulk import are open to anonymous
      callers, although their decorators ask for staff. */
  lemma ExportOpenToAnyone(user: User)
    ensures Grants(PermissionForAsWritten("export"), user)
    ensures Grants(PermissionForAsWritten("bulk_import"), user)
    ensures DeclaredPermission("export") == Some(IsAdminUser)
  {
  }

  /** As intended, only staff may export; the standard actions are unchanged. */
  lemma ExportNeedsStaff(action: string, user: User)
    ensures Grants(PermissionFor("export"), user) <==> IsStaff(user)
    ensures Grants(PermissionFor("bulk_import"), user) <==> IsStaff(user)
    ensures DeclaredPermission(action).None? ==> PermissionFor(action) == PermissionForAsWritten(action)
  {
  }

  /** Staff pass every check an ordinary user passes. */
  lemma StaffPassEverything(action: string, user: User)
    requires Grants(PermissionFor(action), user)
    ensures Grants(PermissionFor(action), Member(true))
  {
  }

  /** `MunicipalityViewSet.get_permissions`: reading is open, anything else needs staff. */
  function MunicipalityPermission(verb: string): (p: Permission)
    ensures verb == "GET" <==> p == AllowAny
    ensures verb != "GET" ==> p == IsAdminUser
  {
    if verb == "GET" then AllowAny else IsAdminUser
  }

  // ---------------------------------------------------------------------
  // create

  const COORDINATES_REQUIRED := "Longitude and latitude are required."
  const INVALID_FORMAT := "Invalid longitude or latitude format."
  const NO_MUNICIPALITY := "No municipality found for the provided location."
  const UNEXPECTED := "An unexpected error occurred while determining the municipality."

  /** How `float(v)` fails: a ValueError (text that is no number) or another
      exception (a value float() does not take, such as a list). */
  datatype FloatError = ValueError | OtherError

  /** What `create` needs from the outside: `float()`, the first municipality
      whose polygon contains the point, and the serializer's validation
      (None when the data is valid, else the error text). */
  datatype CreateEnv = CreateEnv(
    toFloat: PyValue -> Result<real, FloatError>,
    locate: (real, real) -> Option<int>,
    validate: Record -> Option<string>)

  /** A 201 with the saved data, a 400 raised by the view with one message,
      or a 400 with the serializer's field errors. */
  datatype CreateResult = Created(record: Record) | Rejected(message: string) | Invalid(errors: string)

  /** The try block as written: every exception but a ValueError, the
      "no municipality" ValidationError included, becomes UNEXPECTED. */
  function MunicipalityAsWritten(longitude: PyValue, latitude: PyValue, env: CreateEnv): Result<int, string> {
    match env.toFloat(longitude)
    case Failure(ValueError) => Failure(INVALID_FORMAT)
    case Failure(OtherError) => Failure(UNEXPECTED)
    case Success(x) =>
      match env.toFloat(latitude)
      case Failure(ValueError) => Failure(INVALID_FORMAT)
      case Failure(OtherError) => Failure(UNEXPECTED)
      case Success(y) =>
        match env.locate(x, y)
        case Some(pk) => Success(pk)
        case None => Failure(UNEXPECTED)
  }

  /** The try block as intended: the "no municipality" error reaches the caller. */
  function Municipality(longitude: PyValue, latitude: PyValue, env: CreateEnv): Result<int, string> {
    match env.toFloat(longitude)
    case Failure(ValueError) => Failure(INVALID_FORMAT)
    case Failure(OtherError) => Failure(UNEXPECTED)
    case Success(x) =>
      match env.toFloat(latitude)
      case Failure(ValueError) => Failure(INVALID_FORMAT)
      case Failure(OtherError) => Failure(UNEXPECTED)
      case Success(y) =>
        match env.locate(x, y)
        case Some(pk) => Success(pk)
        case None => Failure(NO_MUNICIPALITY)
  }

  /** `create` around a municipality step. */
  function CreateWith(data: Record, found: Result<int, string>, env: CreateEnv): CreateResult {
    match found
    case Failure(message) => Rejected(message)
    case Success(pk) =>
      var withMunicipality := data["municipality" := PyInt(pk)];
      match env.validate(withMunicipality)
      case Some(errors) => Invalid(errors)
      case None => Created(withMunicipality)
  }

  function CreateAsWritten(data: Record, env: CreateEnv): CreateResult {
    var longitude := Field(data, "longitude");
    var latitude := Field(data, "latitude");
    if longitude.PyNone? || latitude.PyNone? then Rejected(COORDINATES_REQUIRED)
    else CreateWith(data, MunicipalityAsWritten(longitude, latitude, env), env)
  }

  function Create(data: Record, env: CreateEnv): CreateResult {
    var longitude := Field(data, "longitude");
    var latitude := Field(data, "latitude");
    if longitude.PyNone? || latitude.PyNone? then Rejected(COORDINATES_REQUIRED)
    else CreateWith(data, Municipality(longitude, latitude, env), env)
  }

  /** Without both coordinates nothing is created; a created observation is
      the request's data with the located municipality, nothing else changed. */
  lemma CreateOutcomes(data: Record, env: CreateEnv)
    ensures Field(data, "longitude").PyNone? || Field(data, "latitude").PyNone? ==> Create(data, env) == Rejected(COORDINATES_REQUIRED)
    ensures Create(data, env).Created? ==>
      && Municipality(Field(data, "longitude"), Field(data, "latitude"), env).Success?
      && Create(data, env).record == data["municipality" := PyInt(Municipality(Field(data, "longitude"), Field(data, "latitude"), env).value)]
      && env.validate(Create(data, env).record).None?
  {
  }

  /** As written, a location outside every municipality is reported as an
      unexpected error, and the "no municipality" message is never seen. */
  lemma NoMunicipalityMessageLost(data: Record, env: CreateEnv)
    ensures CreateAsWritten(data, env) != Rejected(NO_MUNICIPALITY)
  {
    var longitude := Field(data, "longitude");
    var latitude := Field(data, "latitude");
    if !longitude.PyNone? && !latitude.PyNone? {
      var found := MunicipalityAsWritten(longitude, latitude, env);
      assert found.Failure? ==> found.error != NO_MUNICIPALITY;
    }
  }

  /** As intended, a point no municipality contains is reported as such;
      everywhere else the two versions agree. */
  lemma NoMunicipalityReported(data: Record, env: CreateEnv)
    ensures var longitude := Field(data, "longitude");
            var latitude := Field(data, "latitude");
            && (!longitude.PyNone? && !latitude.PyNone?
                && env.toFloat(longitude).Success? && env.toFloat(latitude).Success?
                && env.locate(env.toFloat(longitude).value, env.toFloat(latitude).value).None?
                ==> Create(data, env) == Rejected(NO_MUNICIPALITY)
                    && CreateAsWritten(data, env) == Rejected(UNEXPECTED))
            && (Create(data, env) != Rejected(NO_MUNICIPALITY) ==> CreateAsWritten(data, env) == Create(data, env))
  {
  }

  /** A concrete request: two numbers that no municipality polygon contains. */
  function OutsideEnv(): CreateEnv {
    CreateEnv((v: PyValue) => if v == PyStr("3.7") then Success(3.7) else if v == PyStr("51.0") then Success(51.0) else Failure(OtherError),
              (x: real, y: real) => None, (r: Record) => None)
  }

  lemma OutsideCounterexample()
    ensures CreateAsWritten(map["longitude" := PyStr("3.7"), "latitude" := PyStr("51.0")], OutsideEnv()) == Rejected(UNEXPECTED)
    ensures Create(map["longitude" := PyStr("3.7"), "latitude" := PyStr("51.0")], OutsideEnv()) == Rejected(NO_MUNICIPALITY)
  {
    var data := map["longitude" := PyStr("3.7"), "latitude" := PyStr("51.0")];
    assert Field(data, "longitude") == PyStr("3.7");
    assert Field(data, "latitude") == PyStr("51.0");
  }

  // ---------------------------------------------------------------------
  // geojson: the cache key

  const CACHE_PREFIX := "observations_geojson_data_"

  type Pair = (string, string)

  /** The keys of a dictionary's items are distinct. */
  predicate DistinctKeys(items: seq<Pair>) {
    forall i, j :: 0 <= i < j < |items| ==> items[i].0 != items[j].0
  }

  /** Sorted by key, strictly (as `sorted` orders a dictionary's items). */
  predicate Increasing(items: seq<Pair>) {
    forall i, j :: 0 <= i < j < |items| ==> StrLess(items[i].0, items[j].0)
  }

  /** Insert one item into a list sorted by key. */
  function Insert(x: Pair, sorted: seq<Pair>): (r: seq<Pair>)
    ensures |r| == |sorted| + 1
    ensures forall p :: p in r <==> p == x || p in sorted
    decreases |sorted|
  {
    if sorted == [] || StrLess(x.0, sorted[0].0) then [x] + sorted
    else [sorted[0]] + Insert(x, sorted[1..])
  }

  /** `sorted(query_params.items())`. */
  function SortItems(items: seq<Pair>): (r: seq<Pair>)
    ensures |r| == |items|
    ensures forall p :: p in r <==> p in items
    decreases |items|
  {
    if items == [] then [] else Insert(items[0], SortItems(items[1..]))
  }

  /** `urlencode(pairs)`: `key=value` with both sides quote_plus-encoded, joined by '&'. */
  function UrlEncode(pairs: seq<Pair>): string
    decreases |pairs|
  {
    if pairs == [] then ""
    else if |pairs| == 1 then Uri.QuotePlus(pairs[0].0) + "=" + Uri.QuotePlus(pairs[0].1)
    else Uri.QuotePlus(pairs[0].0) + "=" + Uri.QuotePlus(pairs[0].1) + "&" + UrlEncode(pairs[1..])
  }

  /** The geojson cache key for the request's query parameters. */
  function CacheKey(items: seq<Pair>): string {
    CACHE_PREFIX + UrlEncode(SortItems(items))
  }

  lemma {:induction false} InsertIncreasing(x: Pair, sorted: seq<Pair>)
    requires Increasing(sorted) && forall p :: p in sorted ==> p.0 != x.0
    ensures Increasing(Insert(x, sorted))
    decreases |sorted|
  {
    if sorted == [] || StrLess(x.0, sorted[0].0) {
      var r := [x] + sorted;
      forall i, j | 0 <= i < j < |r| ensures StrLess(r[i].0, r[j].0) {
        if i == 0 && j > 1 {
          StrLessTransitive(x.0, sorted[0].0, sorted[j - 1].0);
        }
      }
    } else {
      assert sorted[0] in sorted;
      StrLessTotal(x.0, sorted[0].0);
      InsertIncreasing(x, sorted[1..]);
      var rest := Insert(x, sorted[1..]);
      var r := [sorted[0]] + rest;
      forall j | 0 <= j < |rest| ensures StrLess(sorted[0].0, rest[j].0) {
        assert rest[j] in rest;
        if rest[j] != x {
          var k :| 0 <= k < |sorted[1..]| && sorted[1..][k] == rest[j];
          assert sorted[k + 1] == rest[j];
        }
      }
    }
  }

  /** Sorting the items of a dictionary gives them in strictly increasing key order. */
  lemma {:induction false} SortIncreasing(items: seq<Pair>)
    requires DistinctKeys(items)
    ensures Increasing(SortItems(items))
    decreases |items|
  {
    if items != [] {
      SortIncreasing(items[1..]);
      forall p | p in SortItems(items[1..]) ensures p.0 != items[0].0 {
        var k :| 0 <= k < |items[1..]| && items[1..][k] == p;
        assert items[k + 1] == p;
      }
      InsertIncreasing(items[0], SortItems(items[1..]));
    }
  }

  lemma HeadIn(s: seq<Pair>)
    ensures s != [] ==> s[0] in s
  {
  }

  /** Two lists strictly increasing by key with the same items are the same list. */
  lemma {:induction false} IncreasingUnique(a: seq<Pair>, b: seq<Pair>)
    requires Increasing(a) && Increasing(b)
    requires forall p :: p in a <==> p in b
    ensures a == b
    decreases |a|
  {
    if a == [] {
      HeadIn(b);
    } else {
      assert a[0] in a;
      assert b != [];
      assert b[0] in b;
      var i :| 0 <= i < |a| && a[i] == b[0];
      var j :| 0 <= j < |b| && b[j] == a[0];
      assert i != 0 ==> StrLess(a[0].0, b[0].0);
      assert j != 0 ==> StrLess(b[0].0, a[0].0);
      StrLessAsymmetric(a[0].0, b[0].0);
      assert a[0] == b[0];
      forall p ensures p in a[1..] <==> p in b[1..] {
        if p in a[1..] {
          var k :| 0 <= k < |a[1..]| && a[1..][k] == p;
          assert StrLess(a[0].0, a[k + 1].0);
          StrLessIrreflexive(a[0].0);
          assert p != b[0];
          assert p in b;
        }
        if p in b[1..] {
          var k :| 0 <= k < |b[1..]| && b[1..][k] == p;
          assert StrLess(b[0].0, b[k + 1].0);
          StrLessIrreflexive(b[0].0);
          assert p != a[0];
          assert p in a;
        }
      }
      IncreasingUnique(a[1..], b[1..]);
      assert a == [a[0]] + a[1..] && b == [b[0]] + b[1..];
    }
  }

  /** The key does not depend on the order in which the parameters arrive. */
  lemma CacheKeyOrderIndependent(a: seq<Pair>, b: seq<Pair>)
    requires DistinctKeys(a) && DistinctKeys(b)
    requires forall p :: p in a <==> p in b
    ensures CacheKey(a) == CacheKey(b)
  {
    SortIncreasing(a);
    SortIncreasing(b);
    IncreasingUnique(SortItems(a), SortItems(b));
  }

  // ---------------------------------------------------------------------
  // geojson: the cache

  /** The part of the Django cache the geojson action uses. */
  class ResponseCache {
    var entries: map<string, string>

    constructor (initial: map<string, string>)
      ensures entries == initial
    {
      entries := initial;
    }
  }

  /** The reply body and the cache after one geojson request; `serialized`
      is what `serialize("geojson", ...)` writes for the observations. */
  function GeojsonReply(entries: map<string, string>, items: seq<Pair>, serialized: string): (string, map<string, string>) {
    var key := CacheKey(items);
    if key in entries && entries[key] != "" then (entries[key], entries)
    else (serialized, entries[key := serialized])
  }

  /** The geojson action: a cached non-empty reply is served as is;
      otherwise the observations are serialized and stored under the key. */
  method Geojson(cache: ResponseCache, items: seq<Pair>, serialized: string) returns (body: string)
    modifies cache
    ensures (body, cache.entries) == GeojsonReply(old(cache.entries), items, serialized)
  {
    var key := CacheKey(items);
    var data: Option<string> := if key in cache.entries then Some(cache.entries[key]) else None;
    if data.None? || data.value == "" {
      body := serialized;
      cache.entries := cache.entries[key := serialized];
    } else {
      body := data.value;
    }
  }

  /** A hit answers from the cache and changes nothing; a miss answers with
      the fresh serialization and stores it under the request's key only. */
  lemma GeojsonHitOrMiss(entries: map<string, string>, items: seq<Pair>, serialized: string)
    ensures var (body, after) := GeojsonReply(entries, items, serialized);
            var key := CacheKey(items);
            && (key in entries && entries[key] != "" ==> body == entries[key] && after == entries)
            && (!(key in entries && entries[key] != "") ==>
                  body == serialized && after.Keys == entries.Keys + {key} && after[key] == serialized
                  && forall k :: k in entries && k != key ==> after[k] == entries[k])
  {
  }

  /** After a miss, the same parameters in any order are served from the
      cache: the same body, without serializing again. */
  lemma SecondRequestHits(entries: map<string, string>, a: seq<Pair>, b: seq<Pair>, first: string, second: string)
    requires DistinctKeys(a) && DistinctKeys(b) && (forall p :: p in a <==> p in b)
    requires first != ""
    ensures var (body1, after1) := GeojsonReply(entries, a, first);
            var (body2, after2) := GeojsonReply(after1, b, second);
            body2 == body1 && after2 == after1
  {
    CacheKeyOrderIndependent(a, b);
  }

  /** An empty cached reply counts as a miss. */
  lemma EmptyCachedReplyRecomputed(entries: map<string, string>, items: seq<Pair>, serialized: string)
    requires CacheKey(items) in entries && entries[CacheKey(items)] == ""
    ensures GeojsonReply(entries, items, serialized).0 == serialized
  {
  }
}

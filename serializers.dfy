/** The observation serializer's two rules: an anonymous caller sees only
    the public fields of an observation, and a location is accepted only
    with both coordinates. The full representation the model serializer
    builds from an instance is taken as given (`data`). */
module Serializers {
  import opened Wrappers
  import opened Records

  /** `self.context.get("request")`: no request at all, or one whose user is
      authenticated or anonymous. */
  datatype RequestContext = NoRequest | WithRequest(authenticated: bool)

  /** The public field list as written: the eradication date is spelled
      "eradiction_datetime", a name no observation field has. */
  const PUBLIC_FIELDS_AS_WRITTEN: seq<string> := [
    "id", "location", "nest_height", "nest_size", "nest_location", "nest_type",
    "created_by", "eradiction_datetime", "municipality", "images"
  ]

  /** The public field list as intended, naming the model's eradication date. */
  const PUBLIC_FIELDS: seq<string> := [
    "id", "location", "nest_height", "nest_size", "nest_location", "nest_type",
    "created_by", "eradication_datetime", "municipality", "images"
  ]

  /** `{field: data[field] for field in fields if field in data}`. */
  function Project(data: Record, fields: seq<string>): (r: Record)
    ensures r.Keys <= data.Keys
    ensures forall f :: f in r ==> f in fields && r[f] == data[f]
  {
    map f | f in fields && f in data :: data[f]
  }

  /** `to_representation` with a given public field list. */
  function RepresentationWith(data: Record, request: RequestContext, fields: seq<string>): Record {
    if request.WithRequest? && !request.authenticated then Project(data, fields) else data
  }

  /** `to_representation` as written. */
  function ToRepresentationAsWritten(data: Record, request: RequestContext): Record {
    RepresentationWith(data, request, PUBLIC_FIELDS_AS_WRITTEN)
  }

  /** `to_representation` with the intended public field list. */
  function ToRepresentation(data: Record, request: RequestContext): Record {
    RepresentationWith(data, request, PUBLIC_FIELDS)
  }

  /** For an anonymous caller the keys are exactly the public fields the
      data has, with their values; otherwise the data is returned whole. */
  lemma RepresentationFields(data: Record, request: RequestContext, fields: seq<string>)
    ensures var r := RepresentationWith(data, request, fields);
            && (request.WithRequest? && !request.authenticated ==>
                  && (forall f :: f in r <==> f in fields && f in data)
                  && (forall f :: f in r ==> r[f] == data[f]))
            && (request.NoRequest? || request.authenticated ==> r == data)
  {
  }

  /** Projecting twice is projecting once: an anonymous representation is
      its own anonymous representation. */
  lemma RepresentationIdempotent(data: Record, fields: seq<string>)
    ensures RepresentationWith(RepresentationWith(data, WithRequest(false), fields), WithRequest(false), fields)
         == RepresentationWith(data, WithRequest(false), fields)
  {
    var once := Project(data, fields);
    assert Project(once, fields) == once;
  }

  /** Nothing outside the public list ever reaches an anonymous caller: the
      reservation, the contact details and the notes stay hidden. */
  lemma AnonymousSeesOnlyPublic(data: Record)
    ensures forall f :: f in ToRepresentation(data, WithRequest(false)) ==> f in PUBLIC_FIELDS
    ensures "reserved_by" !in ToRepresentation(data, WithRequest(false))
    ensures "notes" !in ToRepresentation(data, WithRequest(false))
  {
  }

  /** As written, the eradication date never reaches an anonymous caller,
      whatever the observation holds. */
  lemma MisspelledFieldHidden(data: Record)
    ensures "eradication_datetime" !in ToRepresentationAsWritten(data, WithRequest(false))
  {
    assert "eradication_datetime" !in PUBLIC_FIELDS_AS_WRITTEN;
  }

  /** As intended, the eradication date is public: an anonymous caller sees
      it whenever the observation has it. */
  lemma AnonymousSeesEradicationDate(data: Record)
    requires "eradication_datetime" in data
    ensures "eradication_datetime" in ToRepresentation(data, WithRequest(false))
    ensures ToRepresentation(data, WithRequest(false))["eradication_datetime"] == data["eradication_datetime"]
  {
    assert PUBLIC_FIELDS[7] == "eradication_datetime";
  }

  /** Replacing one element of a list changes the membership of no other value. */
  lemma UpdateKeepsOthers(s: seq<string>, i: nat, x: string, f: string)
    requires i < |s| && f != x && f != s[i]
    ensures f in s <==> f in s[i := x]
  {
    if f in s {
      var k :| 0 <= k < |s| && s[k] == f;
      assert s[i := x][k] == f;
    }
    if f in s[i := x] {
      var k :| 0 <= k < |s| && s[i := x][k] == f;
      assert s[k] == f;
    }
  }

  /** The two lists differ only in that one name, so for an observation
      (which has no field called "eradiction_datetime") the two
      representations agree on every other field. */
  lemma AsWrittenDiffersOnlyInEradicationDate(data: Record, request: RequestContext)
    requires "eradiction_datetime" !in data
    ensures ToRepresentationAsWritten(data, request) - {"eradication_datetime"}
         == ToRepresentation(data, request) - {"eradication_datetime"}
  {
    assert PUBLIC_FIELDS == PUBLIC_FIELDS_AS_WRITTEN[7 := "eradication_datetime"];
    forall f | f in data && f != "eradication_datetime"
      ensures f in PUBLIC_FIELDS_AS_WRITTEN <==> f in PUBLIC_FIELDS
    {
      UpdateKeepsOthers(PUBLIC_FIELDS_AS_WRITTEN, 7, "eradication_datetime", f);
    }
  }

  /** An eradicated observation read anonymously: as written the date is
      dropped, as intended it is shown. */
  lemma EradicatedObservationCounterexample()
    ensures ToRepresentationAsWritten(map["eradication_datetime" := PyDatetime(0)], WithRequest(false)) == map[]
    ensures ToRepresentation(map["eradication_datetime" := PyDatetime(0)], WithRequest(false))
         == map["eradication_datetime" := PyDatetime(0)]
  {
    var data := map["eradication_datetime" := PyDatetime(0)];
    MisspelledFieldHidden(data);
    AnonymousSeesEradicationDate(data);
  }

  // ---------------------------------------------------------------------
  // validate_location

  const LOCATION_ERROR := "Missing or invalid location data"

  /** `Point(x, y)`. */
  datatype Point = Point(x: PyValue, y: PyValue)

  /** `validate_location`: both coordinates are required; the point is
      (longitude, latitude). */
  function ValidateLocation(value: Record): (r: Result<Point, string>)
    ensures r.Failure? <==> Field(value, "latitude").PyNone? || Field(value, "longitude").PyNone?
    ensures r.Failure? ==> r.error == LOCATION_ERROR
  {
    var latitude := Field(value, "latitude");
    var longitude := Field(value, "longitude");
    if latitude.PyNone? || longitude.PyNone? then Failure(LOCATION_ERROR)
    else Success(Point(longitude, latitude))
  }

  /** The location dictionary a point is read back as. */
  function LocationOf(p: Point): Record {
    map["latitude" := p.y, "longitude" := p.x]
  }

  /** A point with both coordinates survives the round trip through its
      location dictionary, and the accepted point puts the longitude first. */
  lemma ValidateLocationRoundTrip(p: Point)
    requires !p.x.PyNone? && !p.y.PyNone?
    ensures ValidateLocation(LocationOf(p)) == Success(p)
  {
    assert Field(LocationOf(p), "latitude") == p.y;
    assert Field(LocationOf(p), "longitude") == p.x;
  }

  /** What is accepted reads back as the given coordinates, swapped into (x, y) order. */
  lemma ValidatedPointCoordinates(value: Record)
    requires ValidateLocation(value).Success?
    ensures ValidateLocation(value).value == Point(Field(value, "longitude"), Field(value, "latitude"))
    ensures LocationOf(ValidateLocation(value).value)["latitude"] == Field(value, "latitude")
  {
  }
}

/** generate_geojson_task (vespadb/observations/tasks/generate_geojson_task.py):
    one GeoJSON feature per observation of the filtered queryset. The queryset
    is given already filtered, each record carrying its transformed `point`;
    `geojsonOf` is the parsed GeoJSON of a point. */
module GeojsonTask {
  import opened Records

  /** The feature status: truthy eradication_result, then truthy reserved_by, else "default". */
  function FeatureStatus(obs: Record): (status: string)
    ensures status == "eradicated" <==> Truthy(Field(obs, "eradication_result"))
    ensures status == "reserved" <==> !Truthy(Field(obs, "eradication_result")) && Truthy(Field(obs, "reserved_by"))
    ensures status == "default" <==> !Truthy(Field(obs, "eradication_result")) && !Truthy(Field(obs, "reserved_by"))
  {
    if Truthy(Field(obs, "eradication_result")) then "eradicated"
    else if Truthy(Field(obs, "reserved_by")) then "reserved"
    else "default"
  }

  function Feature(obs: Record, geojsonOf: PyValue -> PyValue): PyValue {
    var point := Field(obs, "point");
    PyDict(map[
      "type" := PyStr("Feature"),
      "properties" := PyDict(map["id" := Field(obs, "id"), "status" := PyStr(FeatureStatus(obs))]),
      "geometry" := if Truthy(point) then geojsonOf(point) else PyNone
    ])
  }

  /** The Celery task's result: a FeatureCollection with one feature per observation, in order. */
  function GenerateGeojson(observations: seq<Record>, geojsonOf: PyValue -> PyValue): (result: PyValue)
    ensures result.PyDict? && result.entries.Keys == {"type", "features"}
    ensures result.entries["type"] == PyStr("FeatureCollection")
    ensures result.entries["features"].PyList?
    ensures |result.entries["features"].items| == |observations|
  {
    PyDict(map[
      "type" := PyStr("FeatureCollection"),
      "features" := PyList(seq(|observations|, i requires 0 <= i < |observations| => Feature(observations[i], geojsonOf)))
    ])
  }

  /** Feature i describes observation i: its id, its status, and a geometry
      that is None exactly when the observation has no point. */
  lemma FeatureDescribesObservation(observations: seq<Record>, geojsonOf: PyValue -> PyValue, i: nat)
    requires i < |observations|
    ensures var f := GenerateGeojson(observations, geojsonOf).entries["features"].items[i];
      var obs := observations[i];
      f.PyDict? && f.entries["type"] == PyStr("Feature")
      && f.entries["properties"] == PyDict(map["id" := Field(obs, "id"), "status" := PyStr(FeatureStatus(obs))])
      && (!Truthy(Field(obs, "point")) ==> f.entries["geometry"] == PyNone)
      && (Truthy(Field(obs, "point")) ==> f.entries["geometry"] == geojsonOf(Field(obs, "point")))
  {
  }
}

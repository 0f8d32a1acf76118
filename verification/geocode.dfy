/** How `geocode_location` in ollam.py turns the geocoding service's HTTP response
    into a coordinate pair or an error. The request itself is a parameter: the
    service is the function `lookup`, from the place text sent to the response. */
module Geocode {
  import opened Wrappers
  import opened Itineraries

  /** One entry of the response's `features` list: its `geometry.coordinates`, or
      `None` when the entry has no such path. */
  datatype Feature = Feature(coordinates: Option<seq<Coordinate>>)

  /** The decoded response body: its `features` value, `None` when the key is
      missing or null. */
  datatype GeoBody = GeoBody(features: Option<seq<Feature>>)

  /** What the HTTP request produced: no response at all, or a status code and a
      body that decoded as a JSON object (`None` when it did not). */
  datatype GeoResponse = TransportFailure | HttpResponse(status: int, body: Option<GeoBody>)

  datatype Point = Point(longitude: Coordinate, latitude: Coordinate)

  /** The errors `geocode_location` raises; every one reaches the caller wrapped in
      the same "Error during geocoding" runtime error. */
  datatype GeoError =
    | RequestFailed
    | ApiStatus(code: int)
    | NoResults(locationName: string)
    | MalformedResponse

  const StatusOk := 200

  /** The response carries a non-empty `features` list. */
  predicate HasFeatures(body: GeoBody)
  {
    body.features.Some? && |body.features.value| > 0
  }

  /** The first feature carries at least a longitude and a latitude. */
  predicate FirstFeatureLocated(body: GeoBody)
    requires HasFeatures(body)
  {
    var first := body.features.value[0];
    first.coordinates.Some? && |first.coordinates.value| >= 2
  }

  function Interpret(locationName: string, resp: GeoResponse): (r: Result<Point, GeoError>)
    ensures r.Success? <==>
      && resp.HttpResponse? && resp.status == StatusOk && resp.body.Some?
      && HasFeatures(resp.body.value) && FirstFeatureLocated(resp.body.value)
    ensures r.Success? ==>
      var coords := resp.body.value.features.value[0].coordinates.value;
      r.value.longitude == coords[0] && r.value.latitude == coords[1]
    ensures resp.HttpResponse? && resp.status != StatusOk ==> r == Failure(ApiStatus(resp.status))
    ensures resp.HttpResponse? && resp.status == StatusOk && resp.body.Some? && !HasFeatures(resp.body.value)
      ==> r == Failure(NoResults(locationName))
    ensures resp.TransportFailure? ==> r == Failure(RequestFailed)
  {
    match resp
    case TransportFailure => Failure(RequestFailed)
    case HttpResponse(status, body) =>
      if status != StatusOk then Failure(ApiStatus(status))
      else if body.None? then Failure(MalformedResponse)
      else if !HasFeatures(body.value) then Failure(NoResults(locationName))
      else
        var coords := body.value.features.value[0].coordinates;
        if coords.None? || |coords.value| < 2 then Failure(MalformedResponse)
        else Success(Point(coords.value[0], coords.value[1]))
  }

  /** `geocode_location(name)`: the service is asked for the bare name, and its
      answer for that name alone decides the outcome. */
  function GeocodeLocation(lookup: string -> GeoResponse, locationName: string): (r: Result<Point, GeoError>)
    ensures var resp := lookup(locationName);
      && (r.Success? <==>
            && resp.HttpResponse? && resp.status == StatusOk && resp.body.Some?
            && HasFeatures(resp.body.value) && FirstFeatureLocated(resp.body.value))
      && (r.Success? ==>
            var coords := resp.body.value.features.value[0].coordinates.value;
            r.value.longitude == coords[0] && r.value.latitude == coords[1])
      && (r.Failure? && r.error.NoResults? ==> r.error.locationName == locationName)
  {
    Interpret(locationName, lookup(locationName))
  }

  /** Only the first feature matters: appending further features never changes the outcome. */
  lemma LaterFeaturesIgnored(locationName: string, first: Feature, later: seq<Feature>)
    ensures Interpret(locationName, HttpResponse(StatusOk, Some(GeoBody(Some([first] + later)))))
         == Interpret(locationName, HttpResponse(StatusOk, Some(GeoBody(Some([first])))))
  {
    assert ([first] + later)[0] == first;
  }
}

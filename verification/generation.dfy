/** `generate_itinerary` in ollam.py: ask the language model for an itinerary,
    load its output into the itinerary schema, then enrich it with coordinates.
    Any failure along the way becomes the single "Error generating itinerary"
    runtime error, so no partial itinerary ever leaves the function. */
module Generation {
  import opened Wrappers
  import opened Itineraries
  import opened Geocode
  import opened Enrichment

  /** What the model call produced: the call (or the model download before it)
      failed, or a reply whose content did or did not decode into the itinerary's
      shape (missing field, wrong type, not JSON). */
  datatype ChatOutcome = ChatFailed | Reply(decoded: Option<RawItinerary>)

  /** The language model, from the request (destination, duration, interests and
      the travellers' digest that the prompt embeds) to what it produced. */
  type Chat = (string, int, seq<string>, string) -> ChatOutcome

  /** The cause carried by the wrapped error. */
  datatype GenerationError =
    | ChatError
    | MalformedOutput
    | InvalidItinerary(issues: seq<Issue>)
    | GeocodingFailed(cause: GeoError)

  /** The model replied with output that decodes and validates. */
  predicate ValidReply(out: ChatOutcome)
  {
    out.Reply? && out.decoded.Some? && ItineraryValid(out.decoded.value)
  }

  function GenerateItinerary(chat: Chat, lookup: string -> GeoResponse,
                             destination: string, duration: int, interests: seq<string>,
                             additionalInfo: string): (r: Result<Itinerary, GenerationError>)
    ensures var out := chat(destination, duration, interests, additionalInfo);
      r.Success? <==> ValidReply(out) && AllLocatable(lookup, Validate(out.decoded.value).value.days)
    ensures var out := chat(destination, duration, interests, additionalInfo);
      r.Success? ==>
        var it := Validate(out.decoded.value).value;
        && r.value.destination == it.destination
        && r.value.tripDuration == it.tripDuration
        && EnrichedFrom(lookup, it.days, r.value.days)
    ensures var out := chat(destination, duration, interests, additionalInfo);
      && (out.ChatFailed? ==> r == Failure(ChatError))
      && (out.Reply? && out.decoded.None? ==> r == Failure(MalformedOutput))
      && (out.Reply? && out.decoded.Some? && !ItineraryValid(out.decoded.value) ==>
            r == Failure(InvalidItinerary(Validate(out.decoded.value).error)))
      && (ValidReply(out) && !AllLocatable(lookup, Validate(out.decoded.value).value.days) ==>
            r.Failure? && r.error.GeocodingFailed?)
  {
    match chat(destination, duration, interests, additionalInfo)
    case ChatFailed => Failure(ChatError)
    case Reply(None) => Failure(MalformedOutput)
    case Reply(Some(raw)) =>
      match Validate(raw)
      case Failure(issues) => Failure(InvalidItinerary(issues))
      case Success(it) =>
        EnrichSpec(lookup, it);
        match Enrich(lookup, it)
        case Failure(e) => Failure(GeocodingFailed(e))
        case Success(enriched) => Success(enriched)
  }

  /** End to end: a generated itinerary has the model's destination, duration, days,
      day numbers, schedule lengths, names and descriptions, and every activity
      carries the coordinates its own name geocodes to, whatever coordinates the
      model itself may have written. */
  lemma GeneratedFollowsModel(chat: Chat, lookup: string -> GeoResponse,
                              destination: string, duration: int, interests: seq<string>,
                              additionalInfo: string, i: nat, k: nat)
    requires GenerateItinerary(chat, lookup, destination, duration, interests, additionalInfo).Success?
    ensures var raw := chat(destination, duration, interests, additionalInfo).decoded.value;
      var it := GenerateItinerary(chat, lookup, destination, duration, interests, additionalInfo).value;
      && it.destination == raw.destination
      && it.tripDuration == raw.tripDuration
      && |it.days| == |raw.days|
      && (i < |raw.days| ==> it.days[i].day == raw.days[i].day && |it.days[i].schedule| == |raw.days[i].schedule|)
      && (i < |raw.days| && k < |raw.days[i].schedule| ==>
            var a := raw.days[i].schedule[k];
            var b := it.days[i].schedule[k];
            var g := GeocodeLocation(lookup, a.locationName);
            && g.Success?
            && b == Activity(a.locationName, a.description, Some(g.value.longitude), Some(g.value.latitude)))
  {
    var raw := chat(destination, duration, interests, additionalInfo).decoded.value;
    var v := Validate(raw).value;
    assert Mirrors(raw, v);
    if i < |raw.days| && k < |raw.days[i].schedule| {
      assert MirrorsActivity(raw.days[i].schedule[k], v.days[i].schedule[k]);
    }
  }

  /** Nothing ties the number of days to the requested duration, numbers the days
      1..N or forbids an empty schedule: a reply with one empty day numbered 7 for a
      three-day trip is returned as it is. */
  lemma DayCountNotChecked(chat: Chat, lookup: string -> GeoResponse,
                           destination: string, interests: seq<string>, additionalInfo: string)
    requires chat(destination, 3, interests, additionalInfo)
          == Reply(Some(RawItinerary(destination, 3, [RawDay(7, [])])))
    ensures GenerateItinerary(chat, lookup, destination, 3, interests, additionalInfo)
         == Success(Itinerary(destination, 3, [Day(7, [])]))
  {
    var raw := RawItinerary(destination, 3, [RawDay(7, [])]);
    var it := Itinerary(destination, 3, [Day(7, [])]);
    assert ItineraryValid(raw);
    assert ToDay(raw.days[0]) == Day(7, []);
    assert Validate(raw).value.days == it.days;
    assert it.days[..0] == [];
    assert EnrichDays(lookup, it.days[..0]) == Success([]);
    assert EnrichSchedule(lookup, it.days[0].schedule) == Success([]);
    assert [] + [Day(7, [])] == [Day(7, [])];
    assert EnrichDays(lookup, it.days) == Success([Day(7, [])]);
  }

  /** The function with its geocoder calls made visible: no lookup happens unless
      the reply validated, and then the lookups are those of the enrichment pass. */
  method Generate(chat: Chat, lookup: string -> GeoResponse,
                  destination: string, duration: int, interests: seq<string>, additionalInfo: string)
    returns (r: Result<Itinerary, GenerationError>, queried: seq<string>)
    ensures r == GenerateItinerary(chat, lookup, destination, duration, interests, additionalInfo)
    ensures var out := chat(destination, duration, interests, additionalInfo);
      && (!ValidReply(out) ==> queried == [])
      && (ValidReply(out) ==> queried <= Names(Validate(out.decoded.value).value.days))
      && (r.Success? ==> queried == Names(Validate(out.decoded.value).value.days))
    ensures r.Failure? && r.error.GeocodingFailed? ==>
      && |queried| > 0
      && AllGeocode(lookup, queried[..|queried| - 1])
      && GeocodeLocation(lookup, queried[|queried| - 1]) == Failure(r.error.cause)
  {
    queried := [];
    var out := chat(destination, duration, interests, additionalInfo);
    if out.ChatFailed? {
      r := Failure(ChatError);
    } else if out.decoded.None? {
      r := Failure(MalformedOutput);
    } else {
      var v := Validate(out.decoded.value);
      if v.Failure? {
        r := Failure(InvalidItinerary(v.error));
      } else {
        var e;
        e, queried := EnrichInPlace(lookup, v.value);
        r := if e.Failure? then Failure(GeocodingFailed(e.error)) else Success(e.value);
      }
    }
  }
}

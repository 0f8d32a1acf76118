/** The enrichment pass of `generate_itinerary` in ollam.py: every activity of
    every day, in order, is geocoded by its bare location name and given the
    result's longitude and latitude; the first failed lookup abandons the whole
    itinerary. */
module Enrichment {
  import opened Wrappers
  import opened Itineraries
  import opened Geocode

  /** The activity's own name geocodes successfully. */
  predicate Locatable(lookup: string -> GeoResponse, a: Activity)
  {
    GeocodeLocation(lookup, a.locationName).Success?
  }

  /** `b` is `a` with exactly its coordinates replaced by the geocoding result for
      `a`'s own name. */
  predicate Located(lookup: string -> GeoResponse, a: Activity, b: Activity)
  {
    var g := GeocodeLocation(lookup, a.locationName);
    && g.Success?
    && b.locationName == a.locationName
    && b.description == a.description
    && b.longitude == Some(g.value.longitude)
    && b.latitude == Some(g.value.latitude)
  }

  predicate AllLocatable(lookup: string -> GeoResponse, days: seq<Day>)
  {
    forall i, k :: 0 <= i < |days| && 0 <= k < |days[i].schedule| ==> Locatable(lookup, days[i].schedule[k])
  }

  /** `out` has the days of `days`, in order, with the same day numbers and
      schedules of the same length, every activity located. */
  predicate EnrichedFrom(lookup: string -> GeoResponse, days: seq<Day>, out: seq<Day>)
  {
    && |out| == |days|
    && forall i :: 0 <= i < |days| ==>
         && out[i].day == days[i].day
         && |out[i].schedule| == |days[i].schedule|
         && forall k :: 0 <= k < |days[i].schedule| ==> Located(lookup, days[i].schedule[k], out[i].schedule[k])
  }

  function WithPoint(a: Activity, p: Point): Activity
  {
    a.(longitude := Some(p.longitude), latitude := Some(p.latitude))
  }

  /** One day's schedule, activities geocoded front to back. */
  function EnrichSchedule(lookup: string -> GeoResponse, s: seq<Activity>): (r: Result<seq<Activity>, GeoError>)
    ensures r.Success? ==> |r.value| == |s|
    decreases |s|
  {
    if |s| == 0 then Success([])
    else
      var n := |s| - 1;
      match EnrichSchedule(lookup, s[..n])
      case Failure(e) => Failure(e)
      case Success(done) =>
        match GeocodeLocation(lookup, s[n].locationName)
        case Failure(e) => Failure(e)
        case Success(p) => Success(done + [WithPoint(s[n], p)])
  }

  /** A schedule enriches exactly when each of its names geocodes, and then every
      activity is located, in place. */
  lemma {:induction false} EnrichScheduleSpec(lookup: string -> GeoResponse, s: seq<Activity>)
    ensures var r := EnrichSchedule(lookup, s);
      && (r.Success? <==> forall k :: 0 <= k < |s| ==> Locatable(lookup, s[k]))
      && (r.Success? ==> |r.value| == |s| && forall k :: 0 <= k < |s| ==> Located(lookup, s[k], r.value[k]))
    decreases |s|
  {
    if |s| > 0 {
      var n := |s| - 1;
      EnrichScheduleSpec(lookup, s[..n]);
      assert forall k :: 0 <= k < n ==> s[..n][k] == s[k];
    }
  }

  /** The days in order, each day's schedule enriched. */
  function EnrichDays(lookup: string -> GeoResponse, days: seq<Day>): (r: Result<seq<Day>, GeoError>)
    ensures r.Success? ==> |r.value| == |days|
    decreases |days|
  {
    if |days| == 0 then Success([])
    else
      var n := |days| - 1;
      match EnrichDays(lookup, days[..n])
      case Failure(e) => Failure(e)
      case Success(done) =>
        match EnrichSchedule(lookup, days[n].schedule)
        case Failure(e) => Failure(e)
        case Success(s) => Success(done + [Day(days[n].day, s)])
  }

  /** The days enrich exactly when every name geocodes. */
  lemma {:induction false} EnrichDaysSucceeds(lookup: string -> GeoResponse, days: seq<Day>)
    ensures EnrichDays(lookup, days).Success? <==> AllLocatable(lookup, days)
    decreases |days|
  {
    if |days| > 0 {
      var n := |days| - 1;
      var pre := days[..n];
      EnrichDaysSucceeds(lookup, pre);
      EnrichScheduleSpec(lookup, days[n].schedule);
      if AllLocatable(lookup, days) {
        forall i, k | 0 <= i < |pre| && 0 <= k < |pre[i].schedule| ensures Locatable(lookup, pre[i].schedule[k]) {
          assert pre[i] == days[i];
        }
      }
      if EnrichDays(lookup, days).Success? {
        forall i, k | 0 <= i < |days| && 0 <= k < |days[i].schedule| ensures Locatable(lookup, days[i].schedule[k]) {
          if i < n { assert pre[i] == days[i]; }
        }
      }
    }
  }

  /** Enriched days are the given days, in place, every activity located. */
  lemma {:induction false} EnrichDaysInPlace(lookup: string -> GeoResponse, days: seq<Day>)
    requires EnrichDays(lookup, days).Success?
    ensures EnrichedFrom(lookup, days, EnrichDays(lookup, days).value)
    decreases |days|
  {
    if |days| > 0 {
      var n := |days| - 1;
      var pre := days[..n];
      EnrichDaysInPlace(lookup, pre);
      EnrichScheduleSpec(lookup, days[n].schedule);
      var out := EnrichDays(lookup, days).value;
      var done := EnrichDays(lookup, pre).value;
      assert out == done + [Day(days[n].day, EnrichSchedule(lookup, days[n].schedule).value)];
      forall i | 0 <= i < n
        ensures && out[i].day == days[i].day
                && |out[i].schedule| == |days[i].schedule|
                && forall k :: 0 <= k < |days[i].schedule| ==> Located(lookup, days[i].schedule[k], out[i].schedule[k])
      {
        assert out[i] == done[i] && pre[i] == days[i];
      }
    }
  }

  /** The days enrich exactly when every name geocodes, and then they are enriched
      in place, day by day. */
  lemma EnrichDaysSpec(lookup: string -> GeoResponse, days: seq<Day>)
    ensures var r := EnrichDays(lookup, days);
      && (r.Success? <==> AllLocatable(lookup, days))
      && (r.Success? ==> EnrichedFrom(lookup, days, r.value))
  {
    EnrichDaysSucceeds(lookup, days);
    if EnrichDays(lookup, days).Success? {
      EnrichDaysInPlace(lookup, days);
    }
  }

  /** The whole enrichment pass over an itinerary. */
  function Enrich(lookup: string -> GeoResponse, it: Itinerary): (r: Result<Itinerary, GeoError>)
    ensures r.Success? ==>
      && r.value.destination == it.destination
      && r.value.tripDuration == it.tripDuration
      && |r.value.days| == |it.days|
  {
    match EnrichDays(lookup, it.days)
    case Failure(e) => Failure(e)
    case Success(days) => Success(it.(days := days))
  }

  /** Enrichment succeeds exactly when every activity's own name geocodes; if any
      lookup fails there is no itinerary at all. On success the itinerary keeps its
      destination, duration, days, day numbers, schedule lengths, names and
      descriptions, and every activity carries the coordinates of its own name. */
  lemma EnrichSpec(lookup: string -> GeoResponse, it: Itinerary)
    ensures var r := Enrich(lookup, it);
      && (r.Success? <==> AllLocatable(lookup, it.days))
      && (r.Success? ==>
            && r.value.destination == it.destination
            && r.value.tripDuration == it.tripDuration
            && EnrichedFrom(lookup, it.days, r.value.days))
  {
    EnrichDaysSpec(lookup, it.days);
  }

  /** The itinerary with every coordinate cleared: what enrichment must not touch. */
  function Erase(it: Itinerary): Itinerary
  {
    it.(days := seq(|it.days|, i requires 0 <= i < |it.days| =>
      Day(it.days[i].day, seq(|it.days[i].schedule|, k requires 0 <= k < |it.days[i].schedule| =>
        it.days[i].schedule[k].(longitude := None, latitude := None)))))
  }

  /** Enrichment changes nothing but coordinates. */
  lemma EnrichOnlySetsCoordinates(lookup: string -> GeoResponse, it: Itinerary)
    requires Enrich(lookup, it).Success?
    ensures Erase(Enrich(lookup, it).value) == Erase(it)
  {
    EnrichSpec(lookup, it);
    var out := Enrich(lookup, it).value;
    var a := Erase(out);
    var b := Erase(it);
    assert |a.days| == |b.days|;
    forall i | 0 <= i < |a.days| ensures a.days[i] == b.days[i] {
      assert |a.days[i].schedule| == |b.days[i].schedule|;
      forall k | 0 <= k < |a.days[i].schedule| ensures a.days[i].schedule[k] == b.days[i].schedule[k] {
        assert Located(lookup, it.days[i].schedule[k], out.days[i].schedule[k]);
      }
    }
  }

  /** The location names of all activities, day by day, in schedule order: the
      order in which they are geocoded. */
  function Names(days: seq<Day>): seq<string>
    decreases |days|
  {
    if |days| == 0 then []
    else Names(days[..|days| - 1]) + ScheduleNames(days[|days| - 1].schedule)
  }

  function ScheduleNames(s: seq<Activity>): seq<string>
  {
    seq(|s|, k requires 0 <= k < |s| => s[k].locationName)
  }

  lemma {:induction false} NamesPrefix(days: seq<Day>, i: nat)
    requires i <= |days|
    ensures Names(days[..i]) <= Names(days)
    decreases |days| - i
  {
    if i < |days| {
      NamesPrefix(days, i + 1);
      assert days[..i + 1][..i] == days[..i];
    } else {
      assert days[..i] == days;
    }
  }

  /** Once a prefix of a schedule fails, the whole schedule fails with that error. */
  lemma {:induction false} SchedulePrefixFailure(lookup: string -> GeoResponse, s: seq<Activity>, k: nat)
    requires k <= |s|
    requires EnrichSchedule(lookup, s[..k]).Failure?
    ensures EnrichSchedule(lookup, s) == EnrichSchedule(lookup, s[..k])
    decreases |s| - k
  {
    if k < |s| {
      assert s[..k + 1][..k] == s[..k];
      SchedulePrefixFailure(lookup, s, k + 1);
    } else {
      assert s[..k] == s;
    }
  }

  /** Once a prefix of the days fails, the whole itinerary fails with that error. */
  lemma {:induction false} DaysPrefixFailure(lookup: string -> GeoResponse, days: seq<Day>, i: nat)
    requires i <= |days|
    requires EnrichDays(lookup, days[..i]).Failure?
    ensures EnrichDays(lookup, days) == EnrichDays(lookup, days[..i])
    decreases |days| - i
  {
    if i < |days| {
      assert days[..i + 1][..i] == days[..i];
      DaysPrefixFailure(lookup, days, i + 1);
    } else {
      assert days[..i] == days;
    }
  }

  /** The itinerary-level result is the days-level result, re-wrapped. */
  lemma EnrichFromDays(lookup: string -> GeoResponse, it: Itinerary, r: Result<seq<Day>, GeoError>)
    requires EnrichDays(lookup, it.days) == r
    ensures Enrich(lookup, it) == if r.Failure? then Failure(r.error) else Success(it.(days := r.value))
  {
  }

  /** One more day: the days so far, then that day's enriched schedule. */
  lemma EnrichDaysStep(lookup: string -> GeoResponse, days: seq<Day>, i: nat)
    requires i < |days|
    requires EnrichDays(lookup, days[..i]).Success?
    ensures var sch := EnrichSchedule(lookup, days[i].schedule);
      EnrichDays(lookup, days[..i + 1])
        == if sch.Failure? then Failure(sch.error)
           else Success(EnrichDays(lookup, days[..i]).value + [Day(days[i].day, sch.value)])
  {
    assert days[..i + 1][..i] == days[..i];
  }

  /** One more day: its names follow the names of the days before it. */
  lemma NamesStep(days: seq<Day>, i: nat)
    requires i < |days|
    ensures Names(days[..i + 1]) == Names(days[..i]) + ScheduleNames(days[i].schedule)
  {
    assert days[..i + 1][..i] == days[..i];
  }

  /** Every one of the names geocodes successfully. */
  predicate AllGeocode(lookup: string -> GeoResponse, names: seq<string>)
  {
    forall j :: 0 <= j < |names| ==> GeocodeLocation(lookup, names[j]).Success?
  }

  /** A concatenation of names all geocodes exactly when both parts do. */
  lemma AllGeocodeAppend(lookup: string -> GeoResponse, a: seq<string>, b: seq<string>)
    ensures AllGeocode(lookup, a + b) <==> AllGeocode(lookup, a) && AllGeocode(lookup, b)
  {
    forall j | 0 <= j < |a| ensures (a + b)[j] == a[j] { }
    forall j | 0 <= j < |b| ensures (a + b)[|a| + j] == b[j] { }
    if AllGeocode(lookup, a) && AllGeocode(lookup, b) {
      forall j | 0 <= j < |a + b| ensures GeocodeLocation(lookup, (a + b)[j]).Success? {
        if j >= |a| { assert (a + b)[j] == b[j - |a|]; }
      }
    }
  }

  /** Every activity of the days is locatable exactly when every name, in the
      order they are geocoded, geocodes: the per-activity and the per-name
      readings of the same condition agree. */
  lemma {:induction false} AllLocatableNames(lookup: string -> GeoResponse, days: seq<Day>)
    ensures AllLocatable(lookup, days) <==> AllGeocode(lookup, Names(days))
    decreases |days|
  {
    if |days| > 0 {
      var n := |days| - 1;
      var pre := days[..n];
      var s := days[n].schedule;
      assert Names(days) == Names(pre) + ScheduleNames(s);
      AllLocatableNames(lookup, pre);
      AllGeocodeAppend(lookup, Names(pre), ScheduleNames(s));
      assert forall i :: 0 <= i < n ==> pre[i] == days[i];
      assert AllGeocode(lookup, ScheduleNames(s)) <==> forall k :: 0 <= k < |s| ==> Locatable(lookup, s[k]) by {
        assert forall k :: 0 <= k < |s| ==> ScheduleNames(s)[k] == s[k].locationName;
      }
      if AllLocatable(lookup, pre) && forall k :: 0 <= k < |s| ==> Locatable(lookup, s[k]) {
        forall i, k | 0 <= i < |days| && 0 <= k < |days[i].schedule| ensures Locatable(lookup, days[i].schedule[k]) {
          if i < n { assert days[i] == pre[i]; }
        }
      }
      if AllLocatable(lookup, days) {
        forall i, k | 0 <= i < |pre| && 0 <= k < |pre[i].schedule| ensures Locatable(lookup, pre[i].schedule[k]) {
          assert pre[i] == days[i];
        }
      }
    }
  }

  /** The inner loop of the source over one day's schedule. Besides the result it
      returns the names sent to the geocoder, in order: every name when all
      succeed, otherwise the names up to and including the first one that failed,
      whose error is the result's error. */
  method EnrichScheduleLoop(lookup: string -> GeoResponse, s: seq<Activity>)
    returns (r: Result<seq<Activity>, GeoError>, queried: seq<string>)
    ensures r == EnrichSchedule(lookup, s)
    ensures queried <= ScheduleNames(s)
    ensures r.Success? ==> queried == ScheduleNames(s) && AllGeocode(lookup, queried)
    ensures r.Failure? ==>
      && |queried| > 0
      && AllGeocode(lookup, queried[..|queried| - 1])
      && GeocodeLocation(lookup, queried[|queried| - 1]) == Failure(r.error)
  {
    var done: seq<Activity> := [];
    queried := [];
    var k := 0;
    while k < |s|
      invariant 0 <= k <= |s|
      invariant EnrichSchedule(lookup, s[..k]) == Success(done)
      invariant queried == ScheduleNames(s)[..k]
      invariant AllGeocode(lookup, queried)
    {
      assert s[..k + 1][..k] == s[..k];
      var g := GeocodeLocation(lookup, s[k].locationName);
      var before := queried;
      queried := queried + [s[k].locationName];
      assert queried == ScheduleNames(s)[..k + 1];
      if g.Failure? {
        assert queried[..|queried| - 1] == before;
        SchedulePrefixFailure(lookup, s, k + 1);
        r := Failure(g.error);
        return;
      }
      AllGeocodeAppend(lookup, before, [s[k].locationName]);
      done := done + [WithPoint(s[k], g.value)];
      k := k + 1;
    }
    assert s[..k] == s;
    r := Success(done);
  }

  /** A failing schedule after days that enriched fails the whole itinerary with
      the schedule's error. */
  lemma DayFailedEnrich(lookup: string -> GeoResponse, it: Itinerary, i: nat, e: GeoError)
    requires i < |it.days|
    requires EnrichDays(lookup, it.days[..i]).Success?
    requires EnrichSchedule(lookup, it.days[i].schedule) == Failure(e)
    ensures Enrich(lookup, it) == Failure(e)
  {
    EnrichDaysStep(lookup, it.days, i);
    DaysPrefixFailure(lookup, it.days, i + 1);
    EnrichFromDays(lookup, it, Failure(e));
  }

  /** The names of the days before day `i`, then a prefix of day `i`'s names, are a
      prefix of all names. */
  lemma {:induction false} NamesWithinDay(days: seq<Day>, i: nat, names: seq<string>)
    requires i < |days|
    requires names <= ScheduleNames(days[i].schedule)
    ensures Names(days[..i]) + names <= Names(days)
  {
    NamesStep(days, i);
    NamesPrefix(days, i + 1);
  }

  /** A day whose schedule failed: the whole itinerary fails with that error, and
      the names sent so far are a prefix of all names ending with the failed one. */
  lemma DayFailed(lookup: string -> GeoResponse, it: Itinerary, i: nat,
                  before: seq<string>, names: seq<string>, e: GeoError)
    requires i < |it.days|
    requires EnrichDays(lookup, it.days[..i]).Success?
    requires EnrichSchedule(lookup, it.days[i].schedule) == Failure(e)
    requires before == Names(it.days[..i]) && AllGeocode(lookup, before)
    requires names <= ScheduleNames(it.days[i].schedule) && |names| > 0
    requires AllGeocode(lookup, names[..|names| - 1])
    requires GeocodeLocation(lookup, names[|names| - 1]) == Failure(e)
    ensures Enrich(lookup, it) == Failure(e)
    ensures before + names <= Names(it.days)
    ensures AllGeocode(lookup, (before + names)[..|before + names| - 1])
    ensures GeocodeLocation(lookup, (before + names)[|before + names| - 1]) == Failure(e)
  {
    var q := before + names;
    DayFailedEnrich(lookup, it, i, e);
    NamesWithinDay(it.days, i, names);
    assert q[..|q| - 1] == before + names[..|names| - 1];
    assert q[|q| - 1] == names[|names| - 1];
    AllGeocodeAppend(lookup, before, names[..|names| - 1]);
  }

  /** A day whose schedule succeeded extends the enriched days and the names sent. */
  lemma DaySucceeded(lookup: string -> GeoResponse, days: seq<Day>, i: nat, done: seq<Day>,
                     before: seq<string>, names: seq<string>, s: seq<Activity>)
    requires i < |days|
    requires EnrichDays(lookup, days[..i]) == Success(done)
    requires EnrichSchedule(lookup, days[i].schedule) == Success(s)
    requires before == Names(days[..i]) && AllGeocode(lookup, before)
    requires names == ScheduleNames(days[i].schedule) && AllGeocode(lookup, names)
    ensures EnrichDays(lookup, days[..i + 1]) == Success(done + [Day(days[i].day, s)])
    ensures before + names == Names(days[..i + 1])
    ensures AllGeocode(lookup, before + names)
  {
    EnrichDaysStep(lookup, days, i);
    NamesStep(days, i);
    AllGeocodeAppend(lookup, before, names);
  }

  /** The nested loop of the source over the days, with the same account of the
      names sent to the geocoder as `EnrichScheduleLoop`, across all days. */
  method EnrichInPlace(lookup: string -> GeoResponse, it: Itinerary)
    returns (r: Result<Itinerary, GeoError>, queried: seq<string>)
    ensures r == Enrich(lookup, it)
    ensures queried <= Names(it.days)
    ensures r.Success? ==> queried == Names(it.days) && AllGeocode(lookup, queried)
    ensures r.Failure? ==>
      && |queried| > 0
      && AllGeocode(lookup, queried[..|queried| - 1])
      && GeocodeLocation(lookup, queried[|queried| - 1]) == Failure(r.error)
  {
    var days: seq<Day> := [];
    queried := [];
    var i := 0;
    while i < |it.days|
      invariant 0 <= i <= |it.days|
      invariant EnrichDays(lookup, it.days[..i]) == Success(days)
      invariant queried == Names(it.days[..i])
      invariant AllGeocode(lookup, queried)
    {
      var sched, names := EnrichScheduleLoop(lookup, it.days[i].schedule);
      if sched.Failure? {
        DayFailed(lookup, it, i, queried, names, sched.error);
        queried := queried + names;
        r := Failure(sched.error);
        return;
      }
      DaySucceeded(lookup, it.days, i, days, queried, names, sched.value);
      queried := queried + names;
      days := days + [Day(it.days[i].day, sched.value)];
      i := i + 1;
    }
    assert it.days[..i] == it.days;
    NamesPrefix(it.days, i);
    EnrichFromDays(lookup, it, Success(days));
    r := Success(it.(days := days));
  }
}

/** The itinerary records of ollam.py (`Activity`, `Day`, `Itinerary`) and the one
    validation rule their schema enforces when the generated JSON is loaded.

    Field names are camel-cased: `locationName` is the JSON key `location_name`,
    `tripDuration` is `trip_duration` and `days` is the key `itinerary`. */
module Itineraries {
  import opened Wrappers

  /** A coordinate as the geocoding service returns it. The model never computes
      with coordinates, it only copies them, so their representation is left open. */
  type Coordinate(==)

  /** Minimum number of characters in an activity description. */
  const MinDescriptionLength := 50

  datatype Activity = Activity(
    locationName: string,
    description: string,
    longitude: Option<Coordinate>,
    latitude: Option<Coordinate>)

  datatype Day = Day(day: int, schedule: seq<Activity>)

  datatype Itinerary = Itinerary(destination: string, tripDuration: int, days: seq<Day>)

  /** A coordinate key of the generated JSON before validation: left out, given
      as `null`, or given a value. */
  datatype Field = Absent | Null | Value(c: Coordinate)

  datatype RawActivity = RawActivity(
    locationName: string,
    description: string,
    longitude: Field,
    latitude: Field)

  datatype RawDay = RawDay(day: int, schedule: seq<RawActivity>)

  /** Generated output already decoded into the itinerary's shape but not yet validated. */
  datatype RawItinerary = RawItinerary(destination: string, tripDuration: int, days: seq<RawDay>)

  datatype CoordinateField = Longitude | Latitude

  /** One validation error, located by day index and schedule index. */
  datatype Issue =
    | DescriptionTooShort(day: nat, slot: nat, length: nat)
    | NullCoordinate(day: nat, slot: nat, field: CoordinateField)

  /** A coordinate typed as a number with default `None` accepts a missing key
      (kept as `None`) or a number, and rejects an explicit `null`. */
  predicate FieldAccepted(f: Field)
  {
    !f.Null?
  }

  predicate ActivityValid(a: RawActivity)
  {
    && |a.description| >= MinDescriptionLength
    && FieldAccepted(a.longitude)
    && FieldAccepted(a.latitude)
  }

  predicate ItineraryValid(raw: RawItinerary)
  {
    forall i, k :: 0 <= i < |raw.days| && 0 <= k < |raw.days[i].schedule| ==>
      ActivityValid(raw.days[i].schedule[k])
  }

  /** The issue really describes a defect of activity `a`. */
  predicate Defect(x: Issue, a: RawActivity)
  {
    match x
    case DescriptionTooShort(_, _, n) => n == |a.description| && n < MinDescriptionLength
    case NullCoordinate(_, _, Longitude) => a.longitude.Null?
    case NullCoordinate(_, _, Latitude) => a.latitude.Null?
  }

  function ActivityIssues(a: RawActivity, d: nat, k: nat): seq<Issue>
  {
    (if |a.description| < MinDescriptionLength then [DescriptionTooShort(d, k, |a.description|)] else [])
    + (if a.longitude.Null? then [NullCoordinate(d, k, Longitude)] else [])
    + (if a.latitude.Null? then [NullCoordinate(d, k, Latitude)] else [])
  }

  /** Every issue of the activities of day `d`, in schedule order. */
  function ScheduleIssues(s: seq<RawActivity>, d: nat): (r: seq<Issue>)
    ensures forall x :: x in r ==> x.day == d && x.slot < |s|
    decreases |s|
  {
    if |s| == 0 then []
    else ScheduleIssues(s[..|s| - 1], d) + ActivityIssues(s[|s| - 1], d, |s| - 1)
  }

  /** An activity has no issue exactly when it is valid, and each of its issues is
      a real defect at its own position. */
  lemma ActivityIssuesSpec(a: RawActivity, d: nat, k: nat)
    ensures |ActivityIssues(a, d, k)| == 0 <==> ActivityValid(a)
    ensures forall x :: x in ActivityIssues(a, d, k) ==> x.day == d && x.slot == k && Defect(x, a)
  {
  }

  /** Every issue reported for a schedule names a real defect at its position. */
  lemma {:induction false} ScheduleIssuesSound(s: seq<RawActivity>, d: nat)
    ensures forall x :: x in ScheduleIssues(s, d) ==> Defect(x, s[x.slot])
    decreases |s|
  {
    if |s| > 0 {
      var n := |s| - 1;
      var pre := ScheduleIssues(s[..n], d);
      assert ScheduleIssues(s, d) == pre + ActivityIssues(s[n], d, n);
      ScheduleIssuesSound(s[..n], d);
      ActivityIssuesSpec(s[n], d, n);
      forall x | x in pre ensures Defect(x, s[x.slot]) {
        assert s[..n][x.slot] == s[x.slot];
      }
    }
  }

  /** Every defect of every activity of a schedule is reported. */
  lemma {:induction false} ScheduleIssuesComplete(s: seq<RawActivity>, d: nat)
    ensures forall k, x :: 0 <= k < |s| && x in ActivityIssues(s[k], d, k) ==> x in ScheduleIssues(s, d)
    decreases |s|
  {
    if |s| > 0 {
      var n := |s| - 1;
      var pre := ScheduleIssues(s[..n], d);
      assert ScheduleIssues(s, d) == pre + ActivityIssues(s[n], d, n);
      ScheduleIssuesComplete(s[..n], d);
      forall k, x | 0 <= k < n && x in ActivityIssues(s[k], d, k) ensures x in pre {
        assert s[..n][k] == s[k];
      }
    }
  }

  /** A defect makes its activity invalid. */
  lemma DefectInvalidates(x: Issue, a: RawActivity)
    requires Defect(x, a)
    ensures !ActivityValid(a)
  {
  }

  /** A schedule has no issue exactly when each activity is valid; every issue
      names a real defect at its position, and every defect is reported. */
  lemma {:induction false} ScheduleIssuesSpec(s: seq<RawActivity>, d: nat)
    ensures var r := ScheduleIssues(s, d);
      && (|r| == 0 <==> forall k :: 0 <= k < |s| ==> ActivityValid(s[k]))
      && (forall x :: x in r ==> x.day == d && x.slot < |s| && Defect(x, s[x.slot]))
      && (forall k, x :: 0 <= k < |s| && x in ActivityIssues(s[k], d, k) ==> x in r)
  {
    var r := ScheduleIssues(s, d);
    ScheduleIssuesSound(s, d);
    ScheduleIssuesComplete(s, d);
    if |r| > 0 {
      assert r[0] in r;
      DefectInvalidates(r[0], s[r[0].slot]);
    }
    if exists k :: 0 <= k < |s| && !ActivityValid(s[k]) {
      var k :| 0 <= k < |s| && !ActivityValid(s[k]);
      ActivityIssuesSpec(s[k], d, k);
      var own := ActivityIssues(s[k], d, k);
      assert own[0] in own;
    }
  }

  /** Every issue of the itinerary, day by day. */
  function Issues(days: seq<RawDay>): (r: seq<Issue>)
    ensures forall x :: x in r ==> x.day < |days|
    decreases |days|
  {
    if |days| == 0 then []
    else Issues(days[..|days| - 1]) + ScheduleIssues(days[|days| - 1].schedule, |days| - 1)
  }

  /** Every issue reported for an itinerary names a real defect at its position. */
  lemma {:induction false} IssuesSound(days: seq<RawDay>)
    ensures forall x :: x in Issues(days) ==>
      x.slot < |days[x.day].schedule| && Defect(x, days[x.day].schedule[x.slot])
    decreases |days|
  {
    if |days| > 0 {
      var n := |days| - 1;
      var pre := Issues(days[..n]);
      assert Issues(days) == pre + ScheduleIssues(days[n].schedule, n);
      IssuesSound(days[..n]);
      ScheduleIssuesSound(days[n].schedule, n);
      forall x | x in pre ensures x.slot < |days[x.day].schedule| && Defect(x, days[x.day].schedule[x.slot]) {
        assert days[..n][x.day] == days[x.day];
      }
    }
  }

  /** Every defect of every activity of an itinerary is reported. */
  lemma {:induction false} IssuesComplete(days: seq<RawDay>)
    ensures forall i, k, x ::
      0 <= i < |days| && 0 <= k < |days[i].schedule| && x in ActivityIssues(days[i].schedule[k], i, k)
      ==> x in Issues(days)
    decreases |days|
  {
    if |days| > 0 {
      var n := |days| - 1;
      var pre := Issues(days[..n]);
      assert Issues(days) == pre + ScheduleIssues(days[n].schedule, n);
      IssuesComplete(days[..n]);
      ScheduleIssuesComplete(days[n].schedule, n);
      forall i, k, x | 0 <= i < n && 0 <= k < |days[i].schedule| && x in ActivityIssues(days[i].schedule[k], i, k)
        ensures x in pre
      {
        assert days[..n][i] == days[i];
      }
    }
  }

  /** An itinerary has no issue exactly when every activity is valid; every issue
      names a real defect at its position, and every defect is reported. */
  lemma {:induction false} IssuesSpec(days: seq<RawDay>)
    ensures var r := Issues(days);
      && (|r| == 0 <==>
            forall i, k :: 0 <= i < |days| && 0 <= k < |days[i].schedule| ==> ActivityValid(days[i].schedule[k]))
      && (forall x :: x in r ==>
            x.day < |days| && x.slot < |days[x.day].schedule| && Defect(x, days[x.day].schedule[x.slot]))
      && (forall i, k, x ::
            0 <= i < |days| && 0 <= k < |days[i].schedule| && x in ActivityIssues(days[i].schedule[k], i, k)
            ==> x in r)
  {
    var r := Issues(days);
    IssuesSound(days);
    IssuesComplete(days);
    if |r| > 0 {
      assert r[0] in r;
      DefectInvalidates(r[0], days[r[0].day].schedule[r[0].slot]);
    }
    if exists i, k :: 0 <= i < |days| && 0 <= k < |days[i].schedule| && !ActivityValid(days[i].schedule[k]) {
      var i, k :| 0 <= i < |days| && 0 <= k < |days[i].schedule| && !ActivityValid(days[i].schedule[k]);
      ActivityIssuesSpec(days[i].schedule[k], i, k);
      var own := ActivityIssues(days[i].schedule[k], i, k);
      assert own[0] in own;
    }
  }

  function FieldValue(f: Field): Option<Coordinate>
  {
    if f.Value? then Some(f.c) else None
  }

  function ToActivity(a: RawActivity): Activity
  {
    Activity(a.locationName, a.description, FieldValue(a.longitude), FieldValue(a.latitude))
  }

  function ToDay(d: RawDay): Day
  {
    Day(d.day, seq(|d.schedule|, k requires 0 <= k < |d.schedule| => ToActivity(d.schedule[k])))
  }

  /** `it` carries exactly what `raw` says: the same destination, duration, day
      numbers, schedule lengths, names and descriptions, and a coordinate exactly
      where `raw` gave a value. */
  predicate Mirrors(raw: RawItinerary, it: Itinerary)
  {
    && it.destination == raw.destination
    && it.tripDuration == raw.tripDuration
    && |it.days| == |raw.days|
    && forall i :: 0 <= i < |raw.days| ==>
         && it.days[i].day == raw.days[i].day
         && |it.days[i].schedule| == |raw.days[i].schedule|
         && forall k :: 0 <= k < |raw.days[i].schedule| ==>
              MirrorsActivity(raw.days[i].schedule[k], it.days[i].schedule[k])
  }

  predicate MirrorsActivity(a: RawActivity, b: Activity)
  {
    && b.locationName == a.locationName
    && b.description == a.description
    && (b.longitude.Some? <==> a.longitude.Value?)
    && (b.latitude.Some? <==> a.latitude.Value?)
    && (a.longitude.Value? ==> b.longitude.value == a.longitude.c)
    && (a.latitude.Value? ==> b.latitude.value == a.latitude.c)
  }

  /** Loading the generated JSON into the `Itinerary` schema: succeeds exactly when
      every activity is valid, and otherwise reports every issue found. Nothing is
      checked about the number of days, their numbering or empty schedules. */
  function Validate(raw: RawItinerary): (r: Result<Itinerary, seq<Issue>>)
    ensures r.Success? <==> ItineraryValid(raw)
    ensures r.Success? ==> Mirrors(raw, r.value)
    ensures r.Failure? ==> |r.error| > 0
  {
    var issues := Issues(raw.days);
    IssuesSpec(raw.days);
    if |issues| > 0 then Failure(issues)
    else Success(Itinerary(raw.destination, raw.tripDuration,
                           seq(|raw.days|, i requires 0 <= i < |raw.days| => ToDay(raw.days[i]))))
  }

  /** A description shorter than the minimum is rejected, and the error names it. */
  lemma ShortDescriptionRejected(raw: RawItinerary, i: nat, k: nat)
    requires i < |raw.days| && k < |raw.days[i].schedule|
    requires |raw.days[i].schedule[k].description| < MinDescriptionLength
    ensures Validate(raw).Failure?
    ensures DescriptionTooShort(i, k, |raw.days[i].schedule[k].description|) in Validate(raw).error
  {
    var a := raw.days[i].schedule[k];
    IssuesSpec(raw.days);
    assert DescriptionTooShort(i, k, |a.description|) in ActivityIssues(a, i, k);
  }

  /** An activity whose description reaches the minimum, and whose coordinates are
      not explicitly null, is accepted; it keeps its name and description, and its
      coordinates are absent unless the generated JSON supplied them. */
  lemma LongDescriptionAccepted(destination: string, duration: int, dayNumber: int, a: RawActivity)
    requires |a.description| >= MinDescriptionLength
    requires a.longitude == Absent && a.latitude == Absent
    ensures var r := Validate(RawItinerary(destination, duration, [RawDay(dayNumber, [a])]));
      && r.Success?
      && r.value.days == [Day(dayNumber, [Activity(a.locationName, a.description, None, None)])]
  {
    var raw := RawItinerary(destination, duration, [RawDay(dayNumber, [a])]);
    assert ActivityValid(raw.days[0].schedule[0]);
    var r := Validate(raw);
    assert r.value.days[0].schedule == [Activity(a.locationName, a.description, None, None)];
  }
}

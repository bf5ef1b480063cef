/** The canonical calendar event (a pydantic record) and its derived duration. */
module Types {
  import opened Wrappers

  /** A start or end: a whole day (days since 1970-01-01) or an absolute instant
      (seconds since 1970-01-01T00:00Z). */
  datatype Moment = Date(day: int) | DateTime(seconds: int)

  const SecondsPerDay := 86400

  /** `datetime.min`, 0001-01-01T00:00, which is 719162 days before the epoch. */
  const MinDateTimeSeconds := -719162 * SecondsPerDay

  /** An attendee of an event: e-mail address and RSVP status as the backend reports it. */
  datatype Attendee = Attendee(email: string, status: Option<string>)

  /** The status an attendee has once they have accepted. */
  const Accepted := "accepted"

  const MaxUidLength := 255

  /** The Event record, with the defaults of its optional fields. `eventType` and
      `attendees` are the fields the translation layer and SkipByAttendee use. */
  datatype Event = Event(
    iCalUID: string,
    sequence: int := 0,
    sourceIds: seq<string>,
    start: Moment,
    end: Moment,
    title: Option<string> := None,
    description: Option<string> := None,
    location: Option<string> := None,
    deleted: bool := false,
    busy: bool := true,
    eventType: Option<string> := None,
    attendees: seq<Attendee> := [])

  /** Pydantic's validation when an Event is constructed: the uid is bounded. */
  function Validate(e: Event): (r: Result<Event>)
    ensures r.Ok? <==> |e.iCalUID| <= MaxUidLength
    ensures r.Ok? ==> r.value == e
    ensures r.Err? ==> r.error == ValidationError("iCalUID")
  {
    if |e.iCalUID| <= MaxUidLength then Ok(e) else Err(ValidationError("iCalUID"))
  }

  /** A record built from only its required fields carries every default. */
  lemma EventDefaults(uid: string, ids: seq<string>, start: Moment, end: Moment)
    ensures var e := Event(iCalUID := uid, sourceIds := ids, start := start, end := end);
      e.sequence == 0 && e.title.None? && e.description.None? && e.location.None? &&
      !e.deleted && e.busy
  {
  }

  /** The moment as seconds on one time line (a date counts from its midnight). */
  function Seconds(m: Moment): int {
    match m
    case Date(d) => d * SecondsPerDay
    case DateTime(s) => s
  }

  predicate SameKind(a: Moment, b: Moment) {
    a.Date? == b.Date?
  }

  /** `end - start` in seconds. Python refuses to subtract a date from a date-time
      (TypeError): then there is no duration. */
  function Duration(e: Event): (r: Option<int>)
    ensures r.Some? <==> SameKind(e.start, e.end)
    ensures r.Some? ==> Seconds(e.start) + r.value == Seconds(e.end)
  {
    match (e.start, e.end)
    case (DateTime(s), DateTime(t)) => Some(t - s)
    case (Date(d), Date(f)) => Some((f - d) * SecondsPerDay)
    case _ => None
  }

  /** The calendar day of a moment: `datetime.combine(m, time.min)` drops the time of day. */
  function DayOf(m: Moment): (d: int)
    ensures d * SecondsPerDay <= Seconds(m) < (d + 1) * SecondsPerDay
  {
    match m
    case Date(d) => d
    case DateTime(s) => s / SecondsPerDay
  }
}

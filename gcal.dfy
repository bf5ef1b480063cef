/** The Google Calendar adapter: translation between the backend's event records and
    Events, the filter that drops events an owner declined, and the planning of the
    import and delete operations of a sync batch. */
module GoogleCalendar {
  import opened Wrappers
  import opened Types
  import opened Seqs

  // ------------------------------------------------------------- Backend records

  /** A backend start or end: `{"date": ...}` or `{"dateTime": ...}`, already parsed
      into days or seconds since the epoch. */
  datatype EventTime = EventTime(date: Option<int>, dateTime: Option<int>)

  datatype GAttendee = GAttendee(email: Option<string>, responseStatus: Option<string>)

  /** The keys of a backend event record that the adapter reads or writes; `None` is
      an absent key. */
  datatype GEvent = GEvent(
    id: Option<string> := None,
    iCalUID: Option<string> := None,
    sequence: Option<int> := None,
    summary: Option<string> := None,
    location: Option<string> := None,
    start: Option<EventTime> := None,
    end: Option<EventTime> := None,
    status: Option<string> := None,
    transparency: Option<string> := None,
    eventType: Option<string> := None,
    attendees: Option<seq<GAttendee>> := None)

  const PolycalSuffix := "@polycal"
  const Cancelled := "cancelled"
  const Confirmed := "confirmed"
  const Opaque := "opaque"
  const Transparent := "transparent"
  const Declined := "declined"
  const ResourceDomain := "calendar.google.com"

  /** `record[key]`: the value, or KeyError when the key is absent. */
  function Key<T>(o: Option<T>, key: string): (r: Result<T>)
    ensures r.Ok? <==> o.Some?
    ensures r.Ok? ==> r.value == o.value
    ensures r.Err? ==> r.error == KeyError(key)
  {
    match o
    case Some(v) => Ok(v)
    case None => Err(KeyError(key))
  }

  // ------------------------------------------------------------------- Dates

  /** `from_google_cal_date`: a date-time when the record has one, else the date,
      else KeyError on "date". */
  function FromGoogleCalDate(t: EventTime): (r: Result<Moment>)
    ensures r.Ok? <==> t.dateTime.Some? || t.date.Some?
    ensures t.dateTime.Some? ==> r == Ok(DateTime(t.dateTime.value))
    ensures t.dateTime.None? && t.date.Some? ==> r == Ok(Date(t.date.value))
    ensures r.Err? ==> r.error == KeyError("date")
  {
    if t.dateTime.Some? then Ok(DateTime(t.dateTime.value))
    else
      var d :- Key(t.date, "date");
      Ok(Date(d))
  }

  /** `to_google_cal_date`: a record with the single key "dateTime" for a date-time
      and "date" for a date. */
  function ToGoogleCalDate(m: Moment): (t: EventTime)
    ensures t.dateTime.Some? <==> m.DateTime?
    ensures t.date.Some? <==> m.Date?
  {
    match m
    case Date(d) => EventTime(Some(d), None)
    case DateTime(s) => EventTime(None, Some(s))
  }

  /** A moment survives the trip to the backend and back, kind included. */
  lemma DateRoundTrip(m: Moment)
    ensures FromGoogleCalDate(ToGoogleCalDate(m)) == Ok(m)
  {
  }

  /** A backend record with exactly one of the two keys survives the trip through a
      moment and back. */
  lemma DateRoundTripBack(t: EventTime)
    requires t.date.Some? != t.dateTime.Some?
    ensures FromGoogleCalDate(t).Ok? && ToGoogleCalDate(FromGoogleCalDate(t).value) == t
  {
  }

  // ------------------------------------------------------------ Owner e-mails

  /** `get_calendar_owner_emails`: a calendar id that is an e-mail address, and not a
      resource calendar's address, is its own owner; any other has none (the ACL
      lookup after the `return` never runs). */
  function OwnerEmails(calendarId: string): (r: set<string>)
    ensures r <= {calendarId}
    ensures calendarId in r <==> '@' in calendarId && !EndsWith(calendarId, ResourceDomain)
  {
    if '@' in calendarId && !EndsWith(calendarId, ResourceDomain) then {calendarId} else {}
  }

  // ---------------------------------------------------------------- Listing

  /** Some attendee has an owner's e-mail and has declined. */
  predicate DeclinedBy(owners: set<string>, g: GEvent) {
    var atts := g.attendees.GetOr([]);
    exists i :: 0 <= i < |atts| && atts[i].email.Some? && atts[i].email.value in owners &&
      atts[i].responseStatus == Some(Declined)
  }

  function NotDeclined(owners: set<string>): GEvent -> bool {
    g => !DeclinedBy(owners, g)
  }

  /** What `list_events` yields for the backend's records `items`. */
  function Listed(calendarId: string, items: seq<GEvent>): Result<seq<Event>> {
    MapR(ToEvent, Filter(NotDeclined(OwnerEmails(calendarId)), items))
  }

  /** `list_events` over the fetched records: declined events are skipped and every
      other record is translated, the first failing translation ending the listing. */
  method ListEvents(calendarId: string, items: seq<GEvent>) returns (r: Result<seq<Event>>)
    ensures r == Listed(calendarId, items)
  {
    r := TranslateKept(ToEvent, NotDeclined(OwnerEmails(calendarId)), items);
  }

  /** The loop of `list_events`, over any skip test `keep` and translation `f`. */
  method TranslateKept<T, U>(f: T -> Result<U>, keep: T -> bool, items: seq<T>) returns (r: Result<seq<U>>)
    ensures r == MapR(f, Filter(keep, items))
  {
    var out: seq<U> := [];
    for i := 0 to |items|
      invariant MapR(f, Filter(keep, items[..i])) == Ok(out)
    {
      var g := items[i];
      assert items[..i + 1] == items[..i] + [g];
      ListStep(f, keep, items[..i], g, out);
      if !keep(g) {
        continue;
      }
      var e := f(g);
      if e.Err? {
        ListedStopsAt(f, keep, items, i, out);
        return Err(e.error);
      }
      out := out + [e.value];
    }
    assert items[..|items|] == items;
    r := Ok(out);
  }

  /** One more record: a dropped one leaves the listing as it is, a kept one that
      translates extends it. */
  lemma ListStep<T, U>(f: T -> Result<U>, keep: T -> bool, s: seq<T>, x: T, out: seq<U>)
    requires MapR(f, Filter(keep, s)) == Ok(out)
    ensures !keep(x) ==> MapR(f, Filter(keep, s + [x])) == Ok(out)
    ensures keep(x) && f(x).Ok? ==> MapR(f, Filter(keep, s + [x])) == Ok(out + [f(x).value])
  {
    FilterSnoc(keep, s, x);
    if keep(x) && f(x).Ok? {
      MapROk(f, Filter(keep, s) + [x], out + [f(x).value]);
    }
  }

  lemma FilterSnoc<T>(keep: T -> bool, s: seq<T>, x: T)
    ensures Filter(keep, s + [x]) == if keep(x) then Filter(keep, s) + [x] else Filter(keep, s)
  {
    FilterAppend(keep, s, [x]);
    assert [x][1..] == [];
  }

  /** The kept elements around a kept element `s[i]`. */
  lemma FilterAround<T>(keep: T -> bool, s: seq<T>, i: nat)
    requires i < |s| && keep(s[i])
    ensures Filter(keep, s) == Filter(keep, s[..i]) + [s[i]] + Filter(keep, s[i + 1..])
  {
    SplitAt(s, i);
    FilterAppend(keep, s[..i] + [s[i]], s[i + 1..]);
    FilterSnoc(keep, s[..i], s[i]);
  }

  /** A translation that fails on a kept record ends the listing with its error. */
  lemma ListedStopsAt<T, U>(f: T -> Result<U>, keep: T -> bool, items: seq<T>, i: nat, out: seq<U>)
    requires i < |items| && keep(items[i]) && f(items[i]).Err?
    requires MapR(f, Filter(keep, items[..i])) == Ok(out)
    ensures MapR(f, Filter(keep, items)) == Err(f(items[i]).error)
  {
    var before := Filter(keep, items[..i]);
    FilterAround(keep, items, i);
    var all := Filter(keep, items);
    assert all[|before|] == items[i];
    forall k | 0 <= k < |before| ensures f(all[k]).Ok? {
      assert all[k] == before[k];
    }
    MapRFirstErr(f, all, |before|);
  }

  /** The listing fails exactly when some record nobody declined fails to translate;
      otherwise it holds, in order, the translations of exactly the records no owner
      declined. */
  lemma ListedCorrect(calendarId: string, items: seq<GEvent>)
    ensures var kept := Filter(NotDeclined(OwnerEmails(calendarId)), items);
      var r := Listed(calendarId, items);
      (r.Err? <==> exists i :: (0 <= i < |items| && !DeclinedBy(OwnerEmails(calendarId), items[i]) &&
        ToEvent(items[i]).Err?)) &&
      (r.Ok? ==> |r.value| == |kept| && forall i :: 0 <= i < |kept| ==>
        !DeclinedBy(OwnerEmails(calendarId), kept[i]) && ToEvent(kept[i]) == Ok(r.value[i])) &&
      (forall i :: 0 <= i < |items| && !DeclinedBy(OwnerEmails(calendarId), items[i]) ==> items[i] in kept)
  {
    var keep := NotDeclined(OwnerEmails(calendarId));
    var kept := Filter(keep, items);
    var r := Listed(calendarId, items);
    if r.Err? {
      var j :| 0 <= j < |kept| && ToEvent(kept[j]).Err?;
      var i :| 0 <= i < |items| && items[i] == kept[j];
      assert !DeclinedBy(OwnerEmails(calendarId), items[i]);
    }
  }

  /** A resource calendar (its id names no owner) drops nothing. */
  lemma NoOwnerKeepsAll(calendarId: string, items: seq<GEvent>)
    requires EndsWith(calendarId, ResourceDomain)
    ensures Listed(calendarId, items) == MapR(ToEvent, items)
  {
    FilterAll(NotDeclined(OwnerEmails(calendarId)), items);
  }

  // ------------------------------------------------------------- Translation

  /** The Event uid: the backend uid if it is already ours, else the backend id
      namespaced with "@polycal". */
  function Uid(g: GEvent): Result<string> {
    var uid :- Key(g.iCalUID, "iCalUID");
    if EndsWith(uid, PolycalSuffix) then Ok(uid)
    else
      var id :- Key(g.id, "id");
      Ok(id + PolycalSuffix)
  }

  function ToAttendee(a: GAttendee): Result<Attendee> {
    var email :- Key(a.email, "email");
    Ok(Attendee(email, a.responseStatus))
  }

  /** `_gevent_to_event`, evaluating the record's keys in the order the constructor
      call reads them, then validating the Event. */
  function ToEvent(g: GEvent): (r: Result<Event>)
    ensures r.Ok? ==> EndsWith(r.value.iCalUID, PolycalSuffix)
  {
    var uid :- Uid(g);
    var id :- Key(g.id, "id");
    var st :- Key(g.start, "start");
    var start :- FromGoogleCalDate(st);
    var en :- Key(g.end, "end");
    var end :- FromGoogleCalDate(en);
    var attendees :- MapR(ToAttendee, g.attendees.GetOr([]));
    EndsWithAppend(id, PolycalSuffix);
    Validate(Event(
      iCalUID := uid,
      sequence := g.sequence.GetOr(0),
      sourceIds := [id],
      start := start,
      end := end,
      title := g.summary,
      location := g.location,
      deleted := g.status == Some(Cancelled),
      busy := g.transparency.GetOr(Opaque) == Opaque,
      eventType := g.eventType,
      attendees := attendees))
  }

  predicate HasTime(t: Option<EventTime>) {
    t.Some? && (t.value.date.Some? || t.value.dateTime.Some?)
  }

  /** Translation succeeds exactly when the record has a uid, an id, both times and
      an e-mail for every attendee, and the resulting uid fits; the uid, the source
      ids, the sequence, the flags and the times are then as the backend says. */
  lemma ToEventFields(g: GEvent)
    ensures var r := ToEvent(g);
      var atts := g.attendees.GetOr([]);
      (r.Ok? <==> (g.iCalUID.Some? && g.id.Some? && HasTime(g.start) && HasTime(g.end) &&
        (forall i :: 0 <= i < |atts| ==> atts[i].email.Some?) &&
        |(if EndsWith(g.iCalUID.value, PolycalSuffix) then g.iCalUID.value else g.id.value + PolycalSuffix)| <= MaxUidLength)) &&
      (r.Ok? ==>
        var e := r.value;
        (EndsWith(g.iCalUID.value, PolycalSuffix) ==> e.iCalUID == g.iCalUID.value) &&
        (!EndsWith(g.iCalUID.value, PolycalSuffix) ==> e.iCalUID == g.id.value + PolycalSuffix) &&
        e.sourceIds == [g.id.value] &&
        e.sequence == (if g.sequence.Some? then g.sequence.value else 0) &&
        (e.deleted <==> g.status == Some(Cancelled)) &&
        (e.busy <==> g.transparency.None? || g.transparency == Some(Opaque)) &&
        e.title == g.summary && e.location == g.location && e.eventType == g.eventType &&
        e.description.None? &&
        FromGoogleCalDate(g.start.value) == Ok(e.start) && FromGoogleCalDate(g.end.value) == Ok(e.end) &&
        |e.attendees| == |atts| &&
        (forall i :: 0 <= i < |atts| ==> e.attendees[i] == Attendee(atts[i].email.value, atts[i].responseStatus)))
  {
    var atts := g.attendees.GetOr([]);
    var m := MapR(ToAttendee, atts);
    if m.Ok? {
      forall i | 0 <= i < |atts| ensures atts[i].email.Some? {
        assert ToAttendee(atts[i]).Ok?;
      }
    }
  }

  /** A missing uid is reported first; a foreign uid with no id is reported next. */
  lemma ToEventMissingKeys(g: GEvent)
    ensures g.iCalUID.None? ==> ToEvent(g) == Err(KeyError("iCalUID"))
    ensures g.iCalUID.Some? && g.id.None? ==> ToEvent(g) == Err(KeyError("id"))
  {
  }

  /** `_event_to_gevent`: the record the sync imports. It carries no backend id. */
  function ToGEvent(e: Event): (g: GEvent)
    ensures g.id.None? && g.iCalUID == Some(e.iCalUID) && g.sequence == Some(e.sequence)
    ensures g.status == Some(if e.deleted then Cancelled else Confirmed)
    ensures g.transparency == Some(if e.busy then Opaque else Transparent)
  {
    GEvent(
      iCalUID := Some(e.iCalUID),
      sequence := Some(e.sequence),
      summary := e.title,
      start := Some(ToGoogleCalDate(e.start)),
      end := Some(ToGoogleCalDate(e.end)),
      status := Some(if e.deleted then Cancelled else Confirmed),
      location := e.location,
      transparency := Some(if e.busy then Opaque else Transparent),
      eventType := e.eventType)
  }

  /** Once the backend has assigned an id, an Event of ours translated to a record
      and back is the same Event, except that its source ids become that id and the
      fields the record does not carry (description, attendees) are reset. */
  lemma EventRoundTrip(e: Event, id: string)
    requires EndsWith(e.iCalUID, PolycalSuffix) && |e.iCalUID| <= MaxUidLength
    ensures ToEvent(ToGEvent(e).(id := Some(id))) ==
      Ok(e.(sourceIds := [id], description := None, attendees := []))
  {
    DateRoundTrip(e.start);
    DateRoundTrip(e.end);
    var empty: seq<GAttendee> := [];
    assert MapR(ToAttendee, empty) == Ok([]);
  }

  /** A foreign uid is replaced by the id namespaced with "@polycal"; every other
      field is kept as in the round trip. */
  lemma ForeignUidRoundTrip(e: Event, id: string)
    requires !EndsWith(e.iCalUID, PolycalSuffix) && |id + PolycalSuffix| <= MaxUidLength
    ensures ToEvent(ToGEvent(e).(id := Some(id))) ==
      Ok(e.(iCalUID := id + PolycalSuffix, sourceIds := [id], description := None, attendees := []))
  {
    DateRoundTrip(e.start);
    DateRoundTrip(e.end);
    var empty: seq<GAttendee> := [];
    assert MapR(ToAttendee, empty) == Ok([]);
  }

  /** Without an id, the record `_event_to_gevent` builds cannot be read back. */
  lemma NoIdNoEvent(e: Event)
    ensures ToEvent(ToGEvent(e)) == Err(KeyError("id"))
  {
  }

  // ---------------------------------------------------------- Batch planning

  /** A request added to the batch. */
  datatype Op = Import(calendarId: string, body: GEvent) | Delete(calendarId: string, eventId: string)

  /** The ids of `ids` not in `skip`, each once, in the order of their first
      occurrence: `set(ids) - skip`. */
  function Fresh(ids: seq<string>, skip: set<string>): (r: seq<string>)
    ensures ToSet(r) == ToSet(ids) - skip
    ensures NoDup(r)
  {
    FreshFromProps(ids, skip);
    FreshFrom(ids, skip).0
  }

  /** The ids taken so far and the ids to skip, after the ids `ids` in order. */
  function FreshFrom(ids: seq<string>, skip: set<string>): (seq<string>, set<string>) {
    if ids == [] then ([], skip)
    else
      var (done, seen) := FreshFrom(ids[..|ids| - 1], skip);
      var x := ids[|ids| - 1];
      if x in seen then (done, seen) else (done + [x], seen + {x})
  }

  lemma {:induction false} FreshFromProps(ids: seq<string>, skip: set<string>)
    ensures FreshFrom(ids, skip).1 == skip + ToSet(ids)
    ensures ToSet(FreshFrom(ids, skip).0) == ToSet(ids) - skip
    ensures NoDup(FreshFrom(ids, skip).0)
  {
    if ids != [] {
      var init, x := ids[..|ids| - 1], ids[|ids| - 1];
      FreshFromProps(init, skip);
      InitLast(ids);
      ToSetSnoc(init, x);
      var (done, seen) := FreshFrom(init, skip);
      if x !in seen {
        ToSetSnoc(done, x);
        NoDupSnoc(done, x);
      }
    }
  }

  lemma ToSetSnoc<T>(s: seq<T>, x: T)
    ensures ToSet(s + [x]) == ToSet(s) + {x}
  {
    assert (s + [x])[|s|] == x;
    assert forall i :: 0 <= i < |s| ==> (s + [x])[i] == s[i];
  }

  lemma NoDupSnoc<T>(s: seq<T>, x: T)
    requires NoDup(s) && x !in ToSet(s)
    ensures NoDup(s + [x])
  {
    var t := s + [x];
    forall i, j | 0 <= i < j < |t| ensures t[i] != t[j] {
      assert t[i] == s[i];
      if j < |s| { assert t[j] == s[j]; } else { assert s[i] in ToSet(s); }
    }
  }

  function DeleteOps(calendarId: string, ids: seq<string>): (ops: seq<Op>)
    ensures |ops| == |ids|
    ensures forall i :: 0 <= i < |ids| ==> ops[i] == Delete(calendarId, ids[i])
  {
    seq(|ids|, i requires 0 <= i < |ids| => Delete(calendarId, ids[i]))
  }

  /** The planning loop's state: the source ids imported so far and the batch. */
  datatype Plan = Plan(updated: set<string>, ops: seq<Op>)

  /** One event: a tombstone deletes its source ids not yet imported; a live event
      is imported and its source ids are marked imported. */
  function PlanStep(calendarId: string, p: Plan, e: Event): Plan {
    if e.deleted then Plan(p.updated, p.ops + DeleteOps(calendarId, Fresh(e.sourceIds, p.updated)))
    else Plan(p.updated + ToSet(e.sourceIds), p.ops + [Import(calendarId, ToGEvent(e))])
  }

  /** The plan after the events `events`, in order. */
  function PlanOf(calendarId: string, events: seq<Event>): Plan {
    if events == [] then Plan({}, [])
    else PlanStep(calendarId, PlanOf(calendarId, events[..|events| - 1]), events[|events| - 1])
  }

  /** `sync_events`: the operations of the batch, with the set of imported source
      ids threaded through the events. */
  method SyncEvents(calendarId: string, events: seq<Event>) returns (ops: seq<Op>)
    ensures ops == PlanOf(calendarId, events).ops
  {
    var updated: set<string> := {};
    ops := [];
    for i := 0 to |events|
      invariant PlanOf(calendarId, events[..i]) == Plan(updated, ops)
    {
      assert events[..i + 1][..i] == events[..i];
      var e := events[i];
      if e.deleted {
        var dels := DeleteUnimported(calendarId, e.sourceIds, updated);
        ops := ops + dels;
      } else {
        ops := ops + [Import(calendarId, ToGEvent(e))];
        updated := updated + ToSet(e.sourceIds);
      }
    }
    assert events[..|events|] == events;
  }

  /** The deletes of one tombstone: each of its source ids not imported earlier in
      the batch, once. */
  method DeleteUnimported(calendarId: string, ids: seq<string>, updated: set<string>) returns (dels: seq<Op>)
    ensures dels == DeleteOps(calendarId, Fresh(ids, updated))
  {
    var skip := updated;
    var done: seq<string> := [];
    dels := [];
    for j := 0 to |ids|
      invariant FreshFrom(ids[..j], updated) == (done, skip)
      invariant dels == DeleteOps(calendarId, done)
    {
      assert ids[..j + 1][..j] == ids[..j];
      if ids[j] !in skip {
        DeleteOpsSnoc(calendarId, done, ids[j]);
        dels := dels + [Delete(calendarId, ids[j])];
        done := done + [ids[j]];
        skip := skip + {ids[j]};
      }
    }
    assert ids[..|ids|] == ids;
  }

  lemma DeleteOpsSnoc(calendarId: string, ids: seq<string>, x: string)
    ensures DeleteOps(calendarId, ids + [x]) == DeleteOps(calendarId, ids) + [Delete(calendarId, x)]
  {
  }

  /** The source ids of the live events among `events`. */
  function ImportedIds(events: seq<Event>): set<string> {
    set i, k | 0 <= i < |events| && !events[i].deleted && 0 <= k < |events[i].sourceIds| :: events[i].sourceIds[k]
  }

  /** The ids marked imported are exactly those of the live events so far. */
  lemma {:induction false} PlanUpdated(calendarId: string, events: seq<Event>)
    ensures PlanOf(calendarId, events).updated == ImportedIds(events)
  {
    if events != [] {
      var init, e := events[..|events| - 1], events[|events| - 1];
      PlanUpdated(calendarId, init);
      InitLast(events);
      forall x | x in ImportedIds(events) ensures x in ImportedIds(init) || (!e.deleted && x in e.sourceIds) {
        var i, k :| 0 <= i < |events| && !events[i].deleted && 0 <= k < |events[i].sourceIds| &&
          events[i].sourceIds[k] == x;
        if i < |init| {
          assert init[i] == events[i];
        }
      }
      forall x | x in ImportedIds(init) ensures x in ImportedIds(events) {
        var i, k :| 0 <= i < |init| && !init[i].deleted && 0 <= k < |init[i].sourceIds| &&
          init[i].sourceIds[k] == x;
        assert events[i] == init[i];
      }
      if !e.deleted {
        forall x | x in e.sourceIds ensures x in ImportedIds(events) {
          var k :| 0 <= k < |e.sourceIds| && e.sourceIds[k] == x;
          assert events[|init|].sourceIds[k] == x;
        }
      }
    }
  }

  /** Event `n` contributes, after what the earlier events planned, one import when
      it is live, and otherwise one delete for each of its distinct source ids that no
      earlier live event imported. */
  lemma PlanContribution(calendarId: string, events: seq<Event>, n: nat)
    requires n < |events|
    ensures var before := PlanOf(calendarId, events[..n]).ops;
      var after := PlanOf(calendarId, events[..n + 1]).ops;
      var e := events[n];
      (!e.deleted ==> after == before + [Import(calendarId, ToGEvent(e))]) &&
      (e.deleted ==> exists ids :: (after == before + DeleteOps(calendarId, ids) &&
        NoDup(ids) && ToSet(ids) == ToSet(e.sourceIds) - ImportedIds(events[..n])))
  {
    assert events[..n + 1][..n] == events[..n];
    PlanUpdated(calendarId, events[..n]);
    if events[n].deleted {
      var ids := Fresh(events[n].sourceIds, PlanOf(calendarId, events[..n]).updated);
      assert PlanOf(calendarId, events[..n + 1]).ops == PlanOf(calendarId, events[..n]).ops + DeleteOps(calendarId, ids);
    }
  }

  predicate IsImport(op: Op) {
    op.Import?
  }

  predicate Live(e: Event) {
    !e.deleted
  }

  /** The batch holds one import per live event, and every request addresses the
      target calendar. */
  lemma PlanCounts(calendarId: string, events: seq<Event>)
    ensures var ops := PlanOf(calendarId, events).ops;
      |Filter(IsImport, ops)| == |Filter(Live, events)| &&
      forall i :: 0 <= i < |ops| ==> ops[i].calendarId == calendarId
  {
    PlanImportCount(calendarId, events);
    PlanTargets(calendarId, events);
  }

  lemma {:induction false} PlanImportCount(calendarId: string, events: seq<Event>)
    ensures |Filter(IsImport, PlanOf(calendarId, events).ops)| == |Filter(Live, events)|
  {
    if events != [] {
      var init, e := events[..|events| - 1], events[|events| - 1];
      PlanImportCount(calendarId, init);
      InitLast(events);
      FilterSnoc(Live, init, e);
      var p := PlanOf(calendarId, init);
      if e.deleted {
        var dels := DeleteOps(calendarId, Fresh(e.sourceIds, p.updated));
        FilterAppend(IsImport, p.ops, dels);
        FilterNone(IsImport, dels);
      } else {
        FilterSnoc(IsImport, p.ops, Import(calendarId, ToGEvent(e)));
      }
    }
  }

  lemma {:induction false} PlanTargets(calendarId: string, events: seq<Event>)
    ensures forall i :: 0 <= i < |PlanOf(calendarId, events).ops| ==> PlanOf(calendarId, events).ops[i].calendarId == calendarId
  {
    if events != [] {
      var init, e := events[..|events| - 1], events[|events| - 1];
      PlanTargets(calendarId, init);
    }
  }

  /** Every import in the batch carries the record of a live event of the batch. */
  lemma {:induction false} PlanImportsFrom(calendarId: string, events: seq<Event>)
    ensures forall j :: 0 <= j < |PlanOf(calendarId, events).ops| && PlanOf(calendarId, events).ops[j].Import? ==>
      exists i :: 0 <= i < |events| && !events[i].deleted && PlanOf(calendarId, events).ops[j].body == ToGEvent(events[i])
  {
    if events != [] {
      var init, e := events[..|events| - 1], events[|events| - 1];
      PlanImportsFrom(calendarId, init);
      var p := PlanOf(calendarId, init);
      var ops := PlanOf(calendarId, events).ops;
      var tail := if e.deleted then DeleteOps(calendarId, Fresh(e.sourceIds, p.updated))
        else [Import(calendarId, ToGEvent(e))];
      assert ops == p.ops + tail;
      forall j | 0 <= j < |ops| && ops[j].Import?
        ensures exists i :: 0 <= i < |events| && !events[i].deleted && ops[j].body == ToGEvent(events[i])
      {
        if j < |p.ops| {
          assert ops[j] == p.ops[j];
          var i :| 0 <= i < |init| && !init[i].deleted && p.ops[j].body == ToGEvent(init[i]);
          assert events[i] == init[i];
        } else {
          assert ops[j] == tail[j - |p.ops|];
          assert !e.deleted;
          assert ops[j].body == ToGEvent(events[|events| - 1]);
        }
      }
    }
  }

  /** Without tombstones the batch is exactly the imports of the events, in order. */
  lemma {:induction false} PlanAllLive(calendarId: string, events: seq<Event>)
    requires forall i :: 0 <= i < |events| ==> !events[i].deleted
    ensures var ops := PlanOf(calendarId, events).ops;
      |ops| == |events| && forall i :: 0 <= i < |ops| ==> ops[i] == Import(calendarId, ToGEvent(events[i]))
  {
    if events != [] {
      var init, e := events[..|events| - 1], events[|events| - 1];
      PlanAllLive(calendarId, init);
      var before := PlanOf(calendarId, init).ops;
      var ops := PlanOf(calendarId, events).ops;
      assert ops == before + [Import(calendarId, ToGEvent(e))];
      forall i | 0 <= i < |ops| ensures ops[i] == Import(calendarId, ToGEvent(events[i])) {
        if i < |init| {
          assert ops[i] == before[i] && events[i] == init[i];
        }
      }
    }
  }
}

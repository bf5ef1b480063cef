/** Reflective access to Event fields by name: the getter used by attribute paths
    (`getattr`) and the setter used by SetAttr (`setattr`). */
module Fields {
  import opened Wrappers
  import opened Types
  import opened PyValues

  /** `Event.__fields__`: the declared field names, in declaration order. */
  const FieldNames: seq<string> := [
    "iCalUID", "sequence", "source_ids", "start", "end", "title", "description",
    "location", "deleted", "busy", "type", "attendees"]

  function AttendeeObject(a: Attendee): PyVal {
    PObject(map["email" := PStr(a.email), "status" := OptStr(a.status)])
  }

  /** `getattr(event, name)` for a declared field. */
  function FieldValue(e: Event, name: string): PyVal
    requires name in FieldNames
  {
    match name
    case "iCalUID" => PStr(e.iCalUID)
    case "sequence" => PInt(e.sequence)
    case "source_ids" => PList(seq(|e.sourceIds|, i requires 0 <= i < |e.sourceIds| => PStr(e.sourceIds[i])))
    case "start" => PMoment(e.start)
    case "end" => PMoment(e.end)
    case "title" => OptStr(e.title)
    case "description" => OptStr(e.description)
    case "location" => OptStr(e.location)
    case "deleted" => PBool(e.deleted)
    case "busy" => PBool(e.busy)
    case "type" => OptStr(e.eventType)
    case "attendees" => PList(seq(|e.attendees|, i requires 0 <= i < |e.attendees| => AttendeeObject(e.attendees[i])))
  }

  /** The `duration` property: `end - start`, which raises TypeError when one is a
      date and the other a date-time. */
  function DurationValue(e: Event): (p: PyVal)
    ensures p.PTimedelta? <==> SameKind(e.start, e.end)
    ensures p.PTimedelta? ==> Seconds(e.start) + p.seconds == Seconds(e.end)
  {
    match Duration(e)
    case Some(d) => PTimedelta(d)
    case None => PRaising(TypeError("unsupported operand type(s) for -"))
  }

  /** The event as a Python object: its fields and its `duration` property. */
  function EventObject(e: Event): (p: PyVal)
    ensures p.PObject?
    ensures forall n :: n in FieldNames ==> n in p.attrs && p.attrs[n] == FieldValue(e, n)
    ensures "duration" in p.attrs && p.attrs["duration"] == DurationValue(e)
  {
    PObject((map n | n in FieldNames :: FieldValue(e, n))["duration" := DurationValue(e)])
  }

  /** `setattr(event, name, value)` for a declared field and a value that fits it.
      Pydantic does not validate assignments, so a uid longer than the bound is stored
      as it is. A value whose type does not fit the field is refused (IllTyped). */
  function SetField(e: Event, name: string, v: Value): (r: Result<Event>)
    requires name in FieldNames
    ensures r.Ok? ==> FieldValue(r.value, name) == Lift(v)
    ensures r.Err? ==> r.error == IllTyped(name)
  {
    match (name, v)
    case ("iCalUID", VStr(s)) => Ok(e.(iCalUID := s))
    case ("sequence", VInt(i)) => Ok(e.(sequence := i))
    case ("title", VStr(s)) => Ok(e.(title := Some(s)))
    case ("description", VStr(s)) => Ok(e.(description := Some(s)))
    case ("location", VStr(s)) => Ok(e.(location := Some(s)))
    case ("deleted", VBool(b)) => Ok(e.(deleted := b))
    case ("busy", VBool(b)) => Ok(e.(busy := b))
    case ("type", VStr(s)) => Ok(e.(eventType := Some(s)))
    case _ => Err(IllTyped(name))
  }

  /** `setattr` of one field leaves every other field as it was. */
  lemma SetFieldOthers(e: Event, name: string, v: Value)
    requires name in FieldNames && SetField(e, name, v).Ok?
    ensures forall m :: m in FieldNames && m != name ==> FieldValue(SetField(e, name, v).value, m) == FieldValue(e, m)
  {
    match (name, v)
    case ("iCalUID", VStr(_)) => FrameAll(e, SetField(e, name, v).value, name);
    case ("sequence", VInt(_)) => FrameAll(e, SetField(e, name, v).value, name);
    case ("title", VStr(_)) => FrameAll(e, SetField(e, name, v).value, name);
    case ("description", VStr(_)) => FrameAll(e, SetField(e, name, v).value, name);
    case ("location", VStr(_)) => FrameAll(e, SetField(e, name, v).value, name);
    case ("deleted", VBool(_)) => FrameAll(e, SetField(e, name, v).value, name);
    case ("busy", VBool(_)) => FrameAll(e, SetField(e, name, v).value, name);
    case ("type", VStr(_)) => FrameAll(e, SetField(e, name, v).value, name);
  }

  lemma FrameAll(e: Event, r: Event, name: string)
    requires name != "iCalUID" ==> r.iCalUID == e.iCalUID
    requires name != "sequence" ==> r.sequence == e.sequence
    requires name != "title" ==> r.title == e.title
    requires name != "description" ==> r.description == e.description
    requires name != "location" ==> r.location == e.location
    requires name != "deleted" ==> r.deleted == e.deleted
    requires name != "busy" ==> r.busy == e.busy
    requires name != "type" ==> r.eventType == e.eventType
    requires r.sourceIds == e.sourceIds && r.start == e.start && r.end == e.end && r.attendees == e.attendees
    ensures forall m :: m in FieldNames && m != name ==> FieldValue(r, m) == FieldValue(e, m)
  {
    forall m | m in FieldNames && m != name ensures FieldValue(r, m) == FieldValue(e, m) {
      FieldFrame(e, r, name, m);
    }
  }

  /** Two events that agree on every field but `name` agree on `getattr` of any
      other field. */
  lemma FieldFrame(e: Event, r: Event, name: string, m: string)
    requires m in FieldNames && m != name
    requires name != "iCalUID" ==> r.iCalUID == e.iCalUID
    requires name != "sequence" ==> r.sequence == e.sequence
    requires name != "title" ==> r.title == e.title
    requires name != "description" ==> r.description == e.description
    requires name != "location" ==> r.location == e.location
    requires name != "deleted" ==> r.deleted == e.deleted
    requires name != "busy" ==> r.busy == e.busy
    requires name != "type" ==> r.eventType == e.eventType
    requires r.sourceIds == e.sourceIds && r.start == e.start && r.end == e.end && r.attendees == e.attendees
    ensures FieldValue(r, m) == FieldValue(e, m)
  {
  }

  /** Whether `v` fits the field `name`, so that `SetField` stores it. */
  predicate Fits(name: string, v: Value) {
    match (name, v)
    case ("iCalUID", VStr(_)) => true
    case ("sequence", VInt(_)) => true
    case ("title", VStr(_)) => true
    case ("description", VStr(_)) => true
    case ("location", VStr(_)) => true
    case ("deleted", VBool(_)) => true
    case ("busy", VBool(_)) => true
    case ("type", VStr(_)) => true
    case _ => false
  }

  lemma SetFieldFits(e: Event, name: string, v: Value)
    requires name in FieldNames
    ensures SetField(e, name, v).Ok? <==> Fits(name, v)
  {
  }
}

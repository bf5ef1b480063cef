/** The transform catalogue: per-event rewriting (ReplaceTitle, SetAttr), the
    filters (SkipByAttr, SkipByTitle, SkipByAttendee, SkipByDuration) and Merge,
    each configured from keyword arguments and applied to a finite stream of events. */
module Transforms {
  import opened Wrappers
  import opened Types
  import opened Seqs
  import opened PyValues
  import opened Fields
  import opened HumanTimedelta
  import opened Merging

  /** The regular-expression engine, which is not part of this model: whether a
      pattern compiles under the given flags; `re.sub` with a string replacement
      template, None when the template is refused (a group reference the pattern does
      not have, an unknown escape, a trailing backslash); and whether a pattern
      compiled without flags matches at the start of a subject. */
  datatype Regex = Regex(
    compiles: (string, int) -> bool,
    sub: (string, int, string, string) -> Option<string>,
    matchesAtStart: (string, string) -> bool)

  /** Keyword arguments in configuration order. They come from a dict, so in a
      configuration the keys are distinct; no member here relies on it. */
  type Kwargs = seq<(string, Value)>

  /** A constructed transform: the state its constructor stores. */
  datatype Transform =
    | ReplaceTitle(pattern: string, flags: int, repl: Value)
    | SetAttr(overrides: Kwargs)
    | SkipByAttr(criteria: Kwargs)
    | SkipByTitle(patterns: seq<string>)
    | SkipByAttendee(email: Value, confirmed: bool)
    | SkipByDuration(minDuration: int)
    | Merge(elipsis: int)

  // ---------------------------------------------------------------- ReplaceTitle

  const DefaultPattern := "^.*$"
  const DefaultRepl := "n/a"

  /** One event of ReplaceTitle: the title becomes the substitution over `title or ""`.
      `re.sub` refuses a replacement that is not a string (TypeError) and a string
      template it cannot expand (`re.error`). */
  function Retitle(rx: Regex, pattern: string, flags: int, repl: Value, e: Event): (r: Result<Event>)
    ensures r.Ok? <==> repl.VStr? && rx.sub(pattern, flags, repl.s, e.title.GetOr("")).Some?
    ensures r.Err? && !repl.VStr? ==> r.error == TypeError("expected str instance")
    ensures r.Err? && repl.VStr? ==> r.error == RegexError(repl.s)
    ensures r.Ok? ==> r.value.title == rx.sub(pattern, flags, repl.s, e.title.GetOr(""))
    ensures r.Ok? ==> r.value.(title := e.title) == e
  {
    if !repl.VStr? then Err(TypeError("expected str instance"))
    else
      match rx.sub(pattern, flags, repl.s, e.title.GetOr(""))
      case None => Err(RegexError(repl.s))
      case Some(title) => Ok(e.(title := Some(title)))
  }

  function RetitleEach(rx: Regex, pattern: string, flags: int, repl: Value): Event -> Result<Event> {
    e => Retitle(rx, pattern, flags, repl, e)
  }

  function ReplaceTitles(rx: Regex, pattern: string, flags: int, repl: Value, events: seq<Event>): Result<seq<Event>> {
    MapR(RetitleEach(rx, pattern, flags, repl), events)
  }

  /** The substitution accepts the template on the title of every event. */
  predicate TemplateFits(rx: Regex, pattern: string, flags: int, repl: string, events: seq<Event>) {
    forall i :: 0 <= i < |events| ==> rx.sub(pattern, flags, repl, events[i].title.GetOr("")).Some?
  }

  /** ReplaceTitle keeps the number and order of events and every field but the title.
      It fails as soon as there is an event when the replacement is not a string, and
      on the first event whose substitution refuses the template. */
  lemma ReplaceTitlesCorrect(rx: Regex, pattern: string, flags: int, repl: Value, events: seq<Event>)
    ensures var r := ReplaceTitles(rx, pattern, flags, repl, events);
      (r.Ok? <==> (events == [] || (repl.VStr? && TemplateFits(rx, pattern, flags, repl.s, events)))) &&
      (r.Err? && !repl.VStr? ==> r.error == TypeError("expected str instance")) &&
      (r.Err? && repl.VStr? ==> r.error == RegexError(repl.s)) &&
      (r.Ok? ==>
         |r.value| == |events| &&
         forall i :: 0 <= i < |events| ==>
           r.value[i].title == rx.sub(pattern, flags, repl.s, events[i].title.GetOr("")) &&
           r.value[i].(title := events[i].title) == events[i])
  {
    var r := ReplaceTitles(rx, pattern, flags, repl, events);
    if events != [] && !repl.VStr? {
      assert Retitle(rx, pattern, flags, repl, events[0]).Err?;
    }
    if r.Ok? && events != [] {
      assert Retitle(rx, pattern, flags, repl, events[0]).Ok?;
    }
    if events != [] && repl.VStr? && r.Ok? {
      forall i | 0 <= i < |events|
        ensures rx.sub(pattern, flags, repl.s, events[i].title.GetOr("")).Some?
      {
        assert Retitle(rx, pattern, flags, repl, events[i]).Ok?;
      }
    }
    if events != [] && repl.VStr? && TemplateFits(rx, pattern, flags, repl.s, events) {
      assert forall i :: 0 <= i < |events| ==> Retitle(rx, pattern, flags, repl, events[i]).Ok?;
    }
    if r.Ok? {
      forall i | 0 <= i < |events|
        ensures r.value[i].title == rx.sub(pattern, flags, repl.s, events[i].title.GetOr("")) &&
                r.value[i].(title := events[i].title) == events[i]
      {
        assert Retitle(rx, pattern, flags, repl, events[i]) == Ok(r.value[i]);
      }
    }
  }

  /** A template the substitution refuses, such as a group reference the pattern does
      not have, fails ReplaceTitle on the first event. */
  lemma TemplateRefused(rx: Regex, pattern: string, flags: int, repl: string, e: Event, rest: seq<Event>)
    requires rx.sub(pattern, flags, repl, e.title.GetOr("")).None?
    ensures ReplaceTitles(rx, pattern, flags, VStr(repl), [e] + rest) == Err(RegexError(repl))
  {
    MapRFirstErr(RetitleEach(rx, pattern, flags, VStr(repl)), [e] + rest, 0);
  }

  /** `ReplaceTitle.process`: the loop that rewrites each event's title. */
  method ReplaceTitleProcess(rx: Regex, pattern: string, flags: int, repl: Value, events: seq<Event>)
    returns (r: Result<seq<Event>>)
    ensures r == ReplaceTitles(rx, pattern, flags, repl, events)
  {
    var out: seq<Event> := [];
    for i := 0 to |events|
      invariant |out| == i
      invariant forall k :: 0 <= k < i ==> Retitle(rx, pattern, flags, repl, events[k]) == Ok(out[k])
    {
      var e := Retitle(rx, pattern, flags, repl, events[i]);
      if e.Err? {
        MapRFirstErr(RetitleEach(rx, pattern, flags, repl), events, i);
        return Err(e.error);
      }
      out := out + [e.value];
    }
    MapROk(RetitleEach(rx, pattern, flags, repl), events, out);
    r := Ok(out);
  }

  // --------------------------------------------------------------------- SetAttr

  predicate AllFields(overrides: Kwargs) {
    forall i :: 0 <= i < |overrides| ==> overrides[i].0 in FieldNames
  }

  /** The value the last override of `name` gives, if any. */
  function LastValue(overrides: Kwargs, name: string): (r: Option<Value>)
    ensures r.None? <==> forall i :: 0 <= i < |overrides| ==> overrides[i].0 != name
  {
    if overrides == [] then None
    else
      var rest := LastValue(overrides[1..], name);
      if rest.Some? then rest
      else if overrides[0].0 == name then Some(overrides[0].1)
      else None
  }

  /** One event of SetAttr: `setattr` of every override in order. */
  function Override(e: Event, overrides: Kwargs): Result<Event>
    requires AllFields(overrides)
    decreases |overrides|
  {
    if overrides == [] then Ok(e)
    else
      var e' :- SetField(e, overrides[0].0, overrides[0].1);
      Override(e', overrides[1..])
  }

  /** Every overridden field holds its (last) configured value and every other field is
      unchanged; the overrides fail exactly when one of them does not fit its field. */
  lemma {:induction false} OverrideFields(e: Event, overrides: Kwargs)
    requires AllFields(overrides)
    ensures Override(e, overrides).Ok? <==> forall i :: 0 <= i < |overrides| ==> Fits(overrides[i].0, overrides[i].1)
    ensures Override(e, overrides).Ok? ==> forall n :: n in FieldNames ==>
      FieldValue(Override(e, overrides).value, n) ==
        match LastValue(overrides, n) case Some(v) => Lift(v) case None => FieldValue(e, n)
    decreases |overrides|
  {
    if overrides != [] {
      var (name, v) := overrides[0];
      SetFieldFits(e, name, v);
      var s := SetField(e, name, v);
      if s.Ok? {
        SetFieldOthers(e, name, v);
        OverrideFields(s.value, overrides[1..]);
        assert forall i :: 1 <= i < |overrides| ==> overrides[i] == overrides[1..][i - 1];
      }
    }
  }

  function OverrideEach(overrides: Kwargs): Event -> Result<Event>
    requires AllFields(overrides)
  {
    e => Override(e, overrides)
  }

  function SetAttrs(overrides: Kwargs, events: seq<Event>): Result<seq<Event>>
    requires AllFields(overrides)
  {
    MapR(OverrideEach(overrides), events)
  }

  /** SetAttr keeps the number and order of events and fixes the overridden fields. */
  lemma SetAttrsCorrect(overrides: Kwargs, events: seq<Event>)
    requires AllFields(overrides)
    ensures var r := SetAttrs(overrides, events);
      r.Ok? ==>
        |r.value| == |events| &&
        forall i, n :: 0 <= i < |events| && n in FieldNames ==>
          FieldValue(r.value[i], n) ==
            match LastValue(overrides, n) case Some(v) => Lift(v) case None => FieldValue(events[i], n)
  {
    var r := SetAttrs(overrides, events);
    if r.Ok? {
      forall i | 0 <= i < |events| ensures Override(events[i], overrides) == Ok(r.value[i]) {
      }
      forall i | 0 <= i < |events| {
        OverrideFields(events[i], overrides);
      }
    }
  }

  /** `SetAttr.process`: for every event, `setattr` of each override in turn. */
  method SetAttrProcess(overrides: Kwargs, events: seq<Event>) returns (r: Result<seq<Event>>)
    requires AllFields(overrides)
    ensures r == SetAttrs(overrides, events)
  {
    var out: seq<Event> := [];
    for i := 0 to |events|
      invariant |out| == i
      invariant forall k :: 0 <= k < i ==> OverrideEach(overrides)(events[k]) == Ok(out[k])
    {
      var e := OverrideOne(events[i], overrides);
      if e.Err? {
        MapRFirstErr(OverrideEach(overrides), events, i);
        return Err(e.error);
      }
      out := out + [e.value];
    }
    MapROk(OverrideEach(overrides), events, out);
    r := Ok(out);
  }

  /** The inner loop of `SetAttr.process`: the overrides of one event, in order. */
  method OverrideOne(e0: Event, overrides: Kwargs) returns (r: Result<Event>)
    requires AllFields(overrides)
    ensures r == Override(e0, overrides)
  {
    var e := e0;
    var j := 0;
    while j < |overrides|
      invariant 0 <= j <= |overrides|
      invariant Override(e0, overrides) == Override(e, overrides[j..])
    {
      assert overrides[j..][1..] == overrides[j + 1..];
      var s := SetField(e, overrides[j].0, overrides[j].1);
      if s.Err? {
        return Err(s.error);
      }
      e := s.value;
      j := j + 1;
    }
    r := Ok(e);
  }

  // ------------------------------------------------------------------ SkipByAttr

  /** One step of `getattr_by_path`: `dict.get` on a mapping (None when the key is
      absent), attribute access on anything else. */
  function GetAttr(v: PyVal, name: string): Result<PyVal> {
    match v
    case PDict(entries) => Ok(if name in entries then entries[name] else PNone)
    case PObject(attrs) =>
      if name !in attrs then Err(AttributeError(name))
      else if attrs[name].PRaising? then Err(attrs[name].error)
      else Ok(attrs[name])
    case _ => Err(AttributeError(name))
  }

  /** Following the path segments from `v`, left to right. */
  function PathFrom(v: PyVal, segments: seq<string>): Result<PyVal>
    decreases |segments|
  {
    if segments == [] then Ok(v)
    else
      var w :- GetAttr(v, segments[0]);
      PathFrom(w, segments[1..])
  }

  /** `getattr_by_path(value, path)`, with the path split at dots. */
  function PathValue(v: PyVal, path: string): Result<PyVal> {
    PathFrom(v, Split(path, '.'))
  }

  /** `getattr_by_path`: the loop that rebinds `value` at every segment of the path. */
  method GetAttrByPath(value: PyVal, path: string) returns (r: Result<PyVal>)
    ensures r == PathValue(value, path)
  {
    var segments := Split(path, '.');
    var v := value;
    var i := 0;
    while i < |segments|
      invariant 0 <= i <= |segments|
      invariant PathValue(value, path) == PathFrom(v, segments[i..])
    {
      assert segments[i..][1..] == segments[i + 1..];
      var next := GetAttr(v, segments[i]);
      if next.Err? {
        return Err(next.error);
      }
      v := next.value;
      i := i + 1;
    }
    r := Ok(v);
  }

  /** The path of `path1.path2` is the path of `path2` from wherever `path1` leads,
      when `path1` has no dot. */
  lemma PathDotted(v: PyVal, first: string, rest: string)
    requires '.' !in first
    ensures PathValue(v, first + "." + rest) ==
      match GetAttr(v, first) case Err(e) => Err(e) case Ok(w) => PathValue(w, rest)
  {
    SplitPrefix(first, rest, '.');
    SplitNoSep(first, '.');
    assert first + "." + rest == first + ['.'] + rest;
  }

  /** A key missing from a mapping reads as None, and a further segment then raises
      AttributeError. */
  lemma MissingKeyThenAttribute(entries: map<string, PyVal>, key: string, next: string, rest: seq<string>)
    requires key !in entries
    ensures PathFrom(PDict(entries), [key]) == Ok(PNone)
    ensures PathFrom(PDict(entries), [key, next] + rest) == Err(AttributeError(next))
  {
    assert ([key, next] + rest)[1..] == [next] + rest;
    assert ([next] + rest)[1..] == rest;
  }

  /** One criterion `(path, value)` holds: the path resolves to something equal to the value. */
  predicate Matches(obj: PyVal, c: (string, Value)) {
    PathValue(obj, c.0).Ok? && Equals(PathValue(obj, c.0).value, c.1)
  }

  /** `all(getattr_by_path(obj, path) == value for path, value in criteria)`, which
      stops at the first criterion that fails or raises. */
  function AllMatch(obj: PyVal, criteria: Kwargs): (r: Result<bool>)
    ensures r == Ok(true) <==> forall i :: 0 <= i < |criteria| ==> Matches(obj, criteria[i])
    ensures r.Err? ==>
      exists i :: 0 <= i < |criteria| && PathValue(obj, criteria[i].0) == Err(r.error) &&
        forall k :: 0 <= k < i ==> Matches(obj, criteria[k])
  {
    if criteria == [] then Ok(true)
    else
      match PathValue(obj, criteria[0].0)
      case Err(e) => Err(e)
      case Ok(p) =>
        if !Equals(p, criteria[0].1) then Ok(false)
        else
          var tail := criteria[1..];
          var rest := AllMatch(obj, tail);
          assert forall i :: 1 <= i < |criteria| ==> criteria[i] == tail[i - 1];
          if rest.Err? then
            var i :| 0 <= i < |tail| && PathValue(obj, tail[i].0) == Err(rest.error) &&
              forall k :: 0 <= k < i ==> Matches(obj, tail[k]);
            assert criteria[i + 1] == tail[i];
            rest
          else rest
  }

  function AttrKeep(criteria: Kwargs, e: Event): Result<bool> {
    match AllMatch(EventObject(e), criteria)
    case Err(err) => Err(err)
    case Ok(all) => Ok(!all)
  }

  function AttrKeepEach(criteria: Kwargs): Event -> Result<bool> {
    e => AttrKeep(criteria, e)
  }

  function SkipByAttrs(criteria: Kwargs, events: seq<Event>): Result<seq<Event>> {
    FilterR(AttrKeepEach(criteria), events)
  }

  /** An event some criterion does not match (the events SkipByAttr keeps). */
  function NotAllMatching(criteria: Kwargs): Event -> bool {
    e => AllMatch(EventObject(e), criteria) == Ok(false)
  }

  /** SkipByAttr drops exactly the events on which every criterion holds, keeping the
      others in order. */
  lemma SkipByAttrsCorrect(criteria: Kwargs, events: seq<Event>)
    requires SkipByAttrs(criteria, events).Ok?
    ensures var out := SkipByAttrs(criteria, events).value;
      out == Filter(NotAllMatching(criteria), events) && IsSubseq(out, events)
  {
    FilterROk(AttrKeepEach(criteria), NotAllMatching(criteria), events);
    FilterIsSubseq(NotAllMatching(criteria), events);
  }

  /** With no criteria, `all()` of nothing is true, so every event is dropped. */
  lemma SkipByAttrsEmpty(events: seq<Event>)
    ensures SkipByAttrs([], events) == Ok([])
  {
    var never: Event -> bool := e => false;
    FilterRIsFilter(AttrKeepEach([]), never, events);
    FilterNone(never, events);
  }

  // ----------------------------------------------------------------- SkipByTitle

  predicate AnyMatch(rx: Regex, patterns: seq<string>, title: string) {
    exists i :: 0 <= i < |patterns| && rx.matchesAtStart(patterns[i], title)
  }

  /** `not any(pattern.match(event.title) ...)`; matching None raises TypeError, which
      needs at least one pattern to happen. */
  function TitleKeep(rx: Regex, patterns: seq<string>, e: Event): Result<bool> {
    if patterns == [] then Ok(true)
    else
      match e.title
      case None => Err(TypeError("expected string or bytes-like object"))
      case Some(t) => Ok(!AnyMatch(rx, patterns, t))
  }

  function TitleKeepEach(rx: Regex, patterns: seq<string>): Event -> Result<bool> {
    e => TitleKeep(rx, patterns, e)
  }

  function SkipByTitles(rx: Regex, patterns: seq<string>, events: seq<Event>): Result<seq<Event>> {
    FilterR(TitleKeepEach(rx, patterns), events)
  }

  /** An event with a title that none of the patterns matches at its start. */
  function TitleMatchesNone(rx: Regex, patterns: seq<string>): Event -> bool {
    (e: Event) => e.title.Some? && !AnyMatch(rx, patterns, e.title.value)
  }

  /** SkipByTitle fails exactly when there are patterns and some event has no title. */
  lemma SkipByTitlesFails(rx: Regex, patterns: seq<string>, events: seq<Event>)
    ensures SkipByTitles(rx, patterns, events).Err? <==>
      patterns != [] && exists i :: 0 <= i < |events| && events[i].title.None?
  {
    var p := TitleKeepEach(rx, patterns);
    var r := SkipByTitles(rx, patterns, events);
    if r.Err? {
      var i :| 0 <= i < |events| && p(events[i]) == Err(r.error);
      assert events[i].title.None?;
    }
    if patterns != [] && exists i :: 0 <= i < |events| && events[i].title.None? {
      var i :| 0 <= i < |events| && events[i].title.None?;
      assert p(events[i]).Err?;
    }
  }

  /** Otherwise it keeps, in order, exactly the events whose title none of the
      patterns matches at its start. */
  lemma SkipByTitlesKeeps(rx: Regex, patterns: seq<string>, events: seq<Event>)
    requires patterns != []
    requires SkipByTitles(rx, patterns, events).Ok?
    ensures var out := SkipByTitles(rx, patterns, events).value;
      out == Filter(TitleMatchesNone(rx, patterns), events) && IsSubseq(out, events)
  {
    FilterROk(TitleKeepEach(rx, patterns), TitleMatchesNone(rx, patterns), events);
    FilterIsSubseq(TitleMatchesNone(rx, patterns), events);
  }

  /** An empty pattern list keeps every event. */
  lemma SkipByTitlesNoPatterns(rx: Regex, events: seq<Event>)
    ensures SkipByTitles(rx, [], events) == Ok(events)
  {
    var always: Event -> bool := e => true;
    FilterRIsFilter(TitleKeepEach(rx, []), always, events);
    FilterAll(always, events);
  }

  // -------------------------------------------------------------- SkipByAttendee

  /** An attendee that excludes the event: the configured email, and, when
      `confirmed`, an accepted invitation. */
  predicate Excludes(email: Value, confirmed: bool, a: Attendee) {
    Equals(PStr(a.email), email) && (!confirmed || a.status == Some(Accepted))
  }

  predicate AttendeeKeep(email: Value, confirmed: bool, e: Event) {
    !exists i :: 0 <= i < |e.attendees| && Excludes(email, confirmed, e.attendees[i])
  }

  function AttendeeKeepEach(email: Value, confirmed: bool): Event -> bool {
    e => AttendeeKeep(email, confirmed, e)
  }

  function SkipByAttendees(email: Value, confirmed: bool, events: seq<Event>): (r: seq<Event>)
    ensures forall i :: 0 <= i < |r| ==> AttendeeKeep(email, confirmed, r[i])
    ensures forall i :: 0 <= i < |events| && AttendeeKeep(email, confirmed, events[i]) ==> events[i] in r
  {
    Filter(AttendeeKeepEach(email, confirmed), events)
  }

  /** SkipByAttendee keeps an order-preserving subsequence, and requiring a confirmed
      attendee drops fewer events than not requiring one. */
  lemma SkipByAttendeesCorrect(email: Value, events: seq<Event>)
    ensures IsSubseq(SkipByAttendees(email, true, events), events)
    ensures IsSubseq(SkipByAttendees(email, false, events), SkipByAttendees(email, true, events))
  {
    FilterIsSubseq(AttendeeKeepEach(email, true), events);
    FilterMonotone(AttendeeKeepEach(email, false), AttendeeKeepEach(email, true), events);
  }

  // -------------------------------------------------------------- SkipByDuration

  /** `event.duration > min_duration`; the subtraction raises TypeError for an event
      that mixes a date and a date-time. */
  function DurationKeep(minDuration: int, e: Event): Result<bool> {
    match Duration(e)
    case None => Err(TypeError("unsupported operand type(s) for -"))
    case Some(d) => Ok(d > minDuration)
  }

  function DurationKeepEach(minDuration: int): Event -> Result<bool> {
    e => DurationKeep(minDuration, e)
  }

  function SkipByDurations(minDuration: int, events: seq<Event>): Result<seq<Event>> {
    FilterR(DurationKeepEach(minDuration), events)
  }

  /** An event of one kind whose end is more than `minDuration` seconds after its start. */
  function LongerThan(minDuration: int): Event -> bool {
    (e: Event) => SameKind(e.start, e.end) && Seconds(e.end) - Seconds(e.start) > minDuration
  }

  /** SkipByDuration keeps, in order, exactly the events strictly longer than the
      threshold, so one of exactly the threshold is dropped; it fails exactly when an
      event mixes a date and a date-time. */
  lemma SkipByDurationsCorrect(minDuration: int, events: seq<Event>)
    ensures var r := SkipByDurations(minDuration, events);
      (r.Err? <==> exists i :: 0 <= i < |events| && !SameKind(events[i].start, events[i].end)) &&
      (r.Ok? ==> r.value == Filter(LongerThan(minDuration), events) && IsSubseq(r.value, events))
  {
    var p := DurationKeepEach(minDuration);
    var r := SkipByDurations(minDuration, events);
    if r.Ok? {
      FilterROk(p, LongerThan(minDuration), events);
      FilterIsSubseq(LongerThan(minDuration), events);
    } else {
      var i :| 0 <= i < |events| && p(events[i]) == Err(r.error);
      assert !SameKind(events[i].start, events[i].end);
    }
  }

  /** An event lasting exactly the threshold is dropped. */
  lemma SkipByDurationBoundary(minDuration: int, e: Event)
    requires Duration(e) == Some(minDuration)
    ensures SkipByDurations(minDuration, [e]) == Ok([])
  {
    var p := DurationKeepEach(minDuration);
    assert [e][1..] == [];
    assert p(e) == Ok(false);
    assert FilterR(p, [e][1..]) == Ok([]);
  }

  // ---------------------------------------------------------------------- Apply

  /** `transform.process(events)`. */
  function Apply(rx: Regex, t: Transform, events: seq<Event>): Result<seq<Event>> {
    match t
    case ReplaceTitle(pattern, flags, repl) => ReplaceTitles(rx, pattern, flags, repl, events)
    case SetAttr(overrides) =>
      if AllFields(overrides) then SetAttrs(overrides, events)
      else Err(AssertionError(""))
    case SkipByAttr(criteria) => SkipByAttrs(criteria, events)
    case SkipByTitle(patterns) => SkipByTitles(rx, patterns, events)
    case SkipByAttendee(email, confirmed) => Ok(SkipByAttendees(email, confirmed, events))
    case SkipByDuration(minDuration) => SkipByDurations(minDuration, events)
    case Merge(elipsis) => MergeEvents(events, elipsis)
  }

  // ------------------------------------------------------------- Construction

  /** The registered transform classes. */
  datatype Kind = KReplaceTitle | KSetAttr | KSkipByAttr | KSkipByTitle | KSkipByAttendee | KSkipByDuration | KMerge

  /** `cls.__name__`, the registry key. */
  function ClassName(k: Kind): string {
    match k
    case KReplaceTitle => "ReplaceTitle"
    case KSetAttr => "SetAttr"
    case KSkipByAttr => "SkipByAttr"
    case KSkipByTitle => "SkipByTitle"
    case KSkipByAttendee => "SkipByAttendee"
    case KSkipByDuration => "SkipByDuration"
    case KMerge => "Merge"
  }

  /** The value of keyword `name`, if given. */
  function Lookup(kwargs: Kwargs, name: string): (r: Option<Value>)
    ensures r.None? <==> forall i :: 0 <= i < |kwargs| ==> kwargs[i].0 != name
    ensures r.Some? ==> exists i :: 0 <= i < |kwargs| && kwargs[i] == (name, r.value)
  {
    if kwargs == [] then None
    else if kwargs[0].0 == name then Some(kwargs[0].1)
    else
      var r := Lookup(kwargs[1..], name);
      assert forall i :: 1 <= i < |kwargs| ==> kwargs[i] == kwargs[1..][i - 1];
      r
  }

  /** The constructors that refuse an undeclared keyword. ReplaceTitle takes
      `**kwargs` but passes them on to `re.compile`, whose only other parameter is
      `flags`, so it refuses the same keywords as a fixed signature would. */
  predicate FixedSignature(k: Kind) {
    k != KSetAttr && k != KSkipByAttr
  }

  /** The keywords such a constructor accepts. */
  function Params(k: Kind): set<string>
    requires FixedSignature(k)
  {
    match k
    case KReplaceTitle => {"pattern", "repl", "flags"}
    case KSkipByTitle => {"titles"}
    case KSkipByAttendee => {"email", "confirmed"}
    case KSkipByDuration => {"min_duration"}
    case KMerge => {"elipsis"}
  }

  /** Python's binding of keyword arguments to a constructor without `**kwargs`:
      a keyword it does not declare, or a required one that is absent, is a TypeError. */
  function Bind(kwargs: Kwargs, params: set<string>, required: set<string>): (r: Result<()>)
    ensures r.Ok? <==>
      (forall i :: 0 <= i < |kwargs| ==> kwargs[i].0 in params) &&
      (forall n :: n in required ==> Lookup(kwargs, n).Some?)
  {
    if exists i :: 0 <= i < |kwargs| && kwargs[i].0 !in params then
      Err(TypeError("got an unexpected keyword argument"))
    else if exists n :: n in required && Lookup(kwargs, n).None? then
      Err(TypeError("missing a required argument"))
    else Ok(())
  }

  /** The `flags` argument of `re.compile`: an int (a bool is one); a string fails
      when the flags are tested. */
  function FlagsOf(v: Value): Result<int> {
    match v
    case VInt(i) => Ok(i)
    case VBool(b) => Ok(IntOfBool(b))
    case VStr(_) => Err(TypeError("unsupported operand type(s) for &"))
  }

  /** `re.compile` of every pattern in order, without flags. */
  function CompileAll(rx: Regex, patterns: seq<string>): (r: Result<()>)
    ensures r.Ok? <==> forall i :: 0 <= i < |patterns| ==> rx.compiles(patterns[i], 0)
  {
    if patterns == [] then Ok(())
    else if !rx.compiles(patterns[0], 0) then Err(RegexError(patterns[0]))
    else
      assert forall i :: 1 <= i < |patterns| ==> patterns[i] == patterns[1..][i - 1];
      CompileAll(rx, patterns[1..])
  }

  /** Iterating a string yields its characters, each a one-character pattern. */
  function Characters(s: string): (r: seq<string>)
    ensures |r| == |s| && forall i :: 0 <= i < |s| ==> r[i] == [s[i]]
  {
    seq(|s|, i requires 0 <= i < |s| => [s[i]])
  }

  /** `interpret_human_timedelta(v)`, which needs a string. */
  function InterpretValue(v: Value): Result<int> {
    match v
    case VStr(s) => ParseDuration(s)
    case _ => Err(TypeError("expected string or bytes-like object"))
  }

  /** `TRANSFORMERS[type](**kwargs)`: each constructor's binding and checks. Every
      `__init__` binds `self` positionally, so a `self` keyword is a TypeError even
      where `**kwargs` would take any other name. */
  function Construct(rx: Regex, k: Kind, kwargs: Kwargs): Result<Transform> {
    if Lookup(kwargs, "self").Some? then Err(SelfTwice)
    else match k
    case KReplaceTitle =>
      var _ :- Bind(kwargs, Params(KReplaceTitle), {});
      var pattern := Lookup(kwargs, "pattern").GetOr(VStr(DefaultPattern));
      var repl := Lookup(kwargs, "repl").GetOr(VStr(DefaultRepl));
      if !pattern.VStr? then Err(TypeError("first argument must be string or compiled pattern"))
      else
        var flags :- FlagsOf(Lookup(kwargs, "flags").GetOr(VInt(0)));
        if !rx.compiles(pattern.s, flags) then Err(RegexError(pattern.s))
        else Ok(ReplaceTitle(pattern.s, flags, repl))
    case KSetAttr =>
      if AllFields(kwargs) then Ok(SetAttr(kwargs)) else Err(AssertionError(""))
    case KSkipByAttr =>
      Ok(SkipByAttr(kwargs))
    case KSkipByTitle =>
      var _ :- Bind(kwargs, Params(KSkipByTitle), {"titles"});
      var titles := Lookup(kwargs, "titles").value;
      if !titles.VStr? then Err(TypeError("object is not iterable"))
      else
        var _ :- CompileAll(rx, Characters(titles.s));
        Ok(SkipByTitle(Characters(titles.s)))
    case KSkipByAttendee =>
      var _ :- Bind(kwargs, Params(KSkipByAttendee), {"email"});
      Ok(SkipByAttendee(Lookup(kwargs, "email").value, Truthy(Lookup(kwargs, "confirmed").GetOr(VBool(false)))))
    case KSkipByDuration =>
      var _ :- Bind(kwargs, Params(KSkipByDuration), {"min_duration"});
      var d :- InterpretValue(Lookup(kwargs, "min_duration").value);
      Ok(SkipByDuration(d))
    case KMerge =>
      var _ :- Bind(kwargs, Params(KMerge), {});
      var v := Lookup(kwargs, "elipsis");
      if v.None? || !Truthy(v.value) then Ok(Merge(0))
      else
        var d :- InterpretValue(v.value);
        Ok(Merge(d))
  }

  /** With no arguments ReplaceTitle uses the pattern `^.*$` and the replacement `n/a`. */
  lemma ReplaceTitleDefaults(rx: Regex)
    requires rx.compiles(DefaultPattern, 0)
    ensures Construct(rx, KReplaceTitle, []) == Ok(ReplaceTitle(DefaultPattern, 0, VStr(DefaultRepl)))
  {
  }

  /** SetAttr is constructed exactly when every keyword names an Event field, and then
      keeps the overrides as given. */
  lemma SetAttrConstruct(rx: Regex, kwargs: Kwargs)
    ensures Construct(rx, KSetAttr, kwargs).Ok? <==> forall i :: 0 <= i < |kwargs| ==> kwargs[i].0 in FieldNames
    ensures Construct(rx, KSetAttr, kwargs).Ok? ==> Construct(rx, KSetAttr, kwargs) == Ok(SetAttr(kwargs))
  {
  }

  /** A missing or falsy `elipsis` means no tolerance; a truthy string is parsed. */
  lemma MergeElipsis(rx: Regex, v: Value)
    ensures Construct(rx, KMerge, []) == Ok(Merge(0))
    ensures !Truthy(v) ==> Construct(rx, KMerge, [("elipsis", v)]) == Ok(Merge(0))
    ensures Truthy(v) && v.VStr? ==>
      Construct(rx, KMerge, [("elipsis", v)]) ==
        match ParseDuration(v.s) case Ok(d) => Ok(Merge(d)) case Err(e) => Err(e)
  {
    assert Lookup([("elipsis", v)], "elipsis") == Some(v);
  }

  /** SkipByDuration stores the parsed threshold in seconds. */
  lemma SkipByDurationConstruct(rx: Regex, s: string)
    ensures Construct(rx, KSkipByDuration, [("min_duration", VStr(s))]) ==
      match ParseDuration(s) case Ok(d) => Ok(SkipByDuration(d)) case Err(e) => Err(e)
  {
    assert Lookup([("min_duration", VStr(s))], "min_duration") == Some(VStr(s));
  }

  /** SkipByTitle iterates its `titles` argument, and a configured string is iterated
      character by character, each character becoming a pattern. */
  lemma SkipByTitleConstruct(rx: Regex, s: string)
    requires forall i :: 0 <= i < |s| ==> rx.compiles([s[i]], 0)
    ensures Construct(rx, KSkipByTitle, [("titles", VStr(s))]) == Ok(SkipByTitle(Characters(s)))
  {
    assert Lookup([("titles", VStr(s))], "titles") == Some(VStr(s));
  }

  /** A constructor with a fixed signature refuses a keyword it does not declare
      itself. */
  lemma UnknownKeyword(rx: Regex, k: Kind, kwargs: Kwargs, i: nat)
    requires FixedSignature(k)
    requires i < |kwargs| && kwargs[i].0 !in Params(k)
    ensures Construct(rx, k, kwargs).Err? && Construct(rx, k, kwargs).error.TypeError?
  {
  }

  const SelfTwice := TypeError("got multiple values for argument 'self'")

  /** No constructor, not even SetAttr's or SkipByAttr's `**kwargs`, takes a keyword
      named `self`. */
  lemma SelfKeyword(rx: Regex, k: Kind, kwargs: Kwargs, i: nat)
    requires i < |kwargs| && kwargs[i].0 == "self"
    ensures Construct(rx, k, kwargs) == Err(SelfTwice)
  {
  }

  // ----------------------------------------------------------------- Registry

  /** The global `TRANSFORMERS` dict and `register`. */
  class Registry {
    var transformers: map<string, Kind>

    constructor ()
      ensures transformers == map[]
    {
      transformers := map[];
    }

    /** `register(cls)`: keys the class by its name; registering a name already
        present fails the assertion and leaves the registry unchanged. */
    method Register(k: Kind) returns (r: Result<()>)
      modifies this
      ensures ClassName(k) in old(transformers) ==>
        r == Err(AssertionError(ClassName(k))) && transformers == old(transformers)
      ensures ClassName(k) !in old(transformers) ==>
        r == Ok(()) && transformers == old(transformers)[ClassName(k) := k]
    {
      var name := ClassName(k);
      if name in transformers {
        return Err(AssertionError(name));
      }
      transformers := transformers[name := k];
      r := Ok(());
    }

    /** `TRANSFORMERS[name]`. */
    function Get(name: string): (r: Result<Kind>)
      reads this
      ensures r.Ok? <==> name in transformers
      ensures r.Ok? ==> r.value == transformers[name]
      ensures r.Err? ==> r.error == KeyError(name)
    {
      if name in transformers then Ok(transformers[name]) else Err(KeyError(name))
    }
  }

  /** The registry once the module is imported: every class under its own name. */
  function Catalogue(): (m: map<string, Kind>)
    ensures forall k :: ClassName(k) in m && m[ClassName(k)] == k
    ensures forall name :: name in m ==> ClassName(m[name]) == name
  {
    map[
      "ReplaceTitle" := KReplaceTitle, "SetAttr" := KSetAttr, "SkipByAttr" := KSkipByAttr,
      "SkipByTitle" := KSkipByTitle, "SkipByAttendee" := KSkipByAttendee,
      "SkipByDuration" := KSkipByDuration, "Merge" := KMerge]
  }

  /** Importing the module: the seven `@register` decorations in source order, each
      of which succeeds because the class names are distinct. */
  method LoadCatalogue() returns (reg: Registry)
    ensures fresh(reg)
    ensures reg.transformers == Catalogue()
  {
    reg := new Registry();
    var r: Result<()>;
    assert ClassName(KReplaceTitle) !in reg.transformers;
    r := reg.Register(KReplaceTitle);
    assert ClassName(KSetAttr) !in reg.transformers;
    r := reg.Register(KSetAttr);
    assert ClassName(KSkipByAttr) !in reg.transformers;
    r := reg.Register(KSkipByAttr);
    assert ClassName(KSkipByTitle) !in reg.transformers;
    r := reg.Register(KSkipByTitle);
    assert ClassName(KSkipByAttendee) !in reg.transformers;
    r := reg.Register(KSkipByAttendee);
    assert ClassName(KSkipByDuration) !in reg.transformers;
    r := reg.Register(KSkipByDuration);
    assert ClassName(KMerge) !in reg.transformers;
    r := reg.Register(KMerge);
  }
}

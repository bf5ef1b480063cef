# polycal event pipeline, modelled and verified in Dafny

polycal copies events from several source calendars into one target calendar. Each
source's events run through a configurable chain of transforms. The chain can rename
events, override fields, drop events by attribute, title, attendee or duration, and merge
overlapping events with the same title. The results of all sources are then reconciled
with the events already in the target. Changed or new events are re-stamped and
imported. Every target event that no source produced any more is tombstoned and deleted.

The model follows the program's modules:

- `types.dfy` (`Types`): the `Event` record with its defaults, the uid length bound,
  and the `duration` property. A start or end is a tagged `Moment`, either a day number
  or absolute seconds.
- `values.dfy`, `fields.dfy` (`PyValues`, `Fields`): Python values as the dynamic parts
  of the transforms see them. This covers keyword values (`bool | int | str`), the
  results of attribute access, Python's `==` (where `True == 1`), and typed field
  assignment.
- `timedelta.dfy` (`HumanTimedelta`): `interpret_human_timedelta`.
- `merge.dfy` (`Merging`): `Merge.process`. It is a stable sort by day, then a fold of
  the events into per-title buckets in which a survivor absorbs overlapping timed
  events, then a second sort. `MergeProcess` is the loop itself, proved equal to the
  fold.
- `transforms.dfy` (`Transforms`): the other six transforms, their constructors
  (keyword binding, defaults and checks), and the registry. The registry is a `class`
  whose `Register` updates the name-to-class map in place.
- `reconcile.dfy` (`Reconcile`): `sync_to_target` and the content hash. The uid index
  is a dict with insertion order. `SyncToTarget` is the three loops of the source,
  proved equal to a fold whose properties are lemmas.
- `gcal.dfy` (`GoogleCalendar`): date conversion, owner e-mails, and the declined
  filter of `list_events`. It also covers record↔Event translation and the planning
  loop of `sync_events`, which returns the import and delete requests.
- `processor.dfy` (`Processor`): `process_source` and `process`.
- `wrappers.dfy`, `seqs.dfy`: `Option`/`Result` and generic sequence lemmas.

Python exceptions are `Err` values of `Result`. The exception classes are KeyError,
AttributeError, TypeError, ValueError, OverflowError, AssertionError, a regex error
(a refused pattern or replacement template), and pydantic's validation error. The
modelled error paths are results, not preconditions. This includes the limits of
Python's built-ins: `int()`'s digit limit, `timedelta`'s range, `datetime.min` and a
`self` keyword. The error paths the model does not carry are listed under "## Left out".

Some behaviours of the code are easy to misread; the model follows the code in each:

- SkipByAttr drops an event when every criterion matches. So an empty criteria set
  drops every event.
- SkipByTitle and SkipByAttendee drop the events that match and keep the rest.
- SkipByTitle iterates its `titles` argument, which its signature annotates as
  `list[str]` (src/polycal/transforms.py:85). Configuration values can only be `bool`,
  `int` or `str`, so a configured string becomes one pattern per character.
- `interpret_human_timedelta` matches only a prefix, so `"1d2h"` is one day and not an
  error.
- `sync_events` skips the source ids imported earlier in the batch. It does not skip ids
  already deleted.

## Model

| member | source | states |
|---|---|---|
| Types.Validate | src/polycal/types.py:8 | an Event is accepted exactly when its uid has at most 255 characters; otherwise it is refused with a validation error on `iCalUID` |
| Types.EventDefaults | src/polycal/types.py:9-17 | an Event built from its required fields has sequence 0, no title, description or location, is not deleted and is busy |
| Types.Duration | src/polycal/types.py:19-21 | the duration exists exactly when start and end are of the same kind, and then start plus duration is the end |
| Types.DayOf | src/polycal/transforms.py:142-143 | the sort key is the calendar day containing the moment |
| Fields.DurationValue | src/polycal/types.py:19-21 | the `duration` attribute is a timedelta exactly when the kinds agree, and spans from start to end |
| Fields.EventObject | src/polycal/types.py:7-21 | an Event seen by attribute access has every declared field with its value, plus `duration` |
| Fields.SetField | src/polycal/transforms.py:52-53 | assigning a field gives that field the value; an ill-typed value is refused, naming the field |
| Fields.SetFieldOthers | src/polycal/transforms.py:52-53 | assigning a field leaves every other field unchanged |
| Fields.SetFieldFits | src/polycal/transforms.py:52-53 | assignment succeeds exactly when the value has the field's type |
| PyValues.Equals | src/polycal/transforms.py:66-69 | a value equals a keyword value only if it is a bool, int or str, and every value equals itself |
| HumanTimedelta.DigitRun | src/polycal/transforms.py:178-181 | the greedy `\d+` takes the longest run of digits at the start |
| HumanTimedelta.ParseDuration | src/polycal/transforms.py:178-192 | "Invalid timedelta" exactly when the string does not start with a digit; `int()`'s ValueError exactly when the leading digits number more than 4300; otherwise the result is non-negative and within timedelta's range |
| HumanTimedelta.Timedelta | src/polycal/transforms.py:183-190 | `timedelta(seconds=…)` keeps the seconds exactly when they are within 999999999 days, and is OverflowError otherwise |
| HumanTimedelta.DecimalValueShow | src/polycal/transforms.py:184 | `int()` of the decimal spelling of n is n |
| HumanTimedelta.DecimalValueLeadingZero | src/polycal/transforms.py:184 | a leading zero does not change the value of `int()` |
| HumanTimedelta.ParseWithSuffix | src/polycal/transforms.py:179-190 | any run of digits followed by unit d, h, m or s, whatever follows: more than 4300 digits is `int()`'s ValueError; otherwise beyond timedelta's range is OverflowError; otherwise it is the value times 86400, 3600, 60 or 1 |
| HumanTimedelta.ParseWithoutSuffix | src/polycal/transforms.py:179-190 | any run of digits with no unit, whatever non-digit, non-unit text follows: more than 4300 digits is `int()`'s ValueError; otherwise beyond timedelta's range is OverflowError; otherwise it is the value in seconds |
| HumanTimedelta.ShowFits | src/polycal/transforms.py:183-190 | a number whose seconds fit timedelta's range is spelt within `int()`'s 4300-digit limit |
| HumanTimedelta.ParseShowWithSuffix | src/polycal/transforms.py:179-190 | n followed by unit d, h, m or s is n times 86400, 3600, 60 or 1, whatever follows |
| HumanTimedelta.ParseShowWithoutSuffix | src/polycal/transforms.py:179-190 | n with no unit is n seconds, whatever non-digit, non-unit text follows |
| HumanTimedelta.DocumentedValues | src/polycal/transforms.py:170-175 | "5d" is 432000 s, "1h" is 3600 s, "15m" is 900 s |
| HumanTimedelta.LeadingZeros | src/polycal/transforms.py:178-192 | "007d" is seven days |
| HumanTimedelta.EdgeCases | src/polycal/transforms.py:178-192 | "90" is 90 s, "1d2h" is one day, "d5" is a ValueError |
| Transforms.Retitle | src/polycal/transforms.py:36-38 | the new title is the substitution over `title or ""` and everything else is unchanged; a non-string replacement is a TypeError and a template the substitution refuses is a regex error |
| Transforms.ReplaceTitlesCorrect | src/polycal/transforms.py:33-38 | ReplaceTitle keeps the number and order of events and every field but the title; it succeeds exactly when there are no events, or the replacement is a string whose template every title's substitution accepts, and otherwise fails with the TypeError or the regex error |
| Transforms.TemplateRefused | src/polycal/transforms.py:36-37 | a replacement template the substitution refuses fails ReplaceTitle with a regex error on the first event |
| Transforms.ReplaceTitleProcess | src/polycal/transforms.py:33-38 | the loop computes ReplaceTitle's result |
| Transforms.ReplaceTitleDefaults | src/polycal/transforms.py:29-31 | with no arguments the pattern is `^.*$`, the replacement `n/a` and the flags 0 |
| Transforms.LastValue | src/polycal/transforms.py:52-53 | a field has no override exactly when no keyword names it |
| Transforms.OverrideFields | src/polycal/transforms.py:51-54 | overriding succeeds exactly when every value fits its field, and then each field holds its last given value and the other fields are unchanged |
| Transforms.SetAttrsCorrect | src/polycal/transforms.py:48-54 | SetAttr keeps the events' number and order and applies the overrides to each |
| Transforms.SetAttrProcess | src/polycal/transforms.py:48-54 | the nested loop computes SetAttr's result |
| Transforms.OverrideOne | src/polycal/transforms.py:50-53 | the inner loop applies one event's overrides in order and stops at the first that fails |
| Transforms.SetAttrConstruct | src/polycal/transforms.py:43-46 | SetAttr is constructed exactly when every keyword names an Event field |
| Transforms.GetAttrByPath | src/polycal/transforms.py:72-80 | the loop follows the dotted path segment by segment |
| Transforms.PathDotted | src/polycal/transforms.py:73-80 | a dotted path is its first segment's lookup followed by the rest, or that lookup's error |
| Transforms.MissingKeyThenAttribute | src/polycal/transforms.py:76-79 | a missing dict key gives None, and a further segment on None is an AttributeError |
| Transforms.AllMatch | src/polycal/transforms.py:66-69 | true exactly when every path resolves and equals its value; an error is the first criterion's that raised after only matching ones |
| Transforms.SkipByAttrsCorrect | src/polycal/transforms.py:62-70 | SkipByAttr keeps, in order, exactly the events on which some criterion fails to match |
| Transforms.SkipByAttrsEmpty | src/polycal/transforms.py:66-70 | with no criteria every event is dropped |
| Transforms.SkipByTitlesFails | src/polycal/transforms.py:88-93 | SkipByTitle fails exactly when there are patterns and some event has no title |
| Transforms.SkipByTitlesKeeps | src/polycal/transforms.py:88-93 | it keeps, in order, exactly the events whose title no pattern matches at its start |
| Transforms.SkipByTitlesNoPatterns | src/polycal/transforms.py:92 | with no patterns every event is kept |
| Transforms.SkipByTitleConstruct | src/polycal/transforms.py:85-86 | a configured string becomes one pattern per character |
| Transforms.CompileAll | src/polycal/transforms.py:86 | construction succeeds exactly when every pattern compiles |
| Transforms.Characters | src/polycal/transforms.py:86 | iterating a string gives its characters in order |
| Transforms.SkipByAttendees | src/polycal/transforms.py:102-111 | SkipByAttendee keeps exactly the events with no attendee that has the e-mail and, when confirmed, the accepted status |
| Transforms.SkipByAttendeesCorrect | src/polycal/transforms.py:105-111 | the result is an ordered subsequence, and confirmed=false keeps a subsequence of what confirmed=true keeps |
| Transforms.SkipByDurationsCorrect | src/polycal/transforms.py:119-124 | SkipByDuration keeps, in order, exactly the events strictly longer than the threshold, and fails exactly when an event mixes a date and a date-time |
| Transforms.SkipByDurationBoundary | src/polycal/transforms.py:123 | an event exactly as long as the threshold is dropped |
| Transforms.SkipByDurationConstruct | src/polycal/transforms.py:116-117 | the stored threshold is the parsed duration, or its parse error |
| Transforms.MergeElipsis | src/polycal/transforms.py:131-135 | a missing or falsy `elipsis` means 0 and a truthy string is parsed |
| Transforms.Lookup | src/polycal/services/calprocessor.py:59 | a keyword's value is found exactly when some keyword has that name |
| Transforms.Bind | src/polycal/transforms.py:85-131 | binding succeeds exactly when every keyword is a parameter and every required one is given |
| Transforms.UnknownKeyword | src/polycal/transforms.py:28-131 | SkipByTitle, SkipByAttendee, SkipByDuration and Merge refuse, with TypeError, any keyword outside their own parameters; so does ReplaceTitle, whose extra keywords `re.compile` accepts only as `flags` |
| Transforms.SelfKeyword | src/polycal/transforms.py:28-131 | every constructor, including SetAttr's and SkipByAttr's `**kwargs`, refuses a keyword named `self` with TypeError, because each `__init__` binds `self` positionally |
| Transforms.Registry.constructor | src/polycal/transforms.py:18 | the registry starts empty |
| Transforms.Registry.Register | src/polycal/transforms.py:21-24 | a new class name is added under its name; a name already present fails and leaves the registry unchanged |
| Transforms.Registry.Get | src/polycal/services/calprocessor.py:59 | a lookup finds the registered class, or raises KeyError on the name |
| Transforms.Catalogue | src/polycal/transforms.py:27-128 | every class is registered under its own name and every name maps to the class of that name |
| Transforms.LoadCatalogue | src/polycal/transforms.py:27-128 | the seven registrations, in source order, produce that catalogue |
| Merging.InsertByDaySorted | src/polycal/transforms.py:145 | stable insertion by day keeps a sorted list sorted |
| Merging.SortByDayCorrect | src/polycal/transforms.py:145 | the sort by day is sorted |
| Merging.SortByDayPermutes | src/polycal/transforms.py:145 | the sort by day is a permutation of its input |
| Merging.InsertByDayOnDay | src/polycal/transforms.py:145 | insertion puts an event in front of the events of its own day and leaves the other days' events as they were |
| Merging.SortByDayStable | src/polycal/transforms.py:145 | the sort is stable: the events of each calendar day keep their input order |
| Merging.Absorb | src/polycal/transforms.py:147-156 | a survivor absorbs an event only if both are timed and the event starts within the survivor's span extended by `elipsis`; the survivor then takes the later end; OverflowError exactly when both are timed, the survivor starts no later and `event.start - elipsis` is before 0001-01-01; a date compared with a date-time raises TypeError |
| Merging.InsertFromCases | src/polycal/transforms.py:147-158 | an event is either appended to its bucket after no survivor absorbed it, or absorbed by the first survivor that does |
| Merging.FoldValid | src/polycal/transforms.py:145-158 | throughout the loop the buckets are keyed by title, never hold more events than seen, and hold a sub-multiset of them |
| Merging.FoldErr | src/polycal/transforms.py:145-158 | an error ends the loop with that error |
| Merging.MergeProcess | src/polycal/transforms.py:137-164 | the loop with its buckets computes the merge |
| Merging.InsertInto | src/polycal/transforms.py:147-158 | the for/else loop over a bucket: the first survivor that absorbs the event takes its end, otherwise the event is appended, and a failed comparison is the error |
| Merging.MergeEventsResult | src/polycal/transforms.py:137-164 | the output is sorted by day, never longer than the input, and apart from ends a sub-multiset of it |
| Merging.InsertFromCovers | src/polycal/transforms.py:147-158 | one insertion keeps every survivor in its place, at most with a later end, and leaves a survivor that stands for the new event |
| Merging.StepCovers | src/polycal/transforms.py:145-158 | one loop iteration keeps every earlier event stood for and adds the new one |
| Merging.FoldCovers | src/polycal/transforms.py:145-158 | after the loop every event is stood for by a survivor in its title's bucket |
| Merging.MergeCovers | src/polycal/transforms.py:137-164 | every input event is in the output, or was absorbed by an output survivor of the same title, both timed, that starts no later and ends no earlier |
| Merging.MergeKeepsDates | src/polycal/transforms.py:148-150 | only timed events are absorbed: an event starting on a date is in the output unchanged |
| Merging.StandupExample | src/polycal/transforms.py:137-164 | two overlapping stand-ups, 10:00-10:15 and 10:10-10:30, become one stand-up from 10:00 to 10:30 |
| Reconcile.HashIgnoresBookkeeping | src/polycal/services/calprocessor.py:96-103 | events differing only in sequence and source ids hash equal |
| Reconcile.IndexOfKeys | src/polycal/services/calprocessor.py:75-80 | the index holds exactly the uids of the existing events |
| Reconcile.IndexOfLastWins | src/polycal/services/calprocessor.py:75-80 | each uid maps to the last existing event with that uid |
| Reconcile.PendingAfter | src/polycal/services/calprocessor.py:82-83 | after the new events, the events still to remove are those whose uid no new event had |
| Reconcile.UpdatedAfter | src/polycal/services/calprocessor.py:82-86 | the updated list holds exactly, in input order, the new events that were unmatched, matched an already taken uid, or changed hash, each stamped `now` |
| Reconcile.MarkDeleted | src/polycal/services/calprocessor.py:88-89 | every leftover event, in dict order, is marked deleted |
| Reconcile.SyncToTarget | src/polycal/services/calprocessor.py:69-93 | the three loops compute the batch |
| Reconcile.UpdatesStamped | src/polycal/services/calprocessor.py:84-86 | no more updates than new events, each stamped `now` |
| Reconcile.TombstonesCorrect | src/polycal/services/calprocessor.py:83-89 | the tombstones are exactly the unmatched existing uids, once each, all deleted |
| Reconcile.BatchOrder | src/polycal/services/calprocessor.py:90-93 | the batch is the updated events in input order followed by deleted events only |
| Reconcile.Idempotent | src/polycal/services/calprocessor.py:75-93 | new events with distinct uids, exactly the existing ones, and equal hashes give an empty batch |
| Reconcile.NoneEmitted | src/polycal/services/calprocessor.py:83-84 | under those conditions no new event is emitted |
| Reconcile.SyncSelfIsEmpty | src/polycal/services/calprocessor.py:75-93 | syncing the target's own distinct events back gives an empty batch |
| GoogleCalendar.Key | src/polycal/services/gcal.py:195-204 | indexing a record gives the value or KeyError on that key |
| GoogleCalendar.FromGoogleCalDate | src/polycal/services/gcal.py:58-62 | a date-time is preferred, then a date, and neither is KeyError on "date" |
| GoogleCalendar.ToGoogleCalDate | src/polycal/services/gcal.py:65-68 | the record has "dateTime" exactly for a date-time and "date" exactly for a date |
| GoogleCalendar.DateRoundTrip | src/polycal/services/gcal.py:58-68 | a moment survives conversion to a record and back, kind included |
| GoogleCalendar.DateRoundTripBack | src/polycal/services/gcal.py:58-68 | a record with exactly one of the keys survives conversion to a moment and back |
| GoogleCalendar.OwnerEmails | src/polycal/services/gcal.py:146-149 | the owner is the calendar id itself exactly when it contains "@" and does not end in "calendar.google.com"; there is no other owner |
| GoogleCalendar.ListEvents | src/polycal/services/gcal.py:163-192 | the loop computes the listing |
| GoogleCalendar.TranslateKept | src/polycal/services/gcal.py:185-192 | the loop skips the records the test drops and translates the others in order, stopping at the first failed translation |
| GoogleCalendar.ListedCorrect | src/polycal/services/gcal.py:185-192 | the listing fails exactly when a record no owner declined fails to translate; otherwise it holds, in order, the translations of exactly the records no owner declined |
| GoogleCalendar.NoOwnerKeepsAll | src/polycal/services/gcal.py:185-190 | a resource calendar drops nothing |
| GoogleCalendar.ToEvent | src/polycal/services/gcal.py:194-214 | every translated uid ends in "@polycal" |
| GoogleCalendar.ToEventFields | src/polycal/services/gcal.py:194-214 | translation succeeds exactly when uid, id, both times and every attendee e-mail are present and the uid fits. Then the uid is the backend uid if it ends in "@polycal", else id + "@polycal". Source ids are [id] and sequence defaults to 0. Deleted holds iff the status is "cancelled", busy iff the transparency (default "opaque") is "opaque", and the other fields are copied |
| GoogleCalendar.ToEventMissingKeys | src/polycal/services/gcal.py:195-200 | a missing uid is reported first, then a missing id |
| GoogleCalendar.ToGEvent | src/polycal/services/gcal.py:216-227 | the record carries no id, the uid and sequence, "cancelled" iff deleted, and "opaque" iff busy |
| GoogleCalendar.EventRoundTrip | src/polycal/services/gcal.py:194-227 | once an id is assigned, an Event with an "@polycal" uid translates back to itself, with source ids [id] and description and attendees reset |
| GoogleCalendar.ForeignUidRoundTrip | src/polycal/services/gcal.py:194-227 | a foreign uid comes back as id + "@polycal", everything else as in the round trip |
| GoogleCalendar.NoIdNoEvent | src/polycal/services/gcal.py:200 | a record built from an Event cannot be read back before it has an id |
| GoogleCalendar.Fresh | src/polycal/services/gcal.py:240 | the ids to delete are `set(source_ids) - updated`, each once |
| GoogleCalendar.DeleteOps | src/polycal/services/gcal.py:240-249 | one delete request per id, in order |
| GoogleCalendar.SyncEvents | src/polycal/services/gcal.py:229-258 | the outer loop computes the planned requests |
| GoogleCalendar.DeleteUnimported | src/polycal/services/gcal.py:240-248 | the inner loop requests one delete per distinct source id not imported earlier |
| GoogleCalendar.FreshFromProps | src/polycal/services/gcal.py:240 | walking the ids marks all of them seen and keeps, once each, exactly those not skipped |
| GoogleCalendar.PlanUpdated | src/polycal/services/gcal.py:237-257 | the ids marked imported are exactly the source ids of the live events so far |
| GoogleCalendar.PlanContribution | src/polycal/services/gcal.py:238-257 | a live event adds one import; a deleted one adds one delete per distinct source id no earlier live event imported |
| GoogleCalendar.PlanCounts | src/polycal/services/gcal.py:238-257 | there is one import per live event and every request addresses the calendar |
| GoogleCalendar.PlanImportCount | src/polycal/services/gcal.py:249-256 | the number of imports is the number of live events |
| GoogleCalendar.PlanTargets | src/polycal/services/gcal.py:239-256 | every request addresses the calendar being synced |
| GoogleCalendar.PlanImportsFrom | src/polycal/services/gcal.py:250-256 | every import carries the record of a live event of the batch |
| GoogleCalendar.PlanAllLive | src/polycal/services/gcal.py:250-257 | without tombstones the requests are exactly the imports of the events, in order |
| Processor.ProcessSource | src/polycal/services/calprocessor.py:55-67 | builds all transforms, lists the source and applies the transforms in order |
| Processor.BuildTransforms | src/polycal/services/calprocessor.py:58-61 | the transforms are looked up and constructed in configuration order, the first failure ending the build |
| Processor.RunChain | src/polycal/services/calprocessor.py:65-66 | each transform is applied to the previous one's output |
| Processor.BuildStopsAt | src/polycal/services/calprocessor.py:58-61 | the first transform that cannot be built fails the source with its error |
| Processor.UnknownTransform | src/polycal/services/calprocessor.py:58-61 | an unregistered type name fails the source with KeyError on that name |
| Processor.ChainStopsAt | src/polycal/services/calprocessor.py:65-66 | a failing transform ends the chain with its error |
| Processor.ChainAppend | src/polycal/services/calprocessor.py:65-66 | the chain of `a + b` is the chain of `b` applied to the output of `a` |
| Processor.ChainOne | src/polycal/services/calprocessor.py:65-66 | a chain of one transform is that transform |
| Processor.ConcatAppend | src/polycal/services/calprocessor.py:49-52 | chaining two groups of streams gives the first group's events followed by the second's, failing if either fails |
| Processor.ConcatStopsAt | src/polycal/services/calprocessor.py:49-52 | a failing stream ends the chain with its error |
| Processor.AllSourcesAppend | src/polycal/services/calprocessor.py:49-52 | the sources' events are concatenated in configuration order |
| Processor.AllSourcesOne | src/polycal/services/calprocessor.py:49-52 | one source contributes exactly its own events |
| Processor.ProcessSources | src/polycal/services/calprocessor.py:49-52 | draining the chained sources computes their concatenation |
| Processor.Process | src/polycal/services/calprocessor.py:48-53 | lists the target, processes the sources, reconciles and plans the batch |
| Processor.ImportsStamped | src/polycal/services/calprocessor.py:48-93 | every request of a run addresses the target, and every imported event carries the run's clock reading |
| Processor.RerunPlansNothing | src/polycal/services/calprocessor.py:48-93 | when the sources reproduce the target's distinct events, a run plans no request |

## Left out

- Credentials, the Google API client, paginated fetching and the execution of the
  batch are I/O. A calendar's listing is a given list of records (`Processor.Backend`),
  and `sync_events` returns its requests instead of sending them.
- The regex engine, the JSON/blake2s/base85 content hash and the wall clock are
  parameters. They are a `Regex` record of compile, substitute and prefix-match
  functions, a `Hasher`, and `now`.
- Processor.Process: reads the clock once per run. The source calls `time.time()`
  once per updated event.
- HumanTimedelta.DigitRun: takes only the ASCII digits 0-9. Python's `\d` in a str
  pattern, and `int()`, also accept every other Unicode decimal digit, so
  `interpret_human_timedelta("٥d")` is five days in Python and a ValueError in the
  model. The model does not carry the Unicode digit tables. HumanTimedelta.ParseDuration
  inherits this through DigitRun.
- HumanTimedelta.ParseDuration: the 4300-digit limit is CPython's default. A program
  that changes it with `sys.set_int_max_str_digits`, or a Python release older than
  the limit, parses longer numbers. These are still refused as beyond timedelta's range
  unless they are mostly leading zeros.
- ISO-8601 parsing and formatting, time zones and offsets are left out. Backend records
  carry dates as day numbers and date-times as absolute seconds, so a malformed date
  string (ValueError) is not modelled. `iso_z` is not modelled either.
- Merging.Absorb: tests `event.start - elipsis` against `datetime.min` on the UTC
  instant. Python tests the wall-clock value of an aware date-time, so under a
  non-zero offset Python's bound differs from the model's by that offset.
- GoogleCalendar.GEvent: models only the keys the adapter reads or writes. It
  conflates an absent key with a key holding `None`. For example, an explicit
  `"transparency": None` would make Python's `get` return `None` and the event not
  busy.
- Generator laziness: each stage is modelled over the whole stream before the next
  stage starts. When several errors could arise, the model may report a different one
  from Python. In both, an error ends the run before any request is sent.
- In-place updates of Event objects are modelled as new Event values. Each object
  flows through the pipeline once, so no aliasing is observable.
- GoogleCalendar.SyncEvents: issues the deletes of one tombstone in first-occurrence
  order of its source ids. Python iterates a set, whose order is unspecified.
  `Fresh` states only the set and the absence of duplicates.
- Fields.SetField (and so Fields.SetFieldFits, Transforms.OverrideFields and
  Transforms.OverrideOne): refuses an ill-typed override (for example a string for `start`,
  or a bool for `sequence`) with IllTyped. Python's `setattr` on the pydantic model
  stores the raw value without validation.
- Transforms.GetAttrByPath: attributes of built-in values (such as `start.year`), and
  Event attributes other than its fields and `duration`, are AttributeError in the
  model.
- Event fields `type` (`eventType`) and `attendees`, and the `accepted` status, are
  used by the transforms and the adapter but are not defined in `types.py`. The model
  assumes them as an optional string and a list of (e-mail, status) pairs.
- The `src=google_event` keyword of `_gevent_to_event`'s Event construction
  (src/polycal/services/gcal.py:199) names no field. The model assumes pydantic's
  default of ignoring an undeclared keyword, so an Event carries no backend record.
  Two things follow. A SkipByAttr path through a record, such as
  `src.organizer.email`, is an AttributeError in the model. The dict branch of
  `getattr_by_path` is modelled, but no Event field reaches it. And the content
  hash covers only the declared fields, as HashIgnoresBookkeeping, Idempotent and
  RerunPlansNothing state.
- The base `Transform.process` (the identity) is never registered, so no configuration
  can reach it.
- `register` returns `None`, so each decorated class name is rebound to `None` at
  module level. Nothing in the pipeline reads those names.
- The ACL loop of `get_calendar_owner_emails` comes after a `return` and never runs.
- Validation of the configuration models, YAML discovery, the CLI and packaging are
  left out. The configuration is a datatype.
- Transforms.CompileAll: `re.compile` refuses some patterns with ValueError rather
  than `re.error` (for example the LOCALE flag with a str pattern). The model reports
  every refused pattern as the same regex error.
- Error payloads: the model keeps the exception class and the key, name or pattern
  involved. It keeps messages only as short indicative strings. Transforms.Construct
  tests for a `self` keyword before the others. So when a constructor is given both
  `self` and an undeclared keyword, the model's TypeError message may differ from
  Python's, which reports whichever keyword comes first.

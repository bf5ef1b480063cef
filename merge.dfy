/** The Merge transform: a greedy interval merge per title bucket. Events are taken
    in order of the calendar day of their start; an event is absorbed by the first
    earlier survivor of its title that it overlaps (within the tolerance `elipsis`),
    and only when both are timed events; the survivors are output by day. */
module Merging {
  import opened Wrappers
  import opened Types
  import opened Seqs

  /** The sort key: `datetime.combine(e.start, time.min)`, the start's calendar day. */
  function DayKey(e: Event): int {
    DayOf(e.start)
  }

  ghost predicate SortedByDay(s: seq<Event>) {
    forall i, j :: 0 <= i < j < |s| ==> DayKey(s[i]) <= DayKey(s[j])
  }

  /** Insert `e` before the first element whose key is not smaller. */
  function InsertByDay(e: Event, s: seq<Event>): seq<Event> {
    if s == [] then [e]
    else if DayKey(e) <= DayKey(s[0]) then [e] + s
    else [s[0]] + InsertByDay(e, s[1..])
  }

  /** Python's `sorted(s, key=DayKey)`, a stable sort (insertion sort here). */
  function SortByDay(s: seq<Event>): seq<Event> {
    if s == [] then [] else InsertByDay(s[0], SortByDay(s[1..]))
  }

  /** What identifies an event apart from its end, the one field a merge changes. */
  function WithoutEnd(e: Event): Event {
    e.(end := e.start)
  }

  function WithoutEnds(s: seq<Event>): (r: seq<Event>)
    ensures |r| == |s|
    ensures forall i :: 0 <= i < |s| ==> r[i] == WithoutEnd(s[i])
  {
    if s == [] then [] else [WithoutEnd(s[0])] + WithoutEnds(s[1..])
  }

  lemma WithoutEndsAppend(a: seq<Event>, b: seq<Event>)
    ensures WithoutEnds(a + b) == WithoutEnds(a) + WithoutEnds(b)
  {
  }

  lemma WithoutEndsUpdate(s: seq<Event>, k: nat, y: Event)
    requires k < |s| && WithoutEnd(y) == WithoutEnd(s[k])
    ensures WithoutEnds(s[k := y]) == WithoutEnds(s)
  {
    var a, b := WithoutEnds(s[k := y]), WithoutEnds(s);
    assert forall i :: 0 <= i < |s| ==> a[i] == b[i];
  }

  lemma {:induction false} InsertByDayElements(e: Event, s: seq<Event>)
    ensures |InsertByDay(e, s)| == |s| + 1
    ensures forall x :: x in InsertByDay(e, s) ==> x == e || x in s
  {
    if s != [] && DayKey(e) > DayKey(s[0]) {
      InsertByDayElements(e, s[1..]);
    }
  }

  lemma {:induction false} InsertByDaySorted(e: Event, s: seq<Event>)
    requires SortedByDay(s)
    ensures SortedByDay(InsertByDay(e, s))
  {
    if s != [] && DayKey(e) > DayKey(s[0]) {
      var rest := InsertByDay(e, s[1..]);
      InsertByDaySorted(e, s[1..]);
      InsertByDayElements(e, s[1..]);
      var r := [s[0]] + rest;
      forall i, j | 0 <= i < j < |r|
        ensures DayKey(r[i]) <= DayKey(r[j])
      {
        if i == 0 {
          assert r[j] == rest[j - 1];
          assert rest[j - 1] in rest;
        } else {
          assert r[i] == rest[i - 1] && r[j] == rest[j - 1];
        }
      }
    }
  }

  lemma {:induction false} InsertByDayBag(e: Event, s: seq<Event>)
    ensures multiset(WithoutEnds(InsertByDay(e, s))) == multiset(WithoutEnds(s)) + multiset{WithoutEnd(e)}
  {
    if s == [] {
    } else if DayKey(e) <= DayKey(s[0]) {
      assert WithoutEnds([e] + s) == [WithoutEnd(e)] + WithoutEnds(s);
    } else {
      var rest := InsertByDay(e, s[1..]);
      InsertByDayBag(e, s[1..]);
      assert WithoutEnds([s[0]] + rest) == [WithoutEnd(s[0])] + WithoutEnds(rest);
      assert WithoutEnds(s) == [WithoutEnd(s[0])] + WithoutEnds(s[1..]);
    }
  }

  lemma {:induction false} InsertByDayMultiset(e: Event, s: seq<Event>)
    ensures multiset(InsertByDay(e, s)) == multiset(s) + multiset{e}
  {
    if s != [] && DayKey(e) > DayKey(s[0]) {
      InsertByDayMultiset(e, s[1..]);
      assert s == [s[0]] + s[1..];
    }
  }

  /** The sort orders by day and keeps every event, ends ignored. */
  lemma {:induction false} SortByDayCorrect(s: seq<Event>)
    ensures SortedByDay(SortByDay(s))
    ensures multiset(WithoutEnds(SortByDay(s))) == multiset(WithoutEnds(s))
  {
    if s != [] {
      SortByDayCorrect(s[1..]);
      InsertByDaySorted(s[0], SortByDay(s[1..]));
      InsertByDayBag(s[0], SortByDay(s[1..]));
      assert WithoutEnds(s) == [WithoutEnd(s[0])] + WithoutEnds(s[1..]);
    }
  }

  /** The sort is a permutation of its input. */
  lemma {:induction false} SortByDayPermutes(s: seq<Event>)
    ensures multiset(SortByDay(s)) == multiset(s)
  {
    if s != [] {
      SortByDayPermutes(s[1..]);
      InsertByDayMultiset(s[0], SortByDay(s[1..]));
      assert s == [s[0]] + s[1..];
    }
  }

  /** The test for the events whose start falls on calendar day `d`. */
  function OnDay(d: int): Event -> bool {
    e => DayKey(e) == d
  }

  /** Inserting `e` puts it in front of the events of its own day and leaves every
      other day's events as they were. */
  lemma {:induction false} InsertByDayOnDay(e: Event, s: seq<Event>, d: int)
    ensures Filter(OnDay(d), InsertByDay(e, s)) ==
      (if DayKey(e) == d then [e] else []) + Filter(OnDay(d), s)
  {
    if s == [] {
      assert [e][1..] == [];
    } else if DayKey(e) <= DayKey(s[0]) {
      assert ([e] + s)[1..] == s;
    } else {
      InsertByDayOnDay(e, s[1..], d);
      assert ([s[0]] + InsertByDay(e, s[1..]))[1..] == InsertByDay(e, s[1..]);
    }
  }

  /** The sort is stable: the events of each calendar day keep their input order. */
  lemma {:induction false} SortByDayStable(s: seq<Event>, d: int)
    ensures Filter(OnDay(d), SortByDay(s)) == Filter(OnDay(d), s)
  {
    if s != [] {
      SortByDayStable(s[1..], d);
      InsertByDayOnDay(s[0], SortByDay(s[1..]), d);
    }
  }

  /** The later of two date-time ends, as `max(a, b)` picks it. */
  function LaterEnd(a: int, b: int): int {
    if b > a then b else a
  }

  /** Whether survivor `x` absorbs `e`: both are timed events, `x.start <= e.start`
      and `e.start - elipsis <= x.end`; the result is `x` with the later end. A
      difference before `datetime.min` raises OverflowError, and a comparison between
      a date-time and a date raises TypeError. */
  function Absorb(x: Event, e: Event, elipsis: int): (r: Result<Option<Event>>)
    ensures r.Ok? && r.value.Some? ==>
      x.start.DateTime? && e.start.DateTime? && x.end.DateTime? && e.end.DateTime? &&
      x.start.seconds <= e.start.seconds <= x.end.seconds + elipsis &&
      MinDateTimeSeconds <= e.start.seconds - elipsis &&
      r.value.value == x.(end := DateTime(LaterEnd(x.end.seconds, e.end.seconds)))
    ensures !(x.start.DateTime? && e.start.DateTime?) ==> r == Ok(None)
    ensures (x.start.DateTime? && e.start.DateTime? && x.end.DateTime? && e.end.DateTime? &&
             x.start.seconds <= e.start.seconds <= x.end.seconds + elipsis &&
             MinDateTimeSeconds <= e.start.seconds - elipsis) ==> r.Ok? && r.value.Some?
    ensures r == Err(OverflowError) <==>
      x.start.DateTime? && e.start.DateTime? && x.start.seconds <= e.start.seconds &&
      e.start.seconds - elipsis < MinDateTimeSeconds
    ensures r.Err? <==>
      x.start.DateTime? && e.start.DateTime? && x.start.seconds <= e.start.seconds &&
      (e.start.seconds - elipsis < MinDateTimeSeconds || !x.end.DateTime? ||
       (e.start.seconds - elipsis <= x.end.seconds && !e.end.DateTime?))
  {
    if !(e.start.DateTime? && x.start.DateTime?) then Ok(None)
    else if !(x.start.seconds <= e.start.seconds) then Ok(None)
    else if e.start.seconds - elipsis < MinDateTimeSeconds then Err(OverflowError)
    else if !x.end.DateTime? then Err(TypeError("can't compare datetime.datetime to datetime.date"))
    else if !(e.start.seconds - elipsis <= x.end.seconds) then Ok(None)
    else if !e.end.DateTime? then Err(TypeError("can't compare datetime.datetime to datetime.date"))
    else Ok(Some(x.(end := DateTime(LaterEnd(x.end.seconds, e.end.seconds)))))
  }

  /** The inner for/else loop from position `j` on: the first survivor that absorbs
      `e` is extended, and if none does `e` joins the bucket. */
  function InsertFrom(bucket: seq<Event>, e: Event, elipsis: int, j: nat): Result<seq<Event>>
    requires j <= |bucket|
    decreases |bucket| - j
  {
    if j == |bucket| then Ok(bucket + [e])
    else
      match Absorb(bucket[j], e, elipsis)
      case Err(err) => Err(err)
      case Ok(None) => InsertFrom(bucket, e, elipsis, j + 1)
      case Ok(Some(survivor)) => Ok(bucket[j := survivor])
  }

  /** `defaultdict(list)` keyed by title; `titles` is its key order. */
  datatype Buckets = Buckets(titles: seq<Option<string>>, groups: map<Option<string>, seq<Event>>)

  ghost predicate ValidBuckets(b: Buckets) {
    NoDup(b.titles) && ToSet(b.titles) == b.groups.Keys &&
    forall t :: t in b.groups ==> forall k :: 0 <= k < |b.groups[t]| ==> b.groups[t][k].title == t
  }

  /** One iteration of the outer loop. */
  function Step(b: Buckets, e: Event, elipsis: int): Result<Buckets> {
    var t := e.title;
    var bucket := if t in b.groups then b.groups[t] else [];
    var titles := if t in b.groups then b.titles else b.titles + [t];
    match InsertFrom(bucket, e, elipsis, 0)
    case Err(err) => Err(err)
    case Ok(nb) => Ok(Buckets(titles, b.groups[t := nb]))
  }

  /** The outer loop over the events taken so far. */
  function Fold(s: seq<Event>, elipsis: int): Result<Buckets> {
    if s == [] then Ok(Buckets([], map[]))
    else
      match Fold(s[..|s| - 1], elipsis)
      case Err(err) => Err(err)
      case Ok(b) => Step(b, s[|s| - 1], elipsis)
  }

  /** `Merge.process`: sort, fold into buckets, output the survivors sorted again. */
  function MergeEvents(events: seq<Event>, elipsis: int): Result<seq<Event>> {
    var sorted := SortByDay(events);
    match Fold(sorted, elipsis)
    case Err(err) => Err(err)
    case Ok(b) =>
      FoldValid(sorted, elipsis);
      Ok(SortByDay(Flatten(b.titles, b.groups)))
  }

  lemma {:induction false} InsertFromCases(bucket: seq<Event>, e: Event, elipsis: int, j: nat)
    requires j <= |bucket|
    requires InsertFrom(bucket, e, elipsis, j).Ok?
    ensures var nb := InsertFrom(bucket, e, elipsis, j).value;
      (nb == bucket + [e] && forall k :: j <= k < |bucket| ==> Absorb(bucket[k], e, elipsis) == Ok(None)) ||
      (exists k :: j <= k < |bucket| && (forall m :: j <= m < k ==> Absorb(bucket[m], e, elipsis) == Ok(None)) &&
         Absorb(bucket[k], e, elipsis).Ok? && Absorb(bucket[k], e, elipsis).value.Some? &&
         nb == bucket[k := Absorb(bucket[k], e, elipsis).value.value])
    decreases |bucket| - j
  {
    if j < |bucket| && Absorb(bucket[j], e, elipsis) == Ok(None) {
      InsertFromCases(bucket, e, elipsis, j + 1);
    }
  }

  /** The bucket after one insertion: either `e` was appended or one survivor had
      its end changed; the bucket's title is kept. */
  lemma InsertFromBag(bucket: seq<Event>, e: Event, elipsis: int, t: Option<string>, nb: seq<Event>)
    requires InsertFrom(bucket, e, elipsis, 0) == Ok(nb)
    requires e.title == t && forall k :: 0 <= k < |bucket| ==> bucket[k].title == t
    ensures forall k :: 0 <= k < |nb| ==> nb[k].title == t
    ensures WithoutEnds(nb) == WithoutEnds(bucket) + [WithoutEnd(e)] || WithoutEnds(nb) == WithoutEnds(bucket)
  {
    InsertFromCases(bucket, e, elipsis, 0);
    if nb != bucket + [e] {
      var k :| 0 <= k < |bucket| && Absorb(bucket[k], e, elipsis).Ok? && Absorb(bucket[k], e, elipsis).value.Some? &&
         nb == bucket[k := Absorb(bucket[k], e, elipsis).value.value];
      var y := Absorb(bucket[k], e, elipsis).value.value;
      assert WithoutEnd(y) == WithoutEnd(bucket[k]) && y.title == t;
      WithoutEndsUpdate(bucket, k, y);
    } else {
      WithoutEndsAppend(bucket, [e]);
      assert WithoutEnds([e]) == [WithoutEnd(e)];
    }
  }

  /** The buckets with every end ignored. */
  function MapW(g: map<Option<string>, seq<Event>>): (w: map<Option<string>, seq<Event>>)
    ensures w.Keys == g.Keys
  {
    map t | t in g :: WithoutEnds(g[t])
  }

  lemma {:induction false} FlattenW(titles: seq<Option<string>>, g: map<Option<string>, seq<Event>>)
    requires forall i :: 0 <= i < |titles| ==> titles[i] in g
    ensures WithoutEnds(Flatten(titles, g)) == Flatten(titles, MapW(g))
    ensures |Flatten(titles, g)| == |Flatten(titles, MapW(g))|
  {
    if titles != [] {
      FlattenW(titles[1..], g);
      WithoutEndsAppend(g[titles[0]], Flatten(titles[1..], g));
    }
  }

  ghost predicate FoldInvariant(s: seq<Event>, b: Buckets) {
    ValidBuckets(b) &&
    (forall i :: 0 <= i < |b.titles| ==> b.titles[i] in b.groups) &&
    |Flatten(b.titles, MapW(b.groups))| <= |s| &&
    Bag(b.titles, MapW(b.groups)) <= multiset(WithoutEnds(s))
  }

  lemma StepValid(b: Buckets, e: Event, elipsis: int)
    requires ValidBuckets(b)
    requires Step(b, e, elipsis).Ok?
    ensures ValidBuckets(Step(b, e, elipsis).value)
  {
    var t := e.title;
    var bucket := if t in b.groups then b.groups[t] else [];
    InsertFromBag(bucket, e, elipsis, t, InsertFrom(bucket, e, elipsis, 0).value);
    var b' := Step(b, e, elipsis).value;
    if t !in b.groups {
      assert t !in b.titles;
      assert NoDup(b'.titles);
      assert ToSet(b'.titles) == ToSet(b.titles) + {t};
    }
  }

  lemma MapWUpdate(g: map<Option<string>, seq<Event>>, t: Option<string>, x: seq<Event>)
    ensures MapW(g[t := x]) == MapW(g)[t := WithoutEnds(x)]
  {
  }

  /** Changing an existing bucket adds at most `e` (ends ignored). */
  lemma BagExisting(titles: seq<Option<string>>, g: map<Option<string>, seq<Event>>, t: Option<string>, nb: seq<Event>, e: Event)
    requires forall i :: 0 <= i < |titles| ==> titles[i] in g
    requires NoDup(titles) && t in titles
    requires WithoutEnds(nb) == WithoutEnds(g[t]) + [WithoutEnd(e)] || WithoutEnds(nb) == WithoutEnds(g[t])
    ensures Bag(titles, MapW(g[t := nb])) <= Bag(titles, MapW(g)) + multiset{WithoutEnd(e)}
    ensures |Flatten(titles, MapW(g[t := nb]))| <= |Flatten(titles, MapW(g))| + 1
  {
    MapWUpdate(g, t, nb);
    GrowByOne(titles, MapW(g), t, WithoutEnds(nb), WithoutEnd(e));
  }

  /** Opening a bucket for a new title adds exactly `e`. */
  lemma BagNew(titles: seq<Option<string>>, g: map<Option<string>, seq<Event>>, t: Option<string>, e: Event)
    requires forall i :: 0 <= i < |titles| ==> titles[i] in g
    requires t !in titles
    ensures Bag(titles + [t], MapW(g[t := [e]])) == Bag(titles, MapW(g)) + multiset{WithoutEnd(e)}
    ensures |Flatten(titles + [t], MapW(g[t := [e]]))| == |Flatten(titles, MapW(g))| + 1
  {
    var w := MapW(g);
    var w' := w[t := [WithoutEnd(e)]];
    MapWUpdate(g, t, [e]);
    assert WithoutEnds([e]) == [WithoutEnd(e)];
    FlattenOther(titles, w, t, [WithoutEnd(e)]);
    FlattenSnoc(titles, w', t);
    BagFlatten(titles, w);
    BagFlatten(titles + [t], w');
  }

  lemma StepBag(b: Buckets, e: Event, elipsis: int, b': Buckets)
    requires ValidBuckets(b)
    requires forall i :: 0 <= i < |b.titles| ==> b.titles[i] in b.groups
    requires Step(b, e, elipsis) == Ok(b')
    ensures forall i :: 0 <= i < |b'.titles| ==> b'.titles[i] in b'.groups
    ensures |Flatten(b'.titles, MapW(b'.groups))| <= |Flatten(b.titles, MapW(b.groups))| + 1
    ensures Bag(b'.titles, MapW(b'.groups)) <= Bag(b.titles, MapW(b.groups)) + multiset{WithoutEnd(e)}
  {
    if e.title in b.groups {
      StepBagExisting(b, e, elipsis, b');
    } else {
      StepBagNew(b, e, elipsis, b');
    }
  }

  lemma StepBagExisting(b: Buckets, e: Event, elipsis: int, b': Buckets)
    requires ValidBuckets(b)
    requires forall i :: 0 <= i < |b.titles| ==> b.titles[i] in b.groups
    requires e.title in b.groups
    requires Step(b, e, elipsis) == Ok(b')
    ensures forall i :: 0 <= i < |b'.titles| ==> b'.titles[i] in b'.groups
    ensures |Flatten(b'.titles, MapW(b'.groups))| <= |Flatten(b.titles, MapW(b.groups))| + 1
    ensures Bag(b'.titles, MapW(b'.groups)) <= Bag(b.titles, MapW(b.groups)) + multiset{WithoutEnd(e)}
  {
    var t := e.title;
    var nb := InsertFrom(b.groups[t], e, elipsis, 0).value;
    assert b' == Buckets(b.titles, b.groups[t := nb]);
    InsertFromBag(b.groups[t], e, elipsis, t, nb);
    assert t in ToSet(b.titles);
    BagExisting(b.titles, b.groups, t, nb, e);
  }

  lemma InsertFromEmpty(e: Event, elipsis: int)
    ensures InsertFrom([], e, elipsis, 0) == Ok([e])
  {
    var empty: seq<Event> := [];
    assert empty + [e] == [e];
  }

  lemma StepBagNew(b: Buckets, e: Event, elipsis: int, b': Buckets)
    requires ValidBuckets(b)
    requires forall i :: 0 <= i < |b.titles| ==> b.titles[i] in b.groups
    requires e.title !in b.groups
    requires Step(b, e, elipsis) == Ok(b')
    ensures forall i :: 0 <= i < |b'.titles| ==> b'.titles[i] in b'.groups
    ensures |Flatten(b'.titles, MapW(b'.groups))| <= |Flatten(b.titles, MapW(b.groups))| + 1
    ensures Bag(b'.titles, MapW(b'.groups)) <= Bag(b.titles, MapW(b.groups)) + multiset{WithoutEnd(e)}
  {
    InsertFromEmpty(e, elipsis);
    assert b' == Buckets(b.titles + [e.title], b.groups[e.title := [e]]);
    assert e.title !in ToSet(b.titles);
    BagNew(b.titles, b.groups, e.title, e);
    forall i | 0 <= i < |b'.titles| ensures b'.titles[i] in b'.groups {
      if i < |b.titles| { assert b'.titles[i] == b.titles[i]; }
    }
  }

  lemma StepInvariant(s: seq<Event>, b: Buckets, e: Event, elipsis: int)
    requires FoldInvariant(s, b)
    requires Step(b, e, elipsis).Ok?
    ensures FoldInvariant(s + [e], Step(b, e, elipsis).value)
  {
    var b' := Step(b, e, elipsis).value;
    StepValid(b, e, elipsis);
    StepBag(b, e, elipsis, b');
    WithoutEndsAppend(s, [e]);
    assert WithoutEnds([e]) == [WithoutEnd(e)];
    var before, after := multiset(WithoutEnds(s)), multiset(WithoutEnds(s + [e]));
    assert after == before + multiset{WithoutEnd(e)};
    assert Bag(b.titles, MapW(b.groups)) <= before;
    assert Bag(b'.titles, MapW(b'.groups)) <= after;
  }

  lemma {:induction false} FoldValid(s: seq<Event>, elipsis: int)
    requires Fold(s, elipsis).Ok?
    ensures FoldInvariant(s, Fold(s, elipsis).value)
  {
    if s != [] {
      var init, e := s[..|s| - 1], s[|s| - 1];
      InitLast(s);
      FoldValid(init, elipsis);
      var b := Fold(init, elipsis).value;
      assert Fold(s, elipsis) == Step(b, e, elipsis);
      StepInvariant(init, b, e, elipsis);
    }
  }

  /** Once the fold fails on a prefix, the whole fold fails with that error. */
  lemma {:induction false} FoldErr(s: seq<Event>, k: nat, elipsis: int)
    requires k <= |s|
    requires Fold(s[..k], elipsis).Err?
    ensures Fold(s, elipsis) == Fold(s[..k], elipsis)
  {
    if k < |s| {
      var init := s[..|s| - 1];
      assert init[..k] == s[..k];
      FoldErr(init, k, elipsis);
    } else {
      assert s[..k] == s;
    }
  }

  /** `Merge.process` as the source runs it: the outer loop over the sorted events
      and the inner for/else loop over the event's bucket. */
  method MergeProcess(events: seq<Event>, elipsis: int) returns (r: Result<seq<Event>>)
    ensures r == MergeEvents(events, elipsis)
  {
    var sorted := SortByDay(events);
    var titles: seq<Option<string>> := [];
    var groups: map<Option<string>, seq<Event>> := map[];
    for i := 0 to |sorted|
      invariant Fold(sorted[..i], elipsis) == Ok(Buckets(titles, groups))
    {
      var e := sorted[i];
      assert sorted[..i + 1][..i] == sorted[..i] && sorted[..i + 1][i] == e;
      assert Fold(sorted[..i + 1], elipsis) == Step(Buckets(titles, groups), e, elipsis);
      // `groups[e.title]` on the defaultdict opens an empty bucket for a new title
      var bucket := if e.title in groups then groups[e.title] else [];
      var inserted := InsertInto(bucket, e, elipsis);
      if inserted.Err? {
        FoldErr(sorted, i + 1, elipsis);
        return Err(inserted.error);
      }
      if e.title !in groups {
        titles := titles + [e.title];
      }
      groups := groups[e.title := inserted.value];
    }
    assert sorted[..|sorted|] == sorted;
    FoldValid(sorted, elipsis);
    r := Ok(SortByDay(Flatten(titles, groups)));
  }

  /** The inner for/else loop of `Merge.process`: the first survivor of the bucket
      that absorbs `e` takes its end, and when none does `e` is appended. */
  method InsertInto(bucket: seq<Event>, e: Event, elipsis: int) returns (r: Result<seq<Event>>)
    ensures r == InsertFrom(bucket, e, elipsis, 0)
  {
    var j := 0;
    while j < |bucket|
      invariant 0 <= j <= |bucket|
      invariant InsertFrom(bucket, e, elipsis, j) == InsertFrom(bucket, e, elipsis, 0)
    {
      var a := Absorb(bucket[j], e, elipsis);
      if a.Err? {
        return Err(a.error);
      }
      if a.value.Some? {
        return Ok(bucket[j := a.value.value]);
      }
      j := j + 1;
    }
    r := Ok(bucket + [e]);
  }

  /** Merge never invents events: ignoring ends, the output is a sub-multiset of the
      input and no longer than it; and it is sorted by the calendar day of start. */
  lemma MergeEventsResult(events: seq<Event>, elipsis: int)
    requires MergeEvents(events, elipsis).Ok?
    ensures var out := MergeEvents(events, elipsis).value;
      SortedByDay(out) &&
      multiset(WithoutEnds(out)) <= multiset(WithoutEnds(events)) &&
      |out| <= |events|
  {
    var sorted := SortByDay(events);
    FoldValid(sorted, elipsis);
    var b := Fold(sorted, elipsis).value;
    var flat := Flatten(b.titles, b.groups);
    var out := SortByDay(flat);
    assert MergeEvents(events, elipsis).value == out;
    SortByDayCorrect(flat);
    SortByDayCorrect(events);
    FlattenW(b.titles, b.groups);
    BagFlatten(b.titles, MapW(b.groups));
    assert |WithoutEnds(out)| == |multiset(WithoutEnds(out))| == |multiset(WithoutEnds(flat))| == |flat|;
    assert |WithoutEnds(sorted)| == |multiset(WithoutEnds(sorted))| == |multiset(WithoutEnds(events))| == |events|;
  }

  // -------------------------------------------------- What the output stands for

  /** `x` stands for `e` in the output: it is `e` itself, or a survivor of the same
      title, both timed, that starts no later than `e` and ends no earlier. */
  ghost predicate Covers(x: Event, e: Event) {
    x == e ||
    (x.title == e.title && x.start.DateTime? && e.start.DateTime? && x.end.DateTime? && e.end.DateTime? &&
     x.start.seconds <= e.start.seconds && e.end.seconds <= x.end.seconds)
  }

  /** `y` is `x`, or the timed event `x` with a later end, as absorbing leaves it. */
  ghost predicate Extends(y: Event, x: Event) {
    y == x ||
    (x.start.DateTime? && x.end.DateTime? && y.end.DateTime? &&
     x.end.seconds <= y.end.seconds && y == x.(end := y.end))
  }

  /** Some survivor of `e`'s title bucket stands for `e`. */
  ghost predicate InBucket(g: map<Option<string>, seq<Event>>, e: Event) {
    e.title in g && exists k :: 0 <= k < |g[e.title]| && Covers(g[e.title][k], e)
  }

  lemma CoversExtends(x: Event, y: Event, e: Event)
    requires Covers(x, e) && Extends(y, x)
    ensures Covers(y, e)
  {
  }

  /** One insertion keeps every survivor in place (at most with a later end) and
      leaves a survivor that stands for the new event. */
  lemma InsertFromCovers(bucket: seq<Event>, e: Event, elipsis: int, nb: seq<Event>)
    requires InsertFrom(bucket, e, elipsis, 0) == Ok(nb)
    requires forall k :: 0 <= k < |bucket| ==> bucket[k].title == e.title
    ensures |bucket| <= |nb|
    ensures forall k :: 0 <= k < |bucket| ==> Extends(nb[k], bucket[k])
    ensures exists k :: 0 <= k < |nb| && Covers(nb[k], e)
  {
    InsertFromCases(bucket, e, elipsis, 0);
    if nb == bucket + [e] {
      assert Covers(nb[|bucket|], e);
    } else {
      var k :| 0 <= k < |bucket| && Absorb(bucket[k], e, elipsis).Ok? && Absorb(bucket[k], e, elipsis).value.Some? &&
         nb == bucket[k := Absorb(bucket[k], e, elipsis).value.value];
      var x, y := bucket[k], Absorb(bucket[k], e, elipsis).value.value;
      assert y == x.(end := DateTime(LaterEnd(x.end.seconds, e.end.seconds)));
      assert x.title == e.title && nb[k] == y;
      assert Extends(y, x);
      assert Covers(y, e);
    }
  }

  /** One loop iteration keeps every event stood for and adds the new one. */
  lemma StepCovers(b: Buckets, e: Event, elipsis: int, b': Buckets)
    requires ValidBuckets(b)
    requires Step(b, e, elipsis) == Ok(b')
    ensures InBucket(b'.groups, e)
    ensures forall x :: InBucket(b.groups, x) ==> InBucket(b'.groups, x)
  {
    var t := e.title;
    var bucket := if t in b.groups then b.groups[t] else [];
    var nb := InsertFrom(bucket, e, elipsis, 0).value;
    assert b'.groups == b.groups[t := nb];
    InsertFromCovers(bucket, e, elipsis, nb);
    var j :| 0 <= j < |nb| && Covers(nb[j], e);
    assert b'.groups[t][j] == nb[j];
    forall x | InBucket(b.groups, x)
      ensures InBucket(b'.groups, x)
    {
      var k :| 0 <= k < |b.groups[x.title]| && Covers(b.groups[x.title][k], x);
      if x.title == t {
        CoversExtends(bucket[k], nb[k], x);
        assert b'.groups[x.title][k] == nb[k];
      } else {
        assert b'.groups[x.title] == b.groups[x.title];
      }
    }
  }

  /** After the outer loop every event taken is stood for in its title's bucket. */
  lemma {:induction false} FoldCovers(s: seq<Event>, elipsis: int)
    requires Fold(s, elipsis).Ok?
    ensures forall i :: 0 <= i < |s| ==> InBucket(Fold(s, elipsis).value.groups, s[i])
  {
    if s != [] {
      var init, e := s[..|s| - 1], s[|s| - 1];
      InitLast(s);
      FoldCovers(init, elipsis);
      FoldValid(init, elipsis);
      var b := Fold(init, elipsis).value;
      var b' := Fold(s, elipsis).value;
      assert Fold(s, elipsis) == Step(b, e, elipsis);
      StepCovers(b, e, elipsis, b');
      forall i | 0 <= i < |s|
        ensures InBucket(b'.groups, s[i])
      {
        if i < |init| {
          assert s[i] == init[i];
        }
      }
    }
  }

  /** Merge drops nothing unaccounted for: every input event is in the output, or
      was absorbed by an output survivor of its title, both timed, that starts no
      later and ends no earlier. */
  lemma MergeCovers(events: seq<Event>, elipsis: int)
    requires MergeEvents(events, elipsis).Ok?
    ensures forall e :: e in events ==>
      exists x :: x in MergeEvents(events, elipsis).value && Covers(x, e)
  {
    var sorted := SortByDay(events);
    FoldValid(sorted, elipsis);
    FoldCovers(sorted, elipsis);
    var b := Fold(sorted, elipsis).value;
    var flat := Flatten(b.titles, b.groups);
    var out := SortByDay(flat);
    assert MergeEvents(events, elipsis).value == out;
    SortByDayPermutes(events);
    SortByDayPermutes(flat);
    forall e | e in events
      ensures exists x :: x in out && Covers(x, e)
    {
      assert e in multiset(sorted);
      var i :| 0 <= i < |sorted| && sorted[i] == e;
      assert InBucket(b.groups, e);
      var k :| 0 <= k < |b.groups[e.title]| && Covers(b.groups[e.title][k], e);
      assert e.title in ToSet(b.titles);
      FlattenHas(b.titles, b.groups, e.title, k);
      var x := b.groups[e.title][k];
      assert x in multiset(out);
    }
  }

  /** Only timed events are absorbed: an event starting on a date is output as it is. */
  lemma MergeKeepsDates(events: seq<Event>, elipsis: int)
    requires MergeEvents(events, elipsis).Ok?
    ensures forall e :: e in events && e.start.Date? ==> e in MergeEvents(events, elipsis).value
  {
    MergeCovers(events, elipsis);
    forall e | e in events && e.start.Date?
      ensures e in MergeEvents(events, elipsis).value
    {
      var x :| x in MergeEvents(events, elipsis).value && Covers(x, e);
    }
  }

  /** Two overlapping stand-ups of the same title become one that runs to the later end. */
  lemma StandupExample()
    ensures var a := Event(iCalUID := "a", sourceIds := [], start := DateTime(36000), end := DateTime(36900), title := Some("Standup"));
      var b := Event(iCalUID := "b", sourceIds := [], start := DateTime(36600), end := DateTime(37800), title := Some("Standup"));
      MergeEvents([a, b], 0) == Ok([a.(end := DateTime(37800))])
  {
    var a := Event(iCalUID := "a", sourceIds := [], start := DateTime(36000), end := DateTime(36900), title := Some("Standup"));
    var b := Event(iCalUID := "b", sourceIds := [], start := DateTime(36600), end := DateTime(37800), title := Some("Standup"));
    var a' := a.(end := DateTime(37800));
    var t := Some("Standup");
    assert [b][1..] == [];
    assert SortByDay([b]) == [b];
    assert [a, b][1..] == [b];
    assert SortByDay([a, b]) == [a, b];
    assert [a, b][..1] == [a] && [a][..0] == [];
    InsertFromEmpty(a, 0);
    var none: seq<Option<string>> := [];
    assert none + [t] == [t];
    assert Step(Buckets(none, map[]), a, 0) == Ok(Buckets([t], map[t := [a]]));
    assert Fold([a], 0) == Ok(Buckets([t], map[t := [a]]));
    assert Absorb(a, b, 0) == Ok(Some(a'));
    assert [a][0 := a'] == [a'];
    assert InsertFrom([a], b, 0, 0) == Ok([a']);
    var g := map[t := [a]][t := [a']];
    assert Fold([a, b], 0) == Ok(Buckets([t], g));
    assert Flatten([t], g) == [a'];
    assert [a'][1..] == [];
    assert SortByDay([a']) == [a'];
  }
}

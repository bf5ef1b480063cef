/** Reconciliation of the processed source events with the target calendar: the
    target's events are indexed by uid, each new event pops its match, changed or
    unmatched new events are re-stamped with the current time, and every existing
    event left over becomes a tombstone. */
module Reconcile {
  import opened Wrappers
  import opened Types
  import opened Seqs

  // ------------------------------------------------------------------- Hashing

  /** The content hash (`blake2s` of the JSON form, base85-encoded), which is not
      part of this model: any function of the event's content. */
  type Hasher = Event -> string

  /** What the hash reads: the event without `sequence` and `source_ids`. */
  function HashView(e: Event): Event {
    e.(sequence := 0, sourceIds := [])
  }

  /** `pydantic_hash(event)`. */
  function PydanticHash(h: Hasher, e: Event): string {
    h(HashView(e))
  }

  /** Two events that differ only in `sequence` and `source_ids` hash equal. */
  lemma HashIgnoresBookkeeping(h: Hasher, e: Event, sequence: int, sourceIds: seq<string>)
    ensures PydanticHash(h, e.(sequence := sequence, sourceIds := sourceIds)) == PydanticHash(h, e)
  {
    assert HashView(e.(sequence := sequence, sourceIds := sourceIds)) == HashView(e);
  }

  // ------------------------------------------------------------- The uid index

  /** A dict from uid to event: `keys` in insertion order, `vals` the entries. */
  datatype Index = Index(keys: seq<string>, vals: map<string, Event>)

  /** The dict is well formed and keyed by each event's own uid. */
  ghost predicate ValidIndex(d: Index) {
    NoDup(d.keys) && ToSet(d.keys) == d.vals.Keys &&
    forall k :: k in d.vals ==> d.vals[k].iCalUID == k
  }

  /** `d[e.iCalUID] = e`: a new key goes last, an existing key keeps its place and
      takes the new value. */
  function Put(d: Index, e: Event): Index {
    if e.iCalUID in d.vals then Index(d.keys, d.vals[e.iCalUID := e])
    else Index(d.keys + [e.iCalUID], d.vals[e.iCalUID := e])
  }

  function NotIn(s: set<string>): string -> bool {
    k => k !in s
  }

  /** The dict with the keys in `s` popped. */
  function Without(d: Index, s: set<string>): Index {
    Index(Filter(NotIn(s), d.keys), d.vals - s)
  }

  /** `{event.iCalUID: event for event in existing}`, built left to right. */
  function IndexOf(existing: seq<Event>): (d: Index)
    ensures ValidIndex(d)
  {
    if existing == [] then Index([], map[])
    else
      var d := IndexOf(existing[..|existing| - 1]);
      PutValid(d, existing[|existing| - 1]);
      Put(d, existing[|existing| - 1])
  }

  function Uids(s: seq<Event>): set<string> {
    set i | 0 <= i < |s| :: s[i].iCalUID
  }

  lemma PutValid(d: Index, e: Event)
    requires ValidIndex(d)
    ensures ValidIndex(Put(d, e))
  {
    if e.iCalUID !in d.vals {
      assert e.iCalUID !in d.keys;
      assert ToSet(d.keys + [e.iCalUID]) == ToSet(d.keys) + {e.iCalUID};
    }
  }

  /** The index holds exactly the existing uids. */
  lemma {:induction false} IndexOfKeys(existing: seq<Event>)
    ensures IndexOf(existing).vals.Keys == Uids(existing)
  {
    if existing != [] {
      var init, e := existing[..|existing| - 1], existing[|existing| - 1];
      IndexOfKeys(init);
      InitLast(existing);
      UidsSnoc(init, e);
    }
  }

  /** Each uid holds the LAST existing event of that uid: a later duplicate
      overwrites an earlier one. */
  lemma {:induction false} IndexOfLastWins(existing: seq<Event>)
    ensures forall k :: k in IndexOf(existing).vals ==>
      exists i :: 0 <= i < |existing| && existing[i] == IndexOf(existing).vals[k] &&
        forall j :: i < j < |existing| ==> existing[j].iCalUID != k
  {
    if existing != [] {
      var init, e := existing[..|existing| - 1], existing[|existing| - 1];
      IndexOfLastWins(init);
      InitLast(existing);
      var d := IndexOf(existing);
      forall k | k in d.vals
        ensures exists i :: 0 <= i < |existing| && existing[i] == d.vals[k] &&
                  (forall j :: i < j < |existing| ==> existing[j].iCalUID != k)
      {
        assert d == Put(IndexOf(init), e);
        if k == e.iCalUID {
          assert existing[|existing| - 1] == d.vals[k];
        } else {
          assert k in IndexOf(init).vals;
          var i :| 0 <= i < |init| && init[i] == IndexOf(init).vals[k] &&
            forall j :: i < j < |init| ==> init[j].iCalUID != k;
          assert existing[i] == d.vals[k];
        }
      }
    }
  }

  // ------------------------------------------------------------------ The loop

  /** The loop's state: the events still to remove and the updated events so far. */
  datatype SyncState = SyncState(toRemove: Index, updated: seq<Event>)

  /** Whether new event `e` is emitted against its popped match: when there is none,
      or when the hashes differ. */
  predicate Changed(h: Hasher, e: Event, match_: Option<Event>) {
    match_.None? || PydanticHash(h, e) != PydanticHash(h, match_.value)
  }

  /** `d.pop(uid, None)`: the entry, if any. */
  function Get(d: Index, uid: string): Option<Event> {
    if uid in d.vals then Some(d.vals[uid]) else None
  }

  /** One iteration: pop the match of `e`, and re-stamp and append `e` if changed. */
  function SyncStep(h: Hasher, now: int, st: SyncState, e: Event): (r: SyncState)
    requires ValidIndex(st.toRemove)
    ensures ValidIndex(r.toRemove)
  {
    var d := st.toRemove;
    var match_ := Get(d, e.iCalUID);
    WithoutValid(d, {e.iCalUID});
    var rest := Without(d, {e.iCalUID});
    if Changed(h, e, match_) then SyncState(rest, st.updated + [e.(sequence := now)])
    else SyncState(rest, st.updated)
  }

  /** The loop over the new events, left to right. */
  function SyncLoop(h: Hasher, now: int, existing: seq<Event>, news: seq<Event>): (r: SyncState)
    ensures ValidIndex(r.toRemove)
  {
    if news == [] then SyncState(IndexOf(existing), [])
    else SyncStep(h, now, SyncLoop(h, now, existing, news[..|news| - 1]), news[|news| - 1])
  }

  /** Every event left in the dict, in its order, marked deleted. */
  function Tombstones(d: Index): (r: seq<Event>)
    requires forall i :: 0 <= i < |d.keys| ==> d.keys[i] in d.vals
    ensures |r| == |d.keys|
    ensures forall i :: 0 <= i < |r| ==> r[i] == d.vals[d.keys[i]].(deleted := true)
  {
    seq(|d.keys|, i requires 0 <= i < |d.keys| => d.vals[d.keys[i]].(deleted := true))
  }

  lemma {:induction false} FilterNotInKeys(keys: seq<string>, s: set<string>, vals: map<string, Event>)
    requires ToSet(keys) == vals.Keys
    ensures ToSet(Filter(NotIn(s), keys)) == (vals - s).Keys
  {
    var f := Filter(NotIn(s), keys);
    forall k | k in ToSet(f) ensures k in vals && k !in s {
      var i :| 0 <= i < |f| && f[i] == k;
    }
    forall k | k in vals && k !in s ensures k in ToSet(f) {
      assert k in ToSet(keys);
      var i :| 0 <= i < |keys| && keys[i] == k;
      assert NotIn(s)(keys[i]);
    }
  }

  lemma {:induction false} FilterNoDup(p: string -> bool, keys: seq<string>)
    requires NoDup(keys)
    ensures NoDup(Filter(p, keys))
  {
    if keys != [] {
      NoDupTail(keys);
      FilterNoDup(p, keys[1..]);
      if p(keys[0]) {
        var rest := Filter(p, keys[1..]);
        assert keys[0] !in rest;
        var r := [keys[0]] + rest;
        forall i, j | 0 <= i < j < |r| ensures r[i] != r[j] {
          if i == 0 {
            assert r[j] == rest[j - 1];
          } else {
            assert r[i] == rest[i - 1] && r[j] == rest[j - 1];
          }
        }
      }
    }
  }

  lemma WithoutValid(d: Index, s: set<string>)
    requires ValidIndex(d)
    ensures ValidIndex(Without(d, s))
  {
    FilterNoDup(NotIn(s), d.keys);
    FilterNotInKeys(d.keys, s, d.vals);
  }

  lemma {:induction false} FilterNotInTwice(keys: seq<string>, a: set<string>, b: set<string>)
    ensures Filter(NotIn(b), Filter(NotIn(a), keys)) == Filter(NotIn(a + b), keys)
  {
    if keys != [] {
      FilterNotInTwice(keys[1..], a, b);
    }
  }

  lemma WithoutTwice(d: Index, a: set<string>, b: set<string>)
    ensures Without(Without(d, a), b) == Without(d, a + b)
  {
    FilterNotInTwice(d.keys, a, b);
  }

  lemma UidsSnoc(s: seq<Event>, e: Event)
    ensures Uids(s + [e]) == Uids(s) + {e.iCalUID}
  {
    var t := s + [e];
    assert t[|s|] == e;
    forall k | k in Uids(s) ensures k in Uids(t) {
      var i :| 0 <= i < |s| && s[i].iCalUID == k;
      assert t[i] == s[i];
    }
  }

  lemma KeysInVals(d: Index)
    requires ValidIndex(d)
    ensures forall i :: 0 <= i < |d.keys| ==> d.keys[i] in d.vals
  {
    forall i | 0 <= i < |d.keys| ensures d.keys[i] in d.vals {
      assert d.keys[i] in ToSet(d.keys);
    }
  }

  lemma WithoutNothing(d: Index)
    ensures Without(d, {}) == d
  {
    var none: set<string> := {};
    forall i | 0 <= i < |d.keys| ensures NotIn(none)(d.keys[i]) {
    }
    FilterAll(NotIn(none), d.keys);
    assert d.vals - none == d.vals;
  }

  /** After the new events `news`, the events still to remove are the index without
      every uid seen so far. */
  lemma {:induction false} PendingAfter(h: Hasher, now: int, existing: seq<Event>, news: seq<Event>)
    ensures SyncLoop(h, now, existing, news).toRemove == Without(IndexOf(existing), Uids(news))
  {
    if news == [] {
      assert Uids(news) == {};
      WithoutNothing(IndexOf(existing));
    } else {
      var init, e := news[..|news| - 1], news[|news| - 1];
      PendingAfter(h, now, existing, init);
      assert SyncLoop(h, now, existing, news).toRemove == Without(SyncLoop(h, now, existing, init).toRemove, {e.iCalUID});
      WithoutTwice(IndexOf(existing), Uids(init), {e.iCalUID});
      InitLast(news);
      UidsSnoc(init, e);
    }
  }

  /** Whether the `i`-th new event is emitted, stated on the original index: its uid
      is not indexed, or an earlier new event already took it, or the hashes differ. */
  predicate Emitted(h: Hasher, existing: seq<Event>, news: seq<Event>, i: nat)
    requires i < |news|
  {
    var d := IndexOf(existing);
    var uid := news[i].iCalUID;
    uid !in d.vals || uid in Uids(news[..i]) || PydanticHash(h, news[i]) != PydanticHash(h, d.vals[uid])
  }

  /** The emitted new events, in input order, stamped with `now`. */
  function EmittedEvents(h: Hasher, now: int, existing: seq<Event>, news: seq<Event>): seq<Event> {
    if news == [] then []
    else
      var n := |news| - 1;
      EmittedEvents(h, now, existing, news[..n]) +
        (if Emitted(h, existing, news, n) then [news[n].(sequence := now)] else [])
  }

  /** The updated list holds exactly the emitted events, in input order, re-stamped. */
  lemma {:induction false} UpdatedAfter(h: Hasher, now: int, existing: seq<Event>, news: seq<Event>)
    ensures SyncLoop(h, now, existing, news).updated == EmittedEvents(h, now, existing, news)
  {
    if news != [] {
      var n := |news| - 1;
      var init, e := news[..n], news[n];
      UpdatedAfter(h, now, existing, init);
      PendingAfter(h, now, existing, init);
      assert news[..n] == init;
      var d := SyncLoop(h, now, existing, init).toRemove;
      var idx := IndexOf(existing);
      assert e.iCalUID in d.vals <==> e.iCalUID in idx.vals && e.iCalUID !in Uids(init);
      if e.iCalUID in d.vals {
        assert d.vals[e.iCalUID] == idx.vals[e.iCalUID];
      }
    }
  }

  /** `sync_to_target`'s batch: the updated events followed by the tombstones. */
  function SyncBatch(h: Hasher, now: int, existing: seq<Event>, news: seq<Event>): seq<Event> {
    var st := SyncLoop(h, now, existing, news);
    st.updated + Tombstones(st.toRemove)
  }

  // ----------------------------------------------------------------- The method

  /** `sync_to_target`: index, pop and re-stamp, tombstone the rest. */
  method SyncToTarget(h: Hasher, now: int, existing: seq<Event>, news: seq<Event>) returns (batch: seq<Event>)
    ensures batch == SyncBatch(h, now, existing, news)
  {
    var toRemove := Index([], map[]);
    for i := 0 to |existing|
      invariant toRemove == IndexOf(existing[..i])
    {
      assert existing[..i + 1][..i] == existing[..i];
      toRemove := Put(toRemove, existing[i]);
    }
    assert existing[..|existing|] == existing;
    var updated: seq<Event> := [];
    for i := 0 to |news|
      invariant SyncState(toRemove, updated) == SyncLoop(h, now, existing, news[..i])
    {
      assert news[..i + 1][..i] == news[..i];
      var e := news[i];
      var old_ := Get(toRemove, e.iCalUID);
      toRemove := Without(toRemove, {e.iCalUID});
      if old_.None? || PydanticHash(h, e) != PydanticHash(h, old_.value) {
        updated := updated + [e.(sequence := now)];
      }
    }
    assert news[..|news|] == news;
    KeysInVals(toRemove);
    var removed := MarkDeleted(toRemove);
    batch := updated + removed;
  }

  /** `removed_event.deleted = True` for every event left in the dict. */
  method MarkDeleted(d: Index) returns (removed: seq<Event>)
    requires forall i :: 0 <= i < |d.keys| ==> d.keys[i] in d.vals
    ensures removed == Tombstones(d)
  {
    removed := [];
    for i := 0 to |d.keys|
      invariant |removed| == i
      invariant forall j :: 0 <= j < i ==> removed[j] == d.vals[d.keys[j]].(deleted := true)
    {
      removed := removed + [d.vals[d.keys[i]].(deleted := true)];
    }
  }

  // ----------------------------------------------------------------- Properties

  /** A new event with no match or with a changed hash is emitted once, stamped with
      `now`; an unchanged one is not; every updated event carries `now`. */
  lemma UpdatesStamped(h: Hasher, now: int, existing: seq<Event>, news: seq<Event>)
    ensures var u := SyncLoop(h, now, existing, news).updated;
      |u| <= |news| && forall i :: 0 <= i < |u| ==> u[i].sequence == now
  {
    UpdatedAfter(h, now, existing, news);
    EmittedStamped(h, now, existing, news);
  }

  lemma {:induction false} EmittedStamped(h: Hasher, now: int, existing: seq<Event>, news: seq<Event>)
    ensures var u := EmittedEvents(h, now, existing, news);
      |u| <= |news| && forall i :: 0 <= i < |u| ==> u[i].sequence == now
  {
    if news != [] {
      EmittedStamped(h, now, existing, news[..|news| - 1]);
    }
  }

  /** The tombstones are exactly the existing uids no new event matched, one each,
      every one marked deleted; no matched uid is tombstoned. */
  lemma TombstonesCorrect(h: Hasher, now: int, existing: seq<Event>, news: seq<Event>)
    ensures var st := SyncLoop(h, now, existing, news);
      var t := Tombstones(st.toRemove);
      (forall i :: 0 <= i < |t| ==> t[i].deleted && t[i].iCalUID in Uids(existing) && t[i].iCalUID !in Uids(news)) &&
      (forall i, j :: 0 <= i < j < |t| ==> t[i].iCalUID != t[j].iCalUID) &&
      (forall k :: k in Uids(existing) && k !in Uids(news) ==> exists i :: 0 <= i < |t| && t[i].iCalUID == k)
  {
    PendingAfter(h, now, existing, news);
    IndexOfKeys(existing);
    var d := IndexOf(existing);
    var st := SyncLoop(h, now, existing, news);
    var r := st.toRemove;
    var t := Tombstones(r);
    forall i | 0 <= i < |t|
      ensures t[i].deleted && t[i].iCalUID in Uids(existing) && t[i].iCalUID !in Uids(news)
    {
      assert r.keys[i] in ToSet(r.keys);
    }
    forall k | k in Uids(existing) && k !in Uids(news)
      ensures exists i :: 0 <= i < |t| && t[i].iCalUID == k
    {
      assert k in r.vals;
      assert k in ToSet(r.keys);
      var i :| 0 <= i < |r.keys| && r.keys[i] == k;
      assert t[i].iCalUID == k;
    }
  }

  /** The batch is the updated events followed by the tombstones, whatever the hash. */
  lemma BatchOrder(h: Hasher, now: int, existing: seq<Event>, news: seq<Event>)
    ensures var b := SyncBatch(h, now, existing, news);
      var u := EmittedEvents(h, now, existing, news);
      |u| <= |b| && b[..|u|] == u && forall i :: |u| <= i < |b| ==> b[i].deleted
  {
    UpdatedAfter(h, now, existing, news);
    var st := SyncLoop(h, now, existing, news);
    DeletedTail(st.updated, Tombstones(st.toRemove));
  }

  lemma DeletedTail(u: seq<Event>, t: seq<Event>)
    requires forall i :: 0 <= i < |t| ==> t[i].deleted
    ensures (u + t)[..|u|] == u
    ensures forall i :: |u| <= i < |u + t| ==> (u + t)[i].deleted
  {
    forall i | |u| <= i < |u + t| ensures (u + t)[i].deleted {
      assert (u + t)[i] == t[i - |u|];
    }
  }

  predicate DistinctUids(s: seq<Event>) {
    forall i, j :: 0 <= i < j < |s| ==> s[i].iCalUID != s[j].iCalUID
  }

  /** Idempotence: new events with distinct uids, exactly the existing uids, each
      hashing like its existing counterpart, give an empty batch. */
  lemma Idempotent(h: Hasher, now: int, existing: seq<Event>, news: seq<Event>)
    requires DistinctUids(news)
    requires Uids(news) == Uids(existing)
    requires forall i, j :: 0 <= i < |news| && 0 <= j < |existing| && news[i].iCalUID == existing[j].iCalUID ==>
      PydanticHash(h, news[i]) == PydanticHash(h, existing[j])
    ensures SyncBatch(h, now, existing, news) == []
  {
    NoneEmitted(h, now, existing, news, |news|);
    assert news[..|news|] == news;
    UpdatedAfter(h, now, existing, news);
    PendingAfter(h, now, existing, news);
    IndexOfKeys(existing);
    var r := SyncLoop(h, now, existing, news).toRemove;
    assert r.vals.Keys == {};
    FirstInToSet(r.keys);
    assert r.keys == [];
  }

  lemma FirstInToSet<T>(s: seq<T>)
    ensures s != [] ==> s[0] in ToSet(s)
  {
  }

  lemma {:induction false} NoneEmitted(h: Hasher, now: int, existing: seq<Event>, news: seq<Event>, n: nat)
    requires n <= |news|
    requires DistinctUids(news)
    requires Uids(news) == Uids(existing)
    requires forall i, j :: 0 <= i < |news| && 0 <= j < |existing| && news[i].iCalUID == existing[j].iCalUID ==>
      PydanticHash(h, news[i]) == PydanticHash(h, existing[j])
    ensures EmittedEvents(h, now, existing, news[..n]) == []
  {
    if n > 0 {
      NoneEmitted(h, now, existing, news, n - 1);
      var p := news[..n];
      assert p[..n - 1] == news[..n - 1];
      IndexOfKeys(existing);
      IndexOfLastWins(existing);
      var d := IndexOf(existing);
      var uid := news[n - 1].iCalUID;
      assert uid in Uids(existing);
      var j :| 0 <= j < |existing| && existing[j] == d.vals[uid] &&
        forall m :: j < m < |existing| ==> existing[m].iCalUID != uid;
      assert uid !in Uids(p[..n - 1]);
      assert !Emitted(h, existing, p, n - 1);
    }
  }

  /** In particular, syncing the target's own events back to it changes nothing. */
  lemma SyncSelfIsEmpty(h: Hasher, now: int, existing: seq<Event>)
    requires DistinctUids(existing)
    ensures SyncBatch(h, now, existing, existing) == []
  {
    Idempotent(h, now, existing, existing);
  }
}

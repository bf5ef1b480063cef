/** The calendar processor: each source's transforms are built from the configuration
    and applied in order to the source's listed events, the sources' events are
    chained in configuration order, reconciled with the target's listing, and the
    resulting batch is planned as backend operations. */
module Processor {
  import opened Wrappers
  import opened Types
  import opened Seqs
  import opened Transforms
  import opened Reconcile
  import opened GoogleCalendar

  // ------------------------------------------------------------- Configuration

  /** `TransformModel`: a registered class name and its optional keyword arguments. */
  datatype TransformConfig = TransformConfig(kind: string, kwargs: Option<Kwargs>)

  /** `SourceModel`: a calendar id and its transforms. */
  datatype SourceConfig = SourceConfig(id: string, transforms: seq<TransformConfig>)

  /** `ConfigModel`: the sources and the target calendar id. */
  datatype Config = Config(sources: seq<SourceConfig>, target: string)

  /** The backend's records of a calendar within the processed window. */
  type Backend = string -> seq<GEvent>

  // --------------------------------------------------------- One source's events

  /** `TRANSFORMERS[type](**(kwargs or {}))`. */
  function Build(rx: Regex, transformers: map<string, Kind>, c: TransformConfig): Result<Transform> {
    var k :- if c.kind in transformers then Ok(transformers[c.kind]) else Err(KeyError(c.kind));
    Construct(rx, k, c.kwargs.GetOr([]))
  }

  function BuildEach(rx: Regex, transformers: map<string, Kind>): TransformConfig -> Result<Transform> {
    c => Build(rx, transformers, c)
  }

  /** The transforms of a source, built in order; the first failure is reported. */
  function BuildAll(rx: Regex, transformers: map<string, Kind>, cs: seq<TransformConfig>): Result<seq<Transform>> {
    MapR(BuildEach(rx, transformers), cs)
  }

  /** `events = transform.process(events)` for each transform in turn. */
  function ApplyChain(rx: Regex, ts: seq<Transform>, events: seq<Event>): Result<seq<Event>> {
    if ts == [] then Ok(events)
    else
      var before :- ApplyChain(rx, ts[..|ts| - 1], events);
      Apply(rx, ts[|ts| - 1], before)
  }

  /** What `process_source` yields: the transforms are built before anything is
      listed, then the listing runs through the chain. */
  function SourceEvents(rx: Regex, transformers: map<string, Kind>, backend: Backend, src: SourceConfig): Result<seq<Event>> {
    var ts :- BuildAll(rx, transformers, src.transforms);
    var events :- Listed(src.id, backend(src.id));
    ApplyChain(rx, ts, events)
  }

  /** `process_source` over a registry: builds every transform, lists the source and
      applies the transforms one after the other. */
  method ProcessSource(rx: Regex, reg: Registry, backend: Backend, src: SourceConfig) returns (r: Result<seq<Event>>)
    ensures r == SourceEvents(rx, reg.transformers, backend, src)
  {
    var ts := BuildTransforms(rx, reg, src.transforms);
    if ts.Err? {
      return Err(ts.error);
    }
    var listed := ListEvents(src.id, backend(src.id));
    if listed.Err? {
      return Err(listed.error);
    }
    r := RunChain(rx, ts.value, listed.value);
  }

  /** The list of transforms of `process_source`: each class is looked up in the
      registry and constructed with its keyword arguments, in order. */
  method BuildTransforms(rx: Regex, reg: Registry, cs: seq<TransformConfig>) returns (r: Result<seq<Transform>>)
    ensures r == BuildAll(rx, reg.transformers, cs)
  {
    var each := BuildEach(rx, reg.transformers);
    var ts: seq<Transform> := [];
    for i := 0 to |cs|
      invariant MapR(each, cs[..i]) == Ok(ts)
    {
      var k := reg.Get(cs[i].kind);
      if k.Err? {
        BuildStopsAt(each, cs, i, ts);
        return Err(k.error);
      }
      var t := Construct(rx, k.value, cs[i].kwargs.GetOr([]));
      if t.Err? {
        BuildStopsAt(each, cs, i, ts);
        return Err(t.error);
      }
      assert each(cs[i]) == t;
      MapRSnoc(each, cs[..i], cs[i], ts);
      assert cs[..i + 1] == cs[..i] + [cs[i]];
      ts := ts + [t.value];
    }
    assert cs[..|cs|] == cs;
    r := Ok(ts);
  }

  /** `events = transform.process(events)` for each transform in turn. */
  method RunChain(rx: Regex, ts: seq<Transform>, listed: seq<Event>) returns (r: Result<seq<Event>>)
    ensures r == ApplyChain(rx, ts, listed)
  {
    var events := listed;
    for i := 0 to |ts|
      invariant ApplyChain(rx, ts[..i], listed) == Ok(events)
    {
      assert ts[..i + 1][..i] == ts[..i];
      var next := Apply(rx, ts[i], events);
      if next.Err? {
        ChainStopsAt(rx, ts, listed, i + 1);
        return Err(next.error);
      }
      events := next.value;
    }
    assert ts[..|ts|] == ts;
    r := Ok(events);
  }

  /** A build that fails at the `i`-th configuration, after `i` successful ones,
      fails the whole list with its error. */
  lemma BuildStopsAt<T, U>(f: T -> Result<U>, cs: seq<T>, i: nat, ts: seq<U>)
    requires i < |cs| && f(cs[i]).Err?
    requires MapR(f, cs[..i]) == Ok(ts)
    ensures MapR(f, cs) == Err(f(cs[i]).error)
  {
    forall k | 0 <= k < i ensures f(cs[k]).Ok? {
      assert cs[k] == cs[..i][k];
    }
    MapRFirstErr(f, cs, i);
  }

  /** A chain whose prefix fails fails with that error. */
  lemma {:induction false} ChainStopsAt(rx: Regex, ts: seq<Transform>, events: seq<Event>, k: nat)
    requires k <= |ts| && ApplyChain(rx, ts[..k], events).Err?
    ensures ApplyChain(rx, ts, events) == ApplyChain(rx, ts[..k], events)
    decreases |ts|
  {
    if k < |ts| {
      var init := ts[..|ts| - 1];
      assert init[..k] == ts[..k];
      ChainStopsAt(rx, init, events, k);
    } else {
      assert ts[..k] == ts;
    }
  }

  /** Chaining composes: the transforms `a + b` are the transforms `a`, then `b` on
      their output; a failure in `a` is final. */
  lemma {:induction false} ChainAppend(rx: Regex, a: seq<Transform>, b: seq<Transform>, events: seq<Event>)
    ensures ApplyChain(rx, a + b, events) ==
      if ApplyChain(rx, a, events).Err? then ApplyChain(rx, a, events)
      else ApplyChain(rx, b, ApplyChain(rx, a, events).value)
    decreases |b|
  {
    if b == [] {
      assert a + b == a;
    } else {
      var init := b[..|b| - 1];
      assert (a + b)[..|a + b| - 1] == a + init;
      assert (a + b)[|a + b| - 1] == b[|b| - 1];
      ChainAppend(rx, a, init, events);
    }
  }

  /** A single transform's chain is that transform. */
  lemma ChainOne(rx: Regex, t: Transform, events: seq<Event>)
    ensures ApplyChain(rx, [t], events) == Apply(rx, t, events)
  {
    assert [t][..0] == [];
  }

  /** An unregistered type name fails the source with KeyError on that name once
      every transform before it was built. */
  lemma UnknownTransform(rx: Regex, transformers: map<string, Kind>, backend: Backend, src: SourceConfig, i: nat)
    requires i < |src.transforms| && src.transforms[i].kind !in transformers
    requires forall k :: 0 <= k < i ==> Build(rx, transformers, src.transforms[k]).Ok?
    ensures SourceEvents(rx, transformers, backend, src) == Err(KeyError(src.transforms[i].kind))
  {
    var each := BuildEach(rx, transformers);
    forall k | 0 <= k < i ensures each(src.transforms[k]).Ok? {
    }
    MapRFirstErr(each, src.transforms, i);
  }

  // ------------------------------------------------------------- All sources

  /** The concatenation of `f` over `xs` in order, stopping at the first failure. */
  function Concat<S, T>(f: S -> Result<seq<T>>, xs: seq<S>): Result<seq<T>> {
    if xs == [] then Ok([])
    else
      var before :- Concat(f, xs[..|xs| - 1]);
      var last :- f(xs[|xs| - 1]);
      Ok(before + last)
  }

  function SourceEach(rx: Regex, transformers: map<string, Kind>, backend: Backend): SourceConfig -> Result<seq<Event>> {
    src => SourceEvents(rx, transformers, backend, src)
  }

  /** `itertools.chain` of the sources' events, in configuration order. */
  function AllSources(rx: Regex, transformers: map<string, Kind>, backend: Backend, sources: seq<SourceConfig>): Result<seq<Event>> {
    Concat(SourceEach(rx, transformers, backend), sources)
  }

  /** The concatenation over two groups is the first group's followed by the
      second's; any failure fails the whole. */
  lemma {:induction false} ConcatAppend<S, T>(f: S -> Result<seq<T>>, a: seq<S>, b: seq<S>)
    ensures Concat(f, a + b).Ok? <==> Concat(f, a).Ok? && Concat(f, b).Ok?
    ensures Concat(f, a + b).Ok? ==> Concat(f, a + b).value == Concat(f, a).value + Concat(f, b).value
    decreases |b|
  {
    if b == [] {
      assert a + b == a;
    } else {
      var init := b[..|b| - 1];
      assert (a + b)[..|a + b| - 1] == a + init;
      assert (a + b)[|a + b| - 1] == b[|b| - 1];
      ConcatAppend(f, a, init);
      var ra := Concat(f, a);
      var ri := Concat(f, init);
      var last := f(b[|b| - 1]);
      if ra.Ok? && ri.Ok? && last.Ok? {
        assert ra.value + ri.value + last.value == ra.value + (ri.value + last.value);
      }
    }
  }

  /** A concatenation whose prefix fails fails with that error. */
  lemma {:induction false} ConcatStopsAt<S, T>(f: S -> Result<seq<T>>, xs: seq<S>, k: nat)
    requires k <= |xs| && Concat(f, xs[..k]).Err?
    ensures Concat(f, xs) == Concat(f, xs[..k])
    decreases |xs|
  {
    if k < |xs| {
      var init := xs[..|xs| - 1];
      assert init[..k] == xs[..k];
      ConcatStopsAt(f, init, k);
    } else {
      assert xs[..k] == xs;
    }
  }

  /** The chained events of two groups of sources are the first group's followed by
      the second's; any failure fails the whole. */
  lemma AllSourcesAppend(rx: Regex, transformers: map<string, Kind>, backend: Backend,
                         a: seq<SourceConfig>, b: seq<SourceConfig>)
    ensures var ra, rb, r := AllSources(rx, transformers, backend, a), AllSources(rx, transformers, backend, b),
      AllSources(rx, transformers, backend, a + b);
      (r.Ok? <==> ra.Ok? && rb.Ok?) && (r.Ok? ==> r.value == ra.value + rb.value)
  {
    ConcatAppend(SourceEach(rx, transformers, backend), a, b);
  }

  /** One source's chained events are its own events. */
  lemma AllSourcesOne(rx: Regex, transformers: map<string, Kind>, backend: Backend, src: SourceConfig)
    ensures AllSources(rx, transformers, backend, [src]) == SourceEvents(rx, transformers, backend, src)
  {
    ConcatOne(SourceEach(rx, transformers, backend), src);
  }

  lemma ConcatOne<S, T>(f: S -> Result<seq<T>>, x: S)
    ensures Concat(f, [x]) == f(x)
  {
    assert [x][..0] == [];
    if f(x).Ok? {
      assert [] + f(x).value == f(x).value;
    }
  }

  // ----------------------------------------------------------- The whole run

  /** `process`: the target is listed first, then the sources' events are reconciled
      with it, and the batch is planned. A failure anywhere plans nothing. */
  function PlanRun(rx: Regex, h: Hasher, now: int, transformers: map<string, Kind>, backend: Backend, config: Config): Result<seq<Op>> {
    var existing :- Listed(config.target, backend(config.target));
    var news :- AllSources(rx, transformers, backend, config.sources);
    Ok(PlanOf(config.target, SyncBatch(h, now, existing, news)).ops)
  }

  /** `process` with the registry, the clock reading `now` and the backend's
      listings: the operations the batch sent to the target holds. */
  method Process(rx: Regex, h: Hasher, now: int, reg: Registry, backend: Backend, config: Config) returns (r: Result<seq<Op>>)
    ensures r == PlanRun(rx, h, now, reg.transformers, backend, config)
  {
    var existing := ListEvents(config.target, backend(config.target));
    if existing.Err? {
      return Err(existing.error);
    }
    var news := ProcessSources(rx, reg, backend, config.sources);
    if news.Err? {
      return Err(news.error);
    }
    var batch := SyncToTarget(h, now, existing.value, news.value);
    var ops := SyncEvents(config.target, batch);
    r := Ok(ops);
  }

  /** The chained generator of `process`, drained source after source. */
  method ProcessSources(rx: Regex, reg: Registry, backend: Backend, sources: seq<SourceConfig>) returns (r: Result<seq<Event>>)
    ensures r == AllSources(rx, reg.transformers, backend, sources)
  {
    var each := SourceEach(rx, reg.transformers, backend);
    var news: seq<Event> := [];
    for i := 0 to |sources|
      invariant Concat(each, sources[..i]) == Ok(news)
    {
      assert sources[..i + 1][..i] == sources[..i];
      var events := ProcessSource(rx, reg, backend, sources[i]);
      assert each(sources[i]) == events;
      if events.Err? {
        ConcatStopsAt(each, sources, i + 1);
        return Err(events.error);
      }
      news := news + events.value;
    }
    assert sources[..|sources|] == sources;
    r := Ok(news);
  }

  /** Every event the run imports into the target is stamped with the run's clock
      reading, and every request addresses the target. */
  lemma ImportsStamped(rx: Regex, h: Hasher, now: int, transformers: map<string, Kind>, backend: Backend, config: Config)
    requires PlanRun(rx, h, now, transformers, backend, config).Ok?
    ensures var ops := PlanRun(rx, h, now, transformers, backend, config).value;
      forall j :: 0 <= j < |ops| ==> (ops[j].calendarId == config.target &&
        (ops[j].Import? ==> ops[j].body.sequence == Some(now)))
  {
    var existing := Listed(config.target, backend(config.target)).value;
    var news := AllSources(rx, transformers, backend, config.sources).value;
    var batch := SyncBatch(h, now, existing, news);
    var ops := PlanOf(config.target, batch).ops;
    PlanCounts(config.target, batch);
    PlanImportsFrom(config.target, batch);
    BatchOrder(h, now, existing, news);
    EmittedStamped(h, now, existing, news);
    var u := EmittedEvents(h, now, existing, news);
    forall j | 0 <= j < |ops| && ops[j].Import? ensures ops[j].body.sequence == Some(now) {
      var i :| 0 <= i < |batch| && !batch[i].deleted && ops[j].body == ToGEvent(batch[i]);
      assert i < |u|;
      assert batch[i] == batch[..|u|][i] == u[i];
    }
  }

  /** Re-running with sources that reproduce the target's events exactly (distinct
      uids, equal hashes) plans no operation at all. */
  lemma RerunPlansNothing(rx: Regex, h: Hasher, now: int, transformers: map<string, Kind>, backend: Backend, config: Config)
    requires Listed(config.target, backend(config.target)).Ok?
    requires AllSources(rx, transformers, backend, config.sources) == Listed(config.target, backend(config.target))
    requires DistinctUids(Listed(config.target, backend(config.target)).value)
    ensures PlanRun(rx, h, now, transformers, backend, config) == Ok([])
  {
    var existing := Listed(config.target, backend(config.target)).value;
    SyncSelfIsEmpty(h, now, existing);
  }
}

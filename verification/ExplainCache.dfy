/**
 `ProductionExplainService` (sql/explain_production.rs): a TTL cache and request metrics in front of
 the EXPLAIN planner. Each helper runs under its own lock, so concurrent `explain` calls interleave
 between them; runs are modelled as any interleaving of those locked sections and clock ticks.
 */
module ExplainCache {
  import opened Wrappers

  datatype Mode = Standard | Verbose | AI | Analyze

  /** A logical plan: its `Debug` text, and whatever that text does not show. */
  datatype LogicalPlan = LogicalPlan(debug: string, hidden: nat)

  /** An EXPLAIN output: what the planner determines, and the time planning took. */
  datatype Output = Output(body: string, planningTime: nat)

  type Planner = (LogicalPlan, Mode) -> Result<string>

  datatype Config = Config(enableCaching: bool, ttl: nat)

  datatype CachedExplain = CachedExplain(output: Output, cachedAt: nat, hits: nat)

  type Cache = map<string, CachedExplain>

  datatype Metrics = Metrics(
    totalRequests: nat, cacheHits: nat, cacheMisses: nat, errors: nat, totalLatency: nat, latencies: seq<nat>)

  // ---------------------------------------------------------------------------------------------
  // Cache keys
  // ---------------------------------------------------------------------------------------------

  function ModeName(m: Mode): (s: string)
    ensures '_' !in s
  {
    match m
    case Standard => "Standard"
    case Verbose => "Verbose"
    case AI => "AI"
    case Analyze => "Analyze"
  }

  /** `{:?}_{:?}` of plan and mode. */
  function CacheKey(plan: LogicalPlan, mode: Mode): (key: string) {
    plan.debug + "_" + ModeName(mode)
  }

  lemma UnderscoreSplits(a: string, x: string, b: string, y: string)
    requires a + "_" + x == b + "_" + y && '_' !in x && '_' !in y
    ensures a == b && x == y
  {
    var s := a + "_" + x;
    assert s[|a|] == '_' && s[|b|] == '_';
    assert forall i :: |a| < i < |s| ==> s[i] == x[i - |a| - 1];
    assert forall i :: |b| < i < |s| ==> s[i] == y[i - |b| - 1];
    assert |a| == |b|;
    assert a == s[..|a|] && b == s[..|b|] && x == s[|a| + 1..] && y == s[|b| + 1..];
  }

  /** Keys are equal only for plans that print alike, in the same mode. */
  lemma CacheKeyExactly(p: LogicalPlan, m: Mode, p': LogicalPlan, m': Mode)
    ensures CacheKey(p, m) == CacheKey(p', m') <==> p.debug == p'.debug && m == m'
  {
    if CacheKey(p, m) == CacheKey(p', m') {
      UnderscoreSplits(p.debug, ModeName(m), p'.debug, ModeName(m'));
      assert ModeName(m)[1] == ModeName(m')[1] && |ModeName(m)| == |ModeName(m')|;
    }
  }

  // ---------------------------------------------------------------------------------------------
  // The locked sections
  // ---------------------------------------------------------------------------------------------

  /** The entry a lookup answers from, if it is still fresh. */
  function Fresh(cache: Cache, key: string, now: nat, ttl: nat): (r: Option<CachedExplain>) {
    if key in cache && now - cache[key].cachedAt < ttl then Some(cache[key]) else None
  }

  /** The cache after a lookup: a hit is counted, an expired entry is dropped. */
  function AfterLookup(cache: Cache, key: string, now: nat, ttl: nat): (c: Cache) {
    if key !in cache then cache
    else if now - cache[key].cachedAt < ttl then cache[key := cache[key].(hits := cache[key].hits + 1)]
    else cache - {key}
  }

  function AfterRequest(m: Metrics, latency: nat): (r: Metrics) {
    m.(totalRequests := m.totalRequests + 1, totalLatency := m.totalLatency + latency,
       latencies := m.latencies + [latency])
  }

  function Sum(xs: seq<nat>): (s: nat) {
    if xs == [] then 0 else Sum(xs[..|xs| - 1]) + xs[|xs| - 1]
  }

  /** The clock readings of one call: when it starts, looks up, has planned, stores and is done. */
  datatype Times = Times(start: nat, checked: nat, planned: nat, stored: nat, done: nat)

  predicate InOrder(t: Times) {
    t.start <= t.checked <= t.planned <= t.stored <= t.done
  }

  /** What one undisturbed call answers and leaves behind. */
  datatype Effect = Effect(answer: Result<Output>, cache: Cache, metrics: Metrics)

  function SoloEffect(
    cache: Cache, metrics: Metrics, plan: LogicalPlan, mode: Mode, cfg: Config, planner: Planner, t: Times): (e: Effect)
    requires InOrder(t)
  {
    var key := CacheKey(plan, mode);
    var hit := if cfg.enableCaching then Fresh(cache, key, t.checked, cfg.ttl) else None;
    var looked := if cfg.enableCaching then AfterLookup(cache, key, t.checked, cfg.ttl) else cache;
    var missed := metrics.(cacheMisses := metrics.cacheMisses + 1);
    if hit.Some? then Effect(Ok(hit.value.output), looked, metrics.(cacheHits := metrics.cacheHits + 1))
    else match planner(plan, mode)
      case Err => Effect(Err, looked, missed)
      case Ok(body) =>
        var output := Output(body, t.planned - t.checked);
        Effect(Ok(output), if cfg.enableCaching then looked[key := CachedExplain(output, t.stored, 0)] else looked,
               AfterRequest(missed, t.done - t.start))
  }

  const NO_METRICS := Metrics(0, 0, 0, 0, 0, [])

  class ProductionExplainService {
    const config: Config
    var cache: Cache
    var metrics: Metrics

    constructor (config: Config)
      ensures this.config == config && cache == map[] && metrics == NO_METRICS
    {
      this.config, cache, metrics := config, map[], NO_METRICS;
    }

    method CheckCache(key: string, now: nat) returns (r: Option<Output>)
      modifies this`cache
      ensures r.Some? <==> key in old(cache) && now < old(cache)[key].cachedAt + config.ttl
      ensures r.Some? ==>
                var e := old(cache)[key];
                r.value == e.output && cache == old(cache)[key := CachedExplain(e.output, e.cachedAt, e.hits + 1)]
      ensures r.None? ==> cache == old(cache) - {key}
    {
      if key in cache {
        var cached := cache[key];
        if now - cached.cachedAt < config.ttl {
          cache := cache[key := cached.(hits := cached.hits + 1)];
          return Some(cached.output);
        } else {
          cache := cache - {key};
        }
      }
      r := None;
    }

    method CacheResult(key: string, output: Output, now: nat)
      modifies this`cache
      ensures cache == old(cache)[key := CachedExplain(output, now, 0)]
    {
      cache := cache[key := CachedExplain(output, now, 0)];
    }

    method RecordRequest(latency: nat)
      modifies this`metrics
      ensures metrics == AfterRequest(old(metrics), latency)
    {
      metrics := metrics.(totalRequests := metrics.totalRequests + 1);
      metrics := metrics.(totalLatency := metrics.totalLatency + latency);
      metrics := metrics.(latencies := metrics.latencies + [latency]);
    }

    method RecordCacheHit()
      modifies this`metrics
      ensures metrics == old(metrics).(cacheHits := old(metrics).cacheHits + 1)
    {
      metrics := metrics.(cacheHits := metrics.cacheHits + 1);
    }

    method RecordCacheMiss()
      modifies this`metrics
      ensures metrics == old(metrics).(cacheMisses := old(metrics).cacheMisses + 1)
    {
      metrics := metrics.(cacheMisses := metrics.cacheMisses + 1);
    }

    method ClearCache()
      modifies this`cache
      ensures cache == map[]
    {
      cache := map[];
    }

    /** One call with the service to itself. */
    method Explain(plan: LogicalPlan, mode: Mode, planner: Planner, t: Times) returns (r: Result<Output>)
      requires InOrder(t)
      modifies this
      ensures Effect(r, cache, metrics) == SoloEffect(old(cache), old(metrics), plan, mode, config, planner, t)
    {
      if config.enableCaching {
        var cached := CheckCache(CacheKey(plan, mode), t.checked);
        if cached.Some? {
          RecordCacheHit();
          return Ok(cached.value);
        }
      }
      RecordCacheMiss();
      var body := planner(plan, mode);
      if body.Err? {
        return Err;
      }
      var output := Output(body.value, t.planned - t.checked);
      if config.enableCaching {
        CacheResult(CacheKey(plan, mode), output, t.stored);
      }
      RecordRequest(t.done - t.start);
      r := Ok(output);
    }
  }

  // ---------------------------------------------------------------------------------------------
  // Interleaved runs
  // ---------------------------------------------------------------------------------------------

  /** How far a call has come. An answer from the cache remembers when its entry was stored and checked. */
  datatype Stage =
    | Begun
    | FoundHit(output: Output, cachedAt: nat, checkedAt: nat)
    | FoundMiss
    | Planning
    | Planned(output: Output)
    | Stored(output: Output)
    | AnsweredFromCache(output: Output, cachedAt: nat, checkedAt: nat)
    | Answered(output: Output)
    | Failed

  datatype Call = Call(plan: LogicalPlan, mode: Mode, start: nat, stage: Stage)

  datatype State = State(cache: Cache, metrics: Metrics, now: nat, calls: seq<Call>)

  datatype Action =
    | Tick(d: nat)
    | Begin(plan: LogicalPlan, mode: Mode)
    | Check(i: nat)
    | RecordHit(i: nat)
    | RecordMiss(i: nat)
    | RunPlanner(i: nat, time: nat)
    | Store(i: nat)
    | Record(i: nat)
    | Clear

  const INIT := State(map[], NO_METRICS, 0, [])

  function At(s: State, i: nat, stage: Stage): (r: State)
    requires i < |s.calls|
  {
    s.(calls := s.calls[i := s.calls[i].(stage := stage)])
  }

  /** One locked section, or nothing if the call is not at that point. */
  function Step(s: State, a: Action, cfg: Config, planner: Planner): (r: State) {
    match a
    case Tick(d) => s.(now := s.now + d)
    case Begin(plan, mode) => s.(calls := s.calls + [Call(plan, mode, s.now, Begun)])
    case Clear => s.(cache := map[])
    case Check(i) =>
      if i >= |s.calls| || !s.calls[i].stage.Begun? then s
      else if !cfg.enableCaching then At(s, i, FoundMiss)
      else
        var key := CacheKey(s.calls[i].plan, s.calls[i].mode);
        var entry := Fresh(s.cache, key, s.now, cfg.ttl);
        At(s.(cache := AfterLookup(s.cache, key, s.now, cfg.ttl)), i,
           if entry.Some? then FoundHit(entry.value.output, entry.value.cachedAt, s.now) else FoundMiss)
    case RecordHit(i) =>
      if i >= |s.calls| || !s.calls[i].stage.FoundHit? then s
      else
        var hit := s.calls[i].stage;
        At(s.(metrics := s.metrics.(cacheHits := s.metrics.cacheHits + 1)), i,
           AnsweredFromCache(hit.output, hit.cachedAt, hit.checkedAt))
    case RecordMiss(i) =>
      if i >= |s.calls| || !s.calls[i].stage.FoundMiss? then s
      else At(s.(metrics := s.metrics.(cacheMisses := s.metrics.cacheMisses + 1)), i, Planning)
    case RunPlanner(i, time) =>
      if i >= |s.calls| || !s.calls[i].stage.Planning? then s
      else At(s, i, match planner(s.calls[i].plan, s.calls[i].mode)
                    case Err => Failed
                    case Ok(body) => Planned(Output(body, time)))
    case Store(i) =>
      if i >= |s.calls| || !s.calls[i].stage.Planned? then s
      else
        var call := s.calls[i];
        var entry := CachedExplain(call.stage.output, s.now, 0);
        var cache := if cfg.enableCaching then s.cache[CacheKey(call.plan, call.mode) := entry] else s.cache;
        At(s.(cache := cache), i, Stored(call.stage.output))
    case Record(i) =>
      if i >= |s.calls| || !s.calls[i].stage.Stored? || s.now < s.calls[i].start then s
      else At(s.(metrics := AfterRequest(s.metrics, s.now - s.calls[i].start)), i, Answered(s.calls[i].stage.output))
  }

  function Run(s: State, actions: seq<Action>, cfg: Config, planner: Planner): (r: State)
    decreases |actions|
  {
    if actions == [] then s else Run(Step(s, actions[0], cfg, planner), actions[1..], cfg, planner)
  }

  lemma RunCons(s: State, a: Action, rest: seq<Action>, cfg: Config, planner: Planner)
    ensures Run(s, [a] + rest, cfg, planner) == Run(Step(s, a, cfg, planner), rest, cfg, planner)
  {
    assert ([a] + rest)[1..] == rest;
  }

  lemma {:induction false} RunConcat(s: State, a: seq<Action>, b: seq<Action>, cfg: Config, planner: Planner)
    ensures Run(s, a + b, cfg, planner) == Run(Run(s, a, cfg, planner), b, cfg, planner)
    decreases |a|
  {
    if a == [] {
      assert a + b == b;
    } else {
      assert (a + b)[0] == a[0] && (a + b)[1..] == a[1..] + b;
      RunConcat(Step(s, a[0], cfg, planner), a[1..], b, cfg, planner);
    }
  }

  /** What a call that has returned has answered. */
  predicate HasAnswered(stage: Stage, answer: Result<Output>) {
    match stage
    case AnsweredFromCache(output, _, _) => answer == Ok(output)
    case Answered(output) => answer == Ok(output)
    case Failed => answer.Err?
    case _ => false
  }

  /** A state in which the last call has come to this stage. */
  function WithCall(s: State, cache: Cache, metrics: Metrics, now: nat, c: Call): (r: State) {
    State(cache, metrics, now, s.calls + [c])
  }

  lemma LastStage(s: State, cache: Cache, metrics: Metrics, now: nat, c: Call, stage: Stage)
    ensures At(WithCall(s, cache, metrics, now, c), |s.calls|, stage) ==
            WithCall(s, cache, metrics, now, c.(stage := stage))
  {
    assert (s.calls + [c])[|s.calls| := c.(stage := stage)] == s.calls + [c.(stage := stage)];
  }

  /** The sections of one call, with the ticks of the clock between them. */
  function LookUp(k: nat, plan: LogicalPlan, mode: Mode, t: Times): (actions: seq<Action>)
    requires InOrder(t)
  {
    [Begin(plan, mode), Tick(t.checked - t.start), Check(k)]
  }

  function Miss(k: nat, t: Times): (actions: seq<Action>)
    requires InOrder(t)
  {
    [RecordMiss(k), Tick(t.planned - t.checked), RunPlanner(k, t.planned - t.checked)]
  }

  function Finish(k: nat, t: Times): (actions: seq<Action>)
    requires InOrder(t)
  {
    [Tick(t.stored - t.planned), Store(k), Tick(t.done - t.stored), Record(k)]
  }

  /** A tick of the clock or a section of call `k`. */
  predicate IsOwn(a: Action, k: nat) {
    match a
    case Tick(_) => true
    case Begin(_, _) => true
    case Clear => false
    case _ => a.i == k
  }

  lemma RunThree(s: State, a: Action, b: Action, c: Action, cfg: Config, planner: Planner)
    ensures Run(s, [a, b, c], cfg, planner) ==
            Step(Step(Step(s, a, cfg, planner), b, cfg, planner), c, cfg, planner)
  {
    assert [a, b, c][1..] == [b, c] && [b, c][1..] == [c] && [c][1..] == [];
    assert Run(Step(s, a, cfg, planner), [b, c], cfg, planner) == Run(s, [a, b, c], cfg, planner);
    var s2 := Step(Step(s, a, cfg, planner), b, cfg, planner);
    assert Run(s2, [c], cfg, planner) == Run(Step(s2, c, cfg, planner), [], cfg, planner);
  }

  lemma LookUpRun(s: State, plan: LogicalPlan, mode: Mode, cfg: Config, planner: Planner, t: Times)
    requires InOrder(t) && s.now == t.start
    ensures var key := CacheKey(plan, mode);
            var hit := if cfg.enableCaching then Fresh(s.cache, key, t.checked, cfg.ttl) else None;
            var looked := if cfg.enableCaching then AfterLookup(s.cache, key, t.checked, cfg.ttl) else s.cache;
            var stage := if hit.Some? then FoundHit(hit.value.output, hit.value.cachedAt, t.checked) else FoundMiss;
            Run(s, LookUp(|s.calls|, plan, mode, t), cfg, planner) ==
            WithCall(s, looked, s.metrics, t.checked, Call(plan, mode, t.start, stage))
  {
    var k, key, c := |s.calls|, CacheKey(plan, mode), Call(plan, mode, t.start, Begun);
    RunThree(s, Begin(plan, mode), Tick(t.checked - t.start), Check(k), cfg, planner);
    var begun := Step(Step(s, Begin(plan, mode), cfg, planner), Tick(t.checked - t.start), cfg, planner);
    assert begun == WithCall(s, s.cache, s.metrics, t.checked, c);
    var looked := if cfg.enableCaching then AfterLookup(s.cache, key, t.checked, cfg.ttl) else s.cache;
    var hit := if cfg.enableCaching then Fresh(s.cache, key, t.checked, cfg.ttl) else None;
    var stage := if hit.Some? then FoundHit(hit.value.output, hit.value.cachedAt, t.checked) else FoundMiss;
    LastStage(s, looked, s.metrics, t.checked, c, stage);
  }

  lemma MissRun(s: State, cache: Cache, c: Call, cfg: Config, planner: Planner, t: Times)
    requires InOrder(t) && c.stage.FoundMiss?
    ensures var missed := s.metrics.(cacheMisses := s.metrics.cacheMisses + 1);
            var stage := match planner(c.plan, c.mode)
                         case Err => Failed
                         case Ok(body) => Planned(Output(body, t.planned - t.checked));
            Run(WithCall(s, cache, s.metrics, t.checked, c), Miss(|s.calls|, t), cfg, planner) ==
            WithCall(s, cache, missed, t.planned, c.(stage := stage))
  {
    var k := |s.calls|;
    var missed := s.metrics.(cacheMisses := s.metrics.cacheMisses + 1);
    var found := WithCall(s, cache, s.metrics, t.checked, c);
    RunThree(found, RecordMiss(k), Tick(t.planned - t.checked), RunPlanner(k, t.planned - t.checked), cfg, planner);
    LastStage(s, cache, missed, t.checked, c, Planning);
    var planning := WithCall(s, cache, missed, t.planned, c.(stage := Planning));
    assert Step(Step(found, RecordMiss(k), cfg, planner), Tick(t.planned - t.checked), cfg, planner) == planning;
    var stage := match planner(c.plan, c.mode)
                 case Err => Failed
                 case Ok(body) => Planned(Output(body, t.planned - t.checked));
    LastStage(s, cache, missed, t.planned, c.(stage := Planning), stage);
  }

  lemma FinishRun(s: State, cache: Cache, m: Metrics, c: Call, cfg: Config, planner: Planner, t: Times)
    requires InOrder(t) && c.stage.Planned? && c.start == t.start
    ensures var entry := CachedExplain(c.stage.output, t.stored, 0);
            var stored := if cfg.enableCaching then cache[CacheKey(c.plan, c.mode) := entry] else cache;
            Run(WithCall(s, cache, m, t.planned, c), Finish(|s.calls|, t), cfg, planner) ==
            WithCall(s, stored, AfterRequest(m, t.done - t.start), t.done, c.(stage := Answered(c.stage.output)))
  {
    var k, output := |s.calls|, c.stage.output;
    var entry := CachedExplain(output, t.stored, 0);
    var stored := if cfg.enableCaching then cache[CacheKey(c.plan, c.mode) := entry] else cache;
    var s1 := WithCall(s, cache, m, t.stored, c);
    var s2 := WithCall(s, stored, m, t.stored, c.(stage := Stored(output)));
    RunCons(WithCall(s, cache, m, t.planned, c), Tick(t.stored - t.planned),
            [Store(k), Tick(t.done - t.stored), Record(k)], cfg, planner);
    assert Finish(k, t) == [Tick(t.stored - t.planned)] + [Store(k), Tick(t.done - t.stored), Record(k)];
    RunThree(s1, Store(k), Tick(t.done - t.stored), Record(k), cfg, planner);
    LastStage(s, stored, m, t.stored, c, Stored(output));
    assert Step(s1, Store(k), cfg, planner) == s2;
    LastStage(s, stored, AfterRequest(m, t.done - t.start), t.done, c.(stage := Stored(output)), Answered(output));
  }

  /**
   An undisturbed call is one of the interleavings: there is a run of its own sections and of clock
   ticks that ends with the answer, the cache and the metrics of `ProductionExplainService.Explain`.
   */
  lemma SoloCallIsRun(s: State, plan: LogicalPlan, mode: Mode, cfg: Config, planner: Planner, t: Times)
    returns (actions: seq<Action>)
    requires InOrder(t) && s.now == t.start
    ensures forall i :: 0 <= i < |actions| ==> IsOwn(actions[i], |s.calls|)
    ensures var r := Run(s, actions, cfg, planner);
            var e := SoloEffect(s.cache, s.metrics, plan, mode, cfg, planner, t);
            r.cache == e.cache && r.metrics == e.metrics && |r.calls| == |s.calls| + 1 &&
            r.calls[..|s.calls|] == s.calls && HasAnswered(r.calls[|s.calls|].stage, e.answer)
  {
    var k := |s.calls|;
    LookUpRun(s, plan, mode, cfg, planner, t);
    var found := Run(s, LookUp(k, plan, mode, t), cfg, planner);
    var c := found.calls[k];
    if c.stage.FoundHit? {
      actions := LookUp(k, plan, mode, t) + [RecordHit(k)];
      RunConcat(s, LookUp(k, plan, mode, t), [RecordHit(k)], cfg, planner);
      RunCons(found, RecordHit(k), [], cfg, planner);
    } else {
      MissRun(s, found.cache, c, cfg, planner, t);
      var missed := Run(found, Miss(k, t), cfg, planner);
      actions := LookUp(k, plan, mode, t) + Miss(k, t);
      RunConcat(s, LookUp(k, plan, mode, t), Miss(k, t), cfg, planner);
      if planner(plan, mode).Ok? {
        FinishRun(s, missed.cache, missed.metrics, missed.calls[k], cfg, planner, t);
        RunConcat(s, actions, Finish(k, t), cfg, planner);
        actions := actions + Finish(k, t);
      }
    }
  }

  // ---------------------------------------------------------------------------------------------
  // When a lookup hits
  // ---------------------------------------------------------------------------------------------

  function KeyOf(c: Call): (key: string) {
    CacheKey(c.plan, c.mode)
  }

  /** A lookup under this key happens. */
  predicate LooksUp(s: State, a: Action, key: string) {
    a.Check? && a.i < |s.calls| && s.calls[a.i].stage.Begun? && KeyOf(s.calls[a.i]) == key
  }

  /** An answer is stored under this key. */
  predicate StoresUnder(s: State, a: Action, key: string) {
    a.Store? && a.i < |s.calls| && s.calls[a.i].stage.Planned? && KeyOf(s.calls[a.i]) == key
  }

  /** In this run the cache is not cleared and nothing is stored under the key. */
  predicate LeavesKey(s: State, actions: seq<Action>, key: string, cfg: Config, planner: Planner)
    decreases |actions|
  {
    actions == [] ||
    (!actions[0].Clear? && !StoresUnder(s, actions[0], key) &&
     LeavesKey(Step(s, actions[0], cfg, planner), actions[1..], key, cfg, planner))
  }

  /** How many lookups under the key a run makes. */
  function Lookups(s: State, actions: seq<Action>, key: string, cfg: Config, planner: Planner): (n: nat)
    decreases |actions|
  {
    if actions == [] then 0
    else
      (if LooksUp(s, actions[0], key) then 1 else 0) +
      Lookups(Step(s, actions[0], cfg, planner), actions[1..], key, cfg, planner)
  }

  /** Until it expires the entry is there; afterwards it may be, or have been dropped. */
  predicate Keeps(s: State, key: string, output: Output, at: nat, hits: nat, ttl: nat) {
    at <= s.now &&
    (key in s.cache ==> s.cache[key].output == output && s.cache[key].cachedAt == at) &&
    (s.now < at + ttl ==> key in s.cache && s.cache[key].hits == hits)
  }

  lemma LookupKeeps(s: State, i: nat, key: string, output: Output, at: nat, hits: nat, cfg: Config, planner: Planner)
    requires Keeps(s, key, output, at, hits, cfg.ttl) && cfg.enableCaching
    ensures var n := if LooksUp(s, Check(i), key) then 1 else 0;
            Keeps(Step(s, Check(i), cfg, planner), key, output, at, hits + n, cfg.ttl)
  {
  }

  lemma StepKeeps(s: State, a: Action, key: string, output: Output, at: nat, hits: nat, cfg: Config, planner: Planner)
    requires Keeps(s, key, output, at, hits, cfg.ttl) && cfg.enableCaching
    requires !a.Clear? && !StoresUnder(s, a, key)
    ensures var n := if LooksUp(s, a, key) then 1 else 0;
            Keeps(Step(s, a, cfg, planner), key, output, at, hits + n, cfg.ttl)
  {
    if a.Check? {
      LookupKeeps(s, a.i, key, output, at, hits, cfg, planner);
    }
  }

  lemma {:induction false} RunKeeps(
    s: State, actions: seq<Action>, key: string, output: Output, at: nat, hits: nat, cfg: Config, planner: Planner)
    requires Keeps(s, key, output, at, hits, cfg.ttl) && cfg.enableCaching
    requires LeavesKey(s, actions, key, cfg, planner)
    ensures var n := Lookups(s, actions, key, cfg, planner);
            Keeps(Run(s, actions, cfg, planner), key, output, at, hits + n, cfg.ttl)
    decreases |actions|
  {
    if actions != [] {
      var n := if LooksUp(s, actions[0], key) then 1 else 0;
      StepKeeps(s, actions[0], key, output, at, hits, cfg, planner);
      RunKeeps(Step(s, actions[0], cfg, planner), actions[1..], key, output, at, hits + n, cfg, planner);
    }
  }

  /**
   After call i has stored its answer, and as long as the cache is not cleared and nothing else is
   stored under the key: a lookup of any call that prints to the same key hits, with that answer,
   exactly while less than the TTL has passed since the store; later it misses and the entry is
   gone. The entry counts the lookups made since.
   */
  lemma HitsExactly(s: State, i: nat, actions: seq<Action>, j: nat, cfg: Config, planner: Planner)
    requires cfg.enableCaching && i < |s.calls| && s.calls[i].stage.Planned?
    requires LeavesKey(Step(s, Store(i), cfg, planner), actions, KeyOf(s.calls[i]), cfg, planner)
    requires LooksUp(Run(Step(s, Store(i), cfg, planner), actions, cfg, planner), Check(j), KeyOf(s.calls[i]))
    ensures var key, output, stored := KeyOf(s.calls[i]), s.calls[i].stage.output, Step(s, Store(i), cfg, planner);
            var m := Run(stored, actions, cfg, planner);
            var r := Step(m, Check(j), cfg, planner);
            j < |r.calls| &&
            (m.now < s.now + cfg.ttl ==>
               r.calls[j].stage == FoundHit(output, s.now, m.now) && key in r.cache &&
               r.cache[key] == CachedExplain(output, s.now, Lookups(stored, actions, key, cfg, planner) + 1)) &&
            (m.now >= s.now + cfg.ttl ==> r.calls[j].stage == FoundMiss && key !in r.cache)
  {
    var key, output, stored := KeyOf(s.calls[i]), s.calls[i].stage.output, Step(s, Store(i), cfg, planner);
    assert Keeps(stored, key, output, s.now, 0, cfg.ttl);
    RunKeeps(stored, actions, key, output, s.now, 0, cfg, planner);
  }

  /** Where nothing was stored, or caching is off, a lookup misses and leaves the cache alone. */
  lemma MissesUnstored(s: State, j: nat, cfg: Config, planner: Planner)
    requires j < |s.calls| && s.calls[j].stage.Begun? && (!cfg.enableCaching || KeyOf(s.calls[j]) !in s.cache)
    ensures var r := Step(s, Check(j), cfg, planner);
            r.cache == s.cache && |r.calls| == |s.calls| && r.calls[j].stage == FoundMiss
  {
  }

  // ---------------------------------------------------------------------------------------------
  // Answers agree with the planner
  // ---------------------------------------------------------------------------------------------

  /** The planner's answer depends on nothing the `Debug` text hides. */
  ghost predicate DebugShowsAll(planner: Planner) {
    forall p: LogicalPlan, p': LogicalPlan, m: Mode | p.debug == p'.debug && planner(p, m).Ok? ::
      planner(p', m) == planner(p, m)
  }

  /** The cache cannot mix up two plans, or is never answered from. */
  ghost predicate Trustworthy(cfg: Config, planner: Planner) {
    !cfg.enableCaching || cfg.ttl == 0 || DebugShowsAll(planner)
  }

  /** A hit is an entry stored less than one TTL before it was looked up. */
  predicate WithinTtl(cachedAt: nat, checkedAt: nat, ttl: nat) {
    cachedAt <= checkedAt < cachedAt + ttl
  }

  /** Whatever a call carries or has answered is what the planner says for its plan and mode. */
  predicate CallSound(c: Call, now: nat, cfg: Config, planner: Planner) {
    c.start <= now &&
    match c.stage
    case FoundHit(out, at, checked) => planner(c.plan, c.mode) == Ok(out.body) && WithinTtl(at, checked, cfg.ttl)
    case AnsweredFromCache(out, at, checked) =>
      planner(c.plan, c.mode) == Ok(out.body) && WithinTtl(at, checked, cfg.ttl)
    case Planned(out) => planner(c.plan, c.mode) == Ok(out.body)
    case Stored(out) => planner(c.plan, c.mode) == Ok(out.body)
    case Answered(out) => planner(c.plan, c.mode) == Ok(out.body)
    case Failed => planner(c.plan, c.mode).Err?
    case _ => true
  }

  predicate CallsSound(s: State, cfg: Config, planner: Planner) {
    forall i :: 0 <= i < |s.calls| ==> CallSound(s.calls[i], s.now, cfg, planner)
  }

  /** Every entry was put there for some plan that prints to its key. */
  ghost predicate EntrySound(key: string, e: CachedExplain, now: nat, planner: Planner) {
    e.cachedAt <= now && exists p, m :: CacheKey(p, m) == key && planner(p, m) == Ok(e.output.body)
  }

  ghost predicate CacheSound(s: State, planner: Planner) {
    forall k :: k in s.cache ==> EntrySound(k, s.cache[k], s.now, planner)
  }

  lemma HitIsPlanners(s: State, p: LogicalPlan, m: Mode, cfg: Config, planner: Planner)
    requires CacheSound(s, planner) && Trustworthy(cfg, planner) && cfg.enableCaching
    requires Fresh(s.cache, CacheKey(p, m), s.now, cfg.ttl).Some?
    ensures var e := Fresh(s.cache, CacheKey(p, m), s.now, cfg.ttl).value;
            planner(p, m) == Ok(e.output.body) && WithinTtl(e.cachedAt, s.now, cfg.ttl)
  {
    var e := s.cache[CacheKey(p, m)];
    assert EntrySound(CacheKey(p, m), e, s.now, planner);
    var p', m' :| CacheKey(p', m') == CacheKey(p, m) && planner(p', m') == Ok(e.output.body);
    CacheKeyExactly(p', m', p, m);
  }

  /** A stage change of one call keeps the others sound. */
  lemma CallsStaySound(s: State, i: nat, stage: Stage, cfg: Config, planner: Planner)
    requires CallsSound(s, cfg, planner) && i < |s.calls|
    requires CallSound(s.calls[i].(stage := stage), s.now, cfg, planner)
    ensures CallsSound(At(s, i, stage), cfg, planner)
  {
  }

  lemma CheckKeepsSound(s: State, i: nat, cfg: Config, planner: Planner)
    requires CacheSound(s, planner) && CallsSound(s, cfg, planner) && Trustworthy(cfg, planner)
    ensures CacheSound(Step(s, Check(i), cfg, planner), planner)
    ensures CallsSound(Step(s, Check(i), cfg, planner), cfg, planner)
  {
    if i < |s.calls| && s.calls[i].stage.Begun? && cfg.enableCaching {
      var c := s.calls[i];
      var key := CacheKey(c.plan, c.mode);
      var looked := s.(cache := AfterLookup(s.cache, key, s.now, cfg.ttl));
      LookupKeepsCacheSound(s, key, cfg, planner);
      if Fresh(s.cache, key, s.now, cfg.ttl).Some? {
        HitIsPlanners(s, c.plan, c.mode, cfg, planner);
        var e := Fresh(s.cache, key, s.now, cfg.ttl).value;
        CallsStaySound(looked, i, FoundHit(e.output, e.cachedAt, s.now), cfg, planner);
      } else {
        CallsStaySound(looked, i, FoundMiss, cfg, planner);
      }
    }
  }

  lemma LookupKeepsCacheSound(s: State, key: string, cfg: Config, planner: Planner)
    requires CacheSound(s, planner)
    ensures CacheSound(s.(cache := AfterLookup(s.cache, key, s.now, cfg.ttl)), planner)
  {
    var after := AfterLookup(s.cache, key, s.now, cfg.ttl);
    forall k | k in after ensures EntrySound(k, after[k], s.now, planner) {
      assert EntrySound(k, s.cache[k], s.now, planner);
    }
  }

  lemma StoreKeepsSound(s: State, i: nat, cfg: Config, planner: Planner)
    requires CacheSound(s, planner) && CallsSound(s, cfg, planner)
    ensures CacheSound(Step(s, Store(i), cfg, planner), planner)
    ensures CallsSound(Step(s, Store(i), cfg, planner), cfg, planner)
  {
    if i < |s.calls| && s.calls[i].stage.Planned? {
      var c := s.calls[i];
      var e := CachedExplain(c.stage.output, s.now, 0);
      assert CallSound(c, s.now, cfg, planner);
      assert EntrySound(CacheKey(c.plan, c.mode), e, s.now, planner);
    }
  }

  lemma TickKeepsSound(s: State, d: nat, cfg: Config, planner: Planner)
    requires CacheSound(s, planner) && CallsSound(s, cfg, planner)
    ensures CacheSound(Step(s, Tick(d), cfg, planner), planner)
    ensures CallsSound(Step(s, Tick(d), cfg, planner), cfg, planner)
  {
    var t := Step(s, Tick(d), cfg, planner);
    forall k | k in t.cache ensures EntrySound(k, t.cache[k], t.now, planner) {
      assert EntrySound(k, s.cache[k], s.now, planner);
    }
    forall i | 0 <= i < |t.calls| ensures CallSound(t.calls[i], t.now, cfg, planner) {
      assert CallSound(s.calls[i], s.now, cfg, planner);
    }
  }

  lemma OwnStepKeepsSound(s: State, a: Action, cfg: Config, planner: Planner)
    requires CacheSound(s, planner) && CallsSound(s, cfg, planner)
    requires a.RecordHit? || a.RecordMiss? || a.RunPlanner? || a.Record?
    ensures CacheSound(Step(s, a, cfg, planner), planner)
    ensures CallsSound(Step(s, a, cfg, planner), cfg, planner)
  {
    var t := Step(s, a, cfg, planner);
    assert t.cache == s.cache && t.now == s.now && |t.calls| == |s.calls|;
    forall i | 0 <= i < |t.calls| ensures CallSound(t.calls[i], t.now, cfg, planner) {
      assert CallSound(s.calls[i], s.now, cfg, planner);
    }
  }

  lemma StepKeepsSound(s: State, a: Action, cfg: Config, planner: Planner)
    requires CacheSound(s, planner) && CallsSound(s, cfg, planner) && Trustworthy(cfg, planner)
    ensures CacheSound(Step(s, a, cfg, planner), planner)
    ensures CallsSound(Step(s, a, cfg, planner), cfg, planner)
  {
    match a
    case Tick(d) => TickKeepsSound(s, d, cfg, planner);
    case Begin(_, _) =>
    case Clear =>
    case Check(i) => CheckKeepsSound(s, i, cfg, planner);
    case Store(i) => StoreKeepsSound(s, i, cfg, planner);
    case _ => OwnStepKeepsSound(s, a, cfg, planner);
  }

  lemma {:induction false} RunKeepsSound(s: State, actions: seq<Action>, cfg: Config, planner: Planner)
    requires CacheSound(s, planner) && CallsSound(s, cfg, planner) && Trustworthy(cfg, planner)
    ensures CallsSound(Run(s, actions, cfg, planner), cfg, planner)
    decreases |actions|
  {
    if actions != [] {
      StepKeepsSound(s, actions[0], cfg, planner);
      RunKeepsSound(Step(s, actions[0], cfg, planner), actions[1..], cfg, planner);
    }
  }

  /** Two plans that print alike but are explained differently: the second gets the first one's answer. */
  lemma MixedUp(p: LogicalPlan, p': LogicalPlan, m: Mode, cfg: Config, planner: Planner) returns (actions: seq<Action>)
    requires cfg.enableCaching && cfg.ttl > 0
    requires p.debug == p'.debug && planner(p, m).Ok? && planner(p', m) != planner(p, m)
    ensures !CallsSound(Run(INIT, actions, cfg, planner), cfg, planner)
  {
    var body := planner(p, m).value;
    var s1 := Step(INIT, Begin(p, m), cfg, planner);
    var s2 := Step(s1, Check(0), cfg, planner);
    var s3 := Step(s2, RecordMiss(0), cfg, planner);
    var s4 := Step(s3, RunPlanner(0, 0), cfg, planner);
    var s5 := Step(s4, Store(0), cfg, planner);
    var s6 := Step(s5, Begin(p', m), cfg, planner);
    var s7 := Step(s6, Check(1), cfg, planner);
    assert s4.calls == [Call(p, m, 0, Planned(Output(body, 0)))];
    assert s5.cache == map[CacheKey(p, m) := CachedExplain(Output(body, 0), 0, 0)];
    assert CacheKey(p', m) == CacheKey(p, m);
    assert s7.calls[1] == Call(p', m, 0, FoundHit(Output(body, 0), 0, 0));
    var tail7: seq<Action> := [Check(1)];
    var tail6 := [Begin(p', m)] + tail7;
    var tail5 := [Store(0)] + tail6;
    var tail4 := [RunPlanner(0, 0)] + tail5;
    var tail3 := [RecordMiss(0)] + tail4;
    var tail2 := [Check(0)] + tail3;
    actions := [Begin(p, m)] + tail2;
    assert Run(s6, tail7, cfg, planner) == s7;
    RunCons(s5, Begin(p', m), tail7, cfg, planner);
    RunCons(s4, Store(0), tail6, cfg, planner);
    RunCons(s3, RunPlanner(0, 0), tail5, cfg, planner);
    RunCons(s2, RecordMiss(0), tail4, cfg, planner);
    RunCons(s1, Check(0), tail3, cfg, planner);
    RunCons(INIT, Begin(p, m), tail2, cfg, planner);
    assert !CallSound(s7.calls[1], s7.now, cfg, planner);
  }

  /**
   In every interleaving of calls, clears and ticks, each answer is the planner's own for that plan
   and mode, and each cached one was stored less than a TTL before, exactly when the planner sees
   nothing in a plan that its `Debug` text hides (or the cache is off, or its TTL is zero).
   */
  lemma AnswersAgreeExactly(cfg: Config, planner: Planner)
    ensures (forall actions: seq<Action> :: CallsSound(Run(INIT, actions, cfg, planner), cfg, planner)) <==>
            Trustworthy(cfg, planner)
  {
    if Trustworthy(cfg, planner) {
      forall actions: seq<Action> ensures CallsSound(Run(INIT, actions, cfg, planner), cfg, planner) {
        RunKeepsSound(INIT, actions, cfg, planner);
      }
    } else {
      var p: LogicalPlan, p': LogicalPlan, m: Mode :|
        p.debug == p'.debug && planner(p, m).Ok? && planner(p', m) != planner(p, m);
      var actions := MixedUp(p, p', m, cfg, planner);
    }
  }

  // ---------------------------------------------------------------------------------------------
  // Counters
  // ---------------------------------------------------------------------------------------------

  datatype Tally = HitRecorded | MissRecorded | RequestRecorded | PlannerFailed | Finished

  /** Which calls a tally counts, by how far they have come. */
  predicate Counts(t: Tally, stage: Stage) {
    match t
    case HitRecorded => stage.AnsweredFromCache?
    case MissRecorded => stage.Planning? || stage.Planned? || stage.Stored? || stage.Answered? || stage.Failed?
    case RequestRecorded => stage.Answered?
    case PlannerFailed => stage.Failed?
    case Finished => stage.AnsweredFromCache? || stage.Answered? || stage.Failed?
  }

  function Indicator(t: Tally, stage: Stage): (n: nat) {
    if Counts(t, stage) then 1 else 0
  }

  function Count(calls: seq<Call>, t: Tally): (n: nat) {
    if calls == [] then 0 else Count(calls[..|calls| - 1], t) + Indicator(t, calls[|calls| - 1].stage)
  }

  lemma {:induction false} CountUpdate(calls: seq<Call>, i: nat, c: Call, t: Tally)
    requires i < |calls|
    ensures Count(calls[i := c], t) == Count(calls, t) + Indicator(t, c.stage) - Indicator(t, calls[i].stage)
  {
    var n := |calls| - 1;
    if i == n {
      assert calls[i := c][..n] == calls[..n];
    } else {
      CountUpdate(calls[..n], i, c, t);
      assert calls[i := c][..n] == calls[..n][i := c];
    }
  }

  /** Each counter counts the calls that have passed its recording section; nothing ever counts errors. */
  predicate Counted(s: State) {
    s.metrics.cacheHits == Count(s.calls, HitRecorded) &&
    s.metrics.cacheMisses == Count(s.calls, MissRecorded) &&
    s.metrics.totalRequests == Count(s.calls, RequestRecorded) &&
    s.metrics.errors == 0 &&
    |s.metrics.latencies| == s.metrics.totalRequests &&
    s.metrics.totalLatency == Sum(s.metrics.latencies)
  }

  lemma StageChangeCounts(s: State, i: nat, stage: Stage)
    requires i < |s.calls|
    ensures forall t :: Count(At(s, i, stage).calls, t) ==
              Count(s.calls, t) + Indicator(t, stage) - Indicator(t, s.calls[i].stage)
  {
    forall t ensures Count(At(s, i, stage).calls, t) ==
              Count(s.calls, t) + Indicator(t, stage) - Indicator(t, s.calls[i].stage)
    {
      CountUpdate(s.calls, i, s.calls[i].(stage := stage), t);
    }
  }

  lemma BeginCounts(calls: seq<Call>, c: Call)
    requires c.stage.Begun?
    ensures forall t :: Count(calls + [c], t) == Count(calls, t)
  {
    assert (calls + [c])[..|calls|] == calls;
  }

  lemma SumAppend(xs: seq<nat>, x: nat)
    ensures Sum(xs + [x]) == Sum(xs) + x
  {
    assert (xs + [x])[..|xs|] == xs;
  }

  lemma RecordKeepsCounted(s: State, i: nat, cfg: Config, planner: Planner)
    requires Counted(s) && i < |s.calls| && s.calls[i].stage.Stored? && s.calls[i].start <= s.now
    ensures Counted(Step(s, Record(i), cfg, planner))
  {
    StageChangeCounts(s, i, Answered(s.calls[i].stage.output));
    SumAppend(s.metrics.latencies, s.now - s.calls[i].start);
  }

  /** Sections that record nothing, or one hit or miss. */
  lemma OwnStepKeepsCounted(s: State, a: Action, cfg: Config, planner: Planner)
    requires Counted(s)
    requires a.Check? || a.RecordHit? || a.RecordMiss? || a.RunPlanner? || a.Store?
    ensures Counted(Step(s, a, cfg, planner))
  {
    var r := Step(s, a, cfg, planner);
    if a.i < |s.calls| {
      StageChangeCounts(s, a.i, r.calls[a.i].stage);
      assert r.calls == At(s, a.i, r.calls[a.i].stage).calls;
    }
  }

  lemma StepKeepsCounted(s: State, a: Action, cfg: Config, planner: Planner)
    requires Counted(s)
    ensures Counted(Step(s, a, cfg, planner))
  {
    match a
    case Tick(_) =>
    case Clear =>
    case Begin(p, m) => BeginCounts(s.calls, Call(p, m, s.now, Begun));
    case Record(i) =>
      if i < |s.calls| && s.calls[i].stage.Stored? && s.calls[i].start <= s.now {
        RecordKeepsCounted(s, i, cfg, planner);
      }
    case _ => OwnStepKeepsCounted(s, a, cfg, planner);
  }

  lemma {:induction false} RunKeepsCounted(s: State, actions: seq<Action>, cfg: Config, planner: Planner)
    requires Counted(s)
    ensures Counted(Run(s, actions, cfg, planner))
    decreases |actions|
  {
    if actions != [] {
      StepKeepsCounted(s, actions[0], cfg, planner);
      RunKeepsCounted(Step(s, actions[0], cfg, planner), actions[1..], cfg, planner);
    }
  }

  lemma {:induction false} FinishedCallsAddUp(calls: seq<Call>)
    requires forall i :: 0 <= i < |calls| ==> Counts(Finished, calls[i].stage)
    ensures Count(calls, HitRecorded) + Count(calls, MissRecorded) == |calls|
    ensures Count(calls, MissRecorded) == Count(calls, RequestRecorded) + Count(calls, PlannerFailed)
  {
    if calls != [] {
      FinishedCallsAddUp(calls[..|calls| - 1]);
    }
  }

  /**
   After any interleaved run in which every call has returned: hits plus misses is the number of
   calls, recorded requests are the misses without planner errors, the latency total is the sum of
   the latency list, and the error counter is still zero however many calls failed.
   */
  lemma MetricsAddUp(actions: seq<Action>, cfg: Config, planner: Planner)
    ensures var s := Run(INIT, actions, cfg, planner);
            Counted(s) &&
            ((forall i :: 0 <= i < |s.calls| ==> Counts(Finished, s.calls[i].stage)) ==>
             s.metrics.cacheHits + s.metrics.cacheMisses == |s.calls| &&
             s.metrics.totalRequests == s.metrics.cacheMisses - Count(s.calls, PlannerFailed))
  {
    RunKeepsCounted(INIT, actions, cfg, planner);
    var s := Run(INIT, actions, cfg, planner);
    if forall i :: 0 <= i < |s.calls| ==> Counts(Finished, s.calls[i].stage) {
      FinishedCallsAddUp(s.calls);
    }
  }
}

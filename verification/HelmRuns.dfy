/** Whole runs of the Helm client: the caches change nothing, what they cost in delay, what they save in pulls. */
module HelmRuns {
  import opened Strings
  import opened HelmKeys
  import opened HelmClient

  datatype Step = Ensure(call: Call) | Delete(name: string)

  function Next(env: Env, c: Client, step: Step): Client {
    match step
    case Ensure(call) => Ensured(env, c, call).0
    case Delete(name) => Deleted(c, name)
  }

  /** The client after a history that starts with empty caches. */
  function After(env: Env, steps: seq<Step>): Client {
    if steps == [] then NEW_CLIENT else Next(env, After(env, steps[..|steps| - 1]), steps[|steps| - 1])
  }

  // ---- What the environment may depend on -----------------------------------------------------------

  /** A chart that comes with an archive is the one that archive parses to. */
  ghost predicate Honest(env: Env) {
    forall s, t :: env.registry(s, t).Some? && env.registry(s, t).value.archive != "" ==>
      env.parse(env.registry(s, t).value.archive) == Some(env.registry(s, t).value.chart)
  }

  predicate SameRelease(a: ReleaseSpec, b: ReleaseSpec) { a.name == b.name && a.namespace == b.namespace }

  /** Stored manifests and renders are fixed by what the fingerprints hold. */
  ghost predicate Congruent(env: Env) {
    && (forall a, b, i: ReleaseInfo, j: ReleaseInfo :: SameRelease(a, b) && i.revision == j.revision && SameStored(i, j) ==>
          env.manifest(a, i) == env.manifest(b, j))
    && (forall a, b, i: ReleaseInfo, j: ReleaseInfo, ch ::
          SameRelease(a, b) && SameRender(a, b) && i.revision == j.revision && SameStored(i, j) ==>
          env.render(a, i, ch) == env.render(b, j, ch))
  }

  /** Pulls of one source that succeed return one chart, whenever and with whatever credentials. */
  ghost predicate SteadyBytes(env: Env) {
    forall a, b, t, u :: SameSource(a, b) && env.registry(a, t).Some? && env.registry(b, u).Some? ==>
      env.registry(a, t).value.chart == env.registry(b, u).value.chart
  }

  // ---- Clocks --------------------------------------------------------------------------------------------

  /** The clock does not run backwards, and a load and a verdict take at most `lag`. */
  predicate Timely(call: Call, lag: nat) {
    && call.check <= call.first.lookup <= call.first.pull <= call.first.stored <= call.proven
    && call.proven <= call.second.lookup <= call.second.pull <= call.second.stored
    && call.proven - call.first.lookup <= lag && call.second.stored - call.second.pull <= lag
  }

  function Clock(steps: seq<Step>): int {
    if steps == [] then 0
    else if steps[|steps| - 1].Ensure? then steps[|steps| - 1].call.second.stored
    else Clock(steps[..|steps| - 1])
  }

  predicate FoundOk(l: Lookup) { l.Found? ==> InfoNulFree(l.info) }

  /** One namespace, fields without the separator, and a chart that renders something if its manifest cannot be read. */
  ghost predicate CallOk(env: Env, call: Call, ns: string) {
    && call.spec.namespace == ns && SpecNulFree(call.spec) && FoundOk(call.last) && FoundOk(call.deployed)
    && (call.manifestRead || forall info, chart :: env.render(call.spec, info, chart) != Some(""))
  }

  ghost predicate RunOk(env: Env, steps: seq<Step>, ns: string, lag: nat) {
    steps != [] ==>
      var front, last := steps[..|steps| - 1], steps[|steps| - 1];
      && RunOk(env, front, ns, lag)
      && (last.Ensure? ==> CallOk(env, last.call, ns) && Timely(last.call, lag) && Clock(front) <= last.call.check)
  }

  // ---- What the caches hold ------------------------------------------------------------------------------

  /** The chart is one the registry gave for this source in this span of time. */
  ghost predicate ChartFrom(env: Env, spec: ReleaseSpec, chart: Chart, from: int, to: int) {
    exists s, t ::
      SameSource(s, spec) && from <= t <= to && env.registry(s, t).Some? && env.registry(s, t).value.chart == chart
  }

  ghost predicate RestsOn(env: Env, spec: ReleaseSpec, info: ReleaseInfo, from: int, to: int) {
    exists chart :: ChartFrom(env, spec, chart, from, to) && env.render(spec, info, chart) == Some(env.manifest(spec, info))
  }

  ghost predicate ArchiveOk(env: Env, spec: ReleaseSpec, a: Archive, now: int, lag: nat) {
    env.parse(a.bytes).Some? && ChartFrom(env, spec, env.parse(a.bytes).value, a.at - lag, a.at) && a.at <= now
  }

  ghost predicate ChartsOk(env: Env, charts: map<string, Archive>, now: int, lag: nat) {
    forall spec :: SpecNulFree(spec) && ChartCacheKey(spec).Some? && ChartCacheKey(spec).value in charts ==>
      ArchiveOk(env, spec, charts[ChartCacheKey(spec).value], now, lag)
  }

  predicate Matches(v: Verdict, spec: ReleaseSpec, info: ReleaseInfo) {
    SpecFingerprint(spec) == Some(v.spec) && DeployedFingerprint(info) == Some(v.deployed) && v.revision == info.revision
  }

  /** The latch would take the verdict for this spec and this stored release, age apart. */
  predicate Covers(v: Verdict, name: string, ns: string, spec: ReleaseSpec, info: ReleaseInfo) {
    spec.name == name && spec.namespace == ns && SpecNulFree(spec) && InfoNulFree(info) && Matches(v, spec, info)
  }

  ghost predicate VerdictOk(env: Env, ns: string, name: string, v: Verdict, now: int, lag: nat) {
    && v.provenAt <= now
    && forall spec, info :: Covers(v, name, ns, spec, info) ==>
         RestsOn(env, spec, info, v.provenAt - CHART_CACHE_TTL - 2 * lag, v.provenAt)
  }

  ghost predicate ClientOk(env: Env, ns: string, c: Client, now: int, lag: nat) {
    && ChartsOk(env, c.charts, now, lag)
    && forall name :: name in c.converged ==> VerdictOk(env, ns, name, c.converged[name], now, lag)
  }

  lemma {:induction false} ChartsAge(env: Env, charts: map<string, Archive>, now: int, later: int, lag: nat)
    requires ChartsOk(env, charts, now, lag) && now <= later
    ensures ChartsOk(env, charts, later, lag)
  {
  }

  lemma {:induction false} FewerCharts(
    env: Env, charts: map<string, Archive>, fewer: map<string, Archive>, now: int, lag: nat)
    requires ChartsOk(env, charts, now, lag)
    requires forall k :: k in fewer ==> k in charts && fewer[k] == charts[k]
    ensures ChartsOk(env, fewer, now, lag)
  {
  }

  lemma {:induction false} PulledFrom(env: Env, spec: ReleaseSpec, other: ReleaseSpec, at: int, from: int, to: int)
    requires env.registry(spec, at).Some? && SameSource(spec, other) && from <= at <= to
    ensures ChartFrom(env, other, env.registry(spec, at).value.chart, from, to)
  {
  }

  lemma {:induction false} StoreKeeps(
    env: Env, charts: map<string, Archive>, spec: ReleaseSpec, t: LoadTimes, now: int, lag: nat)
    requires Honest(env) && ChartsOk(env, charts, now, lag) && SpecNulFree(spec) && ChartCacheKey(spec).Some?
    requires now <= t.pull <= t.stored <= t.pull + lag && env.registry(spec, t.pull).Some?
    ensures var bytes := env.registry(spec, t.pull).value.archive;
            ChartsOk(env, StoreChart(charts, ChartCacheKey(spec).value, bytes, t.stored), t.stored, lag)
  {
    var key, p := ChartCacheKey(spec).value, env.registry(spec, t.pull).value;
    ChartsAge(env, charts, now, t.stored, lag);
    if p.archive != "" {
      var live := Live(charts, t.stored);
      FewerCharts(env, charts, live, t.stored, lag);
      var after := live[key := Archive(p.archive, t.stored)];
      forall s | SpecNulFree(s) && ChartCacheKey(s).Some? && ChartCacheKey(s).value in after
        ensures ArchiveOk(env, s, after[ChartCacheKey(s).value], t.stored, lag)
      {
        if ChartCacheKey(s).value == key {
          ChartCacheKeyInjective(spec, s);
          PulledFrom(env, spec, s, t.pull, t.stored - lag, t.stored);
        } else {
          assert ArchiveOk(env, s, live[ChartCacheKey(s).value], t.stored, lag);
        }
      }
    }
  }

  /** Every chart a load returns was pulled at most the cache's lifetime before. */
  lemma {:induction false} LoadKeeps(env: Env, c: Client, spec: ReleaseSpec, t: LoadTimes, now: int, lag: nat)
    requires Honest(env) && ChartsOk(env, c.charts, now, lag) && SpecNulFree(spec)
    requires now <= t.lookup <= t.pull <= t.stored <= t.pull + lag
    ensures var (after, chart) := LoadChart(env, c, spec, t);
            && ChartsOk(env, after.charts, t.stored, lag) && after.converged == c.converged && after.gauge == c.gauge
            && (chart.Some? ==> ChartFrom(env, spec, chart.value, t.lookup - CHART_CACHE_TTL - lag, t.stored))
  {
    var key := ChartCacheKey(spec);
    ChartsAge(env, c.charts, now, t.stored, lag);
    if key.Some? {
      var (charts, hit) := LookupChart(env, c.charts, key.value, t.lookup);
      FewerCharts(env, c.charts, charts, now, lag);
      if hit.Some? {
        assert ArchiveOk(env, spec, c.charts[key.value], now, lag);
        Widen(env, spec, hit.value, c.charts[key.value].at - lag, c.charts[key.value].at,
              t.lookup - CHART_CACHE_TTL - lag, t.stored);
      } else {
        PullKeeps(env, c.(charts := charts), spec, t, now, lag);
      }
    } else {
      PullKeeps(env, c, spec, t, now, lag);
    }
  }

  lemma {:induction false} Widen(env: Env, spec: ReleaseSpec, chart: Chart, a: int, b: int, from: int, to: int)
    requires ChartFrom(env, spec, chart, a, b) && from <= a && b <= to
    ensures ChartFrom(env, spec, chart, from, to)
  {
  }

  lemma {:induction false} PullKeeps(env: Env, c: Client, spec: ReleaseSpec, t: LoadTimes, now: int, lag: nat)
    requires Honest(env) && ChartsOk(env, c.charts, now, lag) && SpecNulFree(spec)
    requires now <= t.lookup <= t.pull <= t.stored <= t.pull + lag
    ensures var (after, chart) := Pull(env, c, spec, t);
            && ChartsOk(env, after.charts, t.stored, lag) && after.converged == c.converged && after.gauge == c.gauge
            && (chart.Some? ==> ChartFrom(env, spec, chart.value, t.lookup - CHART_CACHE_TTL - lag, t.stored))
  {
    ChartsAge(env, c.charts, now, t.stored, lag);
    if env.registry(spec, t.pull).Some? {
      PulledFrom(env, spec, spec, t.pull, t.lookup - CHART_CACHE_TTL - lag, t.stored);
      if ChartCacheKey(spec).Some? {
        StoreKeeps(env, c.charts, spec, t, now, lag);
      }
    }
  }

  // ---- Verdicts -----------------------------------------------------------------------------------------------

  /** A verdict carries over to every spec and release that its fingerprints cannot tell apart. */
  lemma {:induction false} VerdictCarries(
    env: Env, spec: ReleaseSpec, info: ReleaseInfo, other: ReleaseSpec, found: ReleaseInfo, v: Verdict, from: int, to: int)
    requires Congruent(env) && RestsOn(env, spec, info, from, to)
    requires SameRelease(spec, other)
    requires SpecNulFree(spec) && SpecNulFree(other) && InfoNulFree(info) && InfoNulFree(found)
    requires Matches(v, spec, info) && Matches(v, other, found)
    ensures RestsOn(env, other, found, from, to)
  {
    SpecFingerprintInjective(spec, other);
    DeployedFingerprintInjective(info, found);
    var chart :| ChartFrom(env, spec, chart, from, to) && env.render(spec, info, chart) == Some(env.manifest(spec, info));
    assert ChartFrom(env, other, chart, from, to);
    assert env.render(other, found, chart) == env.render(spec, info, chart);
    assert env.manifest(other, found) == env.manifest(spec, info);
  }

  lemma {:induction false} LatchKeeps(
    env: Env, ns: string, c: Client, spec: ReleaseSpec, info: ReleaseInfo, proven: int, now: int, lag: nat)
    requires Congruent(env) && ClientOk(env, ns, c, now, lag) && proven <= now
    requires spec.namespace == ns && SpecNulFree(spec) && InfoNulFree(info)
    requires RestsOn(env, spec, info, proven - CHART_CACHE_TTL - 2 * lag, proven)
    ensures ClientOk(env, ns, Latch(c, spec, info, proven), now, lag)
  {
    var after := Latch(c, spec, info, proven);
    if after != c {
      var v := after.converged[spec.name];
      forall other, found | Covers(v, spec.name, ns, other, found)
        ensures RestsOn(env, other, found, v.provenAt - CHART_CACHE_TTL - 2 * lag, v.provenAt)
      {
        VerdictCarries(env, spec, info, other, found, v, proven - CHART_CACHE_TTL - 2 * lag, proven);
      }
      assert VerdictOk(env, ns, spec.name, v, now, lag);
    }
  }

  lemma {:induction false} VerdictsAge(env: Env, ns: string, c: Client, now: int, later: int, lag: nat)
    requires ClientOk(env, ns, c, now, lag) && now <= later
    ensures ClientOk(env, ns, c, later, lag)
  {
  }

  lemma {:induction false} SameVerdicts(env: Env, ns: string, c: Client, after: Client, now: int, later: int, lag: nat)
    requires ClientOk(env, ns, c, now, lag) && now <= later
    requires ChartsOk(env, after.charts, later, lag)
    requires forall name :: name in after.converged ==> name in c.converged && after.converged[name] == c.converged[name]
    ensures ClientOk(env, ns, after, later, lag)
  {
  }

  lemma {:induction false} ResolveKeeps(
    env: Env, ns: string, c: Client, call: Call, info: ReleaseInfo, now: int, lag: nat)
    requires Honest(env) && Congruent(env) && ClientOk(env, ns, c, now, lag)
    requires CallOk(env, call, ns) && InfoNulFree(info) && Timely(call, lag) && now <= call.check
    ensures ClientOk(env, ns, Resolve(env, c, call, info).0, call.second.stored, lag)
  {
    var spec, end := call.spec, call.second.stored;
    VerdictsAge(env, ns, c, now, end, lag);
    if !Latched(c, spec, info, call.check) {
      var (loaded, chart) := LoadChart(env, c, spec, call.first);
      LoadKeeps(env, c, spec, call.first, now, lag);
      ChartsAge(env, loaded.charts, call.first.stored, end, lag);
      SameVerdicts(env, ns, c, loaded, now, end, lag);
      if chart.Some? && env.render(spec, info, chart.value).Some? {
        if env.render(spec, info, chart.value).value == CurrentManifest(env, call, info) {
          assert CurrentManifest(env, call, info) == env.manifest(spec, info);
          Widen(env, spec, chart.value, call.first.lookup - CHART_CACHE_TTL - lag, call.first.stored,
                call.proven - CHART_CACHE_TTL - 2 * lag, call.proven);
          LatchKeeps(env, ns, loaded, spec, info, call.proven, end, lag);
        } else {
          LoadKeeps(env, loaded, spec, call.second, call.first.stored, lag);
          SameVerdicts(env, ns, c, LoadChart(env, loaded, spec, call.second).0, now, end, lag);
        }
      }
    }
  }

  lemma {:induction false} NextKeeps(env: Env, ns: string, c: Client, step: Step, now: int, lag: nat)
    requires Honest(env) && Congruent(env) && ClientOk(env, ns, c, now, lag)
    requires step.Ensure? ==> CallOk(env, step.call, ns) && Timely(step.call, lag) && now <= step.call.check
    ensures ClientOk(env, ns, Next(env, c, step), if step.Ensure? then step.call.second.stored else now, lag)
  {
    match step {
      case Delete(name) => SameVerdicts(env, ns, c, Deleted(c, name), now, now, lag);
      case Ensure(call) =>
        var end := call.second.stored;
        VerdictsAge(env, ns, c, now, end, lag);
        match Decide(call) {
          case DoInstall =>
            LoadKeeps(env, c, call.spec, call.first, now, lag);
            var loaded := LoadChart(env, c, call.spec, call.first).0;
            ChartsAge(env, loaded.charts, call.first.stored, end, lag);
            SameVerdicts(env, ns, c, loaded, now, end, lag);
          case DoUpgrade(None) =>
            LoadKeeps(env, c, call.spec, call.second, now, lag);
            SameVerdicts(env, ns, c, LoadChart(env, c, call.spec, call.second).0, now, end, lag);
          case DoUpgrade(Some(info)) => ResolveKeeps(env, ns, c, call, info, now, lag);
          case _ =>
        }
    }
  }

  lemma {:induction false} RunKeeps(env: Env, ns: string, steps: seq<Step>, lag: nat)
    requires Honest(env) && Congruent(env) && RunOk(env, steps, ns, lag)
    ensures ClientOk(env, ns, After(env, steps), Clock(steps), lag)
  {
    if steps != [] {
      var front := steps[..|steps| - 1];
      RunKeeps(env, ns, front, lag);
      NextKeeps(env, ns, After(env, front), steps[|steps| - 1], Clock(front), lag);
    }
  }

  // ---- The caches change nothing --------------------------------------------------------------------------------

  /** With steady bytes, a chart from a cache is the chart a pull would return now. */
  lemma {:induction false} LoadAgrees(env: Env, c: Client, spec: ReleaseSpec, t: LoadTimes, now: int, lag: nat)
    requires Honest(env) && SteadyBytes(env) && ChartsOk(env, c.charts, now, lag) && SpecNulFree(spec)
    requires now <= t.lookup <= t.pull <= t.stored <= t.pull + lag
    ensures Fetch(env, spec, t.pull).Some? ==> LoadChart(env, c, spec, t).1 == Fetch(env, spec, t.pull)
  {
  }

  /** A verdict is served although the manifest it was proven against cannot be read now. */
  predicate HidesFailedRead(c: Client, call: Call) {
    && !call.manifestRead
    && match Decide(call)
       case DoUpgrade(Some(info)) => Latched(c, call.spec, info, call.check)
       case _ => false
  }

  lemma {:induction false} ResolveAgrees(
    env: Env, ns: string, c: Client, call: Call, info: ReleaseInfo, now: int, lag: nat)
    requires Honest(env) && Congruent(env) && SteadyBytes(env) && ClientOk(env, ns, c, now, lag)
    requires CallOk(env, call, ns) && InfoNulFree(info) && Timely(call, lag) && now <= call.check
    requires Decide(call) == DoUpgrade(Some(info))
    ensures Uncached(env, call) == PullFailed ||
            (Resolve(env, c, call, info).1 == Uncached(env, call) <==> !HidesFailedRead(c, call))
  {
    var spec := call.spec;
    if Latched(c, spec, info, call.check) {
      var v := c.converged[spec.name];
      assert VerdictOk(env, ns, spec.name, v, now, lag) && Covers(v, spec.name, ns, spec, info);
      assert RestsOn(env, spec, info, v.provenAt - CHART_CACHE_TTL - 2 * lag, v.provenAt);
    } else {
      LoadKeeps(env, c, spec, call.first, now, lag);
      LoadAgrees(env, c, spec, call.first, now, lag);
      LoadAgrees(env, LoadChart(env, c, spec, call.first).0, spec, call.second, call.first.stored, lag);
    }
  }

  /**
    With one namespace, bytes that do not change and manifests fixed by what the fingerprints hold,
    every call of every run comes to what the client without caches comes to, down to the chart it
    applies, unless that client could not pull. The one exception is a manifest that cannot be read: it
    forces the uncached client to upgrade, and a verdict in the latch hides it.
  */
  lemma {:induction false} CachesChangeNothing(env: Env, ns: string, steps: seq<Step>, call: Call, lag: nat)
    requires Honest(env) && Congruent(env) && SteadyBytes(env)
    requires RunOk(env, steps, ns, lag) && CallOk(env, call, ns) && Timely(call, lag) && Clock(steps) <= call.check
    ensures Uncached(env, call) == PullFailed ||
            (Ensured(env, After(env, steps), call).1 == Uncached(env, call) <==> !HidesFailedRead(After(env, steps), call))
  {
    RunKeeps(env, ns, steps, lag);
    var c, now := After(env, steps), Clock(steps);
    match Decide(call) {
      case DoInstall => LoadAgrees(env, c, call.spec, call.first, now, lag);
      case DoUpgrade(None) => LoadAgrees(env, c, call.spec, call.second, now, lag);
      case DoUpgrade(Some(info)) => ResolveAgrees(env, ns, c, call, info, now, lag);
      case _ =>
    }
  }

  /** What the gauge says after a call that ends well: whether release and spec still disagree. */
  lemma {:induction false} GaugeIsDisagreement(env: Env, c: Client, call: Call)
    ensures var (after, outcome) := Ensured(env, c, call);
            outcome.Skipped? || outcome.UpToDate? ==>
              && call.deployed.Found? && call.spec.name in after.gauge
              && after.gauge[call.spec.name] == NeedsUpgrade(call.deployed.info, call.spec)
  {
  }

  // ---- Staleness ---------------------------------------------------------------------------------------------------

  /**
    A verdict the latch serves rests on bytes the registry gave at most the two lifetimes together
    before, forty minutes, and the time the proving call took.
  */
  lemma {:induction false} VerdictIsBoundedlyStale(
    env: Env, ns: string, steps: seq<Step>, spec: ReleaseSpec, info: ReleaseInfo, now: int, lag: nat)
    requires Honest(env) && Congruent(env) && RunOk(env, steps, ns, lag) && Clock(steps) <= now
    requires spec.namespace == ns && SpecNulFree(spec) && InfoNulFree(info)
    requires Latched(After(env, steps), spec, info, now)
    ensures RestsOn(env, spec, info, now - (CONVERGENCE_TTL + CHART_CACHE_TTL) - 2 * lag, now)
  {
    RunKeeps(env, ns, steps, lag);
    var v := After(env, steps).converged[spec.name];
    assert VerdictOk(env, ns, spec.name, v, Clock(steps), lag) && Covers(v, spec.name, ns, spec, info);
    var chart :| ChartFrom(env, spec, chart, v.provenAt - CHART_CACHE_TTL - 2 * lag, v.provenAt)
                 && env.render(spec, info, chart) == Some(env.manifest(spec, info));
    Widen(env, spec, chart, v.provenAt - CHART_CACHE_TTL - 2 * lag, v.provenAt,
          now - (CONVERGENCE_TTL + CHART_CACHE_TTL) - 2 * lag, now);
  }

  function At(t: int): LoadTimes { LoadTimes(t, t, t) }

  function InstantCall(spec: ReleaseSpec, info: ReleaseInfo, t: int): Call {
    Call(spec, Found(info), Found(info), true, t, At(t), t, At(t))
  }

  /** A registry whose bytes are replaced at second 1, and a manifest that has the old ones. */
  function RepushedEnv(): Env {
    Env((s: ReleaseSpec, t: int) =>
          if t < 1 then Some(Pulled(Chart("1", "old"), "old")) else Some(Pulled(Chart("1", "new"), "new")),
        bytes => Some(Chart("1", bytes)),
        (s: ReleaseSpec, i: ReleaseInfo, ch: Chart) => Some(ch.content),
        (s: ReleaseSpec, i: ReleaseInfo) => "old")
  }

  /** A release whose manifest is up to date, that differs from the spec in its values, and a public source. */
  predicate Repushed(spec: ReleaseSpec, info: ReleaseInfo) {
    && SpecNulFree(spec) && spec.auth.None? && spec.tls.None? && spec.values.Object?
    && InfoNulFree(info) && !info.pending && info.values.Object? && info.values != spec.values
  }

  lemma {:induction false} FirstVerdict(spec: ReleaseSpec, info: ReleaseInfo)
    requires Repushed(spec, info)
    ensures var c := Next(RepushedEnv(), NEW_CLIENT, Ensure(InstantCall(spec, info, 0)));
            && c.charts == map[ChartCacheKey(spec).value := Archive("old", 0)]
            && c.converged == map[spec.name :=
                 Verdict(info.revision, SpecFingerprint(spec).value, DeployedFingerprint(info).value, 0)]
  {
  }

  lemma {:induction false} SecondVerdict(c: Client, spec: ReleaseSpec, info: ReleaseInfo)
    requires Repushed(spec, info) && !Latched(c, spec, info, CHART_CACHE_TTL)
    requires ChartCacheKey(spec).value in c.charts && c.charts[ChartCacheKey(spec).value] == Archive("old", 0)
    ensures Latched(Next(RepushedEnv(), c, Ensure(InstantCall(spec, info, CHART_CACHE_TTL))), spec, info,
                    CHART_CACHE_TTL + CONVERGENCE_TTL)
  {
  }

  lemma {:induction false} RepushedRuns(spec: ReleaseSpec, edited: ReleaseSpec, info: ReleaseInfo)
    requires Repushed(spec, info) && Repushed(edited, info)
    requires edited == spec.(values := edited.values) && edited != spec
    ensures var steps := [Ensure(InstantCall(spec, info, 0)), Ensure(InstantCall(edited, info, CHART_CACHE_TTL))];
            && RunOk(RepushedEnv(), steps, spec.namespace, 0)
            && Latched(After(RepushedEnv(), steps), edited, info, CHART_CACHE_TTL + CONVERGENCE_TTL)
  {
    var env, a, b := RepushedEnv(), Ensure(InstantCall(spec, info, 0)), Ensure(InstantCall(edited, info, CHART_CACHE_TTL));
    SpecFingerprintInjective(spec, edited);
    FirstVerdict(spec, info);
    SecondVerdict(Next(env, NEW_CLIENT, a), edited, info);
    assert [a][..|[a]| - 1] == [] && [a, b][..|[a, b]| - 1] == [a];
    assert After(env, [a]) == Next(env, After(env, []), a) && After(env, [a, b]) == Next(env, After(env, [a]), b);
    assert RunOk(env, [], spec.namespace, 0) && Clock([]) == 0;
    assert [a][|[a]| - 1] == a && a.call == InstantCall(spec, info, 0);
    assert RunOk(env, [a], spec.namespace, 0) && Clock([a]) == 0;
  }

  /**
    Half an hour is not enough: a verdict proven from a ten-minute-old archive serves for thirty
    minutes more, while every pull since second 1 would have led to an upgrade.
  */
  lemma {:induction false} HalfAnHourIsNotEnough(spec: ReleaseSpec, edited: ReleaseSpec, info: ReleaseInfo)
    requires Repushed(spec, info) && Repushed(edited, info)
    requires edited == spec.(values := edited.values) && edited != spec
    ensures var env := RepushedEnv();
            var steps := [Ensure(InstantCall(spec, info, 0)), Ensure(InstantCall(edited, info, CHART_CACHE_TTL))];
            var late := CHART_CACHE_TTL + CONVERGENCE_TTL;
            && Honest(env) && Congruent(env) && RunOk(env, steps, spec.namespace, 0)
            && Ensured(env, After(env, steps), InstantCall(edited, info, late)).1 == UpToDate
            && (forall t :: 1 <= t <= late ==> Uncached(env, InstantCall(edited, info, t)).Upgrade?)
            && !RestsOn(env, edited, info, 1, late)
  {
    RepushedRuns(spec, edited, info);
    assert !ValuesEqual(info.values, edited.values);
  }

  // ---- Namespaces ----------------------------------------------------------------------------------------------------

  /** Manifests that name their namespace, and a chart that was rendered for namespace "a". */
  function NamespacedEnv(): Env {
    Env((s: ReleaseSpec, t: int) => Some(Pulled(Chart("1", ""), "")),
        bytes => None,
        (s: ReleaseSpec, i: ReleaseInfo, ch: Chart) => Some("a"),
        (s: ReleaseSpec, i: ReleaseInfo) => s.namespace)
  }

  /** Verdicts are kept by release name alone, so one namespace silences another. */
  lemma {:induction false} NamespacesShareVerdicts(spec: ReleaseSpec, info: ReleaseInfo)
    requires spec.namespace == "a" && !info.pending
    requires info.values == spec.values == Empty(true) && info.version != spec.version
    ensures var env := NamespacedEnv();
            var call := InstantCall(spec.(namespace := "b"), info, 0);
            && Uncached(env, call) == Upgrade(Chart("1", ""))
            && Ensured(env, Next(env, NEW_CLIENT, Ensure(InstantCall(spec, info, 0))), call).1 == UpToDate
  {
    var env := NamespacedEnv();
    var c := Next(env, NEW_CLIENT, Ensure(InstantCall(spec, info, 0)));
    assert spec.name in c.converged;
  }

  // ---- Manifests that cannot be read -------------------------------------------------------------------------------

  /** A chart that renders nothing, over a release whose manifest is not empty. */
  function BlankEnv(): Env {
    Env((s: ReleaseSpec, t: int) => Some(Pulled(Chart("1", ""), "")),
        bytes => None,
        (s: ReleaseSpec, i: ReleaseInfo, ch: Chart) => Some(""),
        (s: ReleaseSpec, i: ReleaseInfo) => "manifest")
  }

  /** A manifest that cannot be read counts as empty, so such a chart is latched as up to date though it is not. */
  lemma {:induction false} BlankRenderLatchesUnread(spec: ReleaseSpec, info: ReleaseInfo)
    requires !info.pending && info.values == spec.values == Empty(true) && info.version != spec.version
    ensures var env, call := BlankEnv(), InstantCall(spec, info, 0);
            && Uncached(env, call) == Upgrade(Chart("1", ""))
            && Ensured(env, Next(env, NEW_CLIENT, Ensure(call.(manifestRead := false))), call).1 == UpToDate
  {
    var env := BlankEnv();
    var c := Next(env, NEW_CLIENT, Ensure(InstantCall(spec, info, 0).(manifestRead := false)));
    assert spec.name in c.converged;
  }

  // ---- Pull rate ------------------------------------------------------------------------------------------------------

  /** A settled release that disagrees with its spec in a way no upgrade removes. */
  ghost predicate Cosmetic(env: Env, spec: ReleaseSpec, info: ReleaseInfo) {
    && NeedsUpgrade(info, spec)
    && SpecFingerprint(spec).Some? && DeployedFingerprint(info).Some?
    && forall t :: env.registry(spec, t).Some?
         && env.render(spec, info, env.registry(spec, t).value.chart) == Some(env.manifest(spec, info))
  }

  /** Only this spec is ensured, and storage does not change and can be read. */
  predicate Constant(steps: seq<Step>, spec: ReleaseSpec, info: ReleaseInfo) {
    forall i :: 0 <= i < |steps| ==>
      steps[i].Ensure? && steps[i].call.spec == spec && steps[i].call.deployed == Found(info)
      && steps[i].call.last.Found? && !steps[i].call.last.info.pending && steps[i].call.manifestRead
  }

  predicate Apart(pulls: seq<int>) {
    forall i :: 0 < i < |pulls| ==> pulls[i] - pulls[i - 1] > CONVERGENCE_TTL
  }

  /** Once there was a pull there is a verdict for this spec that is no older. */
  predicate PullsOk(c: Client, spec: ReleaseSpec, info: ReleaseInfo) {
    && Apart(c.pulls)
    && (c.pulls != [] ==>
          spec.name in c.converged && Matches(c.converged[spec.name], spec, info)
          && c.converged[spec.name].provenAt >= c.pulls[|c.pulls| - 1])
  }

  lemma {:induction false} EnsureApart(
    env: Env, ns: string, c: Client, call: Call, info: ReleaseInfo, now: int, lag: nat)
    requires Honest(env) && Congruent(env) && SteadyBytes(env) && ClientOk(env, ns, c, now, lag)
    requires CallOk(env, call, ns) && InfoNulFree(info) && Timely(call, lag) && now <= call.check
    requires call.manifestRead && Cosmetic(env, call.spec, info)
    requires Decide(call) == DoUpgrade(Some(info)) && PullsOk(c, call.spec, info)
    ensures PullsOk(Ensured(env, c, call).0, call.spec, info) && Ensured(env, c, call).1 == UpToDate
  {
    assert Ensured(env, c, call) == Resolve(env, c, call, info);
    if !Latched(c, call.spec, info, call.check) {
      ResolveApart(env, ns, c, call, info, now, lag);
    }
  }

  lemma {:induction false} ResolveApart(
    env: Env, ns: string, c: Client, call: Call, info: ReleaseInfo, now: int, lag: nat)
    requires Honest(env) && Congruent(env) && SteadyBytes(env) && ClientOk(env, ns, c, now, lag)
    requires CallOk(env, call, ns) && InfoNulFree(info) && Timely(call, lag) && now <= call.check
    requires call.manifestRead && Cosmetic(env, call.spec, info) && PullsOk(c, call.spec, info)
    requires !Latched(c, call.spec, info, call.check)
    ensures var (after, outcome) := Resolve(env, c, call, info);
            PullsOk(after, call.spec, info) && outcome == UpToDate
  {
    LoadKeeps(env, c, call.spec, call.first, now, lag);
    LoadAgrees(env, c, call.spec, call.first, now, lag);
    assert Fetch(env, call.spec, call.first.pull).Some?;
    var (loaded, chart) := LoadChart(env, c, call.spec, call.first);
    assert chart.Some? && env.render(call.spec, info, chart.value) == Some(CurrentManifest(env, call, info));
    LoadApart(env, c, call, info);
    LatchApart(loaded, call, info);
  }

  /** A load pulls at most once, and later than the verdict's lifetime if there was one to look at. */
  lemma {:induction false} LoadApart(env: Env, c: Client, call: Call, info: ReleaseInfo)
    requires PullsOk(c, call.spec, info) && !Latched(c, call.spec, info, call.check)
    requires call.check <= call.first.pull <= call.proven
    ensures var pulls := LoadChart(env, c, call.spec, call.first).0.pulls;
            Apart(pulls) && (pulls != [] ==> call.proven >= pulls[|pulls| - 1])
  {
  }

  lemma {:induction false} LatchApart(c: Client, call: Call, info: ReleaseInfo)
    requires SpecFingerprint(call.spec).Some? && DeployedFingerprint(info).Some?
    requires Apart(c.pulls) && (c.pulls != [] ==> call.proven >= c.pulls[|c.pulls| - 1])
    ensures PullsOk(Latch(c, call.spec, info, call.proven), call.spec, info)
  {
  }

  /** Successive pulls for such a release are more than the verdict's lifetime apart. */
  lemma {:induction false} PullsAreApart(
    env: Env, ns: string, steps: seq<Step>, spec: ReleaseSpec, info: ReleaseInfo, lag: nat)
    requires Honest(env) && Congruent(env) && SteadyBytes(env) && RunOk(env, steps, ns, lag)
    requires Cosmetic(env, spec, info) && Constant(steps, spec, info)
    ensures PullsOk(After(env, steps), spec, info)
  {
    if steps != [] {
      var front, last := steps[..|steps| - 1], steps[|steps| - 1];
      PullsAreApart(env, ns, front, spec, info, lag);
      RunKeeps(env, ns, front, lag);
      EnsureApart(env, ns, After(env, front), last.call, info, Clock(front), lag);
    }
  }

  lemma {:induction false} ApartAdds(pulls: seq<int>, i: nat, j: nat)
    requires Apart(pulls) && i <= j < |pulls|
    ensures pulls[j] - pulls[i] >= (j - i) * CONVERGENCE_TTL
    decreases j - i
  {
    if i < j {
      ApartAdds(pulls, i, j - 1);
    }
  }

  /** So however often it is ensured, a window of length T holds at most 1 + T / 1800 pulls. */
  lemma {:induction false} PullRate(
    env: Env, ns: string, steps: seq<Step>, spec: ReleaseSpec, info: ReleaseInfo, lag: nat, i: nat, j: nat, window: nat)
    requires Honest(env) && Congruent(env) && SteadyBytes(env) && RunOk(env, steps, ns, lag)
    requires Cosmetic(env, spec, info) && Constant(steps, spec, info)
    requires i <= j < |After(env, steps).pulls| && After(env, steps).pulls[j] - After(env, steps).pulls[i] <= window
    ensures j - i + 1 <= 1 + window / CONVERGENCE_TTL
  {
    PullsAreApart(env, ns, steps, spec, info, lag);
    ApartAdds(After(env, steps).pulls, i, j);
  }

  /** Values that cannot be encoded are never latched; without the chart cache every call then pulls. */
  lemma {:induction false} UnencodablePullsEveryTime(env: Env, c: Client, call: Call, info: ReleaseInfo)
    requires Decide(call) == DoUpgrade(Some(info)) && (call.spec.values.Unencodable? || info.values.Unencodable?)
    requires ChartCacheKey(call.spec).None?
    ensures var after := Ensured(env, c, call).0;
            after.converged == c.converged && |after.pulls| > |c.pulls| && after.pulls[|c.pulls|] == call.first.pull
  {
  }
}

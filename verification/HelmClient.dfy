/**
  EnsureRelease with its two caches: a latch over "no upgrade needed" verdicts and a cache of chart
  archives. Times are seconds. The registry, the chart parser, the rendering and the manifests in
  release storage are functions of an environment; what they may depend on is stated where needed.
*/
module HelmClient {
  import opened Strings
  import opened HelmKeys

  const CONVERGENCE_TTL := 1800
  const CHART_CACHE_TTL := 600

  datatype Chart = Chart(version: string, content: string)

  /** A chart and the archive it was parsed from; the archive is empty when there is none to keep. */
  datatype Pulled = Pulled(chart: Chart, archive: string)

  datatype Env = Env(
    registry: (ReleaseSpec, int) -> Option<Pulled>,
    parse: string -> Option<Chart>,
    render: (ReleaseSpec, ReleaseInfo, Chart) -> Option<string>,
    manifest: (ReleaseSpec, ReleaseInfo) -> string)

  datatype Archive = Archive(bytes: string, at: int)

  datatype Verdict = Verdict(revision: int, spec: string, deployed: string, provenAt: int)

  /** The caches, the times of the pulls counted so far, and the gauge of unconverged releases. */
  datatype Client = Client(
    converged: map<string, Verdict>, charts: map<string, Archive>, pulls: seq<int>, gauge: map<string, bool>)

  const NEW_CLIENT := Client(map[], map[], [], map[])

  datatype Lookup = ReadFailed | Absent | Found(info: ReleaseInfo)

  /** When one load consults the cache, when it pulls, and when what it pulled is stored. */
  datatype LoadTimes = LoadTimes(lookup: int, pull: int, stored: int)

  /** One call: what storage answers, and the clock at each point that reads it. */
  datatype Call = Call(
    spec: ReleaseSpec, last: Lookup, deployed: Lookup, manifestRead: bool,
    check: int, first: LoadTimes, proven: int, second: LoadTimes)

  datatype Outcome =
    | StorageFailed | PullFailed | RenderFailed | ReleasePending
    | Install(chart: Chart) | Upgrade(chart: Chart) | Skipped | UpToDate

  datatype Decision = DoInstall | DoPending | DoSkip | DoUpgrade(deployed: Option<ReleaseInfo>) | DecisionFailed

  /** The deployed revision is consulted only when the last one does not settle the matter. */
  function DecideRelease(last: Option<ReleaseInfo>, deployed: Lookup, spec: ReleaseSpec): Decision {
    if last.None? then DoInstall
    else if last.value.pending then DoPending
    else
      match deployed
      case ReadFailed => DecisionFailed
      case Absent => DoUpgrade(None)
      case Found(info) => if NeedsUpgrade(info, spec) then DoUpgrade(Some(info)) else DoSkip
  }

  function Decide(call: Call): Decision {
    match call.last
    case ReadFailed => DecisionFailed
    case Absent => DecideRelease(None, call.deployed, call.spec)
    case Found(info) => DecideRelease(Some(info), call.deployed, call.spec)
  }

  // ---- The uncached client --------------------------------------------------------------------------

  function Fetch(env: Env, spec: ReleaseSpec, at: int): Option<Chart> {
    var p := env.registry(spec, at);
    if p.None? then None else Some(p.value.chart)
  }

  function Apply(chart: Option<Chart>, install: bool): Outcome {
    if chart.None? then PullFailed else if install then Install(chart.value) else Upgrade(chart.value)
  }

  function CurrentManifest(env: Env, call: Call, info: ReleaseInfo): string {
    if call.manifestRead then env.manifest(call.spec, info) else ""
  }

  /** What a client without caches does: every chart it uses is pulled. */
  function Uncached(env: Env, call: Call): Outcome {
    match Decide(call)
    case DecisionFailed => StorageFailed
    case DoInstall => Apply(Fetch(env, call.spec, call.first.pull), true)
    case DoPending => ReleasePending
    case DoSkip => Skipped
    case DoUpgrade(None) => Apply(Fetch(env, call.spec, call.second.pull), false)
    case DoUpgrade(Some(info)) =>
      var chart := Fetch(env, call.spec, call.first.pull);
      if chart.None? then PullFailed
      else
        var rendered := env.render(call.spec, info, chart.value);
        if rendered.None? then RenderFailed
        else if rendered.value == CurrentManifest(env, call, info) then UpToDate
        else Apply(Fetch(env, call.spec, call.second.pull), false)
  }

  // ---- The chart cache --------------------------------------------------------------------------------

  predicate ArchiveLive(a: Archive, now: int) { now - a.at <= CHART_CACHE_TTL }

  /** The charts left after a lookup, and the chart it found. */
  function LookupChart(env: Env, charts: map<string, Archive>, key: string, now: int)
    : (map<string, Archive>, Option<Chart>)
  {
    if key !in charts then (charts, None)
    else if ArchiveLive(charts[key], now) && env.parse(charts[key].bytes).Some?
    then (charts, env.parse(charts[key].bytes))
    else (charts - {key}, None)
  }

  function Live(charts: map<string, Archive>, now: int): map<string, Archive> {
    map k | k in charts && ArchiveLive(charts[k], now) :: charts[k]
  }

  function StoreChart(charts: map<string, Archive>, key: string, bytes: string, now: int): map<string, Archive> {
    if bytes == "" then charts else Live(charts, now)[key := Archive(bytes, now)]
  }

  function Pull(env: Env, c: Client, spec: ReleaseSpec, t: LoadTimes): (Client, Option<Chart>) {
    var counted := c.(pulls := c.pulls + [t.pull]);
    var p := env.registry(spec, t.pull);
    var key := ChartCacheKey(spec);
    if p.None? then (counted, None)
    else if key.None? then (counted, Some(p.value.chart))
    else (counted.(charts := StoreChart(c.charts, key.value, p.value.archive, t.stored)), Some(p.value.chart))
  }

  function LoadChart(env: Env, c: Client, spec: ReleaseSpec, t: LoadTimes): (Client, Option<Chart>) {
    var key := ChartCacheKey(spec);
    if key.None? then Pull(env, c, spec, t)
    else
      var (charts, hit) := LookupChart(env, c.charts, key.value, t.lookup);
      if hit.Some? then (c.(charts := charts), hit) else Pull(env, c.(charts := charts), spec, t)
  }

  // ---- The latch ----------------------------------------------------------------------------------------

  predicate Holds(v: Verdict, spec: ReleaseSpec, info: ReleaseInfo, now: int) {
    && SpecFingerprint(spec) == Some(v.spec) && DeployedFingerprint(info) == Some(v.deployed)
    && v.revision == info.revision && now - v.provenAt <= CONVERGENCE_TTL
  }

  predicate Latched(c: Client, spec: ReleaseSpec, info: ReleaseInfo, now: int) {
    spec.name in c.converged && Holds(c.converged[spec.name], spec, info, now)
  }

  function Latch(c: Client, spec: ReleaseSpec, info: ReleaseInfo, now: int): Client {
    var s, d := SpecFingerprint(spec), DeployedFingerprint(info);
    if s.None? || d.None? then c
    else c.(converged := c.converged[spec.name := Verdict(info.revision, s.value, d.value, now)])
  }

  // ---- EnsureRelease --------------------------------------------------------------------------------------

  function Applied(loaded: (Client, Option<Chart>), install: bool): (Client, Outcome) {
    (loaded.0, Apply(loaded.1, install))
  }

  /** The branch for a release that has a deployed revision and disagrees with its spec. */
  function Resolve(env: Env, c: Client, call: Call, info: ReleaseInfo): (Client, Outcome) {
    if Latched(c, call.spec, info, call.check) then (c.(gauge := c.gauge[call.spec.name := true]), UpToDate)
    else
      var (loaded, chart) := LoadChart(env, c, call.spec, call.first);
      if chart.None? then (loaded, PullFailed)
      else
        var rendered := env.render(call.spec, info, chart.value);
        if rendered.None? then (loaded, RenderFailed)
        else if rendered.value == CurrentManifest(env, call, info) then
          (Latch(loaded, call.spec, info, call.proven).(gauge := loaded.gauge[call.spec.name := true]), UpToDate)
        else Applied(LoadChart(env, loaded, call.spec, call.second), false)
  }

  function Ensured(env: Env, c: Client, call: Call): (Client, Outcome) {
    match Decide(call)
    case DecisionFailed => (c, StorageFailed)
    case DoInstall => Applied(LoadChart(env, c, call.spec, call.first), true)
    case DoPending => (c, ReleasePending)
    case DoSkip => (c.(gauge := c.gauge[call.spec.name := false]), Skipped)
    case DoUpgrade(None) => Applied(LoadChart(env, c, call.spec, call.second), false)
    case DoUpgrade(Some(info)) => Resolve(env, c, call, info)
  }

  function Deleted(c: Client, name: string): Client {
    c.(converged := c.converged - {name}, gauge := c.gauge - {name})
  }

  // ---- The client's own code ----------------------------------------------------------------------------------

  class Releases {
    const env: Env
    var converged: map<string, Verdict>
    var charts: map<string, Archive>
    var pulls: seq<int>
    var gauge: map<string, bool>

    constructor (env: Env)
      ensures this.env == env && State() == NEW_CLIENT
    {
      this.env := env;
      converged, charts, pulls, gauge := map[], map[], [], map[];
    }

    function State(): Client
      reads this
    {
      Client(converged, charts, pulls, gauge)
    }

    method ConvergenceHolds(spec: ReleaseSpec, deployed: Option<ReleaseInfo>, now: int) returns (ok: bool)
      ensures ok == (deployed.Some? && Latched(State(), spec, deployed.value, now))
    {
      if deployed.None? || spec.name !in converged {
        return false;
      }
      var fingerprint := SpecFingerprint(spec);
      if fingerprint.None? {
        return false;
      }
      var stored := DeployedFingerprint(deployed.value);
      if stored.None? {
        return false;
      }
      var at := converged[spec.name];
      ok := at.revision == deployed.value.revision && at.spec == fingerprint.value
            && at.deployed == stored.value && now - at.provenAt <= CONVERGENCE_TTL;
    }

    method LatchConvergence(spec: ReleaseSpec, deployed: Option<ReleaseInfo>, now: int)
      modifies this`converged
      ensures State() == if deployed.Some? then Latch(old(State()), spec, deployed.value, now) else old(State())
    {
      if deployed.None? {
        return;
      }
      var fingerprint := SpecFingerprint(spec);
      if fingerprint.None? {
        return;
      }
      var stored := DeployedFingerprint(deployed.value);
      if stored.None? {
        return;
      }
      converged := converged[spec.name := Verdict(deployed.value.revision, fingerprint.value, stored.value, now)];
    }

    method DropConvergence(name: string)
      modifies this`converged
      ensures converged == old(converged) - {name}
    {
      converged := converged - {name};
    }

    method CachedChart(key: string, now: int) returns (chart: Option<Chart>)
      modifies this`charts
      ensures (charts, chart) == LookupChart(env, old(charts), key, now)
    {
      if key !in charts {
        return None;
      }
      var cached := charts[key];
      if now - cached.at > CHART_CACHE_TTL {
        charts := charts - {key};
        return None;
      }
      chart := env.parse(cached.bytes);
      if chart.None? {
        charts := charts - {key};
      }
    }

    method CacheChart(key: string, bytes: string, now: int)
      modifies this`charts
      ensures charts == StoreChart(old(charts), key, bytes, now)
    {
      if |bytes| == 0 {
        return;
      }
      var all, todo := charts, charts.Keys;
      while todo != {}
        invariant todo <= all.Keys && charts.Keys <= all.Keys
        invariant forall k :: k in charts ==> charts[k] == all[k]
        invariant forall k :: k in all ==> (k in charts <==> k in todo || ArchiveLive(all[k], now))
        decreases |todo|
      {
        var k :| k in todo;
        if now - charts[k].at > CHART_CACHE_TTL {
          charts := charts - {k};
        }
        todo := todo - {k};
      }
      assert charts == Live(all, now);
      charts := charts[key := Archive(bytes, now)];
    }

    method LoadChartOnce(spec: ReleaseSpec, t: LoadTimes) returns (chart: Option<Chart>)
      modifies this`charts, this`pulls
      ensures (State(), chart) == LoadChart(env, old(State()), spec, t)
    {
      var key := ChartCacheKey(spec);
      if key.Some? {
        chart := CachedChart(key.value, t.lookup);
        if chart.Some? {
          return;
        }
      }
      pulls := pulls + [t.pull];
      var p := env.registry(spec, t.pull);
      if p.None? {
        return None;
      }
      if key.Some? {
        CacheChart(key.value, p.value.archive, t.stored);
      }
      chart := Some(p.value.chart);
    }

    method ApplyChart(spec: ReleaseSpec, t: LoadTimes, install: bool) returns (outcome: Outcome)
      modifies this`charts, this`pulls
      ensures (State(), outcome) == Applied(LoadChart(env, old(State()), spec, t), install)
    {
      var chart := LoadChartOnce(spec, t);
      outcome := if chart.None? then PullFailed else if install then Install(chart.value) else Upgrade(chart.value);
    }

    /** A release that comes out up to date is on the gauge iff it still disagrees with its spec. */
    method EnsureRelease(call: Call) returns (outcome: Outcome)
      modifies this
      ensures (State(), outcome) == Ensured(env, old(State()), call)
    {
      var spec := call.spec;
      if call.last.ReadFailed? {
        return StorageFailed;
      }
      var last := if call.last.Found? then Some(call.last.info) else None;
      var decision := DecideRelease(last, call.deployed, spec);
      match decision {
        case DecisionFailed => return StorageFailed;
        case DoInstall =>
          outcome := ApplyChart(spec, call.first, true);
          return;
        case DoPending => return ReleasePending;
        case DoSkip =>
          gauge := gauge[spec.name := false];
          return Skipped;
        case DoUpgrade(None) =>
          outcome := ApplyChart(spec, call.second, false);
          return;
        case DoUpgrade(Some(info)) =>
          outcome := ResolveDisagreement(call, info);
      }
    }

    method ResolveDisagreement(call: Call, info: ReleaseInfo) returns (outcome: Outcome)
      modifies this
      ensures (State(), outcome) == Resolve(env, old(State()), call, info)
    {
      var spec := call.spec;
      var holds := ConvergenceHolds(spec, Some(info), call.check);
      if holds {
        gauge := gauge[spec.name := true];
        return UpToDate;
      }
      var current := if call.manifestRead then env.manifest(spec, info) else "";
      var chart := LoadChartOnce(spec, call.first);
      if chart.None? {
        return PullFailed;
      }
      var rendered := env.render(spec, info, chart.value);
      if rendered.None? {
        return RenderFailed;
      }
      if rendered.value == current {
        LatchConvergence(spec, Some(info), call.proven);
        gauge := gauge[spec.name := true];
        return UpToDate;
      }
      outcome := ApplyChart(spec, call.second, false);
    }

    method DeleteRelease(name: string)
      modifies this
      ensures State() == Deleted(old(State()), name)
    {
      DropConvergence(name);
      gauge := gauge - {name};
    }
  }
}

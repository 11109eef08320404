/**
  What one call of the Helm client comes to, in terms of what storage, registry and renderer answer,
  and what it leaves in the caches.
*/
module HelmAnswers {
  import opened Strings
  import opened HelmKeys
  import opened HelmClient

  // ---- Which operation a call comes to ------------------------------------------------------------------

  /** Two values maps agree if neither has entries or both have the same text; one that cannot be encoded never agrees. */
  predicate SameValues(a: Values, b: Values) {
    (a.Empty? && b.Empty?) || (a.Object? && b.Object? && a.json == b.json)
  }

  lemma {:induction false} ValuesAgree(a: Values, b: Values)
    ensures ValuesEqual(a, b) <==> SameValues(a, b)
  {
    assert |"null"| == 4 && "null"[0] == 'n';
  }

  /** The stored release has the version and the values the spec asks for. */
  predicate Agrees(info: ReleaseInfo, spec: ReleaseSpec) {
    info.version == spec.version && SameValues(info.values, spec.values)
  }

  /** The newest revision is there and no operation is under way on it. */
  predicate AtRest(last: Lookup) { last.Found? && !last.info.pending }

  /** What a call comes to, by what storage answers. */
  predicate Answers(call: Call, o: Outcome) {
    && (o == StorageFailed <==> call.last.ReadFailed? || (AtRest(call.last) && call.deployed.ReadFailed?))
    && (o == ReleasePending <==> call.last.Found? && call.last.info.pending)
    && (o == Skipped <==>
          AtRest(call.last) && call.deployed.Found? && Agrees(call.deployed.info, call.spec))
    && (call.last.Absent? ==> o.Install? || o == PullFailed)
    && (AtRest(call.last) && call.deployed.Absent? ==> o.Upgrade? || o == PullFailed)
    && (AtRest(call.last) && call.deployed.Found? && !Agrees(call.deployed.info, call.spec) ==>
          o.Upgrade? || o == UpToDate || o == PullFailed || o == RenderFailed)
  }

  /**
    A release nothing is known of is installed, one in the middle of an operation is reported
    pending, one whose deployed revision agrees with the spec is skipped, and any other is upgraded,
    found up to date, or fails on the way; with the caches and without them.
  */
  lemma {:induction false} CallAnswers(env: Env, c: Client, call: Call)
    ensures Answers(call, Ensured(env, c, call).1) && Answers(call, Uncached(env, call))
  {
    if call.deployed.Found? {
      ValuesAgree(call.deployed.info.values, call.spec.values);
    }
  }

  /** A call that comes to nothing leaves everything as it was, and no call touches another release's records. */
  lemma {:induction false} CallTouches(env: Env, c: Client, call: Call, other: string)
    requires other != call.spec.name
    ensures var (after, o) := Ensured(env, c, call);
            && (o == StorageFailed || o == ReleasePending ==> after == c)
            && (o == Skipped ==> after == c.(gauge := c.gauge[call.spec.name := false]))
            && (o == UpToDate ==> after.gauge == c.gauge[call.spec.name := true])
            && (o != Skipped && o != UpToDate ==> after.gauge == c.gauge)
            && (o != UpToDate ==> after.converged == c.converged)
            && (other in after.converged <==> other in c.converged)
            && (other in c.converged ==> after.converged[other] == c.converged[other])
  {
    if call.deployed.Found? {
      LoadTouches(env, c, call.spec, call.first);
      LoadTouches(env, LoadChart(env, c, call.spec, call.first).0, call.spec, call.second);
    }
    LoadTouches(env, c, call.spec, call.first);
    LoadTouches(env, c, call.spec, call.second);
  }

  lemma {:induction false} LoadTouches(env: Env, c: Client, spec: ReleaseSpec, t: LoadTimes)
    ensures var after := LoadChart(env, c, spec, t).0; after.converged == c.converged && after.gauge == c.gauge
  {
  }

  // ---- Charts -----------------------------------------------------------------------------------------------

  predicate Private(spec: ReleaseSpec) { spec.auth.Some? || spec.tls.Some? }

  /** A chart that needs credentials or trust is pulled every time, and neither read from the cache nor kept in it. */
  lemma {:induction false} PrivateIsPulled(env: Env, c: Client, spec: ReleaseSpec, t: LoadTimes)
    requires Private(spec)
    ensures var (after, chart) := LoadChart(env, c, spec, t);
            && after == c.(pulls := c.pulls + [t.pull])
            && (chart.Some? <==> env.registry(spec, t.pull).Some?)
            && (chart.Some? ==> chart.value == env.registry(spec, t.pull).value.chart)
  {
  }

  /** The archive of this key, if it is at most ten minutes old and parses. */
  predicate Served(env: Env, charts: map<string, Archive>, key: string, now: int) {
    key in charts && now - charts[key].at <= 600 && env.parse(charts[key].bytes).Some?
  }

  /** Any other chart comes from a live archive, without a pull, or from the registry, and is then kept. */
  lemma {:induction false} PublicIsCached(env: Env, c: Client, spec: ReleaseSpec, t: LoadTimes, key: string, other: string)
    requires !Private(spec) && ChartCacheKey(spec) == Some(key) && other != key
    ensures var (after, chart) := LoadChart(env, c, spec, t);
            if Served(env, c.charts, key, t.lookup) then after == c && chart == env.parse(c.charts[key].bytes)
            else
              && after.pulls == c.pulls + [t.pull] && after.converged == c.converged && after.gauge == c.gauge
              && (chart.Some? <==> env.registry(spec, t.pull).Some?)
              && (chart.Some? ==> chart.value == env.registry(spec, t.pull).value.chart)
              && var keeps := chart.Some? && env.registry(spec, t.pull).value.archive != "";
                 && (key in after.charts <==> keeps)
                 && (keeps ==> after.charts[key] == Archive(env.registry(spec, t.pull).value.archive, t.stored))
                 && (other in after.charts <==>
                       other in c.charts && (keeps ==> t.stored - c.charts[other].at <= 600))
                 && (other in after.charts ==> after.charts[other] == c.charts[other])
  {
  }

  // ---- A release that disagrees with its spec ----------------------------------------------------------

  /**
    With no verdict at hand and a private chart, the release is pulled and rendered; it is upgraded,
    from a second pull, exactly if what renders is not its manifest, and latched otherwise.
  */
  lemma {:induction false} DisagreementIsRendered(env: Env, c: Client, call: Call)
    requires AtRest(call.last) && call.deployed.Found? && !Agrees(call.deployed.info, call.spec)
    requires Private(call.spec) && !Latched(c, call.spec, call.deployed.info, call.check)
    ensures var (after, o) := Ensured(env, c, call);
            var spec, info := call.spec, call.deployed.info;
            var first, second := env.registry(spec, call.first.pull), env.registry(spec, call.second.pull);
            var manifest := if call.manifestRead then env.manifest(spec, info) else "";
            if first.None? then o == PullFailed && after.pulls == c.pulls + [call.first.pull]
            else if env.render(spec, info, first.value.chart).None? then
              o == RenderFailed && after.pulls == c.pulls + [call.first.pull]
            else if env.render(spec, info, first.value.chart).value == manifest then
              && o == UpToDate && after.pulls == c.pulls + [call.first.pull]
              && after.converged == Latch(c, spec, info, call.proven).converged
            else
              && after.pulls == c.pulls + [call.first.pull, call.second.pull]
              && o == if second.None? then PullFailed else Upgrade(second.value.chart)
  {
    ValuesAgree(call.deployed.info.values, call.spec.values);
    var (loaded, chart) := LoadChart(env, c, call.spec, call.first);
    PrivateIsPulled(env, c, call.spec, call.first);
    PrivateIsPulled(env, loaded, call.spec, call.second);
    assert c.pulls + [call.first.pull] + [call.second.pull] == c.pulls + [call.first.pull, call.second.pull];
  }

  /** With a verdict at hand nothing is pulled, whatever the chart. */
  lemma {:induction false} VerdictIsServed(env: Env, c: Client, call: Call)
    requires AtRest(call.last) && call.deployed.Found? && !Agrees(call.deployed.info, call.spec)
    requires Latched(c, call.spec, call.deployed.info, call.check)
    ensures Ensured(env, c, call) == (c.(gauge := c.gauge[call.spec.name := true]), UpToDate)
  {
    ValuesAgree(call.deployed.info.values, call.spec.values);
  }

  /**
    A verdict is served to exactly those calls of that release that ask for the same source and
    values, find the same revision with the same chart, version and values, and come within half an
    hour. Values that cannot be encoded leave none.
  */
  lemma {:induction false} VerdictCovers(
    c: Client, spec: ReleaseSpec, info: ReleaseInfo, at: int, other: ReleaseSpec, found: ReleaseInfo, now: int)
    requires SpecNulFree(spec) && SpecNulFree(other) && InfoNulFree(info) && InfoNulFree(found)
    ensures spec.values.Unencodable? || info.values.Unencodable? ==> Latch(c, spec, info, at) == c
    ensures !spec.values.Unencodable? && !info.values.Unencodable? && other.name == spec.name ==>
              (Latched(Latch(c, spec, info, at), other, found, now) <==>
                && other.chartRef == spec.chartRef && other.repoURL == spec.repoURL && other.version == spec.version
                && SameValues(other.values, spec.values) && found.revision == info.revision
                && found.chartName == info.chartName && found.version == info.version
                && SameValues(found.values, info.values) && now - at <= 1800)
    ensures other.name != spec.name ==>
              (Latched(Latch(c, spec, info, at), other, found, now) <==> Latched(c, other, found, now))
  {
    SpecFingerprintInjective(spec, other);
    DeployedFingerprintInjective(info, found);
    ValuesAgree(spec.values, other.values);
    ValuesAgree(info.values, found.values);
    ValuesAgree(other.values, spec.values);
    ValuesAgree(found.values, info.values);
  }

  /** Deleting a release forgets its verdict and its gauge, and nothing else. */
  lemma {:induction false} DeletionForgets(c: Client, name: string, other: string)
    requires other != name
    ensures var after := Deleted(c, name);
            && name !in after.converged && name !in after.gauge
            && after.charts == c.charts && after.pulls == c.pulls
            && (other in after.converged <==> other in c.converged) && (other in after.gauge <==> other in c.gauge)
            && (other in c.converged ==> after.converged[other] == c.converged[other])
            && (other in c.gauge ==> after.gauge[other] == c.gauge[other])
  {
  }
}

/** Release values, and the NUL-joined keys of the two caches of the Helm client. */
module HelmKeys {
  import opened Strings

  /** A values map: no entries, its JSON text, or something JSON cannot encode. */
  datatype RawValues = Empty(isNil: bool) | Object(json: string) | Unencodable

  /** The text of a map with entries is a brace and more than the closing one. */
  type Values = v: RawValues | v.Object? ==> |v.json| > 2 && v.json[0] == '{' witness Empty(true)

  datatype ReleaseSpec = ReleaseSpec(
    name: string, namespace: string, chartRef: string, repoURL: string, version: string, values: Values,
    auth: Option<string>, tls: Option<string>)

  datatype ReleaseInfo = ReleaseInfo(chartName: string, version: string, values: Values, pending: bool, revision: int)

  function Marshal(v: Values): Option<string> {
    match v
    case Empty(isNil) => Some(if isNil then "null" else "{}")
    case Object(json) => Some(json)
    case Unencodable => None
  }

  predicate ValuesEqual(a: Values, b: Values) {
    || (a.Empty? && b.Empty?)
    || (Marshal(a).Some? && Marshal(b).Some? && Marshal(a).value == Marshal(b).value)
  }

  function ValuesFingerprint(v: Values): Option<string> { if v.Empty? then Some("") else Marshal(v) }

  /** Two specs the latch calls equal are exactly the two the upgrade decision calls equal. */
  lemma {:induction false} FingerprintsMirrorEquality(a: Values, b: Values)
    ensures ValuesEqual(a, b) <==> ValuesFingerprint(a).Some? && ValuesFingerprint(a) == ValuesFingerprint(b)
  {
  }

  // ---- Keys ------------------------------------------------------------------------------------

  predicate VersionDrift(info: ReleaseInfo, spec: ReleaseSpec) { info.version != spec.version }

  predicate NeedsUpgrade(info: ReleaseInfo, spec: ReleaseSpec) {
    VersionDrift(info, spec) || !ValuesEqual(info.values, spec.values)
  }

  function SpecFingerprint(spec: ReleaseSpec): Option<string> {
    var values := ValuesFingerprint(spec.values);
    if values.None? then None
    else Some(Join(spec.chartRef, Join(spec.repoURL, Join(spec.version, values.value))))
  }

  function DeployedFingerprint(info: ReleaseInfo): Option<string> {
    var values := ValuesFingerprint(info.values);
    if values.None? then None else Some(Join(info.chartName, Join(info.version, values.value)))
  }

  /** A spec with credentials or trust of its own is never served from the chart cache. */
  function ChartCacheKey(spec: ReleaseSpec): Option<string> {
    if spec.auth.Some? || spec.tls.Some? then None
    else Some(Join(spec.chartRef, Join(spec.repoURL, spec.version)))
  }

  predicate SpecNulFree(spec: ReleaseSpec) {
    NulFree(spec.chartRef) && NulFree(spec.repoURL) && NulFree(spec.version)
  }

  predicate InfoNulFree(info: ReleaseInfo) { NulFree(info.chartName) && NulFree(info.version) }

  /** What decides the bytes of a pull. */
  predicate SameSource(a: ReleaseSpec, b: ReleaseSpec) {
    a.chartRef == b.chartRef && a.repoURL == b.repoURL && a.version == b.version
  }

  predicate SameRender(a: ReleaseSpec, b: ReleaseSpec) { SameSource(a, b) && ValuesEqual(a.values, b.values) }

  predicate SameStored(a: ReleaseInfo, b: ReleaseInfo) {
    a.chartName == b.chartName && a.version == b.version && ValuesEqual(a.values, b.values)
  }

  lemma {:induction false} SpecFingerprintInjective(a: ReleaseSpec, b: ReleaseSpec)
    requires SpecNulFree(a) && SpecNulFree(b)
    ensures SameRender(a, b) <==> SpecFingerprint(a).Some? && SpecFingerprint(a) == SpecFingerprint(b)
  {
    FingerprintsMirrorEquality(a.values, b.values);
    if SpecFingerprint(a).Some? && SpecFingerprint(a) == SpecFingerprint(b) {
      var x, y := ValuesFingerprint(a.values).value, ValuesFingerprint(b.values).value;
      JoinInjective(a.chartRef, Join(a.repoURL, Join(a.version, x)), b.chartRef, Join(b.repoURL, Join(b.version, y)));
      JoinInjective(a.repoURL, Join(a.version, x), b.repoURL, Join(b.version, y));
      JoinInjective(a.version, x, b.version, y);
    }
  }

  lemma {:induction false} DeployedFingerprintInjective(a: ReleaseInfo, b: ReleaseInfo)
    requires InfoNulFree(a) && InfoNulFree(b)
    ensures SameStored(a, b) <==> DeployedFingerprint(a).Some? && DeployedFingerprint(a) == DeployedFingerprint(b)
  {
    FingerprintsMirrorEquality(a.values, b.values);
    if DeployedFingerprint(a).Some? && DeployedFingerprint(a) == DeployedFingerprint(b) {
      var x, y := ValuesFingerprint(a.values).value, ValuesFingerprint(b.values).value;
      JoinInjective(a.chartName, Join(a.version, x), b.chartName, Join(b.version, y));
      JoinInjective(a.version, x, b.version, y);
    }
  }

  lemma {:induction false} ChartCacheKeyInjective(a: ReleaseSpec, b: ReleaseSpec)
    requires SpecNulFree(a) && SpecNulFree(b)
    requires ChartCacheKey(a).Some? && ChartCacheKey(b).Some?
    ensures SameSource(a, b) <==> ChartCacheKey(a) == ChartCacheKey(b)
  {
    if ChartCacheKey(a) == ChartCacheKey(b) {
      JoinInjective(a.chartRef, Join(a.repoURL, a.version), b.chartRef, Join(b.repoURL, b.version));
      JoinInjective(a.repoURL, a.version, b.repoURL, b.version);
    }
  }

  /** A field that does contain the separator makes two sources share a key. */
  lemma {:induction false} SharedKeyWithNul(spec: ReleaseSpec, ref: string, url: string, rest: string)
    requires spec.auth.None? && spec.tls.None?
    ensures var a := spec.(chartRef := ref, repoURL := Join(url, rest));
            var b := spec.(chartRef := Join(ref, url), repoURL := rest);
            !SameSource(a, b) && ChartCacheKey(a) == ChartCacheKey(b) && SpecFingerprint(a) == SpecFingerprint(b)
  {
    var a := spec.(chartRef := ref, repoURL := Join(url, rest));
    var b := spec.(chartRef := Join(ref, url), repoURL := rest);
    assert |a.chartRef| != |b.chartRef|;
    Regroup(ref, url, rest, spec.version);
    if ValuesFingerprint(spec.values).Some? {
      Regroup(ref, url, rest, Join(spec.version, ValuesFingerprint(spec.values).value));
    }
  }

  lemma {:induction false} Regroup(a: string, b: string, c: string, d: string)
    ensures Join(a, Join(Join(b, c), d)) == Join(Join(a, b), Join(c, d))
  {
  }
}

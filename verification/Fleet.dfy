/**
  Certification of a blueprint workload against what Fleet reports, and the component matrix.

  A digest is the text "sha256:<hex>"; only its label form is ever compared with a bundle.
*/
module Fleet {
  import opened Strings
  import Sorting
  import Naming

  type Id = (string, string)   // (Fleet workspace, name)

  datatype Bundle = Bundle(
    digestLabel: string, generation: int, observed: int, unavailable: int, ready: int, desiredReady: int)

  datatype Deployment = Deployment(
    workspace: string, bundle: string, cluster: string,
    desired: string, applied: string, state: string, message: string)

  /** The Accepted condition of a HelmOp; an absent one has the empty fingerprint. */
  datatype Accepted = NoCondition | Accepted(isFalse: bool, fingerprint: string)

  datatype HelmOp = HelmOp(uid: string, generation: int, accepted: Accepted)

  datatype World = World(
    bundles: map<Id, Bundle>, deployments: seq<Deployment>, helmOps: map<Id, HelmOp>)

  datatype Baseline = Baseline(uid: string, digest: string, epoch: int, generation: int, fingerprint: string)

  datatype Component = Component(chart: string, release: string)

  datatype Strategy = Helm | FleetBundle | GitOps

  datatype Key = Key(workspace: string, name: string, chart: string, release: string, expected: int)

  datatype ClusterPhase = Running | Pending | Failed

  datatype Phase = PhasePending | PhaseRunning | PhaseDegraded | PhaseFailed | PhaseUnknown

  datatype Cell = Cell(component: string, release: string, cluster: string, phase: ClusterPhase,
                       revision: string, message: string)

  const LOCAL := "local"
  const FLEET_LOCAL := "fleet-local"
  const FLEET_DEFAULT := "fleet-default"

  function Fingerprint(a: Accepted): string { if a.NoCondition? then "" else a.fingerprint }

  function DigestLabel(digest: string): string {
    var d := if "sha256:" <= digest then digest[7..] else digest;
    if |d| > 63 then d[..63] else d
  }

  /** A digest's label is its hexadecimal digits, up to sixty-three of them. */
  lemma {:induction false} LabelOfDigest(hex: string)
    requires !("sha256:" <= hex)
    ensures DigestLabel("sha256:" + hex) == DigestLabel(hex) == (if |hex| > 63 then hex[..63] else hex)
  {
    assert ("sha256:" + hex)[7..] == hex;
  }

  // ---- Desired keys --------------------------------------------------------------------------------

  function Remote(clusters: seq<string>): seq<string> {
    if clusters == [] then []
    else
      var front, c := Remote(clusters[..|clusters| - 1]), clusters[|clusters| - 1];
      if c == LOCAL then front else front + [c]
  }

  lemma {:induction false} RemoteMembers(clusters: seq<string>)
    ensures forall c :: c in Remote(clusters) <==> c in clusters && c != LOCAL
  {
    if clusters != [] {
      RemoteMembers(clusters[..|clusters| - 1]);
      assert clusters == clusters[..|clusters| - 1] + [clusters[|clusters| - 1]];
    }
  }

  lemma {:induction false} RemoteCount(clusters: seq<string>)
    ensures |Remote(clusters)| == |clusters| - multiset(clusters)[LOCAL]
  {
    if clusters != [] {
      var front, last := clusters[..|clusters| - 1], clusters[|clusters| - 1];
      RemoteCount(front);
      assert clusters == front + [last];
    }
  }

  /** A component with the names its objects carry. */
  datatype Unit = Unit(chart: string, bundle: string, release: string)

  function ReleaseName(c: Component): string {
    Naming.CapReleaseName(if c.release != "" then c.release else c.chart)
  }

  function UnitOf(workload: string, c: Component): Unit {
    Unit(c.chart, Naming.BundleName(workload, c.chart), ReleaseName(c))
  }

  /** Bundles are named after workload and chart, releases as the component says or else like the chart, where it all fits. */
  lemma {:induction false} UnitNames(workload: string, c: Component)
    requires |workload| + 1 + |Naming.Slugify(c.chart)| <= 63
    ensures var u, name := UnitOf(workload, c), if c.release != "" then c.release else c.chart;
            && u.chart == c.chart && u.bundle == workload + "-" + Naming.Slugify(c.chart)
            && (|name| <= 53 ==> u.release == name)
  {
    Naming.BundleNameText(workload, c.chart);
  }

  function Units(workload: string, components: seq<Component>): seq<Unit> {
    seq(|components|, i requires 0 <= i < |components| => UnitOf(workload, components[i]))
  }

  function KeyFor(u: Unit, workspace: string, expected: nat): Key {
    Key(workspace, u.bundle, u.chart, u.release, expected)
  }

  /** The keys of one unit: one for each workspace that has a target. */
  function KeysOf(u: Unit, strategy: Strategy, local: nat, downstream: nat): seq<Key> {
    if strategy == Helm then []
    else
      (if local > 0 then [KeyFor(u, FLEET_LOCAL, local)] else [])
      + (if downstream > 0 then [KeyFor(u, FLEET_DEFAULT, downstream)] else [])
  }

  function LocalCount(clusters: seq<string>): nat { if LOCAL in clusters then 1 else 0 }

  /** The key that makes a unit answer for a target cluster. */
  function TargetKey(clusters: seq<string>, u: Unit, cluster: string): Key {
    if cluster == LOCAL then KeyFor(u, FLEET_LOCAL, 1) else KeyFor(u, FLEET_DEFAULT, |Remote(clusters)|)
  }

  function KeyLists(clusters: seq<string>, units: seq<Unit>, strategy: Strategy): seq<seq<Key>> {
    seq(|units|, i requires 0 <= i < |units| => KeysOf(units[i], strategy, LocalCount(clusters), |Remote(clusters)|))
  }

  function Concat(lists: seq<seq<Key>>): seq<Key> {
    if lists == [] then [] else Concat(lists[..|lists| - 1]) + lists[|lists| - 1]
  }

  /** These keys and no others, as often as they are, in order. */
  ghost predicate IsKeyList(keys: seq<Key>, clusters: seq<string>, units: seq<Unit>, strategy: Strategy) {
    multiset(keys) == multiset(Concat(KeyLists(clusters, units, strategy))) && Sorting.Sorted(keys, KeyLess)
  }

  predicate IsKeyOf(clusters: seq<string>, strategy: Strategy, u: Unit, k: Key) {
    k in KeysOf(u, strategy, LocalCount(clusters), |Remote(clusters)|)
  }

  lemma {:induction false} ConcatMembers(lists: seq<seq<Key>>, k: Key)
    ensures k in Concat(lists) <==> exists i :: 0 <= i < |lists| && k in lists[i]
  {
    if lists != [] {
      var front, last := lists[..|lists| - 1], lists[|lists| - 1];
      ConcatMembers(front, k);
      assert k in Concat(lists) <==> k in Concat(front) || k in last;
      if i :| 0 <= i < |lists| && k in lists[i] && i < |front| {
        assert k in front[i];
      }
    }
  }

  lemma {:induction false} KeyListMembers(
    keys: seq<Key>, clusters: seq<string>, units: seq<Unit>, strategy: Strategy, k: Key)
    requires IsKeyList(keys, clusters, units, strategy)
    ensures k in keys <==> exists u :: u in units && IsKeyOf(clusters, strategy, u, k)
  {
    var lists := KeyLists(clusters, units, strategy);
    ConcatMembers(lists, k);
    assert k in keys <==> k in multiset(keys);
    assert k in Concat(lists) <==> k in multiset(Concat(lists));
    if i :| 0 <= i < |lists| && k in lists[i] {
      assert units[i] in units && IsKeyOf(clusters, strategy, units[i], k);
    }
    if u :| u in units && IsKeyOf(clusters, strategy, u, k) {
      var i :| 0 <= i < |units| && units[i] == u;
      assert k in lists[i];
    }
  }

  lemma {:induction false} KeyLessWeakOrder()
    ensures Sorting.WeakOrder(KeyLess)
  {
    Sorting.FieldsWeakOrder(KeyLess, (k: Key) => k.workspace, (k: Key) => k.name);
  }

  predicate KeyLess(a: Key, b: Key) {
    if a.workspace != b.workspace then Less(a.workspace, b.workspace) else Less(a.name, b.name)
  }

  method CountTargets(clusters: seq<string>) returns (localCount: nat, downstream: nat)
    ensures localCount == LocalCount(clusters)
    ensures downstream == |Remote(clusters)|
  {
    localCount, downstream := 0, 0;
    var n := 0;
    while n < |clusters|
      invariant 0 <= n <= |clusters|
      invariant localCount == if LOCAL in clusters[..n] then 1 else 0
      invariant downstream == |Remote(clusters[..n])|
    {
      assert clusters[..n + 1][..n] == clusters[..n];
      if clusters[n] == LOCAL {
        localCount := 1;
      } else {
        downstream := downstream + 1;
      }
      n := n + 1;
    }
    assert clusters[..n] == clusters;
  }

  method DesiredHelmOpKeys(workload: string, clusters: seq<string>, components: seq<Component>, strategy: Strategy)
    returns (keys: seq<Key>)
    ensures IsKeyList(keys, clusters, Units(workload, components), strategy)
  {
    var localCount, downstream := CountTargets(clusters);
    var units := Units(workload, components);
    keys := CollectKeys(units, strategy, localCount, downstream);
    assert seq(|units|, i requires 0 <= i < |units| => KeysOf(units[i], strategy, localCount, downstream))
        == KeyLists(clusters, units, strategy);
    KeyLessWeakOrder();
    Sorting.SortSorts(keys, KeyLess);
    Sorting.SortKeeps(keys, KeyLess);
    keys := Sorting.Sort(keys, KeyLess);
  }

  method CollectKeys(units: seq<Unit>, strategy: Strategy, localCount: nat, downstream: nat) returns (keys: seq<Key>)
    ensures keys == Concat(seq(|units|, i requires 0 <= i < |units| => KeysOf(units[i], strategy, localCount, downstream)))
  {
    ghost var lists := seq(|units|, i requires 0 <= i < |units| => KeysOf(units[i], strategy, localCount, downstream));
    keys := [];
    var n := 0;
    while n < |units|
      invariant 0 <= n <= |units|
      invariant keys == Concat(lists[..n])
    {
      ConcatNext(lists, n);
      keys := keys + KeysOf(units[n], strategy, localCount, downstream);
      n := n + 1;
    }
    assert lists[..n] == lists;
  }

  // ---- Expected digests ----------------------------------------------------------------------------

  function Recorded(digests: map<Id, string>, keys: seq<Key>, digest: string): map<Id, string> {
    if keys == [] then digests
    else
      var k := keys[|keys| - 1];
      Recorded(digests, keys[..|keys| - 1], digest)[(k.workspace, k.name) := digest]
  }

  function RecordedAll(lists: seq<seq<Key>>, renders: seq<string>): map<Id, string>
    requires |renders| == |lists|
  {
    if lists == [] then map[]
    else
      var n := |lists| - 1;
      Recorded(RecordedAll(lists[..n], renders[..n]), lists[n], renders[n])
  }

  /** The digest each desired bundle should carry: that of the last unit rendered under its name. */
  function ExpectedDigests(
    clusters: seq<string>, units: seq<Unit>, renders: seq<string>, strategy: Strategy): map<Id, string>
    requires |renders| == |units|
  {
    RecordedAll(KeyLists(clusters, units, strategy), renders)
  }

  predicate HasId(keys: seq<Key>, id: Id) { exists k :: k in keys && (k.workspace, k.name) == id }

  lemma {:induction false} RecordedAt(digests: map<Id, string>, keys: seq<Key>, digest: string, id: Id)
    ensures id in Recorded(digests, keys, digest) <==> id in digests || HasId(keys, id)
    ensures id in Recorded(digests, keys, digest) ==>
              Recorded(digests, keys, digest)[id] == if HasId(keys, id) then digest else digests[id]
  {
    if keys != [] {
      var front, last := keys[..|keys| - 1], keys[|keys| - 1];
      RecordedAt(digests, front, digest, id);
      assert keys == front + [last];
      assert HasId(keys, id) <==> HasId(front, id) || (last.workspace, last.name) == id;
    }
  }

  lemma {:induction false} LastRecorded(lists: seq<seq<Key>>, renders: seq<string>, i: nat, id: Id)
    requires |renders| == |lists| && i < |lists| && HasId(lists[i], id)
    requires forall j :: i < j < |lists| ==> !HasId(lists[j], id)
    ensures id in RecordedAll(lists, renders) && RecordedAll(lists, renders)[id] == renders[i]
  {
    var n := |lists| - 1;
    RecordedAt(RecordedAll(lists[..n], renders[..n]), lists[n], renders[n], id);
    if i < n {
      LastRecorded(lists[..n], renders[..n], i, id);
    }
  }

  lemma {:induction false} SomeRecorded(lists: seq<seq<Key>>, renders: seq<string>, i: nat, id: Id)
    requires |renders| == |lists| && i < |lists| && HasId(lists[i], id)
    ensures id in RecordedAll(lists, renders)
  {
    var n := |lists| - 1;
    RecordedAt(RecordedAll(lists[..n], renders[..n]), lists[n], renders[n], id);
    if i < n {
      SomeRecorded(lists[..n], renders[..n], i, id);
    }
  }

  lemma {:induction false} RecordedNext(lists: seq<seq<Key>>, renders: seq<string>, n: nat)
    requires |renders| == |lists| && n < |lists|
    ensures RecordedAll(lists[..n + 1], renders[..n + 1]) ==
            Recorded(RecordedAll(lists[..n], renders[..n]), lists[n], renders[n])
  {
    assert lists[..n + 1][..n] == lists[..n] && renders[..n + 1][..n] == renders[..n];
  }

  lemma {:induction false} ConcatNext(lists: seq<seq<Key>>, n: nat)
    requires n < |lists|
    ensures Concat(lists[..n + 1]) == Concat(lists[..n]) + lists[n]
  {
    assert lists[..n + 1][..n] == lists[..n];
  }

  method RecordKeys(before: map<Id, string>, keys: seq<Key>, digest: string) returns (digests: map<Id, string>)
    ensures digests == Recorded(before, keys, digest)
  {
    digests := before;
    var m := 0;
    while m < |keys|
      invariant 0 <= m <= |keys|
      invariant digests == Recorded(before, keys[..m], digest)
    {
      assert keys[..m + 1][..m] == keys[..m];
      digests := digests[(keys[m].workspace, keys[m].name) := digest];
      m := m + 1;
    }
    assert keys[..m] == keys;
  }

  method RecordLists(lists: seq<seq<Key>>, renders: seq<string>) returns (digests: map<Id, string>)
    requires |renders| == |lists|
    ensures digests == RecordedAll(lists, renders)
  {
    digests := map[];
    var n := 0;
    while n < |lists|
      invariant 0 <= n <= |lists|
      invariant digests == RecordedAll(lists[..n], renders[..n])
    {
      RecordedNext(lists, renders, n);
      digests := RecordKeys(digests, lists[n], renders[n]);
      n := n + 1;
    }
    assert lists[..n] == lists && renders[..n] == renders;
  }

  method ExpectDigests(clusters: seq<string>, units: seq<Unit>, renders: seq<string>, strategy: Strategy)
    returns (digests: map<Id, string>)
    requires |renders| == |units|
    ensures digests == ExpectedDigests(clusters, units, renders, strategy)
  {
    digests := RecordLists(KeyLists(clusters, units, strategy), renders);
  }

  predicate DistinctBundles(units: seq<Unit>) {
    forall i, j :: 0 <= i < j < |units| ==> units[i].bundle != units[j].bundle
  }

  /** A unit's keys: in each workspace that has a target, under the unit's bundle name. */
  lemma {:induction false} KeysOfAt(u: Unit, strategy: Strategy, local: nat, downstream: nat, k: Key)
    ensures k in KeysOf(u, strategy, local, downstream) <==>
              && strategy != Helm
              && (|| (local > 0 && k == KeyFor(u, FLEET_LOCAL, local))
                  || (downstream > 0 && k == KeyFor(u, FLEET_DEFAULT, downstream)))
  {
  }

  lemma {:induction false} KeyNames(u: Unit, strategy: Strategy, local: nat, downstream: nat, id: Id)
    requires HasId(KeysOf(u, strategy, local, downstream), id)
    ensures id.1 == u.bundle
  {
    var k :| k in KeysOf(u, strategy, local, downstream) && (k.workspace, k.name) == id;
    KeysOfAt(u, strategy, local, downstream, k);
  }

  /** Each unit has a key in the local workspace exactly if "local" is a target, and in the other if anything else is. */
  lemma {:induction false} DesiredExactly(
    keys: seq<Key>, clusters: seq<string>, units: seq<Unit>, strategy: Strategy, k: Key)
    requires IsKeyList(keys, clusters, units, strategy)
    ensures k in keys <==>
              && strategy != Helm
              && (exists u :: u in units && k.name == u.bundle && k.chart == u.chart && k.release == u.release)
              && (var others := |clusters| - multiset(clusters)["local"];
                  || (k.workspace == "fleet-local" && "local" in clusters && k.expected == 1)
                  || (k.workspace == "fleet-default" && k.expected == others > 0))
  {
    KeyListMembers(keys, clusters, units, strategy, k);
    RemoteCount(clusters);
    forall u | u in units
      ensures IsKeyOf(clusters, strategy, u, k) <==>
                && strategy != Helm && k.name == u.bundle && k.chart == u.chart && k.release == u.release
                && (|| (k.workspace == "fleet-local" && "local" in clusters && k.expected == 1)
                    || (k.workspace == "fleet-default" && k.expected == |Remote(clusters)| > 0))
    {
      KeysOfAt(u, strategy, LocalCount(clusters), |Remote(clusters)|, k);
    }
  }

  /** With distinct bundle names every key is expected to carry its own unit's render. */
  lemma {:induction false} OwnDigest(
    clusters: seq<string>, units: seq<Unit>, renders: seq<string>, strategy: Strategy,
    i: nat, k: Key)
    requires |renders| == |units| && i < |units| && DistinctBundles(units)
    requires IsKeyOf(clusters, strategy, units[i], k)
    ensures var id, digests := (k.workspace, k.name), ExpectedDigests(clusters, units, renders, strategy);
            id in digests && digests[id] == renders[i]
  {
    var lists := KeyLists(clusters, units, strategy);
    var id := (k.workspace, k.name);
    assert HasId(lists[i], id);
    KeyNames(units[i], strategy, LocalCount(clusters), |Remote(clusters)|, id);
    forall j | i < j < |lists|
      ensures !HasId(lists[j], id)
    {
      if HasId(lists[j], id) {
        KeyNames(units[j], strategy, LocalCount(clusters), |Remote(clusters)|, id);
      }
    }
    LastRecorded(lists, renders, i, id);
  }

  /** The key of a target is among a unit's keys, so its digest is recorded, as the unit's own if names are distinct. */
  lemma {:induction false} TargetDigest(
    clusters: seq<string>, units: seq<Unit>, renders: seq<string>, strategy: Strategy, i: nat, cluster: string)
    requires |renders| == |units| && i < |units| && cluster in clusters && strategy != Helm
    ensures var id, digests := HomeOf(units[i], cluster), ExpectedDigests(clusters, units, renders, strategy);
            id in digests && (DistinctBundles(units) ==> digests[id] == renders[i])
  {
    var k := TargetKey(clusters, units[i], cluster);
    TargetExpected(k, clusters, cluster);
    KeysOfAt(units[i], strategy, LocalCount(clusters), |Remote(clusters)|, k);
    assert HasId(KeyLists(clusters, units, strategy)[i], HomeOf(units[i], cluster));
    SomeRecorded(KeyLists(clusters, units, strategy), renders, i, HomeOf(units[i], cluster));
    if DistinctBundles(units) {
      OwnDigest(clusters, units, renders, strategy, i, k);
    }
  }

  // ---- Certification -----------------------------------------------------------------------------------

  predicate RenderCurrent(b: Option<Bundle>, digest: string) {
    b.Some? && b.value.digestLabel == DigestLabel(digest) && b.value.observed == b.value.generation
  }

  predicate BundleCertified(b: Option<Bundle>, digest: string, expected: int) {
    && expected > 0
    && RenderCurrent(b, digest)
    && b.value.unavailable == 0
    && b.value.desiredReady == expected
    && b.value.ready == b.value.desiredReady
  }

  function BundleOf(world: World, k: Key): Option<Bundle> {
    var id := (k.workspace, k.name);
    if id in world.bundles then Some(world.bundles[id]) else None
  }

  /** Reading a Go map: a key that was never set reads as the empty string. */
  function DigestOf(digests: map<Id, string>, k: Key): string {
    var id := (k.workspace, k.name);
    if id in digests then digests[id] else ""
  }

  type Aggregate = multiset<(Id, string)>

  function Entries(keys: seq<Key>, digests: map<Id, string>): Aggregate {
    if keys == [] then multiset{}
    else
      var k := keys[|keys| - 1];
      Entries(keys[..|keys| - 1], digests) + multiset{((k.workspace, k.name), DigestOf(digests, k))}
  }

  predicate CertifiedKey(world: World, k: Key, digests: map<Id, string>) {
    BundleCertified(BundleOf(world, k), DigestOf(digests, k), k.expected)
  }

  /** Every desired bundle carries the current render and is fully rolled out. */
  predicate AllCertified(world: World, keys: seq<Key>, digests: map<Id, string>) {
    keys != [] && forall k :: k in keys ==> CertifiedKey(world, k, digests)
  }

  /** A bundle in its own fields: made from this render, seen by Fleet, and ready on so many clusters and no fewer. */
  predicate RolledOutOn(world: World, id: Id, digest: string, count: int) {
    && id in world.bundles
    && var b := world.bundles[id];
       && b.digestLabel == DigestLabel(digest) && b.observed == b.generation
       && b.unavailable == 0 && b.ready == count && b.desiredReady == count
  }

  /** Certification of all keys, in the fields of their bundles. */
  lemma {:induction false} CertifiedExactly(world: World, keys: seq<Key>, digests: map<Id, string>)
    ensures AllCertified(world, keys, digests) <==>
              && keys != []
              && forall k :: k in keys ==>
                   k.expected > 0 && RolledOutOn(world, (k.workspace, k.name), DigestOf(digests, k), k.expected)
  {
    forall k | k in keys
      ensures CertifiedKey(world, k, digests) <==>
                k.expected > 0 && RolledOutOn(world, (k.workspace, k.name), DigestOf(digests, k), k.expected)
    {
    }
  }

  /** The digest expected of this key, under its id. */
  predicate IsEntry(k: Key, digests: map<Id, string>, id: Id, digest: string) {
    k.workspace == id.0 && k.name == id.1 && digest == (if id in digests then digests[id] else "")
  }

  /** The aggregate holds the digest of every key and nothing else. */
  lemma {:induction false} EntriesExactly(keys: seq<Key>, digests: map<Id, string>, id: Id, digest: string)
    ensures |Entries(keys, digests)| == |keys|
    ensures (id, digest) in Entries(keys, digests) <==> exists k :: k in keys && IsEntry(k, digests, id, digest)
  {
    if keys != [] {
      var front, last := keys[..|keys| - 1], keys[|keys| - 1];
      EntriesExactly(front, digests, id, digest);
      LastEntry(last, digests, id, digest);
      assert keys == front + [last];
    }
  }

  lemma {:induction false} LastEntry(k: Key, digests: map<Id, string>, id: Id, digest: string)
    ensures ((k.workspace, k.name), DigestOf(digests, k)) == (id, digest) <==> IsEntry(k, digests, id, digest)
  {
  }

  /** The same, going from key to key. */
  predicate EachCertified(world: World, keys: seq<Key>, digests: map<Id, string>) {
    keys == [] || (EachCertified(world, keys[..|keys| - 1], digests) && CertifiedKey(world, keys[|keys| - 1], digests))
  }

  lemma {:induction false} EachIsAll(world: World, keys: seq<Key>, digests: map<Id, string>)
    ensures EachCertified(world, keys, digests) <==> forall k :: k in keys ==> CertifiedKey(world, k, digests)
  {
    if keys != [] {
      var front, last := keys[..|keys| - 1], keys[|keys| - 1];
      EachIsAll(world, front, digests);
      assert keys == front + [last];
      assert forall k :: k in keys <==> k in front || k == last;
    }
  }

  lemma {:induction false} NextKey(world: World, keys: seq<Key>, n: nat, digests: map<Id, string>)
    requires n < |keys|
    ensures var k := keys[n];
            && Entries(keys[..n + 1], digests) ==
                 Entries(keys[..n], digests) + multiset{((k.workspace, k.name), DigestOf(digests, k))}
            && (EachCertified(world, keys[..n + 1], digests) <==>
                  EachCertified(world, keys[..n], digests) && CertifiedKey(world, k, digests))
            && k in keys
  {
    assert keys[..n + 1][..n] == keys[..n];
  }

  /** The aggregate digest to record, or nothing when some bundle is not certified yet. */
  method Certify(world: World, keys: seq<Key>, digests: map<Id, string>) returns (agg: Option<Aggregate>)
    ensures agg == if AllCertified(world, keys, digests) then Some(Entries(keys, digests)) else None
    ensures agg.Some? <==>
              && keys != []
              && forall k :: k in keys ==>
                   k.expected > 0 && RolledOutOn(world, (k.workspace, k.name), DigestOf(digests, k), k.expected)
  {
    CertifiedExactly(world, keys, digests);
    if keys == [] {
      return None;
    }
    var entries: Aggregate := multiset{};
    var n := 0;
    while n < |keys|
      invariant 0 <= n <= |keys|
      invariant EachCertified(world, keys[..n], digests)
      invariant entries == Entries(keys[..n], digests)
    {
      var k := keys[n];
      NextKey(world, keys, n, digests);
      if !CertifiedKey(world, k, digests) {
        return None;
      }
      entries := entries + multiset{((k.workspace, k.name), DigestOf(digests, k))};
      n := n + 1;
    }
    assert keys[..n] == keys;
    EachIsAll(world, keys, digests);
    return Some(entries);
  }

  // ---- The component matrix ---------------------------------------------------------------------------

  function CellPhase(d: Deployment, current: bool): ClusterPhase {
    if !current || d.applied == "" || d.applied != d.desired then Pending
    else if d.state == "Ready" || d.state == "Modified" then Running
    else if d.state == "ErrApplied" then Failed
    else Pending
  }

  predicate AcceptedFalseTerminal(ho: HelmOp, baseline: Option<Baseline>, digest: string, epoch: int) {
    && baseline.Some?
    && baseline.value.uid == ho.uid
    && baseline.value.digest == digest
    && baseline.value.epoch == epoch
    && baseline.value.generation == ho.generation
    && Fingerprint(ho.accepted) != baseline.value.fingerprint
    && ho.accepted.Accepted? && ho.accepted.isFalse
  }

  function BaselineFor(baselines: seq<Baseline>, uid: string): Option<Baseline> {
    if baselines == [] then None
    else if baselines[0].uid == uid then Some(baselines[0])
    else BaselineFor(baselines[1..], uid)
  }

  function ExpectedClusters(k: Key, clusters: seq<string>): seq<string> {
    if k.workspace == FLEET_LOCAL then if LOCAL in clusters then [LOCAL] else []
    else if k.workspace == FLEET_DEFAULT then Remote(clusters)
    else []
  }

  function Truncated(message: string): string { if |message| > 1024 then message[..1024] else message }

  predicate Under(d: Deployment, k: Key) {
    d.workspace == k.workspace && d.bundle == k.name && d.cluster != ""
  }

  function SeenCell(k: Key, d: Deployment, current: bool): Cell {
    var phase := CellPhase(d, current);
    Cell(k.chart, k.release, d.cluster, phase, d.applied, if phase == Failed then Truncated(d.message) else "")
  }

  function MissingPhase(view: View, k: Key): ClusterPhase {
    var id := (k.workspace, k.name);
    if BundleOf(view.world, k).None? && id in view.world.helmOps
       && AcceptedFalseTerminal(view.world.helmOps[id], BaselineFor(view.baselines, view.world.helmOps[id].uid),
                                DigestOf(view.digests, k), view.epoch)
    then Failed else Pending
  }

  /** Everything the matrix is built from in one pass. */
  datatype View = View(
    world: World, clusters: seq<string>, keys: seq<Key>, digests: map<Id, string>,
    baselines: seq<Baseline>, epoch: int)

  predicate Current(view: View, k: Key) { RenderCurrent(BundleOf(view.world, k), DigestOf(view.digests, k)) }

  /** A cell stands for a deployment under a desired bundle, or for an expected cluster without one. */
  ghost predicate Justified(view: View, c: Cell, keys: seq<Key>) {
    exists k :: k in keys
      && ((exists d :: d in view.world.deployments && Under(d, k) && c == SeenCell(k, d, Current(view, k)))
          || (c.cluster in ExpectedClusters(k, view.clusters)
              && (forall d :: d in view.world.deployments && Under(d, k) ==> d.cluster != c.cluster)
              && c == Cell(k.chart, k.release, c.cluster, MissingPhase(view, k), "", "")))
  }

  /** The matrix, as a set of cells: one for every justification and nothing else. */
  ghost predicate IsMatrix(view: View, cells: seq<Cell>, keys: seq<Key>) {
    && (forall c :: c in cells ==> Justified(view, c, keys))
    && (forall k :: k in keys ==> Covered(view, cells, k))
  }

  ghost predicate Covered(view: View, cells: seq<Cell>, k: Key) {
    && (forall d :: d in view.world.deployments && Under(d, k) ==> SeenCell(k, d, Current(view, k)) in cells)
    && (forall id :: id in ExpectedClusters(k, view.clusters) ==>
          || Cell(k.chart, k.release, id, MissingPhase(view, k), "", "") in cells
          || exists d :: d in view.world.deployments && Under(d, k) && d.cluster == id)
  }

  predicate CellLess(a: Cell, b: Cell) {
    if a.component != b.component then Less(a.component, b.component) else Less(a.cluster, b.cluster)
  }

  lemma {:induction false} CellLessWeakOrder()
    ensures Sorting.WeakOrder(CellLess)
  {
    Sorting.FieldsWeakOrder(CellLess, (c: Cell) => c.component, (c: Cell) => c.cluster);
  }

  method SeenCells(view: View, k: Key) returns (cells: seq<Cell>, seen: set<string>)
    ensures forall c :: c in cells <==>
              exists d :: d in view.world.deployments && Under(d, k) && c == SeenCell(k, d, Current(view, k))
    ensures forall id :: id in seen <==>
              exists d :: d in view.world.deployments && Under(d, k) && d.cluster == id
  {
    cells, seen := [], {};
    var current := Current(view, k);
    var ds := view.world.deployments;
    var n := 0;
    while n < |ds|
      invariant 0 <= n <= |ds|
      invariant forall c :: c in cells <==> exists d :: d in ds[..n] && Under(d, k) && c == SeenCell(k, d, current)
      invariant forall id :: id in seen <==> exists d :: d in ds[..n] && Under(d, k) && d.cluster == id
    {
      var d := ds[n];
      assert ds[..n + 1] == ds[..n] + [d];
      if Under(d, k) {
        seen := seen + {d.cluster};
        cells := cells + [SeenCell(k, d, current)];
      }
      n := n + 1;
    }
    assert ds[..n] == ds;
  }

  method MissingCells(view: View, k: Key, seen: set<string>) returns (cells: seq<Cell>)
    ensures forall c :: c in cells <==>
              && c.cluster in ExpectedClusters(k, view.clusters) && c.cluster !in seen
              && c == Cell(k.chart, k.release, c.cluster, MissingPhase(view, k), "", "")
  {
    cells := [];
    var expected := ExpectedClusters(k, view.clusters);
    var n := 0;
    while n < |expected|
      invariant 0 <= n <= |expected|
      invariant forall c :: c in cells <==>
                  && c.cluster in expected[..n] && c.cluster !in seen
                  && c == Cell(k.chart, k.release, c.cluster, MissingPhase(view, k), "", "")
    {
      assert expected[..n + 1] == expected[..n] + [expected[n]];
      if expected[n] !in seen {
        cells := cells + [Cell(k.chart, k.release, expected[n], MissingPhase(view, k), "", "")];
      }
      n := n + 1;
    }
    assert expected[..n] == expected;
  }

  method BuildComponentMatrix(view: View) returns (cells: seq<Cell>)
    ensures IsMatrix(view, cells, view.keys)
    ensures Sorting.Sorted(cells, CellLess)
  {
    cells := [];
    var n := 0;
    while n < |view.keys|
      invariant 0 <= n <= |view.keys|
      invariant IsMatrix(view, cells, view.keys[..n])
    {
      var k := view.keys[n];
      var seenCells, seen := SeenCells(view, k);
      var missing := MissingCells(view, k, seen);
      MatrixStep(view, cells, view.keys[..n], k, seenCells, seen, missing);
      assert view.keys[..n + 1] == view.keys[..n] + [k];
      cells := cells + seenCells + missing;
      n := n + 1;
    }
    assert view.keys[..n] == view.keys;
    Sorting.SortMembers(cells, CellLess);
    MatrixByMembers(view, cells, Sorting.Sort(cells, CellLess), view.keys);
    CellLessWeakOrder();
    Sorting.SortSorts(cells, CellLess);
    cells := Sorting.Sort(cells, CellLess);
  }

  lemma {:induction false} MatrixByMembers(view: View, a: seq<Cell>, b: seq<Cell>, keys: seq<Key>)
    requires IsMatrix(view, a, keys) && forall c :: c in b <==> c in a
    ensures IsMatrix(view, b, keys)
  {
  }

  lemma {:induction false} MatrixStep(view: View, cells: seq<Cell>, keys: seq<Key>, k: Key,
                                      seenCells: seq<Cell>, seen: set<string>, missing: seq<Cell>)
    requires IsMatrix(view, cells, keys)
    requires forall c :: c in seenCells <==>
               exists d :: d in view.world.deployments && Under(d, k) && c == SeenCell(k, d, Current(view, k))
    requires forall id :: id in seen <==>
               exists d :: d in view.world.deployments && Under(d, k) && d.cluster == id
    requires forall c :: c in missing <==>
               && c.cluster in ExpectedClusters(k, view.clusters) && c.cluster !in seen
               && c == Cell(k.chart, k.release, c.cluster, MissingPhase(view, k), "", "")
    ensures IsMatrix(view, cells + seenCells + missing, keys + [k])
  {
  }

  // ---- Phases -------------------------------------------------------------------------------------------

  predicate AllIn(cells: seq<Cell>, phase: ClusterPhase) { forall c :: c in cells ==> c.phase == phase }

  /** The top-level phase, stated over the cells rather than over counters. */
  function PhaseOf(cells: seq<Cell>): Phase {
    if cells == [] then PhasePending
    else if AllIn(cells, Running) then PhaseRunning
    else if AllIn(cells, Pending) then PhasePending
    else if AllIn(cells, Failed) then PhaseFailed
    else PhaseDegraded
  }

  predicate EachIn(cells: seq<Cell>, phase: ClusterPhase) { forall i :: 0 <= i < |cells| ==> cells[i].phase == phase }

  /** One phase for all cells shows as that phase, no cell at all as pending, and two different ones as degraded. */
  lemma {:induction false} PhaseExactly(cells: seq<Cell>)
    ensures PhaseOf(cells) == PhaseRunning <==> cells != [] && EachIn(cells, Running)
    ensures PhaseOf(cells) == PhasePending <==> EachIn(cells, Pending)
    ensures PhaseOf(cells) == PhaseFailed <==> cells != [] && EachIn(cells, Failed)
    ensures PhaseOf(cells) == PhaseDegraded <==>
              exists i, j :: 0 <= i < j < |cells| && cells[i].phase != cells[j].phase
  {
    forall phase
      ensures AllIn(cells, phase) <==> EachIn(cells, phase)
    {
      if EachIn(cells, phase) {
        forall c | c in cells
          ensures c.phase == phase
        {
          var i :| 0 <= i < |cells| && cells[i] == c;
        }
      }
      assert forall i :: 0 <= i < |cells| ==> cells[i] in cells;
    }
    if cells != [] && (forall i, j :: 0 <= i < j < |cells| ==> cells[i].phase == cells[j].phase) {
      assert EachIn(cells, cells[0].phase);
    }
  }

  method PhaseFromCells(cells: seq<Cell>) returns (phase: Phase)
    ensures phase == PhaseOf(cells)
  {
    if cells == [] {
      return PhasePending;
    }
    var running, pending, failed := 0, 0, 0;
    var n := 0;
    while n < |cells|
      invariant 0 <= n <= |cells|
      invariant running >= 0 && pending >= 0 && failed >= 0 && running + pending + failed == n
      invariant running == 0 <==> forall c :: c in cells[..n] ==> c.phase != Running
      invariant pending == 0 <==> forall c :: c in cells[..n] ==> c.phase != Pending
      invariant failed == 0 <==> forall c :: c in cells[..n] ==> c.phase != Failed
    {
      assert cells[..n + 1] == cells[..n] + [cells[n]];
      match cells[n].phase {
        case Running => running := running + 1;
        case Failed => failed := failed + 1;
        case Pending => pending := pending + 1;
      }
      n := n + 1;
    }
    assert cells[..n] == cells;
    assert cells[0] in cells;
    if failed == 0 && pending == 0 {
      phase := PhaseRunning;
    } else if failed == 0 && running == 0 {
      phase := PhasePending;
    } else if running == 0 && pending == 0 {
      phase := PhaseFailed;
    } else {
      phase := PhaseDegraded;
    }
  }

  const INITIAL_DEPLOY_GRACE_PERIOD := 300

  /** age is the time since the workload was created, in seconds. */
  function GuardPhase(derived: Phase, current: Phase, age: int): (r: Phase)
    ensures r == PhaseRunning <==> derived == PhaseRunning
  {
    if derived == PhaseFailed && (current == PhasePending || current == PhaseUnknown)
       && age < INITIAL_DEPLOY_GRACE_PERIOD
    then PhasePending else derived
  }

  /** Only a failure is ever held back, only within five minutes, and only while nothing but Pending has been shown. */
  lemma {:induction false} HeldBackIff(derived: Phase, current: Phase, age: int)
    ensures GuardPhase(derived, current, age) != derived <==>
              derived == PhaseFailed && current in {PhasePending, PhaseUnknown} && age < 300
    ensures GuardPhase(derived, current, age) in {derived, PhasePending}
  {
  }

  /** What passes at these ages show, each deriving a failure, over a workload that has shown nothing yet. */
  function ShownFailure(ages: seq<int>): Phase {
    if ages == [] then PhaseUnknown
    else GuardPhase(PhaseFailed, ShownFailure(ages[..|ages| - 1]), ages[|ages| - 1])
  }

  /** A failure from the start is held back for the grace period and then shown for good. */
  lemma {:induction false} GraceIsBounded(ages: seq<int>)
    requires ages != [] && forall i, j :: 0 <= i < j < |ages| ==> ages[i] <= ages[j]
    ensures ShownFailure(ages) ==
            if ages[|ages| - 1] < INITIAL_DEPLOY_GRACE_PERIOD then PhasePending else PhaseFailed
  {
    if |ages| > 1 {
      GraceIsBounded(ages[..|ages| - 1]);
    } else {
      assert ages[..0] == [] && ShownFailure([]) == PhaseUnknown;
    }
  }

  /** The bundle in this workspace carries the render, and Fleet has seen it as it is. */
  predicate CurrentOn(world: World, id: Id, digest: string) {
    && id in world.bundles
    && world.bundles[id].digestLabel == DigestLabel(digest) && world.bundles[id].observed == world.bundles[id].generation
  }

  /** A deployment that is up, in the workspace and under the bundle its component renders to. */
  predicate Serving(world: World, k: Key, digest: string, cluster: string) {
    && CurrentOn(world, (k.workspace, k.name), digest)
    && exists d :: d in world.deployments && d.workspace == k.workspace && d.bundle == k.name && d.cluster == cluster
         && d.applied == d.desired && d.applied != "" && (d.state == "Ready" || d.state == "Modified")
  }

  /** What a deployment of a desired bundle shows: failed and running exactly as its own fields and its bundle's say. */
  lemma {:induction false} DeploymentShows(view: View, cells: seq<Cell>, k: Key, d: Deployment)
    requires IsMatrix(view, cells, view.keys) && k in view.keys && d in view.world.deployments
    requires d.workspace == k.workspace && d.bundle == k.name && d.cluster != ""
    ensures exists c :: c in cells
              && c.component == k.chart && c.release == k.release && c.cluster == d.cluster && c.revision == d.applied
              && (var up := CurrentOn(view.world, (k.workspace, k.name), DigestOf(view.digests, k))
                            && d.applied == d.desired != "";
                  && (c.phase == Failed <==> up && d.state == "ErrApplied")
                  && (c.phase == Running <==> up && d.state in {"Ready", "Modified"}))
              && c.message == (if c.phase == Failed then if |d.message| > 1024 then d.message[..1024] else d.message else "")
  {
    assert Covered(view, cells, k);
    assert Under(d, k);
  }

  /** A deployment of this key that is applied as desired, under a current bundle, in this state. */
  predicate Applied(view: View, k: Key, cluster: string, state: string) {
    && CurrentOn(view.world, (k.workspace, k.name), DigestOf(view.digests, k))
    && exists d :: d in view.world.deployments && d.workspace == k.workspace && d.bundle == k.name
         && d.cluster == cluster && d.applied == d.desired != "" && d.state == state
  }

  /** A HelmOp without a bundle that was rejected since the baseline of this attempt was taken. */
  predicate RejectedSince(view: View, k: Key) {
    var id := (k.workspace, k.name);
    && id !in view.world.bundles && id in view.world.helmOps
    && var ho := view.world.helmOps[id];
       && ho.accepted.Accepted? && ho.accepted.isFalse
       && exists b :: b in view.baselines && b.uid == ho.uid && b.generation == ho.generation
            && b.digest == DigestOf(view.digests, k) && b.epoch == view.epoch && b.fingerprint != ho.accepted.fingerprint
  }

  lemma {:induction false} KnownBaseline(baselines: seq<Baseline>, uid: string)
    ensures BaselineFor(baselines, uid).Some? ==> BaselineFor(baselines, uid).value in baselines
  {
    if baselines != [] {
      KnownBaseline(baselines[1..], uid);
    }
  }

  predicate OfDeployment(view: View, k: Key, d: Deployment, c: Cell) {
    d in view.world.deployments && Under(d, k) && c == SeenCell(k, d, Current(view, k))
  }

  predicate Unserved(view: View, k: Key, cluster: string) {
    forall d :: d in view.world.deployments && Under(d, k) ==> d.cluster != cluster
  }

  lemma {:induction false} Justification(view: View, cells: seq<Cell>, c: Cell) returns (k: Key)
    requires IsMatrix(view, cells, view.keys) && c in cells
    ensures k in view.keys
    ensures || (exists d :: OfDeployment(view, k, d, c))
            || (c.cluster in ExpectedClusters(k, view.clusters) && Unserved(view, k, c.cluster)
                && c.component == k.chart && c.release == k.release
                && c.phase == MissingPhase(view, k) && c.revision == "")
  {
    assert Justified(view, c, view.keys);
    k :| k in view.keys
      && ((exists d :: d in view.world.deployments && Under(d, k) && c == SeenCell(k, d, Current(view, k)))
          || (c.cluster in ExpectedClusters(k, view.clusters)
              && (forall d :: d in view.world.deployments && Under(d, k) ==> d.cluster != c.cluster)
              && c == Cell(k.chart, k.release, c.cluster, MissingPhase(view, k), "", "")));
    if d :| d in view.world.deployments && Under(d, k) && c == SeenCell(k, d, Current(view, k)) {
      assert OfDeployment(view, k, d, c);
    }
  }

  lemma {:induction false} DeployedCellMeans(view: View, k: Key, d: Deployment, c: Cell)
    requires OfDeployment(view, k, d, c)
    ensures c.component == k.chart && c.release == k.release && c.cluster != ""
    ensures c.phase == Running ==> Applied(view, k, c.cluster, "Ready") || Applied(view, k, c.cluster, "Modified")
    ensures c.phase == Failed ==> Applied(view, k, c.cluster, "ErrApplied")
  {
  }

  lemma {:induction false} MissingMeans(view: View, k: Key)
    ensures MissingPhase(view, k) != Running && (MissingPhase(view, k) == Failed ==> RejectedSince(view, k))
  {
    if (k.workspace, k.name) in view.world.helmOps {
      KnownBaseline(view.baselines, view.world.helmOps[(k.workspace, k.name)].uid);
    }
  }

  /**
    Deployments that name no cluster show nowhere. Behind every cell that runs there is a
    deployment that is up, and behind every failure one that failed, or a rejection.
  */
  lemma {:induction false} CellMeans(view: View, cells: seq<Cell>, c: Cell)
    requires IsMatrix(view, cells, view.keys) && c in cells
    ensures c.cluster != "" || c.cluster in view.clusters
    ensures exists k :: k in view.keys && c.component == k.chart && c.release == k.release
              && (c.phase == Running ==>
                    Applied(view, k, c.cluster, "Ready") || Applied(view, k, c.cluster, "Modified"))
              && (c.phase == Failed ==> Applied(view, k, c.cluster, "ErrApplied") || RejectedSince(view, k))
  {
    var k := Justification(view, cells, c);
    MissingMeans(view, k);
    ExpectedExactly(k, view.clusters, c.cluster);
    if d :| OfDeployment(view, k, d, c) {
      DeployedCellMeans(view, k, d, c);
    }
  }

  /** A key answers for the targets of its workspace and no others. */
  lemma {:induction false} ExpectedExactly(k: Key, clusters: seq<string>, cluster: string)
    ensures cluster in ExpectedClusters(k, clusters) <==>
              cluster in clusters && k.workspace == (if cluster == "local" then "fleet-local" else "fleet-default")
  {
    RemoteMembers(clusters);
  }

  /** A target without a deployment always shows as a cell that is not Running. */
  lemma {:induction false} MissingTargetShows(view: View, cells: seq<Cell>, k: Key, id: string)
    requires IsMatrix(view, cells, view.keys) && k in view.keys && id in ExpectedClusters(k, view.clusters)
    requires forall d :: d in view.world.deployments && Under(d, k) ==> d.cluster != id
    ensures exists c :: c in cells && c.component == k.chart && c.cluster == id && c.phase != Running
  {
  }

  lemma {:induction false} RunningKeyServes(view: View, cells: seq<Cell>, k: Key, cluster: string)
    requires IsMatrix(view, cells, view.keys) && AllIn(cells, Running)
    requires k in view.keys && cluster in ExpectedClusters(k, view.clusters)
    ensures Serving(view.world, k, DigestOf(view.digests, k), cluster)
  {
  }

  /** A target cluster is among those that the key for it expects, and there is such a key. */
  lemma {:induction false} TargetExpected(k: Key, clusters: seq<string>, cluster: string)
    requires cluster in clusters && k.workspace == (if cluster == LOCAL then FLEET_LOCAL else FLEET_DEFAULT)
    ensures cluster in ExpectedClusters(k, clusters)
    ensures if cluster == LOCAL then LocalCount(clusters) == 1 else |Remote(clusters)| > 0
  {
    RemoteMembers(clusters);
    assert cluster != LOCAL ==> cluster in Remote(clusters);
  }

  lemma {:induction false} TargetHasKey(
    keys: seq<Key>, clusters: seq<string>, units: seq<Unit>, strategy: Strategy, u: Unit, cluster: string)
    requires IsKeyList(keys, clusters, units, strategy) && strategy != Helm
    requires u in units && cluster in clusters
    ensures var k := TargetKey(clusters, u, cluster);
            k in keys && cluster in ExpectedClusters(k, clusters)
  {
    var k := TargetKey(clusters, u, cluster);
    TargetExpected(k, clusters, cluster);
    KeysOfAt(u, strategy, LocalCount(clusters), |Remote(clusters)|, k);
    KeyListMembers(keys, clusters, units, strategy, k);
    assert IsKeyOf(clusters, strategy, u, k);
  }

  lemma {:induction false} HelmHasNoKeys(
    keys: seq<Key>, clusters: seq<string>, units: seq<Unit>)
    requires IsKeyList(keys, clusters, units, Helm)
    ensures keys == []
  {
    if keys != [] {
      KeyListMembers(keys, clusters, units, Helm, keys[0]);
    }
  }

  /** Certified as a whole, a workload is certified for every unit on every target cluster. */
  lemma {:induction false} AllTargetsCertified(
    world: World, keys: seq<Key>, digests: map<Id, string>,
    clusters: seq<string>, units: seq<Unit>, strategy: Strategy, u: Unit, cluster: string)
    requires IsKeyList(keys, clusters, units, strategy) && AllCertified(world, keys, digests)
    requires u in units && cluster in clusters
    ensures RolledOutOn(world, HomeOf(u, cluster), DigestAt(digests, HomeOf(u, cluster)), Answerable(clusters, cluster))
    ensures strategy != Helm
  {
    if strategy == Helm {
      HelmHasNoKeys(keys, clusters, units);
    } else {
      TargetHasKey(keys, clusters, units, strategy, u, cluster);
      CertifiedExactly(world, keys, digests);
      RemoteCount(clusters);
    }
  }

  /** The bundle that serves a unit on a cluster, and on how many clusters that bundle is to be ready. */
  function HomeOf(u: Unit, cluster: string): Id {
    (if cluster == "local" then "fleet-local" else "fleet-default", u.bundle)
  }

  function Answerable(clusters: seq<string>, cluster: string): int {
    if cluster == "local" then 1 else |clusters| - multiset(clusters)["local"]
  }

  function DigestAt(digests: map<Id, string>, id: Id): string { if id in digests then digests[id] else "" }

  /** Running is sound: every unit serves on every target cluster, from the current render. */
  lemma {:induction false} RunningIsSound(
    view: View, cells: seq<Cell>, units: seq<Unit>, strategy: Strategy, u: Unit, cluster: string)
    requires IsKeyList(view.keys, view.clusters, units, strategy)
    requires IsMatrix(view, cells, view.keys) && PhaseOf(cells) == PhaseRunning
    requires u in units && cluster in view.clusters
    ensures var k := TargetKey(view.clusters, u, cluster);
            k in view.keys && Serving(view.world, k, DigestOf(view.digests, k), cluster)
  {
    assert cells[0] in cells && Justified(view, cells[0], view.keys);
    if strategy == Helm {
      HelmHasNoKeys(view.keys, view.clusters, units);
    } else {
      TargetHasKey(view.keys, view.clusters, units, strategy, u, cluster);
      RunningKeyServes(view, cells, TargetKey(view.clusters, u, cluster), cluster);
    }
  }

  // ---- No stale failure -----------------------------------------------------------------------------------

  /** Every desired bundle is still the one of an earlier render. */
  predicate StaleLabels(view: View) {
    forall k :: k in view.keys ==>
      BundleOf(view.world, k).Some? && BundleOf(view.world, k).value.digestLabel != DigestLabel(DigestOf(view.digests, k))
  }

  /** While the old bundles stand, nothing they report can make a cell Failed or Running. */
  lemma {:induction false} StaleCellsPend(view: View, cells: seq<Cell>)
    requires IsMatrix(view, cells, view.keys) && StaleLabels(view)
    ensures AllIn(cells, Pending)
  {
  }
}

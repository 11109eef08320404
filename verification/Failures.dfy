/**
  Which failures a pass may act on. A version change does not fail on what the bundles of the render
  before it report; a pass that stops early and a retry do act on old failures.
*/
module Failures {
  import opened Strings
  import opened Journal
  import opened Fleet
  import opened Protocol
  import opened Passes
  import opened Outcomes
  import Baselines

  /** The operation failed on a failed cell, not by its deadline or by drift. */
  predicate FailedOnCells(op: Operation) {
    op.state == OpFailed && op.reason != "TimedOut" && !(op.typ == Rollback && op.reason == "BlueprintDrift")
  }

  // ---- Target lists that differ in their order -----------------------------------------------------

  /** Keys and expected digests depend on which clusters are targets and not on their order. */
  lemma {:induction false} OrderOfTargets(a: seq<string>, b: seq<string>, units: seq<Unit>, strategy: Strategy)
    requires multiset(a) == multiset(b)
    ensures KeyLists(a, units, strategy) == KeyLists(b, units, strategy)
  {
    RemoteCount(a);
    RemoteCount(b);
    assert |a| == |multiset(a)| && |b| == |multiset(b)|;
    assert LOCAL in a <==> LOCAL in multiset(a);
    assert LOCAL in b <==> LOCAL in multiset(b);
  }

  // ---- A version change and the bundles of the render before it --------------------------------------

  /** What the version an operation moves to renders: its enabled components and their digests. */
  datatype Rendering = Rendering(components: seq<Component>, renders: seq<string>)

  /** The bundle labels as they stood when the operation started. */
  type BundleLabels = map<Id, string>

  /** Every component's bundle exists and its label is not the one the new render calls for. */
  ghost predicate LabelsChange(meta: Meta, spec: Spec, target: Rendering, labels: BundleLabels) {
    && |target.renders| == |target.components|
    && var units := Units(meta.name, target.components);
       ChangesLabels(Concat(KeyLists(spec.clusters, units, spec.strategy)),
                     ExpectedDigests(spec.clusters, units, target.renders, spec.strategy), labels)
  }

  predicate ChangesLabels(keys: seq<Key>, digests: map<Id, string>, labels: BundleLabels) {
    forall k :: k in keys ==>
      (k.workspace, k.name) in labels && labels[(k.workspace, k.name)] != DigestLabel(DigestOf(digests, k))
  }

  /** Fleet has rewritten no bundle's label since. */
  predicate Unrelabelled(world: World, labels: BundleLabels) {
    forall id :: id in labels ==> id in world.bundles && world.bundles[id].digestLabel == labels[id]
  }

  lemma {:induction false} OldLabelsAreStale(
    keys: seq<Key>, all: seq<Key>, digests: map<Id, string>, view: View, labels: BundleLabels)
    requires multiset(keys) == multiset(all) && ChangesLabels(all, digests, labels)
    requires view.keys == keys && view.digests == digests && Unrelabelled(view.world, labels)
    ensures StaleLabels(view)
  {
    forall k | k in view.keys
      ensures k in all
    {
      assert k in multiset(keys);
    }
  }

  lemma {:induction false} OldBundlesAreStale(
    start: Stored, meta: Meta, spec: Spec, p: Pass, target: Rendering, labels: BundleLabels)
    requires LabelsChange(start.meta, start.spec, target, labels) && PassOk(meta, spec, p)
    requires meta.name == start.meta.name && IntentOf(spec) == IntentOf(start.spec)
    requires p.components == target.components && p.renders == target.renders && Unrelabelled(p.view.world, labels)
    ensures StaleLabels(p.view)
  {
    var units := Units(meta.name, p.components);
    OrderOfTargets(spec.clusters, start.spec.clusters, units, spec.strategy);
    OldLabelsAreStale(p.view.keys, Concat(KeyLists(spec.clusters, units, spec.strategy)), p.view.digests, p.view, labels);
  }

  /**
    A report over the stored object while its intent is the operation's: the pass renders the target,
    and Fleet has not relabelled anything yet. Reports for another intent are not constrained.
  */
  predicate SeesOldBundles(s: Sys, e: Event, intent: Intent, target: Rendering, labels: BundleLabels) {
    Reports(s, e) && IntentOf(s.d.spec) == intent ==>
      match e.report
      case Deferred(_, _, _, _) => true
      case Completed(p) =>
        p.components == target.components && p.renders == target.renders && Unrelabelled(p.view.world, labels)
      case _ => false
  }

  ghost predicate OldBundlesRun(s: Sys, events: seq<Event>, intent: Intent, target: Rendering, labels: BundleLabels)
    decreases |events|
  {
    || events == []
    || (SeesOldBundles(s, events[0], intent, target, labels)
        && OldBundlesRun(Apply(s, events[0]), events[1..], intent, target, labels))
  }

  /** No operation of this intent has failed on cells, and a pass about to judge one carries no failed cell. */
  predicate NoStaleFailure(s: Sys, intent: Intent) {
    && (s.d.meta.journal.Some? && s.d.meta.journal.value.intent == intent ==> !FailedOnCells(s.d.meta.journal.value))
    && (Fresh(s) && (s.pc == AtPersist(false) || s.pc == AtDecision) && IntentOf(s.w.spec) == intent ==>
          !AnyFailed(s.w.status))
  }

  lemma {:induction false} TriggerName(meta: Meta, spec: Spec, status: Status, now: int)
    ensures var t := HandleTriggers(meta, spec, status, now); t.Commit? ==> t.meta.name == meta.name
  {
  }

  lemma {:induction false} NameKept(s: Sys, e: Event)
    requires Inv(s)
    ensures Apply(s, e).d.meta.name == s.d.meta.name
  {
    match e {
      case RunTriggers(now) =>
        if s.pc == AtTriggers {
          TriggerName(s.w.meta, s.w.spec, s.w.status, now);
        }
      case Evaluate(settled, now) =>
        if s.pc == AtDecision {
          EvaluateName(s, settled, now);
        }
      case _ =>
    }
  }

  lemma {:induction false} EvaluateName(s: Sys, settled: bool, now: int)
    requires Inv(s) && s.pc == AtDecision
    ensures DecisionStep(s, settled, now).d.meta.name == s.d.meta.name
  {
  }

  lemma {:induction false} StaleReport(
    s: Sys, e: Event, start: Stored, target: Rendering, labels: BundleLabels)
    requires Inv(s) && NoStaleFailure(s, IntentOf(start.spec)) && e.ObserveFleet? && Honest(s, e)
    requires LabelsChange(start.meta, start.spec, target, labels) && s.d.meta.name == start.meta.name
    requires SeesOldBundles(s, e, IntentOf(start.spec), target, labels)
    ensures NoStaleFailure(Apply(s, e), IntentOf(start.spec))
  {
    if Reports(s, e) && IntentOf(s.d.spec) == IntentOf(start.spec) && e.report.Completed? {
      StalePass(start, s.d.meta, s.d.spec, s.w.status, e.report.pass, target, labels);
    }
    ReportNoStaleFailure(s, e.report, IntentOf(start.spec));
  }

  /** A completed pass over old bundles shows no failed cell. */
  lemma {:induction false} StalePass(
    start: Stored, meta: Meta, spec: Spec, status: Status, p: Pass, target: Rendering, labels: BundleLabels)
    requires LabelsChange(start.meta, start.spec, target, labels) && PassOk(meta, spec, p)
    requires meta.name == start.meta.name && IntentOf(spec) == IntentOf(start.spec)
    requires p.components == target.components && p.renders == target.renders && Unrelabelled(p.view.world, labels)
    ensures !AnyFailed(Observe(spec, status, Completed(p)))
  {
    OldBundlesAreStale(start, meta, spec, p, target, labels);
    StaleCellsPend(p.view, p.cells);
    CompletedCells(spec, status, p);
  }

  lemma {:induction false} ReportNoStaleFailure(s: Sys, report: Report, intent: Intent)
    requires Inv(s) && NoStaleFailure(s, intent)
    requires s.pc == AtStatus && Fresh(s) && IntentOf(s.d.spec) == intent && !report.Deferred? ==>
               !AnyFailed(Observe(s.d.spec, s.w.status, report))
    ensures NoStaleFailure(Apply(s, ObserveFleet(report)), intent)
  {
    if s.pc == AtStatus {
      ReportStep(s, report);
    }
  }

  lemma {:induction false} CompletedCells(spec: Spec, status: Status, p: Pass)
    ensures Observe(spec, status, Completed(p)).cells == p.cells
  {
  }

  lemma {:induction false} JudgedClean(spec: Spec, status: Status, op: Operation, settled: bool, now: int)
    requires !FailedOnCells(op) && (IntentOf(spec) == op.intent ==> !AnyFailed(status))
    ensures !FailedOnCells(Decide(spec, status, op, settled, now))
  {
  }

  lemma {:induction false} TriggerNoStaleFailure(s: Sys, now: int, intent: Intent)
    requires Inv(s) && NoStaleFailure(s, intent)
    ensures NoStaleFailure(Apply(s, RunTriggers(now)), intent)
  {
    TriggerJournals(s.w.meta, s.w.spec, s.w.status, now);
  }

  lemma {:induction false} EvaluateEffect(s: Sys, settled: bool, now: int)
    requires Inv(s) && s.pc == AtDecision
    ensures var t := Apply(s, Evaluate(settled, now));
            && (t.pc == Idle || t.pc.AtProjection?)
            && (|| t.d.meta.journal == s.d.meta.journal
                || (&& Fresh(s) && s.d.meta.journal.Some?
                    && t.d.meta.journal == Some(Decide(s.w.spec, s.w.status, s.d.meta.journal.value, settled, now))))
  {
  }

  lemma {:induction false} EvaluateNoStaleFailure(s: Sys, settled: bool, now: int, intent: Intent)
    requires Inv(s) && NoStaleFailure(s, intent)
    ensures NoStaleFailure(Apply(s, Evaluate(settled, now)), intent)
  {
    if s.pc == AtDecision {
      EvaluateEffect(s, settled, now);
      if Fresh(s) && s.d.meta.journal.Some? {
        KeptIntent(s.w.spec, s.w.status, s.d.meta.journal.value, settled, now);
        if s.d.meta.journal.value.intent == intent {
          JudgedClean(s.w.spec, s.w.status, s.d.meta.journal.value, settled, now);
        }
      }
    }
  }

  lemma {:induction false} KeptIntent(spec: Spec, status: Status, op: Operation, settled: bool, now: int)
    ensures Decide(spec, status, op, settled, now).intent == op.intent
  {
  }

  lemma {:induction false} StepNoStaleFailure(s: Sys, e: Event, intent: Intent)
    requires Inv(s) && NoStaleFailure(s, intent) && !e.ObserveFleet?
    ensures NoStaleFailure(Apply(s, e), intent)
  {
    match e {
      case RunTriggers(now) => TriggerNoStaleFailure(s, now, intent);
      case Evaluate(settled, now) => EvaluateNoStaleFailure(s, settled, now, intent);
      case _ => OtherNoStaleFailure(s, e, intent);
    }
  }

  lemma {:induction false} OtherNoStaleFailure(s: Sys, e: Event, intent: Intent)
    requires Inv(s) && NoStaleFailure(s, intent) && !e.ObserveFleet? && !e.RunTriggers? && !e.Evaluate?
    ensures NoStaleFailure(Apply(s, e), intent)
  {
  }

  lemma {:induction false} StaleRun(s: Sys, events: seq<Event>, start: Stored, target: Rendering, labels: BundleLabels)
    requires Inv(s) && NoStaleFailure(s, IntentOf(start.spec)) && s.d.meta.name == start.meta.name
    requires LabelsChange(start.meta, start.spec, target, labels)
    requires HonestRun(s, events) && OldBundlesRun(s, events, IntentOf(start.spec), target, labels)
    ensures NoStaleFailure(Run(s, events), IntentOf(start.spec))
    decreases |events|
  {
    if events != [] {
      var e := events[0];
      StepInv(s, e);
      NameKept(s, e);
      if e.ObserveFleet? {
        StaleReport(s, e, start, target, labels);
      } else {
        StepNoStaleFailure(s, e, IntentOf(start.spec));
      }
      StaleRun(Apply(s, e), events[1..], start, target, labels);
    }
  }

  lemma {:induction false} StartIsClean(s: Sys, now: int, op: Operation)
    requires Starts(s, now, op)
    ensures var start := Apply(s, RunTriggers(now));
            Inv(start) && NoStaleFailure(start, op.intent) && op.intent == IntentOf(start.d.spec)
  {
    StepInv(s, RunTriggers(now));
    TriggerJournals(s.d.meta, s.d.spec, s.d.status, now);
    StartKeepsIntent(s, now, op);
  }

  /**
    From a version change in which every component's label changes and the old bundles exist: in no run
    in which Fleet has not rewritten a label does an operation with that intent fail on cells. It can
    fail by its deadline, or a rollback by drift.
  */
  lemma {:induction false} NoFailureFromOldBundles(
    s: Sys, now: int, op: Operation, target: Rendering, labels: BundleLabels, events: seq<Event>)
    requires Starts(s, now, op)
    requires var start := Apply(s, RunTriggers(now));
             && LabelsChange(start.d.meta, start.d.spec, target, labels)
             && HonestRun(start, events) && OldBundlesRun(start, events, op.intent, target, labels)
    ensures var journal := Run(Apply(s, RunTriggers(now)), events).d.meta.journal;
            journal.Some? && journal.value.intent == op.intent ==> !FailedOnCells(journal.value)
  {
    var start := Apply(s, RunTriggers(now));
    StartIsClean(s, now, op);
    StaleRun(start, events, start.d, target, labels);
  }

  // ---- Operations that a client starts in a quiet workload --------------------------------------------

  /** A request, and the pass that acts on it. */
  ghost function Started(s: Sys, kind: OpType, value: string, now: int): Sys {
    var r := Apply(s, ApiRequest(kind, value));
    Apply(Apply(r, Read(r.d)), RunTriggers(now))
  }

  lemma {:induction false} StartedState(s: Sys, kind: OpType, value: string, now: int)
    requires s.pc == Idle && value != ""
    requires HandleTriggers(WithRequest(s.d.meta, kind, value), s.d.spec, s.d.status, now).Commit?
    ensures var t := HandleTriggers(WithRequest(s.d.meta, kind, value), s.d.spec, s.d.status, now);
            var u := Started(s, kind, value, now);
            u.pc == Idle && u.d.meta == t.meta && u.d.spec == t.spec && u.d.status == s.d.status
  {
    var r := Apply(s, ApiRequest(kind, value));
    assert Apply(r, Read(r.d)) == r.(w := r.d, pc := AtTriggers);
  }

  lemma {:induction false} RetryTrigger(meta: Meta, spec: Spec, status: Status, value: string, now: int)
    requires NoRequests(meta) && value != "" && !IsHandled(meta.handled, HandledId(Retry, value))
    ensures var t := HandleTriggers(WithRequest(meta, Retry, value), spec, status, now);
            && t.Commit? && t.spec == spec && NoRequests(t.meta) && t.meta.name == meta.name
            && t.meta.epoch == meta.epoch + 1
            && t.meta.journal == Some(Operation(Retry, value, "", None, meta.epoch + 1, now, IntentOf(spec), InProgress, ""))
  {
  }

  lemma {:induction false} UpgradeTrigger(meta: Meta, spec: Spec, status: Status, value: string, now: int)
    requires NoRequests(meta) && value != "" && !IsHandled(meta.handled, HandledId(Upgrade, Nonce(value)))
    requires Target(value) != Version(spec)
    ensures var t := HandleTriggers(WithRequest(meta, Upgrade, value), spec, status, now);
            && t.Commit? && NoRequests(t.meta)
            && t.meta.journal ==
                 Some(Operation(Upgrade, Nonce(value), Target(value), None, 0, now, IntentOf(t.spec), InProgress, ""))
  {
  }

  lemma {:induction false} NothingPending(meta: Meta, spec: Spec, status: Status, now: int)
    requires NoRequests(meta)
    ensures HandleTriggers(meta, spec, status, now) == Ignored
  {
  }

  // ---- A pass that stops early ---------------------------------------------------------------------------

  lemma {:induction false} OldCellsFail(
    s: Sys, op: Operation, age: int, baselines: seq<Baseline>, settled: bool, now: int)
    requires Quiet(s, now) && s.d.meta.journal == Some(op) && op.state == InProgress
    requires op.typ == Upgrade && op.intent == IntentOf(s.d.spec) && !DeployedAt(s.d.status, op.target)
    requires AnyFailed(s.d.status)
    ensures Evaluated(s, Stopped(age, baselines), settled, now).d.meta.journal == Some(op.(state := OpFailed))
  {
    QuietEvaluation(s, Stopped(age, baselines), settled, now);
    assert NextStatus(s.d, Stopped(age, baselines)).cells == s.d.status.cells;
  }

  /** A pass that stored its matrix, and was over. */
  ghost function MatrixStored(s: Sys, p: Pass, now: int): Sys { Apply(Persisted(s, Completed(p), now), Crash) }

  lemma {:induction false} StoredMatrix(s: Sys, p: Pass, now: int)
    requires Quiet(s, now)
    ensures var t := MatrixStored(s, p, now);
            && t.pc == Idle && t.d.meta == s.d.meta && t.d.spec == s.d.spec && t.d.status.cells == p.cells
            && t.d.status.baselines == p.view.baselines
            && (forall v :: v != Version(s.d.spec) && DeployedAt(t.d.status, v) ==> DeployedAt(s.d.status, v))
  {
    QuietPersist(s, Completed(p), now);
    var status := Observe(s.d.spec, s.d.status, Completed(p));
    assert NextStatus(s.d, Completed(p)).cells == status.cells;
    assert NextStatus(s.d, Completed(p)).baselines == status.baselines;
    assert NextStatus(s.d, Completed(p)).deployed == status.deployed;
  }

  /**
    A pass over one version stores a failed cell, a client asks for another version, and the next pass
    stops early, the blueprint of that version missing for instance: the upgrade fails on the old cell.
  */
  lemma {:induction false} StoppedPassJudgesOldCells(
    s: Sys, p: Pass, value: string, age: int, baselines: seq<Baseline>, settled: bool, now: int)
    requires s.pc == Idle && NoRequests(s.d.meta) && value != ""
    requires Target(value) != Version(s.d.spec) && !DeployedAt(s.d.status, Target(value))
    requires !IsHandled(s.d.meta.handled, HandledId(Upgrade, Nonce(value)))
    requires exists c :: c in p.cells && c.phase == Failed
    ensures var started := Started(MatrixStored(s, p, now), Upgrade, value, now);
            && started.d.meta.journal.Some?
            && var op := started.d.meta.journal.value;
               && op.typ == Upgrade && op.target == Target(value) && op.state == InProgress
               && Evaluated(started, Stopped(age, baselines), settled, now).d.meta.journal == Some(op.(state := OpFailed))
  {
    NothingPending(s.d.meta, s.d.spec, s.d.status, now);
    StoredMatrix(s, p, now);
    var t := MatrixStored(s, p, now);
    UpgradeTrigger(t.d.meta, t.d.spec, t.d.status, value, now);
    StartedState(t, Upgrade, value, now);
    var started := Started(t, Upgrade, value, now);
    NothingPending(started.d.meta, started.d.spec, started.d.status, now);
    assert AnyFailed(started.d.status);
    OldCellsFail(started, started.d.meta.journal.value, age, baselines, settled, now);
  }

  // ---- A retry -------------------------------------------------------------------------------------------

  /** A failed cell of a deployment; a rejected HelmOp's cell names no revision. */
  predicate DeployedFailure(c: Cell) { c.phase == Failed && c.revision != "" }

  /** Alike in all that the cells of deployments are made from; HelmOps, baselines and epoch may differ. */
  predicate SameFleet(view: View, again: View) {
    && again.clusters == view.clusters && again.keys == view.keys && again.digests == view.digests
    && again.world.bundles == view.world.bundles && again.world.deployments == view.world.deployments
  }

  /** The failures a retry meets: those of deployments stay current when only the epoch changes. */
  lemma {:induction false} DeployedFailureStays(
    view: View, cells: seq<Cell>, again: View, cellsAgain: seq<Cell>, c: Cell)
    requires IsMatrix(view, cells, view.keys) && IsMatrix(again, cellsAgain, again.keys) && SameFleet(view, again)
    requires c in cells && DeployedFailure(c)
    ensures c in cellsAgain
  {
    var k := Justification(view, cells, c);
    var d :| OfDeployment(view, k, d, c);
    assert Covered(again, cellsAgain, k);
    assert Current(again, k) == Current(view, k);
  }

  /**
    The baselines of a pass that started from `before`: the HelmOps it read when it rendered them,
    `taken`, are upserted, and every entry may be pruned again.
  */
  predicate Retaken(before: seq<Baseline>, taken: map<Id, HelmOp>, view: View) {
    forall k :: k in view.keys && (k.workspace, k.name) in view.world.helmOps ==> RetakenFor(before, taken, view, k)
  }

  predicate RetakenFor(before: seq<Baseline>, taken: map<Id, HelmOp>, view: View, k: Key)
    requires (k.workspace, k.name) in view.world.helmOps
  {
    var id := (k.workspace, k.name);
    var uid := view.world.helmOps[id].uid;
    var known, now := BaselineFor(before, uid), BaselineFor(view.baselines, uid);
    now == None || now ==
      if id in taken && taken[id].uid == uid
      then Baselines.Upserted(known, uid, Baselines.Observation(taken[id], DigestOf(view.digests, k), view.epoch))
      else known
  }

  /** A HelmOp that has nothing to show on some cluster and was rejected after its baseline was taken. */
  predicate RejectedMeanwhile(view: View, taken: map<Id, HelmOp>, k: Key) {
    var id := (k.workspace, k.name);
    && BundleOf(view.world, k).None? && id in view.world.helmOps && id in taken
    && (var ho, was := view.world.helmOps[id], taken[id];
        && ho.uid == was.uid && ho.generation == was.generation && BaselineFor(view.baselines, ho.uid).Some?
        && ho.accepted.Accepted? && ho.accepted.isFalse && ho.accepted.fingerprint != Fingerprint(was.accepted))
    && exists cluster :: cluster in ExpectedClusters(k, view.clusters) && Unserved(view, k, cluster)
  }

  predicate EarlierBaselines(before: seq<Baseline>, view: View) { forall b :: b in before ==> b.epoch < view.epoch }

  lemma {:induction false} RejectionIsNew(before: seq<Baseline>, taken: map<Id, HelmOp>, view: View, k: Key)
    requires EarlierBaselines(before, view) && Retaken(before, taken, view) && k in view.keys
    requires exists cluster :: cluster in ExpectedClusters(k, view.clusters) && Unserved(view, k, cluster)
    ensures MissingPhase(view, k) == Failed <==> RejectedMeanwhile(view, taken, k)
  {
    var id := (k.workspace, k.name);
    if id in view.world.helmOps {
      assert RetakenFor(before, taken, view, k);
      KnownBaseline(before, view.world.helmOps[id].uid);
    }
  }

  lemma {:induction false} OldFailure(
    view: View, cells: seq<Cell>, again: View, k: Key, d: Deployment, c: Cell)
    requires IsMatrix(view, cells, view.keys) && SameFleet(view, again) && k in again.keys
    requires OfDeployment(again, k, d, c) && c.phase == Failed
    ensures c in cells && DeployedFailure(c)
  {
    assert Covered(view, cells, k);
    assert Current(again, k) == Current(view, k);
  }

  /** Those of rejected HelmOps go: their baselines are taken again, as they are now. */
  lemma {:induction false} OnlyDeployedFailures(
    view: View, cells: seq<Cell>, again: View, cellsAgain: seq<Cell>, taken: map<Id, HelmOp>, c: Cell)
    requires IsMatrix(view, cells, view.keys) && IsMatrix(again, cellsAgain, again.keys) && SameFleet(view, again)
    requires EarlierBaselines(view.baselines, again) && Retaken(view.baselines, taken, again)
    requires c in cellsAgain && c.phase == Failed
    ensures (c in cells && DeployedFailure(c)) || exists k :: k in again.keys && RejectedMeanwhile(again, taken, k)
  {
    var k := Justification(again, cellsAgain, c);
    if d :| OfDeployment(again, k, d, c) {
      OldFailure(view, cells, again, k, d, c);
    } else {
      RejectionIsNew(view.baselines, taken, again, k);
    }
  }

  /** A rejection that the pass sees after it took the baseline is a failure of its own. */
  lemma {:induction false} NewRejectionFails(
    before: seq<Baseline>, taken: map<Id, HelmOp>, view: View, cells: seq<Cell>, k: Key)
    requires EarlierBaselines(before, view) && Retaken(before, taken, view) && IsMatrix(view, cells, view.keys)
    requires k in view.keys && RejectedMeanwhile(view, taken, k)
    ensures exists c :: c in cells && c.phase == Failed
  {
    RejectionIsNew(before, taken, view, k);
    var cluster :| cluster in ExpectedClusters(k, view.clusters) && Unserved(view, k, cluster);
    assert Covered(view, cells, k);
    assert Cell(k.chart, k.release, cluster, MissingPhase(view, k), "", "") in cells;
  }

  lemma {:induction false} RetryDecision(s: Sys, op: Operation, p: Pass, settled: bool, now: int)
    requires Quiet(s, now) && s.d.meta.journal == Some(op) && op.state == InProgress
    requires op.typ == Retry && op.intent == IntentOf(s.d.spec) && now - op.requestedAt <= OPERATION_DEADLINE
    ensures var journal := Evaluated(s, Completed(p), settled, now).d.meta.journal;
            && journal.Some?
            && (journal.value.state == OpFailed <==> exists c :: c in p.cells && c.phase == Failed)
  {
    QuietEvaluation(s, Completed(p), settled, now);
    CompletedCells(s.d.spec, s.d.status, p);
    var status := NextStatus(s.d, Completed(p));
    assert status.cells == p.cells && status.phase == Observe(s.d.spec, s.d.status, Completed(p)).phase;
    if c :| c in p.cells && c.phase == Failed {
      assert PhaseOf(p.cells) != PhaseRunning;
    }
  }

  lemma {:induction false} RetryRun(
    s: Sys, p: Pass, again: Pass, value: string, settled: bool, now: int, later: int)
    requires s.pc == Idle && NoRequests(s.d.meta) && value != ""
    requires !IsHandled(s.d.meta.handled, HandledId(Retry, value)) && later - now <= OPERATION_DEADLINE
    ensures var started := Started(MatrixStored(s, p, now), Retry, value, now);
            && started.d.status.baselines == p.view.baselines
            && started.d.meta.journal.Some? && started.d.meta.journal.value.typ == Retry
            && started.d.meta.journal.value.state == InProgress && started.d.meta.epoch == s.d.meta.epoch + 1
            && var journal := Evaluated(started, Completed(again), settled, later).d.meta.journal;
               && journal.Some?
               && (journal.value.state == OpFailed <==> exists c :: c in again.cells && c.phase == Failed)
  {
    NothingPending(s.d.meta, s.d.spec, s.d.status, now);
    StoredMatrix(s, p, now);
    var t := MatrixStored(s, p, now);
    RetryTrigger(t.d.meta, t.d.spec, t.d.status, value, now);
    StartedState(t, Retry, value, now);
    var started := Started(t, Retry, value, now);
    NothingPending(started.d.meta, started.d.spec, started.d.status, later);
    RetryDecision(started, started.d.meta.journal.value, again, settled, later);
  }

  /**
    A pass stores its matrix, a client asks for a retry, and the next pass finds bundles and
    deployments as they were; it takes the baselines of the HelmOps again at the new epoch. The retry
    fails on that pass exactly if some cell of a deployment was failed before it, or a HelmOp is
    rejected between the two times the pass reads it.
  */
  lemma {:induction false} RetryFailsOnWhatItRetries(
    s: Sys, p: Pass, again: Pass, taken: map<Id, HelmOp>, value: string, settled: bool, now: int, later: int)
    requires s.pc == Idle && NoRequests(s.d.meta) && value != ""
    requires !IsHandled(s.d.meta.handled, HandledId(Retry, value)) && later - now <= OPERATION_DEADLINE
    requires PassOk(s.d.meta, s.d.spec, p) && PassOk(s.d.meta.(epoch := s.d.meta.epoch + 1), s.d.spec, again)
    requires SameFleet(p.view, again.view)
    requires Retaken(p.view.baselines, taken, again.view)
    requires forall b :: b in p.view.baselines ==> b.epoch <= p.view.epoch
    ensures var started := Started(MatrixStored(s, p, now), Retry, value, now);
            && started.d.status.baselines == p.view.baselines
            && started.d.meta.journal.Some? && started.d.meta.journal.value.typ == Retry
            && started.d.meta.journal.value.state == InProgress && started.d.meta.epoch == s.d.meta.epoch + 1
            && var journal := Evaluated(started, Completed(again), settled, later).d.meta.journal;
               && journal.Some?
               && (journal.value.state == OpFailed <==>
                    || (exists c :: c in p.cells && DeployedFailure(c))
                    || exists k :: k in again.view.keys && RejectedMeanwhile(again.view, taken, k))
  {
    RetryRun(s, p, again, value, settled, now, later);
    RetriedFailures(p, again, taken);
  }

  lemma {:induction false} RetriedFailures(p: Pass, again: Pass, taken: map<Id, HelmOp>)
    requires IsMatrix(p.view, p.cells, p.view.keys) && IsMatrix(again.view, again.cells, again.view.keys)
    requires SameFleet(p.view, again.view)
    requires EarlierBaselines(p.view.baselines, again.view) && Retaken(p.view.baselines, taken, again.view)
    ensures (exists c :: c in again.cells && c.phase == Failed) <==>
              || (exists c :: c in p.cells && DeployedFailure(c))
              || exists k :: k in again.view.keys && RejectedMeanwhile(again.view, taken, k)
  {
    if c :| c in again.cells && c.phase == Failed {
      OnlyDeployedFailures(p.view, p.cells, again.view, again.cells, taken, c);
    }
    if c :| c in p.cells && DeployedFailure(c) {
      DeployedFailureStays(p.view, p.cells, again.view, again.cells, c);
    }
    if k :| k in again.view.keys && RejectedMeanwhile(again.view, taken, k) {
      NewRejectionFails(p.view.baselines, taken, again.view, again.cells, k);
    }
  }
}

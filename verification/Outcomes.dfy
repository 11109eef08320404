/**
  What the stored status says about the fleet, over whole runs of the protocol: an upgrade that
  succeeded was certified, a rollback that succeeded need not have been, and Running was served.
*/
module Outcomes {
  import opened Strings
  import opened Journal
  import opened Fleet
  import opened Protocol
  import opened Passes

  // ---- Certification behind a success ------------------------------------------------------------------------

  /** The pass a report rests on, if it got as far as a matrix. */
  function PassOf(report: Report): Option<Pass> {
    match report
    case Completed(p) => Some(p)
    case Deferred(_, _, partial, _) => partial
    case _ => None
  }

  predicate Certifying(report: Report) {
    && PassOf(report).Some? && (report.Deferred? ==> report.certified)
    && PassCertifies(PassOf(report).value)
  }

  /** A report made over the stored object, not over a stale copy. */
  predicate Reports(s: Sys, e: Event) { e.ObserveFleet? && s.pc == AtStatus && Fresh(s) }

  /** Such a report is what reconciling the status can come to for the stored metadata and spec. */
  ghost predicate Honest(s: Sys, e: Event) { Reports(s, e) ==> ReportOk(s.d.meta, s.d.spec, e.report) }

  ghost predicate HonestRun(s: Sys, events: seq<Event>)
    decreases |events|
  {
    events == [] || (Honest(s, events[0]) && HonestRun(Apply(s, events[0]), events[1..]))
  }

  lemma {:induction false} HonestAt(s: Sys, events: seq<Event>, n: nat)
    requires HonestRun(s, events) && n < |events|
    ensures Honest(Run(s, events[..n]), events[n])
    decreases n
  {
    if n == 0 {
      assert events[..0] == [];
    } else {
      HonestAt(Apply(s, events[0]), events[1..], n - 1);
      assert events[..n][0] == events[0] && events[..n][1..] == events[1..][..n - 1];
    }
  }

  /** The pass saw this version in the stored spec, and every desired bundle current and fully rolled out. */
  predicate Certifies(s: Sys, e: Event, version: string) {
    Reports(s, e) && Version(s.d.spec) == version && Certifying(e.report)
  }

  /**
    Every component is rolled out on every target cluster of the spec: its bundle is there, carries the
    render expected of it, its own where bundle names are distinct, and is ready on exactly the target
    clusters it answers for.
  */
  ghost predicate RolledOut(meta: Meta, spec: Spec, p: Pass) {
    && |p.renders| == |p.components|
    && forall i, cluster :: 0 <= i < |p.components| && cluster in spec.clusters ==>
         OnTarget(spec.clusters, Units(meta.name, p.components), p, i, cluster)
  }

  predicate OnTarget(clusters: seq<string>, units: seq<Unit>, p: Pass, i: int, cluster: string)
    requires 0 <= i < |units| == |p.renders|
  {
    var id := HomeOf(units[i], cluster);
    && id in p.view.digests && (DistinctBundles(units) ==> p.view.digests[id] == p.renders[i])
    && RolledOutOn(p.again, id, p.view.digests[id], Answerable(clusters, cluster))
  }

  lemma {:induction false} CertifiedIsRolledOut(meta: Meta, spec: Spec, p: Pass)
    requires PassOk(meta, spec, p) && PassCertifies(p)
    ensures RolledOut(meta, spec, p)
  {
    var units := Units(meta.name, p.components);
    forall i, cluster | 0 <= i < |units| && cluster in spec.clusters
      ensures OnTarget(spec.clusters, units, p, i, cluster)
    {
      AllTargetsCertified(p.again, p.view.keys, p.view.digests, spec.clusters, units, spec.strategy, units[i], cluster);
      TargetDigest(spec.clusters, units, p.renders, spec.strategy, i, cluster);
    }
  }

  predicate DeployedAt(status: Status, version: string) {
    status.deployed.Some? && status.deployed.value.version == version
  }

  predicate UpgradeDone(meta: Meta, version: string) {
    && meta.journal.Some? && meta.journal.value.typ == Upgrade
    && meta.journal.value.target == version && meta.journal.value.state == Succeeded
  }

  predicate NotAt(s: Sys, version: string) {
    && !DeployedAt(s.d.status, version)
    && (s.pc != Idle && Fresh(s) ==> !DeployedAt(s.w.status, version))
    && !UpgradeDone(s.d.meta, version)
  }

  lemma {:induction false} ObserveDeploys(spec: Spec, status: Status, report: Report, version: string)
    ensures DeployedAt(Observe(spec, status, report), version) ==>
              DeployedAt(status, version) || (Certifying(report) && Version(spec) == version)
  {
  }

  lemma {:induction false} ReportNotAt(s: Sys, e: Event, version: string)
    requires Inv(s) && NotAt(s, version) && !Certifies(s, e, version) && e.ObserveFleet?
    ensures NotAt(Apply(s, e), version)
  {
    ObserveDeploys(s.w.spec, s.w.status, e.report, version);
  }

  lemma {:induction false} StepNotAt(s: Sys, e: Event, version: string)
    requires Inv(s) && NotAt(s, version) && !Certifies(s, e, version)
    ensures NotAt(Apply(s, e), version)
  {
    match e {
      case RunTriggers(now) => TriggerJournals(s.w.meta, s.w.spec, s.w.status, now);
      case ObserveFleet(_) => ReportNotAt(s, e, version);
      case Evaluate(settled, now) => EvaluateNotAt(s, settled, now, version);
      case _ =>
    }
  }

  lemma {:induction false} EvaluateNotAt(s: Sys, settled: bool, now: int, version: string)
    requires Inv(s) && NotAt(s, version)
    ensures NotAt(Apply(s, Evaluate(settled, now)), version)
  {
    if s.pc == AtDecision && Fresh(s) && s.w.meta.journal.Some? {
      NotDone(s.w.spec, s.w.status, s.w.meta.journal.value, settled, now, version);
    }
  }

  lemma {:induction false} NotDone(spec: Spec, status: Status, op: Operation, settled: bool, now: int, version: string)
    requires !DeployedAt(status, version) && !(op.typ == Upgrade && op.target == version && op.state == Succeeded)
    ensures var out := Decide(spec, status, op, settled, now);
            !(out.typ == Upgrade && out.target == version && out.state == Succeeded)
  {
  }

  lemma {:induction false} DoneOnlyIfCertified(s: Sys, events: seq<Event>, version: string)
    requires Inv(s) && NotAt(s, version)
    requires UpgradeDone(Run(s, events).d.meta, version)
    ensures exists n: int :: 0 <= n < |events| && Certifies(Run(s, events[..n]), events[n], version)
    decreases |events|
  {
    if events != [] {
      var e, rest := events[0], events[1..];
      assert Run(s, events[..0]) == s;
      if !Certifies(s, e, version) {
        StepInv(s, e);
        StepNotAt(s, e, version);
        DoneOnlyIfCertified(Apply(s, e), rest, version);
        var n: int :| 0 <= n < |rest| && Certifies(Run(Apply(s, e), rest[..n]), rest[n], version);
        assert events[..n + 1][0] == e && events[..n + 1][1..] == rest[..n];
        assert Certifies(Run(s, events[..n + 1]), events[n + 1], version);
      }
    }
  }

  lemma {:induction false} CertifiedThere(s: Sys, events: seq<Event>, n: nat, version: string)
    requires Inv(s) && HonestRun(s, events) && n < |events|
    requires Certifies(Run(s, events[..n]), events[n], version)
    ensures var t := Run(s, events[..n]); RolledOut(t.d.meta, t.d.spec, PassOf(events[n].report).value)
  {
    var t := Run(s, events[..n]);
    RunInv(s, events[..n]);
    HonestAt(s, events, n);
    CertifiedIsRolledOut(t.d.meta, t.d.spec, PassOf(events[n].report).value);
  }

  /** The state just after a pass has started this operation. */
  ghost predicate Starts(s: Sys, now: int, op: Operation) {
    && Inv(s) && s.pc == AtTriggers && Fresh(s)
    && var t := HandleTriggers(s.d.meta, s.d.spec, s.d.status, now); t.Commit? && t.op == Some(op)
  }

  /**
    An upgrade to a version that was not the deployed one ends Succeeded only after a pass that had
    that version in the stored spec and found every component certified on every target cluster.
  */
  lemma {:induction false} UpgradeSuccessIsCertified(s: Sys, now: int, op: Operation, events: seq<Event>)
    requires Starts(s, now, op) && op.typ == Upgrade && !DeployedAt(s.d.status, op.target)
    requires HonestRun(Apply(s, RunTriggers(now)), events)
    ensures var start := Apply(s, RunTriggers(now));
            UpgradeDone(Run(start, events).d.meta, op.target) ==>
              exists n: int :: 0 <= n < |events|
                && var t := Run(start, events[..n]);
                   && Certifies(t, events[n], op.target)
                   && RolledOut(t.d.meta, t.d.spec, PassOf(events[n].report).value)
  {
    var start := Apply(s, RunTriggers(now));
    StepInv(s, RunTriggers(now));
    TriggerJournals(s.d.meta, s.d.spec, s.d.status, now);
    if UpgradeDone(Run(start, events).d.meta, op.target) {
      DoneOnlyIfCertified(start, events, op.target);
      var n: int :| 0 <= n < |events| && Certifies(Run(start, events[..n]), events[n], op.target);
      CertifiedThere(start, events, n, op.target);
    }
  }

  // ---- Rollbacks -------------------------------------------------------------------------------------------------

  /** What the pass under way has certified, if it has; only a pass over the stored object counts. */
  function SeenAfter(s: Sys, e: Event, seen: Option<string>): Option<string> {
    if !Reports(s, e) then seen else if Certifying(e.report) then Some(Version(s.d.spec)) else None
  }

  /** The status write that stores a certification takes effect. */
  function StoredAfter(s: Sys, e: Event, seen: Option<string>, stored: Option<string>): Option<string> {
    if e.PersistStatus? && s.pc.AtPersist? && Fresh(s) && seen.Some? then seen else stored
  }

  /** The version certified by the last pass in this run that certified one and stored its status. */
  ghost function LastStored(s: Sys, events: seq<Event>, seen: Option<string>, stored: Option<string>): Option<string>
    decreases |events|
  {
    if events == [] then stored
    else
      var e := events[0];
      LastStored(Apply(s, e), events[1..], SeenAfter(s, e, seen), StoredAfter(s, e, seen, stored))
  }

  ghost function LastCertified(s: Sys, events: seq<Event>): Option<string> { LastStored(s, events, None, None) }

  function DeployedVersion(status: Status): Option<string> {
    if status.deployed.Some? then Some(status.deployed.value.version) else None
  }

  function Latest(stored: Option<string>, first: Option<string>): Option<string> {
    if stored.Some? then stored else first
  }

  /** The stored version is the last one certified and stored, or the first; a copy adds what its pass has seen. */
  predicate Tracks(s: Sys, seen: Option<string>, stored: Option<string>, first: Option<string>) {
    && DeployedVersion(s.d.status) == Latest(stored, first)
    && (s.pc.AtPersist? && Fresh(s) ==>
          DeployedVersion(s.w.status) == Latest(seen, DeployedVersion(s.d.status)))
  }

  lemma {:induction false} ObserveVersion(spec: Spec, status: Status, report: Report)
    ensures DeployedVersion(Observe(spec, status, report)) ==
            if Certifying(report) then Some(Version(spec)) else DeployedVersion(status)
  {
  }

  lemma {:induction false} ReportTracks(
    s: Sys, report: Report, seen: Option<string>, stored: Option<string>, first: Option<string>)
    requires Inv(s) && Tracks(s, seen, stored, first)
    ensures Tracks(Apply(s, ObserveFleet(report)), SeenAfter(s, ObserveFleet(report), seen), stored, first)
  {
    if s.pc == AtStatus {
      ReportStep(s, report);
      ObserveVersion(s.w.spec, s.w.status, report);
    }
  }

  lemma {:induction false} EvaluateKeepsVersion(s: Sys, settled: bool, now: int)
    requires Inv(s)
    ensures var t := Apply(s, Evaluate(settled, now));
            t.d.status == s.d.status && (t.pc.AtPersist? ==> t == s)
  {
  }

  lemma {:induction false} TriggerKeepsVersion(s: Sys, now: int)
    requires Inv(s)
    ensures var t := Apply(s, RunTriggers(now));
            t.d.status == s.d.status && (t.pc.AtPersist? ==> t == s)
  {
  }

  lemma {:induction false} StepTracks(
    s: Sys, e: Event, seen: Option<string>, stored: Option<string>, first: Option<string>)
    requires Inv(s) && Tracks(s, seen, stored, first)
    ensures Tracks(Apply(s, e), SeenAfter(s, e, seen), StoredAfter(s, e, seen, stored), first)
  {
    match e {
      case ObserveFleet(report) => ReportTracks(s, report, seen, stored, first);
      case Evaluate(settled, now) => EvaluateKeepsVersion(s, settled, now);
      case RunTriggers(now) => TriggerKeepsVersion(s, now);
      case _ =>
    }
  }

  lemma {:induction false} RunTracks(
    s: Sys, events: seq<Event>, seen: Option<string>, stored: Option<string>, first: Option<string>)
    requires Inv(s) && Tracks(s, seen, stored, first)
    ensures DeployedVersion(Run(s, events).d.status) == Latest(LastStored(s, events, seen, stored), first)
    decreases |events|
  {
    if events != [] {
      StepInv(s, events[0]);
      StepTracks(s, events[0], seen, stored, first);
      RunTracks(Apply(s, events[0]), events[1..], SeenAfter(s, events[0], seen),
                StoredAfter(s, events[0], seen, stored), first);
    }
  }

  /** In every run the deployed version is the last one that a pass certified and stored. */
  lemma {:induction false} DeployedIsLastCertified(name: string, spec: Spec, events: seq<Event>)
    ensures DeployedVersion(Run(Init(name, spec), events).d.status) == LastCertified(Init(name, spec), events)
  {
    InitInv(name, spec);
    RunTracks(Init(name, spec), events, None, None, None);
  }

  lemma {:induction false} RollbackStart(s: Sys, now: int, op: Operation)
    requires Starts(s, now, op) && op.typ == Rollback
    ensures DeployedAt(s.d.status, op.target) && op.expected == Some(s.d.status.deployed.value.digest)
    ensures var start := Apply(s, RunTriggers(now));
            && Inv(start) && start.pc == Idle && start.d.meta.journal == Some(op) && op.state == InProgress
            && start.d.status == s.d.status
  {
    StepInv(s, RunTriggers(now));
    TriggerJournals(s.d.meta, s.d.spec, s.d.status, now);
  }

  /** How an evaluation of a rollback goes, by what was certified and stored since it started. */
  function RollbackEnd(op: Operation, o: Stored, last: Option<string>, now: int): Operation {
    if op.intent != IntentOf(o.spec) then op.(state := Superseded)
    else if last == None || last == Some(op.target) then
      if o.status.deployed.Some? && op.expected != Some(o.status.deployed.value.digest)
      then op.(state := OpFailed, reason := "BlueprintDrift")
      else op.(state := Succeeded)
    else if AnyFailed(o.status) then op.(state := OpFailed)
    else if now - op.requestedAt > OPERATION_DEADLINE then op.(state := OpFailed, reason := "TimedOut")
    else op
  }

  /**
    An evaluation of a rollback, the first after its start and every other, ends it exactly if the
    last certification stored since the start, if there was one, is of the rollback's target, or the
    intent has changed, a cell has failed or the deadline is past; and which end that is.
  */
  lemma {:induction false} RollbackEndsIff(
    s: Sys, now: int, op: Operation, events: seq<Event>, settled: bool, later: int)
    requires Starts(s, now, op) && op.typ == Rollback
    requires var t := Run(Apply(s, RunTriggers(now)), events);
             t.pc == AtDecision && Fresh(t) && t.d.meta.journal == Some(op)
    ensures var start := Apply(s, RunTriggers(now));
            var t, last := Run(start, events), LastCertified(start, events);
            var end := RollbackEnd(op, t.d, last, later);
            && Apply(t, Evaluate(settled, later)).d.meta.journal == Some(end)
            && (Terminal(end) <==>
                  || op.intent != IntentOf(t.d.spec) || last == None || last == Some(op.target)
                  || AnyFailed(t.d.status) || later - op.requestedAt > OPERATION_DEADLINE)
  {
    var start := Apply(s, RunTriggers(now));
    var t, last := Run(start, events), LastCertified(start, events);
    RollbackStart(s, now, op);
    RunInv(start, events);
    RunTracks(start, events, None, None, Some(op.target));
    DecideStep(t, settled, later);
    RollbackDecision(op, t.d, last, settled, later);
  }

  lemma {:induction false} RollbackDecision(op: Operation, o: Stored, last: Option<string>, settled: bool, now: int)
    requires op.typ == Rollback && op.state == InProgress && op.expected.Some?
    requires DeployedVersion(o.status) == Latest(last, Some(op.target))
    ensures Decide(o.spec, o.status, op, settled, now) == RollbackEnd(op, o, last, now)
  {
  }

  /** And it needs no certification: a rollback succeeds on its first pass while no bundle is current. */
  lemma {:induction false} RollbackNeedsNoCertification(
    s: Sys, now: int, op: Operation, report: Report, settled: bool, later: int)
    requires Starts(s, now, op) && op.typ == Rollback
    requires var start := Apply(s, RunTriggers(now)); Quiet(start, later) && !report.Deferred?
    requires report.Completed? ==> !PassCertifies(report.pass)
    ensures Evaluated(Apply(s, RunTriggers(now)), report, settled, later).d.meta.journal == Some(op.(state := Succeeded))
  {
    var start := Apply(s, RunTriggers(now));
    RollbackStart(s, now, op);
    StartKeepsIntent(s, now, op);
    QuietEvaluation(start, report, settled, later);
  }

  lemma {:induction false} StartKeepsIntent(s: Sys, now: int, op: Operation)
    requires Starts(s, now, op)
    ensures op.intent == IntentOf(Apply(s, RunTriggers(now)).d.spec)
  {
    TriggerIntent(s.d.meta, s.d.spec, s.d.status, now);
    assert Apply(s, RunTriggers(now)).d.spec == HandleTriggers(s.d.meta, s.d.spec, s.d.status, now).spec;
  }

  /** A version certified in a pass that crashes after its status write, under an edit that is then undone. */
  ghost function EditedAwayAndBack(s: Sys, edited: Spec, p: Pass, now: int): Sys {
    Apply(Apply(Persisted(Apply(s, EditSpec(edited)), Completed(p), now), Crash), EditSpec(s.d.spec))
  }

  lemma {:induction false} CertifiedStatus(o: Stored, p: Pass)
    requires PassCertifies(p)
    ensures DeployedAt(NextStatus(o, Completed(p)), Version(o.spec)) && NextStatus(o, Completed(p)).cells == p.cells
  {
  }

  lemma {:induction false} EditLeavesTrace(s: Sys, edited: Spec, p: Pass, now: int)
    requires Quiet(Apply(s, EditSpec(edited)), now)
    requires PassCertifies(p)
    ensures var u := EditedAwayAndBack(s, edited, p, now);
            && u.pc == Idle && u.d.spec == s.d.spec && u.d.meta == s.d.meta
            && DeployedAt(u.d.status, Version(edited)) && u.d.status.cells == p.cells
  {
    var away := Apply(s, EditSpec(edited));
    assert away.d.spec == edited && away.d.meta == s.d.meta;
    QuietPersist(away, Completed(p), now);
    CertifiedStatus(away.d, p);
    CrashAndEdit(Persisted(away, Completed(p), now), s.d.spec);
  }

  lemma {:induction false} CrashAndEdit(s: Sys, spec: Spec)
    ensures var u := Apply(Apply(s, Crash), EditSpec(spec));
            u.pc == Idle && u.d.spec == spec && u.d.meta == s.d.meta && u.d.status == s.d.status
  {
  }

  lemma {:induction false} NothingToDecide(
    s: Sys, op: Operation, age: int, baselines: seq<Baseline>, settled: bool, now: int)
    requires Quiet(s, now) && s.d.meta.journal == Some(op) && op.state == InProgress
    requires op.typ != Retry && op.intent == IntentOf(s.d.spec) && now - op.requestedAt <= OPERATION_DEADLINE
    requires !DeployedAt(s.d.status, op.target) && !AnyFailed(s.d.status)
    ensures Evaluated(s, Stopped(age, baselines), settled, now).d.meta.journal == Some(op)
  {
    QuietEvaluation(s, Stopped(age, baselines), settled, now);
    assert NextStatus(s.d, Stopped(age, baselines)).cells == s.d.status.cells;
  }

  /** Without that side condition a rollback can be left waiting. */
  lemma {:induction false} RollbackLeftWaiting(
    s: Sys, op: Operation, edited: Spec, p: Pass, age: int, baselines: seq<Baseline>, settled: bool, now: int)
    requires s.pc == Idle && s.d.meta.journal == Some(op) && op.typ == Rollback && op.state == InProgress
    requires op.intent == IntentOf(s.d.spec) && now - op.requestedAt <= OPERATION_DEADLINE
    requires s.d.meta.upgradeRequest == s.d.meta.rollbackRequest == s.d.meta.retryRequest == ""
    requires Version(edited) != op.target && PassOk(s.d.meta, edited, p)
    requires PassCertifies(p)
    requires forall c :: c in p.cells ==> c.phase != Failed
    ensures Evaluated(EditedAwayAndBack(s, edited, p, now), Stopped(age, baselines), settled, now).d.meta.journal == Some(op)
  {
    EditLeavesTrace(s, edited, p, now);
    NothingToDecide(EditedAwayAndBack(s, edited, p, now), op, age, baselines, settled, now);
  }

  // ---- Running, over whole runs ------------------------------------------------------------------------------------

  /** Every component serves on every target cluster of the spec, from the render expected of it. */
  ghost predicate ServesEverywhere(meta: Meta, spec: Spec, p: Pass) {
    forall u, cluster :: u in Units(meta.name, p.components) && cluster in spec.clusters ==>
      var k := TargetKey(spec.clusters, u, cluster);
      Serving(p.view.world, k, DigestOf(p.view.digests, k), cluster)
  }

  lemma {:induction false} RunningServes(meta: Meta, spec: Spec, p: Pass)
    requires PassOk(meta, spec, p) && PhaseOf(p.cells) == PhaseRunning
    ensures ServesEverywhere(meta, spec, p)
  {
    var units := Units(meta.name, p.components);
    forall u, cluster | u in units && cluster in spec.clusters
      ensures var k := TargetKey(spec.clusters, u, cluster);
              Serving(p.view.world, k, DigestOf(p.view.digests, k), cluster)
    {
      RunningIsSound(p.view, p.cells, units, spec.strategy, u, cluster);
    }
  }

  /** A pass over the stored object that found everything running. */
  predicate FindsRunning(s: Sys, e: Event) {
    Reports(s, e) && PassOf(e.report).Some? && PhaseOf(PassOf(e.report).value.cells) == PhaseRunning
  }

  predicate NotRunning(s: Sys) {
    s.d.status.phase != PhaseRunning && (s.pc != Idle && Fresh(s) ==> s.w.status.phase != PhaseRunning)
  }

  lemma {:induction false} ObserveRuns(spec: Spec, status: Status, report: Report)
    ensures Observe(spec, status, report).phase == PhaseRunning ==>
              || status.phase == PhaseRunning
              || (PassOf(report).Some? && PhaseOf(PassOf(report).value.cells) == PhaseRunning)
  {
  }

  lemma {:induction false} ReportNotRunning(s: Sys, e: Event)
    requires Inv(s) && NotRunning(s) && !FindsRunning(s, e) && e.ObserveFleet?
    ensures NotRunning(Apply(s, e))
  {
    ObserveRuns(s.w.spec, s.w.status, e.report);
  }

  lemma {:induction false} StepNotRunning(s: Sys, e: Event)
    requires Inv(s) && NotRunning(s) && !FindsRunning(s, e)
    ensures NotRunning(Apply(s, e))
  {
    if e.ObserveFleet? {
      ReportNotRunning(s, e);
    }
  }

  lemma {:induction false} RunningOnlyIfFound(s: Sys, events: seq<Event>)
    requires Inv(s) && NotRunning(s) && Run(s, events).d.status.phase == PhaseRunning
    ensures exists n: int :: 0 <= n < |events| && FindsRunning(Run(s, events[..n]), events[n])
    decreases |events|
  {
    if events != [] {
      var e, rest := events[0], events[1..];
      assert Run(s, events[..0]) == s;
      if !FindsRunning(s, e) {
        StepInv(s, e);
        StepNotRunning(s, e);
        RunningOnlyIfFound(Apply(s, e), rest);
        var n: int :| 0 <= n < |rest| && FindsRunning(Run(Apply(s, e), rest[..n]), rest[n]);
        assert events[..n + 1][0] == e && events[..n + 1][1..] == rest[..n];
        assert FindsRunning(Run(s, events[..n + 1]), events[n + 1]);
      }
    }
  }

  /** Stored status says Running only after a pass in which every component served on every target of the stored spec. */
  lemma {:induction false} RunningWasServed(name: string, spec: Spec, events: seq<Event>)
    requires HonestRun(Init(name, spec), events)
    ensures Run(Init(name, spec), events).d.status.phase == PhaseRunning ==>
              exists n: int :: 0 <= n < |events|
                && var t := Run(Init(name, spec), events[..n]);
                   && FindsRunning(t, events[n])
                   && ServesEverywhere(t.d.meta, t.d.spec, PassOf(events[n].report).value)
  {
    InitInv(name, spec);
    if Run(Init(name, spec), events).d.status.phase == PhaseRunning {
      RunningOnlyIfFound(Init(name, spec), events);
      var n: int :| 0 <= n < |events| && FindsRunning(Run(Init(name, spec), events[..n]), events[n]);
      var t := Run(Init(name, spec), events[..n]);
      RunInv(Init(name, spec), events[..n]);
      HonestAt(Init(name, spec), events, n);
      RunningServes(t.d.meta, t.d.spec, PassOf(events[n].report).value);
    }
  }

  predicate NoReport(events: seq<Event>) { forall i :: 0 <= i < |events| ==> !events[i].ObserveFleet? }

  lemma {:induction false} CopyHeld(s: Sys, events: seq<Event>, w: Stored)
    requires NoReport(events) && (s.pc.AtPersist? ==> s.w == w)
    ensures Run(s, events).pc.AtPersist? ==> Run(s, events).w == w
    decreases |events|
  {
    if events != [] {
      CopyHeld(Apply(s, events[0]), events[1..], w);
    }
  }

  /**
    When the status a completed pass worked out is stored, whatever others did in between, Running means
    that every component served on every target cluster of the spec as it is stored then.
  */
  lemma {:induction false} PersistedRunningServes(s: Sys, p: Pass, between: seq<Event>)
    requires Inv(s) && s.pc == AtStatus && ReportOk(s.w.meta, s.w.spec, Completed(p)) && NoReport(between)
    requires var t := Run(Apply(s, ObserveFleet(Completed(p))), between); t.pc.AtPersist? && Fresh(t)
    ensures var u := Apply(Run(Apply(s, ObserveFleet(Completed(p))), between), PersistStatus);
            u.d.status.phase == PhaseRunning ==> ServesEverywhere(u.d.meta, u.d.spec, p)
  {
    var o := Apply(s, ObserveFleet(Completed(p)));
    var t := Run(o, between);
    StepInv(s, ObserveFleet(Completed(p)));
    RunInv(o, between);
    CompletedCopy(s, p);
    CopyHeld(o, between, o.w);
    PersistedPhase(t);
    if PhaseOf(p.cells) == PhaseRunning {
      RunningServes(s.w.meta, s.w.spec, p);
    }
  }

  lemma {:induction false} CompletedCopy(s: Sys, p: Pass)
    requires s.pc == AtStatus
    ensures var o := Apply(s, ObserveFleet(Completed(p)));
            && o.pc == AtPersist(false) && o.w.meta == s.w.meta && o.w.spec == s.w.spec
            && (o.w.status.phase == PhaseRunning <==> PhaseOf(p.cells) == PhaseRunning)
  {
  }

  lemma {:induction false} PersistedPhase(t: Sys)
    requires Inv(t) && t.pc.AtPersist? && Fresh(t)
    ensures var u := Apply(t, PersistStatus);
            u.d.meta == t.w.meta && u.d.spec == t.w.spec && u.d.status.phase == t.w.status.phase
  {
  }
}

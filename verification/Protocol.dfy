/**
  The recovery-operation protocol of an AIWorkload, as a machine over one durable object.

  API clients patch request annotations, users edit the spec, and one controller works on a local
  copy through passes that may crash between any two steps. Every controller write is a
  compare-and-swap on the resource version: a main-resource write leaves the stored status alone
  and refreshes the local copy from the result, a status write leaves metadata and spec alone.

  Intent digests and aggregate digests are taken to be free of collisions: they are the canonical
  values they are made from. Times are seconds.
*/
module Protocol {
  import opened Strings
  import opened Journal
  import opened Fleet

  datatype OpState = InProgress | Succeeded | OpFailed | Superseded

  datatype Intent = Intent(
    blueprint: string, version: string, namespace: string, strategy: Strategy, clusters: multiset<string>)

  datatype Operation = Operation(
    typ: OpType, nonce: string, target: string, expected: Option<Aggregate>, epoch: int,
    requestedAt: int, intent: Intent, state: OpState, reason: string)

  datatype Blueprint = Blueprint(name: string, version: string)

  datatype Spec = Spec(
    blueprint: Option<Blueprint>, namespace: string, strategy: Strategy, clusters: seq<string>,
    bundleNames: seq<string>)

  /** The workload's name, and its annotations; a request that is absent is the empty string. */
  datatype Meta = Meta(
    name: string, journal: Option<Operation>, superseded: Option<Operation>, handled: seq<string>, epoch: int,
    upgradeRequest: string, rollbackRequest: string, retryRequest: string)

  datatype Snapshot = Snapshot(version: string, digest: Aggregate)

  datatype Status = Status(
    phase: Phase, cells: seq<Cell>, deployed: Option<Snapshot>, active: Option<Operation>,
    baselines: seq<Baseline>)

  const OPERATION_DEADLINE := 1800

  function Version(spec: Spec): string { if spec.blueprint.Some? then spec.blueprint.value.version else "" }

  function IntentOf(spec: Spec): Intent {
    Intent(if spec.blueprint.Some? then spec.blueprint.value.name else "", Version(spec),
           spec.namespace, spec.strategy, multiset(spec.clusters))
  }

  function OpId(op: Operation): string { HandledId(op.typ, op.nonce) }

  predicate Terminal(op: Operation) { op.state != InProgress }

  // ---- Triggers --------------------------------------------------------------------------------

  /** strings.SplitN(v, "|", 2). */
  function Nonce(v: string): (r: string)
    ensures |r| <= |v| && (|r| < |v| ==> v[|r|] == '|')
  {
    if v == "" || v[0] == '|' then "" else [v[0]] + Nonce(v[1..])
  }

  function Target(v: string): string { if |Nonce(v)| == |v| then "" else v[|Nonce(v)| + 1..] }

  function Request(meta: Meta, kind: OpType): string {
    match kind
    case Upgrade => meta.upgradeRequest
    case Rollback => meta.rollbackRequest
    case Retry => meta.retryRequest
  }

  function WithRequest(meta: Meta, kind: OpType, value: string): Meta {
    match kind
    case Upgrade => meta.(upgradeRequest := value)
    case Rollback => meta.(rollbackRequest := value)
    case Retry => meta.(retryRequest := value)
  }

  function RequestId(kind: OpType, value: string): string {
    HandledId(kind, if kind == Upgrade then Nonce(value) else value)
  }

  /** Nothing to do, or one main-resource write that consumes a request. */
  datatype Trigger = Ignored | Commit(meta: Meta, spec: Spec, id: string, op: Option<Operation>)

  function FinishTrigger(meta: Meta, spec: Spec, kind: OpType, id: string, op: Option<Operation>): Trigger {
    var m := WithRequest(meta, kind, "").(handled := AddHandled(meta.handled, id));
    Commit(if op.Some? then m.(journal := op) else m, spec, id, op)
  }

  function StartVersionOp(
    meta: Meta, spec: Spec, kind: OpType, nonce: string, target: string, expected: Option<Aggregate>, now: int): Trigger
  {
    var m := if meta.journal.Some? then meta.(superseded := meta.journal) else meta;
    var s := if spec.blueprint.Some? then spec.(blueprint := Some(spec.blueprint.value.(version := target))) else spec;
    FinishTrigger(m, s, kind, HandledId(kind, nonce),
      Some(Operation(kind, nonce, target, expected, 0, now, IntentOf(s), InProgress, "")))
  }

  function StartRetry(meta: Meta, spec: Spec, nonce: string, now: int): Trigger {
    var epoch := meta.epoch + 1;
    FinishTrigger(meta.(epoch := epoch), spec, Retry, HandledId(Retry, nonce),
      Some(Operation(Retry, nonce, "", None, epoch, now, IntentOf(spec), InProgress, "")))
  }

  /** At most one request is looked at, and an upgrade request hides the other two. */
  function HandleTriggers(meta: Meta, spec: Spec, status: Status, now: int): Trigger {
    if meta.upgradeRequest != "" then
      var v := meta.upgradeRequest;
      if IsHandled(meta.handled, HandledId(Upgrade, Nonce(v))) then Ignored
      else if Target(v) == Version(spec) then StartRetry(meta, spec, Nonce(v), now)
      else StartVersionOp(meta, spec, Upgrade, Nonce(v), Target(v), None, now)
    else if meta.rollbackRequest != "" then
      var v := meta.rollbackRequest;
      if IsHandled(meta.handled, HandledId(Rollback, v)) then Ignored
      else if status.deployed.None?
              || (spec.blueprint.Some? && status.deployed.value.version == spec.blueprint.value.version) then
        FinishTrigger(meta, spec, Rollback, HandledId(Rollback, v), None)
      else
        StartVersionOp(meta, spec, Rollback, v, status.deployed.value.version, Some(status.deployed.value.digest), now)
    else if meta.retryRequest != "" then
      var v := meta.retryRequest;
      if IsHandled(meta.handled, HandledId(Retry, v)) then Ignored else StartRetry(meta, spec, v, now)
    else Ignored
  }

  /** The pass would treat an upgrade to the version already in the spec as a retry. */
  predicate SameVersionUpgrade(meta: Meta, spec: Spec) {
    && meta.upgradeRequest != ""
    && !IsHandled(meta.handled, HandledId(Upgrade, Nonce(meta.upgradeRequest)))
    && Target(meta.upgradeRequest) == Version(spec)
  }

  // ---- Status ----------------------------------------------------------------------------------------

  function ProjectOperation(meta: Meta, spec: Spec, status: Status): Status {
    if meta.journal.Some? then status.(active := meta.journal)
    else if status.active.Some? && Terminal(status.active.value) && status.active.value.intent != IntentOf(spec)
    then status.(active := None)
    else status
  }

  /**
    A matrix built in one pass, from the enabled components of the blueprint and the digests of their
    renders, with the age of the workload in seconds. Certification reads Fleet once more: `again`.
  */
  datatype Pass = Pass(
    view: View, again: World, cells: seq<Cell>, age: int, components: seq<Component>, renders: seq<string>)

  predicate PassCertifies(p: Pass) { AllCertified(p.again, p.view.keys, p.view.digests) }

  /**
    What reconciling the status came to. NoSource: the spec names no blueprint. Stopped: the
    blueprint is missing or a chart too large, and the pass goes on. Deferred: an error or a requeue,
    with whatever was reached before it; `failed` holds the age if it is shown as a failure. A pass
    that ends early may have recorded baselines already.
  */
  datatype Report =
    | NoSource
    | Stopped(age: int, baselines: seq<Baseline>)
    | Deferred(failed: Option<int>, baselines: seq<Baseline>, partial: Option<Pass>, certified: bool)
    | Completed(pass: Pass)

  function MatrixStatus(status: Status, p: Pass): Status {
    status.(phase := GuardPhase(PhaseOf(p.cells), status.phase, p.age), cells := p.cells, baselines := p.view.baselines)
  }

  function Certified(status: Status, version: string, p: Pass): Status {
    if PassCertifies(p)
    then status.(deployed := Some(Snapshot(version, Entries(p.view.keys, p.view.digests))))
    else status
  }

  function Observe(spec: Spec, status: Status, report: Report): Status {
    match report
    case NoSource => status
    case Stopped(age, baselines) => status.(phase := GuardPhase(PhaseFailed, status.phase, age), baselines := baselines)
    case Deferred(None, baselines, None, _) => status.(baselines := baselines)
    case Deferred(Some(age), baselines, None, _) =>
      status.(phase := GuardPhase(PhaseFailed, status.phase, age), baselines := baselines)
    case Deferred(_, _, Some(p), certified) =>
      if certified then Certified(MatrixStatus(status, p), Version(spec), p) else MatrixStatus(status, p)
    case Completed(p) => Certified(MatrixStatus(status, p), Version(spec), p)
  }

  ghost predicate PassOk(meta: Meta, spec: Spec, p: Pass) {
    && p.view.clusters == spec.clusters && p.view.epoch == meta.epoch && |p.renders| == |p.components|
    && IsKeyList(p.view.keys, spec.clusters, Units(meta.name, p.components), spec.strategy)
    && p.view.digests == ExpectedDigests(spec.clusters, Units(meta.name, p.components), p.renders, spec.strategy)
    && IsMatrix(p.view, p.cells, p.view.keys)
  }

  ghost predicate ReportOk(meta: Meta, spec: Spec, report: Report) {
    match report
    case Completed(p) => PassOk(meta, spec, p)
    case Deferred(_, _, Some(p), _) => PassOk(meta, spec, p)
    case _ => true
  }

  // ---- Deciding an operation -------------------------------------------------------------------------

  predicate AnyFailed(status: Status) { exists c :: c in status.cells && c.phase == Failed }

  predicate CertifiedAtTarget(status: Status, op: Operation, settled: bool) {
    if op.typ == Retry then status.phase == PhaseRunning && settled
    else status.deployed.Some? && status.deployed.value.version == op.target
  }

  predicate RollbackDrift(status: Status, op: Operation) {
    && op.typ == Rollback
    && status.deployed.Some? && status.deployed.value.version == op.target
    && op.expected.Some? && status.deployed.value.digest != op.expected.value
  }

  function OperationOutcome(
    op: Operation, spec: Spec, certified: bool, anyFailed: bool, drift: bool, now: int): Operation
  {
    if Terminal(op) then op
    else if op.intent != IntentOf(spec) then op.(state := Superseded)
    else if op.typ == Rollback && drift then op.(state := OpFailed, reason := "BlueprintDrift")
    else if certified then op.(state := Succeeded)
    else if anyFailed then op.(state := OpFailed)
    else if now - op.requestedAt > OPERATION_DEADLINE then op.(state := OpFailed, reason := "TimedOut")
    else op
  }

  function Decide(spec: Spec, status: Status, op: Operation, settled: bool, now: int): Operation {
    OperationOutcome(op, spec, CertifiedAtTarget(status, op, settled), AnyFailed(status), RollbackDrift(status, op), now)
  }

  // ---- The machine ---------------------------------------------------------------------------------------

  datatype Stored = Stored(rv: nat, meta: Meta, spec: Spec, status: Status)

  datatype Pc =
    | Idle
    | AtTriggers
    | AtStatus
    | AtPersist(last: bool)        // last: the pass ends once the status is written
    | AtDecision
    | AtProjection(op: Operation)
    | AtClearing(op: Operation)

  datatype Accept = Accept(id: string, op: Option<Operation>)

  /** accepted: every request id recorded, in order; issued: every id a client has asked for. */
  datatype Sys = Sys(d: Stored, pc: Pc, w: Stored, accepted: seq<Accept>, issued: set<string>)

  datatype Event =
    | ApiRequest(kind: OpType, value: string)
    | EditSpec(spec: Spec)
    | Read(copy: Stored)
    | RunTriggers(now: int)
    | InnerUpdate(bundleNames: seq<string>)
    | ObserveFleet(report: Report)
    | PersistStatus
    | Evaluate(settled: bool, now: int)
    | ProjectTerminal
    | ClearJournal
    | Crash

  const NO_STATUS := Status(PhaseUnknown, [], None, None, [])

  function Init(name: string, spec: Spec): Sys {
    var o := Stored(0, Meta(name, None, None, [], 0, "", "", ""), spec, NO_STATUS);
    Sys(o, Idle, o, [], {})
  }

  predicate Fresh(s: Sys) { s.w.rv == s.d.rv }

  /** A main-resource write: metadata and spec go in, the stored status comes back. */
  function WriteMain(s: Sys, meta: Meta, spec: Spec, next: Pc): Sys {
    if !Fresh(s) then s.(pc := Idle)
    else
      var o := Stored(s.d.rv + 1, meta, spec, s.d.status);
      s.(d := o, w := o, pc := next)
  }

  /** A status write: only the status goes in, stored metadata and spec come back. */
  function WriteStatus(s: Sys, status: Status, next: Pc): Sys {
    if !Fresh(s) then s.(pc := Idle)
    else
      var o := Stored(s.d.rv + 1, s.d.meta, s.d.spec, status);
      s.(d := o, w := o, pc := next)
  }

  /** A step; an event that does not apply leaves the state alone. A failed write ends the pass. */
  ghost function Apply(s: Sys, e: Event): Sys {
    match e
    case ApiRequest(kind, value) =>
      if value == "" then s
      else
        s.(d := Stored(s.d.rv + 1, WithRequest(s.d.meta, kind, value), s.d.spec, s.d.status),
           issued := s.issued + {RequestId(kind, value)})
    case EditSpec(spec) => s.(d := Stored(s.d.rv + 1, s.d.meta, spec, s.d.status))
    case Crash => s.(pc := Idle)
    case Read(copy) =>
      // A cached read may be of any earlier version; nothing is known of its content.
      if s.pc == Idle && (copy == s.d || copy.rv < s.d.rv) then s.(w := copy, pc := AtTriggers) else s
    case RunTriggers(now) => if s.pc == AtTriggers then TriggerStep(s, now) else s
    case InnerUpdate(names) =>
      if s.pc == AtStatus then WriteMain(s, s.w.meta, s.w.spec.(bundleNames := names), AtStatus) else s
    case ObserveFleet(report) =>
      if s.pc == AtStatus
      then s.(w := s.w.(status := Observe(s.w.spec, s.w.status, report)), pc := AtPersist(report.Deferred?))
      else s
    case PersistStatus =>
      if s.pc.AtPersist?
      then WriteStatus(s, ProjectOperation(s.w.meta, s.w.spec, s.w.status), if s.pc.last then Idle else AtDecision)
      else s
    case Evaluate(settled, now) => if s.pc == AtDecision then DecisionStep(s, settled, now) else s
    case ProjectTerminal =>
      if s.pc.AtProjection?
      then WriteStatus(s, s.w.status.(active := Some(s.pc.op)), AtClearing(s.pc.op))
      else s
    case ClearJournal =>
      if s.pc.AtClearing? then WriteMain(s, s.w.meta.(journal := None), s.w.spec, Idle) else s
  }

  ghost function TriggerStep(s: Sys, now: int): Sys {
    match HandleTriggers(s.w.meta, s.w.spec, s.w.status, now)
    case Ignored => s.(pc := AtStatus)
    case Commit(meta, spec, id, op) =>
      var t := WriteMain(s, meta, spec, Idle);
      if Fresh(s) && !IsHandled(s.d.meta.handled, id) then t.(accepted := s.accepted + [Accept(id, op)]) else t
  }

  ghost function DecisionStep(s: Sys, settled: bool, now: int): Sys {
    if s.w.meta.journal.None? then s.(pc := Idle)
    else
      var out := Decide(s.w.spec, s.w.status, s.w.meta.journal.value, settled, now);
      if !Terminal(out) then s.(pc := Idle)
      else WriteMain(s, s.w.meta.(journal := Some(out)), s.w.spec, AtProjection(out))
  }

  ghost function Run(s: Sys, events: seq<Event>): Sys
    decreases |events|
  {
    if events == [] then s else Run(Apply(s, events[0]), events[1..])
  }

  // ---- Invariants of every run -----------------------------------------------------------------------------

  /** Status shows an operation in progress only while a journal exists. */
  predicate NoOrphan(o: Stored) {
    o.status.active.Some? && !Terminal(o.status.active.value) ==> o.meta.journal.Some?
  }

  /** How a local copy that is not stale relates to the stored object. */
  predicate LocalOk(s: Sys) {
    match s.pc
    case Idle => true
    case AtPersist(_) =>
      s.w.meta == s.d.meta && s.w.spec == s.d.spec && s.w.status.active == s.d.status.active
    case AtProjection(op) => s.w == s.d && s.d.meta.journal == Some(op) && Terminal(op)
    case AtClearing(op) => s.w == s.d && s.d.meta.journal == Some(op) && Terminal(op) && s.d.status.active == Some(op)
    case _ => s.w == s.d
  }

  predicate Inv(s: Sys) {
    NoOrphan(s.d) && (s.pc != Idle ==> s.w.rv <= s.d.rv) && (Fresh(s) ==> LocalOk(s))
  }

  lemma {:induction false} InitInv(name: string, spec: Spec)
    ensures Inv(Init(name, spec))
  {
  }

  lemma {:induction false} TriggerJournals(meta: Meta, spec: Spec, status: Status, now: int)
    ensures var t := HandleTriggers(meta, spec, status, now);
            t.Commit? ==>
              && t.meta.journal == (if t.op.Some? then t.op else meta.journal)
              && (t.op.Some? ==> t.op.value.state == InProgress)
  {
  }

  lemma {:induction false} TriggerIntent(meta: Meta, spec: Spec, status: Status, now: int)
    ensures var t := HandleTriggers(meta, spec, status, now);
            t.Commit? && t.op.Some? ==> t.op.value.intent == IntentOf(t.spec)
  {
  }

  lemma {:induction false} StepInv(s: Sys, e: Event)
    requires Inv(s)
    ensures Inv(Apply(s, e))
  {
    match e {
      case RunTriggers(now) =>
        if s.pc == AtTriggers {
          TriggerInv(s, now);
        }
      case Evaluate(settled, now) =>
        if s.pc == AtDecision {
          DecisionInv(s, settled, now);
        }
      case _ =>
    }
  }

  lemma {:induction false} TriggerInv(s: Sys, now: int)
    requires Inv(s) && s.pc == AtTriggers
    ensures Inv(TriggerStep(s, now))
  {
    TriggerJournals(s.w.meta, s.w.spec, s.w.status, now);
  }

  lemma {:induction false} DecisionInv(s: Sys, settled: bool, now: int)
    requires Inv(s) && s.pc == AtDecision
    ensures Inv(DecisionStep(s, settled, now))
  {
  }

  lemma {:induction false} RunInv(s: Sys, events: seq<Event>)
    requires Inv(s)
    ensures Inv(Run(s, events))
    decreases |events|
  {
    if events != [] {
      StepInv(s, events[0]);
      RunInv(Apply(s, events[0]), events[1..]);
    }
  }

  /** In every run of patches, edits, conflicts and crashes, status shows no orphaned operation. */
  lemma {:induction false} StatusNeverOrphaned(name: string, spec: Spec, events: seq<Event>)
    ensures NoOrphan(Run(Init(name, spec), events).d)
  {
    InitInv(name, spec);
    RunInv(Init(name, spec), events);
  }

  /** A journal disappears only when status already holds that operation's terminal record. */
  lemma {:induction false} ClearedOnlyOnceProjected(name: string, spec: Spec, events: seq<Event>, e: Event)
    ensures var s := Run(Init(name, spec), events);
            var op := s.d.meta.journal;
            op.Some? && Apply(s, e).d.meta.journal.None? ==>
              Terminal(op.value) && s.d.status.active == op && Apply(s, e).d.status.active == op
  {
    InitInv(name, spec);
    RunInv(Init(name, spec), events);
    var s := Run(Init(name, spec), events);
    match e {
      case RunTriggers(now) => TriggerJournals(s.w.meta, s.w.spec, s.w.status, now);
      case _ =>
    }
  }
}

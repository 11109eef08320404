/**
  What requests and evaluations come to, in the fields of the stored object: which request starts
  which operation and at which version, and exactly when an operation ends and how.
*/
module Decisions {
  import opened Strings
  import opened Journal
  import opened Fleet
  import opened Protocol
  import opened Passes

  // ---- When a request starts an operation ---------------------------------------------------------------

  /** A pass at its first step, over the stored object and not a stale copy of it. */
  predicate AtRequests(s: Sys) { Inv(s) && s.pc == AtTriggers && Fresh(s) }

  predicate Unhandled(s: Sys, kind: OpType, nonce: string) { HandledId(kind, nonce) !in s.d.meta.handled }

  /** The stored object moves on by one write, which records the request and leaves the status alone. */
  predicate Consumes(s: Sys, t: Sys, id: string) {
    && t.pc == Idle && t.w == t.d && t.d.rv == s.d.rv + 1 && t.d.status == s.d.status
    && id in t.d.meta.handled && t.d.meta.name == s.d.meta.name
  }

  /** The pass goes on to the status and has changed nothing. */
  predicate PassesOn(s: Sys, t: Sys) { t == s.(pc := AtStatus) }

  predicate NoOtherRequest(s: Sys, kind: OpType) {
    && (kind != Upgrade ==> s.d.meta.upgradeRequest == "")
    && (kind == Retry ==> s.d.meta.rollbackRequest == "")
  }

  /** The operation that a version change journals. */
  predicate ChangesVersion(
    s: Sys, t: Sys, kind: OpType, nonce: string, target: string, expected: Option<Aggregate>, now: int)
  {
    && t.d.spec == (if s.d.spec.blueprint.None? then s.d.spec
                    else s.d.spec.(blueprint := Some(Blueprint(s.d.spec.blueprint.value.name, target))))
    && t.d.meta.journal ==
         Some(Operation(kind, nonce, target, expected, 0, now, IntentOf(t.d.spec), InProgress, ""))
    && t.d.meta.superseded == (if s.d.meta.journal.Some? then s.d.meta.journal else s.d.meta.superseded)
    && t.d.meta.epoch == s.d.meta.epoch
  }

  predicate Retries(s: Sys, t: Sys, nonce: string, now: int) {
    && t.d.spec == s.d.spec && t.d.meta.epoch == s.d.meta.epoch + 1
    && t.d.meta.journal ==
         Some(Operation(Retry, nonce, "", None, s.d.meta.epoch + 1, now, IntentOf(s.d.spec), InProgress, ""))
    && t.d.meta.superseded == s.d.meta.superseded
  }

  /** Nonce and target are the text before and after the first bar; without a bar there is no target. */
  lemma {:induction false} RequestText(nonce: string, target: string)
    requires '|' !in nonce
    ensures Nonce(nonce + "|" + target) == nonce && Target(nonce + "|" + target) == target
    ensures Nonce(nonce) == nonce && Target(nonce) == ""
  {
    var v := nonce + "|" + target;
    if nonce == "" {
      assert v[0] == '|' && v[1..] == target;
    } else {
      RequestText(nonce[1..], target);
      assert v[1..] == nonce[1..] + "|" + target && v == [nonce[0]] + v[1..] && nonce == [nonce[0]] + nonce[1..];
      assert nonce[0] in nonce;
      assert Nonce(v) == nonce;
      assert v[|nonce| + 1..] == target;
    }
  }

  lemma {:induction false} Remembered(handled: seq<string>, id: string)
    ensures id in AddHandled(handled, id)
  {
    if !IsHandled(handled, id) {
      var out := handled + [id];
      assert out[|out| - 1] == id;
      if |out| > MAX_HANDLED_OPS {
        assert out[|out| - MAX_HANDLED_OPS..][MAX_HANDLED_OPS - 1] == id;
      }
    }
  }

  /** Something is deployed, and the spec is not at its version. */
  predicate HasRollbackTarget(o: Stored) {
    && o.status.deployed.Some?
    && (o.spec.blueprint.Some? ==> o.spec.blueprint.value.version != o.status.deployed.value.version)
  }

  /**
    A rollback request that is not handled and not hidden by an upgrade request starts a rollback to
    the deployed version, expecting its digest, exactly if something is deployed and the spec names
    no blueprint or another version. Otherwise the request goes and nothing else happens.
  */
  lemma {:induction false} RollbackRequest(s: Sys, now: int)
    requires AtRequests(s) && NoOtherRequest(s, Rollback) && s.d.meta.rollbackRequest != ""
    requires Unhandled(s, Rollback, s.d.meta.rollbackRequest)
    ensures var t, nonce, deployed := Apply(s, RunTriggers(now)), s.d.meta.rollbackRequest, s.d.status.deployed;
            && Consumes(s, t, HandledId(Rollback, nonce))
            && t.accepted == s.accepted
                 + [Accept(HandledId(Rollback, nonce), if HasRollbackTarget(s.d) then t.d.meta.journal else None)]
            && t.d.meta.rollbackRequest == "" && t.d.meta.upgradeRequest == ""
            && t.d.meta.retryRequest == s.d.meta.retryRequest
            && if HasRollbackTarget(s.d)
               then ChangesVersion(s, t, Rollback, nonce, deployed.value.version, Some(deployed.value.digest), now)
               else t.d.spec == s.d.spec && t.d.meta.journal == s.d.meta.journal
                    && t.d.meta.superseded == s.d.meta.superseded && t.d.meta.epoch == s.d.meta.epoch
  {
    Remembered(s.d.meta.handled, HandledId(Rollback, s.d.meta.rollbackRequest));
  }

  predicate AsksFor(request: string, nonce: string, target: string) {
    '|' !in nonce && (request == nonce + "|" + target || (request == nonce != "" && target == ""))
  }

  lemma {:induction false} UpgradeToOther(s: Sys, nonce: string, target: string, now: int)
    requires AtRequests(s) && s.d.meta.upgradeRequest != "" && Unhandled(s, Upgrade, nonce)
    requires Nonce(s.d.meta.upgradeRequest) == nonce && Target(s.d.meta.upgradeRequest) == target != Version(s.d.spec)
    ensures var t := Apply(s, RunTriggers(now));
            && Consumes(s, t, HandledId(Upgrade, nonce)) && ChangesVersion(s, t, Upgrade, nonce, target, None, now)
            && t.accepted == s.accepted + [Accept(HandledId(Upgrade, nonce), t.d.meta.journal)]
            && t.d.meta.upgradeRequest == "" && t.d.meta.rollbackRequest == s.d.meta.rollbackRequest
            && t.d.meta.retryRequest == s.d.meta.retryRequest
  {
    Remembered(s.d.meta.handled, HandledId(Upgrade, nonce));
    assert HandleTriggers(s.d.meta, s.d.spec, s.d.status, now) ==
           StartVersionOp(s.d.meta, s.d.spec, Upgrade, nonce, target, None, now);
  }

  lemma {:induction false} UpgradeToSame(s: Sys, nonce: string, now: int)
    requires AtRequests(s) && s.d.meta.upgradeRequest != "" && Unhandled(s, Upgrade, nonce)
    requires Nonce(s.d.meta.upgradeRequest) == nonce && Target(s.d.meta.upgradeRequest) == Version(s.d.spec)
    ensures var t := Apply(s, RunTriggers(now));
            && Consumes(s, t, HandledId(Retry, nonce)) && Retries(s, t, nonce, now)
            && t.d.meta.upgradeRequest == s.d.meta.upgradeRequest && t.d.meta.retryRequest == ""
            && t.d.meta.rollbackRequest == s.d.meta.rollbackRequest
  {
    Remembered(s.d.meta.handled, HandledId(Retry, nonce));
    assert HandleTriggers(s.d.meta, s.d.spec, s.d.status, now) == StartRetry(s.d.meta, s.d.spec, nonce, now);
  }

  /**
    An upgrade request that is not handled starts an upgrade to the version after its first bar, if
    that is not the version in the spec. If it is, a retry starts and the request stays.
  */
  lemma {:induction false} UpgradeRequest(s: Sys, nonce: string, target: string, now: int)
    requires AtRequests(s) && AsksFor(s.d.meta.upgradeRequest, nonce, target) && Unhandled(s, Upgrade, nonce)
    ensures var t := Apply(s, RunTriggers(now));
            && t.d.meta.rollbackRequest == s.d.meta.rollbackRequest
            && if target != (if s.d.spec.blueprint.Some? then s.d.spec.blueprint.value.version else "")
               then
                 && Consumes(s, t, HandledId(Upgrade, nonce))
                 && t.accepted == s.accepted + [Accept(HandledId(Upgrade, nonce), t.d.meta.journal)]
                 && t.d.meta.upgradeRequest == "" && t.d.meta.retryRequest == s.d.meta.retryRequest
                 && ChangesVersion(s, t, Upgrade, nonce, target, None, now)
               else
                 && Consumes(s, t, HandledId(Retry, nonce))
                 && t.d.meta.upgradeRequest == s.d.meta.upgradeRequest && t.d.meta.retryRequest == ""
                 && Retries(s, t, nonce, now)
  {
    RequestText(nonce, target);
    if target == Version(s.d.spec) {
      UpgradeToSame(s, nonce, now);
    } else {
      UpgradeToOther(s, nonce, target, now);
    }
  }

  /** A retry request that is not handled and not hidden by another starts a retry at the next epoch. */
  lemma {:induction false} RetryRequest(s: Sys, now: int)
    requires AtRequests(s) && NoOtherRequest(s, Retry) && s.d.meta.retryRequest != ""
    requires Unhandled(s, Retry, s.d.meta.retryRequest)
    ensures var t, nonce := Apply(s, RunTriggers(now)), s.d.meta.retryRequest;
            && Consumes(s, t, HandledId(Retry, nonce)) && Retries(s, t, nonce, now)
            && t.accepted == s.accepted + [Accept(HandledId(Retry, nonce), t.d.meta.journal)]
            && t.d.meta.upgradeRequest == t.d.meta.rollbackRequest == t.d.meta.retryRequest == ""
  {
    Remembered(s.d.meta.handled, HandledId(Retry, s.d.meta.retryRequest));
  }

  /** A pass goes on to the status exactly if there is no request, or the first in order is handled. */
  lemma {:induction false} NothingToStart(s: Sys, now: int)
    requires AtRequests(s)
    ensures PassesOn(s, Apply(s, RunTriggers(now))) <==>
              var m := s.d.meta;
              if m.upgradeRequest != "" then HandledId(Upgrade, Nonce(m.upgradeRequest)) in m.handled
              else if m.rollbackRequest != "" then HandledId(Rollback, m.rollbackRequest) in m.handled
              else m.retryRequest != "" ==> HandledId(Retry, m.retryRequest) in m.handled
  {
  }

  /** A pass over a stale copy changes nothing: it goes on, or its write fails and ends it. */
  lemma {:induction false} StaleRequest(s: Sys, now: int)
    requires s.pc == AtTriggers && !Fresh(s)
    ensures var t := Apply(s, RunTriggers(now)); t.d == s.d && t.accepted == s.accepted && t.pc in {Idle, AtStatus}
  {
  }

  // ---- When an operation ends ------------------------------------------------------------------------------

  /** A pass about to judge this operation, over the stored object. */
  predicate Judges(s: Sys, op: Operation) {
    Inv(s) && s.pc == AtDecision && Fresh(s) && s.d.meta.journal == Some(op) && op.state == InProgress
  }

  predicate SomeCellFailed(status: Status) { exists i :: 0 <= i < |status.cells| && status.cells[i].phase == Failed }

  /** The end an evaluation journals, by whether the operation has reached its goal. */
  predicate EndsAs(s: Sys, op: Operation, reached: bool, now: int, end: Operation) {
    && end == op.(state := end.state, reason := end.reason)
    && (end.state == Superseded <==> op.intent != IntentOf(s.d.spec))
    && (end.state == Succeeded <==> op.intent == IntentOf(s.d.spec) && reached)
    && (end.state == InProgress <==>
          op.intent == IntentOf(s.d.spec) && !reached && !SomeCellFailed(s.d.status)
          && now - op.requestedAt <= OPERATION_DEADLINE)
    && end.reason == (if end.state == OpFailed && !SomeCellFailed(s.d.status) then "TimedOut" else op.reason)
  }

  lemma {:induction false} CellFailed(status: Status)
    ensures AnyFailed(status) <==> SomeCellFailed(status)
  {
    if c :| c in status.cells && c.phase == Failed {
      var i :| 0 <= i < |status.cells| && status.cells[i] == c;
    }
    if i :| 0 <= i < |status.cells| && status.cells[i].phase == Failed {
      assert status.cells[i] in status.cells;
    }
  }

  /**
    A retry succeeds exactly if its intent stands, the workload runs and Fleet has settled on its
    epoch; it goes on exactly if it has not and no cell has failed and its deadline is ahead.
  */
  lemma {:induction false} RetryEndsIff(s: Sys, op: Operation, settled: bool, now: int)
    requires Judges(s, op) && op.typ == Retry
    ensures var journal := Apply(s, Evaluate(settled, now)).d.meta.journal;
            && journal.Some?
            && EndsAs(s, op, s.d.status.phase == PhaseRunning && settled, now, journal.value)
  {
    CellFailed(s.d.status);
    DecideStep(s, settled, now);
  }

  /**
    An upgrade succeeds exactly if its intent stands and the deployed version is its target, failed
    cells or not; it goes on exactly if it is not, no cell has failed and its deadline is ahead.
  */
  lemma {:induction false} UpgradeEndsIff(s: Sys, op: Operation, settled: bool, now: int)
    requires Judges(s, op) && op.typ == Upgrade
    ensures var journal := Apply(s, Evaluate(settled, now)).d.meta.journal;
            && journal.Some?
            && EndsAs(s, op, s.d.status.deployed.Some? && s.d.status.deployed.value.version == op.target,
                      now, journal.value)
  {
    CellFailed(s.d.status);
    DecideStep(s, settled, now);
  }

  // ---- Intents and projection --------------------------------------------------------------------------------

  /** The blueprint a spec names; one that names none counts as one without name and version. */
  function Named(spec: Spec): Blueprint { if spec.blueprint.Some? then spec.blueprint.value else Blueprint("", "") }

  /** Two specs have one intent exactly if they agree in all but bundle names and the order of clusters. */
  lemma {:induction false} SameIntentIff(a: Spec, b: Spec)
    ensures IntentOf(a) == IntentOf(b) <==>
              && Named(a) == Named(b) && a.namespace == b.namespace && a.strategy == b.strategy
              && multiset(a.clusters) == multiset(b.clusters)
  {
  }

  /** What a status write shows of operations: the journal; without one, a finished record of another intent goes. */
  lemma {:induction false} ShownOperation(s: Sys)
    requires Inv(s) && s.pc.AtPersist? && Fresh(s)
    ensures var t := Apply(s, PersistStatus);
            && t.d.meta == s.d.meta && t.d.spec == s.d.spec && t.d.rv == s.d.rv + 1
            && t.d.status == s.w.status.(active := t.d.status.active)
            && (s.d.meta.journal.Some? ==> t.d.status.active == s.d.meta.journal)
            && (s.d.meta.journal.None? ==>
                  t.d.status.active ==
                    if s.d.status.active.Some? && s.d.status.active.value.intent != IntentOf(s.d.spec)
                    then None else s.d.status.active)
            && t.pc == (if s.pc.last then Idle else AtDecision)
  {
  }

  // ---- Writes ------------------------------------------------------------------------------------------------

  /** The controller's step is a write of the stored object. */
  predicate Writes(s: Sys, e: Event) {
    || (e.InnerUpdate? && s.pc == AtStatus) || (e.PersistStatus? && s.pc.AtPersist?)
    || (e.ProjectTerminal? && s.pc.AtProjection?) || (e.ClearJournal? && s.pc.AtClearing?)
  }

  /** A write over a stale copy is refused and ends the pass; one that is accepted moves the version by one. */
  lemma {:induction false} ConflictEndsPass(s: Sys, e: Event)
    requires Inv(s) && Writes(s, e)
    ensures !Fresh(s) ==> Apply(s, e) == s.(pc := Idle)
    ensures Fresh(s) ==> Apply(s, e).d.rv == s.d.rv + 1 && Apply(s, e).w == Apply(s, e).d
  {
  }

  /** Bundle names, requests and edits change what they name and nothing else, and each moves the version by one. */
  lemma {:induction false} SmallWrites(s: Sys, names: seq<string>, spec: Spec, value: string)
    requires Inv(s) && s.pc == AtStatus && Fresh(s) && value != ""
    ensures Apply(s, InnerUpdate(names)).d ==
            s.d.(rv := s.d.rv + 1, spec := s.d.spec.(bundleNames := names))
    ensures Apply(s, EditSpec(spec)) == s.(d := s.d.(rv := s.d.rv + 1, spec := spec))
    ensures Apply(s, ApiRequest(Upgrade, value)).d == s.d.(rv := s.d.rv + 1, meta := s.d.meta.(upgradeRequest := value))
    ensures Apply(s, ApiRequest(Rollback, value)).d == s.d.(rv := s.d.rv + 1, meta := s.d.meta.(rollbackRequest := value))
    ensures Apply(s, ApiRequest(Retry, value)).d == s.d.(rv := s.d.rv + 1, meta := s.d.meta.(retryRequest := value))
  {
  }

  // ---- What a pass works out --------------------------------------------------------------------------------

  /** How a failure shows over this status, in a workload of this age. */
  function FailureShown(status: Status, age: int): Phase {
    if status.phase in {PhasePending, PhaseUnknown} && age < 300 then PhasePending else PhaseFailed
  }

  /** Every key's bundle rolled out where it is to be, as the certification reads it. */
  predicate AllRolledOut(p: Pass) {
    && p.view.keys != []
    && forall k :: k in p.view.keys ==>
         k.expected > 0 && RolledOutOn(p.again, (k.workspace, k.name), DigestOf(p.view.digests, k), k.expected)
  }

  /** A status with the matrix of this pass, and its version as deployed if the pass certifies. */
  predicate TakesMatrix(spec: Spec, status: Status, t: Status, p: Pass, certifies: bool) {
    && t.cells == p.cells && t.baselines == p.view.baselines
    && t.phase == (if PhaseOf(p.cells) == PhaseFailed then FailureShown(status, p.age) else PhaseOf(p.cells))
    && t.deployed ==
         (if certifies && AllRolledOut(p)
          then Some(Snapshot(if spec.blueprint.Some? then spec.blueprint.value.version else "",
                             Entries(p.view.keys, p.view.digests)))
          else status.deployed)
  }

  /**
    What a pass works out, by how far it gets. Without a source nothing changes. One that stops or is
    deferred before the matrix keeps cells and deployed version, and shows a failure if it found one.
    One with a matrix takes it, and the deployed version moves exactly if every bundle is rolled out.
  */
  lemma {:induction false} ObservedStatus(spec: Spec, status: Status, report: Report)
    ensures var t := Observe(spec, status, report);
            && t.active == status.active
            && match report
               case NoSource => t == status
               case Stopped(age, baselines) =>
                 t == status.(phase := FailureShown(status, age), baselines := baselines)
               case Deferred(None, baselines, None, _) => t == status.(baselines := baselines)
               case Deferred(Some(age), baselines, None, _) =>
                 t == status.(phase := FailureShown(status, age), baselines := baselines)
               case Deferred(_, _, Some(p), certified) => TakesMatrix(spec, status, t, p, certified)
               case Completed(p) => TakesMatrix(spec, status, t, p, true)
  {
    match report {
      case Deferred(_, _, Some(p), _) => CertifiedExactly(p.again, p.view.keys, p.view.digests);
      case Completed(p) => CertifiedExactly(p.again, p.view.keys, p.view.digests);
      case _ =>
    }
  }
}

/**
  Which requests become operations, over whole runs of the protocol: a request id is accepted at
  most once in any eight, every retry gets a larger epoch, and a terminal state that was journaled
  stays. An upgrade to the version already in the spec is the exception to all three.
*/
module Accepts {
  import opened Strings
  import opened Journal
  import Fleet
  import opened Protocol

  function Ids(accepted: seq<Accept>): seq<string> {
    seq(|accepted|, i requires 0 <= i < |accepted| => accepted[i].id)
  }

  predicate IsRetry(a: Accept) { a.op.Some? && a.op.value.typ == Retry }

  /** Retries accepted later have larger epochs, and none is above the epoch stored now. */
  predicate EpochsRise(accepted: seq<Accept>, epoch: int) {
    && (forall i :: 0 <= i < |accepted| && IsRetry(accepted[i]) ==> accepted[i].op.value.epoch <= epoch)
    && forall i, j :: 0 <= i < j < |accepted| && IsRetry(accepted[i]) && IsRetry(accepted[j]) ==>
         accepted[i].op.value.epoch < accepted[j].op.value.epoch
  }

  predicate History(s: Sys) {
    && s.d.meta.handled == Window(Ids(s.accepted))
    && Spaced(Ids(s.accepted))
    && EpochsRise(s.accepted, s.d.meta.epoch)
    && forall i :: 0 <= i < |s.accepted| && s.accepted[i].op.Some? ==> OpId(s.accepted[i].op.value) == s.accepted[i].id
  }

  /** What one consumed request does to the metadata. */
  lemma {:induction false} TriggerHistory(meta: Meta, spec: Spec, status: Status, now: int)
    ensures var t := HandleTriggers(meta, spec, status, now);
            t.Commit? ==>
              && t.meta.handled == AddHandled(meta.handled, t.id)
              && (t.op.Some? ==> OpId(t.op.value) == t.id)
              && (t.op.Some? && t.op.value.typ == Retry ==>
                    t.op.value.epoch == t.meta.epoch == meta.epoch + 1)
              && (!(t.op.Some? && t.op.value.typ == Retry) ==> t.meta.epoch == meta.epoch)
              && (!SameVersionUpgrade(meta, spec) ==> !IsHandled(meta.handled, t.id))
  {
  }

  lemma {:induction false} HistoryGrows(s: Sys, a: Accept, meta: Meta)
    requires History(s) && !IsHandled(s.d.meta.handled, a.id)
    requires meta.handled == AddHandled(s.d.meta.handled, a.id) && meta.epoch >= s.d.meta.epoch
    requires a.op.Some? ==> OpId(a.op.value) == a.id
    requires IsRetry(a) ==> a.op.value.epoch == meta.epoch > s.d.meta.epoch
    ensures History(s.(d := s.d.(meta := meta), accepted := s.accepted + [a]))
  {
    WindowSlides(Ids(s.accepted), a.id);
    assert Ids(s.accepted + [a]) == Ids(s.accepted) + [a.id];
  }

  lemma {:induction false} HistoryUntouched(s: Sys, e: Event)
    requires Inv(s) && !e.RunTriggers?
    ensures var t := Apply(s, e);
            t.accepted == s.accepted && t.d.meta.handled == s.d.meta.handled && t.d.meta.epoch == s.d.meta.epoch
  {
  }

  lemma {:induction false} TriggerStepHistory(s: Sys, now: int)
    requires Inv(s) && History(s) && s.pc == AtTriggers && Fresh(s)
    ensures History(TriggerStep(s, now))
  {
    var t := HandleTriggers(s.d.meta, s.d.spec, s.d.status, now);
    TriggerHistory(s.d.meta, s.d.spec, s.d.status, now);
    if t.Commit? {
      if IsHandled(s.d.meta.handled, t.id) {
        assert TriggerStep(s, now).accepted == s.accepted;
      } else {
        HistoryGrows(s, Accept(t.id, t.op), t.meta);
      }
    }
  }

  lemma {:induction false} StepHistory(s: Sys, e: Event)
    requires Inv(s) && History(s)
    ensures History(Apply(s, e))
  {
    if !e.RunTriggers? {
      HistoryUntouched(s, e);
    } else if s.pc == AtTriggers && Fresh(s) {
      TriggerStepHistory(s, e.now);
    }
  }

  lemma {:induction false} RunHistory(s: Sys, events: seq<Event>)
    requires Inv(s) && History(s)
    ensures History(Run(s, events))
    decreases |events|
  {
    if events != [] {
      StepInv(s, events[0]);
      StepHistory(s, events[0]);
      RunHistory(Apply(s, events[0]), events[1..]);
    }
  }

  /**
    In every run, the ids remembered are the last eight accepted, without duplicates; an id is
    accepted again only after eight others; and each retry accepted has a larger epoch than all before.
  */
  lemma {:induction false} AcceptHistory(name: string, spec: Spec, events: seq<Event>)
    ensures var s := Run(Init(name, spec), events);
            var ids := Ids(s.accepted);
            && s.d.meta.handled == Window(ids)
            && (forall i, j :: 0 <= i < j < |s.d.meta.handled| ==> s.d.meta.handled[i] != s.d.meta.handled[j])
            && (forall i, j :: 0 <= i < j < |ids| && ids[i] == ids[j] ==> j - i > 8)
            && |s.d.meta.handled| <= 8
            && EpochsRise(s.accepted, s.d.meta.epoch)
  {
    InitInv(name, spec);
    RunHistory(Init(name, spec), events);
    WindowDistinct(Ids(Run(Init(name, spec), events).accepted));
  }

  /** Outside the exception, starting an operation and accepting its id are one step. */
  lemma {:induction false} EveryStartIsAccepted(s: Sys, now: int)
    requires Inv(s) && s.pc == AtTriggers && Fresh(s) && !SameVersionUpgrade(s.d.meta, s.d.spec)
    ensures var t := HandleTriggers(s.d.meta, s.d.spec, s.d.status, now);
            var after := Apply(s, RunTriggers(now));
            && (t.Commit? ==>
                  && after.accepted == s.accepted + [Accept(t.id, t.op)]
                  && after.d.meta.journal == (if t.op.Some? then t.op else s.d.meta.journal))
            && (t.Ignored? ==> after.accepted == s.accepted && after.d == s.d)
  {
    TriggerHistory(s.d.meta, s.d.spec, s.d.status, now);
    TriggerJournals(s.d.meta, s.d.spec, s.d.status, now);
  }

  /** What a start leaves, of the operation in general and of its kind. */
  predicate StartsAs(t: Trigger, meta: Meta, spec: Spec, now: int, op: Operation) {
    && t.Commit? && t.op == Some(op)
    && t.meta.journal == Some(op) && op.state == InProgress && op.requestedAt == now
    && op.intent == IntentOf(t.spec)
    && (t.spec.blueprint.Some? && op.typ != Retry ==> Version(t.spec) == op.target)
    && (op.typ == Retry ==> t.spec == spec)
    && t.meta.superseded == (if op.typ != Retry && meta.journal.Some? then meta.journal else meta.superseded)
  }

  lemma {:induction false} VersionStart(
    meta: Meta, spec: Spec, kind: OpType, nonce: string, target: string, expected: Option<Fleet.Aggregate>, now: int)
    requires kind != Retry
    ensures var t := StartVersionOp(meta, spec, kind, nonce, target, expected, now);
            t.Commit? && t.op.Some? && StartsAs(t, meta, spec, now, t.op.value)
  {
  }

  lemma {:induction false} RetryStart(meta: Meta, spec: Spec, nonce: string, now: int)
    ensures var t := StartRetry(meta, spec, nonce, now);
            t.Commit? && t.op.Some? && StartsAs(t, meta, spec, now, t.op.value)
  {
  }

  /**
    What a start leaves: the spec at the target and an operation for exactly that spec. An upgrade or
    a rollback keeps the journal it pushes aside; a retry overwrites it without a trace.
  */
  lemma {:induction false} StartEffect(meta: Meta, spec: Spec, status: Status, now: int, op: Operation)
    requires var t := HandleTriggers(meta, spec, status, now); t.Commit? && t.op == Some(op)
    ensures StartsAs(HandleTriggers(meta, spec, status, now), meta, spec, now, op)
  {
    if meta.upgradeRequest != "" {
      var nonce, target := Nonce(meta.upgradeRequest), Target(meta.upgradeRequest);
      RetryStart(meta, spec, nonce, now);
      VersionStart(meta, spec, Upgrade, nonce, target, None, now);
    } else if meta.rollbackRequest != "" {
      var deployed := status.deployed.value;
      VersionStart(meta, spec, Rollback, meta.rollbackRequest, deployed.version, Some(deployed.digest), now);
    } else {
      RetryStart(meta, spec, meta.retryRequest, now);
    }
  }

  // ---- A terminal state stays ------------------------------------------------------------------------

  function Pending(meta: Meta, kind: OpType): string { RequestId(kind, Request(meta, kind)) }

  predicate Asked(meta: Meta, id: string) { exists kind :: Request(meta, kind) != "" && Pending(meta, kind) == id }

  /** Ids in use were issued, and no pending request has the id of the journaled operation. */
  predicate Nonces(s: Sys) {
    && (forall kind :: Request(s.d.meta, kind) != "" ==> Pending(s.d.meta, kind) in s.issued)
    && (s.d.meta.journal.Some? ==>
          OpId(s.d.meta.journal.value) in s.issued && !Asked(s.d.meta, OpId(s.d.meta.journal.value)))
  }

  /** Clients never reuse an id, and no pass sees an upgrade to the version already in the spec. */
  predicate Disciplined(s: Sys, e: Event) {
    match e
    case ApiRequest(kind, value) => value != "" ==> RequestId(kind, value) !in s.issued
    case RunTriggers(_) => s.pc == AtTriggers && Fresh(s) ==> !SameVersionUpgrade(s.d.meta, s.d.spec)
    case _ => true
  }

  ghost predicate DisciplinedRun(s: Sys, events: seq<Event>)
    decreases |events|
  {
    events == [] || (Disciplined(s, events[0]) && DisciplinedRun(Apply(s, events[0]), events[1..]))
  }

  /** The journal can hold nothing else under this operation's id, now or later. */
  predicate Sealed(s: Sys, op: Operation) {
    && Terminal(op) && OpId(op) in s.issued && !Asked(s.d.meta, OpId(op))
    && (s.d.meta.journal.Some? && OpId(s.d.meta.journal.value) == OpId(op) ==> s.d.meta.journal == Some(op))
  }

  lemma {:induction false} KindsApart(kind: OpType, v: string, other: OpType, w: string)
    requires RequestId(kind, v) == RequestId(other, w)
    ensures kind == other
  {
    HandledIdInjective(kind, if kind == Upgrade then Nonce(v) else v, other, if other == Upgrade then Nonce(w) else w);
  }

  lemma {:induction false} ConsumedKind(meta: Meta, spec: Spec, status: Status, now: int) returns (kind: OpType)
    requires !SameVersionUpgrade(meta, spec) && HandleTriggers(meta, spec, status, now).Commit?
    ensures var t := HandleTriggers(meta, spec, status, now);
            && Request(meta, kind) != "" && t.id == Pending(meta, kind) && Request(t.meta, kind) == ""
            && forall other :: other != kind ==> Request(t.meta, other) == Request(meta, other)
  {
    kind := if meta.upgradeRequest != "" then Upgrade else if meta.rollbackRequest != "" then Rollback else Retry;
  }

  /** A consumed request stops being pending, and the others stay as they were. */
  lemma {:induction false} TriggerConsumes(meta: Meta, spec: Spec, status: Status, now: int)
    requires !SameVersionUpgrade(meta, spec)
    ensures var t := HandleTriggers(meta, spec, status, now);
            t.Commit? ==>
              && Asked(meta, t.id) && !Asked(t.meta, t.id)
              && (forall kind :: Request(t.meta, kind) == "" || Request(t.meta, kind) == Request(meta, kind))
  {
    var t := HandleTriggers(meta, spec, status, now);
    if t.Commit? {
      var kind := ConsumedKind(meta, spec, status, now);
      forall other | Request(t.meta, other) != "" && Pending(t.meta, other) == t.id
        ensures false
      {
        KindsApart(kind, Request(meta, kind), other, Request(t.meta, other));
      }
    }
  }

  lemma {:induction false} AskedShrinks(before: Meta, after: Meta, id: string)
    requires forall kind :: Request(after, kind) == "" || Request(after, kind) == Request(before, kind)
    ensures Asked(after, id) ==> Asked(before, id)
  {
  }

  lemma {:induction false} RequestAsks(meta: Meta, kind: OpType, value: string, id: string)
    requires value != ""
    ensures Asked(WithRequest(meta, kind, value), id) ==> Asked(meta, id) || id == RequestId(kind, value)
    ensures forall k :: Request(WithRequest(meta, kind, value), k) == (if k == kind then value else Request(meta, k))
  {
    var m := WithRequest(meta, kind, value);
    if k :| Request(m, k) != "" && Pending(m, k) == id {
      assert k != kind ==> Request(meta, k) == Request(m, k);
    }
  }

  lemma {:induction false} StepNonces(s: Sys, e: Event)
    requires Inv(s) && Nonces(s) && Disciplined(s, e)
    ensures Nonces(Apply(s, e))
  {
    match e {
      case ApiRequest(kind, value) =>
        if value != "" {
          NoncesRequest(s, kind, value);
        }
      case RunTriggers(now) =>
        if s.pc == AtTriggers && Fresh(s) {
          TriggerConsumes(s.d.meta, s.d.spec, s.d.status, now);
          NoncesTrigger(s, now);
        }
      case _ => Untouched(s, e);
    }
  }

  lemma {:induction false} RequestsKept(s: Sys, e: Event)
    requires Inv(s) && !e.ApiRequest? && !e.RunTriggers?
    ensures var t := Apply(s, e);
            t.issued == s.issued && forall kind :: Request(t.d.meta, kind) == Request(s.d.meta, kind)
  {
  }

  lemma {:induction false} JournalKept(s: Sys, e: Event)
    requires Inv(s) && !e.ApiRequest? && !e.RunTriggers?
    ensures var t := Apply(s, e);
            t.d.meta.journal.Some? ==>
              && s.d.meta.journal.Some?
              && OpId(t.d.meta.journal.value) == OpId(s.d.meta.journal.value)
              && (Terminal(s.d.meta.journal.value) ==> t.d.meta.journal == s.d.meta.journal)
  {
    match e {
      case Evaluate(settled, now) =>
        if s.w.meta.journal.Some? {
          DecideKeepsId(s.w.spec, s.w.status, s.w.meta.journal.value, settled, now);
        }
      case _ =>
    }
  }

  lemma {:induction false} DecideKeepsId(spec: Spec, status: Status, op: Operation, settled: bool, now: int)
    ensures OpId(Decide(spec, status, op, settled, now)) == OpId(op)
    ensures Terminal(op) ==> Decide(spec, status, op, settled, now) == op
  {
  }

  /** Steps other than requests and triggers keep the pending requests, and at most end the journal's operation. */
  lemma {:induction false} Untouched(s: Sys, e: Event)
    requires Inv(s) && !e.ApiRequest? && !e.RunTriggers?
    ensures var t := Apply(s, e);
            && t.issued == s.issued
            && (forall kind :: Request(t.d.meta, kind) == Request(s.d.meta, kind))
            && (forall id :: Asked(t.d.meta, id) == Asked(s.d.meta, id))
            && (t.d.meta.journal.Some? ==>
                  && s.d.meta.journal.Some?
                  && OpId(t.d.meta.journal.value) == OpId(s.d.meta.journal.value)
                  && (Terminal(s.d.meta.journal.value) ==> t.d.meta.journal == s.d.meta.journal))
  {
    RequestsKept(s, e);
    JournalKept(s, e);
    forall id
      ensures Asked(Apply(s, e).d.meta, id) == Asked(s.d.meta, id)
    {
      AskedShrinks(s.d.meta, Apply(s, e).d.meta, id);
      AskedShrinks(Apply(s, e).d.meta, s.d.meta, id);
    }
  }

  lemma {:induction false} NoncesRequest(s: Sys, kind: OpType, value: string)
    requires Nonces(s) && value != "" && RequestId(kind, value) !in s.issued
    ensures Nonces(Apply(s, ApiRequest(kind, value)))
  {
    if s.d.meta.journal.Some? {
      RequestAsks(s.d.meta, kind, value, OpId(s.d.meta.journal.value));
    } else {
      RequestAsks(s.d.meta, kind, value, "");
    }
  }

  lemma {:induction false} NoncesTrigger(s: Sys, now: int)
    requires Inv(s) && Nonces(s) && s.pc == AtTriggers && Fresh(s)
    requires var t := HandleTriggers(s.d.meta, s.d.spec, s.d.status, now);
             t.Commit? ==>
               && Asked(s.d.meta, t.id) && !Asked(t.meta, t.id)
               && (forall kind :: Request(t.meta, kind) == "" || Request(t.meta, kind) == Request(s.d.meta, kind))
    ensures Nonces(Apply(s, RunTriggers(now)))
  {
    var t := HandleTriggers(s.d.meta, s.d.spec, s.d.status, now);
    if t.Commit? {
      TriggerHistory(s.d.meta, s.d.spec, s.d.status, now);
      TriggerJournals(s.d.meta, s.d.spec, s.d.status, now);
      var after := Apply(s, RunTriggers(now));
      assert after.d.meta == t.meta;
      if t.meta.journal.Some? {
        AskedShrinks(s.d.meta, t.meta, OpId(t.meta.journal.value));
      }
    }
  }

  lemma {:induction false} StepSealed(s: Sys, e: Event, op: Operation)
    requires Inv(s) && Nonces(s) && Disciplined(s, e) && Sealed(s, op)
    ensures Sealed(Apply(s, e), op)
  {
    match e {
      case ApiRequest(kind, value) =>
        if value != "" {
          RequestAsks(s.d.meta, kind, value, OpId(op));
        }
      case RunTriggers(now) =>
        if s.pc == AtTriggers && Fresh(s) {
          var t := HandleTriggers(s.d.meta, s.d.spec, s.d.status, now);
          TriggerConsumes(s.d.meta, s.d.spec, s.d.status, now);
          TriggerHistory(s.d.meta, s.d.spec, s.d.status, now);
          TriggerJournals(s.d.meta, s.d.spec, s.d.status, now);
          if t.Commit? {
            AskedShrinks(s.d.meta, t.meta, OpId(op));
          }
        }
      case _ => Untouched(s, e);
    }
  }

  lemma {:induction false} RunSealed(s: Sys, events: seq<Event>, op: Operation)
    requires Inv(s) && Nonces(s) && DisciplinedRun(s, events) && Sealed(s, op)
    ensures Sealed(Run(s, events), op)
    decreases |events|
  {
    if events != [] {
      StepInv(s, events[0]);
      StepNonces(s, events[0]);
      StepSealed(s, events[0], op);
      RunSealed(Apply(s, events[0]), events[1..], op);
    }
  }

  lemma {:induction false} RunNonces(s: Sys, events: seq<Event>)
    requires Inv(s) && Nonces(s) && DisciplinedRun(s, events)
    ensures Inv(Run(s, events)) && Nonces(Run(s, events))
    decreases |events|
  {
    if events != [] {
      StepInv(s, events[0]);
      StepNonces(s, events[0]);
      RunNonces(Apply(s, events[0]), events[1..]);
    }
  }

  /** Once an operation is journaled as terminal, no later journal says otherwise about it. */
  lemma {:induction false} TerminalStateStays(name: string, spec: Spec, before: seq<Event>, after: seq<Event>)
    requires DisciplinedRun(Init(name, spec), before) && DisciplinedRun(Run(Init(name, spec), before), after)
    ensures var s := Run(Init(name, spec), before);
            var t := Run(s, after);
            s.d.meta.journal.Some? && Terminal(s.d.meta.journal.value) && t.d.meta.journal.Some?
            && OpId(t.d.meta.journal.value) == OpId(s.d.meta.journal.value)
            ==> t.d.meta.journal == s.d.meta.journal
  {
    InitInv(name, spec);
    RunNonces(Init(name, spec), before);
    var s := Run(Init(name, spec), before);
    if s.d.meta.journal.Some? && Terminal(s.d.meta.journal.value) {
      RunSealed(s, after, s.d.meta.journal.value);
    }
  }

  // ---- The exception: an upgrade to the version already in the spec --------------------------------------

  /** The events of n passes that nothing disturbs, each ending at its trigger. */
  ghost function Passes(s: Sys, n: nat, now: int): Sys
    decreases n
  {
    if n == 0 then s else Passes(Run(s, [Read(s.d), RunTriggers(now)]), n - 1, now)
  }

  lemma {:induction false} TwoSteps(s: Sys, a: Event, b: Event)
    ensures Run(s, [a, b]) == Apply(Apply(s, a), b)
  {
    assert [a, b][1..] == [b] && [b][1..] == [];
    assert Run(Apply(s, a), [b]) == Run(Apply(Apply(s, a), b), []);
  }

  /**
    The request is never consumed: every pass starts the same retry over with a larger epoch, even
    when its journal is terminal, and never reaches the status.
  */
  lemma {:induction false} SameVersionLoop(s: Sys, n: nat, now: int)
    requires s.pc == Idle && SameVersionUpgrade(s.d.meta, s.d.spec)
    ensures var t := Passes(s, n, now);
            && t.pc == Idle && SameVersionUpgrade(t.d.meta, t.d.spec)
            && t.d.meta.upgradeRequest == s.d.meta.upgradeRequest
            && t.d.meta.epoch == s.d.meta.epoch + n
            && t.d.status == s.d.status && t.d.spec == s.d.spec
            && (n > 0 ==>
                  && t.d.meta.journal.Some? && t.d.meta.journal.value.state == InProgress
                  && t.d.meta.journal.value.epoch == t.d.meta.epoch
                  && OpId(t.d.meta.journal.value) == HandledId(Retry, Nonce(s.d.meta.upgradeRequest)))
    decreases n
  {
    if n > 0 {
      var t := Run(s, [Read(s.d), RunTriggers(now)]);
      SameVersionPass(s, now);
      SameVersionLoop(t, n - 1, now);
    }
  }

  lemma {:induction false} SameVersionPass(s: Sys, now: int)
    requires s.pc == Idle && SameVersionUpgrade(s.d.meta, s.d.spec)
    ensures var t := Run(s, [Read(s.d), RunTriggers(now)]);
            && t.pc == Idle && SameVersionUpgrade(t.d.meta, t.d.spec)
            && t.d.meta.upgradeRequest == s.d.meta.upgradeRequest
            && t.d.meta.epoch == s.d.meta.epoch + 1
            && t.d.status == s.d.status && t.d.spec == s.d.spec
            && t.d.meta.journal.Some? && t.d.meta.journal.value.state == InProgress
            && t.d.meta.journal.value.epoch == t.d.meta.epoch
            && OpId(t.d.meta.journal.value) == HandledId(Retry, Nonce(s.d.meta.upgradeRequest))
  {
    TwoSteps(s, Read(s.d), RunTriggers(now));
    SameVersionStart(s.d.meta, s.d.spec, s.d.status, now);
  }

  lemma {:induction false} SameVersionStart(meta: Meta, spec: Spec, status: Status, now: int)
    requires SameVersionUpgrade(meta, spec)
    ensures var t := HandleTriggers(meta, spec, status, now);
            && t.Commit? && SameVersionUpgrade(t.meta, t.spec) && t.spec == spec
            && t.meta.upgradeRequest == meta.upgradeRequest && t.meta.epoch == meta.epoch + 1
            && t.meta.journal.Some? && t.meta.journal.value.state == InProgress
            && t.meta.journal.value.epoch == t.meta.epoch
            && OpId(t.meta.journal.value) == HandledId(Retry, Nonce(meta.upgradeRequest))
  {
    var nonce := Nonce(meta.upgradeRequest);
    HandledIdInjective(Retry, nonce, Upgrade, nonce);
    var trigger := HandleTriggers(meta, spec, status, now);
    assert trigger == StartRetry(meta, spec, nonce, now);
    assert forall x :: x in trigger.meta.handled ==> x in meta.handled || x == HandledId(Retry, nonce);
  }

  /** So a terminal state can be replaced: the retry whose nonce the upgrade repeats starts over. */
  lemma {:induction false} SameVersionReopens(s: Sys, now: int)
    requires s.pc == Idle && SameVersionUpgrade(s.d.meta, s.d.spec)
    requires s.d.meta.journal.Some? && Terminal(s.d.meta.journal.value)
    requires s.d.meta.journal.value.typ == Retry && s.d.meta.journal.value.nonce == Nonce(s.d.meta.upgradeRequest)
    ensures var t := Passes(s, 1, now);
            && t.d.meta.journal.Some? && t.d.meta.journal != s.d.meta.journal
            && OpId(t.d.meta.journal.value) == OpId(s.d.meta.journal.value)
  {
    SameVersionLoop(s, 1, now);
  }

  // ---- A handled upgrade request hides the others ----------------------------------------------------------

  predicate Hidden(meta: Meta) {
    meta.upgradeRequest != "" && IsHandled(meta.handled, HandledId(Upgrade, Nonce(meta.upgradeRequest)))
  }

  predicate NoUpgradeRequest(events: seq<Event>) {
    forall i :: 0 <= i < |events| && events[i].ApiRequest? ==> events[i].kind != Upgrade
  }

  /**
    A replayed upgrade request is ignored but stays in place, and while it does no rollback and no
    retry is accepted, whatever else happens.
  */
  lemma {:induction false} ReplayedUpgradeHidesTheRest(s: Sys, events: seq<Event>)
    requires Inv(s) && Hidden(s.d.meta) && NoUpgradeRequest(events)
    ensures var t := Run(s, events);
            Hidden(t.d.meta) && t.accepted == s.accepted && t.d.meta.epoch == s.d.meta.epoch
    decreases |events|
  {
    if events != [] {
      StepInv(s, events[0]);
      StepHidden(s, events[0]);
      ReplayedUpgradeHidesTheRest(Apply(s, events[0]), events[1..]);
    }
  }

  lemma {:induction false} StepHidden(s: Sys, e: Event)
    requires Inv(s) && Hidden(s.d.meta) && (e.ApiRequest? ==> e.kind != Upgrade)
    ensures var t := Apply(s, e);
            && t.d.meta.upgradeRequest == s.d.meta.upgradeRequest && t.d.meta.handled == s.d.meta.handled
            && t.accepted == s.accepted && t.d.meta.epoch == s.d.meta.epoch
  {
    if e.RunTriggers? && s.pc == AtTriggers && Fresh(s) {
      HiddenIgnores(s.w.meta, s.w.spec, s.w.status, e.now);
    }
  }

  lemma {:induction false} HiddenIgnores(meta: Meta, spec: Spec, status: Status, now: int)
    requires Hidden(meta)
    ensures HandleTriggers(meta, spec, status, now) == Ignored
  {
  }
}

/** The controller's own code, which edits its local copy step by step, against the protocol machine. */
module Reconciler {
  import opened Strings
  import opened Journal
  import opened Fleet
  import opened Protocol

  /** Equal in everything a later step can read: a local copy means nothing once the pass is over. */
  predicate SameSys(a: Sys, b: Sys) {
    && a.d == b.d && a.pc == b.pc && a.accepted == b.accepted && a.issued == b.issued
    && (a.pc != Idle ==> a.w == b.w)
  }

  /** The controller's own steps in one pass; `inner` are main-resource writes made on the way to the status. */
  function PassEvents(copy: Stored, inner: seq<seq<string>>, report: Report, settled: bool, now: int): seq<Event> {
    [Read(copy), RunTriggers(now)] + InnerEvents(inner)
    + StatusEvents(report, settled, now)
  }

  function InnerEvents(inner: seq<seq<string>>): seq<Event> {
    seq(|inner|, i requires 0 <= i < |inner| => InnerUpdate(inner[i]))
  }

  /** What API clients and users do. */
  predicate Foreign(e: Event) { e.ApiRequest? || e.EditSpec? }

  predicate AllForeign(events: seq<Event>) { forall i :: 0 <= i < |events| ==> Foreign(events[i]) }

  predicate ForeignTurns(turns: seq<seq<Event>>) { forall i :: 0 <= i < |turns| ==> AllForeign(turns[i]) }

  function OwnSteps(events: seq<Event>): seq<Event> {
    if events == [] then []
    else
      var front, e := OwnSteps(events[..|events| - 1]), events[|events| - 1];
      if Foreign(e) || e.Crash? then front else front + [e]
  }

  class Controller {
    var server: Stored
    var w: Stored
    ghost var accepted: seq<Accept>
    ghost var issued: set<string>
    ghost var start: Sys            // the machine where the history begins
    ghost var history: seq<Event>   // what has happened since, by whomever
    ghost var prior: seq<Event>     // the history before the current pass
    ghost var own: seq<Event>       // the steps of the current pass so far
    ghost var todo: seq<Event>      // the steps it has before it, if nothing ends it

    constructor (name: string, spec: Spec)
      ensures start == Init(name, spec) && history == [] && Follows(Idle)
    {
      var o := Stored(0, Meta(name, None, None, [], 0, "", "", ""), spec, NO_STATUS);
      server, w, accepted, issued := o, o, [], {};
      start, history, prior, own, todo := Init(name, spec), [], [], [], [];
    }

    ghost function Machine(pc: Pc): Sys
      reads this`server, this`w, this`accepted, this`issued
    {
      Sys(server, pc, w, accepted, issued)
    }

    /** The machine, run over the history, is where this controller and the server are. */
    ghost predicate Follows(pc: Pc)
      reads this
    {
      && SameSys(Machine(pc), Run(start, history))
      && prior <= history && own == OwnSteps(history[|prior|..])
    }

    /** One more event of the history, which took the machine from `before` to the present. */
    ghost method Record(e: Event, before: Sys, pc: Pc)
      requires SameSys(before, Run(start, history)) && SameSys(Machine(pc), Apply(before, e))
      requires prior <= history && own == OwnSteps(history[|prior|..])
      requires Foreign(e) || e.Crash? || (todo != [] && todo[0] == e)
      modifies this`history, this`own, this`todo
      ensures Follows(pc) && history == old(history) + [e]
      ensures if Foreign(e) || e.Crash? then own == old(own) && todo == old(todo)
              else own == old(own) + [e] && todo == old(todo)[1..]
      ensures own + todo == old(own + todo)
    {
      FollowStep(start, history, before, e, Machine(pc));
      OwnGrows(prior, history, e);
      TodoShrinks(own, todo, e);
      history := history + [e];
      if !Foreign(e) && !e.Crash? {
        own, todo := own + [e], todo[1..];
      }
    }

    /** Client.Update: the stored status comes back into the local copy. */
    method Update() returns (ok: bool)
      modifies this`server, this`w
      ensures ok == (old(w.rv) == old(server.rv))
      ensures ok ==> server == Stored(old(server.rv) + 1, old(w.meta), old(w.spec), old(server.status)) && w == server
      ensures !ok ==> server == old(server) && w == old(w)
    {
      ok := w.rv == server.rv;
      if ok {
        server := w.(rv := server.rv + 1, status := server.status);
        w := server;
      }
    }

    /** Client.Status().Update: stored metadata and spec come back into the local copy. */
    method UpdateStatus() returns (ok: bool)
      modifies this`server, this`w
      ensures ok == (old(w.rv) == old(server.rv))
      ensures ok ==>
                server == Stored(old(server.rv) + 1, old(server.meta), old(server.spec), old(w.status)) && w == server
      ensures !ok ==> server == old(server) && w == old(w)
    {
      ok := w.rv == server.rv;
      if ok {
        server := server.(rv := server.rv + 1, status := w.status);
        w := server;
      }
    }

    /** The result of committing a trigger that was computed from this copy. */
    twostate predicate Committed(t: Trigger, ok: bool)
      reads this
    {
      && t.Commit?
      && ok == (old(w.rv) == old(server.rv))
      && (ok ==> server == Stored(old(server.rv) + 1, t.meta, t.spec, old(server.status)) && w == server)
      && (!ok ==> server == old(server))
    }

    method FinishTrigger(kind: OpType, id: string, op: Option<Operation>) returns (ok: bool)
      modifies this`server, this`w
      ensures Committed(Protocol.FinishTrigger(old(w.meta), old(w.spec), kind, id, op), ok)
    {
      var meta := w.meta;
      meta := WithRequest(meta, kind, "");
      meta := meta.(handled := AddHandled(meta.handled, id));
      if op.Some? {
        meta := meta.(journal := op);
      }
      w := w.(meta := meta);
      ok := Update();
    }

    method StartVersionOp(kind: OpType, nonce: string, target: string, expected: Option<Aggregate>, now: int)
      returns (ok: bool)
      modifies this`server, this`w
      ensures Committed(Protocol.StartVersionOp(old(w.meta), old(w.spec), kind, nonce, target, expected, now), ok)
    {
      if w.meta.journal.Some? {
        w := w.(meta := w.meta.(superseded := w.meta.journal));
      }
      if w.spec.blueprint.Some? {
        w := w.(spec := w.spec.(blueprint := Some(w.spec.blueprint.value.(version := target))));
      }
      var op := Operation(kind, nonce, target, expected, 0, now, IntentOf(w.spec), InProgress, "");
      ok := FinishTrigger(kind, HandledId(kind, nonce), Some(op));
    }

    method StartRetry(nonce: string, now: int) returns (ok: bool)
      modifies this`server, this`w
      ensures Committed(Protocol.StartRetry(old(w.meta), old(w.spec), nonce, now), ok)
    {
      var epoch := w.meta.epoch + 1;
      w := w.(meta := w.meta.(epoch := epoch));
      var op := Operation(Retry, nonce, "", None, epoch, now, IntentOf(w.spec), InProgress, "");
      ok := FinishTrigger(Retry, HandledId(Retry, nonce), Some(op));
    }

    /** The trigger step of the machine: handled ends the pass, as does a failed write. */
    method HandleTriggers(now: int) returns (handled: bool, failed: bool)
      modifies this`server, this`w, this`accepted
      ensures !(handled && failed)
      ensures !handled && !failed ==>
                unchanged(this`server, this`w, this`accepted)
                && Protocol.HandleTriggers(w.meta, w.spec, w.status, now).Ignored?
      ensures SameSys(Machine(if handled || failed then Idle else AtStatus),
                      Apply(old(Machine(AtTriggers)), RunTriggers(now)))
    {
      ghost var before := Machine(AtTriggers);
      ghost var t := Protocol.HandleTriggers(w.meta, w.spec, w.status, now);
      TriggerEffect(before, now);
      var ok := true;
      handled, failed := false, false;
      if w.meta.upgradeRequest != "" {
        var nonce, target := Nonce(w.meta.upgradeRequest), Target(w.meta.upgradeRequest);
        if IsHandled(w.meta.handled, HandledId(Upgrade, nonce)) {
          return;
        }
        if target == Version(w.spec) {
          ok := StartRetry(nonce, now);
        } else {
          ok := StartVersionOp(Upgrade, nonce, target, None, now);
        }
        assert Committed(t, ok);
      } else if w.meta.rollbackRequest != "" {
        var nonce, id := w.meta.rollbackRequest, HandledId(Rollback, w.meta.rollbackRequest);
        if IsHandled(w.meta.handled, id) {
          return;
        }
        var deployed := w.status.deployed;
        if deployed.None? || (w.spec.blueprint.Some? && deployed.value.version == w.spec.blueprint.value.version) {
          ok := FinishTrigger(Rollback, id, None);
        } else {
          ok := StartVersionOp(Rollback, nonce, deployed.value.version, Some(deployed.value.digest), now);
        }
        assert Committed(t, ok);
      } else if w.meta.retryRequest != "" {
        if IsHandled(w.meta.handled, HandledId(Retry, w.meta.retryRequest)) {
          return;
        }
        ok := StartRetry(w.meta.retryRequest, now);
        assert Committed(t, ok);
      } else {
        return;
      }
      handled, failed := ok, !ok;
      if ok && !IsHandled(before.d.meta.handled, t.id) {
        accepted := accepted + [Accept(t.id, t.op)];
      }
    }

    method ProjectOperation()
      modifies this`w
      ensures w == old(w).(status := Protocol.ProjectOperation(old(w.meta), old(w.spec), old(w.status)))
    {
      if w.meta.journal.Some? {
        if w.status.active != w.meta.journal {
          w := w.(status := w.status.(active := w.meta.journal));
        }
        return;
      }
      var active := w.status.active;
      if active.Some? && active.value.state != InProgress && active.value.intent != IntentOf(w.spec) {
        w := w.(status := w.status.(active := None));
      }
    }

    /** Whether any cell of the matrix has failed. */
    method AnyCellFailed() returns (failed: bool)
      ensures failed == AnyFailed(w.status)
    {
      var n := 0;
      while n < |w.status.cells|
        invariant 0 <= n <= |w.status.cells|
        invariant forall c :: c in w.status.cells[..n] ==> c.phase != Failed
      {
        assert w.status.cells[..n + 1] == w.status.cells[..n] + [w.status.cells[n]];
        if w.status.cells[n].phase == Failed {
          return true;
        }
        n := n + 1;
      }
      assert w.status.cells[..n] == w.status.cells;
      failed := false;
    }

    /** The pass's one status write; afterwards it either ends or goes on to the operation. */
    method PersistStatus(last: bool) returns (ok: bool)
      modifies this`server, this`w
      ensures SameSys(Machine(if ok && !last then AtDecision else Idle),
                      Apply(old(Machine(AtPersist(last))), Event.PersistStatus))
    {
      ProjectOperation();
      ok := UpdateStatus();
    }

    /** A write of the bundle names, or of an annotation outside this model, on the way to the status. */
    method PopulateBundleNames(names: seq<string>) returns (ok: bool)
      modifies this`server, this`w
      ensures SameSys(Machine(if ok then AtStatus else Idle), Apply(old(Machine(AtStatus)), InnerUpdate(names)))
    {
      w := w.(spec := w.spec.(bundleNames := names));
      ok := Update();
    }

    /** The decision about the journaled operation, journaled in turn if it is an end. */
    method JournalOutcome(settled: bool, now: int) returns (outcome: Option<Operation>)
      modifies this`server, this`w
      ensures SameSys(Machine(if outcome.Some? then AtProjection(outcome.value) else Idle),
                      Apply(old(Machine(AtDecision)), Evaluate(settled, now)))
    {
      EvaluateEffect(Machine(AtDecision), settled, now);
      if w.meta.journal.None? {
        return None;
      }
      var out := Outcome(w.meta.journal.value, settled, now);
      if out.state == InProgress {
        return None;
      }
      w := w.(meta := w.meta.(journal := Some(out)));
      var ok := Update();
      outcome := if ok then Some(out) else None;
    }

    method Outcome(op: Operation, settled: bool, now: int) returns (out: Operation)
      ensures out == Decide(w.spec, w.status, op, settled, now)
    {
      var certified := w.status.deployed.Some? && w.status.deployed.value.version == op.target;
      if op.typ == Retry {
        certified := w.status.phase == PhaseRunning && settled;
      }
      var anyFailed := AnyCellFailed();
      var drift := op.typ == Rollback && RollbackDrift(w.status, op);
      out := OperationOutcome(op, w.spec, certified, anyFailed, drift, now);
    }

    method ProjectOutcome(outcome: Operation) returns (ok: bool)
      modifies this`server, this`w
      ensures SameSys(Machine(if ok then AtClearing(outcome) else Idle),
                      Apply(old(Machine(AtProjection(outcome))), ProjectTerminal))
    {
      w := w.(status := w.status.(active := Some(outcome)));
      ok := UpdateStatus();
    }

    method ClearOutcome(outcome: Operation)
      modifies this`server, this`w
      ensures SameSys(Machine(Idle), Apply(old(Machine(AtClearing(outcome))), ClearJournal))
    {
      w := w.(meta := w.meta.(journal := None));
      var _ := Update();
    }

    /** What API clients and users do between two steps of the pass. */
    method Meanwhile(events: seq<Event>, ghost pc: Pc)
      requires Follows(pc) && AllForeign(events)
      modifies this`server, this`issued, this`history, this`own, this`todo
      ensures Follows(pc) && own == old(own) && todo == old(todo)
    {
      var n := 0;
      while n < |events|
        invariant 0 <= n <= |events|
        invariant Follows(pc) && own == old(own) && todo == old(todo)
      {
        var e := events[n];
        ghost var before := Machine(pc);
        match e {
          case ApiRequest(kind, value) =>
            if value != "" {
              server := Stored(server.rv + 1, WithRequest(server.meta, kind, value), server.spec, server.status);
              issued := issued + {RequestId(kind, value)};
            }
          case EditSpec(spec) => server := Stored(server.rv + 1, server.meta, spec, server.status);
        }
        Record(e, before, pc);
        n := n + 1;
      }
    }

    /** The process is gone, or the pass has ended. */
    ghost method Die(pc: Pc)
      requires Follows(pc)
      modifies this`history, this`own, this`todo
      ensures Follows(Idle) && own == old(own) && todo == old(todo)
    {
      Record(Crash, Machine(pc), Idle);
    }

    // The steps of a pass, each recorded in the history.

    method TriggerStep(now: int) returns (over: bool)
      requires Follows(AtTriggers) && todo != [] && todo[0] == RunTriggers(now)
      modifies this`server, this`w, this`accepted, this`history, this`own, this`todo
      ensures Follows(if over then Idle else AtStatus) && todo == old(todo)[1..] && own + todo == old(own + todo)
    {
      ghost var before := Machine(AtTriggers);
      var handled, failed := HandleTriggers(now);
      over := handled || failed;
      Record(RunTriggers(now), before, if over then Idle else AtStatus);
    }

    method InnerStep(names: seq<string>) returns (ok: bool)
      requires Follows(AtStatus) && todo != [] && todo[0] == InnerUpdate(names)
      modifies this`server, this`w, this`history, this`own, this`todo
      ensures Follows(if ok then AtStatus else Idle) && todo == old(todo)[1..] && own + todo == old(own + todo)
    {
      ghost var before := Machine(AtStatus);
      ok := PopulateBundleNames(names);
      Record(InnerUpdate(names), before, if ok then AtStatus else Idle);
    }

    method ObserveStep(report: Report)
      requires Follows(AtStatus) && todo != [] && todo[0] == ObserveFleet(report)
      modifies this`w, this`history, this`own, this`todo
      ensures Follows(AtPersist(report.Deferred?)) && todo == old(todo)[1..] && own + todo == old(own + todo)
    {
      ghost var before := Machine(AtStatus);
      w := w.(status := Observe(w.spec, w.status, report));
      Record(ObserveFleet(report), before, AtPersist(report.Deferred?));
    }

    method PersistStep(last: bool) returns (ok: bool)
      requires Follows(AtPersist(last)) && todo != [] && todo[0] == Event.PersistStatus
      modifies this`server, this`w, this`history, this`own, this`todo
      ensures Follows(if ok && !last then AtDecision else Idle)
      ensures todo == old(todo)[1..] && own + todo == old(own + todo)
    {
      ghost var before := Machine(AtPersist(last));
      ok := PersistStatus(last);
      Record(Event.PersistStatus, before, if ok && !last then AtDecision else Idle);
    }

    method EvaluateStep(settled: bool, now: int) returns (outcome: Option<Operation>)
      requires Follows(AtDecision) && todo != [] && todo[0] == Evaluate(settled, now)
      modifies this`server, this`w, this`history, this`own, this`todo
      ensures Follows(if outcome.Some? then AtProjection(outcome.value) else Idle)
      ensures todo == old(todo)[1..] && own + todo == old(own + todo)
    {
      ghost var before := Machine(AtDecision);
      outcome := JournalOutcome(settled, now);
      Record(Evaluate(settled, now), before, if outcome.Some? then AtProjection(outcome.value) else Idle);
    }

    method ProjectStep(outcome: Operation) returns (ok: bool)
      requires Follows(AtProjection(outcome)) && todo != [] && todo[0] == ProjectTerminal
      modifies this`server, this`w, this`history, this`own, this`todo
      ensures Follows(if ok then AtClearing(outcome) else Idle)
      ensures todo == old(todo)[1..] && own + todo == old(own + todo)
    {
      ghost var before := Machine(AtProjection(outcome));
      ok := ProjectOutcome(outcome);
      Record(ProjectTerminal, before, if ok then AtClearing(outcome) else Idle);
    }

    method ClearStep(outcome: Operation)
      requires Follows(AtClearing(outcome)) && todo != [] && todo[0] == ClearJournal
      modifies this`server, this`w, this`history, this`own, this`todo
      ensures Follows(Idle) && todo == old(todo)[1..] && own + todo == old(own + todo)
    {
      ghost var before := Machine(AtClearing(outcome));
      ClearOutcome(outcome);
      Record(ClearJournal, before, Idle);
    }

    // A pass, with others at work before each of its steps.

    method ReconcileOperation(settled: bool, now: int, turns: seq<seq<Event>>)
      requires Follows(AtDecision) && ForeignTurns(turns)
      requires todo == [Evaluate(settled, now), ProjectTerminal, ClearJournal]
      modifies this`server, this`w, this`issued, this`history, this`own, this`todo
      ensures Follows(Idle) && own + todo == old(own + todo)
    {
      if |turns| == 0 {
        Die(AtDecision);
        return;
      }
      Meanwhile(turns[0], AtDecision);
      var outcome := EvaluateStep(settled, now);
      if outcome.None? {
        return;
      }
      if |turns| == 1 {
        Die(AtProjection(outcome.value));
        return;
      }
      Meanwhile(turns[1], AtProjection(outcome.value));
      var ok := ProjectStep(outcome.value);
      if !ok {
        return;
      }
      if |turns| == 2 {
        Die(AtClearing(outcome.value));
        return;
      }
      Meanwhile(turns[2], AtClearing(outcome.value));
      ClearStep(outcome.value);
    }

    method InnerTurn(names: seq<string>, turn: seq<Event>, ghost rest: seq<Event>) returns (ok: bool)
      requires Follows(AtStatus) && AllForeign(turn) && todo == [InnerUpdate(names)] + rest
      modifies this`server, this`w, this`issued, this`history, this`own, this`todo
      ensures Follows(if ok then AtStatus else Idle) && todo == rest && own + todo == old(own + todo)
    {
      Meanwhile(turn, AtStatus);
      ok := InnerStep(names);
    }

    /** The inner writes of a pass. */
    method WriteInner(inner: seq<seq<string>>, turns: seq<seq<Event>>, ghost rest: seq<Event>) returns (alive: bool)
      requires Follows(AtStatus) && ForeignTurns(turns) && todo == InnerEvents(inner) + rest
      modifies this`server, this`w, this`issued, this`history, this`own, this`todo
      ensures Follows(if alive then AtStatus else Idle) && own + todo == old(own + todo)
      ensures alive ==> |inner| <= |turns| && todo == rest
    {
      var n := 0;
      while n < |inner|
        invariant 0 <= n <= |inner| && n <= |turns|
        invariant Follows(AtStatus) && own + todo == old(own + todo)
        invariant todo == InnerEvents(inner[n..]) + rest
      {
        if n == |turns| {
          Die(AtStatus);
          return false;
        }
        NextInner(inner, n, rest);
        var ok := InnerTurn(inner[n], turns[n], InnerEvents(inner[n + 1..]) + rest);
        n := n + 1;
        if !ok {
          return false;
        }
      }
      return true;
    }

    /** The status part of a pass: what reconciling came to, the write, and the operation. */
    method ReconcileStatus(report: Report, settled: bool, now: int, turns: seq<seq<Event>>)
      requires Follows(AtStatus) && ForeignTurns(turns) && todo == StatusEvents(report, settled, now)
      modifies this`server, this`w, this`issued, this`history, this`own, this`todo
      ensures Follows(Idle) && own + todo == old(own + todo)
    {
      if |turns| == 0 {
        Die(AtStatus);
        return;
      }
      Meanwhile(turns[0], AtStatus);
      ObserveStep(report);
      if |turns| == 1 {
        Die(AtPersist(report.Deferred?));
        return;
      }
      Meanwhile(turns[1], AtPersist(report.Deferred?));
      var ok := PersistStep(report.Deferred?);
      if !ok || report.Deferred? {
        return;
      }
      ReconcileOperation(settled, now, turns[2..]);
    }

    /**
      One pass over a copy that may be stale. Before its second and each later step API clients and
      users do what the next turn says; when there is no next turn the process dies there.
    */
    method Reconcile(
      copy: Stored, inner: seq<seq<string>>, report: Report, settled: bool, now: int, turns: seq<seq<Event>>)
      requires Follows(Idle) && (copy == server || copy.rv < server.rv) && ForeignTurns(turns)
      modifies this
      ensures Follows(Idle) && start == old(start) && prior == old(history)
      ensures own + todo == PassEvents(copy, inner, report, settled, now)
    {
      PassEventsParts(copy, inner, report, settled, now);
      BeginPass(copy, PassEvents(copy, inner, report, settled, now));
      if |turns| == 0 {
        Die(AtTriggers);
        return;
      }
      var over := TriggerTurn(now, turns[0]);
      if !over {
        ReconcileRest(inner, report, settled, now, turns[1..]);
      }
    }

    method TriggerTurn(now: int, turn: seq<Event>) returns (over: bool)
      requires Follows(AtTriggers) && AllForeign(turn) && todo != [] && todo[0] == RunTriggers(now)
      modifies this`server, this`w, this`accepted, this`issued, this`history, this`own, this`todo
      ensures Follows(if over then Idle else AtStatus) && todo == old(todo)[1..] && own + todo == old(own + todo)
    {
      Meanwhile(turn, AtTriggers);
      over := TriggerStep(now);
    }

    method ReconcileRest(inner: seq<seq<string>>, report: Report, settled: bool, now: int, turns: seq<seq<Event>>)
      requires Follows(AtStatus) && ForeignTurns(turns)
      requires todo == InnerEvents(inner) + StatusEvents(report, settled, now)
      modifies this`server, this`w, this`issued, this`history, this`own, this`todo
      ensures Follows(Idle) && own + todo == old(own + todo)
    {
      var alive := WriteInner(inner, turns, StatusEvents(report, settled, now));
      if alive {
        ReconcileStatus(report, settled, now, turns[|inner|..]);
      }
    }

    method BeginPass(copy: Stored, ghost steps: seq<Event>)
      requires Follows(Idle) && (copy == server || copy.rv < server.rv)
      requires steps != [] && steps[0] == Read(copy)
      modifies this`w, this`history, this`own, this`todo, this`prior
      ensures Follows(AtTriggers) && prior == old(history)
      ensures own + todo == steps && todo == steps[1..]
    {
      ghost var before := Machine(Idle);
      prior, own, todo := history, [], steps;
      w := copy;
      Record(Read(copy), before, AtTriggers);
    }
  }

  lemma {:induction false} PassEventsParts(
    copy: Stored, inner: seq<seq<string>>, report: Report, settled: bool, now: int)
    ensures var all := PassEvents(copy, inner, report, settled, now);
            && |all| >= 2 && all[0] == Read(copy) && all[1..][0] == RunTriggers(now)
            && all[1..][1..] == InnerEvents(inner) + StatusEvents(report, settled, now)
  {
  }

  lemma {:induction false} NextInner(inner: seq<seq<string>>, n: nat, rest: seq<Event>)
    requires n < |inner|
    ensures InnerEvents(inner[n..]) + rest == [InnerUpdate(inner[n])] + (InnerEvents(inner[n + 1..]) + rest)
  {
    assert InnerEvents(inner[n..]) == [InnerUpdate(inner[n])] + InnerEvents(inner[n + 1..]);
  }

  function StatusEvents(report: Report, settled: bool, now: int): seq<Event> {
    [ObserveFleet(report), PersistStatus, Evaluate(settled, now), ProjectTerminal, ClearJournal]
  }

  lemma {:induction false} TriggerEffect(s: Sys, now: int)
    requires s.pc == AtTriggers
    ensures var t, u := HandleTriggers(s.w.meta, s.w.spec, s.w.status, now), Apply(s, RunTriggers(now));
            if t.Ignored? then u == s.(pc := AtStatus)
            else if !Fresh(s) then u == s.(pc := Idle)
            else
              var o := Stored(s.d.rv + 1, t.meta, t.spec, s.d.status);
              u == Sys(o, Idle, o, s.accepted + (if IsHandled(s.d.meta.handled, t.id) then [] else [Accept(t.id, t.op)]),
                       s.issued)
  {
  }

  lemma {:induction false} EvaluateEffect(s: Sys, settled: bool, now: int)
    requires s.pc == AtDecision
    ensures var t := Apply(s, Evaluate(settled, now));
            if s.w.meta.journal.None? then t == s.(pc := Idle)
            else
              var out := Decide(s.w.spec, s.w.status, s.w.meta.journal.value, settled, now);
              if !Terminal(out) || !Fresh(s) then t == s.(pc := Idle)
              else
                var o := Stored(s.d.rv + 1, s.w.meta.(journal := Some(out)), s.w.spec, s.d.status);
                t == s.(d := o, w := o, pc := AtProjection(out))
  {
  }

  lemma {:induction false} OwnGrows(prior: seq<Event>, history: seq<Event>, e: Event)
    requires prior <= history
    ensures prior <= history + [e]
    ensures OwnSteps((history + [e])[|prior|..]) ==
            OwnSteps(history[|prior|..]) + if Foreign(e) || e.Crash? then [] else [e]
  {
    var now := (history + [e])[|prior|..];
    assert now[..|now| - 1] == history[|prior|..] && now[|now| - 1] == e;
  }

  lemma {:induction false} TodoShrinks(own: seq<Event>, todo: seq<Event>, e: Event)
    ensures todo != [] && todo[0] == e ==> own + [e] + todo[1..] == own + todo
  {
    if todo != [] && todo[0] == e {
      assert todo == [e] + todo[1..];
    }
  }

  /** A local copy that means nothing cannot be read by the next step either. */
  lemma {:induction false} SameStep(a: Sys, b: Sys, e: Event)
    requires SameSys(a, b)
    ensures SameSys(Apply(a, e), Apply(b, e))
  {
    if a.pc != Idle {
      assert a == b;
    }
  }

  lemma {:induction false} FollowStep(start: Sys, history: seq<Event>, before: Sys, e: Event, after: Sys)
    requires SameSys(before, Run(start, history)) && SameSys(after, Apply(before, e))
    ensures SameSys(after, Run(start, history + [e]))
  {
    RunAppend(start, history, e);
    SameStep(before, Run(start, history), e);
    SameTrans(after, Apply(before, e), Apply(Run(start, history), e));
  }

  lemma {:induction false} SameTrans(a: Sys, b: Sys, c: Sys)
    requires SameSys(a, b) && SameSys(b, c)
    ensures SameSys(a, c)
  {
  }

  lemma {:induction false} RunAppend(s: Sys, events: seq<Event>, e: Event)
    ensures Run(s, events + [e]) == Apply(Run(s, events), e)
    decreases |events|
  {
    if events == [] {
      assert [e][1..] == [] && events + [e] == [e];
      assert Run(s, [e]) == Run(Apply(s, e), []);
    } else {
      assert (events + [e])[0] == events[0] && (events + [e])[1..] == events[1..] + [e];
      RunAppend(Apply(s, events[0]), events[1..], e);
    }
  }
}

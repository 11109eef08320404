/** Passes of the protocol that nothing disturbs, and what they leave in the stored object. */
module Passes {
  import opened Strings
  import opened Journal
  import opened Fleet
  import opened Protocol

  /** One pass up to its status write. */
  ghost function Persisted(s: Sys, report: Report, now: int): Sys {
    Apply(Apply(Apply(Apply(s, Read(s.d)), RunTriggers(now)), ObserveFleet(report)), PersistStatus)
  }

  ghost function Evaluated(s: Sys, report: Report, settled: bool, now: int): Sys {
    Apply(Persisted(s, report, now), Evaluate(settled, now))
  }

  /** No pass is under way and no request is left to act on. */
  predicate Quiet(s: Sys, now: int) {
    && s.pc == Idle
    && HandleTriggers(s.d.meta, s.d.spec, s.d.status, now) == Ignored
  }

  function NextStatus(o: Stored, report: Report): Status {
    ProjectOperation(o.meta, o.spec, Observe(o.spec, o.status, report))
  }

  lemma {:induction false} QuietStart(s: Sys, now: int)
    requires s.pc == Idle && HandleTriggers(s.d.meta, s.d.spec, s.d.status, now) == Ignored
    ensures Apply(Apply(s, Read(s.d)), RunTriggers(now)) == s.(w := s.d, pc := AtStatus)
  {
    assert Apply(s, Read(s.d)) == s.(w := s.d, pc := AtTriggers);
  }

  lemma {:induction false} ReportStep(s: Sys, report: Report)
    requires s.pc == AtStatus
    ensures Apply(s, ObserveFleet(report)) ==
            s.(w := s.w.(status := Observe(s.w.spec, s.w.status, report)), pc := AtPersist(report.Deferred?))
  {
  }

  lemma {:induction false} PersistStep(s: Sys)
    requires s.pc.AtPersist? && Fresh(s) && s.w.meta == s.d.meta && s.w.spec == s.d.spec
    ensures var t := Apply(s, PersistStatus);
            && t.d == Stored(s.d.rv + 1, s.d.meta, s.d.spec, ProjectOperation(s.d.meta, s.d.spec, s.w.status))
            && t.w == t.d && t.pc == (if s.pc.last then Idle else AtDecision)
            && t.accepted == s.accepted && t.issued == s.issued
  {
  }

  lemma {:induction false} DecideStep(s: Sys, settled: bool, now: int)
    requires s.pc == AtDecision && s.w == s.d && s.d.meta.journal.Some?
    ensures Apply(s, Evaluate(settled, now)).d.meta.journal ==
            Some(Decide(s.d.spec, s.d.status, s.d.meta.journal.value, settled, now))
  {
  }

  lemma {:induction false} QuietPersist(s: Sys, report: Report, now: int)
    requires Quiet(s, now)
    ensures var t := Persisted(s, report, now);
            && t.d == Stored(s.d.rv + 1, s.d.meta, s.d.spec, NextStatus(s.d, report))
            && t.w == t.d && t.pc == (if report.Deferred? then Idle else AtDecision)
  {
    QuietStart(s, now);
    var b := s.(w := s.d, pc := AtStatus);
    ReportStep(b, report);
    PersistStep(Apply(b, ObserveFleet(report)));
  }

  lemma {:induction false} QuietEvaluation(s: Sys, report: Report, settled: bool, now: int)
    requires Quiet(s, now) && !report.Deferred? && s.d.meta.journal.Some?
    ensures var t := Evaluated(s, report, settled, now);
            t.d.meta.journal == Some(Decide(s.d.spec, NextStatus(s.d, report), s.d.meta.journal.value, settled, now))
  {
    QuietPersist(s, report, now);
    DecideStep(Persisted(s, report, now), settled, now);
  }

  /** A whole pass, through the last of its writes. */
  ghost function Finished(s: Sys, report: Report, settled: bool, now: int): Sys {
    Apply(Apply(Evaluated(s, report, settled, now), ProjectTerminal), ClearJournal)
  }

  lemma {:induction false} EndingWrites(s: Sys, settled: bool, now: int)
    requires s.pc == AtDecision && s.w == s.d && s.d.meta.journal.Some?
    requires Terminal(Decide(s.d.spec, s.d.status, s.d.meta.journal.value, settled, now))
    ensures var t := Apply(Apply(Apply(s, Evaluate(settled, now)), ProjectTerminal), ClearJournal);
            && t.pc == Idle && t.d.meta.journal == None
            && t.d.status.active == Some(Decide(s.d.spec, s.d.status, s.d.meta.journal.value, settled, now))
  {
    var out := Decide(s.d.spec, s.d.status, s.d.meta.journal.value, settled, now);
    var e := Apply(s, Evaluate(settled, now));
    assert e.pc == AtProjection(out) && e.w == e.d;
  }

  lemma {:induction false} QuietFinish(s: Sys, report: Report, settled: bool, now: int)
    requires Quiet(s, now) && !report.Deferred? && s.d.meta.journal.Some?
    requires Terminal(Decide(s.d.spec, NextStatus(s.d, report), s.d.meta.journal.value, settled, now))
    ensures var t := Finished(s, report, settled, now);
            && t.pc == Idle && t.d.meta.journal == None
            && t.d.status.active == Some(Decide(s.d.spec, NextStatus(s.d, report), s.d.meta.journal.value, settled, now))
  {
    QuietPersist(s, report, now);
    EndingWrites(Persisted(s, report, now), settled, now);
  }

  /**
    Wherever an earlier pass was cut off after journaling the end of an operation, one undisturbed
    pass shows that same end and clears the journal, whatever the fleet has come to in between.
  */
  lemma {:induction false} CutOffEndIsCompleted(s: Sys, report: Report, settled: bool, now: int)
    requires Quiet(s, now) && !report.Deferred?
    requires s.d.meta.journal.Some? && Terminal(s.d.meta.journal.value)
    ensures var t := Finished(s, report, settled, now);
            t.d.meta.journal == None && t.d.status.active == s.d.meta.journal
  {
    QuietFinish(s, report, settled, now);
  }

  /** Past its deadline an operation ends with the first undisturbed pass. */
  lemma {:induction false} DeadlineIsKept(s: Sys, report: Report, settled: bool, now: int)
    requires Quiet(s, now) && !report.Deferred?
    requires s.d.meta.journal.Some? && now - s.d.meta.journal.value.requestedAt > OPERATION_DEADLINE
    ensures var t := Finished(s, report, settled, now);
            && t.d.meta.journal == None
            && t.d.status.active.Some? && Terminal(t.d.status.active.value)
            && OpId(t.d.status.active.value) == OpId(s.d.meta.journal.value)
  {
    QuietFinish(s, report, settled, now);
  }

  // ---- Passes that never reach the decision ---------------------------------------------------------

  predicate NoRequests(meta: Meta) {
    meta.upgradeRequest == "" && meta.rollbackRequest == "" && meta.retryRequest == ""
  }

  /** Every pass requeues or errs, a repository that is not ready for instance. */
  predicate AllDeferred(events: seq<Event>) {
    forall i :: 0 <= i < |events| && events[i].ObserveFleet? ==> events[i].report.Deferred?
  }

  /** The operation goes on, and no pass is on its way to decide it. */
  predicate Undecided(s: Sys) {
    && s.d.meta.journal.Some? && s.d.meta.journal.value.state == InProgress
    && (s.pc == Idle || s.pc == AtTriggers || s.pc == AtStatus || s.pc == AtPersist(true))
  }

  lemma {:induction false} StepUndecided(s: Sys, e: Event)
    requires Inv(s) && Undecided(s) && (e.ObserveFleet? ==> e.report.Deferred?)
    ensures Undecided(Apply(s, e))
    ensures NoRequests(s.d.meta) && !e.ApiRequest? ==> Apply(s, e).d.meta == s.d.meta
  {
    match e {
      case RunTriggers(now) => TriggerJournals(s.w.meta, s.w.spec, s.w.status, now);
      case _ =>
    }
  }

  /**
    While every pass is deferred no operation ends, however long ago its deadline was; without a new
    request it stays the same one.
  */
  lemma {:induction false} DeferredPassesEndNothing(s: Sys, events: seq<Event>)
    requires Inv(s) && Undecided(s) && AllDeferred(events)
    ensures Undecided(Run(s, events))
    ensures NoRequests(s.d.meta) && (forall i :: 0 <= i < |events| ==> !events[i].ApiRequest?) ==>
              Run(s, events).d.meta.journal == s.d.meta.journal
    decreases |events|
  {
    if events != [] {
      StepInv(s, events[0]);
      StepUndecided(s, events[0]);
      DeferredPassesEndNothing(Apply(s, events[0]), events[1..]);
    }
  }
}

/**
  The bounded waits of the InstallAIExtension reconciler: the release-pending marker, which is an
  annotation that outlives a pass, and the failure backoff, which is read off a condition's stamp.

  Times are nanoseconds. A stamp that reaches the API server is cut to whole seconds.
*/
module Extension {
  import opened Strings

  const SECOND := 1_000_000_000
  const HEALTH_CHECK_INTERVAL := 60 * SECOND
  const MAX_FAILURE_RETRY_INTERVAL := 900 * SECOND
  const PENDING_RELEASE_TIMEOUT := 900 * SECOND
  const PENDING_RELEASE_REQUEUE := 30 * SECOND
  const READINESS_REQUEUE := 10 * SECOND
  const RESOLUTION_RETRY_INTERVAL := 30 * SECOND

  const RELEASE_PENDING := "ReleasePending"
  const RELEASE_PENDING_TIMED_OUT := "ReleasePendingTimedOut"

  datatype Condition = Condition(status: bool, reason: string, since: int)

  /** What EnsureRelease returned. */
  datatype Ensured = StillPending | EnsureFailed | Settled

  /** Where the extension is installed from: a chart that the operator's Helm client pulls, or a git repository. */
  datatype Source = FromHelm | FromGit

  /** What a pass does once the release has settled. */
  datatype Ending = Waits | Fails(reason: string) | Errors | Installs

  /** When a failure recorded above the Helm call is looked at again. */
  datatype Wake = OnlyOnChange | AfterFlatInterval | AfterBackoff

  /** The ways through a pass, on the Helm path and on the Git path alike. */
  datatype Exit =
    | Verdict(reason: string, wake: Wake)   // a failure recorded above the Helm call
    | EarlyError                            // an error returned above the Helm call
    | Reached(ensured: Ensured, ending: Ending)

  /** What a failed install is called. */
  function InstallFailure(source: Source): string { if source == FromHelm then "InstallFailed" else "Failed" }

  /** markerWrite and cleanupWrite are the fates of the pass's two possible annotation writes. */
  datatype PassInput = PassInput(
    now: int, source: Source, exit: Exit, markerWrite: bool, cleanupWrite: bool, statusWrite: bool)

  /** The durable state: the marker annotation and the Ready condition. */
  datatype State = State(marker: Option<int>, ready: Option<Condition>)

  predicate OtherReason(reason: string) { reason != RELEASE_PENDING && reason != RELEASE_PENDING_TIMED_OUT }

  predicate WellFormed(input: PassInput) {
    match input.exit
    case Verdict(reason, _) => OtherReason(reason)
    case Reached(_, Fails(reason)) => OtherReason(reason)
    case _ => true
  }

  function CutToSecond(t: int): (r: int)
    ensures r <= t < r + SECOND
  {
    t - t % SECOND
  }

  /** The start of a wait, if the annotation holds one that is not in the future. */
  function WaitingSince(marker: Option<int>, now: int): Option<int> {
    if marker.Some? && marker.value > now then None else marker
  }

  predicate InReleasePendingWait(ready: Option<Condition>) {
    ready.Some? && !OtherReason(ready.value.reason)
  }

  /** meta.SetStatusCondition: the stamp moves only when the status does. */
  function SetReady(ready: Option<Condition>, status: bool, reason: string, now: int): Option<Condition> {
    Some(Condition(status, reason,
      if ready.Some? && ready.value.status == status then ready.value.since else CutToSecond(now)))
  }

  function FailureRetryInterval(ready: Option<Condition>, now: int): (r: int)
    ensures HEALTH_CHECK_INTERVAL <= r <= MAX_FAILURE_RETRY_INTERVAL
    ensures ready.Some? && HEALTH_CHECK_INTERVAL <= now - ready.value.since <= MAX_FAILURE_RETRY_INTERVAL ==>
              r == now - ready.value.since
  {
    if ready.None? then HEALTH_CHECK_INTERVAL
    else
      var elapsed := now - ready.value.since;
      if elapsed < HEALTH_CHECK_INTERVAL then HEALTH_CHECK_INTERVAL
      else if elapsed > MAX_FAILURE_RETRY_INTERVAL then MAX_FAILURE_RETRY_INTERVAL
      else elapsed
  }

  // ---- What one pass means ----------------------------------------------------------------------

  predicate SawPending(input: PassInput) { input.exit.Reached? && input.exit.ensured == StillPending }

  predicate TimesOut(s: State, input: PassInput) {
    var since := WaitingSince(s.marker, input.now);
    SawPending(input) && since.Some? && input.now - since.value > PENDING_RELEASE_TIMEOUT
  }

  /** The marker write a pass attempts in the Helm step fails, and nothing retries it. */
  predicate MarkerWriteLost(s: State, input: PassInput) {
    && input.exit.Reached? && !input.markerWrite
    && (WaitingSince(s.marker, input.now).None? <==> SawPending(input))
  }

  predicate Aborts(s: State, input: PassInput) {
    || input.exit.EarlyError?
    || (MarkerWriteLost(s, input) && input.exit.ensured != EnsureFailed)
    || (input.exit.Reached? && input.exit.ensured == Settled && input.exit.ending == Errors)
  }

  predicate CleanupLost(s: State, input: PassInput) {
    input.exit.Verdict? && !input.cleanupWrite && WaitingSince(s.marker, input.now).Some?
  }

  /** An error-free pass whose writes all succeeded. */
  predicate Clean(s: State, input: PassInput) {
    !Aborts(s, input) && input.statusWrite && !MarkerWriteLost(s, input) && !CleanupLost(s, input)
  }

  function MarkerAfter(s: State, input: PassInput): Option<int> {
    if MarkerWriteLost(s, input) || CleanupLost(s, input) || input.exit.EarlyError? then s.marker
    else if SawPending(input) then
      if WaitingSince(s.marker, input.now).None? then Some(CutToSecond(input.now)) else s.marker
    else if WaitingSince(s.marker, input.now).None? then s.marker
    else None
  }

  function ReadyAfter(s: State, input: PassInput): Option<Condition> {
    if !input.statusWrite || Aborts(s, input) then s.ready
    else
      match input.exit
      case Verdict(reason, _) => SetReady(s.ready, false, reason, input.now)
      case Reached(StillPending, _) =>
        SetReady(s.ready, false, if TimesOut(s, input) then RELEASE_PENDING_TIMED_OUT else RELEASE_PENDING, input.now)
      case Reached(EnsureFailed, _) => SetReady(s.ready, false, InstallFailure(input.source), input.now)
      case Reached(_, Fails(reason)) => SetReady(s.ready, false, reason, input.now)
      case Reached(_, Installs) => SetReady(s.ready, true, "Installed", input.now)
      case _ => s.ready
  }

  /** When an error-free pass asks to be woken; 0 leaves it to the next change. */
  function NextWake(s: State, input: PassInput): int {
    match input.exit
    case Verdict(_, OnlyOnChange) => 0
    case Verdict(_, AfterFlatInterval) => RESOLUTION_RETRY_INTERVAL
    case Reached(StillPending, _) =>
      if TimesOut(s, input) then FailureRetryInterval(ReadyAfter(s, input), input.now) else PENDING_RELEASE_REQUEUE
    case Reached(Settled, Waits) => READINESS_REQUEUE
    case Reached(Settled, Installs) => HEALTH_CHECK_INTERVAL
    case _ => FailureRetryInterval(ReadyAfter(s, input), input.now)
  }

  function After(s: State, input: PassInput): State { State(MarkerAfter(s, input), ReadyAfter(s, input)) }

  // ---- The reconciler over its local copy and the server's ------------------------------------

  class Reconciler {
    var marker: Option<int>           // the annotation on the local copy
    var ready: Option<Condition>      // the condition on the local copy
    var storedMarker: Option<int>
    var storedReady: Option<Condition>

    constructor ()
      ensures Durable() == State(None, None)
    {
      marker, ready, storedMarker, storedReady := None, None, None, None;
    }

    ghost function Durable(): State
      reads this
    {
      State(storedMarker, storedReady)
    }

    /** A metadata write keeps the status this pass has built up. */
    method UpdateAnnotations(accepted: bool)
      modifies this`storedMarker
      ensures storedMarker == if accepted then marker else old(storedMarker)
    {
      if accepted {
        storedMarker := marker;
      }
    }

    method ClearReleasePending(now: int, accepted: bool) returns (ok: bool)
      modifies this`marker, this`storedMarker
      ensures ok == (WaitingSince(old(marker), now).None? || accepted)
      ensures marker == if WaitingSince(old(marker), now).None? then old(marker) else None
      ensures storedMarker ==
              if WaitingSince(old(marker), now).Some? && accepted then None else old(storedMarker)
    {
      if WaitingSince(marker, now).None? {
        return true;
      }
      marker := None;
      UpdateAnnotations(accepted);
      ok := accepted;
    }

    method SetFailureAndRetry(reason: string, now: int) returns (requeueAfter: int)
      modifies this`ready
      ensures ready == SetReady(old(ready), false, reason, now)
      ensures requeueAfter == FailureRetryInterval(ready, now)
    {
      ready := SetReady(ready, false, reason, now);
      requeueAfter := FailureRetryInterval(ready, now);
    }

    /** handled: the pending release owns the outcome of this pass. */
    method HandlePendingRelease(ensured: Ensured, now: int, accepted: bool)
      returns (requeueAfter: int, handled: bool, error: bool, timedOut: bool)
      modifies this`marker, this`storedMarker, this`ready
      ensures ensured == StillPending ==>
                var since := WaitingSince(old(marker), now);
                && handled
                && timedOut == (since.Some? && now - since.value > PENDING_RELEASE_TIMEOUT)
                && error == (since.None? && !accepted)
                && marker == (if since.None? then Some(CutToSecond(now)) else old(marker))
                && storedMarker == (if since.None? && accepted then marker else old(storedMarker))
                && ready == (if error then old(ready)
                             else SetReady(old(ready), false,
                                           if timedOut then RELEASE_PENDING_TIMED_OUT else RELEASE_PENDING, now))
                && (timedOut ==> requeueAfter == FailureRetryInterval(ready, now))
                && (!timedOut && !error ==> requeueAfter == PENDING_RELEASE_REQUEUE)
      ensures ensured != StillPending ==>
                var failed := WaitingSince(old(marker), now).Some? && !accepted;
                && !handled && !timedOut && ready == old(ready)
                && error == (failed && ensured == Settled)
                && marker == (if WaitingSince(old(marker), now).None? then old(marker) else None)
                && storedMarker ==
                     (if WaitingSince(old(marker), now).Some? && accepted then None else old(storedMarker))
    {
      requeueAfter, timedOut := 0, false;
      if ensured != StillPending {
        var ok := ClearReleasePending(now, accepted);
        // A failed clear must not hide a failed install: only a settled release reports it.
        return 0, false, !ok && ensured == Settled, false;
      }
      var since := WaitingSince(marker, now);
      if since.None? {
        marker := Some(CutToSecond(now));
        UpdateAnnotations(accepted);
        if !accepted {
          return 0, true, true, false;
        }
      } else if now - since.value > PENDING_RELEASE_TIMEOUT {
        requeueAfter := SetFailureAndRetry(RELEASE_PENDING_TIMED_OUT, now);
        return requeueAfter, true, false, true;
      }
      ready := SetReady(ready, false, RELEASE_PENDING, now);
      return PENDING_RELEASE_REQUEUE, true, false, false;
    }

    /** The installation itself, on the local copy, with the marker write it may need. */
    method ReconcileSource(input: PassInput) returns (requeueAfter: int, error: bool)
      requires WellFormed(input) && marker == storedMarker
      modifies this`marker, this`storedMarker, this`ready
      ensures var s := State(old(marker), old(ready));
              && error == Aborts(s, input)
              && ready == ReadyAfter(s, input.(statusWrite := true))
              && storedMarker == (if input.exit.Verdict? then old(marker) else MarkerAfter(s, input))
              && (input.exit.Verdict? ==> marker == old(marker))
              && (!error && !input.exit.Verdict? && !SawPending(input) ==> WaitingSince(marker, input.now).None?)
              && (!error ==> requeueAfter == NextWake(s, input.(statusWrite := true)))
    {
      requeueAfter, error := 0, false;
      match input.exit {
        case Verdict(reason, wake) =>
          match wake {
            case OnlyOnChange => ready := SetReady(ready, false, reason, input.now);
            case AfterFlatInterval =>
              ready := SetReady(ready, false, reason, input.now);
              requeueAfter := RESOLUTION_RETRY_INTERVAL;
            case AfterBackoff => requeueAfter := SetFailureAndRetry(reason, input.now);
          }
        case EarlyError =>
          error := true;
        case Reached(ensured, ending) =>
          var handled, timedOut;
          requeueAfter, handled, error, timedOut := HandlePendingRelease(ensured, input.now, input.markerWrite);
          if !error && !handled {
            if ensured == EnsureFailed {
              requeueAfter := SetFailureAndRetry(InstallFailure(input.source), input.now);
            } else {
              match ending {
                case Waits => requeueAfter := READINESS_REQUEUE;
                case Fails(reason) => requeueAfter := SetFailureAndRetry(reason, input.now);
                case Errors => error := true;
                case Installs =>
                  ready := SetReady(ready, true, "Installed", input.now);
                  requeueAfter := HEALTH_CHECK_INTERVAL;
              }
            }
          }
      }
    }

    /** One request: read, reconcile, drop a marker whose wait is over, persist the status. */
    method ReconcileRequest(input: PassInput) returns (requeueAfter: int, error: bool)
      requires WellFormed(input)
      modifies this
      ensures Durable() == After(old(Durable()), input)
      ensures error == (Aborts(old(Durable()), input) || !input.statusWrite)
      ensures !error ==> requeueAfter == NextWake(old(Durable()), input)
    {
      marker, ready := storedMarker, storedReady;
      requeueAfter, error := ReconcileSource(input);
      if !error && !InReleasePendingWait(ready) {
        var _ := ClearReleasePending(input.now, input.cleanupWrite);
      }
      if input.statusWrite {
        storedReady := ready;
      }
      error := error || !input.statusWrite;
    }
  }

  // ---- The marker over whole runs ---------------------------------------------------------------

  function StateAt(inputs: seq<PassInput>, n: nat): State
    requires n <= |inputs|
  {
    if n == 0 then State(None, None) else After(StateAt(inputs, n - 1), inputs[n - 1])
  }

  predicate Run(inputs: seq<PassInput>) {
    && (forall k :: 0 <= k < |inputs| ==> WellFormed(inputs[k]))
    && forall j, k :: 0 <= j < k < |inputs| ==> inputs[j].now <= inputs[k].now
  }

  predicate FutureStamp(s: State, input: PassInput) { s.marker.Some? && s.marker.value > input.now }

  /**
    After a clean pass the marker is present iff the pass saw the release pending, with one
    exception: a stamp from the future survives a pass that finds the release settled.
  */
  lemma {:induction false} MarkerMeansPending(s: State, input: PassInput)
    requires WellFormed(input) && Clean(s, input)
    ensures (MarkerAfter(s, input).Some? <==> SawPending(input)) <==> SawPending(input) || !FutureStamp(s, input)
  {
  }

  /** The pass that stamped the marker seen before pass n, every clean pass since having seen pending. */
  predicate StampedBy(inputs: seq<PassInput>, m: nat, n: nat, stamp: int)
    requires n <= |inputs|
  {
    && m < n && SawPending(inputs[m]) && stamp == CutToSecond(inputs[m].now)
    && forall k :: m <= k < n && Clean(StateAt(inputs, k), inputs[k]) ==> SawPending(inputs[k])
  }

  lemma {:induction false} MarkerHistory(inputs: seq<PassInput>, n: nat)
    requires Run(inputs) && n <= |inputs|
    ensures var marker := StateAt(inputs, n).marker;
            marker.Some? ==> exists m :: StampedBy(inputs, m, n, marker.value)
    decreases n
  {
    var marker := StateAt(inputs, n).marker;
    if n > 0 && marker.Some? {
      var s, input := StateAt(inputs, n - 1), inputs[n - 1];
      if marker == s.marker {
        MarkerHistory(inputs, n - 1);
        var m :| StampedBy(inputs, m, n - 1, marker.value);
        assert marker.value <= input.now;
        if Clean(s, input) {
          MarkerMeansPending(s, input);
        }
        assert StampedBy(inputs, m, n, marker.value);
      } else {
        assert StampedBy(inputs, n - 1, n, marker.value);
      }
    }
  }

  /**
    A pass that times out rests on a stamp over fifteen minutes old, set by a pass that saw the
    release pending, and no clean pass since has seen anything else.
  */
  lemma {:induction false} TimedOutIsEarned(inputs: seq<PassInput>, n: nat)
    requires Run(inputs) && n < |inputs|
    requires TimesOut(StateAt(inputs, n), inputs[n])
    ensures exists m, stamp ::
              && StampedBy(inputs, m, n, stamp)
              && inputs[n].now - stamp > 900 * SECOND
              && SawPending(inputs[n])
  {
    MarkerHistory(inputs, n);
    var stamp := StateAt(inputs, n).marker.value;
    var m :| StampedBy(inputs, m, n, stamp);
  }

  /** The reason on record names a timeout only where one was earned: other passes never write it. */
  lemma {:induction false} TimedOutIsRecorded(s: State, input: PassInput)
    requires WellFormed(input) && input.statusWrite
    ensures TimesOut(s, input) ==>
              ReadyAfter(s, input).Some? && ReadyAfter(s, input).value.reason == RELEASE_PENDING_TIMED_OUT
    ensures ReadyAfter(s, input) != s.ready && ReadyAfter(s, input).value.reason == RELEASE_PENDING_TIMED_OUT ==>
              TimesOut(s, input)
  {
  }

  /**
    What becomes of the marker, and which passes err, by what was stored before the pass and by the
    fate of its writes: a pending release is stamped once; any other outcome of the Helm call clears
    a stamp that is not in the future, and so does a failure recorded above that call.
  */
  lemma {:induction false} MarkerExactly(s: State, input: PassInput)
    requires WellFormed(input)
    ensures var waiting := s.marker.Some? && s.marker.value <= input.now;
            match input.exit
            case EarlyError => Aborts(s, input) && MarkerAfter(s, input) == s.marker
            case Verdict(_, _) =>
              && !Aborts(s, input)
              && MarkerAfter(s, input) == if waiting && input.cleanupWrite then None else s.marker
            case Reached(StillPending, _) =>
              && (Aborts(s, input) <==> !waiting && !input.markerWrite)
              && (waiting || !input.markerWrite ==> MarkerAfter(s, input) == s.marker)
              && (!waiting && input.markerWrite ==>
                    MarkerAfter(s, input).Some?
                    && input.now - SECOND < MarkerAfter(s, input).value <= input.now
                    && MarkerAfter(s, input).value % SECOND == 0)
            case Reached(ensured, ending) =>
              && (Aborts(s, input) <==> ensured == Settled && ((waiting && !input.markerWrite) || ending == Errors))
              && MarkerAfter(s, input) == if waiting && input.markerWrite then None else s.marker
  {
  }

  /** The condition a pass records, where it errs nowhere and its status is stored. */
  predicate Records(ready: Option<Condition>, status: bool, reason: string) {
    ready.Some? && ready.value.status == status && ready.value.reason == reason
  }

  /**
    Ready is true exactly after a pass that installs. A failure above the Helm call, a failed install
    and a failure once settled are recorded under their own reasons; a pending release under one of
    two; a pass that only waits records nothing. The stamp moves with the status and not otherwise.
  */
  lemma {:induction false} RecordedCondition(s: State, input: PassInput)
    requires WellFormed(input)
    ensures var r := ReadyAfter(s, input);
            if !input.statusWrite || Aborts(s, input) then r == s.ready
            else
              && (match input.exit
                  case Verdict(reason, _) => Records(r, false, reason)
                  case EarlyError => false
                  case Reached(EnsureFailed, _) =>
                    Records(r, false, if input.source == FromGit then "Failed" else "InstallFailed")
                  case Reached(StillPending, _) =>
                    Records(r, false, if TimesOut(s, input) then "ReleasePendingTimedOut" else "ReleasePending")
                  case Reached(Settled, Waits) => r == s.ready
                  case Reached(Settled, Fails(reason)) => Records(r, false, reason)
                  case Reached(Settled, Errors) => false
                  case Reached(Settled, Installs) => Records(r, true, "Installed"))
              && (r.Some? && r != s.ready ==>
                    if s.ready.Some? && s.ready.value.status == r.value.status then r.value.since == s.ready.value.since
                    else input.now - SECOND < r.value.since <= input.now && r.value.since % SECOND == 0)
  {
  }

  /**
    When a pass without error asks to be woken: never for a failure only an edit can change, after
    thirty seconds for a resolution failure or a pending release, after ten while it waits for pods,
    after a minute once installed, and after any other failure between one and fifteen minutes.
  */
  lemma {:induction false} WakeExactly(s: State, input: PassInput)
    requires WellFormed(input) && !Aborts(s, input)
    ensures var wake := NextWake(s, input);
            match input.exit
            case Verdict(_, OnlyOnChange) => wake == 0
            case Verdict(_, AfterFlatInterval) => wake == 30 * SECOND
            case Reached(StillPending, _) =>
              if TimesOut(s, input) then 60 * SECOND <= wake <= 900 * SECOND else wake == 30 * SECOND
            case Reached(Settled, Waits) => wake == 10 * SECOND
            case Reached(Settled, Installs) => wake == 60 * SECOND
            case _ => 60 * SECOND <= wake <= 900 * SECOND
  {
  }

  // ---- Failure backoff -----------------------------------------------------------------------------

  /**
    Passes at times `at`, each recording the same failure and none starting before the requeue
    asked for by the one before it.
  */
  predicate FailureRun(at: seq<int>, before: Option<Condition>, reason: string) {
    && (before.Some? ==> before.value.status)
    && forall k :: 0 <= k < |at| - 1 ==>
         at[k + 1] >= at[k] + FailureRetryInterval(ReadyAt(at, before, reason, k), at[k])
  }

  function ReadyAt(at: seq<int>, before: Option<Condition>, reason: string, k: nat): Option<Condition>
    requires k < |at|
  {
    SetReady(if k == 0 then before else ReadyAt(at, before, reason, k - 1), false, reason, at[k])
  }

  lemma {:induction false} StampStays(at: seq<int>, before: Option<Condition>, reason: string, k: nat)
    requires k < |at| && (before.Some? ==> before.value.status)
    ensures ReadyAt(at, before, reason, k).value.since == CutToSecond(at[0])
    ensures !ReadyAt(at, before, reason, k).value.status
  {
    if k > 0 {
      StampStays(at, before, reason, k - 1);
    }
  }

  function Elapsed(at: seq<int>, k: nat): int
    requires k < |at|
  {
    at[k] - CutToSecond(at[0])
  }

  /** The least time that can have passed before pass k: 0, 1, 2, 4, 8 and 16 minutes, then 15 more each. */
  function Floor(k: nat): nat {
    if k == 0 then 0
    else if k <= 5 then [60, 120, 240, 480, 960][k - 1] * SECOND
    else Floor(k - 1) + MAX_FAILURE_RETRY_INTERVAL
  }

  lemma {:induction false} ElapsedAtLeast(at: seq<int>, before: Option<Condition>, reason: string, k: nat)
    requires FailureRun(at, before, reason) && k < |at|
    ensures Elapsed(at, k) >= Floor(k)
    ensures k >= 5 ==> Floor(k) == 960 * SECOND + (k - 5) * MAX_FAILURE_RETRY_INTERVAL
  {
    if k > 0 {
      ElapsedAtLeast(at, before, reason, k - 1);
      ElapsedGrows(at, before, reason, k - 1);
    }
  }

  /** The next pass comes no earlier than the interval, which is read off the elapsed time. */
  lemma {:induction false} ElapsedGrows(at: seq<int>, before: Option<Condition>, reason: string, k: nat)
    requires FailureRun(at, before, reason) && k + 1 < |at|
    ensures Elapsed(at, k + 1) >= Elapsed(at, k) + HEALTH_CHECK_INTERVAL
    ensures Elapsed(at, k) >= HEALTH_CHECK_INTERVAL ==>
              Elapsed(at, k + 1) >= Elapsed(at, k) + Min(Elapsed(at, k), MAX_FAILURE_RETRY_INTERVAL)
  {
    StampStays(at, before, reason, k);
    assert at[k + 1] >= at[k] + FailureRetryInterval(ReadyAt(at, before, reason, k), at[k]);
  }

  function Min(a: int, b: int): int { if a < b then a else b }

  /** Waiting the elapsed time doubles it, and the intervals never shrink while the failure lasts. */
  lemma {:induction false} BackoffDoubles(at: seq<int>, before: Option<Condition>, reason: string, k: nat)
    requires FailureRun(at, before, reason) && k + 1 < |at|
    ensures var wait := FailureRetryInterval(ReadyAt(at, before, reason, k), at[k]);
            && wait <= FailureRetryInterval(ReadyAt(at, before, reason, k + 1), at[k + 1])
            && (HEALTH_CHECK_INTERVAL <= Elapsed(at, k) <= MAX_FAILURE_RETRY_INTERVAL && at[k + 1] == at[k] + wait ==>
                  Elapsed(at, k + 1) == 2 * Elapsed(at, k))
  {
    StampStays(at, before, reason, k);
    StampStays(at, before, reason, k + 1);
  }

  /** At most 6 + T/900 s passes fit in the first T of a failure. */
  lemma {:induction false} BackoffBoundsPasses(at: seq<int>, before: Option<Condition>, reason: string, t: nat)
    requires FailureRun(at, before, reason) && at != []
    requires Elapsed(at, |at| - 1) <= t
    ensures |at| <= 6 + t / MAX_FAILURE_RETRY_INTERVAL
  {
    ElapsedAtLeast(at, before, reason, |at| - 1);
    if |at| > 6 {
      assert t >= (|at| - 6) * MAX_FAILURE_RETRY_INTERVAL;
    }
  }
}

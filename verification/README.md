# Verification models for the AI factory operator

Dafny models of the decision logic in the `operator/` tree, with proofs. Nothing here runs the
operator. `dafny verify dfyconfig.toml` checks everything.

## What is modelled

**The recovery-operation protocol** (`Journal`, `Protocol`, `Decisions`, `Accepts`, `Passes`, `Outcomes`,
`Failures`, `Reconciler`).
Upgrade, rollback and retry requests are annotations. The controller turns one into a journal entry,
renders, watches Fleet, decides an outcome and finishes with three writes: terminal journal, status
projection, cleared journal. `Protocol` is a machine over one durable object and the controller's
local copy. API clients and users may write at any moment, a pass may read a stale copy, every
controller write is a compare-and-swap on the resource version, and a pass may die between any two
steps. `Decisions` says exactly which request starts what and when an operation ends. `Reconciler` holds the controller's code, which edits its copy in place, and proves that a pass
that others interfere with and that dies anywhere is a run of the machine. `Accepts`, `Outcomes` and
`Failures` prove what holds over all runs.

**Fleet certification and status** (`Fleet`, `Baselines`). Desired keys, the render-gated component
matrix, certification of every bundle, top-level phases, and the baselines a rejection by Fleet is
judged against.

**GitOps publication and cleanup** (`GitPublish`). The publish-hash annotation against the repository,
over runs in which a push or its annotation may be lost; the deletion of what is not desired, on the
same state; and what the two do together when a target is dropped.

**Helm release convergence** (`HelmKeys`, `HelmClient`, `HelmAnswers`, `HelmRuns`). `EnsureRelease` with its
latch and its archive cache: what each call comes to by what storage answers, and whole runs proved
against a client that has no caches, with staleness bounds and a pull rate.

**Smaller cores.** Catalog regeneration (`Entries` for the entries and the label they share, `Catalog`
for the library), the bounded waits and the backoff of the
extension reconciler (`Extension`), the payload budget of chart bundles (`GitChart`), and derived
names (`Naming`).

## Where a documented or intended property fails

Each of these is a lemma, next to one that says when the property does hold.

- An upgrade to the version already in the spec is never consumed. Every pass starts the retry over
  with a larger epoch and never gets to the status (`Accepts.SameVersionLoop`), and a terminal state
  can be reopened (`Accepts.SameVersionReopens`).
- A replayed upgrade request is ignored but stays in place, and hides every rollback and retry until
  another upgrade request arrives (`Accepts.ReplayedUpgradeHidesTheRest`).
- A rollback needs no certification: it succeeds on its first pass while no bundle is current
  (`Outcomes.RollbackNeedsNoCertification`). It can be left waiting if the last certification stored since
  it started is of another version (`Outcomes.RollbackLeftWaiting`); `Outcomes.RollbackEndsIff` says exactly
  when an evaluation ends it.
- The deadline of an operation counts only in a pass that gets as far as the decision. While every pass
  requeues or errs, as with a repository that is not ready, it never ends (`Passes.DeferredPassesEndNothing`).
- A pass that stops early, for a missing blueprint say, judges the operation on the cells of an earlier
  render (`Failures.StoppedPassJudgesOldCells`), and a retry fails at once on the failure it is meant to
  clear (`Failures.RetryFailsOnWhatItRetries`).
- The stored publish hash does not speak for the repository after a push whose annotation was lost, or
  after a deletion (`GitPublish.RevertAfterLostAnnotation`, `GitPublish.DeletedFileStaysDeleted`).
  Cleanup under GitOps deletes the file a still-desired twin shares (`GitPublish.TwinDeletion`): the pass
  that drops the local target publishes every component's file and then deletes it, and no later pass
  brings it back as long as the content stays the same, that is, until something such as a retry's epoch
  changes it (`GitPublish.DroppedLocalTakesEveryFile`).
- The comment on `convergenceTTL` bounds the delay of a re-pushed chart by half an hour. The bound is
  forty minutes and the time of the proving call: a fresh verdict may be proven from a cached archive
  (`HelmRuns.HalfAnHourIsNotEnough`).
- A manifest that cannot be read is meant to force an upgrade. A verdict in the latch hides it
  (`HelmRuns.CachesChangeNothing` says exactly when), and a chart that renders nothing is latched against
  it (`HelmRuns.BlankRenderLatchesUnread`).
- Verdicts are kept by release name without the namespace (`HelmRuns.NamespacesShareVerdicts`).
- `capReleaseName` promises a valid label for any input. Short names pass through untouched
  (`Naming.ShortReleaseNameKept`); `Naming.CapReleaseNameLabel` has the exact condition.
- A pending marker stamped in the future survives a pass that finds the release settled; this needs a
  clock that ran backwards (`Extension.MarkerMeansPending`).
- The generator's README says that an override can add labels and never strip the Supported chip. The list
  is decoded over the one label all entries share, so a list that starts with another code takes the chip
  from every entry (`Entries.PinnedLabelTakesTheChip`), and such entries are never dropped again
  (`Catalog.UnownedStays`). An overrides file is safe exactly when no list starts with another code
  (`Entries.ChipAlwaysKeptIff`). The shared label also makes the derived order show; `Entries.OrderFreeIff`
  has the exact condition on the overrides file.
- An override that pins the repository URL brings order dependence back to the catalog
  (`Catalog.PinnedUrlIsAmbiguous`).

## Assumptions

- Digests and hashes are free of collisions: the model keeps the value that was hashed. A bundle label
  keeps 63 characters of a digest, and lemmas about labels say "label".
- JSON texts are taken as canonical: a non-empty values map is its text, which starts with a brace.
- Of the chart parser, the registry, rendering and stored manifests only what `HelmRuns.Honest`,
  `HelmRuns.Congruent` and `HelmRuns.SteadyBytes` say is used, and each theorem names what it needs.
  `Congruent` includes that rendering does not depend on the number of the new revision. `SteadyBytes`
  includes that credentials and trust settings do not change what comes back, which the code's own
  comment states.
- What reconciling the status came to is an input of the machine (`Report`). Where a theorem needs it, the
  run is `HonestRun`: over the stored object a pass's keys are those of its components on the spec's
  targets, its digests those of their renders, and its matrix one that `Fleet.BuildComponentMatrix` can
  return for some state of Fleet.
- JSON decoding of a pinned list of labels follows Go's encoding/json: elements are decoded in place into
  the slice's memory, keys that an element lacks keep what is there, and a slice that is too short is
  copied.
- Within a pass each object of Fleet is read once for the matrix and bundles once more for certification;
  HelmOps may have changed between taking their baselines and the matrix.
- Character positions count runes in `Slugify` and bytes in truncation, which agree on ASCII.

## Model

| member | source | states |
|---|---|---|
| Protocol.StepInv | operator/internal/controller/aiworkload/aiworkload_controller.go:158-195 | every step of clients, users, the controller and crashes keeps the relation between journal, status and a local copy that is not stale |
| Protocol.StatusNeverOrphaned | operator/internal/controller/aiworkload/operations.go:33-47 | in every run, stored status shows an operation in progress only while a journal exists |
| Protocol.ClearedOnlyOnceProjected | operator/internal/controller/aiworkload/operations.go:220-236 | in every run, the step that removes a journal finds it terminal and finds status holding that same record |
| Journal.HandledIdText | operator/internal/controller/aiworkload/journal.go:39 | a handled id is the operation's type, a bar and the nonce |
| Journal.HandledIdInjective | operator/internal/controller/aiworkload/journal.go:39 | a handled id determines the type of operation and the nonce, whatever characters the nonce has |
| Journal.WindowSlides | operator/internal/controller/aiworkload/journal.go:41-60 | adding an id slides a window of eight over the history, and equal ids stay more than eight apart |
| Journal.WindowDistinct | operator/internal/controller/aiworkload/journal.go:50-60 | the remembered ids have no duplicates |
| Accepts.AcceptHistory | operator/internal/controller/aiworkload/operations.go:53-146 | in every run, the handled list is the duplicate-free last-eight suffix of the accept history, an id recurs only after eight others, and accepted retries have strictly increasing epochs |
| Accepts.EveryStartIsAccepted | operator/internal/controller/aiworkload/operations.go:53-98 | outside the same-version case a pass that acts on a request records its id and starts its operation in one write; one that ignores it changes nothing |
| Accepts.StartEffect | operator/internal/controller/aiworkload/operations.go:101-126 | a start journals an operation in progress for exactly the spec it leaves, at the target version; upgrades and rollbacks keep the journal they push aside, a retry overwrites it |
| Accepts.TriggerConsumes | operator/internal/controller/aiworkload/operations.go:130-146 | the request acted on was pending, stops being so, and no other request changes |
| Decisions.UpgradeRequest | operator/internal/controller/aiworkload/operations.go:56-75 | an upgrade request not yet handled starts an upgrade to the text after its first bar iff that is not the spec's version, and otherwise a retry that leaves the request in place; with the whole new journal, spec and metadata |
| Decisions.RollbackRequest | operator/internal/controller/aiworkload/operations.go:76-87 | a rollback request not yet handled and not hidden starts a rollback to the deployed version, expecting its digest, iff something is deployed and the spec is not at that version; otherwise the request goes and nothing else happens |
| Decisions.RetryRequest | operator/internal/controller/aiworkload/operations.go:89-95 | a retry request not yet handled and not hidden starts a retry at the next epoch |
| Decisions.NothingToStart | operator/internal/controller/aiworkload/operations.go:53-98 | a pass goes on to the status unchanged iff there is no request or the first in order is handled |
| Decisions.StaleRequest | operator/internal/controller/aiworkload/operations.go:130-146 | over a stale copy no request changes anything stored |
| Accepts.TerminalStateStays | operator/internal/controller/aiworkload/operations.go:184-238 | with fresh nonces and no same-version upgrade, a terminal state once journaled is never replaced by another for that operation, in any continuation of any run |
| Accepts.SameVersionLoop | operator/internal/controller/aiworkload/operations.go:70-71 | n passes over a same-version upgrade add n to the epoch, restart the same retry each time, leave the request pending and the status untouched |
| Accepts.SameVersionReopens | operator/internal/controller/aiworkload/operations.go:118-126 | such a pass replaces a terminal journal of that retry by one in progress |
| Accepts.ReplayedUpgradeHidesTheRest | operator/internal/controller/aiworkload/operations.go:56-65 | while a handled upgrade request stands, no run without another upgrade request accepts anything |
| Outcomes.UpgradeSuccessIsCertified | operator/internal/controller/aiworkload/operations.go:152-219 | an upgrade to a version that was not deployed ends Succeeded only if some pass over the stored object after its start had that version in the spec and found every component's bundle, on every target cluster, made from the render expected of it and ready on exactly the clusters it answers for |
| Outcomes.RunningWasServed | operator/internal/controller/aiworkload/blueprint.go:234-249 | stored status says Running only if some pass over the stored object found every component serving on every target cluster of the spec |
| Outcomes.PersistedRunningServes | operator/internal/controller/aiworkload/aiworkload_controller.go:158-195 | whatever others do between a completed pass and its status write, a stored Running is true of the spec stored with it |
| Outcomes.DeployedIsLastCertified | operator/internal/controller/aiworkload/certify.go:104-117 | in every run the deployed version is the one that the last pass to certify one and store its status certified |
| Outcomes.RollbackEndsIff | operator/internal/controller/aiworkload/operations.go:152-219 | an evaluation of a rollback ends it iff the last certification stored since its start, if there was one, is of its target, or the intent has changed, a cell has failed or the deadline is past; and which end that is |
| Decisions.UpgradeEndsIff | operator/internal/controller/aiworkload/operations.go:152-219 | an upgrade succeeds iff its intent stands and the deployed version is its target, failed cells or not; superseded, failed, timed out and still in progress likewise by exact conditions on the status |
| Decisions.RetryEndsIff | operator/internal/controller/aiworkload/operations.go:190-262 | a retry succeeds iff its intent stands, the phase is Running and Fleet has settled on its epoch; its other ends and going on by exact conditions |
| Decisions.ObservedStatus | operator/internal/controller/aiworkload/blueprint.go:90-250 | what each outcome of the status phase does to phase, cells, baselines and deployed version, and that the deployed version moves iff every bundle is rolled out |
| Decisions.SameIntentIff | operator/internal/controller/aiworkload/digest.go:42-61 | two specs have one intent iff they agree in blueprint (none counting as an unnamed one), namespace, strategy and the clusters up to order |
| Decisions.ConflictEndsPass | operator/internal/controller/aiworkload/operations.go:220-237 | a write over a stale copy changes nothing and ends the pass; an accepted one moves the version by one |
| Decisions.SmallWrites | operator/internal/controller/aiworkload/blueprint.go:107-124 | bundle names, requests and edits change what they name and nothing else |
| Decisions.ShownOperation | operator/internal/controller/aiworkload/operations.go:33-47 | a status write changes the operation shown and nothing else: the journal's, or none for a record of another intent |
| Outcomes.RollbackNeedsNoCertification | operator/internal/controller/aiworkload/operations.go:184-219 | a rollback ends Succeeded on its first pass although that pass certifies nothing |
| Outcomes.RollbackLeftWaiting | operator/internal/controller/aiworkload/operations.go:190-213 | certifying another version, a crash and an undone edit leave the rollback in progress |
| Failures.NoFailureFromOldBundles | operator/internal/controller/aiworkload/certify.go:43-64 | from a version change that changes every component's label while the old bundles exist, until Fleet rewrites a label no operation of that intent fails except by its deadline or a rollback's drift, in any run |
| Failures.OrderOfTargets | operator/internal/controller/aiworkload/keys.go:35-67 | keys depend on which clusters are targets and not on their order, as the intent does |
| Failures.StoppedPassJudgesOldCells | operator/internal/controller/aiworkload/blueprint.go:95-104 | a pass over one version stores a failed cell, an upgrade to another version starts, its first pass stops early, and the upgrade fails on that cell |
| Failures.RetryFailsOnWhatItRetries | operator/internal/controller/aiworkload/digest.go:63-82 | a pass stores its matrix, a retry starts, and the next pass finds the same bundles and deployments and takes the baselines of the HelmOps again at the next epoch: the retry fails on it exactly if the cell of some deployment was failed before, or a HelmOp is rejected within that pass after its baseline was taken |
| Passes.CutOffEndIsCompleted | operator/internal/controller/aiworkload/operations.go:220-236 | after a pass cut off once the end was journaled, one undisturbed pass projects that same end and clears the journal |
| Passes.DeadlineIsKept | operator/internal/controller/aiworkload/operations.go:174-219 | past the deadline one undisturbed pass that is not deferred ends the operation, projects it and clears the journal |
| Passes.DeferredPassesEndNothing | operator/internal/controller/aiworkload/aiworkload_controller.go:185-195 | in no run of passes that all requeue or err does an operation end, whatever its deadline |
| Passes.QuietEvaluation | operator/internal/controller/aiworkload/aiworkload_controller.go:158-195 | an undisturbed pass journals the decision for the status it has just written |
| Reconciler.Controller.HandleTriggers | operator/internal/controller/aiworkload/operations.go:53-98 | the code's trigger step is the machine's, stale copies included |
| Reconciler.Controller.StartVersionOp | operator/internal/controller/aiworkload/operations.go:101-115 | saves the outgoing journal, sets the version and commits both with the new journal in one write, or changes nothing on a conflict |
| Reconciler.Controller.StartRetry | operator/internal/controller/aiworkload/operations.go:118-126 | commits the next epoch and a retry journal in one write, or changes nothing |
| Reconciler.Controller.FinishTrigger | operator/internal/controller/aiworkload/operations.go:130-146 | removes the request, records its id and sets the journal if there is one, in one write |
| Reconciler.Controller.ProjectOperation | operator/internal/controller/aiworkload/operations.go:33-47 | status mirrors the journal; without one, a terminal record for another intent is retired and nothing else |
| Reconciler.Controller.JournalOutcome | operator/internal/controller/aiworkload/operations.go:184-226 | the decision is the machine's and is journaled only as an end, or not at all on a conflict |
| Reconciler.Controller.ReconcileOperation | operator/internal/controller/aiworkload/operations.go:184-238 | evaluation, projection and clearing, with others at work before each write, follow the machine wherever they end |
| Reconciler.Controller.Reconcile | operator/internal/controller/aiworkload/aiworkload_controller.go:141-197 | a whole pass over a possibly stale copy, inner writes included, with clients and users at work between its steps and dying anywhere, is a run of the machine whose own steps are the pass's, in order |
| Fleet.DesiredHelmOpKeys | operator/internal/controller/aiworkload/keys.go:29-67 | the keys are, in order and as often as they are, those of each component in each workspace with a target, carrying how many clusters they answer for |
| Fleet.DesiredExactly | operator/internal/controller/aiworkload/keys.go:29-67 | which keys are desired, in terms of the target list: those of the local workspace iff "local" is a target, the others iff anything else is, with their counts |
| Fleet.ExpectDigests | operator/internal/controller/aiworkload/blueprint.go:129-218 | each key's expected digest is that of the last component rendered under its name |
| Fleet.OwnDigest | operator/internal/controller/aiworkload/blueprint.go:195-196 | with distinct bundle names every key is expected to carry its own component's render |
| Fleet.UnitNames | operator/internal/controller/aiworkload/keys.go:21-23 | bundle and release names of a component, where they fit |
| Fleet.LabelOfDigest | operator/internal/controller/aiworkload/digest.go:24-30 | a label is the digest's hexadecimal digits, cut to sixty-three |
| Fleet.CountTargets | operator/internal/controller/aiworkload/keys.go:35-42 | "local" counts once, every other entry counts |
| Fleet.Certify | operator/internal/controller/aiworkload/certify.go:82-119 | an aggregate digest is produced iff there is a desired bundle and each is current, has nothing unavailable and is ready on exactly the expected clusters; it holds every entry |
| Fleet.CertifiedExactly | operator/internal/controller/aiworkload/certify.go:30-43 | certified as a whole iff there is a key and for each one the bundle exists with the render's label, observed as generated, nothing unavailable, and ready and desired both at the expected count |
| Fleet.EntriesExactly | operator/internal/controller/aiworkload/certify.go:93-104 | the aggregate holds the digest of every key and nothing else |
| Fleet.BuildComponentMatrix | operator/internal/controller/aiworkload/blueprint.go:1484-1596 | there is a cell for every deployment under a desired bundle and every expected cluster without one, and no other cell, in order of component and cluster |
| Fleet.DeploymentShows | operator/internal/controller/aiworkload/certify.go:48-65 | each deployment of a desired bundle has its cell, Failed iff the bundle is current, the deployment applied as desired and its state ErrApplied, Running iff the same with Ready or Modified |
| Fleet.CellMeans | operator/internal/controller/aiworkload/blueprint.go:1484-1596 | behind every Running cell there is a deployment that is up, behind every Failed one a failed deployment or a rejection since the baseline |
| Fleet.ExpectedExactly | operator/internal/controller/aiworkload/blueprint.go:1535-1553 | a key answers for the targets of its workspace and no others |
| Fleet.AllTargetsCertified | operator/internal/controller/aiworkload/certify.go:82-119 | certified as a whole, a workload is certified for every component on every target cluster |
| Fleet.SeenCells | operator/internal/controller/aiworkload/blueprint.go:1514-1533 | the cells of one key are those of its deployments, and the clusters seen are theirs |
| Fleet.MissingCells | operator/internal/controller/aiworkload/blueprint.go:1535-1587 | expected clusters not seen get a cell, failed only for a terminal rejection |
| Fleet.PhaseFromCells | operator/internal/controller/aiworkload/aiworkload_controller.go:640-669 | counting gives Running, Pending or Failed iff all cells agree on it, Pending for none, Degraded otherwise |
| Fleet.PhaseExactly | operator/internal/controller/aiworkload/aiworkload_controller.go:640-669 | Running, Pending and Failed iff every cell is, Pending for none, Degraded iff two cells differ |
| Fleet.MissingTargetShows | operator/internal/controller/aiworkload/blueprint.go:1554-1587 | an expected cluster without a deployment always has a cell that is not Running |
| Fleet.RunningIsSound | operator/internal/controller/aiworkload/blueprint.go:1484-1614 | phase Running implies that every component serves on every target cluster in the right workspace, applied as desired, under a bundle whose label and generation are current |
| Fleet.GraceIsBounded | operator/internal/controller/aiworkload/aiworkload_controller.go:678-689 | a failure from the start shows as Pending for the grace period and as Failed from then on |
| Fleet.HeldBackIff | operator/internal/controller/aiworkload/aiworkload_controller.go:678-689 | which derived phase is held back: a failure, in the first five minutes, over Pending or nothing |
| Fleet.StaleCellsPend | operator/internal/controller/aiworkload/certify.go:46-64 | while every desired bundle exists with an earlier label, every cell is Pending |
| Baselines.UpsertRenderBaseline | operator/internal/controller/aiworkload/certify.go:178-190 | only the entry of that HelmOp changes, and only for another digest, epoch or generation; entries stay unique |
| Baselines.PruneRenderBaselines | operator/internal/controller/aiworkload/operations.go:280-289 | exactly the entries of the given UIDs stay, in order of UID |
| Baselines.Reconciles | operator/internal/controller/aiworkload/blueprint.go:1706-1719 | after any history of upserts and prunes the list is unique and says what the history says |
| Baselines.BaselineIsFirstOfTrail | operator/internal/controller/aiworkload/certify.go:171-177 | a HelmOp's baseline is the first observation of the longest trailing run of one attempt, or absent when there is none |
| Baselines.RejectionIsJudgedFromFirst | operator/internal/controller/aiworkload/certify.go:155-169 | a rejection is terminal iff the HelmOp is not accepted now and its condition differs from that first observation |
| GitPublish.Workload.PublishBlueprintGitFile | operator/internal/controller/aiworkload/blueprint.go:1130-1156 | pushes and records unless the recorded hash is the wanted one, under every fate of push and annotation |
| GitPublish.Workload.DeleteGitFileByName | operator/internal/controller/aiworkload/gitops.go:177-194 | removes the file and leaves the recorded hash |
| GitPublish.DefaultBranch | operator/internal/controller/aiworkload/blueprint.go:1138-1141 | an unset branch means main, and any other stays |
| GitPublish.PublicationHashInjective | operator/internal/controller/aiworkload/blueprint.go:1142 | site and content can be read back off what is hashed |
| GitPublish.HashSpeaksForFile | operator/internal/controller/aiworkload/blueprint.go:1130-1156 | over every run, the stored hash is the last completed publish's, and the repository holds its content iff no deletion and no push with a lost annotation hit that file since |
| GitPublish.RevertAfterLostAnnotation | operator/internal/controller/aiworkload/blueprint.go:1142-1155 | a lost annotation followed by the earlier content leaves the abandoned content for any number of passes |
| GitPublish.DeletedFileStaysDeleted | operator/internal/controller/aiworkload/gitops.go:177-194 | a deleted file is never published again while its content stays wanted |
| GitPublish.Workload.CleanupStaleHelmOps | operator/internal/controller/aiworkload/blueprint.go:1632-1692 | removes exactly the owned and undesired HelmOps with their bundles, or under GitOps exactly the files of their names |
| GitPublish.CleanupExactly | operator/internal/controller/aiworkload/blueprint.go:1632-1692 | which HelmOps, bundles, files and labels a cleanup leaves: without GitOps each stale HelmOp goes with its bundle, with it only files of that site by name |
| GitPublish.Workload.ReconcileGitOps | operator/internal/controller/aiworkload/blueprint.go:129-230 | publishes every component's file up to the first failure and cleans up only if none failed |
| GitPublish.OwnedAreLabelled | operator/internal/controller/aiworkload/blueprint.go:1632-1660 | after the backfill, the label finds what was labelled or was unlabelled and known by name |
| GitPublish.TwinDeletion | operator/internal/controller/aiworkload/blueprint.go:1671-1678 | a change of targets deletes the file of a component deployed before and after it exactly if some workspace loses its last target |
| GitPublish.DroppedLocalIsStale | operator/internal/controller/aiworkload/blueprint.go:1632-1678 | dropping the local cluster makes exactly the objects in the local workspace stale and leaves the others desired |
| GitPublish.MissedForGood | operator/internal/controller/aiworkload/blueprint.go:1142-1145 | a deleted file is published by no later pass that wants its content, whatever Fleet and other components do |
| GitPublish.DroppedLocalTakesEveryFile | operator/internal/controller/aiworkload/blueprint.go:1671-1678 | a workload that drops the local cluster loses the file of every component in the same pass, though each is still desired, and for good |
| HelmKeys.FingerprintsMirrorEquality | operator/internal/infra/helm/convergence.go:201-213 | two values maps are equal for the upgrade decision iff both have a fingerprint and it is the same |
| HelmKeys.SpecFingerprintInjective | operator/internal/infra/helm/convergence.go:171-177 | on fields without NUL, equal fingerprints mean the same source and equal values |
| HelmKeys.DeployedFingerprintInjective | operator/internal/infra/helm/convergence.go:193-199 | likewise for chart name, chart version and stored values |
| HelmKeys.ChartCacheKeyInjective | operator/internal/infra/helm/chart_cache.go:80-85 | two cacheable specs share a key iff they share the source |
| HelmKeys.SharedKeyWithNul | operator/internal/infra/helm/chart_cache.go:80-85 | a NUL inside a field makes different sources share a key and a fingerprint |
| HelmClient.Releases.EnsureRelease | operator/internal/infra/helm/action.go:470-577 | outcome, caches, pull count and gauge after a call are those of the specification, for every answer of storage, registry and renderer |
| HelmAnswers.CallAnswers | operator/internal/infra/helm/action.go:408-500 | which outcome a call comes to, with and without caches, by what storage says: installs what is absent, reports what is pending, skips iff version and values agree, otherwise upgrades or finds up to date |
| HelmAnswers.ValuesAgree | operator/internal/infra/helm/action.go:455-468 | values are equal iff both have no entries or both encode to the same text |
| HelmAnswers.DisagreementIsRendered | operator/internal/infra/helm/action.go:532-577 | a disagreeing release with a private chart and no verdict is pulled and rendered, upgraded from a second pull iff the render is not its manifest, and latched otherwise |
| HelmAnswers.VerdictIsServed | operator/internal/infra/helm/action.go:538-556 | with a verdict at hand nothing is pulled and the gauge is raised |
| HelmAnswers.CallTouches | operator/internal/infra/helm/action.go:470-577 | which records each outcome leaves as they were, and that no call touches another release's |
| HelmClient.Releases.ConvergenceHolds | operator/internal/infra/helm/convergence.go:115-137 | holds iff revision and both fingerprints agree and the verdict is at most thirty minutes old |
| HelmClient.Releases.LatchConvergence | operator/internal/infra/helm/convergence.go:139-157 | replaces this release's verdict and no other, and none if a fingerprint is missing |
| HelmAnswers.VerdictCovers | operator/internal/infra/helm/convergence.go:115-157 | a verdict serves exactly the calls for the same source and values that find the same revision, chart, version and values within half an hour |
| HelmClient.Releases.CachedChart | operator/internal/infra/helm/chart_cache.go:101-119 | a live archive that parses is served; one expired or broken is dropped |
| HelmClient.Releases.CacheChart | operator/internal/infra/helm/chart_cache.go:125-138 | keeps exactly the live archives and the new one; an empty archive changes nothing |
| HelmClient.Releases.LoadChartOnce | operator/internal/infra/helm/tls.go:101-128 | pulls iff the cache has no answer, counting before the attempt |
| HelmAnswers.PublicIsCached | operator/internal/infra/helm/chart_cache.go:101-138 | a public chart comes from a live archive without a pull, or from the registry, whose archive is then kept while expired ones go |
| HelmAnswers.PrivateIsPulled | operator/internal/infra/helm/chart_cache.go:80-85 | a chart that needs credentials or trust is pulled every time and never kept |
| HelmClient.Releases.DeleteRelease | operator/internal/infra/helm/action.go:262-294 | drops the verdict and the gauge of that name and leaves the archives |
| HelmAnswers.DeletionForgets | operator/internal/infra/helm/convergence.go:159-161 | deleting forgets that release's verdict and gauge and nothing else |
| HelmRuns.CachesChangeNothing | operator/internal/infra/helm/action.go:470-577 | in one namespace, with steady bytes, each call of each run comes to what a client without caches comes to, down to the chart applied, unless that client could not pull; it differs exactly when a verdict is served over a manifest that cannot be read |
| HelmRuns.BlankRenderLatchesUnread | operator/internal/infra/helm/action.go:557-570 | a chart that renders nothing is latched as up to date against a manifest that could not be read |
| HelmRuns.VerdictCarries | operator/internal/infra/helm/convergence.go:86-93 | a verdict is as true of every spec and stored release its fingerprints cannot tell apart |
| HelmRuns.LoadKeeps | operator/internal/infra/helm/chart_cache.go:101-138 | every chart a load returns is one the registry gave for that source within the cache's lifetime |
| HelmRuns.VerdictIsBoundedlyStale | operator/internal/infra/helm/convergence.go:25-39 | a verdict served at a time rests on bytes pulled at most forty minutes earlier, and twice the time a call may take |
| HelmRuns.HalfAnHourIsNotEnough | operator/internal/infra/helm/convergence.go:35-38 | a run whose verdict at forty minutes rests on no bytes pulled since second 1, while every uncached call since would upgrade |
| HelmRuns.NamespacesShareVerdicts | operator/internal/infra/helm/convergence.go:119-122 | a verdict from one namespace suppresses an upgrade in another |
| HelmRuns.PullsAreApart | operator/internal/infra/helm/action.go:538-574 | for a settled release that disagrees cosmetically, successive pulls are more than convergenceTTL apart |
| HelmRuns.PullRate | operator/internal/infra/helm/action.go:532-574 | so a window of length T holds at most 1 + T/convergenceTTL pulls, however often the release is ensured |
| HelmRuns.GaugeIsDisagreement | operator/internal/infra/helm/action.go:538-571 | after a call that skips or finds the release up to date, latched or not, the gauge says whether it disagrees with its spec |
| HelmRuns.UnencodablePullsEveryTime | operator/internal/infra/helm/convergence.go:163-177 | values that cannot be encoded are never latched, and without the chart cache every call pulls |
| Strings.LessExactly | operator/hack/generate-catalog/merge.go:207-213 | texts are ordered as in a dictionary: by their first difference, a beginning before what it begins |
| Catalog.PreferOverStrict | operator/hack/generate-catalog/merge.go:207-225 | preference is a strict order, total on distinct URLs |
| Catalog.DedupeBySlug | operator/hack/generate-catalog/merge.go:187-201 | the loop over positions computes the deduplication the lemmas are about |
| Catalog.DedupeKeepsBest | operator/hack/generate-catalog/merge.go:183-201 | slugs become unique, none is lost, and each survivor is preferred to by none of its slug |
| Catalog.NimNvidiaWins | operator/hack/generate-catalog/merge.go:203-225 | the entry kept for a slug is from the nim/nvidia repository if any is, and has the smallest address among those that can be |
| Catalog.Generator.SyncNVAIE | operator/hack/generate-catalog/merge.go:89-181 | unknown libraries and bad overrides fail; otherwise the new library, added and removed as the two set differences, and the shared label as the overrides left it |
| Catalog.Generator.Rebuild | operator/hack/generate-catalog/merge.go:118-130 | the loop computes the drafts the lemmas are about and writes through the shared label |
| Catalog.NvidiaExact | operator/hack/generate-catalog/merge.go:107-160 | the library is sorted with unique slugs, keeps every unowned slug not derived, and has no owned slug outside the derived set |
| Catalog.SyncIdempotent | operator/hack/generate-catalog/merge.go:89-181 | a second run on the output with the same inputs changes nothing |
| Catalog.SecondRunInProcess | operator/hack/generate-catalog/merge.go:33-34 | in one process too, if the overrides are settled |
| Catalog.OrderIndependence | operator/hack/generate-catalog/merge.go:118-131 | the result is the same for every order of the input iff no slug has two equally preferred entries |
| Catalog.DistinctUrlsUnambiguous | operator/hack/generate-catalog/merge.go:203-225 | the condition holds when no two different entries share both slug and URL |
| Catalog.SyncOrderIndependent | operator/hack/generate-catalog/merge.go:118-131 | the library does not depend on the order of the derived list, given settled overrides and no ambiguous slug |
| Catalog.PinnedUrlIsAmbiguous | operator/hack/generate-catalog/overrides.go:36-45 | pinning the URL of a slug derived twice breaks the condition |
| Entries.PinnedFields | operator/hack/generate-catalog/overrides.go:36-45 | an override replaces the fields it pins and no others |
| Entries.OwnListExactly | operator/hack/generate-catalog/overrides.go:36-45 | a pinned list of two or more: its elements over the shared label and over blank ones |
| Entries.ChipKept | operator/hack/generate-catalog/merge.go:63-74 | exactly which rebuilt entries carry the Supported chip, in terms of the derived list and the overrides |
| Entries.ChipAlwaysKeptIff | operator/hack/generate-catalog/merge.go:118-130 | whatever NGC lists every entry keeps the chip, iff no list in the overrides file starts with another code |
| Entries.PinnedLabelTakesTheChip | operator/hack/generate-catalog/overrides.go:36-45 | one list pinning one other label replaces the chip of every entry, and doubles it on its own |
| Entries.OrderFreeIff | operator/hack/generate-catalog/merge.go:118-130 | what becomes of an entry never depends on the derived order, iff no list starts with another code and either none changes the shared label or all that do rename it alike while none keeps a copy |
| Catalog.UnownedStays | operator/hack/generate-catalog/merge.go:138-148 | an entry that lost the chip is dropped by no later run |
| Extension.Reconciler.ReconcileRequest | operator/internal/controller/installaiextension/installaiextension_controller.go:272-357 | marker, condition and next wake-up after a pass over every exit of both paths and every fate of its writes |
| Extension.Reconciler.ReconcileSource | operator/internal/controller/installaiextension/installaiextension_controller.go:386-722 | what the installation from a chart or from a git repository leaves in the local copy and in the stored marker, and when it asks to be woken |
| Extension.Reconciler.HandlePendingRelease | operator/internal/controller/installaiextension/installaiextension_controller.go:1173-1231 | stamps once, waits, and times out after fifteen minutes; a settled release clears the stamp |
| Extension.Reconciler.ClearReleasePending | operator/internal/controller/installaiextension/installaiextension_controller.go:1247-1256 | removes a started wait and writes nothing otherwise |
| Extension.MarkerMeansPending | operator/internal/controller/installaiextension/installaiextension_controller.go:342-346 | after a clean pass the marker is present iff the pass saw the release pending, but for a stamp from the future |
| Extension.TimedOutIsEarned | operator/internal/controller/installaiextension/installaiextension_controller.go:1173-1231 | a timeout rests on a stamp over fifteen minutes old set by a pass that saw pending, and every clean pass since saw it too |
| Extension.TimedOutIsRecorded | operator/internal/controller/installaiextension/installaiextension_controller.go:1200-1217 | the reason appears exactly where a pass timed out |
| Extension.MarkerExactly | operator/internal/controller/installaiextension/installaiextension_controller.go:1173-1256 | the marker after a pass, and which passes err, for every exit and every fate of the annotation writes |
| Extension.RecordedCondition | operator/internal/controller/installaiextension/installaiextension_controller.go:852-922 | status and reason of the Ready condition after every exit, and that its stamp moves exactly with its status |
| Extension.WakeExactly | operator/internal/controller/installaiextension/installaiextension_controller.go:386-722 | when a pass without error asks to be woken, for every exit |
| Extension.FailureRetryInterval | operator/internal/controller/installaiextension/installaiextension_controller.go:924-939 | the interval is between one and fifteen minutes, and in between it is the time since the condition's stamp |
| Extension.BackoffDoubles | operator/internal/controller/installaiextension/installaiextension_controller.go:904-939 | intervals do not shrink while a failure lasts, and waiting one out doubles the elapsed time up to the cap |
| Extension.BackoffBoundsPasses | operator/internal/controller/installaiextension/installaiextension_controller.go:904-939 | at most 6 + T/900 s passes happen in the first T of a failure |
| GitChart.ChartTgzToBundleResources | operator/internal/controller/aiworkload/gitchart.go:139-200 | succeeds iff all names are safe, a chart directory shows and the stored sizes fit the budget, then with every file whole; a failure is the first one offline reading meets |
| GitChart.ReadFile | operator/internal/controller/aiworkload/gitchart.go:169-193 | a read limited to the budget plus one byte overruns exactly when the whole file would, and otherwise holds the whole file |
| GitChart.CutReadOverruns | operator/internal/controller/aiworkload/gitchart.go:169-193 | a file cut at the limit overruns the budget exactly as the whole file would |
| GitChart.Base64Length | operator/internal/controller/aiworkload/gitchart.go:180-186 | encoded size is four characters for each group of up to three bytes |
| GitChart.Base64Decodes | operator/internal/controller/aiworkload/gitchart.go:180-186 | the stored text of a binary file decodes to its bytes |
| GitChart.DirectoryExactly | operator/internal/controller/aiworkload/gitchart.go:166-168 | the chart directory is what precedes the first slash |
| GitChart.SafeExactly | operator/internal/controller/aiworkload/gitchart.go:160-165 | a name is refused iff it is absolute or leads upwards |
| GitChart.PayloadIsCost | operator/internal/controller/aiworkload/gitchart.go:176-189 | the budget charges name length plus stored length, four bytes for three where the file is not UTF-8 |
| Naming.SlugifySlug | operator/internal/naming/naming.go:39-43 | results are words of [a-z0-9] joined by single dashes |
| Naming.SlugifyFixedPoints | operator/internal/naming/naming.go:39-43 | slugs are exactly the fixed points, so slugging twice changes nothing |
| Naming.SlugifyWords | operator/internal/naming/naming.go:39-43 | a slug holds the words of the lower-cased input in order and nothing else |
| Naming.LowerExactly | operator/internal/naming/naming.go:39-43 | capitals become small letters, two letters beyond ASCII become k and i, all else stays |
| Naming.AlnumExactly | operator/internal/naming/naming.go:33 | the characters a slug keeps |
| Naming.TruncateLabel | operator/internal/naming/naming.go:52-68 | the cap holds, results are fixed points, and the result is a label iff the kept prefix allows it |
| Naming.TruncateKeeps | operator/internal/naming/naming.go:52-68 | a long text keeps a prefix less its last dashes and ends in its suffix, a short one stays whole |
| Naming.SuffixIsHash | operator/internal/naming/naming.go:56-62 | the suffix is the text's hash in base thirty-six, cut to six characters |
| Naming.FnvVectors | operator/internal/naming/naming.go:57-59 | the hash agrees with the published vectors of 32-bit FNV-1a |
| Naming.BundleNameLabel | operator/internal/controller/aiworkload/keys.go:21-23 | for a valid workload name the bundle name is a label iff the chart slug is not empty or is cut off entirely |
| Naming.BundleNameText | operator/internal/controller/aiworkload/keys.go:21-23 | a bundle name is workload, dash and chart slug, where both fit |
| Naming.CapReleaseNameLabel | operator/internal/controller/aiworkload/blueprint.go:925-942 | at most 53 characters, a fixed point on its results, and exactly when the result is a label |
| Naming.CapKeeps | operator/internal/controller/aiworkload/blueprint.go:925-942 | a long release name keeps its first characters less outer dashes and ends in its suffix |
| Naming.ShortReleaseNameKept | operator/internal/controller/aiworkload/blueprint.go:914-942 | a short invalid override is kept as it is |

## Left out

- Kubernetes clients, server-side apply, watches, finalizers and deletion, RBAC, HTTP handlers, git and registry I/O and Helm's own actions: each is a step that happens, fails or is cut off.
- The API's own refusals (an operation in progress, a source that is not a blueprint, an empty target): the machine accepts any request, which includes what the API lets through.
- Decoding failures of journal, handled list and epoch annotations, and 64-bit wrap-around of the epoch.
- App-sourced workloads, readiness polling, pull-secret delivery, and the GitOps path that writes a HelmOp's changes back to the spec or deletes the workload.
- aggregateClusterStatuses and the legacy per-cluster status: a display fold over the same cells.
- Value merging by the mergo library: resolved values are an input.
- Failures.NoFailureFromOldBundles: says "label" where the intent says "digest", because a label keeps 63 of 64 digits.
- Baselines.Reconciles: a history holds the upserts that reached storage; one lost because a later publish of the same pass reloads the object is not in it.
- retrySyncSettled, which lists BundleDeployments: its answer is an input of the evaluation step.
- GitPublish.Workload.CleanupStaleHelmOps: does not model a delete that fails half way; the next pass starts over from what is left.
- HelmClient.Releases.EnsureRelease: does not model calls for different releases running at once, which share the archive cache; the per-release lock orders the rest.
- HelmRuns.CachesChangeNothing: calls for an https chart with trust settings ignore repository and version when pulling, so switching trust on or off for one source may change bytes; excluded by HelmRuns.SteadyBytes.
- Extension.Reconciler.ReconcileRequest: does not model stale cached reads, a stamp that cannot be parsed, or the readiness clocks that restart after an upgrade, or the immediate requeue when the UI ConfigMap cannot be written.
- GitChart.ChartTgzToBundleResources: path.Clean and the tar reader are inputs; names arrive cleaned.
- Catalog.Generator.SyncNVAIE: fields other than slug, URL and labels are pinned by value; repeated keys and letter case in an override are not modelled.
- Distinctness of truncated names, and non-ASCII lengths in truncation.
- Log lines, and metrics apart from the pull count and the gauge.

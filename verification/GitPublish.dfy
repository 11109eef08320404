/**
  GitOps publication of blueprint components, and the cleanup of what is no longer desired. Both work
  on one repository, and on the annotations of one workload.

  A publication hash is taken to be free of collisions: it is the NUL-joined text it is made from.
*/
module GitPublish {
  import opened Strings
  import opened Fleet

  datatype Site = Site(url: string, branch: string)

  /** The push may not happen, or happen without its annotation, or both may happen. */
  datatype Fate = NotPushed | AnnotationLost | Done

  datatype Event =
    | Publish(site: Site, bundle: string, content: string, fate: Fate)
    | Delete(site: Site, bundle: string)

  /**
    The files of the repositories, the workload's publication annotations, and the HelmOps and bundles
    in the cluster; helmOps maps an id to its owner label, "" when the label is missing.
  */
  datatype State = State(
    files: map<(Site, string), string>, hashes: map<string, string>, helmOps: map<Id, string>, bundles: set<Id>)

  const NOTHING := State(map[], map[], map[], {})

  /** The configured branch defaults to main. */
  function SiteOf(url: string, branch: string): Site { Site(url, if branch == "" then "main" else branch) }

  lemma {:induction false} DefaultBranch(url: string, branch: string)
    ensures SiteOf(url, "") == Site(url, "main") && (branch != "" ==> SiteOf(url, branch) == Site(url, branch))
  {
  }

  function PublicationHash(site: Site, content: string): string {
    Join(site.url, Join(site.branch, content))
  }

  predicate NulFreeSite(site: Site) { NulFree(site.url) && NulFree(site.branch) }

  lemma {:induction false} PublicationHashInjective(a: Site, c: string, b: Site, d: string)
    requires NulFreeSite(a) && NulFreeSite(b)
    requires PublicationHash(a, c) == PublicationHash(b, d)
    ensures a == b && c == d
  {
    JoinInjective(a.url, Join(a.branch, c), b.url, Join(b.branch, d));
    JoinInjective(a.branch, c, b.branch, d);
  }

  predicate Published(s: State, site: Site, bundle: string, content: string) {
    bundle in s.hashes && s.hashes[bundle] == PublicationHash(site, content)
  }

  function Apply(s: State, e: Event): State {
    match e
    case Delete(site, bundle) => s.(files := s.files - {(site, bundle)})
    case Publish(site, bundle, content, fate) =>
      if Published(s, site, bundle, content) || fate == NotPushed then s
      else
        s.(files := s.files[(site, bundle) := content],
           hashes := if fate == Done then s.hashes[bundle := PublicationHash(site, content)] else s.hashes)
  }

  // ---- When the stored hash speaks for the repository -----------------------------------------------

  function Run(events: seq<Event>): State {
    if events == [] then NOTHING
    else Apply(Run(events[..|events| - 1]), events[|events| - 1])
  }

  /** Event k pushed and recorded; a publish found up to date does neither. */
  predicate Completes(events: seq<Event>, k: int, bundle: string) {
    && 0 <= k < |events|
    && events[k].Publish? && events[k].bundle == bundle && events[k].fate == Done
    && !Published(Run(events[..k]), events[k].site, bundle, events[k].content)
  }

  /** Event j changed or removed a file while leaving the stored hash behind. */
  predicate Disturbs(events: seq<Event>, j: int, site: Site, bundle: string) {
    && 0 <= j < |events|
    && events[j].site == site && events[j].bundle == bundle
    && match events[j]
       case Delete(_, _) => true
       case Publish(_, _, content, fate) =>
         fate == AnnotationLost && !Published(Run(events[..j]), site, bundle, content)
  }

  predicate LastCompleted(events: seq<Event>, k: int, bundle: string) {
    Completes(events, k, bundle) && forall j :: k < j < |events| ==> !Completes(events, j, bundle)
  }

  predicate Undisturbed(events: seq<Event>, k: int, bundle: string)
    requires Completes(events, k, bundle)
  {
    forall j :: k < j < |events| ==> !Disturbs(events, j, events[k].site, bundle)
  }

  predicate Holds(s: State, site: Site, bundle: string, content: string) {
    (site, bundle) in s.files && s.files[(site, bundle)] == content
  }

  predicate NulFreeRun(events: seq<Event>) { forall k :: 0 <= k < |events| ==> NulFreeSite(events[k].site) }

  lemma {:induction false} PrefixFacts(events: seq<Event>, k: int, site: Site, bundle: string)
    requires events != [] && k < |events| - 1
    ensures Completes(events, k, bundle) <==> Completes(events[..|events| - 1], k, bundle)
    ensures Disturbs(events, k, site, bundle) <==> Disturbs(events[..|events| - 1], k, site, bundle)
  {
    if k >= 0 {
      assert events[..|events| - 1][..k] == events[..k];
    }
  }

  /**
    The stored hash of a bundle is the one of its last completed publish. The repository holds the
    content it stands for iff nothing disturbed that file since.
  */
  lemma {:induction false} HashSpeaksForFile(events: seq<Event>, bundle: string)
    requires NulFreeRun(events)
    ensures bundle !in Run(events).hashes <==> forall k :: !Completes(events, k, bundle)
    ensures bundle in Run(events).hashes ==>
              exists k :: LastCompleted(events, k, bundle)
                && Published(Run(events), events[k].site, bundle, events[k].content)
                && (Holds(Run(events), events[k].site, bundle, events[k].content) <==> Undisturbed(events, k, bundle))
  {
    if events != [] {
      var front, n, e := events[..|events| - 1], |events| - 1, events[|events| - 1];
      HashSpeaksForFile(front, bundle);
      forall k | k < n
        ensures Completes(events, k, bundle) <==> Completes(front, k, bundle)
      {
        PrefixFacts(events, k, e.site, bundle);
      }
      assert events[..n] == front;
      if Completes(events, n, bundle) {
        JustCompleted(events, bundle);
      } else if bundle in Run(front).hashes {
        var k :| LastCompleted(front, k, bundle)
          && Published(Run(front), front[k].site, bundle, front[k].content)
          && (Holds(Run(front), front[k].site, bundle, front[k].content) <==> Undisturbed(front, k, bundle));
        StillLast(events, k, bundle);
      }
    }
  }

  lemma {:induction false} JustCompleted(events: seq<Event>, bundle: string)
    requires events != [] && Completes(events, |events| - 1, bundle)
    ensures var n := |events| - 1;
            && LastCompleted(events, n, bundle) && Undisturbed(events, n, bundle)
            && Published(Run(events), events[n].site, bundle, events[n].content)
            && Holds(Run(events), events[n].site, bundle, events[n].content)
  {
  }

  lemma {:induction false} StillLast(events: seq<Event>, k: int, bundle: string)
    requires NulFreeRun(events) && events != [] && k < |events| - 1
    requires !Completes(events, |events| - 1, bundle)
    requires var front := events[..|events| - 1];
             && LastCompleted(front, k, bundle)
             && Published(Run(front), front[k].site, bundle, front[k].content)
             && (Holds(Run(front), front[k].site, bundle, front[k].content) <==> Undisturbed(front, k, bundle))
    ensures LastCompleted(events, k, bundle)
    ensures Published(Run(events), events[k].site, bundle, events[k].content)
    ensures Holds(Run(events), events[k].site, bundle, events[k].content) <==> Undisturbed(events, k, bundle)
  {
    var front, n, e := events[..|events| - 1], |events| - 1, events[|events| - 1];
    var site, content := events[k].site, events[k].content;
    forall j | j < n
      ensures Completes(events, j, bundle) <==> Completes(front, j, bundle)
      ensures Disturbs(events, j, site, bundle) <==> Disturbs(front, j, site, bundle)
    {
      PrefixFacts(events, j, site, bundle);
    }
    if e.Publish? && e.bundle == bundle && e.site == site {
      if Published(Run(front), site, bundle, e.content) {
        PublicationHashInjective(site, content, site, e.content);
      }
    }
    assert Undisturbed(events, k, bundle) <==> Undisturbed(front, k, bundle) && !Disturbs(events, n, site, bundle);
  }

  // ---- The two ways it goes wrong --------------------------------------------------------------------

  function Again(s: State, e: Event, n: nat): State { if n == 0 then s else Apply(Again(s, e, n - 1), e) }

  lemma {:induction false} RepeatedPublishIsSkipped(s: State, e: Event, n: nat)
    requires e.Publish? && Published(s, e.site, e.bundle, e.content)
    ensures Again(s, e, n) == s
  {
    if n > 0 {
      RepeatedPublishIsSkipped(s, e, n - 1);
    }
  }

  lemma {:induction false} HashTail(site: Site, content: string)
    ensures PublicationHash(site, content)[|site.url| + 1 + |site.branch| + 1..] == content
  {
  }

  /**
    A crash between push and annotation, followed by a return to the earlier content, leaves the
    abandoned content in the repository however many passes follow.
  */
  lemma {:induction false} RevertAfterLostAnnotation(
    s: State, site: Site, bundle: string, c1: string, c2: string, n: nat)
    requires c1 != c2
    ensures var wanted := Publish(site, bundle, c1, Done);
            var t := Again(Apply(Apply(s, wanted), Publish(site, bundle, c2, AnnotationLost)), wanted, n);
            Published(t, site, bundle, c1) && Holds(t, site, bundle, c2)
  {
    var wanted := Publish(site, bundle, c1, Done);
    HashTail(site, c1);
    HashTail(site, c2);
    RepeatedPublishIsSkipped(Apply(Apply(s, wanted), Publish(site, bundle, c2, AnnotationLost)), wanted, n);
  }

  /** Deleting by name takes a published file away for good: the hash still says it is there. */
  lemma {:induction false} DeletedFileStaysDeleted(s: State, site: Site, bundle: string, content: string, n: nat)
    requires Published(s, site, bundle, content)
    ensures var t := Again(Apply(s, Delete(site, bundle)), Publish(site, bundle, content, Done), n);
            (site, bundle) !in t.files && Published(t, site, bundle, content)
  {
    RepeatedPublishIsSkipped(Apply(s, Delete(site, bundle)), Publish(site, bundle, content, Done), n);
  }

  // ---- Cleanup of stale HelmOps -------------------------------------------------------------------------

  predicate InFleet(id: Id) { id.0 == FLEET_LOCAL || id.0 == FLEET_DEFAULT }

  /** Objects the cleanup calls its own: labelled, or unlabelled and known by name. */
  function Owned(ops: map<Id, string>, uid: string, names: seq<string>): set<Id> {
    set id | id in ops && InFleet(id) && (ops[id] == uid || (ops[id] == "" && id.1 in names))
  }

  function Labelled(ops: map<Id, string>, id: Id, uid: string): map<Id, string> {
    if id in ops && ops[id] == "" then ops[id := uid] else ops
  }

  /** Exactly the unlabelled HelmOps known by name gain the label. */
  function Backfilled(ops: map<Id, string>, uid: string, names: seq<string>): map<Id, string> {
    map id | id in ops :: if ops[id] == "" && id.1 in names && InFleet(id) then uid else ops[id]
  }

  /** The objects a name stands for. */
  function Twins(name: string): set<Id> { {(FLEET_LOCAL, name), (FLEET_DEFAULT, name)} }

  lemma {:induction false} BackfillStep(ops: map<Id, string>, uid: string, names: seq<string>, name: string)
    ensures LabelledAll(Backfilled(ops, uid, names), Twins(name), uid) == Backfilled(ops, uid, names + [name])
  {
    forall id: Id
      ensures InFleet(id) && id.1 in names + [name] <==> (InFleet(id) && id.1 in names) || id in Twins(name)
    {
      assert id.1 in names + [name] <==> id.1 in names || id.1 == name;
    }
  }

  function LabelledAll(ops: map<Id, string>, ids: set<Id>, uid: string): map<Id, string> {
    map id | id in ops :: if id in ids && ops[id] == "" then uid else ops[id]
  }

  lemma {:induction false} LabelledTwice(ops: map<Id, string>, a: Id, b: Id, uid: string)
    ensures Labelled(Labelled(ops, a, uid), b, uid) == LabelledAll(ops, {a, b}, uid)
  {
  }

  /** After the backfill the label alone finds what is owned. */
  lemma {:induction false} OwnedAreLabelled(ops: map<Id, string>, uid: string, names: seq<string>)
    requires uid != ""
    ensures Owned(Backfilled(ops, uid, names), uid, []) == Owned(ops, uid, names)
  {
  }

  /** The objects of `gone` removed and nothing else: files by name, or HelmOps and bundles by id. */
  function Removed(s: State, gone: set<Id>, gitOps: bool, site: Site): State {
    if gitOps then s.(files := s.files - (set id | id in gone :: (site, id.1)))
    else s.(helmOps := s.helmOps - gone, bundles := s.bundles - gone)
  }

  function Cleaned(s: State, uid: string, names: seq<string>, desired: set<Id>, gitOps: bool, site: Site): State {
    Removed(s.(helmOps := Backfilled(s.helmOps, uid, names)), Owned(s.helmOps, uid, names) - desired, gitOps, site)
  }

  /** An object of this workload that is wanted no more: labelled with it, or unlabelled and known by name. */
  predicate Stale(ops: map<Id, string>, uid: string, names: seq<string>, desired: set<Id>, id: Id) {
    && id in ops && id !in desired && (id.0 == "fleet-local" || id.0 == "fleet-default")
    && (ops[id] == uid || (ops[id] == "" && id.1 in names))
  }

  /**
    What a cleanup leaves: without GitOps every stale HelmOp goes with its bundle and no file does;
    with GitOps the files of this site named like a stale HelmOp go and no object does. HelmOps that
    stay keep their label, or get the workload's if they had none and are known by name.
  */
  lemma {:induction false} CleanupExactly(
    s: State, uid: string, names: seq<string>, desired: set<Id>, gitOps: bool, site: Site, id: Id, at: Site, bundle: string)
    ensures var t := Cleaned(s, uid, names, desired, gitOps, site);
            && t.hashes == s.hashes
            && (id in t.helmOps <==> id in s.helmOps && (gitOps || !Stale(s.helmOps, uid, names, desired, id)))
            && (id in t.bundles <==> id in s.bundles && (gitOps || !Stale(s.helmOps, uid, names, desired, id)))
            && (id in t.helmOps ==>
                  t.helmOps[id] == if s.helmOps[id] == "" && id.1 in names && id.0 in {"fleet-local", "fleet-default"}
                                   then uid else s.helmOps[id])
            && ((at, bundle) in t.files <==>
                  (at, bundle) in s.files
                  && !(gitOps && at == site && exists i: Id :: i.1 == bundle && Stale(s.helmOps, uid, names, desired, i)))
            && ((at, bundle) in t.files ==> t.files[(at, bundle)] == s.files[(at, bundle)])
  {
    var gone := Owned(s.helmOps, uid, names) - desired;
    assert forall i: Id :: i in gone <==> Stale(s.helmOps, uid, names, desired, i);
    if gitOps && at == site {
      if i: Id :| i.1 == bundle && Stale(s.helmOps, uid, names, desired, i) {
        assert i in gone && (site, i.1) == (at, bundle);
      }
    }
  }

  lemma {:induction false} RemovedStep(s: State, gone: set<Id>, gitOps: bool, site: Site, id: Id)
    ensures Removed(Removed(s, gone, gitOps, site), {id}, gitOps, site) == Removed(s, gone + {id}, gitOps, site)
    ensures Removed(s, {}, gitOps, site) == s
  {
    assert (set x | x in gone + {id} :: (site, x.1)) == (set x | x in gone :: (site, x.1)) + {(site, id.1)};
    assert (set x | x in {id} :: (site, x.1)) == {(site, id.1)};
    assert s.helmOps - gone - {id} == s.helmOps - (gone + {id});
  }

  // ---- A whole pass ------------------------------------------------------------------------------------------

  datatype Manifest = Manifest(bundle: string, content: string)

  /** How far the publications of a pass got: the first that fails ends the pass. */
  datatype Progress = Progress(state: State, ok: bool)

  function PublishAll(s: State, site: Site, wanted: seq<Manifest>, fates: seq<Fate>): Progress
    requires |fates| == |wanted|
  {
    if wanted == [] then Progress(s, true)
    else
      var n := |wanted| - 1;
      var before := PublishAll(s, site, wanted[..n], fates[..n]);
      if !before.ok then before
      else
        Progress(Apply(before.state, Publish(site, wanted[n].bundle, wanted[n].content, fates[n])),
                 Published(before.state, site, wanted[n].bundle, wanted[n].content) || fates[n] == Done)
  }

  /** One pass of a GitOps workload: every component's file, then the cleanup. */
  datatype GitPass = GitPass(
    wanted: seq<Manifest>, fates: seq<Fate>, uid: string, names: seq<string>, desired: set<Id>)

  function PassResult(s: State, site: Site, p: GitPass): State
    requires |p.fates| == |p.wanted|
  {
    var published := PublishAll(s, site, p.wanted, p.fates);
    if published.ok then Cleaned(published.state, p.uid, p.names, p.desired, true, site) else published.state
  }

  class Workload {
    var files: map<(Site, string), string>
    var hashes: map<string, string>
    var helmOps: map<Id, string>
    var bundles: set<Id>

    constructor ()
      ensures Durable() == NOTHING
    {
      files, hashes, helmOps, bundles := map[], map[], map[], {};
    }

    ghost function Durable(): State
      reads this
    {
      State(files, hashes, helmOps, bundles)
    }

    method PublishBlueprintGitFile(url: string, branch: string, bundle: string, content: string, fate: Fate)
      returns (ok: bool)
      modifies this`files, this`hashes
      ensures Durable() == Apply(old(Durable()), Publish(SiteOf(url, branch), bundle, content, fate))
      ensures ok <==> old(Published(Durable(), SiteOf(url, branch), bundle, content)) || fate == Done
    {
      var site := SiteOf(url, branch);
      var hash := PublicationHash(site, content);
      if bundle in hashes && hashes[bundle] == hash {
        return true;
      }
      if fate == NotPushed {
        return false;
      }
      files := files[(site, bundle) := content];
      if fate == AnnotationLost {
        return false;
      }
      hashes := hashes[bundle := hash];
      return true;
    }

    method DeleteGitFileByName(site: Site, bundle: string)
      modifies this`files
      ensures Durable() == Apply(old(Durable()), Delete(site, bundle))
    {
      files := files - {(site, bundle)};
    }

    method Backfill(uid: string, names: seq<string>)
      modifies this`helmOps
      ensures helmOps == Backfilled(old(helmOps), uid, names)
    {
      var n := 0;
      assert helmOps == Backfilled(helmOps, uid, names[..0]);
      while n < |names|
        invariant 0 <= n <= |names|
        invariant helmOps == Backfilled(old(helmOps), uid, names[..n])
      {
        BackfillStep(old(helmOps), uid, names[..n], names[n]);
        assert names[..n + 1] == names[..n] + [names[n]];
        LabelledTwice(helmOps, (FLEET_LOCAL, names[n]), (FLEET_DEFAULT, names[n]), uid);
        helmOps := Labelled(helmOps, (FLEET_LOCAL, names[n]), uid);
        helmOps := Labelled(helmOps, (FLEET_DEFAULT, names[n]), uid);
        n := n + 1;
      }
      assert names[..n] == names;
    }

    /** Under GitOps the file goes by its name, otherwise only the one workspace's objects go. */
    method DeleteStale(id: Id, gitOps: bool, site: Site)
      modifies this`files, this`helmOps, this`bundles
      ensures Durable() == Removed(old(Durable()), {id}, gitOps, site)
    {
      if gitOps {
        DeleteGitFileByName(site, id.1);
        assert (set x | x in {id} :: (site, x.1)) == {(site, id.1)};
      } else {
        helmOps := helmOps - {id};
        bundles := bundles - {id};
      }
    }

    /** The stale ones are owned and not desired. */
    method CleanupStaleHelmOps(uid: string, names: seq<string>, desired: set<Id>, gitOps: bool, site: Site)
      requires uid != ""
      modifies this`files, this`helmOps, this`bundles
      ensures Durable() == Cleaned(old(Durable()), uid, names, desired, gitOps, site)
    {
      Backfill(uid, names);
      OwnedAreLabelled(old(helmOps), uid, names);
      var todo := Owned(helmOps, uid, []);
      ghost var s := Durable();
      ghost var stale := Owned(old(helmOps), uid, names) - desired;
      ghost var gone: set<Id> := {};
      RemovedStep(s, {}, gitOps, site, (FLEET_LOCAL, ""));
      while todo != {}
        invariant gone <= stale <= gone + todo && todo - desired <= stale
        invariant Durable() == Removed(s, gone, gitOps, site)
        decreases |todo|
      {
        var id :| id in todo;
        todo := todo - {id};
        if id !in desired {
          RemovedStep(s, gone, gitOps, site, id);
          DeleteStale(id, gitOps, site);
          gone := gone + {id};
        }
      }
      assert gone == stale;
    }

    method ReconcileGitOps(url: string, branch: string, p: GitPass)
      requires |p.fates| == |p.wanted| && p.uid != ""
      modifies this`files, this`hashes, this`helmOps, this`bundles
      ensures Durable() == PassResult(old(Durable()), SiteOf(url, branch), p)
    {
      var n := 0;
      ghost var s, site := Durable(), SiteOf(url, branch);
      while n < |p.wanted|
        invariant 0 <= n <= |p.wanted|
        invariant PublishAll(s, site, p.wanted[..n], p.fates[..n]) == Progress(Durable(), true)
      {
        PublishNext(s, site, p.wanted, p.fates, n);
        var ok := PublishBlueprintGitFile(url, branch, p.wanted[n].bundle, p.wanted[n].content, p.fates[n]);
        n := n + 1;
        if !ok {
          PublishStops(s, site, p.wanted, p.fates, n);
          return;
        }
      }
      assert p.wanted[..n] == p.wanted && p.fates[..n] == p.fates;
      CleanupStaleHelmOps(p.uid, p.names, p.desired, true, SiteOf(url, branch));
    }
  }

  lemma {:induction false} PublishNext(s: State, site: Site, wanted: seq<Manifest>, fates: seq<Fate>, n: nat)
    requires |fates| == |wanted| && n < |wanted|
    ensures var before := PublishAll(s, site, wanted[..n], fates[..n]);
            PublishAll(s, site, wanted[..n + 1], fates[..n + 1]) ==
              if !before.ok then before
              else
                Progress(Apply(before.state, Publish(site, wanted[n].bundle, wanted[n].content, fates[n])),
                         Published(before.state, site, wanted[n].bundle, wanted[n].content) || fates[n] == Done)
  {
    assert wanted[..n + 1][..n] == wanted[..n] && fates[..n + 1][..n] == fates[..n];
  }

  lemma {:induction false} PublishStops(s: State, site: Site, wanted: seq<Manifest>, fates: seq<Fate>, n: nat)
    requires |fates| == |wanted| && n <= |wanted| && !PublishAll(s, site, wanted[..n], fates[..n]).ok
    ensures PublishAll(s, site, wanted, fates) == PublishAll(s, site, wanted[..n], fates[..n])
    decreases |wanted| - n
  {
    if n == |wanted| {
      assert wanted[..n] == wanted && fates[..n] == fates;
    } else {
      PublishNext(s, site, wanted, fates, n);
      PublishStops(s, site, wanted, fates, n + 1);
    }
  }

  // ---- Dropping a workspace ------------------------------------------------------------------------------

  /** The ids of the objects a workload should have. */
  function DesiredIds(clusters: seq<string>, units: seq<Unit>): set<Id> {
    set k | k in Concat(KeyLists(clusters, units, GitOps)) :: (k.workspace, k.name)
  }

  predicate HasTargets(clusters: seq<string>, workspace: string) {
    || (workspace == FLEET_LOCAL && LOCAL in clusters)
    || (workspace == FLEET_DEFAULT && exists c :: c in clusters && c != LOCAL)
  }

  lemma {:induction false} DesiredAt(clusters: seq<string>, units: seq<Unit>, id: Id)
    ensures id in DesiredIds(clusters, units) <==> HasTargets(clusters, id.0) && exists u :: u in units && u.bundle == id.1
  {
    RemoteMembers(clusters);
    assert |Remote(clusters)| > 0 <==> exists c :: c in clusters && c != LOCAL by {
      if |Remote(clusters)| > 0 {
        assert Remote(clusters)[0] in Remote(clusters);
      }
    }
    var lists := KeyLists(clusters, units, GitOps);
    var local, downstream := LocalCount(clusters), |Remote(clusters)|;
    if id in DesiredIds(clusters, units) {
      var k :| k in Concat(lists) && (k.workspace, k.name) == id;
      ConcatMembers(lists, k);
      var i :| 0 <= i < |lists| && k in lists[i];
      KeysOfAt(units[i], GitOps, local, downstream, k);
      assert units[i] in units;
    }
    if HasTargets(clusters, id.0) && exists u :: u in units && u.bundle == id.1 {
      var u :| u in units && u.bundle == id.1;
      var i :| 0 <= i < |units| && units[i] == u;
      var k := KeyFor(u, id.0, if id.0 == FLEET_LOCAL then local else downstream);
      KeysOfAt(u, GitOps, local, downstream, k);
      assert k in lists[i];
      ConcatMembers(lists, k);
    }
  }

  /** Some workspace had targets and has none any more. */
  predicate LosesWorkspace(before: seq<string>, after: seq<string>) {
    || (LOCAL in before && LOCAL !in after)
    || ((exists c :: c in before && c != LOCAL) && !exists c :: c in after && c != LOCAL)
  }

  /**
    A change of targets deletes the file of a component that is deployed before and after it exactly
    if some workspace loses its last target, although the component stays desired in the other.
  */
  lemma {:induction false} TwinDeletion(
    s: State, site: Site, uid: string, names: seq<string>,
    before: seq<string>, after: seq<string>, unitsBefore: seq<Unit>, unitsAfter: seq<Unit>, bundle: string)
    requires Owned(s.helmOps, uid, names) == DesiredIds(before, unitsBefore)
    requires (exists u :: u in unitsBefore && u.bundle == bundle) && exists u :: u in unitsAfter && u.bundle == bundle
    requires (site, bundle) in s.files
    ensures (site, bundle) !in Cleaned(s, uid, names, DesiredIds(after, unitsAfter), true, site).files <==>
              LosesWorkspace(before, after)
    ensures after != [] <==> exists id :: id in DesiredIds(after, unitsAfter) && id.1 == bundle
  {
    var stale := DesiredIds(before, unitsBefore) - DesiredIds(after, unitsAfter);
    DesiredAt(before, unitsBefore, (FLEET_LOCAL, bundle));
    DesiredAt(before, unitsBefore, (FLEET_DEFAULT, bundle));
    DesiredAt(after, unitsAfter, (FLEET_LOCAL, bundle));
    DesiredAt(after, unitsAfter, (FLEET_DEFAULT, bundle));
    if LosesWorkspace(before, after) {
      assert (FLEET_LOCAL, bundle) in stale || (FLEET_DEFAULT, bundle) in stale;
    }
    if id :| id in stale && id.1 == bundle {
      DesiredAt(before, unitsBefore, id);
      DesiredAt(after, unitsAfter, id);
    }
    if after != [] {
      assert after[0] in after;
      assert (FLEET_LOCAL, bundle) in DesiredIds(after, unitsAfter)
        || (FLEET_DEFAULT, bundle) in DesiredIds(after, unitsAfter);
    }
    if id :| id in DesiredIds(after, unitsAfter) && id.1 == bundle {
      DesiredAt(after, unitsAfter, id);
    }
  }

  // ---- Dropping the local cluster, over whole runs ---------------------------------------------------------

  /** Dropping the local cluster makes exactly the objects in the local workspace stale. */
  lemma {:induction false} DroppedLocalIsStale(before: seq<string>, units: seq<Unit>, id: Id)
    requires LOCAL in before && exists c :: c in before && c != LOCAL
    ensures id in DesiredIds(before, units) - DesiredIds(Remote(before), units) <==>
              id.0 == FLEET_LOCAL && exists u :: u in units && u.bundle == id.1
    ensures id.0 == FLEET_DEFAULT && (exists u :: u in units && u.bundle == id.1) ==> id in DesiredIds(Remote(before), units)
  {
    RemoteMembers(before);
    DesiredAt(before, units, id);
    DesiredAt(Remote(before), units, id);
    var c :| c in before && c != LOCAL;
    assert c in Remote(before);
  }

  predicate OneContentEach(wanted: seq<Manifest>) {
    forall i, j :: 0 <= i < j < |wanted| ==> wanted[i].bundle != wanted[j].bundle
  }

  lemma {:induction false} AllPublished(s: State, site: Site, wanted: seq<Manifest>, fates: seq<Fate>)
    requires |fates| == |wanted| && OneContentEach(wanted) && forall i :: 0 <= i < |fates| ==> fates[i] == Done
    ensures PublishAll(s, site, wanted, fates).ok && PublishAll(s, site, wanted, fates).state.helmOps == s.helmOps
    ensures forall i :: 0 <= i < |wanted| ==>
              Published(PublishAll(s, site, wanted, fates).state, site, wanted[i].bundle, wanted[i].content)
  {
    if wanted != [] {
      AllPublished(s, site, wanted[..|wanted| - 1], fates[..|wanted| - 1]);
    }
  }

  /** The annotation says a file holds this content, and there is no such file. */
  predicate Missed(s: State, site: Site, bundle: string, content: string) {
    Published(s, site, bundle, content) && (site, bundle) !in s.files
  }

  lemma {:induction false} PublishKeepsMissed(
    s: State, site: Site, wanted: seq<Manifest>, fates: seq<Fate>, bundle: string, content: string)
    requires |fates| == |wanted| && Missed(s, site, bundle, content)
    requires ManifestsAgree(wanted, bundle, content)
    ensures Missed(PublishAll(s, site, wanted, fates).state, site, bundle, content)
  {
    if wanted != [] {
      PublishKeepsMissed(s, site, wanted[..|wanted| - 1], fates[..|wanted| - 1], bundle, content);
    }
  }

  /** Passes one after another; Fleet may change the HelmOps and bundles before each. */
  datatype Turn = Turn(helmOps: map<Id, string>, bundles: set<Id>, pass: GitPass)

  predicate WellShaped(turns: seq<Turn>) {
    forall i :: 0 <= i < |turns| ==> |turns[i].pass.fates| == |turns[i].pass.wanted|
  }

  /** No pass wants other content of this bundle. */
  predicate WantsOnly(turns: seq<Turn>, bundle: string, content: string) {
    forall i :: 0 <= i < |turns| ==> ManifestsAgree(turns[i].pass.wanted, bundle, content)
  }

  predicate ManifestsAgree(wanted: seq<Manifest>, bundle: string, content: string) {
    forall i :: 0 <= i < |wanted| && wanted[i].bundle == bundle ==> wanted[i].content == content
  }

  function After(s: State, site: Site, turns: seq<Turn>): State
    requires WellShaped(turns)
  {
    if turns == [] then s
    else
      var t := turns[|turns| - 1];
      PassResult(After(s, site, turns[..|turns| - 1]).(helmOps := t.helmOps, bundles := t.bundles), site, t.pass)
  }

  /** Whatever else passes want, as long as they want this content of this bundle they never publish it. */
  lemma {:induction false} MissedForGood(s: State, site: Site, turns: seq<Turn>, bundle: string, content: string)
    requires WellShaped(turns) && WantsOnly(turns, bundle, content) && Missed(s, site, bundle, content)
    ensures Missed(After(s, site, turns), site, bundle, content)
  {
    if turns != [] {
      var front, t := turns[..|turns| - 1], turns[|turns| - 1];
      MissedForGood(s, site, front, bundle, content);
      var before := After(s, site, front).(helmOps := t.helmOps, bundles := t.bundles);
      PublishKeepsMissed(before, site, t.pass.wanted, t.pass.fates, bundle, content);
    }
  }

  /**
    A workload with the local cluster and others drops the local one. The very pass that publishes every
    component's file for the remaining targets then deletes them all, although each component is still
    desired downstream; and no later pass that wants the same content publishes it again.
  */
  lemma {:induction false} DroppedLocalTakesEveryFile(
    s: State, site: Site, before: seq<string>, units: seq<Unit>, contents: seq<string>,
    p: GitPass, turns: seq<Turn>, i: nat)
    requires LOCAL in before && exists c :: c in before && c != LOCAL
    requires DistinctBundles(units) && |contents| == |units| && i < |units|
    requires p.wanted == seq(|units|, j requires 0 <= j < |units| => Manifest(units[j].bundle, contents[j]))
    requires |p.fates| == |p.wanted| && forall j :: 0 <= j < |p.fates| ==> p.fates[j] == Done
    requires p.desired == DesiredIds(Remote(before), units)
    requires Owned(s.helmOps, p.uid, p.names) == DesiredIds(before, units)
    requires WellShaped(turns) && WantsOnly(turns, units[i].bundle, contents[i])
    ensures (FLEET_DEFAULT, units[i].bundle) in p.desired
    ensures Missed(PassResult(s, site, p), site, units[i].bundle, contents[i])
    ensures Missed(After(PassResult(s, site, p), site, turns), site, units[i].bundle, contents[i])
  {
    var bundle := units[i].bundle;
    assert units[i] in units;
    DroppedLocalIsStale(before, units, (FLEET_LOCAL, bundle));
    DroppedLocalIsStale(before, units, (FLEET_DEFAULT, bundle));
    AllPublished(s, site, p.wanted, p.fates);
    assert p.wanted[i] == Manifest(bundle, contents[i]);
    var stale := DesiredIds(before, units) - p.desired;
    assert (FLEET_LOCAL, bundle) in stale;
    assert (site, bundle) in (set id | id in stale :: (site, id.1)) by {
      assert (site, (FLEET_LOCAL, bundle).1) == (site, bundle);
    }
    MissedForGood(PassResult(s, site, p), site, turns, bundle, contents[i]);
  }
}

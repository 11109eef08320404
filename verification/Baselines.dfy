/** Render baselines: which observation of a HelmOp a rejection is compared against. */
module Baselines {
  import opened Strings
  import Sorting
  import opened Fleet

  predicate SameAttempt(a: Baseline, b: Baseline) {
    a.digest == b.digest && a.epoch == b.epoch && a.generation == b.generation
  }

  predicate UniqueUids(s: seq<Baseline>) { forall i, j :: 0 <= i < j < |s| ==> s[i].uid != s[j].uid }

  predicate UidLess(a: Baseline, b: Baseline) { Less(a.uid, b.uid) }

  /** What a list of baselines says about one HelmOp; only this matters to a reader of the list. */
  lemma {:induction false} Found(s: seq<Baseline>, i: nat)
    requires UniqueUids(s) && i < |s|
    ensures BaselineFor(s, s[i].uid) == Some(s[i])
  {
    if i > 0 {
      assert s[0].uid != s[i].uid;
      Found(s[1..], i - 1);
    }
  }

  lemma {:induction false} NotFound(s: seq<Baseline>, uid: string)
    requires forall i :: 0 <= i < |s| ==> s[i].uid != uid
    ensures BaselineFor(s, uid) == None
  {
    if s != [] {
      NotFound(s[1..], uid);
    }
  }

  lemma {:induction false} FoundIff(s: seq<Baseline>, uid: string, b: Baseline)
    requires UniqueUids(s)
    ensures BaselineFor(s, uid) == Some(b) <==> b in s && b.uid == uid
    ensures BaselineFor(s, uid) == None <==> forall x :: x in s ==> x.uid != uid
  {
    if i :| 0 <= i < |s| && s[i].uid == uid {
      Found(s, i);
      assert s[i] in s;
    } else {
      NotFound(s, uid);
    }
  }

  /** How one upsert changes what is known about a HelmOp. */
  function Upserted(known: Option<Baseline>, uid: string, entry: Baseline): Option<Baseline> {
    if entry.uid != uid then known
    else if known.Some? && SameAttempt(known.value, entry) then known
    else Some(entry)
  }

  /** What a pass records when it has rendered a HelmOp. */
  function Observation(ho: HelmOp, digest: string, epoch: int): Baseline {
    Baseline(ho.uid, digest, epoch, ho.generation, Fingerprint(ho.accepted))
  }

  method UpsertRenderBaseline(s: seq<Baseline>, entry: Baseline) returns (r: seq<Baseline>)
    requires UniqueUids(s)
    ensures UniqueUids(r)
    ensures forall uid :: BaselineFor(r, uid) == Upserted(BaselineFor(s, uid), uid, entry)
  {
    var i := 0;
    while i < |s|
      invariant 0 <= i <= |s|
      invariant forall j :: 0 <= j < i ==> s[j].uid != entry.uid
    {
      if s[i].uid == entry.uid {
        r := if SameAttempt(s[i], entry) then s else s[i := entry];
        Replaced(s, i, entry);
        return;
      }
      i := i + 1;
    }
    r := s + [entry];
    Appended(s, entry);
  }

  lemma {:induction false} Replaced(s: seq<Baseline>, i: nat, entry: Baseline)
    requires UniqueUids(s) && i < |s| && s[i].uid == entry.uid
    ensures UniqueUids(s[i := entry])
    ensures BaselineFor(s, entry.uid) == Some(s[i])
    ensures forall uid ::
      BaselineFor(s[i := entry], uid) == if uid == entry.uid then Some(entry) else BaselineFor(s, uid)
  {
    var r := s[i := entry];
    Found(s, i);
    Found(r, i);
    forall uid | uid != entry.uid
      ensures BaselineFor(r, uid) == BaselineFor(s, uid)
    {
      if j :| 0 <= j < |s| && s[j].uid == uid {
        Found(s, j);
        Found(r, j);
      } else {
        NotFound(s, uid);
        NotFound(r, uid);
      }
    }
  }

  lemma {:induction false} Appended(s: seq<Baseline>, entry: Baseline)
    requires UniqueUids(s) && forall j :: 0 <= j < |s| ==> s[j].uid != entry.uid
    ensures UniqueUids(s + [entry])
    ensures BaselineFor(s, entry.uid) == None
    ensures forall uid :: BaselineFor(s + [entry], uid) == if uid == entry.uid then Some(entry) else BaselineFor(s, uid)
  {
    NotFound(s, entry.uid);
    forall uid
      ensures BaselineFor(s + [entry], uid) == if uid == entry.uid then Some(entry) else BaselineFor(s, uid)
    {
      LookupAppend(s, entry, uid);
    }
  }

  lemma {:induction false} LookupAppend(s: seq<Baseline>, entry: Baseline, uid: string)
    ensures BaselineFor(s + [entry], uid) ==
            if BaselineFor(s, uid).Some? then BaselineFor(s, uid) else if entry.uid == uid then Some(entry) else None
  {
    if s == [] {
      assert s + [entry] == [entry] && [entry][1..] == [];
    } else {
      assert (s + [entry])[1..] == s[1..] + [entry];
      LookupAppend(s[1..], entry, uid);
    }
  }

  method PruneRenderBaselines(s: seq<Baseline>, desired: set<string>) returns (r: seq<Baseline>)
    requires UniqueUids(s)
    ensures UniqueUids(r)
    ensures forall uid :: BaselineFor(r, uid) == if uid in desired then BaselineFor(s, uid) else None
    ensures Sorting.Sorted(r, UidLess)
  {
    r := [];
    var n := 0;
    while n < |s|
      invariant 0 <= n <= |s|
      invariant forall b :: b in r <==> b in s[..n] && b.uid in desired
      invariant UniqueUids(r)
    {
      assert s[..n + 1] == s[..n] + [s[n]];
      if s[n].uid in desired {
        assert forall i :: 0 <= i < |r| ==> r[i] in r && r[i].uid != s[n].uid;
        r := r + [s[n]];
      }
      n := n + 1;
    }
    assert s[..n] == s;
    Sorting.SortMembers(r, UidLess);
    UniqueUidsSort(r);
    Sorting.FieldWeakOrder(UidLess, (b: Baseline) => b.uid);
    Sorting.SortSorts(r, UidLess);
    r := Sorting.Sort(r, UidLess);
    forall uid
      ensures BaselineFor(r, uid) == if uid in desired then BaselineFor(s, uid) else None
    {
      SameLookup(s, r, uid, desired);
    }
  }

  lemma {:induction false} SameLookup(s: seq<Baseline>, r: seq<Baseline>, uid: string, desired: set<string>)
    requires UniqueUids(s) && UniqueUids(r)
    requires forall b :: b in r <==> b in s && b.uid in desired
    ensures BaselineFor(r, uid) == if uid in desired then BaselineFor(s, uid) else None
  {
    if b :| b in s && b.uid == uid {
      FoundIff(s, uid, b);
      FoundIff(r, uid, b);
    } else {
      var dummy := Baseline("", "", 0, 0, "");
      FoundIff(s, uid, dummy);
      FoundIff(r, uid, dummy);
    }
  }

  lemma {:induction false} UniqueUidsSort(s: seq<Baseline>)
    requires UniqueUids(s)
    ensures UniqueUids(Sorting.Sort(s, UidLess))
  {
    var r := Sorting.Sort(s, UidLess);
    Sorting.SortKeeps(s, UidLess);
    Sorting.DistinctPermutes(s, r);
    forall i, j | 0 <= i < j < |r|
      ensures r[i].uid != r[j].uid
    {
      assert r[i] in multiset(s) && r[j] in multiset(s);
      assert r[i] in s && r[j] in s;
    }
  }

  // ---- Whole histories --------------------------------------------------------------------------

  /** An upsert of one HelmOp's observation, or a prune to the UIDs that could be read. */
  datatype Event = Upsert(entry: Baseline) | Prune(uids: set<string>)

  /** What the list says about one HelmOp after a history; `Reconciles` computes the list itself. */
  function Known(events: seq<Event>, uid: string): Option<Baseline> {
    if events == [] then None
    else
      var known := Known(events[..|events| - 1], uid);
      match events[|events| - 1]
      case Upsert(entry) => Upserted(known, uid, entry)
      case Prune(uids) => if uid in uids then known else None
  }

  method Reconciles(events: seq<Event>) returns (s: seq<Baseline>)
    ensures UniqueUids(s) && forall uid :: BaselineFor(s, uid) == Known(events, uid)
  {
    s := [];
    var n := 0;
    while n < |events|
      invariant 0 <= n <= |events|
      invariant UniqueUids(s) && forall uid :: BaselineFor(s, uid) == Known(events[..n], uid)
    {
      assert events[..n + 1][..n] == events[..n];
      match events[n] {
        case Upsert(entry) => s := UpsertRenderBaseline(s, entry);
        case Prune(uids) => s := PruneRenderBaselines(s, uids);
      }
      n := n + 1;
    }
    assert events[..n] == events;
  }

  /** Event k observes the HelmOp, and nothing later prunes it or observes a different attempt. */
  predicate Trails(events: seq<Event>, k: int, uid: string) {
    && 0 <= k < |events|
    && events[k].Upsert? && events[k].entry.uid == uid
    && forall j :: k < j < |events| ==>
         match events[j]
         case Upsert(entry) => entry.uid == uid ==> SameAttempt(entry, events[k].entry)
         case Prune(uids) => uid in uids
  }

  predicate FirstOfTrail(events: seq<Event>, k: int, uid: string) {
    Trails(events, k, uid) && forall j :: 0 <= j < k ==> !Trails(events, j, uid)
  }

  lemma {:induction false} TrailsStep(events: seq<Event>, k: nat, uid: string)
    requires events != [] && k < |events| - 1
    ensures Trails(events, k, uid) <==>
              && Trails(events[..|events| - 1], k, uid)
              && match events[|events| - 1]
                 case Upsert(entry) => entry.uid == uid ==> SameAttempt(entry, events[k].entry)
                 case Prune(uids) => uid in uids
  {
  }

  /** The baseline is the first observation of the longest trailing run of one render attempt. */
  lemma {:induction false} BaselineIsFirstOfTrail(events: seq<Event>, uid: string)
    ensures Known(events, uid).None? <==> forall k :: !Trails(events, k, uid)
    ensures Known(events, uid).Some? ==>
              exists k :: FirstOfTrail(events, k, uid) && Known(events, uid) == Some(events[k].entry)
  {
    if events != [] {
      var front, n := events[..|events| - 1], |events| - 1;
      BaselineIsFirstOfTrail(front, uid);
      forall k | 0 <= k < n
        ensures Trails(events, k, uid) <==>
                  && Trails(front, k, uid)
                  && match events[n]
                     case Upsert(entry) => entry.uid == uid ==> SameAttempt(entry, events[k].entry)
                     case Prune(uids) => uid in uids
      {
        TrailsStep(events, k, uid);
      }
      TrailAfter(events, uid);
    }
  }

  lemma {:induction false} TrailAfter(events: seq<Event>, uid: string)
    requires events != []
    requires var front, n := events[..|events| - 1], |events| - 1;
             && (Known(front, uid).None? <==> forall k :: !Trails(front, k, uid))
             && (Known(front, uid).Some? ==>
                   exists k :: FirstOfTrail(front, k, uid) && Known(front, uid) == Some(front[k].entry))
             && forall k :: 0 <= k < n ==>
                  (Trails(events, k, uid) <==>
                    && Trails(front, k, uid)
                    && match events[n]
                       case Upsert(entry) => entry.uid == uid ==> SameAttempt(entry, events[k].entry)
                       case Prune(uids) => uid in uids)
    ensures Known(events, uid).None? <==> forall k :: !Trails(events, k, uid)
    ensures Known(events, uid).Some? ==>
              exists k :: FirstOfTrail(events, k, uid) && Known(events, uid) == Some(events[k].entry)
  {
    var front, n := events[..|events| - 1], |events| - 1;
    var known := Known(front, uid);
    if known.Some? {
      var k :| FirstOfTrail(front, k, uid) && known == Some(front[k].entry);
      if Known(events, uid) == known {
        assert Trails(events, k, uid) && FirstOfTrail(events, k, uid);
      } else if Known(events, uid).Some? {
        assert Trails(events, n, uid);
        forall j | 0 <= j < n
          ensures !Trails(events, j, uid)
        {
          if Trails(front, j, uid) {
            TrailsAgree(front, k, j, uid);
          }
        }
        assert FirstOfTrail(events, n, uid);
      }
    } else if Known(events, uid).Some? {
      assert Trails(events, n, uid) && FirstOfTrail(events, n, uid);
    }
  }

  lemma {:induction false} TrailsAgree(events: seq<Event>, k: int, j: int, uid: string)
    requires Trails(events, k, uid) && Trails(events, j, uid)
    ensures SameAttempt(events[k].entry, events[j].entry)
  {
  }

  /**
    A rejection is terminal iff the HelmOp is not accepted now and its condition is not the one
    first seen in this attempt. `last` is the pass's own observation of the HelmOp.
  */
  lemma {:induction false} RejectionIsJudgedFromFirst(
    events: seq<Event>, last: nat, ho: HelmOp, digest: string, epoch: int)
    requires Trails(events, last, ho.uid)
    requires SameAttempt(events[last].entry, Baseline(ho.uid, digest, epoch, ho.generation, ""))
    ensures exists k :: FirstOfTrail(events, k, ho.uid) &&
              (AcceptedFalseTerminal(ho, Known(events, ho.uid), digest, epoch) <==>
                ho.accepted.Accepted? && ho.accepted.isFalse
                && Fingerprint(ho.accepted) != events[k].entry.fingerprint)
  {
    BaselineIsFirstOfTrail(events, ho.uid);
    var k :| FirstOfTrail(events, k, ho.uid) && Known(events, ho.uid) == Some(events[k].entry);
    TrailsAgree(events, k, last, ho.uid);
  }
}

/** Regeneration of the nvidia library of the application catalog. */
module Catalog {
  import opened Entries
  import opened Strings
  import Sorting

  const LIBRARIES := {"suse-ai", "nvidia", "openshell"}
  const NIM_NVIDIA_REPO_URL := "https://helm.ngc.nvidia.com/nim/nvidia"

  datatype Outcome =
    | Synced(catalog: map<string, seq<Item>>, added: seq<string>, removed: seq<string>)
    | UnknownLibrary
    | BadOverride

  predicate IsOwned(e: Item, preserved: set<string>) { e.slug !in preserved && HasSupported(e.labels) }

  // ---- Precedence between entries that share a slug ------------------------------------------------

  function TrimSlashes(s: string): string {
    if s != "" && s[|s| - 1] == '/' then TrimSlashes(s[..|s| - 1]) else s
  }

  function RepoRank(url: string): nat { if TrimSlashes(url) == NIM_NVIDIA_REPO_URL then 1 else 0 }

  predicate PreferOver(candidate: Item, current: Item) {
    var c, o := RepoRank(candidate.url), RepoRank(current.url);
    if c != o then c > o else Less(candidate.url, current.url)
  }

  lemma PreferOverStrict(a: Item, b: Item, c: Item)
    ensures !PreferOver(a, a)
    ensures PreferOver(a, b) && PreferOver(b, c) ==> PreferOver(a, c)
    ensures a.url != b.url ==> PreferOver(a, b) || PreferOver(b, a)
    ensures a.url == b.url ==> !PreferOver(a, b)
  {
    LessIrreflexive(a.url);
    if a.url != b.url {
      LessTotal(a.url, b.url);
    }
    if PreferOver(a, b) && PreferOver(b, c) && Less(a.url, b.url) && Less(b.url, c.url) {
      LessTransitive(a.url, b.url, c.url);
    }
  }

  function Slashes(n: nat): string { seq(n, _ => '/') }

  /** The address of the preferred repository, with any number of slashes after it. */
  ghost predicate FromNimNvidia(url: string) {
    exists n: nat :: url == "https://helm.ngc.nvidia.com/nim/nvidia" + Slashes(n)
  }

  lemma {:induction false} TrimmedSlashes(url: string)
    ensures exists n: nat :: url == TrimSlashes(url) + Slashes(n)
  {
    if url != "" && url[|url| - 1] == '/' {
      var front := url[..|url| - 1];
      TrimmedSlashes(front);
      var n: nat :| front == TrimSlashes(front) + Slashes(n);
      assert url == TrimSlashes(url) + Slashes(n + 1);
    } else {
      assert url == TrimSlashes(url) + Slashes(0);
    }
  }

  lemma {:induction false} SlashesTrim(base: string, n: nat)
    requires base != "" && base[|base| - 1] != '/'
    ensures TrimSlashes(base + Slashes(n)) == base
  {
    var url := base + Slashes(n);
    if n == 0 {
      assert url == base;
    } else {
      SlashesTrim(base, n - 1);
      assert url[..|url| - 1] == base + Slashes(n - 1);
    }
  }

  lemma {:induction false} RankExactly(url: string)
    ensures RepoRank(url) == (if FromNimNvidia(url) then 1 else 0)
  {
    TrimmedSlashes(url);
    if n: nat :| url == "https://helm.ngc.nvidia.com/nim/nvidia" + Slashes(n) {
      SlashesTrim("https://helm.ngc.nvidia.com/nim/nvidia", n);
    }
  }

  // ---- Deduplication --------------------------------------------------------------------------------

  function Place(out: seq<Item>, it: Item): seq<Item> {
    if out == [] then [it]
    else if out[0].slug == it.slug then [if PreferOver(it, out[0]) then it else out[0]] + out[1..]
    else [out[0]] + Place(out[1..], it)
  }

  function Dedupe(items: seq<Item>): seq<Item> {
    if items == [] then [] else Place(Dedupe(items[..|items| - 1]), items[|items| - 1])
  }

  function Slugs(items: seq<Item>): set<string> { set it | it in items :: it.slug }

  predicate UniqueSlugs(items: seq<Item>) {
    forall i, j :: 0 <= i < j < |items| ==> items[i].slug != items[j].slug
  }

  /** Nothing in the list beats this member for its slug. */
  predicate Best(items: seq<Item>, it: Item) {
    it in items && forall other :: other in items && other.slug == it.slug ==> !PreferOver(other, it)
  }

  lemma {:induction false} PlaceAt(out: seq<Item>, it: Item, i: nat)
    requires UniqueSlugs(out) && i < |out| && out[i].slug == it.slug
    ensures Place(out, it) == out[i := if PreferOver(it, out[i]) then it else out[i]]
  {
    if i > 0 {
      assert out[0].slug != out[i].slug;
      PlaceAt(out[1..], it, i - 1);
    }
  }

  lemma {:induction false} PlaceNew(out: seq<Item>, it: Item)
    requires it.slug !in Slugs(out)
    ensures Place(out, it) == out + [it]
  {
    if out != [] {
      assert out[0] in out;
      assert forall x :: x in out[1..] ==> x in out;
      PlaceNew(out[1..], it);
    }
  }

  lemma {:induction false} SlugsPointwise(a: seq<Item>, b: seq<Item>)
    requires |a| == |b| && forall i :: 0 <= i < |a| ==> a[i].slug == b[i].slug
    ensures Slugs(a) == Slugs(b) && (UniqueSlugs(a) ==> UniqueSlugs(b))
  {
  }

  /** A placement by cases: the slug is new, or meets the entry that holds it. */
  lemma {:induction false} PlaceCases(out: seq<Item>, it: Item)
    requires UniqueSlugs(out)
    ensures UniqueSlugs(Place(out, it))
    ensures Slugs(Place(out, it)) == Slugs(out) + {it.slug}
    ensures forall x :: x in Place(out, it) <==>
              (x in out && x.slug != it.slug)
              || (x == it && forall o :: o in out && o.slug == it.slug ==> PreferOver(it, o))
              || (x in out && x.slug == it.slug && !PreferOver(it, x))
  {
    if it.slug in Slugs(out) {
      var i :| 0 <= i < |out| && out[i].slug == it.slug;
      PlaceAt(out, it, i);
      SlugsPointwise(out, out[i := if PreferOver(it, out[i]) then it else out[i]]);
      assert out[i] in out;
      PlaceMembersAt(out, it, i);
    } else {
      PlaceNew(out, it);
      Appended(out, it);
    }
  }

  lemma {:induction false} Appended(out: seq<Item>, it: Item)
    requires UniqueSlugs(out) && it.slug !in Slugs(out)
    ensures UniqueSlugs(out + [it]) && Slugs(out + [it]) == Slugs(out) + {it.slug}
    ensures forall x :: x in out ==> x.slug != it.slug
  {
    assert forall x :: x in out ==> x.slug in Slugs(out);
    assert (out + [it])[|out|] == it;
  }

  lemma {:induction false} PlaceMembersAt(out: seq<Item>, it: Item, i: nat)
    requires UniqueSlugs(out) && i < |out| && out[i].slug == it.slug
    ensures forall x :: x in out[i := if PreferOver(it, out[i]) then it else out[i]] <==>
              (x in out && x.slug != it.slug)
              || (x == it && forall o :: o in out && o.slug == it.slug ==> PreferOver(it, o))
              || (x in out && x.slug == it.slug && !PreferOver(it, x))
  {
    var r := out[i := if PreferOver(it, out[i]) then it else out[i]];
    assert forall o :: o in out && o.slug == it.slug ==> o == out[i];
    forall x | x in r
      ensures (x in out && x.slug != it.slug) || x == r[i]
    {
      var j :| 0 <= j < |r| && r[j] == x;
    }
    forall x | x in out && x.slug != it.slug
      ensures x in r
    {
      var j :| 0 <= j < |out| && out[j] == x;
      assert r[j] == x;
    }
    assert r[i] in r && out[i] in out;
  }

  /** Deduplication keeps every slug once, and for each slug an entry nothing beats. */
  lemma {:induction false} DedupeKeepsBest(items: seq<Item>)
    ensures UniqueSlugs(Dedupe(items))
    ensures Slugs(Dedupe(items)) == Slugs(items)
    ensures forall it :: it in Dedupe(items) ==> Best(items, it)
  {
    if items != [] {
      var front, it := items[..|items| - 1], items[|items| - 1];
      assert items == front + [it];
      DedupeKeepsBest(front);
      var out := Dedupe(front);
      PlaceCases(out, it);
      forall x | x in Place(out, it)
        ensures Best(items, x)
      {
        forall other | other in items && other.slug == x.slug
          ensures !PreferOver(other, x)
        {
          PreferOverStrict(it, it, it);
          if x == it && other in front {
            assert other.slug in Slugs(out);
            var o :| o in out && o.slug == other.slug;
            PreferOverStrict(other, it, o);
          }
        }
      }
    }
  }

  /**
    Of the entries of one slug the one kept is from the preferred repository if any of them is, and
    has the smallest address of those that are, or of all if none is.
  */
  lemma {:induction false} NimNvidiaWins(items: seq<Item>, it: Item, other: Item)
    requires it in Dedupe(items) && other in items && other.slug == it.slug
    ensures FromNimNvidia(other.url) ==> FromNimNvidia(it.url)
    ensures (FromNimNvidia(other.url) <==> FromNimNvidia(it.url)) ==> it.url == other.url || Less(it.url, other.url)
  {
    DedupeKeepsBest(items);
    assert Best(items, it) && !PreferOver(other, it);
    RankExactly(it.url);
    RankExactly(other.url);
    if it.url != other.url {
      LessTotal(it.url, other.url);
    }
  }

  /** The slug index the loop keeps beside its output. */
  ghost predicate Indexes(pos: map<string, nat>, out: seq<Item>) {
    && pos.Keys == Slugs(out)
    && forall s :: s in pos ==> pos[s] < |out| && out[pos[s]].slug == s
  }

  lemma {:induction false} IndexesPointwise(pos: map<string, nat>, out: seq<Item>, r: seq<Item>)
    requires UniqueSlugs(out) && Indexes(pos, out)
    requires |out| == |r| && forall i :: 0 <= i < |out| ==> out[i].slug == r[i].slug
    ensures UniqueSlugs(r) && Indexes(pos, r)
  {
  }

  lemma {:induction false} PlaceKnown(out: seq<Item>, pos: map<string, nat>, it: Item)
    requires UniqueSlugs(out) && Indexes(pos, out) && it.slug in pos
    ensures UniqueSlugs(Place(out, it)) && Indexes(pos, Place(out, it))
    ensures Place(out, it) == if PreferOver(it, out[pos[it.slug]]) then out[pos[it.slug] := it] else out
  {
    var i := pos[it.slug];
    PlaceAt(out, it, i);
    if PreferOver(it, out[i]) {
      assert Place(out, it) == out[i := it];
      IndexesPointwise(pos, out, out[i := it]);
    } else {
      assert Place(out, it) == out;
    }
  }

  lemma {:induction false} PlaceUnknown(out: seq<Item>, pos: map<string, nat>, it: Item)
    requires UniqueSlugs(out) && Indexes(pos, out) && it.slug !in pos
    ensures UniqueSlugs(Place(out, it)) && Indexes(pos[it.slug := |out|], Place(out, it))
    ensures Place(out, it) == out + [it]
  {
    PlaceNew(out, it);
    PlaceCases(out, it);
  }

  method DedupeBySlug(items: seq<Item>) returns (out: seq<Item>)
    ensures out == Dedupe(items)
  {
    var pos: map<string, nat> := map[];
    out := [];
    var n := 0;
    while n < |items|
      invariant 0 <= n <= |items|
      invariant out == Dedupe(items[..n]) && UniqueSlugs(out) && Indexes(pos, out)
    {
      var it := items[n];
      assert items[..n + 1][..n] == items[..n];
      if it.slug in pos {
        PlaceKnown(out, pos, it);
        var i := pos[it.slug];
        if PreferOver(it, out[i]) {
          out := out[i := it];
        }
      } else {
        PlaceUnknown(out, pos, it);
        pos := pos[it.slug := |out|];
        out := out + [it];
      }
      n := n + 1;
    }
    assert items[..n] == items;
  }

  // ---- Sorting by slug ---------------------------------------------------------------------------------

  predicate SlugLess(a: Item, b: Item) { Less(a.slug, b.slug) }

  lemma {:induction false} SlugLessWeakOrder()
    ensures Sorting.WeakOrder(SlugLess)
  {
    Sorting.FieldWeakOrder(SlugLess, (it: Item) => it.slug);
  }

  function BySlug(items: seq<Item>): seq<Item> { Sorting.Sort(items, SlugLess) }

  lemma {:induction false} BySlugSorts(items: seq<Item>)
    requires UniqueSlugs(items)
    ensures Ordered(BySlug(items))
    ensures forall x :: x in BySlug(items) <==> x in items
    ensures UniqueSlugs(BySlug(items)) && Slugs(BySlug(items)) == Slugs(items)
  {
    var r := BySlug(items);
    SlugLessWeakOrder();
    Sorting.SortSorts(items, SlugLess);
    Sorting.SortMembers(items, SlugLess);
    Sorting.SortKeeps(items, SlugLess);
    UniqueByMultiset(items, r);
    forall i, j | 0 <= i < j < |r|
      ensures Less(r[i].slug, r[j].slug)
    {
      assert !SlugLess(r[j], r[i]);
      LessTotal(r[i].slug, r[j].slug);
    }
  }

  predicate Ordered(items: seq<Item>) {
    forall i, j :: 0 <= i < j < |items| ==> Less(items[i].slug, items[j].slug)
  }

  lemma {:induction false} UniqueByMultiset(a: seq<Item>, b: seq<Item>)
    requires multiset(a) == multiset(b) && UniqueSlugs(a)
    ensures UniqueSlugs(b)
  {
    Sorting.DistinctPermutes(a, b);
    forall i, j | 0 <= i < j < |b|
      ensures b[i].slug != b[j].slug
    {
      assert b[i] in multiset(a) && b[j] in multiset(a);
      assert b[i] in a && b[j] in a;
    }
  }

  lemma {:induction false} HeadNotInTail(s: seq<Item>)
    requires s != [] && UniqueSlugs(s)
    ensures forall x :: x in s[1..] <==> x in s && x != s[0]
  {
  }

  lemma {:induction false} HeadComesFirst(s: seq<Item>, x: Item)
    requires Ordered(s) && x in s
    ensures s[0] == x || Less(s[0].slug, x.slug)
  {
    var i :| 0 <= i < |s| && s[i] == x;
  }

  lemma {:induction false} SameHead(s: seq<Item>, t: seq<Item>)
    requires Ordered(s) && Ordered(t) && s != [] && t != []
    requires forall x :: x in s <==> x in t
    ensures s[0] == t[0]
  {
    assert s[0] in s && t[0] in t;
    HeadComesFirst(s, t[0]);
    HeadComesFirst(t, s[0]);
    if s[0] != t[0] {
      LessAsymmetric(s[0].slug, t[0].slug);
    }
  }

  lemma {:induction false} OrderedDetermined(s: seq<Item>, t: seq<Item>)
    requires Ordered(s) && Ordered(t) && UniqueSlugs(s) && UniqueSlugs(t)
    requires forall x :: x in s <==> x in t
    ensures s == t
  {
    if s == [] {
      if t != [] {
        Sorting.NonemptyHasMember(t);
      }
    } else {
      assert s[0] in s;
      SameHead(s, t);
      HeadNotInTail(s);
      HeadNotInTail(t);
      OrderedDetermined(s[1..], t[1..]);
    }
  }

  // ---- The regenerated library --------------------------------------------------------------------------

  function Kept(existing: seq<Item>, slugs: set<string>, preserved: set<string>): seq<Item> {
    if existing == [] then []
    else
      var front, e := Kept(existing[..|existing| - 1], slugs, preserved), existing[|existing| - 1];
      if IsOwned(e, preserved) || e.slug in slugs then front else front + [e]
  }

  lemma {:induction false} KeptMembers(existing: seq<Item>, slugs: set<string>, preserved: set<string>)
    ensures forall x :: x in Kept(existing, slugs, preserved) <==>
              x in existing && !IsOwned(x, preserved) && x.slug !in slugs
  {
    if existing != [] {
      KeptMembers(existing[..|existing| - 1], slugs, preserved);
      assert existing == existing[..|existing| - 1] + [existing[|existing| - 1]];
    }
  }

  function Nvidia(existing: seq<Item>, built: seq<Item>, preserved: set<string>): seq<Item> {
    BySlug(Dedupe(Kept(existing, Slugs(built), preserved) + Dedupe(built)))
  }

  /** Exactly which entries the regenerated library holds. */
  predicate Belongs(existing: seq<Item>, built: seq<Item>, preserved: set<string>, it: Item) {
    || (it in Dedupe(built))
    || (it in Dedupe(Kept(existing, Slugs(built), preserved)))
  }

  lemma {:induction false} DedupeAppend(a: seq<Item>, b: seq<Item>)
    requires UniqueSlugs(b) && Slugs(a) !! Slugs(b)
    ensures Dedupe(a + b) == Dedupe(a) + b
  {
    if b == [] {
      assert a + b == a;
    } else {
      var front, it := b[..|b| - 1], b[|b| - 1];
      assert (a + b)[..|a + b| - 1] == a + front;
      assert b == front + [it];
      DedupeAppend(a, front);
      DedupeKeepsBest(a);
      assert it.slug in Slugs(b);
      assert it.slug !in Slugs(Dedupe(a) + front);
      PlaceNew(Dedupe(a) + front, it);
    }
  }

  lemma {:induction false} DedupeUnique(items: seq<Item>)
    requires UniqueSlugs(items)
    ensures Dedupe(items) == items
  {
    DedupeAppend([], items);
    assert [] + items == items;
  }

  lemma {:induction false} NvidiaMembers(existing: seq<Item>, built: seq<Item>, preserved: set<string>)
    ensures var out := Nvidia(existing, built, preserved);
            && Ordered(out) && UniqueSlugs(out)
            && (forall it :: it in out <==> Belongs(existing, built, preserved, it))
  {
    var kept := Kept(existing, Slugs(built), preserved);
    KeptMembers(existing, Slugs(built), preserved);
    DedupeKeepsBest(built);
    DedupeKeepsBest(kept);
    DedupeAppend(kept, Dedupe(built));
    DedupeKeepsBest(kept + Dedupe(built));
    BySlugSorts(Dedupe(kept) + Dedupe(built));
  }

  /** Hand-made entries, which no run rebuilds or drops: preserved by slug, or without the Supported chip. */
  predicate HandMade(e: Item, preserved: set<string>) {
    e.slug in preserved || forall l :: l in e.labels ==> l.code != "supported"
  }

  /**
    Slugs are unique and in order; the slugs present are those derived plus those of unowned
    entries; a derived slug carries a rebuilt entry, any other slug an untouched unowned one.
  */
  lemma {:induction false} NvidiaExact(existing: seq<Item>, built: seq<Item>, preserved: set<string>)
    ensures var out := Nvidia(existing, built, preserved);
            && Ordered(out)
            && Slugs(out) == Slugs(built) + (set e | e in existing && HandMade(e, preserved) :: e.slug)
            && (forall it :: it in out ==>
                  if it.slug in Slugs(built) then Best(built, it)
                  else it in existing && HandMade(it, preserved))
  {
    var out := Nvidia(existing, built, preserved);
    var kept := Kept(existing, Slugs(built), preserved);
    NvidiaMembers(existing, built, preserved);
    KeptMembers(existing, Slugs(built), preserved);
    DedupeKeepsBest(built);
    DedupeKeepsBest(kept);
    forall s
      ensures s in Slugs(out) <==> s in Slugs(built) || s in Slugs(kept)
    {
      if s in Slugs(built) {
        assert s in Slugs(Dedupe(built));
        var it :| it in Dedupe(built) && it.slug == s;
        assert it in out;
      } else if s in Slugs(kept) {
        assert s in Slugs(Dedupe(kept));
        var it :| it in Dedupe(kept) && it.slug == s;
        assert it in out;
      }
      if s in Slugs(out) {
        var it :| it in out && it.slug == s;
        assert it in Dedupe(built) || it in Dedupe(kept);
        assert it.slug in Slugs(Dedupe(built)) || it.slug in Slugs(Dedupe(kept));
      }
    }
    forall it | it in out
      ensures if it.slug in Slugs(built) then Best(built, it) else it in existing && HandMade(it, preserved)
    {
      assert Belongs(existing, built, preserved, it);
      if it in Dedupe(kept) {
        assert it in kept;
      }
    }
  }

  /** An entry that lost the chip is nobody's any more: no later run drops it, whatever NGC lists. */
  lemma {:induction false} UnownedStays(
    existing: seq<Item>, built: seq<Item>, later: seq<Item>, preserved: set<string>, it: Item)
    requires it in Nvidia(existing, built, preserved) && !HasSupported(it.labels)
    ensures it.slug in Slugs(Nvidia(Nvidia(existing, built, preserved), later, preserved))
  {
    NvidiaExact(Nvidia(existing, built, preserved), later, preserved);
    assert HandMade(it, preserved);
  }

  /** Running again on the output changes nothing. */
  lemma {:induction false} NvidiaIdempotent(existing: seq<Item>, built: seq<Item>, preserved: set<string>)
    ensures var out := Nvidia(existing, built, preserved);
            Nvidia(out, built, preserved) == out
  {
    var out := Nvidia(existing, built, preserved);
    var slugs := Slugs(built);
    var kept, again := Kept(existing, slugs, preserved), Kept(out, slugs, preserved);
    NvidiaMembers(existing, built, preserved);
    NvidiaMembers(out, built, preserved);
    KeptMembers(existing, slugs, preserved);
    KeptMembers(out, slugs, preserved);
    DedupeKeepsBest(built);
    DedupeKeepsBest(kept);
    KeptUnique(out, slugs, preserved);
    DedupeUnique(again);
    forall it
      ensures it in again <==> it in Dedupe(kept)
    {
      if it in Dedupe(kept) {
        assert Belongs(existing, built, preserved, it);
      }
      if it in Dedupe(built) {
        assert it.slug in Slugs(Dedupe(built));
      }
    }
    assert forall it :: Belongs(out, built, preserved, it) <==> Belongs(existing, built, preserved, it);
    OrderedDetermined(Nvidia(out, built, preserved), out);
  }

  lemma {:induction false} KeptUnique(items: seq<Item>, slugs: set<string>, preserved: set<string>)
    requires UniqueSlugs(items)
    ensures UniqueSlugs(Kept(items, slugs, preserved))
  {
    if items != [] {
      var front := items[..|items| - 1];
      KeptUnique(front, slugs, preserved);
      KeptMembers(front, slugs, preserved);
      var kept := Kept(front, slugs, preserved);
      assert forall x :: x in kept ==> x in front && x.slug != items[|items| - 1].slug;
      assert forall i :: 0 <= i < |kept| ==> kept[i] in kept;
    }
  }

  // ---- Independence of the order NGC lists charts in -----------------------------------------------

  /** Lists that hold the same entries, in whatever order. */
  ghost predicate SameItems(a: seq<Item>, b: seq<Item>) { forall x :: x in a <==> x in b }

  ghost predicate OrderIndependent(items: seq<Item>) {
    forall other :: multiset(other) == multiset(items) ==> BySlug(Dedupe(other)) == BySlug(Dedupe(items))
  }

  lemma {:induction false} PermutedSameItems(a: seq<Item>, b: seq<Item>)
    requires multiset(a) == multiset(b)
    ensures SameItems(a, b)
  {
    assert forall x :: x in a <==> x in multiset(a);
    assert forall x :: x in b <==> x in multiset(b);
  }

  lemma {:induction false} MoveToFront(items: seq<Item>, i: nat)
    requires i < |items|
    ensures multiset([items[i]] + (items[..i] + items[i + 1..])) == multiset(items)
  {
    assert items == items[..i] + [items[i]] + items[i + 1..];
  }

  /** No slug has two different unbeaten entries; unbeaten entries of a slug share their URL. */
  predicate Unambiguous(items: seq<Item>) {
    forall a, b :: a in items && b in items && a.slug == b.slug && Best(items, a) && Best(items, b) ==> a == b
  }

  lemma {:induction false} DistinctUrlsUnambiguous(items: seq<Item>)
    requires forall a, b :: a in items && b in items && a.slug == b.slug && a.url == b.url ==> a == b
    ensures Unambiguous(items)
  {
    forall a, b | a in items && b in items && a.slug == b.slug && Best(items, a) && Best(items, b)
      ensures a == b
    {
      PreferOverStrict(a, b, b);
    }
  }

  lemma {:induction false} SameBest(a: seq<Item>, b: seq<Item>)
    requires SameItems(a, b)
    ensures forall x :: Best(a, x) <==> Best(b, x)
    ensures Slugs(a) == Slugs(b)
  {
  }

  lemma {:induction false} FirstBestWins(a: Item, rest: seq<Item>)
    requires Best([a] + rest, a)
    ensures a in Dedupe([a] + rest)
  {
    var items := [a] + rest;
    if rest == [] {
      assert items[..0] == [];
    } else {
      var front, it := rest[..|rest| - 1], rest[|rest| - 1];
      assert items[..|items| - 1] == [a] + front;
      assert items == [a] + front + [it];
      FirstBestWins(a, front);
      DedupeKeepsBest([a] + front);
      PlaceCases(Dedupe([a] + front), it);
    }
  }

  lemma {:induction false} SameSurvivors(a: seq<Item>, b: seq<Item>)
    requires SameItems(a, b) && Unambiguous(b)
    ensures forall x :: x in Dedupe(a) ==> x in Dedupe(b)
  {
    SameBest(a, b);
    DedupeKeepsBest(a);
    DedupeKeepsBest(b);
    forall x | x in Dedupe(a)
      ensures x in Dedupe(b)
    {
      assert x.slug in Slugs(Dedupe(a)) && x.slug in Slugs(Dedupe(b));
      var y :| y in Dedupe(b) && y.slug == x.slug;
      assert Best(b, x) && Best(b, y);
    }
  }

  lemma {:induction false} UnambiguousSuffices(items: seq<Item>, other: seq<Item>)
    requires Unambiguous(items) && SameItems(other, items)
    ensures BySlug(Dedupe(other)) == BySlug(Dedupe(items))
  {
    SameBest(other, items);
    SameSurvivors(other, items);
    SameSurvivors(items, other);
    DedupeKeepsBest(items);
    DedupeKeepsBest(other);
    BySlugSorts(Dedupe(items));
    BySlugSorts(Dedupe(other));
    OrderedDetermined(BySlug(Dedupe(other)), BySlug(Dedupe(items)));
  }

  lemma {:induction false} BestComesFirst(items: seq<Item>, a: Item) returns (other: seq<Item>)
    requires Best(items, a)
    ensures multiset(other) == multiset(items) && a in Dedupe(other)
  {
    var i :| 0 <= i < |items| && items[i] == a;
    var rest := items[..i] + items[i + 1..];
    other := [a] + rest;
    MoveToFront(items, i);
    PermutedSameItems(other, items);
    SameBest(other, items);
    FirstBestWins(a, rest);
  }

  lemma {:induction false} BestSurvives(items: seq<Item>, a: Item)
    requires OrderIndependent(items) && Best(items, a)
    ensures a in Dedupe(items)
  {
    var other := BestComesFirst(items, a);
    Sorting.SortMembers(Dedupe(items), SlugLess);
    Sorting.SortMembers(Dedupe(other), SlugLess);
    assert a in BySlug(Dedupe(other));
  }

  /** The derived order is immaterial exactly when no slug is ambiguous. */
  lemma {:induction false} OrderIndependence(items: seq<Item>)
    ensures OrderIndependent(items) <==> Unambiguous(items)
  {
    if Unambiguous(items) {
      forall other | multiset(other) == multiset(items)
        ensures BySlug(Dedupe(other)) == BySlug(Dedupe(items))
      {
        PermutedSameItems(other, items);
        UnambiguousSuffices(items, other);
      }
    }
    if OrderIndependent(items) {
      forall a, b | a in items && b in items && a.slug == b.slug && Best(items, a) && Best(items, b)
        ensures a == b
      {
        BestSurvives(items, a);
        BestSurvives(items, b);
        DedupeKeepsBest(items);
      }
    }
  }

  /** Reordering the rebuilt entries leaves the whole regenerated library unchanged. */
  lemma {:induction false} NvidiaOrderIndependent(
    existing: seq<Item>, built: seq<Item>, other: seq<Item>, preserved: set<string>)
    requires SameItems(other, built) && Unambiguous(built)
    ensures Nvidia(existing, other, preserved) == Nvidia(existing, built, preserved)
  {
    SameBest(other, built);
    SameSurvivors(other, built);
    SameSurvivors(built, other);
    NvidiaMembers(existing, built, preserved);
    NvidiaMembers(existing, other, preserved);
    assert forall it :: Belongs(existing, other, preserved, it) <==> Belongs(existing, built, preserved, it);
    OrderedDetermined(Nvidia(existing, other, preserved), Nvidia(existing, built, preserved));
  }

  /** With settled overrides the rebuilt entries depend on which entries NGC lists and not on their order. */
  lemma {:induction false} SettledMembers(derived: seq<Item>, other: seq<Item>, ov: Overrides, chip: Label)
    requires SameItems(other, derived) && WellFormed(derived, ov)
    requires Settled(ov, chip) && chip.code == SUPPORTED_CODE
    ensures Built(derived, ov, chip).Some? && Built(other, ov, chip).Some?
    ensures forall x :: x in Built(other, ov, chip).value ==> x in Built(derived, ov, chip).value
  {
    BuiltShape(derived, ov, chip);
    BuiltShape(other, ov, chip);
    SettledEnd(derived, other, ov, chip);
    forall x | x in Built(other, ov, chip).value
      ensures x in Built(derived, ov, chip).value
    {
      var j :| 0 <= j < |other| && Built(other, ov, chip).value[j] == x;
      assert other[j] in derived;
      var i :| 0 <= i < |derived| && derived[i] == other[j];
      SettledItem(other, ov, chip, j);
      SettledItem(derived, ov, chip, i);
    }
  }

  /** The order of the derived list does not show, provided the overrides are settled and leave no slug ambiguous. */
  lemma {:induction false} SyncOrderIndependent(
    existing: seq<Item>, derived: seq<Item>, other: seq<Item>, ov: Overrides, chip: Label, preserved: set<string>)
    requires SameItems(other, derived) && Settled(ov, chip) && chip.code == SUPPORTED_CODE
    requires Built(derived, ov, chip).Some? && Unambiguous(Built(derived, ov, chip).value)
    ensures Built(other, ov, chip).Some?
    ensures Nvidia(existing, Built(other, ov, chip).value, preserved) ==
            Nvidia(existing, Built(derived, ov, chip).value, preserved)
  {
    BuiltShape(derived, ov, chip);
    SettledMembers(derived, other, ov, chip);
    SettledMembers(other, derived, ov, chip);
    NvidiaOrderIndependent(existing, Built(derived, ov, chip).value, Built(other, ov, chip).value, preserved);
  }

  lemma {:induction false} PinnedUrlItems(a: Item, b: Item, url: string)
    requires a.slug == b.slug
    ensures var built := Built([a, b], map[a.slug := Pin(None, Some(url), Unpinned, map[])], SUPPORTED_LABEL);
            && built.Some? && |built.value| == 2
            && built.value[0].slug == built.value[1].slug == a.slug && built.value[0].url == built.value[1].url == url
            && built.value[0].fields == a.fields && built.value[1].fields == b.fields
  {
    var ov := map[a.slug := Pin(None, Some(url), Unpinned, map[])];
    assert WellFormed([a, b], ov);
    BuiltAt([a, b], ov, SUPPORTED_LABEL, 0);
    BuiltAt([a, b], ov, SUPPORTED_LABEL, 1);
    assert a.fields + map[] == a.fields && b.fields + map[] == b.fields;
  }

  lemma {:induction false} TwinsAreAmbiguous(items: seq<Item>)
    requires |items| == 2 && items[0].slug == items[1].slug && items[0].url == items[1].url && items[0] != items[1]
    ensures !OrderIndependent(items)
  {
    PreferOverStrict(items[0], items[1], items[1]);
    PreferOverStrict(items[1], items[0], items[0]);
    assert Best(items, items[0]) && Best(items, items[1]);
    OrderIndependence(items);
  }

  /** Pinning the URL of a slug that two repositories publish makes the derived order show. */
  lemma {:induction false} PinnedUrlIsAmbiguous(a: Item, b: Item, url: string)
    requires a.slug == b.slug && a.fields != b.fields
    ensures var ov := map[a.slug := Pin(None, Some(url), Unpinned, map[])];
            && Settled(ov, SUPPORTED_LABEL)
            && Built([a, b], ov, SUPPORTED_LABEL).Some?
            && !OrderIndependent(Built([a, b], ov, SUPPORTED_LABEL).value)
  {
    PinnedUrlItems(a, b, url);
    TwinsAreAmbiguous(Built([a, b], map[a.slug := Pin(None, Some(url), Unpinned, map[])], SUPPORTED_LABEL).value);
  }

  // ---- The regeneration itself --------------------------------------------------------------------------

  function Library(file: map<string, seq<Item>>, name: string): seq<Item> {
    if name in file then file[name] else []
  }

  /** A sorted, duplicate-free listing of a set of slugs. */
  ghost predicate Lists(names: seq<string>, slugs: set<string>) {
    && (forall i, j :: 0 <= i < j < |names| ==> Less(names[i], names[j]))
    && (forall s :: s in names <==> s in slugs)
  }

  method SortStrings(slugs: set<string>) returns (names: seq<string>)
    ensures Lists(names, slugs)
  {
    var todo := slugs;
    var picked: seq<string> := [];
    while todo != {}
      invariant todo <= slugs
      invariant forall s :: s in picked <==> s in slugs - todo
      invariant Sorting.Distinct(picked)
      decreases |todo|
    {
      var s :| s in todo;
      assert s !in picked;
      picked := picked + [s];
      todo := todo - {s};
    }
    names := Sorting.Sort(picked, Less);
    ListsSorted(picked, slugs);
  }

  lemma {:induction false} ListsSorted(picked: seq<string>, slugs: set<string>)
    requires forall s :: s in picked <==> s in slugs
    requires Sorting.Distinct(picked)
    ensures Lists(Sorting.Sort(picked, Less), slugs)
  {
    var names := Sorting.Sort(picked, Less);
    Sorting.LessWeakOrder();
    Sorting.SortSorts(picked, Less);
    Sorting.SortMembers(picked, Less);
    Sorting.SortKeeps(picked, Less);
    Sorting.DistinctPermutes(picked, names);
    forall i, j | 0 <= i < j < |names|
      ensures Less(names[i], names[j])
    {
      LessTotal(names[i], names[j]);
    }
  }

  /** The generator, whose one Supported label is package state that overrides may write to. */
  class Generator {
    var chip: Label

    constructor ()
      ensures chip == SUPPORTED_LABEL
    {
      chip := SUPPORTED_LABEL;
    }

    /** Rebuilds every derived entry, up to the first override that does not unmarshal. */
    method Rebuild(derived: seq<Item>, ov: Overrides) returns (drafts: Option<seq<Draft>>)
      modifies this
      ensures drafts.Some? <==> Drafts(derived, ov, old(chip)).Some?
      ensures drafts.Some? ==> Drafts(derived, ov, old(chip)) == Some(Batch(chip, drafts.value))
    {
      var built: seq<Draft> := [];
      var n := 0;
      assert derived[..0] == [];
      DraftsAre([], ov, chip, []);
      while n < |derived|
        invariant 0 <= n <= |derived|
        invariant Drafts(derived[..n], ov, old(chip)) == Some(Batch(chip, built))
      {
        var d := derived[n];
        DraftsNext(derived, ov, old(chip), n);
        var pin := PinFor(ov, d.slug);
        if pin.Malformed? {
          return None;
        }
        chip := Overwritten(chip, pin.labels);
        built := built + [DraftOf(ov, d, chip)];
        n := n + 1;
      }
      assert derived[..n] == derived;
      return Some(built);
    }

    method SyncNVAIE(file: map<string, seq<Item>>, derived: seq<Item>, ov: Overrides, preserved: set<string>)
      returns (r: Outcome)
      modifies this
      ensures r.UnknownLibrary? <==> !(file.Keys <= LIBRARIES)
      ensures r.BadOverride? <==> file.Keys <= LIBRARIES && Built(derived, ov, old(chip)).None?
      ensures r.Synced? ==>
                var nvidia := Nvidia(Library(file, "nvidia"), Built(derived, ov, old(chip)).value, preserved);
                && r.catalog == map["suse-ai" := Library(file, "suse-ai"), "nvidia" := nvidia,
                                    "openshell" := Library(file, "openshell")]
                && Lists(r.added, Slugs(nvidia) - Slugs(Library(file, "nvidia")))
                && Lists(r.removed, Slugs(Library(file, "nvidia")) - Slugs(nvidia))
      ensures r.Synced? ==> chip == ChipAfter(derived, ov, old(chip))
    {
      if !(file.Keys <= LIBRARIES) {
        return UnknownLibrary;
      }
      var existing := Library(file, "nvidia");
      var drafts := Rebuild(derived, ov);
      if drafts.None? {
        return BadOverride;
      }
      var built := FinishedAll(Batch(chip, drafts.value));
      var owned := DedupeBySlug(built);
      DedupeKeepsBest(built);
      var kept := KeepUnowned(existing, Slugs(owned), preserved);
      var result := DedupeBySlug(kept + owned);
      result := BySlug(result);
      var added := SortStrings(Slugs(result) - Slugs(existing));
      var removed := SortStrings(Slugs(existing) - Slugs(result));
      r := Synced(map["suse-ai" := Library(file, "suse-ai"), "nvidia" := result,
                      "openshell" := Library(file, "openshell")], added, removed);
    }
  }

  method KeepUnowned(existing: seq<Item>, slugs: set<string>, preserved: set<string>) returns (kept: seq<Item>)
    ensures kept == Kept(existing, slugs, preserved)
  {
    kept := [];
    var n := 0;
    while n < |existing|
      invariant 0 <= n <= |existing|
      invariant kept == Kept(existing[..n], slugs, preserved)
    {
      var e := existing[n];
      assert existing[..n + 1][..n] == existing[..n];
      if !IsOwned(e, preserved) && e.slug !in slugs {
        kept := kept + [e];
      }
      n := n + 1;
    }
    assert existing[..n] == existing;
  }

  /** A second run with the same inputs, in a process of its own, reproduces the file and reports no change. */
  lemma {:induction false} SyncIdempotent(
    file: map<string, seq<Item>>, derived: seq<Item>, ov: Overrides, chip: Label, preserved: set<string>)
    requires WellFormed(derived, ov)
    ensures Built(derived, ov, chip).Some?
    ensures var built := Built(derived, ov, chip).value;
            var out := Nvidia(Library(file, "nvidia"), built, preserved);
            && Nvidia(out, built, preserved) == out
            && (forall names :: Lists(names, Slugs(Nvidia(out, built, preserved)) - Slugs(out)) <==> names == [])
            && (forall names :: Lists(names, Slugs(out) - Slugs(Nvidia(out, built, preserved))) <==> names == [])
  {
    BuiltShape(derived, ov, chip);
    var built := Built(derived, ov, chip).value;
    var out := Nvidia(Library(file, "nvidia"), built, preserved);
    NvidiaIdempotent(Library(file, "nvidia"), built, preserved);
    assert Slugs(out) - Slugs(out) == {};
    forall names | Lists(names, {})
      ensures names == []
    {
      if names != [] {
        Sorting.NonemptyHasMember(names);
      }
    }
  }

  /** In one process the second run starts from the label the first one left; settled overrides rebuild the same. */
  lemma {:induction false} SecondRunInProcess(derived: seq<Item>, ov: Overrides, chip: Label)
    requires WellFormed(derived, ov) && Settled(ov, chip) && chip.code == SUPPORTED_CODE
    ensures Built(derived, ov, ChipAfter(derived, ov, chip)) == Built(derived, ov, chip)
  {
    var left := ChipAfter(derived, ov, chip);
    CodeStays(derived, ov, chip);
    BuiltShape(derived, ov, chip);
    BuiltShape(derived, ov, left);
    if LeavesChip(ov, chip) {
      ChipStays(derived, ov, chip);
    } else {
      ChipRenamed(derived, ov, chip);
      ChipRenamed(derived, ov, left);
      forall i | 0 <= i < |derived|
        ensures Built(derived, ov, left).value[i] == Built(derived, ov, chip).value[i]
      {
        SettledItem(derived, ov, chip, i);
        SettledItem(derived, ov, left, i);
      }
      assert Built(derived, ov, left).value == Built(derived, ov, chip).value;
    }
  }
}

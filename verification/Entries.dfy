/**
  Catalog entries as they are rebuilt from what NGC lists: labels, overrides, and the one label
  that every rebuilt entry shares.

  The generator gives each derived entry the package's own one-element slice before it decodes the
  override over it. A pinned list is decoded in place, element by element, so its first element is
  written over the label all entries share. A list of two or more outgrows the slice and is copied.
*/
module Entries {
  import opened Strings

  datatype Label = Label(code: string, name: string)

  /** `fields` holds the entry's remaining JSON fields by name. */
  datatype Item = Item(slug: string, url: string, labels: seq<Label>, fields: map<string, string>)

  /** One element of a pinned list of labels: the keys it has. */
  datatype Patch = Patch(code: Option<string>, name: Option<string>)

  datatype LabelPin = Unpinned | Null | Listed(patches: seq<Patch>)

  /** A pinned partial entry, or one that does not unmarshal. */
  datatype Override =
    | Malformed
    | Pin(slug: Option<string>, url: Option<string>, labels: LabelPin, fields: map<string, string>)

  type Overrides = map<string, Override>

  /** Labels of an entry under construction: the package's slice itself, or a list of its own. */
  datatype Labels = Shared | Own(list: seq<Label>)

  datatype Draft = Draft(slug: string, url: string, labels: Labels, fields: map<string, string>)

  /** The shared label after some entries, and these entries. */
  datatype Batch = Batch(chip: Label, drafts: seq<Draft>)

  const SUPPORTED_CODE := "supported"
  const SUPPORTED_LABEL := Label(SUPPORTED_CODE, "Supported")
  const BLANK := Label("", "")
  const NO_PIN := Pin(None, None, Unpinned, map[])

  predicate HasSupported(labels: seq<Label>) { exists l :: l in labels && l.code == SUPPORTED_CODE }

  // ---- Decoding an override over an entry --------------------------------------------------------

  function Patched(l: Label, p: Patch): Label {
    Label(if p.code.Some? then p.code.value else l.code, if p.name.Some? then p.name.value else l.name)
  }

  /** The patch that lands on the shared label, if the pin has one. */
  function FirstPatch(pin: LabelPin): Option<Patch> {
    if pin.Listed? && pin.patches != [] then Some(pin.patches[0]) else None
  }

  function Overwritten(chip: Label, pin: LabelPin): Label {
    if FirstPatch(pin).Some? then Patched(chip, FirstPatch(pin).value) else chip
  }

  /** The entry's labels once the shared label has been overwritten. */
  function Decoded(pin: LabelPin, chip: Label): Labels {
    match pin
    case Unpinned => Shared
    case Null => Own([])
    case Listed(ps) =>
      if ps == [] then Own([])
      else if |ps| == 1 then Shared
      else Own([chip] + seq(|ps| - 1, i requires 0 <= i < |ps| - 1 => Patched(BLANK, ps[i + 1])))
  }

  function Seen(labels: Labels, chip: Label): seq<Label> { if labels.Shared? then [chip] else labels.list }

  /** Asserts the label again, as it reads now. */
  function EnsureSupportedLabel(labels: Labels, chip: Label): Labels {
    if HasSupported(Seen(labels, chip)) then labels else Own([chip] + Seen(labels, chip))
  }

  /** The override is looked up under the derived slug and may itself pin another slug. */
  function PinFor(ov: Overrides, slug: string): Override { if slug in ov then ov[slug] else NO_PIN }

  function LabelsFor(ov: Overrides, slug: string): LabelPin {
    if PinFor(ov, slug).Pin? then PinFor(ov, slug).labels else Unpinned
  }

  /** The draft of a derived entry, `chip` being the shared label after its override was decoded. */
  function DraftOf(ov: Overrides, d: Item, chip: Label): Draft
    requires PinFor(ov, d.slug).Pin?
  {
    var pin := PinFor(ov, d.slug);
    Draft(if pin.slug.Some? then pin.slug.value else d.slug,
          if pin.url.Some? then pin.url.value else d.url,
          EnsureSupportedLabel(Decoded(pin.labels, chip), chip),
          d.fields + pin.fields)
  }

  /** The shared label once these entries are decoded. */
  function ChipAfter(derived: seq<Item>, ov: Overrides, chip: Label): Label {
    if derived == [] then chip
    else Overwritten(ChipAfter(derived[..|derived| - 1], ov, chip), LabelsFor(ov, derived[|derived| - 1].slug))
  }

  predicate WellFormed(derived: seq<Item>, ov: Overrides) { forall d :: d in derived ==> PinFor(ov, d.slug).Pin? }

  /** Each entry is made with the shared label as the overrides up to its own have left it. */
  function Drafts(derived: seq<Item>, ov: Overrides, chip: Label): Option<Batch> {
    if !WellFormed(derived, ov) then None
    else
      Some(Batch(ChipAfter(derived, ov, chip),
                 seq(|derived|, i requires 0 <= i < |derived| =>
                   DraftOf(ov, derived[i], ChipAfter(derived[..i + 1], ov, chip)))))
  }

  function Finished(d: Draft, chip: Label): Item { Item(d.slug, d.url, Seen(d.labels, chip), d.fields) }

  function FinishedAll(b: Batch): seq<Item> {
    seq(|b.drafts|, i requires 0 <= i < |b.drafts| => Finished(b.drafts[i], b.chip))
  }

  /** The rebuilt entries, with every shared label as the last override left it. */
  function Built(derived: seq<Item>, ov: Overrides, chip: Label): Option<seq<Item>> {
    var b := Drafts(derived, ov, chip);
    if b.None? then None else Some(FinishedAll(b.value))
  }

  // ---- What the shared label does to one entry ---------------------------------------------------------

  function ItemOf(ov: Overrides, d: Item, now: Label, end: Label): Item
    requires PinFor(ov, d.slug).Pin?
  {
    Finished(DraftOf(ov, d, now), end)
  }

  predicate DraftIs(derived: seq<Item>, ov: Overrides, chip: Label, i: nat, draft: Draft)
    requires i < |derived|
  {
    PinFor(ov, derived[i].slug).Pin? && draft == DraftOf(ov, derived[i], ChipAfter(derived[..i + 1], ov, chip))
  }

  lemma {:induction false} DraftsAre(derived: seq<Item>, ov: Overrides, chip: Label, drafts: seq<Draft>)
    requires WellFormed(derived, ov) && |drafts| == |derived|
    requires forall i :: 0 <= i < |derived| ==> DraftIs(derived, ov, chip, i, drafts[i])
    ensures Drafts(derived, ov, chip) == Some(Batch(ChipAfter(derived, ov, chip), drafts))
  {
    var all := Drafts(derived, ov, chip).value.drafts;
    forall i | 0 <= i < |derived|
      ensures all[i] == drafts[i]
    {
      assert DraftIs(derived, ov, chip, i, drafts[i]);
    }
    assert all == drafts;
  }

  lemma {:induction false} DraftAt(derived: seq<Item>, ov: Overrides, chip: Label, i: nat)
    requires WellFormed(derived, ov) && i < |derived|
    ensures Drafts(derived, ov, chip).Some? && i < |Drafts(derived, ov, chip).value.drafts|
    ensures DraftIs(derived, ov, chip, i, Drafts(derived, ov, chip).value.drafts[i])
  {
    assert derived[i] in derived;
  }

  lemma {:induction false} SameDraft(
    derived: seq<Item>, ov: Overrides, chip: Label, n: nat, i: nat, draft: Draft)
    requires i < n <= |derived| && DraftIs(derived[..n], ov, chip, i, draft)
    ensures DraftIs(derived, ov, chip, i, draft)
  {
    assert derived[..n][..i + 1] == derived[..i + 1] && derived[..n][i] == derived[i];
  }

  lemma {:induction false} WellFormedLast(derived: seq<Item>, ov: Overrides)
    requires derived != []
    ensures WellFormed(derived, ov) <==>
              WellFormed(derived[..|derived| - 1], ov) && PinFor(ov, derived[|derived| - 1].slug).Pin?
  {
    assert derived == derived[..|derived| - 1] + [derived[|derived| - 1]];
  }

  lemma {:induction false} DraftsLast(derived: seq<Item>, ov: Overrides, chip: Label)
    requires derived != [] && WellFormed(derived, ov)
    ensures var n := |derived| - 1;
            var now := ChipAfter(derived, ov, chip);
            && Drafts(derived[..n], ov, chip).Some?
            && Drafts(derived, ov, chip) ==
                 Some(Batch(now, Drafts(derived[..n], ov, chip).value.drafts + [DraftOf(ov, derived[n], now)]))
  {
    var n := |derived| - 1;
    var front := Drafts(derived[..n], ov, chip).value.drafts;
    var drafts := front + [DraftOf(ov, derived[n], ChipAfter(derived, ov, chip))];
    forall i | 0 <= i < |derived|
      ensures DraftIs(derived, ov, chip, i, drafts[i])
    {
      if i < n {
        DraftAt(derived[..n], ov, chip, i);
        assert drafts[i] == front[i];
        SameDraft(derived, ov, chip, n, i, front[i]);
      } else {
        assert derived[..i + 1] == derived;
      }
    }
    DraftsAre(derived, ov, chip, drafts);
  }

  /** An override replaces the fields it pins and no others; it is looked up under the slug NGC gives. */
  lemma {:induction false} PinnedFields(ov: Overrides, d: Item, now: Label, end: Label, field: string)
    requires d.slug in ov ==> ov[d.slug].Pin?
    ensures var it := ItemOf(ov, d, now, end);
            if d.slug !in ov then it.slug == d.slug && it.url == d.url && it.fields == d.fields
            else
              var pin := ov[d.slug];
              && it.slug == (if pin.slug.Some? then pin.slug.value else d.slug)
              && it.url == (if pin.url.Some? then pin.url.value else d.url)
              && (field in it.fields <==> field in pin.fields || field in d.fields)
              && (field in it.fields ==>
                    it.fields[field] == if field in pin.fields then pin.fields[field] else d.fields[field])
  {
    assert d.fields + map[] == d.fields;
  }

  /** A pinned list of two or more is the entry's own: the shared label as overwritten, and then what the list says. */
  lemma {:induction false} OwnListExactly(ps: seq<Patch>, chip: Label, i: nat)
    requires 2 <= |ps| && i < |ps|
    ensures var labels := Decoded(Listed(ps), Overwritten(chip, Listed(ps)));
            && labels.Own? && |labels.list| == |ps|
            && (ps[i].code.Some? ==> labels.list[i].code == ps[i].code.value)
            && (ps[i].name.Some? ==> labels.list[i].name == ps[i].name.value)
            && (ps[i].code.None? ==> labels.list[i].code == if i == 0 then chip.code else "")
            && (ps[i].name.None? ==> labels.list[i].name == if i == 0 then chip.name else "")
  {
    var now := Overwritten(chip, Listed(ps));
    assert Decoded(Listed(ps), now).list[0] == now;
    assert i > 0 ==> Decoded(Listed(ps), now).list[i] == Patched(BLANK, ps[i]);
  }

  /** One more entry: it is added, or its override does not unmarshal and nothing is built. */
  lemma {:induction false} DraftsNext(derived: seq<Item>, ov: Overrides, chip: Label, n: nat)
    requires n < |derived| && Drafts(derived[..n], ov, chip).Some?
    ensures var b, d := Drafts(derived[..n], ov, chip).value, derived[n];
            if PinFor(ov, d.slug).Malformed? then Drafts(derived, ov, chip).None?
            else
              var now := Overwritten(b.chip, LabelsFor(ov, d.slug));
              Drafts(derived[..n + 1], ov, chip) == Some(Batch(now, b.drafts + [DraftOf(ov, d, now)]))
  {
    var all := derived[..n + 1];
    assert all[..n] == derived[..n] && derived[n] in derived;
    WellFormedLast(all, ov);
    if PinFor(ov, derived[n].slug).Pin? {
      DraftsLast(all, ov, chip);
    }
  }

  lemma {:induction false} BuiltShape(derived: seq<Item>, ov: Overrides, chip: Label)
    ensures Built(derived, ov, chip).Some? <==> WellFormed(derived, ov)
    ensures Built(derived, ov, chip).Some? ==> |Built(derived, ov, chip).value| == |derived|
  {
  }

  lemma {:induction false} BuiltAt(derived: seq<Item>, ov: Overrides, chip: Label, i: nat)
    requires WellFormed(derived, ov) && i < |derived|
    ensures Built(derived, ov, chip).Some? && |Built(derived, ov, chip).value| == |derived|
    ensures Built(derived, ov, chip).value[i] ==
            ItemOf(ov, derived[i], ChipAfter(derived[..i + 1], ov, chip), ChipAfter(derived, ov, chip))
  {
    DraftAt(derived, ov, chip, i);
  }

  // ---- When an entry keeps the Supported chip --------------------------------------------------------------

  /**
    Whether an entry with this pin ends up with the chip, given whether the shared label carries the
    code right after the entry and at the end.
  */
  predicate KeepsChip(pin: LabelPin, now: bool, end: bool) {
    match pin
    case Unpinned => now && end
    case Null => now
    case Listed(ps) =>
      if ps == [] then now
      else if |ps| == 1 then now && end
      else now || exists i :: 1 <= i < |ps| && ps[i].code == Some(SUPPORTED_CODE)
  }

  lemma {:induction false} ListChip(list: seq<Label>)
    ensures HasSupported(list) <==> exists i :: 0 <= i < |list| && list[i].code == SUPPORTED_CODE
  {
    if l :| l in list && l.code == SUPPORTED_CODE {
      var i :| 0 <= i < |list| && list[i] == l;
    }
    if i :| 0 <= i < |list| && list[i].code == SUPPORTED_CODE {
      assert list[i] in list;
    }
  }

  lemma {:induction false} OwnListChip(chip: Label, ps: seq<Patch>)
    requires |ps| >= 2
    ensures HasSupported(Decoded(Listed(ps), chip).list) <==>
              chip.code == SUPPORTED_CODE || exists i :: 1 <= i < |ps| && ps[i].code == Some(SUPPORTED_CODE)
  {
    var list := Decoded(Listed(ps), chip).list;
    ListChip(list);
    assert list[0] == chip && |list| == |ps|;
    assert forall i :: 1 <= i < |ps| ==> list[i] == Patched(BLANK, ps[i]);
  }

  lemma {:induction false} ItemChip(ov: Overrides, d: Item, now: Label, end: Label)
    requires PinFor(ov, d.slug).Pin?
    ensures HasSupported(ItemOf(ov, d, now, end).labels) <==>
              KeepsChip(LabelsFor(ov, d.slug), now.code == SUPPORTED_CODE, end.code == SUPPORTED_CODE)
  {
    var pin := LabelsFor(ov, d.slug);
    assert HasSupported([now]) <==> now.code == SUPPORTED_CODE by {
      assert now in [now];
    }
    assert HasSupported([end]) <==> end.code == SUPPORTED_CODE by {
      assert end in [end];
    }
    var own := Decoded(pin, now);
    if pin.Listed? && |pin.patches| >= 2 {
      OwnListChip(now, pin.patches);
      ChipFirst(now, own.list);
    } else if own.Own? {
      ChipFirst(now, []);
    } else {
      ChipFirst(now, [now]);
    }
  }

  lemma {:induction false} ChipFirst(chip: Label, rest: seq<Label>)
    ensures HasSupported([chip] + rest) <==> chip.code == SUPPORTED_CODE || HasSupported(rest)
  {
    assert ([chip] + rest)[0] == chip;
    assert forall l :: l in rest ==> l in [chip] + rest;
  }

  /** Exactly which rebuilt entries carry the chip, in terms of the derived list and the overrides. */
  lemma {:induction false} ChipKept(derived: seq<Item>, ov: Overrides, chip: Label, i: nat)
    requires WellFormed(derived, ov) && i < |derived|
    ensures Built(derived, ov, chip).Some? && i < |Built(derived, ov, chip).value|
    ensures HasSupported(Built(derived, ov, chip).value[i].labels) <==>
              KeepsChip(LabelsFor(ov, derived[i].slug),
                        ChipAfter(derived[..i + 1], ov, chip).code == SUPPORTED_CODE,
                        ChipAfter(derived, ov, chip).code == SUPPORTED_CODE)
  {
    BuiltAt(derived, ov, chip, i);
    ItemChip(ov, derived[i], ChipAfter(derived[..i + 1], ov, chip), ChipAfter(derived, ov, chip));
  }

  /** No list in the overrides file starts with another code. */
  predicate NamesNoOtherCode(ov: Overrides) {
    forall slug :: slug in ov && FirstPatch(LabelsFor(ov, slug)).Some? ==>
      FirstPatch(LabelsFor(ov, slug)).value.code in {None, Some(SUPPORTED_CODE)}
  }

  /** Whatever NGC lists, every rebuilt entry carries the chip. */
  ghost predicate ChipAlwaysKept(ov: Overrides, chip: Label) {
    forall derived, i: int :: WellFormed(derived, ov) && 0 <= i < |derived| ==>
      BuiltChip(derived, ov, chip, i)
  }

  predicate BuiltChip(derived: seq<Item>, ov: Overrides, chip: Label, i: int)
    requires WellFormed(derived, ov) && 0 <= i < |derived|
  {
    BuiltShape(derived, ov, chip);
    HasSupported(Built(derived, ov, chip).value[i].labels)
  }

  lemma {:induction false} CodeStays(derived: seq<Item>, ov: Overrides, chip: Label)
    requires NamesNoOtherCode(ov) && chip.code == SUPPORTED_CODE
    ensures ChipAfter(derived, ov, chip).code == SUPPORTED_CODE
  {
    if derived != [] {
      CodeStays(derived[..|derived| - 1], ov, chip);
      assert derived[|derived| - 1].slug !in ov ==> LabelsFor(ov, derived[|derived| - 1].slug) == Unpinned;
    }
  }

  lemma {:induction false} LongerThanAll(keys: set<string>) returns (s: string)
    ensures forall k :: k in keys ==> |k| < |s|
  {
    if keys == {} {
      s := "x";
    } else {
      var k :| k in keys;
      var t := LongerThanAll(keys - {k});
      s := seq(|k| + |t| + 1, _ => 'x');
    }
  }

  /** A derived entry that no override is for. */
  lemma {:induction false} PlainEntry(ov: Overrides) returns (e: Item)
    ensures e.slug !in ov && LabelsFor(ov, e.slug) == Unpinned && PinFor(ov, e.slug).Pin?
  {
    var slug := LongerThanAll(ov.Keys);
    e := Item(slug, "", [], map[]);
  }

  lemma {:induction false} ChipAfterTwo(a: Item, b: Item, ov: Overrides, chip: Label)
    ensures ChipAfter([a, b][..1], ov, chip) == Overwritten(chip, LabelsFor(ov, a.slug))
    ensures ChipAfter([a, b][..2], ov, chip) == ChipAfter([a, b], ov, chip)
    ensures ChipAfter([a, b], ov, chip) ==
            Overwritten(Overwritten(chip, LabelsFor(ov, a.slug)), LabelsFor(ov, b.slug))
  {
    assert [a, b][..1] == [a] && [a, b][..2] == [a, b] && [a, b][..|[a, b]| - 1] == [a];
    assert [a][..|[a]| - 1] == [];
    assert ChipAfter([a], ov, chip) == Overwritten(ChipAfter([], ov, chip), LabelsFor(ov, a.slug));
  }

  /** An overrides file is safe for the chip exactly when none of its lists starts with another code. */
  lemma {:induction false} ChipAlwaysKeptIff(ov: Overrides, chip: Label)
    requires chip.code == SUPPORTED_CODE
    ensures ChipAlwaysKept(ov, chip) <==> NamesNoOtherCode(ov)
  {
    if NamesNoOtherCode(ov) {
      forall derived, i: int | WellFormed(derived, ov) && 0 <= i < |derived|
        ensures BuiltChip(derived, ov, chip, i)
      {
        CodeStays(derived[..i + 1], ov, chip);
        CodeStays(derived, ov, chip);
        ChipKept(derived, ov, chip, i);
      }
    } else {
      var slug :| slug in ov && FirstPatch(LabelsFor(ov, slug)).Some?
                  && FirstPatch(LabelsFor(ov, slug)).value.code !in {None, Some(SUPPORTED_CODE)};
      var e := PlainEntry(ov);
      var a := Item(slug, "", [], map[]);
      ChipAfterTwo(e, a, ov, chip);
      ChipKept([e, a], ov, chip, 0);
      assert !BuiltChip([e, a], ov, chip, 0);
    }
  }

  /** A list that pins another label alone: every entry loses the chip, the pinned one doubly. */
  lemma {:induction false} PinnedLabelTakesTheChip(plain: Item, pinned: Item, other: Label)
    requires plain.slug != pinned.slug && other.code != SUPPORTED_CODE
    ensures var ov := map[pinned.slug := Pin(None, None, Listed([Patch(Some(other.code), Some(other.name))]), map[])];
            var built := Built([plain, pinned], ov, SUPPORTED_LABEL);
            && built.Some? && |built.value| == 2
            && built.value[0] == plain.(labels := [other]) && built.value[1] == pinned.(labels := [other, other])
  {
    var ov := map[pinned.slug := Pin(None, None, Listed([Patch(Some(other.code), Some(other.name))]), map[])];
    ChipAfterTwo(plain, pinned, ov, SUPPORTED_LABEL);
    BuiltAt([plain, pinned], ov, SUPPORTED_LABEL, 0);
    BuiltAt([plain, pinned], ov, SUPPORTED_LABEL, 1);
    UnpinnedEntry(plain, ov, SUPPORTED_LABEL, other);
    RelabelledEntry(pinned, ov, other);
  }

  /** An entry without an override keeps all it has and shows the shared label as it ends. */
  lemma {:induction false} UnpinnedEntry(d: Item, ov: Overrides, now: Label, end: Label)
    requires d.slug !in ov && now.code == SUPPORTED_CODE
    ensures ItemOf(ov, d, now, end) == d.(labels := [end])
  {
    assert now in [now] && HasSupported([now]);
    assert d.fields + map[] == d.fields;
  }

  lemma {:induction false} RelabelledEntry(d: Item, ov: Overrides, other: Label)
    requires d.slug in ov && other.code != SUPPORTED_CODE
    requires ov[d.slug] == Pin(None, None, Listed([Patch(Some(other.code), Some(other.name))]), map[])
    ensures ItemOf(ov, d, other, other) == d.(labels := [other, other])
  {
    assert !HasSupported([other]) && [other] + [other] == [other, other];
    assert d.fields + map[] == d.fields;
  }

  // ---- When the derived order does not show in an entry --------------------------------------------------

  /** What becomes of a derived entry does not depend on where NGC lists it. */
  ghost predicate OrderFree(ov: Overrides, chip: Label) {
    forall derived, other, i: int, j: int ::
      && WellFormed(derived, ov) && multiset(other) == multiset(derived)
      && 0 <= i < |derived| && 0 <= j < |other| && derived[i] == other[j] ==>
        SameEntry(derived, other, ov, chip, i, j)
  }

  predicate SameEntry(derived: seq<Item>, other: seq<Item>, ov: Overrides, chip: Label, i: int, j: int)
    requires 0 <= i < |derived| && 0 <= j < |other|
  {
    BuiltShape(derived, ov, chip);
    BuiltShape(other, ov, chip);
    var a, b := Built(derived, ov, chip), Built(other, ov, chip);
    a.Some? && b.Some? && a.value[i] == b.value[j]
  }

  function NewName(pin: LabelPin): Option<string> {
    if FirstPatch(pin).Some? then FirstPatch(pin).value.name else None
  }

  /** Every list in the file leaves the shared label as it is. */
  predicate LeavesChip(ov: Overrides, chip: Label) {
    forall slug :: slug in ov ==> Overwritten(chip, LabelsFor(ov, slug)) == chip
  }

  /** Lists that copy the shared label without naming it: the empty ones, and longer ones with a nameless head. */
  predicate CopiesChip(pin: LabelPin) {
    match pin
    case Unpinned => false
    case Null => true
    case Listed(ps) => ps == [] || (|ps| >= 2 && ps[0].name == None)
  }

  /** All lists that rename the shared label give it one name, and no entry keeps a copy of an earlier one. */
  predicate RenamesAlike(ov: Overrides) {
    && (forall s, t :: s in ov && t in ov && NewName(LabelsFor(ov, s)).Some? && NewName(LabelsFor(ov, t)).Some? ==>
          NewName(LabelsFor(ov, s)) == NewName(LabelsFor(ov, t)))
    && forall s :: s in ov ==> !CopiesChip(LabelsFor(ov, s))
  }

  predicate Settled(ov: Overrides, chip: Label) {
    NamesNoOtherCode(ov) && (LeavesChip(ov, chip) || RenamesAlike(ov))
  }

  lemma {:induction false} ChipStays(derived: seq<Item>, ov: Overrides, chip: Label)
    requires LeavesChip(ov, chip)
    ensures ChipAfter(derived, ov, chip) == chip
  {
    if derived != [] {
      ChipStays(derived[..|derived| - 1], ov, chip);
      assert derived[|derived| - 1].slug !in ov ==> LabelsFor(ov, derived[|derived| - 1].slug) == Unpinned;
    }
  }

  predicate Renames(ov: Overrides, d: Item) { NewName(LabelsFor(ov, d.slug)).Some? }

  lemma {:induction false} ChipRenamed(derived: seq<Item>, ov: Overrides, chip: Label)
    requires NamesNoOtherCode(ov) && RenamesAlike(ov) && chip.code == SUPPORTED_CODE
    ensures forall d :: d in derived && Renames(ov, d) ==>
              ChipAfter(derived, ov, chip) == Label(SUPPORTED_CODE, NewName(LabelsFor(ov, d.slug)).value)
    ensures (forall d :: d in derived ==> !Renames(ov, d)) ==> ChipAfter(derived, ov, chip) == chip
  {
    if derived != [] {
      var front, last := derived[..|derived| - 1], derived[|derived| - 1];
      assert derived == front + [last];
      ChipRenamed(front, ov, chip);
      CodeStays(derived, ov, chip);
      CodeStays(front, ov, chip);
      assert last.slug !in ov ==> LabelsFor(ov, last.slug) == Unpinned;
      if forall d :: d in derived ==> !Renames(ov, d) {
        assert last in derived && forall d :: d in front ==> d in derived;
        assert ChipAfter(front, ov, chip) == chip;
        assert ChipAfter(derived, ov, chip).name == chip.name;
      }
      forall d | d in derived && Renames(ov, d)
        ensures ChipAfter(derived, ov, chip) == Label(SUPPORTED_CODE, NewName(LabelsFor(ov, d.slug)).value)
      {
        assert d.slug in ov;
        if Renames(ov, last) {
          assert last.slug in ov;
        } else {
          assert d in front;
        }
      }
    }
  }

  /** With settled overrides the shared label ends the same for every order, and an entry reads that end alone. */
  lemma {:induction false} SettledItem(derived: seq<Item>, ov: Overrides, chip: Label, i: nat)
    requires Settled(ov, chip) && chip.code == SUPPORTED_CODE && WellFormed(derived, ov) && i < |derived|
    ensures Built(derived, ov, chip).Some? && i < |Built(derived, ov, chip).value|
    ensures var end := ChipAfter(derived, ov, chip);
            Built(derived, ov, chip).value[i] == ItemOf(ov, derived[i], end, end)
  {
    BuiltAt(derived, ov, chip, i);
    var d, now, end := derived[i], ChipAfter(derived[..i + 1], ov, chip), ChipAfter(derived, ov, chip);
    CodeStays(derived[..i + 1], ov, chip);
    CodeStays(derived, ov, chip);
    if LeavesChip(ov, chip) {
      ChipStays(derived[..i + 1], ov, chip);
      ChipStays(derived, ov, chip);
    } else if Renames(ov, d) {
      assert d == derived[..i + 1][i] && d in derived[..i + 1];
      ChipRenamed(derived[..i + 1], ov, chip);
      ChipRenamed(derived, ov, chip);
    } else {
      assert d.slug !in ov ==> LabelsFor(ov, d.slug) == Unpinned;
      assert Decoded(LabelsFor(ov, d.slug), now) == Shared;
      SharedStays(ov, d, now, end);
    }
  }

  lemma {:induction false} SharedStays(ov: Overrides, d: Item, now: Label, end: Label)
    requires PinFor(ov, d.slug).Pin? && now.code == SUPPORTED_CODE && end.code == SUPPORTED_CODE
    requires Decoded(LabelsFor(ov, d.slug), now) == Shared
    ensures ItemOf(ov, d, now, end) == ItemOf(ov, d, end, end)
  {
    assert Decoded(LabelsFor(ov, d.slug), end) == Shared;
    assert now in [now] && end in [end];
    assert HasSupported([now]) && HasSupported([end]);
  }

  lemma {:induction false} SettledEnd(derived: seq<Item>, other: seq<Item>, ov: Overrides, chip: Label)
    requires Settled(ov, chip) && chip.code == SUPPORTED_CODE && forall d :: d in other <==> d in derived
    ensures ChipAfter(other, ov, chip) == ChipAfter(derived, ov, chip)
  {
    if LeavesChip(ov, chip) {
      ChipStays(derived, ov, chip);
      ChipStays(other, ov, chip);
    } else {
      ChipRenamed(derived, ov, chip);
      ChipRenamed(other, ov, chip);
    }
  }

  lemma {:induction false} SettledSuffices(ov: Overrides, chip: Label)
    requires Settled(ov, chip) && chip.code == SUPPORTED_CODE
    ensures OrderFree(ov, chip)
  {
    forall derived, other, i: int, j: int |
      && WellFormed(derived, ov) && multiset(other) == multiset(derived)
      && 0 <= i < |derived| && 0 <= j < |other| && derived[i] == other[j]
      ensures SameEntry(derived, other, ov, chip, i, j)
    {
      assert forall d :: d in other <==> d in multiset(other);
      assert forall d :: d in derived <==> d in multiset(derived);
      SettledItem(derived, ov, chip, i);
      SettledItem(other, ov, chip, j);
      SettledEnd(derived, other, ov, chip);
    }
  }

  lemma {:induction false} EndDiffers(
    derived: seq<Item>, other: seq<Item>, ov: Overrides, chip: Label, i: nat, j: nat)
    requires WellFormed(derived, ov) && WellFormed(other, ov) && multiset(other) == multiset(derived)
    requires i < |derived| && j < |other| && derived[i] == other[j]
    requires ItemOf(ov, derived[i], ChipAfter(derived[..i + 1], ov, chip), ChipAfter(derived, ov, chip)).labels
             != ItemOf(ov, other[j], ChipAfter(other[..j + 1], ov, chip), ChipAfter(other, ov, chip)).labels
    ensures !OrderFree(ov, chip)
  {
    BuiltAt(derived, ov, chip, i);
    BuiltAt(other, ov, chip, j);
    assert !SameEntry(derived, other, ov, chip, i, j);
  }

  lemma {:induction false} Swapped(a: Item, b: Item)
    ensures multiset([b, a]) == multiset([a, b])
  {
    assert [b, a] == [b] + [a] && [a, b] == [a] + [b];
  }

  /** Another code shows: an entry listed before the override loses its label, one listed after doubles it. */
  lemma {:induction false} OtherCodeShows(ov: Overrides, chip: Label, slug: string)
    requires chip.code == SUPPORTED_CODE && slug in ov && FirstPatch(LabelsFor(ov, slug)).Some?
    requires FirstPatch(LabelsFor(ov, slug)).value.code !in {None, Some(SUPPORTED_CODE)}
    ensures !OrderFree(ov, chip)
  {
    var e := PlainEntry(ov);
    var a := Item(slug, "", [], map[]);
    ChipAfterTwo(a, e, ov, chip);
    ChipAfterTwo(e, a, ov, chip);
    Swapped(a, e);
    var after := Overwritten(chip, LabelsFor(ov, slug));
    assert chip in [chip] && HasSupported([chip]) && !HasSupported([after]);
    assert |ItemOf(ov, e, after, after).labels| == 2 && |ItemOf(ov, e, chip, after).labels| == 1;
    EndDiffers([a, e], [e, a], ov, chip, 1, 0);
  }

  lemma {:induction false} PlainItem(ov: Overrides, e: Item, chip: Label)
    requires PinFor(ov, e.slug).Pin? && LabelsFor(ov, e.slug) == Unpinned && chip.code == SUPPORTED_CODE
    ensures ItemOf(ov, e, chip, chip).labels == [chip]
  {
    assert chip in [chip] && HasSupported([chip]);
  }

  lemma {:induction false} SwappedBefore(a: Item, b: Item, e: Item)
    ensures multiset([b, a, e]) == multiset([a, b, e])
  {
    assert [a, b, e] == [a] + [b] + [e] && [b, a, e] == [b] + [a] + [e];
  }

  /** Two names for the shared label show: every plain entry ends with the one pinned last. */
  lemma {:induction false} TwoNamesShow(ov: Overrides, chip: Label, s: string, t: string)
    requires chip.code == SUPPORTED_CODE && NamesNoOtherCode(ov) && s in ov && t in ov
    requires NewName(LabelsFor(ov, s)).Some? && NewName(LabelsFor(ov, t)).Some?
    requires NewName(LabelsFor(ov, s)) != NewName(LabelsFor(ov, t))
    ensures !OrderFree(ov, chip)
  {
    var e := PlainEntry(ov);
    var a, b := Item(s, "", [], map[]), Item(t, "", [], map[]);
    LastNameWins(a, b, e, ov, chip);
    LastNameWins(b, a, e, ov, chip);
    CodeStays([a, b, e], ov, chip);
    CodeStays([b, a, e], ov, chip);
    var x, y := ChipAfter([a, b, e], ov, chip), ChipAfter([b, a, e], ov, chip);
    PlainItem(ov, e, x);
    PlainItem(ov, e, y);
    assert [x][0] != [y][0];
    SwappedBefore(a, b, e);
    EndDiffers([a, b, e], [b, a, e], ov, chip, 2, 2);
  }

  lemma {:induction false} ChipAfterThree(a: Item, b: Item, e: Item, ov: Overrides, chip: Label)
    requires LabelsFor(ov, e.slug) == Unpinned
    ensures [a, b, e][..3] == [a, b, e]
    ensures ChipAfter([a, b, e], ov, chip) ==
            Overwritten(Overwritten(chip, LabelsFor(ov, a.slug)), LabelsFor(ov, b.slug))
  {
    ChipAfterTwo(a, b, ov, chip);
    assert [a, b, e][..|[a, b, e]| - 1] == [a, b];
  }

  lemma {:induction false} LastNameWins(a: Item, b: Item, e: Item, ov: Overrides, chip: Label)
    requires LabelsFor(ov, e.slug) == Unpinned && NewName(LabelsFor(ov, b.slug)).Some?
    ensures [a, b, e][..3] == [a, b, e]
    ensures ChipAfter([a, b, e], ov, chip).name == NewName(LabelsFor(ov, b.slug)).value
  {
    ChipAfterThree(a, b, e, ov, chip);
  }

  /** A copy of the shared label shows whether a rename comes before or after it. */
  lemma {:induction false} CopyShows(ov: Overrides, chip: Label, w: string, z: string)
    requires chip.code == SUPPORTED_CODE && NamesNoOtherCode(ov) && w in ov && z in ov
    requires NewName(LabelsFor(ov, w)).Some? && NewName(LabelsFor(ov, w)) != Some(chip.name)
    requires CopiesChip(LabelsFor(ov, z)) && PinFor(ov, w).Pin? && PinFor(ov, z).Pin?
    ensures !OrderFree(ov, chip)
  {
    var a, b := Item(w, "", [], map[]), Item(z, "", [], map[]);
    Swapped(a, b);
    RenamedCopy(ov, chip, a, b);
    CodeStays([a, b], ov, chip);
    CodeStays([b, a][..1], ov, chip);
    CopyKeeps(ov, b, ChipAfter([a, b][..2], ov, chip), ChipAfter([a, b], ov, chip));
    CopyKeeps(ov, b, ChipAfter([b, a][..1], ov, chip), ChipAfter([b, a], ov, chip));
    EndDiffers([a, b], [b, a], ov, chip, 1, 0);
  }

  /** The label an entry copies, with a rename before it or after it. */
  lemma {:induction false} RenamedCopy(ov: Overrides, chip: Label, a: Item, b: Item)
    requires NewName(LabelsFor(ov, a.slug)).Some? && CopiesChip(LabelsFor(ov, b.slug))
    ensures [a, b][..2] == [a, b]
    ensures ChipAfter([a, b], ov, chip).name == NewName(LabelsFor(ov, a.slug)).value
    ensures ChipAfter([b, a][..1], ov, chip).name == chip.name
  {
    ChipAfterTwo(a, b, ov, chip);
    ChipAfterTwo(b, a, ov, chip);
    CopyNamesNothing(LabelsFor(ov, b.slug), chip);
    CopyNamesNothing(LabelsFor(ov, b.slug), Overwritten(chip, LabelsFor(ov, a.slug)));
  }

  lemma {:induction false} CopyNamesNothing(pin: LabelPin, chip: Label)
    requires CopiesChip(pin)
    ensures Overwritten(chip, pin).name == chip.name
  {
  }

  lemma {:induction false} CopyKeeps(ov: Overrides, d: Item, now: Label, end: Label)
    requires PinFor(ov, d.slug).Pin? && CopiesChip(LabelsFor(ov, d.slug)) && now.code == SUPPORTED_CODE
    ensures var labels := ItemOf(ov, d, now, end).labels; labels != [] && labels[0] == now
  {
    var own := Decoded(LabelsFor(ov, d.slug), now);
    if own.list != [] {
      assert own.list[0] == now && now in own.list;
      assert HasSupported(own.list);
    }
  }

  /**
    The order NGC lists charts in never shows in an entry exactly when no list in the overrides file
    starts with another code, and either none changes the shared label or all that do rename it alike
    while none keeps a copy.
  */
  lemma {:induction false} OrderFreeIff(ov: Overrides, chip: Label)
    requires chip.code == SUPPORTED_CODE
    ensures OrderFree(ov, chip) <==> Settled(ov, chip)
  {
    if Settled(ov, chip) {
      SettledSuffices(ov, chip);
    } else if !NamesNoOtherCode(ov) {
      var slug :| slug in ov && FirstPatch(LabelsFor(ov, slug)).Some?
                  && FirstPatch(LabelsFor(ov, slug)).value.code !in {None, Some(SUPPORTED_CODE)};
      OtherCodeShows(ov, chip, slug);
    } else {
      var w :| w in ov && Overwritten(chip, LabelsFor(ov, w)) != chip;
      if s, t :| s in ov && t in ov && NewName(LabelsFor(ov, s)).Some? && NewName(LabelsFor(ov, t)).Some?
                 && NewName(LabelsFor(ov, s)) != NewName(LabelsFor(ov, t)) {
        TwoNamesShow(ov, chip, s, t);
      } else {
        var z :| z in ov && CopiesChip(LabelsFor(ov, z));
        CopyShows(ov, chip, w, z);
      }
    }
  }
}

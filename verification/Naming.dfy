/**
  Names derived for Kubernetes objects and Helm releases.

  A string is a sequence of characters where Go works on runes (Slugify), and a sequence of
  bytes where Go works on bytes (truncation); on ASCII, where every result lives, the two agree.
*/
module Naming {

  predicate Alnum(c: char) { 'a' <= c <= 'z' || '0' <= c <= '9' }

  lemma {:induction false} AlnumExactly(c: char)
    ensures Alnum(c) <==> c in "abcdefghijklmnopqrstuvwxyz0123456789"
  {
  }

  predicate LabelChar(c: char) { Alnum(c) || c == '-' }

  predicate LabelChars(s: string) { forall i :: 0 <= i < |s| ==> LabelChar(s[i]) }

  /** A DNS label as section 2.1 of RFC 1123 and Kubernetes read it, the length cap aside. */
  predicate Label(s: string) {
    |s| > 0 && LabelChars(s) && Alnum(s[0]) && Alnum(s[|s| - 1])
  }

  // ---- Slugify -----------------------------------------------------------------------------

  /** unicode.ToLower, as far as [a-z0-9] can tell: besides A-Z, two letters land in ASCII. */
  function Lower(c: char): char {
    if 'A' <= c <= 'Z' then ((c as int) + 32) as char
    else if c == '\U{212A}' then 'k'
    else if c == '\U{0130}' then 'i'
    else c
  }

  function ToLower(s: string): (r: string)
    ensures |r| == |s|
  {
    seq(|s|, i requires 0 <= i < |s| => Lower(s[i]))
  }

  /** Each capital becomes its small letter, two letters beyond ASCII become k and i, and nothing else changes. */
  lemma {:induction false} LowerExactly(c: char, i: nat)
    requires i < 26
    ensures var capitals, small := "ABCDEFGHIJKLMNOPQRSTUVWXYZ", "abcdefghijklmnopqrstuvwxyz";
            && Lower(capitals[i]) == small[i]
            && (c !in capitals && c != '\U{212A}' && c != '\U{0130}' ==> Lower(c) == c)
    ensures Lower('\U{212A}') == 'k' && Lower('\U{0130}') == 'i'
  {
    var capitals := "ABCDEFGHIJKLMNOPQRSTUVWXYZ";
    if 'A' <= c <= 'Z' {
      var j := (c as int) - 65;
      assert capitals[j] == c;
    }
  }

  function SkipSeparators(s: string): (r: string)
    ensures |r| <= |s| && (r != "" ==> Alnum(r[0]))
  {
    if s == "" || Alnum(s[0]) then s else SkipSeparators(s[1..])
  }

  /** Replaces each run of separators by one dash. */
  function Collapse(s: string): string
    decreases |s|
  {
    if s == "" then ""
    else if Alnum(s[0]) then [s[0]] + Collapse(s[1..])
    else "-" + Collapse(SkipSeparators(s[1..]))
  }

  function TrimLeft(s: string): (r: string)
    ensures r == "" || r[0] != '-'
    ensures |r| <= |s| && r == s[|s| - |r|..]
    ensures s != "" && s[0] != '-' ==> r == s
    ensures forall i :: 0 <= i < |s| - |r| ==> s[i] == '-'
  {
    if s != "" && s[0] == '-' then
      var r := TrimLeft(s[1..]);
      assert s[1..][|s| - 1 - |r|..] == s[|s| - |r|..];
      assert forall i :: 1 <= i < |s| ==> s[i] == s[1..][i - 1];
      r
    else s
  }

  function TrimRight(s: string): (r: string)
    ensures r == "" || r[|r| - 1] != '-'
    ensures |r| <= |s| && r == s[..|r|]
    ensures forall i :: |r| <= i < |s| ==> s[i] == '-'
  {
    if s != "" && s[|s| - 1] == '-' then TrimRight(s[..|s| - 1]) else s
  }

  function Trim(s: string): string { TrimRight(TrimLeft(s)) }

  function Slugify(s: string): string { Trim(Collapse(ToLower(s))) }

  /** The language Slugify maps into. */
  predicate Slug(s: string) {
    && LabelChars(s)
    && (s != "" ==> s[0] != '-' && s[|s| - 1] != '-')
    && NoDoubleDash(s)
  }

  predicate NoDoubleDash(s: string) {
    forall i :: 0 <= i < |s| - 1 ==> s[i] != '-' || s[i + 1] != '-'
  }

  lemma {:induction false} CollapseShape(s: string)
    ensures LabelChars(Collapse(s)) && NoDoubleDash(Collapse(s))
    ensures s != "" && Alnum(s[0]) ==> Collapse(s) != "" && Collapse(s)[0] == s[0]
    decreases |s|
  {
    if s != "" {
      if Alnum(s[0]) {
        CollapseShape(s[1..]);
      } else {
        CollapseShape(SkipSeparators(s[1..]));
      }
    }
  }

  lemma {:induction false} CollapseFixes(s: string)
    requires LabelChars(s) && NoDoubleDash(s)
    ensures Collapse(s) == s
    decreases |s|
  {
    if s != "" {
      assert s == [s[0]] + s[1..];
      CollapseFixes(s[1..]);
    }
  }

  lemma {:induction false} SlugFixed(s: string)
    requires Slug(s)
    ensures Slugify(s) == s
  {
    assert ToLower(s) == s by {
      assert forall i :: 0 <= i < |s| ==> LabelChar(s[i]) && Lower(s[i]) == s[i];
    }
    CollapseFixes(s);
    assert TrimLeft(s) == s;
  }

  lemma {:induction false} SliceShape(s: string, lo: nat, hi: nat)
    requires lo <= hi <= |s|
    ensures LabelChars(s) ==> LabelChars(s[lo..hi])
    ensures NoDoubleDash(s) ==> NoDoubleDash(s[lo..hi])
  {
  }

  /** Trimming yields a slice without outer dashes. */
  lemma {:induction false} TrimSlice(s: string) returns (lo: nat, hi: nat)
    ensures lo <= hi <= |s| && Trim(s) == s[lo..hi]
    ensures Trim(s) != "" ==> Trim(s)[0] != '-' && Trim(s)[|Trim(s)| - 1] != '-'
    ensures forall i :: 0 <= i < lo || hi <= i < |s| ==> s[i] == '-'
  {
    var l := TrimLeft(s);
    var r := TrimRight(l);
    lo, hi := |s| - |l|, |s| - |l| + |r|;
    SliceInside(s, l, r);
  }

  lemma {:induction false} SliceInside(s: string, l: string, r: string)
    requires |l| <= |s| && l == s[|s| - |l|..] && |r| <= |l| && r == l[..|r|]
    requires forall i :: |r| <= i < |l| ==> l[i] == '-'
    ensures var lo := |s| - |l|; r == s[lo..lo + |r|] && forall i :: lo + |r| <= i < |s| ==> s[i] == '-'
  {
    var lo := |s| - |l|;
    forall i | lo + |r| <= i < |s|
      ensures s[i] == '-'
    {
      assert s[i] == l[i - lo];
    }
  }

  lemma {:induction false} SlugifySlug(s: string)
    ensures Slug(Slugify(s))
  {
    var c := Collapse(ToLower(s));
    CollapseShape(ToLower(s));
    var lo, hi := TrimSlice(c);
    SliceShape(c, lo, hi);
  }

  /** The fixed points of Slugify are exactly its outputs. */
  lemma {:induction false} SlugifyFixedPoints(s: string)
    ensures Slugify(s) == s <==> Slug(s)
    ensures Slugify(Slugify(s)) == Slugify(s)
  {
    SlugifySlug(s);
    SlugFixed(Slugify(s));
    if Slug(s) {
      SlugFixed(s);
    }
  }

  // ---- What a slug says: the alphanumeric words of the input, joined by dashes ---------------

  function Word(s: string): (r: string)
    ensures |r| <= |s| && r == s[..|r|]
    ensures s != "" && Alnum(s[0]) ==> r != ""
    ensures |r| < |s| ==> !Alnum(s[|r|])
    ensures forall i :: 0 <= i < |r| ==> Alnum(r[i])
  {
    if s != "" && Alnum(s[0]) then [s[0]] + Word(s[1..]) else ""
  }

  function Words(s: string): seq<string>
    decreases |s|
  {
    if s == "" then []
    else if !Alnum(s[0]) then Words(s[1..])
    else [Word(s)] + Words(s[|Word(s)|..])
  }

  function JoinDash(ws: seq<string>): string {
    if ws == [] then "" else if |ws| == 1 then ws[0] else ws[0] + "-" + JoinDash(ws[1..])
  }

  lemma {:induction false} CollapseWord(s: string)
    ensures Collapse(s) == Word(s) + Collapse(s[|Word(s)|..])
    decreases |s|
  {
    if s != "" && Alnum(s[0]) {
      CollapseWord(s[1..]);
      assert s[1..][|Word(s[1..])|..] == s[|Word(s)|..];
    } else {
      assert s[|Word(s)|..] == s;
    }
  }

  lemma {:induction false} WordsSkip(s: string)
    ensures Words(SkipSeparators(s)) == Words(s)
    decreases |s|
  {
    if s != "" && !Alnum(s[0]) {
      WordsSkip(s[1..]);
    }
  }

  lemma {:induction false} TrimRightAppend(a: string, b: string)
    requires b != "" && b[0] != '-'
    ensures TrimRight(a + b) == a + TrimRight(b)
    decreases |b|
  {
    if b[|b| - 1] == '-' {
      assert (a + b)[..|a + b| - 1] == a + b[..|b| - 1];
      TrimRightAppend(a, b[..|b| - 1]);
    }
  }

  lemma {:induction false} TrimWhole(w: string)
    requires w != "" && w[0] != '-' && w[|w| - 1] != '-'
    ensures Trim(w) == w
  {
  }

  lemma {:induction false} TrimDash(w: string)
    requires w != "" && w[0] != '-' && w[|w| - 1] != '-'
    ensures Trim(w + "-") == w
  {
    assert (w + "-")[..|w|] == w;
  }

  lemma {:induction false} TrimTail(w: string, c: string)
    requires w != "" && w[0] != '-' && c != "" && c[0] != '-'
    ensures Trim(w + "-" + c) == w + "-" + Trim(c)
  {
    TrimRightAppend(w + "-", c);
  }

  /** What collapsing makes of a word and what follows it. */
  lemma {:induction false} CollapseAfterWord(s: string, next: string)
    requires s != "" && Alnum(s[0])
    requires var rest := s[|Word(s)|..]; next == if rest == "" then "" else SkipSeparators(rest[1..])
    ensures if next == "" then Collapse(s) == Word(s) || Collapse(s) == Word(s) + "-"
            else Collapse(s) == Word(s) + "-" + Collapse(next)
  {
    CollapseWord(s);
  }

  lemma {:induction false} WordEnds(s: string)
    requires s != "" && Alnum(s[0])
    ensures Word(s) != "" && Word(s)[0] != '-' && Word(s)[|Word(s)| - 1] != '-'
  {
  }

  lemma {:induction false} TrimAfterLast(s: string)
    requires s != "" && Alnum(s[0]) && (Collapse(s) == Word(s) || Collapse(s) == Word(s) + "-")
    ensures Trim(Collapse(s)) == Word(s)
  {
    WordEnds(s);
    if Collapse(s) == Word(s) {
      TrimWhole(Word(s));
    } else {
      TrimDash(Word(s));
    }
  }

  lemma {:induction false} TrimAfterInner(s: string, next: string)
    requires s != "" && Alnum(s[0]) && next != "" && Alnum(next[0]) && Collapse(s) == Word(s) + "-" + Collapse(next)
    ensures Trim(Collapse(s)) == Word(s) + "-" + Trim(Collapse(next))
  {
    WordEnds(s);
    CollapseShape(next);
    TrimTail(Word(s), Collapse(next));
  }

  /** The step of TrimCollapse at a word: what follows it starts with a separator, or is empty. */
  lemma {:induction false} TrimAfterWord(s: string, next: string)
    requires s != "" && Alnum(s[0])
    requires var rest := s[|Word(s)|..]; next == if rest == "" then "" else SkipSeparators(rest[1..])
    ensures Trim(Collapse(s)) == if next == "" then Word(s) else Word(s) + "-" + Trim(Collapse(next))
  {
    CollapseAfterWord(s, next);
    if next == "" {
      TrimAfterLast(s);
    } else {
      TrimAfterInner(s, next);
    }
  }

  lemma {:induction false} WordsAfterWord(s: string, next: string)
    requires s != "" && Alnum(s[0])
    requires var rest := s[|Word(s)|..]; next == if rest == "" then "" else SkipSeparators(rest[1..])
    ensures Words(s) == [Word(s)] + Words(next)
    ensures next != "" ==> Words(next) != []
  {
    var rest := s[|Word(s)|..];
    if rest != "" {
      WordsSkip(rest[1..]);
    }
  }

  lemma {:induction false} TrimSeparator(s: string)
    requires s != "" && !Alnum(s[0])
    ensures Trim(Collapse(s)) == Trim(Collapse(SkipSeparators(s[1..])))
    ensures Words(s) == Words(SkipSeparators(s[1..]))
  {
    WordsSkip(s[1..]);
    assert Collapse(s)[1..] == Collapse(SkipSeparators(s[1..]));
  }

  lemma {:induction false} TrimCollapse(s: string)
    ensures Trim(Collapse(s)) == JoinDash(Words(s))
    decreases |s|
  {
    if s == "" {
      assert Collapse(s) == "" && Words(s) == [];
      assert TrimLeft("") == "" && TrimRight("") == "";
    } else if !Alnum(s[0]) {
      TrimSeparator(s);
      TrimCollapse(SkipSeparators(s[1..]));
    } else {
      var rest := s[|Word(s)|..];
      var next := if rest == "" then "" else SkipSeparators(rest[1..]);
      TrimAfterWord(s, next);
      WordsAfterWord(s, next);
      TrimCollapse(next);
      JoinDashCons(Word(s), Words(next));
      if next == "" {
        assert Words(next) == [];
      }
    }
  }

  lemma {:induction false} JoinDashCons(w: string, ws: seq<string>)
    ensures JoinDash([w] + ws) == if ws == [] then w else w + "-" + JoinDash(ws)
  {
  }

  /** Slugify keeps the words of the lower-cased input, in order, and nothing else. */
  lemma {:induction false} SlugifyWords(s: string)
    ensures Slugify(s) == JoinDash(Words(ToLower(s)))
  {
    TrimCollapse(ToLower(s));
  }

  // ---- Truncation ------------------------------------------------------------------------------

  /** FNV-1a, 32 bits. */
  function Fnv1a(s: string): bv32 {
    if s == "" then 2166136261 else (Fnv1a(s[..|s| - 1]) ^ LowByte(s[|s| - 1])) * 16777619
  }

  function LowByte(c: char): bv32 { ((c as int) % 256) as bv32 }

  function Digit36(d: nat): (c: char)
    requires d < 36
    ensures Alnum(c)
  {
    if d < 10 then (('0' as int) + d) as char else (('a' as int) + d - 10) as char
  }

  function Base36(n: nat): (r: string)
    ensures r != "" && forall i :: 0 <= i < |r| ==> Alnum(r[i])
  {
    if n < 36 then [Digit36(n)] else Base36(n / 36) + [Digit36(n % 36)]
  }

  function Suffix(s: string): (r: string)
    ensures 1 <= |r| <= 6 && forall i :: 0 <= i < |r| ==> Alnum(r[i])
  {
    var h := Base36(Fnv1a(s) as nat);
    if |h| > 6 then h[..6] else h
  }

  function WithSuffix(head: string, suffix: string): string {
    if head == "" then suffix else head + "-" + suffix
  }

  /** The precondition is the slice bound Go checks at run time. */
  function Truncate(s: string, max: nat): string
    requires |s| > max ==> |Suffix(s)| < max
  {
    if |s| <= max then s
    else WithSuffix(TrimRight(s[..max - |Suffix(s)| - 1]), Suffix(s))
  }

  lemma {:induction false} WithSuffixLabel(head: string, suffix: string)
    requires suffix != "" && (forall i :: 0 <= i < |suffix| ==> Alnum(suffix[i]))
    ensures Label(WithSuffix(head, suffix)) <==> head == "" || (LabelChars(head) && Alnum(head[0]))
  {
    var r := WithSuffix(head, suffix);
    if head != "" {
      assert r[|r| - 1] == suffix[|suffix| - 1] && r[0] == head[0];
      assert forall i :: 0 <= i < |head| ==> r[i] == head[i];
      assert forall i :: |head| < i < |r| ==> r[i] == suffix[i - |head| - 1];
      assert r[|head|] == '-';
    }
  }

  lemma {:induction false} TrimRightChars(s: string)
    ensures LabelChars(TrimRight(s)) <==> LabelChars(s)
    ensures TrimRight(s) == "" <==> (forall i :: 0 <= i < |s| ==> s[i] == '-')
  {
  }

  /** The cap holds, results are fixed points, and validity depends on the kept prefix alone. */
  lemma {:induction false} TruncateLabel(s: string, max: nat)
    requires |s| > max ==> |Suffix(s)| < max
    ensures |Truncate(s, max)| <= max
    ensures Truncate(Truncate(s, max), max) == Truncate(s, max)
    ensures |s| <= max ==> (Label(Truncate(s, max)) <==> Label(s))
    ensures |s| > max ==>
              var kept := s[..max - |Suffix(s)| - 1];
              Label(Truncate(s, max)) <==>
                (forall i :: 0 <= i < |kept| ==> kept[i] == '-') || (LabelChars(kept) && Alnum(kept[0]))
  {
    if |s| > max {
      var kept := s[..max - |Suffix(s)| - 1];
      WithSuffixLabel(TrimRight(kept), Suffix(s));
      TrimRightChars(kept);
    }
  }

  /** The hash of the empty text and of one letter, as published for the 32-bit FNV-1a hash. */
  lemma {:induction false} FnvVectors()
    ensures Fnv1a("") == 0x811c9dc5 && Fnv1a("a") == 0xe40c292c
  {
    assert "a"[..0] == "";
    assert (0x811c9dc5 as bv32 ^ 0x61) * 16777619 == 0xe40c292c;
  }

  function Value36(s: string): int {
    if s == "" then 0
    else
      var c := s[|s| - 1];
      36 * Value36(s[..|s| - 1]) + (if '0' <= c <= '9' then (c as int) - 48 else (c as int) - 87)
  }

  /** Base36 writes a number in base thirty-six, without leading zeros. */
  lemma {:induction false} Base36Writes(n: nat)
    ensures Value36(Base36(n)) == n && (n > 0 ==> Base36(n)[0] != '0')
  {
    var r := Base36(n);
    if n < 36 {
      assert r[..0] == "";
    } else {
      Base36Writes(n / 36);
      assert r[..|r| - 1] == Base36(n / 36);
    }
  }

  /** The suffix is the hash in base thirty-six, cut to six characters. */
  lemma {:induction false} SuffixIsHash(s: string)
    ensures exists digits :: Value36(digits) == Fnv1a(s) as int && digits != ""
              && (digits[0] == '0' ==> digits == "0")
              && Suffix(s) == if |digits| > 6 then digits[..6] else digits
  {
    Base36Writes(Fnv1a(s) as nat);
  }

  /** A long text keeps a prefix of itself, less its last dashes, and ends in its own suffix; a short one stays whole. */
  lemma {:induction false} TruncateKeeps(s: string, max: nat)
    requires |s| > max ==> |Suffix(s)| < max
    ensures |s| <= max ==> Truncate(s, max) == s
    ensures |s| > max ==>
              exists n: nat :: n <= max - |Suffix(s)| - 1
                && (forall i :: n <= i < max - |Suffix(s)| - 1 ==> s[i] == '-') && (n > 0 ==> s[n - 1] != '-')
                && Truncate(s, max) == if n == 0 then Suffix(s) else s[..n] + "-" + Suffix(s)
  {
    if |s| > max {
      var kept := s[..max - |Suffix(s)| - 1];
      var head := TrimRight(kept);
      assert head == s[..|head|];
      assert forall i :: |head| <= i < |kept| ==> s[i] == kept[i];
    }
  }

  const BUNDLE_NAME_MAX: nat := 63

  function BundleName(workload: string, chart: string): string {
    Truncate(workload + "-" + Slugify(chart), BUNDLE_NAME_MAX)
  }

  /** A bundle name is the workload's name and the chart's slug, where both fit. */
  lemma {:induction false} BundleNameText(workload: string, chart: string)
    requires |workload| + 1 + |Slugify(chart)| <= 63
    ensures BundleName(workload, chart) == workload + "-" + Slugify(chart)
  {
  }

  /** Bundle names are labels exactly when the slug is not empty or the dash is cut off. */
  lemma {:induction false} BundleNameLabel(workload: string, chart: string)
    requires Label(workload)
    ensures |BundleName(workload, chart)| <= 63
    ensures Label(BundleName(workload, chart)) <==> Slugify(chart) != "" || |workload| + 1 > 63
  {
    SlugifySlug(chart);
    BundleNameOf(workload, Slugify(chart));
  }

  lemma {:induction false} BundleNameOf(workload: string, slug: string)
    requires Label(workload) && Slug(slug)
    ensures var r := Truncate(workload + "-" + slug, BUNDLE_NAME_MAX);
            |r| <= BUNDLE_NAME_MAX && (Label(r) <==> slug != "" || |workload| + 1 > BUNDLE_NAME_MAX)
  {
  }

  const RELEASE_NAME_MAX: nat := 53

  function CapReleaseName(name: string): string {
    if |name| <= RELEASE_NAME_MAX then name
    else WithSuffix(Trim(name[..RELEASE_NAME_MAX - |Suffix(name)| - 1]), Suffix(name))
  }

  lemma {:induction false} TrimChars(s: string)
    ensures LabelChars(Trim(s)) <==> LabelChars(s)
    ensures Trim(s) != "" ==> Trim(s)[0] != '-'
  {
    var lo, hi := TrimSlice(s);
    assert forall i :: lo <= i < hi ==> s[i] == Trim(s)[i - lo];
  }

  /** The slice of a text without its outer dashes. */
  predicate IsTrimmed(s: string, lo: nat, hi: nat) {
    && lo <= hi <= |s| && (lo < hi ==> s[lo] != '-' && s[hi - 1] != '-')
    && forall i :: 0 <= i < |s| && !(lo <= i < hi) ==> s[i] == '-'
  }

  lemma {:induction false} TrimmedSlice(s: string) returns (lo: nat, hi: nat)
    ensures IsTrimmed(s, lo, hi) && Trim(s) == s[lo..hi] && (Trim(s) == "" <==> lo == hi)
  {
    lo, hi := TrimSlice(s);
    if lo < hi {
      assert Trim(s)[0] == s[lo] && Trim(s)[|Trim(s)| - 1] == s[hi - 1];
    }
  }

  /** A long release name keeps its first characters, less outer dashes, and ends in its suffix. */
  lemma {:induction false} CapKeeps(name: string) returns (lo: nat, hi: nat)
    requires |name| > 53
    ensures var kept := name[..53 - |Suffix(name)| - 1];
            && IsTrimmed(kept, lo, hi)
            && CapReleaseName(name) == if lo == hi then Suffix(name) else kept[lo..hi] + "-" + Suffix(name)
  {
    lo, hi := TrimmedSlice(name[..53 - |Suffix(name)| - 1]);
  }

  /** The documented "always a valid label" holds for long names with label characters only. */
  lemma {:induction false} CapReleaseNameLabel(name: string)
    ensures |CapReleaseName(name)| <= RELEASE_NAME_MAX
    ensures CapReleaseName(CapReleaseName(name)) == CapReleaseName(name)
    ensures Label(CapReleaseName(name)) <==>
              if |name| <= RELEASE_NAME_MAX then Label(name)
              else LabelChars(name[..RELEASE_NAME_MAX - |Suffix(name)| - 1])
  {
    if |name| > RELEASE_NAME_MAX {
      var kept := name[..RELEASE_NAME_MAX - |Suffix(name)| - 1];
      WithSuffixLabel(Trim(kept), Suffix(name));
      TrimChars(kept);
    }
  }

  /** A short override passes through untouched, valid or not. */
  lemma {:induction false} ShortReleaseNameKept()
    ensures CapReleaseName("-Demo") == "-Demo" && !Label("-Demo")
  {
  }
}

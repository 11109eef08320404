/**
  Expansion of a chart archive into Fleet bundle resources under a payload budget.

  The source reads each file through a limit of the remaining budget plus one byte. The meaning
  it is proved against reads every file whole and adds up sizes afterwards.
*/
module GitChart {

  const MAX_BUNDLE_RESOURCES_BYTES: nat := 1048576

  newtype Byte = b: int | 0 <= b < 256

  type Bytes = seq<Byte>

  /** One result of the tar reader; a name is what path.Clean makes of the header's. */
  datatype Entry = File(name: string, data: Bytes) | Other | Broken

  datatype Resource = Text(name: string, data: Bytes) | Encoded(name: string, content: string)

  datatype Fault = BrokenArchive | Escapes(name: string) | TooLarge | NoChartDirectory

  datatype Expansion = Expanded(resources: seq<Resource>, chartDir: string) | Rejected(fault: Fault)

  // ---- Base64, section 4 of RFC 4648 -----------------------------------------------------------

  const CAPITALS := "ABCDEFGHIJKLMNOPQRSTUVWXYZ"
  const SMALL := "abcdefghijklmnopqrstuvwxyz"
  const DIGITS_AND_SIGNS := "0123456789+/"

  function Sextet(v: nat): char {
    var i := v % 64;
    if i < 26 then CAPITALS[i] else if i < 52 then SMALL[i - 26] else DIGITS_AND_SIGNS[i - 52]
  }

  /** The four characters of a 24-bit group. */
  function Quad(v: nat): (r: string)
    ensures |r| == 4
  {
    [Sextet(v / 262144), Sextet(v / 4096), Sextet(v / 64), Sextet(v)]
  }

  function Group(a: Byte, b: Byte, c: Byte): nat { (a as nat) * 65536 + (b as nat) * 256 + c as nat }

  /** The last group, of one or two bytes, with its padding. */
  function PaddedQuad(d: Bytes): (r: string)
    requires 1 <= |d| <= 2
    ensures |r| == 4
  {
    if |d| == 1 then Quad(Group(d[0], 0, 0))[..2] + "==" else Quad(Group(d[0], d[1], 0))[..3] + "="
  }

  function Base64(d: Bytes): string {
    if d == [] then ""
    else if |d| <= 2 then PaddedQuad(d)
    else Quad(Group(d[0], d[1], d[2])) + Base64(d[3..])
  }

  /** How many groups of up to three bytes there are. */
  function Groups(n: nat): nat { if n == 0 then 0 else if n <= 3 then 1 else 1 + Groups(n - 3) }

  lemma {:induction false} GroupsAreThirds(n: nat)
    ensures Groups(n) == (n + 2) / 3
  {
    if n > 3 {
      GroupsAreThirds(n - 3);
    }
  }

  lemma {:induction false} QuadsPerGroup(d: Bytes)
    ensures |Base64(d)| == 4 * Groups(|d|)
  {
    if |d| > 2 {
      QuadsPerGroup(d[3..]);
    }
  }

  lemma {:induction false} Base64Length(d: Bytes)
    ensures |Base64(d)| == 4 * ((|d| + 2) / 3)
  {
    QuadsPerGroup(d);
    GroupsAreThirds(|d|);
  }

  // ---- Decoding ----------------------------------------------------------------------------------

  /** The value a character stands for; padding and anything else stand for zero. */
  function DigitValue(c: char): nat {
    if 'A' <= c <= 'Z' then c as int - 65
    else if 'a' <= c <= 'z' then c as int - 71
    else if '0' <= c <= '9' then c as int + 4
    else if c == '+' then 62 else if c == '/' then 63 else 0
  }

  lemma {:induction false} LetterValues(i: nat)
    requires i < 26
    ensures CAPITALS[i] as int == 65 + i && SMALL[i] as int == 97 + i
  {
  }

  lemma {:induction false} SignValues(i: nat)
    requires i < 12
    ensures DigitValue(DIGITS_AND_SIGNS[i]) == 52 + i && DIGITS_AND_SIGNS[i] != '='
  {
  }

  lemma {:induction false} SextetValue(v: nat)
    ensures DigitValue(Sextet(v)) == v % 64 && Sextet(v) != '='
  {
    var i := v % 64;
    if i < 26 {
      LetterValues(i);
    } else if i < 52 {
      LetterValues(i - 26);
    } else {
      SignValues(i - 52);
    }
  }

  function GroupValue(a: char, b: char, c: char, d: char): nat {
    DigitValue(a) * 262144 + DigitValue(b) * 4096 + DigitValue(c) * 64 + DigitValue(d)
  }

  /** The bytes of four characters, fewer by one for each character of padding. */
  function DecodedQuad(q: string): seq<int>
    requires |q| == 4
  {
    var n := GroupValue(q[0], q[1], q[2], q[3]);
    if q[2] == '=' then [n / 65536]
    else if q[3] == '=' then [n / 65536, n / 256 % 256]
    else [n / 65536, n / 256 % 256, n % 256]
  }

  function Decoded(text: string): seq<int> {
    if |text| < 4 then [] else DecodedQuad(text[..4]) + Decoded(text[4..])
  }

  function Values(d: Bytes): seq<int> { seq(|d|, i requires 0 <= i < |d| => d[i] as int) }

  lemma {:induction false} QuadValue(v: nat)
    requires v < 16777216
    ensures var q := Quad(v);
            && GroupValue(q[0], q[1], q[2], q[3]) == v
            && GroupValue(q[0], q[1], '=', '=') == v - v % 4096 && GroupValue(q[0], q[1], q[2], '=') == v - v % 64
            && q[2] != '=' && q[3] != '='
  {
    SextetValue(v / 262144);
    SextetValue(v / 4096);
    SextetValue(v / 64);
    SextetValue(v);
    Sextets(v);
  }

  lemma {:induction false} Sextets(v: nat)
    requires v < 16777216
    ensures v / 262144 % 64 * 262144 + v / 4096 % 64 * 4096 == v - v % 4096
    ensures v / 262144 % 64 * 262144 + v / 4096 % 64 * 4096 + v / 64 % 64 * 64 == v - v % 64
  {
    var a, b, c := v / 262144, v / 4096, v / 64;
    assert b / 64 == a && c / 64 == b && a < 64;
    assert b == 64 * a + b % 64 && c == 64 * b + c % 64;
    assert v == 4096 * b + v % 4096 && v == 64 * c + v % 64;
  }

  lemma {:induction false} WholeQuad(q: string, a: int, b: int, c: int)
    requires 0 <= a < 256 && 0 <= b < 256 && 0 <= c < 256
    requires |q| == 4 && q[2] != '=' && q[3] != '=' && GroupValue(q[0], q[1], q[2], q[3]) == a * 65536 + b * 256 + c
    ensures DecodedQuad(q) == [a, b, c]
  {
    GroupParts(a, b, c);
  }

  lemma {:induction false} CutQuad(q: string, a: int, b: int)
    requires 0 <= a < 256 && 0 <= b < 256 && |q| == 4 && q[3] == '='
    requires GroupValue(q[0], q[1], q[2], q[3]) == a * 65536 + b * 256
    ensures DecodedQuad(q) == if q[2] == '=' then [a] else [a, b]
  {
    GroupParts(a, b, 0);
  }

  lemma {:induction false} DecodesThree(a: Byte, b: Byte, c: Byte)
    ensures DecodedQuad(Quad(Group(a, b, c))) == [a as int, b as int, c as int]
  {
    QuadValue(Group(a, b, c));
    WholeQuad(Quad(Group(a, b, c)), a as int, b as int, c as int);
  }

  lemma {:induction false} DecodesOne(a: Byte)
    ensures DecodedQuad(PaddedQuad([a])) == [a as int]
  {
    var q := Quad(Group(a, 0, 0));
    QuadValue(Group(a, 0, 0));
    GroupZeros(a as int, 0);
    var p := [q[0], q[1], '=', '='];
    assert PaddedQuad([a]) == p;
    CutQuad(p, a as int, 0);
  }

  lemma {:induction false} DecodesTwo(a: Byte, b: Byte)
    ensures DecodedQuad(PaddedQuad([a, b])) == [a as int, b as int]
  {
    var q := Quad(Group(a, b, 0));
    QuadValue(Group(a, b, 0));
    GroupZeros(a as int, b as int);
    var p := [q[0], q[1], q[2], '='];
    assert PaddedQuad([a, b]) == p;
    CutQuad(p, a as int, b as int);
  }

  lemma {:induction false} ByteDivides(q: int, r: int)
    requires 0 <= r < 256
    ensures (q * 256 + r) / 256 == q && (q * 256 + r) % 256 == r
  {
  }

  lemma {:induction false} GroupParts(a: int, b: int, c: int)
    requires 0 <= a < 256 && 0 <= b < 256 && 0 <= c < 256
    ensures var n := a * 65536 + b * 256 + c; n / 65536 == a && n / 256 % 256 == b && n % 256 == c
  {
    var n := a * 65536 + b * 256 + c;
    assert n == (a * 256 + b) * 256 + c;
    ByteDivides(a * 256 + b, c);
    ByteDivides(a, b);
    TwiceDivided(n);
  }

  lemma {:induction false} TwiceDivided(n: int)
    requires n >= 0
    ensures n / 256 / 256 == n / 65536
  {
  }

  /** A group that lacks its last bytes ends in zero bits. */
  lemma {:induction false} GroupZeros(a: int, b: int)
    ensures a * 65536 % 4096 == 0 && (a * 65536 + b * 256) % 64 == 0
  {
    assert a * 65536 == 4096 * (16 * a) && a * 65536 + b * 256 == 64 * (1024 * a + 4 * b);
  }

  lemma {:induction false} DecodedStep(q: string, rest: string)
    requires |q| == 4
    ensures Decoded(q + rest) == DecodedQuad(q) + Decoded(rest)
  {
    assert (q + rest)[..4] == q && (q + rest)[4..] == rest;
  }

  lemma {:induction false} Base64Head(d: Bytes) returns (q: string)
    requires |d| > 2
    ensures |q| == 4 && Base64(d) == q + Base64(d[3..])
    ensures DecodedQuad(q) == [d[0] as int, d[1] as int, d[2] as int]
  {
    q := Quad(Group(d[0], d[1], d[2]));
    DecodesThree(d[0], d[1], d[2]);
  }

  lemma {:induction false} Base64Tail(d: Bytes) returns (q: string)
    requires 1 <= |d| <= 2
    ensures |q| == 4 && Base64(d) == q && DecodedQuad(q) == Values(d)
  {
    q := PaddedQuad(d);
    if |d| == 1 {
      assert d == [d[0]];
      DecodesOne(d[0]);
    } else {
      assert d == [d[0], d[1]];
      DecodesTwo(d[0], d[1]);
    }
  }

  lemma {:induction false} ValuesStep(d: Bytes)
    requires |d| > 2
    ensures Values(d) == [d[0] as int, d[1] as int, d[2] as int] + Values(d[3..])
  {
  }

  /** A binary file is stored whole: its text decodes to its bytes. */
  lemma {:induction false} Base64Decodes(d: Bytes)
    ensures Decoded(Base64(d)) == Values(d)
  {
    if |d| > 2 {
      var q := Base64Head(d);
      Base64Decodes(d[3..]);
      DecodedStep(q, Base64(d[3..]));
      ValuesStep(d);
    } else if d != [] {
      var q := Base64Tail(d);
      DecodedStep(q, "");
      assert q + "" == q;
    }
  }

  // ---- Meaning -----------------------------------------------------------------------------------

  predicate Safe(name: string) {
    name != ".." && !("../" <= name) && !("/" <= name)
  }

  function FirstSlash(name: string): (i: nat)
    ensures i <= |name| && (i < |name| ==> name[i] == '/')
    ensures forall j :: 0 <= j < i ==> name[j] != '/'
  {
    if name == "" || name[0] == '/' then 0 else 1 + FirstSlash(name[1..])
  }

  /** The directory part that names the chart, "" when the file lies at the archive's root. */
  function TopDirectory(name: string): string {
    var i := FirstSlash(name);
    if 0 < i < |name| then name[..i] else ""
  }

  /** The directory is what precedes the first slash, and none is named by a file at the root. */
  lemma {:induction false} DirectoryExactly(dir: string, rest: string)
    requires '/' !in dir
    ensures TopDirectory(dir) == "" && TopDirectory(dir + "/" + rest) == dir
  {
    var name := dir + "/" + rest;
    assert name[|dir|] == '/';
    assert forall i :: 0 <= i < |dir| ==> name[i] == dir[i] && dir[i] in dir;
    assert name[..|dir|] == dir;
  }

  /** A name is refused exactly if it is absolute or leads out of the archive. */
  lemma {:induction false} SafeExactly(name: string)
    ensures !Safe(name) <==> name == ".." || (|name| >= 3 && name[..3] == "../") || (name != "" && name[0] == '/')
  {
  }

  /** How a file is stored. Whether bytes are UTF-8 is the only thing asked of the predicate. */
  function Stored(name: string, data: Bytes, utf8: Bytes -> bool): Resource {
    if utf8(data) then Text(name, data) else Encoded(name, Base64(data))
  }

  function Payload(r: Resource): nat {
    |r.name| + if r.Text? then |r.data| else |r.content|
  }

  function Resources(entries: seq<Entry>, utf8: Bytes -> bool): seq<Resource> {
    if entries == [] then []
    else
      var front, e := entries[..|entries| - 1], entries[|entries| - 1];
      Resources(front, utf8) + if e.File? then [Stored(e.name, e.data, utf8)] else []
  }

  function TotalPayload(rs: seq<Resource>): nat {
    if rs == [] then 0 else TotalPayload(rs[..|rs| - 1]) + Payload(rs[|rs| - 1])
  }

  function ChartDirectory(entries: seq<Entry>): string {
    if entries == [] then ""
    else
      var front, e := entries[..|entries| - 1], entries[|entries| - 1];
      if ChartDirectory(front) != "" || !e.File? then ChartDirectory(front) else TopDirectory(e.name)
  }

  predicate Readable(entries: seq<Entry>) {
    forall e :: e in entries ==> !e.Broken? && (e.File? ==> Safe(e.name))
  }

  predicate Fits(entries: seq<Entry>, utf8: Bytes -> bool) {
    TotalPayload(Resources(entries, utf8)) <= MAX_BUNDLE_RESOURCES_BYTES
  }

  /** What is wrong with an archive once its last entry is seen, everything before being fine. */
  predicate FailsAt(entries: seq<Entry>, n: nat, fault: Fault, utf8: Bytes -> bool) {
    && n < |entries|
    && Readable(entries[..n]) && Fits(entries[..n], utf8)
    && match entries[n]
       case Other => false
       case Broken => fault == BrokenArchive
       case File(name, _) =>
         if !Safe(name) then fault == Escapes(name)
         else fault == TooLarge && !Fits(entries[..n + 1], utf8)
  }

  predicate Expands(entries: seq<Entry>, utf8: Bytes -> bool) {
    && Readable(entries) && Fits(entries, utf8)
    && ChartDirectory(entries) != "" && Resources(entries, utf8) != []
  }

  /** The first thing wrong with the archive, or that it is fine and holds no chart directory. */
  predicate Rejects(entries: seq<Entry>, fault: Fault, utf8: Bytes -> bool) {
    if fault == NoChartDirectory then Readable(entries) && Fits(entries, utf8)
    else exists n: int :: 0 <= n < |entries| && FailsAt(entries, n, fault, utf8)
  }

  lemma {:induction false} TotalMonotone(entries: seq<Entry>, n: nat, utf8: Bytes -> bool)
    requires n <= |entries|
    ensures TotalPayload(Resources(entries[..n], utf8)) <= TotalPayload(Resources(entries, utf8))
    decreases |entries| - n
  {
    if n == |entries| {
      assert entries[..n] == entries;
    } else {
      TotalMonotone(entries, n + 1, utf8);
      TotalStep(entries[..n + 1], utf8);
      assert entries[..n + 1][..n] == entries[..n];
    }
  }

  lemma {:induction false} TotalStep(entries: seq<Entry>, utf8: Bytes -> bool)
    requires entries != []
    ensures var front, e := entries[..|entries| - 1], entries[|entries| - 1];
            TotalPayload(Resources(entries, utf8)) ==
              TotalPayload(Resources(front, utf8)) + if e.File? then Payload(Stored(e.name, e.data, utf8)) else 0
  {
    var front, e := entries[..|entries| - 1], entries[|entries| - 1];
    var rs := Resources(entries, utf8);
    if e.File? {
      assert rs[..|rs| - 1] == Resources(front, utf8);
    } else {
      assert rs == Resources(front, utf8);
    }
  }

  /** What one more entry adds to each part of the meaning. */
  lemma {:induction false} PrefixStep(entries: seq<Entry>, n: nat, utf8: Bytes -> bool)
    requires n < |entries|
    ensures var p, q, e := entries[..n], entries[..n + 1], entries[n];
            && (Readable(q) <==> Readable(p) && !e.Broken? && (e.File? ==> Safe(e.name)))
            && Resources(q, utf8) == Resources(p, utf8) + (if e.File? then [Stored(e.name, e.data, utf8)] else [])
            && TotalPayload(Resources(q, utf8)) ==
                 TotalPayload(Resources(p, utf8)) + (if e.File? then Payload(Stored(e.name, e.data, utf8)) else 0)
            && ChartDirectory(q) ==
                 if ChartDirectory(p) != "" || !e.File? then ChartDirectory(p) else TopDirectory(e.name)
  {
    var p, q, e := entries[..n], entries[..n + 1], entries[n];
    assert q == p + [e] && q[..n] == p;
    TotalStep(q, utf8);
  }

  lemma {:induction false} RejectionSound(entries: seq<Entry>, n: nat, fault: Fault, utf8: Bytes -> bool)
    requires FailsAt(entries, n, fault, utf8)
    ensures !Expands(entries, utf8) && Rejects(entries, fault, utf8)
  {
    TotalMonotone(entries, n + 1, utf8);
    assert entries[n] in entries;
  }

  /** A read cut at the limit overruns the budget however its bytes are stored, as the whole does. */
  lemma {:induction false} CutReadOverruns(name: string, data: Bytes, limit: nat, utf8: Bytes -> bool)
    requires limit < |data|
    ensures Payload(Stored(name, data, utf8)) >= limit
    ensures Payload(Stored(name, data[..limit], utf8)) >= limit
  {
    Base64Length(data);
    Base64Length(data[..limit]);
  }

  /** Stores a file's bytes as read, charging what is stored rather than what was read. */
  method StoreFile(name: string, data: Bytes, utf8: Bytes -> bool) returns (res: Resource, size: nat)
    ensures res == Stored(name, data, utf8) && size == Payload(res)
  {
    if utf8(data) {
      res := Text(name, data);
      size := |data|;
    } else {
      var enc := Base64(data);
      res := Encoded(name, enc);
      size := |enc|;
    }
    size := size + |name|;
  }

  /**
    Reads a file through a limit of one byte more than the budget. It overruns the budget exactly
    when the whole file would, and otherwise holds it.
  */
  method ReadFile(name: string, data: Bytes, budget: nat, utf8: Bytes -> bool) returns (res: Resource, size: nat)
    ensures size <= budget <==> Payload(Stored(name, data, utf8)) <= budget
    ensures size <= budget ==> res == Stored(name, data, utf8) && size == Payload(res)
  {
    var limit := budget + 1;
    res, size := StoreFile(name, if |data| <= limit then data else data[..limit], utf8);
    if limit < |data| {
      CutReadOverruns(name, data, limit, utf8);
    }
  }

  /** What the loop knows once it is past these entries. */
  predicate Progress(entries: seq<Entry>, resources: seq<Resource>, total: nat, chartDir: string, utf8: Bytes -> bool) {
    && Readable(entries)
    && resources == Resources(entries, utf8) && total == TotalPayload(resources) <= MAX_BUNDLE_RESOURCES_BYTES
    && chartDir == ChartDirectory(entries)
  }

  /** The next entry either keeps the progress made or is what is wrong with the archive. */
  lemma {:induction false} NextEntry(
    entries: seq<Entry>, n: nat, resources: seq<Resource>, total: nat, chartDir: string, utf8: Bytes -> bool)
    requires n < |entries| && Progress(entries[..n], resources, total, chartDir, utf8)
    ensures match entries[n]
            case Other => Progress(entries[..n + 1], resources, total, chartDir, utf8)
            case Broken => FailsAt(entries, n, BrokenArchive, utf8)
            case File(name, data) =>
              var res := Stored(name, data, utf8);
              if !Safe(name) then FailsAt(entries, n, Escapes(name), utf8)
              else if total + Payload(res) > MAX_BUNDLE_RESOURCES_BYTES then FailsAt(entries, n, TooLarge, utf8)
              else Progress(entries[..n + 1], resources + [res], total + Payload(res),
                            if chartDir == "" then TopDirectory(name) else chartDir, utf8)
  {
    PrefixStep(entries, n, utf8);
  }

  /**
    The streaming expansion. On success every resource holds its whole file, although no read
    asks for more than the budget that is left plus one; a failure is the first one offline
    reading would meet.
  */
  method ChartTgzToBundleResources(entries: seq<Entry>, utf8: Bytes -> bool) returns (r: Expansion)
    ensures r.Expanded? <==> Expands(entries, utf8)
    ensures r.Expanded? ==> r.resources == Resources(entries, utf8) && r.chartDir == ChartDirectory(entries)
    ensures r.Rejected? ==> Rejects(entries, r.fault, utf8)
  {
    var total: nat := 0;
    var chartDir := "";
    var resources: seq<Resource> := [];
    var n := 0;
    while n < |entries|
      invariant 0 <= n <= |entries|
      invariant Progress(entries[..n], resources, total, chartDir, utf8)
    {
      var e := entries[n];
      NextEntry(entries, n, resources, total, chartDir, utf8);
      if e.Broken? {
        RejectionSound(entries, n, BrokenArchive, utf8);
        return Rejected(BrokenArchive);
      }
      if e.File? {
        var name := e.name;
        if !Safe(name) {
          RejectionSound(entries, n, Escapes(name), utf8);
          return Rejected(Escapes(name));
        }
        if chartDir == "" {
          chartDir := TopDirectory(name);
        }
        var res, size := ReadFile(name, e.data, MAX_BUNDLE_RESOURCES_BYTES - total, utf8);
        total := total + size;
        if total > MAX_BUNDLE_RESOURCES_BYTES {
          RejectionSound(entries, n, TooLarge, utf8);
          return Rejected(TooLarge);
        }
        resources := resources + [res];
      }
      n := n + 1;
    }
    assert entries[..n] == entries;
    if chartDir == "" || resources == [] {
      return Rejected(NoChartDirectory);
    }
    return Expanded(resources, chartDir);
  }

  // ---- The budget in terms of the files ------------------------------------------------------------

  function FileCost(e: Entry, utf8: Bytes -> bool): nat {
    if !e.File? then 0
    else |e.name| + if utf8(e.data) then |e.data| else 4 * ((|e.data| + 2) / 3)
  }

  function Cost(entries: seq<Entry>, utf8: Bytes -> bool): nat {
    if entries == [] then 0 else FileCost(entries[0], utf8) + Cost(entries[1..], utf8)
  }

  lemma {:induction false} CostAppend(entries: seq<Entry>, e: Entry, utf8: Bytes -> bool)
    ensures Cost(entries + [e], utf8) == Cost(entries, utf8) + FileCost(e, utf8)
  {
    if entries == [] {
      assert [] + [e] == [e] && [e][1..] == [];
    } else {
      assert (entries + [e])[1..] == entries[1..] + [e];
      CostAppend(entries[1..], e, utf8);
    }
  }

  lemma {:induction false} StoredCost(e: Entry, utf8: Bytes -> bool)
    requires e.File?
    ensures Payload(Stored(e.name, e.data, utf8)) == FileCost(e, utf8)
  {
    Base64Length(e.data);
  }

  /** The budget charges name length plus stored length, binary files at four bytes for three. */
  lemma {:induction false} PayloadIsCost(entries: seq<Entry>, utf8: Bytes -> bool)
    ensures TotalPayload(Resources(entries, utf8)) == Cost(entries, utf8)
  {
    if entries != [] {
      var front, e := entries[..|entries| - 1], entries[|entries| - 1];
      PayloadIsCost(front, utf8);
      if e.File? {
        StoredCost(e, utf8);
      }
      TotalStep(entries, utf8);
      CostAppend(front, e, utf8);
      assert entries == front + [e];
    }
  }
}

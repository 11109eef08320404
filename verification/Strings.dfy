/** Byte strings: the ordering Go's `<` gives them, and the NUL-joined keys of the Helm client. */
module Strings {

  datatype Option<+T> = None | Some(value: T)

  // ---- Lexicographic order ---------------------------------------------------------------

  predicate Less(a: string, b: string) {
    |b| > 0 && (|a| == 0 || a[0] < b[0] || (a[0] == b[0] && Less(a[1..], b[1..])))
  }

  /** The order of dictionaries: after a common beginning the first text ends, or has the smaller character. */
  lemma {:induction false} LessExactly(common: string, a: string, b: string)
    requires a == "" || b == "" || a[0] != b[0]
    ensures Less(common + a, common + b) <==> b != "" && (a == "" || a[0] < b[0])
  {
    if common == "" {
      assert common + a == a && common + b == b;
    } else {
      LessExactly(common[1..], a, b);
      assert (common + a)[1..] == common[1..] + a && (common + b)[1..] == common[1..] + b;
    }
  }

  lemma {:induction false} LessIrreflexive(a: string)
    ensures !Less(a, a)
  {
    if |a| > 0 {
      LessIrreflexive(a[1..]);
    }
  }

  lemma {:induction false} LessTotal(a: string, b: string)
    requires a != b
    ensures Less(a, b) || Less(b, a)
  {
    if |a| > 0 && |b| > 0 && a[0] == b[0] {
      assert a == [a[0]] + a[1..] && b == [b[0]] + b[1..];
      LessTotal(a[1..], b[1..]);
    }
  }

  lemma {:induction false} LessTransitive(a: string, b: string, c: string)
    requires Less(a, b) && Less(b, c)
    ensures Less(a, c)
  {
    if |a| > 0 && a[0] == b[0] == c[0] {
      LessTransitive(a[1..], b[1..], c[1..]);
    }
  }

  lemma LessAsymmetric(a: string, b: string)
    requires Less(a, b)
    ensures !Less(b, a)
  {
  }

  // ---- NUL-separated keys ----------------------------------------------------------------

  const NUL: char := '\0'

  predicate NulFree(s: string) { NUL !in s }

  function Join(a: string, b: string): string { a + [NUL] + b }

  /** A separator that cannot occur in the first field makes the joined form decodable. */
  lemma {:induction false} JoinInjective(a: string, b: string, c: string, d: string)
    requires NulFree(a) && NulFree(c)
    requires Join(a, b) == Join(c, d)
    ensures a == c && b == d
  {
    var l, r := Join(a, b), Join(c, d);
    assert l[|a|] == NUL && r[|c|] == NUL;
    assert forall i :: 0 <= i < |a| ==> l[i] == a[i] && a[i] in a;
    assert forall i :: 0 <= i < |c| ==> r[i] == c[i] && c[i] in c;
    assert |a| == |c|;
    assert a == l[..|a|] && c == r[..|a|];
    assert b == l[|a| + 1..] && d == r[|a| + 1..];
  }
}

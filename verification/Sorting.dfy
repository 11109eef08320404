/** The stable sort behind Go's sort.SliceStable, as a specification function. */
module Sorting {
  import opened Strings

  ghost predicate WeakOrder<T(!new)>(less: (T, T) -> bool) {
    && (forall a, b :: less(a, b) ==> !less(b, a))
    && (forall a, b, c :: !less(b, a) && !less(c, b) ==> !less(c, a))
  }

  ghost predicate Sorted<T>(s: seq<T>, less: (T, T) -> bool) {
    forall i, j :: 0 <= i < j < |s| ==> !less(s[j], s[i])
  }

  lemma LessWeakOrder()
    ensures WeakOrder(Less)
  {
    forall a, b | Less(a, b)
      ensures !Less(b, a)
    {
      LessAsymmetric(a, b);
    }
    forall a, b, c | !Less(b, a) && !Less(c, b)
      ensures !Less(c, a)
    {
      if Less(c, a) {
        if a == b {
        } else {
          LessTotal(a, b);
          LessTransitive(c, a, b);
        }
      }
    }
  }

  /** Ordering by one text field. */
  lemma {:induction false} FieldWeakOrder<T(!new)>(less: (T, T) -> bool, f: T -> string)
    requires forall a, b :: less(a, b) == Less(f(a), f(b))
    ensures WeakOrder(less)
  {
    LessWeakOrder();
    forall a, b, c | !less(b, a) && !less(c, b)
      ensures !less(c, a)
    {
      assert !Less(f(b), f(a)) && !Less(f(c), f(b));
    }
    assert forall a, b :: less(a, b) ==> Less(f(a), f(b)) && !Less(f(b), f(a));
  }

  /** Ordering by one text field, and then by another. */
  lemma {:induction false} FieldsWeakOrder<T(!new)>(less: (T, T) -> bool, f: T -> string, g: T -> string)
    requires forall a, b :: less(a, b) == if f(a) != f(b) then Less(f(a), f(b)) else Less(g(a), g(b))
    ensures WeakOrder(less)
  {
    LessWeakOrder();
    forall a, b | less(a, b)
      ensures !less(b, a)
    {
      assert f(a) != f(b) ==> Less(f(a), f(b)) && !Less(f(b), f(a));
      assert f(a) == f(b) ==> Less(g(a), g(b)) && !Less(g(b), g(a));
    }
    forall a, b, c | !less(b, a) && !less(c, b)
      ensures !less(c, a)
    {
      FieldsStep(f(a), f(b), f(c));
      assert f(a) == f(b) == f(c) ==> !Less(g(b), g(a)) && !Less(g(c), g(b)) && !Less(g(c), g(a));
    }
  }

  lemma {:induction false} FieldsStep(a: string, b: string, c: string)
    requires a == b || !Less(b, a)
    requires b == c || !Less(c, b)
    ensures a == b == c || (a != c && !Less(c, a))
  {
    if a != b {
      LessTotal(a, b);
    }
    if b != c {
      LessTotal(b, c);
    }
    if a != b && b != c {
      LessTransitive(a, b, c);
      LessAsymmetric(a, c);
      LessIrreflexive(a);
    } else if a != c {
      LessAsymmetric(a, c);
    }
  }

  function Insert<T>(x: T, s: seq<T>, less: (T, T) -> bool): (r: seq<T>) {
    if s == [] || !less(s[0], x) then [x] + s else [s[0]] + Insert(x, s[1..], less)
  }

  function Sort<T>(s: seq<T>, less: (T, T) -> bool): (r: seq<T>) {
    if s == [] then [] else Insert(s[0], Sort(s[1..], less), less)
  }

  lemma {:induction false} InsertKeeps<T>(x: T, s: seq<T>, less: (T, T) -> bool)
    ensures multiset(Insert(x, s, less)) == multiset(s) + multiset{x}
  {
    if s == [] || !less(s[0], x) {
    } else {
      InsertKeeps(x, s[1..], less);
      assert s == [s[0]] + s[1..];
    }
  }

  lemma {:induction false} InsertSorted<T(!new)>(x: T, s: seq<T>, less: (T, T) -> bool)
    requires WeakOrder(less) && Sorted(s, less)
    ensures Sorted(Insert(x, s, less), less)
  {
    if s == [] {
    } else if !less(s[0], x) {
      assert forall j :: 0 <= j < |s| ==> !less(s[j], x);
    } else {
      var rest := Insert(x, s[1..], less);
      InsertSorted(x, s[1..], less);
      InsertKeeps(x, s[1..], less);
      forall j | 0 <= j < |rest|
        ensures !less(rest[j], s[0])
      {
        assert rest[j] in multiset(rest);
        assert rest[j] == x || rest[j] in s[1..];
      }
    }
  }

  lemma {:induction false} SortKeeps<T>(s: seq<T>, less: (T, T) -> bool)
    ensures multiset(Sort(s, less)) == multiset(s)
    ensures |Sort(s, less)| == |s|
  {
    if s != [] {
      SortKeeps(s[1..], less);
      InsertKeeps(s[0], Sort(s[1..], less), less);
      assert s == [s[0]] + s[1..];
    }
    assert |multiset(Sort(s, less))| == |multiset(s)|;
  }

  lemma {:induction false} SortSorts<T(!new)>(s: seq<T>, less: (T, T) -> bool)
    requires WeakOrder(less)
    ensures Sorted(Sort(s, less), less)
  {
    if s != [] {
      SortSorts(s[1..], less);
      InsertSorted(s[0], Sort(s[1..], less), less);
    }
  }

  lemma SortMembers<T>(s: seq<T>, less: (T, T) -> bool)
    ensures forall x :: x in Sort(s, less) <==> x in s
  {
    SortKeeps(s, less);
    assert forall x :: x in Sort(s, less) <==> x in multiset(Sort(s, less));
  }

  // ---- Lists without repetition ----------------------------------------------------------

  ghost predicate Distinct<T>(s: seq<T>) {
    forall i, j :: 0 <= i < j < |s| ==> s[i] != s[j]
  }

  lemma {:induction false} DistinctCounts<T>(s: seq<T>, x: T)
    requires Distinct(s)
    ensures multiset(s)[x] <= 1
  {
    if s != [] {
      DistinctCounts(s[1..], x);
      assert s == [s[0]] + s[1..];
      if s[0] == x {
        assert forall k :: 0 <= k < |s[1..]| ==> s[1..][k] == s[k + 1];
        assert x !in s[1..];
      }
    }
  }

  lemma {:induction false} RepeatCounts<T>(s: seq<T>, i: nat, j: nat)
    requires i < j < |s| && s[i] == s[j]
    ensures multiset(s)[s[i]] >= 2
  {
    assert s == s[..j] + s[j..];
    assert s[..j][i] == s[i] && s[j..][0] == s[i];
    assert multiset(s) == multiset(s[..j]) + multiset(s[j..]);
    assert s[i] in multiset(s[..j]) && s[i] in multiset(s[j..]);
  }

  lemma {:induction false} DistinctPermutes<T>(s: seq<T>, t: seq<T>)
    requires multiset(s) == multiset(t) && Distinct(s)
    ensures Distinct(t)
  {
    forall i, j | 0 <= i < j < |t|
      ensures t[i] != t[j]
    {
      DistinctCounts(s, t[i]);
      if t[i] == t[j] {
        RepeatCounts(t, i, j);
      }
    }
  }

  lemma {:induction false} NonemptyHasMember<T>(s: seq<T>)
    requires s != []
    ensures exists x :: x in s
  {
    assert s[0] in s;
  }
}

/** Sorting by a strict total order, and the order of strings by code point. */
module Ordering {

  ghost predicate StrictTotal<T(!new)>(less: (T, T) -> bool) {
    && (forall a :: !less(a, a))
    && (forall a, b, c :: less(a, b) && less(b, c) ==> less(a, c))
    && (forall a, b :: less(a, b) || a == b || less(b, a))
  }

  predicate Sorted<T>(less: (T, T) -> bool, s: seq<T>) {
    forall i, k :: 0 <= i < k < |s| ==> less(s[i], s[k])
  }

  ghost predicate Lists<T(!new)>(s: seq<T>, elements: set<T>) {
    forall x :: x in s <==> x in elements
  }

  method Least<T(==, !new)>(elements: set<T>, less: (T, T) -> bool) returns (least: T)
    requires StrictTotal(less) && elements != {}
    ensures least in elements && forall x :: x in elements && x != least ==> less(least, x)
  {
    least :| least in elements;
    var rest := elements - {least};
    while rest != {}
      invariant rest <= elements && least in elements
      invariant forall x :: x in elements && x !in rest && x != least ==> less(least, x)
      decreases rest
    {
      var x :| x in rest;
      if less(x, least) { least := x; }
      rest := rest - {x};
    }
  }

  method Sort<T(==, !new)>(elements: set<T>, less: (T, T) -> bool) returns (sorted: seq<T>)
    requires StrictTotal(less)
    ensures Sorted(less, sorted) && Lists(sorted, elements)
  {
    sorted := [];
    var rest := elements;
    while rest != {}
      invariant rest <= elements && Sorted(less, sorted)
      invariant forall x :: x in sorted <==> x in elements && x !in rest
      invariant forall x, y :: x in sorted && y in rest ==> less(x, y)
      decreases rest
    {
      var x := Least(rest, less);
      sorted := sorted + [x];
      rest := rest - {x};
    }
  }

  lemma HasMember<T>(s: seq<T>)
    requires s != []
    ensures exists i :: 0 <= i < |s| && s[i] in s
  {
    assert s[0] in s;
  }

  /** A set has one sorted listing. */
  lemma {:induction false} SortedIsUnique<T(!new)>(less: (T, T) -> bool, a: seq<T>, b: seq<T>)
    requires StrictTotal(less) && Sorted(less, a) && Sorted(less, b)
    requires forall x :: x in a <==> x in b
    ensures a == b
  {
    if a == [] {
      if b != [] { HasMember(b); }
    } else {
      assert a[0] in b;
      assert b[0] in a;
      assert a[0] == b[0];
      forall x ensures x in a[1..] <==> x in b[1..] {
        TailMembers(less, a, x);
        TailMembers(less, b, x);
      }
      SortedIsUnique(less, a[1..], b[1..]);
      assert a == [a[0]] + a[1..] && b == [b[0]] + b[1..];
    }
  }

  lemma TailMembers<T(!new)>(less: (T, T) -> bool, s: seq<T>, x: T)
    requires StrictTotal(less) && Sorted(less, s) && s != []
    ensures x in s[1..] <==> x in s && x != s[0]
  {
    if x in s[1..] {
      var i :| 0 <= i < |s| - 1 && s[1..][i] == x;
      assert less(s[0], s[i + 1]);
    }
  }

  /** A sorted listing holds as many elements as its set. */
  lemma {:induction false} SortedListsCount<T(!new)>(less: (T, T) -> bool, s: seq<T>, elements: set<T>)
    requires StrictTotal(less) && Sorted(less, s) && Lists(s, elements)
    ensures |s| == |elements|
  {
    if s == [] {
      assert elements == {};
    } else {
      var rest := elements - {s[0]};
      assert s[0] in elements;
      forall x ensures x in s[1..] <==> x in rest { TailMembers(less, s, x); }
      SortedListsCount(less, s[1..], rest);
    }
  }

  // ---------- strings ----------

  predicate Less(a: string, b: string)
    decreases |a|
  {
    b != [] && (a == [] || a[0] < b[0] || (a[0] == b[0] && Less(a[1..], b[1..])))
  }

  /** By code points: the first place where they differ decides, and a proper prefix comes first. */
  lemma {:induction false} LessMeaning(a: string, b: string)
    ensures Less(a, b) <==> exists n :: 0 <= n <= |a| && n < |b| && a[..n] == b[..n] && (n == |a| || a[n] < b[n])
    decreases |a|
  {
    if a != [] && b != [] && a[0] == b[0] {
      LessMeaning(a[1..], b[1..]);
      if Less(a[1..], b[1..]) {
        var n :| 0 <= n <= |a| - 1 && n < |b| - 1 && a[1..][..n] == b[1..][..n] && (n == |a| - 1 || a[1..][n] < b[1..][n]);
        assert a[..n + 1] == [a[0]] + a[1..][..n] && b[..n + 1] == [b[0]] + b[1..][..n];
      }
      if n :| 0 <= n <= |a| && n < |b| && a[..n] == b[..n] && (n == |a| || a[n] < b[n]) {
        assert n > 0;
        assert a[1..][..n - 1] == a[..n][1..] && b[1..][..n - 1] == b[..n][1..];
      }
    } else if b != [] {
      assert a[..0] == b[..0];
    }
  }

  lemma {:induction false} LessIrreflexive(a: string)
    ensures !Less(a, a)
  {
    if a != [] { LessIrreflexive(a[1..]); }
  }

  lemma {:induction false} LessTransitive(a: string, b: string, c: string)
    requires Less(a, b) && Less(b, c)
    ensures Less(a, c)
    decreases |a|
  {
    if a != [] && a[0] == b[0] == c[0] { LessTransitive(a[1..], b[1..], c[1..]); }
  }

  lemma {:induction false} LessTotal(a: string, b: string)
    ensures Less(a, b) || a == b || Less(b, a)
    decreases |a|
  {
    if a != [] && b != [] && a[0] == b[0] {
      LessTotal(a[1..], b[1..]);
      assert a == [a[0]] + a[1..] && b == [b[0]] + b[1..];
    }
  }

  function ByText(): (string, string) -> bool { (a: string, b: string) => Less(a, b) }

  lemma TextIsOrdered()
    ensures StrictTotal(ByText())
  {
    forall a ensures !ByText()(a, a) { LessIrreflexive(a); }
    forall a, b, c | ByText()(a, b) && ByText()(b, c) ensures ByText()(a, c) { LessTransitive(a, b, c); }
    forall a, b ensures ByText()(a, b) || a == b || ByText()(b, a) { LessTotal(a, b); }
  }

  /** Pairs compare by their first parts, then by their second. */
  function ByPair(): ((string, string), (string, string)) -> bool {
    (a: (string, string), b: (string, string)) => Less(a.0, b.0) || (a.0 == b.0 && Less(a.1, b.1))
  }

  lemma PairsAreOrdered()
    ensures StrictTotal(ByPair())
  {
    forall a ensures !ByPair()(a, a) { LessIrreflexive(a.0); LessIrreflexive(a.1); }
    forall a, b, c | ByPair()(a, b) && ByPair()(b, c) ensures ByPair()(a, c) {
      if Less(a.0, b.0) && Less(b.0, c.0) { LessTransitive(a.0, b.0, c.0); }
      if Less(a.1, b.1) && Less(b.1, c.1) { LessTransitive(a.1, b.1, c.1); }
    }
    forall a, b ensures ByPair()(a, b) || a == b || ByPair()(b, a) {
      LessTotal(a.0, b.0);
      LessTotal(a.1, b.1);
    }
  }
}

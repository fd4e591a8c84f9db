/** Python's `sorted` over a strict order, as an insertion sort with the facts its callers need. */
module Sorting {

  /** `less` never loops back on itself, and "not after" is transitive: the order `sorted` expects. */
  ghost predicate StrictWeak<T(!new)>(less: (T, T) -> bool) {
    && (forall a, b :: less(a, b) ==> !less(b, a))
    && (forall a, b, c :: !less(b, a) && !less(c, b) ==> !less(c, a))
  }

  /** No element stands after one that must follow it. */
  ghost predicate Ordered<T(!new)>(less: (T, T) -> bool, s: seq<T>) {
    forall i, j :: 0 <= i < j < |s| ==> !less(s[j], s[i])
  }

  /** Every element stands strictly before all later ones. */
  ghost predicate Strictly<T(!new)>(less: (T, T) -> bool, s: seq<T>) {
    forall i, j :: 0 <= i < j < |s| ==> less(s[i], s[j])
  }

  function Min(a: int, b: int): (r: int)
    ensures r <= a && r <= b && (r == a || r == b)
  {
    if a <= b then a else b
  }

  ghost predicate Increasing(s: seq<int>) {
    forall i, j :: 0 <= i < j < |s| ==> s[i] < s[j]
  }

  function Insert<T>(less: (T, T) -> bool, e: T, s: seq<T>): seq<T> {
    if s == [] || less(e, s[0]) then [e] + s else [s[0]] + Insert(less, e, s[1..])
  }

  function Sort<T>(less: (T, T) -> bool, s: seq<T>): seq<T> {
    if s == [] then [] else Insert(less, s[0], Sort(less, s[1..]))
  }

  lemma {:induction false} InsertKeepsContents<T>(less: (T, T) -> bool, e: T, s: seq<T>)
    ensures multiset(Insert(less, e, s)) == multiset{e} + multiset(s)
  {
    if s != [] && !less(e, s[0]) {
      InsertKeepsContents(less, e, s[1..]);
      assert s == [s[0]] + s[1..];
    }
  }

  lemma OrderedCons<T(!new)>(less: (T, T) -> bool, e: T, s: seq<T>)
    requires Ordered(less, s) && forall x :: x in s ==> !less(x, e)
    ensures Ordered(less, [e] + s)
  {
    var r := [e] + s;
    forall i, j | 0 <= i < j < |r| ensures !less(r[j], r[i]) { assert r[j] == s[j - 1] && r[j] in s; }
  }

  lemma {:induction false} InsertKeepsOrder<T(!new)>(less: (T, T) -> bool, e: T, s: seq<T>)
    requires StrictWeak(less) && Ordered(less, s)
    ensures Ordered(less, Insert(less, e, s))
  {
    if s == [] {
    } else if less(e, s[0]) {
      forall x | x in s ensures !less(x, e) {
        var i :| 0 <= i < |s| && s[i] == x;
        assert !less(s[0], e) && (i > 0 ==> !less(s[i], s[0]));
      }
      OrderedCons(less, e, s);
    } else {
      InsertKeepsOrder(less, e, s[1..]);
      InsertKeepsContents(less, e, s[1..]);
      var rest := Insert(less, e, s[1..]);
      forall x | x in rest ensures !less(x, s[0]) {
        assert x in multiset(rest);
        if x != e {
          var i :| 0 <= i < |s[1..]| && s[1..][i] == x;
          assert x == s[i + 1];
        }
      }
      OrderedCons(less, s[0], rest);
    }
  }

  /** Sorting keeps exactly the given elements, each as often as given, and orders them. */
  lemma {:induction false} SortKeeps<T(!new)>(less: (T, T) -> bool, s: seq<T>)
    ensures multiset(Sort(less, s)) == multiset(s)
    ensures StrictWeak(less) ==> Ordered(less, Sort(less, s))
  {
    if s != [] {
      SortKeeps(less, s[1..]);
      InsertKeepsContents(less, s[0], Sort(less, s[1..]));
      if StrictWeak(less) { InsertKeepsOrder(less, s[0], Sort(less, s[1..])); }
      assert s == [s[0]] + s[1..];
    }
  }

  lemma SameMembers<T>(a: seq<T>, b: seq<T>)
    requires multiset(a) == multiset(b)
    ensures |a| == |b|
    ensures forall x :: x in a <==> x in b
  {
    assert |multiset(a)| == |a| && |multiset(b)| == |b|;
    forall x ensures x in a <==> x in b {
      assert x in a <==> x in multiset(a);
      assert x in b <==> x in multiset(b);
    }
  }

  /** At most one strictly ordered sequence has a given set of elements. */
  lemma {:induction false} StrictOrderIsUnique<T(!new)>(less: (T, T) -> bool, a: seq<T>, b: seq<T>)
    requires StrictWeak(less) && Strictly(less, a) && Strictly(less, b)
    requires forall x :: x in a <==> x in b
    ensures a == b
  {
    assert a != [] ==> a[0] in b;
    assert b != [] ==> b[0] in a;
    if a != [] && b != [] {
      assert a[0] == b[0];
      forall x ensures x in a[1..] <==> x in b[1..] {
        assert x in a <==> x == a[0] || x in a[1..];
        assert x in b <==> x == b[0] || x in b[1..];
        assert x in a[1..] ==> less(a[0], x);
        assert x in b[1..] ==> less(b[0], x);
        assert !less(a[0], a[0]);
      }
      StrictOrderIsUnique(less, a[1..], b[1..]);
      assert a == [a[0]] + a[1..] && b == [b[0]] + b[1..];
    }
  }

  ghost predicate Distinct<T>(s: seq<T>) {
    forall i, j :: 0 <= i < j < |s| ==> s[i] != s[j]
  }

  lemma {:induction false} DistinctCounts<T>(s: seq<T>)
    ensures Distinct(s) <==> forall x :: x in s ==> multiset(s)[x] == 1
  {
    if s != [] {
      assert s == [s[0]] + s[1..];
      DistinctCounts(s[1..]);
      assert multiset(s) == multiset{s[0]} + multiset(s[1..]);
      if Distinct(s) {
        forall x | x in s ensures multiset(s)[x] == 1 {
          if x == s[0] { assert x !in s[1..]; } else { assert x in s[1..]; }
        }
      }
      if forall x :: x in s ==> multiset(s)[x] == 1 {
        assert multiset(s)[s[0]] == 1;
        assert s[0] !in s[1..];
        forall x | x in s[1..] ensures multiset(s[1..])[x] == 1 { assert x in s; }
        forall i, j | 0 <= i < j < |s| ensures s[i] != s[j] {
          if i == 0 { assert s[j] in s[1..]; } else { assert s[1..][i - 1] != s[1..][j - 1]; }
        }
      }
    }
  }

  /** Distinct elements that the order can tell apart sort into a strictly ordered sequence. */
  lemma SortIsStrict<T(!new)>(less: (T, T) -> bool, s: seq<T>)
    requires StrictWeak(less) && Distinct(s)
    requires forall x, y :: x in s && y in s ==> x == y || less(x, y) || less(y, x)
    ensures Strictly(less, Sort(less, s))
    ensures |Sort(less, s)| == |s| && forall x :: x in Sort(less, s) <==> x in s
  {
    var r := Sort(less, s);
    SortKeeps(less, s);
    SameMembers(r, s);
    DistinctCounts(s);
    DistinctCounts(r);
    forall i, j | 0 <= i < j < |r| ensures less(r[i], r[j]) {
      assert r[i] in s && r[j] in s && r[i] != r[j];
    }
  }

  lemma DistinctJoin<T>(a: seq<T>, b: seq<T>)
    requires Distinct(a) && Distinct(b) && forall x :: x in a ==> x !in b
    ensures Distinct(a + b) && forall x :: x in a + b <==> x in a || x in b
  {
    var r := a + b;
    forall i, j | 0 <= i < j < |r| ensures r[i] != r[j] {
      if i < |a| <= j { assert r[i] == a[i] && a[i] in a && r[j] == b[j - |a|] && b[j - |a|] in b; }
    }
  }
}

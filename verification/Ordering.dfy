/** Orders on names and sorting by an order, as the placement uses them. */
module Ordering {

  /** The byte order of strings. */
  predicate Less(a: string, b: string) {
    b != "" && (a == "" || a[0] < b[0] || (a[0] == b[0] && Less(a[1..], b[1..])))
  }

  lemma {:induction false} LessTransitive(a: string, b: string, c: string)
    requires Less(a, b) && Less(b, c)
    ensures Less(a, c)
  {
    if a != "" && a[0] == b[0] == c[0] {
      LessTransitive(a[1..], b[1..], c[1..]);
    }
  }

  lemma {:induction false} LessIrreflexive(a: string)
    ensures !Less(a, a)
  {
    if a != "" {
      LessIrreflexive(a[1..]);
    }
  }

  lemma {:induction false} LessTotal(a: string, b: string)
    requires a != b
    ensures Less(a, b) || Less(b, a)
  {
    if a != "" && b != "" && a[0] == b[0] {
      assert a == [a[0]] + a[1..] && b == [b[0]] + b[1..];
      LessTotal(a[1..], b[1..]);
    }
  }

  /** The strings are alike up to i, where a ends or has the lower byte. */
  ghost predicate LowerAt(a: string, b: string, i: int) {
    0 <= i <= |a| && i < |b| && a[..i] == b[..i] && (i < |a| ==> a[i] < b[i])
  }

  lemma {:induction false} LessExactly(a: string, b: string)
    ensures Less(a, b) <==> exists i :: LowerAt(a, b, i)
  {
    if b != "" && (a == "" || a[0] < b[0]) {
      assert LowerAt(a, b, 0);
    } else if a != "" && b != "" && a[0] == b[0] {
      LessExactly(a[1..], b[1..]);
      if Less(a, b) {
        var i :| LowerAt(a[1..], b[1..], i);
        assert a[..i + 1] == [a[0]] + a[1..][..i] && b[..i + 1] == [b[0]] + b[1..][..i];
        assert LowerAt(a, b, i + 1);
      } else if i :| LowerAt(a, b, i) {
        assert a[1..][..i - 1] == a[..i][1..] && b[1..][..i - 1] == b[..i][1..];
        assert LowerAt(a[1..], b[1..], i - 1);
      }
    } else if i :| LowerAt(a, b, i) {
      LowerHead(a, b, i);
    }
  }

  lemma LowerHead(a: string, b: string, i: nat)
    requires LowerAt(a, b, i) && i > 0
    ensures a[0] == b[0]
  {
    assert a[..i][0] == b[..i][0];
  }

  /** less is a strict total order on the elements of s. */
  ghost predicate StrictOrder<T(!new)>(less: (T, T) -> bool, s: set<T>) {
    && (forall x | x in s :: !less(x, x))
    && (forall x, y | x in s && y in s && x != y :: less(x, y) || less(y, x))
    && (forall x, y, z | x in s && y in s && z in s && less(x, y) && less(y, z) :: less(x, z))
  }

  ghost predicate Sorted<T(!new)>(less: (T, T) -> bool, s: seq<T>) {
    forall i, j | 0 <= i < j < |s| :: less(s[i], s[j])
  }

  ghost predicate Distinct<T(!new)>(s: seq<T>) {
    forall i, j | 0 <= i < j < |s| :: s[i] != s[j]
  }

  ghost function Elements<T(!new)>(s: seq<T>): set<T> {
    set x | x in s
  }

  function Insert<T>(less: (T, T) -> bool, x: T, s: seq<T>): seq<T> {
    if s == [] || less(x, s[0]) then [x] + s else [s[0]] + Insert(less, x, s[1..])
  }

  /** The elements of s in the order of less. */
  function SortBy<T>(less: (T, T) -> bool, s: seq<T>): seq<T> {
    if s == [] then [] else Insert(less, s[0], SortBy(less, s[1..]))
  }

  lemma {:induction false} InsertElements<T(!new)>(less: (T, T) -> bool, x: T, s: seq<T>)
    ensures |Insert(less, x, s)| == |s| + 1
    ensures forall y :: y in Insert(less, x, s) <==> y == x || y in s
  {
    if s != [] && !less(x, s[0]) {
      InsertElements(less, x, s[1..]);
      assert forall y :: y in s <==> y == s[0] || y in s[1..];
    }
  }

  lemma {:induction false} InsertSorts<T(!new)>(less: (T, T) -> bool, x: T, s: seq<T>, all: set<T>)
    requires StrictOrder(less, all) && x in all && x !in s && forall y | y in s :: y in all
    requires Sorted(less, s)
    ensures Sorted(less, Insert(less, x, s))
  {
    if s != [] {
      if less(x, s[0]) {
        assert forall j | 0 < j < |s| :: less(s[0], s[j]);
        assert forall j | 0 < j < |s| :: less(x, s[j]);
      } else {
        InsertSorts(less, x, s[1..], all);
        InsertElements(less, x, s[1..]);
        var t := Insert(less, x, s[1..]);
        forall j | 0 <= j < |t|
          ensures less(s[0], t[j])
        {
          assert t[j] in t;
          if t[j] != x {
            var k :| 0 <= k < |s[1..]| && s[1..][k] == t[j];
            assert less(s[0], s[k + 1]);
          }
        }
      }
    }
  }

  lemma {:induction false} SortBySorts<T(!new)>(less: (T, T) -> bool, s: seq<T>)
    requires Distinct(s) && StrictOrder(less, Elements(s))
    ensures Sorted(less, SortBy(less, s))
    ensures Elements(SortBy(less, s)) == Elements(s)
    ensures |SortBy(less, s)| == |s|
  {
    if s != [] {
      var t, all := SortBy(less, s[1..]), Elements(s);
      assert forall y | y in s[1..] :: y in all;
      SortBySorts(less, s[1..]);
      assert forall y :: y in t <==> y in Elements(t);
      assert forall y :: y in s[1..] <==> y in Elements(s[1..]);
      assert s[0] !in s[1..];
      InsertSorts(less, s[0], t, all);
      InsertElements(less, s[0], t);
    }
  }

  lemma FirstBefore<T(!new)>(less: (T, T) -> bool, a: seq<T>, y: T)
    requires a != [] && Sorted(less, a) && y in a && y != a[0]
    ensures less(a[0], y)
  {
    var i :| 0 <= i < |a| && a[i] == y;
    assert less(a[0], a[i]);
  }

  lemma FirstIsLeast<T(!new)>(less: (T, T) -> bool, a: seq<T>, b: seq<T>, all: set<T>)
    requires StrictOrder(less, all) && a != [] && b != []
    requires Sorted(less, a) && Sorted(less, b)
    requires (forall y :: y in a <==> y in all) && (forall y :: y in b <==> y in all)
    ensures a[0] == b[0]
  {
    assert a[0] in b && b[0] in a;
    if a[0] != b[0] {
      FirstBefore(less, a, b[0]);
      FirstBefore(less, b, a[0]);
    }
  }

  lemma TailElements<T(!new)>(less: (T, T) -> bool, a: seq<T>, all: set<T>)
    requires StrictOrder(less, all) && a != [] && Sorted(less, a) && forall y :: y in a <==> y in all
    ensures forall y :: y in a[1..] <==> y in all - {a[0]}
  {
    forall y | y in a[1..] ensures y != a[0] && y in a {
      var k :| 0 <= k < |a[1..]| && a[1..][k] == y;
      assert less(a[0], a[k + 1]);
    }
  }

  /** Only one sequence of the same elements is sorted. */
  lemma {:induction false} SortedUnique<T(!new)>(less: (T, T) -> bool, a: seq<T>, b: seq<T>, all: set<T>)
    requires StrictOrder(less, all) && Sorted(less, a) && Sorted(less, b)
    requires (forall y :: y in a <==> y in all) && (forall y :: y in b <==> y in all)
    ensures a == b
    decreases |a|
  {
    assert b != [] ==> b[0] in all;
    if a != [] {
      assert a[0] in b;
      FirstIsLeast(less, a, b, all);
      TailElements(less, a, all);
      TailElements(less, b, all);
      SortedUnique(less, a[1..], b[1..], all - {a[0]});
      assert a == [a[0]] + a[1..] && b == [b[0]] + b[1..];
    }
  }

  /** Sorting forgets the order the elements came in. */
  lemma SortByIgnoresOrder<T(!new)>(less: (T, T) -> bool, a: seq<T>, b: seq<T>)
    requires Distinct(a) && Distinct(b) && Elements(a) == Elements(b)
    requires StrictOrder(less, Elements(a))
    ensures SortBy(less, a) == SortBy(less, b)
  {
    SortBySorts(less, a);
    SortBySorts(less, b);
    var all := Elements(a);
    assert forall y :: y in SortBy(less, a) <==> y in Elements(SortBy(less, a));
    assert forall y :: y in SortBy(less, b) <==> y in Elements(SortBy(less, b));
    SortedUnique(less, SortBy(less, a), SortBy(less, b), all);
  }

  // ---- names in order ----

  ghost function ListOf(s: set<string>): (r: seq<string>)
    ensures Distinct(r) && Elements(r) == s
    decreases s
  {
    if s == {} then [] else
      var x :| x in s;
      assert s == {x} + (s - {x});
      [x] + ListOf(s - {x})
  }

  lemma NamesAreOrdered(s: set<string>)
    ensures StrictOrder(Less, s)
  {
    forall x | x in s ensures !Less(x, x) { LessIrreflexive(x); }
    forall x, y | x in s && y in s && x != y ensures Less(x, y) || Less(y, x) { LessTotal(x, y); }
    forall x, y, z | x in s && y in s && z in s && Less(x, y) && Less(y, z) ensures Less(x, z) {
      LessTransitive(x, y, z);
    }
  }

  ghost function SortedNames(s: set<string>): (r: seq<string>)
    ensures Sorted(Less, r) && Elements(r) == s
  {
    NamesAreOrdered(s);
    SortBySorts(Less, ListOf(s));
    SortBy(Less, ListOf(s))
  }
}

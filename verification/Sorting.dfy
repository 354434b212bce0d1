/** The order of Go strings, and what any sort by a strict order leaves of a list without
    equal elements: one list, whatever order it came in. */
module Sorting {
  import opened Text

  /** Strings are ordered code point by code point. */
  predicate Less(a: string, b: string) {
    b != "" && (a == "" || a[0] < b[0] || (a[0] == b[0] && Less(a[1..], b[1..])))
  }

  lemma {:induction false} LessTotal(a: string, b: string)
    ensures Less(a, b) || Less(b, a) || a == b
    ensures !(Less(a, b) && Less(b, a))
    ensures !Less(a, a)
  {
    if a != "" && b != "" {
      LessTotal(a[1..], b[1..]);
      assert a == [a[0]] + a[1..] && b == [b[0]] + b[1..];
    }
    if a != "" {
      LessTotal(a[1..], a[1..]);
    }
  }

  lemma {:induction false} LessTransitive(a: string, b: string, c: string)
    requires Less(a, b) && Less(b, c)
    ensures Less(a, c)
  {
    if a != "" && a[0] == b[0] == c[0] {
      LessTransitive(a[1..], b[1..], c[1..]);
    }
  }

  // ---------------------------------------------------------------- sorting

  function Insert<T(!new)>(less: (T, T) -> bool, x: T, xs: seq<T>): (r: seq<T>)
    ensures forall y :: y in r <==> y == x || y in xs
    ensures |r| == |xs| + 1
  {
    if xs == [] || less(x, xs[0]) then [x] + xs else [xs[0]] + Insert(less, x, xs[1..])
  }

  function Sort<T(!new)>(less: (T, T) -> bool, xs: seq<T>): (r: seq<T>)
    ensures forall y :: y in r <==> y in xs
    ensures |r| == |xs|
  {
    if xs == [] then [] else Insert(less, xs[0], Sort(less, xs[1..]))
  }

  ghost predicate StrictOrder<T(!new)>(less: (T, T) -> bool) {
    && (forall x, y :: less(x, y) ==> !less(y, x))
    && (forall x, y, z :: less(x, y) && less(y, z) ==> less(x, z))
  }

  ghost predicate Sorted<T>(less: (T, T) -> bool, xs: seq<T>) {
    forall i, j :: 0 <= i < j < |xs| ==> less(xs[i], xs[j])
  }

  /** Any two elements at different places are ordered one way or the other. */
  ghost predicate Apart<T>(less: (T, T) -> bool, xs: seq<T>) {
    forall i, j :: 0 <= i < j < |xs| ==> less(xs[i], xs[j]) || less(xs[j], xs[i])
  }

  lemma {:induction false} InsertSorted<T(!new)>(less: (T, T) -> bool, x: T, xs: seq<T>)
    requires StrictOrder(less) && Sorted(less, xs)
    requires forall y :: y in xs ==> less(x, y) || less(y, x)
    ensures Sorted(less, Insert(less, x, xs))
  {
    if xs != [] && !less(x, xs[0]) {
      InsertSorted(less, x, xs[1..]);
      var rest := Insert(less, x, xs[1..]);
      assert xs[0] in xs;
      forall k | 0 <= k < |rest| ensures less(xs[0], rest[k]) {
        assert rest[k] in rest;
        if rest[k] != x {
          var m :| 0 <= m < |xs[1..]| && xs[1..][m] == rest[k];
          assert xs[m + 1] == rest[k];
        }
      }
    }
  }

  lemma {:induction false} SortSorted<T(!new)>(less: (T, T) -> bool, xs: seq<T>)
    requires StrictOrder(less) && Apart(less, xs)
    ensures Sorted(less, Sort(less, xs))
  {
    if xs != [] {
      var rest := xs[1..];
      assert forall i :: 0 <= i < |rest| ==> rest[i] == xs[i + 1];
      SortSorted(less, rest);
      forall y | y in Sort(less, rest) ensures less(xs[0], y) || less(y, xs[0]) {
        var m :| 0 <= m < |rest| && rest[m] == y;
        assert xs[m + 1] == y;
      }
      InsertSorted(less, xs[0], Sort(less, rest));
    }
  }

  /** Two sorted lists with the same elements are the same list. */
  lemma {:induction false} SortedUnique<T(!new)>(less: (T, T) -> bool, a: seq<T>, b: seq<T>)
    requires StrictOrder(less) && Sorted(less, a) && Sorted(less, b)
    requires forall x :: x in a <==> x in b
    ensures a == b
  {
    assert a == [] <==> b == [] by {
      assert (a != [] ==> a[0] in b) && (b != [] ==> b[0] in a);
    }
    if a != [] {
      assert a[0] in b && b[0] in a;
      assert a[0] == b[0];
      forall x ensures x in a[1..] <==> x in b[1..] {
        TailElements(less, a, x);
        TailElements(less, b, x);
      }
      SortedUnique(less, a[1..], b[1..]);
      assert a == [a[0]] + a[1..] && b == [b[0]] + b[1..];
    }
  }

  lemma TailElements<T(!new)>(less: (T, T) -> bool, a: seq<T>, x: T)
    requires StrictOrder(less) && Sorted(less, a) && a != []
    ensures x in a[1..] <==> x in a && x != a[0]
  {
    if x in a && x != a[0] {
      var i :| 0 <= i < |a| && a[i] == x;
      assert a[1..][i - 1] == x;
    }
    if x in a[1..] {
      var i :| 0 <= i < |a[1..]| && a[1..][i] == x;
      assert less(a[0], a[i + 1]);
    }
  }

  function LessThan(): (string, string) -> bool {
    (a, b) => Less(a, b)
  }

  lemma LessThanIsStrict()
    ensures StrictOrder(LessThan())
  {
    forall a: string, b: string | LessThan()(a, b) ensures !LessThan()(b, a) { LessTotal(a, b); }
    forall a: string, b: string, c: string | LessThan()(a, b) && LessThan()(b, c) ensures LessThan()(a, c) {
      LessTransitive(a, b, c);
    }
  }
}

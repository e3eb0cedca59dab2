/** The order of strings, and sorting by it, as Go's sort package does for ASCII text. */
module Strings {
  predicate Below(a: string, b: string) {
    b != [] && (a == [] || a[0] < b[0] || (a[0] == b[0] && Below(a[1..], b[1..])))
  }

  predicate AtMost(a: string, b: string) {
    a == b || Below(a, b)
  }

  lemma {:induction false} BelowTotal(a: string, b: string)
    ensures a == b || Below(a, b) || Below(b, a)
    ensures !(Below(a, b) && Below(b, a)) && !Below(a, a)
  {
    if a != [] && b != [] && a[0] == b[0] {
      BelowTotal(a[1..], b[1..]);
      assert a == [a[0]] + a[1..] && b == [b[0]] + b[1..];
    }
    if a != [] {
      BelowTotal(a[1..], a[1..]);
    }
  }

  lemma {:induction false} BelowTransitive(a: string, b: string, c: string)
    requires Below(a, b) && Below(b, c)
    ensures Below(a, c)
  {
    if a != [] && a[0] == b[0] && b[0] == c[0] {
      BelowTransitive(a[1..], b[1..], c[1..]);
    }
  }

  /** Cutting both strings to the same length keeps their order, up to equality. */
  lemma {:induction false} BelowPrefix(a: string, b: string, n: nat)
    requires Below(a, b) && n <= |a| && n <= |b|
    ensures AtMost(a[..n], b[..n])
  {
    if n > 0 && a[0] == b[0] {
      BelowPrefix(a[1..], b[1..], n - 1);
      assert a[..n] == [a[0]] + a[1..][..n - 1];
      assert b[..n] == [b[0]] + b[1..][..n - 1];
    }
  }

  // ----- sorting a sequence by a string key -----

  ghost predicate SortedBy<T(!new)>(xs: seq<T>, key: T -> string) {
    forall i, j | 0 <= i <= j < |xs| :: AtMost(key(xs[i]), key(xs[j]))
  }

  function Insert<T>(x: T, xs: seq<T>, key: T -> string): (ys: seq<T>)
    ensures |ys| == |xs| + 1
  {
    if xs == [] then [x]
    else if AtMost(key(x), key(xs[0])) then [x] + xs
    else [xs[0]] + Insert(x, xs[1..], key)
  }

  function Sort<T>(xs: seq<T>, key: T -> string): (ys: seq<T>)
    ensures |ys| == |xs|
  {
    if xs == [] then [] else Insert(xs[0], Sort(xs[1..], key), key)
  }

  lemma {:induction false} InsertElements<T>(x: T, xs: seq<T>, key: T -> string)
    ensures multiset(Insert(x, xs, key)) == multiset{x} + multiset(xs)
  {
    if xs != [] && !AtMost(key(x), key(xs[0])) {
      InsertElements(x, xs[1..], key);
      assert xs == [xs[0]] + xs[1..];
    }
  }

  lemma {:induction false} SortElements<T>(xs: seq<T>, key: T -> string)
    ensures multiset(Sort(xs, key)) == multiset(xs)
  {
    if xs != [] {
      SortElements(xs[1..], key);
      InsertElements(xs[0], Sort(xs[1..], key), key);
      assert xs == [xs[0]] + xs[1..];
    }
  }

  lemma AtMostTransitive(a: string, b: string, c: string)
    requires AtMost(a, b) && AtMost(b, c)
    ensures AtMost(a, c)
  {
    if a != b && b != c {
      BelowTransitive(a, b, c);
    }
  }

  lemma {:induction false} InsertSorted<T(!new)>(x: T, xs: seq<T>, key: T -> string)
    requires SortedBy(xs, key)
    ensures SortedBy(Insert(x, xs, key), key)
  {
    if xs == [] {
      return;
    }
    var ys := Insert(x, xs, key);
    if AtMost(key(x), key(xs[0])) {
      forall j | 0 <= j < |ys| ensures AtMost(key(x), key(ys[j])) {
        if j > 0 {
          AtMostTransitive(key(x), key(xs[0]), key(xs[j - 1]));
        }
      }
    } else {
      BelowTotal(key(x), key(xs[0]));
      InsertSorted(x, xs[1..], key);
      InsertElements(x, xs[1..], key);
      forall j | 0 <= j < |ys| ensures AtMost(key(xs[0]), key(ys[j])) {
        if j > 0 {
          assert ys[j] == Insert(x, xs[1..], key)[j - 1];
          assert ys[j] in multiset(Insert(x, xs[1..], key));
          assert ys[j] == x || ys[j] in multiset(xs[1..]);
        }
      }
    }
  }

  lemma {:induction false} SortSorted<T(!new)>(xs: seq<T>, key: T -> string)
    ensures SortedBy(Sort(xs, key), key)
  {
    if xs != [] {
      SortSorted(xs[1..], key);
      InsertSorted(xs[0], Sort(xs[1..], key), key);
    }
  }

  /** Sorting what is sorted changes nothing. */
  lemma {:induction false} SortFixed<T(!new)>(xs: seq<T>, key: T -> string)
    requires SortedBy(xs, key)
    ensures Sort(xs, key) == xs
  {
    if xs != [] {
      SortFixed(xs[1..], key);
      assert xs == [xs[0]] + xs[1..];
    }
  }

  function Itself(s: string): string {
    s
  }
}

/** Go's `sort.Strings` as the dispatcher uses it: the names of a handler
    map, gathered in the map's (unspecified) iteration order and then sorted.
    The model sorts the key set directly, which is the same thing because a
    strictly sorted listing of a set is unique (`SortedUnique`). */
module Sorting {

  /** Go's `<` on strings: lexicographic order. Go compares UTF-8 bytes, and
      UTF-8 preserves the order of code points, so comparing characters gives
      the same answer. */
  predicate Less(a: string, b: string) {
    if a == [] then b != []
    else if b == [] then false
    else if a[0] != b[0] then a[0] < b[0]
    else Less(a[1..], b[1..])
  }

  lemma {:induction false} LessIrreflexive(a: string)
    ensures !Less(a, a)
    decreases |a|
  {
    if a != [] {
      LessIrreflexive(a[1..]);
    }
  }

  lemma {:induction false} LessTransitive(a: string, b: string, c: string)
    requires Less(a, b) && Less(b, c)
    ensures Less(a, c)
    decreases |a|
  {
    if a != [] && a[0] == b[0] && b[0] == c[0] {
      LessTransitive(a[1..], b[1..], c[1..]);
    }
  }

  lemma {:induction false} LessTotal(a: string, b: string)
    ensures a == b || Less(a, b) || Less(b, a)
    decreases |a|
  {
    if a != [] && b != [] && a[0] == b[0] {
      LessTotal(a[1..], b[1..]);
      if a[1..] == b[1..] {
        assert a == [a[0]] + a[1..] && b == [b[0]] + b[1..];
      }
    }
  }

  lemma LessAsymmetric(a: string, b: string)
    requires Less(a, b)
    ensures !Less(b, a)
  {
    if Less(b, a) {
      LessTransitive(a, b, a);
      LessIrreflexive(a);
    }
  }

  /** `m` is the least element of `s`. */
  predicate IsLeast(m: string, s: set<string>) {
    m in s && forall y :: y in s ==> y == m || Less(m, y)
  }

  lemma {:induction false} LeastExists(s: set<string>)
    requires s != {}
    ensures exists m :: IsLeast(m, s)
    decreases |s|
  {
    var x :| x in s;
    if s != {x} {
      LeastExists(s - {x});
      var m :| IsLeast(m, s - {x});
      LessTotal(x, m);
      if Less(x, m) {
        forall y | y in s
          ensures y == x || Less(x, y)
        {
          if y != x && y != m {
            LessTransitive(x, m, y);
          }
        }
        assert IsLeast(x, s);
      } else {
        assert IsLeast(m, s);
      }
    } else {
      assert IsLeast(x, s);
    }
  }

  lemma LeastUnique(s: set<string>, m: string, m': string)
    requires IsLeast(m, s) && IsLeast(m', s)
    ensures m == m'
  {
    if m != m' {
      LessAsymmetric(m, m');
    }
  }

  /** The least element of a non-empty set of strings. */
  function Least(s: set<string>): (m: string)
    requires s != {}
    ensures IsLeast(m, s)
  {
    LeastExists(s);
    assert forall m, m' | IsLeast(m, s) && IsLeast(m', s) :: m == m' by {
      forall m, m' | IsLeast(m, s) && IsLeast(m', s)
        ensures m == m'
      {
        LeastUnique(s, m, m');
      }
    }
    var m :| IsLeast(m, s); m
  }

  /** Every element strictly below every later one. */
  predicate StrictlySorted(xs: seq<string>) {
    forall i, j :: 0 <= i < j < |xs| ==> Less(xs[i], xs[j])
  }

  /** The elements of `s` in ascending order, each once: what sorting any
      enumeration of the set yields. */
  function SortedList(s: set<string>): (xs: seq<string>)
    ensures StrictlySorted(xs)
    ensures forall x :: x in xs <==> x in s
    ensures |xs| == |s|
    decreases |s|
  {
    if s == {} then []
    else
      var m := Least(s);
      var rest := SortedList(s - {m});
      assert forall j :: 0 <= j < |rest| ==> Less(m, rest[j]) by {
        forall j | 0 <= j < |rest| ensures Less(m, rest[j]) {
          assert rest[j] in s - {m};
        }
      }
      [m] + rest
  }

  /** The head of a strictly sorted list is below everything after it,
      so the tail holds exactly the other elements. */
  lemma HeadOfSorted(xs: seq<string>)
    requires StrictlySorted(xs) && xs != []
    ensures forall x :: x in xs ==> x == xs[0] || Less(xs[0], x)
    ensures forall x :: x in xs[1..] <==> x in xs && x != xs[0]
  {
    forall x | x in xs[1..]
      ensures Less(xs[0], x)
    {
      var i :| 1 <= i < |xs| && xs[i] == x;
      assert Less(xs[0], xs[i]);
    }
    LessIrreflexive(xs[0]);
    assert xs == [xs[0]] + xs[1..];
  }

  /** A set has only one strictly sorted listing. */
  lemma {:induction false} SortedUnique(xs: seq<string>, ys: seq<string>)
    requires StrictlySorted(xs) && StrictlySorted(ys)
    requires forall x :: x in xs <==> x in ys
    ensures xs == ys
    decreases |xs|
  {
    if xs != [] {
      assert xs[0] in ys;
    }
    if ys != [] {
      assert ys[0] in xs;
    }
    if xs != [] && ys != [] {
      HeadOfSorted(xs);
      HeadOfSorted(ys);
      if xs[0] != ys[0] {
        assert Less(xs[0], ys[0]) && Less(ys[0], xs[0]);
        LessAsymmetric(xs[0], ys[0]);
      }
      SortedUnique(xs[1..], ys[1..]);
      assert xs == [xs[0]] + xs[1..] && ys == [ys[0]] + ys[1..];
    }
  }
}

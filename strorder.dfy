/**
 * Python's ordering of `str` values (code point by code point, a proper
 * prefix first), sortedness under it, and the sorted duplicate-free listing
 * of a collection of strings that `sorted(set(xs))` produces.
 */
module StrOrder {

  /** `a < b` on Python strings. */
  predicate Less(a: string, b: string)
    decreases |a|
  {
    if a == [] then b != []
    else b != [] && (a[0] < b[0] || (a[0] == b[0] && Less(a[1..], b[1..])))
  }

  lemma {:induction false} LessIrreflexive(a: string)
    ensures !Less(a, a)
    decreases |a|
  {
    if a != [] {
      LessIrreflexive(a[1..]);
    }
  }

  lemma {:induction false} LessTransitive(a: string, b: string, c: string)
    requires Less(a, b) && Less(b, c)
    ensures Less(a, c)
    decreases |a|
  {
    if a != [] && a[0] == b[0] && b[0] == c[0] {
      LessTransitive(a[1..], b[1..], c[1..]);
    }
  }

  lemma {:induction false} LessTotal(a: string, b: string)
    ensures a == b || Less(a, b) || Less(b, a)
    decreases |a|
  {
    if a != [] && b != [] && a[0] == b[0] {
      LessTotal(a[1..], b[1..]);
      if a[1..] == b[1..] {
        assert a == [a[0]] + a[1..] && b == [b[0]] + b[1..];
      }
    }
  }

  lemma LessAsymmetric(a: string, b: string)
    requires Less(a, b)
    ensures !Less(b, a)
  {
    if Less(b, a) {
      LessTransitive(a, b, a);
      LessIrreflexive(a);
    }
  }

  /** The elements of a listing, as a set. */
  function Elems(s: seq<string>): (e: set<string>)
    ensures forall x :: x in e <==> x in s
  {
    set x | x in s
  }

  /** Every element is strictly smaller than every later one: sorted and duplicate-free. */
  predicate StrictlySorted(s: seq<string>) {
    forall i, j :: 0 <= i < j < |s| ==> Less(s[i], s[j])
  }

  /** Strictly sorted listings hold each element once. */
  lemma StrictlySortedDistinct(s: seq<string>, i: int, j: int)
    requires StrictlySorted(s)
    requires 0 <= i < |s| && 0 <= j < |s| && i != j
    ensures s[i] != s[j]
  {
    if i < j {
      LessIrreflexive(s[i]);
    } else {
      LessIrreflexive(s[j]);
    }
  }

  /** Insert `x` into a strictly sorted listing, leaving it unchanged when `x` is already there. */
  function Insert(x: string, s: seq<string>): (r: seq<string>)
    requires StrictlySorted(s)
    ensures StrictlySorted(r)
    ensures Elems(r) == Elems(s) + {x}
    decreases |s|
  {
    if s == [] then [x]
    else if x == s[0] then s
    else if Less(x, s[0]) then
      assert forall j :: 0 < j < |s| ==> Less(x, s[j]) by {
        forall j | 0 < j < |s| ensures Less(x, s[j]) {
          LessTransitive(x, s[0], s[j]);
        }
      }
      [x] + s
    else
      LessTotal(x, s[0]);
      var t := Insert(x, s[1..]);
      assert forall y :: y in t ==> Less(s[0], y);
      [s[0]] + t
  }

  /** `sorted(set(xs))`: the distinct elements of `xs` in increasing order. */
  function SortedDistinct(xs: seq<string>): (r: seq<string>)
    ensures StrictlySorted(r)
    ensures Elems(r) == Elems(xs)
  {
    if xs == [] then []
    else
      var r := Insert(xs[0], SortedDistinct(xs[1..]));
      assert Elems(xs) == Elems(xs[1..]) + {xs[0]};
      r
  }

  /** A strictly sorted listing is determined by its set of elements. */
  lemma {:induction false} StrictlySortedUnique(a: seq<string>, b: seq<string>)
    requires StrictlySorted(a) && StrictlySorted(b)
    requires Elems(a) == Elems(b)
    ensures a == b
    decreases |a|
  {
    if a == [] {
      HeadInElems(b);
    } else {
      assert b != [] by {
        assert a[0] in Elems(a);
      }
      if a[0] != b[0] {
        assert a[0] in Elems(b) && b[0] in Elems(a);
        var k :| 0 <= k < |b| && b[k] == a[0];
        var m :| 0 <= m < |a| && a[m] == b[0];
        assert Less(b[0], a[0]) && Less(a[0], b[0]);
        LessAsymmetric(a[0], b[0]);
        assert false;
      }
      TailElems(a);
      TailElems(b);
      StrictlySortedUnique(a[1..], b[1..]);
      assert a == [a[0]] + a[1..] && b == [b[0]] + b[1..];
    }
  }

  lemma HeadInElems(b: seq<string>)
    ensures |b| > 0 ==> b[0] in Elems(b)
  {
  }

  lemma TailElems(a: seq<string>)
    requires StrictlySorted(a) && a != []
    ensures StrictlySorted(a[1..])
    ensures Elems(a[1..]) == Elems(a) - {a[0]}
  {
    forall j | 0 < j < |a| ensures a[j] != a[0] {
      StrictlySortedDistinct(a, 0, j);
    }
    assert forall y :: y in a ==> y == a[0] || y in a[1..];
  }

  /** A strictly sorted listing has as many elements as it has distinct ones. */
  lemma {:induction false} StrictlySortedCard(s: seq<string>)
    requires StrictlySorted(s)
    ensures |Elems(s)| == |s|
    decreases |s|
  {
    if s == [] {
      assert Elems(s) == {};
    } else {
      TailElems(s);
      StrictlySortedCard(s[1..]);
      assert Elems(s) == Elems(s[1..]) + {s[0]};
    }
  }

  /** `sorted(set(xs))` depends only on which strings `xs` holds. */
  lemma SortedDistinctOfSameElems(xs: seq<string>, ys: seq<string>)
    requires Elems(xs) == Elems(ys)
    ensures SortedDistinct(xs) == SortedDistinct(ys)
  {
    StrictlySortedUnique(SortedDistinct(xs), SortedDistinct(ys));
  }

  /** Sorting a listing that is already strictly sorted gives it back. */
  lemma SortedDistinctOfSorted(xs: seq<string>)
    requires StrictlySorted(xs)
    ensures SortedDistinct(xs) == xs
  {
    StrictlySortedUnique(SortedDistinct(xs), xs);
  }
}

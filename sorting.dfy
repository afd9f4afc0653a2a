/** Python's `sorted()` on a list of strings: code-point lexicographic order,
    the result a sorted permutation of the input. */
module Sorting {

  /** `a <= b` for Python strings: lexicographic by code point, a prefix
      coming first. */
  predicate LexLe(a: string, b: string)
    decreases |a|
  {
    a == [] || (b != [] && (a[0] < b[0] || (a[0] == b[0] && LexLe(a[1..], b[1..]))))
  }

  lemma {:induction false} LexLeTotal(a: string, b: string)
    ensures LexLe(a, b) || LexLe(b, a)
    decreases |a|
  {
    if a != [] && b != [] && a[0] == b[0] {
      LexLeTotal(a[1..], b[1..]);
    }
  }

  lemma {:induction false} LexLeRefl(a: string)
    ensures LexLe(a, a)
    decreases |a|
  {
    if a != [] {
      LexLeRefl(a[1..]);
    }
  }

  lemma {:induction false} LexLeTrans(a: string, b: string, c: string)
    requires LexLe(a, b) && LexLe(b, c)
    ensures LexLe(a, c)
    decreases |a|
  {
    if a != [] && b != [] && c != [] && a[0] == b[0] && b[0] == c[0] {
      LexLeTrans(a[1..], b[1..], c[1..]);
    }
  }

  predicate Sorted(s: seq<string>) {
    forall i, j :: 0 <= i < j < |s| ==> LexLe(s[i], s[j])
  }

  /** An element below every element of a sorted list can be put first. */
  lemma ConsSorted(h: string, t: seq<string>)
    requires Sorted(t)
    requires forall y :: y in multiset(t) ==> LexLe(h, y)
    ensures Sorted([h] + t)
  {
    forall i, j | 0 <= i < j < |[h] + t| ensures LexLe(([h] + t)[i], ([h] + t)[j]) {
      if i == 0 {
        assert t[j - 1] in multiset(t);
      }
    }
  }

  /** Below the head of a sorted list is below all of it. */
  lemma BelowHead(x: string, s: seq<string>)
    requires Sorted(s) && s != [] && LexLe(x, s[0])
    ensures forall y :: y in multiset(s) ==> LexLe(x, y)
  {
    forall y | y in multiset(s) ensures LexLe(x, y) {
      var j :| 0 <= j < |s| && s[j] == y;
      if j > 0 { LexLeTrans(x, s[0], s[j]); }
    }
  }

  /** `x` placed into the sorted list `s` before the first element it does
      not follow. */
  function Insert(x: string, s: seq<string>): (r: seq<string>)
    requires Sorted(s)
    ensures Sorted(r)
    ensures multiset(r) == multiset(s) + multiset{x}
  {
    if s == [] then [x]
    else if LexLe(x, s[0]) then
      BelowHead(x, s);
      ConsSorted(x, s);
      [x] + s
    else
      assert s == [s[0]] + s[1..];
      var tail := Insert(x, s[1..]);
      assert forall y :: y in multiset(tail) ==> LexLe(s[0], y) by {
        LexLeTotal(x, s[0]);
        LexLeRefl(s[0]);
        BelowHead(s[0], s);
        forall y | y in multiset(tail) ensures LexLe(s[0], y) {
          if y != x {
            assert y in multiset(s[1..]);
            assert y in multiset(s);
          }
        }
      }
      ConsSorted(s[0], tail);
      [s[0]] + tail
  }

  /** `sorted(s)`. */
  function SortStrings(s: seq<string>): (r: seq<string>)
    ensures Sorted(r)
    ensures multiset(r) == multiset(s)
  {
    if s == [] then []
    else
      assert s == [s[0]] + s[1..];
      Insert(s[0], SortStrings(s[1..]))
  }
}

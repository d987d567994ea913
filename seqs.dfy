/** Sequence combinators the views are built from: JavaScript's `Array.prototype.filter`,
    its order-preserving sublists, and list reversal. */
module Seqs {

  /** `s.filter(f)`: the elements of `s` that satisfy `f`, in their original order. */
  function Filter<T(!new)>(f: T -> bool, s: seq<T>): (r: seq<T>)
    ensures |r| <= |s|
    ensures forall x :: x in r <==> x in s && f(x)
    ensures forall i :: 0 <= i < |r| ==> f(r[i])
  {
    if s == [] then [] else (if f(s[0]) then [s[0]] else []) + Filter(f, s[1..])
  }

  /** `filter` keeps every copy of a passing element and no copy of a failing one. */
  lemma {:induction false} FilterMultiplicity<T(!new)>(f: T -> bool, s: seq<T>)
    ensures forall x :: multiset(Filter(f, s))[x] == if f(x) then multiset(s)[x] else 0
  {
    if s != [] {
      FilterMultiplicity(f, s[1..]);
      assert s == [s[0]] + s[1..];
    }
  }

  /** The conjunction of two element predicates. */
  function And<T>(f: T -> bool, g: T -> bool): T -> bool {
    x => f(x) && g(x)
  }

  /** `a` is obtained from `b` by deleting elements, without reordering the rest. */
  ghost predicate IsSublist<T>(a: seq<T>, b: seq<T>)
    decreases |b|
  {
    if a == [] then true
    else if b == [] then false
    else (a[0] == b[0] && IsSublist(a[1..], b[1..])) || IsSublist(a, b[1..])
  }

  lemma {:induction false} FilterIsSublist<T(!new)>(f: T -> bool, s: seq<T>)
    ensures IsSublist(Filter(f, s), s)
  {
    if s != [] {
      FilterIsSublist(f, s[1..]);
      var r := Filter(f, s[1..]);
      if f(s[0]) {
        assert Filter(f, s) == [s[0]] + r;
        assert ([s[0]] + r)[1..] == r;
      } else {
        assert Filter(f, s) == r;
        SublistOfTail(r, s);
      }
    }
  }

  /** A sublist of the tail of `b` is a sublist of `b`. */
  lemma {:induction false} SublistOfTail<T>(a: seq<T>, b: seq<T>)
    requires b != [] && IsSublist(a, b[1..])
    ensures IsSublist(a, b)
  {
  }

  /** Every list is a sublist of itself. */
  lemma {:induction false} SublistRefl<T>(s: seq<T>)
    ensures IsSublist(s, s)
  {
    if s != [] {
      SublistRefl(s[1..]);
    }
  }

  /** Sublists compose. */
  lemma {:induction false} SublistTrans<T>(a: seq<T>, b: seq<T>, c: seq<T>)
    requires IsSublist(a, b) && IsSublist(b, c)
    ensures IsSublist(a, c)
    decreases |c|
  {
    if a != [] && c != [] {
      if b[0] == c[0] && IsSublist(b[1..], c[1..]) {
        if a[0] == b[0] && IsSublist(a[1..], b[1..]) {
          SublistTrans(a[1..], b[1..], c[1..]);
        } else {
          SublistTrans(a, b[1..], c[1..]);
        }
      } else {
        SublistTrans(a, b, c[1..]);
      }
    }
  }

  /** Filtering twice is filtering once by the conjunction, so the order of two filters
      does not matter. */
  lemma {:induction false} FilterFilter<T(!new)>(f: T -> bool, g: T -> bool, s: seq<T>)
    ensures Filter(f, Filter(g, s)) == Filter(And(g, f), s)
  {
    if s != [] {
      FilterFilter(f, g, s[1..]);
      assert And(g, f)(s[0]) == (g(s[0]) && f(s[0]));
      var t := Filter(g, s[1..]);
      if g(s[0]) {
        var u := [s[0]] + t;
        assert Filter(g, s) == u;
        assert u[0] == s[0] && u[1..] == t;
        assert Filter(f, u) == (if f(s[0]) then [s[0]] else []) + Filter(f, t);
      } else {
        assert Filter(g, s) == t;
      }
    }
  }

  lemma FilterCommutes<T(!new)>(f: T -> bool, g: T -> bool, s: seq<T>)
    ensures Filter(f, Filter(g, s)) == Filter(g, Filter(f, s))
  {
    FilterFilter(f, g, s);
    FilterFilter(g, f, s);
    FilterSamePredicate(And(g, f), And(f, g), s);
  }

  /** Two predicates that agree on every element of `s` filter it alike. */
  lemma {:induction false} FilterSamePredicate<T(!new)>(f: T -> bool, g: T -> bool, s: seq<T>)
    requires forall x :: x in s ==> f(x) == g(x)
    ensures Filter(f, s) == Filter(g, s)
  {
    if s != [] {
      FilterSamePredicate(f, g, s[1..]);
    }
  }

  /** A predicate that holds of every element keeps the whole list. */
  lemma {:induction false} FilterKeepsAll<T(!new)>(f: T -> bool, s: seq<T>)
    requires forall x :: x in s ==> f(x)
    ensures Filter(f, s) == s
  {
    if s != [] {
      FilterKeepsAll(f, s[1..]);
    }
  }

  /** Filtering distributes over concatenation. */
  lemma {:induction false} FilterAppend<T(!new)>(f: T -> bool, a: seq<T>, b: seq<T>)
    ensures Filter(f, a + b) == Filter(f, a) + Filter(f, b)
  {
    if a == [] {
      assert a + b == b;
    } else {
      assert (a + b)[1..] == a[1..] + b;
      FilterAppend(f, a[1..], b);
    }
  }

  /** `s` backwards. */
  function Reversed<T>(s: seq<T>): (r: seq<T>)
    ensures |r| == |s|
    ensures forall i :: 0 <= i < |s| ==> r[i] == s[|s| - 1 - i]
  {
    if s == [] then [] else [s[|s| - 1]] + Reversed(s[..|s| - 1])
  }
}

/** Order-preserving filtering of sequences (`Array.prototype.filter`). */
module Lists {

  /** The elements of `s` that satisfy `f`, in their order in `s`. */
  function Filter<T(!new)>(f: T -> bool, s: seq<T>): (r: seq<T>)
    ensures |r| <= |s|
    ensures forall x :: x in r <==> x in s && f(x)
    ensures forall i :: 0 <= i < |r| ==> f(r[i])
  {
    if s == [] then [] else (if f(s[0]) then [s[0]] else []) + Filter(f, s[1..])
  }

  /** Filtering keeps every passing element as often as it occurs, and drops
      every other element entirely. */
  lemma {:induction false} FilterMultiset<T(!new)>(f: T -> bool, s: seq<T>)
    ensures forall x :: multiset(Filter(f, s))[x] == if f(x) then multiset(s)[x] else 0
  {
    if s != [] {
      FilterMultiset(f, s[1..]);
      assert s == [s[0]] + s[1..];
    }
  }

  /** `r` can be obtained from `s` by deleting elements. */
  ghost predicate IsSubsequence<T>(r: seq<T>, s: seq<T>)
    decreases |s|
  {
    if r == [] then true
    else if s == [] then false
    else (r[0] == s[0] && IsSubsequence(r[1..], s[1..])) || IsSubsequence(r, s[1..])
  }

  /** Filtering keeps the relative order of the kept elements. */
  lemma {:induction false} FilterIsSubsequence<T(!new)>(f: T -> bool, s: seq<T>)
    ensures IsSubsequence(Filter(f, s), s)
  {
    if s != [] {
      FilterIsSubsequence(f, s[1..]);
      var r := Filter(f, s);
      if f(s[0]) {
        assert r[0] == s[0] && r[1..] == Filter(f, s[1..]);
      } else {
        assert r == Filter(f, s[1..]);
      }
    }
  }

  /** Filtering a concatenation filters each part. */
  lemma {:induction false} FilterConcat<T(!new)>(f: T -> bool, a: seq<T>, b: seq<T>)
    ensures Filter(f, a + b) == Filter(f, a) + Filter(f, b)
  {
    if a != [] {
      assert (a + b)[0] == a[0] && (a + b)[1..] == a[1..] + b;
      FilterConcat(f, a[1..], b);
    } else {
      assert a + b == b;
    }
  }

  /** A filter that every element passes changes nothing; one that no element
      passes leaves nothing. */
  lemma {:induction false} FilterAllOrNone<T(!new)>(f: T -> bool, s: seq<T>)
    ensures (forall i :: 0 <= i < |s| ==> f(s[i])) ==> Filter(f, s) == s
    ensures (forall i :: 0 <= i < |s| ==> !f(s[i])) ==> Filter(f, s) == []
  {
    if s != [] {
      FilterAllOrNone(f, s[1..]);
      assert forall i :: 0 <= i < |s[1..]| ==> s[1..][i] == s[i + 1];
      assert s == [s[0]] + s[1..];
    }
  }

  /** If, position by position, `f` holding in `a` implies `g` holding in `b`,
      then `b` has at least as many `g`-elements as `a` has `f`-elements. */
  lemma {:induction false} FilterLengthMonotone<T(!new)>(f: T -> bool, g: T -> bool, a: seq<T>, b: seq<T>)
    requires |a| == |b|
    requires forall i :: 0 <= i < |a| ==> f(a[i]) ==> g(b[i])
    ensures |Filter(f, a)| <= |Filter(g, b)|
  {
    if a != [] {
      assert forall i :: 0 <= i < |a[1..]| ==> a[1..][i] == a[i + 1] && b[1..][i] == b[i + 1];
      FilterLengthMonotone(f, g, a[1..], b[1..]);
    }
  }

  /** Filters by pointwise-equal predicates agree. */
  lemma {:induction false} FilterSamePredicate<T(!new)>(f: T -> bool, g: T -> bool, s: seq<T>)
    requires forall x :: f(x) == g(x)
    ensures Filter(f, s) == Filter(g, s)
  {
    if s != [] {
      FilterSamePredicate(f, g, s[1..]);
    }
  }
}

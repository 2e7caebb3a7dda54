/**
 * The array operations the components build their lists with:
 * `Array.prototype.filter`, `Array.prototype.find` and the
 * `[...new Set(xs)]` idiom (distinct values in insertion order).
 */
module Lists {
  import opened Wrappers

  /** `r` can be obtained from `s` by deleting elements, keeping the order of the rest. */
  predicate IsSubsequence<T(==)>(r: seq<T>, s: seq<T>)
    decreases |s|
  {
    if r == [] then true
    else if s == [] then false
    else if r[0] == s[0] then IsSubsequence(r[1..], s[1..])
    else IsSubsequence(r, s[1..])
  }

  /** The number of elements of `s` that satisfy `keep`. */
  function Count<T>(s: seq<T>, keep: T -> bool): nat {
    if s == [] then 0 else (if keep(s[0]) then 1 else 0) + Count(s[1..], keep)
  }

  /** `s.filter(keep)`. */
  function Filter<T(==)>(s: seq<T>, keep: T -> bool): (r: seq<T>)
    ensures |r| == Count(s, keep) <= |s|
    ensures forall x :: x in r ==> x in s && keep(x)
    ensures forall i :: 0 <= i < |s| && keep(s[i]) ==> s[i] in r
    ensures IsSubsequence(r, s)
    ensures (forall i :: 0 <= i < |s| ==> keep(s[i])) ==> r == s
  {
    if s == [] then []
    else if keep(s[0]) then
      var rest := Filter(s[1..], keep);
      assert forall i :: 1 <= i < |s| ==> s[i] == s[1..][i - 1];
      [s[0]] + rest
    else
      var rest := Filter(s[1..], keep);
      assert forall i :: 1 <= i < |s| ==> s[i] == s[1..][i - 1];
      assert rest == [] || rest[0] != s[0];
      rest
  }

  /** Filtering works piecewise: the kept elements of `a + b` are those of `a` followed by those of `b`. */
  lemma {:induction false} FilterAppend<T>(a: seq<T>, b: seq<T>, keep: T -> bool)
    ensures Filter(a + b, keep) == Filter(a, keep) + Filter(b, keep)
  {
    if a == [] {
      assert a + b == b;
    } else {
      assert (a + b)[1..] == a[1..] + b;
      FilterAppend(a[1..], b, keep);
    }
  }

  /** Two tests that agree on every element of `s` keep the same elements. */
  lemma {:induction false} FilterSamePredicate<T>(s: seq<T>, keep: T -> bool, keep2: T -> bool)
    requires forall i :: 0 <= i < |s| ==> keep(s[i]) == keep2(s[i])
    ensures Filter(s, keep) == Filter(s, keep2)
  {
    if s != [] {
      assert forall i :: 1 <= i < |s| ==> s[i] == s[1..][i - 1];
      FilterSamePredicate(s[1..], keep, keep2);
    }
  }

  /** `s.find(p)`: the first element satisfying `p`, if any. */
  function Find<T>(s: seq<T>, p: T -> bool): (r: Option<T>)
    ensures r.Some? <==> exists i :: 0 <= i < |s| && p(s[i])
    ensures r.Some? ==> exists i :: 0 <= i < |s| && s[i] == r.value && p(s[i]) && forall j :: 0 <= j < i ==> !p(s[j])
  {
    if s == [] then None
    else if p(s[0]) then Some(s[0])
    else
      var r := Find(s[1..], p);
      assert forall i :: 1 <= i < |s| ==> s[i] == s[1..][i - 1];
      assert r.Some? ==> exists i :: 1 <= i < |s| && s[i] == r.value && p(s[i]) && forall j :: 0 <= j < i ==> !p(s[j]) by {
        if r.Some? {
          var k :| 0 <= k < |s[1..]| && s[1..][k] == r.value && p(s[1..][k]) && forall j :: 0 <= j < k ==> !p(s[1..][j]);
          assert s[k + 1] == r.value && forall j :: 0 <= j < k + 1 ==> !p(s[j]);
        }
      }
      r
  }

  /** No value occurs twice in `s`. */
  predicate NoDuplicates<T(==)>(s: seq<T>) {
    forall i, j :: 0 <= i < j < |s| ==> s[i] != s[j]
  }

  /** The values of `s` that are not in `seen`, each once, in the order a `Set` built from `s` would hold them. */
  function DistinctAfter<T(==)>(s: seq<T>, seen: set<T>): (r: seq<T>)
    ensures forall x :: x in r ==> x in s && x !in seen
    ensures forall x :: x in s && x !in seen ==> x in r
    ensures NoDuplicates(r)
  {
    if s == [] then []
    else if s[0] in seen then DistinctAfter(s[1..], seen)
    else [s[0]] + DistinctAfter(s[1..], seen + {s[0]})
  }

  /** `[...new Set(s)]`. */
  function Distinct<T(==)>(s: seq<T>): (r: seq<T>)
    ensures forall x :: x in r ==> x in s
    ensures forall x :: x in s ==> x in r
    ensures NoDuplicates(r)
  {
    DistinctAfter(s, {})
  }

  /** Adding one more value at the end: it is appended if it is new and ignored otherwise. */
  lemma {:induction false} DistinctAfterSnoc<T>(s: seq<T>, x: T, seen: set<T>)
    ensures DistinctAfter(s + [x], seen) == DistinctAfter(s, seen) + (if x in s || x in seen then [] else [x])
  {
    if s == [] {
      assert s + [x] == [x];
    } else {
      var t := s + [x];
      assert t[0] == s[0] && t[1..] == s[1..] + [x];
      assert x in s <==> x == s[0] || x in s[1..];
      if s[0] in seen {
        DistinctAfterSnoc(s[1..], x, seen);
        assert (x in s || x in seen) == (x in s[1..] || x in seen);
        assert DistinctAfter(t, seen) == DistinctAfter(s[1..] + [x], seen);
      } else {
        DistinctAfterSnoc(s[1..], x, seen + {s[0]});
        assert (x in s || x in seen) == (x in s[1..] || x in seen + {s[0]});
        assert DistinctAfter(t, seen) == [s[0]] + DistinctAfter(s[1..] + [x], seen + {s[0]});
      }
    }
  }

  /** A `Set` keeps insertion order: `[...new Set(s.concat([x]))]` is `[...new Set(s)]`, followed by `x` when `x` is new. */
  lemma DistinctSnoc<T>(s: seq<T>, x: T)
    ensures Distinct(s + [x]) == Distinct(s) + (if x in s then [] else [x])
  {
    DistinctAfterSnoc(s, x, {});
  }
}

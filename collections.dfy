/** LINQ `Where` over sequences, used by the directory filters and by the
    controllers' batch split. */
module Collections {

  /** `r` can be obtained from `s` by deleting elements: its elements occur in
      `s` in the same order (matched greedily from the front). */
  ghost predicate Subsequence<T>(r: seq<T>, s: seq<T>)
    decreases |s|
  {
    if r == [] then true
    else if s == [] then false
    else if r[0] == s[0] then Subsequence(r[1..], s[1..])
    else Subsequence(r, s[1..])
  }

  /** The elements that satisfy `p`, in their original order. */
  function Filter<T>(s: seq<T>, p: T -> bool): (r: seq<T>)
    ensures |r| <= |s|
    ensures forall i :: 0 <= i < |r| ==> p(r[i]) && r[i] in s
    ensures forall x :: x in s && p(x) ==> x in r
    decreases |s|
  {
    if s == [] then []
    else (if p(s[0]) then [s[0]] else []) + Filter(s[1..], p)
  }

  /** The filtered elements keep their order: the result is a subsequence of
      the input. */
  lemma {:induction false} FilterSubsequence<T>(s: seq<T>, p: T -> bool)
    ensures Subsequence(Filter(s, p), s)
    decreases |s|
  {
    if s != [] {
      FilterSubsequence(s[1..], p);
      var r := Filter(s, p);
      if p(s[0]) {
        assert r == [s[0]] + Filter(s[1..], p);
        assert r[1..] == Filter(s[1..], p);
      } else {
        assert r == Filter(s[1..], p);
        assert r != [] ==> r[0] != s[0] by {
          if r != [] { assert p(r[0]); }
        }
      }
    }
  }

  /** Filtering keeps every element that satisfies `p` exactly as often as it
      occurs in the input. */
  lemma {:induction false} FilterCounts<T>(s: seq<T>, p: T -> bool)
    ensures forall x :: p(x) ==> multiset(Filter(s, p))[x] == multiset(s)[x]
    decreases |s|
  {
    if s != [] {
      FilterCounts(s[1..], p);
      assert s == [s[0]] + s[1..];
      assert multiset(s) == multiset([s[0]]) + multiset(s[1..]);
      if p(s[0]) {
        var r := Filter(s, p);
        assert r == [s[0]] + Filter(s[1..], p);
        assert multiset(r) == multiset([s[0]]) + multiset(Filter(s[1..], p));
      } else {
        assert Filter(s, p) == Filter(s[1..], p);
      }
    }
  }

  /** Filtering a concatenation filters each part. */
  lemma {:induction false} FilterConcat<T>(a: seq<T>, b: seq<T>, p: T -> bool)
    ensures Filter(a + b, p) == Filter(a, p) + Filter(b, p)
    decreases |a|
  {
    if a == [] {
      assert a + b == b;
    } else {
      var head := if p(a[0]) then [a[0]] else [];
      calc {
        Filter(a + b, p);
      == { assert (a + b)[0] == a[0] && (a + b)[1..] == a[1..] + b; }
        head + Filter(a[1..] + b, p);
      == { FilterConcat(a[1..], b, p); }
        head + (Filter(a[1..], p) + Filter(b, p));
      ==
        (head + Filter(a[1..], p)) + Filter(b, p);
      }
    }
  }

  /** `Filter` computed from the end, the way a loop that appends builds it. */
  function FilterBack<T>(s: seq<T>, p: T -> bool): seq<T>
    decreases |s|
  {
    if s == [] then []
    else FilterBack(s[..|s| - 1], p) + (if p(s[|s| - 1]) then [s[|s| - 1]] else [])
  }

  /** Both directions of traversal keep the same elements in the same order. */
  lemma {:induction false} FilterBackIsFilter<T>(s: seq<T>, p: T -> bool)
    ensures FilterBack(s, p) == Filter(s, p)
    decreases |s|
  {
    if s != [] {
      var init := s[..|s| - 1];
      var x := s[|s| - 1];
      calc {
        FilterBack(s, p);
      == { FilterBackIsFilter(init, p); }
        Filter(init, p) + (if p(x) then [x] else []);
      == { assert Filter([x], p) == (if p(x) then [x] else []) + Filter([x][1..], p) && [x][1..] == []; }
        Filter(init, p) + Filter([x], p);
      == { FilterConcat(init, [x], p); }
        Filter(init + [x], p);
      == { assert init + [x] == s; }
        Filter(s, p);
      }
    }
  }

  /** Filtering twice is filtering once with both conditions. */
  lemma {:induction false} FilterCompose<T>(s: seq<T>, p: T -> bool, q: T -> bool, pq: T -> bool)
    requires forall x :: pq(x) == (p(x) && q(x))
    ensures Filter(Filter(s, p), q) == Filter(s, pq)
    decreases |s|
  {
    if s != [] {
      var head := if pq(s[0]) then [s[0]] else [];
      if p(s[0]) {
        var f := Filter(s[1..], p);
        calc {
          Filter(Filter(s, p), q);
          Filter([s[0]] + f, q);
        == { assert ([s[0]] + f)[0] == s[0] && ([s[0]] + f)[1..] == f; }
          head + Filter(f, q);
        == { FilterCompose(s[1..], p, q, pq); }
          head + Filter(s[1..], pq);
          Filter(s, pq);
        }
      } else {
        calc {
          Filter(Filter(s, p), q);
        == { assert Filter(s, p) == [] + Filter(s[1..], p) == Filter(s[1..], p); }
          Filter(Filter(s[1..], p), q);
        == { FilterCompose(s[1..], p, q, pq); }
          Filter(s[1..], pq);
        == { assert Filter(s, pq) == [] + Filter(s[1..], pq); }
          Filter(s, pq);
        }
      }
    }
  }

  /** Complementary predicates split a sequence: every element lands in
      exactly one of the two filtered sequences. */
  lemma {:induction false} FilterPartition<T>(s: seq<T>, p: T -> bool, q: T -> bool)
    requires forall x :: q(x) == !p(x)
    ensures multiset(Filter(s, p)) + multiset(Filter(s, q)) == multiset(s)
    ensures |Filter(s, p)| + |Filter(s, q)| == |s|
    decreases |s|
  {
    if s != [] {
      FilterPartition(s[1..], p, q);
      assert s == [s[0]] + s[1..];
    }
  }

  /** Filtering with a predicate no element satisfies gives nothing, and with
      one every element satisfies gives the sequence back. */
  lemma {:induction false} FilterAllOrNone<T>(s: seq<T>, p: T -> bool)
    ensures (forall i :: 0 <= i < |s| ==> !p(s[i])) ==> Filter(s, p) == []
    ensures (forall i :: 0 <= i < |s| ==> p(s[i])) ==> Filter(s, p) == s
    decreases |s|
  {
    if s != [] {
      FilterAllOrNone(s[1..], p);
      assert forall i :: 1 <= i < |s| ==> s[1..][i - 1] == s[i];
    }
  }
}

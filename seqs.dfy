/** The list-processing forms `analyze` is written in: list comprehensions with a condition,
    `sum(1 for x in s if p(x))` and `sum(f(x) for x in s)`, and the subsequence relation they establish. */
module Seqs {

  /** `[x for x in s if p(x)]`. */
  function Filter<T>(p: T -> bool, s: seq<T>): (r: seq<T>)
    ensures |r| <= |s|
    ensures forall k :: 0 <= k < |r| ==> p(r[k])
    ensures forall k :: 0 <= k < |r| ==> r[k] in s
    ensures forall k :: 0 <= k < |s| && p(s[k]) ==> s[k] in r
  {
    if s == [] then []
    else
      var rest := Filter(p, s[1..]);
      assert forall k :: 1 <= k < |s| ==> s[k] == s[1..][k - 1];
      if p(s[0]) then [s[0]] + rest else rest
  }

  /** `sum(1 for x in s if p(x))`. */
  function CountWhere<T>(p: T -> bool, s: seq<T>): nat {
    if s == [] then 0 else (if p(s[0]) then 1 else 0) + CountWhere(p, s[1..])
  }

  /** `sum(f(x) for x in s)`. */
  function SumOf<T>(f: T -> nat, s: seq<T>): nat {
    if s == [] then 0 else f(s[0]) + SumOf(f, s[1..])
  }

  /** `a` is `b` with some elements dropped, the rest kept in order. */
  ghost predicate IsSubseq<T>(a: seq<T>, b: seq<T>)
    decreases |b|
  {
    a == [] || (b != [] && ((a[0] == b[0] && IsSubseq(a[1..], b[1..])) || IsSubseq(a, b[1..])))
  }

  /** A comprehension with a condition keeps its elements in order. */
  lemma {:induction false} FilterIsSubseq<T>(p: T -> bool, s: seq<T>)
    ensures IsSubseq(Filter(p, s), s)
  {
    if s != [] {
      FilterIsSubseq(p, s[1..]);
      var rest := Filter(p, s[1..]);
      if p(s[0]) {
        assert ([s[0]] + rest)[1..] == rest;
      }
    }
  }

  /** Filtering twice is filtering once by both conditions. */
  lemma {:induction false} FilterFilter<T>(p: T -> bool, q: T -> bool, pq: T -> bool, s: seq<T>)
    requires forall x :: pq(x) == (p(x) && q(x))
    ensures Filter(q, Filter(p, s)) == Filter(pq, s)
  {
    if s != [] {
      FilterFilter(p, q, pq, s[1..]);
      if p(s[0]) {
        assert ([s[0]] + Filter(p, s[1..]))[1..] == Filter(p, s[1..]);
      }
    }
  }

  /** Two conditions that agree on every element keep the same elements. */
  lemma {:induction false} FilterAgreeing<T>(p: T -> bool, q: T -> bool, s: seq<T>)
    requires forall k :: 0 <= k < |s| ==> p(s[k]) == q(s[k])
    ensures Filter(p, s) == Filter(q, s)
  {
    if s != [] {
      assert forall k :: 0 <= k < |s| - 1 ==> s[1..][k] == s[k + 1];
      FilterAgreeing(p, q, s[1..]);
    }
  }

  /** A stricter condition keeps a subsequence of what a looser one keeps. */
  lemma {:induction false} FilterStricter<T>(p: T -> bool, q: T -> bool, s: seq<T>)
    requires forall x :: q(x) ==> p(x)
    ensures IsSubseq(Filter(q, s), Filter(p, s))
  {
    if s != [] {
      FilterStricter(p, q, s[1..]);
      var fp, fq := Filter(p, s[1..]), Filter(q, s[1..]);
      if q(s[0]) {
        assert ([s[0]] + fq)[1..] == fq;
        assert ([s[0]] + fp)[1..] == fp;
      } else if p(s[0]) {
        assert ([s[0]] + fp)[1..] == fp;
        SubseqOfTail(fq, s[0], fp);
      }
    }
  }

  lemma SubseqOfTail<T>(a: seq<T>, x: T, b: seq<T>)
    requires IsSubseq(a, b)
    ensures IsSubseq(a, [x] + b)
  {
    assert ([x] + b)[1..] == b;
  }

  /** A subsequence is no longer than the sequence it is taken from. */
  lemma {:induction false} SubseqLength<T>(a: seq<T>, b: seq<T>)
    requires IsSubseq(a, b)
    ensures |a| <= |b|
    decreases |b|
  {
    if a != [] {
      if a[0] == b[0] && IsSubseq(a[1..], b[1..]) {
        SubseqLength(a[1..], b[1..]);
      } else {
        SubseqLength(a, b[1..]);
      }
    }
  }

  /** Counting the elements that satisfy `p` is taking the length of the comprehension. */
  lemma {:induction false} CountIsFilterLength<T>(p: T -> bool, s: seq<T>)
    ensures CountWhere(p, s) == |Filter(p, s)|
  {
    if s != [] {
      CountIsFilterLength(p, s[1..]);
    }
  }

  /** The count of two conditions that never hold together is at most the length. */
  lemma {:induction false} CountDisjoint<T>(p: T -> bool, q: T -> bool, s: seq<T>)
    requires forall k :: 0 <= k < |s| ==> !(p(s[k]) && q(s[k]))
    ensures CountWhere(p, s) + CountWhere(q, s) <= |s|
  {
    if s != [] {
      assert forall k :: 0 <= k < |s| - 1 ==> s[1..][k] == s[k + 1];
      CountDisjoint(p, q, s[1..]);
    }
  }

  /** When every term is at least 1, the sum is at least the number of terms. */
  lemma {:induction false} SumAtLeastLength<T>(f: T -> nat, s: seq<T>)
    requires forall k :: 0 <= k < |s| ==> f(s[k]) >= 1
    ensures SumOf(f, s) >= |s|
  {
    if s != [] {
      assert forall k :: 0 <= k < |s| - 1 ==> s[1..][k] == s[k + 1];
      SumAtLeastLength(f, s[1..]);
    }
  }

  /** The union of `f(x)` over the elements of `s`: a set built by adding, element after element,
      what each element contributes. */
  function Gather<T, U>(f: T -> set<U>, s: seq<T>): set<U> {
    if s == [] then {} else Gather(f, s[..|s| - 1]) + f(s[|s| - 1])
  }

  /** Something is gathered exactly when some element contributes it. */
  lemma {:induction false} GatherMembers<T, U>(f: T -> set<U>, s: seq<T>, u: U)
    ensures u in Gather(f, s) <==> exists k :: 0 <= k < |s| && u in f(s[k])
  {
    if s != [] {
      var n := |s| - 1;
      var init := s[..n];
      GatherMembers(f, init, u);
      if exists k :: 0 <= k < |s| && u in f(s[k]) {
        var k :| 0 <= k < |s| && u in f(s[k]);
        if k < n {
          assert init[k] == s[k];
        }
      }
      if u in Gather(f, init) {
        var k :| 0 <= k < |init| && u in f(init[k]);
        assert init[k] == s[k];
      }
    }
  }

  /** Gathering over two runs is the union of gathering over each. */
  lemma {:induction false} GatherAppend<T, U>(f: T -> set<U>, a: seq<T>, b: seq<T>)
    ensures Gather(f, a + b) == Gather(f, a) + Gather(f, b)
  {
    if b == [] {
      assert a + b == a;
    } else {
      GatherAppend(f, a, b[..|b| - 1]);
      assert (a + b)[..|a + b| - 1] == a + b[..|b| - 1];
    }
  }

  /** What is gathered depends only on which elements occur, not on their order or repetition. */
  lemma GatherSameElements<T, U>(f: T -> set<U>, a: seq<T>, b: seq<T>)
    requires forall x :: x in a <==> x in b
    ensures Gather(f, a) == Gather(f, b)
  {
    GatherSubset(f, a, b);
    GatherSubset(f, b, a);
  }

  lemma GatherSubset<T, U>(f: T -> set<U>, a: seq<T>, b: seq<T>)
    requires forall x :: x in a ==> x in b
    ensures Gather(f, a) <= Gather(f, b)
  {
    forall u | u in Gather(f, a) ensures u in Gather(f, b) {
      GatherMembers(f, a, u);
      GatherMembers(f, b, u);
      var k :| 0 <= k < |a| && u in f(a[k]);
      assert a[k] in b;
      var j :| 0 <= j < |b| && b[j] == a[k];
      assert u in f(b[j]);
    }
  }
}

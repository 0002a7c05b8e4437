/**
 * Array operations the view code uses on React state: `filter` (by element
 * or by position) and the order-preserving subsequence relation it yields.
 */
module Seqs {

  /** `s.filter(keep)`: the elements keep accepts, in their original order. */
  function Filter<T>(s: seq<T>, keep: T -> bool): (r: seq<T>)
    ensures |r| <= |s|
  {
    if s == [] then [] else (if keep(s[0]) then [s[0]] else []) + Filter(s[1..], keep)
  }

  /** a can be obtained from b by deleting elements, without reordering. */
  ghost predicate IsSubsequence<T>(a: seq<T>, b: seq<T>) {
    a == [] || (b != [] && ((a[0] == b[0] && IsSubsequence(a[1..], b[1..])) || IsSubsequence(a, b[1..])))
  }

  /**
   * Filtering keeps exactly the accepted elements, in order: an element is in
   * the result iff it is in s and accepted, and the result is a subsequence of s.
   */
  lemma {:induction false} FilterSpec<T>(s: seq<T>, keep: T -> bool)
    ensures forall x :: x in Filter(s, keep) <==> x in s && keep(x)
    ensures forall i :: 0 <= i < |Filter(s, keep)| ==> keep(Filter(s, keep)[i])
    ensures IsSubsequence(Filter(s, keep), s)
  {
    if s != [] {
      FilterSpec(s[1..], keep);
      var r := Filter(s, keep);
      if keep(s[0]) {
        assert r[1..] == Filter(s[1..], keep);
      } else {
        assert r == Filter(s[1..], keep);
      }
      forall x ensures x in r <==> x in s && keep(x) {
        assert x in s <==> x == s[0] || x in s[1..];
      }
    }
  }

  /** When every element is accepted, filtering changes nothing. */
  lemma {:induction false} FilterKeepsAll<T>(s: seq<T>, keep: T -> bool)
    requires forall i :: 0 <= i < |s| ==> keep(s[i])
    ensures Filter(s, keep) == s
  {
    if s != [] {
      FilterKeepsAll(s[1..], keep);
      assert [s[0]] + s[1..] == s;
    }
  }

  /** Filtering distributes over concatenation. */
  lemma {:induction false} FilterAppend<T>(a: seq<T>, b: seq<T>, keep: T -> bool)
    ensures Filter(a + b, keep) == Filter(a, keep) + Filter(b, keep)
  {
    if a == [] {
      assert a + b == b;
    } else {
      var head := if keep(a[0]) then [a[0]] else [];
      assert (a + b)[0] == a[0];
      assert (a + b)[1..] == a[1..] + b;
      assert Filter(a + b, keep) == head + Filter(a[1..] + b, keep);
      FilterAppend(a[1..], b, keep);
      assert Filter(a, keep) == head + Filter(a[1..], keep);
    }
  }

  /** Two tests that agree on every element of s filter it the same way. */
  lemma {:induction false} FilterSameTest<T>(s: seq<T>, p: T -> bool, q: T -> bool)
    requires forall i :: 0 <= i < |s| ==> p(s[i]) == q(s[i])
    ensures Filter(s, p) == Filter(s, q)
  {
    if s != [] {
      assert p(s[0]) == q(s[0]);
      FilterSameTest(s[1..], p, q);
    }
  }

  /** The number of elements keep accepts. */
  function Count<T>(s: seq<T>, keep: T -> bool): nat {
    if s == [] then 0 else (if keep(s[0]) then 1 else 0) + Count(s[1..], keep)
  }

  /**
   * Filtering removes exactly the rejected elements: the length drops by the
   * number of elements `drop` (the negation of keep) accepts.
   */
  lemma {:induction false} FilterLength<T>(s: seq<T>, keep: T -> bool, drop: T -> bool)
    requires forall x :: drop(x) == !keep(x)
    ensures |Filter(s, keep)| == Count(s, keep)
    ensures |Filter(s, keep)| + Count(s, drop) == |s|
  {
    if s != [] {
      FilterLength(s[1..], keep, drop);
    }
  }

  /** `s.filter((_, i) => i !== index)`: every element except the one at `index`. */
  function RemoveAt<T>(s: seq<T>, index: int): seq<T> {
    if s == [] then [] else (if index == 0 then [] else [s[0]]) + RemoveAt(s[1..], index - 1)
  }

  /** Removing a position drops exactly that element; an index out of range changes nothing. */
  lemma {:induction false} RemoveAtSpec<T>(s: seq<T>, index: int)
    ensures RemoveAt(s, index) == if 0 <= index < |s| then s[..index] + s[index + 1..] else s
  {
    if s != [] {
      var tail := RemoveAt(s[1..], index - 1);
      assert RemoveAt(s, index) == (if index == 0 then [] else [s[0]]) + tail;
      RemoveAtSpec(s[1..], index - 1);
      if index == 0 {
        assert tail == s[1..];
        assert s[..0] + s[1..] == s[1..];
      } else if 0 < index < |s| {
        assert tail == s[1..][..index - 1] + s[1..][index..];
        assert s[1..][..index - 1] == s[1..index];
        assert s[1..][index..] == s[index + 1..];
        assert [s[0]] + s[1..index] == s[..index];
        assert [s[0]] + (s[1..index] + s[index + 1..]) == s[..index] + s[index + 1..];
      } else {
        assert tail == s[1..];
        assert [s[0]] + s[1..] == s;
      }
    }
  }
}

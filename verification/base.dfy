/** Small shared vocabulary: an Option type for JavaScript's `undefined`,
    and the array operations the modelled code relies on (`Array.prototype.filter`,
    `Array.prototype.indexOf`, `Array.prototype.map`), with the facts about them
    that the rest of the model needs. */
module Base {

  /** A value that may be absent, as `undefined` or `null` is in the source. */
  datatype Option<+T> = None | Some(value: T)

  /** `a` can be obtained from `b` by dropping elements: same relative order. */
  ghost predicate IsSubsequence<T>(a: seq<T>, b: seq<T>)
    decreases |b|
  {
    if |a| == 0 then true
    else if |b| == 0 then false
    else if a[0] == b[0] then IsSubsequence(a[1..], b[1..])
    else IsSubsequence(a, b[1..])
  }

  /** `Array.prototype.filter`: keeps the elements satisfying `p`, in order. */
  function Filter<T(==)>(s: seq<T>, p: T -> bool): (r: seq<T>)
    ensures |r| <= |s|
    ensures forall i :: 0 <= i < |r| ==> r[i] in s && p(r[i])
    ensures forall i :: 0 <= i < |s| && p(s[i]) ==> s[i] in r
    ensures IsSubsequence(r, s)
  {
    if |s| == 0 then []
    else if p(s[0]) then [s[0]] + Filter(s[1..], p)
    else
      var rest := Filter(s[1..], p);
      assert |rest| > 0 ==> rest[0] != s[0] by {
        if |rest| > 0 { assert rest[0] in rest; }
      }
      rest
  }

  /** `Array.prototype.indexOf`: the first position of `x`, or -1. */
  function IndexOf<T(==)>(s: seq<T>, x: T): (r: int)
    ensures -1 <= r < |s|
    ensures r == -1 <==> x !in s
    ensures 0 <= r ==> s[r] == x && x !in s[..r]
  {
    if |s| == 0 then -1
    else if s[0] == x then 0
    else
      var k := IndexOf(s[1..], x);
      if k == -1 then -1
      else
        assert s[..k + 1] == [s[0]] + s[1..][..k];
        k + 1
  }

  /** `Array.prototype.map`. */
  function Map<A, B>(s: seq<A>, f: A -> B): (r: seq<B>)
    ensures |r| == |s|
    ensures forall i :: 0 <= i < |s| ==> r[i] == f(s[i])
  {
    seq(|s|, i requires 0 <= i < |s| => f(s[i]))
  }

  /** Mapping keeps the relative order that a subsequence has. */
  lemma {:induction false} MapSubsequence<A, B>(a: seq<A>, b: seq<A>, f: A -> B)
    requires IsSubsequence(a, b)
    ensures IsSubsequence(Map(a, f), Map(b, f))
    decreases |b|
  {
    if |a| > 0 {
      assert Map(b, f)[1..] == Map(b[1..], f);
      if a[0] == b[0] {
        assert Map(a, f)[1..] == Map(a[1..], f);
        MapSubsequence(a[1..], b[1..], f);
      } else {
        MapSubsequence(a, b[1..], f);
        SubsequenceSkip(Map(a, f), Map(b, f));
      }
    }
  }

  /** Dropping the head of the longer sequence keeps a subsequence of the rest. */
  lemma {:induction false} SubsequenceSkip<T>(a: seq<T>, b: seq<T>)
    requires |b| > 0 && IsSubsequence(a, b[1..])
    ensures IsSubsequence(a, b)
    decreases |b|, |a|
  {
    if |a| > 0 && a[0] == b[0] {
      SubsequenceTail(a, b[1..]);
    }
  }

  /** The tail of a subsequence is a subsequence. */
  lemma {:induction false} SubsequenceTail<T>(a: seq<T>, b: seq<T>)
    requires |a| > 0 && IsSubsequence(a, b)
    ensures IsSubsequence(a[1..], b)
    decreases |b|, |a|
  {
    if |b| > 0 {
      if a[0] == b[0] {
        SubsequenceSkip(a[1..], b);
      } else {
        SubsequenceTail(a, b[1..]);
        SubsequenceSkip(a[1..], b);
      }
    }
  }

  lemma MapAppend<A, B>(a: seq<A>, b: seq<A>, f: A -> B)
    ensures Map(a + b, f) == Map(a, f) + Map(b, f)
  {
  }

  lemma FilterAppend<T>(a: seq<T>, b: seq<T>, p: T -> bool)
    ensures Filter(a + b, p) == Filter(a, p) + Filter(b, p)
  {
    if |a| > 0 {
      assert (a + b)[1..] == a[1..] + b;
      FilterAppend(a[1..], b, p);
    } else {
      assert a + b == b;
    }
  }

  /** Two tests that agree on every element keep the same elements. */
  lemma {:induction false} FilterCongruent<T>(s: seq<T>, p: T -> bool, q: T -> bool)
    requires forall i :: 0 <= i < |s| ==> p(s[i]) == q(s[i])
    ensures Filter(s, p) == Filter(s, q)
  {
    if |s| > 0 {
      FilterCongruent(s[1..], p, q);
    }
  }

  /** How many times `Filter` keeps a value: all of them or none. */
  lemma {:induction false} FilterCount<T>(s: seq<T>, p: T -> bool, x: T)
    ensures multiset(Filter(s, p))[x] == if p(x) then multiset(s)[x] else 0
  {
    if |s| > 0 {
      FilterCount(s[1..], p, x);
      assert s == [s[0]] + s[1..];
    }
  }

  /** Mapping a permutation gives a permutation. */
  lemma {:induction false} MapPermutation<A, B>(s: seq<A>, t: seq<A>, f: A -> B)
    requires multiset(s) == multiset(t)
    ensures multiset(Map(s, f)) == multiset(Map(t, f))
    decreases |s|
  {
    if |s| > 0 {
      var x := s[0];
      assert x in multiset(t);
      var i :| 0 <= i < |t| && t[i] == x;
      var left, right := t[..i], t[i + 1..];
      RemoveOne(s, t, i);
      MapPermutation(s[1..], left + right, f);
      assert s == [x] + s[1..];
      assert t == left + ([x] + right);
      MapAppend([x], s[1..], f);
      MapAppend(left, [x] + right, f);
      MapAppend([x], right, f);
      MapAppend(left, right, f);
    }
  }

  /** Removing the head of `s` and a matching element of `t` keeps them permutations. */
  lemma RemoveOne<A>(s: seq<A>, t: seq<A>, i: int)
    requires multiset(s) == multiset(t)
    requires |s| > 0 && 0 <= i < |t| && t[i] == s[0]
    ensures multiset(s[1..]) == multiset(t[..i] + t[i + 1..])
  {
    var x := s[0];
    assert t == t[..i] + [x] + t[i + 1..];
    assert s == [x] + s[1..];
    calc {
      multiset(t[..i] + t[i + 1..]);
      multiset(t[..i]) + multiset(t[i + 1..]);
      multiset(t) - multiset{x};
      multiset(s) - multiset{x};
      multiset(s[1..]);
    }
  }
}

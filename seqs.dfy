/** `Array.prototype.filter` and the facts about it that the pages' list views rely on. */
module Seqs {

  /** `s.filter(p)`: the elements of `s` satisfying `p`, in their original order. */
  function Filter<T(!new)>(p: T -> bool, s: seq<T>): (r: seq<T>)
    ensures |r| <= |s|
    ensures forall x :: x in r <==> x in s && p(x)
    decreases |s|
  {
    if s == [] then [] else (if p(s[0]) then [s[0]] else []) + Filter(p, s[1..])
  }

  /** `a` is `b` with some elements left out and the rest kept in order. */
  predicate IsSubsequence<T(==)>(a: seq<T>, b: seq<T>)
    decreases |b|
  {
    if a == [] then true
    else if b == [] then false
    else if a[0] == b[0] then IsSubsequence(a[1..], b[1..])
    else IsSubsequence(a, b[1..])
  }

  lemma {:induction false} FilterIsSubsequence<T(!new)>(p: T -> bool, s: seq<T>)
    ensures IsSubsequence(Filter(p, s), s)
    decreases |s|
  {
    if s != [] {
      FilterIsSubsequence(p, s[1..]);
      var r := Filter(p, s);
      if p(s[0]) {
        assert r[0] == s[0] && r[1..] == Filter(p, s[1..]);
      } else {
        assert r == Filter(p, s[1..]);
        SubsequenceSkipHead(r, s);
      }
    }
  }

  lemma {:induction false} SubsequenceSkipHead<T(!new)>(a: seq<T>, b: seq<T>)
    requires b != [] && IsSubsequence(a, b[1..])
    ensures IsSubsequence(a, b)
    decreases |b|, 1
  {
    if a != [] && a[0] == b[0] {
      SubsequenceDropHead(a, b[1..]);
    }
  }

  lemma {:induction false} SubsequenceDropHead<T(!new)>(a: seq<T>, b: seq<T>)
    requires a != [] && IsSubsequence(a, b)
    ensures IsSubsequence(a[1..], b)
    decreases |b| + 1, 0
  {
    if b != [] {
      if a[0] == b[0] {
        SubsequenceSkipHead(a[1..], b);
      } else {
        SubsequenceDropHead(a, b[1..]);
        SubsequenceSkipHead(a[1..], b);
      }
    }
  }

  /** A subsequence of a subsequence is a subsequence. */
  lemma {:induction false} SubsequenceTransitive<T(!new)>(a: seq<T>, b: seq<T>, c: seq<T>)
    requires IsSubsequence(a, b) && IsSubsequence(b, c)
    ensures IsSubsequence(a, c)
    decreases |c|
  {
    if a != [] {
      if b[0] == c[0] {
        if a[0] == b[0] {
          SubsequenceTransitive(a[1..], b[1..], c[1..]);
        } else {
          SubsequenceTransitive(a, b[1..], c[1..]);
        }
      } else {
        SubsequenceTransitive(a, b, c[1..]);
        SubsequenceSkipHead(a, c);
      }
    }
  }

  lemma {:induction false} FilterAll<T(!new)>(p: T -> bool, s: seq<T>)
    requires forall x :: x in s ==> p(x)
    ensures Filter(p, s) == s
    decreases |s|
  {
    if s != [] {
      FilterAll(p, s[1..]);
    }
  }

  lemma {:induction false} FilterNone<T(!new)>(p: T -> bool, s: seq<T>)
    requires forall x :: x in s ==> !p(x)
    ensures Filter(p, s) == []
    decreases |s|
  {
    if s != [] {
      FilterNone(p, s[1..]);
    }
  }

  lemma {:induction false} FilterConcat<T(!new)>(p: T -> bool, a: seq<T>, b: seq<T>)
    ensures Filter(p, a + b) == Filter(p, a) + Filter(p, b)
    decreases |a|
  {
    if a == [] {
      assert a + b == b;
    } else {
      var ab := a + b;
      assert ab[0] == a[0] && ab[1..] == a[1..] + b;
      FilterConcat(p, a[1..], b);
    }
  }

  /** Filtering one more element at the end lengthens the result by one exactly when the predicate holds of it. */
  lemma FilterSnocLength<T(!new)>(p: T -> bool, s: seq<T>, e: T)
    ensures |Filter(p, s + [e])| == |Filter(p, s)| + (if p(e) then 1 else 0)
  {
    FilterConcat(p, s, [e]);
    assert [e][1..] == [];
  }

  /** Filtering a prefix gives a prefix of the filtered whole. */
  lemma FilterOfPrefix<T(!new)>(p: T -> bool, a: seq<T>, b: seq<T>)
    requires a <= b
    ensures Filter(p, a) <= Filter(p, b)
  {
    assert b == a + b[|a|..];
    FilterConcat(p, a, b[|a|..]);
  }

  /** Filtering a sequence with one element spliced in filters the three parts separately. */
  lemma FilterSplice<T(!new)>(p: T -> bool, lo: seq<T>, e: T, hi: seq<T>)
    ensures Filter(p, lo + [e] + hi) == Filter(p, lo) + Filter(p, [e]) + Filter(p, hi)
    ensures Filter(p, lo + hi) == Filter(p, lo) + Filter(p, hi)
  {
    FilterConcat(p, lo + [e], hi);
    FilterConcat(p, lo, [e]);
    FilterConcat(p, lo, hi);
  }

  /** Filtering one more element of a prefix appends it exactly when the predicate holds of it. */
  lemma FilterPrefixStep<T(!new)>(p: T -> bool, s: seq<T>, i: int)
    requires 0 <= i < |s|
    ensures Filter(p, s[..i + 1]) == Filter(p, s[..i]) + (if p(s[i]) then [s[i]] else [])
  {
    assert s[..i + 1] == s[..i] + [s[i]];
    FilterConcat(p, s[..i], [s[i]]);
    assert [s[i]][1..] == [];
  }

  /** An element the predicate rejects can be spliced in without changing the filtered result. */
  lemma FilterSkip<T(!new)>(p: T -> bool, lo: seq<T>, e: T, hi: seq<T>)
    requires !p(e)
    ensures Filter(p, lo + [e] + hi) == Filter(p, lo + hi)
  {
    FilterSplice(p, lo, e, hi);
    assert Filter(p, [e]) == [] by {
      assert [e][1..] == [];
    }
  }

  /** A weaker predicate keeps a superset, in order: the stricter filter's result is a subsequence of the looser one's. */
  lemma {:induction false} FilterStronger<T(!new)>(p: T -> bool, q: T -> bool, s: seq<T>)
    requires forall x :: p(x) ==> q(x)
    ensures IsSubsequence(Filter(p, s), Filter(q, s))
    ensures |Filter(p, s)| <= |Filter(q, s)|
    decreases |s|
  {
    if s != [] {
      FilterStronger(p, q, s[1..]);
      var rp, rq := Filter(p, s[1..]), Filter(q, s[1..]);
      if p(s[0]) {
        assert Filter(p, s) == [s[0]] + rp && Filter(q, s) == [s[0]] + rq;
        assert ([s[0]] + rp)[1..] == rp && ([s[0]] + rq)[1..] == rq;
      } else if q(s[0]) {
        assert Filter(p, s) == rp && Filter(q, s) == [s[0]] + rq;
        assert ([s[0]] + rq)[1..] == rq;
        SubsequenceSkipHead(rp, [s[0]] + rq);
      } else {
        assert Filter(p, s) == rp && Filter(q, s) == rq;
      }
    }
  }

  /** Agreeing predicates filter alike. */
  lemma {:induction false} FilterCongruent<T(!new)>(p: T -> bool, q: T -> bool, s: seq<T>)
    requires forall x :: x in s ==> (p(x) <==> q(x))
    ensures Filter(p, s) == Filter(q, s)
    decreases |s|
  {
    if s != [] {
      FilterCongruent(p, q, s[1..]);
    }
  }
}

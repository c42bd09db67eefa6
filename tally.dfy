/** Counting occurrences into an insertion-ordered table, the way the analytics page fills a `Map<string, number>`
    with `acc.set(k, (acc.get(k) || 0) + 1)`, and the stable descending sort applied to its entries. */
module Tally {
  import opened Seqs

  /** A `Map`'s entries in insertion order: each key with its count. */
  type Counts = seq<(string, nat)>

  /** Position of `k` among the keys of `t`, or -1. */
  function KeyIndex(t: Counts, k: string): (i: int)
    ensures -1 <= i < |t|
    ensures i >= 0 ==> t[i].0 == k && forall j :: 0 <= j < i ==> t[j].0 != k
    ensures i < 0 ==> forall j :: 0 <= j < |t| ==> t[j].0 != k
    decreases |t|
  {
    if t == [] then -1
    else if t[0].0 == k then 0
    else var i := KeyIndex(t[1..], k); if i < 0 then -1 else i + 1
  }

  /** `acc.get(k) || 0`. */
  function CountOf(t: Counts, k: string): nat {
    var i := KeyIndex(t, k);
    if i < 0 then 0 else t[i].1
  }

  /** No key appears twice. */
  predicate UniqueKeys(t: Counts) {
    forall i, j :: 0 <= i < j < |t| ==> t[i].0 != t[j].0
  }

  /** `acc.set(k, v)`: a new key goes to the end, a present key keeps its place and takes the new value. */
  function MapSet(t: Counts, k: string, v: nat): (r: Counts)
    ensures KeyIndex(t, k) < 0 ==> r == t + [(k, v)]
    ensures KeyIndex(t, k) >= 0 ==>
      (|r| == |t| && r[KeyIndex(t, k)] == (k, v)
       && forall j :: 0 <= j < |t| && j != KeyIndex(t, k) ==> r[j] == t[j])
  {
    var i := KeyIndex(t, k);
    if i < 0 then t + [(k, v)] else t[i := (k, v)]
  }

  /** One `acc.set(k, (acc.get(k) || 0) + 1)`. */
  function Bump(t: Counts, k: string): Counts {
    MapSet(t, k, CountOf(t, k) + 1)
  }

  /** A bump raises the count of its key by one and of no other key, keeps keys unique and counts positive. */
  lemma BumpFacts(t: Counts, k: string)
    ensures CountOf(Bump(t, k), k) == CountOf(t, k) + 1
    ensures forall k' :: k' != k ==> CountOf(Bump(t, k), k') == CountOf(t, k')
    ensures UniqueKeys(t) ==> UniqueKeys(Bump(t, k))
    ensures Positive(t) ==> Positive(Bump(t, k))
  {
    var r := Bump(t, k);
    if KeyIndex(t, k) < 0 {
      forall k' ensures KeyIndex(r, k') == (if k' == k then |t| else KeyIndex(t, k')) {
        KeyIndexAppend(t, (k, 1), k');
      }
    } else {
      forall k' ensures KeyIndex(r, k') == KeyIndex(t, k') {
        KeyIndexSameKeys(t, r, k');
      }
    }
  }

  /** Every count is at least one. */
  predicate Positive(t: Counts) {
    forall j :: 0 <= j < |t| ==> t[j].1 >= 1
  }

  lemma KeyIndexAppend(t: Counts, e: (string, nat), k: string)
    ensures KeyIndex(t + [e], k) == (if KeyIndex(t, k) >= 0 then KeyIndex(t, k) else if e.0 == k then |t| else -1)
  {
    var a, i := KeyIndex(t, k), KeyIndex(t + [e], k);
    if a >= 0 { assert (t + [e])[a] == t[a]; }
    if 0 <= i < |t| { assert (t + [e])[i] == t[i]; }
    assert (t + [e])[|t|] == e;
  }

  lemma KeyIndexSameKeys(t: Counts, r: Counts, k: string)
    requires |t| == |r| && forall j :: 0 <= j < |t| ==> t[j].0 == r[j].0
    ensures KeyIndex(r, k) == KeyIndex(t, k)
  {
    var a, b := KeyIndex(t, k), KeyIndex(r, k);
    if 0 <= a { assert r[a].0 == k; }
    if 0 <= b { assert t[b].0 == k; }
  }

  lemma KeyIndexIff(t: Counts, k: string)
    ensures KeyIndex(t, k) >= 0 <==> k in Keys(t)
  {
    if k in Keys(t) {
      var j :| 0 <= j < |t| && Keys(t)[j] == k;
      assert t[j].0 == k;
    }
    if KeyIndex(t, k) >= 0 {
      assert Keys(t)[KeyIndex(t, k)] == k;
    }
  }

  function Keys(t: Counts): (ks: seq<string>)
    ensures |ks| == |t| && forall i :: 0 <= i < |t| ==> ks[i] == t[i].0
  {
    seq(|t|, i requires 0 <= i < |t| => t[i].0)
  }

  /** The table the loop over `tags` leaves behind, starting from an empty `Map`. */
  function Frequencies(tags: seq<string>): Counts
    decreases |tags|
  {
    if tags == [] then [] else Bump(Frequencies(tags[..|tags| - 1]), tags[|tags| - 1])
  }

  lemma FrequenciesSnoc(tags: seq<string>, k: string)
    ensures Frequencies(tags + [k]) == Bump(Frequencies(tags), k)
  {
    assert (tags + [k])[..|tags|] == tags;
  }

  /** Position of the first occurrence of `k` in `s`, or `|s|` when there is none. */
  function FirstIndex(s: seq<string>, k: string): (i: nat)
    ensures i <= |s|
    ensures i < |s| ==> s[i] == k
    ensures forall j :: 0 <= j < i ==> s[j] != k
    decreases |s|
  {
    if s == [] then 0 else if s[0] == k then 0 else 1 + FirstIndex(s[1..], k)
  }

  lemma FirstIndexSnoc(s: seq<string>, x: string, k: string)
    requires k in s
    ensures FirstIndex(s + [x], k) == FirstIndex(s, k)
  {
    var i, j := FirstIndex(s, k), FirstIndex(s + [x], k);
    assert (s + [x])[i] == s[i];
    if j < i { assert (s + [x])[j] == s[j]; }
  }

  function SumCounts(t: Counts): nat
    decreases |t|
  {
    if t == [] then 0 else SumCounts(t[..|t| - 1]) + t[|t| - 1].1
  }

  lemma {:induction false} SumCountsUpdate(t: Counts, i: int, e: (string, nat))
    requires 0 <= i < |t|
    ensures SumCounts(t[i := e]) == SumCounts(t) - t[i].1 + e.1
    decreases |t|
  {
    var n := |t|;
    if i < n - 1 {
      assert t[i := e][..n - 1] == t[..n - 1][i := e];
      SumCountsUpdate(t[..n - 1], i, e);
    } else {
      assert t[i := e][..n - 1] == t[..n - 1];
    }
  }

  lemma {:induction false} FrequenciesUnique(tags: seq<string>)
    ensures UniqueKeys(Frequencies(tags)) && Positive(Frequencies(tags))
    decreases |tags|
  {
    if tags != [] {
      FrequenciesUnique(tags[..|tags| - 1]);
      BumpFacts(Frequencies(tags[..|tags| - 1]), tags[|tags| - 1]);
    }
  }

  lemma {:induction false} FrequenciesCount(tags: seq<string>)
    ensures forall k :: CountOf(Frequencies(tags), k) == multiset(tags)[k]
    decreases |tags|
  {
    if tags != [] {
      var s, x := tags[..|tags| - 1], tags[|tags| - 1];
      assert tags == s + [x];
      assert multiset(tags) == multiset(s) + multiset{x};
      FrequenciesCount(s);
      BumpFacts(Frequencies(s), x);
    }
  }

  lemma FrequenciesKeys(tags: seq<string>)
    ensures forall k :: k in Keys(Frequencies(tags)) <==> k in tags
  {
    FrequenciesUnique(tags);
    FrequenciesCount(tags);
    var t := Frequencies(tags);
    forall k ensures k in Keys(t) <==> k in tags {
      KeyIndexIff(t, k);
      if KeyIndex(t, k) >= 0 { assert t[KeyIndex(t, k)].1 >= 1; }
      assert CountOf(t, k) == multiset(tags)[k];
      assert k in tags <==> multiset(tags)[k] > 0;
    }
  }

  lemma {:induction false} FrequenciesSum(tags: seq<string>)
    ensures SumCounts(Frequencies(tags)) == |tags|
    decreases |tags|
  {
    if tags != [] {
      var s, x := tags[..|tags| - 1], tags[|tags| - 1];
      FrequenciesSum(s);
      var t := Frequencies(s);
      var i := KeyIndex(t, x);
      if i < 0 {
        assert Bump(t, x)[..|t|] == t;
      } else {
        assert Bump(t, x) == t[i := (x, t[i].1 + 1)];
        SumCountsUpdate(t, i, (x, t[i].1 + 1));
      }
    }
  }

  lemma {:induction false} FrequenciesFirstSeen(tags: seq<string>)
    ensures forall i, j :: 0 <= i < j < |Frequencies(tags)| ==>
      FirstIndex(tags, Frequencies(tags)[i].0) < FirstIndex(tags, Frequencies(tags)[j].0)
    decreases |tags|
  {
    if tags != [] {
      var s, x := tags[..|tags| - 1], tags[|tags| - 1];
      assert tags == s + [x];
      FrequenciesFirstSeen(s);
      FrequenciesKeys(s);
      var t := Frequencies(s);
      var r := Frequencies(tags);
      var i := KeyIndex(t, x);
      forall a, b | 0 <= a < b < |r| ensures FirstIndex(tags, r[a].0) < FirstIndex(tags, r[b].0) {
        assert r[a].0 == t[a].0 && Keys(t)[a] == t[a].0;
        FirstIndexSnoc(s, x, r[a].0);
        if b < |t| {
          assert r[b].0 == t[b].0 && Keys(t)[b] == t[b].0;
          FirstIndexSnoc(s, x, r[b].0);
        } else {
          assert r[b].0 == x;
          KeyIndexIff(t, x);
          FirstIndexAbsent(s, x);
        }
      }
    }
  }

  lemma FirstIndexAbsent(s: seq<string>, x: string)
    requires x !in s
    ensures FirstIndex(s + [x], x) == |s|
  {
    var j := FirstIndex(s + [x], x);
    assert (s + [x])[|s|] == x;
  }

  /** What the table says about `tags`: every element of `tags` is a key and every key occurs in `tags`, each key
      once; the count of a key is its number of occurrences, repeats included; the counts sum to `|tags|`; and
      keys stand in the order of their first occurrence. */
  lemma FrequenciesCorrect(tags: seq<string>)
    ensures UniqueKeys(Frequencies(tags))
    ensures forall k :: k in Keys(Frequencies(tags)) <==> k in tags
    ensures forall k :: CountOf(Frequencies(tags), k) == multiset(tags)[k]
    ensures SumCounts(Frequencies(tags)) == |tags|
    ensures forall i, j :: 0 <= i < j < |Frequencies(tags)| ==>
      FirstIndex(tags, Frequencies(tags)[i].0) < FirstIndex(tags, Frequencies(tags)[j].0)
  {
    FrequenciesUnique(tags);
    FrequenciesKeys(tags);
    FrequenciesCount(tags);
    FrequenciesSum(tags);
    FrequenciesFirstSeen(tags);
  }

  // ---------------------------------------------------------------- stable descending sort

  predicate NonIncreasing(t: Counts) {
    forall i, j :: 0 <= i < j < |t| ==> t[i].1 >= t[j].1
  }

  /** Number of leading entries whose count is at least `c`. */
  function InsertionPoint(t: Counts, c: nat): (k: nat)
    ensures k <= |t|
    ensures forall j :: 0 <= j < k ==> t[j].1 >= c
    ensures k < |t| ==> t[k].1 < c
    decreases |t|
  {
    if t == [] || t[0].1 < c then 0 else 1 + InsertionPoint(t[1..], c)
  }

  /** Put `e` after every entry whose count is at least its own. */
  function Insert(t: Counts, e: (string, nat)): Counts {
    var k := InsertionPoint(t, e.1);
    t[..k] + [e] + t[k..]
  }

  /** `sort((a, b) => b.count - a.count)`, which is stable: insertion sort taking the entries left to right. */
  function SortByCountDesc(t: Counts): Counts
    decreases |t|
  {
    if t == [] then [] else Insert(SortByCountDesc(t[..|t| - 1]), t[|t| - 1])
  }

  function HasCount(c: nat): ((string, nat)) -> bool {
    (e: (string, nat)) => e.1 == c
  }

  /** Position by position, `Insert` puts `e` at the insertion point and shifts the rest one place. */
  lemma InsertIndex(t: Counts, e: (string, nat), i: int)
    requires 0 <= i <= |t|
    ensures |Insert(t, e)| == |t| + 1
    ensures Insert(t, e)[i] ==
      (if i < InsertionPoint(t, e.1) then t[i] else if i == InsertionPoint(t, e.1) then e else t[i - 1])
  {
  }

  lemma InsertSorted(t: Counts, e: (string, nat))
    requires NonIncreasing(t)
    ensures NonIncreasing(Insert(t, e))
  {
    var k := InsertionPoint(t, e.1);
    var r := Insert(t, e);
    forall i, j | 0 <= i < j < |r| ensures r[i].1 >= r[j].1 {
      InsertIndex(t, e, i);
      InsertIndex(t, e, j);
      if i == k && j > k {
        assert t[k].1 < e.1 && t[k].1 >= t[j - 1].1;
      }
    }
  }

  /** In a non-increasing table everything from the insertion point on has a count below `c`. */
  lemma TailBelow(t: Counts, c: nat)
    requires NonIncreasing(t)
    ensures forall x :: x in t[InsertionPoint(t, c)..] ==> x.1 < c
  {
    var k := InsertionPoint(t, c);
    forall x | x in t[k..] ensures x.1 < c {
      var j :| 0 <= j < |t[k..]| && t[k..][j] == x;
      assert t[k + j] == x;
      if j > 0 { assert t[k].1 >= t[k + j].1; }
    }
  }

  lemma InsertFilter(t: Counts, e: (string, nat), c: nat)
    requires NonIncreasing(t)
    ensures Filter(HasCount(c), Insert(t, e)) == Filter(HasCount(c), t) + Filter(HasCount(c), [e])
  {
    if e.1 == c { InsertFilterSame(t, e); } else { InsertFilterOther(t, e, c); }
  }

  /** An entry with count `c` lands after every other entry with count `c`. */
  lemma InsertFilterSame(t: Counts, e: (string, nat))
    requires NonIncreasing(t)
    ensures Filter(HasCount(e.1), Insert(t, e)) == Filter(HasCount(e.1), t) + [e]
  {
    var k := InsertionPoint(t, e.1);
    var p := HasCount(e.1);
    var lo, hi := t[..k], t[k..];
    assert t == lo + hi;
    FilterSplice(p, lo, e, hi);
    TailBelow(t, e.1);
    FilterNone(p, hi);
  }

  lemma InsertFilterOther(t: Counts, e: (string, nat), c: nat)
    requires e.1 != c
    ensures Filter(HasCount(c), Insert(t, e)) == Filter(HasCount(c), t)
  {
    var k := InsertionPoint(t, e.1);
    var p := HasCount(c);
    var lo, hi := t[..k], t[k..];
    assert t == lo + hi;
    assert Insert(t, e) == lo + [e] + hi;
    FilterSkip(p, lo, e, hi);
  }

  lemma {:induction false} SortSorted(t: Counts)
    ensures NonIncreasing(SortByCountDesc(t))
    decreases |t|
  {
    if t != [] {
      SortSorted(t[..|t| - 1]);
      InsertSorted(SortByCountDesc(t[..|t| - 1]), t[|t| - 1]);
    }
  }

  lemma {:induction false} SortPermutes(t: Counts)
    ensures multiset(SortByCountDesc(t)) == multiset(t)
    decreases |t|
  {
    if t != [] {
      var s, e := t[..|t| - 1], t[|t| - 1];
      assert t == s + [e];
      SortPermutes(s);
      var u := SortByCountDesc(s);
      var k := InsertionPoint(u, e.1);
      assert u == u[..k] + u[k..];
      assert multiset(Insert(u, e)) == multiset(u[..k]) + multiset{e} + multiset(u[k..]);
    }
  }

  lemma {:induction false} SortStable(t: Counts, c: nat)
    ensures Filter(HasCount(c), SortByCountDesc(t)) == Filter(HasCount(c), t)
    decreases |t|
  {
    if t != [] {
      var s, e := t[..|t| - 1], t[|t| - 1];
      assert t == s + [e];
      SortStable(s, c);
      SortSorted(s);
      InsertFilter(SortByCountDesc(s), e, c);
      FilterConcat(HasCount(c), s, [e]);
    }
  }

  /** The sort puts the counts in non-increasing order, keeps every entry exactly once, and leaves entries with equal
      counts in their original relative order. */
  lemma SortByCountDescCorrect(t: Counts)
    ensures NonIncreasing(SortByCountDesc(t))
    ensures multiset(SortByCountDesc(t)) == multiset(t)
    ensures forall c :: Filter(HasCount(c), SortByCountDesc(t)) == Filter(HasCount(c), t)
  {
    SortSorted(t);
    SortPermutes(t);
    forall c ensures Filter(HasCount(c), SortByCountDesc(t)) == Filter(HasCount(c), t) {
      SortStable(t, c);
    }
  }

  /** A table whose rows all have the same count is already sorted: the stable sort leaves it as it is. */
  lemma SortAllTied(t: Counts, c: nat)
    requires forall e :: e in t ==> e.1 == c
    ensures SortByCountDesc(t) == t
  {
    var s := SortByCountDesc(t);
    assert Filter(HasCount(c), s) == s by {
      SortPermutes(t);
      forall e | e in s ensures HasCount(c)(e) {
        assert e in multiset(s);
      }
      FilterAll(HasCount(c), s);
    }
    assert Filter(HasCount(c), t) == t by {
      FilterAll(HasCount(c), t);
    }
    SortStable(t, c);
  }

  /** `.slice(0, n)` of the sorted entries. */
  function Top(t: Counts, n: nat): (r: Counts)
    ensures r <= t
    ensures |r| == if |t| <= n then |t| else n
  {
    if |t| <= n then t else t[..n]
  }

  /** The top list is a prefix of the sorted table, so nothing outside it has a larger count than anything in it. */
  lemma TopDominates(t: Counts, n: nat)
    ensures NonIncreasing(Top(SortByCountDesc(t), n))
    ensures forall i, j :: 0 <= i < |Top(SortByCountDesc(t), n)| <= j < |SortByCountDesc(t)| ==>
      Top(SortByCountDesc(t), n)[i].1 >= SortByCountDesc(t)[j].1
    ensures |t| >= n ==> |Top(SortByCountDesc(t), n)| == n
  {
    SortByCountDescCorrect(t);
    var s := SortByCountDesc(t);
    assert |s| == |multiset(s)| == |multiset(t)| == |t|;
  }

  /** Among rows with equal counts, the top list shows the first ones of the table, in table order: for each count,
      the rows of that count kept are a prefix of the table's rows of that count. */
  lemma TopTiesFirstSeen(t: Counts, n: nat)
    ensures forall c :: Filter(HasCount(c), Top(SortByCountDesc(t), n)) <= Filter(HasCount(c), t)
  {
    SortByCountDescCorrect(t);
    forall c ensures Filter(HasCount(c), Top(SortByCountDesc(t), n)) <= Filter(HasCount(c), t) {
      FilterOfPrefix(HasCount(c), Top(SortByCountDesc(t), n), SortByCountDesc(t));
    }
  }
}

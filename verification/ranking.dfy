/** The report ranking rule: `cmp64` and the "largest counter first" order the two sample
    comparators impose, with a reference sort that follows that order and the proof that
    every ordering the comparator accepts lists the same counters. */
module Ranking {
  import opened Machine

  /** Three-way comparison of two unsigned 64-bit values. */
  function Cmp64(a: U64, b: U64): (r: int)
    ensures r == 1 <==> a > b
    ensures r == 0 <==> a == b
    ensures r == -1 <==> a < b
  {
    if a > b then 1 else if a == b then 0 else -1
  }

  /** `cmp64` is reflexive, antisymmetric and transitive in both directions. */
  lemma Cmp64Laws(a: U64, b: U64, c: U64)
    ensures Cmp64(a, a) == 0
    ensures Cmp64(a, b) == -Cmp64(b, a)
    ensures Cmp64(a, b) >= 0 && Cmp64(b, c) >= 0 ==> Cmp64(a, c) >= 0
    ensures Cmp64(a, b) <= 0 && Cmp64(b, c) <= 0 ==> Cmp64(a, c) <= 0
  {
  }

  /** The shape shared by both sample comparators: compare the SECOND argument's counter
      with the first's, so that a larger counter sorts earlier. */
  function ByCounterDesc<T>(counter: T -> U64, x: T, y: T): int
  {
    Cmp64(counter(y), counter(x))
  }

  /** `s` is in an order the comparator accepts: no later element compares before an earlier one. */
  predicate RankedBy<T>(counter: T -> U64, s: seq<T>)
  {
    forall i, j :: 0 <= i < j < |s| ==> ByCounterDesc(counter, s[i], s[j]) <= 0
  }

  /** The counters of `s`, position by position. */
  function Counters<T>(counter: T -> U64, s: seq<T>): seq<U64>
  {
    seq(|s|, i requires 0 <= i < |s| => counter(s[i]))
  }

  lemma CountersAt<T>(counter: T -> U64, s: seq<T>)
    ensures |Counters(counter, s)| == |s|
    ensures forall i :: 0 <= i < |s| ==> Counters(counter, s)[i] == counter(s[i])
  {
  }

  predicate NonIncreasing(s: seq<U64>)
  {
    forall i, j :: 0 <= i < j < |s| ==> s[i] >= s[j]
  }

  /** Being in comparator order is the same as having non-increasing counters. */
  lemma RankedIffCountersDescending<T>(counter: T -> U64, s: seq<T>)
    ensures RankedBy(counter, s) <==> NonIncreasing(Counters(counter, s))
  {
    CountersAt(counter, s);
  }

  /** Inserts `x` into a comparator-ordered sequence in front of the first element it does not
      compare after. */
  function Insert<T>(counter: T -> U64, x: T, s: seq<T>): (r: seq<T>)
    requires RankedBy(counter, s)
    ensures RankedBy(counter, r)
    ensures multiset(r) == multiset(s) + multiset{x}
    decreases |s|
  {
    if |s| == 0 then [x]
    else if ByCounterDesc(counter, x, s[0]) <= 0 then
      InsertFrontRanked(counter, x, s);
      [x] + s
    else
      var rest := Insert(counter, x, s[1..]);
      InsertBehindRanked(counter, x, s, rest);
      [s[0]] + rest
  }

  lemma InsertFrontRanked<T>(counter: T -> U64, x: T, s: seq<T>)
    requires RankedBy(counter, s)
    requires |s| > 0 && counter(x) >= counter(s[0])
    ensures RankedBy(counter, [x] + s)
  {
    var r := [x] + s;
    forall i, j | 0 <= i < j < |r|
      ensures ByCounterDesc(counter, r[i], r[j]) <= 0
    {
      if i == 0 {
        if j > 1 {
          assert ByCounterDesc(counter, s[0], s[j - 1]) <= 0;
        }
      } else {
        assert ByCounterDesc(counter, s[i - 1], s[j - 1]) <= 0;
      }
    }
  }

  lemma InsertBehindRanked<T>(counter: T -> U64, x: T, s: seq<T>, rest: seq<T>)
    requires RankedBy(counter, s)
    requires |s| > 0 && counter(x) < counter(s[0])
    requires RankedBy(counter, rest)
    requires multiset(rest) == multiset(s[1..]) + multiset{x}
    ensures RankedBy(counter, [s[0]] + rest)
    ensures multiset([s[0]] + rest) == multiset(s) + multiset{x}
  {
    var r := [s[0]] + rest;
    forall j | 0 <= j < |rest|
      ensures counter(rest[j]) <= counter(s[0])
    {
      assert rest[j] in multiset(rest);
      if rest[j] != x {
        assert rest[j] in multiset(s[1..]);
        var k :| 0 <= k < |s[1..]| && s[1..][k] == rest[j];
        assert ByCounterDesc(counter, s[0], s[k + 1]) <= 0;
      }
    }
    forall i, j | 0 <= i < j < |r|
      ensures ByCounterDesc(counter, r[i], r[j]) <= 0
    {
      if i == 0 {
        assert r[j] == rest[j - 1];
      } else {
        assert ByCounterDesc(counter, rest[i - 1], rest[j - 1]) <= 0;
      }
    }
    assert s == [s[0]] + s[1..];
  }

  /** A reference sort in comparator order (insertion sort, stable on equal counters). */
  function SortByCounter<T>(counter: T -> U64, s: seq<T>): (r: seq<T>)
    ensures RankedBy(counter, r)
    ensures multiset(r) == multiset(s)
  {
    if |s| == 0 then []
    else
      assert s == [s[0]] + s[1..];
      Insert(counter, s[0], SortByCounter(counter, s[1..]))
  }

  /** Splitting `Counters` over a concatenation. */
  lemma CountersAppend<T>(counter: T -> U64, a: seq<T>, b: seq<T>)
    ensures Counters(counter, a + b) == Counters(counter, a) + Counters(counter, b)
  {
    assert forall i :: 0 <= i < |a| + |b| ==>
      Counters(counter, a + b)[i] == (Counters(counter, a) + Counters(counter, b))[i];
  }

  /** Removing the element at `k` removes one copy of it from the multiset. */
  lemma MultisetRemoveAt<E>(b: seq<E>, k: nat)
    requires k < |b|
    ensures multiset(b[..k] + b[k + 1..]) == multiset(b) - multiset{b[k]}
  {
    assert b == b[..k] + [b[k]] + b[k + 1..];
  }

  /** Removing the element at `k` removes one copy of its counter from the counters. */
  lemma CountersRemoveAt<T>(counter: T -> U64, b: seq<T>, k: nat)
    requires k < |b|
    ensures multiset(Counters(counter, b))
            == multiset(Counters(counter, b[..k] + b[k + 1..])) + multiset{counter(b[k])}
  {
    var left, right := b[..k], b[k + 1..];
    CountersSplitAt(counter, b, k);
    CountersAppend(counter, left, right);
    MultisetAroundElement(Counters(counter, left), counter(b[k]), Counters(counter, right));
  }

  lemma CountersSplitAt<T>(counter: T -> U64, b: seq<T>, k: nat)
    requires k < |b|
    ensures Counters(counter, b) == Counters(counter, b[..k]) + [counter(b[k])] + Counters(counter, b[k + 1..])
  {
    assert b == (b[..k] + [b[k]]) + b[k + 1..];
    CountersAppend(counter, b[..k] + [b[k]], b[k + 1..]);
    CountersAppend(counter, b[..k], [b[k]]);
  }

  lemma MultisetAroundElement<E>(x: seq<E>, c: E, y: seq<E>)
    ensures multiset(x + [c] + y) == multiset(x + y) + multiset{c}
  {
  }

  /** Reordering the elements reorders their counters: permutations have permuted counters. */
  lemma {:induction false} CountersPermutation<T>(counter: T -> U64, a: seq<T>, b: seq<T>)
    requires multiset(a) == multiset(b)
    ensures multiset(Counters(counter, a)) == multiset(Counters(counter, b))
    decreases |a|
  {
    if |a| == 0 {
      assert |b| == |multiset(b)| == 0;
    } else {
      var x := a[0];
      assert x in multiset(b);
      var k :| 0 <= k < |b| && b[k] == x;
      MultisetOfTail(a);
      MultisetRemoveAt(b, k);
      CountersPermutation(counter, a[1..], b[..k] + b[k + 1..]);
      CountersRemoveAt(counter, b, k);
      assert Counters(counter, a) == [counter(x)] + Counters(counter, a[1..]);
    }
  }

  /** The head of a non-increasing sequence bounds every element. */
  lemma HeadBoundsAll(a: seq<U64>, x: U64)
    requires NonIncreasing(a) && x in multiset(a)
    ensures x <= a[0]
  {
    var k :| 0 <= k < |a| && a[k] == x;
    if k > 0 {
      assert a[0] >= a[k];
    }
  }

  /** Dropping the head removes one copy of it from the multiset. */
  lemma MultisetOfTail<E>(a: seq<E>)
    requires |a| > 0
    ensures multiset(a[1..]) == multiset(a) - multiset{a[0]}
  {
    assert a == [a[0]] + a[1..];
  }

  lemma NonIncreasingTail(a: seq<U64>)
    requires NonIncreasing(a) && |a| > 0
    ensures NonIncreasing(a[1..])
  {
    forall i, j | 0 <= i < j < |a[1..]| ensures a[1..][i] >= a[1..][j] {
      assert a[i + 1] >= a[j + 1];
    }
  }

  /** Non-increasing sequences with the same values start with the same value and agree on
      the values after it. */
  lemma SameHeadSameTail(a: seq<U64>, b: seq<U64>)
    requires NonIncreasing(a) && NonIncreasing(b)
    requires multiset(a) == multiset(b)
    requires |a| > 0 && |b| > 0
    ensures a[0] == b[0]
    ensures multiset(a[1..]) == multiset(b[1..])
  {
    HeadBoundsAll(b, a[0]);
    HeadBoundsAll(a, b[0]);
    MultisetOfTail(a);
    MultisetOfTail(b);
  }

  /** Two non-increasing sequences holding the same values are equal. */
  lemma {:induction false} NonIncreasingUnique(a: seq<U64>, b: seq<U64>)
    requires NonIncreasing(a) && NonIncreasing(b)
    requires multiset(a) == multiset(b)
    ensures a == b
    decreases |a|
  {
    assert |a| == |multiset(a)| == |multiset(b)| == |b|;
    if |a| > 0 {
      NonIncreasingTail(a);
      NonIncreasingTail(b);
      SameHeadSameTail(a, b);
      NonIncreasingUnique(a[1..], b[1..]);
      assert a == [a[0]] + a[1..];
      assert b == [b[0]] + b[1..];
    }
  }

  /** Whatever order a sort routine leaves equal counters in, every comparator-ordered
      arrangement of the same entries lists the same counters at every position. */
  lemma RankingDeterminesCounters<T>(counter: T -> U64, a: seq<T>, b: seq<T>)
    requires RankedBy(counter, a) && RankedBy(counter, b)
    requires multiset(a) == multiset(b)
    ensures Counters(counter, a) == Counters(counter, b)
    ensures |a| == |b|
    ensures forall i :: 0 <= i < |a| ==> counter(a[i]) == counter(b[i])
  {
    RankedIffCountersDescending(counter, a);
    RankedIffCountersDescending(counter, b);
    CountersPermutation(counter, a, b);
    NonIncreasingUnique(Counters(counter, a), Counters(counter, b));
    CountersAt(counter, a);
    CountersAt(counter, b);
  }
}

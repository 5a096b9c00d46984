/** The two aggregated entry kinds of the profiler (`CallTraceSample`, `MethodSample`) and their
    qsort comparators, which put the entry with the larger weighted counter first. */
module Samples {
  import opened Machine
  import opened Ranking

  /** One captured frame, `ASGCT_CallFrame`: a bytecode index (or a negative tick code) and a
      method identity. Its definition lives outside the modelled headers, so the method
      identity is kept opaque. */
  datatype CallFrame = CallFrame(bci: I32, methodId: nat)

  /** An aggregated call trace: sample count, weighted counter, and the slice of the frame
      buffer holding its frames. */
  datatype CallTraceSample = CallTraceSample(samples: U64, counter: U64, startFrame: I32, numFrames: I32)

  /** An aggregated leaf method: sample count, weighted counter and the frame itself. */
  datatype MethodSample = MethodSample(samples: U64, counter: U64, frame: CallFrame)

  function TraceCounter(s: CallTraceSample): U64 { s.counter }

  function MethodCounter(s: MethodSample): U64 { s.counter }

  /** `CallTraceSample::comparator`: negative when `s1` must come first, i.e. when its counter
      is larger; zero exactly on equal counters. */
  function TraceComparator(s1: CallTraceSample, s2: CallTraceSample): (r: int)
    ensures r < 0 <==> s1.counter > s2.counter
    ensures r == 0 <==> s1.counter == s2.counter
    ensures r > 0 <==> s1.counter < s2.counter
    ensures -1 <= r <= 1
  {
    Cmp64(s2.counter, s1.counter)
  }

  /** `MethodSample::comparator`: the same descending-by-counter rule for leaf methods. */
  function MethodComparator(s1: MethodSample, s2: MethodSample): (r: int)
    ensures r < 0 <==> s1.counter > s2.counter
    ensures r == 0 <==> s1.counter == s2.counter
    ensures r > 0 <==> s1.counter < s2.counter
    ensures -1 <= r <= 1
  {
    Cmp64(s2.counter, s1.counter)
  }

  /** Only the counter takes part in the trace comparison: sample count and frame-buffer
      slice are ignored, and the comparison is antisymmetric and transitive. */
  lemma TraceComparatorLaws(s1: CallTraceSample, s2: CallTraceSample, s3: CallTraceSample,
                            t1: CallTraceSample, t2: CallTraceSample)
    ensures s1.counter == t1.counter && s2.counter == t2.counter ==>
              TraceComparator(s1, s2) == TraceComparator(t1, t2)
    ensures TraceComparator(s1, s2) == -TraceComparator(s2, s1)
    ensures TraceComparator(s1, s1) == 0
    ensures TraceComparator(s1, s2) <= 0 && TraceComparator(s2, s3) <= 0 ==> TraceComparator(s1, s3) <= 0
  {
  }

  /** Only the counter takes part in the method comparison: sample count and frame are ignored. */
  lemma MethodComparatorLaws(s1: MethodSample, s2: MethodSample, s3: MethodSample,
                             t1: MethodSample, t2: MethodSample)
    ensures s1.counter == t1.counter && s2.counter == t2.counter ==>
              MethodComparator(s1, s2) == MethodComparator(t1, t2)
    ensures MethodComparator(s1, s2) == -MethodComparator(s2, s1)
    ensures MethodComparator(s1, s1) == 0
    ensures MethodComparator(s1, s2) <= 0 && MethodComparator(s2, s3) <= 0 ==> MethodComparator(s1, s3) <= 0
  {
  }

  /** The traces report order: a rearrangement of the entries in which no entry compares after
      a later one, so counters never increase down the list. */
  function SortTraces(traces: seq<CallTraceSample>): (r: seq<CallTraceSample>)
    ensures multiset(r) == multiset(traces)
    ensures forall i, j :: 0 <= i < j < |r| ==> TraceComparator(r[i], r[j]) <= 0
    ensures forall i, j :: 0 <= i < j < |r| ==> r[i].counter >= r[j].counter
  {
    var r := SortByCounter(TraceCounter, traces);
    assert forall i, j :: 0 <= i < j < |r| ==> ByCounterDesc(TraceCounter, r[i], r[j]) <= 0;
    r
  }

  /** The flat report order: methods rearranged by counter, largest first. */
  function SortMethods(methods: seq<MethodSample>): (r: seq<MethodSample>)
    ensures multiset(r) == multiset(methods)
    ensures forall i, j :: 0 <= i < j < |r| ==> MethodComparator(r[i], r[j]) <= 0
    ensures forall i, j :: 0 <= i < j < |r| ==> r[i].counter >= r[j].counter
  {
    var r := SortByCounter(MethodCounter, methods);
    assert forall i, j :: 0 <= i < j < |r| ==> ByCounterDesc(MethodCounter, r[i], r[j]) <= 0;
    r
  }

  /** The comparator leaves the order of equal counters to the sort routine, yet any two
      comparator-ordered arrangements of the same traces show the same counter at every rank. */
  lemma TraceRankingIsDetermined(a: seq<CallTraceSample>, b: seq<CallTraceSample>)
    requires multiset(a) == multiset(b)
    requires forall i, j :: 0 <= i < j < |a| ==> TraceComparator(a[i], a[j]) <= 0
    requires forall i, j :: 0 <= i < j < |b| ==> TraceComparator(b[i], b[j]) <= 0
    ensures |a| == |b|
    ensures forall i :: 0 <= i < |a| ==> a[i].counter == b[i].counter
  {
    assert RankedBy(TraceCounter, a) by {
      forall i, j | 0 <= i < j < |a| ensures ByCounterDesc(TraceCounter, a[i], a[j]) <= 0 {
        assert TraceComparator(a[i], a[j]) <= 0;
      }
    }
    assert RankedBy(TraceCounter, b) by {
      forall i, j | 0 <= i < j < |b| ensures ByCounterDesc(TraceCounter, b[i], b[j]) <= 0 {
        assert TraceComparator(b[i], b[j]) <= 0;
      }
    }
    RankingDeterminesCounters(TraceCounter, a, b);
  }

  /** The same for the flat report: the counter at every rank is fixed by the entries alone. */
  lemma MethodRankingIsDetermined(a: seq<MethodSample>, b: seq<MethodSample>)
    requires multiset(a) == multiset(b)
    requires forall i, j :: 0 <= i < j < |a| ==> MethodComparator(a[i], a[j]) <= 0
    requires forall i, j :: 0 <= i < j < |b| ==> MethodComparator(b[i], b[j]) <= 0
    ensures |a| == |b|
    ensures forall i :: 0 <= i < |a| ==> a[i].counter == b[i].counter
  {
    assert RankedBy(MethodCounter, a) by {
      forall i, j | 0 <= i < j < |a| ensures ByCounterDesc(MethodCounter, a[i], a[j]) <= 0 {
        assert MethodComparator(a[i], a[j]) <= 0;
      }
    }
    assert RankedBy(MethodCounter, b) by {
      forall i, j | 0 <= i < j < |b| ensures ByCounterDesc(MethodCounter, b[i], b[j]) <= 0 {
        assert MethodComparator(b[i], b[j]) <= 0;
      }
    }
    RankingDeterminesCounters(MethodCounter, a, b);
  }

  /** Of two traces, the one with the larger counter comes first in every arrangement the
      comparator accepts, whatever sort produced it and whatever their sample counts. */
  lemma HeavierTraceRanksFirst(a: CallTraceSample, b: CallTraceSample, r: seq<CallTraceSample>)
    requires a.counter > b.counter
    requires multiset(r) == multiset{a, b}
    requires forall i, j :: 0 <= i < j < |r| ==> TraceComparator(r[i], r[j]) <= 0
    ensures r == [a, b]
  {
    assert |r| == |multiset(r)| == 2;
    assert r[0] in multiset(r) && r[1] in multiset(r);
    assert TraceComparator(r[0], r[1]) <= 0;
  }
}

/** The latency tracker: a circular buffer of samples, an in-place insertion sort, and percentiles. */
module Latency {
  import opened Common

  // ---------------------------------------------------------------------------
  // Sorting as a function, and counting
  // ---------------------------------------------------------------------------

  ghost predicate Sorted(s: seq<int>) {
    forall i, j | 0 <= i < j < |s| :: s[i] <= s[j]
  }

  function Insert(x: int, s: seq<int>): seq<int> {
    if s == [] || x <= s[0] then [x] + s else [s[0]] + Insert(x, s[1..])
  }

  function Sort(s: seq<int>): seq<int> {
    if s == [] then [] else Insert(s[0], Sort(s[1..]))
  }

  function AtMost(s: seq<int>, v: int): nat {
    if s == [] then 0 else (if s[0] <= v then 1 else 0) + AtMost(s[1..], v)
  }

  function AtLeast(s: seq<int>, v: int): nat {
    if s == [] then 0 else (if s[0] >= v then 1 else 0) + AtLeast(s[1..], v)
  }

  lemma {:induction false} InsertMultiset(x: int, s: seq<int>)
    ensures multiset(Insert(x, s)) == multiset{x} + multiset(s)
  {
    if s != [] && x > s[0] {
      InsertMultiset(x, s[1..]);
      assert s == [s[0]] + s[1..];
    }
  }

  lemma {:induction false} InsertSorted(x: int, s: seq<int>)
    requires Sorted(s)
    ensures Sorted(Insert(x, s))
  {
    if s != [] && x > s[0] {
      var rest, t := s[1..], Insert(x, s[1..]);
      InsertSorted(x, rest);
      InsertMultiset(x, rest);
      forall i | 0 <= i < |t|
        ensures s[0] <= t[i]
      {
        assert t[i] in multiset(t);
        assert t[i] == x || t[i] in rest;
      }
    }
  }

  lemma {:induction false} InsertCounts(x: int, s: seq<int>, v: int)
    ensures AtMost(Insert(x, s), v) == (if x <= v then 1 else 0) + AtMost(s, v)
    ensures AtLeast(Insert(x, s), v) == (if x >= v then 1 else 0) + AtLeast(s, v)
  {
    if s == [] || x <= s[0] {
      assert ([x] + s)[1..] == s;
    } else {
      InsertCounts(x, s[1..], v);
      assert ([s[0]] + Insert(x, s[1..]))[1..] == Insert(x, s[1..]);
    }
  }

  lemma {:induction false} SortCounts(s: seq<int>, v: int)
    ensures AtMost(Sort(s), v) == AtMost(s, v) && AtLeast(Sort(s), v) == AtLeast(s, v)
  {
    if s != [] {
      SortCounts(s[1..], v);
      InsertCounts(s[0], Sort(s[1..]), v);
    }
  }

  /** Sort returns a sorted permutation. */
  lemma {:induction false} SortSorts(s: seq<int>)
    ensures Sorted(Sort(s)) && multiset(Sort(s)) == multiset(s) && |Sort(s)| == |s|
  {
    if s != [] {
      SortSorts(s[1..]);
      hide Sorted, Insert;
      InsertSorted(s[0], Sort(s[1..]));
      InsertMultiset(s[0], Sort(s[1..]));
      assert s == [s[0]] + s[1..];
      assert |multiset(Sort(s))| == |Sort(s)| && |multiset(s)| == |s|;
    }
  }

  lemma HeadIsLeast(s: seq<int>, x: int)
    requires Sorted(s) && s != [] && x in multiset(s)
    ensures s[0] <= x
  {}

  lemma TailSorted(s: seq<int>)
    requires Sorted(s) && s != []
    ensures Sorted(s[1..])
  {}

  lemma SameSize(a: seq<int>, b: seq<int>)
    requires multiset(a) == multiset(b)
    ensures |a| == |b|
  {
    assert |a| == |multiset(a)| && |b| == |multiset(b)|;
  }

  lemma SameHead(a: seq<int>, b: seq<int>)
    requires Sorted(a) && Sorted(b) && multiset(a) == multiset(b) && a != [] && b != []
    ensures a[0] == b[0] && multiset(a[1..]) == multiset(b[1..])
  {
    hide Sorted;
    assert a[0] in multiset(a) && b[0] in multiset(b);
    HeadIsLeast(a, b[0]);
    HeadIsLeast(b, a[0]);
    TailMultiset(a);
    TailMultiset(b);
  }

  /** A sorted sequence is determined by its multiset. */
  lemma {:induction false} SortedUnique(a: seq<int>, b: seq<int>)
    requires Sorted(a) && Sorted(b) && multiset(a) == multiset(b)
    ensures a == b
    decreases |a|
  {
    hide Sorted;
    SameSize(a, b);
    if a != [] {
      SameHead(a, b);
      TailSorted(a);
      TailSorted(b);
      SortedUnique(a[1..], b[1..]);
      assert a == [a[0]] + a[1..] && b == [b[0]] + b[1..];
    }
  }

  lemma TailMultiset(s: seq<int>)
    requires s != []
    ensures multiset(s[1..]) == multiset(s) - multiset{s[0]}
  {
    assert s == [s[0]] + s[1..];
  }

  // ---------------------------------------------------------------------------
  // Percentiles
  // ---------------------------------------------------------------------------

  /** int(float64(n-1) * p / 100) */
  function Index(n: nat, p: real): (i: int)
    requires n > 0 && 0.0 <= p <= 100.0
    ensures 0 <= i < n
    ensures 100.0 * i as real <= (n - 1) as real * p < 100.0 * (i as real + 1.0)
  {
    IndexBounds(n, p);
    ((n - 1) as real * p / 100.0).Floor
  }

  lemma IndexBounds(n: nat, p: real)
    requires n > 0 && 0.0 <= p <= 100.0
    ensures 0.0 <= (n - 1) as real * p / 100.0 <= (n - 1) as real
  {
    var m := (n - 1) as real;
    assert m * p <= m * 100.0;
    assert 0.0 <= m * p;
  }

  function PercentileOf(s: seq<int>, p: real): int
    requires 0.0 <= p <= 100.0
  {
    if s == [] then 0 else SortSorts(s); Sort(s)[Index(|s|, p)]
  }

  lemma {:induction false} SortedAtMost(s: seq<int>, k: nat)
    requires Sorted(s) && k < |s|
    ensures AtMost(s, s[k]) >= k + 1
  {
    if k > 0 { SortedAtMost(s[1..], k - 1); }
  }

  lemma {:induction false} SortedAtLeast(s: seq<int>, k: nat)
    requires Sorted(s) && k < |s|
    ensures AtLeast(s, s[k]) >= |s| - k
  {
    if k > 0 {
      SortedAtLeast(s[1..], k - 1);
    } else {
      AllAtLeast(s, s[0]);
    }
  }

  lemma {:induction false} AllAtLeast(s: seq<int>, v: int)
    requires forall i | 0 <= i < |s| :: s[i] >= v
    ensures AtLeast(s, v) == |s|
  {
    if s != [] { AllAtLeast(s[1..], v); }
  }

  /** A percentile is one of the samples; at least idx + 1 samples are no larger and n - idx no smaller. */
  lemma IndexRank(s: seq<int>, p: real)
    requires s != [] && 0.0 <= p <= 100.0
    ensures var v, idx := PercentileOf(s, p), Index(|s|, p);
            v in s && AtMost(s, v) >= idx + 1 && AtLeast(s, v) >= |s| - idx
  {
    SortSorts(s);
    var t, idx := Sort(s), Index(|s|, p);
    SortedAtMost(t, idx);
    SortedAtLeast(t, idx);
    SortCounts(s, t[idx]);
    assert t[idx] in multiset(t);
  }

  /** In terms of p: the percentile is one of the samples, those no larger than it are more than p percent
      of n - 1, and those strictly smaller at most p percent of n - 1. */
  lemma PercentileRank(s: seq<int>, p: real)
    requires s != [] && 0.0 <= p <= 100.0
    ensures var v, n := PercentileOf(s, p), |s|;
            && v in s
            && 100.0 * AtMost(s, v) as real > (n - 1) as real * p
            && 100.0 * (n - AtLeast(s, v)) as real <= (n - 1) as real * p
  {
    IndexRank(s, p);
  }

  /** The 0th percentile is the least sample, the 100th the greatest; of no samples each is 0. */
  lemma PercentileEnds(s: seq<int>)
    ensures forall x | x in s :: PercentileOf(s, 0.0) <= x <= PercentileOf(s, 100.0)
    ensures s != [] ==> PercentileOf(s, 0.0) in s && PercentileOf(s, 100.0) in s
    ensures s == [] ==> forall p | 0.0 <= p <= 100.0 :: PercentileOf(s, p) == 0
  {
    if s != [] {
      SortSorts(s);
      IndexRank(s, 0.0);
      IndexRank(s, 100.0);
      assert Index(|s|, 0.0) == 0 && Index(|s|, 100.0) == |s| - 1;
      forall x | x in s
        ensures PercentileOf(s, 0.0) <= x <= PercentileOf(s, 100.0)
      {
        assert x in multiset(Sort(s));
        var k :| 0 <= k < |s| && Sort(s)[k] == x;
      }
    }
  }

  lemma IndexMonotone(n: nat, p: real, q: real)
    requires n > 0 && 0.0 <= p <= q <= 100.0
    ensures Index(n, p) <= Index(n, q)
  {
    var m := (n - 1) as real;
    assert m * p <= m * q;
    FloorMonotone(m * p / 100.0, m * q / 100.0);
  }

  lemma FloorMonotone(x: real, y: real)
    requires x <= y
    ensures x.Floor <= y.Floor
  {
    assert x.Floor as real <= y;
  }

  lemma PercentileMonotone(s: seq<int>, p: real, q: real)
    requires 0.0 <= p <= q <= 100.0
    ensures PercentileOf(s, p) <= PercentileOf(s, q)
  {
    if s != [] {
      SortSorts(s);
      IndexMonotone(|s|, p, q);
    }
  }

  /** The order of the samples does not matter. */
  lemma PercentileOfPermutation(s: seq<int>, t: seq<int>, p: real)
    requires multiset(s) == multiset(t) && 0.0 <= p <= 100.0
    ensures PercentileOf(s, p) == PercentileOf(t, p)
  {
    SortSorts(s);
    SortSorts(t);
    SortedUnique(Sort(s), Sort(t));
    assert |s| == |multiset(s)| == |multiset(t)| == |t|;
  }

  // ---------------------------------------------------------------------------
  // The in-place sort
  // ---------------------------------------------------------------------------

  /** The first `i + 1` elements are in order, apart from the one at `j` still sinking left. */
  ghost predicate AlmostSorted(s: seq<int>, i: int, j: int)
    requires 0 <= j <= i < |s|
  {
    forall p, q | 0 <= p < q <= i && q != j :: s[p] <= s[q]
  }

  function Swap(s: seq<int>, j: int): seq<int>
    requires 1 <= j < |s|
  {
    s[j - 1 := s[j]][j := s[j - 1]]
  }

  lemma SwapSinks(s: seq<int>, i: int, j: int)
    requires 1 <= j <= i < |s| && AlmostSorted(s, i, j) && s[j - 1] > s[j]
    ensures AlmostSorted(Swap(s, j), i, j - 1) && multiset(Swap(s, j)) == multiset(s)
  {
    var t := Swap(s, j);
    forall p, q | 0 <= p < q <= i && q != j - 1
      ensures t[p] <= t[q]
    {
      if q == j {
        assert p < j - 1 ==> s[p] <= s[j - 1];
      } else if p == j - 1 {
        assert s[j] <= s[q];
      } else if p == j {
        assert s[j - 1] <= s[q];
      } else {
        assert s[p] <= s[q];
      }
    }
  }

  method SinkLeft(a: array<int>, i: nat)
    requires i < a.Length && Sorted(a[..i])
    modifies a
    ensures Sorted(a[..i + 1]) && multiset(a[..]) == multiset(old(a[..])) && a[i + 1..] == old(a[i + 1..])
  {
    var j := i;
    ghost var start := a[..];
    BeforeSink(start, i);
    hide AlmostSorted, Sorted;
    while j > 0 && a[j - 1] > a[j]
      invariant 0 <= j <= i && AlmostSorted(a[..], i, j)
      invariant multiset(a[..]) == multiset(start)
      invariant a[i + 1..] == start[i + 1..]
    {
      ghost var s := a[..];
      SwapSinks(s, i, j);
      a[j - 1], a[j] := a[j], a[j - 1];
      assert a[..] == Swap(s, j);
      j := j - 1;
    }
    AfterSink(a[..], i, j);
    assert a[..][..i + 1] == a[..i + 1];
  }

  lemma BeforeSink(s: seq<int>, i: nat)
    requires i < |s| && Sorted(s[..i])
    ensures AlmostSorted(s, i, i)
  {
    assert forall p | 0 <= p < i :: s[..i][p] == s[p];
  }

  lemma AfterSink(s: seq<int>, i: nat, j: nat)
    requires j <= i < |s| && AlmostSorted(s, i, j) && (j > 0 ==> s[j - 1] <= s[j])
    ensures Sorted(s[..i + 1])
  {
    forall p, q | 0 <= p < q <= i
      ensures s[p] <= s[q]
    {
      if q == j { assert p < j - 1 ==> s[p] <= s[j - 1]; }
    }
  }

  method SortInt64(a: array<int>)
    modifies a
    ensures a[..] == Sort(old(a[..]))
  {
    var i := 1;
    while i < a.Length
      invariant 1 <= i && Sorted(a[..if i <= a.Length then i else a.Length])
      invariant multiset(a[..]) == multiset(old(a[..]))
    {
      SinkLeft(a, i);
      i := i + 1;
    }
    assert a[..] == a[..if i <= a.Length then i else a.Length];
    SortSorts(old(a[..]));
    SortedUnique(a[..], Sort(old(a[..])));
  }

  // ---------------------------------------------------------------------------
  // The tracker
  // ---------------------------------------------------------------------------

  /** time.Duration.Microseconds truncates toward zero. */
  function Microseconds(ns: int): int {
    if ns >= 0 then ns / 1000 else -(-ns / 1000)
  }

  lemma MicrosecondsIs(ns: int)
    ensures Microseconds(-ns) == -Microseconds(ns)
    ensures ns >= 0 ==> 1000 * Microseconds(ns) <= ns < 1000 * (Microseconds(ns) + 1)
  {}

  function Min(a: nat, b: nat): nat { if a > b then b else a }

  /** The last `size` values. */
  function Recent(recorded: seq<int>, size: nat): (r: seq<int>)
    ensures |r| == if |recorded| > size then size else |recorded|
    ensures forall i | 0 <= i < |r| :: r[i] == recorded[|recorded| - |r| + i]
  {
    if |recorded| <= size then recorded else recorded[|recorded| - size..]
  }

  class LatencyTracker {
    const samples: array<int>
    var position: nat
    var count: nat
    var totalOps: nat
    var totalErrs: nat
    ghost var recorded: seq<int>   // every latency recorded so far, in microseconds

    ghost predicate Valid()
      reads this, samples
    {
      && totalOps == |recorded|
      && (samples.Length == 0 ==> position == count == 0 && recorded == [])
      && (samples.Length > 0 ==> position < samples.Length)
      && (if |recorded| < samples.Length then
            position == count == |recorded| && samples[..count] == recorded
          else
            count == samples.Length && samples[position..] + samples[..position] == Recent(recorded, samples.Length))
    }

    constructor (sampleSize: nat)
      ensures Valid() && fresh(samples) && samples.Length == sampleSize && recorded == []
    {
      samples := new int[sampleSize];
      position, count, totalOps, totalErrs, recorded := 0, 0, 0, 0, [];
    }

    method Record(latency: int)
      requires Valid() && samples.Length > 0
      modifies this, samples
      ensures Valid() && recorded == old(recorded) + [Microseconds(latency)] && totalErrs == old(totalErrs)
    {
      ghost var before, ring := recorded, samples[position..] + samples[..position];
      var us := Microseconds(latency);
      Wraps(position, samples.Length);
      samples[position] := us;
      position := (position + 1) % samples.Length;
      if count < samples.Length {
        count := count + 1;
      }
      totalOps := totalOps + 1;
      recorded := recorded + [us];
      if |before| >= samples.Length {
        assert samples[position..] + samples[..position] == ring[1..] + [us];
      } else if |recorded| == samples.Length {
        assert samples[..] == recorded;
        assert samples[0..] + samples[..0] == samples[..];
      }
    }

    method RecordError()
      requires Valid()
      modifies `totalErrs
      ensures Valid() && totalErrs == old(totalErrs) + 1
    {
      totalErrs := totalErrs + 1;
    }

    /** The buffer holds exactly the most recent samples, in some order. */
    lemma HoldsRecent()
      requires Valid()
      ensures multiset(samples[..count]) == multiset(Recent(recorded, samples.Length))
      ensures count == |Recent(recorded, samples.Length)|
    {
      if |recorded| >= samples.Length {
        assert samples[..count] == samples[..position] + samples[position..];
      }
    }

    method Percentile(p: real) returns (v: int)
      requires Valid() && 0.0 <= p <= 100.0
      ensures v == PercentileOf(Recent(recorded, samples.Length), p)
    {
      HoldsRecent();
      if count == 0 {
        return 0;
      }
      var n := Min(count, samples.Length);
      var sorted := new int[n];
      for i := 0 to n
        invariant sorted[..i] == samples[..i]
      {
        sorted[i] := samples[i];
      }
      ghost var copied := sorted[..];
      assert copied == samples[..count];
      SortInt64(sorted);
      SortSorts(copied);
      PercentileOfPermutation(copied, Recent(recorded, samples.Length), p);
      v := sorted[Index(n, p)];
    }

    method Stats() returns (ops: nat, errs: nat, p50: int, p95: int, p99: int)
      requires Valid()
      ensures ops == |recorded| && errs == totalErrs && p50 <= p95 <= p99
      ensures var r := Recent(recorded, samples.Length);
              && p50 == PercentileOf(r, 50.0) && p95 == PercentileOf(r, 95.0) && p99 == PercentileOf(r, 99.0)
              && (r != [] ==> p50 in r && p95 in r && p99 in r)
    {
      ops, errs := totalOps, totalErrs;
      p50 := Percentile(50.0);
      p95 := Percentile(95.0);
      p99 := Percentile(99.0);
      ghost var r := Recent(recorded, samples.Length);
      PercentileMonotone(r, 50.0, 95.0);
      PercentileMonotone(r, 95.0, 99.0);
      if r != [] {
        PercentileRank(r, 50.0);
        PercentileRank(r, 95.0);
        PercentileRank(r, 99.0);
      }
    }
  }
}

/**
  History downsampling (internal/state/history.go): filter, sort, deduplicate, average into buckets,
  mark the gaps. Times are integers, values are reals.
 */
module Downsample {
  import Order
  import opened Options

  const MAX_HISTORY_POINTS: nat := 288
  const BUDGET: nat := MAX_HISTORY_POINTS / 2
  const GAP_FACTOR: nat := 3

  datatype Sample = Sample(t: int, v: real)

  /** v is None for a gap marker. */
  datatype Point = Point(t: int, v: Option<real>)

  // ---------------------------------------------------------------- filter and sort

  predicate Within(s: Sample, from: int, to: int) { from <= s.t <= to }

  function InWindow(samples: seq<Sample>, from: int, to: int): seq<Sample> {
    if samples == [] then []
    else
      var n := |samples| - 1;
      InWindow(samples[..n], from, to) + if Within(samples[n], from, to) then [samples[n]] else []
  }

  lemma {:induction false} InWindowIs(samples: seq<Sample>, from: int, to: int, s: Sample)
    ensures s in InWindow(samples, from, to) <==> s in samples && Within(s, from, to)
  {
    if samples != [] {
      var n := |samples| - 1;
      InWindowIs(samples[..n], from, to, s);
      assert samples == samples[..n] + [samples[n]];
    }
  }

  method Filter(samples: seq<Sample>, from: int, to: int) returns (kept: seq<Sample>)
    ensures kept == InWindow(samples, from, to)
  {
    kept := [];
    for i := 0 to |samples|
      invariant kept == InWindow(samples[..i], from, to)
    {
      assert samples[..i + 1][..i] == samples[..i];
      if from <= samples[i].t && samples[i].t <= to { kept := kept + [samples[i]]; }
    }
    assert samples[..|samples|] == samples;
  }

  predicate Sorted(s: seq<Sample>) { forall i, j | 0 <= i < j < |s| :: s[i].t <= s[j].t }

  predicate Increasing(s: seq<Sample>) { forall i, j | 0 <= i < j < |s| :: s[i].t < s[j].t }

  /** The library sort is not stable: all that is known of its result is that it is sorted. */
  method SortByTime(s: seq<Sample>) returns (r: seq<Sample>)
    ensures multiset(r) == multiset(s) && Sorted(r)
  {
    var key := (x: Sample) => [x.t];
    r := Order.SortBy(key, s);
    Order.SortByAscends(key, s);
    forall i, j | 0 <= i < j < |r| ensures r[i].t <= r[j].t {
      assert !Order.Lex(key(r[j]), key(r[i]));
    }
  }

  // ---------------------------------------------------------------- one sample per instant

  /** Take x for the last instant, or for a new one. */
  function Take(r: seq<Sample>, x: Sample): (out: seq<Sample>)
    ensures out != [] && out[|out| - 1] == x
  {
    if r != [] && r[|r| - 1].t == x.t then r[..|r| - 1] + [x] else r + [x]
  }

  /** The last sample of every run of equal times. */
  function LastOfRuns(s: seq<Sample>): (r: seq<Sample>)
    ensures |r| <= |s| && (s != [] ==> r != [] && r[|r| - 1] == s[|s| - 1])
  {
    if s == [] then [] else Take(LastOfRuns(s[..|s| - 1]), s[|s| - 1])
  }

  lemma LastOfRunsStep(s: seq<Sample>, i: nat)
    requires i < |s|
    ensures LastOfRuns(s[..i + 1]) == Take(LastOfRuns(s[..i]), s[i])
  {
    hide Take;
    assert s[..i + 1][..i] == s[..i];
  }

  /** Deduplication in place, over the array's own prefix. */
  method DedupInPlace(a: array<Sample>) returns (n: nat)
    modifies a
    ensures n <= a.Length && a[..n] == LastOfRuns(old(a[..]))
  {
    hide LastOfRuns;
    ghost var was := a[..];
    n := 0;
    assert LastOfRuns(was[..0]) == [];
    for i := 0 to a.Length
      invariant n <= i
      invariant a[..n] == LastOfRuns(was[..i])
      invariant a[i..] == was[i..]
    {
      ghost var done := a[..n];
      var s := a[i];
      assert s == was[i..][0] == was[i];
      LastOfRunsStep(was, i);
      assert a[i + 1..] == was[i..][1..] == was[i + 1..];
      if n > 0 && a[n - 1].t == s.t {
        a[n - 1] := s;
        assert a[..n] == done[..n - 1] + [s];
      } else {
        a[n] := s;
        n := n + 1;
        assert a[..n] == done + [s];
      }
    }
    assert was[..a.Length] == was;
  }

  /** Replacing the last element, or adding one, by something later keeps times increasing. */
  lemma Later(was: seq<Sample>, r: seq<Sample>)
    requires Increasing(was) && r != [] && |r| - 1 <= |was| <= |r| && r[..|r| - 1] == was[..|r| - 1]
    requires was != [] && |r| == |was| ==> was[|was| - 1].t <= r[|r| - 1].t
    requires was != [] && |r| == |was| + 1 ==> was[|was| - 1].t < r[|r| - 1].t
    ensures Increasing(r)
  {
    forall i, j | 0 <= i < j < |r| ensures r[i].t < r[j].t {
      assert r[i] == r[..|r| - 1][i] == was[i];
      if j < |r| - 1 {
        assert r[j] == r[..|r| - 1][j] == was[j];
      } else if i < |was| - 1 {
        assert was[i].t < was[|was| - 1].t;
      }
    }
  }

  /** Sorted samples deduplicate to strictly increasing times. */
  lemma {:induction false} LastOfRunsIncreases(s: seq<Sample>)
    requires Sorted(s)
    ensures Increasing(LastOfRuns(s))
  {
    if s != [] {
      var n := |s| - 1;
      LastOfRunsIncreases(s[..n]);
      var was := LastOfRuns(s[..n]);
      if was != [] { assert was[|was| - 1] == s[n - 1]; }
      Later(was, LastOfRuns(s));
    }
  }

  /** Every sample kept is a recorded one. */
  lemma {:induction false} LastOfRunsRecorded(s: seq<Sample>, x: Sample)
    requires x in LastOfRuns(s)
    ensures x in s
  {
    var n := |s| - 1;
    assert s == s[..n] + [s[n]];
    if x != s[n] { LastOfRunsRecorded(s[..n], x); }
  }

  lemma {:induction false} LastOfRunsKeepsTimes(s: seq<Sample>, x: Sample)
    requires x in s
    ensures exists y :: y in LastOfRuns(s) && y.t == x.t
  {
    var n := |s| - 1;
    var was, r := LastOfRuns(s[..n]), LastOfRuns(s);
    assert s == s[..n] + [s[n]];
    if x in s[..n] {
      LastOfRunsKeepsTimes(s[..n], x);
      var y :| y in was && y.t == x.t;
      var k :| 0 <= k < |was| && was[k] == y;
      assert r[k].t == was[k].t;
      assert r[k] in r;
    } else {
      assert r[|r| - 1] in r;
    }
  }

  // ---------------------------------------------------------------- buckets

  function Bucket(s: Sample, from: int, width: int): int
    requires width > 0
  {
    (s.t - from) / width
  }

  /** Put x in the last group, or open a new one. */
  function Join(g: seq<seq<Sample>>, x: Sample, same: bool): (h: seq<seq<Sample>>)
    requires same ==> g != []
    ensures h != [] && h[|h| - 1] != [] && h[|h| - 1][|h[|h| - 1]| - 1] == x
    ensures (forall i | 0 <= i < |g| :: g[i] != []) ==> forall i | 0 <= i < |h| :: h[i] != []
    ensures h[..|h| - 1] == if same then g[..|g| - 1] else g
  {
    if same then g[..|g| - 1] + [g[|g| - 1] + [x]] else g + [[x]]
  }

  predicate SameBucket(s: seq<Sample>, n: nat, from: int, width: int)
    requires width > 0 && n < |s|
  {
    n > 0 && Bucket(s[n - 1], from, width) == Bucket(s[n], from, width)
  }

  /** The samples cut where the bucket changes. */
  function Groups(s: seq<Sample>, from: int, width: int): (g: seq<seq<Sample>>)
    requires width > 0
    ensures s == [] <==> g == []
    ensures forall i | 0 <= i < |g| :: g[i] != []
    ensures g != [] ==> g[|g| - 1][|g[|g| - 1]| - 1] == s[|s| - 1]
  {
    if s == [] then []
    else
      var n := |s| - 1;
      Join(Groups(s[..n], from, width), s[n], SameBucket(s, n, from, width))
  }

  lemma GroupsStep(s: seq<Sample>, i: nat, from: int, width: int)
    requires width > 0 && i < |s|
    ensures SameBucket(s, i, from, width) ==> Groups(s[..i], from, width) != []
    ensures Groups(s[..i + 1], from, width) == Join(Groups(s[..i], from, width), s[i], SameBucket(s, i, from, width))
  {
    hide Join, Bucket;
    assert s[..i + 1][..i] == s[..i];
  }

  function Sum(s: seq<Sample>): real {
    if s == [] then 0.0 else Sum(s[..|s| - 1]) + s[|s| - 1].v
  }

  /** A group as one sample: its mean, stamped with its last time. */
  function Mean(g: seq<Sample>): Sample
    requires g != []
  {
    Sample(g[|g| - 1].t, Sum(g) / |g| as real)
  }

  function Means(g: seq<seq<Sample>>): (r: seq<Sample>)
    requires forall i | 0 <= i < |g| :: g[i] != []
    ensures |r| == |g| && forall i | 0 <= i < |g| :: r[i] == Mean(g[i])
  {
    if g == [] then [] else Means(g[..|g| - 1]) + [Mean(g[|g| - 1])]
  }

  function Flatten(g: seq<seq<Sample>>): seq<Sample> {
    if g == [] then [] else Flatten(g[..|g| - 1]) + g[|g| - 1]
  }

  /** Each group's value counted once per sample in it. */
  function WeightedSum(g: seq<seq<Sample>>, means: seq<Sample>): real
    requires |g| == |means|
  {
    if g == [] then 0.0
    else var n := |g| - 1; WeightedSum(g[..n], means[..n]) + |g[n]| as real * means[n].v
  }

  /** The accumulator after i samples: the closed groups averaged, the open one summed. */
  ghost predicate AveragedTo(s: seq<Sample>, i: nat, from: int, width: int,
                             out: seq<Sample>, sum: real, n: nat, bucket: int, last: int)
    requires width > 0 && i <= |s|
  {
    if i == 0 then out == [] && n == 0 && sum == 0.0 && bucket == -1
    else
      var g := Groups(s[..i], from, width);
      var open := g[|g| - 1];
      out == Means(g[..|g| - 1]) && n == |open| && sum == Sum(open) && last == s[i - 1].t &&
      bucket == Bucket(s[i - 1], from, width)
  }

  /** flush: closing the open group. */
  lemma Flush(s: seq<Sample>, i: nat, from: int, width: int,
              out: seq<Sample>, sum: real, n: nat, bucket: int, last: int)
    requires width > 0 && i <= |s| && AveragedTo(s, i, from, width, out, sum, n, bucket, last)
    ensures (if n > 0 then out + [Sample(last, sum / n as real)] else out) == Means(Groups(s[..i], from, width))
  {
    hide Sum, Bucket, Groups, Means;
    var g := Groups(s[..i], from, width);
    if i > 0 {  } else { assert Means([]) == []; }
  }

  lemma AverageNew(s: seq<Sample>, i: nat, from: int, width: int, closed: seq<Sample>)
    requires width > 0 && i < |s| && !SameBucket(s, i, from, width)
    requires closed == Means(Groups(s[..i], from, width))
    ensures AveragedTo(s, i + 1, from, width, closed, s[i].v, 1, Bucket(s[i], from, width), s[i].t)
  {
    hide Sum, Bucket, Groups, Means;
    GroupsStep(s, i, from, width);
    SumOne(s[i]);
  }

  lemma AverageSame(s: seq<Sample>, i: nat, from: int, width: int,
                    out: seq<Sample>, sum: real, n: nat, bucket: int, last: int)
    requires width > 0 && i < |s| && SameBucket(s, i, from, width)
    requires AveragedTo(s, i, from, width, out, sum, n, bucket, last)
    ensures AveragedTo(s, i + 1, from, width, out, sum + s[i].v, n + 1, bucket, s[i].t)
  {
    hide Sum, Bucket, Groups, Means;
    GroupsStep(s, i, from, width);
    var g := Groups(s[..i], from, width);
    SumPush(g[|g| - 1], s[i]);
  }

  lemma AverageStart(s: seq<Sample>, from: int, width: int)
    requires width > 0
    ensures AveragedTo(s, 0, from, width, [], 0.0, 0, -1, 0)
  {
  }

  lemma AverageBucket(s: seq<Sample>, i: nat, from: int, width: int,
                      out: seq<Sample>, sum: real, n: nat, bucket: int, last: int)
    requires width > 0 && i < |s| && from <= s[i].t
    requires AveragedTo(s, i, from, width, out, sum, n, bucket, last)
    ensures Bucket(s[i], from, width) == bucket <==> SameBucket(s, i, from, width)
  {
    hide Groups, Means, Sum;
  }

  method Average(s: seq<Sample>, from: int, width: int) returns (out: seq<Sample>)
    requires width > 0 && forall i | 0 <= i < |s| :: from <= s[i].t
    ensures out == Means(Groups(s, from, width))
  {
    hide *;
    out := [];
    var sum, n: nat, bucket, last := 0.0, 0, -1, 0;
    AverageStart(s, from, width);
    for i := 0 to |s|
      invariant AveragedTo(s, i, from, width, out, sum, n, bucket, last)
    {
      var b := Bucket(s[i], from, width);
      AverageBucket(s, i, from, width, out, sum, n, bucket, last);
      if b != bucket {
        Flush(s, i, from, width, out, sum, n, bucket, last);
        if n > 0 { out := out + [Sample(last, sum / n as real)]; }
        sum, n, bucket := 0.0, 0, b;
        AverageNew(s, i, from, width, out);
      } else {
        AverageSame(s, i, from, width, out, sum, n, bucket, last);
      }
      sum := sum + s[i].v;
      n := n + 1;
      last := s[i].t;
    }
    assert s[..|s|] == s;
    Flush(s, |s|, from, width, out, sum, n, bucket, last);
    if n > 0 { out := out + [Sample(last, sum / n as real)]; }
  }

  lemma SumOne(x: Sample)
    ensures Sum([x]) == x.v
  {
    assert [x][..0] == [];
  }

  lemma SumPush(s: seq<Sample>, x: Sample)
    ensures Sum(s + [x]) == Sum(s) + x.v
  {
    assert (s + [x])[..|s|] == s;
  }

  lemma {:induction false} SumConcat(a: seq<Sample>, b: seq<Sample>)
    ensures Sum(a + b) == Sum(a) + Sum(b)
  {
    if b == [] {
      assert a + b == a;
    } else {
      var n := |b| - 1;
      SumConcat(a, b[..n]);
      assert a + b == (a + b[..n]) + [b[n]];
      SumPush(a + b[..n], b[n]);
    }
  }

  /** Groups of a nonempty sequence, one step at a time: the last sample, and the groups before it. */
  lemma GroupsLast(s: seq<Sample>, from: int, width: int)
    requires width > 0 && s != []
    ensures var n := |s| - 1;
            var g, h, same := Groups(s[..n], from, width), Groups(s, from, width), SameBucket(s, n, from, width);
            (same ==> g != []) && h == Join(g, s[n], same)
  {
    hide Bucket;
  }

  lemma FlattenJoin(g: seq<seq<Sample>>, x: Sample, same: bool)
    requires same ==> g != []
    ensures Flatten(Join(g, x, same)) == Flatten(g) + [x]
  {
    var h := Join(g, x, same);
    if same { assert Flatten(g[..|g| - 1]) + (g[|g| - 1] + [x]) == (Flatten(g[..|g| - 1]) + g[|g| - 1]) + [x]; }
  }

  /** The groups partition the samples, in order. */
  lemma {:induction false} GroupsFlatten(s: seq<Sample>, from: int, width: int)
    requires width > 0
    ensures Flatten(Groups(s, from, width)) == s
  {
    hide Join, Bucket, SameBucket, Flatten, Groups;
    if s == [] {
      assert Flatten([]) == [] by { NoGroups(); }
    } else {
      var n := |s| - 1;
      GroupsFlatten(s[..n], from, width);
      GroupsLast(s, from, width);
      FlattenJoin(Groups(s[..n], from, width), s[n], SameBucket(s, n, from, width));
      assert s == s[..n] + [s[n]];
    }
  }

  lemma NoGroups()
    ensures Flatten([]) == []
  {
  }

  predicate InBucket(g: seq<Sample>, b: int, from: int, width: int)
    requires width > 0
  {
    forall k | 0 <= k < |g| :: Bucket(g[k], from, width) == b
  }

  /** The last group lies in the last sample's bucket. */
  lemma {:induction false} LastGroupBucket(s: seq<Sample>, from: int, width: int)
    requires width > 0 && s != []
    ensures var g := Groups(s, from, width); InBucket(g[|g| - 1], Bucket(s[|s| - 1], from, width), from, width)
  {
    hide Bucket, Groups;
    var n := |s| - 1;
    GroupsLast(s, from, width);
    if SameBucket(s, n, from, width) { LastGroupBucket(s[..n], from, width); }
  }

  /** Every group lies in one bucket. */
  lemma {:induction false} GroupsAreBuckets(s: seq<Sample>, from: int, width: int, i: nat)
    requires width > 0 && i < |Groups(s, from, width)|
    ensures var g := Groups(s, from, width); InBucket(g[i], Bucket(Mean(g[i]), from, width), from, width)
  {
    hide Sum, InBucket, Join, Groups;
    var n := |s| - 1;
    var g, h := Groups(s[..n], from, width), Groups(s, from, width);
    GroupsLast(s, from, width);
    if i < |h| - 1 {
      assert h[i] == h[..|h| - 1][i] == g[i];
      GroupsAreBuckets(s[..n], from, width, i);
    } else {
      LastGroupBucket(s, from, width);
    }
  }

  /** Neighbouring groups lie in different buckets. */
  lemma {:induction false} NeighboursDiffer(s: seq<Sample>, from: int, width: int, i: nat)
    requires width > 0 && 0 < i < |Groups(s, from, width)|
    ensures var g := Groups(s, from, width); Bucket(Mean(g[i - 1]), from, width) != Bucket(Mean(g[i]), from, width)
  {
    hide Sum, Join, Groups, Bucket;
    var n := |s| - 1;
    var g, h := Groups(s[..n], from, width), Groups(s, from, width);
    GroupsLast(s, from, width);
    assert h[i - 1] == h[..|h| - 1][i - 1] == g[i - 1];
    if i < |h| - 1 {
      assert h[i] == h[..|h| - 1][i] == g[i];
      NeighboursDiffer(s[..n], from, width, i);
    } else {
      SameTimeSameBucket(Mean(h[i]), s[n], from, width);
      if SameBucket(s, n, from, width) {
        SameTimeSameBucket(Mean(g[i]), s[n - 1], from, width);
        NeighboursDiffer(s[..n], from, width, i);
      } else {
        SameTimeSameBucket(Mean(g[i - 1]), s[n - 1], from, width);
      }
    }
  }

  lemma SameTimeSameBucket(a: Sample, b: Sample, from: int, width: int)
    requires width > 0 && a.t == b.t
    ensures Bucket(a, from, width) == Bucket(b, from, width)
  {
  }

  /** Averaging conserves the sum: each mean counted once per sample it stands for. */
  lemma {:induction false} SumConserved(g: seq<seq<Sample>>)
    requires forall i | 0 <= i < |g| :: g[i] != []
    ensures WeightedSum(g, Means(g)) == Sum(Flatten(g))
  {
    hide Sum, Mean, Means;
    if g == [] {
      assert Sum([]) == 0.0 by { NoSum(); }
    } else {
      var n := |g| - 1;
      SumConserved(g[..n]);
      assert Means(g)[..n] == Means(g[..n]);
      SumConcat(Flatten(g[..n]), g[n]);
      MeanTimes(g[n]);
    }
  }

  /** So the bucket means of the kept samples add up, weighted, to the samples themselves. */
  lemma BucketMeansConserve(kept: seq<Sample>, from: int, width: int)
    requires width > 0
    ensures WeightedSum(Groups(kept, from, width), Means(Groups(kept, from, width))) == Sum(kept)
  {
    hide Groups, Means, Sum, WeightedSum;
    GroupsFlatten(kept, from, width);
    SumConserved(Groups(kept, from, width));
  }

  lemma NoSum()
    ensures Sum([]) == 0.0
  {
  }

  lemma MeanTimes(g: seq<Sample>)
    requires g != []
    ensures |g| as real * Mean(g).v == Sum(g)
  {
    hide Sum;
  }

  /** As many groups as buckets at most. */
  lemma {:induction false} GroupCount(s: seq<Sample>, from: int, width: int)
    requires width > 0 && Increasing(s) && s != [] && from <= s[0].t
    ensures |Groups(s, from, width)| <= Bucket(s[|s| - 1], from, width) + 1
  {
    hide Join, Groups;
    var n := |s| - 1;
    GroupsLast(s, from, width);
    JoinSize(Groups(s[..n], from, width), s[n], SameBucket(s, n, from, width));
    if n == 0 {
    } else {
      GroupCount(s[..n], from, width);
      DivideMonotone(s[n - 1].t - from, s[n].t - from, width);
    }
  }

  lemma JoinSize(g: seq<seq<Sample>>, x: Sample, same: bool)
    requires same ==> g != []
    ensures |Join(g, x, same)| == |g| + if same then 0 else 1
  {
  }

  lemma DivideMonotone(a: int, b: int, w: int)
    requires a <= b && w > 0
    ensures a / w <= b / w
  {
    assert (b / w + 1) * w == (b / w) * w + w;
    if a / w > b / w { TimesMonotone(b / w + 1, a / w, w); }
  }

  /** b buckets of a window of at least b squared, and one more for its very end. */
  lemma LastBucket(x: int, span: int, b: int)
    requires b > 0 && x <= span && span >= b * b
    ensures span / b > 0 && x / (span / b) <= b
  {
    var w := span / b;
    assert (b - 1) * b == b * b - b;
    if w < b { TimesMonotone(w, b - 1, b); }
    assert b * w == w * b;
    QuotientBound(x, w, b);
  }

  lemma QuotientBound(x: int, w: int, b: int)
    requires w > 0 && x < b * w + w
    ensures x / w <= b
  {
    assert (b + 1) * w == b * w + w;
    if x / w > b { TimesMonotone(b + 1, x / w, w); }
  }

  lemma TimesMonotone(a: int, b: int, w: int)
    requires a <= b && w > 0
    ensures a * w <= b * w
  {
  }

  lemma IncreasingFront(s: seq<Sample>)
    requires Increasing(s) && s != []
    ensures Increasing(s[..|s| - 1]) && (|s| > 1 ==> s[|s| - 2].t < s[|s| - 1].t)
  {
  }

  predicate NonEmpty(g: seq<seq<Sample>>) { forall i | 0 <= i < |g| :: g[i] != [] }

  lemma MeansLater(g: seq<seq<Sample>>, h: seq<seq<Sample>>)
    requires NonEmpty(g) && NonEmpty(h) && Increasing(Means(g))
    requires h != [] && |h| - 1 <= |g| <= |h| && h[..|h| - 1] == g[..|h| - 1]
    requires g != [] ==> Mean(g[|g| - 1]).t < Mean(h[|h| - 1]).t
    ensures Increasing(Means(h))
  {
    hide Increasing, Mean;
    Later(Means(g), Means(h));
  }

  /** Averages keep strictly increasing times. */
  lemma {:induction false} MeansIncrease(s: seq<Sample>, from: int, width: int)
    requires width > 0 && Increasing(s)
    ensures Increasing(Means(Groups(s, from, width)))
  {
    hide Sum, Bucket, Join, Groups, Increasing, Means, SameBucket;
    if s == [] {
    } else {
      var n := |s| - 1;
      IncreasingFront(s);
      MeansIncrease(s[..n], from, width);
      var g, h := Groups(s[..n], from, width), Groups(s, from, width);
      GroupsLast(s, from, width);
      JoinSize(g, s[n], SameBucket(s, n, from, width));
      assert h[..|h| - 1] == g[..|h| - 1];
      MeansLater(g, h);
    }
  }

  lemma {:induction false} MeansRecorded(s: seq<Sample>, from: int, width: int, i: nat) returns (k: nat)
    requires width > 0 && i < |Groups(s, from, width)|
    ensures k < |s| && s[k].t == Means(Groups(s, from, width))[i].t
  {
    hide Sum, Bucket, Join, Groups;
    var n := |s| - 1;
    var g, h := Groups(s[..n], from, width), Groups(s, from, width);
    GroupsLast(s, from, width);
    if i < |h| - 1 {
      assert h[i] == h[..|h| - 1][i] == g[i];
      k := MeansRecorded(s[..n], from, width, i);
    } else {
      k := n;
    }
  }

  // ---------------------------------------------------------------- the usual spacing

  function Spacings(s: seq<Sample>): (d: seq<int>)
    ensures |d| == if s == [] then 0 else |s| - 1
  {
    if |s| < 2 then [] else var n := |s| - 1; Spacings(s[..n]) + [s[n].t - s[n - 1].t]
  }

  lemma {:induction false} SpacingsPositive(s: seq<Sample>, i: nat)
    requires Increasing(s) && i + 1 < |s|
    ensures Spacings(s)[i] == s[i + 1].t - s[i].t > 0
  {
    if i + 2 < |s| { SpacingsPositive(s[..|s| - 1], i); }
  }

  function CountOver(d: seq<int>, x: int): nat {
    if d == [] then 0 else CountOver(d[..|d| - 1], x) + if d[|d| - 1] > x then 1 else 0
  }

  function CountUnder(d: seq<int>, x: int): nat {
    if d == [] then 0 else CountUnder(d[..|d| - 1], x) + if d[|d| - 1] < x then 1 else 0
  }

  /** m is the element with k smaller or equal ones before it in sorted order. */
  predicate IsOrderStatistic(d: seq<int>, k: nat, m: int) {
    m in d && CountUnder(d, m) <= k < |d| - CountOver(d, m)
  }

  lemma {:induction false} CountConcat(a: seq<int>, b: seq<int>, x: int)
    ensures CountOver(a + b, x) == CountOver(a, x) + CountOver(b, x)
    ensures CountUnder(a + b, x) == CountUnder(a, x) + CountUnder(b, x)
  {
    if b == [] {
      assert a + b == a;
    } else {
      var n := |b| - 1;
      CountConcat(a, b[..n], x);
      assert (a + b)[..|a + b| - 1] == a + b[..n];
    }
  }

  /** Counting does not see the order. */
  lemma {:induction false} CountPermutation(a: seq<int>, b: seq<int>, x: int)
    requires multiset(a) == multiset(b)
    ensures CountOver(a, x) == CountOver(b, x) && CountUnder(a, x) == CountUnder(b, x)
  {
    assert |multiset(a)| == |a| && |multiset(b)| == |b|;
    if a != [] {
      hide CountOver, CountUnder;
      var n := |a| - 1;
      assert a == a[..n] + [a[n]];
      assert a[n] in multiset(b);
      var k :| 0 <= k < |b| && b[k] == a[n];
      RemoveOne(b, k);
      assert multiset(a) == multiset(a[..n]) + multiset{a[n]};
      SubtractOne(multiset(a[..n]), multiset(b[..k] + b[k + 1..]), a[n]);
      CountPermutation(a[..n], b[..k] + b[k + 1..], x);
      CountConcat(a[..n], [a[n]], x);
      CountConcat(b[..k], b[k + 1..], x);
      CountConcat(b[..k], [b[k]], x);
      CountConcat(b[..k] + [b[k]], b[k + 1..], x);
    }
  }

  lemma SubtractOne(x: multiset<int>, y: multiset<int>, e: int)
    requires x + multiset{e} == y + multiset{e}
    ensures x == y
  {
    forall v ensures x[v] == y[v] { assert (x + multiset{e})[v] == (y + multiset{e})[v]; }
  }

  lemma RemoveOne(b: seq<int>, k: nat)
    requires k < |b|
    ensures b == b[..k] + [b[k]] + b[k + 1..]
    ensures multiset(b) == multiset(b[..k] + b[k + 1..]) + multiset{b[k]}
  {
    assert b == b[..k] + [b[k]] + b[k + 1..];
  }

  predicate Ordered(d: seq<int>) { forall i, j | 0 <= i < j < |d| :: d[i] <= d[j] }

  lemma {:induction false} CountOrdered(d: seq<int>, k: nat)
    requires Ordered(d) && k < |d|
    ensures CountOver(d, d[k]) <= |d| - k - 1 && CountUnder(d, d[k]) <= k
  {
    var n := |d| - 1;
    if k < n {
      CountOrdered(d[..n], k);
    } else {
      NoneOver(d[..n], d[n]);
    }
  }

  lemma {:induction false} NoneOver(d: seq<int>, x: int)
    requires forall i | 0 <= i < |d| :: d[i] <= x
    ensures CountOver(d, x) == 0 && CountUnder(d, x) <= |d|
  {
    if d != [] { NoneOver(d[..|d| - 1], x); }
  }

  method SortSpacings(d: seq<int>) returns (r: seq<int>)
    ensures multiset(r) == multiset(d) && Ordered(r)
  {
    var key := (x: int) => [x];
    r := Order.SortBy(key, d);
    Order.SortByAscends(key, d);
    forall i, j | 0 <= i < j < |r| ensures r[i] <= r[j] {
      assert !Order.Lex(key(r[j]), key(r[i]));
    }
  }

  /** m is the median spacing of s, zero below three samples. */
  ghost predicate IsMedian(s: seq<Sample>, m: int) {
    if |s| < 3 then m == 0 else IsOrderStatistic(Spacings(s), (|s| - 1) / 2, m)
  }

  /** medianSpacing: the middle spacing in sorted order, or zero when there are fewer than two. */
  method MedianSpacing(s: seq<Sample>) returns (m: int)
    ensures IsMedian(s, m)
  {
    hide CountOver, CountUnder, Ordered;
    if |s| < 3 { return 0; }
    var d := [];
    for i := 1 to |s|
      invariant d == Spacings(s[..i])
    {
      assert s[..i + 1][..i] == s[..i];
      d := d + [s[i].t - s[i - 1].t];
    }
    assert s[..|s|] == s;
    var sorted := SortSpacings(d);
    assert |sorted| == |multiset(sorted)| == |d|;
    var k := |sorted| / 2;
    m := sorted[k];
    CountOrdered(sorted, k);
    CountPermutation(sorted, d, m);
    assert m in multiset(d);
  }

  /** A median is one of the spacings, so there is only one. */
  lemma OrderStatisticUnique(d: seq<int>, k: nat, m: int, n: int)
    requires IsOrderStatistic(d, k, m) && IsOrderStatistic(d, k, n)
    ensures m == n
  {
    if m < n { OverUnder(d, m, n); }
    if n < m { OverUnder(d, n, m); }
  }

  lemma {:induction false} OverUnder(d: seq<int>, m: int, n: int)
    requires m < n
    ensures CountOver(d, m) + CountUnder(d, n) >= |d|
  {
    if d != [] { OverUnder(d[..|d| - 1], m, n); }
  }

  lemma {:induction false} CountOverMonotone(d: seq<int>, x: int, y: int)
    requires x <= y
    ensures CountOver(d, y) <= CountOver(d, x)
  {
    if d != [] { CountOverMonotone(d[..|d| - 1], x, y); }
  }

  // ---------------------------------------------------------------- points and gaps

  predicate GapBefore(s: seq<Sample>, i: nat, gap: int)
    requires i < |s|
  {
    i > 0 && gap > 0 && s[i].t - s[i - 1].t > gap
  }

  function Marker(s: seq<Sample>, i: nat): Point
    requires 0 < i < |s|
  {
    Point(s[i - 1].t + (s[i].t - s[i - 1].t) / 2, None)
  }

  function Value(s: Sample): Point { Point(s.t, Some(s.v)) }

  /** The points after the first i samples. */
  function Drawn(s: seq<Sample>, gap: int, i: nat): (p: seq<Point>)
    requires i <= |s|
    ensures |p| <= MAX_HISTORY_POINTS
  {
    if i == 0 then []
    else
      var p := Drawn(s, gap, i - 1);
      if GapBefore(s, i - 1, gap) && |p| < MAX_HISTORY_POINTS - 1 then p + [Marker(s, i - 1), Value(s[i - 1])]
      else if |p| == MAX_HISTORY_POINTS then p
      else p + [Value(s[i - 1])]
  }

  method Draw(s: seq<Sample>, gap: int) returns (points: seq<Point>)
    ensures points == Drawn(s, gap, |s|)
  {
    points := [];
    for i := 0 to |s|
      invariant points == Drawn(s, gap, i)
    {
      if i > 0 && gap > 0 && s[i].t - s[i - 1].t > gap && |points| < MAX_HISTORY_POINTS - 1 {
        var mid := s[i - 1].t + (s[i].t - s[i - 1].t) / 2;
        points := points + [Point(mid, None)];
      }
      if |points| == MAX_HISTORY_POINTS {
        FullStays(s, gap, i, |s|);
        return;
      }
      points := points + [Point(s[i].t, Some(s[i].v))];
    }
  }

  lemma {:induction false} FullStays(s: seq<Sample>, gap: int, i: nat, n: nat)
    requires i <= n <= |s| && |Drawn(s, gap, i)| == MAX_HISTORY_POINTS
    ensures Drawn(s, gap, n) == Drawn(s, gap, i)
    decreases n
  {
    if i < n { FullStays(s, gap, i, n - 1); }
  }

  predicate TimesIncrease(p: seq<Point>) { forall i, j | 0 <= i < j < |p| :: p[i].t < p[j].t }

  /** A gap marker stands between two values. */
  predicate MarkersBetween(p: seq<Point>) {
    forall i | 0 <= i < |p| && p[i].v.None? :: 0 < i < |p| - 1 && p[i - 1].v.Some? && p[i + 1].v.Some?
  }

  /** What is drawn has strictly increasing times, values at the samples' own times, and markers strictly between. */
  lemma {:induction false} DrawnIsOrdered(s: seq<Sample>, gap: int, i: nat)
    requires Increasing(s) && i <= |s|
    ensures var p := Drawn(s, gap, i);
            TimesIncrease(p) && MarkersBetween(p) && (i > 0 ==> p != [] && p[|p| - 1].v.Some?) &&
            (i > 0 && |p| < MAX_HISTORY_POINTS ==> p[|p| - 1] == Value(s[i - 1]))
  {
    if i > 0 {
      var k := i - 1;
      DrawnIsOrdered(s, gap, k);
      var p, q := Drawn(s, gap, k), Drawn(s, gap, i);
      hide Drawn;
      if GapBefore(s, k, gap) && |p| < MAX_HISTORY_POINTS - 1 {
        assert q == p + [Marker(s, k)] + [Value(s[k])];
      } else if |p| < MAX_HISTORY_POINTS {
      }
    }
  }

  lemma {:induction false} DrawnRecorded(s: seq<Sample>, gap: int, i: nat, x: Point) returns (k: nat)
    requires i <= |s| && x in Drawn(s, gap, i) && x.v.Some?
    ensures k < i && x == Value(s[k])
  {
    if x in Drawn(s, gap, i - 1) { k := DrawnRecorded(s, gap, i - 1, x); } else { k := i - 1; }
  }

  /** The points that are not gap markers, as samples. */
  function Values(p: seq<Point>): seq<Sample> {
    if p == [] then []
    else
      var n := |p| - 1;
      Values(p[..n]) + if p[n].v.Some? then [Sample(p[n].t, p[n].v.value)] else []
  }

  lemma ValuesPush(p: seq<Point>, x: Point)
    ensures Values(p + [x]) == Values(p) + if x.v.Some? then [Sample(x.t, x.v.value)] else []
  {
    assert (p + [x])[..|p|] == p;
  }

  /** While the samples and their gaps fit, nothing is dropped and every gap is marked. */
  lemma {:induction false} NothingDropped(s: seq<Sample>, gap: int, i: nat)
    requires i <= |s| && gap > 0 && i + CountOver(Spacings(s[..i]), gap) <= MAX_HISTORY_POINTS
    ensures |Drawn(s, gap, i)| == i + CountOver(Spacings(s[..i]), gap)
    ensures Values(Drawn(s, gap, i)) == s[..i]
  {
    hide Values, Spacings, CountOver;
    if i == 0 {
      assert |Drawn(s, gap, 0)| == 0 && Values(Drawn(s, gap, 0)) == s[..0] && CountOver(Spacings(s[..0]), gap) == 0 by {
        NothingYet(s, gap);
      }
    } else {
      var k := i - 1;
      GapsStep(s, gap, k);
      NothingDropped(s, gap, k);
      var p := Drawn(s, gap, k);
      assert s[..i] == s[..k] + [s[k]];
      if GapBefore(s, k, gap) {
        assert p + [Marker(s, k), Value(s[k])] == p + [Marker(s, k)] + [Value(s[k])];
        ValuesPush(p, Marker(s, k));
        ValuesPush(p + [Marker(s, k)], Value(s[k]));
      } else {
        ValuesPush(p, Value(s[k]));
      }
    }
  }

  lemma NothingYet(s: seq<Sample>, gap: int)
    ensures Drawn(s, gap, 0) == [] && Values([]) == s[..0] && CountOver(Spacings(s[..0]), gap) == 0
  {
  }

  lemma GapsStep(s: seq<Sample>, gap: int, k: nat)
    requires k < |s| && gap > 0
    ensures CountOver(Spacings(s[..k + 1]), gap) == CountOver(Spacings(s[..k]), gap) +
            if GapBefore(s, k, gap) then 1 else 0
  {
    var d, e := Spacings(s[..k]), Spacings(s[..k + 1]);
    assert s[..k + 1][..k] == s[..k];
    if k > 0 { assert e == d + [s[k].t - s[k - 1].t] && e[..|e| - 1] == d; }
  }

  /** Without a gap threshold no marker is drawn. */
  lemma {:induction false} NoThreshold(s: seq<Sample>, i: nat)
    requires i <= |s| && i <= MAX_HISTORY_POINTS
    ensures |Drawn(s, 0, i)| == i && Values(Drawn(s, 0, i)) == s[..i]
  {
    hide Values;
    if i == 0 {
      assert Values([]) == s[..0] by { NothingYet(s, 0); }
    } else {
      NoThreshold(s, i - 1);
      ValuesPush(Drawn(s, 0, i - 1), Value(s[i - 1]));
      assert s[..i] == s[..i - 1] + [s[i - 1]];
    }
  }

  lemma MedianPositive(s: seq<Sample>, m: int)
    requires Increasing(s) && |s| >= 3 && IsMedian(s, m)
    ensures m > 0
  {
    hide CountOver, CountUnder, Increasing;
    var d := Spacings(s);
    var k :| 0 <= k < |d| && d[k] == m;
    SpacingsPositive(s, k);
  }

  /** Samples and gaps that fit within the 288 points are all drawn. */
  lemma FitsIsDrawn(s: seq<Sample>, m: int)
    requires Increasing(s) && IsMedian(s, m)
    requires |s| >= 3 ==> |s| + CountOver(Spacings(s), m * GAP_FACTOR) <= MAX_HISTORY_POINTS
    ensures Values(Drawn(s, m * GAP_FACTOR, |s|)) == s
    ensures |s| >= 3 ==> |Drawn(s, m * GAP_FACTOR, |s|)| == |s| + CountOver(Spacings(s), m * GAP_FACTOR)
  {
    assert s[..|s|] == s;
    hide Values, Drawn, CountOver, IsOrderStatistic, Increasing;
    if |s| < 3 {
      NoThreshold(s, |s|);
    } else {
      MedianPositive(s, m);
      NothingDropped(s, m * GAP_FACTOR, |s|);
    }
  }

  /**
    The counting argument: fewer than half of the spacings can exceed three times the median, so up
    to 193 samples and their markers fit within the 288 points.
   */
  lemma CapNeverDrops(s: seq<Sample>, m: int)
    requires Increasing(s) && |s| <= 193 && IsMedian(s, m)
    ensures Values(Drawn(s, m * GAP_FACTOR, |s|)) == s
    ensures |s| >= 3 ==> |Drawn(s, m * GAP_FACTOR, |s|)| == |s| + CountOver(Spacings(s), m * GAP_FACTOR)
  {
    hide Values, Drawn, CountOver, CountUnder;
    if |s| >= 3 {
      MedianPositive(s, m);
      CountOverMonotone(Spacings(s), m, m * GAP_FACTOR);
    }
    FitsIsDrawn(s, m);
  }

  // ---------------------------------------------------------------- narrow buckets

  predicate BucketsIncrease(s: seq<Sample>, from: int, width: int)
    requires width > 0
  {
    forall i | 0 < i < |s| :: Bucket(s[i - 1], from, width) < Bucket(s[i], from, width)
  }

  /** The averages lie in strictly increasing buckets. */
  lemma MeansInBuckets(kept: seq<Sample>, from: int, width: int)
    requires width > 0 && Increasing(kept)
    ensures BucketsIncrease(Means(Groups(kept, from, width)), from, width)
  {
    hide Groups, Bucket, Mean;
    var g := Groups(kept, from, width);
    var r := Means(g);
    MeansIncrease(kept, from, width);
    forall i | 0 < i < |r| ensures Bucket(r[i - 1], from, width) < Bucket(r[i], from, width) {
      NeighboursDiffer(kept, from, width, i);
      BucketMonotone(r[i - 1], r[i], from, width);
    }
  }

  lemma BucketMonotone(a: Sample, b: Sample, from: int, width: int)
    requires width > 0 && a.t <= b.t
    ensures Bucket(a, from, width) <= Bucket(b, from, width)
  {
    DivideMonotone(a.t - from, b.t - from, width);
  }

  /** With buckets of one or two nanoseconds a gap skips at least one bucket. */
  lemma GapSkips(a: Sample, b: Sample, from: int, width: int)
    requires 1 <= width <= 2 && a.t + 3 < b.t
    ensures Bucket(a, from, width) + 2 <= Bucket(b, from, width)
  {
  }

  /** So samples and gaps together are no more than the buckets passed. */
  lemma {:induction false} GapsFillBuckets(s: seq<Sample>, from: int, width: int, gap: int, i: nat)
    requires 1 <= width <= 2 && gap >= 3 && 0 < i <= |s| && from <= s[0].t && BucketsIncrease(s, from, width)
    ensures i + CountOver(Spacings(s[..i]), gap) <= Bucket(s[i - 1], from, width) + 1
  {
    hide Spacings, CountOver;
    GapsStep(s, gap, i - 1);
    if i == 1 {
      assert CountOver(Spacings(s[..0]), gap) == 0 by { NothingYet(s, gap); }
    } else {
      GapsFillBuckets(s, from, width, gap, i - 1);
      if GapBefore(s, i - 1, gap) { GapSkips(s[i - 2], s[i - 1], from, width); }
    }
  }

  // ---------------------------------------------------------------- the whole

  function Width(from: int, to: int): (w: int)
    ensures w > 0
  {
    if to - from < BUDGET then 1 else (to - from) / BUDGET
  }

  /** The bucketing step: nothing to do within the budget. */
  function Reduced(kept: seq<Sample>, from: int, to: int): seq<Sample> {
    if |kept| <= BUDGET then kept else Means(Groups(kept, from, Width(from, to)))
  }

  /** A sample of the window was recorded at t. */
  ghost predicate Recorded(t: int, samples: seq<Sample>, from: int, to: int) {
    exists y :: y in samples && Within(y, from, to) && y.t == t
  }

  /** One sample per recorded instant of the window. */
  ghost predicate OnePerInstant(kept: seq<Sample>, samples: seq<Sample>, from: int, to: int) {
    Increasing(kept) && (forall x | x in kept :: x in samples && Within(x, from, to)) &&
    forall x | x in samples && Within(x, from, to) :: exists y :: y in kept && y.t == x.t
  }

  /** Sorting the window's samples and deduplicating them leaves one per instant. */
  lemma OnePerInstantIs(samples: seq<Sample>, from: int, to: int, sorted: seq<Sample>)
    requires Sorted(sorted) && multiset(sorted) == multiset(InWindow(samples, from, to))
    ensures OnePerInstant(LastOfRuns(sorted), samples, from, to)
  {
    hide LastOfRuns, InWindow;
    LastOfRunsIncreases(sorted);
    var kept := LastOfRuns(sorted);
    forall x | x in kept ensures x in samples && Within(x, from, to) {
      LastOfRunsRecorded(sorted, x);
      assert x in multiset(InWindow(samples, from, to));
      InWindowIs(samples, from, to, x);
    }
    forall x | x in samples && Within(x, from, to) ensures exists y :: y in kept && y.t == x.t {
      InWindowIs(samples, from, to, x);
      assert x in multiset(sorted);
      LastOfRunsKeepsTimes(sorted, x);
    }
  }

  lemma ReducedIncreases(kept: seq<Sample>, from: int, to: int)
    requires Increasing(kept)
    ensures Increasing(Reduced(kept, from, to))
  {
    hide Groups, Means, Increasing;
    if |kept| > BUDGET { MeansIncrease(kept, from, Width(from, to)); }
  }

  lemma ReducedRecorded(kept: seq<Sample>, samples: seq<Sample>, from: int, to: int, i: nat)
    requires OnePerInstant(kept, samples, from, to) && i < |Reduced(kept, from, to)|
    ensures Recorded(Reduced(kept, from, to)[i].t, samples, from, to)
  {
    hide Groups, Increasing;
    if |kept| > BUDGET {
      var k := MeansRecorded(kept, from, Width(from, to), i);
      assert kept[k] in kept;
    } else {
      assert kept[i] in kept;
    }
  }

  /** How many samples the buckets leave: never more than the points there are. */
  lemma ReducedSize(kept: seq<Sample>, samples: seq<Sample>, from: int, to: int)
    requires OnePerInstant(kept, samples, from, to)
    ensures |Reduced(kept, from, to)| <= MAX_HISTORY_POINTS
    ensures Width(from, to) >= 3 ==> |Reduced(kept, from, to)| <= 192
    ensures to - from >= BUDGET * BUDGET ==> |Reduced(kept, from, to)| <= BUDGET + 1
  {
    hide Groups, Bucket, Width, Increasing;
    if |kept| > BUDGET {
      var w, last := Width(from, to), kept[|kept| - 1];
      assert kept[0] in kept && last in kept;
      GroupCount(kept, from, w);
      WindowBuckets(last, from, to);
    }
  }

  lemma WindowBuckets(s: Sample, from: int, to: int)
    requires Within(s, from, to)
    ensures var b, w := Bucket(s, from, Width(from, to)), Width(from, to);
            b < MAX_HISTORY_POINTS && (w >= 3 ==> b <= 191) && (to - from >= BUDGET * BUDGET ==> b <= BUDGET)
  {
    hide Bucket, Width;
    var w, x := Width(from, to), s.t - from;
    BucketIs(s, from, w);
    WidthSpans(from, to);
    FewBuckets(x, w);
    if to - from >= BUDGET * BUDGET {
      WidthIs(from, to);
      LastBucket(x, to - from, BUDGET);
    }
  }

  lemma WidthSpans(from: int, to: int)
    ensures to - from < BUDGET * Width(from, to) + BUDGET
  {
  }

  lemma FewBuckets(x: int, w: int)
    requires w > 0 && x < BUDGET * w + BUDGET
    ensures x / w < MAX_HISTORY_POINTS && (w >= 3 ==> x / w <= 191)
  {
    QuotientBound(x, w, MAX_HISTORY_POINTS - 1);
    if w >= 3 { QuotientBound(x, w, 191); }
  }

  /** Whatever the window, samples and gap markers fit within the points. */
  lemma ReducedFits(kept: seq<Sample>, samples: seq<Sample>, from: int, to: int, m: int)
    requires OnePerInstant(kept, samples, from, to) && IsMedian(Reduced(kept, from, to), m)
    ensures var r := Reduced(kept, from, to);
            Values(Drawn(r, m * GAP_FACTOR, |r|)) == r &&
            (|r| >= 3 ==> |Drawn(r, m * GAP_FACTOR, |r|)| == |r| + CountOver(Spacings(r), m * GAP_FACTOR))
  {
    hide *;
    var r := Reduced(kept, from, to);
    OnePerInstantIncreases(kept, samples, from, to);
    ReducedIncreases(kept, from, to);
    if |r| <= 193 {
      CapNeverDrops(r, m);
    } else {
      NarrowFits(kept, samples, from, to, m);
      FitsIsDrawn(r, m);
    }
  }

  /** Only buckets of one or two nanoseconds leave more than 193 samples, and there the gaps skip buckets. */
  lemma NarrowFits(kept: seq<Sample>, samples: seq<Sample>, from: int, to: int, m: int)
    requires OnePerInstant(kept, samples, from, to) && |Reduced(kept, from, to)| > 193
    requires IsMedian(Reduced(kept, from, to), m)
    ensures var r := Reduced(kept, from, to);
            |r| + CountOver(Spacings(r), m * GAP_FACTOR) <= MAX_HISTORY_POINTS
  {
    hide OnePerInstant, Reduced, Groups, Means, Bucket, Width, BucketsIncrease,
         Increasing, IsMedian, CountOver, Spacings;
    var r, w := Reduced(kept, from, to), Width(from, to);
    OnePerInstantIncreases(kept, samples, from, to);
    ReducedIncreases(kept, from, to);
    ReducedSize(kept, samples, from, to);
    ReducedIs(kept, from, to);
    MeansInBuckets(kept, from, w);
    MedianPositive(r, m);
    ReducedWithin(kept, samples, from, to);
    GapsFillBuckets(r, from, w, m * GAP_FACTOR, |r|);
    WindowBuckets(r[|r| - 1], from, to);
    assert r[..|r|] == r;
  }

  lemma ReducedWithin(kept: seq<Sample>, samples: seq<Sample>, from: int, to: int)
    requires OnePerInstant(kept, samples, from, to) && Reduced(kept, from, to) != []
    ensures var r := Reduced(kept, from, to); Within(r[0], from, to) && Within(r[|r| - 1], from, to)
  {
    hide OnePerInstant, Reduced;
    ReducedRecorded(kept, samples, from, to, 0);
    ReducedRecorded(kept, samples, from, to, |Reduced(kept, from, to)| - 1);
  }

  lemma WidthIs(from: int, to: int)
    ensures to - from >= BUDGET ==> Width(from, to) == (to - from) / BUDGET
    ensures to - from < BUDGET ==> Width(from, to) == 1
  {
  }

  lemma BucketIs(s: Sample, from: int, width: int)
    requires width > 0
    ensures Bucket(s, from, width) == (s.t - from) / width
  {
  }

  /** What is drawn from the reduced samples, given their median spacing m. */
  ghost predicate DrawnFrom(points: seq<Point>, reduced: seq<Sample>, m: int) {
    IsMedian(reduced, m) && points == Drawn(reduced, m * GAP_FACTOR, |reduced|)
  }

  lemma DrawnPoints(points: seq<Point>, reduced: seq<Sample>, m: int)
    requires DrawnFrom(points, reduced, m) && Increasing(reduced)
    ensures |points| <= MAX_HISTORY_POINTS && TimesIncrease(points) && MarkersBetween(points)
  {
    hide Drawn, Increasing, IsMedian, TimesIncrease, MarkersBetween;
    DrawnIsOrdered(reduced, m * GAP_FACTOR, |reduced|);
  }

  lemma PointsRecorded(points: seq<Point>, kept: seq<Sample>, m: int, samples: seq<Sample>, from: int, to: int)
    requires OnePerInstant(kept, samples, from, to) && DrawnFrom(points, Reduced(kept, from, to), m)
    ensures forall i | 0 <= i < |points| && points[i].v.Some? :: Recorded(points[i].t, samples, from, to)
  {
    hide OnePerInstant, Reduced, Drawn, Recorded, IsMedian;
    var reduced := Reduced(kept, from, to);
    forall i | 0 <= i < |points| && points[i].v.Some? ensures Recorded(points[i].t, samples, from, to) {
      var k := DrawnRecorded(reduced, m * GAP_FACTOR, |reduced|, points[i]);
      ReducedRecorded(kept, samples, from, to, k);
    }
  }

  /** The averaging step of Downsample. */
  method Reduce(kept: seq<Sample>, from: int, to: int, ghost samples: seq<Sample>) returns (reduced: seq<Sample>)
    requires OnePerInstant(kept, samples, from, to)
    ensures reduced == Reduced(kept, from, to)
  {
    hide OnePerInstant, Reduced, Groups, Means, Width;
    KeptWithin(kept, samples, from, to);
    ReducedIs(kept, from, to);
    if |kept| <= BUDGET { return kept; }
    var width := (to - from) / BUDGET;
    if width <= 0 { width := 1; }
    WidthIs(from, to);
    reduced := Average(kept, from, width);
  }

  lemma KeptWithin(kept: seq<Sample>, samples: seq<Sample>, from: int, to: int)
    requires OnePerInstant(kept, samples, from, to)
    ensures (forall i | 0 <= i < |kept| :: from <= kept[i].t) && (kept != [] ==> from <= to)
  {
    hide Increasing;
    forall i | 0 <= i < |kept| ensures from <= kept[i].t <= to { assert kept[i] in kept; }
    if kept != [] { assert from <= kept[0].t <= to; }
  }

  lemma ReducedIs(kept: seq<Sample>, from: int, to: int)
    ensures Reduced(kept, from, to) == if |kept| <= BUDGET then kept else Means(Groups(kept, from, Width(from, to)))
  {
  }

  /**
    Downsample. Times strictly increase; every value stands at a recorded time of the window; a gap
    marker stands strictly between two values, exactly where a spacing exceeds three medians; and the
    values are exactly the bucket means, none dropped by the cap.
   */
  method Downsample(samples: seq<Sample>, from: int, to: int)
    returns (points: seq<Point>, ghost kept: seq<Sample>, ghost m: int)
    ensures OnePerInstant(kept, samples, from, to) && DrawnFrom(points, Reduced(kept, from, to), m)
    ensures |points| <= MAX_HISTORY_POINTS && TimesIncrease(points) && MarkersBetween(points)
    ensures forall i | 0 <= i < |points| && points[i].v.Some? :: Recorded(points[i].t, samples, from, to)
    ensures var r := Reduced(kept, from, to);
            Values(points) == r && (|r| >= 3 ==> |points| == |r| + CountOver(Spacings(r), m * GAP_FACTOR))
  {
    hide *;
    var chosen := Filter(samples, from, to);
    var sorted := SortByTime(chosen);
    var a := new Sample[|sorted|](i requires 0 <= i < |sorted| => sorted[i]);
    assert a[..] == sorted;
    var n := DedupInPlace(a);
    kept := a[..n];
    OnePerInstantIs(samples, from, to, sorted);
    var reduced := Reduce(a[..n], from, to, samples);
    var median := MedianSpacing(reduced);
    m := median;
    points := Draw(reduced, median * GAP_FACTOR);
    assert DrawnFrom(points, reduced, m) by { DrawnFromIs(points, reduced, m); }
    assert Increasing(kept) by { OnePerInstantIncreases(kept, samples, from, to); }
    ReducedIncreases(kept, from, to);
    DrawnPoints(points, reduced, m);
    PointsRecorded(points, kept, m, samples, from, to);
    assert points == Drawn(reduced, m * GAP_FACTOR, |reduced|);
    ReducedFits(kept, samples, from, to, m);
  }

  lemma DrawnFromIs(points: seq<Point>, reduced: seq<Sample>, m: int)
    requires IsMedian(reduced, m) && points == Drawn(reduced, m * GAP_FACTOR, |reduced|)
    ensures DrawnFrom(points, reduced, m)
  {
  }

  lemma OnePerInstantIncreases(kept: seq<Sample>, samples: seq<Sample>, from: int, to: int)
    requires OnePerInstant(kept, samples, from, to)
    ensures Increasing(kept)
  {
  }
}

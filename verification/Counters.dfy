/** Traffic counters: what adding and merging count, and the percentile read off the histogram. */
module Counters {
  import opened Text

  datatype Sample = Sample(status: int, size: int, seconds: real, cache: string, limited: bool)

  /** The fields of a counter. */
  datatype Tally = Tally(requests: nat, bytes: int, hits: nat, lookups: nat, limited: nat, seconds: real, maximum: real,
                         statuses: seq<nat>, histogram: seq<nat>)

  const BOUNDS := 17
  const BINS := 18

  /** The upper bounds of the bins; the last bin has none. */
  function Latencies(): (r: seq<real>)
    ensures |r| == BOUNDS && forall i, j :: 0 <= i < j < |r| ==> r[i] < r[j]
  {
    [0.005, 0.01, 0.025, 0.05, 0.1, 0.25, 0.5, 1.0, 2.0, 5.0, 10.0, 30.0, 60.0, 120.0, 300.0, 600.0, 3600.0]
  }

  const CACHE_LOOKUPS := {"HIT", "MISS", "EXPIRED", "STALE", "UPDATING", "REVALIDATED"}

  predicate ValidSample(s: Sample) {
    100 <= s.status <= 599 && s.seconds >= 0.0
  }

  predicate Shaped(t: Tally) {
    |t.statuses| == 5 && |t.histogram| == BINS
  }

  /** How many bounds lie below a duration: the place of its bin. */
  function BinFrom(seconds: real, i: nat): (r: nat)
    requires i <= BOUNDS && forall j :: 0 <= j < i ==> Latencies()[j] < seconds
    ensures r <= BOUNDS && (forall j :: 0 <= j < r ==> Latencies()[j] < seconds) && (r < BOUNDS ==> seconds <= Latencies()[r])
    decreases BOUNDS - i
  {
    if i < BOUNDS && Latencies()[i] < seconds then BinFrom(seconds, i + 1) else i
  }

  function Bin(seconds: real): (r: nat)
    ensures r < BINS && (forall j :: 0 <= j < r ==> Latencies()[j] < seconds) && (r < BOUNDS ==> seconds <= Latencies()[r])
  {
    BinFrom(seconds, 0)
  }

  function Max(a: real, b: real): real {
    if a < b then b else a
  }

  function Unit(b: bool): nat {
    if b then 1 else 0
  }

  function Zero(): (t: Tally)
    ensures Shaped(t) && t.requests == 0 && t.maximum == 0.0
  {
    Tally(0, 0, 0, 0, 0, 0.0, 0.0, [0, 0, 0, 0, 0], [0, 0, 0, 0, 0, 0, 0, 0, 0, 0, 0, 0, 0, 0, 0, 0, 0, 0])
  }

  /** One at a place, zero elsewhere. */
  function Spot(size: nat, at: nat): (r: seq<nat>)
    ensures |r| == size && forall i :: 0 <= i < size ==> r[i] == Unit(i == at)
  {
    seq<nat>(size, i => Unit(i == at))
  }

  /** The place of a status class, 1xx to 5xx. */
  function ClassOf(s: Sample): (c: nat)
    requires ValidSample(s)
    ensures c < 5
  {
    s.status / 100 - 1
  }

  /** A counter that has seen one sample. */
  function One(s: Sample): Tally
    requires ValidSample(s)
  {
    Tally(1, s.size, Unit(s.cache == "HIT"), Unit(s.cache in CACHE_LOOKUPS), Unit(s.limited), s.seconds, s.seconds,
          Spot(5, ClassOf(s)), Spot(BINS, Bin(s.seconds)))
  }

  function Plus(a: seq<nat>, b: seq<nat>): seq<nat>
    requires |a| == |b|
  {
    seq(|a|, i requires 0 <= i < |a| => a[i] + b[i])
  }

  function Merged(a: Tally, b: Tally): (t: Tally)
    requires Shaped(a) && Shaped(b)
    ensures Shaped(t) && t.maximum >= a.maximum && t.maximum >= b.maximum
  {
    Tally(a.requests + b.requests, a.bytes + b.bytes, a.hits + b.hits, a.lookups + b.lookups, a.limited + b.limited,
          a.seconds + b.seconds, Max(a.maximum, b.maximum), Plus(a.statuses, b.statuses), Plus(a.histogram, b.histogram))
  }

  predicate ValidSamples(samples: seq<Sample>) {
    forall i :: 0 <= i < |samples| ==> ValidSample(samples[i])
  }

  /** What one counter makes of a sequence of samples. */
  function Count(samples: seq<Sample>): (t: Tally)
    requires ValidSamples(samples)
    ensures Shaped(t) && t.maximum >= 0.0 && t.requests == |samples|
  {
    if samples == [] then Zero()
    else Merged(Count(samples[..|samples| - 1]), One(samples[|samples| - 1]))
  }

  lemma MergedZero(t: Tally)
    requires Shaped(t) && t.maximum >= 0.0
    ensures Merged(t, Zero()) == t && Merged(Zero(), t) == t
  {
    assert Plus(t.statuses, Zero().statuses) == t.statuses && Plus(Zero().statuses, t.statuses) == t.statuses;
    assert Plus(t.histogram, Zero().histogram) == t.histogram && Plus(Zero().histogram, t.histogram) == t.histogram;
  }

  lemma MergedOrder(a: Tally, b: Tally, c: Tally)
    requires Shaped(a) && Shaped(b) && Shaped(c)
    ensures Merged(Merged(a, b), c) == Merged(a, Merged(b, c))
    ensures Merged(a, b) == Merged(b, a)
  {
    assert Plus(Plus(a.statuses, b.statuses), c.statuses) == Plus(a.statuses, Plus(b.statuses, c.statuses));
    assert Plus(Plus(a.histogram, b.histogram), c.histogram) == Plus(a.histogram, Plus(b.histogram, c.histogram));
    assert Plus(a.statuses, b.statuses) == Plus(b.statuses, a.statuses);
    assert Plus(a.histogram, b.histogram) == Plus(b.histogram, a.histogram);
  }

  /** Merging counters equals counting the concatenated samples, however they were split. */
  lemma {:induction false} MergeCounts(a: seq<Sample>, b: seq<Sample>)
    requires ValidSamples(a) && ValidSamples(b)
    ensures Count(a + b) == Merged(Count(a), Count(b))
    decreases |b|
  {
    hide Merged, One;
    if b == [] {
      assert a + b == a;
      MergedZero(Count(a));
    } else {
      var last := |b| - 1;
      MergeCounts(a, b[..last]);
      assert (a + b)[..|a + b| - 1] == a + b[..last];
      OneShaped(b[last]);
      MergedOrder(Count(a), Count(b[..last]), One(b[last]));
    }
  }

  lemma OneShaped(s: Sample)
    requires ValidSample(s)
    ensures Shaped(One(s)) && One(s).maximum >= 0.0 && One(s).requests == 1
  {
  }

  // ---- What the counts mean ----

  /** What one more sample adds to each field, written out; without samples there is nothing. */
  lemma CountStep(samples: seq<Sample>, s: Sample)
    requires ValidSamples(samples) && ValidSample(s)
    ensures ValidSamples(samples + [s])
    ensures Count([]) == Tally(0, 0, 0, 0, 0, 0.0, 0.0, [0, 0, 0, 0, 0], [0, 0, 0, 0, 0, 0, 0, 0, 0, 0, 0, 0, 0, 0, 0, 0, 0, 0])
    ensures var c, d := Count(samples), Count(samples + [s]);
            && d.requests == c.requests + 1 && d.bytes == c.bytes + s.size && d.seconds == c.seconds + s.seconds
            && d.hits == c.hits + (if s.cache == "HIT" then 1 else 0)
            && d.lookups == c.lookups + (if s.cache in {"HIT", "MISS", "EXPIRED", "STALE", "UPDATING", "REVALIDATED"} then 1 else 0)
            && d.limited == c.limited + (if s.limited then 1 else 0)
            && d.maximum == (if c.maximum < s.seconds then s.seconds else c.maximum)
            && (forall k :: 0 <= k < 5 ==> d.statuses[k] == c.statuses[k] + if s.status / 100 == k + 1 then 1 else 0)
  {
    var all := samples + [s];
    assert all[..|all| - 1] == samples;
    CountUnfold(all);
    CountUnfold([]);
    OneMore(Count(samples), s);
    hide Count, One, Merged;
  }

  lemma OneMore(before: Tally, s: Sample)
    requires Shaped(before) && ValidSample(s)
    ensures Shaped(One(s))
    ensures var d := Merged(before, One(s));
            && d.requests == before.requests + 1 && d.bytes == before.bytes + s.size && d.seconds == before.seconds + s.seconds
            && d.hits == before.hits + (if s.cache == "HIT" then 1 else 0)
            && d.lookups == before.lookups + (if s.cache in {"HIT", "MISS", "EXPIRED", "STALE", "UPDATING", "REVALIDATED"} then 1 else 0)
            && d.limited == before.limited + (if s.limited then 1 else 0)
            && d.maximum == (if before.maximum < s.seconds then s.seconds else before.maximum)
            && (forall k :: 0 <= k < 5 ==> d.statuses[k] == before.statuses[k] + if s.status / 100 == k + 1 then 1 else 0)
  {
    hide Bin;
  }

  /** The bins: a sample falls into the first whose bound it does not exceed, or into the last. */
  lemma HistogramStep(samples: seq<Sample>, s: Sample, k: nat)
    requires ValidSamples(samples) && ValidSample(s) && k < 18
    ensures ValidSamples(samples + [s])
    ensures Count(samples + [s]).histogram[k] ==
            Count(samples).histogram[k]
            + if (k == 0 || Latencies()[k - 1] < s.seconds) && (k == 17 || s.seconds <= Latencies()[k]) then 1 else 0
  {
    hide Count, Bin;
    var all := samples + [s];
    assert all[..|all| - 1] == samples;
    CountLast(all);
    BinExactly(s.seconds, k);
  }

  lemma BoundsExactly()
    ensures Latencies() == [0.005, 0.01, 0.025, 0.05, 0.1, 0.25, 0.5, 1.0, 2.0, 5.0, 10.0, 30.0, 60.0, 120.0, 300.0, 600.0, 3600.0]
  {
  }

  lemma BinExactly(seconds: real, k: nat)
    requires k < 18
    ensures Bin(seconds) == k <==> (k == 0 || Latencies()[k - 1] < seconds) && (k == 17 || seconds <= Latencies()[k])
  {
    hide Bin, Latencies;
    var bin := Bin(seconds);
    assert bin < k ==> seconds <= Latencies()[bin] <= Latencies()[k - 1];
  }

  function Numbered(samples: seq<Sample>, bin: nat): nat {
    if samples == [] then 0 else Numbered(samples[..|samples| - 1], bin) + Unit(bin == Bin(samples[|samples| - 1].seconds))
  }

  function AtMost(samples: seq<Sample>, bound: real): nat {
    if samples == [] then 0 else AtMost(samples[..|samples| - 1], bound) + Unit(samples[|samples| - 1].seconds <= bound)
  }

  function Below(samples: seq<Sample>, bound: real): nat {
    if samples == [] then 0 else Below(samples[..|samples| - 1], bound) + Unit(samples[|samples| - 1].seconds < bound)
  }

  lemma CountUnfold(samples: seq<Sample>)
    requires ValidSamples(samples)
    ensures samples == [] ==> Count(samples) == Zero()
    ensures samples != [] ==>
              Shaped(One(samples[|samples| - 1])) && Count(samples) == Merged(Count(samples[..|samples| - 1]), One(samples[|samples| - 1]))
  {
    hide Merged, Zero, Bin;
  }

  /** The last sample's share of every figure. */
  lemma CountLast(samples: seq<Sample>)
    requires ValidSamples(samples)
    ensures samples == [] ==> Count(samples) == Zero()
    ensures samples != [] ==>
              var before, s := Count(samples[..|samples| - 1]), samples[|samples| - 1];
              && Count(samples).maximum == Max(before.maximum, s.seconds)
              && Count(samples).statuses == Plus(before.statuses, Spot(5, ClassOf(s)))
              && Count(samples).histogram == Plus(before.histogram, Spot(BINS, Bin(s.seconds)))
  {
    hide Count, One, Merged, Plus, Spot, Bin, Max, ClassOf;
    CountUnfold(samples);
    if samples != [] {
      MergedOne(Count(samples[..|samples| - 1]), samples[|samples| - 1]);
    }
  }

  lemma MergedOne(before: Tally, s: Sample)
    requires Shaped(before) && ValidSample(s)
    ensures Shaped(One(s))
    ensures var t := Merged(before, One(s));
            && t.maximum == Max(before.maximum, s.seconds)
            && t.statuses == Plus(before.statuses, Spot(5, ClassOf(s)))
            && t.histogram == Plus(before.histogram, Spot(BINS, Bin(s.seconds)))
  {
    hide Plus, Spot, Bin, Max, ClassOf;
  }

  lemma {:induction false} HistogramCounts(samples: seq<Sample>, bin: nat)
    requires ValidSamples(samples) && bin < BINS
    ensures Count(samples).histogram[bin] == Numbered(samples, bin)
  {
    hide Count, Bin;
    CountLast(samples);
    if samples != [] {
      HistogramCounts(samples[..|samples| - 1], bin);
    }
  }

  function Classed(samples: seq<Sample>, class_: nat): nat {
    if samples == [] then 0
    else Classed(samples[..|samples| - 1], class_) + Unit(samples[|samples| - 1].status / 100 == class_)
  }

  /** A status count is the number of samples of its class, 1xx to 5xx; the errors are the last. */
  lemma {:induction false} StatusCounts(samples: seq<Sample>, class_: nat)
    requires ValidSamples(samples) && 1 <= class_ <= 5
    ensures Count(samples).statuses[class_ - 1] == Classed(samples, class_)
  {
    hide Count, Bin;
    CountLast(samples);
    if samples != [] {
      StatusCounts(samples[..|samples| - 1], class_);
    }
  }

  function Total(h: seq<nat>): nat {
    if h == [] then 0 else Total(h[..|h| - 1]) + h[|h| - 1]
  }

  lemma {:induction false} TotalPlus(a: seq<nat>, b: seq<nat>, n: nat)
    requires |a| == |b| && n <= |a|
    ensures Total(Plus(a, b)[..n]) == Total(a[..n]) + Total(b[..n])
  {
    if n > 0 {
      TotalPlus(a, b, n - 1);
      assert Plus(a, b)[..n][..n - 1] == Plus(a, b)[..n - 1] && a[..n][..n - 1] == a[..n - 1] && b[..n][..n - 1] == b[..n - 1];
    }
  }

  lemma {:induction false} TotalUnit(bin: nat, size: nat, n: nat)
    requires n <= size
    ensures Total(Spot(size, bin)[..n]) == Unit(bin < n)
  {
    if n > 0 {
      TotalUnit(bin, size, n - 1);
      var h := Spot(size, bin);
      assert h[..n][..n - 1] == h[..n - 1];
    }
  }

  /** The bins up to a bound hold exactly the samples up to that bound. */
  lemma {:induction false} BinsUpTo(samples: seq<Sample>, n: nat)
    requires ValidSamples(samples) && n <= BINS
    ensures n == 0 ==> Total(Count(samples).histogram[..n]) == 0
    ensures 0 < n < BINS ==> Total(Count(samples).histogram[..n]) == AtMost(samples, Latencies()[n - 1])
    ensures n == BINS ==> Total(Count(samples).histogram[..n]) == |samples|
  {
    hide Count, Bin, Latencies, Total;
    CountLast(samples);
    if samples == [] {
      TotalZero(n);
    } else {
      var last := |samples| - 1;
      BinsUpTo(samples[..last], n);
      LastBinned(samples, n);
      if 0 < n < BINS {
        BinBound(samples[last].seconds, n);
      }
    }
  }

  lemma LastBinned(samples: seq<Sample>, n: nat)
    requires ValidSamples(samples) && samples != [] && n <= BINS
    ensures var last := |samples| - 1;
            Total(Count(samples).histogram[..n]) == Total(Count(samples[..last]).histogram[..n]) + Unit(Bin(samples[last].seconds) < n)
  {
    hide Bin, Total, Count, One, Merged, Latencies;
    var last := |samples| - 1;
    CountLast(samples);
    TotalPlus(Count(samples[..last]).histogram, Spot(BINS, Bin(samples[last].seconds)), n);
    TotalUnit(Bin(samples[last].seconds), BINS, n);
  }

  lemma BinBound(seconds: real, n: nat)
    requires 0 < n < BINS
    ensures Bin(seconds) < n <==> seconds <= Latencies()[n - 1]
  {
    hide Bin, Latencies;
    var bin := Bin(seconds);
    assert bin < n ==> seconds <= Latencies()[bin] <= Latencies()[n - 1];
  }

  lemma {:induction false} TotalZero(n: nat)
    requires n <= BINS
    ensures Total(Zero().histogram[..n]) == 0
  {
    if n > 0 {
      TotalZero(n - 1);
      assert Zero().histogram[..n][..n - 1] == Zero().histogram[..n - 1];
    }
  }

  /** `ceil(0.95 * n)` */
  function Rank(n: nat): nat {
    (95 * n + 99) / 100
  }

  /** The nearest-rank 95th percentile: fewer samples than the rank lie below it, and at least the rank up to it. */
  predicate Percentile(samples: seq<Sample>, v: real) {
    Below(samples, v) < Rank(|samples|) <= AtMost(samples, v)
  }

  function Seconds(samples: seq<Sample>): (r: seq<real>)
    ensures |r| == |samples|
  {
    seq(|samples|, i requires 0 <= i < |samples| => samples[i].seconds)
  }

  predicate Sorted(order: seq<real>) {
    forall i, j :: 0 <= i <= j < |order| ==> order[i] <= order[j]
  }

  /** The same counts on plain durations. */
  function SecondsAtMost(order: seq<real>, bound: real): nat {
    if order == [] then 0 else SecondsAtMost(order[..|order| - 1], bound) + Unit(order[|order| - 1] <= bound)
  }

  function SecondsBelow(order: seq<real>, bound: real): nat {
    if order == [] then 0 else SecondsBelow(order[..|order| - 1], bound) + Unit(order[|order| - 1] < bound)
  }

  lemma {:induction false} SameCounts(samples: seq<Sample>, bound: real)
    ensures SecondsAtMost(Seconds(samples), bound) == AtMost(samples, bound)
    ensures SecondsBelow(Seconds(samples), bound) == Below(samples, bound)
  {
    if samples != [] {
      SameCounts(samples[..|samples| - 1], bound);
      assert Seconds(samples)[..|samples| - 1] == Seconds(samples[..|samples| - 1]);
    }
  }

  lemma {:induction false} CountsJoin(a: seq<real>, b: seq<real>, bound: real)
    ensures SecondsAtMost(a + b, bound) == SecondsAtMost(a, bound) + SecondsAtMost(b, bound)
    ensures SecondsBelow(a + b, bound) == SecondsBelow(a, bound) + SecondsBelow(b, bound)
    decreases |b|
  {
    if b == [] {
      assert a + b == a;
    } else {
      CountsJoin(a, b[..|b| - 1], bound);
      assert (a + b)[..|a + b| - 1] == a + b[..|b| - 1];
    }
  }

  lemma CountsWithout(b: seq<real>, i: nat, bound: real)
    requires i < |b|
    ensures multiset(b[..i] + b[i + 1..]) == multiset(b) - multiset{b[i]}
    ensures SecondsAtMost(b, bound) == SecondsAtMost(b[..i] + b[i + 1..], bound) + Unit(b[i] <= bound)
    ensures SecondsBelow(b, bound) == SecondsBelow(b[..i] + b[i + 1..], bound) + Unit(b[i] < bound)
  {
    var left, right := b[..i], b[i + 1..];
    assert b == left + [b[i]] + right;
    CountsJoin(left, right, bound);
    CountsJoin(left, [b[i]], bound);
    CountsJoin(left + [b[i]], right, bound);
    OneCounted(b[i], bound);
  }

  lemma OneCounted(x: real, bound: real)
    ensures SecondsAtMost([x], bound) == Unit(x <= bound) && SecondsBelow([x], bound) == Unit(x < bound)
  {
    assert [x][..0] == [];
  }

  /** Counts do not depend on the order of the samples. */
  lemma {:induction false} CountsPermute(a: seq<real>, b: seq<real>, bound: real)
    requires multiset(a) == multiset(b)
    ensures SecondsAtMost(a, bound) == SecondsAtMost(b, bound) && SecondsBelow(a, bound) == SecondsBelow(b, bound)
    decreases |a|
  {
    if a == [] {
      assert |multiset(b)| == 0;
      assert b == [];
    } else {
      hide SecondsAtMost, SecondsBelow;
      var last := |a| - 1;
      assert a[last] in multiset(b);
      var i :| 0 <= i < |b| && b[i] == a[last];
      CountsWithout(a, last, bound);
      CountsWithout(b, i, bound);
      CountsPermute(a[..last] + a[last + 1..], b[..i] + b[i + 1..], bound);
    }
  }

  lemma {:induction false} SortedCounts(order: seq<real>, k: nat, n: nat)
    requires Sorted(order) && k < |order| && n <= |order|
    ensures n <= k ==> SecondsAtMost(order[..n], order[k]) == n
    ensures n <= k ==> SecondsBelow(order[..n], order[k]) <= n
    ensures n > k ==> SecondsAtMost(order[..n], order[k]) >= k + 1 && SecondsBelow(order[..n], order[k]) <= k
  {
    if n > 0 {
      SortedCounts(order, k, n - 1);
      assert order[..n][..n - 1] == order[..n - 1];
    }
  }

  /** The value at the rank of the sorted samples is the nearest-rank percentile. */
  lemma RankedIsPercentile(samples: seq<Sample>, order: seq<real>)
    requires samples != [] && Sorted(order) && multiset(order) == multiset(Seconds(samples))
    ensures 1 <= Rank(|samples|) <= |samples| == |order| && 95 * |samples| <= 100 * Rank(|samples|) < 95 * |samples| + 100
    ensures Percentile(samples, order[Rank(|samples|) - 1])
  {
    assert |order| == |multiset(order)| && |Seconds(samples)| == |multiset(Seconds(samples))|;
    var v := order[Rank(|samples|) - 1];
    SortedCounts(order, Rank(|samples|) - 1, |order|);
    assert order[..|order|] == order;
    CountsPermute(order, Seconds(samples), v);
    SameCounts(samples, v);
  }

  // ---- The percentile off the histogram ----

  /** The first bin at which the running count reaches the rank. */
  predicate Chosen(t: Tally, bin: nat)
    requires Shaped(t)
  {
    bin < BINS && Total(t.histogram[..bin]) < Rank(t.requests) <= Total(t.histogram[..bin + 1])
  }

  function Reported(t: Tally, bin: nat): real
    requires bin < BINS
  {
    if bin < BOUNDS then (if t.maximum < Latencies()[bin] then t.maximum else Latencies()[bin]) else t.maximum
  }

  lemma {:induction false} CountsGrow(samples: seq<Sample>, low: real, high: real)
    requires low < high
    ensures AtMost(samples, low) <= Below(samples, high) <= AtMost(samples, high)
  {
    if samples != [] {
      CountsGrow(samples[..|samples| - 1], low, high);
    }
  }

  lemma {:induction false} Maximal(samples: seq<Sample>, v: real)
    requires ValidSamples(samples) && v > Count(samples).maximum
    ensures Below(samples, v) == |samples|
  {
    hide Count;
    CountLast(samples);
    if samples != [] {
      Maximal(samples[..|samples| - 1], v);
    }
  }

  /** The true percentile lies in the chosen bin and is at most the reported one, which is at most the bin's bound
      and the maximum. */
  lemma PercentileBracketed(samples: seq<Sample>, bin: nat, v: real)
    requires ValidSamples(samples) && samples != [] && Chosen(Count(samples), bin) && Percentile(samples, v)
    ensures bin > 0 ==> Latencies()[bin - 1] < v
    ensures bin < BOUNDS ==> v <= Latencies()[bin] && Reported(Count(samples), bin) <= Latencies()[bin]
    ensures v <= Reported(Count(samples), bin) <= Count(samples).maximum
  {
    hide Count, AtMost, Below, Total;
    BinsUpTo(samples, bin);
    BinsUpTo(samples, bin + 1);
    if bin > 0 && v <= Latencies()[bin - 1] {
      if v < Latencies()[bin - 1] {
        CountsGrow(samples, v, Latencies()[bin - 1]);
      }
    }
    if bin < BOUNDS && v > Latencies()[bin] {
      CountsGrow(samples, Latencies()[bin], v);
    }
    if v > Count(samples).maximum {
      Maximal(samples, v);
    }
  }

  lemma Bumped(a: seq<nat>, at: nat)
    requires at < |a|
    ensures a[at := a[at] + 1] == Plus(a, Spot(|a|, at))
  {
  }

  /** The figures of a result that are computed. */
  datatype Summary = Summary(hitPercent: Option<real>, errorPercent: Option<real>, average: Option<real>, p95: Option<real>)

  function Elapsed(samples: seq<Sample>): real {
    if samples == [] then 0.0 else Elapsed(samples[..|samples| - 1]) + samples[|samples| - 1].seconds
  }

  function Looked(samples: seq<Sample>): nat {
    if samples == [] then 0 else Looked(samples[..|samples| - 1]) + Unit(samples[|samples| - 1].cache in CACHE_LOOKUPS)
  }

  function Hit(samples: seq<Sample>): nat {
    if samples == [] then 0 else Hit(samples[..|samples| - 1]) + Unit(samples[|samples| - 1].cache == "HIT")
  }

  /** The totals of a counter are those of its samples; no sample is a hit without a lookup or longer than the maximum. */
  lemma {:induction false} Totals(samples: seq<Sample>)
    requires ValidSamples(samples)
    ensures var t := Count(samples);
            && t.seconds == Elapsed(samples) && t.lookups == Looked(samples) && t.hits == Hit(samples) && t.hits <= t.lookups
            && 0.0 <= t.seconds <= Span(|samples|, t.maximum)
  {
    hide Count, Span;
    CountUnfold(samples);
    if samples == [] {
      NoSpan();
    } else {
      var before, s := samples[..|samples| - 1], samples[|samples| - 1];
      Totals(before);
      MergedTotals(Count(before), s);
      hide Merged, One;
      Grown(|before|, Count(before).maximum, Count(samples).maximum, Count(before).seconds, s.seconds);
    }
  }

  lemma MergedTotals(before: Tally, s: Sample)
    requires Shaped(before) && ValidSample(s)
    ensures Shaped(One(s))
    ensures var t := Merged(before, One(s));
            && t.seconds == before.seconds + s.seconds && t.lookups == before.lookups + Unit(s.cache in CACHE_LOOKUPS)
            && t.hits == before.hits + Unit(s.cache == "HIT") && Unit(s.cache == "HIT") <= Unit(s.cache in CACHE_LOOKUPS)
            && 0.0 <= s.seconds <= t.maximum && before.maximum <= t.maximum
  {
    hide Plus, Spot, Bin, ClassOf;
  }

  /** The time of `n` samples of a given length. */
  function Span(n: nat, length: real): real {
    n as real * length
  }

  lemma NoSpan()
    ensures Span(0, 0.0) == 0.0
  {
  }

  lemma Grown(n: nat, low: real, high: real, total: real, x: real)
    requires low <= high && total <= Span(n, low) && x <= high
    ensures total + x <= Span(n + 1, high)
  {
    assert n as real * (high - low) >= 0.0;
    assert (n + 1) as real * high == n as real * high + high;
  }

  lemma {:induction false} ClassedFew(samples: seq<Sample>, class_: nat)
    requires ValidSamples(samples)
    ensures Classed(samples, class_) <= |samples|
  {
    if samples != [] {
      ClassedFew(samples[..|samples| - 1], class_);
    }
  }

  lemma {:induction false} LookedSome(samples: seq<Sample>)
    ensures Looked(samples) > 0 <==> exists s :: s in samples && s.cache in CACHE_LOOKUPS
  {
    if samples != [] {
      var before, last := samples[..|samples| - 1], samples[|samples| - 1];
      LookedSome(before);
      assert samples == before + [last];
      assert last in samples;
      if Looked(samples) > 0 && Looked(before) > 0 {
        var s :| s in before && s.cache in CACHE_LOOKUPS;
        assert s in samples;
      }
    }
  }

  /** A quotient, if there is something to divide by. */
  function Ratio(a: real, n: nat, limit: real): (r: Option<real>)
    requires 0.0 <= a <= n as real * limit
    ensures r.Some? <==> n > 0
    ensures r.Some? ==> r.value * n as real == a && 0.0 <= r.value <= limit
  {
    if n == 0 then None
    else
      Quotient(a, n as real, limit);
      Some(a / n as real)
  }

  lemma Quotient(a: real, b: real, limit: real)
    requires b > 0.0 && 0.0 <= a <= b * limit
    ensures a / b * b == a && 0.0 <= a / b <= limit
  {
    var q := a / b;
    assert q * b == a;
    if q > limit {
      assert (q - limit) * b > 0.0;
    }
  }

  class Counter {
    var requests: nat
    var bytes: int
    var hits: nat
    var lookups: nat
    var limited: nat
    var seconds: real
    var maximum: real
    var statuses: seq<nat>
    var histogram: seq<nat>

    function View(): Tally
      reads this
    {
      Tally(requests, bytes, hits, lookups, limited, seconds, maximum, statuses, histogram)
    }

    constructor ()
      ensures View() == Zero() == Count([])
    {
      requests, bytes, hits, lookups, limited, seconds, maximum := 0, 0, 0, 0, 0, 0.0, 0.0;
      statuses, histogram := Zero().statuses, Zero().histogram;
    }

    method Add(s: Sample)
      requires ValidSample(s) && Shaped(View()) && maximum >= 0.0
      modifies this
      ensures View() == Merged(old(View()), One(s)) && maximum >= 0.0
    {
      hide Bin, Latencies, Plus, Spot;
      Bumped(statuses, ClassOf(s));
      Bumped(histogram, Bin(s.seconds));
      requests, bytes, seconds := requests + 1, bytes + s.size, seconds + s.seconds;
      maximum := if maximum < s.seconds then s.seconds else maximum;
      var class_ := ClassOf(s);
      statuses := statuses[class_ := statuses[class_] + 1];
      limited := limited + if s.limited then 1 else 0;
      hits := hits + if s.cache == "HIT" then 1 else 0;
      lookups := lookups + if s.cache in CACHE_LOOKUPS then 1 else 0;
      var bin := Bin(s.seconds);
      histogram := histogram[bin := histogram[bin] + 1];
    }

    method Merge(other: Counter)
      requires Shaped(View()) && Shaped(other.View())
      modifies this
      ensures View() == Merged(old(View()), old(other.View()))
    {
      requests, bytes, seconds := requests + other.requests, bytes + other.bytes, seconds + other.seconds;
      hits, lookups, limited := hits + other.hits, lookups + other.lookups, limited + other.limited;
      maximum := Max(maximum, other.maximum);
      statuses, histogram := Plus(statuses, other.statuses), Plus(histogram, other.histogram);
    }

    /** `result` without its rounding: the shares and the average of the samples, and the percentile, read off the first
        bin that reaches the rank. */
    method Result(ghost samples: seq<Sample>) returns (r: Summary)
      requires ValidSamples(samples) && View() == Count(samples)
      ensures r.p95.Some? == r.average.Some? == r.errorPercent.Some? == (samples != [])
      ensures r.hitPercent.Some? <==> exists s :: s in samples && s.cache in CACHE_LOOKUPS
      ensures r.p95.Some? ==> (exists bin :: Chosen(View(), bin) && r.p95.value == Reported(View(), bin))
                              && forall v :: Percentile(samples, v) ==> v <= r.p95.value <= maximum
      ensures r.average.Some? ==> r.average.value * |samples| as real == Elapsed(samples) && 0.0 <= r.average.value <= maximum
      ensures r.errorPercent.Some? ==> r.errorPercent.value * |samples| as real == 100.0 * Classed(samples, 5) as real && 0.0 <= r.errorPercent.value <= 100.0
      ensures r.hitPercent.Some? ==> r.hitPercent.value * Looked(samples) as real == 100.0 * Hit(samples) as real && 0.0 <= r.hitPercent.value <= 100.0
    {
      hide Count, Chosen, Reported, Percentile, Elapsed, Looked, Hit, Classed, Ratio;
      Totals(samples);
      StatusCounts(samples, 5);
      ClassedFew(samples, 5);
      LookedSome(samples);
      var p95 := Percent95(samples);
      r := Summary(Ratio(100.0 * hits as real, lookups, 100.0), Ratio(100.0 * statuses[4] as real, requests, 100.0),
                   Ratio(seconds, requests, maximum), p95);
    }

    /** The percentile: none without requests, else the first bin that reaches the rank. */
    method Percent95(ghost samples: seq<Sample>) returns (p95: Option<real>)
      requires ValidSamples(samples) && View() == Count(samples)
      ensures p95.None? <==> samples == []
      ensures p95.Some? ==> exists bin :: Chosen(View(), bin) && p95.value == Reported(View(), bin)
      ensures p95.Some? ==> forall v :: Percentile(samples, v) ==> v <= p95.value <= maximum
    {
      hide Count;
      if requests == 0 {
        return None;
      }
      var cumulative := 0;
      BinsUpTo(samples, BINS);
      for index := 0 to BINS
        invariant cumulative == Total(histogram[..index]) < Rank(requests)
      {
        assert histogram[..index + 1][..index] == histogram[..index];
        cumulative := cumulative + histogram[index];
        if cumulative >= Rank(requests) {
          p95 := Some(Reported(View(), index));
          assert Chosen(View(), index);
          forall v | Percentile(samples, v) ensures v <= p95.value <= maximum {
            PercentileBracketed(samples, index, v);
          }
          return;
        }
      }
      assert false;
    }
  }
}

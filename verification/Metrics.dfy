/** Windowed traffic metrics: ten-second buckets of per-domain counters over fifteen minutes. */
module Metrics {
  import opened Sets
  import opened Text
  import opened Counters

  const STEP := 10
  const WINDOW := 900
  const MAX_DOMAINS := 128
  const MAX_EVENTS := 30
  const OTHER := "__other__"

  /** A dictionary from names to counters, in insertion order. */
  type Bucket = seq<(string, Tally)>

  datatype Packet = Packet(stamp: real, seconds: real, status: int, size: int, host: string, route: string,
                           cache: string, limit: string)

  datatype Event = Event(time: real, host: string, route: string, status: int, limited: bool)

  datatype Point = Point(time: int, requests: nat, errors: nat)

  datatype Snapshot = Snapshot(total: Tally, series: seq<Point>, domains: Bucket, rps: Option<real>)

  /** `int`: truncation toward zero. */
  function Trunc(x: real): int {
    if x >= 0.0 then x.Floor else -((-x).Floor)
  }

  /** `int(stamp) // STEP * STEP`; the divisor is positive, so Python's floor division is Dafny's. */
  function KeyOf(stamp: real): int {
    Trunc(stamp) / STEP * STEP
  }

  /** The first of the 90 bucket keys kept at a time, the current partial bucket included. */
  function Cutoff(now: real): int {
    (Trunc(now) / STEP - WINDOW / STEP + 1) * STEP
  }

  /** The fields of a text between slashes. */
  function Fields(s: string): (r: seq<string>)
    ensures r != []
  {
    if s == "" then [""]
    else
      var rest := Fields(s[1..]);
      if s[0] == '/' then [""] + rest else [[s[0]] + rest[0]] + rest[1..]
  }

  /** One of the limits turned the request away. */
  predicate Rejected(limit: string) {
    "REJECTED" in Fields(limit)
  }

  /** What nginx writes for two limits is read back limit by limit. */
  lemma {:induction false} LimitFields(a: string, b: string)
    requires '/' !in a && '/' !in b
    ensures Fields(a + "/" + b) == [a, b]
    ensures Rejected(a + "/" + b) <==> a == "REJECTED" || b == "REJECTED"
  {
    if a == "" {
      PlainField(b);
      assert (a + "/" + b)[1..] == b;
    } else {
      LimitFields(a[1..], b);
      assert (a + "/" + b)[1..] == a[1..] + "/" + b;
      assert [a[0]] + a[1..] == a;
    }
  }

  lemma {:induction false} PlainField(s: string)
    requires '/' !in s
    ensures Fields(s) == [s]
  {
    if s != "" {
      PlainField(s[1..]);
      assert [s[0]] + s[1..] == s;
    }
  }

  predicate Accepted(p: Packet, now: real) {
    && 0.0 <= p.seconds <= 31536000.0 && 100 <= p.status <= 599 && 0 <= p.size <= 0x8000_0000_0000_0000
    && 0 < |p.host| <= 253 && |p.route| <= 200 && |p.cache| <= 20 && |p.limit| <= 50
    && now - WINDOW as real <= p.stamp <= now + STEP as real
  }

  function SampleOf(p: Packet): Sample {
    Sample(p.status, p.size, p.seconds, p.cache, Rejected(p.limit))
  }

  // ---- Buckets ----

  predicate ShapedBucket(b: Bucket) {
    forall i :: 0 <= i < |b| ==> Shaped(b[i].1) && b[i].1.maximum >= 0.0
  }

  predicate DistinctNames(b: Bucket) {
    forall i, j :: 0 <= i < j < |b| ==> b[i].0 != b[j].0
  }

  predicate Has(b: Bucket, name: string) {
    exists i :: 0 <= i < |b| && b[i].0 == name
  }

  /** At most 128 names, and the catch-all one. */
  predicate Bounded(b: Bucket) {
    |b| <= MAX_DOMAINS || (|b| == MAX_DOMAINS + 1 && Has(b, OTHER))
  }

  function Place(b: Bucket, name: string): (i: nat)
    ensures i <= |b| && (i < |b| ==> b[i].0 == name) && (forall j :: 0 <= j < i ==> b[j].0 != name)
  {
    if b == [] || b[0].0 == name then 0 else 1 + Place(b[1..], name)
  }

  /** A new name takes a free place; once there is none it is counted under the catch-all name. */
  function Renamed(b: Bucket, host: string): string {
    if Place(b, host) == |b| && |b| >= MAX_DOMAINS then OTHER else host
  }

  /** `setdefault(name, Counter())` and a merge into it. */
  function Put(b: Bucket, name: string, t: Tally): Bucket
    requires ShapedBucket(b) && Shaped(t)
  {
    var i := Place(b, name);
    if i < |b| then b[i := (name, Merged(b[i].1, t))] else b + [(name, t)]
  }

  function Gather(b: Bucket, host: string, t: Tally): Bucket
    requires ShapedBucket(b) && Shaped(t)
  {
    Put(b, Renamed(b, host), t)
  }

  /** Everything counted in a bucket. */
  function Sum(b: Bucket): (t: Tally)
    requires ShapedBucket(b)
    ensures Shaped(t) && t.maximum >= 0.0
  {
    if b == [] then Zero() else Merged(Sum(b[..|b| - 1]), b[|b| - 1].1)
  }

  lemma {:induction false} SumUpdate(b: Bucket, i: nat, t: Tally)
    requires ShapedBucket(b) && i < |b| && Shaped(t) && t.maximum >= 0.0
    ensures var n := (b[i].0, Merged(b[i].1, t));
            ShapedBucket(b[i := n]) && Sum(b[i := n]) == Merged(Sum(b), t)
  {
    hide Merged;
    var n := (b[i].0, Merged(b[i].1, t));
    var c := b[i := n];
    var last := |b| - 1;
    if i == last {
      assert c[..last] == b[..last];
      MergedOrder(Sum(b[..last]), b[last].1, t);
    } else {
      SumUpdate(b[..last], i, t);
      assert c[..last] == b[..last][i := n];
      MergedOrder(Sum(b[..last]), t, b[last].1);
      MergedOrder(Sum(b[..last]), b[last].1, t);
      MergedOrder(t, b[last].1, b[last].1);
    }
  }

  /** Gathering a counter into a bucket adds exactly its counts, keeps the names apart and within the limit. */
  lemma GatherSum(b: Bucket, host: string, t: Tally)
    requires ShapedBucket(b) && Shaped(t) && t.maximum >= 0.0
    ensures ShapedBucket(Gather(b, host, t)) && Sum(Gather(b, host, t)) == Merged(Sum(b), t)
    ensures DistinctNames(b) ==> DistinctNames(Gather(b, host, t))
    ensures Bounded(b) ==> Bounded(Gather(b, host, t))
  {
    hide Merged;
    var name := Renamed(b, host);
    var i := Place(b, name);
    if i < |b| {
      SumUpdate(b, i, t);
      if |b| == MAX_DOMAINS + 1 && Has(b, OTHER) {
        var j :| 0 <= j < |b| && b[j].0 == OTHER;
        assert Gather(b, host, t)[j].0 == OTHER;
      }
    } else {
      var c := b + [(name, t)];
      assert c[..|c| - 1] == b;
      if |b| >= MAX_DOMAINS {
        assert name == OTHER;
        assert c[|b|].0 == OTHER;
      }
    }
  }

  /** Gathering, written out: a host that is known, or for which there is a place among 128, is counted under its own name,
      any other under the catch-all; a name that is there grows, and another is appended. */
  lemma GatherExactly(b: Bucket, host: string, t: Tally)
    requires ShapedBucket(b) && Shaped(t) && DistinctNames(b)
    ensures var name := if (exists i :: 0 <= i < |b| && b[i].0 == host) || |b| < 128 then host else "__other__";
            var c := Gather(b, host, t);
            && ((forall i :: 0 <= i < |b| ==> b[i].0 != name) ==> c == b + [(name, t)])
            && forall i :: 0 <= i < |b| && b[i].0 == name ==> c == b[i := (name, Merged(b[i].1, t))]
  {
    hide Merged;
    var p := Place(b, host);
    var q := Place(b, OTHER);
  }

  // ---- The log of what was accepted ----

  datatype Logged = Logged(key: int, sample: Sample)

  /** The logged samples whose bucket key lies in a range, as a counter would see them. */
  function Window(log: seq<Logged>, first: int, last: int): (r: seq<Sample>)
  {
    if log == [] then []
    else
      var rest, e := Window(log[..|log| - 1], first, last), log[|log| - 1];
      if first <= e.key <= last then rest + [e.sample] else rest
  }

  predicate ValidLog(log: seq<Logged>) {
    forall i :: 0 <= i < |log| ==> ValidSample(log[i].sample)
  }

  lemma {:induction false} WindowValid(log: seq<Logged>, first: int, last: int)
    requires ValidLog(log)
    ensures ValidSamples(Window(log, first, last))
  {
    if log != [] {
      WindowValid(log[..|log| - 1], first, last);
    }
  }

  /** What the log holds between two bucket keys. */
  function Counted(log: seq<Logged>, first: int, last: int): (t: Tally)
    requires ValidLog(log)
    ensures Shaped(t) && t.maximum >= 0.0
  {
    WindowValid(log, first, last);
    Count(Window(log, first, last))
  }

  lemma CountedAppend(log: seq<Logged>, e: Logged, first: int, last: int)
    requires ValidLog(log) && ValidSample(e.sample)
    ensures ValidLog(log + [e])
    ensures Counted(log + [e], first, last)
            == if first <= e.key <= last then Merged(Counted(log, first, last), One(e.sample)) else Counted(log, first, last)
  {
    hide Merged, One;
    assert (log + [e])[..|log + [e]| - 1] == log;
    WindowValid(log, first, last);
    var w := Window(log, first, last);
    assert (w + [e.sample])[..|w + [e.sample]| - 1] == w;
  }

  /** Windows add up. */
  lemma {:induction false} CountedSplit(log: seq<Logged>, first: int, mid: int, last: int)
    requires ValidLog(log) && first <= mid + 1 && mid <= last
    ensures Counted(log, first, last) == Merged(Counted(log, first, mid), Counted(log, mid + 1, last))
  {
    hide Merged, One, Count;
    if log == [] {
      CountedEmpty(first, last);
      CountedEmpty(first, mid);
      CountedEmpty(mid + 1, last);
      MergedZero(Zero());
    } else {
      var rest, e := log[..|log| - 1], log[|log| - 1];
      assert log == rest + [e];
      CountedSplit(rest, first, mid, last);
      CountedAppend(rest, e, first, last);
      CountedAppend(rest, e, first, mid);
      CountedAppend(rest, e, mid + 1, last);
      OneShaped(e.sample);
      var a, b, c := Counted(rest, first, mid), Counted(rest, mid + 1, last), One(e.sample);
      MergedOrder(a, b, c);
      MergedOrder(a, c, b);
      MergedOrder(b, c, a);
    }
  }

  lemma CountedEmpty(first: int, last: int)
    ensures Counted([], first, last) == Zero()
  {
  }

  lemma {:induction false} WindowNone(log: seq<Logged>, first: int, last: int)
    requires ValidLog(log) && forall i :: 0 <= i < |log| ==> !(first <= log[i].key <= last)
    ensures Counted(log, first, last) == Zero()
  {
    if log == [] {
      CountedEmpty(first, last);
    } else {
      WindowNone(log[..|log| - 1], first, last);
    }
  }

  // ---- Keys ----

  lemma KeyBounds(stamp: real, now: real)
    requires now >= 0.0 && now - WINDOW as real <= stamp <= now + STEP as real
    ensures Cutoff(now) - STEP <= KeyOf(stamp) <= KeyOf(now) + STEP
    ensures KeyOf(stamp) % STEP == 0
  {
    var s, n := Trunc(stamp), Trunc(now);
    assert n - WINDOW <= s;
    assert stamp >= 0.0 ==> s <= n + STEP;
    assert s / STEP * STEP % STEP == 0;
  }

  /** The bucket of a time is the ten seconds it lies in; ninety of them are kept, the current one included. */
  lemma KeyExactly(stamp: real)
    requires stamp >= 0.0
    ensures KeyOf(stamp) % 10 == 0 && KeyOf(stamp) as real <= stamp < KeyOf(stamp) as real + 10.0
    ensures Cutoff(stamp) == KeyOf(stamp) - 890
  {
    assert stamp.Floor / 10 * 10 % 10 == 0;
    assert stamp.Floor / 10 * 10 <= stamp.Floor < stamp.Floor / 10 * 10 + 10;
  }

  lemma CutoffGrows(before: real, now: real)
    requires 0.0 <= before <= now
    ensures Cutoff(before) <= Cutoff(now) && KeyOf(before) <= KeyOf(now)
  {
  }

  /** The keys a table may hold: multiples of ten around the window. */
  predicate KeyInRange(k: int, now: real) {
    k % STEP == 0 && Cutoff(now) - STEP <= k <= KeyOf(now) + STEP
  }

  /** At most 92 keys fit that range. */
  lemma KeysBounded(keys: set<int>, now: real)
    requires now >= 0.0 && forall k :: k in keys ==> KeyInRange(k, now)
    ensures |keys| <= 92
  {
    var low := Cutoff(now) / STEP - 1;
    var all := set i | low <= i < low + 92 :: i * STEP;
    forall k | k in keys ensures k in all {
      assert k == (k / STEP) * STEP;
      assert low <= k / STEP < low + 92;
    }
    assert keys <= all;
    SubsetSize(keys, all);
    ImageSize(low, 92);
  }

  lemma {:induction false} ImageSize(low: int, n: nat)
    ensures |set i | low <= i < low + n :: i * STEP| <= n
  {
    if n > 0 {
      ImageSize(low, n - 1);
      var smaller := set i | low <= i < low + n - 1 :: i * STEP;
      var all := set i | low <= i < low + n :: i * STEP;
      assert all == smaller + {(low + n - 1) * STEP};
    } else {
      assert (set i | low <= i < low + n :: i * STEP) == {};
    }
  }

  /** Events leave from the front while they are older than the window. */
  function Unexpired(events: seq<Event>, cutoff: int): (r: seq<Event>)
    ensures |r| <= |events|
  {
    if events != [] && events[0].time < cutoff as real then Unexpired(events[1..], cutoff) else events
  }

  /** A deque of at most 30 events: a new one pushes the oldest out. */
  function Pushed(events: seq<Event>, e: Event): (r: seq<Event>)
    ensures 0 < |r| <= |events| + 1 && (|events| <= MAX_EVENTS ==> |r| <= MAX_EVENTS) && r[|r| - 1] == e
  {
    (if |events| >= MAX_EVENTS then events[|events| - MAX_EVENTS + 1..] else events) + [e]
  }

  /** The events, written out: those in front that are older than the window go, and of more than thirty the oldest. */
  lemma {:induction false} UnexpiredExactly(events: seq<Event>, cutoff: int) returns (n: nat)
    ensures n <= |events| && Unexpired(events, cutoff) == events[n..]
    ensures forall i :: 0 <= i < n ==> events[i].time < cutoff as real
    ensures n < |events| ==> events[n].time >= cutoff as real
  {
    n := 0;
    if events != [] && events[0].time < cutoff as real {
      var m := UnexpiredExactly(events[1..], cutoff);
      n := m + 1;
      assert events[1..][m..] == events[n..];
      assert forall i :: 0 < i < n ==> events[i] == events[1..][i - 1];
    }
  }

  lemma PushedExactly(events: seq<Event>, e: Event)
    ensures Pushed(events, e) == (if |events| < 30 then events else events[|events| - 29..]) + [e]
  {
    assert |events| >= 30 ==> events[|events| - 30 + 1..] == events[|events| - 29..];
  }

  function BucketAt(buckets: map<int, Bucket>, key: int): Bucket {
    if key in buckets then buckets[key] else []
  }

  /** A bucket has distinct names within the limit, a key near the window, and, inside the window, exactly what the
      log holds for its key. */
  ghost predicate BucketHolds(buckets: map<int, Bucket>, log: seq<Logged>, clock: real, key: int)
    requires ValidLog(log)
  {
    var b := BucketAt(buckets, key);
    && ShapedBucket(b) && DistinctNames(b) && Bounded(b)
    && (key in buckets ==> KeyInRange(key, clock))
    && (key >= Cutoff(clock) ==> Sum(b) == Counted(log, key, key))
  }

  function Kept(buckets: map<int, Bucket>, cutoff: int): map<int, Bucket> {
    map k | k in buckets && k >= cutoff :: buckets[k]
  }

  lemma PruneKeeps(buckets: map<int, Bucket>, log: seq<Logged>, clock: real, now: real, key: int)
    requires ValidLog(log) && 0.0 <= clock <= now && BucketHolds(buckets, log, clock, key)
    ensures BucketHolds(Kept(buckets, Cutoff(now)), log, now, key)
  {
    hide Counted, Sum, Cutoff;
    CutoffGrows(clock, now);
    EmptyBucket();
  }

  lemma NextColumn(stamp: int)
    requires stamp % STEP == 0
    ensures (stamp + STEP) % STEP == 0
  {
  }

  class Metrics {
    var started: real
    var buckets: map<int, Bucket>
    var events: seq<Event>
    var lastRequest: Option<real>
    ghost var log: seq<Logged>
    ghost var clock: real

    /** The bucket of a key, as `get(stamp, {})`. */
    function At(key: int): Bucket
      reads `buckets
    {
      BucketAt(buckets, key)
    }

    ghost predicate KeyHolds(key: int)
      reads `buckets, `log, `clock
      requires ValidLog(log)
    {
      BucketHolds(buckets, log, clock, key)
    }

    ghost predicate Valid()
      reads this
    {
      && 0.0 <= started <= clock && ValidLog(log) && |events| <= MAX_EVENTS
      && (forall i :: 0 <= i < |log| ==> log[i].key % STEP == 0)
      && (forall key :: KeyHolds(key))
    }

    constructor (now: real)
      requires now >= 0.0
      ensures Valid() && log == [] && started == now && clock == now
    {
      started, buckets, events, lastRequest, log, clock := now, map[], [], None, [], now;
      new;
      forall key ensures KeyHolds(key) {
        CountedEmpty(key, key);
      }
    }

    /** Never more than 92 buckets of at most 129 names, nor more than 30 events. */
    lemma Space()
      requires Valid()
      ensures |buckets| <= 92 && |events| <= MAX_EVENTS
      ensures forall key :: key in buckets ==> |buckets[key]| <= MAX_DOMAINS + 1 && DistinctNames(buckets[key])
    {
      forall key | key in buckets ensures KeyInRange(key, clock) && |buckets[key]| <= MAX_DOMAINS + 1 && DistinctNames(buckets[key]) {
        assert KeyHolds(key);
      }
      KeysBounded(buckets.Keys, clock);
      assert |buckets| == |buckets.Keys|;
    }

    method PruneBuckets(cutoff: int)
      modifies `buckets
      ensures buckets == Kept(old(buckets), cutoff)
    {
      var todo := buckets.Keys;
      while exists key :: key in todo
        invariant todo <= old(buckets).Keys
        invariant buckets == map k | k in old(buckets) && (k in todo || k >= cutoff) :: old(buckets)[k]
        decreases |todo|
      {
        var key :| key in todo;
        if key < cutoff {
          buckets := buckets - {key};
        }
        todo := todo - {key};
      }
    }

    method PruneEvents(cutoff: int)
      modifies `events
      ensures events == Unexpired(old(events), cutoff)
    {
      while events != [] && events[0].time < cutoff as real
        invariant Unexpired(old(events), cutoff) == Unexpired(events, cutoff)
        decreases |events|
      {
        events := events[1..];
      }
    }

    method Prune(now: real) returns (cutoff: int)
      requires Valid() && clock <= now
      modifies `buckets, `events, `clock
      ensures Valid() && clock == now && cutoff == Cutoff(now)
      ensures buckets == Kept(old(buckets), cutoff)
      ensures events == Unexpired(old(events), cutoff)
    {
      hide BucketHolds, Unexpired, Cutoff, Kept;
      cutoff := Cutoff(now);
      ghost var before, past := buckets, clock;
      PruneBuckets(cutoff);
      PruneEvents(cutoff);
      clock := now;
      forall key ensures KeyHolds(key) {
        assert old(KeyHolds(key));
        PruneKeeps(before, log, past, now, key);
      }
    }

    /** `record`: an unacceptable packet changes nothing; an accepted one is counted once, in the bucket of its time. */
    method Record(p: Packet, now: real) returns (accepted: bool)
      requires Valid() && clock <= now
      modifies this
      ensures Valid() && started == old(started)
      ensures accepted == Accepted(p, now)
      ensures accepted <==> && 0.0 <= p.seconds <= 31536000.0 && 100 <= p.status <= 599 && 0 <= p.size <= 9223372036854775808
                            && 1 <= |p.host| <= 253 && |p.route| <= 200 && |p.cache| <= 20 && |p.limit| <= 50
                            && now - 900.0 <= p.stamp <= now + 10.0
      ensures accepted ==> log == old(log) + [Logged(KeyOf(p.stamp), Sample(p.status, p.size, p.seconds, p.cache, "REJECTED" in Fields(p.limit)))]
      ensures !accepted ==> buckets == old(buckets) && events == old(events) && log == old(log) && lastRequest == old(lastRequest)
      ensures accepted ==> clock == now && log == old(log) + [Logged(KeyOf(p.stamp), SampleOf(p))]
      ensures accepted ==>
                var pruned := Kept(old(buckets), Cutoff(now));
                var bucket := BucketAt(pruned, KeyOf(p.stamp));
                ShapedBucket(bucket) && ValidSample(SampleOf(p)) && Shaped(One(SampleOf(p)))
                && buckets == pruned[KeyOf(p.stamp) := Gather(bucket, p.host, One(SampleOf(p)))]
                && var kept := Unexpired(old(events), Cutoff(now));
                   events == if p.status >= 400 then Pushed(kept, Event(p.stamp, Renamed(bucket, p.host), p.route, p.status, Rejected(p.limit)))
                             else kept
      ensures accepted ==> lastRequest == Some(if old(lastRequest).Some? && old(lastRequest).value > p.stamp then old(lastRequest).value else p.stamp)
    {
      hide Accepted, Gather, Sum, Counted, One, Unexpired, Pushed, Cutoff, KeyOf, Renamed, Kept, BucketHolds;
      accepted := Acceptable(p, now);
      if !accepted {
        return;
      }
      AcceptedValid(p, now);
      var cutoff := Prune(now);
      Observe(p);
    }

    /** An accepted packet after pruning: its bucket, the last request, and an event if it failed. */
    method Observe(p: Packet)
      requires Valid() && ValidSample(SampleOf(p)) && clock - WINDOW as real <= p.stamp <= clock + STEP as real
      modifies `buckets, `events, `lastRequest, `log
      ensures Valid() && log == old(log) + [Logged(KeyOf(p.stamp), SampleOf(p))]
      ensures var bucket := old(At(KeyOf(p.stamp)));
              ShapedBucket(bucket) && Shaped(One(SampleOf(p)))
              && buckets == old(buckets)[KeyOf(p.stamp) := Gather(bucket, p.host, One(SampleOf(p)))]
              && events == if p.status >= 400 then Pushed(old(events), Event(p.stamp, Renamed(bucket, p.host), p.route, p.status, Rejected(p.limit)))
                           else old(events)
      ensures lastRequest == Some(if old(lastRequest).Some? && old(lastRequest).value > p.stamp then old(lastRequest).value else p.stamp)
    {
      hide Gather, Sum, Counted, Window, One, Pushed, Cutoff, KeyOf, Place;
      var key := KeyOf(p.stamp);
      var bucket := At(key);
      assert KeyHolds(key);
      var host := Renamed(bucket, p.host);
      OneShaped(SampleOf(p));
      lastRequest := Some(if lastRequest.Some? && lastRequest.value > p.stamp then lastRequest.value else p.stamp);
      if p.status >= 400 {
        events := Pushed(events, Event(p.stamp, host, p.route, p.status, Rejected(p.limit)));
      }
      Enter(key, p.host, SampleOf(p), p.stamp);
    }

    method Acceptable(p: Packet, now: real) returns (ok: bool)
      ensures ok == Accepted(p, now)
      ensures ok <==> && 0.0 <= p.seconds <= 31536000.0 && 100 <= p.status <= 599 && 0 <= p.size <= 9223372036854775808
                      && 1 <= |p.host| <= 253 && |p.route| <= 200 && |p.cache| <= 20 && |p.limit| <= 50
                      && now - 900.0 <= p.stamp <= now + 10.0
    {
      ok := Accepted(p, now);
    }

    /** Counting one sample in its bucket. */
    method Enter(key: int, host: string, sample: Sample, stamp: real)
      requires Valid() && ValidSample(sample) && key == KeyOf(stamp)
      requires clock - WINDOW as real <= stamp <= clock + STEP as real
      requires ShapedBucket(At(key)) && Shaped(One(sample))
      modifies `buckets, `log
      ensures Valid() && log == old(log) + [Logged(key, sample)]
      ensures buckets == old(buckets)[key := Gather(old(At(key)), host, One(sample))]
    {
      hide Gather, Sum, Counted, Window, One;
      KeyBounds(stamp, clock);
      assert KeyHolds(key);
      OneShaped(sample);
      GatherSum(At(key), host, One(sample));
      buckets := buckets[key := Gather(At(key), host, One(sample))];
      log := log + [Logged(key, sample)];
      forall k ensures KeyHolds(k) {
        assert old(KeyHolds(k));
        CountedAppend(old(log), Logged(key, sample), k, k);
      }
    }

    /** `snapshot`: the total over the window is the sum over the domains, the sum over the series, and exactly the
        accepted samples whose bucket lies between the start of the window (or of collection) and now; and the
        series and the domains are bounded. */
    method TakeSnapshot(now: real) returns (s: Snapshot)
      requires Valid() && clock <= now
      modifies `buckets, `events, `clock
      ensures Valid() && clock == now
      ensures var first := if Cutoff(now) < KeyOf(started) then KeyOf(started) else Cutoff(now);
              && s.total == Counted(log, first, KeyOf(now))
              && SeriesFrom(s.series, first, KeyOf(now))
      ensures |s.series| <= 90
      ensures ShapedBucket(s.domains) && DistinctNames(s.domains) && Bounded(s.domains) && Sum(s.domains) == s.total
      ensures SeriesRequests(s.series) == s.total.requests && Shaped(s.total) && SeriesErrors(s.series) == s.total.statuses[4]
      ensures s.rps == Rate(s.series, now, started)
    {
      hide Counted, Sum, Merged, Gather, Bounded;
      var cutoff := Prune(now);
      var first := if cutoff < KeyOf(started) then KeyOf(started) else cutoff;
      var total, domains, series := Collect(first, KeyOf(now));
      var rps := FindRate(series, now);
      s := Snapshot(total, series, domains, rps);
    }

    /** The columns from one bucket key to another. */
    method Collect(first: int, last: int) returns (total: Tally, domains: Bucket, series: seq<Point>)
      requires Valid() && Cutoff(clock) <= first && first % STEP == 0 && last % STEP == 0
      ensures total == Counted(log, first, last) && SeriesFrom(series, first, last)
      ensures ShapedBucket(domains) && DistinctNames(domains) && Bounded(domains) && Sum(domains) == total
      ensures SeriesRequests(series) == total.requests && Shaped(total) && SeriesErrors(series) == total.statuses[4]
    {
      hide Counted, Sum, Merged, Gather, Bounded, Cutoff, KeyHolds, SeriesFrom, SeriesRequests, SeriesErrors;
      var stamp := first;
      total, domains, series := Zero(), [], [];
      EmptyWindow(log, first);
      NoSeries(first);
      EmptyBucket();
      while stamp <= last
        invariant stamp % STEP == 0 && first <= stamp && (stamp <= last + STEP || stamp == first)
        invariant Shaped(total) && total == Counted(log, first, stamp - 1)
        invariant ShapedBucket(domains) && DistinctNames(domains) && Bounded(domains) && Sum(domains) == total
        invariant SeriesFrom(series, first, stamp - STEP)
        invariant SeriesRequests(series) == total.requests && SeriesErrors(series) == total.statuses[4]
        decreases last + STEP - stamp
      {
        var point;
        domains, point := MergeBucket(domains, stamp);
        StepWindow(log, first, stamp);
        MergedFields(total, point);
        total := Merged(total, point);
        SeriesStep(series, first, Point(stamp, point.requests, point.statuses[4]));
        series := series + [Point(stamp, point.requests, point.statuses[4])];
        NextColumn(stamp);
        stamp := stamp + STEP;
      }
      CloseWindow(log, first, last, stamp - 1);
      SeriesEnd(series, first, stamp - STEP, last);
    }

    /** One column of the snapshot: every counter of a bucket goes into the column's point and into its domain. */
    method MergeBucket(start: Bucket, stamp: int) returns (domains: Bucket, point: Tally)
      requires Valid() && ShapedBucket(start) && DistinctNames(start) && Bounded(start) && Cutoff(clock) <= stamp
      ensures Shaped(point) && point == Counted(log, stamp, stamp)
      ensures ShapedBucket(domains) && DistinctNames(domains) && Bounded(domains) && Sum(domains) == Merged(Sum(start), point)
    {
      hide Gather, Counted, Merged, Bounded;
      assert KeyHolds(stamp);
      var b := At(stamp);
      domains, point := start, Zero();
      MergedZero(Sum(start));
      for i := 0 to |b|
        invariant Shaped(point) && point.maximum >= 0.0 && point == Sum(b[..i])
        invariant ShapedBucket(domains) && DistinctNames(domains) && Bounded(domains) && Sum(domains) == Merged(Sum(start), point)
      {
        assert b[..i + 1][..i] == b[..i];
        MergedOrder(Sum(start), point, b[i].1);
        GatherSum(domains, b[i].0, b[i].1);
        point := Merged(point, b[i].1);
        domains := Gather(domains, b[i].0, b[i].1);
        assert point == Sum(b[..i + 1]);
      }
      assert b[..|b|] == b;
    }

    /** The request rate of the last completed ten seconds, where they were collected. */
    method FindRate(series: seq<Point>, now: real) returns (rps: Option<real>)
      ensures rps == Rate(series, now, started)
    {
      var found, sum := false, 0;
      for i := 0 to |series|
        invariant sum == RecentSum(series[..i], now, started) && found == RecentAny(series[..i], now, started)
      {
        assert series[..i + 1][..i] == series[..i];
        if Recent(series[i], now, started) {
          found, sum := true, sum + series[i].requests;
        }
      }
      assert series[..|series|] == series;
      rps := if found then Some(sum as real / STEP as real) else None;
    }
  }

  predicate Recent(p: Point, now: real, started: real) {
    now - 20.0 < p.time as real <= now - 10.0 && p.time as real >= started
  }

  function RecentSum(series: seq<Point>, now: real, started: real): nat {
    if series == [] then 0
    else RecentSum(series[..|series| - 1], now, started) + if Recent(series[|series| - 1], now, started) then series[|series| - 1].requests else 0
  }

  predicate RecentAny(series: seq<Point>, now: real, started: real) {
    exists i :: 0 <= i < |series| && Recent(series[i], now, started)
  }

  function Rate(series: seq<Point>, now: real, started: real): Option<real> {
    if RecentAny(series, now, started) then Some(RecentSum(series, now, started) as real / STEP as real) else None
  }

  /** One point for every ten seconds from the first key to the last. */
  predicate SeriesFrom(series: seq<Point>, first: int, last: int) {
    && (forall i :: 0 <= i < |series| ==> series[i].time == first + i * STEP)
    && |series| == if last < first then 0 else (last - first) / STEP + 1
  }

  function SeriesRequests(series: seq<Point>): nat {
    if series == [] then 0 else SeriesRequests(series[..|series| - 1]) + series[|series| - 1].requests
  }

  function SeriesErrors(series: seq<Point>): nat {
    if series == [] then 0 else SeriesErrors(series[..|series| - 1]) + series[|series| - 1].errors
  }

  lemma NoSeries(first: int)
    ensures SeriesFrom([], first, first - STEP) && SeriesRequests([]) == 0 && SeriesErrors([]) == 0
  {
  }

  lemma SeriesStep(series: seq<Point>, first: int, p: Point)
    requires SeriesFrom(series, first, p.time - STEP) && first <= p.time && first % STEP == 0 && p.time % STEP == 0
    ensures SeriesFrom(series + [p], first, p.time)
    ensures SeriesRequests(series + [p]) == SeriesRequests(series) + p.requests && SeriesErrors(series + [p]) == SeriesErrors(series) + p.errors
  {
    assert (series + [p])[..|series|] == series;
  }

  lemma SeriesEnd(series: seq<Point>, first: int, end: int, last: int)
    requires SeriesFrom(series, first, end) && (end == last || (last < first && end == first - STEP))
    ensures SeriesFrom(series, first, last)
  {
  }

  /** The rate comes from a single, completed bucket, and there is one exactly if the series has that bucket. */
  lemma OneRecent(series: seq<Point>, first: int, last: int, now: real, started: real)
    requires SeriesFrom(series, first, last)
    ensures Rate(series, now, started).Some? <==>
            exists i :: 0 <= i < |series| && now - 20.0 < series[i].time as real <= now - 10.0 && started <= series[i].time as real
    ensures forall i :: 0 <= i < |series| && now - 20.0 < series[i].time as real <= now - 10.0 && started <= series[i].time as real ==>
              Rate(series, now, started) == Some(series[i].requests as real / 10.0)
  {
    assert series[..|series|] == series;
    forall i | 0 <= i < |series| && Recent(series[i], now, started) ensures RecentSum(series, now, started) == series[i].requests {
      RecentSingle(series, now, started, first, i, |series|);
    }
    hide RecentSum;
  }

  lemma {:induction false} RecentSingle(series: seq<Point>, now: real, started: real, first: int, i: nat, n: nat)
    requires n <= |series| && i < |series| && Recent(series[i], now, started)
    requires forall j :: 0 <= j < |series| ==> series[j].time == first + j * STEP
    ensures RecentSum(series[..n], now, started) == if i < n then series[i].requests else 0
  {
    if n > 0 {
      RecentSingle(series, now, started, first, i, n - 1);
      assert series[..n][..n - 1] == series[..n - 1];
      assert series[n - 1].time - series[i].time == (n - 1 - i) * STEP;
    }
  }

  lemma AcceptedValid(p: Packet, now: real)
    requires Accepted(p, now)
    ensures ValidSample(SampleOf(p)) && now - WINDOW as real <= p.stamp <= now + STEP as real
  {
  }

  lemma EmptyBucket()
    ensures Sum([]) == Zero() && Bounded([])
  {
  }

  lemma EmptyWindow(log: seq<Logged>, first: int)
    requires ValidLog(log)
    ensures Counted(log, first, first - 1) == Zero()
  {
    WindowNone(log, first, first - 1);
  }

  /** One more column of the window. */
  lemma StepWindow(log: seq<Logged>, first: int, stamp: int)
    requires ValidLog(log) && first <= stamp && stamp % STEP == 0 && forall i :: 0 <= i < |log| ==> log[i].key % STEP == 0
    ensures Counted(log, first, stamp + STEP - 1) == Merged(Counted(log, first, stamp - 1), Counted(log, stamp, stamp))
  {
    hide Counted, Merged;
    CountedSplit(log, first, stamp - 1, stamp + STEP - 1);
    CountedSplit(log, stamp, stamp, stamp + STEP - 1);
    WindowNone(log, stamp + 1, stamp + STEP - 1);
    MergedZero(Counted(log, stamp, stamp));
  }

  lemma CloseWindow(log: seq<Logged>, first: int, last: int, end: int)
    requires ValidLog(log) && first % STEP == 0 && last % STEP == 0 && forall i :: 0 <= i < |log| ==> log[i].key % STEP == 0
    requires end == last + STEP - 1 || (last < first && end == first - 1)
    ensures Counted(log, first, end) == Counted(log, first, last)
  {
    hide Counted, Merged;
    if last < first {
      WindowNone(log, first, last);
      WindowNone(log, first, end);
    } else {
      CountedSplit(log, first, last, end);
      WindowNone(log, last + 1, end);
      MergedZero(Counted(log, first, last));
    }
  }

  lemma MergedFields(a: Tally, b: Tally)
    requires Shaped(a) && Shaped(b)
    ensures Merged(a, b).requests == a.requests + b.requests && Merged(a, b).statuses[4] == a.statuses[4] + b.statuses[4]
  {
  }
}

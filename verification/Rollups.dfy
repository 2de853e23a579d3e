/** Hourly and daily rollups of raw telemetry, and the retention that deletes the raw rows. Instants
    are UTC microseconds. */
module Rollups {
  import opened Wrappers
  import opened Telemetry

  /** A row of `metric_samples`. */
  datatype Row = Row(org: Uuid, device: Uuid, metric: string, at: int, value: real)

  /** The primary key of `metric_aggregates`. */
  datatype Bucket = Bucket(org: Uuid, device: Uuid, metric: string, size: int, start: int)

  datatype Summary = Summary(count: nat, min: real, max: real, sum: real)

  const HOUR := 3_600_000_000
  const DAY := 86_400_000_000
  const RAW_DAYS := 14
  const HOURLY_DAYS := 90
  const DAILY_DAYS := 365

  predicate Supported(size: int) { size == HOUR || size == DAY }

  // --------------------------------------------------------------- arithmetic

  /** `floor(epoch / size) * size`. */
  function BucketStart(at: int, size: int): int
    requires Supported(size)
  {
    if size == HOUR then at / HOUR * HOUR else at / DAY * DAY
  }

  function BucketOf(r: Row, size: int): Bucket
    requires Supported(size)
  {
    Bucket(r.org, r.device, r.metric, size, BucketStart(r.at, size))
  }

  lemma InsideBucket(at: int, size: int)
    requires Supported(size)
    ensures BucketStart(at, size) <= at < BucketStart(at, size) + size
  {
  }

  /** A UTC midnight never falls inside a bucket. */
  lemma BucketsAreAligned(at: int, size: int, midnight: int)
    requires Supported(size) && midnight % DAY == 0
    ensures at < midnight <==> BucketStart(at, size) + size <= midnight
    ensures midnight <= at <==> midnight <= BucketStart(at, size)
  {
    InsideBucket(at, size);
    var day := midnight / DAY;
    assert midnight == DAY * day;
    if size == HOUR {
      Multiples(HOUR, at / HOUR, 24 * day);
      assert BucketStart(at, size) == HOUR * (at / HOUR) && midnight == HOUR * (24 * day);
    } else {
      Multiples(DAY, at / DAY, day);
      assert BucketStart(at, size) == DAY * (at / DAY);
    }
  }

  /** Multiples of a size are a size apart. */
  lemma Multiples(size: int, a: int, b: int)
    requires size == HOUR || size == DAY
    ensures a < b <==> size * a + size <= size * b
    ensures b <= a <==> size * b <= size * a
  {
  }

  // ------------------------------------------------------------------ queries

  /** count, min, max and sum of the values; `avg` is the sum by the count. */
  function Summarize(rows: seq<Row>): Summary {
    if rows == [] then Summary(0, 0.0, 0.0, 0.0)
    else
      var s, v := Summarize(rows[..|rows| - 1]), rows[|rows| - 1].value;
      if s.count == 0 then Summary(1, v, v, v)
      else Summary(s.count + 1, if v < s.min then v else s.min, if v > s.max then v else s.max, s.sum + v)
  }

  /** The rows of a bucket, in order. */
  function InBucket(rows: seq<Row>, b: Bucket): seq<Row>
    requires Supported(b.size)
  {
    if rows == [] then []
    else
      var some, r := InBucket(rows[..|rows| - 1], b), rows[|rows| - 1];
      if BucketOf(r, b.size) == b then some + [r] else some
  }

  /** The rows from an instant on. */
  function Keep(rows: seq<Row>, from: int): seq<Row> {
    if rows == [] then []
    else
      var some, r := Keep(rows[..|rows| - 1], from), rows[|rows| - 1];
      if r.at >= from then some + [r] else some
  }

  /** The rows up to a cutoff. */
  function UpTo(rows: seq<Row>, cutoff: int): seq<Row> {
    if rows == [] then []
    else
      var some, r := UpTo(rows[..|rows| - 1], cutoff), rows[|rows| - 1];
      if r.at <= cutoff then some + [r] else some
  }

  /** The upsert of `run_downsampling`: every bucket with a row up to the cutoff is computed anew. */
  function Downsample(aggregates: map<Bucket, Summary>, rows: seq<Row>, org: Uuid, size: int, cutoff: int)
    : map<Bucket, Summary>
    requires Supported(size)
  {
    var buckets := set r | r in rows && r.org == org && r.at <= cutoff :: BucketOf(r, size);
    aggregates + map b | b in buckets && b.size == size :: Summarize(InBucket(UpTo(rows, cutoff), b))
  }

  /** Aggregates older than their own retention. */
  predicate Outdated(b: Bucket, today: int) {
    (b.size == HOUR && b.start < (today - HOURLY_DAYS) * DAY) || (b.size == DAY && b.start < (today - DAILY_DAYS) * DAY)
  }

  function Boundary(today: int): int { (today - RAW_DAYS) * DAY }

  // ------------------------------------------------------------ filter lemmas

  lemma {:induction false} InBucketConcat(a: seq<Row>, c: seq<Row>, b: Bucket)
    requires Supported(b.size)
    ensures InBucket(a + c, b) == InBucket(a, b) + InBucket(c, b)
  {
    if c == [] {
      assert a + c == a;
    } else {
      var t := c[..|c| - 1];
      InBucketConcat(a, t, b);
      assert (a + c)[..|a + c| - 1] == a + t;
    }
  }

  lemma {:induction false} InBucketEmpty(rows: seq<Row>, b: Bucket)
    requires Supported(b.size) && forall r :: r in rows ==> BucketOf(r, b.size) != b
    ensures InBucket(rows, b) == []
  {
    if rows != [] {
      InBucketEmpty(rows[..|rows| - 1], b);
    }
  }

  lemma {:induction false} InBucketMembers(rows: seq<Row>, b: Bucket)
    requires Supported(b.size)
    ensures forall r :: r in InBucket(rows, b) <==> r in rows && BucketOf(r, b.size) == b
  {
    if rows != [] {
      InBucketMembers(rows[..|rows| - 1], b);
      assert forall r :: r in rows <==> r in rows[..|rows| - 1] || r == rows[|rows| - 1];
    }
  }

  lemma WithinBucket(r: Row, b: Bucket)
    requires Supported(b.size)
    ensures BucketOf(r, b.size) == b ==> b.start <= r.at < b.start + b.size && b.start == BucketStart(b.start, b.size)
  {
    InsideBucket(r.at, b.size);
    assert BucketStart(BucketStart(r.at, b.size), b.size) == BucketStart(r.at, b.size);
  }

  /** A UTC midnight has a whole bucket on one side. */
  lemma BucketSide(r: Row, b: Bucket, midnight: int)
    requires Supported(b.size) && midnight % DAY == 0 && BucketOf(r, b.size) == b
    ensures r.at >= midnight <==> b.start >= midnight
    ensures r.at < midnight <==> b.start + b.size <= midnight
  {
    BucketsAreAligned(r.at, b.size, midnight);
  }

  /** The rows of a bucket from a midnight on: all of them or none. */
  lemma {:induction false} KeepBucket(rows: seq<Row>, b: Bucket, midnight: int)
    requires Supported(b.size) && midnight % DAY == 0
    ensures InBucket(Keep(rows, midnight), b) == if b.start >= midnight then InBucket(rows, b) else []
  {
    if rows != [] {
      var t, r := rows[..|rows| - 1], rows[|rows| - 1];
      assert rows == t + [r];
      hide BucketOf, BucketStart, Keep, InBucket, Supported;
      KeepBucket(t, b, midnight);
      if BucketOf(r, b.size) == b { BucketSide(r, b, midnight); }
      KeepAppend(t, r, midnight);
      InBucketAppend(t, r, b);
      if r.at >= midnight { InBucketAppend(Keep(t, midnight), r, b); }
    }
  }

  /** A bucket up to a cutoff: the two filters commute. */
  lemma {:induction false} UpToBucket(rows: seq<Row>, b: Bucket, cutoff: int)
    requires Supported(b.size)
    ensures InBucket(UpTo(rows, cutoff), b) == UpTo(InBucket(rows, b), cutoff)
  {
    if rows != [] {
      var t, r := rows[..|rows| - 1], rows[|rows| - 1];
      assert rows == t + [r];
      hide BucketOf, UpTo, InBucket, Supported;
      UpToBucket(t, b, cutoff);
      UpToAppend(t, r, cutoff);
      InBucketAppend(t, r, b);
      UpToAppend(InBucket(t, b), r, cutoff);
      if r.at <= cutoff { InBucketAppend(UpTo(t, cutoff), r, b); }
    }
  }

  /** How many rows a cutoff lets through: no more for an earlier cutoff, and all only if all are early enough. */
  lemma {:induction false} UpToLength(rows: seq<Row>, cutoff: int, later: int)
    requires cutoff <= later
    ensures |UpTo(rows, cutoff)| <= |UpTo(rows, later)| <= |rows|
    ensures |UpTo(rows, cutoff)| == |rows| ==> UpTo(rows, cutoff) == rows && forall r :: r in rows ==> r.at <= cutoff
    ensures (forall r :: r in rows ==> r.at <= cutoff) ==> UpTo(rows, cutoff) == rows
  {
    if rows != [] {
      var t, r := rows[..|rows| - 1], rows[|rows| - 1];
      assert rows == t + [r] && r in rows;
      UpToLength(t, cutoff, later);
      hide UpTo;
      UpToAppend(t, r, cutoff);
      UpToAppend(t, r, later);
    }
  }

  lemma {:induction false} UpToConcat(a: seq<Row>, c: seq<Row>, cutoff: int)
    ensures UpTo(a + c, cutoff) == UpTo(a, cutoff) + UpTo(c, cutoff)
  {
    if c == [] {
      assert a + c == a;
    } else {
      var t := c[..|c| - 1];
      UpToConcat(a, t, cutoff);
      assert (a + c)[..|a + c| - 1] == a + t;
    }
  }

  lemma KeepAppend(t: seq<Row>, r: Row, from: int)
    ensures Keep(t + [r], from) == if r.at >= from then Keep(t, from) + [r] else Keep(t, from)
  {
    assert (t + [r])[..|t|] == t;
  }

  lemma UpToAppend(t: seq<Row>, r: Row, cutoff: int)
    ensures UpTo(t + [r], cutoff) == if r.at <= cutoff then UpTo(t, cutoff) + [r] else UpTo(t, cutoff)
  {
    assert (t + [r])[..|t|] == t;
  }

  lemma InBucketAppend(t: seq<Row>, r: Row, b: Bucket)
    requires Supported(b.size)
    ensures InBucket(t + [r], b) == if BucketOf(r, b.size) == b then InBucket(t, b) + [r] else InBucket(t, b)
  {
    assert (t + [r])[..|t|] == t;
  }

  lemma {:induction false} KeepMembers(rows: seq<Row>, from: int)
    ensures forall r :: r in Keep(rows, from) <==> r in rows && r.at >= from
  {
    if rows != [] {
      KeepMembers(rows[..|rows| - 1], from);
      assert forall r :: r in rows <==> r in rows[..|rows| - 1] || r == rows[|rows| - 1];
    }
  }

  lemma {:induction false} UpToMembers(rows: seq<Row>, cutoff: int)
    ensures forall r :: r in UpTo(rows, cutoff) <==> r in rows && r.at <= cutoff
  {
    if rows != [] {
      UpToMembers(rows[..|rows| - 1], cutoff);
      assert forall r :: r in rows <==> r in rows[..|rows| - 1] || r == rows[|rows| - 1];
    }
  }

  /** A summary counts its rows, and its extremes are values of rows. */
  lemma {:induction false} SummaryMeaning(rows: seq<Row>)
    ensures Summarize(rows).count == |rows|
    ensures forall r :: r in rows ==> Summarize(rows).min <= r.value <= Summarize(rows).max
    ensures rows != [] ==> (exists r :: r in rows && r.value == Summarize(rows).min)
                           && (exists r :: r in rows && r.value == Summarize(rows).max)
  {
    if rows != [] {
      var t, last := rows[..|rows| - 1], rows[|rows| - 1];
      SummaryMeaning(t);
      assert forall r :: r in rows <==> r in t || r == last;
    }
  }

  /** Two summaries into one. */
  function Joined(s: Summary, t: Summary): Summary {
    if s.count == 0 then t
    else if t.count == 0 then s
    else Summary(s.count + t.count, if t.min < s.min then t.min else s.min, if t.max > s.max then t.max else s.max, s.sum + t.sum)
  }

  lemma JoinedTwice(s: Summary, t: Summary, u: Summary)
    ensures Joined(s, Joined(t, u)) == Joined(Joined(s, t), u)
    ensures s.count > 0 ==> Joined(s, t) == Joined(t, s)
  {
  }

  lemma SummaryAppend(rows: seq<Row>, r: Row)
    ensures Summarize(rows + [r]) == Joined(Summarize(rows), Summary(1, r.value, r.value, r.value))
    ensures Summarize([]) == Summary(0, 0.0, 0.0, 0.0) && (Summarize(rows).count == 0 <==> rows == [])
  {
    assert (rows + [r])[..|rows|] == rows;
    SummaryMeaning(rows);
  }

  lemma {:induction false} SummaryJoined(a: seq<Row>, c: seq<Row>)
    ensures Summarize(a + c) == Joined(Summarize(a), Summarize(c))
  {
    if c == [] {
      assert a + c == a;
      SummaryMeaning(a);
    } else {
      var t, r := c[..|c| - 1], c[|c| - 1];
      assert a + c == a + t + [r] && c == t + [r];
      hide Summarize, Joined;
      SummaryJoined(a, t);
      SummaryAppend(a + t, r);
      SummaryAppend(t, r);
      JoinedTwice(Summarize(a), Summarize(t), Summary(1, r.value, r.value, r.value));
    }
  }

  /** A row's summary, and that of two batches of rows together: counts and sums add up, the extremes are the outer ones. */
  lemma SummaryConcat(a: seq<Row>, c: seq<Row>, r: Row)
    requires a != [] && c != []
    ensures Summarize([r]) == Summary(1, r.value, r.value, r.value)
    ensures var s, t, all := Summarize(a), Summarize(c), Summarize(a + c);
            && all.count == s.count + t.count && all.sum == s.sum + t.sum
            && (all.min == s.min || all.min == t.min) && all.min <= s.min && all.min <= t.min
            && (all.max == s.max || all.max == t.max) && all.max >= s.max && all.max >= t.max
  {
    assert [] + [r] == [r];
    SummaryAppend([], r);
    SummaryAppend(a, r);
    SummaryAppend(c, r);
    SummaryJoined(a, c);
    hide Summarize;
  }

  /** The order of the rows does not matter. */
  lemma {:induction false} SummaryOfMultiset(a: seq<Row>, c: seq<Row>)
    requires multiset(a) == multiset(c)
    ensures Summarize(a) == Summarize(c)
    decreases |a|
  {
    assert |multiset(a)| == |a| && |multiset(c)| == |c|;
    if a != [] {
      var t, r := a[..|a| - 1], a[|a| - 1];
      assert a == t + [r] && a[|a| - 1] in multiset(a);
      var i :| 0 <= i < |c| && c[i] == r;
      var x, y := c[..i], c[i + 1..];
      assert c == x + [r] + y;
      hide Summarize, Joined;
      Cancelled(t, r, x, y);
      SummaryOfMultiset(t, x + y);
      SummaryAppend(t, r);
      MovedLast(x, r, y);
    }
  }

  lemma Cancelled(t: seq<Row>, r: Row, x: seq<Row>, y: seq<Row>)
    requires multiset(t + [r]) == multiset(x + [r] + y)
    ensures multiset(t) == multiset(x + y)
  {
    var a, c := multiset(t), multiset(x + y);
    assert multiset(t + [r]) == a + multiset{r};
    assert multiset(x + [r] + y) == c + multiset{r};
    forall q ensures a[q] == c[q] {
      assert (a + multiset{r})[q] == (c + multiset{r})[q];
    }
  }

  lemma MovedLast(x: seq<Row>, r: Row, y: seq<Row>)
    ensures Summarize(x + [r] + y) == Joined(Summarize(x + y), Summary(1, r.value, r.value, r.value))
  {
    var one := Summary(1, r.value, r.value, r.value);
    hide Summarize, Joined;
    SummaryJoined(x + [r], y);
    SummaryAppend(x, r);
    SummaryJoined(x, y);
    JoinedTwice(Summarize(x), one, Summarize(y));
    JoinedTwice(one, Summarize(y), one);
    JoinedTwice(Summarize(x), Summarize(y), one);
  }

  predicate MeanBetween(s: Summary) {
    s.count as real * s.min <= s.sum <= s.count as real * s.max
  }

  /** The average is between the extremes. */
  lemma {:induction false} SummaryMean(rows: seq<Row>)
    ensures MeanBetween(Summarize(rows))
  {
    if rows == [] {
      assert MeanBetween(Summary(0, 0.0, 0.0, 0.0));
    } else {
      var t, r := rows[..|rows| - 1], rows[|rows| - 1];
      assert rows == t + [r];
      hide *;
      SummaryMean(t);
      SummaryAppend(t, r);
      JoinedMean(Summarize(t), r.value);
    }
  }

  lemma JoinedMean(s: Summary, v: real)
    requires MeanBetween(s)
    ensures MeanBetween(Joined(s, Summary(1, v, v, v)))
  {
    if s.count > 0 {
      var all := Joined(s, Summary(1, v, v, v));
      assert all.count as real == s.count as real + 1.0;
      MeanStep(s.count as real, s.min, s.max, s.sum, all.min, all.max, v);
    }
  }

  lemma MeanStep(n: real, min: real, max: real, sum: real, low: real, high: real, v: real)
    requires n >= 0.0 && n * min <= sum <= n * max
    requires n == 0.0 || (low <= min && max <= high)
    requires low <= v <= high
    ensures (n + 1.0) * low <= sum + v <= (n + 1.0) * high
  {
    if n > 0.0 {
      assert n * low <= n * min && n * max <= n * high;
    }
  }

  /** How long raw rows, hourly and daily aggregates are kept, in days. */
  lemma RetentionInDays(at: int, b: Bucket, today: int)
    requires Supported(b.size)
    ensures at < Boundary(today) <==> today - at / DAY > 14
    ensures Outdated(b, today) <==> today - b.start / DAY > if b.size == HOUR then 90 else 365
  {
    var day, start := at / DAY, b.start / DAY;
    assert at == DAY * day + at % DAY && b.start == DAY * start + b.start % DAY;
  }

  /** What an upsert leaves alone, and what it computes. */
  lemma DownsampleEffect(aggregates: map<Bucket, Summary>, rows: seq<Row>, org: Uuid, size: int, cutoff: int, b: Bucket)
    requires Supported(size) && Supported(b.size)
    ensures var after := Downsample(aggregates, rows, org, size, cutoff);
            if b.org == org && b.size == size && InBucket(UpTo(rows, cutoff), b) != [] then
              b in after && after[b] == Summarize(InBucket(UpTo(rows, cutoff), b))
            else (b in after <==> b in aggregates) && (b in aggregates ==> after[b] == aggregates[b])
  {
    InBucketMembers(UpTo(rows, cutoff), b);
    UpToMembers(rows, cutoff);
    var some := InBucket(UpTo(rows, cutoff), b);
    if some != [] {
      assert some[0] in some;
    }
    hide BucketStart, Summarize, InBucket, UpTo;
  }
}

/** The fixed-window limit on metric ingestion, kept in Redis by a Lua script. */
module RateLimit {
  import opened Wrappers

  const LIMIT := 2
  const WINDOW := 1_000

  /** The counter under a key, and the instant its expiry is set for, in milliseconds. */
  datatype Counter = Counter(count: nat, expires: int)

  /** When the script runs. At the very instant of expiry `edge` decides whether Redis still has the key. */
  datatype Tick = Tick(time: int, edge: bool)

  predicate Gone(c: Counter, t: Tick) {
    t.time > c.expires || (t.time == c.expires && t.edge)
  }

  /** INCR and, on a new key, PEXPIRE. */
  function Count(c: Option<Counter>, t: Tick): (r: Counter)
    ensures r.count >= 1
  {
    if c.None? || Gone(c.value, t) then Counter(1, t.time + WINDOW) else c.value.(count := c.value.count + 1)
  }

  datatype Verdict = Allowed | Limited(retryAfterSeconds: nat)

  /** What `allow` answers, given the counter and the clock. */
  function Judge(c: Counter, now: int): Verdict {
    if c.count <= LIMIT then Allowed
    else
      var ttl := if c.expires - now < 1 then 1 else c.expires - now;
      Limited(if (ttl + 999) / 1_000 < 1 then 1 else (ttl + 999) / 1_000)
  }

  class MetricIngestRateLimiter<K(==)> {
    var counters: map<K, Counter>

    constructor ()
      ensures counters == map[]
    {
      counters := map[];
    }

    method Allow(key: K, t: Tick) returns (v: Verdict)
      modifies this
      ensures var c := Count(if key in old(counters) then Some(old(counters)[key]) else None, t);
              counters == old(counters)[key := c] && v == Judge(c, t.time)
    {
      if key in counters && !Gone(counters[key], t) {
        counters := counters[key := counters[key].(count := counters[key].count + 1)];
      } else {
        counters := counters[key := Counter(1, t.time + WINDOW)];
      }
      if counters[key].count > LIMIT {
        var ttl := counters[key].expires - t.time;
        ttl := if ttl < 1 then 1 else ttl;
        return Limited(if (ttl + 999) / 1_000 < 1 then 1 else (ttl + 999) / 1_000);
      }
      return Allowed;
    }
  }

  /** Whoever waits as long as told finds the key at its expiry or past it. */
  lemma WaitingSuffices(c: Counter, now: int, later: int)
    requires Judge(c, now).Limited? && later >= now + 1_000 * Judge(c, now).retryAfterSeconds
    ensures later >= c.expires
  {
    var ttl := if c.expires - now < 1 then 1 else c.expires - now;
    assert 1_000 * ((ttl + 999) / 1_000) >= ttl;
  }

  /** The waiting time is the least whole number of seconds, at least one, that reaches the expiry, and it is told
      exactly from the third request of a lifetime on. */
  lemma WaitIsLeast(c: Counter, now: int)
    ensures Judge(c, now).Limited? <==> c.count > 2
    ensures Judge(c, now).Limited? ==>
              var s := Judge(c, now).retryAfterSeconds;
              s >= 1 && now + 1_000 * s >= c.expires && (s > 1 ==> now + 1_000 * (s - 1) < c.expires)
  {
  }

  /** A lifetime begins with the first request after the last one's, and lasts a second whatever comes in. */
  lemma LifetimeIsFixed(c: Option<Counter>, t: Tick)
    ensures c.None? || t.time > c.value.expires ==> Count(c, t) == Counter(1, t.time + 1_000)
    ensures c.Some? && t.time < c.value.expires ==> Count(c, t) == Counter(c.value.count + 1, c.value.expires)
    ensures c.Some? && t.time == c.value.expires ==>
              Count(c, t) == if t.edge then Counter(1, t.time + 1_000) else Counter(c.value.count + 1, c.value.expires)
  {
  }

  /** So whoever waits as long as told, and finds the key gone, is allowed. */
  lemma WaitingHelps(c: Counter, now: int, t: Tick)
    requires Judge(c, now).Limited? && t.time >= now + 1_000 * Judge(c, now).retryAfterSeconds
    requires t.time == c.expires ==> t.edge
    ensures Judge(Count(Some(c), t), t.time) == Allowed
  {
    WaitIsLeast(c, now);
    hide Judge;
    WaitIsLeast(Count(Some(c), t), t.time);
  }

  // ------------------------------------------------------------------ traces

  /** An allowed request: its time and when the lifetime of the key that admitted it began. */
  datatype Grant = Grant(time: int, born: int)

  datatype Trace = Trace(counter: Option<Counter>, grants: seq<Grant>)

  predicate Monotone(ticks: seq<Tick>) {
    forall i, j :: 0 <= i < j < |ticks| ==> ticks[i].time <= ticks[j].time
  }

  function Run(ticks: seq<Tick>): Trace {
    if ticks == [] then Trace(None, [])
    else
      var before, t := Run(ticks[..|ticks| - 1]), ticks[|ticks| - 1];
      var c := Count(before.counter, t);
      Trace(Some(c), if Judge(c, t.time).Allowed? then before.grants + [Grant(t.time, c.expires - WINDOW)]
                     else before.grants)
  }

  /** How many of the last grants the present lifetime admitted. */
  function Recent(c: Counter): nat {
    if c.count < LIMIT then c.count else LIMIT
  }

  /** Every grant falls into its lifetime; times and lifetimes are in order. */
  predicate InOrder(g: seq<Grant>) {
    && (forall i :: 0 <= i < |g| ==> g[i].born <= g[i].time <= g[i].born + WINDOW)
    && (forall i, j :: 0 <= i < j < |g| ==> g[i].time <= g[j].time && g[i].born <= g[j].born)
  }

  /** Lifetimes do not overlap, and none admits more than LIMIT. */
  predicate Spread(g: seq<Grant>) {
    forall i :: 0 <= i < |g| - LIMIT ==> g[i].born + WINDOW <= g[i + LIMIT].born
  }

  /** The last grants are those of the present lifetime. */
  predicate Current(g: seq<Grant>, c: Counter) {
    && c.count >= 1 && Recent(c) <= |g|
    && (forall i :: 0 <= i < |g| - Recent(c) ==> g[i].born + WINDOW <= c.expires - WINDOW)
    && (forall i :: |g| - Recent(c) <= i < |g| ==> g[i].born == c.expires - WINDOW)
  }

  predicate Paced(s: Trace, now: int) {
    && InOrder(s.grants) && Spread(s.grants)
    && (s.grants != [] ==> s.grants[|s.grants| - 1].time <= now)
    && (s.counter.None? ==> s.grants == [])
    && (s.counter.Some? ==> Current(s.grants, s.counter.value) && s.counter.value.expires <= now + WINDOW)
  }

  lemma StepCurrent(s: Trace, now: int, t: Tick)
    requires Paced(s, now) && now <= t.time
    ensures var c := Count(s.counter, t);
            Current(if c.count <= LIMIT then s.grants + [Grant(t.time, c.expires - WINDOW)] else s.grants, c)
  {
    if s.counter.Some? && Gone(s.counter.value, t) && s.grants != [] {
      assert forall i :: 0 <= i < |s.grants| ==> s.grants[i].born <= s.counter.value.expires - WINDOW;
    }
  }

  lemma StepPaced(s: Trace, now: int, t: Tick)
    requires Paced(s, now) && now <= t.time
    ensures var c := Count(s.counter, t);
            Paced(Trace(Some(c), if c.count <= LIMIT then s.grants + [Grant(t.time, c.expires - WINDOW)] else s.grants),
                  t.time)
  {
    hide Current, Recent, InOrder, Spread;
    StepCurrent(s, now, t);
    var c := Count(s.counter, t);
    if c.count <= LIMIT {
      var x := Grant(t.time, c.expires - WINDOW);
      StepAfter(s, now, t);
      AppendInOrder(s.grants, x);
      AppendSpread(s.grants, x);
    }
  }

  /** A new grant comes after the others, a window after the grant LIMIT before it. */
  lemma StepAfter(s: Trace, now: int, t: Tick)
    requires Paced(s, now) && now <= t.time && Count(s.counter, t).count <= LIMIT
    ensures var g, born := s.grants, Count(s.counter, t).expires - WINDOW;
            && born <= t.time <= born + WINDOW
            && (g != [] ==> g[|g| - 1].time <= t.time && g[|g| - 1].born <= born)
            && (|g| >= LIMIT ==> g[|g| - LIMIT].born + WINDOW <= born)
  {
    if s.counter.Some? && s.grants != [] {
      hide Spread;
      var g := s.grants;
      assert g[|g| - 1].born == s.counter.value.expires - WINDOW;
      assert |g| >= LIMIT ==> g[|g| - LIMIT].born <= g[|g| - 1].born;
    }
  }

  lemma AppendInOrder(g: seq<Grant>, x: Grant)
    requires InOrder(g) && x.born <= x.time <= x.born + WINDOW
    requires g != [] ==> g[|g| - 1].time <= x.time && g[|g| - 1].born <= x.born
    ensures InOrder(g + [x])
  {
    var h := g + [x];
    forall i, j | 0 <= i < j < |h| ensures h[i].time <= h[j].time && h[i].born <= h[j].born {
      assert j == |g| && i < |g| - 1 ==> g[i].time <= g[|g| - 1].time && g[i].born <= g[|g| - 1].born;
    }
  }

  lemma AppendSpread(g: seq<Grant>, x: Grant)
    requires Spread(g) && (|g| >= LIMIT ==> g[|g| - LIMIT].born + WINDOW <= x.born)
    ensures Spread(g + [x])
  {
    var h := g + [x];
    forall i | 0 <= i < |h| - LIMIT ensures h[i].born + WINDOW <= h[i + LIMIT].born {
      assert i + LIMIT < |g| ==> g[i].born + WINDOW <= g[i + LIMIT].born;
    }
  }

  lemma {:induction false} RunPaced(ticks: seq<Tick>)
    requires Monotone(ticks)
    ensures Paced(Run(ticks), if ticks == [] then 0 else ticks[|ticks| - 1].time)
  {
    if ticks != [] {
      var s, t := Run(ticks[..|ticks| - 1]), ticks[|ticks| - 1];
      RunPaced(ticks[..|ticks| - 1]);
      if ticks[..|ticks| - 1] == [] {
        assert Paced(s, t.time);
      }
      StepPaced(s, if |ticks| == 1 then t.time else ticks[|ticks| - 2].time, t);
    }
  }

  /** Any `2 * LIMIT + 1` consecutive grants span at least a window. */
  lemma GrantsSpan(ticks: seq<Tick>, i: nat)
    requires Monotone(ticks) && i + 2 * LIMIT < |Run(ticks).grants|
    ensures Run(ticks).grants[i].time + WINDOW <= Run(ticks).grants[i + 2 * LIMIT].time
  {
    RunPaced(ticks);
    var g := Run(ticks).grants;
    assert g[i].born + WINDOW <= g[i + LIMIT].born;
    assert g[i + LIMIT].born + WINDOW <= g[i + LIMIT + LIMIT].born;
  }

  /** The first index from which on the measure is at least `from`. */
  function First(g: seq<Grant>, measure: Grant -> int, from: int): (k: nat)
    ensures k <= |g| && (k < |g| ==> measure(g[k]) >= from)
    ensures forall i :: 0 <= i < k ==> measure(g[i]) < from
  {
    if g == [] || measure(g[0]) >= from then 0 else 1 + First(g[1..], measure, from)
  }

  lemma {:induction false} SmallRange(s: set<int>, low: int, n: nat)
    requires forall i :: i in s ==> low <= i < low + n
    ensures |s| <= n
  {
    if n == 0 {
      assert forall i :: i !in s;
    } else {
      SmallRange(s - {low + n - 1}, low, n - 1);
      assert s <= (s - {low + n - 1}) + {low + n - 1};
    }
  }

  /** The requests admitted in a half-open interval. */
  function Within(g: seq<Grant>, from: int, to: int): set<int> {
    set i | 0 <= i < |g| && from <= g[i].time < to
  }

  /** The requests one lifetime admitted. */
  function Siblings(g: seq<Grant>, born: int): set<int> {
    set i | 0 <= i < |g| && g[i].born == born
  }

  /** No half-open interval of a window's length sees more than twice the limit, whatever the requests. */
  lemma AtMostTwiceTheLimit(ticks: seq<Tick>, from: int)
    requires Monotone(ticks)
    ensures |Within(Run(ticks).grants, from, from + WINDOW)| <= 2 * LIMIT
  {
    var g := Run(ticks).grants;
    var low := First(g, (x: Grant) => x.time, from);
    RunPaced(ticks);
    hide First, Run, Current, Spread;
    forall i | low + 2 * LIMIT <= i < |g| ensures from + WINDOW <= g[i].time {
      GrantsSpan(ticks, low);
      assert i == low + 2 * LIMIT || g[low + 2 * LIMIT].time <= g[i].time;
    }
    SmallRange(Within(g, from, from + WINDOW), low, 2 * LIMIT);
  }

  /** One lifetime of the key admits at most LIMIT requests. */
  lemma AtMostLimitPerLifetime(ticks: seq<Tick>, born: int)
    requires Monotone(ticks)
    ensures |Siblings(Run(ticks).grants, born)| <= LIMIT
  {
    var g := Run(ticks).grants;
    var low := First(g, (x: Grant) => x.born, born);
    RunPaced(ticks);
    forall i | low + LIMIT <= i < |g| ensures born < g[i].born {
      assert g[low].born + WINDOW <= g[low + LIMIT].born;
      assert i == low + LIMIT || g[low + LIMIT].born <= g[i].born;
    }
    SmallRange(Siblings(g, born), low, LIMIT);
  }
}

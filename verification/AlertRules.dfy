/** When an alert rule triggers: the evaluator's backward scan, what it means about a history, and why
    looking at a window of the history is enough. */
module AlertRules {
  import opened Wrappers
  import opened Telemetry

  datatype Operator = Gt | Gte | Lt | Lte | Eq

  datatype Severity = Info | Warning | Critical

  datatype Rule = Rule(
    id: Uuid, metric: string, operator: Operator, threshold: real, duration: nat, severity: Severity, enabled: bool)

  /** A measurement as the evaluator sees it. */
  datatype Point = Point(at: int, value: real)

  /** `_compare`. */
  predicate Compare(o: Operator, value: real, threshold: real) {
    match o
    case Gt => value > threshold
    case Gte => value >= threshold
    case Lt => value < threshold
    case Lte => value <= threshold
    case Eq => value == threshold
  }

  /** The operators are those of the order of the numbers. */
  lemma CompareIsOrder(value: real, threshold: real)
    ensures value > threshold ==> Compare(Gt, value, threshold) && !Compare(Eq, value, threshold) && !Compare(Lt, value, threshold)
    ensures value == threshold ==> !Compare(Gt, value, threshold) && Compare(Eq, value, threshold) && !Compare(Lt, value, threshold)
    ensures value < threshold ==> !Compare(Gt, value, threshold) && !Compare(Eq, value, threshold) && Compare(Lt, value, threshold)
    ensures Compare(Gte, value, threshold) <==> Compare(Gt, value, threshold) || Compare(Eq, value, threshold)
    ensures Compare(Lte, value, threshold) <==> Compare(Lt, value, threshold) || Compare(Eq, value, threshold)
  {
  }

  // ------------------------------------------------------------------ sorting

  predicate Sorted(h: seq<Point>) {
    forall i, j :: 0 <= i < j < |h| ==> h[i].at <= h[j].at
  }

  function Insert(h: seq<Point>, x: Point): seq<Point> {
    if h == [] || h[|h| - 1].at <= x.at then h + [x] else Insert(h[..|h| - 1], x) + [h[|h| - 1]]
  }

  /** `sorted(samples, key=...)`, which is stable. */
  function StableSort(s: seq<Point>): seq<Point> {
    if s == [] then [] else Insert(StableSort(s[..|s| - 1]), s[|s| - 1])
  }

  /** The points from an instant on, in place. */
  function Since(s: seq<Point>, from: int): seq<Point> {
    if s == [] then []
    else
      var some, x := Since(s[..|s| - 1], from), s[|s| - 1];
      if x.at >= from then some + [x] else some
  }

  /** The points up to an instant, in place. */
  function UpTo(s: seq<Point>, to: int): seq<Point> {
    if s == [] then []
    else
      var some, x := UpTo(s[..|s| - 1], to), s[|s| - 1];
      if x.at <= to then some + [x] else some
  }

  lemma AppendSorted(h: seq<Point>, x: Point)
    requires Sorted(h) && forall p :: p in h ==> p.at <= x.at
    ensures Sorted(h + [x])
  {
  }

  lemma {:induction false} InsertKeeps(h: seq<Point>, x: Point)
    ensures multiset(Insert(h, x)) == multiset(h) + multiset{x}
  {
    if !(h == [] || h[|h| - 1].at <= x.at) {
      InsertKeeps(h[..|h| - 1], x);
      assert h == h[..|h| - 1] + [h[|h| - 1]];
    }
  }

  lemma InsertMembers(h: seq<Point>, x: Point)
    ensures forall p :: p in Insert(h, x) ==> p in h || p == x
  {
    InsertKeeps(h, x);
    forall p | p in Insert(h, x) ensures p in h || p == x {
      assert p in multiset(Insert(h, x));
    }
  }

  lemma LastIsLargest(h: seq<Point>)
    requires Sorted(h) && h != []
    ensures forall p :: p in h ==> p.at <= h[|h| - 1].at
  {
  }

  lemma {:induction false} InsertSorts(h: seq<Point>, x: Point)
    requires Sorted(h)
    ensures Sorted(Insert(h, x))
  {
    if h != [] {
      LastIsLargest(h);
    }
    if h == [] || h[|h| - 1].at <= x.at {
      AppendSorted(h, x);
    } else {
      var n := |h| - 1;
      InsertSorts(h[..n], x);
      InsertMembers(h[..n], x);
      hide Sorted;
      AppendSorted(Insert(h[..n], x), h[n]);
    }
  }

  /** Sorting sorts, and keeps every point. */
  lemma {:induction false} SortSorts(s: seq<Point>)
    ensures Sorted(StableSort(s)) && multiset(StableSort(s)) == multiset(s)
  {
    if s != [] {
      var t, x := s[..|s| - 1], s[|s| - 1];
      assert s == t + [x] && multiset(s) == multiset(t) + multiset{x};
      assert StableSort(s) == Insert(StableSort(t), x);
      hide Insert, Sorted, StableSort;
      SortSorts(t);
      InsertSorts(StableSort(t), x);
      InsertKeeps(StableSort(t), x);
    }
  }

  /** The points of one instant, in order. */
  function Instant(s: seq<Point>, at: int): seq<Point> {
    if s == [] then []
    else
      var some, x := Instant(s[..|s| - 1], at), s[|s| - 1];
      if x.at == at then some + [x] else some
  }

  lemma InstantAppend(s: seq<Point>, x: Point, at: int)
    ensures Instant(s + [x], at) == if x.at == at then Instant(s, at) + [x] else Instant(s, at)
  {
    assert (s + [x])[..|s|] == s;
  }

  lemma {:induction false} InsertIsStable(h: seq<Point>, x: Point, at: int)
    ensures Instant(Insert(h, x), at) == if x.at == at then Instant(h, at) + [x] else Instant(h, at)
  {
    if h == [] || h[|h| - 1].at <= x.at {
      InstantAppend(h, x, at);
    } else {
      var t, last := h[..|h| - 1], h[|h| - 1];
      assert h == t + [last] && Insert(h, x) == Insert(t, x) + [last];
      hide Insert, Instant;
      InsertIsStable(t, x, at);
      InstantAppend(t, last, at);
      InstantAppend(Insert(t, x), last, at);
    }
  }

  /** Points of one instant stay in the order they were in. */
  lemma {:induction false} SortIsStable(s: seq<Point>, at: int)
    ensures Instant(StableSort(s), at) == Instant(s, at)
  {
    if s != [] {
      var t, x := s[..|s| - 1], s[|s| - 1];
      assert s == t + [x] && StableSort(s) == Insert(StableSort(t), x);
      hide Insert, Instant, StableSort;
      SortIsStable(t, at);
      InsertIsStable(StableSort(t), x, at);
      InstantAppend(t, x, at);
    } else {
      assert StableSort(s) == s;
    }
  }

  lemma {:induction false} SinceInsert(h: seq<Point>, x: Point, from: int)
    requires Sorted(h)
    ensures Since(Insert(h, x), from) == if x.at >= from then Insert(Since(h, from), x) else Since(h, from)
  {
    if h == [] || h[|h| - 1].at <= x.at {
      assert forall i :: 0 <= i < |h| ==> h[i].at <= x.at;
      hide Insert, Since, Sorted;
      InsertLast(h, x);
      SinceAppend(h, x, from);
      SinceBounded(h, from, x.at);
      InsertLast(Since(h, from), x);
    } else {
      var t, last := h[..|h| - 1], h[|h| - 1];
      assert h == t + [last] && Sorted(t);
      hide Insert, Since, Sorted;
      SinceInsert(t, x, from);
      SinceAppend(t, last, from);
      InsertBefore(t, last, x);
      SinceAppend(Insert(t, x), last, from);
      InsertBefore(Since(t, from), last, x);
    }
  }

  /** Inserting after everything that is not later. */
  lemma InsertLast(h: seq<Point>, x: Point)
    requires forall i :: 0 <= i < |h| ==> h[i].at <= x.at
    ensures Insert(h, x) == h + [x]
  {
  }

  /** Inserting before a later last point. */
  lemma InsertBefore(h: seq<Point>, last: Point, x: Point)
    requires x.at < last.at
    ensures Insert(h + [last], x) == Insert(h, x) + [last]
  {
    assert (h + [last])[..|h|] == h;
  }

  lemma {:induction false} SinceBounded(h: seq<Point>, from: int, top: int)
    requires forall i :: 0 <= i < |h| ==> h[i].at <= top
    ensures forall i :: 0 <= i < |Since(h, from)| ==> Since(h, from)[i].at <= top
  {
    if h != [] {
      SinceBounded(h[..|h| - 1], from, top);
    }
  }

  lemma {:induction false} SinceEmpty(h: seq<Point>, from: int)
    requires forall i :: 0 <= i < |h| ==> h[i].at < from
    ensures Since(h, from) == []
  {
    if h != [] {
      SinceEmpty(h[..|h| - 1], from);
    }
  }

  lemma SortAppend(s: seq<Point>, x: Point)
    ensures StableSort(s + [x]) == Insert(StableSort(s), x)
    ensures StableSort([]) == []
  {
    assert (s + [x])[..|s|] == s;
  }

  lemma SinceAppend(s: seq<Point>, x: Point, from: int)
    ensures Since(s + [x], from) == if x.at >= from then Since(s, from) + [x] else Since(s, from)
    ensures UpTo(s + [x], from) == if x.at <= from then UpTo(s, from) + [x] else UpTo(s, from)
    ensures Since([], from) == [] && UpTo([], from) == []
  {
    assert (s + [x])[..|s|] == s;
  }

  /** Sorting what a lower bound leaves is bounding what is sorted. */
  lemma {:induction false} SortSince(s: seq<Point>, from: int)
    ensures StableSort(Since(s, from)) == Since(StableSort(s), from)
  {
    hide Insert, Sorted, StableSort, Since;
    if s == [] {
      SortAppend([], Point(0, 0.0));
      SinceAppend([], Point(0, 0.0), from);
    } else {
      var t, x := s[..|s| - 1], s[|s| - 1];
      assert s == t + [x];
      SortSince(t, from);
      SortSorts(t);
      SinceInsert(StableSort(t), x, from);
      SinceAppend(t, x, from);
      assert Since(t, from) + [] == Since(t, from);
      SortAppend(t, x);
      SortAppend(Since(t, from), x);
    }
  }

  /** In a sorted history a lower bound leaves a suffix. */
  lemma {:induction false} SinceSuffix(h: seq<Point>, from: int) returns (k: nat)
    requires Sorted(h)
    ensures k <= |h| && Since(h, from) == h[k..] && forall i :: 0 <= i < k ==> h[i].at < from
  {
    if h == [] {
      k := 0;
    } else if h[|h| - 1].at < from {
      assert forall i :: 0 <= i < |h| ==> h[i].at <= h[|h| - 1].at;
      SinceEmpty(h, from);
      k := |h|;
    } else {
      var t, last := h[..|h| - 1], h[|h| - 1];
      assert h == t + [last] && Sorted(t);
      hide Sorted, Since;
      k := SinceSuffix(t, from);
      SinceAppend(t, last, from);
      assert t[k..] + [last] == h[k..];
    }
  }

  // --------------------------------------------------------------- evaluation

  /** From point `i` on the history satisfies the rule. */
  predicate HoldsFrom(r: Rule, h: seq<Point>, i: nat) {
    forall j :: i <= j < |h| ==> Compare(r.operator, h[j].value, r.threshold)
  }

  /** The condition has held at least since `duration` ago, by every measurement from some point at or
      before that instant, and no measurement is from the future. */
  predicate Triggered(r: Rule, h: seq<Point>, now: int) {
    h != [] && h[|h| - 1].at <= now
    && exists i :: 0 <= i < |h| && h[i].at <= now - r.duration && HoldsFrom(r, h, i)
  }

  /** `evaluate_rule`. */
  method EvaluateRule(r: Rule, samples: seq<Point>, now: int) returns (triggered: bool)
    ensures triggered <==> Triggered(r, StableSort(samples), now)
  {
    if samples == [] {
      return false;
    }
    hide Compare, StableSort;
    var h := StableSort(samples);
    SortSorts(samples);
    assert |h| == |samples| by { assert |multiset(h)| == |multiset(samples)|; }
    var latest := h[|h| - 1];
    if latest.at > now || !Compare(r.operator, latest.value, r.threshold) {
      return false;
    }
    var boundary := now - r.duration;
    var start := latest.at;
    var k := |h|;
    while k > 0 && (h[k - 1].at > now || Compare(r.operator, h[k - 1].value, r.threshold))
      invariant 0 <= k <= |h| && HoldsFrom(r, h, k)
      invariant start == if k == |h| then latest.at else h[k].at
    {
      if h[k - 1].at <= now {
        start := h[k - 1].at;
      }
      k := k - 1;
    }
    assert k < |h|;
    assert k > 0 ==> !HoldsFrom(r, h, k - 1);
    assert start == h[k].at;
    if start <= boundary {
      assert HoldsFrom(r, h, k);
    } else {
      forall i | 0 <= i < |h| && HoldsFrom(r, h, i) ensures h[i].at > boundary {
        assert i >= k;
      }
    }
    return start <= boundary;
  }

  /** What triggering says of the measurements as such: none is from the future, and from some measurement at or
      before the start of the duration on they satisfy the comparison. Only the order of measurements of
      one instant is between the two. */
  lemma TriggeredMeans(r: Rule, h: seq<Point>, now: int)
    requires Sorted(h)
    ensures Triggered(r, h, now) ==>
              && (forall q :: q in h ==> q.at <= now)
              && exists p :: p in h && p.at <= now - r.duration && Compare(r.operator, p.value, r.threshold)
                             && forall q :: q in h && q.at > p.at ==> Compare(r.operator, q.value, r.threshold)
    ensures (forall q :: q in h ==> q.at <= now)
            && (exists p :: p in h && p.at <= now - r.duration
                            && forall q :: q in h && q.at >= p.at ==> Compare(r.operator, q.value, r.threshold))
            ==> Triggered(r, h, now)
  {
    if Triggered(r, h, now) { TriggeredHolds(r, h, now); }
    hide Triggered, Compare, Sorted;
    if (forall q :: q in h ==> q.at <= now)
       && exists p :: p in h && p.at <= now - r.duration
                      && forall q :: q in h && q.at >= p.at ==> Compare(r.operator, q.value, r.threshold)
    {
      var p :| p in h && p.at <= now - r.duration
               && forall q :: q in h && q.at >= p.at ==> Compare(r.operator, q.value, r.threshold);
      HoldsTriggers(r, h, now, p);
    }
  }

  lemma TriggeredHolds(r: Rule, h: seq<Point>, now: int)
    requires Sorted(h) && Triggered(r, h, now)
    ensures forall q :: q in h ==> q.at <= now
    ensures exists p :: p in h && p.at <= now - r.duration && Compare(r.operator, p.value, r.threshold)
                        && forall q :: q in h && q.at > p.at ==> Compare(r.operator, q.value, r.threshold)
  {
    hide Compare;
    var i :| 0 <= i < |h| && h[i].at <= now - r.duration && HoldsFrom(r, h, i);
    LastIsLargest(h);
    assert h[i] in h;
    forall q | q in h && q.at > h[i].at ensures Compare(r.operator, q.value, r.threshold) {
      var j :| 0 <= j < |h| && h[j] == q;
    }
  }

  lemma HoldsTriggers(r: Rule, h: seq<Point>, now: int, p: Point)
    requires Sorted(h) && (forall q :: q in h ==> q.at <= now) && p in h && p.at <= now - r.duration
    requires forall q :: q in h && q.at >= p.at ==> Compare(r.operator, q.value, r.threshold)
    ensures Triggered(r, h, now)
  {
    hide Compare;
    var i :| 0 <= i < |h| && h[i] == p;
    forall j | i <= j < |h| ensures Compare(r.operator, h[j].value, r.threshold) {
      assert h[j] in h;
    }
    assert HoldsFrom(r, h, i);
  }

  /** The same measurements at the same instants, none of them lower. */
  predicate Higher(s: seq<Point>, t: seq<Point>) {
    |s| == |t| && forall i :: 0 <= i < |s| ==> s[i].at == t[i].at && s[i].value <= t[i].value
  }

  lemma {:induction false} InsertHigher(g: seq<Point>, h: seq<Point>, x: Point, y: Point)
    requires Higher(g, h) && x.at == y.at && x.value <= y.value
    ensures Higher(Insert(g, x), Insert(h, y))
  {
    if g != [] && g[|g| - 1].at > x.at {
      InsertHigher(g[..|g| - 1], h[..|h| - 1], x, y);
    }
  }

  lemma {:induction false} SortHigher(s: seq<Point>, t: seq<Point>)
    requires Higher(s, t)
    ensures Higher(StableSort(s), StableSort(t))
  {
    if s != [] {
      SortHigher(s[..|s| - 1], t[..|t| - 1]);
      InsertHigher(StableSort(s[..|s| - 1]), StableSort(t[..|t| - 1]), s[|s| - 1], t[|t| - 1]);
    }
  }

  /** A rule that watches for high values goes on triggering when values rise, one for low values when they fall. */
  lemma AnswersAreMonotone(r: Rule, s: seq<Point>, t: seq<Point>, now: int)
    requires Higher(s, t)
    ensures (r.operator == Gt || r.operator == Gte) && Triggered(r, StableSort(s), now) ==> Triggered(r, StableSort(t), now)
    ensures (r.operator == Lt || r.operator == Lte) && Triggered(r, StableSort(t), now) ==> Triggered(r, StableSort(s), now)
  {
    SortHigher(s, t);
    hide StableSort;
    HigherTriggers(r, StableSort(s), StableSort(t), now);
  }

  lemma HigherTriggers(r: Rule, g: seq<Point>, h: seq<Point>, now: int)
    requires Higher(g, h)
    ensures (r.operator == Gt || r.operator == Gte) && Triggered(r, g, now) ==> Triggered(r, h, now)
    ensures (r.operator == Lt || r.operator == Lte) && Triggered(r, h, now) ==> Triggered(r, g, now)
  {
    if (r.operator == Gt || r.operator == Gte) && Triggered(r, g, now) {
      var i :| 0 <= i < |g| && g[i].at <= now - r.duration && HoldsFrom(r, g, i);
      assert HoldsFrom(r, h, i);
    }
    if (r.operator == Lt || r.operator == Lte) && Triggered(r, h, now) {
      var i :| 0 <= i < |h| && h[i].at <= now - r.duration && HoldsFrom(r, h, i);
      assert HoldsFrom(r, g, i);
    }
  }

  /** Two rules of one threshold whose operators exclude each other never trigger on the same history. */
  lemma OppositesExclude(r: Rule, q: Rule, h: seq<Point>, now: int)
    requires r.threshold == q.threshold
    requires (r.operator == Gt && (q.operator == Lte || q.operator == Lt || q.operator == Eq))
             || (r.operator == Lt && (q.operator == Gte || q.operator == Eq))
    ensures !(Triggered(r, h, now) && Triggered(q, h, now))
  {
    LatestSatisfies(r, h, now);
    LatestSatisfies(q, h, now);
    if h != [] { CompareIsOrder(h[|h| - 1].value, r.threshold); }
  }

  lemma LatestSatisfies(r: Rule, h: seq<Point>, now: int)
    ensures Triggered(r, h, now) ==> h != [] && Compare(r.operator, h[|h| - 1].value, r.threshold)
  {
  }

  // ------------------------------------------------------------------- window

  /** Where the fetched window begins. */
  function WindowStart(r: Rule, now: int): int {
    now - if 2 * r.duration > 300 then 2 * r.duration else 300
  }

  /** The window is twice the duration, and at least five minutes. */
  lemma WindowIsWide(r: Rule, now: int)
    ensures WindowStart(r, now) <= now - 2 * r.duration && WindowStart(r, now) <= now - 300
    ensures WindowStart(r, now) == now - 2 * r.duration || WindowStart(r, now) == now - 300
  {
  }

  /** The samples the evaluator fetches. */
  function Fetched(r: Rule, rows: seq<Point>, now: int): seq<Point> {
    Since(UpTo(rows, now), WindowStart(r, now))
  }

  /** They are all those in the window, as often as they are there. */
  lemma {:induction false} FetchedExactly(r: Rule, rows: seq<Point>, now: int)
    ensures forall p :: multiset(Fetched(r, rows, now))[p]
                        == if WindowStart(r, now) <= p.at <= now then multiset(rows)[p] else 0
  {
    hide WindowStart;
    if rows != [] {
      var t, x := rows[..|rows| - 1], rows[|rows| - 1];
      assert rows == t + [x];
      FetchedExactly(r, t, now);
      hide UpTo, Since;
      SinceAppend(t, x, now);
      SinceAppend(UpTo(t, now), x, WindowStart(r, now));
    }
  }

  /** The fetched window holds a sample old enough to decide. */
  predicate Decisive(r: Rule, rows: seq<Point>, now: int) {
    exists i :: 0 <= i < |Fetched(r, rows, now)| && Fetched(r, rows, now)[i].at <= now - r.duration
  }

  lemma SuffixTriggers(r: Rule, h: seq<Point>, k: nat, now: int)
    requires Sorted(h) && k <= |h| && (forall i :: 0 <= i < k ==> h[i].at < WindowStart(r, now))
    ensures Triggered(r, h[k..], now) <==>
            Triggered(r, h, now) && exists i :: 0 <= i < |h[k..]| && h[k..][i].at <= now - r.duration
  {
    var w := h[k..];
    if Triggered(r, w, now) {
      var i :| 0 <= i < |w| && w[i].at <= now - r.duration && HoldsFrom(r, w, i);
      forall j | k + i <= j < |h| ensures Compare(r.operator, h[j].value, r.threshold) {
        assert h[j] == w[j - k];
      }
      assert h[k + i] == w[i] && HoldsFrom(r, h, k + i);
    }
    if Triggered(r, h, now) && exists i :: 0 <= i < |w| && w[i].at <= now - r.duration {
      var i :| 0 <= i < |h| && h[i].at <= now - r.duration && HoldsFrom(r, h, i);
      if i >= k {
        assert w[i - k] == h[i] && HoldsFrom(r, w, i - k);
      } else {
        var m :| 0 <= m < |w| && w[m].at <= now - r.duration;
        assert HoldsFrom(r, w, m);
      }
    }
  }

  lemma SortedMembers(s: seq<Point>, bound: int)
    ensures (exists i :: 0 <= i < |s| && s[i].at <= bound)
            <==> (exists i :: 0 <= i < |StableSort(s)| && StableSort(s)[i].at <= bound)
  {
    SortSorts(s);
    var t := StableSort(s);
    if i :| 0 <= i < |s| && s[i].at <= bound {
      assert s[i] in multiset(s) && s[i] in t;
    }
    if i :| 0 <= i < |t| && t[i].at <= bound {
      assert t[i] in multiset(t) && t[i] in s;
    }
  }

  /** Evaluating the window triggers exactly when the full history up to now does and the window holds a
      sample at or before the start of the duration: it never triggers too often. */
  lemma WindowIsEnough(r: Rule, rows: seq<Point>, now: int)
    ensures Triggered(r, StableSort(Fetched(r, rows, now)), now) <==>
            Triggered(r, StableSort(UpTo(rows, now)), now) && Decisive(r, rows, now)
  {
    var h := StableSort(UpTo(rows, now));
    SortSorts(UpTo(rows, now));
    SortSince(UpTo(rows, now), WindowStart(r, now));
    var k := SinceSuffix(h, WindowStart(r, now));
    SuffixTriggers(r, h, k, now);
    SortedMembers(Fetched(r, rows, now), now - r.duration);
  }

  /** A window without such a sample can hide a condition that has held for long: with one measurement
      before the window and one after its start, the full history triggers and the window does not. */
  lemma SparseSamplesAreMissed(r: Rule, now: int, value: real)
    requires r.duration > 0 && Compare(r.operator, value, r.threshold)
    ensures var rows := [Point(WindowStart(r, now) - 1, value), Point(now, value)];
            Triggered(r, StableSort(UpTo(rows, now)), now) && !Triggered(r, StableSort(Fetched(r, rows, now)), now)
  {
    var a, b := Point(WindowStart(r, now) - 1, value), Point(now, value);
    TwoPoints(a, b, now, WindowStart(r, now));
    assert HoldsFrom(r, [a, b], 0);
    assert a.at <= now - r.duration;
    hide UpTo, Since, StableSort, Compare, WindowStart;
  }

  lemma TwoPoints(a: Point, b: Point, now: int, from: int)
    requires a.at < from <= b.at <= now
    ensures UpTo([a, b], now) == [a, b] && Since([a, b], from) == [b]
    ensures StableSort([a, b]) == [a, b] && StableSort([b]) == [b]
  {
    hide StableSort, UpTo, Since;
    assert [] + [a] == [a] && [] + [b] == [b] && [a] + [b] == [a, b];
    SinceAppend([], a, from);
    SinceAppend([a], b, from);
    SinceAppend([], a, now);
    SinceAppend([a], b, now);
    InsertOne(a, b);
    SortAppend([], a);
    SortAppend([], b);
    SortAppend([a], b);
  }

  lemma InsertOne(a: Point, b: Point)
    requires a.at <= b.at
    ensures Insert([], a) == [a] && Insert([], b) == [b] && Insert([a], b) == [a, b]
  {
  }
}

/** The alerts one evaluation pass opens and resolves. */
module AlertLifecycle {
  import opened Wrappers
  import opened Telemetry
  import opened AlertRules

  datatype Status = Open | Acknowledged | Resolved | Suppressed

  /** A row of `alerts`; an alert without a rule is about an exhausted batch. */
  datatype Alert = Alert(
    rule: Option<Uuid>, device: Uuid, severity: Severity, status: Status, triggeredAt: int, resolvedAt: Option<int>)

  /** A row of `metric_samples`, as far as alerts look at it. */
  datatype Reading = Reading(device: Uuid, metric: string, point: Point)

  predicate Active(s: Status) { s.Open? || s.Acknowledged? || s.Suppressed? }

  /** An active alert of the pair. */
  predicate For(a: Alert, rule: Uuid, device: Uuid) {
    a.rule == Some(rule) && a.device == device && Active(a.status)
  }

  // ------------------------------------------------------------------ queries

  /** The active alert of the pair that triggered last, the first listed among equals. */
  function Existing(alerts: seq<Alert>, rule: Uuid, device: Uuid): (r: Option<nat>)
    ensures r.Some? ==> r.value < |alerts| && For(alerts[r.value], rule, device)
    ensures r.None? ==> forall i :: 0 <= i < |alerts| ==> !For(alerts[i], rule, device)
  {
    if alerts == [] then None
    else
      var n := |alerts| - 1;
      var before := Existing(alerts[..n], rule, device);
      if For(alerts[n], rule, device)
         && (before.None? || alerts[before.value].triggeredAt < alerts[n].triggeredAt) then Some(n)
      else before
  }

  /** None of the pair's active alerts triggered later. */
  lemma {:induction false} ExistingIsLatest(alerts: seq<Alert>, rule: Uuid, device: Uuid)
    ensures Existing(alerts, rule, device).Some? ==>
              forall j :: 0 <= j < |alerts| && For(alerts[j], rule, device) ==>
                            alerts[j].triggeredAt <= alerts[Existing(alerts, rule, device).value].triggeredAt
  {
    if alerts != [] {
      ExistingIsLatest(alerts[..|alerts| - 1], rule, device);
      hide For;
    }
  }

  /** The device's measurements of a metric. */
  function PointsOf(rows: seq<Reading>, device: Uuid, metric: string): seq<Point> {
    if rows == [] then []
    else
      var some, r := PointsOf(rows[..|rows| - 1], device, metric), rows[|rows| - 1];
      if r.device == device && r.metric == metric then some + [r.point] else some
  }

  /** All of them, as often as they are there. */
  lemma {:induction false} PointsExactly(rows: seq<Reading>, device: Uuid, metric: string)
    ensures forall p :: multiset(PointsOf(rows, device, metric))[p] == multiset(rows)[Reading(device, metric, p)]
  {
    if rows != [] {
      var t, r := rows[..|rows| - 1], rows[|rows| - 1];
      assert rows == t + [r];
      PointsExactly(t, device, metric);
    }
  }

  /** `SELECT DISTINCT device_id` over the window of the rule. */
  function Devices(rows: seq<Reading>, rule: Rule, now: int): (ds: seq<Uuid>)
    ensures forall i, j :: 0 <= i < j < |ds| ==> ds[i] != ds[j]
  {
    if rows == [] then []
    else
      var x := rows[|rows| - 1];
      var ds := Devices(rows[..|rows| - 1], rule, now);
      if x.metric == rule.metric && WindowStart(rule, now) <= x.point.at <= now && x.device !in ds then ds + [x.device]
      else ds
  }

  /** What the evaluation of the pair comes to. */
  predicate Fires(rows: seq<Reading>, rule: Rule, device: Uuid, now: int) {
    Triggered(rule, StableSort(Fetched(rule, PointsOf(rows, device, rule.metric), now)), now)
  }

  // -------------------------------------------------------------------- one pair

  /** The transaction's work on one pair, and the alert it reports. */
  function Judge(alerts: seq<Alert>, rule: Rule, device: Uuid, fires: bool, now: int): (seq<Alert>, Option<Alert>) {
    var existing := Existing(alerts, rule.id, device);
    if fires && existing.None? then
      var a := Alert(Some(rule.id), device, rule.severity, Open, now, None);
      (alerts + [a], Some(a))
    else if !fires && existing.Some? && (alerts[existing.value].status.Open? || alerts[existing.value].status.Acknowledged?)
    then
      var a := alerts[existing.value].(status := Resolved, resolvedAt := Some(now));
      (alerts[existing.value := a], Some(a))
    else (alerts, None)
  }

  /** A firing pair without an active alert gets one, OPEN from now on and of the rule's severity; an OPEN or
      ACKNOWLEDGED alert of a pair that does not fire is resolved now; anything else is left alone. */
  lemma JudgeWrites(alerts: seq<Alert>, rule: Rule, device: Uuid, fires: bool, now: int)
    ensures var (after, news) := Judge(alerts, rule, device, fires, now);
            var none := forall i :: 0 <= i < |alerts| ==> !For(alerts[i], rule.id, device);
            && (fires && none ==>
                  var a := Alert(Some(rule.id), device, rule.severity, Open, now, None);
                  after == alerts + [a] && news == Some(a))
            && (fires && !none ==> after == alerts && news == None)
            && (!fires && news == None ==> after == alerts)
            && (!fires && news != None ==>
                  exists i :: 0 <= i < |alerts| && For(alerts[i], rule.id, device) && alerts[i].status != Suppressed
                              && after == alerts[i := alerts[i].(status := Resolved, resolvedAt := Some(now))]
                              && news == Some(after[i]))
  {
    var e := Existing(alerts, rule.id, device);
    if e.Some? { assert For(alerts[e.value], rule.id, device); }
  }

  /** The table and what has been reported so far. */
  datatype Board = Board(alerts: seq<Alert>, told: seq<Alert>)

  function Judged(b: Board, rows: seq<Reading>, rule: Rule, device: Uuid, now: int): Board {
    var (after, news) := Judge(b.alerts, rule, device, Fires(rows, rule, device, now), now);
    Board(after, b.told + if news.Some? then [news.value] else [])
  }

  /** The devices of one rule, in the order fetched. */
  function JudgeDevices(b: Board, rows: seq<Reading>, rule: Rule, devices: seq<Uuid>, now: int): Board {
    if devices == [] then b
    else Judged(JudgeDevices(b, rows, rule, devices[..|devices| - 1], now), rows, rule, devices[|devices| - 1], now)
  }

  /** A pass over all rules; only enabled ones are looked at. */
  function Pass(b: Board, rows: seq<Reading>, rules: seq<Rule>, now: int): Board {
    if rules == [] then b
    else
      var before, rule := Pass(b, rows, rules[..|rules| - 1], now), rules[|rules| - 1];
      if rule.enabled then JudgeDevices(before, rows, rule, Devices(rows, rule, now), now) else before
  }

  class AlertEvaluator {
    var alerts: seq<Alert>

    method EvaluatePair(rows: seq<Reading>, rule: Rule, device: Uuid, now: int) returns (news: Option<Alert>)
      modifies this
      ensures (alerts, news) == Judge(old(alerts), rule, device, Fires(rows, rule, device, now), now)
    {
      var samples := Fetched(rule, PointsOf(rows, device, rule.metric), now);
      var triggered := EvaluateRule(rule, samples, now);
      var existing := Existing(alerts, rule.id, device);
      if triggered && existing.None? {
        var a := Alert(Some(rule.id), device, rule.severity, Open, now, None);
        alerts := alerts + [a];
        return Some(a);
      }
      if !triggered && existing.Some?
         && (alerts[existing.value].status.Open? || alerts[existing.value].status.Acknowledged?) {
        var a := alerts[existing.value].(status := Resolved, resolvedAt := Some(now));
        alerts := alerts[existing.value := a];
        return Some(a);
      }
      return None;
    }

    /** `evaluate_alerts`. */
    method EvaluateAlerts(rows: seq<Reading>, rules: seq<Rule>, now: int) returns (results: seq<Alert>)
      modifies this
      ensures Board(alerts, results) == Pass(Board(old(alerts), []), rows, rules, now)
    {
      hide Judge, Devices, Fires;
      results := [];
      var i := 0;
      while i < |rules|
        invariant 0 <= i <= |rules|
        invariant Board(alerts, results) == Pass(Board(old(alerts), []), rows, rules[..i], now)
      {
        var rule := rules[i];
        assert rules[..i + 1][..i] == rules[..i];
        if rule.enabled {
          ghost var start := Board(alerts, results);
          var devices := Devices(rows, rule, now);
          var j := 0;
          while j < |devices|
            invariant 0 <= j <= |devices|
            invariant Board(alerts, results) == JudgeDevices(start, rows, rule, devices[..j], now)
          {
            assert devices[..j + 1][..j] == devices[..j];
            var news := EvaluatePair(rows, rule, devices[j], now);
            if news.Some? {
              results := results + [news.value];
            }
            j := j + 1;
          }
          assert devices[..j] == devices;
        }
        i := i + 1;
      }
      assert rules[..i] == rules;
    }
  }

  // -------------------------------------------------------------- invariants

  /** At most one active alert per rule and device, and RESOLVED alerts are those with an end. */
  ghost predicate Consistent(alerts: seq<Alert>) {
    && (forall i, j, rule, device :: 0 <= i < j < |alerts| && For(alerts[i], rule, device) ==> !For(alerts[j], rule, device))
    && (forall i :: 0 <= i < |alerts| ==> (alerts[i].status.Resolved? <==> alerts[i].resolvedAt.Some?))
  }

  /** The pair's alerts are as its evaluation demands. */
  predicate Decided(alerts: seq<Alert>, rule: Uuid, device: Uuid, fires: bool) {
    if fires then exists i :: 0 <= i < |alerts| && For(alerts[i], rule, device)
    else forall i :: 0 <= i < |alerts| && For(alerts[i], rule, device) ==> alerts[i].status.Suppressed?
  }

  lemma JudgeConsistent(alerts: seq<Alert>, rule: Rule, device: Uuid, fires: bool, now: int)
    requires Consistent(alerts)
    ensures Consistent(Judge(alerts, rule, device, fires, now).0)
  {
  }

  lemma JudgeDecides(alerts: seq<Alert>, rule: Rule, device: Uuid, fires: bool, now: int)
    requires Consistent(alerts)
    ensures Decided(Judge(alerts, rule, device, fires, now).0, rule.id, device, fires)
  {
    var after := Judge(alerts, rule, device, fires, now).0;
    var e := Existing(alerts, rule.id, device);
    if fires {
      assert For(after[if e.Some? then e.value else |alerts|], rule.id, device);
    }
  }

  /** Only alerts of the pair are touched, and rows keep their places. */
  lemma JudgeTouchesPair(alerts: seq<Alert>, rule: Rule, device: Uuid, fires: bool, now: int, other: Uuid, elsewhere: Uuid)
    requires other != rule.id || elsewhere != device
    ensures var after := Judge(alerts, rule, device, fires, now).0;
            && |alerts| <= |after|
            && (forall i :: 0 <= i < |alerts| ==> (For(after[i], other, elsewhere) <==> For(alerts[i], other, elsewhere))
                                                  && (For(alerts[i], other, elsewhere) ==> after[i] == alerts[i]))
            && (forall i :: |alerts| <= i < |after| ==> !For(after[i], other, elsewhere))
  {
  }

  /** So the verdict on another pair stands. */
  lemma DecidedStands(alerts: seq<Alert>, rule: Rule, device: Uuid, fires: bool, now: int,
                      other: Uuid, elsewhere: Uuid, verdict: bool)
    requires other != rule.id || elsewhere != device
    requires Decided(alerts, other, elsewhere, verdict)
    ensures Decided(Judge(alerts, rule, device, fires, now).0, other, elsewhere, verdict)
  {
    JudgeTouchesPair(alerts, rule, device, fires, now, other, elsewhere);
    hide Judge, For;
    if verdict {
      var i :| 0 <= i < |alerts| && For(alerts[i], other, elsewhere);
      assert For(Judge(alerts, rule, device, fires, now).0[i], other, elsewhere);
    }
  }

  /** Judging a decided pair again changes and reports nothing. */
  lemma DecidedIsQuiet(alerts: seq<Alert>, rule: Rule, device: Uuid, fires: bool, now: int)
    requires Decided(alerts, rule.id, device, fires)
    ensures Judge(alerts, rule, device, fires, now) == (alerts, None)
  {
  }

  // -------------------------------------------------------------------- passes

  lemma {:induction false} DevicesConsistent(b: Board, rows: seq<Reading>, rule: Rule, devices: seq<Uuid>, now: int)
    requires Consistent(b.alerts)
    ensures Consistent(JudgeDevices(b, rows, rule, devices, now).alerts)
  {
    hide Consistent, Fires, Judge;
    if devices != [] {
      var last := |devices| - 1;
      DevicesConsistent(b, rows, rule, devices[..last], now);
      JudgeConsistent(JudgeDevices(b, rows, rule, devices[..last], now).alerts, rule, devices[last],
                      Fires(rows, rule, devices[last], now), now);
    }
  }

  /** After the devices of a rule are judged each of them is decided, and other pairs are as before. */
  lemma {:induction false} DevicesDecided(b: Board, rows: seq<Reading>, rule: Rule, devices: seq<Uuid>, now: int, k: nat)
    requires Consistent(b.alerts) && k < |devices|
    requires forall i, j :: 0 <= i < j < |devices| ==> devices[i] != devices[j]
    ensures Decided(JudgeDevices(b, rows, rule, devices, now).alerts, rule.id, devices[k], Fires(rows, rule, devices[k], now))
    decreases |devices|
  {
    hide Consistent, Fires, Judge, Decided;
    var last := |devices| - 1;
    var before := JudgeDevices(b, rows, rule, devices[..last], now);
    DevicesConsistent(b, rows, rule, devices[..last], now);
    if k == last {
      JudgeDecides(before.alerts, rule, devices[last], Fires(rows, rule, devices[last], now), now);
    } else {
      DevicesDecided(b, rows, rule, devices[..last], now, k);
      DecidedStands(before.alerts, rule, devices[last], Fires(rows, rule, devices[last], now), now,
                    rule.id, devices[k], Fires(rows, rule, devices[k], now));
    }
  }

  lemma {:induction false} OthersStand(b: Board, rows: seq<Reading>, rule: Rule, devices: seq<Uuid>, now: int,
                                       other: Uuid, elsewhere: Uuid, verdict: bool)
    requires other != rule.id && Decided(b.alerts, other, elsewhere, verdict)
    ensures Decided(JudgeDevices(b, rows, rule, devices, now).alerts, other, elsewhere, verdict)
  {
    hide Fires, Judge, Decided;
    if devices != [] {
      var last := |devices| - 1;
      OthersStand(b, rows, rule, devices[..last], now, other, elsewhere, verdict);
      DecidedStands(JudgeDevices(b, rows, rule, devices[..last], now).alerts, rule, devices[last],
                    Fires(rows, rule, devices[last], now), now, other, elsewhere, verdict);
    }
  }

  predicate DistinctRules(rules: seq<Rule>) {
    forall i, j :: 0 <= i < j < |rules| ==> rules[i].id != rules[j].id
  }

  lemma {:induction false} PassConsistent(b: Board, rows: seq<Reading>, rules: seq<Rule>, now: int)
    requires Consistent(b.alerts)
    ensures Consistent(Pass(b, rows, rules, now).alerts)
  {
    hide Consistent;
    if rules != [] {
      var last := |rules| - 1;
      PassConsistent(b, rows, rules[..last], now);
      DevicesConsistent(Pass(b, rows, rules[..last], now), rows, rules[last], Devices(rows, rules[last], now), now);
    }
  }

  /** A pass decides every pair it evaluates: a firing one has exactly one active alert, any other no
      OPEN or ACKNOWLEDGED one. */
  lemma {:induction false} PassDecides(b: Board, rows: seq<Reading>, rules: seq<Rule>, now: int, i: nat, k: nat)
    requires Consistent(b.alerts) && DistinctRules(rules) && i < |rules| && rules[i].enabled
    requires k < |Devices(rows, rules[i], now)|
    ensures var device := Devices(rows, rules[i], now)[k];
            Decided(Pass(b, rows, rules, now).alerts, rules[i].id, device, Fires(rows, rules[i], device, now))
    decreases |rules|
  {
    hide Consistent, Fires, Decided, Devices;
    var last := |rules| - 1;
    var before := Pass(b, rows, rules[..last], now);
    PassConsistent(b, rows, rules[..last], now);
    var devices := Devices(rows, rules[last], now);
    if i == last {
      DevicesDecided(before, rows, rules[last], devices, now, k);
    } else {
      PassDecides(b, rows, rules[..last], now, i, k);
      var device := Devices(rows, rules[i], now)[k];
      OthersStand(before, rows, rules[last], devices, now, rules[i].id, device, Fires(rows, rules[i], device, now));
    }
  }

  /** Every pair of the rules is decided. */
  ghost predicate AllDecided(alerts: seq<Alert>, rows: seq<Reading>, rules: seq<Rule>, now: int) {
    forall i, k :: 0 <= i < |rules| && rules[i].enabled && 0 <= k < |Devices(rows, rules[i], now)| ==>
      Decided(alerts, rules[i].id, Devices(rows, rules[i], now)[k],
              Fires(rows, rules[i], Devices(rows, rules[i], now)[k], now))
  }

  lemma {:induction false} QuietDevices(b: Board, rows: seq<Reading>, rule: Rule, devices: seq<Uuid>, now: int)
    requires forall k :: 0 <= k < |devices| ==> Decided(b.alerts, rule.id, devices[k], Fires(rows, rule, devices[k], now))
    ensures JudgeDevices(b, rows, rule, devices, now) == b
  {
    hide Fires, Decided, Judge;
    if devices != [] {
      var last := |devices| - 1;
      QuietDevices(b, rows, rule, devices[..last], now);
      DecidedIsQuiet(b.alerts, rule, devices[last], Fires(rows, rule, devices[last], now), now);
    }
  }

  lemma {:induction false} QuietPass(b: Board, rows: seq<Reading>, rules: seq<Rule>, now: int)
    requires AllDecided(b.alerts, rows, rules, now)
    ensures Pass(b, rows, rules, now) == b
  {
    hide Fires, Decided, Judge, Devices;
    if rules != [] {
      var last := |rules| - 1;
      QuietPass(b, rows, rules[..last], now);
      if rules[last].enabled {
        QuietDevices(b, rows, rules[last], Devices(rows, rules[last], now), now);
      }
    }
  }

  /** A pass keeps the table consistent and decides every evaluated pair, and repeating it at the same
      instant on the same samples changes and reports nothing. */
  lemma PassIsIdempotent(alerts: seq<Alert>, rows: seq<Reading>, rules: seq<Rule>, now: int)
    requires Consistent(alerts) && DistinctRules(rules)
    ensures var after := Pass(Board(alerts, []), rows, rules, now).alerts;
            && Consistent(after) && AllDecided(after, rows, rules, now)
            && Pass(Board(after, []), rows, rules, now) == Board(after, [])
  {
    var b := Board(alerts, []);
    PassConsistent(b, rows, rules, now);
    hide Pass, Consistent, Devices, Fires, Decided;
    forall i, k | 0 <= i < |rules| && rules[i].enabled && 0 <= k < |Devices(rows, rules[i], now)|
      ensures Decided(Pass(b, rows, rules, now).alerts, rules[i].id, Devices(rows, rules[i], now)[k],
                      Fires(rows, rules[i], Devices(rows, rules[i], now)[k], now))
    {
      PassDecides(b, rows, rules, now, i, k);
    }
    QuietPass(Board(Pass(b, rows, rules, now).alerts, []), rows, rules, now);
  }

  /** A firing pair has exactly one active alert after the pass. */
  lemma FiringPairHasOneAlert(alerts: seq<Alert>, rows: seq<Reading>, rules: seq<Rule>, now: int, i: nat, k: nat)
    requires Consistent(alerts) && DistinctRules(rules) && i < |rules| && rules[i].enabled
    requires k < |Devices(rows, rules[i], now)| && Fires(rows, rules[i], Devices(rows, rules[i], now)[k], now)
    ensures var after, device := Pass(Board(alerts, []), rows, rules, now).alerts, Devices(rows, rules[i], now)[k];
            exists m :: 0 <= m < |after| && For(after[m], rules[i].id, device)
                        && forall n :: 0 <= n < |after| && For(after[n], rules[i].id, device) ==> n == m
  {
    PassConsistent(Board(alerts, []), rows, rules, now);
    PassDecides(Board(alerts, []), rows, rules, now, i, k);
    hide Pass, Fires, Devices, For;
    var after, device := Pass(Board(alerts, []), rows, rules, now).alerts, Devices(rows, rules[i], now)[k];
    var m :| 0 <= m < |after| && For(after[m], rules[i].id, device);
    forall n | 0 <= n < |after| && For(after[n], rules[i].id, device) ensures n == m {
    }
  }

  // ----------------------------------------------------------------- reports

  /** What a pass may make of row `i`: resolve it, or have added it as OPEN. */
  predicate Changed(before: seq<Alert>, i: nat, a: Alert, now: int) {
    if i < |before| then
      (before[i].status == Open || before[i].status == Acknowledged)
      && a == before[i].(status := Resolved, resolvedAt := Some(now))
    else a.status == Open && a.triggeredAt == now && a.resolvedAt == None
  }

  /** The alerts reported are those changed, each once, and all of them of pairs that are done. */
  ghost predicate Told(before: seq<Alert>, b: Board, now: int, done: set<(Uuid, Uuid)>) {
    && |before| <= |b.alerts|
    && (forall i :: 0 <= i < |b.alerts| && !(i < |before| && b.alerts[i] == before[i]) ==>
          Changed(before, i, b.alerts[i], now) && b.alerts[i] in b.told)
    && (forall a :: a in b.told ==>
          a.rule.Some? && (a.rule.value, a.device) in done
          && exists i :: 0 <= i < |b.alerts| && b.alerts[i] == a && (i >= |before| || before[i] != a))
    && (forall k, l :: 0 <= k < l < |b.told| ==> b.told[k] != b.told[l])
  }

  /** A change to a pair not done before. */
  lemma ToldAppend(before: seq<Alert>, b: Board, after: seq<Alert>, i: nat, now: int, done: set<(Uuid, Uuid)>,
                   rule: Uuid, device: Uuid)
    requires Told(before, b, now, done) && (rule, device) !in done
    requires i < |after| && after[i].rule == Some(rule) && after[i].device == device && Changed(before, i, after[i], now)
    requires if i < |b.alerts| then after == b.alerts[i := after[i]] && i < |before| && b.alerts[i] == before[i]
             else after == b.alerts + [after[i]]
    ensures Told(before, Board(after, b.told + [after[i]]), now, done + {(rule, device)})
  {
    var told := b.told + [after[i]];
    forall a | a in told
      ensures exists j :: 0 <= j < |after| && after[j] == a && (j >= |before| || before[j] != a)
    {
      if a in b.told {
        var j :| 0 <= j < |b.alerts| && b.alerts[j] == a && (j >= |before| || before[j] != a);
        assert after[j] == a;
      } else {
        assert after[i] == a;
      }
    }
    hide Changed;
  }

  lemma ToldMore(before: seq<Alert>, b: Board, now: int, done: set<(Uuid, Uuid)>, more: set<(Uuid, Uuid)>)
    requires Told(before, b, now, done) && done <= more
    ensures Told(before, b, now, more)
  {
    hide Changed;
  }

  /** The alert a pair has that is not done is as it was. */
  lemma NotDone(before: seq<Alert>, b: Board, now: int, done: set<(Uuid, Uuid)>, i: nat, rule: Uuid, device: Uuid)
    requires Told(before, b, now, done) && (rule, device) !in done
    requires i < |b.alerts| && b.alerts[i].rule == Some(rule) && b.alerts[i].device == device
    ensures i < |before| && b.alerts[i] == before[i]
  {
    hide Changed;
  }

  lemma JudgedTold(before: seq<Alert>, b: Board, rows: seq<Reading>, rule: Rule, device: Uuid, now: int, done: set<(Uuid, Uuid)>)
    requires Told(before, b, now, done) && (rule.id, device) !in done
    ensures Told(before, Judged(b, rows, rule, device, now), now, done + {(rule.id, device)})
  {
    var fires := Fires(rows, rule, device, now);
    JudgeWrites(b.alerts, rule, device, fires, now);
    var (after, news) := Judge(b.alerts, rule, device, fires, now);
    hide Judge, Fires, Told;
    if news == None {
      assert b.told + [] == b.told;
      ToldMore(before, b, now, done, done + {(rule.id, device)});
    } else if fires {
      var a := news.value;
      assert after[|b.alerts|] == a;
      ToldLength(before, b, now, done);
      ToldAppend(before, b, after, |b.alerts|, now, done, rule.id, device);
    } else {
      var i :| 0 <= i < |b.alerts| && For(b.alerts[i], rule.id, device) && b.alerts[i].status != Suppressed
               && after == b.alerts[i := b.alerts[i].(status := Resolved, resolvedAt := Some(now))] && news == Some(after[i]);
      NotDone(before, b, now, done, i, rule.id, device);
      ToldAppend(before, b, after, i, now, done, rule.id, device);
    }
  }

  lemma ToldLength(before: seq<Alert>, b: Board, now: int, done: set<(Uuid, Uuid)>)
    requires Told(before, b, now, done)
    ensures |before| <= |b.alerts|
  {
  }

  function Pairs(rule: Uuid, devices: seq<Uuid>): set<(Uuid, Uuid)> {
    set d | d in devices :: (rule, d)
  }

  lemma {:induction false} DevicesTold(before: seq<Alert>, b: Board, rows: seq<Reading>, rule: Rule, devices: seq<Uuid>,
                                       now: int, done: set<(Uuid, Uuid)>)
    requires Told(before, b, now, done) && (forall x :: x in done ==> x.0 != rule.id)
    requires forall i, j :: 0 <= i < j < |devices| ==> devices[i] != devices[j]
    ensures Told(before, JudgeDevices(b, rows, rule, devices, now), now, done + Pairs(rule.id, devices))
  {
    hide Told, Judged;
    if devices == [] {
      assert done + Pairs(rule.id, devices) == done;
    } else {
      var most, last := devices[..|devices| - 1], devices[|devices| - 1];
      DevicesTold(before, b, rows, rule, most, now, done);
      assert last !in most;
      assert done + Pairs(rule.id, devices) == done + Pairs(rule.id, most) + {(rule.id, last)} by {
        assert devices == most + [last];
      }
      JudgedTold(before, JudgeDevices(b, rows, rule, most, now), rows, rule, last, now, done + Pairs(rule.id, most));
    }
  }

  /** The pairs a pass evaluates. */
  function Evaluated(rows: seq<Reading>, rules: seq<Rule>, now: int): set<(Uuid, Uuid)> {
    if rules == [] then {}
    else
      var rule := rules[|rules| - 1];
      Evaluated(rows, rules[..|rules| - 1], now) + if rule.enabled then Pairs(rule.id, Devices(rows, rule, now)) else {}
  }

  lemma {:induction false} EvaluatedRules(rows: seq<Reading>, rules: seq<Rule>, now: int)
    ensures forall x :: x in Evaluated(rows, rules, now) ==> exists i :: 0 <= i < |rules| && rules[i].id == x.0
  {
    if rules != [] {
      EvaluatedRules(rows, rules[..|rules| - 1], now);
      hide Devices;
    }
  }

  lemma {:induction false} EvaluatedMeans(rows: seq<Reading>, rules: seq<Rule>, now: int)
    ensures forall x :: x in Evaluated(rows, rules, now) ==>
              exists rule :: rule in rules && rule.enabled && rule.id == x.0 && x.1 in Devices(rows, rule, now)
  {
    if rules != [] {
      var most, last := rules[..|rules| - 1], rules[|rules| - 1];
      assert rules == most + [last];
      EvaluatedMeans(rows, most, now);
      hide Devices;
    }
  }

  lemma {:induction false} PassTold(before: seq<Alert>, rows: seq<Reading>, rules: seq<Rule>, now: int)
    requires DistinctRules(rules)
    ensures Told(before, Pass(Board(before, []), rows, rules, now), now, Evaluated(rows, rules, now))
  {
    if rules != [] {
      var most, last := rules[..|rules| - 1], rules[|rules| - 1];
      PassTold(before, rows, most, now);
      EvaluatedRules(rows, most, now);
      hide Told, Devices, JudgeDevices;
      var done := Evaluated(rows, most, now);
      if last.enabled {
        DevicesTold(before, Pass(Board(before, []), rows, most, now), rows, last, Devices(rows, last, now), now, done);
      } else {
        assert done + {} == done;
      }
    }
  }

  /** A pass reports each alert it has changed, once, and no other, all of enabled rules and devices with a sample
      in the window; all it does is to resolve OPEN and ACKNOWLEDGED alerts and to add OPEN ones, as of now. */
  lemma PassReports(alerts: seq<Alert>, rows: seq<Reading>, rules: seq<Rule>, now: int)
    requires DistinctRules(rules)
    ensures var b := Pass(Board(alerts, []), rows, rules, now);
            && |alerts| <= |b.alerts|
            && (forall i :: 0 <= i < |alerts| && b.alerts[i] != alerts[i] ==>
                  && (alerts[i].status == Open || alerts[i].status == Acknowledged)
                  && b.alerts[i] == alerts[i].(status := Resolved, resolvedAt := Some(now)) && b.alerts[i] in b.told)
            && (forall i :: |alerts| <= i < |b.alerts| ==>
                  && b.alerts[i].status == Open && b.alerts[i].triggeredAt == now && b.alerts[i].resolvedAt == None
                  && b.alerts[i] in b.told)
            && (forall a :: a in b.told ==>
                  exists i :: 0 <= i < |b.alerts| && b.alerts[i] == a && (i >= |alerts| || alerts[i] != a))
            && (forall a :: a in b.told ==>
                  exists rule :: rule in rules && rule.enabled && a.rule == Some(rule.id) && a.device in Devices(rows, rule, now))
            && (forall k, l :: 0 <= k < l < |b.told| ==> b.told[k] != b.told[l])
  {
    PassTold(alerts, rows, rules, now);
    EvaluatedMeans(rows, rules, now);
    hide Pass, Evaluated, Devices;
  }

  lemma FetchedAppend(rule: Rule, s: seq<Point>, x: Point, now: int)
    ensures Fetched(rule, s + [x], now)
            == Fetched(rule, s, now) + if WindowStart(rule, now) <= x.at <= now then [x] else []
    ensures Fetched(rule, [], now) == []
  {
    assert (s + [x])[..|s|] == s;
    var kept := UpTo(s, now);
    assert UpTo(s + [x], now) == kept + if x.at <= now then [x] else [];
    SinceAppend(kept, x, WindowStart(rule, now));
    assert kept + [] == kept;
  }

  /** The devices evaluated for a rule are those with a sample of its metric in the window. */
  lemma {:induction false} DevicesExactly(rows: seq<Reading>, rule: Rule, now: int, device: Uuid)
    ensures device in Devices(rows, rule, now) <==> Fetched(rule, PointsOf(rows, device, rule.metric), now) != []
  {
    hide Fetched, WindowStart;
    if rows == [] {
      FetchedAppend(rule, [], Point(0, 0.0), now);
    } else {
      var t, x := rows[..|rows| - 1], rows[|rows| - 1];
      DevicesExactly(t, rule, now, device);
      var points := PointsOf(t, device, rule.metric);
      FetchedAppend(rule, points, x.point, now);
      assert points + [] == points;
    }
  }
}

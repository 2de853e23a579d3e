/** The maintenance job over the partitioned table: rollups by organization, then one retention
    transaction that makes day partitions, moves rows into them, drops old ones and deletes the rest. */
module MetricMaintenance {
  import opened Wrappers
  import opened Telemetry
  import opened Rollups
  import RR = RollupRuns

  /** A row of `metric_samples` and the partition it is in: that of a day, or the default one. */
  datatype Placed = Placed(row: Row, home: Option<int>)

  function DayOf(at: int): int { at / DAY }

  function Contents(t: seq<Placed>): seq<Row> {
    if t == [] then [] else Contents(t[..|t| - 1]) + [t[|t| - 1].row]
  }

  /** Every row of an attached day is in that day's partition, every other row in the default one. */
  predicate Housed(t: seq<Placed>, days: set<int>) {
    forall p :: p in t ==>
      if p.home.Some? then p.home.value in days && DayOf(p.row.at) == p.home.value else DayOf(p.row.at) !in days
  }

  // -------------------------------------------------------------- statements

  /** `DELETE ... RETURNING` from the default partition into the one being made. */
  function Moved(t: seq<Placed>, org: Uuid, day: int): (r: seq<Placed>)
    ensures |r| == |t|
  {
    seq(|t|, i requires 0 <= i < |t| =>
      if t[i].home.None? && t[i].row.org == org && DayOf(t[i].row.at) == day then t[i].(home := Some(day)) else t[i])
  }

  /** `DROP TABLE` of a day's partition. */
  function Dropped(t: seq<Placed>, day: int): seq<Placed> {
    if t == [] then []
    else
      var some, p := Dropped(t[..|t| - 1], day), t[|t| - 1];
      if p.home == Some(day) then some else some + [p]
  }

  /** `DELETE` of an organization's rows before the boundary. */
  function Deleted(t: seq<Placed>, org: Uuid, boundary: int): seq<Placed> {
    if t == [] then []
    else
      var some, p := Deleted(t[..|t| - 1], org, boundary), t[|t| - 1];
      if p.row.org == org && p.row.at < boundary then some else some + [p]
  }

  /** How many rows of the default partition are before the boundary. */
  function Stale(t: seq<Placed>, boundary: int): nat {
    if t == [] then 0
    else Stale(t[..|t| - 1], boundary) + if t[|t| - 1].home.None? && t[|t| - 1].row.at < boundary then 1 else 0
  }

  function OutdatedOf(aggregates: map<Bucket, Summary>, size: int, today: int): set<Bucket> {
    set b | b in aggregates && b.size == size && Outdated(b, today)
  }

  // ------------------------------------------------------------------ lemmas

  lemma {:induction false} ContentsAt(t: seq<Placed>)
    ensures |Contents(t)| == |t| && forall i :: 0 <= i < |t| ==> Contents(t)[i] == t[i].row
  {
    if t != [] {
      ContentsAt(t[..|t| - 1]);
    }
  }

  lemma MovedKeeps(t: seq<Placed>, org: Uuid, day: int)
    ensures Contents(Moved(t, org, day)) == Contents(t)
  {
    ContentsAt(t);
    ContentsAt(Moved(t, org, day));
  }

  lemma {:induction false} MovedStale(t: seq<Placed>, org: Uuid, day: int, boundary: int)
    requires boundary <= day * DAY
    ensures Stale(Moved(t, org, day), boundary) == Stale(t, boundary)
  {
    if t != [] {
      var n := |t| - 1;
      MovedStale(t[..n], org, day, boundary);
      assert Moved(t, org, day)[..n] == Moved(t[..n], org, day);
    }
  }

  lemma {:induction false} DroppedMembers(t: seq<Placed>, day: int)
    ensures forall p :: p in Dropped(t, day) <==> p in t && p.home != Some(day)
  {
    if t != [] {
      DroppedMembers(t[..|t| - 1], day);
      assert forall p :: p in t <==> p in t[..|t| - 1] || p == t[|t| - 1];
    }
  }

  /** One more row at the end of the table. */
  lemma OneMore(t: seq<Placed>, p: Placed, day: int, org: Uuid, boundary: int)
    ensures Contents(t + [p]) == Contents(t) + [p.row]
    ensures Stale(t + [p], boundary) == Stale(t, boundary) + if p.home.None? && p.row.at < boundary then 1 else 0
    ensures Dropped(t + [p], day) == if p.home == Some(day) then Dropped(t, day) else Dropped(t, day) + [p]
    ensures Deleted(t + [p], org, boundary)
            == if p.row.org == org && p.row.at < boundary then Deleted(t, org, boundary) else Deleted(t, org, boundary) + [p]
  {
    assert (t + [p])[..|t|] == t;
  }

  lemma {:induction false} DroppedKeeps(t: seq<Placed>, day: int, boundary: int)
    requires forall p :: p in t && p.home == Some(day) ==> p.row.at < boundary
    ensures Keep(Contents(Dropped(t, day)), boundary) == Keep(Contents(t), boundary)
    ensures Stale(Dropped(t, day), boundary) == Stale(t, boundary)
  {
    if t != [] {
      var u, p := t[..|t| - 1], t[|t| - 1];
      assert t == u + [p] && p in t;
      DroppedKeeps(u, day, boundary);
      OneMore(u, p, day, 0, boundary);
      OneMore(Dropped(u, day), p, day, 0, boundary);
      KeepAppend(Contents(u), p.row, boundary);
      KeepAppend(Contents(Dropped(u, day)), p.row, boundary);
      hide Contents, Stale, Dropped, Keep;
    }
  }

  lemma {:induction false} DeletedMembers(t: seq<Placed>, org: Uuid, boundary: int)
    ensures forall p :: p in Deleted(t, org, boundary) <==> p in t && !(p.row.org == org && p.row.at < boundary)
  {
    if t != [] {
      DeletedMembers(t[..|t| - 1], org, boundary);
      assert forall p :: p in t <==> p in t[..|t| - 1] || p == t[|t| - 1];
    }
  }

  lemma {:induction false} DeletedKeeps(t: seq<Placed>, org: Uuid, boundary: int)
    requires forall p :: p in t && p.row.at < boundary ==> p.home.None?
    ensures Keep(Contents(Deleted(t, org, boundary)), boundary) == Keep(Contents(t), boundary)
    ensures |t| - |Deleted(t, org, boundary)| == Stale(t, boundary) - Stale(Deleted(t, org, boundary), boundary)
    ensures |Deleted(t, org, boundary)| <= |t|
  {
    if t != [] {
      var u, p := t[..|t| - 1], t[|t| - 1];
      assert t == u + [p] && p in t;
      DeletedKeeps(u, org, boundary);
      OneMore(u, p, 0, org, boundary);
      OneMore(Deleted(u, org, boundary), p, 0, org, boundary);
      KeepAppend(Contents(u), p.row, boundary);
      KeepAppend(Contents(Deleted(u, org, boundary)), p.row, boundary);
      hide Contents, Stale, Deleted, Keep;
    }
  }

  lemma {:induction false} NothingStale(t: seq<Placed>, boundary: int)
    requires forall p :: p in t ==> p.row.at >= boundary
    ensures Stale(t, boundary) == 0 && Keep(Contents(t), boundary) == Contents(t)
  {
    if t != [] {
      NothingStale(t[..|t| - 1], boundary);
    }
  }

  // ---------------------------------------------------------------- the class

  /** All rows are of known organizations, as the foreign keys demand. */
  predicate Owned(t: seq<Placed>, aggregates: map<Bucket, Summary>, orgs: seq<Uuid>) {
    (forall p :: p in t ==> p.row.org in orgs) && (forall b :: b in aggregates ==> b.org in orgs)
  }

  /** Like `Housed`, while the partition of `day` is being filled. */
  predicate Filling(t: seq<Placed>, days: set<int>, day: int) {
    forall p :: p in t ==>
      if p.home.Some? then (p.home.value in days || p.home.value == day) && DayOf(p.row.at) == p.home.value
      else DayOf(p.row.at) !in days
  }

  /** The rows of the day and of these organizations have left the default partition. */
  predicate Emptied(t: seq<Placed>, day: int, orgs: seq<Uuid>) {
    forall p :: p in t && p.home.None? && DayOf(p.row.at) == day ==> p.row.org !in orgs
  }

  lemma MovedMembers(t: seq<Placed>, org: Uuid, day: int)
    ensures forall p :: p in Moved(t, org, day) ==>
              exists q :: q in t && q.row == p.row
                          && p.home == if q.home.None? && q.row.org == org && DayOf(q.row.at) == day then Some(day)
                                       else q.home
  {
    forall p | p in Moved(t, org, day)
      ensures exists q :: q in t && q.row == p.row
                          && p.home == if q.home.None? && q.row.org == org && DayOf(q.row.at) == day then Some(day)
                                       else q.home
    {
      var i :| 0 <= i < |t| && Moved(t, org, day)[i] == p;
      assert t[i] in t;
    }
  }

  lemma MovedFills(t: seq<Placed>, days: set<int>, day: int, orgs: seq<Uuid>, org: Uuid)
    requires Filling(t, days, day) && Emptied(t, day, orgs) && day !in days
    ensures Filling(Moved(t, org, day), days, day) && Emptied(Moved(t, org, day), day, orgs + [org])
  {
    MovedMembers(t, org, day);
    hide DayOf, Moved;
    var m := Moved(t, org, day);
    forall p | p in m && p.home.None? && DayOf(p.row.at) == day ensures p.row.org !in orgs + [org] {
      var q :| q in t && q.row == p.row
               && p.home == if q.home.None? && q.row.org == org && DayOf(q.row.at) == day then Some(day) else q.home;
    }
  }

  class MetricTables {
    var rows: seq<Placed>
    var days: set<int>
    var aggregates: map<Bucket, Summary>

    /** `run_downsampling`: an unsupported interval raises; otherwise the organization's buckets of this size
        with a row up to the cutoff get a summary of all those rows, and nothing else changes. */
    method RunDownsampling(org: Uuid, size: int, cutoff: int) returns (ok: bool)
      modifies this`aggregates
      ensures ok <==> Supported(size)
      ensures ok ==> aggregates == Downsample(old(aggregates), Contents(rows), org, size, cutoff)
      ensures forall b: Bucket :: Supported(b.size) ==>
                var seen := InBucket(UpTo(Contents(rows), cutoff), b);
                if ok && b.org == org && b.size == size && seen != [] then
                  b in aggregates && aggregates[b] == Summarize(seen)
                else
                  (b in aggregates <==> b in old(aggregates)) && (b in aggregates ==> aggregates[b] == old(aggregates)[b])
    {
      if size != HOUR && size != DAY {
        return false;
      }
      hide Contents, Downsample, InBucket, UpTo, Summarize;
      forall b: Bucket | Supported(b.size)
        ensures var after := Downsample(aggregates, Contents(rows), org, size, cutoff);
                var seen := InBucket(UpTo(Contents(rows), cutoff), b);
                if b.org == org && b.size == size && seen != [] then b in after && after[b] == Summarize(seen)
                else (b in after <==> b in aggregates) && (b in aggregates ==> after[b] == aggregates[b])
      {
        DownsampleEffect(aggregates, Contents(rows), org, size, cutoff, b);
      }
      aggregates := Downsample(aggregates, Contents(rows), org, size, cutoff);
      return true;
    }

    /** The loop body that makes one day's partition: every organization's rows move, then it is attached. */
    method AttachDay(orgs: seq<Uuid>, day: int, boundary: int)
      requires day !in days && boundary <= day * DAY
      requires Housed(rows, days) && Owned(rows, aggregates, orgs)
      modifies this`rows, this`days
      ensures Contents(rows) == old(Contents(rows)) && days == old(days) + {day}
      ensures Stale(rows, boundary) == old(Stale(rows, boundary))
      ensures Housed(rows, days) && Owned(rows, aggregates, orgs)
    {
      hide Stale, Contents, DayOf;
      var i := 0;
      while i < |orgs|
        invariant 0 <= i <= |orgs| && days == old(days)
        invariant Filling(rows, days, day) && Emptied(rows, day, orgs[..i]) && Owned(rows, aggregates, orgs)
        invariant Contents(rows) == old(Contents(rows)) && Stale(rows, boundary) == old(Stale(rows, boundary))
      {
        MovedFills(rows, days, day, orgs[..i], orgs[i]);
        MovedMembers(rows, orgs[i], day);
        MovedKeeps(rows, orgs[i], day);
        MovedStale(rows, orgs[i], day, boundary);
        assert orgs[..i + 1] == orgs[..i] + [orgs[i]];
        rows := Moved(rows, orgs[i], day);
        i := i + 1;
      }
      assert orgs[..i] == orgs;
      days := days + {day};
    }

    /** Partitions of the 29 days around today. */
    method AttachDays(orgs: seq<Uuid>, today: int)
      requires Housed(rows, days) && Owned(rows, aggregates, orgs)
      modifies this`rows, this`days
      ensures Contents(rows) == old(Contents(rows)) && days == old(days) + DaysAround(today, 15)
      ensures Stale(rows, Boundary(today)) == old(Stale(rows, Boundary(today)))
      ensures Housed(rows, days) && Owned(rows, aggregates, orgs)
    {
      hide Stale, Contents, Housed, Owned, DaysAround, Boundary;
      assert DaysAround(today, -14) == {};
      var offset := -14;
      while offset < 15
        invariant -14 <= offset <= 15
        invariant days == old(days) + DaysAround(today, offset)
        invariant Contents(rows) == old(Contents(rows)) && Stale(rows, Boundary(today)) == old(Stale(rows, Boundary(today)))
        invariant Housed(rows, days) && Owned(rows, aggregates, orgs)
      {
        assert DaysAround(today, offset + 1) == DaysAround(today, offset) + {today + offset};
        assert Boundary(today) <= (today + offset) * DAY by { BoundaryBefore(today, offset); }
        if today + offset !in days {
          AttachDay(orgs, today + offset, Boundary(today));
        }
        offset := offset + 1;
      }
    }

    /** Dropping the partitions of days before the boundary; their rows go uncounted. */
    method DropOldPartitions(today: int) returns (dropped: nat)
      requires Housed(rows, days)
      modifies this`rows, this`days
      ensures Keep(Contents(rows), Boundary(today)) == old(Keep(Contents(rows), Boundary(today)))
      ensures Stale(rows, Boundary(today)) == old(Stale(rows, Boundary(today)))
      ensures days == old(days) - OldDays(old(days), today) && dropped == |OldDays(old(days), today)|
      ensures Housed(rows, days) && forall p :: p in rows ==> p in old(rows)
    {
      hide Keep, Contents, Stale;
      var pending := OldDays(days, today);
      dropped := 0;
      while pending != {}
        invariant pending == OldDays(days, today) && pending <= OldDays(old(days), today)
        invariant days == old(days) - (OldDays(old(days), today) - pending)
        invariant dropped + |pending| == |OldDays(old(days), today)|
        invariant Keep(Contents(rows), Boundary(today)) == old(Keep(Contents(rows), Boundary(today)))
        invariant Stale(rows, Boundary(today)) == old(Stale(rows, Boundary(today)))
        invariant Housed(rows, days) && forall p :: p in rows ==> p in old(rows)
        decreases |pending|
      {
        var day :| day in pending;
        DroppedMembers(rows, day);
        DroppedKeeps(rows, day, Boundary(today));
        rows := Dropped(rows, day);
        days := days - {day};
        pending := pending - {day};
        dropped := dropped + 1;
      }
    }
  }

  lemma BoundaryBefore(today: int, offset: int)
    requires offset >= -14
    ensures Boundary(today) <= (today + offset) * DAY
  {
  }

  /** The days from a fortnight before today up to, not including, `offset` days after it. */
  function DaysAround(today: int, offset: int): (r: set<int>)
    ensures forall d :: d in r <==> today - 14 <= d < today + offset
    decreases offset + 14
  {
    if offset <= -14 then {} else DaysAround(today, offset - 1) + {today + offset - 1}
  }

  function OldDays(days: set<int>, today: int): set<int> {
    set d | d in days && d < today - RAW_DAYS
  }

  // ------------------------------------------------------ what tenants lose

  /** Aggregates of the organization that are past their retention go. */
  function Kept(aggregates: map<Bucket, Summary>, org: Uuid, today: int): map<Bucket, Summary> {
    map b | b in aggregates && !(b.org == org && Outdated(b, today)) :: aggregates[b]
  }

  /** After the organizations `done`. */
  function KeptAfter(aggregates: map<Bucket, Summary>, done: seq<Uuid>, today: int): map<Bucket, Summary> {
    map b | b in aggregates && !(b.org in done && Outdated(b, today)) :: aggregates[b]
  }

  lemma KeptNext(aggregates: map<Bucket, Summary>, done: seq<Uuid>, org: Uuid, today: int)
    ensures Kept(KeptAfter(aggregates, done, today), org, today) == KeptAfter(aggregates, done + [org], today)
  {
    hide Outdated;
  }

  lemma KeptLast(aggregates: map<Bucket, Summary>, orgs: seq<Uuid>, today: int)
    requires forall b :: b in aggregates ==> b.org in orgs
    ensures KeptAfter(aggregates, [], today) == aggregates
    ensures var last := KeptAfter(aggregates, orgs, today);
            && last == (map b | b in aggregates && !Outdated(b, today) :: aggregates[b])
            && OutdatedOf(last, HOUR, today) == {} && OutdatedOf(last, DAY, today) == {}
  {
    hide Outdated;
  }

  function OutdatedFor(aggregates: map<Bucket, Summary>, org: Uuid, size: int, today: int): set<Bucket> {
    set b | b in aggregates && b.org == org && b.size == size && Outdated(b, today)
  }

  lemma KeptCounts(aggregates: map<Bucket, Summary>, org: Uuid, size: int, today: int)
    ensures |OutdatedOf(aggregates, size, today)|
            == |OutdatedOf(Kept(aggregates, org, today), size, today)| + |OutdatedFor(aggregates, org, size, today)|
  {
    var all, rest, gone := OutdatedOf(aggregates, size, today), OutdatedOf(Kept(aggregates, org, today), size, today),
                           OutdatedFor(aggregates, org, size, today);
    assert all == rest + gone && rest !! gone;
  }

  /** Nothing before the boundary has a home once the old partitions are dropped. */
  lemma OldRowsHomeless(t: seq<Placed>, days: set<int>, today: int)
    requires Housed(t, days) && OldDays(days, today) == {}
    ensures forall p :: p in t && p.row.at < Boundary(today) ==> p.home.None?
  {
    forall p | p in t && p.home.Some? ensures p.row.at >= Boundary(today) {
      assert p.home.value !in OldDays(days, today);
      MidnightBefore(p.row.at, today - RAW_DAYS);
    }
  }

  lemma MidnightBefore(at: int, day: int)
    requires DayOf(at) >= day
    ensures at >= day * DAY
  {
  }

  /** What is before the boundary is in the default partition, and not of the organizations `done`. */
  predicate PurgedFor(t: seq<Placed>, done: seq<Uuid>, boundary: int) {
    forall p :: p in t && p.row.at < boundary ==> p.home.None? && p.row.org !in done
  }

  lemma DeletedNext(t: seq<Placed>, aggregates: map<Bucket, Summary>, days: set<int>, orgs: seq<Uuid>,
                    done: seq<Uuid>, org: Uuid, boundary: int)
    requires Housed(t, days) && Owned(t, aggregates, orgs) && PurgedFor(t, done, boundary)
    ensures var kept := Deleted(t, org, boundary);
            && Housed(kept, days) && Owned(kept, aggregates, orgs) && PurgedFor(kept, done + [org], boundary)
            && |kept| <= |t| && |t| - |kept| == Stale(t, boundary) - Stale(kept, boundary)
            && Keep(Contents(kept), boundary) == Keep(Contents(t), boundary)
  {
    hide Keep, Contents, Stale, DayOf, Deleted;
    DeletedMembers(t, org, boundary);
    DeletedKeeps(t, org, boundary);
  }

  lemma PurgedForAll(t: seq<Placed>, aggregates: map<Bucket, Summary>, orgs: seq<Uuid>, boundary: int)
    requires Owned(t, aggregates, orgs) && PurgedFor(t, orgs, boundary)
    ensures forall p :: p in t ==> p.row.at >= boundary
  {
  }

  lemma KeptOwned(t: seq<Placed>, aggregates: map<Bucket, Summary>, orgs: seq<Uuid>, org: Uuid, today: int)
    requires Owned(t, aggregates, orgs)
    ensures Owned(t, Kept(aggregates, org, today), orgs)
  {
    hide Outdated;
  }

  /** The transaction keeps what is recent, in its place, and says truly what went. */
  method RunMetricMaintenance(tables: MetricTables, orgs: seq<Uuid>, today: int)
    returns (raw: nat, hourly: nat, daily: nat, dropped: nat)
    requires Housed(tables.rows, tables.days) && Owned(tables.rows, tables.aggregates, orgs)
    modifies tables
    ensures Housed(tables.rows, tables.days)
    ensures Contents(tables.rows) == Keep(old(Contents(tables.rows)), Boundary(today))
    ensures tables.days == old(tables.days) + DaysAround(today, 15) - OldDays(old(tables.days), today)
    ensures tables.aggregates == map b | b in old(tables.aggregates) && !Outdated(b, today) :: old(tables.aggregates)[b]
    ensures raw == old(Stale(tables.rows, Boundary(today))) && dropped == |OldDays(old(tables.days), today)|
    ensures hourly == |OutdatedOf(old(tables.aggregates), HOUR, today)|
    ensures daily == |OutdatedOf(old(tables.aggregates), DAY, today)|
  {
    hide Contents, Keep, Stale, Housed, Outdated, Boundary, DaysAround;
    tables.AttachDays(orgs, today);
    assert OldDays(tables.days, today) == OldDays(old(tables.days), today);
    dropped := tables.DropOldPartitions(today);
    OldRowsHomeless(tables.rows, tables.days, today);
    raw, hourly, daily := PurgeTenants(tables, orgs, today);
    assert forall p :: p in tables.rows ==> p.row.at >= Boundary(today);
    NothingStale(tables.rows, Boundary(today));
  }

  /** The last loop: each organization's old rows and aggregates. */
  method PurgeTenants(tables: MetricTables, orgs: seq<Uuid>, today: int) returns (raw: nat, hourly: nat, daily: nat)
    requires Housed(tables.rows, tables.days) && Owned(tables.rows, tables.aggregates, orgs)
    requires forall p :: p in tables.rows && p.row.at < Boundary(today) ==> p.home.None?
    modifies tables`rows, tables`aggregates
    ensures Housed(tables.rows, tables.days)
    ensures forall p :: p in tables.rows ==> p.row.at >= Boundary(today)
    ensures Keep(Contents(tables.rows), Boundary(today)) == old(Keep(Contents(tables.rows), Boundary(today)))
    ensures raw + Stale(tables.rows, Boundary(today)) == old(Stale(tables.rows, Boundary(today)))
    ensures tables.aggregates == map b | b in old(tables.aggregates) && !Outdated(b, today) :: old(tables.aggregates)[b]
    ensures hourly == |OutdatedOf(old(tables.aggregates), HOUR, today)|
    ensures daily == |OutdatedOf(old(tables.aggregates), DAY, today)|
  {
    hide Keep, Contents, Stale, Housed, Boundary, Outdated, OutdatedOf, OutdatedFor, Kept, KeptAfter;
    KeptLast(tables.aggregates, orgs, today);
    hide Owned;
    assert PurgedFor(tables.rows, [], Boundary(today));
    hide PurgedFor;
    ghost var before := tables.aggregates;
    raw, hourly, daily := 0, 0, 0;
    var i := 0;
    while i < |orgs|
      invariant 0 <= i <= |orgs|
      invariant Housed(tables.rows, tables.days) && Owned(tables.rows, tables.aggregates, orgs)
      invariant PurgedFor(tables.rows, orgs[..i], Boundary(today))
      invariant Keep(Contents(tables.rows), Boundary(today)) == old(Keep(Contents(tables.rows), Boundary(today)))
      invariant raw + Stale(tables.rows, Boundary(today)) == old(Stale(tables.rows, Boundary(today)))
      invariant tables.aggregates == KeptAfter(before, orgs[..i], today)
      invariant hourly + |OutdatedOf(tables.aggregates, HOUR, today)| == |OutdatedOf(before, HOUR, today)|
      invariant daily + |OutdatedOf(tables.aggregates, DAY, today)| == |OutdatedOf(before, DAY, today)|
    {
      var org := orgs[i];
      assert orgs[..i + 1] == orgs[..i] + [org];
      var kept := Deleted(tables.rows, org, Boundary(today));
      DeletedNext(tables.rows, tables.aggregates, tables.days, orgs, orgs[..i], org, Boundary(today));
      raw := raw + (|tables.rows| - |kept|);
      tables.rows := kept;
      KeptNext(before, orgs[..i], org, today);
      KeptOwned(tables.rows, tables.aggregates, orgs, org, today);
      KeptCounts(tables.aggregates, org, HOUR, today);
      KeptCounts(tables.aggregates, org, DAY, today);
      hourly := hourly + |OutdatedFor(tables.aggregates, org, HOUR, today)|;
      daily := daily + |OutdatedFor(tables.aggregates, org, DAY, today)|;
      tables.aggregates := Kept(tables.aggregates, org, today);
      i := i + 1;
    }
    assert orgs[..i] == orgs;
    PurgedForAll(tables.rows, tables.aggregates, orgs, Boundary(today));
  }

  /** `run_once`: the cycle is, step for step, the rollups of the active organizations and then the
      retention; without the leader's lock nothing happens. */
  method RunOnce(tables: MetricTables, acquired: bool, active: seq<Uuid>, hourly: seq<int>, daily: seq<int>,
                 orgs: seq<Uuid>, today: int, ghost w: RR.World) returns (done: bool)
    requires Housed(tables.rows, tables.days) && Owned(tables.rows, tables.aggregates, orgs)
    requires |active| == |hourly| == |daily| && forall k :: 0 <= k < |active| ==> active[k] in orgs
    requires w.raw == Contents(tables.rows) && w.aggregates == tables.aggregates
    modifies tables
    ensures done == acquired && Housed(tables.rows, tables.days)
    ensures var v := RR.Next(RR.RollAll(w, active, hourly, daily), RR.Retain(today));
            acquired ==> Contents(tables.rows) == v.raw && tables.aggregates == v.aggregates
    ensures !acquired ==> Contents(tables.rows) == w.raw && tables.aggregates == w.aggregates
  {
    if !acquired {
      return false;
    }
    hide Contents, Keep, Downsample, Housed, Owned, RR.RollAll, RR.RollFirst, Outdated, Boundary, Stale;
    RollActive(tables, active, hourly, daily, orgs, w);
    assert RR.RollAll(w, active, hourly, daily).raw == w.raw by { RollAllKeepsRaw(w, active, hourly, daily); }
    var raw, h, d, dropped := RunMetricMaintenance(tables, orgs, today);
    return true;
  }

  /** The loop over the active organizations. */
  method RollActive(tables: MetricTables, active: seq<Uuid>, hourly: seq<int>, daily: seq<int>,
                    orgs: seq<Uuid>, ghost w: RR.World)
    requires Owned(tables.rows, tables.aggregates, orgs)
    requires |active| == |hourly| == |daily| && forall k :: 0 <= k < |active| ==> active[k] in orgs
    requires w.raw == Contents(tables.rows) && w.aggregates == tables.aggregates
    modifies tables`aggregates
    ensures Owned(tables.rows, tables.aggregates, orgs)
    ensures tables.aggregates == RR.RollAll(w, active, hourly, daily).aggregates
  {
    hide Contents, Downsample, Owned;
    var k := 0;
    while k < |active|
      invariant 0 <= k <= |active|
      invariant tables.aggregates == RR.RollFirst(w, active, hourly, daily, k).aggregates
      invariant Owned(tables.rows, tables.aggregates, orgs)
    {
      RollNext(w, active, hourly, daily, k);
      DownsampleOwned(tables.rows, tables.aggregates, Contents(tables.rows), active[k], HOUR, hourly[k] - HOUR, orgs);
      var a := tables.RunDownsampling(active[k], HOUR, hourly[k] - HOUR);
      DownsampleOwned(tables.rows, tables.aggregates, Contents(tables.rows), active[k], DAY, daily[k] - DAY, orgs);
      var b := tables.RunDownsampling(active[k], DAY, daily[k] - DAY);
      k := k + 1;
    }
  }

  lemma {:induction false} RollKeepsRaw(w: RR.World, active: seq<Uuid>, hourly: seq<int>, daily: seq<int>, k: nat)
    requires |active| == |hourly| == |daily| && k <= |active|
    ensures RR.RollFirst(w, active, hourly, daily, k).raw == w.raw
  {
    hide Downsample;
    if k > 0 {
      RollKeepsRaw(w, active, hourly, daily, k - 1);
    }
  }

  lemma RollAllKeepsRaw(w: RR.World, active: seq<Uuid>, hourly: seq<int>, daily: seq<int>)
    requires |active| == |hourly| == |daily|
    ensures RR.RollAll(w, active, hourly, daily).raw == w.raw
  {
    RollKeepsRaw(w, active, hourly, daily, |active|);
  }

  lemma RollNext(w: RR.World, active: seq<Uuid>, hourly: seq<int>, daily: seq<int>, k: nat)
    requires |active| == |hourly| == |daily| && k < |active|
    ensures RR.RollFirst(w, active, hourly, daily, k + 1).aggregates
            == Downsample(Downsample(RR.RollFirst(w, active, hourly, daily, k).aggregates, w.raw, active[k], HOUR,
                                     hourly[k] - HOUR), w.raw, active[k], DAY, daily[k] - DAY)
  {
    hide Downsample;
    RollKeepsRaw(w, active, hourly, daily, k);
  }

  lemma DownsampleOwned(t: seq<Placed>, aggregates: map<Bucket, Summary>, rows: seq<Row>, org: Uuid, size: int, cutoff: int,
                        orgs: seq<Uuid>)
    requires Supported(size) && org in orgs && Owned(t, aggregates, orgs)
    ensures Owned(t, Downsample(aggregates, rows, org, size, cutoff), orgs)
  {
  }
}

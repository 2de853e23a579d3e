/** The trace each queued batch leaves: it stays queued, the audit log names it, or the call that
    removed it says so. */
module QueueTraces {
  import opened Wrappers
  import opened Telemetry
  import opened QueueTables
  import opened QueueTransactions
  import opened QueueInvariants

  /** The audit row reports what became of the batch. */
  predicate Reports(a: Audit, id: Uuid) {
    !a.PayloadExpired? && a.batch == id
  }

  predicate Named(log: seq<Audit>, id: Uuid) {
    exists a :: a in log && Reports(a, id)
  }

  predicate Carries(rows: seq<Row>, id: Uuid, samples: seq<Sample>) {
    exists r :: r in rows && r.id == id && r.samples == samples
  }

  /** From one store to the next: rows in `gone` were removed by request, rows in `born` are new, and
      every other row is still there with its samples or is named by the audit log. */
  ghost predicate Traced(db: Database, after: Database, gone: set<Uuid>, born: map<Uuid, seq<Sample>>) {
    && db.audit <= after.audit
    && (forall r :: r in db.queue ==> r.id in gone || HasId(after.queue, r.id) || Named(after.audit, r.id))
    && (forall r :: r in after.queue ==>
          (r.id in born && born[r.id] == r.samples) || Carries(db.queue, r.id, r.samples))
    && (forall id :: id in born ==> HasId(after.queue, id) || Named(after.audit, id))
  }

  lemma NamedStays(log: seq<Audit>, more: seq<Audit>)
    requires log <= more
    ensures forall id :: Named(log, id) ==> Named(more, id)
  {
    assert forall a :: a in log ==> a in more;
  }

  lemma RowHasId(rows: seq<Row>)
    ensures forall r :: r in rows ==> HasId(rows, r.id) && Carries(rows, r.id, r.samples)
    ensures forall id :: HasId(rows, id) ==> exists r :: r in rows && r.id == id
  {
  }

  lemma TraceNothing(db: Database)
    ensures Traced(db, db, {}, map[])
  {
    RowHasId(db.queue);
  }

  lemma TraceChain(a: Database, b: Database, c: Database, gone: set<Uuid>, born: map<Uuid, seq<Sample>>,
                   later: map<Uuid, seq<Sample>>)
    requires Traced(a, b, gone, born) && Traced(b, c, {}, later) && born.Keys !! later.Keys
    ensures Traced(a, c, gone, born + later)
  {
    NamedStays(b.audit, c.audit);
    RowHasId(b.queue);
    forall r | r in a.queue ensures r.id in gone || HasId(c.queue, r.id) || Named(c.audit, r.id) {
      if HasId(b.queue, r.id) {
        var q :| q in b.queue && q.id == r.id;
      }
    }
    forall id | id in born + later ensures HasId(c.queue, id) || Named(c.audit, id) {
      if id in born && HasId(b.queue, id) {
        var q :| q in b.queue && q.id == id;
      }
    }
    hide HasId, Named;
    forall r | r in c.queue
      ensures (r.id in born + later && (born + later)[r.id] == r.samples) || Carries(a.queue, r.id, r.samples)
    {
      if !(r.id in later && later[r.id] == r.samples) {
        var q :| q in b.queue && q.id == r.id && q.samples == r.samples;
      }
    }
  }

  lemma NoticesName(rows: seq<Row>, cause: Cause, r: Row)
    requires r in rows
    ensures Named(Notices(rows, cause), r.id)
  {
    var i :| 0 <= i < |rows| && rows[i] == r;
    assert Notices(rows, cause)[i] in Notices(rows, cause);
    assert Reports(Notices(rows, cause)[i], r.id);
  }

  lemma TraceEvict(db: Database, k: nat, cause: Cause)
    requires k <= |EvictionOrder(db.queue)|
    ensures Traced(db, Evict(db, k, cause), {}, map[])
  {
    hide Evict, EvictionOrder, Survivors, HasId, Named, Notices;
    var after := Evict(db, k, cause);
    var out := EvictionOrder(db.queue)[..k];
    SurvivorsRows(db.queue, k);
    SurvivorsKeys(db.queue, k);
    RowHasId(db.queue);
    RowHasId(after.queue);
    assert after.audit == db.audit + Notices(out, cause) && after.queue == Survivors(db.queue, k) by {
      EvictParts(db, k, cause);
    }
    forall r | r in db.queue ensures HasId(after.queue, r.id) || Named(after.audit, r.id) {
      assert multiset(db.queue)[r] > 0;
      if r in out {
        NoticesName(out, cause, r);
        NamedEnd(db.audit, Notices(out, cause), r.id);
      }
    }
  }

  lemma EvictParts(db: Database, k: nat, cause: Cause)
    requires k <= |EvictionOrder(db.queue)|
    ensures Evict(db, k, cause).audit == db.audit + Notices(EvictionOrder(db.queue)[..k], cause)
    ensures Evict(db, k, cause).queue == Survivors(db.queue, k)
  {
  }

  lemma NamedEnd(log: seq<Audit>, more: seq<Audit>, id: Uuid)
    requires Named(more, id)
    ensures Named(log + more, id)
  {
    var a :| a in more && Reports(a, id);
    assert a in log + more;
  }

  lemma TraceAppend(db: Database, row: Row)
    ensures Traced(db, db.(queue := db.queue + [row]), {}, map[row.id := row.samples])
  {
    var after := db.queue + [row];
    RowHasId(db.queue);
    RowHasId(after);
    assert row in after && forall r :: r in db.queue ==> r in after;
    hide HasId, Named, Carries;
  }

  lemma TraceInsert(c: Config, db: Database, id: Uuid, parent: Option<Uuid>, samples: seq<Sample>,
                    depth: nat, critical: bool, now: int)
    requires InsertTx(c, db, id, parent, samples, depth, critical, now).verdict.Done?
    ensures Traced(db, InsertTx(c, db, id, parent, samples, depth, critical, now).db, {}, map[id := samples])
  {
    var k := RoomFor(c, db, c.packed(samples)).value;
    var room := Evict(db, k, QueueQuota);
    var row := Row(NextRowid(room.queue), id, parent, samples, c.packed(samples), critical, depth, 0, 0, now);
    assert InsertTx(c, db, id, parent, samples, depth, critical, now).db == room.(queue := room.queue + [row]);
    hide Traced, Evict, InsertTx;
    TraceEvict(db, k, QueueQuota);
    TraceAppend(room, row);
    TraceChain(db, room, room.(queue := room.queue + [row]), {}, map[], map[id := samples]);
    assert map[] + map[id := samples] == map[id := samples];
  }

  lemma TraceDisk(c: Config, db: Database, sizes: seq<nat>)
    ensures Traced(db, DiskBound(c, db, sizes).db, {}, map[])
  {
    hide Traced, Evict;
    TraceNothing(db);
    if c.physicalQuota && TooLarge(c.maxQueue, sizes, 0) {
      TraceEvict(db, DiskEvictions(db.queue, c.maxQueue, sizes[1..]), PhysicalQuota);
    }
  }

  /** An enqueue whose INSERT committed, whatever the disk check says afterwards. */
  lemma TraceEnqueue(c: Config, db: Database, id: Uuid, samples: seq<Sample>, critical: bool, now: int, sizes: seq<nat>)
    ensures var done := EnqueueTx(c, db, id, None, samples, 0, critical, now).verdict.Done?;
            Traced(db, Enqueue(c, db, id, None, samples, 0, critical, now, sizes).db, {},
                   if done then map[id := samples] else map[])
  {
    hide Traced, InsertTx, DiskBound;
    var tx := EnqueueTx(c, db, id, None, samples, 0, critical, now);
    if tx.verdict.Done? {
      TraceInsert(c, db, id, None, samples, 0, critical, now);
      TraceDisk(c, tx.db, sizes);
      TraceChain(db, tx.db, DiskBound(c, tx.db, sizes).db, {}, map[id := samples], map[]);
      assert map[id := samples] + map[] == map[id := samples];
    } else {
      RaisedEnqueue(c, db, id, samples, critical, now);
      TraceNothing(db);
    }
  }

  lemma RaisedEnqueue(c: Config, db: Database, id: Uuid, samples: seq<Sample>, critical: bool, now: int)
    ensures EnqueueTx(c, db, id, None, samples, 0, critical, now).verdict.Raised? ==>
              EnqueueTx(c, db, id, None, samples, 0, critical, now).db == db
  {
  }

  lemma TraceRemove(db: Database, i: nat)
    requires i < |db.queue|
    ensures Traced(db, db.(queue := Without(db.queue, i)), {db.queue[i].id}, map[])
  {
    WithoutKeys(db.queue, i);
    RowHasId(db.queue);
    RowHasId(Without(db.queue, i));
    hide Without, HasId, Named, Carries;
  }

  lemma TraceAcknowledge(db: Database, id: Uuid)
    ensures Traced(db, Acknowledge(db, id).0, {id}, map[])
  {
    if IndexOf(db.queue, id).Some? {
      TraceRemove(db, IndexOf(db.queue, id).value);
    } else {
      TraceNothing(db);
    }
  }

  lemma UpdateRows(rows: seq<Row>, i: nat, row: Row)
    requires i < |rows|
    ensures row in rows[i := row] && rows[i] in rows
    ensures forall r :: r in rows ==> r == rows[i] || r in rows[i := row]
    ensures forall r :: r in rows[i := row] ==> r == row || r in rows
  {
    var after := rows[i := row];
    assert after[i] == row;
    forall r | r in rows && r != rows[i] ensures r in after {
      var j :| 0 <= j < |rows| && rows[j] == r;
      assert after[j] == r;
    }
  }

  lemma TraceUpdate(db: Database, i: nat, row: Row)
    requires i < |db.queue| && row.id == db.queue[i].id && row.samples == db.queue[i].samples
    ensures Traced(db, db.(queue := db.queue[i := row]), {}, map[])
  {
    var after := db.queue[i := row];
    UpdateRows(db.queue, i, row);
    RowHasId(db.queue);
    RowHasId(after);
    hide HasId, Named, Carries;
    forall r | r in db.queue ensures HasId(after, r.id) {
      assert r in after || row in after;
    }
    forall r | r in after ensures Carries(db.queue, r.id, r.samples) {
      assert r in db.queue || db.queue[i] in db.queue;
    }
  }

  lemma TraceDefer(db: Database, id: Uuid, until: int)
    ensures Traced(db, Defer(db, id, until), {}, map[])
  {
    hide Traced;
    match IndexOf(db.queue, id)
    case None => TraceNothing(db);
    case Some(i) =>
      TraceUpdate(db, i, db.queue[i].(attempts := db.queue[i].attempts + 1, nextAttempt := until));
  }

  lemma TraceSplit(c: Config, db: Database, batch: StoredBatch, left: Uuid, right: Uuid, now: int, later: int)
    requires left != right && Split(c, db, batch, left, right, now, later).verdict.Done?
    ensures Traced(db, Split(c, db, batch, left, right, now, later).db, {batch.id},
                   map[left := batch.samples[..|batch.samples| / 2], right := batch.samples[|batch.samples| / 2..]])
  {
    hide Traced, InsertTx, Without;
    var i := IndexOf(db.queue, batch.id).value;
    var mid := |batch.samples| / 2;
    var gone := db.(queue := Without(db.queue, i));
    var one := SplitFirst(c, db, batch, i, left, now);
    var two := SplitSecond(c, one.db, batch, db.queue[i].critical, right, later);
    TraceRemove(db, i);
    TraceInsert(c, gone, left, Some(batch.id), batch.samples[..mid], batch.depth + 1, db.queue[i].critical, now);
    TraceInsert(c, one.db, right, Some(batch.id), batch.samples[mid..], batch.depth + 1, db.queue[i].critical, later);
    TraceChain(db, gone, one.db, {batch.id}, map[], map[left := batch.samples[..mid]]);
    assert map[] + map[left := batch.samples[..mid]] == map[left := batch.samples[..mid]];
    TraceChain(db, one.db, two.db, {batch.id}, map[left := batch.samples[..mid]], map[right := batch.samples[mid..]]);
    assert map[left := batch.samples[..mid]] + map[right := batch.samples[mid..]]
        == map[left := batch.samples[..mid], right := batch.samples[mid..]];
  }

  /** A split batch is no longer queued. */
  lemma SplitRemoves(c: Config, db: Database, batch: StoredBatch, left: Uuid, right: Uuid, now: int, later: int)
    requires UniqueIds(db.queue) && left != right && batch.id != left && batch.id != right
    requires Split(c, db, batch, left, right, now, later).verdict.Done?
    ensures !HasId(Split(c, db, batch, left, right, now, later).db.queue, batch.id)
  {
    hide InsertTx, Without;
    var i := IndexOf(db.queue, batch.id).value;
    var mid := |batch.samples| / 2;
    var gone := db.(queue := Without(db.queue, i));
    var one := SplitFirst(c, db, batch, i, left, now);
    var two := SplitSecond(c, one.db, batch, db.queue[i].critical, right, later);
    WithoutKeys(db.queue, i);
    TraceInsert(c, gone, left, Some(batch.id), batch.samples[..mid], batch.depth + 1, db.queue[i].critical, now);
    TraceInsert(c, one.db, right, Some(batch.id), batch.samples[mid..], batch.depth + 1, db.queue[i].critical, later);
    StillAbsent(gone, one.db, left, batch.samples[..mid], batch.id);
    StillAbsent(one.db, two.db, right, batch.samples[mid..], batch.id);
  }

  lemma StillAbsent(db: Database, after: Database, id: Uuid, samples: seq<Sample>, absent: Uuid)
    requires Traced(db, after, {}, map[id := samples]) && !HasId(db.queue, absent) && absent != id
    ensures !HasId(after.queue, absent)
  {
    RowHasId(db.queue);
    RowHasId(after.queue);
  }

  lemma TracePurge(db: Database, now: int)
    ensures Traced(db, Purge(db, now).db, {}, map[])
  {
    RowHasId(db.queue);
  }

  lemma TraceVacate(c: Config, db: Database, batch: StoredBatch, size: nat, now: int)
    requires Vacate(c, db, batch, size, now).verdict.Done?
    ensures Traced(db, Vacate(c, db, batch, size, now).db, {batch.id}, map[])
  {
    hide Traced, Evict, Without, Kept;
    var purged := Purge(db, now).db;
    var i := IndexOf(purged.queue, batch.id).value;
    var gone := purged.(queue := Without(purged.queue, i));
    var k := RoomFor(c, gone, size).value;
    TracePurge(db, now);
    TraceRemove(purged, i);
    TraceEvict(gone, k, QueueQuota);
    var none: map<Uuid, seq<Sample>> := map[];
    TraceChain(purged, gone, Evict(gone, k, QueueQuota), {batch.id}, none, none);
    assert none + none == none;
    TraceFirst(db, purged, Evict(gone, k, QueueQuota), {batch.id});
  }

  /** A quiet step before one that removes rows. */
  lemma TraceFirst(a: Database, b: Database, c: Database, gone: set<Uuid>)
    requires Traced(a, b, {}, map[]) && Traced(b, c, gone, map[])
    ensures Traced(a, c, gone, map[])
  {
    NamedStays(b.audit, c.audit);
    forall r | r in a.queue ensures r.id in gone || HasId(c.queue, r.id) || Named(c.audit, r.id) {
      if HasId(b.queue, r.id) {
        RowHasId(b.queue);
        var q :| q in b.queue && q.id == r.id;
      }
    }
    hide HasId, Named;
    forall r | r in c.queue ensures Carries(a.queue, r.id, r.samples) {
      var q :| q in b.queue && q.id == r.id && q.samples == r.samples;
    }
  }

  /** Sealing names the batch. */
  lemma TraceSeal(db: Database, vacated: Database, after: Database, id: Uuid, a: Audit)
    requires Traced(db, vacated, {id}, map[]) && Reports(a, id)
    requires after.queue == vacated.queue && after.audit == vacated.audit + [a]
    ensures Traced(db, after, {}, map[])
  {
    NamedStays(vacated.audit, after.audit);
    assert a in after.audit;
    assert Named(after.audit, id);
    hide HasId, Carries, Named;
  }

  lemma TraceQuarantineBatch(c: Config, db: Database, batch: StoredBatch, http422: bool, now: int)
    ensures Traced(db, QuarantineBatch(c, db, batch, http422, now).db, {}, map[])
  {
    hide Traced, Vacate;
    var ch := QuarantineBatch(c, db, batch, http422, now);
    if ch.verdict.Done? {
      var size := c.seal(batch.samples).value;
      TraceVacate(c, db, batch, size, now);
      TraceSeal(db, Vacate(c, db, batch, size, now).db, ch.db, batch.id, BatchQuarantined(batch.id, http422));
    } else {
      RaisedVacate(c, db, batch, now);
      TraceNothing(db);
    }
  }

  lemma RaisedVacate(c: Config, db: Database, batch: StoredBatch, now: int)
    ensures forall size: nat :: Vacate(c, db, batch, size, now).verdict.Raised? ==>
                                  Vacate(c, db, batch, size, now).db == db
  {
  }

  lemma TraceQuarantineSample(c: Config, db: Database, batch: StoredBatch, key: Uuid, now: int)
    ensures Traced(db, QuarantineSample(c, db, batch, key, now).db, {}, map[])
  {
    hide Traced, Vacate;
    var ch := QuarantineSample(c, db, batch, key, now);
    if ch.verdict.Done? {
      var size := c.seal(batch.samples).value;
      TraceVacate(c, db, batch, size, now);
      TraceSeal(db, Vacate(c, db, batch, size, now).db, ch.db, batch.id, SampleQuarantined(key, batch.id));
    } else {
      RaisedVacate(c, db, batch, now);
      TraceNothing(db);
    }
  }
}

/** What every transaction of the local store keeps: keys, quotas, and where each sample is. */
module QueueInvariants {
  import opened Wrappers
  import opened Telemetry
  import opened QueueTables
  import opened QueueTransactions

  /** Every row is as `enqueue` or `split` wrote it. */
  predicate WellFormed(c: Config, r: Row) {
    r.samples != [] && r.depth <= MAX_SPLIT_DEPTH && r.size == c.packed(r.samples)
  }

  predicate Keys(c: Config, rows: seq<Row>) {
    Ordered(rows) && UniqueIds(rows) && forall r :: r in rows ==> WellFormed(c, r)
  }

  predicate WithinQuota(c: Config, db: Database) {
    && Bytes(db.queue) + QuarantineBytes(db) <= c.maxQueue
    && QuarantineBytes(db) <= c.maxQuarantine
  }

  predicate Sound(c: Config, db: Database) {
    Keys(c, db.queue) && WithinQuota(c, db)
  }

  // ------------------------------------------------------------------- keys

  lemma EvictKeys(c: Config, db: Database, k: nat, cause: Cause)
    requires k <= |EvictionOrder(db.queue)|
    requires Keys(c, db.queue)
    ensures Keys(c, Evict(db, k, cause).queue)
  {
    SurvivorsKeys(db.queue, k);
  }

  lemma RemovalKeys(c: Config, rows: seq<Row>, i: nat)
    requires i < |rows| && Keys(c, rows)
    ensures Keys(c, Without(rows, i))
  {
    WithoutKeys(rows, i);
  }

  lemma AppendKeys(c: Config, rows: seq<Row>, r: Row)
    requires Keys(c, rows) && WellFormed(c, r)
    requires r.rowid == NextRowid(rows) && !HasId(rows, r.id)
    ensures Keys(c, rows + [r])
  {
    var all := rows + [r];
    forall i, j | 0 <= i < j < |all| ensures all[i].rowid < all[j].rowid && all[i].id != all[j].id {
      if j == |rows| && i < |rows| - 1 {
        assert rows[i].rowid < rows[|rows| - 1].rowid;
      }
    }
  }

  // ------------------------------------------------------------------ quota

  /** A row that fits keeps both quotas. */
  lemma InsertSound(c: Config, db: Database, id: Uuid, parent: Option<Uuid>, samples: seq<Sample>,
                    depth: nat, critical: bool, now: int)
    requires Sound(c, db) && samples != [] && depth <= MAX_SPLIT_DEPTH
    ensures Sound(c, InsertTx(c, db, id, parent, samples, depth, critical, now).db)
  {
    var ch := InsertTx(c, db, id, parent, samples, depth, critical, now);
    if ch.verdict.Done? {
      var k := RoomFor(c, db, c.packed(samples)).value;
      var room := Evict(db, k, QueueQuota);
      EvictKeys(c, db, k, QueueQuota);
      EvictionsFit(db.queue, QuarantineBytes(db), c.packed(samples), c.maxQueue);
      var row := ch.db.queue[|ch.db.queue| - 1];
      AppendKeys(c, room.queue, row);
      BytesConcat(room.queue, [row]);
      assert Bytes([row]) == row.size;
    }
  }

  lemma EvictSound(c: Config, db: Database, k: nat, cause: Cause)
    requires k <= |EvictionOrder(db.queue)|
    requires Sound(c, db)
    ensures Sound(c, Evict(db, k, cause))
  {
    EvictKeys(c, db, k, cause);
    SurvivorsBytes(db.queue, k);
  }

  lemma EnqueueSound(c: Config, db: Database, id: Uuid, parent: Option<Uuid>, samples: seq<Sample>,
                     depth: nat, critical: bool, now: int, sizes: seq<nat>)
    requires Sound(c, db)
    ensures Sound(c, Enqueue(c, db, id, parent, samples, depth, critical, now, sizes).db)
  {
    var tx := EnqueueTx(c, db, id, parent, samples, depth, critical, now);
    if tx.verdict.Done? {
      InsertSound(c, db, id, parent, samples, depth, critical, now);
      if c.physicalQuota && TooLarge(c.maxQueue, sizes, 0) {
        EvictSound(c, tx.db, DiskEvictions(tx.db.queue, c.maxQueue, sizes[1..]), PhysicalQuota);
      }
    }
  }

  lemma AcknowledgeSound(c: Config, db: Database, id: Uuid)
    requires Sound(c, db)
    ensures Sound(c, Acknowledge(db, id).0)
  {
    if IndexOf(db.queue, id).Some? {
      var i := IndexOf(db.queue, id).value;
      RemovalKeys(c, db.queue, i);
      WithoutBytes(db.queue, i);
    }
  }

  lemma {:induction false} UpdateBytes(rows: seq<Row>, i: nat, r: Row)
    requires i < |rows| && r.size == rows[i].size
    ensures Bytes(rows[i := r]) == Bytes(rows)
  {
    if i == 0 {
      assert rows[0 := r][1..] == rows[1..];
    } else {
      assert rows[i := r][1..] == rows[1..][i - 1 := r];
      UpdateBytes(rows[1..], i - 1, r);
    }
  }

  lemma DeferSound(c: Config, db: Database, id: Uuid, until: int)
    requires Sound(c, db)
    ensures Sound(c, Defer(db, id, until))
  {
    if IndexOf(db.queue, id).Some? {
      var i := IndexOf(db.queue, id).value;
      var r := db.queue[i].(attempts := db.queue[i].attempts + 1, nextAttempt := until);
      UpdateBytes(db.queue, i, r);
      assert WellFormed(c, r) by { assert db.queue[i] in db.queue; }
      assert forall x :: x in db.queue[i := r] ==> x in db.queue || x == r;
    }
  }

  lemma SplitSound(c: Config, db: Database, batch: StoredBatch, left: Uuid, right: Uuid, now: int, later: int)
    requires Sound(c, db)
    ensures Sound(c, Split(c, db, batch, left, right, now, later).db)
  {
    if Splittable(batch) && IndexOf(db.queue, batch.id).Some? {
      var i := IndexOf(db.queue, batch.id).value;
      AcknowledgeSound(c, db, batch.id);
      SplitFirstSound(c, db, batch, i, left, now);
      var one := SplitFirst(c, db, batch, i, left, now);
      SplitSecondSound(c, one.db, batch, db.queue[i].critical, right, later);
    }
  }

  lemma SplitFirstSound(c: Config, db: Database, batch: StoredBatch, i: nat, left: Uuid, now: int)
    requires Splittable(batch) && i < |db.queue| && Sound(c, db.(queue := Without(db.queue, i)))
    ensures Sound(c, SplitFirst(c, db, batch, i, left, now).db)
  {
    hide Sound, InsertTx;
    InsertSound(c, db.(queue := Without(db.queue, i)), left, Some(batch.id), batch.samples[..|batch.samples| / 2],
                batch.depth + 1, db.queue[i].critical, now);
  }

  lemma SplitSecondSound(c: Config, db: Database, batch: StoredBatch, critical: bool, right: Uuid, now: int)
    requires Splittable(batch) && Sound(c, db)
    ensures Sound(c, SplitSecond(c, db, batch, critical, right, now).db)
  {
    hide Sound, InsertTx;
    InsertSound(c, db, right, Some(batch.id), batch.samples[|batch.samples| / 2..], batch.depth + 1, critical, now);
  }

  lemma {:induction false} KeptBytes(rows: seq<Sealed>, now: int)
    ensures SealedBytes(rows) == SealedBytes(Kept(rows, now, false)) + SealedBytes(Kept(rows, now, true))
  {
    if rows != [] {
      KeptBytes(rows[1..], now);
    }
  }

  lemma PurgeSound(c: Config, db: Database, now: int)
    requires Sound(c, db)
    ensures Sound(c, Purge(db, now).db)
  {
    KeptBytes(db.batches, now);
    KeptBytes(db.singles, now);
  }

  /** A vacated store has room for the ciphertext under both quotas. */
  lemma VacateSound(c: Config, db: Database, batch: StoredBatch, size: nat, now: int)
    requires Sound(c, db)
    ensures var v := Vacate(c, db, batch, size, now);
            if v.verdict.Raised? then v.db == db else Vacant(c, v.db, size)
  {
    var v := Vacate(c, db, batch, size, now);
    if v.verdict.Done? {
      var purged := Purge(db, now).db;
      var i := IndexOf(purged.queue, batch.id).value;
      var gone := purged.(queue := Without(purged.queue, i));
      RemovalKeys(c, purged.queue, i);
      hide Keys, Without, Oldest, EvictionOrder, Survivors;
      EvictKeys(c, gone, RoomFor(c, gone, size).value, QueueQuota);
      EvictionsFit(gone.queue, QuarantineBytes(gone), size, c.maxQueue);
    }
  }

  lemma AppendSealed(rows: seq<Sealed>, r: Sealed)
    ensures SealedBytes(rows + [r]) == SealedBytes(rows) + r.size
  {
    SealedConcat(rows, [r]);
    assert SealedBytes([r]) == r.size;
  }

  /** The vacated store can take `size` more quarantined bytes. */
  predicate Vacant(c: Config, db: Database, size: nat) {
    && Keys(c, db.queue)
    && Bytes(db.queue) + QuarantineBytes(db) + size <= c.maxQueue
    && QuarantineBytes(db) + size <= c.maxQuarantine
  }

  lemma SealBatchSound(c: Config, db: Database, batch: StoredBatch, size: nat, http422: bool, now: int)
    requires Vacant(c, db, size)
    ensures Sound(c, SealBatch(c, db, batch, size, http422, now))
  {
    AppendSealed(db.batches, Sealed(batch.id, batch.id, batch.samples, size, now + c.retention));
  }

  lemma SealSampleSound(c: Config, db: Database, batch: StoredBatch, key: Uuid, size: nat, now: int)
    requires Vacant(c, db, size)
    ensures Sound(c, SealSample(c, db, batch, key, size, now))
  {
    AppendSealed(db.singles, Sealed(key, batch.id, batch.samples, size, now + c.retention));
  }

  lemma QuarantineBatchSound(c: Config, db: Database, batch: StoredBatch, http422: bool, now: int)
    requires Sound(c, db)
    ensures Sound(c, QuarantineBatch(c, db, batch, http422, now).db)
  {
    hide Vacate, Vacant, Sound, SealBatch;
    if c.seal(batch.samples).Some? {
      var size := c.seal(batch.samples).value;
      var v := Vacate(c, db, batch, size, now);
      VacateSound(c, db, batch, size, now);
      if v.verdict.Done? {
        SealBatchSound(c, v.db, batch, size, http422, now);
      }
    }
  }

  lemma QuarantineSampleSound(c: Config, db: Database, batch: StoredBatch, key: Uuid, now: int)
    requires Sound(c, db)
    ensures Sound(c, QuarantineSample(c, db, batch, key, now).db)
  {
    hide Vacate, Vacant, Sound, SealSample;
    if |batch.samples| == 1 && c.seal(batch.samples).Some? {
      var size := c.seal(batch.samples).value;
      var v := Vacate(c, db, batch, size, now);
      VacateSound(c, db, batch, size, now);
      if v.verdict.Done? {
        SealSampleSound(c, v.db, batch, key, size, now);
      }
    }
  }
}

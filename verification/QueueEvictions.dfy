/** What each transaction of the local store costs: which rows it evicts and when it raises, and the rows it
    writes. */
module QueueEvictions {
  import opened Wrappers
  import opened Telemetry
  import opened QueueTables
  import opened QueueTransactions

  /** An INSERT with as few evictions as possible: the row comes last, as new, and nothing else changes. */
  predicate Inserted(c: Config, db: Database, after: Database, evicted: seq<Row>, id: Uuid, parent: Option<Uuid>,
                     samples: seq<Sample>, depth: nat, critical: bool, now: int)
  {
    var k := |evicted|;
    && Least(c, db, c.packed(samples), k)
    && evicted == EvictionOrder(db.queue)[..k]
    && var left := Survivors(db.queue, k);
       && !HasId(left, id)
       && after.queue == left + [Row(NextRowid(left), id, parent, samples, c.packed(samples), critical, depth, 0, 0, now)]
       && after.batches == db.batches && after.singles == db.singles
       && after.audit == db.audit + Notices(evicted, QueueQuota)
  }

  /** An INSERT raises for lack of room, for a key in use, or not at all; raising changes nothing. */
  lemma InsertEvictsLeast(c: Config, db: Database, id: Uuid, parent: Option<Uuid>, samples: seq<Sample>,
                          depth: nat, critical: bool, now: int)
    ensures var tx := InsertTx(c, db, id, parent, samples, depth, critical, now);
            && (tx.verdict == Raised(CapacityExceeded) <==> Hopeless(c, db, c.packed(samples)))
            && (tx.verdict == Raised(IntegrityError) <==>
                  exists k: nat :: Least(c, db, c.packed(samples), k) && HasId(Survivors(db.queue, k), id))
            && (tx.verdict.Raised? ==> tx.verdict.error == CapacityExceeded || tx.verdict.error == IntegrityError)
            && (tx.verdict.Raised? ==> tx.db == db && tx.evicted == [])
            && (tx.verdict.Done? ==> Inserted(c, db, tx.db, tx.evicted, id, parent, samples, depth, critical, now))
  {
    RoomIsLeast(c, db, c.packed(samples));
    forall k: nat | Least(c, db, c.packed(samples), k)
      ensures RoomFor(c, db, c.packed(samples)) == Some(k)
    {
      LeastIsHopeful(c, db, c.packed(samples), k);
      LeastIsUnique(c, db, c.packed(samples), k, RoomFor(c, db, c.packed(samples)).value);
    }
    hide Least, Hopeless, HasId, NextRowid, EvictionOrder, Survivors, Notices, RoomFor;
  }

  lemma LeastIsUnique(c: Config, db: Database, required: nat, k: nat, m: nat)
    requires Least(c, db, required, k) && Least(c, db, required, m)
    ensures k == m
  {
    hide EvictionOrder, Survivors, Bytes, SealedBytes;
  }

  lemma LeastIsHopeful(c: Config, db: Database, required: nat, k: nat)
    requires Least(c, db, required, k)
    ensures !Hopeless(c, db, required)
  {
    var all := EvictionOrder(db.queue);
    assert all == all[..k] + all[k..] && all[..|all|] == all;
    BytesConcat(all[..k], all[k..]);
    SurvivorsBytes(db.queue, k);
    SurvivorsBytes(db.queue, |all|);
    hide EvictionOrder, Survivors, Bytes, SealedBytes;
  }

  /** `enqueue` up to its commit. */
  lemma EnqueueEvictsLeast(c: Config, db: Database, id: Uuid, parent: Option<Uuid>, samples: seq<Sample>,
                           depth: nat, critical: bool, now: int)
    ensures var tx := EnqueueTx(c, db, id, parent, samples, depth, critical, now);
            && (tx.verdict == Raised(ValueError) <==> samples == [] || depth > 3)
            && (tx.verdict == Raised(CapacityExceeded) <==>
                  samples != [] && depth <= 3 && Hopeless(c, db, c.packed(samples)))
            && (tx.verdict.Done? ==> Inserted(c, db, tx.db, tx.evicted, id, parent, samples, depth, critical, now))
            && (Bytes(db.queue) + SealedBytes(db.batches) + SealedBytes(db.singles) + c.packed(samples) <= c.maxQueue ==>
                  tx.evicted == [])
  {
    InsertEvictsLeast(c, db, id, parent, samples, depth, critical, now);
    if Bytes(db.queue) + SealedBytes(db.batches) + SealedBytes(db.singles) + c.packed(samples) <= c.maxQueue {
      WhatFitsEvictsNothing(c, db, c.packed(samples), |InsertTx(c, db, id, parent, samples, depth, critical, now).evicted|);
    }
    hide Least, Hopeless, HasId, NextRowid, InsertTx, EvictionOrder, Survivors, Notices;
  }

  /** The physical quota: rows go, oldest first, while the files stay too large, and a raise means that no
      unprotected row is left. */
  lemma DiskEvictsLeast(c: Config, db: Database, sizes: seq<nat>)
    ensures var ch := DiskBound(c, db, sizes);
            var k := |ch.evicted|;
            && k <= |EvictionOrder(db.queue)| && ch.evicted == EvictionOrder(db.queue)[..k]
            && ch.db == Database(Survivors(db.queue, k), db.batches, db.singles, db.audit + Notices(ch.evicted, PhysicalQuota))
            && (k > 0 ==> c.physicalQuota && forall j :: 0 <= j <= k ==> j < |sizes| && sizes[j] > c.maxQueue)
            && (ch.verdict == Raised(CapacityExceeded) || ch.verdict == Done)
            && (ch.verdict == Raised(CapacityExceeded) <==>
                  && c.physicalQuota && k == |EvictionOrder(db.queue)| && |sizes| > k + 1
                  && forall j :: 0 <= j <= k + 1 ==> sizes[j] > c.maxQueue)
            && (ch.verdict == Done && c.physicalQuota ==>
                  |sizes| == 0 || sizes[0] <= c.maxQueue || |sizes| <= k + 1 || sizes[k + 1] <= c.maxQueue)
  {
    assert EvictionOrder(db.queue)[..0] == [] && Notices([], PhysicalQuota) == [];
    if sizes != [] && sizes[0] > c.maxQueue {
      var k := DiskEvictions(db.queue, c.maxQueue, sizes[1..]);
      DiskEvictionsStop(db.queue, c.maxQueue, sizes[1..]);
      forall j | 0 <= j <= k ensures j < |sizes| && sizes[j] > c.maxQueue {
        if j > 0 { assert TooLarge(c.maxQueue, sizes[1..], j - 1); }
      }
      assert TooLarge(c.maxQueue, sizes[1..], k) <==> TooLarge(c.maxQueue, sizes, 1 + k);
    }
    hide EvictionOrder, DiskEvictions, Notices, Survivors;
  }

  /** `enqueue` as a whole: what the disk check does after the commit stays, and the call succeeds exactly if the
      check does not raise and the new row has survived it. */
  lemma EnqueueEnds(c: Config, db: Database, id: Uuid, parent: Option<Uuid>, samples: seq<Sample>,
                    depth: nat, critical: bool, now: int, sizes: seq<nat>)
    ensures var tx := EnqueueTx(c, db, id, parent, samples, depth, critical, now);
            var ch := Enqueue(c, db, id, parent, samples, depth, critical, now, sizes);
            var bound := DiskBound(c, tx.db, sizes);
            && (tx.verdict.Raised? ==> ch == tx)
            && (tx.verdict.Done? ==>
                  && ch.db == bound.db && ch.evicted == tx.evicted + bound.evicted && ch.expired == []
                  && (ch.verdict == Done <==> bound.verdict == Done && exists r :: r in ch.db.queue && r.id == id)
                  && (ch.verdict != Done ==> ch.verdict == Raised(CapacityExceeded)))
  {
    var tx := EnqueueTx(c, db, id, parent, samples, depth, critical, now);
    var queue := DiskBound(c, tx.db, sizes).db.queue;
    hide EnqueueTx;
    DiskEvictsLeast(c, tx.db, sizes);
    hide DiskBound, EvictionOrder, Survivors, Notices;
    if exists r :: r in queue && r.id == id {
      var r :| r in queue && r.id == id;
      var i :| 0 <= i < |queue| && queue[i] == r;
      assert HasId(queue, id);
    }
  }

  /** The halves of a batch that has left the queue, inserted one after the other. */
  predicate Halved(c: Config, db: Database, batch: StoredBatch, left: Uuid, right: Uuid, critical: bool, now: int, later: int,
                   one: Database, first: seq<Row>, after: Database, second: seq<Row>)
    requires |batch.samples| >= 2
  {
    var mid := |batch.samples| / 2;
    && Inserted(c, db, one, first, left, Some(batch.id), batch.samples[..mid], batch.depth + 1, critical, now)
    && Inserted(c, one, after, second, right, Some(batch.id), batch.samples[mid..], batch.depth + 1, critical, later)
  }

  /** `split`: the parent goes, both halves come in by an INSERT each, all or nothing. */
  lemma SplitEvictsLeast(c: Config, db: Database, batch: StoredBatch, left: Uuid, right: Uuid, now: int, later: int)
    ensures var ch := Split(c, db, batch, left, right, now, later);
            && (ch.verdict == Raised(ValueError) <==> |batch.samples| < 2 || batch.depth >= 3)
            && (ch.verdict == Raised(KeyError) <==>
                  |batch.samples| >= 2 && batch.depth < 3 && forall r :: r in db.queue ==> r.id != batch.id)
            && (ch.verdict.Raised? ==> ch.db == db && ch.evicted == [])
            && (ch.verdict.Done? ==>
                  |batch.samples| >= 2 && IndexOf(db.queue, batch.id).Some?
                  && var i := IndexOf(db.queue, batch.id).value;
                     var gone := db.(queue := db.queue[..i] + db.queue[i + 1..]);
                     exists one: Database, first: seq<Row>, second: seq<Row> ::
                       && Halved(c, gone, batch, left, right, db.queue[i].critical, now, later, one, first, ch.db, second)
                       && ch.evicted == first + second)
  {
    if IndexOf(db.queue, batch.id).Some? && |batch.samples| >= 2 && batch.depth < 3 {
      var i := IndexOf(db.queue, batch.id).value;
      SplitHalves(c, db, batch, i, left, right, now, later);
      var one := SplitFirst(c, db, batch, i, left, now);
      var two := SplitSecond(c, one.db, batch, db.queue[i].critical, right, later);
      hide SplitFirst, SplitSecond, Halved;
      if Split(c, db, batch, left, right, now, later).verdict.Done? {
        assert Halved(c, db.(queue := db.queue[..i] + db.queue[i + 1..]), batch, left, right, db.queue[i].critical, now, later,
                      one.db, one.evicted, two.db, two.evicted);
      }
    }
    hide SplitFirst, SplitSecond, Halved;
  }

  lemma SplitHalves(c: Config, db: Database, batch: StoredBatch, i: nat, left: Uuid, right: Uuid, now: int, later: int)
    requires |batch.samples| >= 2 && batch.depth < 3 && i < |db.queue|
    ensures var one := SplitFirst(c, db, batch, i, left, now);
            var two := SplitSecond(c, one.db, batch, db.queue[i].critical, right, later);
            && (one.verdict.Raised? ==> one.verdict.error == CapacityExceeded || one.verdict.error == IntegrityError)
            && (two.verdict.Raised? ==> two.verdict.error == CapacityExceeded || two.verdict.error == IntegrityError)
            && (one.verdict.Done? && two.verdict.Done? ==>
                  Halved(c, db.(queue := db.queue[..i] + db.queue[i + 1..]), batch, left, right, db.queue[i].critical, now, later,
                         one.db, one.evicted, two.db, two.evicted))
  {
    hide Inserted, InsertTx, Hopeless, Least, Survivors, EvictionOrder, HasId;
    var mid := |batch.samples| / 2;
    var gone := db.(queue := Without(db.queue, i));
    var one := SplitFirst(c, db, batch, i, left, now);
    InsertEvictsLeast(c, gone, left, Some(batch.id), batch.samples[..mid], batch.depth + 1, db.queue[i].critical, now);
    InsertEvictsLeast(c, one.db, right, Some(batch.id), batch.samples[mid..], batch.depth + 1, db.queue[i].critical, later);
  }

  /** What both quarantine transactions do first: expired payloads and the row go, and as few others as make
      room under the queue quota, provided that the ciphertext fits the quarantine quota. */
  lemma VacateEvictsLeast(c: Config, db: Database, batch: StoredBatch, size: nat, now: int)
    ensures var v := Vacate(c, db, batch, size, now);
            var purged := Purge(db, now).db;
            && (v.verdict == Raised(KeyError) <==> forall r :: r in db.queue ==> r.id != batch.id)
            && (v.verdict.Raised? ==> v.verdict.error == KeyError || v.verdict.error == CapacityExceeded)
            && (v.verdict.Raised? ==> v.db == db && v.evicted == [] && v.expired == [])
            && (IndexOf(db.queue, batch.id).Some? ==>
                  var i := IndexOf(db.queue, batch.id).value;
                  var gone := purged.(queue := db.queue[..i] + db.queue[i + 1..]);
                  var k := |v.evicted|;
                  && (v.verdict == Raised(CapacityExceeded) <==>
                        Hopeless(c, gone, size)
                        || SealedBytes(purged.batches) + SealedBytes(purged.singles) + size > c.maxQuarantine)
                  && (v.verdict.Done? ==>
                        && Least(c, gone, size, k) && v.evicted == EvictionOrder(gone.queue)[..k]
                        && v.expired == Purge(db, now).expired
                        && v.db == Database(Survivors(gone.queue, k), purged.batches, purged.singles,
                                            purged.audit + Notices(v.evicted, QueueQuota))))
  {
    var purged := Purge(db, now).db;
    assert purged.queue == db.queue;
    if IndexOf(db.queue, batch.id).Some? {
      RoomIsLeast(c, purged.(queue := Without(db.queue, IndexOf(db.queue, batch.id).value)), size);
    }
    hide Purge, Least, Hopeless, EvictionOrder, Survivors, Notices, RoomFor;
  }

  lemma VacateRaises(c: Config, db: Database, batch: StoredBatch, size: nat, now: int)
    ensures var v := Vacate(c, db, batch, size, now);
            v.verdict.Raised? ==>
              v.db == db && v.evicted == [] && v.expired == [] && (v.verdict.error == KeyError || v.verdict.error == CapacityExceeded)
  {
    hide Purge, EvictionOrder, RoomFor, Evict;
  }

  /** What a sealed batch becomes, and when it cannot. */
  lemma SealingBatch(c: Config, db: Database, batch: StoredBatch, http422: bool, now: int)
    ensures var ch := QuarantineBatch(c, db, batch, http422, now);
            && (ch.verdict == Raised(ProtectionUnavailable) <==> c.seal(batch.samples).None?)
            && (ch.verdict.Raised? ==> ch.db == db && ch.evicted == [] && ch.expired == [])
            && (c.seal(batch.samples).Some? ==>
                  var size := c.seal(batch.samples).value;
                  var v := Vacate(c, db, batch, size, now);
                  && (v.verdict.Raised? ==> ch.verdict == v.verdict)
                  && (v.verdict.Done? && ch.verdict.Raised? <==>
                        ch.verdict == Raised(IntegrityError) && exists x :: x in v.db.batches && x.key == batch.id)
                  && (ch.verdict.Done? ==>
                        v.verdict.Done?
                        && ch == Change(Database(v.db.queue,
                                                 v.db.batches + [Sealed(batch.id, batch.id, batch.samples, size, now + c.retention)],
                                                 v.db.singles, v.db.audit + [BatchQuarantined(batch.id, http422)]),
                                        v.evicted, v.expired, Done)))
  {
    hide Vacate, HasKey;
    if c.seal(batch.samples).Some? {
      var v := Vacate(c, db, batch, c.seal(batch.samples).value, now);
      VacateRaises(c, db, batch, c.seal(batch.samples).value, now);
      KeyInUse(v.db.batches, batch.id);
    }
  }

  /** The same for a single sample, under a key of its own. */
  lemma SealingSample(c: Config, db: Database, batch: StoredBatch, key: Uuid, now: int)
    ensures var ch := QuarantineSample(c, db, batch, key, now);
            && (ch.verdict == Raised(ValueError) <==> |batch.samples| != 1)
            && (ch.verdict == Raised(ProtectionUnavailable) <==> |batch.samples| == 1 && c.seal(batch.samples).None?)
            && (ch.verdict.Raised? ==> ch.db == db && ch.evicted == [] && ch.expired == [])
            && (|batch.samples| == 1 && c.seal(batch.samples).Some? ==>
                  var size := c.seal(batch.samples).value;
                  var v := Vacate(c, db, batch, size, now);
                  && (v.verdict.Raised? ==> ch.verdict == v.verdict)
                  && (v.verdict.Done? && ch.verdict.Raised? <==>
                        ch.verdict == Raised(IntegrityError) && exists x :: x in v.db.singles && x.key == key)
                  && (ch.verdict.Done? ==>
                        v.verdict.Done?
                        && ch == Change(Database(v.db.queue, v.db.batches,
                                                 v.db.singles + [Sealed(key, batch.id, batch.samples, size, now + c.retention)],
                                                 v.db.audit + [SampleQuarantined(key, batch.id)]),
                                        v.evicted, v.expired, Done)))
  {
    hide Vacate, HasKey;
    if |batch.samples| == 1 && c.seal(batch.samples).Some? {
      var v := Vacate(c, db, batch, c.seal(batch.samples).value, now);
      VacateRaises(c, db, batch, c.seal(batch.samples).value, now);
      KeyInUse(v.db.singles, key);
    }
  }

  lemma KeyInUse(rows: seq<Sealed>, key: Uuid)
    ensures HasKey(rows, key) <==> exists x :: x in rows && x.key == key
  {
    if exists x :: x in rows && x.key == key {
      var x :| x in rows && x.key == key;
      var i :| 0 <= i < |rows| && rows[i] == x;
    }
  }
}

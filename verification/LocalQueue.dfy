/** The agent's durable queue. A transaction works on a copy of the tables: assigning the copy to
    `db` is the commit, dropping it the rollback. */
module LocalQueue {
  import opened Wrappers
  import opened Telemetry
  import opened QueueTables
  import opened QueueTransactions
  import opened QueueInvariants

  /** After the oldest row is gone, the rest of the eviction order is that of the rest of the table. */
  lemma SurvivorsShift(rows: seq<Row>, k: nat)
    requires 1 <= k < |EvictionOrder(rows)|
    ensures Oldest(rows, Unprotected).Some?
    ensures var rest := Without(rows, Oldest(rows, Unprotected).value);
            && k - 1 < |EvictionOrder(rest)|
            && EvictionOrder(rows)[k] == EvictionOrder(rest)[k - 1]
            && Survivors(rows, k) == Survivors(rest, k - 1) && Survivors(rows, k + 1) == Survivors(rest, k)
  {
  }

  lemma SurvivorsStart(rows: seq<Row>)
    requires 0 < |EvictionOrder(rows)|
    ensures Survivors(rows, 0) == rows && Oldest(rows, Unprotected).Some?
    ensures var i := Oldest(rows, Unprotected).value;
            rows[i] == EvictionOrder(rows)[0] && Survivors(rows, 1) == Without(rows, i)
  {
  }

  /** Evicting one row more continues the eviction order. */
  lemma {:induction false} SurvivorsNext(rows: seq<Row>, k: nat)
    requires k < |EvictionOrder(rows)|
    ensures Oldest(Survivors(rows, k), Unprotected).Some?
    ensures var i := Oldest(Survivors(rows, k), Unprotected).value;
            && Survivors(rows, k)[i] == EvictionOrder(rows)[k]
            && Survivors(rows, k + 1) == Without(Survivors(rows, k), i)
    decreases k
  {
    if k == 0 {
      SurvivorsStart(rows);
    } else {
      hide Survivors, EvictionOrder, Oldest, Without;
      SurvivorsShift(rows, k);
      SurvivorsNext(Without(rows, Oldest(rows, Unprotected).value), k - 1);
    }
  }

  /** When nothing evictable survives, the eviction order is used up. */
  lemma {:induction false} SurvivorsLast(rows: seq<Row>, k: nat)
    requires k <= |EvictionOrder(rows)|
    ensures Oldest(Survivors(rows, k), Unprotected).None? <==> k == |EvictionOrder(rows)|
    decreases k
  {
    if k > 0 {
      SurvivorsLast(Without(rows, Oldest(rows, Unprotected).value), k - 1);
    }
  }

  lemma NoticesNext(rows: seq<Row>, k: nat, cause: Cause)
    requires k < |rows|
    ensures Notices(rows[..k + 1], cause) == Notices(rows[..k], cause) + [FifoEviction(rows[k].id, cause)]
  {
  }

  /** One DELETE with its audit row takes the store from `k` evictions to `k + 1`. */
  lemma EvictNext(db: Database, k: nat, cause: Cause)
    requires k < |EvictionOrder(db.queue)|
    ensures Oldest(Evict(db, k, cause).queue, Unprotected).Some?
    ensures var now := Evict(db, k, cause);
            var i := Oldest(now.queue, Unprotected).value;
            Evict(db, k + 1, cause)
            == now.(queue := Without(now.queue, i), audit := now.audit + [FifoEviction(now.queue[i].id, cause)])
  {
    SurvivorsNext(db.queue, k);
    NoticesNext(EvictionOrder(db.queue), k, cause);
    hide Survivors, EvictionOrder, Oldest, Without;
  }

  lemma NoticesConcat(a: seq<Sealed>, b: seq<Sealed>)
    ensures ExpiryNotices(a + b) == ExpiryNotices(a) + ExpiryNotices(b)
  {
  }

  /** `work` is the store after `k` of the evictions that `_make_room` is going to make. */
  predicate Underway(tables: Database, work: Database, k: nat, held: nat, required: nat, cap: nat) {
    && k <= |EvictionOrder(tables.queue)| && work == Evict(tables, k, QueueQuota)
    && Evictions(tables.queue, held, required, cap)
       == match Evictions(work.queue, held, required, cap)
          case None => None
          case Some(n) => Some(n + k)
  }

  lemma UnderwayFirst(tables: Database, held: nat, required: nat, cap: nat)
    ensures Underway(tables, tables, 0, held, required, cap)
  {
    assert EvictionOrder(tables.queue)[..0] == [];
  }

  lemma UnderwayNext(tables: Database, work: Database, k: nat, held: nat, required: nat, cap: nat)
    requires Underway(tables, work, k, held, required, cap)
    requires Bytes(work.queue) + held + required > cap
    ensures match Oldest(work.queue, Unprotected)
            case None => Evictions(tables.queue, held, required, cap).None?
            case Some(i) =>
              Underway(tables, work.(queue := Without(work.queue, i),
                                     audit := work.audit + [FifoEviction(work.queue[i].id, QueueQuota)]),
                       k + 1, held, required, cap)
  {
    hide Evict, EvictionOrder, Survivors, Oldest, Without, Bytes, Evictions;
    EvictionsStep(work.queue, held, required, cap);
    EvictedQueue(tables, k);
    SurvivorsLast(tables.queue, k);
    if k < |EvictionOrder(tables.queue)| {
      EvictNext(tables, k, QueueQuota);
    }
  }

  lemma EvictedQueue(db: Database, k: nat)
    requires k <= |EvictionOrder(db.queue)|
    ensures Evict(db, k, QueueQuota).queue == Survivors(db.queue, k)
  {
  }

  /** The count unrolled once. */
  lemma EvictionsStep(rows: seq<Row>, held: nat, required: nat, cap: nat)
    requires Bytes(rows) + held + required > cap
    ensures Evictions(rows, held, required, cap)
            == match Oldest(rows, Unprotected)
               case None => None
               case Some(i) =>
                 match Evictions(Without(rows, i), held, required, cap)
                 case None => None
                 case Some(n) => Some(n + 1)
  {
  }

  /** The same bookkeeping for the physical quota: `n` evictions done, the rest still to come. */
  predicate Shrinking(tables: Database, work: Database, n: nat, cap: nat, sizes: seq<nat>) {
    && n <= |EvictionOrder(tables.queue)| && work == Evict(tables, n, PhysicalQuota) && 1 + n <= |sizes|
    && DiskEvictions(tables.queue, cap, sizes[1..]) == n + DiskEvictions(work.queue, cap, sizes[1 + n..])
  }

  lemma ShrinkingFirst(tables: Database, cap: nat, sizes: seq<nat>)
    requires sizes != []
    ensures Shrinking(tables, tables, 0, cap, sizes)
  {
    assert EvictionOrder(tables.queue)[..0] == [];
  }

  lemma ShrinkingNext(tables: Database, work: Database, n: nat, cap: nat, sizes: seq<nat>)
    requires Shrinking(tables, work, n, cap, sizes) && TooLarge(cap, sizes, 1 + n)
    ensures match Oldest(work.queue, Unprotected)
            case None => DiskEvictions(tables.queue, cap, sizes[1..]) == n
            case Some(i) =>
              Shrinking(tables, work.(queue := Without(work.queue, i),
                                      audit := work.audit + [FifoEviction(work.queue[i].id, PhysicalQuota)]),
                        n + 1, cap, sizes)
  {
    SurvivorsLast(tables.queue, n);
    if n < |EvictionOrder(tables.queue)| {
      EvictNext(tables, n, PhysicalQuota);
    }
    assert sizes[1 + n..][1..] == sizes[2 + n..];
    hide Evict, EvictionOrder, Oldest, Without;
  }

  /** Where the loop of `_enforce_disk_bound` stops is where its specification says. */
  lemma ShrinkingLast(c: Config, tables: Database, work: Database, n: nat, sizes: seq<nat>)
    requires Sound(c, tables) && c.physicalQuota && TooLarge(c.maxQueue, sizes, 0)
    requires Shrinking(tables, work, n, c.maxQueue, sizes)
    requires TooLarge(c.maxQueue, sizes, 1 + n) ==> Oldest(work.queue, Unprotected).None?
    ensures Sound(c, work) && DiskBound(c, tables, sizes).db == work
    ensures DiskBound(c, tables, sizes).verdict
            == if TooLarge(c.maxQueue, sizes, 1 + n) then Raised(CapacityExceeded) else Done
  {
    EvictSound(c, tables, n, PhysicalQuota);
    if TooLarge(c.maxQueue, sizes, 1 + n) {
      ShrinkingNext(tables, work, n, c.maxQueue, sizes);
    }
    hide Evict, EvictionOrder, Sound, Oldest;
  }

  /** What a purge leaves, what it removes and what it logs. */
  lemma PurgedRows(db: Database, now: int)
    ensures var c := Purge(db, now);
            && c.db.queue == db.queue
            && (forall x :: multiset(c.db.batches)[x] == if x.purgeAfter > now then multiset(db.batches)[x] else 0)
            && (forall x :: multiset(c.db.singles)[x] == if x.purgeAfter > now then multiset(db.singles)[x] else 0)
            && |c.expired| == |db.batches| - |c.db.batches| + |db.singles| - |c.db.singles|
            && |c.db.audit| == |db.audit| + |c.expired| && db.audit == c.db.audit[..|db.audit|]
            && (forall k :: 0 <= k < |c.expired| ==> c.db.audit[|db.audit| + k] == PayloadExpired(c.expired[k].key))
            && (forall x :: x in c.expired <==> (x in db.batches || x in db.singles) && x.purgeAfter <= now)
  {
    hide Kept;
    KeptExactly(db.batches, now, false);
    KeptExactly(db.singles, now, false);
    KeptMembers(db.batches, now);
    KeptMembers(db.singles, now);
  }

  lemma KeptMembers(rows: seq<Sealed>, now: int)
    ensures forall x :: x in Kept(rows, now, true) <==> x in rows && x.purgeAfter <= now
  {
    KeptExactly(rows, now, true);
    forall x ensures x in Kept(rows, now, true) <==> x in rows && x.purgeAfter <= now {
      assert x in rows <==> multiset(rows)[x] > 0;
      assert x in Kept(rows, now, true) <==> multiset(Kept(rows, now, true))[x] > 0;
    }
  }

  const MAX_QUEUE_BYTES := 500 * 1024 * 1024
  const MAX_QUARANTINE_BYTES := 50 * 1024 * 1024

  class LocalQueue {
    const config: Config
    var db: Database

    ghost predicate Valid()
      reads this
    {
      Sound(config, db)
    }

    constructor (config: Config)
      requires 0 < config.maxQueue <= MAX_QUEUE_BYTES
      requires 0 < config.maxQuarantine <= MAX_QUARANTINE_BYTES
      requires 86_400 <= config.retention <= 30 * 86_400
      ensures Valid() && db == EMPTY && this.config == config
    {
      this.config := config;
      db := EMPTY;
    }

    /** `_make_room`: evict the oldest unprotected rows until the payload fits, or raise. */
    method MakeRoom(tables: Database, required: nat) returns (room: Option<Database>)
      ensures room == match RoomFor(config, tables, required)
                      case None => None
                      case Some(k) => Some(Evict(tables, k, QueueQuota))
      ensures room.None? <==> Hopeless(config, tables, required)
      ensures room.Some? ==>
                exists k: nat :: Least(config, tables, required, k) && room.value == Evict(tables, k, QueueQuota)
    {
      RoomIsLeast(config, tables, required);
      hide Hopeless, Least;
      if required > config.maxQueue {
        return None;
      }
      var held := QuarantineBytes(tables);
      var work := tables;
      ghost var k: nat := 0;
      UnderwayFirst(tables, held, required, config.maxQueue);
      while Bytes(work.queue) + held + required > config.maxQueue
        invariant Underway(tables, work, k, held, required, config.maxQueue)
        decreases |work.queue|
      {
        UnderwayNext(tables, work, k, held, required, config.maxQueue);
        var oldest := Oldest(work.queue, Unprotected);
        if oldest.None? {
          return None;
        }
        work := work.(queue := Without(work.queue, oldest.value),
                      audit := work.audit + [FifoEviction(work.queue[oldest.value].id, QueueQuota)]);
        k := k + 1;
      }
      return Some(work);
    }

    /** `_enforce_disk_bound`: look at the files, and commit one eviction at a time while they are too large. */
    method EnforceDiskBound(sizes: seq<nat>) returns (v: Verdict)
      requires Valid()
      modifies this`db
      ensures Valid() && db == DiskBound(config, old(db), sizes).db && v == DiskBound(config, old(db), sizes).verdict
    {
      if !config.physicalQuota || !TooLarge(config.maxQueue, sizes, 0) {
        return Done;
      }
      hide Sound, Shrinking, DiskBound, Oldest, Evict;
      ghost var tables := db;
      var look := 1;
      ShrinkingFirst(db, config.maxQueue, sizes);
      while TooLarge(config.maxQueue, sizes, look)
        invariant 1 <= look && Shrinking(tables, db, look - 1, config.maxQueue, sizes)
        decreases |db.queue|
      {
        var oldest := Oldest(db.queue, Unprotected);
        if oldest.None? {
          ShrinkingLast(config, tables, db, look - 1, sizes);
          return Raised(CapacityExceeded);
        }
        ShrinkingNext(tables, db, look - 1, config.maxQueue, sizes);
        db := db.(queue := Without(db.queue, oldest.value),
                  audit := db.audit + [FifoEviction(db.queue[oldest.value].id, PhysicalQuota)]);
        look := look + 1;
      }
      ShrinkingLast(config, tables, db, look - 1, sizes);
      return Done;
    }

    /** The INSERT both `enqueue` and `split` perform inside their transaction. */
    method Insert(tables: Database, id: Uuid, parent: Option<Uuid>, samples: seq<Sample>,
                  depth: nat, critical: bool, now: int)
      returns (work: Database, v: Verdict)
      ensures work == InsertTx(config, tables, id, parent, samples, depth, critical, now).db
      ensures v == InsertTx(config, tables, id, parent, samples, depth, critical, now).verdict
    {
      var size := config.packed(samples);
      var room := MakeRoom(tables, size);
      if room.None? {
        return tables, Raised(CapacityExceeded);
      }
      if IndexOf(room.value.queue, id).Some? {
        return tables, Raised(IntegrityError);
      }
      var row := Row(NextRowid(room.value.queue), id, parent, samples, size, critical, depth, 0, 0, now);
      return room.value.(queue := room.value.queue + [row]), Done;
    }

    method Enqueue(samples: seq<Sample>, id: Uuid, parent: Option<Uuid>, depth: nat, critical: bool,
                   now: int, sizes: seq<nat>)
      returns (v: Verdict)
      requires Valid()
      modifies this`db
      ensures Valid()
      ensures db == QueueTransactions.Enqueue(config, old(db), id, parent, samples, depth, critical, now, sizes).db
      ensures v == QueueTransactions.Enqueue(config, old(db), id, parent, samples, depth, critical, now, sizes).verdict
    {
      EnqueueSound(config, db, id, parent, samples, depth, critical, now, sizes);
      if samples == [] || depth > MAX_SPLIT_DEPTH {
        return Raised(ValueError);
      }
      InsertSound(config, db, id, parent, samples, depth, critical, now);
      var work, inserted := Insert(db, id, parent, samples, depth, critical, now);
      if inserted.Raised? {
        return inserted;
      }
      db := work;
      var bound := EnforceDiskBound(sizes);
      if bound.Raised? {
        return bound;
      }
      return if IndexOf(db.queue, id).Some? then Done else Raised(CapacityExceeded);
    }

    method Acknowledge(id: Uuid) returns (removed: bool)
      requires Valid()
      modifies this`db
      ensures Valid() && (db, removed) == QueueTransactions.Acknowledge(old(db), id)
      ensures removed <==> HasId(old(db).queue, id)
      ensures !HasId(db.queue, id)
    {
      AcknowledgeSound(config, db, id);
      match IndexOf(db.queue, id)
      case None =>
        removed := false;
      case Some(i) =>
        WithoutKeys(db.queue, i);
        db := db.(queue := Without(db.queue, i));
        removed := true;
    }

    method Defer(id: Uuid, delay: int, now: int) returns (v: Verdict)
      requires Valid()
      modifies this`db
      ensures Valid()
      ensures v == if delay < 0 then Raised(ValueError) else Done
      ensures db == if delay < 0 then old(db) else QueueTransactions.Defer(old(db), id, now + delay)
    {
      DeferSound(config, db, id, now + delay);
      if delay < 0 {
        return Raised(ValueError);
      }
      v := Done;
      match IndexOf(db.queue, id)
      case None =>
      case Some(i) =>
        var row := db.queue[i];
        db := db.(queue := db.queue[i := row.(attempts := row.attempts + 1, nextAttempt := now + delay)]);
    }

    method Split(batch: StoredBatch, left: Uuid, right: Uuid, now: int, later: int) returns (v: Verdict)
      requires Valid()
      modifies this`db
      ensures Valid()
      ensures db == QueueTransactions.Split(config, old(db), batch, left, right, now, later).db
      ensures v == QueueTransactions.Split(config, old(db), batch, left, right, now, later).verdict
    {
      hide Sound, InsertTx, Without;
      SplitSound(config, db, batch, left, right, now, later);
      if |batch.samples| < 2 || batch.depth >= MAX_SPLIT_DEPTH {
        return Raised(ValueError);
      }
      var mid := |batch.samples| / 2;
      match IndexOf(db.queue, batch.id)
      case None =>
        return Raised(KeyError);
      case Some(i) =>
        var critical := db.queue[i].critical;
        var work := db.(queue := Without(db.queue, i));
        work, v := Insert(work, left, Some(batch.id), batch.samples[..mid], batch.depth + 1, critical, now);
        if v.Done? {
          work, v := Insert(work, right, Some(batch.id), batch.samples[mid..], batch.depth + 1, critical, later);
          if v.Done? {
            db := work;
          }
        }
    }

    /** One table of `_purge_expired`: SELECT, DELETE, and an audit row for each row selected. */
    method PurgeTable(rows: seq<Sealed>, audit: seq<Audit>, now: int) returns (kept: seq<Sealed>, log: seq<Audit>, removed: nat)
      ensures kept == Kept(rows, now, false) && removed == |Kept(rows, now, true)|
      ensures log == audit + ExpiryNotices(Kept(rows, now, true))
    {
      var selected := Kept(rows, now, true);
      kept := Kept(rows, now, false);
      log := audit;
      removed := |selected|;
      for k := 0 to |selected|
        invariant log == audit + ExpiryNotices(selected)[..k]
      {
        log := log + [PayloadExpired(selected[k].key)];
      }
    }

    /** `_purge_expired`: the batch table, then the sample table. */
    method PurgeExpired(tables: Database, now: int) returns (work: Database, removed: nat)
      ensures work == Purge(tables, now).db && removed == |Purge(tables, now).expired|
    {
      hide Kept;
      var kept, log, some := PurgeTable(tables.batches, tables.audit, now);
      work := tables.(batches := kept, audit := log);
      var others, all, more := PurgeTable(work.singles, work.audit, now);
      work := work.(singles := others, audit := all);
      removed := some + more;
      NoticesConcat(Kept(tables.batches, now, true), Kept(tables.singles, now, true));
    }

    /** The DELETE, `_make_room` and `_ensure_quarantine_room` that both quarantine calls share. */
    method MakeVacancy(batch: StoredBatch, size: nat, now: int) returns (work: Database, v: Verdict)
      ensures work == Vacate(config, db, batch, size, now).db && v == Vacate(config, db, batch, size, now).verdict
    {
      var purged, count := PurgeExpired(db, now);
      match IndexOf(purged.queue, batch.id)
      case None =>
        return db, Raised(KeyError);
      case Some(i) =>
        var gone := purged.(queue := Without(purged.queue, i));
        var room := MakeRoom(gone, size);
        if room.None? || QuarantineBytes(room.value) + size > config.maxQuarantine {
          return db, Raised(CapacityExceeded);
        }
        return room.value, Done;
    }

    method QuarantineBatch(batch: StoredBatch, http422: bool, now: int) returns (v: Verdict)
      requires Valid()
      modifies this`db
      ensures Valid()
      ensures db == QueueTransactions.QuarantineBatch(config, old(db), batch, http422, now).db
      ensures v == QueueTransactions.QuarantineBatch(config, old(db), batch, http422, now).verdict
    {
      QuarantineBatchSound(config, db, batch, http422, now);
      hide Sound, Vacate, SealBatch;
      match config.seal(batch.samples)
      case None =>
        return Raised(ProtectionUnavailable);
      case Some(size) =>
        var work;
        work, v := MakeVacancy(batch, size, now);
        if v.Done? {
          if exists i :: 0 <= i < |work.batches| && work.batches[i].key == batch.id {
            return Raised(IntegrityError);
          }
          db := SealBatch(config, work, batch, size, http422, now);
        }
    }

    method QuarantineSample(batch: StoredBatch, key: Uuid, now: int) returns (v: Verdict)
      requires Valid()
      modifies this`db
      ensures Valid()
      ensures db == QueueTransactions.QuarantineSample(config, old(db), batch, key, now).db
      ensures v == QueueTransactions.QuarantineSample(config, old(db), batch, key, now).verdict
    {
      QuarantineSampleSound(config, db, batch, key, now);
      hide Sound, Vacate, SealSample;
      if |batch.samples| != 1 {
        return Raised(ValueError);
      }
      match config.seal(batch.samples)
      case None =>
        return Raised(ProtectionUnavailable);
      case Some(size) =>
        var work;
        work, v := MakeVacancy(batch, size, now);
        if v.Done? {
          if exists i :: 0 <= i < |work.singles| && work.singles[i].key == key {
            return Raised(IntegrityError);
          }
          db := SealSample(config, work, batch, key, size, now);
        }
    }

    /** `purge_expired_quarantine`: payloads go exactly when their retention is over, each with an audit row
        in its turn; the queue is left alone. */
    method PurgeExpiredQuarantine(now: int) returns (removed: nat)
      requires Valid()
      modifies this`db
      ensures Valid() && db == Purge(old(db), now).db
      ensures db.queue == old(db.queue)
      ensures forall x :: multiset(db.batches)[x] == if x.purgeAfter > now then multiset(old(db.batches))[x] else 0
      ensures forall x :: multiset(db.singles)[x] == if x.purgeAfter > now then multiset(old(db.singles))[x] else 0
      ensures removed == |old(db.batches)| - |db.batches| + |old(db.singles)| - |db.singles|
      ensures var gone := Purge(old(db), now).expired;
              && removed == |gone| && |db.audit| == |old(db.audit)| + removed && old(db.audit) == db.audit[..|old(db.audit)|]
              && (forall k :: 0 <= k < removed ==> db.audit[|old(db.audit)| + k] == PayloadExpired(gone[k].key))
              && (forall x :: x in gone <==> (x in old(db.batches) || x in old(db.singles)) && x.purgeAfter <= now)
    {
      PurgeSound(config, db, now);
      PurgedRows(db, now);
      hide Sound, Purge;
      db, removed := PurgeExpired(db, now);
    }

    /** `next_batch`: the first row due, in dispatch order. */
    method NextBatch(now: int) returns (r: Option<StoredBatch>)
      requires Valid()
      ensures r == QueueTransactions.NextBatch(db, now)
      ensures r.None? <==> forall x :: x in db.queue ==> !Due(x, now)
      ensures r.Some? ==> exists first :: first in db.queue && Due(first, now) && r.value == Snapshot(first)
                                          && forall x :: x in db.queue && Due(x, now) ==> x == first || Older(first, x)
    {
      OldestIsFirst(db.queue, DueAt(now));
      match Oldest(db.queue, DueAt(now))
      case None =>
        assert forall x :: x in db.queue ==> !Matches(x, DueAt(now));
        return None;
      case Some(i) =>
        ghost var first := db.queue[i];
        assert forall x :: x in db.queue && Matches(x, DueAt(now)) ==> x == first || Older(first, x);
        assert Matches(first, DueAt(now));
        return Some(Snapshot(db.queue[i]));
    }
  }
}

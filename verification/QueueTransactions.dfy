/** What each transaction of the local store does to the tables: the specification of LocalQueue. */
module QueueTransactions {
  import opened Wrappers
  import opened Telemetry
  import opened QueueTables

  const MAX_SPLIT_DEPTH := 3

  /** `packed` is the size of the compressed payload and `seal` that of the ciphertext, which the
      protector may refuse to produce. */
  datatype Config = Config(
    maxQueue: nat, maxQuarantine: nat, retention: nat, physicalQuota: bool,
    packed: seq<Sample> -> nat, seal: seq<Sample> -> Option<nat>)

  datatype Error = ValueError | CapacityExceeded | IntegrityError | KeyError | ProtectionUnavailable

  datatype Verdict = Done | Raised(error: Error)

  /** The committed tables, the rows that evictions and expiry removed, and how the call ended. */
  datatype Change = Change(db: Database, evicted: seq<Row>, expired: seq<Sealed>, verdict: Verdict)

  /** The snapshot `next_batch` and `get_batch` hand out. */
  datatype StoredBatch = StoredBatch(id: Uuid, samples: seq<Sample>, parent: Option<Uuid>, depth: nat, attempts: nat)

  function Snapshot(r: Row): StoredBatch {
    StoredBatch(r.id, r.samples, r.parent, r.depth, r.attempts)
  }

  /** A transaction that raises is rolled back. */
  function Rollback(db: Database, e: Error): Change {
    Change(db, [], [], Raised(e))
  }

  // ---------------------------------------------------------------- eviction

  function Notices(rows: seq<Row>, cause: Cause): (r: seq<Audit>)
    ensures |r| == |rows|
  {
    seq(|rows|, i requires 0 <= i < |rows| => FifoEviction(rows[i].id, cause))
  }

  /** Evict the first `k` rows of the eviction order, one audit row each. */
  function Evict(db: Database, k: nat, cause: Cause): Database
    requires k <= |EvictionOrder(db.queue)|
  {
    db.(queue := Survivors(db.queue, k), audit := db.audit + Notices(EvictionOrder(db.queue)[..k], cause))
  }

  /** How many rows `_make_room` evicts; None when it raises. */
  function RoomFor(c: Config, db: Database, required: nat): (r: Option<nat>)
    ensures r.Some? ==> r.value <= |EvictionOrder(db.queue)|
  {
    if required > c.maxQueue then None
    else Evictions(db.queue, QuarantineBytes(db), required, c.maxQueue)
  }

  /** Evicting the `k` oldest unprotected rows makes room for the payload, and evicting fewer does not. */
  predicate Least(c: Config, db: Database, required: nat, k: nat) {
    && k <= |EvictionOrder(db.queue)|
    && Bytes(Survivors(db.queue, k)) + SealedBytes(db.batches) + SealedBytes(db.singles) + required <= c.maxQueue
    && forall j: nat :: j < k ==>
         Bytes(Survivors(db.queue, j)) + SealedBytes(db.batches) + SealedBytes(db.singles) + required > c.maxQueue
  }

  /** Not even evicting every unprotected row makes room for it. */
  predicate Hopeless(c: Config, db: Database, required: nat) {
    required > c.maxQueue
    || Bytes(Survivors(db.queue, |EvictionOrder(db.queue)|)) + SealedBytes(db.batches) + SealedBytes(db.singles) + required
       > c.maxQueue
  }

  lemma SurvivorsSuffice(rows: seq<Row>, k: nat, held: nat, required: nat, cap: nat)
    requires k <= |EvictionOrder(rows)|
    ensures Suffices(rows, k, held, required, cap) <==> Bytes(Survivors(rows, k)) + held + required <= cap
  {
    SurvivorsBytes(rows, k);
  }

  /** `_make_room` evicts the shortest prefix of the eviction order that makes room, and raises exactly when
      there is none. */
  lemma RoomIsLeast(c: Config, db: Database, required: nat)
    ensures RoomFor(c, db, required).None? <==> Hopeless(c, db, required)
    ensures RoomFor(c, db, required).Some? ==> Least(c, db, required, RoomFor(c, db, required).value)
  {
    var held := QuarantineBytes(db);
    EvictionsGiveUp(db.queue, held, required, c.maxQueue);
    SurvivorsSuffice(db.queue, |EvictionOrder(db.queue)|, held, required, c.maxQueue);
    if RoomFor(c, db, required).Some? {
      var k := RoomFor(c, db, required).value;
      EvictionsAreShortest(db.queue, held, required, c.maxQueue);
      SurvivorsSuffice(db.queue, k, held, required, c.maxQueue);
      forall j: nat | j < k
        ensures Bytes(Survivors(db.queue, j)) + SealedBytes(db.batches) + SealedBytes(db.singles) + required > c.maxQueue
      {
        SurvivorsSuffice(db.queue, j, held, required, c.maxQueue);
      }
    }
    hide Suffices, Survivors, EvictionOrder, Evictions, Bytes;
  }

  /** What fits already costs no row. */
  lemma WhatFitsEvictsNothing(c: Config, db: Database, required: nat, k: nat)
    requires Bytes(db.queue) + SealedBytes(db.batches) + SealedBytes(db.singles) + required <= c.maxQueue
    ensures Least(c, db, required, k) <==> k == 0
    ensures !Hopeless(c, db, required)
  {
    assert Survivors(db.queue, 0) == db.queue;
    SurvivorsBytes(db.queue, |EvictionOrder(db.queue)|);
    hide EvictionOrder, Bytes;
  }

  /** How many rows the physical quota costs. Each look at the files reports the next element of
      `sizes`; past its end they fit. */
  function DiskEvictions(rows: seq<Row>, cap: nat, sizes: seq<nat>): (r: nat)
    ensures r <= |EvictionOrder(rows)|
    decreases |rows|
  {
    if sizes == [] || sizes[0] <= cap then 0
    else match Oldest(rows, Unprotected)
      case None => 0
      case Some(i) => 1 + DiskEvictions(Without(rows, i), cap, sizes[1..])
  }

  /** Whether the files still exceed the quota at look `k`. */
  predicate TooLarge(cap: nat, sizes: seq<nat>, k: nat) {
    k < |sizes| && sizes[k] > cap
  }

  /** Eviction goes on exactly as long as the files are too large and an unprotected row is left. */
  lemma {:induction false} DiskEvictionsStop(rows: seq<Row>, cap: nat, sizes: seq<nat>)
    ensures TooLarge(cap, sizes, DiskEvictions(rows, cap, sizes))
            ==> DiskEvictions(rows, cap, sizes) == |EvictionOrder(rows)|
    ensures forall j: nat :: j < DiskEvictions(rows, cap, sizes) ==> TooLarge(cap, sizes, j)
    decreases |rows|
  {
    if TooLarge(cap, sizes, 0) && Oldest(rows, Unprotected).Some? {
      var rest := Without(rows, Oldest(rows, Unprotected).value);
      DiskEvictionsStop(rest, cap, sizes[1..]);
      forall j: nat | 1 <= j <= DiskEvictions(rest, cap, sizes[1..]) ensures TooLarge(cap, sizes, j) {
        assert TooLarge(cap, sizes[1..], j - 1);
      }
    }
  }

  /** `_enforce_disk_bound`: every eviction is its own transaction, so a final raise keeps them. */
  function DiskBound(c: Config, db: Database, sizes: seq<nat>): Change {
    if !c.physicalQuota || !TooLarge(c.maxQueue, sizes, 0) then Change(db, [], [], Done)
    else
      var k := DiskEvictions(db.queue, c.maxQueue, sizes[1..]);
      Change(Evict(db, k, PhysicalQuota), EvictionOrder(db.queue)[..k], [],
             if TooLarge(c.maxQueue, sizes, 1 + k) then Raised(CapacityExceeded) else Done)
  }

  // --------------------------------------------------------------- insertion

  /** `_make_room` for the payload, then the INSERT. */
  function InsertTx(c: Config, db: Database, id: Uuid, parent: Option<Uuid>, samples: seq<Sample>,
                    depth: nat, critical: bool, now: int): Change
  {
    match RoomFor(c, db, c.packed(samples))
    case None => Rollback(db, CapacityExceeded)
    case Some(k) =>
      var room := Evict(db, k, QueueQuota);
      if HasId(room.queue, id) then Rollback(db, IntegrityError)
      else
        var row := Row(NextRowid(room.queue), id, parent, samples, c.packed(samples), critical, depth, 0, 0, now);
        Change(room.(queue := room.queue + [row]), EvictionOrder(db.queue)[..k], [], Done)
  }

  /** The transaction of `enqueue`. */
  function EnqueueTx(c: Config, db: Database, id: Uuid, parent: Option<Uuid>, samples: seq<Sample>,
                     depth: nat, critical: bool, now: int): Change
  {
    if samples == [] || depth > MAX_SPLIT_DEPTH then Rollback(db, ValueError)
    else InsertTx(c, db, id, parent, samples, depth, critical, now)
  }

  /** `enqueue` with the physical quota check that follows the commit. */
  function Enqueue(c: Config, db: Database, id: Uuid, parent: Option<Uuid>, samples: seq<Sample>,
                   depth: nat, critical: bool, now: int, sizes: seq<nat>): Change
  {
    var tx := EnqueueTx(c, db, id, parent, samples, depth, critical, now);
    if tx.verdict.Raised? then tx
    else
      var bound := DiskBound(c, tx.db, sizes);
      Change(bound.db, tx.evicted + bound.evicted, [],
             if bound.verdict.Raised? then bound.verdict
             else if HasId(bound.db.queue, id) then Done else Raised(CapacityExceeded))
  }

  // ------------------------------------------------------------------ simple

  /** DELETE by key; whether a row went. */
  function Acknowledge(db: Database, id: Uuid): (Database, bool) {
    match IndexOf(db.queue, id)
    case None => (db, false)
    case Some(i) => (db.(queue := Without(db.queue, i)), true)
  }

  function Defer(db: Database, id: Uuid, until: int): Database {
    match IndexOf(db.queue, id)
    case None => db
    case Some(i) =>
      var row := db.queue[i];
      db.(queue := db.queue[i := row.(attempts := row.attempts + 1, nextAttempt := until)])
  }

  // ------------------------------------------------------------------- split

  predicate Splittable(batch: StoredBatch) {
    |batch.samples| >= 2 && batch.depth < MAX_SPLIT_DEPTH
  }

  /** The parent is deleted and the first half inserted. */
  function SplitFirst(c: Config, db: Database, batch: StoredBatch, i: nat, left: Uuid, now: int): Change
    requires Splittable(batch) && i < |db.queue|
  {
    InsertTx(c, db.(queue := Without(db.queue, i)), left, Some(batch.id), batch.samples[..|batch.samples| / 2],
             batch.depth + 1, db.queue[i].critical, now)
  }

  /** The second half is inserted after the first. */
  function SplitSecond(c: Config, db: Database, batch: StoredBatch, critical: bool, right: Uuid, now: int): Change
    requires Splittable(batch)
  {
    InsertTx(c, db, right, Some(batch.id), batch.samples[|batch.samples| / 2..], batch.depth + 1, critical, now)
  }

  /** Replace the batch by its two halves, which inherit the protection of the row. */
  function Split(c: Config, db: Database, batch: StoredBatch, left: Uuid, right: Uuid, now: int, later: int): Change {
    if !Splittable(batch) then Rollback(db, ValueError)
    else match IndexOf(db.queue, batch.id)
      case None => Rollback(db, KeyError)
      case Some(i) =>
        var one := SplitFirst(c, db, batch, i, left, now);
        if one.verdict.Raised? then Rollback(db, one.verdict.error)
        else
          var two := SplitSecond(c, one.db, batch, db.queue[i].critical, right, later);
          if two.verdict.Raised? then Rollback(db, two.verdict.error)
          else Change(two.db, one.evicted + two.evicted, [], Done)
  }

  // -------------------------------------------------------------- quarantine

  /** The rows kept (`expired` false) or dropped (`expired` true) by a purge at `now`. */
  function Kept(rows: seq<Sealed>, now: int, expired: bool): seq<Sealed> {
    if rows == [] then []
    else if (rows[0].purgeAfter <= now) == expired then [rows[0]] + Kept(rows[1..], now, expired)
    else Kept(rows[1..], now, expired)
  }

  /** A purge splits the table by date: each row stays or goes as its retention says, as often as it is there. */
  lemma {:induction false} KeptExactly(rows: seq<Sealed>, now: int, expired: bool)
    ensures forall x :: multiset(Kept(rows, now, expired))[x] == if (x.purgeAfter <= now) == expired then multiset(rows)[x] else 0
    ensures |rows| == |Kept(rows, now, false)| + |Kept(rows, now, true)|
  {
    if rows != [] {
      assert rows == [rows[0]] + rows[1..];
      KeptExactly(rows[1..], now, expired);
    }
  }

  function ExpiryNotices(rows: seq<Sealed>): (r: seq<Audit>)
    ensures |r| == |rows|
  {
    seq(|rows|, i requires 0 <= i < |rows| => PayloadExpired(rows[i].key))
  }

  /** `_purge_expired`: the batch table first, then the sample table. */
  function Purge(db: Database, now: int): Change {
    var dead := Kept(db.batches, now, true) + Kept(db.singles, now, true);
    Change(Database(db.queue, Kept(db.batches, now, false), Kept(db.singles, now, false),
                    db.audit + ExpiryNotices(dead)),
           [], dead, Done)
  }

  predicate HasKey(rows: seq<Sealed>, key: Uuid) {
    exists i :: 0 <= i < |rows| && rows[i].key == key
  }

  /** What both quarantine transactions do before their INSERT: purge, delete the row, make room
      under both quotas. */
  function Vacate(c: Config, db: Database, batch: StoredBatch, size: nat, now: int): Change {
    var purged := Purge(db, now);
    match IndexOf(purged.db.queue, batch.id)
    case None => Rollback(db, KeyError)
    case Some(i) =>
      var gone := purged.db.(queue := Without(purged.db.queue, i));
      match RoomFor(c, gone, size)
      case None => Rollback(db, CapacityExceeded)
      case Some(k) =>
        if QuarantineBytes(gone) + size > c.maxQuarantine then Rollback(db, CapacityExceeded)
        else Change(Evict(gone, k, QueueQuota), EvictionOrder(gone.queue)[..k], purged.expired, Done)
  }

  function SealBatch(c: Config, db: Database, batch: StoredBatch, size: nat, http422: bool, now: int): Database {
    db.(batches := db.batches + [Sealed(batch.id, batch.id, batch.samples, size, now + c.retention)],
        audit := db.audit + [BatchQuarantined(batch.id, http422)])
  }

  function SealSample(c: Config, db: Database, batch: StoredBatch, key: Uuid, size: nat, now: int): Database {
    db.(singles := db.singles + [Sealed(key, batch.id, batch.samples, size, now + c.retention)],
        audit := db.audit + [SampleQuarantined(key, batch.id)])
  }

  function QuarantineBatch(c: Config, db: Database, batch: StoredBatch, http422: bool, now: int): Change {
    match c.seal(batch.samples)
    case None => Rollback(db, ProtectionUnavailable)
    case Some(size) =>
      var v := Vacate(c, db, batch, size, now);
      if v.verdict.Raised? then v
      else if HasKey(v.db.batches, batch.id) then Rollback(db, IntegrityError)
      else v.(db := SealBatch(c, v.db, batch, size, http422, now))
  }

  function QuarantineSample(c: Config, db: Database, batch: StoredBatch, key: Uuid, now: int): Change {
    if |batch.samples| != 1 then Rollback(db, ValueError)
    else match c.seal(batch.samples)
      case None => Rollback(db, ProtectionUnavailable)
      case Some(size) =>
        var v := Vacate(c, db, batch, size, now);
        if v.verdict.Raised? then v
        else if HasKey(v.db.singles, key) then Rollback(db, IntegrityError)
        else v.(db := SealSample(c, v.db, batch, key, size, now))
  }

  // ------------------------------------------------------------------ reads

  function NextBatch(db: Database, now: int): Option<StoredBatch> {
    match Oldest(db.queue, DueAt(now))
    case None => None
    case Some(i) => Some(Snapshot(db.queue[i]))
  }

  function GetBatch(db: Database, id: Uuid): Option<StoredBatch> {
    match IndexOf(db.queue, id)
    case None => None
    case Some(i) => Some(Snapshot(db.queue[i]))
  }
}

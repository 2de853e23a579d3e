/** Where every sample goes: over any run of the local store nothing appears, nothing is lost
    silently, and nothing protected is ever evicted. */
module QueueConservation {
  import opened Wrappers
  import opened Telemetry
  import opened QueueTables
  import opened QueueTransactions
  import opened QueueInvariants

  /** Everything the store still holds, queued or sealed. */
  function Content(db: Database): multiset<Sample> {
    Carried(db.queue, false) + SealedSamples(db.batches) + SealedSamples(db.singles)
  }

  function Ids(rows: seq<Row>): seq<Uuid> {
    seq(|rows|, i requires 0 <= i < |rows| => rows[i].id)
  }

  function SealedKeys(rows: seq<Sealed>): seq<Uuid> {
    seq(|rows|, i requires 0 <= i < |rows| => rows[i].key)
  }

  /** The batches the audit log says were evicted, in order. */
  function EvictedIds(log: seq<Audit>): seq<Uuid> {
    if log == [] then []
    else if log[0].FifoEviction? then [log[0].batch] + EvictedIds(log[1..])
    else EvictedIds(log[1..])
  }

  /** The quarantine rows the audit log says expired, in order. */
  function ExpiredKeys(log: seq<Audit>): seq<Uuid> {
    if log == [] then []
    else if log[0].PayloadExpired? then [log[0].key] + ExpiredKeys(log[1..])
    else ExpiredKeys(log[1..])
  }

  lemma {:induction false} LogConcat(a: seq<Audit>, b: seq<Audit>)
    ensures EvictedIds(a + b) == EvictedIds(a) + EvictedIds(b)
    ensures ExpiredKeys(a + b) == ExpiredKeys(a) + ExpiredKeys(b)
  {
    if a == [] {
      assert a + b == b;
    } else {
      assert (a + b)[1..] == a[1..] + b;
      LogConcat(a[1..], b);
    }
  }

  lemma {:induction false} NoticesLog(rows: seq<Row>, cause: Cause)
    ensures EvictedIds(Notices(rows, cause)) == Ids(rows)
    ensures ExpiredKeys(Notices(rows, cause)) == []
  {
    if rows != [] {
      NoticesLog(rows[1..], cause);
      assert Notices(rows, cause)[1..] == Notices(rows[1..], cause);
      assert Ids(rows) == [rows[0].id] + Ids(rows[1..]);
    }
  }

  lemma {:induction false} ExpiryLog(rows: seq<Sealed>)
    ensures EvictedIds(ExpiryNotices(rows)) == []
    ensures ExpiredKeys(ExpiryNotices(rows)) == SealedKeys(rows)
  {
    if rows != [] {
      ExpiryLog(rows[1..]);
      assert ExpiryNotices(rows)[1..] == ExpiryNotices(rows[1..]);
      assert SealedKeys(rows) == [rows[0].key] + SealedKeys(rows[1..]);
    }
  }

  // ------------------------------------------------------------------- flows

  /** Samples that enter the store, leave it, and the protected ones among the entering and leaving rows. */
  datatype Movement = Movement(came: multiset<Sample>, went: multiset<Sample>,
                               guardedCame: multiset<Sample>, guardedWent: multiset<Sample>)

  const STILL := Movement(multiset{}, multiset{}, multiset{}, multiset{})

  /** What was held plus what came in is what is held, evicted, expired, or went out. */
  ghost predicate Flow(db: Database, ch: Change, m: Movement) {
    forall x: Sample :: Content(db)[x] + m.came[x]
                        == Content(ch.db)[x] + Carried(ch.evicted, false)[x] + SealedSamples(ch.expired)[x] + m.went[x]
  }

  /** The same balance for the samples of protected rows, which eviction may not touch. */
  ghost predicate GuardedFlow(db: Database, ch: Change, m: Movement) {
    && (forall x: Sample :: Carried(db.queue, true)[x] + m.guardedCame[x]
                            == Carried(ch.db.queue, true)[x] + m.guardedWent[x])
    && forall r :: r in ch.evicted ==> !r.critical
  }

  /** Every eviction and every expiry has its audit row, in order. */
  predicate Logged(db: Database, ch: Change) {
    && EvictedIds(ch.db.audit) == EvictedIds(db.audit) + Ids(ch.evicted)
    && ExpiredKeys(ch.db.audit) == ExpiredKeys(db.audit) + SealedKeys(ch.expired)
  }

  ghost predicate Accounted(db: Database, ch: Change, m: Movement) {
    Flow(db, ch, m) && GuardedFlow(db, ch, m) && Logged(db, ch)
  }

  function Then(a: Change, b: Change): Change {
    Change(b.db, a.evicted + b.evicted, a.expired + b.expired, b.verdict)
  }

  function Plus(m: Movement, n: Movement): Movement {
    Movement(m.came + n.came, m.went + n.went, m.guardedCame + n.guardedCame, m.guardedWent + n.guardedWent)
  }

  lemma NothingHappens(db: Database, v: Verdict)
    ensures Accounted(db, Change(db, [], [], v), STILL)
  {
  }

  /** A step without eviction or expiry is accounted for by its effect on the tables. */
  lemma Settle(db: Database, after: Database, m: Movement)
    requires forall x: Sample :: Content(db)[x] + m.came[x] == Content(after)[x] + m.went[x]
    requires forall x: Sample :: Carried(db.queue, true)[x] + m.guardedCame[x]
                                 == Carried(after.queue, true)[x] + m.guardedWent[x]
    requires EvictedIds(after.audit) == EvictedIds(db.audit) && ExpiredKeys(after.audit) == ExpiredKeys(db.audit)
    ensures Accounted(db, Change(after, [], [], Done), m)
  {
    NothingHappens(after, Done);
    hide Content, Carried, SealedSamples, EvictedIds, ExpiredKeys, Ids, SealedKeys;
  }

  lemma FlowChain(db: Database, a: Change, m: Movement, b: Change, n: Movement)
    requires Flow(db, a, m) && Flow(a.db, b, n)
    ensures Flow(db, Then(a, b), Plus(m, n))
  {
    hide Content, Carried, SealedSamples;
    CarriedConcat(a.evicted, b.evicted, false);
    SealedConcat(a.expired, b.expired);
  }

  lemma GuardedChain(db: Database, a: Change, m: Movement, b: Change, n: Movement)
    requires GuardedFlow(db, a, m) && GuardedFlow(a.db, b, n)
    ensures GuardedFlow(db, Then(a, b), Plus(m, n))
  {
    hide Carried;
  }

  lemma LoggedChain(db: Database, a: Change, b: Change)
    requires Logged(db, a) && Logged(a.db, b)
    ensures Logged(db, Then(a, b))
  {
    hide EvictedIds, ExpiredKeys;
    assert Ids(a.evicted + b.evicted) == Ids(a.evicted) + Ids(b.evicted);
    assert SealedKeys(a.expired + b.expired) == SealedKeys(a.expired) + SealedKeys(b.expired);
  }

  /** Two accounted steps in a row are accounted for together. */
  lemma Chain(db: Database, a: Change, m: Movement, b: Change, n: Movement)
    requires Accounted(db, a, m) && Accounted(a.db, b, n)
    ensures Accounted(db, Then(a, b), Plus(m, n))
  {
    hide Flow, GuardedFlow, Logged;
    FlowChain(db, a, m, b, n);
    GuardedChain(db, a, m, b, n);
    LoggedChain(db, a, b);
  }

  /** What enters and leaves in one go need not be counted. */
  lemma Net(db: Database, ch: Change, m: Movement, n: Movement)
    requires Accounted(db, ch, m)
    requires forall x: Sample :: m.came[x] + n.went[x] == m.went[x] + n.came[x]
    requires forall x: Sample :: m.guardedCame[x] + n.guardedWent[x] == m.guardedWent[x] + n.guardedCame[x]
    ensures Accounted(db, ch, n)
  {
    hide Content, Carried, SealedSamples, EvictedIds, ExpiredKeys;
  }

  // ------------------------------------------------- the pieces of a transaction

  function Evicting(db: Database, k: nat, cause: Cause): Change
    requires k <= |EvictionOrder(db.queue)|
  {
    Change(Evict(db, k, cause), EvictionOrder(db.queue)[..k], [], Done)
  }

  lemma {:induction false} EvictionOrderUnprotected(rows: seq<Row>)
    ensures forall x :: x in EvictionOrder(rows) ==> !x.critical
    decreases |rows|
  {
    if Oldest(rows, Unprotected).Some? {
      EvictionOrderUnprotected(Without(rows, Oldest(rows, Unprotected).value));
    }
  }

  lemma EvictAccounted(db: Database, k: nat, cause: Cause)
    requires k <= |EvictionOrder(db.queue)|
    ensures Accounted(db, Evicting(db, k, cause), STILL)
  {
    EvictFlow(db, k, cause);
    EvictLogged(db, k, cause);
  }

  lemma EvictFlow(db: Database, k: nat, cause: Cause)
    requires k <= |EvictionOrder(db.queue)|
    ensures Flow(db, Evicting(db, k, cause), STILL) && GuardedFlow(db, Evicting(db, k, cause), STILL)
  {
    SurvivorsCarried(db.queue, k, false);
    SurvivorsCarried(db.queue, k, true);
    EvictionOrderUnprotected(db.queue);
    NothingProtected(EvictionOrder(db.queue)[..k]);
    hide Carried, EvictionOrder, Survivors;
  }

  lemma EvictLogged(db: Database, k: nat, cause: Cause)
    requires k <= |EvictionOrder(db.queue)|
    ensures Logged(db, Evicting(db, k, cause))
  {
    LogConcat(db.audit, Notices(EvictionOrder(db.queue)[..k], cause));
    NoticesLog(EvictionOrder(db.queue)[..k], cause);
  }

  function Guarded(samples: seq<Sample>, critical: bool): multiset<Sample> {
    if critical then multiset(samples) else multiset{}
  }

  lemma OneRow(r: Row)
    ensures Carried([r], false) == multiset(r.samples)
    ensures Carried([r], true) == Guarded(r.samples, r.critical)
  {
    assert Carried([], false) == Carried([], true) == multiset{};
  }

  function Arrival(samples: seq<Sample>, critical: bool): Movement {
    Movement(multiset(samples), multiset{}, Guarded(samples, critical), multiset{})
  }

  function Departure(samples: seq<Sample>, critical: bool): Movement {
    Movement(multiset{}, multiset(samples), multiset{}, Guarded(samples, critical))
  }

  lemma AppendAccounted(db: Database, r: Row)
    ensures Accounted(db, Change(db.(queue := db.queue + [r]), [], [], Done), Arrival(r.samples, r.critical))
  {
    var after := db.(queue := db.queue + [r]);
    hide Carried, SealedSamples, Guarded, EvictedIds, ExpiredKeys;
    CarriedConcat(db.queue, [r], false);
    CarriedConcat(db.queue, [r], true);
    OneRow(r);
    Settle(db, after, Arrival(r.samples, r.critical));
  }

  lemma RemoveAccounted(db: Database, i: nat)
    requires i < |db.queue|
    ensures Accounted(db, Change(db.(queue := Without(db.queue, i)), [], [], Done),
                      Departure(db.queue[i].samples, db.queue[i].critical))
  {
    NothingHappens(db, Done);
    hide Without, Carried, SealedSamples, Guarded, EvictedIds, ExpiredKeys, Ids;
    WithoutCarried(db.queue, i, false);
    WithoutCarried(db.queue, i, true);
    OneRow(db.queue[i]);
  }

  /** A committed INSERT: the table after `_make_room`, and one row more. */
  lemma InsertShape(c: Config, db: Database, id: Uuid, parent: Option<Uuid>, samples: seq<Sample>,
                    depth: nat, critical: bool, now: int) returns (k: nat, row: Row)
    requires InsertTx(c, db, id, parent, samples, depth, critical, now).verdict.Done?
    ensures k <= |EvictionOrder(db.queue)|
    ensures row.id == id && row.samples == samples && row.critical == critical && row.depth == depth
    ensures row.rowid == NextRowid(Evict(db, k, QueueQuota).queue) && !HasId(Evict(db, k, QueueQuota).queue, id)
    ensures var room := Evict(db, k, QueueQuota);
            InsertTx(c, db, id, parent, samples, depth, critical, now)
            == Change(room.(queue := room.queue + [row]), Evicting(db, k, QueueQuota).evicted, [], Done)
  {
    k := RoomFor(c, db, c.packed(samples)).value;
    row := Row(NextRowid(Evict(db, k, QueueQuota).queue), id, parent, samples, c.packed(samples),
               critical, depth, 0, 0, now);
  }

  lemma InsertAccounted(c: Config, db: Database, id: Uuid, parent: Option<Uuid>, samples: seq<Sample>,
                        depth: nat, critical: bool, now: int)
    requires InsertTx(c, db, id, parent, samples, depth, critical, now).verdict.Done?
    ensures Accounted(db, InsertTx(c, db, id, parent, samples, depth, critical, now), Arrival(samples, critical))
  {
    hide InsertTx, Evict, Accounted;
    var k, row := InsertShape(c, db, id, parent, samples, depth, critical, now);
    EvictAccounted(db, k, QueueQuota);
    var room := Evicting(db, k, QueueQuota);
    var put := Change(room.db.(queue := room.db.queue + [row]), [], [], Done);
    AppendAccounted(room.db, row);
    Chain(db, room, STILL, put, Arrival(samples, critical));
    assert Then(room, put) == InsertTx(c, db, id, parent, samples, depth, critical, now);
    assert Plus(STILL, Arrival(samples, critical)) == Arrival(samples, critical);
  }

  // ---------------------------------------------------------- whole transactions

  lemma {:induction false} KeptSamples(rows: seq<Sealed>, now: int)
    ensures forall x: Sample :: SealedSamples(rows)[x] == SealedSamples(Kept(rows, now, false))[x]
                                                          + SealedSamples(Kept(rows, now, true))[x]
  {
    if rows != [] {
      KeptSamples(rows[1..], now);
    }
  }

  lemma PurgeAccounted(db: Database, now: int)
    ensures Accounted(db, Purge(db, now), STILL)
  {
    KeptSamples(db.batches, now);
    KeptSamples(db.singles, now);
    var dead := Purge(db, now).expired;
    SealedConcat(Kept(db.batches, now, true), Kept(db.singles, now, true));
    LogConcat(db.audit, ExpiryNotices(dead));
    ExpiryLog(dead);
    hide SealedSamples, Kept, EvictedIds, ExpiredKeys;
  }

  lemma DiskAccounted(c: Config, db: Database, sizes: seq<nat>)
    ensures Accounted(db, DiskBound(c, db, sizes), STILL)
  {
    hide Accounted, Evict;
    if c.physicalQuota && TooLarge(c.maxQueue, sizes, 0) {
      var k := DiskEvictions(db.queue, c.maxQueue, sizes[1..]);
      EvictAccounted(db, k, PhysicalQuota);
      Relabel(db, Evicting(db, k, PhysicalQuota), DiskBound(c, db, sizes), STILL);
    } else {
      NothingHappens(db, Done);
    }
  }

  /** The verdict plays no part in the accounts. */
  lemma Relabel(db: Database, a: Change, b: Change, m: Movement)
    requires Accounted(db, a, m) && b == a.(verdict := b.verdict)
    ensures Accounted(db, b, m)
  {
  }

  lemma EnqueueAccounted(c: Config, db: Database, id: Uuid, parent: Option<Uuid>, samples: seq<Sample>,
                         depth: nat, critical: bool, now: int, sizes: seq<nat>)
    ensures Accounted(db, Enqueue(c, db, id, parent, samples, depth, critical, now, sizes),
                      if EnqueueTx(c, db, id, parent, samples, depth, critical, now).verdict.Done?
                      then Arrival(samples, critical) else STILL)
  {
    hide InsertTx, DiskBound, Accounted;
    var tx := EnqueueTx(c, db, id, parent, samples, depth, critical, now);
    var all := Enqueue(c, db, id, parent, samples, depth, critical, now, sizes);
    if tx.verdict.Done? {
      InsertAccounted(c, db, id, parent, samples, depth, critical, now);
      DiskAccounted(c, tx.db, sizes);
      var bound := DiskBound(c, tx.db, sizes);
      Chain(db, tx, Arrival(samples, critical), bound, STILL);
      assert Plus(Arrival(samples, critical), STILL) == Arrival(samples, critical);
      NoExpiry(c, db, id, parent, samples, depth, critical, now, sizes);
      Relabel(db, Then(tx, bound), all, Arrival(samples, critical));
    } else {
      RaisedInsert(c, db, id, parent, samples, depth, critical, now);
      NothingHappens(db, tx.verdict);
    }
  }

  lemma NoExpiry(c: Config, db: Database, id: Uuid, parent: Option<Uuid>, samples: seq<Sample>,
                 depth: nat, critical: bool, now: int, sizes: seq<nat>)
    ensures InsertTx(c, db, id, parent, samples, depth, critical, now).expired == []
    ensures DiskBound(c, db, sizes).expired == []
    ensures EnqueueTx(c, db, id, parent, samples, depth, critical, now).verdict.Done? ==>
              DiskBound(c, EnqueueTx(c, db, id, parent, samples, depth, critical, now).db, sizes).expired == []
  {
  }

  /** A raising transaction leaves the tables as they were. */
  lemma RaisedInsert(c: Config, db: Database, id: Uuid, parent: Option<Uuid>, samples: seq<Sample>,
                     depth: nat, critical: bool, now: int)
    ensures InsertTx(c, db, id, parent, samples, depth, critical, now).verdict.Raised? ==>
              InsertTx(c, db, id, parent, samples, depth, critical, now)
              == Change(db, [], [], InsertTx(c, db, id, parent, samples, depth, critical, now).verdict)
  {
  }

  /** A snapshot of a queued row carries that row's samples. */
  predicate Current(db: Database, batch: StoredBatch) {
    forall i :: 0 <= i < |db.queue| && db.queue[i].id == batch.id ==> Snapshot(db.queue[i]) == batch
  }

  lemma Halves(samples: seq<Sample>, k: nat)
    requires k <= |samples|
    ensures forall x: Sample :: multiset(samples[..k])[x] + multiset(samples[k..])[x] == multiset(samples)[x]
  {
    assert samples == samples[..k] + samples[k..];
  }

  /** Splitting moves nothing in or out: the children carry exactly what the parent carried. */
  lemma SplitAccounted(c: Config, db: Database, batch: StoredBatch, left: Uuid, right: Uuid, now: int, later: int)
    requires Current(db, batch)
    ensures Accounted(db, Split(c, db, batch, left, right, now, later), STILL)
  {
    hide InsertTx, Accounted, Without;
    var all := Split(c, db, batch, left, right, now, later);
    if all.verdict.Raised? {
      NothingHappens(db, all.verdict);
    } else {
      var i := IndexOf(db.queue, batch.id).value;
      var row := db.queue[i];
      var mid := |batch.samples| / 2;
      var gone := Change(db.(queue := Without(db.queue, i)), [], [], Done);
      var one := SplitFirst(c, db, batch, i, left, now);
      var two := SplitSecond(c, one.db, batch, row.critical, right, later);
      var half := Arrival(batch.samples[..mid], row.critical);
      var rest := Arrival(batch.samples[mid..], row.critical);
      var out := Departure(row.samples, row.critical);
      RemoveAccounted(db, i);
      SplitFirstAccounted(c, db, batch, i, left, now);
      SplitSecondAccounted(c, one.db, batch, row.critical, right, later);
      Chain(gone.db, one, half, two, rest);
      Chain(db, gone, out, Then(one, two), Plus(half, rest));
      NoExpirySplit(c, db, batch, i, left, now);
      NoExpirySecond(c, one.db, batch, row.critical, right, later);
      Relabel(db, Then(gone, Then(one, two)), all, Plus(out, Plus(half, rest)));
      SplitNet(row.samples, mid, row.critical);
      Net(db, all, Plus(out, Plus(half, rest)), STILL);
    }
  }

  lemma SplitNet(samples: seq<Sample>, mid: nat, critical: bool)
    requires mid <= |samples|
    ensures var m := Plus(Departure(samples, critical),
                          Plus(Arrival(samples[..mid], critical), Arrival(samples[mid..], critical)));
            && (forall x: Sample :: m.came[x] == m.went[x])
            && (forall x: Sample :: m.guardedCame[x] == m.guardedWent[x])
  {
    Halves(samples, mid);
  }

  lemma SplitFirstAccounted(c: Config, db: Database, batch: StoredBatch, i: nat, left: Uuid, now: int)
    requires Splittable(batch) && i < |db.queue| && SplitFirst(c, db, batch, i, left, now).verdict.Done?
    ensures Accounted(db.(queue := Without(db.queue, i)), SplitFirst(c, db, batch, i, left, now),
                      Arrival(batch.samples[..|batch.samples| / 2], db.queue[i].critical))
  {
    hide InsertTx, Accounted, Without;
    InsertAccounted(c, db.(queue := Without(db.queue, i)), left, Some(batch.id), batch.samples[..|batch.samples| / 2],
                    batch.depth + 1, db.queue[i].critical, now);
  }

  lemma SplitSecondAccounted(c: Config, db: Database, batch: StoredBatch, critical: bool, right: Uuid, now: int)
    requires Splittable(batch) && SplitSecond(c, db, batch, critical, right, now).verdict.Done?
    ensures Accounted(db, SplitSecond(c, db, batch, critical, right, now),
                      Arrival(batch.samples[|batch.samples| / 2..], critical))
  {
    hide InsertTx, Accounted;
    InsertAccounted(c, db, right, Some(batch.id), batch.samples[|batch.samples| / 2..], batch.depth + 1, critical, now);
  }

  lemma NoExpirySplit(c: Config, db: Database, batch: StoredBatch, i: nat, left: Uuid, now: int)
    requires Splittable(batch) && i < |db.queue|
    ensures SplitFirst(c, db, batch, i, left, now).expired == []
  {
  }

  lemma NoExpirySecond(c: Config, db: Database, batch: StoredBatch, critical: bool, right: Uuid, now: int)
    requires Splittable(batch)
    ensures SplitSecond(c, db, batch, critical, right, now).expired == []
  {
  }

  lemma AcknowledgeAccounted(db: Database, id: Uuid)
    ensures Accounted(db, Change(Acknowledge(db, id).0, [], [], Done), AcknowledgeMovement(db, id))
  {
    hide Accounted, Without;
    match IndexOf(db.queue, id)
    case None => NothingHappens(db, Done);
    case Some(i) => RemoveAccounted(db, i);
  }

  function AcknowledgeMovement(db: Database, id: Uuid): Movement {
    match IndexOf(db.queue, id)
    case None => STILL
    case Some(i) => Departure(db.queue[i].samples, db.queue[i].critical)
  }

  lemma {:induction false} UpdateCarried(rows: seq<Row>, i: nat, r: Row, onlyCritical: bool)
    requires i < |rows| && r.samples == rows[i].samples && r.critical == rows[i].critical
    ensures Carried(rows[i := r], onlyCritical) == Carried(rows, onlyCritical)
  {
    if i == 0 {
      assert rows[0 := r][1..] == rows[1..];
    } else {
      assert rows[i := r][1..] == rows[1..][i - 1 := r];
      UpdateCarried(rows[1..], i - 1, r, onlyCritical);
    }
  }

  lemma DeferAccounted(db: Database, id: Uuid, until: int)
    ensures Accounted(db, Change(Defer(db, id, until), [], [], Done), STILL)
  {
    hide Accounted, Carried, SealedSamples, EvictedIds, ExpiredKeys;
    match IndexOf(db.queue, id)
    case None => NothingHappens(db, Done);
    case Some(i) =>
      var r := db.queue[i].(attempts := db.queue[i].attempts + 1, nextAttempt := until);
      UpdateCarried(db.queue, i, r, false);
      UpdateCarried(db.queue, i, r, true);
      Settle(db, Defer(db, id, until), STILL);
  }

  /** The row whose samples a quarantine transaction takes out of the queue. */
  function Protection(db: Database, id: Uuid): bool {
    match IndexOf(db.queue, id)
    case None => false
    case Some(i) => db.queue[i].critical
  }

  lemma VacateAccounted(c: Config, db: Database, batch: StoredBatch, size: nat, now: int)
    requires Current(db, batch) && Vacate(c, db, batch, size, now).verdict.Done?
    ensures Accounted(db, Vacate(c, db, batch, size, now), Departure(batch.samples, Protection(db, batch.id)))
  {
    hide Accounted, Evict, Without, Purge, Evictions, QuarantineBytes, Guarded;
    var purged := Purge(db, now);
    assert purged.db.queue == db.queue && purged.evicted == [] by { PurgeKeepsQueue(db, now); }
    var i := IndexOf(db.queue, batch.id).value;
    var gone := Change(purged.db.(queue := Without(db.queue, i)), [], [], Done);
    var k := RoomFor(c, gone.db, size).value;
    var room := Evicting(gone.db, k, QueueQuota);
    var out := Departure(batch.samples, db.queue[i].critical);
    PurgeAccounted(db, now);
    RemoveAccounted(purged.db, i);
    EvictAccounted(gone.db, k, QueueQuota);
    Chain(purged.db, gone, out, room, STILL);
    Chain(db, purged, STILL, Then(gone, room), Plus(out, STILL));
    assert Plus(STILL, Plus(out, STILL)) == out;
    assert Then(purged, Then(gone, room)) == Vacate(c, db, batch, size, now);
  }

  lemma PurgeKeepsQueue(db: Database, now: int)
    ensures Purge(db, now).db.queue == db.queue && Purge(db, now).evicted == [] && Purge(db, now).verdict.Done?
  {
  }

  lemma OneSealed(r: Sealed)
    ensures SealedSamples([r]) == multiset(r.samples)
  {
    assert SealedSamples([]) == multiset{};
  }

  function Sealing(samples: seq<Sample>): Movement {
    Movement(multiset(samples), multiset{}, multiset{}, multiset{})
  }

  lemma SealBatchAccounted(c: Config, db: Database, batch: StoredBatch, size: nat, http422: bool, now: int)
    ensures Accounted(db, Change(SealBatch(c, db, batch, size, http422, now), [], [], Done), Sealing(batch.samples))
  {
    var row := Sealed(batch.id, batch.id, batch.samples, size, now + c.retention);
    SealedConcat(db.batches, [row]);
    OneSealed(row);
    hide Accounted, Carried, SealedSamples;
    LogConcat(db.audit, [BatchQuarantined(batch.id, http422)]);
    Settle(db, SealBatch(c, db, batch, size, http422, now), Sealing(batch.samples));
  }

  lemma SealSampleAccounted(c: Config, db: Database, batch: StoredBatch, key: Uuid, size: nat, now: int)
    ensures Accounted(db, Change(SealSample(c, db, batch, key, size, now), [], [], Done), Sealing(batch.samples))
  {
    var row := Sealed(key, batch.id, batch.samples, size, now + c.retention);
    SealedConcat(db.singles, [row]);
    OneSealed(row);
    hide Accounted, Carried, SealedSamples;
    LogConcat(db.audit, [SampleQuarantined(key, batch.id)]);
    Settle(db, SealSample(c, db, batch, key, size, now), Sealing(batch.samples));
  }

  /** Sealing a batch keeps its samples in the store; only its protection against eviction ends. */
  function Locking(samples: seq<Sample>, critical: bool): Movement {
    Movement(multiset{}, multiset{}, multiset{}, Guarded(samples, critical))
  }

  lemma LockNet(db: Database, ch: Change, samples: seq<Sample>, critical: bool)
    requires Accounted(db, ch, Plus(Departure(samples, critical), Sealing(samples)))
    ensures Accounted(db, ch, Locking(samples, critical))
  {
    hide Accounted;
    Net(db, ch, Plus(Departure(samples, critical), Sealing(samples)), Locking(samples, critical));
  }

  lemma QuarantineBatchAccounted(c: Config, db: Database, batch: StoredBatch, http422: bool, now: int)
    requires Current(db, batch)
    ensures var ch := QuarantineBatch(c, db, batch, http422, now);
            Accounted(db, ch, if ch.verdict.Done? then Locking(batch.samples, Protection(db, batch.id)) else STILL)
  {
    hide Accounted, Vacate, SealBatch;
    var ch := QuarantineBatch(c, db, batch, http422, now);
    if ch.verdict.Done? {
      var size := c.seal(batch.samples).value;
      var v := Vacate(c, db, batch, size, now);
      VacateAccounted(c, db, batch, size, now);
      SealBatchAccounted(c, v.db, batch, size, http422, now);
      var put := Change(SealBatch(c, v.db, batch, size, http422, now), [], [], Done);
      var out := Departure(batch.samples, Protection(db, batch.id));
      Chain(db, v, out, put, Sealing(batch.samples));
      assert Then(v, put) == ch;
      LockNet(db, ch, batch.samples, Protection(db, batch.id));
    } else {
      RaisedVacate(c, db, batch, now);
      NothingHappens(db, ch.verdict);
    }
  }

  lemma RaisedVacate(c: Config, db: Database, batch: StoredBatch, now: int)
    ensures forall size: nat :: var v := Vacate(c, db, batch, size, now);
                                v.verdict.Raised? ==> v == Change(db, [], [], v.verdict)
  {
  }

  lemma QuarantineSampleAccounted(c: Config, db: Database, batch: StoredBatch, key: Uuid, now: int)
    requires Current(db, batch)
    ensures var ch := QuarantineSample(c, db, batch, key, now);
            Accounted(db, ch, if ch.verdict.Done? then Locking(batch.samples, Protection(db, batch.id)) else STILL)
  {
    hide Accounted, Vacate, SealSample;
    var ch := QuarantineSample(c, db, batch, key, now);
    if ch.verdict.Done? {
      var size := c.seal(batch.samples).value;
      var v := Vacate(c, db, batch, size, now);
      VacateAccounted(c, db, batch, size, now);
      SealSampleAccounted(c, v.db, batch, key, size, now);
      var put := Change(SealSample(c, v.db, batch, key, size, now), [], [], Done);
      var out := Departure(batch.samples, Protection(db, batch.id));
      Chain(db, v, out, put, Sealing(batch.samples));
      assert Then(v, put) == ch;
      LockNet(db, ch, batch.samples, Protection(db, batch.id));
    } else {
      RaisedVacate(c, db, batch, now);
      NothingHappens(db, ch.verdict);
    }
  }
}

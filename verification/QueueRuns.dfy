/** Whole runs of the local store, from the empty store on. */
module QueueRuns {
  import opened Wrappers
  import opened Telemetry
  import opened QueueTables
  import opened QueueTransactions
  import opened QueueInvariants
  import opened QueueConservation
  import opened QueueEvictions

  /** One call. Clock readings, fresh identifiers and file sizes are the call's inputs. */
  datatype Op =
    | DoEnqueue(id: Uuid, parent: Option<Uuid>, samples: seq<Sample>, depth: nat, critical: bool,
                now: int, sizes: seq<nat>)
    | DoAcknowledge(id: Uuid)
    | DoDefer(id: Uuid, until: int)
    | DoSplit(id: Uuid, left: Uuid, right: Uuid, now: int, later: int)
    | DoQuarantineBatch(id: Uuid, http422: bool, now: int)
    | DoQuarantineSample(id: Uuid, key: Uuid, now: int)
    | DoPurge(now: int)

  /** The call on the tables; a split or quarantine works on the snapshot of the row it names. */
  function Effect(c: Config, db: Database, op: Op): Change {
    match op
    case DoEnqueue(id, parent, samples, depth, critical, now, sizes) =>
      Enqueue(c, db, id, parent, samples, depth, critical, now, sizes)
    case DoAcknowledge(id) => Change(Acknowledge(db, id).0, [], [], Done)
    case DoDefer(id, until) => Change(Defer(db, id, until), [], [], Done)
    case DoSplit(id, left, right, now, later) =>
      (match GetBatch(db, id)
       case None => Rollback(db, KeyError)
       case Some(batch) => Split(c, db, batch, left, right, now, later))
    case DoQuarantineBatch(id, http422, now) =>
      (match GetBatch(db, id)
       case None => Rollback(db, KeyError)
       case Some(batch) => QuarantineBatch(c, db, batch, http422, now))
    case DoQuarantineSample(id, key, now) =>
      (match GetBatch(db, id)
       case None => Rollback(db, KeyError)
       case Some(batch) => QuarantineSample(c, db, batch, key, now))
    case DoPurge(now) => Purge(db, now)
  }

  /** Whether the call got as far as committing its INSERT. */
  predicate Committed(c: Config, db: Database, op: Op) {
    op.DoEnqueue?
    && EnqueueTx(c, db, op.id, op.parent, op.samples, op.depth, op.critical, op.now).verdict.Done?
  }

  /** The samples the call brings in or takes out. */
  function Moves(c: Config, db: Database, op: Op): Movement {
    match op
    case DoEnqueue(_, _, samples, _, critical, _, _) =>
      if Committed(c, db, op) then Arrival(samples, critical) else STILL
    case DoAcknowledge(id) => AcknowledgeMovement(db, id)
    case DoQuarantineBatch(id, _, _) =>
      if Effect(c, db, op).verdict.Done? then Locking(GetBatch(db, id).value.samples, Protection(db, id)) else STILL
    case DoQuarantineSample(id, _, _) =>
      if Effect(c, db, op).verdict.Done? then Locking(GetBatch(db, id).value.samples, Protection(db, id)) else STILL
    case _ => STILL
  }

  lemma SnapshotIsCurrent(c: Config, db: Database, id: Uuid)
    requires Keys(c, db.queue)
    ensures GetBatch(db, id).Some? ==> GetBatch(db, id).value.id == id && Current(db, GetBatch(db, id).value)
  {
  }

  lemma EffectSound(c: Config, db: Database, op: Op)
    requires Sound(c, db)
    ensures Sound(c, Effect(c, db, op).db)
  {
    hide Sound, Enqueue, Acknowledge, Defer, Split, QuarantineBatch, QuarantineSample, Purge, GetBatch;
    match op
    case DoEnqueue(id, parent, samples, depth, critical, now, sizes) =>
      EnqueueSound(c, db, id, parent, samples, depth, critical, now, sizes);
    case DoAcknowledge(id) => AcknowledgeSound(c, db, id);
    case DoDefer(id, until) => DeferSound(c, db, id, until);
    case DoSplit(id, left, right, now, later) =>
      if GetBatch(db, id).Some? { SplitSound(c, db, GetBatch(db, id).value, left, right, now, later); }
    case DoQuarantineBatch(id, http422, now) =>
      if GetBatch(db, id).Some? { QuarantineBatchSound(c, db, GetBatch(db, id).value, http422, now); }
    case DoQuarantineSample(id, key, now) =>
      if GetBatch(db, id).Some? { QuarantineSampleSound(c, db, GetBatch(db, id).value, key, now); }
    case DoPurge(now) => PurgeSound(c, db, now);
  }

  lemma EffectAccounted(c: Config, db: Database, op: Op)
    requires Keys(c, db.queue)
    ensures Accounted(db, Effect(c, db, op), Moves(c, db, op))
  {
    hide Accounted, Enqueue, Acknowledge, Defer, Split, QuarantineBatch, QuarantineSample, Purge, GetBatch;
    match op
    case DoEnqueue(id, parent, samples, depth, critical, now, sizes) =>
      EnqueueAccounted(c, db, id, parent, samples, depth, critical, now, sizes);
    case DoAcknowledge(id) => AcknowledgeAccounted(db, id);
    case DoDefer(id, until) => DeferAccounted(db, id, until);
    case DoSplit(id, left, right, now, later) =>
      SnapshotIsCurrent(c, db, id);
      if GetBatch(db, id).Some? { SplitAccounted(c, db, GetBatch(db, id).value, left, right, now, later); }
      else { NothingHappens(db, Raised(KeyError)); }
    case DoQuarantineBatch(id, http422, now) =>
      SnapshotIsCurrent(c, db, id);
      if GetBatch(db, id).Some? { QuarantineBatchAccounted(c, db, GetBatch(db, id).value, http422, now); }
      else { NothingHappens(db, Raised(KeyError)); }
    case DoQuarantineSample(id, key, now) =>
      SnapshotIsCurrent(c, db, id);
      if GetBatch(db, id).Some? { QuarantineSampleAccounted(c, db, GetBatch(db, id).value, key, now); }
      else { NothingHappens(db, Raised(KeyError)); }
    case DoPurge(now) => PurgeAccounted(db, now);
  }

  /** A call that raises leaves the tables alone, except an enqueue that fails after its commit. */
  lemma RaisingChangesNothing(c: Config, db: Database, op: Op)
    requires Effect(c, db, op).verdict.Raised? && !Committed(c, db, op)
    ensures Effect(c, db, op) == Rollback(db, Effect(c, db, op).verdict.error)
  {
    hide Evict, Without, Evictions;
  }

  // -------------------------------------------------------------------- runs

  /** The history a run leaves behind. */
  datatype Books = Books(enqueued: multiset<Sample>, acknowledged: multiset<Sample>, evicted: seq<Row>,
                         expired: seq<Sealed>, guardedIn: multiset<Sample>, guardedOut: multiset<Sample>)

  datatype Store = Store(db: Database, books: Books)

  const START := Store(EMPTY, Books(multiset{}, multiset{}, [], [], multiset{}, multiset{}))

  function Post(b: Books, ch: Change, m: Movement): Books {
    Books(b.enqueued + m.came, b.acknowledged + m.went, b.evicted + ch.evicted, b.expired + ch.expired,
          b.guardedIn + m.guardedCame, b.guardedOut + m.guardedWent)
  }

  function Step(c: Config, s: Store, op: Op): Store {
    Store(Effect(c, s.db, op).db, Post(s.books, Effect(c, s.db, op), Moves(c, s.db, op)))
  }

  function Run(c: Config, ops: seq<Op>): Store {
    if ops == [] then START else Step(c, Run(c, ops[..|ops| - 1]), ops[|ops| - 1])
  }

  /** The books balance: every sample ever enqueued is accounted for, once. */
  ghost predicate Balanced(s: Store) {
    && (forall x: Sample :: s.books.enqueued[x] == Content(s.db)[x] + s.books.acknowledged[x]
                            + Carried(s.books.evicted, false)[x] + SealedSamples(s.books.expired)[x])
    && (forall x: Sample :: s.books.guardedIn[x] == Carried(s.db.queue, true)[x] + s.books.guardedOut[x])
    && (forall r :: r in s.books.evicted ==> !r.critical)
    && EvictedIds(s.db.audit) == Ids(s.books.evicted)
    && ExpiredKeys(s.db.audit) == SealedKeys(s.books.expired)
  }

  lemma PostBalanced(s: Store, ch: Change, m: Movement)
    requires Balanced(s) && Accounted(s.db, ch, m)
    ensures Balanced(Store(ch.db, Post(s.books, ch, m)))
  {
    hide Content, Carried, SealedSamples, EvictedIds, ExpiredKeys, Ids, SealedKeys;
    CarriedConcat(s.books.evicted, ch.evicted, false);
    SealedConcat(s.books.expired, ch.expired);
    NamesConcat(s.books.evicted, ch.evicted, s.books.expired, ch.expired);
  }

  lemma NamesConcat(a: seq<Row>, b: seq<Row>, x: seq<Sealed>, y: seq<Sealed>)
    ensures Ids(a + b) == Ids(a) + Ids(b) && SealedKeys(x + y) == SealedKeys(x) + SealedKeys(y)
  {
  }

  lemma {:induction false} RunInvariant(c: Config, ops: seq<Op>)
    ensures Sound(c, Run(c, ops).db) && Balanced(Run(c, ops))
  {
    if ops != [] {
      var s := Run(c, ops[..|ops| - 1]);
      var op := ops[|ops| - 1];
      RunInvariant(c, ops[..|ops| - 1]);
      hide Balanced, Accounted, WithinQuota;
      EffectSound(c, s.db, op);
      EffectAccounted(c, s.db, op);
      PostBalanced(s, Effect(c, s.db, op), Moves(c, s.db, op));
    }
  }

  /** Conservation over every run: what was ever enqueued is queued, sealed, acknowledged, evicted or
      expired, and each eviction and expiry is named in the audit log. */
  lemma Conservation(c: Config, ops: seq<Op>)
    ensures var s := Run(c, ops);
            && s.books.enqueued == Carried(s.db.queue, false) + SealedSamples(s.db.batches)
                                   + SealedSamples(s.db.singles) + s.books.acknowledged
                                   + Carried(s.books.evicted, false) + SealedSamples(s.books.expired)
            && EvictedIds(s.db.audit) == Ids(s.books.evicted)
            && ExpiredKeys(s.db.audit) == SealedKeys(s.books.expired)
  {
    RunInvariant(c, ops);
    hide Carried, SealedSamples, Run;
  }

  /** Both quotas hold in every committed state of every run. */
  lemma QuotasHold(c: Config, ops: seq<Op>)
    ensures var db := Run(c, ops).db;
            && Bytes(db.queue) + SealedBytes(db.batches) + SealedBytes(db.singles) <= c.maxQueue
            && SealedBytes(db.batches) + SealedBytes(db.singles) <= c.maxQuarantine
  {
    RunInvariant(c, ops);
    hide Run;
  }

  /** No protected row is ever evicted, and every sample enqueued as protected stays in a protected
      row, through any number of splits, until its batch is acknowledged or sealed. */
  lemma ProtectedNeverEvicted(c: Config, ops: seq<Op>)
    ensures var s := Run(c, ops);
            && (forall r :: r in s.books.evicted ==> !r.critical)
            && s.books.guardedIn == Carried(s.db.queue, true) + s.books.guardedOut
  {
    RunInvariant(c, ops);
    hide Carried, Run;
  }

  // ------------------------------------------------------- sizes and retention

  /** Quarantine counts the bytes of each ciphertext. */
  ghost predicate Priced(c: Config, db: Database) {
    forall s :: s in db.batches || s in db.singles ==> c.seal(s.samples) == Some(s.size)
  }

  predicate Holds(db: Database, s: Sealed) { s in db.batches || s in db.singles }

  /** The clock by which a call purges. */
  function PurgeClock(op: Op): Option<int> {
    match op
    case DoQuarantineBatch(_, _, now) => Some(now)
    case DoQuarantineSample(_, _, now) => Some(now)
    case DoPurge(now) => Some(now)
    case _ => None
  }

  /** What a call leaves in quarantine, if it does not raise: what was there and is not expired, and what it seals. */
  lemma EffectSeals(c: Config, db: Database, op: Op)
    ensures var after := Effect(c, db, op).db;
            && (forall s :: Holds(db, s) && (PurgeClock(op).None? || PurgeClock(op).value < s.purgeAfter) ==> Holds(after, s))
            && (forall s :: Holds(after, s) ==>
                  Holds(db, s)
                  || (&& (op.DoQuarantineBatch? || op.DoQuarantineSample?) && GetBatch(db, op.id).Some?
                      && s.samples == GetBatch(db, op.id).value.samples && s.batch == op.id
                      && c.seal(s.samples) == Some(s.size) && s.purgeAfter == op.now + c.retention))
            && ((op.DoQuarantineBatch? || op.DoQuarantineSample?) && Effect(c, db, op).verdict.Done? ==>
                  && GetBatch(db, op.id).Some?
                  && exists s :: Holds(after, s) && s.batch == op.id && s.samples == GetBatch(db, op.id).value.samples
                                 && s.purgeAfter == op.now + c.retention)
  {
    assert forall id :: GetBatch(db, id).Some? ==> GetBatch(db, id).value.id == id;
    hide Holds, QuarantineBatch, QuarantineSample, Purge, GetBatch, Enqueue, Split, Defer, Acknowledge;
    match op
    case DoQuarantineBatch(id, http422, now) =>
      if GetBatch(db, id).Some? { BatchSeals(c, db, GetBatch(db, id).value, http422, now); }
    case DoQuarantineSample(id, key, now) =>
      if GetBatch(db, id).Some? { SampleSeals(c, db, GetBatch(db, id).value, key, now); }
    case DoPurge(now) =>
      PurgeHolds(db, now);
    case _ =>
      OtherCallsSealNothing(c, db, op);
      SameHolds(db, Effect(c, db, op).db);
      hide Effect;
  }

  lemma OtherCallsSealNothing(c: Config, db: Database, op: Op)
    requires PurgeClock(op).None?
    ensures Effect(c, db, op).db.batches == db.batches && Effect(c, db, op).db.singles == db.singles
  {
    hide EvictionOrder, Survivors, RoomFor, Without, DiskEvictions, Notices;
  }

  lemma SameHolds(db: Database, after: Database)
    requires after.batches == db.batches && after.singles == db.singles
    ensures forall s :: Holds(after, s) <==> Holds(db, s)
  {
  }

  lemma PurgeHolds(db: Database, now: int)
    ensures forall s :: Holds(Purge(db, now).db, s) <==> Holds(db, s) && now < s.purgeAfter
  {
    KeptMembers(db.batches, now);
    KeptMembers(db.singles, now);
    hide Kept;
  }

  lemma KeptMembers(rows: seq<Sealed>, now: int)
    ensures forall s :: s in Kept(rows, now, false) <==> s in rows && now < s.purgeAfter
  {
    KeptExactly(rows, now, false);
    forall s ensures s in Kept(rows, now, false) <==> s in rows && now < s.purgeAfter {
      assert s in rows <==> multiset(rows)[s] > 0;
      assert s in Kept(rows, now, false) <==> multiset(Kept(rows, now, false))[s] > 0;
    }
  }

  /** The quarantine after a vacating call is the purged one. */
  lemma VacateHolds(c: Config, db: Database, batch: StoredBatch, size: nat, now: int)
    ensures var v := Vacate(c, db, batch, size, now);
            if v.verdict.Raised? then v.db == db
            else v.db.batches == Purge(db, now).db.batches && v.db.singles == Purge(db, now).db.singles
  {
    hide Purge, EvictionOrder, Survivors, RoomFor;
  }

  lemma BatchSeals(c: Config, db: Database, batch: StoredBatch, http422: bool, now: int)
    ensures var ch := QuarantineBatch(c, db, batch, http422, now);
            if ch.verdict.Raised? then ch.db == db
            else
              && c.seal(batch.samples).Some?
              && var s := Sealed(batch.id, batch.id, batch.samples, c.seal(batch.samples).value, now + c.retention);
                 forall x :: Holds(ch.db, x) <==> (Holds(db, x) && now < x.purgeAfter) || x == s
  {
    PurgeHolds(db, now);
    SealingBatch(c, db, batch, http422, now);
    hide QuarantineBatch, Vacate, Purge;
    if c.seal(batch.samples).Some? { VacateHolds(c, db, batch, c.seal(batch.samples).value, now); }
  }

  lemma SampleSeals(c: Config, db: Database, batch: StoredBatch, key: Uuid, now: int)
    ensures var ch := QuarantineSample(c, db, batch, key, now);
            if ch.verdict.Raised? then ch.db == db
            else
              && c.seal(batch.samples).Some?
              && var s := Sealed(key, batch.id, batch.samples, c.seal(batch.samples).value, now + c.retention);
                 forall x :: Holds(ch.db, x) <==> (Holds(db, x) && now < x.purgeAfter) || x == s
  {
    PurgeHolds(db, now);
    SealingSample(c, db, batch, key, now);
    hide QuarantineSample, Vacate, Purge;
    if |batch.samples| == 1 && c.seal(batch.samples).Some? { VacateHolds(c, db, batch, c.seal(batch.samples).value, now); }
  }

  /** In every committed state the sizes the quotas are held against are the true ones: of the compressed
      payload in the queue, and of the ciphertext in quarantine. */
  lemma {:induction false} SizesAreTrue(c: Config, ops: seq<Op>)
    ensures var db := Run(c, ops).db;
            && (forall r :: r in db.queue ==> r.size == c.packed(r.samples))
            && (forall s :: s in db.batches || s in db.singles ==> c.seal(s.samples) == Some(s.size))
  {
    RunInvariant(c, ops);
    RunPriced(c, ops);
    hide Run, Balanced;
  }

  lemma {:induction false} RunPriced(c: Config, ops: seq<Op>)
    ensures Priced(c, Run(c, ops).db)
  {
    if ops != [] {
      RunPriced(c, ops[..|ops| - 1]);
      EffectSeals(c, Run(c, ops[..|ops| - 1]).db, ops[|ops| - 1]);
      hide Effect;
    }
  }

  /** No purge before its time: a sealed payload stays through every call whose clock is before the sealing
      time plus the retention. */
  lemma {:induction false} SealedStays(c: Config, ops: seq<Op>, more: seq<Op>, s: Sealed)
    requires Holds(Run(c, ops).db, s)
    requires forall op :: op in more && PurgeClock(op).Some? ==> PurgeClock(op).value < s.purgeAfter
    ensures Holds(Run(c, ops + more).db, s)
    decreases |more|
  {
    hide Holds, Step;
    if more == [] {
      assert ops + more == ops;
    } else {
      var all, last := ops + more, |more| - 1;
      assert all[..|all| - 1] == ops + more[..last] && all[|all| - 1] == more[last];
      SealedStays(c, ops, more[..last], s);
      StepKeepsSealed(c, Run(c, ops + more[..last]), more[last], s);
    }
  }

  lemma StepKeepsSealed(c: Config, t: Store, op: Op, s: Sealed)
    requires Holds(t.db, s) && (PurgeClock(op).Some? ==> PurgeClock(op).value < s.purgeAfter)
    ensures Holds(Step(c, t, op).db, s)
  {
    EffectSeals(c, t.db, op);
    hide Effect, Moves;
  }

  /** So what a successful quarantine call seals is there for the whole retention. */
  lemma SealedForRetention(c: Config, ops: seq<Op>, op: Op, more: seq<Op>)
    requires op.DoQuarantineBatch? || op.DoQuarantineSample?
    requires Effect(c, Run(c, ops).db, op).verdict.Done?
    requires forall later :: later in more && PurgeClock(later).Some? ==> PurgeClock(later).value < op.now + c.retention
    ensures GetBatch(Run(c, ops).db, op.id).Some?
    ensures exists s :: Holds(Run(c, ops + [op] + more).db, s) && s.batch == op.id
                        && s.samples == GetBatch(Run(c, ops).db, op.id).value.samples
  {
    EffectSeals(c, Run(c, ops).db, op);
    assert (ops + [op])[..|ops|] == ops;
    hide Effect, GetBatch, Holds;
    var after := Run(c, ops + [op]).db;
    var s :| Holds(after, s) && s.batch == op.id && s.samples == GetBatch(Run(c, ops).db, op.id).value.samples
             && s.purgeAfter == op.now + c.retention;
    SealedStays(c, ops + [op], more, s);
  }
}

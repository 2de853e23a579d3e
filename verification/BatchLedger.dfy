/** The server's life of a metric batch: one function per transaction, the workers that run between
    transactions, and what every reachable state of the ledger satisfies. */
module BatchLedger {
  import opened Wrappers
  import opened Telemetry

  /** SHA-256 of the canonical samples, taken to be injective. */
  datatype Digest = Sha256(content: seq<Sample>)

  datatype Status = Received | Processing | Processed | Dlq | AwaitingReupload | DlqExhausted

  datatype Decision = PurgeLocal | Retain

  /** The primary key of `metric_batches` within one organization. */
  datatype Key = Key(device: Uuid, id: Uuid)

  datatype Batch = Batch(status: Status, sampleCount: nat, retry: int, reprocess: int,
                         digest: Digest, payload: Option<seq<Sample>>)

  /** `uuid5(batch_id, index)` with `recorded_at`: the primary key of `metric_samples`. The device is no part of it. */
  datatype SampleKey = SampleKey(batch: Uuid, index: nat, recordedAt: int)

  datatype StoredSample = StoredSample(device: Uuid, sample: Sample)

  /** The tables; a decision lives in the audit log, under the batch id alone. */
  datatype Server = Server(batches: map<Key, Batch>, samples: map<SampleKey, StoredSample>,
                           decisions: map<Uuid, Decision>)

  datatype Answer =
    | Receipt(status: Status, duplicate: bool) | AccessRejected | InvalidBatch | DigestMismatch
    | IdentityCollision | UnknownBatch | StateRejected | DecisionConflict

  const MAX_BATCH_SAMPLES := 2_000
  const MAX_ATTEMPTS := 3

  predicate WellFormed(samples: seq<Sample>) {
    1 <= |samples| <= MAX_BATCH_SAMPLES
  }

  // ------------------------------------------------------------ transactions

  /** `ingest_batch`: identity and digest checks, INSERT ... ON CONFLICT DO NOTHING, digest comparison. */
  function Ingest(db: Server, caller: Uuid, device: Uuid, id: Uuid, claimed: Digest, samples: seq<Sample>)
    : (Server, Answer)
  {
    var key := Key(caller, id);
    if !WellFormed(samples) then (db, InvalidBatch)
    else if caller != device then (db, AccessRejected)
    else if claimed != Sha256(samples) then (db, DigestMismatch)
    else if key !in db.batches then
      (db.(batches := db.batches[key := Batch(Received, |samples|, 0, 0, claimed, Some(samples))]), Receipt(Received, false))
    else if db.batches[key].digest != claimed then (db, IdentityCollision)
    else (db, Receipt(db.batches[key].status, true))
  }

  /** `authorize_retry`: an operator lets a dead-lettered batch be uploaded again. */
  function AuthorizeRetry(db: Server, key: Key): (Server, Answer) {
    if key !in db.batches then (db, UnknownBatch)
    else
      var b := db.batches[key];
      if b.status == AwaitingReupload then (db, Receipt(AwaitingReupload, true))
      else if b.status != Dlq || b.reprocess >= MAX_ATTEMPTS then (db, StateRejected)
      else
        (db.(batches := db.batches[key := b.(status := AwaitingReupload, retry := 0, reprocess := b.reprocess + 1)]),
         Receipt(AwaitingReupload, false))
  }

  /** `reupload_batch`: only an awaited batch, and only with the digest first ingested. */
  function Reupload(db: Server, caller: Uuid, device: Uuid, id: Uuid, claimed: Digest, samples: seq<Sample>)
    : (Server, Answer)
  {
    var key := Key(caller, id);
    if !WellFormed(samples) then (db, InvalidBatch)
    else if caller != device then (db, AccessRejected)
    else if claimed != Sha256(samples) then (db, DigestMismatch)
    else if key !in db.batches then (db, UnknownBatch)
    else if db.batches[key].digest != claimed then (db, IdentityCollision)
    else if db.batches[key].status != AwaitingReupload then (db, StateRejected)
    else
      (db.(batches := db.batches[key := db.batches[key].(status := Received, retry := 0,
                                                         sampleCount := |samples|, payload := Some(samples))]),
       Receipt(Received, false))
  }

  /** `decide_exhausted_batch`: a purge decision is final. */
  function Decide(db: Server, key: Key, action: Decision): (Server, Answer) {
    if key !in db.batches then (db, UnknownBatch)
    else if db.batches[key].status != DlqExhausted then (db, StateRejected)
    else if key.id in db.decisions && db.decisions[key.id] == action then (db, Receipt(DlqExhausted, true))
    else if key.id in db.decisions && db.decisions[key.id] == PurgeLocal && action == Retain then (db, DecisionConflict)
    else (db.(decisions := db.decisions[key.id := action]), Receipt(DlqExhausted, false))
  }

  /** The claiming UPDATE: a compare-and-set from RECEIVED to PROCESSING. */
  function Claim(db: Server, key: Key): (Server, bool) {
    if key in db.batches && db.batches[key].status == Received then
      (db.(batches := db.batches[key := db.batches[key].(status := Processing)]), true)
    else (db, false)
  }

  /** The rows a batch inserts into `metric_samples`. */
  function Rows(key: Key, samples: seq<Sample>): map<SampleKey, StoredSample> {
    map i: nat | i < |samples| :: SampleKey(key.id, i, samples[i].recordedAt) := StoredSample(key.device, samples[i])
  }

  /** The storing transaction: the rows, existing ones winning, and the PROCESSED flip, or nothing. */
  function Store(db: Server, key: Key, samples: seq<Sample>): (Server, Answer) {
    if key !in db.batches then (db, UnknownBatch)
    else if db.batches[key].status != Processing then (db, StateRejected)
    else
      (db.(samples := Rows(key, samples) + db.samples,
           batches := db.batches[key := db.batches[key].(status := Processed, payload := None)]),
       Receipt(Processed, false))
  }

  function NextFailureState(retry: int, reprocess: int): (int, Status) {
    var next := if retry + 1 < MAX_ATTEMPTS then retry + 1 else MAX_ATTEMPTS;
    if next < MAX_ATTEMPTS then (next, Received)
    else if reprocess >= MAX_ATTEMPTS then (next, DlqExhausted)
    else (next, Dlq)
  }

  /** `record_processing_failure`. */
  function RecordFailure(db: Server, key: Key): (Server, Answer) {
    if key !in db.batches then (db, UnknownBatch)
    else
      var b := db.batches[key];
      if b.status != Processing then (db, StateRejected)
      else
        var (retry, status) := NextFailureState(b.retry, b.reprocess);
        (db.(batches := db.batches[key := b.(status := status, retry := retry,
                                             payload := if status == Received then b.payload else None)]),
         Receipt(status, false))
  }

  // ----------------------------------------------------- what answers mean

  /** An ingest is receipted exactly for a valid request of the caller itself whose samples are those recorded, if
      any are; only the first one writes anything. Every refusal has its own reason. */
  lemma IngestAnswers(db: Server, caller: Uuid, device: Uuid, id: Uuid, claimed: Digest, samples: seq<Sample>)
    ensures var (after, a) := Ingest(db, caller, device, id, claimed, samples);
            var k := Key(caller, id);
            && (a.Receipt? <==>
                  && 1 <= |samples| <= 2_000 && caller == device && claimed.content == samples
                  && (k in db.batches ==> db.batches[k].digest.content == samples))
            && (a.Receipt? ==>
                  && k in after.batches && after.batches[k].digest.content == samples && a.status == after.batches[k].status
                  && (a.duplicate <==> k in db.batches)
                  && (!a.duplicate ==> after == db.(batches := db.batches[k := after.batches[k]]) && a.status == Received))
            && (!a.Receipt? || a.duplicate ==> after == db)
            && (a.InvalidBatch? <==> |samples| == 0 || |samples| > 2_000)
            && (a.AccessRejected? <==> 1 <= |samples| <= 2_000 && caller != device)
            && (a.DigestMismatch? <==> 1 <= |samples| <= 2_000 && caller == device && claimed.content != samples)
            && (a.Receipt? || a.InvalidBatch? || a.AccessRejected? || a.DigestMismatch? || a.IdentityCollision?)
  {
  }

  /** A reupload is receipted exactly for an awaited batch and its first samples, and makes it RECEIVED with them. */
  lemma ReuploadAnswers(db: Server, caller: Uuid, device: Uuid, id: Uuid, claimed: Digest, samples: seq<Sample>)
    ensures var (after, a) := Reupload(db, caller, device, id, claimed, samples);
            var k := Key(caller, id);
            && (a.Receipt? <==>
                  && 1 <= |samples| <= 2_000 && caller == device && claimed.content == samples
                  && k in db.batches && db.batches[k].digest.content == samples && db.batches[k].status == AwaitingReupload)
            && (a.Receipt? ==> a == Receipt(Received, false) && k in after.batches && after.batches[k].payload == Some(samples)
                               && after == db.(batches := db.batches[k := after.batches[k]]))
            && (!a.Receipt? ==> after == db)
            && (a.UnknownBatch? <==> 1 <= |samples| <= 2_000 && caller == device && claimed.content == samples && k !in db.batches)
            && (a.IdentityCollision? <==>
                  && 1 <= |samples| <= 2_000 && caller == device && claimed.content == samples
                  && k in db.batches && db.batches[k].digest.content != samples)
  {
  }

  /** A retry is authorized for a dead-lettered batch, at most three times; asking again changes nothing. */
  lemma RetryAnswers(db: Server, key: Key)
    ensures var (after, a) := AuthorizeRetry(db, key);
            && (a.Receipt? <==>
                  key in db.batches
                  && (db.batches[key].status == AwaitingReupload
                      || (db.batches[key].status == Dlq && db.batches[key].reprocess < 3)))
            && (a.Receipt? ==> a.status == AwaitingReupload && (a.duplicate <==> db.batches[key].status == AwaitingReupload))
            && (!a.Receipt? || a.duplicate ==> after == db)
            && (a.UnknownBatch? <==> key !in db.batches)
  {
  }

  /** A decision is taken exactly for an exhausted batch whose purge has not been decided before, and what is
      recorded is what was asked for, under this id alone; a repeated one is told so and changes nothing. */
  lemma DecisionIsRecorded(db: Server, key: Key, action: Decision)
    ensures var (after, a) := Decide(db, key, action);
            && (a.Receipt? <==>
                  && key in db.batches && db.batches[key].status == DlqExhausted
                  && (key.id in db.decisions && db.decisions[key.id] == PurgeLocal ==> action == PurgeLocal))
            && (a.Receipt? ==>
                  && a.status == DlqExhausted && (a.duplicate <==> key.id in db.decisions && db.decisions[key.id] == action)
                  && key.id in after.decisions && after.decisions[key.id] == action
                  && (forall id :: id != key.id ==>
                        (id in after.decisions <==> id in db.decisions)
                        && (id in db.decisions ==> after.decisions[id] == db.decisions[id]))
                  && after.batches == db.batches && after.samples == db.samples)
            && (!a.Receipt? || a.duplicate ==> after == db)
            && (a.UnknownBatch? <==> key !in db.batches)
            && (a.StateRejected? <==> key in db.batches && db.batches[key].status != DlqExhausted)
  {
  }

  /** A batch in processing is stored or has failed, as told; nothing else is. */
  lemma ProcessingAnswers(db: Server, key: Key, samples: seq<Sample>)
    ensures var (stored, a) := Store(db, key, samples);
            var (failed, f) := RecordFailure(db, key);
            && (a == Receipt(Processed, false) <==> key in db.batches && db.batches[key].status == Processing)
            && (a.UnknownBatch? <==> key !in db.batches) && (a.Receipt? || a.UnknownBatch? || a.StateRejected?)
            && (!a.Receipt? ==> stored == db)
            && (f.Receipt? <==> key in db.batches && db.batches[key].status == Processing)
            && (f.Receipt? ==> !f.duplicate && key in failed.batches && f.status == failed.batches[key].status)
            && (f.UnknownBatch? <==> key !in db.batches) && (f.Receipt? || f.UnknownBatch? || f.StateRejected?)
            && (!f.Receipt? ==> failed == db)
  {
    hide Rows, NextFailureState;
  }

  // ---------------------------------------------------------------- workers

  /** What a worker holds between its claim and the end of its processing. */
  datatype Work = Work(key: Key, payload: Option<seq<Sample>>)

  /** The server with its workers, and how often each batch was claimed. */
  datatype Ledger = Ledger(db: Server, workers: map<Uuid, Work>, claims: map<Key, nat>)

  const NEW := Ledger(Server(map[], map[], map[]), map[], map[])

  datatype Event =
    | DoIngest(caller: Uuid, device: Uuid, id: Uuid, claimed: Digest, samples: seq<Sample>)
    | DoRetry(key: Key)
    | DoReupload(caller: Uuid, device: Uuid, id: Uuid, claimed: Digest, samples: seq<Sample>)
    | DoDecide(key: Key, action: Decision)
    | DoClaim(worker: Uuid, key: Key)
    /** With `unsure` the commit succeeded but the worker was told otherwise. */
    | DoStore(worker: Uuid, unsure: bool)
    | DoFail(worker: Uuid)
    | DoCrash(worker: Uuid)

  function Claims(l: Ledger, key: Key): nat {
    if key in l.claims then l.claims[key] else 0
  }

  function Next(l: Ledger, e: Event): Ledger {
    match e
    case DoIngest(caller, device, id, claimed, samples) => l.(db := Ingest(l.db, caller, device, id, claimed, samples).0)
    case DoRetry(key) => l.(db := AuthorizeRetry(l.db, key).0)
    case DoReupload(caller, device, id, claimed, samples) =>
      l.(db := Reupload(l.db, caller, device, id, claimed, samples).0)
    case DoDecide(key, action) => l.(db := Decide(l.db, key, action).0)
    case DoClaim(worker, key) =>
      if worker !in l.workers && Claim(l.db, key).1 then
        Ledger(Claim(l.db, key).0, l.workers[worker := Work(key, l.db.batches[key].payload)],
               l.claims[key := Claims(l, key) + 1])
      else l
    case DoStore(worker, unsure) =>
      if worker in l.workers && l.workers[worker].payload.Some? then
        var work := l.workers[worker];
        l.(db := Store(l.db, work.key, work.payload.value).0,
           workers := if unsure then l.workers else l.workers - {worker})
      else l
    case DoFail(worker) =>
      if worker in l.workers then
        l.(db := RecordFailure(l.db, l.workers[worker].key).0, workers := l.workers - {worker})
      else l
    case DoCrash(worker) => l.(workers := l.workers - {worker})
  }

  // -------------------------------------------------------------- invariant

  /** The counters and the payload each status allows; `claims` is how often the batch was claimed. */
  predicate Coherent(b: Batch, claims: int) {
    && 0 <= b.reprocess <= MAX_ATTEMPTS
    && WellFormed(b.digest.content) && b.sampleCount == |b.digest.content|
    && match b.status
       case Received => 0 <= b.retry < MAX_ATTEMPTS && b.payload == Some(b.digest.content)
                        && claims == 3 * b.reprocess + b.retry
       case Processing => 0 <= b.retry < MAX_ATTEMPTS && b.payload == Some(b.digest.content)
                          && claims == 3 * b.reprocess + b.retry + 1
       case Processed => 0 <= b.retry < MAX_ATTEMPTS && b.payload == None
                         && claims == 3 * b.reprocess + b.retry + 1
       case Dlq => b.retry == MAX_ATTEMPTS && b.reprocess < MAX_ATTEMPTS && b.payload == None
                   && claims == 3 * b.reprocess + 3
       case AwaitingReupload => b.retry == 0 && 1 <= b.reprocess && b.payload == None && claims == 3 * b.reprocess
       case DlqExhausted => b.retry == MAX_ATTEMPTS && b.reprocess == MAX_ATTEMPTS && b.payload == None && claims == 12
  }

  predicate Counted(l: Ledger) {
    && (forall k :: k in l.db.batches ==> Coherent(l.db.batches[k], Claims(l, k)))
    && (forall k :: k in l.claims ==> k in l.db.batches)
  }

  /** A worker holds the payload of a batch nobody else holds and nobody else can take. */
  predicate Exclusive(l: Ledger) {
    && (forall w :: w in l.workers ==>
          && l.workers[w].key in l.db.batches
          && (l.db.batches[l.workers[w].key].status == Processing || l.db.batches[l.workers[w].key].status == Processed)
          && l.workers[w].payload == Some(l.db.batches[l.workers[w].key].digest.content))
    && (forall v, w :: v in l.workers && w in l.workers && v != w ==> l.workers[v].key != l.workers[w].key)
  }

  predicate DistinctIds(db: Server) {
    forall j, k :: j in db.batches && k in db.batches && j.id == k.id ==> j == k
  }

  /** All rows of the batch are in the sample table. */
  predicate Stored(db: Server, k: Key, content: seq<Sample>) {
    forall i: nat :: i < |content| ==>
                       var sk := SampleKey(k.id, i, content[i].recordedAt);
                       sk in db.samples && db.samples[sk] == StoredSample(k.device, content[i])
  }

  /** A sample row comes from a batch that has been processed. */
  predicate Grounded(db: Server, sk: SampleKey)
    requires sk in db.samples
  {
    var k := Key(db.samples[sk].device, sk.batch);
    && k in db.batches && db.batches[k].status == Processed
    && sk.index < |db.batches[k].digest.content|
    && db.batches[k].digest.content[sk.index] == db.samples[sk].sample
    && db.samples[sk].sample.recordedAt == sk.recordedAt
  }

  /** The sample table holds the rows of the processed batches, all of them and no others. */
  predicate Materialized(db: Server) {
    && (forall k :: k in db.batches && db.batches[k].status == Processed ==> Stored(db, k, db.batches[k].digest.content))
    && (forall sk :: sk in db.samples ==> Grounded(db, sk))
  }

  /** Under each key of the batch there is a row, if not one of its own. */
  predicate Taken(db: Server, k: Key, content: seq<Sample>) {
    forall i: nat :: i < |content| ==> SampleKey(k.id, i, content[i].recordedAt) in db.samples
  }

  /** What holds of the sample table whether or not batch ids are unique. */
  predicate Filled(db: Server) {
    && (forall k :: k in db.batches && db.batches[k].status == Processed ==> Taken(db, k, db.batches[k].digest.content))
    && (forall sk :: sk in db.samples ==> Grounded(db, sk))
  }

  /** What every event keeps. */
  predicate Sound(l: Ledger) {
    Counted(l) && Exclusive(l) && Filled(l.db)
  }

  predicate Invariant(l: Ledger) {
    Counted(l) && Exclusive(l) && DistinctIds(l.db) && Materialized(l.db)
  }

  /** Batch ids are unique across the devices of the organization. */
  predicate Legal(l: Ledger, e: Event) {
    e.DoIngest? ==> forall k :: k in l.db.batches && k.id == e.id ==> k.device == e.caller
  }

  // ------------------------------------------- every event keeps the invariant

  /** Only the row under `key`, and the count of its claims, may differ. */
  ghost predicate Touches(l: Ledger, m: Ledger, key: Key) {
    && (forall k :: k in l.db.batches ==> k in m.db.batches && (k != key ==> m.db.batches[k] == l.db.batches[k]))
    && (forall k :: k in m.db.batches ==> k in l.db.batches || k == key)
    && (forall k :: k in m.claims ==> k in l.claims || (k == key && k in m.db.batches))
    && (forall k :: k != key ==> Claims(m, k) == Claims(l, k))
  }

  lemma TouchCounted(l: Ledger, m: Ledger, key: Key)
    requires Counted(l) && Touches(l, m, key)
    requires key in m.db.batches ==> Coherent(m.db.batches[key], Claims(m, key))
    ensures Counted(m)
  {
    hide Coherent, Claims;
  }

  /** At most one row changed, its claims did not. */
  lemma RowCounted(l: Ledger, m: Ledger, key: Key, b: Batch)
    requires Counted(l) && key in l.db.batches
    requires m.db.batches == l.db.batches[key := b] && m.claims == l.claims
    requires Coherent(l.db.batches[key], Claims(l, key)) ==> Coherent(b, Claims(l, key))
    ensures Counted(m)
  {
    hide Coherent;
  }

  lemma SameCounted(l: Ledger, m: Ledger)
    requires Counted(l) && m.db.batches == l.db.batches && m.claims == l.claims
    ensures Counted(m)
  {
    hide Coherent;
  }

  lemma IngestCounted(l: Ledger, e: Event)
    requires Counted(l) && e.DoIngest?
    ensures Counted(Next(l, e))
  {
    var key := Key(e.caller, e.id);
    if key !in l.db.batches && Ingest(l.db, e.caller, e.device, e.id, e.claimed, e.samples).1.Receipt? {
      assert Claims(l, key) == 0;
      TouchCounted(l, Next(l, e), key);
    }
  }

  lemma RetryCounted(l: Ledger, key: Key)
    requires Counted(l)
    ensures Counted(l.(db := AuthorizeRetry(l.db, key).0))
  {
    var m := l.(db := AuthorizeRetry(l.db, key).0);
    hide Counted;
    if key in l.db.batches { RowCounted(l, m, key, m.db.batches[key]); }
  }

  lemma DecisionCounted(l: Ledger, key: Key, action: Decision)
    requires Counted(l)
    ensures Counted(l.(db := Decide(l.db, key, action).0))
  {
    hide Counted;
    SameCounted(l, l.(db := Decide(l.db, key, action).0));
  }

  lemma ReuploadCounted(l: Ledger, e: Event)
    requires Counted(l) && e.DoReupload?
    ensures Counted(Next(l, e))
  {
    var m, key := Next(l, e), Key(e.caller, e.id);
    hide Counted;
    if m != l { RowCounted(l, m, key, m.db.batches[key]); }
  }

  lemma ClaimCounted(l: Ledger, e: Event)
    requires Counted(l) && e.DoClaim?
    ensures Counted(Next(l, e))
  {
    if e.worker !in l.workers && Claim(l.db, e.key).1 {
      TouchCounted(l, Next(l, e), e.key);
    }
  }

  lemma StoreCounted(l: Ledger, e: Event)
    requires Counted(l) && e.DoStore?
    ensures Counted(Next(l, e))
  {
    var m := Next(l, e);
    if e.worker in l.workers && l.workers[e.worker].payload.Some? && l.workers[e.worker].key in l.db.batches {
      var key := l.workers[e.worker].key;
      hide Counted, Rows;
      RowCounted(l, m, key, m.db.batches[key]);
    } else {
      hide Counted, Rows;
      SameCounted(l, m);
    }
  }

  lemma FailCounted(l: Ledger, e: Event)
    requires Counted(l) && e.DoFail?
    ensures Counted(Next(l, e))
  {
    var m := Next(l, e);
    if e.worker in l.workers && l.workers[e.worker].key in l.db.batches {
      var key := l.workers[e.worker].key;
      FailureCoherent(l.db, key, Claims(l, key));
      hide Counted, Coherent, NextFailureState, Claims;
      RowCounted(l, m, key, m.db.batches[key]);
    } else {
      hide Counted;
      SameCounted(l, m);
    }
  }

  lemma FailureCoherent(db: Server, key: Key, claims: int)
    requires key in db.batches && Coherent(db.batches[key], claims)
    ensures Coherent(RecordFailure(db, key).0.batches[key], claims)
  {
  }

  lemma NextCounted(l: Ledger, e: Event)
    requires Counted(l)
    ensures Counted(Next(l, e))
  {
    hide Counted, Ingest, AuthorizeRetry, Reupload, Decide, Claim, Store, RecordFailure;
    match e
    case DoIngest(_, _, _, _, _) => IngestCounted(l, e);
    case DoRetry(key) => RetryCounted(l, key);
    case DoReupload(_, _, _, _, _) => ReuploadCounted(l, e);
    case DoDecide(key, action) => DecisionCounted(l, key, action);
    case DoClaim(_, _) => ClaimCounted(l, e);
    case DoStore(_, _) => StoreCounted(l, e);
    case DoFail(_) => FailCounted(l, e);
    case DoCrash(worker) => SameCounted(l, Next(l, e));
  }

  /** A row nobody holds may change freely; a held one keeps its digest and stays PROCESSING or PROCESSED. */
  lemma TouchExclusive(l: Ledger, m: Ledger, key: Key)
    requires Exclusive(l) && Touches(l, m, key)
    requires forall w :: w in m.workers ==> w in l.workers && m.workers[w] == l.workers[w]
    requires forall w :: w in m.workers && m.workers[w].key == key ==>
                           && (m.db.batches[key].status == Processing || m.db.batches[key].status == Processed)
                           && m.db.batches[key].digest == l.db.batches[key].digest
    ensures Exclusive(m)
  {
  }

  lemma RequestExclusive(l: Ledger, e: Event)
    requires Exclusive(l) && (e.DoIngest? || e.DoReupload?)
    ensures Exclusive(Next(l, e))
  {
    hide WellFormed;
    TouchExclusive(l, Next(l, e), Key(e.caller, e.id));
  }

  lemma OperatorExclusive(l: Ledger, e: Event)
    requires Exclusive(l) && (e.DoRetry? || e.DoDecide?)
    ensures Exclusive(Next(l, e))
  {
    TouchExclusive(l, Next(l, e), e.key);
  }

  /** A worker takes a RECEIVED batch, which nobody can be holding, with its payload. */
  lemma HoldExclusive(l: Ledger, m: Ledger, worker: Uuid, key: Key)
    requires Exclusive(l) && worker !in l.workers && key in l.db.batches && l.db.batches[key].status == Received
    requires m.db.batches == l.db.batches[key := l.db.batches[key].(status := Processing)]
    requires m.workers == l.workers[worker := Work(key, Some(l.db.batches[key].digest.content))]
    ensures Exclusive(m)
  {
  }

  lemma ReceivedHasPayload(l: Ledger, key: Key)
    requires Counted(l) && key in l.db.batches && l.db.batches[key].status == Received
    ensures l.db.batches[key].payload == Some(l.db.batches[key].digest.content)
  {
    assert Coherent(l.db.batches[key], Claims(l, key));
  }

  lemma ClaimExclusive(l: Ledger, e: Event)
    requires Counted(l) && Exclusive(l) && e.DoClaim?
    ensures Exclusive(Next(l, e))
  {
    hide Counted, Exclusive;
    if e.worker !in l.workers && Claim(l.db, e.key).1 {
      ReceivedHasPayload(l, e.key);
      HoldExclusive(l, Next(l, e), e.worker, e.key);
    }
  }

  lemma WorkerExclusive(l: Ledger, e: Event)
    requires Exclusive(l) && (e.DoStore? || e.DoFail? || e.DoCrash?)
    ensures Exclusive(Next(l, e))
  {
    if e.worker in l.workers {
      TouchExclusive(l, Next(l, e), l.workers[e.worker].key);
    }
  }

  lemma NextExclusive(l: Ledger, e: Event)
    requires Counted(l) && Exclusive(l)
    ensures Exclusive(Next(l, e))
  {
    hide Counted, Exclusive, Next;
    if e.DoIngest? || e.DoReupload? {
      RequestExclusive(l, e);
    } else if e.DoRetry? || e.DoDecide? {
      OperatorExclusive(l, e);
    } else if e.DoClaim? {
      ClaimExclusive(l, e);
    } else {
      WorkerExclusive(l, e);
    }
  }

  lemma NextDistinct(l: Ledger, e: Event)
    requires Exclusive(l) && DistinctIds(l.db) && Legal(l, e)
    ensures DistinctIds(Next(l, e).db)
  {
    hide Exclusive;
    if e.DoStore? || e.DoFail? {
      hide Legal;
    }
  }

  /** Rows that are not PROCESSED may change; PROCESSED ones are final. */
  lemma TouchFilled(db: Server, after: Server, key: Key)
    requires Filled(db)
    requires after.samples == db.samples
    requires forall k :: k in db.batches && (k != key || db.batches[k].status == Processed) ==>
                           k in after.batches && after.batches[k] == db.batches[k]
    requires forall k :: k in after.batches && after.batches[k].status == Processed ==>
                           k in db.batches && after.batches[k] == db.batches[k]
    ensures Filled(after)
  {
    forall sk | sk in after.samples ensures Grounded(after, sk) {
      assert Grounded(db, sk);
    }
  }

  /** Storing a batch leaves a row under each of its keys, and adds no row but its own. */
  lemma StoreFilled(db: Server, key: Key)
    requires Filled(db)
    requires key in db.batches && db.batches[key].status == Processing
    ensures Filled(Store(db, key, db.batches[key].digest.content).0)
  {
    var content := db.batches[key].digest.content;
    var after := Store(db, key, content).0;
    assert Taken(after, key, content);
    forall k | k in after.batches && after.batches[k].status == Processed
      ensures Taken(after, k, after.batches[k].digest.content)
    {
      if k != key {
        assert Taken(db, k, db.batches[k].digest.content);
      }
    }
    forall sk | sk in after.samples ensures Grounded(after, sk) {
      if sk in db.samples {
        assert Grounded(db, sk);
      }
    }
  }

  lemma RequestFilled(l: Ledger, e: Event)
    requires Filled(l.db) && (e.DoIngest? || e.DoReupload?)
    ensures Filled(Next(l, e).db)
  {
    var db, after := l.db, Next(l, e).db;
    hide Filled;
    TouchFilled(db, after, Key(e.caller, e.id));
  }

  lemma OperatorFilled(l: Ledger, e: Event)
    requires Filled(l.db) && (e.DoRetry? || e.DoDecide? || e.DoClaim?)
    ensures Filled(Next(l, e).db)
  {
    var db, after := l.db, Next(l, e).db;
    hide Filled;
    TouchFilled(db, after, e.key);
  }

  lemma FailFilled(l: Ledger, e: Event)
    requires Filled(l.db) && (e.DoFail? || e.DoCrash?)
    ensures Filled(Next(l, e).db)
  {
    var db, after := l.db, Next(l, e).db;
    hide Filled;
    if e.worker in l.workers {
      TouchFilled(db, after, l.workers[e.worker].key);
    }
  }

  lemma FinishFilled(l: Ledger, e: Event)
    requires Exclusive(l) && Filled(l.db) && e.DoStore?
    ensures Filled(Next(l, e).db)
  {
    hide Filled;
    if e.worker in l.workers && l.db.batches[l.workers[e.worker].key].status == Processing {
      StoreFilled(l.db, l.workers[e.worker].key);
    }
  }

  /** Every event keeps the counters exact, the workers apart and the sample table sound. */
  lemma NextSound(l: Ledger, e: Event)
    requires Sound(l)
    ensures Sound(Next(l, e))
  {
    hide Counted, Exclusive, Filled, Next;
    NextCounted(l, e);
    NextExclusive(l, e);
    if e.DoIngest? || e.DoReupload? {
      RequestFilled(l, e);
    } else if e.DoRetry? || e.DoDecide? || e.DoClaim? {
      OperatorFilled(l, e);
    } else if e.DoStore? {
      FinishFilled(l, e);
    } else {
      FailFilled(l, e);
    }
  }

  /** Two processed batches of different devices with one id, and a sample of the same index and instant in each. */
  predicate Collide(db: Server, j: Key, k: Key) {
    && j != k && j.id == k.id && j in db.batches && k in db.batches
    && db.batches[j].status == Processed && db.batches[k].status == Processed
    && var a, b := db.batches[j].digest.content, db.batches[k].digest.content;
       exists i: nat :: i < |a| && i < |b| && a[i].recordedAt == b[i].recordedAt
  }

  /** A row under a batch's key is its own, or that of a batch it collides with. */
  lemma TakenBy(db: Server, k: Key, i: nat)
    requires Filled(db) && k in db.batches && db.batches[k].status == Processed && i < |db.batches[k].digest.content|
    ensures var sample := db.batches[k].digest.content[i];
            var sk := SampleKey(k.id, i, sample.recordedAt);
            && sk in db.samples
            && var j := Key(db.samples[sk].device, k.id);
               if j == k then db.samples[sk] == StoredSample(k.device, sample) else Collide(db, j, k)
  {
    var content := db.batches[k].digest.content;
    var sk := SampleKey(k.id, i, content[i].recordedAt);
    assert Taken(db, k, content);
    assert Grounded(db, sk);
    var j := Key(db.samples[sk].device, k.id);
    assert db.batches[j].digest.content[i].recordedAt == content[i].recordedAt;
  }

  lemma AloneIsStored(db: Server, k: Key)
    requires Filled(db) && k in db.batches && db.batches[k].status == Processed
    requires forall j :: j in db.batches ==> !Collide(db, j, k)
    ensures Stored(db, k, db.batches[k].digest.content)
  {
    var content := db.batches[k].digest.content;
    forall i: nat | i < |content|
      ensures var sk := SampleKey(k.id, i, content[i].recordedAt);
              sk in db.samples && db.samples[sk] == StoredSample(k.device, content[i])
    {
      hide Collide, Filled;
      TakenBy(db, k, i);
      var j := Key(db.samples[SampleKey(k.id, i, content[i].recordedAt)].device, k.id);
      if Collide(db, j, k) { Colliders(db, j, k); }
    }
  }

  lemma Colliders(db: Server, j: Key, k: Key)
    requires Collide(db, j, k)
    ensures j in db.batches && db.batches[j].status == Processed && k in db.batches && db.batches[k].status == Processed
  {
  }

  /** Of two that collide one is not stored in full. */
  lemma CollisionLoses(db: Server, j: Key, k: Key)
    requires Collide(db, j, k)
    ensures !Stored(db, j, db.batches[j].digest.content) || !Stored(db, k, db.batches[k].digest.content)
  {
    var a, b := db.batches[j].digest.content, db.batches[k].digest.content;
    var i: nat :| i < |a| && i < |b| && a[i].recordedAt == b[i].recordedAt;
    assert SampleKey(j.id, i, a[i].recordedAt) == SampleKey(k.id, i, b[i].recordedAt);
  }

  lemma MaterializedIsFilled(db: Server)
    requires Materialized(db)
    ensures Filled(db)
  {
    forall k | k in db.batches && db.batches[k].status == Processed ensures Taken(db, k, db.batches[k].digest.content) {
      assert Stored(db, k, db.batches[k].digest.content);
    }
    hide Grounded;
  }

  lemma DistinctIsMaterialized(db: Server)
    requires Filled(db) && DistinctIds(db)
    ensures Materialized(db)
  {
    hide Grounded, Stored, Taken;
    forall k | k in db.batches && db.batches[k].status == Processed ensures Stored(db, k, db.batches[k].digest.content) {
      AloneIsStored(db, k);
    }
  }

  /** Every event keeps the invariant while batch ids are unique. */
  lemma NextInvariant(l: Ledger, e: Event)
    requires Invariant(l) && Legal(l, e)
    ensures Invariant(Next(l, e))
  {
    hide Counted, Exclusive, DistinctIds, Materialized, Filled, Next, Legal;
    MaterializedIsFilled(l.db);
    NextSound(l, e);
    NextDistinct(l, e);
    DistinctIsMaterialized(Next(l, e).db);
  }

  // -------------------------------------------------------------------- runs

  function Run(es: seq<Event>): Ledger {
    if es == [] then NEW else Next(Run(es[..|es| - 1]), es[|es| - 1])
  }

  /** No two devices ever ingest the same batch id. */
  predicate LegalRun(es: seq<Event>) {
    es == [] || (LegalRun(es[..|es| - 1]) && Legal(Run(es[..|es| - 1]), es[|es| - 1]))
  }

  lemma {:induction false} RunInvariant(es: seq<Event>)
    requires LegalRun(es)
    ensures Invariant(Run(es))
  {
    if es != [] {
      RunInvariant(es[..|es| - 1]);
      NextInvariant(Run(es[..|es| - 1]), es[|es| - 1]);
    }
  }

  lemma {:induction false} RunSound(es: seq<Event>)
    ensures Sound(Run(es))
  {
    if es != [] {
      RunSound(es[..|es| - 1]);
      NextSound(Run(es[..|es| - 1]), es[|es| - 1]);
    }
  }

  /** In every reachable state the counters are within their CHECKs and account exactly for the claims
      of the batch, which is never claimed more than twelve times. */
  lemma ClaimsAreCounted(es: seq<Event>, k: Key)
    requires k in Run(es).db.batches
    ensures var b := Run(es).db.batches[k];
            var n := Claims(Run(es), k);
            && 0 <= b.retry <= 3 && 0 <= b.reprocess <= 3 && n <= 12
            && (b.status == Received ==> n == 3 * b.reprocess + b.retry)
            && (b.status == Processing ==> n == 3 * b.reprocess + b.retry + 1)
            && (b.status == Dlq ==> n == 3 * b.reprocess + 3 && b.reprocess < 3)
            && (b.status == AwaitingReupload ==> n == 3 * b.reprocess)
            && (b.status == DlqExhausted <==> n == 12 && b.status != Processing && b.status != Processed)
  {
    RunSound(es);
    hide Run, Exclusive, Filled;
    assert Coherent(Run(es).db.batches[k], Claims(Run(es), k));
  }

  /** In reachable states neither the `min` of the failure policy nor the reprocess guard of the retry
      authorization ever decides anything. */
  lemma GuardsAreRedundant(es: seq<Event>, k: Key)
    requires k in Run(es).db.batches
    ensures var b := Run(es).db.batches[k];
            && (b.status == Processing ==>
                  NextFailureState(b.retry, b.reprocess).0 == b.retry + 1
                  && (NextFailureState(b.retry, b.reprocess).1 == DlqExhausted <==> b.retry == 2 && b.reprocess == 3))
            && (AuthorizeRetry(Run(es).db, k).1 == StateRejected <==> b.status != Dlq && b.status != AwaitingReupload)
  {
    RunSound(es);
    hide Run, Exclusive, Filled;
    assert Coherent(Run(es).db.batches[k], Claims(Run(es), k));
  }

  /** No sample of a batch is stored before it is PROCESSED; then all are, unless it collides with a batch
      of another device. No two workers hold the same batch; the payload is there exactly while it can
      still be processed. */
  lemma ExactlyOnceProcessing(es: seq<Event>, k: Key)
    requires k in Run(es).db.batches
    ensures var l := Run(es);
            var b := l.db.batches[k];
            && (b.status == Processed && (forall j :: j in l.db.batches ==> !Collide(l.db, j, k)) ==>
                  Stored(l.db, k, b.digest.content))
            && (b.status != Processed ==>
                  forall sk :: sk in l.db.samples && sk.batch == k.id ==> l.db.samples[sk].device != k.device)
            && (forall v, w :: v in l.workers && w in l.workers && l.workers[v].key == l.workers[w].key == k ==> v == w)
            && (b.payload.Some? <==> b.status == Received || b.status == Processing)
            && (b.payload.Some? ==> b.payload.value == b.digest.content)
  {
    RunSound(es);
    hide Run, Collide, Stored;
    var l := Run(es);
    var b := l.db.batches[k];
    assert Coherent(b, Claims(l, k));
    if b.status == Processed {
      if forall j :: j in l.db.batches ==> !Collide(l.db, j, k) { AloneIsStored(l.db, k); }
    } else {
      forall sk | sk in l.db.samples && sk.batch == k.id ensures l.db.samples[sk].device != k.device {
        assert Grounded(l.db, sk);
      }
    }
  }

  /** With unique batch ids nothing collides, so that PROCESSED says that all samples are stored. */
  lemma UniqueIdsDoNotCollide(es: seq<Event>, j: Key, k: Key)
    requires LegalRun(es)
    ensures !Collide(Run(es).db, j, k)
  {
    RunInvariant(es);
    hide Run, LegalRun, Counted, Exclusive, Materialized;
  }

  /** The sample key has no device. Over every run, whether or not batch ids are unique: all PROCESSED
      batches are stored in full if and only if no two of them collide. */
  lemma LossIsCollision(es: seq<Event>)
    ensures var db := Run(es).db;
            (forall k :: k in db.batches && db.batches[k].status == Processed ==> Stored(db, k, db.batches[k].digest.content))
            <==> (forall j, k :: j in db.batches && k in db.batches ==> !Collide(db, j, k))
  {
    RunSound(es);
    var db := Run(es).db;
    hide Run, Collide, Stored, Filled, Counted, Exclusive;
    if forall j, k :: j in db.batches && k in db.batches ==> !Collide(db, j, k) {
      forall k | k in db.batches && db.batches[k].status == Processed ensures Stored(db, k, db.batches[k].digest.content) {
        AloneIsStored(db, k);
      }
    } else {
      var j, k :| j in db.batches && k in db.batches && Collide(db, j, k);
      Colliders(db, j, k);
      CollisionLoses(db, j, k);
    }
  }

  /** PROCESSED and DLQ_EXHAUSTED are absorbing, and no event ever changes a batch's digest, removes a
      stored row or takes back a purge decision. */
  lemma Finality(l: Ledger, e: Event)
    ensures forall k :: k in l.db.batches ==>
                          && k in Next(l, e).db.batches
                          && Next(l, e).db.batches[k].digest == l.db.batches[k].digest
                          && (l.db.batches[k].status == Processed || l.db.batches[k].status == DlqExhausted ==>
                                Next(l, e).db.batches[k] == l.db.batches[k])
    ensures forall sk :: sk in l.db.samples ==> sk in Next(l, e).db.samples && Next(l, e).db.samples[sk] == l.db.samples[sk]
    ensures forall id :: id in l.db.decisions && l.db.decisions[id] == PurgeLocal ==>
                           id in Next(l, e).db.decisions && Next(l, e).db.decisions[id] == PurgeLocal
  {
    hide Next;
    RowsStay(l, e);
    forall k | k in l.db.batches
      ensures && k in Next(l, e).db.batches
              && Next(l, e).db.batches[k].digest == l.db.batches[k].digest
              && (l.db.batches[k].status == Processed || l.db.batches[k].status == DlqExhausted ==>
                    Next(l, e).db.batches[k] == l.db.batches[k])
    {
      BatchStays(l, e, k);
    }
  }

  lemma RowsStay(l: Ledger, e: Event)
    ensures forall sk :: sk in l.db.samples ==> sk in Next(l, e).db.samples && Next(l, e).db.samples[sk] == l.db.samples[sk]
    ensures forall id :: id in l.db.decisions && l.db.decisions[id] == PurgeLocal ==>
                           id in Next(l, e).db.decisions && Next(l, e).db.decisions[id] == PurgeLocal
  {
    hide Rows, NextFailureState;
  }

  lemma BatchStays(l: Ledger, e: Event, k: Key)
    requires k in l.db.batches
    ensures && k in Next(l, e).db.batches
            && Next(l, e).db.batches[k].digest == l.db.batches[k].digest
            && (l.db.batches[k].status == Processed || l.db.batches[k].status == DlqExhausted ==>
                  Next(l, e).db.batches[k] == l.db.batches[k])
  {
    hide Rows, NextFailureState;
  }

  /** Over every run a recorded decision, to purge or to retain, was asked for by an operator on an exhausted
      batch of that id. */
  lemma {:induction false} DecisionsWereAskedFor(es: seq<Event>, id: Uuid)
    requires id in Run(es).db.decisions
    ensures exists i :: 0 <= i < |es| && es[i].DoDecide? && es[i].key.id == id
                        && es[i].action == Run(es).db.decisions[id]
                        && es[i].key in Run(es[..i]).db.batches && Run(es[..i]).db.batches[es[i].key].status == DlqExhausted
  {
    var last := |es| - 1;
    var l, e := Run(es[..last]), es[last];
    if !(id in l.db.decisions && l.db.decisions[id] == Run(es).db.decisions[id]) {
      DecisionChanges(l, e, id);
    } else {
      DecisionsWereAskedFor(es[..last], id);
      var i :| 0 <= i < last && es[..last][i].DoDecide? && es[..last][i].key.id == id
               && es[..last][i].action == l.db.decisions[id]
               && es[..last][i].key in Run(es[..last][..i]).db.batches
               && Run(es[..last][..i]).db.batches[es[..last][i].key].status == DlqExhausted;
      assert es[..last][..i] == es[..i] && es[i] == es[..last][i];
    }
  }

  /** Only a decision of that id changes what is recorded under it. */
  lemma DecisionChanges(l: Ledger, e: Event, id: Uuid)
    requires id in Next(l, e).db.decisions
    requires !(id in l.db.decisions && l.db.decisions[id] == Next(l, e).db.decisions[id])
    ensures e.DoDecide? && e.key.id == id && e.action == Next(l, e).db.decisions[id]
    ensures e.key in l.db.batches && l.db.batches[e.key].status == DlqExhausted
  {
    hide Rows, NextFailureState;
    if e.DoDecide? { DecisionIsRecorded(l.db, e.key, e.action); }
  }

  /** And what an operator may decide is recorded at once. */
  lemma DecisionTakesEffect(l: Ledger, key: Key, action: Decision)
    requires key in l.db.batches && l.db.batches[key].status == DlqExhausted
    requires key.id in l.db.decisions && l.db.decisions[key.id] == PurgeLocal ==> action == PurgeLocal
    ensures var m := Next(l, DoDecide(key, action)); key.id in m.db.decisions && m.db.decisions[key.id] == action
  {
    DecisionIsRecorded(l.db, key, action);
    hide Decide;
  }

  /** A worker has something in hand from its claim until it fails, crashes, or is told that it has stored it. */
  lemma WhyWorkersHold(l: Ledger, e: Event, w: Uuid)
    ensures w in Next(l, e).workers <==>
              || (e.DoClaim? && e.worker == w && e.key in l.db.batches && l.db.batches[e.key].status == Received)
              || (&& w in l.workers
                  && !((e.DoFail? || e.DoCrash?) && e.worker == w)
                  && !(e.DoStore? && e.worker == w && !e.unsure && l.workers[w].payload.Some?))
    ensures w in Next(l, e).workers ==>
              Next(l, e).workers[w] == if w in l.workers then l.workers[w] else Work(e.key, l.db.batches[e.key].payload)
  {
    hide Rows, NextFailureState;
  }

  /** What moves a batch, and what each event does to it: exactly these. */
  predicate MovesTo(l: Ledger, e: Event, k: Key, to: Status)
    requires k in l.db.batches
  {
    var b := l.db.batches[k];
    match to
    case Processing => b.status == Received && e.DoClaim? && e.key == k && e.worker !in l.workers
    case Processed => b.status == Processing && e.DoStore? && e.worker in l.workers && l.workers[e.worker].key == k
    case AwaitingReupload => b.status == Dlq && e.DoRetry? && e.key == k
    case Received =>
      (b.status == AwaitingReupload && e.DoReupload? && e.caller == e.device == k.device && e.id == k.id
       && e.samples == e.claimed.content == b.digest.content)
      || (b.status == Processing && e.DoFail? && e.worker in l.workers && l.workers[e.worker].key == k && b.retry < 2)
    case Dlq =>
      b.status == Processing && e.DoFail? && e.worker in l.workers && l.workers[e.worker].key == k
      && b.retry == 2 && b.reprocess < 3
    case DlqExhausted =>
      b.status == Processing && e.DoFail? && e.worker in l.workers && l.workers[e.worker].key == k
      && b.retry == 2 && b.reprocess == 3
  }

  /** A batch takes another status exactly by the event that is for it, in every reachable state. */
  lemma WhyBatchesMove(l: Ledger, e: Event, k: Key, to: Status)
    requires Sound(l) && k in l.db.batches
    ensures k in Next(l, e).db.batches
    ensures to != l.db.batches[k].status ==> (Next(l, e).db.batches[k].status == to <==> MovesTo(l, e, k, to))
  {
    BatchStays(l, e, k);
    var claims := Claims(l, k);
    assert Coherent(l.db.batches[k], claims);
    hide Counted, Filled, Claims, Next, MovesTo;
    if e.DoIngest? || e.DoReupload? {
      RequestMoves(l, e, k, to);
    } else if e.DoRetry? || e.DoDecide? || e.DoClaim? {
      OperatorMoves(l, e, k, to);
    } else {
      WorkerMoves(l, e, k, to, claims);
    }
  }

  lemma RequestMoves(l: Ledger, e: Event, k: Key, to: Status)
    requires k in l.db.batches && k in Next(l, e).db.batches && (e.DoIngest? || e.DoReupload?)
    requires WellFormed(l.db.batches[k].digest.content)
    ensures to != l.db.batches[k].status ==> (Next(l, e).db.batches[k].status == to <==> MovesTo(l, e, k, to))
  {
  }

  lemma OperatorMoves(l: Ledger, e: Event, k: Key, to: Status)
    requires k in l.db.batches && k in Next(l, e).db.batches && (e.DoRetry? || e.DoDecide? || e.DoClaim?)
    requires l.db.batches[k].status == Dlq ==> l.db.batches[k].reprocess < MAX_ATTEMPTS
    ensures to != l.db.batches[k].status ==> (Next(l, e).db.batches[k].status == to <==> MovesTo(l, e, k, to))
  {
  }

  lemma WorkerMoves(l: Ledger, e: Event, k: Key, to: Status, claims: int)
    requires k in l.db.batches && k in Next(l, e).db.batches && (e.DoStore? || e.DoFail? || e.DoCrash?)
    requires Coherent(l.db.batches[k], claims) && Exclusive(l)
    ensures to != l.db.batches[k].status ==> (Next(l, e).db.batches[k].status == to <==> MovesTo(l, e, k, to))
  {
    hide Rows;
    if e.worker in l.workers && l.workers[e.worker].key == k {
      assert l.workers[e.worker].payload.Some?;
    }
    hide Exclusive;
  }

  /** A batch enters the ledger only by being ingested, with the digest of the samples sent. */
  lemma OnlyIngestAdds(l: Ledger, e: Event, k: Key)
    requires Exclusive(l) && k in Next(l, e).db.batches && k !in l.db.batches
    ensures e.DoIngest? && k == Key(e.caller, e.id) && Next(l, e).db.batches[k].digest == Sha256(e.samples)
  {
  }

  /** That can happen: a second device using the same batch id gets PROCESSED without its sample being stored. */
  lemma SharedIdLosesSamples(s: Sample, t: Sample)
    requires s != t && s.recordedAt == t.recordedAt
    ensures var l := Run([DoIngest(1, 1, 7, Sha256([s]), [s]), DoClaim(0, Key(1, 7)), DoStore(0, false),
                          DoIngest(2, 2, 7, Sha256([t]), [t]), DoClaim(0, Key(2, 7)), DoStore(0, false)]);
            && Key(2, 7) in l.db.batches && l.db.batches[Key(2, 7)].status == Processed
            && !Stored(l.db, Key(2, 7), [t])
  {
    var e1 := DoIngest(1, 1, 7, Sha256([s]), [s]);
    var e2 := DoClaim(0, Key(1, 7));
    var e3 := DoStore(0, false);
    var e4 := DoIngest(2, 2, 7, Sha256([t]), [t]);
    var e5 := DoClaim(0, Key(2, 7));
    var l3 := Next(Next(Next(NEW, e1), e2), e3);
    var sk := SampleKey(7, 0, s.recordedAt);
    RunSix(e1, e2, e3, e4, e5, e3);
    OneProcessed(NEW, 1, 7, s);
    hide Next;
    OneProcessed(l3, 2, 7, t);
    Finality(l3, e4);
    Finality(Next(l3, e4), e5);
    Finality(Next(Next(l3, e4), e5), e3);
    assert SampleKey(7, 0, [t][0].recordedAt) == sk;
  }

  /** A fresh batch of one sample goes through; its row is stored unless there is one under its key. */
  lemma OneProcessed(l: Ledger, device: Uuid, id: Uuid, s: Sample)
    requires 0 !in l.workers && Key(device, id) !in l.db.batches
    ensures var m := Next(Next(Next(l, DoIngest(device, device, id, Sha256([s]), [s])), DoClaim(0, Key(device, id))),
                          DoStore(0, false));
            var sk := SampleKey(id, 0, s.recordedAt);
            && 0 !in m.workers && Key(device, id) in m.db.batches && m.db.batches[Key(device, id)].status == Processed
            && (forall k :: k in m.db.batches ==> k in l.db.batches || k == Key(device, id))
            && (sk !in l.db.samples ==> sk in m.db.samples && m.db.samples[sk] == StoredSample(device, s))
  {
    var key := Key(device, id);
    var l1 := Next(l, DoIngest(device, device, id, Sha256([s]), [s]));
    assert l1.db.batches[key] == Batch(Received, 1, 0, 0, Sha256([s]), Some([s])) && l1.workers == l.workers;
    assert l1.db.samples == l.db.samples;
    var l2 := Next(l1, DoClaim(0, key));
    assert l2.workers[0] == Work(key, Some([s])) && l2.db.batches[key].status == Processing && l2.db.samples == l.db.samples;
    assert SampleKey(id, 0, [s][0].recordedAt) in Rows(key, [s]);
  }

  lemma RunSix(a: Event, b: Event, c: Event, d: Event, e: Event, f: Event)
    ensures Run([a, b, c, d, e, f]) == Next(Next(Next(Next(Next(Next(NEW, a), b), c), d), e), f)
  {
    hide Next;
    assert [a, b, c, d, e, f][..5] == [a, b, c, d, e];
    assert [a, b, c, d, e][..4] == [a, b, c, d];
    assert [a, b, c, d][..3] == [a, b, c];
    assert [a, b, c][..2] == [a, b];
    assert [a, b][..1] == [a];
    assert [a][..0] == [];
    assert Run([a]) == Next(Run([]), a);
    assert Run([a, b]) == Next(Run([a]), b);
    assert Run([a, b, c]) == Next(Run([a, b]), c);
    assert Run([a, b, c, d]) == Next(Run([a, b, c]), d);
    assert Run([a, b, c, d, e]) == Next(Run([a, b, c, d]), e);
  }
}

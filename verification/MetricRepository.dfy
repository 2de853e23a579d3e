/** The server's repository: each method is one transaction on the tables. */
module MetricRepository {
  import opened Wrappers
  import opened Telemetry
  import opened BatchLedger

  /** Inserting row `i` after the first `i`, with conflicts ignored, is inserting one row more. */
  lemma InsertNext(table: map<SampleKey, StoredSample>, key: Key, samples: seq<Sample>, i: nat)
    requires i < |samples|
    ensures var sk := SampleKey(key.id, i, samples[i].recordedAt);
            var before := Rows(key, samples[..i]) + table;
            Rows(key, samples[..i + 1]) + table
            == if sk in before then before else before[sk := StoredSample(key.device, samples[i])]
  {
    var sk := SampleKey(key.id, i, samples[i].recordedAt);
    var less := Rows(key, samples[..i]);
    var more := Rows(key, samples[..i + 1]);
    assert forall j: nat :: j < i ==> samples[..i + 1][j] == samples[..i][j];
    assert more == less[sk := StoredSample(key.device, samples[i])];
    assert sk !in less;
  }

  /** `ORDER BY received_at, id`. */
  predicate Earlier(receivedAt: map<Key, int>, j: Key, k: Key)
    requires j in receivedAt && k in receivedAt
  {
    receivedAt[j] < receivedAt[k] || (receivedAt[j] == receivedAt[k] && j.id < k.id)
  }

  /** Whoever came first is first; of those that came at once the lower id. */
  lemma EarlierIsOrder(receivedAt: map<Key, int>, j: Key, k: Key)
    requires j in receivedAt && k in receivedAt
    ensures receivedAt[j] < receivedAt[k] ==> Earlier(receivedAt, j, k) && !Earlier(receivedAt, k, j)
    ensures receivedAt[j] == receivedAt[k] ==> (Earlier(receivedAt, j, k) <==> j.id < k.id)
  {
  }

  predicate FirstOf(receivedAt: map<Key, int>, keys: set<Key>, first: Key)
    requires keys <= receivedAt.Keys && first in receivedAt
  {
    forall k :: k in keys ==> !Earlier(receivedAt, k, first)
  }

  lemma FirstOfMore(receivedAt: map<Key, int>, keys: set<Key>, first: Key, k: Key)
    requires keys <= receivedAt.Keys && first in receivedAt && k in receivedAt && FirstOf(receivedAt, keys, first)
    ensures FirstOf(receivedAt, keys + {k}, if Earlier(receivedAt, k, first) then k else first)
  {
  }

  class MetricRepository {
    var db: Server

    constructor ()
      ensures db == NEW.db
    {
      db := NEW.db;
    }

    method IngestBatch(caller: Uuid, device: Uuid, id: Uuid, claimed: Digest, samples: seq<Sample>) returns (a: Answer)
      modifies this
      ensures (db, a) == Ingest(old(db), caller, device, id, claimed, samples)
    {
      var key := Key(caller, id);
      if |samples| < 1 || |samples| > MAX_BATCH_SAMPLES {
        return InvalidBatch;
      }
      if caller != device {
        return AccessRejected;
      }
      if claimed != Sha256(samples) {
        return DigestMismatch;
      }
      if key in db.batches {
        var row := db.batches[key];
        return if row.digest != claimed then IdentityCollision else Receipt(row.status, true);
      }
      db := db.(batches := db.batches[key := Batch(Received, |samples|, 0, 0, claimed, Some(samples))]);
      return Receipt(Received, false);
    }

    method AuthorizeRetry(key: Key) returns (a: Answer)
      modifies this
      ensures (db, a) == BatchLedger.AuthorizeRetry(old(db), key)
    {
      if key !in db.batches {
        return UnknownBatch;
      }
      var row := db.batches[key];
      if row.status == AwaitingReupload {
        return Receipt(row.status, true);
      }
      if row.status != Dlq || row.reprocess >= 3 {
        return StateRejected;
      }
      row := row.(status := AwaitingReupload, retry := 0, reprocess := row.reprocess + 1);
      db := db.(batches := db.batches[key := row]);
      return Receipt(AwaitingReupload, false);
    }

    method ReuploadBatch(caller: Uuid, device: Uuid, id: Uuid, claimed: Digest, samples: seq<Sample>) returns (a: Answer)
      modifies this
      ensures (db, a) == Reupload(old(db), caller, device, id, claimed, samples)
    {
      var key := Key(caller, id);
      if |samples| < 1 || |samples| > MAX_BATCH_SAMPLES {
        return InvalidBatch;
      }
      if caller != device {
        return AccessRejected;
      }
      if claimed != Sha256(samples) {
        return DigestMismatch;
      }
      if key !in db.batches {
        return UnknownBatch;
      }
      var row := db.batches[key];
      if row.digest != claimed {
        return IdentityCollision;
      }
      if row.status != AwaitingReupload {
        return StateRejected;
      }
      row := row.(status := Received, retry := 0, sampleCount := |samples|, payload := Some(samples));
      db := db.(batches := db.batches[key := row]);
      return Receipt(Received, false);
    }

    /** What is recorded is what was asked for, under this id alone. */
    method DecideExhausted(key: Key, action: Decision) returns (a: Answer)
      modifies this
      ensures (db, a) == Decide(old(db), key, action)
      ensures a.Receipt? ==> key.id in db.decisions && db.decisions[key.id] == action
      ensures a.Receipt? <==>
                && key in old(db).batches && old(db).batches[key].status == DlqExhausted
                && (key.id in old(db).decisions && old(db).decisions[key.id] == PurgeLocal ==> action == PurgeLocal)
      ensures forall id :: id != key.id ==>
                (id in db.decisions <==> id in old(db).decisions)
                && (id in db.decisions ==> db.decisions[id] == old(db).decisions[id])
      ensures db.batches == old(db).batches && db.samples == old(db).samples
    {
      DecisionIsRecorded(db, key, action);
      if key !in db.batches {
        return UnknownBatch;
      }
      if db.batches[key].status != DlqExhausted {
        return StateRejected;
      }
      if key.id in db.decisions {
        if db.decisions[key.id] == action {
          return Receipt(DlqExhausted, true);
        }
        if db.decisions[key.id] == PurgeLocal && action == Retain {
          return DecisionConflict;
        }
      }
      db := db.(decisions := db.decisions[key.id := action]);
      return Receipt(DlqExhausted, false);
    }

    /** The picking query: of the RECEIVED rows nobody has locked the first by `received_at, id`. */
    method PickReceived(receivedAt: map<Key, int>, locked: set<Key>) returns (picked: Option<Key>)
      requires db.batches.Keys <= receivedAt.Keys
      ensures picked.None? <==> forall k :: k in db.batches && db.batches[k].status == Received ==> k in locked
      ensures picked.Some? ==>
                && picked.value in db.batches && db.batches[picked.value].status == Received && picked.value !in locked
                && forall k :: k in db.batches && db.batches[k].status == Received && k !in locked ==>
                     !Earlier(receivedAt, k, picked.value)
    {
      var free := set k | k in db.batches && db.batches[k].status == Received && k !in locked;
      if free == {} {
        assert forall k :: k in db.batches && db.batches[k].status == Received && k !in locked ==> k in free;
        return None;
      }
      var best :| best in free;
      var rest := free - {best};
      while rest != {}
        invariant best in free && rest <= free && FirstOf(receivedAt, free - rest, best)
        decreases |rest|
      {
        var k :| k in rest;
        FirstOfMore(receivedAt, free - rest, best, k);
        assert free - (rest - {k}) == free - rest + {k};
        if Earlier(receivedAt, k, best) {
          best := k;
        }
        rest := rest - {k};
      }
      assert free - rest == free;
      return Some(best);
    }

    /** The first transaction of `process_next_batch`: pick, then flip the status of the row picked. */
    method ClaimNext(receivedAt: map<Key, int>, locked: set<Key>) returns (work: Option<Work>)
      requires db.batches.Keys <= receivedAt.Keys
      modifies this
      ensures work.None? <==> forall k :: k in old(db.batches) && old(db.batches)[k].status == Received ==> k in locked
      ensures work.None? ==> db == old(db)
      ensures work.Some? ==>
                && Claim(old(db), work.value.key) == (db, true) && work.value.key !in locked
                && work.value.payload == old(db.batches)[work.value.key].payload
                && forall k :: k in old(db.batches) && old(db.batches)[k].status == Received && k !in locked ==>
                     !Earlier(receivedAt, k, work.value.key)
    {
      var picked := PickReceived(receivedAt, locked);
      if picked.None? {
        return None;
      }
      work := ClaimPicked(picked.value);
    }

    /** The UPDATE for the row picked. */
    method ClaimPicked(key: Key) returns (work: Option<Work>)
      modifies this
      ensures (db, work.Some?) == Claim(old(db), key)
      ensures work.Some? ==> work.value == Work(key, old(db).batches[key].payload)
    {
      if key !in db.batches || db.batches[key].status != Received {
        return None;
      }
      var row := db.batches[key];
      db := db.(batches := db.batches[key := row.(status := Processing)]);
      return Some(Work(key, row.payload));
    }

    /** The storing transaction of `process_next_batch`: one INSERT a sample, conflicts ignored, then the flip. */
    method StoreSamples(key: Key, samples: seq<Sample>) returns (a: Answer)
      modifies this
      ensures (db, a) == Store(old(db), key, samples)
    {
      if key !in db.batches {
        return UnknownBatch;
      }
      var row := db.batches[key];
      if row.status != Processing {
        return StateRejected;
      }
      var table := db.samples;
      assert Rows(key, samples[..0]) + table == table;
      for i := 0 to |samples|
        invariant table == Rows(key, samples[..i]) + db.samples
        invariant db == old(db)
      {
        InsertNext(db.samples, key, samples, i);
        var sk := SampleKey(key.id, i, samples[i].recordedAt);
        if sk !in table {
          table := table[sk := StoredSample(key.device, samples[i])];
        }
      }
      assert samples[..|samples|] == samples;
      db := db.(samples := table, batches := db.batches[key := row.(status := Processed, payload := None)]);
      return Receipt(Processed, false);
    }

    method RecordProcessingFailure(key: Key) returns (a: Answer)
      modifies this
      ensures (db, a) == RecordFailure(old(db), key)
    {
      if key !in db.batches {
        return UnknownBatch;
      }
      var row := db.batches[key];
      if row.status != Processing {
        return StateRejected;
      }
      var (retry, status) := NextFailureState(row.retry, row.reprocess);
      row := row.(status := status, retry := retry);
      if status == Dlq || status == DlqExhausted {
        row := row.(payload := None);
      }
      db := db.(batches := db.batches[key := row]);
      return Receipt(status, false);
    }
  }
}

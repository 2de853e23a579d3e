/** The HTTP outcome policy, working on the queue. */
module Dispatcher {
  import opened Wrappers
  import opened Telemetry
  import opened QueueTables
  import opened QueueTransactions
  import opened QueueInvariants
  import opened DispatchPolicy
  import opened LocalQueue

  /** What `reconcile_status` does with a normalised status the server reported for a batch. */
  function Reconcile(db: Database, id: Uuid, status: string, poll: nat, now: int): Database {
    if status == "PROCESSED" || status == "PURGE_LOCAL" then QueueTransactions.Acknowledge(db, id).0
    else if status == "RECEIVED" || status == "PROCESSING" || status == "AWAITING_REUPLOAD" then
      QueueTransactions.Defer(db, id, now + poll)
    else if status == "DLQ" then QueueTransactions.Defer(db, id, now + poll * 2)
    else if status == "DLQ_EXHAUSTED" then QueueTransactions.Defer(db, id, now + poll * 4)
    else db
  }

  /** What `reupload_batch` does: whatever the answer, the batch stays queued. */
  function Reuploaded(db: Database, id: Uuid, reply: Reply, poll: nat, d: Draw): (Database, Outcome) {
    match QueueTransactions.GetBatch(db, id)
    case None => (db, NotFound)
    case Some(batch) =>
      var retry := QueueTransactions.Defer(db, id, d.now + Backoff(batch.attempts) + d.jitter);
      if reply.Unreachable? then (retry, Retry)
      else if reply.code == 200 || reply.code == 202 then (QueueTransactions.Defer(db, id, d.now + poll), Accepted)
      else if reply.code == 0 || reply.code == 429 || reply.code >= 500 then (retry, Retry)
      else (db, Rejected)
  }

  /** When a batch is due again after a status report, how many poll intervals on; a status that is none of these
      changes nothing, and neither does a report on a batch that is gone. */
  lemma ReconciledDue(db: Database, i: nat, status: string, poll: nat, now: int)
    requires i < |db.queue| && IndexOf(db.queue, db.queue[i].id) == Some(i)
    ensures var row := db.queue[i];
            var after := Reconcile(db, row.id, status, poll, now);
            && (status in {"RECEIVED", "PROCESSING", "AWAITING_REUPLOAD"} ==>
                  after == db.(queue := db.queue[i := row.(attempts := row.attempts + 1, nextAttempt := now + poll)]))
            && (status == "DLQ" ==>
                  after == db.(queue := db.queue[i := row.(attempts := row.attempts + 1, nextAttempt := now + 2 * poll)]))
            && (status == "DLQ_EXHAUSTED" ==>
                  after == db.(queue := db.queue[i := row.(attempts := row.attempts + 1, nextAttempt := now + 4 * poll)]))
            && (status in {"PROCESSED", "PURGE_LOCAL"} ==> after == db.(queue := db.queue[..i] + db.queue[i + 1..]))
            && (status !in {"RECEIVED", "PROCESSING", "AWAITING_REUPLOAD", "DLQ", "DLQ_EXHAUSTED", "PROCESSED", "PURGE_LOCAL"} ==>
                  after == db)
  {
    hide IndexOf;
  }

  /** The same after a reupload; a refusal leaves the batch as it is. */
  lemma ReuploadedDue(db: Database, i: nat, reply: Reply, poll: nat, d: Draw)
    requires i < |db.queue| && IndexOf(db.queue, db.queue[i].id) == Some(i)
    ensures var row := db.queue[i];
            var (after, o) := Reuploaded(db, row.id, reply, poll, d);
            && (reply.Unreachable? || reply.code == 0 || reply.code == 429 || reply.code >= 500 ==>
                  o.Retry?
                  && after == db.(queue := db.queue[i := row.(attempts := row.attempts + 1,
                                                              nextAttempt := d.now + Backoff(row.attempts) + d.jitter)]))
            && (reply.Http? && (reply.code == 200 || reply.code == 202) ==>
                  o.Accepted? && after == db.(queue := db.queue[i := row.(attempts := row.attempts + 1, nextAttempt := d.now + poll)]))
            && (reply.Http? && reply.code != 0 && reply.code != 200 && reply.code != 202 && reply.code != 429 && reply.code < 500 ==>
                  o.Rejected? && after == db)
  {
    hide IndexOf, Backoff;
  }

  class BatchDispatcher {
    const queue: LocalQueue
    const poll: nat

    constructor (queue: LocalQueue, poll: nat)
      ensures this.queue == queue && this.poll == if poll < 1 then 1 else poll
    {
      this.queue := queue;
      this.poll := if poll < 1 then 1 else poll;
    }

    /** `_defer`: exponential backoff with jitter. */
    method Postpone(batch: StoredBatch, d: Draw)
      requires queue.Valid()
      modifies queue`db
      ensures queue.Valid()
      ensures queue.db == QueueTransactions.Defer(old(queue.db), batch.id, d.now + Backoff(batch.attempts) + d.jitter)
    {
      BackoffSchedule(batch.attempts);
      var v := queue.Defer(batch.id, Backoff(batch.attempts) + d.jitter, d.now);
    }

    method AnswerTooLarge(batch: StoredBatch, d: Draw) returns (o: Outcome)
      requires queue.Valid()
      modifies queue`db
      ensures queue.Valid()
      ensures queue.db == Handle413(queue.config, old(queue.db), batch, d).0.db
      ensures o == Handle413(queue.config, old(queue.db), batch, d).1
    {
      var v;
      if |batch.samples| == 1 {
        v := queue.QuarantineSample(batch, d.key, d.now);
        return if v.Raised? then Failed(v.error) else SampleSealed;
      }
      if batch.depth >= MAX_SPLIT_DEPTH {
        v := queue.QuarantineBatch(batch, false, d.now);
        return if v.Raised? then Failed(v.error) else BatchSealed;
      }
      v := queue.Split(batch, d.left, d.right, d.now, d.later);
      return if v.Raised? then Failed(v.error) else SplitInTwo;
    }

    /** `dispatch_once`, given what `send` came back with for the batch it sent. */
    method DispatchOnce(reply: Reply, d: Draw) returns (o: Outcome)
      requires queue.Valid()
      modifies queue`db
      ensures queue.Valid()
      ensures queue.db == Dispatch(queue.config, old(queue.db), reply, poll, d).0.db
      ensures o == Dispatch(queue.config, old(queue.db), reply, poll, d).1
    {
      hide Handle413, Defer, QuarantineBatch, Acknowledge, Sound;
      var next := queue.NextBatch(d.asked);
      if next.None? {
        return Empty;
      }
      var batch := next.value;
      if reply.Unreachable? || reply.code == 0 || reply.code == 429 || reply.code >= 500 {
        Postpone(batch, d);
        return Retry;
      }
      if reply.code == 200 {
        if reply.remoteStatus == "" || reply.remoteStatus == "PROCESSED" {
          var removed := queue.Acknowledge(batch.id);
          return Acknowledged;
        }
        var soon := reply.remoteStatus == "RECEIVED" || reply.remoteStatus == "PROCESSING";
        var v := queue.Defer(batch.id, if soon then poll else poll * 2, d.now);
        return if soon then Accepted else Retained;
      }
      if reply.code == 202 {
        var v := queue.Defer(batch.id, poll, d.now);
        return Accepted;
      }
      if reply.code == 413 {
        o := AnswerTooLarge(batch, d);
        return;
      }
      var v := queue.QuarantineBatch(batch, reply.http422, d.now);
      return if v.Raised? then Failed(v.error) else BatchSealed;
    }

    /** `reconcile_status`: only PROCESSED and PURGE_LOCAL remove the batch. */
    method ReconcileStatus(id: Uuid, status: string, now: int) returns (removed: bool)
      requires queue.Valid()
      modifies queue`db
      ensures queue.Valid() && queue.db == Reconcile(old(queue.db), id, status, poll, now)
      ensures removed <==> HasId(old(queue.db).queue, id) && (status == "PROCESSED" || status == "PURGE_LOCAL")
    {
      removed := false;
      if status == "PROCESSED" || status == "PURGE_LOCAL" {
        removed := queue.Acknowledge(id);
      } else if status == "RECEIVED" || status == "PROCESSING" || status == "AWAITING_REUPLOAD" {
        var v := queue.Defer(id, poll, now);
      } else if status == "DLQ" {
        var v := queue.Defer(id, poll * 2, now);
      } else if status == "DLQ_EXHAUSTED" {
        var v := queue.Defer(id, poll * 4, now);
      }
    }

    method ReuploadBatch(id: Uuid, reply: Reply, d: Draw) returns (o: Outcome)
      requires queue.Valid()
      modifies queue`db
      ensures queue.Valid()
      ensures (queue.db, o) == Reuploaded(old(queue.db), id, reply, poll, d)
    {
      hide Sound, Defer;
      var batch := QueueTransactions.GetBatch(queue.db, id);
      if batch.None? {
        return NotFound;
      }
      assert batch.value.id == id;
      if reply.Unreachable? {
        Postpone(batch.value, d);
        return Retry;
      }
      if reply.code == 200 || reply.code == 202 {
        var v := queue.Defer(id, poll, d.now);
        return Accepted;
      }
      if reply.code == 0 || reply.code == 429 || reply.code >= 500 {
        Postpone(batch.value, d);
        return Retry;
      }
      return Rejected;
    }
  }
}

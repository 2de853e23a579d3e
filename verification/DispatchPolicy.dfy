/** What the dispatcher does with each answer, and why a storm of 413 answers ends. */
module DispatchPolicy {
  import opened Wrappers
  import opened Telemetry
  import opened QueueTables
  import opened QueueTransactions
  import opened QueueInvariants

  /** What `send` came back with; `http422` says whether the normalised error code starts with HTTP_422. */
  datatype Reply = Unreachable | Http(code: int, remoteStatus: string, http422: bool)

  /** Clock readings, fresh identifiers and the random fraction one dispatch draws: `asked` is read for the
      batch to send, `now` and `later` once the answer is there. */
  datatype Draw = Draw(asked: int, now: int, later: int, left: Uuid, right: Uuid, key: Uuid, jitter: nat)

  datatype Outcome =
    | Empty | Retry | Acknowledged | Accepted | Retained | SplitInTwo | SampleSealed | BatchSealed
    | NotFound | Rejected | Failed(error: Error)

  // ---------------------------------------------------------------- backoff

  function Pow2(n: nat): nat {
    if n == 0 then 1 else 2 * Pow2(n - 1)
  }

  function Backoff(attempts: nat): nat {
    var base := 30 * Pow2(if attempts < 6 then attempts else 6);
    if base < 1_800 then base else 1_800
  }

  /** The retry delay doubles from 30 s and stays at 30 minutes. */
  lemma BackoffSchedule(attempts: nat)
    ensures Backoff(0) == 30 && 30 <= Backoff(attempts) <= 1_800
    ensures attempts >= 6 ==> Backoff(attempts) == 1_800
    ensures attempts < 5 ==> Backoff(attempts + 1) == 2 * Backoff(attempts)
  {
    assert Pow2(0) == 1 && Pow2(1) == 2 && Pow2(2) == 4 && Pow2(3) == 8 && Pow2(4) == 16 && Pow2(5) == 32;
    assert Pow2(6) == 64;
  }

  // --------------------------------------------------------------- decisions

  function Deferred(db: Database, batch: StoredBatch, until: int): Change {
    Change(Defer(db, batch.id, until), [], [], Done)
  }

  /** `_handle_413`: a single sample or a batch split three times is sealed, anything else split. */
  function Handle413(c: Config, db: Database, batch: StoredBatch, d: Draw): (Change, Outcome) {
    if |batch.samples| == 1 then
      var ch := QuarantineSample(c, db, batch, d.key, d.now);
      (ch, if ch.verdict.Done? then SampleSealed else Failed(ch.verdict.error))
    else if batch.depth >= MAX_SPLIT_DEPTH then
      var ch := QuarantineBatch(c, db, batch, false, d.now);
      (ch, if ch.verdict.Done? then BatchSealed else Failed(ch.verdict.error))
    else
      var ch := Split(c, db, batch, d.left, d.right, d.now, d.later);
      (ch, if ch.verdict.Done? then SplitInTwo else Failed(ch.verdict.error))
  }

  /** The policy of `dispatch_once` for the answer to `batch`. */
  function Respond(c: Config, db: Database, batch: StoredBatch, reply: Reply, poll: nat, d: Draw): (Change, Outcome) {
    var retry := Deferred(db, batch, d.now + Backoff(batch.attempts) + d.jitter);
    match reply
    case Unreachable => (retry, Retry)
    case Http(code, status, http422) =>
      if code == 200 then
        if status == "" || status == "PROCESSED" then
          (Change(Acknowledge(db, batch.id).0, [], [], Done), Acknowledged)
        else if status == "RECEIVED" || status == "PROCESSING" then (Deferred(db, batch, d.now + poll), Accepted)
        else (Deferred(db, batch, d.now + poll * 2), Retained)
      else if code == 202 then (Deferred(db, batch, d.now + poll), Accepted)
      else if code == 413 then Handle413(c, db, batch, d)
      else if code == 0 || code == 429 || code >= 500 then (retry, Retry)
      else
        var ch := QuarantineBatch(c, db, batch, http422, d.now);
        (ch, if ch.verdict.Done? then BatchSealed else Failed(ch.verdict.error))
  }

  /** A batch leaves the queue undivided exactly on a 200 answer without a status or with PROCESSED, is split
      or sealed only on a refusal, and after any other answer it is still queued, with one attempt more,
      and not due before half a minute or a poll interval has passed. */
  lemma AnswersThatKeep(c: Config, db: Database, i: nat, reply: Reply, poll: nat, d: Draw)
    requires i < |db.queue| && IndexOf(db.queue, db.queue[i].id) == Some(i)
    ensures var row := db.queue[i];
            var (ch, o) := Respond(c, db, Snapshot(row), reply, poll, d);
            && (o.Acknowledged? <==>
                  reply.Http? && reply.code == 200 && (reply.remoteStatus == "" || reply.remoteStatus == "PROCESSED"))
            && (o.SplitInTwo? || o.SampleSealed? || o.BatchSealed? || o.Failed? <==>
                  reply.Http? && reply.code != 0 && reply.code != 200 && reply.code != 202 && reply.code != 429
                  && reply.code < 500)
            && (o.Retry? || o.Accepted? || o.Retained? ==>
                  && |ch.db.queue| == |db.queue| && ch.db == db.(queue := db.queue[i := ch.db.queue[i]])
                  && ch.db.queue[i] == row.(attempts := row.attempts + 1, nextAttempt := ch.db.queue[i].nextAttempt)
                  && d.now + (if poll < 30 then poll else 30) <= ch.db.queue[i].nextAttempt)
            && !o.Empty? && !o.NotFound? && !o.Rejected?
  {
    AnswerKinds(c, db, Snapshot(db.queue[i]), reply, poll, d);
    BackoffSchedule(db.queue[i].attempts);
    DeferredRow(db, i, d.now + Backoff(db.queue[i].attempts) + d.jitter);
    DeferredRow(db, i, d.now + poll);
    DeferredRow(db, i, d.now + poll * 2);
    hide Backoff, Handle413, QuarantineBatch, Acknowledge, IndexOf, Deferred, Without;
  }

  lemma AnswerKinds(c: Config, db: Database, batch: StoredBatch, reply: Reply, poll: nat, d: Draw)
    ensures var o := Respond(c, db, batch, reply, poll, d).1;
            && (o.Acknowledged? <==>
                  reply.Http? && reply.code == 200 && (reply.remoteStatus == "" || reply.remoteStatus == "PROCESSED"))
            && (o.SplitInTwo? || o.SampleSealed? || o.BatchSealed? || o.Failed? <==>
                  reply.Http? && reply.code != 0 && reply.code != 200 && reply.code != 202 && reply.code != 429
                  && reply.code < 500)
            && !o.Empty? && !o.NotFound? && !o.Rejected?
  {
    TooLargeOutcome(c, db, batch, d);
    hide Backoff, Handle413, QuarantineBatch, Acknowledge, Deferred;
  }

  lemma DeferredRow(db: Database, i: nat, until: int)
    requires i < |db.queue| && IndexOf(db.queue, db.queue[i].id) == Some(i)
    ensures var row := db.queue[i];
            Deferred(db, Snapshot(row), until).db
            == db.(queue := db.queue[i := row.(attempts := row.attempts + 1, nextAttempt := until)])
  {
    hide IndexOf;
  }

  /** When a kept batch is due again: after an answer that says it has arrived, a poll interval on, or two if the
      server has trouble with it; otherwise after the backoff for the attempts made before this one. */
  lemma NextDue(c: Config, db: Database, i: nat, reply: Reply, poll: nat, d: Draw)
    requires i < |db.queue| && IndexOf(db.queue, db.queue[i].id) == Some(i)
    ensures var row := db.queue[i];
            var (ch, o) := Respond(c, db, Snapshot(row), reply, poll, d);
            && (reply.Unreachable? || reply.code == 0 || reply.code == 429 || reply.code >= 500 ==>
                  o.Retry? && |ch.db.queue| == |db.queue|
                  && ch.db.queue[i].nextAttempt == d.now + Backoff(row.attempts) + d.jitter)
            && (reply.Http? && (reply.code == 202
                                || (reply.code == 200 && (reply.remoteStatus == "RECEIVED" || reply.remoteStatus == "PROCESSING"))) ==>
                  o.Accepted? && |ch.db.queue| == |db.queue| && ch.db.queue[i].nextAttempt == d.now + poll)
            && (reply.Http? && reply.code == 200 && reply.remoteStatus !in {"", "PROCESSED", "RECEIVED", "PROCESSING"} ==>
                  o.Retained? && |ch.db.queue| == |db.queue| && ch.db.queue[i].nextAttempt == d.now + 2 * poll)
  {
    DeferredRow(db, i, d.now + Backoff(db.queue[i].attempts) + d.jitter);
    DeferredRow(db, i, d.now + poll);
    DeferredRow(db, i, d.now + poll * 2);
    hide Backoff, Handle413, QuarantineBatch, Acknowledge, IndexOf, Deferred, Without;
  }

  /** A refused batch is treated by its size and depth, and the outcome tells whether that worked. */
  lemma RefusedBySize(c: Config, db: Database, batch: StoredBatch, poll: nat, http422: bool, remoteStatus: string, d: Draw)
    ensures var (ch, o) := Respond(c, db, batch, Http(413, remoteStatus, http422), poll, d);
            && (|batch.samples| == 1 ==>
                  ch == QuarantineSample(c, db, batch, d.key, d.now) && (o.SampleSealed? || o.Failed?))
            && (|batch.samples| != 1 && batch.depth >= 3 ==>
                  ch == QuarantineBatch(c, db, batch, false, d.now) && (o.BatchSealed? || o.Failed?))
            && (|batch.samples| != 1 && batch.depth < 3 ==>
                  ch == Split(c, db, batch, d.left, d.right, d.now, d.later) && (o.SplitInTwo? || o.Failed?))
            && (o.Failed? <==> ch.verdict.Raised?) && (o.Failed? ==> o.error == ch.verdict.error)
  {
    hide Split, QuarantineBatch, QuarantineSample;
  }

  /** An answer that ends a batch: an acknowledgement takes its row out and nothing else, and any refusal that is
      neither 413 nor to be retried seals it whole. */
  lemma AnswersThatEnd(c: Config, db: Database, i: nat, reply: Reply, poll: nat, d: Draw)
    requires i < |db.queue| && IndexOf(db.queue, db.queue[i].id) == Some(i)
    ensures var batch := Snapshot(db.queue[i]);
            var (ch, o) := Respond(c, db, batch, reply, poll, d);
            && (o.Acknowledged? ==> ch == Change(db.(queue := db.queue[..i] + db.queue[i + 1..]), [], [], Done))
            && (reply.Http? && reply.code !in {0, 200, 202, 413, 429} && reply.code < 500 ==>
                  ch == QuarantineBatch(c, db, batch, reply.http422, d.now)
                  && o == if ch.verdict.Done? then BatchSealed else Failed(ch.verdict.error))
  {
    AnswerKinds(c, db, Snapshot(db.queue[i]), reply, poll, d);
    hide Backoff, Handle413, QuarantineBatch, IndexOf, Deferred;
  }

  lemma TooLargeOutcome(c: Config, db: Database, batch: StoredBatch, d: Draw)
    ensures var o := Handle413(c, db, batch, d).1; o.SplitInTwo? || o.SampleSealed? || o.BatchSealed? || o.Failed?
  {
    hide Split, QuarantineBatch, QuarantineSample;
  }

  /** A batch kept after an answer does not hold up the others: until its delay is over `next_batch` hands
      out any other batch that is due, and the batch itself not at all. */
  lemma KeptBatchWaits(c: Config, db: Database, i: nat, reply: Reply, poll: nat, d: Draw, at: int)
    requires UniqueIds(db.queue) && i < |db.queue| && IndexOf(db.queue, db.queue[i].id) == Some(i)
    requires var o := Respond(c, db, Snapshot(db.queue[i]), reply, poll, d).1; o.Retry? || o.Accepted? || o.Retained?
    requires at < d.now + if poll < 30 then poll else 30
    ensures var next := NextBatch(Respond(c, db, Snapshot(db.queue[i]), reply, poll, d).0.db, at);
            && (next.Some? ==> next.value.id != db.queue[i].id)
            && (next.None? <==> forall k :: 0 <= k < |db.queue| && k != i ==> !Due(db.queue[k], at))
  {
    AnswersThatKeep(c, db, i, reply, poll, d);
    hide Respond, Backoff, IndexOf, Oldest;
    var queue := Respond(c, db, Snapshot(db.queue[i]), reply, poll, d).0.db.queue;
    assert !Matches(queue[i], DueAt(at));
    OldestIsFirst(queue, DueAt(at));
    match Oldest(queue, DueAt(at))
    case Some(j) =>
      assert j != i && queue[j] == db.queue[j] && Due(db.queue[j], at);
    case None =>
      forall k | 0 <= k < |db.queue| && k != i ensures !Due(db.queue[k], at) {
        assert queue[k] in queue && !Matches(queue[k], DueAt(at));
      }
  }

  /** `dispatch_once`: send the first batch due and act on the answer. */
  function Dispatch(c: Config, db: Database, reply: Reply, poll: nat, d: Draw): (Change, Outcome) {
    match NextBatch(db, d.asked)
    case None => (Change(db, [], [], Done), Empty)
    case Some(batch) => Respond(c, db, batch, reply, poll, d)
  }

  /** The batch acted on is the first that is due when it is asked for; if none is, nothing happens. */
  lemma DispatchServesFirst(c: Config, db: Database, reply: Reply, poll: nat, d: Draw)
    requires Ordered(db.queue)
    ensures (Dispatch(c, db, reply, poll, d) == (Change(db, [], [], Done), Empty)
             && forall r :: r in db.queue ==> r.nextAttempt > d.asked)
            || exists r :: r in db.queue && r.nextAttempt <= d.asked
                           && (forall x :: x in db.queue && x.nextAttempt <= d.asked ==> x == r || Older(r, x))
                           && Dispatch(c, db, reply, poll, d) == Respond(c, db, Snapshot(r), reply, poll, d)
  {
    hide Respond, Oldest;
    OldestIsFirst(db.queue, DueAt(d.asked));
    match Oldest(db.queue, DueAt(d.asked))
    case None =>
      forall r | r in db.queue ensures r.nextAttempt > d.asked {
        assert !Matches(r, DueAt(d.asked));
      }
    case Some(i) =>
      var r := db.queue[i];
      assert Matches(r, DueAt(d.asked));
      forall x | x in db.queue && x.nextAttempt <= d.asked ensures x == r || Older(r, x) {
        assert Matches(x, DueAt(d.asked));
      }
  }

  // ------------------------------------------------------- tallies over rows

  function Tally(rows: seq<Row>, f: Row -> nat): nat {
    if rows == [] then 0 else f(rows[0]) + Tally(rows[1..], f)
  }

  lemma {:induction false} TallyConcat(a: seq<Row>, b: seq<Row>, f: Row -> nat)
    ensures Tally(a + b, f) == Tally(a, f) + Tally(b, f)
  {
    if a == [] {
      assert a + b == b;
    } else {
      assert (a + b)[1..] == a[1..] + b;
      TallyConcat(a[1..], b, f);
    }
  }

  lemma TallyWithout(rows: seq<Row>, i: nat, f: Row -> nat)
    requires i < |rows|
    ensures Tally(rows, f) == Tally(Without(rows, i), f) + f(rows[i])
  {
    var tail := rows[i..];
    assert rows == rows[..i] + tail;
    TallyConcat(rows[..i], tail, f);
    assert tail[1..] == rows[i + 1..];
    TallyConcat(rows[..i], rows[i + 1..], f);
  }

  lemma TallyAppend(rows: seq<Row>, r: Row, f: Row -> nat)
    ensures Tally(rows + [r], f) == Tally(rows, f) + f(r)
  {
    TallyConcat(rows, [r], f);
    assert Tally([r], f) == f(r) + Tally([], f);
  }

  lemma {:induction false} TallySurvivors(rows: seq<Row>, k: nat, f: Row -> nat)
    requires k <= |EvictionOrder(rows)|
    ensures Tally(rows, f) == Tally(Survivors(rows, k), f) + Tally(EvictionOrder(rows)[..k], f)
    decreases k
  {
    if k == 0 {
      assert EvictionOrder(rows)[..0] == [];
    } else {
      EvictionPrefix(rows, k);
      var i := Oldest(rows, Unprotected).value;
      var rest := Without(rows, i);
      TallySurvivors(rest, k - 1, f);
      TallyWithout(rows, i, f);
      assert ([rows[i]] + EvictionOrder(rest)[..k - 1])[1..] == EvictionOrder(rest)[..k - 1];
    }
  }
}

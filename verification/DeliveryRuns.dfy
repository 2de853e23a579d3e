/** Every step of agents, network and server keeps the delivery invariant; what it says about the
    samples once any number of steps has been taken. */
module DeliveryRuns {
  import opened Wrappers
  import opened Telemetry
  import opened QueueTables
  import opened QueueTransactions
  import opened QueueInvariants
  import opened QueueTraces
  import opened DispatchPolicy
  import opened Delivery
  import Dispatcher
  import BL = BatchLedger

  // -------------------------------------------------------------- agent steps

  /** Only PROCESSED and PURGE_LOCAL take a row out. */
  lemma ReconcileTrace(c: Config, db: Database, id: Uuid, status: string, poll: nat, now: int)
    requires Sound(c, db)
    ensures Sound(c, Dispatcher.Reconcile(db, id, status, poll, now))
    ensures Traced(db, Dispatcher.Reconcile(db, id, status, poll, now),
                   if HasId(db.queue, id) && (status == "PROCESSED" || status == "PURGE_LOCAL") then {id} else {}, map[])
  {
    hide Sound, Traced, Defer;
    AcknowledgeSound(c, db, id);
    TraceAcknowledge(db, id);
    TraceNothing(db);
    forall until { DeferSound(c, db, id, until); }
    forall until { TraceDefer(db, id, until); }
  }

  lemma SettleInvariant(n: Net, w: World, d: Uuid, id: Uuid, status: string, now: int)
    requires Invariant(n, w) && d in w.agents && Delivery.Report(d, id, status) in w.messages
    ensures Invariant(n, Settle(n, w, d, id, status, now))
  {
    var db := w.agents[d];
    var v := Settle(n, w, d, id, status, now);
    assert Truthful(n, w, Delivery.Report(d, id, status));
    InvariantSound(n, w, d);
    hide Invariant, Sound, Traced, Dispatcher.Reconcile, Handover, Truthful;
    ReconcileTrace(n.config, db, id, status, n.poll, now);
    if HasId(db.queue, id) && (status == "PROCESSED" || status == "PURGE_LOCAL") {
      QueuedBatch(n, w, d, id);
      SettleOutcomes(n, w, v, d, id, status);
      SettleHandover(n, w, v, d, id);
      HandoverInvariant(n, w, v, d, {id}, map[]);
    } else {
      QuietAgent(n, w, d, v.agents[d]);
    }
  }

  lemma SettleOutcomes(n: Net, w: World, v: World, d: Uuid, id: Uuid, status: string)
    requires Invariant(n, w) && Truthful(n, w, Delivery.Report(d, id, status))
    requires id in w.issued && w.issued[id].device == d
    requires v.issued == w.issued && v.ledger == w.ledger
    requires (status == "PROCESSED" && v.confirmed == w.confirmed + {id} && v.purged == w.purged)
             || (status == "PURGE_LOCAL" && v.confirmed == w.confirmed && v.purged == w.purged + {id})
    ensures Partition(v.issued) && Splits(n, v) && Outcomes(v) && Extends(w.issued, v.issued)
  {
    hide Partition, Queues, Requests, Messages, Registered, Fates;
  }

  lemma SettleHandover(n: Net, w: World, v: World, d: Uuid, id: Uuid)
    requires d in w.agents && d in v.agents && v.agents == w.agents[d := v.agents[d]]
    requires Sound(n.config, v.agents[d]) && Traced(w.agents[d], v.agents[d], {id}, map[])
    requires v.issued == w.issued && Extends(w.issued, v.issued)
    requires w.confirmed <= v.confirmed && w.purged <= v.purged && (id in v.confirmed || id in v.purged)
    ensures Handover(n, w, v, d, {id}, map[])
  {
    hide Sound, Traced;
  }

  lemma ResentInvariant(n: Net, w: World, s: Step)
    requires Invariant(n, w) && s.Resent? && s.device in w.agents
    ensures Invariant(n, Next(n, w, s))
  {
    var db := w.agents[s.device];
    InvariantSound(n, w, s.device);
    hide Invariant, Sound, Traced, Queues, UniqueIds, Dispatcher.Reuploaded;
    ReuploadTrace(n.config, db, s.id, s.reply, n.poll, s.draw);
    QuietAgent(n, w, s.device, Dispatcher.Reuploaded(db, s.id, s.reply, n.poll, s.draw).0);
  }

  /** Whatever a reupload is answered, the store changes quietly. */
  lemma ReuploadTrace(c: Config, db: Database, id: Uuid, reply: Reply, poll: nat, draw: Draw)
    requires Sound(c, db)
    ensures Sound(c, Dispatcher.Reuploaded(db, id, reply, poll, draw).0)
    ensures Traced(db, Dispatcher.Reuploaded(db, id, reply, poll, draw).0, {}, map[])
  {
    hide Sound, Traced, Defer, GetBatch;
    TraceNothing(db);
    forall until { DeferSound(c, db, id, until); }
    forall until { TraceDefer(db, id, until); }
  }

  lemma ExpireInvariant(n: Net, w: World, s: Step)
    requires Invariant(n, w) && s.Expire? && s.device in w.agents
    ensures Invariant(n, Next(n, w, s))
  {
    var db := w.agents[s.device];
    InvariantSound(n, w, s.device);
    hide Invariant, Sound, Traced, Purge, Queues, UniqueIds;
    PurgeSound(n.config, db, s.now);
    TracePurge(db, s.now);
    QuietAgent(n, w, s.device, Next(n, w, s).agents[s.device]);
  }

  // ------------------------------------------------------------ network steps

  lemma RequestAdded(n: Net, w: World, r: Request)
    requires Invariant(n, w)
    requires r.id in w.issued && w.issued[r.id].device == r.device && w.issued[r.id].samples == r.samples
    ensures Invariant(n, w.(requests := w.requests + {r}))
  {
    var v := w.(requests := w.requests + {r});
    assert Queues(n, v) && Fates(v) && Registered(n, v) && Splits(n, v) && Outcomes(v);
    hide Queues, Fates, Registered, Splits, Outcomes, Partition;
    forall m | m in v.messages ensures Truthful(n, v, m) {
      assert Truthful(n, w, m);
    }
  }

  lemma MessageAdded(n: Net, w: World, m: Message)
    requires Invariant(n, w) && Truthful(n, w, m)
    ensures Invariant(n, w.(messages := w.messages + {m}))
  {
    var v := w.(messages := w.messages + {m});
    assert Queues(n, v) && Fates(v) && Registered(n, v) && Splits(n, v) && Outcomes(v) && Requests(v);
    hide Queues, Fates, Registered, Splits, Outcomes, Partition, Requests;
    forall x | x in v.messages ensures Truthful(n, v, x) {
      assert Truthful(n, w, x);
    }
  }

  lemma SendInvariant(n: Net, w: World, s: Step)
    requires Invariant(n, w) && (s.Send? || s.SendAgain?)
    ensures Invariant(n, Next(n, w, s))
  {
    if s.device in w.agents {
      var db := w.agents[s.device];
      assert Queues(n, w);
      hide Invariant;
      if s.Send? && NextBatch(db, s.now).Some? {
        var r := db.queue[Oldest(db.queue, DueAt(s.now)).value];
        assert Live(w.issued, s.device, r);
        RequestAdded(n, w, Request(s.device, r.id, r.samples, false));
      }
      if s.SendAgain? && GetBatch(db, s.id).Some? {
        QueuedBatch(n, w, s.device, s.id);
        RequestAdded(n, w, Request(s.device, s.id, GetBatch(db, s.id).value.samples, s.reupload));
      }
    }
  }

  // ------------------------------------------------------------- server steps

  /** A ledger event that ingests only issued batches. */
  predicate Admissible(n: Net, w: World, e: BL.Event) {
    e.DoIngest? ==>
      && e.id in w.issued && w.issued[e.id].device == e.caller && w.issued[e.id].samples == e.samples
      && !n.tooLarge(e.samples)
  }

  /** What later ledgers keep of earlier ones. */
  ghost predicate Grows(l: BL.Ledger, m: BL.Ledger) {
    && (forall k :: k in l.db.batches ==>
          && k in m.db.batches && m.db.batches[k].digest == l.db.batches[k].digest
          && (l.db.batches[k].status.Processed? || l.db.batches[k].status.DlqExhausted? ==>
                m.db.batches[k] == l.db.batches[k]))
    && (forall id :: id in l.db.decisions && l.db.decisions[id].PurgeLocal? ==>
          id in m.db.decisions && m.db.decisions[id].PurgeLocal?)
  }

  lemma LedgerGrows(l: BL.Ledger, e: BL.Event)
    ensures Grows(l, BL.Next(l, e))
  {
    hide BL.Next;
    BL.Finality(l, e);
  }

  lemma LedgerLegal(n: Net, w: World, e: BL.Event)
    requires Registered(n, w) && Admissible(n, w, e)
    ensures BL.Legal(w.ledger, e)
  {
    hide BL.Invariant;
    if e.DoIngest? {
      forall k | k in w.ledger.db.batches && k.id == e.id ensures k.device == e.caller {
        assert Known(n, w.issued, k, w.ledger.db.batches[k]);
      }
    }
  }

  lemma LedgerAccepted(n: Net, w: World, e: BL.Event)
    requires Registered(n, w) && Admissible(n, w, e)
    ensures Registered(n, w.(ledger := BL.Next(w.ledger, e)))
  {
    var v := w.(ledger := BL.Next(w.ledger, e));
    LedgerLegal(n, w, e);
    LedgerGrows(w.ledger, e);
    BL.NextInvariant(w.ledger, e);
    assert BL.Exclusive(w.ledger);
    hide BL.Next, BL.Invariant, BL.Legal, BL.Exclusive;
    forall k | k in v.ledger.db.batches ensures Known(n, w.issued, k, v.ledger.db.batches[k]) {
      if k in w.ledger.db.batches {
        assert Known(n, w.issued, k, w.ledger.db.batches[k]);
      } else {
        BL.OnlyIngestAdds(w.ledger, e, k);
      }
    }
  }

  /** What messages said and what agents concluded stays true. */
  lemma LedgerKeepsPromises(n: Net, w: World, m: BL.Ledger)
    requires Grows(w.ledger, m)
    ensures Messages(n, w) ==> Messages(n, w.(ledger := m))
    ensures Outcomes(w) ==> Outcomes(w.(ledger := m))
  {
    if Messages(n, w) {
      forall x | x in w.messages ensures Truthful(n, w.(ledger := m), x) {
        assert Truthful(n, w, x);
      }
    }
  }

  lemma LedgerInvariant(n: Net, w: World, e: BL.Event)
    requires Invariant(n, w) && Admissible(n, w, e)
    ensures Invariant(n, w.(ledger := BL.Next(w.ledger, e)))
  {
    var v := w.(ledger := BL.Next(w.ledger, e));
    assert Queues(n, v) && Fates(v) && Splits(n, v) && Requests(v) by {
      hide BL.Next, Registered, Outcomes, Messages, Partition;
    }
    hide BL.Next, Queues, Fates, Splits, Requests, Partition, Registered, Outcomes, Messages, Admissible, Grows;
    LedgerAccepted(n, w, e);
    LedgerGrows(w.ledger, e);
    LedgerKeepsPromises(n, w, v.ledger);
  }

  lemma EndpointInvariant(n: Net, w: World, r: Request)
    requires Invariant(n, w) && r in w.requests
    ensures Invariant(n, Endpoint(n, w, r))
  {
    assert r.id in w.issued && w.issued[r.id].device == r.device && w.issued[r.id].samples == r.samples;
    hide Invariant, BL.Next, BL.Ingest;
    if r.again {
      LedgerInvariant(n, w, BL.DoReupload(r.device, r.device, r.id, BL.Sha256(r.samples), r.samples));
    } else if n.tooLarge(r.samples) {
      MessageAdded(n, w, Answer(r.device, r.id, Http(413, "", false)));
    } else {
      var e := BL.DoIngest(r.device, r.device, r.id, BL.Sha256(r.samples), r.samples);
      LedgerInvariant(n, w, e);
      IngestAnswered(n, w, w.(ledger := BL.Next(w.ledger, e)), r);
    }
  }

  /** The answer to an ingest is none the agent acts on with an acknowledgement or a split. */
  lemma IngestAnswered(n: Net, w: World, next: World, r: Request)
    requires Invariant(n, next) && !r.again && !n.tooLarge(r.samples)
    requires next == w.(ledger := BL.Next(w.ledger, BL.DoIngest(r.device, r.device, r.id, BL.Sha256(r.samples), r.samples)))
    ensures Invariant(n, Endpoint(n, w, r))
  {
    hide Invariant, BL.Next, BL.Ingest;
    var a := BL.Ingest(w.ledger.db, r.device, r.device, r.id, BL.Sha256(r.samples), r.samples).1;
    var reply := if a.Receipt? then Http(202, Text(a.status), false)
                 else if a.InvalidBatch? then Http(422, "", true) else Http(409, "", false);
    MessageAdded(n, next, Answer(r.device, r.id, reply));
  }

  lemma StatementInvariant(n: Net, w: World, key: BL.Key, decision: bool)
    requires Invariant(n, w)
    ensures Invariant(n, Statement(w, key, decision))
  {
    hide Invariant;
    if key in w.ledger.db.batches {
      if !decision {
        MessageAdded(n, w, Delivery.Report(key.device, key.id, Text(w.ledger.db.batches[key].status)));
      } else if PurgeDecided(w.ledger.db, key.device, key.id) {
        MessageAdded(n, w, Delivery.Report(key.device, key.id, "PURGE_LOCAL"));
      }
    }
  }

  // -------------------------------------------------------------- every step

  lemma AnswerInvariant(n: Net, w: World, s: Step)
    requires Invariant(n, w) && Legal(w, s) && (s.Receive? || s.NoAnswer?)
    ensures Invariant(n, Next(n, w, s))
  {
    if s.device in w.agents && GetBatch(w.agents[s.device], s.id).Some? {
      if s.Receive? {
        if Answer(s.device, s.id, s.reply) in w.messages {
          assert Truthful(n, w, Answer(s.device, s.id, s.reply));
          hide Invariant, Act, GetBatch;
          ActInvariant(n, w, s.device, s.id, s.reply, s.draw);
        }
      } else {
        hide Invariant, Act, GetBatch;
        ActInvariant(n, w, s.device, s.id, Unreachable, s.draw);
      }
    }
  }

  /** Every step keeps the invariant. */
  lemma NextInvariant(n: Net, w: World, s: Step)
    requires Invariant(n, w) && Legal(w, s)
    ensures Invariant(n, Next(n, w, s))
  {
    hide Invariant, Act, Settle, Endpoint, Statement, BL.Next, Enqueue, EnqueueTx, Purge, Truthful, GetBatch, NextBatch;
    match s
    case Collect(device, _, _, _, _, _) => if device in w.agents { CollectInvariant(n, w, s); }
    case Send(_, _) => SendInvariant(n, w, s);
    case SendAgain(_, _, _) => SendInvariant(n, w, s);
    case Receive(_, _, _, _) => AnswerInvariant(n, w, s);
    case NoAnswer(_, _, _) => AnswerInvariant(n, w, s);
    case Resent(device, _, _, _) => if device in w.agents { ResentInvariant(n, w, s); }
    case Expire(device, _) => if device in w.agents { ExpireInvariant(n, w, s); }
    case Reconcile(device, id, status, now) =>
      if device in w.agents && Delivery.Report(device, id, status) in w.messages {
        SettleInvariant(n, w, device, id, status, now);
      }
    case Serve(request) => if request in w.requests { EndpointInvariant(n, w, request); }
    case Refuse(request, code, http422) =>
      if request in w.requests {
        RefusalTruthful(n, w, request, code, http422);
        MessageAdded(n, w, Answer(request.device, request.id, Http(code, "", http422)));
      }
    case Tell(key, decision) => StatementInvariant(n, w, key, decision);
    case Operate(event) => LedgerInvariant(n, w, event);
  }

  lemma RefusalTruthful(n: Net, w: World, r: Request, code: int, http422: bool)
    requires code != 413 && !(200 <= code < 300)
    ensures Truthful(n, w, Answer(r.device, r.id, Http(code, "", http422)))
  {
  }

  /** No step forgets a batch id or what was enqueued under it. */
  lemma NothingForgotten(n: Net, w: World, s: Step)
    requires Legal(w, s)
    ensures Extends(w.issued, Next(n, w, s).issued)
  {
    hide Extends, Respond, Enqueue, EnqueueTx, Purge, BL.Next, Endpoint, Settle, Halve, Dispatcher.Reconcile;
    SameExtends(w.issued);
    if s.Collect? {
      MoreExtends(w.issued, s.id, Issue(s.device, s.samples, s.id, 0, false));
    } else if s.Receive? {
      forall b | b in w.issued { HalveExtends(w.issued, b, s.draw.left, s.draw.right); }
    } else {
      UntouchedIssues(n, w, s);
    }
  }

  lemma SameExtends(issued: map<Uuid, Issue>)
    ensures Extends(issued, issued)
  {
  }

  lemma MoreExtends(issued: map<Uuid, Issue>, id: Uuid, b: Issue)
    requires id !in issued
    ensures Extends(issued, issued[id := b])
  {
  }

  /** Only collecting and answers deal with new ids. */
  lemma UntouchedIssues(n: Net, w: World, s: Step)
    requires !s.Collect? && !s.Receive?
    ensures Next(n, w, s).issued == w.issued
  {
  }

  // -------------------------------------------------------------------- runs

  function Run(n: Net, devices: set<Uuid>, steps: seq<Step>): World {
    if steps == [] then Start(devices) else Next(n, Run(n, devices, steps[..|steps| - 1]), steps[|steps| - 1])
  }

  predicate LegalRun(n: Net, devices: set<Uuid>, steps: seq<Step>) {
    steps == [] || (LegalRun(n, devices, steps[..|steps| - 1])
                    && Legal(Run(n, devices, steps[..|steps| - 1]), steps[|steps| - 1]))
  }

  lemma StartInvariant(n: Net, devices: set<Uuid>)
    ensures Invariant(n, Start(devices))
  {
    var w := Start(devices);
    assert Queues(n, w);
    assert Registered(n, w);
    assert Partition(w.issued);
    hide Queues, Registered, Partition;
  }

  lemma {:induction false} RunInvariant(n: Net, devices: set<Uuid>, steps: seq<Step>)
    requires LegalRun(n, devices, steps)
    ensures Invariant(n, Run(n, devices, steps))
  {
    hide Invariant, Next, Legal;
    if steps == [] {
      StartInvariant(n, devices);
    } else {
      RunInvariant(n, devices, steps[..|steps| - 1]);
      NextInvariant(n, Run(n, devices, steps[..|steps| - 1]), steps[|steps| - 1]);
    }
  }

  // ---------------------------------------------------------------- theorems

  /** The stored row holds position `p` of the enqueued batch `root`. */
  predicate At(issued: map<Uuid, Issue>, sk: BL.SampleKey, root: Uuid, p: int) {
    sk.batch in issued && issued[sk.batch].root == root && issued[sk.batch].offset + sk.index == p
  }

  /** No enqueued sample is stored twice, not even under a parent and its split children. */
  ghost predicate StoredOnce(w: World) {
    forall a, b, root, p ::
      a in w.ledger.db.samples && b in w.ledger.db.samples && At(w.issued, a, root, p) && At(w.issued, b, root, p)
      ==> a == b
  }

  /** What is stored is an enqueued sample, of the device that enqueued it. */
  predicate Genuine(w: World, sk: BL.SampleKey)
    requires sk in w.ledger.db.samples
  {
    sk.batch in w.issued
    && var b := w.issued[sk.batch];
       Position(w.issued, b.root, b.offset + sk.index)
       && w.ledger.db.samples[sk] == BL.StoredSample(w.issued[b.root].device, w.issued[b.root].samples[b.offset + sk.index])
  }

  /** An unsplit batch is still queued, named in its agent's audit log, stored in full, or given up by an operator. */
  predicate Traceable(w: World, id: Uuid)
    requires id in w.issued
  {
    var b := w.issued[id];
    && b.device in w.agents
    && (|| HasId(w.agents[b.device].queue, id)
        || Named(w.agents[b.device].audit, id)
        || BL.Stored(w.ledger.db, BL.Key(b.device, id), b.samples)
        || PurgeDecided(w.ledger.db, b.device, id))
  }

  /** The batch that has the position is traceable. */
  predicate Somewhere(w: World, root: Uuid, p: int) {
    exists id :: id in w.issued && Covers(w.issued[id], root, p) && Traceable(w, id)
  }

  /** A row belongs to a batch that was accepted, hence never split. */
  lemma RowOrigin(n: Net, w: World, sk: BL.SampleKey)
    requires Registered(n, w) && Splits(n, w) && sk in w.ledger.db.samples
    ensures sk.batch in w.issued && !w.issued[sk.batch].split
    ensures sk.index < |w.issued[sk.batch].samples|
    ensures w.ledger.db.samples[sk] == BL.StoredSample(w.issued[sk.batch].device, w.issued[sk.batch].samples[sk.index])
    ensures w.issued[sk.batch].samples[sk.index].recordedAt == sk.recordedAt
  {
    assert BL.Materialized(w.ledger.db);
    assert BL.Grounded(w.ledger.db, sk);
    hide BL.Invariant, BL.Materialized;
    var k := BL.Key(w.ledger.db.samples[sk].device, sk.batch);
    assert Known(n, w.issued, k, w.ledger.db.batches[k]);
  }

  lemma RowsAreGenuine(n: Net, w: World, sk: BL.SampleKey)
    requires Invariant(n, w) && sk in w.ledger.db.samples
    ensures Genuine(w, sk)
  {
    PlacedIssues(n, w);
    hide Invariant, Genuine, Placed;
    RowOrigin(n, w, sk);
    hide Registered, Splits;
    PlacedRow(w, sk);
  }

  lemma PlacedRow(w: World, sk: BL.SampleKey)
    requires sk.batch in w.issued && Placed(w.issued, sk.batch)
    requires sk.index < |w.issued[sk.batch].samples| && sk in w.ledger.db.samples
    requires w.ledger.db.samples[sk] == BL.StoredSample(w.issued[sk.batch].device, w.issued[sk.batch].samples[sk.index])
    ensures Genuine(w, sk)
  {
    PlacedSample(w.issued, sk.batch, sk.index);
  }

  lemma PlacedSample(issued: map<Uuid, Issue>, id: Uuid, i: nat)
    requires id in issued && Placed(issued, id) && i < |issued[id].samples|
    ensures var b := issued[id];
            Position(issued, b.root, b.offset + i) && issued[b.root].samples[b.offset + i] == b.samples[i]
  {
    var b := issued[id];
    assert b.samples[i] == issued[b.root].samples[b.offset..b.offset + |b.samples|][i];
  }

  lemma PlacedIssues(n: Net, w: World)
    requires Invariant(n, w)
    ensures Registered(n, w) && Splits(n, w) && forall id :: id in w.issued ==> Placed(w.issued, id)
  {
    hide Placed, Registered, Splits, Queues, Requests, Messages, Fates, Outcomes;
  }

  /** Two rows at one position are in one batch, at one index, hence one row. */
  lemma OneRowAt(n: Net, w: World, a: BL.SampleKey, b: BL.SampleKey, root: Uuid, p: int)
    requires Registered(n, w) && Splits(n, w) && Partition(w.issued)
    requires a in w.ledger.db.samples && b in w.ledger.db.samples
    requires At(w.issued, a, root, p) && At(w.issued, b, root, p)
    ensures a == b
  {
    hide Registered, Splits, Placed, Covered;
    RowOrigin(n, w, a);
    RowOrigin(n, w, b);
    assert Covers(w.issued[a.batch], root, p) && Covers(w.issued[b.batch], root, p);
    hide Covers;
    assert a.batch == b.batch;
  }

  lemma RowsAreDistinct(n: Net, w: World)
    requires Invariant(n, w)
    ensures StoredOnce(w)
  {
    hide Registered, Splits, Partition, At;
    forall a, b, root, p | a in w.ledger.db.samples && b in w.ledger.db.samples
                           && At(w.issued, a, root, p) && At(w.issued, b, root, p)
      ensures a == b
    {
      OneRowAt(n, w, a, b, root, p);
    }
  }

  /** What an agent took for delivered is stored, all of it. */
  lemma ConfirmedIsStored(n: Net, w: World, id: Uuid)
    requires Invariant(n, w) && id in w.confirmed
    ensures id in w.issued && BL.Stored(w.ledger.db, BL.Key(w.issued[id].device, id), w.issued[id].samples)
  {
    var k := BL.Key(w.issued[id].device, id);
    assert Known(n, w.issued, k, w.ledger.db.batches[k]);
    assert BL.Materialized(w.ledger.db);
  }

  lemma EverythingIsTraceable(n: Net, w: World, id: Uuid)
    requires Invariant(n, w) && id in w.issued && !w.issued[id].split
    ensures Traceable(w, id)
  {
    assert Fate(w, id);
    assert Outcomes(w);
    if id in w.confirmed {
      ConfirmedIsStored(n, w, id);
    }
  }

  lemma NothingIsLost(n: Net, w: World, root: Uuid, p: int)
    requires Invariant(n, w) && Position(w.issued, root, p)
    ensures Somewhere(w, root, p)
  {
    assert Covered(w.issued, root, p);
    hide Invariant, Traceable;
    var id :| id in w.issued && Covers(w.issued[id], root, p);
    EverythingIsTraceable(n, w, id);
  }

  /** In every reachable world: whatever is stored was enqueued, once; what the agents took for delivered
      is stored; and every sample enqueued is queued, stored, named in an audit log or given up by an operator. */
  lemma DeliveryIsSafe(n: Net, devices: set<Uuid>, steps: seq<Step>)
    requires LegalRun(n, devices, steps)
    ensures var w := Run(n, devices, steps);
            && StoredOnce(w)
            && (forall sk :: sk in w.ledger.db.samples ==> Genuine(w, sk))
            && (forall id :: id in w.confirmed ==>
                  id in w.issued && BL.Stored(w.ledger.db, BL.Key(w.issued[id].device, id), w.issued[id].samples))
            && (forall root, p :: Position(w.issued, root, p) ==> Somewhere(w, root, p))
  {
    var w := Run(n, devices, steps);
    RunInvariant(n, devices, steps);
    hide Invariant, Run, LegalRun, StoredOnce, Genuine, Somewhere, Position, BL.Stored;
    RowsAreDistinct(n, w);
    forall sk | sk in w.ledger.db.samples { RowsAreGenuine(n, w, sk); }
    forall id | id in w.confirmed
      ensures id in w.issued && BL.Stored(w.ledger.db, BL.Key(w.issued[id].device, id), w.issued[id].samples)
    {
      ConfirmedIsStored(n, w, id);
    }
    forall root, p | Position(w.issued, root, p) { NothingIsLost(n, w, root, p); }
  }

  lemma {:induction false} IdsStay(n: Net, devices: set<Uuid>, steps: seq<Step>, i: nat)
    requires LegalRun(n, devices, steps) && i <= |steps|
    ensures Extends(Run(n, devices, steps[..i]).issued, Run(n, devices, steps).issued)
    decreases |steps|
  {
    hide Next, Legal, Extends;
    if i == |steps| {
      assert steps[..i] == steps;
      SameExtends(Run(n, devices, steps).issued);
    } else {
      var last := |steps| - 1;
      assert steps[..last][..i] == steps[..i];
      IdsStay(n, devices, steps[..last], i);
      NothingForgotten(n, Run(n, devices, steps[..last]), steps[last]);
      ExtendsChain(Run(n, devices, steps[..i]).issued, Run(n, devices, steps[..last]).issued, Run(n, devices, steps).issued);
    }
  }

  lemma ExtendsChain(a: map<Uuid, Issue>, b: map<Uuid, Issue>, c: map<Uuid, Issue>)
    requires Extends(a, b) && Extends(b, c)
    ensures Extends(a, c)
  {
  }

  /** The step commits the INSERT of a collected batch. */
  predicate Commits(n: Net, w: World, s: Step) {
    s.Collect? && s.device in w.agents
    && EnqueueTx(n.config, w.agents[s.device], s.id, None, s.samples, 0, s.critical, s.now).verdict.Done?
  }

  lemma CommitIssues(n: Net, w: World, s: Step)
    requires Commits(n, w, s)
    ensures s.id in Next(n, w, s).issued && Next(n, w, s).issued[s.id] == Issue(s.device, s.samples, s.id, 0, false)
  {
    hide Enqueue, EnqueueTx;
  }

  /** The fate of one enqueued sample, ever after: it is somewhere, and rows stored for it hold it. */
  lemma EveryEnqueuedSample(n: Net, devices: set<Uuid>, steps: seq<Step>, i: nat, p: nat)
    requires LegalRun(n, devices, steps) && i < |steps|
    requires Commits(n, Run(n, devices, steps[..i]), steps[i]) && p < |steps[i].samples|
    ensures var w := Run(n, devices, steps);
            && Somewhere(w, steps[i].id, p)
            && forall sk :: sk in w.ledger.db.samples && At(w.issued, sk, steps[i].id, p) ==>
                              w.ledger.db.samples[sk] == BL.StoredSample(steps[i].device, steps[i].samples[p])
  {
    var w := Run(n, devices, steps);
    RunOneMore(n, devices, steps, i);
    IdsStay(n, devices, steps, i + 1);
    RunInvariant(n, devices, steps);
    hide Run, Next, LegalRun, Invariant, Somewhere, At;
    CommitIssues(n, Run(n, devices, steps[..i]), steps[i]);
    hide Commits;
    assert w.issued[steps[i].id].samples == steps[i].samples && w.issued[steps[i].id].device == steps[i].device;
    SampleFate(n, w, steps[i].id, p);
  }

  lemma RunOneMore(n: Net, devices: set<Uuid>, steps: seq<Step>, i: nat)
    requires i < |steps|
    ensures Run(n, devices, steps[..i + 1]) == Next(n, Run(n, devices, steps[..i]), steps[i])
  {
    assert steps[..i + 1][..i] == steps[..i];
    hide Next;
  }

  lemma SampleFate(n: Net, w: World, root: Uuid, p: nat)
    requires Invariant(n, w) && root in w.issued && w.issued[root].root == root && p < |w.issued[root].samples|
    ensures Somewhere(w, root, p)
    ensures forall sk :: sk in w.ledger.db.samples && At(w.issued, sk, root, p) ==>
                           w.ledger.db.samples[sk] == BL.StoredSample(w.issued[root].device, w.issued[root].samples[p])
  {
    hide Invariant, Somewhere;
    NothingIsLost(n, w, root, p);
    forall sk | sk in w.ledger.db.samples && At(w.issued, sk, root, p)
      ensures w.ledger.db.samples[sk] == BL.StoredSample(w.issued[root].device, w.issued[root].samples[p])
    {
      RowsAreGenuine(n, w, sk);
    }
  }

  // ------------------------------------------------------- what the agents do

  /** What is sent: the batch due first, or, again, one that is still queued. */
  lemma WhatIsRequested(n: Net, w: World, s: Step, r: Request)
    ensures r in Next(n, w, s).requests <==>
              || r in w.requests
              || (s.Send? && s.device in w.agents
                  && var b := NextBatch(w.agents[s.device], s.now); b.Some? && r == Request(s.device, b.value.id, b.value.samples, false))
              || (s.SendAgain? && s.device in w.agents
                  && var b := GetBatch(w.agents[s.device], s.id); b.Some? && r == Request(s.device, s.id, b.value.samples, s.reupload))
  {
    hide BL.Next, BL.Ingest, Respond, Dispatcher.Reconcile, Dispatcher.Reuploaded, Enqueue, EnqueueTx, Purge, Halve, GetBatch, NextBatch;
  }

  /** When an agent takes a batch for stored: on a report of PROCESSED for a batch it queues, or on an answer of 200
      that says so or says nothing. */
  lemma WhyConfirmed(n: Net, w: World, s: Step, id: Uuid)
    ensures id in Next(n, w, s).confirmed <==>
              || id in w.confirmed
              || (s.Reconcile? && s.id == id && s.status == "PROCESSED" && s.device in w.agents
                  && Delivery.Report(s.device, id, s.status) in w.messages && HasId(w.agents[s.device].queue, id))
              || (s.Receive? && s.id == id && s.device in w.agents && Answer(s.device, id, s.reply) in w.messages
                  && GetBatch(w.agents[s.device], id).Some?
                  && s.reply.Http? && s.reply.code == 200 && (s.reply.remoteStatus == "" || s.reply.remoteStatus == "PROCESSED"))
  {
    if (s.Receive? || s.NoAnswer?) && s.device in w.agents && GetBatch(w.agents[s.device], s.id).Some? {
      var batch := GetBatch(w.agents[s.device], s.id).value;
      AnswerKinds(n.config, w.agents[s.device], batch, if s.Receive? then s.reply else Unreachable, n.poll, s.draw);
      assert batch.id == s.id;
    }
    hide BL.Next, BL.Ingest, Respond, Dispatcher.Reconcile, Dispatcher.Reuploaded, Enqueue, EnqueueTx, Purge, Halve, GetBatch, NextBatch;
  }

  /** When it gives one up: on a report of PURGE_LOCAL for a batch it queues. */
  lemma WhyPurged(n: Net, w: World, s: Step, id: Uuid)
    ensures id in Next(n, w, s).purged <==>
              || id in w.purged
              || (s.Reconcile? && s.id == id && s.status == "PURGE_LOCAL" && s.device in w.agents
                  && Delivery.Report(s.device, id, s.status) in w.messages && HasId(w.agents[s.device].queue, id))
  {
    hide BL.Next, BL.Ingest, Respond, Dispatcher.Reconcile, Dispatcher.Reuploaded, Enqueue, EnqueueTx, Purge, Halve, GetBatch, NextBatch;
  }

  /** The store of an agent changes by the call its step makes, and no other agent's store does. */
  lemma WhatAgentsDo(n: Net, w: World, s: Step, d: Uuid)
    requires d in w.agents
    ensures d in Next(n, w, s).agents
    ensures var db, after := w.agents[d], Next(n, w, s).agents[d];
            && (s.Collect? && s.device == d ==>
                  after == Enqueue(n.config, db, s.id, None, s.samples, 0, s.critical, s.now, s.sizes).db)
            && (s.Receive? && s.device == d && Answer(d, s.id, s.reply) in w.messages && GetBatch(db, s.id).Some? ==>
                  after == Respond(n.config, db, GetBatch(db, s.id).value, s.reply, n.poll, s.draw).0.db)
            && (s.NoAnswer? && s.device == d && GetBatch(db, s.id).Some? ==>
                  after == Respond(n.config, db, GetBatch(db, s.id).value, Unreachable, n.poll, s.draw).0.db)
            && (s.Resent? && s.device == d ==> after == Dispatcher.Reuploaded(db, s.id, s.reply, n.poll, s.draw).0)
            && (s.Reconcile? && s.device == d && Delivery.Report(d, s.id, s.status) in w.messages ==>
                  after == Dispatcher.Reconcile(db, s.id, s.status, n.poll, s.now))
            && (s.Expire? && s.device == d ==> after == Purge(db, s.now).db)
            && (s.Send? || s.SendAgain? || s.Serve? || s.Refuse? || s.Tell? || s.Operate? || s.device != d ==> after == db)
  {
    hide BL.Next, BL.Ingest, Respond, Dispatcher.Reconcile, Dispatcher.Reuploaded, Enqueue, EnqueueTx, Purge, Halve, GetBatch, NextBatch;
  }

  // ------------------------------------------------------- what the server says

  /** 202 is answered exactly when the batch is recorded with the samples sent from then on; 413 exactly to what is
      too large, and nothing is recorded then; the rest is refused for its form or for another batch of that id. */
  lemma EndpointSays(n: Net, w: World, r: Request)
    requires !r.again
    ensures var v := Endpoint(n, w, r);
            var k := BL.Key(r.device, r.id);
            exists reply :: v.messages == w.messages + {Answer(r.device, r.id, reply)} && reply.Http?
              && (reply.code == 413 <==> n.tooLarge(r.samples))
              && (reply.code == 413 ==> v.ledger == w.ledger)
              && (reply.code == 202 <==>
                    && !n.tooLarge(r.samples) && 1 <= |r.samples| <= 2_000
                    && k in v.ledger.db.batches && v.ledger.db.batches[k].digest.content == r.samples)
              && (reply.code == 422 <==> !n.tooLarge(r.samples) && !(1 <= |r.samples| <= 2_000))
              && reply.code in {202, 409, 413, 422}
  {
    BL.IngestAnswers(w.ledger.db, r.device, r.device, r.id, BL.Sha256(r.samples), r.samples);
    var a := BL.Ingest(w.ledger.db, r.device, r.device, r.id, BL.Sha256(r.samples), r.samples).1;
    var reply := if n.tooLarge(r.samples) then Http(413, "", false)
                 else if a.Receipt? then Http(202, Text(a.status), false)
                 else if a.InvalidBatch? then Http(422, "", true) else Http(409, "", false);
    hide BL.Ingest, Text;
    assert Endpoint(n, w, r).messages == w.messages + {Answer(r.device, r.id, reply)};
  }

  /** A status report names the status of the batch, and PURGE_LOCAL is reported exactly when it is decided. */
  lemma StatementSays(w: World, k: BL.Key)
    requires k in w.ledger.db.batches
    ensures var status := w.ledger.db.batches[k].status;
            && (status.Received? ==> Statement(w, k, false).messages == w.messages + {Report(k.device, k.id, "RECEIVED")})
            && (status.Processing? ==> Statement(w, k, false).messages == w.messages + {Report(k.device, k.id, "PROCESSING")})
            && (status.Processed? ==> Statement(w, k, false).messages == w.messages + {Report(k.device, k.id, "PROCESSED")})
            && (status.Dlq? ==> Statement(w, k, false).messages == w.messages + {Report(k.device, k.id, "DLQ")})
            && (status.AwaitingReupload? ==>
                  Statement(w, k, false).messages == w.messages + {Report(k.device, k.id, "AWAITING_REUPLOAD")})
            && (status.DlqExhausted? ==>
                  Statement(w, k, false).messages == w.messages + {Report(k.device, k.id, "DLQ_EXHAUSTED")})
            && Statement(w, k, true).messages
               == w.messages + if PurgeDecided(w.ledger.db, k.device, k.id) then {Report(k.device, k.id, "PURGE_LOCAL")} else {}
  {
  }

  // ------------------------------------------------------------- why purged

  /** An operator decides that devices may purge their copies of this batch id. */
  predicate DecidesPurge(s: Step, id: Uuid) {
    s.Operate? && s.event.DoDecide? && s.event.key.id == id && s.event.action.PurgeLocal?
  }

  /** Only such a step brings a purge decision about. */
  lemma PurgeDecisionHasStep(n: Net, w: World, s: Step, id: Uuid)
    requires Legal(w, s) && id in Next(n, w, s).ledger.db.decisions && Next(n, w, s).ledger.db.decisions[id].PurgeLocal?
    ensures (id in w.ledger.db.decisions && w.ledger.db.decisions[id].PurgeLocal?) || DecidesPurge(s, id)
  {
    var m := Next(n, w, s).ledger;
    LedgerStep(n, w, s);
    hide Next, BL.Next;
    if m != w.ledger {
      var e :| m == BL.Next(w.ledger, e) && (e.DoIngest? || e.DoReupload? || s == Operate(e));
      if !(id in w.ledger.db.decisions && w.ledger.db.decisions[id].PurgeLocal?) {
        BL.DecisionChanges(w.ledger, e, id);
      }
    }
  }

  /** A step leaves the ledger alone, or serves a request, or is an operator's or worker's event. */
  lemma LedgerStep(n: Net, w: World, s: Step)
    ensures Next(n, w, s).ledger == w.ledger
            || exists e :: Next(n, w, s).ledger == BL.Next(w.ledger, e) && (e.DoIngest? || e.DoReupload? || s == Operate(e))
  {
    hide BL.Next, BL.Ingest, Respond, Dispatcher.Reconcile, Enqueue, EnqueueTx, Purge, Halve, GetBatch, NextBatch;
    if s.Serve? && s.request in w.requests {
      var r := s.request;
      if r.again {
        var e := BL.DoReupload(r.device, r.device, r.id, BL.Sha256(r.samples), r.samples);
        assert Next(n, w, s).ledger == BL.Next(w.ledger, e);
      } else if !n.tooLarge(r.samples) {
        var e := BL.DoIngest(r.device, r.device, r.id, BL.Sha256(r.samples), r.samples);
        assert Next(n, w, s).ledger == BL.Next(w.ledger, e);
      }
    } else if s.Operate? {
      assert Next(n, w, s).ledger == BL.Next(w.ledger, s.event);
    }
  }

  lemma {:induction false} PurgeDecisionsHaveSteps(n: Net, devices: set<Uuid>, steps: seq<Step>, id: Uuid)
    requires LegalRun(n, devices, steps)
    requires id in Run(n, devices, steps).ledger.db.decisions && Run(n, devices, steps).ledger.db.decisions[id].PurgeLocal?
    ensures exists i :: 0 <= i < |steps| && DecidesPurge(steps[i], id)
  {
    hide Next, Legal, DecidesPurge;
    var last := |steps| - 1;
    if steps != [] {
      PurgeDecisionHasStep(n, Run(n, devices, steps[..last]), steps[last], id);
      if !DecidesPurge(steps[last], id) {
        PurgeDecisionsHaveSteps(n, devices, steps[..last], id);
        var i :| 0 <= i < last && DecidesPurge(steps[..last][i], id);
        assert steps[i] == steps[..last][i];
      }
    }
  }

  /** No agent ever gives up a batch, and no batch counts as given up, unless an operator decided so in this run. */
  lemma PurgedByOperator(n: Net, devices: set<Uuid>, steps: seq<Step>, id: Uuid)
    requires LegalRun(n, devices, steps)
    requires var w := Run(n, devices, steps);
             id in w.purged || (id in w.issued && PurgeDecided(w.ledger.db, w.issued[id].device, id))
    ensures exists i :: 0 <= i < |steps| && DecidesPurge(steps[i], id)
  {
    RunInvariant(n, devices, steps);
    assert Outcomes(Run(n, devices, steps));
    hide Run, LegalRun, Invariant;
    PurgeDecisionsHaveSteps(n, devices, steps, id);
  }

  // -------------------------------------------------------------- a delivery

  /** One sample on its way: collected, sent, served, claimed, stored, reported, reconciled. */
  function Way(device: Uuid, id: Uuid, s: Sample): seq<Step> {
    [Collect(device, id, [s], false, 0, []), Send(device, 0), Serve(Request(device, id, [s], false)),
     Operate(BL.DoClaim(0, BL.Key(device, id))), Operate(BL.DoStore(0, false)),
     Tell(BL.Key(device, id), false), Reconcile(device, id, "PROCESSED", 0)]
  }

  /** The queue after the collection. */
  function OneRow(n: Net, id: Uuid, s: Sample): Database {
    Database([Row(1, id, None, [s], n.config.packed([s]), false, 0, 0, 0, 0)], [], [], [])
  }

  lemma FirstCollected(n: Net, device: Uuid, id: Uuid, s: Sample)
    requires n.config.packed([s]) <= n.config.maxQueue
    ensures EnqueueTx(n.config, EMPTY, id, None, [s], 0, false, 0).verdict.Done?
    ensures Enqueue(n.config, EMPTY, id, None, [s], 0, false, 0, []).db == OneRow(n, id, s)
    ensures NextBatch(OneRow(n, id, s), 0) == Some(Snapshot(OneRow(n, id, s).queue[0]))
    ensures Acknowledge(OneRow(n, id, s), id).0 == EMPTY && HasId(OneRow(n, id, s).queue, id)
  {
    var row := OneRow(n, id, s).queue[0];
    assert EMPTY.queue + [row] == [row];
    assert [row][..0] == [] && Oldest([], DueAt(0)).None?;
    assert OneRow(n, id, s).queue[0].id == id;
    assert [row][..0] + [row][1..] == [];
  }

  lemma RunSeven(n: Net, devices: set<Uuid>, a: Step, b: Step, c: Step, d: Step, e: Step, f: Step, g: Step)
    ensures Run(n, devices, [a, b, c, d, e, f, g])
            == Next(n, Next(n, Next(n, Next(n, Next(n, Next(n, Next(n, Start(devices), a), b), c), d), e), f), g)
  {
    hide Next, Start;
    assert [a, b, c, d, e, f, g][..6] == [a, b, c, d, e, f];
    assert [a, b, c, d, e, f][..5] == [a, b, c, d, e];
    assert [a, b, c, d, e][..4] == [a, b, c, d];
    assert [a, b, c, d][..3] == [a, b, c];
    assert [a, b, c][..2] == [a, b];
    assert [a, b][..1] == [a];
    assert [a][..0] == [];
    assert Run(n, devices, [a]) == Next(n, Run(n, devices, []), a);
    assert Run(n, devices, [a, b]) == Next(n, Run(n, devices, [a]), b);
    assert Run(n, devices, [a, b, c]) == Next(n, Run(n, devices, [a, b]), c);
    assert Run(n, devices, [a, b, c, d]) == Next(n, Run(n, devices, [a, b, c]), d);
    assert Run(n, devices, [a, b, c, d, e]) == Next(n, Run(n, devices, [a, b, c, d]), e);
    assert Run(n, devices, [a, b, c, d, e, f]) == Next(n, Run(n, devices, [a, b, c, d, e]), f);
  }

  lemma {:induction false} WayIsLegal(n: Net, device: Uuid, id: Uuid, s: Sample, k: nat)
    requires k <= 7
    ensures LegalRun(n, {device}, Way(device, id, s)[..k])
  {
    hide Run, Next;
    if k > 0 {
      var way := Way(device, id, s);
      WayIsLegal(n, device, id, s, k - 1);
      assert way[..k][..k - 1] == way[..k - 1];
      if k == 1 {
        assert Run(n, {device}, way[..0]) == Start({device}) by { StartRun(n, device); }
      }
    }
  }

  lemma StartRun(n: Net, device: Uuid)
    ensures Run(n, {device}, []) == Start({device})
  {
  }

  lemma WayCollected(n: Net, device: Uuid, id: Uuid, s: Sample)
    requires n.config.packed([s]) <= n.config.maxQueue
    ensures var w := Next(n, Start({device}), Collect(device, id, [s], false, 0, []));
            && w.agents == map[device := OneRow(n, id, s)] && w.requests == {}
            && w.ledger == BL.NEW && w.messages == {} && w.confirmed == {}
  {
    hide EnqueueTx, Enqueue, NextBatch, OneRow;
    FirstCollected(n, device, id, s);
    var w := Start({device});
    assert w.agents == map[device := EMPTY];
    assert w.agents[device := OneRow(n, id, s)] == map[device := OneRow(n, id, s)];
  }

  lemma BatchSent(n: Net, w: World, device: Uuid, b: StoredBatch)
    requires device in w.agents && NextBatch(w.agents[device], 0) == Some(b)
    ensures Next(n, w, Send(device, 0)) == w.(requests := w.requests + {Request(device, b.id, b.samples, false)})
  {
    hide NextBatch;
  }

  /** The agent's half: one row queued, one request sent. */
  lemma WaySent(n: Net, device: Uuid, id: Uuid, s: Sample)
    requires n.config.packed([s]) <= n.config.maxQueue
    ensures var w := Next(n, Next(n, Start({device}), Collect(device, id, [s], false, 0, [])), Send(device, 0));
            && w.agents == map[device := OneRow(n, id, s)] && w.requests == {Request(device, id, [s], false)}
            && w.ledger == BL.NEW && w.messages == {} && w.confirmed == {}
  {
    hide Next, EnqueueTx, Enqueue, NextBatch, OneRow;
    WayCollected(n, device, id, s);
    FirstCollected(n, device, id, s);
    Served(n, id, s);
    BatchSent(n, Next(n, Start({device}), Collect(device, id, [s], false, 0, [])), device,
              Snapshot(OneRow(n, id, s).queue[0]));
  }

  lemma RequestIngested(n: Net, w: World, r: Request)
    requires r in w.requests && !r.again && !n.tooLarge(r.samples)
    ensures var v := Next(n, w, Serve(r));
            && v.agents == w.agents && v.confirmed == w.confirmed
            && v.ledger == BL.Next(w.ledger, BL.DoIngest(r.device, r.device, r.id, BL.Sha256(r.samples), r.samples))
  {
    hide BL.Next, BL.Ingest;
  }

  /** The server's half: the batch ingested, claimed and stored. */
  lemma WayProcessed(n: Net, w: World, device: Uuid, id: Uuid, s: Sample)
    requires w.requests == {Request(device, id, [s], false)} && w.ledger == BL.NEW && !n.tooLarge([s])
    ensures var v := Next(n, Next(n, Next(n, w, Serve(Request(device, id, [s], false))),
                                  Operate(BL.DoClaim(0, BL.Key(device, id)))), Operate(BL.DoStore(0, false)));
            && v.agents == w.agents && v.confirmed == w.confirmed
            && BL.Key(device, id) in v.ledger.db.batches && v.ledger.db.batches[BL.Key(device, id)].status == BL.Processed
            && BL.SampleKey(id, 0, s.recordedAt) in v.ledger.db.samples
  {
    hide BL.Next, Next;
    BL.OneProcessed(BL.NEW, device, id, s);
    RequestIngested(n, w, Request(device, id, [s], false));
    OperatedTwice(n, Next(n, w, Serve(Request(device, id, [s], false))), BL.DoClaim(0, BL.Key(device, id)),
                  BL.DoStore(0, false));
  }

  lemma OperatedTwice(n: Net, w: World, e: BL.Event, f: BL.Event)
    ensures Next(n, Next(n, w, Operate(e)), Operate(f)) == w.(ledger := BL.Next(BL.Next(w.ledger, e), f))
  {
    hide BL.Next;
  }

  /** The run is legal, and with nothing in the way the sample is stored, the agent knows, and its queue is empty again. */
  lemma DeliveryHappens(n: Net, device: Uuid, id: Uuid, s: Sample)
    requires n.config.packed([s]) <= n.config.maxQueue && !n.tooLarge([s])
    ensures LegalRun(n, {device}, Way(device, id, s))
    ensures var w := Run(n, {device}, Way(device, id, s));
            && w.confirmed == {id} && w.agents == map[device := EMPTY]
            && BL.SampleKey(id, 0, s.recordedAt) in w.ledger.db.samples
  {
    var way := Way(device, id, s);
    assert way[..7] == way;
    WayIsLegal(n, device, id, s, 7);
    RunSeven(n, {device}, way[0], way[1], way[2], way[3], way[4], way[5], way[6]);
    WaySent(n, device, id, s);
    var w2 := Next(n, Next(n, Start({device}), way[0]), way[1]);
    WayProcessed(n, w2, device, id, s);
    var w5 := Next(n, Next(n, Next(n, w2, way[2]), way[3]), way[4]);
    hide Run, LegalRun, Next;
    ProcessedTold(n, w5, device, id);
    WayConfirmed(n, w5.(messages := w5.messages + {Delivery.Report(device, id, "PROCESSED")}), device, id, s);
  }

  lemma ProcessedTold(n: Net, w: World, device: Uuid, id: Uuid)
    requires BL.Key(device, id) in w.ledger.db.batches && w.ledger.db.batches[BL.Key(device, id)].status == BL.Processed
    ensures Next(n, w, Tell(BL.Key(device, id), false))
            == w.(messages := w.messages + {Delivery.Report(device, id, "PROCESSED")})
  {
  }

  lemma ProcessedSettled(n: Net, w: World, device: Uuid, id: Uuid)
    requires device in w.agents && HasId(w.agents[device].queue, id)
    requires Delivery.Report(device, id, "PROCESSED") in w.messages
    ensures Next(n, w, Reconcile(device, id, "PROCESSED", 0))
            == w.(agents := w.agents[device := Acknowledge(w.agents[device], id).0], confirmed := w.confirmed + {id})
  {
    hide Acknowledge, HasId, Defer;
  }

  lemma WayConfirmed(n: Net, w: World, device: Uuid, id: Uuid, s: Sample)
    requires n.config.packed([s]) <= n.config.maxQueue
    requires w.agents == map[device := OneRow(n, id, s)] && w.confirmed == {}
    requires Delivery.Report(device, id, "PROCESSED") in w.messages
    ensures var v := Next(n, w, Reconcile(device, id, "PROCESSED", 0));
            v.confirmed == {id} && v.agents == map[device := EMPTY] && v.ledger == w.ledger
  {
    hide Next, EnqueueTx, Enqueue, NextBatch, OneRow, Acknowledge, HasId;
    FirstCollected(n, device, id, s);
    ProcessedSettled(n, w, device, id);
  }

  lemma Served(n: Net, id: Uuid, s: Sample)
    ensures var b := Snapshot(OneRow(n, id, s).queue[0]);
            b.id == id && b.samples == [s]
  {
  }
}

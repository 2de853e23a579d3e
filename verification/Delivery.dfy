/** End to end: agents, a network that loses, repeats and delays everything, and the server with its
    workers. Messages are never taken out of the network, so any of them may arrive at any time, any
    number of times, or not at all. An agent crash is no step of its own: everything an agent knows
    between steps is in its store. */
module Delivery {
  import opened Wrappers
  import opened Telemetry
  import opened QueueTables
  import opened QueueTransactions
  import opened QueueInvariants
  import opened QueueTraces
  import opened DispatchPolicy
  import Dispatcher
  import BL = BatchLedger

  /** What the world is built on: the agents' configuration, and which bodies the server refuses with
      413, a matter of the body alone. */
  datatype Net = Net(config: Config, tooLarge: seq<Sample> -> bool, poll: nat)

  /** A batch id ever given out: who queued it, with what, and where in which enqueued batch its samples
      were. `split` means its two halves have taken its place. */
  datatype Issue = Issue(device: Uuid, samples: seq<Sample>, root: Uuid, offset: nat, split: bool)

  datatype Request = Request(device: Uuid, id: Uuid, samples: seq<Sample>, again: bool)

  datatype Message =
    | Answer(device: Uuid, id: Uuid, reply: Reply)
    | Report(device: Uuid, id: Uuid, status: string)

  datatype World = World(
    agents: map<Uuid, Database>, issued: map<Uuid, Issue>, ledger: BL.Ledger,
    requests: set<Request>, messages: set<Message>, confirmed: set<Uuid>, purged: set<Uuid>)

  datatype Step =
    | Collect(device: Uuid, id: Uuid, samples: seq<Sample>, critical: bool, now: int, sizes: seq<nat>)
    | Send(device: Uuid, now: int)
    /** To the reupload endpoint if the sender knows it, otherwise to the ingest endpoint. */
    | SendAgain(device: Uuid, id: Uuid, reupload: bool)
    | Receive(device: Uuid, id: Uuid, reply: Reply, draw: Draw)
    | NoAnswer(device: Uuid, id: Uuid, draw: Draw)
    | Resent(device: Uuid, id: Uuid, reply: Reply, draw: Draw)
    | Reconcile(device: Uuid, id: Uuid, status: string, now: int)
    | Expire(device: Uuid, now: int)
    | Serve(request: Request)
    | Refuse(request: Request, code: int, http422: bool)
    | Tell(key: BL.Key, decision: bool)
    | Operate(event: BL.Event)

  function Text(s: BL.Status): string {
    match s
    case Received => "RECEIVED"
    case Processing => "PROCESSING"
    case Processed => "PROCESSED"
    case Dlq => "DLQ"
    case AwaitingReupload => "AWAITING_REUPLOAD"
    case DlqExhausted => "DLQ_EXHAUSTED"
  }

  function Start(devices: set<Uuid>): World {
    World(map d | d in devices :: EMPTY, map[], BL.NEW, {}, {}, {}, {})
  }

  // ------------------------------------------------------------------- steps

  /** The halves take the place of a split batch. */
  function Halve(issued: map<Uuid, Issue>, id: Uuid, left: Uuid, right: Uuid): map<Uuid, Issue>
    requires id in issued
  {
    var b := issued[id];
    var mid := |b.samples| / 2;
    issued[id := b.(split := true)]
          [left := Issue(b.device, b.samples[..mid], b.root, b.offset, false)]
          [right := Issue(b.device, b.samples[mid..], b.root, b.offset + mid, false)]
  }

  /** The agent acts on an answer to a batch it still queues. */
  function Act(n: Net, w: World, device: Uuid, batch: StoredBatch, reply: Reply, draw: Draw): World
    requires device in w.agents
  {
    var (ch, o) := Respond(n.config, w.agents[device], batch, reply, n.poll, draw);
    var next := w.(agents := w.agents[device := ch.db]);
    if o.Acknowledged? then next.(confirmed := w.confirmed + {batch.id})
    else if o.SplitInTwo? && batch.id in w.issued then
      next.(issued := Halve(w.issued, batch.id, draw.left, draw.right))
    else next
  }

  function Settle(n: Net, w: World, device: Uuid, id: Uuid, status: string, now: int): World
    requires device in w.agents
  {
    var db := w.agents[device];
    var next := w.(agents := w.agents[device := Dispatcher.Reconcile(db, id, status, n.poll, now)]);
    if !HasId(db.queue, id) then next
    else if status == "PROCESSED" then next.(confirmed := w.confirmed + {id})
    else if status == "PURGE_LOCAL" then next.(purged := w.purged + {id})
    else next
  }

  /** The ingest and reupload endpoints; ingest answers 202 whenever it succeeds. */
  function Endpoint(n: Net, w: World, r: Request): World {
    if r.again then
      w.(ledger := BL.Next(w.ledger, BL.DoReupload(r.device, r.device, r.id, BL.Sha256(r.samples), r.samples)))
    else if n.tooLarge(r.samples) then
      w.(messages := w.messages + {Answer(r.device, r.id, Http(413, "", false))})
    else
      var a := BL.Ingest(w.ledger.db, r.device, r.device, r.id, BL.Sha256(r.samples), r.samples).1;
      var reply := if a.Receipt? then Http(202, Text(a.status), false)
                   else if a.InvalidBatch? then Http(422, "", true) else Http(409, "", false);
      w.(ledger := BL.Next(w.ledger, BL.DoIngest(r.device, r.device, r.id, BL.Sha256(r.samples), r.samples)),
         messages := w.messages + {Answer(r.device, r.id, reply)})
  }

  /** The status endpoint; a purge decision is reported for an exhausted batch only. */
  function Statement(w: World, key: BL.Key, decision: bool): World {
    var db := w.ledger.db;
    if key !in db.batches then w
    else if !decision then w.(messages := w.messages + {Report(key.device, key.id, Text(db.batches[key].status))})
    else if db.batches[key].status.DlqExhausted? && key.id in db.decisions && db.decisions[key.id].PurgeLocal? then
      w.(messages := w.messages + {Report(key.device, key.id, "PURGE_LOCAL")})
    else w
  }

  function Next(n: Net, w: World, s: Step): World {
    match s
    case Collect(device, id, samples, critical, now, sizes) =>
      if device !in w.agents then w
      else
        var db := w.agents[device];
        var next := w.(agents := w.agents[device := Enqueue(n.config, db, id, None, samples, 0, critical, now, sizes).db]);
        if EnqueueTx(n.config, db, id, None, samples, 0, critical, now).verdict.Done? then
          next.(issued := w.issued[id := Issue(device, samples, id, 0, false)])
        else next
    case Send(device, now) =>
      if device in w.agents && NextBatch(w.agents[device], now).Some? then
        var b := NextBatch(w.agents[device], now).value;
        w.(requests := w.requests + {Request(device, b.id, b.samples, false)})
      else w
    case SendAgain(device, id, reupload) =>
      if device in w.agents && GetBatch(w.agents[device], id).Some? then
        w.(requests := w.requests + {Request(device, id, GetBatch(w.agents[device], id).value.samples, reupload)})
      else w
    case Receive(device, id, reply, draw) =>
      if device in w.agents && Answer(device, id, reply) in w.messages && GetBatch(w.agents[device], id).Some? then
        Act(n, w, device, GetBatch(w.agents[device], id).value, reply, draw)
      else w
    case NoAnswer(device, id, draw) =>
      if device in w.agents && GetBatch(w.agents[device], id).Some? then
        Act(n, w, device, GetBatch(w.agents[device], id).value, Unreachable, draw)
      else w
    case Resent(device, id, reply, draw) =>
      if device in w.agents then
        w.(agents := w.agents[device := Dispatcher.Reuploaded(w.agents[device], id, reply, n.poll, draw).0])
      else w
    case Reconcile(device, id, status, now) =>
      if device in w.agents && Report(device, id, status) in w.messages then Settle(n, w, device, id, status, now)
      else w
    case Expire(device, now) =>
      if device in w.agents then w.(agents := w.agents[device := Purge(w.agents[device], now).db]) else w
    case Serve(request) => if request in w.requests then Endpoint(n, w, request) else w
    case Refuse(request, code, http422) =>
      if request in w.requests then
        w.(messages := w.messages + {Answer(request.device, request.id, Http(code, "", http422))})
      else w
    case Tell(key, decision) => Statement(w, key, decision)
    case Operate(event) => w.(ledger := BL.Next(w.ledger, event))
  }

  /** The assumptions: fresh UUIDs never repeat, other refusals are no 2xx and no 413, and ledger
      events that carry a request only come through the endpoints. */
  predicate Legal(w: World, s: Step) {
    match s
    case Collect(_, id, _, _, _, _) => id !in w.issued
    case Receive(_, _, _, draw) => draw.left !in w.issued && draw.right !in w.issued && draw.left != draw.right
    case Refuse(_, code, _) => code != 413 && !(200 <= code < 300)
    case Operate(e) => !e.DoIngest? && !e.DoReupload?
    case _ => true
  }

  // -------------------------------------------------------------- invariant

  /** The issue a queued row stands for. */
  predicate Live(issued: map<Uuid, Issue>, device: Uuid, r: Row) {
    r.id in issued && issued[r.id].device == device && issued[r.id].samples == r.samples && !issued[r.id].split
  }

  predicate Queues(n: Net, w: World) {
    forall d :: d in w.agents ==>
      Sound(n.config, w.agents[d]) && forall r :: r in w.agents[d].queue ==> Live(w.issued, d, r)
  }

  predicate Requests(w: World) {
    forall r :: r in w.requests ==>
      r.id in w.issued && w.issued[r.id].device == r.device && w.issued[r.id].samples == r.samples
  }

  predicate Processed(db: BL.Server, device: Uuid, id: Uuid) {
    var k := BL.Key(device, id);
    k in db.batches && db.batches[k].status.Processed?
  }

  /** The server gave up on the batch for good and an operator decided that the agent may purge it. */
  predicate PurgeDecided(db: BL.Server, device: Uuid, id: Uuid) {
    var k := BL.Key(device, id);
    k in db.batches && db.batches[k].status.DlqExhausted? && id in db.decisions && db.decisions[id].PurgeLocal?
  }

  /** What a message may truthfully say. */
  predicate Truthful(n: Net, w: World, m: Message) {
    match m
    case Answer(device, id, reply) =>
      reply.Http? && reply.code != 200
      && (reply.code == 413 ==> id in w.issued && n.tooLarge(w.issued[id].samples))
    case Report(device, id, status) =>
      (status == "PROCESSED" ==> Processed(w.ledger.db, device, id))
      && (status == "PURGE_LOCAL" ==> PurgeDecided(w.ledger.db, device, id))
  }

  predicate Messages(n: Net, w: World) {
    forall m :: m in w.messages ==> Truthful(n, w, m)
  }

  /** The server knows only issued batches it would accept, with the samples they were issued with. */
  predicate Known(n: Net, issued: map<Uuid, Issue>, k: BL.Key, b: BL.Batch) {
    k.id in issued && issued[k.id].device == k.device && b.digest.content == issued[k.id].samples
    && !n.tooLarge(b.digest.content)
  }

  predicate Registered(n: Net, w: World) {
    && BL.Invariant(w.ledger)
    && forall k :: k in w.ledger.db.batches ==> Known(n, w.issued, k, w.ledger.db.batches[k])
  }

  predicate Splits(n: Net, w: World) {
    forall id :: id in w.issued && w.issued[id].split ==> n.tooLarge(w.issued[id].samples)
  }

  /** A batch's samples are those of its root at its offset, queued by the same device. */
  predicate Placed(issued: map<Uuid, Issue>, id: Uuid)
    requires id in issued
  {
    var b := issued[id];
    && b.root in issued && issued[b.root].root == b.root && issued[b.root].offset == 0
    && issued[b.root].device == b.device
    && b.offset + |b.samples| <= |issued[b.root].samples|
    && b.samples == issued[b.root].samples[b.offset..b.offset + |b.samples|]
  }

  /** Position `p` of the enqueued batch `root` is in this unsplit batch. */
  predicate Covers(b: Issue, root: Uuid, p: int) {
    !b.split && b.root == root && b.offset <= p < b.offset + |b.samples|
  }

  /** A position of an enqueued batch: the identity of one enqueued sample. */
  predicate Position(issued: map<Uuid, Issue>, root: Uuid, p: int) {
    root in issued && issued[root].root == root && 0 <= p < |issued[root].samples|
  }

  predicate Covered(issued: map<Uuid, Issue>, root: Uuid, p: int) {
    exists id :: id in issued && Covers(issued[id], root, p)
  }

  /** Every position of every enqueued batch is in exactly one unsplit batch. */
  ghost predicate Partition(issued: map<Uuid, Issue>) {
    && (forall id :: id in issued ==> Placed(issued, id))
    && (forall i, j, root, p ::
          i in issued && j in issued && Covers(issued[i], root, p) && Covers(issued[j], root, p) ==> i == j)
    && (forall root, p :: Position(issued, root, p) ==> Covered(issued, root, p))
  }

  /** What has become of an unsplit batch. */
  predicate Fate(w: World, id: Uuid)
    requires id in w.issued
  {
    && w.issued[id].device in w.agents
    && (|| w.issued[id].split
        || HasId(w.agents[w.issued[id].device].queue, id)
        || Named(w.agents[w.issued[id].device].audit, id)
        || id in w.confirmed
        || id in w.purged)
  }

  predicate Fates(w: World) {
    forall id :: id in w.issued ==> Fate(w, id)
  }

  predicate Outcomes(w: World) {
    && (forall id :: id in w.confirmed ==> id in w.issued && Processed(w.ledger.db, w.issued[id].device, id))
    && (forall id :: id in w.purged ==> id in w.issued && PurgeDecided(w.ledger.db, w.issued[id].device, id))
  }

  ghost predicate Invariant(n: Net, w: World) {
    Queues(n, w) && Requests(w) && Messages(n, w) && Registered(n, w) && Splits(n, w) && Partition(w.issued)
    && Fates(w) && Outcomes(w)
  }

  // ----------------------------------------------------------- the ids given out

  /** Ids keep what they were issued with; only splitting marks them. */
  ghost predicate Extends(issued: map<Uuid, Issue>, more: map<Uuid, Issue>) {
    forall id :: id in issued ==>
      id in more && more[id] == issued[id].(split := more[id].split) && (issued[id].split ==> more[id].split)
  }

  lemma ExtendsKeeps(n: Net, w: World, more: map<Uuid, Issue>)
    requires Extends(w.issued, more)
    ensures Requests(w) ==> Requests(w.(issued := more))
    ensures Messages(n, w) ==> Messages(n, w.(issued := more))
    ensures Registered(n, w) ==> Registered(n, w.(issued := more))
    ensures Outcomes(w) ==> Outcomes(w.(issued := more))
  {
    if Messages(n, w) {
      forall m | m in w.messages ensures Truthful(n, w.(issued := more), m) {
        assert Truthful(n, w, m);
      }
    }
    if Registered(n, w) {
      forall k | k in w.ledger.db.batches ensures Known(n, more, k, w.ledger.db.batches[k]) {
        assert Known(n, w.issued, k, w.ledger.db.batches[k]);
      }
    }
  }

  lemma PlacedStays(issued: map<Uuid, Issue>, more: map<Uuid, Issue>, id: Uuid)
    requires Extends(issued, more) && id in issued && Placed(issued, id)
    ensures Placed(more, id)
  {
  }

  lemma FreshPlaced(issued: map<Uuid, Issue>, id: Uuid, device: Uuid, samples: seq<Sample>)
    requires (forall b :: b in issued ==> Placed(issued, b)) && id !in issued
    ensures var more := issued[id := Issue(device, samples, id, 0, false)];
            Extends(issued, more) && forall b :: b in more ==> Placed(more, b)
  {
    var more := issued[id := Issue(device, samples, id, 0, false)];
    assert samples == samples[0..0 + |samples|];
    hide Placed;
    forall b | b in more ensures Placed(more, b) {
      if b == id { assert Placed(more, id) by { FreshIsPlaced(issued, id, device, samples); } }
      else { PlacedStays(issued, more, b); }
    }
  }

  lemma FreshIsPlaced(issued: map<Uuid, Issue>, id: Uuid, device: Uuid, samples: seq<Sample>)
    ensures Placed(issued[id := Issue(device, samples, id, 0, false)], id)
  {
    assert samples == samples[0..0 + |samples|];
  }

  /** A freshly enqueued batch is its own root. */
  lemma FreshPartition(issued: map<Uuid, Issue>, id: Uuid, device: Uuid, samples: seq<Sample>)
    requires Partition(issued) && id !in issued
    ensures Partition(issued[id := Issue(device, samples, id, 0, false)])
    ensures Extends(issued, issued[id := Issue(device, samples, id, 0, false)])
  {
    var more := issued[id := Issue(device, samples, id, 0, false)];
    FreshPlaced(issued, id, device, samples);
    assert forall b :: b in issued ==> issued[b].root != id by { FreshRoot(issued, id); }
    hide Placed;
    forall root, p | Position(more, root, p) ensures Covered(more, root, p) {
      if root == id {
        assert Covers(more[id], root, p);
      } else {
        assert Position(issued, root, p);
        var b :| b in issued && Covers(issued[b], root, p);
        assert Covers(more[b], root, p);
      }
    }
  }

  lemma FreshRoot(issued: map<Uuid, Issue>, id: Uuid)
    requires (forall b :: b in issued ==> Placed(issued, b)) && id !in issued
    ensures forall b :: b in issued ==> issued[b].root != id
  {
    forall b | b in issued ensures issued[b].root != id {
      assert Placed(issued, b);
    }
  }

  /** A position is covered after a split by what covered it before, or by the half it falls into. */
  lemma HalveCovers(issued: map<Uuid, Issue>, id: Uuid, left: Uuid, right: Uuid, root: Uuid, p: int)
    requires id in issued && !issued[id].split && left !in issued && right !in issued && left != right
    ensures var more := Halve(issued, id, left, right);
            && (forall b :: b in issued && b != id ==> (Covers(more[b], root, p) <==> Covers(issued[b], root, p)))
            && !Covers(more[id], root, p)
            && (Covers(issued[id], root, p) <==> Covers(more[left], root, p) || Covers(more[right], root, p))
            && !(Covers(more[left], root, p) && Covers(more[right], root, p))
  {
  }

  lemma HalveExtends(issued: map<Uuid, Issue>, id: Uuid, left: Uuid, right: Uuid)
    requires id in issued && left !in issued && right !in issued && left != right
    ensures Extends(issued, Halve(issued, id, left, right))
  {
  }

  /** A slice of a placed batch is placed. */
  lemma SlicePlaced(issued: map<Uuid, Issue>, id: Uuid, part: Uuid, from: nat, to: nat)
    requires id in issued && Placed(issued, id) && part in issued && from <= to <= |issued[id].samples|
    requires issued[part].samples == issued[id].samples[from..to]
    requires issued[part].root == issued[id].root && issued[part].offset == issued[id].offset + from
    requires issued[part].device == issued[id].device
    ensures Placed(issued, part)
  {
    var b := issued[id];
    SliceOfSlice(issued[b.root].samples, b.offset, b.offset + |b.samples|, from, to);
  }

  lemma SliceOfSlice(s: seq<Sample>, lo: nat, hi: nat, from: nat, to: nat)
    requires lo <= hi <= |s| && from <= to <= hi - lo
    ensures s[lo..hi][from..to] == s[lo + from..lo + to]
  {
    var a, b := s[lo..hi][from..to], s[lo + from..lo + to];
    assert |a| == |b| && forall i :: 0 <= i < |a| ==> a[i] == b[i];
  }

  lemma HalvePlaced(issued: map<Uuid, Issue>, id: Uuid, left: Uuid, right: Uuid)
    requires (forall b :: b in issued ==> Placed(issued, b))
    requires id in issued && left !in issued && right !in issued && left != right
    ensures forall b :: b in Halve(issued, id, left, right) ==> Placed(Halve(issued, id, left, right), b)
  {
    var more := Halve(issued, id, left, right);
    var s := issued[id].samples;
    HalveExtends(issued, id, left, right);
    PlacedStays(issued, more, id);
    assert more[id].samples == s && s[..|s| / 2] == s[0..|s| / 2] && s[|s| / 2..] == s[|s| / 2..|s|];
    hide Placed;
    SlicePlaced(more, id, left, 0, |s| / 2);
    SlicePlaced(more, id, right, |s| / 2, |s|);
    forall x | x in more ensures Placed(more, x) {
      if x in issued { PlacedStays(issued, more, x); }
    }
  }

  lemma HalveDisjoint(issued: map<Uuid, Issue>, id: Uuid, left: Uuid, right: Uuid, i: Uuid, j: Uuid, root: Uuid, p: int)
    requires Partition(issued) && id in issued && !issued[id].split
    requires left !in issued && right !in issued && left != right
    requires var more := Halve(issued, id, left, right);
             i in more && j in more && Covers(more[i], root, p) && Covers(more[j], root, p)
    ensures i == j
  {
    var more := Halve(issued, id, left, right);
    HalveCovers(issued, id, left, right, root, p);
    assert forall b :: b in more <==> b in issued || b == left || b == right;
    hide Halve, Covers, Placed;
  }

  /** Halving an unsplit batch keeps every position in exactly one unsplit batch. */
  lemma HalvePartition(issued: map<Uuid, Issue>, id: Uuid, left: Uuid, right: Uuid)
    requires Partition(issued) && id in issued && !issued[id].split
    requires left !in issued && right !in issued && left != right
    ensures Partition(Halve(issued, id, left, right))
  {
    var more := Halve(issued, id, left, right);
    HalvePlaced(issued, id, left, right);
    assert forall b :: b in more <==> b in issued || b == left || b == right;
    hide Halve, Covers, Placed;
    forall i, j, root, p | i in more && j in more && Covers(more[i], root, p) && Covers(more[j], root, p) ensures i == j {
      HalveDisjoint(issued, id, left, right, i, j, root, p);
    }
    forall root, p | Position(more, root, p) ensures Covered(more, root, p) {
      HalveCovers(issued, id, left, right, root, p);
      assert Position(issued, root, p) by { HalvePosition(issued, id, left, right, root, p); }
      var b :| b in issued && Covers(issued[b], root, p);
      if b != id {
        assert Covers(more[b], root, p);
      }
    }
  }

  lemma HalvePosition(issued: map<Uuid, Issue>, id: Uuid, left: Uuid, right: Uuid, root: Uuid, p: int)
    requires (forall b :: b in issued ==> Placed(issued, b))
    requires id in issued && left !in issued && right !in issued && left != right
    requires Position(Halve(issued, id, left, right), root, p)
    ensures Position(issued, root, p)
  {
    assert Placed(issued, id);
  }

  // -------------------------------------------------------------- agent steps

  /** Nothing changed but one agent's store, quietly. */
  lemma QuietAgent(n: Net, w: World, d: Uuid, after: Database)
    requires Invariant(n, w) && d in w.agents
    requires Sound(n.config, after) && Traced(w.agents[d], after, {}, map[])
    ensures Invariant(n, w.(agents := w.agents[d := after]))
  {
    var v := w.(agents := w.agents[d := after]);
    hide Queues, Fates, Traced, Sound;
    AgentQueues(n, w, v, d, {}, map[]);
    AgentFates(n, w, v, d, {}, map[]);
    Unread(n, w, v);
  }

  /** The predicates that do not look at the agents' stores. */
  lemma Unread(n: Net, w: World, v: World)
    requires v.issued == w.issued && v.ledger == w.ledger && v.requests == w.requests && v.messages == w.messages
    ensures Requests(w) ==> Requests(v)
    ensures Messages(n, w) ==> Messages(n, v)
    ensures Registered(n, w) ==> Registered(n, v)
    ensures Splits(n, w) ==> Splits(n, v)
    ensures v.confirmed == w.confirmed && v.purged == w.purged ==> (Outcomes(w) ==> Outcomes(v))
  {
    if Messages(n, w) {
      forall m | m in v.messages ensures Truthful(n, v, m) {
        assert Truthful(n, w, m);
      }
    }
  }

  /** One agent's store changed, traced: new rows are issued, and batches taken out are confirmed,
      purged or split. */
  ghost predicate Handover(n: Net, w: World, v: World, d: Uuid, gone: set<Uuid>, born: map<Uuid, seq<Sample>>) {
    && d in w.agents && d in v.agents && v.agents == w.agents[d := v.agents[d]]
    && Sound(n.config, v.agents[d]) && Traced(w.agents[d], v.agents[d], gone, born)
    && w.confirmed <= v.confirmed && w.purged <= v.purged
    && Extends(w.issued, v.issued)
    && (forall id :: id in v.issued ==> id in w.issued || id in born)
    && (forall id :: id in born ==> id !in w.issued && id in v.issued && v.issued[id].device == d
                                    && v.issued[id].samples == born[id] && !v.issued[id].split)
    && (forall id :: id in gone && id in w.issued ==> id in v.confirmed || id in v.purged || v.issued[id].split)
    && (forall id :: id in w.issued && v.issued[id].split && !w.issued[id].split ==>
          w.issued[id].device == d && !HasId(v.agents[d].queue, id))
  }

  lemma AgentQueues(n: Net, w: World, v: World, d: Uuid, gone: set<Uuid>, born: map<Uuid, seq<Sample>>)
    requires Queues(n, w) && Handover(n, w, v, d, gone, born)
    ensures Queues(n, v)
  {
    RowHasId(v.agents[d].queue);
    hide HasId, Sound, Named;
    forall r | r in v.agents[d].queue ensures Live(v.issued, d, r) {
      if !(r.id in born && born[r.id] == r.samples) {
        var q :| q in w.agents[d].queue && q.id == r.id && q.samples == r.samples;
        assert Live(w.issued, d, q);
      }
    }
    forall e, r | e in w.agents && e != d && r in w.agents[e].queue ensures Live(v.issued, e, r) {
      assert Live(w.issued, e, r);
    }
  }

  lemma AgentFates(n: Net, w: World, v: World, d: Uuid, gone: set<Uuid>, born: map<Uuid, seq<Sample>>)
    requires Fates(w) && Handover(n, w, v, d, gone, born)
    ensures Fates(v)
  {
    NamedStays(w.agents[d].audit, v.agents[d].audit);
    RowHasId(w.agents[d].queue);
    hide Named, HasId, Carries, Sound;
    forall id | id in v.issued ensures Fate(v, id) {
      if id in w.issued {
        assert Fate(w, id);
      }
    }
  }

  /** A handover that leaves the network and the server alone keeps the invariant. */
  lemma HandoverInvariant(n: Net, w: World, v: World, d: Uuid, gone: set<Uuid>, born: map<Uuid, seq<Sample>>)
    requires Invariant(n, w) && Handover(n, w, v, d, gone, born)
    requires v.ledger == w.ledger && v.requests == w.requests && v.messages == w.messages
    requires Partition(v.issued) && Splits(n, v) && Outcomes(v)
    ensures Invariant(n, v)
  {
    AgentQueues(n, w, v, d, gone, born);
    AgentFates(n, w, v, d, gone, born);
    assert Extends(w.issued, v.issued);
    hide Queues, Fates, Handover, Requests, Messages, Registered, Outcomes, Partition, Extends, Splits;
    ExtendsKeeps(n, w, v.issued);
    Unread(n, w.(issued := v.issued), v);
  }

  lemma CollectInvariant(n: Net, w: World, s: Step)
    requires Invariant(n, w) && s.Collect? && Legal(w, s) && s.device in w.agents
    ensures Invariant(n, Next(n, w, s))
  {
    var db := w.agents[s.device];
    var v := Next(n, w, s);
    InvariantSound(n, w, s.device);
    hide Invariant, Traced, Sound, Enqueue, EnqueueTx, Handover;
    EnqueueSound(n.config, db, s.id, None, s.samples, 0, s.critical, s.now, s.sizes);
    TraceEnqueue(n.config, db, s.id, s.samples, s.critical, s.now, s.sizes);
    if EnqueueTx(n.config, db, s.id, None, s.samples, 0, s.critical, s.now).verdict.Done? {
      CollectIssues(n, w, v, s.device, s.id, s.samples);
      CollectHandover(n, w, v, s);
      HandoverInvariant(n, w, v, s.device, {}, map[s.id := s.samples]);
    } else {
      QuietAgent(n, w, s.device, v.agents[s.device]);
    }
  }

  lemma CollectIssues(n: Net, w: World, v: World, device: Uuid, id: Uuid, samples: seq<Sample>)
    requires Invariant(n, w) && id !in w.issued && v.issued == w.issued[id := Issue(device, samples, id, 0, false)]
    requires v.ledger == w.ledger && v.confirmed == w.confirmed && v.purged == w.purged
    ensures Extends(w.issued, v.issued) && Partition(v.issued) && Splits(n, v) && Outcomes(v)
  {
    hide Partition;
    FreshPartition(w.issued, id, device, samples);
  }

  lemma CollectHandover(n: Net, w: World, v: World, s: Step)
    requires s.Collect? && Legal(w, s) && s.device in w.agents && v == Next(n, w, s)
    requires EnqueueTx(n.config, w.agents[s.device], s.id, None, s.samples, 0, s.critical, s.now).verdict.Done?
    requires Sound(n.config, v.agents[s.device])
    requires Traced(w.agents[s.device], v.agents[s.device], {}, map[s.id := s.samples])
    requires Extends(w.issued, v.issued)
    ensures Handover(n, w, v, s.device, {}, map[s.id := s.samples])
  {
    hide Sound, Traced, Enqueue, EnqueueTx;
  }

  /** Which answers leave the queue's rows alone, sealed rows being named by the audit log. */
  lemma RespondSound(c: Config, db: Database, batch: StoredBatch, reply: Reply, poll: nat, d: Draw)
    requires Sound(c, db)
    ensures Sound(c, Respond(c, db, batch, reply, poll, d).0.db)
  {
    hide Sound, Split, QuarantineBatch, QuarantineSample, Defer, Acknowledge;
    AcknowledgeSound(c, db, batch.id);
    QuarantineBatchSound(c, db, batch, false, d.now);
    QuarantineSampleSound(c, db, batch, d.key, d.now);
    SplitSound(c, db, batch, d.left, d.right, d.now, d.later);
    if reply.Http? {
      QuarantineBatchSound(c, db, batch, reply.http422, d.now);
    }
    forall until { DeferSound(c, db, batch.id, until); }
  }

  lemma RespondQuiet(c: Config, db: Database, batch: StoredBatch, reply: Reply, poll: nat, d: Draw)
    requires var o := Respond(c, db, batch, reply, poll, d).1; !o.Acknowledged? && !o.SplitInTwo?
    ensures Traced(db, Respond(c, db, batch, reply, poll, d).0.db, {}, map[])
  {
    hide Traced, Split, QuarantineBatch, QuarantineSample, Defer, Acknowledge;
    TraceNothing(db);
    TraceQuarantineBatch(c, db, batch, false, d.now);
    TraceQuarantineSample(c, db, batch, d.key, d.now);
    RaisedSplit(c, db, batch, d);
    if reply.Http? {
      TraceQuarantineBatch(c, db, batch, reply.http422, d.now);
    }
    forall until { TraceDefer(db, batch.id, until); }
  }

  lemma RaisedSplit(c: Config, db: Database, batch: StoredBatch, d: Draw)
    ensures var ch := Split(c, db, batch, d.left, d.right, d.now, d.later); ch.verdict.Raised? ==> ch.db == db
  {
    hide InsertTx;
  }

  /** Only a truthful 413 answer splits, and only 200 acknowledges. */
  lemma RespondOutcome(c: Config, db: Database, batch: StoredBatch, reply: Reply, poll: nat, d: Draw)
    ensures Respond(c, db, batch, reply, poll, d).1.Acknowledged? ==> reply.Http? && reply.code == 200
    ensures Respond(c, db, batch, reply, poll, d).1.SplitInTwo? ==>
              && reply.Http? && reply.code == 413
              && Split(c, db, batch, d.left, d.right, d.now, d.later).verdict.Done?
              && Respond(c, db, batch, reply, poll, d).0 == Split(c, db, batch, d.left, d.right, d.now, d.later)
  {
    hide Split, QuarantineBatch, QuarantineSample, Defer, Acknowledge;
  }

  /** The queued row an agent is about to act on. */
  lemma QueuedBatch(n: Net, w: World, d: Uuid, id: Uuid)
    requires Queues(n, w) && d in w.agents && GetBatch(w.agents[d], id).Some?
    ensures var b := GetBatch(w.agents[d], id).value;
            && b.id == id && id in w.issued && w.issued[id].device == d
            && w.issued[id].samples == b.samples && !w.issued[id].split
  {
    var i := IndexOf(w.agents[d].queue, id).value;
    assert Live(w.issued, d, w.agents[d].queue[i]);
  }

  lemma ActInvariant(n: Net, w: World, d: Uuid, id: Uuid, reply: Reply, draw: Draw)
    requires Invariant(n, w) && d in w.agents && GetBatch(w.agents[d], id).Some?
    requires reply.Http? ==> Truthful(n, w, Answer(d, id, reply))
    requires reply.Http? ==> draw.left !in w.issued && draw.right !in w.issued && draw.left != draw.right
    ensures Invariant(n, Act(n, w, d, GetBatch(w.agents[d], id).value, reply, draw))
  {
    var db := w.agents[d];
    var batch := GetBatch(db, id).value;
    QueuedBatch(n, w, d, id);
    hide Respond, Invariant, GetBatch;
    RespondOutcome(n.config, db, batch, reply, n.poll, draw);
    InvariantSound(n, w, d);
    RespondSound(n.config, db, batch, reply, n.poll, draw);
    if Respond(n.config, db, batch, reply, n.poll, draw).1.SplitInTwo? {
      SplitInvariant(n, w, d, batch, reply, draw);
    } else {
      RespondQuiet(n.config, db, batch, reply, n.poll, draw);
      QuietAgent(n, w, d, Respond(n.config, db, batch, reply, n.poll, draw).0.db);
    }
  }

  lemma InvariantSound(n: Net, w: World, d: Uuid)
    requires Invariant(n, w) && d in w.agents
    ensures Queues(n, w) && Sound(n.config, w.agents[d]) && UniqueIds(w.agents[d].queue)
  {
  }

  lemma SplitInvariant(n: Net, w: World, d: Uuid, batch: StoredBatch, reply: Reply, draw: Draw)
    requires Invariant(n, w) && d in w.agents
    requires batch.id in w.issued && w.issued[batch.id].device == d
             && w.issued[batch.id].samples == batch.samples && !w.issued[batch.id].split
    requires reply.Http? && reply.code == 413 && n.tooLarge(batch.samples)
    requires draw.left !in w.issued && draw.right !in w.issued && draw.left != draw.right
    requires var ch := Split(n.config, w.agents[d], batch, draw.left, draw.right, draw.now, draw.later);
             ch.verdict.Done? && Respond(n.config, w.agents[d], batch, reply, n.poll, draw) == (ch, SplitInTwo)
    requires Sound(n.config, Respond(n.config, w.agents[d], batch, reply, n.poll, draw).0.db)
    ensures Invariant(n, Act(n, w, d, batch, reply, draw))
  {
    var v := Act(n, w, d, batch, reply, draw);
    var mid := |batch.samples| / 2;
    var born := map[draw.left := batch.samples[..mid], draw.right := batch.samples[mid..]];
    InvariantSound(n, w, d);
    hide Respond, Split, Traced, Sound, Invariant, Handover;
    TraceSplit(n.config, w.agents[d], batch, draw.left, draw.right, draw.now, draw.later);
    SplitRemoves(n.config, w.agents[d], batch, draw.left, draw.right, draw.now, draw.later);
    SplitIssues(n, w, v, batch.id, draw.left, draw.right);
    SplitHandover(n, w, v, d, batch, draw, born);
    HandoverInvariant(n, w, v, d, {batch.id}, born);
  }

  lemma SplitIssues(n: Net, w: World, v: World, id: Uuid, left: Uuid, right: Uuid)
    requires Invariant(n, w) && id in w.issued && !w.issued[id].split && n.tooLarge(w.issued[id].samples)
    requires left !in w.issued && right !in w.issued && left != right
    requires v.issued == Halve(w.issued, id, left, right)
    requires v.ledger == w.ledger && v.confirmed == w.confirmed && v.purged == w.purged
    ensures Extends(w.issued, v.issued) && Partition(v.issued) && Splits(n, v) && Outcomes(v)
  {
    hide Partition, Messages, Queues, Fates, Requests;
    HalvePartition(w.issued, id, left, right);
    HalveExtends(w.issued, id, left, right);
    HalveSplits(n, w, id, left, right);
  }

  lemma HalveSplits(n: Net, w: World, id: Uuid, left: Uuid, right: Uuid)
    requires Splits(n, w) && id in w.issued && n.tooLarge(w.issued[id].samples)
    requires left !in w.issued && right !in w.issued && left != right
    ensures Splits(n, w.(issued := Halve(w.issued, id, left, right)))
  {
  }

  lemma SplitHandover(n: Net, w: World, v: World, d: Uuid, batch: StoredBatch, draw: Draw, born: map<Uuid, seq<Sample>>)
    requires d in w.agents && batch.id in w.issued && w.issued[batch.id].device == d
    requires w.issued[batch.id].samples == batch.samples
    requires draw.left !in w.issued && draw.right !in w.issued && draw.left != draw.right
    requires v.issued == Halve(w.issued, batch.id, draw.left, draw.right)
    requires d in v.agents && v.agents == w.agents[d := v.agents[d]] && v.confirmed == w.confirmed && v.purged == w.purged
    requires born == map[draw.left := batch.samples[..|batch.samples| / 2],
                         draw.right := batch.samples[|batch.samples| / 2..]]
    requires Sound(n.config, v.agents[d]) && Traced(w.agents[d], v.agents[d], {batch.id}, born)
    requires Extends(w.issued, v.issued) && !HasId(v.agents[d].queue, batch.id)
    ensures Handover(n, w, v, d, {batch.id}, born)
  {
    hide Sound, Traced, HasId;
  }
}

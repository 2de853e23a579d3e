/** The agent's polling cycle over the orders one response offers. */
module ActionPoller {
  import opened Wrappers
  import opened Telemetry
  import opened SigningPayload
  import opened ActionStore
  import AR = ActionRuns

  /** What a cycle depends on: the clock it reads once, the known keys, the signatures that verify, and
      what calling the handler of a name with parameters comes back with. */
  datatype Context = Context(
    codec: Codec, now: int, keys: set<int>, signed: Order -> bool, effects: (string, string) -> Option<Effect>)

  datatype Report = Report(id: Uuid, status: Status, exitCode: Option<int>, summary: string)

  /** What a cycle sends: acknowledgements and results, in order. */
  datatype Sent = Sent(acks: seq<Uuid>, reports: seq<Report>)

  /** `verify_and_accept` does not raise. */
  predicate Admitted(c: Context, o: Order) {
    Window(c.codec, o, c.now, 60).Some? && o.keyVersion in c.keys && c.signed(o) && Valid(c.codec, o)
  }

  function Expiry(c: Context, o: Order): int
    requires Admitted(c, o)
  {
    c.codec.parse(o.expiresAt).value + 60
  }

  /** One turn of the loop; None is an item no order could be read from. */
  function Turn(c: Context, db: Store, sent: Sent, offer: Option<Order>): (Store, Sent) {
    if offer.None? || !Admitted(c, offer.value) then (db, sent)
    else
      var o := offer.value;
      var (taken, consumed) := Accept(db, o, Expiry(c, o));
      if !consumed then (taken, sent)
      else
        var acked := sent.(acks := sent.acks + [o.id]);
        var effect := c.effects(o.name, o.parameters);
        if effect.None? then (taken, acked)
        else
          var done := Finish(Claim(taken, o.id).0, o.id, effect.value).0;
          var e := done.states[o.id];
          (done, acked.(reports := acked.reports + [Report(o.id, e.status, e.exitCode, e.summary)]))
  }

  function Cycle(c: Context, db: Store, offers: seq<Option<Order>>): (Store, Sent) {
    if offers == [] then (db, Sent([], []))
    else
      var (before, sent) := Cycle(c, db, offers[..|offers| - 1]);
      Turn(c, before, sent, offers[|offers| - 1])
  }

  class NexusAgent {
    const store: SQLiteActionStore
    var acks: seq<Uuid>
    var reports: seq<Report>

    constructor (store: SQLiteActionStore)
      ensures this.store == store && acks == [] && reports == []
    {
      this.store := store;
      acks, reports := [], [];
    }

    /** The body of the loop, with every exception caught. */
    method Handle(c: Context, offer: Option<Order>) returns (executed: bool)
      requires store.codec == c.codec
      modifies this, store
      ensures (store.db, Sent(acks, reports)) == Turn(c, old(store.db), Sent(old(acks), old(reports)), offer)
      ensures |reports| == old(|reports|) + if executed then 1 else 0
    {
      hide Window, Valid;
      if offer.None? {
        return false;
      }
      var o := offer.value;
      var accepted := store.VerifyAndAccept(o, c.now, c.keys, c.signed);
      if !accepted.Consumed? {
        return false;
      }
      acks := acks + [o.id];
      var r := store.ExecuteOnce(o.id, c.effects);
      if r.Executed? {
        var e := store.db.states[o.id];
        reports := reports + [Report(o.id, e.status, e.exitCode, e.summary)];
      }
      return r.Executed?;
    }

    /** `poll_and_execute_actions`, given the items of the response. */
    method PollAndExecuteActions(c: Context, offers: seq<Option<Order>>) returns (executed: nat)
      requires store.codec == c.codec && acks == [] && reports == []
      modifies this, store
      ensures (store.db, Sent(acks, reports)) == Cycle(c, old(store.db), offers)
      ensures executed == |reports|
    {
      hide Turn;
      executed := 0;
      var i := 0;
      while i < |offers|
        invariant 0 <= i <= |offers|
        invariant (store.db, Sent(acks, reports)) == Cycle(c, old(store.db), offers[..i])
        invariant executed == |reports|
      {
        assert offers[..i + 1][..i] == offers[..i];
        var done := Handle(c, offers[i]);
        executed := if done then executed + 1 else executed;
        i := i + 1;
      }
      assert offers[..i] == offers;
    }
  }

  // ------------------------------------------------------------- properties

  /** The orders reported on were unknown before the cycle, are reported once, and their rows say for
      good what was reported. */
  predicate ReportsHold(before: Store, after: Store, sent: Sent) {
    && (forall k :: 0 <= k < |sent.reports| ==>
          var r := sent.reports[k];
          && r.id !in before.states && r.id in after.states && (r.status.Succeeded? || r.status.Failed?)
          && after.states[r.id].status == r.status && after.states[r.id].exitCode == r.exitCode
          && after.states[r.id].summary == r.summary)
    && (forall k, l :: 0 <= k < l < |sent.reports| ==> sent.reports[k].id != sent.reports[l].id)
    && (forall id :: id in before.states ==> id in after.states && after.states[id] == before.states[id])
  }

  lemma TurnKeeps(c: Context, db: Store, sent: Sent, offer: Option<Order>)
    ensures forall id :: id in db.states ==>
              id in Turn(c, db, sent, offer).0.states && Turn(c, db, sent, offer).0.states[id] == db.states[id]
    ensures var s := Turn(c, db, sent, offer).1.reports;
            s == sent.reports
            || (exists r :: s == sent.reports + [r] && r.id !in db.states && r.id in Turn(c, db, sent, offer).0.states
                           && (r.status.Succeeded? || r.status.Failed?)
                           && r == Report(r.id, Turn(c, db, sent, offer).0.states[r.id].status,
                                          Turn(c, db, sent, offer).0.states[r.id].exitCode,
                                          Turn(c, db, sent, offer).0.states[r.id].summary))
  {
    hide Admitted, Cut;
  }

  /** What held before a turn still does, and the turn adds at most one true report. */
  lemma ReportsChain(start: Store, before: Store, sent: Sent, after: Store, more: Sent)
    requires ReportsHold(start, before, sent)
    requires forall id :: id in before.states ==> id in after.states && after.states[id] == before.states[id]
    requires more.reports == sent.reports
             || (exists r :: more.reports == sent.reports + [r] && r.id !in before.states && r.id in after.states
                             && (r.status.Succeeded? || r.status.Failed?)
                             && r == Report(r.id, after.states[r.id].status, after.states[r.id].exitCode,
                                            after.states[r.id].summary))
    ensures ReportsHold(start, after, more)
  {
  }

  /** A cycle never touches an order it already knew, and reports each order it executed once, truly. */
  lemma {:induction false} CycleReportsOnce(c: Context, db: Store, offers: seq<Option<Order>>)
    ensures ReportsHold(db, Cycle(c, db, offers).0, Cycle(c, db, offers).1)
  {
    hide Turn;
    if offers != [] {
      var (before, sent) := Cycle(c, db, offers[..|offers| - 1]);
      CycleReportsOnce(c, db, offers[..|offers| - 1]);
      TurnKeeps(c, before, sent, offers[|offers| - 1]);
      ReportsChain(db, before, sent, Cycle(c, db, offers).0, Cycle(c, db, offers).1);
    }
  }

  /** The order is timely, signed by a known key, valid, and neither its nonce nor its id was seen before. */
  predicate Takes(c: Context, db: Store, o: Order) {
    && Window(c.codec, o, c.now, 60).Some? && o.keyVersion in c.keys && c.signed(o) && Valid(c.codec, o)
    && o.nonce !in db.consumed && forall id :: id in db.states ==> id != o.id && db.states[id].order.nonce != o.nonce
  }

  /** The row of an order taken, after what its handler came back with. */
  function Finished(o: Order, effect: Option<Effect>): Entry {
    match effect
    case None => Entry(o, Accepted, None, "")
    case Some(Returned(code, summary)) => Entry(o, if code == 0 then Succeeded else Failed, Some(code), Cut(summary))
    case Some(Threw(error)) => Entry(o, Failed, None, Cut(error))
  }

  /** A turn takes an order exactly if it may, acknowledges it, and runs and reports it exactly if there is a handler. */
  lemma TurnTakes(c: Context, db: Store, sent: Sent, offer: Option<Order>)
    ensures var (after, said) := Turn(c, db, sent, offer);
            if offer.Some? && Takes(c, db, offer.value) then
              var o := offer.value;
              var row := Finished(o, c.effects(o.name, o.parameters));
              && after == Store(db.consumed[o.nonce := c.codec.parse(o.expiresAt).value + 60], db.states[o.id := row])
              && said.acks == sent.acks + [o.id]
              && said.reports == sent.reports + if row.status == Accepted then [] else [Report(o.id, row.status, row.exitCode, row.summary)]
            else after == db && said == sent
  {
    hide Window, Valid, Cut;
    if offer.Some? { AcceptanceIsExact(db, offer.value, if Admitted(c, offer.value) then Expiry(c, offer.value) else 0); }
  }

  /** What a cycle has taken it has acknowledged, once, and what it has executed it has reported; nothing admitted
      is passed over but what was seen before. */
  ghost predicate Complete(c: Context, db: Store, offers: seq<Option<Order>>, after: Store, sent: Sent) {
    && (forall id :: id in db.states ==> id in after.states)
    && (forall id :: id in sent.acks <==> id in after.states && id !in db.states)
    && (forall k, l :: 0 <= k < l < |sent.acks| ==> sent.acks[k] != sent.acks[l])
    && (forall id :: id in sent.acks ==>
          (after.states[id].status == Accepted <==> forall k :: 0 <= k < |sent.reports| ==> sent.reports[k].id != id))
    && (forall k :: 0 <= k < |sent.reports| ==> sent.reports[k].id in sent.acks)
    && (forall i :: 0 <= i < |offers| && offers[i].Some? ==> !Takes(c, after, offers[i].value))
  }

  lemma SeenStays(c: Context, before: Store, after: Store, o: Order)
    requires !Takes(c, before, o)
    requires forall nonce :: nonce in before.consumed ==> nonce in after.consumed
    requires forall id :: id in before.states ==> id in after.states && after.states[id] == before.states[id]
    ensures !Takes(c, after, o)
  {
    hide Window, Valid;
  }

  lemma TurnCompletes(c: Context, db: Store, offers: seq<Option<Order>>, before: Store, sent: Sent, offer: Option<Order>)
    requires Complete(c, db, offers, before, sent)
    ensures Complete(c, db, offers + [offer], Turn(c, before, sent, offer).0, Turn(c, before, sent, offer).1)
  {
    TurnTakes(c, before, sent, offer);
    var (after, said) := Turn(c, before, sent, offer);
    hide Turn, Window, Valid, Cut;
    if offer.Some? && Takes(c, before, offer.value) {
      var o := offer.value;
      assert !Takes(c, after, o);
      assert forall id :: id in said.acks <==> id in sent.acks || id == o.id;
      assert o.id !in sent.acks;
      assert forall k :: 0 <= k < |sent.reports| ==> sent.reports[k].id in sent.acks;
      assert forall k :: 0 <= k < |sent.reports| ==> sent.reports[k].id != o.id && said.reports[k] == sent.reports[k];
      assert after.states[o.id].status != Accepted ==> said.reports[|sent.reports|].id == o.id;
      forall id | id in said.acks
        ensures after.states[id].status == Accepted <==> forall k :: 0 <= k < |said.reports| ==> said.reports[k].id != id
      {
        if id != o.id {
          assert after.states[id] == before.states[id];
          if k :| 0 <= k < |sent.reports| && sent.reports[k].id == id { assert said.reports[k].id == id; }
        }
      }
      forall i | 0 <= i < |offers| && offers[i].Some? ensures !Takes(c, after, offers[i].value) {
        SeenStays(c, before, after, offers[i].value);
      }
      hide Takes;
    }
  }

  lemma {:induction false} CycleIsComplete(c: Context, db: Store, offers: seq<Option<Order>>)
    ensures Complete(c, db, offers, Cycle(c, db, offers).0, Cycle(c, db, offers).1)
  {
    if offers != [] {
      hide Complete, Turn;
      var most, last := offers[..|offers| - 1], offers[|offers| - 1];
      assert offers == most + [last];
      CycleIsComplete(c, db, most);
      TurnCompletes(c, db, most, Cycle(c, db, most).0, Cycle(c, db, most).1, last);
    }
  }

  // -------------------------------------------------------------- refinement

  function Apply(m: AR.Machine, es: seq<AR.Event>): AR.Machine {
    if es == [] then m else AR.Next(Apply(m, es[..|es| - 1]), es[|es| - 1])
  }

  /** The events of one turn. */
  function Events(c: Context, db: Store, poller: Uuid, offer: Option<Order>): seq<AR.Event> {
    if offer.None? || !Admitted(c, offer.value) then []
    else
      var o := offer.value;
      var accept := AR.DoAccept(o, Expiry(c, o));
      if !Accept(db, o, Expiry(c, o)).1 || c.effects(o.name, o.parameters).None? then [accept]
      else [accept, AR.DoClaim(poller, o.id), AR.DoCall(poller, c.effects(o.name, o.parameters).value), AR.DoFinish(poller)]
  }

  lemma ApplyFour(m: AR.Machine, a: AR.Event, b: AR.Event, d: AR.Event, e: AR.Event)
    ensures Apply(m, [a]) == AR.Next(m, a)
    ensures Apply(m, [a, b, d, e]) == AR.Next(AR.Next(AR.Next(AR.Next(m, a), b), d), e)
  {
    hide AR.Next;
    assert [a][..0] == [] && [a, b][..1] == [a] && [a, b, d][..2] == [a, b] && [a, b, d, e][..3] == [a, b, d];
    assert Apply(m, [a]) == AR.Next(Apply(m, []), a);
    assert Apply(m, [a, b]) == AR.Next(Apply(m, [a]), b);
    assert Apply(m, [a, b, d]) == AR.Next(Apply(m, [a, b]), d);
  }

  /** A turn is a run of the poller's events on the store, so whatever holds of all runs holds of it. */
  lemma TurnIsRun(c: Context, m: AR.Machine, sent: Sent, poller: Uuid, offer: Option<Order>)
    requires poller !in m.pollers
    ensures Apply(m, Events(c, m.db, poller, offer)).db == Turn(c, m.db, sent, offer).0
    ensures poller !in Apply(m, Events(c, m.db, poller, offer)).pollers
  {
    if offer.Some? && Admitted(c, offer.value) {
      var o := offer.value;
      var effect := c.effects(o.name, o.parameters);
      var e := if effect.Some? then effect.value else Threw("");
      ApplyFour(m, AR.DoAccept(o, Expiry(c, o)), AR.DoClaim(poller, o.id), AR.DoCall(poller, e), AR.DoFinish(poller));
      if Accept(m.db, o, Expiry(c, o)).1 {
        AR.WholeExecution(m, o, Expiry(c, o), poller, e);
      }
      AR.AcceptOnly(m, o, Expiry(c, o));
      hide AR.Next, Admitted, Accept, Claim, Finish;
    }
  }
}

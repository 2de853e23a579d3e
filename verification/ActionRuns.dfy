/** Any number of pollers on one action store, each of which may stop at any point, and restarts at any time. */
module ActionRuns {
  import opened Wrappers
  import opened Telemetry
  import opened SigningPayload
  import opened ActionStore

  /** How far a poller got with the action it claimed. */
  datatype Work = Claimed(id: Uuid) | Ran(id: Uuid, effect: Effect)

  /** The store, the pollers at work, and for each action the effects its handler has had so far. */
  datatype Machine = Machine(db: Store, pollers: map<Uuid, Work>, runs: map<Uuid, seq<Effect>>)

  const IDLE := Machine(EMPTY, map[], map[])

  datatype Event =
    | DoAccept(order: Order, expires: int)
    | DoClaim(poller: Uuid, id: Uuid)
    | DoCall(poller: Uuid, effect: Effect)
    | DoFinish(poller: Uuid)
    | DoCrash(poller: Uuid)
    | DoReconcile(now: int)

  /** How often, and with what effect, the handler was called for an action. */
  function Runs(m: Machine, id: Uuid): seq<Effect> {
    if id in m.runs then m.runs[id] else []
  }

  function Next(m: Machine, e: Event): Machine {
    match e
    case DoAccept(order, expires) => m.(db := Accept(m.db, order, expires).0)
    case DoClaim(poller, id) =>
      if poller !in m.pollers && Claim(m.db, id).1 then
        m.(db := Claim(m.db, id).0, pollers := m.pollers[poller := Claimed(id)])
      else m
    case DoCall(poller, effect) =>
      if poller in m.pollers && m.pollers[poller].Claimed? then
        var id := m.pollers[poller].id;
        m.(pollers := m.pollers[poller := Ran(id, effect)], runs := m.runs[id := Runs(m, id) + [effect]])
      else m
    case DoFinish(poller) =>
      if poller in m.pollers && m.pollers[poller].Ran? then
        var work := m.pollers[poller];
        m.(db := Finish(m.db, work.id, work.effect).0, pollers := m.pollers - {poller})
      else m
    case DoCrash(poller) => m.(pollers := m.pollers - {poller})
    case DoReconcile(now) => m.(db := Reconcile(m.db, now))
  }

  // -------------------------------------------------------------- invariant

  /** What a row says about the calls of its handler. */
  predicate Told(e: Entry, runs: seq<Effect>) {
    match e.status
    case Accepted => runs == []
    case Interrupted => runs == []
    case Executing => |runs| <= 1
    case Unknown => |runs| <= 1
    case Succeeded => |runs| == 1 && runs[0].Returned? && runs[0].exitCode == 0
                      && e.exitCode == Some(0) && e.summary == Cut(runs[0].summary)
    case Failed => |runs| == 1 && !(runs[0].Returned? && runs[0].exitCode == 0)
                   && e.exitCode == (if runs[0].Returned? then Some(runs[0].exitCode) else None)
                   && e.summary == Cut(if runs[0].Returned? then runs[0].summary else runs[0].error)
  }

  predicate Recorded(m: Machine) {
    && (forall id :: id in m.db.states ==> Told(m.db.states[id], Runs(m, id)))
    && (forall id :: id in m.runs ==> id in m.db.states)
  }

  /** Orders are filed under their own id, with a consumed nonce no other order has. */
  predicate Filed(m: Machine) {
    && (forall id :: id in m.db.states ==> m.db.states[id].order.id == id && m.db.states[id].order.nonce in m.db.consumed)
    && (forall i, j :: i in m.db.states && j in m.db.states && m.db.states[i].order.nonce == m.db.states[j].order.nonce
                       ==> i == j)
  }

  /** Between claim and finish a row is in one poller's hands, and no longer claimable. */
  predicate InHand(m: Machine) {
    && (forall p :: p in m.pollers ==>
          && m.pollers[p].id in m.db.states
          && (m.db.states[m.pollers[p].id].status.Executing? || m.db.states[m.pollers[p].id].status.Unknown?)
          && Runs(m, m.pollers[p].id) == if m.pollers[p].Claimed? then [] else [m.pollers[p].effect])
    && (forall p, q :: p in m.pollers && q in m.pollers && m.pollers[p].id == m.pollers[q].id ==> p == q)
  }

  predicate Invariant(m: Machine) {
    Recorded(m) && Filed(m) && InHand(m)
  }

  lemma AcceptInvariant(m: Machine, e: Event)
    requires Invariant(m) && e.DoAccept?
    ensures Invariant(Next(m, e))
  {
    var o := e.order;
    if Accept(m.db, o, e.expires).1 {
      assert forall id :: id in m.db.states ==> m.db.states[id].order.nonce != o.nonce;
      assert Runs(m, o.id) == [];
      hide Told;
      assert Told(Entry(o, Accepted, None, ""), []) by { EntryTold(o); }
    }
  }

  lemma EntryTold(o: Order)
    ensures Told(Entry(o, Accepted, None, ""), [])
  {
  }

  /** A row changed by whoever has it in hand, or takes it: what it says must still be true. */
  lemma RowRecorded(m: Machine, n: Machine, id: Uuid)
    requires Recorded(m) && Filed(m) && id in m.db.states && id in n.db.states
    requires n.runs == m.runs && n.db == m.db.(states := m.db.states[id := n.db.states[id]])
    requires n.db.states[id].order == m.db.states[id].order
    requires Told(m.db.states[id], Runs(m, id)) ==> Told(n.db.states[id], Runs(m, id))
    ensures Recorded(n) && Filed(n)
  {
    hide Told;
  }

  lemma ClaimInvariant(m: Machine, e: Event)
    requires Invariant(m) && e.DoClaim?
    ensures Invariant(Next(m, e))
  {
    if e.poller !in m.pollers && Claim(m.db, e.id).1 {
      assert Told(m.db.states[e.id], Runs(m, e.id));
      RowRecorded(m, Next(m, e), e.id);
      hide Recorded, Filed, Told;
    }
  }

  lemma CallInvariant(m: Machine, e: Event)
    requires Invariant(m) && e.DoCall?
    ensures Invariant(Next(m, e))
  {
  }

  lemma FinishInvariant(m: Machine, e: Event)
    requires Invariant(m) && e.DoFinish?
    ensures Invariant(Next(m, e))
  {
    if e.poller in m.pollers && m.pollers[e.poller].Ran? && Finish(m.db, m.pollers[e.poller].id, m.pollers[e.poller].effect).1 {
      var id := m.pollers[e.poller].id;
      FinishTold(m.db, id, m.pollers[e.poller].effect);
      RowRecorded(m, Next(m, e), id);
      hide Recorded, Filed, Told;
    }
  }

  lemma FinishTold(db: Store, id: Uuid, effect: Effect)
    requires Finish(db, id, effect).1
    ensures Told(Finish(db, id, effect).0.states[id], [effect])
  {
    hide Cut;
  }

  lemma CrashInvariant(m: Machine, e: Event)
    requires Invariant(m) && e.DoCrash?
    ensures Invariant(Next(m, e))
  {
    hide Told;
  }

  lemma ReconcileInvariant(m: Machine, e: Event)
    requires Invariant(m) && e.DoReconcile?
    ensures Invariant(Next(m, e))
  {
    var n := Next(m, e);
    assert forall id :: id in m.db.states ==> n.db.states[id].order == m.db.states[id].order;
  }

  lemma NextInvariant(m: Machine, e: Event)
    requires Invariant(m)
    ensures Invariant(Next(m, e))
  {
    hide Invariant, Next;
    match e
    case DoAccept(_, _) => AcceptInvariant(m, e);
    case DoClaim(_, _) => ClaimInvariant(m, e);
    case DoCall(_, _) => CallInvariant(m, e);
    case DoFinish(_) => FinishInvariant(m, e);
    case DoCrash(_) => CrashInvariant(m, e);
    case DoReconcile(_) => ReconcileInvariant(m, e);
  }

  // ------------------------------------------------------------------- steps

  /** The moves a status may make in one step. */
  predicate Moves(a: Status, b: Status) {
    a == b
    || (a.Accepted? && (b.Executing? || b.Interrupted?))
    || (a.Executing? && (b.Succeeded? || b.Failed? || b.Unknown?))
  }

  /** Rows are never removed, keep their order, move along the status graph, and no longer change at all
      once terminal; nor is a consumed nonce ever given back. */
  lemma StatusesMoveForward(m: Machine, e: Event, id: Uuid)
    requires id in m.db.states
    ensures id in Next(m, e).db.states
    ensures var a, b := m.db.states[id], Next(m, e).db.states[id];
            && a.order == b.order && Moves(a.status, b.status)
            && (Terminal(a.status) ==> a == b)
            && (a.status == b.status ==> a == b)
    ensures forall nonce :: nonce in m.db.consumed ==> nonce in Next(m, e).db.consumed
  {
  }

  /** Only a restart interrupts an order, and only one whose nonce has expired; only a restart makes an
      execution UNKNOWN; and only the poller that called the handler finishes it. */
  lemma WhyStatusesMove(m: Machine, e: Event, id: Uuid)
    requires id in m.db.states && Next(m, e).db.states[id].status != m.db.states[id].status
    ensures var a, b := m.db.states[id], Next(m, e).db.states[id];
            && (b.status.Interrupted? ==> e.DoReconcile? && Expired(m.db, a.order.nonce, e.now))
            && (b.status.Unknown? ==> e.DoReconcile? && a.status.Executing?)
            && (b.status.Executing? ==> e.DoClaim? && e.id == id)
            && (b.status.Succeeded? || b.status.Failed? ==>
                  e.DoFinish? && e.poller in m.pollers && m.pollers[e.poller].Ran? && m.pollers[e.poller].id == id)
  {
  }

  /** What moves a row, exactly. */
  predicate RowMovesTo(m: Machine, e: Event, id: Uuid, to: Status)
    requires id in m.db.states
  {
    var row := m.db.states[id];
    match to
    case Executing => row.status == Accepted && e.DoClaim? && e.id == id && e.poller !in m.pollers
    case Succeeded =>
      row.status == Executing && e.DoFinish? && e.poller in m.pollers && m.pollers[e.poller].Ran? && m.pollers[e.poller].id == id
      && m.pollers[e.poller].effect.Returned? && m.pollers[e.poller].effect.exitCode == 0
    case Failed =>
      row.status == Executing && e.DoFinish? && e.poller in m.pollers && m.pollers[e.poller].Ran? && m.pollers[e.poller].id == id
      && !(m.pollers[e.poller].effect.Returned? && m.pollers[e.poller].effect.exitCode == 0)
    case Unknown => row.status == Executing && e.DoReconcile?
    case Interrupted =>
      row.status == Accepted && e.DoReconcile? && row.order.nonce in m.db.consumed && m.db.consumed[row.order.nonce] <= e.now
    case Accepted => false
  }

  /** A row takes another status exactly by the event that is for it. */
  lemma WhyRowsMove(m: Machine, e: Event, id: Uuid, to: Status)
    requires id in m.db.states && to != m.db.states[id].status
    ensures id in Next(m, e).db.states
    ensures Next(m, e).db.states[id].status == to <==> RowMovesTo(m, e, id, to)
  {
    hide Cut, NonceTaken;
  }

  /** A poller is at work on an order from its claim until it finishes or crashes. */
  lemma WhyPollersWork(m: Machine, e: Event, p: Uuid)
    ensures p in Next(m, e).pollers <==>
              || (e.DoClaim? && e.poller == p && p !in m.pollers && e.id in m.db.states && m.db.states[e.id].status == Accepted)
              || (&& p in m.pollers && !(e.DoCrash? && e.poller == p)
                  && !(e.DoFinish? && e.poller == p && m.pollers[p].Ran?))
    ensures p in Next(m, e).pollers ==>
              Next(m, e).pollers[p]
              == if p !in m.pollers then Claimed(e.id)
                 else if e.DoCall? && e.poller == p && m.pollers[p].Claimed? then Ran(m.pollers[p].id, e.effect)
                 else m.pollers[p]
  {
    hide Finish, Reconcile, NonceTaken;
  }

  /** The handler is called by the poller that claimed the order, and by nothing else. */
  lemma CallsAreRecorded(m: Machine, e: Event, id: Uuid)
    ensures Runs(Next(m, e), id)
            == if e.DoCall? && e.poller in m.pollers && m.pollers[e.poller] == Claimed(id) then Runs(m, id) + [e.effect]
               else Runs(m, id)
  {
  }

  /** A restart settles every row, whatever pollers were doing. */
  lemma RestartSettlesRows(m: Machine, now: int, id: Uuid)
    requires id in m.db.states
    ensures var n := Next(m, DoReconcile(now));
            && id in n.db.states && n.db.states[id].status != Executing && n.db.states[id].order == m.db.states[id].order
            && (m.db.states[id].status == Executing <==> n.db.states[id].status == Unknown && m.db.states[id].status != Unknown)
            && (m.db.states[id].status == Accepted ==>
                  var nonce := m.db.states[id].order.nonce;
                  (n.db.states[id].status == Interrupted <==> nonce in m.db.consumed && m.db.consumed[nonce] <= now))
            && (m.db.states[id].status != Executing && m.db.states[id].status != Accepted ==> n.db.states[id] == m.db.states[id])
  {
    RestartSettles(m.db, now);
    hide Reconcile;
  }

  // -------------------------------------------------------------------- runs

  function Run(es: seq<Event>): Machine {
    if es == [] then IDLE else Next(Run(es[..|es| - 1]), es[|es| - 1])
  }

  lemma {:induction false} RunInvariant(es: seq<Event>)
    ensures Invariant(Run(es))
  {
    hide Next;
    if es != [] {
      hide Invariant;
      RunInvariant(es[..|es| - 1]);
      NextInvariant(Run(es[..|es| - 1]), es[|es| - 1]);
    }
  }

  /** In every run the handler is called at most once for an action, and at most once for a nonce. */
  lemma AtMostOnce(es: seq<Event>, i: Uuid, j: Uuid)
    ensures |Runs(Run(es), i)| <= 1
    ensures Runs(Run(es), i) != [] && Runs(Run(es), j) != [] ==>
              && i in Run(es).db.states && j in Run(es).db.states
              && (Run(es).db.states[i].order.nonce == Run(es).db.states[j].order.nonce ==> i == j)
  {
    RunInvariant(es);
    hide Run;
    if i in Run(es).db.states {
      assert Told(Run(es).db.states[i], Runs(Run(es), i));
    }
  }

  /** The recorded status tells what happened: a success is one call that returned 0, a failure one call
      that did not, and an order never executed was never called. */
  lemma StatusTellsRuns(es: seq<Event>, id: Uuid)
    requires id in Run(es).db.states
    ensures Told(Run(es).db.states[id], Runs(Run(es), id))
  {
    RunInvariant(es);
  }

  /** At most one poller is ever between claim and finish of an action. */
  lemma OnePollerAtATime(es: seq<Event>, p: Uuid, q: Uuid)
    requires p in Run(es).pollers && q in Run(es).pollers && Run(es).pollers[p].id == Run(es).pollers[q].id
    ensures p == q
  {
    RunInvariant(es);
  }

  /** A first order, accepted, claimed and called. */
  lemma FirstExecution(o: Order, expires: int, poller: Uuid, effect: Effect)
    ensures var m := Next(Next(Next(IDLE, DoAccept(o, expires)), DoClaim(poller, o.id)), DoCall(poller, effect));
            Runs(m, o.id) == [effect]
  {
    var m1 := Next(IDLE, DoAccept(o, expires));
    assert m1.db.states[o.id].status.Accepted? && m1.pollers == map[] && m1.runs == map[];
    var m2 := Next(m1, DoClaim(poller, o.id));
    assert m2.pollers[poller] == Claimed(o.id) && m2.runs == map[];
  }

  lemma AcceptOnly(m: Machine, o: Order, expires: int)
    ensures Next(m, DoAccept(o, expires)) == m.(db := Accept(m.db, o, expires).0)
  {
  }

  /** One poller takes a fresh order all the way. */
  lemma WholeExecution(m: Machine, o: Order, expires: int, poller: Uuid, effect: Effect)
    requires poller !in m.pollers && Accept(m.db, o, expires).1
    ensures var n := Next(Next(Next(Next(m, DoAccept(o, expires)), DoClaim(poller, o.id)), DoCall(poller, effect)),
                          DoFinish(poller));
            n.db == Finish(Claim(Accept(m.db, o, expires).0, o.id).0, o.id, effect).0 && poller !in n.pollers
  {
    var m1 := Next(m, DoAccept(o, expires));
    assert m1.pollers == m.pollers && Claim(m1.db, o.id).1;
    var m2 := Next(m1, DoClaim(poller, o.id));
    assert m2.db == Claim(m1.db, o.id).0 && m2.pollers == m.pollers[poller := Claimed(o.id)];
    hide Accept, Claim, Finish;
    var m3 := Next(m2, DoCall(poller, effect));
    assert m3.db == m2.db && m3.pollers == m2.pollers[poller := Ran(o.id, effect)];
  }
}

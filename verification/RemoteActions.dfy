/** The server's side of a remote action, and the whole protocol: requests, approvals, signed orders,
    an agent that may crash anywhere, and acknowledgements and results that get lost, repeated and reordered. */
module RemoteActions {
  import opened Wrappers
  import opened Telemetry
  import opened SigningPayload
  import Numerals
  import AS = ActionStore
  import AR = ActionRuns

  datatype Status =
    | PendingApproval | Dispatched | Accepted | Executing | Completed | Failed | Interrupted | Unknown | TimedOut

  /** The body of a result report; its SHA-256 digest stands for it, being injective. */
  datatype Body = Body(status: AS.Status, exitCode: Option<int>, summary: string)

  /** A row of `action_executions`. `token` is the acknowledged token, `result` what was last reported. */
  datatype Action = Action(
    command: Command, status: Status, approved: bool, token: Option<Uuid>, result: Option<Body>)

  datatype Reply = Fresh | Replay | Conflict

  predicate Terminal(s: Status) {
    s.Completed? || s.Failed? || s.Interrupted? || s.Unknown? || s.TimedOut?
  }

  // ------------------------------------------------------ server transactions

  /** `request_action`: a reboot waits for approval, anything else is signed and dispatched at once. */
  function Requested(c: Command, key: int, now: int): Action {
    var approval := c.name == "reboot_system";
    Action(c.(keyVersion := if approval then None else Some(key), issuedAt := now, expiresAt := now + FIVE_MINUTES),
           if approval then PendingApproval else Dispatched, false, None, None)
  }

  /** `approve_action`: a new window and a signature, once, and only while the request has not expired. */
  function Approve(a: Action, key: int, now: int): (Action, bool) {
    if a.status.PendingApproval? && a.command.expiresAt > now then
      (a.(command := a.command.(keyVersion := Some(key), issuedAt := now, expiresAt := now + FIVE_MINUTES),
          status := Dispatched, approved := true), true)
    else (a, false)
  }

  /** What polling makes of a row. */
  function Polled(a: Action, now: int): Action {
    if a.status.Dispatched? && a.command.expiresAt <= now then a.(status := TimedOut) else a
  }

  /** `acknowledge_action`; `live` says whether the token is neither revoked nor expired. */
  function Acknowledge(a: Action, token: Uuid, live: bool, now: int): (Action, Reply) {
    if a.status.Dispatched? && a.command.expiresAt > now && live then (a.(status := Accepted, token := Some(token)), Fresh)
    else if a.status.Accepted? && a.token == Some(token) then (a, Replay)
    else (a, Conflict)
  }

  /** `_RESULT_STATUS`. */
  function Mapped(s: AS.Status): Status {
    match s
    case Accepted => Accepted
    case Executing => Executing
    case Succeeded => Completed
    case Failed => Failed
    case Interrupted => Interrupted
    case Unknown => Unknown
  }

  /** `allowed_sources`. */
  predicate Allowed(from: Status, to: Status) {
    from.Accepted? || (from.Executing? && (to.Completed? || to.Failed? || to.Interrupted? || to.Unknown?))
  }

  /** `record_action_result`. */
  function Record(a: Action, token: Uuid, live: bool, b: Body): (Action, Reply) {
    var to := Mapped(b.status);
    if a.token == Some(token) && Allowed(a.status, to) && live then (a.(status := to, result := Some(b)), Fresh)
    else if a.status == to && a.token == Some(token) && a.result == Some(b) then (a, Replay)
    else (a, Conflict)
  }

  /** The moves a server status may make in one step. */
  predicate Moves(a: Status, b: Status) {
    a == b
    || (a.PendingApproval? && b.Dispatched?)
    || (a.Dispatched? && (b.Accepted? || b.TimedOut?))
    || (a.Accepted? && (b.Executing? || b.Completed? || b.Failed? || b.Interrupted? || b.Unknown?))
    || (a.Executing? && (b.Completed? || b.Failed? || b.Interrupted? || b.Unknown?))
  }

  /** A repeated terminal report with the same token and body changes nothing and is told so; any other
      report about a finished action is refused. */
  lemma RepeatedReport(a: Action, token: Uuid, live: bool, b: Body, again: Uuid, liveNow: bool, other: Body)
    requires Record(a, token, live, b).1.Fresh? && Terminal(Mapped(b.status))
    ensures var done := Record(a, token, live, b).0;
            && done.status == Mapped(b.status)
            && Record(done, again, liveNow, other)
               == (done, if again == token && other == b then Replay else Conflict)
  {
  }

  // ------------------------------------------------------------- the protocol

  /** The organization and device of the agent, and the codecs. */
  datatype Site = Site(organization: int, device: int, codec: Codec)

  /** `signed` are the payloads the server signed; Ed25519 is ideal, so these are the ones that verify. */
  datatype World = World(
    agent: AR.Machine, actions: map<Uuid, Action>, signed: set<string>,
    acks: set<(Uuid, Uuid)>, reports: set<(Uuid, Uuid, Body)>)

  const START := World(AR.IDLE, map[], {}, {}, {})

  datatype Step =
    | Request(id: Uuid, nonce: Uuid, name: string, parameters: string, key: int, now: int)
    | Approval(id: Uuid, key: int, now: int)
    | Poll(now: int)
    | AckArrives(id: Uuid, token: Uuid, live: bool, now: int)
    | ReportArrives(id: Uuid, token: Uuid, body: Body, live: bool)
    /** The agent is handed any order whatsoever. */
    | Deliver(order: Order, now: int)
    | SendAck(id: Uuid, token: Uuid)
    | SendReport(id: Uuid, token: Uuid)
    | Local(event: AR.Event)

  function NewCommand(site: Site, s: Step): Command
    requires s.Request?
  {
    Command(s.id, site.organization, site.device, s.nonce, s.name, None, 0, 0, s.parameters)
  }

  predicate Signable(a: Command) {
    Identified(a.id, a.organization, a.device, a.nonce) && a.keyVersion.Some? && a.keyVersion.value >= 1
  }

  /** The payload is signed as soon as the action is dispatched. */
  function Signing(site: Site, w: World, id: Uuid, a: Action): World {
    var next := w.(actions := w.actions[id := a]);
    if a.status.Dispatched? && Signable(a.command) then
      next.(signed := w.signed + {ServerPayload(site.codec, a.command).value})
    else next
  }

  /** The agent's checks of an order made out to its device. */
  predicate Verifies(site: Site, w: World, o: Order, now: int) {
    && o.device == site.device && Valid(site.codec, o) && Window(site.codec, o, now, 60).Some?
    && Payload(o) in w.signed
  }

  function ReportOf(e: AS.Entry): Body { Body(e.status, e.exitCode, e.summary) }

  function Next(site: Site, w: World, s: Step): World {
    match s
    case Request(id, nonce, name, parameters, key, now) =>
      if id in w.actions then w else Signing(site, w, id, Requested(NewCommand(site, s), key, now))
    case Approval(id, key, now) =>
      if id in w.actions && Approve(w.actions[id], key, now).1 then
        Signing(site, w, id, Approve(w.actions[id], key, now).0)
      else w
    case Poll(now) => w.(actions := map id | id in w.actions :: Polled(w.actions[id], now))
    case AckArrives(id, token, live, now) =>
      if (id, token) in w.acks && id in w.actions then
        w.(actions := w.actions[id := Acknowledge(w.actions[id], token, live, now).0])
      else w
    case ReportArrives(id, token, body, live) =>
      if (id, token, body) in w.reports && id in w.actions then
        w.(actions := w.actions[id := Record(w.actions[id], token, live, body).0])
      else w
    case Deliver(order, now) =>
      if Verifies(site, w, order, now) then
        w.(agent := AR.Next(w.agent, AR.DoAccept(order, site.codec.parse(order.expiresAt).value + 60)))
      else w
    case SendAck(id, token) => if id in w.agent.db.states then w.(acks := w.acks + {(id, token)}) else w
    case SendReport(id, token) =>
      if id in w.agent.db.states && (w.agent.db.states[id].status.Succeeded? || w.agent.db.states[id].status.Failed?) then
        w.(reports := w.reports + {(id, token, ReportOf(w.agent.db.states[id]))})
      else w
    case Local(event) => if event.DoAccept? then w else w.(agent := AR.Next(w.agent, event))
  }

  /** Fresh version 4 UUIDs, a catalogued action with canonical parameters, and a positive key version. */
  predicate Legal(site: Site, w: World, s: Step) {
    match s
    case Request(id, nonce, name, parameters, key, now) =>
      && Identified(id, site.organization, site.device, nonce)
      && Numerals.IsVersion4(id) && Numerals.IsVersion4(site.organization) && Numerals.IsVersion4(site.device)
      && Numerals.IsVersion4(nonce)
      && id !in w.actions && (forall i :: i in w.actions ==> w.actions[i].command.nonce != nonce)
      && name in CATALOG && site.codec.canonical(parameters) && key >= 1
    case Approval(_, key, _) => key >= 1
    case _ => true
  }

  // -------------------------------------------------------------- invariant

  /** The action's order, as the server would transmit it, passes the agent's validation. */
  predicate Orderly(site: Site, id: Uuid, a: Action) {
    && a.command.id == id && a.command.organization == site.organization && a.command.device == site.device
    && Identified(id, site.organization, site.device, a.command.nonce)
    && Numerals.IsVersion4(id) && Numerals.IsVersion4(site.organization) && Numerals.IsVersion4(site.device)
    && Numerals.IsVersion4(a.command.nonce)
    && a.command.name in CATALOG && site.codec.canonical(a.command.parameters)
    && (a.status.PendingApproval? <==> a.command.keyVersion.None?)
    && (a.command.keyVersion.Some? ==> a.command.keyVersion.value >= 1)
    && (a.command.name == "reboot_system" && !a.status.PendingApproval? ==> a.approved)
    && (a.status.Dispatched? || a.status.PendingApproval? || a.status.TimedOut? ==> a.token.None? && a.result.None?)
  }

  predicate Catalogued(site: Site, w: World) {
    forall id :: id in w.actions ==> Orderly(site, id, w.actions[id])
  }

  /** The payload is that of this action. */
  predicate SignedFor(site: Site, w: World, id: Uuid, p: string) {
    id in w.actions && Signable(w.actions[id].command) && ServerPayload(site.codec, w.actions[id].command).value == p
  }

  /** Every signed payload is that of an action. */
  predicate Signed(site: Site, w: World) {
    forall p :: p in w.signed ==> exists id :: id in w.actions && SignedFor(site, w, id, p)
  }

  /** An accepted order is the one transmitted for the action. */
  predicate Ordered(site: Site, w: World, id: Uuid) {
    && id in w.agent.db.states && id in w.actions && Signable(w.actions[id].command)
    && w.agent.db.states[id].order
       == Transmitted(site.codec, w.actions[id].command, w.agent.db.states[id].order.signature)
  }

  predicate Faithful(site: Site, w: World) {
    forall id :: id in w.agent.db.states ==> Ordered(site, w, id)
  }

  /** A report says what the agent's row says for good. */
  predicate Honest(w: World, id: Uuid, b: Body) {
    && id in w.agent.db.states && b == ReportOf(w.agent.db.states[id])
    && (b.status.Succeeded? || b.status.Failed?)
  }

  predicate Reported(w: World) {
    forall r :: r in w.reports ==> Honest(w, r.0, r.2)
  }

  /** What the server's status says about the agent. */
  predicate Agrees(w: World, id: Uuid)
    requires id in w.actions
  {
    var a := w.actions[id];
    && !a.status.Executing? && !a.status.Interrupted? && !a.status.Unknown?
    && (a.status.Accepted? ==> id in w.agent.db.states)
    && (a.status.Completed? || a.status.Failed? ==>
          a.result.Some? && Honest(w, id, a.result.value) && a.status == Mapped(a.result.value.status))
  }

  predicate Agreement(w: World) {
    (forall id :: id in w.actions ==> Agrees(w, id)) && (forall a :: a in w.acks ==> a.0 in w.agent.db.states)
  }

  predicate Invariant(site: Site, w: World) {
    AR.Invariant(w.agent) && Catalogued(site, w) && Signed(site, w) && Faithful(site, w) && Reported(w) && Agreement(w)
  }

  // ------------------------------------------------------------- agent steps

  /** Rows of the agent stay, with their orders, and finished ones do not change. */
  lemma AgentStays(w: World, e: AR.Event)
    ensures forall id :: id in w.agent.db.states ==>
              var v := AR.Next(w.agent, e).db.states;
              && id in v && v[id].order == w.agent.db.states[id].order
              && (AS.Terminal(w.agent.db.states[id].status) ==> v[id] == w.agent.db.states[id])
  {
    hide AR.Next;
    forall id | id in w.agent.db.states { AR.StatusesMoveForward(w.agent, e, id); }
  }

  lemma AgentKeeps(site: Site, w: World, e: AR.Event)
    requires Reported(w) && Agreement(w) && Signed(site, w) && Catalogued(site, w)
    ensures var v := w.(agent := AR.Next(w.agent, e));
            Reported(v) && Agreement(v) && Signed(site, v) && Catalogued(site, v)
    ensures Faithful(site, w) ==> forall id :: id in w.agent.db.states ==> Ordered(site, w.(agent := AR.Next(w.agent, e)), id)
  {
    var v := w.(agent := AR.Next(w.agent, e));
    AgentStays(w, e);
    hide AR.Next, Orderly, Transmitted, ServerPayload;
    forall r | r in w.reports ensures Honest(v, r.0, r.2) {
      assert Honest(w, r.0, r.2);
    }
    forall id | id in w.actions ensures Agrees(v, id) {
      assert Agrees(w, id);
    }
    forall a | a in w.acks ensures a.0 in v.agent.db.states {
      AR.StatusesMoveForward(w.agent, e, a.0);
    }
    if Faithful(site, w) {
      forall id | id in w.agent.db.states ensures Ordered(site, v, id) {
        assert Ordered(site, w, id);
      }
    }
    forall p | p in v.signed ensures exists id :: id in v.actions && SignedFor(site, v, id, p) {
      var id :| id in w.actions && SignedFor(site, w, id, p);
      assert SignedFor(site, v, id, p);
    }
  }

  /** Only accepting adds a row. */
  lemma LocalAddsNoRow(m: AR.Machine, e: AR.Event)
    requires !e.DoAccept?
    ensures AR.Next(m, e).db.states.Keys == m.db.states.Keys
  {
  }

  lemma LocalInvariant(site: Site, w: World, e: AR.Event)
    requires Invariant(site, w) && !e.DoAccept?
    ensures Invariant(site, w.(agent := AR.Next(w.agent, e)))
  {
    hide AR.Next, AR.Invariant, Reported, Agreement, Signed, Catalogued, Ordered;
    AR.NextInvariant(w.agent, e);
    AgentKeeps(site, w, e);
    LocalAddsNoRow(w.agent, e);
  }

  /** What verifies is what the server transmitted for one of its actions. */
  lemma VerifiedIsTransmitted(site: Site, w: World, o: Order, now: int)
    requires Ideal(site.codec) && Catalogued(site, w) && Signed(site, w) && Verifies(site, w, o, now)
    ensures o.id in w.actions && Signable(w.actions[o.id].command)
    ensures o == Transmitted(site.codec, w.actions[o.id].command, o.signature)
  {
    var id :| id in w.actions && SignedFor(site, w, id, Payload(o));
    var a := w.actions[id].command;
    var t := Transmitted(site.codec, a, o.signature);
    assert Orderly(site, id, w.actions[id]);
    hide Catalogued, Signed, Numerals.IsVersion4, Numerals.IsUuid;
    BuildersAgree(site.codec, a, o.signature);
    hide Payload, ServerPayload, Valid;
    assert site.codec.parse(t.issuedAt).Some? && site.codec.parse(t.expiresAt).Some?;
    PayloadDeterminesOrder(site.codec, o, t);
  }

  lemma DeliverInvariant(site: Site, w: World, s: Step)
    requires Ideal(site.codec) && Invariant(site, w) && s.Deliver?
    ensures Invariant(site, Next(site, w, s))
  {
    hide AR.Next, AR.Invariant, Reported, Agreement, Signed, Catalogued, Transmitted, Ideal, Valid, Payload, Signable;
    if Verifies(site, w, s.order, s.now) {
      var e := AR.DoAccept(s.order, site.codec.parse(s.order.expiresAt).value + 60);
      var v := w.(agent := AR.Next(w.agent, e));
      VerifiedIsTransmitted(site, w, s.order, s.now);
      AcceptedRows(w.agent, e);
      AR.NextInvariant(w.agent, e);
      AgentKeeps(site, w, e);
      forall id | id in v.agent.db.states ensures Ordered(site, v, id) {
        if id !in w.agent.db.states {
          assert id == s.order.id && v.agent.db.states[id].order == s.order;
        }
      }
    }
  }

  lemma AcceptedRows(m: AR.Machine, e: AR.Event)
    requires e.DoAccept?
    ensures forall id :: id in AR.Next(m, e).db.states && id !in m.db.states ==>
                           id == e.order.id && AR.Next(m, e).db.states[id].order == e.order
  {
  }

  lemma SendInvariant(site: Site, w: World, s: Step)
    requires Invariant(site, w) && (s.SendAck? || s.SendReport?)
    ensures Invariant(site, Next(site, w, s))
  {
    var v := Next(site, w, s);
    hide AR.Invariant, Orderly, Transmitted, ServerPayload;
    forall p | p in v.signed ensures exists id :: id in v.actions && SignedFor(site, v, id, p) {
      var id :| id in w.actions && SignedFor(site, w, id, p);
      assert SignedFor(site, v, id, p);
    }
    forall id | id in v.agent.db.states ensures Ordered(site, v, id) {
      assert Ordered(site, w, id);
    }
    forall id | id in v.actions ensures Agrees(v, id) {
      assert Agrees(w, id);
    }
    forall r | r in v.reports ensures Honest(v, r.0, r.2) {
      assert r in w.reports ==> Honest(w, r.0, r.2);
    }
  }

  // ------------------------------------------------------------ server steps

  /** Rows change their status only; what was signed stays signed. */
  lemma StatusInvariant(site: Site, w: World, v: World)
    requires Invariant(site, w) && v == w.(actions := v.actions) && v.actions.Keys == w.actions.Keys
    requires forall id :: id in w.actions ==> v.actions[id].command == w.actions[id].command
    requires Catalogued(site, v) && forall id :: id in v.actions ==> Agrees(v, id)
    ensures Invariant(site, v)
  {
    hide AR.Invariant, Orderly, Transmitted, ServerPayload, Agrees, Signable;
    forall p | p in v.signed ensures exists id :: id in v.actions && SignedFor(site, v, id, p) {
      var id :| id in w.actions && SignedFor(site, w, id, p);
      assert SignedFor(site, v, id, p);
    }
    forall id | id in v.agent.db.states ensures Ordered(site, v, id) {
      assert Ordered(site, w, id);
    }
    forall r | r in v.reports ensures Honest(v, r.0, r.2) {
      assert Honest(w, r.0, r.2);
    }
  }

  lemma PollInvariant(site: Site, w: World, s: Step)
    requires Invariant(site, w) && s.Poll?
    ensures Invariant(site, Next(site, w, s))
  {
    var v := Next(site, w, s);
    forall id | id in v.actions ensures Orderly(site, id, v.actions[id]) && Agrees(v, id) {
      assert Orderly(site, id, w.actions[id]) && Agrees(w, id);
    }
    hide Catalogued, Signed, Faithful, Reported, Agreement, Orderly, Agrees, AR.Invariant;
    StatusInvariant(site, w, v);
  }

  lemma AnswerInvariant(site: Site, w: World, s: Step)
    requires Invariant(site, w) && (s.AckArrives? || s.ReportArrives?)
    ensures Invariant(site, Next(site, w, s))
  {
    var v := Next(site, w, s);
    hide AR.Invariant, Signed, Faithful, Identified, Numerals.IsVersion4;
    if s.AckArrives? {
      if (s.id, s.token) in w.acks && s.id in w.actions {
        assert s.id in w.agent.db.states;
        AnswerKeeps(site, w, v, s.id, Acknowledge(w.actions[s.id], s.token, s.live, s.now).0);
      }
    } else if (s.id, s.token, s.body) in w.reports && s.id in w.actions {
      assert Honest(w, s.id, s.body);
      AnswerKeeps(site, w, v, s.id, Record(w.actions[s.id], s.token, s.live, s.body).0);
    }
  }

  /** One action's status moved, and what it says still agrees with the agent. */
  lemma AnswerKeeps(site: Site, w: World, v: World, id: Uuid, a: Action)
    requires Invariant(site, w) && id in w.actions && v == w.(actions := w.actions[id := a])
    requires a.command == w.actions[id].command && (Orderly(site, id, w.actions[id]) ==> Orderly(site, id, a))
    requires Agrees(w, id) ==> Agrees(v, id)
    ensures Invariant(site, v)
  {
    hide AR.Invariant, Orderly, Signed, Faithful, Reported;
    forall i | i in v.actions ensures Orderly(site, i, v.actions[i]) && Agrees(v, i) {
      assert Orderly(site, i, w.actions[i]) && Agrees(w, i);
    }
    hide Catalogued, Agreement, Agrees;
    StatusInvariant(site, w, v);
  }

  /** A fresh or newly approved action is the only one its payload is for. */
  lemma SigningInvariant(site: Site, w: World, id: Uuid, a: Action)
    requires Invariant(site, w) && Orderly(site, id, a)
    requires a.status != Accepted && !Terminal(a.status) && a.status != Executing
    requires id !in w.agent.db.states && (id in w.actions ==> !Signable(w.actions[id].command))
    ensures Invariant(site, Signing(site, w, id, a))
  {
    var v := Signing(site, w, id, a);
    hide AR.Invariant, Orderly, Transmitted, ServerPayload, Identified;
    forall p | p in v.signed ensures exists i :: i in v.actions && SignedFor(site, v, i, p) {
      if p in w.signed {
        var i :| i in w.actions && SignedFor(site, w, i, p);
        assert SignedFor(site, v, i, p);
      } else {
        assert SignedFor(site, v, id, p);
      }
    }
    forall i | i in v.agent.db.states ensures Ordered(site, v, i) {
      assert Ordered(site, w, i);
    }
    forall i | i in v.actions ensures Agrees(v, i) {
      if i != id { assert Agrees(w, i); }
    }
    forall r | r in v.reports ensures Honest(v, r.0, r.2) {
      assert Honest(w, r.0, r.2);
    }
  }

  lemma RequestInvariant(site: Site, w: World, s: Step)
    requires Invariant(site, w) && s.Request? && Legal(site, w, s)
    ensures Invariant(site, Next(site, w, s))
  {
    var a := Requested(NewCommand(site, s), s.key, s.now);
    assert Orderly(site, s.id, a);
    forall id | id in w.agent.db.states ensures id in w.actions {
      assert Ordered(site, w, id);
    }
    hide Invariant, Orderly, Identified, Signing, Requested;
    assert a.status.Dispatched? || a.status.PendingApproval? by { RequestedStatus(NewCommand(site, s), s.key, s.now); }
    SigningInvariant(site, w, s.id, a);
  }

  lemma RequestedStatus(c: Command, key: int, now: int)
    ensures Requested(c, key, now).status.Dispatched? || Requested(c, key, now).status.PendingApproval?
  {
  }

  lemma ApprovalInvariant(site: Site, w: World, s: Step)
    requires Invariant(site, w) && s.Approval? && Legal(site, w, s)
    ensures Invariant(site, Next(site, w, s))
  {
    if s.id in w.actions && Approve(w.actions[s.id], s.key, s.now).1 {
      var a := Approve(w.actions[s.id], s.key, s.now).0;
      assert Orderly(site, s.id, w.actions[s.id]);
      assert s.id !in w.agent.db.states by {
        if s.id in w.agent.db.states { PendingIsNotOrdered(site, w, s.id); }
      }
      assert Orderly(site, s.id, a);
      hide Invariant, Orderly, Identified, Signing;
      SigningInvariant(site, w, s.id, a);
    }
  }

  lemma PendingIsNotOrdered(site: Site, w: World, id: Uuid)
    requires Catalogued(site, w) && Faithful(site, w) && id in w.actions && w.actions[id].status.PendingApproval?
    ensures id !in w.agent.db.states
  {
    assert Orderly(site, id, w.actions[id]);
    assert !Ordered(site, w, id);
  }

  // -------------------------------------------------------------------- runs

  lemma NextInvariant(site: Site, w: World, s: Step)
    requires Ideal(site.codec) && Invariant(site, w) && Legal(site, w, s)
    ensures Invariant(site, Next(site, w, s))
  {
    hide Invariant, Legal, Signing, Requested, Verifies, AR.Next, Ideal;
    match s
    case Request(_, _, _, _, _, _) => RequestInvariant(site, w, s);
    case Approval(_, _, _) => ApprovalInvariant(site, w, s);
    case Poll(_) => PollInvariant(site, w, s);
    case AckArrives(_, _, _, _) => AnswerInvariant(site, w, s);
    case ReportArrives(_, _, _, _) => AnswerInvariant(site, w, s);
    case Deliver(_, _) => DeliverInvariant(site, w, s);
    case SendAck(_, _) => SendInvariant(site, w, s);
    case SendReport(_, _) => SendInvariant(site, w, s);
    case Local(event) => if !event.DoAccept? { LocalInvariant(site, w, event); }
  }

  function Run(site: Site, steps: seq<Step>): World {
    if steps == [] then START else Next(site, Run(site, steps[..|steps| - 1]), steps[|steps| - 1])
  }

  predicate LegalRun(site: Site, steps: seq<Step>) {
    steps == [] || (LegalRun(site, steps[..|steps| - 1])
                    && Legal(site, Run(site, steps[..|steps| - 1]), steps[|steps| - 1]))
  }

  lemma {:induction false} RunInvariant(site: Site, steps: seq<Step>)
    requires Ideal(site.codec) && LegalRun(site, steps)
    ensures Invariant(site, Run(site, steps))
  {
    hide Next, Legal, Ideal;
    if steps != [] {
      hide Invariant;
      RunInvariant(site, steps[..|steps| - 1]);
      NextInvariant(site, Run(site, steps[..|steps| - 1]), steps[|steps| - 1]);
    }
  }

  // ---------------------------------------------------------------- theorems

  /** The server never believes more than happened: COMPLETED means the handler was called exactly once
      and returned 0, FAILED that it was called exactly once and did not; and the statuses of an
      interrupted agent never reach the server at all. */
  lemma ServerTellsTheTruth(site: Site, steps: seq<Step>, id: Uuid)
    requires Ideal(site.codec) && LegalRun(site, steps) && id in Run(site, steps).actions
    ensures var w := Run(site, steps);
            var status, runs := w.actions[id].status, AR.Runs(w.agent, id);
            && (status.Completed? ==>
                  && id in w.agent.db.states && w.agent.db.states[id].status.Succeeded?
                  && |runs| == 1 && runs[0].Returned? && runs[0].exitCode == 0)
            && (status.Failed? ==>
                  && id in w.agent.db.states && w.agent.db.states[id].status.Failed?
                  && |runs| == 1 && !(runs[0].Returned? && runs[0].exitCode == 0))
            && !status.Executing? && !status.Interrupted? && !status.Unknown?
  {
    RunInvariant(site, steps);
    hide Run, LegalRun, Ideal, Catalogued, Signed, Faithful, Reported;
    var w := Run(site, steps);
    assert Agrees(w, id);
    if w.actions[id].status.Completed? || w.actions[id].status.Failed? {
      assert AR.Told(w.agent.db.states[id], AR.Runs(w.agent, id));
    }
  }

  /** A handler runs at most once, only for an action of this server, with the name and parameters
      requested; a reboot only once it was approved. */
  lemma OnlyRequestedActionsRun(site: Site, steps: seq<Step>, id: Uuid)
    requires Ideal(site.codec) && LegalRun(site, steps) && AR.Runs(Run(site, steps).agent, id) != []
    ensures var w := Run(site, steps);
            && |AR.Runs(w.agent, id)| == 1 && Ordered(site, w, id)
            && !w.actions[id].status.PendingApproval?
            && (w.actions[id].command.name == "reboot_system" ==> w.actions[id].approved)
  {
    RunInvariant(site, steps);
    hide Run, LegalRun, Ideal, Signed, Reported, Agreement;
    var w := Run(site, steps);
    assert id in w.agent.db.states && AR.Told(w.agent.db.states[id], AR.Runs(w.agent, id));
    hide AR.Invariant;
    assert Ordered(site, w, id);
    assert Orderly(site, id, w.actions[id]);
  }

  /** Server statuses move along their graph, and finished ones never change. */
  lemma ServerMovesForward(site: Site, w: World, s: Step, id: Uuid)
    requires id in w.actions
    ensures id in Next(site, w, s).actions
    ensures var a, b := w.actions[id], Next(site, w, s).actions[id];
            Moves(a.status, b.status) && (Terminal(a.status) ==> a == b)
  {
    hide AR.Next, Verifies;
  }

  // ---------------------------------------------------------- signed orders

  /** Every window is five minutes, and whatever is past its approval was signed as it stands. */
  predicate Issued(site: Site, w: World, id: Uuid)
    requires id in w.actions
  {
    var a := w.actions[id];
    && a.command.expiresAt == a.command.issuedAt + 300
    && (!a.status.PendingApproval? ==> Signable(a.command) && ServerPayload(site.codec, a.command).value in w.signed)
  }

  lemma SigningIssues(site: Site, w: World, id: Uuid, a: Action)
    requires forall i :: i in w.actions ==> Issued(site, w, i)
    requires a.command.expiresAt == a.command.issuedAt + 300 && (a.status.PendingApproval? || (a.status.Dispatched? && Signable(a.command)))
    ensures var v := Signing(site, w, id, a); forall i :: i in v.actions ==> Issued(site, v, i)
  {
    hide ServerPayload, Identified;
    var v := Signing(site, w, id, a);
    forall i | i in v.actions ensures Issued(site, v, i) {
      if i != id { assert Issued(site, w, i); }
    }
  }

  lemma IssuedNext(site: Site, w: World, s: Step)
    requires Invariant(site, w) && Legal(site, w, s) && forall i :: i in w.actions ==> Issued(site, w, i)
    ensures var v := Next(site, w, s); forall i :: i in v.actions ==> Issued(site, v, i)
  {
    hide *;
    match s
    case Request(_, _, _, _, _, _) => RequestIssued(site, w, s);
    case Approval(_, _, _) => ApprovalIssued(site, w, s);
    case _ =>
      CommandsStay(site, w, s);
      forall i | i in w.actions ensures Issued(site, Next(site, w, s), i) {
        SameIssued(site, w, Next(site, w, s), i);
      }
  }

  lemma SameIssued(site: Site, w: World, v: World, i: Uuid)
    requires i in w.actions && i in v.actions && v.signed == w.signed && v.actions[i].command == w.actions[i].command
    requires v.actions[i].status.PendingApproval? <==> w.actions[i].status.PendingApproval?
    requires Issued(site, w, i)
    ensures Issued(site, v, i)
  {
    hide Signable, ServerPayload;
  }

  lemma RequestIssued(site: Site, w: World, s: Step)
    requires s.Request? && Legal(site, w, s) && forall i :: i in w.actions ==> Issued(site, w, i)
    ensures var v := Next(site, w, s); forall i :: i in v.actions ==> Issued(site, v, i)
  {
    hide ServerPayload, Numerals.IsVersion4, Numerals.IsUuid, Issued, Signing;
    SigningIssues(site, w, s.id, Requested(NewCommand(site, s), s.key, s.now));
  }

  lemma ApprovalIssued(site: Site, w: World, s: Step)
    requires s.Approval? && Invariant(site, w) && Legal(site, w, s) && forall i :: i in w.actions ==> Issued(site, w, i)
    ensures var v := Next(site, w, s); forall i :: i in v.actions ==> Issued(site, v, i)
  {
    if s.id in w.actions && Approve(w.actions[s.id], s.key, s.now).1 {
      assert Orderly(site, s.id, w.actions[s.id]);
      hide ServerPayload, Numerals.IsVersion4, Numerals.IsUuid, Issued, Signing, Invariant;
      SigningIssues(site, w, s.id, Approve(w.actions[s.id], s.key, s.now).0);
    } else {
      hide ServerPayload, Issued, Signing, Invariant;
    }
  }

  /** Only a request and an approval make out commands and sign them. */
  lemma CommandsStay(site: Site, w: World, s: Step)
    requires !s.Request? && !s.Approval?
    ensures var v := Next(site, w, s);
            && v.signed == w.signed && v.actions.Keys == w.actions.Keys
            && forall i :: i in w.actions ==>
                 v.actions[i].command == w.actions[i].command
                 && (v.actions[i].status.PendingApproval? <==> w.actions[i].status.PendingApproval?)
  {
    hide AR.Next, Verifies;
  }

  lemma {:induction false} RunIssued(site: Site, steps: seq<Step>, id: Uuid)
    requires Ideal(site.codec) && LegalRun(site, steps) && id in Run(site, steps).actions
    ensures Issued(site, Run(site, steps), id)
  {
    RunAllIssued(site, steps);
    hide Run, LegalRun, Ideal, Issued;
  }

  lemma {:induction false} RunAllIssued(site: Site, steps: seq<Step>)
    requires Ideal(site.codec) && LegalRun(site, steps)
    ensures forall i :: i in Run(site, steps).actions ==> Issued(site, Run(site, steps), i)
  {
    hide Next, Legal, Ideal, Issued, Invariant;
    if steps != [] {
      RunAllIssued(site, steps[..|steps| - 1]);
      RunInvariant(site, steps[..|steps| - 1]);
      IssuedNext(site, Run(site, steps[..|steps| - 1]), steps[|steps| - 1]);
    }
  }

  /** The order transmitted for any action past its approval, a reboot included, verifies exactly from a minute
      before it was issued to a minute after it expires, five minutes later. */
  lemma OrdersVerifyInTheirWindow(site: Site, steps: seq<Step>, id: Uuid, signature: string, now: int)
    requires Ideal(site.codec) && LegalRun(site, steps)
    requires id in Run(site, steps).actions && !Run(site, steps).actions[id].status.PendingApproval?
    ensures var w := Run(site, steps);
            var a := w.actions[id].command;
            && Signable(a) && a.expiresAt == a.issuedAt + 300
            && (Verifies(site, w, Transmitted(site.codec, a, signature), now) <==> a.issuedAt - 60 <= now <= a.expiresAt + 60)
  {
    RunInvariant(site, steps);
    RunIssued(site, steps, id);
    var w := Run(site, steps);
    assert Orderly(site, id, w.actions[id]);
    hide Run, LegalRun, Signed, Reported, Agreement, Faithful, Catalogued, Numerals.IsVersion4, Numerals.IsUuid, AR.Invariant;
    var a := w.actions[id].command;
    BuildersAgree(site.codec, a, signature);
    assert site.codec.parse(site.codec.format(a.issuedAt)) == Some(a.issuedAt);
    assert site.codec.parse(site.codec.format(a.expiresAt)) == Some(a.expiresAt);
    hide Payload, ServerPayload, Valid, Ideal, Identified;
  }

  // ------------------------------------------------------------ server answers

  /** A request is filed as asked for; only a reboot waits for approval. */
  lemma RequestIsFiled(site: Site, w: World, s: Step)
    requires s.Request? && s.id !in w.actions
    ensures var v := Next(site, w, s);
            && s.id in v.actions
            && var a := v.actions[s.id];
               && (a.status == PendingApproval <==> s.name == "reboot_system") && (a.status == Dispatched <==> s.name != "reboot_system")
               && a.command.id == s.id && a.command.nonce == s.nonce && a.command.name == s.name && a.command.parameters == s.parameters
               && a.command.issuedAt == s.now && a.command.expiresAt == s.now + 300 && !a.approved
               && (s.name != "reboot_system" ==> a.command.keyVersion == Some(s.key))
  {
    hide ServerPayload, Identified;
  }

  /** What moves an action on the server, exactly. */
  predicate ServerMovesTo(w: World, s: Step, id: Uuid, to: Status)
    requires id in w.actions
  {
    var a := w.actions[id];
    match to
    case Dispatched => a.status == PendingApproval && s.Approval? && s.id == id && s.now < a.command.expiresAt
    case TimedOut => a.status == Dispatched && s.Poll? && a.command.expiresAt <= s.now
    case Accepted =>
      a.status == Dispatched && s.AckArrives? && s.id == id && (id, s.token) in w.acks && s.live && s.now < a.command.expiresAt
    case Completed =>
      a.status == Accepted && s.ReportArrives? && s.id == id && (id, s.token, s.body) in w.reports && s.live
      && a.token == Some(s.token) && s.body.status == AS.Succeeded
    case Failed =>
      a.status == Accepted && s.ReportArrives? && s.id == id && (id, s.token, s.body) in w.reports && s.live
      && a.token == Some(s.token) && s.body.status == AS.Failed
    case _ => false
  }

  /** In every reachable state an action takes another status exactly by the step that is for it; a dispatched one
      has a new window, an accepted one the token, and a finished one the report. */
  lemma WhyServerMoves(site: Site, w: World, s: Step, id: Uuid, to: Status)
    requires Invariant(site, w) && id in w.actions && to != w.actions[id].status
    ensures id in Next(site, w, s).actions
    ensures var a := Next(site, w, s).actions[id];
            && (a.status == to <==> ServerMovesTo(w, s, id, to))
            && (a.status == to && to == Dispatched ==>
                  a.approved && a.command.keyVersion == Some(s.key) && a.command.issuedAt == s.now && a.command.expiresAt == s.now + 300)
            && (a.status == to && to == Accepted ==> a.token == Some(s.token))
            && (a.status == to && (to == Completed || to == Failed) ==> a.result == Some(s.body))
  {
    assert Agrees(w, id);
    if s.ReportArrives? && (s.id, s.token, s.body) in w.reports { assert Honest(w, s.id, s.body); }
    hide Next, AR.Invariant, Invariant, Signed, Faithful, Reported, Catalogued, Agreement, Honest, Agrees, ServerMovesTo;
    if s.Request? || s.Approval? {
      SigningMoves(site, w, s, id, to);
    } else if s.AckArrives? || s.ReportArrives? {
      AnswerMoves(site, w, s, id, to);
    } else {
      PollMoves(site, w, s, id, to);
    }
  }

  lemma SigningMoves(site: Site, w: World, s: Step, id: Uuid, to: Status)
    requires (s.Request? || s.Approval?) && id in w.actions && to != w.actions[id].status
    ensures id in Next(site, w, s).actions
    ensures var a := Next(site, w, s).actions[id];
            && (a.status == to <==> ServerMovesTo(w, s, id, to))
            && (a.status == to ==>
                  a.approved && a.command.keyVersion == Some(s.key) && a.command.issuedAt == s.now && a.command.expiresAt == s.now + 300)
  {
    hide ServerPayload, Signable;
  }

  lemma AnswerMoves(site: Site, w: World, s: Step, id: Uuid, to: Status)
    requires (s.AckArrives? || s.ReportArrives?) && id in w.actions && to != w.actions[id].status
    requires !w.actions[id].status.Executing? && !w.actions[id].status.Interrupted? && !w.actions[id].status.Unknown?
    requires s.ReportArrives? && (s.id, s.token, s.body) in w.reports ==> s.body.status.Succeeded? || s.body.status.Failed?
    ensures id in Next(site, w, s).actions
    ensures var a := Next(site, w, s).actions[id];
            && (a.status == to <==> ServerMovesTo(w, s, id, to))
            && (a.status == to ==> to == Accepted || to == Completed || to == Failed)
            && (a.status == to && to == Accepted ==> a.token == Some(s.token))
            && (a.status == to && (to == Completed || to == Failed) ==> a.result == Some(s.body))
  {
  }

  lemma PollMoves(site: Site, w: World, s: Step, id: Uuid, to: Status)
    requires !s.Request? && !s.Approval? && !s.AckArrives? && !s.ReportArrives? && id in w.actions && to != w.actions[id].status
    ensures id in Next(site, w, s).actions
    ensures Next(site, w, s).actions[id].status == to <==> ServerMovesTo(w, s, id, to)
    ensures Next(site, w, s).actions[id].status == to ==> to == TimedOut
  {
    hide AR.Next, Verifies;
  }

  /** The answer to an acknowledgement: fresh while the order can be accepted, a replay for the same token, else refused. */
  lemma AcknowledgeAnswers(a: Action, token: Uuid, live: bool, now: int)
    ensures var (after, r) := Acknowledge(a, token, live, now);
            && (r == Fresh <==> a.status == Dispatched && now < a.command.expiresAt && live)
            && (r == Replay <==> a.status == Accepted && a.token == Some(token))
            && (r == Fresh ==> after == a.(status := Accepted, token := Some(token)))
            && (r != Fresh ==> after == a)
  {
  }

  /** The answer to a report on an accepted action: taken from the device that accepted it, with its status. */
  lemma RecordAnswers(a: Action, token: Uuid, live: bool, b: Body)
    requires a.status == Accepted
    ensures var (after, r) := Record(a, token, live, b);
            && (r == Fresh <==> a.token == Some(token) && live)
            && (r == Replay <==> a.token == Some(token) && !live && b.status == AS.Accepted && a.result == Some(b))
            && (r != Fresh ==> after == a)
            && (r == Fresh ==>
                  && after == a.(status := after.status, result := Some(b))
                  && (after.status == Accepted <==> b.status == AS.Accepted) && (after.status == Executing <==> b.status == AS.Executing)
                  && (after.status == Completed <==> b.status == AS.Succeeded) && (after.status == Failed <==> b.status == AS.Failed)
                  && (after.status == Interrupted <==> b.status == AS.Interrupted)
                  && (after.status == Unknown <==> b.status == AS.Unknown))
  {
  }

  /** What the agent sends: an acknowledgement of any order it has, and of a finished one what its row says. */
  lemma WhatIsSent(site: Site, w: World, s: Step)
    ensures forall x :: x in Next(site, w, s).acks <==>
              x in w.acks || (s.SendAck? && x == (s.id, s.token) && s.id in w.agent.db.states)
    ensures forall x :: x in Next(site, w, s).reports <==>
              x in w.reports
              || (s.SendReport? && s.id in w.agent.db.states
                  && (w.agent.db.states[s.id].status == AS.Succeeded || w.agent.db.states[s.id].status == AS.Failed)
                  && x == (s.id, s.token, Body(w.agent.db.states[s.id].status, w.agent.db.states[s.id].exitCode,
                                               w.agent.db.states[s.id].summary)))
  {
    hide AR.Next, Verifies, ServerPayload;
  }

  /** What TIMED_OUT says: no acknowledgement was ever taken, none will be, and no report, so only the agent
      knows whether its handler was called. It was not unless the agent's row says more than ACCEPTED or
      INTERRUPTED, and it was when the row is finished. */
  lemma TimedOutIsBlind(site: Site, steps: seq<Step>, id: Uuid)
    requires Ideal(site.codec) && LegalRun(site, steps)
    requires id in Run(site, steps).actions && Run(site, steps).actions[id].status.TimedOut?
    ensures var a, m := Run(site, steps).actions[id], Run(site, steps).agent;
            && a.token.None? && a.result.None?
            && (forall token, live, now :: Acknowledge(a, token, live, now) == (a, Conflict))
            && (forall token, live, body :: Record(a, token, live, body) == (a, Conflict))
            && |AR.Runs(m, id)| <= 1
            && (id !in m.db.states || m.db.states[id].status.Accepted? || m.db.states[id].status.Interrupted? ==>
                  AR.Runs(m, id) == [])
            && (id in m.db.states && (m.db.states[id].status.Succeeded? || m.db.states[id].status.Failed?) ==>
                  |AR.Runs(m, id)| == 1)
            && (forall p :: p in m.pollers && m.pollers[p].id == id ==> (AR.Runs(m, id) != [] <==> m.pollers[p].Ran?))
  {
    RunInvariant(site, steps);
    hide Run, LegalRun, Ideal, Signed, Reported, Agreement, Faithful, Numerals.IsVersion4, Numerals.IsUuid;
    var w := Run(site, steps);
    assert Orderly(site, id, w.actions[id]);
    if id in w.agent.db.states {
      assert AR.Told(w.agent.db.states[id], AR.Runs(w.agent, id));
    }
  }

  /** The agent has no row for the action, or gave it up. */
  predicate Unstarted(m: AR.Machine, id: Uuid) {
    id in m.db.states ==> m.db.states[id].status.Interrupted?
  }

  /** An order does not verify more than a minute after its expiry. */
  lemma OldOrderFails(site: Site, w: World, o: Order, now: int)
    requires Ideal(site.codec) && Catalogued(site, w) && Signed(site, w)
    requires o.id in w.actions && now > w.actions[o.id].command.expiresAt + 60
    ensures !Verifies(site, w, o, now)
  {
    if Verifies(site, w, o, now) {
      VerifiedIsTransmitted(site, w, o, now);
    }
  }

  lemma UnstartedStays(site: Site, w: World, s: Step, id: Uuid)
    requires Ideal(site.codec) && Invariant(site, w) && id in w.actions && Unstarted(w.agent, id)
    requires s.Deliver? && s.order.id == id ==> s.now > w.actions[id].command.expiresAt + 60
    ensures Unstarted(Next(site, w, s).agent, id)
  {
    hide AR.Next, AR.Invariant, Catalogued, Signed, Faithful, Reported, Agreement, Ideal, Valid, Payload;
    match s
    case Deliver(o, now) =>
      if o.id == id { OldOrderFails(site, w, o, now); }
      if Verifies(site, w, o, now) {
        var e := AR.DoAccept(o, site.codec.parse(o.expiresAt).value + 60);
        AcceptedRows(w.agent, e);
        if id in w.agent.db.states { AR.StatusesMoveForward(w.agent, e, id); }
      }
    case Local(e) =>
      if !e.DoAccept? { LocalAddsNoRow(w.agent, e); }
      if id in w.agent.db.states { AR.StatusesMoveForward(w.agent, e, id); }
    case _ =>
  }

  /** An action that timed out before the agent took it up stays so for ever, and its handler is never
      called, if the agent is not handed its order within a minute of the expiry. */
  lemma {:induction false} TimedOutNeverRuns(site: Site, steps: seq<Step>, more: seq<Step>, id: Uuid)
    requires Ideal(site.codec) && LegalRun(site, steps + more)
    requires id in Run(site, steps).actions && Run(site, steps).actions[id].status.TimedOut?
    requires Unstarted(Run(site, steps).agent, id)
    requires forall s :: s in more && s.Deliver? && s.order.id == id ==>
                           s.now > Run(site, steps).actions[id].command.expiresAt + 60
    ensures var w := Run(site, steps + more);
            && id in w.actions && w.actions[id] == Run(site, steps).actions[id]
            && Unstarted(w.agent, id) && AR.Runs(w.agent, id) == []
    decreases |more|
  {
    hide Next, Legal, Ideal;
    RunInvariant(site, steps + more);
    if more == [] {
      assert steps + more == steps;
    } else {
      var all, last := steps + more, |more| - 1;
      assert all[..|all| - 1] == steps + more[..last] && all[|all| - 1] == more[last];
      TimedOutNeverRuns(site, steps, more[..last], id);
      var w := Run(site, steps + more[..last]);
      RunInvariant(site, steps + more[..last]);
      hide Invariant, Unstarted;
      ServerMovesForward(site, w, more[last], id);
      UnstartedStays(site, w, more[last], id);
    }
    UnstartedHasNotRun(site, Run(site, steps + more), id);
  }

  lemma UnstartedHasNotRun(site: Site, w: World, id: Uuid)
    requires Invariant(site, w) && Unstarted(w.agent, id)
    ensures AR.Runs(w.agent, id) == []
  {
    if id in w.agent.db.states {
      assert AR.Told(w.agent.db.states[id], AR.Runs(w.agent, id));
    }
  }

  /** But TIMED_OUT does not mean that nothing ran: the agent does not wait for its acknowledgement to arrive. */
  lemma TimedOutMayHaveRun(site: Site, request: Step, signature: string, poller: Uuid, late: int)
    requires Ideal(site.codec) && request.Request? && Legal(site, START, request)
    requires request.name != "reboot_system" && late >= request.now + FIVE_MINUTES
    ensures var a := Requested(NewCommand(site, request), request.key, request.now);
            var w := Run(site, [request, Deliver(Transmitted(site.codec, a.command, signature), request.now),
                                Local(AR.DoClaim(poller, request.id)), Local(AR.DoCall(poller, AS.Returned(0, ""))),
                                Poll(late)]);
            && request.id in w.actions && w.actions[request.id].status.TimedOut?
            && AR.Runs(w.agent, request.id) == [AS.Returned(0, "")]
  {
    var a := Requested(NewCommand(site, request), request.key, request.now);
    var o := Transmitted(site.codec, a.command, signature);
    var s2, s3 := Deliver(o, request.now), Local(AR.DoClaim(poller, request.id));
    var s4, s5 := Local(AR.DoCall(poller, AS.Returned(0, ""))), Poll(late);
    assert !a.status.PendingApproval? && a.status.Dispatched? && a.command.expiresAt <= late;
    hide Run, Verifies, Transmitted, Ideal, Legal, Signing, Requested, AR.Next, AR.Runs;
    RunFive(site, request, s2, s3, s4, s5);
    FirstWorld(site, request);
    FirstRun(site, request, o, signature, poller, AS.Returned(0, ""));
  }

  /** The agent takes the order of a first request and calls its handler; the server's row does not change. */
  lemma FirstRun(site: Site, request: Step, o: Order, signature: string, poller: Uuid, effect: AS.Effect)
    requires Ideal(site.codec) && request.Request? && Legal(site, START, request) && request.name != "reboot_system"
    requires o == Transmitted(site.codec, Requested(NewCommand(site, request), request.key, request.now).command, signature)
    ensures var w := Next(site, START, request);
            var v := Next(site, Next(site, Next(site, w, Deliver(o, request.now)), Local(AR.DoClaim(poller, request.id))),
                          Local(AR.DoCall(poller, effect)));
            v.actions == w.actions && AR.Runs(v.agent, request.id) == [effect]
  {
    var w := Next(site, START, request);
    FreshOrderVerifies(site, request, signature);
    FirstWorld(site, request);
    TransmittedId(site.codec, Requested(NewCommand(site, request), request.key, request.now).command, signature);
    assert site.codec.parse(o.expiresAt).Some?;
    assert o.id == request.id && w.agent == AR.IDLE;
    hide Verifies, Transmitted, Identified, Ideal, Legal, Signing, Requested;
    var expires := site.codec.parse(o.expiresAt).value + 60;
    AR.FirstExecution(o, expires, poller, effect);
    hide AR.Next, AR.Runs;
  }

  lemma FirstWorld(site: Site, request: Step)
    requires request.Request?
    ensures var w := Next(site, START, request);
            && w.actions == map[request.id := Requested(NewCommand(site, request), request.key, request.now)]
            && w.agent == AR.IDLE
  {
  }

  lemma TransmittedId(c: Codec, a: Command, signature: string)
    requires Identified(a.id, a.organization, a.device, a.nonce) && a.keyVersion.Some? && a.keyVersion.value >= 0
    ensures Transmitted(c, a, signature).id == a.id
  {
  }

  lemma FreshOrderVerifies(site: Site, request: Step, signature: string)
    requires Ideal(site.codec) && request.Request? && Legal(site, START, request) && request.name != "reboot_system"
    ensures var a := Requested(NewCommand(site, request), request.key, request.now);
            && Signable(a.command)
            && Verifies(site, Next(site, START, request), Transmitted(site.codec, a.command, signature), request.now)
  {
    var a := Requested(NewCommand(site, request), request.key, request.now);
    BuildersAgree(site.codec, a.command, signature);
    hide Payload, ServerPayload, Valid, Numerals.IsVersion4, Numerals.IsUuid;
  }

  lemma RunFive(site: Site, a: Step, b: Step, c: Step, d: Step, e: Step)
    ensures Run(site, [a, b, c, d, e])
            == Next(site, Next(site, Next(site, Next(site, Next(site, START, a), b), c), d), e)
  {
    hide Next;
    assert [a, b, c, d, e][..4] == [a, b, c, d];
    assert [a, b, c, d][..3] == [a, b, c];
    assert [a, b, c][..2] == [a, b];
    assert [a, b][..1] == [a];
    assert [a][..0] == [];
    assert Run(site, [a]) == Next(site, Run(site, []), a);
    assert Run(site, [a, b]) == Next(site, Run(site, [a]), b);
    assert Run(site, [a, b, c]) == Next(site, Run(site, [a, b]), c);
    assert Run(site, [a, b, c, d]) == Next(site, Run(site, [a, b, c]), d);
  }
}

/** The agent's durable gate for remote actions: each order is consumed once, and its handler is called
    at most once, whatever crashes. */
module ActionStore {
  import opened Wrappers
  import opened Telemetry
  import opened SigningPayload

  datatype Status = Accepted | Executing | Succeeded | Failed | Interrupted | Unknown

  /** A row of `action_states`. */
  datatype Entry = Entry(order: Order, status: Status, exitCode: Option<int>, summary: string)

  /** `consumed_nonces`, with the expiry of each nonce, and `action_states`. */
  datatype Store = Store(consumed: map<Uuid, int>, states: map<Uuid, Entry>)

  const EMPTY := Store(map[], map[])

  /** What a handler came back with: an exit code and a summary, or an exception's type name. */
  datatype Effect = Returned(exitCode: int, summary: string) | Threw(error: string)

  predicate Terminal(s: Status) { s.Succeeded? || s.Failed? || s.Interrupted? || s.Unknown? }

  // ------------------------------------------------------------ transactions

  /** `nonce TEXT UNIQUE`. */
  predicate NonceTaken(db: Store, nonce: Uuid) {
    exists id :: id in db.states && db.states[id].order.nonce == nonce
  }

  /** `accept`, for an order that `validate_order` lets pass: both rows, or neither. */
  function Accept(db: Store, o: Order, expires: int): (Store, bool) {
    if o.nonce in db.consumed || o.id in db.states || NonceTaken(db, o.nonce) then (db, false)
    else (Store(db.consumed[o.nonce := expires], db.states[o.id := Entry(o, Accepted, None, "")]), true)
  }

  function Claim(db: Store, id: Uuid): (Store, bool) {
    if id in db.states && db.states[id].status.Accepted? then
      (db.(states := db.states[id := db.states[id].(status := Executing)]), true)
    else (db, false)
  }

  /** `output_summary[:2000]`. */
  function Cut(s: string): string { if |s| <= 2_000 then s else s[..2_000] }

  /** `_finish`; it raises when the row is no longer EXECUTING. */
  function Finish(db: Store, id: Uuid, e: Effect): (Store, bool) {
    if id in db.states && db.states[id].status.Executing? then
      var row := match e
                 case Returned(code, summary) =>
                   db.states[id].(status := if code == 0 then Succeeded else Failed, exitCode := Some(code),
                                  summary := Cut(summary))
                 case Threw(error) => db.states[id].(status := Failed, exitCode := None, summary := Cut(error));
      (db.(states := db.states[id := row]), true)
    else (db, false)
  }

  predicate Expired(db: Store, nonce: Uuid, now: int) {
    nonce in db.consumed && db.consumed[nonce] <= now
  }

  /** What `reconcile_after_restart` makes of a row. */
  function Settled(db: Store, e: Entry, now: int): Entry {
    if e.status.Executing? then e.(status := Unknown)
    else if e.status.Accepted? && Expired(db, e.order.nonce, now) then e.(status := Interrupted)
    else e
  }

  function Reconcile(db: Store, now: int): Store {
    db.(states := map id | id in db.states :: Settled(db, db.states[id], now))
  }

  /** After a restart nothing is in execution: what was is UNKNOWN, an accepted order is INTERRUPTED exactly if the
      expiry recorded for its nonce has come, and every other row is as it was. */
  lemma RestartSettles(db: Store, now: int)
    ensures var after := Reconcile(db, now);
            && after.consumed == db.consumed && after.states.Keys == db.states.Keys
            && (forall id :: id in after.states ==> after.states[id].status != Executing)
            && forall id :: id in db.states ==>
                 var e := db.states[id];
                 && (e.status == Executing ==> after.states[id] == e.(status := Unknown))
                 && (e.status == Accepted && e.order.nonce in db.consumed && db.consumed[e.order.nonce] <= now ==>
                       after.states[id] == e.(status := Interrupted))
                 && (e.status == Accepted && !(e.order.nonce in db.consumed && db.consumed[e.order.nonce] <= now) ==>
                       after.states[id] == e)
                 && (e.status != Executing && e.status != Accepted ==> after.states[id] == e)
  {
  }

  /** The summary kept is the beginning of what the handler said, up to 2000 characters. */
  lemma CutIsPrefix(s: string)
    ensures Cut(s) <= s && |Cut(s)| == if |s| < 2_000 then |s| else 2_000
  {
  }

  /** An order is taken exactly if neither its nonce nor its id was seen before, and then both are recorded. */
  lemma AcceptanceIsExact(db: Store, o: Order, expires: int)
    ensures var (after, taken) := Accept(db, o, expires);
            && (taken <==> o.nonce !in db.consumed && forall id :: id in db.states ==> id != o.id && db.states[id].order.nonce != o.nonce)
            && (!taken ==> after == db)
            && (taken ==> after.consumed == db.consumed[o.nonce := expires]
                          && after.states == db.states[o.id := Entry(o, Accepted, None, "")])
  {
  }

  // ---------------------------------------------------------------- the class

  datatype Acceptance = Consumed | Replayed | Invalid
  datatype Execution = Absent | NoHandler | NotClaimed | Executed | StateChanged

  class SQLiteActionStore {
    const codec: Codec
    var db: Store

    constructor (codec: Codec)
      ensures this.codec == codec && db == EMPTY
    {
      this.codec := codec;
      db := EMPTY;
    }

    /** `accept`. */
    method AcceptOrder(o: Order, expires: int) returns (r: Acceptance)
      modifies this`db
      ensures r.Invalid? <==> !Valid(codec, o)
      ensures Valid(codec, o) ==> (db, r.Consumed?) == Accept(old(db), o, expires)
      ensures !Valid(codec, o) ==> db == old(db)
    {
      if !Valid(codec, o) {
        return Invalid;
      }
      var next := db;
      if o.nonce in next.consumed {
        return Replayed;
      }
      next := next.(consumed := next.consumed[o.nonce := expires]);
      if o.id in next.states || NonceTaken(next, o.nonce) {
        return Replayed;
      }
      db := next.(states := next.states[o.id := Entry(o, Accepted, None, "")]);
      return Consumed;
    }

    /** `verify_and_accept`: nothing is consumed unless the order is timely and signed. */
    method VerifyAndAccept(o: Order, now: int, keys: set<int>, signed: Order -> bool) returns (r: Acceptance)
      modifies this`db
      ensures r.Invalid? <==> !(Window(codec, o, now, 60).Some? && o.keyVersion in keys && signed(o) && Valid(codec, o))
      ensures !r.Invalid? ==> (db, r.Consumed?) == Accept(old(db), o, codec.parse(o.expiresAt).value + 60)
      ensures r.Invalid? ==> db == old(db)
    {
      var expires := Window(codec, o, now, 60);
      if expires.None? || o.keyVersion !in keys || !signed(o) {
        return Invalid;
      }
      r := AcceptOrder(o, expires.value + 60);
    }

    /** `execute_once`; `effects` is what calling the handler of a name comes back with, None where there is no handler. */
    method ExecuteOnce(id: Uuid, effects: (string, string) -> Option<Effect>) returns (r: Execution)
      modifies this`db
      ensures var known := id in old(db).states;
              && (r.Absent? <==> !known)
              && (r.NoHandler? <==>
                    known && effects(old(db).states[id].order.name, old(db).states[id].order.parameters).None?)
              && (r.Executed? ==> db == Finish(Claim(old(db), id).0, id,
                    effects(old(db).states[id].order.name, old(db).states[id].order.parameters).value).0)
              && (!r.Executed? ==> db == old(db))
              && !r.StateChanged?
              && (r.Executed? <==> !r.NoHandler? && Claim(old(db), id).1)
    {
      if id !in db.states {
        return Absent;
      }
      var order := db.states[id].order;
      var effect := effects(order.name, order.parameters);
      if effect.None? {
        return NoHandler;
      }
      var claim := Claim(db, id);
      if !claim.1 {
        return NotClaimed;
      }
      db := claim.0;
      var finish := Finish(db, id, effect.value);
      db := finish.0;
      return if finish.1 then Executed else StateChanged;
    }

    /** `reconcile_after_restart`: two UPDATEs. */
    method ReconcileAfterRestart(now: int)
      modifies this`db
      ensures db == Reconcile(old(db), now)
      ensures db.consumed == old(db).consumed && db.states.Keys == old(db).states.Keys
      ensures forall id :: id in db.states && old(db).states[id].status == Executing ==>
                db.states[id] == old(db).states[id].(status := Unknown)
      ensures forall id :: id in db.states && old(db).states[id].status == Accepted ==>
                var nonce := old(db).states[id].order.nonce;
                db.states[id] == old(db).states[id].(status :=
                                   if nonce in old(db).consumed && old(db).consumed[nonce] <= now then Interrupted else Accepted)
      ensures forall id :: id in db.states && old(db).states[id].status != Executing && old(db).states[id].status != Accepted ==>
                db.states[id] == old(db).states[id]
    {
      RestartSettles(db, now);
      hide Reconcile;
      var before := db;
      var marked := before.(states := map id | id in before.states ::
        if before.states[id].status.Executing? then before.states[id].(status := Unknown) else before.states[id]);
      db := marked.(states := map id | id in marked.states ::
        if marked.states[id].status.Accepted? && Expired(marked, marked.states[id].order.nonce, now) then
          marked.states[id].(status := Interrupted)
        else marked.states[id]);
      TwoUpdates(before, marked, db, now);
    }
  }

  /** The two UPDATEs together settle every row. */
  lemma TwoUpdates(before: Store, marked: Store, after: Store, now: int)
    requires marked.consumed == before.consumed == after.consumed
    requires marked.states == map id | id in before.states ::
               if before.states[id].status.Executing? then before.states[id].(status := Unknown) else before.states[id]
    requires after.states == map id | id in marked.states ::
               if marked.states[id].status.Accepted? && Expired(marked, marked.states[id].order.nonce, now) then
                 marked.states[id].(status := Interrupted)
               else marked.states[id]
    ensures after == Reconcile(before, now)
  {
    assert after.states.Keys == before.states.Keys;
    forall id | id in before.states ensures after.states[id] == Settled(before, before.states[id], now) {
      assert id in marked.states && marked.states[id].order == before.states[id].order;
    }
    hide Settled, Expired;
  }
}

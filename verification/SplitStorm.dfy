/** 413 handling: an exact potential, and the pieces a storm of 413 answers leaves in quarantine. */
module SplitStorm {
  import opened Wrappers
  import opened Telemetry
  import opened QueueTables
  import opened QueueTransactions
  import opened QueueInvariants
  import opened DispatchPolicy

  // ----------------------------------------------------------- the split tree

  /** The pieces that repeated halving leaves, left to right. */
  function Leaves(samples: seq<Sample>, depth: nat): seq<seq<Sample>>
    decreases |samples|
  {
    if |samples| < 2 || depth >= MAX_SPLIT_DEPTH then [samples]
    else Leaves(samples[..|samples| / 2], depth + 1) + Leaves(samples[|samples| / 2..], depth + 1)
  }

  /** How many 413 answers it takes to get rid of a batch: one for each node of its split tree. */
  function Answers(n: nat, depth: nat): nat
    decreases n
  {
    if n < 2 || depth >= MAX_SPLIT_DEPTH then 1
    else 1 + Answers(n / 2, depth + 1) + Answers(n - n / 2, depth + 1)
  }

  function Flatten(parts: seq<seq<Sample>>): seq<Sample> {
    if parts == [] then [] else parts[0] + Flatten(parts[1..])
  }

  lemma {:induction false} FlattenConcat(a: seq<seq<Sample>>, b: seq<seq<Sample>>)
    ensures Flatten(a + b) == Flatten(a) + Flatten(b)
  {
    if a == [] {
      assert a + b == b;
    } else {
      assert (a + b)[1..] == a[1..] + b;
      FlattenConcat(a[1..], b);
    }
  }

  /** The pieces, left to right, are the batch. */
  lemma {:induction false} LeavesConcatenate(samples: seq<Sample>, depth: nat)
    ensures Flatten(Leaves(samples, depth)) == samples
    decreases |samples|
  {
    if |samples| < 2 || depth >= MAX_SPLIT_DEPTH {
      assert Flatten([samples]) == samples + Flatten([]);
    } else {
      var mid := |samples| / 2;
      LeavesConcatenate(samples[..mid], depth + 1);
      LeavesConcatenate(samples[mid..], depth + 1);
      FlattenConcat(Leaves(samples[..mid], depth + 1), Leaves(samples[mid..], depth + 1));
    }
  }

  /** The tree is full and binary, so it has one node less than twice its leaves. */
  lemma {:induction false} AnswersCountNodes(samples: seq<Sample>, depth: nat)
    ensures Answers(|samples|, depth) == 2 * |Leaves(samples, depth)| - 1
    decreases |samples|
  {
    if !(|samples| < 2 || depth >= MAX_SPLIT_DEPTH) {
      AnswersCountNodes(samples[..|samples| / 2], depth + 1);
      AnswersCountNodes(samples[|samples| / 2..], depth + 1);
    }
  }

  function Widest(depth: nat): nat {
    if depth == 0 then 8 else if depth == 1 then 4 else if depth == 2 then 2 else 1
  }

  /** A batch of `n` samples breaks into at most `n` pieces, and never into more than eight. */
  lemma {:induction false} AnswersBounded(n: nat, depth: nat)
    requires n >= 1
    ensures 1 <= Answers(n, depth) <= 2 * n - 1
    ensures Answers(n, depth) <= 2 * Widest(depth) - 1
    decreases n
  {
    if !(n < 2 || depth >= MAX_SPLIT_DEPTH) {
      AnswersBounded(n / 2, depth + 1);
      AnswersBounded(n - n / 2, depth + 1);
    }
  }

  // ------------------------------------------------------------- measures

  function Weight(): Row -> nat {
    (r: Row) => Answers(|r.samples|, r.depth)
  }

  /** How often `leaf` is among the pieces of a row. */
  function Pieces(leaf: seq<Sample>): Row -> nat {
    (r: Row) => multiset(Leaves(r.samples, r.depth))[leaf]
  }

  /** How many 413 answers the whole queue can still absorb. */
  function Potential(rows: seq<Row>): nat {
    Tally(rows, Weight())
  }

  /** How many sealed rows hold exactly these samples. */
  function SealedCopies(rows: seq<Sealed>, leaf: seq<Sample>): nat {
    if rows == [] then 0 else (if rows[0].samples == leaf then 1 else 0) + SealedCopies(rows[1..], leaf)
  }

  lemma {:induction false} SealedCopiesConcat(a: seq<Sealed>, b: seq<Sealed>, leaf: seq<Sample>)
    ensures SealedCopies(a + b, leaf) == SealedCopies(a, leaf) + SealedCopies(b, leaf)
  {
    if a == [] {
      assert a + b == b;
    } else {
      assert (a + b)[1..] == a[1..] + b;
      SealedCopiesConcat(a[1..], b, leaf);
    }
  }

  lemma {:induction false} SealedCopiesKept(rows: seq<Sealed>, now: int, leaf: seq<Sample>)
    ensures SealedCopies(rows, leaf) == SealedCopies(Kept(rows, now, false), leaf) + SealedCopies(Kept(rows, now, true), leaf)
  {
    if rows != [] {
      SealedCopiesKept(rows[1..], now, leaf);
    }
  }

  /** The pieces of everything queued, and everything already sealed. */
  function Copies(db: Database, leaf: seq<Sample>): nat {
    Tally(db.queue, Pieces(leaf)) + SealedCopies(db.batches, leaf) + SealedCopies(db.singles, leaf)
  }

  // ------------------------------------------------------- what one answer does

  /** A committed INSERT adds its row to a tally and the evicted rows leave it. */
  lemma InsertTally(c: Config, db: Database, id: Uuid, parent: Option<Uuid>, samples: seq<Sample>,
                    depth: nat, critical: bool, now: int, f: Row -> nat) returns (row: Row)
    requires InsertTx(c, db, id, parent, samples, depth, critical, now).verdict.Done?
    ensures var ch := InsertTx(c, db, id, parent, samples, depth, critical, now);
            && row.samples == samples && row.depth == depth
            && Tally(ch.db.queue, f) + Tally(ch.evicted, f) == Tally(db.queue, f) + f(row)
            && ch.db.batches == db.batches && ch.db.singles == db.singles && ch.expired == []
  {
    var ch := InsertTx(c, db, id, parent, samples, depth, critical, now);
    var k := RoomFor(c, db, c.packed(samples)).value;
    var kept := Survivors(db.queue, k);
    row := ch.db.queue[|kept|];
    assert ch.db.queue == kept + [row];
    TallySurvivors(db.queue, k, f);
    TallyAppend(kept, row, f);
  }

  /** A committed split replaces, in any tally, the parent by its two halves; only evictions add to that. */
  lemma SplitTally(c: Config, db: Database, i: nat, left: Uuid, right: Uuid, now: int, later: int, f: Row -> nat)
    returns (one: Row, two: Row)
    requires UniqueIds(db.queue) && i < |db.queue|
    requires Split(c, db, Snapshot(db.queue[i]), left, right, now, later).verdict.Done?
    ensures var ch := Split(c, db, Snapshot(db.queue[i]), left, right, now, later);
            var row := db.queue[i];
            && one.samples == row.samples[..|row.samples| / 2] && two.samples == row.samples[|row.samples| / 2..]
            && one.depth == two.depth == row.depth + 1
            && Tally(ch.db.queue, f) + Tally(ch.evicted, f) + f(row) == Tally(db.queue, f) + f(one) + f(two)
            && ch.db.batches == db.batches && ch.db.singles == db.singles && ch.expired == []
  {
    hide InsertTx;
    var row := db.queue[i];
    var batch := Snapshot(row);
    assert IndexOf(db.queue, batch.id) == Some(i);
    var base := db.(queue := Without(db.queue, i));
    var mid := |row.samples| / 2;
    var first := SplitFirst(c, db, batch, i, left, now);
    var second := SplitSecond(c, first.db, batch, row.critical, right, later);
    one := InsertTally(c, base, left, Some(row.id), row.samples[..mid], row.depth + 1, row.critical, now, f);
    two := InsertTally(c, first.db, right, Some(row.id), row.samples[mid..], row.depth + 1, row.critical, later, f);
    TallyWithout(db.queue, i, f);
    TallyConcat(first.evicted, second.evicted, f);
  }

  /** Vacating takes the row out of any tally; purging and evictions account for the rest. */
  lemma VacateTally(c: Config, db: Database, i: nat, size: nat, now: int, f: Row -> nat)
    requires UniqueIds(db.queue) && i < |db.queue|
    requires Vacate(c, db, Snapshot(db.queue[i]), size, now).verdict.Done?
    ensures var ch := Vacate(c, db, Snapshot(db.queue[i]), size, now);
            && Tally(ch.db.queue, f) + Tally(ch.evicted, f) + f(db.queue[i]) == Tally(db.queue, f)
            && ch.db.batches == Kept(db.batches, now, false) && ch.db.singles == Kept(db.singles, now, false)
            && ch.expired == Kept(db.batches, now, true) + Kept(db.singles, now, true)
  {
    assert IndexOf(db.queue, db.queue[i].id) == Some(i);
    var gone := Purge(db, now).db.(queue := Without(db.queue, i));
    var k := RoomFor(c, gone, size).value;
    hide Kept, Without, Evictions, EvictionOrder, Survivors;
    TallyWithout(db.queue, i, f);
    TallySurvivors(gone.queue, k, f);
  }

  /** One successful 413 answer uses up exactly one unit of the queue's potential; eviction can only
      take more. */
  lemma AnswerLowersPotential(c: Config, db: Database, i: nat, d: Draw)
    requires Keys(c, db.queue) && i < |db.queue|
    requires !Handle413(c, db, Snapshot(db.queue[i]), d).1.Failed?
    ensures var ch := Handle413(c, db, Snapshot(db.queue[i]), d).0;
            Potential(ch.db.queue) + Potential(ch.evicted) + 1 == Potential(db.queue)
  {
    hide Tally, Split, Vacate;
    var row := db.queue[i];
    assert WellFormed(c, row);
    if |row.samples| == 1 || row.depth >= MAX_SPLIT_DEPTH {
      VacateTally(c, db, i, c.seal(row.samples).value, d.now, Weight());
    } else {
      var one, two := SplitTally(c, db, i, d.left, d.right, d.now, d.later, Weight());
    }
  }

  /** The pieces of a row that is split are the pieces of its halves. */
  lemma PiecesOfHalves(row: Row, one: Row, two: Row, leaf: seq<Sample>)
    requires |row.samples| >= 2 && row.depth < MAX_SPLIT_DEPTH
    requires one.samples == row.samples[..|row.samples| / 2] && two.samples == row.samples[|row.samples| / 2..]
    requires one.depth == two.depth == row.depth + 1
    ensures Pieces(leaf)(row) == Pieces(leaf)(one) + Pieces(leaf)(two)
  {
  }

  lemma SealedRowCopies(rows: seq<Sealed>, r: Sealed, leaf: seq<Sample>)
    ensures SealedCopies(rows + [r], leaf) == SealedCopies(rows, leaf) + if r.samples == leaf then 1 else 0
  {
    SealedCopiesConcat(rows, [r], leaf);
    assert SealedCopies([r], leaf) == (if r.samples == leaf then 1 else 0) + SealedCopies([], leaf);
  }

  /** Sealing a row that cannot be split turns its one piece into one sealed copy. */
  lemma SealedPiece(c: Config, db: Database, i: nat, d: Draw, leaf: seq<Sample>)
    requires Keys(c, db.queue) && i < |db.queue|
    requires |db.queue[i].samples| == 1 || db.queue[i].depth >= MAX_SPLIT_DEPTH
    requires !Handle413(c, db, Snapshot(db.queue[i]), d).1.Failed?
    ensures var ch := Handle413(c, db, Snapshot(db.queue[i]), d).0;
            Copies(ch.db, leaf) + Tally(ch.evicted, Pieces(leaf)) + SealedCopies(ch.expired, leaf) == Copies(db, leaf)
  {
    hide Vacate, Tally, Split, Kept, SealedCopies;
    var row := db.queue[i];
    assert Pieces(leaf)(row) == if row.samples == leaf then 1 else 0;
    hide Leaves;
    var size := c.seal(row.samples).value;
    var v := Vacate(c, db, Snapshot(row), size, d.now);
    VacateTally(c, db, i, size, d.now, Pieces(leaf));
    SealedCopiesKept(db.batches, d.now, leaf);
    SealedCopiesKept(db.singles, d.now, leaf);
    SealedCopiesConcat(Kept(db.batches, d.now, true), Kept(db.singles, d.now, true), leaf);
    if |row.samples| == 1 {
      SealedRowCopies(v.db.singles, Sealed(d.key, row.id, row.samples, size, d.now + c.retention), leaf);
    } else {
      SealedRowCopies(v.db.batches, Sealed(row.id, row.id, row.samples, size, d.now + c.retention), leaf);
    }
  }

  /** No 413 answer makes or loses a piece, other than by eviction and expiry. */
  lemma AnswerKeepsPieces(c: Config, db: Database, i: nat, d: Draw, leaf: seq<Sample>)
    requires Keys(c, db.queue) && i < |db.queue|
    requires !Handle413(c, db, Snapshot(db.queue[i]), d).1.Failed?
    ensures var ch := Handle413(c, db, Snapshot(db.queue[i]), d).0;
            Copies(ch.db, leaf) + Tally(ch.evicted, Pieces(leaf)) + SealedCopies(ch.expired, leaf) == Copies(db, leaf)
  {
    hide Tally, Split, Vacate, SealedCopies;
    var row := db.queue[i];
    assert WellFormed(c, row);
    if |row.samples| == 1 || row.depth >= MAX_SPLIT_DEPTH {
      SealedPiece(c, db, i, d, leaf);
    } else {
      var one, two := SplitTally(c, db, i, d.left, d.right, d.now, d.later, Pieces(leaf));
      PiecesOfHalves(row, one, two, leaf);
      assert SealedCopies([], leaf) == 0 by { NoCopies(leaf); }
    }
  }

  lemma NoCopies(leaf: seq<Sample>)
    ensures SealedCopies([], leaf) == 0
  {
  }

  // ------------------------------------------------------------- the storm

  /** One dispatch that the server answers with 413. */
  function Refused(c: Config, db: Database, d: Draw): (Change, Outcome) {
    Dispatch(c, db, Http(413, "", false), 0, d)
  }

  /** The store after the dispatches `ds`, all of them answered 413. */
  function Storm(c: Config, db: Database, ds: seq<Draw>): Database {
    if ds == [] then db else Refused(c, Storm(c, db, ds[..|ds| - 1]), ds[|ds| - 1]).0.db
  }

  /** Every dispatch found a batch due and its answer was dealt with. */
  predicate AllServed(c: Config, db: Database, ds: seq<Draw>) {
    ds == [] || (AllServed(c, db, ds[..|ds| - 1])
                 && var o := Refused(c, Storm(c, db, ds[..|ds| - 1]), ds[|ds| - 1]).1; !o.Empty? && !o.Failed?)
  }

  /** No dispatch evicted a row or let a sealed one expire. */
  predicate Undisturbed(c: Config, db: Database, ds: seq<Draw>) {
    ds == [] || (Undisturbed(c, db, ds[..|ds| - 1])
                 && var ch := Refused(c, Storm(c, db, ds[..|ds| - 1]), ds[|ds| - 1]).0;
                    ch.evicted == [] && ch.expired == [])
  }

  /** A served dispatch is the handling of the 413 answer to some queued row. */
  lemma ServedRow(c: Config, db: Database, d: Draw) returns (i: nat)
    requires !Refused(c, db, d).1.Empty? && !Refused(c, db, d).1.Failed?
    ensures i < |db.queue| && Refused(c, db, d) == Handle413(c, db, Snapshot(db.queue[i]), d)
  {
    i := Oldest(db.queue, DueAt(d.asked)).value;
  }

  lemma RefusedSound(c: Config, db: Database, d: Draw)
    requires Sound(c, db)
    ensures Sound(c, Refused(c, db, d).0.db)
  {
    hide Sound, Split, QuarantineBatch, QuarantineSample;
    if NextBatch(db, d.asked).Some? {
      var batch := NextBatch(db, d.asked).value;
      SplitSound(c, db, batch, d.left, d.right, d.now, d.later);
      QuarantineBatchSound(c, db, batch, false, d.now);
      QuarantineSampleSound(c, db, batch, d.key, d.now);
    }
  }

  lemma {:induction false} StormSound(c: Config, db: Database, ds: seq<Draw>)
    requires Sound(c, db)
    ensures Sound(c, Storm(c, db, ds))
  {
    if ds != [] {
      StormSound(c, db, ds[..|ds| - 1]);
      RefusedSound(c, Storm(c, db, ds[..|ds| - 1]), ds[|ds| - 1]);
    }
  }

  /** A storm of 413 answers ends: no more dispatches can be served than the potential at its start,
      and each lowers it by one at least, by exactly one when nothing is evicted. */
  lemma {:induction false} StormEnds(c: Config, db: Database, ds: seq<Draw>)
    requires Sound(c, db) && AllServed(c, db, ds)
    ensures Potential(Storm(c, db, ds).queue) + |ds| <= Potential(db.queue)
    ensures Undisturbed(c, db, ds) ==> Potential(Storm(c, db, ds).queue) + |ds| == Potential(db.queue)
  {
    if ds != [] {
      var before := Storm(c, db, ds[..|ds| - 1]);
      var d := ds[|ds| - 1];
      StormEnds(c, db, ds[..|ds| - 1]);
      StormSound(c, db, ds[..|ds| - 1]);
      var i := ServedRow(c, before, d);
      hide Refused, Handle413;
      AnswerLowersPotential(c, before, i, d);
    }
  }

  /** What an undisturbed storm has sealed and still queues is, piece for piece, what it started from. */
  lemma {:induction false} StormKeepsPieces(c: Config, db: Database, ds: seq<Draw>, leaf: seq<Sample>)
    requires Sound(c, db) && AllServed(c, db, ds) && Undisturbed(c, db, ds)
    ensures Copies(Storm(c, db, ds), leaf) == Copies(db, leaf)
  {
    if ds != [] {
      var before := Storm(c, db, ds[..|ds| - 1]);
      var d := ds[|ds| - 1];
      StormKeepsPieces(c, db, ds[..|ds| - 1], leaf);
      StormSound(c, db, ds[..|ds| - 1]);
      var i := ServedRow(c, before, d);
      NoCopies(leaf);
      hide Refused, Handle413, Copies, SealedCopies;
      AnswerKeepsPieces(c, before, i, d, leaf);
    }
  }

  /** Every queued row still has an answer to absorb. */
  lemma {:induction false} PotentialCounts(rows: seq<Row>)
    requires forall r :: r in rows ==> r.samples != []
    ensures Potential(rows) >= |rows|
  {
    if rows != [] {
      PotentialCounts(rows[1..]);
      AnswersBounded(|rows[0].samples|, rows[0].depth);
    }
  }

  /** One fresh batch refused to the end: after as many answers as its split tree has nodes, at most
      15 and fewer than twice its samples, the queue is empty and quarantine holds exactly the tree's
      leaves, which left to right are the batch. */
  lemma OneBatchStorm(c: Config, r: Row, ds: seq<Draw>)
    requires Sound(c, Database([r], [], [], [])) && r.depth == 0
    requires |ds| == Answers(|r.samples|, 0)
    requires AllServed(c, Database([r], [], [], []), ds) && Undisturbed(c, Database([r], [], [], []), ds)
    ensures var end := Storm(c, Database([r], [], [], []), ds);
            && end.queue == []
            && (forall leaf: seq<Sample> ::
                  SealedCopies(end.batches, leaf) + SealedCopies(end.singles, leaf) == multiset(Leaves(r.samples, 0))[leaf])
    ensures |ds| <= 15 && |ds| < 2 * |r.samples|
    ensures Flatten(Leaves(r.samples, 0)) == r.samples
  {
    var db := Database([r], [], [], []);
    var end := Storm(c, db, ds);
    assert r in db.queue;
    LeavesConcatenate(r.samples, 0);
    AnswersBounded(|r.samples|, 0);
    TallyAppend([], r, Weight());
    assert [] + [r] == [r];
    StormEnds(c, db, ds);
    StormSound(c, db, ds);
    PotentialCounts(end.queue);
    forall leaf: seq<Sample>
      ensures SealedCopies(end.batches, leaf) + SealedCopies(end.singles, leaf) == multiset(Leaves(r.samples, 0))[leaf]
    {
      StormKeepsPieces(c, db, ds, leaf);
      TallyAppend([], r, Pieces(leaf));
      NoCopies(leaf);
    }
  }
}

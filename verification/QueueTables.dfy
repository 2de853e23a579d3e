/** The tables of the agent's local SQLite store, and the eviction order over the queue. */
module QueueTables {
  import opened Wrappers
  import opened Telemetry

  /** A row of `queued_batches`; `size` is the length of the compressed payload. */
  datatype Row = Row(
    rowid: nat, id: Uuid, parent: Option<Uuid>, samples: seq<Sample>, size: nat,
    critical: bool, depth: nat, attempts: nat, nextAttempt: int, createdAt: int)

  /** A row of `batch_quarantine` or `sample_quarantine`; `samples` is what the ciphertext seals. */
  datatype Sealed = Sealed(key: Uuid, batch: Uuid, samples: seq<Sample>, size: nat, purgeAfter: int)

  datatype Cause = QueueQuota | PhysicalQuota

  /** A row of `local_audit`. */
  datatype Audit =
    | FifoEviction(batch: Uuid, cause: Cause)
    | PayloadExpired(key: Uuid)
    | BatchQuarantined(batch: Uuid, http422: bool)
    | SampleQuarantined(key: Uuid, batch: Uuid)

  /** The whole store. The queue is listed in rowid order. */
  datatype Database = Database(queue: seq<Row>, batches: seq<Sealed>, singles: seq<Sealed>, audit: seq<Audit>)

  const EMPTY := Database([], [], [], [])

  // ---------------------------------------------------------------- measures

  function Bytes(rows: seq<Row>): nat {
    if rows == [] then 0 else rows[0].size + Bytes(rows[1..])
  }

  function SealedBytes(rows: seq<Sealed>): nat {
    if rows == [] then 0 else rows[0].size + SealedBytes(rows[1..])
  }

  function QuarantineBytes(db: Database): nat {
    SealedBytes(db.batches) + SealedBytes(db.singles)
  }

  /** The samples the rows carry; with `onlyCritical`, those of the protected rows alone. */
  function Carried(rows: seq<Row>, onlyCritical: bool): multiset<Sample> {
    if rows == [] then multiset{}
    else (if onlyCritical && !rows[0].critical then multiset{} else multiset(rows[0].samples))
         + Carried(rows[1..], onlyCritical)
  }

  function SealedSamples(rows: seq<Sealed>): multiset<Sample> {
    if rows == [] then multiset{} else multiset(rows[0].samples) + SealedSamples(rows[1..])
  }

  lemma Regroup<T>(a: multiset<T>, b: multiset<T>, c: multiset<T>)
    ensures (a + b) + c == a + (c + b)
  {
  }

  lemma {:induction false} BytesConcat(a: seq<Row>, b: seq<Row>)
    ensures Bytes(a + b) == Bytes(a) + Bytes(b)
  {
    if a == [] {
      assert a + b == b;
    } else {
      assert (a + b)[1..] == a[1..] + b;
      BytesConcat(a[1..], b);
    }
  }

  lemma {:induction false} CarriedConcat(a: seq<Row>, b: seq<Row>, onlyCritical: bool)
    ensures Carried(a + b, onlyCritical) == Carried(a, onlyCritical) + Carried(b, onlyCritical)
  {
    if a == [] {
      assert a + b == b;
    } else {
      assert (a + b)[1..] == a[1..] + b;
      CarriedConcat(a[1..], b, onlyCritical);
    }
  }

  lemma {:induction false} SealedConcat(a: seq<Sealed>, b: seq<Sealed>)
    ensures SealedBytes(a + b) == SealedBytes(a) + SealedBytes(b)
    ensures SealedSamples(a + b) == SealedSamples(a) + SealedSamples(b)
  {
    if a == [] {
      assert a + b == b;
    } else {
      assert (a + b)[1..] == a[1..] + b;
      SealedConcat(a[1..], b);
    }
  }

  // ------------------------------------------------------------------- keys

  /** rowids grow along the table, as SQLite hands out `max(rowid) + 1`. */
  predicate Ordered(rows: seq<Row>) {
    forall i, j :: 0 <= i < j < |rows| ==> rows[i].rowid < rows[j].rowid
  }

  /** `batch_id` is the primary key. */
  predicate UniqueIds(rows: seq<Row>) {
    forall i, j :: 0 <= i < j < |rows| ==> rows[i].id != rows[j].id
  }

  predicate HasId(rows: seq<Row>, id: Uuid) {
    exists i :: 0 <= i < |rows| && rows[i].id == id
  }

  function NextRowid(rows: seq<Row>): nat {
    if rows == [] then 1 else rows[|rows| - 1].rowid + 1
  }

  /** The next rowid is one past the largest. */
  lemma RowidsGrow(rows: seq<Row>)
    requires Ordered(rows)
    ensures forall r :: r in rows ==> r.rowid < NextRowid(rows)
    ensures if rows == [] then NextRowid(rows) == 1 else exists r :: r in rows && NextRowid(rows) == r.rowid + 1
  {
    if rows != [] { assert rows[|rows| - 1] in rows; }
  }

  /** The position of the row with this key. */
  function IndexOf(rows: seq<Row>, id: Uuid): (r: Option<nat>)
    ensures r.Some? ==> r.value < |rows| && rows[r.value].id == id
    ensures r.None? <==> !HasId(rows, id)
  {
    if rows == [] then None
    else if rows[0].id == id then assert HasId(rows, id); Some(0)
    else match IndexOf(rows[1..], id)
      case None => None
      case Some(i) => Some(i + 1)
  }

  /** The table without row `i`. */
  function Without(rows: seq<Row>, i: nat): seq<Row>
    requires i < |rows|
  {
    rows[..i] + rows[i + 1..]
  }

  lemma WithoutKeys(rows: seq<Row>, i: nat)
    requires i < |rows|
    ensures forall x :: x in Without(rows, i) ==> x in rows
    ensures forall x :: x in rows ==> x == rows[i] || x in Without(rows, i)
    ensures Ordered(rows) ==> Ordered(Without(rows, i)) && rows[i] !in Without(rows, i)
    ensures UniqueIds(rows) ==> UniqueIds(Without(rows, i)) && !HasId(Without(rows, i), rows[i].id)
  {
    assert rows == rows[..i] + [rows[i]] + rows[i + 1..];
  }

  lemma WithoutBytes(rows: seq<Row>, i: nat)
    requires i < |rows|
    ensures Bytes(rows) == Bytes(Without(rows, i)) + rows[i].size
  {
    var tail := rows[i..];
    assert rows == rows[..i] + tail;
    BytesConcat(rows[..i], tail);
    assert tail[1..] == rows[i + 1..];
    BytesConcat(rows[..i], rows[i + 1..]);
  }

  lemma WithoutCarried(rows: seq<Row>, i: nat, onlyCritical: bool)
    requires i < |rows|
    ensures Carried(rows, onlyCritical)
            == Carried(Without(rows, i), onlyCritical) + Carried([rows[i]], onlyCritical)
  {
    var tail := rows[i..];
    assert rows == rows[..i] + tail;
    CarriedConcat(rows[..i], tail, onlyCritical);
    assert tail == [rows[i]] + rows[i + 1..];
    CarriedConcat([rows[i]], rows[i + 1..], onlyCritical);
    CarriedConcat(rows[..i], rows[i + 1..], onlyCritical);
  }

  lemma WithoutRows(rows: seq<Row>, i: nat)
    requires i < |rows|
    ensures multiset(rows) == multiset(Without(rows, i)) + multiset{rows[i]}
  {
    assert rows == rows[..i] + [rows[i]] + rows[i + 1..];
  }

  // --------------------------------------------------------------- selection

  /** The order `created_at, rowid` in which rows are dispatched and evicted. */
  predicate Older(a: Row, b: Row) {
    a.createdAt < b.createdAt || (a.createdAt == b.createdAt && a.rowid < b.rowid)
  }

  /** An earlier row is older, and of two created at once the one with the lower rowid; a row never precedes one
      that precedes it. */
  lemma OlderIsOrder(a: Row, b: Row)
    ensures a.createdAt < b.createdAt ==> Older(a, b)
    ensures a.createdAt == b.createdAt ==> (Older(a, b) <==> a.rowid < b.rowid)
    ensures Older(a, b) ==> !Older(b, a)
  {
  }

  /** `WHERE critical = 0`. */
  predicate Evictable(r: Row) { !r.critical }

  /** `WHERE next_attempt_at <= now`. */
  predicate Due(r: Row, now: int) { r.nextAttempt <= now }

  /** Which rows a SELECT looks at: the evictable ones, or those due at an instant. */
  datatype Filter = Unprotected | DueAt(now: int)

  predicate Matches(r: Row, f: Filter) {
    match f
    case Unprotected => Evictable(r)
    case DueAt(now) => Due(r, now)
  }

  /** `SELECT ... WHERE f ORDER BY created_at, rowid LIMIT 1`. */
  function Oldest(rows: seq<Row>, f: Filter): (r: Option<nat>)
    ensures r.Some? ==> r.value < |rows| && Matches(rows[r.value], f)
  {
    if rows == [] then None
    else
      var n := |rows| - 1;
      match Oldest(rows[..n], f)
      case None => if Matches(rows[n], f) then Some(n) else None
      case Some(i) =>
        if Matches(rows[n], f) && rows[n].createdAt < rows[i].createdAt then Some(n) else Some(i)
  }

  /** The selected row matches and precedes every other row that does; no row is selected only
      when none matches. */
  lemma {:induction false} OldestIsFirst(rows: seq<Row>, f: Filter)
    ensures match Oldest(rows, f)
            case None => forall x :: x in rows ==> !Matches(x, f)
            case Some(i) => Ordered(rows) ==>
                              forall x :: x in rows && Matches(x, f) ==> x == rows[i] || Older(rows[i], x)
  {
    if rows != [] {
      var most, last := rows[..|rows| - 1], rows[|rows| - 1];
      assert rows == most + [last];
      hide *;
      OldestIsFirst(most, f);
      OldestNext(most, last, f);
      LastIsNewest(most, last);
      var i := Oldest(most, f);
      if i.Some? && Ordered(rows) {
        assert rows[i.value] == most[i.value] && most[i.value] in most;
        OlderAfter(most, most[i.value], last, f);
      }
    }
  }

  /** A newer row last does not come before the first, unless it was created earlier, and then it comes before all. */
  lemma OlderAfter(rows: seq<Row>, first: Row, last: Row, f: Filter)
    requires first in rows && forall x :: x in rows ==> x.rowid < last.rowid
    requires forall x :: x in rows && Matches(x, f) ==> x == first || Older(first, x)
    ensures if last.createdAt < first.createdAt then forall x :: x in rows && Matches(x, f) ==> Older(last, x)
            else Older(first, last)
  {
    hide Matches;
  }

  /** One more row is looked at last. */
  lemma OldestNext(rows: seq<Row>, last: Row, f: Filter)
    ensures Oldest(rows + [last], f)
            == match Oldest(rows, f)
               case None => if Matches(last, f) then Some(|rows|) else None
               case Some(i) => if Matches(last, f) && last.createdAt < rows[i].createdAt then Some(|rows|) else Some(i)
  {
    assert (rows + [last])[..|rows|] == rows;
    hide Matches;
  }

  lemma LastIsNewest(rows: seq<Row>, last: Row)
    ensures Ordered(rows + [last]) ==> Ordered(rows) && forall x :: x in rows ==> x.rowid < last.rowid
    ensures forall x :: x in rows + [last] <==> x in rows || x == last
  {
    if Ordered(rows + [last]) {
      var all := rows + [last];
      assert forall i :: 0 <= i < |rows| ==> all[i] == rows[i];
      assert all[|rows|] == last;
    }
  }

  // ---------------------------------------------------------------- eviction

  /** Every evictable row, oldest first. */
  function EvictionOrder(rows: seq<Row>): seq<Row>
    decreases |rows|
  {
    match Oldest(rows, Unprotected)
    case None => []
    case Some(i) => [rows[i]] + EvictionOrder(Without(rows, i))
  }

  /** What is left of the table once the first `k` rows of the eviction order are gone. */
  function Survivors(rows: seq<Row>, k: nat): seq<Row>
    requires k <= |EvictionOrder(rows)|
    decreases k
  {
    if k == 0 then rows else Survivors(Without(rows, Oldest(rows, Unprotected).value), k - 1)
  }

  /** Eviction adds no row and keeps the keys in order. */
  lemma {:induction false} SurvivorsKeys(rows: seq<Row>, k: nat)
    requires k <= |EvictionOrder(rows)|
    ensures forall x :: x in Survivors(rows, k) ==> x in rows
    ensures Ordered(rows) ==> Ordered(Survivors(rows, k))
    ensures UniqueIds(rows) ==> UniqueIds(Survivors(rows, k))
    decreases k
  {
    if k > 0 {
      var i := Oldest(rows, Unprotected).value;
      WithoutKeys(rows, i);
      SurvivorsKeys(Without(rows, i), k - 1);
      hide Without, Ordered, UniqueIds;
    }
  }

  predicate OldestFirst(rows: seq<Row>) {
    forall i, j :: 0 <= i < j < |rows| ==> Older(rows[i], rows[j])
  }

  /** The eviction order is a sorted listing of exactly the unprotected rows. */
  lemma {:induction false} EvictionOrderIsSorted(rows: seq<Row>)
    requires Ordered(rows)
    ensures forall x :: x in EvictionOrder(rows) <==> x in rows && !x.critical
    ensures OldestFirst(EvictionOrder(rows))
    decreases |rows|
  {
    OldestIsFirst(rows, Unprotected);
    match Oldest(rows, Unprotected)
    case None =>
    case Some(i) =>
      var rest := Without(rows, i);
      assert EvictionOrder(rows) == [rows[i]] + EvictionOrder(rest);
      WithoutKeys(rows, i);
      hide EvictionOrder, Oldest, Without, Ordered, OldestFirst, Older;
      EvictionOrderIsSorted(rest);
      assert rows[i] !in rest;
      OlderInFront(rows[i], EvictionOrder(rest));
  }

  lemma OlderInFront(first: Row, rows: seq<Row>)
    requires OldestFirst(rows) && forall x :: x in rows ==> Older(first, x)
    ensures OldestFirst([first] + rows)
  {
    hide Older;
  }

  /** The first `k` rows to be evicted, when there is one at all, start with the oldest. */
  lemma EvictionPrefix(rows: seq<Row>, k: nat)
    requires 1 <= k <= |EvictionOrder(rows)|
    ensures Oldest(rows, Unprotected).Some?
    ensures var i := Oldest(rows, Unprotected).value;
            EvictionOrder(rows)[..k] == [rows[i]] + EvictionOrder(Without(rows, i))[..k - 1]
  {
    var i := Oldest(rows, Unprotected).value;
    assert EvictionOrder(rows) == [rows[i]] + EvictionOrder(Without(rows, i));
  }

  /** Evicting a prefix removes those rows and no others. */
  lemma {:induction false} SurvivorsRows(rows: seq<Row>, k: nat)
    requires k <= |EvictionOrder(rows)|
    ensures multiset(rows) == multiset(Survivors(rows, k)) + multiset(EvictionOrder(rows)[..k])
    decreases k
  {
    if k == 0 {
      assert EvictionOrder(rows)[..0] == [];
    } else {
      EvictionPrefix(rows, k);
      var i := Oldest(rows, Unprotected).value;
      assert Survivors(rows, k) == Survivors(Without(rows, i), k - 1);
      hide Survivors, EvictionOrder, Oldest, Without;
      SurvivorsRows(Without(rows, i), k - 1);
      WithoutRows(rows, i);
    }
  }

  /** Evicting a prefix frees the bytes of exactly those rows. */
  lemma {:induction false} SurvivorsBytes(rows: seq<Row>, k: nat)
    requires k <= |EvictionOrder(rows)|
    ensures Bytes(rows) == Bytes(Survivors(rows, k)) + Bytes(EvictionOrder(rows)[..k])
    decreases k
  {
    if k > 0 {
      EvictionPrefix(rows, k);
      var i := Oldest(rows, Unprotected).value;
      SurvivorsBytes(Without(rows, i), k - 1);
      WithoutBytes(rows, i);
      BytesConcat([rows[i]], EvictionOrder(Without(rows, i))[..k - 1]);
    }
  }

  /** Evicting a prefix drops the samples of exactly those rows. */
  lemma {:induction false} SurvivorsCarried(rows: seq<Row>, k: nat, onlyCritical: bool)
    requires k <= |EvictionOrder(rows)|
    ensures Carried(rows, onlyCritical) == Carried(Survivors(rows, k), onlyCritical)
                                           + Carried(EvictionOrder(rows)[..k], onlyCritical)
    decreases k
  {
    if k == 0 {
      assert EvictionOrder(rows)[..0] == [];
      assert Carried([], onlyCritical) == multiset{};
    } else {
      EvictionPrefix(rows, k);
      var i := Oldest(rows, Unprotected).value;
      var rest := Without(rows, i);
      var tail := EvictionOrder(rest)[..k - 1];
      SurvivorsCarried(rest, k - 1, onlyCritical);
      WithoutCarried(rows, i, onlyCritical);
      CarriedConcat([rows[i]], tail, onlyCritical);
      Regroup(Carried(Survivors(rest, k - 1), onlyCritical), Carried(tail, onlyCritical),
              Carried([rows[i]], onlyCritical));
    }
  }

  /** Rows that are all unprotected carry no protected sample. */
  lemma {:induction false} NothingProtected(rows: seq<Row>)
    requires forall x :: x in rows ==> !x.critical
    ensures Carried(rows, true) == multiset{}
  {
    if rows != [] {
      NothingProtected(rows[1..]);
    }
  }

  /** How many evictions `_make_room` performs; None when even evicting every unprotected row is not enough. */
  function Evictions(rows: seq<Row>, held: nat, required: nat, cap: nat): (r: Option<nat>)
    ensures r.Some? ==> r.value <= |EvictionOrder(rows)|
    decreases |rows|
  {
    if Bytes(rows) + held + required <= cap then Some(0)
    else match Oldest(rows, Unprotected)
      case None => None
      case Some(i) =>
        match Evictions(Without(rows, i), held, required, cap)
        case None => None
        case Some(k) => Some(k + 1)
  }

  /** Whether the first `k` evictions free enough. */
  predicate Suffices(rows: seq<Row>, k: nat, held: nat, required: nat, cap: nat)
    requires k <= |EvictionOrder(rows)|
  {
    Bytes(rows) - Bytes(EvictionOrder(rows)[..k]) + held + required <= cap
  }

  /** One step further along the eviction order is the same question about the smaller table. */
  lemma SufficesStep(rows: seq<Row>, k: nat, held: nat, required: nat, cap: nat)
    requires 1 <= k <= |EvictionOrder(rows)|
    ensures Oldest(rows, Unprotected).Some?
    ensures var rest := Without(rows, Oldest(rows, Unprotected).value);
            Suffices(rows, k, held, required, cap) <==> Suffices(rest, k - 1, held, required, cap)
  {
    EvictionPrefix(rows, k);
    var i := Oldest(rows, Unprotected).value;
    WithoutBytes(rows, i);
    BytesConcat([rows[i]], EvictionOrder(Without(rows, i))[..k - 1]);
  }

  /** The count suffices, and no smaller one does. */
  lemma {:induction false} EvictionsAreShortest(rows: seq<Row>, held: nat, required: nat, cap: nat)
    requires Evictions(rows, held, required, cap).Some?
    ensures Suffices(rows, Evictions(rows, held, required, cap).value, held, required, cap)
    ensures forall j: nat :: j < Evictions(rows, held, required, cap).value
                             ==> !Suffices(rows, j, held, required, cap)
    decreases |rows|
  {
    assert EvictionOrder(rows)[..0] == [];
    var n := Evictions(rows, held, required, cap).value;
    if n > 0 {
      var rest := Without(rows, Oldest(rows, Unprotected).value);
      EvictionsAreShortest(rest, held, required, cap);
      SufficesStep(rows, n, held, required, cap);
      forall j: nat | 1 <= j < n ensures !Suffices(rows, j, held, required, cap) {
        SufficesStep(rows, j, held, required, cap);
      }
    }
  }

  /** `_make_room` gives up exactly when evicting every unprotected row would not be enough. */
  lemma {:induction false} EvictionsGiveUp(rows: seq<Row>, held: nat, required: nat, cap: nat)
    ensures Evictions(rows, held, required, cap).None? <==>
            !Suffices(rows, |EvictionOrder(rows)|, held, required, cap)
    decreases |rows|
  {
    var all := |EvictionOrder(rows)|;
    if Bytes(rows) + held + required <= cap {
      SurvivorsBytes(rows, all);
    } else if Oldest(rows, Unprotected).None? {
      assert EvictionOrder(rows)[..all] == [];
    } else {
      EvictionsGiveUp(Without(rows, Oldest(rows, Unprotected).value), held, required, cap);
      SufficesStep(rows, all, held, required, cap);
    }
  }

  /** After the computed number of evictions the new payload fits. */
  lemma EvictionsFit(rows: seq<Row>, held: nat, required: nat, cap: nat)
    requires Evictions(rows, held, required, cap).Some?
    ensures Bytes(Survivors(rows, Evictions(rows, held, required, cap).value)) + held + required <= cap
  {
    EvictionsAreShortest(rows, held, required, cap);
    SurvivorsBytes(rows, Evictions(rows, held, required, cap).value);
  }
}

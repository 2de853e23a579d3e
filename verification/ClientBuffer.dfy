/** The bounded buffer between a tenant's event stream and one WebSocket. */
module ClientBuffer {
  import opened Wrappers

  datatype Item<T> = Item(critical: bool, message: T)

  /** The first item that may be evicted. */
  function FirstPlain<T>(items: seq<Item<T>>): (r: Option<nat>)
    ensures r.Some? ==> r.value < |items| && !items[r.value].critical
    ensures r.Some? ==> forall i :: 0 <= i < r.value ==> items[i].critical
    ensures r.None? ==> forall i :: 0 <= i < |items| ==> items[i].critical
  {
    if items == [] then None
    else if !items[0].critical then Some(0)
    else match FirstPlain(items[1..])
      case None => None
      case Some(i) => Some(i + 1)
  }

  /** The buffer after `put`, and whether it took the message. */
  function Admit<T>(capacity: nat, items: seq<Item<T>>, x: Item<T>): (seq<Item<T>>, bool) {
    if |items| < capacity then (items + [x], true)
    else if !x.critical then (items, false)
    else match FirstPlain(items)
      case None => (items, false)
      case Some(i) => (items[..i] + items[i + 1..] + [x], true)
  }

  /** With room left every message is taken, as the newest; a message refused leaves the buffer as it is; and a
      message taken is always the newest. */
  lemma AdmittedIsNewest<T>(capacity: nat, items: seq<Item<T>>, x: Item<T>)
    ensures |items| < capacity ==> Admit(capacity, items, x) == (items + [x], true)
    ensures !Admit(capacity, items, x).1 ==> Admit(capacity, items, x).0 == items
    ensures Admit(capacity, items, x).1 ==>
              Admit(capacity, items, x).0 != [] && Admit(capacity, items, x).0[|Admit(capacity, items, x).0| - 1] == x
  {
  }

  class BoundedClientBuffer<T> {
    const capacity: nat
    var items: seq<Item<T>>

    ghost predicate Valid()
      reads this
    {
      1 <= capacity <= 100 && |items| <= capacity
    }

    constructor (capacity: nat)
      requires 1 <= capacity <= 100
      ensures Valid() && this.capacity == capacity && items == []
    {
      this.capacity := capacity;
      items := [];
    }

    method Put(message: T, critical: bool) returns (taken: bool)
      requires Valid()
      modifies this`items
      ensures Valid()
      ensures (items, taken) == Admit(capacity, old(items), Item(critical, message))
    {
      if |items| >= capacity {
        if !critical {
          return false;
        }
        var index, found := 0, false;
        while index < |items| && !found
          invariant 0 <= index <= |items| && items == old(items)
          invariant forall i :: 0 <= i < index ==> items[i].critical
          invariant found ==> index < |items| && !items[index].critical
          decreases |items| - index, !found
        {
          if !items[index].critical {
            found := true;
          } else {
            index := index + 1;
          }
        }
        if !found {
          return false;
        }
        items := items[..index] + items[index + 1..];
      }
      items := items + [Item(critical, message)];
      return true;
    }

    /** `get` once its wait for a non-empty buffer is over. */
    method Get() returns (message: T)
      requires Valid() && items != []
      modifies this`items
      ensures Valid() && old(items) == [Item(old(items)[0].critical, message)] + items
    {
      message := items[0].message;
      items := items[1..];
    }
  }

  // -------------------------------------------------------------------- runs

  datatype Op<T> = Offer(item: Item<T>) | Take

  /** The buffer, and everything it ever took in and gave out. */
  datatype History<T> = History(items: seq<Item<T>>, accepted: seq<Item<T>>, delivered: seq<Item<T>>)

  function Next<T>(capacity: nat, h: History<T>, op: Op<T>): History<T> {
    match op
    case Offer(x) =>
      var (items, taken) := Admit(capacity, h.items, x);
      if taken then History(items, h.accepted + [x], h.delivered) else h
    case Take => if h.items == [] then h else History(h.items[1..], h.accepted, h.delivered + [h.items[0]])
  }

  function Run<T>(capacity: nat, ops: seq<Op<T>>): History<T> {
    if ops == [] then History([], [], []) else Next(capacity, Run(capacity, ops[..|ops| - 1]), ops[|ops| - 1])
  }

  /** `a` is what is left of `b` after leaving out some items. */
  predicate Subsequence<T(==)>(a: seq<T>, b: seq<T>) {
    a == []
    || (b != [] && ((a[|a| - 1] == b[|b| - 1] && Subsequence(a[..|a| - 1], b[..|b| - 1])) || Subsequence(a, b[..|b| - 1])))
  }

  /** The critical items, in order. */
  function Criticals<T>(items: seq<Item<T>>): seq<Item<T>> {
    if items == [] then []
    else
      var some, x := Criticals(items[..|items| - 1]), items[|items| - 1];
      if x.critical then some + [x] else some
  }

  lemma SubsequenceAppend<T>(a: seq<T>, b: seq<T>, x: T)
    requires Subsequence(a, b)
    ensures Subsequence(a + [x], b + [x])
  {
    assert (a + [x])[..|a|] == a && (b + [x])[..|b|] == b;
  }

  lemma {:induction false} SubsequenceWithout<T>(a: seq<T>, b: seq<T>, i: nat)
    requires Subsequence(a, b) && i < |a|
    ensures Subsequence(a[..i] + a[i + 1..], b)
    decreases |b|
  {
    var less := a[..i] + a[i + 1..];
    var n := |a| - 1;
    if a[n] == b[|b| - 1] && Subsequence(a[..n], b[..|b| - 1]) {
      if i == n {
        assert less == a[..n];
      } else {
        SubsequenceWithout(a[..n], b[..|b| - 1], i);
        assert less[..|less| - 1] == a[..n][..i] + a[..n][i + 1..];
      }
    } else {
      SubsequenceWithout(a, b[..|b| - 1], i);
    }
  }

  lemma {:induction false} CriticalsConcat<T>(a: seq<Item<T>>, b: seq<Item<T>>)
    ensures Criticals(a + b) == Criticals(a) + Criticals(b)
  {
    if b == [] {
      assert a + b == a;
    } else {
      CriticalsConcat(a, b[..|b| - 1]);
      assert (a + b)[..|a + b| - 1] == a + b[..|b| - 1];
    }
  }

  lemma {:induction false} CriticalsWithout<T>(items: seq<Item<T>>, i: nat)
    requires i < |items| && !items[i].critical
    ensures Criticals(items[..i] + items[i + 1..]) == Criticals(items)
  {
    var head, tail := items[..i], items[i..];
    assert items == head + tail && tail == [items[i]] + items[i + 1..];
    CriticalsConcat(head, tail);
    CriticalsConcat([items[i]], items[i + 1..]);
    CriticalsConcat(head, items[i + 1..]);
    assert Criticals([items[i]]) == [];
  }

  /** What one operation keeps. */
  ghost predicate Faithful<T(!new)>(capacity: nat, h: History<T>) {
    && |h.items| <= capacity
    && Subsequence(h.delivered + h.items, h.accepted)
    && Criticals(h.delivered + h.items) == Criticals(h.accepted)
  }

  lemma OfferFaithful<T(!new)>(capacity: nat, h: History<T>, x: Item<T>)
    requires capacity >= 1 && Faithful(capacity, h)
    ensures Faithful(capacity, Next(capacity, h, Offer(x)))
  {
    hide Subsequence, Criticals;
    if Admit(capacity, h.items, x).1 {
      var kept := MakeRoom(capacity, h, x);
      var n := Next(capacity, h, Offer(x));
      assert n.delivered + n.items == kept + [x];
      hide Admit, FirstPlain;
      SubsequenceAppend(kept, h.accepted, x);
      CriticalsConcat(kept, [x]);
      CriticalsConcat(h.accepted, [x]);
    }
  }

  /** What is delivered and kept once there is room for the message. */
  lemma MakeRoom<T(!new)>(capacity: nat, h: History<T>, x: Item<T>) returns (kept: seq<Item<T>>)
    requires capacity >= 1 && Faithful(capacity, h) && Admit(capacity, h.items, x).1
    ensures h.delivered + Admit(capacity, h.items, x).0 == kept + [x] && |Admit(capacity, h.items, x).0| <= capacity
    ensures Subsequence(kept, h.accepted) && Criticals(kept) == Criticals(h.accepted)
  {
    hide Subsequence, Criticals;
    kept := h.delivered + h.items;
    if |h.items| >= capacity {
      var i := FirstPlain(h.items).value;
      var at := |h.delivered| + i;
      assert kept[..at] + kept[at + 1..] == h.delivered + (h.items[..i] + h.items[i + 1..]);
      SubsequenceWithout(kept, h.accepted, at);
      CriticalsWithout(kept, at);
      kept := kept[..at] + kept[at + 1..];
    }
  }

  /** Over every run: the size stays within the capacity, what is delivered is accepted and in order,
      and no accepted critical message is dropped. */
  lemma {:induction false} RunFaithful<T(!new)>(capacity: nat, ops: seq<Op<T>>)
    requires capacity >= 1
    ensures Faithful(capacity, Run(capacity, ops))
  {
    if ops != [] {
      var h := Run(capacity, ops[..|ops| - 1]);
      RunFaithful(capacity, ops[..|ops| - 1]);
      match ops[|ops| - 1]
      case Offer(x) => OfferFaithful(capacity, h, x);
      case Take =>
        if h.items != [] {
          assert h.delivered + [h.items[0]] + h.items[1..] == h.delivered + h.items;
        }
    }
  }

  /** A message is refused exactly when the buffer is full and it is plain, or full of critical ones. */
  lemma RefusedExactly<T(!new)>(capacity: nat, ops: seq<Op<T>>, x: Item<T>)
    requires capacity >= 1
    ensures var items := Run(capacity, ops).items;
            !Admit(capacity, items, x).1 <==>
            |items| == capacity && (!x.critical || |Criticals(items)| == capacity)
  {
    RunFaithful(capacity, ops);
    var items := Run(capacity, ops).items;
    CriticalsCount(items);
  }

  lemma {:induction false} CriticalsCount<T>(items: seq<Item<T>>)
    ensures |Criticals(items)| <= |items|
    ensures |Criticals(items)| == |items| <==> forall i :: 0 <= i < |items| ==> items[i].critical
  {
    if items != [] {
      CriticalsCount(items[..|items| - 1]);
    }
  }

  /** A full buffer makes room by dropping its oldest plain message, and nothing else. */
  lemma EvictsOldestPlain<T(!new)>(capacity: nat, ops: seq<Op<T>>, x: Item<T>)
    requires capacity >= 1
    requires var items := Run(capacity, ops).items; |items| == capacity && Admit(capacity, items, x).1
    ensures var items := Run(capacity, ops).items;
            exists i :: 0 <= i < |items| && !items[i].critical && (forall j :: 0 <= j < i ==> items[j].critical)
                        && Admit(capacity, items, x).0 == items[..i] + items[i + 1..] + [x]
  {
    var items := Run(capacity, ops).items;
    var i := FirstPlain(items).value;
    assert !items[i].critical;
  }
}

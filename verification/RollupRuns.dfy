/** Rollups agree with the full history for ever, although the raw rows are deleted; and exactly what
    that rests on, bucket by bucket. Organizations do not matter to each other. */
module RollupRuns {
  import opened Wrappers
  import opened Telemetry
  import opened Rollups

  /** The latest rollup of an organization into one bucket size: how many rows had ever been stored then,
      and its cutoff. */
  datatype Mark = Mark(stored: nat, cutoff: int)

  /** `raw` are the rows still there and `ever` all rows ever stored, in the order of their insertion. */
  datatype World = World(
    raw: seq<Row>, aggregates: map<Bucket, Summary>, ever: seq<Row>, marks: map<(Uuid, int), Mark>)

  const START := World([], map[], [], map[])

  datatype Step =
    | Insert(row: Row)
    | Roll(org: Uuid, size: int, cutoff: int)
    | Retain(today: int)

  function Next(w: World, s: Step): World {
    match s
    case Insert(row) => w.(raw := w.raw + [row], ever := w.ever + [row])
    case Roll(org, size, cutoff) =>
      if Supported(size) then
        w.(aggregates := Downsample(w.aggregates, w.raw, org, size, cutoff),
           marks := w.marks[(org, size) := Mark(|w.ever|, cutoff)])
      else w
    case Retain(today) =>
      w.(raw := Keep(w.raw, Boundary(today)),
         aggregates := map b | b in w.aggregates && !Outdated(b, today) :: w.aggregates[b])
  }

  /** None of the bucket's rows has been purged. */
  predicate Intact(w: World, b: Bucket)
    requires Supported(b.size)
  {
    InBucket(w.raw, b) == InBucket(w.ever, b)
  }

  /** The latest rollup of the bucket's organization into its size saw every row of the bucket. */
  predicate Seen(w: World, b: Bucket)
    requires Supported(b.size)
  {
    && (b.org, b.size) in w.marks
    && forall i :: 0 <= i < |w.ever| && BucketOf(w.ever[i], b.size) == b ==>
                     i < w.marks[(b.org, b.size)].stored && w.ever[i].at <= w.marks[(b.org, b.size)].cutoff
  }

  /** The conditions on a step, for one bucket: no row arrives for it once rows of it are purged, and
      retention neither finds it outdated nor purges it before a rollup has seen all of it. */
  predicate Legal(w: World, s: Step, b: Bucket)
    requires Supported(b.size)
  {
    match s
    case Insert(row) => BucketOf(row, b.size) == b ==> Intact(w, b)
    case Roll(_, _, _) => true
    case Retain(today) =>
      !Outdated(b, today) && (b.start < Boundary(today) && InBucket(w.raw, b) != [] ==> Seen(w, b))
  }

  function Run(steps: seq<Step>): World {
    if steps == [] then START else Next(Run(steps[..|steps| - 1]), steps[|steps| - 1])
  }

  predicate LegalRun(steps: seq<Step>, b: Bucket)
    requires Supported(b.size)
  {
    steps == [] || (LegalRun(steps[..|steps| - 1], b) && Legal(Run(steps[..|steps| - 1]), steps[|steps| - 1], b))
  }

  // ------------------------------------------------- what a step does to a bucket

  lemma RetainBucket(w: World, today: int, b: Bucket)
    requires Supported(b.size)
    ensures InBucket(Next(w, Retain(today)).raw, b) == if b.start >= Boundary(today) then InBucket(w.raw, b) else []
    ensures !Outdated(b, today) ==>
              (b in Next(w, Retain(today)).aggregates <==> b in w.aggregates)
              && (b in w.aggregates ==> Next(w, Retain(today)).aggregates[b] == w.aggregates[b])
  {
    assert Boundary(today) % DAY == 0;
    hide Boundary, Keep, InBucket, Outdated, Supported;
    KeepBucket(w.raw, b, Boundary(today));
  }

  lemma RollBucket(w: World, s: Step, b: Bucket)
    requires Supported(b.size) && s.Roll? && Supported(s.size)
    ensures var v := Next(w, s);
            var rows := UpTo(InBucket(w.raw, b), s.cutoff);
            && v.raw == w.raw && v.ever == w.ever && v.marks == w.marks[(s.org, s.size) := Mark(|w.ever|, s.cutoff)]
            && if b.org == s.org && b.size == s.size && rows != [] then
                 b in v.aggregates && v.aggregates[b] == Summarize(rows)
               else (b in v.aggregates <==> b in w.aggregates) && (b in w.aggregates ==> v.aggregates[b] == w.aggregates[b])
  {
    hide Downsample, UpTo, InBucket, Summarize, Supported;
    UpToBucket(w.raw, b, s.cutoff);
    DownsampleEffect(w.aggregates, w.raw, s.org, s.size, s.cutoff, b);
  }

  lemma InsertBucket(w: World, row: Row, b: Bucket)
    requires Supported(b.size)
    ensures var v := Next(w, Insert(row));
            if BucketOf(row, b.size) == b then
              InBucket(v.raw, b) == InBucket(w.raw, b) + [row] && InBucket(v.ever, b) == InBucket(w.ever, b) + [row]
            else InBucket(v.raw, b) == InBucket(w.raw, b) && InBucket(v.ever, b) == InBucket(w.ever, b)
  {
    hide InBucket, BucketOf, Supported;
    InBucketAppend(w.raw, row, b);
    InBucketAppend(w.ever, row, b);
  }

  // -------------------------------------------------------------- invariant

  predicate Marked(w: World, b: Bucket) {
    (b.org, b.size) in w.marks && w.marks[(b.org, b.size)].stored <= |w.ever|
  }

  /** The rows of the bucket stored before the latest rollup. */
  function Before(w: World, b: Bucket): seq<Row>
    requires Supported(b.size) && Marked(w, b)
  {
    InBucket(w.ever[..w.marks[(b.org, b.size)].stored], b)
  }

  /** Those of them up to its cutoff. */
  function Covered(w: World, b: Bucket): seq<Row>
    requires Supported(b.size) && Marked(w, b)
  {
    UpTo(Before(w, b), w.marks[(b.org, b.size)].cutoff)
  }

  /** While the bucket is intact its aggregate summarises what the latest rollup covered; once it is
      purged its aggregate is final and summarises everything. */
  predicate Invariant(w: World, b: Bucket)
    requires Supported(b.size)
  {
    && ((b.org, b.size) in w.marks ==> Marked(w, b))
    && (Intact(w, b) || InBucket(w.raw, b) == [])
    && (Intact(w, b) && Marked(w, b) && Covered(w, b) != [] ==>
          b in w.aggregates && w.aggregates[b] == Summarize(Covered(w, b)))
    && (!Intact(w, b) ==>
          Marked(w, b) && Before(w, b) == InBucket(w.ever, b)
          && b in w.aggregates && w.aggregates[b] == Summarize(InBucket(w.ever, b)))
  }

  /** Where the rows of the history are that the latest rollup saw, and those it did not. */
  lemma HeadAndTail(rows: seq<Row>, n: nat)
    requires n <= |rows|
    ensures forall i :: 0 <= i < n ==> rows[i] in rows[..n]
    ensures forall i :: n <= i < |rows| ==> rows[i] in rows[n..]
    ensures forall r :: r in rows[..n] ==> exists i :: 0 <= i < n && rows[i] == r
    ensures forall r :: r in rows[n..] ==> exists i :: n <= i < |rows| && rows[i] == r
  {
    var head, tail := rows[..n], rows[n..];
    forall i | 0 <= i < n ensures rows[i] in head { assert head[i] == rows[i]; }
    forall i | n <= i < |rows| ensures rows[i] in tail { assert tail[i - n] == rows[i]; }
    forall r | r in tail ensures exists i :: n <= i < |rows| && rows[i] == r {
      var j :| 0 <= j < |tail| && tail[j] == r;
      assert rows[n + j] == r;
    }
  }

  lemma SeenParts(w: World, b: Bucket)
    requires Supported(b.size) && Marked(w, b)
    ensures var mark := w.marks[(b.org, b.size)];
            Seen(w, b) <==> (forall r :: r in w.ever[mark.stored..] ==> BucketOf(r, b.size) != b)
                            && (forall r :: r in w.ever[..mark.stored] && BucketOf(r, b.size) == b ==> r.at <= mark.cutoff)
  {
    HeadAndTail(w.ever, w.marks[(b.org, b.size)].stored);
    hide BucketOf, Supported;
  }

  lemma NothingInBucket(rows: seq<Row>, b: Bucket)
    requires Supported(b.size)
    ensures InBucket(rows, b) == [] <==> forall r :: r in rows ==> BucketOf(r, b.size) != b
  {
    InBucketMembers(rows, b);
    var some := InBucket(rows, b);
    assert some != [] ==> some[0] in some;
    hide InBucket, BucketOf;
  }

  /** A bucket was seen exactly if the latest rollup covered as many rows as it has. */
  lemma SeenCounts(w: World, b: Bucket)
    requires Supported(b.size) && Marked(w, b)
    ensures |Covered(w, b)| <= |Before(w, b)| <= |InBucket(w.ever, b)|
    ensures Seen(w, b) <==> |Covered(w, b)| == |InBucket(w.ever, b)|
    ensures Seen(w, b) ==> Covered(w, b) == Before(w, b) == InBucket(w.ever, b)
  {
    var n, cutoff := w.marks[(b.org, b.size)].stored, w.marks[(b.org, b.size)].cutoff;
    var head, tail := w.ever[..n], w.ever[n..];
    assert w.ever == head + tail;
    hide InBucket, UpTo, BucketOf, Supported, Seen;
    InBucketConcat(head, tail, b);
    NothingInBucket(tail, b);
    InBucketMembers(head, b);
    UpToLength(InBucket(head, b), cutoff, cutoff);
    SeenParts(w, b);
    assert InBucket(tail, b) == [] ==> InBucket(head, b) + [] == InBucket(head, b);
  }

  // ------------------------------------------------------------------- steps

  lemma StartInvariant(b: Bucket)
    requires Supported(b.size)
    ensures Invariant(START, b)
  {
  }

  lemma InsertMarked(w: World, row: Row, b: Bucket)
    requires Supported(b.size)
    ensures var v := Next(w, Insert(row));
            Marked(w, b) ==> Marked(v, b) && Before(v, b) == Before(w, b)
  {
    if Marked(w, b) {
      assert (w.ever + [row])[..w.marks[(b.org, b.size)].stored] == w.ever[..w.marks[(b.org, b.size)].stored];
    }
    hide InBucket, Supported;
  }

  lemma InsertInvariant(w: World, row: Row, b: Bucket)
    requires Supported(b.size) && Invariant(w, b) && Legal(w, Insert(row), b)
    ensures Invariant(Next(w, Insert(row)), b)
  {
    hide InBucket, UpTo, BucketOf, BucketStart, Summarize, Supported;
    InsertBucket(w, row, b);
    InsertMarked(w, row, b);
    hide Before;
  }

  lemma RollInvariant(w: World, s: Step, b: Bucket)
    requires Supported(b.size) && Invariant(w, b) && s.Roll? && Supported(s.size)
    ensures Invariant(Next(w, s), b)
  {
    RollBucket(w, s, b);
    assert w.ever[..|w.ever|] == w.ever;
    hide Next, InBucket, UpTo, Summarize, Supported;
  }

  lemma RetainInvariant(w: World, today: int, b: Bucket)
    requires Supported(b.size) && Invariant(w, b) && Legal(w, Retain(today), b)
    ensures Invariant(Next(w, Retain(today)), b)
  {
    RetainBucket(w, today, b);
    if Marked(w, b) { SeenCounts(w, b); }
    hide Keep, InBucket, UpTo, Summarize, Supported, Outdated, Boundary;
  }

  /** A step that is legal for a bucket keeps its invariant, whatever it does to other buckets. */
  lemma NextInvariant(w: World, s: Step, b: Bucket)
    requires Supported(b.size) && Invariant(w, b) && Legal(w, s, b)
    ensures Invariant(Next(w, s), b)
  {
    hide Invariant, Legal;
    match s
    case Insert(row) => InsertInvariant(w, row, b);
    case Roll(_, size, _) => if Supported(size) { RollInvariant(w, s, b); }
    case Retain(today) => RetainInvariant(w, today, b);
  }

  lemma {:induction false} RunInvariant(steps: seq<Step>, b: Bucket)
    requires Supported(b.size) && LegalRun(steps, b)
    ensures Invariant(Run(steps), b)
  {
    hide Next, Legal, Invariant;
    if steps == [] {
      StartInvariant(b);
    } else {
      RunInvariant(steps[..|steps| - 1], b);
      NextInvariant(Run(steps[..|steps| - 1]), steps[|steps| - 1], b);
    }
  }

  // --------------------------------------------------------------- agreement

  /** If the bucket had ended by the latest cutoff, its aggregate says count, min, max and sum of all rows
      ever stored in it before that rollup, purged or not. */
  predicate Agrees(w: World, b: Bucket)
    requires Supported(b.size)
  {
    Marked(w, b) && b.start + b.size <= w.marks[(b.org, b.size)].cutoff && Before(w, b) != [] ==>
      b in w.aggregates && w.aggregates[b] == Summarize(Before(w, b))
  }

  lemma InvariantAgrees(w: World, b: Bucket)
    requires Supported(b.size) && Invariant(w, b)
    ensures Agrees(w, b)
  {
    if Marked(w, b) && b.start + b.size <= w.marks[(b.org, b.size)].cutoff {
      var mark := w.marks[(b.org, b.size)];
      InBucketMembers(w.ever[..mark.stored], b);
      forall r | r in Before(w, b) ensures r.at <= mark.cutoff {
        WithinBucket(r, b);
      }
      UpToLength(Before(w, b), mark.cutoff, mark.cutoff);
    }
    hide UpTo, InBucket, Summarize, Supported, BucketOf;
  }

  /** In every run that is legal for the bucket, whatever happens to other buckets and organizations. */
  lemma RollupsAgreeWithHistory(steps: seq<Step>, b: Bucket)
    requires Supported(b.size) && LegalRun(steps, b)
    ensures Agrees(Run(steps), b)
  {
    RunInvariant(steps, b);
    InvariantAgrees(Run(steps), b);
  }

  lemma LastRoll(steps: seq<Step>, b: Bucket, cutoff: int)
    requires Supported(b.size)
    ensures var all := steps + [Roll(b.org, b.size, cutoff)];
            && Run(all) == Next(Run(steps), Roll(b.org, b.size, cutoff)) && Run(all).ever == Run(steps).ever
            && Marked(Run(all), b) && Run(all).marks[(b.org, b.size)] == Mark(|Run(all).ever|, cutoff)
            && Before(Run(all), b) == InBucket(Run(all).ever, b)
            && (LegalRun(all, b) <==> LegalRun(steps, b))
  {
    var all := steps + [Roll(b.org, b.size, cutoff)];
    assert all[..|all| - 1] == steps && all[|all| - 1] == Roll(b.org, b.size, cutoff);
    assert Run(all).ever[..|Run(all).ever|] == Run(all).ever;
    hide Downsample, InBucket, Supported;
  }

  /** Right after a rollup an ended bucket's aggregate says everything about its full history. */
  lemma FreshRollupIsComplete(steps: seq<Step>, b: Bucket, cutoff: int)
    requires Supported(b.size) && LegalRun(steps, b) && b.start + b.size <= cutoff && InBucket(Run(steps).ever, b) != []
    ensures var w := Run(steps + [Roll(b.org, b.size, cutoff)]);
            b in w.aggregates && w.aggregates[b] == Summarize(InBucket(w.ever, b))
  {
    hide Run, LegalRun, Next, Summarize, InBucket, Supported;
    LastRoll(steps, b, cutoff);
    RollupsAgreeWithHistory(steps + [Roll(b.org, b.size, cutoff)], b);
  }

  // ------------------------------------------------------- what is lost for ever

  /** Rows of the bucket are gone, and its aggregate, if there is one, counts too few. */
  predicate Short(w: World, b: Bucket)
    requires Supported(b.size)
  {
    && |InBucket(w.raw, b)| < |InBucket(w.ever, b)|
    && (b in w.aggregates ==> w.aggregates[b].count < |InBucket(w.ever, b)|)
  }

  /** No step, legal or not, ever makes that good. */
  lemma ShortStays(w: World, s: Step, b: Bucket)
    requires Supported(b.size) && Short(w, b)
    ensures Short(Next(w, s), b)
  {
    hide InBucket, UpTo, Summarize, Supported, Keep, Outdated, Boundary;
    match s
    case Insert(row) => InsertBucket(w, row, b);
    case Roll(_, size, cutoff) =>
      if Supported(size) {
        RollBucket(w, s, b);
        UpToLength(InBucket(w.raw, b), cutoff, cutoff);
        SummaryMeaning(UpTo(InBucket(w.raw, b), cutoff));
      }
    case Retain(today) => RetainBucket(w, today, b);
  }

  lemma {:induction false} ShortForLife(steps: seq<Step>, more: seq<Step>, b: Bucket)
    requires Supported(b.size) && Short(Run(steps), b)
    ensures Short(Run(steps + more), b)
    decreases |more|
  {
    hide Short, Next;
    if more == [] {
      assert steps + more == steps;
    } else {
      var all, last := steps + more, |more| - 1;
      assert all[..|all| - 1] == steps + more[..last] && all[|all| - 1] == more[last];
      ShortForLife(steps, more[..last], b);
      ShortStays(Run(steps + more[..last]), more[last], b);
    }
  }

  /** The clock does not go back between rollups of an organization. */
  predicate Clockwise(steps: seq<Step>) {
    steps == []
    || (Clockwise(steps[..|steps| - 1])
        && var w, s := Run(steps[..|steps| - 1]), steps[|steps| - 1];
           s.Roll? && (s.org, s.size) in w.marks ==> w.marks[(s.org, s.size)].cutoff <= s.cutoff)
  }

  /** An aggregate counts no more rows than the latest rollup covered. */
  ghost predicate Bounded(w: World, b: Bucket)
    requires Supported(b.size)
  {
    && ((b.org, b.size) in w.marks ==> Marked(w, b))
    && (b in w.aggregates ==> Marked(w, b) && w.aggregates[b].count <= |Covered(w, b)|)
    && (forall cutoff :: |UpTo(InBucket(w.raw, b), cutoff)| <= |UpTo(InBucket(w.ever, b), cutoff)|)
  }

  lemma InsertBounded(w: World, row: Row, b: Bucket)
    requires Supported(b.size) && Bounded(w, b)
    ensures Bounded(Next(w, Insert(row)), b)
  {
    var v := Next(w, Insert(row));
    hide InBucket, UpTo, BucketOf, BucketStart, Supported;
    InsertBucket(w, row, b);
    InsertMarked(w, row, b);
    hide Before;
    forall cutoff ensures |UpTo(InBucket(v.raw, b), cutoff)| <= |UpTo(InBucket(v.ever, b), cutoff)| {
      UpToAppend(InBucket(w.raw, b), row, cutoff);
      UpToAppend(InBucket(w.ever, b), row, cutoff);
    }
  }

  lemma RollBounded(w: World, s: Step, b: Bucket)
    requires Supported(b.size) && Bounded(w, b) && s.Roll? && Supported(s.size)
    requires (s.org, s.size) in w.marks ==> w.marks[(s.org, s.size)].cutoff <= s.cutoff
    ensures Bounded(Next(w, s), b)
  {
    RollBucket(w, s, b);
    assert w.ever[..|w.ever|] == w.ever;
    if Marked(w, b) {
      hide Next, InBucket, UpTo, Summarize, Supported;
      CoveredGrows(w, b, s.cutoff);
    }
    SummaryMeaning(UpTo(InBucket(w.raw, b), s.cutoff));
    hide Next, InBucket, UpTo, Summarize, Supported;
  }

  /** A later rollup with a later cutoff covers at least as much. */
  lemma CoveredGrows(w: World, b: Bucket, cutoff: int)
    requires Supported(b.size) && Marked(w, b)
    ensures w.marks[(b.org, b.size)].cutoff <= cutoff ==> |Covered(w, b)| <= |UpTo(InBucket(w.ever, b), cutoff)|
  {
    var mark := w.marks[(b.org, b.size)];
    var head, tail := w.ever[..mark.stored], w.ever[mark.stored..];
    assert w.ever == head + tail;
    hide InBucket, UpTo, Supported;
    InBucketConcat(head, tail, b);
    UpToConcat(InBucket(head, b), InBucket(tail, b), cutoff);
    if mark.cutoff <= cutoff { UpToLength(InBucket(head, b), mark.cutoff, cutoff); }
  }

  lemma RetainBounded(w: World, today: int, b: Bucket)
    requires Supported(b.size) && Bounded(w, b)
    ensures Bounded(Next(w, Retain(today)), b)
  {
    RetainBucket(w, today, b);
    assert forall cutoff :: UpTo([], cutoff) == [];
    hide Keep, InBucket, UpTo, Supported, Outdated, Boundary;
  }

  lemma {:induction false} RunBounded(steps: seq<Step>, b: Bucket)
    requires Supported(b.size) && Clockwise(steps)
    ensures Bounded(Run(steps), b)
  {
    if steps == [] {
      assert Bounded(START, b);
    } else {
      var w, s := Run(steps[..|steps| - 1]), steps[|steps| - 1];
      RunBounded(steps[..|steps| - 1], b);
      hide Bounded, Next, Run;
      match s
      case Insert(row) => InsertBounded(w, row, b);
      case Roll(_, size, _) => if Supported(size) { RollBounded(w, s, b); } else { Unsupported(w, s); }
      case Retain(today) => RetainBounded(w, today, b);
    }
  }

  lemma Unsupported(w: World, s: Step)
    requires s.Roll? && !Supported(s.size)
    ensures Next(w, s) == w
  {
  }

  // ----------------------------------------------------------- exact conditions

  /** Purging an intact bucket within its retention leaves a complete aggregate exactly if the latest rollup
      had seen every row of it; otherwise the bucket is short. */
  lemma PurgeIsExact(steps: seq<Step>, today: int, b: Bucket)
    requires Supported(b.size) && LegalRun(steps, b) && Clockwise(steps)
    requires InBucket(Run(steps).raw, b) != [] && b.start < Boundary(today) && !Outdated(b, today)
    ensures var w, v := Run(steps), Next(Run(steps), Retain(today));
            && (Seen(w, b) <==> b in v.aggregates && v.aggregates[b] == Summarize(InBucket(v.ever, b)))
            && (!Seen(w, b) ==> Short(v, b))
  {
    var w := Run(steps);
    RunInvariant(steps, b);
    RunBounded(steps, b);
    hide Run, LegalRun, Clockwise;
    RetainBucket(w, today, b);
    if Marked(w, b) { SeenCounts(w, b); }
    SummaryMeaning(InBucket(w.ever, b));
    hide Keep, InBucket, UpTo, Summarize, Supported, Outdated, Boundary;
  }

  /** A row arriving for a bucket leaves it short exactly if rows of the bucket have been purged. */
  lemma InsertIsExact(steps: seq<Step>, row: Row, size: int)
    requires Supported(size) && LegalRun(steps, BucketOf(row, size)) && Clockwise(steps)
    ensures Short(Next(Run(steps), Insert(row)), BucketOf(row, size)) <==> !Intact(Run(steps), BucketOf(row, size))
  {
    var w, b := Run(steps), BucketOf(row, size);
    RunInvariant(steps, b);
    RunBounded(steps, b);
    hide Run, LegalRun, Clockwise;
    InsertBucket(w, row, b);
    if Marked(w, b) { SeenCounts(w, b); }
    hide InBucket, UpTo, Summarize, Supported, BucketOf;
  }

  /** No retention has found the bucket outdated. */
  predicate Current(steps: seq<Step>, b: Bucket) {
    forall k :: 0 <= k < |steps| && steps[k].Retain? ==> !Outdated(b, steps[k].today)
  }

  lemma {:induction false} IllegalIsShort(steps: seq<Step>, b: Bucket)
    requires Supported(b.size) && Clockwise(steps) && Current(steps, b) && !LegalRun(steps, b)
    ensures Short(Run(steps), b)
  {
    var before, s := steps[..|steps| - 1], steps[|steps| - 1];
    hide Short, Next, Seen, Intact, Boundary, Outdated, InBucket;
    if LegalRun(before, b) {
      assert !Legal(Run(before), s, b);
      match s
      case Insert(row) => InsertIsExact(before, row, b.size);
      case Retain(today) => PurgeIsExact(before, today, b);
    } else {
      IllegalIsShort(before, b);
      ShortStays(Run(before), s, b);
    }
  }

  /** Exactly when a rollup agrees with the full history, over every run: for a bucket ended by the cutoff and
      within its retention, the aggregate is complete if and only if no row arrived after rows of the
      bucket were purged and none of its rows was purged unseen. */
  lemma RollupIsExact(steps: seq<Step>, b: Bucket, cutoff: int)
    requires Supported(b.size) && Clockwise(steps) && Current(steps, b)
    requires b.start + b.size <= cutoff && InBucket(Run(steps).ever, b) != []
    ensures var w := Run(steps + [Roll(b.org, b.size, cutoff)]);
            b in w.aggregates && w.aggregates[b] == Summarize(InBucket(w.ever, b)) <==> LegalRun(steps, b)
  {
    var roll := Roll(b.org, b.size, cutoff);
    hide Run, LegalRun, Clockwise, Current, Next, Summarize, InBucket, Supported;
    if LegalRun(steps, b) {
      FreshRollupIsComplete(steps, b, cutoff);
    } else {
      IllegalIsShort(steps, b);
      ShortForLife(steps, [roll], b);
      SummaryMeaning(InBucket(Run(steps + [roll]).ever, b));
    }
  }

  lemma RunTwo(a: Step, c: Step)
    ensures Run([a]) == Next(START, a) && Run([a, c]) == Next(Next(START, a), c)
  {
    assert [a][..0] == [] && [a, c][..1] == [a];
  }

  /** A bucket purged without an aggregate. */
  lemma PurgedIsShort(w: World, today: int, b: Bucket)
    requires Supported(b.size) && b !in w.aggregates && InBucket(w.ever, b) != []
    requires b.start < Boundary(today) && !Outdated(b, today)
    ensures Short(Next(w, Retain(today)), b)
  {
    RetainBucket(w, today, b);
    hide InBucket, Boundary, Outdated, Keep, Supported;
  }

  lemma FirstRow(row: Row, b: Bucket)
    requires Supported(b.size) && BucketOf(row, b.size) == b
    ensures var w := Next(START, Insert(row));
            w.raw == w.ever == [row] && InBucket(w.raw, b) == [row] && w.aggregates == map[] && w.marks == map[]
  {
    assert [] + [row] == [row];
    hide BucketOf;
    InBucketAppend([], row, b);
  }

  /** The first way to fail: a row is stored, and retention comes before the next rollup. Whatever comes
      after, the bucket stays short. */
  lemma UnrolledRowIsLost(row: Row, b: Bucket, today: int, more: seq<Step>)
    requires Supported(b.size) && BucketOf(row, b.size) == b && b.start < Boundary(today) && !Outdated(b, today)
    ensures Short(Run([Insert(row), Retain(today)] + more), b)
  {
    hide *;
    RunTwo(Insert(row), Retain(today));
    FirstRow(row, b);
    PurgedIsShort(Next(START, Insert(row)), today, b);
    ShortForLife([Insert(row), Retain(today)], more, b);
  }

  /** A row that a rollup has seen and that is purged then: all is well. */
  lemma RolledRow(row: Row, b: Bucket, cutoff: int, today: int)
    requires Supported(b.size) && BucketOf(row, b.size) == b && row.at <= cutoff
    requires b.start < Boundary(today) && !Outdated(b, today)
    ensures var steps := [Insert(row), Roll(b.org, b.size, cutoff), Retain(today)];
            LegalRun(steps, b) && Clockwise(steps) && !Intact(Run(steps), b)
  {
    var roll := Roll(b.org, b.size, cutoff);
    hide *;
    FirstRow(row, b);
    RolledAndPurged(Next(START, Insert(row)), row, b, cutoff, today);
    LegalThree(Insert(row), roll, Retain(today), b);
    ClockwiseThree(Insert(row), roll, Retain(today));
  }

  lemma LegalThree(x: Step, y: Step, z: Step, b: Bucket)
    requires Supported(b.size) && Legal(START, x, b) && Legal(Next(START, x), y, b) && Legal(Next(Next(START, x), y), z, b)
    ensures LegalRun([x, y, z], b) && Run([x, y, z]) == Next(Next(Next(START, x), y), z)
  {
    assert LegalRun([], b) && Run([]) == START;
    assert [x] == [] + [x] && [x, y] == [x] + [y] && [x, y, z] == [x, y] + [z];
    hide *;
    RunTwo(x, y);
    RunMore([x, y], z);
    LegalMore([], x, b);
    LegalMore([x], y, b);
    LegalMore([x, y], z, b);
  }

  lemma RolledAndPurged(w: World, row: Row, b: Bucket, cutoff: int, today: int)
    requires Supported(b.size) && BucketOf(row, b.size) == b && row.at <= cutoff
    requires b.start < Boundary(today) && !Outdated(b, today) && w.ever == [row] && InBucket(w.ever, b) != []
    ensures var roll := Roll(b.org, b.size, cutoff);
            && Legal(START, Insert(row), b) && Legal(w, roll, b) && Legal(Next(w, roll), Retain(today), b)
            && !Intact(Next(Next(w, roll), Retain(today)), b)
  {
    var roll := Roll(b.org, b.size, cutoff);
    assert Intact(START, b);
    hide BucketStart, BucketOf, Boundary, Outdated, Downsample, InBucket, Supported, Keep;
    RetainBucket(Next(w, roll), today, b);
    assert Seen(Next(w, roll), b);
  }

  /** The second: all goes well, and then a row comes in for the purged bucket. */
  lemma LateRowIsLost(row: Row, late: Row, b: Bucket, cutoff: int, today: int, more: seq<Step>)
    requires Supported(b.size) && BucketOf(row, b.size) == b == BucketOf(late, b.size) && row.at <= cutoff
    requires b.start < Boundary(today) && !Outdated(b, today)
    ensures var steps := [Insert(row), Roll(b.org, b.size, cutoff), Retain(today)];
            LegalRun(steps, b) && Short(Run(steps + [Insert(late)] + more), b)
  {
    var steps := [Insert(row), Roll(b.org, b.size, cutoff), Retain(today)];
    hide *;
    RolledRow(row, b, cutoff, today);
    RunMore(steps, Insert(late));
    InsertIsExact(steps, late, b.size);
    ShortForLife(steps + [Insert(late)], more, b);
  }

  lemma ClockwiseThree(a: Step, roll: Step, c: Step)
    requires !a.Roll? && !c.Roll?
    ensures Clockwise([a, roll, c])
  {
    var three := [a, roll, c];
    assert three[..2] == [a, roll] && [a, roll][..1] == [a] && [a][..0] == [];
    assert Clockwise([a]) && Run([a]).marks == map[] by { RunTwo(a, c); }
    assert Clockwise([a, roll]);
  }

  // ------------------------------------------------------------------- cycles

  /** The hourly rollup goes up to an hour ago, the daily one up to a day ago. */
  function Hourly(org: Uuid, clock: int): Step { Roll(org, HOUR, clock - HOUR) }

  function Daily(org: Uuid, clock: int): Step { Roll(org, DAY, clock - DAY) }

  /** The rollups of the first `k` organizations of a cycle, by the clock read for each. */
  function RollFirst(w: World, orgs: seq<Uuid>, hourly: seq<int>, daily: seq<int>, k: nat): World
    requires |orgs| == |hourly| == |daily| && k <= |orgs|
  {
    if k == 0 then w
    else
      Next(Next(RollFirst(w, orgs, hourly, daily, k - 1), Hourly(orgs[k - 1], hourly[k - 1])),
           Daily(orgs[k - 1], daily[k - 1]))
  }

  function RollAll(w: World, orgs: seq<Uuid>, hourly: seq<int>, daily: seq<int>): World
    requires |orgs| == |hourly| == |daily|
  {
    RollFirst(w, orgs, hourly, daily, |orgs|)
  }

  lemma {:induction false} RollFirstKeeps(w: World, orgs: seq<Uuid>, hourly: seq<int>, daily: seq<int>, k: nat)
    requires |orgs| == |hourly| == |daily| && k <= |orgs|
    ensures RollFirst(w, orgs, hourly, daily, k).raw == w.raw
  {
    hide Downsample;
    if k > 0 { RollFirstKeeps(w, orgs, hourly, daily, k - 1); }
  }

  predicate Untouched(before: map<Bucket, Summary>, after: map<Bucket, Summary>, b: Bucket) {
    (b in after <==> b in before) && (b in before ==> after[b] == before[b])
  }

  /** The bucket has the summary of its rows up to an hour, or a day, before the clock was read, if there are any. */
  predicate RolledUp(w: World, after: map<Bucket, Summary>, hourly: int, daily: int, b: Bucket)
    requires Supported(b.size)
  {
    var rows := UpTo(InBucket(w.raw, b), if b.size == 3_600_000_000 then hourly - 3_600_000_000 else daily - 86_400_000_000);
    if rows != [] then b in after && after[b] == Summarize(rows) else Untouched(w.aggregates, after, b)
  }

  /** Rolling up an organization in one size after the other. */
  lemma RollTwoSizes(w: World, org: Uuid, hourly: int, daily: int, b: Bucket)
    requires Supported(b.size)
    ensures var after := Next(Next(w, Hourly(org, hourly)), Daily(org, daily)).aggregates;
            if b.org == org then RolledUp(w, after, hourly, daily, b) else Untouched(w.aggregates, after, b)
  {
    RollBucket(w, Hourly(org, hourly), b);
    RollBucket(Next(w, Hourly(org, hourly)), Daily(org, daily), b);
    hide Next, UpTo, InBucket, Summarize;
  }

  /** Organizations that are not rolled up keep their aggregates. */
  lemma {:induction false} RollFirstElsewhere(w: World, orgs: seq<Uuid>, hourly: seq<int>, daily: seq<int>, k: nat, b: Bucket)
    requires |orgs| == |hourly| == |daily| && k <= |orgs| && Supported(b.size)
    requires forall i :: 0 <= i < k ==> orgs[i] != b.org
    ensures Untouched(w.aggregates, RollFirst(w, orgs, hourly, daily, k).aggregates, b)
  {
    hide Next, Supported, Hourly, Daily;
    if k > 0 {
      var before := RollFirst(w, orgs, hourly, daily, k - 1);
      RollFirstElsewhere(w, orgs, hourly, daily, k - 1, b);
      RollTwoSizes(before, orgs[k - 1], hourly[k - 1], daily[k - 1], b);
    }
  }

  lemma UntouchedRolledUp(w: World, before: World, mid: map<Bucket, Summary>, after: map<Bucket, Summary>,
                          hourly: int, daily: int, b: Bucket)
    requires Supported(b.size)
    ensures Untouched(w.aggregates, before.aggregates, b) && before.raw == w.raw && RolledUp(before, after, hourly, daily, b)
            ==> RolledUp(w, after, hourly, daily, b)
    ensures RolledUp(w, mid, hourly, daily, b) && Untouched(mid, after, b) ==> RolledUp(w, after, hourly, daily, b)
  {
    hide UpTo, InBucket, Summarize, Supported;
  }

  /** The loop over the active organizations rolls each of them up by the clock read for it. */
  lemma {:induction false} RollAllEffect(w: World, orgs: seq<Uuid>, hourly: seq<int>, daily: seq<int>, n: nat, k: nat, b: Bucket)
    requires |orgs| == |hourly| == |daily| && k < n <= |orgs| && Supported(b.size) && b.org == orgs[k]
    requires forall i :: 0 <= i < n && i != k ==> orgs[i] != orgs[k]
    ensures RolledUp(w, RollFirst(w, orgs, hourly, daily, n).aggregates, hourly[k], daily[k], b)
    decreases n
  {
    hide Next, Supported, Hourly, Daily, RolledUp, Untouched;
    var before, after := RollFirst(w, orgs, hourly, daily, n - 1), RollFirst(w, orgs, hourly, daily, n).aggregates;
    RollFirstKeeps(w, orgs, hourly, daily, n - 1);
    RollTwoSizes(before, orgs[n - 1], hourly[n - 1], daily[n - 1], b);
    UntouchedRolledUp(w, before, before.aggregates, after, hourly[k], daily[k], b);
    if n == k + 1 {
      RollFirstElsewhere(w, orgs, hourly, daily, k, b);
    } else {
      RollAllEffect(w, orgs, hourly, daily, n - 1, k, b);
    }
  }

  /** The statements of such a cycle for the organizations `from` to `k`, in order. */
  function RollSteps(orgs: seq<Uuid>, hourly: seq<int>, daily: seq<int>, from: nat, k: nat): seq<Step>
    requires |orgs| == |hourly| == |daily| && k <= |orgs|
  {
    if k <= from then []
    else RollSteps(orgs, hourly, daily, from, k - 1)
         + [Hourly(orgs[k - 1], hourly[k - 1]), Daily(orgs[k - 1], daily[k - 1])]
  }

  lemma {:induction false} RollFirstIsRun(steps: seq<Step>, orgs: seq<Uuid>, hourly: seq<int>, daily: seq<int>, k: nat)
    requires |orgs| == |hourly| == |daily| && k <= |orgs|
    ensures RollFirst(Run(steps), orgs, hourly, daily, k) == Run(steps + RollSteps(orgs, hourly, daily, 0, k))
  {
    hide Next;
    if k == 0 {
      assert steps + [] == steps;
    } else {
      RollFirstIsRun(steps, orgs, hourly, daily, k - 1);
      var before := steps + RollSteps(orgs, hourly, daily, 0, k - 1);
      var a, b := Hourly(orgs[k - 1], hourly[k - 1]), Daily(orgs[k - 1], daily[k - 1]);
      assert steps + RollSteps(orgs, hourly, daily, 0, k) == before + [a] + [b];
      hide Run;
      RunMore(before, a);
      RunMore(before + [a], b);
    }
  }

  lemma RunMore(steps: seq<Step>, s: Step)
    ensures Run(steps + [s]) == Next(Run(steps), s)
  {
    assert (steps + [s])[..|steps|] == steps;
  }

  lemma LegalMore(steps: seq<Step>, s: Step, b: Bucket)
    requires Supported(b.size)
    ensures LegalRun(steps + [s], b) <==> LegalRun(steps, b) && Legal(Run(steps), s, b)
  {
    assert (steps + [s])[..|steps|] == steps;
  }

  /** A cycle as one organization sees it: its two rollups, by the clock read for each, and the retention,
      with whatever happens between them. */
  datatype Cycle = Cycle(
    before: seq<Step>, hourly: int, between: seq<Step>, daily: int, after: seq<Step>, retention: int)

  function Steps(c: Cycle, org: Uuid): seq<Step> {
    c.before + [Hourly(org, c.hourly)] + c.between + [Daily(org, c.daily)] + c.after
    + [Retain(c.retention / DAY)]
  }

  /** Rows may arrive, of this organization only from an instant on, and other organizations may be rolled up. */
  predicate Idle(seg: seq<Step>, org: Uuid, from: Option<int>) {
    forall s :: s in seg ==>
      && !s.Retain?
      && (s.Roll? ==> s.org != org)
      && (s.Insert? && s.row.org == org && from.Some? ==> from.value <= s.row.at)
  }

  /** The organization is active in the cycle, no row of it arrives for a purged day, nor between a rollup and
      the retention for a day about to be purged, the dates do not go back, and a rollup is less than
      thirteen days before the retention. */
  predicate Regular(c: Cycle, org: Uuid, floor: Option<int>) {
    var boundary := Boundary(c.retention / DAY);
    && Idle(c.before, org, floor) && Idle(c.between, org, Some(boundary)) && Idle(c.after, org, Some(boundary))
    && (floor.Some? ==> floor.value <= boundary)
    && c.retention <= c.hourly + 13 * DAY && c.retention <= c.daily + 13 * DAY
  }

  /** The boundary of the last retention. */
  function Floor(cycles: seq<Cycle>): Option<int> {
    if cycles == [] then None else Some(Boundary(cycles[|cycles| - 1].retention / DAY))
  }

  predicate AllRegular(cycles: seq<Cycle>, org: Uuid) {
    cycles == [] || (AllRegular(cycles[..|cycles| - 1], org)
                     && Regular(cycles[|cycles| - 1], org, Floor(cycles[..|cycles| - 1])))
  }

  function Whole(cycles: seq<Cycle>, org: Uuid): seq<Step> {
    if cycles == [] then [] else Whole(cycles[..|cycles| - 1], org) + Steps(cycles[|cycles| - 1], org)
  }

  /** A cycle of the program, as each active organization sees it. */
  function ProgramCycle(orgs: seq<Uuid>, hourly: seq<int>, daily: seq<int>, k: nat, retention: int): Cycle
    requires |orgs| == |hourly| == |daily| && k < |orgs|
  {
    Cycle(RollSteps(orgs, hourly, daily, 0, k), hourly[k], [], daily[k], RollSteps(orgs, hourly, daily, k + 1, |orgs|), retention)
  }

  lemma {:induction false} RollStepsJoin(orgs: seq<Uuid>, hourly: seq<int>, daily: seq<int>, k: nat, n: nat)
    requires |orgs| == |hourly| == |daily| && k < n <= |orgs|
    ensures RollSteps(orgs, hourly, daily, 0, n)
            == RollSteps(orgs, hourly, daily, 0, k)
               + [Hourly(orgs[k], hourly[k]), Daily(orgs[k], daily[k])]
               + RollSteps(orgs, hourly, daily, k + 1, n)
    decreases n
  {
    if n > k + 1 {
      RollStepsJoin(orgs, hourly, daily, k, n - 1);
    }
  }

  lemma {:induction false} RollStepsIdle(orgs: seq<Uuid>, hourly: seq<int>, daily: seq<int>, from: nat, k: nat, org: Uuid, floor: Option<int>)
    requires |orgs| == |hourly| == |daily| && k <= |orgs| && forall i :: from <= i < k ==> orgs[i] != org
    ensures Idle(RollSteps(orgs, hourly, daily, from, k), org, floor)
  {
    if k > from {
      RollStepsIdle(orgs, hourly, daily, from, k - 1, org, floor);
    }
  }

  /** The program's own cycle is one of these for every active organization. */
  lemma ProgramCycleSteps(orgs: seq<Uuid>, hourly: seq<int>, daily: seq<int>, k: nat, retention: int)
    requires |orgs| == |hourly| == |daily| && k < |orgs|
    ensures RollSteps(orgs, hourly, daily, 0, |orgs|) + [Retain(retention / DAY)]
            == Steps(ProgramCycle(orgs, hourly, daily, k, retention), orgs[k])
  {
    hide RollSteps, Hourly, Daily;
    RollStepsJoin(orgs, hourly, daily, k, |orgs|);
    TwoRolls(RollSteps(orgs, hourly, daily, 0, k), Hourly(orgs[k], hourly[k]), Daily(orgs[k], daily[k]),
             RollSteps(orgs, hourly, daily, k + 1, |orgs|));
  }

  /** What the program does to the tables in a cycle is what the cycle does, as any active organization sees it. */
  lemma ProgramCycleRuns(steps: seq<Step>, orgs: seq<Uuid>, hourly: seq<int>, daily: seq<int>, k: nat, retention: int)
    requires |orgs| == |hourly| == |daily| && k < |orgs|
    ensures Next(RollAll(Run(steps), orgs, hourly, daily), Retain(retention / DAY))
            == Run(steps + Steps(ProgramCycle(orgs, hourly, daily, k, retention), orgs[k]))
  {
    var rolls, last := RollSteps(orgs, hourly, daily, 0, |orgs|), Retain(retention / DAY);
    hide Next, Run, RollSteps, RollFirst, Steps, ProgramCycle;
    RollFirstIsRun(steps, orgs, hourly, daily, |orgs|);
    ProgramCycleSteps(orgs, hourly, daily, k, retention);
    assert steps + (rolls + [last]) == steps + rolls + [last];
    RunMore(steps + rolls, last);
  }

  lemma TwoRolls(head: seq<Step>, a: Step, b: Step, tail: seq<Step>)
    ensures head + [a, b] + tail == head + [a] + [] + [b] + tail
  {
    assert head + [a, b] == head + [a] + [] + [b];
  }

  /** It is regular for an organization listed once if it is quick enough. */
  lemma ProgramCycleIsRegular(orgs: seq<Uuid>, hourly: seq<int>, daily: seq<int>, k: nat, retention: int, floor: Option<int>)
    requires |orgs| == |hourly| == |daily| && k < |orgs|
    requires forall i :: 0 <= i < |orgs| && i != k ==> orgs[i] != orgs[k]
    requires floor.Some? ==> floor.value <= Boundary(retention / DAY)
    requires retention <= hourly[k] + 13 * DAY && retention <= daily[k] + 13 * DAY
    ensures Regular(ProgramCycle(orgs, hourly, daily, k, retention), orgs[k], floor)
  {
    var boundary := Boundary(retention / DAY);
    hide Boundary, RollSteps;
    RollStepsIdle(orgs, hourly, daily, 0, k, orgs[k], floor);
    RollStepsIdle(orgs, hourly, daily, k + 1, |orgs|, orgs[k], Some(boundary));
    assert Idle([], orgs[k], Some(boundary));
    hide Idle;
  }

  /** Not a retention; and a row that arrives for the bucket is not from before the instant. */
  predicate Timely(s: Step, b: Bucket, from: Option<int>)
    requires Supported(b.size)
  {
    !s.Retain? && (s.Insert? && BucketOf(s.row, b.size) == b && from.Some? ==> from.value <= s.row.at)
  }

  /** Nor a rollup of the bucket. */
  predicate Harmless(s: Step, b: Bucket, from: Option<int>)
    requires Supported(b.size)
  {
    Timely(s, b, from) && (s.Roll? ==> s.org != b.org || s.size != b.size)
  }

  /** A bucket before the boundary is purged, any other intact. */
  predicate Clean(w: World, b: Bucket, floor: Option<int>)
    requires Supported(b.size)
  {
    if floor.Some? && b.start < floor.value then InBucket(w.raw, b) == [] else Intact(w, b)
  }

  predicate Midnight(floor: Option<int>) { floor.Some? ==> floor.value % DAY == 0 }

  /** The latest rollup has a cutoff from the boundary on, and no row of the bucket has come since. */
  predicate Rolled(w: World, b: Bucket, boundary: int)
    requires Supported(b.size)
  {
    && Marked(w, b) && boundary <= w.marks[(b.org, b.size)].cutoff
    && forall i :: w.marks[(b.org, b.size)].stored <= i < |w.ever| ==> BucketOf(w.ever[i], b.size) != b
  }

  lemma HarmlessKeeps(w: World, s: Step, b: Bucket, floor: Option<int>)
    requires Supported(b.size) && Midnight(floor) && Clean(w, b, floor) && Timely(s, b, floor)
    ensures Legal(w, s, b) && Clean(Next(w, s), b, floor)
  {
    if s.Insert? {
      InsertBucket(w, s.row, b);
      if floor.Some? && BucketOf(s.row, b.size) == b { BucketSide(s.row, b, floor.value); }
    } else if Supported(s.size) {
      RollBucket(w, s, b);
    }
    hide InBucket, BucketOf, Supported, UpTo;
  }

  lemma HarmlessRolled(w: World, s: Step, b: Bucket, boundary: int)
    requires Supported(b.size) && boundary % DAY == 0 && b.start < boundary
    requires Rolled(w, b, boundary) && Harmless(s, b, Some(boundary))
    ensures Rolled(Next(w, s), b, boundary)
  {
    if s.Insert? && BucketOf(s.row, b.size) == b {
      BucketSide(s.row, b, boundary);
    }
    hide BucketOf, Downsample, Supported;
  }

  lemma {:induction false} SegmentKeeps(steps: seq<Step>, seg: seq<Step>, b: Bucket, floor: Option<int>)
    requires Supported(b.size) && Midnight(floor) && LegalRun(steps, b) && Clean(Run(steps), b, floor)
    requires forall s :: s in seg ==> Timely(s, b, floor)
    ensures LegalRun(steps + seg, b) && Clean(Run(steps + seg), b, floor)
    decreases |seg|
  {
    hide Clean, Legal, Next, Timely, Supported;
    if seg == [] {
      assert steps + seg == steps;
    } else {
      var most, last := seg[..|seg| - 1], seg[|seg| - 1];
      assert last in seg && steps + seg == steps + most + [last];
      SegmentKeeps(steps, most, b, floor);
      HarmlessKeeps(Run(steps + most), last, b, floor);
      RunMore(steps + most, last);
      LegalMore(steps + most, last, b);
    }
  }

  lemma {:induction false} SegmentRolled(steps: seq<Step>, seg: seq<Step>, b: Bucket, boundary: int)
    requires Supported(b.size) && boundary % DAY == 0 && b.start < boundary && Rolled(Run(steps), b, boundary)
    requires forall s :: s in seg ==> Harmless(s, b, Some(boundary))
    ensures Rolled(Run(steps + seg), b, boundary)
    decreases |seg|
  {
    hide Rolled, Harmless, Next, Supported;
    if seg == [] {
      assert steps + seg == steps;
    } else {
      var most, last := seg[..|seg| - 1], seg[|seg| - 1];
      assert last in seg && steps + seg == steps + most + [last];
      SegmentRolled(steps, most, b, boundary);
      HarmlessRolled(Run(steps + most), last, b, boundary);
      RunMore(steps + most, last);
    }
  }

  /** What was rolled up before the boundary has been seen. */
  lemma RolledIsSeen(w: World, b: Bucket, boundary: int)
    requires Supported(b.size) && boundary % DAY == 0 && b.start < boundary && Rolled(w, b, boundary)
    ensures Seen(w, b)
  {
    forall i | 0 <= i < |w.ever| && BucketOf(w.ever[i], b.size) == b ensures w.ever[i].at < boundary {
      BucketSide(w.ever[i], b, boundary);
    }
    hide BucketOf;
  }

  // The cycle around the rollup into the bucket's own size.

  function OwnRoll(c: Cycle, b: Bucket): Step {
    Roll(b.org, b.size, if b.size == HOUR then c.hourly - HOUR else c.daily - DAY)
  }

  function Head(c: Cycle, b: Bucket): seq<Step> {
    if b.size == HOUR then c.before else c.before + [Hourly(b.org, c.hourly)] + c.between
  }

  function Tail(c: Cycle, b: Bucket): seq<Step> {
    if b.size == HOUR then c.between + [Daily(b.org, c.daily)] + c.after else c.after
  }

  lemma CycleParts(c: Cycle, b: Bucket, floor: Option<int>)
    requires Supported(b.size) && Regular(c, b.org, floor)
    ensures Steps(c, b.org) == Head(c, b) + [OwnRoll(c, b)] + Tail(c, b) + [Retain(c.retention / DAY)]
    ensures forall s :: s in Head(c, b) || s in Tail(c, b) ==> Timely(s, b, floor)
    ensures forall s :: s in Tail(c, b) ==> Harmless(s, b, Some(Boundary(c.retention / DAY)))
    ensures OwnRoll(c, b).cutoff >= Boundary(c.retention / DAY)
    ensures floor.Some? ==> floor.value <= Boundary(c.retention / DAY)
  {
    BoundaryIsEarly(c.retention);
    hide Boundary, BucketStart;
  }

  lemma BoundaryIsEarly(instant: int)
    ensures Boundary(instant / DAY) % DAY == 0 && Boundary(instant / DAY) <= instant - 14 * DAY
  {
    var day := instant / DAY;
    assert instant == DAY * day + instant % DAY;
    assert Boundary(day) == DAY * (day - 14);
  }

  lemma OwnRollRolls(w: World, c: Cycle, b: Bucket, boundary: int)
    requires Supported(b.size) && boundary <= OwnRoll(c, b).cutoff
    ensures Rolled(Next(w, OwnRoll(c, b)), b, boundary)
  {
    hide Downsample, BucketOf;
  }

  /** The retention at the end of a cycle. */
  lemma RetainClean(w: World, today: int, b: Bucket, floor: Option<int>)
    requires Supported(b.size) && Clean(w, b, floor) && !Outdated(b, today)
    requires floor.Some? ==> floor.value <= Boundary(today)
    requires b.start < Boundary(today) ==> Seen(w, b)
    ensures Legal(w, Retain(today), b) && Clean(Next(w, Retain(today)), b, Some(Boundary(today)))
  {
    RetainBucket(w, today, b);
    hide InBucket, Keep, Boundary, Outdated, Supported, Seen;
  }

  /** A cycle up to and including the rollup into the bucket's own size. */
  lemma HeadIsLegal(steps: seq<Step>, c: Cycle, b: Bucket, floor: Option<int>)
    requires Supported(b.size) && Midnight(floor) && LegalRun(steps, b) && Clean(Run(steps), b, floor)
    requires Regular(c, b.org, floor)
    ensures var done := steps + Head(c, b) + [OwnRoll(c, b)];
            LegalRun(done, b) && Clean(Run(done), b, floor) && Rolled(Run(done), b, Boundary(c.retention / DAY))
  {
    var own, a := OwnRoll(c, b), steps + Head(c, b);
    CycleParts(c, b, floor);
    hide Run, LegalRun, Clean, Rolled, Legal, Next, Steps, Head, Tail, Regular, Harmless, BucketOf, Boundary, Supported;
    SegmentKeeps(steps, Head(c, b), b, floor);
    HarmlessKeeps(Run(a), own, b, floor);
    RunMore(a, own);
    LegalMore(a, own, b);
    OwnRollRolls(Run(a), c, b, Boundary(c.retention / DAY));
  }

  /** A regular cycle meets the conditions, so whoever keeps to it need not know about other organizations. */
  lemma CycleIsLegal(steps: seq<Step>, c: Cycle, b: Bucket, floor: Option<int>)
    requires Supported(b.size) && Midnight(floor) && LegalRun(steps, b) && Clean(Run(steps), b, floor)
    requires Regular(c, b.org, floor) && !Outdated(b, c.retention / DAY)
    ensures LegalRun(steps + Steps(c, b.org), b)
    ensures Clean(Run(steps + Steps(c, b.org)), b, Some(Boundary(c.retention / DAY)))
  {
    var today, boundary := c.retention / DAY, Boundary(c.retention / DAY);
    var tail, done := Tail(c, b), steps + Head(c, b) + [OwnRoll(c, b)];
    var z := done + tail;
    hide *;
    CycleParts(c, b, floor);
    BoundaryIsEarly(c.retention);
    assert steps + Steps(c, b.org) == z + [Retain(today)];
    HeadIsLegal(steps, c, b, floor);
    SegmentKeeps(done, tail, b, floor);
    if b.start < boundary {
      SegmentRolled(done, tail, b, boundary);
      RolledIsSeen(Run(z), b, boundary);
    }
    RetainClean(Run(z), today, b, floor);
    RunMore(z, Retain(today));
    LegalMore(z, Retain(today), b);
  }

  /** Within its retention at the end of the cycles. */
  predicate Recent(cycles: seq<Cycle>, b: Bucket) {
    cycles != [] ==> !Outdated(b, cycles[|cycles| - 1].retention / DAY)
  }

  /** A bucket within its retention today was so at every earlier boundary. */
  lemma RecentBefore(cycles: seq<Cycle>, b: Bucket)
    requires cycles != [] && AllRegular(cycles, b.org) && Recent(cycles, b)
    ensures Recent(cycles[..|cycles| - 1], b)
  {
    if |cycles| > 1 {
      var now, before := cycles[|cycles| - 1].retention / DAY, cycles[|cycles| - 2].retention / DAY;
      assert Boundary(before) <= Boundary(now);
      hide *;
      OutdatedLater(b, before, now);
    }
  }

  lemma OutdatedLater(b: Bucket, before: int, now: int)
    requires Boundary(before) <= Boundary(now)
    ensures Outdated(b, before) ==> Outdated(b, now)
  {
    assert before <= now;
  }

  /** Every sequence of cycles in which an organization is active and its rows are not late is legal for all
      its buckets within their retention. */
  lemma {:induction false} CyclesAreLegal(cycles: seq<Cycle>, b: Bucket)
    requires Supported(b.size) && AllRegular(cycles, b.org) && Recent(cycles, b)
    ensures LegalRun(Whole(cycles, b.org), b) && Midnight(Floor(cycles))
    ensures Clean(Run(Whole(cycles, b.org)), b, Floor(cycles))
  {
    if cycles != [] {
      var most, last := cycles[..|cycles| - 1], cycles[|cycles| - 1];
      RecentBefore(cycles, b);
      BoundaryIsEarly(last.retention);
      hide Run, LegalRun, Clean, Steps, Regular, Boundary, Supported, Outdated;
      CyclesAreLegal(most, b);
      CycleIsLegal(Whole(most, b.org), last, b, Floor(most));
    }
  }

  /** So after the rollup of the next cycle, whatever has come in before it, an ended bucket's aggregate
      says everything about its full history, purged or not. */
  lemma ActiveOrganizationsAgree(cycles: seq<Cycle>, seg: seq<Step>, b: Bucket, cutoff: int)
    requires Supported(b.size) && AllRegular(cycles, b.org) && Recent(cycles, b) && Idle(seg, b.org, Floor(cycles))
    requires b.start + b.size <= cutoff && InBucket(Run(Whole(cycles, b.org) + seg).ever, b) != []
    ensures var w := Run(Whole(cycles, b.org) + seg + [Roll(b.org, b.size, cutoff)]);
            b in w.aggregates && w.aggregates[b] == Summarize(InBucket(w.ever, b))
  {
    var steps := Whole(cycles, b.org);
    CyclesAreLegal(cycles, b);
    assert forall s :: s in seg && s.Insert? && BucketOf(s.row, b.size) == b ==> s.row.org == b.org;
    hide Run, LegalRun, Clean, Whole, AllRegular, Recent, Summarize, InBucket, Supported, BucketOf, Floor;
    SegmentKeeps(steps, seg, b, Floor(cycles));
    FreshRollupIsComplete(steps + seg, b, cutoff);
  }
}

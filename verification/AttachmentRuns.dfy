/** Every interleaving of uploads, deletions and outbox workers, with exceptions and crashes. */
module AttachmentRuns {
  import opened Wrappers
  import opened Telemetry
  import opened AttachmentOutbox

  /** An upload whose file is stored: before its INSERT, or after an INSERT that raised. */
  datatype Upload = Stored | Raised

  /** A claimed row in a worker's hands: to be erased, erased, or to be marked as failed. */
  datatype Stage = Taken | Erased | Broken

  /** How a transaction ended for its caller: committed, rolled back with an exception, or committed
      with the exception of a connection lost at the commit. */
  datatype Ending = Committed | RolledBack | Unsure

  /** `unsure` are the paths whose INSERT committed but raised; `used` all paths ever stored; `duties` the
      paths a user's deletion is still to erase. */
  datatype World = World(
    files: set<Path>, live: map<Uuid, Attachment>, jobs: seq<Job>, claims: seq<nat>, uploads: map<Path, Upload>,
    duties: set<Path>, held: map<nat, Stage>, unsure: set<Path>, used: set<Path>)

  const START := World({}, map[], [], [], map[], {}, map[], {}, {})

  datatype Step =
    | Store(path: Path)
    | Create(path: Path, id: Uuid, ticket: Uuid, ending: Ending)
    | CleanUp(path: Path, ok: bool)
    | Retire(ids: seq<Uuid>)
    | EraseNow(path: Path, ok: bool)
    | Claim(limit: nat)
    | Erase(job: nat, ok: bool)
    | Complete(job: nat, ending: Ending)
    | Fail(job: nat)
    | Crash(lost: set<nat>)

  /** `create_attachment`: the row is there unless the transaction rolled back; any exception leaves the
      file to be cleaned up. */
  function Insert(w: World, path: Path, id: Uuid, ticket: Uuid, ending: Ending): World {
    World(w.files, if ending.RolledBack? then w.live else w.live[id := Attachment(ticket, path)], w.jobs, w.claims,
          if ending.Committed? then w.uploads - {path} else w.uploads[path := Raised],
          w.duties, w.held, if ending.Unsure? then w.unsure + {path} else w.unsure, w.used)
  }

  /** `delete_attachment`, and `delete_ticket` for all attachments of a ticket: the rows go and their
      paths enter the outbox in one transaction. */
  function Retired(w: World, ids: seq<Uuid>): World
    requires forall k :: 0 <= k < |ids| ==> ids[k] in w.live
  {
    w.(live := map id | id in w.live && id !in ids :: w.live[id],
       jobs := w.jobs + seq(|ids|, k requires 0 <= k < |ids| => Job(w.live[ids[k]].path, Pending, 0)),
       claims := w.claims + seq(|ids|, _ => 0),
       duties := w.duties + set k | 0 <= k < |ids| :: w.live[ids[k]].path)
  }

  function Counts(claims: seq<nat>, picked: seq<nat>): (r: seq<nat>)
    ensures |r| == |claims|
  {
    seq(|claims|, i requires 0 <= i < |claims| => if i in picked then claims[i] + 1 else claims[i])
  }

  function Next(w: World, s: Step): World {
    match s
    case Store(path) =>
      if path in w.used then w
      else w.(files := w.files + {path}, uploads := w.uploads[path := Stored], used := w.used + {path})
    case Create(path, id, ticket, ending) =>
      if path in w.uploads && w.uploads[path].Stored? && id !in w.live then Insert(w, path, id, ticket, ending) else w
    case CleanUp(path, ok) =>
      if path in w.uploads && w.uploads[path].Raised? && ok then
        w.(files := w.files - {path}, uploads := w.uploads - {path})
      else w
    case Retire(ids) => if forall k :: 0 <= k < |ids| ==> ids[k] in w.live then Retired(w, ids) else w
    case EraseNow(path, ok) =>
      if path in w.duties then w.(files := if ok then w.files - {path} else w.files, duties := w.duties - {path}) else w
    case Claim(limit) =>
      var picked := Pick(w.jobs, 0, limit);
      w.(jobs := Claimed(w.jobs, picked), claims := Counts(w.claims, picked),
         held := map i | i in w.held.Keys + (set j | j in picked) :: if i in picked then Taken else w.held[i])
    case Erase(job, ok) =>
      if job in w.held && w.held[job].Taken? && job < |w.jobs| then
        if ok then w.(files := w.files - {w.jobs[job].path}, held := w.held[job := Erased])
        else w.(held := w.held[job := Broken])
      else w
    case Complete(job, ending) =>
      if job in w.held && w.held[job].Erased? && job < |w.jobs| then
        w.(jobs := if ending.RolledBack? then w.jobs else w.jobs[job := w.jobs[job].(status := Completed)],
           held := if ending.Committed? then w.held - {job} else w.held[job := Broken])
      else w
    case Fail(job) =>
      if job in w.held && w.held[job].Broken? && job < |w.jobs| then
        w.(jobs := w.jobs[job := Refused(w.jobs[job])], held := w.held - {job})
      else w
    case Crash(lost) => w.(held := w.held - lost)
  }

  // -------------------------------------------------------------- invariant

  /** The state of a row and the number of times it was claimed. */
  predicate Tallied(j: Job, claims: nat) {
    match j.status
    case Pending => j.attempts < MAX_ATTEMPTS && claims == j.attempts
    case Processing => j.attempts < MAX_ATTEMPTS && claims == j.attempts + 1
    case Completed => j.attempts < MAX_ATTEMPTS && claims == j.attempts + 1
    case Failed => j.attempts == MAX_ATTEMPTS && claims == j.attempts
  }

  predicate Counted(w: World) {
    |w.claims| == |w.jobs| && forall i :: 0 <= i < |w.jobs| ==> Tallied(w.jobs[i], w.claims[i])
  }

  /** A row in hand is PROCESSING, or COMPLETED without its worker having been told. */
  predicate Holding(w: World) {
    forall i :: i in w.held ==>
      i < |w.jobs| && (w.jobs[i].status.Processing? || (w.jobs[i].status.Completed? && w.held[i].Broken?))
      && (w.held[i].Erased? ==> w.jobs[i].path !in w.files)
  }

  predicate Gone(w: World) {
    forall i :: 0 <= i < |w.jobs| && w.jobs[i].status.Completed? ==> w.jobs[i].path !in w.files
  }

  predicate Refers(w: World, path: Path) {
    exists id :: id in w.live && w.live[id].path == path
  }

  /** A path whose row is gone for good. */
  predicate Dead(w: World, path: Path) {
    path in w.used && !Refers(w, path) && !(path in w.uploads && w.uploads[path].Stored?)
  }

  predicate Condemned(w: World) {
    (forall i :: 0 <= i < |w.jobs| ==> Dead(w, w.jobs[i].path)) && (forall p :: p in w.duties ==> Dead(w, p))
  }

  /** No two rows share a path, and a path being uploaded has no row unless its INSERT raised after committing. */
  predicate Owned(w: World) {
    && w.files <= w.used && w.uploads.Keys <= w.used && w.unsure <= w.used
    && (forall a, b :: a in w.live && b in w.live && w.live[a].path == w.live[b].path ==> a == b)
    && (forall a :: a in w.live ==> w.live[a].path in w.used)
    && (forall p :: p in w.uploads && w.uploads[p].Stored? ==> p in w.files && !Refers(w, p) && p !in w.unsure)
    && (forall p :: p in w.uploads && w.uploads[p].Raised? && Refers(w, p) ==> p in w.unsure)
  }

  /** A row's file is missing exactly when its INSERT raised after committing and the clean-up ran. */
  predicate Present(w: World) {
    forall a :: a in w.live ==>
      (w.live[a].path !in w.files <==> w.live[a].path in w.unsure && w.live[a].path !in w.uploads)
  }

  predicate Open(w: World, path: Path) {
    exists i :: 0 <= i < |w.jobs| && w.jobs[i].path == path && !w.jobs[i].status.Completed?
  }

  /** Every stored file has a row, an open outbox row or an unfinished upload. */
  predicate Referenced(w: World) {
    forall f :: f in w.files ==> Refers(w, f) || Open(w, f) || f in w.uploads
  }

  predicate Invariant(w: World) {
    Counted(w) && Holding(w) && Gone(w) && Condemned(w) && Owned(w) && Present(w) && Referenced(w)
  }

  // ------------------------------------------------------------ upload steps

  lemma StoreInvariant(w: World, s: Step)
    requires Invariant(w) && s.Store?
    ensures Invariant(Next(w, s))
  {
    var v := Next(w, s);
    if s.path !in w.used {
      assert forall p :: Refers(v, p) <==> Refers(w, p);
      assert forall p :: Open(v, p) <==> Open(w, p);
    }
  }

  lemma CreateInvariant(w: World, s: Step)
    requires Invariant(w) && s.Create?
    ensures Invariant(Next(w, s))
  {
    var v := Next(w, s);
    if s.path in w.uploads && w.uploads[s.path].Stored? && s.id !in w.live {
      assert forall p :: Open(v, p) <==> Open(w, p);
      CreateRefers(w, s);
      hide Open, Refers, Tallied;
    }
  }

  lemma CreateRefers(w: World, s: Step)
    requires s.Create? && s.path in w.uploads && w.uploads[s.path].Stored? && s.id !in w.live
    ensures forall p :: Refers(Next(w, s), p) <==> Refers(w, p) || (p == s.path && !s.ending.RolledBack?)
  {
    var v := Next(w, s);
    assert forall id :: id in w.live ==> id in v.live && v.live[id] == w.live[id];
    if !s.ending.RolledBack? {
      assert s.id in v.live && v.live[s.id].path == s.path;
    }
  }

  lemma CleanUpInvariant(w: World, s: Step)
    requires Invariant(w) && s.CleanUp?
    ensures Invariant(Next(w, s))
  {
    var v := Next(w, s);
    assert forall p :: Refers(v, p) <==> Refers(w, p);
    assert forall p :: Open(v, p) <==> Open(w, p);
    hide Open, Refers, Tallied;
  }

  // ---------------------------------------------------------- deletion steps

  /** A retired path is dead, and its file has an open row from then on. */
  lemma RetiredPaths(w: World, ids: seq<Uuid>)
    requires Owned(w) && forall k :: 0 <= k < |ids| ==> ids[k] in w.live
    ensures var v := Retired(w, ids);
            && (forall p :: Refers(v, p) ==> Refers(w, p))
            && (forall p :: Refers(w, p) && !Refers(v, p) ==> Open(v, p))
            && (forall p :: Open(w, p) ==> Open(v, p))
            && (forall k :: 0 <= k < |ids| ==> Dead(v, w.live[ids[k]].path))
  {
    var v := Retired(w, ids);
    forall p | Refers(v, p) ensures Refers(w, p) {
      var id :| id in v.live && v.live[id].path == p;
      assert id in w.live && w.live[id].path == p;
    }
    forall id | id in w.live && id !in ids ensures Refers(v, w.live[id].path) {
      assert id in v.live && v.live[id].path == w.live[id].path;
    }
    forall p | Refers(w, p) && !Refers(v, p) ensures Open(v, p) {
      var id :| id in w.live && w.live[id].path == p;
      assert id in ids;
      var k :| 0 <= k < |ids| && ids[k] == id;
      assert v.jobs[|w.jobs| + k] == Job(p, Pending, 0);
    }
    forall p | Open(w, p) ensures Open(v, p) {
      var i :| 0 <= i < |w.jobs| && w.jobs[i].path == p && !w.jobs[i].status.Completed?;
      assert v.jobs[i] == w.jobs[i];
    }
    forall k | 0 <= k < |ids| ensures Dead(v, w.live[ids[k]].path) {
      RetiredIsDead(w, ids, k);
    }
  }

  lemma RetiredIsDead(w: World, ids: seq<Uuid>, k: nat)
    requires Owned(w) && (forall i :: 0 <= i < |ids| ==> ids[i] in w.live) && k < |ids|
    ensures Dead(Retired(w, ids), w.live[ids[k]].path)
  {
    var id0 := ids[k];
    var path := w.live[id0].path;
    assert id0 in w.live && Refers(w, path);
    forall id | id in Retired(w, ids).live ensures Retired(w, ids).live[id].path != path {
      assert id in w.live && id != id0;
    }
  }

  lemma RetireInvariant(w: World, s: Step)
    requires Invariant(w) && s.Retire?
    ensures Invariant(Next(w, s))
  {
    if forall k :: 0 <= k < |s.ids| ==> s.ids[k] in w.live {
      var v := Retired(w, s.ids);
      RetiredPaths(w, s.ids);
      RetiredJobs(w, v, s.ids);
      assert Owned(v) && Present(v) && Gone(v) && Holding(v) && Counted(v) by {
        hide Open, Dead, Condemned, Referenced;
      }
      assert Condemned(v) by { hide Refers, Open, Referenced, Counted, Holding, Gone, Present, Tallied; }
      hide Refers, Open, Dead, Tallied;
    }
  }

  lemma RetiredJobs(w: World, v: World, ids: seq<Uuid>)
    requires (forall k :: 0 <= k < |ids| ==> ids[k] in w.live) && v == Retired(w, ids) && |w.claims| == |w.jobs|
    ensures |v.jobs| == |v.claims| == |w.jobs| + |ids|
    ensures forall i :: 0 <= i < |w.jobs| ==> v.jobs[i] == w.jobs[i] && v.claims[i] == w.claims[i]
    ensures forall i :: |w.jobs| <= i < |v.jobs| ==>
                          v.jobs[i] == Job(w.live[ids[i - |w.jobs|]].path, Pending, 0) && v.claims[i] == 0
  {
  }

  /** Erasing a dead path leaves every row's file alone. */
  lemma ErasureInvariant(w: World, v: World, path: Path)
    requires Invariant(w) && Dead(w, path)
    requires v == w.(files := w.files - {path}, duties := v.duties, held := v.held) && v.duties <= w.duties
    requires Holding(v)
    ensures Invariant(v)
  {
    assert forall p :: Refers(v, p) <==> Refers(w, p);
    assert forall p :: Open(v, p) <==> Open(w, p);
    assert forall a :: a in w.live ==> Refers(w, w.live[a].path);
    hide Open, Refers, Tallied;
  }

  lemma EraseInvariant(w: World, s: Step)
    requires Invariant(w) && (s.Erase? || s.EraseNow?)
    ensures Invariant(Next(w, s))
  {
    var v := Next(w, s);
    hide Counted, Gone, Condemned, Owned, Present, Referenced, Dead, Open, Refers;
    if v.files != w.files {
      var path := if s.Erase? then w.jobs[s.job].path else s.path;
      assert Dead(w, path) by { CondemnedPaths(w); }
      ErasureInvariant(w, v, path);
    } else {
      OnlyHands(w, v);
    }
  }

  lemma CondemnedPaths(w: World)
    requires Condemned(w)
    ensures forall i :: 0 <= i < |w.jobs| ==> Dead(w, w.jobs[i].path)
    ensures forall p :: p in w.duties ==> Dead(w, p)
  {
  }

  lemma OnlyHands(w: World, v: World)
    requires Invariant(w) && v == w.(duties := v.duties, held := v.held) && v.duties <= w.duties && Holding(v)
    ensures Invariant(v)
  {
    assert forall p :: Refers(v, p) <==> Refers(w, p);
    assert forall p :: Open(v, p) <==> Open(w, p);
    hide Open, Refers, Tallied;
  }

  // ------------------------------------------------------------ outbox steps

  /** Only rows of the outbox change, their paths stay, and a row is completed only once its file is gone. */
  lemma OutboxInvariant(w: World, v: World)
    requires Invariant(w) && v == w.(jobs := v.jobs, claims := v.claims, held := v.held)
    requires |v.jobs| == |w.jobs| && forall i :: 0 <= i < |w.jobs| ==> v.jobs[i].path == w.jobs[i].path
    requires Counted(v) && Holding(v) && Gone(v)
    ensures Invariant(v)
  {
    assert forall p :: Refers(v, p) <==> Refers(w, p);
    assert forall p :: Dead(v, p) <==> Dead(w, p) by { hide Open; }
    forall f | f in v.files ensures Refers(v, f) || Open(v, f) || f in v.uploads {
      assert Refers(w, f) || Open(w, f) || f in w.uploads;
      if Open(w, f) {
        var i :| 0 <= i < |w.jobs| && w.jobs[i].path == f && !w.jobs[i].status.Completed?;
        assert v.jobs[i].path == f;
      }
    }
    hide Refers, Open, Dead, Counted, Holding, Gone;
  }

  lemma ClaimCounted(w: World, s: Step)
    requires Counted(w) && Gone(w) && s.Claim?
    ensures Counted(Next(w, s)) && Gone(Next(w, s))
  {
    PickOldest(w.jobs, 0, s.limit);
    hide Pick;
    var picked := Pick(w.jobs, 0, s.limit);
    forall i | 0 <= i < |w.jobs| && i in picked ensures Claimable(w.jobs[i]) {
      var k :| 0 <= k < |picked| && picked[k] == i;
    }
  }

  lemma ClaimHolding(w: World, s: Step)
    requires Holding(w) && s.Claim?
    ensures Holding(Next(w, s))
  {
    PickOldest(w.jobs, 0, s.limit);
    hide Pick;
    var v := Next(w, s);
    forall i | i in v.held
      ensures i < |v.jobs| && (v.jobs[i].status.Processing? || (v.jobs[i].status.Completed? && v.held[i].Broken?))
              && (v.held[i].Erased? ==> v.jobs[i].path !in v.files)
    {
      if i in Pick(w.jobs, 0, s.limit) {
      } else {
        assert i in w.held;
      }
    }
  }

  lemma ClaimInvariant(w: World, s: Step)
    requires Invariant(w) && s.Claim?
    ensures Invariant(Next(w, s))
  {
    hide Pick, Condemned, Owned, Present, Referenced, Counted, Gone, Holding;
    ClaimCounted(w, s);
    ClaimHolding(w, s);
    OutboxInvariant(w, Next(w, s));
  }

  lemma MarkCounted(w: World, s: Step)
    requires Counted(w) && Gone(w) && Holding(w) && (s.Complete? || s.Fail? || s.Crash?)
    ensures Counted(Next(w, s)) && Gone(Next(w, s))
  {
  }

  lemma MarkHolding(w: World, s: Step)
    requires Holding(w) && (s.Complete? || s.Fail? || s.Crash?)
    ensures Holding(Next(w, s))
  {
    hide Refused;
  }

  lemma MarkInvariant(w: World, s: Step)
    requires Invariant(w) && (s.Complete? || s.Fail? || s.Crash?)
    ensures Invariant(Next(w, s))
  {
    hide Condemned, Owned, Present, Referenced, Counted, Gone, Holding;
    MarkCounted(w, s);
    MarkHolding(w, s);
    OutboxInvariant(w, Next(w, s));
  }

  // ---------------------------------------------------------- what moves what

  /** A file is there after a step exactly if it was stored then, or was there and is not deleted: by the clean-up
      of its upload, by the deletion it is due to, or by a worker that has its row. */
  lemma WhyFilesMove(w: World, s: Step, f: Path)
    ensures f in Next(w, s).files <==>
              || (s.Store? && s.path == f && f !in w.used)
              || (&& f in w.files
                  && !(s.CleanUp? && s.path == f && s.ok && f in w.uploads && w.uploads[f] == Raised)
                  && !(s.EraseNow? && s.path == f && s.ok && f in w.duties)
                  && !(s.Erase? && s.ok && s.job in w.held && w.held[s.job] == Taken && s.job < |w.jobs| && w.jobs[s.job].path == f))
  {
    hide Pick, Claimed, Counts, Refused;
  }

  /** An attachment row is there after a step exactly if it was inserted then and not rolled back, or was there and
      is not deleted; and its deletion puts its path into the outbox, and into the duties of the caller. */
  lemma WhyRowsMove(w: World, s: Step, id: Uuid)
    ensures id in Next(w, s).live <==>
              || (s.Create? && s.id == id && s.path in w.uploads && w.uploads[s.path] == Stored && id !in w.live
                  && s.ending != RolledBack)
              || (id in w.live && !(s.Retire? && id in s.ids && forall k :: 0 <= k < |s.ids| ==> s.ids[k] in w.live))
    ensures id in w.live && id !in Next(w, s).live ==>
              && w.live[id].path in Next(w, s).duties
              && exists i :: |w.jobs| <= i < |Next(w, s).jobs| && Next(w, s).jobs[i] == Job(w.live[id].path, Pending, 0)
    ensures id in w.live && id in Next(w, s).live ==> Next(w, s).live[id] == w.live[id]
    ensures id !in w.live && id in Next(w, s).live ==> Next(w, s).live[id] == Attachment(s.ticket, s.path)
  {
    hide Pick, Claimed, Counts, Refused;
    if s.Retire? && id in w.live && id !in Next(w, s).live {
      var k :| 0 <= k < |s.ids| && s.ids[k] == id;
      assert Next(w, s).jobs[|w.jobs| + k] == Job(w.live[id].path, Pending, 0);
    }
  }

  /** What moves a row of the outbox, exactly: the claim, its worker's completion, and its worker's refusal, which is
      final at the fifth attempt. */
  predicate JobMovesTo(w: World, s: Step, i: nat, to: AttachmentOutbox.Status)
    requires i < |w.jobs|
  {
    match to
    case Processing => s.Claim? && i in Pick(w.jobs, 0, s.limit)
    case Completed => s.Complete? && s.job == i && i in w.held && w.held[i] == Erased && s.ending != RolledBack
    case Pending => s.Fail? && s.job == i && i in w.held && w.held[i] == Broken && w.jobs[i].attempts < 4
    case Failed => s.Fail? && s.job == i && i in w.held && w.held[i] == Broken && w.jobs[i].attempts >= 4
  }

  lemma WhyJobsMove(w: World, s: Step, i: nat, to: AttachmentOutbox.Status)
    requires i < |w.jobs| && to != w.jobs[i].status
    ensures i < |Next(w, s).jobs| && Next(w, s).jobs[i].path == w.jobs[i].path
    ensures Next(w, s).jobs[i].status == to <==> JobMovesTo(w, s, i, to)
    ensures Next(w, s).jobs[i].attempts == w.jobs[i].attempts
                                           + if s.Fail? && s.job == i && i in w.held && w.held[i] == Broken then 1 else 0
  {
    hide Pick, Counts;
  }

  /** What a worker has in hand, exactly: a row just claimed, one whose file it erased, or one it is to refuse. */
  lemma WhyHandsMove(w: World, s: Step, i: nat)
    requires i < |w.jobs|
    ensures var v := Next(w, s);
            var picked := s.Claim? && i in Pick(w.jobs, 0, s.limit);
            var lost := s.Crash? && i in s.lost;
            && (i in v.held && v.held[i] == Taken <==>
                  picked || (i in w.held && w.held[i] == Taken && !lost && !(s.Erase? && s.job == i)))
            && (i in v.held && v.held[i] == Erased <==>
                  || (s.Erase? && s.job == i && s.ok && i in w.held && w.held[i] == Taken)
                  || (i in w.held && w.held[i] == Erased && !lost && !picked && !(s.Complete? && s.job == i)))
            && (i in v.held && v.held[i] == Broken <==>
                  || (s.Erase? && s.job == i && !s.ok && i in w.held && w.held[i] == Taken)
                  || (s.Complete? && s.job == i && s.ending != Committed && i in w.held && w.held[i] == Erased)
                  || (i in w.held && w.held[i] == Broken && !lost && !picked && !(s.Fail? && s.job == i)))
  {
    hide Pick, Claimed, Counts, Refused;
  }

  // -------------------------------------------------------------------- runs

  function Run(steps: seq<Step>): World {
    if steps == [] then START else Next(Run(steps[..|steps| - 1]), steps[|steps| - 1])
  }

  lemma {:induction false} RunInvariant(steps: seq<Step>)
    ensures Invariant(Run(steps))
  {
    if steps == [] {
    } else {
      var w, s := Run(steps[..|steps| - 1]), steps[|steps| - 1];
      RunInvariant(steps[..|steps| - 1]);
      hide Invariant, Next;
      match s
      case Store(_) => StoreInvariant(w, s);
      case Create(_, _, _, _) => CreateInvariant(w, s);
      case CleanUp(_, _) => CleanUpInvariant(w, s);
      case Retire(_) => RetireInvariant(w, s);
      case EraseNow(_, _) => EraseInvariant(w, s);
      case Claim(_) => ClaimInvariant(w, s);
      case Erase(_, _) => EraseInvariant(w, s);
      case Complete(_, _) => MarkInvariant(w, s);
      case Fail(_) => MarkInvariant(w, s);
      case Crash(_) => MarkInvariant(w, s);
    }
  }

  // ---------------------------------------------------------------- theorems

  /** In every reachable state a row's file is missing exactly when its INSERT was reported as failed
      although it had committed, and the upload then deleted the file. */
  lemma FilesOfRowsStay(steps: seq<Step>, id: Uuid)
    requires id in Run(steps).live
    ensures var w, path := Run(steps), Run(steps).live[id].path;
            path !in w.files <==> path in w.unsure && path !in w.uploads
  {
    RunInvariant(steps);
  }

  /** Without such a report no file of a live row is ever deleted. */
  lemma SureRunsKeepFiles(steps: seq<Step>, id: Uuid)
    requires forall i :: 0 <= i < |steps| && steps[i].Create? ==> !steps[i].ending.Unsure?
    requires id in Run(steps).live
    ensures Run(steps).live[id].path in Run(steps).files
  {
    NobodyUnsure(steps);
    FilesOfRowsStay(steps, id);
  }

  lemma StaysSure(w: World, s: Step)
    requires s.Create? ==> !s.ending.Unsure?
    ensures Next(w, s).unsure == w.unsure
  {
    hide Pick, Claimed, Counts, Refused;
  }

  lemma {:induction false} NobodyUnsure(steps: seq<Step>)
    requires forall i :: 0 <= i < |steps| && steps[i].Create? ==> !steps[i].ending.Unsure?
    ensures Run(steps).unsure == {}
  {
    if steps != [] {
      hide Next;
      NobodyUnsure(steps[..|steps| - 1]);
      StaysSure(Run(steps[..|steps| - 1]), steps[|steps| - 1]);
    }
  }

  /** With one it happens: the row is there, its file is not, and nothing is left to repair it. */
  lemma UnsureInsertLosesFile(path: Path, id: Uuid, ticket: Uuid)
    ensures var w := Run([Store(path), Create(path, id, ticket, Unsure), CleanUp(path, true)]);
            id in w.live && w.live[id].path == path && path !in w.files && path !in w.uploads && w.jobs == []
  {
    var a, b, c := Store(path), Create(path, id, ticket, Unsure), CleanUp(path, true);
    assert [a, b, c][..2] == [a, b] && [a, b][..1] == [a] && [a][..0] == [];
    assert Run([]) == START;
    assert Run([a]) == Next(START, a);
    assert Run([a, b]) == Next(Run([a]), b);
    assert Run([a, b, c]) == Next(Run([a, b]), c);
  }

  /** Every stored file has a live row, a row of the outbox that is not completed, or an upload that did
      not finish; and a completed row's file is gone. */
  lemma NoFileIsForgotten(steps: seq<Step>)
    ensures var w := Run(steps);
            && (forall f :: f in w.files ==> Refers(w, f) || Open(w, f) || f in w.uploads)
            && (forall i :: 0 <= i < |w.jobs| && w.jobs[i].status.Completed? ==> w.jobs[i].path !in w.files)
  {
    RunInvariant(steps);
    hide Run, Refers, Open;
  }

  /** A row is claimed at most `MAX_ATTEMPTS` times; it is FAILED only after as many refusals, and then
      never claimed again although the claim also asks for FAILED rows. */
  lemma AttemptsAreBounded(steps: seq<Step>, i: nat)
    requires i < |Run(steps).jobs|
    ensures var w := Run(steps);
            && |w.claims| == |w.jobs| && w.claims[i] <= MAX_ATTEMPTS
            && (w.jobs[i].status.Failed? <==> w.jobs[i].attempts == MAX_ATTEMPTS)
            && (Claimable(w.jobs[i]) <==> w.jobs[i].status.Pending?)
            && w.claims[i] == w.jobs[i].attempts
                              + if w.jobs[i].status.Processing? || w.jobs[i].status.Completed? then 1 else 0
  {
    RunInvariant(steps);
    hide Run;
    assert Tallied(Run(steps).jobs[i], Run(steps).claims[i]);
  }

  /** No two workers hold the same row: whatever is in hand was taken out of the claimable rows. */
  lemma HeldIsNotClaimable(steps: seq<Step>, i: nat)
    requires i in Run(steps).held
    ensures i < |Run(steps).jobs| && !Claimable(Run(steps).jobs[i])
  {
    RunInvariant(steps);
    hide Run;
  }
}

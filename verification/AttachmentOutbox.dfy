/** Attachment files, the rows that refer to them, and the outbox that gets them deleted. Every
    transaction and every file operation is one step; uploads, deletions and workers interleave and
    may stop anywhere. */
module AttachmentOutbox {
  import opened Wrappers
  import opened Telemetry

  /** A storage path; stored file names are fresh UUIDs. */
  type Path = Uuid

  datatype Status = Pending | Processing | Completed | Failed

  /** A row of `attachment_deletions_outbox`; the table is listed in order of creation. */
  datatype Job = Job(path: Path, status: Status, attempts: nat)

  datatype Attachment = Attachment(ticket: Uuid, path: Path)

  /** The column default; no INSERT sets another value. */
  const MAX_ATTEMPTS := 5

  // ------------------------------------------------------------ transactions

  predicate Claimable(j: Job) {
    (j.status.Pending? || j.status.Failed?) && j.attempts < MAX_ATTEMPTS
  }

  /** The subquery of the claim: the oldest claimable rows from `from` on. */
  function Pick(jobs: seq<Job>, from: nat, limit: nat): seq<nat>
    requires from <= |jobs|
    decreases |jobs| - from
  {
    if from == |jobs| || limit == 0 then []
    else if Claimable(jobs[from]) then [from] + Pick(jobs, from + 1, limit - 1)
    else Pick(jobs, from + 1, limit)
  }

  function Claimed(jobs: seq<Job>, picked: seq<nat>): (r: seq<Job>)
    ensures |r| == |jobs|
  {
    seq(|jobs|, i requires 0 <= i < |jobs| => if i in picked then jobs[i].(status := Processing) else jobs[i])
  }

  /** `mark_attachment_deletion_failed`. */
  function Refused(j: Job): Job {
    Job(j.path, if j.attempts + 1 >= MAX_ATTEMPTS then Failed else Pending, j.attempts + 1)
  }

  /** The claim takes the oldest claimable rows, and as many as it may. */
  lemma {:induction false} PickOldest(jobs: seq<Job>, from: nat, limit: nat)
    requires from <= |jobs|
    ensures var p := Pick(jobs, from, limit);
            && |p| <= limit
            && (forall k :: 0 <= k < |p| ==> from <= p[k] < |jobs| && Claimable(jobs[p[k]]))
            && (forall k, l :: 0 <= k < l < |p| ==> p[k] < p[l])
            && (forall i :: from <= i < |jobs| && Claimable(jobs[i]) && i !in p ==>
                  |p| == limit && forall k :: 0 <= k < |p| ==> p[k] < i)
    decreases |jobs| - from
  {
    if from < |jobs| && limit > 0 {
      if Claimable(jobs[from]) {
        PickOldest(jobs, from + 1, limit - 1);
        PickFirst(jobs, from, limit);
      } else {
        PickOldest(jobs, from + 1, limit);
      }
    }
  }

  lemma PickFirst(jobs: seq<Job>, from: nat, limit: nat)
    requires from < |jobs| && limit > 0 && Claimable(jobs[from])
    ensures Pick(jobs, from, limit) == [from] + Pick(jobs, from + 1, limit - 1)
  {
  }

  // ----------------------------------------------------------------- a cycle

  /** What one undisturbed cycle of the worker makes of the rows it claimed: those whose file could be
      deleted are completed, the others refused. */
  function Outcome(jobs: seq<Job>, picked: seq<nat>, done: nat, broken: set<Path>): (r: seq<Job>)
    requires done <= |picked|
    ensures |r| == |jobs|
  {
    seq(|jobs|, i requires 0 <= i < |jobs| =>
      if i in picked[..done] then (if jobs[i].path in broken then Refused(jobs[i]) else jobs[i].(status := Completed))
      else if i in picked then jobs[i].(status := Processing)
      else jobs[i])
  }

  function Deletable(jobs: seq<Job>, picked: seq<nat>, broken: set<Path>): set<Path>
    requires forall k :: 0 <= k < |picked| ==> picked[k] < |jobs|
  {
    set k | 0 <= k < |picked| && jobs[picked[k]].path !in broken :: jobs[picked[k]].path
  }

  lemma DeletableMeans(jobs: seq<Job>, picked: seq<nat>, broken: set<Path>, p: Path)
    requires forall k :: 0 <= k < |picked| ==> picked[k] < |jobs|
    ensures p in Deletable(jobs, picked, broken) <==> p !in broken && exists i :: i in picked && jobs[i].path == p
  {
    if i :| i in picked && jobs[i].path == p && p !in broken {
      var k :| 0 <= k < |picked| && picked[k] == i;
    }
  }

  /** How many of the picked rows had a file that could be deleted. */
  function Successes(jobs: seq<Job>, picked: seq<nat>, broken: set<Path>): (n: nat)
    requires forall k :: 0 <= k < |picked| ==> picked[k] < |jobs|
    ensures n <= |picked|
  {
    if picked == [] then 0
    else Successes(jobs, picked[..|picked| - 1], broken)
         + if jobs[picked[|picked| - 1]].path in broken then 0 else 1
  }

  /** After the cycle a row claimed is completed if its file could be deleted, and otherwise has one attempt more,
      and is given up at the fifth; other rows are as they were. */
  lemma OutcomeMeans(jobs: seq<Job>, picked: seq<nat>, broken: set<Path>, i: nat)
    requires i < |jobs|
    ensures var after := Outcome(jobs, picked, |picked|, broken)[i];
            && (i !in picked ==> after == jobs[i])
            && (i in picked && jobs[i].path !in broken ==> after == Job(jobs[i].path, Completed, jobs[i].attempts))
            && (i in picked && jobs[i].path in broken ==>
                  after == Job(jobs[i].path, if jobs[i].attempts >= 4 then Failed else Pending, jobs[i].attempts + 1))
  {
    assert picked[..|picked|] == picked;
  }

  /** Rows are claimable while they are waiting, and after a failure, up to five attempts. */
  lemma ClaimableMeans(j: Job)
    ensures Claimable(j) <==> (j.status == Pending || j.status == Failed) && j.attempts < 5
  {
  }

  /** The number counted is that of the picked rows whose file can be deleted. */
  lemma SuccessesCount(jobs: seq<Job>, picked: seq<nat>, broken: set<Path>)
    requires forall k :: 0 <= k < |picked| ==> picked[k] < |jobs|
    ensures Successes(jobs, picked, broken) == |set k | 0 <= k < |picked| && jobs[picked[k]].path !in broken|
  {
    SuccessesUpTo(jobs, picked, broken, |picked|);
    assert picked[..|picked|] == picked;
    assert Good(jobs, picked, broken, |picked|) == set k | 0 <= k < |picked| && jobs[picked[k]].path !in broken;
  }

  function Good(jobs: seq<Job>, picked: seq<nat>, broken: set<Path>, n: nat): set<int>
    requires n <= |picked| && forall k :: 0 <= k < |picked| ==> picked[k] < |jobs|
  {
    set k | 0 <= k < n && jobs[picked[k]].path !in broken
  }

  lemma {:induction false} SuccessesUpTo(jobs: seq<Job>, picked: seq<nat>, broken: set<Path>, n: nat)
    requires n <= |picked| && forall k :: 0 <= k < |picked| ==> picked[k] < |jobs|
    ensures Successes(jobs, picked[..n], broken) == |Good(jobs, picked, broken, n)|
  {
    if n > 0 {
      assert picked[..n][..n - 1] == picked[..n - 1] && picked[..n][n - 1] == picked[n - 1];
      var more, less := Good(jobs, picked, broken, n), Good(jobs, picked, broken, n - 1);
      assert more == if jobs[picked[n - 1]].path in broken then less else less + {n - 1};
      SuccessesUpTo(jobs, picked, broken, n - 1);
      hide Good;
    }
  }

  lemma OutcomeNext(jobs: seq<Job>, picked: seq<nat>, done: nat, broken: set<Path>)
    requires done < |picked| && picked[done] < |jobs|
    requires forall k, l :: 0 <= k < l < |picked| ==> picked[k] < picked[l]
    ensures var i := picked[done];
            && Outcome(jobs, picked, done, broken)[i] == jobs[i].(status := Processing)
            && Refused(jobs[i].(status := Processing)) == Refused(jobs[i])
            && Outcome(jobs, picked, done + 1, broken)
               == Outcome(jobs, picked, done, broken)[i := if jobs[i].path in broken then Refused(jobs[i])
                                                           else jobs[i].(status := Completed)]
  {
    var i := picked[done];
    assert picked[..done + 1] == picked[..done] + [i];
    assert forall k :: 0 <= k < done ==> picked[k] != i;
  }

  class DeletionWorker {
    var files: set<Path>
    var jobs: seq<Job>

    /** `process_pending_attachment_deletions`; deleting the paths in `broken` raises. */
    method ProcessPending(batch: nat, broken: set<Path>) returns (processed: nat)
      modifies this
      ensures var picked := Pick(old(jobs), 0, batch);
              && |picked| <= batch && (forall k :: 0 <= k < |picked| ==> picked[k] < old(|jobs|))
              && jobs == Outcome(old(jobs), picked, |picked|, broken)
              && files == old(files) - Deletable(old(jobs), picked, broken)
              && processed == Successes(old(jobs), picked, broken)
    {
      hide Pick, Outcome, Deletable, Successes, Claimable, Halfway, Refused, Claimed;
      ghost var all, disk := jobs, files;
      var claimed := Pick(jobs, 0, batch);
      PickOldest(jobs, 0, batch);
      CycleStart(jobs, claimed, broken, files);
      jobs := Claimed(jobs, claimed);
      processed := 0;
      var k := 0;
      while k < |claimed|
        invariant 0 <= k <= |claimed| && |jobs| == |all|
        invariant Halfway(all, disk, claimed, k, broken, jobs, files, processed)
      {
        var i := claimed[k];
        CycleNext(all, disk, claimed, k, broken, jobs, files, processed);
        if jobs[i].path !in broken {
          files := files - {jobs[i].path};
          jobs := jobs[i := jobs[i].(status := Completed)];
          processed := processed + 1;
        } else {
          jobs := jobs[i := Refused(jobs[i])];
        }
        k := k + 1;
      }
      CycleEnd(all, disk, claimed, broken, jobs, files, processed);
    }
  }

  /** Where the cycle stands once the first `k` picked rows are dealt with. */
  predicate Halfway(all: seq<Job>, disk: set<Path>, picked: seq<nat>, k: nat, broken: set<Path>,
                    jobs: seq<Job>, files: set<Path>, processed: nat)
    requires k <= |picked| && forall l :: 0 <= l < |picked| ==> picked[l] < |all|
  {
    && jobs == Outcome(all, picked, k, broken)
    && files == disk - Deletable(all, picked[..k], broken)
    && processed == Successes(all, picked[..k], broken)
  }

  lemma CycleNext(all: seq<Job>, disk: set<Path>, picked: seq<nat>, k: nat, broken: set<Path>,
                  jobs: seq<Job>, files: set<Path>, processed: nat)
    requires k < |picked| && forall l :: 0 <= l < |picked| ==> picked[l] < |all|
    requires forall l, m :: 0 <= l < m < |picked| ==> picked[l] < picked[m]
    requires Halfway(all, disk, picked, k, broken, jobs, files, processed)
    ensures var i := picked[k];
            && |jobs| == |all|
            && (jobs[i].path !in broken ==>
                  Halfway(all, disk, picked, k + 1, broken, jobs[i := jobs[i].(status := Completed)],
                          files - {jobs[i].path}, processed + 1))
            && (jobs[i].path in broken ==>
                  Halfway(all, disk, picked, k + 1, broken, jobs[i := Refused(jobs[i])], files, processed))
  {
    OutcomeNext(all, picked, k, broken);
    DeletableNext(all, picked, k, broken);
    hide Outcome, Deletable, Successes;
  }

  lemma CycleEnd(all: seq<Job>, disk: set<Path>, picked: seq<nat>, broken: set<Path>,
                 jobs: seq<Job>, files: set<Path>, processed: nat)
    requires forall l :: 0 <= l < |picked| ==> picked[l] < |all|
    requires Halfway(all, disk, picked, |picked|, broken, jobs, files, processed)
    ensures jobs == Outcome(all, picked, |picked|, broken)
    ensures files == disk - Deletable(all, picked, broken)
    ensures processed == Successes(all, picked, broken)
  {
    assert picked[..|picked|] == picked;
  }

  lemma CycleStart(jobs: seq<Job>, picked: seq<nat>, broken: set<Path>, disk: set<Path>)
    requires forall k :: 0 <= k < |picked| ==> picked[k] < |jobs|
    ensures Halfway(jobs, disk, picked, 0, broken, Claimed(jobs, picked), disk, 0)
  {
  }

  lemma DeletableNext(jobs: seq<Job>, picked: seq<nat>, k: nat, broken: set<Path>)
    requires k < |picked| && forall l :: 0 <= l < |picked| ==> picked[l] < |jobs|
    ensures var path := jobs[picked[k]].path;
            Deletable(jobs, picked[..k + 1], broken)
            == Deletable(jobs, picked[..k], broken) + (if path in broken then {} else {path})
            && Successes(jobs, picked[..k + 1], broken)
               == Successes(jobs, picked[..k], broken) + if path in broken then 0 else 1
  {
    assert picked[..k + 1][..k] == picked[..k];
    var more, less := Deletable(jobs, picked[..k + 1], broken), Deletable(jobs, picked[..k], broken);
    forall p | p in more ensures p in less || (p == jobs[picked[k]].path && p !in broken) {
      var l :| 0 <= l < |picked[..k + 1]| && jobs[picked[..k + 1][l]].path !in broken && p == jobs[picked[..k + 1][l]].path;
      assert l < k ==> picked[..k][l] == picked[l];
    }
    forall p | p in less ensures p in more {
      var l :| 0 <= l < |picked[..k]| && jobs[picked[..k][l]].path !in broken && p == jobs[picked[..k][l]].path;
      assert picked[..k + 1][l] == picked[..k][l];
    }
    assert picked[..k + 1][k] == picked[k];
  }
}

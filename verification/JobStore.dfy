/** The in-memory ingest job store (internal/knowledge/ingest/jobstore.go). */
module JobStore {
  import opened Wrappers
  import opened Decimal

  datatype JobKind = Ingest | DeleteVectors | OtherKind(name: string)

  datatype JobStatus = Pending | Running | Completed | Failed

  datatype Job = Job(
    id: string,
    docId: string,
    kind: JobKind,
    status: JobStatus,
    attempts: nat,
    maxAttempts: nat,
    lastError: string,
    createdAt: int)

  /** Attempts a job gets: three unless told otherwise. */
  function Limit(maxAttempts: int): nat { if maxAttempts <= 0 then 3 else maxAttempts }

  function JobId(n: nat): string { "job-" + Show(n) }

  lemma JobIdInjective(m: nat, n: nat)
    requires JobId(m) == JobId(n)
    ensures m == n
  {
    assert JobId(m)[4..] == Show(m) && JobId(n)[4..] == Show(n);
    ShowInjective(m, n);
  }

  predicate Active(j: Job) { j.status == Pending || j.status == Running }

  predicate Claimable(j: Job) { j.status == Pending && j.attempts < j.maxAttempts }

  predicate SameWork(a: Job, b: Job) { a.docId == b.docId && a.kind == b.kind }

  /** A job's counters fit its status; failed means the attempts are used up. */
  predicate JobOk(j: Job) {
    && j.attempts <= j.maxAttempts
    && match j.status
       case Pending => j.attempts < j.maxAttempts
       case Running => j.attempts >= 1
       case Completed => j.attempts >= 1
       case Failed => j.attempts == j.maxAttempts
  }

  predicate Numbered(id: string, seqNo: nat) {
    exists n: nat | n <= seqNo :: n >= 1 && id == JobId(n)
  }

  predicate OneActive(jobs: map<string, Job>) {
    forall a, b | a in jobs && b in jobs && Active(jobs[a]) && Active(jobs[b]) && SameWork(jobs[a], jobs[b]) :: a == b
  }

  /** Ids are issued numbers, every job is in order, and no (document, kind) has two
      jobs pending or running. */
  predicate JobsOk(jobs: map<string, Job>, seqNo: nat) {
    && (forall id | id in jobs :: jobs[id].id == id && Numbered(id, seqNo) && JobOk(jobs[id]))
    && OneActive(jobs)
  }

  lemma NextIdFresh(jobs: map<string, Job>, seqNo: nat)
    requires JobsOk(jobs, seqNo)
    ensures JobId(seqNo + 1) !in jobs
    ensures Numbered(JobId(seqNo + 1), seqNo + 1)
    ensures forall id | Numbered(id, seqNo) :: Numbered(id, seqNo + 1)
  {
    if JobId(seqNo + 1) in jobs {
      var n :| 1 <= n <= seqNo && JobId(seqNo + 1) == JobId(n);
      JobIdInjective(seqNo + 1, n);
    }
  }

  /** Changing the status of one job keeps the store in order, if the new status fits
      and an inactive job does not become active. */
  lemma UpdateKeeps(jobs: map<string, Job>, seqNo: nat, id: string, j: Job)
    requires JobsOk(jobs, seqNo) && id in jobs && j.id == id && JobOk(j) && SameWork(j, jobs[id])
    requires Active(j) ==> Active(jobs[id])
    ensures JobsOk(jobs[id := j], seqNo)
  {
  }

  // ---- How many attempts are left ----------------------------------------------------

  function LeftOf(j: Job): nat {
    if Claimable(j) then j.maxAttempts - j.attempts else 0
  }

  /** Attempts the pending jobs may still make, all together. */
  ghost function AttemptsLeft(jobs: map<string, Job>): nat {
    LeftIn(jobs, jobs.Keys)
  }

  ghost function LeftIn(jobs: map<string, Job>, ids: set<string>): nat
    requires ids <= jobs.Keys
  {
    if ids == {} then 0 else
      var id :| id in ids;
      LeftOf(jobs[id]) + LeftIn(jobs, ids - {id})
  }

  lemma {:induction false} LeftInPick(jobs: map<string, Job>, ids: set<string>, id: string)
    requires ids <= jobs.Keys && id in ids
    ensures LeftIn(jobs, ids) == LeftOf(jobs[id]) + LeftIn(jobs, ids - {id})
    decreases |ids|
  {
    var x :| x in ids && LeftIn(jobs, ids) == LeftOf(jobs[x]) + LeftIn(jobs, ids - {x});
    if x != id {
      LeftInPick(jobs, ids - {x}, id);
      LeftInPick(jobs, ids - {id}, x);
      assert ids - {x} - {id} == ids - {id} - {x};
    }
  }

  lemma {:induction false} LeftInSame(jobs: map<string, Job>, jobs': map<string, Job>, ids: set<string>)
    requires ids <= jobs.Keys && ids <= jobs'.Keys && forall id | id in ids :: jobs[id] == jobs'[id]
    ensures LeftIn(jobs, ids) == LeftIn(jobs', ids)
    decreases |ids|
  {
    if ids != {} {
      var id :| id in ids;
      LeftInPick(jobs, ids, id);
      LeftInPick(jobs', ids, id);
      LeftInSame(jobs, jobs', ids - {id});
    }
  }

  /** Changing one job changes the total by that job's share. */
  lemma LeftAfterUpdate(jobs: map<string, Job>, id: string, j: Job)
    requires id in jobs
    ensures AttemptsLeft(jobs[id := j]) + LeftOf(jobs[id]) == AttemptsLeft(jobs) + LeftOf(j)
  {
    var jobs' := jobs[id := j];
    assert jobs'.Keys == jobs.Keys;
    LeftInPick(jobs, jobs.Keys, id);
    LeftInPick(jobs', jobs.Keys, id);
    LeftInSame(jobs, jobs', jobs.Keys - {id});
  }

  // ---- The store ---------------------------------------------------------------------

  class InMemoryJobStore {
    var jobs: map<string, Job>
    var seqNo: nat

    ghost predicate Valid()
      reads this
    {
      JobsOk(jobs, seqNo)
    }

    constructor ()
      ensures Valid() && jobs == map[] && seqNo == 0
    {
      jobs, seqNo := map[], 0;
    }

    /** An active job for the same work, if there is one. */
    method FindActive(docId: string, kind: JobKind) returns (r: Option<Job>)
      ensures r.Some? ==> exists id ::
        id in jobs && jobs[id] == r.value && r.value.docId == docId && r.value.kind == kind && Active(r.value)
      ensures r.None? ==> forall id | id in jobs ::
        !(jobs[id].docId == docId && jobs[id].kind == kind && Active(jobs[id]))
    {
      var todo := jobs.Keys;
      while todo != {}
        invariant todo <= jobs.Keys
        invariant forall id | id in jobs && id !in todo ::
          !(jobs[id].docId == docId && jobs[id].kind == kind && Active(jobs[id]))
        decreases todo
      {
        var id :| id in todo;
        if jobs[id].docId == docId && jobs[id].kind == kind && Active(jobs[id]) {
          return Some(jobs[id]);
        }
        todo := todo - {id};
      }
      return None;
    }

    /** Adds a pending job, unless the same work is already pending or running:
        then that job is returned and nothing changes. */
    method Enqueue(docId: string, kind: JobKind, maxAttempts: int, now: int) returns (job: Job)
      requires Valid()
      modifies this
      ensures Valid()
      ensures job.docId == docId && job.kind == kind && Active(job) && job.id in jobs && jobs[job.id] == job
      ensures (exists id ::
        id in old(jobs) && old(jobs)[id].docId == docId && old(jobs)[id].kind == kind && Active(old(jobs)[id]))
                ==> jobs == old(jobs) && seqNo == old(seqNo)
      ensures (forall id | id in old(jobs) ::
        !(old(jobs)[id].docId == docId && old(jobs)[id].kind == kind && Active(old(jobs)[id])))
                ==> && job == Job(JobId(old(seqNo) + 1), docId, kind, Pending, 0, Limit(maxAttempts), "", now)
                    && job.id !in old(jobs) && jobs == old(jobs)[job.id := job] && seqNo == old(seqNo) + 1
    {
      var limit := Limit(maxAttempts);
      var existing := FindActive(docId, kind);
      if existing.Some? {
        return existing.value;
      }
      NextIdFresh(jobs, seqNo);
      seqNo := seqNo + 1;
      job := Job(JobId(seqNo), docId, kind, Pending, 0, limit, "", now);
      jobs := jobs[job.id := job];
    }

    /** The claimable job with the earliest creation time. */
    method OldestClaimable() returns (best: Option<Job>)
      requires Valid()
      ensures best.None? <==> forall id | id in jobs :: !Claimable(jobs[id])
      ensures best.Some? ==> best.value.id in jobs && jobs[best.value.id] == best.value && Claimable(best.value)
      ensures best.Some? ==> forall id | id in jobs && Claimable(jobs[id]) :: best.value.createdAt <= jobs[id].createdAt
    {
      best := None;
      var todo := jobs.Keys;
      while todo != {}
        invariant todo <= jobs.Keys
        invariant best.None? ==> forall id | id in jobs && id !in todo :: !Claimable(jobs[id])
        invariant best.Some? ==> best.value.id in jobs && jobs[best.value.id] == best.value && Claimable(best.value)
        invariant best.Some? ==> forall id | id in jobs && id !in todo && Claimable(jobs[id]) ::
          best.value.createdAt <= jobs[id].createdAt
        decreases todo
      {
        var id :| id in todo;
        if Claimable(jobs[id]) && (best.None? || jobs[id].createdAt < best.value.createdAt) {
          best := Some(jobs[id]);
        }
        todo := todo - {id};
      }
    }

    /** Starts the oldest claimable job: it is marked running and its attempt counted. */
    method Claim() returns (r: Option<Job>)
      requires Valid()
      modifies this`jobs
      ensures Valid()
      ensures r.None? <==> forall id | id in old(jobs) :: !Claimable(old(jobs)[id])
      ensures r.None? ==> jobs == old(jobs)
      ensures r.Some? ==>
        && r.value.id in old(jobs) && Claimable(old(jobs)[r.value.id])
        && r.value == old(jobs)[r.value.id].(status := Running, attempts := old(jobs)[r.value.id].attempts + 1)
        && jobs == old(jobs)[r.value.id := r.value]
        && (forall id | id in old(jobs) && Claimable(old(jobs)[id]) :: r.value.createdAt <= old(jobs)[id].createdAt)
    {
      var best := OldestClaimable();
      if best.None? {
        return None;
      }
      var job := best.value.(status := Running, attempts := best.value.attempts + 1);
      UpdateKeeps(jobs, seqNo, job.id, job);
      jobs := jobs[job.id := job];
      return Some(job);
    }

    method MarkCompleted(jobId: string) returns (found: bool)
      modifies this`jobs
      ensures found == (jobId in old(jobs))
      ensures !found ==> jobs == old(jobs)
      ensures found ==> jobs == old(jobs)[jobId := old(jobs)[jobId].(status := Completed)]
      ensures old(Valid()) && found && old(jobs)[jobId].status == Running ==> Valid()
    {
      if jobId !in jobs {
        return false;
      }
      jobs := jobs[jobId := jobs[jobId].(status := Completed)];
      return true;
    }

    /** A failed attempt: back to pending while attempts are left, else failed. */
    method MarkFailed(jobId: string, error: string) returns (found: bool, retry: bool)
      modifies this`jobs
      ensures found == (jobId in old(jobs))
      ensures !found ==> !retry && jobs == old(jobs)
      ensures found ==>
        && retry == (old(jobs)[jobId].attempts < old(jobs)[jobId].maxAttempts)
        && jobs == old(jobs)[jobId := old(jobs)[jobId].(status := if retry then
          Pending else Failed, lastError := error)]
      ensures old(Valid()) && found && old(jobs)[jobId].status == Running ==> Valid()
    {
      if jobId !in jobs {
        return false, false;
      }
      var cur := jobs[jobId].(lastError := error);
      if cur.attempts >= cur.maxAttempts {
        jobs := jobs[jobId := cur.(status := Failed)];
        return true, false;
      }
      jobs := jobs[jobId := cur.(status := Pending)];
      return true, true;
    }

    method HasPending() returns (r: bool)
      ensures r <==> exists id :: id in jobs && Claimable(jobs[id])
    {
      var todo := jobs.Keys;
      while todo != {}
        invariant todo <= jobs.Keys
        invariant forall id | id in jobs && id !in todo :: !Claimable(jobs[id])
        decreases todo
      {
        var id :| id in todo;
        if Claimable(jobs[id]) {
          return true;
        }
        todo := todo - {id};
      }
      return false;
    }

    /** Every running job back to pending, whatever its attempts. The store stays in
        order exactly if no running job had used up its attempts: such a job would
        sit pending for ever, neither claimable nor failed. */
    method RecoverStale()
      requires Valid()
      modifies this`jobs
      ensures jobs == Recovered(old(jobs))
      ensures Valid() <==> forall id | id in old(jobs) && old(jobs)[id].status == Running ::
                old(jobs)[id].attempts < old(jobs)[id].maxAttempts
    {
      var todo := jobs.Keys;
      var before := jobs;
      while todo != {}
        invariant todo <= before.Keys && jobs.Keys == before.Keys
        invariant forall id | id in before :: jobs[id] == if id in todo then before[id] else Recovered(before)[id]
        decreases todo
      {
        var id :| id in todo;
        if jobs[id].status == Running {
          jobs := jobs[id := jobs[id].(status := Pending)];
        }
        todo := todo - {id};
      }
      assert jobs == Recovered(before);
      RecoveredOk(before, seqNo);
    }
  }

  function Recovered(jobs: map<string, Job>): map<string, Job> {
    map id | id in jobs :: if jobs[id].status == Running then jobs[id].(status := Pending) else jobs[id]
  }

  lemma RecoveredOk(jobs: map<string, Job>, seqNo: nat)
    requires JobsOk(jobs, seqNo)
    ensures JobsOk(Recovered(jobs), seqNo) <==>
            forall id | id in jobs && jobs[id].status == Running :: jobs[id].attempts < jobs[id].maxAttempts
  {
    var after := Recovered(jobs);
    if JobsOk(after, seqNo) {
      forall id | id in jobs && jobs[id].status == Running ensures jobs[id].attempts < jobs[id].maxAttempts {
        assert JobOk(after[id]);
      }
    }
  }

  /** The failing case: a job claimed for its last attempt is in order while it runs,
      but recovered it sits pending for ever, neither claimable nor failed, and the
      table is no longer in order. */
  lemma LastAttemptSticks(jobs: map<string, Job>, seqNo: nat, id: string)
    requires JobsOk(jobs, seqNo) && id in jobs && Claimable(jobs[id]) && jobs[id].attempts + 1 == jobs[id].maxAttempts
    ensures var claimed := jobs[id := jobs[id].(status := Running, attempts := jobs[id].attempts + 1)];
            && JobsOk(claimed, seqNo)
            && Recovered(claimed)[id].status == Pending && !Claimable(Recovered(claimed)[id])
            && !JobsOk(Recovered(claimed), seqNo)
  {
    var job := jobs[id].(status := Running, attempts := jobs[id].attempts + 1);
    UpdateKeeps(jobs, seqNo, id, job);
    RecoveredOk(jobs[id := job], seqNo);
  }

  /** Such a table exists: one job that may be tried once. */
  lemma LastAttemptExists(docId: string, now: int)
    ensures var job := Job(JobId(1), docId, JobKind.Ingest, Pending, 0, 1, "", now);
            JobsOk(map[job.id := job], 1) && Claimable(job) && job.attempts + 1 == job.maxAttempts
  {
    assert Numbered(JobId(1), 1);
  }
}

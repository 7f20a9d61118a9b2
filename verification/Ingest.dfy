/** Saving, indexing and deleting documents through the job store
    (internal/knowledge/ingest/worker.go and pipeline.go).

    What the summariser, the embedder, the blob and the vector store do is an outcome
    handed in per job, with the time at which the catalog is written. */
module Ingest {
  import opened Wrappers
  import opened JobStore
  import Catalog

  type Document = Catalog.Document

  /** What the outside world does with one attempt. */
  datatype External = Succeeds(sourceHash: string, at: int) | Fails(error: string, at: int)

  predicate IngestJob(jobs: map<string, Job>, id: string, docId: string) {
    id in jobs && jobs[id].kind == JobKind.Ingest && jobs[id].docId == docId
  }

  /** A document's status is the one its ingest job's status stands for. */
  predicate Agrees(docStatus: string, jobStatus: JobStatus) {
    match jobStatus
    case Pending => docStatus == "processing"
    case Running => docStatus == "processing"
    case Completed => docStatus == "ready"
    case Failed => docStatus == "failed"
  }

  predicate HasJob(docs: map<string, Document>, jobs: map<string, Job>, d: string)
    requires d in docs
  {
    exists id | id in jobs :: IngestJob(jobs, id, d) && Agrees(docs[d].status, jobs[id].status)
  }

  predicate OneJob(docs: map<string, Document>, jobs: map<string, Job>) {
    forall a, b | a in jobs && b in jobs && jobs[a].kind == jobs[b].kind == JobKind.Ingest
      && jobs[a].docId == jobs[b].docId && jobs[a].docId in docs ::
      a == b
  }

  /** Each document in the catalog has exactly one ingest job, and their statuses agree. */
  predicate Linked(docs: map<string, Document>, jobs: map<string, Job>) {
    && (forall d | d in docs :: docs[d].docId == d && HasJob(docs, jobs, d))
    && OneJob(docs, jobs)
  }

  // ---- One attempt, as a function ----------------------------------------------------

  /** ProcessIngest: the new catalog, and the error if the attempt failed. */
  function Ingested(docs: map<string, Document>, docId: string, ext: External): (map<string, Document>,
      Option<string>) {
    if docId !in docs then (docs, Some("document not found"))
    else if docs[docId].status == "ready" || docs[docId].status == "deleting" then (docs, None)
    else match ext
      case Fails(e, _) => (docs, Some(e))
      case Succeeds(hash, at) => (docs[docId := docs[docId].(status := "ready", sourceHash := hash,
        updatedAt := at)], None)
  }

  function TerminalFailure(docs: map<string, Document>, job: Job, cause: string, at: int): map<string, Document> {
    if job.kind != JobKind.Ingest || job.docId !in docs then docs else
      var doc := docs[job.docId];
      var hash := if doc.sourceHash == "" then cause else doc.sourceHash;
      docs[job.docId := doc.(status := "failed", sourceHash := hash, updatedAt := at)]
  }

  function Attempted(docs: map<string, Document>, job: Job, ext: External): (map<string, Document>, Option<string>) {
    match job.kind
    case Ingest => Ingested(docs, job.docId, ext)
    case DeleteVectors => (docs, if ext.Fails? then Some(ext.error) else None)
    case OtherKind(name) => (docs, Some("unknown ingest job kind: " + name))
  }

  /** What follows an attempt: the job is done, is to be tried again, or has failed. */
  function Concluded(docs: map<string, Document>, job: Job, error: Option<string>, at: int): (map<string, Document>,
      Job) {
    if error == None then (docs, job.(status := Completed))
    else if job.attempts >= job.maxAttempts then
      (TerminalFailure(docs, job, error.value, at), job.(status := Failed, lastError := error.value))
    else (docs, job.(status := Pending, lastError := error.value))
  }

  /** handleJob: the catalog and the job after one attempt at a running job. */
  function Handled(docs: map<string, Document>, job: Job, ext: External): (map<string, Document>, Job) {
    var (docs1, error) := Attempted(docs, job, ext);
    Concluded(docs1, job, error, ext.at)
  }

  /** Changing one job, and with it at most its own document, keeps the catalog and
      the store linked if the two new statuses agree. */
  lemma LinkAfter(docs: map<string, Document>, jobs: map<string, Job>, id: string, j: Job, docs': map<string, Document>)
    requires Linked(docs, jobs) && id in jobs && SameWork(j, jobs[id])
    requires docs'.Keys == docs.Keys && forall d | d in docs && d != j.docId :: docs'[d] == docs[d]
    requires j.docId in docs ==> docs'[j.docId].docId == j.docId
    requires j.docId in docs && j.kind == JobKind.Ingest ==> Agrees(docs'[j.docId].status, j.status)
    requires j.kind != JobKind.Ingest ==> docs' == docs
    ensures Linked(docs', jobs[id := j])
  {
    forall d | d in docs' ensures docs'[d].docId == d && HasJob(docs', jobs[id := j], d) {
      assert docs[d].docId == d && HasJob(docs, jobs, d);
      if j.docId == d && j.kind == JobKind.Ingest {
        assert IngestJob(jobs[id := j], id, d);
      } else {
        OtherJobStays(docs, jobs, id, j, docs', d);
      }
    }
  }

  lemma OtherJobStays(docs: map<string, Document>, jobs: map<string, Job>, id: string, j: Job,
      docs': map<string, Document>, d: string)
    requires d in docs && HasJob(docs, jobs, d) && id in jobs && SameWork(j, jobs[id])
    requires j.docId != d || j.kind != JobKind.Ingest
    requires d in docs' && docs'[d] == docs[d]
    ensures HasJob(docs', jobs[id := j], d)
  {
    var k :| k in jobs && IngestJob(jobs, k, d) && Agrees(docs[d].status, jobs[k].status);
    assert IngestJob(jobs[id := j], k, d);
  }

  lemma ClaimLinked(docs: map<string, Document>, jobs: map<string, Job>, claimed: Job)
    requires Linked(docs, jobs) && claimed.id in jobs && jobs[claimed.id].status == Pending
    requires claimed.status == Running && SameWork(claimed, jobs[claimed.id])
    ensures Linked(docs, jobs[claimed.id := claimed])
  {
    if claimed.kind == JobKind.Ingest && claimed.docId in docs { OwnStatus(docs, jobs, claimed.id); }
    LinkAfter(docs, jobs, claimed.id, claimed, docs);
  }

  /** Both sides of an attempt change together. */
  lemma HandledAgrees(docs: map<string, Document>, job: Job, ext: External)
    requires job.kind == JobKind.Ingest && job.docId in docs && docs[job.docId].status == "processing"
    ensures var (docs', job') := Handled(docs, job, ext);
            job.docId in docs' && Agrees(docs'[job.docId].status, job'.status)
  {
  }

  lemma HandledElsewhere(docs: map<string, Document>, job: Job, ext: External)
    ensures var (docs', job') := Handled(docs, job, ext);
            && docs'.Keys == docs.Keys && SameWork(job', job)
            && (forall d | d in docs && d != job.docId :: docs'[d] == docs[d])
            && (forall d | d in docs :: docs'[d].docId == docs[d].docId)
            && (job.kind != JobKind.Ingest ==> docs' == docs)
  {
  }

  lemma HandledLinked(docs: map<string, Document>, jobs: map<string, Job>, job: Job, ext: External)
    requires Linked(docs, jobs) && job.id in jobs && jobs[job.id] == job && job.status == Running
    ensures var (docs', job') := Handled(docs, job, ext); Linked(docs', jobs[job.id := job'])
  {
    var (docs', job') := Handled(docs, job, ext);
    HandledElsewhere(docs, job, ext);
    if job.kind == JobKind.Ingest && job.docId in docs {
      OwnStatus(docs, jobs, job.id);
      HandledAgrees(docs, job, ext);
    }
    LinkAfter(docs, jobs, job.id, job', docs');
  }

  /** Enqueueing work for a document that is not in the catalog, or that is not an
      ingest, leaves the links alone. */
  lemma LinkAfterNew(docs: map<string, Document>, jobs: map<string, Job>, j: Job)
    requires Linked(docs, jobs) && j.id !in jobs && (j.kind == JobKind.Ingest ==> j.docId !in docs)
    ensures Linked(docs, jobs[j.id := j])
  {
    var jobs' := jobs[j.id := j];
    forall d | d in docs ensures HasJob(docs, jobs', d) {
      assert HasJob(docs, jobs, d);
      var k :| k in jobs && IngestJob(jobs, k, d) && Agrees(docs[d].status, jobs[k].status);
      assert IngestJob(jobs', k, d);
    }
  }

  lemma LinkAfterSave(docs: map<string, Document>, jobs: map<string, Job>, j: Job, doc: Document)
    requires Linked(docs, jobs) && j.id !in jobs && j.kind == JobKind.Ingest && j.status == Pending
    requires doc.docId == j.docId && doc.docId !in docs && doc.status == "processing"
    requires forall id | id in jobs :: jobs[id].docId != j.docId
    ensures Linked(docs[doc.docId := doc], jobs[j.id := j])
  {
    var docs', jobs' := docs[doc.docId := doc], jobs[j.id := j];
    assert IngestJob(jobs', j.id, doc.docId);
    forall d | d in docs' ensures HasJob(docs', jobs', d) {
      if d != doc.docId {
        assert HasJob(docs, jobs, d);
        var k :| k in jobs && IngestJob(jobs, k, d) && Agrees(docs[d].status, jobs[k].status);
        assert IngestJob(jobs', k, d);
      }
    }
  }

  /** One attempt uses up at least one of the attempts that were left. */
  lemma HandledProgress(jobs: map<string, Job>, claimed: Job, docs: map<string, Document>, ext: External)
    requires claimed.id in jobs && Claimable(jobs[claimed.id])
    requires claimed == jobs[claimed.id].(status := Running, attempts := jobs[claimed.id].attempts + 1)
    ensures var (_, job') := Handled(docs, claimed, ext);
            AttemptsLeft(jobs[claimed.id := claimed][claimed.id := job']) < AttemptsLeft(jobs)
  {
    var (_, job') := Handled(docs, claimed, ext);
    assert jobs[claimed.id := claimed][claimed.id := job'] == jobs[claimed.id := job'];
    LeftAfterUpdate(jobs, claimed.id, job');
  }

  lemma HandledKeeps(jobs: map<string, Job>, seqNo: nat, job: Job, docs: map<string, Document>, ext: External)
    requires JobsOk(jobs, seqNo) && job.id in jobs && jobs[job.id] == job && job.status == Running
    ensures var (_, job') := Handled(docs, job, ext);
            JobsOk(jobs[job.id := job'], seqNo) && job'.status != Running && SameWork(job', job) && job'.id == job.id
  {
    var (_, job') := Handled(docs, job, ext);
    UpdateKeeps(jobs, seqNo, job.id, job');
  }

  lemma HandledDocuments(docs: map<string, Document>, job: Job, ext: External)
    ensures Handled(docs, job, ext).0.Keys == docs.Keys
    ensures Catalog.WellKept(docs) ==> Catalog.WellKept(Handled(docs, job, ext).0)
  {
  }

  /** Claiming a job and attempting it leaves every other job as it was. */
  lemma AttemptKeepsOthers(before: map<string, Job>, claimed: Job, job': Job)
    requires claimed.id in before && before[claimed.id].status == Pending && job'.status != Running
    ensures StartedElsewhereKept(before, before[claimed.id := claimed][claimed.id := job'])
  {
  }

  class Worker {
    const store: InMemoryJobStore
    const catalog: Catalog.Store
    const maxAttempts: int

    ghost predicate Valid()
      reads this, store, catalog
    {
      store.Valid() && Catalog.WellKept(catalog.docs) && Linked(catalog.docs, store.jobs)
    }

    constructor (store: InMemoryJobStore, catalog: Catalog.Store, maxAttempts: int)
      requires store.Valid() && store.jobs == map[] && catalog.docs == map[]
      ensures Valid() && this.store == store && this.catalog == catalog && this.maxAttempts == maxAttempts
    {
      this.store, this.catalog, this.maxAttempts := store, catalog, maxAttempts;
    }

    /** Save, given what prepareDocument returned: an error, or a document with a fresh
        random id and status processing. The document enters the catalog with one
        pending ingest job; an error changes nothing. */
    method Save(prepared: Result<Document, string>, now: int) returns (r: Result<Document, string>)
      requires Valid()
      requires prepared.Ok? ==>
        && prepared.value.status == "processing" && prepared.value.docId !in catalog.docs
        && forall id | id in store.jobs :: store.jobs[id].docId != prepared.value.docId
      modifies catalog, store
      ensures Valid()
      ensures prepared.Err? ==> r == prepared && catalog.docs == old(catalog.docs) && store.jobs == old(store.jobs)
      ensures prepared.Ok? ==>
        && r == prepared
        && catalog.docs == old(catalog.docs)[prepared.value.docId := Catalog.Stored(prepared.value)]
        && exists id ::
          && id !in old(store.jobs)
          && store.jobs.Keys == old(store.jobs).Keys + {id}
          && IngestJob(store.jobs, id, prepared.value.docId)
    {
      if prepared.Err? {
        return prepared;
      }
      var doc := prepared.value;
      ghost var before := catalog.docs;
      catalog.Save(doc);
      var job := store.Enqueue(doc.docId, JobKind.Ingest, 3, now);
      LinkAfterSave(before, old(store.jobs), job, Catalog.Stored(doc));
      assert store.jobs.Keys == old(store.jobs).Keys + {job.id};
      return prepared;
    }

    method EnqueueDelete(docId: string, now: int)
      requires Valid()
      modifies store
      ensures Valid()
      ensures exists id ::
        && id in store.jobs
        && store.jobs[id].docId == docId
        && store.jobs[id].kind == DeleteVectors
        && Active(store.jobs[id])
      ensures forall id | id in old(store.jobs) :: id in store.jobs && store.jobs[id] == old(store.jobs)[id]
    {
      var existing := store.FindActive(docId, DeleteVectors);
      var job := store.Enqueue(docId, DeleteVectors, Limit(maxAttempts), now);
      if existing.None? {
        LinkAfterNew(catalog.docs, old(store.jobs), job);
      }
    }

    /** Delete: marked deleting, removed from the catalog, vectors to be deleted by a job. */
    method Delete(docId: string, now: int) returns (found: bool)
      requires Valid()
      modifies catalog, store
      ensures Valid()
      ensures found == (docId in old(catalog.docs)) && catalog.docs == old(catalog.docs) - {docId}
      ensures !found ==> store.jobs == old(store.jobs)
      ensures found ==> exists id ::
        && id in store.jobs
        && store.jobs[id].docId == docId
        && store.jobs[id].kind == DeleteVectors
        && Active(store.jobs[id])
    {
      if docId !in catalog.docs {
        return false;
      }
      catalog.Save(catalog.docs[docId].(status := "deleting"));
      catalog.Delete(docId);
      assert catalog.docs == old(catalog.docs) - {docId};
      LinkWithout(old(catalog.docs), store.jobs, docId);
      EnqueueDelete(docId, now);
      return true;
    }

    /** The work of one attempt, by kind of job. */
    method Attempt(job: Job, ext: External) returns (error: Option<string>)
      requires Catalog.WellKept(catalog.docs)
      modifies catalog
      ensures (catalog.docs, error) == Attempted(old(catalog.docs), job, ext)
      ensures Catalog.WellKept(catalog.docs)
    {
      match job.kind {
        case Ingest => error := ProcessIngest(job.docId, ext);
        case DeleteVectors => error := if ext.Fails? then Some(ext.error) else None;
        case OtherKind(name) => error := Some("unknown ingest job kind: " + name);
      }
    }

    /** One attempt at a claimed job. */
    method HandleJob(job: Job, ext: External)
      requires Valid() && job.id in store.jobs && store.jobs[job.id] == job && job.status == Running
      modifies catalog, store
      ensures Valid() && store.seqNo == old(store.seqNo)
      ensures catalog.docs == Handled(old(catalog.docs), job, ext).0
      ensures store.jobs == old(store.jobs)[job.id := Handled(old(catalog.docs), job, ext).1]
    {
      HandledLinked(catalog.docs, store.jobs, job, ext);
      HandledKeeps(store.jobs, store.seqNo, job, catalog.docs, ext);
      HandledDocuments(catalog.docs, job, ext);
      var error := Attempt(job, ext);
      Conclude(job, error, ext.at);
    }

    method Conclude(job: Job, error: Option<string>, at: int)
      requires Catalog.WellKept(catalog.docs) && job.id in store.jobs && store.jobs[job.id] == job
      modifies catalog, store
      ensures store.seqNo == old(store.seqNo)
      ensures catalog.docs == Concluded(old(catalog.docs), job, error, at).0
      ensures store.jobs == old(store.jobs)[job.id := Concluded(old(catalog.docs), job, error, at).1]
    {
      if error == None {
        var found := store.MarkCompleted(job.id);
        return;
      }
      var found, retry := store.MarkFailed(job.id, error.value);
      if !retry {
        OnJobTerminalFailure(job, error.value, at);
      }
    }

    method ProcessIngest(docId: string, ext: External) returns (error: Option<string>)
      requires Catalog.WellKept(catalog.docs)
      modifies catalog
      ensures (catalog.docs, error) == Ingested(old(catalog.docs), docId, ext)
    {
      if docId !in catalog.docs {
        return Some("document not found");
      }
      var doc := catalog.docs[docId];
      if doc.status == "ready" {
        return None;
      }
      if doc.status == "deleting" {
        return None;
      }
      if ext.Fails? {
        return Some(ext.error);
      }
      catalog.Save(doc.(status := "ready", sourceHash := ext.sourceHash, updatedAt := ext.at));
      return None;
    }

    method OnJobTerminalFailure(job: Job, cause: string, at: int)
      requires Catalog.WellKept(catalog.docs)
      modifies catalog
      ensures catalog.docs == TerminalFailure(old(catalog.docs), job, cause, at)
    {
      if job.kind != JobKind.Ingest {
        return;
      }
      if job.docId !in catalog.docs {
        return;
      }
      var doc := catalog.docs[job.docId].(status := "failed", updatedAt := at);
      if doc.sourceHash == "" {
        doc := doc.(sourceHash := cause);
      }
      catalog.Save(doc);
    }

    /** Claims the oldest claimable job and attempts it; false if there is none. */
    method ProcessNext(ext: External) returns (worked: bool)
      requires Valid()
      modifies catalog, store
      ensures Valid() && catalog.docs.Keys == old(catalog.docs).Keys
      ensures !worked ==> store.jobs == old(store.jobs) && forall id | id in store.jobs :: !Claimable(store.jobs[id])
      ensures worked ==> AttemptsLeft(store.jobs) < old(AttemptsLeft(store.jobs))
      ensures StartedElsewhereKept(old(store.jobs), store.jobs)
    {
      ghost var before := store.jobs;
      var job := store.Claim();
      if job.None? {
        var pending := store.HasPending();
        assert !pending;
        return false;
      }
      ClaimLinked(catalog.docs, before, job.value);
      HandledDocuments(catalog.docs, job.value, ext);
      HandledProgress(before, job.value, catalog.docs, ext);
      HandledKeeps(store.jobs, store.seqNo, job.value, catalog.docs, ext);
      AttemptKeepsOthers(before, job.value, Handled(catalog.docs, job.value, ext).1);
      HandleJob(job.value, ext);
      return true;
    }

    /** Runs pending jobs until none is left, whatever each attempt brings. It takes
        at most as many attempts as were left. Afterwards every job that was not
        already running elsewhere is completed or failed, and each document in the
        catalog is ready exactly if its job completed and failed exactly if it failed. */
    method ProcessUntilIdle(outcomes: nat -> External) returns (handled: nat)
      requires Valid()
      modifies catalog, store
      ensures Valid() && store.jobs.Keys == old(store.jobs).Keys && catalog.docs.Keys == old(catalog.docs).Keys
      ensures handled <= old(AttemptsLeft(store.jobs))
      ensures forall id | id in store.jobs ::
        if old(store.jobs)[id].status == Running then store.jobs[id] == old(store.jobs)[id]
        else store.jobs[id].status == Completed || store.jobs[id].status == Failed
      ensures forall id | id in store.jobs && store.jobs[id].kind == JobKind.Ingest
        && store.jobs[id].docId in catalog.docs ::
        && (catalog.docs[store.jobs[id].docId].status == "ready" <==> store.jobs[id].status == Completed)
        && (catalog.docs[store.jobs[id].docId].status == "failed" <==> store.jobs[id].status == Failed)
    {
      handled := 0;
      var worked := true;
      while worked
        invariant Valid() && catalog.docs.Keys == old(catalog.docs).Keys
        invariant handled + AttemptsLeft(store.jobs) <= old(AttemptsLeft(store.jobs))
        invariant StartedElsewhereKept(old(store.jobs), store.jobs)
        invariant !worked ==> forall id | id in store.jobs :: !Claimable(store.jobs[id])
        decreases if worked then 1 + AttemptsLeft(store.jobs) else 0
      {
        ghost var before := store.jobs;
        worked := ProcessNext(outcomes(handled));
        KeptTransitive(old(store.jobs), before, store.jobs);
        if worked {
          handled := handled + 1;
        }
      }
      IdleMeansDone(old(store.jobs), store.jobs);
      OwnStatuses(catalog.docs, store.jobs);
    }
  }

  /** Same jobs; those running before are untouched and no other is left running. */
  predicate StartedElsewhereKept(before: map<string, Job>, after: map<string, Job>) {
    && after.Keys == before.Keys
    && forall id | id in before ::
         if before[id].status == Running then after[id] == before[id] else after[id].status != Running
  }

  lemma KeptTransitive(a: map<string, Job>, b: map<string, Job>, c: map<string, Job>)
    requires StartedElsewhereKept(a, b) && StartedElsewhereKept(b, c)
    ensures StartedElsewhereKept(a, c)
  {
    assert forall id | id in a :: id in b && id in c;
  }

  lemma IdleMeansDone(before: map<string, Job>, after: map<string, Job>)
    requires StartedElsewhereKept(before, after) && forall id | id in after :: JobOk(after[id]) && !Claimable(after[id])
    ensures forall id | id in after ::
      if before[id].status == Running then after[id] == before[id]
      else after[id].status == Completed || after[id].status == Failed
  {
  }

  lemma OwnStatus(docs: map<string, Document>, jobs: map<string, Job>, id: string)
    requires Linked(docs, jobs) && id in jobs && jobs[id].kind == JobKind.Ingest && jobs[id].docId in docs
    ensures Agrees(docs[jobs[id].docId].status, jobs[id].status)
  {
    var d := jobs[id].docId;
    assert HasJob(docs, jobs, d);
    var k :| k in jobs && IngestJob(jobs, k, d) && Agrees(docs[d].status, jobs[k].status);
    assert k == id;
  }

  lemma OwnStatuses(docs: map<string, Document>, jobs: map<string, Job>)
    requires Linked(docs, jobs)
    ensures forall id | id in jobs && jobs[id].kind == JobKind.Ingest && jobs[id].docId in docs ::
              Agrees(docs[jobs[id].docId].status, jobs[id].status)
  {
    forall id | id in jobs && jobs[id].kind == JobKind.Ingest && jobs[id].docId in docs
      ensures Agrees(docs[jobs[id].docId].status, jobs[id].status)
    {
      OwnStatus(docs, jobs, id);
    }
  }

  lemma LinkWithout(docs: map<string, Document>, jobs: map<string, Job>, docId: string)
    requires Linked(docs, jobs)
    ensures Linked(docs - {docId}, jobs)
  {
    var docs' := docs - {docId};
    forall d | d in docs' ensures HasJob(docs', jobs, d) {
      assert HasJob(docs, jobs, d);
    }
  }
}

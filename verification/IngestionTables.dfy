/**
 Rows of the knowledge ingestion tables of one tenant, and each repository
 transaction as a function from tables to tables.

 Jobs are kept in insertion order, so a job id is its position and the newest
 generation of a document is its last job in the sequence.
 */
module IngestionTables {
  import opened Prelude

  type DocId = nat
  type JobId = nat
  type Owner = nat
  type Key = string
  type Fingerprint = string

  const LEASE_SECONDS: nat := 90

  datatype DocStatus = Uploaded | Parsing | Indexing | Ready | Failed | ReindexRequested | Deleting | Deleted

  datatype ErrorCode =
    | SubmissionUnknown | EmptyText | UnsupportedFormat | FileNotFound | ParseFailed
    | IndexFailed | IndexUnconfigured

  datatype Doc = Doc(space: nat, status: DocStatus, error: Option<ErrorCode>)

  datatype JobStatus = JobParsing | JobReindexRequested | JobIndexing | JobDone | JobFailed

  datatype Submission = NotSubmitted | Submitted | Terminal

  /** `legacy` stands for a row whose file source is the document id itself. */
  datatype Job = Job(
    document: DocId, space: nat, status: JobStatus, submission: Submission, error: Option<ErrorCode>,
    owner: Option<Owner>, leaseUntil: Option<nat>, attempts: nat, nextAttempt: nat,
    track: Option<string>, upstream: Option<string>, operation: Option<Key>, legacy: bool)

  datatype ReceiptStatus = Pending | Accepted | ReceiptFailed | Completed

  datatype Receipt = Receipt(document: DocId, space: nat, fingerprint: Fingerprint, status: ReceiptStatus)

  /** `receipts` holds the reindex receipts by idempotency key, which is unique per tenant. */
  datatype Tables = Tables(now: nat, docs: map<DocId, Doc>, jobs: seq<Job>, receipts: map<Key, Receipt>)

  datatype Upstream = Processed | PendingUpstream | FailedUpstream | UnknownUpstream

  // ----- predicates used in WHERE clauses -----

  predicate InProgress(job: Job) { job.status != JobDone && job.status != JobFailed }

  /** The part of the claim predicate that only time cannot change. */
  predicate Open(job: Job) { InProgress(job) || job.submission == Submitted }

  predicate ClaimableStatus(status: DocStatus) {
    status in {Uploaded, Parsing, Indexing, ReindexRequested, Failed}
  }

  predicate LeaseFree(job: Job, now: nat) { job.leaseUntil.None? || job.leaseUntil.value <= now }

  predicate IsLatest(jobs: seq<Job>, j: JobId)
    requires j < |jobs|
  {
    forall k :: j < k < |jobs| ==> jobs[k].document != jobs[j].document
  }

  predicate Eligible(t: Tables, j: JobId) {
    && j < |t.jobs|
    && t.jobs[j].nextAttempt <= t.now
    && LeaseFree(t.jobs[j], t.now)
    && Open(t.jobs[j])
    && t.jobs[j].document in t.docs
    && ClaimableStatus(t.docs[t.jobs[j].document].status)
    && IsLatest(t.jobs, j)
  }

  predicate OwnedBy(t: Tables, j: JobId, w: Owner) {
    && j < |t.jobs|
    && t.jobs[j].owner == Some(w)
    && t.jobs[j].leaseUntil.Some?
    && t.now < t.jobs[j].leaseUntil.value
  }

  /** More or fewer than one generation exists for the document. */
  predicate Ambiguous(jobs: seq<Job>, d: DocId) {
    !exists j :: 0 <= j < |jobs| && jobs[j].document == d
                 && forall k :: 0 <= k < |jobs| && k != j ==> jobs[k].document != d
  }

  // ----- transactions -----

  function NewJob(now: nat, d: DocId, space: nat, status: JobStatus, operation: Option<Key>): Job {
    Job(d, space, status, NotSubmitted, None, None, None, 0, now, None, None, operation, false)
  }

  /** KnowledgeDocumentRepository.create with create_job. */
  function CreateTx(t: Tables, d: DocId, space: nat, status: DocStatus): Tables {
    t.(docs := t.docs[d := Doc(space, status, None)],
       jobs := t.jobs + [NewJob(t.now, d, space, JobParsing, None)])
  }

  datatype ReindexOutcome =
    | Created(job: JobId)
    | Replayed(receipt: Receipt, replayedJob: Option<JobId>)
    | KeyConflict
    | StateConflict
    | ReconciliationRequired

  predicate AcceptsReindex(t: Tables, d: DocId, space: nat) {
    && d in t.docs && t.docs[d].space == space
    && t.docs[d].status in {Ready, Failed}
    && t.docs[d].error != Some(SubmissionUnknown)
  }

  /** Ids of the jobs recorded for a receipt. */
  function JobsOf(jobs: seq<Job>, key: Key): set<JobId> {
    set j: JobId | j < |jobs| && jobs[j].operation == Some(key)
  }

  /** The job belongs to the document and the knowledge space of its receipt. */
  predicate Association(jobs: seq<Job>, j: JobId, d: DocId, space: nat) {
    j < |jobs| && jobs[j].document == d && jobs[j].space == space
  }

  /** prepare_reindex: receipt, document compare-and-set and job commit together or not at all. */
  function ReindexTx(t: Tables, key: Key, d: DocId, space: nat, fingerprint: Fingerprint): Tables {
    if key in t.receipts || !AcceptsReindex(t, d, space) then t
    else
      t.(receipts := t.receipts[key := Receipt(d, space, fingerprint, Pending)],
         docs := t.docs[d := t.docs[d].(status := ReindexRequested, error := None)],
         jobs := t.jobs + [NewJob(t.now, d, space, JobReindexRequested, Some(key))])
  }

  function ClaimTx(t: Tables, j: JobId, w: Owner): Tables
    requires j < |t.jobs|
  {
    t.(jobs := t.jobs[j := t.jobs[j].(owner := Some(w), leaseUntil := Some(t.now + LEASE_SECONDS),
                                      attempts := t.jobs[j].attempts + 1)])
  }

  predicate FenceOpen(t: Tables, j: JobId, w: Owner) {
    OwnedBy(t, j, w) && t.jobs[j].submission == NotSubmitted
  }

  function FenceTx(t: Tables, j: JobId, w: Owner): Tables {
    if !FenceOpen(t, j, w) then t
    else
      var job := t.jobs[j];
      t.(jobs := t.jobs[j := job.(submission := Submitted, status := JobIndexing,
                                  leaseUntil := Some(t.now + LEASE_SECONDS))],
         docs := if job.document in t.docs
                 then t.docs[job.document := t.docs[job.document].(status := Indexing, error := None)]
                 else t.docs)
  }

  function RecordTrackTx(t: Tables, j: JobId, w: Owner, track: string): Tables {
    if !OwnedBy(t, j, w) then t
    else t.(jobs := t.jobs[j := t.jobs[j].(track := Some(track), leaseUntil := Some(t.now + LEASE_SECONDS))])
  }

  /** The arguments of one settle call; `snapshot` is the job row the worker holds. */
  datatype Settlement = Settlement(snapshot: Job, state: Upstream, code: Option<ErrorCode>, upstream: Option<string>)
  {
    predicate Fatal() { state == FailedUpstream }

    predicate GivesUp() { state == UnknownUpstream && snapshot.attempts >= 6 }

    function Error(): Option<ErrorCode> {
      if code.Some? then code else if GivesUp() then Some(SubmissionUnknown) else None
    }
  }

  function SettledJob(job: Job, s: Settlement, now: nat): Job {
    job.(status := if s.Fatal() || s.GivesUp() then JobFailed else JobIndexing,
         submission := if s.Fatal() then Terminal else job.submission,
         error := s.Error(),
         upstream := if s.upstream.Some? then s.upstream else job.upstream,
         owner := None, leaseUntil := None,
         nextAttempt := now + Backoff(s.snapshot.attempts))
  }

  function SettleTx(t: Tables, j: JobId, w: Owner, s: Settlement): Tables {
    if !OwnedBy(t, j, w) then t
    else
      var d := s.snapshot.document;
      var key := s.snapshot.operation;
      var closing := s.Fatal() || s.GivesUp();
      t.(jobs := t.jobs[j := SettledJob(t.jobs[j], s, t.now)],
         docs := if d in t.docs
                 then t.docs[d := t.docs[d].(status := if closing then Failed else Indexing, error := s.Error())]
                 else t.docs,
         receipts := if closing && key.Some? && key.value in t.receipts
                     then t.receipts[key.value := t.receipts[key.value].(status := ReceiptFailed)]
                     else t.receipts)
  }

  /** publish_ready commits exactly when the caller owns the job and the document is indexing or failed. */
  predicate PublishCommits(t: Tables, j: JobId, w: Owner, d: DocId) {
    OwnedBy(t, j, w) && d in t.docs && t.docs[d].status in {Indexing, Failed}
  }

  function PublishTx(t: Tables, j: JobId, w: Owner, d: DocId, rag: string): Tables {
    if !PublishCommits(t, j, w, d) then t
    else
      var job := t.jobs[j];
      var key := job.operation;
      t.(jobs := t.jobs[j := job.(status := JobDone, submission := Terminal, error := None, owner := None,
                                  leaseUntil := None, upstream := Some(rag))],
         docs := t.docs[d := t.docs[d].(status := Ready, error := None)],
         receipts := if key.Some? && key.value in t.receipts
                     then t.receipts[key.value := t.receipts[key.value].(status := Completed)]
                     else t.receipts)
  }

  /** transition_status: compare-and-set of the document status, which also sets or clears the error. */
  function TransitionTx(t: Tables, d: DocId, expected: set<DocStatus>, status: DocStatus,
                        error: Option<ErrorCode>): Tables {
    if d in t.docs && t.docs[d].status in expected
    then t.(docs := t.docs[d := t.docs[d].(status := status, error := error)])
    else t
  }
}

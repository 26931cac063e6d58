/** The inductive invariant of the ingestion protocol and its preservation, transaction by transaction. */
module IngestionInvariant {
  import opened Prelude
  import opened IngestionTables
  import opened IngestionProtocol

  // ----- the tables -----

  predicate JobShape(job: Job, now: nat) {
    && (job.owner.None? <==> job.leaseUntil.None?)
    && (job.owner.Some? ==> Open(job))
    && (job.status == JobDone ==> job.submission == Terminal)
    && (job.submission == Terminal ==> !InProgress(job))
    && (!job.legacy && job.submission == NotSubmitted ==> InProgress(job))
    && job.nextAttempt <= now + 256
    && (job.leaseUntil.Some? ==> job.leaseUntil.value <= now + LEASE_SECONDS)
  }

  /** What the status of a document says about its newest job. */
  predicate DocMatches(doc: Doc, job: Job) {
    && (!job.legacy && job.submission == Submitted ==> doc.status in {Indexing, Failed})
    && match doc.status
       case Ready | Deleting | Deleted => !Open(job)
       case Failed =>
         if doc.error == Some(SubmissionUnknown)
         then job.status == JobFailed && (job.submission == Submitted || (job.legacy && job.submission == NotSubmitted))
         else !Open(job)
       case _ => InProgress(job)
  }

  predicate JobsShaped(t: Tables) {
    forall j :: 0 <= j < |t.jobs| ==> t.jobs[j].document in t.docs && JobShape(t.jobs[j], t.now)
  }

  predicate OlderClosed(t: Tables) {
    forall i, j :: 0 <= i < j < |t.jobs| && t.jobs[i].document == t.jobs[j].document ==> !Open(t.jobs[i])
  }

  predicate LatestMatches(t: Tables)
    requires JobsShaped(t)
  {
    forall j :: 0 <= j < |t.jobs| && IsLatest(t.jobs, j) ==> DocMatches(t.docs[t.jobs[j].document], t.jobs[j])
  }

  predicate ReceiptOk(r: Receipt, job: Job) {
    r.document == job.document && r.space == job.space && (r.status == Completed <==> job.status == JobDone)
  }

  predicate JobReceipts(t: Tables) {
    ReceiptsFollow(t) && OperationsDiffer(t.jobs) && NoOrphans(t)
  }

  /** Every job of a reindex has its receipt. */
  predicate ReceiptsFollow(t: Tables) {
    forall j :: 0 <= j < |t.jobs| && t.jobs[j].operation.Some? ==>
      t.jobs[j].operation.value in t.receipts && ReceiptOk(t.receipts[t.jobs[j].operation.value], t.jobs[j])
  }

  predicate OperationsDiffer(jobs: seq<Job>) {
    forall i, j :: 0 <= i < j < |jobs| && jobs[i].operation.Some? ==> jobs[i].operation != jobs[j].operation
  }

  /** Every receipt has a job. */
  predicate NoOrphans(t: Tables) { forall key :: key in t.receipts ==> JobsOf(t.jobs, key) != {} }

  predicate TablesOk(t: Tables) {
    JobsShaped(t) && OlderClosed(t) && LatestMatches(t) && JobReceipts(t)
  }

  /** An open job is the newest generation of its document. */
  lemma OpenIsLatest(t: Tables, j: JobId)
    requires TablesOk(t) && j < |t.jobs| && Open(t.jobs[j])
    ensures IsLatest(t.jobs, j)
  {
  }

  /** t' is t with the newest job of a document, that document and its receipt replaced together. */
  predicate Replaces(t: Tables, t': Tables, j: JobId, job: Job, doc: Doc) {
    && j < |t.jobs| && t'.now == t.now && t'.jobs == t.jobs[j := job]
    && job.document == t.jobs[j].document && job.space == t.jobs[j].space && job.operation == t.jobs[j].operation
    && t'.docs == t.docs[job.document := doc]
  }

  predicate ReceiptFollows(t: Tables, t': Tables, job: Job) {
    && t'.receipts.Keys == t.receipts.Keys
    && (forall key :: key in t.receipts && Some(key) != job.operation ==> t'.receipts[key] == t.receipts[key])
    && (job.operation.Some? ==> job.operation.value in t'.receipts && ReceiptOk(t'.receipts[job.operation.value], job))
  }

  lemma ReplaceKeepsShapes(t: Tables, t': Tables, j: JobId, job: Job, doc: Doc)
    requires JobsShaped(t) && OlderClosed(t) && Replaces(t, t', j, job, doc) && IsLatest(t.jobs, j)
             && JobShape(job, t.now)
    ensures JobsShaped(t') && OlderClosed(t')
  {
  }

  /** Which jobs are the newest depends on the documents they name only. */
  lemma ReplaceKeepsLatest(jobs: seq<Job>, jobs': seq<Job>, j: JobId, job: Job, i: nat)
    requires j < |jobs| && jobs' == jobs[j := job] && job.document == jobs[j].document && i < |jobs|
    ensures IsLatest(jobs', i) <==> IsLatest(jobs, i)
  {
    assert forall k :: 0 <= k < |jobs| ==> jobs'[k].document == jobs[k].document;
  }

  lemma ReplaceKeepsMatches(t: Tables, t': Tables, j: JobId, job: Job, doc: Doc)
    requires JobsShaped(t) && JobsShaped(t') && LatestMatches(t) && Replaces(t, t', j, job, doc) && IsLatest(t.jobs, j)
             && DocMatches(doc, job)
    ensures LatestMatches(t')
  {
    forall i | 0 <= i < |t'.jobs| && IsLatest(t'.jobs, i)
      ensures DocMatches(t'.docs[t'.jobs[i].document], t'.jobs[i])
    {
      ReplaceKeepsLatest(t.jobs, t'.jobs, j, job, i);
    }
  }

  lemma ReplaceKeepsReceipts(t: Tables, t': Tables, j: JobId, job: Job, doc: Doc)
    requires JobReceipts(t) && Replaces(t, t', j, job, doc) && ReceiptFollows(t, t', job)
    ensures JobReceipts(t')
  {
    ReplaceKeepsFollow(t, t', j, job, doc);
    ReplaceLeavesNoOrphans(t, t', j, job, doc);
  }

  lemma ReplaceKeepsFollow(t: Tables, t': Tables, j: JobId, job: Job, doc: Doc)
    requires ReceiptsFollow(t) && OperationsDiffer(t.jobs) && Replaces(t, t', j, job, doc) && ReceiptFollows(t, t', job)
    ensures ReceiptsFollow(t') && OperationsDiffer(t'.jobs)
  {
  }

  lemma ReplaceLeavesNoOrphans(t: Tables, t': Tables, j: JobId, job: Job, doc: Doc)
    requires NoOrphans(t) && Replaces(t, t', j, job, doc) && t'.receipts.Keys == t.receipts.Keys
    ensures NoOrphans(t')
  {
    forall key | key in t'.receipts ensures JobsOf(t'.jobs, key) != {} {
      var k :| k in JobsOf(t.jobs, key);
      assert k in JobsOf(t'.jobs, key);
    }
  }

  /** Replacing the newest job of a document, its document and its receipt together keeps the tables consistent. */
  lemma ReplaceKeepsTables(t: Tables, t': Tables, j: JobId, job: Job, doc: Doc)
    requires TablesOk(t) && Replaces(t, t', j, job, doc) && IsLatest(t.jobs, j)
    requires JobShape(job, t.now) && DocMatches(doc, job) && ReceiptFollows(t, t', job)
    ensures TablesOk(t')
  {
    ReplaceKeepsShapes(t, t', j, job, doc);
    ReplaceKeepsMatches(t, t', j, job, doc);
    ReplaceKeepsReceipts(t, t', j, job, doc);
  }

  lemma TickKeepsTables(t: Tables, seconds: nat)
    requires TablesOk(t)
    ensures TablesOk(t.(now := t.now + seconds))
  {
  }

  /** Appending a first or next generation for a document with no open job keeps the job rows consistent. */
  lemma AppendKeepsJobs(t: Tables, t': Tables, job: Job, doc: Doc)
    requires TablesOk(t) && t'.now == t.now && t'.jobs == t.jobs + [job]
    requires t'.docs == t.docs[job.document := doc]
    requires forall j :: 0 <= j < |t.jobs| && t.jobs[j].document == job.document ==> !Open(t.jobs[j])
    requires JobShape(job, t.now) && DocMatches(doc, job)
    ensures JobsShaped(t') && OlderClosed(t') && LatestMatches(t')
  {
    var n := |t.jobs|;
    assert t'.jobs[n] == job;
    forall i | 0 <= i < |t'.jobs| && IsLatest(t'.jobs, i)
      ensures DocMatches(t'.docs[t'.jobs[i].document], t'.jobs[i])
    {
      if i < n {
        assert t'.jobs[n].document != t'.jobs[i].document;
        assert IsLatest(t.jobs, i) by {
          forall k | i < k < n ensures t.jobs[k].document != t.jobs[i].document {
            assert t'.jobs[k].document != t'.jobs[i].document;
          }
        }
      }
    }
  }

  /** A job inserted together with a new receipt, or with none, keeps receipts and jobs paired. */
  lemma AppendKeepsReceipts(t: Tables, t': Tables, job: Job, added: map<Key, Receipt>)
    requires JobReceipts(t) && t'.jobs == t.jobs + [job] && t'.receipts == t.receipts + added
    requires if job.operation.None? then added == map[]
             else job.operation.value !in t.receipts && added.Keys == {job.operation.value}
                  && ReceiptOk(added[job.operation.value], job)
    ensures JobReceipts(t')
  {
    forall j | 0 <= j < |t.jobs| && t.jobs[j].operation.Some? ensures t.jobs[j].operation != job.operation { }
    AppendKeepsOperations(t.jobs, job);
    AppendKeepsFollow(t, t', job, added);
    AppendLeavesNoOrphans(t, t', job);
  }

  lemma AppendKeepsOperations(jobs: seq<Job>, job: Job)
    requires OperationsDiffer(jobs)
    requires forall j :: 0 <= j < |jobs| && jobs[j].operation.Some? ==> jobs[j].operation != job.operation
    ensures OperationsDiffer(jobs + [job])
  {
  }

  lemma AppendKeepsFollow(t: Tables, t': Tables, job: Job, added: map<Key, Receipt>)
    requires ReceiptsFollow(t) && t'.jobs == t.jobs + [job] && t'.receipts == t.receipts + added
    requires added.Keys !! t.receipts.Keys
    requires job.operation.Some? ==>
               job.operation.value in added && ReceiptOk(added[job.operation.value], job)
    ensures ReceiptsFollow(t')
  {
  }

  lemma AppendLeavesNoOrphans(t: Tables, t': Tables, job: Job)
    requires NoOrphans(t) && t'.jobs == t.jobs + [job]
    requires forall key :: key in t'.receipts ==> key in t.receipts || job.operation == Some(key)
    ensures NoOrphans(t')
  {
    var n := |t.jobs|;
    assert t'.jobs[n] == job;
    forall key | key in t'.receipts ensures JobsOf(t'.jobs, key) != {} {
      if job.operation == Some(key) {
        assert n in JobsOf(t'.jobs, key);
      } else {
        var k :| k in JobsOf(t.jobs, key);
        assert k in JobsOf(t'.jobs, key);
      }
    }
  }

  lemma CreateKeepsTables(t: Tables, d: DocId, space: nat, status: DocStatus)
    requires TablesOk(t) && d !in t.docs && status in {Uploaded, Parsing}
    ensures TablesOk(CreateTx(t, d, space, status))
  {
    var job := NewJob(t.now, d, space, JobParsing, None);
    AppendKeepsJobs(t, CreateTx(t, d, space, status), job, Doc(space, status, None));
    AppendKeepsReceipts(t, CreateTx(t, d, space, status), job, map[]);
  }

  /** A document that accepts deletion or reindexing has no open job. */
  lemma RestingDocument(t: Tables, d: DocId, j: JobId)
    requires TablesOk(t) && j < |t.jobs| && t.jobs[j].document == d
    requires t.docs[d].status in {Ready, Deleting, Deleted}
             || (t.docs[d].status == Failed && t.docs[d].error != Some(SubmissionUnknown))
    ensures !Open(t.jobs[j])
  {
    if Open(t.jobs[j]) { OpenIsLatest(t, j); }
  }

  lemma ReindexKeepsTables(t: Tables, key: Key, d: DocId, space: nat, fingerprint: Fingerprint)
    requires TablesOk(t)
    ensures TablesOk(ReindexTx(t, key, d, space, fingerprint))
  {
    if key !in t.receipts && AcceptsReindex(t, d, space) {
      var job := NewJob(t.now, d, space, JobReindexRequested, Some(key));
      var t' := ReindexTx(t, key, d, space, fingerprint);
      forall j | 0 <= j < |t.jobs| && t.jobs[j].document == d ensures !Open(t.jobs[j]) { RestingDocument(t, d, j); }
      AppendKeepsJobs(t, t', job, t'.docs[d]);
      AppendKeepsReceipts(t, t', job, map[key := Receipt(d, space, fingerprint, Pending)]);
    }
  }

  lemma ClaimKeepsTables(t: Tables, j: JobId, w: Owner)
    requires TablesOk(t) && Eligible(t, j)
    ensures TablesOk(ClaimTx(t, j, w))
  {
    var t' := ClaimTx(t, j, w);
    assert t'.docs == t.docs[t.jobs[j].document := t.docs[t.jobs[j].document]];
    ReplaceKeepsTables(t, t', j, t'.jobs[j], t.docs[t.jobs[j].document]);
  }

  lemma FenceKeepsTables(t: Tables, j: JobId, w: Owner)
    requires TablesOk(t)
    ensures TablesOk(FenceTx(t, j, w))
  {
    if FenceOpen(t, j, w) {
      OpenIsLatest(t, j);
      var t' := FenceTx(t, j, w);
      var d := t.jobs[j].document;
      ReplaceKeepsTables(t, t', j, t'.jobs[j], t'.docs[d]);
    }
  }

  lemma RecordTrackKeepsTables(t: Tables, j: JobId, w: Owner, track: string)
    requires TablesOk(t)
    ensures TablesOk(RecordTrackTx(t, j, w, track))
  {
    if OwnedBy(t, j, w) {
      OpenIsLatest(t, j);
      var t' := RecordTrackTx(t, j, w, track);
      var d := t.jobs[j].document;
      assert t'.docs == t.docs[d := t.docs[d]];
      ReplaceKeepsTables(t, t', j, t'.jobs[j], t.docs[d]);
    }
  }

  /** The row facts a settle call relies on: an outcome other than failure needs a submitted job (or a legacy one). */
  predicate SettlementFits(job: Job, s: Settlement) {
    && s.snapshot.document == job.document && s.snapshot.operation == job.operation && s.snapshot.legacy == job.legacy
    && (!s.Fatal() ==> job.submission == Submitted || (job.legacy && job.submission == NotSubmitted))
    && (s.GivesUp() ==> s.code.None? || s.code == Some(SubmissionUnknown))
    && (s.Fatal() ==> s.code.Some? && s.code != Some(SubmissionUnknown))
  }

  lemma SettleKeepsTables(t: Tables, j: JobId, w: Owner, s: Settlement)
    requires TablesOk(t)
    requires OwnedBy(t, j, w) ==> SettlementFits(t.jobs[j], s)
    ensures TablesOk(SettleTx(t, j, w, s))
  {
    if OwnedBy(t, j, w) {
      OpenIsLatest(t, j);
      var t' := SettleTx(t, j, w, s);
      var d := t.jobs[j].document;
      ReplaceKeepsTables(t, t', j, t'.jobs[j], t'.docs[d]);
    }
  }

  lemma PublishKeepsTables(t: Tables, j: JobId, w: Owner, d: DocId, rag: string)
    requires TablesOk(t)
    requires OwnedBy(t, j, w) ==> t.jobs[j].document == d
    ensures TablesOk(PublishTx(t, j, w, d, rag))
  {
    if PublishCommits(t, j, w, d) {
      OpenIsLatest(t, j);
      var t' := PublishTx(t, j, w, d, rag);
      ReplaceKeepsTables(t, t', j, t'.jobs[j], t'.docs[d]);
    }
  }

  /** Moving a document without open jobs to deleting or deleted. */
  lemma RetireKeepsTables(t: Tables, d: DocId, doc: Doc)
    requires TablesOk(t) && d in t.docs && doc.status in {Deleting, Deleted}
    requires forall j :: 0 <= j < |t.jobs| && t.jobs[j].document == d ==> !Open(t.jobs[j])
    ensures TablesOk(t.(docs := t.docs[d := doc]))
  {
  }

  // ----- the workers -----

  predicate SameJob(a: Job, b: Job) { a.document == b.document && a.operation == b.operation && a.legacy == b.legacy }

  /** What a worker that still owns the row knows about it at each point of `process`. */
  predicate OwnerKnows(job: Job, pc: Pc) {
    match pc
    case Claimed(_, snap) => job.submission == snap.submission
    case Routed(_, snap) => job.submission == snap.submission
    case Fencing(_, snap) => job.submission == NotSubmitted
    case Settling(_, settlement, _) => SettlementFits(job, settlement)
    case Handling(_, _) => true
    case Stopped => true
    case _ => job.submission == Submitted
  }

  predicate PcOk(t: Tables, w: Owner, pc: Pc) {
    pc.Stopped? ||
    (&& pc.j < |t.jobs|
     && SameJob(pc.Snapshot(), t.jobs[pc.j])
     && (t.jobs[pc.j].owner == Some(w) ==> OwnerKnows(t.jobs[pc.j], pc)))
  }

  predicate WorkersOk(s: State) {
    && (forall w :: w in s.workers ==> PcOk(s.t, w, s.workers[w]))
    && (forall j :: 0 <= j < |s.t.jobs| && s.t.jobs[j].owner.Some? ==> s.t.jobs[j].owner.value in s.workers)
  }

  /** Nothing that `w` knows as an owner has changed. */
  predicate Undisturbed(t: Tables, t': Tables, w: Owner) {
    && |t.jobs| <= |t'.jobs|
    && forall j :: 0 <= j < |t.jobs| ==>
         && SameJob(t.jobs[j], t'.jobs[j])
         && (t'.jobs[j].owner == Some(w) ==>
               t.jobs[j].owner == Some(w) && t'.jobs[j].submission == t.jobs[j].submission)
  }

  lemma UndisturbedKeepsPc(t: Tables, t': Tables, w: Owner, pc: Pc)
    requires PcOk(t, w, pc) && Undisturbed(t, t', w)
    ensures PcOk(t', w, pc)
  {
  }

  /** A step of `w` leaves every other worker undisturbed and moves `w` to an acceptable point. */
  lemma StepKeepsWorkers(s: State, s': State, w: Owner)
    requires WorkersOk(s) && s'.workers.Keys == s.workers.Keys + {w}
    requires forall v :: v in s.workers && v != w ==> s'.workers[v] == s.workers[v] && Undisturbed(s.t, s'.t, v)
    requires PcOk(s'.t, w, s'.workers[w])
    requires |s.t.jobs| <= |s'.t.jobs|
    requires forall j :: 0 <= j < |s'.t.jobs| ==>
               s'.t.jobs[j].owner in {None, Some(w)} || (j < |s.t.jobs| && s'.t.jobs[j].owner == s.t.jobs[j].owner)
    ensures WorkersOk(s')
  {
    forall v | v in s'.workers ensures PcOk(s'.t, v, s'.workers[v]) {
      if v != w { UndisturbedKeepsPc(s.t, s'.t, v, s.workers[v]); }
    }
  }

  lemma EnvironmentKeepsWorkers(s: State, s': State)
    requires WorkersOk(s) && s'.workers == s.workers
    requires |s.t.jobs| <= |s'.t.jobs| && s'.t.jobs[..|s.t.jobs|] == s.t.jobs
    requires forall j :: |s.t.jobs| <= j < |s'.t.jobs| ==> s'.t.jobs[j].owner.None?
    ensures WorkersOk(s')
  {
    assert forall j :: 0 <= j < |s.t.jobs| ==> s'.t.jobs[j] == s'.t.jobs[..|s.t.jobs|][j];
    forall v | v in s'.workers ensures PcOk(s'.t, v, s'.workers[v]) { UndisturbedKeepsPc(s.t, s'.t, v, s.workers[v]); }
  }

  predicate CoreOk(s: State) { TablesOk(s.t) && WorkersOk(s) }

  /** An owned job is still open, so its submission is not terminal. */
  lemma OwnedNotTerminal(t: Tables, j: JobId)
    requires TablesOk(t) && j < |t.jobs| && t.jobs[j].owner.Some?
    ensures t.jobs[j].submission != Terminal
  {
  }

  /** The steps that touch only the worker's own variables. */
  predicate IsLocal(a: Action) {
    a.CheckLegacy? || a.Route? || a.Post? || a.Reload? || a.Reconcile? || a.Raise? || a.Handle? || a.Crash?
  }

  /** A legacy job that is parked keeps its owner's knowledge. */
  lemma ParkedKeepsPc(t: Tables, w: Owner, pc: Pc)
    requires PcOk(t, w, pc) && pc.Claimed? && pc.snap.legacy
             && (t.jobs[pc.j].owner.Some? ==> t.jobs[pc.j].submission != Terminal)
    ensures PcOk(t, w, Settling(pc.j, Settlement(pc.snap, UnknownUpstream, Some(SubmissionUnknown), None), false))
    ensures PcOk(t, w, Routed(pc.j, pc.snap))
  {
  }

  lemma LegacyCheckKeepsPc(s: State, a: Action, w: Owner)
    requires Runs(s, w) && a.CheckLegacy? && PcOk(s.t, w, s.workers[w])
    requires s.t.jobs[s.workers[w].j].owner.Some? ==> s.t.jobs[s.workers[w].j].submission != Terminal
    ensures PcOk(s.t, w, WorkerExec(s, a, w).workers[w])
  {
    var pc := s.workers[w];
    if pc.Claimed? && pc.snap.legacy { ParkedKeepsPc(s.t, w, pc); }
  }

  lemma RouteKeepsPc(s: State, a: Action, w: Owner)
    requires Runs(s, w) && a.Route? && PcOk(s.t, w, s.workers[w])
    requires s.t.jobs[s.workers[w].j].owner.Some? ==> s.t.jobs[s.workers[w].j].submission != Terminal
    ensures PcOk(s.t, w, WorkerExec(s, a, w).workers[w])
  {
  }

  lemma PostKeepsPc(s: State, a: Action, w: Owner)
    requires Runs(s, w) && a.Post? && PcOk(s.t, w, s.workers[w])
    ensures PcOk(s.t, w, WorkerExec(s, a, w).workers[w])
  {
  }

  lemma LateStepKeepsPc(s: State, a: Action, w: Owner)
    requires Runs(s, w) && (a.Reload? || a.Reconcile? || a.Crash?) && PcOk(s.t, w, s.workers[w])
    ensures PcOk(s.t, w, WorkerExec(s, a, w).workers[w])
  {
  }

  lemma FailingStepKeepsPc(s: State, a: Action, w: Owner)
    requires Runs(s, w) && (a.Raise? || a.Handle?) && PcOk(s.t, w, s.workers[w])
    requires s.t.jobs[s.workers[w].j].owner.Some? ==> s.t.jobs[s.workers[w].j].submission != Terminal
    ensures PcOk(s.t, w, WorkerExec(s, a, w).workers[w])
  {
  }

  lemma LocalStepKeepsPc(s: State, a: Action, w: Owner)
    requires Runs(s, w) && IsLocal(a) && PcOk(s.t, w, s.workers[w])
    requires s.t.jobs[s.workers[w].j].owner.Some? ==> s.t.jobs[s.workers[w].j].submission != Terminal
    ensures PcOk(s.t, w, WorkerExec(s, a, w).workers[w])
  {
    if a.CheckLegacy? { LegacyCheckKeepsPc(s, a, w); }
    else if a.Route? { RouteKeepsPc(s, a, w); }
    else if a.Post? { PostKeepsPc(s, a, w); }
    else if a.Reload? || a.Reconcile? || a.Crash? { LateStepKeepsPc(s, a, w); }
    else { FailingStepKeepsPc(s, a, w); }
  }

  lemma LocalStepFrame(s: State, a: Action, w: Owner)
    requires Runs(s, w) && IsLocal(a)
    ensures var s' := WorkerExec(s, a, w);
            s'.t == s.t && s'.workers == s.workers[w := s'.workers[w]]
  {
  }

  lemma MoveKeepsWorkers(s: State, s': State, w: Owner)
    requires WorkersOk(s) && w in s.workers && w in s'.workers
    requires s'.t == s.t && s'.workers == s.workers[w := s'.workers[w]] && PcOk(s.t, w, s'.workers[w])
    ensures WorkersOk(s')
  {
  }

  lemma LocalStepKeepsCore(s: State, a: Action, w: Owner)
    requires CoreOk(s) && Runs(s, w) && IsLocal(a)
    ensures CoreOk(WorkerExec(s, a, w))
  {
    var j := s.workers[w].j;
    if s.t.jobs[j].owner.Some? { OwnedNotTerminal(s.t, j); }
    LocalStepKeepsPc(s, a, w);
    LocalStepFrame(s, a, w);
    MoveKeepsWorkers(s, WorkerExec(s, a, w), w);
  }

  /** The step changes at most the row `j`, and that only as its owner `w`. */
  predicate RowStep(s: State, s': State, w: Owner, j: JobId) {
    && w in s.workers && w in s'.workers && s'.workers == s.workers[w := s'.workers[w]]
    && j < |s.t.jobs| && |s'.t.jobs| == |s.t.jobs|
    && (forall i :: 0 <= i < |s.t.jobs| && i != j ==> s'.t.jobs[i] == s.t.jobs[i])
    && SameJob(s.t.jobs[j], s'.t.jobs[j])
    && (s'.t.jobs[j] == s.t.jobs[j] || (s.t.jobs[j].owner == Some(w) && s'.t.jobs[j].owner in {None, Some(w)}))
  }

  lemma RowStepLeavesOthers(s: State, s': State, w: Owner, j: JobId, v: Owner)
    requires RowStep(s, s', w, j) && v != w
    ensures Undisturbed(s.t, s'.t, v)
  {
  }

  lemma RowStepKeepsWorkers(s: State, s': State, w: Owner, j: JobId)
    requires WorkersOk(s) && RowStep(s, s', w, j) && PcOk(s'.t, w, s'.workers[w])
    ensures WorkersOk(s')
  {
    forall v | v in s'.workers ensures PcOk(s'.t, v, s'.workers[v]) {
      if v != w {
        RowStepLeavesOthers(s, s', w, j, v);
        UndisturbedKeepsPc(s.t, s'.t, v, s.workers[v]);
      }
    }
  }

  lemma FenceIsRowStep(s: State, w: Owner)
    requires Runs(s, w) && PcOk(s.t, w, s.workers[w])
    ensures var s' := WorkerExec(s, Fence(w), w); RowStep(s, s', w, s.workers[w].j) && PcOk(s'.t, w, s'.workers[w])
  {
  }

  lemma FenceStepKeepsCore(s: State, w: Owner)
    requires CoreOk(s) && Runs(s, w)
    ensures CoreOk(WorkerExec(s, Fence(w), w))
  {
    FenceKeepsTables(s.t, s.workers[w].j, w);
    FenceIsRowStep(s, w);
    RowStepKeepsWorkers(s, WorkerExec(s, Fence(w), w), w, s.workers[w].j);
  }

  lemma RecordIsRowStep(s: State, w: Owner)
    requires Runs(s, w) && PcOk(s.t, w, s.workers[w])
    ensures var s' := WorkerExec(s, Record(w), w); RowStep(s, s', w, s.workers[w].j) && PcOk(s'.t, w, s'.workers[w])
  {
  }

  lemma RecordStepKeepsCore(s: State, w: Owner)
    requires CoreOk(s) && Runs(s, w)
    ensures CoreOk(WorkerExec(s, Record(w), w))
  {
    var pc := s.workers[w];
    if pc.Posted? { RecordTrackKeepsTables(s.t, pc.j, w, pc.track); }
    RecordIsRowStep(s, w);
    RowStepKeepsWorkers(s, WorkerExec(s, Record(w), w), w, pc.j);
  }

  lemma PublishIsRowStep(s: State, w: Owner, raised: bool)
    requires Runs(s, w) && PcOk(s.t, w, s.workers[w])
    ensures var s' := WorkerExec(s, Publish(w, raised), w);
            RowStep(s, s', w, s.workers[w].j) && PcOk(s'.t, w, s'.workers[w])
  {
  }

  lemma PublishStepKeepsCore(s: State, w: Owner, raised: bool)
    requires CoreOk(s) && Runs(s, w)
    ensures CoreOk(WorkerExec(s, Publish(w, raised), w))
  {
    var pc := s.workers[w];
    if pc.Publishing? { PublishKeepsTables(s.t, pc.j, w, pc.snap.document, pc.rag); }
    PublishIsRowStep(s, w, raised);
    RowStepKeepsWorkers(s, WorkerExec(s, Publish(w, raised), w), w, pc.j);
  }

  lemma SettleIsRowStep(s: State, w: Owner, raised: bool)
    requires Runs(s, w) && PcOk(s.t, w, s.workers[w])
    ensures var s' := WorkerExec(s, Settle(w, raised), w);
            RowStep(s, s', w, s.workers[w].j) && PcOk(s'.t, w, s'.workers[w])
  {
  }

  lemma SettleStepKeepsCore(s: State, w: Owner, raised: bool)
    requires CoreOk(s) && Runs(s, w)
    ensures CoreOk(WorkerExec(s, Settle(w, raised), w))
  {
    var pc := s.workers[w];
    if pc.Settling? { SettleKeepsTables(s.t, pc.j, w, pc.settlement); }
    SettleIsRowStep(s, w, raised);
    RowStepKeepsWorkers(s, WorkerExec(s, Settle(w, raised), w), w, pc.j);
  }

  lemma WorkerStepKeepsCore(s: State, a: Action, w: Owner)
    requires CoreOk(s) && Runs(s, w) && IsWorkerAction(a) && a.w == w
    ensures CoreOk(WorkerExec(s, a, w))
  {
    match a {
      case Fence(_) => FenceStepKeepsCore(s, w);
      case Record(_) => RecordStepKeepsCore(s, w);
      case Publish(_, raised) => PublishStepKeepsCore(s, w, raised);
      case Settle(_, raised) => SettleStepKeepsCore(s, w, raised);
      case _ => LocalStepKeepsCore(s, a, w);
    }
  }

  predicate Resting(doc: Doc) {
    doc.status in {Ready, Deleting} || (doc.status == Failed && doc.error != Some(SubmissionUnknown))
  }

  /** Retiring a resting document: deletion requested, or deletion finished. */
  lemma RetireKeepsCore(s: State, s': State, d: DocId, doc: Doc)
    requires CoreOk(s) && d in s.t.docs && Resting(s.t.docs[d])
    requires doc.status in {Deleting, Deleted} && s'.t == s.t.(docs := s.t.docs[d := doc]) && s'.workers == s.workers
    ensures CoreOk(s')
  {
    forall j | 0 <= j < |s.t.jobs| && s.t.jobs[j].document == d
      ensures !Open(s.t.jobs[j])
    {
      RestingDocument(s.t, d, j);
    }
    RetireKeepsTables(s.t, d, doc);
    EnvironmentKeepsWorkers(s, s');
  }

  lemma ClaimStepKeepsCore(s: State, w: Owner, j: JobId)
    requires CoreOk(s)
    ensures CoreOk(Exec(s, Claim(w, j)))
  {
    if w !in s.workers && Eligible(s.t, j) {
      ClaimKeepsTables(s.t, j, w);
      ClaimKeepsWorkers(s, w, j);
    }
  }

  lemma ClaimKeepsWorkers(s: State, w: Owner, j: JobId)
    requires WorkersOk(s) && w !in s.workers && Eligible(s.t, j)
    ensures WorkersOk(Exec(s, Claim(w, j)))
  {
    var s' := Exec(s, Claim(w, j));
    forall v | v in s.workers ensures Undisturbed(s.t, s'.t, v) { ClaimLeavesOthers(s.t, j, w, v); }
    StepKeepsWorkers(s, s', w);
  }

  lemma ClaimLeavesOthers(t: Tables, j: JobId, w: Owner, v: Owner)
    requires j < |t.jobs| && v != w
    ensures Undisturbed(t, ClaimTx(t, j, w), v)
  {
  }

  predicate IsDeletion(a: Action) {
    a.RequestDelete? || a.BeginReconcileDelete? || a.ProbeDelete? || a.CleanSource? || a.FinishDelete?
  }

  lemma DeletionStepKeepsCore(s: State, a: Action)
    requires CoreOk(s) && IsDeletion(a)
    ensures CoreOk(Exec(s, a))
  {
    var s' := Exec(s, a);
    if s'.t == s.t {
      DeletionKeepsWorkers(s, a);
    } else {
      var d, doc := DeletionRetires(s, a);
      RetireKeepsCore(s, s', d, doc);
    }
  }

  lemma DeletionKeepsWorkers(s: State, a: Action)
    requires IsDeletion(a)
    ensures Exec(s, a).workers == s.workers
  {
  }

  /** A deletion step that writes moves one resting document to deleting or deleted. */
  lemma DeletionRetires(s: State, a: Action) returns (d: DocId, doc: Doc)
    requires IsDeletion(a) && Exec(s, a).t != s.t
    ensures d in s.t.docs && doc.status in {Deleting, Deleted} && Resting(s.t.docs[d])
    ensures Exec(s, a).t == s.t.(docs := s.t.docs[d := doc]) && Exec(s, a).workers == s.workers
  {
    d := if a.RequestDelete? then a.d else s.deleters[a.r].d;
    doc := Exec(s, a).t.docs[d];
  }

  lemma TickStepKeepsCore(s: State, seconds: nat)
    requires CoreOk(s)
    ensures CoreOk(Exec(s, Tick(seconds)))
  {
    TickKeepsTables(s.t, seconds);
    EnvironmentKeepsWorkers(s, Exec(s, Tick(seconds)));
  }

  lemma UploadStepKeepsCore(s: State, d: DocId, space: nat, parsing: bool)
    requires CoreOk(s)
    ensures CoreOk(Exec(s, Upload(d, space, parsing)))
  {
    if d !in s.t.docs {
      CreateKeepsTables(s.t, d, space, if parsing then Parsing else Uploaded);
      EnvironmentKeepsWorkers(s, Exec(s, Upload(d, space, parsing)));
    }
  }

  lemma ReindexStepKeepsCore(s: State, key: Key, d: DocId, space: nat, fingerprint: Fingerprint)
    requires CoreOk(s)
    ensures CoreOk(Exec(s, Reindex(key, d, space, fingerprint)))
  {
    ReindexKeepsTables(s.t, key, d, space, fingerprint);
    EnvironmentKeepsWorkers(s, Exec(s, Reindex(key, d, space, fingerprint)));
  }

  lemma StepKeepsCore(s: State, a: Action)
    requires CoreOk(s)
    ensures CoreOk(Exec(s, a))
  {
    if a.Tick? {
      TickStepKeepsCore(s, a.seconds);
    } else if a.Upload? {
      UploadStepKeepsCore(s, a.d, a.space, a.parsing);
    } else if a.Reindex? {
      ReindexStepKeepsCore(s, a.key, a.d, a.space, a.fingerprint);
    } else if a.Claim? {
      ClaimStepKeepsCore(s, a.w, a.j);
    } else if IsDeletion(a) {
      DeletionStepKeepsCore(s, a);
    } else if Runs(s, a.w) {
      WorkerStepKeepsCore(s, a, a.w);
    }
  }
}

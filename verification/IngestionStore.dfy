/**
 The ingestion repositories as an object that updates its rows in place. Every
 method is one database transaction; its contract ties the new tables to the
 transaction functions of IngestionTables.
 */
module IngestionStore {
  import opened Prelude
  import opened IngestionTables

  class Repository {
    var docs: map<DocId, Doc>
    var jobs: seq<Job>
    var receipts: map<Key, Receipt>

    constructor ()
      ensures docs == map[] && jobs == [] && receipts == map[]
    {
      docs, jobs, receipts := map[], [], map[];
    }

    /** The tables as a transaction starting at time `now` sees them. */
    function At(now: nat): Tables
      reads this
    {
      Tables(now, docs, jobs, receipts)
    }

    method Create(now: nat, d: DocId, space: nat, status: DocStatus) returns (j: JobId)
      modifies this
      ensures At(now) == CreateTx(old(At(now)), d, space, status)
      ensures j == old(|jobs|)
    {
      docs := docs[d := Doc(space, status, None)];
      j := InsertJob(now, d, space, JobParsing, None);
    }

    method InsertJob(now: nat, d: DocId, space: nat, status: JobStatus, operation: Option<Key>) returns (j: JobId)
      modifies this`jobs
      ensures jobs == old(jobs) + [NewJob(now, d, space, status, operation)] && j == old(|jobs|)
    {
      j := |jobs|;
      jobs := jobs + [NewJob(now, d, space, status, operation)];
    }

    /** The rows of one receipt, at most two of them as in `LIMIT 2`. */
    method FindJobs(key: Key) returns (found: seq<JobId>)
      ensures |found| <= 2
      ensures forall i :: 0 <= i < |found| ==> found[i] in JobsOf(jobs, key)
      ensures |found| == 0 ==> JobsOf(jobs, key) == {}
      ensures |found| == 1 ==> JobsOf(jobs, key) == {found[0]}
      ensures |found| == 2 ==> found[0] != found[1]
    {
      found := [];
      for j := 0 to |jobs|
        invariant |found| <= 1
        invariant forall i :: 0 <= i < |found| ==> found[i] < j && found[i] in JobsOf(jobs, key)
        invariant forall k: JobId :: k < j && k in JobsOf(jobs, key) ==> k in found
      {
        if jobs[j].operation == Some(key) {
          found := found + [j];
          if |found| == 2 { return; }
        }
      }
    }

    method PrepareReindex(now: nat, key: Key, d: DocId, space: nat, fingerprint: Fingerprint)
      returns (outcome: ReindexOutcome)
      modifies this
      ensures At(now) == ReindexTx(old(At(now)), key, d, space, fingerprint)
      ensures outcome.Created? <==> key !in old(receipts) && AcceptsReindex(old(At(now)), d, space)
      ensures outcome.Created? ==> outcome.job == old(|jobs|)
      ensures key !in old(receipts) && !AcceptsReindex(old(At(now)), d, space) ==>
                outcome == if d in old(docs) && old(docs)[d].error == Some(SubmissionUnknown)
                           then ReconciliationRequired else StateConflict
      ensures key in old(receipts) ==>
                var r := old(receipts)[key];
                var rows := JobsOf(old(jobs), key);
                if r.fingerprint != fingerprint || r.document != d || r.space != space then outcome == KeyConflict
                else if rows == {} then outcome == Replayed(r, None)
                else if exists j :: j in rows && rows == {j} && Association(old(jobs), j, d, space)
                then outcome.Replayed? && outcome.receipt == r && outcome.replayedJob.Some?
                     && rows == {outcome.replayedJob.value}
                else outcome == ReconciliationRequired
    {
      // The statements run in one transaction on private copies; a raised error drops them.
      var newReceipts, newDocs := receipts, docs;
      var created := key !in newReceipts;
      if created { newReceipts := newReceipts[key := Receipt(d, space, fingerprint, Pending)]; }
      var receipt := newReceipts[key];
      if receipt.fingerprint != fingerprint || receipt.document != d || receipt.space != space {
        return KeyConflict;
      }
      if !created {
        var found := FindJobs(key);
        if |found| == 0 { return Replayed(receipt, None); }
        if |found| > 1 || jobs[found[0]].document != receipt.document || jobs[found[0]].space != receipt.space {
          return ReconciliationRequired;
        }
        return Replayed(receipt, Some(found[0]));
      }
      var updated := d in newDocs && newDocs[d].space == space && newDocs[d].status in {Ready, Failed}
                     && newDocs[d].error != Some(SubmissionUnknown);
      if updated { newDocs := newDocs[d := newDocs[d].(status := ReindexRequested, error := None)]; }
      if !updated {
        if d in newDocs && newDocs[d].error == Some(SubmissionUnknown) { return ReconciliationRequired; }
        return StateConflict;
      }
      receipts, docs := newReceipts, newDocs;
      var j := InsertJob(now, d, space, JobReindexRequested, Some(key));
      outcome := Created(j);
    }

    /** Is `j` the newest generation of its document? */
    method NewestGeneration(j: JobId) returns (newest: bool)
      requires j < |jobs|
      ensures newest == IsLatest(jobs, j)
    {
      for k := j + 1 to |jobs|
        invariant forall i :: j < i < k ==> jobs[i].document != jobs[j].document
      {
        if jobs[k].document == jobs[j].document { return false; }
      }
      newest := true;
    }

    /** claim: the eligible row that is due first, ties broken by id. */
    method Claim(now: nat, w: Owner, wanted: Option<JobId>) returns (claimed: Option<JobId>)
      modifies this`jobs
      ensures claimed.None? ==> jobs == old(jobs)
      ensures claimed.None? ==>
                forall j: JobId :: wanted.None? || wanted == Some(j) ==> !Eligible(old(At(now)), j)
      ensures claimed.Some? ==>
                && Eligible(old(At(now)), claimed.value)
                && (wanted.None? || wanted == claimed)
                && At(now) == ClaimTx(old(At(now)), claimed.value, w)
                && (forall j: JobId :: (wanted.None? || wanted == Some(j)) && Eligible(old(At(now)), j) ==>
                      || old(jobs)[claimed.value].nextAttempt < old(jobs)[j].nextAttempt
                      || (old(jobs)[claimed.value].nextAttempt == old(jobs)[j].nextAttempt && claimed.value <= j))
    {
      claimed := None;
      for j := 0 to |jobs|
        invariant jobs == old(jobs)
        invariant claimed.Some? ==> claimed.value < j && Eligible(At(now), claimed.value)
                                    && (wanted.None? || wanted == claimed)
        invariant forall k: JobId :: k < j && (wanted.None? || wanted == Some(k)) && Eligible(At(now), k) ==>
                    && claimed.Some?
                    && (|| jobs[claimed.value].nextAttempt < jobs[k].nextAttempt
                        || (jobs[claimed.value].nextAttempt == jobs[k].nextAttempt && claimed.value <= k))
      {
        var job := jobs[j];
        if (wanted.None? || wanted == Some(j)) && job.nextAttempt <= now && LeaseFree(job, now) && Open(job)
           && job.document in docs && ClaimableStatus(docs[job.document].status) {
          var newest := NewestGeneration(j);
          if newest && (claimed.None? || job.nextAttempt < jobs[claimed.value].nextAttempt) {
            claimed := Some(j);
          }
        }
      }
      if claimed.Some? {
        var j := claimed.value;
        jobs := jobs[j := jobs[j].(owner := Some(w), leaseUntil := Some(now + LEASE_SECONDS),
                                   attempts := jobs[j].attempts + 1)];
      }
    }

    method FenceSubmission(now: nat, j: JobId, w: Owner) returns (ok: bool)
      modifies this
      ensures At(now) == FenceTx(old(At(now)), j, w)
      ensures ok == FenceOpen(old(At(now)), j, w)
    {
      if !OwnedBy(At(now), j, w) { return false; }
      var job := jobs[j];
      ok := job.submission == NotSubmitted;
      if ok {
        jobs := jobs[j := job.(submission := Submitted, status := JobIndexing,
                               leaseUntil := Some(now + LEASE_SECONDS))];
        if job.document in docs {
          docs := docs[job.document := docs[job.document].(status := Indexing, error := None)];
        }
      }
    }

    method RecordTrack(now: nat, j: JobId, w: Owner, track: string) returns (ok: bool)
      modifies this`jobs
      ensures At(now) == RecordTrackTx(old(At(now)), j, w, track)
      ensures ok == OwnedBy(old(At(now)), j, w)
    {
      ok := OwnedBy(At(now), j, w);
      if ok {
        jobs := jobs[j := jobs[j].(track := Some(track), leaseUntil := Some(now + LEASE_SECONDS))];
      }
    }

    method Settle(now: nat, j: JobId, w: Owner, s: Settlement) returns (ok: bool)
      modifies this
      ensures At(now) == SettleTx(old(At(now)), j, w, s)
      ensures ok == OwnedBy(old(At(now)), j, w)
    {
      ok := OwnedBy(At(now), j, w);
      if !ok { return; }
      var closing := s.Fatal() || s.GivesUp();
      jobs := jobs[j := SettledJob(jobs[j], s, now)];
      var d := s.snapshot.document;
      if d in docs {
        docs := docs[d := docs[d].(status := if closing then Failed else Indexing, error := s.Error())];
      }
      var key := s.snapshot.operation;
      if closing && key.Some? && key.value in receipts {
        receipts := receipts[key.value := receipts[key.value].(status := ReceiptFailed)];
      }
    }

    /** A `false` result stands for the rolled back transaction of the raised error. */
    method PublishReady(now: nat, j: JobId, w: Owner, d: DocId, rag: string) returns (ok: bool)
      modifies this
      ensures At(now) == PublishTx(old(At(now)), j, w, d, rag)
      ensures ok == PublishCommits(old(At(now)), j, w, d)
    {
      if !OwnedBy(At(now), j, w) { return false; }
      // The statements below run in one transaction on private copies; only a full commit is stored.
      var newJob := jobs[j].(status := JobIndexing);
      var newDocs := docs;
      if d in newDocs && newDocs[d].status in {Indexing, Failed} {
        newDocs := newDocs[d := newDocs[d].(status := Indexing)];
      }
      newJob := newJob.(status := JobDone, submission := Terminal, error := None, owner := None,
                        leaseUntil := None, upstream := Some(rag));
      if d !in newDocs || newDocs[d].status != Indexing { return false; }
      newDocs := newDocs[d := newDocs[d].(status := Ready, error := None)];
      jobs, docs := jobs[j := newJob], newDocs;
      var key := newJob.operation;
      if key.Some? && key.value in receipts {
        receipts := receipts[key.value := receipts[key.value].(status := Completed)];
      }
      ok := true;
    }

    method TransitionStatus(now: nat, d: DocId, expected: set<DocStatus>, status: DocStatus, error: Option<ErrorCode>)
      returns (ok: bool)
      modifies this`docs
      ensures At(now) == TransitionTx(old(At(now)), d, expected, status, error)
      ensures ok == (d in old(docs) && old(docs)[d].status in expected)
    {
      if expected == {} { return false; }
      ok := d in docs && docs[d].status in expected;
      if ok { docs := docs[d := docs[d].(status := status, error := error)]; }
    }
  }
}

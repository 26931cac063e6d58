/**
 When a deletion is final. The delete request reads the document, refuses it while the
 submission outcome is unknown, and later moves the status by a compare-and-set that
 tests nothing else; here the compare-and-set stands alone.
 */
module IngestionDeletion {
  import opened Prelude
  import opened IngestionTables
  import opened IngestionProtocol
  import opened IngestionInvariant
  import opened IngestionTheorems

  // ----- the exact condition -----

  /**
   From every state with these tables, no run takes the document out of deleting or deleted after the bare
   compare-and-set.
   */
  ghost predicate FinalAfterDelete(t: Tables, d: DocId) {
    forall s: State, actions: seq<Action> :: s.t == t && CoreOk(s) ==> StaysDeleted(s, actions, d)
  }

  /** The run that starts with the bare compare-and-set leaves the document deleting or deleted. */
  predicate StaysDeleted(s: State, actions: seq<Action>, d: DocId) {
    Retired(Run(s.(t := DeleteTx(s.t, d)), actions).t, d)
  }

  predicate NoLiveLease(t: Tables, d: DocId) {
    forall j :: 0 <= j < |t.jobs| && t.jobs[j].document == d ==> LeaseFree(t.jobs[j], t.now)
  }

  /** Every worker holds a snapshot of a job of the same document as its row. */
  predicate SameDocument(t: Tables, pc: Pc) {
    pc.Stopped? || (pc.j < |t.jobs| && pc.Snapshot().document == t.jobs[pc.j].document)
  }

  predicate Snapshots(s: State) { forall w :: w in s.workers ==> SameDocument(s.t, s.workers[w]) }

  /** Nobody can write a row of the document any more; it may hold an open job. */
  predicate Sealed(s: State, d: DocId) { Retired(s.t, d) && NoLiveLease(s.t, d) && Snapshots(s) }

  lemma LocalStepKeepsSnapshot(s: State, a: Action, w: Owner)
    requires Runs(s, w) && IsLocal(a) && SameDocument(s.t, s.workers[w])
    ensures SameDocument(s.t, WorkerExec(s, a, w).workers[w])
  {
  }

  /** What the row steps of a worker leave alone: documents of other jobs, and rows it does not own. */
  predicate WritesAsOwner(s: State, s': State, w: Owner, j: JobId) {
    && j < |s.t.jobs| && |s'.t.jobs| == |s.t.jobs| && s'.t.now == s.t.now
    && (forall i :: 0 <= i < |s.t.jobs| ==> s'.t.jobs[i].document == s.t.jobs[i].document)
    && (forall i :: 0 <= i < |s.t.jobs| && i != j ==> s'.t.jobs[i] == s.t.jobs[i])
    && s.t.docs.Keys <= s'.t.docs.Keys
    && (forall d :: d in s.t.docs && d != s.t.jobs[j].document ==> s'.t.docs[d] == s.t.docs[d])
    && (!OwnedBy(s.t, j, w) ==> s'.t == s.t)
    && w in s'.workers && s'.workers == s.workers[w := s'.workers[w]] && SameDocument(s'.t, s'.workers[w])
  }

  lemma RowStepWritesAsOwner(s: State, a: Action, w: Owner)
    requires Runs(s, w) && (a.Fence? || a.Record? || a.Publish? || a.Settle?) && SameDocument(s.t, s.workers[w])
    ensures WritesAsOwner(s, WorkerExec(s, a, w), w, s.workers[w].j)
  {
    if a.Fence? { FenceWritesAsOwner(s, a, w); }
    else if a.Record? { RecordWritesAsOwner(s, a, w); }
    else if a.Publish? { PublishWritesAsOwner(s, a, w); }
    else { SettleWritesAsOwner(s, a, w); }
  }

  lemma FenceWritesAsOwner(s: State, a: Action, w: Owner)
    requires Runs(s, w) && a.Fence? && SameDocument(s.t, s.workers[w])
    ensures WritesAsOwner(s, WorkerExec(s, a, w), w, s.workers[w].j)
  {
  }

  lemma RecordWritesAsOwner(s: State, a: Action, w: Owner)
    requires Runs(s, w) && a.Record? && SameDocument(s.t, s.workers[w])
    ensures WritesAsOwner(s, WorkerExec(s, a, w), w, s.workers[w].j)
  {
  }

  lemma PublishWritesAsOwner(s: State, a: Action, w: Owner)
    requires Runs(s, w) && a.Publish? && SameDocument(s.t, s.workers[w])
    ensures WritesAsOwner(s, WorkerExec(s, a, w), w, s.workers[w].j)
  {
  }

  lemma SettleWritesAsOwner(s: State, a: Action, w: Owner)
    requires Runs(s, w) && a.Settle? && SameDocument(s.t, s.workers[w])
    ensures WritesAsOwner(s, WorkerExec(s, a, w), w, s.workers[w].j)
  {
  }

  lemma OwnerWriteKeepsSealed(s: State, s': State, w: Owner, j: JobId, d: DocId)
    requires Sealed(s, d) && WritesAsOwner(s, s', w, j)
    ensures Sealed(s', d)
  {
    if s.t.jobs[j].document == d { assert LeaseFree(s.t.jobs[j], s.t.now) && s'.t == s.t; }
    forall v | v in s'.workers ensures SameDocument(s'.t, s'.workers[v]) {
      if v != w { assert SameDocument(s.t, s.workers[v]); }
    }
  }

  lemma MoveKeepsSealed(s: State, s': State, w: Owner, d: DocId)
    requires Sealed(s, d) && s'.t == s.t && w in s'.workers && s'.workers == s.workers[w := s'.workers[w]]
    requires SameDocument(s.t, s'.workers[w])
    ensures Sealed(s', d)
  {
  }

  lemma WorkerStepKeepsSealed(s: State, a: Action, w: Owner, d: DocId)
    requires Sealed(s, d) && Runs(s, w) && IsWorkerAction(a)
    ensures Sealed(WorkerExec(s, a, w), d)
  {
    assert SameDocument(s.t, s.workers[w]);
    if IsLocal(a) {
      LocalStepFrame(s, a, w);
      LocalStepKeepsSnapshot(s, a, w);
      MoveKeepsSealed(s, WorkerExec(s, a, w), w, d);
    } else {
      RowStepWritesAsOwner(s, a, w);
      OwnerWriteKeepsSealed(s, WorkerExec(s, a, w), w, s.workers[w].j, d);
    }
  }

  /** Steps of the environment add jobs to other documents only, and move the document only to deleted. */
  lemma EnvironmentKeepsSealed(s: State, a: Action, d: DocId)
    requires Sealed(s, d) && !IsWorkerAction(a) && !a.Claim?
    ensures Sealed(Exec(s, a), d)
  {
    if IsDeletion(a) { DeletionSparesRetired(s, a, d); } else { EnvironmentSparesRetired(s, a, d); }
    EnvironmentAddsJobs(s, a, d);
    AddedJobsKeepSealed(s, Exec(s, a), d);
  }

  /** Jobs are only added, unowned, and time only goes on. */
  predicate AddsJobs(s: State, s': State) {
    && s'.workers == s.workers && s.t.now <= s'.t.now && |s.t.jobs| <= |s'.t.jobs|
    && (forall j :: 0 <= j < |s.t.jobs| ==> s'.t.jobs[j] == s.t.jobs[j])
    && (forall j :: |s.t.jobs| <= j < |s'.t.jobs| ==> s'.t.jobs[j].leaseUntil.None?)
  }

  lemma EnvironmentAddsJobs(s: State, a: Action, d: DocId)
    requires !IsWorkerAction(a) && !a.Claim?
    ensures AddsJobs(s, Exec(s, a))
  {
  }

  lemma AddedJobsKeepSealed(s: State, s': State, d: DocId)
    requires Sealed(s, d) && AddsJobs(s, s') && Retired(s'.t, d)
    ensures Sealed(s', d)
  {
    forall v | v in s'.workers ensures SameDocument(s'.t, s'.workers[v]) { assert SameDocument(s.t, s.workers[v]); }
  }

  /** A claim needs a claimable document, and a retired one is not. */
  lemma ClaimKeepsSealed(s: State, w: Owner, j: JobId, d: DocId)
    requires Sealed(s, d)
    ensures Sealed(Exec(s, Claim(w, j)), d)
  {
    var s' := Exec(s, Claim(w, j));
    if w !in s.workers && Eligible(s.t, j) {
      assert s.t.jobs[j].document != d;
      forall v | v in s'.workers ensures SameDocument(s'.t, s'.workers[v]) {
        if v != w { assert SameDocument(s.t, s.workers[v]); }
      }
    }
  }

  lemma StepKeepsSealed(s: State, a: Action, d: DocId)
    requires Sealed(s, d)
    ensures Sealed(Exec(s, a), d)
  {
    if a.Claim? {
      ClaimKeepsSealed(s, a.w, a.j, d);
    } else if !IsWorkerAction(a) {
      EnvironmentKeepsSealed(s, a, d);
    } else if Runs(s, a.w) {
      WorkerStepKeepsSealed(s, a, a.w, d);
    }
  }

  lemma {:induction false} RunKeepsSealed(s: State, actions: seq<Action>, d: DocId)
    requires Sealed(s, d)
    ensures Sealed(Run(s, actions), d)
  {
    if actions != [] {
      RunKeepsSealed(s, actions[..|actions| - 1], d);
      StepKeepsSealed(Run(s, actions[..|actions| - 1]), actions[|actions| - 1], d);
    }
  }

  /** A closed row carries no lease, so only the newest job of a document can. */
  lemma OnlyNewestIsLeased(t: Tables, d: DocId, j: JobId)
    requires TablesOk(t) && j < |t.jobs| && t.jobs[j].document == d && IsLatest(t.jobs, j)
    ensures NoLiveLease(t, d) <==> LeaseFree(t.jobs[j], t.now)
    ensures !Open(t.jobs[j]) ==> LeaseFree(t.jobs[j], t.now)
  {
    forall i | 0 <= i < |t.jobs| && t.jobs[i].document == d && i != j ensures t.jobs[i].leaseUntil.None? {
      assert i < j && !Open(t.jobs[i]);
    }
  }

  /** The owner of the row, whose attempt has just raised an error, and no other running worker. */
  function OwnerInHandler(t: Tables, j: JobId, w: Owner): State
    requires j < |t.jobs|
  {
    var stopped := map i | 0 <= i < |t.jobs| && t.jobs[i].owner.Some? :: t.jobs[i].owner.value := Stopped;
    State(t, stopped[w := Handling(j, t.jobs[j])], map[], [])
  }

  lemma OwnerInHandlerIsOk(t: Tables, j: JobId, w: Owner)
    requires TablesOk(t) && j < |t.jobs|
    ensures CoreOk(OwnerInHandler(t, j, w))
  {
    OwnerInHandlerWorkers(t, j, w);
  }

  lemma OwnerInHandlerWorkers(t: Tables, j: JobId, w: Owner)
    requires j < |t.jobs|
    ensures WorkersOk(OwnerInHandler(t, j, w))
  {
    var s := OwnerInHandler(t, j, w);
    forall i | 0 <= i < |t.jobs| && t.jobs[i].owner.Some? ensures t.jobs[i].owner.value in s.workers { }
  }

  /** With a live lease, the owner's settlement takes the document out of deleting. */
  lemma LiveLeaseEscapes(t: Tables, d: DocId, j: JobId, w: Owner)
    requires d in t.docs && t.docs[d].status in {Ready, Failed}
    requires j < |t.jobs| && t.jobs[j].document == d && OwnedBy(t, j, w)
    ensures !StaysDeleted(OwnerInHandler(t, j, w), [Handle(w), Settle(w, false)], d)
  {
    var raced := OwnerInHandler(t, j, w).(t := DeleteTx(t, d));
    var s1 := HandlerSettles(raced, w, j);
    assert OwnedBy(s1.t, j, w);
    SettleTakesBack(s1, w, j, d);
    RunOfTwo(raced, Handle(w), Settle(w, false));
  }

  lemma HandlerSettles(s: State, w: Owner, j: JobId) returns (s': State)
    requires Runs(s, w) && j < |s.t.jobs| && s.workers[w] == Handling(j, s.t.jobs[j])
    ensures s' == Exec(s, Handle(w)) && s'.t == s.t && Runs(s', w)
    ensures s'.workers[w].Settling? && s'.workers[w].j == j && s'.workers[w].settlement.snapshot == s.t.jobs[j]
  {
    s' := Exec(s, Handle(w));
  }

  /** A settlement by the owner writes a status that is neither deleting nor deleted. */
  lemma SettleTakesBack(s: State, w: Owner, j: JobId, d: DocId)
    requires Runs(s, w) && OwnedBy(s.t, j, w) && d in s.t.docs && s.workers[w].Settling? && s.workers[w].j == j
    requires s.workers[w].settlement.snapshot.document == d
    ensures !Retired(Exec(s, Settle(w, false)).t, d)
  {
  }

  lemma LiveLeaseIsOwned(t: Tables, j: JobId)
    requires JobsShaped(t) && j < |t.jobs| && !LeaseFree(t.jobs[j], t.now)
    ensures t.jobs[j].owner.Some? && OwnedBy(t, j, t.jobs[j].owner.value)
  {
  }

  lemma LeaseFreeIsFinal(t: Tables, d: DocId)
    requires d in t.docs && t.docs[d].status in {Ready, Failed} && NoLiveLease(t, d)
    ensures FinalAfterDelete(t, d)
  {
    forall s: State, actions: seq<Action> | s.t == t && CoreOk(s) ensures StaysDeleted(s, actions, d) {
      var raced := s.(t := DeleteTx(t, d));
      assert Snapshots(raced);
      RunKeepsSealed(raced, actions, d);
    }
  }

  lemma EscapeIsNotFinal(s: State, actions: seq<Action>, d: DocId)
    requires CoreOk(s) && !StaysDeleted(s, actions, d)
    ensures !FinalAfterDelete(s.t, d)
  {
  }

  lemma LiveLeaseIsNotFinal(t: Tables, d: DocId, j: JobId)
    requires TablesOk(t) && d in t.docs && t.docs[d].status in {Ready, Failed}
    requires j < |t.jobs| && t.jobs[j].document == d && !LeaseFree(t.jobs[j], t.now)
    ensures !FinalAfterDelete(t, d)
  {
    LiveLeaseIsOwned(t, j);
    var w := t.jobs[j].owner.value;
    OwnerInHandlerIsOk(t, j, w);
    LiveLeaseEscapes(t, d, j, w);
    EscapeIsNotFinal(OwnerInHandler(t, j, w), [Handle(w), Settle(w, false)], d);
  }

  /** The bare compare-and-set is final in every run if and only if no job of the document carries a live lease. */
  lemma DeleteIsFinalExactly(t: Tables, d: DocId)
    requires TablesOk(t) && d in t.docs && t.docs[d].status in {Ready, Failed}
    ensures FinalAfterDelete(t, d) <==> NoLiveLease(t, d)
  {
    if NoLiveLease(t, d) {
      LeaseFreeIsFinal(t, d);
    } else {
      var j: nat :| j < |t.jobs| && t.jobs[j].document == d && !LeaseFree(t.jobs[j], t.now);
      LiveLeaseIsNotFinal(t, d, j);
    }
  }

  /** In terms of the newest job: final if and only if that job is closed or its lease has run out. */
  lemma DeleteCheckIsExact(t: Tables, d: DocId, j: JobId)
    requires TablesOk(t) && d in t.docs && t.docs[d].status in {Ready, Failed}
    requires j < |t.jobs| && t.jobs[j].document == d && IsLatest(t.jobs, j)
    ensures FinalAfterDelete(t, d) <==> !Open(t.jobs[j]) || LeaseFree(t.jobs[j], t.now)
  {
    OnlyNewestIsLeased(t, d, j);
    DeleteIsFinalExactly(t, d);
  }

  /**
   The check, while it holds, implies that condition; a state where the compare-and-set is not final is refused by the
   check.
   */
  lemma CheckMakesDeleteFinal(t: Tables, d: DocId)
    requires TablesOk(t) && d in t.docs && t.docs[d].status in {Ready, Failed}
    ensures MayDelete(t, d) ==> FinalAfterDelete(t, d)
    ensures !FinalAfterDelete(t, d) ==> t.docs[d].status == Failed && t.docs[d].error == Some(SubmissionUnknown)
  {
    DeleteIsFinalExactly(t, d);
    if t.docs[d].status == Ready || t.docs[d].error != Some(SubmissionUnknown) {
      forall j | 0 <= j < |t.jobs| && t.jobs[j].document == d
        ensures LeaseFree(t.jobs[j], t.now)
      {
        RestingDocument(t, d, j);
      }
    }
  }

  // ----- a check that has become stale -----

  /** The job was submitted, its outcome is unknown after n attempts, and the owners from `first` on are unused. */
  predicate Unanswered(s: State, d: DocId, j: JobId, n: nat, first: Owner) {
    && Inv(s) && j < |s.t.jobs|
    && s.t.jobs[j].document == d && s.t.jobs[j].submission == Submitted && !s.t.jobs[j].legacy
       && s.t.jobs[j].attempts == n
    && (forall w :: w in s.workers ==> w < first)
    && (n >= 6 ==> d in s.t.docs && s.t.docs[d].status == Failed && s.t.docs[d].error == Some(SubmissionUnknown))
  }

  /** The owner of a row settles it with an unknown outcome. */
  lemma UnknownSettles(s: State, w: Owner, j: JobId) returns (s': State)
    requires Runs(s, w) && j < |s.t.jobs| && s.workers[w] == Reconciling(j, s.t.jobs[j]) && OwnedBy(s.t, j, w)
    ensures s' == Run(s, [Reconcile(w, UnknownUpstream, None), Settle(w, false)])
    ensures s'.t == SettleTx(s.t, j, w, Settlement(s.t.jobs[j], UnknownUpstream, None, None))
            && s'.workers.Keys == s.workers.Keys
  {
    RunOfTwo(s, Reconcile(w, UnknownUpstream, None), Settle(w, false));
    var s1 := Exec(s, Reconcile(w, UnknownUpstream, None));
    assert s1 == Go(s, w, Settling(j, Settlement(s.t.jobs[j], UnknownUpstream, None, None), false));
    s' := Exec(s1, Settle(w, false));
  }

  /** The answer to the POST is lost, and the handler settles the row with an unknown outcome. */
  lemma LostPostSettles(s: State, w: Owner, j: JobId) returns (s': State)
    requires Runs(s, w) && j < |s.t.jobs| && s.workers[w] == Fencing(j, s.t.jobs[j]) && FenceOpen(s.t, j, w)
    ensures s' == Run(s, [Fence(w), Post(w, None), Handle(w), Settle(w, false)])
    ensures s'.t == SettleTx(FenceTx(s.t, j, w), j, w, Settlement(s.t.jobs[j], UnknownUpstream, None, None))
    ensures s'.workers.Keys == s.workers.Keys
  {
    RunOfFour(s, Fence(w), Post(w, None), Handle(w), Settle(w, false));
    var s2 := FenceAndLose(s, w, j);
    s' := HandleUnknown(s2, w, j, s.t.jobs[j]);
  }

  lemma FenceAndLose(s: State, w: Owner, j: JobId) returns (s': State)
    requires Runs(s, w) && j < |s.t.jobs| && s.workers[w] == Fencing(j, s.t.jobs[j]) && FenceOpen(s.t, j, w)
    ensures s' == Exec(Exec(s, Fence(w)), Post(w, None))
    ensures s'.t == FenceTx(s.t, j, w) && s'.workers == s.workers[w := Handling(j, s.t.jobs[j])]
  {
    var s1 := Exec(s, Fence(w));
    assert s1.t == FenceTx(s.t, j, w) && s1.workers == s.workers[w := Posting(j, s.t.jobs[j])];
    s' := Exec(s1, Post(w, None));
  }

  lemma HandleUnknown(s: State, w: Owner, j: JobId, snap: Job) returns (s': State)
    requires Runs(s, w) && j < |s.t.jobs| && s.workers[w] == Handling(j, snap) && s.t.jobs[j].submission != NotSubmitted
    ensures s' == Exec(Exec(s, Handle(w)), Settle(w, false))
    ensures s'.t == SettleTx(s.t, j, w, Settlement(snap, UnknownUpstream, None, None))
    ensures s'.workers.Keys == s.workers.Keys
  {
    var s1 := Exec(s, Handle(w));
    assert s1 == Go(s, w, Settling(j, Settlement(snap, UnknownUpstream, None, None), true));
    s' := Exec(s1, Settle(w, false));
  }

  /** What an unknown settlement leaves: the job submitted, and the document given up from the sixth attempt on. */
  lemma UnknownSettlement(t: Tables, j: JobId, w: Owner, snap: Job)
    requires OwnedBy(t, j, w) && t.jobs[j].submission == Submitted && t.jobs[j].document == snap.document
             && snap.document in t.docs
    ensures var t' := SettleTx(t, j, w, Settlement(snap, UnknownUpstream, None, None));
            && j < |t'.jobs| && t'.jobs[j].submission == Submitted && SameJob(t.jobs[j], t'.jobs[j])
            && t'.jobs[j].attempts == t.jobs[j].attempts && snap.document in t'.docs
            && (snap.attempts >= 6 ==>
                  t'.docs[snap.document].status == Failed && t'.docs[snap.document].error == Some(SubmissionUnknown))
  {
  }

  function Approach(w: Owner, j: JobId): seq<Action> { [Tick(256), Claim(w, j), CheckLegacy(w), Route(w, None)] }

  /** One more attempt with an unknown answer. */
  lemma UnknownRound(s: State, d: DocId, j: JobId, n: nat, w: Owner) returns (actions: seq<Action>)
    requires Unanswered(s, d, j, n, w)
    ensures Unanswered(Run(s, actions), d, j, n + 1, w + 1)
  {
    var mid := RoutePath(s, w, j);
    OpenIsLatest(s.t, j);
    var s' := UnknownSettles(mid, w, j);
    RunConcat(s, Approach(w, j), [Reconcile(w, UnknownUpstream, None), Settle(w, false)]);
    actions := Approach(w, j) + [Reconcile(w, UnknownUpstream, None), Settle(w, false)];
    UnknownSettlement(mid.t, j, w, mid.t.jobs[j]);
    OneMoreOwner(s, mid, w);
    RunKeepsInv(s, actions);
  }

  lemma OneMoreOwner(s: State, s': State, w: Owner)
    requires (forall v :: v in s.workers ==> v < w) && s'.workers.Keys == s.workers.Keys + {w}
    ensures forall v :: v in s'.workers ==> v < w + 1
  {
    forall v | v in s'.workers ensures v < w + 1 { assert v in s.workers.Keys + {w}; }
  }

  lemma {:induction false} UnknownRounds(s: State, d: DocId, j: JobId, n: nat, w: Owner, k: nat)
    returns (actions: seq<Action>)
    requires Unanswered(s, d, j, n, w)
    ensures Unanswered(Run(s, actions), d, j, n + k, w + k)
    decreases k
  {
    actions := [];
    if k > 0 {
      var first := UnknownRound(s, d, j, n, w);
      var rest := UnknownRounds(Run(s, first), d, j, n + 1, w + 1, k - 1);
      RunConcat(s, first, rest);
      actions := first + rest;
    }
  }

  function LostPost(w: Owner): seq<Action> { [Fence(w), Post(w, None), Handle(w), Settle(w, false)] }

  lemma ReindexStarts(s: State, d: DocId, key: Key) returns (request: seq<Action>)
    requires Inv(s) && MayDelete(s.t, d) && key !in s.t.receipts
    ensures var s', j := Run(s, request), |s.t.jobs|;
            && Inv(s') && s'.workers == s.workers && j < |s'.t.jobs| && s'.t.jobs[j].document == d && d in s'.t.docs
            && s'.t.jobs[j].submission == NotSubmitted && !s'.t.jobs[j].legacy && s'.t.jobs[j].attempts == 0
               && Open(s'.t.jobs[j])
  {
    request := [Reindex(key, d, s.t.docs[d].space, "")];
    RunKeepsInv(s, request);
    RunOfOne(s, request[0]);
  }

  /** A first attempt whose POST is never answered. */
  lemma LostAttempt(s: State, d: DocId, j: JobId, w: Owner) returns (actions: seq<Action>)
    requires Inv(s) && (forall v :: v in s.workers ==> v < w) && j < |s.t.jobs| && s.t.jobs[j].document == d
             && d in s.t.docs
    requires s.t.jobs[j].submission == NotSubmitted && !s.t.jobs[j].legacy && s.t.jobs[j].attempts == 0
             && Open(s.t.jobs[j])
    ensures Unanswered(Run(s, actions), d, j, 1, w + 1)
  {
    var mid := RoutePath(s, w, j);
    assert FenceOpen(mid.t, j, w);
    var s' := LostPostSettles(mid, w, j);
    RunConcat(s, Approach(w, j), LostPost(w));
    actions := Approach(w, j) + LostPost(w);
    UnknownSettlement(FenceTx(mid.t, j, w), j, w, mid.t.jobs[j]);
    OneMoreOwner(s, mid, w);
    RunKeepsInv(s, actions);
  }

  /** A reindex request for a document that may be deleted, and a first attempt whose POST is never answered. */
  lemma FirstUnknown(s: State, d: DocId, key: Key, w: Owner) returns (actions: seq<Action>)
    requires Inv(s) && MayDelete(s.t, d) && key !in s.t.receipts && (forall v :: v in s.workers ==> v < w)
    ensures Unanswered(Run(s, actions), d, |s.t.jobs|, 1, w + 1)
  {
    var request := ReindexStarts(s, d, key);
    var lost := LostAttempt(Run(s, request), d, |s.t.jobs|, w);
    RunConcat(s, request, lost);
    actions := request + lost;
  }

  lemma RunOfOne(s: State, a: Action)
    ensures Run(s, [a]) == Exec(s, a)
  {
    assert [a][..0] == [];
    assert Run(s, []) == s;
  }

  /**
   After `between` the check refuses, the compare-and-set still fires, and `after` takes the document out of deleting.
   */
  predicate Escapes(s: State, d: DocId, between: seq<Action>, after: seq<Action>) {
    var late := Run(s, between);
    var raced := late.(t := DeleteTx(late.t, d));
    && !MayDelete(late.t, d)
    && d in raced.t.docs && raced.t.docs[d].status == Deleting && !Retired(Run(raced, after).t, d)
  }

  /** An owner that reconciles while the document is moved to deleting takes it out again when it settles. */
  lemma SettlementEscapes(s: State, d: DocId, j: JobId, n: nat, w: Owner)
    returns (between: seq<Action>, after: seq<Action>)
    requires Unanswered(s, d, j, n, w) && n >= 6
    ensures Escapes(s, d, between, after)
  {
    var claimed := RoutePath(s, w, j);
    var raced := claimed.(t := DeleteTx(claimed.t, d));
    assert OwnedBy(raced.t, j, w) && raced.workers[w] == Reconciling(j, raced.t.jobs[j]);
    var s' := UnknownSettles(raced, w, j);
    between, after := Approach(w, j), [Reconcile(w, UnknownUpstream, None), Settle(w, false)];
  }

  lemma EscapesAfter(s: State, d: DocId, first: seq<Action>, between: seq<Action>, after: seq<Action>)
    requires Escapes(Run(s, first), d, between, after)
    ensures Escapes(s, d, first + between, after)
  {
    RunConcat(s, first, between);
  }

  /**
   From every state of the invariant in which the check passes there is a run after which the compare-and-set
   still fires, and a late settlement then takes the document out of deleting: the check has become stale.
   */
  lemma StaleDeleteCheckEscapes(s: State, d: DocId, key: Key, first: Owner)
    returns (between: seq<Action>, after: seq<Action>)
    requires Inv(s) && MayDelete(s.t, d) && key !in s.t.receipts && (forall v :: v in s.workers ==> v < first)
    ensures Escapes(s, d, between, after)
  {
    var lost := FirstUnknown(s, d, key, first);
    var rounds := UnknownRounds(Run(s, lost), d, |s.t.jobs|, 1, first + 1, 5);
    var claim, last := SettlementEscapes(Run(Run(s, lost), rounds), d, |s.t.jobs|, 6, first + 6);
    EscapesAfter(Run(s, lost), d, rounds, claim, last);
    EscapesAfter(s, d, lost, rounds + claim, last);
    between, after := lost + (rounds + claim), last;
  }

  /** A database at rest from which that run starts. */
  lemma StaleDeleteHappens() returns (s: State, between: seq<Action>, after: seq<Action>)
    ensures Init(s) && MayDelete(s.t, 0)
    ensures Escapes(s, 0, between, after)
  {
    var job := Job(0, 0, JobDone, Terminal, None, None, None, 1, 0, None, Some("id"), None, false);
    s := State(Tables(0, map[0 := Doc(0, Ready, None)], [job], map[]), map[], map[], []);
    between, after := StaleDeleteCheckEscapes(s, 0, "key", 0);
  }
}

/** What every run of the ingestion protocol keeps, stated over all sequences of actions. */
module IngestionTheorems {
  import opened Prelude
  import opened IngestionTables
  import opened IngestionProtocol
  import opened IngestionInvariant

  // ----- the event log -----

  predicate FencesOk(s: State) {
    && (forall i :: 0 <= i < |s.log| && s.log[i].Fenced? ==>
          && s.log[i].j < |s.t.jobs| && s.t.jobs[s.log[i].j].submission != NotSubmitted
          && s.log[i].w in s.workers)
    && (forall a, b :: 0 <= a < b < |s.log| && s.log[a].Fenced? && s.log[b].Fenced? ==> s.log[a].j != s.log[b].j)
  }

  predicate PostsOk(log: seq<Event>) {
    && (forall b :: 0 <= b < |log| && log[b].PostSent? ==> Fenced(log[b].w, log[b].j) in log[..b])
    && (forall a, b :: 0 <= a < b < |log| && log[a].PostSent? && log[b].PostSent? ==> log[a].j != log[b].j)
  }

  predicate AboutToPost(s: State, w: Owner, j: JobId) {
    && Fenced(w, j) in s.log
    && forall i :: 0 <= i < |s.log| && s.log[i].PostSent? ==> s.log[i].j != j
  }

  predicate PostersOk(s: State) {
    forall w :: w in s.workers && s.workers[w].Posting? ==> AboutToPost(s, w, s.workers[w].j)
  }

  predicate DeletionsOk(s: State) {
    && (forall b :: 0 <= b < |s.log| ==>
          && (s.log[b].SourceCleaned? ==> ProbedAbsent(s.log[b].r, s.log[b].d) in s.log[..b])
          && (s.log[b].MarkedDeleted? ==> SourceCleaned(s.log[b].r, s.log[b].d) in s.log[..b]))
    && (forall r :: r in s.deleters ==>
          && (s.deleters[r].Cleaning? ==> ProbedAbsent(r, s.deleters[r].d) in s.log)
          && (s.deleters[r].Finishing? ==> SourceCleaned(r, s.deleters[r].d) in s.log))
  }

  predicate LogOk(s: State) { FencesOk(s) && PostsOk(s.log) && PostersOk(s) && DeletionsOk(s) }

  predicate Inv(s: State) { CoreOk(s) && LogOk(s) }

  /** Any consistent database at rest: no worker, no deletion in flight, no row owned, nothing logged. */
  predicate Init(s: State) {
    && TablesOk(s.t) && s.workers == map[] && s.deleters == map[] && s.log == []
    && forall j :: 0 <= j < |s.t.jobs| ==> s.t.jobs[j].owner.None?
  }

  /** Row changes allowed along a run: identities are fixed, the fence is never reopened, done is final. */
  predicate Evolves(t: Tables, t': Tables) {
    && t.now <= t'.now
    && |t.jobs| <= |t'.jobs|
    && (forall j :: 0 <= j < |t.jobs| ==>
          && SameJob(t.jobs[j], t'.jobs[j])
          && (t.jobs[j].submission != NotSubmitted ==> t'.jobs[j].submission != NotSubmitted)
          && (!Open(t.jobs[j]) ==> t'.jobs[j] == t.jobs[j]))
    && t.docs.Keys <= t'.docs.Keys
    && t.receipts.Keys <= t'.receipts.Keys
  }

  lemma StepEvolves(s: State, a: Action)
    requires JobsShaped(s.t)
    ensures Evolves(s.t, Exec(s, a).t)
  {
    if IsDeletion(a) { DeletionStepEvolves(s, a); }
    else if !IsWorkerAction(a) { OtherStepEvolves(s, a); }
    else if Runs(s, a.w) { WorkerStepEvolves(s, a, a.w); }
  }

  lemma DeletionStepEvolves(s: State, a: Action)
    requires IsDeletion(a)
    ensures Evolves(s.t, Exec(s, a).t)
  {
    if Exec(s, a).t != s.t {
      var d, doc := DeletionRetires(s, a);
      DocumentChangeEvolves(s.t, d, doc);
    }
  }

  lemma DocumentChangeEvolves(t: Tables, d: DocId, doc: Doc)
    ensures Evolves(t, t.(docs := t.docs[d := doc]))
  {
  }

  lemma OtherStepEvolves(s: State, a: Action)
    requires !IsDeletion(a) && !IsWorkerAction(a)
    ensures Evolves(s.t, Exec(s, a).t)
  {
  }

  lemma WorkerStepEvolves(s: State, a: Action, w: Owner)
    requires JobsShaped(s.t) && Runs(s, w) && IsWorkerAction(a)
    ensures Evolves(s.t, WorkerExec(s, a, w).t)
  {
    if IsLocal(a) { LocalStepFrame(s, a, w); } else { RowStepEvolves(s, a, w); }
  }

  /** An owned row is open, so a closed one is never written. */
  lemma RowStepEvolves(s: State, a: Action, w: Owner)
    requires JobsShaped(s.t) && Runs(s, w) && (a.Fence? || a.Record? || a.Publish? || a.Settle?)
    ensures Evolves(s.t, WorkerExec(s, a, w).t)
  {
    var pc := s.workers[w];
    if a.Fence? { FenceEvolves(s.t, pc.j, w); }
    else if a.Publish? && pc.Publishing? { PublishEvolves(s.t, pc.j, w, pc.snap.document, pc.rag); }
    else if a.Settle? && pc.Settling? { SettleEvolves(s.t, pc.j, w, pc.settlement); }
  }

  lemma FenceEvolves(t: Tables, j: JobId, w: Owner)
    requires JobsShaped(t)
    ensures Evolves(t, FenceTx(t, j, w))
  {
  }

  lemma PublishEvolves(t: Tables, j: JobId, w: Owner, d: DocId, rag: string)
    requires JobsShaped(t)
    ensures Evolves(t, PublishTx(t, j, w, d, rag))
  {
  }

  lemma SettleEvolves(t: Tables, j: JobId, w: Owner, settlement: Settlement)
    requires JobsShaped(t)
    ensures Evolves(t, SettleTx(t, j, w, settlement))
  {
  }

  /** No deleter has moved on to cleaning or finishing. */
  predicate DeletersStay(s: State, s': State) {
    forall r :: r in s'.deleters && (s'.deleters[r].Cleaning? || s'.deleters[r].Finishing?) ==>
      r in s.deleters && s.deleters[r] == s'.deleters[r]
  }

  predicate PostersStay(s: State, s': State) {
    && s.workers.Keys <= s'.workers.Keys
    && forall w :: w in s'.workers && s'.workers[w].Posting? ==> w in s.workers && s.workers[w] == s'.workers[w]
  }

  /** A step that logs nothing and starts no POST keeps the log facts. */
  lemma SilentKeepsLog(s: State, s': State)
    requires LogOk(s) && s'.log == s.log && Evolves(s.t, s'.t) && PostersStay(s, s') && DeletersStay(s, s')
    ensures LogOk(s')
  {
    forall w | w in s'.workers && s'.workers[w].Posting? ensures AboutToPost(s', w, s'.workers[w].j) {
      assert AboutToPost(s, w, s.workers[w].j);
    }
  }

  /** An event that is no POST leaves the record of POSTs as it is. */
  lemma OtherEventKeepsPosts(log: seq<Event>, e: Event)
    requires PostsOk(log) && !e.PostSent?
    ensures PostsOk(log + [e])
  {
    assert forall b :: 0 <= b <= |log| ==> (log + [e])[..b] == log[..b];
  }

  lemma OtherEventKeepsPoster(s: State, s': State, e: Event, w: Owner, j: JobId)
    requires AboutToPost(s, w, j) && s'.log == s.log + [e] && !e.PostSent?
    ensures AboutToPost(s', w, j)
  {
  }

  /** A job that is still unfenced has had no POST. */
  lemma UnfencedHasNoPost(s: State, j: JobId, i: nat)
    requires FencesOk(s) && PostsOk(s.log) && j < |s.t.jobs| && s.t.jobs[j].submission == NotSubmitted
    requires i < |s.log| && s.log[i].PostSent?
    ensures s.log[i].j != j
  {
    var k :| 0 <= k < i && s.log[k] == Fenced(s.log[i].w, s.log[i].j);
  }

  lemma FenceKeepsFences(s: State, s': State, w: Owner, j: JobId)
    requires FencesOk(s) && Evolves(s.t, s'.t) && s.workers.Keys <= s'.workers.Keys && s'.log == s.log + [Fenced(w, j)]
    requires j < |s.t.jobs| && s.t.jobs[j].submission == NotSubmitted && s'.t.jobs[j].submission != NotSubmitted
             && w in s.workers
    ensures FencesOk(s')
  {
  }

  lemma FenceKeepsPosters(s: State, s': State, w: Owner, j: JobId)
    requires FencesOk(s) && PostsOk(s.log) && PostersOk(s) && s'.log == s.log + [Fenced(w, j)]
    requires j < |s.t.jobs| && s.t.jobs[j].submission == NotSubmitted
    requires w in s'.workers && s'.workers == s.workers[w := s'.workers[w]] && s'.workers[w].Posting?
             && s'.workers[w].j == j
    ensures PostersOk(s')
  {
    forall v | v in s'.workers && s'.workers[v].Posting? ensures AboutToPost(s', v, s'.workers[v].j) {
      if v == w {
        assert s'.log[|s.log|] == Fenced(w, j);
        forall i | 0 <= i < |s'.log| && s'.log[i].PostSent? ensures s'.log[i].j != j { UnfencedHasNoPost(s, j, i); }
      } else {
        OtherEventKeepsPoster(s, s', Fenced(w, j), v, s.workers[v].j);
      }
    }
  }

  lemma FenceKeepsLog(s: State, w: Owner)
    requires LogOk(s) && Runs(s, w) && s.workers[w].Fencing? && FenceOpen(s.t, s.workers[w].j, w)
    requires Evolves(s.t, WorkerExec(s, Fence(w), w).t)
    ensures LogOk(WorkerExec(s, Fence(w), w))
  {
    var s' := WorkerExec(s, Fence(w), w);
    var j := s.workers[w].j;
    FenceKeepsFences(s, s', w, j);
    OtherEventKeepsPosts(s.log, Fenced(w, j));
    FenceKeepsPosters(s, s', w, j);
    DeletionsExtend(s, s');
  }

  /** Two workers never stand before the POST of the same job, because a job is fenced once. */
  lemma OnePosterPerJob(s: State, v: Owner, w: Owner, j: JobId)
    requires FencesOk(s) && AboutToPost(s, v, j) && AboutToPost(s, w, j)
    ensures v == w
  {
    var x :| 0 <= x < |s.log| && s.log[x] == Fenced(v, j);
    var y :| 0 <= y < |s.log| && s.log[y] == Fenced(w, j);
    assert x == y;
  }

  lemma PostExtendsPosts(log: seq<Event>, w: Owner, j: JobId)
    requires PostsOk(log) && Fenced(w, j) in log
    requires forall i :: 0 <= i < |log| && log[i].PostSent? ==> log[i].j != j
    ensures PostsOk(log + [PostSent(w, j)])
  {
    var log' := log + [PostSent(w, j)];
    assert forall b :: 0 <= b <= |log| ==> log'[..b] == log[..b];
    assert log[..|log|] == log;
  }

  lemma PostKeepsLog(s: State, w: Owner, answer: Option<string>)
    requires LogOk(s) && Runs(s, w) && s.workers[w].Posting?
    ensures LogOk(WorkerExec(s, Post(w, answer), w))
  {
    var s' := WorkerExec(s, Post(w, answer), w);
    var j := s.workers[w].j;
    assert s'.log == s.log + [PostSent(w, j)];
    assert AboutToPost(s, w, j);
    PostKeepsFences(s, s', w, j);
    PostExtendsPosts(s.log, w, j);
    PostKeepsPosters(s, s', w);
    DeletionsExtend(s, s');
  }

  lemma PostKeepsFences(s: State, s': State, w: Owner, j: JobId)
    requires FencesOk(s) && s'.t == s.t && s'.workers.Keys == s.workers.Keys && s'.log == s.log + [PostSent(w, j)]
    ensures FencesOk(s')
  {
  }

  lemma PostKeepsPosters(s: State, s': State, w: Owner)
    requires FencesOk(s) && PostersOk(s) && w in s.workers && s.workers[w].Posting?
    requires s'.log == s.log + [PostSent(w, s.workers[w].j)]
    requires s'.workers.Keys == s.workers.Keys && w in s'.workers && !s'.workers[w].Posting?
    requires forall v :: v in s.workers && v != w ==> s'.workers[v] == s.workers[v]
    ensures PostersOk(s')
  {
    assert AboutToPost(s, w, s.workers[w].j);
    forall v | v in s'.workers && s'.workers[v].Posting? ensures AboutToPost(s', v, s'.workers[v].j) {
      assert AboutToPost(s, v, s.workers[v].j);
      if s.workers[v].j == s.workers[w].j { OnePosterPerJob(s, v, w, s.workers[w].j); }
    }
  }

  /** Adding a fence or a POST to the log does not disturb the record of deletions. */
  lemma DeletionsExtend(s: State, s': State)
    requires DeletionsOk(s) && s'.deleters == s.deleters
    requires |s'.log| == |s.log| + 1 && s'.log[..|s.log|] == s.log
    requires s'.log[|s.log|].Fenced? || s'.log[|s.log|].PostSent?
    ensures DeletionsOk(s')
  {
    var n := |s.log|;
    forall b | 0 <= b < |s'.log|
      ensures s'.log[b].SourceCleaned? ==> ProbedAbsent(s'.log[b].r, s'.log[b].d) in s'.log[..b]
      ensures s'.log[b].MarkedDeleted? ==> SourceCleaned(s'.log[b].r, s'.log[b].d) in s'.log[..b]
    {
      if b < n {
        assert s'.log[b] == s'.log[..n][b] && s'.log[..b] == s.log[..b];
      }
    }
    assert forall e :: e in s.log ==> e in s'.log[..n];
  }

  lemma DeletionEventKeepsFences(s: State, s': State, e: Event)
    requires FencesOk(s) && Evolves(s.t, s'.t) && s'.workers == s.workers && s'.log == s.log + [e] && !e.Fenced?
    ensures FencesOk(s')
  {
  }

  /** What a deletion event needs in the log before it. */
  predicate HasPredecessor(log: seq<Event>, e: Event) {
    || e.ProbedAbsent?
    || (e.SourceCleaned? && ProbedAbsent(e.r, e.d) in log)
    || (e.MarkedDeleted? && SourceCleaned(e.r, e.d) in log)
  }

  /** Deleters stay where they are, give up, or move on to the point that the event stands for. */
  predicate DeletersFollow(s: State, s': State, e: Event)
    requires HasPredecessor(s.log, e)
  {
    forall r :: r in s'.deleters ==>
      || (r in s.deleters && s'.deleters[r] == s.deleters[r])
      || s'.deleters[r].Idle?
      || (r == e.r && s'.deleters[r] == Cleaning(e.d) && e.ProbedAbsent?)
      || (r == e.r && s'.deleters[r] == Finishing(e.d) && e.SourceCleaned?)
  }

  lemma DeletionEventKeepsDeletions(s: State, s': State, e: Event)
    requires DeletionsOk(s) && s'.log == s.log + [e] && HasPredecessor(s.log, e) && DeletersFollow(s, s', e)
    ensures DeletionsOk(s')
  {
    var n := |s.log|;
    assert s.log[..n] == s.log && s'.log[n] == e;
    assert forall b :: 0 <= b <= n ==> s'.log[..b] == s.log[..b];
  }

  /** Logging a step of a deletion that has its predecessor in the log. */
  lemma DeletionEventKeepsLog(s: State, s': State, e: Event)
    requires LogOk(s) && Evolves(s.t, s'.t) && s'.workers == s.workers && s'.log == s.log + [e]
    requires HasPredecessor(s.log, e) && DeletersFollow(s, s', e)
    ensures LogOk(s')
  {
    DeletionEventKeepsFences(s, s', e);
    OtherEventKeepsPosts(s.log, e);
    forall w | w in s'.workers && s'.workers[w].Posting? ensures AboutToPost(s', w, s'.workers[w].j) {
      OtherEventKeepsPoster(s, s', e, w, s.workers[w].j);
    }
    DeletionEventKeepsDeletions(s, s', e);
  }

  lemma DeletionKeepsLog(s: State, a: Action)
    requires LogOk(s) && IsDeletion(a) && Evolves(s.t, Exec(s, a).t)
    ensures LogOk(Exec(s, a))
  {
    var s' := Exec(s, a);
    if s'.log == s.log {
      SilentDeletion(s, a);
      SilentKeepsLog(s, s');
    } else {
      LoggedDeletion(s, a);
      DeletionEventKeepsLog(s, s', s'.log[|s.log|]);
    }
  }

  lemma SilentDeletion(s: State, a: Action)
    requires IsDeletion(a) && Exec(s, a).log == s.log
    ensures Exec(s, a).workers == s.workers && DeletersStay(s, Exec(s, a))
  {
  }

  lemma LoggedDeletion(s: State, a: Action)
    requires IsDeletion(a) && Exec(s, a).log != s.log && DeletionsOk(s)
    ensures var s' := Exec(s, a);
            && |s'.log| == |s.log| + 1 && s'.log == s.log + [s'.log[|s.log|]] && s'.workers == s.workers
            && HasPredecessor(s.log, s'.log[|s.log|]) && DeletersFollow(s, s', s'.log[|s.log|])
  {
  }

  lemma WorkerKeepsLog(s: State, a: Action, w: Owner)
    requires LogOk(s) && IsWorkerAction(a) && a.w == w && Runs(s, w) && Evolves(s.t, WorkerExec(s, a, w).t)
    ensures LogOk(WorkerExec(s, a, w))
  {
    var pc := s.workers[w];
    if a.Fence? && pc.Fencing? && FenceOpen(s.t, pc.j, w) {
      FenceKeepsLog(s, w);
    } else if a.Post? && pc.Posting? {
      PostKeepsLog(s, w, a.answer);
    } else {
      SilentWorker(s, a, w);
      SilentKeepsLog(s, WorkerExec(s, a, w));
    }
  }

  lemma SilentWorker(s: State, a: Action, w: Owner)
    requires IsWorkerAction(a) && a.w == w && Runs(s, w)
    requires !(a.Fence? && s.workers[w].Fencing? && FenceOpen(s.t, s.workers[w].j, w))
             && !(a.Post? && s.workers[w].Posting?)
    ensures var s' := WorkerExec(s, a, w); s'.log == s.log && s'.deleters == s.deleters && PostersStay(s, s')
  {
    if IsLocal(a) { SilentLocal(s, a, w); } else { SilentRow(s, a, w); }
  }

  lemma SilentLocal(s: State, a: Action, w: Owner)
    requires IsLocal(a) && Runs(s, w) && !(a.Post? && s.workers[w].Posting?)
    ensures var s' := WorkerExec(s, a, w);
            s'.log == s.log && s'.deleters == s.deleters && PostersStay(s, s')
  {
    LocalStepFrame(s, a, w);
    LocalStepStartsNoPost(s, a, w);
  }

  lemma LocalStepStartsNoPost(s: State, a: Action, w: Owner)
    requires IsLocal(a) && Runs(s, w) && !(a.Post? && s.workers[w].Posting?)
    ensures var s' := WorkerExec(s, a, w);
            && s'.log == s.log && s'.deleters == s.deleters
            && (s'.workers[w].Posting? ==> s'.workers[w] == s.workers[w])
  {
  }

  lemma SilentRow(s: State, a: Action, w: Owner)
    requires (a.Fence? || a.Record? || a.Publish? || a.Settle?) && Runs(s, w)
    requires !(a.Fence? && s.workers[w].Fencing? && FenceOpen(s.t, s.workers[w].j, w))
    ensures var s' := WorkerExec(s, a, w); s'.log == s.log && s'.deleters == s.deleters && PostersStay(s, s')
  {
  }

  lemma SilentEnvironment(s: State, a: Action)
    requires !IsDeletion(a) && !IsWorkerAction(a)
    ensures var s' := Exec(s, a); s'.log == s.log && s'.deleters == s.deleters && PostersStay(s, s')
  {
  }

  lemma StepKeepsLog(s: State, a: Action)
    requires LogOk(s) && Evolves(s.t, Exec(s, a).t)
    ensures LogOk(Exec(s, a))
  {
    if IsDeletion(a) {
      DeletionKeepsLog(s, a);
    } else if !IsWorkerAction(a) {
      SilentEnvironment(s, a);
      SilentKeepsLog(s, Exec(s, a));
    } else if Runs(s, a.w) {
      WorkerKeepsLog(s, a, a.w);
    }
  }

  lemma StepKeepsInv(s: State, a: Action)
    requires Inv(s)
    ensures Inv(Exec(s, a))
  {
    StepKeepsCore(s, a);
    StepEvolves(s, a);
    StepKeepsLog(s, a);
  }

  /** Every run from a consistent database at rest stays inside the invariant. */
  lemma {:induction false} RunKeepsInv(s: State, actions: seq<Action>)
    requires Inv(s)
    ensures Inv(Run(s, actions))
  {
    if actions != [] {
      RunKeepsInv(s, actions[..|actions| - 1]);
      StepKeepsInv(Run(s, actions[..|actions| - 1]), actions[|actions| - 1]);
    }
  }

  lemma {:induction false} RunEvolves(s: State, actions: seq<Action>)
    requires Inv(s)
    ensures Evolves(s.t, Run(s, actions).t)
  {
    if actions != [] {
      var before := actions[..|actions| - 1];
      RunEvolves(s, before);
      RunKeepsInv(s, before);
      StepEvolves(Run(s, before), actions[|actions| - 1]);
    }
  }

  lemma InitIsInv(s: State)
    requires Init(s)
    ensures Inv(s)
  {
  }

  // ----- at most one POST -----

  /** Every POST follows the fence of the same worker on the same job, and no job is posted twice. */
  lemma AtMostOnePost(s: State, actions: seq<Action>)
    requires Init(s)
    ensures var log := Run(s, actions).log;
            && (forall b :: 0 <= b < |log| && log[b].PostSent? ==> Fenced(log[b].w, log[b].j) in log[..b])
            && (forall a, b :: 0 <= a < b < |log| && log[a].PostSent? && log[b].PostSent? ==> log[a].j != log[b].j)
            && (forall a, b :: 0 <= a < b < |log| && log[a].Fenced? && log[b].Fenced? ==> log[a].j != log[b].j)
  {
    InitIsInv(s);
    RunKeepsInv(s, actions);
  }

  /** No run returns a job to not_submitted, and a job that is no longer open never changes again. */
  lemma FenceNeverReopens(s: State, actions: seq<Action>, more: seq<Action>, j: JobId)
    requires Init(s) && j < |Run(s, actions).t.jobs|
    ensures var t, t' := Run(s, actions).t, Run(Run(s, actions), more).t;
            && j < |t'.jobs|
            && (t.jobs[j].submission != NotSubmitted ==> t'.jobs[j].submission != NotSubmitted)
            && (!Open(t.jobs[j]) ==> t'.jobs[j] == t.jobs[j])
  {
    InitIsInv(s);
    RunKeepsInv(s, actions);
    RunEvolves(Run(s, actions), more);
  }

  // ----- no work is lost -----

  /**
   Superseded generations are terminal and unowned; every other unfinished job becomes claimable by itself in time.
   */
  lemma NoWorkLost(s: State, actions: seq<Action>, j: JobId, later: nat)
    requires Init(s) && j < |Run(s, actions).t.jobs| && !Run(s, actions).t.jobs[j].legacy
    ensures var t := Run(s, actions).t;
            var job := t.jobs[j];
            && (!IsLatest(t.jobs, j) ==> job.submission == Terminal && job.owner.None?)
            && (job.submission == Terminal <==> !Open(job))
            && (Open(job) && later >= t.now + 256 ==> Eligible(t.(now := later), j))
            && (Open(job) && later >= job.nextAttempt && LeaseFree(job, later) ==> Eligible(t.(now := later), j))
  {
    InitIsInv(s);
    RunKeepsInv(s, actions);
    var t := Run(s, actions).t;
    if Open(t.jobs[j]) { OpenIsLatest(t, j); }
  }

  /** For an owner that reaches publication with a live lease, every guard of the publication transaction holds. */
  lemma PublicationCommits(s: State, actions: seq<Action>, w: Owner)
    requires Init(s)
    requires var s' := Run(s, actions);
             w in s'.workers && s'.workers[w].Publishing? && OwnedBy(s'.t, s'.workers[w].j, w)
               && !s'.workers[w].snap.legacy
    ensures var s' := Run(s, actions);
            PublishCommits(s'.t, s'.workers[w].j, w, s'.workers[w].snap.document)
  {
    InitIsInv(s);
    RunKeepsInv(s, actions);
    var s' := Run(s, actions);
    OpenIsLatest(s'.t, s'.workers[w].j);
  }

  // ----- deletion -----

  predicate Retired(t: Tables, d: DocId) { d in t.docs && t.docs[d].status in {Deleting, Deleted} }

  /** A worker step that moves a document does so as the owner of an open job of that document. */
  lemma WorkerSparesRetired(s: State, a: Action, w: Owner, d: DocId)
    requires CoreOk(s) && Runs(s, w) && IsWorkerAction(a) && Retired(s.t, d)
    ensures d in WorkerExec(s, a, w).t.docs && WorkerExec(s, a, w).t.docs[d] == s.t.docs[d]
  {
    if IsLocal(a) {
      LocalStepFrame(s, a, w);
    } else {
      var j := s.workers[w].j;
      if s.t.jobs[j].document == d { RestingDocument(s.t, d, j); }
    }
  }

  lemma StepSparesRetired(s: State, a: Action, d: DocId)
    requires CoreOk(s) && Retired(s.t, d)
    ensures Retired(Exec(s, a).t, d)
    ensures s.t.docs[d].status == Deleted ==> Exec(s, a).t.docs[d].status == Deleted
  {
    if IsDeletion(a) { DeletionSparesRetired(s, a, d); }
    else if !IsWorkerAction(a) { EnvironmentSparesRetired(s, a, d); }
    else if Runs(s, a.w) { WorkerSparesRetired(s, a, a.w, d); }
  }

  lemma DeletionSparesRetired(s: State, a: Action, d: DocId)
    requires IsDeletion(a) && Retired(s.t, d)
    ensures Retired(Exec(s, a).t, d)
    ensures s.t.docs[d].status == Deleted ==> Exec(s, a).t.docs[d].status == Deleted
  {
  }

  lemma EnvironmentSparesRetired(s: State, a: Action, d: DocId)
    requires !IsDeletion(a) && !IsWorkerAction(a) && Retired(s.t, d)
    ensures d in Exec(s, a).t.docs && Exec(s, a).t.docs[d] == s.t.docs[d]
  {
  }

  /** Once deleting, a document goes nowhere but to deleted, and stays there, whatever late workers do. */
  lemma {:induction false} DeletionIsFinal(s: State, actions: seq<Action>, d: DocId)
    requires Inv(s) && Retired(s.t, d)
    ensures Retired(Run(s, actions).t, d)
    ensures s.t.docs[d].status == Deleted ==> Run(s, actions).t.docs[d].status == Deleted
  {
    if actions != [] {
      var before := actions[..|actions| - 1];
      DeletionIsFinal(s, before, d);
      RunKeepsInv(s, before);
      StepSparesRetired(Run(s, before), actions[|actions| - 1], d);
    }
  }

  /**
   One reconciler probed the upstream, found nothing, cleaned the source and then marked the document, in this order.
   */
  ghost predicate ProvenDeletion(log: seq<Event>, d: DocId) {
    exists p, c, m, r :: ProvenAt(log, d, p, c, m, r)
  }

  predicate ProvenAt(log: seq<Event>, d: DocId, p: nat, c: nat, m: nat, r: nat) {
    p < c < m < |log| && log[p] == ProbedAbsent(r, d) && log[c] == SourceCleaned(r, d) && log[m] == MarkedDeleted(r, d)
  }

  lemma MarkIsProven(s: State, m: nat)
    requires DeletionsOk(s) && m < |s.log| && s.log[m].MarkedDeleted?
    ensures ProvenDeletion(s.log, s.log[m].d)
  {
    var r, d := s.log[m].r, s.log[m].d;
    var c :| 0 <= c < m && s.log[c] == SourceCleaned(r, d);
    var p :| 0 <= p < c && s.log[p] == ProbedAbsent(r, d);
    assert ProvenAt(s.log, d, p, c, m, r);
  }

  lemma StepMarksDeletion(s: State, a: Action, d: DocId)
    requires d in Exec(s, a).t.docs && Exec(s, a).t.docs[d].status == Deleted
    requires d in s.t.docs ==> s.t.docs[d].status != Deleted
    ensures exists r :: MarkedDeleted(r, d) in Exec(s, a).log
  {
    if IsDeletion(a) {
      DeletionMarks(s, a, d);
    } else if !IsWorkerAction(a) {
      EnvironmentMarksNoDeletion(s, a, d);
    } else if Runs(s, a.w) {
      WorkerMarksNoDeletion(s, a, a.w, d);
    }
  }

  lemma DeletionMarks(s: State, a: Action, d: DocId)
    requires IsDeletion(a) && d in Exec(s, a).t.docs && Exec(s, a).t.docs[d].status == Deleted
    requires d in s.t.docs ==> s.t.docs[d].status != Deleted
    ensures exists r :: MarkedDeleted(r, d) in Exec(s, a).log
  {
    if a.FinishDelete? { assert Exec(s, a).log[|s.log|] == MarkedDeleted(a.r, d); }
  }

  lemma EnvironmentMarksNoDeletion(s: State, a: Action, d: DocId)
    requires !IsDeletion(a) && !IsWorkerAction(a) && d in Exec(s, a).t.docs && Exec(s, a).t.docs[d].status == Deleted
    ensures d in s.t.docs && s.t.docs[d].status == Deleted
  {
  }

  /** No step of a worker takes a document to deleted. */
  lemma WorkerMarksNoDeletion(s: State, a: Action, w: Owner, d: DocId)
    requires Runs(s, w) && IsWorkerAction(a) && d in WorkerExec(s, a, w).t.docs
             && WorkerExec(s, a, w).t.docs[d].status == Deleted
    ensures d in s.t.docs && s.t.docs[d].status == Deleted
  {
    if IsLocal(a) { LocalStepFrame(s, a, w); } else { RowStepMarksNoDeletion(s, a, w, d); }
  }

  lemma RowStepMarksNoDeletion(s: State, a: Action, w: Owner, d: DocId)
    requires Runs(s, w) && (a.Fence? || a.Record? || a.Publish? || a.Settle?)
    requires d in WorkerExec(s, a, w).t.docs && WorkerExec(s, a, w).t.docs[d].status == Deleted
    ensures d in s.t.docs && s.t.docs[d].status == Deleted
  {
  }

  lemma StepExtendsLog(s: State, a: Action)
    ensures s.log <= Exec(s, a).log
  {
  }

  lemma ProofSurvives(log: seq<Event>, log': seq<Event>, d: DocId)
    requires ProvenDeletion(log, d) && log <= log'
    ensures ProvenDeletion(log', d)
  {
    var p, c, m, r :| ProvenAt(log, d, p, c, m, r);
    assert ProvenAt(log', d, p, c, m, r);
  }

  lemma NewlyDeletedIsProven(s: State, a: Action, d: DocId)
    requires Inv(s) && d in Exec(s, a).t.docs && Exec(s, a).t.docs[d].status == Deleted
    requires d in s.t.docs ==> s.t.docs[d].status != Deleted
    ensures ProvenDeletion(Exec(s, a).log, d)
  {
    StepKeepsInv(s, a);
    StepMarksDeletion(s, a, d);
    var s' := Exec(s, a);
    var r :| MarkedDeleted(r, d) in s'.log;
    var m :| 0 <= m < |s'.log| && s'.log[m] == MarkedDeleted(r, d);
    MarkIsProven(s', m);
  }

  /** deleted is reached only after the upstream probe found no id and the source cleanup returned. */
  lemma {:induction false} DeletedOnlyAfterProof(s: State, actions: seq<Action>, d: DocId)
    requires Inv(s) && (d in s.t.docs ==> s.t.docs[d].status != Deleted)
    requires d in Run(s, actions).t.docs && Run(s, actions).t.docs[d].status == Deleted
    ensures ProvenDeletion(Run(s, actions).log, d)
  {
    var before := actions[..|actions| - 1];
    var mid, last := Run(s, before), actions[|actions| - 1];
    RunKeepsInv(s, before);
    if d in mid.t.docs && mid.t.docs[d].status == Deleted {
      DeletedOnlyAfterProof(s, before, d);
      StepExtendsLog(mid, last);
      ProofSurvives(mid.log, Run(s, actions).log, d);
    } else {
      NewlyDeletedIsProven(mid, last, d);
    }
  }

  // ----- recovery can always finish -----

  lemma RunOfFour(s: State, a: Action, b: Action, c: Action, d: Action)
    ensures Run(s, [a, b, c, d]) == Exec(Exec(Exec(Exec(s, a), b), c), d)
  {
    assert [a, b, c, d][..3] == [a, b, c] && [a, b, c][..2] == [a, b] && [a, b][..1] == [a] && [a][..0] == [];
    assert Run(s, [a]) == Exec(Run(s, []), a);
    assert Run(s, [a, b]) == Exec(Run(s, [a]), b);
    assert Run(s, [a, b, c]) == Exec(Run(s, [a, b]), c);
  }

  lemma {:induction false} RunConcat(s: State, first: seq<Action>, second: seq<Action>)
    ensures Run(s, first + second) == Run(Run(s, first), second)
  {
    if second == [] {
      assert first + second == first;
    } else {
      var n := |second| - 1;
      assert (first + second)[..|first + second| - 1] == first + second[..n];
      RunConcat(s, first, second[..n]);
    }
  }

  /** The two local steps after a claim. */
  lemma ClaimedPath(s: State, w: Owner, j: JobId) returns (s': State)
    requires j < |s.t.jobs| && w in s.workers && s.workers[w] == Claimed(j, s.t.jobs[j]) && !s.t.jobs[j].legacy
    ensures s' == Exec(Exec(s, CheckLegacy(w)), Route(w, None))
    ensures s'.t == s.t && w in s'.workers && s'.workers == s.workers[w := s'.workers[w]]
    ensures s'.workers[w] == if s.t.jobs[j].submission == NotSubmitted then Fencing(j, s.t.jobs[j])
                             else Reconciling(j, s.t.jobs[j])
  {
    var s1 := Exec(s, CheckLegacy(w));
    assert s1 == Go(s, w, Routed(j, s.t.jobs[j]));
    s' := Exec(s1, Route(w, None));
  }

  lemma WaitAndClaim(s: State, w: Owner, j: JobId) returns (s': State)
    requires TablesOk(s.t) && w !in s.workers && j < |s.t.jobs| && Open(s.t.jobs[j]) && !s.t.jobs[j].legacy
    ensures s' == Exec(Exec(s, Tick(256)), Claim(w, j))
    ensures s'.t == ClaimTx(s.t.(now := s.t.now + 256), j, w) && s'.workers == s.workers[w := Claimed(j, s'.t.jobs[j])]
  {
    OpenIsLatest(s.t, j);
    assert Eligible(Exec(s, Tick(256)).t, j);
    s' := Exec(Exec(s, Tick(256)), Claim(w, j));
  }

  /** Wait, claim and route: a fresh worker holds the row of an open job. */
  lemma RoutePath(s: State, w: Owner, j: JobId) returns (s': State)
    requires TablesOk(s.t) && w !in s.workers && j < |s.t.jobs| && Open(s.t.jobs[j]) && !s.t.jobs[j].legacy
    ensures s' == Run(s, [Tick(256), Claim(w, j), CheckLegacy(w), Route(w, None)])
    ensures s'.t == ClaimTx(s.t.(now := s.t.now + 256), j, w)
    ensures w in s'.workers && s'.workers == s.workers[w := s'.workers[w]]
    ensures s'.workers[w] == if s.t.jobs[j].submission == NotSubmitted then Fencing(j, s'.t.jobs[j])
                             else Reconciling(j, s'.t.jobs[j])
  {
    RunOfFour(s, Tick(256), Claim(w, j), CheckLegacy(w), Route(w, None));
    var s2 := WaitAndClaim(s, w, j);
    s' := ClaimedPath(s2, w, j);
  }

  /** Fence, POST, record and re-read: the owner of a job that was never submitted stands before reconciliation. */
  lemma SubmitPath(s: State, w: Owner, j: JobId) returns (s': State)
    requires Runs(s, w) && s.workers[w].Fencing? && s.workers[w].j == j && FenceOpen(s.t, j, w)
    ensures s' == Run(s, [Fence(w), Post(w, Some("track")), Record(w), Reload(w)])
    ensures s'.t == RecordTrackTx(FenceTx(s.t, j, w), j, w, "track")
    ensures w in s'.workers && s'.workers[w] == Reconciling(j, s'.t.jobs[j]) && OwnedBy(s'.t, j, w)
  {
    RunOfFour(s, Fence(w), Post(w, Some("track")), Record(w), Reload(w));
    var s2 := FenceAndPost(s, w, j, "track");
    s' := RecordAndReload(s2, w, j, "track");
  }

  lemma FenceAndPost(s: State, w: Owner, j: JobId, track: string) returns (s': State)
    requires Runs(s, w) && s.workers[w].Fencing? && s.workers[w].j == j && FenceOpen(s.t, j, w)
    ensures s' == Exec(Exec(s, Fence(w)), Post(w, Some(track)))
    ensures s'.t == FenceTx(s.t, j, w) && OwnedBy(s'.t, j, w)
    ensures w in s'.workers && s'.workers[w] == Posted(j, s.workers[w].snap, track)
  {
    var s1 := Exec(s, Fence(w));
    assert s1.t == FenceTx(s.t, j, w) && s1.workers[w] == Posting(j, s.workers[w].snap);
    s' := Exec(s1, Post(w, Some(track)));
  }

  lemma RecordAndReload(s: State, w: Owner, j: JobId, track: string) returns (s': State)
    requires Runs(s, w) && OwnedBy(s.t, j, w) && s.workers[w].Posted? && s.workers[w].j == j
    requires s.workers[w].track == track
    ensures s' == Exec(Exec(s, Record(w)), Reload(w)) && s'.t == RecordTrackTx(s.t, j, w, track)
    ensures w in s'.workers && s'.workers[w] == Reconciling(j, s'.t.jobs[j]) && OwnedBy(s'.t, j, w)
  {
    var s1 := Exec(s, Record(w));
    assert s1.t == RecordTrackTx(s.t, j, w, track) && s1.workers[w].Reading? && s1.workers[w].j == j;
    s' := Exec(s1, Reload(w));
  }

  /** A processed answer lets the owner publish. */
  lemma PublishPath(s: State, w: Owner, j: JobId) returns (s': State)
    requires Runs(s, w) && j < |s.t.jobs| && s.workers[w] == Reconciling(j, s.t.jobs[j])
    requires PublishCommits(s.t, j, w, s.t.jobs[j].document)
    ensures s' == Run(s, [Reconcile(w, Processed, Some("id")), Publish(w, false)])
    ensures j < |s'.t.jobs| && s'.t.jobs[j].status == JobDone
    ensures s.t.jobs[j].document in s'.t.docs && s'.t.docs[s.t.jobs[j].document].status == Ready
  {
    RunOfTwo(s, Reconcile(w, Processed, Some("id")), Publish(w, false));
    var s1 := Exec(s, Reconcile(w, Processed, Some("id")));
    assert s1 == Go(s, w, Publishing(j, s.t.jobs[j], "id"));
    PublishFinishes(s1, w, j);
    s' := Exec(s1, Publish(w, false));
  }

  lemma PublishFinishes(s: State, w: Owner, j: JobId)
    requires Runs(s, w) && j < |s.t.jobs| && s.workers[w] == Publishing(j, s.t.jobs[j], "id")
    requires PublishCommits(s.t, j, w, s.t.jobs[j].document)
    ensures var t := Exec(s, Publish(w, false)).t;
            && j < |t.jobs| && t.jobs[j].status == JobDone
            && s.t.jobs[j].document in t.docs && t.docs[s.t.jobs[j].document].status == Ready
  {
  }

  lemma RunOfTwo(s: State, a: Action, b: Action)
    ensures Run(s, [a, b]) == Exec(Exec(s, a), b)
  {
    assert [a, b][..1] == [a];
    assert [a][..0] == [];
    assert Run(s, [a]) == Exec(Run(s, []), a);
  }

  /** From every reachable state an unfinished job can still be driven to done and its document to ready. */
  lemma RecoveryCanFinish(s: State, w: Owner, j: JobId) returns (actions: seq<Action>)
    requires Inv(s) && w !in s.workers && j < |s.t.jobs| && Open(s.t.jobs[j]) && !s.t.jobs[j].legacy
    ensures var t := Run(s, actions).t;
            && j < |t.jobs| && t.jobs[j].status == JobDone
            && s.t.jobs[j].document in t.docs && t.docs[s.t.jobs[j].document].status == Ready
  {
    var d := s.t.jobs[j].document;
    OpenIsLatest(s.t, j);
    actions := [Tick(256), Claim(w, j), CheckLegacy(w), Route(w, None)];
    var mid := RoutePath(s, w, j);
    if s.t.jobs[j].submission == NotSubmitted {
      var submitted := SubmitPath(mid, w, j);
      RunConcat(s, actions, [Fence(w), Post(w, Some("track")), Record(w), Reload(w)]);
      actions := actions + [Fence(w), Post(w, Some("track")), Record(w), Reload(w)];
      mid := submitted;
    }
    var done := PublishPath(mid, w, j);
    RunConcat(s, actions, [Reconcile(w, Processed, Some("id")), Publish(w, false)]);
    actions := actions + [Reconcile(w, Processed, Some("id")), Publish(w, false)];
  }

  // ----- receipts -----

  /** A receipt has exactly one job, of its own document, and is completed exactly when that job is done. */
  lemma ReceiptHasOneJob(s: State, actions: seq<Action>, key: Key) returns (j: JobId)
    requires Init(s) && key in Run(s, actions).t.receipts
    ensures var t := Run(s, actions).t;
            && JobsOf(t.jobs, key) == {j} && j < |t.jobs|
            && t.jobs[j].document == t.receipts[key].document && t.jobs[j].space == t.receipts[key].space
            && (t.receipts[key].status == Completed <==> t.jobs[j].status == JobDone)
  {
    InitIsInv(s);
    RunKeepsInv(s, actions);
    var t := Run(s, actions).t;
    j :| j in JobsOf(t.jobs, key);
    forall i | i in JobsOf(t.jobs, key) ensures i == j {
      assert t.jobs[i].operation == t.jobs[j].operation;
    }
  }

  /** Whatever is requested later under the same key, the receipt keeps the job it was committed with. */
  lemma ReplayCreatesNoJob(s: State, actions: seq<Action>, more: seq<Action>, key: Key)
    requires Init(s) && key in Run(s, actions).t.receipts
    ensures var t, t' := Run(s, actions).t, Run(Run(s, actions), more).t;
            key in t'.receipts && JobsOf(t'.jobs, key) == JobsOf(t.jobs, key)
  {
    var mid := Run(s, actions);
    InitIsInv(s);
    RunKeepsInv(s, actions);
    RunEvolves(mid, more);
    RunKeepsInv(mid, more);
    var j := ReceiptHasOneJob(s, actions, key);
    JobStaysAlone(mid.t, Run(mid, more).t, key, j);
  }

  lemma JobStaysAlone(t: Tables, t': Tables, key: Key, j: JobId)
    requires Evolves(t, t') && OperationsDiffer(t'.jobs) && JobsOf(t.jobs, key) == {j} && j < |t.jobs|
    ensures JobsOf(t'.jobs, key) == {j}
  {
    assert j in JobsOf(t.jobs, key);
    assert t'.jobs[j].operation == Some(key);
    forall i | i in JobsOf(t'.jobs, key) ensures i == j { assert t'.jobs[i].operation == t'.jobs[j].operation; }
    assert j in JobsOf(t'.jobs, key);
  }
}

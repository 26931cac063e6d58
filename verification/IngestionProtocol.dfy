/**
 The ingestion protocol as a state machine: any number of recovery workers, each
 running `process` once with a fresh owner token, together with uploads, reindex
 requests, deletions, time, lost answers, raised errors and crashes.

 One action is one database transaction, one upstream call or one local decision.
 Exec is total: an action that is not enabled changes nothing, so every sequence
 of actions is a run.
 */
module IngestionProtocol {
  import opened Prelude
  import opened IngestionTables

  /** Where a worker stands in `process`, with the job row it holds in its local variables. */
  datatype Pc =
    | Claimed(j: JobId, snap: Job)
    | Routed(j: JobId, snap: Job)
    | Fencing(j: JobId, snap: Job)
    | Posting(j: JobId, snap: Job)
    | Posted(j: JobId, snap: Job, track: string)
    | Reading(j: JobId, snap: Job)
    | Reconciling(j: JobId, snap: Job)
    | Publishing(j: JobId, snap: Job, rag: string)
    | Settling(j: JobId, settlement: Settlement, handled: bool)
    | Handling(j: JobId, snap: Job)
    | Stopped
  {
    function Snapshot(): Job
      requires !Stopped?
    {
      if Settling? then settlement.snapshot else snap
    }

    /** Inside the try block, where a raised error reaches the handler. */
    predicate Guarded() { !Stopped? && !Handling? && !(Settling? && handled) }

    /**
     Where a raised error leads: to the outer handler, or from the empty text settlement to that of a failed parse.
     */
    function Raised(): Pc
      requires Guarded()
    {
      if Settling? && settlement.code == Some(EmptyText)
      then Settling(j, settlement.(code := Some(ParseFailed)), false)
      else Handling(j, Snapshot())
    }
  }

  /** Where a reconcile_delete call stands. */
  datatype DeletePc = Probing(d: DocId) | Cleaning(d: DocId) | Finishing(d: DocId) | Idle

  datatype Event =
    | Fenced(w: Owner, j: JobId)
    | PostSent(w: Owner, j: JobId)
    | ProbedAbsent(r: nat, d: DocId)
    | SourceCleaned(r: nat, d: DocId)
    | MarkedDeleted(r: nat, d: DocId)

  datatype State = State(t: Tables, workers: map<Owner, Pc>, deleters: map<nat, DeletePc>, log: seq<Event>)

  datatype Action =
    | Tick(seconds: nat)
    | Upload(d: DocId, space: nat, parsing: bool)
    | Reindex(key: Key, d: DocId, space: nat, fingerprint: Fingerprint)
    | Claim(w: Owner, j: JobId)
    | CheckLegacy(w: Owner)
    | Route(w: Owner, parseError: Option<ErrorCode>)
    | Fence(w: Owner)
    | Post(w: Owner, answer: Option<string>)
    | Record(w: Owner)
    | Reload(w: Owner)
    | Reconcile(w: Owner, state: Upstream, rag: Option<string>)
    | Publish(w: Owner, raised: bool)
    | Settle(w: Owner, raised: bool)
    | Raise(w: Owner)
    | Handle(w: Owner)
    | Crash(w: Owner)
    | RequestDelete(d: DocId)
    | BeginReconcileDelete(r: nat, d: DocId)
    | ProbeDelete(r: nat, absent: bool)
    | CleanSource(r: nat, ok: bool)
    | FinishDelete(r: nat)

  predicate Runs(s: State, w: Owner) { w in s.workers && !s.workers[w].Stopped? && s.workers[w].j < |s.t.jobs| }

  function Go(s: State, w: Owner, pc: Pc): State { s.(workers := s.workers[w := pc]) }

  /** The whole delete check: protected while the submission outcome is unknown. */
  predicate MayDelete(t: Tables, d: DocId) {
    d in t.docs && t.docs[d].status in {Ready, Failed} && t.docs[d].error != Some(SubmissionUnknown)
  }

  function DeleteTx(t: Tables, d: DocId): Tables { TransitionTx(t, d, {Ready, Failed}, Deleting, None) }

  function Exec(s: State, a: Action): State {
    match a
    case Tick(seconds) => s.(t := s.t.(now := s.t.now + seconds))
    case Upload(d, space, parsing) =>
      if d in s.t.docs then s else s.(t := CreateTx(s.t, d, space, if parsing then Parsing else Uploaded))
    case Reindex(key, d, space, fingerprint) => s.(t := ReindexTx(s.t, key, d, space, fingerprint))
    case Claim(w, j) =>
      if w in s.workers || !Eligible(s.t, j) then s
      else
        var t' := ClaimTx(s.t, j, w);
        s.(t := t', workers := s.workers[w := Claimed(j, t'.jobs[j])])
    case RequestDelete(d) => if MayDelete(s.t, d) then s.(t := DeleteTx(s.t, d)) else s
    case BeginReconcileDelete(r, d) =>
      if r in s.deleters || d !in s.t.docs || s.t.docs[d].status != Deleting then s
      else s.(deleters := s.deleters[r := Probing(d)])
    case ProbeDelete(r, absent) =>
      if r !in s.deleters || !s.deleters[r].Probing? then s
      else if !absent then s.(deleters := s.deleters[r := Idle])
      else s.(deleters := s.deleters[r := Cleaning(s.deleters[r].d)], log := s.log + [ProbedAbsent(r, s.deleters[r].d)])
    case CleanSource(r, ok) =>
      if r !in s.deleters || !s.deleters[r].Cleaning? then s
      else if !ok then s.(deleters := s.deleters[r := Idle])
      else s.(deleters := s.deleters[r := Finishing(s.deleters[r].d)],
              log := s.log + [SourceCleaned(r, s.deleters[r].d)])
    case FinishDelete(r) =>
      if r !in s.deleters || !s.deleters[r].Finishing? then s
      else
        var d := s.deleters[r].d;
        var s' := s.(t := TransitionTx(s.t, d, {Deleting}, Deleted, None), deleters := s.deleters[r := Idle]);
        if d in s.t.docs && s.t.docs[d].status == Deleting then s'.(log := s.log + [MarkedDeleted(r, d)]) else s'
    case _ => if Runs(s, a.w) then WorkerExec(s, a, a.w) else s
  }

  predicate IsWorkerAction(a: Action) {
    a.CheckLegacy? || a.Route? || a.Fence? || a.Post? || a.Record? || a.Reload? || a.Reconcile? || a.Publish?
    || a.Settle? || a.Raise? || a.Handle? || a.Crash?
  }

  /** What text extraction can report before the fence. */
  predicate IsParseError(code: ErrorCode) { code in {EmptyText, UnsupportedFormat, FileNotFound, ParseFailed} }

  /** One step of the worker `w`, in the order of `process`. */
  function WorkerExec(s: State, a: Action, w: Owner): State
    requires Runs(s, w) && IsWorkerAction(a)
  {
    var pc := s.workers[w];
    var j := pc.j;
    match a
    case CheckLegacy(_) =>
      if !pc.Claimed? then s
      else if pc.snap.legacy && Ambiguous(s.t.jobs, pc.snap.document)
      then Go(s, w, Settling(j, Settlement(pc.snap, UnknownUpstream, Some(SubmissionUnknown), None), false))
      else Go(s, w, Routed(j, pc.snap))
    case Route(_, parseError) =>
      if !pc.Routed? then s
      else if pc.snap.submission != NotSubmitted then Go(s, w, Reconciling(j, pc.snap))
      else if parseError.Some? && !IsParseError(parseError.value) then s
      else if parseError.Some? then Go(s, w, Settling(j, Settlement(pc.snap, FailedUpstream, parseError, None), false))
      else Go(s, w, Fencing(j, pc.snap))
    case Fence(_) =>
      if !pc.Fencing? then s
      else if !FenceOpen(s.t, j, w) then Go(s, w, Stopped)
      else s.(t := FenceTx(s.t, j, w), workers := s.workers[w := Posting(j, pc.snap)], log := s.log + [Fenced(w, j)])
    case Post(_, answer) =>
      if !pc.Posting? then s
      else
        var next := if answer.Some? then Posted(j, pc.snap, answer.value) else Handling(j, pc.snap);
        s.(workers := s.workers[w := next], log := s.log + [PostSent(w, j)])
    case Record(_) =>
      if !pc.Posted? then s
      else if !OwnedBy(s.t, j, w) then Go(s, w, Stopped)
      else s.(t := RecordTrackTx(s.t, j, w, pc.track), workers := s.workers[w := Reading(j, pc.snap)])
    case Reload(_) => if !pc.Reading? then s else Go(s, w, Reconciling(j, s.t.jobs[j]))
    case Reconcile(_, state, rag) =>
      if !pc.Reconciling? then s
      else if state == Processed && rag.Some? && rag.value != "" then Go(s, w, Publishing(j, pc.snap, rag.value))
      else
        var code := if state == FailedUpstream then Some(IndexFailed) else None;
        Go(s, w, Settling(j, Settlement(pc.snap, state, code, rag), false))
    case Publish(_, raised) =>
      if !pc.Publishing? then s
      else if !PublishCommits(s.t, j, w, pc.snap.document) then Go(s, w, Handling(j, pc.snap))
      else
        s.(t := PublishTx(s.t, j, w, pc.snap.document, pc.rag),
           workers := s.workers[w := if raised then Handling(j, pc.snap) else Stopped])
    case Settle(_, raised) =>
      if !pc.Settling? then s
      else
        s.(t := SettleTx(s.t, j, w, pc.settlement),
           workers := s.workers[w := if raised && !pc.handled then pc.Raised() else Stopped])
    case Raise(_) => if pc.Guarded() then Go(s, w, pc.Raised()) else s
    case Handle(_) =>
      if !pc.Handling? then s
      else if s.t.jobs[j].submission == NotSubmitted
      then Go(s, w, Settling(j, Settlement(pc.snap, FailedUpstream, Some(IndexUnconfigured), None), true))
      else Go(s, w, Settling(j, Settlement(pc.snap, UnknownUpstream, None, None), true))
    case Crash(_) => Go(s, w, Stopped)
  }

  /** The state after a whole run. */
  function Run(s: State, actions: seq<Action>): State {
    if actions == [] then s else Exec(Run(s, actions[..|actions| - 1]), actions[|actions| - 1])
  }
}

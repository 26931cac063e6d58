/**
 The retention protocol as a state machine: policy writers, acceptances and any
 number of cleanup workers interleave; upstream answers, failures, crashes and
 time are arbitrary. Exec is total, so every sequence of actions is a run.
 */
module RetentionProtocol {
  import opened Prelude
  import opened MemoryPolicy
  import opened RetentionTables

  /** The next attempt of a row that never expires: the year 9999. */
  const NEVER: Time := 253370764800

  /** Where a worker stands in `_maintain_job`, with the row it claimed and the time it started. */
  datatype Pc =
    | Idle
    | Started(key: RowKey, snap: Row, start: Time)
    | Proving(key: RowKey, snap: Row, start: Time, state: OpState)
    | Deciding(key: RowKey, snap: Row, start: Time, state: OpState)
    | Cleaning(key: RowKey, snap: Row, start: Time, state: OpState)
    | Patching(key: RowKey, snap: Row, start: Time, state: OpState, items: seq<Fact>, i: nat)
    | Sending(key: RowKey, snap: Row, start: Time, state: OpState, items: seq<Fact>, i: nat)
    | Finishing(key: RowKey, snap: Row, outcome: Outcome)
  {
    /** The operation state held in the worker's variable. */
    function StateVar(): OpState
      requires !Idle?
    {
      if Started? then snap.opState else if Finishing? then outcome.state else state
    }

    /** The cleanup state held in the worker's variable. */
    function CleanupVar(): Cleanup
      requires !Idle?
    {
      if Finishing? then outcome.cleanup
      else if Cleaning? || Patching? || Sending? then Invalidating
      else snap.cleanup
    }
  }

  /** One invalidation request sent for a fact of a row. */
  datatype Patch = Patch(key: RowKey, fact: Fact, at: Time)

  /**
   `seen` collects every policy projection that was ever readable, `finished` the last
   acceptance or finish of each row, and `touched` the last of these or of a shortening
   policy write.
   */
  datatype State = State(
    t: Tables, workers: map<Owner, Pc>, seen: set<Projection>, finished: map<RowKey, Time>, touched: map<RowKey, Time>,
    log: seq<Patch>)

  datatype Action =
    | Tick(seconds: nat)
    | WritePolicy(e: Employee, scope: nat, patch: Dict, seeds: Option<string>)
    | ReadPolicy(e: Employee)
    | Accept(a: Acceptance, p: Projection)
    | Claim(w: Owner, key: RowKey)
    | Poll(w: Owner, answer: OpState)
    | Prove(w: Owner)
    | Decide(w: Owner)
    | ListFacts(w: Owner, items: seq<Fact>, total: int)
    | Check(w: Owner, timeout: bool)
    | Send(w: Owner, confirmed: bool)
    | Fail(w: Owner)
    | Finish(w: Owner)
    | Crash(w: Owner)

  function Ids(items: seq<Fact>): multiset<string> {
    if items == [] then multiset{}
    else Ids(items[..|items| - 1]) + multiset{if items[|items| - 1].id.Some? then items[|items| - 1].id.value else ""}
  }

  function Go(s: State, w: Owner, pc: Pc): State { s.(workers := s.workers[w := pc]) }

  /** The except branch: keep both variables and retry after the backoff. */
  function AfterError(s: State, pc: Pc): Pc
    requires !pc.Idle?
  {
    Finishing(pc.key, pc.snap, Outcome(pc.StateVar(), pc.CleanupVar(), s.t.now + Backoff(pc.snap.attempts), None))
  }

  function Exec(s: State, a: Action): State {
    match a
    case Tick(seconds) => s.(t := s.t.(now := s.t.now + seconds))
    case WritePolicy(e, scope, patch, seeds) =>
      var t' := WritePolicyTx(s.t, e, scope, patch, seeds);
      var merged := MergePolicy(CurrentPolicy(s.t, e), patch);
      if merged.None? then s
      else
        s.(t := t', seen := s.seen + {Project(t', e)},
           touched := if merged.value.days.None? then s.touched
                      else s.touched + map key | key in s.t.rows && Shortens(s.t.rows[key], e) :: s.t.now)
    case ReadPolicy(e) => if e in s.t.settings then s.(seen := s.seen + {Project(s.t, e)}) else s
    case Accept(a, p) =>
      // The caller's bank and policy are those of the employee it is authorized for.
      if p !in s.seen || p.employee != a.employee || a.key.bank.employee != a.employee then s
      else
        s.(t := AcceptTx(s.t, a, p),
           finished := if Accepts(s.t, a, p) && a.key !in s.t.rows then s.finished[a.key := s.t.now] else s.finished,
           touched := if Accepts(s.t, a, p) && a.key !in s.t.rows then s.touched[a.key := s.t.now] else s.touched)
    case Claim(w, key) =>
      if (w in s.workers && !s.workers[w].Idle?) || key !in s.t.rows || !Due(s.t.rows[key], s.t.now) then s
      else
        var t' := ClaimTx(s.t, key, w);
        s.(t := t', workers := s.workers[w := Started(key, t'.rows[key], s.t.now)])
    case _ => if a.w in s.workers && !s.workers[a.w].Idle? then WorkerExec(s, a, a.w) else s
  }

  predicate IsWorkerAction(a: Action) {
    a.Poll? || a.Prove? || a.Decide? || a.ListFacts? || a.Check? || a.Send? || a.Fail? || a.Finish? || a.Crash?
  }

  /** One step of `_maintain_job` by the worker `w`. */
  function WorkerExec(s: State, a: Action, w: Owner): State
    requires w in s.workers && !s.workers[w].Idle? && IsWorkerAction(a)
  {
    var pc := s.workers[w];
    match a
    case Poll(_, answer) =>
      if !pc.Started? then s
      else if Terminal(pc.snap.opState) then Go(s, w, Deciding(pc.key, pc.snap, pc.start, pc.snap.opState))
      else if answer == Unknown then Go(s, w, AfterError(s, pc))
      else if Terminal(answer) then Go(s, w, Proving(pc.key, pc.snap, pc.start, answer))
      else Go(s, w, Deciding(pc.key, pc.snap, pc.start, answer))
    case Prove(_) =>
      if !pc.Proving? then s
      else if !Settles(s.t, pc.key, pc.snap.operation, w, pc.state) then Go(s, w, Idle)
      else
        s.(t := SettledTx(s.t, pc.key, pc.snap.operation, w, pc.state),
           workers := s.workers[w := Deciding(pc.key, pc.snap, pc.start, pc.state)])
    case Decide(_) =>
      if !pc.Deciding? then s
      else if pc.state in {Failed, Cancelled} || (pc.state == Completed && Passed(pc.snap.expires, s.t.now))
      then Go(s, w, Cleaning(pc.key, pc.snap, pc.start, pc.state))
      else
        var next := if !Terminal(pc.state) then pc.start + 5
                    else if pc.snap.expires.Some? then pc.snap.expires.value else NEVER;
        Go(s, w, Finishing(pc.key, pc.snap, Outcome(pc.state, pc.snap.cleanup, next, None)))
    case ListFacts(_, items, total) =>
      if !pc.Cleaning? then s
      else if |items| > 100 || total < |items| || (items == [] && total != 0)
              || (items != [] && pc.snap.lastBatch == Some(Ids(items)))
      then Go(s, w, AfterError(s, pc))
      else if items == [] then Go(s, w, Finishing(pc.key, pc.snap, Outcome(pc.state, Cleaned, pc.start + 5, None)))
      else Go(s, w, Patching(pc.key, pc.snap, pc.start, pc.state, items, 0))
    case Check(_, timeout) =>
      if !pc.Patching? then s
      else if pc.i >= |pc.items|
      then Go(s, w, Finishing(pc.key, pc.snap, Outcome(pc.state, Invalidating, pc.start + 5, Some(Ids(pc.items)))))
      else if timeout then Go(s, w, Finishing(pc.key, pc.snap, Outcome(pc.state, Invalidating, pc.start + 5, None)))
      else if !Proves(pc.key, pc.snap, pc.items[pc.i]) then Go(s, w, AfterError(s, pc))
      else if !Owned(s.t, pc.key, pc.snap.operation, w) then Go(s, w, Idle)
      else Go(s, w, Sending(pc.key, pc.snap, pc.start, pc.state, pc.items, pc.i))
    case Send(_, confirmed) =>
      if !pc.Sending? || pc.i >= |pc.items| then s
      else
        var sent := s.(log := s.log + [Patch(pc.key, pc.items[pc.i], s.t.now)]);
        if confirmed then Go(sent, w, Patching(pc.key, pc.snap, pc.start, pc.state, pc.items, pc.i + 1))
        else Go(sent, w, AfterError(s, pc))
    case Fail(_) => if pc.Finishing? then s else Go(s, w, AfterError(s, pc))
    case Finish(_) =>
      if !pc.Finishing? then s
      else
        s.(t := FinishTx(s.t, pc.key, pc.snap.operation, w, pc.snap.expires, pc.outcome),
           workers := s.workers[w := Idle],
           finished := if Owned(s.t, pc.key, pc.snap.operation, w) then s.finished[pc.key := s.t.now] else s.finished,
           touched := if Owned(s.t, pc.key, pc.snap.operation, w) then s.touched[pc.key := s.t.now] else s.touched)
    case Crash(_) => Go(s, w, Idle)
  }

  function Run(s: State, actions: seq<Action>): State {
    if actions == [] then s else Exec(Run(s, actions[..|actions| - 1]), actions[|actions| - 1])
  }
}

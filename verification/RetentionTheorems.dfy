/** What every run of the retention protocol keeps, and what recall can therefore return. */
module RetentionTheorems {
  import opened Prelude
  import opened MemoryPolicy
  import opened RetentionTables
  import opened RetentionProtocol
  import opened RetentionInvariant
  import opened RetentionStore

  /** Any consistent ledger, with no worker running and no policy read yet. */
  predicate Init(s: State) { RowsOk(s) && s.workers == map[] && s.seen == {} && s.log == [] }

  lemma {:induction false} RunKeepsInv(s: State, actions: seq<Action>)
    requires Inv(s)
    ensures Inv(Run(s, actions)) && Evolves(s.t, Run(s, actions).t)
  {
    if actions != [] {
      var before := actions[..|actions| - 1];
      RunKeepsInv(s, before);
      StepKeepsInv(Run(s, before), actions[|actions| - 1]);
      EvolvesTransitive(s.t, Run(s, before).t, Run(s, actions).t);
    } else {
      EvolvesReflexive(s.t);
    }
  }

  lemma EvolvesReflexive(t: Tables)
    ensures Evolves(t, t)
  {
  }

  lemma EvolvesTransitive(a: Tables, b: Tables, c: Tables)
    requires Evolves(a, b) && Evolves(b, c)
    ensures Evolves(a, c)
  {
    forall key | key in a.rows ensures key in c.rows && RowEvolves(a.rows[key], c.rows[key]) {
      assert RowEvolves(a.rows[key], b.rows[key]) && RowEvolves(b.rows[key], c.rows[key]);
    }
  }

  lemma ReachableInv(s: State, actions: seq<Action>)
    requires Init(s)
    ensures Inv(Run(s, actions))
  {
    RunKeepsInv(s, actions);
  }

  // ----- rows over whole runs -----

  /** Expiry never rises, retries renew nothing, terminal states are final and cleanup only advances. */
  lemma RowsOnlyAge(s: State, actions: seq<Action>, more: seq<Action>, key: RowKey)
    requires Init(s) && key in Run(s, actions).t.rows
    ensures var t, t' := Run(s, actions).t, Run(Run(s, actions), more).t;
            && key in t'.rows
            && t'.rows[key].acceptedAt == t.rows[key].acceptedAt
            && NoLater(t'.rows[key].expires, t.rows[key].expires)
            && (Terminal(t.rows[key].opState) ==> t'.rows[key].opState == t.rows[key].opState)
            && Rank(t.rows[key].cleanup) <= Rank(t'.rows[key].cleanup)
  {
    RunKeepsInv(s, actions);
    RunKeepsInv(Run(s, actions), more);
  }

  // ----- recall -----

  /** The row was recallable under no policy at `now`, for a reason that lasts. */
  predicate Out(row: Row, now: Time) {
    row.cleanup != Waiting || row.opState in {Failed, Cancelled} || Passed(row.expires, now)
  }

  lemma OutStays(a: Row, b: Row, now: Time, at: Time, days: Option<nat>)
    requires Out(a, now) && RowEvolves(a, b) && now <= at
    ensures !Recallable(b, days, at)
  {
  }

  /** Once a row is out, no later state admits its facts under any policy. */
  lemma NeverAdmittedAgain(s: State, more: seq<Action>, key: RowKey, days: Option<nat>, at: Time)
    requires Inv(s) && key in s.t.rows && Out(s.t.rows[key], s.t.now) && s.t.now <= at
    ensures key in Run(s, more).t.rows && !Recallable(Run(s, more).t.rows[key], days, at)
  {
    RunKeepsInv(s, more);
    OutStays(s.t.rows[key], Run(s, more).t.rows[key], s.t.now, at, days);
  }

  function Lookup(t: Tables, key: RowKey): Option<Row> { if key in t.rows then Some(t.rows[key]) else None }

  /** Each reading was made in some state of a run that starts in `s`, and judged no earlier than `s`. */
  predicate ReadLater(s: State, bank: Bank, facts: seq<Fact>, readings: seq<Reading>, moments: seq<seq<Action>>) {
    && |facts| == |readings| == |moments|
    && forall i :: 0 <= i < |facts| && facts[i].document.Some? ==>
         && readings[i].row == Lookup(Run(s, moments[i]).t, RowKey(bank, facts[i].document.value))
         && s.t.now <= readings[i].at
  }

  /** An expired fact is never recalled: every policy read from then on is guarded, and the guarded filter drops it. */
  lemma ExpiredNeverRecalled(s: State, key: RowKey, sincePolicy: seq<Action>, facts: seq<Fact>, readings: seq<Reading>,
                             moments: seq<seq<Action>>, end: Time, fact: Fact)
    requires Inv(s) && key in s.t.rows && Passed(s.t.rows[key].expires, s.t.now)
    requires ReadLater(s, key.bank, facts, readings, moments)
             && s.t.rows[key].employee in Run(s, sincePolicy).t.settings
    ensures var p := Project(Run(s, sincePolicy).t, s.t.rows[key].employee);
            && p.RetentionGuarded()
            && (fact in Surviving(p.employee, key.bank, p, facts, readings, end) ==>
                fact.document != Some(key.document))
  {
    var e := s.t.rows[key].employee;
    RunKeepsInv(s, sincePolicy);
    assert RowOk(s.t, key, s.t.rows[key]);
    GuardStays(s.t, Run(s, sincePolicy).t, e);
    var p := Project(Run(s, sincePolicy).t, e);
    if fact in Surviving(e, key.bank, p, facts, readings, end) && fact.document == Some(key.document) {
      SurvivorHasReading(e, key.bank, p, facts, readings, end, fact);
      var i :| 0 <= i < |facts| && facts[i] == fact && Survives(e, key.bank, p, facts[i], readings[i], end);
      NeverAdmittedAgain(s, moments[i], key, p.policy.days, readings[i].at);
    }
  }

  /** A row that is cleaned, or carries a deadline no later than `limit`, is recallable at no time from `limit` on. */
  lemma BoundRowStaysOut(a: Row, b: Row, limit: Time, at: Time, days: Option<nat>)
    requires RowEvolves(a, b) && limit <= at && (a.cleanup != Waiting || NoLater(a.expires, Some(limit)))
    ensures !Recallable(b, days, at)
  {
  }

  lemma WriteBindsRow(t: Tables, write: Action, key: RowKey, days: nat)
    requires write.WritePolicy? && key in t.rows && t.rows[key].employee == write.e
    requires MergePolicy(CurrentPolicy(t, write.e), write.patch).Some?
    requires MergePolicy(CurrentPolicy(t, write.e), write.patch).value.days == Some(days)
    ensures var t' := WritePolicyTx(t, write.e, write.scope, write.patch, write.seeds);
            && key in t'.rows && t'.rows[key].acceptedAt == t.rows[key].acceptedAt
            && (t'.rows[key].cleanup != Waiting
                || NoLater(t'.rows[key].expires, Some(t.rows[key].acceptedAt + days * DAY)))
  {
  }

  /** A finite policy write binds every row of the employee, whatever policies follow. */
  lemma WrittenDeadlineHolds(s: State, write: Action, more: seq<Action>, key: RowKey, days: nat, later: Option<nat>,
                             at: Time)
    requires Inv(s) && write.WritePolicy? && key in s.t.rows && s.t.rows[key].employee == write.e
    requires MergePolicy(CurrentPolicy(s.t, write.e), write.patch).Some?
    requires MergePolicy(CurrentPolicy(s.t, write.e), write.patch).value.days == Some(days)
    requires s.t.rows[key].acceptedAt + days * DAY <= at && s.t.now <= at
    ensures key in Run(Exec(s, write), more).t.rows && !Recallable(Run(Exec(s, write), more).t.rows[key], later, at)
  {
    StepKeepsInv(s, write);
    var s' := Exec(s, write);
    WriteBindsRow(s.t, write, key, days);
    LaterRowStaysOut(s', more, key, s.t.rows[key].acceptedAt + days * DAY, at, later);
  }

  /** A row accepted under a finite policy carries that policy's deadline, whatever policies follow. */
  lemma AcceptedDeadlineHolds(s: State, a: Acceptance, p: Projection, more: seq<Action>, days: nat, later: Option<nat>,
                              at: Time)
    requires Inv(s) && p in s.seen && p.employee == a.employee == a.key.bank.employee
    requires Accepts(s.t, a, p) && a.key !in s.t.rows && p.policy.days == Some(days)
    requires s.t.now + days * DAY <= at
    ensures var s' := Run(Exec(s, Accept(a, p)), more);
            a.key in s'.t.rows && !Recallable(s'.t.rows[a.key], later, at)
  {
    StepKeepsInv(s, Accept(a, p));
    var s' := Exec(s, Accept(a, p));
    AcceptBindsRow(s, a, p, days);
    LaterRowStaysOut(s', more, a.key, s.t.now + days * DAY, at, later);
  }

  lemma AcceptBindsRow(s: State, a: Acceptance, p: Projection, days: nat)
    requires p in s.seen && p.employee == a.employee == a.key.bank.employee
    requires Accepts(s.t, a, p) && a.key !in s.t.rows && p.policy.days == Some(days)
    ensures var t := Exec(s, Accept(a, p)).t;
            && a.key in t.rows && NoLater(t.rows[a.key].expires, Some(s.t.now + days * DAY)) && a.key.bank in t.guards
  {
  }

  /** A bound row stays out in every run. */
  lemma LaterRowStaysOut(s: State, more: seq<Action>, key: RowKey, limit: Time, at: Time, days: Option<nat>)
    requires Inv(s) && key in s.t.rows && limit <= at
    requires s.t.rows[key].cleanup != Waiting || NoLater(s.t.rows[key].expires, Some(limit))
    ensures key in Run(s, more).t.rows && !Recallable(Run(s, more).t.rows[key], days, at)
  {
    RunKeepsInv(s, more);
    BoundRowStaysOut(s.t.rows[key], Run(s, more).t.rows[key], limit, at, days);
  }

  /**
   Every policy read after `s` is guarded, and no recall under it returns a fact of the document, whenever its rows are
   read.
   */
  ghost predicate NeverRecalled(s: State, key: RowKey, from: Time) {
    forall reading: seq<Action>, facts: seq<Fact>, readings: seq<Reading>, moments: seq<seq<Action>>, end: Time,
      fact: Fact ::
      && ReadLater(s, key.bank, facts, readings, moments) && JudgedFrom(facts, readings, from)
      && key.bank.employee in Run(s, reading).t.settings
      ==> RecallDrops(Run(s, reading), key, facts, readings, end, fact)
  }

  predicate JudgedFrom(facts: seq<Fact>, readings: seq<Reading>, from: Time)
    requires |facts| == |readings|
  {
    forall i :: 0 <= i < |facts| && facts[i].document.Some? ==> from <= readings[i].at
  }

  /** The policy in force is guarded, and the guarded filter does not return the fact if it is of the document. */
  predicate RecallDrops(s: State, key: RowKey, facts: seq<Fact>, readings: seq<Reading>, end: Time, fact: Fact)
    requires key.bank.employee in s.t.settings && |facts| == |readings|
  {
    var p := Project(s.t, key.bank.employee);
    && p.RetentionGuarded()
    && (fact in Surviving(p.employee, key.bank, p, facts, readings, end) ==> fact.document != Some(key.document))
  }

  /** A row bound by a deadline, of a guarded employee, is never recalled from that deadline on. */
  lemma BoundRowNeverRecalled(s: State, key: RowKey, limit: Time)
    requires Inv(s) && key in s.t.rows && GuardedEmployee(s.t, key.bank.employee)
    requires s.t.rows[key].cleanup != Waiting || NoLater(s.t.rows[key].expires, Some(limit))
    ensures NeverRecalled(s, key, limit)
  {
    forall reading: seq<Action>, facts: seq<Fact>, readings: seq<Reading>, moments: seq<seq<Action>>, end: Time,
      fact: Fact |
      && ReadLater(s, key.bank, facts, readings, moments) && JudgedFrom(facts, readings, limit)
      && key.bank.employee in Run(s, reading).t.settings
      ensures RecallDrops(Run(s, reading), key, facts, readings, end, fact)
    {
      RunKeepsInv(s, reading);
      GuardStays(s.t, Run(s, reading).t, key.bank.employee);
      BoundFactIsDropped(s, key, limit, Project(Run(s, reading).t, key.bank.employee), facts, readings, moments, end,
                         fact);
    }
  }

  lemma BoundFactIsDropped(s: State, key: RowKey, limit: Time, p: Projection, facts: seq<Fact>, readings: seq<Reading>,
                           moments: seq<seq<Action>>, end: Time, fact: Fact)
    requires Inv(s) && key in s.t.rows
             && (s.t.rows[key].cleanup != Waiting || NoLater(s.t.rows[key].expires, Some(limit)))
    requires ReadLater(s, key.bank, facts, readings, moments) && JudgedFrom(facts, readings, limit)
    ensures fact in Surviving(p.employee, key.bank, p, facts, readings, end) ==> fact.document != Some(key.document)
  {
    if fact in Surviving(p.employee, key.bank, p, facts, readings, end) && fact.document == Some(key.document) {
      SurvivorHasReading(p.employee, key.bank, p, facts, readings, end, fact);
      var i :| 0 <= i < |facts| && facts[i] == fact && Survives(p.employee, key.bank, p, facts[i], readings[i], end);
      RunKeepsInv(s, moments[i]);
      BoundRowStaysOut(s.t.rows[key], Run(s, moments[i]).t.rows[key], limit, readings[i].at, p.policy.days);
    }
  }

  /** A finite policy write guards the employee for good. */
  lemma WriteGuards(t: Tables, write: Action)
    requires write.WritePolicy? && MergePolicy(CurrentPolicy(t, write.e), write.patch).Some?
    requires MergePolicy(CurrentPolicy(t, write.e), write.patch).value.days.Some?
    ensures GuardedEmployee(WritePolicyTx(t, write.e, write.scope, write.patch, write.seeds), write.e)
  {
    assert Bank(write.scope, write.e) in WritePolicyTx(t, write.e, write.scope, write.patch, write.seeds).guards;
  }

  /**
   After a finite write no fact of any row of the employee is recalled past the written deadline, whatever policies
   follow.
   */
  lemma WrittenDeadlineNeverRecalled(s: State, write: Action, key: RowKey, days: nat)
    requires Inv(s) && write.WritePolicy? && key in s.t.rows && s.t.rows[key].employee == write.e
    requires MergePolicy(CurrentPolicy(s.t, write.e), write.patch).Some?
    requires MergePolicy(CurrentPolicy(s.t, write.e), write.patch).value.days == Some(days)
    ensures NeverRecalled(Exec(s, write), key, s.t.rows[key].acceptedAt + days * DAY)
  {
    assert RowOk(s.t, key, s.t.rows[key]);
    StepKeepsInv(s, write);
    WriteBindsRow(s.t, write, key, days);
    WriteGuards(s.t, write);
    BoundRowNeverRecalled(Exec(s, write), key, s.t.rows[key].acceptedAt + days * DAY);
  }

  /** No fact accepted under a finite policy is recalled past that policy's deadline, whatever policies follow. */
  lemma AcceptedDeadlineNeverRecalled(s: State, a: Acceptance, p: Projection, days: nat)
    requires Inv(s) && p in s.seen && p.employee == a.employee == a.key.bank.employee
    requires Accepts(s.t, a, p) && a.key !in s.t.rows && p.policy.days == Some(days)
    ensures NeverRecalled(Exec(s, Accept(a, p)), a.key, s.t.now + days * DAY)
  {
    StepKeepsInv(s, Accept(a, p));
    var s' := Exec(s, Accept(a, p));
    AcceptBindsRow(s, a, p, days);
    BoundRowNeverRecalled(s', a.key, s.t.now + days * DAY);
  }

  /** prepare refuses an item whose acceptance was cleaned or has expired. */
  predicate Refuses(row: Row, days: Option<nat>, now: Time) {
    row.cleanup == Cleaned || Passed(Deadline(row, days), now)
  }

  /** A retry after the deadline gets the old row back and is refused. */
  lemma RetryCannotRenew(s: State, more: seq<Action>, a: Acceptance, p: Projection)
    requires Inv(s) && a.key in s.t.rows && Passed(s.t.rows[a.key].expires, s.t.now)
    requires Accepts(Run(s, more).t, a, p)
    ensures var t := Run(s, more).t;
            && a.key in t.rows && AcceptedRow(t, a, p) == t.rows[a.key]
            && Refuses(AcceptedRow(t, a, p), p.policy.days, t.now)
            && AcceptTx(t, a, p).rows == t.rows
  {
    RunKeepsInv(s, more);
    RefusedRetry(s.t.rows[a.key], Run(s, more).t, s.t.now, a, p);
  }

  lemma RefusedRetry(row: Row, t: Tables, since: Time, a: Acceptance, p: Projection)
    requires Passed(row.expires, since) && since <= t.now && a.key in t.rows && RowEvolves(row, t.rows[a.key])
    requires Accepts(t, a, p)
    ensures AcceptedRow(t, a, p) == t.rows[a.key] && Refuses(AcceptedRow(t, a, p), p.policy.days, t.now)
    ensures AcceptTx(t, a, p).rows == t.rows
  {
  }

  // ----- invalidation -----

  /** Every invalidation sent is for a proven fact of a row that failed, was cancelled or had expired at that time. */
  lemma InvalidationIsSound(s: State, actions: seq<Action>, i: nat)
    requires Init(s) && i < |Run(s, actions).log|
    ensures var s' := Run(s, actions);
            var patch := s'.log[i];
            && patch.key in s'.t.rows && patch.at <= s'.t.now
            && Proves(patch.key, s'.t.rows[patch.key], patch.fact)
            && Condemned(s'.t.rows[patch.key], patch.at)
  {
    ReachableInv(s, actions);
    assert PatchOk(Run(s, actions).t, Run(s, actions).log[i]);
  }

  /** At the moment of sending, the row as it then stands in the table is condemned, whatever the snapshot says. */
  lemma SentOnlyForCondemned(s: State, actions: seq<Action>, w: Owner, confirmed: bool)
    requires Init(s)
    requires var s' := Run(s, actions); |Exec(s', Send(w, confirmed)).log| > |s'.log|
    ensures var s' := Run(s, actions);
            var patch := Exec(s', Send(w, confirmed)).log[|s'.log|];
            && patch.at == s'.t.now && patch.key in s'.t.rows
            && Condemned(s'.t.rows[patch.key], s'.t.now) && Proves(patch.key, s'.t.rows[patch.key], patch.fact)
  {
    ReachableInv(s, actions);
    var s' := Run(s, actions);
    assert PcOk(s'.t, w, s'.workers[w]);
  }

  /** A fact whose invalidation was sent is never admitted to recall again. */
  lemma InvalidatedNeverAdmitted(s: State, i: nat, more: seq<Action>, days: Option<nat>, at: Time)
    requires Inv(s) && i < |s.log| && s.t.now <= at
    ensures s.log[i].key in Run(s, more).t.rows && !Recallable(Run(s, more).t.rows[s.log[i].key], days, at)
  {
    assert PatchOk(s.t, s.log[i]);
    NeverAdmittedAgain(s, more, s.log[i].key, days, at);
  }

  // ----- policy revisions -----

  /** Equal revisions of an employee's setting mean equal policies over the whole history. */
  lemma RevisionsHaveNoAba(s: State, actions: seq<Action>, p: Projection, q: Projection)
    requires Init(s) && p in Run(s, actions).seen && q in Run(s, actions).seen
    requires p.employee == q.employee && p.revision == q.revision
    ensures p.policy == q.policy
  {
    ReachableInv(s, actions);
  }

  /** The part of a lease that the write authorization looks at. */
  datatype WriteLease = WriteLease(retain: bool, supportedClient: bool, revision: nat)

  predicate AuthorizesRetain(lease: WriteLease, current: Projection) {
    lease.retain && current.policy.retain && lease.supportedClient && current.revision >= 1
      && lease.revision == current.revision
  }

  /** A retain that passes the revision check is accepted under exactly the policy its lease was issued from. */
  lemma RetainRunsUnderLeasedPolicy(s: State, actions: seq<Action>, issued: Projection, current: Projection,
                                    lease: WriteLease, a: Acceptance)
    requires Init(s) && issued in Run(s, actions).seen && current in Run(s, actions).seen
    requires issued.employee == current.employee == a.employee && lease.revision == issued.revision
    requires AuthorizesRetain(lease, current) && Accepts(Run(s, actions).t, a, current)
             && a.key !in Run(s, actions).t.rows
    ensures var t := Run(s, actions).t;
            && current.policy == issued.policy == Normalized(t.settings[a.employee].policy)
            && AcceptedRow(t, a, current).expires == After(t.now, issued.policy.days)
  {
    ReachableInv(s, actions);
  }
}

/** The inductive invariant of the retention protocol. */
module RetentionInvariant {
  import opened Prelude
  import opened MemoryPolicy
  import opened RetentionTables
  import opened RetentionProtocol

  // ----- how rows may change -----

  /** Identity is fixed, expiry never rises, terminal states are final, cleanup only advances. */
  predicate RowEvolves(a: Row, b: Row) {
    && a.employee == b.employee && a.member == b.member && a.operation == b.operation && a.revision == b.revision
    && a.acceptedAt == b.acceptedAt
    && NoLater(b.expires, a.expires)
    && (Terminal(a.opState) ==> b.opState == a.opState)
    && Rank(a.cleanup) <= Rank(b.cleanup)
  }

  predicate Evolves(t: Tables, t': Tables) {
    && t.now <= t'.now
    && t.guards <= t'.guards
    && (forall key :: key in t.rows ==> key in t'.rows && RowEvolves(t.rows[key], t'.rows[key]))
    && (forall e :: e in t.settings ==> e in t'.settings && t.settings[e].revision <= t'.settings[e].revision)
  }

  lemma CondemnedStays(a: Row, b: Row, now: Time, later: Time)
    requires Condemned(a, now) && RowEvolves(a, b) && now <= later
    ensures Condemned(b, later)
  {
  }

  // ----- rows -----

  predicate RowOk(t: Tables, key: RowKey, row: Row) {
    && row.employee == key.bank.employee
    && row.acceptedAt <= t.now
    && (row.terminalAt.Some? <==> Terminal(row.opState))
    && (row.cleanup != Waiting ==> Condemned(row, t.now))
    && (row.expires.Some? ==> GuardedEmployee(t, row.employee))
  }

  /**
   The row comes up again soon after it was last finished, at a policy write that shortened it, or when it expires.
   */
  predicate WakeOk(row: Row, finished: Time, touched: Time) {
    row.cleanup != Cleaned ==>
      || row.nextAttempt <= finished + 256
      || row.nextAttempt <= touched
      || (row.opState == Completed && (row.expires.None? || row.nextAttempt <= row.expires.value))
  }

  predicate TimesOk(s: State, key: RowKey)
    requires key in s.t.rows
  {
    && key in s.finished && key in s.touched && s.finished[key] <= s.touched[key] <= s.t.now
    && WakeOk(s.t.rows[key], s.finished[key], s.touched[key])
  }

  predicate RowsOk(s: State) {
    forall key :: key in s.t.rows ==> RowOk(s.t, key, s.t.rows[key]) && TimesOk(s, key)
  }

  // ----- policies -----

  predicate SeenOk(s: State) {
    && (forall p :: p in s.seen ==>
          && p.employee in s.t.settings
          && p.revision <= s.t.settings[p.employee].revision
          && (p.revision == s.t.settings[p.employee].revision ==>
              p.policy == Normalized(s.t.settings[p.employee].policy)))
    && (forall p, q :: p in s.seen && q in s.seen && p.employee == q.employee && p.revision == q.revision ==>
        p.policy == q.policy)
  }

  // ----- workers -----

  predicate CleaningUp(pc: Pc) { pc.Cleaning? || pc.Patching? || pc.Sending? }

  predicate SnapOk(row: Row, snap: Row) { RowEvolves(snap, row) && snap.cleanup != Cleaned }

  predicate NextOk(pc: Pc, now: Time) {
    match pc
    case Idle => true
    case Finishing(_, snap, o) =>
      || o.next <= now + 256
      || (o.state == Completed && o.next == if snap.expires.Some? then snap.expires.value else NEVER)
    case _ => pc.start <= now
  }

  predicate PcOk(t: Tables, w: Owner, pc: Pc) {
    pc.Idle? ||
    (&& pc.key in t.rows
     && var row := t.rows[pc.key];
     && SnapOk(row, pc.snap)
     && NextOk(pc, t.now)
     && Rank(pc.snap.cleanup) <= Rank(pc.CleanupVar())
     && ((pc.Deciding? || CleaningUp(pc)) && Terminal(pc.state) ==> row.opState == pc.state)
     && (pc.CleanupVar() != Waiting ==> Condemned(row, t.now))
     && (pc.Proving? ==> Terminal(pc.state))
     && (pc.Sending? ==> pc.i < |pc.items| && Proves(pc.key, pc.snap, pc.items[pc.i]))
     && (row.owner == Some(w) ==> row.cleanup == pc.snap.cleanup)
     && (row.owner == Some(w) && Terminal(row.opState) ==> row.opState == pc.StateVar()))
  }

  predicate WorkersOk(s: State) { forall w :: w in s.workers ==> PcOk(s.t, w, s.workers[w]) }

  /** What `w` knows about the row as its owner has not changed. */
  predicate Undisturbed(a: Row, b: Row, w: Owner) {
    b.owner == Some(w) ==> a.owner == Some(w) && b.cleanup == a.cleanup && b.opState == a.opState
  }

  lemma UndisturbedKeepsPc(t: Tables, t': Tables, w: Owner, pc: Pc)
    requires PcOk(t, w, pc) && Evolves(t, t')
    requires !pc.Idle? ==> Undisturbed(t.rows[pc.key], t'.rows[pc.key], w)
    ensures PcOk(t', w, pc)
  {
    if !pc.Idle? {
      var a, b := t.rows[pc.key], t'.rows[pc.key];
      assert RowEvolves(a, b);
      if pc.CleanupVar() != Waiting { CondemnedStays(a, b, t.now, t'.now); }
    }
  }

  // ----- the log -----

  predicate PatchOk(t: Tables, patch: Patch) {
    && patch.key in t.rows && patch.at <= t.now
    && Proves(patch.key, t.rows[patch.key], patch.fact)
    && Condemned(t.rows[patch.key], patch.at)
  }

  predicate LogOk(s: State) { forall i :: 0 <= i < |s.log| ==> PatchOk(s.t, s.log[i]) }

  lemma PatchStays(t: Tables, t': Tables, patch: Patch)
    requires PatchOk(t, patch) && Evolves(t, t')
    ensures PatchOk(t', patch)
  {
    CondemnedStays(t.rows[patch.key], t'.rows[patch.key], patch.at, patch.at);
  }

  predicate Inv(s: State) { RowsOk(s) && SeenOk(s) && WorkersOk(s) && LogOk(s) }

  /** A step that moves only worker `w` and logs nothing. */
  lemma StepKeepsRest(s: State, s': State, w: Owner)
    requires WorkersOk(s) && LogOk(s) && Evolves(s.t, s'.t) && s'.log == s.log
    requires s'.workers.Keys == s.workers.Keys + {w} && PcOk(s'.t, w, s'.workers[w])
    requires forall v :: v in s.workers && v != w ==> s'.workers[v] == s.workers[v]
    requires forall v, key :: v != w && key in s.t.rows ==> Undisturbed(s.t.rows[key], s'.t.rows[key], v)
    ensures WorkersOk(s') && LogOk(s')
  {
    forall v | v in s'.workers ensures PcOk(s'.t, v, s'.workers[v]) {
      if v != w { UndisturbedKeepsPc(s.t, s'.t, v, s.workers[v]); }
    }
    forall i | 0 <= i < |s'.log| ensures PatchOk(s'.t, s'.log[i]) { PatchStays(s.t, s'.t, s.log[i]); }
  }

  /** A step of the environment leaves every owner undisturbed. */
  lemma EnvironmentKeepsRest(s: State, s': State)
    requires WorkersOk(s) && LogOk(s) && Evolves(s.t, s'.t) && s'.log == s.log && s'.workers == s.workers
    requires forall key :: key in s.t.rows ==>
               && s'.t.rows[key].owner == s.t.rows[key].owner && s'.t.rows[key].cleanup == s.t.rows[key].cleanup
               && s'.t.rows[key].opState == s.t.rows[key].opState
    ensures WorkersOk(s') && LogOk(s')
  {
    forall v | v in s'.workers ensures PcOk(s'.t, v, s'.workers[v]) { UndisturbedKeepsPc(s.t, s'.t, v, s.workers[v]); }
    forall i | 0 <= i < |s'.log| ensures PatchOk(s'.t, s'.log[i]) { PatchStays(s.t, s'.t, s.log[i]); }
  }

  lemma GuardStays(t: Tables, t': Tables, e: Employee)
    requires t.guards <= t'.guards && GuardedEmployee(t, e)
    ensures GuardedEmployee(t', e)
  {
    var bank :| bank in t.guards && bank.employee == e;
    assert bank in t'.guards;
  }

  /** Changing one row, with everything else and the guards in place. */
  lemma RowChangeKeepsRows(s: State, s': State, key: RowKey)
    requires RowsOk(s) && key in s'.t.rows && s'.t.now == s.t.now && s.t.guards <= s'.t.guards
    requires s'.t.rows == s.t.rows[key := s'.t.rows[key]]
    requires key in s'.touched && s'.touched == s.touched[key := s'.touched[key]]
    requires key in s'.finished && s'.finished == s.finished[key := s'.finished[key]]
    requires RowOk(s'.t, key, s'.t.rows[key]) && TimesOk(s', key)
    ensures RowsOk(s')
  {
    forall k | k in s'.t.rows ensures RowOk(s'.t, k, s'.t.rows[k]) && TimesOk(s', k) {
      if k != key && s.t.rows[k].expires.Some? { GuardStays(s.t, s'.t, s.t.rows[k].employee); }
    }
  }

  // ----- environment steps -----

  lemma TickKeeps(s: State, seconds: nat)
    requires Inv(s)
    ensures Inv(Exec(s, Tick(seconds))) && Evolves(s.t, Exec(s, Tick(seconds)).t)
  {
    var s' := Exec(s, Tick(seconds));
    forall key | key in s'.t.rows ensures RowOk(s'.t, key, s'.t.rows[key]) {
      assert RowOk(s.t, key, s.t.rows[key]);
      if s.t.rows[key].expires.Some? { GuardStays(s.t, s'.t, s.t.rows[key].employee); }
    }
    EnvironmentKeepsRest(s, s');
  }

  lemma ReadKeepsSeen(s: State, e: Employee)
    requires SeenOk(s)
    ensures SeenOk(Exec(s, ReadPolicy(e)))
  {
  }

  lemma ReadFrame(s: State, e: Employee)
    ensures Exec(s, ReadPolicy(e)) == s.(seen := Exec(s, ReadPolicy(e)).seen)
  {
  }

  lemma ReadKeeps(s: State, e: Employee)
    requires Inv(s)
    ensures Inv(Exec(s, ReadPolicy(e))) && Evolves(s.t, Exec(s, ReadPolicy(e)).t)
  {
    ReadFrame(s, e);
    ReadKeepsSeen(s, e);
    SeenIsApart(s, Exec(s, ReadPolicy(e)));
  }

  /** Only the policies read depend on `seen`. */
  lemma SeenIsApart(s: State, s': State)
    requires Inv(s) && s' == s.(seen := s'.seen) && SeenOk(s')
    ensures Inv(s') && Evolves(s.t, s'.t)
  {
  }

  /** The row of an acceptance is consistent, and new only if there was none. */
  lemma AcceptedRowOk(s: State, a: Acceptance, p: Projection)
    requires RowsOk(s) && Accepts(s.t, a, p) && p in s.seen && p.employee == a.employee
             && a.key.bank.employee == a.employee
    ensures var s' := Exec(s, Accept(a, p));
            && s'.t.rows == s.t.rows[a.key := AcceptedRow(s.t, a, p)] && RowOk(s'.t, a.key, s'.t.rows[a.key])
               && TimesOk(s', a.key)
            && s'.finished == s.finished[a.key := s'.finished[a.key]]
               && s'.touched == s.touched[a.key := s'.touched[a.key]]
  {
    var s', row := Exec(s, Accept(a, p)), AcceptedRow(s.t, a, p);
    if row.expires.Some? { assert a.key.bank in s'.t.guards && a.key.bank.employee == row.employee; }
    if a.key in s.t.rows { assert TimesOk(s, a.key); }
  }

  lemma AcceptFrame(s: State, a: Acceptance, p: Projection)
    requires Accepts(s.t, a, p)
    ensures var s' := Exec(s, Accept(a, p));
            s'.workers == s.workers && s'.log == s.log && s'.seen == s.seen && s'.t.settings == s.t.settings
              && Evolves(s.t, s'.t)
  {
  }

  lemma AcceptKeeps(s: State, a: Acceptance, p: Projection)
    requires Inv(s)
    ensures Inv(Exec(s, Accept(a, p))) && Evolves(s.t, Exec(s, Accept(a, p)).t)
  {
    if Accepts(s.t, a, p) && p in s.seen && p.employee == a.employee && a.key.bank.employee == a.employee {
      AcceptedRowOk(s, a, p);
      AcceptFrame(s, a, p);
      AcceptKeepsInv(s, Exec(s, Accept(a, p)), a.key);
    }
  }

  lemma AcceptKeepsInv(s: State, s': State, key: RowKey)
    requires Inv(s) && key in s'.t.rows && s'.t.rows == s.t.rows[key := s'.t.rows[key]]
    requires key in s.t.rows ==> s'.t.rows[key] == s.t.rows[key]
    requires RowOk(s'.t, key, s'.t.rows[key]) && TimesOk(s', key)
    requires s'.finished == s.finished[key := s'.finished[key]] && s'.touched == s.touched[key := s'.touched[key]]
    requires s'.workers == s.workers && s'.log == s.log && s'.seen == s.seen && s'.t.settings == s.t.settings
    requires s'.t.now == s.t.now && Evolves(s.t, s'.t)
    ensures Inv(s')
  {
    RowChangeKeepsRows(s, s', key);
    SameSettingsKeepSeen(s, s');
    EnvironmentKeepsRest(s, s');
  }

  lemma SameSettingsKeepSeen(s: State, s': State)
    requires SeenOk(s) && s'.seen == s.seen && s'.t.settings == s.t.settings
    ensures SeenOk(s')
  {
  }

  /** The revision never falls, and an unchanged revision means an unchanged stored policy. */
  predicate Succeeds(t: Tables, e: Employee, setting: Setting) {
    e in t.settings ==>
      && t.settings[e].revision <= setting.revision
      && (t.settings[e].revision == setting.revision ==> t.settings[e].policy == setting.policy)
  }

  lemma NextSettingSucceeds(t: Tables, e: Employee, policy: Policy, seeds: Option<string>)
    ensures Succeeds(t, e, NextSetting(t, e, policy, seeds))
  {
  }

  lemma RewriteEvolves(t: Tables, e: Employee, scope: nat, setting: Setting, days: Option<nat>)
    requires Succeeds(t, e, setting)
    ensures Evolves(t, Rewritten(t, e, scope, setting, days))
  {
  }

  /** A written setting is read by its projection, so equal revisions still mean equal policies. */
  lemma RewriteKeepsSeen(s: State, s': State, e: Employee, setting: Setting)
    requires SeenOk(s) && Succeeds(s.t, e, setting) && s'.t.settings == s.t.settings[e := setting]
    requires s'.seen == s.seen + {Project(s'.t, e)}
    ensures SeenOk(s')
  {
    forall p | p in s'.seen && p.employee == e && p.revision == setting.revision
      ensures p.policy == Normalized(setting.policy)
    {
    }
  }

  lemma ShortenedOk(s: State, t': Tables, scope: nat, key: RowKey, days: nat)
    requires key in s.t.rows && RowOk(s.t, key, s.t.rows[key]) && TimesOk(s, key)
    requires t'.now == s.t.now && Bank(scope, s.t.rows[key].employee) in t'.guards
    ensures var row := Shortened(s.t.rows[key], days, s.t.now);
            RowOk(t', key, row) && WakeOk(row, s.finished[key], s.t.now)
  {
    var row := s.t.rows[key];
    if row.cleanup != Waiting { CondemnedStays(row, Shortened(row, days, s.t.now), s.t.now, s.t.now); }
  }

  lemma KeptRowOk(t: Tables, t': Tables, key: RowKey)
    requires key in t.rows && RowOk(t, key, t.rows[key]) && t.guards <= t'.guards && t'.now == t.now
    ensures RowOk(t', key, t.rows[key])
  {
    if t.rows[key].expires.Some? { GuardStays(t, t', t.rows[key].employee); }
  }

  lemma RewriteKeepsRows(s: State, s': State, e: Employee, scope: nat, setting: Setting, days: Option<nat>)
    requires RowsOk(s) && s'.t == Rewritten(s.t, e, scope, setting, days) && s'.finished == s.finished
    requires s'.touched == if days.None? then s.touched
                           else s.touched + map key | key in s.t.rows && Shortens(s.t.rows[key], e) :: s.t.now
    ensures RowsOk(s')
  {
    forall key | key in s'.t.rows ensures RowOk(s'.t, key, s'.t.rows[key]) && TimesOk(s', key) {
      if days.Some? && Shortens(s.t.rows[key], e) {
        assert Bank(scope, e) in s'.t.guards;
        ShortenedOk(s, s'.t, scope, key, days.value);
      } else {
        KeptRowOk(s.t, s'.t, key);
      }
    }
  }

  /** What a write that is not refused does to the state. */
  lemma WriteRewrites(s: State, e: Employee, scope: nat, patch: Dict, seeds: Option<string>)
    returns (setting: Setting, days: Option<nat>)
    requires MergePolicy(CurrentPolicy(s.t, e), patch).Some?
    ensures Succeeds(s.t, e, setting)
    ensures var s' := Exec(s, WritePolicy(e, scope, patch, seeds));
            && s'.t == Rewritten(s.t, e, scope, setting, days) && s'.seen == s.seen + {Project(s'.t, e)}
            && s'.workers == s.workers && s'.log == s.log && s'.finished == s.finished
            && s'.touched == if days.None? then s.touched
                             else s.touched + map key | key in s.t.rows && Shortens(s.t.rows[key], e) :: s.t.now
  {
    var policy := MergePolicy(CurrentPolicy(s.t, e), patch).value;
    NextSettingSucceeds(s.t, e, policy, seeds);
    setting, days := NextSetting(s.t, e, policy, seeds), policy.days;
  }

  lemma WriteKeeps(s: State, e: Employee, scope: nat, patch: Dict, seeds: Option<string>)
    requires Inv(s)
    ensures Inv(Exec(s, WritePolicy(e, scope, patch, seeds)))
    ensures Evolves(s.t, Exec(s, WritePolicy(e, scope, patch, seeds)).t)
  {
    var s' := Exec(s, WritePolicy(e, scope, patch, seeds));
    if MergePolicy(CurrentPolicy(s.t, e), patch).Some? {
      var setting, days := WriteRewrites(s, e, scope, patch, seeds);
      RewriteKeeps(s, s', e, scope, setting, days);
    }
  }

  lemma RewriteKeeps(s: State, s': State, e: Employee, scope: nat, setting: Setting, days: Option<nat>)
    requires Inv(s) && Succeeds(s.t, e, setting)
    requires s'.t == Rewritten(s.t, e, scope, setting, days) && s'.seen == s.seen + {Project(s'.t, e)}
    requires s'.workers == s.workers && s'.log == s.log && s'.finished == s.finished
    requires s'.touched == if days.None? then s.touched
                           else s.touched + map key | key in s.t.rows && Shortens(s.t.rows[key], e) :: s.t.now
    ensures Inv(s') && Evolves(s.t, s'.t)
  {
    RewriteEvolves(s.t, e, scope, setting, days);
    RewriteKeepsRows(s, s', e, scope, setting, days);
    RewriteKeepsSeen(s, s', e, setting);
    EnvironmentKeepsRest(s, s');
  }

  // ----- worker steps -----

  /** The step changes the row `key`, its times and the worker `w`, and nothing else. */
  predicate RowStep(s: State, s': State, w: Owner, key: RowKey) {
    && key in s.t.rows && key in s'.t.rows && w in s'.workers
    && s'.t == s.t.(rows := s.t.rows[key := s'.t.rows[key]])
    && s'.workers == s.workers[w := s'.workers[w]]
    && s'.seen == s.seen && s'.log == s.log
    && key in s'.finished && s'.finished == s.finished[key := s'.finished[key]]
    && key in s'.touched && s'.touched == s.touched[key := s'.touched[key]]
  }

  /** The new row is one the old may become, consistent and with consistent times, and no other worker owned it. */
  predicate RowChangeOk(s: State, s': State, w: Owner, key: RowKey)
    requires RowStep(s, s', w, key)
  {
    var a, b := s.t.rows[key], s'.t.rows[key];
    && RowEvolves(a, b) && RowOk(s'.t, key, b) && TimesOk(s', key)
    && (b.owner.None? || b.owner == Some(w))
  }

  lemma RowStepEvolves(s: State, s': State, w: Owner, key: RowKey)
    requires RowStep(s, s', w, key) && RowEvolves(s.t.rows[key], s'.t.rows[key])
    ensures Evolves(s.t, s'.t)
  {
  }

  lemma RowStepKeepsRest(s: State, s': State, w: Owner, key: RowKey)
    requires WorkersOk(s) && LogOk(s) && RowStep(s, s', w, key) && RowChangeOk(s, s', w, key)
    requires PcOk(s'.t, w, s'.workers[w])
    ensures WorkersOk(s') && LogOk(s')
  {
    RowStepEvolves(s, s', w, key);
    StepKeepsRest(s, s', w);
  }

  lemma RowStepKeepsSeen(s: State, s': State, w: Owner, key: RowKey)
    requires SeenOk(s) && RowStep(s, s', w, key)
    ensures SeenOk(s')
  {
  }

  lemma RowStepKeeps(s: State, s': State, w: Owner, key: RowKey)
    requires Inv(s) && RowStep(s, s', w, key) && RowChangeOk(s, s', w, key) && PcOk(s'.t, w, s'.workers[w])
    ensures Inv(s') && Evolves(s.t, s'.t)
  {
    RowStepEvolves(s, s', w, key);
    RowChangeKeepsRows(s, s', key);
    RowStepKeepsSeen(s, s', w, key);
    RowStepKeepsRest(s, s', w, key);
  }

  /** A row that keeps its owner's employee and expiry keeps its guard. */
  lemma GuardOfRow(t: Tables, t': Tables, row: Row, row': Row)
    requires t.guards == t'.guards && row.employee == row'.employee && row.expires == row'.expires
    requires row.expires.Some? ==> GuardedEmployee(t, row.employee)
    ensures row'.expires.Some? ==> GuardedEmployee(t', row'.employee)
  {
    if row.expires.Some? { GuardStays(t, t', row.employee); }
  }

  lemma ClaimIsRowStep(s: State, w: Owner, key: RowKey)
    requires key in s.t.rows && RowOk(s.t, key, s.t.rows[key]) && TimesOk(s, key) && Due(s.t.rows[key], s.t.now)
    requires w in s.workers ==> s.workers[w].Idle?
    ensures var s' := Exec(s, Claim(w, key));
            RowStep(s, s', w, key) && RowChangeOk(s, s', w, key) && PcOk(s'.t, w, s'.workers[w])
  {
    var s' := Exec(s, Claim(w, key));
    GuardOfRow(s.t, s'.t, s.t.rows[key], s'.t.rows[key]);
  }

  lemma ClaimKeeps(s: State, w: Owner, key: RowKey)
    requires Inv(s)
    ensures Inv(Exec(s, Claim(w, key))) && Evolves(s.t, Exec(s, Claim(w, key)).t)
  {
    if (w in s.workers ==> s.workers[w].Idle?) && key in s.t.rows && Due(s.t.rows[key], s.t.now) {
      ClaimIsRowStep(s, w, key);
      RowStepKeeps(s, Exec(s, Claim(w, key)), w, key);
    }
  }

  /** Steps that change no table. */
  predicate IsLocal(a: Action) { a.Poll? || a.Decide? || a.ListFacts? || a.Check? || a.Fail? || a.Crash? }

  /** The worker `w` runs, and its row satisfies the row invariant. */
  predicate Running(s: State, w: Owner) {
    && w in s.workers && !s.workers[w].Idle? && PcOk(s.t, w, s.workers[w])
    && RowOk(s.t, s.workers[w].key, s.t.rows[s.workers[w].key])
  }

  lemma ErrorKeepsPc(s: State, w: Owner)
    requires Running(s, w)
    ensures PcOk(s.t, w, AfterError(s, s.workers[w]))
  {
  }

  lemma PollKeepsPc(s: State, w: Owner, answer: OpState)
    requires Running(s, w)
    ensures PcOk(s.t, w, WorkerExec(s, Poll(w, answer), w).workers[w])
  {
    var pc := s.workers[w];
    if pc.Started? {
      if Terminal(pc.snap.opState) { KnownStateKeepsPc(s, w); }
      else if answer == Unknown { ErrorKeepsPc(s, w); }
      else { AnswerKeepsPc(s, w, answer); }
    }
  }

  lemma KnownStateKeepsPc(s: State, w: Owner)
    requires Running(s, w) && s.workers[w].Started? && Terminal(s.workers[w].snap.opState)
    ensures var pc := s.workers[w]; PcOk(s.t, w, Deciding(pc.key, pc.snap, pc.start, pc.snap.opState))
  {
  }

  lemma AnswerKeepsPc(s: State, w: Owner, answer: OpState)
    requires Running(s, w) && s.workers[w].Started? && !Terminal(s.workers[w].snap.opState)
    ensures var pc := s.workers[w];
            if Terminal(answer) then PcOk(s.t, w, Proving(pc.key, pc.snap, pc.start, answer))
            else PcOk(s.t, w, Deciding(pc.key, pc.snap, pc.start, answer))
  {
  }

  lemma DecideKeepsPc(s: State, w: Owner)
    requires Running(s, w)
    ensures PcOk(s.t, w, WorkerExec(s, Decide(w), w).workers[w])
  {
    var pc := s.workers[w];
    if pc.Deciding? {
      var condemned := pc.state in {Failed, Cancelled} || (pc.state == Completed && Passed(pc.snap.expires, s.t.now));
      if condemned { CondemnKeepsPc(s, w); } else { RestKeepsPc(s, w); }
    }
  }

  lemma CondemnKeepsPc(s: State, w: Owner)
    requires Running(s, w) && s.workers[w].Deciding?
    requires var pc := s.workers[w];
             pc.state in {Failed, Cancelled} || (pc.state == Completed && Passed(pc.snap.expires, s.t.now))
    ensures var pc := s.workers[w]; PcOk(s.t, w, Cleaning(pc.key, pc.snap, pc.start, pc.state))
  {
  }

  lemma RestKeepsPc(s: State, w: Owner)
    requires Running(s, w) && s.workers[w].Deciding?
    requires s.workers[w].state !in {Failed, Cancelled}
    ensures var pc := s.workers[w];
            var next := if !Terminal(pc.state) then pc.start + 5
                        else if pc.snap.expires.Some? then pc.snap.expires.value else NEVER;
            PcOk(s.t, w, Finishing(pc.key, pc.snap, Outcome(pc.state, pc.snap.cleanup, next, None)))
  {
  }

  lemma ListKeepsPc(s: State, w: Owner, items: seq<Fact>, total: int)
    requires Running(s, w)
    ensures PcOk(s.t, w, WorkerExec(s, ListFacts(w, items, total), w).workers[w])
  {
    ErrorKeepsPc(s, w);
  }

  lemma CheckKeepsPc(s: State, w: Owner, timeout: bool)
    requires Running(s, w)
    ensures PcOk(s.t, w, WorkerExec(s, Check(w, timeout), w).workers[w])
  {
    var pc := s.workers[w];
    if pc.Patching? {
      if pc.i >= |pc.items| { BatchEndKeepsPc(s, w, Some(Ids(pc.items))); }
      else if timeout { BatchEndKeepsPc(s, w, None); }
      else if Proves(pc.key, pc.snap, pc.items[pc.i]) { NextPatchKeepsPc(s, w); }
      else { ErrorKeepsPc(s, w); }
    }
  }

  lemma BatchEndKeepsPc(s: State, w: Owner, batch: Option<multiset<string>>)
    requires Running(s, w) && s.workers[w].Patching?
    ensures var pc := s.workers[w];
            PcOk(s.t, w, Finishing(pc.key, pc.snap, Outcome(pc.state, Invalidating, pc.start + 5, batch)))
  {
  }

  lemma NextPatchKeepsPc(s: State, w: Owner)
    requires Running(s, w) && s.workers[w].Patching?
    requires var pc := s.workers[w]; pc.i < |pc.items| && Proves(pc.key, pc.snap, pc.items[pc.i])
    ensures var pc := s.workers[w]; PcOk(s.t, w, Sending(pc.key, pc.snap, pc.start, pc.state, pc.items, pc.i))
  {
  }

  lemma LocalKeepsPc(s: State, a: Action, w: Owner)
    requires Running(s, w) && IsLocal(a) && a.w == w
    ensures PcOk(s.t, w, WorkerExec(s, a, w).workers[w])
  {
    match a {
      case Poll(_, answer) => PollKeepsPc(s, w, answer);
      case Decide(_) => DecideKeepsPc(s, w);
      case ListFacts(_, items, total) => ListKeepsPc(s, w, items, total);
      case Check(_, timeout) => CheckKeepsPc(s, w, timeout);
      case Fail(_) => ErrorKeepsPc(s, w);
      case Crash(_) =>
    }
  }

  lemma LocalFrame(s: State, a: Action, w: Owner)
    requires w in s.workers && !s.workers[w].Idle? && IsLocal(a)
    ensures var s' := WorkerExec(s, a, w);
            w in s'.workers && s' == s.(workers := s.workers[w := s'.workers[w]])
  {
  }

  lemma MoveKeeps(s: State, s': State, w: Owner)
    requires Inv(s) && w in s.workers && w in s'.workers && s' == s.(workers := s.workers[w := s'.workers[w]])
    requires PcOk(s.t, w, s'.workers[w])
    ensures Inv(s') && Evolves(s.t, s'.t)
  {
  }

  lemma LocalKeeps(s: State, a: Action, w: Owner)
    requires Inv(s) && w in s.workers && !s.workers[w].Idle? && IsLocal(a) && a.w == w
    ensures Inv(WorkerExec(s, a, w)) && Evolves(s.t, WorkerExec(s, a, w).t)
  {
    LocalKeepsPc(s, a, w);
    LocalFrame(s, a, w);
    MoveKeeps(s, WorkerExec(s, a, w), w);
  }

  lemma ProveIsRowStep(s: State, w: Owner)
    requires Running(s, w) && s.workers[w].Proving? && TimesOk(s, s.workers[w].key)
    requires Settles(s.t, s.workers[w].key, s.workers[w].snap.operation, w, s.workers[w].state)
    ensures var s', key := WorkerExec(s, Prove(w), w), s.workers[w].key;
            RowStep(s, s', w, key) && RowChangeOk(s, s', w, key) && PcOk(s'.t, w, s'.workers[w])
  {
    var s', key := WorkerExec(s, Prove(w), w), s.workers[w].key;
    GuardOfRow(s.t, s'.t, s.t.rows[key], s'.t.rows[key]);
  }

  lemma StopKeeps(s: State, w: Owner)
    requires Inv(s) && w in s.workers
    ensures Inv(Go(s, w, Idle))
  {
  }

  lemma ProveKeeps(s: State, w: Owner)
    requires Inv(s) && w in s.workers && !s.workers[w].Idle?
    ensures Inv(WorkerExec(s, Prove(w), w)) && Evolves(s.t, WorkerExec(s, Prove(w), w).t)
  {
    var pc := s.workers[w];
    if pc.Proving? {
      if Settles(s.t, pc.key, pc.snap.operation, w, pc.state) {
        ProveIsRowStep(s, w);
        RowStepKeeps(s, WorkerExec(s, Prove(w), w), w, pc.key);
      } else {
        StopKeeps(s, w);
      }
    }
  }

  lemma FinishIsRowStep(s: State, w: Owner)
    requires Running(s, w) && s.workers[w].Finishing? && TimesOk(s, s.workers[w].key)
    requires Owned(s.t, s.workers[w].key, s.workers[w].snap.operation, w)
    ensures var s', key := WorkerExec(s, Finish(w), w), s.workers[w].key;
            RowStep(s, s', w, key) && RowChangeOk(s, s', w, key) && PcOk(s'.t, w, s'.workers[w])
  {
    var s', pc := WorkerExec(s, Finish(w), w), s.workers[w];
    FinishedRowOk(s.t.rows[pc.key], pc, w, s.t.now);
    GuardOfRow(s.t, s'.t, s.t.rows[pc.key], s'.t.rows[pc.key]);
  }

  lemma FinishKeeps(s: State, w: Owner)
    requires Inv(s) && w in s.workers && !s.workers[w].Idle?
    ensures Inv(WorkerExec(s, Finish(w), w)) && Evolves(s.t, WorkerExec(s, Finish(w), w).t)
  {
    var pc := s.workers[w];
    if pc.Finishing? {
      if Owned(s.t, pc.key, pc.snap.operation, w) {
        FinishIsRowStep(s, w);
        RowStepKeeps(s, WorkerExec(s, Finish(w), w), w, pc.key);
      } else {
        StopKeeps(s, w);
      }
    }
  }

  lemma FinishedRowOk(row: Row, pc: Pc, w: Owner, now: Time)
    requires pc.Finishing? && SnapOk(row, pc.snap) && NextOk(pc, now)
    requires pc.outcome.cleanup != Waiting ==> Condemned(row, now)
    requires Terminal(row.opState) ==> row.opState == pc.outcome.state
    ensures var done := FinishedRow(row, pc.snap.expires, pc.outcome, now);
            WakeOk(done, now, now) && (done.cleanup != Waiting ==> Condemned(done, now))
  {
  }

  lemma SendIsSound(s: State, w: Owner, confirmed: bool)
    requires Running(s, w) && s.workers[w].Sending?
    ensures var s', pc := WorkerExec(s, Send(w, confirmed), w), s.workers[w];
            && pc.i < |pc.items| && PatchOk(s.t, Patch(pc.key, pc.items[pc.i], s.t.now))
            && s'.log == s.log + [Patch(pc.key, pc.items[pc.i], s.t.now)]
            && s' == Go(s, w, s'.workers[w]).(log := s'.log) && PcOk(s.t, w, s'.workers[w])
  {
    ErrorKeepsPc(s, w);
  }

  lemma LogGrows(s: State, s': State, patch: Patch)
    requires Inv(s) && s' == s.(log := s.log + [patch]) && PatchOk(s.t, patch)
    ensures Inv(s')
  {
  }

  lemma SendKeeps(s: State, w: Owner, confirmed: bool)
    requires Inv(s) && w in s.workers && !s.workers[w].Idle?
    ensures Inv(WorkerExec(s, Send(w, confirmed), w)) && Evolves(s.t, WorkerExec(s, Send(w, confirmed), w).t)
  {
    var s', pc := WorkerExec(s, Send(w, confirmed), w), s.workers[w];
    if pc.Sending? {
      SendIsSound(s, w, confirmed);
      var moved := Go(s, w, s'.workers[w]);
      MoveKeeps(s, moved, w);
      LogGrows(moved, s', Patch(pc.key, pc.items[pc.i], s.t.now));
    }
  }

  lemma StepKeepsInv(s: State, a: Action)
    requires Inv(s)
    ensures Inv(Exec(s, a)) && Evolves(s.t, Exec(s, a).t)
  {
    if !IsWorkerAction(a) {
      EnvironmentKeeps(s, a);
    } else if a.w in s.workers && !s.workers[a.w].Idle? {
      WorkerKeeps(s, a, a.w);
      assert Exec(s, a) == WorkerExec(s, a, a.w);
    } else {
      assert Exec(s, a) == s;
    }
  }

  lemma EnvironmentKeeps(s: State, a: Action)
    requires Inv(s) && !IsWorkerAction(a)
    ensures Inv(Exec(s, a)) && Evolves(s.t, Exec(s, a).t)
  {
    match a {
      case Tick(seconds) => TickKeeps(s, seconds);
      case WritePolicy(e, scope, patch, seeds) => WriteKeeps(s, e, scope, patch, seeds);
      case ReadPolicy(e) => ReadKeeps(s, e);
      case Accept(r, p) => AcceptKeeps(s, r, p);
      case Claim(w, key) => ClaimKeeps(s, w, key);
    }
  }

  lemma WorkerKeeps(s: State, a: Action, w: Owner)
    requires Inv(s) && IsWorkerAction(a) && a.w == w && w in s.workers && !s.workers[w].Idle?
    ensures Inv(WorkerExec(s, a, w)) && Evolves(s.t, WorkerExec(s, a, w).t)
  {
    if a.Prove? { ProveKeeps(s, w); }
    else if a.Finish? { FinishKeeps(s, w); }
    else if a.Send? { SendKeeps(s, w, a.confirmed); }
    else { LocalKeeps(s, a, w); }
  }
}

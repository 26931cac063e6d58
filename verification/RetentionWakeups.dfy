/** When a row of the retention ledger comes up again, and that a condemned row can always be cleaned. */
module RetentionWakeups {
  import opened Prelude
  import opened MemoryPolicy
  import opened RetentionTables
  import opened RetentionProtocol
  import opened RetentionInvariant
  import opened RetentionTheorems

  /** Every uncleaned row comes up again: by its expiry if it completed, else shortly after it was last touched. */
  lemma NoLostWakeUp(s: State, actions: seq<Action>, key: RowKey, later: Time)
    requires Init(s)
    requires var s' := Run(s, actions); key in s'.t.rows && s'.t.rows[key].cleanup != Cleaned
    ensures var s' := Run(s, actions);
            var row := s'.t.rows[key];
            && key in s'.touched && key in s'.finished && s'.finished[key] <= s'.touched[key] <= s'.t.now
            && WakesInTime(row, s'.touched[key]) && IsDueBy(row, s'.touched[key], later)
  {
    ReachableTimes(s, actions, key);
    var s' := Run(s, actions);
    RowWakes(s'.t.rows[key], s'.finished[key], s'.touched[key], later);
  }

  lemma ReachableTimes(s: State, actions: seq<Action>, key: RowKey)
    requires Init(s) && key in Run(s, actions).t.rows
    ensures TimesOk(Run(s, actions), key)
  {
    ReachableInv(s, actions);
  }

  /** What the wake-up invariant of one row says about its next attempt. */
  lemma RowWakes(row: Row, finished: Time, touched: Time, later: Time)
    requires row.cleanup != Cleaned && finished <= touched && WakeOk(row, finished, touched)
    ensures WakesInTime(row, touched) && IsDueBy(row, touched, later)
  {
  }

  /** The next attempt is soon after the last touch, or for a completed row no later than its expiry. */
  predicate WakesInTime(row: Row, touched: Time) {
    && (row.opState != Completed ==> row.nextAttempt <= touched + 256)
    && (row.opState == Completed && row.expires.Some? ==>
          row.nextAttempt <= Max(row.expires.value, touched + 256))
  }

  /** Once the last touch is past, the expiry of a completed row has passed and no claim runs, the row is due. */
  predicate IsDueBy(row: Row, touched: Time, later: Time) {
    && later >= touched + 256
    && (row.opState == Completed ==> Passed(row.expires, later))
    && (row.claimUntil.Some? ==> row.claimUntil.value <= later)
    ==> Due(row, later)
  }

  // ----- the bound that counts finishes only -----

  /** The next attempt is no later than the expiry, or 256 seconds after the last finish or acceptance. */
  predicate FinishBound(row: Row, finished: Time) {
    row.expires.Some? ==> row.nextAttempt <= Max(row.expires.value, finished + 256)
  }

  /**
   In every reachable state the bound holds of a completed row, or the row has already come up; and it can fail only
   after a policy write later than the bound itself.
   */
  lemma FinishBoundOrDue(s: State, actions: seq<Action>, key: RowKey)
    requires Init(s)
    requires var s' := Run(s, actions);
             key in s'.t.rows && s'.t.rows[key].cleanup != Cleaned && s'.t.rows[key].opState == Completed
    ensures var s' := Run(s, actions);
            var row := s'.t.rows[key];
            && key in s'.finished
            && (FinishBound(row, s'.finished[key]) || row.nextAttempt <= s'.t.now)
            && (row.claimUntil.None? ==> FinishBound(row, s'.finished[key]) || Due(row, s'.t.now))
            && key in s'.touched
            && (row.expires.Some? && s'.touched[key] <= Max(row.expires.value, s'.finished[key] + 256) ==>
                  FinishBound(row, s'.finished[key]))
  {
    ReachableTimes(s, actions, key);
  }

  /** The bound as it stands after a write that shortens the row to `days`. */
  function BoundAfterWrite(row: Row, days: nat, finished: Time): Time {
    Max(Least(row.expires, Some(row.acceptedAt + days * DAY)).value, finished + 256)
  }

  /**
   A policy write that shortens the row keeps the bound if and only if it comes no later than the bound, or the row was
   to come up by then.
   */
  lemma WriteKeepsBoundExactly(s: State, write: Action, key: RowKey, days: nat)
    requires write.WritePolicy? && key in s.t.rows && key in s.finished && Shortens(s.t.rows[key], write.e)
    requires MergePolicy(CurrentPolicy(s.t, write.e), write.patch).Some?
    requires MergePolicy(CurrentPolicy(s.t, write.e), write.patch).value.days == Some(days)
    ensures key in Exec(s, write).t.rows && key in Exec(s, write).finished
    ensures var bound := BoundAfterWrite(s.t.rows[key], days, s.finished[key]);
            FinishBound(Exec(s, write).t.rows[key], Exec(s, write).finished[key]) <==>
              s.t.now <= bound || s.t.rows[key].nextAttempt <= bound
  {
    assert Exec(s, write).t.rows[key] == Shortened(s.t.rows[key], days, s.t.now);
  }

  // ----- a run that breaks it -----

  const EMPTY: State := State(Tables(0, map[], {}, map[]), map[], {}, map[], map[], [])
  const KEY: RowKey := RowKey(Bank(0, 0), "document")
  const REQUEST: Acceptance := Acceptance(KEY, 0, 0, "operation")

  /** A policy without a retention limit, the default. */
  lemma DefaultPolicy()
    ensures MergePolicy(ToDict(Normalized(map[])), map[]) == Some(Normalized(map[])) && Normalized(map[]).days.None?
  {
    var p := Normalized(map[]);
    assert ToDict(p) + Stripped(map[]) == ToDict(p);
    assert ToDict(p) - {"operations"} == ToDict(p) by { assert "operations" !in ToDict(p); }
    NormalizedIsNormal(map[]);
    StoredFormReadsBack(p);
  }

  const ONE_DAY: Dict := map["retention_days" := Int(1)]

  lemma OneDayPolicy(current: Dict)
    ensures MergePolicy(current, ONE_DAY).Some? && MergePolicy(current, ONE_DAY).value.days == Some(1)
  {
    assert Stripped(ONE_DAY) == ONE_DAY;
    assert ValidPatch(ONE_DAY) by { assert ONE_DAY.Keys == {"retention_days"}; }
    assert "retention_days" != "operations" && "retention_days" in (current + ONE_DAY) - {"operations"};
  }

  lemma RunStep(s: State, actions: seq<Action>, a: Action)
    ensures Run(s, actions + [a]) == Exec(Run(s, actions), a)
  {
    assert (actions + [a])[..|actions|] == actions;
  }

  /** A first write of the default policy can be read. */
  lemma FirstWrite()
    ensures var s := Exec(EMPTY, WritePolicy(0, 0, map[], None));
            && s.t.now == 0 && s.t.rows == map[] && s.workers == map[] && 0 in s.t.settings
               && s.t.settings[0].revision == 1
            && Project(s.t, 0) in s.seen && Project(s.t, 0).policy.days.None?
  {
    DefaultPolicy();
    NormalizedIsNormal(map[]);
    StoredFormReadsBack(Normalized(map[]));
  }

  lemma AcceptUnder(s: State, p: Projection)
    requires s.t.rows == map[] && 0 in s.t.settings && s.t.settings[0].revision == p.revision == 1
    requires p in s.seen && p.employee == 0 && p.policy.days.None?
    ensures var s' := Exec(s, Accept(REQUEST, p));
            && s'.t.now == s.t.now && s'.workers == s.workers && s'.t.settings == s.t.settings
            && JustAccepted(s', KEY) && s'.finished[KEY] == s.t.now
  {
  }

  /** The row rests: it was accepted, completes without a limit, and is due again only in the year 9999. */
  predicate Rests(s: State, key: RowKey) {
    && key in s.t.rows && key in s.finished && s.finished[key] == s.t.now && s.t.rows[key].acceptedAt == s.t.now
    && s.t.rows[key].employee == key.bank.employee
    && s.t.rows[key].opState == Completed && s.t.rows[key].cleanup == Waiting && s.t.rows[key].claimUntil.None?
    && s.t.rows[key].expires.None? && s.t.rows[key].nextAttempt == NEVER
  }

  /** The row was just accepted without a limit. */
  predicate JustAccepted(s: State, key: RowKey) {
    && key in s.t.rows && key in s.finished
    && var row := s.t.rows[key];
    && row.employee == key.bank.employee && row.acceptedAt == s.t.now && row.nextAttempt == s.t.now && row.expires.None?
    && row.opState == Pending && row.terminalAt.None? && row.cleanup == Waiting && row.claimUntil.None?
  }

  /** Claim, and the answer that the operation is completed. */
  lemma ClaimAndPoll(s: State, w: Owner, key: RowKey) returns (s': State)
    requires JustAccepted(s, key) && w !in s.workers
    ensures s' == Exec(Exec(s, Claim(w, key)), Poll(w, Completed))
    ensures s'.t == ClaimTx(s.t, key, w) && s'.finished == s.finished
    ensures w in s'.workers && s'.workers[w] == Proving(key, s'.t.rows[key], s.t.now, Completed)
  {
    var s1 := Exec(s, Claim(w, key));
    assert s1.workers[w] == Started(key, s1.t.rows[key], s.t.now);
    s' := Exec(s1, Poll(w, Completed));
  }

  /** Proof, decision and finish of a completed operation without a limit. */
  lemma ProveAndDecide(s: State, w: Owner, key: RowKey) returns (s': State)
    requires key in s.t.rows && w in s.workers && s.workers[w] == Proving(key, s.t.rows[key], s.t.now, Completed)
    requires Owned(s.t, key, s.t.rows[key].operation, w) && s.t.rows[key].terminalAt.None?
             && s.t.rows[key].expires.None?
    ensures s' == Exec(Exec(s, Prove(w)), Decide(w))
    ensures s'.t == SettledTx(s.t, key, s.t.rows[key].operation, w, Completed) && s'.finished == s.finished
            && w in s'.workers
    ensures s'.workers[w] == Finishing(key, s.t.rows[key], Outcome(Completed, s.t.rows[key].cleanup, NEVER, None))
  {
    var s1 := Exec(s, Prove(w));
    assert s1.workers[w] == Deciding(key, s.t.rows[key], s.t.now, Completed);
    s' := Exec(s1, Decide(w));
  }

  /** One turn of a worker on a row that has just been accepted without a limit. */
  lemma TurnCompletes(s: State, w: Owner, key: RowKey) returns (actions: seq<Action>)
    requires JustAccepted(s, key) && w !in s.workers
    ensures Rests(Run(s, actions), key) && Run(s, actions).t.now == s.t.now
  {
    var s2 := ClaimAndPoll(s, w, key);
    var s4 := ProveAndDecide(s2, w, key);
    RunOfFour(s, Claim(w, key), Poll(w, Completed), Prove(w), Decide(w));
    var start := [Claim(w, key), Poll(w, Completed), Prove(w), Decide(w)];
    RunStep(s, start, Finish(w));
    FinishRests(s4, w, key, s2.t.rows[key]);
    actions := start + [Finish(w)];
  }

  lemma FinishRests(s: State, w: Owner, key: RowKey, snap: Row)
    requires key in s.t.rows && w in s.workers && Owned(s.t, key, snap.operation, w) && key in s.finished
    requires s.workers[w] == Finishing(key, snap, Outcome(Completed, Waiting, NEVER, None))
    requires s.t.rows[key].expires.None? && s.t.rows[key].acceptedAt == s.t.now
    requires s.t.rows[key].employee == key.bank.employee
    ensures Rests(Exec(s, Finish(w)), key) && Exec(s, Finish(w)).t.now == s.t.now
  {
  }

  /** Two days later, a write of a one-day policy shortens the resting row into the past. */
  lemma LateWriteBreaksBound(s: State, key: RowKey)
    requires Rests(s, key) && s.t.now == 0
    ensures var s' := Exec(Exec(s, Tick(2 * DAY)), WritePolicy(key.bank.employee, 0, ONE_DAY, None));
            && key in s'.t.rows && key in s'.finished
            && s'.t.rows[key].opState == Completed && s'.t.rows[key].cleanup == Waiting
               && s'.t.rows[key].claimUntil.None?
            && s'.t.rows[key].expires == Some(DAY) && !FinishBound(s'.t.rows[key], s'.finished[key])
  {
    var later, write := Exec(s, Tick(2 * DAY)), WritePolicy(key.bank.employee, 0, ONE_DAY, None);
    OneDayPolicy(CurrentPolicy(later.t, key.bank.employee));
    WriteKeepsBoundExactly(later, write, key, 1);
    assert Exec(later, write).t.rows[key] == Shortened(later.t.rows[key], 1, later.t.now);
  }

  /** A first policy, and an acceptance under it. */
  lemma StartWithoutLimit() returns (start: seq<Action>)
    ensures var s := Run(EMPTY, start); JustAccepted(s, KEY) && s.workers == map[] && s.t.now == 0
  {
    FirstWrite();
    var write := WritePolicy(0, 0, map[], None);
    var s1 := Exec(EMPTY, write);
    var p := Project(s1.t, 0);
    AcceptUnder(s1, p);
    RunOfTwo(EMPTY, write, Accept(REQUEST, p));
    start := [write, Accept(REQUEST, p)];
  }

  /** From an empty ledger there is a run to a completed, unclaimed, finitely expiring row that breaks the bound. */
  lemma FinishBoundFails() returns (actions: seq<Action>)
    ensures Init(EMPTY)
    ensures var s := Run(EMPTY, actions);
            && KEY in s.t.rows && KEY in s.finished
            && s.t.rows[KEY].opState == Completed && s.t.rows[KEY].cleanup == Waiting && s.t.rows[KEY].claimUntil.None?
            && s.t.rows[KEY].expires.Some? && !FinishBound(s.t.rows[KEY], s.finished[KEY])
  {
    var start := StartWithoutLimit();
    var turn := TurnCompletes(Run(EMPTY, start), 0, KEY);
    RunConcat(EMPTY, start, turn);
    var rest := Run(EMPTY, start + turn);
    LateWriteBreaksBound(rest, KEY);
    RunOfTwo(rest, Tick(2 * DAY), WritePolicy(0, 0, ONE_DAY, None));
    RunConcat(EMPTY, start + turn, [Tick(2 * DAY), WritePolicy(0, 0, ONE_DAY, None)]);
    actions := start + turn + [Tick(2 * DAY), WritePolicy(0, 0, ONE_DAY, None)];
  }

  // ----- cleaning can always finish -----

  /** Waiting until the row is due, and claiming it with a fresh worker. */
  lemma WaitAndClaim(s: State, w: Owner, key: RowKey) returns (wait: nat)
    requires key in s.t.rows && s.t.rows[key].cleanup != Cleaned && w !in s.workers
    ensures var s' := Exec(Exec(s, Tick(wait)), Claim(w, key));
            && s'.t.now == s.t.now + wait && key in s'.t.rows && w in s'.workers
            && s'.t.rows[key].opState == s.t.rows[key].opState && s'.t.rows[key].expires == s.t.rows[key].expires
            && s'.workers[w] == Started(key, s'.t.rows[key], s'.t.now) && Owned(s'.t, key, s'.t.rows[key].operation, w)
  {
    var row := s.t.rows[key];
    wait := row.nextAttempt + if row.claimUntil.Some? then row.claimUntil.value else 0;
  }

  lemma PollAndCondemn(s: State, w: Owner, key: RowKey) returns (s': State)
    requires key in s.t.rows && w in s.workers && s.workers[w] == Started(key, s.t.rows[key], s.t.now)
    requires Condemned(s.t.rows[key], s.t.now)
    ensures s' == Exec(Exec(s, Poll(w, Unknown)), Decide(w))
    ensures s' == Go(s, w, Cleaning(key, s.t.rows[key], s.t.now, s.t.rows[key].opState))
  {
    var s1 := Exec(s, Poll(w, Unknown));
    assert s1 == Go(s, w, Deciding(key, s.t.rows[key], s.t.now, s.t.rows[key].opState));
    s' := Exec(s1, Decide(w));
  }

  lemma ListAndFinish(s: State, w: Owner, key: RowKey)
    requires key in s.t.rows && w in s.workers
             && s.workers[w] == Cleaning(key, s.t.rows[key], s.t.now, s.t.rows[key].opState)
    requires Owned(s.t, key, s.t.rows[key].operation, w)
    ensures var s' := Exec(Exec(s, ListFacts(w, [], 0)), Finish(w));
            key in s'.t.rows && s'.t.rows[key].cleanup == Cleaned
  {
    var row := s.t.rows[key];
    assert Exec(s, ListFacts(w, [], 0)) ==
           Go(s, w, Finishing(key, row, Outcome(row.opState, Cleaned, s.t.now + 5, None)));
  }

  /** A worker whose upstream lists no fact any more cleans a condemned row. */
  lemma TurnCleans(s: State, w: Owner, key: RowKey)
    requires key in s.t.rows && w in s.workers && s.workers[w] == Started(key, s.t.rows[key], s.t.now)
    requires Owned(s.t, key, s.t.rows[key].operation, w) && Condemned(s.t.rows[key], s.t.now)
    ensures var s' := Run(s, [Poll(w, Unknown), Decide(w), ListFacts(w, [], 0), Finish(w)]);
            key in s'.t.rows && s'.t.rows[key].cleanup == Cleaned
  {
    var s2 := PollAndCondemn(s, w, key);
    ListAndFinish(s2, w, key);
    RunOfFour(s, Poll(w, Unknown), Decide(w), ListFacts(w, [], 0), Finish(w));
  }

  /** From every state a condemned row that is not cleaned can still be driven to cleaned by a fresh worker. */
  lemma CleaningCanFinish(s: State, w: Owner, key: RowKey) returns (actions: seq<Action>)
    requires key in s.t.rows && s.t.rows[key].cleanup != Cleaned && Condemned(s.t.rows[key], s.t.now) && w !in s.workers
    ensures key in Run(s, actions).t.rows && Run(s, actions).t.rows[key].cleanup == Cleaned
  {
    var wait := WaitAndClaim(s, w, key);
    var s2 := Exec(Exec(s, Tick(wait)), Claim(w, key));
    TurnCleans(s2, w, key);
    RunOfTwo(s, Tick(wait), Claim(w, key));
    var turn := [Poll(w, Unknown), Decide(w), ListFacts(w, [], 0), Finish(w)];
    RunConcat(s, [Tick(wait), Claim(w, key)], turn);
    actions := [Tick(wait), Claim(w, key)] + turn;
  }

  // ----- runs -----

  lemma RunOfTwo(s: State, a: Action, b: Action)
    ensures Run(s, [a, b]) == Exec(Exec(s, a), b)
  {
    assert [a, b][..1] == [a];
    assert [a][..0] == [];
    assert Run(s, [a]) == Exec(Run(s, []), a);
  }

  lemma RunOfFour(s: State, a: Action, b: Action, c: Action, d: Action)
    ensures Run(s, [a, b, c, d]) == Exec(Exec(Exec(Exec(s, a), b), c), d)
  {
    RunOfTwo(s, a, b);
    assert [a, b, c, d][..3] == [a, b, c] && [a, b, c][..2] == [a, b];
    assert Run(s, [a, b, c]) == Exec(Run(s, [a, b]), c);
  }

  lemma {:induction false} RunConcat(s: State, first: seq<Action>, second: seq<Action>)
    ensures Run(s, first + second) == Run(Run(s, first), second)
  {
    if second == [] {
      assert first + second == first;
    } else {
      var n := |second| - 1;
      assert (first + second)[..|first + second| - 1] == first + second[..n];
      RunConcat(s, first, second[..n]);
    }
  }
}

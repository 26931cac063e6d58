/**
 The retention repository and the policy writer as an object updating its rows in
 place, and the recall filter as the loop the service runs over native results.
 */
module RetentionStore {
  import opened Prelude
  import opened MemoryPolicy
  import opened RetentionTables

  class Repository {
    var settings: map<Employee, Setting>
    var guards: set<Bank>
    var rows: map<RowKey, Row>

    constructor ()
      ensures settings == map[] && guards == {} && rows == map[]
    {
      settings, guards, rows := map[], {}, map[];
    }

    function At(now: Time): Tables
      reads this
    {
      Tables(now, settings, guards, rows)
    }

    /** Returns the projection of the written policy, or None when the patch is rejected. */
    method WritePolicy(now: Time, e: Employee, scope: nat, patch: Dict, seeds: Option<string>)
      returns (projection: Option<Projection>)
      modifies this
      ensures At(now) == WritePolicyTx(old(At(now)), e, scope, patch, seeds)
      ensures projection.None? <==> MergePolicy(CurrentPolicy(old(At(now)), e), patch).None?
      ensures projection.Some? ==> e in settings && projection.value == Project(At(now), e)
    {
      var merged := MergePolicy(CurrentPolicy(At(now), e), patch);
      if merged.None? { return None; }
      var policy := merged.value;
      var next := NextSetting(At(now), e, policy, seeds);
      NextReadsBack(At(now), e, patch, policy, seeds);
      StoreSetting(now, e, scope, next, policy.days);
      projection := Some(Projection(e, policy, next.revision, GuardedEmployee(At(now), e)));
    }

    /** The new setting, and for a finite policy the guard and the shortened rows. */
    method StoreSetting(now: Time, e: Employee, scope: nat, next: Setting, days: Option<nat>)
      modifies this
      ensures At(now) == Rewritten(old(At(now)), e, scope, next, days)
    {
      settings := settings[e := next];
      if days.Some? {
        guards := guards + {Bank(scope, e)};
        rows := map key | key in rows ::
                  if Shortens(rows[key], e) then Shortened(rows[key], days.value, now) else rows[key];
      }
    }

    /** None stands for the conflict errors, which roll the transaction back. */
    method Accept(now: Time, a: Acceptance, p: Projection) returns (row: Option<Row>)
      modifies this
      ensures At(now) == AcceptTx(old(At(now)), a, p)
      ensures row == if Accepts(old(At(now)), a, p) then Some(AcceptedRow(old(At(now)), a, p)) else None
    {
      if a.employee !in settings || settings[a.employee].revision != p.revision { return None; }
      var result := if a.key in rows then rows[a.key] else NewRow(now, a, p);
      if !SameScope(result, a) { return None; }
      rows := rows[a.key := result];
      if result.expires.Some? { guards := guards + {a.key.bank}; }
      row := Some(result);
    }

    /** claim: a due row with the earliest next attempt. */
    method Claim(now: Time, w: Owner) returns (claimed: Option<RowKey>)
      modifies this`rows
      ensures claimed.None? ==> rows == old(rows) && forall key :: key in rows ==> !Due(rows[key], now)
      ensures claimed.Some? ==>
                && claimed.value in old(rows) && Due(old(rows)[claimed.value], now)
                && At(now) == ClaimTx(old(At(now)), claimed.value, w)
                && forall key :: key in old(rows) && Due(old(rows)[key], now) ==>
                     old(rows)[claimed.value].nextAttempt <= old(rows)[key].nextAttempt
    {
      claimed := None;
      var pending := rows.Keys;
      while pending != {}
        invariant rows == old(rows) && pending <= rows.Keys
        invariant claimed.Some? ==> claimed.value in rows && Due(rows[claimed.value], now)
        invariant forall key :: key in rows && key !in pending && Due(rows[key], now) ==>
                    claimed.Some? && rows[claimed.value].nextAttempt <= rows[key].nextAttempt
      {
        var key :| key in pending;
        if Due(rows[key], now) && (claimed.None? || rows[key].nextAttempt < rows[claimed.value].nextAttempt) {
          claimed := Some(key);
        }
        pending := pending - {key};
      }
      if claimed.Some? {
        var row := rows[claimed.value];
        rows := rows[claimed.value := row.(owner := Some(w), claimUntil := Some(now + CLAIM_SECONDS),
                                           attempts := row.attempts + 1)];
      }
    }

    method Settled(now: Time, key: RowKey, operation: string, w: Owner, state: OpState) returns (ok: bool)
      modifies this`rows
      ensures At(now) == SettledTx(old(At(now)), key, operation, w, state)
      ensures ok == Settles(old(At(now)), key, operation, w, state)
    {
      if !Terminal(state) { return false; }
      ok := Owned(At(now), key, operation, w) && (rows[key].terminalAt.None? || rows[key].opState == state);
      if ok {
        rows := rows[key := rows[key].(opState := state, terminalAt := TerminalTime(rows[key], now))];
      }
    }

    method Finish(now: Time, key: RowKey, operation: string, w: Owner, seen: Option<Time>, o: Outcome)
      modifies this`rows
      ensures At(now) == FinishTx(old(At(now)), key, operation, w, seen, o)
    {
      if Owned(At(now), key, operation, w) {
        rows := rows[key := FinishedRow(rows[key], seen, o, now)];
      }
    }
  }

  /** The setting that a write stores is read as the policy it was made from. */
  lemma NextReadsBack(t: Tables, e: Employee, patch: Dict, policy: Policy, seeds: Option<string>)
    requires MergePolicy(CurrentPolicy(t, e), patch) == Some(policy)
    ensures Normalized(NextSetting(t, e, policy, seeds).policy) == policy
  {
    MergeIsNormal(CurrentPolicy(t, e), patch);
    StoredFormReadsBack(policy);
  }

  lemma MergeIsNormal(current: Dict, patch: Dict)
    requires MergePolicy(current, patch).Some?
    ensures NormalForm(MergePolicy(current, patch).value)
  {
  }

  // ----- recall -----

  datatype Recall = Results(facts: seq<Fact>) | Unavailable

  /** One ledger read per fact: the row found, if any, and the clock when it was judged. */
  datatype Reading = Reading(row: Option<Row>, at: Time)

  predicate Blank(text: string) { forall i :: 0 <= i < |text| ==> text[i] in {' ', '\t', '\n', '\r'} }

  predicate WellFormed(fact: Fact) {
    && fact.id.Some? && 1 <= |fact.id.value| <= 256
    && fact.text.Some? && !Blank(fact.text.value) && |fact.text.value| <= 131072
  }

  /** The fact is proven by its ledger row, and that row admits it when it is read. */
  predicate Admitted(e: Employee, bank: Bank, p: Projection, fact: Fact, reading: Reading) {
    && fact.kind != OtherKind && fact.document.Some?
    && reading.row.Some? && reading.row.value.employee == e
    && Proves(RowKey(bank, fact.document.value), reading.row.value, fact)
    && Recallable(reading.row.value, p.policy.days, reading.at)
  }

  /** A fact that is admitted but carries no usable id or text makes the whole response unavailable. */
  predicate AdmitsMalformed(e: Employee, bank: Bank, p: Projection, fact: Fact, reading: Reading) {
    Admitted(e, bank, p, fact, reading) && !WellFormed(fact)
  }

  /** Positions of the facts that survive both passes of the filter. */
  predicate Survives(e: Employee, bank: Bank, p: Projection, fact: Fact, reading: Reading, end: Time) {
    Admitted(e, bank, p, fact, reading) && !Passed(Deadline(reading.row.value, p.policy.days), end)
  }

  function Surviving(e: Employee, bank: Bank, p: Projection, facts: seq<Fact>, readings: seq<Reading>,
                     end: Time): seq<Fact>
    requires |facts| == |readings|
  {
    if facts == [] then []
    else
      var n := |facts| - 1;
      Surviving(e, bank, p, facts[..n], readings[..n], end)
      + (if Survives(e, bank, p, facts[n], readings[n], end) then [facts[n]] else [])
  }

  /** filter_recall: an unguarded policy passes the response through. */
  method FilterRecall(e: Employee, bank: Bank, p: Projection, facts: seq<Fact>, readings: seq<Reading>, end: Time)
    returns (out: Recall)
    requires |facts| == |readings|
    ensures !p.RetentionGuarded() ==> out == Results(facts)
    ensures p.RetentionGuarded() ==>
              if |facts| > 256 || exists i :: 0 <= i < |facts| && AdmitsMalformed(e, bank, p, facts[i], readings[i])
              then out == Unavailable
              else out == Results(Surviving(e, bank, p, facts, readings, end))
  {
    if !p.RetentionGuarded() { return Results(facts); }
    if |facts| > 256 { return Unavailable; }
    var output: seq<(Fact, Option<Time>)> := [];
    for i := 0 to |facts|
      invariant forall k :: 0 <= k < i && Admitted(e, bank, p, facts[k], readings[k]) ==> WellFormed(facts[k])
      invariant FilterOutput(output, end) == Surviving(e, bank, p, facts[..i], readings[..i], end)
    {
      var fact, reading := facts[i], readings[i];
      if Admitted(e, bank, p, fact, reading) {
        if !WellFormed(fact) { return Unavailable; }
        output := output + [(fact, Deadline(reading.row.value, p.policy.days))];
      }
      assert facts[..i + 1][..i] == facts[..i] && readings[..i + 1][..i] == readings[..i];
    }
    assert facts[..|facts|] == facts && readings[..|facts|] == readings;
    out := Results(FilterOutput(output, end));
  }

  /** The second pass, at the clock after all rows were read. */
  function FilterOutput(output: seq<(Fact, Option<Time>)>, end: Time): seq<Fact> {
    if output == [] then []
    else
      var n := |output| - 1;
      FilterOutput(output[..n], end) + (if Passed(output[n].1, end) then [] else [output[n].0])
  }

  /** Every fact a guarded recall returns has a reading that admitted it and is unexpired at the end. */
  lemma {:induction false} SurvivorHasReading(e: Employee, bank: Bank, p: Projection, facts: seq<Fact>,
                                              readings: seq<Reading>, end: Time, fact: Fact)
    requires |facts| == |readings| && fact in Surviving(e, bank, p, facts, readings, end)
    ensures exists i :: 0 <= i < |facts| && facts[i] == fact && Survives(e, bank, p, facts[i], readings[i], end)
  {
    var n := |facts| - 1;
    if Survives(e, bank, p, facts[n], readings[n], end) && facts[n] == fact {
    } else {
      SurvivorHasReading(e, bank, p, facts[..n], readings[..n], end, fact);
      var i :| 0 <= i < n && facts[..n][i] == fact && Survives(e, bank, p, facts[..n][i], readings[..n][i], end);
      assert facts[i] == fact && readings[i] == readings[..n][i];
    }
  }
}

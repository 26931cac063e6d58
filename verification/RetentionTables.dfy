/**
 Rows of the memory retention tables of one tenant and each transaction that
 changes them as a function, with time in seconds.
 */
module RetentionTables {
  import opened Prelude
  import opened MemoryPolicy

  type Employee = nat
  type Owner = nat
  type Time = nat

  const DAY: nat := 86400
  const CLAIM_SECONDS: nat := 60

  /** A bank id is derived from the enterprise scope and the employee; the digest is taken to be injective. */
  datatype Bank = Bank(scope: nat, employee: Employee)

  datatype RowKey = RowKey(bank: Bank, document: string)

  datatype OpState = Pending | Processing | Unknown | Completed | Failed | Cancelled

  datatype Cleanup = Waiting | Invalidating | Cleaned

  datatype Row = Row(
    employee: Employee, member: nat, operation: string, revision: nat, acceptedAt: Time, expires: Option<Time>,
    opState: OpState, terminalAt: Option<Time>, cleanup: Cleanup, owner: Option<Owner>, claimUntil: Option<Time>,
    attempts: nat, nextAttempt: Time, lastBatch: Option<multiset<string>>)

  datatype Setting = Setting(policy: Dict, seeds: string, revision: nat)

  datatype Tables = Tables(now: Time, settings: map<Employee, Setting>, guards: set<Bank>, rows: map<RowKey, Row>)

  predicate Terminal(state: OpState) { state in {Completed, Failed, Cancelled} }

  function Rank(c: Cleanup): nat { match c case Waiting => 0 case Invalidating => 1 case Cleaned => 2 }

  // ----- expiry: NULL is "never" -----

  /** SQL LEAST, which ignores NULL. */
  function Least(a: Option<Time>, b: Option<Time>): Option<Time> {
    if a.None? then b else if b.None? then a else if a.value <= b.value then a else b
  }

  /** `a` is no later than `b`. */
  predicate NoLater(a: Option<Time>, b: Option<Time>) { b.None? || (a.Some? && a.value <= b.value) }

  predicate Passed(expiry: Option<Time>, now: Time) { expiry.Some? && expiry.value <= now }

  function After(accepted: Time, days: Option<nat>): Option<Time> {
    if days.Some? then Some(accepted + days.value * DAY) else None
  }

  /** deadline(row, policy) */
  function Deadline(row: Row, days: Option<nat>): Option<Time> { Least(row.expires, After(row.acceptedAt, days)) }

  // ----- policies -----

  predicate GuardedEmployee(t: Tables, e: Employee) { exists bank :: bank in t.guards && bank.employee == e }

  /** What a reader of the effective policy gets. */
  datatype Projection = Projection(employee: Employee, policy: Policy, revision: nat, guarded: bool)
  {
    predicate RetentionGuarded() { policy.days.Some? || guarded }
  }

  function Project(t: Tables, e: Employee): Projection
    requires e in t.settings
  {
    Projection(e, Normalized(t.settings[e].policy), t.settings[e].revision, GuardedEmployee(t, e))
  }

  function CurrentPolicy(t: Tables, e: Employee): Dict {
    if e in t.settings then t.settings[e].policy else ToDict(Normalized(map[]))
  }

  function NextSetting(t: Tables, e: Employee, policy: Policy, seeds: Option<string>): Setting {
    var dict := ToDict(policy);
    if e !in t.settings then Setting(dict, if seeds.Some? then seeds.value else "", 1)
    else
      var previous := t.settings[e];
      var kept := if seeds.Some? then seeds.value else previous.seeds;
      var changed := dict != previous.policy || kept != previous.seeds;
      Setting(dict, kept, if changed then previous.revision + 1 else previous.revision)
  }

  function Shortened(row: Row, days: nat, now: Time): Row {
    row.(expires := Least(row.expires, Some(row.acceptedAt + days * DAY)),
         nextAttempt := if row.nextAttempt <= now then row.nextAttempt else now)
  }

  predicate Shortens(row: Row, e: Employee) { row.employee == e && row.cleanup != Cleaned }

  /** The tables with a new setting, and for a finite policy the bank guarded and the rows shortened. */
  function Rewritten(t: Tables, e: Employee, scope: nat, setting: Setting, days: Option<nat>): Tables {
    var written := t.(settings := t.settings[e := setting]);
    if days.None? then written
    else
      written.(guards := t.guards + {Bank(scope, e)},
               rows := map key | key in t.rows ::
                         if Shortens(t.rows[key], e) then Shortened(t.rows[key], days.value, t.now) else t.rows[key])
  }

  /** write_policy_in_session; a rejected patch changes nothing. */
  function WritePolicyTx(t: Tables, e: Employee, scope: nat, patch: Dict, seeds: Option<string>): Tables {
    var merged := MergePolicy(CurrentPolicy(t, e), patch);
    if merged.None? then t
    else Rewritten(t, e, scope, NextSetting(t, e, merged.value, seeds), merged.value.days)
  }

  // ----- acceptance -----

  datatype Acceptance = Acceptance(key: RowKey, employee: Employee, member: nat, operation: string)

  function NewRow(now: Time, a: Acceptance, p: Projection): Row {
    Row(a.employee, a.member, a.operation, p.revision, now, After(now, p.policy.days),
        Pending, None, Waiting, None, None, 0, now, None)
  }

  predicate SameScope(row: Row, a: Acceptance) {
    row.employee == a.employee && row.member == a.member && row.operation == a.operation
  }

  predicate Accepts(t: Tables, a: Acceptance, p: Projection) {
    && a.employee in t.settings && t.settings[a.employee].revision == p.revision
    && (a.key in t.rows ==> SameScope(t.rows[a.key], a))
  }

  /** The row an accepted request gets back: a retry gets the row of the first acceptance. */
  function AcceptedRow(t: Tables, a: Acceptance, p: Projection): Row {
    if a.key in t.rows then t.rows[a.key] else NewRow(t.now, a, p)
  }

  function AcceptTx(t: Tables, a: Acceptance, p: Projection): Tables {
    if !Accepts(t, a, p) then t
    else
      var row := AcceptedRow(t, a, p);
      t.(rows := t.rows[a.key := row], guards := if row.expires.Some? then t.guards + {a.key.bank} else t.guards)
  }

  // ----- the cleanup worker -----

  predicate Due(row: Row, now: Time) {
    && row.nextAttempt <= now && row.cleanup != Cleaned
    && (row.claimUntil.None? || row.claimUntil.value <= now)
  }

  function ClaimTx(t: Tables, key: RowKey, w: Owner): Tables
    requires key in t.rows
  {
    var row := t.rows[key];
    t.(rows := t.rows[key := row.(owner := Some(w), claimUntil := Some(t.now + CLAIM_SECONDS),
                                  attempts := row.attempts + 1)])
  }

  predicate Owned(t: Tables, key: RowKey, operation: string, w: Owner) {
    && key in t.rows && t.rows[key].operation == operation && t.rows[key].owner == Some(w)
    && t.rows[key].claimUntil.Some? && t.now < t.rows[key].claimUntil.value
  }

  function TerminalTime(row: Row, now: Time): Option<Time> {
    if row.terminalAt.Some? then row.terminalAt else Some(now)
  }

  predicate Settles(t: Tables, key: RowKey, operation: string, w: Owner, state: OpState) {
    && Terminal(state) && Owned(t, key, operation, w)
    && (t.rows[key].terminalAt.None? || t.rows[key].opState == state)
  }

  function SettledTx(t: Tables, key: RowKey, operation: string, w: Owner, state: OpState): Tables {
    if !Settles(t, key, operation, w, state) then t
    else t.(rows := t.rows[key := t.rows[key].(opState := state, terminalAt := TerminalTime(t.rows[key], t.now))])
  }

  /** The arguments of one finish call. */
  datatype Outcome = Outcome(state: OpState, cleanup: Cleanup, next: Time, batch: Option<multiset<string>>)

  function FinishedRow(row: Row, seen: Option<Time>, o: Outcome, now: Time): Row {
    row.(opState := o.state,
         terminalAt := if Terminal(o.state) then TerminalTime(row, now) else row.terminalAt,
         cleanup := o.cleanup,
         nextAttempt := if row.expires != seen && row.expires.Some? && row.expires.value < o.next
           then row.expires.value else o.next,
         lastBatch := if o.batch.Some? then o.batch else row.lastBatch,
         owner := None, claimUntil := None)
  }

  /** `seen` is the expiry in the snapshot the worker holds. */
  function FinishTx(t: Tables, key: RowKey, operation: string, w: Owner, seen: Option<Time>, o: Outcome): Tables {
    if !Owned(t, key, operation, w) then t
    else t.(rows := t.rows[key := FinishedRow(t.rows[key], seen, o, t.now)])
  }

  // ----- facts -----

  /** Metadata the Manager stamps on every accepted item. */
  datatype Stamp = Stamp(operation: string, revision: nat, acceptedAt: Time)

  datatype Kind = World | Experience | OtherKind

  datatype Fact = Fact(id: Option<string>, text: Option<string>, kind: Kind, document: Option<string>,
                       stamp: Option<Stamp>)

  predicate Proves(key: RowKey, row: Row, fact: Fact) {
    fact.document == Some(key.document) && fact.stamp == Some(Stamp(row.operation, row.revision, row.acceptedAt))
  }

  /** The row admits its facts to recall under this policy at this time. */
  predicate Recallable(row: Row, days: Option<nat>, now: Time) {
    row.opState == Completed && row.cleanup == Waiting && !Passed(Deadline(row, days), now)
  }

  /** The operation did not succeed, or the row has expired. */
  predicate Condemned(row: Row, now: Time) {
    row.opState in {Failed, Cancelled} || (row.opState == Completed && Passed(row.expires, now))
  }
}

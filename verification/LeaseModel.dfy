/**
 Both lease stores on values: the in-memory store with its four indexes, and the
 SQL store with its table and its process cache of raw tokens. A token stands for
 its digest, which is taken to be injective.
 */
module LeaseModel {
  import opened Prelude

  /** Opaque identifiers; a generated token is never the empty one. */
  type LeaseId = nat
  type Token = nat
  type Text = nat

  datatype Scope = Scope(tenant: nat, member: nat, employee: nat)

  datatype Info = Info(
    id: LeaseId, token: Token, scope: Scope, snapshot: Text, fingerprint: Text, bank: Text, version: nat,
    issuedAt: nat, expiresAt: nat, operations: set<Text>, revision: nat, protocol: Option<Text>)

  datatype Row = Row(info: Info, revokedAt: Option<nat>)
  {
    predicate Active(now: nat) { revokedAt.None? && now < info.expiresAt }
  }

  /** What the caller of issue supplies; the fingerprint covers snapshot and policy. */
  datatype Request = Request(
    scope: Scope, snapshot: Text, fingerprint: Text, bank: Text, operations: set<Text>, revision: nat,
    protocol: Option<Text>, rotate: bool)

  function NewInfo(now: nat, ttl: nat, r: Request, id: LeaseId, token: Token, version: nat): Info {
    Info(id, token, r.scope, r.snapshot, r.fingerprint, r.bank, version, now, now + ttl, r.operations, r.revision,
         r.protocol)
  }

  predicate Reusable(row: Row, now: nat, r: Request) {
    && row.Active(now) && !r.rotate
    && row.info.fingerprint == r.fingerprint && row.info.bank == r.bank && row.info.protocol == r.protocol
  }

  function RevokedNow(row: Row, now: nat): Row { if row.revokedAt.None? then row.(revokedAt := Some(now)) else row }

  datatype Resolution = Resolved(info: Info) | Unauthorized | Forbidden

  function Judge(row: Row, now: nat, bank: Text): Resolution {
    if !row.Active(now) then Unauthorized else if row.info.bank != bank then Forbidden else Resolved(row.info)
  }

  // ----- the in-memory store -----

  datatype Mem = Mem(rows: map<LeaseId, Row>, byToken: map<Token, LeaseId>, active: map<Scope, LeaseId>,
                     versions: map<Scope, nat>)

  /** One row is indexed by its id, its token and, while unrevoked, its scope. */
  predicate RowOk(m: Mem, id: LeaseId)
    requires id in m.rows
  {
    var info := m.rows[id].info;
    && info.id == id
    && info.token in m.byToken && m.byToken[info.token] == id
    && info.scope in m.versions && 1 <= info.version <= m.versions[info.scope]
    && (m.rows[id].revokedAt.None? ==> info.scope in m.active && m.active[info.scope] == id)
  }

  predicate RowsOk(m: Mem) { forall id :: id in m.rows ==> RowOk(m, id) }

  predicate TokensOk(m: Mem) {
    forall token :: token in m.byToken ==> m.byToken[token] in m.rows && m.rows[m.byToken[token]].info.token == token
  }

  /** The active lease of a scope is unrevoked and carries the newest version. */
  predicate ActiveOk(m: Mem) {
    forall s :: s in m.active ==>
      && m.active[s] in m.rows && s in m.versions
      && m.rows[m.active[s]].info.scope == s && m.rows[m.active[s]].revokedAt.None?
      && m.rows[m.active[s]].info.version == m.versions[s]
  }

  predicate SameVersion(a: Info, b: Info) { a.scope == b.scope && a.version == b.version }

  predicate VersionsDistinct(rows: map<LeaseId, Row>) {
    forall a, b :: a in rows && b in rows && SameVersion(rows[a].info, rows[b].info) ==> a == b
  }

  /** `top` names, for every scope ever used, the lease with the newest version. */
  predicate TopOk(m: Mem, top: map<Scope, LeaseId>) {
    && top.Keys == m.versions.Keys
    && forall s :: s in top ==>
         && top[s] in m.rows
         && m.rows[top[s]].info.scope == s && m.rows[top[s]].info.version == m.versions[s]
  }

  /** The id, token and scope indexes agree, and per scope only the newest version can be unrevoked. */
  predicate IndexesAgree(m: Mem) { RowsOk(m) && TokensOk(m) && ActiveOk(m) && VersionsDistinct(m.rows) }

  predicate MemOk(m: Mem, top: map<Scope, LeaseId>) { IndexesAgree(m) && TopOk(m, top) }

  function NextVersion(m: Mem, s: Scope): nat { (if s in m.versions then m.versions[s] else 0) + 1 }

  predicate MemReuses(m: Mem, now: nat, r: Request) {
    r.scope in m.active && m.active[r.scope] in m.rows && Reusable(m.rows[m.active[r.scope]], now, r)
  }

  function MemIssued(m: Mem, now: nat, ttl: nat, r: Request, id: LeaseId, token: Token): Info {
    if MemReuses(m, now, r) then m.rows[m.active[r.scope]].info
      else NewInfo(now, ttl, r, id, token, NextVersion(m, r.scope))
  }

  function MemIssue(m: Mem, now: nat, ttl: nat, r: Request, id: LeaseId, token: Token): Mem {
    if MemReuses(m, now, r) then m
    else
      var retired := if r.scope in m.active && m.active[r.scope] in m.rows
                     then m.rows[m.active[r.scope] := RevokedNow(m.rows[m.active[r.scope]], now)] else m.rows;
      Mem(retired[id := Row(NewInfo(now, ttl, r, id, token, NextVersion(m, r.scope)), None)],
          m.byToken[token := id], m.active[r.scope := id], m.versions[r.scope := NextVersion(m, r.scope)])
  }

  /** The optional scope arguments of a call. */
  datatype ScopeArgs = ScopeArgs(tenant: Option<nat>, member: Option<nat>, employee: Option<nat>)
  {
    predicate All() { tenant.Some? && member.Some? && employee.Some? }

    predicate Nothing() { tenant.None? && member.None? && employee.None? }

    /** All of the arguments or none of them are given. */
    predicate Uniform() { All() || Nothing() }

    /** Every argument that is given is that of the scope. */
    predicate Fit(s: Scope) {
      && (tenant.Some? ==> tenant.value == s.tenant) && (member.Some? ==> member.value == s.member)
      && (employee.Some? ==> employee.value == s.employee)
    }

    /** The SQL store replaces incomplete arguments by the scope of the lease. */
    predicate FitComplete(s: Scope) { All() ==> Fit(s) }
  }

  function MemRevoke(m: Mem, now: nat, id: LeaseId, args: ScopeArgs): Mem {
    if id !in m.rows || !args.Fit(m.rows[id].info.scope) then m
    else
      var s := m.rows[id].info.scope;
      m.(rows := m.rows[id := RevokedNow(m.rows[id], now)],
         active := if s in m.active && m.active[s] == id then m.active - {s} else m.active)
  }

  function MemRevokeScope(m: Mem, now: nat, s: Scope): Mem {
    if s !in m.active || m.active[s] !in m.rows then m
    else m.(rows := m.rows[m.active[s] := RevokedNow(m.rows[m.active[s]], now)], active := m.active - {s})
  }

  /** The in-memory store returns the active lease that it takes out of its index. */
  function MemScopeAnswer(m: Mem, s: Scope): Option<LeaseId> { if s in m.active then Some(m.active[s]) else None }

  function MemResolve(m: Mem, now: nat, token: Token, bank: Text): Resolution {
    if token !in m.byToken || m.byToken[token] !in m.rows || m.rows[m.byToken[token]].info.token != token
      then Unauthorized
    else Judge(m.rows[m.byToken[token]], now, bank)
  }

  // ----- the SQL store -----

  datatype Sql = Sql(rows: map<LeaseId, Row>, raw: map<LeaseId, Token>)

  /** `id` is the row that ORDER BY version DESC LIMIT 1 selects for the scope. */
  predicate Newest(rows: map<LeaseId, Row>, s: Scope, id: LeaseId) {
    && id in rows && rows[id].info.scope == s
    && forall other :: other in rows && rows[other].info.scope == s ==>
       rows[other].info.version <= rows[id].info.version
  }

  predicate SqlReuses(q: Sql, id: LeaseId, now: nat, r: Request) {
    id in q.rows && Reusable(q.rows[id], now, r) && id in q.raw
  }

  /** Issue when `newest` is the selected row of the scope, or None when there is none. */
  function SqlIssued(q: Sql, newest: Option<LeaseId>, now: nat, ttl: nat, r: Request, id: LeaseId, token: Token): Info {
    if newest.Some? && SqlReuses(q, newest.value, now, r) then q.rows[newest.value].info.(token := q.raw[newest.value])
    else
      var version := if newest.Some? && newest.value in q.rows then q.rows[newest.value].info.version + 1 else 1;
      NewInfo(now, ttl, r, id, token, version)
  }

  function SqlIssue(q: Sql, newest: Option<LeaseId>, now: nat, ttl: nat, r: Request, id: LeaseId, token: Token): Sql {
    if newest.Some? && SqlReuses(q, newest.value, now, r) then q
    else
      var retired := if newest.Some? && newest.value in q.rows
                     then q.rows[newest.value := RevokedNow(q.rows[newest.value], now)] else q.rows;
      Sql(retired[id := Row(SqlIssued(q, newest, now, ttl, r, id, token), None)], q.raw[id := token])
  }

  function SqlRevoke(q: Sql, now: nat, id: LeaseId, args: ScopeArgs): Sql {
    if id !in q.rows || !args.FitComplete(q.rows[id].info.scope) then q
    else q.(rows := q.rows[id := RevokedNow(q.rows[id], now)])
  }

  function SqlRevokeScope(q: Sql, now: nat, s: Scope): Sql {
    q.(rows := map id | id in q.rows :: if q.rows[id].info.scope == s then RevokedNow(q.rows[id], now) else q.rows[id])
  }

  predicate Unrevoked(rows: map<LeaseId, Row>, s: Scope, id: LeaseId)
    requires id in rows
  {
    rows[id].info.scope == s && rows[id].revokedAt.None?
  }

  /** A scope revocation returns one of the rows it revokes, or nothing when there is none. */
  predicate SqlScopeAnswer(rows: map<LeaseId, Row>, s: Scope, answer: Option<LeaseId>) {
    if answer.Some? then answer.value in rows && Unrevoked(rows, s, answer.value)
    else forall id :: id in rows ==> !Unrevoked(rows, s, id)
  }

  /** cleanup_expired: expired rows are marked revoked at their expiry. */
  function SqlCleanup(q: Sql, now: nat): Sql {
    q.(rows := map id | id in q.rows ::
                 if q.rows[id].revokedAt.None? && q.rows[id].info.expiresAt <= now
                 then q.rows[id].(revokedAt := Some(q.rows[id].info.expiresAt)) else q.rows[id])
  }

  /** The SQL store also checks the scope arguments that a resolve is given. */
  function InScope(answer: Resolution, args: ScopeArgs): Resolution {
    if answer.Resolved? && !args.Fit(answer.info.scope) then Forbidden else answer
  }

  predicate SqlFinds(q: Sql, token: Token, id: LeaseId) { id in q.rows && q.rows[id].info.token == token }

  ghost function NewestOf(q: Sql, s: Scope): Option<LeaseId>
    ensures NewestOf(q, s).Some? ==> Newest(q.rows, s, NewestOf(q, s).value)
    ensures NewestOf(q, s).None? ==> forall id :: !Newest(q.rows, s, id)
  {
    if exists id :: Newest(q.rows, s, id) then var id :| Newest(q.rows, s, id); Some(id) else None
  }

  /** The row the SQL store finds by digest, if any. */
  ghost function SqlResolve(q: Sql, now: nat, token: Token, bank: Text): Resolution {
    if exists id :: SqlFinds(q, token, id) then
      var id :| SqlFinds(q, token, id);
      Judge(q.rows[id], now, bank)
    else Unauthorized
  }
}

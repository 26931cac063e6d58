/** The two lease stores answer alike: a simulation over every sequence of operations. */
module LeaseRefinement {
  import opened Prelude
  import opened LeaseModel

  // ----- the in-memory store keeps its indexes consistent -----

  function TopAfter(m: Mem, top: map<Scope, LeaseId>, now: nat, r: Request, id: LeaseId): map<Scope, LeaseId> {
    if MemReuses(m, now, r) then top else top[r.scope := id]
  }

  /** The same leases up to revocation. */
  predicate SameInfos(a: map<LeaseId, Row>, b: map<LeaseId, Row>) {
    a.Keys == b.Keys && forall id :: id in a ==> b[id].info == a[id].info
  }

  lemma InfosKeepTokens(m: Mem, m': Mem)
    requires SameInfos(m.rows, m'.rows) && m'.byToken == m.byToken && TokensOk(m) && VersionsDistinct(m.rows)
    ensures TokensOk(m') && VersionsDistinct(m'.rows)
  {
  }

  lemma InfosKeepTop(m: Mem, m': Mem, top: map<Scope, LeaseId>)
    requires SameInfos(m.rows, m'.rows) && m'.versions == m.versions && TopOk(m, top)
    ensures TopOk(m', top)
  {
  }

  /** m' is m with one row revoked and no longer the active row of its scope. */
  predicate Retires(m: Mem, m': Mem, id: LeaseId, now: nat) {
    && id in m.rows && m'.byToken == m.byToken && m'.versions == m.versions
    && m'.rows == m.rows[id := RevokedNow(m.rows[id], now)]
    && var s := m.rows[id].info.scope;
       m'.active == if s in m.active && m.active[s] == id then m.active - {s} else m.active
  }

  lemma RetireKeepsRows(m: Mem, m': Mem, id: LeaseId, now: nat)
    requires RowsOk(m) && Retires(m, m', id, now)
    ensures RowsOk(m')
  {
    forall i | i in m'.rows ensures RowOk(m', i) { assert RowOk(m, i); }
  }

  lemma RetireKeepsActive(m: Mem, m': Mem, id: LeaseId, now: nat)
    requires ActiveOk(m) && Retires(m, m', id, now)
    ensures ActiveOk(m')
  {
    forall s | s in m'.active ensures m'.active[s] in m'.rows && m'.rows[m'.active[s]] == m.rows[m.active[s]] { }
  }

  lemma RetireKeepsIndexes(m: Mem, m': Mem, id: LeaseId, now: nat)
    requires IndexesAgree(m) && Retires(m, m', id, now)
    ensures IndexesAgree(m')
  {
    InfosKeepTokens(m, m');
    RetireKeepsRows(m, m', id, now);
    RetireKeepsActive(m, m', id, now);
  }

  /** m' is m with a new lease of the next version in a scope without an active lease. */
  predicate Adds(m: Mem, m': Mem, info: Info) {
    && info.id !in m.rows && info.token !in m.byToken && info.scope !in m.active
    && info.version == NextVersion(m, info.scope)
    && m' == Mem(m.rows[info.id := Row(info, None)], m.byToken[info.token := info.id], m.active[info.scope := info.id],
                 m.versions[info.scope := info.version])
  }

  lemma AddKeepsRows(m: Mem, m': Mem, info: Info)
    requires RowsOk(m) && Adds(m, m', info)
    ensures RowsOk(m')
  {
    forall i | i in m'.rows ensures RowOk(m', i) { if i != info.id { assert RowOk(m, i); } }
  }

  lemma AddKeepsTokens(m: Mem, m': Mem, info: Info)
    requires TokensOk(m) && Adds(m, m', info)
    ensures TokensOk(m')
  {
  }

  lemma AddKeepsActive(m: Mem, m': Mem, info: Info)
    requires ActiveOk(m) && Adds(m, m', info)
    ensures ActiveOk(m')
  {
  }

  lemma AddKeepsVersions(m: Mem, m': Mem, info: Info)
    requires RowsOk(m) && VersionsDistinct(m.rows) && Adds(m, m', info)
    ensures VersionsDistinct(m'.rows)
  {
    forall i | i in m.rows && m.rows[i].info.scope == info.scope
      ensures m.rows[i].info.version < info.version
    {
      assert RowOk(m, i);
    }
  }

  lemma AddKeepsTop(m: Mem, m': Mem, top: map<Scope, LeaseId>, info: Info)
    requires TopOk(m, top) && Adds(m, m', info)
    ensures TopOk(m', top[info.scope := info.id])
  {
  }

  lemma AddKeepsIndexes(m: Mem, m': Mem, info: Info)
    requires IndexesAgree(m) && Adds(m, m', info)
    ensures IndexesAgree(m')
  {
    AddKeepsRows(m, m', info);
    AddKeepsTokens(m, m', info);
    AddKeepsActive(m, m', info);
    AddKeepsVersions(m, m', info);
  }

  /** Issuing a lease with a fresh id and token keeps the indexes in agreement. */
  lemma IssueKeepsIndexes(m: Mem, now: nat, ttl: nat, r: Request, id: LeaseId, token: Token)
    requires IndexesAgree(m) && id !in m.rows && token !in m.byToken
    ensures IndexesAgree(MemIssue(m, now, ttl, r, id, token))
  {
    if !MemReuses(m, now, r) {
      RevokeScopeKeepsIndexes(m, now, r.scope);
      FreshIssueAdds(m, now, ttl, r, id, token);
      AddKeepsIndexes(MemRevokeScope(m, now, r.scope), MemIssue(m, now, ttl, r, id, token),
                      NewInfo(now, ttl, r, id, token, NextVersion(m, r.scope)));
    }
  }

  lemma RevokeKeepsIndexes(m: Mem, now: nat, id: LeaseId, args: ScopeArgs)
    requires IndexesAgree(m)
    ensures IndexesAgree(MemRevoke(m, now, id, args))
  {
    if id in m.rows && args.Fit(m.rows[id].info.scope) { RetireKeepsIndexes(m, MemRevoke(m, now, id, args), id, now); }
  }

  lemma RevokeScopeKeepsIndexes(m: Mem, now: nat, s: Scope)
    requires IndexesAgree(m)
    ensures IndexesAgree(MemRevokeScope(m, now, s)) && s !in MemRevokeScope(m, now, s).active
  {
    if s in m.active { RetireKeepsIndexes(m, MemRevokeScope(m, now, s), m.active[s], now); }
  }

  lemma FreshIssueAdds(m: Mem, now: nat, ttl: nat, r: Request, id: LeaseId, token: Token)
    requires id !in m.rows && token !in m.byToken && !MemReuses(m, now, r) && ActiveOk(m)
    ensures Adds(MemRevokeScope(m, now, r.scope), MemIssue(m, now, ttl, r, id, token),
                 NewInfo(now, ttl, r, id, token, NextVersion(m, r.scope)))
  {
    assert (m.active - {r.scope})[r.scope := id] == m.active[r.scope := id];
  }

  lemma MemIssueKeeps(m: Mem, top: map<Scope, LeaseId>, now: nat, ttl: nat, r: Request, id: LeaseId, token: Token)
    requires MemOk(m, top) && id !in m.rows && token !in m.byToken
    ensures MemOk(MemIssue(m, now, ttl, r, id, token), TopAfter(m, top, now, r, id))
  {
    IssueKeepsIndexes(m, now, ttl, r, id, token);
    if !MemReuses(m, now, r) {
      ScopeKeepsTop(m, top, now, r.scope);
      FreshIssueAdds(m, now, ttl, r, id, token);
      AddKeepsTop(MemRevokeScope(m, now, r.scope), MemIssue(m, now, ttl, r, id, token), top,
                  NewInfo(now, ttl, r, id, token, NextVersion(m, r.scope)));
    }
  }

  lemma ScopeKeepsTop(m: Mem, top: map<Scope, LeaseId>, now: nat, s: Scope)
    requires ActiveOk(m) && TopOk(m, top)
    ensures TopOk(MemRevokeScope(m, now, s), top)
  {
    InfosKeepTop(m, MemRevokeScope(m, now, s), top);
  }

  lemma MemRevokeKeeps(m: Mem, top: map<Scope, LeaseId>, now: nat, id: LeaseId, args: ScopeArgs)
    requires MemOk(m, top)
    ensures MemOk(MemRevoke(m, now, id, args), top)
  {
    RevokeKeepsIndexes(m, now, id, args);
    RevokeKeepsTop(m, top, now, id, args);
  }

  lemma RevokeKeepsTop(m: Mem, top: map<Scope, LeaseId>, now: nat, id: LeaseId, args: ScopeArgs)
    requires TopOk(m, top)
    ensures TopOk(MemRevoke(m, now, id, args), top)
  {
    InfosKeepTop(m, MemRevoke(m, now, id, args), top);
  }

  lemma MemRevokeScopeKeeps(m: Mem, top: map<Scope, LeaseId>, now: nat, s: Scope)
    requires MemOk(m, top)
    ensures MemOk(MemRevokeScope(m, now, s), top) && s !in MemRevokeScope(m, now, s).active
  {
    RevokeScopeKeepsIndexes(m, now, s);
    ScopeKeepsTop(m, top, now, s);
  }

  // ----- the relation -----

  /**
   The same leases; where the revocation times differ, the lease is dead in both stores and revoked in the SQL store.
   */
  predicate Same(a: Row, b: Row, now: nat) {
    a.info == b.info && (a.revokedAt == b.revokedAt || (!a.Active(now) && b.revokedAt.Some?))
  }

  predicate Rel(m: Mem, q: Sql, now: nat) {
    && m.rows.Keys == q.rows.Keys == q.raw.Keys
    && forall id :: id in m.rows ==> Same(m.rows[id], q.rows[id], now) && q.raw[id] == m.rows[id].info.token
  }

  lemma RelStaysInTime(m: Mem, q: Sql, now: nat, later: nat)
    requires Rel(m, q, now) && now <= later
    ensures Rel(m, q, later)
  {
  }

  /** The row the SQL store selects is the one that carries the in-memory version counter. */
  lemma NewestIsTop(m: Mem, top: map<Scope, LeaseId>, q: Sql, now: nat, s: Scope, id: LeaseId)
    requires MemOk(m, top) && Rel(m, q, now)
    ensures Newest(q.rows, s, id) <==> s in top && top[s] == id
  {
    forall other | other in q.rows
      ensures other in m.rows && q.rows[other].info == m.rows[other].info && RowOk(m, other)
    {
      assert Same(m.rows[other], q.rows[other], now);
    }
    if s in top { TopIsNewest(m, top, q, s, id); }
  }

  lemma TopIsNewest(m: Mem, top: map<Scope, LeaseId>, q: Sql, s: Scope, id: LeaseId)
    requires VersionsDistinct(m.rows) && TopOk(m, top) && m.rows.Keys == q.rows.Keys && s in top
    requires forall other :: other in q.rows ==> q.rows[other].info == m.rows[other].info && RowOk(m, other)
    ensures Newest(q.rows, s, id) <==> top[s] == id
  {
    forall other | other in q.rows && q.rows[other].info.scope == s
      ensures q.rows[other].info.version <= q.rows[top[s]].info.version
    {
      assert RowOk(m, other);
    }
    if Newest(q.rows, s, id) { SameVersionSameLease(m.rows, id, top[s]); }
  }

  lemma SameVersionSameLease(rows: map<LeaseId, Row>, a: LeaseId, b: LeaseId)
    requires VersionsDistinct(rows) && a in rows && b in rows && SameVersion(rows[a].info, rows[b].info)
    ensures a == b
  {
  }

  /** Both stores take the same decision about the current lease of a scope. */
  lemma ReuseAgrees(m: Mem, top: map<Scope, LeaseId>, q: Sql, now: nat, r: Request)
    requires MemOk(m, top) && Rel(m, q, now) && r.scope in top
    ensures top[r.scope] in q.rows && q.rows[top[r.scope]].info == m.rows[top[r.scope]].info
    ensures MemReuses(m, now, r) <==> SqlReuses(q, top[r.scope], now, r)
    ensures r.scope in m.active ==> m.active[r.scope] == top[r.scope]
  {
    var t := top[r.scope];
    assert Same(m.rows[t], q.rows[t], now) && RowOk(m, t);
    if r.scope in m.active { assert m.rows[m.active[r.scope]].info.version == m.rows[t].info.version; }
  }

  function TopOf(top: map<Scope, LeaseId>, s: Scope): Option<LeaseId> { if s in top then Some(top[s]) else None }

  lemma IssuedAgrees(m: Mem, top: map<Scope, LeaseId>, q: Sql, now: nat, ttl: nat, r: Request, id: LeaseId,
                     token: Token)
    requires MemOk(m, top) && Rel(m, q, now)
    ensures SqlIssued(q, TopOf(top, r.scope), now, ttl, r, id, token) == MemIssued(m, now, ttl, r, id, token)
  {
    if r.scope in top {
      ReuseAgrees(m, top, q, now, r);
      assert top[r.scope] in q.raw && q.raw[top[r.scope]] == m.rows[top[r.scope]].info.token;
      IssuedFromTop(m, top, q, now, ttl, r, id, token);
    }
  }

  lemma IssuedFromTop(m: Mem, top: map<Scope, LeaseId>, q: Sql, now: nat, ttl: nat, r: Request, id: LeaseId,
                      token: Token)
    requires TopOk(m, top) && r.scope in top && top[r.scope] in q.rows
             && q.rows[top[r.scope]].info == m.rows[top[r.scope]].info
    requires MemReuses(m, now, r) <==> SqlReuses(q, top[r.scope], now, r)
    requires r.scope in m.active ==> m.active[r.scope] == top[r.scope]
    requires top[r.scope] in q.raw && q.raw[top[r.scope]] == m.rows[top[r.scope]].info.token
    ensures SqlIssued(q, TopOf(top, r.scope), now, ttl, r, id, token) == MemIssued(m, now, ttl, r, id, token)
  {
  }

  /** The rows an issue leaves behind, apart from the new one, are still the same in both stores. */
  lemma RetiredAgrees(m: Mem, top: map<Scope, LeaseId>, q: Sql, now: nat, s: Scope, i: LeaseId)
    requires Rel(m, q, now) && RowsOk(m) && i in m.rows
    requires s in m.active ==> s in top && m.active[s] == top[s]
    requires s in top ==> top[s] in m.rows && m.rows[top[s]].info.scope == s
    ensures var a := if s in m.active && m.active[s] == i then RevokedNow(m.rows[i], now) else m.rows[i];
            var b := if s in top && top[s] == i then RevokedNow(q.rows[i], now) else q.rows[i];
            Same(a, b, now)
  {
    assert Same(m.rows[i], q.rows[i], now) && RowOk(m, i);
  }

  lemma IssueAgrees(m: Mem, top: map<Scope, LeaseId>, q: Sql, now: nat, ttl: nat, r: Request, id: LeaseId, token: Token)
    requires MemOk(m, top) && Rel(m, q, now) && id !in m.rows && token !in m.byToken
    ensures Rel(MemIssue(m, now, ttl, r, id, token), SqlIssue(q, TopOf(top, r.scope), now, ttl, r, id, token), now)
  {
    IssuedAgrees(m, top, q, now, ttl, r, id, token);
    if r.scope in top { ReuseAgrees(m, top, q, now, r); }
    if !MemReuses(m, now, r) {
      assert r.scope in m.active ==> r.scope in top && m.active[r.scope] == top[r.scope];
      assert r.scope in top ==> top[r.scope] in m.rows && m.rows[top[r.scope]].info.scope == r.scope;
      FreshIssueAgrees(m, top, q, now, ttl, r, id, token);
    }
  }

  lemma FreshIssueAgrees(m: Mem, top: map<Scope, LeaseId>, q: Sql, now: nat, ttl: nat, r: Request, id: LeaseId,
                         token: Token)
    requires Rel(m, q, now) && RowsOk(m) && id !in m.rows && !MemReuses(m, now, r)
    requires SqlIssued(q, TopOf(top, r.scope), now, ttl, r, id, token) == MemIssued(m, now, ttl, r, id, token)
    requires r.scope in m.active ==> r.scope in top && m.active[r.scope] == top[r.scope]
    requires r.scope in top ==> top[r.scope] in m.rows && m.rows[top[r.scope]].info.scope == r.scope
    requires r.scope in top ==> !SqlReuses(q, top[r.scope], now, r)
    ensures Rel(MemIssue(m, now, ttl, r, id, token), SqlIssue(q, TopOf(top, r.scope), now, ttl, r, id, token), now)
  {
    var m', q' := MemIssue(m, now, ttl, r, id, token), SqlIssue(q, TopOf(top, r.scope), now, ttl, r, id, token);
    var a, b := RetiredMem(m, now, r.scope), RetiredSql(q, top, now, r.scope);
    assert m'.rows == a[id := Row(MemIssued(m, now, ttl, r, id, token), None)];
    assert q'.rows == b[id := Row(MemIssued(m, now, ttl, r, id, token), None)] && q'.raw == q.raw[id := token];
    RetiredRowsAgree(m, top, q, now, r.scope);
    NewRowAgrees(a, b, q.raw, now, id, token, MemIssued(m, now, ttl, r, id, token), m', q');
  }

  /** The rows with the active lease of the scope retired. */
  function RetiredMem(m: Mem, now: nat, s: Scope): map<LeaseId, Row> {
    if s in m.active && m.active[s] in m.rows then m.rows[m.active[s] := RevokedNow(m.rows[m.active[s]], now)]
      else m.rows
  }

  /** The rows with the newest lease of the scope retired. */
  function RetiredSql(q: Sql, top: map<Scope, LeaseId>, now: nat, s: Scope): map<LeaseId, Row> {
    if s in top && top[s] in q.rows then q.rows[top[s] := RevokedNow(q.rows[top[s]], now)] else q.rows
  }

  predicate RowsAgree(a: map<LeaseId, Row>, b: map<LeaseId, Row>, raw: map<LeaseId, Token>, now: nat) {
    && a.Keys == b.Keys == raw.Keys
    && forall i :: i in a ==> Same(a[i], b[i], now) && raw[i] == a[i].info.token
  }

  lemma RetiredRowsAgree(m: Mem, top: map<Scope, LeaseId>, q: Sql, now: nat, s: Scope)
    requires Rel(m, q, now) && RowsOk(m)
    requires s in m.active ==> s in top && m.active[s] == top[s]
    requires s in top ==> top[s] in m.rows && m.rows[top[s]].info.scope == s
    ensures RowsAgree(RetiredMem(m, now, s), RetiredSql(q, top, now, s), q.raw, now)
  {
    var a, b := RetiredMem(m, now, s), RetiredSql(q, top, now, s);
    forall i | i in a ensures Same(a[i], b[i], now) && q.raw[i] == a[i].info.token {
      RetiredAgrees(m, top, q, now, s, i);
    }
  }

  lemma NewRowAgrees(a: map<LeaseId, Row>, b: map<LeaseId, Row>, raw: map<LeaseId, Token>, now: nat, id: LeaseId,
                     token: Token, info: Info, m': Mem, q': Sql)
    requires RowsAgree(a, b, raw, now) && id !in a && info.token == token
    requires m'.rows == a[id := Row(info, None)] && q'.rows == b[id := Row(info, None)] && q'.raw == raw[id := token]
    ensures Rel(m', q', now)
  {
  }

  predicate MemFound(m: Mem, id: LeaseId, args: ScopeArgs) { id in m.rows && args.Fit(m.rows[id].info.scope) }

  predicate SqlFound(q: Sql, id: LeaseId, args: ScopeArgs) { id in q.rows && args.FitComplete(q.rows[id].info.scope) }

  /**
   Both stores answer a revoke alike if and only if incomplete arguments do not name another scope than the lease's.
   */
  lemma RevokeAgreesExactly(m: Mem, q: Sql, now: nat, id: LeaseId, args: ScopeArgs)
    requires Rel(m, q, now)
    ensures (MemFound(m, id, args) <==> SqlFound(q, id, args)) <==>
            (id in m.rows && !args.All() ==> args.Fit(m.rows[id].info.scope))
    ensures args.Uniform() ==> (MemFound(m, id, args) <==> SqlFound(q, id, args))
  {
    if id in m.rows { assert Same(m.rows[id], q.rows[id], now); }
  }

  lemma RevokeAgrees(m: Mem, q: Sql, now: nat, id: LeaseId, args: ScopeArgs)
    requires Rel(m, q, now) && (MemFound(m, id, args) <==> SqlFound(q, id, args))
    ensures Rel(MemRevoke(m, now, id, args), SqlRevoke(q, now, id, args), now)
  {
    if id in m.rows { assert Same(m.rows[id], q.rows[id], now); }
  }

  /** Only the active lease of a scope can be unrevoked, so revoking all of its rows touches no other. */
  lemma RevokedRowAgrees(m: Mem, q: Sql, now: nat, s: Scope, i: LeaseId)
    requires Rel(m, q, now) && i in m.rows && RowOk(m, i)
    requires s in m.active && m.active[s] == i ==> m.rows[i].info.scope == s
    ensures var a := if s in m.active && m.active[s] == i then RevokedNow(m.rows[i], now) else m.rows[i];
            var b := if q.rows[i].info.scope == s then RevokedNow(q.rows[i], now) else q.rows[i];
            Same(a, b, now) && b.info.token == q.rows[i].info.token
  {
    assert Same(m.rows[i], q.rows[i], now);
  }

  lemma RevokeScopeAgrees(m: Mem, q: Sql, now: nat, s: Scope)
    requires RowsOk(m) && Rel(m, q, now)
             && (s in m.active ==> m.active[s] in m.rows && m.rows[m.active[s]].info.scope == s)
    ensures Rel(MemRevokeScope(m, now, s), SqlRevokeScope(q, now, s), now)
  {
    var m', q' := MemRevokeScope(m, now, s), SqlRevokeScope(q, now, s);
    assert m'.rows.Keys == m.rows.Keys && q'.rows.Keys == q.rows.Keys;
    forall id | id in m'.rows ensures Same(m'.rows[id], q'.rows[id], now) && q'.raw[id] == m'.rows[id].info.token {
      assert RowOk(m, id);
      RevokedRowAgrees(m, q, now, s, id);
      assert m'.rows[id] == if s in m.active && m.active[s] == id then RevokedNow(m.rows[id], now) else m.rows[id];
    }
  }

  lemma CleanupAgrees(m: Mem, q: Sql, now: nat)
    requires Rel(m, q, now)
    ensures Rel(m, SqlCleanup(q, now), now)
  {
    var q' := SqlCleanup(q, now);
    forall id | id in m.rows ensures Same(m.rows[id], q'.rows[id], now) { assert Same(m.rows[id], q.rows[id], now); }
  }

  lemma ResolveAgrees(m: Mem, q: Sql, now: nat, token: Token, bank: Text)
    requires RowsOk(m) && TokensOk(m) && Rel(m, q, now)
    ensures MemResolve(m, now, token, bank) == SqlResolve(q, now, token, bank)
  {
    forall id | SqlFinds(q, token, id) ensures token in m.byToken && m.byToken[token] == id {
      assert Same(m.rows[id], q.rows[id], now) && RowOk(m, id);
    }
    if token in m.byToken {
      var id := m.byToken[token];
      assert Same(m.rows[id], q.rows[id], now);
      assert SqlFinds(q, token, id);
      assert Judge(m.rows[id], now, bank) == Judge(q.rows[id], now, bank);
    }
  }

  // ----- whole runs -----

  datatype Op =
    | Tick(seconds: nat)
    | Issue(r: Request, id: LeaseId, token: Token)
    | Revoke(lease: LeaseId, args: ScopeArgs)
    | RevokeScope(s: Scope)
    | Resolve(bearer: Token, bank: Text)
    | Cleanup

  datatype Answer = Lease(info: Info) | Found(found: bool) | Judged(resolution: Resolution) | Silent

  /** Both stores side by side, with the answers each has given; `top` names the newest lease of each scope. */
  datatype World = World(now: nat, m: Mem, top: map<Scope, LeaseId>, q: Sql, memAnswers: seq<Answer>,
                         sqlAnswers: seq<Answer>)

  /** Generated ids and tokens are fresh; otherwise the step does not happen. */
  predicate Fresh(w: World, id: LeaseId, token: Token) {
    id !in w.m.rows && token !in w.m.byToken
  }

  ghost function Step(w: World, ttl: nat, op: Op): World {
    match op
    case Tick(seconds) => w.(now := w.now + seconds)
    case Issue(r, id, token) =>
      if !Fresh(w, id, token) then w
      else
        var newest := NewestOf(w.q, r.scope);
        World(w.now, MemIssue(w.m, w.now, ttl, r, id, token), TopAfter(w.m, w.top, w.now, r, id),
              SqlIssue(w.q, newest, w.now, ttl, r, id, token),
              w.memAnswers + [Lease(MemIssued(w.m, w.now, ttl, r, id, token))],
              w.sqlAnswers + [Lease(SqlIssued(w.q, newest, w.now, ttl, r, id, token))])
    case Revoke(id, args) =>
      World(w.now, MemRevoke(w.m, w.now, id, args), w.top, SqlRevoke(w.q, w.now, id, args),
            w.memAnswers + [Found(MemFound(w.m, id, args))], w.sqlAnswers + [Found(SqlFound(w.q, id, args))])
    case RevokeScope(s) => w.(m := MemRevokeScope(w.m, w.now, s), q := SqlRevokeScope(w.q, w.now, s))
    case Resolve(token, bank) =>
      w.(memAnswers := w.memAnswers + [Judged(MemResolve(w.m, w.now, token, bank))],
         sqlAnswers := w.sqlAnswers + [Judged(SqlResolve(w.q, w.now, token, bank))])
    case Cleanup => w.(q := SqlCleanup(w.q, w.now))
  }

  ghost function Run(w: World, ttl: nat, ops: seq<Op>): World {
    if ops == [] then w else Step(Run(w, ttl, ops[..|ops| - 1]), ttl, ops[|ops| - 1])
  }

  predicate Agree(w: World) { MemOk(w.m, w.top) && Rel(w.m, w.q, w.now) && w.memAnswers == w.sqlAnswers }

  lemma NewestOfIsTop(m: Mem, top: map<Scope, LeaseId>, q: Sql, now: nat, s: Scope)
    requires MemOk(m, top) && Rel(m, q, now)
    ensures NewestOf(q, s) == TopOf(top, s)
  {
    if s in top { NewestIsTop(m, top, q, now, s, top[s]); }
    var newest := NewestOf(q, s);
    if newest.Some? { NewestIsTop(m, top, q, now, s, newest.value); }
  }

  lemma IssueStepAgrees(w: World, ttl: nat, r: Request, id: LeaseId, token: Token)
    requires Agree(w)
    ensures Agree(Step(w, ttl, Issue(r, id, token)))
  {
    if Fresh(w, id, token) {
      NewestOfIsTop(w.m, w.top, w.q, w.now, r.scope);
      MemIssueKeeps(w.m, w.top, w.now, ttl, r, id, token);
      IssuedAgrees(w.m, w.top, w.q, w.now, ttl, r, id, token);
      IssueAgrees(w.m, w.top, w.q, w.now, ttl, r, id, token);
    }
  }

  lemma StepAgrees(w: World, ttl: nat, op: Op)
    requires Agree(w) && (op.Revoke? ==> op.args.Uniform())
    ensures Agree(Step(w, ttl, op))
  {
    match op {
      case Tick(seconds) => RelStaysInTime(w.m, w.q, w.now, w.now + seconds);
      case Issue(r, id, token) => IssueStepAgrees(w, ttl, r, id, token);
      case Revoke(id, args) =>
        MemRevokeKeeps(w.m, w.top, w.now, id, args);
        RevokeAgreesExactly(w.m, w.q, w.now, id, args);
        RevokeAgrees(w.m, w.q, w.now, id, args);
      case RevokeScope(s) => MemRevokeScopeKeeps(w.m, w.top, w.now, s); RevokeScopeAgrees(w.m, w.q, w.now, s);
      case Resolve(token, bank) => ResolveAgrees(w.m, w.q, w.now, token, bank);
      case Cleanup => CleanupAgrees(w.m, w.q, w.now);
    }
  }

  /** Every revoke of the run gives all of its scope arguments or none. */
  predicate UniformOps(ops: seq<Op>) { forall i :: 0 <= i < |ops| && ops[i].Revoke? ==> ops[i].args.Uniform() }

  lemma {:induction false} RunAgrees(w: World, ttl: nat, ops: seq<Op>)
    requires Agree(w) && UniformOps(ops)
    ensures Agree(Run(w, ttl, ops))
  {
    if ops != [] {
      RunAgrees(w, ttl, ops[..|ops| - 1]);
      StepAgrees(Run(w, ttl, ops[..|ops| - 1]), ttl, ops[|ops| - 1]);
    }
  }

  const EMPTY: World := World(0, Mem(map[], map[], map[], map[]), map[], Sql(map[], map[]), [], [])

  /**
   Over every run from empty stores, both stores issue, revoke and resolve alike, whenever expired rows are cleaned up.
   */
  lemma StoresAnswerAlike(ttl: nat, ops: seq<Op>)
    requires UniformOps(ops)
    ensures Run(EMPTY, ttl, ops).memAnswers == Run(EMPTY, ttl, ops).sqlAnswers
  {
    RunAgrees(EMPTY, ttl, ops);
  }

  lemma StepKeepsMem(w: World, ttl: nat, op: Op)
    requires MemOk(w.m, w.top)
    ensures MemOk(Step(w, ttl, op).m, Step(w, ttl, op).top)
  {
    if op.Issue? && Fresh(w, op.id, op.token) { MemIssueKeeps(w.m, w.top, w.now, ttl, op.r, op.id, op.token); }
    else if op.Revoke? { MemRevokeKeeps(w.m, w.top, w.now, op.lease, op.args); }
    else if op.RevokeScope? { MemRevokeScopeKeeps(w.m, w.top, w.now, op.s); }
  }

  /** The indexes of the in-memory store agree in every run, whatever arguments its revokes are given. */
  lemma {:induction false} RunKeepsMem(w: World, ttl: nat, ops: seq<Op>)
    requires MemOk(w.m, w.top)
    ensures MemOk(Run(w, ttl, ops).m, Run(w, ttl, ops).top)
  {
    if ops != [] {
      RunKeepsMem(w, ttl, ops[..|ops| - 1]);
      StepKeepsMem(Run(w, ttl, ops[..|ops| - 1]), ttl, ops[|ops| - 1]);
    }
  }

  /**
   After every run versions of a scope are distinct and only the newest can be unrevoked, in the SQL store too while it
   agrees.
   */
  lemma OnlyNewestIsUnrevoked(ttl: nat, ops: seq<Op>, a: LeaseId, b: LeaseId)
    requires var rows := Run(EMPTY, ttl, ops).m.rows;
             a in rows && b in rows && a != b && rows[a].info.scope == rows[b].info.scope
    ensures var w := Run(EMPTY, ttl, ops);
            && w.m.rows[a].info.version != w.m.rows[b].info.version
            && (w.m.rows[a].info.version < w.m.rows[b].info.version ==> w.m.rows[a].revokedAt.Some?)
            && (UniformOps(ops) ==>
                  && a in w.q.rows && b in w.q.rows && w.q.rows[a].info == w.m.rows[a].info
                     && w.q.rows[b].info == w.m.rows[b].info
                  && (w.m.rows[a].info.version < w.m.rows[b].info.version ==> w.q.rows[a].revokedAt.Some?))
  {
    RunKeepsMem(EMPTY, ttl, ops);
    var w := Run(EMPTY, ttl, ops);
    assert RowOk(w.m, a) && RowOk(w.m, b);
    if UniformOps(ops) {
      RunAgrees(EMPTY, ttl, ops);
      assert Same(w.m.rows[a], w.q.rows[a], w.now) && Same(w.m.rows[b], w.q.rows[b], w.now);
    }
  }

  /**
   After every run, an issue either hands out an unexpired lease again or a version above all earlier ones of its
   scope.
   */
  lemma VersionsIncrease(ttl: nat, ops: seq<Op>, r: Request, id: LeaseId, token: Token, earlier: LeaseId)
    requires var w := Run(EMPTY, ttl, ops);
             Fresh(w, id, token) && earlier in w.m.rows && w.m.rows[earlier].info.scope == r.scope
    ensures var w := Run(EMPTY, ttl, ops);
            var issued := MemIssued(w.m, w.now, ttl, r, id, token);
            && (issued.id == id ==> w.m.rows[earlier].info.version < issued.version)
            && (issued.id != id ==>
                  && issued.id in w.m.rows && w.m.rows[issued.id].Active(w.now)
                  && w.m.rows[earlier].info.version <= issued.version)
  {
    RunKeepsMem(EMPTY, ttl, ops);
    var w := Run(EMPTY, ttl, ops);
    assert RowOk(w.m, earlier);
    if MemReuses(w.m, w.now, r) { assert RowOk(w.m, w.m.active[r.scope]); }
  }

  /** Cleaning up expired rows now or never makes no difference to any later resolve. */
  lemma CleanupIsInvisible(q: Sql, now: nat, later: nat, token: Token, bank: Text)
    requires now <= later
    requires forall a, b :: a in q.rows && b in q.rows && q.rows[a].info.token == q.rows[b].info.token ==> a == b
    ensures SqlResolve(SqlCleanup(q, now), later, token, bank) == SqlResolve(q, later, token, bank)
  {
    var q' := SqlCleanup(q, now);
    forall id ensures SqlFinds(q', token, id) <==> SqlFinds(q, token, id) { }
    if id :| SqlFinds(q, token, id) {
      assert Judge(q'.rows[id], later, bank) == Judge(q.rows[id], later, bank);
    }
  }

  // ----- where the stores differ -----

  /**
   Both stores return the same lease from a scope revocation if and only if the active lease of the scope, when there is
   one, is still unrevoked in the table.
   */
  lemma ScopeAnswersAgreeExactly(m: Mem, q: Sql, now: nat, s: Scope, answer: Option<LeaseId>)
    requires IndexesAgree(m) && Rel(m, q, now) && SqlScopeAnswer(q.rows, s, answer)
    ensures s in m.active ==> m.active[s] in q.rows
    ensures answer == MemScopeAnswer(m, s) <==> (s in m.active ==> q.rows[m.active[s]].revokedAt.None?)
  {
    if s in m.active { assert Same(m.rows[m.active[s]], q.rows[m.active[s]], now); }
    if answer.Some? {
      assert Same(m.rows[answer.value], q.rows[answer.value], now) && RowOk(m, answer.value);
    }
  }

  /** The stores after a first issue. */
  lemma IssuedOnce(ttl: nat, r: Request)
    ensures var w, row := Step(EMPTY, ttl, Issue(r, 0, 0)), Row(NewInfo(0, ttl, r, 0, 0, 1), None);
            && w.now == 0 && w.m.rows == w.q.rows == map[0 := row] && w.m.active == map[r.scope := 0]
            && w.memAnswers == w.sqlAnswers == [Lease(row.info)]
  {
    assert NewestOf(EMPTY.q, r.scope).None?;
  }

  lemma RunOfTwo(w: World, ttl: nat, a: Op, b: Op)
    ensures Run(w, ttl, [a, b]) == Step(Step(w, ttl, a), ttl, b)
  {
    assert [a, b][..1] == [a];
    assert [a][..0] == [];
    assert Run(w, ttl, [a]) == Step(Run(w, ttl, []), ttl, a);
  }

  lemma RunOfThree(w: World, ttl: nat, a: Op, b: Op, c: Op)
    ensures Run(w, ttl, [a, b, c]) == Step(Step(Step(w, ttl, a), ttl, b), ttl, c)
  {
    RunOfTwo(w, ttl, a, b);
    assert [a, b, c][..2] == [a, b];
  }

  /**
   A revoke whose incomplete arguments name another tenant: the in-memory store refuses it, the SQL store does not.
   */
  lemma PartialRevokeDiffers(ttl: nat, r: Request) returns (ops: seq<Op>)
    ensures Run(EMPTY, ttl, ops).memAnswers != Run(EMPTY, ttl, ops).sqlAnswers
  {
    var args := ScopeArgs(Some(r.scope.tenant + 1), None, None);
    ops := [Issue(r, 0, 0), Revoke(0, args)];
    IssuedOnce(ttl, r);
    RunOfTwo(EMPTY, ttl, ops[0], ops[1]);
    var w := Step(EMPTY, ttl, Issue(r, 0, 0));
    assert !MemFound(w.m, 0, args) && SqlFound(w.q, 0, args);
    var after := Step(w, ttl, Revoke(0, args));
    assert after.memAnswers[1] == Found(false) && after.sqlAnswers[1] == Found(true);
  }

  /** A clean-up of an expired lease that was never revoked: a scope revocation then returns it from one store only. */
  lemma CleanedScopeDiffers(ttl: nat, r: Request, answer: Option<LeaseId>) returns (ops: seq<Op>)
    requires SqlScopeAnswer(Run(EMPTY, ttl, [Issue(r, 0, 0), Tick(ttl), Cleanup]).q.rows, r.scope, answer)
    ensures ops == [Issue(r, 0, 0), Tick(ttl), Cleanup]
    ensures answer != MemScopeAnswer(Run(EMPTY, ttl, ops).m, r.scope)
  {
    ops := [Issue(r, 0, 0), Tick(ttl), Cleanup];
    IssuedOnce(ttl, r);
    RunOfThree(EMPTY, ttl, ops[0], ops[1], ops[2]);
    var w := Step(Step(EMPTY, ttl, Issue(r, 0, 0)), ttl, Tick(ttl));
    CleanupRevokes(w.q, ttl, 0);
  }

  lemma CleanupRevokes(q: Sql, now: nat, id: LeaseId)
    requires q.rows.Keys == {id} && q.rows[id].info.expiresAt <= now
    ensures forall i :: i in SqlCleanup(q, now).rows ==> SqlCleanup(q, now).rows[i].revokedAt.Some?
  {
  }
}

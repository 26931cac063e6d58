/** Both lease stores as the objects they are: each method is proved to do what its step on values says. */
module LeaseStore {
  import opened Prelude
  import opened LeaseModel
  import opened LeaseRefinement

  /** A lease shared by the indexes; revoking it is seen through all of them. */
  class HindsightLease {
    const info: Info
    var revokedAt: Option<nat>

    constructor (info: Info)
      ensures this.info == info && revokedAt == None
    {
      this.info := info;
      revokedAt := None;
    }

    function Value(): (r: Row) reads this { Row(info, revokedAt) }

    method Revoke(now: nat)
      modifies this
      ensures Value() == RevokedNow(old(Value()), now)
    {
      if revokedAt.None? { revokedAt := Some(now); }
    }
  }

  function Ids<K>(index: map<K, HindsightLease>): (r: map<K, LeaseId>)
    ensures r.Keys == index.Keys
  {
    map k | k in index :: index[k].info.id
  }

  lemma IdsPut<K>(index: map<K, HindsightLease>, k: K, lease: HindsightLease)
    ensures Ids(index[k := lease]) == Ids(index)[k := lease.info.id]
  {
  }

  lemma IdsDrop<K>(index: map<K, HindsightLease>, k: K)
    ensures Ids(index - {k}) == Ids(index) - {k}
  {
  }

  /** The index leads to the one lease object of each id it names. */
  predicate LeadsTo<K(!new)>(index: map<K, HindsightLease>, byId: map<LeaseId, HindsightLease>) {
    forall k :: k in index ==> index[k].info.id in byId && byId[index[k].info.id] == index[k]
  }

  predicate OwnIds(byId: map<LeaseId, HindsightLease>) { forall id :: id in byId ==> byId[id].info.id == id }

  lemma LeadsToGrows<K(!new)>(index: map<K, HindsightLease>, byId: map<LeaseId, HindsightLease>, lease: HindsightLease,
                       k: K)
    requires LeadsTo(index, byId) && lease.info.id !in byId
    ensures LeadsTo(index[k := lease], byId[lease.info.id := lease])
  {
  }

  /** The value with one row revoked. */
  function WithRevoked(m: Mem, id: LeaseId, now: nat): Mem {
    if id in m.rows then m.(rows := m.rows[id := RevokedNow(m.rows[id], now)]) else m
  }

  /** The value with the active lease of the scope revoked and left in its index. */
  function WithRetired(m: Mem, s: Scope, now: nat): Mem {
    if s in m.active then WithRevoked(m, m.active[s], now) else m
  }

  /** The value with a new lease entered in all four indexes. */
  function WithEntered(m: Mem, info: Info): Mem {
    Mem(m.rows[info.id := Row(info, None)], m.byToken[info.token := info.id], m.active[info.scope := info.id],
        m.versions[info.scope := info.version])
  }

  /** An issue that reuses nothing retires the active lease and enters the next version. */
  lemma IssueByParts(m: Mem, now: nat, ttl: nat, r: Request, id: LeaseId, token: Token)
    requires !MemReuses(m, now, r)
    ensures MemIssue(m, now, ttl, r, id, token) ==
              WithEntered(WithRetired(m, r.scope, now), NewInfo(now, ttl, r, id, token, NextVersion(m, r.scope)))
    ensures NextVersion(WithRetired(m, r.scope, now), r.scope) == NextVersion(m, r.scope)
  {
  }

  /** A scope revocation takes the active lease out of its index and revokes it. */
  lemma ScopeByParts(m: Mem, now: nat, s: Scope)
    requires s in m.active && m.active[s] in m.rows
    ensures MemRevokeScope(m, now, s) == WithRevoked(m.(active := m.active - {s}), m.active[s], now)
  {
  }

  /** If the indexes agreed before, they agree after. */
  predicate KeepsAgreement(m: Mem, m': Mem) { IndexesAgree(m) ==> IndexesAgree(m') }

  lemma IssueKeepsAgreement(m: Mem, now: nat, ttl: nat, r: Request, id: LeaseId, token: Token)
    requires id !in m.rows
    ensures token !in m.byToken ==> KeepsAgreement(m, MemIssue(m, now, ttl, r, id, token))
  {
    if token !in m.byToken && IndexesAgree(m) { IssueKeepsIndexes(m, now, ttl, r, id, token); }
  }

  lemma RevokeKeepsAgreement(m: Mem, now: nat, id: LeaseId, args: ScopeArgs)
    ensures KeepsAgreement(m, MemRevoke(m, now, id, args))
  {
    if IndexesAgree(m) { RevokeKeepsIndexes(m, now, id, args); }
  }

  lemma ScopeKeepsAgreement(m: Mem, now: nat, s: Scope)
    ensures KeepsAgreement(m, MemRevokeScope(m, now, s))
  {
    if IndexesAgree(m) { RevokeScopeKeepsIndexes(m, now, s); }
  }

  /**
   The in-memory store: four indexes that share the lease objects. A new store's indexes agree, and every method keeps
   their agreement.
   */
  class HindsightLeaseStore {
    const ttl: nat
    var byTokenHash: map<Token, HindsightLease>
    var byId: map<LeaseId, HindsightLease>
    var activeByScope: map<Scope, HindsightLease>
    var versions: map<Scope, nat>

    /** All indexes share the lease objects of byId. */
    ghost predicate Valid()
      reads this`byTokenHash, this`byId, this`activeByScope
    {
      ttl >= 1 && OwnIds(byId) && LeadsTo(byTokenHash, byId) && LeadsTo(activeByScope, byId)
    }

    ghost function Rows(): (r: map<LeaseId, Row>)
      reads this`byId, byId.Values
      ensures r.Keys == byId.Keys
    {
      map id | id in byId :: byId[id].Value()
    }

    ghost function Value(): Mem
      reads this`byTokenHash, this`byId, this`activeByScope, this`versions, byId.Values
    {
      Mem(Rows(), Ids(byTokenHash), Ids(activeByScope), versions)
    }

    constructor (ttl: nat)
      requires ttl >= 1
      ensures Valid() && this.ttl == ttl && Value() == EMPTY.m && IndexesAgree(Value())
    {
      this.ttl := ttl;
      byTokenHash, byId, activeByScope, versions := map[], map[], map[], map[];
    }

    /** Revokes one lease and leaves every index pointing where it did. */
    method RevokeLease(lease: HindsightLease, now: nat)
      requires OwnIds(byId) && lease.info.id in byId && byId[lease.info.id] == lease
      modifies lease
      ensures Rows() == old(Rows())[lease.info.id := RevokedNow(old(Rows())[lease.info.id], now)]
      ensures Value() == WithRevoked(old(Value()), lease.info.id, now) && lease.revokedAt.Some?
    {
      lease.Revoke(now);
    }

    /** Enters a lease that no index knows yet in all four of them. */
    method Enter(lease: HindsightLease)
      requires Valid() && lease.info.id !in byId && lease.revokedAt == None
      modifies this`byTokenHash, this`byId, this`activeByScope, this`versions
      ensures Valid() && byId == old(byId)[lease.info.id := lease]
      ensures Rows() == old(Rows())[lease.info.id := Row(lease.info, None)]
      ensures Ids(byTokenHash) == old(Ids(byTokenHash))[lease.info.token := lease.info.id]
      ensures Ids(activeByScope) == old(Ids(activeByScope))[lease.info.scope := lease.info.id]
      ensures versions == old(versions)[lease.info.scope := lease.info.version]
      ensures Value() == WithEntered(old(Value()), lease.info)
    {
      IdsPut(byTokenHash, lease.info.token, lease);
      IdsPut(activeByScope, lease.info.scope, lease);
      LeadsToGrows(byTokenHash, byId, lease, lease.info.token);
      LeadsToGrows(activeByScope, byId, lease, lease.info.scope);
      byTokenHash := byTokenHash[lease.info.token := lease];
      byId := byId[lease.info.id := lease];
      activeByScope := activeByScope[lease.info.scope := lease];
      versions := versions[lease.info.scope := lease.info.version];
    }

    /** A new lease of the next version of its scope. */
    method Open(r: Request, now: nat, id: LeaseId, token: Token) returns (lease: HindsightLease)
      requires Valid() && id !in byId
      modifies this`byTokenHash, this`byId, this`activeByScope, this`versions
      ensures Valid() && byId == old(byId)[id := lease] && lease.revokedAt == None
      ensures lease.info == NewInfo(now, ttl, r, id, token, NextVersion(old(Value()), r.scope))
      ensures Value() == WithEntered(old(Value()), lease.info)
    {
      var version := (if r.scope in versions then versions[r.scope] else 0) + 1;
      lease := new HindsightLease(NewInfo(now, ttl, r, id, token, version));
      Enter(lease);
    }

    /** The active lease of the scope, when it may be handed out again. */
    method FindReusable(r: Request, now: nat) returns (lease: Option<HindsightLease>)
      requires Valid()
      ensures lease.Some? <==> MemReuses(Value(), now, r)
      ensures lease.Some? ==> r.scope in activeByScope && lease.value == activeByScope[r.scope]
    {
      if r.scope !in activeByScope { return None; }
      var current := activeByScope[r.scope];
      if && current.Value().Active(now) && !r.rotate
         && current.info.fingerprint == r.fingerprint && current.info.bank == r.bank
            && current.info.protocol == r.protocol {
        return Some(current);
      }
      return None;
    }

    /** Revokes the active lease of the scope, if there is one, and leaves the indexes alone. */
    method RetireActive(s: Scope, now: nat)
      requires Valid()
      modifies byId.Values
      ensures Valid()
      ensures Value() == WithRetired(old(Value()), s, now)
    {
      if s in activeByScope { RevokeLease(activeByScope[s], now); }
    }

    method Rotate(r: Request, now: nat, id: LeaseId, token: Token) returns (lease: HindsightLease)
      requires Valid() && id !in byId && !MemReuses(Value(), now, r)
      modifies this`byTokenHash, this`byId, this`activeByScope, this`versions, byId.Values
      ensures Valid() && Value() == MemIssue(old(Value()), now, ttl, r, id, token)
      ensures lease.info == MemIssued(old(Value()), now, ttl, r, id, token) && lease.revokedAt == None
      ensures id in byId && byId[id] == lease && lease.info.id == id
    {
      ghost var m := Value();
      IssueByParts(m, now, ttl, r, id, token);
      RetireActive(r.scope, now);
      lease := Open(r, now, id, token);
    }

    method IssueLinked(r: Request, now: nat, id: LeaseId, token: Token) returns (lease: HindsightLease)
      requires Valid() && id !in byId
      modifies this`byTokenHash, this`byId, this`activeByScope, this`versions, byId.Values
      ensures Valid() && Value() == MemIssue(old(Value()), now, ttl, r, id, token)
      ensures lease.info == MemIssued(old(Value()), now, ttl, r, id, token)
      ensures lease.info.id in byId && byId[lease.info.id] == lease && lease.Value().Active(now)
    {
      var current := FindReusable(r, now);
      if current.Some? { return current.value; }
      lease := Rotate(r, now, id, token);
    }

    /**
     The old lease of the scope is revoked only when it is not handed out again. The id is fresh, and with a fresh token
     the indexes agree again.
     */
    method Issue(r: Request, now: nat, id: LeaseId, token: Token) returns (lease: HindsightLease)
      requires Valid() && id !in byId
      modifies this, byId.Values
      ensures Valid() && Value() == MemIssue(old(Value()), now, ttl, r, id, token)
      ensures token !in old(byTokenHash) ==> KeepsAgreement(old(Value()), Value())
      ensures lease.info == MemIssued(old(Value()), now, ttl, r, id, token)
      ensures lease.info.id in byId && byId[lease.info.id] == lease && lease.Value().Active(now)
    {
      IssueKeepsAgreement(Value(), now, ttl, r, id, token);
      lease := IssueLinked(r, now, id, token);
    }

    method Get(id: LeaseId) returns (lease: Option<HindsightLease>)
      requires Valid()
      ensures lease.Some? <==> id in Value().rows
      ensures lease.Some? ==> lease.value.info.id == id && Value().rows[id] == lease.value.Value()
    {
      if id in byId { return Some(byId[id]); }
      return None;
    }

    method Revoke(id: LeaseId, args: ScopeArgs, now: nat) returns (lease: Option<HindsightLease>)
      requires Valid()
      modifies this, byId.Values
      ensures Valid() && byId == old(byId) && Value() == MemRevoke(old(Value()), now, id, args)
      ensures KeepsAgreement(old(Value()), Value())
      ensures lease.Some? <==> id in byId && args.Fit(byId[id].info.scope)
      ensures lease.Some? ==> lease.value == byId[id] && lease.value.revokedAt.Some?
    {
      RevokeKeepsAgreement(Value(), now, id, args);
      lease := RevokeLinked(id, args, now);
    }

    method RevokeLinked(id: LeaseId, args: ScopeArgs, now: nat) returns (lease: Option<HindsightLease>)
      requires Valid()
      modifies this`activeByScope, byId.Values
      ensures Valid() && Value() == MemRevoke(old(Value()), now, id, args)
      ensures lease.Some? <==> id in byId && args.Fit(byId[id].info.scope)
      ensures lease.Some? ==> lease.value == byId[id] && lease.value.revokedAt.Some?
    {
      if id !in byId { return None; }
      var found := byId[id];
      var scope := found.info.scope;
      if || (args.tenant.Some? && scope.tenant != args.tenant.value)
         || (args.member.Some? && scope.member != args.member.value)
         || (args.employee.Some? && scope.employee != args.employee.value) { return None; }
      Withdraw(found, now);
      return Some(found);
    }

    /** Revokes a stored lease and takes it out of the scope index. */
    method Withdraw(lease: HindsightLease, now: nat)
      requires Valid() && lease.info.id in byId && byId[lease.info.id] == lease
      modifies this`activeByScope, lease
      ensures Valid() && lease.revokedAt.Some?
      ensures Rows() == old(Rows())[lease.info.id := RevokedNow(old(Rows())[lease.info.id], now)]
      ensures var s, ids := lease.info.scope, old(Ids(activeByScope));
              Ids(activeByScope) == if s in ids && ids[s] == lease.info.id then ids - {s} else ids
    {
      RevokeLease(lease, now);
      DropIfActive(lease);
    }

    /** Takes the lease out of the scope index if it is the active one of its scope. */
    method DropIfActive(lease: HindsightLease)
      requires Valid() && lease.info.id in byId && byId[lease.info.id] == lease
      modifies this`activeByScope
      ensures Valid()
      ensures var s, ids := lease.info.scope, old(Ids(activeByScope));
              Ids(activeByScope) == if s in ids && ids[s] == lease.info.id then ids - {s} else ids
    {
      var s := lease.info.scope;
      if s in activeByScope && activeByScope[s] == lease {
        IdsDrop(activeByScope, s);
        activeByScope := activeByScope - {s};
      }
    }

    method RevokeScope(s: Scope, now: nat) returns (lease: Option<HindsightLease>)
      requires Valid()
      modifies this, byId.Values
      ensures Valid() && byId == old(byId) && Value() == MemRevokeScope(old(Value()), now, s)
      ensures KeepsAgreement(old(Value()), Value())
      ensures lease.Some? <==> s in old(activeByScope)
      ensures lease.Some? ==> lease.value == old(activeByScope)[s] && lease.value.revokedAt.Some?
    {
      ScopeKeepsAgreement(Value(), now, s);
      lease := RevokeScopeLinked(s, now);
    }

    method RevokeScopeLinked(s: Scope, now: nat) returns (lease: Option<HindsightLease>)
      requires Valid()
      modifies this`activeByScope, byId.Values
      ensures Valid() && Value() == MemRevokeScope(old(Value()), now, s)
      ensures lease.Some? <==> s in old(activeByScope)
      ensures lease.Some? ==> lease.value == old(activeByScope)[s] && lease.value.revokedAt.Some?
    {
      ghost var m := Value();
      if s in activeByScope { ScopeByParts(m, now, s); }
      lease := PopScope(s);
      if lease.Some? { RevokeLease(lease.value, now); }
    }

    /** Takes the active lease of the scope out of the index. */
    method PopScope(s: Scope) returns (lease: Option<HindsightLease>)
      requires Valid()
      modifies this`activeByScope
      ensures Valid() && Value() == old(Value()).(active := old(Value()).active - {s})
      ensures lease == if s in old(activeByScope) then Some(old(activeByScope)[s]) else None
    {
      IdsDrop(activeByScope, s);
      lease := if s in activeByScope then Some(activeByScope[s]) else None;
      activeByScope := activeByScope - {s};
    }

    method Resolve(token: Token, bank: Text, now: nat) returns (answer: Resolution)
      requires Valid()
      ensures answer == MemResolve(Value(), now, token, bank)
    {
      if token !in byTokenHash { return Unauthorized; }
      var lease := byTokenHash[token];
      assert Value().byToken[token] == lease.info.id && Value().rows[lease.info.id] == lease.Value();
      if lease.info.token != token || !lease.Value().Active(now) { return Unauthorized; }
      if lease.info.bank != bank { return Forbidden; }
      return Resolved(lease.info);
    }
  }

  // ----- the SQL repository -----

  predicate TokensDistinct(rows: map<LeaseId, Row>) {
    forall a, b :: a in rows && b in rows && rows[a].info.token == rows[b].info.token ==> a == b
  }

  /** The newest row of a scope is unique, so it is the one that NewestOf names. */
  lemma NewestIsUnique(q: Sql, s: Scope, id: LeaseId)
    requires VersionsDistinct(q.rows) && Newest(q.rows, s, id)
    ensures NewestOf(q, s) == Some(id)
  {
    var other := NewestOf(q, s);
    assert other.Some? && q.rows[other.value].info.version == q.rows[id].info.version;
  }

  /** Versions are distinct per scope, digests are unique and ids are primary keys. */
  predicate SqlOk(rows: map<LeaseId, Row>) {
    VersionsDistinct(rows) && TokensDistinct(rows) && forall id :: id in rows ==> rows[id].info.id == id
  }

  /** `newest` carries the greatest version of the scope among these rows, if they have any. */
  predicate NewestAmong(rows: map<LeaseId, Row>, s: Scope, among: set<LeaseId>, newest: Option<LeaseId>) {
    forall id :: id in among && id in rows && rows[id].info.scope == s ==>
      newest.Some? && newest.value in rows && rows[id].info.version <= rows[newest.value].info.version
  }

  lemma SameInfosKeepSql(rows: map<LeaseId, Row>, rows': map<LeaseId, Row>)
    requires SqlOk(rows) && SameInfos(rows, rows')
    ensures SqlOk(rows')
  {
  }

  predicate TokenUnused(rows: map<LeaseId, Row>, token: Token) {
    forall id :: id in rows ==> rows[id].info.token != token
  }

  predicate AboveScope(rows: map<LeaseId, Row>, s: Scope, version: nat) {
    forall id :: id in rows && rows[id].info.scope == s ==> rows[id].info.version < version
  }

  lemma InsertKeepsSql(rows: map<LeaseId, Row>, info: Info)
    requires SqlOk(rows) && info.id !in rows && TokenUnused(rows, info.token)
             && AboveScope(rows, info.scope, info.version)
    ensures SqlOk(rows[info.id := Row(info, None)])
  {
  }

  class HindsightLeaseRepository {
    const ttl: nat
    var rows: map<LeaseId, Row>
    var rawTokens: map<LeaseId, Token>

    ghost function Value(): Sql reads this { Sql(rows, rawTokens) }

    ghost predicate Valid() reads this { SqlOk(rows) }

    constructor (ttl: nat)
      requires ttl >= 1
      ensures Valid() && this.ttl == ttl && Value() == EMPTY.q
    {
      this.ttl := ttl;
      rows, rawTokens := map[], map[];
    }

    /** ORDER BY version DESC LIMIT 1. */
    method SelectNewest(s: Scope) returns (newest: Option<LeaseId>)
      requires Valid()
      ensures newest == NewestOf(Value(), s)
      ensures newest.Some? ==> newest.value in rows && rows[newest.value].info.scope == s
      ensures AboveScope(rows, s, if newest.Some? then rows[newest.value].info.version + 1 else 1)
    {
      newest := None;
      var rest := rows.Keys;
      while rest != {}
        invariant rest <= rows.Keys
        invariant newest.Some? ==> newest.value in rows && rows[newest.value].info.scope == s
        invariant NewestAmong(rows, s, rows.Keys - rest, newest)
        decreases |rest|
      {
        var id :| id in rest;
        rest := rest - {id};
        if rows[id].info.scope == s && (newest.None? || rows[newest.value].info.version < rows[id].info.version) {
          newest := Some(id);
        }
      }
      if newest.Some? { NewestIsUnique(Value(), s, newest.value); }
    }

    method Issue(r: Request, now: nat, id: LeaseId, token: Token) returns (lease: Info)
      requires Valid() && id !in rows && TokenUnused(rows, token)
      modifies this
      ensures Valid() && Value() == SqlIssue(old(Value()), NewestOf(old(Value()), r.scope), now, ttl, r, id, token)
      ensures lease == SqlIssued(old(Value()), NewestOf(old(Value()), r.scope), now, ttl, r, id, token)
    {
      var newest := SelectNewest(r.scope);
      if newest.Some? {
        var existing := rows[newest.value];
        if && existing.Active(now) && !r.rotate
           && existing.info.fingerprint == r.fingerprint && existing.info.bank == r.bank
              && existing.info.protocol == r.protocol
           && newest.value in rawTokens {
          return existing.info.(token := rawTokens[newest.value]);
        }
      }
      lease := Rotate(newest, r, now, id, token);
    }

    /** Retires the newest lease of the scope, if there is one, and inserts its successor. */
    method Rotate(newest: Option<LeaseId>, r: Request, now: nat, id: LeaseId, token: Token) returns (lease: Info)
      requires Valid() && id !in rows && TokenUnused(rows, token) && (newest.Some? ==> newest.value in rows)
      requires AboveScope(rows, r.scope, if newest.Some? then rows[newest.value].info.version + 1 else 1)
      modifies this
      ensures Valid()
      ensures var version := if newest.Some? then old(rows)[newest.value].info.version + 1 else 1;
              lease == NewInfo(now, ttl, r, id, token, version)
      ensures newest.Some? ==>
                rows == old(rows)[newest.value := RevokedNow(old(rows)[newest.value], now)][id := Row(lease, None)]
      ensures newest.None? ==> rows == old(rows)[id := Row(lease, None)]
      ensures rawTokens == old(rawTokens)[id := token]
    {
      var version := 1;
      if newest.Some? {
        version := rows[newest.value].info.version + 1;
        RevokeRow(newest.value, now, token, r.scope);
      }
      lease := NewInfo(now, ttl, r, id, token, version);
      InsertRow(lease);
      rawTokens := rawTokens[id := token];
    }

    /** UPDATE ... SET revoked_at WHERE revoked_at IS NULL; no lease changes otherwise. */
    method RevokeRow(id: LeaseId, now: nat, ghost token: Token, ghost s: Scope)
      requires Valid() && id in rows
      modifies this`rows
      ensures Valid() && rows == old(rows)[id := RevokedNow(old(rows)[id], now)] && rows.Keys == old(rows).Keys
      ensures TokenUnused(old(rows), token) ==> TokenUnused(rows, token)
      ensures AboveScope(old(rows), s, rows[id].info.version + 1) ==> AboveScope(rows, s, rows[id].info.version + 1)
    {
      SameInfosKeepSql(rows, rows[id := RevokedNow(rows[id], now)]);
      if rows[id].revokedAt.None? { rows := rows[id := rows[id].(revokedAt := Some(now))]; }
    }

    method InsertRow(lease: Info)
      requires Valid() && lease.id !in rows && TokenUnused(rows, lease.token)
               && AboveScope(rows, lease.scope, lease.version)
      modifies this`rows
      ensures Valid() && rows == old(rows)[lease.id := Row(lease, None)]
    {
      InsertKeepsSql(rows, lease);
      rows := rows[lease.id := Row(lease, None)];
    }

    method Revoke(id: LeaseId, args: ScopeArgs, now: nat) returns (found: bool)
      requires Valid()
      modifies this
      ensures Valid() && Value() == SqlRevoke(old(Value()), now, id, args)
      ensures found <==> SqlFound(old(Value()), id, args)
      ensures found ==> id in rows && rows[id].revokedAt.Some?
    {
      var target := Scope(0, 0, 0);
      if args.tenant.None? || args.member.None? || args.employee.None? {
        if id !in rows { return false; }
        target := rows[id].info.scope;
      } else {
        target := Scope(args.tenant.value, args.member.value, args.employee.value);
      }
      if id !in rows || rows[id].info.scope != target { return false; }
      rows := rows[id := if rows[id].revokedAt.Some? then rows[id] else rows[id].(revokedAt := Some(now))];
      return true;
    }

    /** Returns a row that was revoked by this call, if there is any. */
    method RevokeScope(s: Scope, now: nat) returns (lease: Option<LeaseId>)
      requires Valid()
      modifies this
      ensures Valid() && Value() == SqlRevokeScope(old(Value()), now, s)
      ensures SqlScopeAnswer(old(rows), s, lease)
      ensures forall id :: id in rows && rows[id].info.scope == s ==> rows[id].revokedAt.Some?
    {
      lease := None;
      if id :| id in rows && Unrevoked(rows, s, id) { lease := Some(id); }
      ghost var q := Value();
      assert SqlOk(SqlRevokeScope(q, now, s).rows) by { SameInfosKeepSql(rows, SqlRevokeScope(q, now, s).rows); }
      rows := map id | id in rows :: if rows[id].info.scope == s then RevokedNow(rows[id], now) else rows[id];
    }

    method Resolve(token: Token, bank: Text, args: ScopeArgs, now: nat) returns (answer: Resolution)
      requires Valid()
      ensures answer == InScope(SqlResolve(Value(), now, token, bank), args)
    {
      if id :| id in rows && rows[id].info.token == token {
        assert SqlFinds(Value(), token, id);
        if !rows[id].Active(now) { return Unauthorized; }
        if rows[id].info.bank != bank { return Forbidden; }
        var s := rows[id].info.scope;
        if || (args.tenant.Some? && s.tenant != args.tenant.value)
          || (args.member.Some? && s.member != args.member.value)
           || (args.employee.Some? && s.employee != args.employee.value) { return Forbidden; }
        return Resolved(rows[id].info);
      }
      assert forall id :: !SqlFinds(Value(), token, id);
      return Unauthorized;
    }

    method CleanupExpired(now: nat) returns (count: nat)
      requires Valid()
      modifies this
      ensures Valid() && Value() == SqlCleanup(old(Value()), now)
      ensures count == |set id | id in old(rows) && old(rows)[id].revokedAt.None?
              && old(rows)[id].info.expiresAt <= now|
    {
      count := |set id | id in rows && rows[id].revokedAt.None? && rows[id].info.expiresAt <= now|;
      rows := map id | id in rows ::
                if rows[id].revokedAt.None? && rows[id].info.expiresAt <= now
                  then rows[id].(revokedAt := Some(rows[id].info.expiresAt)) else rows[id];
    }
  }
}

/** The two workers that sweep: their loops, cursors and budgets. */
module SweepWorkers {
  import opened Prelude
  import opened Sweep

  /** What one tenant's turn came to; a failure is caught and the sweep goes on. */
  datatype Turn = Claimed | Idle | Failed

  function Count(p: seq<Tenant>, turns: Tenant -> Turn): nat {
    if p == [] then 0 else Count(p[..|p| - 1], turns) + (if turns(p[|p| - 1]) == Claimed then 1 else 0)
  }

  /** The bounded inventory of the tenants with due rows, in id order; between 1 and 64 of them. */
  method DueTenantIds(due: set<Tenant>, after: Option<Tenant>, limit: int) returns (ids: seq<Tenant>)
    ensures ids == Page(Ahead(due, after), Max(1, Min(limit, 64)))
  {
    var rest, k: nat := set t | t in due && Beyond(after, t), if limit < 1 then 1 else if limit > 64 then 64 else limit;
    ids := [];
    while k > 0 && rest != {}
      invariant ids + Page(rest, k) == Page(Ahead(due, after), Max(1, Min(limit, 64)))
      decreases k
    {
      var t := Least(rest);
      ids := ids + [t];
      rest := rest - {t};
      k := k - 1;
    }
  }

  /** The next inventory of a worker: after the cursor, or from the start when that is empty. */
  method NextInventory(due: set<Tenant>, cursor: Option<Tenant>) returns (ids: seq<Tenant>)
    ensures ids == Page(Inventory(due, cursor), 32)
  {
    ids := DueTenantIds(due, cursor, 32);
    if ids == [] && cursor.Some? {
      ids := DueTenantIds(due, None, 32);
      assert Ahead(due, None) == due;
    }
    if Ahead(due, cursor) != {} { assert |Page(Ahead(due, cursor), 32)| > 0; }
    if cursor.None? { assert Ahead(due, cursor) == due; }
  }

  /** The visits of a sweep are the first of its inventory. */
  lemma VisitsStartInventory(due: set<Tenant>, cursor: Option<Tenant>, ids: seq<Tenant>, b: nat, n: nat)
    requires ids == Page(Inventory(due, cursor), 32) && b <= 32 && n == Min(b, |ids|)
    ensures ids[..n] == Visits(due, cursor, b)
  {
    PageOfPage(Inventory(due, cursor), 32, b);
  }

  class KnowledgeIntakeRecovery {
    var tenantCursor: Option<Tenant>

    constructor ()
      ensures tenantCursor == None
    {
      tenantCursor := None;
    }

    /** One sweep: at most eight tenants, each once, and the cursor ends on the last one whatever its turn came to. */
    method MaintainAll(due: set<Tenant>, limit: int, turns: Tenant -> Turn) returns (total: nat, visits: seq<Tenant>)
      modifies this
      ensures visits == Visits(due, old(tenantCursor), Min(8, Max(0, limit)))
      ensures |visits| <= 8 && Ascending(visits) && Elems(visits) <= due
      ensures tenantCursor == CursorAfter(visits, old(tenantCursor))
      ensures total == Count(visits, turns)
    {
      var budget: nat := if limit < 0 then 0 else if limit > 8 then 8 else limit;
      PageIsLowerPart(Inventory(due, tenantCursor), budget);
      if budget == 0 { return 0, []; }
      var ids := NextInventory(due, tenantCursor);
      var attempts := 0;
      total := 0;
      while attempts < |ids| && attempts < budget
        invariant 0 <= attempts <= Min(budget, |ids|)
        invariant tenantCursor == CursorAfter(ids[..attempts], old(tenantCursor))
        invariant total == Count(ids[..attempts], turns)
      {
        var tenant := ids[attempts];
        tenantCursor := Some(tenant);
        assert ids[..attempts + 1][..attempts] == ids[..attempts];
        attempts := attempts + 1;
        if turns(tenant) == Claimed { total := total + 1; }
      }
      VisitsStartInventory(due, old(tenantCursor), ids, budget, attempts);
      visits := ids[..attempts];
    }
  }

  class MemoryRetentionWorker {
    var tenantCursor: Option<Tenant>

    constructor ()
      ensures tenantCursor == None
    {
      tenantCursor := None;
    }

    /**
     One tick in worker mode. The clock is read before each tenant and again before its claim; `ticks` readings come
     before the time limit. At most sixteen tenants get one claim call each, and the limit can cut the tick short
     between the two readings, when the cursor has already moved on.
     */
    method MaintainOnce(due: set<Tenant>, turns: Tenant -> Turn, ticks: nat) returns (claimed: nat, visits: seq<Tenant>)
      modifies this
      ensures visits == Visits(due, old(tenantCursor), Min(16, ticks / 2))
      ensures |visits| <= 16 && Ascending(visits) && Elems(visits) <= due
      ensures tenantCursor == CursorAfter(Visits(due, old(tenantCursor), Min(16, (ticks + 1) / 2)), old(tenantCursor))
      ensures ticks >= 32 ==> visits == Visits(due, old(tenantCursor), 16)
      ensures ticks >= 32 ==> tenantCursor == CursorAfter(visits, old(tenantCursor))
      ensures claimed == Count(visits, turns)
    {
      PageIsLowerPart(Inventory(due, tenantCursor), Min(16, ticks / 2));
      var ids := NextInventory(due, tenantCursor);
      var i, moved, readings := 0, 0, 0;
      claimed := 0;
      while i < |ids| && i < 16 && readings < ticks
        invariant 0 <= i <= Min(16, |ids|) && i <= moved <= i + 1 && moved <= Min(16, |ids|)
        invariant if moved == i then readings == 2 * i <= ticks else readings == 2 * i + 1 == ticks
        invariant tenantCursor == CursorAfter(ids[..moved], old(tenantCursor))
        invariant claimed == Count(ids[..i], turns)
        decreases |ids| - i, ticks - readings
      {
        readings := readings + 1;
        tenantCursor := Some(ids[i]);
        moved := i + 1;
        assert ids[..i + 1][..i] == ids[..i];
        if readings < ticks {
          readings := readings + 1;
          if turns(ids[i]) == Claimed { claimed := claimed + 1; }
          i := i + 1;
        }
      }
      VisitsStartInventory(due, old(tenantCursor), ids, Min(16, ticks / 2), i);
      VisitsStartInventory(due, old(tenantCursor), ids, Min(16, (ticks + 1) / 2), moved);
      visits := ids[..i];
    }

    /**
     A targeted call for one tenant: up to sixteen jobs, one claim after the other, until a claim finds none or fails
     or the time limit passes. `turns` says what each claim came to. The cursor stays where it is.
     */
    method MaintainTenant(isDue: bool, turns: nat -> Turn, ticks: nat) returns (jobs: nat)
      ensures jobs <= 16 && (forall i :: 0 <= i < jobs ==> turns(i) == Claimed)
      ensures jobs > 0 ==> isDue && jobs < ticks
      ensures isDue && jobs < 16 && jobs + 1 < ticks ==> turns(jobs) != Claimed
    {
      jobs := 0;
      if !isDue || ticks == 0 { return; }
      while jobs < 16 && jobs + 1 < ticks
        invariant jobs <= 16 && (forall i :: 0 <= i < jobs ==> turns(i) == Claimed) && (jobs > 0 ==> jobs < ticks)
      {
        if turns(jobs) != Claimed { break; }
        jobs := jobs + 1;
      }
    }
  }
}

/**
 The rotating bounded sweeps of the ingestion recovery and of the retention worker:
 each visits the due tenants after its cursor, up to a budget, and wraps between passes.
 Tenants are numbered in the order of their ids.
 */
module Sweep {
  import opened Prelude

  type Tenant = nat

  // ----- the inventory: ORDER BY tenant_id LIMIT k -----

  predicate IsLeast(s: set<Tenant>, t: Tenant) { t in s && forall u :: u in s ==> t <= u }

  lemma {:induction false} HasLeast(s: set<Tenant>)
    requires s != {}
    ensures exists t :: IsLeast(s, t)
    decreases |s|
  {
    var t :| t in s;
    if s == {t} {
      assert IsLeast(s, t);
    } else {
      var rest := s - {t};
      assert rest != {} && s == rest + {t};
      HasLeast(rest);
      var u :| IsLeast(rest, u);
      assert IsLeast(s, if t <= u then t else u);
    }
  }

  lemma LeastIsUnique(s: set<Tenant>)
    ensures forall t, u :: IsLeast(s, t) && IsLeast(s, u) ==> t == u
  {
  }

  function Least(s: set<Tenant>): (t: Tenant)
    requires s != {}
    ensures IsLeast(s, t)
  {
    HasLeast(s);
    LeastIsUnique(s);
    var t :| IsLeast(s, t);
    t
  }

  /** The k least tenants of a set, ascending. */
  function Page(s: set<Tenant>, k: nat): seq<Tenant> {
    if k == 0 || s == {} then [] else [Least(s)] + Page(s - {Least(s)}, k - 1)
  }

  function Elems(p: seq<Tenant>): set<Tenant> { set t | t in p }

  predicate Beyond(cursor: Option<Tenant>, t: Tenant) { cursor.None? || cursor.value < t }

  function Ahead(due: set<Tenant>, cursor: Option<Tenant>): set<Tenant> { set t | t in due && Beyond(cursor, t) }

  predicate Ascending(p: seq<Tenant>) { forall i, j :: 0 <= i < j < |p| ==> p[i] < p[j] }

  /** `low` is a lower part of s: everything it leaves out lies above it. */
  predicate LowerPart(low: set<Tenant>, s: set<Tenant>) {
    low <= s && forall t, u :: t in low && u in s - low ==> t < u
  }

  lemma AscendingAfter(t: Tenant, p: seq<Tenant>)
    requires Ascending(p) && forall u :: u in p ==> t < u
    ensures Ascending([t] + p)
  {
    forall i, j | 0 <= i < j < |p| + 1 ensures ([t] + p)[i] < ([t] + p)[j] {
      assert p[j - 1] in p;
      if i > 0 { assert p[i - 1] < p[j - 1]; }
    }
  }

  lemma ElemsAfter(t: Tenant, p: seq<Tenant>)
    ensures Elems([t] + p) == {t} + Elems(p)
  {
  }

  lemma LowerPartAfter(s: set<Tenant>, low: set<Tenant>)
    requires s != {} && LowerPart(low, s - {Least(s)})
    ensures LowerPart({Least(s)} + low, s)
  {
    forall t, u | t in {Least(s)} + low && u in s - ({Least(s)} + low) ensures t < u {
      assert u in (s - {Least(s)}) - low;
    }
  }

  /** A page is the lower part of its set, as long as the limit allows, and ascending. */
  lemma {:induction false} PageIsLowerPart(s: set<Tenant>, k: nat)
    ensures |Page(s, k)| == Min(k, |s|) && Ascending(Page(s, k)) && LowerPart(Elems(Page(s, k)), s)
  {
    if k > 0 && s != {} {
      var rest := s - {Least(s)};
      var tail := Page(rest, k - 1);
      PageIsLowerPart(rest, k - 1);
      assert |rest| == |s| - 1;
      ElemsAfter(Least(s), tail);
      LowerPartAfter(s, Elems(tail));
      forall u | u in tail ensures Least(s) < u { assert u in Elems(tail); }
      AscendingAfter(Least(s), tail);
    }
  }

  lemma {:induction false} PageOfPage(s: set<Tenant>, k: nat, b: nat)
    requires b <= k
    ensures |Page(s, b)| <= |Page(s, k)| && Page(s, k)[..|Page(s, b)|] == Page(s, b)
    ensures |Page(s, b)| == Min(b, |Page(s, k)|)
  {
    if b > 0 && s != {} { PageOfPage(s - {Least(s)}, k - 1, b - 1); }
  }

  // ----- one sweep -----

  /** The tenants a sweep may visit: those beyond the cursor or, when there is none, all. */
  function Inventory(due: set<Tenant>, cursor: Option<Tenant>): set<Tenant> {
    if Ahead(due, cursor) == {} then due else Ahead(due, cursor)
  }

  function Visits(due: set<Tenant>, cursor: Option<Tenant>, b: nat): seq<Tenant> { Page(Inventory(due, cursor), b) }

  function CursorAfter(visits: seq<Tenant>, cursor: Option<Tenant>): Option<Tenant> {
    if visits == [] then cursor else Some(visits[|visits| - 1])
  }

  lemma LastIsGreatest(p: seq<Tenant>, t: Tenant)
    requires Ascending(p) && t in p
    ensures t <= p[|p| - 1]
  {
    var i :| 0 <= i < |p| && p[i] == t;
  }

  /** After a sweep, the tenants ahead of the cursor are those of the inventory that it did not reach. */
  lemma SweepConsumes(due: set<Tenant>, cursor: Option<Tenant>, b: nat)
    requires b > 0 && due != {}
    ensures var all, visits := Inventory(due, cursor), Visits(due, cursor, b);
            && visits != [] && Elems(visits) <= all && LowerPart(Elems(visits), all)
            && Ahead(due, CursorAfter(visits, cursor)) == all - Elems(visits)
            && |all - Elems(visits)| == |all| - Min(b, |all|)
  {
    var all := Inventory(due, cursor);
    assert all != {};
    var visits := Visits(due, cursor, b);
    PageIsLowerPart(all, b);
    ElemsCount(visits);
    SubsetCount(Elems(visits), all);
    var last := visits[|visits| - 1];
    assert last in Elems(visits);
    forall t ensures t in Ahead(due, Some(last)) <==> t in all - Elems(visits) {
      if t in visits { LastIsGreatest(visits, t); }
    }
  }

  lemma {:induction false} ElemsCount(p: seq<Tenant>)
    requires Ascending(p)
    ensures |Elems(p)| == |p|
  {
    if p != [] {
      var front, last := p[..|p| - 1], p[|p| - 1];
      ElemsCount(front);
      assert last !in front;
      assert p == front + [last];
      assert Elems(p) == Elems(front) + {last};
    }
  }

  // ----- any number of sweeps; the due set may differ from one sweep to the next -----

  function Visited(dues: seq<set<Tenant>>, cursor: Option<Tenant>, b: nat): set<Tenant> {
    if dues == [] then {}
    else
      var visits := Visits(dues[0], cursor, b);
      Elems(visits) + Visited(dues[1..], CursorAfter(visits, cursor), b)
  }

  predicate Steady(dues: seq<set<Tenant>>, due: set<Tenant>) { forall i :: 0 <= i < |dues| ==> dues[i] == due }

  /** n / b rounded up. */
  function Ceil(n: nat, b: nat): (r: nat)
    requires b > 0
    ensures n <= r * b && (r > 0 ==> (r - 1) * b < n)
  {
    if n == 0 then 0 else if n <= b then 1 else 1 + Ceil(n - b, b)
  }

  lemma {:induction false} CeilMonotone(n: nat, m: nat, b: nat)
    requires b > 0 && n <= m
    ensures Ceil(n, b) <= Ceil(m, b)
  {
    if n > b { CeilMonotone(n - b, m - b, b); }
  }

  /** A tenant of the inventory is reached before the pass ends. */
  lemma {:induction false} ReachedInPass(dues: seq<set<Tenant>>, due: set<Tenant>, cursor: Option<Tenant>, b: nat,
                                         t: Tenant)
    requires b > 0 && Steady(dues, due) && t in Inventory(due, cursor)
    requires |dues| >= Ceil(|Inventory(due, cursor)|, b)
    ensures t in Visited(dues, cursor, b)
    decreases |dues|
  {
    var visits := Visits(due, cursor, b);
    SweepConsumes(due, cursor, b);
    assert |Inventory(due, cursor)| > 0;
    if t !in visits {
      assert t in Ahead(due, CursorAfter(visits, cursor));
      ReachedInPass(dues[1..], due, CursorAfter(visits, cursor), b, t);
    }
  }

  lemma SubsetCount(a: set<Tenant>, s: set<Tenant>)
    requires a <= s
    ensures |s - a| == |s| - |a|
  {
    assert s == (s - a) + a;
  }

  /** A tenant the cursor has passed is reached in the pass after this one. */
  lemma {:induction false} ReachedAfterWrap(dues: seq<set<Tenant>>, due: set<Tenant>, cursor: Option<Tenant>, b: nat,
                                            t: Tenant)
    requires b > 0 && Steady(dues, due) && t in due
    requires |dues| >= Ceil(|Ahead(due, cursor)|, b) + Ceil(|due|, b)
    ensures t in Visited(dues, cursor, b)
    decreases |dues|
  {
    if t in Inventory(due, cursor) {
      ReachedInPass(dues, due, cursor, b, t);
    } else {
      assert Ahead(due, cursor) != {};
      SweepConsumes(due, cursor, b);
      ReachedAfterWrap(dues[1..], due, CursorAfter(Visits(due, cursor, b), cursor), b, t);
    }
  }

  /** With n tenants staying due, each is visited within 2 * ceil(n / b) sweeps, whatever the cursor. */
  lemma SweepIsFair(dues: seq<set<Tenant>>, due: set<Tenant>, cursor: Option<Tenant>, b: nat, t: Tenant)
    requires b > 0 && Steady(dues, due) && t in due && |dues| >= 2 * Ceil(|due|, b)
    ensures t in Visited(dues, cursor, b)
  {
    SubsetCount(Ahead(due, cursor), due);
    CeilMonotone(|Ahead(due, cursor)|, |due|, b);
    ReachedAfterWrap(dues, due, cursor, b, t);
  }

  // ----- a due set that shifts between sweeps -----

  predicate Shifting(dues: seq<set<Tenant>>, universe: set<Tenant>, t: Tenant) {
    forall i :: 0 <= i < |dues| ==> t in dues[i] && dues[i] <= universe
  }

  /** The tenants other than t that may be visited before t is. */
  function InTheWay(universe: set<Tenant>, cursor: Option<Tenant>, t: Tenant): set<Tenant> {
    if Beyond(cursor, t) then set u | u in universe && Beyond(cursor, u) && u < t
    else set u | u in universe && (Beyond(cursor, u) || u < t)
  }

  lemma SubsetAtMost(a: set<Tenant>, s: set<Tenant>)
    requires a <= s
    ensures |a| <= |s|
  {
    SubsetCount(a, s);
  }

  lemma CursorMakesWay(due: set<Tenant>, universe: set<Tenant>, cursor: Option<Tenant>, last: Tenant, t: Tenant)
    requires t in due && due <= universe && last in Inventory(due, cursor) && last != t
             && (t in Inventory(due, cursor) ==> last < t)
    ensures last in InTheWay(universe, cursor, t)
            && InTheWay(universe, Some(last), t) <= InTheWay(universe, cursor, t) - {last}
  {
    if Ahead(due, cursor) == {} { assert t !in Ahead(due, cursor) && !Beyond(cursor, t); }
    else { assert t in Ahead(due, cursor) <==> Beyond(cursor, t); }
  }

  /** A sweep that misses t removes at least one tenant from its way. */
  lemma SweepMakesWay(due: set<Tenant>, universe: set<Tenant>, cursor: Option<Tenant>, b: nat, t: Tenant)
    requires b > 0 && t in due && due <= universe && t !in Visits(due, cursor, b)
    ensures |InTheWay(universe, CursorAfter(Visits(due, cursor, b), cursor), t)| < |InTheWay(universe, cursor, t)|
  {
    var all, visits := Inventory(due, cursor), Visits(due, cursor, b);
    SweepConsumes(due, cursor, b);
    var last := visits[|visits| - 1];
    assert last in Elems(visits);
    var before, after := InTheWay(universe, cursor, t), InTheWay(universe, Some(last), t);
    if t in all { assert t in all - Elems(visits) && last < t; }
    CursorMakesWay(due, universe, cursor, last, t);
    SubsetAtMost(after, before - {last});
  }

  lemma {:induction false} ReachedThroughShifts(dues: seq<set<Tenant>>, universe: set<Tenant>, cursor: Option<Tenant>,
                                                b: nat, t: Tenant)
    requires b > 0 && Shifting(dues, universe, t) && |dues| > |InTheWay(universe, cursor, t)|
    ensures t in Visited(dues, cursor, b)
    decreases |dues|
  {
    var visits := Visits(dues[0], cursor, b);
    if t !in visits {
      SweepMakesWay(dues[0], universe, cursor, b, t);
      ReachedThroughShifts(dues[1..], universe, CursorAfter(visits, cursor), b, t);
    }
  }

  /** Whichever of the other n - 1 tenants come and go, a tenant that stays due is visited within n sweeps. */
  lemma SweepIsFairThroughShifts(dues: seq<set<Tenant>>, universe: set<Tenant>, cursor: Option<Tenant>, b: nat,
                                 t: Tenant)
    requires b > 0 && t in universe && Shifting(dues, universe, t) && |dues| >= |universe|
    ensures t in Visited(dues, cursor, b)
  {
    SubsetAtMost(InTheWay(universe, cursor, t), universe - {t});
    ReachedThroughShifts(dues, universe, cursor, b, t);
  }

  /** Sweep number i finds only tenants 0 and from + i + 1 due. */
  function OneAhead(from: Tenant, n: nat): seq<set<Tenant>> { seq(n, i requires 0 <= i < n => {0, from + i + 1}) }

  /** The bound n cannot be lowered: n - 1 shifting sweeps over tenants 0 to n - 1 can miss tenant 0, at any budget. */
  lemma {:induction false} ShiftsCanTakeAllSweeps(from: Tenant, n: nat, b: nat)
    requires b > 0
    ensures 0 !in Visited(OneAhead(from, n), Some(from), b)
    ensures forall i :: 0 <= i < n ==> OneAhead(from, n)[i] == {0, from + i + 1}
    decreases n
  {
    if n > 0 {
      var dues := OneAhead(from, n);
      assert dues[0] == {0, from + 1};
      assert Ahead(dues[0], Some(from)) == {from + 1};
      assert IsLeast({from + 1}, Least({from + 1}));
      assert {from + 1} - {from + 1} == {};
      assert Page({from + 1}, b) == [from + 1];
      assert dues[1..] == OneAhead(from + 1, n - 1);
      ShiftsCanTakeAllSweeps(from + 1, n - 1, b);
    }
  }
}

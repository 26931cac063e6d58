/** The incremental pull of authorized configuration, and what a client holds after applying it. */
module AuthorizedPull {
  import opened Prelude

  type Id = nat
  type Marker = nat

  datatype Kind = Expert | Solution
  datatype Grant = Grant(kind: Kind, resource: Id, members: set<Id>, departments: set<Id>)

  /** `sync` is the marker delivered with an employee; without an avatar the plain version is accepted too. */
  datatype Config = Config(id: Id, sync: Marker, plain: Marker, hasAvatar: bool)
  datatype Instance = Instance(id: Id, applied: bool, marker: Marker)

  datatype Tenant = Tenant(configs: seq<Config>, instances: seq<Instance>, grants: seq<Grant>)
  datatype Member = Member(id: Id, departments: set<Id>, exempt: bool)
  datatype Response = Response(experts: seq<Config>, solutions: seq<Instance>, revoked: set<Id>)

  // ----- who may see what -----

  predicate Reaches(g: Grant, m: Member) { m.id in g.members || m.departments * g.departments != {} }

  function GrantedIds(grants: seq<Grant>, kind: Kind, m: Member): set<Id> {
    set g | g in grants && g.kind == kind && Reaches(g, m) :: g.resource
  }

  function EmployeeIds(t: Tenant): set<Id> { set c | c in t.configs :: c.id }
  function SolutionIds(t: Tenant): set<Id> { set s | s in t.instances :: s.id }
  function AppliedIds(t: Tenant): set<Id> { set s | s in t.instances && s.applied :: s.id }

  function EmployeesFor(t: Tenant, m: Member): set<Id> {
    if m.exempt then EmployeeIds(t) else GrantedIds(t.grants, Expert, m)
  }
  function SolutionsFor(t: Tenant, m: Member): set<Id> {
    if m.exempt then AppliedIds(t) else GrantedIds(t.grants, Solution, m) * AppliedIds(t)
  }

  /** The full authorized view: existing employees and applied solutions that the member may see. */
  function View(t: Tenant, m: Member): set<Id> { (EmployeesFor(t, m) * EmployeeIds(t)) + SolutionsFor(t, m) }

  // ----- the delta -----

  predicate Accepts(c: Config, known: map<Id, Marker>) {
    c.id in known && (known[c.id] == c.sync || (!c.hasAvatar && known[c.id] == c.plain))
  }

  predicate Current(s: Instance, known: map<Id, Marker>) { s.id in known && known[s.id] == s.marker }

  predicate DeliversExpert(c: Config, ids: set<Id>, known: map<Id, Marker>) { c.id in ids && !Accepts(c, known) }
  predicate DeliversSolution(s: Instance, ids: set<Id>, known: map<Id, Marker>) {
    s.id in ids && s.applied && !Current(s, known)
  }

  predicate Revokes(t: Tenant, m: Member, id: Id) {
    (id !in EmployeesFor(t, m) && id !in SolutionsFor(t, m)) || (id !in EmployeeIds(t) && id !in SolutionIds(t))
  }

  /** The employees to deliver, in inventory order. */
  function Experts(p: seq<Config>, ids: set<Id>, known: map<Id, Marker>): seq<Config> {
    if p == [] then []
    else
      var c := p[|p| - 1];
      Experts(p[..|p| - 1], ids, known) + if DeliversExpert(c, ids, known) then [c] else []
  }

  function Solutions(p: seq<Instance>, ids: set<Id>, known: map<Id, Marker>): seq<Instance> {
    if p == [] then []
    else
      var s := p[|p| - 1];
      Solutions(p[..|p| - 1], ids, known) + if DeliversSolution(s, ids, known) then [s] else []
  }

  /** What the client does not have in its current version, and what it must drop. */
  function Delta(t: Tenant, m: Member, known: map<Id, Marker>): Response {
    Response(Experts(t.configs, EmployeesFor(t, m), known), Solutions(t.instances, SolutionsFor(t, m), known),
             set id | id in known && Revokes(t, m, id))
  }

  method Pull(t: Tenant, m: Member, known: map<Id, Marker>) returns (r: Response)
    ensures r == Delta(t, m, known)
  {
    var employees, solutions := EmployeesFor(t, m), SolutionsFor(t, m);
    var experts: seq<Config>, instances: seq<Instance> := [], [];
    for i := 0 to |t.configs|
      invariant experts == Experts(t.configs[..i], employees, known)
    {
      var c := t.configs[i];
      assert t.configs[..i + 1][..i] == t.configs[..i];
      if c.id in employees {
        var accepted := {c.sync};
        if !c.hasAvatar { accepted := accepted + {c.plain}; }
        if c.id !in known || known[c.id] !in accepted { experts := experts + [c]; }
      }
    }
    assert t.configs[..|t.configs|] == t.configs;
    for i := 0 to |t.instances|
      invariant instances == Solutions(t.instances[..i], solutions, known)
    {
      var s := t.instances[i];
      assert t.instances[..i + 1][..i] == t.instances[..i];
      if s.id in solutions && s.applied && (s.id !in known || known[s.id] != s.marker) { instances := instances + [s]; }
    }
    assert t.instances[..|t.instances|] == t.instances;
    r := Response(experts, instances, set id | id in known && Revokes(t, m, id));
  }

  lemma {:induction false} ExpertsAreThose(p: seq<Config>, ids: set<Id>, known: map<Id, Marker>, c: Config)
    ensures c in Experts(p, ids, known) <==> c in p && DeliversExpert(c, ids, known)
  {
    if p != [] {
      ExpertsAreThose(p[..|p| - 1], ids, known, c);
      assert p == p[..|p| - 1] + [p[|p| - 1]];
    }
  }

  lemma {:induction false} SolutionsAreThose(p: seq<Instance>, ids: set<Id>, known: map<Id, Marker>, s: Instance)
    ensures s in Solutions(p, ids, known) <==> s in p && DeliversSolution(s, ids, known)
  {
    if p != [] {
      SolutionsAreThose(p[..|p| - 1], ids, known, s);
      assert p == p[..|p| - 1] + [p[|p| - 1]];
    }
  }

  // ----- the client -----

  function StoreExperts(known: map<Id, Marker>, experts: seq<Config>): map<Id, Marker> {
    if experts == [] then known
    else
      var c := experts[|experts| - 1];
      StoreExperts(known, experts[..|experts| - 1])[c.id := c.sync]
  }

  function StoreSolutions(known: map<Id, Marker>, solutions: seq<Instance>): map<Id, Marker> {
    if solutions == [] then known
    else
      var s := solutions[|solutions| - 1];
      StoreSolutions(known, solutions[..|solutions| - 1])[s.id := s.marker]
  }

  /** The client drops what is revoked and stores the delivered markers. */
  function Apply(known: map<Id, Marker>, r: Response): map<Id, Marker> {
    StoreSolutions(StoreExperts(known - r.revoked, r.experts), r.solutions)
  }

  predicate UniqueConfigs(p: seq<Config>) { forall a, b :: a in p && b in p && a.id == b.id ==> a == b }
  predicate UniqueInstances(p: seq<Instance>) { forall a, b :: a in p && b in p && a.id == b.id ==> a == b }

  /** Storing markers under an id that only `c` carries leaves that of c. */
  lemma {:induction false} StoredExpert(known: map<Id, Marker>, p: seq<Config>, id: Id)
    ensures id in StoreExperts(known, p) <==> id in known || exists c :: c in p && c.id == id
    ensures (forall c :: c in p ==> c.id != id) && id in known ==> StoreExperts(known, p)[id] == known[id]
    ensures forall c :: c in p && c.id == id && (forall d :: d in p && d.id == id ==> d == c) ==>
            StoreExperts(known, p)[id] == c.sync
  {
    if p != [] {
      var front, last := p[..|p| - 1], p[|p| - 1];
      StoredExpert(known, front, id);
      assert p == front + [last];
    }
  }

  lemma {:induction false} StoredSolution(known: map<Id, Marker>, p: seq<Instance>, id: Id)
    ensures id in StoreSolutions(known, p) <==> id in known || exists s :: s in p && s.id == id
    ensures (forall s :: s in p ==> s.id != id) && id in known ==> StoreSolutions(known, p)[id] == known[id]
    ensures forall s :: s in p && s.id == id && (forall d :: d in p && d.id == id ==> d == s) ==>
            StoreSolutions(known, p)[id] == s.marker
  {
    if p != [] {
      var front, last := p[..|p| - 1], p[|p| - 1];
      StoredSolution(known, front, id);
      assert p == front + [last];
    }
  }

  // ----- the pull agrees with the full view -----

  /** A known id is left over when an expert grant names what exists only as a solution that is not authorized. */
  predicate LeftOver(t: Tenant, m: Member, id: Id) {
    id in EmployeesFor(t, m) && id !in EmployeeIds(t) && id in SolutionIds(t) && id !in SolutionsFor(t, m)
  }

  lemma KeptIsViewOrLeftOver(t: Tenant, m: Member, id: Id)
    ensures !Revokes(t, m, id) <==> id in View(t, m) || LeftOver(t, m, id)
  {
    assert SolutionsFor(t, m) <= AppliedIds(t) <= SolutionIds(t);
  }

  lemma DeliversKnownToView(t: Tenant, m: Member, known: map<Id, Marker>, id: Id)
    ensures (exists c :: c in Delta(t, m, known).experts && c.id == id) ==> id in View(t, m)
    ensures (exists s :: s in Delta(t, m, known).solutions && s.id == id) ==> id in View(t, m)
    ensures id in View(t, m) && id !in known ==>
              (exists c :: c in Delta(t, m, known).experts && c.id == id)
                || (exists s :: s in Delta(t, m, known).solutions && s.id == id)
  {
    forall c | c in Delta(t, m, known).experts && c.id == id
      ensures id in View(t, m)
    {
      ExpertsAreThose(t.configs, EmployeesFor(t, m), known, c);
    }
    forall s | s in Delta(t, m, known).solutions && s.id == id
      ensures id in View(t, m)
    {
      SolutionsAreThose(t.instances, SolutionsFor(t, m), known, s);
    }
    if id in View(t, m) && id !in known {
      if id in SolutionsFor(t, m) {
        var s :| s in t.instances && s.applied && s.id == id;
        SolutionsAreThose(t.instances, SolutionsFor(t, m), known, s);
      } else {
        var c :| c in t.configs && c.id == id;
        ExpertsAreThose(t.configs, EmployeesFor(t, m), known, c);
      }
    }
  }

  /** After a pull the client holds exactly the view and the known ids left over. */
  lemma PullMatchesView(t: Tenant, m: Member, known: map<Id, Marker>, id: Id)
    ensures id in Apply(known, Delta(t, m, known)) <==> id in View(t, m) || (id in known && LeftOver(t, m, id))
  {
    var r := Delta(t, m, known);
    StoredExpert(known - r.revoked, r.experts, id);
    StoredSolution(StoreExperts(known - r.revoked, r.experts), r.solutions, id);
    KeptIsViewOrLeftOver(t, m, id);
    DeliversKnownToView(t, m, known, id);
  }

  /** The pull leaves exactly the view if and only if no known id is left over. */
  lemma PullIsExact(t: Tenant, m: Member, known: map<Id, Marker>)
    ensures Apply(known, Delta(t, m, known)).Keys == View(t, m) <==> forall id :: id in known ==> !LeftOver(t, m, id)
  {
    forall id
      ensures id in Apply(known, Delta(t, m, known)) <==> id in View(t, m) || (id in known && LeftOver(t, m, id))
    {
      PullMatchesView(t, m, known, id);
    }
    forall id | LeftOver(t, m, id) ensures id !in View(t, m) { }
  }

  /** A tenant in which a grant for experts names a solution that is not applied: the client keeps its id. */
  lemma LeftOverHappens() returns (t: Tenant, m: Member, known: map<Id, Marker>)
    ensures LeftOver(t, m, 7) && 7 in known && 7 !in View(t, m) && 7 in Apply(known, Delta(t, m, known))
  {
    var grant := Grant(Expert, 7, {1}, {});
    t, m := Tenant([], [Instance(7, false, 0)], [grant]), Member(1, {}, false);
    known := map[7 := 0];
    assert grant in t.grants && Reaches(grant, m);
    assert t.instances[0] in t.instances;
    PullMatchesView(t, m, known, 7);
  }

  /** A member of an exempt role never keeps anything beyond the view. */
  lemma ExemptPullIsExact(t: Tenant, m: Member, known: map<Id, Marker>)
    requires m.exempt
    ensures Apply(known, Delta(t, m, known)).Keys == View(t, m)
  {
    forall id ensures id in Apply(known, Delta(t, m, known)) <==> id in View(t, m) { PullMatchesView(t, m, known, id); }
  }

  // ----- the second pull -----

  predicate Authorizes(t: Tenant, m: Member, c: Config) { c in t.configs && c.id in EmployeesFor(t, m) }
  predicate Offers(t: Tenant, m: Member, s: Instance) { s in t.instances && s.applied && s.id in SolutionsFor(t, m) }

  function After(t: Tenant, m: Member, known: map<Id, Marker>): map<Id, Marker> { Apply(known, Delta(t, m, known)) }

  predicate Takes(c: Config, marker: Marker) { marker == c.sync || (!c.hasAvatar && marker == c.plain) }

  /**
   The marker that stays is that of the solution if it is delivered, else that of the employee if it is, else the old
   one.
   */
  lemma SolutionMarkerAfter(t: Tenant, m: Member, known: map<Id, Marker>, s: Instance)
    requires UniqueInstances(t.instances) && Offers(t, m, s) && !Current(s, known)
    ensures s.id in After(t, m, known) && After(t, m, known)[s.id] == s.marker
  {
    var r := Delta(t, m, known);
    PullMatchesView(t, m, known, s.id);
    StoredSolution(StoreExperts(known - r.revoked, r.experts), r.solutions, s.id);
    SolutionsAreThose(t.instances, SolutionsFor(t, m), known, s);
    forall d | d in r.solutions && d.id == s.id
      ensures d == s
    {
      SolutionsAreThose(t.instances, SolutionsFor(t, m), known, d);
    }
  }

  predicate NoneDelivered(t: Tenant, m: Member, known: map<Id, Marker>, id: Id) {
    forall s :: s in t.instances && s.id == id ==> !DeliversSolution(s, SolutionsFor(t, m), known)
  }

  lemma MarkerBeforeSolutions(t: Tenant, m: Member, known: map<Id, Marker>, id: Id)
    requires NoneDelivered(t, m, known, id) && id in View(t, m)
    ensures var r := Delta(t, m, known); var middle := StoreExperts(known - r.revoked, r.experts);
            id in middle && id in After(t, m, known) && After(t, m, known)[id] == middle[id]
  {
    var r := Delta(t, m, known);
    PullMatchesView(t, m, known, id);
    forall s | s in r.solutions ensures s.id != id { SolutionsAreThose(t.instances, SolutionsFor(t, m), known, s); }
    StoredSolution(StoreExperts(known - r.revoked, r.experts), r.solutions, id);
  }

  lemma ExpertMarkerAfter(t: Tenant, m: Member, known: map<Id, Marker>, c: Config)
    requires UniqueConfigs(t.configs) && Authorizes(t, m, c) && NoneDelivered(t, m, known, c.id)
    ensures c.id in After(t, m, known) && After(t, m, known)[c.id] == if Accepts(c, known) then known[c.id] else c.sync
  {
    var r := Delta(t, m, known);
    MarkerBeforeSolutions(t, m, known, c.id);
    StoredExpert(known - r.revoked, r.experts, c.id);
    ExpertsAreThose(t.configs, EmployeesFor(t, m), known, c);
    KeptIsViewOrLeftOver(t, m, c.id);
    forall d | d in r.experts && d.id == c.id
      ensures d == c
    {
      ExpertsAreThose(t.configs, EmployeesFor(t, m), known, d);
    }
  }

  lemma LoneSolutionMarkerAfter(t: Tenant, m: Member, known: map<Id, Marker>, s: Instance)
    requires UniqueInstances(t.instances) && Offers(t, m, s) && Current(s, known)
    requires forall c :: Authorizes(t, m, c) ==> c.id != s.id
    ensures s.id in After(t, m, known) && After(t, m, known)[s.id] == s.marker
  {
    var r := Delta(t, m, known);
    MarkerBeforeSolutions(t, m, known, s.id);
    KeptIsViewOrLeftOver(t, m, s.id);
    forall c | c in r.experts ensures c.id != s.id { ExpertsAreThose(t.configs, EmployeesFor(t, m), known, c); }
    StoredExpert(known - r.revoked, r.experts, s.id);
  }

  /**
   An authorized employee and an authorized solution share an id, and the employee does not take the solution's marker.
   */
  predicate Clash(t: Tenant, m: Member, c: Config, s: Instance) {
    Authorizes(t, m, c) && Offers(t, m, s) && c.id == s.id && !Takes(c, s.marker)
  }

  predicate Consistent(t: Tenant, m: Member) {
    forall c, s :: c in t.configs && s in t.instances ==> !Clash(t, m, c, s)
  }

  lemma SettledExpert(t: Tenant, m: Member, known: map<Id, Marker>, c: Config)
    requires UniqueConfigs(t.configs) && UniqueInstances(t.instances) && Consistent(t, m) && Authorizes(t, m, c)
    ensures Accepts(c, After(t, m, known))
  {
    if s :| s in t.instances && s.id == c.id && DeliversSolution(s, SolutionsFor(t, m), known) {
      SolutionMarkerAfter(t, m, known, s);
      assert !Clash(t, m, c, s);
    } else {
      ExpertMarkerAfter(t, m, known, c);
    }
  }

  lemma SettledSolution(t: Tenant, m: Member, known: map<Id, Marker>, s: Instance)
    requires UniqueConfigs(t.configs) && UniqueInstances(t.instances) && Consistent(t, m) && Offers(t, m, s)
    ensures Current(s, After(t, m, known))
  {
    if !Current(s, known) {
      SolutionMarkerAfter(t, m, known, s);
    } else if c :| c in t.configs && Authorizes(t, m, c) && c.id == s.id {
      assert !Clash(t, m, c, s);
      ExpertMarkerAfter(t, m, known, c);
    } else {
      LoneSolutionMarkerAfter(t, m, known, s);
    }
  }

  lemma ClashUnsettles(t: Tenant, m: Member, known: map<Id, Marker>, c: Config, s: Instance)
    requires UniqueConfigs(t.configs) && UniqueInstances(t.instances) && Clash(t, m, c, s)
    ensures !Accepts(c, After(t, m, known)) || !Current(s, After(t, m, known))
  {
  }

  lemma EmptyOrHasFirst<T>(p: seq<T>)
    ensures p == [] || p[0] in p
  {
  }

  /** A tenant in which an employee and an applied solution share an id: a second pull delivers again. */
  lemma ClashHappens() returns (t: Tenant, m: Member)
    ensures UniqueConfigs(t.configs) && UniqueInstances(t.instances) && !Consistent(t, m)
    ensures forall known :: Delta(t, m, After(t, m, known)) != Response([], [], {})
  {
    var c, s := Config(7, 1, 2, true), Instance(7, true, 3);
    t, m := Tenant([c], [s], []), Member(1, {}, true);
    assert t.configs[0] == c && t.instances[0] == s;
    assert Clash(t, m, c, s);
    forall known ensures Delta(t, m, After(t, m, known)) != Response([], [], {}) { SecondPullIsEmpty(t, m, known); }
  }

  /** Nothing is revoked by a pull right after another, whatever the client held. */
  lemma SecondPullRevokesNothing(t: Tenant, m: Member, known: map<Id, Marker>)
    ensures Delta(t, m, After(t, m, known)).revoked == {}
  {
    forall id | id in After(t, m, known) ensures !Revokes(t, m, id) {
      PullMatchesView(t, m, known, id);
      KeptIsViewOrLeftOver(t, m, id);
    }
  }

  /** A pull right after another delivers nothing if and only if no authorized ids of the two kinds clash. */
  lemma SecondPullIsEmpty(t: Tenant, m: Member, known: map<Id, Marker>)
    requires UniqueConfigs(t.configs) && UniqueInstances(t.instances)
    ensures Delta(t, m, After(t, m, known)) == Response([], [], {}) <==> Consistent(t, m)
  {
    var known' := After(t, m, known);
    var r := Delta(t, m, known');
    SecondPullRevokesNothing(t, m, known);
    if Consistent(t, m) {
      forall c ensures c !in r.experts {
        ExpertsAreThose(t.configs, EmployeesFor(t, m), known', c);
        if Authorizes(t, m, c) { SettledExpert(t, m, known, c); }
      }
      forall s ensures s !in r.solutions {
        SolutionsAreThose(t.instances, SolutionsFor(t, m), known', s);
        if Offers(t, m, s) { SettledSolution(t, m, known, s); }
      }
      EmptyOrHasFirst(r.experts);
      EmptyOrHasFirst(r.solutions);
    } else {
      var c, s :| c in t.configs && s in t.instances && Clash(t, m, c, s);
      ClashUnsettles(t, m, known, c, s);
      ExpertsAreThose(t.configs, EmployeesFor(t, m), known', c);
      SolutionsAreThose(t.instances, SolutionsFor(t, m), known', s);
    }
  }
}

/** The organization tree built from department and employee rows. */
module OrgTree {
  import opened Prelude
  import opened DepartmentForest

  datatype DeptRow = DeptRow(id: Id, parent: Option<Id>)

  datatype EmployeeRow = EmployeeRow(id: Id, departments: seq<Id>)

  datatype Entry = Department(id: Id) | Employee(id: Id) | Unassigned

  /** Child lists of the root, of every department and of the synthetic unassigned node. */
  datatype Tree = Tree(root: seq<Entry>, kids: map<Id, seq<Entry>>, unassigned: seq<Entry>)

  /** Ids are primary keys. */
  predicate DistinctRows(rows: seq<DeptRow>) { forall i, j :: 0 <= i < j < |rows| ==> rows[i].id != rows[j].id }

  predicate DistinctEmployees(emps: seq<EmployeeRow>) {
    forall i, j :: 0 <= i < j < |emps| ==> emps[i].id != emps[j].id
  }

  function Ids(rows: seq<DeptRow>): set<Id> { set i | 0 <= i < |rows| :: rows[i].id }

  /** The parent a row is nested under; rows with a missing parent, or naming themselves, are top-level. */
  function Nest(all: set<Id>, row: DeptRow): Option<Id> {
    if row.parent.Some? && row.parent.value in all && row.parent.value != row.id then row.parent else None
  }

  /** The departments nested directly under `parent`, in row order. */
  function Subs(all: set<Id>, rows: seq<DeptRow>, parent: Option<Id>): seq<Entry> {
    if rows == [] then []
    else
      var n := |rows| - 1;
      Subs(all, rows[..n], parent) + (if Nest(all, rows[n]) == parent then [Department(rows[n].id)] else [])
  }

  function Copies(departments: seq<Id>, d: Id, entry: Entry): seq<Entry> {
    if departments == [] then []
    else
      var n := |departments| - 1;
      Copies(departments[..n], d, entry) + (if departments[n] == d then [entry] else [])
  }

  /** The employees listed in department `d`, once for each listing, in row order. */
  function Staff(emps: seq<EmployeeRow>, d: Id): seq<Entry> {
    if emps == [] then []
    else
      var n := |emps| - 1;
      Staff(emps[..n], d) + Copies(emps[n].departments, d, Employee(emps[n].id))
  }

  predicate Assigned(all: set<Id>, emp: EmployeeRow) {
    exists i :: 0 <= i < |emp.departments| && emp.departments[i] in all
  }

  function StrayEntry(all: set<Id>, emp: EmployeeRow): seq<Entry> {
    if Assigned(all, emp) then [] else [Employee(emp.id)]
  }

  /** The employees without any valid department. */
  function Strays(all: set<Id>, emps: seq<EmployeeRow>): seq<Entry> {
    if emps == [] then []
    else
      var n := |emps| - 1;
      Strays(all, emps[..n]) + StrayEntry(all, emps[n])
  }

  predicate OnlyDepartments(list: seq<Entry>) { forall i :: 0 <= i < |list| ==> list[i].Department? }

  predicate OnlyEmployees(list: seq<Entry>) { forall i :: 0 <= i < |list| ==> list[i].Employee? }

  lemma {:induction false} ListKinds(all: set<Id>, rows: seq<DeptRow>, emps: seq<EmployeeRow>, parent: Option<Id>,
                                     d: Id)
    ensures OnlyDepartments(Subs(all, rows, parent)) && OnlyEmployees(Staff(emps, d))
            && OnlyEmployees(Strays(all, emps))
    decreases |rows| + |emps|
  {
    if rows != [] {
      ListKinds(all, rows[..|rows| - 1], emps, parent, d);
    } else if emps != [] {
      ListKinds(all, rows, emps[..|emps| - 1], parent, d);
      CopiesKind(emps[|emps| - 1].departments, d, Employee(emps[|emps| - 1].id));
    }
  }

  lemma {:induction false} CopiesKind(departments: seq<Id>, d: Id, entry: Entry)
    ensures forall i :: 0 <= i < |Copies(departments, d, entry)| ==> Copies(departments, d, entry)[i] == entry
  {
    if departments != [] { CopiesKind(departments[..|departments| - 1], d, entry); }
  }

  /** Number of leading departments in a list that has departments first. */
  method CountDepartments(list: seq<Entry>, ghost subs: seq<Entry>, ghost staff: seq<Entry>) returns (count: nat)
    requires list == subs + staff && OnlyDepartments(subs) && OnlyEmployees(staff)
    ensures count == |subs|
  {
    count := 0;
    for i := 0 to |list|
      invariant count == if i <= |subs| then i else |subs|
    {
      if list[i].Department? { count := count + 1; }
    }
  }

  /** First pass: an empty child list for every department. */
  method EmptyLists(rows: seq<DeptRow>) returns (kids: map<Id, seq<Entry>>)
    ensures kids.Keys == Ids(rows) && forall d :: d in kids ==> kids[d] == []
  {
    kids := map[];
    for i := 0 to |rows|
      invariant kids.Keys == Ids(rows[..i]) && forall d :: d in kids ==> kids[d] == []
    {
      assert Ids(rows[..i + 1]) == Ids(rows[..i]) + {rows[i].id} by { assert rows[..i + 1] == rows[..i] + [rows[i]]; }
      kids := kids[rows[i].id := []];
    }
    assert rows[..|rows|] == rows;
  }

  lemma CopiesNext(departments: seq<Id>, k: nat, d: Id, entry: Entry)
    requires k < |departments|
    ensures Copies(departments[..k + 1], d, entry) ==
              Copies(departments[..k], d, entry) + if departments[k] == d then [entry] else []
  {
    assert departments[..k + 1][..k] == departments[..k];
  }

  /** Appends one employee to each of its listed departments that exist. */
  method PlaceEmployee(kids: map<Id, seq<Entry>>, emp: EmployeeRow) returns (after: map<Id, seq<Entry>>, placed: bool)
    ensures after.Keys == kids.Keys && placed == Assigned(kids.Keys, emp)
    ensures forall d :: d in kids ==> after[d] == kids[d] + Copies(emp.departments, d, Employee(emp.id))
  {
    after, placed := kids, false;
    for k := 0 to |emp.departments|
      invariant Appended(kids, emp.departments[..k], Employee(emp.id), after)
      invariant placed == exists j :: 0 <= j < k && emp.departments[j] in kids
    {
      var d := emp.departments[k];
      AppendedNext(kids, emp.departments, k, Employee(emp.id), after);
      if d in kids {
        after := after[d := after[d] + [Employee(emp.id)]];
        placed := true;
      }
    }
    assert emp.departments[..|emp.departments|] == emp.departments;
  }

  /** The lists after the entry was appended once for every listed department. */
  predicate Appended(kids: map<Id, seq<Entry>>, departments: seq<Id>, entry: Entry, after: map<Id, seq<Entry>>) {
    after.Keys == kids.Keys && forall d :: d in kids ==> after[d] == kids[d] + Copies(departments, d, entry)
  }

  /** One more listed department appends the entry to its list, if it has one. */
  lemma AppendedNext(kids: map<Id, seq<Entry>>, departments: seq<Id>, k: nat, entry: Entry, after: map<Id, seq<Entry>>)
    requires k < |departments| && Appended(kids, departments[..k], entry, after)
    ensures var d := departments[k];
            Appended(kids, departments[..k + 1], entry, if d in after then after[d := after[d] + [entry]] else after)
  {
    var d := departments[k];
    var next := if d in after then after[d := after[d] + [entry]] else after;
    forall x | x in kids ensures next[x] == kids[x] + Copies(departments[..k + 1], x, entry) {
      CopiesNext(departments, k, x, entry);
      AppendOne(kids[x], Copies(departments[..k], x, entry), entry);
    }
  }

  lemma AppendOne(a: seq<Entry>, b: seq<Entry>, entry: Entry)
    ensures a + b + [entry] == a + (b + [entry]) && a + (b + []) == a + b
  {
  }

  /** Second pass: employees under their departments, the others aside. */
  method PlaceEmployees(empty: map<Id, seq<Entry>>, emps: seq<EmployeeRow>)
    returns (kids: map<Id, seq<Entry>>, unassigned: seq<Entry>)
    requires forall d :: d in empty ==> empty[d] == []
    ensures kids.Keys == empty.Keys && unassigned == Strays(empty.Keys, emps)
    ensures forall d :: d in kids ==> kids[d] == Staff(emps, d)
  {
    kids, unassigned := empty, [];
    for i := 0 to |emps|
      invariant unassigned == Strays(empty.Keys, emps[..i])
      invariant Staffed(empty.Keys, emps[..i], kids)
    {
      ghost var before := kids;
      var placed;
      kids, placed := PlaceEmployee(kids, emps[i]);
      StaffedNext(empty.Keys, emps, i, before, kids);
      StraysNext(empty.Keys, emps, i);
      if !placed { unassigned := unassigned + [Employee(emps[i].id)]; }
    }
    assert emps[..|emps|] == emps;
  }

  /** Every department lists its staff among these employees. */
  predicate Staffed(all: set<Id>, emps: seq<EmployeeRow>, kids: map<Id, seq<Entry>>) {
    kids.Keys == all && forall d :: d in kids ==> kids[d] == Staff(emps, d)
  }

  lemma StaffedNext(all: set<Id>, emps: seq<EmployeeRow>, i: nat, before: map<Id, seq<Entry>>, kids: map<Id,
                    seq<Entry>>)
    requires i < |emps| && Staffed(all, emps[..i], before) && kids.Keys == before.Keys
    requires forall d :: d in before ==>
               kids[d] == before[d] + Copies(emps[i].departments, d, Employee(emps[i].id))
    ensures Staffed(all, emps[..i + 1], kids)
  {
    assert emps[..i + 1][..i] == emps[..i];
  }

  lemma StraysNext(all: set<Id>, emps: seq<EmployeeRow>, i: nat)
    requires i < |emps|
    ensures Strays(all, emps[..i + 1]) == Strays(all, emps[..i]) + StrayEntry(all, emps[i])
  {
    assert emps[..i + 1][..i] == emps[..i];
  }

  /** Inserts a department behind the departments and before the employees. */
  method InsertDepartment(list: seq<Entry>, id: Id, ghost subs: seq<Entry>, ghost staff: seq<Entry>)
    returns (after: seq<Entry>)
    requires list == subs + staff && OnlyDepartments(subs) && OnlyEmployees(staff)
    ensures after == subs + [Department(id)] + staff
  {
    var count := CountDepartments(list, subs, staff);
    assert list[..count] == subs && list[count..] == staff;
    after := list[..count] + [Department(id)] + list[count..];
  }

  /** Third pass: every department into the list of its parent, or of the root. */
  method NestDepartments(staffed: map<Id, seq<Entry>>, rows: seq<DeptRow>, ghost emps: seq<EmployeeRow>)
    returns (kids: map<Id, seq<Entry>>, root: seq<Entry>)
    requires forall d :: d in staffed ==> staffed[d] == Staff(emps, d)
    ensures kids.Keys == staffed.Keys && root == Subs(staffed.Keys, rows, None)
    ensures forall d :: d in kids ==> kids[d] == Subs(staffed.Keys, rows, Some(d)) + Staff(emps, d)
  {
    kids, root := staffed, [];
    for i := 0 to |rows|
      invariant kids.Keys == staffed.Keys && root == Subs(staffed.Keys, rows[..i], None)
      invariant forall d :: d in kids ==> kids[d] == Subs(staffed.Keys, rows[..i], Some(d)) + Staff(emps, d)
    {
      var row := rows[i];
      assert rows[..i + 1][..i] == rows[..i];
      if row.parent.None? || row.parent.value !in kids || row.parent.value == row.id {
        root := root + [Department(row.id)];
      } else {
        var y := row.parent.value;
        ListKinds(staffed.Keys, rows[..i], emps, Some(y), y);
        var list := InsertDepartment(kids[y], row.id, Subs(staffed.Keys, rows[..i], Some(y)), Staff(emps, y));
        kids := kids[y := list];
      }
    }
    assert rows[..|rows|] == rows;
  }

  /** build_tree: fills the child lists in three passes. */
  method BuildTree(rows: seq<DeptRow>, emps: seq<EmployeeRow>) returns (tree: Tree)
    ensures BuiltFrom(tree, rows, emps)
  {
    var kids := EmptyLists(rows);
    var unassigned;
    kids, unassigned := PlaceEmployees(kids, emps);
    var root;
    kids, root := NestDepartments(kids, rows, emps);
    if unassigned != [] { root := root + [Unassigned]; }
    tree := Tree(root, kids, unassigned);
  }

  // ----- positions in the tree -----

  /** The tree that BuildTree returns. */
  ghost predicate BuiltFrom(tree: Tree, rows: seq<DeptRow>, emps: seq<EmployeeRow>) {
    && tree.kids.Keys == Ids(rows)
    && (forall d :: d in tree.kids ==> tree.kids[d] == Subs(Ids(rows), rows, Some(d)) + Staff(emps, d))
    && tree.unassigned == Strays(Ids(rows), emps)
    && tree.root == Subs(Ids(rows), rows, None) + (if tree.unassigned == [] then [] else [Unassigned])
  }

  function Below(tree: Tree, entry: Entry): seq<Entry> {
    match entry
    case Department(d) => if d in tree.kids then tree.kids[d] else []
    case Employee(_) => []
    case Unassigned => tree.unassigned
  }

  /** The list that holds the last step of a path. */
  function ListAt(tree: Tree, path: seq<nat>): Option<seq<Entry>>
    decreases |path|, 1
  {
    if path == [] then Some(tree.root)
    else
      var entry := EntryAt(tree, path);
      if entry.None? then None else Some(Below(tree, entry.value))
  }

  /** The entry reached from the root by child indices. */
  function EntryAt(tree: Tree, path: seq<nat>): Option<Entry>
    requires path != []
    decreases |path|, 0
  {
    var n := |path| - 1;
    var list := ListAt(tree, path[..n]);
    if list.Some? && path[n] < |list.value| then Some(list.value[path[n]]) else None
  }

  // ----- every department exactly once -----

  /** A department occurs in the list of the parent it is nested under and nowhere else. */
  lemma {:induction false} SubsHold(all: set<Id>, rows: seq<DeptRow>, parent: Option<Id>, entry: Entry)
    ensures entry in Subs(all, rows, parent) <==>
              exists i :: 0 <= i < |rows| && entry == Department(rows[i].id) && Nest(all, rows[i]) == parent
  {
    if rows != [] {
      var n := |rows| - 1;
      SubsHold(all, rows[..n], parent, entry);
      if entry in Subs(all, rows[..n], parent) {
        var i :| 0 <= i < n && entry == Department(rows[..n][i].id) && Nest(all, rows[..n][i]) == parent;
        assert rows[i] == rows[..n][i];
      }
      if i :| 0 <= i < |rows| && entry == Department(rows[i].id) && Nest(all, rows[i]) == parent {
        if i < n { assert rows[..n][i] == rows[i]; }
      }
    }
  }

  /** Within a list a department occurs at one index only. */
  lemma {:induction false} SubsDistinct(all: set<Id>, rows: seq<DeptRow>, parent: Option<Id>, i: nat, j: nat)
    requires DistinctRows(rows) && i < j < |Subs(all, rows, parent)|
    ensures Subs(all, rows, parent)[i] != Subs(all, rows, parent)[j]
  {
    var n := |rows| - 1;
    var before := Subs(all, rows[..n], parent);
    if j < |before| {
      SubsDistinct(all, rows[..n], parent, i, j);
    } else {
      SubsHold(all, rows[..n], parent, before[i]);
      assert before[i] in before;
      var k :| 0 <= k < n && before[i] == Department(rows[..n][k].id) && Nest(all, rows[..n][k]) == parent;
      assert rows[k].id != rows[n].id;
    }
  }

  /** The parent map that the rows store. */
  predicate Stores(rows: seq<DeptRow>, p: Parents) {
    && DistinctRows(rows) && Ids(rows) == p.Keys
    && forall i :: 0 <= i < |rows| ==> rows[i].id in p && p[rows[i].id] == rows[i].parent
  }

  function ListOf(tree: Tree, parent: Option<Id>): seq<Entry> {
    if parent.None? then tree.root else Below(tree, Department(parent.value))
  }

  /** The only occurrence of the department in any list is at index `k` of the list of `parent`. */
  ghost predicate OnlyAt(tree: Tree, d: Id, parent: Option<Id>, k: nat) {
    && k < |ListOf(tree, parent)| && ListOf(tree, parent)[k] == Department(d)
    && (forall q: Option<Id>, i :: 0 <= i < |ListOf(tree, q)| && ListOf(tree, q)[i] == Department(d) ==>
        q == parent && i == k)
    && Department(d) !in tree.unassigned
  }

  /** In a valid hierarchy a department sits in the list of its stored parent, at one index, and in no other list. */
  lemma OneListOneIndex(tree: Tree, rows: seq<DeptRow>, emps: seq<EmployeeRow>, p: Parents, f: map<Id, int>, d: Id)
    returns (k: nat)
    requires BuiltFrom(tree, rows, emps) && Stores(rows, p) && Labelled(p, f) && d in p
    ensures OnlyAt(tree, d, p[d], k)
  {
    LabelsMakeForest(p, f);
    k := PlaceInSubs(rows, p, d);
    SubsStartList(tree, rows, emps, p, d);
    forall q: Option<Id>, i | 0 <= i < |ListOf(tree, q)| && ListOf(tree, q)[i] == Department(d)
      ensures q == p[d] && i == k
    {
      InSubs(tree, rows, emps, q, i);
      NowhereElse(rows, p, d, q, i, k);
    }
    StraysHoldNoDepartment(tree, rows, emps, d);
  }

  /** A stored department is among the sub-departments of its stored parent. */
  lemma PlaceInSubs(rows: seq<DeptRow>, p: Parents, d: Id) returns (k: nat)
    requires Stores(rows, p) && Closed(p) && Acyclic(p) && d in p
    ensures k < |Subs(Ids(rows), rows, p[d])| && Subs(Ids(rows), rows, p[d])[k] == Department(d)
  {
    var all := Ids(rows);
    var r :| 0 <= r < |rows| && rows[r].id == d;
    NestIsParent(rows, p, d, r);
    SubsHold(all, rows, p[d], Department(d));
    var subs := Subs(all, rows, p[d]);
    k :| 0 <= k < |subs| && subs[k] == Department(d);
  }

  lemma NestIsParent(rows: seq<DeptRow>, p: Parents, d: Id, r: nat)
    requires Stores(rows, p) && Closed(p) && Acyclic(p) && d in p && r < |rows| && rows[r].id == d
    ensures Nest(Ids(rows), rows[r]) == p[d]
  {
    assert Anc(p, d, 1) != Some(d);
  }

  lemma SubsStartList(tree: Tree, rows: seq<DeptRow>, emps: seq<EmployeeRow>, p: Parents, d: Id)
    requires BuiltFrom(tree, rows, emps) && Stores(rows, p) && Closed(p) && d in p
    ensures Subs(Ids(rows), rows, p[d]) <= ListOf(tree, p[d])
  {
  }

  lemma StraysHoldNoDepartment(tree: Tree, rows: seq<DeptRow>, emps: seq<EmployeeRow>, d: Id)
    requires BuiltFrom(tree, rows, emps)
    ensures Department(d) !in tree.unassigned
  {
    ListKinds(Ids(rows), rows, emps, None, d);
  }

  lemma NowhereElse(rows: seq<DeptRow>, p: Parents, d: Id, q: Option<Id>, i: nat, k: nat)
    requires Stores(rows, p) && Closed(p) && Acyclic(p) && d in p
    requires i < |Subs(Ids(rows), rows, q)| && Subs(Ids(rows), rows, q)[i] == Department(d)
    requires k < |Subs(Ids(rows), rows, p[d])| && Subs(Ids(rows), rows, p[d])[k] == Department(d)
    ensures q == p[d] && i == k
  {
    var all := Ids(rows);
    SubsHold(all, rows, q, Department(d));
    SubsHold(all, rows, p[d], Department(d));
    var r :| 0 <= r < |rows| && rows[r].id == d && Nest(all, rows[r]) == q;
    if i < k { SubsDistinct(all, rows, q, i, k); } else if k < i { SubsDistinct(all, rows, q, k, i); }
  }

  /** A department found in a child list lies in its leading part. */
  lemma InSubs(tree: Tree, rows: seq<DeptRow>, emps: seq<EmployeeRow>, q: Option<Id>, i: nat)
    requires BuiltFrom(tree, rows, emps) && i < |ListOf(tree, q)| && ListOf(tree, q)[i].Department?
    ensures i < |Subs(Ids(rows), rows, q)| && ListOf(tree, q)[i] == Subs(Ids(rows), rows, q)[i]
  {
    if q.Some? { ListKinds(Ids(rows), rows, emps, q, q.value); }
  }

  /** A path to a department ends at its index in the list of its parent, behind a path to that parent. */
  lemma LastStep(tree: Tree, d: Id, parent: Option<Id>, k: nat, path: seq<nat>)
    requires OnlyAt(tree, d, parent, k) && path != [] && EntryAt(tree, path) == Some(Department(d))
    ensures path[|path| - 1] == k
    ensures parent.None? ==> |path| == 1
    ensures parent.Some? ==> |path| > 1 && EntryAt(tree, path[..|path| - 1]) == Some(Department(parent.value))
  {
    var n := |path| - 1;
    if n == 0 {
      assert path[..n] == [] && ListOf(tree, None) == tree.root;
    } else {
      var above := EntryAt(tree, path[..n]).value;
      if above.Department? { assert ListOf(tree, Some(above.id)) == Below(tree, above); }
    }
  }

  ghost predicate OnlyPath(tree: Tree, d: Id, path: seq<nat>) {
    && path != [] && EntryAt(tree, path) == Some(Department(d))
    && forall other :: other != [] && EntryAt(tree, other) == Some(Department(d)) ==> other == path
  }

  lemma TopPath(tree: Tree, d: Id, k: nat)
    requires OnlyAt(tree, d, None, k)
    ensures OnlyPath(tree, d, [k])
  {
    assert [k][..0] == [];
    forall other | other != [] && EntryAt(tree, other) == Some(Department(d)) ensures other == [k] {
      LastStep(tree, d, None, k, other);
    }
  }

  lemma NestedPath(tree: Tree, d: Id, y: Id, k: nat, above: seq<nat>)
    requires OnlyAt(tree, d, Some(y), k) && OnlyPath(tree, y, above)
    ensures OnlyPath(tree, d, above + [k])
  {
    var path := above + [k];
    assert path[..|path| - 1] == above;
    forall other | other != [] && EntryAt(tree, other) == Some(Department(d)) ensures other == path {
      LastStep(tree, d, Some(y), k, other);
      assert other == other[..|other| - 1] + [k];
    }
  }

  lemma {:induction false} LabelledOnce(tree: Tree, rows: seq<DeptRow>, emps: seq<EmployeeRow>, p: Parents,
                                        f: map<Id, int>, d: Id)
    returns (path: seq<nat>)
    requires BuiltFrom(tree, rows, emps) && Stores(rows, p) && Labelled(p, f) && d in p
    ensures OnlyPath(tree, d, path)
    decreases f[d]
  {
    var k := OneListOneIndex(tree, rows, emps, p, f, d);
    if p[d].None? {
      path := [k];
      TopPath(tree, d, k);
    } else {
      var above := LabelledOnce(tree, rows, emps, p, f, p[d].value);
      path := above + [k];
      NestedPath(tree, d, p[d].value, k, above);
    }
  }

  /** Every department of a valid hierarchy has exactly one position in the tree. */
  lemma DepartmentOnce(tree: Tree, rows: seq<DeptRow>, emps: seq<EmployeeRow>, p: Parents, d: Id)
    returns (path: seq<nat>)
    requires BuiltFrom(tree, rows, emps) && Stores(rows, p) && Forest(p) && d in p
    ensures path != [] && EntryAt(tree, path) == Some(Department(d))
    ensures forall other :: other != [] && EntryAt(tree, other) == Some(Department(d)) ==> other == path
  {
    ForestHasLabels(p);
    path := LabelledOnce(tree, rows, emps, p, DepthMap(p), d);
  }

  // ----- children in order, employees where they belong -----

  /** In every child list all departments come before all employees. */
  lemma DepartmentsComeFirst(tree: Tree, rows: seq<DeptRow>, emps: seq<EmployeeRow>, d: Id, i: nat, j: nat)
    requires BuiltFrom(tree, rows, emps) && d in tree.kids && i < j < |tree.kids[d]| && tree.kids[d][j].Department?
    ensures tree.kids[d][i].Department?
  {
    ListKinds(Ids(rows), rows, emps, Some(d), d);
  }

  function Count(list: seq<Entry>, entry: Entry): nat { multiset(list)[entry] }

  lemma {:induction false} CopiesCount(departments: seq<Id>, d: Id, entry: Entry, other: Entry)
    ensures Count(Copies(departments, d, entry), other) == if other == entry then multiset(departments)[d] else 0
  {
    if departments != [] {
      var n := |departments| - 1;
      CopiesCount(departments[..n], d, entry, other);
      LastListing(departments, d);
      CountAppend(Copies(departments[..n], d, entry), if departments[n] == d then [entry] else [], other);
      CopiesLast(departments, d, entry);
    }
  }

  lemma LastListing(departments: seq<Id>, d: Id)
    requires departments != []
    ensures var n := |departments| - 1;
            multiset(departments)[d] == multiset(departments[..n])[d] + if departments[n] == d then 1 else 0
  {
    var n := |departments| - 1;
    assert departments == departments[..n] + [departments[n]];
  }

  lemma CopiesLast(departments: seq<Id>, d: Id, entry: Entry)
    requires departments != []
    ensures var n := |departments| - 1;
            Copies(departments, d, entry) ==
              Copies(departments[..n], d, entry) + if departments[n] == d then [entry] else []
  {
  }

  lemma CountAppend(a: seq<Entry>, b: seq<Entry>, entry: Entry)
    ensures Count(a + b, entry) == Count(a, entry) + Count(b, entry)
  {
  }

  /** The last row adds its own listings of the department, and nothing for other employees. */
  lemma StaffLast(emps: seq<EmployeeRow>, d: Id, id: Id)
    requires emps != []
    ensures var n := |emps| - 1;
            Count(Staff(emps, d), Employee(id)) ==
              Count(Staff(emps[..n], d), Employee(id))
              + (if emps[n].id == id then multiset(emps[n].departments)[d] else 0)
  {
    var n := |emps| - 1;
    CopiesCount(emps[n].departments, d, Employee(emps[n].id), Employee(id));
    CountAppend(Staff(emps[..n], d), Copies(emps[n].departments, d, Employee(emps[n].id)), Employee(id));
  }

  lemma {:induction false} StaffAbsent(emps: seq<EmployeeRow>, d: Id, id: Id)
    requires forall i :: 0 <= i < |emps| ==> emps[i].id != id
    ensures Count(Staff(emps, d), Employee(id)) == 0
  {
    if emps != [] {
      var n := |emps| - 1;
      StaffAbsent(emps[..n], d, id);
      StaffLast(emps, d, id);
    }
  }

  lemma {:induction false} StaffCount(emps: seq<EmployeeRow>, d: Id, i: nat)
    requires DistinctEmployees(emps) && i < |emps|
    ensures Count(Staff(emps, d), Employee(emps[i].id)) == multiset(emps[i].departments)[d]
  {
    var n := |emps| - 1;
    StaffLast(emps, d, emps[i].id);
    if i < n {
      assert emps[..n][i] == emps[i];
      StaffCount(emps[..n], d, i);
    } else {
      StaffAbsent(emps[..n], d, emps[n].id);
    }
  }

  lemma {:induction false} StraysAbsent(all: set<Id>, emps: seq<EmployeeRow>, id: Id)
    requires forall i :: 0 <= i < |emps| ==> emps[i].id != id
    ensures Count(Strays(all, emps), Employee(id)) == 0
  {
    if emps != [] {
      var n := |emps| - 1;
      StraysAbsent(all, emps[..n], id);
      CountAppend(Strays(all, emps[..n]), StrayEntry(all, emps[n]), Employee(id));
    }
  }

  lemma {:induction false} StraysCount(all: set<Id>, emps: seq<EmployeeRow>, i: nat)
    requires DistinctEmployees(emps) && i < |emps|
    ensures Count(Strays(all, emps), Employee(emps[i].id)) == |StrayEntry(all, emps[i])|
  {
    var n, entry := |emps| - 1, Employee(emps[i].id);
    CountAppend(Strays(all, emps[..n]), StrayEntry(all, emps[n]), entry);
    if i < n {
      assert emps[..n][i] == emps[i];
      StraysCount(all, emps[..n], i);
      assert Count(StrayEntry(all, emps[n]), entry) == 0;
    } else {
      StraysAbsent(all, emps[..n], emps[n].id);
      assert Count(StrayEntry(all, emps[n]), entry) == |StrayEntry(all, emps[n])|;
    }
  }

  /** An employee stands under each valid department once per listing, and once under unassigned when it has none. */
  lemma EmployeePlacement(tree: Tree, rows: seq<DeptRow>, emps: seq<EmployeeRow>, d: Id, i: nat)
    requires BuiltFrom(tree, rows, emps) && DistinctEmployees(emps) && i < |emps| && d in tree.kids
    ensures Count(tree.kids[d], Employee(emps[i].id)) == multiset(emps[i].departments)[d]
    ensures Count(tree.unassigned, Employee(emps[i].id)) == if Assigned(Ids(rows), emps[i]) then 0 else 1
    ensures Count(tree.root, Employee(emps[i].id)) == 0
  {
    var all, id := Ids(rows), emps[i].id;
    StaffCount(emps, d, i);
    StraysCount(all, emps, i);
    SubsHoldNoEmployee(all, rows, Some(d), id);
    SubsHoldNoEmployee(all, rows, None, id);
    CountAppend(Subs(all, rows, Some(d)), Staff(emps, d), Employee(id));
  }

  lemma SubsHoldNoEmployee(all: set<Id>, rows: seq<DeptRow>, parent: Option<Id>, id: Id)
    ensures Count(Subs(all, rows, parent), Employee(id)) == 0
  {
    ListKinds(all, rows, [], parent, id);
    assert Employee(id) !in Subs(all, rows, parent);
  }
}

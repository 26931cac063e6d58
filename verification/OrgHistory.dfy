/** The organisation tree after any history of accepted changes to the hierarchy. */
module OrgHistory {
  import opened Prelude
  import opened DepartmentForest
  import opened DepartmentMoves
  import opened DepartmentChecks
  import opened OrgTree

  datatype Edit =
    | NewDepartment(id: Id, parent: Option<Id>)
    | MoveBelow(id: Id, parent: Option<Id>)
    | PromoteAbove(d: Id, c: Id)
    | Remove(d: Id)

  /** What the checks compute: the depth of the target plus a height, against the limit. */
  ghost predicate Fits(q: Parents, target: Option<Id>, root: Id) {
    exists h: nat :: IsHeight(q, root, h) && (if target.None? then 0 else Depth(q, target.value)) + h <= MAX_DEPTH
  }

  ghost predicate Accepted(p: Parents, e: Edit) {
    match e
    case NewDepartment(id, parent) =>
      id !in p && (parent.Some? ==> parent.value in p && Depth(p, parent.value) + 1 <= MAX_DEPTH)
    case MoveBelow(id, parent) =>
      id in p && (parent.Some? ==> parent.value in p && id !in Walk(p, parent, {}) && Fits(p, parent, id))
    case PromoteAbove(d, c) => d in p && c in p && d in Walk(p, p[c], {}) && Fits(Promote(p, d, c), p[d], c)
    case Remove(d) => d in p
  }

  ghost function Edited(p: Parents, e: Edit): Parents {
    if !Accepted(p, e) then p
    else
      match e
      case NewDepartment(id, parent) => p[id := parent]
      case MoveBelow(id, parent) => p[id := parent]
      case PromoteAbove(d, c) => Promote(p, d, c)
      case Remove(d) => Deleted(p, d)
  }

  lemma MoveKeepsForest(p: Parents, id: Id, parent: Option<Id>)
    requires Forest(p) && Accepted(p, MoveBelow(id, parent))
    ensures Forest(p[id := parent])
  {
    if parent.None? {
      MoveToTopIsValid(p, id);
    } else {
      var h: nat :| IsHeight(p, id, h) && Depth(p, parent.value) + h <= MAX_DEPTH;
      MoveIsExact(p, id, parent.value, h);
    }
  }

  lemma PromoteKeepsForest(p: Parents, d: Id, c: Id)
    requires Forest(p) && Accepted(p, PromoteAbove(d, c))
    ensures Forest(Promote(p, d, c))
  {
    var q := Promote(p, d, c);
    var h: nat :| IsHeight(q, c, h) && (if p[d].None? then 0 else Depth(q, p[d].value)) + h <= MAX_DEPTH;
    ProperAncestor(p, d, c);
    PromoteIsExact(p, d, c, h);
    if p[d].None? {
      ForestHasLabels(p);
      assert DepthMap(p)[d] == 1;
    }
  }

  lemma EditKeepsForest(p: Parents, e: Edit)
    requires Forest(p)
    ensures Forest(Edited(p, e))
  {
    if Accepted(p, e) {
      match e
      case NewDepartment(id, parent) => CreateIsExact(p, id, parent);
      case MoveBelow(id, parent) => MoveKeepsForest(p, id, parent);
      case PromoteAbove(d, c) => PromoteKeepsForest(p, d, c);
      case Remove(d) => DeleteKeepsForest(p, d);
    }
  }

  ghost function History(edits: seq<Edit>): Parents {
    if edits == [] then map[] else Edited(History(edits[..|edits| - 1]), edits[|edits| - 1])
  }

  lemma {:induction false} HistoryIsForest(edits: seq<Edit>)
    ensures Forest(History(edits))
  {
    if edits != [] {
      HistoryIsForest(edits[..|edits| - 1]);
      EditKeepsForest(History(edits[..|edits| - 1]), edits[|edits| - 1]);
    }
  }

  /** After any history, the tree built from the stored rows holds every department at exactly one position. */
  lemma EveryDepartmentOnce(edits: seq<Edit>, tree: Tree, rows: seq<DeptRow>, emps: seq<EmployeeRow>, d: Id)
    returns (path: seq<nat>)
    requires Stores(rows, History(edits)) && BuiltFrom(tree, rows, emps) && d in History(edits)
    ensures path != [] && EntryAt(tree, path) == Some(Department(d))
    ensures forall other :: other != [] && EntryAt(tree, other) == Some(Department(d)) ==> other == path
  {
    HistoryIsForest(edits);
    path := DepartmentOnce(tree, rows, emps, History(edits), d);
  }
}

/** The hierarchy checks as the loops that run them, and what any sequence of accepted changes keeps. */
module DepartmentChecks {
  import opened Prelude
  import opened DepartmentForest
  import opened DepartmentMoves

  /** One walk up the chain, as the three loops of the source do it: is `target` met on the way from `start`? */
  method Meets(p: Parents, start: Option<Id>, target: Id) returns (met: bool)
    ensures met <==> target in Walk(p, start, {})
  {
    var current, seen: set<Id> := start, {};
    while current.Some? && current.value !in seen
      invariant target in Walk(p, start, {}) <==> target in Walk(p, current, seen)
      decreases p.Keys - seen, if current.Some? then 1 else 0
    {
      if current.value == target { return true; }
      ghost var here := current.value;
      assert Walk(p, current, seen) == if here in p then [here] + Walk(p, p[here], seen + {here}) else [here];
      seen := seen + {current.value};
      current := Up(p, current.value);
      if here in p { assert here in p.Keys; }
    }
    met := false;
  }

  /** `_depth`: terminates on every map, cyclic ones included. */
  method DepthOf(p: Parents, d: Id) returns (depth: nat)
    ensures depth == Depth(p, d)
  {
    var current, seen: set<Id> := Some(d), {};
    depth := 0;
    while current.Some? && current.value !in seen
      invariant depth + |Walk(p, current, seen)| == Depth(p, d)
      decreases p.Keys - seen, if current.Some? then 1 else 0
    {
      ghost var here := current.value;
      assert Walk(p, current, seen) == if here in p then [here] + Walk(p, p[here], seen + {here}) else [here];
      seen := seen + {current.value};
      depth := depth + 1;
      current := Up(p, current.value);
    }
  }

  ghost predicate ChildrenOk(p: Parents, children: map<Id, seq<Id>>) {
    && (forall y :: y in children ==> forall c :: c in children[y] <==> c in p && p[c] == Some(y))
    && (forall c :: c in p && p[c].Some? ==> p[c].value in children)
  }

  function ChildrenOf(children: map<Id, seq<Id>>, y: Id): seq<Id> { if y in children then children[y] else [] }

  lemma ChildrenAreExact(p: Parents, children: map<Id, seq<Id>>, y: Id)
    requires ChildrenOk(p, children)
    ensures AreChildren(p, y, ChildrenOf(children, y))
  {
  }

  /** The children of each parent, in some order. */
  method ChildLists(p: Parents) returns (children: map<Id, seq<Id>>)
    ensures ChildrenOk(p, children)
  {
    children := map[];
    var pending := p.Keys;
    while pending != {}
      invariant pending <= p.Keys
      invariant forall y :: y in children ==> forall c :: c in children[y] <==>
                c in p && c !in pending && p[c] == Some(y)
      invariant forall c :: c in p && c !in pending && p[c].Some? ==> p[c].value in children
    {
      var child :| child in pending;
      if p[child].Some? {
        var parent := p[child].value;
        children := children[parent := (if parent in children then children[parent] else []) + [child]];
      }
      pending := pending - {child};
    }
  }

  /** Every entry of the stack is below `d`, at the level it carries. */
  ghost predicate StackOk(p: Parents, d: Id, stack: seq<(Id, nat)>) {
    forall i :: 0 <= i < |stack| ==>
      stack[i].0 in p.Keys + {d} && stack[i].1 >= 1 && Anc(p, stack[i].0, stack[i].1 - 1) == Some(d)
  }

  predicate OnStack(stack: seq<(Id, nat)>, x: Id) { exists i :: 0 <= i < |stack| && stack[i].0 == x }

  /** Nothing below a visited node is forgotten. */
  ghost predicate Pending(p: Parents, d: Id, seen: set<Id>, stack: seq<(Id, nat)>) {
    && (d in seen || OnStack(stack, d))
    && forall c :: c in p && p[c].Some? && p[c].value in seen ==> c in seen || OnStack(stack, c)
  }

  function Levels(children: seq<Id>, level: nat): seq<(Id, nat)> {
    seq(|children|, i requires 0 <= i < |children| => (children[i], level))
  }

  /** Every visited node is below `d` at its recorded level, and `deepest` is a visited node at the level `best`. */
  ghost predicate VisitedOk(p: Parents, d: Id, levels: map<Id, nat>, best: nat, deepest: Id) {
    && levels.Keys <= p.Keys + {d}
    && (forall x :: x in levels ==> 1 <= levels[x] <= best && Anc(p, x, levels[x] - 1) == Some(d))
    && (if levels == map[] then best == 0 else deepest in levels && levels[deepest] == best)
  }

  /** The state of the search between two iterations. */
  ghost predicate SearchOk(p: Parents, d: Id, levels: map<Id, nat>, best: nat, deepest: Id, stack: seq<(Id, nat)>) {
    VisitedOk(p, d, levels, best, deepest) && StackOk(p, d, stack) && Pending(p, d, levels.Keys, stack)
  }

  /** `_height` by depth-first search: the true subtree height on an acyclic map, and termination on every map. */
  method HeightOf(p: Parents, d: Id) returns (best: nat)
    ensures Closed(p) && Acyclic(p) && d in p ==> IsHeight(p, d, best)
  {
    var children := ChildLists(p);
    var stack: seq<(Id, nat)> := [(d, 1)];
    var seen: set<Id> := {};
    best := 0;
    ghost var levels: map<Id, nat> := map[];
    ghost var deepest := d;
    assert OnStack(stack, d) by { assert stack[0].0 == d; }
    while stack != []
      invariant levels.Keys == seen && SearchOk(p, d, levels, best, deepest, stack)
      decreases (p.Keys + {d}) - seen, |stack|
    {
      var (node, level) := stack[|stack| - 1];
      if node in seen {
        RevisitKeeps(p, d, levels, best, deepest, stack);
        stack := stack[..|stack| - 1];
      } else {
        var next := ChildrenOf(children, node);
        ChildrenAreExact(p, children, node);
        VisitKeepsSearch(p, d, levels, best, deepest, stack, node, level, next);
        stack := stack[..|stack| - 1] + Levels(next, level + 1);
        seen := seen + {node};
        levels := levels[node := level];
        deepest := if best >= level then deepest else node;
        best := if best >= level then best else level;
      }
    }
    SeenAllBelow(p, d, levels, best, deepest);
  }

  lemma PopKeepsStack(p: Parents, d: Id, stack: seq<(Id, nat)>)
    requires StackOk(p, d, stack) && stack != []
    ensures StackOk(p, d, stack[..|stack| - 1])
  {
  }

  lemma RevisitKeeps(p: Parents, d: Id, levels: map<Id, nat>, best: nat, deepest: Id, stack: seq<(Id, nat)>)
    requires SearchOk(p, d, levels, best, deepest, stack) && stack != [] && stack[|stack| - 1].0 in levels
    ensures SearchOk(p, d, levels, best, deepest, stack[..|stack| - 1])
  {
    PopKeepsStack(p, d, stack);
    PopKeepsPending(p, d, stack, stack[..|stack| - 1], stack[|stack| - 1].0, levels.Keys);
  }

  lemma TopOfStack(p: Parents, d: Id, stack: seq<(Id, nat)>, node: Id, level: nat)
    requires StackOk(p, d, stack) && stack != [] && stack[|stack| - 1] == (node, level)
    ensures node in p.Keys + {d} && level >= 1 && Anc(p, node, level - 1) == Some(d)
            && StackOk(p, d, stack[..|stack| - 1])
  {
  }

  predicate AreChildren(p: Parents, node: Id, next: seq<Id>) {
    (forall c :: c in next ==> c in p && p[c] == Some(node)) && (forall c :: c in p && p[c] == Some(node) ==> c in next)
  }

  lemma VisitKeepsVisited(p: Parents, d: Id, levels: map<Id, nat>, best: nat, deepest: Id, stack: seq<(Id, nat)>,
                          node: Id, level: nat)
    requires VisitedOk(p, d, levels, best, deepest) && StackOk(p, d, stack)
    requires stack != [] && stack[|stack| - 1] == (node, level) && node !in levels
    ensures node in p.Keys + {d}
    ensures VisitedOk(p, d, levels[node := level], if best >= level then best else level, if best >= level then deepest
                      else node)
  {
    TopOfStack(p, d, stack, node, level);
    VisitKeeps(p, d, levels, best, deepest, node, level);
  }

  lemma VisitKeepsStack(p: Parents, d: Id, stack: seq<(Id, nat)>, node: Id, level: nat, next: seq<Id>)
    requires StackOk(p, d, stack) && stack != [] && stack[|stack| - 1] == (node, level) && AreChildren(p, node, next)
    ensures StackOk(p, d, stack[..|stack| - 1] + Levels(next, level + 1))
  {
    TopOfStack(p, d, stack, node, level);
    PushKeepsStack(p, d, node, level, stack[..|stack| - 1], next);
  }

  lemma VisitKeepsPending(p: Parents, d: Id, levels: map<Id, nat>, stack: seq<(Id, nat)>, node: Id, level: nat,
                          next: seq<Id>)
    requires Pending(p, d, levels.Keys, stack) && stack != [] && stack[|stack| - 1] == (node, level)
             && AreChildren(p, node, next)
    ensures Pending(p, d, levels[node := level].Keys, stack[..|stack| - 1] + Levels(next, level + 1))
  {
    assert levels[node := level].Keys == levels.Keys + {node};
    PushKeepsPending(p, d, stack, stack[..|stack| - 1] + Levels(next, level + 1), node, levels.Keys, next, level + 1);
  }

  lemma VisitKeepsSearch(p: Parents, d: Id, levels: map<Id, nat>, best: nat, deepest: Id, stack: seq<(Id, nat)>,
                         node: Id, level: nat, next: seq<Id>)
    requires SearchOk(p, d, levels, best, deepest, stack) && stack != [] && stack[|stack| - 1] == (node, level)
             && node !in levels
    requires AreChildren(p, node, next)
    ensures node in p.Keys + {d}
    ensures SearchOk(p, d, levels[node := level], if best >= level then best else level, if best >= level then deepest
                     else node,
                     stack[..|stack| - 1] + Levels(next, level + 1))
  {
    VisitKeepsVisited(p, d, levels, best, deepest, stack, node, level);
    VisitKeepsStack(p, d, stack, node, level, next);
    VisitKeepsPending(p, d, levels, stack, node, level, next);
  }

  lemma VisitKeeps(p: Parents, d: Id, levels: map<Id, nat>, best: nat, deepest: Id, node: Id, level: nat)
    requires VisitedOk(p, d, levels, best, deepest)
    requires node in p.Keys + {d} && level >= 1 && Anc(p, node, level - 1) == Some(d) && node !in levels
    ensures VisitedOk(p, d, levels[node := level], if best >= level then best else level, if best >= level then deepest
                      else node)
  {
  }

  lemma PushKeepsStack(p: Parents, d: Id, node: Id, level: nat, rest: seq<(Id, nat)>, children: seq<Id>)
    requires StackOk(p, d, rest) && level >= 1 && Anc(p, node, level - 1) == Some(d)
    requires AreChildren(p, node, children)
    ensures StackOk(p, d, rest + Levels(children, level + 1))
  {
    forall i | 0 <= i < |children| ensures Anc(p, children[i], level) == Some(d) {
      assert children[i] in children;
      AncShift(p, children[i], level - 1);
    }
  }

  lemma PopKeepsPending(p: Parents, d: Id, before: seq<(Id, nat)>, after: seq<(Id, nat)>, node: Id, seen: set<Id>)
    requires before != [] && before[|before| - 1].0 == node && node in seen && Pending(p, d, seen, before)
    requires after == before[..|before| - 1]
    ensures Pending(p, d, seen, after)
  {
    forall x | x !in seen && OnStack(before, x) ensures OnStack(after, x) { PopKeepsOthers(before, after, x); }
  }

  /** Only the popped node leaves the stack. */
  lemma PopKeepsOthers(before: seq<(Id, nat)>, after: seq<(Id, nat)>, x: Id)
    requires before != [] && before[|before| - 1].0 != x && OnStack(before, x) && before[..|before| - 1] <= after
    ensures OnStack(after, x)
  {
    var i :| 0 <= i < |before| && before[i].0 == x;
    assert after[i] == before[..|before| - 1][i];
  }

  lemma PushKeepsPending(p: Parents, d: Id, before: seq<(Id, nat)>, after: seq<(Id, nat)>, node: Id, seen: set<Id>,
                         children: seq<Id>, level: nat)
    requires before != [] && before[|before| - 1].0 == node && Pending(p, d, seen, before)
    requires after == before[..|before| - 1] + Levels(children, level)
    requires AreChildren(p, node, children)
    ensures Pending(p, d, seen + {node}, after)
  {
    forall x | x != node && OnStack(before, x) ensures OnStack(after, x) { PopKeepsOthers(before, after, x); }
    forall c | c in children ensures OnStack(after, c) {
      var i :| 0 <= i < |children| && children[i] == c;
      assert after[|before| - 1 + i].0 == c;
    }
  }

  /** On an acyclic map a node is below `d` at one level only, so the recorded levels bound all levels. */
  lemma BelowIsBounded(p: Parents, f: map<Id, int>, d: Id, levels: map<Id, nat>, best: nat, deepest: Id, x: Id, k: nat)
    requires Labelled(p, f) && d in p && VisitedOk(p, d, levels, best, deepest) && ClosedBelow(p, d, levels.Keys)
    requires Anc(p, x, k) == Some(d)
    ensures k + 1 <= best
  {
    BelowIsSeen(p, d, levels.Keys, x, k);
    SeenIsBounded(p, f, d, levels, best, deepest, x, k);
  }

  lemma SeenIsBounded(p: Parents, f: map<Id, int>, d: Id, levels: map<Id, nat>, best: nat, deepest: Id, x: Id, k: nat)
    requires Labelled(p, f) && d in p && VisitedOk(p, d, levels, best, deepest) && x in levels
             && Anc(p, x, k) == Some(d)
    ensures k + 1 <= best
  {
    VisitedLevel(p, d, levels, best, deepest, x);
    LevelIsUnique(p, f, d, x, k, levels[x] - 1);
  }

  /** The set holds `d` and, with every department, its children. */
  predicate ClosedBelow(p: Parents, d: Id, seen: set<Id>) {
    d in seen && forall c :: c in p && p[c].Some? && p[c].value in seen ==> c in seen
  }

  lemma VisitedLevel(p: Parents, d: Id, levels: map<Id, nat>, best: nat, deepest: Id, x: Id)
    requires VisitedOk(p, d, levels, best, deepest) && x in levels
    ensures x in p.Keys + {d} && 1 <= levels[x] <= best && Anc(p, x, levels[x] - 1) == Some(d)
  {
  }

  /** On an acyclic map a department lies below another at one distance only. */
  lemma LevelIsUnique(p: Parents, f: map<Id, int>, d: Id, x: Id, k: nat, l: nat)
    requires Labelled(p, f) && d in p && x in p && Anc(p, x, k) == Some(d) && Anc(p, x, l) == Some(d)
    ensures k == l
  {
    LabelsCountDown(p, f, x, k);
    LabelsCountDown(p, f, x, l);
  }

  lemma NothingPending(p: Parents, d: Id, seen: set<Id>)
    requires Pending(p, d, seen, [])
    ensures ClosedBelow(p, d, seen)
  {
  }

  lemma SeenAllBelow(p: Parents, d: Id, levels: map<Id, nat>, best: nat, deepest: Id)
    requires VisitedOk(p, d, levels, best, deepest) && Pending(p, d, levels.Keys, [])
    ensures Closed(p) && Acyclic(p) && d in p ==> IsHeight(p, d, best)
  {
    if Closed(p) && Acyclic(p) && d in p {
      ForestHasLabels(p);
      NothingPending(p, d, levels.Keys);
      forall x, k: nat | x in p.Keys + {d} && Anc(p, x, k) == Some(d) ensures k + 1 <= best {
        BelowIsBounded(p, DepthMap(p), d, levels, best, deepest, x, k);
      }
      assert deepest in levels;
    }
  }

  lemma {:induction false} BelowIsSeen(p: Parents, d: Id, seen: set<Id>, x: Id, k: nat)
    requires ClosedBelow(p, d, seen) && Anc(p, x, k) == Some(d)
    ensures x in seen
    decreases k
  {
    if k > 0 {
      AncShift(p, x, k - 1);
      BelowIsSeen(p, d, seen, p[x].value, k - 1);
    }
  }

  // ----- the checks -----

  datatype Verdict = Allowed | NotFound | InvalidMove | DepthExceeded

  /** check_parent; `moving` is None for a new department. */
  method CheckParent(p: Parents, parent: Option<Id>, moving: Option<Id>) returns (verdict: Verdict)
    ensures parent.None? ==> verdict == Allowed
    ensures verdict == NotFound <==> parent.Some? && parent.value !in p
    ensures parent.Some? && parent.value in p && moving.Some? && moving.value in Walk(p, parent, {}) ==>
            verdict == InvalidMove
    ensures verdict == InvalidMove ==> parent.Some? && moving.Some? && moving.value in Walk(p, parent, {})
    ensures parent.Some? && parent.value in p && moving.None? ==>
              verdict == if Depth(p, parent.value) + 1 > MAX_DEPTH then DepthExceeded else Allowed
    ensures Forest(p) && parent.Some? && parent.value in p && moving.Some? && moving.value in p ==>
              (verdict == Allowed <==> Forest(p[moving.value := parent]))
  {
    if parent.None? { return Allowed; }
    var target := parent.value;
    if target !in p { return NotFound; }
    if moving.Some? {
      var inside := target == moving.value;
      if inside {
        assert Walk(p, parent, {})[0] == target;
      } else {
        inside := Meets(p, parent, moving.value);
      }
      if inside {
        if Forest(p) && moving.value in p { MoveInsideIsInvalid(p, moving.value, target); }
        return InvalidMove;
      }
    }
    var subtree := 1;
    if moving.Some? { subtree := HeightOf(p, moving.value); }
    var depth := DepthOf(p, target);
    verdict := if depth + subtree > MAX_DEPTH then DepthExceeded else Allowed;
    if Forest(p) && moving.Some? && moving.value in p { MoveIsExact(p, moving.value, target, subtree); }
  }

  /** The strict chain above `c` holds `d` exactly when `d` is a proper ancestor. */
  lemma ProperAncestor(p: Parents, d: Id, c: Id)
    requires Forest(p) && d in p && c in p
    ensures d in Walk(p, p[c], {}) <==> d != c && d in Walk(p, Some(c), {})
  {
    var f := DepthMap(p);
    ForestHasLabels(p);
    UnderIsAncestor(p, f, d, c);
    if p[c].Some? {
      UnderIsAncestor(p, f, d, p[c].value);
      if Under(p, f, c, p[c].value) { UnderIsDeeper(p, f, c, p[c].value); }
    }
  }

  /** The map a promotion would write is acyclic, so the search in it computes its true height. */
  lemma PromotedIsAcyclic(p: Parents, d: Id, c: Id)
    requires Forest(p) && d in p && c in p && c != d && d in Walk(p, Some(c), {})
    ensures Closed(Promote(p, d, c)) && Acyclic(Promote(p, d, c))
  {
    ForestHasLabels(p);
    UnderIsAncestor(p, DepthMap(p), d, c);
    PromoteRelabels(p, DepthMap(p), d, c);
    LabelsMakeForest(Promote(p, d, c), Promoted(p, DepthMap(p), d, c));
  }

  /** check_promote: the new map, or why it is refused. */
  method CheckPromote(p: Parents, d: Id, c: Id) returns (verdict: Verdict, updated: Parents)
    ensures verdict == NotFound <==> d !in p || c !in p
    ensures d in p && c in p ==> (verdict == InvalidMove <==> d !in Walk(p, p[c], {}))
    ensures verdict == Allowed ==> d in p && c in p && updated == Promote(p, d, c)
    ensures Forest(p) && d in p && c in p && d in Walk(p, p[c], {}) ==>
            (verdict == Allowed <==> Forest(Promote(p, d, c)))
  {
    updated := p;
    if d !in p || c !in p { return NotFound, p; }
    var isDescendant := Meets(p, p[c], d);
    if !isDescendant { return InvalidMove, p; }
    var top := p[d];
    updated := p[c := top][d := Some(c)];
    var base := 0;
    if top.Some? { base := DepthOf(updated, top.value); }
    var height := HeightOf(updated, c);
    verdict := if base + height > MAX_DEPTH then DepthExceeded else Allowed;
    if Forest(p) {
      ProperAncestor(p, d, c);
      PromotedIsAcyclic(p, d, c);
      PromoteIsExact(p, d, c, height);
      if top.None? { ForestHasLabels(p); assert DepthMap(p)[d] == 1; }
    }
  }

  /** After a promotion the departments below the child are exactly those that were below the department. */
  lemma PromotionSwapsRoots(p: Parents, d: Id, c: Id, x: Id)
    requires Forest(p) && d in p && c in p && d in Walk(p, p[c], {}) && x in p
    ensures Promote(p, d, c).Keys == p.Keys
    ensures c in Walk(Promote(p, d, c), Some(x), {}) <==> d in Walk(p, Some(x), {})
  {
    var f := DepthMap(p);
    ForestHasLabels(p);
    ProperAncestor(p, d, c);
    UnderIsAncestor(p, f, d, c);
    PromoteRelabels(p, f, d, c);
    var p', g := Promote(p, d, c), Promoted(p, f, d, c);
    PromoteKeepsSubtree(p, f, g, d, c, x);
    UnderIsAncestor(p, f, d, x);
    UnderIsAncestor(p', g, c, x);
  }

  // ----- the department table -----

  /** The hierarchy of one tenant; every operation runs under its lock. */
  class Departments {
    var parents: Parents

    ghost predicate Valid()
      reads this
    {
      Forest(parents)
    }

    constructor ()
      ensures Valid() && parents == map[]
    {
      parents := map[];
    }

    method Create(id: Id, parent: Option<Id>) returns (verdict: Verdict)
      requires Valid() && id !in parents
      modifies this
      ensures Valid()
      ensures verdict == Allowed <==>
              (parent.Some? ==> parent.value in old(parents)) && Forest(old(parents)[id := parent])
      ensures parents == if verdict == Allowed then old(parents)[id := parent] else old(parents)
    {
      verdict := Allowed;
      if parent.Some? { verdict := CheckParent(parents, parent, None); }
      if parent.None? || parent.value in parents { CreateIsExact(parents, id, parent); }
      if verdict == Allowed { parents := parents[id := parent]; }
    }

    /** `found` is false when the department does not exist. */
    method Move(id: Id, parent: Option<Id>) returns (found: bool, verdict: Verdict)
      requires Valid()
      modifies this
      ensures Valid() && found == (id in old(parents))
      ensures found ==> (verdict == Allowed <==>
                         (parent.Some? ==> parent.value in old(parents)) && Forest(old(parents)[id := parent]))
      ensures parents == if found && verdict == Allowed then old(parents)[id := parent] else old(parents)
    {
      found, verdict := id in parents, NotFound;
      if !found { return; }
      verdict := CheckParent(parents, parent, Some(id));
      if parent.None? { MoveToTopIsValid(parents, id); }
      if verdict == Allowed { parents := parents[id := parent]; }
    }

    method PromoteChild(d: Id, c: Id) returns (found: bool, verdict: Verdict)
      requires Valid()
      modifies this
      ensures Valid() && found == (d in old(parents) && c in old(parents))
      ensures found ==> (verdict == Allowed <==>
                         d in Walk(old(parents), old(parents)[c], {}) && Forest(Promote(old(parents), d, c)))
      ensures parents == if found && verdict == Allowed then Promote(old(parents), d, c) else old(parents)
    {
      found, verdict := d in parents && c in parents, NotFound;
      if !found { return; }
      var updated;
      verdict, updated := CheckPromote(parents, d, c);
      if verdict == Allowed {
        var top := updated[c];
        ProperAncestor(parents, d, c);
        parents := parents[c := top];
        parents := parents[d := Some(c)];
      }
    }

    method Delete(d: Id) returns (found: bool)
      requires Valid()
      modifies this
      ensures Valid() && found == (d in old(parents))
      ensures parents == if found then Deleted(old(parents), d) else old(parents)
    {
      found := d in parents;
      if found {
        DeleteKeepsForest(parents, d);
        parents := Deleted(parents, d);
      }
    }
  }
}

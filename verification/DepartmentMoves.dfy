/** Moving, creating, promoting and deleting departments, as changes of the parent map. */
module DepartmentMoves {
  import opened Prelude
  import opened DepartmentForest

  /** All labels are within the limit. */
  predicate Shallow(f: map<Id, int>) { forall x :: x in f ==> f[x] <= MAX_DEPTH }

  lemma ShallowForest(p: Parents, f: map<Id, int>)
    requires Labelled(p, f)
    ensures Forest(p) <==> Shallow(f)
  {
    LabelsMakeForest(p, f);
    if Forest(p) {
      forall x | x in f ensures f[x] <= MAX_DEPTH { assert f[x] == DepthMap(p)[x] == Depth(p, x); }
    }
    if Shallow(f) {
      forall x | x in p ensures Depth(p, x) <= MAX_DEPTH { assert f[x] == DepthMap(p)[x]; }
    }
  }

  // ----- move under another department -----

  function Moved(p: Parents, f: map<Id, int>, m: Id, t: Id): map<Id, int>
    requires Labelled(p, f) && m in p && t in p
  {
    map x | x in p :: if Under(p, f, m, x) then f[x] - f[m] + f[t] + 1 else f[x]
  }

  /** Moving `m` below a department outside its subtree shifts exactly that subtree. */
  lemma MoveRelabels(p: Parents, f: map<Id, int>, m: Id, t: Id)
    requires Labelled(p, f) && m in p && t in p && !Under(p, f, m, t)
    ensures Labelled(p[m := Some(t)], Moved(p, f, m, t))
  {
    var p', g := p[m := Some(t)], Moved(p, f, m, t);
    forall x | x in p' ensures g[x] >= 1 && g[x] == if p'[x].None? then 1 else g[p'[x].value] + 1 {
      if Under(p, f, m, x) { UnderIsDeeper(p, f, m, x); }
    }
  }

  function Topped(p: Parents, f: map<Id, int>, m: Id): map<Id, int>
    requires Labelled(p, f) && m in p
  {
    map x | x in p :: if Under(p, f, m, x) then f[x] - f[m] + 1 else f[x]
  }

  lemma ToppedLabel(p: Parents, f: map<Id, int>, m: Id, x: Id)
    requires Labelled(p, f) && m in p && x in p
    ensures var p', g := p[m := None], Topped(p, f, m);
            && 1 <= g[x] <= f[x] && (p'[x].Some? ==> p'[x].value in g)
            && g[x] == if p'[x].None? then 1 else g[p'[x].value] + 1
  {
    if Under(p, f, m, x) { UnderIsDeeper(p, f, m, x); }
  }

  lemma MoveToTopRelabels(p: Parents, f: map<Id, int>, m: Id) returns (g: map<Id, int>)
    requires Labelled(p, f) && m in p
    ensures Labelled(p[m := None], g)
    ensures forall x :: x in p ==> g[x] <= f[x]
  {
    var p' := p[m := None];
    g := Topped(p, f, m);
    forall x | x in p' ensures 1 <= g[x] <= f[x] && g[x] == if p'[x].None? then 1 else g[p'[x].value] + 1 {
      ToppedLabel(p, f, m, x);
    }
  }

  /** Moving `m` below itself or its own subtree leaves no labelling, so the result has a cycle. */
  lemma {:induction false} MoveIntoSubtreeHasNoLabels(p: Parents, f: map<Id, int>, m: Id, t: Id, p': Parents,
                                                      g: map<Id, int>)
    requires Labelled(p, f) && m in p && t in p && Under(p, f, m, t)
    requires p'.Keys == p.Keys && (forall x :: x in p && x != m ==> p'[x] == p[x]) && Labelled(p', g)
    ensures g[m] <= g[t]
    decreases f[t]
  {
    if t != m { MoveIntoSubtreeHasNoLabels(p, f, m, p[t].value, p', g); }
  }

  /** After a legal move the deepest label is that of the moved subtree, or was there before. */
  lemma MoveDepth(p: Parents, f: map<Id, int>, m: Id, t: Id, h: nat)
    requires Labelled(p, f) && Shallow(f) && m in p && t in p && IsHeight(p, m, h)
    ensures Shallow(Moved(p, f, m, t)) <==> f[t] + h <= MAX_DEPTH
  {
    HeightByLabels(p, f, m, h);
    var g := Moved(p, f, m, t);
    var deepest :| deepest in p && Under(p, f, m, deepest) && f[deepest] + 1 == f[m] + h;
    assert g[deepest] == f[t] + h;
  }

  lemma MoveInsideIsInvalid(p: Parents, m: Id, t: Id)
    requires Forest(p) && m in p && t in p && m in Walk(p, Some(t), {})
    ensures !Forest(p[m := Some(t)])
  {
    ForestHasLabels(p);
    UnderIsAncestor(p, DepthMap(p), m, t);
    var p' := p[m := Some(t)];
    if Forest(p') {
      ForestHasLabels(p');
      MoveIntoSubtreeHasNoLabels(p, DepthMap(p), m, t, p', DepthMap(p'));
    }
  }

  /** A department may be moved below `t` exactly when the result is again a valid hierarchy. */
  lemma MoveIsExact(p: Parents, m: Id, t: Id, h: nat)
    requires Forest(p) && m in p && t in p && IsHeight(p, m, h)
    ensures Forest(p[m := Some(t)]) <==> m !in Walk(p, Some(t), {}) && Depth(p, t) + h <= MAX_DEPTH
  {
    var f := DepthMap(p);
    ForestHasLabels(p);
    UnderIsAncestor(p, f, m, t);
    if Under(p, f, m, t) {
      MoveInsideIsInvalid(p, m, t);
    } else {
      MoveRelabels(p, f, m, t);
      ShallowForest(p, f);
      ShallowForest(p[m := Some(t)], Moved(p, f, m, t));
      MoveDepth(p, f, m, t, h);
    }
  }

  lemma MoveToTopIsValid(p: Parents, m: Id)
    requires Forest(p) && m in p
    ensures Forest(p[m := None])
  {
    ForestHasLabels(p);
    ShallowForest(p, DepthMap(p));
    var g := MoveToTopRelabels(p, DepthMap(p), m);
    ShallowForest(p[m := None], g);
  }

  // ----- create -----

  lemma CreateLabels(p: Parents, f: map<Id, int>, n: Id, t: Option<Id>)
    requires Labelled(p, f) && n !in p && (t.Some? ==> t.value in p)
    ensures Labelled(p[n := t], f[n := if t.None? then 1 else f[t.value] + 1])
  {
  }

  /** A new department fits below `t` exactly when `t` is not on the last level. */
  lemma CreateIsExact(p: Parents, n: Id, t: Option<Id>)
    requires Forest(p) && n !in p && (t.Some? ==> t.value in p)
    ensures Forest(p[n := t]) <==> (t.None? || Depth(p, t.value) + 1 <= MAX_DEPTH)
  {
    var f := DepthMap(p);
    ForestHasLabels(p);
    ShallowForest(p, f);
    CreateLabels(p, f, n, t);
    var level := if t.None? then 1 else f[t.value] + 1;
    ShallowForest(p[n := t], f[n := level]);
    ShallowWithOneMore(f, n, level);
  }

  lemma ShallowWithOneMore(f: map<Id, int>, n: Id, level: int)
    requires n !in f && Shallow(f)
    ensures Shallow(f[n := level]) <==> level <= MAX_DEPTH
  {
    assert f[n := level][n] == level;
  }

  // ----- promote -----

  function Promote(p: Parents, d: Id, c: Id): Parents
    requires d in p
  {
    p[c := p[d]][d := Some(c)]
  }

  function Promoted(p: Parents, f: map<Id, int>, d: Id, c: Id): map<Id, int>
    requires Labelled(p, f) && d in p && c in p
  {
    map x | x in p :: if Under(p, f, c, x) then f[x] - f[c] + f[d] else if Under(p, f, d, x) then f[x] + 1 else f[x]
  }

  /** The parent of `d` is in neither subtree. */
  lemma AboveIsOutside(p: Parents, f: map<Id, int>, d: Id, c: Id)
    requires Labelled(p, f) && d in p && c in p && Under(p, f, d, c) && p[d].Some?
    ensures !Under(p, f, d, p[d].value) && !Under(p, f, c, p[d].value)
  {
    var top := p[d].value;
    UnderIsDeeper(p, f, d, c);
    if Under(p, f, d, top) { UnderIsDeeper(p, f, d, top); }
    if Under(p, f, c, top) { UnderIsDeeper(p, f, c, top); }
  }

  lemma PromotedLabel(p: Parents, f: map<Id, int>, d: Id, c: Id, x: Id)
    requires Labelled(p, f) && d in p && c in p && c != d && Under(p, f, d, c) && x in p
    ensures var p', g := Promote(p, d, c), Promoted(p, f, d, c);
            && (p'[x].Some? ==> p'[x].value in p)
            && g[x] >= 1 && g[x] == if p'[x].None? then 1 else g[p'[x].value] + 1
  {
    UnderIsDeeper(p, f, d, c);
    if x == c {
      if p[d].Some? { AboveIsOutside(p, f, d, c); }
    } else if x == d {
      if Under(p, f, c, d) { UnderIsDeeper(p, f, c, d); }
    } else {
      assert Promote(p, d, c)[x] == p[x];
      if Under(p, f, c, x) { UnderIsDeeper(p, f, c, x); }
    }
  }

  /** The child takes the place of the department; the rest of the department's subtree moves one level down. */
  lemma PromoteRelabels(p: Parents, f: map<Id, int>, d: Id, c: Id)
    requires Labelled(p, f) && d in p && c in p && c != d && Under(p, f, d, c)
    ensures Labelled(Promote(p, d, c), Promoted(p, f, d, c))
  {
    forall x | x in p
      ensures var p', g := Promote(p, d, c), Promoted(p, f, d, c);
              && (p'[x].Some? ==> p'[x].value in p)
              && g[x] >= 1 && g[x] == if p'[x].None? then 1 else g[p'[x].value] + 1
    {
      PromotedLabel(p, f, d, c, x);
    }
  }

  /** The new subtree of the child is exactly the old subtree of the department. */
  lemma {:induction false} PromoteKeepsSubtree(p: Parents, f: map<Id, int>, g: map<Id, int>, d: Id, c: Id, x: Id)
    requires Labelled(p, f) && d in p && c in p && c != d && Under(p, f, d, c) && x in p
    requires Labelled(Promote(p, d, c), g)
    ensures Under(Promote(p, d, c), g, c, x) <==> Under(p, f, d, x)
    decreases f[x]
  {
    if x != d && x != c && p[x].Some? { PromoteKeepsSubtree(p, f, g, d, c, p[x].value); }
    if x == d { assert Under(Promote(p, d, c), g, c, c); }
  }

  /** Only the department's subtree changes depth, and its deepest node decides. */
  lemma PromoteDepth(p: Parents, f: map<Id, int>, d: Id, c: Id, h: nat)
    requires Labelled(p, f) && Shallow(f) && d in p && c in p && c != d && Under(p, f, d, c)
    requires Labelled(Promote(p, d, c), Promoted(p, f, d, c)) && IsHeight(Promote(p, d, c), c, h)
    ensures Shallow(Promoted(p, f, d, c)) <==> f[d] - 1 + h <= MAX_DEPTH
  {
    var p', g := Promote(p, d, c), Promoted(p, f, d, c);
    HeightByLabels(p', g, c, h);
    assert g[c] == f[d];
    var deepest :| deepest in p' && Under(p', g, c, deepest) && g[deepest] + 1 == g[c] + h;
    forall x | x in g && f[d] - 1 + h <= MAX_DEPTH ensures g[x] <= MAX_DEPTH {
      PromoteKeepsSubtree(p, f, g, d, c, x);
      if !Under(p, f, d, x) && Under(p, f, c, x) { UnderTransitive(p, f, d, c, x); }
    }
  }

  lemma {:induction false} UnderTransitive(p: Parents, f: map<Id, int>, a: Id, b: Id, x: Id)
    requires Labelled(p, f) && x in p && Under(p, f, b, x) && b in p && Under(p, f, a, b)
    ensures Under(p, f, a, x)
    decreases f[x]
  {
    if x != b { UnderTransitive(p, f, a, b, p[x].value); }
  }

  /** What a promotion is judged by: the depth above the department plus the height of the new subtree. */
  lemma PromoteIsExact(p: Parents, d: Id, c: Id, h: nat)
    requires Forest(p) && d in p && c in p && c != d && d in Walk(p, Some(c), {})
    requires IsHeight(Promote(p, d, c), c, h)
    ensures Depth(p, d) >= 1
    ensures Forest(Promote(p, d, c)) <==> Depth(p, d) - 1 + h <= MAX_DEPTH
    ensures p[d].Some? ==> Depth(Promote(p, d, c), p[d].value) == Depth(p, d) - 1
  {
    var f := DepthMap(p);
    ForestHasLabels(p);
    UnderIsAncestor(p, f, d, c);
    PromoteRelabels(p, f, d, c);
    var p', g := Promote(p, d, c), Promoted(p, f, d, c);
    ShallowForest(p, f);
    ShallowForest(p', g);
    PromoteDepth(p, f, d, c, h);
    if p[d].Some? {
      AboveIsOutside(p, f, d, c);
      LabelsMakeForest(p', g);
      assert g[p[d].value] == DepthMap(p')[p[d].value];
    }
  }

  // ----- delete -----

  /** The children of a deleted department move up to its parent. */
  function Deleted(p: Parents, d: Id): Parents
    requires d in p
  {
    map x | x in p && x != d :: if p[x] == Some(d) then p[d] else p[x]
  }

  function Raised(p: Parents, f: map<Id, int>, d: Id): map<Id, int>
    requires Labelled(p, f) && d in p
  {
    map x | x in p && x != d :: if Under(p, f, d, x) then f[x] - 1 else f[x]
  }

  lemma DeletedLabel(p: Parents, f: map<Id, int>, d: Id, x: Id)
    requires Labelled(p, f) && d in p && x in p && x != d
    ensures var q, g := Deleted(p, d)[x], Raised(p, f, d);
            (q.Some? ==> q.value in g) && 1 <= g[x] <= f[x] && g[x] == if q.None? then 1 else g[q.value] + 1
  {
    if p[d].Some? { AboveIsOutside(p, f, d, d); }
    if Under(p, f, d, x) { UnderIsDeeper(p, f, d, x); }
    assert Under(p, f, d, d);
    if p[x] == Some(d) {
      assert Under(p, f, d, x) && Deleted(p, d)[x] == p[d];
    } else {
      assert Deleted(p, d)[x] == p[x];
    }
  }

  lemma DeleteRelabels(p: Parents, f: map<Id, int>, d: Id)
    requires Labelled(p, f) && d in p
    ensures Labelled(Deleted(p, d), Raised(p, f, d))
  {
    forall x | x in p && x != d
      ensures var q, g := Deleted(p, d)[x], Raised(p, f, d);
              (q.Some? ==> q.value in g) && 1 <= g[x] && g[x] == if q.None? then 1 else g[q.value] + 1
    {
      DeletedLabel(p, f, d, x);
    }
  }

  lemma DeleteKeepsForest(p: Parents, d: Id)
    requires Forest(p) && d in p
    ensures Forest(Deleted(p, d))
  {
    var f := DepthMap(p);
    ForestHasLabels(p);
    ShallowForest(p, f);
    DeleteRelabels(p, f, d);
    ShallowForest(Deleted(p, d), Raised(p, f, d));
  }
}

/** Parent maps of departments: walks, acyclicity, depth labels, and what moving a subtree does to them. */
module DepartmentForest {
  import opened Prelude

  type Id = string

  /** Department id to parent id; top-level departments have none. */
  type Parents = map<Id, Option<Id>>

  const MAX_DEPTH: nat := 5

  function Up(p: Parents, x: Id): Option<Id> { if x in p then p[x] else None }

  /** The k-th ancestor. */
  function Anc(p: Parents, x: Id, k: nat): Option<Id> {
    if k == 0 then Some(x)
    else
      var below := Anc(p, x, k - 1);
      if below.None? then None else Up(p, below.value)
  }

  predicate Closed(p: Parents) { forall x :: x in p && p[x].Some? ==> p[x].value in p }

  ghost predicate Acyclic(p: Parents) { forall x, k: nat :: x in p && k >= 1 ==> Anc(p, x, k) != Some(x) }

  /** The nodes on the way up from `x`, stopping at the top or before the first repeated node. */
  function Walk(p: Parents, x: Option<Id>, seen: set<Id>): seq<Id>
    decreases p.Keys - seen
  {
    if x.None? || x.value in seen then []
    else if x.value !in p then [x.value]
    else
      assert x.value in p.Keys - seen;
      [x.value] + Walk(p, p[x.value], seen + {x.value})
  }

  /** The depth that `_depth` computes; on a cycle it counts each node once. */
  function Depth(p: Parents, x: Id): nat { |Walk(p, Some(x), {})| }

  /** The valid department hierarchies. */
  ghost predicate Forest(p: Parents) { Closed(p) && Acyclic(p) && forall x :: x in p ==> Depth(p, x) <= MAX_DEPTH }

  // ----- walks are ancestors -----

  lemma {:induction false} AncShift(p: Parents, x: Id, k: nat)
    ensures Anc(p, x, k + 1) == if Up(p, x).None? then None else Anc(p, Up(p, x).value, k)
  {
    if k == 0 {
      assert Anc(p, x, 0) == Some(x);
    } else {
      AncShift(p, x, k - 1);
    }
  }

  /** A walk lists consecutive ancestors without repetition and ends at the top or at a node already seen. */
  lemma {:induction false} WalkIsAncestors(p: Parents, x: Id, seen: set<Id>)
    requires x !in seen
    ensures var walk := Walk(p, Some(x), seen);
            && |walk| >= 1
            && (forall i :: 0 <= i < |walk| ==> Anc(p, x, i) == Some(walk[i]) && walk[i] !in seen)
            && (Anc(p, x, |walk|).None? || Anc(p, x, |walk|).value in seen || Anc(p, x, |walk|).value in walk)
    decreases p.Keys - seen
  {
    var walk := Walk(p, Some(x), seen);
    AncShift(p, x, |walk| - 1);
    if x in p && p[x].Some? && p[x].value !in seen + {x} {
      var y := p[x].value;
      var rest := Walk(p, Some(y), seen + {x});
      assert x in p.Keys - seen;
      WalkIsAncestors(p, y, seen + {x});
      assert walk == [x] + rest;
      forall i | 0 <= i < |walk| ensures Anc(p, x, i) == Some(walk[i]) && walk[i] !in seen {
        if i > 0 { AncShift(p, x, i - 1); assert walk[i] == rest[i - 1]; }
      }
      assert forall z :: z in rest ==> z in walk;
      assert walk[0] == x;
    } else {
      assert walk == [x];
    }
  }

  /** On an acyclic map the walk reaches the top. */
  lemma WalkReachesTop(p: Parents, x: Id)
    requires Acyclic(p) && Closed(p) && x in p
    ensures var walk := Walk(p, Some(x), {});
            && (forall i :: 0 <= i < |walk| ==> Anc(p, x, i) == Some(walk[i]) && walk[i] in p)
            && Anc(p, x, |walk|).None?
  {
    var walk := Walk(p, Some(x), {});
    WalkIsAncestors(p, x, {});
    forall i | 0 <= i < |walk| ensures walk[i] in p { AncInside(p, x, i); }
    if Anc(p, x, |walk|).Some? {
      var y := Anc(p, x, |walk|).value;
      var i :| 0 <= i < |walk| && walk[i] == y;
      AncCompose(p, x, i, |walk| - i);
      assert false;
    }
  }

  lemma {:induction false} AncInside(p: Parents, x: Id, k: nat)
    requires Closed(p) && x in p && Anc(p, x, k).Some?
    ensures Anc(p, x, k).value in p
  {
    if k > 0 { AncInside(p, x, k - 1); }
  }

  lemma {:induction false} AncCompose(p: Parents, x: Id, i: nat, k: nat)
    requires Anc(p, x, i).Some?
    ensures Anc(p, x, i + k) == Anc(p, Anc(p, x, i).value, k)
  {
    if k > 0 { AncCompose(p, x, i, k - 1); }
  }

  // ----- depth labels -----

  /** `f` gives top-level departments 1 and every other department one more than its parent. */
  predicate Labelled(p: Parents, f: map<Id, int>) {
    && f.Keys == p.Keys
    && Closed(p)
    && forall x :: x in p ==> f[x] >= 1 && f[x] == if p[x].None? then 1 else f[p[x].value] + 1
  }

  function DepthMap(p: Parents): map<Id, int> { map x | x in p :: Depth(p, x) }

  /** Two places where the chain above `x` ends are the same place. */
  lemma {:induction false} TopIsUnique(p: Parents, x: Id, m: nat, n: nat)
    requires Anc(p, x, m).None? && m <= n
    ensures Anc(p, x, n).None?
  {
    if m < n { TopIsUnique(p, x, m, n - 1); }
  }

  /** On a closed acyclic map, depth is a labelling. */
  lemma ForestHasLabels(p: Parents)
    requires Closed(p) && Acyclic(p)
    ensures Labelled(p, DepthMap(p))
  {
    forall x | x in p ensures Depth(p, x) == if p[x].None? then 1 else Depth(p, p[x].value) + 1 {
      WalkReachesTop(p, x);
      var n := Depth(p, x);
      if p[x].None? {
        AncShift(p, x, 0);
        if n > 1 { TopIsUnique(p, x, 1, n - 1); }
      } else {
        var y := p[x].value;
        WalkReachesTop(p, y);
        var m := Depth(p, y);
        WalkIsAncestors(p, x, {});
        WalkIsAncestors(p, y, {});
        AncShift(p, x, m);
        AncShift(p, x, m - 1);
        if n < m + 1 { TopIsUnique(p, x, n, m); }
      }
    }
  }

  /** Labels count down along the chain of ancestors. */
  lemma {:induction false} LabelsCountDown(p: Parents, f: map<Id, int>, x: Id, k: nat)
    requires Labelled(p, f) && x in p && Anc(p, x, k).Some?
    ensures Anc(p, x, k).value in p && f[Anc(p, x, k).value] + k == f[x] && f[x] >= 1
  {
    if k > 0 { LabelsCountDown(p, f, x, k - 1); }
  }

  /** A map with labels is closed and acyclic, and the labels are the depths. */
  lemma LabelsMakeForest(p: Parents, f: map<Id, int>)
    requires Labelled(p, f)
    ensures Closed(p) && Acyclic(p) && f == DepthMap(p)
  {
    forall x, k: nat | x in p && k >= 1 ensures Anc(p, x, k) != Some(x) {
      if Anc(p, x, k) == Some(x) { LabelsCountDown(p, f, x, k); }
    }
    ForestHasLabels(p);
    forall x | x in p ensures f[x] == DepthMap(p)[x] { LabelsAgree(p, f, DepthMap(p), x); }
  }

  lemma {:induction false} LabelsAgree(p: Parents, f: map<Id, int>, g: map<Id, int>, x: Id)
    requires Labelled(p, f) && Labelled(p, g) && x in p
    ensures f[x] == g[x]
    decreases f[x]
  {
    if p[x].Some? { LabelsAgree(p, f, g, p[x].value); }
  }

  // ----- subtrees -----

  /** `x` is `top` or below it. */
  predicate Under(p: Parents, f: map<Id, int>, top: Id, x: Id)
    requires Labelled(p, f) && x in p
    decreases f[x]
  {
    x == top || (p[x].Some? && Under(p, f, top, p[x].value))
  }

  lemma UnderIsAncestor(p: Parents, f: map<Id, int>, top: Id, x: Id)
    requires Labelled(p, f) && x in p
    ensures Under(p, f, top, x) <==> exists k: nat :: Anc(p, x, k) == Some(top)
    ensures Under(p, f, top, x) <==> top in Walk(p, Some(x), {})
  {
    UnderIsReached(p, f, top, x);
    AncestorsAreWalked(p, f, top, x);
  }

  lemma {:induction false} UnderReaches(p: Parents, f: map<Id, int>, top: Id, x: Id) returns (k: nat)
    requires Labelled(p, f) && x in p && Under(p, f, top, x)
    ensures Anc(p, x, k) == Some(top)
    decreases f[x]
  {
    if x == top {
      k := 0;
    } else {
      var above := UnderReaches(p, f, top, p[x].value);
      AncShift(p, x, above);
      k := above + 1;
    }
  }

  lemma {:induction false} ReachedIsUnder(p: Parents, f: map<Id, int>, top: Id, x: Id, k: nat)
    requires Labelled(p, f) && x in p && Anc(p, x, k) == Some(top)
    ensures Under(p, f, top, x)
    decreases k
  {
    if k > 0 {
      AncShift(p, x, k - 1);
      ReachedIsUnder(p, f, top, p[x].value, k - 1);
    }
  }

  lemma UnderIsReached(p: Parents, f: map<Id, int>, top: Id, x: Id)
    requires Labelled(p, f) && x in p
    ensures Under(p, f, top, x) <==> exists k: nat :: Anc(p, x, k) == Some(top)
  {
    if Under(p, f, top, x) { var k := UnderReaches(p, f, top, x); }
    if k: nat :| Anc(p, x, k) == Some(top) { ReachedIsUnder(p, f, top, x, k); }
  }

  lemma AncestorsAreWalked(p: Parents, f: map<Id, int>, top: Id, x: Id)
    requires Labelled(p, f) && x in p
    ensures top in Walk(p, Some(x), {}) <==> exists k: nat :: Anc(p, x, k) == Some(top)
  {
    LabelsMakeForest(p, f);
    WalkReachesTop(p, x);
    var walk := Walk(p, Some(x), {});
    if k: nat :| Anc(p, x, k) == Some(top) {
      if k >= |walk| { TopIsUnique(p, x, |walk|, k); }
      assert walk[k] == top;
    }
    if top in walk {
      var i :| 0 <= i < |walk| && walk[i] == top;
      assert Anc(p, x, i) == Some(top);
    }
  }

  /** A node below `top` is labelled at least as deep. */
  lemma {:induction false} UnderIsDeeper(p: Parents, f: map<Id, int>, top: Id, x: Id)
    requires Labelled(p, f) && x in p && Under(p, f, top, x)
    ensures top in p && f[top] <= f[x] && (f[top] == f[x] ==> x == top)
    decreases f[x]
  {
    if x != top { UnderIsDeeper(p, f, top, p[x].value); }
  }

  /** `h` is the number of levels of the subtree of `d`. */
  ghost predicate IsHeight(p: Parents, d: Id, h: nat) {
    && (exists x, k: nat :: x in p.Keys + {d} && Anc(p, x, k) == Some(d) && h == k + 1)
    && (forall x, k: nat :: x in p.Keys + {d} && Anc(p, x, k) == Some(d) ==> k + 1 <= h)
  }

  /** In terms of labels: the deepest node below `d`. */
  lemma HeightByLabels(p: Parents, f: map<Id, int>, d: Id, h: nat)
    requires Labelled(p, f) && d in p && IsHeight(p, d, h)
    ensures forall x :: x in p && Under(p, f, d, x) ==> f[x] + 1 <= f[d] + h
    ensures exists x :: x in p && Under(p, f, d, x) && f[x] + 1 == f[d] + h
  {
    forall x | x in p && Under(p, f, d, x) ensures f[x] + 1 <= f[d] + h {
      UnderIsAncestor(p, f, d, x);
      var k: nat :| Anc(p, x, k) == Some(d);
      LabelsCountDown(p, f, x, k);
    }
    var x, k: nat :| x in p.Keys + {d} && Anc(p, x, k) == Some(d) && h == k + 1;
    UnderIsAncestor(p, f, d, x);
    LabelsCountDown(p, f, x, k);
  }
}

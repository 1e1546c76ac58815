/** The stage computation of the Planner (`get_stage_id` in agents/planner.py).

    A plan is a map from a task id to the ids it depends on.  The source computes stages with
    a memo table shared by all calls and a `visited` set copied at every call, which cuts
    cycles.  `StageRun` is that computation as a function that threads the memo; `StagePass`
    is the same computation in the source's own form, a recursive method that updates the
    memo in place.  The independent notion is `LongestChain`, which knows no memo, no
    `visited` set and no order. */
module PlannerStages {
  import opened Sets

  type Id = string
  type Graph = map<Id, seq<Id>>
  type Memo = map<Id, nat>

  // ---------------------------------------------------------------- chains and cycles

  /** Every dependency names a task of the plan. */
  ghost predicate Closed(g: Graph) {
    forall t, d :: t in g && d in g[t] ==> d in g
  }

  /** w follows dependencies: each element depends on the next one. */
  ghost predicate Walk(g: Graph, w: seq<Id>) {
    && |w| > 0
    && (forall i :: 0 <= i < |w| ==> w[i] in g)
    && (forall i :: 0 <= i < |w| - 1 ==> w[i+1] in g[w[i]])
  }

  ghost predicate WalkFrom(g: Graph, w: seq<Id>, t: Id) {
    Walk(g, w) && w[0] == t
  }

  ghost predicate Acyclic(g: Graph) {
    forall w :: Walk(g, w) && |w| >= 2 ==> w[0] != w[|w|-1]
  }

  /** t transitively depends on u. */
  ghost predicate Reaches(g: Graph, t: Id, u: Id) {
    exists w :: WalkFrom(g, w, t) && |w| >= 2 && w[|w|-1] == u
  }

  /** k is the number of tasks on a longest dependency chain that starts at t. */
  ghost predicate LongestChain(g: Graph, t: Id, k: nat) {
    && (exists w :: WalkFrom(g, w, t) && |w| == k)
    && (forall w :: WalkFrom(g, w, t) ==> |w| <= k)
  }

  ghost predicate ChainAtMost(g: Graph, t: Id, m: nat) {
    exists k: nat :: k <= m && LongestChain(g, t, k)
  }

  lemma LongestChainIsUnique(g: Graph, t: Id, j: nat, k: nat)
    requires LongestChain(g, t, j) && LongestChain(g, t, k)
    ensures j == k
  {
    var v :| WalkFrom(g, v, t) && |v| == j;
    var w :| WalkFrom(g, w, t) && |w| == k;
  }

  // ---------------------------------------------------------------- the computation

  datatype Run = Run(stage: nat, memo: Memo)

  function Max(a: nat, b: nat): nat { if a >= b then a else b }

  /** One call of `get_stage_id`. */
  function StageRun(g: Graph, memo: Memo, visited: set<Id>, t: Id): Run
    decreases g.Keys - visited, 1, 0
  {
    if t in memo then Run(memo[t], memo)
    else if t in visited then Run(1, memo)
    else if t !in g then Run(1, memo)
    else if g[t] == [] then Run(1, memo[t := 1])
    else
      assert t in g.Keys - visited;
      var r := DepsRun(g, memo, visited + {t}, g[t], 0);
      Run(r.stage + 1, r.memo[t := r.stage + 1])
  }

  /** The loop over the dependencies of one task. */
  function DepsRun(g: Graph, memo: Memo, visited: set<Id>, deps: seq<Id>, best: nat): Run
    decreases g.Keys - visited, 2, |deps|
  {
    if deps == [] then Run(best, memo)
    else
      var r := StageRun(g, memo, visited, deps[0]);
      DepsRun(g, r.memo, visited, deps[1..], Max(best, r.stage))
  }

  /** The loop of `invoke` over the steps of the plan, in plan order. */
  function PlanRun(g: Graph, memo: Memo, order: seq<Id>): Memo
    decreases |order|
  {
    if order == [] then memo
    else PlanRun(g, StageRun(g, memo, {}, order[0]).memo, order[1..])
  }

  // ---------------------------------------------------------------- any plan, cycles included

  ghost predicate Extends(m: Memo, m': Memo) {
    forall x :: x in m ==> x in m' && m'[x] == m[x]
  }

  /** Every memoised id is a task, and a stage of 3 or more rests on a dependency one below. */
  ghost predicate Grounded(g: Graph, m: Memo) {
    forall t :: t in m ==> t in g && 1 <= m[t] && (m[t] >= 3 ==> RestsOn(g, m, t, m[t] - 1))
  }

  ghost predicate RestsOn(g: Graph, m: Memo, t: Id, k: nat)
    requires t in g
  {
    SomeAt(g[t], m, k)
  }

  /** One of the given ids is memoised with stage k. */
  ghost predicate SomeAt(ids: seq<Id>, m: Memo, k: nat) {
    exists d :: d in ids && d in m && m[d] == k
  }

  lemma GroundedAdd(g: Graph, m: Memo, t: Id, k: nat)
    requires Grounded(g, m) && t !in m && t in g && k >= 1
    requires k >= 3 ==> RestsOn(g, m, t, k - 1)
    ensures Grounded(g, m[t := k]) && Extends(m, m[t := k])
  {
    var m' := m[t := k];
    forall x | x in m' && m'[x] >= 3 ensures RestsOn(g, m', x, m'[x] - 1) {
      var d :| d in g[x] && d in m && m[d] == m'[x] - 1;
      assert m'[d] == m[d];
    }
  }

  /** The memo only gains entries, and none for an id under visit. */
  ghost predicate Grows(m: Memo, m': Memo, visited: set<Id>) {
    Extends(m, m') && forall v :: v in visited && v in m' ==> v in m
  }

  lemma GrowsOn(m: Memo, m': Memo, m'': Memo, visited: set<Id>)
    requires Grows(m, m', visited) && Grows(m', m'', visited)
    ensures Grows(m, m'', visited)
  {
  }

  lemma GrowsByTask(m: Memo, m': Memo, visited: set<Id>, t: Id, k: nat)
    requires Grows(m, m', visited + {t}) && t !in m && t !in visited
    ensures t !in m' && Grows(m, m'[t := k], visited)
  {
    assert t in visited + {t};
    forall v | v in visited && v in m'[t := k] ensures v in m {
      assert v in visited + {t};
    }
  }

  /** After a call: the memo has grown and is grounded, and a stage of 2 or more is a memoised one. */
  ghost predicate CallDone(g: Graph, memo: Memo, visited: set<Id>, t: Id, r: Run) {
    && Grows(memo, r.memo, visited) && Grounded(g, r.memo)
    && 1 <= r.stage
    && (r.stage >= 2 || (t in g && t !in visited) ==> t in r.memo && r.memo[t] == r.stage)
  }

  /** After the loop over dependencies. */
  ghost predicate LoopDone(g: Graph, memo: Memo, visited: set<Id>, deps: seq<Id>, best: nat, r: Run) {
    && Grows(memo, r.memo, visited) && Grounded(g, r.memo)
    && best <= r.stage && (deps != [] ==> 1 <= r.stage)
    && (r.stage >= 2 && r.stage != best ==> SomeAt(deps, r.memo, r.stage))
  }

  lemma CallFromLoop(g: Graph, memo: Memo, visited: set<Id>, t: Id, r: Run)
    requires t in g && t !in memo && t !in visited && g[t] != []
    requires LoopDone(g, memo, visited + {t}, g[t], 0, r)
    ensures CallDone(g, memo, visited, t, Run(r.stage + 1, r.memo[t := r.stage + 1]))
  {
    GrowsByTask(memo, r.memo, visited, t, r.stage + 1);
    GroundedAdd(g, r.memo, t, r.stage + 1);
  }

  lemma LoopFromCall(g: Graph, memo: Memo, visited: set<Id>, deps: seq<Id>, best: nat, r: Run, r': Run)
    requires deps != [] && CallDone(g, memo, visited, deps[0], r)
    requires LoopDone(g, r.memo, visited, deps[1..], Max(best, r.stage), r')
    ensures LoopDone(g, memo, visited, deps, best, r')
  {
    GrowsOn(memo, r.memo, r'.memo, visited);
    if r'.stage >= 2 && r'.stage != best {
      if r'.stage == r.stage {
        assert deps[0] in deps && r'.memo[deps[0]] == r'.stage;
      } else {
        SomeAtTail(deps, r'.memo, r'.stage);
      }
    }
  }

  lemma SomeAtTail(deps: seq<Id>, m: Memo, k: nat)
    requires deps != [] && SomeAt(deps[1..], m, k)
    ensures SomeAt(deps, m, k)
  {
    var d :| d in deps[1..] && d in m && m[d] == k;
    assert d in deps;
  }

  lemma {:induction false} StageRunIsGrounded(g: Graph, memo: Memo, visited: set<Id>, t: Id)
    requires Grounded(g, memo)
    ensures CallDone(g, memo, visited, t, StageRun(g, memo, visited, t))
    decreases g.Keys - visited, 1, 0
  {
    if t in memo || t in visited || t !in g {
    } else if g[t] == [] {
      GroundedAdd(g, memo, t, 1);
    } else {
      assert t in g.Keys - visited;
      DepsRunIsGrounded(g, memo, visited + {t}, g[t], 0);
      CallFromLoop(g, memo, visited, t, DepsRun(g, memo, visited + {t}, g[t], 0));
    }
  }

  lemma {:induction false} DepsRunIsGrounded(g: Graph, memo: Memo, visited: set<Id>, deps: seq<Id>, best: nat)
    requires Grounded(g, memo)
    ensures LoopDone(g, memo, visited, deps, best, DepsRun(g, memo, visited, deps, best))
    decreases g.Keys - visited, 2, |deps|
  {
    if deps != [] {
      StageRunIsGrounded(g, memo, visited, deps[0]);
      var r := StageRun(g, memo, visited, deps[0]);
      DepsRunIsGrounded(g, r.memo, visited, deps[1..], Max(best, r.stage));
      LoopFromCall(g, memo, visited, deps, best, r, DepsRun(g, memo, visited, deps, best));
    }
  }

  lemma {:induction false} PlanRunIsGrounded(g: Graph, memo: Memo, order: seq<Id>)
    requires Grounded(g, memo)
    ensures var m := PlanRun(g, memo, order);
      Extends(memo, m) && Grounded(g, m) && forall t :: t in order && t in g ==> t in m
    decreases |order|
  {
    if order != [] {
      StageRunIsGrounded(g, memo, {}, order[0]);
      PlanRunIsGrounded(g, StageRun(g, memo, {}, order[0]).memo, order[1..]);
    }
  }

  /** The stages that lead down from t to stage 2 are held by distinct tasks. */
  lemma {:induction false} StagesBelow(g: Graph, m: Memo, t: Id) returns (held: set<Id>)
    requires Grounded(g, m) && t in m
    ensures held <= m.Keys && |held| == m[t] - 1
    ensures forall x :: x in held ==> m[x] <= m[t]
    decreases m[t]
  {
    if m[t] == 1 {
      held := {};
    } else if m[t] == 2 {
      held := {t};
    } else {
      var d :| d in g[t] && d in m && m[d] == m[t] - 1;
      held := StagesBelow(g, m, d);
      assert t !in held;
      held := held + {t};
    }
  }

  /** On any plan, whatever its cycles and the order of its steps, every task gets a stage
      between 1 and n+1, and no stage from 2 up to it is skipped. */
  lemma StagesAreBounded(g: Graph, order: seq<Id>, t: Id)
    requires forall x :: x in g <==> x in order
    requires t in g
    ensures var m := PlanRun(g, map[], order);
      && m.Keys == g.Keys
      && 1 <= m[t] <= |g| + 1
      && (m[t] >= 3 ==> RestsOn(g, m, t, m[t] - 1))
  {
    PlanRunIsGrounded(g, map[], order);
    var m := PlanRun(g, map[], order);
    var held := StagesBelow(g, m, t);
    SubsetSize(held, g.Keys);
  }

  // ---------------------------------------------------------------- acyclic plans

  ghost predicate Exact(g: Graph, m: Memo) {
    forall t :: t in m ==> t in g && LongestChain(g, t, m[t])
  }

  lemma ExactAdd(g: Graph, m: Memo, t: Id, k: nat)
    requires Exact(g, m) && t in g && LongestChain(g, t, k)
    ensures Exact(g, m[t := k])
  {
  }

  /** The ids under visit are exactly those of a walk that leads to the current task. */
  ghost predicate Trail(g: Graph, visited: set<Id>, path: seq<Id>) {
    && (path != [] ==> Walk(g, path))
    && (forall v :: v in visited <==> v in path)
  }

  lemma WalkSuffix(g: Graph, w: seq<Id>, i: nat)
    requires Walk(g, w) && i < |w|
    ensures Walk(g, w[i..])
  {
    forall j | 0 <= j < |w[i..]| - 1 ensures w[i..][j+1] in g[w[i..][j]] {
      assert w[i..][j] == w[i+j] && w[i..][j+1] == w[i+j+1];
    }
  }

  lemma WalkStep(g: Graph, w: seq<Id>)
    requires Walk(g, w) && |w| >= 2
    ensures w[1] in g[w[0]]
  {
    assert w[0+1] in g[w[0]];
  }

  lemma WalkSnoc(g: Graph, path: seq<Id>, t: Id)
    requires t in g && (path != [] ==> Walk(g, path) && t in g[path[|path|-1]])
    ensures Walk(g, path + [t])
  {
  }

  lemma WalkCons(g: Graph, t: Id, w: seq<Id>)
    requires t in g && Walk(g, w) && w[0] in g[t]
    ensures Walk(g, [t] + w)
  {
    var v := [t] + w;
    forall j | 0 <= j < |v| - 1 ensures v[j+1] in g[v[j]] {
      if j > 0 { assert v[j] == w[j-1] && v[j+1] == w[j]; }
    }
  }

  /** On an acyclic plan the cycle guard never fires: t cannot already be under visit. */
  lemma NotUnderVisit(g: Graph, visited: set<Id>, path: seq<Id>, t: Id)
    requires Acyclic(g) && Trail(g, visited, path)
    requires Walk(g, path + [t])
    ensures t !in visited
  {
    if t in visited {
      var i :| 0 <= i < |path| && path[i] == t;
      WalkSuffix(g, path + [t], i);
      assert false;
    }
  }

  /** m bounds, and one of the dependencies reaches, the chains below t. */
  lemma ChainAbove(g: Graph, t: Id, m: nat)
    requires t in g && g[t] != []
    requires exists d :: d in g[t] && LongestChain(g, d, m)
    requires forall d :: d in g[t] ==> ChainAtMost(g, d, m)
    ensures LongestChain(g, t, m + 1)
  {
    var d :| d in g[t] && LongestChain(g, d, m);
    var w :| WalkFrom(g, w, d) && |w| == m;
    WalkCons(g, t, w);
    assert WalkFrom(g, [t] + w, t) && |[t] + w| == m + 1;
    forall v | WalkFrom(g, v, t) ensures |v| <= m + 1 {
      if |v| > 1 {
        var e := v[1];
        assert v[0+1] in g[v[0]];
        var k: nat :| k <= m && LongestChain(g, e, k);
        WalkSuffix(g, v, 1);
        assert WalkFrom(g, v[1..], e);
      }
    }
  }

  lemma ChainOfLeaf(g: Graph, t: Id)
    requires t in g && g[t] == []
    ensures LongestChain(g, t, 1)
  {
    assert WalkFrom(g, [t], t);
    forall v | WalkFrom(g, v, t) ensures |v| <= 1 {
      if |v| > 1 {
        WalkStep(g, v);
        assert false;
      }
    }
  }

  /** On an acyclic plan one call gives the longest chain, whatever the exact memo it starts from. */
  lemma {:induction false} StageRunIsLongestChain(g: Graph, memo: Memo, visited: set<Id>, t: Id, path: seq<Id>)
    requires Closed(g) && Acyclic(g) && Exact(g, memo)
    requires Trail(g, visited, path) && t in g && Walk(g, path + [t])
    ensures var r := StageRun(g, memo, visited, t);
      Exact(g, r.memo) && LongestChain(g, t, r.stage)
    decreases g.Keys - visited, 1, 0
  {
    if t in memo {
    } else {
      NotUnderVisit(g, visited, path, t);
      if g[t] == [] {
        ChainOfLeaf(g, t);
        ExactAdd(g, memo, t, 1);
      } else {
        assert t in g.Keys - visited;
        DepsRunIsLongestChain(g, memo, visited + {t}, t, g[t], 0, path + [t]);
        var r := DepsRun(g, memo, visited + {t}, g[t], 0);
        ChainAbove(g, t, r.stage);
        ExactAdd(g, r.memo, t, r.stage + 1);
      }
    }
  }

  lemma {:induction false} DepsRunIsLongestChain(
      g: Graph, memo: Memo, visited: set<Id>, t: Id, deps: seq<Id>, best: nat, path: seq<Id>)
    requires Closed(g) && Acyclic(g) && Exact(g, memo)
    requires Trail(g, visited, path) && path != [] && path[|path|-1] == t && t in g
    requires forall d :: d in deps ==> d in g[t]
    ensures var r := DepsRun(g, memo, visited, deps, best);
      && Exact(g, r.memo) && best <= r.stage
      && (r.stage != best || (best == 0 && deps != []) ==>
            exists d :: d in deps && LongestChain(g, d, r.stage))
      && (forall d :: d in deps ==> ChainAtMost(g, d, r.stage))
    decreases g.Keys - visited, 2, |deps|
  {
    if deps != [] {
      var d := deps[0];
      assert d in deps && d in g[t] && d in g;
      WalkSnoc(g, path, d);
      StageRunIsLongestChain(g, memo, visited, d, path);
      var r := StageRun(g, memo, visited, d);
      assert r.stage >= 1 by { var w :| WalkFrom(g, w, d) && |w| == r.stage; }
      var best' := Max(best, r.stage);
      DepsRunIsLongestChain(g, r.memo, visited, t, deps[1..], best', path);
      var r' := DepsRun(g, memo, visited, deps, best);
      assert r' == DepsRun(g, r.memo, visited, deps[1..], best');
      forall e | e in deps ensures ChainAtMost(g, e, r'.stage) {
        if e == d { assert r.stage <= r'.stage; } else { assert e in deps[1..]; }
      }
      if r'.stage != best' {
        var e :| e in deps[1..] && LongestChain(g, e, r'.stage);
        assert e in deps;
      }
    }
  }

  lemma {:induction false} PlanRunIsExact(g: Graph, memo: Memo, order: seq<Id>)
    requires Closed(g) && Acyclic(g) && Exact(g, memo)
    requires forall t :: t in order ==> t in g
    ensures Exact(g, PlanRun(g, memo, order))
    decreases |order|
  {
    if order != [] {
      var t := order[0];
      assert t in order;
      assert [] + [t] == [t];
      StageRunIsLongestChain(g, memo, {}, t, []);
      PlanRunIsExact(g, StageRun(g, memo, {}, t).memo, order[1..]);
    }
  }

  /** Memoised equals pure: on an acyclic plan every task gets the length of its longest
      dependency chain, in whatever order the steps come. */
  lemma StagesAreLongestChains(g: Graph, order: seq<Id>, t: Id)
    requires Closed(g) && Acyclic(g)
    requires forall x :: x in g <==> x in order
    requires t in g
    ensures var m := PlanRun(g, map[], order);
      t in m && LongestChain(g, t, m[t])
  {
    PlanRunIsGrounded(g, map[], order);
    PlanRunIsExact(g, map[], order);
  }

  lemma StagesIgnoreTheOrder(g: Graph, order: seq<Id>, order': seq<Id>, t: Id)
    requires Closed(g) && Acyclic(g) && t in g
    requires forall x :: x in g <==> x in order
    requires forall x :: x in g <==> x in order'
    ensures var m, m' := PlanRun(g, map[], order), PlanRun(g, map[], order');
      t in m && t in m' && m[t] == m'[t]
  {
    StagesAreLongestChains(g, order, t);
    StagesAreLongestChains(g, order', t);
    LongestChainIsUnique(g, t, PlanRun(g, map[], order)[t], PlanRun(g, map[], order')[t]);
  }

  // ---------------------------------------------------------------- edges and stages

  ghost predicate EdgesGoUp(g: Graph, m: Memo) {
    forall t, d :: t in g && d in g[t] ==> t in m && d in m && m[d] < m[t]
  }

  lemma {:induction false} WalkGoesDown(g: Graph, m: Memo, w: seq<Id>)
    requires EdgesGoUp(g, m) && Walk(g, w) && |w| >= 2
    ensures w[0] in m && w[|w|-1] in m && m[w[|w|-1]] < m[w[0]]
    decreases |w|
  {
    var t, d := w[0], w[1];
    WalkStep(g, w);
    assert t in m && d in m && m[d] < m[t];
    if |w| == 2 {
      assert w[|w|-1] == d;
    } else {
      WalkSuffix(g, w, 1);
      WalkGoesDown(g, m, w[1..]);
      assert w[1..][|w[1..]|-1] == w[|w|-1];
    }
  }

  /** Every dependency is on a strictly lower stage exactly when the plan has no cycle. */
  lemma EdgesGoUpIffAcyclic(g: Graph, order: seq<Id>)
    requires Closed(g)
    requires forall x :: x in g <==> x in order
    ensures EdgesGoUp(g, PlanRun(g, map[], order)) <==> Acyclic(g)
  {
    var m := PlanRun(g, map[], order);
    if EdgesGoUp(g, m) {
      forall w | Walk(g, w) && |w| >= 2 ensures w[0] != w[|w|-1] {
        WalkGoesDown(g, m, w);
      }
    }
    if Acyclic(g) {
      forall t, d | t in g && d in g[t] ensures t in m && d in m && m[d] < m[t] {
        StagesAreLongestChains(g, order, t);
        StagesAreLongestChains(g, order, d);
        var w :| WalkFrom(g, w, d) && |w| == m[d];
        WalkCons(g, t, w);
        assert WalkFrom(g, [t] + w, t);
      }
    }
  }

  /** Tasks of one stage never wait for each other, so a stage can run in parallel. */
  lemma OneStageIsIndependent(g: Graph, order: seq<Id>, t: Id, u: Id)
    requires Closed(g) && Acyclic(g)
    requires forall x :: x in g <==> x in order
    requires t in g && u in g
    requires var m := PlanRun(g, map[], order); t in m && u in m && m[t] <= m[u]
    ensures !Reaches(g, t, u)
  {
    EdgesGoUpIffAcyclic(g, order);
    if Reaches(g, t, u) {
      var w :| WalkFrom(g, w, t) && |w| >= 2 && w[|w|-1] == u;
      WalkGoesDown(g, PlanRun(g, map[], order), w);
    }
  }

  // ---------------------------------------------------------------- the bound is reached

  function Elements(s: seq<Id>): set<Id> { set x | x in s }

  /** g is the plan in which c[0] depends on c[1], and so on, the last task closing the cycle. */
  ghost predicate IsCycle(g: Graph, c: seq<Id>) {
    && |c| > 0
    && (forall i, j :: 0 <= i < j < |c| ==> c[i] != c[j])
    && (forall x :: x in g <==> x in c)
    && (forall i :: 0 <= i < |c| ==> g[c[i]] == [c[if i + 1 < |c| then i + 1 else 0]])
  }

  lemma {:induction false} CycleFrom(g: Graph, c: seq<Id>, i: nat)
    requires IsCycle(g, c) && i < |c|
    ensures StageRun(g, map[], Elements(c[..i]), c[i]).stage == |c| - i + 1
    decreases |c| - i
  {
    var visited := Elements(c[..i]);
    var next := c[if i + 1 < |c| then i + 1 else 0];
    assert c[i] in c && c[i] !in visited;
    assert visited + {c[i]} == Elements(c[..i+1]);
    assert DepsRun(g, map[], visited + {c[i]}, [next], 0).stage
        == StageRun(g, map[], visited + {c[i]}, next).stage by {
      assert [next][1..] == [];
      StageRunIsGrounded(g, map[], visited + {c[i]}, next);
    }
    if i + 1 < |c| {
      CycleFrom(g, c, i + 1);
    } else {
      assert c[0] in c[..i+1];
    }
  }

  /** The bound n+1 of `StagesAreBounded` is reached: on a cycle of n tasks the cycle guard
      counts the first task twice and it gets stage n+1. */
  lemma CycleReachesTheBound(g: Graph, c: seq<Id>)
    requires IsCycle(g, c)
    ensures c[0] in PlanRun(g, map[], c) && PlanRun(g, map[], c)[c[0]] == |c| + 1
  {
    assert c[0] in c && Elements(c[..0]) == {};
    CycleFrom(g, c, 0);
    StageRunIsGrounded(g, map[], {}, c[0]);
    PlanRunIsGrounded(g, StageRun(g, map[], {}, c[0]).memo, c[1..]);
  }

  // ---------------------------------------------------------------- the source's own form

  /** The closure of `invoke`: `memo_stages`, shared by all calls and updated in place. */
  class StagePass {
    const taskById: Graph
    var memoStages: Memo

    constructor (taskById: Graph)
      ensures this.taskById == taskById && memoStages == map[]
    {
      this.taskById := taskById;
      memoStages := map[];
    }

    method GetStageId(t: Id, visited: set<Id>) returns (stage: nat)
      modifies this
      ensures Run(stage, memoStages) == StageRun(taskById, old(memoStages), visited, t)
      decreases taskById.Keys - visited
    {
      if t in memoStages { return memoStages[t]; }
      if t in visited { return 1; }
      if t !in taskById { return 1; }
      var deps := taskById[t];
      if deps == [] {
        memoStages := memoStages[t := 1];
        return 1;
      }
      ghost var target := DepsRun(taskById, memoStages, visited + {t}, deps, 0);
      assert t in taskById.Keys - visited;
      var maxDepStage: nat := 0;
      for i := 0 to |deps|
        invariant DepsRun(taskById, memoStages, visited + {t}, deps[i..], maxDepStage) == target
      {
        var s := GetStageId(deps[i], visited + {t});
        assert deps[i..][1..] == deps[i+1..];
        maxDepStage := if maxDepStage >= s then maxDepStage else s;
      }
      memoStages := memoStages[t := maxDepStage + 1];
      return maxDepStage + 1;
    }
  }

  /** What the loop over the steps writes into them, in plan order. */
  function StageIds(g: Graph, memo: Memo, order: seq<Id>): (stages: seq<nat>)
    ensures |stages| == |order|
    decreases |order|
  {
    if order == [] then []
    else
      var r := StageRun(g, memo, {}, order[0]);
      [r.stage] + StageIds(g, r.memo, order[1..])
  }

  lemma TopCallIsKept(g: Graph, memo: Memo, t: Id, rest: seq<Id>)
    requires Grounded(g, memo) && t in g
    ensures var r := StageRun(g, memo, {}, t);
      && Grounded(g, r.memo)
      && t in PlanRun(g, r.memo, rest)
      && PlanRun(g, r.memo, rest)[t] == r.stage
  {
    StageRunIsGrounded(g, memo, {}, t);
    var r := StageRun(g, memo, {}, t);
    PlanRunIsGrounded(g, r.memo, rest);
  }

  lemma {:induction false} StageIdsAreTheMemo(g: Graph, memo: Memo, order: seq<Id>, i: nat)
    requires Grounded(g, memo) && i < |order| && (forall x :: x in order ==> x in g)
    ensures order[i] in PlanRun(g, memo, order)
    ensures StageIds(g, memo, order)[i] == PlanRun(g, memo, order)[order[i]]
    decreases |order|
  {
    TopCallIsKept(g, memo, order[0], order[1..]);
    if i > 0 {
      assert order[i] == order[1..][i-1];
      StageIdsAreTheMemo(g, StageRun(g, memo, {}, order[0]).memo, order[1..], i - 1);
    }
  }

  method AssignStages(taskById: Graph, order: seq<Id>) returns (stages: seq<nat>)
    ensures stages == StageIds(taskById, map[], order)
  {
    var pass := new StagePass(taskById);
    stages := [];
    for i := 0 to |order|
      invariant fresh(pass) && pass.taskById == taskById
      invariant stages + StageIds(taskById, pass.memoStages, order[i..]) == StageIds(taskById, map[], order)
    {
      var s := pass.GetStageId(order[i], {});
      assert order[i..][1..] == order[i+1..];
      stages := stages + [s];
    }
  }
}

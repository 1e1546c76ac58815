/** The Planner's chain in `invoke` (agents/planner.py): rename the ids, cut the dependencies on
    missing steps, compute the stages, add a verification task.  The theorems speak of the plan
    as the model wrote it, before any renaming. */
module PlannerPipeline {
  import opened Wrappers
  import opened PlannerStages
  import opened PlannerTaskIds
  import opened Text

  /** `task_by_id`: for a repeated id the last step wins. */
  function TaskById(plan: Plan, n: nat): Graph
    requires n <= |plan|
  {
    if n == 0 then map[] else TaskById(plan, n - 1)[plan[n-1].taskId := plan[n-1].dependsOn]
  }

  function Dependencies(plan: Plan): Graph { TaskById(plan, |plan|) }

  lemma {:induction false} TaskByIdEntries(plan: Plan, n: nat)
    requires n <= |plan|
    ensures forall i :: 0 <= i < n ==> plan[i].taskId in TaskById(plan, n)
    ensures forall t :: t in TaskById(plan, n) ==>
      exists i :: 0 <= i < n && plan[i].taskId == t && plan[i].dependsOn == TaskById(plan, n)[t]
  {
    if n > 0 {
      TaskByIdEntries(plan, n - 1);
      forall t | t in TaskById(plan, n)
        ensures exists i :: 0 <= i < n && plan[i].taskId == t && plan[i].dependsOn == TaskById(plan, n)[t]
      {
        if t == plan[n-1].taskId {
          assert plan[n-1].taskId == t;
        } else {
          var i :| 0 <= i < n - 1 && plan[i].taskId == t && plan[i].dependsOn == TaskById(plan, n - 1)[t];
        }
      }
    }
  }

  lemma KeysAreIds(plan: Plan)
    ensures forall t :: t in Dependencies(plan) <==> t in RawIds(plan)
  {
    TaskByIdEntries(plan, |plan|);
    forall t | t in Dependencies(plan) ensures t in RawIds(plan) {
      var i :| 0 <= i < |plan| && plan[i].taskId == t && plan[i].dependsOn == Dependencies(plan)[t];
      assert RawIds(plan)[i] == t;
    }
    forall t | t in RawIds(plan) ensures t in Dependencies(plan) {
      var i :| 0 <= i < |plan| && RawIds(plan)[i] == t;
      assert plan[i].taskId == t;
    }
  }

  /** After the cut every dependency names a step, even when ids are repeated. */
  lemma PrunedIsClosed(plan: Plan)
    ensures Closed(Dependencies(Pruned(plan)))
  {
    var p := Pruned(plan);
    var g := Dependencies(p);
    TaskByIdEntries(p, |p|);
    KeysAreIds(p);
    assert RawIds(p) == RawIds(plan);
    forall t, d | t in g && d in g[t] ensures d in g {
      var i :| 0 <= i < |p| && p[i].taskId == t && p[i].dependsOn == g[t];
      KeptMembers(plan[i].dependsOn, RawIds(plan), d);
    }
  }

  // ---------------------------------------------------------------- renamed graphs

  function Image(f: map<Id, Id>, s: seq<Id>): (r: seq<Id>)
    requires forall x :: x in s ==> x in f
    ensures |r| == |s| && forall i {:trigger r[i]} :: 0 <= i < |s| ==> r[i] == f[s[i]]
  {
    seq(|s|, i requires 0 <= i < |s| => f[s[i]])
  }

  /** f carries g onto g', tasks and dependencies alike. */
  ghost predicate Isomorphism(f: map<Id, Id>, g: Graph, g': Graph) {
    && Closed(g)
    && f.Keys == g.Keys
    && (forall x, y :: x in f && y in f && f[x] == f[y] ==> x == y)
    && (forall x :: x in f ==> f[x] in g')
    && (forall y :: y in g' ==> exists x :: x in f && f[x] == y)
    && (forall x :: x in g ==> g'[f[x]] == Image(f, g[x]))
  }

  lemma WalkRenamed(f: map<Id, Id>, g: Graph, g': Graph, w: seq<Id>)
    requires Isomorphism(f, g, g') && Walk(g, w)
    ensures Walk(g', Image(f, w))
  {
    var v := Image(f, w);
    forall i | 0 <= i < |v| - 1 ensures v[i+1] in g'[v[i]] {
      var deps := g[w[i]];
      assert w[i+1] in deps;
      var k :| 0 <= k < |deps| && deps[k] == w[i+1];
      assert Image(f, deps)[k] == v[i+1];
    }
  }

  lemma WalkPulledBack(f: map<Id, Id>, g: Graph, g': Graph, v: seq<Id>) returns (w: seq<Id>)
    requires Isomorphism(f, g, g') && Walk(g', v)
    ensures Walk(g, w) && Image(f, w) == v
  {
    w := [];
    for n := 0 to |v|
      invariant |w| == n && forall i :: 0 <= i < n ==> w[i] in f && f[w[i]] == v[i]
    {
      assert v[n] in g';
      var x :| x in f && f[x] == v[n];
      w := w + [x];
    }
    forall i | 0 <= i < |w| - 1 ensures w[i+1] in g[w[i]] {
      var deps := g[w[i]];
      assert v[i+1] in g'[v[i]];
      var k :| 0 <= k < |deps| && Image(f, deps)[k] == v[i+1];
      assert deps[k] in g[w[i]];
    }
  }

  lemma AcyclicRenamed(f: map<Id, Id>, g: Graph, g': Graph)
    requires Isomorphism(f, g, g')
    ensures Acyclic(g) <==> Acyclic(g')
  {
    if Acyclic(g) {
      forall v | Walk(g', v) && |v| >= 2 ensures v[0] != v[|v|-1] {
        var w := WalkPulledBack(f, g, g', v);
        assert w[0] in f && w[|w|-1] in f;
      }
    }
    if Acyclic(g') {
      forall w | Walk(g, w) && |w| >= 2 ensures w[0] != w[|w|-1] {
        WalkRenamed(f, g, g', w);
        assert Image(f, w)[0] == f[w[0]] && Image(f, w)[|w|-1] == f[w[|w|-1]];
      }
    }
  }

  lemma LongestChainRenamed(f: map<Id, Id>, g: Graph, g': Graph, t: Id, k: nat)
    requires Isomorphism(f, g, g') && t in g && LongestChain(g', f[t], k)
    ensures LongestChain(g, t, k)
  {
    var v :| WalkFrom(g', v, f[t]) && |v| == k;
    var w := WalkPulledBack(f, g, g', v);
    assert w[0] in f && f[w[0]] == Image(f, w)[0];
    assert WalkFrom(g, w, t);
    forall u | WalkFrom(g, u, t) ensures |u| <= k {
      WalkRenamed(f, g, g', u);
      assert WalkFrom(g', Image(f, u), f[t]);
    }
  }

  // ---------------------------------------------------------------- the renaming is one

  /** No dependency on a missing step has a slug that is the new id of a step. */
  predicate NoStray(plan: Plan) {
    forall i, k :: 0 <= i < |plan| && 0 <= k < |plan[i].dependsOn| && plan[i].dependsOn[k] !in RawIds(plan) ==>
      Slug(plan[i].dependsOn[k]) !in NewIds(plan)
  }

  function Renaming(plan: Plan): map<Id, Id> {
    map raw | raw in RawIds(plan) :: NewId(plan, raw)
  }

  lemma NewIdIsKnown(plan: Plan, raw: string)
    requires raw in RawIds(plan)
    ensures NewId(plan, raw) in NewIds(plan)
  {
    var i :| 0 <= i < |plan| && RawIds(plan)[i] == raw;
    assert NewIds(plan)[i] == NewId(plan, raw);
  }

  /** f is the renaming on the known ids, and what it does not know stays unknown. */
  ghost predicate Separates(table: map<string, string>, f: map<Id, Id>, known: seq<Id>, known': seq<Id>, d: Id) {
    if d in known then d in f && f[d] == Renamed(table, d) && f[d] in known' else Renamed(table, d) !in known'
  }

  /** Cutting after renaming keeps the renamed form of what cutting before would keep. */
  lemma {:induction false} KeptCommutes(
      table: map<string, string>, f: map<Id, Id>, known: seq<Id>, known': seq<Id>, deps: seq<string>)
    requires forall d :: d in deps ==> Separates(table, f, known, known', d)
    ensures forall d :: d in Kept(deps, known) ==> d in f
    ensures Kept(RenamedAll(table, deps), known') == Image(f, Kept(deps, known))
  {
    if deps != [] {
      var d := deps[0];
      assert d in deps && Separates(table, f, known, known', d);
      KeptCommutes(table, f, known, known', deps[1..]);
      assert RenamedAll(table, deps)[1..] == RenamedAll(table, deps[1..]);
      assert RenamedAll(table, deps)[0] == Renamed(table, d);
    }
  }

  lemma {:induction false} TaskByIdOfDistinct(plan: Plan, n: nat, i: nat)
    requires i < n <= |plan| && Distinct(RawIds(plan))
    ensures plan[i].taskId in TaskById(plan, n) && TaskById(plan, n)[plan[i].taskId] == plan[i].dependsOn
  {
    if i < n - 1 {
      TaskByIdOfDistinct(plan, n - 1, i);
      assert RawIds(plan)[i] != RawIds(plan)[n-1];
    }
  }

  lemma RenamedStep(plan: Plan, i: nat)
    requires i < |plan| && NoStray(plan)
    ensures forall d :: d in Pruned(plan)[i].dependsOn ==> d in Renaming(plan)
    ensures Pruned(Normalized(plan))[i].dependsOn == Image(Renaming(plan), Pruned(plan)[i].dependsOn)
  {
    var deps := plan[i].dependsOn;
    forall d | d in deps ensures Separates(IdTable(plan), Renaming(plan), RawIds(plan), NewIds(plan), d) {
      var k :| 0 <= k < |deps| && deps[k] == d;
      if d in RawIds(plan) { NewIdIsKnown(plan, d); } else { IdOfRaw(plan, d); }
    }
    KeptCommutes(IdTable(plan), Renaming(plan), RawIds(plan), NewIds(plan), deps);
  }

  lemma OneToOne(keys: seq<Id>, ids: seq<Id>, f: map<Id, Id>)
    requires |keys| == |ids| && Distinct(ids)
    requires forall x :: x in f <==> x in keys
    requires forall i :: 0 <= i < |keys| ==> f[keys[i]] == ids[i]
    ensures forall x, y :: x in f && y in f && f[x] == f[y] ==> x == y
    ensures forall y :: y in ids ==> exists x :: x in f && f[x] == y
  {
    forall x, y | x in f && y in f && f[x] == f[y] ensures x == y {
      var i :| 0 <= i < |keys| && keys[i] == x;
      var j :| 0 <= j < |keys| && keys[j] == y;
    }
    forall y | y in ids ensures exists x :: x in f && f[x] == y {
      var i :| 0 <= i < |ids| && ids[i] == y;
      assert keys[i] in f;
    }
  }

  lemma RenamingGivesNewIds(plan: Plan)
    ensures forall i :: 0 <= i < |plan| ==> Renaming(plan)[RawIds(plan)[i]] == NewIds(plan)[i]
  {
  }

  lemma RenamedDependencies(plan: Plan, x: Id)
    requires Distinct(RawIds(plan)) && Distinct(NewIds(plan)) && NoStray(plan)
    requires x in RawIds(plan)
    ensures var g, g' := Dependencies(Pruned(plan)), Dependencies(Pruned(Normalized(plan)));
      && x in g && NewId(plan, x) in g'
      && (forall d :: d in g[x] ==> d in Renaming(plan))
      && g'[NewId(plan, x)] == Image(Renaming(plan), g[x])
  {
    var p, p' := Pruned(plan), Pruned(Normalized(plan));
    assert RawIds(p) == RawIds(plan) && RawIds(p') == NewIds(plan);
    var i :| 0 <= i < |plan| && RawIds(plan)[i] == x;
    TaskByIdOfDistinct(p, |p|, i);
    TaskByIdOfDistinct(p', |p'|, i);
    RenamedStep(plan, i);
  }

  /** Renaming, then cutting, carries the known part of the raw plan over unchanged. */
  lemma RenamingIsIsomorphism(plan: Plan)
    requires Distinct(RawIds(plan)) && NoClash(plan) && NoStray(plan)
    ensures CarriesOver(plan)
  {
    var f, g, g' := Renaming(plan), Dependencies(Pruned(plan)), Dependencies(Pruned(Normalized(plan)));
    NewIdsAreUniqueIff(plan);
    RenamingGivesNewIds(plan);
    OneToOne(RawIds(plan), NewIds(plan), f);
    PrunedIsClosed(plan);
    SameKeys(plan);
    forall x | x in g ensures f[x] in g' && g'[f[x]] == Image(f, g[x]) { RenamedDependencies(plan, x); }
  }

  ghost predicate CarriesOver(plan: Plan) {
    Isomorphism(Renaming(plan), Dependencies(Pruned(plan)), Dependencies(Pruned(Normalized(plan))))
  }

  /** Cutting after renaming keeps at least what cutting before keeps, and more if a dependency that is
      unknown before is known after. */
  lemma {:induction false} StrayIsKept(
      table: map<string, string>, known: seq<Id>, known': seq<Id>, deps: seq<string>, stray: Option<nat>)
    requires forall d :: d in deps && d in known ==> Renamed(table, d) in known'
    requires stray.Some? ==>
      stray.value < |deps| && deps[stray.value] !in known && Renamed(table, deps[stray.value]) in known'
    ensures |Kept(RenamedAll(table, deps), known')| >= |Kept(deps, known)| + if stray.Some? then 1 else 0
  {
    if deps != [] {
      var rest := if stray.Some? && stray.value > 0 then Some(stray.value - 1) else None;
      StrayIsKept(table, known, known', deps[1..], rest);
      assert RenamedAll(table, deps)[1..] == RenamedAll(table, deps[1..]);
      assert RenamedAll(table, deps)[0] == Renamed(table, deps[0]);
      assert deps[0] in deps;
    }
  }

  lemma CarriedOverIdsAreDistinct(plan: Plan)
    requires Distinct(RawIds(plan)) && CarriesOver(plan)
    ensures Distinct(NewIds(plan))
  {
    var f := Renaming(plan);
    RenamingGivesNewIds(plan);
    forall i, j | 0 <= i < j < |plan| ensures NewIds(plan)[i] != NewIds(plan)[j] {
      var x, y := RawIds(plan)[i], RawIds(plan)[j];
      assert x in f && y in f && x != y;
    }
  }

  lemma CarriedOverHasNoStray(plan: Plan)
    requires Distinct(RawIds(plan)) && Distinct(NewIds(plan)) && CarriesOver(plan)
    ensures NoStray(plan)
  {
    var f, p, p' := Renaming(plan), Pruned(plan), Pruned(Normalized(plan));
    forall i: nat, k: nat | i < |plan| && k < |plan[i].dependsOn| && plan[i].dependsOn[k] !in RawIds(plan)
      ensures Slug(plan[i].dependsOn[k]) !in NewIds(plan)
    {
      var deps, x := plan[i].dependsOn, plan[i].taskId;
      assert RawIds(plan)[i] == x && RawIds(p) == RawIds(plan) && RawIds(p') == NewIds(plan);
      RenamingGivesNewIds(plan);
      TaskByIdOfDistinct(p, |p|, i);
      TaskByIdOfDistinct(p', |p'|, i);
      assert p'[i].dependsOn == Image(f, p[i].dependsOn);
      forall d | d in deps && d in RawIds(plan) ensures Renamed(IdTable(plan), d) in NewIds(plan) {
        NewIdIsKnown(plan, d);
      }
      IdOfRaw(plan, deps[k]);
      if Slug(deps[k]) in NewIds(plan) {
        StrayIsKept(IdTable(plan), RawIds(plan), NewIds(plan), deps, Some(k));
        assert false;
      }
    }
  }

  /** For distinct raw ids the prepared plan is the raw plan under other names exactly when no slug
      clashes with a generated suffix and no unknown dependency slugs into a new id. */
  lemma RenamingIsIsomorphismIff(plan: Plan)
    requires Distinct(RawIds(plan))
    ensures CarriesOver(plan) <==> NoClash(plan) && NoStray(plan)
  {
    NewIdsAreUniqueIff(plan);
    if NoClash(plan) && NoStray(plan) {
      RenamingIsIsomorphism(plan);
    }
    if CarriesOver(plan) {
      CarriedOverIdsAreDistinct(plan);
      CarriedOverHasNoStray(plan);
    }
  }

  function Prepared(plan: Plan): Plan { Pruned(Normalized(plan)) }

  lemma {:induction false} KeptTwice(deps: seq<string>, known: seq<string>)
    ensures Kept(Kept(deps, known), known) == Kept(deps, known)
  {
    if deps != [] {
      KeptTwice(deps[1..], known);
      var rest := Kept(deps[1..], known);
      if deps[0] in known {
        assert Kept(deps, known) == [deps[0]] + rest && ([deps[0]] + rest)[1..] == rest;
      } else {
        assert Kept(deps, known) == rest;
      }
    }
  }

  lemma PrunedIsSlugged(plan: Plan)
    requires Slugged(plan)
    ensures Slugged(Pruned(plan)) && RawIds(Pruned(plan)) == RawIds(plan) && Pruned(Pruned(plan)) == Pruned(plan)
  {
    var p := Pruned(plan);
    assert RawIds(p) == RawIds(plan);
    forall i | 0 <= i < |plan|
      ensures IsSlug(p[i].taskId) && (forall d :: d in p[i].dependsOn ==> IsSlug(d)) && Pruned(p)[i] == p[i]
    {
      forall d | d in p[i].dependsOn ensures IsSlug(d) { KeptMembers(plan[i].dependsOn, RawIds(plan), d); }
      KeptTwice(plan[i].dependsOn, RawIds(plan));
    }
  }

  /** Preparing a prepared plan changes nothing, exactly when the first pass gave distinct ids. */
  lemma PreparingIsIdempotentIff(plan: Plan)
    ensures Prepared(Prepared(plan)) == Prepared(plan) <==> Distinct(NewIds(plan))
  {
    var once := Prepared(plan);
    NormalizedIsSlugged(plan);
    PrunedIsSlugged(Normalized(plan));
    if Distinct(NewIds(plan)) {
      SluggedIsFixed(once);
    } else {
      RepeatedIdsChange(once);
      assert RawIds(Prepared(once)) == RawIds(Normalized(once));
    }
  }

  lemma SameKeys(plan: Plan)
    ensures forall x :: x in Dependencies(Pruned(plan)) <==> x in RawIds(plan)
    ensures forall x :: x in Dependencies(Pruned(Normalized(plan))) <==> x in NewIds(plan)
  {
    KeysAreIds(Pruned(plan));
    KeysAreIds(Pruned(Normalized(plan)));
    assert RawIds(Pruned(plan)) == RawIds(plan);
    assert RawIds(Pruned(Normalized(plan))) == NewIds(plan);
  }

  /** End to end: the stage a step receives is the length of the longest dependency chain of
      that step in the plan as it was written. */
  lemma StageOfRawStep(plan: Plan, i: nat)
    requires Distinct(RawIds(plan)) && NoClash(plan) && NoStray(plan)
    requires Acyclic(Dependencies(Pruned(plan)))
    requires i < |plan|
    ensures var final := Pruned(Normalized(plan));
      var stages := StageIds(Dependencies(final), map[], RawIds(final));
      |stages| == |plan| && LongestChain(Dependencies(Pruned(plan)), plan[i].taskId, stages[i])
  {
    var final := Pruned(Normalized(plan));
    var f, g, g' := Renaming(plan), Dependencies(Pruned(plan)), Dependencies(final);
    RenamingIsIsomorphism(plan);
    AcyclicRenamed(f, g, g');
    PrunedIsClosed(Normalized(plan));
    KeysAreIds(final);
    KeysAreIds(Pruned(plan));
    assert RawIds(final)[i] == final[i].taskId && RawIds(Pruned(plan))[i] == plan[i].taskId;
    StageIdsAreTheMemo(g', map[], RawIds(final), i);
    StagesAreLongestChains(g', RawIds(final), final[i].taskId);
    assert f[plan[i].taskId] == final[i].taskId;
    LongestChainRenamed(f, g, g', plan[i].taskId, PlanRun(g', map[], RawIds(final))[final[i].taskId]);
  }

  /** The three passes of `invoke`, in order. */
  method PreparePlan(raw: Plan, lower: Lowering) returns (plan: Plan, stages: seq<nat>)
    requires LowerOk(lower)
    ensures plan == Pruned(Normalized(raw))
    ensures stages == StageIds(Dependencies(plan), map[], RawIds(plan))
  {
    var renamed := NormalizeTaskIds(raw, lower);
    plan := PruneGhostDependencies(renamed);
    var taskById: Graph := map[];
    for i := 0 to |plan|
      invariant taskById == TaskById(plan, i)
    {
      taskById := taskById[plan[i].taskId := plan[i].dependsOn];
    }
    stages := AssignStages(taskById, RawIds(plan));
  }

  // ---------------------------------------------------------------- the verification task

  const VERIFY_PREFIX := "verify_"

  predicate IsVerify(id: Id) { VERIFY_PREFIX <= id }

  /** `verify_sdd_<seconds>` */
  function VerifyId(now: nat): Id { VERIFY_PREFIX + "sdd_" + Decimal(now) }

  /** The ids at the highest stage, in plan order. */
  function LastStage(ids: seq<Id>, stages: seq<nat>, top: nat): (r: seq<Id>)
    requires |ids| == |stages|
    ensures forall d :: d in r <==> exists i :: 0 <= i < |ids| && ids[i] == d && stages[i] == top
  {
    if ids == [] then []
    else
      var r := LastStage(ids[1..], stages[1..], top);
      assert forall i :: 0 < i < |ids| ==> ids[i] == ids[1..][i-1] && stages[i] == stages[1..][i-1];
      assert forall i :: 0 <= i < |ids[1..]| ==> ids[1..][i] == ids[i+1] && stages[1..][i] == stages[i+1];
      if stages[0] == top then [ids[0]] + r else r
  }

  function Highest(stages: seq<nat>): (r: nat)
    requires stages != []
    ensures r in stages && forall s :: s in stages ==> s <= r
  {
    if |stages| == 1 then stages[0]
    else
      assert stages == [stages[0]] + stages[1..];
      Max(stages[0], Highest(stages[1..]))
  }

  datatype Injection = NoInjection | Injected(id: Id, dependsOn: seq<Id>, stage: nat)

  /** The guard of `invoke`: a plan of several steps without a `verify_` step gets one, one stage
      above the highest and depending on the whole last stage. */
  function Inject(ids: seq<Id>, stages: seq<nat>, now: nat): Injection
    requires |ids| == |stages|
  {
    if (exists i :: 0 <= i < |ids| && IsVerify(ids[i])) || |ids| <= 1 then NoInjection
    else
      var top := Highest(stages);
      Injected(VerifyId(now), LastStage(ids, stages, top), top + 1)
  }

  /** A verification task is added exactly when the plan has several steps and none of them is one
      already; it stands one stage above the highest. */
  lemma InjectedIff(ids: seq<Id>, stages: seq<nat>, now: nat)
    requires |ids| == |stages|
    ensures Inject(ids, stages, now).Injected? <==>
      |ids| >= 2 && forall i :: 0 <= i < |ids| ==> !("verify_" <= ids[i])
    ensures Inject(ids, stages, now).Injected? ==>
      var v := Inject(ids, stages, now);
      && v.id == "verify_sdd_" + Decimal(now)
      && (exists i :: 0 <= i < |ids| && v.stage == stages[i] + 1)
      && (forall i :: 0 <= i < |ids| ==> stages[i] < v.stage)
      && (forall d :: d in v.dependsOn <==> exists i :: 0 <= i < |ids| && ids[i] == d && stages[i] == v.stage - 1)
  {
    if |ids| >= 2 {
      var top := Highest(stages);
      forall i | 0 <= i < |ids| ensures stages[i] <= top { assert stages[i] in stages; }
    }
    forall i | 0 <= i < |ids| ensures IsVerify(ids[i]) <==> "verify_" <= ids[i] { }
  }

  /** The last stage is listed in plan order. */
  lemma {:induction false} LastStageInOrder(ids: seq<Id>, stages: seq<nat>, top: nat, id: Id, stage: nat)
    requires |ids| == |stages|
    ensures LastStage(ids + [id], stages + [stage], top)
      == LastStage(ids, stages, top) + if stage == top then [id] else []
  {
    if ids != [] {
      LastStageInOrder(ids[1..], stages[1..], top, id, stage);
      assert (ids + [id])[1..] == ids[1..] + [id] && (stages + [stage])[1..] == stages[1..] + [stage];
    } else {
      assert (ids + [id])[1..] == [] && (stages + [stage])[1..] == [];
    }
  }

  lemma WalkIgnoresNewTask(g: Graph, v: Id, deps: seq<Id>, w: seq<Id>)
    requires Closed(g) && v !in g && |w| > 0 && w[0] in g
    ensures Walk(g[v := deps], w) <==> Walk(g, w)
  {
    var g' := g[v := deps];
    if Walk(g', w) {
      for i := 1 to |w|
        invariant forall j :: 0 <= j < i ==> w[j] in g
      {
        assert w[i-1+1] in g'[w[i-1]];
      }
      forall i | 0 <= i < |w| - 1 ensures w[i+1] in g[w[i]] { assert w[i+1] in g'[w[i]]; }
    }
    if Walk(g, w) {
      forall i | 0 <= i < |w| - 1 ensures w[i+1] in g'[w[i]] { assert w[i+1] in g[w[i]]; }
    }
  }

  lemma OldChainStays(g: Graph, v: Id, deps: seq<Id>, t: Id, n: nat)
    requires Closed(g) && v !in g && t in g && LongestChain(g, t, n)
    ensures LongestChain(g[v := deps], t, n)
  {
    var g' := g[v := deps];
    var w :| WalkFrom(g, w, t) && |w| == n;
    WalkIgnoresNewTask(g, v, deps, w);
    assert WalkFrom(g', w, t);
    forall u | WalkFrom(g', u, t) ensures |u| <= n {
      WalkIgnoresNewTask(g, v, deps, u);
      assert WalkFrom(g, u, t);
    }
  }

  lemma NewTaskClosesNoCycle(g: Graph, v: Id, deps: seq<Id>)
    requires Closed(g) && Acyclic(g) && v !in g && forall d :: d in deps ==> d in g
    ensures Acyclic(g[v := deps])
  {
    var g' := g[v := deps];
    forall w | Walk(g', w) && |w| >= 2 ensures w[0] != w[|w|-1] {
      if w[0] in g {
        WalkIgnoresNewTask(g, v, deps, w);
      } else {
        WalkStep(g', w);
        WalkSuffix(g', w, 1);
        WalkIgnoresNewTask(g, v, deps, w[1..]);
        assert w[|w|-1] == w[1..][|w[1..]|-1];
      }
    }
  }

  /** A new task above the whole last stage changes no longest chain, closes no cycle, and its own
      longest chain is one longer than the highest. */
  lemma NewTaskOnTop(g: Graph, m: Memo, v: Id, deps: seq<Id>, top: nat)
    requires Closed(g) && Acyclic(g) && v !in g
    requires forall t :: t in g ==> t in m && LongestChain(g, t, m[t]) && m[t] <= top
    requires deps != [] && forall d :: d in deps ==> d in g && m[d] == top
    ensures Acyclic(g[v := deps])
    ensures LongestChain(g[v := deps], v, top + 1)
    ensures forall t :: t in g ==> LongestChain(g[v := deps], t, m[t])
  {
    var g' := g[v := deps];
    forall t | t in g ensures LongestChain(g', t, m[t]) { OldChainStays(g, v, deps, t, m[t]); }
    forall d | d in g'[v] ensures ChainAtMost(g', d, top) { assert LongestChain(g', d, m[d]); }
    assert deps[0] in g'[v] && LongestChain(g', deps[0], top);
    ChainAbove(g', v, top);
    NewTaskClosesNoCycle(g, v, deps);
  }

  /** The stages as a memo, and what the injected task is made of in its terms. */
  lemma InjectionShape(ids: seq<Id>, stages: seq<nat>, now: nat) returns (m: Memo)
    requires |ids| == |stages| && Distinct(ids)
    requires Inject(ids, stages, now).Injected?
    ensures forall i :: 0 <= i < |ids| ==> ids[i] in m && m[ids[i]] == stages[i]
    ensures var v := Inject(ids, stages, now);
      && v.id !in ids
      && v.stage >= 1
      && v.dependsOn != []
      && (forall i :: 0 <= i < |ids| ==> m[ids[i]] < v.stage)
      && (forall d :: d in v.dependsOn ==> d in ids && d in m && m[d] == v.stage - 1)
  {
    m := map[];
    for n := 0 to |ids|
      invariant forall i :: 0 <= i < n ==> ids[i] in m && m[ids[i]] == stages[i]
    {
      m := m[ids[n] := stages[n]];
    }
    var v := Inject(ids, stages, now);
    assert IsVerify(v.id);
    var top := Highest(stages);
    var k :| 0 <= k < |stages| && stages[k] == top;
    assert ids[k] in v.dependsOn;
    forall i | 0 <= i < |ids| ensures m[ids[i]] < v.stage { assert stages[i] in stages; }
  }

  lemma IdsOfGraph(plan: Plan, m: Memo, top: nat)
    requires forall i :: 0 <= i < |plan| ==>
      var t := plan[i].taskId; t in m && LongestChain(Dependencies(plan), t, m[t]) && m[t] <= top
    ensures forall t :: t in Dependencies(plan) ==>
      t in m && LongestChain(Dependencies(plan), t, m[t]) && m[t] <= top
  {
    TaskByIdEntries(plan, |plan|);
  }

  /** On an acyclic plan the injected task keeps the plan acyclic, leaves every stage as it was,
      and the stage it is given is its longest chain, above every other task. */
  lemma InjectionExtendsThePlan(plan: Plan, stages: seq<nat>, now: nat)
    requires Distinct(RawIds(plan)) && Closed(Dependencies(plan)) && Acyclic(Dependencies(plan))
    requires |stages| == |plan|
    requires forall i :: 0 <= i < |plan| ==> LongestChain(Dependencies(plan), plan[i].taskId, stages[i])
    requires Inject(RawIds(plan), stages, now).Injected?
    ensures var g := Dependencies(plan);
      var v := Inject(RawIds(plan), stages, now);
      var g' := g[v.id := v.dependsOn];
      && v.id !in g
      && Acyclic(g')
      && LongestChain(g', v.id, v.stage)
      && forall i :: 0 <= i < |plan| ==>
           stages[i] < v.stage && LongestChain(g', plan[i].taskId, stages[i])
  {
    var g, v := Dependencies(plan), Inject(RawIds(plan), stages, now);
    var m := InjectionShape(RawIds(plan), stages, now);
    forall i | 0 <= i < |plan| ensures plan[i].taskId in m && m[plan[i].taskId] == stages[i] < v.stage {
      assert RawIds(plan)[i] == plan[i].taskId;
    }
    KeysAreIds(plan);
    IdsOfGraph(plan, m, v.stage - 1);
    NewTaskOnTop(g, m, v.id, v.dependsOn, v.stage - 1);
    forall i | 0 <= i < |plan| ensures LongestChain(g[v.id := v.dependsOn], plan[i].taskId, stages[i]) {
      assert RawIds(plan)[i] in g;
    }
  }

  // ---------------------------------------------------------------- on any plan, cycles included

  lemma {:induction false} StageRunIgnoresNew(g: Graph, v: Id, deps: seq<Id>, memo: Memo, visited: set<Id>, t: Id)
    requires Closed(g) && v !in g && t in g
    ensures StageRun(g[v := deps], memo, visited, t) == StageRun(g, memo, visited, t)
    decreases g.Keys - visited, 1, 0
  {
    if t !in memo && t !in visited && g[t] != [] {
      assert t in g.Keys - visited;
      DepsRunIgnoresNew(g, v, deps, memo, visited + {t}, g[t], 0);
    }
  }

  lemma {:induction false} DepsRunIgnoresNew(
      g: Graph, v: Id, deps: seq<Id>, memo: Memo, visited: set<Id>, ds: seq<Id>, best: nat)
    requires Closed(g) && v !in g && forall d :: d in ds ==> d in g
    ensures DepsRun(g[v := deps], memo, visited, ds, best) == DepsRun(g, memo, visited, ds, best)
    decreases g.Keys - visited, 2, |ds|
  {
    if ds != [] {
      StageRunIgnoresNew(g, v, deps, memo, visited, ds[0]);
      var r := StageRun(g, memo, visited, ds[0]);
      DepsRunIgnoresNew(g, v, deps, r.memo, visited, ds[1..], Max(best, r.stage));
    }
  }

  lemma {:induction false} StagesIgnoreNew(g: Graph, v: Id, deps: seq<Id>, memo: Memo, order: seq<Id>)
    requires Closed(g) && v !in g && forall x :: x in order ==> x in g
    ensures StageIds(g[v := deps], memo, order) == StageIds(g, memo, order)
    ensures PlanRun(g[v := deps], memo, order) == PlanRun(g, memo, order)
    decreases |order|
  {
    if order != [] {
      StageRunIgnoresNew(g, v, deps, memo, {}, order[0]);
      StagesIgnoreNew(g, v, deps, StageRun(g, memo, {}, order[0]).memo, order[1..]);
    }
  }

  lemma {:induction false} StageOfTheLast(g: Graph, memo: Memo, order: seq<Id>, x: Id)
    ensures StageIds(g, memo, order + [x])
      == StageIds(g, memo, order) + [StageRun(g, PlanRun(g, memo, order), {}, x).stage]
    decreases |order|
  {
    if order != [] {
      assert (order + [x])[1..] == order[1..] + [x];
      StageOfTheLast(g, StageRun(g, memo, {}, order[0]).memo, order[1..], x);
    }
  }

  lemma {:induction false} DepsAllAt(g: Graph, memo: Memo, visited: set<Id>, ds: seq<Id>, best: nat, top: nat)
    requires forall d :: d in ds ==> d in memo && memo[d] == top
    requires best <= top && (ds == [] ==> best == top)
    ensures DepsRun(g, memo, visited, ds, best) == Run(top, memo)
    decreases |ds|
  {
    if ds != [] {
      assert ds[0] in ds;
      DepsAllAt(g, memo, visited, ds[1..], Max(best, top), top);
    }
  }

  lemma RunsOnTop(g: Graph, memo: Memo, visited: set<Id>, v: Id, top: nat)
    requires v in g && v !in memo && v !in visited && g[v] != []
    requires forall d :: d in g[v] ==> d in memo && memo[d] == top
    ensures StageRun(g, memo, visited, v).stage == top + 1
  {
    DepsAllAt(g, memo, visited + {v}, g[v], 0, top);
  }

  /** The memo before the first task. */
  const FRESH: Memo := map[]

  /** The final memo holds the whole last stage, and not the injected task. */
  lemma LastStageIsMemoised(g: Graph, ids: seq<Id>, v: Injection, now: nat)
    requires (forall x :: x in g <==> x in ids)
    requires v == Inject(ids, StageIds(g, FRESH, ids), now) && v.Injected?
    ensures v.id !in g && v.id !in PlanRun(g, FRESH, ids) && v.dependsOn != [] && v.stage >= 1
    ensures forall d :: d in v.dependsOn ==> d in PlanRun(g, FRESH, ids) && PlanRun(g, FRESH, ids)[d] == v.stage - 1
  {
    var stages, memo := StageIds(g, FRESH, ids), PlanRun(g, FRESH, ids);
    assert IsVerify(v.id);
    StagesAreBounded(g, ids, ids[0]);
    var k :| 0 <= k < |stages| && stages[k] == v.stage - 1;
    assert ids[k] in v.dependsOn;
    forall d | d in v.dependsOn ensures d in memo && memo[d] == v.stage - 1 {
      var i: nat :| i < |ids| && ids[i] == d && stages[i] == v.stage - 1;
      StageIdsAreTheMemo(g, FRESH, ids, i);
    }
  }

  lemma InjectedStageIsAbove(ids: seq<Id>, stages: seq<nat>, now: nat)
    requires |ids| == |stages| && Inject(ids, stages, now).Injected?
    ensures IsVerify(Inject(ids, stages, now).id) && Inject(ids, stages, now).id !in ids
    ensures forall i :: 0 <= i < |ids| ==> stages[i] < Inject(ids, stages, now).stage
  {
    var v := Inject(ids, stages, now);
    assert IsVerify(v.id);
    forall i | 0 <= i < |ids| ensures stages[i] < v.stage { assert stages[i] in stages; }
  }

  /** On any plan, whatever its cycles: computed again with the injected task at its end, every stage
      comes out as it was, and the injected one as it was set, above all. */
  lemma InjectedStageIsRecomputed(g: Graph, ids: seq<Id>, stages: seq<nat>, now: nat)
    requires Closed(g) && (forall x :: x in g <==> x in ids)
    requires stages == StageIds(g, FRESH, ids) && Inject(ids, stages, now).Injected?
    ensures var v := Inject(ids, stages, now);
      && StageIds(g[v.id := v.dependsOn], FRESH, ids + [v.id]) == stages + [v.stage]
      && forall i :: 0 <= i < |ids| ==> stages[i] < v.stage
  {
    var v := Inject(ids, stages, now);
    InjectedStageIsAbove(ids, stages, now);
    StagesIgnoreNew(g, v.id, v.dependsOn, FRESH, ids);
    StageOfTheLast(g[v.id := v.dependsOn], FRESH, ids, v.id);
    LastStageIsMemoised(g, ids, v, now);
    RunsOnTop(g[v.id := v.dependsOn], PlanRun(g, FRESH, ids), {}, v.id, v.stage - 1);
  }
}

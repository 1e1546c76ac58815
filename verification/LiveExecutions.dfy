/** Executions that are really alive, beside the registry that is meant to stand for them
    (core/app_state.py).  An execution is born by an accepted `begin_execution` and dies by its own
    `end_execution`, which only knows the key of its session. */
module LiveExecutions {
  import opened Wrappers
  import opened ExecutionRegistry
  import opened ExecutionRuns

  datatype Live = Live(key: Key, since: Time)

  /** `live` is history: the program does not have it. */
  datatype World = World(app: Snapshot, live: map<nat, Live>, next: nat, clock: Time)

  datatype Act =
    | Tick(t: Time)
    | Start(key: Key, objective: string)
    | Finish(x: nat, status: Status, engine: Option<string>, message: Option<string>)
    | Touch(e: Event)        // a status set, a request begun or ended
    | Stop(status: Status, message: Option<string>)

  predicate Enabled(w: World, a: Act) {
    match a
    case Tick(t) => t >= w.clock
    case Finish(x, _, _, _) => x in w.live
    case Touch(e) => e.SetStatus? || e.BeginRequest? || e.EndRequest?
    case _ => true
  }

  function Do(c: Config, w: World, a: Act): World
    requires Enabled(w, a)
  {
    match a
    case Tick(t) => w.(clock := t)
    case Start(key, objective) =>
      var app' := Begun(w.app, key, objective, w.clock, c.ttl, c.cap);
      if ReplyTo(Cleaned(w.app, w.clock, c.ttl), key, c.cap).Accepted?
      then World(app', w.live[w.next := Live(key, w.clock)], w.next + 1, w.clock)
      else w.(app := app')
    case Finish(x, status, engine, message) =>
      w.(app := Ended(w.app, w.live[x].key, status, engine, message), live := w.live - {x})
    case Touch(e) => w.(app := Apply(c, w.app, e))
    case Stop(status, message) => w.(app := Cleared(w.app, status, message))
  }

  predicate Follows(c: Config, worlds: seq<World>, acts: seq<Act>, i: nat)
    requires |worlds| == |acts| + 1 && i < |acts|
  {
    Enabled(worlds[i], acts[i]) && worlds[i+1] == Do(c, worlds[i], acts[i])
  }

  ghost predicate IsHistory(c: Config, worlds: seq<World>, acts: seq<Act>) {
    && |worlds| == |acts| + 1
    && worlds[0].app == INITIAL && worlds[0].live == map[]
    && forall i: nat :: i < |acts| ==> Follows(c, worlds, acts, i)
  }

  // ---------------------------------------------------------------- the registry stands for the live

  predicate Stands(w: World, x: nat) {
    && x in w.live && x < w.next
    && w.live[x].key in w.app.registry
    && w.app.registry[w.live[x].key].startedAt == Some(w.live[x].since)
  }

  /** No session has two live executions. */
  ghost predicate Exclusive(w: World) {
    forall x, y :: x in w.live && y in w.live && w.live[x].key == w.live[y].key ==> x == y
  }

  ghost predicate Owned(w: World, k: Key) { exists x :: Stands(w, x) && w.live[x].key == k }

  ghost predicate Faithful(w: World) {
    && (forall x :: x in w.live ==> Stands(w, x))
    && Exclusive(w)
    && (forall k :: k in w.app.registry ==> Owned(w, k))
  }

  /** No live execution has outlived the TTL. */
  ghost predicate Timely(c: Config, w: World) {
    forall x :: x in w.live ==> w.clock - w.live[x].since <= c.ttl
  }

  lemma NothingToPurge(c: Config, w: World)
    requires Faithful(w) && Timely(c, w)
    ensures Alive(w.app.registry, w.clock, c.ttl) == w.app.registry
  {
    forall k | k in w.app.registry ensures !Stale(w.app.registry[k], w.clock, c.ttl) {
      var x :| Stands(w, x) && w.live[x].key == k;
    }
  }

  lemma StartKeepsFaith(c: Config, w: World, key: Key, objective: string)
    requires Faithful(w) && Timely(c, w)
    ensures Faithful(Do(c, w, Start(key, objective)))
  {
    NothingToPurge(c, w);
    var w' := Do(c, w, Start(key, objective));
    forall k | k in w'.app.registry ensures Owned(w', k) {
      if k in w.app.registry {
        var x :| Stands(w, x) && w.live[x].key == k;
        assert Stands(w', x);
      } else {
        assert Stands(w', w.next);
      }
    }
    forall x | x in w'.live ensures Stands(w', x) { assert x in w.live ==> Stands(w, x); }
  }

  lemma FinishKeepsFaith(c: Config, w: World, a: Act)
    requires Faithful(w) && Enabled(w, a) && a.Finish?
    ensures Faithful(Do(c, w, a))
  {
    var w' := Do(c, w, a);
    assert w'.app.registry == w.app.registry - {w.live[a.x].key};
    forall k | k in w'.app.registry ensures Owned(w', k) {
      var x :| Stands(w, x) && w.live[x].key == k;
      assert Stands(w', x);
    }
    forall x | x in w'.live ensures Stands(w', x) { assert Stands(w, x); }
  }

  lemma TouchKeepsStarts(c: Config, w: World, a: Act)
    requires Enabled(w, a) && (a.Touch? || a.Tick?)
    ensures var r, r' := w.app.registry, Do(c, w, a).app.registry;
      r'.Keys == r.Keys && forall k :: k in r ==> r'[k].startedAt == r[k].startedAt
    ensures Do(c, w, a).live == w.live && Do(c, w, a).next == w.next
  {
  }

  lemma TouchKeepsFaith(c: Config, w: World, a: Act)
    requires Faithful(w) && Enabled(w, a) && (a.Touch? || a.Tick?)
    ensures Faithful(Do(c, w, a))
  {
    var w' := Do(c, w, a);
    TouchKeepsStarts(c, w, a);
    forall k | k in w'.app.registry ensures Owned(w', k) {
      var x :| Stands(w, x) && w.live[x].key == k;
      assert Stands(w', x);
    }
    forall x | x in w'.live ensures Stands(w', x) { assert Stands(w, x); }
  }

  lemma {:induction false} NoMoreThanKeys(live: map<nat, Live>, keys: set<Key>)
    requires forall x :: x in live ==> live[x].key in keys
    requires forall x, y :: x in live && y in live && live[x].key == live[y].key ==> x == y
    ensures |live| <= |keys|
    decreases |keys|
  {
    if live != map[] {
      assert live.Keys != {};
      var x :| x in live.Keys;
      var rest := live - {x};
      assert rest.Keys == live.Keys - {x};
      NoMoreThanKeys(rest, keys - {live[x].key});
    }
  }

  lemma FaithIsKept(c: Config, w: World, a: Act)
    requires Faithful(w) && Timely(c, w) && Enabled(w, a) && !a.Stop?
    ensures Faithful(Do(c, w, a))
  {
    if a.Start? {
      StartKeepsFaith(c, w, a.key, a.objective);
    } else if a.Finish? {
      FinishKeepsFaith(c, w, a);
    } else {
      TouchKeepsFaith(c, w, a);
    }
  }

  /** What an act does to the registry is one of its operations. */
  function OperationOf(w: World, a: Act): Option<Event>
    requires Enabled(w, a)
  {
    match a
    case Tick(_) => None
    case Start(key, objective) => Some(Begin(key, objective, w.clock))
    case Finish(x, status, engine, message) => Some(End(w.live[x].key, status, engine, message))
    case Touch(e) => Some(e)
    case Stop(status, message) => Some(Clear(status, message))
  }

  lemma ActIsItsOperation(c: Config, w: World, a: Act)
    requires Enabled(w, a)
    ensures Do(c, w, a).app == if OperationOf(w, a).Some? then Apply(c, w.app, OperationOf(w, a).value) else w.app
  {
  }

  lemma CapIsKept(c: Config, w: World, a: Act)
    requires |w.app.registry| <= c.cap && Enabled(w, a)
    ensures |Do(c, w, a).app.registry| <= c.cap
  {
    ActIsItsOperation(c, w, a);
    if OperationOf(w, a).Some? { SizeIsKept(c, w.app, OperationOf(w, a).value); }
  }

  /** If every execution ends within the TTL and nobody stops the server's work from outside, then
      in every run no session ever has two live executions, at most `cap` are alive, and the
      registry holds exactly the sessions of the live ones. */
  lemma {:induction false} LiveExecutionsAreExclusive(c: Config, worlds: seq<World>, acts: seq<Act>, i: nat)
    requires IsHistory(c, worlds, acts) && i < |worlds|
    requires forall j :: 0 <= j < i ==> Timely(c, worlds[j]) && !acts[j].Stop?
    ensures Faithful(worlds[i])
    ensures |worlds[i].live| <= |worlds[i].app.registry| <= c.cap
  {
    if i > 0 {
      assert Follows(c, worlds, acts, i - 1);
      LiveExecutionsAreExclusive(c, worlds, acts, i - 1);
      FaithIsKept(c, worlds[i-1], acts[i-1]);
      CapIsKept(c, worlds[i-1], acts[i-1]);
    }
    LiveAtMostRegistry(worlds[i]);
  }

  lemma LiveAtMostRegistry(w: World)
    requires Faithful(w)
    ensures |w.live| <= |w.app.registry|
  {
    forall x | x in w.live ensures w.live[x].key in w.app.registry.Keys { assert Stands(w, x); }
    NoMoreThanKeys(w.live, w.app.registry.Keys);
  }

  // ---------------------------------------------------------------- beyond the TTL

  ghost predicate Numbered(w: World) { forall x :: x in w.live ==> x < w.next }

  /** Whatever the registry has become, after clears and late ends too: a start breaks the exclusivity
      of a session exactly when the session has a live execution, its entry is gone or stale, and the
      purge leaves a place. */
  lemma StartBreaksExclusivityIff(c: Config, w: World, key: Key, objective: string)
    requires Exclusive(w) && Numbered(w)
    ensures Exclusive(Do(c, w, Start(key, objective))) <==>
      !((exists x :: x in w.live && w.live[x].key == key)
        && (key in w.app.registry ==> Stale(w.app.registry[key], w.clock, c.ttl))
        && |Alive(w.app.registry, w.clock, c.ttl)| < c.cap)
  {
    var w' := Do(c, w, Start(key, objective));
    assert Cleaned(w.app, w.clock, c.ttl).registry == Alive(w.app.registry, w.clock, c.ttl);
    assert w.next !in w.live;
    if x :| x in w.live && w.live[x].key == key {
      if w.next in w'.live { assert w'.live[w.next].key == w'.live[x].key && x in w'.live; }
    }
  }

  /** Without anyone outliving the TTL: a session starts, the registry is cleared, it starts again. */
  lemma ClearAdmitsASecond(c: Config, key: Key, status: Status, message: Option<string>)
      returns (worlds: seq<World>, acts: seq<Act>)
    requires c.cap >= 1 && c.ttl >= 0.0
    ensures IsHistory(c, worlds, acts) && acts == [Start(key, ""), Stop(status, message), Start(key, "")]
    ensures forall i :: 0 <= i < |worlds| ==> Timely(c, worlds[i])
    ensures Exclusive(worlds[2]) && !Exclusive(worlds[3])
  {
    var w0 := World(INITIAL, map[], 0, 0.0);
    StartIsAccepted(c, w0.app, key, 0.0);
    var w1 := Do(c, w0, Start(key, ""));
    var w2 := Do(c, w1, Stop(status, message));
    StartIsAccepted(c, w2.app, key, 0.0);
    var w3 := Do(c, w2, Start(key, ""));
    assert w3.live == map[0 := Live(key, 0.0), 1 := Live(key, 0.0)];
    assert w3.live[0].key == w3.live[1].key;
    worlds, acts := [w0, w1, w2, w3], [Start(key, ""), Stop(status, message), Start(key, "")];
  }

  lemma StaleSessionIsAdmitted(c: Config, w: World, key: Key)
    requires c.cap >= 1 && w.app.registry.Keys == {key} && Stale(w.app.registry[key], w.clock, c.ttl)
    ensures var w' := Do(c, w, Start(key, ""));
      && w'.app.registry == map[key := Entry(Running, "", None, Some(w.clock))]
      && w'.live == w.live[w.next := Live(key, w.clock)] && w'.next == w.next + 1 && w'.clock == w.clock
      && w'.app.active == w.app.active && (w.app.active == 0 ==> !w'.app.pendingError)
  {
    assert key in w.app.registry && Alive(w.app.registry, w.clock, c.ttl) == map[];
  }

  /** The run of a session whose execution outlives the TTL: it is admitted again, and when the old
      execution ends it takes the entry of the new one with it. */
  lemma OldEndPopsTheNewEntry(c: Config, key: Key) returns (worlds: seq<World>, acts: seq<Act>)
    requires c.cap >= 1 && c.ttl >= 0.0
    ensures IsHistory(c, worlds, acts) && |worlds| == 5
    ensures !Exclusive(worlds[3])
    ensures worlds[4].live.Keys == {1} && worlds[4].live[1].key == key
    ensures worlds[4].app.registry == map[] && worlds[4].app.view.status.Success?
    ensures !Exclusive(Do(c, worlds[4], Start(key, "")))
  {
    var late := c.ttl + 1.0;
    var w0 := World(INITIAL, map[], 0, 0.0);
    StartIsAccepted(c, w0.app, key, 0.0);
    var w1 := Do(c, w0, Start(key, ""));
    var w2 := Do(c, w1, Tick(late));
    StaleSessionIsAdmitted(c, w2, key);
    var w3 := Do(c, w2, Start(key, ""));
    assert w3.live == map[0 := Live(key, 0.0), 1 := Live(key, late)];
    var w4 := Do(c, w3, Finish(0, Success, None, None));
    assert w4.app.registry == map[] && w4.live == map[1 := Live(key, late)];
    StartIsAccepted(c, w4.app, key, late);
    var w5 := Do(c, w4, Start(key, ""));
    assert w5.live[1].key == w5.live[2].key;
    worlds, acts := [w0, w1, w2, w3, w4], [Start(key, ""), Tick(late), Start(key, ""), Finish(0, Success, None, None)];
  }
}

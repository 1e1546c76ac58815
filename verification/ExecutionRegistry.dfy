/** The execution registry of the server (core/app_state.py, class AppState): who may run, how many
    requests are in flight, and the aggregate status shown to the clients.

    `Snapshot` is the state as a value and each function what one operation makes of it; the class
    `AppState` updates the same fields in place.  The asyncio lock makes every operation atomic. */
module ExecutionRegistry {
  import opened Wrappers

  type Time = real
  type Key = string

  datatype Status = Idle | Running | Success | Error | Other(name: string)

  datatype Entry = Entry(status: Status, objective: string, errorMessage: Option<string>, startedAt: Option<Time>)

  /** `execution_state`, the four keys of the aggregate view. */
  datatype View = View(status: Status, objective: string, engineState: Option<string>, errorMessage: Option<string>)

  /** pendingError is `_last_terminal_status == "error"`, its only other value being "idle". */
  datatype Snapshot = Snapshot(
    registry: map<Key, Entry>, active: nat, view: View, pendingError: bool, pendingMessage: Option<string>)

  datatype Reply = Accepted | DuplicateSession | CapReached

  const INITIAL := Snapshot(map[], 0, View(Idle, "", None, None), false, None)

  predicate Busy(s: Snapshot) { s.active > 0 || s.registry != map[] }

  // ---------------------------------------------------------------- the operations

  function FirstOf(a: Option<string>, b: Option<string>): Option<string> {
    if a.Some? && a.value != "" then a else b
  }

  /** `_refresh_aggregate_locked` */
  function Refreshed(s: Snapshot, status: Status, message: Option<string>): Snapshot {
    if Busy(s) then
      var s' := if status.Error? then s.(pendingError := true, pendingMessage := message) else s;
      s'.(view := s.view.(status := Running))
    else
      s.(view := if s.pendingError
                 then s.view.(status := Error, errorMessage := FirstOf(s.pendingMessage, message))
                 else s.view.(status := status, errorMessage := message),
         pendingError := false, pendingMessage := None)
  }

  /** Only an entry whose age is known can be stale. */
  predicate Stale(e: Entry, now: Time, ttl: Time) { e.startedAt.Some? && e.startedAt.value < now - ttl }

  function Alive(registry: map<Key, Entry>, now: Time, ttl: Time): map<Key, Entry> {
    map k | k in registry && !Stale(registry[k], now, ttl) :: registry[k]
  }

  /** What is left when the keys of `todo` have not been looked at yet. */
  function AliveOr(all: map<Key, Entry>, todo: set<Key>, now: Time, ttl: Time): map<Key, Entry> {
    map k | k in all && (k in todo || !Stale(all[k], now, ttl)) :: all[k]
  }

  lemma AliveOrStep(all: map<Key, Entry>, todo: set<Key>, k: Key, now: Time, ttl: Time)
    requires k in todo && todo <= all.Keys
    ensures var before, after := AliveOr(all, todo, now, ttl), AliveOr(all, todo - {k}, now, ttl);
      if Stale(all[k], now, ttl) then after == before - {k} && k in before && k !in after && after != all
      else after == before
  {
    var before, after := AliveOr(all, todo, now, ttl), AliveOr(all, todo - {k}, now, ttl);
    if Stale(all[k], now, ttl) { assert k in all && k !in after; }
  }

  /** `_cleanup_stale_entries_locked` */
  function Cleaned(s: Snapshot, now: Time, ttl: Time): Snapshot {
    var alive := Alive(s.registry, now, ttl);
    if alive == s.registry then s else Refreshed(s.(registry := alive), Idle, None)
  }

  function ReplyTo(s: Snapshot, key: Key, cap: nat): Reply {
    if key in s.registry then DuplicateSession else if |s.registry| >= cap then CapReached else Accepted
  }

  function Begun(s: Snapshot, key: Key, objective: string, now: Time, ttl: Time, cap: nat): Snapshot {
    var s' := Cleaned(s, now, ttl);
    if ReplyTo(s', key, cap).Accepted? then
      s'.(registry := s'.registry[key := Entry(Running, objective, None, Some(now))],
          view := View(Running, objective, None, None))
    else s'
  }

  /** The status posed on the entry, when terminal, wins over the one passed by the caller. */
  function EndStatus(s: Snapshot, key: Key, status: Status): Status {
    if key in s.registry && (s.registry[key].status.Success? || s.registry[key].status.Error?)
    then s.registry[key].status else status
  }

  function EndMessage(s: Snapshot, key: Key, message: Option<string>): Option<string> {
    if key in s.registry && (s.registry[key].status.Success? || s.registry[key].status.Error?)
    then FirstOf(s.registry[key].errorMessage, message) else message
  }

  function Ended(s: Snapshot, key: Key, status: Status, engine: Option<string>, message: Option<string>): Snapshot {
    var s' := s.(registry := s.registry - {key});
    var s'' := if s'.registry == map[] then s'.(view := s.view.(engineState := engine)) else s';
    Refreshed(s'', EndStatus(s, key, status), EndMessage(s, key, message))
  }

  function StatusSet(s: Snapshot, key: Key, status: Status): Snapshot {
    var s' := if key in s.registry then s.(registry := s.registry[key := s.registry[key].(status := status)]) else s;
    Refreshed(s', status, None)
  }

  function RequestBegun(s: Snapshot, objective: string): Snapshot {
    s.(active := s.active + 1,
       view := s.view.(status := Running, objective := if objective != "" then objective else s.view.objective))
  }

  function RequestEnded(s: Snapshot): Snapshot {
    Refreshed(s.(active := if s.active > 0 then s.active - 1 else 0), Idle, None)
  }

  function Cleared(s: Snapshot, status: Status, message: Option<string>): Snapshot {
    s.(registry := map[], pendingError := false, pendingMessage := None,
       view := s.view.(status := status, errorMessage := if message.Some? then message else s.view.errorMessage))
  }

  // ---------------------------------------------------------------- the object

  class AppState {
    const maxConcurrency: nat
    const staleTtl: Time
    var registry: map<Key, Entry>
    var activeRequests: nat
    var view: View
    var lastTerminalError: bool
    var lastMessage: Option<string>

    constructor (cap: nat, ttl: Time)
      ensures Now() == INITIAL && maxConcurrency == cap && staleTtl == ttl
    {
      maxConcurrency, staleTtl := cap, ttl;
      registry, activeRequests, view := map[], 0, View(Idle, "", None, None);
      lastTerminalError, lastMessage := false, None;
    }

    function Now(): Snapshot
      reads this
    {
      Snapshot(registry, activeRequests, view, lastTerminalError, lastMessage)
    }

    method RefreshAggregate(status: Status, message: Option<string>)
      modifies this
      ensures Now() == Refreshed(old(Now()), status, message)
    {
      if activeRequests > 0 || registry != map[] {
        if status.Error? { lastTerminalError, lastMessage := true, message; }
        view := view.(status := Running);
        return;
      }
      if lastTerminalError {
        view := view.(status := Error, errorMessage := FirstOf(lastMessage, message));
      } else {
        view := view.(status := status, errorMessage := message);
      }
      lastTerminalError, lastMessage := false, None;
    }

    method CleanupStaleEntries(now: Time)
      modifies this
      ensures Now() == Cleaned(old(Now()), now, staleTtl)
      ensures forall k :: k in registry <==>
        && k in old(registry)
        && !(old(registry)[k].startedAt.Some? && old(registry)[k].startedAt.value < now - staleTtl)
      ensures forall k :: k in registry ==> registry[k] == old(registry)[k]
    {
      if registry == map[] { assert Alive(registry, now, staleTtl) == registry; return; }
      ghost var all := registry;
      var todo, purged := registry.Keys, false;
      while todo != {}
        invariant todo <= all.Keys
        invariant activeRequests == old(activeRequests) && view == old(view)
        invariant lastTerminalError == old(lastTerminalError) && lastMessage == old(lastMessage)
        invariant registry == AliveOr(all, todo, now, staleTtl)
        invariant purged <==> registry != all
        decreases |todo|
      {
        var k :| k in todo;
        AliveOrStep(all, todo, k, now, staleTtl);
        todo := todo - {k};
        if Stale(registry[k], now, staleTtl) {
          registry := registry - {k};
          purged := true;
        }
      }
      assert registry == Alive(all, now, staleTtl);
      if purged { RefreshAggregate(Idle, None); }
    }

    method BeginExecution(key: Key, objective: string, now: Time) returns (reply: Reply)
      modifies this
      ensures reply == ReplyTo(Cleaned(old(Now()), now, staleTtl), key, maxConcurrency)
      ensures Now() == Begun(old(Now()), key, objective, now, staleTtl, maxConcurrency)
      ensures reply.DuplicateSession? <==>
        && key in old(registry)
        && !(old(registry)[key].startedAt.Some? && old(registry)[key].startedAt.value < now - staleTtl)
      ensures reply.CapReached? ==> |registry| >= maxConcurrency && key !in registry
      ensures reply.Accepted? ==>
        && key in registry && |registry| <= maxConcurrency && view == View(Running, objective, None, None)
        && registry[key] == Entry(Running, objective, None, Some(now))
    {
      CleanupStaleEntries(now);
      if key in registry { return DuplicateSession; }
      if |registry| >= maxConcurrency { return CapReached; }
      registry := registry[key := Entry(Running, objective, None, Some(now))];
      view := View(Running, objective, None, None);
      return Accepted;
    }

    method EndExecution(key: Key, status: Status, engine: Option<string>, message: Option<string>)
      modifies this
      ensures Now() == Ended(old(Now()), key, status, engine, message)
    {
      var final, finalMessage := status, message;
      var entry := if key in registry then Some(registry[key]) else None;
      registry := registry - {key};
      if entry.Some? && (entry.value.status.Success? || entry.value.status.Error?) {
        final := entry.value.status;
        finalMessage := FirstOf(entry.value.errorMessage, message);
      }
      assert final == EndStatus(old(Now()), key, status) && finalMessage == EndMessage(old(Now()), key, message);
      if registry == map[] { view := view.(engineState := engine); }
      RefreshAggregate(final, finalMessage);
    }

    method SetExecutionStatus(key: Key, status: Status)
      modifies this
      ensures Now() == StatusSet(old(Now()), key, status)
      ensures activeRequests == old(activeRequests)
      ensures registry ==
        if key in old(registry) then old(registry)[key := old(registry)[key].(status := status)] else old(registry)
    {
      if key in registry { registry := registry[key := registry[key].(status := status)]; }
      RefreshAggregate(status, None);
    }

    method BeginRequest(objective: string)
      modifies this
      ensures Now() == RequestBegun(old(Now()), objective)
      ensures activeRequests == old(activeRequests) + 1 && registry == old(registry)
      ensures view.status == Running && view.engineState == old(view.engineState)
      ensures view.errorMessage == old(view.errorMessage)
      ensures view.objective == if objective == "" then old(view.objective) else objective
    {
      activeRequests := activeRequests + 1;
      view := view.(status := Running);
      if objective != "" { view := view.(objective := objective); }
    }

    method EndRequest()
      modifies this
      ensures Now() == RequestEnded(old(Now()))
      ensures registry == old(registry)
      ensures activeRequests == if old(activeRequests) == 0 then 0 else old(activeRequests) - 1
    {
      if activeRequests > 0 { activeRequests := activeRequests - 1; }
      RefreshAggregate(Idle, None);
    }

    method ClearExecutions(status: Status, message: Option<string>)
      modifies this
      ensures Now() == Cleared(old(Now()), status, message)
      ensures registry == map[] && activeRequests == old(activeRequests)
      ensures view.status == status && view.objective == old(view.objective)
      ensures view.errorMessage == if message.Some? then message else old(view.errorMessage)
    {
      registry := map[];
      view := view.(status := status);
      if message.Some? { view := view.(errorMessage := message); }
      lastTerminalError, lastMessage := false, None;
    }
  }
}

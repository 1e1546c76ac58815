/** What the execution registry guarantees over whole runs (core/app_state.py). */
module ExecutionRuns {
  import opened Wrappers
  import opened ExecutionRegistry
  import opened Sets

  datatype Config = Config(cap: nat, ttl: Time)

  datatype Event =
    | Begin(key: Key, objective: string, now: Time)
    | End(key: Key, status: Status, engine: Option<string>, message: Option<string>)
    | SetStatus(key: Key, status: Status)
    | BeginRequest(objective: string)
    | EndRequest
    | Clear(status: Status, message: Option<string>)

  function Apply(c: Config, s: Snapshot, e: Event): Snapshot {
    match e
    case Begin(key, objective, now) => Begun(s, key, objective, now, c.ttl, c.cap)
    case End(key, status, engine, message) => Ended(s, key, status, engine, message)
    case SetStatus(key, status) => StatusSet(s, key, status)
    case BeginRequest(objective) => RequestBegun(s, objective)
    case EndRequest => RequestEnded(s)
    case Clear(status, message) => Cleared(s, status, message)
  }

  predicate Linked(c: Config, states: seq<Snapshot>, events: seq<Event>, i: nat)
    requires |states| == |events| + 1 && i < |events|
  {
    states[i+1] == Apply(c, states[i], events[i])
  }

  ghost predicate IsRun(c: Config, states: seq<Snapshot>, events: seq<Event>) {
    && |states| == |events| + 1
    && states[0] == INITIAL
    && forall i: nat :: i < |events| ==> Linked(c, states, events, i)
  }

  // ---------------------------------------------------------------- the status tells the truth

  predicate Truthful(s: Snapshot) { s.view.status.Running? <==> Busy(s) }

  /** The callers never pass `running` as the status of something that ends. */
  predicate Terminal(e: Event) {
    match e
    case End(_, status, _, _) => !status.Running?
    case SetStatus(_, status) => !status.Running?
    case Clear(status, _) => !status.Running?
    case _ => true
  }

  predicate RefusedQuietly(c: Config, s: Snapshot, e: Event) {
    && e.Begin? && Alive(s.registry, e.now, c.ttl) == s.registry && !ReplyTo(s, e.key, c.cap).Accepted?
  }

  /** One step: clearing under requests in flight is the only lie, a refusal that purges nothing
      leaves the status as it was, and everything else restores the truth whatever it was before. */
  lemma TruthAfterStep(c: Config, s: Snapshot, e: Event)
    requires Terminal(e)
    ensures Truthful(Apply(c, s, e)) <==>
      if e.Clear? then s.active == 0 else if RefusedQuietly(c, s, e) then Truthful(s) else true
  {
    if e.Begin? {
      var s' := Cleaned(s, e.now, c.ttl);
      if ReplyTo(s', e.key, c.cap).Accepted? { assert e.key in Apply(c, s, e).registry; }
    }
  }

  /** The last event that was not a quiet refusal cleared the registry under requests in flight. */
  predicate ClearedInFlight(c: Config, states: seq<Snapshot>, events: seq<Event>, i: nat)
    requires |states| == |events| + 1 && i < |states|
  {
    i > 0 && (
      if events[i-1].Clear? then states[i-1].active > 0
      else RefusedQuietly(c, states[i-1], events[i-1]) && ClearedInFlight(c, states, events, i - 1))
  }

  /** In every state of every run the status says `running` exactly when something runs, unless the
      registry was cleared during a request and nothing but refusals came since. */
  lemma {:induction false} StatusTellsTheTruthIff(c: Config, states: seq<Snapshot>, events: seq<Event>, i: nat)
    requires IsRun(c, states, events) && i < |states|
    requires forall j :: 0 <= j < |events| ==> Terminal(events[j])
    ensures Truthful(states[i]) <==> !ClearedInFlight(c, states, events, i)
  {
    if i > 0 {
      assert Linked(c, states, events, i - 1);
      StatusTellsTheTruthIff(c, states, events, i - 1);
      TruthAfterStep(c, states[i-1], events[i-1]);
    }
  }

  // ---------------------------------------------------------------- no masked error

  /** A refresh of this event carries `error`. */
  predicate CarriesError(s: Snapshot, e: Event) {
    match e
    case End(key, status, _, _) =>
      if key in s.registry && (s.registry[key].status.Success? || s.registry[key].status.Error?)
      then s.registry[key].status.Error? else status.Error?
    case SetStatus(_, status) => status.Error?
    case _ => false
  }

  /** The purge at the head of a `begin_execution` leaves nothing running. */
  predicate PurgesToIdle(c: Config, s: Snapshot, e: Event) {
    && e.Begin? && Alive(s.registry, e.now, c.ttl) != s.registry
    && Alive(s.registry, e.now, c.ttl) == map[] && s.active == 0
  }

  /** Some refresh among the events a..k-1 carried an error, and none since has purged the system
      to idle. */
  predicate ErrorSince(c: Config, states: seq<Snapshot>, events: seq<Event>, a: nat, k: nat)
    requires |states| == |events| + 1 && a <= k < |states|
    decreases k
  {
    k > a && !PurgesToIdle(c, states[k-1], events[k-1])
    && (CarriesError(states[k-1], events[k-1]) || ErrorSince(c, states, events, a, k - 1))
  }

  predicate MemoryOk(s: Snapshot) { !Busy(s) ==> !s.pendingError && s.pendingMessage.None? }

  lemma MemoryIsKept(c: Config, s: Snapshot, e: Event)
    requires MemoryOk(s)
    ensures MemoryOk(Apply(c, s, e))
  {
  }

  lemma {:induction false} MemoryOfARun(c: Config, states: seq<Snapshot>, events: seq<Event>, i: nat)
    requires IsRun(c, states, events) && i < |states|
    ensures MemoryOk(states[i])
  {
    if i > 0 {
      assert Linked(c, states, events, i - 1);
      MemoryOfARun(c, states, events, i - 1);
      MemoryIsKept(c, states[i-1], events[i-1]);
    }
  }

  ghost predicate Remembers(c: Config, s: Snapshot, e: Event) {
    var s' := Apply(c, s, e);
    var error := !PurgesToIdle(c, s, e) && (CarriesError(s, e) || s.pendingError);
    && (Busy(s') ==> s'.pendingError == error)
    && (Busy(s) && !Busy(s') && !PurgesToIdle(c, s, e) && Terminal(e) ==> s'.view.status.Error? == error)
  }

  lemma EndRemembers(c: Config, s: Snapshot, e: Event)
    requires MemoryOk(s) && e.End?
    ensures Remembers(c, s, e)
  {
  }

  lemma BeginRemembers(c: Config, s: Snapshot, e: Event)
    requires MemoryOk(s) && e.Begin?
    ensures Remembers(c, s, e)
  {
  }

  /** One step inside a busy period, or out of it. */
  lemma ErrorIsRemembered(c: Config, s: Snapshot, e: Event)
    requires MemoryOk(s) && !e.Clear?
    ensures Remembers(c, s, e)
  {
    if e.End? { EndRemembers(c, s, e); } else if e.Begin? { BeginRemembers(c, s, e); }
  }

  ghost predicate BusyBetween(states: seq<Snapshot>, a: nat, b: nat)
    requires b <= |states|
  {
    forall j :: a < j < b ==> Busy(states[j])
  }

  /** What is remembered after event k of a run, from what is remembered before it. */
  lemma MemoryStep(c: Config, states: seq<Snapshot>, events: seq<Event>, k: nat, before: bool)
    requires IsRun(c, states, events) && k < |events| && !events[k].Clear? && Busy(states[k+1])
    requires if Busy(states[k]) then states[k].pendingError == before else !before
    ensures states[k+1].pendingError <==>
      !PurgesToIdle(c, states[k], events[k]) && (CarriesError(states[k], events[k]) || before)
  {
    assert Linked(c, states, events, k);
    MemoryOfARun(c, states, events, k);
    ErrorIsRemembered(c, states[k], events[k]);
  }

  /** What is shown when the last of them ends. */
  lemma LastStep(c: Config, states: seq<Snapshot>, events: seq<Event>, k: nat)
    requires IsRun(c, states, events) && k < |events| && !events[k].Clear? && Terminal(events[k])
    requires Busy(states[k]) && !Busy(states[k+1]) && !PurgesToIdle(c, states[k], events[k])
    ensures states[k+1].view.status.Error? <==> CarriesError(states[k], events[k]) || states[k].pendingError
  {
    assert Linked(c, states, events, k);
    MemoryOfARun(c, states, events, k);
    ErrorIsRemembered(c, states[k], events[k]);
  }

  ghost predicate NoClears(events: seq<Event>, a: nat, b: nat)
    requires b <= |events|
  {
    forall j :: a <= j < b ==> !events[j].Clear?
  }

  /** From an idle state on, as long as the system is busy the memory is exactly `ErrorSince`. */
  lemma {:induction false} MemoryIsErrorSince(c: Config, states: seq<Snapshot>, events: seq<Event>, a: nat, k: nat)
    requires IsRun(c, states, events) && a < k < |states| && !Busy(states[a]) && BusyBetween(states, a, k + 1)
    requires NoClears(events, a, k)
    ensures states[k].pendingError <==> ErrorSince(c, states, events, a, k)
    decreases k
  {
    if a < k - 1 {
      assert Busy(states[k-1]);
      MemoryIsErrorSince(c, states, events, a, k - 1);
    }
    MemoryStep(c, states, events, k - 1, ErrorSince(c, states, events, a, k - 1));
  }

  /** When the system comes back to idle at the end of a busy period, the status is `error` exactly
      when some refresh of the period carried one, whatever successes came later; only a purge that
      empties the registry in the middle wipes what was remembered. */
  lemma NoMaskedErrorIff(c: Config, states: seq<Snapshot>, events: seq<Event>, a: nat, b: nat)
    requires IsRun(c, states, events) && a + 1 < b < |states|
    requires !Busy(states[a]) && !Busy(states[b]) && BusyBetween(states, a, b)
    requires forall j :: a <= j < b ==> !events[j].Clear? && Terminal(events[j])
    requires !PurgesToIdle(c, states[b-1], events[b-1])
    ensures states[b].view.status.Error? <==> ErrorSince(c, states, events, a, b)
  {
    MemoryIsErrorSince(c, states, events, a, b - 1);
    assert Busy(states[b-1]);
    LastStep(c, states, events, b - 1);
  }

  lemma {:induction false} ErrorSinceIsAnyError(c: Config, states: seq<Snapshot>, events: seq<Event>, a: nat, k: nat)
    requires |states| == |events| + 1 && a <= k < |states|
    requires forall j :: a <= j < k ==> !PurgesToIdle(c, states[j], events[j])
    ensures ErrorSince(c, states, events, a, k) <==> exists j :: a <= j < k && CarriesError(states[j], events[j])
    decreases k
  {
    if k > a { ErrorSinceIsAnyError(c, states, events, a, k - 1); }
  }

  /** Without purges to idle: `error` exactly when any refresh of the busy period carried it. */
  lemma NoMaskedErrorWithoutPurges(c: Config, states: seq<Snapshot>, events: seq<Event>, a: nat, b: nat)
    requires IsRun(c, states, events) && a + 1 < b < |states|
    requires !Busy(states[a]) && !Busy(states[b]) && BusyBetween(states, a, b)
    requires forall j :: a <= j < b ==>
      !events[j].Clear? && Terminal(events[j]) && !PurgesToIdle(c, states[j], events[j])
    ensures states[b].view.status.Error? <==> exists j :: a <= j < b && CarriesError(states[j], events[j])
  {
    NoMaskedErrorIff(c, states, events, a, b);
    ErrorSinceIsAnyError(c, states, events, a, b);
  }

  // ---------------------------------------------------------------- which message is shown

  /** Nothing ever writes a message into an entry. */
  predicate NoMessages(s: Snapshot) { forall k :: k in s.registry ==> s.registry[k].errorMessage.None? }

  lemma {:induction false} NoMessagesInARun(c: Config, states: seq<Snapshot>, events: seq<Event>, i: nat)
    requires IsRun(c, states, events) && i < |states|
    ensures NoMessages(states[i])
  {
    if i > 0 {
      assert Linked(c, states, events, i - 1);
      NoMessagesInARun(c, states, events, i - 1);
    }
  }

  /** The message that the caller of an event passes. */
  function OwnMessage(e: Event): Option<string> { if e.End? then e.message else None }

  /** The message of the last of the events a..k-1 that carried an error. */
  function LastMessage(states: seq<Snapshot>, events: seq<Event>, a: nat, k: nat): Option<string>
    requires |states| == |events| + 1 && a <= k < |states|
    decreases k
  {
    if k == a then None
    else if CarriesError(states[k-1], events[k-1]) then OwnMessage(events[k-1])
    else LastMessage(states, events, a, k - 1)
  }

  lemma MessageIsRemembered(c: Config, s: Snapshot, e: Event)
    requires MemoryOk(s) && NoMessages(s) && !e.Clear?
    ensures var s' := Apply(c, s, e);
      Busy(s') && s'.pendingError ==>
        s'.pendingMessage == if CarriesError(s, e) then OwnMessage(e) else s.pendingMessage
  {
  }

  lemma {:induction false} MemoryIsLastMessage(c: Config, states: seq<Snapshot>, events: seq<Event>, a: nat, k: nat)
    requires IsRun(c, states, events) && a < k < |states| && !Busy(states[a]) && BusyBetween(states, a, k + 1)
    requires NoClears(events, a, k) && states[k].pendingError
    ensures states[k].pendingMessage == LastMessage(states, events, a, k)
    decreases k
  {
    assert Linked(c, states, events, k - 1);
    MemoryOfARun(c, states, events, k - 1);
    NoMessagesInARun(c, states, events, k - 1);
    MessageIsRemembered(c, states[k-1], events[k-1]);
    ErrorIsRemembered(c, states[k-1], events[k-1]);
    if !CarriesError(states[k-1], events[k-1]) {
      assert states[k-1].pendingError && k - 1 > a;
      assert Busy(states[k-1]);
      MemoryIsLastMessage(c, states, events, a, k - 1);
    }
  }

  predicate ShowsMessage(s: Snapshot, s': Snapshot, own: Option<string>) {
    s'.view.errorMessage ==
      if s.pendingError && s.pendingMessage.Some? && s.pendingMessage.value != "" then s.pendingMessage else own
  }

  lemma EndShowsMessage(c: Config, s: Snapshot, e: Event)
    requires NoMessages(s) && e.End? && !Busy(Apply(c, s, e))
    ensures ShowsMessage(s, Apply(c, s, e), OwnMessage(e))
  {
  }

  lemma BeginEndsNothing(c: Config, s: Snapshot, e: Event)
    requires e.Begin? && Busy(s) && !PurgesToIdle(c, s, e)
    ensures Busy(Apply(c, s, e))
  {
  }

  lemma MessageIsShown(c: Config, s: Snapshot, e: Event)
    requires NoMessages(s) && !e.Clear? && Busy(s) && !Busy(Apply(c, s, e)) && !PurgesToIdle(c, s, e)
    ensures ShowsMessage(s, Apply(c, s, e), OwnMessage(e))
  {
    if e.End? { EndShowsMessage(c, s, e); } else if e.Begin? { BeginEndsNothing(c, s, e); }
  }

  /** An end in fields, whoever else is running. */
  lemma EndInFields(c: Config, s: Snapshot, key: Key, status: Status, engine: Option<string>, message: Option<string>)
    ensures var s' := Apply(c, s, End(key, status, engine, message));
      && s'.registry == s.registry - {key} && s'.active == s.active && s'.view.objective == s.view.objective
      && s'.view.engineState == (if s.registry - {key} == map[] then engine else s.view.engineState)
      && (Busy(s') ==> s'.view.status.Running? && s'.view.errorMessage == s.view.errorMessage)
  {
  }

  lemma LastStepShows(c: Config, states: seq<Snapshot>, events: seq<Event>, k: nat)
    requires IsRun(c, states, events) && k < |events| && !events[k].Clear?
    requires Busy(states[k]) && !Busy(states[k+1]) && !PurgesToIdle(c, states[k], events[k])
    ensures ShowsMessage(states[k], states[k+1], OwnMessage(events[k]))
  {
    assert Linked(c, states, events, k);
    NoMessagesInARun(c, states, events, k);
    MessageIsShown(c, states[k], events[k]);
  }

  /** When a busy period ends, the message shown is that of the last event before the end that carried
      an error, if it has one and no purge has wiped it; otherwise that of the event that ends it. */
  lemma LastErrorMessageIsShown(c: Config, states: seq<Snapshot>, events: seq<Event>, a: nat, b: nat)
    requires IsRun(c, states, events) && a + 1 < b < |states|
    requires !Busy(states[a]) && !Busy(states[b]) && BusyBetween(states, a, b)
    requires NoClears(events, a, b) && !PurgesToIdle(c, states[b-1], events[b-1])
    ensures var last := LastMessage(states, events, a, b - 1);
      states[b].view.errorMessage ==
        if ErrorSince(c, states, events, a, b - 1) && last.Some? && last.value != "" then last
        else OwnMessage(events[b-1])
  {
    assert Busy(states[b-1]);
    MemoryIsErrorSince(c, states, events, a, b - 1);
    if states[b-1].pendingError { MemoryIsLastMessage(c, states, events, a, b - 1); }
    LastStepShows(c, states, events, b - 1);
  }

  /** The only execution ends, and no error is remembered: a terminal status posed on its entry is
      shown whatever the caller passes, any other gives way to the caller's. */
  lemma PosedStatusWins(
      c: Config, s: Snapshot, key: Key, status: Status, engine: Option<string>, message: Option<string>)
    requires s.registry.Keys == {key} && s.active == 0 && !s.pendingError
    ensures var entry, s' := s.registry[key], Apply(c, s, End(key, status, engine, message));
      var posed := entry.status.Success? || entry.status.Error?;
      && !Busy(s') && !s'.pendingError
      && s'.view.status == (if posed then entry.status else status)
      && s'.view.errorMessage ==
           (if posed && entry.errorMessage.Some? && entry.errorMessage.value != "" then entry.errorMessage else message)
      && s'.view.engineState == engine && s'.view.objective == s.view.objective
  {
    assert key in s.registry && s.registry - {key} == map[];
  }

  /** When the last request ends, or the last stuck execution is purged, and no error is remembered, the
      system shows that it is idle, without a message. */
  lemma QuietEndIsIdle(c: Config, s: Snapshot)
    requires Busy(s) && !Busy(Apply(c, s, EndRequest)) && !s.pendingError && NoMessages(s)
    ensures Apply(c, s, EndRequest).view == s.view.(status := Idle, errorMessage := None)
  {
  }

  lemma PurgeToIdleIsIdle(c: Config, s: Snapshot, now: Time)
    requires Alive(s.registry, now, c.ttl) != s.registry && Alive(s.registry, now, c.ttl) == map[]
    requires s.active == 0 && !s.pendingError
    ensures Cleaned(s, now, c.ttl).view == s.view.(status := Idle, errorMessage := None)
    ensures !Busy(Cleaned(s, now, c.ttl))
  {
  }

  /** Only an entry whose start is known, and further back than the TTL, is purged. */
  lemma PurgedIff(c: Config, s: Snapshot, now: Time, key: Key)
    requires key in s.registry
    ensures key !in Cleaned(s, now, c.ttl).registry <==>
      s.registry[key].startedAt.Some? && s.registry[key].startedAt.value < now - c.ttl
  {
  }

  lemma StartIsAccepted(c: Config, s: Snapshot, key: Key, now: Time)
    requires key !in s.registry && |s.registry| < c.cap && Alive(s.registry, now, c.ttl) == s.registry
    ensures Begun(s, key, "", now, c.ttl, c.cap) ==
      s.(registry := s.registry[key := Entry(Running, "", None, Some(now))], view := View(Running, "", None, None))
  {
  }

  /** The purge of the only execution, at the head of a start, consumes the memory. */
  lemma StartAfterPurge(c: Config, s: Snapshot, k: Key, l: Key, now: Time)
    requires s.registry.Keys == {k} && Stale(s.registry[k], now, c.ttl) && s.active == 0 && c.cap >= 1
    ensures var s' := Begun(s, l, "", now, c.ttl, c.cap);
      s'.registry == map[l := Entry(Running, "", None, Some(now))] && s'.active == 0 && !s'.pendingError
  {
    assert k in s.registry && Alive(s.registry, now, c.ttl) == map[];
  }

  lemma OnlyOneEnds(s: Snapshot, l: Key)
    requires s.registry.Keys == {l} && s.registry[l].status.Running? && s.active == 0 && !s.pendingError
    ensures var s' := Ended(s, l, Success, None, None);
      s'.registry == map[] && s'.active == 0 && s'.view.status.Success?
  {
  }

  /** An error can be masked: one execution fails while another is stuck, the stuck one is purged by
      the next start, and the error goes with it. */
  lemma PurgeMasksAnError(c: Config, j: string, k: string, l: string)
      returns (states: seq<Snapshot>, events: seq<Event>)
    requires c.cap >= 2 && c.ttl >= 0.0 && j != k
    ensures IsRun(c, states, events) && |states| == 6
    ensures !Busy(states[0]) && !Busy(states[5]) && BusyBetween(states, 0, 5)
    ensures CarriesError(states[2], events[2])
    ensures states[5].view.status == Success
  {
    var late := c.ttl + 1.0;
    var e0, e1, e2 := Begin(j, "", 0.0), Begin(k, "", 0.0), End(j, Error, None, None);
    var e3, e4 := Begin(l, "", late), End(l, Success, None, None);
    var s1 := Apply(c, INITIAL, e0);
    StartIsAccepted(c, INITIAL, j, 0.0);
    var s2 := Apply(c, s1, e1);
    StartIsAccepted(c, s1, k, 0.0);
    var s3 := Apply(c, s2, e2);
    assert s3.registry == map[k := Entry(Running, "", None, Some(0.0))];
    var s4 := Apply(c, s3, e3);
    StartAfterPurge(c, s3, k, l, late);
    var s5 := Apply(c, s4, e4);
    OnlyOneEnds(s4, l);
    states, events := [INITIAL, s1, s2, s3, s4, s5], [e0, e1, e2, e3, e4];
    assert forall i: nat :: i < 5 ==> Linked(c, states, events, i);
  }

  // ---------------------------------------------------------------- the size of the registry

  lemma BeginKeepsSize(c: Config, s: Snapshot, key: Key, objective: string, now: Time)
    requires |s.registry| <= c.cap
    ensures |Begun(s, key, objective, now, c.ttl, c.cap).registry| <= c.cap
  {
    var s' := Cleaned(s, now, c.ttl);
    SubMapIsSmaller(s'.registry, s.registry);
    assert s'.registry[key := Entry(Running, objective, None, Some(now))].Keys == s'.registry.Keys + {key};
  }

  lemma SizeIsKept(c: Config, s: Snapshot, e: Event)
    requires |s.registry| <= c.cap
    ensures |Apply(c, s, e).registry| <= c.cap
  {
    if e.Begin? {
      BeginKeepsSize(c, s, e.key, e.objective, e.now);
    } else {
      SubMapIsSmaller(Apply(c, s, e).registry, s.registry);
    }
  }

  lemma SubMapIsSmaller<K, V>(a: map<K, V>, b: map<K, V>)
    requires a.Keys <= b.Keys
    ensures |a| <= |b|
  {
    SubsetSize(a.Keys, b.Keys);
  }

  /** With or without stuck executions, stops and purges, the registry never outgrows the cap. */
  lemma {:induction false} RegistryNeverOutgrowsTheCap(c: Config, states: seq<Snapshot>, events: seq<Event>, i: nat)
    requires IsRun(c, states, events) && i < |states|
    ensures |states[i].registry| <= c.cap
  {
    if i > 0 {
      assert Linked(c, states, events, i - 1);
      RegistryNeverOutgrowsTheCap(c, states, events, i - 1);
      SizeIsKept(c, states[i-1], events[i-1]);
    }
  }
}

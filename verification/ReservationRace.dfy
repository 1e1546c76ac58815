/** Why the reservation holds the write lock (core/backlog_db.py, `reserver_prochaine_tache`).

    Here the SELECT and the guarded UPDATE of N workers are separate steps.  With `locked` a
    worker takes the write lock before its SELECT and keeps it until after its UPDATE, as the
    source does; without it the steps interleave freely. */
module ReservationRace {
  import opened Wrappers
  import opened Backlog

  datatype Phase =
    | Idle
    | Selected(id: nat, read: Row)   // the SELECT has answered, the UPDATE has not run
    | Holding(id: nat, read: Row)    // the UPDATE changed one row: the task is handed out

  datatype State = State(rows: Table, workers: seq<Phase>, lock: Option<nat>, clock: Time)

  datatype Event =
    | Lock(w: nat)
    | Unlock(w: nat)                 // nothing to reserve
    | Select(w: nat, id: nat)
    | Update(w: nat)
    | Charge(w: nat, delay: Time)    // the attempt failed: `retries` of the row handed out, plus one
    | Finish(w: nat)
    | Tick(t: Time)

  predicate Enabled(s: State, e: Event, locked: bool) {
    match e
    case Lock(w) => w < |s.workers| && s.workers[w].Idle? && s.lock.None? && locked
    case Unlock(w) => w < |s.workers| && s.workers[w].Idle? && s.lock == Some(w)
    case Select(w, id) =>
      && w < |s.workers| && s.workers[w].Idle? && (locked ==> s.lock == Some(w))
      && id in s.rows && Playable(s.rows[id], s.clock)
    case Update(w) => w < |s.workers| && s.workers[w].Selected? && s.workers[w].id in s.rows
    case Charge(w, delay) => w < |s.workers| && s.workers[w].Holding? && s.workers[w].id in s.rows && delay >= 60.0
    case Finish(w) => w < |s.workers| && s.workers[w].Holding? && s.workers[w].id in s.rows
    case Tick(t) => t >= s.clock
  }

  function Move(s: State, w: nat, p: Phase): State
    requires w < |s.workers|
  {
    s.(workers := s.workers[w := p])
  }

  /** The WHERE clause of the UPDATE looks at the status only. */
  predicate Guard(row: Row) { row.status.Pending? || row.status.Failed? }

  function Apply(s: State, e: Event, locked: bool): State
    requires Enabled(s, e, locked)
  {
    match e
    case Lock(w) => s.(lock := Some(w))
    case Unlock(w) => s.(lock := None)
    case Select(w, id) => Move(s, w, Selected(id, s.rows[id]))
    case Update(w) =>
      var p := s.workers[w];
      var s' := s.(lock := if locked then None else s.lock);
      if Guard(s.rows[p.id]) then Move(s', w, Holding(p.id, p.read)).(rows := Reserved(s.rows, p.id))
      else Move(s', w, Idle)
    case Charge(w, delay) =>
      var p := s.workers[w];
      var patch := NOTHING.(retries := Some(p.read.retries + 1), scheduledAt := Some(Some(s.clock + delay)));
      var status := if p.read.retries + 1 >= MAX_ATTEMPTS then Abandoned else Failed;
      Move(s, w, Idle).(rows := Updated(s.rows, p.id, status, patch))
    case Finish(w) => Move(s, w, Idle).(rows := Updated(s.rows, s.workers[w].id, Completed, NOTHING))
    case Tick(t) => s.(clock := t)
  }

  predicate Initial(s: State) {
    && s.lock.None?
    && (forall w :: 0 <= w < |s.workers| ==> s.workers[w].Idle?)
  }

  /** The state after a whole list of events, each enabled when it happens. */
  ghost predicate Runs(s: State, events: seq<Event>, locked: bool, s': State)
    decreases |events|
  {
    if events == [] then s' == s
    else Enabled(s, events[0], locked) && Runs(Apply(s, events[0], locked), events[1..], locked, s')
  }

  // ---------------------------------------------------------------- what the guard alone ensures

  ghost predicate Exclusive(s: State) {
    && (forall w :: 0 <= w < |s.workers| && s.workers[w].Holding? ==>
          s.workers[w].id in s.rows && s.rows[s.workers[w].id].status.Running?)
    && (forall v, w :: 0 <= v < w < |s.workers| && s.workers[v].Holding? && s.workers[w].Holding? ==>
          s.workers[v].id != s.workers[w].id)
  }

  lemma ExclusiveIsKept(s: State, e: Event, locked: bool)
    requires Exclusive(s) && Enabled(s, e, locked)
    ensures Exclusive(Apply(s, e, locked))
  {
  }

  lemma {:induction false} ExclusiveThroughout(s: State, events: seq<Event>, locked: bool, s': State)
    requires Exclusive(s) && Runs(s, events, locked, s')
    ensures Exclusive(s')
    decreases |events|
  {
    if events != [] {
      ExclusiveIsKept(s, events[0], locked);
      ExclusiveThroughout(Apply(s, events[0], locked), events[1..], locked, s');
    }
  }

  /** Without any lock, in every interleaving, no two workers ever hold the same row. */
  lemma GuardExcludes(s: State, events: seq<Event>, locked: bool, s': State)
    requires Initial(s) && Runs(s, events, locked, s')
    ensures Exclusive(s')
  {
    InitialIsFresh(s);
    ExclusiveThroughout(s, events, locked, s');
  }

  // ---------------------------------------------------------------- what the lock adds

  /** What each worker has read is still what is stored, up to the status; only the owner of the
      lock sits between its SELECT and its UPDATE. */
  ghost predicate Fresh(s: State) {
    && Exclusive(s)
    && (forall w :: 0 <= w < |s.workers| && s.workers[w].Selected? ==>
          s.lock == Some(w) && s.workers[w].id in s.rows && s.workers[w].read == s.rows[s.workers[w].id]
          && Guard(s.rows[s.workers[w].id]))
    && (forall w :: 0 <= w < |s.workers| && s.workers[w].Holding? ==>
          s.workers[w].read.retries == s.rows[s.workers[w].id].retries)
  }

  lemma FreshIsKept(s: State, e: Event)
    requires Fresh(s) && Enabled(s, e, true)
    ensures Fresh(Apply(s, e, true))
  {
    ExclusiveIsKept(s, e, true);
  }

  lemma {:induction false} FreshThroughout(s: State, events: seq<Event>, s': State)
    requires Fresh(s) && Runs(s, events, true, s')
    ensures Fresh(s')
    decreases |events|
  {
    if events != [] {
      FreshIsKept(s, events[0]);
      FreshThroughout(Apply(s, events[0], true), events[1..], s');
    }
  }

  lemma InitialIsFresh(s: State)
    requires Initial(s)
    ensures Fresh(s)
  {
  }

  /** With the lock, in every interleaving, the `retries` handed out is the stored one. */
  lemma LockKeepsCountsFresh(s: State, events: seq<Event>, s': State)
    requires Initial(s) && Runs(s, events, true, s')
    ensures Fresh(s')
  {
    InitialIsFresh(s);
    FreshThroughout(s, events, s');
  }

  /** The lock is given back with the UPDATE, whatever it found. */
  lemma UpdateGivesTheLockBack(s: State, w: nat)
    requires Enabled(s, Update(w), true)
    ensures Apply(s, Update(w), true).lock.None?
    ensures Apply(s, Update(w), true).workers[w].Holding? <==>
      s.rows[s.workers[w].id].status.Pending? || s.rows[s.workers[w].id].status.Failed?
  {
  }

  /** How a task handed out ends: completed and never played again, or one attempt more than was read,
      and abandoned at the third, out of reach until its date before that. */
  lemma HowATaskEnds(s: State, e: Event, locked: bool)
    requires Enabled(s, e, locked) && (e.Finish? || e.Charge?)
    ensures var s', p := Apply(s, e, locked), s.workers[e.w];
      && p.id in s'.rows && s'.workers[e.w].Idle?
      && var row := s'.rows[p.id];
        && (e.Finish? ==> row.status.Completed? && forall now :: !Playable(row, now))
        && (e.Charge? ==>
              && row.retries == p.read.retries + 1
              && (row.status.Abandoned? <==> row.retries >= 3) && (row.status.Failed? <==> row.retries < 3)
              && forall now :: Playable(row, now) ==> now >= s.clock + e.delay)
  {
  }

  // ---------------------------------------------------------------- what is lost without it

  /** The run of two workers in which one fails between the SELECT and the UPDATE of the other. */
  function StaleRun(id: nat): seq<Event> {
    [Select(0, id), Select(1, id), Update(1), Charge(1, 60.0), Update(0)]
  }

  /** Without the lock, from every pending and due row with attempts left, that run hands out a
      stale count, hands the row out again before its delay, and the next charge is lost. */
  lemma StaleCountWithoutLock(s: State, id: nat) returns (s': State)
    requires Initial(s) && |s.workers| == 2 && id in s.rows
    requires s.rows[id].status.Pending? && Due(s.rows[id], s.clock) && s.rows[id].retries + 1 < MAX_ATTEMPTS
    ensures Runs(s, StaleRun(id), false, s')
    ensures |s'.workers| == 2 && id in s'.rows
    ensures s'.workers[0].Holding? && s'.workers[0].id == id
    ensures s'.workers[0].read.retries + 1 == s'.rows[id].retries
    ensures s'.rows[id].scheduledAt == Some(s'.clock + 60.0)
    ensures Enabled(s', Charge(0, 60.0), false)
    ensures var after := Apply(s', Charge(0, 60.0), false).rows;
      id in after && after[id].retries == s'.rows[id].retries
  {
    var run := StaleRun(id);
    var s1 := Apply(s, run[0], false);
    var s2 := Apply(s1, run[1], false);
    var s3 := Apply(s2, run[2], false);
    var s4 := Apply(s3, run[3], false);
    s' := Apply(s4, run[4], false);
    assert Runs(s', run[5..], false, s');
    assert run[4..][1..] == run[5..] && run[4..][0] == run[4];
    assert Runs(s4, run[4..], false, s');
    assert run[3..][1..] == run[4..] && run[3..][0] == run[3];
    assert Runs(s3, run[3..], false, s');
    assert run[2..][1..] == run[3..] && run[2..][0] == run[2];
    assert Runs(s2, run[2..], false, s');
    assert run[1..][1..] == run[2..] && run[1..][0] == run[1];
    assert Runs(s1, run[1..], false, s');
  }
}

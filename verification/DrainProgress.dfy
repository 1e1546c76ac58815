/** The drain never blocks: a worker that has not left can move, or waits for a lock whose holder can.
    What a worker does at the head of its loop is settled by the clock and by the table. */
module DrainProgress {
  import opened Wrappers
  import opened Backlog
  import opened Providers
  import opened DrainProtocol
  import opened DrainProviders
  import Election = ProviderElection

  // ---------------------------------------------------------------- the head of the loop

  /** Among the rows that can be played there is a first one. */
  lemma {:induction false} SomeIsNext(rows: Table, now: Time, excluded: set<nat>, ids: set<nat>) returns (next: nat)
    requires ids != {} && forall id :: id in ids ==> Eligible(rows, id, now, excluded)
    ensures next in ids && next in rows && forall id :: id in ids ==> id in rows && !Before(rows[id], rows[next])
    decreases |ids|
  {
    next :| next in ids;
    if ids != {next} {
      var best := SomeIsNext(rows, now, excluded, ids - {next});
      if !Before(rows[next], rows[best]) { next := best; }
    }
  }

  /** Past the deadline test a worker reserves a row if one can be played and leaves if none can. */
  lemma ReservesOrLeaves(c: Config, s: State, w: nat) returns (id: nat)
    requires Is(s, w) && PhaseOf(s, w).Cleared?
    ensures (exists k :: Eligible(s.rows, k, s.clock, s.workers[w].setAside)) <==> Enabled(c, s, Reserve(w, id))
    ensures Enabled(c, s, Drained(w)) <==> !Enabled(c, s, Reserve(w, id))
  {
    var aside := s.workers[w].setAside;
    var ids := set k | k in s.rows && Eligible(s.rows, k, s.clock, aside);
    id := 0;
    if ids != {} {
      id := SomeIsNext(s.rows, s.clock, aside, ids);
      forall k | Eligible(s.rows, k, s.clock, aside) ensures !Before(s.rows[k], s.rows[id]) { assert k in ids; }
    } else {
      forall k ensures !Eligible(s.rows, k, s.clock, aside) { assert k !in ids; }
    }
  }

  /** At the head of the loop the clock decides alone. */
  lemma TheClockDecides(c: Config, s: State, w: nat)
    requires Is(s, w) && PhaseOf(s, w).Top?
    ensures Enabled(c, s, Pass(w)) <==> s.clock < s.deadline
    ensures Enabled(c, s, Expire(w)) <==> s.clock >= s.deadline
    ensures Enabled(c, s, Pass(w)) ==> PhaseOf(Apply(c, s, Pass(w)), w).Cleared?
    ensures Enabled(c, s, Expire(w)) ==> PhaseOf(Apply(c, s, Expire(w)), w).Exited?
  {
  }

  // ---------------------------------------------------------------- an election comes to its end

  /** Both counted tiers have been read where that is possible, and so have the counts of the cascade. */
  predicate AllRead(c: Config, s: State, x: Phase) {
    && x.Electing? && x.tally.Some?
    && (forall q :: q in {GeminiFree, DeepseekFree} && q in Base(c) && q !in s.inFlight && q !in x.resting ==>
          q in x.readings)
  }

  /** Then the election can be held, with any ranking of the candidates: here with an empty one. */
  lemma ElectionCanBeHeld(c: Config, s: State, w: nat, world: Election.World)
    requires Is(s, w) && AllRead(c, s, PhaseOf(s, w)) && world.ajean == c.ajean
    ensures var x := PhaseOf(s, w);
      var all := Election.Candidates(Base(c), world, SceneOf(c, s, x.resting, x.tally), x.readings);
      Enabled(c, s, Elect(w, world, Election.Ranking([], all)))
  {
  }

  /** A counted tier that is missing can be read, and a reading stays. */
  lemma TierCanBeRead(c: Config, s: State, w: nat, q: Provider, readable: bool)
    requires Is(s, w) && PhaseOf(s, w).Electing? && Counted(q)
    requires q in Base(c) && q !in s.inFlight && q !in PhaseOf(s, w).resting
    ensures Enabled(c, s, ReadQuota(w, q, readable))
    ensures var s' := Apply(c, s, ReadQuota(w, q, readable));
      && Is(s', w) && PhaseOf(s', w).Electing? && s'.inFlight == s.inFlight
      && PhaseOf(s', w).readings.Keys == PhaseOf(s, w).readings.Keys + {q}
      && PhaseOf(s', w).resting == PhaseOf(s, w).resting && PhaseOf(s', w).tally == PhaseOf(s, w).tally
  {
  }

  /** The tier is read, unless it need not be. */
  ghost predicate ReadsTier(c: Config, s: State, w: nat, q: Provider, s': State) {
    s' == s || (Enabled(c, s, ReadQuota(w, q, true)) && s' == Apply(c, s, ReadQuota(w, q, true)))
  }

  lemma ReadsOneTier(c: Config, s: State, w: nat, q: Provider) returns (s': State)
    requires Is(s, w) && PhaseOf(s, w).Electing? && Counted(q)
    ensures ReadsTier(c, s, w, q, s') && Is(s', w) && PhaseOf(s', w).Electing? && s'.inFlight == s.inFlight
    ensures PhaseOf(s', w).resting == PhaseOf(s, w).resting && PhaseOf(s', w).tally == PhaseOf(s, w).tally
    ensures PhaseOf(s, w).readings.Keys <= PhaseOf(s', w).readings.Keys
    ensures q in Base(c) && q !in s.inFlight && q !in PhaseOf(s, w).resting ==> q in PhaseOf(s', w).readings
  {
    s' := s;
    if q in Base(c) && q !in s.inFlight && q !in PhaseOf(s, w).resting {
      TierCanBeRead(c, s, w, q, true);
      s' := Apply(c, s, ReadQuota(w, q, true));
    }
  }

  /** Whoever holds the lock can end its election: two quota tests and the counts of the cascade are all
      it has to read. */
  lemma ElectionCanEnd(c: Config, s: State, w: nat, world: Election.World)
      returns (s1: State, s2: State, s3: State, ranking: Election.Ranking)
    requires Is(s, w) && PhaseOf(s, w).Electing? && world.ajean == c.ajean
    ensures Enabled(c, s, ReadCascade(w)) && s1 == Apply(c, s, ReadCascade(w))
    ensures ReadsTier(c, s1, w, GeminiFree, s2) && ReadsTier(c, s2, w, DeepseekFree, s3)
    ensures Enabled(c, s3, Elect(w, world, ranking))
    ensures var s4 := Apply(c, s3, Elect(w, world, ranking));
      s4.lock.None? && Is(s4, w) && !PhaseOf(s4, w).Electing?
  {
    s1 := Apply(c, s, ReadCascade(w));
    s2 := ReadsOneTier(c, s1, w, GeminiFree);
    s3 := ReadsOneTier(c, s2, w, DeepseekFree);
    var x := PhaseOf(s3, w);
    ElectionCanBeHeld(c, s3, w, world);
    var scene := SceneOf(c, s3, x.resting, x.tally);
    ranking := Election.Ranking([], Election.Candidates(Base(c), world, scene, x.readings));
  }

  // ---------------------------------------------------------------- nobody is stuck

  predicate NeedsLock(x: Phase) {
    x.Picked? || x.BoardClosed? || x.Settled? || x.Leaving? || x.Finished?
  }

  /** A worker can make an event of its own. */
  ghost predicate CanMove(c: Config, s: State, w: nat) {
    exists e :: ByWorker(e) && !e.Crash? && e.w == w && Enabled(c, s, e)
  }

  lemma MovesWithoutLock(c: Config, s: State, w: nat)
    requires Is(s, w) && !PhaseOf(s, w).Exited? && !NeedsLock(PhaseOf(s, w))
    ensures CanMove(c, s, w)
  {
    match PhaseOf(s, w)
    case Top =>
      TheClockDecides(c, s, w);
      if s.clock < s.deadline { assert Enabled(c, s, Pass(w)); } else { assert Enabled(c, s, Expire(w)); }
    case Cleared =>
      var id := ReservesOrLeaves(c, s, w);
      if Enabled(c, s, Reserve(w, id)) { assert !Crash(w, false).Reserve?; } else { assert Enabled(c, s, Drained(w)); }
    case Electing(_, _, _, _, _) => assert Enabled(c, s, ReadCascade(w));
    case Unserved(_, _) => assert Enabled(c, s, Drop(w));
    case Working(_, _, _, _, _) => assert Enabled(c, s, Interrupt(w, false));
    case Interrupted(_, _, _) => assert Enabled(c, s, ReleaseInterrupted(w));
  }

  lemma MovesWithLock(c: Config, s: State, w: nat)
    requires Is(s, w) && NeedsLock(PhaseOf(s, w)) && s.lock.None?
    ensures CanMove(c, s, w)
  {
    match PhaseOf(s, w)
    case Picked(_) => assert Enabled(c, s, TakeLock(w));
    case BoardClosed(_) => assert Enabled(c, s, CountBoard(w));
    case Settled(_, _, _, _) => assert Enabled(c, s, GiveBack(w));
    case Leaving(_, _) => assert Enabled(c, s, LeaveInterrupted(w));
    case Finished(_, _) => assert Enabled(c, s, Count(w));
  }

  /** In every state of every run a worker that has not left can move, or waits for the lock of an
      election that another worker is holding, and that one can move. */
  lemma NobodyIsStuck(c: Config, states: seq<State>, events: seq<Event>, i: nat, w: nat)
    requires ConfigOk(c) && IsRun(c, states, events) && i < |states|
    requires Is(states[i], w) && !PhaseOf(states[i], w).Exited?
    ensures var s := states[i];
      || CanMove(c, s, w)
      || (NeedsLock(PhaseOf(s, w)) && s.lock.Some? && s.lock.value != w && Is(s, s.lock.value)
          && PhaseOf(s, s.lock.value).Electing? && CanMove(c, s, s.lock.value))
  {
    var s := states[i];
    EveryProviderHasOneHolder(c, states, events, i);
    if !NeedsLock(PhaseOf(s, w)) {
      MovesWithoutLock(c, s, w);
    } else if s.lock.None? {
      MovesWithLock(c, s, w);
    } else {
      MovesWithoutLock(c, s, s.lock.value);
    }
  }

  /** What an election leaves: the provider elected is in flight and at work on the task from now on, a
      task without one is marked as excluded by history or not, and the index of the rotation is kept. */
  lemma WhatAnElectionLeaves(c: Config, s: State, w: nat, world: Election.World, ranking: Election.Ranking)
    requires Enabled(c, s, Elect(w, world, ranking))
    ensures var s', x := Apply(c, s, Elect(w, world, ranking)), PhaseOf(s, w);
      var election := ElectionOf(c, s, w, world, ranking);
      && Is(s', w) && s'.lock.None? && s'.rotation == election.rotation && s'.rows == s.rows
      && s'.inFlight ==
           (if election.outcome.Elected? then s.inFlight + {election.outcome.provider} else s.inFlight)
      && var x' := PhaseOf(s', w);
        && (election.outcome.NoneByHistory? <==> x'.Unserved? && x'.byHistory)
        && (election.outcome.NoneFree? <==> x'.Unserved? && !x'.byHistory)
        && (election.outcome.Elected? ==>
              x'.Working? && x'.provider == election.outcome.provider && x'.since == s.clock && !x'.recorded)
        && (x'.Unserved? || x'.Working?) && x'.task == x.task
  {
  }

  // ---------------------------------------------------------------- when a slot stops

  /** A slot stops exactly when the window is over, nothing is left to play, no provider is free, it has
      put 25 tasks aside, no provider can be reached at all, it was cut, or it crashed. */
  lemma SlotStopsIff(c: Config, s: State, e: Event)
    requires Enabled(c, s, e) && ByWorker(e)
    ensures var s', x := Apply(c, s, e), PhaseOf(s, e.w);
      var aside := s.workers[e.w].setAside + if HasTask(x) then {x.task.id} else {};
      && Is(s', e.w)
      && (PhaseOf(s', e.w).Exited? <==>
            || e.Expire? || e.Drained? || e.LeaveInterrupted? || e.Crash?
            || (e.Drop? && (!x.byHistory || |aside| >= 25))
            || (e.Count? && (x.result.InfraDown? || (x.result.ProviderDown? && |aside| >= 25))))
      && s'.workers[e.w].setAside ==
           if (e.Drop? && x.byHistory) || (e.Count? && x.result.ProviderDown?) then aside else s.workers[e.w].setAside
  {
    if Branches(e) { BranchesStop(c, s, e); } else { RestStops(c, s, e); }
  }

  lemma BranchesStop(c: Config, s: State, e: Event)
    requires Enabled(c, s, e) && Branches(e)
    ensures var s', x := Apply(c, s, e), PhaseOf(s, e.w);
      var aside := s.workers[e.w].setAside + if HasTask(x) then {x.task.id} else {};
      && Is(s', e.w)
      && (PhaseOf(s', e.w).Exited? <==>
            || e.Crash?
            || (e.Drop? && (!x.byHistory || |aside| >= 25))
            || (e.Count? && (x.result.InfraDown? || (x.result.ProviderDown? && |aside| >= 25))))
      && s'.workers[e.w].setAside ==
           if (e.Drop? && x.byHistory) || (e.Count? && x.result.ProviderDown?) then aside else s.workers[e.w].setAside
  {
  }

  lemma RestStops(c: Config, s: State, e: Event)
    requires Enabled(c, s, e) && ByWorker(e) && !Branches(e)
    ensures var s' := Apply(c, s, e);
      && Is(s', e.w) && s'.workers[e.w].setAside == s.workers[e.w].setAside
      && (PhaseOf(s', e.w).Exited? <==> e.Expire? || e.Drained? || e.LeaveInterrupted?)
  {
  }

  /** A worker that has written its row is cut only when the window is over and its task has had a minute. */
  lemma LateCutIff(c: Config, s: State, w: nat)
    requires Is(s, w) && PhaseOf(s, w).Settled?
    ensures Enabled(c, s, LateInterrupt(w)) <==> s.clock >= s.deadline && s.clock >= PhaseOf(s, w).since + 60.0
  {
  }

  // ---------------------------------------------------------------- a new drain

  /** The next drain keeps the table, the ledger, the cooldowns and the rotation; the death of the process
      forgets the last two. */
  lemma WhatADrainKeeps(c: Config, s: State, e: Event)
    requires Enabled(c, s, e) && (e.Boot? || e.NextDrain?)
    ensures var s' := Apply(c, s, e);
      && s'.workers == FreshWorkers(e.n) && s'.deadline == e.newDeadline && s'.clock == s.clock
      && s'.ledger == s.ledger && s'.lock.None? && s'.inFlight == {} && s'.results == EMPTY
      && s'.cooldown == (if e.Boot? then map[] else s.cooldown)
      && s'.rotation == (if e.Boot? then 0 else s.rotation)
      && (e.NextDrain? ==> s'.rows == s.rows)
  {
  }
}

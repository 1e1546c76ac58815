/** Who holds which provider, in every run of the drain: crashes, interruptions by the window, process
    deaths and later drains included. */
module DrainProviders {
  import opened Wrappers
  import opened Backlog
  import opened Providers
  import opened UsageLedger
  import opened DrainProtocol
  import Election = ProviderElection

  // ---------------------------------------------------------------- the lock and en_vol

  ghost predicate LockOk(s: State) {
    && (forall w: nat :: Is(s, w) && PhaseOf(s, w).Electing? ==> s.lock == Some(w))
    && (s.lock.Some? ==> Is(s, s.lock.value) && PhaseOf(s, s.lock.value).Electing?)
  }

  predicate Holds(s: State, w: nat, q: Provider) { Is(s, w) && Held(PhaseOf(s, w)) == Some(q) }

  /** `en_vol` is exactly the set of providers held by workers, none of them held twice. */
  ghost predicate InFlightExact(s: State) {
    && (forall w: nat, q :: Holds(s, w, q) ==> q in s.inFlight)
    && (forall v: nat, w: nat, q :: Holds(s, v, q) && Holds(s, w, q) ==> v == w)
    && (forall q :: q in s.inFlight ==> exists w: nat :: Holds(s, w, q))
  }

  ghost predicate ReadingsOk(s: State) {
    forall w: nat, q :: Is(s, w) && PhaseOf(s, w).Electing? && q in PhaseOf(s, w).readings ==> Counted(q)
  }

  ghost predicate ProvidersOk(s: State) { LockOk(s) && InFlightExact(s) && ReadingsOk(s) }

  /** Whoever is cooling down and free was cooling down when the election in progress began: only the
      worker that holds a provider marks it, and nobody gives one back meanwhile. */
  ghost predicate RestingOk(c: Config, s: State) {
    forall w: nat, q ::
      Is(s, w) && PhaseOf(s, w).Electing? && q in CoolingAmong(s, Known(c)) && q !in s.inFlight ==>
        q in PhaseOf(s, w).resting
  }

  /** What an election gives the worker: a provider nobody holds, never one known to be exhausted. */
  lemma ElectedIsFree(c: Config, s: State, w: nat, world: Election.World, ranking: Election.Ranking)
    requires ConfigOk(c) && ReadingsOk(s)
    requires Enabled(c, s, Elect(w, world, ranking))
    ensures var p := PhaseOf(s, w);
      var o := ElectionOf(c, s, w, world, ranking).outcome;
      o.Elected? ==>
        && o.provider !in s.inFlight
        && (Counted(o.provider) ==> Sighted(p, o.provider) || (o.provider in p.readings && o.provider in p.blind))
        && (RestingOk(c, s) && o.provider in CoolingAmong(s, Known(c)) ==> o.provider in {DeepseekFree, ClaudeHaiku})
  {
    var p := PhaseOf(s, w);
    Election.ElectionIsFit(Base(c), world, SceneOf(c, s, p.resting, p.tally), p.readings, ranking, s.rotation);
  }

  /** Only an election takes the lock, and only its end, or a crash in it, gives it back. */
  ghost predicate LockShape(s: State, s': State, e: Event) {
    && ActorOnly(s, s', e)
    && (e.Boot? || e.NextDrain? ==> s'.lock.None?)
    && (e.Tick? || e.AddTask? ==> s'.lock == s.lock)
    && (ByWorker(e) ==>
          var was, now := PhaseOf(s, e.w).Electing?, PhaseOf(s', e.w).Electing?;
          || (was == now && s'.lock == s.lock)
          || (!was && now && s.lock.None? && s'.lock == Some(e.w))
          || (was && !now && s'.lock.None?))
  }

  predicate Locks(e: Event) { e.TakeLock? || e.Elect? || e.Crash? }

  lemma LockersChange(c: Config, s: State, e: Event)
    requires Enabled(c, s, e) && Locks(e)
    ensures LockShape(s, Apply(c, s, e), e)
  {
    OnlyTheActorMoves(c, s, e);
  }

  lemma OthersKeepLock(c: Config, s: State, e: Event)
    requires Enabled(c, s, e) && !Locks(e) && ByWorker(e)
    ensures Is(Apply(c, s, e), e.w) && Apply(c, s, e).lock == s.lock
    ensures PhaseOf(Apply(c, s, e), e.w).Electing? == PhaseOf(s, e.w).Electing?
  {
  }

  lemma LockChanges(c: Config, s: State, e: Event)
    requires Enabled(c, s, e)
    ensures LockShape(s, Apply(c, s, e), e)
  {
    if Locks(e) {
      LockersChange(c, s, e);
    } else {
      OnlyTheActorMoves(c, s, e);
      if ByWorker(e) { OthersKeepLock(c, s, e); }
    }
  }

  lemma ShapeKeepsLock(s: State, s': State, e: Event)
    requires LockOk(s) && LockShape(s, s', e)
    ensures LockOk(s')
  {
    forall w: nat | Is(s', w) && PhaseOf(s', w).Electing? ensures s'.lock == Some(w) {
      assert Is(s, w) && (PhaseOf(s, w).Electing? || w == e.w);
    }
  }

  ghost predicate ReadingsShape(s: State, s': State, e: Event) {
    && ActorOnly(s, s', e)
    && (ByWorker(e) && PhaseOf(s', e.w).Electing? ==>
          forall q :: q in PhaseOf(s', e.w).readings ==>
            Counted(q) || (PhaseOf(s, e.w).Electing? && q in PhaseOf(s, e.w).readings))
  }

  lemma ReadingsChange(c: Config, s: State, e: Event)
    requires Enabled(c, s, e)
    ensures ReadingsShape(s, Apply(c, s, e), e)
  {
    OnlyTheActorMoves(c, s, e);
  }

  lemma ShapeKeepsReadings(s: State, s': State, e: Event)
    requires ReadingsOk(s) && ReadingsShape(s, s', e)
    ensures ReadingsOk(s')
  {
    forall w: nat, q | Is(s', w) && PhaseOf(s', w).Electing? && q in PhaseOf(s', w).readings ensures Counted(q) {
      assert Is(s, w) && PhaseOf(s, w) == s.workers[w].phase;
    }
  }

  /** The shapes of change of `en_vol`: an election adds one provider that nobody holds, the end of
      a task removes the one its worker held, a new drain starts empty, nothing else touches it. */
  ghost predicate InFlightShape(s: State, s': State, e: Event) {
    if e.Boot? || e.NextDrain? then s'.inFlight == {} && forall w: nat :: Is(s', w) ==> Held(PhaseOf(s', w)).None?
    else if !ByWorker(e) then s'.inFlight == s.inFlight && s'.workers == s.workers
    else
      && Is(s, e.w) && Is(s', e.w)
      && s'.workers == s.workers[e.w := s'.workers[e.w]]
      && var h, h' := Held(PhaseOf(s, e.w)), Held(PhaseOf(s', e.w));
        || (h' == h && s'.inFlight == s.inFlight)
        || (h.None? && h'.Some? && h'.value !in s.inFlight && s'.inFlight == s.inFlight + {h'.value})
        || (h.Some? && h'.None? && s'.inFlight == s.inFlight - {h.value})
  }

  lemma InFlightChanges(c: Config, s: State, e: Event)
    requires ConfigOk(c) && ReadingsOk(s) && Enabled(c, s, e)
    ensures InFlightShape(s, Apply(c, s, e), e)
  {
    if e.Elect? {
      ElectedIsFree(c, s, e.w, e.world, e.ranking);
      ElectionChangesInFlight(s, e.w, ElectionOf(c, s, e.w, e.world, e.ranking), e);
    } else if Frees(e) {
      FreeingChangesInFlight(c, s, e);
    } else {
      OthersKeepInFlight(c, s, e);
    }
  }

  predicate Frees(e: Event) { e.GiveBack? || e.LeaveInterrupted? || e.Crash? }

  lemma FreeingChangesInFlight(c: Config, s: State, e: Event)
    requires Enabled(c, s, e) && Frees(e)
    ensures InFlightShape(s, Apply(c, s, e), e)
  {
  }

  lemma OthersKeepInFlight(c: Config, s: State, e: Event)
    requires Enabled(c, s, e) && !e.Elect? && !Frees(e)
    ensures InFlightShape(s, Apply(c, s, e), e)
  {
    OnlyTheActorMoves(c, s, e);
    if Branches(e) { BranchesKeepHeld(c, s, e); } else if ByWorker(e) { RestKeepsHeld(c, s, e); }
  }

  lemma BranchesKeepHeld(c: Config, s: State, e: Event)
    requires Enabled(c, s, e) && Branches(e) && !e.Elect? && !Frees(e)
    ensures Is(Apply(c, s, e), e.w) && Apply(c, s, e).inFlight == s.inFlight
    ensures Held(PhaseOf(Apply(c, s, e), e.w)) == Held(PhaseOf(s, e.w))
  {
  }

  lemma RestKeepsHeld(c: Config, s: State, e: Event)
    requires Enabled(c, s, e) && ByWorker(e) && !Branches(e) && !Frees(e)
    ensures Is(Apply(c, s, e), e.w) && Apply(c, s, e).inFlight == s.inFlight
    ensures Held(PhaseOf(Apply(c, s, e), e.w)) == Held(PhaseOf(s, e.w))
  {
  }

  lemma ElectionChangesInFlight(s: State, w: nat, x: Election.Election, e: Event)
    requires Is(s, w) && PhaseOf(s, w).Electing? && e.Elect? && e.w == w
    requires x.outcome.Elected? ==> x.outcome.provider !in s.inFlight
    ensures InFlightShape(s, AfterElection(s, w, x), e)
  {
  }

  lemma HeldIsInFlight(s: State, s': State, e: Event, w: nat, q: Provider)
    requires InFlightExact(s) && InFlightShape(s, s', e) && ByWorker(e) && Holds(s', w, q)
    ensures q in s'.inFlight
  {
    var h, h' := Held(PhaseOf(s, e.w)), Held(PhaseOf(s', e.w));
    if w != e.w {
      assert Holds(s, w, q) && !Holds(s, e.w, q);
      assert h != Some(q);
    } else if h' == h {
      assert Holds(s, w, q);
    }
  }

  lemma InFlightIsHeld(s: State, s': State, e: Event, q: Provider) returns (w: nat)
    requires InFlightExact(s) && InFlightShape(s, s', e) && ByWorker(e) && q in s'.inFlight
    ensures Holds(s', w, q)
  {
    w := e.w;
    if q in s.inFlight { w :| Holds(s, w, q); }
  }

  lemma HeldOnce(s: State, s': State, e: Event, v: nat, w: nat, q: Provider)
    requires InFlightExact(s) && InFlightShape(s, s', e) && ByWorker(e) && Holds(s', v, q) && Holds(s', w, q)
    ensures v == w
  {
    assert v != e.w ==> Holds(s, v, q);
    assert w != e.w ==> Holds(s, w, q);
    if (v == e.w) != (w == e.w) {
      assert q in s.inFlight;
      assert Holds(s, e.w, q);
    }
  }

  lemma ShapeKeepsExact(s: State, s': State, e: Event)
    requires InFlightExact(s) && InFlightShape(s, s', e)
    ensures InFlightExact(s')
  {
    if ByWorker(e) {
      forall w: nat, q | Holds(s', w, q) ensures q in s'.inFlight { HeldIsInFlight(s, s', e, w, q); }
      forall q | q in s'.inFlight ensures exists w: nat :: Holds(s', w, q) { var w := InFlightIsHeld(s, s', e, q); }
      forall v: nat, w: nat, q | Holds(s', v, q) && Holds(s', w, q) ensures v == w { HeldOnce(s, s', e, v, w, q); }
    } else {
      forall w: nat, q ensures Holds(s', w, q) <==> (Holds(s, w, q) && !e.Boot? && !e.NextDrain?) {
        assert Is(s', w) ==> Held(PhaseOf(s', w)).None? || s'.workers == s.workers;
      }
    }
  }

  lemma ProvidersStayOk(c: Config, s: State, e: Event)
    requires ConfigOk(c) && ProvidersOk(s) && Enabled(c, s, e)
    ensures ProvidersOk(Apply(c, s, e))
  {
    var s' := Apply(c, s, e);
    LockChanges(c, s, e);
    ShapeKeepsLock(s, s', e);
    ReadingsChange(c, s, e);
    ShapeKeepsReadings(s, s', e);
    InFlightChanges(c, s, e);
    ShapeKeepsExact(s, s', e);
  }

  /** In every state of every run `en_vol` is the set of providers of the tasks in flight, each held
      by one worker, whichever path elected it. */
  lemma {:induction false} EveryProviderHasOneHolder(c: Config, states: seq<State>, events: seq<Event>, i: nat)
    requires ConfigOk(c) && IsRun(c, states, events) && i < |states|
    ensures ProvidersOk(states[i])
  {
    if i > 0 {
      assert Linked(c, states, events, i - 1);
      EveryProviderHasOneHolder(c, states, events, i - 1);
      ProvidersStayOk(c, states[i-1], events[i-1]);
    }
  }

  // ---------------------------------------------------------------- who is put aside for a while

  /** The failure is blamed on the provider: no gate refused the work, and it is not the whole
      infrastructure that is down.  The worker may be cut or crash before it has written the row. */
  predicate Blamed(e: Event) {
    || ((e.Interrupt? || e.Crash?) && e.blamed)
    || (e.Settle? && e.ending.Raised?
        && !e.ending.error.quality && !e.ending.error.infra && (e.ending.error.quota || e.ending.error.provider))
  }

  lemma SettlingCools(c: Config, s: State, e: Event)
    requires Enabled(c, s, e) && e.Settle?
    ensures Apply(c, s, e).cooldown ==
      if Blamed(e) then s.cooldown[PhaseOf(s, e.w).provider := s.clock] else s.cooldown
  {
  }

  lemma BranchesCool(c: Config, s: State, e: Event)
    requires Enabled(c, s, e) && Branches(e) && !e.Settle?
    ensures Apply(c, s, e).cooldown ==
      if Blamed(e) then s.cooldown[PhaseOf(s, e.w).provider := s.clock] else s.cooldown
  {
  }

  lemma OthersCool(c: Config, s: State, e: Event)
    requires Enabled(c, s, e) && !e.Settle?
    ensures Apply(c, s, e).cooldown ==
      if Blamed(e) then s.cooldown[PhaseOf(s, e.w).provider := s.clock] else if e.Boot? then map[] else s.cooldown
  {
    if Branches(e) { BranchesCool(c, s, e); }
  }

  lemma ClockChanges(c: Config, s: State, e: Event)
    requires Enabled(c, s, e)
    ensures Apply(c, s, e).clock == if e.Tick? then e.t else s.clock
  {
  }

  lemma CoolingMoves(s: State, s': State, e: Event, p: Provider)
    requires s.clock >= COOLDOWN && s'.clock >= s.clock && (!e.Tick? ==> s'.clock == s.clock)
    requires Blamed(e) ==> Is(s, e.w) && PhaseOf(s, e.w).Working?
    requires s'.cooldown ==
      if Blamed(e) then s.cooldown[PhaseOf(s, e.w).provider := s.clock] else if e.Boot? then map[] else s.cooldown
    ensures !Cooling(s, p) && Cooling(s', p) <==> !Cooling(s, p) && Blamed(e) && PhaseOf(s, e.w).provider == p
    ensures Cooling(s, p) && !Cooling(s', p) ==> e.Tick? || e.Boot?
  {
  }

  /** A provider starts to cool down exactly when a failure is blamed on it; nothing but time and the
      death of the process ends a cooldown. */
  lemma CoolingStartsIff(c: Config, s: State, e: Event, p: Provider)
    requires Enabled(c, s, e) && s.clock >= COOLDOWN
    ensures var s' := Apply(c, s, e);
      && (!Cooling(s, p) && Cooling(s', p) <==> !Cooling(s, p) && Blamed(e) && PhaseOf(s, e.w).provider == p)
      && (Cooling(s, p) && !Cooling(s', p) ==> e.Tick? || e.Boot?)
  {
    ClockChanges(c, s, e);
    if e.Settle? { SettlingCools(c, s, e); } else { OthersCool(c, s, e); }
    CoolingMoves(s, Apply(c, s, e), e, p);
  }

  lemma CooldownChanges(c: Config, s: State, e: Event)
    requires Enabled(c, s, e)
    ensures Blamed(e) ==> Is(s, e.w) && PhaseOf(s, e.w).Working?
    ensures Apply(c, s, e).cooldown ==
      if Blamed(e) then s.cooldown[PhaseOf(s, e.w).provider := s.clock] else if e.Boot? then map[] else s.cooldown
    ensures Apply(c, s, e).clock >= s.clock
  {
    ClockChanges(c, s, e);
    if e.Settle? { SettlingCools(c, s, e); } else { OthersCool(c, s, e); }
  }

  /** The provider of a failure blamed on it cools down for half an hour from then on. */
  lemma CoolingLasts(c: Config, s: State, e: Event, later: State)
    requires Enabled(c, s, e) && Blamed(e) && later.cooldown == Apply(c, s, e).cooldown
    ensures Cooling(later, PhaseOf(s, e.w).provider) <==> later.clock - s.clock < 1800.0
  {
    CooldownChanges(c, s, e);
  }

  /** Without the probe the paid tail is no candidate: only the cascade can give it out. */
  lemma PaidTailWaitsForTheCascade(c: Config, s: State, w: nat, world: Election.World, ranking: Election.Ranking)
    requires ConfigOk(c) && Enabled(c, s, Elect(w, world, ranking)) && c.healthy.None?
    requires ElectionOf(c, s, w, world, ranking).outcome == Election.Elected(ClaudeHaiku)
    ensures var x := PhaseOf(s, w);
      Election.ReachesCascade(Base(c), world, SceneOf(c, s, x.resting, x.tally), x.readings, ranking)
  {
    var x := PhaseOf(s, w);
    Election.ElectionOrder(Base(c), world, SceneOf(c, s, x.resting, x.tally), x.readings, ranking, s.rotation);
    Election.HeadIsMember(ranking.ordered);
    Election.HistoryIsBlamedIff(
      Base(c), world, SceneOf(c, s, x.resting, x.tally), x.readings, ranking, s.rotation);
  }

  // ---------------------------------------------------------------- who cools down during an election

  /** Whoever is cooling down after an event was so before it, or is in flight. */
  lemma OnlyHeldAreMarked(c: Config, s: State, e: Event, q: Provider)
    requires Enabled(c, s, e) && InFlightExact(s) && Cooling(Apply(c, s, e), q) && !e.Boot?
    ensures Cooling(s, q) || q in s.inFlight
  {
    CooldownChanges(c, s, e);
    if Blamed(e) && PhaseOf(s, e.w).provider == q { assert Holds(s, e.w, q); }
  }

  /** During an election nobody gives a provider back, and only its own end adds one. */
  lemma InFlightStaysDuringElection(c: Config, s: State, e: Event, w: nat)
    requires ConfigOk(c) && ProvidersOk(s) && Enabled(c, s, e) && Is(s, w) && PhaseOf(s, w).Electing?
    requires var s' := Apply(c, s, e); Is(s', w) && PhaseOf(s', w).Electing?
    ensures Apply(c, s, e).inFlight == s.inFlight && !e.Boot? && !e.NextDrain? && !e.TakeLock?
  {
    OnlyTheActorMoves(c, s, e);
    assert s.lock == Some(w);
    if e.Elect? {
      assert s.lock == Some(e.w);
    } else if !Frees(e) {
      OthersKeepFlight(c, s, e);
    }
  }

  lemma OthersKeepFlight(c: Config, s: State, e: Event)
    requires Enabled(c, s, e) && !e.Elect? && !Frees(e) && !e.Boot? && !e.NextDrain?
    ensures Apply(c, s, e).inFlight == s.inFlight
  {
    if Branches(e) { BranchesKeepHeld(c, s, e); } else if ByWorker(e) { RestKeepsHeld(c, s, e); }
  }

  predicate RestingKept(x: Phase, x': Phase) { x'.Electing? ==> x.Electing? && x'.resting == x.resting }

  lemma BranchesKeepResting(c: Config, s: State, e: Event)
    requires Enabled(c, s, e) && Branches(e)
    ensures Is(Apply(c, s, e), e.w) && RestingKept(PhaseOf(s, e.w), PhaseOf(Apply(c, s, e), e.w))
  {
  }

  lemma RestKeepsResting(c: Config, s: State, e: Event)
    requires Enabled(c, s, e) && ByWorker(e) && !Branches(e) && !e.TakeLock?
    ensures Is(Apply(c, s, e), e.w) && RestingKept(PhaseOf(s, e.w), PhaseOf(Apply(c, s, e), e.w))
  {
  }

  lemma RestingComesFrom(c: Config, s: State, e: Event, w: nat)
    requires Enabled(c, s, e) && Is(Apply(c, s, e), w) && PhaseOf(Apply(c, s, e), w).Electing?
    requires !(e.TakeLock? && e.w == w)
    ensures Is(s, w) && RestingKept(PhaseOf(s, w), PhaseOf(Apply(c, s, e), w))
  {
    OnlyTheActorMoves(c, s, e);
    if ByWorker(e) && e.w == w {
      if Branches(e) { BranchesKeepResting(c, s, e); } else { RestKeepsResting(c, s, e); }
    }
  }

  lemma RestingStaysOk(c: Config, s: State, e: Event)
    requires ConfigOk(c) && ProvidersOk(s) && RestingOk(c, s) && Enabled(c, s, e)
    ensures RestingOk(c, Apply(c, s, e))
  {
    var s' := Apply(c, s, e);
    forall w: nat, q | Is(s', w) && PhaseOf(s', w).Electing? && q in CoolingAmong(s', Known(c)) && q !in s'.inFlight
      ensures q in PhaseOf(s', w).resting
    {
      if !(e.TakeLock? && e.w == w) {
        RestingComesFrom(c, s, e, w);
        InFlightStaysDuringElection(c, s, e, w);
        OnlyHeldAreMarked(c, s, e, q);
      }
    }
  }

  lemma {:induction false} RestingOfARun(c: Config, states: seq<State>, events: seq<Event>, i: nat)
    requires ConfigOk(c) && IsRun(c, states, events) && i < |states|
    ensures RestingOk(c, states[i])
  {
    if i > 0 {
      assert Linked(c, states, events, i - 1);
      RestingOfARun(c, states, events, i - 1);
      EveryProviderHasOneHolder(c, states, events, i - 1);
      RestingStaysOk(c, states[i-1], events[i-1]);
    } else {
      forall w: nat | Is(states[0], w) ensures !PhaseOf(states[0], w).Electing? {
        assert states[0].workers[w] == Worker(Top, {});
      }
    }
  }

  /** In every run an election gives out a provider that is cooling down at that moment exactly when
      it comes down to a paid tail that is cooling, although the candidates were looked at before the
      quotas were read. */
  lemma CoolingIsElectedIff(c: Config, states: seq<State>, events: seq<Event>, i: nat)
    requires ConfigOk(c) && IsRun(c, states, events) && i < |events| && events[i].Elect?
    ensures Enabled(c, states[i], events[i])
    ensures var s, e := states[i], events[i];
      var p, o := PhaseOf(s, e.w), ElectionOf(c, s, e.w, e.world, e.ranking).outcome;
      var scene := SceneOf(c, s, p.resting, p.tally);
      o.Elected? && o.provider in CoolingAmong(s, Known(c)) <==>
        && Election.ReachesCascade(Base(c), e.world, scene, p.readings, e.ranking)
        && Election.TailIsCooling(
             e.world, scene.(taken := scene.taken + Election.Exhausted(p.readings) + e.ranking.excluded))
  {
    assert Linked(c, states, events, i);
    RestingOfARun(c, states, events, i);
    var s, e := states[i], events[i];
    var p := PhaseOf(s, e.w);
    Election.CoolingIsElectedIff(
      Base(c), e.world, SceneOf(c, s, p.resting, p.tally), p.readings, e.ranking, s.rotation);
  }
}

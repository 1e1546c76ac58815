/** The daily quota of the counted free tiers, over every run of the drain.

    The quota is tested under the lock, some awaits before the provider enters `en_vol`; the record
    is written much later, under no lock.  The windows stay bounded because a provider leaves
    `en_vol` only after its one record, and nothing leaves `en_vol` while an election is going on. */
module DrainQuota {
  import opened Wrappers
  import opened Backlog
  import opened Providers
  import opened UsageLedger
  import opened DrainProtocol
  import opened DrainProviders
  import Election = ProviderElection

  /** What an election in progress has seen of p still holds, if p can be elected at all. */
  ghost predicate SeenIsTrue(c: Config, s: State, p: Provider) {
    forall w: nat :: Is(s, w) && PhaseOf(s, w).Electing? && p !in s.inFlight && Sighted(PhaseOf(s, w), p) ==>
      CountAfter(s.ledger, p, s.clock - DAY) < Limit(c, p)
  }

  predicate Owes(x: Phase, p: Provider) { x.Working? && x.provider == p && !x.unsighted && !x.recorded }

  /** A call elected on sight still has its room, counted from its election. */
  ghost predicate RoomIsKept(c: Config, s: State, p: Provider) {
    forall w: nat :: Is(s, w) && Owes(PhaseOf(s, w), p) ==>
      CountAfter(s.ledger, p, PhaseOf(s, w).since - DAY) < Limit(c, p)
  }

  ghost predicate QuotaOk(c: Config, s: State, p: Provider) { SeenIsTrue(c, s, p) && RoomIsKept(c, s, p) }

  predicate Neutral(e: Event) {
    !e.Tick? && !e.Record? && !e.ReadQuota? && !e.ReadCascade? && !e.TakeLock? && !e.Elect? && !Frees(e)
    && !e.Boot? && !e.NextDrain?
  }

  ghost predicate QuotaUntouched(s: State, s': State, e: Event) {
    && ActorOnly(s, s', e)
    && s'.ledger == s.ledger && s'.clock == s.clock && s'.inFlight == s.inFlight
    && (ByWorker(e) ==>
          var x := PhaseOf(s', e.w);
          !x.Electing? && (x.Working? ==> x == PhaseOf(s, e.w)))
  }

  lemma NeutralEvents(c: Config, s: State, e: Event)
    requires Enabled(c, s, e) && Neutral(e)
    ensures QuotaUntouched(s, Apply(c, s, e), e)
  {
    OnlyTheActorMoves(c, s, e);
  }

  lemma UntouchedIsKept(c: Config, s: State, s': State, e: Event, p: Provider)
    requires QuotaOk(c, s, p) && QuotaUntouched(s, s', e) && Neutral(e)
    ensures QuotaOk(c, s', p)
  {
    forall w: nat | Is(s', w) && PhaseOf(s', w).Electing? && p !in s'.inFlight && Sighted(PhaseOf(s', w), p)
      ensures CountAfter(s'.ledger, p, s'.clock - DAY) < Limit(c, p)
    {
      assert Is(s, w) && PhaseOf(s, w) == PhaseOf(s', w);
    }
    forall w: nat | Is(s', w) && Owes(PhaseOf(s', w), p)
      ensures CountAfter(s'.ledger, p, PhaseOf(s', w).since - DAY) < Limit(c, p)
    {
      assert Is(s, w) && PhaseOf(s, w) == PhaseOf(s', w);
    }
  }

  lemma TickKeepsQuota(c: Config, s: State, t: Time, p: Provider)
    requires QuotaOk(c, s, p) && t >= s.clock
    ensures QuotaOk(c, s.(clock := t), p)
  {
    var s' := s.(clock := t);
    CountAfterShrinks(s.ledger, p, t - DAY, s.clock - DAY);
    forall w: nat | Is(s', w) && PhaseOf(s', w).Electing? && p !in s'.inFlight && Sighted(PhaseOf(s', w), p)
      ensures CountAfter(s'.ledger, p, s'.clock - DAY) < Limit(c, p)
    {
      assert Is(s, w) && PhaseOf(s, w) == PhaseOf(s', w);
    }
    forall w: nat | Is(s', w) && Owes(PhaseOf(s', w), p)
      ensures CountAfter(s'.ledger, p, PhaseOf(s', w).since - DAY) < Limit(c, p)
    {
      assert Is(s, w) && PhaseOf(s, w) == PhaseOf(s', w);
    }
  }

  lemma SeenAfterRecord(c: Config, s: State, w: nat, at: Time, p: Provider)
    requires SeenIsTrue(c, s, p) && ProvidersOk(s) && Enabled(c, s, Record(w, at))
    ensures SeenIsTrue(c, Apply(c, s, Record(w, at)), p)
  {
    var s' := Apply(c, s, Record(w, at));
    var x := PhaseOf(s, w);
    assert Holds(s, w, x.provider);
    forall v: nat | Is(s', v) && PhaseOf(s', v).Electing? && p !in s'.inFlight && Sighted(PhaseOf(s', v), p)
      ensures CountAfter(s'.ledger, p, s'.clock - DAY) < Limit(c, p)
    {
      assert Is(s, v) && PhaseOf(s, v) == PhaseOf(s', v);
      CountOfOther(s.ledger, Entry(x.provider, at, x.unsighted), p, s.clock - DAY);
    }
  }

  lemma RoomAfterRecord(c: Config, s: State, w: nat, at: Time, p: Provider)
    requires RoomIsKept(c, s, p) && ProvidersOk(s) && Enabled(c, s, Record(w, at))
    ensures RoomIsKept(c, Apply(c, s, Record(w, at)), p)
  {
    var s' := Apply(c, s, Record(w, at));
    var x := PhaseOf(s, w);
    assert Holds(s, w, x.provider);
    forall v: nat | Is(s', v) && Owes(PhaseOf(s', v), p)
      ensures CountAfter(s'.ledger, p, PhaseOf(s', v).since - DAY) < Limit(c, p)
    {
      assert v != w && Is(s, v) && PhaseOf(s, v) == PhaseOf(s', v);
      assert Holds(s, v, p);
      CountOfOther(s.ledger, Entry(x.provider, at, x.unsighted), p, PhaseOf(s, v).since - DAY);
    }
  }

  /** The one record of a task uses up its own room, and touches nobody else's. */
  lemma RecordKeepsQuota(c: Config, s: State, w: nat, at: Time, p: Provider)
    requires QuotaOk(c, s, p) && ProvidersOk(s) && Counted(p)
    requires Enabled(c, s, Record(w, at))
    ensures QuotaOk(c, Apply(c, s, Record(w, at)), p)
  {
    SeenAfterRecord(c, s, w, at, p);
    RoomAfterRecord(c, s, w, at, p);
  }

  /** The quota test of a candidate finds it exhausted exactly when the ledger answers, the limit is set
      and the calls of the last day reach it; without an answer or a limit it is blind. */
  lemma QuotaTestTells(c: Config, s: State, e: Event)
    requires Enabled(c, s, e) && e.ReadQuota?
    ensures var s' := Apply(c, s, e);
      && Is(s', e.w) && PhaseOf(s', e.w).Electing?
      && var x, x' := PhaseOf(s, e.w), PhaseOf(s', e.w);
        var limit := if e.p.GeminiFree? then c.geminiLimit else c.deepseekLimit;
        var calls := |set i | 0 <= i < |s.ledger| && s.ledger[i].provider == e.p && s.ledger[i].at > s.clock - 86400.0|;
        && x'.readings == x.readings[e.p := e.readable && limit > 0 && calls >= limit]
        && x'.blind == (if e.readable && limit > 0 then x.blind - {e.p} else x.blind + {e.p})
        && x' == x.(readings := x'.readings, blind := x'.blind)
  {
    CountAfterIsTheNumber(s.ledger, e.p, s.clock - DAY);
  }

  /** What the cascade reads: a tier is left exactly when its calls of the last day are below its limit. */
  lemma TallyTells(c: Config, s: State, e: Event)
    requires Enabled(c, s, e) && e.ReadCascade?
    ensures var s' := Apply(c, s, e);
      && Is(s', e.w) && PhaseOf(s', e.w).Electing? && PhaseOf(s', e.w).tally.Some?
      && var tally := PhaseOf(s', e.w).tally.value;
        var l, since := s.ledger, s.clock - 86400.0;
        && (tally.geminiLeft <==>
              |set i | 0 <= i < |l| && l[i].provider == GeminiFree && l[i].at > since| < c.geminiLimit)
        && (tally.deepseekLeft <==>
              |set i | 0 <= i < |l| && l[i].provider == DeepseekFree && l[i].at > since| < c.deepseekLimit)
  {
    CountAfterIsTheNumber(s.ledger, GeminiFree, s.clock - DAY);
    CountAfterIsTheNumber(s.ledger, DeepseekFree, s.clock - DAY);
  }

  /** Readings made under the lock are true when they are made. */
  lemma ReadingIsTrue(c: Config, s: State, e: Event, p: Provider)
    requires QuotaOk(c, s, p) && Counted(p)
    requires e.ReadQuota? || e.ReadCascade? || e.TakeLock?
    requires Enabled(c, s, e)
    ensures var x := PhaseOf(Apply(c, s, e), e.w);
      x.Electing? && (p !in s.inFlight && Sighted(x, p) ==> CountAfter(s.ledger, p, s.clock - DAY) < Limit(c, p))
  {
    var x, x' := PhaseOf(s, e.w), PhaseOf(Apply(c, s, e), e.w);
    if x.Electing? && Sighted(x, p) && p !in s.inFlight {
      assert CountAfter(s.ledger, p, s.clock - DAY) < Limit(c, p);
    }
  }

  /** What the readings of a worker are about does not move when another worker reads. */
  lemma TrueReadingKeepsQuota(c: Config, s: State, s': State, w: nat, p: Provider)
    requires QuotaOk(c, s, p)
    requires Is(s, w) && |s'.workers| == |s.workers| && s'.workers == s.workers[w := s'.workers[w]]
    requires s'.ledger == s.ledger && s'.clock == s.clock && s'.inFlight == s.inFlight
    requires var x := PhaseOf(s', w);
      x.Electing? && (p !in s.inFlight && Sighted(x, p) ==> CountAfter(s.ledger, p, s.clock - DAY) < Limit(c, p))
    ensures QuotaOk(c, s', p)
  {
    forall v: nat | Is(s', v) && PhaseOf(s', v).Electing? && p !in s'.inFlight && Sighted(PhaseOf(s', v), p)
      ensures CountAfter(s'.ledger, p, s'.clock - DAY) < Limit(c, p)
    {
      assert v != w ==> Is(s, v) && PhaseOf(s, v) == PhaseOf(s', v);
    }
    forall v: nat | Is(s', v) && Owes(PhaseOf(s', v), p)
      ensures CountAfter(s'.ledger, p, PhaseOf(s', v).since - DAY) < Limit(c, p)
    {
      assert Is(s, v) && PhaseOf(s, v) == PhaseOf(s', v);
    }
  }

  lemma ReadingKeepsQuota(c: Config, s: State, e: Event, p: Provider)
    requires QuotaOk(c, s, p) && Counted(p)
    requires e.ReadQuota? || e.ReadCascade? || e.TakeLock?
    requires Enabled(c, s, e)
    ensures QuotaOk(c, Apply(c, s, e), p)
  {
    ReadingIsTrue(c, s, e, p);
    OnlyTheActorMoves(c, s, e);
    TrueReadingKeepsQuota(c, s, Apply(c, s, e), e.w, p);
  }

  /** The room seen becomes the room owed. */
  lemma ElectionKeepsQuota(c: Config, s: State, w: nat, x: Election.Election, p: Provider)
    requires QuotaOk(c, s, p) && ProvidersOk(s)
    requires Is(s, w) && PhaseOf(s, w).Electing?
    requires x.outcome.Elected? ==> x.outcome.provider !in s.inFlight
    requires Counted(p)
    ensures QuotaOk(c, AfterElection(s, w, x), p)
  {
    var s' := AfterElection(s, w, x);
    forall v: nat | Is(s', v) ensures !PhaseOf(s', v).Electing? {
      assert v != w ==> Is(s, v) && PhaseOf(s, v) == PhaseOf(s', v);
    }
    forall v: nat | Is(s', v) && Owes(PhaseOf(s', v), p)
      ensures CountAfter(s'.ledger, p, PhaseOf(s', v).since - DAY) < Limit(c, p)
    {
      assert Is(s, v) && (v != w ==> PhaseOf(s, v) == PhaseOf(s', v));
    }
  }

  lemma FreeingLeavesLedger(c: Config, s: State, e: Event)
    requires Enabled(c, s, e) && Frees(e)
    ensures ActorOnly(s, Apply(c, s, e), e) && Apply(c, s, e).ledger == s.ledger && Apply(c, s, e).clock == s.clock
    ensures Held(PhaseOf(s, e.w)).None? ==> Apply(c, s, e).inFlight == s.inFlight
    ensures Held(PhaseOf(s, e.w)).Some? ==> s.lock.None?
    ensures var x := PhaseOf(Apply(c, s, e), e.w); !x.Electing? && !x.Working?
  {
    OnlyTheActorMoves(c, s, e);
  }

  /** Nobody is electing while a provider is given back. */
  lemma FreeingKeepsQuota(c: Config, s: State, e: Event, p: Provider)
    requires QuotaOk(c, s, p) && ProvidersOk(s) && Enabled(c, s, e) && Frees(e)
    ensures QuotaOk(c, Apply(c, s, e), p)
  {
    var s' := Apply(c, s, e);
    FreeingLeavesLedger(c, s, e);
    forall v: nat | Is(s', v) && PhaseOf(s', v).Electing? && p !in s'.inFlight && Sighted(PhaseOf(s', v), p)
      ensures CountAfter(s'.ledger, p, s'.clock - DAY) < Limit(c, p)
    {
      assert v != e.w && Is(s, v) && PhaseOf(s, v) == PhaseOf(s', v);
    }
    forall v: nat | Is(s', v) && Owes(PhaseOf(s', v), p)
      ensures CountAfter(s'.ledger, p, PhaseOf(s', v).since - DAY) < Limit(c, p)
    {
      assert v != e.w && Is(s, v) && PhaseOf(s, v) == PhaseOf(s', v);
    }
  }

  lemma RestartKeepsQuota(c: Config, s: State, e: Event, p: Provider)
    requires QuotaOk(c, s, p) && Enabled(c, s, e) && (e.Boot? || e.NextDrain?)
    ensures QuotaOk(c, Apply(c, s, e), p)
  {
    var s' := Apply(c, s, e);
    OnlyTheActorMoves(c, s, e);
    assert forall v: nat :: Is(s', v) ==> PhaseOf(s', v).Top?;
    assert s'.ledger == s.ledger;
  }

  lemma QuotaStaysOk(c: Config, s: State, e: Event, p: Provider)
    requires ConfigOk(c) && ProvidersOk(s) && Enabled(c, s, e)
    requires Counted(p) && QuotaOk(c, s, p)
    ensures QuotaOk(c, Apply(c, s, e), p)
  {
    if Neutral(e) {
      NeutralEvents(c, s, e);
      UntouchedIsKept(c, s, Apply(c, s, e), e, p);
    } else if e.Tick? {
      TickKeepsQuota(c, s, e.t, p);
    } else if e.Record? {
      RecordKeepsQuota(c, s, e.w, e.at, p);
    } else if e.Elect? {
      ElectedIsFree(c, s, e.w, e.world, e.ranking);
      ElectionKeepsQuota(c, s, e.w, ElectionOf(c, s, e.w, e.world, e.ranking), p);
    } else if Frees(e) {
      FreeingKeepsQuota(c, s, e, p);
    } else if e.Boot? || e.NextDrain? {
      RestartKeepsQuota(c, s, e, p);
    } else {
      ReadingKeepsQuota(c, s, e, p);
    }
  }

  lemma {:induction false} QuotaOfARun(c: Config, states: seq<State>, events: seq<Event>, i: nat, p: Provider)
    requires ConfigOk(c) && IsRun(c, states, events) && i < |states| && Counted(p)
    ensures QuotaOk(c, states[i], p)
  {
    if i > 0 {
      assert Linked(c, states, events, i - 1);
      QuotaOfARun(c, states, events, i - 1, p);
      EveryProviderHasOneHolder(c, states, events, i - 1);
      QuotaStaysOk(c, states[i-1], events[i-1], p);
    } else {
      forall w: nat | Is(states[0], w) ensures PhaseOf(states[0], w).Top? {
        assert states[0].workers[w] == Worker(Top, {});
      }
    }
  }

  lemma LedgerGrows(c: Config, s: State, e: Event)
    requires Enabled(c, s, e)
    ensures Apply(c, s, e).ledger == if e.Record?
      then s.ledger + [Entry(PhaseOf(s, e.w).provider, e.at, PhaseOf(s, e.w).unsighted)] else s.ledger
  {
  }

  predicate IsRecord(s: State, e: Event) { e.Record? && Is(s, e.w) && PhaseOf(s, e.w).Working? }

  function EntryOf(s: State, e: Event): Entry
    requires IsRecord(s, e)
  {
    Entry(PhaseOf(s, e.w).provider, e.at, PhaseOf(s, e.w).unsighted)
  }

  /** From every start, whatever the ledger holds: a recorded call of a counted tier that was elected
      on sight leaves at most `Limit(c, p)` calls, blind ones included, in every day that contains it. */
  lemma SightedCallHasRoom(c: Config, states: seq<State>, events: seq<Event>, i: nat, p: Provider, until: Time)
    requires ConfigOk(c) && IsRun(c, states, events) && i < |events| && (p.GeminiFree? || p.DeepseekFree?)
    requires IsRecord(states[i], events[i])
    requires var entry := EntryOf(states[i], events[i]); InWindow(entry, p, until) && !entry.blind
    ensures states[i+1].ledger == states[i].ledger + [EntryOf(states[i], events[i])]
    ensures CountIn(states[i+1].ledger, p, until) <= Limit(c, p)
  {
    assert Linked(c, states, events, i);
    QuotaOfARun(c, states, events, i, p);
    var s, e := states[i], events[i];
    assert Owes(PhaseOf(s, e.w), p);
    RecordHasRoom(s.ledger, p, Limit(c, p), EntryOf(s, e), PhaseOf(s, e.w).since, until);
  }

  /** In every run, from every start: no window of one day ever holds more recorded calls of a counted
      tier than its limit, or than it held at the start, apart from calls elected while the ledger
      could not be read. */
  lemma {:induction false} DailyQuotaHolds(
      c: Config, states: seq<State>, events: seq<Event>, i: nat, p: Provider, until: Time)
    requires ConfigOk(c) && IsRun(c, states, events) && i < |states| && (p.GeminiFree? || p.DeepseekFree?)
    ensures WindowBounded(states[0].ledger, states[i].ledger, p, Limit(c, p), until)
  {
    if i > 0 {
      assert Linked(c, states, events, i - 1);
      DailyQuotaHolds(c, states, events, i - 1, p, until);
      QuotaOfARun(c, states, events, i - 1, p);
      var s, e := states[i-1], events[i-1];
      LedgerGrows(c, s, e);
      if e.Record? {
        assert EntryOf(s, e).provider == p && !EntryOf(s, e).blind ==> Owes(PhaseOf(s, e.w), p);
        RecordKeepsWindows(
          states[0].ledger, s.ledger, p, Limit(c, p), EntryOf(s, e), PhaseOf(s, e.w).since, until);
      }
    }
  }

  // ---------------------------------------------------------------- what is done is recorded

  ghost predicate InLedger(l: Ledger, p: Provider, since: Time) {
    exists i :: 0 <= i < |l| && l[i].provider == p && l[i].at >= since
  }

  /** A worker that says its call is recorded is right. */
  ghost predicate RecordedOk(s: State) {
    forall w: nat :: Is(s, w) && PhaseOf(s, w).Working? && PhaseOf(s, w).recorded ==>
      InLedger(s.ledger, PhaseOf(s, w).provider, PhaseOf(s, w).since)
  }

  predicate RecordKept(x: Phase, x': Phase) { x'.Working? && x'.recorded ==> x == x' }

  lemma BranchesKeepRecord(c: Config, s: State, e: Event)
    requires Enabled(c, s, e) && Branches(e)
    ensures Is(Apply(c, s, e), e.w) && RecordKept(PhaseOf(s, e.w), PhaseOf(Apply(c, s, e), e.w))
  {
  }

  lemma RestKeepsRecord(c: Config, s: State, e: Event)
    requires Enabled(c, s, e) && ByWorker(e) && !Branches(e) && !e.Record?
    ensures Is(Apply(c, s, e), e.w) && RecordKept(PhaseOf(s, e.w), PhaseOf(Apply(c, s, e), e.w))
  {
  }

  lemma LedgerOnlyGrows(l: Ledger, more: Ledger, p: Provider, since: Time)
    requires InLedger(l, p, since)
    ensures InLedger(l + more, p, since)
  {
    var i :| 0 <= i < |l| && l[i].provider == p && l[i].at >= since;
    assert (l + more)[i] == l[i];
  }

  lemma RecordedStaysOk(c: Config, s: State, e: Event)
    requires Enabled(c, s, e) && RecordedOk(s)
    ensures RecordedOk(Apply(c, s, e))
  {
    var s' := Apply(c, s, e);
    OnlyTheActorMoves(c, s, e);
    LedgerGrows(c, s, e);
    if Branches(e) { BranchesKeepRecord(c, s, e); } else if ByWorker(e) && !e.Record? { RestKeepsRecord(c, s, e); }
    forall w: nat | Is(s', w) && PhaseOf(s', w).Working? && PhaseOf(s', w).recorded
      ensures InLedger(s'.ledger, PhaseOf(s', w).provider, PhaseOf(s', w).since)
    {
      if e.Record? && e.w == w {
        assert s'.ledger[|s.ledger|].provider == PhaseOf(s', w).provider;
      } else {
        assert Is(s, w) && PhaseOf(s, w) == PhaseOf(s', w);
        LedgerOnlyGrows(s.ledger, s'.ledger[|s.ledger|..], PhaseOf(s, w).provider, PhaseOf(s, w).since);
        assert s'.ledger == s.ledger + s'.ledger[|s.ledger|..];
      }
    }
  }

  lemma {:induction false} RecordedInARun(c: Config, states: seq<State>, events: seq<Event>, i: nat)
    requires IsRun(c, states, events) && i < |states|
    ensures RecordedOk(states[i])
  {
    if i > 0 {
      assert Linked(c, states, events, i - 1);
      RecordedInARun(c, states, events, i - 1);
      RecordedStaysOk(c, states[i-1], events[i-1]);
    } else {
      forall w: nat | Is(states[0], w) ensures PhaseOf(states[0], w).Top? {
        assert states[0].workers[w] == Worker(Top, {});
      }
    }
  }

  /** In every run a task that is completed has its call in the ledger, dated after its election. */
  lemma CompletedIsRecorded(c: Config, states: seq<State>, events: seq<Event>, i: nat)
    requires IsRun(c, states, events) && i < |events| && events[i].Settle? && events[i].ending.Done?
    ensures Is(states[i], events[i].w) && PhaseOf(states[i], events[i].w).Working?
    ensures var x := PhaseOf(states[i], events[i].w); InLedger(states[i].ledger, x.provider, x.since)
  {
    assert Linked(c, states, events, i);
    RecordedInARun(c, states, events, i);
  }

  // ---------------------------------------------------------------- when the ledger always answers

  ghost predicate NeverBlind(s: State, p: Provider) { forall w: nat :: Is(s, w) ==> SeesWell(PhaseOf(s, w), p) }

  predicate SeesWell(x: Phase, p: Provider) {
    && (x.Electing? ==> p !in x.blind)
    && (x.Working? && x.provider == p ==> !x.unsighted)
  }

  predicate Answered(c: Config, e: Event, p: Provider) {
    e.ReadQuota? && e.p == p ==> e.readable && Limit(c, p) > 0
  }

  predicate SightKept(x: Phase, x': Phase) {
    && (x'.Electing? ==> x'.blind == {} || (x.Electing? && x'.blind == x.blind))
    && (x'.Working? ==> x.Working? && x'.provider == x.provider && x'.unsighted == x.unsighted)
  }

  lemma BranchesKeepSight(c: Config, s: State, e: Event)
    requires Enabled(c, s, e) && Branches(e) && !e.Elect?
    ensures Is(Apply(c, s, e), e.w) && SightKept(PhaseOf(s, e.w), PhaseOf(Apply(c, s, e), e.w))
  {
  }

  lemma RestKeepsSight(c: Config, s: State, e: Event)
    requires Enabled(c, s, e) && ByWorker(e) && !e.ReadQuota? && !Branches(e)
    ensures Is(Apply(c, s, e), e.w) && SightKept(PhaseOf(s, e.w), PhaseOf(Apply(c, s, e), e.w))
  {
  }

  lemma ActorSeesWell(c: Config, s: State, e: Event, p: Provider)
    requires ConfigOk(c) && ReadingsOk(s) && Enabled(c, s, e) && ByWorker(e) && Answered(c, e, p) && Counted(p)
    requires SeesWell(PhaseOf(s, e.w), p)
    ensures Is(Apply(c, s, e), e.w) && SeesWell(PhaseOf(Apply(c, s, e), e.w), p)
  {
    if e.Elect? {
      ElectedIsFree(c, s, e.w, e.world, e.ranking);
    } else if !e.ReadQuota? {
      if Branches(e) { BranchesKeepSight(c, s, e); } else { RestKeepsSight(c, s, e); }
    }
  }

  lemma NeverBlindIsKept(c: Config, s: State, e: Event, p: Provider)
    requires ConfigOk(c) && ReadingsOk(s) && Enabled(c, s, e) && Answered(c, e, p) && Counted(p)
    requires NeverBlind(s, p)
    ensures NeverBlind(Apply(c, s, e), p)
  {
    var s' := Apply(c, s, e);
    OnlyTheActorMoves(c, s, e);
    if ByWorker(e) { ActorSeesWell(c, s, e, p); }
    forall w: nat | Is(s', w) ensures SeesWell(PhaseOf(s', w), p) {
      assert Is(s, w) ==> SeesWell(PhaseOf(s, w), p);
    }
  }

  lemma {:induction false} NeverBlindInARun(c: Config, states: seq<State>, events: seq<Event>, i: nat, p: Provider)
    requires ConfigOk(c) && IsRun(c, states, events) && i < |states| && Counted(p)
    requires forall j :: 0 <= j < |events| ==> Answered(c, events[j], p)
    ensures NeverBlind(states[i], p)
  {
    if i > 0 {
      assert Linked(c, states, events, i - 1);
      NeverBlindInARun(c, states, events, i - 1, p);
      EveryProviderHasOneHolder(c, states, events, i - 1);
      NeverBlindIsKept(c, states[i-1], events[i-1], p);
    }
  }

  lemma AnsweredStep(c: Config, states: seq<State>, events: seq<Event>, i: nat, p: Provider, until: Time)
    requires ConfigOk(c) && IsRun(c, states, events) && i < |events| && Counted(p)
    requires forall j :: 0 <= j < |events| ==> Answered(c, events[j], p)
    ensures var now, before := CountIn(states[i+1].ledger, p, until), CountIn(states[i].ledger, p, until);
      before <= now && (now <= Limit(c, p) || now == before)
  {
    assert Linked(c, states, events, i);
    var s, e := states[i], events[i];
    LedgerGrows(c, s, e);
    if e.Record? {
      NeverBlindInARun(c, states, events, i, p);
      WindowAfterRecord(s.ledger, p, EntryOf(s, e), until);
      if InWindow(EntryOf(s, e), p, until) { SightedCallHasRoom(c, states, events, i, p, until); }
    }
  }

  /** If every quota test of p gets its answer and the limit is positive, the limit is exact: no
      window of one day ever holds more than `Limit(c, p)` recorded calls, unless it did at the start,
      and then it gets no other. */
  lemma {:induction false} DailyQuotaIsExact(
      c: Config, states: seq<State>, events: seq<Event>, i: nat, p: Provider, until: Time)
    requires ConfigOk(c) && IsRun(c, states, events) && i < |states| && (p.GeminiFree? || p.DeepseekFree?)
    requires forall j :: 0 <= j < |events| ==> Answered(c, events[j], p)
    ensures var now, was := CountIn(states[i].ledger, p, until), CountIn(states[0].ledger, p, until);
      was <= now && (now <= Limit(c, p) || now == was)
  {
    if i > 0 {
      DailyQuotaIsExact(c, states, events, i - 1, p, until);
      AnsweredStep(c, states, events, i - 1, p, until);
    }
  }
}

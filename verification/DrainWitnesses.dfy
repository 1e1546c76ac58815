/** Runs of the drain in which something goes wrong, for the conditions of the theorems: none of them
    can be dropped. */
module DrainWitnesses {
  import opened Wrappers
  import opened Backlog
  import opened Providers
  import opened UsageLedger
  import opened FailureVerdict
  import opened DrainProtocol
  import opened DrainQuota
  import opened DrainLifecycle
  import opened TaskLifecycle
  import Election = ProviderElection

  // ---------------------------------------------------------------- building a run

  function Last<T>(xs: seq<T>): T
    requires xs != []
  {
    xs[|xs|-1]
  }

  /** One more event at the end of a run. */
  lemma Extend(c: Config, states: seq<State>, events: seq<Event>, e: Event)
    requires IsRun(c, states, events) && Enabled(c, Last(states), e)
    ensures IsRun(c, states + [Apply(c, Last(states), e)], events + [e])
  {
    var states', events' := states + [Apply(c, Last(states), e)], events + [e];
    forall i: nat | i < |events'| ensures Linked(c, states', events', i) {
      if i < |events| {
        assert Linked(c, states, events, i);
        assert states'[i] == states[i] && states'[i+1] == states[i+1] && events'[i] == events[i];
      }
    }
  }

  /** A run, told by its last state. */
  datatype Run = Run(states: seq<State>, events: seq<Event>)

  ghost predicate RunTo(c: Config, r: Run, s: State) { IsRun(c, r.states, r.events) && Last(r.states) == s }

  /** r' goes on where r stops. */
  predicate GoesOn(r: Run, r': Run) { r.states <= r'.states && r.events <= r'.events }

  lemma Step(c: Config, r: Run, s: State, e: Event) returns (r': Run)
    requires RunTo(c, r, s) && Enabled(c, s, e)
    ensures RunTo(c, r', Apply(c, s, e)) && GoesOn(r, r')
    ensures |r'.states| == |r.states| + 1 && Last(r'.events) == e
  {
    Extend(c, r.states, r.events, e);
    r' := Run(r.states + [Apply(c, s, e)], r.events + [e]);
  }

  // ---------------------------------------------------------------- the ordinary steps

  /** Three providers answered the probe, so three workers drain. */
  const PROBED: set<Provider> := {CohereFree, MistralFree, GeminiCli}
  const CONFIG: Config := Config(1, 1, Some(PROBED), PROBED, [], DEFAULT_DELAY)
  const NO_WORLD := Election.World([], {}, true, false, false, false, false, false, true, false, false)

  predicate Idle(s: State, w: nat) { Is(s, w) && s.workers[w] == Worker(Top, {}) }

  predicate Quiet(s: State) { s.cooldown == map[] && s.clock >= COOLDOWN && s.lock.None? }

  predicate OneRow(s: State, id: nat, row: Row) {
    s.rows == map[id := row] && row.status.Pending? && Due(row, s.clock) && row.retries < MAX_ATTEMPTS
  }

  /** The state with worker w in phase p. */
  function With(s: State, w: nat, p: Phase): State
    requires Is(s, w)
  {
    s.(workers := s.workers[w := Worker(p, {})])
  }

  /** Equal but for the history and the rotation, which no event depends on here. */
  predicate Alike(s: State, t: State) { s == t.(history := s.history, rotation := s.rotation) }

  lemma Passes(c: Config, r: Run, s: State, w: nat) returns (r': Run, s': State)
    requires RunTo(c, r, s) && Idle(s, w) && s.clock < s.deadline
    ensures RunTo(c, r', s') && GoesOn(r, r') && Alike(s', With(s, w, Cleared))
    ensures s'.history.lastCharge == s.history.lastCharge
  {
    r' := Step(c, r, s, Pass(w));
    s' := Apply(c, s, Pass(w));
  }

  lemma Reserves(c: Config, r: Run, s: State, w: nat, id: nat, row: Row) returns (r': Run, s': State)
    requires RunTo(c, r, s) && Is(s, w) && s.workers[w] == Worker(Cleared, {}) && OneRow(s, id, row)
    ensures RunTo(c, r', s') && GoesOn(r, r')
    ensures Alike(s', With(s, w, Picked(Task(id, row.retries))).(rows := map[id := row.(status := Running)]))
    ensures s'.history.lastCharge == s.history.lastCharge
  {
    assert Eligible(s.rows, id, s.clock, {});
    r' := Step(c, r, s, Reserve(w, id));
    s' := Apply(c, s, Reserve(w, id));
    assert s'.rows == map[id := row.(status := Running)];
  }

  /** The ranking keeps p alone: history excludes the other candidates. */
  function Only(p: Provider, candidates: set<Provider>): Election.Ranking { Election.Ranking([p], candidates - {p}) }

  lemma ElectsOnly(s: State, w: nat, p: Provider) returns (e: Event)
    requires Is(s, w) && s.cooldown == map[] && s.clock >= COOLDOWN && p in PROBED && p !in s.inFlight
    requires PhaseOf(s, w).Electing? && PhaseOf(s, w).readings == map[] && PhaseOf(s, w).tally == None
    requires PhaseOf(s, w).resting == {}
    ensures e.Elect? && e.w == w && Enabled(CONFIG, s, e)
    ensures ElectionOf(CONFIG, s, w, e.world, e.ranking) == Election.Election(Election.Elected(p), s.rotation)
  {
    var scene := SceneOf(CONFIG, s, {}, None);
    var candidates := Election.Candidates(PROBED, NO_WORLD, scene, map[]);
    assert CoolingAmong(s, Known(CONFIG)) == {};
    assert p in candidates;
    assert Election.FirstIn([AjeanPc, AjeanDeck][1..], candidates).None?;
    assert Base(CONFIG) == PROBED;
    e := Elect(w, NO_WORLD, Only(p, candidates));
  }

  lemma Gets(r: Run, s: State, w: nat, t: Task, p: Provider) returns (r': Run, s': State)
    requires RunTo(CONFIG, r, s) && Quiet(s) && p in PROBED && p !in s.inFlight
    requires Is(s, w) && s.workers[w] == Worker(Picked(t), {})
    ensures RunTo(CONFIG, r', s') && GoesOn(r, r')
    ensures Alike(s', With(s, w, Working(t, p, s.clock, false, false)).(inFlight := s.inFlight + {p}))
    ensures s'.history.lastCharge == s.history.lastCharge
  {
    var r1 := Step(CONFIG, r, s, TakeLock(w));
    var s1 := Apply(CONFIG, s, TakeLock(w));
    assert PhaseOf(s1, w).resting == {};
    var e := ElectsOnly(s1, w, p);
    r' := Step(CONFIG, r1, s1, e);
    s' := Apply(CONFIG, s1, e);
  }

  /** The work ends with every provider out of reach: the row is given back. */
  lemma GivesBack(c: Config, r: Run, s: State, w: nat, t: Task, p: Provider, row: Row) returns (r': Run, s': State)
    requires RunTo(c, r, s) && s.rows == map[t.id := row.(status := Running)]
    requires Is(s, w) && s.workers[w] == Worker(Working(t, p, s.clock, false, false), {})
    ensures RunTo(c, r', s') && GoesOn(r, r')
    ensures Alike(s', With(s, w, Settled(t, p, s.clock, InfraDown)).(
      rows := map[t.id := row.(status := Pending, gitBranch := None)]))
    ensures s'.history.lastCharge == s.history.lastCharge
  {
    var e := Settle(w, Raised(Error(false, false, true, false, false), "task/1", "no provider"));
    r' := Step(c, r, s, e);
    s' := Apply(c, s, e);
    assert s'.rows == map[t.id := row.(status := Pending, gitBranch := None)];
  }

  /** The window closes on a worker that is tidying up. */
  lemma IsCutLate(c: Config, r: Run, s: State, w: nat, t: Task, p: Provider) returns (r': Run, s': State)
    requires RunTo(c, r, s) && Is(s, w) && s.workers[w] == Worker(Settled(t, p, s.clock, InfraDown), {})
    requires s.clock < s.deadline
    ensures RunTo(c, r', s') && GoesOn(r, r')
    ensures Alike(s', With(s, w, Interrupted(t, p, true)).(clock := s.deadline + FLOOR))
    ensures s'.history.lastCharge == s.history.lastCharge
  {
    var r1 := Step(c, r, s, Tick(s.deadline + FLOOR));
    var s1 := Apply(c, s, Tick(s.deadline + FLOOR));
    r' := Step(c, r1, s1, LateInterrupt(w));
    s' := Apply(c, s1, LateInterrupt(w));
  }

  // ---------------------------------------------------------------- the theft

  predicate Fresh(s: State, workers: nat, id: nat, row: Row) {
    && |s.workers| == workers && (forall w :: 0 <= w < workers ==> s.workers[w] == Worker(Top, {}))
    && Quiet(s) && s.inFlight == {} && OneRow(s, id, row) && s.clock < s.deadline
  }

  /** One worker gives the only row back, another takes it, and the first is cut before it is done. */
  lemma TwoHands(s: State, id: nat, row: Row) returns (r: Run, s': State)
    requires Initial(s) && |s.workers| >= 2 && Fresh(s, |s.workers|, id, row)
    ensures RunTo(CONFIG, r, s') && r.states[0] == s
    ensures var t := Task(id, row.retries);
      Alike(s', s.(
        workers := s.workers[0 := Worker(Settled(t, CohereFree, s.clock, InfraDown), {})]
                            [1 := Worker(Working(t, MistralFree, s.clock, false, false), {})],
        inFlight := {CohereFree, MistralFree}, rows := map[id := row.(status := Running, gitBranch := None)]))
    ensures s'.history.lastCharge == s.history.lastCharge
  {
    var t := Task(id, row.retries);
    var r0 := Run([s], []);
    var r1, s1 := Passes(CONFIG, r0, s, 0);
    var r2, s2 := Reserves(CONFIG, r1, s1, 0, id, row);
    var r3, s3 := Gets(r2, s2, 0, t, CohereFree);
    var r4, s4 := GivesBack(CONFIG, r3, s3, 0, t, CohereFree, row);
    var r5, s5 := Passes(CONFIG, r4, s4, 1);
    var r6, s6 := Reserves(CONFIG, r5, s5, 1, id, row.(status := Pending, gitBranch := None));
    r, s' := Gets(r6, s6, 1, t, MistralFree);
  }

  /** From every start with one playable task and two workers there is a run in which the worker that
      the window cuts late takes the row from the worker that holds it. */
  lemma LateInterruptionSteals(s: State, id: nat, row: Row) returns (r: Run)
    requires Initial(s) && |s.workers| == 2 && Fresh(s, 2, id, row)
    ensures IsRun(CONFIG, r.states, r.events) && r.states[0] == s
    ensures var u := Last(r.states);
      && Enabled(CONFIG, u, ReleaseInterrupted(0)) && Steals(u, ReleaseInterrupted(0))
      && var v := Apply(CONFIG, u, ReleaseInterrupted(0));
         OwnsRow(v, 1, id) && id in v.rows && v.rows[id].status.Pending?
  {
    var t := Task(id, row.retries);
    var r1, s1 := TwoHands(s, id, row);
    var u;
    r, u := IsCutLate(CONFIG, r1, s1, 0, t, CohereFree);
    assert OwnsRow(u, 1, id);
  }

  /** With a third worker past the deadline test, two workers end up at work on one row. */
  lemma TwoOnOneRow(s: State, id: nat, row: Row) returns (r: Run, s': State)
    requires Initial(s) && |s.workers| == 3 && Fresh(s, 3, id, row)
    ensures RunTo(CONFIG, r, s') && r.states[0] == s
    ensures var t := Task(id, row.retries);
      && s'.clock == s.deadline + FLOOR && s'.rows == map[id := row.(status := Running, gitBranch := None)]
      && Is(s', 1) && s'.workers[1] == Worker(Working(t, MistralFree, s.clock, false, false), {})
      && Is(s', 2) && s'.workers[2] == Worker(Working(t, GeminiCli, s'.clock, false, false), {})
  {
    var t := Task(id, row.retries);
    var r1, s1 := TwoHands(s, id, row);
    var r2, s2 := Passes(CONFIG, r1, s1, 2);
    var r3, s3 := IsCutLate(CONFIG, r2, s2, 0, t, CohereFree);
    var r4 := Step(CONFIG, r3, s3, ReleaseInterrupted(0));
    var s4 := Apply(CONFIG, s3, ReleaseInterrupted(0));
    assert s4.rows == map[id := row.(status := Pending, gitBranch := None)];
    var r5, s5 := Reserves(CONFIG, r4, s4, 2, id, row.(status := Pending, gitBranch := None));
    r, s' := Gets(r5, s5, 2, t, GeminiCli);
  }

  const REFUSED := Raised(Error(false, false, false, false, false), "task/1", "the code does not compile")

  /** The work is refused: the attempt is charged on the count that the worker was handed. */
  lemma IsRefused(c: Config, r: Run, s: State, w: nat, t: Task, p: Provider, since: Time)
    returns (r': Run, s': State)
    requires RunTo(c, r, s) && Is(s, w) && PhaseOf(s, w) == Working(t, p, since, false, false) && t.id in s.rows
    ensures RunTo(c, r', s') && GoesOn(r, r') && |r'.states| == |r.states| + 1
    ensures r'.events != [] && Last(r'.events) == Settle(w, REFUSED) && Charges(c, s, Last(r'.events), t.id)
    ensures t.id in s'.rows && s'.rows[t.id].retries == t.retries + 1 && s'.clock == s.clock
    ensures t.retries + 1 == MAX_ATTEMPTS ==> s'.rows[t.id].scheduledAt == s.rows[t.id].scheduledAt
    ensures |s'.workers| == |s.workers| && forall v: nat :: v != w && Is(s, v) ==> PhaseOf(s', v) == PhaseOf(s, v)
  {
    r' := Step(c, r, s, Settle(w, REFUSED));
    s' := Apply(c, s, Settle(w, REFUSED));
  }

  /** Then one completes the task and the other takes it up again: a completed row is reopened. */
  lemma CompletedRowIsReopened(s: State, id: nat, row: Row) returns (r: Run)
    requires Initial(s) && |s.workers| == 3 && Fresh(s, 3, id, row)
    ensures IsRun(CONFIG, r.states, r.events) && r.states[0] == s && |r.states| >= 2
    ensures var n := |r.states| - 1;
      && id in r.states[n-1].rows && r.states[n-1].rows[id].status.Completed?
      && id in r.states[n].rows && r.states[n].rows[id].status.Running?
      && !ClosedForever(r.states, n)
  {
    var r1, s1 := TwoOnOneRow(s, id, row);
    var r2 := Step(CONFIG, r1, s1, Record(1, s1.clock));
    var s2 := Apply(CONFIG, s1, Record(1, s1.clock));
    var r3 := Step(CONFIG, r2, s2, Settle(1, Done));
    var s3 := Apply(CONFIG, s2, Settle(1, Done));
    r := Step(CONFIG, r3, s3, BeginWork(2, None));
    assert !ClosedSame(r.states, |r.states| - 2, |r.states| - 1, id);
  }

  /** Or both fail: two charges, one attempt counted. */
  lemma ChargeIsLost(s: State, id: nat, row: Row) returns (r: Run)
    requires Initial(s) && |s.workers| == 3 && Fresh(s, 3, id, row)
    ensures IsRun(CONFIG, r.states, r.events) && r.states[0] == s && |r.states| >= 3
    ensures var n := |r.states| - 1;
      && |r.events| == n
      && Charges(CONFIG, r.states[n-2], r.events[n-2], id) && Charges(CONFIG, r.states[n-1], r.events[n-1], id)
      && id in r.states[n].rows && r.states[n].rows[id].retries == row.retries + 1
      && !AlwaysExact(CONFIG, r.states, r.events, n, id)
  {
    var r1, s1 := TwoOnOneRow(s, id, row);
    var t := Task(id, row.retries);
    var r2, s2 := IsRefused(CONFIG, r1, s1, 1, t, MistralFree, s.clock);
    var s3;
    r, s3 := IsRefused(CONFIG, r2, s2, 2, t, GeminiCli, s1.clock);
    var n := |r.states| - 1;
    assert r.states[n-2] == Last(r1.states) && r.states[n-1] == Last(r2.states) && r.events[n-2] == Last(r2.events);
    assert StaleCharge(CONFIG, r.states[n-1], r.events[n-1], id);
    RetriesAreTheChargesIff(CONFIG, r.states, r.events, n, id);
  }

  /** Or one fails and the other takes the failed row up at once, long before its date. */
  lemma FailedRowIsTakenUpAtOnce(s: State, id: nat, row: Row) returns (r: Run)
    requires Initial(s) && |s.workers| == 3 && Fresh(s, 3, id, row) && row.retries + 1 < MAX_ATTEMPTS
    ensures IsRun(CONFIG, r.states, r.events) && r.states[0] == s && |r.states| >= 2
    ensures var n := |r.states| - 1;
      && id in r.states[n-1].rows && r.states[n-1].rows[id].status.Failed?
      && id in r.states[n].rows && r.states[n].rows[id].status.Running?
      && id in r.states[n].history.lastCharge && r.states[n].history.lastCharge[id] == r.states[n].clock
      && !LifeOk(r.states[n], id)
  {
    var r1, s1 := TwoOnOneRow(s, id, row);
    var r2 := Step(CONFIG, r1, s1, Settle(1, REFUSED));
    var s2 := Apply(CONFIG, s1, Settle(1, REFUSED));
    r := Step(CONFIG, r2, s2, BeginWork(2, None));
    assert !Spaced(Last(r.states).rows[id], s2.clock, s2.clock);
  }

  /** Or the last attempt of an abandoned row is given back by the other: the row is open and playable
      with three attempts counted, and the next drain starts on it. */
  lemma SpentRowIsOpenAgain(s: State, id: nat, row: Row) returns (r: Run)
    requires Initial(s) && |s.workers| == 3 && Fresh(s, 3, id, row) && row.retries + 1 == MAX_ATTEMPTS
    ensures IsRun(CONFIG, r.states, r.events) && r.states[0] == s
    ensures var u := Last(r.states);
      id in u.rows && u.rows[id].status.Pending? && u.rows[id].retries == MAX_ATTEMPTS && Playable(u.rows[id], u.clock)
  {
    var t := Task(id, row.retries);
    var r1, s1 := TwoOnOneRow(s, id, row);
    var r2, s2 := IsRefused(CONFIG, r1, s1, 1, t, MistralFree, s.clock);
    var r3 := Step(CONFIG, r2, s2, BeginWork(2, None));
    var s3 := Apply(CONFIG, s2, BeginWork(2, None));
    var r4 := Step(CONFIG, r3, s3, Interrupt(2, false));
    var s4 := Apply(CONFIG, s3, Interrupt(2, false));
    r := Step(CONFIG, r4, s4, ReleaseInterrupted(2));
  }

  // ---------------------------------------------------------------- a write that waits for its lock

  /** From every start with one playable task a worker can leave long before the deadline as if the
      window were over: the write of its row waited too long for the lock.  The row is free again, and
      the provider is cooling down although no attempt was counted. */
  lemma LockTimeoutEndsTheSlot(s: State, id: nat, row: Row) returns (r: Run)
    requires Initial(s) && |s.workers| >= 1 && Fresh(s, |s.workers|, id, row)
    ensures IsRun(CONFIG, r.states, r.events) && r.states[0] == s
    ensures var u := Last(r.states);
      && u.clock == s.clock < u.deadline && Is(u, 0) && PhaseOf(u, 0).Exited? && u.results.interrupted == 1
      && u.rows == map[id := row.(status := Pending, gitBranch := None)]
      && Cooling(u, CohereFree)
  {
    var t := Task(id, row.retries);
    var r1, s1 := Passes(CONFIG, Run([s], []), s, 0);
    var r2, s2 := Reserves(CONFIG, r1, s1, 0, id, row);
    var r3, s3 := Gets(r2, s2, 0, t, CohereFree);
    var r4 := Step(CONFIG, r3, s3, Interrupt(0, true));
    var s4 := Apply(CONFIG, s3, Interrupt(0, true));
    var r5 := Step(CONFIG, r4, s4, ReleaseInterrupted(0));
    var s5 := Apply(CONFIG, s4, ReleaseInterrupted(0));
    assert s5.rows == map[id := row.(status := Pending, gitBranch := None)];
    assert s5.lock.None? && s5.results.interrupted == 0;
    r := Step(CONFIG, r5, s5, LeaveInterrupted(0));
  }

  // ---------------------------------------------------------------- a quota test without an answer

  /** Only the counted tier answers the probe. */
  function OnlyGemini(limit: nat): Config { Config(limit, 0, Some({GeminiFree}), {GeminiFree}, [], DEFAULT_DELAY) }

  lemma ElectsUnread(limit: nat, s: State) returns (e: Event)
    requires Is(s, 0) && s.cooldown == map[] && s.clock >= COOLDOWN && s.inFlight == {}
    requires PhaseOf(s, 0).Electing? && PhaseOf(s, 0).readings == map[GeminiFree := false]
    requires PhaseOf(s, 0).tally == None && PhaseOf(s, 0).blind == {GeminiFree}
    requires PhaseOf(s, 0).resting == {}
    ensures e.Elect? && e.w == 0 && Enabled(OnlyGemini(limit), s, e)
    ensures ElectionOf(OnlyGemini(limit), s, 0, e.world, e.ranking)
      == Election.Election(Election.Elected(GeminiFree), s.rotation)
  {
    var c := OnlyGemini(limit);
    var scene := SceneOf(c, s, {}, None);
    var candidates := Election.Candidates({GeminiFree}, NO_WORLD, scene, PhaseOf(s, 0).readings);
    assert CoolingAmong(s, Known(c)) == {};
    assert GeminiFree in candidates;
    assert Election.FirstIn([AjeanPc, AjeanDeck][1..], candidates).None?;
    e := Elect(0, NO_WORLD, Only(GeminiFree, candidates));
  }

  lemma RecordCounts(l: Ledger, e: Entry, until: Time)
    requires InWindow(e, GeminiFree, until)
    ensures CountIn(l + [e], GeminiFree, until) == CountIn(l, GeminiFree, until) + 1
  {
    assert (l + [e])[..|l|] == l;
  }

  /** The quota test of the only candidate gets no answer. */
  lemma ReadsNothing(limit: nat, r: Run, s: State, t: Task) returns (r': Run, s': State)
    requires RunTo(OnlyGemini(limit), r, s) && Quiet(s) && s.inFlight == {}
    requires Is(s, 0) && s.workers[0] == Worker(Picked(t), {})
    ensures RunTo(OnlyGemini(limit), r', s') && GoesOn(r, r')
    ensures r'.events != [] && Last(r'.events) == ReadQuota(0, GeminiFree, false)
    ensures s' == With(s, 0, Electing(t, {}, map[GeminiFree := false], {GeminiFree}, None)).(lock := Some(0))
  {
    var c := OnlyGemini(limit);
    var r1 := Step(c, r, s, TakeLock(0));
    var s1 := Apply(c, s, TakeLock(0));
    assert PhaseOf(s1, 0).resting == {};
    r' := Step(c, r1, s1, ReadQuota(0, GeminiFree, false));
    s' := Apply(c, s1, ReadQuota(0, GeminiFree, false));
    var x := PhaseOf(s', 0);
    assert x.readings == map[GeminiFree := false] && x.blind == {GeminiFree};
    assert x == Electing(t, {}, map[GeminiFree := false], {GeminiFree}, None);
    assert s'.workers == With(s, 0, x).workers;
  }

  /** From every start where the day already holds exactly the limit, one quota test that gets no
      answer leads to a day that holds one call more. */
  lemma UnreadQuotaIsPassed(limit: nat, s: State, id: nat, row: Row) returns (r: Run)
    requires Initial(s) && |s.workers| == 1 && Fresh(s, 1, id, row)
    requires CountIn(s.ledger, GeminiFree, s.clock) == limit
    ensures IsRun(OnlyGemini(limit), r.states, r.events) && r.states[0] == s
    ensures exists j :: 0 <= j < |r.events| && !Answered(OnlyGemini(limit), r.events[j], GeminiFree)
    ensures CountIn(Last(r.states).ledger, GeminiFree, s.clock) == limit + 1
  {
    var c := OnlyGemini(limit);
    var r1, s1 := Passes(c, Run([s], []), s, 0);
    var r2, s2 := Reserves(c, r1, s1, 0, id, row);
    var r4, s4 := ReadsNothing(limit, r2, s2, Task(id, row.retries));
    var e := ElectsUnread(limit, s4);
    var r5 := Step(c, r4, s4, e);
    var s5 := Apply(c, s4, e);
    r := Step(c, r5, s5, Record(0, s5.clock));
    RecordCounts(s.ledger, Entry(GeminiFree, s5.clock, PhaseOf(s5, 0).unsighted), s.clock);
    assert r.events[|r4.events|-1] == ReadQuota(0, GeminiFree, false);
  }
}

/** The drain of the backlog by N concurrent workers: `_run_dreamcoder_drain_loop` and its
    `_travailleur` (agents/dreamer_agent.py), with the accounting of `_process_one_dreamcoder_task`.

    A worker moves from one await point to the next; an event is one such move, and events of
    different workers interleave freely.  The asyncio lock `verrou` is the field `lock`: it is held
    during a whole election, and every change of `en_vol` or of the results needs it free. */
module DrainProtocol {
  import opened Wrappers
  import opened Backlog
  import opened Providers
  import opened UsageLedger
  import opened FailureVerdict
  import Election = ProviderElection

  const MAX_SET_ASIDE: nat := 25
  const FLOOR: Time := 60.0

  datatype Config = Config(
    geminiLimit: nat, deepseekLimit: nat,
    healthy: Option<set<Provider>>, registry: set<Provider>, ajean: seq<Provider>,
    delay: Time)

  predicate ConfigOk(c: Config) { c.delay >= MIN_DELAY && forall p :: p in c.ajean ==> IsAjean(p) }

  function Limit(c: Config, p: Provider): nat {
    if p.GeminiFree? then c.geminiLimit else if p.DeepseekFree? then c.deepseekLimit else 0
  }

  function Base(c: Config): set<Provider> {
    if c.healthy.Some? then c.healthy.value else c.registry - {ClaudeHaiku}
  }

  // ---------------------------------------------------------------- the state

  /** What the reservation handed out: the id and the attempts counted before it. */
  datatype Task = Task(id: nat, retries: nat)

  /** The counts that the cascade reads in one query. */
  datatype Tally = Tally(geminiLeft: bool, deepseekLeft: bool)

  datatype Result = Success | FailedOnce | AbandonedOut | InfraDown | ProviderDown

  datatype Phase =
    | Top                                     // head of the loop
    | Cleared                                 // the deadline was not reached
    | Picked(task: Task)
    | BoardClosed(task: Task)                 // abandoned: the board already has it done
    | Electing(
        task: Task, resting: set<Provider>, readings: Election.Readings, blind: set<Provider>, tally: Option<Tally>)
    | Unserved(task: Task, byHistory: bool)   // no provider
    | Working(task: Task, provider: Provider, since: Time, unsighted: bool, recorded: bool)
    | Settled(task: Task, provider: Provider, since: Time, result: Result)   // the row is written
    | Interrupted(task: Task, provider: Provider, late: bool)   // late: its row was already written
    | Leaving(task: Task, provider: Provider)
    | Finished(task: Task, result: Result)    // the provider is given back
    | Exited

  datatype Worker = Worker(phase: Phase, setAside: set<nat>)

  datatype Results = Results(
    entries: seq<Result>, processed: nat, success: nat, failed: nat, abandoned: nat,
    infra: nat, interrupted: nat)

  /** History variables: nothing in a run depends on them. */
  datatype History = History(iterations: nat, reserved: nat, unserved: nat, crashed: nat, lastCharge: map<nat, Time>)

  datatype State = State(
    rows: Table, clock: Time, deadline: Time, workers: seq<Worker>,
    lock: Option<nat>, inFlight: set<Provider>, cooldown: map<Provider, Time>,
    ledger: Ledger, rotation: nat, results: Results, history: History)

  const EMPTY := Results([], 0, 0, 0, 0, 0, 0)

  function FreshWorkers(n: nat): (ws: seq<Worker>)
    ensures |ws| == n && forall i :: 0 <= i < n ==> ws[i] == Worker(Top, {})
  {
    seq(n, _ => Worker(Top, {}))
  }

  predicate HasTask(p: Phase) { !p.Top? && !p.Cleared? && !p.Exited? }

  /** The provider a phase holds in `en_vol`. */
  function Held(p: Phase): Option<Provider> {
    match p
    case Working(_, q, _, _, _) => Some(q)
    case Settled(_, q, _, _) => Some(q)
    case Interrupted(_, q, _) => Some(q)
    case Leaving(_, q) => Some(q)
    case _ => None
  }

  /** `_in_cooldown`: a provider never marked counts as marked at time 0. */
  predicate Cooling(s: State, p: Provider) {
    s.clock - (if p in s.cooldown then s.cooldown[p] else 0.0) < COOLDOWN
  }

  function CoolingAmong(s: State, ps: set<Provider>): set<Provider> { set p | p in ps && Cooling(s, p) }

  const ALL_NAMED: set<Provider> :=
    {AjeanPc, AjeanDeck, GeminiCli, ClaudeCli, CohereFree, MistralFree, GeminiFree, DeepseekFree, ClaudeHaiku}

  /** Everyone the drain can elect. */
  function Known(c: Config): set<Provider> { Base(c) + ALL_NAMED }

  function SceneOf(c: Config, s: State, resting: set<Provider>, t: Option<Tally>): Election.Scene {
    Election.Scene(c.healthy, s.inFlight, resting, CoolingAmong(s, Known(c)),
      t.Some? && t.value.geminiLeft, t.Some? && t.value.deepseekLeft)
  }

  // ---------------------------------------------------------------- the events

  datatype Ending = Done | Raised(error: Error, branch: string, message: string)

  datatype Event =
    | Tick(t: Time)
    | AddTask(id: nat, title: string, priority: int, scheduledAt: Option<Time>, key: Option<string>)
    | Pass(w: nat)
    | Expire(w: nat)
    | Reserve(w: nat, id: nat)
    | Drained(w: nat)
    | CloseOnBoard(w: nat, message: string)
    | CountBoard(w: nat)
    | TakeLock(w: nat)
    | ReadQuota(w: nat, p: Provider, readable: bool)
    | ReadCascade(w: nat)
    | Elect(w: nat, world: Election.World, ranking: Election.Ranking)
    | Drop(w: nat)
    | BeginWork(w: nat, branch: Option<string>)   // first without a branch, then with the one to work on
    | Record(w: nat, at: Time)
    | Settle(w: nat, ending: Ending)
    | Interrupt(w: nat, blamed: bool)   // blamed: the provider was marked, the row not yet written
    | LateInterrupt(w: nat)
    | ReleaseInterrupted(w: nat)
    | LeaveInterrupted(w: nat)
    | GiveBack(w: nat)
    | Count(w: nat)
    | Crash(w: nat, blamed: bool)
    | Boot(n: nat, newDeadline: Time)
    | NextDrain(n: nat, newDeadline: Time)

  predicate Is(s: State, w: nat) { w < |s.workers| }

  function PhaseOf(s: State, w: nat): Phase
    requires Is(s, w)
  {
    s.workers[w].phase
  }

  /** `borne = max(60, remaining)`: the window never cuts a task before both have passed.  A write that
      waits ten seconds for its lock raises the same exception, whatever the time, and its row is not
      written then. */
  predicate WindowOver(s: State, since: Time) { s.clock >= since + FLOOR && s.clock >= s.deadline }

  ghost predicate Enabled(c: Config, s: State, e: Event) {
    match e
    case Tick(t) => t >= s.clock
    case AddTask(id, _, _, _, _) => id !in s.rows
    case Pass(w) => Is(s, w) && PhaseOf(s, w).Top? && s.clock < s.deadline
    case Expire(w) => Is(s, w) && PhaseOf(s, w).Top? && s.clock >= s.deadline
    case Reserve(w, id) => Is(s, w) && PhaseOf(s, w).Cleared? && IsNext(s.rows, id, s.clock, s.workers[w].setAside)
    case Drained(w) =>
      Is(s, w) && PhaseOf(s, w).Cleared? && forall id :: !Eligible(s.rows, id, s.clock, s.workers[w].setAside)
    case CloseOnBoard(w, _) => Is(s, w) && PhaseOf(s, w).Picked?
    case CountBoard(w) => Is(s, w) && PhaseOf(s, w).BoardClosed? && s.lock.None?
    case TakeLock(w) => Is(s, w) && PhaseOf(s, w).Picked? && s.lock.None?
    case ReadQuota(w, p, _) =>
      Is(s, w) && PhaseOf(s, w).Electing? && Counted(p) && p in Base(c) && p !in s.inFlight
      && p !in PhaseOf(s, w).resting
    case ReadCascade(w) => Is(s, w) && PhaseOf(s, w).Electing?
    case Elect(w, world, ranking) =>
      && Is(s, w) && PhaseOf(s, w).Electing? && world.ajean == c.ajean
      && ElectionInformed(c, s, PhaseOf(s, w), world, ranking)
    case Drop(w) => Is(s, w) && PhaseOf(s, w).Unserved?
    case BeginWork(w, _) => Is(s, w) && PhaseOf(s, w).Working?
    case Record(w, at) =>
      Is(s, w) && PhaseOf(s, w).Working? && !PhaseOf(s, w).recorded && PhaseOf(s, w).since <= at <= s.clock
    case Settle(w, ending) => Is(s, w) && PhaseOf(s, w).Working? && (ending.Done? ==> PhaseOf(s, w).recorded)
    case Interrupt(w, _) => Is(s, w) && PhaseOf(s, w).Working?
    case LateInterrupt(w) => Is(s, w) && PhaseOf(s, w).Settled? && WindowOver(s, PhaseOf(s, w).since)
    case ReleaseInterrupted(w) => Is(s, w) && PhaseOf(s, w).Interrupted?
    case LeaveInterrupted(w) => Is(s, w) && PhaseOf(s, w).Leaving? && s.lock.None?
    case GiveBack(w) => Is(s, w) && PhaseOf(s, w).Settled? && s.lock.None?
    case Count(w) => Is(s, w) && PhaseOf(s, w).Finished? && s.lock.None?
    case Crash(w, blamed) =>
      && Is(s, w) && !PhaseOf(s, w).Exited?
      && (blamed ==> PhaseOf(s, w).Working?)
      && (Held(PhaseOf(s, w)).Some? ==> s.lock.None?)
    case Boot(_, _) => true
    case NextDrain(_, _) => forall w :: 0 <= w < |s.workers| ==> s.workers[w].phase.Exited?
  }

  /** The ranking covers the candidates, the quota of every counted candidate has been read, and the
      counts of the cascade have been read if the election goes that far. */
  ghost predicate ElectionInformed(c: Config, s: State, p: Phase, world: Election.World, ranking: Election.Ranking)
    requires p.Electing?
  {
    var scene := SceneOf(c, s, p.resting, p.tally);
    && Election.RankingOk(ranking, Election.Candidates(Base(c), world, scene, p.readings))
    && (forall q :: q in Election.Pool(Base(c), world, scene) && Counted(q) ==> q in p.readings)
    && (p.tally.None? ==> !Election.ReachesCascade(Base(c), world, scene, p.readings, ranking))
  }

  // ---------------------------------------------------------------- what an event does

  function Move(s: State, w: nat, p: Phase): State
    requires Is(s, w)
  {
    s.(workers := s.workers[w := s.workers[w].(phase := p)])
  }

  function SetAside(s: State, w: nat, id: nat): State
    requires Is(s, w)
  {
    var aside := s.workers[w].setAside + {id};
    s.(workers := s.workers[w := Worker(if |aside| >= MAX_SET_ASIDE then Exited else Top, aside)])
  }

  function Tallied(r: Results, x: Result): Results {
    var r' := r.(entries := r.entries + [x], processed := r.processed + 1);
    match x
    case Success => r'.(success := r.success + 1)
    case FailedOnce => r'.(failed := r.failed + 1)
    case AbandonedOut => r'.(abandoned := r.abandoned + 1)
    case InfraDown => r'.(infra := r.infra + 1)
    case ProviderDown => r'
  }

  function Iterated(s: State): State { s.(history := s.history.(iterations := s.history.iterations + 1)) }

  function ReadingOf(c: Config, s: State, p: Phase, q: Provider, readable: bool): Phase
    requires p.Electing?
  {
    if readable && Limit(c, q) > 0
    then p.(readings := p.readings[q := CountAfter(s.ledger, q, s.clock - DAY) >= Limit(c, q)], blind := p.blind - {q})
    else p.(readings := p.readings[q := false], blind := p.blind + {q})
  }

  /** The election of q rests on a count that was under the limit. */
  predicate Sighted(p: Phase, q: Provider)
    requires p.Electing?
  {
    || (q in p.readings && !p.readings[q] && q !in p.blind)
    || (p.tally.Some? && q.GeminiFree? && p.tally.value.geminiLeft)
    || (p.tally.Some? && q.DeepseekFree? && p.tally.value.deepseekLeft)
  }

  function ElectionOf(c: Config, s: State, w: nat, world: Election.World, ranking: Election.Ranking): Election.Election
    requires Is(s, w) && PhaseOf(s, w).Electing?
  {
    var p := PhaseOf(s, w);
    Election.Elect(Base(c), world, SceneOf(c, s, p.resting, p.tally), p.readings, ranking, s.rotation)
  }

  function AfterElection(s: State, w: nat, x: Election.Election): State
    requires Is(s, w) && PhaseOf(s, w).Electing?
  {
    var p := PhaseOf(s, w);
    var s' := s.(lock := None, rotation := x.rotation);
    match x.outcome
    case Elected(q) =>
      Move(s', w, Working(p.task, q, s.clock, Counted(q) && !Sighted(p, q), false)).(inFlight := s.inFlight + {q})
    case NoneByHistory => Move(s', w, Unserved(p.task, true))
    case NoneFree => Move(s', w, Unserved(p.task, false))
  }

  /** A task without provider goes back; after an exclusion by history the slot goes on. */
  function Dropped(s: State, w: nat): State
    requires Is(s, w) && PhaseOf(s, w).Unserved?
  {
    var p := PhaseOf(s, w);
    var s' := s.(rows := Released(s.rows, p.task.id), history := s.history.(unserved := s.history.unserved + 1));
    if p.byHistory then SetAside(s', w, p.task.id) else Move(s', w, Exited)
  }

  /** The row of the task and the cooldown, written according to the verdict. */
  function AfterSettling(c: Config, s: State, w: nat, ending: Ending): State
    requires Is(s, w) && PhaseOf(s, w).Working?
  {
    var p := PhaseOf(s, w);
    match ending
    case Done =>
      Move(s, w, Settled(p.task, p.provider, p.since, Success)).(rows := Updated(s.rows, p.task.id, Completed, NOTHING))
    case Raised(error, branch, message) =>
      var v := VerdictAfter(error, p.task.retries, s.clock, c.delay);
      var s' := Marked(s, p.provider, v.coolDown);
      if v.GiveBack? then
        Move(s', w, Settled(p.task, p.provider, p.since, if v.cause.Infra? then InfraDown else ProviderDown))
          .(rows := Released(s.rows, p.task.id))
      else
        var patch := ClosingPatch(v, FateOfBranch(error, v), branch, message);
        Move(s', w, Settled(p.task, p.provider, p.since, if v.status.Failed? then FailedOnce else AbandonedOut))
          .(rows := Updated(s.rows, p.task.id, v.status, patch),
            history := s.history.(lastCharge := s.history.lastCharge[p.task.id := s.clock]))
  }

  function AfterCount(s: State, w: nat): State
    requires Is(s, w) && PhaseOf(s, w).Finished?
  {
    var p := PhaseOf(s, w);
    var s' := s.(results := Tallied(s.results, p.result));
    match p.result
    case InfraDown => Move(s', w, Exited)
    case ProviderDown => SetAside(s', w, p.task.id)
    case _ => Move(s', w, Top)
  }

  function Without(s: State, p: Phase): set<Provider> {
    if Held(p).Some? then s.inFlight - {Held(p).value} else s.inFlight
  }

  function Marked(s: State, p: Provider, blamed: bool): State {
    if blamed then s.(cooldown := s.cooldown[p := s.clock]) else s
  }

  function AfterCrash(s: State, w: nat, blamed: bool): State
    requires Is(s, w) && (blamed ==> PhaseOf(s, w).Working?)
  {
    var p := PhaseOf(s, w);
    Move(if blamed then Marked(s, p.provider, true) else s, w, Exited).(
      lock := if p.Electing? then None else s.lock,
      inFlight := Without(s, p),
      history := s.history.(crashed := s.history.crashed + (if HasTask(p) then 1 else 0)))
  }

  function NewDrain(s: State, n: nat, deadline: Time): State {
    s.(workers := FreshWorkers(n), deadline := deadline, lock := None, inFlight := {}, results := EMPTY,
       history := History(0, 0, 0, 0, s.history.lastCharge))
  }

  ghost function Apply(c: Config, s: State, e: Event): State
    requires Enabled(c, s, e)
  {
    match e
    case Tick(t) => s.(clock := t)
    case AddTask(id, title, priority, at, key) => s.(rows := s.rows[id := NewRow(title, priority, s.clock, at, key)])
    case Pass(w) => Move(Iterated(s), w, Cleared)
    case Expire(w) => Move(Iterated(s), w, Exited)
    case Reserve(w, id) =>
      Move(s, w, Picked(Task(id, s.rows[id].retries))).(
        rows := Reserved(s.rows, id), history := s.history.(reserved := s.history.reserved + 1))
    case Drained(w) => Move(s, w, Exited)
    case CloseOnBoard(w, message) =>
      Move(s, w, BoardClosed(PhaseOf(s, w).task)).(
        rows := Updated(s.rows, PhaseOf(s, w).task.id, Abandoned, NOTHING.(errorMessage := Some(Some(message)))))
    case CountBoard(w) => Move(s.(results := Tallied(s.results, AbandonedOut)), w, Top)
    case TakeLock(w) =>
      Move(s, w, Electing(PhaseOf(s, w).task, CoolingAmong(s, Known(c)), map[], {}, None)).(lock := Some(w))
    case ReadQuota(w, p, readable) => Move(s, w, ReadingOf(c, s, PhaseOf(s, w), p, readable))
    case ReadCascade(w) =>
      Move(s, w, PhaseOf(s, w).(tally := Some(Tally(
        CountAfter(s.ledger, GeminiFree, s.clock - DAY) < c.geminiLimit,
        CountAfter(s.ledger, DeepseekFree, s.clock - DAY) < c.deepseekLimit))))
    case Elect(w, world, ranking) => AfterElection(s, w, ElectionOf(c, s, w, world, ranking))
    case Drop(w) => Dropped(s, w)
    case BeginWork(w, branch) =>
      s.(rows := Updated(s.rows, PhaseOf(s, w).task.id, Running,
        NOTHING.(gitBranch := if branch.Some? then Some(branch) else None)))
    case Record(w, at) =>
      Move(s, w, PhaseOf(s, w).(recorded := true)).(
        ledger := s.ledger + [Entry(PhaseOf(s, w).provider, at, PhaseOf(s, w).unsighted)])
    case Settle(w, ending) => AfterSettling(c, s, w, ending)
    case Interrupt(w, blamed) =>
      Move(Marked(s, PhaseOf(s, w).provider, blamed), w,
        Interrupted(PhaseOf(s, w).task, PhaseOf(s, w).provider, false))
    case LateInterrupt(w) => Move(s, w, Interrupted(PhaseOf(s, w).task, PhaseOf(s, w).provider, true))
    case ReleaseInterrupted(w) =>
      Move(s, w, Leaving(PhaseOf(s, w).task, PhaseOf(s, w).provider)).(rows := Released(s.rows, PhaseOf(s, w).task.id))
    case LeaveInterrupted(w) =>
      Move(s, w, Exited).(
        inFlight := s.inFlight - {PhaseOf(s, w).provider},
        results := s.results.(interrupted := s.results.interrupted + 1))
    case GiveBack(w) =>
      Move(s, w, Finished(PhaseOf(s, w).task, PhaseOf(s, w).result)).(inFlight := s.inFlight - {PhaseOf(s, w).provider})
    case Count(w) => AfterCount(s, w)
    case Crash(w, blamed) => AfterCrash(s, w, blamed)
    case Boot(n, newDeadline) =>
      NewDrain(s, n, newDeadline).(rows := Recovered(s.rows, s.clock), cooldown := map[], rotation := 0)
    case NextDrain(n, newDeadline) => NewDrain(s, n, newDeadline)
  }

  // ---------------------------------------------------------------- who moves

  /** Events of the environment: time, new tasks, process death, the next drain. */
  predicate ByWorker(e: Event) { !e.Tick? && !e.AddTask? && !e.Boot? && !e.NextDrain? }

  /** One drain: no restart, no later drain. */
  predicate OneDrain(e: Event) { !e.Boot? && !e.NextDrain? }

  ghost predicate ActorOnly(s: State, s': State, e: Event) {
    if e.Boot? || e.NextDrain? then s'.workers == FreshWorkers(e.n)
    else if !ByWorker(e) then s'.workers == s.workers
    else Is(s, e.w) && |s'.workers| == |s.workers| && s'.workers == s.workers[e.w := s'.workers[e.w]]
  }

  /** The events with branches of their own. */
  predicate Branches(e: Event) { e.Elect? || e.Drop? || e.Settle? || e.Count? || e.Crash? }

  lemma BranchesMoveTheActor(c: Config, s: State, e: Event)
    requires Enabled(c, s, e) && Branches(e)
    ensures ActorOnly(s, Apply(c, s, e), e)
  {
  }

  lemma RestMovesTheActor(c: Config, s: State, e: Event)
    requires Enabled(c, s, e) && !Branches(e)
    ensures ActorOnly(s, Apply(c, s, e), e)
  {
  }

  lemma OnlyTheActorMoves(c: Config, s: State, e: Event)
    requires Enabled(c, s, e)
    ensures ActorOnly(s, Apply(c, s, e), e)
  {
    if Branches(e) { BranchesMoveTheActor(c, s, e); } else { RestMovesTheActor(c, s, e); }
  }

  // ---------------------------------------------------------------- runs

  ghost predicate Initial(s: State) {
    && (forall w :: 0 <= w < |s.workers| ==> s.workers[w] == Worker(Top, {}))
    && s.lock.None? && s.inFlight == {} && s.results == EMPTY
    && s.history == History(0, 0, 0, 0, map[])
  }

  ghost predicate Linked(c: Config, states: seq<State>, events: seq<Event>, i: nat)
    requires |states| == |events| + 1 && i < |events|
  {
    Enabled(c, states[i], events[i]) && states[i+1] == Apply(c, states[i], events[i])
  }

  /** A run: `states[i+1]` is what `events[i]` makes of `states[i]`. */
  ghost predicate IsRun(c: Config, states: seq<State>, events: seq<Event>) {
    && |states| == |events| + 1
    && Initial(states[0])
    && forall i: nat :: i < |events| ==> Linked(c, states, events, i)
  }
}

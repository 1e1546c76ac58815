/** The life of a task over every run of the drain: how its attempts are counted, which states are
    final, and how long a charged failure stays out of reach.

    `update_task_status` writes a row by its id, whatever has become of it since the reservation.  So
    each of these properties holds up to a moment exactly when no worker has, up to then, written a
    row in a way that the row no longer allowed. */
module TaskLifecycle {
  import opened Wrappers
  import opened Backlog
  import opened Providers
  import opened FailureVerdict
  import opened DrainProtocol
  import opened DrainLifecycle

  // ---------------------------------------------------------------- what one event does to one row

  predicate Closed(row: Row) { row.status.Completed? || row.status.Abandoned? }

  predicate OnTask(s: State, e: Event, id: nat) {
    ByWorker(e) && Is(s, e.w) && HasTask(PhaseOf(s, e.w)) && PhaseOf(s, e.w).task.id == id
  }

  /** The event is the failure of the worker on this task, and the verdict charges the attempt. */
  predicate Charges(c: Config, s: State, e: Event, id: nat) {
    && e.Settle? && e.ending.Raised? && OnTask(s, e, id)
    && VerdictAfter(e.ending.error, PhaseOf(s, e.w).task.retries, s.clock, c.delay).Close?
  }

  predicate Completes(s: State, e: Event, id: nat) { e.Settle? && e.ending.Done? && OnTask(s, e, id) }

  /** The worker writes the row by its id alone. */
  predicate Overwrites(c: Config, s: State, e: Event, id: nat) {
    Charges(c, s, e, id) || Completes(s, e, id) || ((e.BeginWork? || e.CloseOnBoard?) && OnTask(s, e, id))
  }

  function Overwritten(c: Config, s: State, e: Event, id: nat, row: Row): Row
    requires Overwrites(c, s, e, id)
  {
    match e
    case BeginWork(_, branch) => row.(status := Running, gitBranch := if branch.Some? then branch else row.gitBranch)
    case CloseOnBoard(_, message) => row.(status := Abandoned, errorMessage := Some(message))
    case Settle(_, ending) =>
      if ending.Done? then row.(status := Completed)
      else
        var v := VerdictAfter(ending.error, PhaseOf(s, e.w).task.retries, s.clock, c.delay);
        PatchedRow(row, v.status, ClosingPatch(v, FateOfBranch(ending.error, v), ending.branch, ending.message))
  }

  /** The statements that look at the row before they change it. */
  predicate Follows(row: Row, row': Row, now: Time) {
    || row' == row
    || (Playable(row, now) && row' == row.(status := Running))
    || (row.status.Running? && row' == row.(status := Pending, gitBranch := None))
    || (row.status.Running? && row' == AtBoot(row, now))
  }

  /** What the boot makes of a row that was running: one with attempts counted has failed and can be
      tried again at once, one on its first attempt is pending as it was. */
  function AtBoot(row: Row, now: Time): Row {
    if row.retries > 0 then row.(status := Failed, scheduledAt := Some(now)) else row.(status := Pending)
  }

  /** The worker gives its task back. */
  predicate GivesBack(c: Config, s: State, e: Event, id: nat) {
    && OnTask(s, e, id)
    && (e.Drop? || e.ReleaseInterrupted?
        || (e.Settle? && e.ending.Raised? && !e.ending.error.quality && (e.ending.error.infra || e.ending.error.quota)))
  }

  /** The row after an event that does not overwrite it: a reservation takes it, a task given back
      frees it if it is running, the boot recovers it, and nothing else touches it. */
  function Followed(c: Config, s: State, e: Event, id: nat, row: Row): Row {
    if e.Reserve? && e.id == id then row.(status := Running)
    else if GivesBack(c, s, e, id) && row.status.Running? then row.(status := Pending, gitBranch := None)
    else if e.Boot? && row.status.Running? then AtBoot(row, s.clock)
    else row
  }

  ghost predicate RowMoves(c: Config, s: State, s': State, e: Event, id: nat) {
    && id in s.rows && id in s'.rows
    && if Overwrites(c, s, e, id) then s'.rows[id] == Overwritten(c, s, e, id, s.rows[id])
       else s'.rows[id] == Followed(c, s, e, id, s.rows[id]) && Follows(s.rows[id], s'.rows[id], s.clock)
  }

  predicate Hands(e: Event) { e.CloseOnBoard? || e.Drop? || e.BeginWork? || e.ReleaseInterrupted? }

  lemma HandsMoveRows(c: Config, s: State, e: Event, id: nat)
    requires Enabled(c, s, e) && id in s.rows && (Hands(e) || e.Reserve?)
    ensures RowMoves(c, s, Apply(c, s, e), e, id)
  {
  }

  lemma SettlingMovesRows(c: Config, s: State, e: Event, id: nat)
    requires Enabled(c, s, e) && id in s.rows && e.Settle?
    ensures RowMoves(c, s, Apply(c, s, e), e, id)
  {
  }

  lemma BootMovesRows(c: Config, s: State, e: Event, id: nat)
    requires Enabled(c, s, e) && id in s.rows && e.Boot?
    ensures RowMoves(c, s, Apply(c, s, e), e, id)
  {
  }

  lemma RestKeepsRow(c: Config, s: State, e: Event, id: nat)
    requires Enabled(c, s, e) && id in s.rows && !Hands(e) && !e.Reserve? && !e.Settle? && !e.Boot?
    ensures id in Apply(c, s, e).rows && Apply(c, s, e).rows[id] == s.rows[id]
  {
    if ByWorker(e) { OthersKeepRows(c, s, e); }
  }

  lemma RestMovesNoRow(c: Config, s: State, e: Event, id: nat)
    requires Enabled(c, s, e) && id in s.rows && !Hands(e) && !e.Reserve? && !e.Settle?
    ensures RowMoves(c, s, Apply(c, s, e), e, id)
  {
    if e.Boot? { BootMovesRows(c, s, e, id); } else { RestKeepsRow(c, s, e, id); }
  }

  /** In any state whatever: an event overwrites a row by its id, or moves it by a statement that has
      looked at its status, each in its own way, or leaves it alone; no row disappears. */
  lemma RowChanges(c: Config, s: State, e: Event, id: nat)
    requires Enabled(c, s, e) && id in s.rows
    ensures RowMoves(c, s, Apply(c, s, e), e, id)
  {
    if e.Settle? {
      SettlingMovesRows(c, s, e, id);
    } else if Hands(e) || e.Reserve? {
      HandsMoveRows(c, s, e, id);
    } else {
      RestMovesNoRow(c, s, e, id);
    }
  }

  /** The task that a worker holds is in the table. */
  ghost predicate TasksExist(s: State) {
    forall w: nat :: Is(s, w) && HasTask(PhaseOf(s, w)) ==> PhaseOf(s, w).task.id in s.rows
  }

  predicate OnRow(s: State, w: nat, id: nat) { Is(s, w) && HasTask(PhaseOf(s, w)) && PhaseOf(s, w).task.id == id }

  /** The row was handed to its workers with attempts left. */
  ghost predicate HandedOk(s: State, id: nat) {
    forall w: nat :: OnRow(s, w, id) ==> PhaseOf(s, w).task.retries < MAX_ATTEMPTS
  }

  predicate TaskKept(x: Phase, x': Phase) { HasTask(x') ==> HasTask(x) && x'.task == x.task }

  lemma BranchesKeepTask(c: Config, s: State, e: Event)
    requires Enabled(c, s, e) && Branches(e)
    ensures Is(Apply(c, s, e), e.w) && TaskKept(PhaseOf(s, e.w), PhaseOf(Apply(c, s, e), e.w))
  {
  }

  lemma RestKeepsTask(c: Config, s: State, e: Event)
    requires Enabled(c, s, e) && ByWorker(e) && !Branches(e) && !e.Reserve?
    ensures Is(Apply(c, s, e), e.w) && TaskKept(PhaseOf(s, e.w), PhaseOf(Apply(c, s, e), e.w))
  {
  }

  lemma TasksOfActor(c: Config, s: State, e: Event)
    requires Enabled(c, s, e) && ByWorker(e)
    ensures Is(Apply(c, s, e), e.w)
    ensures var x, x' := PhaseOf(s, e.w), PhaseOf(Apply(c, s, e), e.w);
      if e.Reserve? then
        HasTask(x') ==>
          e.id in s.rows && x'.task == Task(e.id, s.rows[e.id].retries) && Playable(s.rows[e.id], s.clock)
      else TaskKept(x, x')
  {
    if e.Reserve? {
      assert Eligible(s.rows, e.id, s.clock, s.workers[e.w].setAside);
    } else if Branches(e) {
      BranchesKeepTask(c, s, e);
    } else {
      RestKeepsTask(c, s, e);
    }
  }

  lemma TasksStay(c: Config, s: State, e: Event)
    requires Enabled(c, s, e) && TasksExist(s)
    ensures TasksExist(Apply(c, s, e))
  {
    var s' := Apply(c, s, e);
    OnlyTheActorMoves(c, s, e);
    if ByWorker(e) { TasksOfActor(c, s, e); }
    forall w: nat | Is(s', w) && HasTask(PhaseOf(s', w)) ensures PhaseOf(s', w).task.id in s'.rows {
      assert Is(s, w) && (PhaseOf(s', w) == PhaseOf(s, w) || w == e.w);
      RowChanges(c, s, e, PhaseOf(s', w).task.id);
    }
  }

  lemma HandedStay(c: Config, s: State, e: Event, id: nat)
    requires Enabled(c, s, e) && HandedOk(s, id)
    requires e.Reserve? && e.id == id ==> id in s.rows && s.rows[id].retries < MAX_ATTEMPTS
    ensures HandedOk(Apply(c, s, e), id)
  {
    var s' := Apply(c, s, e);
    OnlyTheActorMoves(c, s, e);
    if ByWorker(e) { TasksOfActor(c, s, e); }
    forall w: nat | OnRow(s', w, id) ensures PhaseOf(s', w).task.retries < MAX_ATTEMPTS {
      assert Is(s, w) && (PhaseOf(s', w) == PhaseOf(s, w) || w == e.w);
      if OnRow(s, w, id) { assert PhaseOf(s, w).task.retries < MAX_ATTEMPTS; }
    }
  }

  lemma {:induction false} TasksOfARun(c: Config, states: seq<State>, events: seq<Event>, i: nat)
    requires IsRun(c, states, events) && i < |states|
    ensures TasksExist(states[i])
  {
    if i > 0 {
      assert Linked(c, states, events, i - 1);
      TasksOfARun(c, states, events, i - 1);
      TasksStay(c, states[i-1], events[i-1]);
    }
  }

  lemma {:induction false} RowsStay(c: Config, states: seq<State>, events: seq<Event>, i: nat, j: nat, id: nat)
    requires IsRun(c, states, events) && i <= j < |states| && id in states[i].rows
    ensures id in states[j].rows
    decreases j
  {
    if i < j {
      assert Linked(c, states, events, j - 1);
      RowsStay(c, states, events, i, j - 1, id);
      RowChanges(c, states[j-1], events[j-1], id);
    }
  }

  lemma NewRowsAreFresh(c: Config, s: State, e: Event, id: nat)
    requires TasksExist(s) && Enabled(c, s, e) && id !in s.rows && id in Apply(c, s, e).rows
    ensures e.AddTask? && e.id == id
    ensures Apply(c, s, e).rows[id] == Row(e.title, e.priority, s.clock, Pending, e.scheduledAt, None, 0, None, e.key)
    ensures !Charges(c, s, e, id)
  {
    if ByWorker(e) && !Writes(e) { OthersKeepRows(c, s, e); }
  }

  // ---------------------------------------------------------------- closed rows

  /** A worker writes into a closed row. */
  predicate WritesClosed(c: Config, s: State, e: Event, id: nat) {
    id in s.rows && Closed(s.rows[id]) && Overwrites(c, s, e, id)
  }

  /** The write closes the row as it is closed already: a second completion, a second closing for the
      same reason, or a last attempt charged twice for the same failure. */
  predicate Repeats(s: State, e: Event, row: Row) {
    match e
    case CloseOnBoard(_, message) => row.status.Abandoned? && row.errorMessage == Some(message)
    case Settle(w, Done) => row.status.Completed?
    case Settle(w, Raised(_, _, message)) =>
      Is(s, w) && HasTask(PhaseOf(s, w)) && PhaseOf(s, w).task.retries + 1 >= MAX_ATTEMPTS
      && row.status.Abandoned? && row.retries == PhaseOf(s, w).task.retries + 1 && row.errorMessage == Some(message)
    case _ => false
  }

  /** Of the writes into a closed row, those that repeat its closing change nothing, and all others
      change it. */
  lemma RepeatsChangeNothingIff(c: Config, s: State, e: Event, id: nat)
    requires Enabled(c, s, e) && WritesClosed(c, s, e, id)
    ensures id in Apply(c, s, e).rows
    ensures Apply(c, s, e).rows[id] == s.rows[id] <==> Repeats(s, e, s.rows[id])
  {
    RowChanges(c, s, e, id);
  }

  /** Whatever the state, a closed row that no worker writes into does not change. */
  lemma OnlyWritesChangeClosed(c: Config, s: State, e: Event, id: nat)
    requires Enabled(c, s, e) && id in s.rows && Closed(s.rows[id]) && !WritesClosed(c, s, e, id)
    ensures id in Apply(c, s, e).rows && Apply(c, s, e).rows[id] == s.rows[id]
  {
    RowChanges(c, s, e, id);
  }

  /** A worker writes into a closed row, and not what is there already. */
  predicate Rewrites(c: Config, s: State, e: Event, id: nat) {
    WritesClosed(c, s, e, id) && !Repeats(s, e, s.rows[id])
  }

  lemma ClosedRowChangesIff(c: Config, s: State, e: Event, id: nat)
    requires Enabled(c, s, e) && id in s.rows && Closed(s.rows[id])
    ensures id in Apply(c, s, e).rows
    ensures Apply(c, s, e).rows[id] != s.rows[id] <==> Rewrites(c, s, e, id)
  {
    if WritesClosed(c, s, e, id) { RepeatsChangeNothingIff(c, s, e, id); } else { OnlyWritesChangeClosed(c, s, e, id); }
  }

  ghost predicate ClosedSame(states: seq<State>, a: nat, b: nat, id: nat)
    requires a < |states| && b < |states|
  {
    id in states[a].rows && Closed(states[a].rows[id]) ==>
      id in states[b].rows && states[b].rows[id] == states[a].rows[id]
  }

  ghost predicate ClosedForever(states: seq<State>, i: nat)
    requires i < |states|
  {
    forall a: nat, b: nat, id :: a <= b <= i ==> ClosedSame(states, a, b, id)
  }

  ghost predicate NeverRewrites(c: Config, states: seq<State>, events: seq<Event>, i: nat)
    requires |states| == |events| + 1 && i < |states|
  {
    forall j: nat, id :: j < i ==> !Rewrites(c, states[j], events[j], id)
  }

  lemma ClosedOneMore(c: Config, states: seq<State>, events: seq<Event>, i: nat)
    requires IsRun(c, states, events) && i + 1 < |states| && ClosedForever(states, i)
    requires forall id :: !Rewrites(c, states[i], events[i], id)
    ensures ClosedForever(states, i + 1)
  {
    assert Linked(c, states, events, i);
    forall a: nat, b: nat, id | a <= b <= i + 1 ensures ClosedSame(states, a, b, id) {
      if a <= i && b == i + 1 && id in states[a].rows && Closed(states[a].rows[id]) {
        assert ClosedSame(states, a, i, id);
        ClosedRowChangesIff(c, states[i], events[i], id);
        assert !Rewrites(c, states[i], events[i], id);
      }
    }
  }

  /** Over a run: completed and abandoned rows never change again, in any column, exactly as long as
      no worker writes into one other than what is there. */
  lemma {:induction false} ClosedForeverIff(c: Config, states: seq<State>, events: seq<Event>, i: nat)
    requires IsRun(c, states, events) && i < |states|
    ensures ClosedForever(states, i) <==> NeverRewrites(c, states, events, i)
  {
    if i > 0 {
      ClosedForeverIff(c, states, events, i - 1);
      if ClosedForever(states, i) {
        assert ClosedForever(states, i - 1) by {
          forall a: nat, b: nat, id | a <= b <= i - 1 ensures ClosedSame(states, a, b, id) {
            assert a <= b <= i;
          }
        }
        assert Linked(c, states, events, i - 1);
        var s, e := states[i-1], events[i-1];
        forall id ensures !Rewrites(c, s, e, id) {
          assert ClosedSame(states, i - 1, i, id);
          if id in s.rows && Closed(s.rows[id]) { ClosedRowChangesIff(c, s, e, id); }
        }
      } else if NeverRewrites(c, states, events, i) {
        assert NeverRewrites(c, states, events, i - 1);
        ClosedOneMore(c, states, events, i - 1);
      }
    }
  }

  // ---------------------------------------------------------------- the count is the charges

  /** One charge counts exactly when the worker's count is the stored one; nothing else counts. */
  lemma ChargeCountsIff(c: Config, s: State, e: Event, id: nat)
    requires Enabled(c, s, e) && id in s.rows
    ensures var s' := Apply(c, s, e);
      && id in s'.rows
      && if Charges(c, s, e, id)
         then s'.rows[id].retries == s.rows[id].retries + 1 <==> s.rows[id].retries == PhaseOf(s, e.w).task.retries
         else s'.rows[id].retries == s.rows[id].retries
  {
    RowChanges(c, s, e, id);
  }

  /** How many of the first i events charged the row. */
  ghost function ChargesSoFar(c: Config, states: seq<State>, events: seq<Event>, i: nat, id: nat): nat
    requires |states| == |events| + 1 && i <= |events|
  {
    if i == 0 then 0
    else ChargesSoFar(c, states, events, i - 1, id) + (if Charges(c, states[i-1], events[i-1], id) then 1 else 0)
  }

  function Start(s: State, id: nat): nat { if id in s.rows then s.rows[id].retries else 0 }

  /** `retries` is what it was at the start, or 0 for a task added since, plus one a charge. */
  ghost predicate Exact(c: Config, states: seq<State>, events: seq<Event>, i: nat, id: nat)
    requires |states| == |events| + 1 && i < |states|
  {
    id in states[i].rows ==> states[i].rows[id].retries == Start(states[0], id) + ChargesSoFar(c, states, events, i, id)
  }

  ghost predicate AlwaysExact(c: Config, states: seq<State>, events: seq<Event>, i: nat, id: nat)
    requires |states| == |events| + 1 && i < |states|
  {
    forall j: nat :: j <= i ==> Exact(c, states, events, j, id)
  }

  predicate StaleCharge(c: Config, s: State, e: Event, id: nat) {
    Charges(c, s, e, id) && id in s.rows && s.rows[id].retries != PhaseOf(s, e.w).task.retries
  }

  ghost predicate NoStaleCharge(c: Config, states: seq<State>, events: seq<Event>, i: nat, id: nat)
    requires |states| == |events| + 1 && i < |states|
  {
    forall j: nat :: j < i ==> !StaleCharge(c, states[j], events[j], id)
  }

  lemma {:induction false} NoRowNoCharge(c: Config, states: seq<State>, events: seq<Event>, i: nat, id: nat)
    requires IsRun(c, states, events) && i < |states| && id !in states[i].rows
    ensures id !in states[0].rows && ChargesSoFar(c, states, events, i, id) == 0
  {
    if i > 0 {
      if id in states[i-1].rows { RowsStay(c, states, events, i - 1, i, id); }
      NoRowNoCharge(c, states, events, i - 1, id);
      TasksOfARun(c, states, events, i - 1);
    }
  }

  lemma ExactOneMoreIff(c: Config, states: seq<State>, events: seq<Event>, i: nat, id: nat)
    requires IsRun(c, states, events) && i + 1 < |states| && Exact(c, states, events, i, id)
    ensures Exact(c, states, events, i + 1, id) <==> !StaleCharge(c, states[i], events[i], id)
  {
    assert Linked(c, states, events, i);
    if id in states[i].rows {
      ChargeCountsIff(c, states[i], events[i], id);
    } else {
      NoRowNoCharge(c, states, events, i, id);
      TasksOfARun(c, states, events, i);
      if id in states[i+1].rows { NewRowsAreFresh(c, states[i], events[i], id); }
    }
  }

  /** Over a run: the stored count is the charges, at every moment, exactly as long as every charge
      finds the count its worker was handed.  No crash, recovery, release or interruption touches it. */
  lemma {:induction false} RetriesAreTheChargesIff(c: Config, states: seq<State>, events: seq<Event>, i: nat, id: nat)
    requires IsRun(c, states, events) && i < |states|
    ensures AlwaysExact(c, states, events, i, id) <==> NoStaleCharge(c, states, events, i, id)
  {
    if i == 0 {
      assert Exact(c, states, events, 0, id);
    } else {
      RetriesAreTheChargesIff(c, states, events, i - 1, id);
      assert AlwaysExact(c, states, events, i, id) <==>
        AlwaysExact(c, states, events, i - 1, id) && Exact(c, states, events, i, id);
      assert NoStaleCharge(c, states, events, i, id) <==>
        NoStaleCharge(c, states, events, i - 1, id) && !StaleCharge(c, states[i-1], events[i-1], id);
      if AlwaysExact(c, states, events, i - 1, id) {
        assert Exact(c, states, events, i - 1, id);
        ExactOneMoreIff(c, states, events, i - 1, id);
      }
    }
  }

  // ---------------------------------------------------------------- attempts and delays

  lemma BranchesChargeNothing(c: Config, s: State, e: Event)
    requires Enabled(c, s, e) && Branches(e) && !e.Settle?
    ensures Apply(c, s, e).history.lastCharge == s.history.lastCharge && Apply(c, s, e).clock == s.clock
  {
  }

  lemma OthersChargeNothing(c: Config, s: State, e: Event)
    requires Enabled(c, s, e) && !e.Settle?
    ensures Apply(c, s, e).history.lastCharge == s.history.lastCharge
    ensures if e.Tick? then Apply(c, s, e).clock == e.t else Apply(c, s, e).clock == s.clock
  {
    if Branches(e) { BranchesChargeNothing(c, s, e); }
  }

  lemma LastChargeChanges(c: Config, s: State, e: Event, id: nat)
    requires Enabled(c, s, e)
    ensures var was, now := s.history.lastCharge, Apply(c, s, e).history.lastCharge;
      if Charges(c, s, e, id) then id in now && now[id] == s.clock
      else (id in now <==> id in was) && (id in now && id in was ==> now[id] == was[id])
    ensures if e.Tick? then Apply(c, s, e).clock == e.t else Apply(c, s, e).clock == s.clock
  {
    if !e.Settle? { OthersChargeNothing(c, s, e); }
  }

  predicate RowOk(row: Row) {
    row.retries <= MAX_ATTEMPTS && (!row.status.Abandoned? ==> row.retries < MAX_ATTEMPTS)
  }

  /** A row charged at time `at` stays out of reach for the shortest delay. */
  predicate Spaced(row: Row, at: Time, now: Time) {
    && at <= now
    && (row.status.Failed? ==> row.scheduledAt.Some? && row.scheduledAt.value >= at + MIN_DELAY)
    && (row.status.Pending? || row.status.Running? ==> now >= at + MIN_DELAY)
  }

  predicate AttemptsOk(s: State, id: nat) { id in s.rows ==> RowOk(s.rows[id]) }

  predicate SpacingOk(s: State, id: nat) {
    id in s.history.lastCharge ==> id in s.rows && Spaced(s.rows[id], s.history.lastCharge[id], s.clock)
  }

  predicate LifeOk(s: State, id: nat) { AttemptsOk(s, id) && SpacingOk(s, id) }

  predicate TakesUp(s: State, e: Event, id: nat) { e.BeginWork? && OnTask(s, e, id) }

  /** A worker takes up or completes a row that three attempts have closed. */
  predicate Revives(s: State, e: Event, id: nat) {
    id in s.rows && (TakesUp(s, e, id) || Completes(s, e, id)) && s.rows[id].retries == MAX_ATTEMPTS
  }

  /** A worker takes up a row that another one has been charged for less than a minute ago. */
  predicate Hurries(s: State, e: Event, id: nat) {
    && id in s.rows && TakesUp(s, e, id) && !s.rows[id].status.Running?
    && id in s.history.lastCharge && s.clock < s.history.lastCharge[id] + MIN_DELAY
  }

  lemma ChargedRowStaysOk(c: Config, s: State, e: Event, id: nat)
    requires Enabled(c, s, e) && id in s.rows && Charges(c, s, e, id) && PhaseOf(s, e.w).task.retries < MAX_ATTEMPTS
    ensures RowOk(Overwritten(c, s, e, id, s.rows[id]))
  {
  }

  lemma OverwrittenStaysOkIff(c: Config, s: State, e: Event, id: nat, row: Row)
    requires Overwrites(c, s, e, id) && !Charges(c, s, e, id) && RowOk(row)
    ensures RowOk(Overwritten(c, s, e, id, row)) <==>
      !((TakesUp(s, e, id) || Completes(s, e, id)) && row.retries == MAX_ATTEMPTS)
  {
  }

  lemma FollowingStaysOk(row: Row, row': Row, now: Time)
    requires Follows(row, row', now) && RowOk(row)
    ensures RowOk(row')
  {
  }

  lemma RowStaysOkIff(c: Config, s: State, e: Event, id: nat)
    requires Enabled(c, s, e) && HandedOk(s, id) && id in s.rows && RowOk(s.rows[id])
    ensures id in Apply(c, s, e).rows
    ensures RowOk(Apply(c, s, e).rows[id]) <==> !Revives(s, e, id)
  {
    RowChanges(c, s, e, id);
    if Charges(c, s, e, id) {
      ChargedRowStaysOk(c, s, e, id);
    } else if Overwrites(c, s, e, id) {
      OverwrittenStaysOkIff(c, s, e, id, s.rows[id]);
    } else {
      FollowingStaysOk(s.rows[id], Apply(c, s, e).rows[id], s.clock);
    }
  }

  lemma FollowingStaysSpaced(row: Row, row': Row, at: Time, now: Time, now': Time)
    requires Follows(row, row', now) && Spaced(row, at, now) && now <= now'
    ensures Spaced(row', at, now')
  {
  }

  lemma SpacingStaysIff(c: Config, s: State, e: Event, id: nat)
    requires ConfigOk(c) && Enabled(c, s, e) && id in s.rows
    requires !Charges(c, s, e, id) ==>
      id in s.history.lastCharge && Spaced(s.rows[id], s.history.lastCharge[id], s.clock)
    ensures var s' := Apply(c, s, e);
      && id in s'.rows && id in s'.history.lastCharge
      && (Spaced(s'.rows[id], s'.history.lastCharge[id], s'.clock) <==> !Hurries(s, e, id))
  {
    LastChargeChanges(c, s, e, id);
    RowChanges(c, s, e, id);
    if !Overwrites(c, s, e, id) {
      var s' := Apply(c, s, e);
      FollowingStaysSpaced(s.rows[id], s'.rows[id], s.history.lastCharge[id], s.clock, s'.clock);
    }
  }

  lemma AttemptsStayOkIff(c: Config, s: State, e: Event, id: nat)
    requires Enabled(c, s, e) && TasksExist(s) && HandedOk(s, id) && AttemptsOk(s, id)
    ensures AttemptsOk(Apply(c, s, e), id) <==> !Revives(s, e, id)
  {
    if id in s.rows {
      RowStaysOkIff(c, s, e, id);
    } else if id in Apply(c, s, e).rows {
      NewRowsAreFresh(c, s, e, id);
    }
  }

  lemma SpacingStaysOkIff(c: Config, s: State, e: Event, id: nat)
    requires ConfigOk(c) && Enabled(c, s, e) && TasksExist(s) && SpacingOk(s, id)
    ensures SpacingOk(Apply(c, s, e), id) <==> !Hurries(s, e, id)
  {
    LastChargeChanges(c, s, e, id);
    if id in Apply(c, s, e).history.lastCharge { SpacingStaysIff(c, s, e, id); }
  }

  /** In one step the attempts and the delays of a row are kept exactly unless a worker revives or
      hurries it, whatever becomes of the other rows. */
  lemma LifeIsKeptIff(c: Config, s: State, e: Event, id: nat)
    requires ConfigOk(c) && Enabled(c, s, e) && TasksExist(s) && HandedOk(s, id) && LifeOk(s, id)
    ensures LifeOk(Apply(c, s, e), id) <==> !Untimely(s, e, id)
  {
    AttemptsStayOkIff(c, s, e, id);
    SpacingStaysOkIff(c, s, e, id);
  }

  ghost predicate AlwaysAlive(states: seq<State>, i: nat, id: nat)
    requires i < |states|
  {
    forall j: nat :: j <= i ==> LifeOk(states[j], id)
  }

  predicate Untimely(s: State, e: Event, id: nat) { Revives(s, e, id) || Hurries(s, e, id) }

  ghost predicate NeverUntimely(states: seq<State>, events: seq<Event>, i: nat, id: nat)
    requires |states| == |events| + 1 && i < |states|
  {
    forall j: nat :: j < i ==> !Untimely(states[j], events[j], id)
  }

  lemma ReservesWithAttemptsLeft(c: Config, s: State, e: Event)
    requires Enabled(c, s, e) && e.Reserve? && LifeOk(s, e.id)
    ensures e.id in s.rows && s.rows[e.id].retries < MAX_ATTEMPTS
    ensures s.rows[e.id].status.Pending? || s.rows[e.id].status.Failed?
    ensures e.id in s.history.lastCharge ==> s.clock >= s.history.lastCharge[e.id] + MIN_DELAY
  {
    assert Eligible(s.rows, e.id, s.clock, s.workers[e.w].setAside);
  }

  lemma {:induction false} HandedOfARun(c: Config, states: seq<State>, events: seq<Event>, i: nat, id: nat)
    requires IsRun(c, states, events) && i < |states| && AlwaysAlive(states, i, id)
    ensures HandedOk(states[i], id)
  {
    if i > 0 {
      assert Linked(c, states, events, i - 1);
      assert LifeOk(states[i-1], id);
      HandedOfARun(c, states, events, i - 1, id);
      var s, e := states[i-1], events[i-1];
      if e.Reserve? && e.id == id { ReservesWithAttemptsLeft(c, s, e); }
      HandedStay(c, s, e, id);
    }
  }

  /** Over a run, row by row: unless it is abandoned the row has at most two attempts counted, never
      more than three, and for a minute after a charge it is out of reach, at every moment, exactly as
      long as no worker revives or hurries it. */
  lemma {:induction false} AttemptsStayBoundedIff(
      c: Config, states: seq<State>, events: seq<Event>, i: nat, id: nat)
    requires ConfigOk(c) && IsRun(c, states, events) && i < |states|
    requires id in states[0].rows ==> RowOk(states[0].rows[id])
    ensures AlwaysAlive(states, i, id) <==> NeverUntimely(states, events, i, id)
  {
    if i == 0 {
      assert LifeOk(states[0], id);
    } else {
      AttemptsStayBoundedIff(c, states, events, i - 1, id);
      assert AlwaysAlive(states, i, id) <==> AlwaysAlive(states, i - 1, id) && LifeOk(states[i], id);
      assert NeverUntimely(states, events, i, id) <==>
        NeverUntimely(states, events, i - 1, id) && !Untimely(states[i-1], events[i-1], id);
      if AlwaysAlive(states, i - 1, id) {
        assert Linked(c, states, events, i - 1);
        assert LifeOk(states[i-1], id);
        HandedOfARun(c, states, events, i - 1, id);
        TasksOfARun(c, states, events, i - 1);
        LifeIsKeptIff(c, states[i-1], events[i-1], id);
      }
    }
  }

  /** A reservation hands out a row with attempts left, never one that is closed, and never within a
      minute of the last charged failure of that row, as long as no worker has revived or hurried it. */
  lemma ReservationIsLegitimate(c: Config, states: seq<State>, events: seq<Event>, i: nat)
    requires ConfigOk(c) && IsRun(c, states, events) && i < |events| && events[i].Reserve?
    requires NeverUntimely(states, events, i, events[i].id)
    requires events[i].id in states[0].rows ==> RowOk(states[0].rows[events[i].id])
    ensures var s, id := states[i], events[i].id;
      && id in s.rows && s.rows[id].retries < MAX_ATTEMPTS
      && (s.rows[id].status.Pending? || s.rows[id].status.Failed?)
      && (id in s.history.lastCharge ==> s.clock >= s.history.lastCharge[id] + MIN_DELAY)
  {
    AttemptsStayBoundedIff(c, states, events, i, events[i].id);
    assert Linked(c, states, events, i);
    ReservesWithAttemptsLeft(c, states[i], events[i]);
  }

  // ---------------------------------------------------------------- a failed row has failed

  predicate FailedOk(s: State, id: nat) { id in s.rows && s.rows[id].status.Failed? ==> s.rows[id].retries > 0 }

  lemma FailedStaysOk(c: Config, s: State, e: Event, id: nat)
    requires Enabled(c, s, e) && TasksExist(s) && FailedOk(s, id)
    ensures FailedOk(Apply(c, s, e), id)
  {
    if id in s.rows {
      RowChanges(c, s, e, id);
    } else if id in Apply(c, s, e).rows {
      NewRowsAreFresh(c, s, e, id);
    }
  }

  /** Over a run, thefts and boots included: a row is never failed without an attempt counted. */
  lemma {:induction false} FailedRowsWereCharged(
      c: Config, states: seq<State>, events: seq<Event>, i: nat, id: nat)
    requires IsRun(c, states, events) && i < |states| && FailedOk(states[0], id)
    ensures FailedOk(states[i], id)
  {
    if i > 0 {
      assert Linked(c, states, events, i - 1);
      FailedRowsWereCharged(c, states, events, i - 1, id);
      TasksOfARun(c, states, events, i - 1);
      FailedStaysOk(c, states[i-1], events[i-1], id);
    }
  }

  // ---------------------------------------------------------------- runs without a late theft

  /** A worker that owns its row cannot do any of this. */
  lemma OwnersWriteInTime(c: Config, s: State, e: Event, id: nat)
    requires Enabled(c, s, e) && OwnershipOk(s)
    ensures !Rewrites(c, s, e, id) && !StaleCharge(c, s, e, id)
    ensures LifeOk(s, id) ==> !Untimely(s, e, id)
  {
    if OnTask(s, e, id) && Owns(PhaseOf(s, e.w)) { assert OwnsRow(s, e.w, id); }
  }

  lemma OwnedStaysTimely(c: Config, states: seq<State>, events: seq<Event>, i: nat, id: nat)
    requires IsRun(c, states, events) && i + 1 < |states| && OwnershipOk(states[i])
    requires LifeOk(states[i], id) && NeverUntimely(states, events, i, id)
    ensures NeverUntimely(states, events, i + 1, id)
  {
    assert Linked(c, states, events, i);
    OwnersWriteInTime(c, states[i], events[i], id);
  }

  /** In every run in which no late release takes a row from its worker, attempts are bounded and
      spaced. */
  lemma {:induction false} LifeWithoutTheft(c: Config, states: seq<State>, events: seq<Event>, i: nat, id: nat)
    requires ConfigOk(c) && IsRun(c, states, events) && i < |states| && NeverSteals(states, events, i)
    requires id in states[0].rows ==> RowOk(states[0].rows[id])
    ensures LifeOk(states[i], id) && NeverUntimely(states, events, i, id)
  {
    if i > 0 {
      LifeWithoutTheft(c, states, events, i - 1, id);
      OneWorkerPerTaskIff(c, states, events, i - 1);
      assert OwnershipOk(states[i-1]);
      OwnedStaysTimely(c, states, events, i - 1, id);
    }
    AttemptsStayBoundedIff(c, states, events, i, id);
  }

  /** In the same runs closed rows are final and the count is the charges. */
  lemma {:induction false} FinalAndExactWithoutTheft(c: Config, states: seq<State>, events: seq<Event>, i: nat, id: nat)
    requires IsRun(c, states, events) && i < |states| && NeverSteals(states, events, i)
    ensures ClosedForever(states, i) && AlwaysExact(c, states, events, i, id)
  {
    OneWorkerPerTaskIff(c, states, events, i);
    forall j: nat, k | j < i
      ensures !Rewrites(c, states[j], events[j], k) && !StaleCharge(c, states[j], events[j], k)
    {
      assert Linked(c, states, events, j) && OwnershipOk(states[j]);
      OwnersWriteInTime(c, states[j], events[j], k);
    }
    ClosedForeverIff(c, states, events, i);
    RetriesAreTheChargesIff(c, states, events, i, id);
  }
}

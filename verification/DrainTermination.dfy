/** A drain ends, whatever the clock does: the attempts left on the open tasks and the room left to
    put tasks aside pay for every iteration of every worker. */
module DrainTermination {
  import opened Wrappers
  import opened Backlog
  import opened Providers
  import opened FailureVerdict
  import opened DrainProtocol
  import opened DrainLifecycle
  import opened TaskLifecycle

  // ---------------------------------------------------------------- what is left on the rows

  /** The attempts that an open task can still be charged: one at least, even if three are counted. */
  function AttemptsLeft(row: Row): nat {
    if Closed(row) then 0 else if row.retries >= MAX_ATTEMPTS then 1 else MAX_ATTEMPTS - row.retries
  }

  ghost function Any(rows: Table): (id: nat)
    requires rows != map[]
    ensures id in rows
  {
    assert rows.Keys != {};
    var id :| id in rows.Keys; id
  }

  ghost function TotalLeft(rows: Table): nat
    decreases |rows|
  {
    if rows == map[] then 0
    else
      var id := Any(rows);
      assert |rows - {id}| < |rows| by { assert (rows - {id}).Keys == rows.Keys - {id}; }
      AttemptsLeft(rows[id]) + TotalLeft(rows - {id})
  }

  lemma RemovalShrinks(rows: Table, id: nat)
    requires id in rows
    ensures |rows - {id}| == |rows| - 1
  {
    assert (rows - {id}).Keys == rows.Keys - {id};
  }

  lemma {:induction false} TotalSplits(rows: Table, id: nat)
    requires id in rows
    ensures TotalLeft(rows) == AttemptsLeft(rows[id]) + TotalLeft(rows - {id})
    decreases |rows|
  {
    var first := Any(rows);
    if first != id {
      RemovalShrinks(rows, first);
      RemovalShrinks(rows, id);
      TotalSplits(rows - {first}, id);
      TotalSplits(rows - {id}, first);
      assert rows - {first} - {id} == rows - {id} - {first};
    }
  }

  lemma TotalAfterUpdate(rows: Table, rows': Table, id: nat)
    requires id in rows' && SameBut(rows, rows', id)
    ensures var before := if id in rows then AttemptsLeft(rows[id]) else 0;
      TotalLeft(rows') + before == TotalLeft(rows) + AttemptsLeft(rows'[id])
  {
    TotalSplits(rows', id);
    if id in rows { TotalSplits(rows, id); }
    assert rows' - {id} == rows - {id};
    assert id !in rows ==> rows - {id} == rows;
  }

  lemma {:induction false} TotalAtMost(rows: Table)
    ensures TotalLeft(rows) <= MAX_ATTEMPTS * |rows|
    decreases |rows|
  {
    if rows != map[] {
      RemovalShrinks(rows, Any(rows));
      TotalAtMost(rows - {Any(rows)});
    }
  }

  // ---------------------------------------------------------------- what is left to the workers

  /** A worker that has just closed an attempt, or stands at the head of the loop, has one iteration
      paid for. */
  function Credit(p: Phase): nat {
    match p
    case Top => 1
    case BoardClosed(_) => 1
    case Settled(_, _, _, result) => if result.InfraDown? || result.ProviderDown? then 0 else 1
    case Finished(_, result) => if result.InfraDown? || result.ProviderDown? then 0 else 1
    case _ => 0
  }

  function RoomLeft(w: Worker): nat {
    if w.phase.Exited? || |w.setAside| >= MAX_SET_ASIDE then 0
    else MAX_SET_ASIDE - |w.setAside| + Credit(w.phase)
  }

  function TotalRoom(ws: seq<Worker>): nat {
    if ws == [] then 0 else TotalRoom(ws[..|ws|-1]) + RoomLeft(ws[|ws|-1])
  }

  lemma {:induction false} RoomAfterUpdate(ws: seq<Worker>, w: nat, x: Worker)
    requires w < |ws|
    ensures TotalRoom(ws[w := x]) + RoomLeft(ws[w]) == TotalRoom(ws) + RoomLeft(x)
  {
    var n := |ws| - 1;
    if w == n {
      assert ws[w := x][..n] == ws[..n];
    } else {
      RoomAfterUpdate(ws[..n], w, x);
      assert ws[w := x][..n] == ws[..n][w := x];
    }
  }

  lemma {:induction false} RoomAtStart(ws: seq<Worker>)
    requires forall w :: 0 <= w < |ws| ==> ws[w] == Worker(Top, {})
    ensures TotalRoom(ws) == (MAX_SET_ASIDE + 1) * |ws|
  {
    if ws != [] { RoomAtStart(ws[..|ws|-1]); }
  }

  // ---------------------------------------------------------------- tasks put aside

  /** A worker in the loop has room to put one more task aside, and never holds one it put aside. */
  predicate AsideOk(w: Worker) {
    !w.phase.Exited? ==> |w.setAside| < MAX_SET_ASIDE && (HasTask(w.phase) ==> w.phase.task.id !in w.setAside)
  }

  ghost predicate AllAsideOk(s: State) { forall w: nat :: Is(s, w) ==> AsideOk(s.workers[w]) }

  predicate MovesAside(e: Event) { e.Drop? || e.Count? }

  predicate AsideLeft(x: Worker, x': Worker) {
    x'.phase.Exited? || (
      && !x.phase.Exited? && x'.setAside == x.setAside
      && (HasTask(x'.phase) ==> HasTask(x.phase) && x'.phase.task == x.phase.task))
  }

  lemma SettlingLeavesAside(c: Config, s: State, e: Event)
    requires Enabled(c, s, e) && e.Settle?
    ensures Is(Apply(c, s, e), e.w) && AsideLeft(s.workers[e.w], Apply(c, s, e).workers[e.w])
  {
  }

  lemma BranchesLeaveAside(c: Config, s: State, e: Event)
    requires Enabled(c, s, e) && Branches(e) && !MovesAside(e)
    ensures Is(Apply(c, s, e), e.w) && AsideLeft(s.workers[e.w], Apply(c, s, e).workers[e.w])
  {
    if e.Settle? { SettlingLeavesAside(c, s, e); }
  }

  lemma RestLeavesAside(c: Config, s: State, e: Event)
    requires Enabled(c, s, e) && ByWorker(e) && !e.Reserve? && !Branches(e)
    ensures Is(Apply(c, s, e), e.w) && AsideLeft(s.workers[e.w], Apply(c, s, e).workers[e.w])
  {
  }

  lemma ActorKeepsAside(c: Config, s: State, e: Event)
    requires Enabled(c, s, e) && ByWorker(e) && AsideOk(s.workers[e.w])
    ensures Is(Apply(c, s, e), e.w) && AsideOk(Apply(c, s, e).workers[e.w])
  {
    if e.Reserve? {
      assert Eligible(s.rows, e.id, s.clock, s.workers[e.w].setAside);
    } else if !MovesAside(e) {
      if Branches(e) { BranchesLeaveAside(c, s, e); } else { RestLeavesAside(c, s, e); }
    }
  }

  lemma AsideIsKept(c: Config, s: State, e: Event)
    requires Enabled(c, s, e) && AllAsideOk(s)
    ensures AllAsideOk(Apply(c, s, e))
  {
    var s' := Apply(c, s, e);
    OnlyTheActorMoves(c, s, e);
    if ByWorker(e) { ActorKeepsAside(c, s, e); }
    forall w: nat | Is(s', w) ensures AsideOk(s'.workers[w]) {
      assert Is(s, w) ==> AsideOk(s.workers[w]);
    }
  }

  // ---------------------------------------------------------------- the balance

  ghost function Balance(s: State): nat { s.history.iterations + TotalLeft(s.rows) + TotalRoom(s.workers) }

  /** The row that an event of a worker writes, when it writes one. */
  function Touched(s: State, e: Event): Option<nat> {
    if e.Reserve? then Some(e.id)
    else if Writes(e) && Is(s, e.w) && HasTask(PhaseOf(s, e.w)) then Some(PhaseOf(s, e.w).task.id)
    else None
  }

  /** What the event takes from its row and from its worker pays for the iteration it starts. */
  ghost predicate Pays(s: State, s': State, e: Event) {
    && ByWorker(e) && Is(s, e.w) && Is(s', e.w)
    && (Touched(s, e).Some? ==>
          var id := Touched(s, e).value;
          && SameBut(s.rows, s'.rows, id) && (id in s.rows <==> id in s'.rows)
          && s'.history.iterations == s.history.iterations
          && (id in s.rows ==>
                AttemptsLeft(s'.rows[id]) + RoomLeft(s'.workers[e.w])
                <= AttemptsLeft(s.rows[id]) + RoomLeft(s.workers[e.w]))
          && (id !in s.rows ==> RoomLeft(s'.workers[e.w]) <= RoomLeft(s.workers[e.w])))
    && (Touched(s, e).None? ==>
          && s'.rows == s.rows
          && s'.history.iterations + RoomLeft(s'.workers[e.w]) <= s.history.iterations + RoomLeft(s.workers[e.w]))
  }

  lemma ReservationPays(c: Config, s: State, e: Event)
    requires Enabled(c, s, e) && e.Reserve? && AsideOk(s.workers[e.w])
    ensures Pays(s, Apply(c, s, e), e)
  {
    assert Eligible(s.rows, e.id, s.clock, s.workers[e.w].setAside);
  }

  lemma ClosingPays(c: Config, s: State, e: Event)
    requires Enabled(c, s, e) && e.CloseOnBoard? && OwnershipOk(s) && AsideOk(s.workers[e.w])
    ensures Pays(s, Apply(c, s, e), e)
  {
    assert OwnsRow(s, e.w, PhaseOf(s, e.w).task.id);
  }

  lemma DropPays(c: Config, s: State, e: Event)
    requires Enabled(c, s, e) && e.Drop? && OwnershipOk(s) && AsideOk(s.workers[e.w])
    ensures Pays(s, Apply(c, s, e), e)
  {
    assert OwnsRow(s, e.w, PhaseOf(s, e.w).task.id);
  }

  lemma HandsPay(c: Config, s: State, e: Event)
    requires Enabled(c, s, e) && (e.BeginWork? || e.ReleaseInterrupted?)
    requires OwnershipOk(s) && AsideOk(s.workers[e.w])
    ensures Pays(s, Apply(c, s, e), e)
  {
    assert Owns(PhaseOf(s, e.w)) ==> OwnsRow(s, e.w, PhaseOf(s, e.w).task.id);
  }

  lemma SettlerPays(c: Config, s: State, e: Event)
    requires Enabled(c, s, e) && e.Settle? && OwnershipOk(s) && AsideOk(s.workers[e.w])
    ensures Pays(s, Apply(c, s, e), e)
  {
    assert OwnsRow(s, e.w, PhaseOf(s, e.w).task.id);
  }

  predicate Loops(e: Event) { e.Pass? || e.Expire? || e.CountBoard? || e.Count? }

  lemma CountingRoom(c: Config, s: State, e: Event)
    requires Enabled(c, s, e) && e.Count? && AsideOk(s.workers[e.w])
    ensures var s' := Apply(c, s, e);
      && Is(s', e.w)
      && s'.history.iterations + RoomLeft(s'.workers[e.w]) <= s.history.iterations + RoomLeft(s.workers[e.w])
  {
  }

  lemma LoopersRoom(c: Config, s: State, e: Event)
    requires Enabled(c, s, e) && Loops(e) && !e.Count? && AsideOk(s.workers[e.w])
    ensures var s' := Apply(c, s, e);
      && Is(s', e.w)
      && s'.history.iterations + RoomLeft(s'.workers[e.w]) <= s.history.iterations + RoomLeft(s.workers[e.w])
  {
  }

  lemma OthersKeepAside(c: Config, s: State, e: Event)
    requires Enabled(c, s, e) && ByWorker(e) && !Writes(e) && !Loops(e)
    ensures var s' := Apply(c, s, e);
      && Is(s', e.w)
      && s'.history.iterations == s.history.iterations
      && (PhaseOf(s', e.w).Exited?
          || (s'.workers[e.w].setAside == s.workers[e.w].setAside && Credit(PhaseOf(s', e.w)) <= Credit(PhaseOf(s, e.w))
              && !PhaseOf(s, e.w).Exited?))
  {
  }

  lemma OthersRoom(c: Config, s: State, e: Event)
    requires Enabled(c, s, e) && ByWorker(e) && AsideOk(s.workers[e.w]) && !Writes(e)
    ensures var s' := Apply(c, s, e);
      && Is(s', e.w)
      && s'.history.iterations + RoomLeft(s'.workers[e.w]) <= s.history.iterations + RoomLeft(s.workers[e.w])
  {
    if e.Count? {
      CountingRoom(c, s, e);
    } else if Loops(e) {
      LoopersRoom(c, s, e);
    } else {
      OthersKeepAside(c, s, e);
    }
  }

  lemma OtherPays(c: Config, s: State, e: Event)
    requires Enabled(c, s, e) && ByWorker(e) && AsideOk(s.workers[e.w]) && !Writes(e)
    ensures Pays(s, Apply(c, s, e), e)
  {
    OthersKeepRows(c, s, e);
    OthersRoom(c, s, e);
  }

  lemma WorkerPays(c: Config, s: State, e: Event)
    requires Enabled(c, s, e) && OwnershipOk(s) && AllAsideOk(s) && ByWorker(e)
    ensures Pays(s, Apply(c, s, e), e)
  {
    assert AsideOk(s.workers[e.w]);
    if e.Settle? {
      SettlerPays(c, s, e);
    } else if e.Reserve? {
      ReservationPays(c, s, e);
    } else if e.CloseOnBoard? {
      ClosingPays(c, s, e);
    } else if e.Drop? {
      DropPays(c, s, e);
    } else if Writes(e) {
      HandsPay(c, s, e);
    } else {
      OtherPays(c, s, e);
    }
  }

  lemma PayingKeepsBalance(s: State, s': State, e: Event)
    requires Pays(s, s', e) && ActorOnly(s, s', e)
    ensures Balance(s') <= Balance(s)
  {
    RoomAfterUpdate(s.workers, e.w, s'.workers[e.w]);
    if Touched(s, e).Some? {
      var id := Touched(s, e).value;
      if id in s.rows { TotalAfterUpdate(s.rows, s'.rows, id); } else { assert s'.rows == s.rows; }
    }
  }

  lemma BalanceMoves(c: Config, s: State, e: Event)
    requires Enabled(c, s, e) && OwnershipOk(s) && AllAsideOk(s) && OneDrain(e)
    ensures Balance(Apply(c, s, e)) <= Balance(s) + if e.AddTask? then MAX_ATTEMPTS else 0
  {
    if ByWorker(e) {
      WorkerPays(c, s, e);
      OnlyTheActorMoves(c, s, e);
      PayingKeepsBalance(s, Apply(c, s, e), e);
    } else if e.AddTask? {
      TotalAfterUpdate(s.rows, Apply(c, s, e).rows, e.id);
    }
  }

  function Added(events: seq<Event>): nat {
    if events == [] then 0 else Added(events[..|events|-1]) + if events[|events|-1].AddTask? then 1 else 0
  }

  lemma {:induction false} BalanceOfARun(c: Config, states: seq<State>, events: seq<Event>, i: nat)
    requires IsRun(c, states, events) && i < |states| && NeverSteals(states, events, i)
    requires forall j :: 0 <= j < i ==> OneDrain(events[j])
    ensures AllAsideOk(states[i])
    ensures Balance(states[i]) <= Balance(states[0]) + MAX_ATTEMPTS * Added(events[..i])
  {
    if i > 0 {
      assert Linked(c, states, events, i - 1);
      assert events[..i][..i-1] == events[..i-1];
      BalanceOfARun(c, states, events, i - 1);
      OneWorkerPerTaskIff(c, states, events, i - 1);
      AsideIsKept(c, states[i-1], events[i-1]);
      BalanceMoves(c, states[i-1], events[i-1]);
    }
  }

  // ---------------------------------------------------------------- once the window is over

  predicate IsCutLate(p: Phase) { p.Interrupted? && p.late }

  /** A worker whose row is written is cut only when the window is over. */
  ghost predicate CutsAreLate(s: State) {
    forall w: nat :: Is(s, w) && IsCutLate(PhaseOf(s, w)) ==> s.clock >= s.deadline
  }

  lemma CutNeedsTheEnd(c: Config, s: State, e: Event)
    requires Enabled(c, s, e) && OneDrain(e)
    ensures var s' := Apply(c, s, e);
      && s'.deadline == s.deadline && s'.clock >= s.clock
      && (ByWorker(e) && IsCutLate(PhaseOf(s', e.w)) && !IsCutLate(PhaseOf(s, e.w)) ==> s.clock >= s.deadline)
  {
    OnlyTheActorMoves(c, s, e);
  }

  lemma CutsStayLate(c: Config, s: State, e: Event)
    requires Enabled(c, s, e) && OneDrain(e) && CutsAreLate(s)
    ensures CutsAreLate(Apply(c, s, e))
  {
    var s' := Apply(c, s, e);
    CutNeedsTheEnd(c, s, e);
    OnlyTheActorMoves(c, s, e);
    forall w: nat | Is(s', w) && IsCutLate(PhaseOf(s', w)) ensures s'.clock >= s'.deadline {
      assert Is(s, w) && (PhaseOf(s, w) == PhaseOf(s', w) || w == e.w);
    }
  }

  lemma {:induction false} CutsOfARun(c: Config, states: seq<State>, events: seq<Event>, i: nat)
    requires IsRun(c, states, events) && i < |states|
    requires forall j :: 0 <= j < i ==> OneDrain(events[j])
    ensures CutsAreLate(states[i])
  {
    if i > 0 {
      assert Linked(c, states, events, i - 1);
      CutsOfARun(c, states, events, i - 1);
      CutsStayLate(c, states[i-1], events[i-1]);
    } else {
      forall w: nat | Is(states[0], w) ensures !IsCutLate(PhaseOf(states[0], w)) {
        assert states[0].workers[w] == Worker(Top, {});
      }
    }
  }

  /** The workers that are still in their loop. */
  function Staying(ws: seq<Worker>): nat {
    if ws == [] then 0 else Staying(ws[..|ws|-1]) + if ws[|ws|-1].phase.Exited? then 0 else 1
  }

  lemma {:induction false} StayingAfterUpdate(ws: seq<Worker>, w: nat, x: Worker)
    requires w < |ws|
    ensures var was, now := if ws[w].phase.Exited? then 0 else 1, if x.phase.Exited? then 0 else 1;
      Staying(ws[w := x]) + was == Staying(ws) + now
  {
    var n := |ws| - 1;
    if w == n {
      assert ws[w := x][..n] == ws[..n];
    } else {
      StayingAfterUpdate(ws[..n], w, x);
      assert ws[w := x][..n] == ws[..n][w := x];
    }
  }

  /** A worker in its loop has room left. */
  lemma {:induction false} StayingHasRoom(ws: seq<Worker>)
    requires forall w :: 0 <= w < |ws| ==> AsideOk(ws[w])
    ensures Staying(ws) <= TotalRoom(ws)
  {
    if ws != [] { StayingHasRoom(ws[..|ws|-1]); }
  }

  /** After the deadline an event starts an iteration only to leave the loop, and nobody comes back. */
  lemma LateEventOfWorker(c: Config, s: State, e: Event)
    requires Enabled(c, s, e) && ByWorker(e) && s.clock >= s.deadline
    ensures var s' := Apply(c, s, e);
      && Is(s', e.w) && !PhaseOf(s, e.w).Exited?
      && s'.history.iterations == s.history.iterations + (if e.Expire? then 1 else 0)
      && (e.Expire? ==> PhaseOf(s', e.w).Exited?)
  {
  }

  lemma LateEventsOnlyLeave(c: Config, s: State, e: Event)
    requires Enabled(c, s, e) && OneDrain(e) && s.clock >= s.deadline
    ensures var s' := Apply(c, s, e);
      s'.history.iterations + Staying(s'.workers) <= s.history.iterations + Staying(s.workers)
  {
    OnlyTheActorMoves(c, s, e);
    if ByWorker(e) {
      LateEventOfWorker(c, s, e);
      StayingAfterUpdate(s.workers, e.w, Apply(c, s, e).workers[e.w]);
    }
  }

  lemma {:induction false} LateRunOnlyLeaves(c: Config, states: seq<State>, events: seq<Event>, j: nat, i: nat)
    requires IsRun(c, states, events) && j <= i < |states| && states[j].clock >= states[j].deadline
    requires forall k :: j <= k < i ==> OneDrain(events[k])
    ensures states[i].clock >= states[i].deadline
    ensures states[i].history.iterations + Staying(states[i].workers)
      <= states[j].history.iterations + Staying(states[j].workers)
    decreases i
  {
    if j < i {
      assert Linked(c, states, events, i - 1);
      LateRunOnlyLeaves(c, states, events, j, i - 1);
      LateEventsOnlyLeave(c, states[i-1], events[i-1]);
      CutNeedsTheEnd(c, states[i-1], events[i-1]);
    }
  }

  lemma {:induction false} AddedGrows(events: seq<Event>, j: nat, i: nat)
    requires j <= i <= |events|
    ensures Added(events[..j]) <= Added(events[..i])
    decreases i
  {
    if j < i {
      assert events[..i][..i-1] == events[..i-1];
      AddedGrows(events, j, i - 1);
    }
  }

  /** The first release of a run that takes a row from another worker, if there is one. */
  lemma {:induction false} FirstTheft(states: seq<State>, events: seq<Event>, i: nat) returns (j: nat)
    requires |states| == |events| + 1 && i < |states|
    ensures j <= i && NeverSteals(states, events, j) && (j < i ==> Steals(states[j], events[j]))
  {
    j := 0;
    if i > 0 {
      j := FirstTheft(states, events, i - 1);
      if j == i - 1 && !Steals(states[j], events[j]) { j := i; }
    }
  }

  /** However long the window, a drain of n workers over t tasks makes at most 3 * t + 26 * n
      iterations, and three more for every task added while it runs.  A late release does not change
      that: it comes when the window is over and everyone has at most one more iteration to make. */
  lemma DrainTerminates(c: Config, states: seq<State>, events: seq<Event>, i: nat)
    requires IsRun(c, states, events) && i < |states|
    requires forall j :: 0 <= j < i ==> OneDrain(events[j])
    ensures states[i].history.iterations <=
      MAX_ATTEMPTS * (|states[0].rows| + Added(events[..i])) + (MAX_SET_ASIDE + 1) * |states[0].workers|
  {
    var j := FirstTheft(states, events, i);
    BalanceOfARun(c, states, events, j);
    TotalAtMost(states[0].rows);
    RoomAtStart(states[0].workers);
    AddedGrows(events, j, i);
    if j < i {
      CutsOfARun(c, states, events, j);
      assert Linked(c, states, events, j);
      LateRunOnlyLeaves(c, states, events, j, i);
      forall w | 0 <= w < |states[j].workers| ensures AsideOk(states[j].workers[w]) { assert Is(states[j], w); }
      StayingHasRoom(states[j].workers);
    }
  }
}

/** Which worker a row belongs to, in every run of the drain: crashes, interruptions by the window,
    process deaths with the recovery at boot, and later drains included. */
module DrainLifecycle {
  import opened Wrappers
  import opened Backlog
  import opened Providers
  import opened FailureVerdict
  import opened DrainProtocol

  // ---------------------------------------------------------------- who owns a row

  /** The phases between a reservation and the write that ends it. */
  predicate Owns(p: Phase) {
    p.Picked? || p.Electing? || p.Unserved? || p.Working? || (p.Interrupted? && !p.late)
  }

  predicate OwnsRow(s: State, w: nat, id: nat) { Is(s, w) && Owns(PhaseOf(s, w)) && PhaseOf(s, w).task.id == id }

  /** The row of a task is as its worker left it: running, with the attempts it was handed. */
  predicate RowHeld(rows: Table, t: Task) {
    t.id in rows && rows[t.id].status.Running? && rows[t.id].retries == t.retries
  }

  ghost predicate OwnershipOk(s: State) {
    && (forall w: nat, id :: OwnsRow(s, w, id) ==> RowHeld(s.rows, PhaseOf(s, w).task))
    && (forall v: nat, w: nat, id :: OwnsRow(s, v, id) && OwnsRow(s, w, id) ==> v == w)
  }

  /** The window cut a worker whose row was already written, and the release that follows finds the
      row in the hands of another worker: `liberer_tache` looks at the status only. */
  ghost predicate Steals(s: State, e: Event) {
    && e.ReleaseInterrupted? && Is(s, e.w) && PhaseOf(s, e.w).Interrupted? && PhaseOf(s, e.w).late
    && exists v: nat :: OwnsRow(s, v, PhaseOf(s, e.w).task.id)
  }

  ghost predicate SameBut(a: Table, b: Table, id: nat) {
    forall j :: j != id ==> (j in a <==> j in b) && (j in a && j in b ==> a[j] == b[j])
  }

  /** The shapes of change: the actor keeps, takes or leaves one row and touches no other. */
  ghost predicate OwnershipShape(s: State, s': State, e: Event) {
    && ActorOnly(s, s', e)
    && (e.Tick? ==> s'.rows == s.rows)
    && (e.AddTask? ==> e.id !in s.rows && SameBut(s.rows, s'.rows, e.id))
    && (ByWorker(e) ==>
          var x, x' := PhaseOf(s, e.w), PhaseOf(s', e.w);
          && (Owns(x') ==> RowHeld(s'.rows, x'.task) && SameBut(s.rows, s'.rows, x'.task.id))
          && (Owns(x') && Owns(x) ==> x'.task == x.task)
          && (Owns(x') && !Owns(x) ==> x'.task.id in s.rows && !s.rows[x'.task.id].status.Running?)
          && (!Owns(x') && Owns(x) ==> SameBut(s.rows, s'.rows, x.task.id))
          && (!Owns(x') && !Owns(x) ==>
                s'.rows == s.rows || (e.ReleaseInterrupted? && x.Interrupted? && SameBut(s.rows, s'.rows, x.task.id))))
  }

  predicate Writes(e: Event) {
    e.Reserve? || e.CloseOnBoard? || e.Drop? || e.BeginWork? || e.Settle? || e.ReleaseInterrupted?
  }

  lemma WritersChange(c: Config, s: State, e: Event)
    requires Enabled(c, s, e) && OwnershipOk(s) && Writes(e)
    ensures OwnershipShape(s, Apply(c, s, e), e)
  {
    OnlyTheActorMoves(c, s, e);
    assert Owns(PhaseOf(s, e.w)) ==> OwnsRow(s, e.w, PhaseOf(s, e.w).task.id);
  }

  lemma OthersKeepRows(c: Config, s: State, e: Event)
    requires Enabled(c, s, e) && !Writes(e) && ByWorker(e)
    ensures Is(Apply(c, s, e), e.w) && Apply(c, s, e).rows == s.rows
    ensures var x, x' := PhaseOf(s, e.w), PhaseOf(Apply(c, s, e), e.w);
      Owns(x') ==> Owns(x) && x'.task == x.task
  {
  }

  lemma OthersChange(c: Config, s: State, e: Event)
    requires Enabled(c, s, e) && OwnershipOk(s) && !Writes(e)
    ensures OwnershipShape(s, Apply(c, s, e), e)
  {
    OnlyTheActorMoves(c, s, e);
    if ByWorker(e) {
      OthersKeepRows(c, s, e);
      assert Owns(PhaseOf(s, e.w)) ==> OwnsRow(s, e.w, PhaseOf(s, e.w).task.id);
    }
  }

  lemma OwnershipChanges(c: Config, s: State, e: Event)
    requires Enabled(c, s, e) && OwnershipOk(s)
    ensures OwnershipShape(s, Apply(c, s, e), e)
  {
    if Writes(e) { WritersChange(c, s, e); } else { OthersChange(c, s, e); }
  }

  lemma ShapeKeepsRowsHeld(s: State, s': State, e: Event, w: nat, id: nat)
    requires OwnershipOk(s) && OwnershipShape(s, s', e) && !Steals(s, e)
    requires OwnsRow(s', w, id)
    ensures RowHeld(s'.rows, PhaseOf(s', w).task)
  {
    if !(ByWorker(e) && w == e.w) {
      assert PhaseOf(s', w) == PhaseOf(s, w);
      assert OwnsRow(s, w, id);
      if ByWorker(e) && Owns(PhaseOf(s, e.w)) { assert OwnsRow(s, e.w, PhaseOf(s, e.w).task.id); }
    }
  }

  lemma ShapeKeepsOwnersApart(s: State, s': State, e: Event, v: nat, w: nat, id: nat)
    requires OwnershipOk(s) && OwnershipShape(s, s', e)
    requires OwnsRow(s', v, id) && OwnsRow(s', w, id)
    ensures v == w
  {
    assert !(ByWorker(e) && v == e.w) ==> OwnsRow(s, v, id);
    assert !(ByWorker(e) && w == e.w) ==> OwnsRow(s, w, id);
    assert ByWorker(e) && Owns(PhaseOf(s, e.w)) ==> OwnsRow(s, e.w, PhaseOf(s, e.w).task.id);
  }

  lemma ShapeKeepsOwnership(s: State, s': State, e: Event)
    requires OwnershipOk(s) && OwnershipShape(s, s', e) && !Steals(s, e)
    ensures OwnershipOk(s')
  {
    forall w: nat, id | OwnsRow(s', w, id) ensures RowHeld(s'.rows, PhaseOf(s', w).task) {
      ShapeKeepsRowsHeld(s, s', e, w, id);
    }
    forall v: nat, w: nat, id | OwnsRow(s', v, id) && OwnsRow(s', w, id) ensures v == w {
      ShapeKeepsOwnersApart(s, s', e, v, w, id);
    }
  }

  /** A step breaks the ownership of a row exactly when it steals it. */
  lemma OwnershipIsKeptIff(c: Config, s: State, e: Event)
    requires Enabled(c, s, e) && OwnershipOk(s)
    ensures OwnershipOk(Apply(c, s, e)) <==> !Steals(s, e)
  {
    var s' := Apply(c, s, e);
    OwnershipChanges(c, s, e);
    if Steals(s, e) {
      var id := PhaseOf(s, e.w).task.id;
      var v: nat :| OwnsRow(s, v, id);
      assert v != e.w && OwnsRow(s', v, id);
      assert RowHeld(s.rows, PhaseOf(s, v).task) && !RowHeld(s'.rows, PhaseOf(s', v).task);
    } else {
      ShapeKeepsOwnership(s, s', e);
    }
  }

  ghost predicate NeverSteals(states: seq<State>, events: seq<Event>, i: nat)
    requires |states| == |events| + 1 && i < |states|
  {
    forall j :: 0 <= j < i ==> !Steals(states[j], events[j])
  }

  ghost predicate AlwaysOwned(states: seq<State>, i: nat)
    requires i < |states|
  {
    forall j :: 0 <= j <= i ==> OwnershipOk(states[j])
  }

  /** In a run every row being worked on belongs to one worker, at every moment, exactly when no
      late interruption steals one. */
  lemma {:induction false} OneWorkerPerTaskIff(c: Config, states: seq<State>, events: seq<Event>, i: nat)
    requires IsRun(c, states, events) && i < |states|
    ensures AlwaysOwned(states, i) <==> NeverSteals(states, events, i)
  {
    if i == 0 {
      assert forall w: nat, id :: !OwnsRow(states[0], w, id);
    } else {
      assert Linked(c, states, events, i - 1);
      OneWorkerPerTaskIff(c, states, events, i - 1);
      assert AlwaysOwned(states, i) <==> AlwaysOwned(states, i - 1) && OwnershipOk(states[i]);
      assert NeverSteals(states, events, i) <==>
        NeverSteals(states, events, i - 1) && !Steals(states[i-1], events[i-1]);
      if AlwaysOwned(states, i - 1) {
        assert OwnershipOk(states[i-1]);
        OwnershipIsKeptIff(c, states[i-1], events[i-1]);
      }
    }
  }
}

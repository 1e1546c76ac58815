/** The report of a drain: every reservation is accounted for once, and the counters of the report
    are the counts of its entries. */
module DrainAccounts {
  import opened Wrappers
  import opened Backlog
  import opened Providers
  import opened DrainProtocol

  function CountOf(entries: seq<Result>, x: Result): nat {
    if entries == [] then 0
    else CountOf(entries[..|entries|-1], x) + if entries[|entries|-1] == x then 1 else 0
  }

  lemma {:induction false} CountsPartition(entries: seq<Result>)
    ensures CountOf(entries, Success) + CountOf(entries, FailedOnce) + CountOf(entries, AbandonedOut)
      + CountOf(entries, InfraDown) + CountOf(entries, ProviderDown) == |entries|
  {
    if entries != [] { CountsPartition(entries[..|entries|-1]); }
  }

  ghost predicate CountersOk(r: Results) {
    && r.processed == |r.entries|
    && r.success == CountOf(r.entries, Success)
    && r.failed == CountOf(r.entries, FailedOnce)
    && r.abandoned == CountOf(r.entries, AbandonedOut)
    && r.infra == CountOf(r.entries, InfraDown)
  }

  lemma TalliedKeepsCounters(r: Results, x: Result)
    requires CountersOk(r)
    ensures CountersOk(Tallied(r, x))
  {
    assert Tallied(r, x).entries[..|r.entries|] == r.entries;
  }

  function Busy(ws: seq<Worker>): nat {
    if ws == [] then 0 else Busy(ws[..|ws|-1]) + if HasTask(ws[|ws|-1].phase) then 1 else 0
  }

  lemma {:induction false} BusyAfterUpdate(ws: seq<Worker>, w: nat, x: Worker)
    requires w < |ws|
    ensures Busy(ws[w := x]) + (if HasTask(ws[w].phase) then 1 else 0) == Busy(ws) + if HasTask(x.phase) then 1 else 0
  {
    var n := |ws| - 1;
    if w == n {
      assert ws[w := x][..n] == ws[..n];
    } else {
      BusyAfterUpdate(ws[..n], w, x);
      assert ws[w := x][..n] == ws[..n][w := x];
    }
  }

  lemma {:induction false} NobodyBusyAtStart(ws: seq<Worker>)
    requires forall w :: 0 <= w < |ws| ==> !HasTask(ws[w].phase)
    ensures Busy(ws) == 0
  {
    if ws != [] { NobodyBusyAtStart(ws[..|ws|-1]); }
  }

  /** The reservations that have come to an end, by their five ends. */
  function Ended(s: State): nat {
    s.results.processed + s.results.interrupted + s.history.unserved + s.history.crashed
  }

  ghost predicate AccountsOk(s: State) {
    CountersOk(s.results) && s.history.reserved == Ended(s) + Busy(s.workers)
  }

  /** A worker takes a task when it reserves, and gives it up in exactly one end. */
  ghost predicate AccountsShape(s: State, s': State, e: Event) {
    && ByWorker(e) && Is(s, e.w) && Is(s', e.w)
    && (s'.results.(interrupted := 0) == s.results.(interrupted := 0)
        || exists x :: s'.results == Tallied(s.results, x))
    && s'.history.reserved + Ended(s) + (if HasTask(PhaseOf(s, e.w)) then 1 else 0)
       == s.history.reserved + Ended(s') + if HasTask(PhaseOf(s', e.w)) then 1 else 0
  }

  predicate Ends(e: Event) { e.Count? || e.CountBoard? || e.LeaveInterrupted? || e.Drop? || e.Crash? || e.Reserve? }

  lemma EndersBalance(c: Config, s: State, e: Event)
    requires Enabled(c, s, e) && Ends(e)
    ensures AccountsShape(s, Apply(c, s, e), e)
  {
    if e.Count? { assert Apply(c, s, e).results == Tallied(s.results, PhaseOf(s, e.w).result); }
    if e.CountBoard? { assert Apply(c, s, e).results == Tallied(s.results, AbandonedOut); }
  }

  lemma OthersBalance(c: Config, s: State, e: Event)
    requires Enabled(c, s, e) && ByWorker(e) && !Ends(e)
    ensures Is(Apply(c, s, e), e.w)
    ensures var s' := Apply(c, s, e);
      && s'.results == s.results && Ended(s') == Ended(s) && s'.history.reserved == s.history.reserved
      && HasTask(PhaseOf(s', e.w)) == HasTask(PhaseOf(s, e.w))
  {
  }

  lemma ShapeKeepsAccounts(s: State, s': State, e: Event)
    requires AccountsOk(s) && AccountsShape(s, s', e) && ActorOnly(s, s', e)
    ensures AccountsOk(s')
  {
    BusyAfterUpdate(s.workers, e.w, s'.workers[e.w]);
    if s'.results.(interrupted := 0) != s.results.(interrupted := 0) {
      var x :| s'.results == Tallied(s.results, x);
      TalliedKeepsCounters(s.results, x);
    } else {
      assert s'.results.(interrupted := 0).entries == s.results.(interrupted := 0).entries;
    }
  }

  lemma AccountsAreKept(c: Config, s: State, e: Event)
    requires AccountsOk(s) && Enabled(c, s, e)
    ensures AccountsOk(Apply(c, s, e))
  {
    var s' := Apply(c, s, e);
    OnlyTheActorMoves(c, s, e);
    if ByWorker(e) {
      if Ends(e) { EndersBalance(c, s, e); } else { OthersBalance(c, s, e); }
      ShapeKeepsAccounts(s, s', e);
    } else if e.Boot? || e.NextDrain? {
      NobodyBusyAtStart(s'.workers);
    }
  }

  /** In every state of every run, and for the drain in progress: what was reserved is processed,
      interrupted by the window, left unserved, lost in a crash, or in the hands of a worker. */
  lemma {:induction false} EveryReservationIsAccounted(c: Config, states: seq<State>, events: seq<Event>, i: nat)
    requires IsRun(c, states, events) && i < |states|
    ensures AccountsOk(states[i])
    ensures var r := states[i].results;
      r.processed == r.success + r.failed + r.abandoned + r.infra + CountOf(r.entries, ProviderDown)
    ensures (forall w: nat :: Is(states[i], w) ==> PhaseOf(states[i], w).Exited?) ==>
      states[i].history.reserved == Ended(states[i])
  {
    if i == 0 {
      NobodyBusyAtStart(states[0].workers);
    } else {
      assert Linked(c, states, events, i - 1);
      EveryReservationIsAccounted(c, states, events, i - 1);
      AccountsAreKept(c, states[i-1], events[i-1]);
    }
    CountsPartition(states[i].results.entries);
    if forall w: nat :: Is(states[i], w) ==> PhaseOf(states[i], w).Exited? {
      forall w | 0 <= w < |states[i].workers| ensures !HasTask(states[i].workers[w].phase) {
        assert Is(states[i], w) && PhaseOf(states[i], w).Exited?;
      }
      NobodyBusyAtStart(states[i].workers);
    }
  }

  // ---------------------------------------------------------------- the report tells the outcomes

  /** What an event decides about the task of its worker. */
  function Outcome(c: Config, s: State, e: Event): Option<Result> {
    if e.CloseOnBoard? then Some(AbandonedOut)
    else if !e.Settle? || !Is(s, e.w) || !PhaseOf(s, e.w).Working? then None
    else if e.ending.Done? then Some(Success)
    else
      var error := e.ending.error;
      if !error.quality && error.infra then Some(InfraDown)
      else if !error.quality && error.quota then Some(ProviderDown)
      else if PhaseOf(s, e.w).task.retries + 1 >= 3 then Some(AbandonedOut)
      else Some(FailedOnce)
  }

  /** The outcome that a worker still has to report. */
  function ToReport(p: Phase): Option<Result> {
    match p
    case BoardClosed(_) => Some(AbandonedOut)
    case Settled(_, _, _, result) => Some(result)
    case Finished(_, result) => Some(result)
    case _ => None
  }

  function One(o: Option<Result>, x: Result): nat { if o == Some(x) then 1 else 0 }

  function Unreported(ws: seq<Worker>, x: Result): nat {
    if ws == [] then 0 else Unreported(ws[..|ws|-1], x) + One(ToReport(ws[|ws|-1].phase), x)
  }

  lemma {:induction false} UnreportedAfterUpdate(ws: seq<Worker>, w: nat, y: Worker, x: Result)
    requires w < |ws|
    ensures Unreported(ws[w := y], x) + One(ToReport(ws[w].phase), x) == Unreported(ws, x) + One(ToReport(y.phase), x)
  {
    var n := |ws| - 1;
    if w == n {
      assert ws[w := y][..n] == ws[..n];
    } else {
      UnreportedAfterUpdate(ws[..n], w, y, x);
      assert ws[w := y][..n] == ws[..n][w := y];
    }
  }

  lemma {:induction false} NothingToReport(ws: seq<Worker>, x: Result)
    requires forall w :: 0 <= w < |ws| ==> ToReport(ws[w].phase).None?
    ensures Unreported(ws, x) == 0
  {
    if ws != [] { NothingToReport(ws[..|ws|-1], x); }
  }

  lemma CountOfOneMore(entries: seq<Result>, y: Result, x: Result)
    ensures CountOf(entries + [y], x) == CountOf(entries, x) + if y == x then 1 else 0
  {
    assert (entries + [y])[..|entries|] == entries;
  }

  /** An event loses what its worker had to report: a late cut or a crash. */
  predicate Loses(e: Event) { e.LateInterrupt? || e.Crash? }

  /** One event: an outcome is decided, carried, and entered in the report as it was decided. */
  lemma OutcomeIsCarried(c: Config, s: State, e: Event)
    requires Enabled(c, s, e) && ByWorker(e)
    ensures var s' := Apply(c, s, e);
      && Is(s', e.w)
      && var had, has := ToReport(PhaseOf(s, e.w)), ToReport(PhaseOf(s', e.w));
        && (e.Count? || e.CountBoard? ==>
              had.Some? && has.None? && s'.results.entries == s.results.entries + [had.value])
        && (!e.Count? && !e.CountBoard? ==> s'.results.entries == s.results.entries)
        && (Outcome(c, s, e).Some? ==> had.None? && has == Outcome(c, s, e))
        && (Outcome(c, s, e).None? && !e.Count? && !e.CountBoard? ==> has == (if Loses(e) then None else had))
  {
    if e.Settle? {
      SettlingDecides(c, s, e);
    } else if Branches(e) {
      BranchesCarry(c, s, e);
    } else {
      RestCarries(c, s, e);
    }
  }

  lemma SettlingDecides(c: Config, s: State, e: Event)
    requires Enabled(c, s, e) && e.Settle?
    ensures var s' := Apply(c, s, e);
      && Is(s', e.w) && s'.results == s.results && Outcome(c, s, e).Some?
      && ToReport(PhaseOf(s, e.w)).None? && ToReport(PhaseOf(s', e.w)) == Outcome(c, s, e)
  {
  }

  lemma BranchesCarry(c: Config, s: State, e: Event)
    requires Enabled(c, s, e) && Branches(e) && !e.Settle?
    ensures var s' := Apply(c, s, e);
      && Is(s', e.w)
      && var had, has := ToReport(PhaseOf(s, e.w)), ToReport(PhaseOf(s', e.w));
        && (e.Count? ==> had.Some? && has.None? && s'.results.entries == s.results.entries + [had.value])
        && (!e.Count? ==> s'.results.entries == s.results.entries && has == (if Loses(e) then None else had))
  {
  }

  lemma RestCarries(c: Config, s: State, e: Event)
    requires Enabled(c, s, e) && ByWorker(e) && !Branches(e)
    ensures var s' := Apply(c, s, e);
      && Is(s', e.w)
      && var had, has := ToReport(PhaseOf(s, e.w)), ToReport(PhaseOf(s', e.w));
        && (e.CountBoard? ==> had.Some? && has.None? && s'.results.entries == s.results.entries + [had.value])
        && (!e.CountBoard? ==> s'.results.entries == s.results.entries)
        && (e.CloseOnBoard? ==> had.None? && has == Some(AbandonedOut))
        && (!e.CountBoard? && !e.CloseOnBoard? ==> has == (if Loses(e) then None else had))
  {
  }

  /** How many of the first i events decided x. */
  function Decided(c: Config, states: seq<State>, events: seq<Event>, i: nat, x: Result): nat
    requires |states| == |events| + 1 && i <= |events|
  {
    if i == 0 then 0 else Decided(c, states, events, i - 1, x) + One(Outcome(c, states[i-1], events[i-1]), x)
  }

  lemma ReportMoves(c: Config, s: State, e: Event, x: Result)
    requires Enabled(c, s, e) && OneDrain(e)
    ensures var s' := Apply(c, s, e);
      var before, after := CountOf(s.results.entries, x) + Unreported(s.workers, x),
        CountOf(s'.results.entries, x) + Unreported(s'.workers, x);
      && after <= before + One(Outcome(c, s, e), x)
      && (!Loses(e) ==> after == before + One(Outcome(c, s, e), x))
  {
    var s' := Apply(c, s, e);
    OnlyTheActorMoves(c, s, e);
    if ByWorker(e) {
      OutcomeIsCarried(c, s, e);
      UnreportedAfterUpdate(s.workers, e.w, s'.workers[e.w], x);
      if e.Count? || e.CountBoard? { CountOfOneMore(s.results.entries, ToReport(PhaseOf(s, e.w)).value, x); }
    }
  }

  /** Over a drain the report invents nothing: the entries of each kind, with what the workers still have
      to report, are the outcomes of that kind decided so far, less those lost to a late cut or a crash. */
  lemma {:induction false} ReportTellsTheOutcomes(
      c: Config, states: seq<State>, events: seq<Event>, i: nat, x: Result)
    requires IsRun(c, states, events) && i < |states|
    requires forall j :: 0 <= j < i ==> OneDrain(events[j])
    ensures var told := CountOf(states[i].results.entries, x) + Unreported(states[i].workers, x);
      && told <= Decided(c, states, events, i, x)
      && ((forall j :: 0 <= j < i ==> !Loses(events[j])) ==> told == Decided(c, states, events, i, x))
  {
    if i == 0 {
      NothingToReport(states[0].workers, x);
    } else {
      assert Linked(c, states, events, i - 1);
      ReportTellsTheOutcomes(c, states, events, i - 1, x);
      ReportMoves(c, states[i-1], events[i-1], x);
    }
  }
}

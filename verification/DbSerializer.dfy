/** The FIFO serializer of database functions (core/async_db_serializer.py).

    A job is the number of its submission; its future is `futures[job]`.  A worker that was created has
    not begun: only its first step brings it into the `try` of its loop.  From there on it is at one of
    two await points, waiting for the queue or for the thread that runs a function. */
module DbSerializer {
  import opened Wrappers

  type Outcome = int     // what a function returned or raised

  datatype Future = Pending | Resolved(outcome: Outcome) | Cancelled

  /** taken, finished, orphans and stops are history: the jobs taken so far, the outcomes so far,
      the jobs whose worker was stopped under them, and the number of such stops. */
  datatype State = State(
    queue: seq<nat>, inFlight: Option<nat>, futures: seq<Future>, alive: bool, begun: bool,
    taken: seq<nat>, finished: seq<Outcome>, orphans: set<nat>, stops: nat)

  const INITIAL := State([], None, [], false, false, [], [], {}, 0)

  datatype Event =
    | Submit
    | Abandon(job: nat)          // the caller is cancelled while it waits
    | Start
    | Begin                      // the first step of the worker
    | Take
    | Finish(outcome: Outcome)
    | Stop

  predicate Enabled(s: State, e: Event) {
    match e
    case Abandon(job) => job < |s.futures|
    case Begin => s.alive && !s.begun
    case Take => s.alive && s.begun && s.inFlight.None? && s.queue != []
    case Finish(_) => s.alive && s.begun && s.inFlight.Some? && s.inFlight.value < |s.futures|
    case _ => true
  }

  function CancelOne(f: Future): Future { if f.Pending? then Cancelled else f }

  /** The futures of the queue, cancelled. */
  function CancelAll(futures: seq<Future>, queue: seq<nat>): (r: seq<Future>)
    ensures |r| == |futures|
    ensures forall i :: 0 <= i < |futures| ==> r[i] == if i in queue then CancelOne(futures[i]) else futures[i]
  {
    seq(|futures|, i requires 0 <= i < |futures| => if i in queue then CancelOne(futures[i]) else futures[i])
  }

  lemma CancelOneMore(futures: seq<Future>, queue: seq<nat>, job: nat)
    requires job < |futures|
    ensures CancelAll(futures, queue + [job]) ==
      var r := CancelAll(futures, queue); r[job := CancelOne(r[job])]
  {
    var a, r := CancelAll(futures, queue + [job]), CancelAll(futures, queue);
    forall i | 0 <= i < |futures| ensures a[i] == r[job := CancelOne(r[job])][i] {
      assert i in queue + [job] <==> i in queue || i == job;
    }
  }

  function Apply(s: State, e: Event): State
    requires Enabled(s, e)
  {
    match e
    case Submit => s.(futures := s.futures + [Pending], queue := s.queue + [|s.futures|])
    case Abandon(job) => s.(futures := s.futures[job := CancelOne(s.futures[job])])
    case Start => if s.alive then s else s.(alive := true, begun := false)
    case Begin => s.(begun := true)
    case Take => s.(inFlight := Some(s.queue[0]), queue := s.queue[1..], taken := s.taken + [s.queue[0]])
    case Finish(outcome) =>
      var job := s.inFlight.value;
      s.(inFlight := None, finished := s.finished + [outcome],
         futures := s.futures[job := if s.futures[job].Cancelled? then Cancelled else Resolved(outcome)])
    case Stop =>
      if !s.alive then s
      else if !s.begun then s.(alive := false)   // cancelled before its `try`: nothing is emptied
      else
        s.(alive := false, begun := false, queue := [], inFlight := None, futures := CancelAll(s.futures, s.queue),
           orphans := s.orphans + (if s.inFlight.Some? then {s.inFlight.value} else {}),
           stops := s.stops + (if s.inFlight.Some? then 1 else 0))
  }

  predicate Linked(states: seq<State>, events: seq<Event>, i: nat)
    requires |states| == |events| + 1 && i < |events|
  {
    Enabled(states[i], events[i]) && states[i+1] == Apply(states[i], events[i])
  }

  ghost predicate IsRun(states: seq<State>, events: seq<Event>) {
    && |states| == |events| + 1 && states[0] == INITIAL
    && forall i: nat :: i < |events| ==> Linked(states, events, i)
  }

  // ---------------------------------------------------------------- submission order, every run

  /** The jobs taken, without those that are out: in flight, or left by a stop. */
  function Served(taken: seq<nat>, out: set<nat>): seq<nat> {
    if taken == [] then []
    else
      var n := |taken| - 1;
      Served(taken[..n], out) + if taken[n] in out then [] else [taken[n]]
  }

  function Out(s: State): set<nat> { s.orphans + if s.inFlight.Some? then {s.inFlight.value} else {} }

  function ServedBy(s: State): seq<nat> { Served(s.taken, Out(s)) }

  lemma {:induction false} ServedMembers(taken: seq<nat>, out: set<nat>, job: nat)
    ensures job in Served(taken, out) <==> job in taken && job !in out
  {
    if taken != [] {
      var n := |taken| - 1;
      ServedMembers(taken[..n], out, job);
      assert taken == taken[..n] + [taken[n]];
    }
  }

  lemma {:induction false} ServedIgnores(taken: seq<nat>, out: set<nat>, job: nat)
    requires job !in taken
    ensures Served(taken, out + {job}) == Served(taken, out)
  {
    if taken != [] {
      var n := |taken| - 1;
      assert taken[n] != job;
      ServedIgnores(taken[..n], out, job);
    }
  }

  lemma ServedOneMore(taken: seq<nat>, out: set<nat>, job: nat)
    requires job !in taken
    ensures Served(taken + [job], out + {job}) == Served(taken, out)
    ensures job !in out ==> Served(taken + [job], out) == Served(taken, out) + [job]
  {
    assert (taken + [job])[..|taken|] == taken;
    ServedIgnores(taken, out, job);
  }

  predicate Increasing(jobs: seq<nat>) { forall k, l :: 0 <= k < l < |jobs| ==> jobs[k] < jobs[l] }

  predicate JobsOk(s: State) {
    var jobs := s.taken + s.queue;
    Increasing(jobs) && forall k :: 0 <= k < |jobs| ==> jobs[k] < |s.futures|
  }

  predicate FlightOk(s: State) {
    && (s.begun ==> s.alive)
    && (s.inFlight.Some? ==> s.begun && s.taken != [] && s.taken[|s.taken|-1] == s.inFlight.value)
    && (s.inFlight.Some? ==> s.inFlight.value !in s.orphans)
    && (forall o :: o in s.orphans ==> o in s.taken)
  }

  /** Outcome k is that of the k-th job served: its future received it, unless the caller gave up. */
  predicate OutcomesOk(s: State) {
    var served := ServedBy(s);
    && |served| == |s.finished|
    && (forall k :: 0 <= k < |served| ==>
          served[k] < |s.futures|
          && (s.futures[served[k]] == Resolved(s.finished[k]) || s.futures[served[k]].Cancelled?))
    && (forall j :: 0 <= j < |s.futures| && s.futures[j].Resolved? ==> j in served)
  }

  /** No job is lost without a word. */
  predicate NoneLost(s: State) {
    forall j :: 0 <= j < |s.futures| ==> j in s.taken || j in s.queue || s.futures[j].Cancelled?
  }

  predicate InOrder(s: State) { JobsOk(s) && FlightOk(s) && OutcomesOk(s) && NoneLost(s) }

  lemma NextIsNew(s: State)
    requires JobsOk(s) && s.queue != []
    ensures s.queue[0] !in s.taken && s.queue[0] < |s.futures|
  {
    var jobs := s.taken + s.queue;
    assert jobs[|s.taken|] == s.queue[0];
    forall k | 0 <= k < |s.taken| ensures s.taken[k] != s.queue[0] { assert jobs[k] < jobs[|s.taken|]; }
  }

  lemma TakeKeepsOrder(s: State)
    requires InOrder(s) && Enabled(s, Take)
    ensures InOrder(Apply(s, Take))
  {
    var s', job := Apply(s, Take), s.queue[0];
    NextIsNew(s);
    assert s'.taken + s'.queue == s.taken + s.queue;
    ServedOneMore(s.taken, Out(s), job);
    assert Out(s') == Out(s) + {job};
    assert s.queue == [job] + s'.queue;
  }

  lemma FinishKeepsOrder(s: State, outcome: Outcome)
    requires InOrder(s) && Enabled(s, Finish(outcome))
    ensures InOrder(Apply(s, Finish(outcome)))
  {
    var s', job, n := Apply(s, Finish(outcome)), s.inFlight.value, |s.taken| - 1;
    var before := s.taken[..n];
    assert s.taken == before + [job];
    forall k | 0 <= k < n ensures before[k] != job { assert (s.taken + s.queue)[k] < (s.taken + s.queue)[n]; }
    ServedOneMore(before, s.orphans, job);
    ServedMembers(before, s.orphans, job);
    assert Out(s') == s.orphans && ServedBy(s') == ServedBy(s) + [job];
    forall j | 0 <= j < |s'.futures| && s'.futures[j].Resolved? ensures j in ServedBy(s') {
      assert j == job || s'.futures[j] == s.futures[j];
    }
  }

  lemma StopKeepsOrder(s: State)
    requires InOrder(s)
    ensures InOrder(Apply(s, Stop))
  {
    var s' := Apply(s, Stop);
    assert Out(s') == Out(s);
    assert s'.taken + s'.queue == if s.alive && s.begun then (s.taken + s.queue)[..|s.taken|] else s.taken + s.queue;
    forall j | 0 <= j < |s'.futures| ensures j in s'.taken || j in s'.queue || s'.futures[j].Cancelled? {
      ServedMembers(s.taken, Out(s), j);
    }
  }

  lemma SubmitKeepsOrder(s: State)
    requires InOrder(s)
    ensures InOrder(Apply(s, Submit))
  {
    var s' := Apply(s, Submit);
    assert s'.taken + s'.queue == (s.taken + s.queue) + [|s.futures|];
    assert Out(s') == Out(s);
  }

  lemma OrderIsKept(s: State, e: Event)
    requires InOrder(s) && Enabled(s, e)
    ensures InOrder(Apply(s, e))
  {
    match e
    case Submit => SubmitKeepsOrder(s);
    case Take => TakeKeepsOrder(s);
    case Finish(outcome) => FinishKeepsOrder(s, outcome);
    case Stop => StopKeepsOrder(s);
    case _ => assert Out(Apply(s, e)) == Out(s);
  }

  /** In every run, however often the worker is stopped and started: jobs run in order of submission,
      outcome k goes to the future of the k-th job that was served, unless its caller gave up, no other
      future receives one, and a job that is neither taken nor waiting was cancelled. */
  lemma {:induction false} FirstInFirstOut(states: seq<State>, events: seq<Event>, i: nat)
    requires IsRun(states, events) && i < |states|
    ensures InOrder(states[i])
  {
    if i > 0 {
      assert Linked(states, events, i - 1);
      FirstInFirstOut(states, events, i - 1);
      OrderIsKept(states[i-1], events[i-1]);
    }
  }

  // ---------------------------------------------------------------- which futures are cancelled

  /** The event cancels the future of the job: its caller gives up, or a worker that has begun is stopped
      while the job waits. */
  predicate Cancels(s: State, e: Event, job: nat) {
    && job < |s.futures| && s.futures[job].Pending?
    && (e == Abandon(job) || (e.Stop? && s.alive && s.begun && job in s.queue))
  }

  /** An answer is final, and nothing but those two cancels a future. */
  lemma FuturesMove(s: State, e: Event, job: nat)
    requires InOrder(s) && Enabled(s, e) && job < |Apply(s, e).futures|
    ensures job >= |s.futures| ==> e.Submit? && Apply(s, e).futures[job].Pending?
    ensures job < |s.futures| ==>
      var f, f' := s.futures[job], Apply(s, e).futures[job];
      && (!f.Pending? ==> f' == f)
      && (f.Pending? ==>
            f' == if Cancels(s, e, job) then Cancelled
                  else if e.Finish? && s.inFlight == Some(job) then Resolved(e.outcome) else Pending)
  {
    ServedMembers(s.taken, Out(s), job);
  }

  predicate GivenUp(states: seq<State>, events: seq<Event>, i: nat, job: nat)
    requires |states| == |events| + 1 && i < |states|
  {
    i > 0 && (GivenUp(states, events, i - 1, job) || Cancels(states[i-1], events[i-1], job))
  }

  /** Over a run: a future is cancelled exactly when its caller gave up or a stop found its job waiting,
      before it had an answer. */
  lemma {:induction false} CancelledIff(states: seq<State>, events: seq<Event>, i: nat, job: nat)
    requires IsRun(states, events) && i < |states|
    ensures GivenUp(states, events, i, job) <==> job < |states[i].futures| && states[i].futures[job].Cancelled?
  {
    if i > 0 {
      assert Linked(states, events, i - 1);
      CancelledIff(states, events, i - 1, job);
      FirstInFirstOut(states, events, i - 1);
      if job < |states[i].futures| { FuturesMove(states[i-1], events[i-1], job); }
    }
  }

  // ---------------------------------------------------------------- one lifetime: one at a time

  /** The jobs submitted between two moments. */
  function Range(a: nat, b: nat): (r: seq<nat>)
    requires a <= b
  {
    seq(b - a, k requires 0 <= k < b - a => a + k)
  }

  /** What one worker has done between two moments of its life. */
  predicate Sequential(s: State, t: State) {
    && s.taken <= t.taken && s.finished <= t.finished && |s.futures| <= |t.futures| && t.orphans == s.orphans
    && var jobs, outcomes := t.taken[|s.taken|..], t.finished[|s.finished|..];
    && jobs + t.queue == s.queue + Range(|s.futures|, |t.futures|)
    && |jobs| == |outcomes| + (if t.inFlight.Some? then 1 else 0)
    && (t.inFlight.Some? ==> jobs[|outcomes|] == t.inFlight.value)
    && (forall k :: 0 <= k < |outcomes| ==>
          jobs[k] < |t.futures|
          && (t.futures[jobs[k]] == Resolved(outcomes[k]) || t.futures[jobs[k]].Cancelled?))
  }

  lemma SequentialTake(s: State, t: State)
    requires Sequential(s, t) && Enabled(t, Take)
    ensures Sequential(s, Apply(t, Take))
  {
    var t', jobs := Apply(t, Take), t.taken[|s.taken|..];
    assert t'.taken[|s.taken|..] == jobs + [t.queue[0]];
    assert t'.taken[|s.taken|..] + t'.queue == jobs + t.queue;
  }

  lemma SequentialFinish(s: State, t: State, outcome: Outcome)
    requires Sequential(s, t) && InOrder(t) && Enabled(t, Finish(outcome))
    ensures Sequential(s, Apply(t, Finish(outcome)))
  {
    var t', jobs, outcomes := Apply(t, Finish(outcome)), t.taken[|s.taken|..], t.finished[|s.finished|..];
    assert t'.finished[|s.finished|..] == outcomes + [outcome];
    forall k | 0 <= k < |outcomes| ensures jobs[k] != t.inFlight.value {
      assert (t.taken + t.queue)[|s.taken| + k] < (t.taken + t.queue)[|s.taken| + |outcomes|];
    }
  }

  lemma SequentialRest(s: State, t: State, e: Event)
    requires Sequential(s, t) && InOrder(t) && Enabled(t, e) && !e.Take? && !e.Finish? && !e.Stop?
    ensures Sequential(s, Apply(t, e))
  {
    var t' := Apply(t, e);
    if e.Submit? {
      var jobs := t.taken[|s.taken|..];
      assert Range(|s.futures|, |t'.futures|) == Range(|s.futures|, |t.futures|) + [|t.futures|];
      assert jobs + t'.queue == jobs + t.queue + [|t.futures|];
    }
  }

  /** From any moment at which nothing is in flight to the next stop: the jobs that were waiting and
      those submitted since run one at a time, in that order, none left out, each outcome to its own
      future. */
  lemma {:induction false} LifetimeIsSequential(states: seq<State>, events: seq<Event>, i: nat, j: nat)
    requires IsRun(states, events) && i <= j < |states| && states[i].inFlight.None?
    requires forall k :: i <= k < j ==> !events[k].Stop?
    ensures Sequential(states[i], states[j])
    decreases j
  {
    if i < j {
      assert Linked(states, events, j - 1);
      LifetimeIsSequential(states, events, i, j - 1);
      FirstInFirstOut(states, events, j - 1);
      var t, e := states[j-1], events[j-1];
      if e.Take? {
        SequentialTake(states[i], t);
      } else if e.Finish? {
        SequentialFinish(states[i], t, e.outcome);
      } else {
        SequentialRest(states[i], t, e);
      }
    }
  }

  // ---------------------------------------------------------------- futures left without an answer

  ghost predicate Before(s: State, job: nat) {
    job < |s.futures| && forall k :: 0 <= k < |s.queue| ==> job < s.queue[k]
  }

  /** A future without answer belongs to a job that waits, that runs, or whose worker was stopped;
      the jobs that wait were all submitted after those. */
  ghost predicate PendingOk(s: State) {
    && (forall k :: 0 <= k < |s.queue| ==> s.queue[k] < |s.futures|)
    && (forall k, l :: 0 <= k < l < |s.queue| ==> s.queue[k] < s.queue[l])
    && (s.inFlight.Some? ==> s.alive && s.begun && Before(s, s.inFlight.value))
    && (forall o :: o in s.orphans ==> Before(s, o))
    && (forall j: nat :: j < |s.futures| && s.futures[j].Pending? ==>
          j in s.queue || s.inFlight == Some(j) || j in s.orphans)
    && |s.orphans| <= s.stops
  }

  lemma TakeKeepsPending(s: State)
    requires PendingOk(s) && Enabled(s, Take)
    ensures PendingOk(Apply(s, Take))
  {
    assert s.queue == [s.queue[0]] + s.queue[1..];
  }

  lemma StopKeepsPending(s: State)
    requires PendingOk(s)
    ensures PendingOk(Apply(s, Stop))
  {
  }

  lemma PendingIsKept(s: State, e: Event)
    requires PendingOk(s) && Enabled(s, e)
    ensures PendingOk(Apply(s, e))
  {
    if e.Take? {
      TakeKeepsPending(s);
    } else if e.Submit? {
      assert Apply(s, e).queue[|s.queue|] == |s.futures|;
    } else if e.Stop? {
      StopKeepsPending(s);
    }
  }

  lemma {:induction false} PendingOfARun(states: seq<State>, events: seq<Event>, i: nat)
    requires IsRun(states, events) && i < |states|
    ensures PendingOk(states[i])
  {
    if i > 0 {
      assert Linked(states, events, i - 1);
      PendingOfARun(states, events, i - 1);
      PendingIsKept(states[i-1], events[i-1]);
    }
  }

  /** A stop leaves a future without answer exactly when it had none and its function was running, or
      an earlier stop had left it in that way (one for each stop at most), or the worker had not taken
      its first step: then the queue stays as it is. */
  lemma StopLeavesIff(states: seq<State>, events: seq<Event>, i: nat, job: nat)
    requires IsRun(states, events) && i < |events| && events[i].Stop? && states[i].alive
    requires job < |states[i].futures|
    ensures var s, s' := states[i], states[i+1];
      && |s'.futures| == |s.futures|
      && (s'.futures[job].Pending? <==>
            s.futures[job].Pending? && (s.inFlight == Some(job) || job in s.orphans || !s.begun))
      && s'.queue == (if s.begun then [] else s.queue)
      && |s'.orphans| <= s'.stops <= s.stops + 1
  {
    assert Linked(states, events, i);
    PendingOfARun(states, events, i);
    PendingIsKept(states[i], events[i]);
  }

  /** Submit, start, stop before the first step: the future keeps waiting, and its job is neither in
      flight nor left by a stop.  A worker started later serves it. */
  lemma UnbegunStopAnswersNobody(outcome: Outcome) returns (states: seq<State>, events: seq<Event>)
    ensures IsRun(states, events) && events == [Submit, Start, Stop, Start, Begin, Take, Finish(outcome)]
    ensures states[3].futures == [Pending] && states[3].queue == [0] && states[3].inFlight.None?
    ensures states[3].orphans == {} && !states[3].alive
    ensures states[7].futures == [Resolved(outcome)]
  {
    events := [Submit, Start, Stop, Start, Begin, Take, Finish(outcome)];
    var s1 := Apply(INITIAL, Submit);
    var s2 := Apply(s1, Start);
    var s3 := Apply(s2, Stop);
    var s4 := Apply(s3, Start);
    var s5 := Apply(s4, Begin);
    var s6 := Apply(s5, Take);
    var s7 := Apply(s6, Finish(outcome));
    states := [INITIAL, s1, s2, s3, s4, s5, s6, s7];
  }

  // ---------------------------------------------------------------- the object

  class AsyncDbSerializer {
    var queue: seq<nat>
    var inFlight: Option<nat>
    var futures: seq<Future>
    var started: bool
    var begun: bool
    ghost var taken: seq<nat>
    ghost var finished: seq<Outcome>
    ghost var orphans: set<nat>
    ghost var stops: nat

    ghost function Now(): State
      reads this
    {
      State(queue, inFlight, futures, started, begun, taken, finished, orphans, stops)
    }

    constructor ()
      ensures Now() == INITIAL
    {
      queue, inFlight, futures, started, begun := [], None, [], false, false;
      taken, finished, orphans, stops := [], [], {}, 0;
    }

    method Start()
      modifies this
      ensures Now() == Apply(old(Now()), Event.Start)
    {
      if !started { started, begun := true, false; }
    }

    /** The worker enters its loop. */
    method Begin()
      requires Enabled(Now(), Event.Begin)
      modifies this
      ensures Now() == Apply(old(Now()), Event.Begin)
    {
      begun := true;
    }

    /** The part of `execute` before its await. */
    method Submit() returns (job: nat)
      modifies this
      ensures job == old(|futures|) && Now() == Apply(old(Now()), Event.Submit)
    {
      job := |futures|;
      futures := futures + [Pending];
      queue := queue + [job];
    }

    /** The worker up to the call of the function. */
    method TakeNext()
      requires Enabled(Now(), Take)
      modifies this
      ensures Now() == Apply(old(Now()), Take)
    {
      inFlight, taken := Some(queue[0]), taken + [queue[0]];
      queue := queue[1..];
    }

    /** The worker from the end of the function on. */
    method Answer(outcome: Outcome)
      requires Enabled(Now(), Finish(outcome))
      modifies this
      ensures Now() == Apply(old(Now()), Finish(outcome))
    {
      var job := inFlight.value;
      if !futures[job].Cancelled? { futures := futures[job := Resolved(outcome)]; }
      inFlight, finished := None, finished + [outcome];
    }

    /** The queue is emptied and its futures cancelled. */
    method CancelQueue()
      requires forall k :: 0 <= k < |queue| ==> queue[k] < |futures|
      modifies this`queue, this`futures
      ensures queue == [] && futures == CancelAll(old(futures), old(queue))
    {
      ghost var all := queue;
      ghost var done := 0;
      while queue != []
        invariant done <= |all| && queue == all[done..]
        invariant futures == CancelAll(old(futures), all[..done])
        decreases |queue|
      {
        var job := queue[0];
        assert all[..done+1] == all[..done] + [job];
        CancelOneMore(old(futures), all[..done], job);
        queue := queue[1..];
        if futures[job].Pending? { futures := futures[job := Cancelled]; }
        done := done + 1;
      }
      assert all[..done] == all;
    }

    /** The cancelled worker dies; it empties the queue if it has entered its loop. */
    method Stop()
      requires forall k :: 0 <= k < |queue| ==> queue[k] < |futures|
      modifies this
      ensures Now() == Apply(old(Now()), Event.Stop)
    {
      if !started { return; }
      if begun {
        CancelQueue();
        if inFlight.Some? { orphans, stops := orphans + {inFlight.value}, stops + 1; }
        inFlight := None;
      }
      started, begun := false, false;
    }
  }
}

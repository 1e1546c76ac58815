/** The state that `core/budget_guard.py` updates in place: the billing history, the cooldowns and
    the round-robin index. */
module BudgetGuard {
  import opened Wrappers
  import opened Backlog
  import opened Providers
  import opened UsageLedger
  import opened ProviderElection

  const NAMED: set<Provider> := {GeminiCli, ClaudeCli, CohereFree, MistralFree, GeminiFree, DeepseekFree, ClaudeHaiku}

  datatype Limits = Limits(gemini: nat, deepseek: nat)

  class Guard {
    var ledger: Ledger
    var failedAt: map<Provider, Time>
    var rotation: nat

    constructor ()
      ensures ledger == [] && failedAt == map[] && rotation == 0
    {
      ledger, failedAt, rotation := [], map[], 0;
    }

    /** `_in_cooldown` */
    predicate InCooldown(p: Provider, now: Time)
      reads this
    {
      now - (if p in failedAt then failedAt[p] else 0.0) < COOLDOWN
    }

    method MarkProviderFailed(p: Provider, now: Time)
      modifies this
      ensures ledger == old(ledger) && rotation == old(rotation)
      ensures forall q, later :: InCooldown(q, later) <==>
        if q == p then later - now < 1800.0 else old(InCooldown(q, later))
    {
      failedAt := failedAt[p := now];
    }

    /** The record counts in exactly the windows that contain its time. */
    method RecordUsage(p: Provider, at: Time)
      modifies this
      ensures failedAt == old(failedAt) && rotation == old(rotation)
      ensures forall q, until ::
        var here := if q == p && until - 86400.0 < at <= until then 1 else 0;
        CountIn(ledger, q, until) == CountIn(old(ledger), q, until) + here
    {
      ledger := ledger + [Entry(p, at, false)];
      assert ledger[..|ledger|-1] == old(ledger);
    }

    /** SELECT COUNT(*): a scan of the table. */
    method CountCalls(p: Provider, since: Time) returns (n: nat)
      ensures n == CountAfter(ledger, p, since)
      ensures n == |set i | 0 <= i < |ledger| && ledger[i].provider == p && ledger[i].at > since|
    {
      n := 0;
      var i := 0;
      while i < |ledger|
        invariant i <= |ledger|
        invariant n == CountAfter(ledger[..i], p, since)
      {
        assert ledger[..i+1][..i] == ledger[..i];
        if ledger[i].provider == p && ledger[i].at > since { n := n + 1; }
        i := i + 1;
      }
      assert ledger[..i] == ledger;
      CountAfterIsTheNumber(ledger, p, since);
    }

    /** `quota_gratuit_epuise`: an unread ledger, a tier that is not counted and a limit left at zero
        never block; otherwise the tier is exhausted exactly when the last day holds its limit. */
    method QuotaExhausted(p: Provider, now: Time, limits: Limits, readable: bool) returns (exhausted: bool)
      ensures !p.GeminiFree? && !p.DeepseekFree? ==> !exhausted
      ensures p.GeminiFree? || p.DeepseekFree? ==>
        var limit := if p.GeminiFree? then limits.gemini else limits.deepseek;
        exhausted <==>
          && limit > 0 && readable
          && |set i | 0 <= i < |ledger| && ledger[i].provider == p && ledger[i].at > now - 86400.0| >= limit
      ensures exhausted && (forall i :: 0 <= i < |ledger| ==> ledger[i].at <= now) ==>
        CountIn(ledger, p, now) >= if p.GeminiFree? then limits.gemini else limits.deepseek
    {
      if !Counted(p) { return false; }
      var limit := if p.GeminiFree? then limits.gemini else limits.deepseek;
      if limit == 0 || !readable { return false; }
      var used := CountCalls(p, now - DAY);
      exhausted := used >= limit;
      if forall i :: 0 <= i < |ledger| ==> ledger[i].at <= now { QueryIsTheLastDay(ledger, p, now); }
    }

    function Cooling(w: World, now: Time): set<Provider>
      reads this
    {
      set p | p in NAMED + Hosts(w) && InCooldown(p, now)
    }

    function Hosts(w: World): set<Provider> { set p | p in w.ajean }

    /** What the cascade can see at time `now`. */
    ghost function SceneAt(
        w: World, healthy: Option<set<Provider>>, taken: set<Provider>, limits: Limits, now: Time): Scene
      reads this
    {
      Scene(healthy, taken, Cooling(w, now), Cooling(w, now),
        CountAfter(ledger, GeminiFree, now - DAY) < limits.gemini,
        CountAfter(ledger, DeepseekFree, now - DAY) < limits.deepseek)
    }

    predicate UsableNow(p: Provider, healthy: Option<set<Provider>>, taken: set<Provider>) {
      p !in taken && (healthy.None? || p in healthy.value)
    }

    /** `get_available_provider`: the AJEAN hosts in order, then the rotation over the free clouds
        that are left, then the paid tail. */
    method GetAvailableProvider(
        w: World, healthy: Option<set<Provider>>, taken: set<Provider>, limits: Limits, now: Time)
      returns (chosen: Option<Provider>)
      modifies this
      ensures ledger == old(ledger) && failedAt == old(failedAt)
      ensures var c := RunCascade(w, old(SceneAt(w, healthy, taken, limits, now)), old(rotation));
        chosen == c.provider && rotation == c.rotation
    {
      ghost var s := SceneAt(w, healthy, taken, limits, now);
      var i := 0;
      while i < |w.ajean|
        invariant i <= |w.ajean|
        invariant FirstAjean(w.ajean, w, s) == FirstAjean(w.ajean[i..], w, s)
      {
        var p := w.ajean[i];
        assert w.ajean[i..][1..] == w.ajean[i+1..];
        if UsableNow(p, healthy, taken) && !InCooldown(p, now) && (healthy.Some? || p in w.httpOk) {
          return Some(p);
        }
        i := i + 1;
      }
      var geminiCalls := CountCalls(GeminiFree, now - DAY);
      var deepseekCalls := CountCalls(DeepseekFree, now - DAY);
      var pool := CloudCandidates(w, healthy, taken, limits, now, geminiCalls);
      if pool != [] {
        chosen := Some(pool[rotation % |pool|]);
        rotation := rotation + 1;
        return;
      }
      if w.totalCapReached { return None; }
      if UsableNow(DeepseekFree, healthy, taken) && deepseekCalls < limits.deepseek && w.deepseekFunded {
        return Some(DeepseekFree);
      }
      if UsableNow(ClaudeHaiku, healthy, taken) && w.haikuBudgetLeft { return Some(ClaudeHaiku); }
      return None;
    }

    /** One candidate: appended unless it is cooling down. */
    method Offer(all: seq<Provider>, open: bool, p: Provider, now: Time, ghost s: Scene) returns (all': seq<Provider>)
      requires p in s.cooling <==> InCooldown(p, now)
      ensures Keep(all', s.healthy, s.taken) == Keep(all, s.healthy, s.taken) + When(open, p, s)
    {
      all' := all;
      if open && !InCooldown(p, now) { all' := all + [p]; }
      KeepAppend(all, p, s.healthy, s.taken);
    }

    /** `cloud_candidates`: appended one by one, then filtered. */
    method CloudCandidates(
        w: World, healthy: Option<set<Provider>>, taken: set<Provider>, limits: Limits, now: Time, geminiCalls: nat)
      returns (pool: seq<Provider>)
      requires geminiCalls == CountAfter(ledger, GeminiFree, now - DAY)
      ensures pool == CloudPool(w, SceneAt(w, healthy, taken, limits, now))
    {
      ghost var s := SceneAt(w, healthy, taken, limits, now);
      var all: seq<Provider> := [];
      all := Offer(all, !w.cliDisabled && w.geminiCli, GeminiCli, now, s);
      assert Keep(all, s.healthy, s.taken) == When(!w.cliDisabled && w.geminiCli, GeminiCli, s);
      all := Offer(all, !w.cliDisabled && w.claudeCli, ClaudeCli, now, s);
      all := Offer(all, w.cohereKey, CohereFree, now, s);
      all := Offer(all, w.mistralKey, MistralFree, now, s);
      var geminiLeft := w.geminiTokensLeft && geminiCalls < limits.gemini;
      all := Offer(all, geminiLeft, GeminiFree, now, s);
      pool := KeepUsable(all, healthy, taken);
    }

    method KeepUsable(all: seq<Provider>, healthy: Option<set<Provider>>, taken: set<Provider>)
      returns (pool: seq<Provider>)
      ensures pool == Keep(all, healthy, taken)
    {
      pool := [];
      var i := 0;
      while i < |all|
        invariant i <= |all| && pool == Keep(all[..i], healthy, taken)
      {
        assert all[..i+1][..i] == all[..i];
        if UsableNow(all[i], healthy, taken) { pool := pool + [all[i]]; }
        i := i + 1;
      }
      assert all[..i] == all;
    }

    function Keep(all: seq<Provider>, healthy: Option<set<Provider>>, taken: set<Provider>): seq<Provider> {
      if all == [] then []
      else
        var last := all[|all|-1];
        Keep(all[..|all|-1], healthy, taken) + if UsableNow(last, healthy, taken) then [last] else []
    }

    lemma KeepAppend(all: seq<Provider>, p: Provider, healthy: Option<set<Provider>>, taken: set<Provider>)
      ensures Keep(all + [p], healthy, taken) ==
        Keep(all, healthy, taken) + if UsableNow(p, healthy, taken) then [p] else []
    {
      assert (all + [p])[..|all|] == all;
    }
  }
}

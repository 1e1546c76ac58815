/** Which provider plays a task: `_choisir_provider_tache` (agents/dreamer_agent.py) and the
    cascade it falls back on, `get_available_provider` (core/budget_guard.py).

    Answers of the outside world (keys, binaries, HTTP probes, balances, spending caps, the ranking
    by past success) are inputs. */
module ProviderElection {
  import opened Wrappers
  import opened Backlog
  import opened Providers
  import opened UsageLedger
  import opened Arithmetic

  // ---------------------------------------------------------------- the cascade

  datatype World = World(
    ajean: seq<Provider>,          // providers_workflow_actifs(), in order of preference
    httpOk: set<Provider>,         // ajean_http_ok
    cliDisabled: bool, geminiCli: bool, claudeCli: bool, cohereKey: bool, mistralKey: bool,
    geminiTokensLeft: bool,        // tokens of the last hour under the cap
    totalCapReached: bool, deepseekFunded: bool, haikuBudgetLeft: bool)

  predicate WorldOk(w: World) { forall p :: p in w.ajean ==> IsAjean(p) }

  /** What the election knows: who answers (None when the probe is off), who is in flight, who was
      cooling down when it began and who is at its end, and which counted tiers have calls left. */
  datatype Scene = Scene(
    healthy: Option<set<Provider>>, taken: set<Provider>, resting: set<Provider>, cooling: set<Provider>,
    geminiLeft: bool, deepseekLeft: bool)

  predicate Usable(p: Provider, s: Scene) { p !in s.taken && (s.healthy.None? || p in s.healthy.value) }

  function FirstAjean(ajean: seq<Provider>, w: World, s: Scene): Option<Provider> {
    if ajean == [] then None
    else if Usable(ajean[0], s) && ajean[0] !in s.cooling && (s.healthy.Some? || ajean[0] in w.httpOk)
    then Some(ajean[0])
    else FirstAjean(ajean[1..], w, s)
  }

  function When(c: bool, p: Provider, s: Scene): seq<Provider> {
    if c && p !in s.cooling && Usable(p, s) then [p] else []
  }

  /** `cloud_candidates`, filtered. */
  function CloudPool(w: World, s: Scene): seq<Provider> {
    When(!w.cliDisabled && w.geminiCli, GeminiCli, s)
    + When(!w.cliDisabled && w.claudeCli, ClaudeCli, s)
    + When(w.cohereKey, CohereFree, s)
    + When(w.mistralKey, MistralFree, s)
    + When(w.geminiTokensLeft && s.geminiLeft, GeminiFree, s)
  }

  datatype Cascade = Cascade(provider: Option<Provider>, rotation: nat)

  function RunCascade(w: World, s: Scene, rotation: nat): Cascade {
    var local := FirstAjean(w.ajean, w, s);
    var pool := CloudPool(w, s);
    if local.Some? then Cascade(local, rotation)
    else if pool != [] then Cascade(Some(pool[Place(|pool|, rotation, 0)]), rotation + 1)
    else if w.totalCapReached then Cascade(None, rotation)
    else if Usable(DeepseekFree, s) && s.deepseekLeft && w.deepseekFunded then Cascade(Some(DeepseekFree), rotation)
    else if Usable(ClaudeHaiku, s) && w.haikuBudgetLeft then Cascade(Some(ClaudeHaiku), rotation)
    else Cascade(None, rotation)
  }

  lemma {:induction false} FirstAjeanIsFit(ajean: seq<Provider>, w: World, s: Scene)
    ensures var p := FirstAjean(ajean, w, s);
      p.Some? ==> p.value in ajean && Usable(p.value, s) && p.value !in s.cooling
  {
    if ajean != [] { FirstAjeanIsFit(ajean[1..], w, s); }
  }

  /** What the cascade elects is free, answers the probe, and has calls left if it is counted; only
      its paid tail may be cooling down. */
  lemma CascadeIsFit(w: World, s: Scene, rotation: nat)
    requires WorldOk(w)
    ensures var p := RunCascade(w, s, rotation).provider;
      p.Some? ==>
        && Usable(p.value, s)
        && !NeverElected(p.value)
        && (p.value == GeminiFree ==> s.geminiLeft)
        && (p.value == DeepseekFree ==> s.deepseekLeft)
        && (p.value in s.cooling ==> p.value in {DeepseekFree, ClaudeHaiku})
  {
    FirstAjeanIsFit(w.ajean, w, s);
    var pool := CloudPool(w, s);
    if pool != [] {
      PoolIsFit(w, s, pool[Place(|pool|, rotation, 0)]);
    }
  }

  lemma PoolIsFit(w: World, s: Scene, p: Provider)
    requires p in CloudPool(w, s)
    ensures p in {GeminiCli, ClaudeCli, CohereFree, MistralFree, GeminiFree}
    ensures Usable(p, s) && p !in s.cooling && (p == GeminiFree ==> s.geminiLeft) && CloudOpen(p, w, s)
  {
    assert p in When(!w.cliDisabled && w.geminiCli, GeminiCli, s)
      || p in When(!w.cliDisabled && w.claudeCli, ClaudeCli, s)
      || p in When(w.cohereKey, CohereFree, s)
      || p in When(w.mistralKey, MistralFree, s)
      || p in When(w.geminiTokensLeft && s.geminiLeft, GeminiFree, s);
  }

  // ---------------------------------------------------------------- when a cooling provider is elected

  /** No AJEAN host is free, rested and answering. */
  predicate NoHost(w: World, s: Scene) {
    forall p :: p in w.ajean ==> !(Usable(p, s) && p !in s.cooling && (s.healthy.Some? || p in w.httpOk))
  }

  /** What each cloud needs besides being free and rested. */
  predicate CloudOpen(p: Provider, w: World, s: Scene) {
    || (p.GeminiCli? && !w.cliDisabled && w.geminiCli)
    || (p.ClaudeCli? && !w.cliDisabled && w.claudeCli)
    || (p.CohereFree? && w.cohereKey)
    || (p.MistralFree? && w.mistralKey)
    || (p.GeminiFree? && w.geminiTokensLeft && s.geminiLeft)
  }

  const CLOUDS: set<Provider> := {GeminiCli, ClaudeCli, CohereFree, MistralFree, GeminiFree}

  predicate NoCloud(w: World, s: Scene) {
    forall p :: p in CLOUDS ==> !(CloudOpen(p, w, s) && Usable(p, s) && p !in s.cooling)
  }

  lemma {:induction false} NoHostIff(ajean: seq<Provider>, w: World, s: Scene)
    ensures FirstAjean(ajean, w, s).None? <==> NoHost(w.(ajean := ajean), s)
  {
    if ajean != [] {
      NoHostIff(ajean[1..], w, s);
      assert ajean == [ajean[0]] + ajean[1..];
    }
  }

  lemma NoCloudIff(w: World, s: Scene)
    ensures CloudPool(w, s) == [] <==> NoCloud(w, s)
  {
    var pool := CloudPool(w, s);
    if pool != [] { PoolIsFit(w, s, pool[0]); }
  }

  /** The paid tail is reached, and the one it comes to is cooling down. */
  predicate TailIsCooling(w: World, s: Scene) {
    var deepseek := Usable(DeepseekFree, s) && s.deepseekLeft && w.deepseekFunded;
    && NoHost(w, s) && NoCloud(w, s) && !w.totalCapReached
    && if deepseek then DeepseekFree in s.cooling
       else Usable(ClaudeHaiku, s) && w.haikuBudgetLeft && ClaudeHaiku in s.cooling
  }

  /** The cascade elects a provider in cooldown, be it one that has just failed, exactly when it comes
      down to a tail that is cooling. */
  lemma CascadeElectsCoolingIff(w: World, s: Scene, rotation: nat)
    ensures var p := RunCascade(w, s, rotation).provider;
      p.Some? && p.value in s.cooling <==> TailIsCooling(w, s)
  {
    FirstAjeanIsFit(w.ajean, w, s);
    NoHostIff(w.ajean, w, s);
    NoCloudIff(w, s);
    var pool := CloudPool(w, s);
    if pool != [] { PoolIsFit(w, s, pool[Place(|pool|, rotation, 0)]); }
  }

  /** The host elected is the first of the list that is free, rested and answering. */
  lemma {:induction false} FirstAjeanIsFirst(ajean: seq<Provider>, w: World, s: Scene) returns (i: nat)
    requires FirstAjean(ajean, w, s).Some?
    ensures i < |ajean| && FirstAjean(ajean, w, s) == Some(ajean[i])
    ensures forall j :: 0 <= j < i ==>
      !(Usable(ajean[j], s) && ajean[j] !in s.cooling && (s.healthy.Some? || ajean[j] in w.httpOk))
  {
    i := 0;
    if !(Usable(ajean[0], s) && ajean[0] !in s.cooling && (s.healthy.Some? || ajean[0] in w.httpOk)) {
      var k := FirstAjeanIsFirst(ajean[1..], w, s);
      i := k + 1;
    }
  }

  /** The place of a cloud in `cloud_candidates`. */
  function CloudRank(p: Provider): nat {
    match p
    case GeminiCli => 0
    case ClaudeCli => 1
    case CohereFree => 2
    case MistralFree => 3
    case _ => 4
  }

  lemma PoolIsInOrder(w: World, s: Scene)
    ensures var pool := CloudPool(w, s);
      forall i, j :: 0 <= i < j < |pool| ==> CloudRank(pool[i]) < CloudRank(pool[j])
  {
  }

  /** Hosts come first, then the clouds in turn, then the paid tail, DeepSeek before Haiku; the index
      moves only when a cloud is elected. */
  lemma CascadeOrder(w: World, s: Scene, rotation: nat)
    ensures var c, pool := RunCascade(w, s, rotation), CloudPool(w, s);
      && (!NoHost(w, s) ==> c.provider.Some? && c.provider.value in w.ajean && c.provider == FirstAjean(w.ajean, w, s))
      && (NoHost(w, s) && !NoCloud(w, s) ==>
            pool != [] && c == Cascade(Some(pool[rotation % |pool|]), rotation + 1))
      && (!NoHost(w, s) || NoCloud(w, s) ==> c.rotation == rotation)
      && (NoHost(w, s) && NoCloud(w, s) && w.totalCapReached ==> c.provider == None)
      && (NoHost(w, s) && NoCloud(w, s) && !w.totalCapReached ==>
            var deepseek := Usable(DeepseekFree, s) && s.deepseekLeft && w.deepseekFunded;
            && (c.provider == Some(DeepseekFree) <==> deepseek)
            && (c.provider == Some(ClaudeHaiku) <==> !deepseek && Usable(ClaudeHaiku, s) && w.haikuBudgetLeft)
            && (c.provider.Some? ==> c.provider.value in {DeepseekFree, ClaudeHaiku}))
  {
    FirstAjeanIsFit(w.ajean, w, s);
    NoHostIff(w.ajean, w, s);
    NoCloudIff(w, s);
  }

  // ---------------------------------------------------------------- the rotation is fair

  /** The place in the pool that the election number `start + t` takes. */
  function Place(k: nat, start: nat, t: nat): nat
    requires k > 0
  {
    (start + t) % k
  }

  lemma PlaceIs(k: nat, start: nat, t: nat)
    requires t < k
    ensures var r := start % k; Place(k, start, t) == if r + t < k then r + t else r + t - k
  {
    var q, r := start / k, start % k;
    assert start == q * k + r;
    if r + t < k {
      ModOfShift(q, k, r + t);
    } else {
      assert (q + 1) * k == q * k + k;
      ModOfShift(q + 1, k, r + t - k);
    }
  }

  lemma EachPlaceOnce(k: nat, start: nat, c: nat) returns (turn: nat)
    requires c < k
    ensures turn < k && Place(k, start, turn) == c
    ensures forall t: nat :: t < k && Place(k, start, t) == c ==> t == turn
  {
    var r := start % k;
    turn := if c >= r then c - r else c - r + k;
    PlaceIs(k, start, turn);
    forall t: nat | t < k && Place(k, start, t) == c ensures t == turn { PlaceIs(k, start, t); }
  }

  /** The t-th of the elections that follow one another on the same scene, from 0 on. */
  function ElectionNumber(w: World, s: Scene, rotation: nat, t: nat): Cascade {
    if t == 0 then RunCascade(w, s, rotation) else RunCascade(w, s, ElectionNumber(w, s, rotation, t - 1).rotation)
  }

  lemma {:induction false} RotationGoesOn(w: World, s: Scene, rotation: nat, t: nat)
    requires FirstAjean(w.ajean, w, s).None? && CloudPool(w, s) != []
    ensures var pool := CloudPool(w, s);
      ElectionNumber(w, s, rotation, t) == Cascade(Some(pool[Place(|pool|, rotation, t)]), rotation + t + 1)
  {
    if t > 0 { RotationGoesOn(w, s, rotation, t - 1); }
  }

  predicate AllDifferent(pool: seq<Provider>) { forall i, j :: 0 <= i < j < |pool| ==> pool[i] != pool[j] }

  lemma OneMoreIsDifferent(pool: seq<Provider>, c: bool, p: Provider, s: Scene)
    requires AllDifferent(pool) && p !in pool
    ensures AllDifferent(pool + When(c, p, s))
    ensures forall q :: q in pool + When(c, p, s) ==> q in pool || q == p
  {
  }

  lemma PoolIsDistinct(w: World, s: Scene)
    ensures AllDifferent(CloudPool(w, s))
  {
    var a := When(!w.cliDisabled && w.geminiCli, GeminiCli, s);
    var b := a + When(!w.cliDisabled && w.claudeCli, ClaudeCli, s);
    var c := b + When(w.cohereKey, CohereFree, s);
    var d := c + When(w.mistralKey, MistralFree, s);
    OneMoreIsDifferent(a, !w.cliDisabled && w.claudeCli, ClaudeCli, s);
    OneMoreIsDifferent(b, w.cohereKey, CohereFree, s);
    OneMoreIsDifferent(c, w.mistralKey, MistralFree, s);
    OneMoreIsDifferent(d, w.geminiTokensLeft && s.geminiLeft, GeminiFree, s);
  }

  lemma OpenIsInPool(w: World, s: Scene, p: Provider)
    requires p in CLOUDS && CloudOpen(p, w, s) && Usable(p, s) && p !in s.cooling
    ensures p in CloudPool(w, s)
  {
  }

  lemma EachMemberOnce(pool: seq<Provider>, start: nat, p: Provider) returns (turn: nat)
    requires AllDifferent(pool) && p in pool
    ensures turn < |pool| && pool[Place(|pool|, start, turn)] == p
    ensures forall t: nat :: t < |pool| && pool[Place(|pool|, start, t)] == p ==> t == turn
  {
    var place: nat :| place < |pool| && pool[place] == p;
    turn := EachPlaceOnce(|pool|, start, place);
  }

  /** Without a local host, over as many elections in a row as there are clouds left, each of them is
      elected once and only once, wherever the rotation stood. */
  lemma RotationIsFair(w: World, s: Scene, rotation: nat, p: Provider) returns (turn: nat)
    requires NoHost(w, s) && p in CLOUDS && CloudOpen(p, w, s) && Usable(p, s) && p !in s.cooling
    ensures turn < |CloudPool(w, s)| && ElectionNumber(w, s, rotation, turn).provider == Some(p)
    ensures forall t: nat ::
      t < |CloudPool(w, s)| && ElectionNumber(w, s, rotation, t).provider == Some(p) ==> t == turn
  {
    NoHostIff(w.ajean, w, s);
    OpenIsInPool(w, s, p);
    PoolIsDistinct(w, s);
    turn := EachMemberOnce(CloudPool(w, s), rotation, p);
    forall t: nat | t < |CloudPool(w, s)|
      ensures ElectionNumber(w, s, rotation, t).provider == Some(CloudPool(w, s)[Place(|CloudPool(w, s)|, rotation, t)])
    {
      RotationGoesOn(w, s, rotation, t);
    }
  }

  // ---------------------------------------------------------------- the election

  /** Readings of the quota test made for the candidates: true means exhausted. */
  type Readings = map<Provider, bool>

  datatype Ranking = Ranking(ordered: seq<Provider>, excluded: set<Provider>)

  /** `classer_providers_pour_tache` orders the candidates that it does not exclude. */
  ghost predicate RankingOk(r: Ranking, candidates: set<Provider>) {
    && r.excluded <= candidates
    && forall p :: p in r.ordered <==> p in candidates && p !in r.excluded
  }

  /** Who may be elected by history before the quota test: `base` minus the local models, the AJEAN
      hosts that are switched off, the busy, and those that were cooling down when the election began. */
  function Pool(base: set<Provider>, w: World, s: Scene): set<Provider> {
    set p | p in base && !NeverElected(p) && (IsAjean(p) ==> p in w.ajean) && p !in s.taken && p !in s.resting
  }

  datatype Outcome =
    | Elected(provider: Provider)
    | NoneByHistory          // every candidate is excluded by its record on the domain
    | NoneFree               // nobody is free

  datatype Election = Election(outcome: Outcome, rotation: nat)

  function Exhausted(readings: Readings): set<Provider> { set p | p in readings && readings[p] }

  /** The candidates that survived the quota test. */
  function Candidates(base: set<Provider>, w: World, s: Scene, readings: Readings): set<Provider> {
    Pool(base, w, s) - Exhausted(readings)
  }

  function FirstIn(order: seq<Provider>, among: set<Provider>): Option<Provider> {
    if order == [] then None else if order[0] in among then Some(order[0]) else FirstIn(order[1..], among)
  }

  /** The AJEAN host that answers on the network although the probe missed it. */
  function LanAjean(ajean: seq<Provider>, w: World, s: Scene): Option<Provider> {
    if ajean == [] then None
    else if ajean[0] !in s.taken && ajean[0] !in s.cooling && ajean[0] in w.httpOk then Some(ajean[0])
    else LanAjean(ajean[1..], w, s)
  }

  /** The election goes as far as the cascade. */
  predicate ReachesCascade(base: set<Provider>, w: World, s: Scene, readings: Readings, r: Ranking) {
    var candidates := Candidates(base, w, s, readings);
    && (s.healthy.Some? ==> FirstIn([AjeanPc, AjeanDeck], candidates).None? && LanAjean(w.ajean, w, s).None?)
    && r.ordered == []
    && !(candidates != {} && |Exhausted(readings) + r.excluded| == |candidates|)
  }

  /** The counts of the cascade, `geminiLeft` and `deepseekLeft`, come with s. */
  function Elect(base: set<Provider>, w: World, s: Scene, readings: Readings, r: Ranking, rotation: nat): Election {
    var candidates := Candidates(base, w, s, readings);
    var exhausted := Exhausted(readings);
    var healthyAjean := FirstIn([AjeanPc, AjeanDeck], candidates);
    var lanAjean := LanAjean(w.ajean, w, s);
    if s.healthy.Some? && healthyAjean.Some? then Election(Elected(healthyAjean.value), rotation)
    else if s.healthy.Some? && lanAjean.Some? then Election(Elected(lanAjean.value), rotation)
    else if r.ordered != [] then Election(Elected(r.ordered[0]), rotation)
    else if candidates != {} && |exhausted + r.excluded| == |candidates| then Election(NoneByHistory, rotation)
    else
      var c := RunCascade(w, s.(taken := s.taken + exhausted + r.excluded), rotation);
      Election(if c.provider.Some? then Elected(c.provider.value) else NoneFree, c.rotation)
  }

  lemma {:induction false} FirstInIsIn(order: seq<Provider>, among: set<Provider>)
    ensures FirstIn(order, among).Some? ==> FirstIn(order, among).value in among
  {
    if order != [] { FirstInIsIn(order[1..], among); }
  }

  lemma {:induction false} LanAjeanIsFit(ajean: seq<Provider>, w: World, s: Scene)
    ensures var p := LanAjean(ajean, w, s);
      p.Some? ==> p.value in ajean && p.value !in s.taken && p.value !in s.cooling
  {
    if ajean != [] { LanAjeanIsFit(ajean[1..], w, s); }
  }

  /** Through both paths: the elected provider is not in flight; it is not known to be exhausted;
      if it is counted, either its own quota was read and found open or the cascade counted it
      open; and unless it is of the paid tail it is not cooling down, or at least was not when the
      election began. */
  lemma ElectionIsFit(base: set<Provider>, w: World, s: Scene, readings: Readings, r: Ranking, rotation: nat)
    requires WorldOk(w) && RankingOk(r, Candidates(base, w, s, readings))
    requires forall p :: p in Pool(base, w, s) && Counted(p) ==> p in readings
    requires forall p :: p in readings && readings[p] ==> Counted(p)
    ensures var o := Elect(base, w, s, readings, r, rotation).outcome;
      o.Elected? ==>
        && o.provider !in s.taken
        && !NeverElected(o.provider)
        && (Counted(o.provider) ==>
              || (o.provider in readings && !readings[o.provider])
              || (o.provider == GeminiFree && s.geminiLeft)
              || (o.provider == DeepseekFree && s.deepseekLeft))
        && (o.provider in s.cooling && o.provider !in {DeepseekFree, ClaudeHaiku} ==>
              o.provider in Candidates(base, w, s, readings) && o.provider !in s.resting)
  {
    var candidates := Candidates(base, w, s, readings);
    FirstInIsIn([AjeanPc, AjeanDeck], candidates);
    LanAjeanIsFit(w.ajean, w, s);
    var o := Elect(base, w, s, readings, r, rotation).outcome;
    if r.ordered != [] { assert r.ordered[0] in r.ordered; }
    if o.Elected? && o.provider in candidates {
      CandidateIsFit(base, w, s, readings, o.provider);
    } else {
      CascadeIsFit(w, s.(taken := s.taken + Exhausted(readings) + r.excluded), rotation);
    }
  }

  lemma CandidateIsFit(base: set<Provider>, w: World, s: Scene, readings: Readings, p: Provider)
    requires p in Candidates(base, w, s, readings)
    ensures p !in s.taken && p !in s.resting && !NeverElected(p) && p in Pool(base, w, s)
    ensures p in readings ==> !readings[p]
  {
  }

  /** Who is a candidate, in the terms of the source. */
  lemma CandidateIff(base: set<Provider>, w: World, s: Scene, readings: Readings, p: Provider)
    ensures p in Candidates(base, w, s, readings) <==>
      && p in base && p !in s.taken && p !in s.resting && !(p in readings && readings[p])
      && (p.AjeanPc? || p.AjeanDeck? ==> p in w.ajean)
      && p !in {Ollama, LmStudio, Other("ollama_local"), Other("ollama_pc"), Other("local"), Other("deck_ollama")}
  {
  }

  lemma {:induction false} LanAjeanIsFirst(ajean: seq<Provider>, w: World, s: Scene) returns (i: nat)
    requires LanAjean(ajean, w, s).Some?
    ensures i < |ajean| && LanAjean(ajean, w, s) == Some(ajean[i])
    ensures ajean[i] !in s.taken && ajean[i] !in s.cooling && ajean[i] in w.httpOk
    ensures forall j :: 0 <= j < i ==> ajean[j] in s.taken || ajean[j] in s.cooling || ajean[j] !in w.httpOk
  {
    i := 0;
    if ajean[0] in s.taken || ajean[0] in s.cooling || ajean[0] !in w.httpOk {
      var k := LanAjeanIsFirst(ajean[1..], w, s);
      i := k + 1;
    }
  }

  lemma {:induction false} NoLanAjean(ajean: seq<Provider>, w: World, s: Scene)
    ensures LanAjean(ajean, w, s).None? <==>
      forall p :: p in ajean ==> p in s.taken || p in s.cooling || p !in w.httpOk
  {
    if ajean != [] {
      NoLanAjean(ajean[1..], w, s);
      assert ajean == [ajean[0]] + ajean[1..];
    }
  }

  /** Under the probe the PC's host comes first and the Deck's second, then a host that answers on the
      network, then the head of the ranking; without the probe the ranking comes at once. */
  lemma ElectionOrder(base: set<Provider>, w: World, s: Scene, readings: Readings, r: Ranking, rotation: nat)
    ensures var x, candidates := Elect(base, w, s, readings, r, rotation), Candidates(base, w, s, readings);
      var pc, deck := AjeanPc in candidates, AjeanDeck in candidates;
      var lan := LanAjean(w.ajean, w, s);
      && (s.healthy.Some? && pc ==> x.outcome == Elected(AjeanPc))
      && (s.healthy.Some? && !pc && deck ==> x.outcome == Elected(AjeanDeck))
      && (s.healthy.Some? && !pc && !deck && lan.Some? ==> x.outcome == Elected(lan.value))
      && ((s.healthy.None? || (!pc && !deck && lan.None?)) && r.ordered != [] ==> x.outcome == Elected(r.ordered[0]))
      && (ReachesCascade(base, w, s, readings, r) <==>
            && (s.healthy.None? || (!pc && !deck && lan.None?)) && r.ordered == []
            && (candidates == {} || |Exhausted(readings) + r.excluded| != |candidates|))
      && (!ReachesCascade(base, w, s, readings, r) ==> x.rotation == rotation)
  {
    var candidates := Candidates(base, w, s, readings);
    assert [AjeanPc, AjeanDeck][1..] == [AjeanDeck] && [AjeanDeck][1..] == [];
    assert FirstIn([AjeanDeck], candidates) == if AjeanDeck in candidates then Some(AjeanDeck) else None;
  }

  /** The cascade never gives back a provider set apart for its quota or excluded by history. */
  lemma CascadeSparesTheExcluded(
      base: set<Provider>, w: World, s: Scene, readings: Readings, r: Ranking, rotation: nat)
    requires WorldOk(w) && ReachesCascade(base, w, s, readings, r)
    ensures var x := Elect(base, w, s, readings, r, rotation);
      var c := RunCascade(w, s.(taken := s.taken + Exhausted(readings) + r.excluded), rotation);
      && x.rotation == c.rotation && x.outcome == (if c.provider.Some? then Elected(c.provider.value) else NoneFree)
      && (x.outcome.Elected? ==>
            var p := x.outcome.provider;
            && p !in s.taken && p !in r.excluded && !(p in readings && readings[p])
            && (s.healthy.Some? ==> p in s.healthy.value))
  {
    CascadeIsFit(w, s.(taken := s.taken + Exhausted(readings) + r.excluded), rotation);
  }

  lemma SetSumSize<T>(a: set<T>, b: set<T>)
    requires a !! b
    ensures |a + b| == |a| + |b|
  {
  }

  /** The election blames history exactly when the probe is off or no AJEAN host can be taken, there
      are candidates, history excludes them all, and no other provider was set apart for its quota:
      one exhausted quota is enough to send the task to the cascade instead. */
  lemma HistoryIsBlamedIff(base: set<Provider>, w: World, s: Scene, readings: Readings, r: Ranking, rotation: nat)
    requires RankingOk(r, Candidates(base, w, s, readings))
    ensures var candidates := Candidates(base, w, s, readings);
      Elect(base, w, s, readings, r, rotation).outcome.NoneByHistory? <==>
        && (s.healthy.Some? ==> FirstIn([AjeanPc, AjeanDeck], candidates).None? && LanAjean(w.ajean, w, s).None?)
        && candidates != {} && r.excluded == candidates && Exhausted(readings) == {}
  {
    var candidates, exhausted := Candidates(base, w, s, readings), Exhausted(readings);
    if r.ordered == [] {
      assert r.excluded == candidates by {
        forall p | p in candidates ensures p in r.excluded { assert p !in r.ordered; }
      }
      SetSumSize(exhausted, candidates);
    } else {
      assert r.ordered[0] in r.ordered;
    }
  }

  lemma HeadIsMember(order: seq<Provider>)
    ensures order == [] || order[0] in order
  {
  }

  /** The candidate that is elected before the cascade, if there is one. */
  function Favourite(base: set<Provider>, w: World, s: Scene, readings: Readings, r: Ranking): Option<Provider> {
    var host := FirstIn([AjeanPc, AjeanDeck], Candidates(base, w, s, readings));
    if s.healthy.Some? && host.Some? then host
    else if (s.healthy.Some? && LanAjean(w.ajean, w, s).Some?) || r.ordered == [] then None
    else Some(r.ordered[0])
  }

  /** Through both paths: a provider in cooldown is elected exactly when the election goes as far as
      the cascade and the cascade comes down to a tail that is cooling, or when the candidate that wins
      has been marked since the election began. */
  lemma CoolingIsElectedIff(base: set<Provider>, w: World, s: Scene, readings: Readings, r: Ranking, rotation: nat)
    requires RankingOk(r, Candidates(base, w, s, readings))
    ensures var o := Elect(base, w, s, readings, r, rotation).outcome;
      o.Elected? && o.provider in s.cooling <==>
        || (ReachesCascade(base, w, s, readings, r)
            && TailIsCooling(w, s.(taken := s.taken + Exhausted(readings) + r.excluded)))
        || (exists p :: p in s.cooling - s.resting - s.taken && Favourite(base, w, s, readings, r) == Some(p))
  {
    var candidates, favourite := Candidates(base, w, s, readings), Favourite(base, w, s, readings, r);
    FirstInIsIn([AjeanPc, AjeanDeck], candidates);
    LanAjeanIsFit(w.ajean, w, s);
    HeadIsMember(r.ordered);
    if favourite.Some? {
      CandidateIsFit(base, w, s, readings, favourite.value);
      assert Elect(base, w, s, readings, r, rotation).outcome == Elected(favourite.value);
      assert favourite.value in s.cooling ==> favourite.value in s.cooling - s.resting - s.taken;
    }
    CascadeElectsCoolingIff(w, s.(taken := s.taken + Exhausted(readings) + r.excluded), rotation);
  }

  /** History excludes every candidate, but one exhausted quota is enough for the election not to see
      it: the task goes on to the cascade, and when nothing free is left there the paid tail plays it. */
  lemma OneQuotaHidesTheBlame(base: set<Provider>, w: World, s: Scene, readings: Readings, r: Ranking, rotation: nat)
    requires RankingOk(r, Candidates(base, w, s, readings)) && s.healthy.None?
    requires r.excluded == Candidates(base, w, s, readings) && Exhausted(readings) != {}
    requires var s' := s.(taken := s.taken + Exhausted(readings) + r.excluded);
      && NoHost(w, s') && NoCloud(w, s') && !w.totalCapReached && !w.deepseekFunded
      && Usable(ClaudeHaiku, s') && w.haikuBudgetLeft
    ensures Elect(base, w, s, readings, r, rotation).outcome == Elected(ClaudeHaiku)
  {
    var s' := s.(taken := s.taken + Exhausted(readings) + r.excluded);
    HistoryIsBlamedIff(base, w, s, readings, r, rotation);
    NoHostIff(w.ajean, w, s');
    NoCloudIff(w, s');
    HeadIsMember(r.ordered);
  }

  /** Such an input: Cohere excluded by its record, the quota of Gemini used up. */
  lemma QuotaSendsToThePaidTail(w: World, rotation: nat)
    requires w.ajean == [] && !w.mistralKey && w.cliDisabled
    requires !w.totalCapReached && !w.deepseekFunded && w.haikuBudgetLeft
    ensures var base, s := {CohereFree, GeminiFree}, Scene(None, {}, {}, {}, true, true);
      var readings, r := map[GeminiFree := true], Ranking([], {CohereFree});
      && RankingOk(r, Candidates(base, w, s, readings)) && r.excluded == Candidates(base, w, s, readings)
      && Elect(base, w, s, readings, r, rotation).outcome == Elected(ClaudeHaiku)
  {
    var base, s := {CohereFree, GeminiFree}, Scene(None, {}, {}, {}, true, true);
    var readings, r := map[GeminiFree := true], Ranking([], {CohereFree});
    assert Exhausted(readings) == {GeminiFree};
    assert Pool(base, w, s) == base;
    assert Candidates(base, w, s, readings) == {CohereFree};
    OneQuotaHidesTheBlame(base, w, s, readings, r, rotation);
  }
}

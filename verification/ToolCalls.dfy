/** One turn of the ReAct loop: the tool calls of one answer of the model (agents/executor.py,
    `_execute_react_loop`).

    JSON is a partial function: `canonical(text)` is the canonical text of the value that `text`
    denotes, or None when it cannot be decoded.  What the tools answer is a function of how many
    calls ran before. */
module ToolCalls {
  import opened Wrappers

  const MAX_CALLS_PER_TURN: nat := 20
  const DEFAULT_ID := "call_123"

  datatype Call = Call(name: string, id: Option<string>, arguments: string)

  type Canonical = string -> Option<string>

  /** A canonical text can be decoded. */
  ghost predicate CanonicalOk(canonical: Canonical) {
    forall t :: canonical(t).Some? ==> canonical(canonical(t).value).Some?
  }

  datatype Outcome = Returned(text: string, error: bool) | Raises
  type Tools = nat -> Outcome

  datatype Fate = Runs | Duplicate | Unreadable | OverCap

  datatype Content = Plain(text: string) | Answer(text: string) | Failure(text: string) | NotRun(why: Fate, soFar: nat)

  datatype Message =
    | User(content: Content)
    | Assistant(content: Content, calls: seq<Call>)
    | Tool(id: string, name: string, content: Content)

  function IdOf(c: Call): string { if c.id.Some? then c.id.value else DEFAULT_ID }

  // ---------------------------------------------------------------- what the loop does with a call

  datatype Key = Key(name: string, text: string)

  function KeyOf(c: Call, canonical: Canonical): Key {
    var t := canonical(c.arguments);
    Key(c.name, if t.Some? then t.value else c.arguments)
  }

  function FateOf(c: Call, seen: set<Key>, canonical: Canonical): Fate {
    if KeyOf(c, canonical) in seen then Duplicate
    else if canonical(c.arguments).None? then Unreadable
    else if |seen| >= MAX_CALLS_PER_TURN then OverCap
    else Runs
  }

  /** The state of the turn: the log, what ran so far in the conversation, the results of this turn,
      the last tool error, and the counters. */
  datatype Turn = Turn(
    messages: seq<Message>, ran: seq<Call>, results: seq<string>, error: Option<string>,
    seen: set<Key>, setAside: nat, duplicates: nat, unreadable: nat, raised: bool)

  function AfterCall(t: Turn, c: Call, canonical: Canonical, tools: Tools): Turn {
    var fate := FateOf(c, t.seen, canonical);
    if t.raised then t
    else if !fate.Runs? then
      t.(setAside := t.setAside + 1,
         duplicates := t.duplicates + (if fate.Duplicate? then 1 else 0),
         unreadable := t.unreadable + (if fate.Unreadable? then 1 else 0),
         messages := t.messages + [Tool(IdOf(c), c.name, NotRun(fate, t.setAside + 1))])
    else
      var t' := t.(seen := t.seen + {KeyOf(c, canonical)}, ran := t.ran + [c]);
      match tools(|t.ran|)
      case Raises => t'.(raised := true)
      case Returned(text, true) =>
        t'.(error := Some(text), messages := t.messages + [Tool(IdOf(c), c.name, Failure(text))])
      case Returned(text, false) =>
        t'.(error := None, results := t.results + [text],
            messages := t.messages + [Tool(IdOf(c), c.name, Answer(text))])
  }

  function AfterCalls(t: Turn, calls: seq<Call>, canonical: Canonical, tools: Tools): Turn {
    if calls == [] then t
    else AfterCall(AfterCalls(t, calls[..|calls|-1], canonical, tools), calls[|calls|-1], canonical, tools)
  }

  function NewTurn(messages: seq<Message>, ran: seq<Call>, error: Option<string>): Turn {
    Turn(messages, ran, [], error, {}, 0, 0, 0, false)
  }

  /** Two calls count as the same exactly when they name the same tool and their arguments denote the
      same value, or are the same text when that text denotes none. */
  lemma SameCallIff(c: Call, d: Call, canonical: Canonical)
    requires CanonicalOk(canonical)
    ensures KeyOf(c, canonical) == KeyOf(d, canonical) <==>
      && c.name == d.name && canonical(c.arguments) == canonical(d.arguments)
      && (canonical(c.arguments).None? ==> c.arguments == d.arguments)
  {
  }

  // ---------------------------------------------------------------- the simple specification

  function ReadableOnly(calls: seq<Call>, canonical: Canonical): seq<Call> {
    if calls == [] then []
    else
      var c := calls[|calls|-1];
      ReadableOnly(calls[..|calls|-1], canonical) + if canonical(c.arguments).Some? then [c] else []
  }

  function Keys(calls: seq<Call>, canonical: Canonical): set<Key> { set c | c in calls :: KeyOf(c, canonical) }

  /** The first call of each key, in order. */
  function Distinct(calls: seq<Call>, canonical: Canonical): seq<Call> {
    if calls == [] then []
    else
      var before := Distinct(calls[..|calls|-1], canonical);
      var c := calls[|calls|-1];
      if KeyOf(c, canonical) in Keys(before, canonical) then before else before + [c]
  }

  function Capped(calls: seq<Call>): seq<Call> {
    if |calls| <= MAX_CALLS_PER_TURN then calls else calls[..MAX_CALLS_PER_TURN]
  }

  /** What a turn should run: the first twenty of the distinct readable calls. */
  function Chosen(calls: seq<Call>, canonical: Canonical): seq<Call> {
    Capped(Distinct(ReadableOnly(calls, canonical), canonical))
  }

  lemma KeysOfOneMore(calls: seq<Call>, c: Call, canonical: Canonical)
    ensures Keys(calls + [c], canonical) == Keys(calls, canonical) + {KeyOf(c, canonical)}
  {
  }

  lemma {:induction false} DistinctKeys(calls: seq<Call>, canonical: Canonical)
    ensures Keys(Distinct(calls, canonical), canonical) == Keys(calls, canonical)
    ensures |Keys(Distinct(calls, canonical), canonical)| == |Distinct(calls, canonical)|
  {
    if calls != [] {
      var init, c := calls[..|calls|-1], calls[|calls|-1];
      assert init + [c] == calls;
      DistinctKeys(init, canonical);
      KeysOfOneMore(init, c, canonical);
      KeysOfOneMore(Distinct(init, canonical), c, canonical);
    }
  }

  /** The keys of a prefix of distinct calls. */
  lemma CappedKeys(calls: seq<Call>, canonical: Canonical)
    requires |Keys(calls, canonical)| == |calls|
    ensures Keys(Capped(calls), canonical) <= Keys(calls, canonical)
    ensures |Keys(Capped(calls), canonical)| == |Capped(calls)|
  {
    if |calls| > MAX_CALLS_PER_TURN {
      var a, b := calls[..MAX_CALLS_PER_TURN], calls[MAX_CALLS_PER_TURN..];
      assert calls == a + b;
      assert Keys(calls, canonical) == Keys(a, canonical) + Keys(b, canonical);
      KeysAtMost(a, canonical);
      KeysAtMost(b, canonical);
      SumAtMost(Keys(a, canonical), Keys(b, canonical));
    }
  }

  lemma SumAtMost<T>(a: set<T>, b: set<T>)
    ensures |a + b| <= |a| + |b|
  {
    assert a + b == a + (b - a) && |a + (b - a)| == |a| + |b - a|;
    assert b == (b - a) + (b * a);
  }

  lemma {:induction false} KeysAtMost(calls: seq<Call>, canonical: Canonical)
    ensures |Keys(calls, canonical)| <= |calls|
  {
    if calls != [] {
      var n := |calls| - 1;
      KeysAtMost(calls[..n], canonical);
      assert calls == calls[..n] + [calls[n]];
      assert Keys(calls, canonical) == Keys(calls[..n], canonical) + {KeyOf(calls[n], canonical)};
    }
  }

  // ---------------------------------------------------------------- the turn refines it

  lemma {:induction false} ReadableKeysDecode(calls: seq<Call>, canonical: Canonical, c: Call)
    requires CanonicalOk(canonical) && c in ReadableOnly(calls, canonical)
    ensures canonical(KeyOf(c, canonical).text).Some?
  {
    var n := |calls| - 1;
    if c in ReadableOnly(calls[..n], canonical) {
      ReadableKeysDecode(calls[..n], canonical, c);
    } else {
      assert c == calls[n] && canonical(c.arguments).Some?;
    }
  }

  /** A call that cannot be read never looks like one that ran. */
  lemma UnreadableIsNew(calls: seq<Call>, canonical: Canonical, c: Call)
    requires CanonicalOk(canonical) && canonical(c.arguments).None?
    ensures KeyOf(c, canonical) !in Keys(ReadableOnly(calls, canonical), canonical)
  {
    if KeyOf(c, canonical) in Keys(ReadableOnly(calls, canonical), canonical) {
      var d :| d in ReadableOnly(calls, canonical) && KeyOf(d, canonical) == KeyOf(c, canonical);
      ReadableKeysDecode(calls, canonical, d);
      assert false;
    }
  }

  lemma ChosenKeys(calls: seq<Call>, canonical: Canonical)
    ensures var r := ReadableOnly(calls, canonical);
      && Keys(Chosen(calls, canonical), canonical) <= Keys(r, canonical)
      && |Keys(Chosen(calls, canonical), canonical)| == |Chosen(calls, canonical)|
  {
    var r := ReadableOnly(calls, canonical);
    DistinctKeys(r, canonical);
    CappedKeys(Distinct(r, canonical), canonical);
  }

  lemma ReadableOfOneMore(calls: seq<Call>, c: Call, canonical: Canonical)
    ensures ReadableOnly(calls + [c], canonical) ==
      var r := ReadableOnly(calls, canonical); if canonical(c.arguments).Some? then r + [c] else r
  {
    assert (calls + [c])[..|calls|] == calls;
  }

  lemma DistinctOfOneMore(r: seq<Call>, c: Call, canonical: Canonical)
    ensures Distinct(r + [c], canonical) ==
      if KeyOf(c, canonical) in Keys(r, canonical) then Distinct(r, canonical) else Distinct(r, canonical) + [c]
  {
    assert (r + [c])[..|r|] == r;
    DistinctKeys(r, canonical);
  }

  lemma CappedOfOneMore(d: seq<Call>, c: Call)
    ensures Capped(d + [c]) == if |d| < MAX_CALLS_PER_TURN then Capped(d) + [c] else Capped(d)
    ensures |Capped(d)| < MAX_CALLS_PER_TURN ==> Capped(d) == d
  {
    if |d| >= MAX_CALLS_PER_TURN { assert (d + [c])[..MAX_CALLS_PER_TURN] == d[..MAX_CALLS_PER_TURN]; }
  }

  /** How one more call changes what should run: exactly as the loop decides. */
  lemma ChosenOfOneMore(calls: seq<Call>, c: Call, canonical: Canonical)
    requires CanonicalOk(canonical)
    ensures var chosen := Chosen(calls, canonical);
      Chosen(calls + [c], canonical) ==
        if FateOf(c, Keys(chosen, canonical), canonical).Runs? then chosen + [c] else chosen
  {
    var r := ReadableOnly(calls, canonical);
    ReadableOfOneMore(calls, c, canonical);
    ChosenKeys(calls, canonical);
    if canonical(c.arguments).None? {
      UnreadableIsNew(calls, canonical, c);
    } else {
      DistinctOfOneMore(r, c, canonical);
      DistinctKeys(r, canonical);
      CappedOfOneMore(Distinct(r, canonical), c);
    }
  }

  /** What one call does to a turn that has run `chosen` so far. */
  lemma CallRunsWhenChosen(t: Turn, c: Call, canonical: Canonical, tools: Tools, ran: seq<Call>, chosen: seq<Call>)
    requires !t.raised && t.ran == ran + chosen && t.seen == Keys(chosen, canonical)
    ensures var t' := AfterCall(t, c, canonical, tools);
      var next := if FateOf(c, t.seen, canonical).Runs? then chosen + [c] else chosen;
      t'.ran == ran + next && (!t'.raised ==> t'.seen == Keys(next, canonical))
  {
    KeysOfOneMore(chosen, c, canonical);
    assert ran + (chosen + [c]) == ran + chosen + [c];
  }

  /** A turn that no tool breaks runs exactly the first twenty distinct readable calls, in order;
      one that is broken off ran the beginning of them. */
  lemma {:induction false} TurnRunsTheChosen(t: Turn, calls: seq<Call>, canonical: Canonical, tools: Tools)
    requires CanonicalOk(canonical) && t.seen == {} && !t.raised
    ensures var t', chosen := AfterCalls(t, calls, canonical, tools), Chosen(calls, canonical);
      && t'.ran <= t.ran + chosen
      && (!t'.raised ==> t'.ran == t.ran + chosen && t'.seen == Keys(chosen, canonical))
  {
    if calls != [] {
      var init, c := calls[..|calls|-1], calls[|calls|-1];
      assert init + [c] == calls;
      var u := AfterCalls(t, init, canonical, tools);
      TurnRunsTheChosen(t, init, canonical, tools);
      ChosenOfOneMore(init, c, canonical);
      if !u.raised { CallRunsWhenChosen(u, c, canonical, tools, t.ran, Chosen(init, canonical)); }
    }
  }

  /** However the turn ends, the keys seen are one for each call that ran, and at most twenty. */
  lemma {:induction false} SeenAreTheRuns(t: Turn, calls: seq<Call>, canonical: Canonical, tools: Tools)
    requires t.seen == {}
    ensures var t' := AfterCalls(t, calls, canonical, tools);
      |t'.ran| == |t.ran| + |t'.seen| && |t'.seen| <= 20
  {
    if calls != [] { SeenAreTheRuns(t, calls[..|calls|-1], canonical, tools); }
  }

  // ---------------------------------------------------------------- the accounting

  function CountOf(calls: seq<Call>, keys: set<Key>, canonical: Canonical): nat {
    if calls == [] then 0
    else
      CountOf(calls[..|calls|-1], keys, canonical) + if KeyOf(calls[|calls|-1], canonical) in keys then 1 else 0
  }

  lemma {:induction false} CountIgnoresAbsentKey(calls: seq<Call>, keys: set<Key>, k: Key, canonical: Canonical)
    requires k !in Keys(calls, canonical)
    ensures CountOf(calls, keys + {k}, canonical) == CountOf(calls, keys, canonical)
  {
    if calls != [] {
      var n := |calls| - 1;
      assert calls[n] in calls && KeyOf(calls[n], canonical) != k;
      assert k !in Keys(calls[..n], canonical);
      CountIgnoresAbsentKey(calls[..n], keys, k, canonical);
    }
  }

  /** The readable calls whose key is chosen: each chosen call and its repetitions. */
  function Covered(calls: seq<Call>, canonical: Canonical): nat {
    CountOf(ReadableOnly(calls, canonical), Keys(Chosen(calls, canonical), canonical), canonical)
  }

  lemma CountOfOneMore(calls: seq<Call>, c: Call, keys: set<Key>, canonical: Canonical)
    ensures CountOf(calls + [c], keys, canonical) ==
      CountOf(calls, keys, canonical) + if KeyOf(c, canonical) in keys then 1 else 0
  {
    assert (calls + [c])[..|calls|] == calls;
  }

  /** A key that is about to run has not been seen before, not even beyond the cap. */
  lemma NewKeyIsAbsent(calls: seq<Call>, c: Call, canonical: Canonical)
    requires FateOf(c, Keys(Chosen(calls, canonical), canonical), canonical).Runs?
    ensures KeyOf(c, canonical) !in Keys(ReadableOnly(calls, canonical), canonical)
  {
    var r := ReadableOnly(calls, canonical);
    ChosenKeys(calls, canonical);
    DistinctKeys(r, canonical);
    CappedOfOneMore(Distinct(r, canonical), c);
  }

  lemma CoveredOfOneMore(calls: seq<Call>, c: Call, canonical: Canonical)
    requires CanonicalOk(canonical)
    ensures var fate := FateOf(c, Keys(Chosen(calls, canonical), canonical), canonical);
      Covered(calls + [c], canonical) == Covered(calls, canonical) + if fate.Runs? || fate.Duplicate? then 1 else 0
  {
    var r, chosen := ReadableOnly(calls, canonical), Chosen(calls, canonical);
    var keys, k := Keys(chosen, canonical), KeyOf(c, canonical);
    ReadableOfOneMore(calls, c, canonical);
    ChosenOfOneMore(calls, c, canonical);
    if canonical(c.arguments).None? {
      ChosenKeys(calls, canonical);
      UnreadableIsNew(calls, canonical, c);
    } else if FateOf(c, keys, canonical).Runs? {
      KeysOfOneMore(chosen, c, canonical);
      NewKeyIsAbsent(calls, c, canonical);
      CountIgnoresAbsentKey(r, keys, k, canonical);
      CountOfOneMore(r, c, keys + {k}, canonical);
    } else {
      CountOfOneMore(r, c, keys, canonical);
    }
  }

  predicate Accounted(t: Turn, calls: seq<Call>, canonical: Canonical) {
    && t.setAside + |Chosen(calls, canonical)| == |calls|
    && t.unreadable + |ReadableOnly(calls, canonical)| == |calls|
    && t.duplicates + |Chosen(calls, canonical)| == Covered(calls, canonical)
  }

  /** What one call adds to the counters. */
  lemma CallIsCounted(t: Turn, c: Call, canonical: Canonical, tools: Tools)
    requires !t.raised
    ensures var t', fate := AfterCall(t, c, canonical, tools), FateOf(c, t.seen, canonical);
      && t'.setAside == t.setAside + (if fate.Runs? then 0 else 1)
      && t'.duplicates == t.duplicates + (if fate.Duplicate? then 1 else 0)
      && t'.unreadable == t.unreadable + (if fate.Unreadable? then 1 else 0)
  {
  }

  lemma AccountsOfOneMore(t: Turn, t': Turn, calls: seq<Call>, c: Call, canonical: Canonical)
    requires CanonicalOk(canonical) && Accounted(t, calls, canonical)
    requires var fate := FateOf(c, Keys(Chosen(calls, canonical), canonical), canonical);
      && t'.setAside == t.setAside + (if fate.Runs? then 0 else 1)
      && t'.duplicates == t.duplicates + (if fate.Duplicate? then 1 else 0)
      && t'.unreadable == t.unreadable + (if fate.Unreadable? then 1 else 0)
    ensures Accounted(t', calls + [c], canonical)
  {
    ChosenOfOneMore(calls, c, canonical);
    CoveredOfOneMore(calls, c, canonical);
    ReadableOfOneMore(calls, c, canonical);
    if canonical(c.arguments).None? {
      ChosenKeys(calls, canonical);
      UnreadableIsNew(calls, canonical, c);
    }
  }

  /** The calls set aside are the unreadable ones, the repetitions of calls that ran, and those
      whose key was beyond the cap: an unreadable call is none of the other two and takes no place. */
  lemma {:induction false} SetAsideAccounts(t: Turn, calls: seq<Call>, canonical: Canonical, tools: Tools)
    requires CanonicalOk(canonical) && !t.raised && t.seen == {} && t.setAside == t.duplicates == t.unreadable == 0
    requires !AfterCalls(t, calls, canonical, tools).raised
    ensures Accounted(AfterCalls(t, calls, canonical, tools), calls, canonical)
    ensures var t', readable := AfterCalls(t, calls, canonical, tools), ReadableOnly(calls, canonical);
      t'.setAside == t'.unreadable + t'.duplicates + (|readable| - Covered(calls, canonical))
  {
    if calls != [] {
      var init, c := calls[..|calls|-1], calls[|calls|-1];
      assert init + [c] == calls;
      var u := AfterCalls(t, init, canonical, tools);
      SetAsideAccounts(t, init, canonical, tools);
      TurnRunsTheChosen(t, init, canonical, tools);
      CallIsCounted(u, c, canonical, tools);
      AccountsOfOneMore(u, AfterCalls(t, calls, canonical, tools), init, c, canonical);
    }
  }

  // ---------------------------------------------------------------- the replies and the last error

  predicate IsReply(m: Message, c: Call) { m.Tool? && m.id == IdOf(c) && m.name == c.name }

  /** The log has grown by one reply to each call, in order. */
  ghost predicate Replies(before: seq<Message>, after: seq<Message>, calls: seq<Call>) {
    && |after| == |before| + |calls|
    && before <= after
    && forall j :: 0 <= j < |calls| ==> IsReply(after[|before| + j], calls[j])
  }

  lemma CallIsAnswered(t: Turn, c: Call, canonical: Canonical, tools: Tools)
    requires !AfterCall(t, c, canonical, tools).raised
    ensures !t.raised
    ensures var m := AfterCall(t, c, canonical, tools).messages;
      |m| == |t.messages| + 1 && m[..|t.messages|] == t.messages && IsReply(m[|t.messages|], c)
  {
  }

  lemma RepliesOfOneMore(m: seq<Message>, m': seq<Message>, m'': seq<Message>, calls: seq<Call>, c: Call)
    requires Replies(m, m', calls)
    requires |m''| == |m'| + 1 && m''[..|m'|] == m' && IsReply(m''[|m'|], c)
    ensures Replies(m, m'', calls + [c])
  {
    forall j | 0 <= j < |calls| + 1 ensures IsReply(m''[|m| + j], (calls + [c])[j]) {
      if j < |calls| { assert m''[|m| + j] == m'[|m| + j]; }
    }
  }

  /** What the reply says: what the tool gave when the call ran, and otherwise why it did not. */
  lemma ReplyTells(t: Turn, c: Call, canonical: Canonical, tools: Tools)
    requires !AfterCall(t, c, canonical, tools).raised
    ensures var t' := AfterCall(t, c, canonical, tools);
      |t'.messages| == |t.messages| + 1
      && var reply := t'.messages[|t.messages|];
        && reply.Tool? && reply.id == (if c.id.Some? then c.id.value else "call_123") && reply.name == c.name
        && reply.content ==
             if KeyOf(c, canonical) in t.seen then NotRun(Duplicate, t.setAside + 1)
             else if canonical(c.arguments).None? then NotRun(Unreadable, t.setAside + 1)
             else if |t.seen| >= 20 then NotRun(OverCap, t.setAside + 1)
             else
               var outcome := tools(|t.ran|);
               assert outcome.Returned?;
               if outcome.error then Failure(outcome.text) else Answer(outcome.text)
  {
  }

  /** Every call of the turn, whatever its fate, gets one reply, in order. */
  lemma {:induction false} EveryCallIsAnswered(t: Turn, calls: seq<Call>, canonical: Canonical, tools: Tools)
    requires !AfterCalls(t, calls, canonical, tools).raised
    ensures !t.raised && Replies(t.messages, AfterCalls(t, calls, canonical, tools).messages, calls)
  {
    if calls != [] {
      var init, c := calls[..|calls|-1], calls[|calls|-1];
      assert init + [c] == calls;
      var u := AfterCalls(t, init, canonical, tools);
      CallIsAnswered(u, c, canonical, tools);
      EveryCallIsAnswered(t, init, canonical, tools);
      RepliesOfOneMore(t.messages, u.messages, AfterCalls(t, calls, canonical, tools).messages, init, c);
    }
  }

  /** The texts of the calls a..b-1 of the conversation that did not fail. */
  function Answers(tools: Tools, a: nat, b: nat): seq<string>
    requires a <= b
  {
    if a == b then []
    else Answers(tools, a, b - 1) + match tools(b - 1) case Returned(text, false) => [text] case _ => []
  }

  ghost predicate Outcomes(ran: nat, error: Option<string>, t: Turn, tools: Tools) {
    && |t.ran| >= ran
    && t.results == Answers(tools, ran, |t.ran|)
    && if |t.ran| == ran then t.error == error
       else
         var last := tools(|t.ran| - 1);
         last.Returned? && t.error == if last.error then Some(last.text) else None
  }

  lemma CallDecidesTheError(ran: nat, error: Option<string>, t: Turn, c: Call, canonical: Canonical, tools: Tools)
    requires Outcomes(ran, error, t, tools) && !AfterCall(t, c, canonical, tools).raised
    ensures Outcomes(ran, error, AfterCall(t, c, canonical, tools), tools)
  {
  }

  /** The error kept is that of the last call that ran; the results are those of the calls that ran
      and did not fail. */
  lemma {:induction false} LastCallDecidesTheError(t: Turn, calls: seq<Call>, canonical: Canonical, tools: Tools)
    requires !t.raised && t.results == [] && !AfterCalls(t, calls, canonical, tools).raised
    ensures Outcomes(|t.ran|, t.error, AfterCalls(t, calls, canonical, tools), tools)
  {
    if calls != [] {
      var init, c := calls[..|calls|-1], calls[|calls|-1];
      var u := AfterCalls(t, init, canonical, tools);
      LastCallDecidesTheError(t, init, canonical, tools);
      CallDecidesTheError(|t.ran|, t.error, u, c, canonical, tools);
    }
  }

  // ---------------------------------------------------------------- one tool, tried again

  /** What one attempt gives: a text, which may announce an error, or an exception; and whether the
      error may be tried again. */
  datatype Attempt = Gave(text: string, error: bool, retriable: bool) | Threw(text: string, retriable: bool)
  datatype Final = Ended(text: string) | Failed(text: string)

  const EXHAUSTED := "retries exhausted"

  /** `_execute_tool_with_retry`: only retriable errors are tried again, and the caller gets what the
      last attempt gave, an exception included. */
  method ExecuteToolWithRetry(attempts: nat -> Attempt, maxRetries: nat) returns (final: Final, used: nat)
    ensures used <= maxRetries
    ensures forall k :: 0 <= k < used - 1 ==> attempts(k).retriable && (attempts(k).Threw? || attempts(k).error)
    ensures 0 < used < maxRetries ==>
      var last := attempts(used - 1); !(last.retriable && (last.Threw? || last.error))
    ensures maxRetries > 0 ==>
      && used > 0
      && var last := attempts(used - 1); final == if last.Threw? then Failed(last.text) else Ended(last.text)
    ensures maxRetries == 0 ==> final == Ended(EXHAUSTED)
  {
    var lastError := EXHAUSTED;
    used := 0;
    while used < maxRetries
      invariant used <= maxRetries && (used == maxRetries ==> maxRetries == 0)
      invariant forall k :: 0 <= k < used ==> attempts(k).retriable && (attempts(k).Threw? || attempts(k).error)
      invariant used == 0 ==> lastError == EXHAUSTED
    {
      var a := attempts(used);
      used := used + 1;
      if a.Gave? && a.error && a.retriable && used < maxRetries {
        lastError := a.text;
        continue;
      }
      if a.Gave? { return Ended(a.text), used; }
      if a.retriable && used < maxRetries {
        lastError := a.text;
        continue;
      }
      return Failed(a.text), used;
    }
    final := Ended(lastError);
  }
}

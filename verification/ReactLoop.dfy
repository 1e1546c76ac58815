/** The ReAct loop and the local review rounds of the executor (agents/executor.py,
    `_execute_react_loop` and `invoke`).

    What the model and the tools answer are functions of how many answers came before. */
module ReactLoop {
  import opened Wrappers
  import opened ToolCalls

  // ---------------------------------------------------------------- the chat protocol

  /** The assistant message at i is followed at once by one reply to each of its calls. */
  ghost predicate Answered(m: seq<Message>, i: nat)
    requires i < |m| && m[i].Assistant?
  {
    i + |m[i].calls| < |m| && forall j :: 0 <= j < |m[i].calls| ==> IsReply(m[i + 1 + j], m[i].calls[j])
  }

  ghost predicate Asked(m: seq<Message>, k: nat) {
    exists i: nat :: i < |m| && m[i].Assistant? && i < k <= i + |m[i].calls|
  }

  /** Every call has its one reply, in order and at once, and no reply comes without a call. */
  ghost predicate LogOk(m: seq<Message>) {
    && (forall i: nat :: i < |m| && m[i].Assistant? ==> Answered(m, i))
    && (forall k: nat :: k < |m| && m[k].Tool? ==> Asked(m, k))
  }

  predicate Speech(x: Message) { x.User? || (x.Assistant? && x.calls == []) }

  lemma SpeechKeepsLog(m: seq<Message>, x: Message)
    requires LogOk(m) && Speech(x)
    ensures LogOk(m + [x])
  {
    var m' := m + [x];
    forall i: nat | i < |m'| && m'[i].Assistant? ensures Answered(m', i) {
      if i < |m| { assert Answered(m, i); }
    }
    forall k: nat | k < |m'| && m'[k].Tool? ensures Asked(m', k) { AskedStays(m, m', k); }
  }

  lemma AskedStays(m: seq<Message>, m': seq<Message>, k: nat)
    requires m <= m' && Asked(m, k)
    ensures Asked(m', k)
  {
    var i: nat :| i < |m| && m[i].Assistant? && i < k <= i + |m[i].calls|;
    assert m'[i] == m[i];
  }

  /** An assistant message with calls and the replies of its turn. */
  lemma ExchangeKeepsLog(m: seq<Message>, ask: Message, m': seq<Message>)
    requires LogOk(m) && ask.Assistant? && Replies(m + [ask], m', ask.calls)
    ensures LogOk(m')
  {
    var n := |m|;
    assert m'[n] == ask && m <= m';
    forall i: nat | n < i < |m'| ensures m'[i].Tool? {
      assert IsReply(m'[|m + [ask]| + (i - n - 1)], ask.calls[i - n - 1]);
    }
    forall i: nat | i < |m'| && m'[i].Assistant? ensures Answered(m', i) {
      if i < n {
        assert Answered(m, i);
      } else {
        forall j | 0 <= j < |ask.calls| ensures IsReply(m'[n + 1 + j], ask.calls[j]) {
          assert |m + [ask]| + j == n + 1 + j;
        }
      }
    }
    forall k: nat | k < |m'| && m'[k].Tool? ensures Asked(m', k) {
      if k < n {
        assert m[k] == m'[k];
        AskedStays(m, m', k);
      } else {
        assert m'[n].Assistant? && n < k <= n + |m'[n].calls|;
      }
    }
  }

  // ---------------------------------------------------------------- one answer of the model

  /** A JSON block of the text: a tool call in words, or something else. */
  datatype Block = NotAnAction | Action(name: string)

  datatype Response = Response(text: string, calls: seq<Call>, blocks: seq<Block>)
  type Model = nat -> Response

  datatype Status = Going | Done | Broken

  /** `native` counts the calls run through the protocol, `sent` keeps the log as the model saw it. */
  datatype Loop = Loop(
    messages: seq<Message>, ran: seq<Call>, native: nat, results: seq<string>, error: Option<string>,
    executed: bool, final: string, sent: seq<seq<Message>>, status: Status)

  /** A tool called in words: an exception is logged and swallowed. */
  function AfterBlock(l: Loop, b: Block, tools: Tools): Loop {
    if b.NotAnAction? then l
    else
      var l' := l.(ran := l.ran + [Call(b.name, None, "")]);
      match tools(|l.ran|)
      case Raises => l'
      case Returned(text, true) =>
        l'.(executed := true, error := Some(text), messages := l.messages + [User(Failure(text))])
      case Returned(text, false) =>
        l'.(executed := true, error := None, results := l.results + [text],
            messages := l.messages + [User(Answer(text))])
  }

  function AfterBlocks(l: Loop, blocks: seq<Block>, tools: Tools): Loop {
    if blocks == [] then l
    else AfterBlock(AfterBlocks(l, blocks[..|blocks|-1], tools), blocks[|blocks|-1], tools)
  }

  function AfterNative(l: Loop, r: Response, canonical: Canonical, tools: Tools): Loop {
    var start := NewTurn(l.messages + [Assistant(Plain(r.text), r.calls)], l.ran, l.error);
    var t := AfterCalls(start, r.calls, canonical, tools);
    var l' := l.(messages := t.messages, ran := t.ran, native := l.native + |t.seen|);
    if t.raised then l'.(status := Broken)
    else l'.(results := l.results + t.results, error := t.error, executed := l.executed || t.seen != {})
  }

  function AfterText(l: Loop, r: Response, tools: Tools): Loop {
    if r.blocks == [] then l.(final := r.text, status := Done)
    else
      var f := AfterBlocks(l.(messages := l.messages + [Assistant(Plain(r.text), [])], results := []), r.blocks, tools);
      if f.results == [] then f.(results := l.results, final := r.text, status := Done)
      else f.(results := l.results + f.results)
  }

  function AfterTurn(l: Loop, model: Model, canonical: Canonical, tools: Tools): Loop {
    if !l.status.Going? then l
    else
      var r := model(|l.sent|);
      var l' := l.(sent := l.sent + [l.messages]);
      if r.calls != [] then AfterNative(l', r, canonical, tools) else AfterText(l', r, tools)
  }

  function AfterTurns(l: Loop, turns: nat, model: Model, canonical: Canonical, tools: Tools): Loop {
    if turns == 0 then l else AfterTurn(AfterTurns(l, turns - 1, model, canonical, tools), model, canonical, tools)
  }

  function NewLoop(messages: seq<Message>, ran: seq<Call>, sent: seq<seq<Message>>): Loop {
    Loop(messages, ran, 0, [], None, false, "", sent, Going)
  }

  // ---------------------------------------------------------------- the log at every call of the model

  ghost predicate AllSentOk(sent: seq<seq<Message>>) { forall i :: 0 <= i < |sent| ==> LogOk(sent[i]) }

  /** What holds between two turns, and after the last one even when a tool broke it. */
  ghost predicate ChatOk(l: Loop) { AllSentOk(l.sent) && (!l.status.Broken? ==> LogOk(l.messages)) }

  lemma {:induction false} BlocksKeepLog(l: Loop, blocks: seq<Block>, tools: Tools)
    requires LogOk(l.messages)
    ensures var l' := AfterBlocks(l, blocks, tools);
      LogOk(l'.messages) && l'.sent == l.sent && l'.status == l.status && l'.native == l.native
  {
    if blocks != [] {
      BlocksKeepLog(l, blocks[..|blocks|-1], tools);
      var u, b := AfterBlocks(l, blocks[..|blocks|-1], tools), blocks[|blocks|-1];
      if b.Action? && tools(|u.ran|).Returned? {
        var text := tools(|u.ran|).text;
        SpeechKeepsLog(u.messages, User(Failure(text)));
        SpeechKeepsLog(u.messages, User(Answer(text)));
      }
    }
  }

  lemma NativeKeepsLog(l: Loop, r: Response, canonical: Canonical, tools: Tools)
    requires LogOk(l.messages)
    ensures var l' := AfterNative(l, r, canonical, tools);
      l'.sent == l.sent && (!l'.status.Broken? ==> LogOk(l'.messages))
  {
    var ask := Assistant(Plain(r.text), r.calls);
    var t := NewTurn(l.messages + [ask], l.ran, l.error);
    if !AfterCalls(t, r.calls, canonical, tools).raised {
      EveryCallIsAnswered(t, r.calls, canonical, tools);
      ExchangeKeepsLog(l.messages, ask, AfterCalls(t, r.calls, canonical, tools).messages);
    }
  }

  lemma TextKeepsLog(l: Loop, r: Response, tools: Tools)
    requires LogOk(l.messages) && l.status.Going?
    ensures var l' := AfterText(l, r, tools);
      l'.sent == l.sent && LogOk(l'.messages) && !l'.status.Broken? && l'.native == l.native
  {
    if r.blocks != [] {
      var ask := Assistant(Plain(r.text), []);
      SpeechKeepsLog(l.messages, ask);
      BlocksKeepLog(l.(messages := l.messages + [ask], results := []), r.blocks, tools);
    }
  }

  lemma TurnKeepsChat(l: Loop, model: Model, canonical: Canonical, tools: Tools)
    requires ChatOk(l)
    ensures ChatOk(AfterTurn(l, model, canonical, tools))
    ensures |AfterTurn(l, model, canonical, tools).sent| <= |l.sent| + 1
  {
    if l.status.Going? {
      var r, l' := model(|l.sent|), l.(sent := l.sent + [l.messages]);
      if r.calls != [] { NativeKeepsLog(l', r, canonical, tools); } else { TextKeepsLog(l', r, tools); }
    }
  }

  lemma {:induction false} TurnsKeepChat(l: Loop, turns: nat, model: Model, canonical: Canonical, tools: Tools)
    requires ChatOk(l)
    ensures ChatOk(AfterTurns(l, turns, model, canonical, tools))
    ensures |AfterTurns(l, turns, model, canonical, tools).sent| <= |l.sent| + turns
  {
    if turns > 0 {
      TurnsKeepChat(l, turns - 1, model, canonical, tools);
      TurnKeepsChat(AfterTurns(l, turns - 1, model, canonical, tools), model, canonical, tools);
    }
  }

  // ---------------------------------------------------------------- the number of calls

  lemma {:induction false} BlocksKeepRest(l: Loop, blocks: seq<Block>, tools: Tools)
    ensures var l' := AfterBlocks(l, blocks, tools);
      l'.sent == l.sent && l'.status == l.status && l'.native == l.native && l'.final == l.final
  {
    if blocks != [] { BlocksKeepRest(l, blocks[..|blocks|-1], tools); }
  }

  lemma TurnRunsFew(l: Loop, model: Model, canonical: Canonical, tools: Tools)
    ensures var l' := AfterTurn(l, model, canonical, tools);
      && l'.native <= l.native + 20
      && (l.status.Going? && model(|l.sent|).calls != [] ==> |l'.ran| == |l.ran| + (l'.native - l.native))
  {
    if l.status.Going? {
      var r, l' := model(|l.sent|), l.(sent := l.sent + [l.messages]);
      if r.calls != [] {
        var t := NewTurn(l.messages + [Assistant(Plain(r.text), r.calls)], l.ran, l.error);
        SeenAreTheRuns(t, r.calls, canonical, tools);
      } else if r.blocks != [] {
        var start := l'.(messages := l.messages + [Assistant(Plain(r.text), [])], results := []);
        BlocksKeepRest(start, r.blocks, tools);
      }
    }
  }

  /** A loop of n turns runs at most 20 * n calls through the protocol, broken off or not. */
  lemma {:induction false} LoopRunsFew(l: Loop, turns: nat, model: Model, canonical: Canonical, tools: Tools)
    ensures AfterTurns(l, turns, model, canonical, tools).native <= l.native + MAX_CALLS_PER_TURN * turns
  {
    if turns > 0 {
      LoopRunsFew(l, turns - 1, model, canonical, tools);
      TurnRunsFew(AfterTurns(l, turns - 1, model, canonical, tools), model, canonical, tools);
    }
  }

  // ---------------------------------------------------------------- the pending error

  /** What the last of the calls a..b-1 that answered at all left to be corrected. */
  function LeftToCorrect(tools: Tools, a: nat, b: nat): Option<string>
    requires a <= b
  {
    if a == b then None
    else
      match tools(b - 1)
      case Raises => LeftToCorrect(tools, a, b - 1)
      case Returned(text, error) => if error then Some(text) else None
  }

  lemma CallLeaves(t: Turn, c: Call, canonical: Canonical, tools: Tools, a: nat)
    requires a <= |t.ran| && t.error == LeftToCorrect(tools, a, |t.ran|)
    requires !AfterCall(t, c, canonical, tools).raised
    ensures var t' := AfterCall(t, c, canonical, tools);
      a <= |t'.ran| && t'.error == LeftToCorrect(tools, a, |t'.ran|)
  {
  }

  lemma {:induction false} CallsLeave(t: Turn, calls: seq<Call>, canonical: Canonical, tools: Tools, a: nat)
    requires a <= |t.ran| && t.error == LeftToCorrect(tools, a, |t.ran|)
    requires !AfterCalls(t, calls, canonical, tools).raised
    ensures var t' := AfterCalls(t, calls, canonical, tools);
      a <= |t'.ran| && t'.error == LeftToCorrect(tools, a, |t'.ran|)
  {
    if calls != [] {
      var u := AfterCalls(t, calls[..|calls|-1], canonical, tools);
      CallIsAnswered(u, calls[|calls|-1], canonical, tools);
      CallsLeave(t, calls[..|calls|-1], canonical, tools, a);
      CallLeaves(u, calls[|calls|-1], canonical, tools, a);
    }
  }

  lemma {:induction false} BlocksLeave(l: Loop, blocks: seq<Block>, tools: Tools, a: nat)
    requires a <= |l.ran| && l.error == LeftToCorrect(tools, a, |l.ran|)
    ensures var l' := AfterBlocks(l, blocks, tools); a <= |l'.ran| && l'.error == LeftToCorrect(tools, a, |l'.ran|)
  {
    if blocks != [] { BlocksLeave(l, blocks[..|blocks|-1], tools, a); }
  }

  lemma TurnLeaves(l: Loop, model: Model, canonical: Canonical, tools: Tools, a: nat)
    requires a <= |l.ran| && (!l.status.Broken? ==> l.error == LeftToCorrect(tools, a, |l.ran|))
    ensures var l' := AfterTurn(l, model, canonical, tools);
      a <= |l'.ran| && (!l'.status.Broken? ==> l'.error == LeftToCorrect(tools, a, |l'.ran|))
  {
    if l.status.Going? {
      var r, l' := model(|l.sent|), l.(sent := l.sent + [l.messages]);
      if r.calls != [] {
        var t := NewTurn(l.messages + [Assistant(Plain(r.text), r.calls)], l.ran, l.error);
        SeenAreTheRuns(t, r.calls, canonical, tools);
        if !AfterCalls(t, r.calls, canonical, tools).raised { CallsLeave(t, r.calls, canonical, tools, a); }
      } else if r.blocks != [] {
        BlocksLeave(l'.(messages := l.messages + [Assistant(Plain(r.text), [])], results := []), r.blocks, tools, a);
      }
    }
  }

  /** The error that a loop hands on is the one its last answering call left. */
  lemma {:induction false} LoopLeaves(
      messages: seq<Message>, ran: seq<Call>, sent: seq<seq<Message>>, turns: nat,
      model: Model, canonical: Canonical, tools: Tools)
    ensures var l := AfterTurns(NewLoop(messages, ran, sent), turns, model, canonical, tools);
      |ran| <= |l.ran| && (!l.status.Broken? ==> l.error == LeftToCorrect(tools, |ran|, |l.ran|))
  {
    if turns > 0 {
      LoopLeaves(messages, ran, sent, turns - 1, model, canonical, tools);
      var before := AfterTurns(NewLoop(messages, ran, sent), turns - 1, model, canonical, tools);
      TurnLeaves(before, model, canonical, tools, |ran|);
    }
  }

  // ---------------------------------------------------------------- whether a tool was used, and what it gave

  /** One of the calls a..b-1 answered. */
  predicate SomeAnswered(tools: Tools, a: nat, b: nat) { exists k: nat :: a <= k < b && tools(k).Returned? }

  lemma {:induction false} CallsAllAnswer(t: Turn, calls: seq<Call>, canonical: Canonical, tools: Tools)
    requires !AfterCalls(t, calls, canonical, tools).raised
    ensures var t' := AfterCalls(t, calls, canonical, tools);
      |t.ran| <= |t'.ran| && forall k: nat :: |t.ran| <= k < |t'.ran| ==> tools(k).Returned?
  {
    if calls != [] {
      var u := AfterCalls(t, calls[..|calls|-1], canonical, tools);
      CallIsAnswered(u, calls[|calls|-1], canonical, tools);
      CallsAllAnswer(t, calls[..|calls|-1], canonical, tools);
    }
  }

  lemma AnswersOfSum(tools: Tools, a: nat, b: nat, d: nat)
    requires a <= b <= d
    ensures Answers(tools, a, b) + Answers(tools, b, d) == Answers(tools, a, d)
    decreases d
  {
    if b < d { AnswersOfSum(tools, a, b, d - 1); }
  }

  /** What the loop has gathered is what its calls gave. */
  ghost predicate Gathers(l: Loop, tools: Tools, a: nat) {
    && a <= |l.ran|
    && (l.executed <==> SomeAnswered(tools, a, |l.ran|))
    && l.results == Answers(tools, a, |l.ran|)
  }

  lemma {:induction false} BlocksGather(l: Loop, blocks: seq<Block>, tools: Tools, a: nat, b: nat)
    requires a <= b == |l.ran| && l.results == [] && (l.executed <==> SomeAnswered(tools, a, b))
    ensures var l' := AfterBlocks(l, blocks, tools);
      && b <= |l'.ran| && (l'.executed <==> SomeAnswered(tools, a, |l'.ran|))
      && l'.results == Answers(tools, b, |l'.ran|)
  {
    if blocks != [] {
      var u := AfterBlocks(l, blocks[..|blocks|-1], tools);
      BlocksGather(l, blocks[..|blocks|-1], tools, a, b);
      assert tools(|u.ran|).Returned? ==> SomeAnswered(tools, a, |u.ran| + 1);
    }
  }

  lemma NativeGathers(l: Loop, r: Response, canonical: Canonical, tools: Tools, a: nat)
    requires Gathers(l, tools, a) && !AfterNative(l, r, canonical, tools).status.Broken?
    ensures Gathers(AfterNative(l, r, canonical, tools), tools, a)
  {
    var t := NewTurn(l.messages + [Assistant(Plain(r.text), r.calls)], l.ran, l.error);
    var t' := AfterCalls(t, r.calls, canonical, tools);
    SeenAreTheRuns(t, r.calls, canonical, tools);
    CallsAllAnswer(t, r.calls, canonical, tools);
    LastCallDecidesTheError(t, r.calls, canonical, tools);
    AnswersOfSum(tools, a, |l.ran|, |t'.ran|);
    if t'.seen != {} { assert tools(|l.ran|).Returned?; }
  }

  lemma TextGathers(l: Loop, r: Response, tools: Tools, a: nat)
    requires Gathers(l, tools, a)
    ensures Gathers(AfterText(l, r, tools), tools, a)
  {
    if r.blocks != [] {
      var start := l.(messages := l.messages + [Assistant(Plain(r.text), [])], results := []);
      BlocksGather(start, r.blocks, tools, a, |l.ran|);
      AnswersOfSum(tools, a, |l.ran|, |AfterBlocks(start, r.blocks, tools).ran|);
    }
  }

  /** The loop says that a tool was used exactly when one of its calls answered, and its results are
      the texts of those that did not fail, in order. */
  lemma {:induction false} LoopGathers(
      messages: seq<Message>, ran: seq<Call>, sent: seq<seq<Message>>, turns: nat,
      model: Model, canonical: Canonical, tools: Tools)
    ensures var l := AfterTurns(NewLoop(messages, ran, sent), turns, model, canonical, tools);
      !l.status.Broken? ==> Gathers(l, tools, |ran|)
  {
    if turns > 0 {
      var l := AfterTurns(NewLoop(messages, ran, sent), turns - 1, model, canonical, tools);
      LoopGathers(messages, ran, sent, turns - 1, model, canonical, tools);
      if l.status.Going? {
        var r, l' := model(|l.sent|), l.(sent := l.sent + [l.messages]);
        if r.calls == [] {
          TextGathers(l', r, tools, |ran|);
        } else if !AfterNative(l', r, canonical, tools).status.Broken? {
          NativeGathers(l', r, canonical, tools, |ran|);
        }
      }
    }
  }

  // ---------------------------------------------------------------- how a loop ends

  function Actions(blocks: seq<Block>): nat {
    if blocks == [] then 0 else Actions(blocks[..|blocks|-1]) + if blocks[|blocks|-1].Action? then 1 else 0
  }

  /** Every block that is a call runs, whatever the ones before it gave; one that answers says so in
      the log. */
  lemma {:induction false} EveryActionRuns(l: Loop, blocks: seq<Block>, tools: Tools)
    ensures |AfterBlocks(l, blocks, tools).ran| == |l.ran| + Actions(blocks)
  {
    if blocks != [] { EveryActionRuns(l, blocks[..|blocks|-1], tools); }
  }

  lemma ActionIsLogged(l: Loop, name: string, tools: Tools)
    ensures var l', outcome := AfterBlock(l, Action(name), tools), tools(|l.ran|);
      && l'.ran == l.ran + [Call(name, None, "")]
      && l'.messages == l.messages +
           if outcome.Raises? then [] else [User(if outcome.error then Failure(outcome.text) else Answer(outcome.text))]
  {
  }

  lemma {:induction false} BlocksAnswer(l: Loop, blocks: seq<Block>, tools: Tools)
    requires l.results == []
    ensures var l' := AfterBlocks(l, blocks, tools);
      |l.ran| <= |l'.ran| && l'.results == Answers(tools, |l.ran|, |l'.ran|)
  {
    if blocks != [] { BlocksAnswer(l, blocks[..|blocks|-1], tools); }
  }

  /** A text ends the loop exactly when none of the calls written in it succeeded. */
  lemma TextEndsIff(l: Loop, r: Response, tools: Tools)
    requires l.status.Going?
    ensures var l' := AfterText(l, r, tools);
      |l'.ran| == |l.ran| + Actions(r.blocks) && (l'.status.Done? <==> Answers(tools, |l.ran|, |l'.ran|) == [])
  {
    if r.blocks != [] {
      var start := l.(messages := l.messages + [Assistant(Plain(r.text), [])], results := []);
      EveryActionRuns(start, r.blocks, tools);
      BlocksKeepRest(start, r.blocks, tools);
      BlocksAnswer(start, r.blocks, tools);
    }
  }

  lemma CallThatBreaks(t: Turn, c: Call, canonical: Canonical, tools: Tools)
    requires !t.raised && AfterCall(t, c, canonical, tools).raised
    ensures |AfterCall(t, c, canonical, tools).ran| == |t.ran| + 1 && tools(|t.ran|).Raises?
  {
  }

  lemma {:induction false} RunsBeforeItBreaks(t: Turn, calls: seq<Call>, canonical: Canonical, tools: Tools)
    requires !t.raised && AfterCalls(t, calls, canonical, tools).raised
    ensures var t' := AfterCalls(t, calls, canonical, tools); |t'.ran| > |t.ran| && tools(|t'.ran| - 1).Raises?
  {
    var u := AfterCalls(t, calls[..|calls|-1], canonical, tools);
    if u.raised {
      RunsBeforeItBreaks(t, calls[..|calls|-1], canonical, tools);
    } else {
      CallsAllAnswer(t, calls[..|calls|-1], canonical, tools);
      CallThatBreaks(u, calls[|calls|-1], canonical, tools);
    }
  }

  ghost predicate EndsWell(l: Loop, model: Model, tools: Tools, requests: nat, turns: nat) {
    && |l.sent| <= requests + turns
    && (l.status.Going? ==> |l.sent| == requests + turns && l.final == "")
    && (l.status.Done? ==>
          |l.sent| > requests && model(|l.sent| - 1).calls == [] && l.final == model(|l.sent| - 1).text)
    && (l.status.Broken? ==> |l.ran| > 0 && tools(|l.ran| - 1).Raises? && l.final == "")
  }

  lemma TurnEndsWell(l: Loop, model: Model, canonical: Canonical, tools: Tools, requests: nat, turns: nat)
    requires EndsWell(l, model, tools, requests, turns)
    ensures EndsWell(AfterTurn(l, model, canonical, tools), model, tools, requests, turns + 1)
  {
    if l.status.Going? {
      var r, l' := model(|l.sent|), l.(sent := l.sent + [l.messages]);
      if r.calls != [] {
        var t := NewTurn(l.messages + [Assistant(Plain(r.text), r.calls)], l.ran, l.error);
        if AfterCalls(t, r.calls, canonical, tools).raised { RunsBeforeItBreaks(t, r.calls, canonical, tools); }
      } else if r.blocks != [] {
        BlocksKeepRest(l'.(messages := l.messages + [Assistant(Plain(r.text), [])], results := []), r.blocks, tools);
      }
    }
  }

  /** A loop asks the model once a turn until it stops; it ends on a text without calls, which is its
      answer, or on a call that raised, and otherwise its turns are used up without an answer. */
  lemma {:induction false} LoopEndsWell(
      messages: seq<Message>, ran: seq<Call>, sent: seq<seq<Message>>, turns: nat,
      model: Model, canonical: Canonical, tools: Tools)
    ensures EndsWell(
      AfterTurns(NewLoop(messages, ran, sent), turns, model, canonical, tools), model, tools, |sent|, turns)
  {
    if turns > 0 {
      LoopEndsWell(messages, ran, sent, turns - 1, model, canonical, tools);
      TurnEndsWell(
        AfterTurns(NewLoop(messages, ran, sent), turns - 1, model, canonical, tools), model, canonical, tools,
        |sent|, turns - 1);
    }
  }

  // ---------------------------------------------------------------- the local review

  datatype Verdict = Approved | Rejected(feedback: string)

  datatype Setting = Setting(
    turns: nat,
    needsTool: bool,      // the objective asks for an action
    unreviewed: bool,     // the home-automation agent, or a correction already under review
    first: Verdict, second: Verdict)

  datatype Update = NoToolUsed | ToolFailed | RejectedTwice | Succeeded | Crashed

  /** The loops played, in order, and the update sent to the caller. */
  datatype Invocation = Invocation(loops: seq<Loop>, update: Update)

  function Invoked(messages: seq<Message>, s: Setting, model: Model, canonical: Canonical, tools: Tools): Invocation {
    var a := AfterTurns(NewLoop(messages, [], []), s.turns, model, canonical, tools);
    if a.status.Broken? then Invocation([a], Crashed)
    else if !a.executed && s.needsTool then Invocation([a], NoToolUsed)
    else if a.error.Some? then Invocation([a], ToolFailed)
    else if !a.executed || s.unreviewed || s.first.Approved? then Invocation([a], Succeeded)
    else
      var again := a.messages + [User(Plain(s.first.feedback))];
      var b := AfterTurns(NewLoop(again, a.ran, a.sent), s.turns, model, canonical, tools);
      Invocation([a, b],
        if b.status.Broken? then Crashed
        else if b.error.Some? || s.second.Approved? then Succeeded
        else RejectedTwice)
  }

  function LastLoop(i: Invocation): Loop
    requires i.loops != []
  {
    i.loops[|i.loops|-1]
  }

  /** At every call of the model, correction included, the log follows the chat protocol; there are
      at most two loops. */
  lemma EveryRequestIsWellFormed(messages: seq<Message>, s: Setting, model: Model, canonical: Canonical, tools: Tools)
    requires LogOk(messages)
    ensures var i := Invoked(messages, s, model, canonical, tools);
      && 1 <= |i.loops| <= 2
      && AllSentOk(LastLoop(i).sent) && |LastLoop(i).sent| <= 2 * s.turns
  {
    var a := AfterTurns(NewLoop(messages, [], []), s.turns, model, canonical, tools);
    TurnsKeepChat(NewLoop(messages, [], []), s.turns, model, canonical, tools);
    if !a.status.Broken? && s.first.Rejected? {
      var ask := User(Plain(s.first.feedback));
      SpeechKeepsLog(a.messages, ask);
      TurnsKeepChat(NewLoop(a.messages + [ask], a.ran, a.sent), s.turns, model, canonical, tools);
    }
  }

  /** The correction: the loop played after a rejection. */
  function Correction(a: Loop, s: Setting, model: Model, canonical: Canonical, tools: Tools): Loop
    requires s.first.Rejected?
  {
    AfterTurns(NewLoop(a.messages + [User(Plain(s.first.feedback))], a.ran, a.sent), s.turns, model, canonical, tools)
  }

  /** A tool error that nobody corrected is reported as an error, except in the correction.  The
      update is a success over a pending tool error exactly when the first loop ran a tool and left
      nothing to correct, its work was reviewed and rejected, and the last call that answered in the
      correction answered with an error. */
  lemma PendingErrorIsHiddenIff(messages: seq<Message>, s: Setting, model: Model, canonical: Canonical, tools: Tools)
    ensures var i := Invoked(messages, s, model, canonical, tools);
      var a := AfterTurns(NewLoop(messages, [], []), s.turns, model, canonical, tools);
      i.update.Succeeded? && LastLoop(i).error.Some? <==>
        && !a.status.Broken? && a.executed && LeftToCorrect(tools, 0, |a.ran|).None?
        && !s.unreviewed && s.first.Rejected?
        && var b := Correction(a, s, model, canonical, tools);
           !b.status.Broken? && |a.ran| <= |b.ran| && LeftToCorrect(tools, |a.ran|, |b.ran|).Some?
  {
    var a := AfterTurns(NewLoop(messages, [], []), s.turns, model, canonical, tools);
    LoopLeaves(messages, [], [], s.turns, model, canonical, tools);
    if s.first.Rejected? {
      LoopLeaves(a.messages + [User(Plain(s.first.feedback))], a.ran, a.sent, s.turns, model, canonical, tools);
    }
  }

  /** The work of the first loop is sent back: a tool answered, nothing is left to correct, and the
      review, when there is one, rejects it. */
  predicate SentBack(a: Loop, s: Setting, tools: Tools) {
    && !a.status.Broken? && SomeAnswered(tools, 0, |a.ran|) && LeftToCorrect(tools, 0, |a.ran|).None?
    && !s.unreviewed && s.first.Rejected?
  }

  lemma {:induction false} AnErrorIsAnAnswer(tools: Tools, a: nat, b: nat)
    requires a <= b && LeftToCorrect(tools, a, b).Some?
    ensures SomeAnswered(tools, a, b)
  {
    if tools(b - 1).Raises? { AnErrorIsAnAnswer(tools, a, b - 1); }
  }

  /** When each update is sent, from the setting and from what the tools gave in the loop and in the
      correction. */
  lemma UpdatesIff(messages: seq<Message>, s: Setting, model: Model, canonical: Canonical, tools: Tools)
    ensures var update := Invoked(messages, s, model, canonical, tools).update;
      var a := AfterTurns(NewLoop(messages, [], []), s.turns, model, canonical, tools);
      var used, left := SomeAnswered(tools, 0, |a.ran|), LeftToCorrect(tools, 0, |a.ran|);
      && (update.NoToolUsed? <==> !a.status.Broken? && !used && s.needsTool)
      && (update.ToolFailed? <==> !a.status.Broken? && left.Some?)
      && (!SentBack(a, s, tools) ==>
            && !update.RejectedTwice? && (update.Crashed? <==> a.status.Broken?)
            && (update.Succeeded? <==> !a.status.Broken? && (used || !s.needsTool) && left.None?))
      && (SentBack(a, s, tools) ==>
            var b := Correction(a, s, model, canonical, tools);
            && |a.ran| <= |b.ran|
            && (update.Crashed? <==> b.status.Broken?)
            && (update.RejectedTwice? <==>
                  !b.status.Broken? && LeftToCorrect(tools, |a.ran|, |b.ran|).None? && s.second.Rejected?)
            && (update.Succeeded? <==>
                  !b.status.Broken? && (LeftToCorrect(tools, |a.ran|, |b.ran|).Some? || s.second.Approved?)))
  {
    var a := AfterTurns(NewLoop(messages, [], []), s.turns, model, canonical, tools);
    LoopLeaves(messages, [], [], s.turns, model, canonical, tools);
    LoopGathers(messages, [], [], s.turns, model, canonical, tools);
    if LeftToCorrect(tools, 0, |a.ran|).Some? { AnErrorIsAnAnswer(tools, 0, |a.ran|); }
    if s.first.Rejected? {
      LoopLeaves(a.messages + [User(Plain(s.first.feedback))], a.ran, a.sent, s.turns, model, canonical, tools);
    }
  }

  // ---------------------------------------------------------------- an error that stays hidden

  const WRITE := Call("write_file", Some("call_1"), "{}")

  /** The model calls a tool, then answers in text, and so on. */
  function TurnAndTurn(): Model {
    (n: nat) => if n % 2 == 0 then Response("", [WRITE], []) else Response("done", [], [])
  }

  /** The first call succeeds, every later one fails. */
  function OnceOnly(): Tools {
    (n: nat) => if n == 0 then Returned("written", false) else Returned("Erreur", true)
  }

  lemma OneCall(l: Loop, canonical: Canonical)
    requires l.status.Going? && |l.sent| % 2 == 0 && canonical("{}").Some?
    ensures var l' := AfterTurn(l, TurnAndTurn(), canonical, OnceOnly());
      && l'.status.Going? && l'.executed && |l'.ran| == |l.ran| + 1 && |l'.sent| == |l.sent| + 1
      && l'.error == if l.ran == [] then None else Some("Erreur")
  {
    var ask := Assistant(Plain(""), [WRITE]);
    var t := NewTurn(l.messages + [ask], l.ran, l.error);
    assert [WRITE][..0] == [];
    assert AfterCalls(t, [WRITE][..0], canonical, OnceOnly()) == t;
    assert AfterCalls(t, [WRITE], canonical, OnceOnly()) == AfterCall(t, WRITE, canonical, OnceOnly());
  }

  lemma TwoTurns(l: Loop, turns: nat, canonical: Canonical)
    requires l.status.Going? && |l.sent| % 2 == 0 && canonical("{}").Some? && turns >= 2
    ensures var l' := AfterTurns(l, turns, TurnAndTurn(), canonical, OnceOnly());
      && l'.status.Done? && l'.executed && |l'.ran| == |l.ran| + 1 && |l'.sent| == |l.sent| + 2
      && l'.error == if l.ran == [] then None else Some("Erreur")
  {
    var model, tools := TurnAndTurn(), OnceOnly();
    OneCall(l, canonical);
    var l1 := AfterTurn(l, model, canonical, tools);
    assert AfterTurns(l, 0, model, canonical, tools) == l;
    assert AfterTurns(l, 1, model, canonical, tools) == l1;
    assert model(|l1.sent|).calls == [] && model(|l1.sent|).blocks == [];
    assert AfterTurns(l, 2, model, canonical, tools) == AfterTurn(l1, model, canonical, tools);
    StaysStopped(l, 2, turns, model, canonical, tools);
  }

  /** Such a conversation: the work is rejected, the correction ends on a tool error, and the update
      is a success. */
  lemma HiddenError(
      messages: seq<Message>, turns: nat, needsTool: bool, feedback: string, second: Verdict, canonical: Canonical)
    requires turns >= 2 && canonical("{}").Some?
    ensures var s := Setting(turns, needsTool, false, Rejected(feedback), second);
      var i := Invoked(messages, s, TurnAndTurn(), canonical, OnceOnly());
      i.update.Succeeded? && LastLoop(i).error == Some("Erreur")
  {
    TwoTurns(NewLoop(messages, [], []), turns, canonical);
    var a := AfterTurns(NewLoop(messages, [], []), turns, TurnAndTurn(), canonical, OnceOnly());
    TwoTurns(NewLoop(a.messages + [User(Plain(feedback))], a.ran, a.sent), turns, canonical);
  }

  // ---------------------------------------------------------------- the program

  class Executor {
    const canonical: Canonical
    const tools: Tools
    const model: Model
    var messages: seq<Message>
    var ran: seq<Call>
    var sent: seq<seq<Message>>

    constructor (canonical: Canonical, tools: Tools, model: Model, messages: seq<Message>)
      ensures this.canonical == canonical && this.tools == tools && this.model == model
      ensures this.messages == messages && ran == [] && sent == []
    {
      this.canonical, this.tools, this.model := canonical, tools, model;
      this.messages, ran, sent := messages, [], [];
    }

    /** Whether a call runs, given the keys of those that did. */
    method Judge(call: Call, keys: set<Key>) returns (key: Key, why: Fate)
      ensures key == KeyOf(call, canonical) && why == FateOf(call, keys, canonical)
    {
      var decoded := canonical(call.arguments);
      key, why := Key(call.name, if decoded.Some? then decoded.value else call.arguments), Runs;
      if key in keys {
        why := Duplicate;
      } else if decoded.None? {
        why := Unreadable;
      } else if |keys| >= MAX_CALLS_PER_TURN {
        why := OverCap;
      }
    }

    /** A call that runs, and what it leaves in the log. */
    method RunCall(call: Call, results: seq<string>, error: Option<string>, ghost t: Turn)
      returns (results': seq<string>, error': Option<string>, raised: bool)
      requires t.messages == messages && t.ran == ran && t.results == results && t.error == error && !t.raised
      requires FateOf(call, t.seen, canonical).Runs?
      modifies this`messages, this`ran
      ensures AfterCall(t, call, canonical, tools) == t.(
        messages := messages, ran := ran, results := results', error := error',
        seen := t.seen + {KeyOf(call, canonical)}, raised := raised)
    {
      var outcome := tools(|ran|);
      ran := ran + [call];
      results', error', raised := results, error, outcome.Raises?;
      if outcome.Returned? {
        if outcome.error {
          error' := Some(outcome.text);
          messages := messages + [Tool(IdOf(call), call.name, Failure(outcome.text))];
        } else {
          error', results' := None, results + [outcome.text];
          messages := messages + [Tool(IdOf(call), call.name, Answer(outcome.text))];
        }
      }
    }

    /** The calls of one answer, already in the log. */
    method PlayCalls(calls: seq<Call>, error: Option<string>)
      returns (results: seq<string>, lastError: Option<string>, ghost seen: set<Key>, executed: bool, raised: bool)
      modifies this`messages, this`ran
      ensures var t := AfterCalls(NewTurn(old(messages), old(ran), error), calls, canonical, tools);
        && messages == t.messages && ran == t.ran && results == t.results && lastError == t.error
        && seen == t.seen && raised == t.raised && (!raised ==> (executed <==> t.seen != {}))
    {
      ghost var start := NewTurn(messages, ran, error);
      var keys: set<Key>, setAside, duplicates, unreadable := {}, 0, 0, 0;
      results, lastError, seen, executed, raised := [], error, {}, false, false;
      var i := 0;
      while i < |calls|
        invariant i <= |calls| && seen == keys && !raised && (executed <==> keys != {})
        invariant AfterCalls(start, calls[..i], canonical, tools)
          == Turn(messages, ran, results, lastError, keys, setAside, duplicates, unreadable, false)
      {
        var call := calls[i];
        ghost var u := AfterCalls(start, calls[..i], canonical, tools);
        assert AfterCalls(start, calls[..i+1], canonical, tools) == AfterCall(u, call, canonical, tools) by {
          assert calls[..i+1][..i] == calls[..i];
        }
        var key, why := Judge(call, keys);
        if why.Duplicate? { duplicates := duplicates + 1; }
        if why.Unreadable? { unreadable := unreadable + 1; }
        i := i + 1;
        if !why.Runs? {
          setAside := setAside + 1;
          messages := messages + [Tool(IdOf(call), call.name, NotRun(why, setAside))];
          continue;
        }
        keys, seen := keys + {key}, seen + {key};
        results, lastError, raised := RunCall(call, results, lastError, u);
        if raised {
          StaysRaised(start, calls, i, canonical, tools);
          return;
        }
        executed := true;
      }
      assert calls[..i] == calls;
    }

    /** The tool calls written as JSON blocks in the text. */
    method PlayBlocks(blocks: seq<Block>, error: Option<string>, wasExecuted: bool, ghost l: Loop)
      returns (results: seq<string>, lastError: Option<string>, executed: bool)
      requires l.messages == messages && l.ran == ran
      requires l.results == [] && l.error == error && l.executed == wasExecuted
      modifies this`messages, this`ran
      ensures var f := AfterBlocks(l, blocks, tools);
        messages == f.messages && ran == f.ran && results == f.results && lastError == f.error && executed == f.executed
    {
      results, lastError, executed := [], error, wasExecuted;
      var i := 0;
      while i < |blocks|
        invariant i <= |blocks|
        invariant AfterBlocks(l, blocks[..i], tools)
          == l.(messages := messages, ran := ran, results := results, error := lastError, executed := executed)
      {
        assert blocks[..i+1][..i] == blocks[..i];
        if blocks[i].Action? {
          var outcome := tools(|ran|);
          ran := ran + [Call(blocks[i].name, None, "")];
          if outcome.Returned? {
            executed := true;
            if outcome.error {
              lastError := Some(outcome.text);
              messages := messages + [User(Failure(outcome.text))];
            } else {
              lastError, results := None, results + [outcome.text];
              messages := messages + [User(Answer(outcome.text))];
            }
          }
        }
        i := i + 1;
      }
      assert blocks[..i] == blocks;
    }

    /** An answer with tool calls. */
    method PlayNative(r: Response, error: Option<string>, ghost l: Loop)
      returns (more: seq<string>, lastError: Option<string>, some: bool, broken: bool)
      requires l.messages == messages && l.ran == ran && l.error == error && l.status.Going?
      modifies this`messages, this`ran
      ensures var l' := AfterNative(l, r, canonical, tools);
        && messages == l'.messages && ran == l'.ran && broken == l'.status.Broken? && (broken || l'.status.Going?)
        && (!broken ==> l'.results == l.results + more && l'.error == lastError && l'.executed == (l.executed || some))
        && l'.sent == l.sent && l'.final == l.final
    {
      messages := messages + [Assistant(Plain(r.text), r.calls)];
      ghost var seen;
      more, lastError, seen, some, broken := PlayCalls(r.calls, error);
    }

    /** An answer in text: the blocks it contains are played, and it is final when none succeeds. */
    method PlayText(r: Response, error: Option<string>, executed: bool, ghost l: Loop)
      returns (more: seq<string>, lastError: Option<string>, some: bool, stop: bool)
      requires l.messages == messages && l.ran == ran && l.error == error && l.executed == executed && l.status.Going?
      modifies this`messages, this`ran
      ensures var l' := AfterText(l, r, tools);
        && messages == l'.messages && ran == l'.ran && l'.results == l.results + more && l'.error == lastError
        && l'.executed == some && l'.sent == l.sent && stop == l'.status.Done? && (stop || l'.status.Going?)
        && l'.final == if stop then r.text else l.final
    {
      more, lastError, some, stop := [], error, executed, true;
      if r.blocks != [] {
        messages := messages + [Assistant(Plain(r.text), [])];
        ghost var f := l.(messages := messages, results := []);
        more, lastError, some := PlayBlocks(r.blocks, error, executed, f);
        BlocksKeepRest(f, r.blocks, tools);
        stop := more == [];
      }
    }

    /** What the local variables and the log make of a loop that has been entered. */
    ghost predicate IsAt(l: Loop, results: seq<string>, final: string, executed: bool, error: Option<string>)
      reads this
    {
      && messages == l.messages && ran == l.ran && sent == l.sent
      && (!l.status.Broken? ==> results == l.results && final == l.final && executed == l.executed && error == l.error)
    }

    /** The model is asked once, and its answer played. */
    method PlayTurn(results: seq<string>, executed: bool, error: Option<string>, ghost l: Loop)
      returns (results': seq<string>, final: string, executed': bool, error': Option<string>, going: bool, broken: bool)
      requires IsAt(l, results, "", executed, error) && l.status.Going? && l.final == ""
      modifies this
      ensures var l' := AfterTurn(l, model, canonical, tools);
        IsAt(l', results', final, executed', error') && going == l'.status.Going? && broken == l'.status.Broken?
        && (going ==> l'.final == "")
    {
      var r := model(|sent|);
      ghost var l' := l.(sent := l.sent + [l.messages]);
      sent := sent + [messages];
      results', final := results, "";
      var more;
      if r.calls != [] {
        var some;
        more, error', some, broken := PlayNative(r, error, l');
        executed', going := executed || some, !broken;
      } else {
        var stop;
        more, error', executed', stop := PlayText(r, error, executed, l');
        going, broken := !stop, false;
        if stop { final := r.text; }
      }
      results' := results + more;
    }

    /** One turn after the other, until the model answers in plain text. */
    method ExecuteReactLoop(turns: nat)
      returns (results: seq<string>, final: string, executed: bool, error: Option<string>, broken: bool)
      modifies this
      ensures var l := AfterTurns(NewLoop(old(messages), old(ran), old(sent)), turns, model, canonical, tools);
        IsAt(l, results, final, executed, error) && broken == l.status.Broken?
    {
      ghost var start := NewLoop(messages, ran, sent);
      results, final, executed, error, broken := [], "", false, None, false;
      var turn, going := 0, true;
      while turn < turns && going
        invariant turn <= turns
        invariant var l := AfterTurns(start, turn, model, canonical, tools);
          && IsAt(l, results, final, executed, error)
          && going == l.status.Going? && broken == l.status.Broken? && (going ==> l.final == "")
      {
        ghost var l := AfterTurns(start, turn, model, canonical, tools);
        results, final, executed, error, going, broken := PlayTurn(results, executed, error, l);
        turn := turn + 1;
      }
      if !going { StaysStopped(start, turn, turns, model, canonical, tools); }
    }

    /** The loop, its checks, and the local review with its one correction. */
    method Invoke(s: Setting) returns (update: Update)
      requires ran == [] && sent == []
      modifies this
      ensures var i := Invoked(old(messages), s, model, canonical, tools);
        update == i.update && messages == LastLoop(i).messages && ran == LastLoop(i).ran && sent == LastLoop(i).sent
    {
      var results, final, executed, error, broken := ExecuteReactLoop(s.turns);
      if broken { return Crashed; }
      if !executed && s.needsTool { return NoToolUsed; }
      if error.Some? { return ToolFailed; }
      if !executed || s.unreviewed || s.first.Approved? { return Succeeded; }
      messages := messages + [User(Plain(s.first.feedback))];
      results, final, executed, error, broken := ExecuteReactLoop(s.turns);
      if broken { return Crashed; }
      if error.Some? || s.second.Approved? { return Succeeded; }
      return RejectedTwice;
    }
  }

  lemma {:induction false} StaysStopped(l: Loop, k: nat, turns: nat, model: Model, canonical: Canonical, tools: Tools)
    requires k <= turns && !AfterTurns(l, k, model, canonical, tools).status.Going?
    ensures AfterTurns(l, turns, model, canonical, tools) == AfterTurns(l, k, model, canonical, tools)
  {
    if k < turns { StaysStopped(l, k, turns - 1, model, canonical, tools); }
  }

  lemma {:induction false} StaysRaised(t: Turn, calls: seq<Call>, i: nat, canonical: Canonical, tools: Tools)
    requires i <= |calls| && AfterCalls(t, calls[..i], canonical, tools).raised
    ensures AfterCalls(t, calls, canonical, tools) == AfterCalls(t, calls[..i], canonical, tools)
  {
    if i == |calls| {
      assert calls[..i] == calls;
    } else {
      assert calls[..|calls|-1][..i] == calls[..i];
      StaysRaised(t, calls[..|calls|-1], i, canonical, tools);
    }
  }
}

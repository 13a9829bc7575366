/** The reason-and-act loop of the agent, for any model, any tools and any memory. */
module ReActEngine {
  import opened Options
  import opened Text
  import opened Conversation
  import opened TraceSummary
  import BufferMemory
  import TokenWindow

  // ---------- the outside world ----------

  datatype Reply = Reply(content: string, toolCalls: seq<ToolCall>) | LLMError(msg: string)

  /** What a tool call came to: the encoded result or error, whether it succeeded,
      and how long it took. */
  datatype Outcome = Outcome(content: string, success: bool, durationMs: nat)

  /** Everything the engine does not decide, as arbitrary functions. `next` may
      depend on the step and the prompt; `dispatch` on the step, the position of
      the call in its reply, the call, and whether its group was cancelled;
      `append` is the memory: what it holds after a message is added. */
  datatype World = World(
    next: (nat, seq<Message>) -> Reply,
    has: (nat, string) -> bool,
    dispatch: (nat, nat, ToolCall, bool) -> Outcome,
    append: (seq<Message>, Message) -> seq<Message>)

  datatype Config = Config(maxSteps: int, systemPrompt: string)

  // ---------- what a run leaves behind ----------

  datatype Event =
    | StepStart(step: nat)
    | LLMStart(step: nat)
    | LLMEnd(step: nat, reply: Reply)
    | ToolStart(step: nat, call: ToolCall)
    | ToolEnd(step: nat, trace: ToolTrace)
    | Complete(content: string)
    | Error(step: nat, msg: string)

  datatype Verdict = Answer(text: string) | Failure(msg: string)

  /** One call of the model: the prompt it was given, and all that had been appended
      to the memory by then after the system prompt and the query. */
  datatype LLMCall = LLMCall(step: nat, prompt: seq<Message>, replies: seq<Message>)

  /** `dispatches` names each tool call made, by step and position. */
  datatype Log = Log(events: seq<Event>, calls: seq<LLMCall>, dispatches: seq<(nat, nat)>, verdict: Verdict)

  datatype ToolResult = ToolResult(callId: string, content: string, trace: ToolTrace)

  const EMPTY_ANSWER := "结构化汇总结果为空。"

  // ---------- tools of one reply ----------

  function ResultFrom(out: Outcome, step: nat, call: ToolCall): ToolResult {
    ToolResult(call.id, out.content,
               ToolTrace(step, call.name, out.success, out.durationMs, ShortPreview(out.content, 100)))
  }

  /** The results of calling the tools one after the other, in list order. */
  function Results(w: World, step: nat, calls: seq<ToolCall>): seq<ToolResult> {
    seq(|calls|, i requires 0 <= i < |calls| => ResultFrom(w.dispatch(step, i, calls[i], false), step, calls[i]))
  }

  function Starts(step: nat, calls: seq<ToolCall>): seq<Event> {
    seq(|calls|, i requires 0 <= i < |calls| => ToolStart(step, calls[i]))
  }

  function Ends(step: nat, results: seq<ToolResult>): seq<Event> {
    seq(|results|, i requires 0 <= i < |results| => ToolEnd(step, results[i].trace))
  }

  function Positions(step: nat, n: nat): seq<(nat, nat)> {
    seq(n, i requires 0 <= i < n => (step, i))
  }

  function ToolMessages(results: seq<ToolResult>): seq<Message> {
    seq(|results|, i requires 0 <= i < |results| => ToolMessage(results[i].callId, results[i].content))
  }

  // ---------- the loop, as a function ----------

  /** The first call whose tool is unknown, or the number of calls. */
  function FirstUnknown(w: World, step: nat, calls: seq<ToolCall>, i: nat): (k: nat)
    requires i <= |calls|
    ensures i <= k <= |calls|
    ensures k < |calls| ==> !w.has(step, calls[k].name)
    ensures forall j :: i <= j < k ==> w.has(step, calls[j].name)
    decreases |calls| - i
  {
    if i == |calls| || !w.has(step, calls[i].name) then i else FirstUnknown(w, step, calls, i + 1)
  }

  function Block(w: World, step: nat, calls: seq<ToolCall>): seq<Message> {
    [AssistantMessage(calls)] + ToolMessages(Results(w, step, calls))
  }

  /** What happens from `step` on, when the memory holds `held` and `replies` were
      appended since the query. */
  function Loop(w: World, c: Config, step: nat, held: seq<Message>, replies: seq<Message>): Log
    decreases if c.maxSteps >= step then c.maxSteps - step + 1 else 0
  {
    if step > c.maxSteps then
      var msg := "agent stopped: reached max steps (" + IntString(c.maxSteps) + ")";
      Log([Complete(msg)], [], [], Answer(msg))
    else
      var opening := [StepStart(step), LLMStart(step)];
      var call := LLMCall(step, held, replies);
      match w.next(step, held)
      case LLMError(msg) =>
        var wrapped := "llm next failed: " + msg;
        Log(opening + [Error(step, wrapped)], [call], [], Failure(wrapped))
      case Reply(content, toolCalls) =>
        var heard := opening + [LLMEnd(step, Reply(content, toolCalls))];
        if toolCalls == [] then
          var answer := if content == "" then EMPTY_ANSWER else content;
          Log(heard + [Complete(answer)], [call], [], Answer(answer))
        else
          var k := FirstUnknown(w, step, toolCalls, 0);
          if k < |toolCalls| then
            var msg := "unknown tool: " + toolCalls[k].name;
            Log(heard + [Error(step, msg)], [call], [], Failure(msg))
          else
            var block := Block(w, step, toolCalls);
            var rest := Loop(w, c, step + 1, Feed(w.append, held, block), replies + block);
            Log(heard + (Starts(step, toolCalls) + Ends(step, Results(w, step, toolCalls))) + rest.events,
                [call] + rest.calls, Positions(step, |toolCalls|) + rest.dispatches, rest.verdict)
  }

  /** The step calls tools, all of them known. */
  predicate CallsTools(w: World, step: nat, held: seq<Message>) {
    var reply := w.next(step, held);
    reply.Reply? && reply.toolCalls != [] && FirstUnknown(w, step, reply.toolCalls, 0) == |reply.toolCalls|
  }

  function Opening(c: Config, query: string): seq<Message> {
    [SystemMessage(c.systemPrompt), UserMessage(query)]
  }

  function RunLog(w: World, c: Config, query: string): Log {
    Loop(w, c, 1, Feed(w.append, [], Opening(c, query)), [])
  }

  // ---------- the event stream ----------

  /** Where a well-formed stream can stand. */
  datatype Monitor =
    | AtStep(step: nat)                                    // step `step` comes next, or the end
    | AtLLM(step: nat)
    | AtReply(step: nat)
    | AtAnswer(step: nat)
    | AtUnknown(step: nat)                                 // a tool asked for is unknown
    | AtStarts(step: nat, calls: seq<ToolCall>, i: nat)    // i calls announced
    | AtEnds(step: nat, calls: seq<ToolCall>, i: nat)      // i calls reported
    | Done
    | Broken

  /** All a monitor knows: how many steps there may be, and which tools exist. */
  datatype Rules = Rules(maxSteps: int, known: (nat, string) -> bool) {
    predicate AllKnown(step: nat, calls: seq<ToolCall>) {
      forall i :: 0 <= i < |calls| ==> known(step, calls[i].name)
    }
  }

  function RulesOf(w: World, c: Config): Rules { Rules(c.maxSteps, w.has) }

  /** A monitor says which event may follow. It lets tools start only after a reply all
      of whose tools exist; after another reply with tools it wants an error. */
  function Watch(rules: Rules, m: Monitor, e: Event): Monitor {
    match (m, e)
    case (AtStep(n), StepStart(k)) => if k == n <= rules.maxSteps then AtLLM(n) else Broken
    case (AtStep(n), Complete(_)) => if n > rules.maxSteps then Done else Broken
    case (AtLLM(n), LLMStart(k)) => if k == n then AtReply(n) else Broken
    case (AtReply(n), LLMEnd(k, r)) =>
      if k != n || r.LLMError? then Broken
      else if r.toolCalls == [] then AtAnswer(n)
      else if rules.AllKnown(n, r.toolCalls) then AtStarts(n, r.toolCalls, 0)
      else AtUnknown(n)
    case (AtReply(n), Error(k, _)) => if k == n then Done else Broken
    case (AtAnswer(n), Complete(_)) => Done
    case (AtUnknown(n), Error(k, _)) => if k == n then Done else Broken
    case (AtStarts(n, calls, i), ToolStart(k, call)) =>
      if k != n || i >= |calls| || call != calls[i] then Broken
      else if i + 1 == |calls| then AtEnds(n, calls, 0)
      else AtStarts(n, calls, i + 1)
    case (AtEnds(n, calls, i), ToolEnd(k, trace)) =>
      if k != n || i >= |calls| || trace.tool != calls[i].name || trace.step != n then Broken
      else if i + 1 == |calls| then AtStep(n + 1)
      else AtEnds(n, calls, i + 1)
    case _ => Broken
  }

  function WatchAll(rules: Rules, m: Monitor, events: seq<Event>): Monitor
    decreases |events|
  {
    if events == [] then m else WatchAll(rules, Watch(rules, m, events[0]), events[1..])
  }

  lemma {:induction false} WatchConcat(rules: Rules, m: Monitor, xs: seq<Event>, ys: seq<Event>)
    ensures WatchAll(rules, m, xs + ys) == WatchAll(rules, WatchAll(rules, m, xs), ys)
    decreases |xs|
  {
    if xs == [] {
      assert xs + ys == ys;
    } else {
      assert (xs + ys)[1..] == xs[1..] + ys;
      WatchConcat(rules, Watch(rules, m, xs[0]), xs[1..], ys);
    }
  }

  lemma {:induction false} WatchOne(rules: Rules, m: Monitor, e: Event)
    ensures WatchAll(rules, m, [e]) == Watch(rules, m, e)
  {
    assert [e][1..] == [];
  }

  lemma {:induction false} WatchStarts(rules: Rules, step: nat, calls: seq<ToolCall>, i: nat)
    requires i < |calls|
    ensures WatchAll(rules, AtStarts(step, calls, i), Starts(step, calls)[i..]) == AtEnds(step, calls, 0)
    decreases |calls| - i
  {
    var events := Starts(step, calls)[i..];
    assert events[0] == ToolStart(step, calls[i]);
    assert events[1..] == Starts(step, calls)[i + 1..];
    if i + 1 == |calls| {
    } else {
      WatchStarts(rules, step, calls, i + 1);
    }
  }

  lemma {:induction false} WatchEnds(rules: Rules, w: World, step: nat, calls: seq<ToolCall>, i: nat)
    requires i < |calls|
    ensures WatchAll(rules, AtEnds(step, calls, i), Ends(step, Results(w, step, calls))[i..]) == AtStep(step + 1)
    decreases |calls| - i
  {
    var all := Ends(step, Results(w, step, calls));
    var events, rest := all[i..], all[i + 1..];
    assert events[0] == ToolEnd(step, ResultFrom(w.dispatch(step, i, calls[i], false), step, calls[i]).trace);
    assert events[1..] == rest;
    if i + 1 == |calls| {
      assert rest == [];
    } else {
      WatchEnds(rules, w, step, calls, i + 1);
    }
  }

  lemma {:induction false} WatchTools(rules: Rules, w: World, step: nat, calls: seq<ToolCall>)
    requires calls != []
    ensures WatchAll(rules, AtStarts(step, calls, 0), Starts(step, calls) + Ends(step, Results(w, step, calls)))
            == AtStep(step + 1)
  {
    WatchConcat(rules, AtStarts(step, calls, 0), Starts(step, calls), Ends(step, Results(w, step, calls)));
    WatchStarts(rules, step, calls, 0);
    WatchEnds(rules, w, step, calls, 0);
    assert Starts(step, calls)[0..] == Starts(step, calls);
    assert Ends(step, Results(w, step, calls))[0..] == Ends(step, Results(w, step, calls));
  }

  lemma {:induction false} WatchOpening(rules: Rules, step: nat, e: Event, rest: seq<Event>)
    requires step <= rules.maxSteps
    ensures WatchAll(rules, AtStep(step), [StepStart(step), LLMStart(step)] + [e] + rest)
            == WatchAll(rules, Watch(rules, AtReply(step), e), rest)
  {
    var all := [StepStart(step), LLMStart(step)] + [e] + rest;
    var all1 := all[1..];
    assert all1 == [LLMStart(step)] + [e] + rest;
    var all2 := all1[1..];
    assert all2 == [e] + rest && all2[1..] == rest;
    assert WatchAll(rules, AtStep(step), all) == WatchAll(rules, AtLLM(step), all1);
    assert WatchAll(rules, AtLLM(step), all1) == WatchAll(rules, AtReply(step), all2);
  }

  lemma {:induction false} ToolStepAccepted(rules: Rules, w: World, step: nat, reply: Reply, rest: seq<Event>)
    requires step <= rules.maxSteps && reply.Reply? && reply.toolCalls != []
    requires rules.AllKnown(step, reply.toolCalls)
    requires WatchAll(rules, AtStep(step + 1), rest) == Done
    ensures var tools := Starts(step, reply.toolCalls) + Ends(step, Results(w, step, reply.toolCalls));
            var heard := [StepStart(step), LLMStart(step)] + [LLMEnd(step, reply)];
            WatchAll(rules, AtStep(step), heard + tools + rest) == Done
  {
    var calls := reply.toolCalls;
    var tools := Starts(step, calls) + Ends(step, Results(w, step, calls));
    var front := [StepStart(step), LLMStart(step)] + [LLMEnd(step, reply)];
    assert front + tools + rest == front + (tools + rest);
    WatchOpening(rules, step, LLMEnd(step, reply), tools + rest);
    WatchConcat(rules, AtStarts(step, calls, 0), tools, rest);
    WatchTools(rules, w, step, calls);
  }

  /** A step that ends the run: the model fails, answers, or asks for an unknown tool. */
  lemma {:induction false} LastStepAccepted(rules: Rules, step: nat, events: seq<Event>)
    requires step <= rules.maxSteps
    requires || (|events| == 1 && events[0].Error? && events[0].step == step)
             || (|events| == 2 && events[0].LLMEnd? && events[0].step == step && events[0].reply.Reply?
                 && if events[0].reply.toolCalls == [] then events[1].Complete?
                    else !rules.AllKnown(step, events[0].reply.toolCalls) && events[1].Error? && events[1].step == step)
    ensures WatchAll(rules, AtStep(step), [StepStart(step), LLMStart(step)] + events) == Done
  {
    var front := [StepStart(step), LLMStart(step)];
    assert front + events == front + [events[0]] + events[1..];
    WatchOpening(rules, step, events[0], events[1..]);
    if |events| == 2 {
      assert events[1..] == [events[1]];
      WatchOne(rules, Watch(rules, AtReply(step), events[0]), events[1]);
    }
  }

  /** The events of a step that ends the run, after the two that open it. */
  function LastEvents(w: World, step: nat, held: seq<Message>): seq<Event>
    requires !CallsTools(w, step, held)
  {
    match w.next(step, held)
    case LLMError(msg) => [Error(step, "llm next failed: " + msg)]
    case Reply(content, toolCalls) =>
      [LLMEnd(step, Reply(content, toolCalls)),
       if toolCalls == [] then Complete(if content == "" then EMPTY_ANSWER else content)
       else Error(step, "unknown tool: " + toolCalls[FirstUnknown(w, step, toolCalls, 0)].name)]
  }

  lemma {:induction false} LoopEvents(w: World, c: Config, step: nat, held: seq<Message>, replies: seq<Message>)
    requires step <= c.maxSteps
    ensures var events := Loop(w, c, step, held, replies).events;
            var opening := [StepStart(step), LLMStart(step)];
            if CallsTools(w, step, held) then
              var reply := w.next(step, held);
              var block := Block(w, step, reply.toolCalls);
              events == opening + [LLMEnd(step, reply)]
                        + (Starts(step, reply.toolCalls) + Ends(step, Results(w, step, reply.toolCalls)))
                        + Loop(w, c, step + 1, Feed(w.append, held, block), replies + block).events
            else events == opening + LastEvents(w, step, held)
  {
  }

  /** A reply that ends the run although it asks for tools asks for an unknown one. */
  lemma {:induction false} LastKnown(w: World, c: Config, step: nat, held: seq<Message>)
    requires !CallsTools(w, step, held)
    ensures var reply := w.next(step, held);
            reply.Reply? && reply.toolCalls != [] ==> !RulesOf(w, c).AllKnown(step, reply.toolCalls)
  {
  }

  lemma {:induction false} LoopAccepted(w: World, c: Config, step: nat, held: seq<Message>, replies: seq<Message>)
    ensures WatchAll(RulesOf(w, c), AtStep(step), Loop(w, c, step, held, replies).events) == Done
    decreases if c.maxSteps >= step then c.maxSteps - step + 1 else 0
  {
    if step > c.maxSteps {
      WatchOne(RulesOf(w, c), AtStep(step), Loop(w, c, step, held, replies).events[0]);
    } else {
      LoopEvents(w, c, step, held, replies);
      if CallsTools(w, step, held) {
        var reply := w.next(step, held);
        var block := Block(w, step, reply.toolCalls);
        var rest := Loop(w, c, step + 1, Feed(w.append, held, block), replies + block);
        LoopAccepted(w, c, step + 1, Feed(w.append, held, block), replies + block);
        ToolStepAccepted(RulesOf(w, c), w, step, reply, rest.events);
      } else {
        LastKnown(w, c, step, held);
        LastStepAccepted(RulesOf(w, c), step, LastEvents(w, step, held));
      }
    }
  }

  /** Every run's event stream is well formed and complete, as the monitor sees it:
      steps follow one another from 1 and are at most maxSteps, each asks the model
      once, an unknown tool ends the run before any tool of its step starts, and
      every started tool is reported, in the order of the reply. */
  lemma {:induction false} RunAccepted(w: World, c: Config, query: string)
    ensures WatchAll(RulesOf(w, c), AtStep(1), RunLog(w, c, query).events) == Done
  {
    LoopAccepted(w, c, 1, Feed(w.append, [], Opening(c, query)), []);
  }

  predicate Terminal(e: Event) { e.Complete? || e.Error? }

  lemma {:induction false} AfterDone(rules: Rules, m: Monitor, events: seq<Event>)
    requires m.Done? || m.Broken?
    ensures WatchAll(rules, m, events).Done? ==> events == [] && m.Done?
    decreases |events|
  {
    if events == [] {
    } else {
      AfterDone(rules, Watch(rules, m, events[0]), events[1..]);
    }
  }

  lemma {:induction false} TerminalEnds(rules: Rules, m: Monitor, e: Event)
    ensures Terminal(e) ==> Watch(rules, m, e).Done? || Watch(rules, m, e).Broken?
    ensures Watch(rules, m, e).Done? ==> Terminal(e)
  {
  }

  /** A stream the monitor accepts ends in a terminal event and has no other. */
  lemma {:induction false} OneTerminalEvent(rules: Rules, m: Monitor, events: seq<Event>)
    requires !m.Done? && !m.Broken? && WatchAll(rules, m, events) == Done
    ensures events != []
    ensures forall i :: 0 <= i < |events| ==> (Terminal(events[i]) <==> i == |events| - 1)
    decreases |events|
  {
    var next := Watch(rules, m, events[0]);
    TerminalEnds(rules, m, events[0]);
    if next.Done? || next.Broken? {
      AfterDone(rules, next, events[1..]);
      assert events == [events[0]];
    } else {
      OneTerminalEvent(rules, next, events[1..]);
      forall i | 0 <= i < |events| ensures Terminal(events[i]) <==> i == |events| - 1 {
        if i > 0 {
          assert events[i] == events[1..][i - 1];
        }
      }
    }
  }

  /** The steps an accepted stream starts are numbered one after the other. */
  function StepsStarted(events: seq<Event>): seq<nat> {
    if events == [] then []
    else (if events[0].StepStart? then [events[0].step] else []) + StepsStarted(events[1..])
  }

  predicate Consecutive(steps: seq<nat>, first: nat, last: int) {
    forall i :: 0 <= i < |steps| ==> steps[i] == first + i <= last
  }

  /** The step the monitor is in, or about to start. */
  function NextStep(m: Monitor): nat {
    match m
    case AtStep(n) => n
    case AtLLM(n) => n + 1
    case AtReply(n) => n + 1
    case AtAnswer(n) => n + 1
    case AtUnknown(n) => n + 1
    case AtStarts(n, _, _) => n + 1
    case AtEnds(n, _, _) => n + 1
    case _ => 0
  }

  lemma {:induction false} StepsConsecutive(rules: Rules, m: Monitor, events: seq<Event>)
    requires !m.Done? && !m.Broken? && WatchAll(rules, m, events) == Done
    ensures Consecutive(StepsStarted(events), NextStep(m), rules.maxSteps)
    decreases |events|
  {
    var next := Watch(rules, m, events[0]);
    if next.Done? || next.Broken? {
      AfterDone(rules, next, events[1..]);
    } else {
      WatchCounts(rules, m, events[0]);
      StepsConsecutive(rules, next, events[1..]);
      var one := if events[0].StepStart? then [events[0].step] else [];
      ConsecutiveFrom(one, StepsStarted(events[1..]), NextStep(next), rules.maxSteps);
    }
  }

  lemma {:induction false} ConsecutiveFrom(one: seq<nat>, later: seq<nat>, next: nat, last: int)
    requires Consecutive(later, next, last)
    requires one == [] || (next > 0 && one == [next - 1] && next - 1 <= last)
    ensures Consecutive(one + later, if one == [] then next else next - 1, last)
  {
  }

  lemma {:induction false} WatchCounts(rules: Rules, m: Monitor, e: Event)
    requires var next := Watch(rules, m, e); !next.Done? && !next.Broken?
    ensures NextStep(Watch(rules, m, e)) == if e.StepStart? then NextStep(m) + 1 else NextStep(m)
    ensures e.StepStart? ==> e.step == NextStep(m) <= rules.maxSteps
  {
  }

  // ---------- what the model is shown ----------

  /** One assistant message with m calls, m > 0, then at least m messages, of which
      the first m are tool messages with the IDs of the calls, in order, and the
      content each call came to. */
  predicate StartsWithBlock(w: World, step: nat, messages: seq<Message>) {
    && messages != []
    && var calls := messages[0].toolCalls;
    && messages[0] == Message(Assistant, "", calls, "") && calls != [] && |messages| > |calls|
    && forall i :: 0 <= i < |calls| ==>
         messages[1 + i] == Message(Tool, w.dispatch(step, i, calls[i], false).content, [], calls[i].id)
  }

  /** Nothing but blocks, for the steps from `step` on. */
  predicate Blocks(w: World, step: nat, messages: seq<Message>)
    decreases |messages|
  {
    messages == []
    || (StartsWithBlock(w, step, messages) && Blocks(w, step + 1, messages[1 + |messages[0].toolCalls|..]))
  }

  /** The steps that blocks span. */
  function BlockCount(w: World, step: nat, messages: seq<Message>): nat
    requires Blocks(w, step, messages)
    decreases |messages|
  {
    if messages == [] then 0 else 1 + BlockCount(w, step + 1, messages[1 + |messages[0].toolCalls|..])
  }

  /** Blocks followed by the blocks of the steps after them. */
  lemma {:induction false} BlocksConcat(w: World, first: nat, messages: seq<Message>, more: seq<Message>)
    requires Blocks(w, first, messages) && Blocks(w, first + BlockCount(w, first, messages), more)
    ensures Blocks(w, first, messages + more)
    ensures BlockCount(w, first, messages + more)
            == BlockCount(w, first, messages) + BlockCount(w, first + BlockCount(w, first, messages), more)
    decreases |messages|
  {
    if messages == [] {
      assert messages + more == more;
    } else {
      var rest := messages[1 + |messages[0].toolCalls|..];
      assert first + BlockCount(w, first, messages) == first + 1 + BlockCount(w, first + 1, rest);
      BlocksConcat(w, first + 1, rest, more);
      BlocksPrepend(w, first, messages, more);
    }
  }

  lemma {:induction false} BlocksPrepend(w: World, first: nat, messages: seq<Message>, more: seq<Message>)
    requires StartsWithBlock(w, first, messages)
    requires Blocks(w, first + 1, messages[1 + |messages[0].toolCalls|..] + more)
    ensures Blocks(w, first, messages + more)
    ensures BlockCount(w, first, messages + more)
            == 1 + BlockCount(w, first + 1, messages[1 + |messages[0].toolCalls|..] + more)
  {
    BlockThen(w, first, messages, more);
    var all := messages + more;
    assert all != [];
  }

  lemma {:induction false} SingleBlock(w: World, step: nat, calls: seq<ToolCall>)
    requires calls != []
    ensures Blocks(w, step, Block(w, step, calls)) && BlockCount(w, step, Block(w, step, calls)) == 1
  {
    var block := Block(w, step, calls);
    assert StartsWithBlock(w, step, block);
    assert block[1 + |calls|..] == [];
  }

  lemma {:induction false} BlockThen(w: World, step: nat, messages: seq<Message>, more: seq<Message>)
    requires StartsWithBlock(w, step, messages)
    ensures var m := 1 + |messages[0].toolCalls|;
            && StartsWithBlock(w, step, messages + more)
            && (messages + more)[0] == messages[0]
            && (messages + more)[m..] == messages[m..] + more
  {
    var all := messages + more;
    assert forall i :: 0 <= i < |messages| ==> all[i] == messages[i];
  }

  /** The calls of the model, from step `step` on, one to a step: what was appended
      before is the system prompt, the query, and one block for each earlier step,
      and the prompt is what the memory makes of that. From one call to the next comes
      the block of the tool calls that the model replied with. */
  predicate ShownProperly(w: World, c: Config, query: string, step: nat, calls: seq<LLMCall>) {
    && (forall i :: 0 <= i < |calls| ==> calls[i].step == step + i <= c.maxSteps && ProperCall(w, c, query, calls[i]))
    && (forall i :: 0 < i < |calls| ==> Continues(w, calls[i - 1], calls[i]))
  }

  predicate Continues(w: World, call: LLMCall, next: LLMCall) {
    && CallsTools(w, call.step, call.prompt)
    && next.replies == call.replies + Block(w, call.step, w.next(call.step, call.prompt).toolCalls)
  }

  predicate ProperCall(w: World, c: Config, query: string, call: LLMCall) {
    && BlocksBefore(w, call.step, call.replies)
    && call.prompt == Feed(w.append, [], Opening(c, query) + call.replies)
  }

  predicate BlocksBefore(w: World, step: nat, replies: seq<Message>) {
    Blocks(w, 1, replies) && BlockCount(w, 1, replies) == step - 1
  }

  lemma {:induction false} FeedConcat(append: (seq<Message>, Message) -> seq<Message>, held: seq<Message>,
                                      xs: seq<Message>, ys: seq<Message>)
    ensures Feed(append, Feed(append, held, xs), ys) == Feed(append, held, xs + ys)
    decreases |ys|
  {
    if ys == [] {
      assert xs + ys == xs;
    } else {
      assert (xs + ys)[..|xs + ys| - 1] == xs + ys[..|ys| - 1];
      FeedConcat(append, held, xs, ys[..|ys| - 1]);
    }
  }

  lemma {:induction false} LoopCalls(w: World, c: Config, step: nat, held: seq<Message>, replies: seq<Message>)
    requires step <= c.maxSteps
    ensures var calls := Loop(w, c, step, held, replies).calls;
            if CallsTools(w, step, held) then
              var block := Block(w, step, w.next(step, held).toolCalls);
              calls == [LLMCall(step, held, replies)]
                       + Loop(w, c, step + 1, Feed(w.append, held, block), replies + block).calls
            else calls == [LLMCall(step, held, replies)] + []
  {
  }

  /** As ShownProperly, without saying that the replies are blocks. */
  ghost predicate Linked(w: World, c: Config, query: string, step: nat, calls: seq<LLMCall>) {
    && (forall i :: 0 <= i < |calls| ==> LinkedAt(w, c, query, calls[i], step + i))
    && (forall i :: 0 < i < |calls| ==> Continues(w, calls[i - 1], calls[i]))
  }

  predicate LinkedAt(w: World, c: Config, query: string, call: LLMCall, step: nat) {
    call.step == step <= c.maxSteps && call.prompt == HeldAfter(w, c, query, call.replies)
  }

  function HeldAfter(w: World, c: Config, query: string, replies: seq<Message>): seq<Message> {
    Feed(w.append, [], Opening(c, query) + replies)
  }

  /** The calls, from `step` on, are those of a loop that remembers a block after each. */
  predicate Follows(w: World, c: Config, step: nat, held: seq<Message>, replies: seq<Message>, calls: seq<LLMCall>)
    decreases |calls|
  {
    calls == []
    || (&& step <= c.maxSteps && calls[0] == LLMCall(step, held, replies)
        && (if CallsTools(w, step, held) then
              var block := Block(w, step, w.next(step, held).toolCalls);
              Follows(w, c, step + 1, Feed(w.append, held, block), replies + block, calls[1..])
            else |calls| == 1))
  }

  lemma {:induction false} LoopFollows(w: World, c: Config, step: nat, held: seq<Message>, replies: seq<Message>)
    ensures Follows(w, c, step, held, replies, Loop(w, c, step, held, replies).calls)
    decreases if c.maxSteps >= step then c.maxSteps - step + 1 else 0
  {
    if step > c.maxSteps {
    } else {
      LoopCalls(w, c, step, held, replies);
      if CallsTools(w, step, held) {
        var block := Block(w, step, w.next(step, held).toolCalls);
        var rest := Loop(w, c, step + 1, Feed(w.append, held, block), replies + block).calls;
        LoopFollows(w, c, step + 1, Feed(w.append, held, block), replies + block);
        assert ([LLMCall(step, held, replies)] + rest)[1..] == rest;
      }
    }
  }

  lemma {:induction false} FollowsLinked(w: World, c: Config, query: string, step: nat, held: seq<Message>,
                                         replies: seq<Message>, calls: seq<LLMCall>)
    requires held == HeldAfter(w, c, query, replies) && Follows(w, c, step, held, replies, calls)
    ensures Linked(w, c, query, step, calls) && (calls != [] ==> calls[0].replies == replies)
    decreases |calls|
  {
    if calls == [] {
    } else if CallsTools(w, step, held) {
      var block := Block(w, step, w.next(step, held).toolCalls);
      FeedNext(w.append, Opening(c, query), replies, block);
      FollowsLinked(w, c, query, step + 1, Feed(w.append, held, block), replies + block, calls[1..]);
      LinkedNext(w, c, query, step, calls);
    }
  }

  lemma {:induction false} LinkedNext(w: World, c: Config, query: string, step: nat, calls: seq<LLMCall>)
    requires calls != [] && Linked(w, c, query, step + 1, calls[1..])
    requires calls[0].step == step <= c.maxSteps && calls[0].prompt == HeldAfter(w, c, query, calls[0].replies)
    requires |calls| > 1 ==> Continues(w, calls[0], calls[1])
    ensures Linked(w, c, query, step, calls)
  {
    var rest := calls[1..];
    forall i | 0 <= i < |calls| ensures LinkedAt(w, c, query, calls[i], step + i) {
      if i > 0 {
        assert calls[i] == rest[i - 1] && LinkedAt(w, c, query, rest[i - 1], (step + 1) + (i - 1));
      }
    }
    forall i | 0 < i < |calls| ensures Continues(w, calls[i - 1], calls[i]) {
      if i > 1 {
        assert calls[i - 1] == rest[i - 2] && calls[i] == rest[i - 1];
        assert Continues(w, rest[(i - 1) - 1], rest[i - 1]);
      }
    }
  }

  /** One block for each step before. */
  lemma {:induction false} BlocksAtEach(w: World, c: Config, query: string, calls: seq<LLMCall>, i: nat)
    requires Linked(w, c, query, 1, calls) && i < |calls| && calls[0].replies == []
    ensures BlocksBefore(w, calls[i].step, calls[i].replies)
  {
    if i == 0 {
    } else {
      var last := calls[i - 1];
      BlocksAtEach(w, c, query, calls, i - 1);
      assert LinkedAt(w, c, query, last, 1 + (i - 1)) && LinkedAt(w, c, query, calls[i], 1 + i);
      assert Continues(w, last, calls[i]);
      BlockAppends(w, last.step, last.replies, w.next(last.step, last.prompt).toolCalls);
    }
  }

  lemma {:induction false} BlockAppends(w: World, step: nat, replies: seq<Message>, toolCalls: seq<ToolCall>)
    requires step >= 1 && BlocksBefore(w, step, replies) && toolCalls != []
    ensures BlocksBefore(w, step + 1, replies + Block(w, step, toolCalls))
  {
    SingleBlock(w, step, toolCalls);
    BlocksConcat(w, 1, replies, Block(w, step, toolCalls));
  }

  lemma {:induction false} FeedNext(append: (seq<Message>, Message) -> seq<Message>, head: seq<Message>,
                                    xs: seq<Message>, ys: seq<Message>)
    ensures Feed(append, Feed(append, [], head + xs), ys) == Feed(append, [], head + (xs + ys))
  {
    FeedConcat(append, [], head + xs, ys);
    assert (head + xs) + ys == head + (xs + ys);
  }

  /** The shape of every run: at most maxSteps calls of the model, the k-th in step
      k, and what was appended before it is the system prompt, the query, and one
      block for each earlier step. */
  lemma {:induction false} RunShowsProperly(w: World, c: Config, query: string)
    ensures ShownProperly(w, c, query, 1, RunLog(w, c, query).calls)
    ensures |RunLog(w, c, query).calls| <= if c.maxSteps > 0 then c.maxSteps else 0
    ensures RunLog(w, c, query).calls != [] ==> RunLog(w, c, query).calls[0].replies == []
    ensures Opening(c, query) == [Message(System, c.systemPrompt, [], ""), Message(User, query, [], "")]
  {
    assert Opening(c, query) + [] == Opening(c, query);
    LoopFollows(w, c, 1, Feed(w.append, [], Opening(c, query)), []);
    var calls := RunLog(w, c, query).calls;
    FollowsLinked(w, c, query, 1, Feed(w.append, [], Opening(c, query)), [], calls);
    forall i | 0 <= i < |calls| ensures calls[i].step == 1 + i <= c.maxSteps && ProperCall(w, c, query, calls[i]) {
      assert LinkedAt(w, c, query, calls[i], 1 + i);
      BlocksAtEach(w, c, query, calls, i);
    }
    if |calls| > 0 {
      assert calls[|calls| - 1].step == |calls|;
    }
  }

  // ---------- the two memories in a run ----------

  lemma {:induction false} BlocksAreReplies(w: World, step: nat, messages: seq<Message>)
    requires Blocks(w, step, messages)
    ensures TokenWindow.Replies(messages)
    decreases |messages|
  {
    if messages == [] {
    } else {
      var m := 1 + |messages[0].toolCalls|;
      BlocksAreReplies(w, step + 1, messages[m..]);
      forall i | 0 <= i < |messages| ensures messages[i].role.Assistant? || messages[i].role.Tool? {
        if 0 < i < m {
          var calls, j := messages[0].toolCalls, i - 1;
          assert messages[1 + j] == Message(Tool, w.dispatch(step, j, calls[j], false).content, [], calls[j].id);
        } else if i >= m {
          assert messages[i] == messages[m..][i - m] && messages[i] in messages[m..];
        }
      }
    }
  }

  /** In a run on a token-window memory, with any estimator: every prompt starts with
      the system prompt and the whole query and goes on with the most recent replies,
      and every prompt of a run that reaches the model is within the budget if and
      only if the system prompt and the query are together. */
  lemma {:induction false} TokenWindowRun(w: World, c: Config, query: string, est: TokenWindow.Estimator, max: nat)
    requires w.append == TokenWindow.Appender(est, max) && c.maxSteps >= 1
    ensures var calls := RunLog(w, c, query).calls;
            && calls != []
            && (forall i :: 0 <= i < |calls| ==> Opening(c, query) <= calls[i].prompt)
            && ((forall i :: 0 <= i < |calls| ==> TokenWindow.Total(est, calls[i].prompt) <= max)
                <==> est(c.systemPrompt) + est(query) <= max)
  {
    var calls := RunLog(w, c, query).calls;
    var system, user := SystemMessage(c.systemPrompt), UserMessage(query);
    RunShowsProperly(w, c, query);
    forall i | 0 <= i < |calls|
      ensures Opening(c, query) <= calls[i].prompt
      ensures est(c.systemPrompt) + est(query) <= max ==> TokenWindow.Total(est, calls[i].prompt) <= max
    {
      BlocksAreReplies(w, 1, calls[i].replies);
      var d := TokenWindow.PromptBudget(est, max, system, user, calls[i].replies);
    }
    FirstCall(w, c, query);
    TokenWindow.FirstPromptBudget(est, max, system, user);
  }

  lemma {:induction false} FirstCall(w: World, c: Config, query: string)
    requires c.maxSteps >= 1
    ensures var calls := RunLog(w, c, query).calls;
            calls != [] && calls[0] == LLMCall(1, Feed(w.append, [], Opening(c, query)), [])
  {
    LoopCalls(w, c, 1, Feed(w.append, [], Opening(c, query)), []);
  }

  /** With a nonnegative estimator each prompt is exactly the system prompt, the query
      and the longest suffix of the (capped) replies so far that the budget allows. */
  lemma {:induction false} TokenWindowPrompt(w: World, c: Config, query: string, est: TokenWindow.Estimator,
                                             max: nat, i: nat)
    returns (d: nat)
    requires w.append == TokenWindow.Appender(est, max) && (forall s :: est(s) >= 0)
    requires i < |RunLog(w, c, query).calls|
    ensures var call := RunLog(w, c, query).calls[i];
            var capped := TokenWindow.CapAll(est, max, call.replies);
            && TokenWindow.AllKeptOf(est, max, call.replies, capped)
            && TokenWindow.LeastDrop(est, max, Opening(c, query), capped, d)
            && call.prompt == Opening(c, query) + capped[d..]
  {
    RunShowsProperly(w, c, query);
    var call := RunLog(w, c, query).calls[i];
    BlocksAreReplies(w, 1, call.replies);
    d := TokenWindow.WindowIsLongestSuffix(est, max, SystemMessage(c.systemPrompt), UserMessage(query), call.replies);
    TokenWindow.CapAllKeeps(est, max, call.replies);
  }

  /** In a run on a buffer memory every prompt is the whole transcript while it fits,
      and then the system prompt and the last max - 1 messages. The model sees the
      query exactly as long as the transcript fits. */
  lemma {:induction false} BufferMemoryRun(w: World, c: Config, query: string, max: BufferMemory.Positive, i: nat)
    requires w.append == BufferMemory.Appender(max)
    requires i < |RunLog(w, c, query).calls|
    ensures var call := RunLog(w, c, query).calls[i];
            var transcript := Opening(c, query) + call.replies;
            && call.prompt == (if |transcript| <= max then transcript
                               else [SystemMessage(c.systemPrompt)] + transcript[|transcript| - max + 1..])
            && (UserMessage(query) in call.prompt <==> |transcript| <= max)
  {
    RunShowsProperly(w, c, query);
    var call := RunLog(w, c, query).calls[i];
    BufferMemory.FeedIsWindow(max, Opening(c, query) + call.replies);
    BlocksAreReplies(w, 1, call.replies);
    WindowOfTranscript(c, query, call.replies, max);
  }

  lemma {:induction false} WindowOfTranscript(c: Config, query: string, replies: seq<Message>,
                                              max: BufferMemory.Positive)
    requires TokenWindow.Replies(replies)
    ensures var transcript := Opening(c, query) + replies;
            var held := BufferMemory.Window(max, transcript);
            && held == (if |transcript| <= max then transcript
                        else [SystemMessage(c.systemPrompt)] + transcript[|transcript| - max + 1..])
            && (UserMessage(query) in held <==> |transcript| <= max)
  {
    var transcript := Opening(c, query) + replies;
    assert transcript[1] == UserMessage(query);
    if |transcript| > max {
      BufferMemory.WindowOfConversation(max, transcript);
      QueryGone(c, query, replies, |transcript| - max + 1);
    }
  }

  lemma {:induction false} QueryGone(c: Config, query: string, replies: seq<Message>, start: nat)
    requires TokenWindow.Replies(replies) && 2 <= start <= 2 + |replies|
    ensures UserMessage(query) !in (Opening(c, query) + replies)[start..]
  {
    assert (Opening(c, query) + replies)[start..] == replies[start - 2..];
    forall j | start - 2 <= j < |replies| ensures replies[j] != UserMessage(query) {
      assert replies[j] in replies;
    }
  }

  // ---------- dispatches ----------

  /** The tools a reply calls: those it asks for, if all are known, else none. */
  function ToolsCalled(w: World, call: LLMCall): seq<ToolCall> {
    if CallsTools(w, call.step, call.prompt) then w.next(call.step, call.prompt).toolCalls else []
  }

  /** Their positions, for all calls of the model. */
  function Dispatched(w: World, calls: seq<LLMCall>): seq<(nat, nat)> {
    if calls == [] then []
    else Positions(calls[0].step, |ToolsCalled(w, calls[0])|) + Dispatched(w, calls[1..])
  }

  /** What a trace says of each of them. */
  function Traced(w: World, calls: seq<LLMCall>): seq<ToolTrace> {
    if calls == [] then [] else StepTraces(w, calls[0].step, ToolsCalled(w, calls[0])) + Traced(w, calls[1..])
  }

  function StepTraces(w: World, step: nat, calls: seq<ToolCall>): seq<ToolTrace> {
    seq(|calls|, i requires 0 <= i < |calls| => TraceFor(w.dispatch(step, i, calls[i], false), step, calls[i].name))
  }

  /** What a trace says of a call that came to `out`. */
  function TraceFor(out: Outcome, step: nat, tool: string): ToolTrace {
    ToolTrace(step, tool, out.success, out.durationMs, ShortPreview(out.content, 100))
  }

  /** The call of the model that asked for d. */
  predicate AskedIn(w: World, calls: seq<LLMCall>, d: (nat, nat), k: int) {
    0 <= k < |calls| && calls[k].step == d.0 && d.1 < |ToolsCalled(w, calls[k])|
  }

  /** d is a call of a reply in the run all of whose tools are known. */
  ghost predicate Justified(w: World, calls: seq<LLMCall>, d: (nat, nat)) {
    exists k :: AskedIn(w, calls, d, k)
  }

  /** t is the trace of the tool call d. */
  ghost predicate TraceOf(w: World, calls: seq<LLMCall>, d: (nat, nat), t: ToolTrace) {
    exists k :: AskedIn(w, calls, d, k) && Tells(w, d, ToolsCalled(w, calls[k])[d.1], t)
  }

  /** t tells what the call came to: its step and tool, whether it succeeded, how long it
      took, and a preview of its result. */
  predicate Tells(w: World, d: (nat, nat), call: ToolCall, t: ToolTrace) {
    var out := w.dispatch(d.0, d.1, call, false);
    && t.step == d.0 && t.tool == call.name
    && t.success == out.success && t.durationMs == out.durationMs
    && t.preview == ShortPreview(out.content, 100)
  }

  ghost predicate Distinct(ds: seq<(nat, nat)>) {
    forall i, j :: 0 <= i < j < |ds| ==> ds[i] != ds[j]
  }

  ghost predicate StepsFrom(calls: seq<LLMCall>, step: nat) {
    forall i :: 0 <= i < |calls| ==> calls[i].step == step + i
  }

  lemma {:induction false} DispatchedExactly(w: World, calls: seq<LLMCall>, d: (nat, nat))
    ensures d in Dispatched(w, calls) <==> Justified(w, calls, d)
  {
    if calls == [] {
    } else {
      var rest := calls[1..];
      DispatchedExactly(w, rest, d);
      var first := Positions(calls[0].step, |ToolsCalled(w, calls[0])|);
      if d in first {
        assert AskedIn(w, calls, d, 0);
      }
      if Justified(w, rest, d) {
        var k :| AskedIn(w, rest, d, k);
        assert AskedIn(w, calls, d, k + 1);
      }
      if Justified(w, calls, d) {
        var k :| AskedIn(w, calls, d, k);
        if k == 0 {
          assert first[d.1] == d;
        } else {
          assert AskedIn(w, rest, d, k - 1);
        }
      }
    }
  }

  lemma {:induction false} DispatchedDistinct(w: World, calls: seq<LLMCall>, step: nat)
    requires StepsFrom(calls, step)
    ensures Distinct(Dispatched(w, calls))
    ensures forall d :: d in Dispatched(w, calls) ==> d.0 >= step
  {
    if calls == [] {
    } else {
      var rest := calls[1..];
      assert forall i :: 0 <= i < |rest| ==> rest[i] == calls[i + 1];
      DispatchedDistinct(w, rest, step + 1);
      var all, first := Dispatched(w, calls), Positions(step, |ToolsCalled(w, calls[0])|);
      forall i, j | 0 <= i < j < |all| ensures all[i] != all[j] {
        if i < |first| <= j {
          assert all[j] in Dispatched(w, rest);
        }
      }
    }
  }

  lemma {:induction false} LoopDispatched(w: World, c: Config, step: nat, held: seq<Message>, replies: seq<Message>)
    ensures var log := Loop(w, c, step, held, replies);
            log.dispatches == Dispatched(w, log.calls) && StepsFrom(log.calls, step)
    decreases if c.maxSteps >= step then c.maxSteps - step + 1 else 0
  {
    if step > c.maxSteps {
    } else {
      if CallsTools(w, step, held) {
        var block := Block(w, step, w.next(step, held).toolCalls);
        LoopDispatched(w, c, step + 1, Feed(w.append, held, block), replies + block);
      }
      DispatchedNext(w, c, step, held, replies);
    }
  }

  lemma {:induction false} DispatchedNext(w: World, c: Config, step: nat, held: seq<Message>, replies: seq<Message>)
    requires step <= c.maxSteps
    requires CallsTools(w, step, held) ==>
               var rest := Rest(w, c, step, held, replies);
               rest.dispatches == Dispatched(w, rest.calls) && StepsFrom(rest.calls, step + 1)
    ensures var log := Loop(w, c, step, held, replies);
            log.dispatches == Dispatched(w, log.calls) && StepsFrom(log.calls, step)
  {
    var call := LLMCall(step, held, replies);
    LoopCalls(w, c, step, held, replies);
    if CallsTools(w, step, held) {
      var rest := Rest(w, c, step, held, replies);
      LoopEnds(w, c, step, held, replies);
      assert ([call] + rest.calls)[1..] == rest.calls;
    } else {
      assert Dispatched(w, [call]) == [];
    }
  }

  /** A tool call is dispatched if and only if some reply of the run asks for it together
      with known tools only, and then once. */
  lemma {:induction false} LoopDispatches(w: World, c: Config, step: nat, held: seq<Message>, replies: seq<Message>)
    ensures var log := Loop(w, c, step, held, replies);
            && (forall d :: d in log.dispatches <==> Justified(w, log.calls, d))
            && Distinct(log.dispatches)
  {
    var log := Loop(w, c, step, held, replies);
    LoopDispatched(w, c, step, held, replies);
    DispatchedDistinct(w, log.calls, step);
    forall d ensures d in log.dispatches <==> Justified(w, log.calls, d) {
      DispatchedExactly(w, log.calls, d);
    }
  }

  // ---------- how a run ends ----------

  /** The verdict that the calls of the model lead to: its error, its answer, or the name
      of the first unknown tool it asked for, in the last of them; or that no step is left. */
  function VerdictOf(w: World, c: Config, calls: seq<LLMCall>): Verdict {
    var stopped := Answer("agent stopped: reached max steps (" + IntString(c.maxSteps) + ")");
    if calls == [] then stopped
    else
      var last := calls[|calls| - 1];
      match w.next(last.step, last.prompt)
      case LLMError(msg) => Failure("llm next failed: " + msg)
      case Reply(content, tools) =>
        if tools == [] then Answer(if content != "" then content else EMPTY_ANSWER)
        else
          var k := FirstUnknown(w, last.step, tools, 0);
          if k < |tools| then Failure("unknown tool: " + tools[k].name) else stopped
  }

  /** No step is left: there were none, or the last of maxSteps has called tools. */
  predicate OutOfSteps(w: World, c: Config, step: nat, calls: seq<LLMCall>) {
    if calls == [] then step > c.maxSteps
    else CallsTools(w, calls[|calls| - 1].step, calls[|calls| - 1].prompt) ==> step + |calls| == c.maxSteps + 1
  }

  lemma {:induction false} LoopConcludes(w: World, c: Config, step: nat, held: seq<Message>, replies: seq<Message>)
    ensures var log := Loop(w, c, step, held, replies);
            log.verdict == VerdictOf(w, c, log.calls) && OutOfSteps(w, c, step, log.calls)
    decreases if c.maxSteps >= step then c.maxSteps - step + 1 else 0
  {
    if step > c.maxSteps {
    } else {
      LoopCalls(w, c, step, held, replies);
      if CallsTools(w, step, held) {
        var block := Block(w, step, w.next(step, held).toolCalls);
        LoopConcludes(w, c, step + 1, Feed(w.append, held, block), replies + block);
        LoopEnds(w, c, step, held, replies);
        ConcludesLater(w, c, step, LLMCall(step, held, replies), Rest(w, c, step, held, replies).calls);
      } else {
        LastConcludes(w, c, step, held, replies);
      }
    }
  }

  lemma {:induction false} LastConcludes(w: World, c: Config, step: nat, held: seq<Message>, replies: seq<Message>)
    requires step <= c.maxSteps && !CallsTools(w, step, held)
    ensures var log := Loop(w, c, step, held, replies);
            log.verdict == VerdictOf(w, c, log.calls) && OutOfSteps(w, c, step, log.calls)
  {
    LoopCalls(w, c, step, held, replies);
  }

  lemma {:induction false} ConcludesLater(w: World, c: Config, step: nat, call: LLMCall, rest: seq<LLMCall>)
    requires call.step == step && CallsTools(w, step, call.prompt) && OutOfSteps(w, c, step + 1, rest)
    requires step <= c.maxSteps
    ensures VerdictOf(w, c, [call] + rest) == VerdictOf(w, c, rest) && OutOfSteps(w, c, step, [call] + rest)
  {
    if rest == [] {
      assert [call] + rest == [call];
    } else {
      assert ([call] + rest)[|rest|] == rest[|rest| - 1];
    }
  }

  /** The event that announces the verdict. */
  predicate Announces(e: Event, v: Verdict) {
    match v
    case Answer(text) => e == Complete(text)
    case Failure(msg) => e.Error? && e.msg == msg
  }

  predicate EndsAnnounced(log: Log) {
    log.events != [] && Announces(log.events[|log.events| - 1], log.verdict)
  }

  lemma {:induction false} LoopAnnounced(w: World, c: Config, step: nat, held: seq<Message>, replies: seq<Message>)
    ensures EndsAnnounced(Loop(w, c, step, held, replies))
    decreases if c.maxSteps >= step then c.maxSteps - step + 1 else 0
  {
    if step > c.maxSteps {
    } else if CallsTools(w, step, held) {
      var block := Block(w, step, w.next(step, held).toolCalls);
      LoopAnnounced(w, c, step + 1, Feed(w.append, held, block), replies + block);
      LoopEnds(w, c, step, held, replies);
      LoopEvents(w, c, step, held, replies);
    }
  }

  /** The replies that the events report, with their steps. */
  function RepliesHeard(events: seq<Event>): seq<(nat, Reply)> {
    if events == [] then [] else ReplyIn(events[0]) + RepliesHeard(events[1..])
  }

  function ReplyIn(e: Event): seq<(nat, Reply)> { if e.LLMEnd? then [(e.step, e.reply)] else [] }

  /** What the model replied to each call, errors left out. */
  function RepliesGiven(w: World, calls: seq<LLMCall>): seq<(nat, Reply)> {
    if calls == [] then []
    else
      var reply := w.next(calls[0].step, calls[0].prompt);
      (if reply.Reply? then [(calls[0].step, reply)] else []) + RepliesGiven(w, calls[1..])
  }

  lemma {:induction false} HeardConcat(xs: seq<Event>, ys: seq<Event>)
    ensures RepliesHeard(xs + ys) == RepliesHeard(xs) + RepliesHeard(ys)
  {
    if xs == [] {
      assert xs + ys == ys;
    } else {
      assert (xs + ys)[0] == xs[0] && (xs + ys)[1..] == xs[1..] + ys;
      HeardConcat(xs[1..], ys);
      Associates(ReplyIn(xs[0]), RepliesHeard(xs[1..]), RepliesHeard(ys));
    }
  }

  lemma {:induction false} Associates<T>(xs: seq<T>, ys: seq<T>, zs: seq<T>)
    ensures xs + (ys + zs) == xs + ys + zs
  {
  }

  lemma {:induction false} NothingHeard(events: seq<Event>)
    requires forall i :: 0 <= i < |events| ==> !events[i].LLMEnd?
    ensures RepliesHeard(events) == []
  {
    if events == [] {
    } else {
      NothingHeard(events[1..]);
    }
  }

  lemma {:induction false} HeardOfStep(step: nat, reply: Reply, tools: seq<Event>, rest: seq<Event>)
    requires forall i :: 0 <= i < |tools| ==> !tools[i].LLMEnd?
    ensures RepliesHeard([StepStart(step), LLMStart(step)] + [LLMEnd(step, reply)] + tools + rest)
            == [(step, reply)] + RepliesHeard(rest)
  {
    var opening, heard := [StepStart(step), LLMStart(step)], [LLMEnd(step, reply)];
    HeardConcat(opening + heard + tools, rest);
    HeardConcat(opening + heard, tools);
    HeardConcat(opening, heard);
    NothingHeard(opening);
    NothingHeard(tools);
    OneHeard(LLMEnd(step, reply));
  }

  lemma {:induction false} OneHeard(e: Event)
    ensures RepliesHeard([e]) == ReplyIn(e)
  {
    assert [e][1..] == [];
  }

  lemma {:induction false} HeardLast(w: World, step: nat, held: seq<Message>)
    requires !CallsTools(w, step, held)
    ensures var reply := w.next(step, held);
            RepliesHeard([StepStart(step), LLMStart(step)] + LastEvents(w, step, held))
            == if reply.Reply? then [(step, reply)] else []
  {
    var reply, last := w.next(step, held), LastEvents(w, step, held);
    var opening := [StepStart(step), LLMStart(step)];
    if reply.LLMError? {
      NothingHeard(opening + last);
    } else {
      assert opening + last == opening + [last[0]] + [] + [last[1]];
      HeardOfStep(step, reply, [], [last[1]]);
      NothingHeard([last[1]]);
    }
  }

  /** The events report the replies that the model gave, each in its step. */
  lemma {:induction false} LoopHeard(w: World, c: Config, step: nat, held: seq<Message>, replies: seq<Message>)
    ensures var log := Loop(w, c, step, held, replies); RepliesHeard(log.events) == RepliesGiven(w, log.calls)
    decreases if c.maxSteps >= step then c.maxSteps - step + 1 else 0
  {
    if step > c.maxSteps {
      NothingHeard(Loop(w, c, step, held, replies).events);
    } else {
      if CallsTools(w, step, held) {
        var block := Block(w, step, w.next(step, held).toolCalls);
        LoopHeard(w, c, step + 1, Feed(w.append, held, block), replies + block);
        HeardNext(w, c, step, held, replies);
      } else {
        LoopCalls(w, c, step, held, replies);
        LoopEvents(w, c, step, held, replies);
        HeardLast(w, step, held);
        assert [LLMCall(step, held, replies)][1..] == [];
      }
    }
  }

  lemma {:induction false} HeardNext(w: World, c: Config, step: nat, held: seq<Message>, replies: seq<Message>)
    requires step <= c.maxSteps && CallsTools(w, step, held)
    requires var rest := Rest(w, c, step, held, replies); RepliesHeard(rest.events) == RepliesGiven(w, rest.calls)
    ensures var log := Loop(w, c, step, held, replies); RepliesHeard(log.events) == RepliesGiven(w, log.calls)
  {
    var reply, rest := w.next(step, held), Rest(w, c, step, held, replies);
    LoopCalls(w, c, step, held, replies);
    LoopEvents(w, c, step, held, replies);
    HeardOfStep(step, reply, Starts(step, reply.toolCalls) + Ends(step, Results(w, step, reply.toolCalls)),
                rest.events);
    assert ([LLMCall(step, held, replies)] + rest.calls)[1..] == rest.calls;
  }

  /** How every run ends: as the last call of the model says, after a tool call in the last
      step with the stop message, and with the event that announces it. */
  lemma {:induction false} RunConcludes(w: World, c: Config, query: string)
    ensures var log := RunLog(w, c, query);
            && log.verdict == VerdictOf(w, c, log.calls)
            && OutOfSteps(w, c, 1, log.calls)
            && EndsAnnounced(log)
            && RepliesHeard(log.events) == RepliesGiven(w, log.calls)
  {
    LoopConcludes(w, c, 1, Feed(w.append, [], Opening(c, query)), []);
    LoopAnnounced(w, c, 1, Feed(w.append, [], Opening(c, query)), []);
    LoopHeard(w, c, 1, Feed(w.append, [], Opening(c, query)), []);
  }

  // ---------- the text of a run reads back ----------

  /** What the trace handler collects. */
  function TracesOf(events: seq<Event>): seq<ToolTrace> {
    if events == [] then []
    else (if events[0].ToolEnd? then [events[0].trace] else []) + TracesOf(events[1..])
  }

  lemma {:induction false} TracesConcat(xs: seq<Event>, ys: seq<Event>)
    ensures TracesOf(xs + ys) == TracesOf(xs) + TracesOf(ys)
  {
    if xs == [] {
      assert xs + ys == ys;
    } else {
      var all := xs + ys;
      assert all[0] == xs[0] && all[1..] == xs[1..] + ys;
      TracesConcat(xs[1..], ys);
      var first := if xs[0].ToolEnd? then [xs[0].trace] else [];
      assert TracesOf(xs) == first + TracesOf(xs[1..]) && TracesOf(all) == first + TracesOf(all[1..]);
      assert first + (TracesOf(xs[1..]) + TracesOf(ys)) == first + TracesOf(xs[1..]) + TracesOf(ys);
    }
  }

  lemma {:induction false} NoTraces(events: seq<Event>)
    requires forall i :: 0 <= i < |events| ==> !events[i].ToolEnd?
    ensures TracesOf(events) == []
  {
    if events == [] {
    } else {
      NoTraces(events[1..]);
    }
  }

  lemma {:induction false} TracesOfEnds(step: nat, results: seq<ToolResult>)
    ensures |TracesOf(Ends(step, results))| == |results|
    ensures forall i :: 0 <= i < |results| ==> TracesOf(Ends(step, results))[i] == results[i].trace
  {
    if results == [] {
    } else {
      assert Ends(step, results)[1..] == Ends(step, results[1..]);
      TracesOfEnds(step, results[1..]);
    }
  }

  lemma {:induction false} TracesOfTools(w: World, step: nat, calls: seq<ToolCall>)
    ensures TracesOf(Starts(step, calls) + Ends(step, Results(w, step, calls))) == StepTraces(w, step, calls)
  {
    var results := Results(w, step, calls);
    TracesConcat(Starts(step, calls), Ends(step, results));
    NoTraces(Starts(step, calls));
    TracesOfEnds(step, results);
    forall i | 0 <= i < |calls|
      ensures results[i].trace == StepTraces(w, step, calls)[i]
    {
      assert results[i] == ResultFrom(w.dispatch(step, i, calls[i], false), step, calls[i]);
      assert StepTraces(w, step, calls)[i] == TraceFor(w.dispatch(step, i, calls[i], false), step, calls[i].name);
    }
    assert TracesOf(Ends(step, results)) == StepTraces(w, step, calls);
  }

  lemma {:induction false} TracesOfStep(w: World, step: nat, reply: Reply, tools: seq<Event>, rest: seq<Event>)
    ensures TracesOf([StepStart(step), LLMStart(step)] + [LLMEnd(step, reply)] + tools + rest)
            == TracesOf(tools) + TracesOf(rest)
  {
    var heard := [StepStart(step), LLMStart(step)] + [LLMEnd(step, reply)];
    NoTraces(heard);
    assert TracesOf(heard) + TracesOf(tools) == TracesOf(tools);
    TracesConcat(heard, tools);
    TracesConcat(heard + tools, rest);
  }

  lemma {:induction false} LastTraces(w: World, step: nat, held: seq<Message>)
    requires !CallsTools(w, step, held)
    ensures TracesOf([StepStart(step), LLMStart(step)] + LastEvents(w, step, held)) == []
  {
    NoTraces([StepStart(step), LLMStart(step)] + LastEvents(w, step, held));
  }

  /** The events report the traces of the calls that were dispatched, in order. */
  lemma {:induction false} LoopTraces(w: World, c: Config, step: nat, held: seq<Message>, replies: seq<Message>)
    ensures var log := Loop(w, c, step, held, replies);
            TracesOf(log.events) == Traced(w, log.calls)
    decreases if c.maxSteps >= step then c.maxSteps - step + 1 else 0
  {
    if step > c.maxSteps {
    } else {
      var call := LLMCall(step, held, replies);
      LoopCalls(w, c, step, held, replies);
      LoopEvents(w, c, step, held, replies);
      if CallsTools(w, step, held) {
        var reply, rest := w.next(step, held), Rest(w, c, step, held, replies);
        var block := Block(w, step, reply.toolCalls);
        LoopTraces(w, c, step + 1, Feed(w.append, held, block), replies + block);
        TracesOfStep(w, step, reply, Starts(step, reply.toolCalls) + Ends(step, Results(w, step, reply.toolCalls)),
                     rest.events);
        TracesOfTools(w, step, reply.toolCalls);
        assert ([call] + rest.calls)[1..] == rest.calls;
      } else {
        LastTraces(w, step, held);
        assert Traced(w, [call]) == [];
      }
    }
  }

  lemma {:induction false} TraceOfFirst(w: World, calls: seq<LLMCall>, m: nat)
    requires calls != [] && m < |ToolsCalled(w, calls[0])|
    ensures TraceOf(w, calls, (calls[0].step, m), StepTraces(w, calls[0].step, ToolsCalled(w, calls[0]))[m])
  {
    var tools := ToolsCalled(w, calls[0]);
    assert StepTraces(w, calls[0].step, tools)[m]
        == TraceFor(w.dispatch(calls[0].step, m, tools[m], false), calls[0].step, tools[m].name);
    assert AskedIn(w, calls, (calls[0].step, m), 0);
  }

  lemma {:induction false} TraceOfLater(w: World, calls: seq<LLMCall>, d: (nat, nat), t: ToolTrace)
    requires calls != [] && TraceOf(w, calls[1..], d, t)
    ensures TraceOf(w, calls, d, t)
  {
    var rest := calls[1..];
    var k :| AskedIn(w, rest, d, k) && Tells(w, d, ToolsCalled(w, rest[k])[d.1], t);
    assert AskedIn(w, calls, d, k + 1);
  }

  ghost predicate Pairwise<A, B>(related: (A, B) -> bool, xs: seq<A>, ys: seq<B>) {
    |xs| == |ys| && forall m :: 0 <= m < |xs| ==> related(xs[m], ys[m])
  }

  lemma {:induction false} PairwiseConcat<A, B>(related: (A, B) -> bool, xs: seq<A>, ys: seq<B>,
                                                xs': seq<A>, ys': seq<B>)
    requires Pairwise(related, xs, ys) && Pairwise(related, xs', ys')
    ensures Pairwise(related, xs + xs', ys + ys')
  {
  }

  ghost function OfCalls(w: World, calls: seq<LLMCall>): ((nat, nat), ToolTrace) -> bool {
    (d: (nat, nat), t: ToolTrace) => TraceOf(w, calls, d, t)
  }

  /** The traces are, one by one, those of the tool calls. */
  ghost predicate TracesMatch(w: World, calls: seq<LLMCall>, ds: seq<(nat, nat)>, ts: seq<ToolTrace>) {
    Pairwise(OfCalls(w, calls), ds, ts)
  }

  lemma {:induction false} MatchLater(w: World, calls: seq<LLMCall>, ds: seq<(nat, nat)>, ts: seq<ToolTrace>)
    requires calls != [] && TracesMatch(w, calls[1..], ds, ts)
    ensures TracesMatch(w, calls, ds, ts)
  {
    forall m | 0 <= m < |ds| ensures TraceOf(w, calls, ds[m], ts[m]) {
      TraceOfLater(w, calls, ds[m], ts[m]);
    }
  }

  lemma {:induction false} MatchFirst(w: World, calls: seq<LLMCall>)
    requires calls != []
    ensures var tools := ToolsCalled(w, calls[0]);
            TracesMatch(w, calls, Positions(calls[0].step, |tools|), StepTraces(w, calls[0].step, tools))
  {
    forall m | 0 <= m < |ToolsCalled(w, calls[0])|
      ensures TraceOf(w, calls, (calls[0].step, m), StepTraces(w, calls[0].step, ToolsCalled(w, calls[0]))[m])
    {
      TraceOfFirst(w, calls, m);
    }
  }

  /** One trace for each dispatched call, its own. */
  lemma {:induction false} TracedEach(w: World, calls: seq<LLMCall>)
    ensures TracesMatch(w, calls, Dispatched(w, calls), Traced(w, calls))
  {
    if calls == [] {
    } else {
      var tools := ToolsCalled(w, calls[0]);
      TracedEach(w, calls[1..]);
      MatchLater(w, calls, Dispatched(w, calls[1..]), Traced(w, calls[1..]));
      MatchFirst(w, calls);
      PairwiseConcat(OfCalls(w, calls), Positions(calls[0].step, |tools|), StepTraces(w, calls[0].step, tools),
                     Dispatched(w, calls[1..]), Traced(w, calls[1..]));
    }
  }

  /** The loop after a step that dispatched its tools. */
  function Rest(w: World, c: Config, step: nat, held: seq<Message>, replies: seq<Message>): Log
    requires CallsTools(w, step, held)
  {
    var block := Block(w, step, w.next(step, held).toolCalls);
    Loop(w, c, step + 1, Feed(w.append, held, block), replies + block)
  }

  /** What Run returns for an answer. */
  function RunText(w: World, c: Config, query: string): string
    requires RunLog(w, c, query).verdict.Answer?
  {
    Attach(RunLog(w, c, query).verdict.text, TracesOf(RunLog(w, c, query).events))
  }

  /** A trace whose tool has a name without white space, and whose numbers fit in 64 bits. */
  predicate PlainTrace(t: ToolTrace) {
    t.tool != "" && NoBlanks(t.tool) && In64(t.step) && In64(t.durationMs)
  }

  ghost predicate AllPlain(traces: seq<ToolTrace>) {
    forall i :: 0 <= i < |traces| ==> PlainTrace(traces[i])
  }

  /** The engine's own previews never stand in the way of printing a trace. */
  lemma {:induction false} PlainIsPrintable(w: World, calls: seq<LLMCall>)
    ensures AllPrintable(Traced(w, calls)) <==> AllPlain(Traced(w, calls))
  {
    var traces := Traced(w, calls);
    TracedEach(w, calls);
    forall m | 0 <= m < |traces| ensures Printable(traces[m]) <==> PlainTrace(traces[m]) {
      TraceIsPreviewed(w, calls, Dispatched(w, calls)[m], traces[m]);
    }
  }

  lemma {:induction false} TraceIsPreviewed(w: World, calls: seq<LLMCall>, d: (nat, nat), t: ToolTrace)
    requires TraceOf(w, calls, d, t)
    ensures Printable(t) <==> PlainTrace(t)
  {
    var k :| AskedIn(w, calls, d, k) && Tells(w, d, ToolsCalled(w, calls[k])[d.1], t);
    PreviewIsPrintable(w.dispatch(d.0, d.1, ToolsCalled(w, calls[k])[d.1], false).content, 100);
  }

  /** From the loop to the query tool: parsing the text of a run gives what the model's
      own answer would be read as, and then one item for every tool call dispatched in
      the run, in order, with what it came to, if and only if all of these are plain. */
  lemma {:induction false} RunThenParse(w: World, c: Config, query: string)
    requires RunLog(w, c, query).verdict.Answer?
    ensures var log := RunLog(w, c, query);
            && (Parse(RunText(w, c, query)) == Parse(log.verdict.text) + ToItems(Traced(w, log.calls))
                <==> AllPlain(Traced(w, log.calls)))
            && TracesMatch(w, log.calls, log.dispatches, Traced(w, log.calls))
  {
    var log := RunLog(w, c, query);
    LoopTraces(w, c, 1, Feed(w.append, [], Opening(c, query)), []);
    LoopDispatched(w, c, 1, Feed(w.append, [], Opening(c, query)), []);
    RoundTripExactly(log.verdict.text, Traced(w, log.calls));
    PlainIsPrintable(w, log.calls);
    TracedEach(w, log.calls);
  }

  ghost predicate PlainTools(w: World) {
    && (forall step, name :: w.has(step, name) ==> name != "" && NoBlanks(name))
    && (forall step, i, call, x :: w.dispatch(step, i, call, x).durationMs <= MAX_INT64)
  }

  /** Tools whose names hold no white space, and whose calls end in time, leave plain
      traces only. */
  lemma {:induction false} PlainToolsPlainTraces(w: World, c: Config, query: string)
    requires PlainTools(w) && c.maxSteps <= MAX_INT64
    ensures AllPlain(Traced(w, RunLog(w, c, query).calls))
  {
    var calls := RunLog(w, c, query).calls;
    RunShowsProperly(w, c, query);
    TracedEach(w, calls);
    forall m | 0 <= m < |Traced(w, calls)| ensures PlainTrace(Traced(w, calls)[m]) {
      PlainToolTrace(w, c, calls, Dispatched(w, calls)[m], Traced(w, calls)[m]);
    }
  }

  lemma {:induction false} PlainToolTrace(w: World, c: Config, calls: seq<LLMCall>, d: (nat, nat), t: ToolTrace)
    requires PlainTools(w) && c.maxSteps <= MAX_INT64 && TraceOf(w, calls, d, t)
    requires forall k :: 0 <= k < |calls| ==> calls[k].step <= c.maxSteps
    ensures PlainTrace(t)
  {
    var k :| AskedIn(w, calls, d, k) && Tells(w, d, ToolsCalled(w, calls[k])[d.1], t);
    var tools := ToolsCalled(w, calls[k]);
    assert w.has(d.0, tools[d.1].name);
  }

  // ---------- the engine ----------

  const NO_RESULT := ToolResult("", "", ToolTrace(0, "", false, 0, ""))

  /** A worker: not started, started, back from its tool, its slot written. */
  datatype Worker = Idle | Waiting | Returned(out: Outcome) | Written

  function StepsLeft(worker: Worker): nat {
    match worker
    case Idle => 3
    case Waiting => 2
    case Returned(_) => 1
    case Written => 0
  }

  function Work(workers: seq<Worker>): nat {
    if workers == [] then 0 else Work(workers[..|workers| - 1]) + StepsLeft(workers[|workers| - 1])
  }

  lemma {:induction false} WorkUpdate(workers: seq<Worker>, i: nat, worker: Worker)
    requires i < |workers|
    ensures Work(workers[i := worker]) == Work(workers) - StepsLeft(workers[i]) + StepsLeft(worker)
  {
    var n := |workers| - 1;
    if i == n {
      assert workers[i := worker][..n] == workers[..n];
    } else {
      assert workers[i := worker][..n] == workers[..n][i := worker];
      WorkUpdate(workers[..n], i, worker);
    }
  }

  lemma {:induction false} WorkZero(workers: seq<Worker>)
    ensures Work(workers) == 0 <==> forall i :: 0 <= i < |workers| ==> workers[i].Written?
  {
    if workers == [] {
    } else {
      var n := |workers| - 1;
      WorkZero(workers[..n]);
      assert forall i :: 0 <= i < n ==> workers[..n][i] == workers[i];
    }
  }

  lemma {:induction false} PositionsCount(step: nat, n: nat, d: (nat, nat))
    ensures multiset(Positions(step, n))[d] == if d.0 == step && d.1 < n then 1 else 0
  {
    if n > 0 {
      PositionsCount(step, n - 1, d);
      assert Positions(step, n) == Positions(step, n - 1) + [(step, n - 1)];
    } else {
      assert Positions(step, 0) == [];
    }
  }

  /** What holds of the workers in the middle of a dispatch, the first `launched` of
      them started. */
  ghost predicate InFlight(w: World, step: nat, calls: seq<ToolCall>, workers: seq<Worker>, launched: nat,
                           slots: seq<ToolResult>) {
    && |workers| == |slots| == |calls| && launched <= |calls|
    && (forall i :: 0 <= i < |calls| ==> (workers[i].Idle? <==> launched <= i))
    && (forall i :: 0 <= i < |calls| && workers[i].Returned? ==> workers[i].out == w.dispatch(step, i, calls[i], false))
    && (forall i :: 0 <= i < |calls| && workers[i].Written? ==> slots[i] == Results(w, step, calls)[i])
  }

  lemma {:induction false} TurnKeeps(w: World, step: nat, calls: seq<ToolCall>, workers: seq<Worker>, launched: nat,
                                     slots: seq<ToolResult>, i: nat)
    requires InFlight(w, step, calls, workers, launched, slots) && i < |calls|
    ensures workers[i].Idle? && i == launched ==>
              InFlight(w, step, calls, workers[i := Waiting], launched + 1, slots)
    ensures workers[i].Waiting? ==>
              InFlight(w, step, calls, workers[i := Returned(w.dispatch(step, i, calls[i], false))], launched, slots)
    ensures workers[i].Returned? ==>
              InFlight(w, step, calls, workers[i := Written], launched,
                       slots[i := ResultFrom(workers[i].out, step, calls[i])])
  {
  }

  predicate Called(workers: seq<Worker>, step: nat, d: (nat, nat)) {
    d.0 == step && d.1 < |workers| && (workers[d.1].Returned? || workers[d.1].Written?)
  }

  /** Exactly the calls of the workers past that point were made, once each. */
  ghost predicate InvokedOnce(invoked: seq<(nat, nat)>, workers: seq<Worker>, step: nat) {
    forall d: (nat, nat) :: multiset(invoked)[d] == if Called(workers, step, d) then 1 else 0
  }

  /** A turn of worker i that calls no tool. */
  lemma {:induction false} QuietTurn(invoked: seq<(nat, nat)>, workers: seq<Worker>, step: nat, i: nat, next: Worker)
    requires i < |workers| && InvokedOnce(invoked, workers, step)
    requires (workers[i].Idle? && next.Waiting?) || (workers[i].Returned? && next.Written?)
    ensures InvokedOnce(invoked, workers[i := next], step)
  {
    forall d: (nat, nat) ensures Called(workers[i := next], step, d) <==> Called(workers, step, d) {
    }
  }

  lemma {:induction false} CallingTurn(invoked: seq<(nat, nat)>, workers: seq<Worker>, step: nat, i: nat, out: Outcome)
    requires i < |workers| && InvokedOnce(invoked, workers, step) && workers[i].Waiting?
    ensures InvokedOnce(invoked + [(step, i)], workers[i := Returned(out)], step)
  {
    forall d: (nat, nat)
      ensures multiset(invoked + [(step, i)])[d] == if Called(workers[i := Returned(out)], step, d) then 1 else 0
    {
      assert multiset(invoked + [(step, i)]) == multiset(invoked) + multiset{(step, i)};
      assert d != (step, i) ==> (Called(workers[i := Returned(out)], step, d) <==> Called(workers, step, d));
    }
  }

  lemma {:induction false} AllInvoked(invoked: seq<(nat, nat)>, workers: seq<Worker>, step: nat)
    requires InvokedOnce(invoked, workers, step) && forall i :: 0 <= i < |workers| ==> workers[i].Written?
    ensures multiset(invoked) == multiset(Positions(step, |workers|))
  {
    forall d: (nat, nat) ensures multiset(invoked)[d] == multiset(Positions(step, |workers|))[d] {
      PositionsCount(step, |workers|, d);
      assert Called(workers, step, d) <==> d.0 == step && d.1 < |workers|;
    }
  }

  /** Runs one worker for each call. The workers, and the loop that starts them, take
      their turns in any order: which goes next is left open. */
  method RunWorkers(w: World, step: nat, calls: seq<ToolCall>)
    returns (results: seq<ToolResult>, events: seq<Event>, invoked: seq<(nat, nat)>)
    ensures results == Results(w, step, calls)
    ensures events == Starts(step, calls)
    ensures multiset(invoked) == multiset(Positions(step, |calls|))
  {
    var n := |calls|;
    var slots := seq(n, _ => NO_RESULT);
    var workers := seq(n, _ => Idle);
    var launched, cancelled := 0, false;
    events, invoked := [], [];
    while Work(workers) > 0
      invariant InFlight(w, step, calls, workers, launched, slots) && !cancelled
      invariant events == Starts(step, calls)[..launched]
      invariant InvokedOnce(invoked, workers, step)
      decreases Work(workers)
    {
      WorkZero(workers);
      assert launched < n ==> workers[launched].Idle?;
      var i: nat :| i < n && i <= launched && !workers[i].Written?;
      TurnKeeps(w, step, calls, workers, launched, slots, i);
      match workers[i]
      case Idle =>
        WorkUpdate(workers, i, Waiting);
        QuietTurn(invoked, workers, step, i, Waiting);
        events := events + [ToolStart(step, calls[i])];
        workers := workers[i := Waiting];
        launched := launched + 1;
      case Waiting =>
        var out := w.dispatch(step, i, calls[i], cancelled);
        WorkUpdate(workers, i, Returned(out));
        CallingTurn(invoked, workers, step, i, out);
        workers := workers[i := Returned(out)];
        invoked := invoked + [(step, i)];
      case Returned(out) =>
        WorkUpdate(workers, i, Written);
        QuietTurn(invoked, workers, step, i, Written);
        slots := slots[i := ResultFrom(out, step, calls[i])];
        workers := workers[i := Written];
        // A worker returns no error, whatever its tool did, so the group is not cancelled.
        var failed := false;
        cancelled := cancelled || failed;
    }
    WorkZero(workers);
    AllInvoked(invoked, workers, step);
    results := slots;
  }

  /** Calls the tools of one reply. Whatever order the workers take, every call is
      dispatched exactly once, its result lands in its own slot, a failure stops no
      one, and the results and events are those of one call after the other. */
  method DispatchTools(w: World, step: nat, calls: seq<ToolCall>)
    returns (results: seq<ToolResult>, events: seq<Event>, invoked: seq<(nat, nat)>)
    ensures results == Results(w, step, calls)
    ensures events == Starts(step, calls) + Ends(step, results)
    ensures multiset(invoked) == multiset(Positions(step, |calls|))
  {
    if |calls| == 1 {
      var out := w.dispatch(step, 0, calls[0], false);
      var r := ResultFrom(out, step, calls[0]);
      results, events, invoked := [r], [ToolStart(step, calls[0])], [(step, 0)];
      assert invoked == Positions(step, 1);
      events := events + [ToolEnd(step, r.trace)];
      assert events == Starts(step, calls) + Ends(step, results);
      return;
    }
    results, events, invoked := RunWorkers(w, step, calls);
    ghost var ends := Ends(step, results);
    for i := 0 to |results|
      invariant events == Starts(step, calls) + ends[..i]
    {
      assert ends[..i + 1] == ends[..i] + [ToolEnd(step, results[i].trace)];
      events := events + [ToolEnd(step, results[i].trace)];
    }
    assert ends[..|results|] == ends;
  }

  /** What is still to be logged from `step` on completes `events`, `calls` and
      `dispatches` to the whole log. */
  ghost predicate Remains(log: Log, events: seq<Event>, calls: seq<LLMCall>, dispatches: seq<(nat, nat)>, rest: Log) {
    && log.events == events + rest.events
    && log.calls == calls + rest.calls
    && log.dispatches == dispatches + rest.dispatches
    && log.verdict == rest.verdict
  }

  lemma {:induction false} RemainsEnded(log: Log, events: seq<Event>, calls: seq<LLMCall>,
                                        dispatches: seq<(nat, nat)>, rest: Log)
    requires Remains(log, events, calls, dispatches, rest) && rest.dispatches == []
    ensures log == Log(events + rest.events, calls + rest.calls, dispatches, rest.verdict)
  {
  }

  /** A step that calls tools moves its share from the rest to the log. */
  lemma {:induction false} RemainsNext(w: World, c: Config, log: Log, events: seq<Event>, calls: seq<LLMCall>,
                                       dispatches: seq<(nat, nat)>, step: nat, held: seq<Message>,
                                       replies: seq<Message>)
    requires step <= c.maxSteps && CallsTools(w, step, held)
    requires Remains(log, events, calls, dispatches, Loop(w, c, step, held, replies))
    ensures var reply := w.next(step, held);
            var block := Block(w, step, reply.toolCalls);
            Remains(log,
                    events + [StepStart(step), LLMStart(step)] + [LLMEnd(step, reply)]
                    + (Starts(step, reply.toolCalls) + Ends(step, Results(w, step, reply.toolCalls))),
                    calls + [LLMCall(step, held, replies)], dispatches + Positions(step, |reply.toolCalls|),
                    Loop(w, c, step + 1, Feed(w.append, held, block), replies + block))
  {
    var reply := w.next(step, held);
    var opening, heard := [StepStart(step), LLMStart(step)], [LLMEnd(step, reply)];
    var tools := Starts(step, reply.toolCalls) + Ends(step, Results(w, step, reply.toolCalls));
    LoopEvents(w, c, step, held, replies);
    LoopCalls(w, c, step, held, replies);
    LoopEnds(w, c, step, held, replies);
    RemainsSplit(log, events, calls, dispatches, Loop(w, c, step, held, replies), opening + heard + tools,
                 [LLMCall(step, held, replies)], Positions(step, |reply.toolCalls|), Rest(w, c, step, held, replies));
    assert events + (opening + heard + tools) == events + opening + heard + tools;
  }

  lemma {:induction false} LoopEnds(w: World, c: Config, step: nat, held: seq<Message>, replies: seq<Message>)
    requires step <= c.maxSteps && CallsTools(w, step, held)
    ensures var log, rest := Loop(w, c, step, held, replies), Rest(w, c, step, held, replies);
            && log.verdict == rest.verdict
            && log.dispatches == Positions(step, |w.next(step, held).toolCalls|) + rest.dispatches
  {
  }

  /** Moving the first part of what remains to what is done. */
  lemma {:induction false} RemainsSplit(log: Log, events: seq<Event>, calls: seq<LLMCall>,
                                        dispatches: seq<(nat, nat)>, whole: Log,
                                        e: seq<Event>, call: seq<LLMCall>, d: seq<(nat, nat)>, rest: Log)
    requires Remains(log, events, calls, dispatches, whole)
    requires whole == Log(e + rest.events, call + rest.calls, d + rest.dispatches, rest.verdict)
    ensures Remains(log, events + e, calls + call, dispatches + d, rest)
  {
    assert events + (e + rest.events) == events + e + rest.events;
    assert calls + (call + rest.calls) == calls + call + rest.calls;
    assert dispatches + (d + rest.dispatches) == dispatches + d + rest.dispatches;
  }

  const DEFAULT_PROMPT := "你是企业 API 助手，只能输出结构化汇总，不泄露原始内部数据。"

  class AgentEngine {
    const maxSteps: int
    const systemPrompt: string
    var memory: seq<Message>

    ghost function Cfg(): Config { Config(maxSteps, systemPrompt) }

    constructor (maxSteps: int, systemPrompt: string)
      ensures this.maxSteps == if maxSteps > 0 then maxSteps else 10
      ensures this.systemPrompt == if systemPrompt != "" then systemPrompt else DEFAULT_PROMPT
    {
      this.maxSteps := if maxSteps > 0 then maxSteps else 10;
      this.systemPrompt := if systemPrompt != "" then systemPrompt else DEFAULT_PROMPT;
      memory := [];
    }

    /** The loop. Its log is that of the specification; the tools were dispatched in
        some order, each call of the log once. */
    method RunCore(w: World, query: string) returns (log: Log, invoked: seq<(nat, nat)>)
      modifies this
      ensures log == RunLog(w, Cfg(), query)
      ensures multiset(invoked) == multiset(log.dispatches)
    {
      memory := [];
      memory := w.append(memory, SystemMessage(systemPrompt));
      memory := w.append(memory, UserMessage(query));
      FeedTwo(w.append, SystemMessage(systemPrompt), UserMessage(query));
      ghost var spec := RunLog(w, Cfg(), query);
      var events, calls, dispatches, replies := [], [], [], [];
      invoked := [];
      var step: nat := 1;
      while step <= maxSteps
        invariant Remains(spec, events, calls, dispatches, Loop(w, Cfg(), step, memory, replies))
        invariant multiset(invoked) == multiset(dispatches)
        decreases maxSteps - step
      {
        ghost var held := memory;
        ghost var calls0, rest := calls, Loop(w, Cfg(), step, memory, replies);
        calls := calls + [LLMCall(step, memory, replies)];
        var verdict, stepEvents, made, toolCalls := RunStep(w, step, replies);
        if verdict.Some? {
          RemainsEnded(spec, events, calls0, dispatches, rest);
          log := Log(events + stepEvents, calls, dispatches, verdict.value);
          return;
        }
        RemainsNext(w, Cfg(), spec, events, calls0, dispatches, step, held, replies);
        events := events + stepEvents;
        invoked := invoked + made;
        dispatches := dispatches + Positions(step, |toolCalls|);
        replies := replies + Block(w, step, toolCalls);
        step := step + 1;
      }
      var msg := "agent stopped: reached max steps (" + IntString(maxSteps) + ")";
      RemainsEnded(spec, events, calls, dispatches, Loop(w, Cfg(), step, memory, replies));
      log := Log(events + [Complete(msg)], calls, dispatches, Answer(msg));
    }

    /** One step: it ends the run with a verdict, or calls tools and remembers them. */
    method RunStep(w: World, step: nat, ghost replies: seq<Message>)
      returns (verdict: Option<Verdict>, events: seq<Event>, invoked: seq<(nat, nat)>, toolCalls: seq<ToolCall>)
      requires step <= maxSteps
      modifies this
      ensures verdict.None? <==> CallsTools(w, step, old(memory))
      ensures verdict.Some? ==>
                Loop(w, Cfg(), step, old(memory), replies)
                == Log(events, [LLMCall(step, old(memory), replies)], [], verdict.value)
      ensures verdict.Some? ==> verdict.value == VerdictOf(w, Cfg(), [LLMCall(step, old(memory), replies)])
      ensures verdict.None? ==>
                var reply := w.next(step, old(memory));
                && toolCalls == reply.toolCalls
                && events == [StepStart(step), LLMStart(step)] + [LLMEnd(step, reply)]
                             + (Starts(step, toolCalls) + Ends(step, Results(w, step, toolCalls)))
                && memory == Feed(w.append, old(memory), Block(w, step, toolCalls))
                && multiset(invoked) == multiset(Positions(step, |toolCalls|))
    {
      events, invoked, toolCalls := [StepStart(step), LLMStart(step)], [], [];
      if !CallsTools(w, step, memory) {
        LastConcludes(w, Cfg(), step, memory, replies);
      }
      var reply := w.next(step, memory);
      if reply.LLMError? {
        var wrapped := "llm next failed: " + reply.msg;
        events := events + [Error(step, wrapped)];
        return Some(Failure(wrapped)), events, invoked, toolCalls;
      }
      events := events + [LLMEnd(step, reply)];
      toolCalls := reply.toolCalls;
      if |toolCalls| == 0 {
        var content := reply.content;
        if content == "" {
          content := EMPTY_ANSWER;
        }
        events := events + [Complete(content)];
        return Some(Answer(content)), events, invoked, toolCalls;
      }
      for i := 0 to |toolCalls|
        invariant FirstUnknown(w, step, toolCalls, 0) == FirstUnknown(w, step, toolCalls, i)
      {
        if !w.has(step, toolCalls[i].name) {
          var msg := "unknown tool: " + toolCalls[i].name;
          events := events + [Error(step, msg)];
          return Some(Failure(msg)), events, invoked, toolCalls;
        }
      }
      var results, toolEvents, made := DispatchTools(w, step, toolCalls);
      Remember(w, AssistantMessage(toolCalls), results);
      return None, events + toolEvents, made, toolCalls;
    }

    method Remember(w: World, assistant: Message, results: seq<ToolResult>)
      modifies this
      ensures memory == Feed(w.append, old(memory), [assistant] + ToolMessages(results))
    {
      ghost var all := [assistant] + ToolMessages(results);
      memory := w.append(memory, assistant);
      FeedOne(w.append, old(memory), assistant);
      assert all[..1] == [assistant];
      for i := 0 to |results|
        invariant memory == Feed(w.append, old(memory), all[..i + 1])
      {
        assert all[..i + 2] == all[..i + 1] + [ToolMessage(results[i].callId, results[i].content)];
        FeedSnoc(w.append, old(memory), all[..i + 1], ToolMessage(results[i].callId, results[i].content));
        memory := w.append(memory, ToolMessage(results[i].callId, results[i].content));
      }
      assert all[..|results| + 1] == all;
    }

    /** What a caller gets: the answer the model's calls lead to, with the traces of all
        dispatched tool calls attached, or the error. */
    method Run(w: World, query: string) returns (outcome: Verdict)
      modifies this
      ensures var calls := RunLog(w, Cfg(), query).calls;
              match VerdictOf(w, Cfg(), calls)
              case Answer(text) => outcome == Answer(Attach(text, Traced(w, calls)))
              case Failure(msg) => outcome == Failure(msg)
    {
      RunConcludes(w, Cfg(), query);
      LoopTraces(w, Cfg(), 1, Feed(w.append, [], Opening(Cfg(), query)), []);
      var log, _ := RunCore(w, query);
      if log.verdict.Failure? {
        return log.verdict;
      }
      var text := AttachToolTraceSummary(log.verdict.text, TracesOf(log.events));
      return Answer(text);
    }
  }
}

/** The agent loop's bookkeeping (src/domain/agent-loop.ts, `executeLoop`): messages, steps, tool calls, token
    totals and the finish reason, over rounds whose model answers, tool results and aborts are arbitrary. */
module AgentLoop {
  import opened Optional

  datatype Role = System | User | Assistant | Tool
  datatype Args = Parsed(text: string) | Raw(text: string)
  datatype ToolCall = ToolCall(id: string, name: string, args: Args)
  datatype Message = Message(role: Role, content: string, toolCalls: seq<ToolCall>, toolCallId: string)

  datatype StepRecord = TextDelta(content: string) | ToolStep(id: string, name: string, output: string)

  /** A tool call as the model wrote it. */
  datatype RawCall = RawCall(id: string, name: string, arguments: string)
  datatype Usage = Usage(prompt: nat, completion: nat)

  /** One attempt at a model response. */
  datatype Attempt = Aborted | Failed | Responded(content: string, calls: seq<RawCall>, usage: Usage)

  datatype Reason = Stop | MaxSteps | Error | AbortedRun

  /** How a round ended. */
  datatype End =
    | Completed       // every tool call has its result
    | CutShort        // aborted between two tool calls
    | Answered        // text, no tool calls
    | Empty           // neither, after the retries
    | Lost(aborted: bool) // aborted or failed before there was a response

  datatype Round = Round(content: string, calls: seq<ToolCall>, results: seq<string>, end: End, usage: Usage)

  /** The tokens a response counts for: what the provider reported, or a quarter of the characters, rounded up. */
  function Counted(reported: Usage, promptChars: nat, content: string): Usage {
    if reported.prompt > 0 || reported.completion > 0 then reported
    else Usage((promptChars + 3) / 4, (|content| + 3) / 4)
  }

  /** The foreign functions: argument parsing, in-band extraction, blank text, and the length of a history. */
  datatype Text = Text(
    parse: string -> Option<string>, extract: string -> (seq<RawCall>, string), blank: string -> bool,
    chars: seq<Message> -> nat)

  // ---- What a run should leave

  function ToolMessages(calls: seq<ToolCall>, results: seq<string>): (ms: seq<Message>)
    requires |results| <= |calls|
    ensures |ms| == |results|
  {
    seq(|results|, i requires 0 <= i < |results| => Message(Tool, results[i], [], calls[i].id))
  }

  predicate RoundOk(r: Round) {
    match r.end
    case Completed => r.calls != [] && |r.results| == |r.calls|
    case CutShort => |r.results| < |r.calls|
    case Answered => r.calls == [] && r.results == [] && r.content != ""
    case Empty => r.calls == [] && r.results == []
    case Lost(_) => r.calls == [] && r.results == [] && r.usage == Usage(0, 0)
  }

  /** The messages of one round. */
  function Rendered(r: Round): seq<Message>
    requires RoundOk(r)
  {
    match r.end
    case Completed => [Message(Assistant, r.content, r.calls, "")] + ToolMessages(r.calls, r.results)
    case CutShort => [Message(Assistant, r.content, r.calls, "")] + ToolMessages(r.calls, r.results)
    case Answered => [Message(Assistant, r.content, [], "")]
    case Empty => []
    case Lost(_) => []
  }

  predicate RoundsOk(rounds: seq<Round>) {
    && (forall i :: 0 <= i < |rounds| ==> RoundOk(rounds[i]))
    && (forall i :: 0 <= i < |rounds| - 1 ==> rounds[i].end.Completed?)
  }

  predicate AllCompleted(rounds: seq<Round>) {
    forall i :: 0 <= i < |rounds| ==> rounds[i].end.Completed?
  }

  function RenderedAll(rounds: seq<Round>): seq<Message>
    requires forall i :: 0 <= i < |rounds| ==> RoundOk(rounds[i])
  {
    if rounds == [] then [] else RenderedAll(rounds[..|rounds| - 1]) + Rendered(rounds[|rounds| - 1])
  }

  function CallsOf(rounds: seq<Round>): seq<ToolCall> {
    if rounds == [] then [] else CallsOf(rounds[..|rounds| - 1]) + rounds[|rounds| - 1].calls
  }

  function TotalOf(rounds: seq<Round>): Usage {
    if rounds == [] then Usage(0, 0)
    else
      var before, u := TotalOf(rounds[..|rounds| - 1]), rounds[|rounds| - 1].usage;
      Usage(before.prompt + u.prompt, before.completion + u.completion)
  }

  /** The prompt size of the last round that had a response. */
  function LastContext(rounds: seq<Round>): nat {
    if rounds == [] then 0
    else if rounds[|rounds| - 1].end.Lost? then LastContext(rounds[..|rounds| - 1])
    else rounds[|rounds| - 1].usage.prompt
  }

  /** The tool steps among the records are the tool messages, in order. */
  function ToolIds(steps: seq<StepRecord>): seq<string> {
    if steps == [] then []
    else
      var last := steps[|steps| - 1];
      ToolIds(steps[..|steps| - 1]) + if last.ToolStep? then [last.id] else []
  }

  function AnsweredIds(messages: seq<Message>): seq<string> {
    if messages == [] then []
    else
      var last := messages[|messages| - 1];
      AnsweredIds(messages[..|messages| - 1]) + if last.role.Tool? then [last.toolCallId] else []
  }

  /** The finish reason of a run, from its rounds alone. */
  function ReasonOf(rounds: seq<Round>): Reason {
    if rounds == [] then Stop
    else
      match rounds[|rounds| - 1].end
      case Completed => MaxSteps
      case CutShort => AbortedRun
      case Answered => Stop
      case Empty => Error
      case Lost(aborted) => if aborted then AbortedRun else Error
  }

  // ---- The loop

  /** What the loop keeps; of the steps, the ids of the tool steps. */
  datatype Log = Log(messages: seq<Message>, calls: seq<ToolCall>, total: Usage, context: nat, toolIds: seq<string>)

  /** The lists and totals are those of the rounds. */
  predicate Recorded(base: seq<Message>, log: Log, rounds: seq<Round>)
    requires forall i :: 0 <= i < |rounds| ==> RoundOk(rounds[i])
  {
    && log.messages == base + RenderedAll(rounds)
    && log.calls == CallsOf(rounds) && log.total == TotalOf(rounds) && log.context == LastContext(rounds)
    && log.toolIds == AnsweredIds(RenderedAll(rounds))
  }

  /** The log after one more round. */
  function Extended(log: Log, r: Round): Log
    requires RoundOk(r)
  {
    Log(log.messages + Rendered(r), log.calls + r.calls,
        Usage(log.total.prompt + r.usage.prompt, log.total.completion + r.usage.completion),
        if r.end.Lost? then log.context else r.usage.prompt,
        log.toolIds + AnsweredIds(Rendered(r)))
  }

  class Conversation {
    const text: Text
    var messages: seq<Message>
    var steps: seq<StepRecord>
    var allToolCalls: seq<ToolCall>
    var total: Usage
    var contextTokens: nat

    function Kept(): Log reads this {
      Log(messages, allToolCalls, total, contextTokens, ToolIds(steps))
    }

    constructor (text: Text, messages: seq<Message>)
      ensures this.text == text && this.messages == messages
    {
      this.text, this.messages := text, messages;
      steps, allToolCalls, total, contextTokens := [], [], Usage(0, 0), 0;
    }

    /** Streams attempts until one is neither empty nor worth another try (two retries). */
    method Ask() returns (answer: Attempt)
      modifies this`steps
      ensures ToolIds(steps) == old(ToolIds(steps))
    {
      var emptyAttempt := 0;
      while true
        invariant emptyAttempt <= 2
        invariant ToolIds(steps) == old(ToolIds(steps))
        decreases 2 - emptyAttempt
      {
        answer := *;
        var deltas: seq<string> := *;
        PushDeltas(deltas);
        if !answer.Responded? {
          return;
        }
        if answer.calls == [] && answer.content != "" {
          var (calls, remaining) := text.extract(answer.content);
          if calls != [] {
            answer := Responded(remaining, calls, answer.usage);
          }
        }
        var aborted: bool := *;
        if !IsEmpty(answer) || emptyAttempt >= 2 || aborted {
          return;
        }
        emptyAttempt := emptyAttempt + 1;
      }
    }

    predicate IsEmpty(answer: Attempt)
      requires answer.Responded?
    {
      (answer.content == "" || text.blank(answer.content)) && answer.calls == []
    }

    method PushDeltas(deltas: seq<string>)
      modifies this`steps
      ensures ToolIds(steps) == old(ToolIds(steps))
    {
      for i := 0 to |deltas|
        invariant ToolIds(steps) == old(ToolIds(steps))
      {
        assert (steps + [TextDelta(deltas[i])])[..|steps|] == steps;
        steps := steps + [TextDelta(deltas[i])];
      }
    }

    function ParsedCall(c: RawCall): ToolCall {
      var args := text.parse(c.arguments);
      ToolCall(c.id, c.name, if args.Some? then Parsed(args.value) else Raw(c.arguments))
    }

    function ParsedCalls(calls: seq<RawCall>): (r: seq<ToolCall>)
      ensures |r| == |calls| && forall i :: 0 <= i < |calls| ==> r[i].id == calls[i].id
    {
      seq(|calls|, i requires 0 <= i < |calls| => ParsedCall(calls[i]))
    }

    /** Runs the calls in order; an abort is noticed before a call. */
    method RunTools(rawCalls: seq<RawCall>) returns (results: seq<string>)
      modifies this`messages, this`steps
      ensures |results| <= |rawCalls|
      ensures messages == old(messages) + ToolMessages(ParsedCalls(rawCalls), results)
      ensures ToolIds(steps) == old(ToolIds(steps)) + IdsOf(ParsedCalls(rawCalls)[..|results|])
    {
      ghost var calls := ParsedCalls(rawCalls);
      results := [];
      while |results| < |rawCalls|
        invariant |results| <= |rawCalls|
        invariant messages == old(messages) + ToolMessages(calls, results)
        invariant ToolIds(steps) == old(ToolIds(steps)) + IdsOf(calls[..|results|])
        decreases |rawCalls| - |results|
      {
        var aborted: bool, output: string := *, *;
        if aborted {
          return;
        }
        var tc := rawCalls[|results|];
        var step := ToolStep(tc.id, tc.name, output);
        OneMore(old(messages), calls, results, output);
        IdsMore(calls, |results|);
        assert (steps + [step])[..|steps|] == steps;
        messages := messages + [Message(Tool, output, [], tc.id)];
        steps := steps + [step];
        results := results + [output];
      }
    }

    /** The whole loop over at most `maxSteps` rounds. */
    method Run(maxSteps: nat, systemPrompt: string) returns (reason: Reason, ghost rounds: seq<Round>)
      modifies this
      ensures RoundsOk(rounds) && |rounds| <= maxSteps
      ensures Recorded(WithSystem(old(messages), systemPrompt), Kept(), rounds)
      ensures reason == ReasonOf(rounds)
      ensures reason == MaxSteps <==> |rounds| == maxSteps > 0 && rounds[|rounds| - 1].end.Completed?
    {
      messages := WithSystem(messages, systemPrompt);
      steps, allToolCalls, total, contextTokens, rounds := [], [], Usage(0, 0), 0, [];
      reason := Stop;
      var hitMaxSteps := false;
      var step := 0;
      ghost var base := messages;
      assert base + [] == base;
      while step < maxSteps
        invariant 0 <= step <= maxSteps && |rounds| == step
        invariant (forall i :: 0 <= i < |rounds| ==> RoundOk(rounds[i])) && AllCompleted(rounds)
        invariant Recorded(base, Kept(), rounds)
        invariant hitMaxSteps <==> step == maxSteps > 0
        invariant reason == Stop
      {
        ghost var log, before := Kept(), rounds;
        var again;
        ghost var r;
        again, reason, r := OneRound();
        RoundAdded(base, log, before, r);
        rounds := before + [r];
        if !again {
          return;
        }
        if step + 1 >= maxSteps {
          hitMaxSteps := true;
        }
        step := step + 1;
      }
      if hitMaxSteps {
        reason := MaxSteps;
      }
    }

    /** One round; `again` says that the loop goes on. */
    method OneRound() returns (again: bool, reason: Reason, ghost r: Round)
      modifies this
      ensures RoundOk(r) && (again <==> r.end.Completed?)
      ensures Kept() == Extended(old(Kept()), r)
      ensures !r.end.Lost? ==> exists reported :: r.usage == Counted(reported, text.chars(old(messages)), r.content)
      ensures reason == if r.end.Completed? then Stop else ReasonOf([r])
    {
      var aborted: bool, unresolved: bool := *, *;
      if aborted || unresolved {
        LostExtends(Kept(), aborted);
        return false, if aborted then AbortedRun else Error, Round("", [], [], Lost(aborted), Usage(0, 0));
      }
      var prompt := text.chars(messages);
      var answer := Ask();
      if !answer.Responded? {
        LostExtends(Kept(), answer.Aborted?);
        return false, if answer.Aborted? then AbortedRun else Error, Round("", [], [], Lost(answer.Aborted?), Usage(0, 0));
      }
      var usage := Counted(answer.usage, prompt, answer.content);
      total, contextTokens := Usage(total.prompt + usage.prompt, total.completion + usage.completion), usage.prompt;
      if IsEmpty(answer) {
        EmptyExtends(old(Kept()), answer.content, usage);
        return false, Error, Round(answer.content, [], [], Empty, usage);
      }
      if answer.calls == [] {
        messages := messages + [Message(Assistant, answer.content, [], "")];
        NoIds(Message(Assistant, answer.content, [], ""));
        return false, Stop, Round(answer.content, [], [], Answered, usage);
      }
      again, r := ToolRound(answer.content, answer.calls, usage);
      reason := if again then Stop else AbortedRun;
    }

    /** A round whose answer has tool calls. */
    method ToolRound(content: string, rawCalls: seq<RawCall>, ghost usage: Usage) returns (again: bool, ghost r: Round)
      requires rawCalls != []
      modifies this`messages, this`steps, this`allToolCalls
      ensures RoundOk(r) && r.end == (if again then Completed else CutShort) && r.usage == usage && r.content == content
      ensures messages == old(messages) + Rendered(r)
      ensures allToolCalls == old(allToolCalls) + r.calls
      ensures ToolIds(steps) == old(ToolIds(steps)) + AnsweredIds(Rendered(r))
    {
      var calls := ParsedCalls(rawCalls);
      var assistant := Message(Assistant, content, calls, "");
      allToolCalls := allToolCalls + calls;
      messages := messages + [assistant];
      var results := RunTools(rawCalls);
      again := |results| == |rawCalls|;
      r := Round(content, calls, results, if again then Completed else CutShort, usage);
      RoundIds(assistant, calls, results);
      Regroup(old(messages), [assistant], ToolMessages(calls, results));
    }
  }

  function WithSystem(messages: seq<Message>, prompt: string): seq<Message> {
    if prompt != "" && messages != [] && !messages[0].role.System? then [Message(System, prompt, [], "")] + messages
    else messages
  }

  function IdsOf(calls: seq<ToolCall>): seq<string> {
    seq(|calls|, i requires 0 <= i < |calls| => calls[i].id)
  }

  lemma OneMore(base: seq<Message>, calls: seq<ToolCall>, results: seq<string>, output: string)
    requires |results| < |calls|
    ensures (base + ToolMessages(calls, results)) + [Message(Tool, output, [], calls[|results|].id)]
         == base + ToolMessages(calls, results + [output])
  {
    assert ToolMessages(calls, results + [output])
        == ToolMessages(calls, results) + [Message(Tool, output, [], calls[|results|].id)];
  }

  lemma IdsMore(calls: seq<ToolCall>, n: nat)
    requires n < |calls|
    ensures IdsOf(calls[..n + 1]) == IdsOf(calls[..n]) + [calls[n].id]
  {
  }

  lemma Regroup(x: seq<Message>, y: seq<Message>, z: seq<Message>)
    ensures (x + y) + z == x + (y + z)
  {
  }

  lemma NoIds(m: Message)
    requires !m.role.Tool?
    ensures AnsweredIds([m]) == []
  {
    assert [m][..0] == [];
  }

  lemma {:induction false} AnsweredConcat(x: seq<Message>, y: seq<Message>)
    ensures AnsweredIds(x + y) == AnsweredIds(x) + AnsweredIds(y)
  {
    if y == [] {
      assert x + y == x;
    } else {
      assert (x + y)[..|x + y| - 1] == x + y[..|y| - 1];
      AnsweredConcat(x, y[..|y| - 1]);
    }
  }

  lemma {:induction false} ToolMessageIds(calls: seq<ToolCall>, results: seq<string>)
    requires |results| <= |calls|
    ensures AnsweredIds(ToolMessages(calls, results)) == IdsOf(calls[..|results|])
  {
    if results != [] {
      var n := |results| - 1;
      ToolMessageIds(calls, results[..n]);
      assert ToolMessages(calls, results)[..n] == ToolMessages(calls, results[..n]);
      IdsMore(calls, n);
    }
  }

  lemma RoundIds(m: Message, calls: seq<ToolCall>, results: seq<string>)
    requires !m.role.Tool? && |results| <= |calls|
    ensures AnsweredIds([m] + ToolMessages(calls, results)) == IdsOf(calls[..|results|])
  {
    AnsweredConcat([m], ToolMessages(calls, results));
    NoIds(m);
    ToolMessageIds(calls, results);
  }

  lemma {:induction false} LostExtends(log: Log, aborted: bool)
    ensures Extended(log, Round("", [], [], Lost(aborted), Usage(0, 0))) == log
  {
    assert log.messages + [] == log.messages && log.calls + [] == log.calls && log.toolIds + [] == log.toolIds;
  }

  lemma {:induction false} EmptyExtends(log: Log, content: string, usage: Usage)
    requires RoundOk(Round(content, [], [], Empty, usage))
    ensures Extended(log, Round(content, [], [], Empty, usage)) ==
              log.(total := Usage(log.total.prompt + usage.prompt, log.total.completion + usage.completion), context := usage.prompt)
  {
    assert log.messages + [] == log.messages && log.calls + [] == log.calls && log.toolIds + [] == log.toolIds;
  }

  lemma {:induction false} RoundAdded(base: seq<Message>, log: Log, rounds: seq<Round>, r: Round)
    requires RoundOk(r) && (forall i :: 0 <= i < |rounds| ==> RoundOk(rounds[i])) && AllCompleted(rounds)
    requires Recorded(base, log, rounds)
    ensures RoundsOk(rounds + [r]) && (AllCompleted(rounds + [r]) <==> r.end.Completed?)
    ensures Recorded(base, Extended(log, r), rounds + [r])
    ensures ReasonOf(rounds + [r]) == ReasonOf([r])
  {
    RoundsFollow(rounds, r);
    RoundRecorded(base, log, rounds, r);
  }

  lemma {:induction false} RoundsFollow(rounds: seq<Round>, r: Round)
    requires RoundOk(r) && (forall i :: 0 <= i < |rounds| ==> RoundOk(rounds[i])) && AllCompleted(rounds)
    ensures RoundsOk(rounds + [r]) && (AllCompleted(rounds + [r]) <==> r.end.Completed?)
    ensures ReasonOf(rounds + [r]) == ReasonOf([r])
  {
    var all := rounds + [r];
    assert forall i :: 0 <= i < |rounds| ==> all[i] == rounds[i];
    assert all[|rounds|] == r;
  }

  lemma {:induction false} RoundRecorded(base: seq<Message>, log: Log, rounds: seq<Round>, r: Round)
    requires RoundOk(r) && (forall i :: 0 <= i < |rounds| ==> RoundOk(rounds[i])) && Recorded(base, log, rounds)
    ensures (forall i :: 0 <= i < |rounds + [r]| ==> RoundOk((rounds + [r])[i])) && Recorded(base, Extended(log, r), rounds + [r])
  {
    RoundsAppend(rounds, r);
    var was, more := RenderedAll(rounds), Rendered(r);
    AnsweredConcat(was, more);
    Regroup(base, was, more);
    assert RenderedAll(rounds + [r]) == was + more;
  }

  lemma RoundsAppend(rounds: seq<Round>, r: Round)
    requires RoundOk(r) && forall i :: 0 <= i < |rounds| ==> RoundOk(rounds[i])
    ensures var all := rounds + [r];
            && (forall i :: 0 <= i < |all| ==> RoundOk(all[i]))
            && RenderedAll(all) == RenderedAll(rounds) + Rendered(r)
            && CallsOf(all) == CallsOf(rounds) + r.calls
            && TotalOf(all) == Usage(TotalOf(rounds).prompt + r.usage.prompt, TotalOf(rounds).completion + r.usage.completion)
            && LastContext(all) == if r.end.Lost? then LastContext(rounds) else r.usage.prompt
  {
    assert (rounds + [r])[..|rounds|] == rounds;
  }

  // ---- What the rendering means for a reader of the messages

  /** An assistant message with tool calls is followed directly by one tool message per call, in order and
      with the calls' ids; only the end of the messages may cut the block short. */
  predicate BlockAt(ms: seq<Message>, i: nat)
    requires i < |ms|
  {
    ms[i].toolCalls != [] ==>
      && ms[i].role.Assistant?
      && forall k :: i < k <= i + |ms[i].toolCalls| && k < |ms| ==>
           ms[k].role.Tool? && ms[k].toolCallId == ms[i].toolCalls[k - i - 1].id
  }

  /** The block at `i` is all there. */
  predicate WholeAt(ms: seq<Message>, i: nat)
    requires i < |ms|
  {
    i + |ms[i].toolCalls| < |ms|
  }

  lemma BlockKept(before: seq<Message>, last: seq<Message>, i: nat)
    requires i < |before| && BlockAt(before, i) && WholeAt(before, i)
    ensures BlockAt(before + last, i) && WholeAt(before + last, i)
  {
    var ms := before + last;
    assert ms[i] == before[i];
    assert forall k :: i < k <= i + |ms[i].toolCalls| ==> ms[k] == before[k];
  }

  lemma BlockOfRound(before: seq<Message>, r: Round, i: nat)
    requires RoundOk(r) && |before| <= i < |before + Rendered(r)|
    ensures BlockAt(before + Rendered(r), i)
    ensures WholeAt(before + Rendered(r), i) <==> !(i == |before| && r.end.CutShort?)
  {
    var last := Rendered(r);
    var ms := before + last;
    assert ms[i] == last[i - |before|];
    if i == |before| && last[0].toolCalls != [] {
      assert forall k :: i < k < |ms| ==> ms[k] == last[k - |before|];
    }
  }

  lemma {:induction false} BlocksWhole(rounds: seq<Round>)
    requires AllCompleted(rounds) && forall i :: 0 <= i < |rounds| ==> RoundOk(rounds[i])
    ensures forall i :: 0 <= i < |RenderedAll(rounds)| ==> BlockAt(RenderedAll(rounds), i) && WholeAt(RenderedAll(rounds), i)
  {
    if rounds != [] {
      var before, r := RenderedAll(rounds[..|rounds| - 1]), rounds[|rounds| - 1];
      BlocksWhole(rounds[..|rounds| - 1]);
      BlocksExtended(before, r);
    }
  }

  lemma BlocksExtended(before: seq<Message>, r: Round)
    requires RoundOk(r) && forall i :: 0 <= i < |before| ==> BlockAt(before, i) && WholeAt(before, i)
    ensures var ms := before + Rendered(r);
            forall i :: 0 <= i < |ms| ==> BlockAt(ms, i) && (WholeAt(ms, i) <==> !(i == |before| && r.end.CutShort?))
  {
    var ms := before + Rendered(r);
    forall i | 0 <= i < |ms| ensures BlockAt(ms, i) && (WholeAt(ms, i) <==> !(i == |before| && r.end.CutShort?)) {
      if i < |before| {
        BlockKept(before, Rendered(r), i);
      } else {
        BlockOfRound(before, r, i);
      }
    }
  }

  /** In every run each block follows its assistant message; all are whole unless the run was cut short
      between two tool calls, and then only the last one is not. */
  lemma BlocksFollow(rounds: seq<Round>)
    requires RoundsOk(rounds)
    ensures forall i :: 0 <= i < |RenderedAll(rounds)| ==> BlockAt(RenderedAll(rounds), i)
    ensures (forall i :: 0 <= i < |RenderedAll(rounds)| ==> WholeAt(RenderedAll(rounds), i))
       <==> rounds == [] || !rounds[|rounds| - 1].end.CutShort?
  {
    if rounds != [] {
      var before, r := RenderedAll(rounds[..|rounds| - 1]), rounds[|rounds| - 1];
      BlocksWhole(rounds[..|rounds| - 1]);
      BlocksExtended(before, r);
      assert RenderedAll(rounds) == before + Rendered(r);
      if r.end.CutShort? {
        assert !WholeAt(RenderedAll(rounds), |before|);
      } else {
        assert forall i :: 0 <= i < |RenderedAll(rounds)| ==> WholeAt(RenderedAll(rounds), i);
      }
    }
  }
}

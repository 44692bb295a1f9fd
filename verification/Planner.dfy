/** The ReAct loop: ask the LLM, run the tools it asks for, append everything to the conversation memory. */
module Planner {
  import opened Wrappers
  import opened Messages
  import opened Eviction
  import opened Memory
  import opened Outbound

  /** What comes back for one request: it may itself raise; an empty or malformed response has no choices. */
  datatype Reply =
    | RequestRaised
    | NoChoices
    | Choice(stop: bool, content: string, reasoning: string, toolCalls: seq<ToolCall>)

  /** Running one call: undecodable arguments and failing tools both raise. job: the result carries a job id. */
  datatype ToolOutcome = Raised | Returned(text: string, job: bool)

  /**
    Everything outside the loop, per iteration and per call within it: the LLM, the tools, the ids generated for calls
    that came without one, and the system prompt.
   */
  datatype Environment = Environment(reply: nat -> Reply, tool: (nat, nat) -> ToolOutcome, newId: (nat, nat) -> string,
                                     prompt: nat -> string)

  datatype Answer = Text(text: string) | AsyncSubmission(iteration: nat, call: nat) | Failure

  // ----- what one iteration adds to the conversation

  function AssistantText(reply: Reply): string
    requires reply.Choice?
  {
    if reply.content == "" then reply.reasoning else reply.content
  }

  function CallId(env: Environment, i: nat, j: nat, call: ToolCall): Option<string> {
    if call.id.Some? then call.id else Some(env.newId(i, j))
  }

  /** The tool messages of iteration i from call j on, up to the first call that raises. */
  function Results(env: Environment, i: nat, calls: seq<ToolCall>, j: nat, maxChars: int): seq<Message>
    requires j <= |calls|
    decreases |calls| - j
  {
    if j == |calls| || env.tool(i, j).Raised? then []
    else
      [ToolMessage(calls[j].name, Truncate(env.tool(i, j).text, maxChars), CallId(env, i, j, calls[j]))]
      + Results(env, i, calls, j + 1, maxChars)
  }

  function Group(env: Environment, i: nat, maxChars: int): seq<Message> {
    var reply := env.reply(i);
    if !reply.Choice? then []
    else if reply.toolCalls != [] then
      [AssistantMessage(AssistantText(reply), reply.toolCalls)] + Results(env, i, reply.toolCalls, 0, maxChars)
    else if AssistantText(reply) != "" then [AssistantMessage(AssistantText(reply), [])]
    else []
  }

  /** The messages of a whole turn after n iterations. */
  function Transcript(env: Environment, user: string, maxChars: int, n: nat): seq<Message> {
    if n == 0 then [UserMessage(user)]
    else Transcript(env, user, maxChars, n - 1) + Group(env, n - 1, maxChars)
  }

  /** The bounded history after n iterations of a turn that started from h. */
  function HistoryAfter(h: seq<Message>, env: Environment, user: string, maxChars: int, max: int,
                        n: nat): seq<Message> {
    AddAll(h, Transcript(env, user, maxChars, n), max)
  }

  lemma FirstMessage(h: seq<Message>, env: Environment, user: string, maxChars: int, max: int)
    ensures HistoryAfter(h, env, user, maxChars, max, 0) == Evict(h + [UserMessage(user)], max)
  {
    AddOne(h, [], UserMessage(user), max);
    assert [] + [UserMessage(user)] == Transcript(env, user, maxChars, 0);
  }

  lemma NextGroup(h: seq<Message>, env: Environment, user: string, maxChars: int, max: int, n: nat)
    ensures HistoryAfter(h, env, user, maxChars, max, n + 1)
         == AddAll(HistoryAfter(h, env, user, maxChars, max, n), Group(env, n, maxChars), max)
  {
    AddAllConcat(h, Transcript(env, user, maxChars, n), Group(env, n, maxChars), max);
  }

  predicate Raises(env: Environment, i: nat) {
    env.reply(i).Choice? && exists j | 0 <= j < |env.reply(i).toolCalls| :: env.tool(i, j).Raised?
  }

  predicate IsSubmission(env: Environment, i: nat, j: nat, call: ToolCall) {
    (call.name == "submit_job" || call.name == "run_eda_flow") && env.tool(i, j).Returned? && env.tool(i, j).job
  }

  predicate Submits(env: Environment, i: nat) {
    env.reply(i).Choice? &&
    exists j | 0 <= j < |env.reply(i).toolCalls| :: IsSubmission(env, i, j, env.reply(i).toolCalls[j])
  }

  /** Call j of iteration i is the last one that submitted a job. */
  predicate LastSubmission(env: Environment, i: nat, j: nat) {
    && env.reply(i).Choice? && j < |env.reply(i).toolCalls|
    && IsSubmission(env, i, j, env.reply(i).toolCalls[j])
    && forall k | j < k < |env.reply(i).toolCalls| :: !IsSubmission(env, i, k, env.reply(i).toolCalls[k])
  }

  /** Iteration i ran tools, and none of them ended the turn. */
  predicate OnlyTools(env: Environment, i: nat) {
    env.reply(i).Choice? && env.reply(i).toolCalls != [] && !Raises(env, i) && !Submits(env, i)
  }

  /** Whether another request follows iteration i. */
  predicate Continues(env: Environment, i: nat) {
    OnlyTools(env, i) && !env.reply(i).stop
  }

  function LastAssistantText(h: seq<Message>): string {
    if h == [] then ""
    else
      var m := h[|h| - 1];
      if m.role == Assistant && m.content != "" then m.content else LastAssistantText(h[..|h| - 1])
  }

  /** The text of the latest assistant message that has any. */
  lemma {:induction false} LastTextMeans(h: seq<Message>) returns (k: nat)
    ensures k <= |h| && forall i | k <= i < |h| :: h[i].role != Assistant || h[i].content == ""
    ensures if k == 0 then LastAssistantText(h) == ""
            else h[k - 1].role == Assistant && h[k - 1].content != "" && LastAssistantText(h) == h[k - 1].content
    decreases |h|
  {
    if h == [] {
      k := 0;
    } else {
      var m := h[|h| - 1];
      if m.role == Assistant && m.content != "" {
        k := |h|;
      } else {
        k := LastTextMeans(h[..|h| - 1]);
        assert forall i | 0 <= i < |h| - 1 :: h[..|h| - 1][i] == h[i];
      }
    }
  }

  // ----- what an iteration adds and how it ends, in terms of replies and tool outcomes

  /** m is the tool message for call j of iteration i: what the tool returned, under the call's name and id. */
  ghost predicate IsResult(env: Environment, i: nat, j: nat, call: ToolCall, maxChars: int, m: Message) {
    && env.tool(i, j).Returned?
    && m == Message(Tool, Truncate(env.tool(i, j).text, maxChars), Some(call.name),
                    if call.id.Some? then call.id else Some(env.newId(i, j)), [])
  }

  /**
    The messages of one iteration: the text, which is the reasoning if there is no content, with the calls; behind it
    the result of each call up to the first that raises, under the call's name and its id, or a new one if it has none.
   */
  lemma GroupMeans(env: Environment, i: nat, maxChars: int)
    ensures !env.reply(i).Choice? ==> Group(env, i, maxChars) == []
    ensures env.reply(i).Choice? ==>
              var reply, g := env.reply(i), Group(env, i, maxChars);
              var said := if reply.content != "" then reply.content else reply.reasoning;
              if reply.toolCalls == [] then
                g == if said != "" then [Message(Assistant, said, None, None, [])] else []
              else
                && 1 <= |g| <= |reply.toolCalls| + 1
                && g[0] == Message(Assistant, said, None, None, reply.toolCalls)
                && (|g| == |reply.toolCalls| + 1 || env.tool(i, |g| - 1).Raised?)
                && forall j | 1 <= j < |g| :: IsResult(env, i, j - 1, reply.toolCalls[j - 1], maxChars, g[j])
  {
    hide IsResult, Results, Truncate;
    if env.reply(i).Choice? && env.reply(i).toolCalls != [] {
      var calls := env.reply(i).toolCalls;
      var g, r := Group(env, i, maxChars), Results(env, i, calls, 0, maxChars);
      assert g == [AssistantMessage(AssistantText(env.reply(i)), calls)] + r;
      hide Group;
      ResultsMean(env, i, calls, 0, maxChars);
      forall j | 1 <= j < |g|
        ensures IsResult(env, i, j - 1, calls[j - 1], maxChars, g[j])
      {
        assert IsResult(env, i, 0 + (j - 1), calls[0 + (j - 1)], maxChars, r[j - 1]);
      }
    }
  }

  lemma {:induction false} ResultsMean(env: Environment, i: nat, calls: seq<ToolCall>, k: nat, maxChars: int)
    requires k <= |calls|
    ensures var r := Results(env, i, calls, k, maxChars);
            && |r| <= |calls| - k && (|r| == |calls| - k || env.tool(i, k + |r|).Raised?)
            && forall j | 0 <= j < |r| :: IsResult(env, i, k + j, calls[k + j], maxChars, r[j])
    decreases |calls| - k
  {
    hide Truncate;
    if k < |calls| && env.tool(i, k).Returned? {
      ResultsMean(env, i, calls, k + 1, maxChars);
      var r, rest := Results(env, i, calls, k, maxChars), Results(env, i, calls, k + 1, maxChars);
      assert IsResult(env, i, k, calls[k], maxChars, r[0]);
      hide IsResult;
      forall j | 0 <= j < |r|
        ensures IsResult(env, i, k + j, calls[k + j], maxChars, r[j])
      {
        assert j > 0 ==> r[j] == rest[j - 1];
      }
    }
  }

  /**
    Another request follows iteration i exactly if its reply asked for tools and did not stop, every tool returned,
    and none of them submitted a job or a flow.
   */
  lemma ContinuesMeans(env: Environment, i: nat)
    ensures Continues(env, i) <==>
              && env.reply(i).Choice? && env.reply(i).toolCalls != [] && !env.reply(i).stop
              && forall j | 0 <= j < |env.reply(i).toolCalls| ::
                   && env.tool(i, j).Returned?
                   && !(env.tool(i, j).job && (env.reply(i).toolCalls[j].name == "submit_job" ||
                                               env.reply(i).toolCalls[j].name == "run_eda_flow"))
    ensures Raises(env, i) <==>
              env.reply(i).Choice? && exists j | 0 <= j < |env.reply(i).toolCalls| :: env.tool(i, j).Raised?
    ensures Submits(env, i) <==>
              && env.reply(i).Choice?
              && exists j | 0 <= j < |env.reply(i).toolCalls| ::
                   && env.tool(i, j).Returned? && env.tool(i, j).job
                   && (env.reply(i).toolCalls[j].name == "submit_job" ||
                       env.reply(i).toolCalls[j].name == "run_eda_flow")
  {
  }

  /** The submission that counts: the last call that submitted a job or a flow. */
  lemma LastSubmissionMeans(env: Environment, i: nat, j: nat)
    ensures LastSubmission(env, i, j) <==>
              && env.reply(i).Choice? && j < |env.reply(i).toolCalls|
              && env.tool(i, j).Returned? && env.tool(i, j).job
              && env.reply(i).toolCalls[j].name in ["submit_job", "run_eda_flow"]
              && forall k | j < k < |env.reply(i).toolCalls| ::
                   && env.tool(i, k).Returned? && env.tool(i, k).job ==>
                     env.reply(i).toolCalls[k].name !in ["submit_job", "run_eda_flow"]
  {
  }

  /** Every message of a history comes from where the turn started or from the turn. */
  lemma {:induction false} AddAllHolds(h: seq<Message>, msgs: seq<Message>, max: int)
    requires NoSystem(h) && NoSystem(msgs)
    ensures NoSystem(AddAll(h, msgs, max))
    decreases |msgs|
  {
    if msgs != [] {
      hide Shrink;
      var front := msgs[..|msgs| - 1];
      assert forall m | m in front :: m in msgs;
      AddAllHolds(h, front, max);
      var all := AddAll(h, front, max) + [msgs[|msgs| - 1]];
      var _ := ShrinkIsBestCut(all, Within(max));
      assert forall m | m in AddAll(h, msgs, max) :: m in all;
      assert msgs[|msgs| - 1] in msgs;
    }
  }

  lemma {:induction false} TranscriptHolds(env: Environment, user: string, maxChars: int, n: nat)
    ensures NoSystem(Transcript(env, user, maxChars, n))
  {
    hide Group, NoSystem, UserMessage;
    UserHolds(user);
    if n > 0 {
      TranscriptHolds(env, user, maxChars, n - 1);
      GroupHolds(env, n - 1, maxChars);
      BothHold(Transcript(env, user, maxChars, n - 1), Group(env, n - 1, maxChars));
    }
  }

  lemma UserHolds(user: string)
    ensures NoSystem([UserMessage(user)])
  {
  }

  lemma BothHold(a: seq<Message>, b: seq<Message>)
    requires NoSystem(a) && NoSystem(b)
    ensures NoSystem(a + b)
  {
  }

  lemma GroupHolds(env: Environment, i: nat, maxChars: int)
    ensures NoSystem(Group(env, i, maxChars))
  {
    GroupMeans(env, i, maxChars);
    var g := Group(env, i, maxChars);
    hide Group, Truncate;
    assert forall j | 0 <= j < |g| :: g[j].role != System;
  }

  lemma HistoryHolds(h: seq<Message>, env: Environment, user: string, maxChars: int, max: int, n: nat)
    requires NoSystem(h)
    ensures NoSystem(HistoryAfter(h, env, user, maxChars, max, n))
  {
    hide AddAll, Transcript;
    TranscriptHolds(env, user, maxChars, n);
    AddAllHolds(h, Transcript(env, user, maxChars, n), max);
  }

  /** The first request of a turn ends with what the user said, unless not even that fits the token budget. */
  lemma FirstRequest(h: seq<Message>, env: Environment, user: string, maxChars: int, max: int, budget: Option<int>,
                     jsonLength: ToolCall -> nat)
    requires NoSystem(h)
    ensures Heard(env.prompt(0), user, budget, jsonLength,
                  Outgoing(HistoryAfter(h, env, user, maxChars, max, 0), env.prompt(0), budget, jsonLength))
  {
    HistoryHolds(h, env, user, maxChars, max, 0);
    FirstMessage(h, env, user, maxChars, max);
    hide AddAll, Outgoing, Estimate, Evict, HistoryAfter;
    GroupKept(h, [UserMessage(user)], max);
    UserIsHeard(HistoryAfter(h, env, user, maxChars, max, 0), user, env.prompt(0), budget, jsonLength);
  }

  lemma RequestCarries(h: seq<Message>, env: Environment, user: string, maxChars: int, max: int, n: nat,
                       budget: Option<int>, jsonLength: ToolCall -> nat)
    requires NoSystem(h)
    ensures var held := HistoryAfter(h, env, user, maxChars, max, n);
            SentBehind(held, env.prompt(n), Outgoing(held, env.prompt(n), budget, jsonLength))
  {
    HistoryHolds(h, env, user, maxChars, max, n);
    hide HistoryAfter, Outgoing;
    var k := OutgoingCarries(HistoryAfter(h, env, user, maxChars, max, n), env.prompt(n), budget, jsonLength);
  }

  // ----- the loop

  /**
    One user turn. The request of iteration i carries the bounded history of everything said so far; there are at most
    maxIterations of them, and the loop goes on exactly as long as Continues says.
   */
  method Run(mem: AgentMemory, user: string, env: Environment, maxIterations: int, budget: Option<int>,
             jsonLength: ToolCall -> nat)
    returns (answer: Answer, requests: seq<seq<Message>>)
    modifies mem`history
    ensures |requests| <= if maxIterations > 0 then maxIterations else 0
    ensures forall i | 0 <= i < |requests| ::
              requests[i] ==
              Outgoing(HistoryAfter(old(mem.history), env, user, mem.toolResultMaxChars, mem.maxMessages, i),
                       env.prompt(i), budget, jsonLength)
    ensures mem.history ==
            HistoryAfter(old(mem.history), env, user, mem.toolResultMaxChars, mem.maxMessages, |requests|)
    ensures NoSystem(old(mem.history)) ==>
              forall i | 0 <= i < |requests| ::
                SentBehind(HistoryAfter(old(mem.history), env, user, mem.toolResultMaxChars, mem.maxMessages, i),
                           env.prompt(i), requests[i])
    ensures NoSystem(old(mem.history)) && requests != [] ==> Heard(env.prompt(0), user, budget, jsonLength, requests[0])
    ensures forall i | 0 <= i < |requests| - 1 :: Continues(env, i)
    ensures |requests| == (if maxIterations > 0 then maxIterations else 0) ||
            (|requests| > 0 && !Continues(env, |requests| - 1))
    ensures answer.Failure? <==>
            |requests| > 0 && (Raises(env, |requests| - 1) || env.reply(|requests| - 1).RequestRaised?)
    ensures answer.AsyncSubmission? <==> |requests| > 0 && !Raises(env, |requests| - 1) && Submits(env, |requests| - 1)
    ensures answer.AsyncSubmission? ==>
              answer.iteration == |requests| - 1 && LastSubmission(env, answer.iteration, answer.call)
    ensures |requests| == 0 || OnlyTools(env, |requests| - 1) ==>
              answer == Text(if LastAssistantText(mem.history) != "" then LastAssistantText(mem.history)
                             else "Agent reached max iterations.")
    ensures |requests| > 0 && env.reply(|requests| - 1).NoChoices? ==>
              answer == Text(if LastAssistantText(mem.history) != "" then LastAssistantText(mem.history)
                             else "Sorry, I couldn't process that request.")
    ensures |requests| > 0 && env.reply(|requests| - 1).Choice? && env.reply(|requests| - 1).toolCalls == [] ==>
              var reply := env.reply(|requests| - 1);
              answer == Text(if reply.content != "" then reply.content
                             else if reply.reasoning != "" then reply.reasoning
                             else "Tool executed. Here's your result:")
  {
    hide *;
    ghost var start := mem.history;
    ghost var cap := mem.toolResultMaxChars;
    requests := [];
    mem.AddUser(user);
    FirstMessage(start, env, user, cap, mem.maxMessages);
    var i := 0;
    while i < maxIterations
      invariant 0 <= i && |requests| == i && (i <= maxIterations || i == 0)
      invariant forall k | 0 <= k < i ::
                  requests[k] == Outgoing(HistoryAfter(start, env, user, cap, mem.maxMessages, k),
                                          env.prompt(k), budget, jsonLength)
      invariant mem.history == HistoryAfter(start, env, user, cap, mem.maxMessages, i)
      invariant forall k | 0 <= k < i :: Continues(env, k)
    {
      var msgs := mem.GetMessages(env.prompt(i), budget, jsonLength);
      requests := requests + [msgs];
      RequestsCarry(start, env, user, cap, mem.maxMessages, budget, jsonLength, requests);
      NextGroup(start, env, user, cap, mem.maxMessages, i);
      OnlyToolsMeans(env, i);
      var final := Respond(mem, env, i);
      if final.Some? {
        return final.value, requests;
      }
      if env.reply(i).stop {
        FallbackMeans(LastAssistantText(mem.history), "Agent reached max iterations.");
        return Text(FallbackText(LastAssistantText(mem.history), "Agent reached max iterations.")), requests;
      }
      i := i + 1;
    }
    assert i > 0 ==> Continues(env, i - 1);
    if i > 0 {
      OnlyToolsMeans(env, i - 1);
    }
    RequestsCarry(start, env, user, cap, mem.maxMessages, budget, jsonLength, requests);
    FallbackMeans(LastAssistantText(mem.history), "Agent reached max iterations.");
    answer := Text(FallbackText(LastAssistantText(mem.history), "Agent reached max iterations."));
  }

  lemma FallbackMeans(text: string, fallback: string)
    ensures FallbackText(text, fallback) == if text != "" then text else fallback
  {
  }

  lemma RequestsCarry(h: seq<Message>, env: Environment, user: string, maxChars: int, max: int, budget: Option<int>,
                      jsonLength: ToolCall -> nat, requests: seq<seq<Message>>)
    requires forall i | 0 <= i < |requests| ::
               requests[i] == Outgoing(HistoryAfter(h, env, user, maxChars, max, i), env.prompt(i), budget, jsonLength)
    ensures NoSystem(h) ==>
              forall i | 0 <= i < |requests| ::
                SentBehind(HistoryAfter(h, env, user, maxChars, max, i), env.prompt(i), requests[i])
    ensures NoSystem(h) && requests != [] ==> Heard(env.prompt(0), user, budget, jsonLength, requests[0])
  {
    hide *;
    if NoSystem(h) {
      forall i | 0 <= i < |requests|
        ensures SentBehind(HistoryAfter(h, env, user, maxChars, max, i), env.prompt(i), requests[i])
      {
        RequestCarries(h, env, user, maxChars, max, i, budget, jsonLength);
      }
      FirstRequest(h, env, user, maxChars, max, budget, jsonLength);
    }
  }

  lemma OnlyToolsMeans(env: Environment, i: nat)
    ensures Continues(env, i) <==> OnlyTools(env, i) && !env.reply(i).stop
    ensures OnlyTools(env, i) ==>
              env.reply(i).Choice? && env.reply(i).toolCalls != [] && !Raises(env, i) && !Submits(env, i)
    ensures Raises(env, i) || Submits(env, i) ==> env.reply(i).Choice? && env.reply(i).toolCalls != []
  {
  }

  /** Take in the reply of iteration i; the result is the turn's answer when the turn ends here. */
  method Respond(mem: AgentMemory, env: Environment, i: nat) returns (final: Option<Answer>)
    modifies mem`history
    ensures mem.history == AddAll(old(mem.history), Group(env, i, mem.toolResultMaxChars), mem.maxMessages)
    ensures final.None? <==> OnlyTools(env, i)
    ensures final == Some(Failure) <==> Raises(env, i) || env.reply(i).RequestRaised?
    ensures final.Some? && final.value.AsyncSubmission? <==> !Raises(env, i) && Submits(env, i)
    ensures final.Some? && final.value.AsyncSubmission? ==>
              final.value.iteration == i && LastSubmission(env, i, final.value.call)
    ensures env.reply(i).NoChoices? ==>
              final == Some(Text(if LastAssistantText(mem.history) != "" then LastAssistantText(mem.history)
                                 else "Sorry, I couldn't process that request."))
    ensures env.reply(i).Choice? && env.reply(i).toolCalls == [] ==>
              final == Some(Text(if env.reply(i).content != "" then env.reply(i).content
                                 else if env.reply(i).reasoning != "" then env.reply(i).reasoning
                                 else "Tool executed. Here's your result:"))
  {
    hide AddAll, Evict, Results, LastAssistantText;
    ghost var start := mem.history;
    var reply := env.reply(i);
    AddOne(start, [], UserMessage(""), mem.maxMessages);
    if reply.RequestRaised? {
      return Some(Failure);
    }
    if reply.NoChoices? {
      return Some(Text(FallbackText(LastAssistantText(mem.history), "Sorry, I couldn't process that request.")));
    }
    var text := AssistantText(reply);
    var said := AssistantMessage(text, reply.toolCalls);
    AddOne(start, [], said, mem.maxMessages);
    assert [] + [said] == [said];
    if reply.toolCalls == [] {
      if text != "" {
        mem.AddAssistant(text, []);
      }
      return Some(Text(FallbackText(text, "Tool executed. Here's your result:")));
    }
    mem.AddAssistant(text, reply.toolCalls);
    var raised, submitted := RunTools(mem, env, i, reply.toolCalls);
    AddAllConcat(start, [said], Results(env, i, reply.toolCalls, 0, mem.toolResultMaxChars), mem.maxMessages);
    if raised {
      return Some(Failure);
    }
    if submitted.Some? {
      return Some(AsyncSubmission(i, submitted.value));
    }
    return None;
  }

  function FallbackText(text: string, fallback: string): string {
    if text != "" then text else fallback
  }

  /** Run every requested call in order; the last submission counts. */
  method RunTools(mem: AgentMemory, env: Environment, i: nat, calls: seq<ToolCall>)
    returns (raised: bool, submitted: Option<nat>)
    modifies mem`history
    ensures mem.history == AddAll(old(mem.history), Results(env, i, calls, 0, mem.toolResultMaxChars), mem.maxMessages)
    ensures raised <==> exists j | 0 <= j < |calls| :: env.tool(i, j).Raised?
    ensures !raised ==> (submitted.Some? <==> exists j | 0 <= j < |calls| :: IsSubmission(env, i, j, calls[j]))
    ensures submitted.Some? ==>
              && submitted.value < |calls|
              && IsSubmission(env, i, submitted.value, calls[submitted.value])
    ensures !raised && submitted.Some? ==>
              forall j | submitted.value < j < |calls| :: !IsSubmission(env, i, j, calls[j])
  {
    hide AddAll, Evict, Truncate, Results;
    ghost var start := mem.history;
    var cap := mem.toolResultMaxChars;
    raised, submitted := false, None;
    ghost var done: seq<Message> := [];
    AddOne(start, [], UserMessage(""), mem.maxMessages);
    for j := 0 to |calls|
      invariant mem.history == AddAll(start, done, mem.maxMessages)
      invariant Results(env, i, calls, 0, cap) == done + Results(env, i, calls, j, cap)
      invariant forall k | 0 <= k < j :: env.tool(i, k).Returned?
      invariant submitted.Some? <==> exists k | 0 <= k < j :: IsSubmission(env, i, k, calls[k])
      invariant submitted.Some? ==> submitted.value < j && IsSubmission(env, i, submitted.value, calls[submitted.value])
      invariant submitted.Some? ==> forall k | submitted.value < k < j :: !IsSubmission(env, i, k, calls[k])
    {
      if env.tool(i, j).Raised? {
        NextResult(env, i, calls, j, cap, done);
        raised := true;
        return;
      }
      var id := CallId(env, i, j, calls[j]);
      mem.AddToolResult(calls[j].name, env.tool(i, j).text, id);
      ghost var msg := ToolMessage(calls[j].name, Truncate(env.tool(i, j).text, cap), id);
      AddOne(start, done, msg, mem.maxMessages);
      NextResult(env, i, calls, j, cap, done);
      done := done + [msg];
      if (calls[j].name == "submit_job" || calls[j].name == "run_eda_flow") && env.tool(i, j).job {
        submitted := Some(j);
      }
    }
    NextResult(env, i, calls, |calls|, cap, done);
  }

  lemma NextResult(env: Environment, i: nat, calls: seq<ToolCall>, j: nat, cap: int, done: seq<Message>)
    requires j <= |calls|
    ensures j == |calls| || env.tool(i, j).Raised? ==> done + Results(env, i, calls, j, cap) == done
    ensures j < |calls| && env.tool(i, j).Returned? ==>
              (var msg := ToolMessage(calls[j].name, Truncate(env.tool(i, j).text, cap), CallId(env, i, j, calls[j]));
               done + Results(env, i, calls, j, cap) == done + [msg] + Results(env, i, calls, j + 1, cap))
  {
    hide Truncate;
  }

  // ----- pairing over whole turns

  /** Every call has an id of its own. */
  ghost predicate OwnIds(calls: seq<ToolCall>) {
    && (forall j | 0 <= j < |calls| :: Truthy(calls[j].id))
    && forall j, k | 0 <= j < k < |calls| :: calls[j].id.value != calls[k].id.value
  }

  /** The reply's calls can be told apart and, with their results, fit the message bound. */
  ghost predicate GoodReply(reply: Reply, max: int) {
    reply.Choice? ==> OwnIds(reply.toolCalls) && (max <= 0 || |reply.toolCalls| <= max - 1)
  }

  lemma {:induction false} ResultsShape(env: Environment, i: nat, calls: seq<ToolCall>, j: nat, maxChars: int)
    requires j <= |calls|
    ensures var r := Results(env, i, calls, j, maxChars);
            && |r| <= |calls| - j
            && (|r| == |calls| - j <==> forall k | j <= k < |calls| :: env.tool(i, k).Returned?)
            && forall k | 0 <= k < |r| :: IsTool(r[k]) && r[k].toolCallId == CallId(env, i, j + k, calls[j + k])
    decreases |calls| - j
  {
    hide Truncate, CallId;
    if j < |calls| && env.tool(i, j).Returned? {
      ResultsShape(env, i, calls, j + 1, maxChars);
    }
  }

  /** Answering calls with own ids from the front leaves exactly the rest of them open. */
  lemma {:induction false} AnswersInOrder(calls: seq<ToolCall>, results: seq<Message>)
    requires OwnIds(calls) && |results| <= |calls|
    requires forall k | 0 <= k < |results| :: IsTool(results[k]) && results[k].toolCallId == calls[k].id
    ensures Paired(results, Ids(calls)) && OpenAfter(results, Ids(calls)) == Ids(calls[|results|..])
    ensures Complete(results, Ids(calls)) <==> |results| == |calls|
    decreases |calls|
  {
    if results == [] {
      assert calls[0..] == calls;
      if calls != [] {
        assert calls[0].id.value in Ids(calls);
      }
    } else {
      var id := calls[0].id.value;
      assert calls == [calls[0]] + calls[1..];
      assert forall c | c in calls[1..] :: c.id.value != id;
      assert Ids(calls) - {id} == Ids(calls[1..]);
      assert calls[0] in calls && id in Ids(calls);
      AnswersInOrder(calls[1..], results[1..]);
      assert calls[1..][|results[1..]|..] == calls[|results|..];
    }
  }

  /** What an iteration with a good reply adds is paired on its own, and complete exactly when no call raised. */
  lemma GroupPaired(env: Environment, i: nat, maxChars: int, max: int)
    requires GoodReply(env.reply(i), max)
    ensures var g := Group(env, i, maxChars);
            && (g == [] || (IsGroup(g) && (max <= 0 || |g| <= max)))
            && Paired(g, {})
            && (Complete(g, {}) <==> !Raises(env, i))
            && (Raises(env, i) ==> g != [] && g[0].role == Assistant && OpenAfter(g, {}) != {})
  {
    hide Results, AssistantText, Paired, Complete, OpenAfter, IsGroup, OwnIds;
    var reply := env.reply(i);
    if !reply.Choice? {
      NothingOpen();
    } else if reply.toolCalls == [] {
      NothingOpen();
      TextAlone(AssistantText(reply));
    } else {
      CallsGroup(env, i, maxChars, AssistantMessage(AssistantText(reply), reply.toolCalls));
    }
  }

  lemma CallsGroup(env: Environment, i: nat, maxChars: int, head: Message)
    requires head.role == Assistant && OwnIds(head.toolCalls)
    ensures var g := [head] + Results(env, i, head.toolCalls, 0, maxChars);
            && IsGroup(g) && |g| <= |head.toolCalls| + 1 && Paired(g, {})
            && (Complete(g, {}) <==> forall j | 0 <= j < |head.toolCalls| :: env.tool(i, j).Returned?)
            && (!Complete(g, {}) ==> OpenAfter(g, {}) != {})
  {
    hide Results, CallId, OwnIds, Ids, Paired, Complete, OpenAfter;
    var calls := head.toolCalls;
    var results := Results(env, i, calls, 0, maxChars);
    ResultsShape(env, i, calls, 0, maxChars);
    OwnAnswers(env, i, calls, results);
    OpenRest(calls, |results|);
    AnswersBehind(head, results);
  }

  lemma TextAlone(text: string)
    ensures var g := [AssistantMessage(text, [])]; IsGroup(g) && Paired(g, {}) && Complete(g, {})
  {
  }

  lemma NothingOpen()
    ensures Paired([], {}) && Complete([], {})
  {
  }

  lemma OpenRest(calls: seq<ToolCall>, n: nat)
    requires OwnIds(calls) && n <= |calls|
    ensures Ids(calls[n..]) == {} <==> n == |calls|
  {
    if n < |calls| {
      assert calls[n] in calls[n..];
      assert calls[n].id.value in Ids(calls[n..]);
    }
  }

  /** An assistant message stands at the head of what answers it. */
  lemma AnswersBehind(head: Message, results: seq<Message>)
    requires head.role == Assistant
    ensures var g := [head] + results;
            && g[0] == head && g[1..] == results
            && (Paired(g, {}) <==> Paired(results, Ids(head.toolCalls)))
            && (Complete(g, {}) <==> Complete(results, Ids(head.toolCalls)))
            && OpenAfter(g, {}) == OpenAfter(results, Ids(head.toolCalls))
  {
    var g := [head] + results;
    assert g[1..] == results;
  }

  /**
    Without own ids pairing fails: with generated ids that clash with no declared one, the messages of an iteration
    in which nothing raises are paired exactly when every call brought an id of its own.
   */
  lemma PairingNeedsOwnIds(env: Environment, i: nat, maxChars: int)
    requires env.reply(i).Choice? && env.reply(i).toolCalls != [] && !Raises(env, i)
    requires forall j | 0 <= j < |env.reply(i).toolCalls| :: env.newId(i, j) !in Ids(env.reply(i).toolCalls)
    ensures Paired(Group(env, i, maxChars), {}) <==> OwnIds(env.reply(i).toolCalls)
  {
    hide Results, AssistantText, OwnIds, Ids, Paired, Complete, OpenAfter, CallId;
    var calls := env.reply(i).toolCalls;
    var results := Results(env, i, calls, 0, maxChars);
    ResultsShape(env, i, calls, 0, maxChars);
    assert |results| == |calls|;
    AnswersBehind(AssistantMessage(AssistantText(env.reply(i)), calls), results);
    if OwnIds(calls) {
      OwnAnswers(env, i, calls, results);
    }
    if Paired(results, Ids(calls)) {
      PairedAnswers(results, Ids(calls));
      AnswersAreOwn(env, i, calls, results);
    }
  }

  lemma OwnAnswers(env: Environment, i: nat, calls: seq<ToolCall>, results: seq<Message>)
    requires OwnIds(calls) && |results| <= |calls|
    requires forall j | 0 <= j < |results| :: IsTool(results[j]) && results[j].toolCallId == CallId(env, i, j, calls[j])
    ensures Paired(results, Ids(calls)) && OpenAfter(results, Ids(calls)) == Ids(calls[|results|..])
    ensures Complete(results, Ids(calls)) <==> |results| == |calls|
  {
    AnswersInOrder(calls, results);
  }

  lemma AnswersAreOwn(env: Environment, i: nat, calls: seq<ToolCall>, results: seq<Message>)
    requires forall j | 0 <= j < |calls| :: env.newId(i, j) !in Ids(calls)
    requires |results| == |calls| && forall j | 0 <= j < |calls| :: results[j].toolCallId == CallId(env, i, j, calls[j])
    requires forall j | 0 <= j < |results| :: Truthy(results[j].toolCallId) && results[j].toolCallId.value in Ids(calls)
    requires forall j, k | 0 <= j < k < |results| :: results[j].toolCallId != results[k].toolCallId
    ensures OwnIds(calls)
  {
    hide Ids;
    forall j | 0 <= j < |calls|
      ensures Truthy(calls[j].id) && calls[j].id == results[j].toolCallId
    {
      assert results[j].toolCallId == CallId(env, i, j, calls[j]);
      assert results[j].toolCallId.value in Ids(calls);
    }
  }

  /** Paired tool messages answer different open calls. */
  lemma {:induction false} PairedAnswers(results: seq<Message>, pending: set<string>)
    requires Paired(results, pending) && forall k | 0 <= k < |results| :: IsTool(results[k])
    ensures forall k | 0 <= k < |results| :: Truthy(results[k].toolCallId) && results[k].toolCallId.value in pending
    ensures forall j, k | 0 <= j < k < |results| :: results[j].toolCallId != results[k].toolCallId
  {
    if results != [] {
      PairedAnswers(results[1..], pending - {results[0].toolCallId.value});
      assert forall k | 1 <= k < |results| :: results[k] == results[1..][k - 1];
    }
  }

  /** The window holds all of g, behind some end of what came before. */
  ghost predicate KeptBehind(window: seq<Message>, before: seq<Message>, g: seq<Message>) {
    exists k: nat :: k <= |before| && window == before[k..] + g
  }

  /**
    Over a whole turn with good replies the bounded history is the window of the whole conversation,
    so eviction never touches the turn that is still open; it stays paired, and complete as long as nothing raised.
   */
  lemma {:induction false} TurnStaysPaired(h: seq<Message>, env: Environment, user: string, maxChars: int, max: int,
                                           n: nat)
    requires forall i | 0 <= i < n :: GoodReply(env.reply(i), max)
    ensures HistoryAfter(h, env, user, maxChars, max, n) == Evict(h + Transcript(env, user, maxChars, n), max)
    ensures Paired(h, {}) ==> Paired(h + Transcript(env, user, maxChars, n), {})
    ensures Complete(h, {}) && (forall i | 0 <= i < n :: !Raises(env, i)) ==>
              Complete(h + Transcript(env, user, maxChars, n), {})
    ensures n > 0 && Group(env, n - 1, maxChars) != [] ==>
              KeptBehind(HistoryAfter(h, env, user, maxChars, max, n),
                         h + Transcript(env, user, maxChars, n - 1), Group(env, n - 1, maxChars))
    decreases n
  {
    hide Group, Evict, AddAll, KeptBehind;
    var t := Transcript(env, user, maxChars, n);
    if n == 0 {
      AddOne(h, [], UserMessage(user), max);
      assert [] + [UserMessage(user)] == t;
      PairedConcat(h, t, {});
      assert Complete(t, {});
      if Complete(h, {}) {
        CompleteConcat(h, t, {});
      }
    } else {
      TurnStaysPaired(h, env, user, maxChars, max, n - 1);
      ExtendTurn(h, Transcript(env, user, maxChars, n - 1), env, n - 1, maxChars, max);
    }
  }

  lemma ExtendTurn(h: seq<Message>, said: seq<Message>, env: Environment, i: nat, maxChars: int, max: int)
    requires GoodReply(env.reply(i), max)
    requires AddAll(h, said, max) == Evict(h + said, max)
    ensures var g := Group(env, i, maxChars);
            && AddAll(h, said + g, max) == Evict(h + (said + g), max)
            && (Paired(h + said, {}) ==> Paired(h + (said + g), {}))
            && (Complete(h + said, {}) && !Raises(env, i) ==> Complete(h + (said + g), {}))
            && (g != [] ==> KeptBehind(AddAll(h, said + g, max), h + said, g))
  {
    hide Group, Evict, AddAll, Raises;
    var g := Group(env, i, maxChars);
    GroupPaired(env, i, maxChars, max);
    assert h + (said + g) == (h + said) + g;
    AddAllConcat(h, said, g, max);
    if g == [] {
      assert said + g == said && h + (said + g) == h + said;
    } else {
      GroupAsBatch(Evict(h + said, max), g, max);
      EvictThenAppend(h + said, g, max);
      GroupKept(h + said, g, max);
      PairedConcat(h + said, g, {});
      if Complete(h + said, {}) && !Raises(env, i) {
        CompleteConcat(h + said, g, {});
      }
    }
  }

  /**
    Every request of a turn is acceptable: started from a complete history, with good replies, each message list that
    is sent has every call answered and every result paired, after eviction and after token trimming alike.
   */
  lemma RequestsAreSendable(h: seq<Message>, env: Environment, user: string, maxChars: int, max: int, n: nat,
                            budget: Option<int>, jsonLength: ToolCall -> nat)
    requires forall i | 0 <= i < n :: GoodReply(env.reply(i), max) && Continues(env, i)
    requires Paired(h, {})
    ensures var sent := Outgoing(HistoryAfter(h, env, user, maxChars, max, n), env.prompt(n), budget, jsonLength);
            SendablePairs(sent) && (Complete(h, {}) ==> Sendable(sent))
  {
    TurnStaysPaired(h, env, user, maxChars, max, n);
    var t := h + Transcript(env, user, maxChars, n);
    EvictKeepsPairing(t, max);
    OutgoingKeepsPairing(Evict(t, max), env.prompt(n), budget, jsonLength);
  }

  /**
    What a turn leaves in the memory, started from a complete history with good replies:
    a complete history again, unless a tool raised; then the calls that were not run stay open.
   */
  lemma TurnEndsCompleteUnlessRaised(h: seq<Message>, env: Environment, user: string, maxChars: int, max: int, n: nat)
    requires forall i | 0 <= i < n :: GoodReply(env.reply(i), max)
    requires forall i | 0 <= i < n - 1 :: Continues(env, i)
    requires Complete(h, {})
    ensures var after := HistoryAfter(h, env, user, maxChars, max, n);
            && Paired(after, {})
            && (Complete(after, {}) <==> n == 0 || !Raises(env, n - 1))
  {
    hide Group, Evict, AddAll, Raises, Transcript, Paired, Complete;
    CompleteIsPaired(h, {});
    TurnStaysPaired(h, env, user, maxChars, max, n);
    var t := h + Transcript(env, user, maxChars, n);
    EvictKeepsPairing(t, max);
    if n > 0 && Raises(env, n - 1) {
      GroupPaired(env, n - 1, maxChars, max);
      var before, g := h + Transcript(env, user, maxChars, n - 1), Group(env, n - 1, maxChars);
      var k: nat :| k <= |before| && HistoryAfter(h, env, user, maxChars, max, n) == before[k..] + g;
      PairedConcat(before[k..], g, {});
      var after := before[k..] + g;
      assert OpenAfter(after, {}) != {};
      if Complete(after, {}) {
        CompleteIsPaired(after, {});
      }
    } else if n > 0 {
      assert forall i | 0 <= i < n :: i == n - 1 || (Continues(env, i) && !Raises(env, i));
    }
  }
}

/** The per-session conversation memory: a bounded history and a scratchpad with a durable and a volatile part. */
module Memory {
  import opened Wrappers
  import opened Messages
  import opened Eviction
  import Text

  const DEFAULT_MAX_MESSAGES := 40
  const DEFAULT_TOOL_RESULT_MAX_CHARS := 8 * 1024
  const CHARS_PER_TOKEN := 4
  const OVERHEAD_TOKENS_PER_MESSAGE := 4

  /** What is stored for a session; internal is present only on request. */
  datatype Payload = Payload(messages: seq<Message>, context: map<string, string>,
                             internal: Option<map<string, string>>)

  // ----- serialised messages

  function TruthyOrNone(s: Option<string>): Option<string> {
    if Truthy(s) then s else None
  }

  /** The dictionary form of a message: empty names and ids leave no key behind. */
  function Serialise(m: Message): Message {
    match m.role
    case Tool => Message(Tool, m.content, TruthyOrNone(m.toolName), TruthyOrNone(m.toolCallId), [])
    case Assistant => Message(Assistant, m.content, None, None, m.toolCalls)
    case _ => Message(m.role, m.content, None, None, [])
  }

  function SerialiseAll(h: seq<Message>): (d: seq<Message>)
    ensures |d| == |h| && forall i | 0 <= i < |h| :: d[i] == Serialise(h[i])
  {
    seq(|h|, i requires 0 <= i < |h| => Serialise(h[i]))
  }

  /** Serialising neither makes nor breaks a pairing. */
  lemma {:induction false} SerialiseKeepsPairing(h: seq<Message>, pending: set<string>)
    ensures Paired(SerialiseAll(h), pending) <==> Paired(h, pending)
    ensures Complete(SerialiseAll(h), pending) <==> Complete(h, pending)
  {
    if h != [] {
      var d := SerialiseAll(h);
      assert d[1..] == SerialiseAll(h[1..]);
      match h[0].role
      case User => SerialiseKeepsPairing(h[1..], {});
      case Assistant => SerialiseKeepsPairing(h[1..], Ids(h[0].toolCalls));
      case Tool =>
        if h[0].toolCallId.Some? {
          SerialiseKeepsPairing(h[1..], pending - {h[0].toolCallId.value});
        }
      case _ =>
    }
  }

  // ----- restoring from storage

  /** A stored message as it is put back into the history. */
  function Restore(m: Message): Message {
    match m.role
    case Tool => Message(Tool, m.content, Some(if m.toolName.Some? then m.toolName.value else ""), m.toolCallId, [])
    case Assistant => Message(Assistant, m.content, None, None, m.toolCalls)
    case _ => Message(m.role, m.content, None, None, [])
  }

  /** Which stored messages are taken: user and assistant messages, and tool messages that answer an open call. */
  function Accepts(m: Message, pending: set<string>): bool {
    match m.role
    case User => true
    case Assistant => true
    case Tool => Truthy(m.toolCallId) && m.toolCallId.value in pending
    case _ => false
  }

  /** The open calls after looking at m. */
  function Pending(m: Message, pending: set<string>): set<string> {
    match m.role
    case User => {}
    case Assistant => Ids(m.toolCalls)
    case Tool => if Accepts(m, pending) then pending - {m.toolCallId.value} else pending
    case _ => pending
  }

  function Sanitise(raw: seq<Message>, pending: set<string>): seq<Message> {
    if raw == [] then []
    else (if Accepts(raw[0], pending) then [Restore(raw[0])] else []) + Sanitise(raw[1..], Pending(raw[0], pending))
  }

  /** Taking in message i. */
  lemma SanitiseNext(done: seq<Message>, raw: seq<Message>, i: nat, pending: set<string>)
    requires i < |raw|
    ensures done + Sanitise(raw[i..], pending)
         == (if Accepts(raw[i], pending) then done + [Restore(raw[i])] else done)
            + Sanitise(raw[i + 1..], Pending(raw[i], pending))
  {
    assert raw[i..][0] == raw[i] && raw[i..][1..] == raw[i + 1..];
    hide Accepts, Restore, Pending;
  }

  lemma SanitiseEnds(done: seq<Message>, raw: seq<Message>, pending: set<string>)
    ensures done + Sanitise(raw[|raw|..], pending) == done
  {
  }

  /** Sanitising whatever was stored yields a paired history. */
  lemma {:induction false} SanitisedIsPaired(raw: seq<Message>, pending: set<string>)
    ensures Paired(Sanitise(raw, pending), pending)
  {
    if raw != [] {
      var rest := Sanitise(raw[1..], Pending(raw[0], pending));
      SanitisedIsPaired(raw[1..], Pending(raw[0], pending));
      var s := Sanitise(raw, pending);
      if Accepts(raw[0], pending) {
        assert s == [Restore(raw[0])] + rest;
        assert s[0] == Restore(raw[0]) && s[1..] == rest;
      } else {
        assert s == rest;
      }
    }
  }

  /** The messages of raw marked in keep, restored. */
  function Select(raw: seq<Message>, keep: seq<bool>): seq<Message>
    requires |raw| == |keep|
  {
    if raw == [] then []
    else (if keep[0] then [Restore(raw[0])] else []) + Select(raw[1..], keep[1..])
  }

  function Mask(raw: seq<Message>, pending: set<string>): (keep: seq<bool>)
    ensures |keep| == |raw|
  {
    if raw == [] then [] else [Accepts(raw[0], pending)] + Mask(raw[1..], Pending(raw[0], pending))
  }

  /** A choice among the stored messages that takes every user and assistant message. */
  ghost predicate TakesTheDialogue(raw: seq<Message>, keep: seq<bool>) {
    && |keep| == |raw|
    && forall i | 0 <= i < |raw| :: raw[i].role == User || raw[i].role == Assistant ==> keep[i]
  }

  /** Sanitising is an order-preserving choice among the stored messages that takes the whole dialogue. */
  lemma {:induction false} SanitisedIsSelection(raw: seq<Message>, pending: set<string>)
    ensures Sanitise(raw, pending) == Select(raw, Mask(raw, pending))
    ensures TakesTheDialogue(raw, Mask(raw, pending))
  {
    if raw != [] {
      SanitisedIsSelection(raw[1..], Pending(raw[0], pending));
      assert Mask(raw, pending)[1..] == Mask(raw[1..], Pending(raw[0], pending));
    }
  }

  /**
    No paired choice that takes the whole dialogue keeps more messages; the choice may start with other open calls,
    and then gains at most one message for each of them.
   */
  lemma {:induction false} SanitisedIsLongest(raw: seq<Message>, keep: seq<bool>, open: set<string>,
                                              pending: set<string>)
    requires TakesTheDialogue(raw, keep) && Paired(Select(raw, keep), open)
    ensures |Select(raw, keep)| <= |Sanitise(raw, pending)| + |open - pending|
  {
    if raw != [] {
      var m := raw[0];
      var rest := Select(raw[1..], keep[1..]);
      assert keep[0] ==> Select(raw, keep)[0] == Restore(m) && Select(raw, keep)[1..] == rest;
      assert !keep[0] ==> Select(raw, keep) == rest;
      assert TakesTheDialogue(raw[1..], keep[1..]);
      var next := Pending(m, pending);
      if m.role == User || m.role == Assistant {
        SanitisedIsLongest(raw[1..], keep[1..], next, next);
        assert next - next == {};
      } else if keep[0] {
        var id := m.toolCallId.value;
        SanitisedIsLongest(raw[1..], keep[1..], open - {id}, next);
        if id in pending {
          assert open - {id} - next == open - pending;
        } else {
          assert open - {id} - next == open - pending - {id};
        }
      } else {
        SanitisedIsLongest(raw[1..], keep[1..], open, next);
        if Accepts(m, pending) {
          assert open - next <= open - pending + {m.toolCallId.value};
          CardinalityMonotone(open - next, open - pending + {m.toolCallId.value});
        }
      }
    }
  }

  lemma {:induction false} CardinalityMonotone(a: set<string>, b: set<string>)
    requires a <= b
    ensures |a| <= |b|
  {
    assert b == a + (b - a);
  }

  /** A paired history comes back from its serialised form with the same serialised form. */
  lemma {:induction false} SanitiseInvertsSerialise(h: seq<Message>, pending: set<string>)
    requires Paired(h, pending)
    ensures SerialiseAll(Sanitise(SerialiseAll(h), pending)) == SerialiseAll(h)
  {
    if h != [] {
      var d := SerialiseAll(h);
      assert d[1..] == SerialiseAll(h[1..]);
      var next := Pending(d[0], pending);
      SanitiseInvertsSerialise(h[1..], next);
      var s := Sanitise(d, pending);
      assert s == [Restore(d[0])] + Sanitise(d[1..], next);
      assert SerialiseAll(s) == [Serialise(Restore(d[0]))] + SerialiseAll(Sanitise(d[1..], next));
    }
  }

  lemma {:induction false} SerialiseIdempotent(h: seq<Message>)
    ensures SerialiseAll(SerialiseAll(h)) == SerialiseAll(h)
  {
  }

  // ----- the token budget

  function CallTokens(calls: seq<ToolCall>, jsonLength: ToolCall -> nat): nat {
    if calls == [] then 0 else jsonLength(calls[0]) / CHARS_PER_TOKEN + CallTokens(calls[1..], jsonLength)
  }

  function Estimate(msgs: seq<Message>, jsonLength: ToolCall -> nat): nat {
    if msgs == [] then 0
    else
      |msgs[0].content| / CHARS_PER_TOKEN + OVERHEAD_TOKENS_PER_MESSAGE + CallTokens(msgs[0].toolCalls, jsonLength)
      + Estimate(msgs[1..], jsonLength)
  }

  /** Whether a list fits the token budget behind the given head. */
  function FitsTokens(head: seq<Message>, maxTokens: int, jsonLength: ToolCall -> nat): seq<Message> -> bool {
    (rest: seq<Message>) => Estimate(head + rest, jsonLength) <= maxTokens
  }

  function SystemHead(messages: seq<Message>): nat {
    if messages != [] && messages[0].role == System then 1 else 0
  }

  function Trimmed(messages: seq<Message>, maxTokens: int, jsonLength: ToolCall -> nat): seq<Message> {
    var s := SystemHead(messages);
    messages[..s] + Shrink(messages[s..], FitsTokens(messages[..s], maxTokens, jsonLength))
  }

  method TrimToTokenBudget(messages: seq<Message>, maxTokens: int, jsonLength: ToolCall -> nat)
    returns (trimmed: seq<Message>)
    ensures trimmed == Trimmed(messages, maxTokens, jsonLength)
  {
    var s := SystemHead(messages);
    var head, rest := messages[..s], messages[s..];
    assert messages == head + rest;
    if Estimate(messages, jsonLength) <= maxTokens {
      return messages;
    }
    ghost var fits := FitsTokens(head, maxTokens, jsonLength);
    while |rest| > 0 && Estimate(head + rest, jsonLength) > maxTokens
      invariant Shrink(rest, fits) == Shrink(messages[s..], fits)
      decreases |rest|
    {
      ghost var group := DropGroup(rest);
      rest := rest[1..];
      while |rest| > 0 && IsTool(rest[0])
        invariant DropTools(rest) == group
        decreases |rest|
      {
        rest := rest[1..];
      }
    }
    return head + rest;
  }

  /**
    Trimming keeps the system message and behind it the longest suffix of whole groups whose estimate still fits,
    or the system message alone; a list that fits is not touched, and pairing survives.
   */
  lemma TrimmingIsOptimal(messages: seq<Message>, maxTokens: int, jsonLength: ToolCall -> nat)
    ensures var s := SystemHead(messages);
            exists k: nat ::
              && BestCut(messages[s..], FitsTokens(messages[..s], maxTokens, jsonLength), k)
              && Trimmed(messages, maxTokens, jsonLength) == messages[..s] + messages[s..][k..]
    ensures Estimate(messages, jsonLength) <= maxTokens ==> Trimmed(messages, maxTokens, jsonLength) == messages
    ensures Estimate(Trimmed(messages, maxTokens, jsonLength), jsonLength) <= maxTokens ||
            Trimmed(messages, maxTokens, jsonLength) == messages[..SystemHead(messages)]
    ensures var s := SystemHead(messages);
            Paired(messages[s..], {}) ==>
              && Paired(Trimmed(messages, maxTokens, jsonLength)[s..], {})
              && (Complete(messages[s..], {}) ==> Complete(Trimmed(messages, maxTokens, jsonLength)[s..], {}))
  {
    var s := SystemHead(messages);
    var head, rest := messages[..s], messages[s..];
    var fits := FitsTokens(head, maxTokens, jsonLength);
    assert head + rest == messages;
    var k := ShrinkIsBestCut(rest, fits);
    var trimmed := Trimmed(messages, maxTokens, jsonLength);
    assert trimmed == head + rest[k..] && trimmed[s..] == rest[k..];
    if Paired(rest, {}) {
      ShrinkKeepsPairing(rest, fits);
    }
    if Estimate(messages, jsonLength) <= maxTokens {
      assert rest[0..] == rest && fits(rest[0..]);
      assert k == 0;
    }
  }

  // ----- the byte budget

  function FitsBytes(maxBytes: int, size: seq<Message> -> nat): seq<Message> -> bool {
    (h: seq<Message>) => size(SerialiseAll(h)) <= maxBytes
  }

  function ShrunkToBytes(h: seq<Message>, maxBytes: int, size: seq<Message> -> nat): seq<Message> {
    if maxBytes <= 0 then h else Shrink(h, FitsBytes(maxBytes, size))
  }

  // ----- tool results

  const NOTE_START := "\n\U{2026}<truncated "
  const NOTE_END := " chars; use job_logs " + "/ query_timing for " + "the full payload>"

  /** Overlong results are cut, with a note of how much is missing. */
  function Truncate(content: string, maxChars: int): string {
    if maxChars > 0 && |content| > maxChars then
      content[..maxChars] + NOTE_START + Text.Decimal(|content| - maxChars) + NOTE_END
    else content
  }

  /** Of an overlong result the front is kept, and the note behind it tells how many characters are missing. */
  lemma TruncateMeans(content: string, maxChars: int)
    ensures maxChars <= 0 || |content| <= maxChars ==> Truncate(content, maxChars) == content
    ensures maxChars > 0 && |content| > maxChars ==>
              exists digits ::
                && Truncate(content, maxChars) == content[..maxChars] + NOTE_START + digits + NOTE_END
                && Text.Value(digits) == |content| - maxChars && forall c | c in digits :: '0' <= c <= '9'
  {
    hide Text.Decimal, Text.Value;
    if maxChars > 0 && |content| > maxChars {
      Text.DecimalReadsBack(|content| - maxChars);
      var digits := Text.Decimal(|content| - maxChars);
      assert Truncate(content, maxChars) == content[..maxChars] + NOTE_START + digits + NOTE_END;
    }
  }

  predicate IsInternal(key: string) {
    key != "" && key[0] == '_'
  }

  class AgentMemory {
    const maxMessages: int
    const toolResultMaxChars: int
    var history: seq<Message>
    var context: map<string, string>
    var internal: map<string, string>

    constructor (maxMessages: int, toolResultMaxChars: int)
      ensures this.maxMessages == maxMessages && this.toolResultMaxChars == toolResultMaxChars
      ensures history == [] && context == map[] && internal == map[]
    {
      this.maxMessages := maxMessages;
      this.toolResultMaxChars := toolResultMaxChars;
      history := [];
      context := map[];
      internal := map[];
    }

    method Add(msg: Message)
      modifies this`history
      ensures history == Evict(old(history) + [msg], maxMessages)
    {
      history := history + [msg];
      EvictIfNeeded();
    }

    method AddUser(content: string)
      modifies this`history
      ensures history == Evict(old(history) + [UserMessage(content)], maxMessages)
    {
      Add(UserMessage(content));
    }

    method AddAssistant(content: string, toolCalls: seq<ToolCall>)
      modifies this`history
      ensures history == Evict(old(history) + [AssistantMessage(content, toolCalls)], maxMessages)
    {
      Add(AssistantMessage(content, toolCalls));
    }

    method AddToolResult(toolName: string, content: string, toolCallId: Option<string>)
      modifies this`history
      ensures history ==
                Evict(old(history) + [ToolMessage(toolName, Truncate(content, toolResultMaxChars), toolCallId)],
                      maxMessages)
    {
      Add(ToolMessage(toolName, Truncate(content, toolResultMaxChars), toolCallId));
    }

    method EvictIfNeeded()
      modifies this`history
      ensures history == Evict(old(history), maxMessages)
    {
      if maxMessages <= 0 || |history| <= maxMessages {
        return;
      }
      ghost var fits := Within(maxMessages);
      while |history| > maxMessages
        invariant Shrink(history, fits) == Shrink(old(history), fits)
        decreases |history|
      {
        ghost var group := DropGroup(history);
        history := history[1..];
        while |history| > 0 && IsTool(history[0])
          invariant DropTools(history) == group
          decreases |history|
        {
          history := history[1..];
        }
      }
    }

    /** The list for the next request; a budget of None, zero or less means no budget. */
    method GetMessages(systemPrompt: string, maxTokens: Option<int>, jsonLength: ToolCall -> nat)
      returns (msgs: seq<Message>)
      ensures msgs == Outgoing(history, systemPrompt, maxTokens, jsonLength)
    {
      msgs := if systemPrompt != "" then [SystemMessage(systemPrompt)] else [];
      for i := 0 to |history|
        invariant msgs ==
                  (if systemPrompt != "" then [SystemMessage(systemPrompt)] else []) + SerialiseAll(history[..i])
      {
        msgs := msgs + [Serialise(history[i])];
        assert SerialiseAll(history[..i + 1]) == SerialiseAll(history[..i]) + [Serialise(history[i])];
      }
      assert history[..|history|] == history;
      if maxTokens.Some? && maxTokens.value > 0 {
        msgs := TrimToTokenBudget(msgs, maxTokens.value, jsonLength);
      }
    }

    method ShrinkToByteBudget(maxBytes: int, size: seq<Message> -> nat)
      modifies this`history
      ensures history == ShrunkToBytes(old(history), maxBytes, size)
      ensures maxBytes <= 0 ==> history == old(history)
    {
      if maxBytes <= 0 {
        return;
      }
      ghost var fits := FitsBytes(maxBytes, size);
      while |history| > 0
        invariant Shrink(history, fits) == Shrink(old(history), fits)
        decreases |history|
      {
        if size(SerialiseAll(history)) <= maxBytes {
          return;
        }
        ghost var group := DropGroup(history);
        history := history[1..];
        while |history| > 0 && IsTool(history[0])
          invariant DropTools(history) == group
          decreases |history|
        {
          history := history[1..];
        }
      }
    }

    method ToDict(persistInternal: bool) returns (payload: Payload)
      ensures payload == Payload(SerialiseAll(history), context, if persistInternal then Some(internal) else None)
    {
      payload := Payload(SerialiseAll(history), context, if persistInternal then Some(internal) else None);
    }

    method LoadMessages(messages: seq<Message>)
      modifies this`history
      ensures history == Evict(old(history) + Sanitise(messages, {}), maxMessages)
    {
      var pendingIds: set<string> := {};
      assert messages[0..] == messages;
      hide Sanitise;
      for i := 0 to |messages|
        invariant history + Sanitise(messages[i..], pendingIds) == old(history) + Sanitise(messages, {})
      {
        var m := messages[i];
        SanitiseNext(history, messages, i, pendingIds);
        match m.role
        case System =>
        case User =>
          pendingIds := {};
          history := history + [UserMessage(m.content)];
        case Assistant =>
          pendingIds := Ids(m.toolCalls);
          history := history + [AssistantMessage(m.content, m.toolCalls)];
        case Tool =>
          if Truthy(m.toolCallId) && m.toolCallId.value in pendingIds {
            history := history + [Restore(m)];
            pendingIds := pendingIds - {m.toolCallId.value};
          }
        case Other(_) =>
      }
      SanitiseEnds(history, messages, pendingIds);
      EvictIfNeeded();
    }

    /** Rebuild a memory from a payload. */
    constructor FromDict(payload: Payload, maxMessages: int)
      ensures this.maxMessages == maxMessages && toolResultMaxChars == DEFAULT_TOOL_RESULT_MAX_CHARS
      ensures history == Evict(Sanitise(payload.messages, {}), maxMessages)
      ensures context == payload.context
      ensures internal == if payload.internal.Some? then payload.internal.value else map[]
    {
      this.maxMessages := maxMessages;
      this.toolResultMaxChars := DEFAULT_TOOL_RESULT_MAX_CHARS;
      history := [];
      context := payload.context;
      internal := if payload.internal.Some? then payload.internal.value else map[];
      new;
      LoadMessages(payload.messages);
      assert [] + Sanitise(payload.messages, {}) == Sanitise(payload.messages, {});
    }

    /** Keys that start with an underscore are volatile, all others durable. */
    method Set(key: string, value: string)
      modifies this`context, this`internal
      ensures key != "" && key[0] == '_' ==> internal == old(internal)[key := value] && context == old(context)
      ensures key == "" || key[0] != '_' ==> context == old(context)[key := value] && internal == old(internal)
    {
      if IsInternal(key) {
        internal := internal[key := value];
      } else {
        context := context[key := value];
      }
    }
  }

  function UserMessage(content: string): Message {
    Message(User, content, None, None, [])
  }

  function AssistantMessage(content: string, toolCalls: seq<ToolCall>): Message {
    Message(Assistant, content, None, None, toolCalls)
  }

  function ToolMessage(toolName: string, content: string, toolCallId: Option<string>): Message {
    Message(Tool, content, Some(toolName), toolCallId, [])
  }

  function SystemMessage(content: string): Message {
    Message(System, content, None, None, [])
  }

  /** The list sent for a history. */
  function Outgoing(history: seq<Message>, systemPrompt: string, maxTokens: Option<int>, jsonLength: ToolCall -> nat)
    : seq<Message>
  {
    var msgs := (if systemPrompt != "" then [SystemMessage(systemPrompt)] else []) + SerialiseAll(history);
    if maxTokens.Some? && maxTokens.value > 0 then Trimmed(msgs, maxTokens.value, jsonLength) else msgs
  }

  /** A list the LLM accepts: behind an optional system message, every call and every result has its counterpart. */
  ghost predicate Sendable(msgs: seq<Message>) {
    Complete(msgs[SystemHead(msgs)..], {})
  }

  ghost predicate SendablePairs(msgs: seq<Message>) {
    Paired(msgs[SystemHead(msgs)..], {})
  }

  /** What goes out is as well paired as the history, for every prompt and every token budget. */
  lemma OutgoingKeepsPairing(history: seq<Message>, systemPrompt: string, maxTokens: Option<int>,
                             jsonLength: ToolCall -> nat)
    requires Paired(history, {})
    ensures SendablePairs(Outgoing(history, systemPrompt, maxTokens, jsonLength))
    ensures Complete(history, {}) ==> Sendable(Outgoing(history, systemPrompt, maxTokens, jsonLength))
  {
    SerialiseKeepsPairing(history, {});
    var body := SerialiseAll(history);
    var head := if systemPrompt != "" then [SystemMessage(systemPrompt)] else [];
    var msgs := head + body;
    assert body != [] ==> body[0].role != System;
    assert SystemHead(msgs) == |head| && msgs[|head|..] == body && msgs[..|head|] == head;
    if maxTokens.Some? && maxTokens.value > 0 {
      TrimmingIsOptimal(msgs, maxTokens.value, jsonLength);
      var k := ShrinkIsBestCut(body, FitsTokens(head, maxTokens.value, jsonLength));
      var out := Trimmed(msgs, maxTokens.value, jsonLength);
      assert out == head + body[k..];
      assert head == [] ==> (out != [] ==> out[0] in body && out[0].role != System) by {
        if head == [] && out != [] {
          assert out[0] == body[k];
        }
      }
      assert SystemHead(out) == |head|;
    }
  }
}

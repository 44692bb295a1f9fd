/** What is sent to the LLM, message by message and field by field. */
module Outbound {
  import opened Eviction
  import opened Memory
  import opened Messages
  import opened Wrappers

  /** The text of an optional field; an absent one and an empty one are not told apart. */
  function TextOf(s: Option<string>): string {
    if s.Some? then s.value else ""
  }

  /** sent is the dictionary form of the message held: same role and text, and of the rest what belongs to the role. */
  ghost predicate Carries(sent: Message, held: Message) {
    && sent.role == held.role && sent.content == held.content
    && sent.toolCalls == (if held.role == Assistant then held.toolCalls else [])
    && (held.role == Tool ==>
          && TextOf(sent.toolName) == TextOf(held.toolName) && TextOf(sent.toolCallId) == TextOf(held.toolCallId)
          && sent.toolName != Some("") && sent.toolCallId != Some(""))
    && (held.role != Tool ==> sent.toolName.None? && sent.toolCallId.None?)
  }

  /** msgs is the optional system message, and behind it the history from message k on, one for one. */
  ghost predicate SentFrom(history: seq<Message>, systemPrompt: string, k: nat, msgs: seq<Message>) {
    var head := if systemPrompt == "" then 0 else 1;
    && k <= |history| && |msgs| == head + (|history| - k)
    && (systemPrompt != "" ==> msgs[0] == Message(System, systemPrompt, None, None, []))
    && forall i | head <= i < |msgs| :: Carries(msgs[i], history[k + i - head])
  }

  ghost predicate SentBehind(history: seq<Message>, systemPrompt: string, msgs: seq<Message>) {
    exists k: nat :: SentFrom(history, systemPrompt, k, msgs)
  }

  /** The list ends with what the user said, unless the budget does not even leave room for that. */
  ghost predicate Heard(systemPrompt: string, user: string, maxTokens: Option<int>, jsonLength: ToolCall -> nat,
                        msgs: seq<Message>) {
    var head := if systemPrompt == "" then [] else [Message(System, systemPrompt, None, None, [])];
    var said := Message(User, user, None, None, []);
    if maxTokens.None? || maxTokens.value <= 0 || Estimate(head + [said], jsonLength) <= maxTokens.value
    then msgs != [] && msgs[|msgs| - 1] == said
    else msgs == head
  }

  ghost predicate NoSystem(history: seq<Message>) {
    forall m | m in history :: m.role != System
  }

  lemma SerialiseCarries(m: Message)
    ensures Carries(Serialise(m), m)
  {
  }

  lemma CarriesOnce(a: Message, b: Message, held: Message)
    requires Carries(a, held) && Carries(b, held)
    ensures a == b
  {
  }

  /** Which lists are sent from message k on: only one. */
  lemma SentOnce(history: seq<Message>, systemPrompt: string, k: nat, msgs: seq<Message>)
    ensures SentFrom(history, systemPrompt, k, msgs) <==>
            k <= |history| &&
            msgs == (if systemPrompt != "" then [SystemMessage(systemPrompt)] else []) + SerialiseAll(history)[k..]
  {
    hide Carries, Serialise;
    var head := if systemPrompt != "" then [SystemMessage(systemPrompt)] else [];
    forall m: Message
      ensures Carries(Serialise(m), m)
    {
      SerialiseCarries(m);
    }
    if SentFrom(history, systemPrompt, k, msgs) {
      assert |msgs| == |head| + |history| - k;
      forall i | |head| <= i < |msgs|
        ensures msgs[i] == SerialiseAll(history)[k..][i - |head|]
      {
        CarriesOnce(msgs[i], Serialise(history[k + i - |head|]), history[k + i - |head|]);
      }
      assert msgs[..|head|] == head && msgs[|head|..] == SerialiseAll(history)[k..];
      assert msgs == msgs[..|head|] + msgs[|head|..];
    }
  }

  lemma GroupsAlike(history: seq<Message>, k: nat)
    requires k <= |history|
    ensures AtGroup(SerialiseAll(history), k) <==> AtGroup(history, k)
  {
    assert k < |history| ==> SerialiseAll(history)[k] == Serialise(history[k]);
  }

  lemma SystemAhead(history: seq<Message>, systemPrompt: string)
    requires NoSystem(history)
    ensures var head := if systemPrompt != "" then [SystemMessage(systemPrompt)] else [];
            var msgs := head + SerialiseAll(history);
            SystemHead(msgs) == |head| && msgs[..|head|] == head && msgs[|head|..] == SerialiseAll(history)
  {
    assert history != [] ==> history[0] in history && SerialiseAll(history)[0] == Serialise(history[0]);
  }

  /**
    What goes out for a history: the system prompt, if there is one, and behind it the history from some group on,
    every message with its role, text, calls, name and id. Without a token budget nothing is missing. With one, what
    is sent fits or is the system message alone, and no list with more groups would have fitted.
   */
  lemma OutgoingCarries(history: seq<Message>, systemPrompt: string, maxTokens: Option<int>,
                        jsonLength: ToolCall -> nat)
    returns (k: nat)
    requires NoSystem(history)
    ensures SentFrom(history, systemPrompt, k, Outgoing(history, systemPrompt, maxTokens, jsonLength))
    ensures AtGroup(history, k)
    ensures maxTokens.None? || maxTokens.value <= 0 ==> k == 0
    ensures maxTokens.Some? && maxTokens.value > 0 ==>
              && (Estimate(Outgoing(history, systemPrompt, maxTokens, jsonLength), jsonLength) <= maxTokens.value ||
                  k == |history|)
              && forall j: nat, msgs | j < k && AtGroup(history, j) && SentFrom(history, systemPrompt, j, msgs) ::
                   Estimate(msgs, jsonLength) > maxTokens.value
  {
    hide Carries, SentFrom, Serialise, SerialiseAll, Estimate, AtGroup, Shrink;
    var head := if systemPrompt != "" then [SystemMessage(systemPrompt)] else [];
    var body := SerialiseAll(history);
    SystemAhead(history, systemPrompt);
    k := 0;
    if maxTokens.Some? && maxTokens.value > 0 {
      k := ShrinkIsBestCut(body, FitsTokens(head, maxTokens.value, jsonLength));
      GroupsAlike(history, k);
      forall j: nat, msgs | j < k && AtGroup(history, j) && SentFrom(history, systemPrompt, j, msgs)
        ensures Estimate(msgs, jsonLength) > maxTokens.value
      {
        GroupsAlike(history, j);
        SentOnce(history, systemPrompt, j, msgs);
      }
    } else {
      FirstGroup(history);
      assert body[0..] == body;
    }
    SentOnce(history, systemPrompt, k, Outgoing(history, systemPrompt, maxTokens, jsonLength));
  }

  lemma FirstGroup(history: seq<Message>)
    ensures AtGroup(history, 0)
  {
  }

  /** A history that ends with what the user just said is sent with it at the end, unless not even that fits. */
  lemma UserIsHeard(history: seq<Message>, user: string, systemPrompt: string, maxTokens: Option<int>,
                    jsonLength: ToolCall -> nat)
    requires NoSystem(history) && history != [] && history[|history| - 1] == Message(User, user, None, None, [])
    ensures Heard(systemPrompt, user, maxTokens, jsonLength, Outgoing(history, systemPrompt, maxTokens, jsonLength))
  {
    hide Estimate, Outgoing, Shrink;
    var k := OutgoingCarries(history, systemPrompt, maxTokens, jsonLength);
    var sent := Outgoing(history, systemPrompt, maxTokens, jsonLength);
    var head := if systemPrompt == "" then [] else [Message(System, systemPrompt, None, None, [])];
    var said := Message(User, user, None, None, []);
    var last := |history| - 1;
    assert SentFrom(history, systemPrompt, last, head + [said]);
    if k < |history| {
      assert Carries(sent[|sent| - 1], history[last]);
      assert sent[|sent| - 1] == said;
      if maxTokens.Some? && maxTokens.value > 0 {
        LastFits(sent, head, said, jsonLength);
      }
    }
  }

  lemma {:induction false} EstimateAdds(a: seq<Message>, b: seq<Message>, jsonLength: ToolCall -> nat)
    ensures Estimate(a + b, jsonLength) == Estimate(a, jsonLength) + Estimate(b, jsonLength)
  {
    if a == [] {
      assert a + b == b;
    } else {
      assert (a + b)[1..] == a[1..] + b;
      EstimateAdds(a[1..], b, jsonLength);
    }
  }

  /** What one message is estimated at: a quarter of its characters, four more, and a quarter of each of its calls. */
  lemma EstimateMeans(m: Message, calls: seq<ToolCall>, call: ToolCall, jsonLength: ToolCall -> nat)
    ensures m.toolCalls == [] ==> Estimate([m], jsonLength) == |m.content| / 4 + 4
    ensures m.toolCalls == [call] + calls ==>
              Estimate([m], jsonLength) == jsonLength(call) / 4 + Estimate([m.(toolCalls := calls)], jsonLength)
  {
    assert [m][1..] == [] && [m.(toolCalls := calls)][1..] == [] && ([call] + calls)[1..] == calls;
  }

  lemma LastFits(sent: seq<Message>, head: seq<Message>, said: Message, jsonLength: ToolCall -> nat)
    requires |sent| > |head| && sent[..|head|] == head && sent[|sent| - 1] == said
    ensures Estimate(head + [said], jsonLength) <= Estimate(sent, jsonLength)
  {
    var middle := sent[|head|..|sent| - 1];
    assert sent == head + middle + [said];
    EstimateAdds(head + middle, [said], jsonLength);
    EstimateAdds(head, middle, jsonLength);
    EstimateAdds(head, [said], jsonLength);
  }
}

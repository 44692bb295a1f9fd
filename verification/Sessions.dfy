/** Saving conversation memories to session rows and loading them back. */
module Sessions {
  import opened Wrappers
  import opened Messages
  import opened Eviction
  import opened Memory
  import opened Outbound

  const MAX_SESSION_BYTES := 512 * 1024

  /** The row written for a memory; size is the byte length of the JSON text of a message list. */
  function Stored(history: seq<Message>, context: map<string, string>, size: seq<Message> -> nat): Payload {
    Payload(SerialiseAll(ShrunkToBytes(history, MAX_SESSION_BYTES, size)), context, None)
  }

  function Loaded(payload: Payload): seq<Message> {
    Evict(Sanitise(payload.messages, {}), DEFAULT_MAX_MESSAGES)
  }

  /** The agent_sessions table. */
  class SessionStore {
    var rows: map<string, Payload>

    constructor ()
      ensures rows == map[]
    {
      rows := map[];
    }

    /** Shrinks the memory itself, then writes the whole row. */
    method SaveSession(sessionId: string, memory: AgentMemory, size: seq<Message> -> nat)
      modifies this, memory`history
      ensures rows == old(rows)[sessionId := Stored(old(memory.history), memory.context, size)]
      ensures memory.history == ShrunkToBytes(old(memory.history), MAX_SESSION_BYTES, size)
    {
      memory.ShrinkToByteBudget(MAX_SESSION_BYTES, size);
      var payload := memory.ToDict(false);
      rows := rows[sessionId := payload];
    }

    /** A missing session loads as a new, empty memory. */
    method LoadSession(sessionId: string) returns (memory: AgentMemory)
      ensures fresh(memory) && memory.maxMessages == DEFAULT_MAX_MESSAGES
      ensures memory.toolResultMaxChars == DEFAULT_TOOL_RESULT_MAX_CHARS
      ensures memory.history == if sessionId in rows then Loaded(rows[sessionId]) else []
      ensures memory.context == if sessionId in rows then rows[sessionId].context else map[]
      ensures memory.internal ==
                if sessionId in rows && rows[sessionId].internal.Some? then rows[sessionId].internal.value else map[]
    {
      if sessionId !in rows {
        memory := new AgentMemory(DEFAULT_MAX_MESSAGES, DEFAULT_TOOL_RESULT_MAX_CHARS);
      } else {
        memory := new AgentMemory.FromDict(rows[sessionId], DEFAULT_MAX_MESSAGES);
      }
    }

    method ClearSession(sessionId: string)
      modifies this
      ensures rows == old(rows) - {sessionId}
    {
      rows := rows - {sessionId};
    }
  }

  /** Histories with the same serialised form are cut at the same place. */
  lemma EvictRespectsSerialised(a: seq<Message>, b: seq<Message>, max: int)
    requires SerialiseAll(a) == SerialiseAll(b)
    ensures SerialiseAll(Evict(a, max)) == SerialiseAll(Evict(b, max))
  {
    assert |a| == |b| by {
      assert |SerialiseAll(a)| == |a| && |SerialiseAll(b)| == |b|;
    }
    forall i | 0 <= i < |a|
      ensures Serialise(a[i]) == Serialise(b[i]) && IsTool(a[i]) == IsTool(b[i])
    {
      assert SerialiseAll(a)[i] == SerialiseAll(b)[i];
    }
    if max > 0 {
      var fits := Within(max);
      var k := ShrinkIsBestCut(a, fits);
      forall j | 0 <= j < k && AtGroup(b, j)
        ensures !fits(b[j..])
      {
        assert AtGroup(a, j) && |a[j..]| == |b[j..]|;
      }
      assert k < |b| ==> fits(a[k..]) && fits(b[k..]);
      ShrinkAt(b, fits, k);
    }
  }

  /** Eviction and serialisation commute. */
  lemma EvictSerialised(h: seq<Message>, max: int)
    ensures Evict(SerialiseAll(h), max) == SerialiseAll(Evict(h, max))
  {
    SerialiseIdempotent(h);
    EvictRespectsSerialised(SerialiseAll(h), h, max);
    if max > 0 {
      var k := ShrinkIsBestCut(SerialiseAll(h), Within(max));
      SerialiseIdempotent(h[k..]);
      assert SerialiseAll(h)[k..] == SerialiseAll(h[k..]);
    } else {
      assert Evict(SerialiseAll(h), max) == SerialiseAll(h);
    }
  }

  /**
    Save, then load, for any paired history: the loaded memory serialises to what was saved, cut to the default
    message bound, which changes nothing up to 40 messages; saving it again writes the same row.
    What was saved is the longest suffix of whole groups within the byte limit, or nothing.
   */
  lemma SaveThenLoad(h: seq<Message>, context: map<string, string>, size: seq<Message> -> nat)
    requires Paired(h, {})
    ensures var row := Stored(h, context, size);
            && SerialiseAll(Loaded(row)) == Evict(row.messages, DEFAULT_MAX_MESSAGES)
            && (|h| <= DEFAULT_MAX_MESSAGES ==>
                  && SerialiseAll(Loaded(row)) == row.messages
                  && Stored(Loaded(row), row.context, size) == row)
            && Paired(Loaded(row), {})
            && (Complete(h, {}) ==> Complete(Loaded(row), {}))
            && row.context == context && row.internal == None
            && (size(row.messages) <= MAX_SESSION_BYTES || row.messages == [])
            && exists k: nat ::
                 BestCut(h, FitsBytes(MAX_SESSION_BYTES, size), k) && row.messages == SerialiseAll(h[k..])
  {
    var row := Stored(h, context, size);
    var fits := FitsBytes(MAX_SESSION_BYTES, size);
    var k := ShrinkIsBestCut(h, fits);
    var kept := h[k..];
    assert row.messages == SerialiseAll(kept);
    ShrinkKeepsPairing(h, fits);
    SanitiseInvertsSerialise(kept, {});
    EvictRespectsSerialised(Sanitise(row.messages, {}), kept, DEFAULT_MAX_MESSAGES);
    EvictSerialised(kept, DEFAULT_MAX_MESSAGES);
    LoadedPaired(h, kept, row);
    if |h| <= DEFAULT_MAX_MESSAGES {
      EvictBounded(kept, DEFAULT_MAX_MESSAGES);
      SavedAgain(row, Loaded(row), size);
    }
  }

  /** loaded is the message held, up to absent names and ids that come back empty. */
  ghost predicate Agrees(loaded: Message, held: Message) {
    && loaded.role == held.role && loaded.content == held.content
    && loaded.toolCalls == (if held.role == Assistant then held.toolCalls else [])
    && (held.role == Tool ==>
          TextOf(loaded.toolName) == TextOf(held.toolName) && TextOf(loaded.toolCallId) == TextOf(held.toolCallId))
    && (held.role != Tool ==> loaded.toolName.None? && loaded.toolCallId.None?)
  }

  lemma RestoreShape(m: Message)
    ensures m.role == User || m.role == Assistant || m.role == Tool ==> Agrees(Restore(m), m)
    ensures Restore(m).role == m.role
  {
  }

  lemma AgreesTwice(loaded: Message, stored: Message, held: Message)
    requires Agrees(loaded, stored) && Carries(stored, held)
    ensures Agrees(loaded, held)
  {
  }

  /** From the stored form of a paired history every message is restored as it was. */
  lemma {:induction false} SanitisedAgrees(h: seq<Message>, stored: seq<Message>, pending: set<string>)
    requires Paired(h, pending) && |stored| == |h| && forall i | 0 <= i < |h| :: Carries(stored[i], h[i])
    ensures |Sanitise(stored, pending)| == |h|
    ensures forall i | 0 <= i < |h| :: Agrees(Sanitise(stored, pending)[i], h[i])
  {
    if h != [] {
      assert Carries(stored[0], h[0]);
      RestoreShape(stored[0]);
      AgreesTwice(Restore(stored[0]), stored[0], h[0]);
      var next := Pending(stored[0], pending);
      forall i | 0 <= i < |h[1..]|
        ensures Carries(stored[1..][i], h[1..][i])
      {
        assert Carries(stored[i + 1], h[i + 1]);
      }
      SanitisedAgrees(h[1..], stored[1..], next);
      assert Sanitise(stored, pending) == [Restore(stored[0])] + Sanitise(stored[1..], next);
    }
  }

  lemma KeptIsPaired(h: seq<Message>, k: nat)
    requires Paired(h, {}) && k <= |h| && AtGroup(h, k)
    ensures Paired(h[k..], {})
  {
    if k > 0 {
      SuffixPaired(h, {}, k);
    } else {
      assert h[0..] == h;
    }
  }

  /** The part that survives the message bound. */
  lemma LastGroups(h: seq<Message>, restored: seq<Message>, max: int) returns (k: nat)
    requires max > 0 && |restored| == |h| && forall i | 0 <= i < |h| :: Agrees(restored[i], h[i])
    ensures k <= |h| && AtGroup(h, k) && Evict(restored, max) == restored[k..] && |h| - k <= max
    ensures |h| <= max ==> k == 0
  {
    k := ShrinkIsBestCut(restored, Within(max));
    assert k < |h| ==> Agrees(restored[k], h[k]);
    assert |h| <= max ==> AtGroup(restored, 0) && Within(max)(restored[0..]);
  }

  lemma KeptIsLoaded(h: seq<Message>, saved: nat, row: Payload) returns (loaded: nat)
    requires Paired(h, {}) && saved <= |h| && AtGroup(h, saved) && row.messages == SerialiseAll(h[saved..])
    ensures saved <= loaded <= |h| && AtGroup(h, loaded) && |Loaded(row)| == |h| - loaded <= 40
    ensures forall i | 0 <= i < |row.messages| :: Carries(row.messages[i], h[saved + i])
    ensures forall i | 0 <= i < |Loaded(row)| :: Agrees(Loaded(row)[i], h[loaded + i])
    ensures |h| - saved <= 40 ==> loaded == saved
  {
    hide Sanitise, Evict, Agrees, Carries, Serialise;
    var kept := h[saved..];
    KeptIsPaired(h, saved);
    forall i | 0 <= i < |kept|
      ensures Carries(row.messages[i], kept[i])
    {
      SerialiseCarries(kept[i]);
    }
    SanitisedAgrees(kept, row.messages, {});
    var restored := Sanitise(row.messages, {});
    var k := LastGroups(kept, restored, DEFAULT_MAX_MESSAGES);
    loaded := saved + k;
    assert k < |kept| ==> kept[k] == h[loaded];
    forall i | 0 <= i < |Loaded(row)|
      ensures Agrees(Loaded(row)[i], h[loaded + i])
    {
      assert Agrees(restored[k + i], kept[k + i]);
    }
  }

  /**
    Nothing is lost or changed between saving and loading: the row holds the messages of the history from some group
    on, field by field, and no more groups would have fitted the limit of 524288 bytes; the loaded history agrees
    with the last groups of it, all of them if they are at most 40 messages, message by message and field by field.
   */
  lemma SavedIsLoaded(h: seq<Message>, context: map<string, string>, size: seq<Message> -> nat)
    returns (saved: nat, loaded: nat)
    requires Paired(h, {})
    ensures var row, back := Stored(h, context, size), Loaded(Stored(h, context, size));
            && saved <= loaded <= |h| && AtGroup(h, saved) && AtGroup(h, loaded)
            && |row.messages| == |h| - saved && |back| == |h| - loaded
            && (forall i | 0 <= i < |row.messages| :: Carries(row.messages[i], h[saved + i]))
            && (forall i | 0 <= i < |back| :: Agrees(back[i], h[loaded + i]))
            && (saved == |h| || size(row.messages) <= 524288)
            && (forall j: nat, msgs | j < saved && AtGroup(h, j) && SentFrom(h, "", j, msgs) :: size(msgs) > 524288)
            && |back| <= 40 && (|h| - saved <= 40 ==> loaded == saved)
  {
    var row := Stored(h, context, size);
    saved := ShrinkIsBestCut(h, FitsBytes(MAX_SESSION_BYTES, size));
    var kept := h[saved..];
    loaded := KeptIsLoaded(h, saved, row);
    forall j: nat, msgs | j < saved && AtGroup(h, j) && SentFrom(h, "", j, msgs)
      ensures size(msgs) > 524288
    {
      SentOnce(h, "", j, msgs);
      assert [] + SerialiseAll(h)[j..] == SerialiseAll(h[j..]);
    }
  }

  lemma LoadedPaired(h: seq<Message>, kept: seq<Message>, row: Payload)
    requires row.messages == SerialiseAll(kept) && Paired(kept, {})
    requires Complete(h, {}) ==> Complete(kept, {})
    ensures Paired(Loaded(row), {})
    ensures Complete(h, {}) ==> Complete(Loaded(row), {})
  {
    var s := Sanitise(row.messages, {});
    SanitisedIsPaired(row.messages, {});
    SanitiseInvertsSerialise(kept, {});
    SerialiseKeepsPairing(kept, {});
    SerialiseKeepsPairing(s, {});
    EvictKeepsPairing(s, DEFAULT_MAX_MESSAGES);
  }

  lemma SavedAgain(row: Payload, loaded: seq<Message>, size: seq<Message> -> nat)
    requires SerialiseAll(loaded) == row.messages
    requires row.messages == [] || size(row.messages) <= MAX_SESSION_BYTES
    ensures SerialiseAll(ShrunkToBytes(loaded, MAX_SESSION_BYTES, size)) == row.messages
  {
  }
}

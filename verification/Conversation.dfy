/** A whole session: any sequence of turns, saves, loads and removals of the stored row. */
module Conversation {
  import opened Eviction
  import opened Memory
  import opened Messages
  import opened Planner
  import opened Sessions
  import opened Wrappers

  /** The memory in use, with its bound and its limit for tool results, and the stored row of the session. */
  datatype State = State(history: seq<Message>, max: int, cap: int, row: Option<Payload>)

  /** A turn makes some number of requests. A load replaces the memory in use. */
  datatype Event =
    | Turn(user: string, env: Environment, requests: nat)
    | Save(size: seq<Message> -> nat, context: map<string, string>)
    | Load
    | Clear

  /** A turn goes on only as long as the loop does, and its replies' calls can be told apart and fit the bound. */
  ghost predicate Possible(s: State, e: Event) {
    e.Turn? ==>
      && (forall i | 0 <= i < e.requests - 1 :: Continues(e.env, i))
      && forall i | 0 <= i < e.requests :: GoodReply(e.env.reply(i), s.max)
  }

  function After(s: State, e: Event): State {
    match e
    case Turn(user, env, n) => s.(history := HistoryAfter(s.history, env, user, s.cap, s.max, n))
    case Save(size, context) =>
      s.(history := ShrunkToBytes(s.history, MAX_SESSION_BYTES, size), row := Some(Stored(s.history, context, size)))
    case Load =>
      State(if s.row.Some? then Loaded(s.row.value) else [], DEFAULT_MAX_MESSAGES, DEFAULT_TOOL_RESULT_MAX_CHARS, s.row)
    case Clear => s.(row := None)
  }

  // ----- the events as what happens to a memory and the table of sessions

  function Seen(store: SessionStore, id: string, mem: AgentMemory): State
    reads store, mem
  {
    State(mem.history, mem.maxMessages, mem.toolResultMaxChars, if id in store.rows then Some(store.rows[id]) else None)
  }

  method TakeTurn(store: SessionStore, id: string, mem: AgentMemory, user: string, env: Environment,
                  maxIterations: int, budget: Option<int>, jsonLength: ToolCall -> nat)
    returns (answer: Answer, requests: seq<seq<Message>>)
    modifies mem`history
    ensures Seen(store, id, mem) == After(old(Seen(store, id, mem)), Turn(user, env, |requests|))
    ensures forall i | 0 <= i < |requests| - 1 :: Continues(env, i)
  {
    hide HistoryAfter, Continues, Raises, Submits, LastSubmission, OnlyTools, Outgoing;
    answer, requests := Run(mem, user, env, maxIterations, budget, jsonLength);
  }

  method SaveNow(store: SessionStore, id: string, mem: AgentMemory, size: seq<Message> -> nat)
    modifies store, mem`history
    ensures Seen(store, id, mem) == After(old(Seen(store, id, mem)), Save(size, mem.context))
  {
    hide ShrunkToBytes;
    store.SaveSession(id, mem, size);
  }

  method LoadNow(store: SessionStore, id: string, mem: AgentMemory) returns (loaded: AgentMemory)
    ensures fresh(loaded) && Seen(store, id, loaded) == After(Seen(store, id, mem), Load)
  {
    hide Loaded;
    loaded := store.LoadSession(id);
  }

  method ClearNow(store: SessionStore, id: string, mem: AgentMemory)
    modifies store
    ensures Seen(store, id, mem) == After(old(Seen(store, id, mem)), Clear)
  {
    store.ClearSession(id);
  }

  /** The state after a session that starts with a new memory. */
  function Replay(max: int, cap: int, events: seq<Event>): State {
    if events == [] then State([], max, cap, None)
    else After(Replay(max, cap, events[..|events| - 1]), events[|events| - 1])
  }

  ghost predicate AllPossible(max: int, cap: int, events: seq<Event>) {
    forall k {:trigger events[k]} | 0 <= k < |events| :: Possible(Replay(max, cap, events[..k]), events[k])
  }

  /** A tool raised in the last iteration of the turn. */
  predicate Broken(e: Event) {
    e.Turn? && e.requests > 0 && Raises(e.env, e.requests - 1)
  }

  ghost predicate NoneBroken(events: seq<Event>) {
    forall e | e in events :: !Broken(e)
  }

  /** Memory and row are paired; the row is in its stored form. */
  ghost predicate Sound(s: State) {
    Paired(s.history, {}) &&
    (s.row.Some? ==> Paired(s.row.value.messages, {}) && SerialiseAll(s.row.value.messages) == s.row.value.messages)
  }

  ghost predicate Whole(s: State) {
    Complete(s.history, {}) && (s.row.Some? ==> Complete(s.row.value.messages, {}))
  }

  lemma TurnStep(s: State, e: Event)
    requires Sound(s) && Possible(s, e) && e.Turn?
    ensures Sound(After(s, e))
    ensures Whole(s) && !Broken(e) ==> Whole(After(s, e))
  {
    hide Raises, HistoryAfter, Evict, Paired, Complete, Transcript, GoodReply, Continues, Group;
    TurnStaysPaired(s.history, e.env, e.user, s.cap, s.max, e.requests);
    EvictKeepsPairing(s.history + Transcript(e.env, e.user, s.cap, e.requests), s.max);
    if Whole(s) {
      TurnEndsCompleteUnlessRaised(s.history, e.env, e.user, s.cap, s.max, e.requests);
    }
  }

  lemma SaveStep(s: State, size: seq<Message> -> nat, context: map<string, string>)
    requires Sound(s)
    ensures Sound(After(s, Save(size, context)))
    ensures Whole(s) ==> Whole(After(s, Save(size, context)))
  {
    hide Paired, Complete, Shrink;
    ShrinkKeepsPairing(s.history, FitsBytes(MAX_SESSION_BYTES, size));
    var kept := ShrunkToBytes(s.history, MAX_SESSION_BYTES, size);
    SerialiseKeepsPairing(kept, {});
    SerialiseIdempotent(kept);
  }

  lemma LoadStep(s: State)
    requires Sound(s)
    ensures Sound(After(s, Load))
    ensures Whole(s) ==> Whole(After(s, Load))
  {
    if s.row.Some? {
      LoadedPaired(s.row.value.messages, s.row.value.messages, s.row.value);
    }
  }

  /** Whatever has happened in a session, memory and row are paired; and complete, as long as no tool raised. */
  lemma {:induction false} SessionStaysSound(max: int, cap: int, events: seq<Event>)
    requires AllPossible(max, cap, events)
    ensures Sound(Replay(max, cap, events))
    ensures NoneBroken(events) ==> Whole(Replay(max, cap, events))
    decreases |events|
  {
    if events != [] {
      hide Possible, Sound, Whole, Broken, After;
      var front, last := events[..|events| - 1], events[|events| - 1];
      FrontPossible(max, cap, events);
      SessionStaysSound(max, cap, front);
      assert NoneBroken(events) ==> NoneBroken(front) && !Broken(last) by {
        assert last in events && forall e | e in front :: e in events;
      }
      var s := Replay(max, cap, front);
      match last
      case Turn(_, _, _) => TurnStep(s, last);
      case Save(size, context) => SaveStep(s, size, context);
      case Load => LoadStep(s);
      case Clear => ClearStep(s);
    }
  }

  lemma ClearStep(s: State)
    requires Sound(s)
    ensures Sound(After(s, Clear))
    ensures Whole(s) ==> Whole(After(s, Clear))
  {
  }

  lemma FrontPossible(max: int, cap: int, events: seq<Event>)
    requires AllPossible(max, cap, events) && events != []
    ensures AllPossible(max, cap, events[..|events| - 1])
    ensures Possible(Replay(max, cap, events[..|events| - 1]), events[|events| - 1])
  {
    hide Possible;
    var front := events[..|events| - 1];
    forall k | 0 <= k < |front|
      ensures Possible(Replay(max, cap, front[..k]), front[k])
    {
      assert front[..k] == events[..k] && front[k] == events[k];
    }
  }

  /**
    In every session, over any turns, saves, loads and removals before it, each request of each turn has every
    result paired with its call, for every prompt and token budget; and every call answered, if no earlier turn was
    broken off by a tool.
   */
  lemma EveryRequestIsSendable(max: int, cap: int, before: seq<Event>, turn: Event, i: nat, budget: Option<int>,
                               jsonLength: ToolCall -> nat)
    requires AllPossible(max, cap, before) && turn.Turn? && Possible(Replay(max, cap, before), turn)
    requires i < turn.requests
    ensures var s := Replay(max, cap, before);
            var sent := Outgoing(HistoryAfter(s.history, turn.env, turn.user, s.cap, s.max, i),
                                 turn.env.prompt(i), budget, jsonLength);
            SendablePairs(sent) && (NoneBroken(before) ==> Sendable(sent))
  {
    hide Replay, HistoryAfter, Outgoing, Paired, Complete, Continues, GoodReply, SendablePairs, Sendable;
    SessionStaysSound(max, cap, before);
    var s := Replay(max, cap, before);
    RequestsAreSendable(s.history, turn.env, turn.user, s.cap, s.max, i, budget, jsonLength);
  }
}

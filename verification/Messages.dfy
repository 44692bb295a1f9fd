/** Chat messages, the pairing of tool calls with tool results, and dropping old messages group by group. */
module Messages {
  import opened Wrappers

  datatype Role = System | User | Assistant | Tool | Other(name: string)

  /** One requested tool call; id is None when the reply carries no id key at all. */
  datatype ToolCall = ToolCall(id: Option<string>, name: string, arguments: string)

  /** A message as held in memory and as sent or stored; absent keys are None or empty. */
  datatype Message = Message(role: Role, content: string, toolName: Option<string>, toolCallId: Option<string>,
                             toolCalls: seq<ToolCall>)

  predicate Truthy(s: Option<string>) {
    s.Some? && s.value != ""
  }

  function Ids(calls: seq<ToolCall>): set<string> {
    set c | c in calls && Truthy(c.id) :: c.id.value
  }

  predicate IsTool(m: Message) {
    m.role == Tool
  }

  // ----- pairing

  /**
    Every tool message answers a call of the latest assistant message that is still unanswered;
    pending are the calls open at the start.
   */
  ghost predicate Paired(h: seq<Message>, pending: set<string>) {
    h == [] ||
    match h[0].role
    case User => Paired(h[1..], {})
    case Assistant => Paired(h[1..], Ids(h[0].toolCalls))
    case Tool => Truthy(h[0].toolCallId) && h[0].toolCallId.value in pending
                 && Paired(h[1..], pending - {h[0].toolCallId.value})
    case _ => false
  }

  /** Paired, and every call is answered before the next user or assistant message. */
  ghost predicate Complete(h: seq<Message>, pending: set<string>) {
    if h == [] then pending == {}
    else
      match h[0].role
      case User => pending == {} && Complete(h[1..], {})
      case Assistant => pending == {} && Complete(h[1..], Ids(h[0].toolCalls))
      case Tool => Truthy(h[0].toolCallId) && h[0].toolCallId.value in pending
                   && Complete(h[1..], pending - {h[0].toolCallId.value})
      case _ => false
  }

  /** The calls left open after h. */
  ghost function OpenAfter(h: seq<Message>, pending: set<string>): set<string> {
    if h == [] then pending
    else
      match h[0].role
      case User => OpenAfter(h[1..], {})
      case Assistant => OpenAfter(h[1..], Ids(h[0].toolCalls))
      case Tool => if h[0].toolCallId.Some? then OpenAfter(h[1..], pending - {h[0].toolCallId.value})
                   else OpenAfter(h[1..], pending)
      case _ => OpenAfter(h[1..], pending)
  }

  lemma {:induction false} CompleteIsPaired(h: seq<Message>, pending: set<string>)
    requires Complete(h, pending)
    ensures Paired(h, pending) && OpenAfter(h, pending) == {}
  {
    if h != [] {
      match h[0].role
      case User => CompleteIsPaired(h[1..], {});
      case Assistant => CompleteIsPaired(h[1..], Ids(h[0].toolCalls));
      case Tool => CompleteIsPaired(h[1..], pending - {h[0].toolCallId.value});
    }
  }

  lemma {:induction false} PairedConcat(a: seq<Message>, b: seq<Message>, pending: set<string>)
    ensures Paired(a + b, pending) <==> Paired(a, pending) && Paired(b, OpenAfter(a, pending))
    ensures OpenAfter(a + b, pending) == OpenAfter(b, OpenAfter(a, pending))
  {
    if a == [] {
      assert a + b == b;
    } else {
      assert (a + b)[0] == a[0] && (a + b)[1..] == a[1..] + b;
      match a[0].role
      case User => PairedConcat(a[1..], b, {});
      case Assistant => PairedConcat(a[1..], b, Ids(a[0].toolCalls));
      case Tool =>
        PairedConcat(a[1..], b, if a[0].toolCallId.Some? then pending - {a[0].toolCallId.value} else pending);
      case _ => PairedConcat(a[1..], b, pending);
    }
  }

  lemma {:induction false} CompleteConcat(a: seq<Message>, b: seq<Message>, pending: set<string>)
    requires Complete(a, pending) && Complete(b, {})
    ensures Complete(a + b, pending)
  {
    if a == [] {
      assert a + b == b;
    } else {
      assert (a + b)[0] == a[0] && (a + b)[1..] == a[1..] + b;
      match a[0].role
      case User => CompleteConcat(a[1..], b, {});
      case Assistant => CompleteConcat(a[1..], b, Ids(a[0].toolCalls));
      case Tool => CompleteConcat(a[1..], b, pending - {a[0].toolCallId.value});
    }
  }

  // ----- groups: a message together with the tool messages right behind it

  /** Cutting h before position k keeps groups whole. */
  predicate AtGroup(h: seq<Message>, k: nat)
    requires k <= |h|
  {
    k == 0 || k == |h| || !IsTool(h[k])
  }

  function DropTools(h: seq<Message>): seq<Message> {
    if h != [] && IsTool(h[0]) then DropTools(h[1..]) else h
  }

  function DropGroup(h: seq<Message>): seq<Message>
    requires h != []
  {
    DropTools(h[1..])
  }

  lemma {:induction false} DropToolsCut(h: seq<Message>) returns (g: nat)
    ensures g <= |h| && DropTools(h) == h[g..]
    ensures forall i | 0 <= i < g :: IsTool(h[i])
    ensures g == |h| || !IsTool(h[g])
  {
    if h != [] && IsTool(h[0]) {
      var g' := DropToolsCut(h[1..]);
      g := g' + 1;
    } else {
      g := 0;
    }
  }

  lemma DropGroupShorter(h: seq<Message>)
    requires h != []
    ensures |DropGroup(h)| < |h|
  {
    var _ := DropToolsCut(h[1..]);
  }

  /** Drop groups from the front until nothing is left or the rest fits. */
  function Shrink(h: seq<Message>, fits: seq<Message> -> bool): seq<Message>
    decreases |h|
  {
    if h == [] || fits(h) then h
    else
      DropGroupShorter(h);
      Shrink(DropGroup(h), fits)
  }

  /** k is the cut for the longest suffix of whole groups that fits; the empty suffix counts as fitting. */
  ghost predicate BestCut(h: seq<Message>, fits: seq<Message> -> bool, k: nat) {
    && k <= |h|
    && AtGroup(h, k)
    && (k == |h| || fits(h[k..]))
    && forall j | 0 <= j < k && AtGroup(h, j) :: !fits(h[j..])
  }

  /** Dropping groups one by one ends at the longest suffix of whole groups that fits. */
  lemma {:induction false} ShrinkIsBestCut(h: seq<Message>, fits: seq<Message> -> bool) returns (k: nat)
    ensures BestCut(h, fits, k) && Shrink(h, fits) == h[k..]
    decreases |h|
  {
    assert h[0..] == h;
    if h == [] || fits(h) {
      k := 0;
    } else {
      var g := DropToolsCut(h[1..]);
      assert h[1..][g..] == h[g + 1..];
      var k' := ShrinkIsBestCut(h[g + 1..], fits);
      k := g + 1 + k';
      assert forall i | 1 <= i <= g :: h[i] == h[1..][i - 1] && IsTool(h[i]);
      assert h[g + 1..][k'..] == h[k..];
      forall j | 0 <= j < k && AtGroup(h, j)
        ensures !fits(h[j..])
      {
        if j >= g + 1 {
          assert AtGroup(h[g + 1..], j - (g + 1));
          assert h[g + 1..][j - (g + 1)..] == h[j..];
        }
      }
    }
  }

  lemma BestCutUnique(h: seq<Message>, fits: seq<Message> -> bool, j: nat, k: nat)
    requires BestCut(h, fits, j) && BestCut(h, fits, k)
    ensures j == k
  {
  }

  lemma ShrinkAt(h: seq<Message>, fits: seq<Message> -> bool, k: nat)
    requires BestCut(h, fits, k)
    ensures Shrink(h, fits) == h[k..]
  {
    var j := ShrinkIsBestCut(h, fits);
    BestCutUnique(h, fits, j, k);
  }

  /** A suffix of whole groups of a paired (complete) history is paired (complete). */
  lemma {:induction false} SuffixPaired(h: seq<Message>, pending: set<string>, k: nat)
    requires Paired(h, pending) && 0 < k <= |h| && AtGroup(h, k)
    ensures Paired(h[k..], {})
    ensures Complete(h, pending) ==> Complete(h[k..], {})
  {
    var open := match h[0].role
      case User => {}
      case Assistant => Ids(h[0].toolCalls)
      case Tool => pending - {h[0].toolCallId.value}
      case _ => {};
    assert Paired(h[1..], open);
    assert Complete(h, pending) ==> Complete(h[1..], open);
    if k > 1 {
      SuffixPaired(h[1..], open, k - 1);
      assert h[1..][k - 1..] == h[k..];
    }
  }

  /** Dropping groups keeps pairing and completeness, whatever decides how much to drop. */
  lemma ShrinkKeepsPairing(h: seq<Message>, fits: seq<Message> -> bool)
    requires Paired(h, {})
    ensures Paired(Shrink(h, fits), {})
    ensures Complete(h, {}) ==> Complete(Shrink(h, fits), {})
  {
    var k := ShrinkIsBestCut(h, fits);
    if k > 0 {
      SuffixPaired(h, {}, k);
    } else {
      assert h[0..] == h;
    }
  }
}

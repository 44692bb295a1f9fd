/** Reassembling a streamed chat completion from its fragments. */
module Streaming {
  import opened Wrappers

  /** A piece of a tool call; absent ids and names and empty ones are not told apart. */
  datatype Fragment = Fragment(index: int, id: string, kind: Option<string>, name: string, arguments: string)

  /** One decoded chunk of the stream; a chunk without choices has empty parts. */
  datatype Chunk = Chunk(content: string, reasoning: string, calls: seq<Fragment>, finishReason: string)

  datatype Call = Call(id: string, kind: string, name: string, arguments: string)

  datatype Reassembled = Reassembled(content: string, reasoning: string, calls: seq<Call>, finishReason: string)

  // ----- what a stream carries

  function Contents(chunks: seq<Chunk>): string {
    if chunks == [] then "" else Contents(chunks[..|chunks| - 1]) + chunks[|chunks| - 1].content
  }

  function Reasonings(chunks: seq<Chunk>): string {
    if chunks == [] then "" else Reasonings(chunks[..|chunks| - 1]) + chunks[|chunks| - 1].reasoning
  }

  function Fragments(chunks: seq<Chunk>): seq<Fragment> {
    if chunks == [] then [] else Fragments(chunks[..|chunks| - 1]) + chunks[|chunks| - 1].calls
  }

  function FinishReason(chunks: seq<Chunk>): string {
    if chunks == [] then "stop"
    else
      var last := chunks[|chunks| - 1].finishReason;
      if last != "" then last else FinishReason(chunks[..|chunks| - 1])
  }

  function Indices(fs: seq<Fragment>): set<int> {
    set f | f in fs :: f.index
  }

  /** The argument text of call i: all its pieces, in stream order. */
  function Arguments(fs: seq<Fragment>, i: int): string {
    if fs == [] then ""
    else (if fs[0].index == i then fs[0].arguments else "") + Arguments(fs[1..], i)
  }

  /** The last id given for call i, or the empty string. */
  function IdOf(fs: seq<Fragment>, i: int): string {
    if fs == [] then ""
    else
      var f := fs[|fs| - 1];
      if f.index == i && f.id != "" then f.id else IdOf(fs[..|fs| - 1], i)
  }

  function NameOf(fs: seq<Fragment>, i: int): string {
    if fs == [] then ""
    else
      var f := fs[|fs| - 1];
      if f.index == i && f.name != "" then f.name else NameOf(fs[..|fs| - 1], i)
  }

  /** The type of call i is taken from its first fragment. */
  function KindOf(fs: seq<Fragment>, i: int): string {
    if fs == [] then "function" else if fs[0].index == i then DefaultKind(fs[0].kind) else KindOf(fs[1..], i)
  }

  function DefaultKind(kind: Option<string>): string {
    if kind.Some? then kind.value else "function"
  }

  function CallOf(fs: seq<Fragment>, i: int): Call {
    Call(IdOf(fs, i), KindOf(fs, i), NameOf(fs, i), Arguments(fs, i))
  }

  ghost predicate Ascending(s: seq<int>) {
    forall j, k | 0 <= j < k < |s| :: s[j] < s[k]
  }

  /** s lists keys, each once, in ascending order. */
  ghost predicate Lists(s: seq<int>, keys: set<int>) {
    && Ascending(s)
    && (forall k | 0 <= k < |s| :: s[k] in keys)
    && forall i | i in keys :: i in s
  }

  // ----- the same, position by position

  /** The finish reason is the last one given, and "stop" if none is. */
  ghost predicate IsFinish(chunks: seq<Chunk>, reason: string) {
    if forall k | 0 <= k < |chunks| :: chunks[k].finishReason == "" then reason == "stop"
    else
      exists k | 0 <= k < |chunks| ::
        && chunks[k].finishReason == reason != ""
        && forall j | k < j < |chunks| :: chunks[j].finishReason == ""
  }

  lemma {:induction false} FinishMeans(chunks: seq<Chunk>)
    ensures IsFinish(chunks, FinishReason(chunks))
    decreases |chunks|
  {
    if chunks != [] {
      var front := chunks[..|chunks| - 1];
      FinishMeans(front);
      assert forall k | 0 <= k < |front| :: front[k] == chunks[k];
    }
  }

  /** Fragment k is the last one that gives an id for call i. */
  ghost predicate LastId(fs: seq<Fragment>, i: int, k: nat) {
    && k < |fs| && fs[k].index == i && fs[k].id != ""
    && forall j | k < j < |fs| :: fs[j].index != i || fs[j].id == ""
  }

  ghost predicate LastName(fs: seq<Fragment>, i: int, k: nat) {
    && k < |fs| && fs[k].index == i && fs[k].name != ""
    && forall j | k < j < |fs| :: fs[j].index != i || fs[j].name == ""
  }

  ghost predicate FirstFragment(fs: seq<Fragment>, i: int, k: nat) {
    k < |fs| && fs[k].index == i && forall j | 0 <= j < k :: fs[j].index != i
  }

  lemma {:induction false} IdMeans(fs: seq<Fragment>, i: int)
    ensures if forall k | 0 <= k < |fs| :: fs[k].index != i || fs[k].id == "" then IdOf(fs, i) == ""
            else exists k: nat :: LastId(fs, i, k) && IdOf(fs, i) == fs[k].id
    decreases |fs|
  {
    if fs != [] {
      var front, n := fs[..|fs| - 1], |fs| - 1;
      assert forall k | 0 <= k < n :: front[k] == fs[k];
      IdMeans(front, i);
      if fs[n].index == i && fs[n].id != "" {
        assert LastId(fs, i, n);
      } else if k: nat :| LastId(front, i, k) && IdOf(front, i) == front[k].id {
        assert LastId(fs, i, k);
      }
    }
  }

  lemma {:induction false} NameMeans(fs: seq<Fragment>, i: int)
    ensures if forall k | 0 <= k < |fs| :: fs[k].index != i || fs[k].name == "" then NameOf(fs, i) == ""
            else exists k: nat :: LastName(fs, i, k) && NameOf(fs, i) == fs[k].name
    decreases |fs|
  {
    if fs != [] {
      var front, n := fs[..|fs| - 1], |fs| - 1;
      assert forall k | 0 <= k < n :: front[k] == fs[k];
      NameMeans(front, i);
      if fs[n].index == i && fs[n].name != "" {
        assert LastName(fs, i, n);
      } else if k: nat :| LastName(front, i, k) && NameOf(front, i) == front[k].name {
        assert LastName(fs, i, k);
      }
    }
  }

  lemma {:induction false} KindMeans(fs: seq<Fragment>, i: int)
    ensures if forall k | 0 <= k < |fs| :: fs[k].index != i then KindOf(fs, i) == "function"
            else exists k: nat ::
              FirstFragment(fs, i, k) && KindOf(fs, i) == if fs[k].kind.Some? then fs[k].kind.value else "function"
  {
    if fs != [] {
      assert forall k | 1 <= k < |fs| :: fs[k] == fs[1..][k - 1];
      KindMeans(fs[1..], i);
      if fs[0].index == i {
        assert FirstFragment(fs, i, 0);
      } else if k: nat :| FirstFragment(fs[1..], i, k) {
        assert FirstFragment(fs, i, k + 1);
        assert forall j: nat | FirstFragment(fs[1..], i, j) :: j == k;
      }
    }
  }

  /** at are ascending offsets that cut something of the given length into n pieces. */
  ghost predicate Offsets(at: seq<nat>, n: nat, length: nat) {
    && |at| == n + 1 && at[0] == 0 && at[n] == length
    && forall j, k | 0 <= j <= k <= n :: at[j] <= at[k]
  }

  ghost predicate CutContent(chunks: seq<Chunk>, text: string, at: seq<nat>) {
    && Offsets(at, |chunks|, |text|)
    && forall k | 0 <= k < |chunks| :: chunks[k].content == text[at[k]..at[k + 1]]
  }

  ghost predicate CutReasoning(chunks: seq<Chunk>, text: string, at: seq<nat>) {
    && Offsets(at, |chunks|, |text|)
    && forall k | 0 <= k < |chunks| :: chunks[k].reasoning == text[at[k]..at[k + 1]]
  }

  ghost predicate CutCalls(chunks: seq<Chunk>, fs: seq<Fragment>, at: seq<nat>) {
    && Offsets(at, |chunks|, |fs|)
    && forall k | 0 <= k < |chunks| :: chunks[k].calls == fs[at[k]..at[k + 1]]
  }

  /** Pieces cut from a text in this order join to it again. */
  lemma {:induction false} ContentJoins(chunks: seq<Chunk>, text: string, at: seq<nat>, n: nat)
    requires CutContent(chunks, text, at) && n <= |chunks|
    ensures Contents(chunks[..n]) == text[..at[n]]
  {
    if n > 0 {
      ContentJoins(chunks, text, at, n - 1);
      assert chunks[..n][..n - 1] == chunks[..n - 1];
      PrefixJoins(text, at[n - 1], at[n]);
    }
  }

  lemma {:induction false} ReasoningJoins(chunks: seq<Chunk>, text: string, at: seq<nat>, n: nat)
    requires CutReasoning(chunks, text, at) && n <= |chunks|
    ensures Reasonings(chunks[..n]) == text[..at[n]]
  {
    if n > 0 {
      ReasoningJoins(chunks, text, at, n - 1);
      assert chunks[..n][..n - 1] == chunks[..n - 1];
      PrefixJoins(text, at[n - 1], at[n]);
    }
  }

  lemma {:induction false} CallsJoin(chunks: seq<Chunk>, fs: seq<Fragment>, at: seq<nat>, n: nat)
    requires CutCalls(chunks, fs, at) && n <= |chunks|
    ensures Fragments(chunks[..n]) == fs[..at[n]]
  {
    if n > 0 {
      CallsJoin(chunks, fs, at, n - 1);
      assert chunks[..n][..n - 1] == chunks[..n - 1];
      PrefixJoins(fs, at[n - 1], at[n]);
    }
  }

  lemma AllJoin(w: Whole, chunks: seq<Chunk>, fs: seq<Fragment>, contentAt: seq<nat>, reasoningAt: seq<nat>,
                callsAt: seq<nat>)
    requires CutContent(chunks, w.content, contentAt) && CutReasoning(chunks, w.reasoning, reasoningAt)
    requires CutCalls(chunks, fs, callsAt)
    ensures Contents(chunks) == w.content && Reasonings(chunks) == w.reasoning && Fragments(chunks) == fs
  {
    ContentJoins(chunks, w.content, contentAt, |chunks|);
    ReasoningJoins(chunks, w.reasoning, reasoningAt, |chunks|);
    CallsJoin(chunks, fs, callsAt, |chunks|);
    assert chunks[..|chunks|] == chunks;
  }

  lemma PrefixJoins<T>(s: seq<T>, a: nat, b: nat)
    requires a <= b <= |s|
    ensures s[..a] + s[a..b] == s[..b]
  {
  }

  // ----- the accumulator

  lemma {:induction false} ArgumentsSnoc(fs: seq<Fragment>, f: Fragment, i: int)
    ensures Arguments(fs + [f], i) == Arguments(fs, i) + if f.index == i then f.arguments else ""
  {
    if fs == [] {
      assert fs + [f] == [f];
    } else {
      assert (fs + [f])[1..] == fs[1..] + [f] && (fs + [f])[0] == fs[0];
      ArgumentsSnoc(fs[1..], f, i);
      Associative(if fs[0].index == i then fs[0].arguments else "", Arguments(fs[1..], i),
                  if f.index == i then f.arguments else "");
    }
  }

  lemma Associative(a: string, b: string, c: string)
    ensures a + b + c == a + (b + c)
  {
  }

  lemma {:induction false} KindSnoc(fs: seq<Fragment>, f: Fragment, i: int)
    ensures KindOf(fs + [f], i) ==
              if i in Indices(fs) then KindOf(fs, i) else if f.index == i then DefaultKind(f.kind) else "function"
  {
    if fs == [] {
      assert fs + [f] == [f];
    } else {
      assert (fs + [f])[1..] == fs[1..] + [f] && (fs + [f])[0] == fs[0];
      KindSnoc(fs[1..], f, i);
      assert i in Indices(fs) <==> i == fs[0].index || i in Indices(fs[1..]);
    }
  }

  lemma CallSnoc(fs: seq<Fragment>, f: Fragment, i: int)
    ensures Indices(fs + [f]) == Indices(fs) + {f.index}
    ensures i != f.index && i in Indices(fs) ==> CallOf(fs + [f], i) == CallOf(fs, i)
    ensures i == f.index ==>
              CallOf(fs + [f], i) == Call(if f.id != "" then f.id else IdOf(fs, i),
                                          if i in Indices(fs) then KindOf(fs, i) else DefaultKind(f.kind),
                                          if f.name != "" then f.name else NameOf(fs, i),
                                          Arguments(fs, i) + f.arguments)
  {
    var g := fs + [f];
    assert g[..|g| - 1] == fs && g[|g| - 1] == f;
    ArgumentsSnoc(fs, f, i);
    KindSnoc(fs, f, i);
    assert Indices(g) == Indices(fs) + {f.index} by {
      forall k
        ensures k in Indices(g) <==> k in Indices(fs) || k == f.index
      {
        if k in Indices(fs) {
          var x :| x in fs && x.index == k;
          assert x in g;
        }
        assert f in g;
      }
    }
  }

  lemma {:induction false} NothingForIndex(fs: seq<Fragment>, i: int)
    requires i !in Indices(fs)
    ensures IdOf(fs, i) == "" && NameOf(fs, i) == "" && Arguments(fs, i) == ""
    decreases |fs|
  {
    if fs != [] {
      var front := fs[..|fs| - 1];
      assert forall f | f in front :: f in fs;
      assert fs[|fs| - 1] in fs;
      NothingForIndex(front, i);
      assert fs == front + [fs[|fs| - 1]];
      ArgumentsSnoc(front, fs[|fs| - 1], i);
    }
  }

  /** The slots hold what the fragments seen so far say about each call. */
  ghost predicate Accumulated(slots: map<int, Call>, fs: seq<Fragment>) {
    slots.Keys == Indices(fs) && forall i | i in slots :: slots[i] == CallOf(fs, i)
  }

  lemma NothingAccumulated()
    ensures Accumulated(map[], [])
  {
  }

  /** Merge one fragment into the slot of its index. */
  method MergeFragment(slots: map<int, Call>, f: Fragment, ghost seen: seq<Fragment>) returns (merged: map<int, Call>)
    requires Accumulated(slots, seen)
    ensures Accumulated(merged, seen + [f])
  {
    var slot := if f.index in slots then slots[f.index] else Call("", DefaultKind(f.kind), "", "");
    if f.id != "" {
      slot := slot.(id := f.id);
    }
    if f.name != "" {
      slot := slot.(name := f.name);
    }
    if f.arguments != "" {
      slot := slot.(arguments := slot.arguments + f.arguments);
    }
    merged := slots[f.index := slot];
    if f.index !in slots {
      NothingForIndex(seen, f.index);
    }
    forall i | i in merged
      ensures merged[i] == CallOf(seen + [f], i)
    {
      CallSnoc(seen, f, i);
    }
    CallSnoc(seen, f, f.index);
  }

  /** The accumulation loop over the chunks. */
  method Accumulate(chunks: seq<Chunk>)
    returns (content: string, reasoning: string, finish: string, slots: map<int, Call>)
    ensures content == Contents(chunks) && reasoning == Reasonings(chunks) && finish == FinishReason(chunks)
    ensures Accumulated(slots, Fragments(chunks))
  {
    hide Accumulated;
    content, reasoning, finish := "", "", "stop";
    slots := map[];
    NothingAccumulated();
    ghost var seen: seq<Fragment> := [];
    for c := 0 to |chunks|
      invariant content == Contents(chunks[..c]) && reasoning == Reasonings(chunks[..c])
      invariant seen == Fragments(chunks[..c])
      invariant finish == FinishReason(chunks[..c])
      invariant Accumulated(slots, seen)
    {
      var chunk := chunks[c];
      assert chunks[..c + 1][..c] == chunks[..c];
      if chunk.finishReason != "" {
        finish := chunk.finishReason;
      }
      if chunk.content != "" {
        content := content + chunk.content;
      }
      if chunk.reasoning != "" {
        reasoning := reasoning + chunk.reasoning;
      }
      slots, seen := MergeAll(slots, chunk.calls, seen);
    }
    assert chunks[..|chunks|] == chunks;
  }

  /** The stream's message: contents joined, one call per index in ascending order, a new id for calls without one. */
  method Reassemble(chunks: seq<Chunk>, newId: nat -> string) returns (r: Reassembled, ghost order: seq<int>)
    ensures r.content == Contents(chunks) && r.reasoning == Reasonings(chunks) && r.finishReason == FinishReason(chunks)
    ensures IsFinish(chunks, r.finishReason)
    ensures Lists(order, Indices(Fragments(chunks))) && |r.calls| == |order|
    ensures forall k | 0 <= k < |order| ::
              var call := CallOf(Fragments(chunks), order[k]);
              r.calls[k] == if call.id == "" then call.(id := newId(k)) else call
  {
    var content, reasoning, finish, slots := Accumulate(chunks);
    FinishMeans(chunks);
    var indices := SortIndices(slots.Keys);
    order := indices;
    var calls: seq<Call> := [];
    for k := 0 to |indices|
      invariant |calls| == k
      invariant forall j | 0 <= j < k ::
                  indices[j] in slots &&
                  var slot := slots[indices[j]];
                  calls[j] == if slot.id == "" then slot.(id := newId(j)) else slot
    {
      var call := slots[indices[k]];
      calls := calls + [if call.id == "" then call.(id := newId(k)) else call];
    }
    r := Reassembled(content, reasoning, calls, finish);
  }

  method MergeAll(start: map<int, Call>, fs: seq<Fragment>, ghost seen: seq<Fragment>)
    returns (slots: map<int, Call>, ghost all: seq<Fragment>)
    requires Accumulated(start, seen)
    ensures all == seen + fs && Accumulated(slots, all)
  {
    slots, all := start, seen;
    for j := 0 to |fs|
      invariant all == seen + fs[..j] && Accumulated(slots, all)
    {
      slots := MergeFragment(slots, fs[j], all);
      all := all + [fs[j]];
    }
    assert fs[..|fs|] == fs;
  }

  /** A set of numbers in ascending order. */
  method SortIndices(keys: set<int>) returns (s: seq<int>)
    ensures Lists(s, keys)
  {
    s := [];
    var rest := keys;
    while rest != {}
      invariant Ascending(s) && rest <= keys
      invariant forall k | 0 <= k < |s| :: s[k] in keys && forall j | j in rest :: s[k] < j
      invariant forall i | i in keys && i !in rest :: i in s
      decreases rest
    {
      var least := Least(rest);
      s := s + [least];
      rest := rest - {least};
    }
  }

  method Least(keys: set<int>) returns (least: int)
    requires keys != {}
    ensures least in keys && forall i | i in keys :: least <= i
  {
    assert (forall i :: i !in keys) ==> keys == {};
    least :| least in keys;
    var rest := keys - {least};
    while rest != {}
      invariant rest <= keys && least in keys
      invariant forall i | i in keys && i !in rest :: least <= i
      decreases rest
    {
      assert (forall i :: i !in rest) ==> rest == {};
      var i :| i in rest;
      if i < least {
        least := i;
      }
      rest := rest - {i};
    }
  }

  /** There is only one way to list keys in ascending order. */
  lemma {:induction false} ListUnique(a: seq<int>, b: seq<int>, keys: set<int>)
    requires Lists(a, keys) && Lists(b, keys)
    ensures a == b
  {
    hide Lists;
    FirstIsLeast(a, keys);
    FirstIsLeast(b, keys);
    if keys != {} {
      assert a[0] == b[0];
      RestLists(a, keys);
      RestLists(b, keys);
      ListUnique(a[1..], b[1..], keys - {a[0]});
      assert a == [a[0]] + a[1..] && b == [b[0]] + b[1..];
    }
  }

  lemma FirstIsLeast(s: seq<int>, keys: set<int>)
    requires Lists(s, keys)
    ensures s == [] <==> keys == {}
    ensures s != [] ==> s[0] in keys && forall i | i in keys :: s[0] <= i
  {
    assert (forall i :: i !in keys) ==> keys == {};
    if s != [] {
      forall i | i in keys
        ensures s[0] <= i
      {
        var k :| 0 <= k < |s| && s[k] == i;
      }
    }
  }

  lemma RestLists(s: seq<int>, keys: set<int>)
    requires Lists(s, keys) && s != []
    ensures Lists(s[1..], keys - {s[0]})
  {
    forall i | i in keys - {s[0]}
      ensures i in s[1..]
    {
      var k :| 0 <= k < |s| && s[k] == i;
      assert s[1..][k - 1] == i;
    }
  }

  // ----- fragmenting

  /** A message to be streamed: its calls by index. */
  datatype Whole = Whole(content: string, reasoning: string, calls: map<int, Call>)

  /**
    One piece of a schedule: which call is served, with how many more characters of its arguments, and what else of
    it.
   */
  datatype Piece = Piece(call: int, count: nat, withId: bool, withKind: bool, withName: bool)

  /** How many characters of call i have been sent so far. */
  function Offset(sent: map<int, nat>, i: int): nat {
    if i in sent then sent[i] else 0
  }

  function Reach(calls: map<int, Call>, sent: map<int, nat>, p: Piece): nat
    requires p.call in calls
  {
    if Offset(sent, p.call) + p.count <= |calls[p.call].arguments| then Offset(sent, p.call) + p.count
    else |calls[p.call].arguments|
  }

  /** A piece sends as many more characters as it asks for, or all that are left. */
  lemma ReachMeans(calls: map<int, Call>, sent: map<int, nat>, p: Piece)
    requires p.call in calls && Offset(sent, p.call) <= |calls[p.call].arguments|
    ensures var left := |calls[p.call].arguments| - if p.call in sent then sent[p.call] else 0;
            Reach(calls, sent, p) ==
            (if p.call in sent then sent[p.call] else 0) + if p.count < left then p.count else left
  {
  }

  ghost predicate Progress(calls: map<int, Call>, sent: map<int, nat>) {
    forall i | i in sent :: i in calls && sent[i] <= |calls[i].arguments|
  }

  ghost predicate Schedule(calls: map<int, Call>, pieces: seq<Piece>) {
    forall k | 0 <= k < |pieces| :: pieces[k].call in calls
  }

  /** Stream the calls along a schedule. */
  ghost function Emit(calls: map<int, Call>, sent: map<int, nat>, pieces: seq<Piece>): seq<Fragment>
    requires Progress(calls, sent) && Schedule(calls, pieces)
    decreases |pieces|
  {
    if pieces == [] then []
    else
      var p, call := pieces[0], calls[pieces[0].call];
      [Fragment(p.call, if p.withId then call.id else "", if p.withKind then Some(call.kind) else None,
                if p.withName then call.name else "", call.arguments[Offset(sent, p.call)..Reach(calls, sent, p)])]
      + Emit(calls, sent[p.call := Reach(calls, sent, p)], pieces[1..])
  }

  ghost function SentAfter(calls: map<int, Call>, sent: map<int, nat>, pieces: seq<Piece>): map<int, nat>
    requires Progress(calls, sent) && Schedule(calls, pieces)
    decreases |pieces|
  {
    if pieces == [] then sent
    else SentAfter(calls, sent[pieces[0].call := Reach(calls, sent, pieces[0])], pieces[1..])
  }

  /** The schedule serves every call, to the end of its arguments. */
  ghost predicate ServesAll(calls: map<int, Call>, pieces: seq<Piece>)
    requires Schedule(calls, pieces)
  {
    var end := SentAfter(calls, map[], pieces);
    forall i | i in calls :: i in end && end[i] == |calls[i].arguments|
  }

  predicate SendsId(pieces: seq<Piece>, i: int) {
    exists k | 0 <= k < |pieces| :: pieces[k].call == i && pieces[k].withId
  }

  predicate SendsName(pieces: seq<Piece>, i: int) {
    exists k | 0 <= k < |pieces| :: pieces[k].call == i && pieces[k].withName
  }

  /** Whether the first piece of call i brings its type; later ones come too late. */
  predicate OpensWithKind(pieces: seq<Piece>, i: int) {
    pieces != [] && if pieces[0].call == i then pieces[0].withKind else OpensWithKind(pieces[1..], i)
  }

  /** Call i as the schedule delivers it. */
  ghost function Delivered(call: Call, pieces: seq<Piece>, i: int): Call {
    Call(if SendsId(pieces, i) then call.id else "",
         if OpensWithKind(pieces, i) then call.kind else "function",
         if SendsName(pieces, i) then call.name else "", call.arguments)
  }

  lemma {:induction false} EmitProgress(calls: map<int, Call>, sent: map<int, nat>, pieces: seq<Piece>, i: int)
    requires Progress(calls, sent) && Schedule(calls, pieces)
    ensures Progress(calls, SentAfter(calls, sent, pieces))
    ensures i in calls ==> Offset(sent, i) <= Offset(SentAfter(calls, sent, pieces), i) <= |calls[i].arguments|
    decreases |pieces|
  {
    if pieces != [] {
      EmitProgress(calls, sent[pieces[0].call := Reach(calls, sent, pieces[0])], pieces[1..], i);
    }
  }

  /** Between two states of a schedule exactly the text between the two offsets is sent. */
  lemma {:induction false} EmitArguments(calls: map<int, Call>, sent: map<int, nat>, pieces: seq<Piece>, i: int)
    requires Progress(calls, sent) && Schedule(calls, pieces) && i in calls
    ensures Offset(sent, i) <= Offset(SentAfter(calls, sent, pieces), i) <= |calls[i].arguments|
    ensures Arguments(Emit(calls, sent, pieces), i)
         == calls[i].arguments[Offset(sent, i)..Offset(SentAfter(calls, sent, pieces), i)]
    decreases |pieces|
  {
    if pieces != [] {
      FirstArguments(calls, sent, pieces, i);
      hide Emit, Arguments, Reach;
      var sent' := sent[pieces[0].call := Reach(calls, sent, pieces[0])];
      EmitProgress(calls, sent', pieces[1..], i);
      EmitArguments(calls, sent', pieces[1..], i);
      JoinSlices(calls[i].arguments, Offset(sent, i), Offset(sent', i),
                 Offset(SentAfter(calls, sent', pieces[1..]), i));
    }
  }

  lemma FirstArguments(calls: map<int, Call>, sent: map<int, nat>, pieces: seq<Piece>, i: int)
    requires Progress(calls, sent) && Schedule(calls, pieces) && i in calls && pieces != []
    ensures var sent' := sent[pieces[0].call := Reach(calls, sent, pieces[0])];
            && Progress(calls, sent') && Schedule(calls, pieces[1..])
            && Offset(sent, i) <= Offset(sent', i) <= |calls[i].arguments|
            && Arguments(Emit(calls, sent, pieces), i)
               == calls[i].arguments[Offset(sent, i)..Offset(sent', i)] + Arguments(Emit(calls, sent', pieces[1..]), i)
  {
    var sent' := sent[pieces[0].call := Reach(calls, sent, pieces[0])];
    assert Emit(calls, sent, pieces)[1..] == Emit(calls, sent', pieces[1..]);
  }

  lemma JoinSlices(text: string, a: nat, b: nat, c: nat)
    requires a <= b <= c <= |text|
    ensures text[a..b] + text[b..c] == text[a..c]
  {
  }

  /** The fragments of a schedule, position by position. */
  lemma {:induction false} EmitAt(calls: map<int, Call>, sent: map<int, nat>, pieces: seq<Piece>, k: nat)
    requires Progress(calls, sent) && Schedule(calls, pieces) && k < |pieces|
    ensures |Emit(calls, sent, pieces)| == |pieces|
    ensures var f, p := Emit(calls, sent, pieces)[k], pieces[k];
            && f.index == p.call
            && f.id == (if p.withId then calls[p.call].id else "")
            && f.name == (if p.withName then calls[p.call].name else "")
    decreases |pieces|
  {
    var sent' := sent[pieces[0].call := Reach(calls, sent, pieces[0])];
    if k > 0 {
      EmitAt(calls, sent', pieces[1..], k - 1);
    } else if |pieces| > 1 {
      EmitAt(calls, sent', pieces[1..], 0);
    }
  }

  lemma {:induction false} EmitServes(calls: map<int, Call>, sent: map<int, nat>, pieces: seq<Piece>, i: int)
    requires Progress(calls, sent) && Schedule(calls, pieces)
    ensures i in SentAfter(calls, sent, pieces) <==> i in sent || i in Indices(Emit(calls, sent, pieces))
    ensures i !in calls ==> i !in Indices(Emit(calls, sent, pieces))
    decreases |pieces|
  {
    if pieces != [] {
      var sent' := sent[pieces[0].call := Reach(calls, sent, pieces[0])];
      EmitServes(calls, sent', pieces[1..], i);
      var fs := Emit(calls, sent, pieces);
      assert fs[1..] == Emit(calls, sent', pieces[1..]);
      FirstIndex(fs, i);
    }
  }

  lemma FirstIndex(fs: seq<Fragment>, i: int)
    requires fs != []
    ensures i in Indices(fs) <==> i == fs[0].index || i in Indices(fs[1..])
  {
    assert forall f :: f in fs <==> f == fs[0] || f in fs[1..];
  }

  lemma {:induction false} EmitKind(calls: map<int, Call>, sent: map<int, nat>, pieces: seq<Piece>, i: int)
    requires Progress(calls, sent) && Schedule(calls, pieces) && i in calls
    ensures KindOf(Emit(calls, sent, pieces), i)
         == if OpensWithKind(pieces, i) then calls[i].kind else "function"
    decreases |pieces|
  {
    if pieces != [] {
      var sent' := sent[pieces[0].call := Reach(calls, sent, pieces[0])];
      EmitKind(calls, sent', pieces[1..], i);
      var fs := Emit(calls, sent, pieces);
      assert fs[1..] == Emit(calls, sent', pieces[1..]);
    }
  }

  /** The id comes through exactly if some piece carries it, whichever, and however often. */
  lemma EmitId(calls: map<int, Call>, pieces: seq<Piece>, i: int)
    requires Schedule(calls, pieces) && i in calls
    ensures IdOf(Emit(calls, map[], pieces), i) == if SendsId(pieces, i) then calls[i].id else ""
  {
    var fs := Emit(calls, map[], pieces);
    assert pieces == [] ==> fs == [];
    forall k | 0 <= k < |pieces|
      ensures |fs| == |pieces| && fs[k].index == pieces[k].call
      ensures fs[k].id == if pieces[k].withId then calls[pieces[k].call].id else ""
    {
      EmitAt(calls, map[], pieces, k);
    }
    hide Emit, IdOf;
    if SendsId(pieces, i) {
      var k :| 0 <= k < |pieces| && pieces[k].call == i && pieces[k].withId;
      assert fs[k] in fs;
      IdDelivered(fs, i, calls[i].id);
    } else {
      NoId(fs, i);
    }
  }

  lemma EmitName(calls: map<int, Call>, pieces: seq<Piece>, i: int)
    requires Schedule(calls, pieces) && i in calls
    ensures NameOf(Emit(calls, map[], pieces), i) == if SendsName(pieces, i) then calls[i].name else ""
  {
    var fs := Emit(calls, map[], pieces);
    assert pieces == [] ==> fs == [];
    forall k | 0 <= k < |pieces|
      ensures |fs| == |pieces| && fs[k].index == pieces[k].call
      ensures fs[k].name == if pieces[k].withName then calls[pieces[k].call].name else ""
    {
      EmitAt(calls, map[], pieces, k);
    }
    hide Emit, NameOf;
    if SendsName(pieces, i) {
      var k :| 0 <= k < |pieces| && pieces[k].call == i && pieces[k].withName;
      assert fs[k] in fs;
      NameDelivered(fs, i, calls[i].name);
    } else {
      NoName(fs, i);
    }
  }

  lemma {:induction false} IdDelivered(fs: seq<Fragment>, i: int, id: string)
    requires forall f | f in fs && f.index == i :: f.id == "" || f.id == id
    requires exists f | f in fs :: f.index == i && f.id == id
    ensures IdOf(fs, i) == id
    decreases |fs|
  {
    var front, last := fs[..|fs| - 1], fs[|fs| - 1];
    assert forall f :: f in fs <==> f in front || f == last;
    assert last in fs;
    if last.index != i || last.id == "" {
      if exists f | f in front :: f.index == i && f.id == id {
        IdDelivered(front, i, id);
      } else {
        NoId(front, i);
      }
    }
  }

  lemma {:induction false} NoId(fs: seq<Fragment>, i: int)
    requires forall f | f in fs && f.index == i :: f.id == ""
    ensures IdOf(fs, i) == ""
    decreases |fs|
  {
    if fs != [] {
      assert forall f | f in fs[..|fs| - 1] :: f in fs;
      assert fs[|fs| - 1] in fs;
      NoId(fs[..|fs| - 1], i);
    }
  }

  lemma {:induction false} NameDelivered(fs: seq<Fragment>, i: int, name: string)
    requires forall f | f in fs && f.index == i :: f.name == "" || f.name == name
    requires exists f | f in fs :: f.index == i && f.name == name
    ensures NameOf(fs, i) == name
    decreases |fs|
  {
    var front, last := fs[..|fs| - 1], fs[|fs| - 1];
    assert forall f :: f in fs <==> f in front || f == last;
    assert last in fs;
    if last.index != i || last.name == "" {
      if exists f | f in front :: f.index == i && f.name == name {
        NameDelivered(front, i, name);
      } else {
        NoName(front, i);
      }
    }
  }

  lemma {:induction false} NoName(fs: seq<Fragment>, i: int)
    requires forall f | f in fs && f.index == i :: f.name == ""
    ensures NameOf(fs, i) == ""
    decreases |fs|
  {
    if fs != [] {
      assert forall f | f in fs[..|fs| - 1] :: f in fs;
      assert fs[|fs| - 1] in fs;
      NoName(fs[..|fs| - 1], i);
    }
  }

  /**
    However the calls are cut and interleaved, whichever pieces carry ids and names, and however the fragments are
    packed into chunks, the fragments say about each call what the schedule delivers of it, and nothing about any
    other.
   */
  lemma FragmentsCarryTheCalls(w: Whole, pieces: seq<Piece>, i: int)
    requires Schedule(w.calls, pieces) && ServesAll(w.calls, pieces)
    ensures var fs := Emit(w.calls, map[], pieces);
            && (i in Indices(fs) <==> i in w.calls)
            && (i in w.calls ==> CallOf(fs, i) == Delivered(w.calls[i], pieces, i))
  {
    EmitServes(w.calls, map[], pieces, i);
    if i in w.calls {
      EmitArguments(w.calls, map[], pieces, i);
      EmitId(w.calls, pieces, i);
      EmitName(w.calls, pieces, i);
      EmitKind(w.calls, map[], pieces, i);
    }
  }

  /** The schedule delivers all of call i, which has an id. */
  ghost predicate DeliversAll(call: Call, pieces: seq<Piece>, i: int) {
    && call.id != "" && SendsId(pieces, i)
    && (call.name == "" || SendsName(pieces, i))
    && (call.kind == "function" || OpensWithKind(pieces, i))
  }

  /**
    Reassembly inverts fragmentation: streaming a message in any way gives back its texts and its calls, in
    ascending order, each as delivered and with a new id if it came without one; and a call comes back as it was if
    it was delivered whole.
   */
  method StreamAndReassemble(w: Whole, ghost pieces: seq<Piece>, chunks: seq<Chunk>, newId: nat -> string,
                             ghost contentAt: seq<nat>, ghost reasoningAt: seq<nat>, ghost callsAt: seq<nat>)
    returns (r: Reassembled, ghost order: seq<int>)
    requires Schedule(w.calls, pieces) && ServesAll(w.calls, pieces)
    requires CutContent(chunks, w.content, contentAt) && CutReasoning(chunks, w.reasoning, reasoningAt)
    requires CutCalls(chunks, Emit(w.calls, map[], pieces), callsAt)
    ensures r.content == w.content && r.reasoning == w.reasoning && IsFinish(chunks, r.finishReason)
    ensures Lists(order, w.calls.Keys) && |r.calls| == |order|
    ensures forall k | 0 <= k < |order| ::
              && order[k] in w.calls
              && var call := Delivered(w.calls[order[k]], pieces, order[k]);
                 r.calls[k] == if call.id == "" then call.(id := newId(k)) else call
    ensures forall k | 0 <= k < |order| && DeliversAll(w.calls[order[k]], pieces, order[k]) ::
              r.calls[k] == w.calls[order[k]]
  {
    hide Delivered, DeliversAll, IsFinish, CutContent, CutReasoning, CutCalls;
    AllJoin(w, chunks, Emit(w.calls, map[], pieces), contentAt, reasoningAt, callsAt);
    r, order := Reassemble(chunks, newId);
    var fs := Fragments(chunks);
    forall i
      ensures i in Indices(fs) <==> i in w.calls
      ensures i in w.calls ==> CallOf(fs, i) == Delivered(w.calls[i], pieces, i)
    {
      FragmentsCarryTheCalls(w, pieces, i);
    }
    forall k | 0 <= k < |order|
      ensures order[k] in w.calls && CallOf(fs, order[k]) == Delivered(w.calls[order[k]], pieces, order[k])
      ensures DeliversAll(w.calls[order[k]], pieces, order[k]) ==> r.calls[k] == w.calls[order[k]]
    {
      assert order[k] in order;
      WholeWhenDelivered(w.calls[order[k]], pieces, order[k]);
    }
  }

  lemma WholeWhenDelivered(call: Call, pieces: seq<Piece>, i: int)
    ensures DeliversAll(call, pieces, i) <==> call.id != "" && Delivered(call, pieces, i) == call
  {
  }
}

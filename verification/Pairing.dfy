/** What it means for a history to be paired or complete, message by message. */
module Pairing {
  import opened Messages
  import opened Wrappers

  /** Message j is the latest assistant message before tool message i, and declares the call that i answers first. */
  ghost predicate Answers(h: seq<Message>, j: nat, i: nat) {
    && j < i < |h| && h[j].role == Assistant && h[i].role == Tool
    && h[i].toolCallId.Some? && h[i].toolCallId.value != ""
    && (exists c | c in h[j].toolCalls :: c.id == h[i].toolCallId)
    && forall k | j < k < i :: h[k].role == Tool && h[k].toolCallId != h[i].toolCallId
  }

  /** Call id was declared by message j and not answered since. */
  ghost predicate OpenSince(h: seq<Message>, j: nat, id: string) {
    && j < |h| && h[j].role == Assistant && id != ""
    && (exists c | c in h[j].toolCalls :: c.id == Some(id))
    && forall k | j < k < |h| :: h[k].role == Tool && h[k].toolCallId != Some(id)
  }

  lemma IdsMean(calls: seq<ToolCall>, id: string)
    ensures id in Ids(calls) <==> id != "" && exists c | c in calls :: c.id == Some(id)
  {
  }

  /** The open calls are those declared by the latest assistant message and not answered since. */
  lemma {:induction false} OpenMeans(h: seq<Message>, id: string)
    requires Paired(h, {})
    ensures id in OpenAfter(h, {}) <==> exists j: nat :: OpenSince(h, j, id)
    decreases |h|
  {
    if h != [] {
      var front, last := h[..|h| - 1], h[|h| - 1];
      assert h == front + [last];
      PairedConcat(front, [last], {});
      OpenMeans(front, id);
      var open := OpenAfter(front, {});
      LastMessage(last, open);
      IdsMean(last.toolCalls, id);
      assert forall k | 0 <= k < |front| :: h[k] == front[k];
      if last.role == Assistant && id in Ids(last.toolCalls) {
        assert OpenSince(h, |front|, id);
      }
      if last.role == Tool && last.toolCallId != Some(id) && id in open {
        var j: nat :| OpenSince(front, j, id);
        assert OpenSince(h, j, id);
      }
      if j: nat :| OpenSince(h, j, id) {
        assert j < |front| ==> OpenSince(front, j, id);
      }
    }
  }

  lemma LastMessage(m: Message, open: set<string>)
    ensures m.role == User ==> OpenAfter([m], open) == {} && Paired([m], open)
    ensures m.role == Assistant ==> OpenAfter([m], open) == Ids(m.toolCalls) && Paired([m], open)
    ensures m.role == Tool ==>
              && (OpenAfter([m], open) == if m.toolCallId.Some? then open - {m.toolCallId.value} else open)
              && (Paired([m], open) <==> m.toolCallId.Some? && m.toolCallId.value != "" && m.toolCallId.value in open)
    ensures m.role != User && m.role != Assistant && m.role != Tool ==> !Paired([m], open)
  {
    assert [m][1..] == [];
  }

  ghost predicate InPlace(h: seq<Message>, i: nat)
    requires i < |h|
  {
    h[i].role == User || h[i].role == Assistant || (h[i].role == Tool && exists j: nat :: Answers(h, j, i))
  }

  /**
    A history is paired exactly if it holds only user, assistant and tool messages, and every tool message is the first
    answer to a call of the latest assistant message, with nothing but tool messages between the two.
   */
  lemma {:induction false} PairedMeans(h: seq<Message>)
    ensures Paired(h, {}) <==> forall i | 0 <= i < |h| :: InPlace(h, i)
    decreases |h|
  {
    if h != [] {
      var front, last := h[..|h| - 1], h[|h| - 1];
      assert h == front + [last];
      PairedConcat(front, [last], {});
      PairedMeans(front);
      LastMessage(last, OpenAfter(front, {}));
      forall i | 0 <= i < |front|
        ensures InPlace(h, i) <==> InPlace(front, i)
      {
        SamePlace(h, front, i);
      }
      assert InPlace(h, |front|) && last.role == Tool ==> last.toolCallId.Some?;
      if Paired(front, {}) && last.role == Tool && last.toolCallId.Some? {
        OpenMeans(front, last.toolCallId.value);
        LastAnswers(front, last);
      }
    }
  }

  lemma SamePlace(h: seq<Message>, front: seq<Message>, i: nat)
    requires front <= h && i < |front|
    ensures InPlace(h, i) <==> InPlace(front, i)
  {
    forall j: nat | j < i
      ensures Answers(h, j, i) <==> Answers(front, j, i)
    {
      assert h[j] == front[j] && h[i] == front[i] && forall k | j < k < i :: h[k] == front[k];
    }
    assert forall j: nat | Answers(h, j, i) || Answers(front, j, i) :: j < i;
  }

  lemma LastAnswers(front: seq<Message>, last: Message)
    requires last.role == Tool && last.toolCallId.Some?
    ensures InPlace(front + [last], |front|) <==>
            last.toolCallId.value != "" && exists j: nat :: OpenSince(front, j, last.toolCallId.value)
  {
    var h := front + [last];
    forall j: nat
      ensures Answers(h, j, |front|) <==> OpenSince(front, j, last.toolCallId.value)
    {
      assert forall k | 0 <= k < |front| :: h[k] == front[k];
    }
  }

  // ----- completeness

  /** Before message n, or at the end, no answer can come any more. */
  ghost predicate Boundary(h: seq<Message>, n: nat) {
    n <= |h| && (n == |h| || h[n].role != Tool)
  }

  /** Complete means paired, and nothing open at any boundary. */
  lemma {:induction false} CompleteAtBoundaries(h: seq<Message>, pending: set<string>)
    ensures Complete(h, pending) <==>
            Paired(h, pending) && forall n: nat | Boundary(h, n) :: OpenAfter(h[..n], pending) == {}
  {
    if h == [] {
      assert Boundary(h, 0) && h[..0] == [];
    } else {
      var next := match h[0].role
        case User => {}
        case Assistant => Ids(h[0].toolCalls)
        case Tool => if h[0].toolCallId.Some? then pending - {h[0].toolCallId.value} else pending
        case _ => pending;
      CompleteAtBoundaries(h[1..], next);
      assert h[..0] == [];
      assert Boundary(h, 0) <==> h[0].role != Tool;
      forall n: nat | 0 < n <= |h|
        ensures Boundary(h, n) <==> Boundary(h[1..], n - 1)
        ensures OpenAfter(h[..n], pending) == OpenAfter(h[1..][..n - 1], next)
      {
        assert h[..n][1..] == h[1..][..n - 1] && h[..n][0] == h[0];
      }
      assert forall n: nat | Boundary(h[1..], n) :: Boundary(h, n + 1);
    }
  }

  /** Some message answers call id of message j. */
  ghost predicate Answered(h: seq<Message>, j: nat, id: string) {
    exists i: nat :: Answers(h, j, i) && h[i].toolCallId == Some(id)
  }

  ghost predicate AllAnswered(h: seq<Message>) {
    forall j: nat, c | j < |h| && h[j].role == Assistant && c in h[j].toolCalls && c.id.Some? && c.id.value != "" ::
      Answered(h, j, c.id.value)
  }

  /**
    A history is complete exactly if it is paired and every call that has an id is answered, by a tool message with
    nothing but tool messages between the two.
   */
  lemma CompleteMeans(h: seq<Message>)
    ensures Complete(h, {}) <==> Paired(h, {}) && AllAnswered(h)
  {
    hide Complete, Paired, OpenAfter, Answered;
    CompleteAtBoundaries(h, {});
    if Paired(h, {}) {
      forall n: nat | Boundary(h, n)
        ensures Paired(h[..n], {})
      {
        assert h == h[..n] + h[n..];
        PairedConcat(h[..n], h[n..], {});
      }
      if AllAnswered(h) {
        forall n: nat | Boundary(h, n)
          ensures OpenAfter(h[..n], {}) == {}
        {
          NothingOpenAt(h, n);
        }
      } else {
        var j: nat, c :| j < |h| && h[j].role == Assistant && c in h[j].toolCalls && c.id.Some? && c.id.value != "" &&
          !Answered(h, j, c.id.value);
        var n := OpenTill(h, j, c, j + 1);
        OpenMeans(h[..n], c.id.value);
      }
    }
  }

  lemma NothingOpenAt(h: seq<Message>, n: nat)
    requires Boundary(h, n) && Paired(h[..n], {}) && AllAnswered(h)
    ensures OpenAfter(h[..n], {}) == {}
  {
    hide Paired, OpenAfter;
    assert forall i | 0 <= i < n :: h[..n][i] == h[i];
    forall id
      ensures id !in OpenAfter(h[..n], {})
    {
      OpenMeans(h[..n], id);
      if j: nat :| OpenSince(h[..n], j, id) {
        var c :| c in h[j].toolCalls && c.id == Some(id);
        assert Answered(h, j, c.id.value);
        var i: nat :| Answers(h, j, i) && h[i].toolCallId == Some(id);
      }
    }
  }

  /** An unanswered call is open at the next boundary. */
  lemma {:induction false} OpenTill(h: seq<Message>, j: nat, c: ToolCall, k: nat) returns (n: nat)
    requires j < k <= |h| && h[j].role == Assistant && c in h[j].toolCalls && c.id.Some? && c.id.value != ""
    requires !Answered(h, j, c.id.value)
    requires forall i | j < i < k :: h[i].role == Tool && h[i].toolCallId != c.id
    ensures Boundary(h, n) && OpenSince(h[..n], j, c.id.value)
    decreases |h| - k
  {
    if Boundary(h, k) {
      n := k;
      assert forall i | 0 <= i < n :: h[..n][i] == h[i];
    } else {
      assert !(Answers(h, j, k) && h[k].toolCallId == c.id);
      n := OpenTill(h, j, c, k + 1);
    }
  }
}

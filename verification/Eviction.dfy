/** The message-count bound: what a memory that evicts after every append holds, compared with the whole transcript. */
module Eviction {
  import opened Messages

  function Within(max: int): seq<Message> -> bool {
    (s: seq<Message>) => |s| <= max
  }

  /** A bound of zero or less means no bound. */
  function Evict(h: seq<Message>, max: int): seq<Message> {
    if max <= 0 then h else Shrink(h, Within(max))
  }

  /** The history after appending msgs one by one, evicting after each. */
  function AddAll(h: seq<Message>, msgs: seq<Message>, max: int): seq<Message> {
    if msgs == [] then h
    else Evict(AddAll(h, msgs[..|msgs| - 1], max) + [msgs[|msgs| - 1]], max)
  }

  lemma AddOne(start: seq<Message>, said: seq<Message>, msg: Message, max: int)
    ensures AddAll(start, said + [msg], max) == Evict(AddAll(start, said, max) + [msg], max)
    ensures AddAll(start, [], max) == start
  {
    assert (said + [msg])[..|said + [msg]| - 1] == said;
  }

  /** One assistant (or user) message with the tool messages that follow it. */
  ghost predicate IsGroup(g: seq<Message>) {
    g != [] && !IsTool(g[0]) && forall i | 1 <= i < |g| :: IsTool(g[i])
  }

  lemma EvictBounded(h: seq<Message>, max: int)
    requires max > 0
    ensures |Evict(h, max)| <= max
    ensures |h| <= max ==> Evict(h, max) == h
  {
    var _ := ShrinkIsBestCut(h, Within(max));
  }

  lemma EvictKeepsPairing(h: seq<Message>, max: int)
    requires Paired(h, {})
    ensures Paired(Evict(h, max), {})
    ensures Complete(h, {}) ==> Complete(Evict(h, max), {})
  {
    if max > 0 {
      ShrinkKeepsPairing(h, Within(max));
    }
  }

  /** Shrinking may start from any group boundary that is not past the final cut. */
  lemma ShrinkFrom(h: seq<Message>, fits: seq<Message> -> bool, j: nat, k: nat)
    requires BestCut(h, fits, k) && j <= k && AtGroup(h, j)
    ensures Shrink(h[j..], fits) == h[k..]
  {
    var t := h[j..];
    assert t[k - j..] == h[k..];
    assert k < |h| ==> t[k - j] == h[k];
    forall i | 0 <= i < k - j && AtGroup(t, i)
      ensures !fits(t[i..])
    {
      assert t[i..] == h[i + j..] && t[i] == h[i + j];
    }
    ShrinkAt(t, fits, k - j);
  }

  /** Evicting early does not change the outcome, unless it emptied the history in the middle of a group. */
  lemma EvictThenAppend(t: seq<Message>, g: seq<Message>, max: int)
    requires g == [] || !IsTool(g[0]) || t == [] || Evict(t, max) != []
    ensures Evict(Evict(t, max) + g, max) == Evict(t + g, max)
  {
    if max > 0 {
      hide BestCut, Shrink, IsTool, AtGroup, Within;
      var fits := Within(max);
      var h := t + g;
      var j := ShrinkIsBestCut(t, fits);
      var k := ShrinkIsBestCut(h, fits);
      assert Evict(t, max) == t[j..];
      hide *;
      StillAtGroup(t, g, max, j);
      CutsGrow(t, g, max, j, k);
      ShrinkFrom(h, fits, j, k);
      assert h[j..] == t[j..] + g;
    }
  }

  lemma StillAtGroup(t: seq<Message>, g: seq<Message>, max: int, j: nat)
    requires BestCut(t, Within(max), j)
    requires g == [] || !IsTool(g[0]) || t == [] || t[j..] != []
    ensures j <= |t| && AtGroup(t + g, j)
  {
    assert j < |t| ==> (t + g)[j] == t[j];
  }

  lemma CutsGrow(t: seq<Message>, g: seq<Message>, max: int, j: nat, k: nat)
    requires max > 0 && BestCut(t, Within(max), j) && BestCut(t + g, Within(max), k)
    ensures j <= k
  {
    var h := t + g;
    forall i | 0 <= i < j && AtGroup(h, i)
      ensures |h[i..]| > max
    {
      assert h[i] == t[i] && AtGroup(t, i);
      assert |t[i..]| <= |h[i..]|;
    }
  }

  /** A group that fits the bound survives its own arrival. */
  lemma GroupKept(t: seq<Message>, g: seq<Message>, max: int)
    requires IsGroup(g) && (max <= 0 || |g| <= max)
    ensures exists k: nat :: k <= |t| && Evict(t + g, max) == t[k..] + g
  {
    var h := t + g;
    if max > 0 {
      var k := ShrinkIsBestCut(h, Within(max));
      assert h[|t|] == g[0] && h[|t|..] == g;
      assert AtGroup(h, |t|);
      assert k <= |t|;
      assert h[k..] == t[k..] + g;
    } else {
      assert t[0..] + g == h;
    }
  }

  /** Appending a fitting group message by message is the same as appending it whole and evicting once. */
  lemma {:induction false} GroupAsBatch(h: seq<Message>, g: seq<Message>, max: int)
    requires IsGroup(g) && (max <= 0 || |g| <= max)
    ensures AddAll(h, g, max) == Evict(h + g, max)
    decreases |g|
  {
    var front, last := g[..|g| - 1], g[|g| - 1];
    assert g == front + [last];
    if front == [] {
      assert AddAll(h, front, max) == h;
    } else {
      GroupAsBatch(h, front, max);
      GroupKept(h, front, max);
      EvictThenAppend(h + front, [last], max);
      assert h + front + [last] == h + g;
    }
  }

  // ----- the history is a window of the transcript

  ghost predicate HasHead(t: seq<Message>, lo: nat, hi: nat)
    requires lo <= hi <= |t|
  {
    exists j :: lo <= j < hi && !IsTool(t[j])
  }

  /** Among any max consecutive messages at least one is not a tool message: no group is larger than the bound. */
  ghost predicate GroupsFit(t: seq<Message>, max: int) {
    max <= 0 || forall lo: nat, hi: nat | lo <= hi <= |t| && hi - lo == max :: HasHead(t, lo, hi)
  }

  /**
    However the transcript arrived, the bounded history is the longest suffix of whole groups of it
    that has at most max messages.
   */
  lemma {:induction false} HistoryIsWindow(t: seq<Message>, max: int)
    requires GroupsFit(t, max)
    ensures AddAll([], t, max) == Evict(t, max)
    decreases |t|
  {
    if t == [] {
    } else {
      var front, last := t[..|t| - 1], t[|t| - 1];
      assert t == front + [last];
      forall lo: nat, hi: nat | max > 0 && lo <= hi <= |front| && hi - lo == max
        ensures HasHead(front, lo, hi)
      {
        assert HasHead(t, lo, hi);
        var j :| lo <= j < hi && !IsTool(t[j]);
        assert !IsTool(front[j]);
      }
      HistoryIsWindow(front, max);
      if max > 0 && IsTool(last) && front != [] {
        FrontNotEmptied(t, max);
      }
      EvictThenAppend(front, [last], max);
    }
  }

  lemma FrontNotEmptied(t: seq<Message>, max: int)
    requires max > 0 && GroupsFit(t, max) && |t| > 1 && IsTool(t[|t| - 1])
    ensures Evict(t[..|t| - 1], max) != []
  {
    var front := t[..|t| - 1];
    var k := ShrinkIsBestCut(front, Within(max));
    if |t| >= max {
      assert HasHead(t, |t| - max, |t|);
      var j :| |t| - max <= j < |t| && !IsTool(t[j]);
      assert front[j] == t[j] && AtGroup(front, j) && |front[j..]| <= max;
    } else {
      assert AtGroup(front, 0) && |front[0..]| <= max;
    }
  }

  // ----- a turn with too many calls

  /** Tool messages on their own: at each overflow the whole history goes. */
  lemma {:induction false} LooseTools(ts: seq<Message>, max: int)
    requires max > 0 && forall i | 0 <= i < |ts| :: IsTool(ts[i])
    ensures AddAll([], ts, max) == ts[|ts| - Residue(|ts|, max + 1)..]
    decreases |ts|
  {
    hide Evict;
    if ts != [] {
      var front, last := ts[..|ts| - 1], ts[|ts| - 1];
      LooseTools(front, max);
      var r := Residue(|front|, max + 1);
      var tail := front[|front| - r..] + [last];
      ResidueNext(|front|, max + 1);
      if r == max {
        AllDropped(tail, max);
      } else {
        EvictBounded(tail, max);
        assert tail == ts[|ts| - Residue(|ts|, max + 1)..];
      }
    }
  }

  /** n counted in cycles of length m. */
  function Residue(n: nat, m: nat): (r: nat)
    requires m > 0
    ensures r < m
  {
    if n < m then n else Residue(n - m, m)
  }

  lemma {:induction false} ResidueNext(n: nat, m: nat)
    requires m > 0
    ensures Residue(n + 1, m) == if Residue(n, m) == m - 1 then 0 else Residue(n, m) + 1
  {
    if n >= m {
      ResidueNext(n - m, m);
    }
  }

  /** A group, or a run of tool messages, that is one too long takes itself down with it. */
  lemma AllDropped(h: seq<Message>, max: int)
    requires |h| == max + 1 > 1 && forall i | 1 <= i < |h| :: IsTool(h[i])
    ensures Evict(h, max) == []
  {
    var k := ShrinkIsBestCut(h, Within(max));
  }

  lemma {:induction false} AddAllConcat(h: seq<Message>, a: seq<Message>, b: seq<Message>, max: int)
    ensures AddAll(h, a + b, max) == AddAll(AddAll(h, a, max), b, max)
    decreases |b|
  {
    if b == [] {
      assert a + b == a;
    } else {
      var front := b[..|b| - 1];
      AddAllConcat(h, a, front, max);
      assert (a + b)[..|a + b| - 1] == a + front;
    }
  }

  /** The first max + 1 messages of a long group empty the history. */
  lemma LongGroupEmpties(h: seq<Message>, g: seq<Message>, max: int)
    requires IsGroup(g) && |g| == max + 1 > 1
    ensures AddAll(h, g, max) == []
  {
    var a := g[..max];
    assert g == a + [g[max]];
    hide Evict, AddAll;
    GroupAsBatch(h, a, max);
    GroupKept(h, a, max);
    EvictBounded(h + a, max);
    var k: nat :| k <= |h| && Evict(h + a, max) == h[k..] + a;
    assert h[k..] == [];
    assert [] + a == a;
    AddOne(h, a, g[max], max);
    AllDropped(g, max);
  }

  lemma LongGroupTail(h: seq<Message>, g: seq<Message>, max: int)
    requires IsGroup(g) && |g| > max > 0
    ensures AddAll(h, g, max) == g[|g| - Residue(|g|, max + 1)..]
  {
    hide Evict, AddAll;
    var a, b := g[..max + 1], g[max + 1..];
    assert g == a + b;
    LongGroupEmpties(h, a, max);
    AddAllConcat(h, a, b, max);
    LooseTools(b, max);
    var r := Residue(|b|, max + 1);
    assert b[|b| - r..] == g[|g| - r..];
  }

  /**
    What one turn leaves behind, for every number of calls. If the turn fits the bound, it is kept whole, behind
    as much of the older history as fits. If not, the older history and the assistant message are lost, and what
    remains are the last Residue(|g|, max + 1) tool messages, which answer nothing.
   */
  lemma TurnOutcome(h: seq<Message>, g: seq<Message>, max: int)
    requires IsGroup(g) && max > 0
    ensures |g| <= max ==> exists k: nat :: k <= |h| && AddAll(h, g, max) == h[k..] + g
    ensures |g| > max ==> AddAll(h, g, max) == g[|g| - Residue(|g|, max + 1)..]
    ensures |g| > max ==> (Paired(AddAll(h, g, max), {}) <==> Residue(|g|, max + 1) == 0)
  {
    if |g| <= max {
      GroupAsBatch(h, g, max);
      GroupKept(h, g, max);
    } else {
      LongGroupTail(h, g, max);
      var r := Residue(|g|, max + 1);
      assert r > 0 ==> IsTool(g[|g| - r..][0]);
    }
  }
}

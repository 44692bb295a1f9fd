/** Searching in text: first occurrences, counted occurrences, trimmed white space. */
module Searching {
  import opened Wrappers

  /** The first position of w in t. */
  function Find(t: string, w: string): Option<nat>
    decreases |t|
  {
    if |t| < |w| then None
    else if t[..|w|] == w then Some(0)
    else if t == "" then None
    else match Find(t[1..], w) case Some(i) => Some(i + 1) case None => None
  }

  /** How often w occurs in t, counted from the left without overlaps. */
  function Count(t: string, w: string): nat
    requires w != ""
    decreases |t|
  {
    if |t| < |w| then 0
    else if t[..|w|] == w then 1 + Count(t[|w|..], w)
    else Count(t[1..], w)
  }

  /** White space as Python's strip sees it. */
  predicate IsSpace(c: char) {
    || '\t' <= c <= '\r' || '\U{1C}' <= c <= ' ' || c == '\U{85}' || c == '\U{A0}' || c == '\U{1680}'
    || '\U{2000}' <= c <= '\U{200A}' || c == '\U{2028}' || c == '\U{2029}' || c == '\U{202F}' || c == '\U{205F}'
    || c == '\U{3000}'
  }

  function StripLeft(t: string): string {
    if t != "" && IsSpace(t[0]) then StripLeft(t[1..]) else t
  }

  function StripRight(t: string): string {
    if t != "" && IsSpace(t[|t| - 1]) then StripRight(t[..|t| - 1]) else t
  }

  function Strip(t: string): string {
    StripRight(StripLeft(t))
  }

  predicate Lacks(t: string, c: char) {
    c !in t
  }

  /** A joined text lacks a character exactly if both parts do. */
  lemma LacksConcat(c: char)
    ensures forall a: string, b: string {:trigger Lacks(a + b, c)} :: Lacks(a + b, c) <==> Lacks(a, c) && Lacks(b, c)
  {
  }

  predicate OccursAt(t: string, w: string, i: nat) {
    i + |w| <= |t| && t[i..i + |w|] == w
  }

  lemma OccursShift(t: string, w: string, j: nat)
    requires t != ""
    ensures OccursAt(t[1..], w, j) <==> OccursAt(t, w, j + 1)
  {
    assert j + |w| < |t| ==> t[1..][j..j + |w|] == t[j + 1..j + 1 + |w|];
  }

  lemma OccursFirst(t: string, w: string)
    ensures OccursAt(t, w, 0) <==> |w| <= |t| && t[..|w|] == w
  {
  }

  /** Find finds the first position. */
  lemma {:induction false} FindFirst(t: string, w: string, i: nat)
    requires OccursAt(t, w, i) && forall j: nat | j < i :: !OccursAt(t, w, j)
    ensures Find(t, w) == Some(i)
    decreases i
  {
    OccursFirst(t, w);
    if i > 0 {
      assert |t| > 0 && !OccursAt(t, w, 0);
      forall j: nat
        ensures OccursAt(t[1..], w, j) <==> OccursAt(t, w, j + 1)
      {
        OccursShift(t, w, j);
      }
      FindFirst(t[1..], w, i - 1);
    }
  }

  lemma {:induction false} FoundOccurs(t: string, w: string)
    ensures Find(t, w).Some? ==> OccursAt(t, w, Find(t, w).value)
    decreases |t|
  {
    hide OccursAt;
    OccursFirst(t, w);
    if |t| >= |w| && t[..|w|] != w && t != "" {
      FoundOccurs(t[1..], w);
      if Find(t[1..], w).Some? {
        OccursShift(t, w, Find(t[1..], w).value);
      }
    }
  }

  lemma {:induction false} NotFound(t: string, w: string)
    requires Find(t, w).None?
    ensures forall j: nat :: !OccursAt(t, w, j)
    decreases |t|
  {
    if |t| >= |w| && t != "" {
      hide OccursAt;
      OccursFirst(t, w);
      NotFound(t[1..], w);
      forall j: nat
        ensures !OccursAt(t, w, j)
      {
        if j > 0 {
          OccursShift(t, w, j - 1);
        }
      }
    }
  }

  /** What is found in a text is found at the same place in any longer one. */
  lemma {:induction false} FindInPrefix(t: string, w: string, more: string)
    ensures Find(t, w).Some? ==> Find(t + more, w) == Find(t, w)
    decreases |t|
  {
    if |t| >= |w| {
      assert (t + more)[..|w|] == t[..|w|];
      if t[..|w|] != w && t != "" {
        assert (t + more)[1..] == t[1..] + more;
        FindInPrefix(t[1..], w, more);
      }
    }
  }

  /** A word without the character c does not occur across a c. */
  lemma {:induction false} CountSplit(a: string, c: char, b: string, w: string)
    requires w != "" && c !in w
    ensures Count(a + [c] + b, w) == Count(a, w) + Count(b, w)
    decreases |a|
  {
    var t := a + [c] + b;
    if a == "" {
      assert t[1..] == b;
      assert |t| >= |w| ==> t[..|w|][0] == c;
    } else if |a| >= |w| && a[..|w|] == w {
      assert t[..|w|] == w && t[|w|..] == a[|w|..] + [c] + b;
      CountSplit(a[|w|..], c, b, w);
    } else {
      assert t[1..] == a[1..] + [c] + b;
      CountSplit(a[1..], c, b, w);
      if |t| >= |w| {
        if |a| >= |w| {
          assert t[..|w|] == a[..|w|];
        } else {
          assert t[..|w|][|a|] == c;
        }
      }
    }
  }

  lemma {:induction false} CountAbsent(t: string, c: char, w: string)
    requires w != "" && c in w && c !in t
    ensures Count(t, w) == 0
    decreases |t|
  {
    if |t| >= |w| {
      assert forall x | x in t[..|w|] :: x in t;
      CountAbsent(t[1..], c, w);
    }
  }

  lemma {:induction false} StripLeftPrefix(a: string, b: string)
    requires (forall c | c in a :: IsSpace(c)) && b != "" && !IsSpace(b[0])
    ensures StripLeft(a + b) == b
  {
    if a == "" {
      assert a + b == b;
    } else {
      assert (a + b)[1..] == a[1..] + b;
      StripLeftPrefix(a[1..], b);
    }
  }

  lemma {:induction false} StripRightSuffix(b: string, a: string)
    requires (forall c | c in a :: IsSpace(c)) && b != "" && !IsSpace(b[|b| - 1])
    ensures StripRight(b + a) == b
    decreases |a|
  {
    if a == "" {
      assert b + a == b;
    } else {
      assert (b + a)[..|b + a| - 1] == b + a[..|a| - 1];
      StripRightSuffix(b, a[..|a| - 1]);
    }
  }

  /** Stripping keeps every other character and every word without white space. */
  lemma {:induction false} StripKeeps(t: string, c: char, w: string)
    requires !IsSpace(c) && w != "" && forall x | x in w :: !IsSpace(x)
    ensures c in t <==> c in Strip(t)
    ensures Count(Strip(t), w) == Count(t, w)
  {
    StripLeftKeeps(t, c, w);
    StripRightKeeps(StripLeft(t), c, w);
  }

  lemma {:induction false} StripLeftKeeps(t: string, c: char, w: string)
    requires !IsSpace(c) && w != "" && forall x | x in w :: !IsSpace(x)
    ensures c in t <==> c in StripLeft(t)
    ensures Count(StripLeft(t), w) == Count(t, w)
  {
    if t != "" && IsSpace(t[0]) {
      StripLeftKeeps(t[1..], c, w);
      assert t == "" + [t[0]] + t[1..];
      CountSplit("", t[0], t[1..], w);
    }
  }

  lemma {:induction false} StripRightKeeps(t: string, c: char, w: string)
    requires !IsSpace(c) && w != "" && forall x | x in w :: !IsSpace(x)
    ensures c in t <==> c in StripRight(t)
    ensures Count(StripRight(t), w) == Count(t, w)
    decreases |t|
  {
    if t != "" && IsSpace(t[|t| - 1]) {
      var front, last := t[..|t| - 1], t[|t| - 1];
      StripRightKeeps(front, c, w);
      assert t == front + [last] + "";
      CountSplit(front, last, "", w);
    }
  }

  /** A line appended to complete lines adds its own occurrences. */
  lemma CountLine(a: string, c: string, w: string)
    requires w != "" && '\n' !in w && (a == "" || a[|a| - 1] == '\n')
    ensures Count(a + c + "\n", w) == Count(a, w) + Count(c, w)
  {
    CountSplit(a + c, '\n', "", w);
    assert a + c + ['\n'] + "" == a + c + "\n";
    if a == "" {
      assert a + c == c;
    } else {
      var front := a[..|a| - 1];
      assert a == front + ['\n'] + "" && a + c == front + ['\n'] + c;
      CountSplit(front, '\n', "", w);
      CountSplit(front, '\n', c, w);
    }
  }

  lemma {:induction false} FindChar(t: string, c: char)
    ensures Find(t, [c]).Some? <==> c in t
    ensures Find(t, [c]).Some? ==> Find(t, [c]).value < |t| && c !in t[..Find(t, [c]).value]
  {
    if t != "" {
      FindChar(t[1..], c);
      assert t[..1] == [t[0]];
      if t[0] != c && c in t {
        var i := Find(t[1..], [c]).value;
        assert t[..i + 1] == [t[0]] + t[1..][..i];
      }
    }
  }
}

/** Waiting between connection attempts: capped exponential backoff. */
module Backoff {
  datatype Settings = Settings(retries: int, initial: real, multiplier: real, max: real)

  function AtLeast(low: real, x: real): real {
    if x > low then x else low
  }

  /** The settings as the backend takes them over: at least one attempt, waits that never shrink. */
  function Configure(s: Settings): Settings {
    Settings(if s.retries > 1 then s.retries else 1, AtLeast(0.1, s.initial), AtLeast(1.0, s.multiplier),
             AtLeast(0.1, s.max))
  }

  /** A setting that is too small is raised to its least value; all others are taken over as they are. */
  lemma ConfigureMeans(s: Settings)
    ensures var c := Configure(s);
            && (if s.retries >= 1 then c.retries == s.retries else c.retries == 1)
            && (if s.initial >= 0.1 then c.initial == s.initial else c.initial == 0.1)
            && (if s.multiplier >= 1.0 then c.multiplier == s.multiplier else c.multiplier == 1.0)
            && (if s.max >= 0.1 then c.max == s.max else c.max == 0.1)
  {
  }

  function Capped(max: real, x: real): real {
    if x < max then x else max
  }

  function Pow(b: real, k: nat): real {
    if k == 0 then 1.0 else Pow(b, k - 1) * b
  }

  /** Wait k in closed form; the first wait is not capped. */
  function Wait(c: Settings, k: nat): real {
    if k == 0 then c.initial else Capped(c.max, c.initial * Pow(c.multiplier, k))
  }

  /** The wait after a wait of w. */
  function Next(c: Settings, w: real): real {
    Capped(c.max, w * c.multiplier)
  }

  /** Capping at every step or once at the end makes no difference, because the multiplier is at least 1. */
  lemma WaitNext(s: Settings, k: nat)
    ensures var c := Configure(s); Wait(c, k + 1) == Next(c, Wait(c, k))
  {
    var c := Configure(s);
    var x := c.initial * Pow(c.multiplier, k);
    assert x * c.multiplier == c.initial * Pow(c.multiplier, k + 1);
    GrowsBy(c.max, c.multiplier);
    if k > 0 && x >= c.max {
      Product(c.max, x, c.multiplier);
    }
  }

  lemma GrowsBy(x: real, m: real)
    requires x >= 0.0 && m >= 1.0
    ensures x * m >= x
  {
    assert x * m == x + x * (m - 1.0);
  }

  lemma NextGrows(c: Settings, w: real)
    requires 0.0 <= w <= c.max && c.multiplier >= 1.0
    ensures w <= Next(c, w) <= c.max
  {
    GrowsBy(w, c.multiplier);
  }

  lemma Product(x: real, y: real, m: real)
    requires x <= y && m >= 0.0
    ensures x * m <= y * m
  {
    assert y * m - x * m == (y - x) * m;
  }

  lemma {:induction false} WaitPositive(s: Settings, k: nat)
    ensures Wait(Configure(s), k) > 0.0
  {
    if k > 0 {
      WaitPositive(s, k - 1);
      WaitNext(s, k - 1);
      GrowsBy(Wait(Configure(s), k - 1), Configure(s).multiplier);
    }
  }

  /** From the second wait on, waits only grow; only the first may exceed the cap. */
  lemma {:induction false} WaitsGrow(s: Settings, j: nat, k: nat)
    requires 1 <= j <= k
    ensures Wait(Configure(s), j) <= Wait(Configure(s), k) <= Configure(s).max
    decreases k
  {
    if j < k {
      hide Wait, Pow;
      var before := Wait(Configure(s), k - 1);
      WaitsGrow(s, j, k - 1);
      WaitNext(s, k - 1);
      WaitPositive(s, k - 1);
      NextGrows(Configure(s), before);
    }
  }

  function Total(waits: seq<real>): real {
    if waits == [] then 0.0 else Total(waits[..|waits| - 1]) + waits[|waits| - 1]
  }

  ghost predicate Waited(c: Settings, waits: seq<real>) {
    forall k | 0 <= k < |waits| :: waits[k] == Wait(c, k)
  }

  /** A wait that follows a wait of before: that times the multiplier, up to the cap. */
  predicate Follows(s: Settings, before: real, wait: real) {
    var grown := before * if s.multiplier >= 1.0 then s.multiplier else 1.0;
    var cap := if s.max >= 0.1 then s.max else 0.1;
    wait == if grown < cap then grown else cap
  }

  /** The first wait is the initial one, and each further one follows the one before. */
  ghost predicate WaitsFollow(s: Settings, waits: seq<real>) {
    && (waits != [] ==> waits[0] == if s.initial >= 0.1 then s.initial else 0.1)
    && forall k | 1 <= k < |waits| :: Follows(s, waits[k - 1], waits[k])
  }

  lemma NextFollows(s: Settings, before: real)
    ensures Follows(s, before, Next(Configure(s), before))
  {
    ConfigureMeans(s);
    hide Configure;
    assert Configure(s).multiplier == if s.multiplier >= 1.0 then s.multiplier else 1.0;
  }

  lemma WaitsMean(s: Settings, waits: seq<real>)
    requires Waited(Configure(s), waits)
    ensures WaitsFollow(s, waits)
  {
    ConfigureMeans(s);
    hide Configure, Pow, Follows, Next, Capped;
    forall k | 1 <= k < |waits|
      ensures Follows(s, waits[k - 1], waits[k])
    {
      hide Wait;
      WaitNext(s, k - 1);
      NextFollows(s, waits[k - 1]);
    }
  }

  lemma {:induction false} TotalAdds(a: seq<real>, b: seq<real>, w: real)
    ensures Total(a + b) == Total(a) + Total(b) && Total([w]) == w
    decreases |b|
  {
    assert [w][..0] == [];
    if b == [] {
      assert a + b == a;
    } else {
      assert (a + b)[..|a + b| - 1] == a + b[..|b| - 1];
      TotalAdds(a, b[..|b| - 1], w);
    }
  }

  /** All waits together: the first one plus at most the cap for each further one. */
  ghost predicate WithinBound(c: Settings, waits: seq<real>) {
    waits != [] ==> Total(waits) <= c.initial + (|waits| - 1) as real * c.max
  }

  lemma {:induction false} TotalBounded(s: Settings, waits: seq<real>)
    requires Waited(Configure(s), waits)
    ensures WithinBound(Configure(s), waits)
    decreases |waits|
  {
    if |waits| == 1 {
      assert Total(waits) == waits[0];
    } else if |waits| > 1 {
      hide Wait, Pow, Configure;
      var front := waits[..|waits| - 1];
      TotalBounded(s, front);
      WaitsGrow(s, |front|, |front|);
      OneMore(|front|, Configure(s).max);
    }
  }

  lemma OneMore(n: nat, x: real)
    requires n > 0
    ensures n as real * x == (n - 1) as real * x + x
  {
    assert n as real == (n - 1) as real + 1.0;
  }

  datatype Attempt = Succeeded | Transient | Permanent

  /** Run a remote command: repeat it only after transient failures, and at most retries times in all. */
  method SshRun(s: Settings, attempt: nat -> Attempt) returns (result: Attempt, attempts: nat, waits: seq<real>)
    ensures 1 <= attempts <= Configure(s).retries && result == attempt(attempts)
    ensures forall i | 1 <= i < attempts :: attempt(i) == Transient
    ensures result == Transient ==> attempts == Configure(s).retries
    ensures |waits| == attempts - 1 && Waited(Configure(s), waits)
    ensures WithinBound(Configure(s), waits) && WaitsFollow(s, waits)
  {
    hide Pow, Next, AtLeast, WithinBound, WaitsFollow;
    var c := Configure(s);
    var backoff := c.initial;
    waits := [];
    attempts := 1;
    while true
      invariant 1 <= attempts <= c.retries && |waits| == attempts - 1 && Waited(c, waits)
      invariant backoff == Wait(c, attempts - 1)
      invariant forall i | 1 <= i < attempts :: attempt(i) == Transient
      decreases c.retries - attempts
    {
      result := attempt(attempts);
      if result == Succeeded || attempts >= c.retries || result == Permanent {
        TotalBounded(s, waits);
        WaitsMean(s, waits);
        return;
      }
      waits := waits + [backoff];
      WaitNext(s, attempts - 1);
      backoff := Next(c, backoff);
      attempts := attempts + 1;
    }
  }

  /** Probe the host: reachable exactly if one of the allowed probes succeeds, and no probe follows a successful one. */
  method WaitForConnectivity(s: Settings, probe: nat -> bool) returns (reachable: bool, attempts: nat, waits: seq<real>)
    ensures 1 <= attempts <= Configure(s).retries
    ensures reachable <==> exists i | 1 <= i <= Configure(s).retries :: probe(i)
    ensures forall i | 1 <= i < attempts :: !probe(i)
    ensures if reachable then probe(attempts) else attempts == Configure(s).retries
    ensures |waits| == attempts - 1 && Waited(Configure(s), waits)
    ensures WithinBound(Configure(s), waits) && WaitsFollow(s, waits)
  {
    hide Pow, Next, AtLeast, WithinBound, WaitsFollow;
    var c := Configure(s);
    var backoff := c.initial;
    waits := [];
    attempts := 1;
    while !probe(attempts)
      invariant 1 <= attempts <= c.retries && |waits| == attempts - 1 && Waited(c, waits)
      invariant backoff == Wait(c, attempts - 1)
      invariant forall i | 1 <= i < attempts :: !probe(i)
      decreases c.retries - attempts
    {
      if attempts == c.retries {
        TotalBounded(s, waits);
        WaitsMean(s, waits);
        return false, attempts, waits;
      }
      waits := waits + [backoff];
      WaitNext(s, attempts - 1);
      backoff := Next(c, backoff);
      attempts := attempts + 1;
    }
    TotalBounded(s, waits);
    WaitsMean(s, waits);
    reachable := true;
  }
}

/** The crash policy of `supervisor.py`: capped backoff and the sliding-window poison pill, for one child. */
module RestartPolicy {
  import opened Prelude

  const WINDOW: real := 30.0
  const THRESHOLD: nat := 3
  const BACKOFF_INITIAL: real := 1.0
  const BACKOFF_MAX: real := 10.0

  /** The times kept of handled exits, and the next backoff. */
  datatype Policy = Policy(history: seq<real>, backoff: real)

  datatype Verdict = GiveUp | RestartAfter(delay: real)

  const Fresh: Policy := Policy([], BACKOFF_INITIAL)

  /** The times less than a window old. */
  function Recent(times: seq<real>, now: real): seq<real> {
    if times == [] then []
    else if now - times[0] < WINDOW then [times[0]] + Recent(times[1..], now)
    else Recent(times[1..], now)
  }

  function OnExit(p: Policy, now: real): (Policy, Verdict) {
    var history := Recent(p.history, now) + [now];
    if |history| >= THRESHOLD then (Policy(history, p.backoff), GiveUp)
    else
      (Policy(history, if p.backoff * 2.0 <= BACKOFF_MAX then p.backoff * 2.0 else BACKOFF_MAX), RestartAfter(p.backoff))
  }

  /** The mutable state of one supervised child. */
  class Child {
    var restartHistory: seq<real>
    var backoff: real

    ghost function Current(): Policy
      reads this
    {
      Policy(restartHistory, backoff)
    }

    constructor ()
      ensures Current() == Fresh
    {
      restartHistory := [];
      backoff := BACKOFF_INITIAL;
    }

    /** The part of `_watch` that handles one exit. */
    method HandleExit(now: real) returns (verdict: Verdict)
      modifies this
      ensures (Current(), verdict) == OnExit(old(Current()), now)
    {
      var kept: seq<real> := [];
      var i := 0;
      while i < |restartHistory|
        invariant 0 <= i <= |restartHistory| && Current() == old(Current())
        invariant kept + Recent(restartHistory[i..], now) == Recent(restartHistory, now)
      {
        assert restartHistory[i..][1..] == restartHistory[i + 1..];
        if now - restartHistory[i] < WINDOW {
          kept := kept + [restartHistory[i]];
        }
        i := i + 1;
      }
      assert restartHistory[i..] == [] && kept == Recent(restartHistory, now);
      restartHistory := kept + [now];
      if |restartHistory| >= THRESHOLD {
        return GiveUp;
      }
      verdict := RestartAfter(backoff);
      backoff := if backoff * 2.0 <= BACKOFF_MAX then backoff * 2.0 else BACKOFF_MAX;
    }
  }

  /** The policy before the exit at `exits[n]`. */
  function PolicyAt(exits: seq<real>, n: nat): Policy
    requires n <= |exits|
  {
    if n == 0 then Fresh else OnExit(PolicyAt(exits, n - 1), exits[n - 1]).0
  }

  function VerdictAt(exits: seq<real>, n: nat): Verdict
    requires n < |exits|
  {
    OnExit(PolicyAt(exits, n), exits[n]).1
  }

  ghost predicate Nondecreasing(ts: seq<real>) {
    forall i, j :: 0 <= i < j < |ts| ==> ts[i] <= ts[j]
  }

  // ---- the filtered history implements the test on the full history

  lemma {:induction false} RecentOfAppend(a: seq<real>, b: seq<real>, now: real)
    ensures Recent(a + b, now) == Recent(a, now) + Recent(b, now)
  {
    if a == [] {
      assert a + b == b;
    } else {
      assert (a + b)[1..] == a[1..] + b;
      RecentOfAppend(a[1..], b, now);
    }
  }

  /** Filtering twice at advancing times is filtering once at the later time. */
  lemma {:induction false} RecentOfRecent(ts: seq<real>, earlier: real, later: real)
    requires earlier <= later
    ensures Recent(Recent(ts, earlier), later) == Recent(ts, later)
  {
    if ts != [] {
      RecentOfRecent(ts[1..], earlier, later);
      if earlier - ts[0] < WINDOW {
        assert Recent(ts, earlier)[1..] == Recent(ts[1..], earlier);
      }
    }
  }

  lemma {:induction false} HistoryIsRecent(exits: seq<real>, n: nat)
    requires Nondecreasing(exits) && 0 < n <= |exits|
    ensures PolicyAt(exits, n).history == Recent(exits[..n], exits[n - 1])
  {
    var now := exits[n - 1];
    assert exits[..n] == exits[..n - 1] + [now];
    RecentOfAppend(exits[..n - 1], [now], now);
    if n > 1 {
      HistoryIsRecent(exits, n - 1);
      RecentOfRecent(exits[..n - 1], exits[n - 2], now);
    }
  }

  lemma {:induction false} AllRecent(ts: seq<real>, now: real)
    requires forall i :: 0 <= i < |ts| ==> now - ts[i] < WINDOW
    ensures Recent(ts, now) == ts
  {
    if ts != [] {
      AllRecent(ts[1..], now);
    }
  }

  /** On ordered times the recent ones are a suffix. */
  lemma {:induction false} RecentIsSuffix(ts: seq<real>, now: real) returns (k: nat)
    requires Nondecreasing(ts)
    ensures k <= |ts| && Recent(ts, now) == ts[k..]
    ensures forall i :: 0 <= i < k ==> now - ts[i] >= WINDOW
    ensures k < |ts| ==> now - ts[k] < WINDOW
  {
    if ts == [] {
      k := 0;
    } else if now - ts[0] < WINDOW {
      k := 0;
      AllRecent(ts, now);
    } else {
      k := RecentIsSuffix(ts[1..], now);
      k := k + 1;
    }
  }

  /** The poison pill is exact: whatever was filtered away before, the supervisor gives up at the `n`-th handled exit
      exactly when it and the two exits before it lie within one window. */
  lemma GivesUpIff(exits: seq<real>, n: nat)
    requires Nondecreasing(exits) && n < |exits|
    ensures VerdictAt(exits, n).GiveUp? <==> n >= 2 && exits[n] - exits[n - 2] < 30.0
  {
    HistoryIsRecent(exits, n + 1);
    assert PolicyAt(exits, n + 1).history == Recent(exits[..n + 1], exits[n]);
    var k := RecentIsSuffix(exits[..n + 1], exits[n]);
    if n >= 2 {
      assert exits[..n + 1][n - 2] == exits[n - 2];
      assert k < n + 1 ==> exits[..n + 1][k] == exits[k];
    }
  }

  /** `n` survived exits span at least 30 * floor((n - 1) / 2) seconds: a child cannot be restarted in a tight loop. */
  lemma {:induction false} SurvivedExitsAreSpread(exits: seq<real>, n: nat)
    requires Nondecreasing(exits) && 0 < n <= |exits|
    requires forall i :: 0 <= i < n ==> !VerdictAt(exits, i).GiveUp?
    ensures exits[n - 1] - exits[0] >= 30.0 * ((n - 1) / 2) as real
  {
    if n > 2 {
      SurvivedExitsAreSpread(exits, n - 2);
      GivesUpIff(exits, n - 1);
      assert (n - 1) / 2 == (n - 3) / 2 + 1;
    }
  }

  function Pow2(n: nat): real {
    if n == 0 then 1.0 else 2.0 * Pow2(n - 1)
  }

  lemma {:induction false} BackoffBefore(exits: seq<real>, n: nat)
    requires n <= |exits|
    requires forall i :: 0 <= i < n ==> !VerdictAt(exits, i).GiveUp?
    ensures PolicyAt(exits, n).backoff == if Pow2(n) <= BACKOFF_MAX then Pow2(n) else BACKOFF_MAX
  {
    if n > 0 {
      BackoffBefore(exits, n - 1);
      assert !VerdictAt(exits, n - 1).GiveUp?;
    }
  }

  /** The restart after the `k`-th survived exit (counting from 0) waits min(2^k, 10) seconds. */
  lemma RestartDelay(exits: seq<real>, k: nat)
    requires k < |exits|
    requires forall i :: 0 <= i <= k ==> !VerdictAt(exits, i).GiveUp?
    ensures VerdictAt(exits, k) == RestartAfter(if Pow2(k) <= 10.0 then Pow2(k) else 10.0)
  {
    BackoffBefore(exits, k);
  }
}
